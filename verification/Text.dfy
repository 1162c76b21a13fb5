/** Strings as the provider builds them: decimal numbers, pgBackRest repo names,
    and the facts about prefixes and separators that keep names apart. */
module Text {

  predicate IsDigit(c: char) { '0' <= c <= '9' }

  predicate Digits(s: string) { forall i :: 0 <= i < |s| ==> IsDigit(s[i]) }

  function DigitValue(c: char): nat
    requires IsDigit(c)
  {
    c as int - '0' as int
  }

  function Digit(d: nat): (c: char)
    requires d < 10
    ensures IsDigit(c) && DigitValue(c) == d
  {
    ('0' as int + d) as char
  }

  /** The number a string of digits denotes. */
  function Value(s: string): nat
    requires Digits(s)
  {
    if s == [] then 0 else 10 * Value(s[..|s| - 1]) + DigitValue(s[|s| - 1])
  }

  function NatText(n: nat): (s: string)
    ensures s != [] && Digits(s)
  {
    if n < 10 then [Digit(n)] else NatText(n / 10) + [Digit(n % 10)]
  }

  /** Decimal text of any integer, as `%d` and `strconv.Itoa` print it. */
  function Itoa(n: int): string {
    if n < 0 then "-" + NatText(-n) else NatText(n)
  }

  lemma {:induction false} ValueOfNatText(n: nat)
    ensures Value(NatText(n)) == n
  {
    if n >= 10 {
      ValueOfNatText(n / 10);
      var s := NatText(n / 10) + [Digit(n % 10)];
      assert s[..|s| - 1] == NatText(n / 10);
    }
  }

  /** Digits without a leading zero are the text of the number they denote. */
  lemma {:induction false} TextOfValue(s: string)
    requires Digits(s) && s != [] && s[0] != '0'
    ensures Value(s) > 0 && NatText(Value(s)) == s
  {
    var init, last := s[..|s| - 1], s[|s| - 1];
    assert Digit(DigitValue(last)) == last;
    if init == [] {
      assert s == [last] && Value(init) == 0;
    } else {
      TextOfValue(init);
      assert Value(s) / 10 == Value(init) && Value(s) % 10 == DigitValue(last);
      assert s == init + [last];
    }
  }

  lemma ItoaInjective(m: int, n: int)
    requires Itoa(m) == Itoa(n)
    ensures m == n
  {
    assert Itoa(m)[0] == Itoa(n)[0];
    if m < 0 && n < 0 {
      assert NatText(-m) == Itoa(m)[1..] == Itoa(n)[1..] == NatText(-n);
      ValueOfNatText(-m);
      ValueOfNatText(-n);
    } else if m >= 0 && n >= 0 {
      ValueOfNatText(m);
      ValueOfNatText(n);
    }
  }

  predicate HasPrefix(s: string, prefix: string) { prefix <= s }

  predicate Free(s: string, c: char) { forall i :: 0 <= i < |s| ==> s[i] != c }

  /** Text up to the first `c` is determined by the whole: the separator argument behind
      every name and path in this project. */
  lemma SplitAtFirst(a: string, x: string, b: string, y: string, c: char)
    requires Free(a, c) && Free(b, c)
    requires a + [c] + x == b + [c] + y
    ensures a == b && x == y
  {
    var s, t := a + [c] + x, b + [c] + y;
    assert s[|a|] == c && t[|b|] == c;
    assert forall i :: 0 <= i < |a| ==> s[i] == a[i];
    assert forall i :: 0 <= i < |b| ==> t[i] == b[i];
    assert a == s[..|a|] && b == t[..|b|];
    assert x == s[|a| + 1..] && y == t[|b| + 1..];
  }

  /** The same for the text after the last `c`. */
  lemma SplitAtLast(a: string, x: string, b: string, y: string, c: char)
    requires Free(x, c) && Free(y, c)
    requires a + [c] + x == b + [c] + y
    ensures a == b && x == y
  {
    var s, t := a + [c] + x, b + [c] + y;
    assert s[|a|] == c && t[|b|] == c;
    assert forall i :: |a| < i < |s| ==> s[i] == x[i - |a| - 1];
    assert forall i :: |b| < i < |t| ==> t[i] == y[i - |b| - 1];
    assert a == s[..|a|] && b == t[..|b|];
    assert x == s[|a| + 1..] && y == t[|b| + 1..];
  }

  /** The pgBackRest repo name of a zero-based slot. */
  function RepoName(slot: int): string { "repo" + Itoa(slot + 1) }

  /** The four repos are called repo1 to repo4. */
  lemma FourRepos()
    ensures RepoName(0) == "repo1" && RepoName(1) == "repo2" && RepoName(2) == "repo3" && RepoName(3) == "repo4"
  {
    assert NatText(1) == "1" && NatText(2) == "2" && NatText(3) == "3" && NatText(4) == "4";
  }

  lemma RepoNameInjective(i: int, j: int)
    requires RepoName(i) == RepoName(j)
    ensures i == j
  {
    assert Itoa(i + 1) == RepoName(i)[4..] == RepoName(j)[4..] == Itoa(j + 1);
    ItoaInjective(i + 1, j + 1);
  }

  /** The name of one pgBackRest option of one repo. */
  function RepoKey(repo: string, option: string): string { repo + "-" + option }

  lemma DigitsApart(m: nat, x: string, n: nat, y: string)
    requires NatText(m) + ['-'] + x == NatText(n) + ['-'] + y
    ensures m == n && x == y
  {
    SplitAtFirst(NatText(m), x, NatText(n), y, '-');
    ValueOfNatText(m);
    ValueOfNatText(n);
  }

  lemma FirstChar(n: int, x: string)
    ensures var s := Itoa(n) + ['-'] + x;
            if n < 0 then s[0] == '-' && s[1..] == NatText(-n) + ['-'] + x
            else IsDigit(s[0]) && s == NatText(n) + ['-'] + x
  {
  }

  lemma NumbersApart(m: int, x: string, n: int, y: string)
    requires Itoa(m) + ['-'] + x == Itoa(n) + ['-'] + y
    ensures m == n && x == y
  {
    FirstChar(m, x);
    FirstChar(n, y);
    if m < 0 {
      DigitsApart(-m, x, -n, y);
    } else {
      DigitsApart(m, x, n, y);
    }
  }

  /** No repo's keys begin with another repo's name and dash, whatever the two indexes:
      "repo1-" is not the beginning of any "repo10-..." key. */
  lemma RepoKeysApart(i: int, x: string, j: int, y: string)
    requires RepoKey(RepoName(i), x) == RepoKey(RepoName(j), y)
    ensures i == j && x == y
  {
    AfterRepo(i, x);
    AfterRepo(j, y);
    NumbersApart(i + 1, x, j + 1, y);
  }

  lemma AfterRepo(i: int, x: string)
    ensures RepoKey(RepoName(i), x)[4..] == Itoa(i + 1) + ['-'] + x
  {
  }

  /** `RepoKeysApart` as a statement about prefixes. */
  lemma RepoPrefixesApart(i: int, j: int, key: string)
    requires i != j
    requires HasPrefix(key, RepoName(i) + "-")
    ensures !HasPrefix(key, RepoName(j) + "-")
  {
    if HasPrefix(key, RepoName(j) + "-") {
      var x, y := key[|RepoName(i)| + 1..], key[|RepoName(j)| + 1..];
      assert key == RepoKey(RepoName(i), x) && key == RepoKey(RepoName(j), y);
      RepoKeysApart(i, x, j, y);
    }
  }

  /** Lower case, for the comparisons the provider makes with "full", "diff" and "incr":
      the ASCII letters, and the one other character that Go lowers to a letter of these words. */
  function Lower(s: string): (r: string)
    ensures |r| == |s|
  {
    seq(|s|, i requires 0 <= i < |s| => LowerChar(s[i]))
  }

  function LowerChar(c: char): char {
    if 'A' <= c <= 'Z' then (c as int + 32) as char
    else if c == '\U{130}' then 'i'
    else c
  }

  function TrimLeft(s: string): string {
    if s != [] && s[0] == '/' then TrimLeft(s[1..]) else s
  }

  function TrimRight(s: string): string {
    if s != [] && s[|s| - 1] == '/' then TrimRight(s[..|s| - 1]) else s
  }

  /** `strings.Trim(s, "/")`. */
  function TrimSlashes(s: string): string { TrimRight(TrimLeft(s)) }

  predicate Slashes(s: string) { forall i :: 0 <= i < |s| ==> s[i] == '/' }

  lemma {:induction false} LeftTrimmed(s: string) returns (a: string)
    ensures Slashes(a) && s == a + TrimLeft(s) && (TrimLeft(s) != [] ==> TrimLeft(s)[0] != '/')
  {
    if s != [] && s[0] == '/' {
      var rest := LeftTrimmed(s[1..]);
      a := ['/'] + rest;
      assert s == ['/'] + s[1..];
    } else {
      a := [];
      assert s == [] + s;
    }
  }

  lemma {:induction false} RightTrimmed(s: string) returns (b: string)
    ensures Slashes(b) && s == TrimRight(s) + b && (TrimRight(s) != [] ==> TrimRight(s)[|TrimRight(s)| - 1] != '/')
  {
    if s != [] && s[|s| - 1] == '/' {
      var rest := RightTrimmed(s[..|s| - 1]);
      b := rest + ['/'];
      assert s == s[..|s| - 1] + ['/'];
    } else {
      b := [];
      assert s == s + [];
    }
  }

  /** Trimming takes slashes off both ends, all of them, and nothing else. */
  lemma Trimmed(s: string) returns (a: string, b: string)
    ensures Slashes(a) && Slashes(b) && s == a + TrimSlashes(s) + b
    ensures var r := TrimSlashes(s); r != [] ==> r[0] != '/' && r[|r| - 1] != '/'
  {
    a := LeftTrimmed(s);
    b := RightTrimmed(TrimLeft(s));
    assert TrimLeft(s) == TrimSlashes(s) + b;
  }
}
