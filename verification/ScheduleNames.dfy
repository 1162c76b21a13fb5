/** The schedule name read off the name the operator gives a scheduled backup,
    "<cluster>-<repo>-<type>-<random>". */
module ScheduleNames {
  import opened Text

  /** The text before the first dash. */
  function FirstPart(s: string): string {
    if s == [] || s[0] == '-' then [] else [s[0]] + FirstPart(s[1..])
  }

  function DeriveScheduleName(backup: string, cluster: string, repo: string): string {
    var prefix := cluster + "-" + repo + "-";
    if !HasPrefix(backup, prefix) then backup
    else
      var part := FirstPart(backup[|prefix|..]);
      if part == "" then backup else part
  }

  lemma {:induction false} FirstPartIs(s: string)
    ensures Free(FirstPart(s), '-')
    ensures FirstPart(s) <= s && (|FirstPart(s)| < |s| ==> s[|FirstPart(s)|] == '-')
  {
    if s != [] && s[0] != '-' { FirstPartIs(s[1..]); }
  }

  lemma {:induction false} FirstPartOf(part: string, rest: string)
    requires Free(part, '-')
    ensures FirstPart(part) == part && FirstPart(part + ['-'] + rest) == part
  {
    if part != [] {
      FirstPartOf(part[1..], rest);
      assert (part + ['-'] + rest)[1..] == part[1..] + ['-'] + rest;
    }
  }

  /** Parsing inverts the operator's naming, whatever dashes the cluster, the repo and the random
      suffix contain. */
  lemma RecoversType(cluster: string, repo: string, kind: string, suffix: string)
    requires kind != "" && Free(kind, '-')
    ensures DeriveScheduleName(cluster + "-" + repo + "-" + kind + "-" + suffix, cluster, repo) == kind
  {
    var prefix := cluster + "-" + repo + "-";
    var name := cluster + "-" + repo + "-" + kind + "-" + suffix;
    assert name == prefix + (kind + ['-'] + suffix);
    assert name[|prefix|..] == kind + ['-'] + suffix;
    FirstPartOf(kind, suffix);
  }

  /** A name is never derived empty from a name that is not; and what is derived is the whole name
      exactly when the name does not follow the convention, otherwise a part without dashes. */
  lemma DerivedName(backup: string, cluster: string, repo: string)
    requires backup != ""
    ensures var r, prefix := DeriveScheduleName(backup, cluster, repo), cluster + "-" + repo + "-";
            && r != ""
            && (r == backup || Free(r, '-'))
            && (r == backup <==> !HasPrefix(backup, prefix) || |backup| == |prefix| || backup[|prefix|] == '-')
  {
    var prefix := cluster + "-" + repo + "-";
    if HasPrefix(backup, prefix) {
      FirstPartIs(backup[|prefix|..]);
      assert |FirstPart(backup[|prefix|..])| <= |backup| - |prefix| < |backup|;
    }
  }
}
