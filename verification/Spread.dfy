/** Topology spread constraints: the operator always adds two soft ones of its own, so a user's
    list must state them and the provider strips them before handing the list over. */
module Spread {
  import opened Wrappers

  /** The node label to spread over: one of the two the operator spreads over, or any other. */
  datatype Key = Hostname | Zone | OtherLabel(name: string)

  datatype When = ScheduleAnyway | DoNotSchedule

  /** A constraint; `rest` stands for the optional fields besides the selector, "" when all unset. */
  datatype Constraint = Constraint(maxSkew: int, topologyKey: Key, when: When, selector: Option<map<string, string>>,
      rest: string)

  function OperatorSpread(key: Key): Constraint { Constraint(1, key, ScheduleAnyway, None, "") }

  predicate Collides(c: Constraint) { c.when == ScheduleAnyway && (c.topologyKey == Hostname || c.topologyKey == Zone) }

  datatype Verdict = Accepted | FixedByOperator(key: Key) | MustInclude(key: Key)

  predicate Faithful(c: Constraint) { Collides(c) ==> c == OperatorSpread(c.topologyKey) }

  ghost predicate States(list: seq<Constraint>, key: Key) {
    exists c :: c in list && Collides(c) && c.topologyKey == key
  }

  /** What a valid list is: every operator constraint in it as the operator has it, and both present. */
  ghost predicate Valid(list: seq<Constraint>) {
    (forall c :: c in list ==> Faithful(c)) && States(list, Hostname) && States(list, Zone)
  }

  ghost predicate FirstUnfaithful(list: seq<Constraint>, i: nat) {
    i < |list| && !Faithful(list[i]) && forall j :: 0 <= j < i ==> Faithful(list[j])
  }

  method ValidateSpreadConstraints(policy: Option<seq<Constraint>>) returns (v: Verdict)
    ensures policy.None? ==> v == Accepted
    ensures policy.Some? ==> (v == Accepted <==> Valid(policy.value))
    ensures v.FixedByOperator? ==>
              exists i: nat :: FirstUnfaithful(policy.value, i) && policy.value[i].topologyKey == v.key
    ensures v.MustInclude? ==> forall c :: c in policy.value ==> Faithful(c)
    ensures v.MustInclude? ==> !States(policy.value, v.key)
    ensures v.MustInclude? ==> v.key == Hostname || (v.key == Zone && States(policy.value, Hostname))
  {
    if policy.None? { return Accepted; }
    var list := policy.value;
    var found: map<Key, bool> := map[];
    for i := 0 to |list|
      invariant forall c :: c in list[..i] ==> Faithful(c)
      invariant forall key :: key in found <==> States(list[..i], key)
    {
      var c := list[i];
      assert list[..i + 1] == list[..i] + [c];
      if Collides(c) {
        if c != OperatorSpread(c.topologyKey) {
          assert FirstUnfaithful(list, i);
          return FixedByOperator(c.topologyKey);
        }
        found := found[c.topologyKey := true];
      }
      forall key
        ensures States(list[..i + 1], key) <==> States(list[..i], key) || (Collides(c) && key == c.topologyKey)
      {
        if States(list[..i], key) {
          var d :| d in list[..i] && Collides(d) && d.topologyKey == key;
          assert d in list[..i + 1];
        }
        assert c in list[..i + 1];
      }
    }
    assert list[..|list|] == list;
    if Hostname !in found { return MustInclude(Hostname); }
    if Zone !in found { return MustInclude(Zone); }
    return Accepted;
  }

  /** The selector the runtime fills in for a constraint that has none. */
  function WithSelector(c: Constraint, labels: map<string, string>): Constraint {
    if c.selector.None? then c.(selector := Some(labels)) else c
  }

  /** The user's own constraints, as handed to the operator. */
  function Own(list: seq<Constraint>, labels: map<string, string>): seq<Constraint> {
    if list == [] then []
    else
      var c := list[|list| - 1];
      Own(list[..|list| - 1], labels) + if Collides(c) then [] else [WithSelector(c, labels)]
  }

  method InstanceSpreadConstraints(policy: Option<seq<Constraint>>, labels: map<string, string>)
    returns (own: Option<seq<Constraint>>)
    ensures own == match policy { case None => None case Some(list) => Some(Own(list, labels)) }
  {
    if policy.None? { return None; }
    var list := policy.value;
    var kept: seq<Constraint> := [];
    for i := 0 to |list|
      invariant kept == Own(list[..i], labels)
    {
      assert list[..i + 1][..i] == list[..i];
      if !Collides(list[i]) {
        kept := kept + [WithSelector(list[i], labels)];
      }
    }
    assert list[..|list|] == list;
    return Some(kept);
  }

  /** The list as the user means it: selectors filled in, the operator's two left alone. */
  function Meant(list: seq<Constraint>, labels: map<string, string>): seq<Constraint> {
    if list == [] then []
    else
      var c := list[|list| - 1];
      Meant(list[..|list| - 1], labels) + [if Collides(c) then c else WithSelector(c, labels)]
  }

  function Stated(list: seq<Constraint>): seq<Constraint> {
    if list == [] then []
    else
      var c := list[|list| - 1];
      Stated(list[..|list| - 1]) + if Collides(c) then [c] else []
  }

  function OperatorAdds(): seq<Constraint> { [OperatorSpread(Hostname), OperatorSpread(Zone)] }

  lemma {:induction false} MeantSplits(list: seq<Constraint>, labels: map<string, string>)
    ensures multiset(Meant(list, labels)) == multiset(Own(list, labels)) + multiset(Stated(list))
  {
    if list != [] { MeantSplits(list[..|list| - 1], labels); }
  }

  lemma {:induction false} StatedOnly(list: seq<Constraint>)
    requires forall c :: c in list ==> Faithful(c)
    ensures forall c :: c in multiset(Stated(list)) ==> c == OperatorSpread(Hostname) || c == OperatorSpread(Zone)
    ensures forall c :: Collides(c) ==> multiset(Stated(list))[c] == multiset(list)[c]
  {
    if list != [] {
      var last := list[|list| - 1];
      assert list == list[..|list| - 1] + [last];
      assert Faithful(last);
      StatedOnly(list[..|list| - 1]);
    }
  }

  /** Stripping the operator's two and letting the operator add them back gives a valid list back
      as a multiset exactly when the list states each of them once. */
  lemma RoundTrip(list: seq<Constraint>, labels: map<string, string>)
    requires Valid(list)
    ensures multiset(Own(list, labels) + OperatorAdds()) == multiset(Meant(list, labels))
       <==> multiset(list)[OperatorSpread(Hostname)] == 1 && multiset(list)[OperatorSpread(Zone)] == 1
  {
    MeantSplits(list, labels);
    StatedOnly(list);
    Cancel(multiset(Own(list, labels)), multiset(OperatorAdds()), multiset(Stated(list)));
    assert multiset(Own(list, labels) + OperatorAdds()) == multiset(Own(list, labels)) + multiset(OperatorAdds());
    StatesTheTwo(multiset(Stated(list)));
    assert multiset(Stated(list))[OperatorSpread(Hostname)] == multiset(list)[OperatorSpread(Hostname)];
    assert multiset(Stated(list))[OperatorSpread(Zone)] == multiset(list)[OperatorSpread(Zone)];
  }

  lemma StatesTheTwo(stated: multiset<Constraint>)
    requires forall c :: c in stated ==> c == OperatorSpread(Hostname) || c == OperatorSpread(Zone)
    ensures stated == multiset(OperatorAdds())
       <==> stated[OperatorSpread(Hostname)] == 1 && stated[OperatorSpread(Zone)] == 1
  {
    assert multiset(OperatorAdds()) == multiset{OperatorSpread(Hostname), OperatorSpread(Zone)};
    if stated[OperatorSpread(Hostname)] == 1 && stated[OperatorSpread(Zone)] == 1 {
      assert stated == multiset{OperatorSpread(Hostname), OperatorSpread(Zone)};
    }
  }

  /** A valid list on which it is not: one that states the spread over nodes twice. */
  lemma RepeatedConstraint(labels: map<string, string>)
    ensures var list := [OperatorSpread(Hostname), OperatorSpread(Hostname), OperatorSpread(Zone)];
            Valid(list) && multiset(Own(list, labels) + OperatorAdds()) != multiset(Meant(list, labels))
  {
    var list := [OperatorSpread(Hostname), OperatorSpread(Hostname), OperatorSpread(Zone)];
    assert list[0] in list && list[2] in list;
    assert Collides(list[0]) && Collides(list[2]);
    assert multiset(list)[OperatorSpread(Hostname)] == 2;
    RoundTrip(list, labels);
  }

  lemma Cancel<T>(m: multiset<T>, a: multiset<T>, b: multiset<T>)
    ensures m + a == m + b <==> a == b
  {
    assert (m + a) - m == a && (m + b) - m == b;
  }

  predicate SamePair(c: Constraint, d: Constraint) { c.topologyKey == d.topologyKey && c.when == d.when }

  /** No two constraints with the same key and the same reaction, which Kubernetes would reject. */
  ghost predicate PairsDistinct(list: seq<Constraint>) {
    forall i, j :: 0 <= i < j < |list| ==> !SamePair(list[i], list[j])
  }

  lemma {:induction false} OwnAre(list: seq<Constraint>, labels: map<string, string>)
    ensures forall c :: c in Own(list, labels) ==>
              !Collides(c) && exists d :: d in list && !Collides(d) && c == WithSelector(d, labels)
  {
    if list != [] {
      var init := list[..|list| - 1];
      assert list == init + [list[|list| - 1]];
      OwnAre(init, labels);
    }
  }

  lemma {:induction false} OwnDistinct(list: seq<Constraint>, labels: map<string, string>)
    requires PairsDistinct(list)
    ensures PairsDistinct(Own(list, labels))
  {
    if list != [] {
      var init := list[..|list| - 1];
      var own, last := Own(init, labels), list[|list| - 1];
      OwnDistinct(init, labels);
      forall i | 0 <= i < |own| ensures !SamePair(own[i], WithSelector(last, labels)) {
        OwnAre(init, labels);
        assert own[i] in own;
        var d :| d in init && !Collides(d) && own[i] == WithSelector(d, labels);
        var k :| 0 <= k < |init| && list[k] == d;
        assert !SamePair(list[k], list[|list| - 1]);
      }
    }
  }

  lemma {:induction false} OnceEach(list: seq<Constraint>, c: Constraint)
    requires PairsDistinct(list)
    ensures multiset(list)[c] <= 1
  {
    if list != [] {
      var last := |list| - 1;
      OnceEach(list[..last], c);
      assert list == list[..last] + [list[last]];
      if multiset(list[..last])[c] == 1 {
        assert c in list[..last];
      }
    }
  }

  /** For a valid list of distinct pairs the round trip is exact and what the pods get has no
      colliding pair. */
  lemma DistinctRoundTrip(list: seq<Constraint>, labels: map<string, string>)
    requires Valid(list) && PairsDistinct(list)
    ensures multiset(Own(list, labels) + OperatorAdds()) == multiset(Meant(list, labels))
    ensures PairsDistinct(Own(list, labels) + OperatorAdds())
  {
    RoundTrip(list, labels);
    OnceEach(list, OperatorSpread(Hostname));
    OnceEach(list, OperatorSpread(Zone));
    assert OperatorSpread(Hostname) in multiset(list) && OperatorSpread(Zone) in multiset(list);
    OwnDistinct(list, labels);
    OwnApart(list, labels);
  }

  lemma OwnApart(list: seq<Constraint>, labels: map<string, string>)
    requires PairsDistinct(Own(list, labels))
    ensures PairsDistinct(Own(list, labels) + OperatorAdds())
  {
    OwnAre(list, labels);
    var own := Own(list, labels);
    forall i | 0 <= i < |own| ensures !Collides(own[i]) {
      assert own[i] in own;
    }
  }

  // ---------------------------------------------------------------- in plain terms

  const SOFT_HOSTNAME := Constraint(1, Hostname, ScheduleAnyway, None, "")
  const SOFT_ZONE := Constraint(1, Zone, ScheduleAnyway, None, "")

  /** A list is valid exactly if it has the soft spread with skew one and nothing else set over nodes and
      over zones, and no other soft constraint over either. */
  lemma ValidIff(list: seq<Constraint>)
    ensures Valid(list) <==>
              && SOFT_HOSTNAME in list && SOFT_ZONE in list
              && forall c :: c in list && c.when == ScheduleAnyway ==>
                   (c.topologyKey == Hostname ==> c == SOFT_HOSTNAME) && (c.topologyKey == Zone ==> c == SOFT_ZONE)
  {
    assert Collides(SOFT_HOSTNAME) && Collides(SOFT_ZONE);
    if Valid(list) {
      var c :| c in list && Collides(c) && c.topologyKey == Hostname;
      var d :| d in list && Collides(d) && d.topologyKey == Zone;
      assert Faithful(c) && Faithful(d);
    }
  }

  /** What is handed over, constraint by constraint and in order: a soft spread over nodes or zones not at
      all, any other as it is, with the labels for a selector if it has none. */
  lemma {:induction false} OwnAppends(list: seq<Constraint>, c: Constraint, labels: map<string, string>)
    ensures Own([], labels) == []
    ensures Own(list + [c], labels) ==
            if c.when == ScheduleAnyway && c.topologyKey in {Hostname, Zone} then Own(list, labels)
            else Own(list, labels) + [Constraint(c.maxSkew, c.topologyKey, c.when,
                                                 if c.selector.None? then Some(labels) else c.selector, c.rest)]
  {
    assert (list + [c])[..|list|] == list;
  }
}
