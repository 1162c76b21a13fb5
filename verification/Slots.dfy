/** The slot allocator: which of pgBackRest's four repos each backup storage owns.

    The assignment is persisted as an annotation on the live cluster. Here an annotation that is
    absent, unreadable or empty is the empty map: every reader treats the three alike. */
module Slots {
  import opened Wrappers
  import opened Text

  const MAX_REPOS := 4

  type SlotMap = map<string, int>

  predicate InRange(m: SlotMap) { forall n :: n in m ==> 0 <= m[n] < MAX_REPOS }

  predicate Injective(m: SlotMap) {
    forall a, b :: a in m && b in m && m[a] == m[b] ==> a == b
  }

  predicate Distinct(names: seq<string>) {
    forall i, j :: 0 <= i < j < |names| ==> names[i] != names[j]
  }

  // ---------------------------------------------------------------- specification

  /** Assignments that outlive a change of the list: still listed and a real slot. */
  function Survivors(existing: SlotMap, names: seq<string>): SlotMap {
    map n | n in existing && n in names && 0 <= existing[n] < MAX_REPOS :: existing[n]
  }

  /** The slots from `slot` on that nobody holds, in ascending order. */
  function FreeFrom(used: set<int>, slot: nat): seq<nat>
    requires slot <= MAX_REPOS
    decreases MAX_REPOS - slot
  {
    if slot == MAX_REPOS then []
    else if slot in used then FreeFrom(used, slot + 1)
    else [slot] + FreeFrom(used, slot + 1)
  }

  function FreeSlots(m: SlotMap): seq<nat> { FreeFrom(m.Values, 0) }

  /** `free` lists exactly the unheld slots from `slot` on, ascending. */
  ghost predicate ListsFree(used: set<int>, slot: nat, free: seq<nat>) {
    && (forall s :: s in free <==> slot <= s < MAX_REPOS && s !in used)
    && (forall i, j :: 0 <= i < j < |free| ==> free[i] < free[j])
  }

  lemma {:induction false} FreeFromLists(used: set<int>, slot: nat)
    requires slot <= MAX_REPOS
    ensures ListsFree(used, slot, FreeFrom(used, slot))
    decreases MAX_REPOS - slot
  {
    if slot < MAX_REPOS {
      FreeFromLists(used, slot + 1);
      if slot !in used { OneMoreFree(used, slot, FreeFrom(used, slot + 1)); }
    }
  }

  lemma OneMoreFree(used: set<int>, slot: nat, rest: seq<nat>)
    requires slot < MAX_REPOS && slot !in used && ListsFree(used, slot + 1, rest)
    ensures ListsFree(used, slot, [slot] + rest)
  {
    forall i, j | 0 <= i < j < |[slot] + rest| ensures ([slot] + rest)[i] < ([slot] + rest)[j] {
      assert rest[j - 1] in rest;
    }
  }

  /** The listed names without an assignment, each once, in order of first appearance. */
  function Newcomers(m: SlotMap, names: seq<string>): seq<string> {
    if names == [] then []
    else
      var rest, last := Newcomers(m, names[..|names| - 1]), names[|names| - 1];
      if last in m || last in rest then rest else rest + [last]
  }

  /** The j-th newcomer gets the j-th free slot, as far as the slots go. */
  function Grant(news: seq<string>, free: seq<nat>): SlotMap {
    if news == [] then map[]
    else
      var last := |news| - 1;
      var g := Grant(news[..last], free);
      if last < |free| then g[news[last] := free[last]] else g
  }

  function Reconcile(existing: SlotMap, names: seq<string>): SlotMap {
    var kept := Survivors(existing, names);
    kept + Grant(Newcomers(kept, names), FreeSlots(kept))
  }

  // ---------------------------------------------------------------- the loop

  /** The slots occupied once the first `m` newcomers were served. */
  function Taken(used: set<int>, free: seq<nat>, m: nat): set<int> {
    if m == 0 then used
    else Taken(used, free, m - 1) + if m - 1 < |free| then {free[m - 1]} else {}
  }

  lemma {:induction false} TakenAre(used: set<int>, free: seq<nat>, m: nat)
    ensures forall s :: s in Taken(used, free, m) ==> s in used || exists k :: 0 <= k < |free| && k < m && free[k] == s
    ensures used <= Taken(used, free, m)
    ensures forall k :: 0 <= k < |free| && k < m ==> free[k] in Taken(used, free, m)
  {
    if m > 0 {
      TakenAre(used, free, m - 1);
    }
  }

  lemma LowestFreeIsNext(used: set<int>, free: seq<nat>, m: nat, slot: nat)
    requires ListsFree(used, 0, free)
    requires slot < MAX_REPOS && slot !in Taken(used, free, m)
    requires forall t :: 0 <= t < slot ==> t in Taken(used, free, m)
    ensures m < |free| && free[m] == slot
  {
    TakenAre(used, free, m);
    assert slot in free;
    var k :| 0 <= k < |free| && free[k] == slot;
    assert m <= k;
    NextIsUntaken(used, free, m);
  }

  lemma NextIsUntaken(used: set<int>, free: seq<nat>, m: nat)
    requires ListsFree(used, 0, free)
    requires m < |free|
    ensures 0 <= free[m] < MAX_REPOS
    ensures free[m] !in Taken(used, free, m)
  {
    TakenAre(used, free, m);
    assert free[m] in free;
  }

  /** Serving one more newcomer. */
  lemma GrantNext(kept: SlotMap, names: seq<string>, i: nat, free: seq<nat>)
    requires i < |names|
    ensures var news, after := Newcomers(kept, names[..i]), Newcomers(kept, names[..i + 1]);
            if names[i] in kept || names[i] in news then after == news
            else && after == news + [names[i]]
                 && Grant(after, free) ==
                    if |news| < |free| then Grant(news, free)[names[i] := free[|news|]] else Grant(news, free)
  {
    var news := Newcomers(kept, names[..i]);
    assert names[..i + 1][..i] == names[..i];
    assert (news + [names[i]])[..|news|] == news;
  }

  method ReconcileRepoSlotMap(existing: SlotMap, names: seq<string>) returns (result: SlotMap)
    ensures result == Reconcile(existing, names)
  {
    var current: set<string> := {};
    for i := 0 to |names|
      invariant forall n :: n in current <==> n in names[..i]
    {
      current := current + {names[i]};
    }
    assert names[..|names|] == names;

    var occupied := new bool[MAX_REPOS](_ => false);
    result := PreserveExisting(existing, names, current, occupied);

    result := AssignNewcomers(result, names, occupied);
  }

  /** The first loop: it visits the persisted map in an order the language leaves open. */
  method PreserveExisting(existing: SlotMap, names: seq<string>, current: set<string>, occupied: array<bool>)
    returns (result: SlotMap)
    requires occupied.Length == MAX_REPOS
    requires forall s :: 0 <= s < MAX_REPOS ==> !occupied[s]
    requires forall n :: n in current <==> n in names
    modifies occupied
    ensures result == Survivors(existing, names)
    ensures forall s :: 0 <= s < MAX_REPOS ==> (occupied[s] <==> s in result.Values)
  {
    result := map[];
    var remaining := existing.Keys;
    while remaining != {}
      invariant remaining <= existing.Keys
      invariant forall n :: n in result <==> n in Survivors(existing, names) && n !in remaining
      invariant forall n :: n in result ==> result[n] == existing[n]
      invariant forall s :: 0 <= s < MAX_REPOS ==> (occupied[s] <==> exists n :: n in result && result[n] == s)
    {
      var name :| name in remaining;
      var slot := existing[name];
      if name in current && 0 <= slot < MAX_REPOS {
        result := result[name := slot];
        occupied[slot] := true;
        assert result[name] == slot;
      }
      remaining := remaining - {name};
    }
    assert result == Survivors(existing, names);
  }

  /** What the second loop has built after the names in `served`. */
  ghost predicate Served(kept: SlotMap, free: seq<nat>, served: seq<string>, result: SlotMap, occupied: seq<bool>)
    requires |occupied| == MAX_REPOS
  {
    ServedTo(kept, free, Newcomers(kept, served), result, occupied)
  }

  ghost predicate ServedTo(kept: SlotMap, free: seq<nat>, news: seq<string>, result: SlotMap, occupied: seq<bool>)
    requires |occupied| == MAX_REPOS
  {
    && result == kept + Grant(news, free)
    && forall s :: 0 <= s < MAX_REPOS ==> (occupied[s] <==> s in Taken(kept.Values, free, |news|))
  }

  lemma ServeKnown(kept: SlotMap, free: seq<nat>, names: seq<string>, i: nat, result: SlotMap, occupied: seq<bool>)
    requires |occupied| == MAX_REPOS && i < |names| && names[i] in result
    requires Served(kept, free, names[..i], result, occupied)
    ensures Served(kept, free, names[..i + 1], result, occupied)
  {
    GrantNext(kept, names, i, free);
    NewcomersAre(kept, names[..i]);
    GrantedNames(Newcomers(kept, names[..i]), free);
  }

  lemma ServeNext(kept: SlotMap, free: seq<nat>, names: seq<string>, i: nat, result: SlotMap, occupied: seq<bool>,
      slot: nat)
    requires ListsFree(kept.Values, 0, free)
    requires |occupied| == MAX_REPOS && i < |names| && names[i] !in result
    requires Served(kept, free, names[..i], result, occupied)
    requires slot < MAX_REPOS && !occupied[slot] && forall t :: 0 <= t < slot ==> occupied[t]
    ensures Served(kept, free, names[..i + 1], result[names[i] := slot], occupied[slot := true])
  {
    var news, after := Newcomers(kept, names[..i]), Newcomers(kept, names[..i + 1]);
    NextIsNew(kept, free, names[..i], result, occupied, names[i], slot);
    assert after == news + [names[i]] && Grant(after, free) == Grant(news, free)[names[i] := slot] by {
      GrantNext(kept, names, i, free);
    }
  }

  lemma NextIsNew(kept: SlotMap, free: seq<nat>, served: seq<string>, result: SlotMap, occupied: seq<bool>,
      name: string, slot: nat)
    requires ListsFree(kept.Values, 0, free)
    requires |occupied| == MAX_REPOS && name !in result
    requires Served(kept, free, served, result, occupied)
    requires slot < MAX_REPOS && !occupied[slot] && forall t :: 0 <= t < slot ==> occupied[t]
    ensures var news := Newcomers(kept, served);
            && name !in kept && name !in news
            && |news| < |free| && free[|news|] == slot
  {
    var news := Newcomers(kept, served);
    NewcomersAre(kept, served);
    LowestFreeIsNext(kept.Values, free, |news|, slot);
    GrantedNames(news, free);
  }

  lemma ServeNone(kept: SlotMap, free: seq<nat>, names: seq<string>, i: nat, result: SlotMap, occupied: seq<bool>)
    requires ListsFree(kept.Values, 0, free)
    requires |occupied| == MAX_REPOS && i < |names| && names[i] !in result
    requires Served(kept, free, names[..i], result, occupied)
    requires forall t :: 0 <= t < MAX_REPOS ==> occupied[t]
    ensures Served(kept, free, names[..i + 1], result, occupied)
  {
    var news, after := Newcomers(kept, names[..i]), Newcomers(kept, names[..i + 1]);
    GrantNext(kept, names, i, free);
    NoneFree(kept, free, news, result, occupied);
    if after != news { NoneServed(kept, free, news, names[i], result, occupied); }
  }

  lemma NoneFree(kept: SlotMap, free: seq<nat>, news: seq<string>, result: SlotMap, occupied: seq<bool>)
    requires ListsFree(kept.Values, 0, free) && |occupied| == MAX_REPOS
    requires ServedTo(kept, free, news, result, occupied)
    requires forall t :: 0 <= t < MAX_REPOS ==> occupied[t]
    ensures |free| <= |news|
  {
    if |news| < |free| { NextIsUntaken(kept.Values, free, |news|); }
  }

  lemma NoneServed(kept: SlotMap, free: seq<nat>, news: seq<string>, name: string, result: SlotMap,
      occupied: seq<bool>)
    requires |occupied| == MAX_REPOS && |free| <= |news| && ServedTo(kept, free, news, result, occupied)
    requires Grant(news + [name], free) == Grant(news, free)
    ensures ServedTo(kept, free, news + [name], result, occupied)
  {
    assert Taken(kept.Values, free, |news| + 1) == Taken(kept.Values, free, |news|);
  }

  /** The second loop: the lowest free slot for each storage that has none. */
  method AssignNewcomers(kept: SlotMap, names: seq<string>, occupied: array<bool>) returns (result: SlotMap)
    requires occupied.Length == MAX_REPOS
    requires forall s :: 0 <= s < MAX_REPOS ==> (occupied[s] <==> s in kept.Values)
    modifies occupied
    ensures result == kept + Grant(Newcomers(kept, names), FreeSlots(kept))
  {
    result := kept;
    ghost var free := FreeSlots(kept);
    FreeFromLists(kept.Values, 0);
    for i := 0 to |names|
      invariant Served(kept, free, names[..i], result, occupied[..])
    {
      if names[i] in result {
        ServeKnown(kept, free, names, i, result, occupied[..]);
      } else {
        var slot := LowestUnoccupied(occupied);
        if slot < MAX_REPOS {
          ServeNext(kept, free, names, i, result, occupied[..], slot);
          result := result[names[i] := slot];
          occupied[slot] := true;
        } else {
          ServeNone(kept, free, names, i, result, occupied[..]);
        }
      }
    }
    assert names[..|names|] == names;
  }

  method LowestUnoccupied(occupied: array<bool>) returns (slot: nat)
    requires occupied.Length == MAX_REPOS
    ensures slot <= MAX_REPOS
    ensures slot < MAX_REPOS ==> !occupied[slot]
    ensures forall t :: 0 <= t < slot ==> occupied[t]
  {
    slot := 0;
    while slot < MAX_REPOS && occupied[slot]
      invariant 0 <= slot <= MAX_REPOS
      invariant forall t :: 0 <= t < slot ==> occupied[t]
    {
      slot := slot + 1;
    }
  }

  lemma {:induction false} NewcomersAre(m: SlotMap, names: seq<string>)
    ensures Distinct(Newcomers(m, names))
    ensures forall n :: n in Newcomers(m, names) <==> n in names && n !in m
  {
    if names != [] {
      NewcomersAre(m, names[..|names| - 1]);
      assert names == names[..|names| - 1] + [names[|names| - 1]];
    }
  }

  /** Which newcomers a grant serves, and with what. */
  lemma {:induction false} GrantedNames(news: seq<string>, free: seq<nat>)
    requires Distinct(news)
    ensures forall n :: n in Grant(news, free) ==> n in news
    ensures forall j :: 0 <= j < |news| ==> (news[j] in Grant(news, free) <==> j < |free|)
    ensures forall j :: 0 <= j < |news| && j < |free| ==> Grant(news, free)[news[j]] == free[j]
  {
    if news != [] {
      var last := |news| - 1;
      var g, grant := Grant(news[..last], free), Grant(news, free);
      GrantedNames(news[..last], free);
      assert grant == if last < |free| then g[news[last] := free[last]] else g;
      assert news == news[..last] + [news[last]];
      forall j | 0 <= j < last
        ensures (news[j] in grant <==> j < |free|) && (j < |free| ==> grant[news[j]] == free[j])
      {
        assert news[..last][j] == news[j] != news[last];
      }
      assert news[last] in g ==> news[last] in news[..last];
    }
  }

  // ---------------------------------------------------------------- what an allocation is

  /** The whole result, without a loop: what was kept, who is new, and that newcomer j holds
      the j-th lowest of the slots nobody kept. */
  lemma ReconcileIs(existing: SlotMap, names: seq<string>)
    ensures var r, kept := Reconcile(existing, names), Survivors(existing, names);
            var news, free := Newcomers(kept, names), FreeSlots(kept);
            && ListsFree(kept.Values, 0, free)
            && Distinct(news) && (forall n :: n in news <==> n in names && n !in kept)
            && (forall n :: n in r ==> n in kept || n in news)
            && (forall n :: n in kept ==> n in r && r[n] == existing[n])
            && (forall j :: 0 <= j < |news| ==> (news[j] in r <==> j < |free|))
            && (forall j :: 0 <= j < |news| && j < |free| ==> r[news[j]] == free[j])
  {
    var kept := Survivors(existing, names);
    FreeFromLists(kept.Values, 0);
    NewcomersAre(kept, names);
    GrantedNames(Newcomers(kept, names), FreeSlots(kept));
  }

  /** Only listed storages hold slots, the slots are repo1..repo4, and a storage that is still
      listed keeps the one it has: nobody else's arrival or departure moves it. */
  lemma ReconcileKeeps(existing: SlotMap, names: seq<string>)
    ensures InRange(Reconcile(existing, names))
    ensures forall n :: n in Reconcile(existing, names) ==> n in names
    ensures forall n :: n in existing && n in names && 0 <= existing[n] < MAX_REPOS ==>
              n in Reconcile(existing, names) && Reconcile(existing, names)[n] == existing[n]
  {
    ReconcileIs(existing, names);
    var r, kept := Reconcile(existing, names), Survivors(existing, names);
    var news, free := Newcomers(kept, names), FreeSlots(kept);
    forall n | n in r ensures n in names && 0 <= r[n] < MAX_REPOS {
      if n !in kept {
        var j :| 0 <= j < |news| && news[j] == n;
        assert free[j] in free;
      }
    }
  }

  /** A newcomer that comes alone gets the lowest slot nobody kept. */
  lemma SoleNewcomer(existing: SlotMap, names: seq<string>, n: string, slot: nat)
    requires n in names && n !in Survivors(existing, names)
    requires forall m :: m in names ==> m == n || m in Survivors(existing, names)
    requires slot < MAX_REPOS && slot !in Survivors(existing, names).Values
    requires forall t :: 0 <= t < slot ==> t in Survivors(existing, names).Values
    ensures n in Reconcile(existing, names) && Reconcile(existing, names)[n] == slot
  {
    ReconcileIs(existing, names);
    var kept := Survivors(existing, names);
    var news, free := Newcomers(kept, names), FreeSlots(kept);
    var j :| 0 <= j < |news| && news[j] == n;
    assert news[0] in news && j == 0;
    assert slot in free;
    var k :| 0 <= k < |free| && free[k] == slot;
    assert free[0] in free && k == 0;
  }

  lemma {:induction false} NewcomersInOrder(m: SlotMap, names: seq<string>, i: nat, j: nat) returns (k: nat, l: nat)
    requires i < j < |names| && names[i] !in m && names[j] !in m && names[j] !in names[..j]
    ensures var news := Newcomers(m, names);
            k < l < |news| && news[k] == names[i] && news[l] == names[j]
  {
    var last := |names| - 1;
    var rest := Newcomers(m, names[..last]);
    if j < last {
      assert names[..last][..j] == names[..j];
      k, l := NewcomersInOrder(m, names[..last], i, j);
      assert rest <= Newcomers(m, names);
    } else {
      NewcomersAre(m, names[..last]);
      assert names[i] in names[..last];
      k :| 0 <= k < |rest| && rest[k] == names[i];
      l := |rest|;
    }
  }

  /** Newcomers are served in the order of the list: of two, the one named first is not the one left out,
      and has the lower slot. */
  lemma EarlierIsLower(existing: SlotMap, names: seq<string>, i: nat, j: nat)
    requires i < j < |names| && names[j] !in names[..j]
    requires forall n :: n in {names[i], names[j]} && n in existing ==> !(0 <= existing[n] < MAX_REPOS)
    ensures var r := Reconcile(existing, names);
            names[j] in r ==> names[i] in r && r[names[i]] < r[names[j]]
  {
    ReconcileIs(existing, names);
    var k, l := NewcomersInOrder(Survivors(existing, names), names, i, j);
  }

  /** Two storages never share a slot, given that the persisted map has none shared. */
  lemma ReconcileInjective(existing: SlotMap, names: seq<string>)
    requires Injective(existing)
    ensures Injective(Reconcile(existing, names))
  {
    ReconcileIs(existing, names);
    var r, kept := Reconcile(existing, names), Survivors(existing, names);
    var news, free := Newcomers(kept, names), FreeSlots(kept);
    forall a, b | a in r && b in r && r[a] == r[b] ensures a == b {
      if a in kept && b in kept {
      } else if a in kept {
        NewSlotsAreFree(existing, names, b);
      } else if b in kept {
        NewSlotsAreFree(existing, names, a);
      } else {
        var i :| 0 <= i < |news| && news[i] == a;
        var j :| 0 <= j < |news| && news[j] == b;
        assert i == j;
      }
    }
  }

  lemma NewSlotsAreFree(existing: SlotMap, names: seq<string>, n: string)
    requires n in Reconcile(existing, names) && n !in Survivors(existing, names)
    ensures forall k :: k in Survivors(existing, names) ==> existing[k] != Reconcile(existing, names)[n]
  {
    ReconcileIs(existing, names);
    var kept := Survivors(existing, names);
    var news, free := Newcomers(kept, names), FreeSlots(kept);
    var j :| 0 <= j < |news| && news[j] == n;
    assert free[j] in free;
    forall k | k in kept ensures existing[k] != free[j] {
      assert kept[k] in kept.Values;
    }
  }

  /** A listed storage goes without a slot only when all four are held by others. */
  lemma UnservedMeansFull(existing: SlotMap, names: seq<string>, n: string, slot: nat) returns (holder: string)
    requires n in names && n !in Reconcile(existing, names)
    requires slot < MAX_REPOS
    ensures holder in Reconcile(existing, names) && Reconcile(existing, names)[holder] == slot
    ensures holder in names
  {
    ReconcileIs(existing, names);
    ReconcileKeeps(existing, names);
    var kept := Survivors(existing, names);
    var news, free := Newcomers(kept, names), FreeSlots(kept);
    var i :| 0 <= i < |news| && news[i] == n;
    if slot in kept.Values {
      holder :| holder in kept && kept[holder] == slot;
    } else {
      assert slot in free;
      var j :| 0 <= j < |free| && free[j] == slot;
      holder := news[j];
    }
  }

  function Names(names: seq<string>): set<string> { set n | n in names }

  lemma {:induction false} FewNames(names: seq<string>)
    ensures |Names(names)| <= |names|
    ensures Distinct(names) ==> |Names(names)| == |names|
  {
    if names == [] {
      assert Names(names) == {};
    } else {
      var last := |names| - 1;
      FewNames(names[..last]);
      assert Names(names) == Names(names[..last]) + {names[last]};
    }
  }

  /** So a listed storage without a slot shows at least five distinct entries, whatever map
      was persisted: the limit check that follows a failed lookup cannot let it through. */
  lemma UnservedMeansFive(existing: SlotMap, names: seq<string>, n: string)
    requires n in names && n !in Reconcile(existing, names)
    ensures |Names(names)| > MAX_REPOS && |names| > MAX_REPOS
  {
    var a := UnservedMeansFull(existing, names, n, 0);
    var b := UnservedMeansFull(existing, names, n, 1);
    var c := UnservedMeansFull(existing, names, n, 2);
    var d := UnservedMeansFull(existing, names, n, 3);
    var five := {a, b, c, d, n};
    assert |five| == 5 by { assert five == {a} + {b} + {c} + {d} + {n}; }
    assert five <= Names(names);
    FewerElements(five, Names(names));
    FewNames(names);
  }

  lemma {:induction false} FewerElements<T>(a: set<T>, b: set<T>)
    requires a <= b
    ensures |a| <= |b|
  {
    if a != {} {
      var x :| x in a;
      FewerElements(a - {x}, b - {x});
    }
  }

  /** Reconciling again changes nothing, so the lookup that recomputes the map agrees with the
      map that was persisted. */
  lemma ReconcileIdempotent(existing: SlotMap, names: seq<string>)
    ensures Reconcile(Reconcile(existing, names), names) == Reconcile(existing, names)
  {
    var r := Reconcile(existing, names);
    ReconcileKeeps(existing, names);
    assert Survivors(r, names) == r;
    NewcomersAre(r, names);
    if Newcomers(r, names) != [] {
      var n := Newcomers(r, names)[0];
      assert n in Newcomers(r, names);
      forall s | 0 <= s < MAX_REPOS ensures s in r.Values {
        var holder := UnservedMeansFull(existing, names, n, s);
      }
      assert 0 in r.Values && 1 in r.Values && 2 in r.Values && 3 in r.Values;
      assert FreeSlots(r) == [];
      GrantNothing(Newcomers(r, names));
    }
  }

  lemma {:induction false} GrantNothing(news: seq<string>)
    ensures Grant(news, []) == map[]
  {
    if news != [] { GrantNothing(news[..|news| - 1]); }
  }

  /** Exactly as many slots are held as four repos and the distinct names allow. */
  lemma ReconcileSize(existing: SlotMap, names: seq<string>)
    requires Injective(existing)
    ensures |Reconcile(existing, names)| == if |Names(names)| < MAX_REPOS then |Names(names)| else MAX_REPOS
  {
    var r := Reconcile(existing, names);
    ReconcileKeeps(existing, names);
    ReconcileInjective(existing, names);
    InjectiveSize(r);
    FourSlots(r.Values);
    if n :| n in names && n !in r {
      UnservedMeansFive(existing, names, n);
      forall s | 0 <= s < MAX_REPOS ensures s in r.Values {
        var holder := UnservedMeansFull(existing, names, n, s);
      }
    } else {
      assert r.Keys == Names(names);
    }
  }

  lemma FourSlots(values: set<int>)
    requires forall v :: v in values ==> 0 <= v < MAX_REPOS
    ensures |values| <= MAX_REPOS
    ensures (forall s :: 0 <= s < MAX_REPOS ==> s in values) ==> |values| == MAX_REPOS
  {
    var all: set<int> := {0} + {1} + {2} + {3};
    forall v | v in values ensures v in all {
      assert v == 0 || v == 1 || v == 2 || v == 3;
    }
    FewerElements(values, all);
    if forall s :: 0 <= s < MAX_REPOS ==> s in values {
      assert values == all;
    }
  }

  lemma {:induction false} InjectiveSize(m: SlotMap)
    requires Injective(m)
    ensures |m.Values| == |m| == |m.Keys|
  {
    if m == map[] {
      assert m.Values == {};
    } else {
      var k :| k in m;
      var rest := m - {k};
      InjectiveSize(rest);
      assert m.Values == rest.Values + {m[k]};
      assert m.Keys == rest.Keys + {k};
    }
  }

  // ---------------------------------------------------------------- looking repos up

  /** The repo a storage name resolves to, or None. */
  function RepoOf(existing: SlotMap, names: seq<string>, name: string): Option<string> {
    var r := Reconcile(existing, names);
    if name in r then Some(RepoName(r[name])) else None
  }

  method StorageNameToRepoName(existing: SlotMap, names: seq<string>, name: string) returns (repo: Option<string>)
    ensures repo == RepoOf(existing, names, name)
  {
    var m := ReconcileRepoSlotMap(existing, names);
    repo := if name in m then Some(RepoName(m[name])) else None;
  }

  /** The reverse lookup, in whatever order it visits the map: a storage whose slot bears this
      name, or none if there is none. */
  method RepoNameToStorageName(m: SlotMap, repo: string) returns (name: Option<string>)
    ensures name.Some? ==> name.value in m && RepoName(m[name.value]) == repo
    ensures name.None? ==> forall n :: n in m ==> RepoName(m[n]) != repo
    ensures Injective(m) ==> name == StorageOf(m, repo)
  {
    var remaining := m.Keys;
    name := None;
    while remaining != {}
      invariant remaining <= m.Keys
      invariant forall n :: n in m && n !in remaining ==> RepoName(m[n]) != repo
    {
      var n :| n in remaining;
      if RepoName(m[n]) == repo {
        if Injective(m) { ReverseLookup(m, n); }
        return Some(n);
      }
      remaining := remaining - {n};
    }
  }

  /** The storage holding the repo of that name, if any does. */
  ghost function StorageOf(m: SlotMap, repo: string): Option<string> {
    if n :| n in m && RepoName(m[n]) == repo then Some(n) else None
  }

  /** On an injective map the reverse lookup inverts the forward one. */
  lemma ReverseLookup(m: SlotMap, n: string)
    requires Injective(m) && n in m
    ensures StorageOf(m, RepoName(m[n])) == Some(n)
  {
    forall k | k in m && RepoName(m[k]) == RepoName(m[n]) ensures k == n {
      RepoNameInjective(m[k], m[n]);
    }
  }
}
