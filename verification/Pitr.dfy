/** The point-in-time recovery window of a storage, derived from the operator's backups. */
module Pitr {
  import opened Wrappers
  import opened Text
  import opened Slots
  import opened Repos
  import opened Model

  /** `earliest` is the completion of the oldest backup, `latest` the newest restorable time. */
  datatype Window = NoBackup | NoRestorableTime | Available(earliest: int, latest: int)

  /** A backup that counts for a repo of a cluster; the empty repo name matches nothing. */
  predicate Counts(b: OpBackup, cluster: string, repo: string) {
    repo != "" && b.cluster == cluster && b.repo == Some(repo) && b.state == Succeeded && b.completedAt.Some?
  }

  // ---------------------------------------------------------------- specification

  ghost predicate HasBackup(all: seq<OpBackup>, cluster: string, repo: string) {
    exists b :: b in all && Counts(b, cluster, repo)
  }

  ghost predicate IsEarliest(all: seq<OpBackup>, cluster: string, repo: string, t: int) {
    && (exists b :: b in all && Counts(b, cluster, repo) && b.completedAt == Some(t))
    && (forall b :: b in all && Counts(b, cluster, repo) ==> t <= b.completedAt.value)
  }

  ghost predicate IsLatest(all: seq<OpBackup>, cluster: string, repo: string, t: int) {
    && (exists b :: b in all && Counts(b, cluster, repo) && b.latestRestorable == Some(t))
    && (forall b :: b in all && Counts(b, cluster, repo) && b.latestRestorable.Some? ==> b.latestRestorable.value <= t)
  }

  ghost predicate NoneStamped(all: seq<OpBackup>, cluster: string, repo: string) {
    forall b :: b in all && Counts(b, cluster, repo) ==> b.latestRestorable.None?
  }

  /** `w` is the window of this repo, given the operator's list in any order. */
  ghost predicate IsWindow(all: seq<OpBackup>, cluster: string, repo: string, w: Window) {
    match w
    case NoBackup => !HasBackup(all, cluster, repo)
    case NoRestorableTime => HasBackup(all, cluster, repo) && NoneStamped(all, cluster, repo)
    case Available(e, l) => IsEarliest(all, cluster, repo, e) && IsLatest(all, cluster, repo, l)
  }

  // ---------------------------------------------------------------- the provider's steps

  predicate OldestFirst(s: seq<OpBackup>) {
    forall i, j :: 0 <= i < j < |s| && s[i].completedAt.Some? && s[j].completedAt.Some? ==>
        s[i].completedAt.value <= s[j].completedAt.value
  }

  /** Some order by completion; nothing is promised about equal times. */
  method SortByCompletion(s: seq<OpBackup>) returns (out: seq<OpBackup>)
    requires forall b :: b in s ==> b.completedAt.Some?
    ensures multiset(out) == multiset(s)
    ensures OldestFirst(out)
  {
    out := [];
    for i := 0 to |s|
      invariant multiset(out) == multiset(s[..i])
      invariant OldestFirst(out)
      invariant AllCompleted(out)
    {
      assert s[..i + 1] == s[..i] + [s[i]];
      out := Insert(out, s[i]);
    }
    assert s[..|s|] == s;
  }

  predicate AllCompleted(s: seq<OpBackup>) { forall i :: 0 <= i < |s| ==> s[i].completedAt.Some? }

  method Insert(s: seq<OpBackup>, b: OpBackup) returns (out: seq<OpBackup>)
    requires OldestFirst(s) && AllCompleted(s) && b.completedAt.Some?
    ensures OldestFirst(out) && AllCompleted(out)
    ensures multiset(out) == multiset(s) + multiset{b}
  {
    var k := 0;
    while k < |s| && s[k].completedAt.value <= b.completedAt.value
      invariant 0 <= k <= |s|
      invariant forall j :: 0 <= j < k ==> s[j].completedAt.value <= b.completedAt.value
    {
      k := k + 1;
    }
    InsertedAt(s, b, k);
    InsertedSame(s, b, k);
    out := s[..k] + [b] + s[k..];
  }

  lemma InsertedAt(s: seq<OpBackup>, b: OpBackup, k: nat)
    requires OldestFirst(s) && AllCompleted(s) && b.completedAt.Some? && k <= |s|
    requires forall j :: 0 <= j < k ==> s[j].completedAt.value <= b.completedAt.value
    requires k < |s| ==> b.completedAt.value < s[k].completedAt.value
    ensures var out := s[..k] + [b] + s[k..];
            OldestFirst(out) && AllCompleted(out)
  {
    var out := s[..k] + [b] + s[k..];
    forall i | 0 <= i < |out| ensures out[i].completedAt.Some? { InsertedIs(s, b, k, i); }
    forall i, j | 0 <= i < j < |out| ensures out[i].completedAt.value <= out[j].completedAt.value {
      InsertedInOrder(s, b, k, i, j);
    }
  }

  lemma InsertedSame(s: seq<OpBackup>, b: OpBackup, k: nat)
    requires k <= |s|
    ensures multiset(s[..k] + [b] + s[k..]) == multiset(s) + multiset{b}
  {
    assert s == s[..k] + s[k..];
  }

  lemma InsertedInOrder(s: seq<OpBackup>, b: OpBackup, k: nat, i: nat, j: nat)
    requires OldestFirst(s) && AllCompleted(s) && b.completedAt.Some? && k <= |s| && i < j <= |s|
    requires forall h :: 0 <= h < k ==> s[h].completedAt.value <= b.completedAt.value
    requires k < |s| ==> b.completedAt.value < s[k].completedAt.value
    ensures var out := s[..k] + [b] + s[k..];
            out[i].completedAt.Some? && out[j].completedAt.Some? && out[i].completedAt.value <= out[j].completedAt.value
  {
    InsertedIs(s, b, k, i);
    InsertedIs(s, b, k, j);
    if k < j { assert s[k].completedAt.value <= s[j - 1].completedAt.value; }
  }

  lemma InsertedIs(s: seq<OpBackup>, b: OpBackup, k: nat, i: nat)
    requires k <= |s| && i <= |s|
    ensures (s[..k] + [b] + s[k..])[i] == if i < k then s[i] else if i == k then b else s[i - 1]
  {
  }

  method CollectRepoBackups(all: seq<OpBackup>, cluster: string, repo: string) returns (out: seq<OpBackup>)
    ensures ExactlyCounting(out, all, cluster, repo)
    ensures OldestFirst(out)
  {
    if repo == "" { return []; }
    var found: seq<OpBackup> := [];
    for i := 0 to |all|
      invariant ExactlyCounting(found, all[..i], cluster, repo)
    {
      var b := all[i];
      assert all[..i + 1] == all[..i] + [b];
      if b.cluster == cluster && b.repo == Some(repo) && b.state == Succeeded && b.completedAt.Some? {
        found := found + [b];
      }
    }
    assert all[..|all|] == all;
    CountingAre(found, all, cluster, repo);
    out := SortByCompletion(found);
  }

  /** `found` has the backups of `all` that count, each as often as `all` has it, and no others. */
  ghost predicate ExactlyCounting(found: seq<OpBackup>, all: seq<OpBackup>, cluster: string, repo: string) {
    forall b :: multiset(found)[b] == if Counts(b, cluster, repo) then multiset(all)[b] else 0
  }

  lemma CountingAre(found: seq<OpBackup>, all: seq<OpBackup>, cluster: string, repo: string)
    requires ExactlyCounting(found, all, cluster, repo)
    ensures forall b :: b in found <==> b in all && Counts(b, cluster, repo)
  {
    forall b ensures b in found <==> b in all && Counts(b, cluster, repo) {
      assert b in found <==> b in multiset(found);
      assert b in all <==> b in multiset(all);
    }
  }

  method PitrWindow(backups: seq<OpBackup>, ghost all: seq<OpBackup>, ghost cluster: string, ghost repo: string)
    returns (w: Window)
    requires ExactlyCounting(backups, all, cluster, repo)
    requires OldestFirst(backups)
    ensures IsWindow(all, cluster, repo, w)
  {
    CountingAre(backups, all, cluster, repo);
    if |backups| == 0 { return NoBackup; }
    assert backups[0] in backups;
    var latest: Option<int> := None;
    for i := 0 to |backups|
      invariant latest.None? ==> forall b :: b in backups[..i] ==> b.latestRestorable.None?
      invariant latest.Some? ==> exists b :: b in backups && b.latestRestorable == latest
      invariant latest.Some? ==> forall b :: b in backups[..i] && b.latestRestorable.Some? ==>
                b.latestRestorable.value <= latest.value
    {
      var t := backups[i].latestRestorable;
      assert backups[i] in backups;
      if t.Some? && (latest.None? || t.value > latest.value) {
        latest := t;
      }
    }
    assert backups[..|backups|] == backups;
    if latest.None? { return NoRestorableTime; }
    forall b | b in backups ensures backups[0].completedAt.value <= b.completedAt.value {
      var j :| 0 <= j < |backups| && backups[j] == b;
    }
    return Available(backups[0].completedAt.value, latest.value);
  }

  datatype StorageStatus = StorageStatus(name: string, pitr: Option<Window>)

  /** The window of each storage with point-in-time recovery switched on. */
  method BackupStorageStatuses(instance: Instance, n: string, live: Option<Cluster>, all: seq<OpBackup>)
    returns (out: seq<StorageStatus>)
    ensures instance.backup.None? || !instance.backup.value.enabled ==> out == []
    ensures instance.backup.Some? && instance.backup.value.enabled ==>
              |out| == |instance.backup.value.storages|
              && forall i :: 0 <= i < |out| ==>
                   IsStatus(instance, n, if live.Some? then live.value.slots else map[], all,
                            instance.backup.value.storages[i], out[i])
  {
    out := [];
    if instance.backup.None? || !instance.backup.value.enabled { return; }
    var storages := instance.backup.value.storages;
    var slots := if live.Some? then live.value.slots else map[];
    for i := 0 to |storages|
      invariant |out| == i
      invariant forall j :: 0 <= j < i ==> IsStatus(instance, n, slots, all, storages[j], out[j])
    {
      var entry := StatusOfStorage(instance, n, slots, all, storages[i]);
      out := out + [entry];
    }
  }

  /** The body of that loop. */
  method StatusOfStorage(instance: Instance, n: string, slots: SlotMap, all: seq<OpBackup>, s: Storage)
    returns (entry: StorageStatus)
    requires instance.backup.Some?
    ensures IsStatus(instance, n, slots, all, s, entry)
  {
    entry := StorageStatus(s.name, None);
    if s.pitr {
      var repo := StorageNameToRepoName(slots, Listed(instance), s.name);
      var name := if repo.Some? then repo.value else "";
      var backups := CollectRepoBackups(all, n, name);
      var w := PitrWindow(backups, all, n, name);
      entry := entry.(pitr := Some(w));
    }
  }

  /** The repo whose backups count for a storage, "" if it has none. */
  function CountedRepo(instance: Instance, slots: SlotMap, storage: string): string {
    match RepoOnInstance(instance, slots, storage)
    case Some(repo) => repo
    case None => ""
  }

  ghost predicate IsStatus(instance: Instance, n: string, slots: SlotMap, all: seq<OpBackup>, s: Storage,
      status: StorageStatus)
  {
    && status.name == s.name
    && (status.pitr.Some? <==> s.pitr)
    && (s.pitr ==> IsWindow(all, n, CountedRepo(instance, slots, s.name), status.pitr.value))
  }

  // ---------------------------------------------------------------- what a window is

  /** One list has one window: the order the operator's list comes in does not matter. */
  lemma WindowUnique(all: seq<OpBackup>, permuted: seq<OpBackup>, cluster: string, repo: string, v: Window, w: Window)
    requires multiset(all) == multiset(permuted)
    requires IsWindow(all, cluster, repo, v) && IsWindow(permuted, cluster, repo, w)
    ensures v == w
  {
    forall b ensures b in all <==> b in permuted {
      assert b in multiset(all) <==> b in multiset(permuted);
    }
  }

  /** Backups that arrive only widen a window; it never closes or shrinks. */
  lemma WindowWidens(all: seq<OpBackup>, more: seq<OpBackup>, cluster: string, repo: string, v: Window, w: Window)
    requires forall b :: b in all ==> b in more
    requires IsWindow(all, cluster, repo, v) && IsWindow(more, cluster, repo, w)
    ensures v.NoRestorableTime? ==> !w.NoBackup?
    ensures v.Available? ==> w.Available? && w.earliest <= v.earliest && v.latest <= w.latest
  {
  }

  /** A window is never empty as long as the operator stamps no backup with a time before its own
      completion. */
  lemma WindowOrdered(all: seq<OpBackup>, cluster: string, repo: string, w: Window)
    requires IsWindow(all, cluster, repo, w) && w.Available?
    requires forall b :: b in all && b.completedAt.Some? && b.latestRestorable.Some? ==>
               b.completedAt.value <= b.latestRestorable.value
    ensures w.earliest <= w.latest
  {
    var b :| b in all && Counts(b, cluster, repo) && b.latestRestorable == Some(w.latest);
  }

  /** With no slot shared, a backup counts for at most one storage of the Instance. */
  lemma OneStorageEach(instance: Instance, n: string, slots: SlotMap, s: string, t: string, b: OpBackup)
    requires Injective(slots)
    requires Counts(b, n, CountedRepo(instance, slots, s)) && Counts(b, n, CountedRepo(instance, slots, t))
    ensures s == t
  {
    ReconcileInjective(slots, Listed(instance));
    var r := Reconcile(slots, Listed(instance));
    RepoNameInjective(r[s], r[t]);
  }

  /** Which storage a backup counts for is decided by who resolves to its repo now, not by where it
      was taken: after a slot changed hands it counts for the new holder. It counts for the storage
      `s` it was taken on, and no other, as long as that is listed and holds the repo's slot. */
  lemma CountsForHolder(instance: Instance, n: string, slots: SlotMap, s: string, t: string, b: OpBackup, k: nat)
    requires Injective(slots) && instance.backup.Some?
    requires b.cluster == n && b.repo == Some(RepoName(k)) && b.state == Succeeded && b.completedAt.Some?
    ensures var r := Reconcile(slots, Listed(instance));
            Counts(b, n, CountedRepo(instance, slots, t)) <==> t in r && r[t] == k
    ensures s in slots && slots[s] == k < MAX_REPOS && s in Listed(instance) ==>
              (Counts(b, n, CountedRepo(instance, slots, t)) <==> t == s)
  {
    var r := Reconcile(slots, Listed(instance));
    ReconcileKeeps(slots, Listed(instance));
    ReconcileInjective(slots, Listed(instance));
    assert RepoName(k)[0] == 'r';
    if t in r && RepoName(r[t]) == RepoName(k) { RepoNameInjective(r[t], k); }
  }

  /** What an available window is, in plain terms: both ends come from succeeded, completed backups of the
      cluster on the repo, and every such backup is completed no earlier and restorable no later. */
  lemma AvailableIs(all: seq<OpBackup>, cluster: string, repo: string, w: Window, b: OpBackup)
    requires IsWindow(all, cluster, repo, w) && b in all && repo != ""
    requires b.cluster == cluster && b.repo == Some(repo) && b.state == Succeeded && b.completedAt.Some?
    ensures !w.NoBackup?
    ensures w.NoRestorableTime? ==> b.latestRestorable.None?
    ensures w.Available? ==>
              w.earliest <= b.completedAt.value && (b.latestRestorable.Some? ==> b.latestRestorable.value <= w.latest)
  {
    assert Counts(b, cluster, repo);
  }

  lemma AvailableFrom(all: seq<OpBackup>, cluster: string, repo: string, w: Window) returns (b: OpBackup, c: OpBackup)
    requires IsWindow(all, cluster, repo, w) && w.Available?
    ensures b in all && b.cluster == cluster && b.repo == Some(repo) && b.state == Succeeded
    ensures b.completedAt == Some(w.earliest)
    ensures c in all && c.cluster == cluster && c.repo == Some(repo) && c.state == Succeeded && c.completedAt.Some?
    ensures c.latestRestorable == Some(w.latest)
  {
    b :| b in all && Counts(b, cluster, repo) && b.completedAt == Some(w.earliest);
    c :| c in all && Counts(c, cluster, repo) && c.latestRestorable == Some(w.latest);
  }
}
