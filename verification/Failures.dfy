/** Inputs on which the code does not do what its comments promise. Each is reached by a run from an
    empty namespace; the exact conditions are in the modules about the property that fails. */
module Failures {
  import opened Wrappers
  import opened Text
  import opened Retention
  import opened Slots
  import opened Repos
  import opened Model
  import opened Controllers
  import opened Runs
  import opened Isolation
  import opened Placement
  import opened Seeding
  import opened Provenance
  import opened Progress
  import Pitr
  import Provider

  // ---------------------------------------------------------------- a stage for all of them

  /** Nothing happens outside the provider that could stop a Sync. */
  const CALM := SyncEnv(NotRequired, [], false, false, Never)

  /** A storage entry with a schedule that is switched off: nothing to run, nothing to prune. */
  function Entry(s: string): Storage { Storage(s, [Schedule("", false, "", None)], false) }

  function Config(enabled: bool, s: string): Option<BackupConfig> { Some(BackupConfig(enabled, [Entry(s)], "class")) }

  predicate HasStorage(start: World, s: string) {
    s != "" && s in start.stores && start.stores[s].isS3 && start.stores[s].s3.Some? && start.stores[s].credentials
  }

  /** Two usable storages on different buckets, and nothing else. */
  ghost predicate Stage(start: World, x: string, y: string) {
    && Initial(start) && x != y && HasStorage(start, x) && HasStorage(start, y)
    && TrimSlashes(start.stores[x].s3.value.bucket) != TrimSlashes(start.stores[y].s3.value.bucket)
  }

  /** `v` is reached by `run`, and what holds of every run so far holds of it. */
  ghost predicate Reached(start: World, run: seq<Action>, v: World) {
    v == Exec(start, run) && SlotsOk(v) && AllPlaced(v) && v.stores == start.stores && v.seedSuffix == start.seedSuffix
  }

  lemma Begin(start: World)
    requires Initial(start)
    ensures Reached(start, [], start)
  {
  }

  lemma Take(start: World, run: seq<Action>, v: World, a: Action) returns (after: seq<Action>)
    requires Reached(start, run, v) && !(a.ByUser? && a.user.PutStore?)
    ensures after == run + [a] && Reached(start, after, Step(v, a))
  {
    after := run + [a];
    assert after[..|after| - 1] == run;
    StepKeepsSlotsOk(v, a);
    KeepsStores(v, a);
    forall n | n in Step(v, a).clusters ensures PlacedOn(Step(v, a), n, v.stores) {
      StepPlaced(v, a, n, v.stores);
    }
  }

  /** `v` is reached by `run`; clusters may be behind edits of their storages. */
  ghost predicate Ran(start: World, run: seq<Action>, v: World) { v == Exec(start, run) && SlotsOk(v) }

  lemma Go(start: World, run: seq<Action>, v: World, a: Action) returns (after: seq<Action>)
    requires Ran(start, run, v)
    ensures after == run + [a] && Ran(start, after, Step(v, a))
  {
    after := run + [a];
    assert after[..|after| - 1] == run;
    StepKeepsSlotsOk(v, a);
  }

  lemma KeepsStores(v: World, a: Action)
    requires !(a.ByUser? && a.user.PutStore?)
    ensures Step(v, a).stores == v.stores && Step(v, a).seedSuffix == v.seedSuffix
  {
    if Possible(v, a) {
      match a {
        case ByUser(u) => UserKeepsStores(v, u);
        case ByOperator(o) => OperatorLeaves(v, o);
        case RunSync(n, env) => SyncChanges(v, n, env);
        case RunSyncBackup(b) => SyncBackupChanges(v, b, v.backups[b].origin.value);
        case RunSyncRestore(r) => SyncRestoreLeaves(v, r);
        case RunMirror(_, _) =>
      }
    }
  }

  lemma UserKeepsStores(v: World, u: UserAction)
    requires UserMay(v, u) && !u.PutStore?
    ensures UserEffect(v, u).stores == v.stores && UserEffect(v, u).seedSuffix == v.seedSuffix
  {
  }

  // ---------------------------------------------------------------- a calm Sync of one storage

  lemma OneKept(s: string, referenced: set<string>)
    ensures Kept([Entry(s)], referenced, "") == [Entry(s)]
  {
    assert [Entry(s)][..0] == [];
  }

  lemma CalmPrunes(v: World, n: string, s: string)
    requires n in v.instances && v.instances[n].dataSource.None? && v.instances[n].backup.Some?
    requires v.instances[n].backup.value.storages == [Entry(s)]
    ensures Pruned(v, n) == Some(v.instances[n])
  {
    OneKept(s, Referenced(v, n));
  }

  lemma OneSound(start: World, s: string)
    requires HasStorage(start, s)
    ensures Sound(Entry(s), start.stores)
  {
    assert Effects(Entry(s).schedules) == [Nothing];
  }

  /** The settings compiled from one sound storage. */
  lemma OneCompiles(instance: Instance, live: Option<Cluster>, stores: map<string, BackupStorage>, s: string)
    requires instance.backup == Config(true, s) && Sound(Entry(s), stores)
    requires InstanceOk(instance) && (live.Some? ==> ClusterOk(live.value))
    ensures var d := Preserve(ApplySettings(instance, live, stores, false, false), live);
            && d.error.None? && d.backups.enabled && s in d.slots && d.slots.Keys == {s}
            && d.slots == Reconcile(if live.Some? then live.value.slots else map[], [s])
  {
    var storages, existing := [Entry(s)], if live.Some? then live.value.slots else map[];
    var slots := Reconcile(existing, [s]);
    assert NamesOf(storages) == [s];
    assert s in [s];
    if s !in slots { UnservedMeansFive(existing, [s], s); }
    ReconcileKeeps(existing, [s]);
    SoundIsValid(Entry(s), slots, stores);
    assert AllValid(storages, slots, stores);
    ProblemFree(storages, slots, stores);
  }

  /** The slot of a storage that comes alone: the first one, unless it holds another. */
  lemma AloneIsFirst(existing: SlotMap, s: string)
    requires s in existing ==> existing[s] == 0
    ensures s in Reconcile(existing, [s]) && Reconcile(existing, [s])[s] == 0
  {
    assert s in [s];
    if s in existing {
      ReconcileKeeps(existing, [s]);
    } else {
      assert Survivors(existing, [s]) == map[];
      SoleNewcomer(existing, [s], s, 0);
    }
  }

  /** Instance `n` with UID `uid` is configured like this. */
  ghost predicate Configured(v: World, n: string, uid: string, config: Option<BackupConfig>) {
    n in v.instances && v.instances[n] == Instance(uid, config, None, false)
  }

  /** Its cluster has backups on and one storage in the first slot. */
  ghost predicate Serves(v: World, n: string, s: string) {
    n in v.clusters && v.clusters[n].backups.enabled && v.clusters[n].slots == map[s := 0]
  }

  lemma CalmSync(v: World, n: string, uid: string, s: string)
    requires SlotsOk(v) && Configured(v, n, uid, Config(true, s)) && Sound(Entry(s), v.stores) && v.restores == map[]
    requires n in v.clusters && s in v.clusters[n].slots ==> v.clusters[n].slots[s] == 0
    ensures var w := Step(v, RunSync(n, CALM));
            && Serves(w, n, s) && w.(clusters := v.clusters, pmmSecrets := v.pmmSecrets) == v
            && w.clusters[n].stanzas == (if n in v.clusters then v.clusters[n].stanzas else {})
            && w.clusters[n].phase == (if n in v.clusters then v.clusters[n].phase else Initializing)
  {
    CalmPrunes(v, n, s);
    CalmSettles(v, n);
    CalmFinish(Settled(v, n, CALM), n, uid, s, PMMOf(v, n, CALM).pmm);
  }

  lemma CalmFinish(v: World, n: string, uid: string, s: string, pmm: bool)
    requires SlotsOk(v) && Configured(v, n, uid, Config(true, s)) && Sound(Entry(s), v.stores) && v.restores == map[]
    requires n in v.clusters && s in v.clusters[n].slots ==> v.clusters[n].slots[s] == 0
    ensures var w := Finish(v, n, CALM, pmm).0;
            && Serves(w, n, s) && w.(clusters := v.clusters) == v
            && w.clusters[n].stanzas == (if n in v.clusters then v.clusters[n].stanzas else {})
            && w.clusters[n].phase == (if n in v.clusters then v.clusters[n].phase else Initializing)
  {
    CalmSettings(v, n, uid, s);
    ConcludeWrites(v, n, DesiredSettings(v, n, CALM), pmm, BuildBootstrap(v, n));
  }

  lemma CalmSettings(v: World, n: string, uid: string, s: string)
    requires SlotsOk(v) && Configured(v, n, uid, Config(true, s)) && Sound(Entry(s), v.stores)
    requires n in v.clusters && s in v.clusters[n].slots ==> v.clusters[n].slots[s] == 0
    ensures var d := DesiredSettings(v, n, CALM);
            d.error.None? && d.backups.enabled && d.slots == map[s := 0]
  {
    var live := Get(v.clusters, n);
    assert InstanceOk(v.instances[n]) && (live.Some? ==> ClusterOk(live.value));
    FirstSlot(v.instances[n], live, v.stores, s);
  }

  lemma FirstSlot(instance: Instance, live: Option<Cluster>, stores: map<string, BackupStorage>, s: string)
    requires instance.backup == Config(true, s) && Sound(Entry(s), stores)
    requires InstanceOk(instance) && (live.Some? ==> ClusterOk(live.value))
    requires live.Some? && s in live.value.slots ==> live.value.slots[s] == 0
    ensures var d := Preserve(ApplySettings(instance, live, stores, false, false), live);
            d.error.None? && d.backups.enabled && d.slots == map[s := 0]
  {
    OneCompiles(instance, live, stores, s);
    AloneIsFirst(if live.Some? then live.value.slots else map[], s);
  }

  lemma CalmSettles(v: World, n: string)
    requires n in v.instances && v.instances[n].dataSource.None? && Pruned(v, n) == Some(v.instances[n])
    ensures Reaches(v, n, CALM) && Settled(v, n, CALM) == SetSecret(v, n, PMMOf(v, n, CALM).secret)
    ensures Sync(v, n, CALM) == Finish(Settled(v, n, CALM), n, CALM, PMMOf(v, n, CALM).pmm)
  {
    PrunedIgnoresSecrets(v, n, PMMOf(v, n, CALM).secret);
    assert v.instances == v.instances[n := v.instances[n]];
    SyncSplits(v, n, CALM);
  }

  lemma ConcludeWrites(v: World, n: string, d: Settings, pmm: bool, bootstrap: Bootstrap)
    requires n !in v.clusters ==> bootstrap.FromScratch?
    ensures var w := Conclude(v, n, d, pmm, false, false, bootstrap).0;
            && w.(clusters := v.clusters) == v && n in w.clusters
            && w.clusters[n].backups == d.backups && w.clusters[n].slots == d.slots
            && w.clusters[n].stanzas == (if n in v.clusters then v.clusters[n].stanzas else {})
            && w.clusters[n].phase == (if n in v.clusters then v.clusters[n].phase else Initializing)
  {
  }

  /** An Instance with one storage `x`, its cluster ready with the stanza created. */
  ghost predicate Up(v: World, n: string, uid: string, x: string) {
    Configured(v, n, uid, Config(true, x)) && IsReady(v, n, x) && v.opRestores == map[] && v.restores == map[]
  }

  ghost predicate IsReady(v: World, n: string, x: string) {
    Serves(v, n, x) && v.clusters[n].phase == Ready && v.clusters[n].stanzas == {RepoName(0)}
  }

  /** The one live repo is where its storage prescribes and nowhere else. */
  lemma HeldByOne(v: World, n: string, x: string, at: Connection)
    requires SlotsOk(v) && Serves(v, n, x) && PlacedOn(v, n, v.stores)
    ensures IsUsable(v.stores, x)
    ensures LiveOn(v, n, RepoName(0), at) <==> at == Prescribed(v.stores[x].s3.value, v.instances[n].uid, RepoName(0))
  {
    LiveWhereHeld(v, n, v.stores, RepoName(0), at);
    assert v.clusters[n].slots[x] == 0;
  }

  /** Such an Instance, and no other object, is there after three steps. */
  lemma BringUp(start: World, n: string, uid: string, x: string) returns (run: seq<Action>, v: World)
    requires Initial(start) && HasStorage(start, x)
    ensures Reached(start, run, v) && Up(v, n, uid, x) && v.backups == map[] && v.opBackups == map[]
              && v.instances.Keys == {n}
  {
    Begin(start);
    run, v := [], start;
    var a := ByUser(CreateInstance(n, uid, Config(true, x), None));
    run := Take(start, run, v, a);
    v := Step(v, a);
    OneSound(start, x);
    CalmSync(v, n, uid, x);
    run := Take(start, run, v, RunSync(n, CALM));
    v := Step(v, RunSync(n, CALM));
    a := ByOperator(OperatorCluster(n, {RepoName(0)}, Ready));
    run := Take(start, run, v, a);
    v := Step(v, a);
  }

  // ---------------------------------------------------------------- a backup and its repo

  lemma StartsOnFirst(v: World, n: string, x: string, b: string)
    requires SlotsOk(v) && n in v.instances && IsReady(v, n, x) && b in v.backups && v.backups[b].origin == Some(n)
               && v.backups[b].scheduleName == ""
    requires b !in v.opBackups && RepoOnInstance(v.instances[n], v.clusters[n].slots, v.backups[b].storage) ==
               Some(RepoName(0))
    ensures var w := Step(v, RunSyncBackup(b));
            && w.(opBackups := v.opBackups) == v
            && w.opBackups == v.opBackups[b := NewOpBackup(n, RepoName(0)).(owned := true)]
  {
    FirstHasAll(v, n, x);
    assert StartBackup(v, b, n).1 == Following(NoState);
  }

  lemma FirstHasAll(v: World, n: string, x: string)
    requires SlotsOk(v) && IsReady(v, n, x)
    ensures HasRepo(v.clusters[n], RepoName(0)) && Lacks(v.clusters[n], RepoName(0)).None?
  {
    assert ClusterOk(v.clusters[n]);
    assert RepoName(v.clusters[n].slots[x]) in SlotNames(v.clusters[n].slots);
    RepoIsLive(v.clusters[n]);
  }

  lemma BackupStarts(start: World, n: string, uid: string, x: string, b: string) returns (run: seq<Action>, v: World)
    requires Initial(start) && HasStorage(start, x)
    ensures Reached(start, run, v) && Up(v, n, uid, x) && v.instances.Keys == {n}
    ensures v.backups == map[b := Backup(Some(n), x, "", false, false, false)]
    ensures v.opBackups == map[b := NewOpBackup(n, RepoName(0)).(owned := true)]
  {
    run, v := BringUp(start, n, uid, x);
    var a := ByUser(CreateBackup(b, Some(n), x, ""));
    run := Take(start, run, v, a);
    v := Step(v, a);
    assert Listed(v.instances[n]) == [x];
    ReconcileKeeps(v.clusters[n].slots, [x]);
    StartsOnFirst(v, n, x, b);
    run := Take(start, run, v, RunSyncBackup(b));
    v := Step(v, RunSyncBackup(b));
  }

  /** A succeeded on-demand backup of `x`, on the repo that `x` holds. */
  lemma TakeBackup(start: World, n: string, uid: string, x: string, b: string, t: int)
    returns (run: seq<Action>, v: World)
    requires Initial(start) && HasStorage(start, x)
    ensures Reached(start, run, v) && Up(v, n, uid, x) && v.instances.Keys == {n} && OnOwnRepo(v, b)
    ensures v.backups == map[b := Backup(Some(n), x, "", false, false, false)]
    ensures v.opBackups[b].repo == Some(RepoName(0)) && v.opBackups[b].cluster == n
    ensures v.opBackups[b].state == Succeeded && v.opBackups[b].completedAt == Some(t)
  {
    run, v := BackupStarts(start, n, uid, x, b);
    var a := ByOperator(OperatorReports(b, Succeeded, "", Some(t), None, false));
    run := Take(start, run, v, a);
    v := Step(v, a);
  }

  /** A backup on a foreign repo: `y` takes the place of `x` in the list, and SyncBackup of a Backup
      on `y` comes before the next Sync. Every check passes; the operator backup is on the repo that
      belongs to `x`, whose place is not the one that `y` prescribes. */
  lemma BackupOnForeignRepo(start: World, n: string, uid: string, x: string, y: string, b: string)
    returns (run: seq<Action>, v: World)
    requires Stage(start, x, y)
    ensures Reached(start, run + [RunSyncBackup(b)], v)
    ensures var before := Exec(start, run); Possible(before, RunSyncBackup(b)) && b !in before.opBackups
    ensures b in v.backups && v.backups[b].storage == y && b in v.opBackups && v.opBackups[b].repo == Some(RepoName(0))
    ensures n in v.clusters && StorageOf(v.clusters[n].slots, RepoName(0)) == Some(x)
    ensures !LiveOn(v, n, RepoName(0), Prescribed(v.stores[y].s3.value, uid, RepoName(0)))
  {
    run, v := BringUp(start, n, uid, x);
    var a := ByUser(EditConfig(n, Config(true, y)));
    run := Take(start, run, v, a);
    v := Step(v, a);
    a := ByUser(CreateBackup(b, Some(n), y, ""));
    run := Take(start, run, v, a);
    v := Step(v, a);
    assert Listed(v.instances[n]) == [y];
    AloneIsFirst(v.clusters[n].slots, y);
    StartsOnFirst(v, n, x, b);
    var after := Take(start, run, v, RunSyncBackup(b));
    v := Step(v, RunSyncBackup(b));
    ReverseLookup(v.clusters[n].slots, x);
    HeldByOne(v, n, x, Prescribed(v.stores[y].s3.value, uid, RepoName(0)));
  }

  // ---------------------------------------------------------------- what a restore or a clone reads

  /** SyncRestore of a Restore of Backup `b` onto Instance `n` goes through. */
  lemma Restores(v: World, n: string, b: string, r: string)
    requires b != "" && Whole(v, b) && !v.backups[b].failed && v.opBackups[b].state == Succeeded
               && v.backups[b].origin == Some(n)
    requires n in v.instances && v.instances[n].dataSource.None? && r in v.restores && r !in v.opRestores
    requires v.restores[r].instance == n && v.restores[r].source == FromBackup(Some(b))
    ensures Creates(v, r) && Step(v, RunSyncRestore(r)).opRestores[r].cluster == n
    ensures Step(v, RunSyncRestore(r)).opRestores[r].repo == v.opBackups[b].repo
  {
  }

  /** A Restore of Backup `b` onto Instance `n` is created, and SyncRestore of it goes through. */
  lemma AsksRestore(u: World, n: string, b: string, r: string) returns (v: World, created: OpRestore)
    requires b != "" && Whole(u, b) && !u.backups[b].failed && u.opBackups[b].state == Succeeded
    requires u.backups[b].origin == Some(n) && n in u.instances && u.instances[n].dataSource.None?
    requires u.restores == map[] && u.opRestores == map[]
    ensures v == Step(u, ByUser(CreateRestore(r, n, FromBackup(Some(b))))) && v.(restores := u.restores) == u
    ensures RestoresFrom(v, r, b, created) && created.cluster == n && created.repo == u.opBackups[b].repo
  {
    v := u.(restores := u.restores[r := Restore(n, FromBackup(Some(b)), RestoreUnset)]);
    assert v.(restores := u.restores) == u;
    Restores(v, n, b, r);
    created := Step(v, RunSyncRestore(r)).opRestores[r];
  }

  /** The backup of `x`, and then a Sync with `y` in the place of `x`: the first repo is `y`'s now. */
  lemma Replace(start: World, n: string, uid: string, x: string, y: string, b: string, t: int)
    returns (run: seq<Action>, v: World)
    requires Stage(start, x, y)
    ensures Reached(start, run, v) && Configured(v, n, uid, Config(true, y)) && Serves(v, n, y)
    ensures v.restores == map[] && v.opRestores == map[]
    ensures v.backups == map[b := Backup(Some(n), x, "", false, false, false)]
    ensures b in v.opBackups && v.opBackups[b].repo == Some(RepoName(0)) && v.opBackups[b].cluster == n
    ensures v.opBackups[b].state == Succeeded && v.opBackups[b].completedAt == Some(t)
  {
    run, v := TakeBackup(start, n, uid, x, b, t);
    var a := ByUser(EditConfig(n, Config(true, y)));
    run := Take(start, run, v, a);
    v := Step(v, a);
    OneSound(start, y);
    CalmSync(v, n, uid, y);
    run := Take(start, run, v, RunSync(n, CALM));
    v := Step(v, RunSync(n, CALM));
  }

  /** A restore from a repo that changed hands: the operator restore is created on the first repo of
      the cluster, which is not where the backup was written. */
  lemma RestoreFromReusedRepo(start: World, n: string, uid: string, x: string, y: string, b: string, r: string)
    returns (run: seq<Action>, v: World, created: OpRestore)
    requires Stage(start, x, y) && b != ""
    ensures Reached(start, run, v) && RestoresFrom(v, r, b, created)
    ensures created.cluster == n && created.repo == Some(RepoName(0))
    ensures !LiveOn(v, n, RepoName(0), Prescribed(v.stores[x].s3.value, uid, RepoName(0)))
  {
    run, v := Replace(start, n, uid, x, y, b, 0);
    run := Take(start, run, v, ByUser(CreateRestore(r, n, FromBackup(Some(b)))));
    v, created := AsksRestore(v, n, b, r);
    HeldByOne(v, n, y, Prescribed(v.stores[x].s3.value, uid, RepoName(0)));
  }

  /** And a point-in-time window that counts the backups of the storage that held the repo before. */
  lemma WindowOfReusedRepo(start: World, n: string, uid: string, x: string, y: string, b: string, t: int)
    returns (run: seq<Action>, v: World)
    requires Stage(start, x, y)
    ensures Reached(start, run, v) && n in v.clusters && n in v.instances && b in v.opBackups
    ensures b in v.backups && v.backups[b].storage == x
    ensures Pitr.Counts(v.opBackups[b], n, Pitr.CountedRepo(v.instances[n], v.clusters[n].slots, y))
  {
    run, v := Replace(start, n, uid, x, y, b, t);
    assert Listed(v.instances[n]) == [y];
    ReconcileKeeps(v.clusters[n].slots, [y]);
  }

  /** A restore that left home: after an edit of the Backup's origin, the operator restore is for the
      other Instance, with a repo name that means nothing there. */
  lemma RestoreOfEditedOrigin(start: World, n: string, uid: string, m: string, uid2: string, x: string, b: string,
      r: string)
    returns (run: seq<Action>, v: World, created: OpRestore)
    requires Initial(start) && HasStorage(start, x) && m != n && b != ""
    ensures Reached(start, run, v) && RestoresFrom(v, r, b, created)
    ensures created.cluster == m && v.opBackups[b].cluster == n && created.repo == Some(RepoName(0))
    ensures LiveOn(v, n, RepoName(0), Prescribed(v.stores[x].s3.value, uid, RepoName(0)))
    ensures !LiveOn(v, m, RepoName(0), Prescribed(v.stores[x].s3.value, uid, RepoName(0)))
  {
    run, v := EditedOrigin(start, n, uid, m, uid2, x, b);
    run := Take(start, run, v, ByUser(CreateRestore(r, m, FromBackup(Some(b)))));
    v, created := AsksRestore(v, m, b, r);
    HeldByOne(v, n, x, Prescribed(v.stores[x].s3.value, uid, RepoName(0)));
  }

  /** The state of that run before the Restore. */
  lemma EditedOrigin(start: World, n: string, uid: string, m: string, uid2: string, x: string, b: string)
    returns (run: seq<Action>, v: World)
    requires Initial(start) && HasStorage(start, x) && m != n
    ensures Reached(start, run, v) && Up(v, n, uid, x) && Configured(v, m, uid2, None) && m !in v.clusters
    ensures Whole(v, b) && v.backups[b] == Backup(Some(m), x, "", false, false, false)
    ensures v.opBackups[b].repo == Some(RepoName(0)) && v.opBackups[b].cluster == n && v.opBackups[b].state == Succeeded
  {
    run, v := TakeBackup(start, n, uid, x, b, 0);
    OnlyOwnClusters(start, run, v, n, m);
    var a := ByUser(CreateInstance(m, uid2, None, None));
    run := Take(start, run, v, a);
    v := Step(v, a);
    a := ByUser(EditOrigin(b, Some(m)));
    run := Take(start, run, v, a);
    v := Step(v, a);
  }

  lemma OnlyOwnClusters(start: World, run: seq<Action>, v: World, n: string, m: string)
    requires Reached(start, run, v) && v.instances.Keys == {n} && m != n
    ensures m !in v.clusters
  {
  }

  /** A point-in-time restore of another storage's stream: `y` takes the place of `x` in the list, and
      a restore of the stream of `y` comes before the next Sync. It is created on the repo of `x`. */
  lemma RestoreOfForeignStream(start: World, n: string, uid: string, x: string, y: string, r: string)
    returns (run: seq<Action>, v: World)
    requires Stage(start, x, y)
    ensures Reached(start, run, v) && Creates(v, r) && n in v.clusters
    ensures v.restores[r].source == FromPointInTime(Some(PointInTime(None, y, Latest)))
    ensures Step(v, RunSyncRestore(r)).opRestores[r].repo == Some(RepoName(0))
    ensures StorageOf(v.clusters[n].slots, RepoName(0)) == Some(x)
  {
    run, v := BringUp(start, n, uid, x);
    var a := ByUser(EditConfig(n, Config(true, y)));
    run := Take(start, run, v, a);
    v := Step(v, a);
    a := ByUser(CreateRestore(r, n, FromPointInTime(Some(PointInTime(None, y, Latest)))));
    run := Take(start, run, v, a);
    v := Step(v, a);
    StreamResolves(v, n, x, y, r);
    ReverseLookup(v.clusters[n].slots, x);
  }

  lemma StreamResolves(v: World, n: string, x: string, y: string, r: string)
    requires SlotsOk(v) && n in v.instances && IsReady(v, n, x) && x != y && v.instances[n].backup == Config(true, y)
    requires v.instances[n].dataSource.None? && r in v.restores && r !in v.opRestores
    requires v.restores[r].instance == n && v.restores[r].source == FromPointInTime(Some(PointInTime(None, y, Latest)))
    ensures Creates(v, r) && Step(v, RunSyncRestore(r)).opRestores[r].repo == Some(RepoName(0))
  {
    assert Listed(v.instances[n]) == [y];
    AloneIsFirst(v.clusters[n].slots, y);
    FirstHasAll(v, n, x);
    assert ResolveSource(v, r, v.restores[r]) == Usable(Some(RepoName(0)), []);
  }

  /** A clone of a Backup whose storage was edited: its data source takes the repo from the operator
      backup and the bucket from the new storage, so it reads a place nothing was written to. */
  lemma SeedOfEditedStorage(start: World, n: string, uid: string, c: string, uid2: string, x: string, y: string,
      b: string)
    returns (run: seq<Action>, v: World)
    requires Stage(start, x, y) && c != n && n != "" && b != ""
    ensures Reached(start, run, v) && c in v.instances && v.instances[c].dataSource == Some(FromBackup(Some(b)))
    ensures BuildBootstrap(v, c).From?
    ensures ReadsAt(BuildBootstrap(v, c).source, Prescribed(v.stores[y].s3.value, uid, RepoName(0)))
    ensures !ReadsAt(BuildBootstrap(v, c).source, Prescribed(v.stores[x].s3.value, uid, RepoName(0)))
    ensures LiveOn(v, n, RepoName(0), Prescribed(v.stores[x].s3.value, uid, RepoName(0)))
  {
    run, v := TakeBackup(start, n, uid, x, b, 0);
    var a := ByUser(EditStorage(b, y));
    run := Take(start, run, v, a);
    v := Step(v, a);
    a := ByUser(CreateInstance(c, uid2, None, Some(FromBackup(Some(b)))));
    run := Take(start, run, v, a);
    v := Step(v, a);
    Seeds(v, c, b, n, y);
    BackupBootstrap(v, c, b);
    HeldByOne(v, n, x, Prescribed(v.stores[x].s3.value, uid, RepoName(0)));
  }

  lemma Seeds(v: World, c: string, b: string, n: string, y: string)
    requires b != "" && Whole(v, b) && !v.backups[b].failed && v.opBackups[b].state == Succeeded
               && v.opBackups[b].repo.Some?
    requires v.backups[b].origin == Some(n) && v.backups[b].storage == y && n != "" && n != c && n in v.instances
               && HasStorage(v, y)
    requires c in v.instances && v.instances[c].dataSource == Some(FromBackup(Some(b)))
    ensures BuildBootstrap(v, c).From?
  {
    var resolved := ResolveSource(v, c + v.seedSuffix, Restore(c, FromBackup(Some(b)), RestoreUnset));
    assert resolved.Usable? && resolved.repo.Some?;
  }

  // ---------------------------------------------------------------- edited storages

  /** The storage is moved to another bucket. */
  predicate Moves(start: World, x: string, other: BackupStorage) {
    && HasStorage(start, x) && other.isS3 && other.s3.Some? && other.credentials
    && TrimSlashes(other.s3.value.bucket) != TrimSlashes(start.stores[x].s3.value.bucket)
  }

  /** A restore after a BackupStorage was edited and the cluster followed: the Backup is untouched and
      its own storage holds the repo, but the repo is not where the backup was written any more. */
  lemma RestoreOfMovedStorage(start: World, n: string, uid: string, x: string, other: BackupStorage, b: string,
      r: string)
    returns (run: seq<Action>, more: seq<Action>, v: World, created: OpRestore)
    requires Initial(start) && Moves(start, x, other) && b != ""
    ensures Ran(start, run + more, v) && RestoresFrom(v, r, b, created)
    ensures OnOwnRepo(Exec(start, run), b) && OnLiveRepo(Exec(start, run), b)
    ensures OnOwnRepo(v, b) && SameSource(Exec(start, run), v, b) && PlacedOn(v, n, v.stores)
    ensures created.cluster == n && created.repo == Some(RepoName(0))
    ensures !LiveOn(v, n, RepoName(0), WrittenTo(Exec(start, run), b))
  {
    var u;
    run, more, u := MovedBackup(start, n, uid, x, other, b);
    var a := ByUser(CreateRestore(r, n, FromBackup(Some(b))));
    var last := Go(start, run + more, u, a);
    v, created := AsksRestore(u, n, b, r);
    assert run + (more + [a]) == last;
    more := more + [a];
    StillPlaced(u, v, n, u.stores);
  }

  /** The state of that run before the Restore. */
  lemma MovedBackup(start: World, n: string, uid: string, x: string, other: BackupStorage, b: string)
    returns (run: seq<Action>, more: seq<Action>, u: World)
    requires Initial(start) && Moves(start, x, other)
    ensures Ran(start, run + more, u) && Configured(u, n, uid, Config(true, x)) && PlacedOn(u, n, u.stores)
    ensures u.restores == map[] && u.opRestores == map[]
    ensures OnOwnRepo(Exec(start, run), b) && OnLiveRepo(Exec(start, run), b)
    ensures OnOwnRepo(u, b) && SameSource(Exec(start, run), u, b)
    ensures u.backups[b].origin == Some(n) && !u.backups[b].failed && u.opBackups[b].state == Succeeded
    ensures u.opBackups[b].repo == Some(RepoName(0)) && !LiveOn(u, n, RepoName(0), WrittenTo(Exec(start, run), b))
  {
    var w;
    run, w := TakeBackup(start, n, uid, x, b, 0);
    OwnRepoWrittenTo(w, b, w.stores);
    var after := MoveStorage(start, run, w, n, uid, x, other);
    u := Step(Step(w, ByUser(PutStore(x, other))), RunSync(n, CALM));
    more := after[|run|..];
    assert run + more == after;
    HeldByOne(u, n, x, WrittenTo(w, b));
  }

  lemma MoveStorage(start: World, run: seq<Action>, v: World, n: string, uid: string, x: string, other: BackupStorage)
    returns (after: seq<Action>)
    requires Reached(start, run, v) && Up(v, n, uid, x) && Moves(start, x, other)
    ensures run <= after && |after| == |run| + 2
    ensures var u := Step(Step(v, ByUser(PutStore(x, other))), RunSync(n, CALM));
            && Ran(start, after, u) && Serves(u, n, x) && PlacedOn(u, n, u.stores) && u.stores == v.stores[x := other]
            && u.(clusters := v.clusters, pmmSecrets := v.pmmSecrets, stores := v.stores) == v
  {
    after := Go(start, run, v, ByUser(PutStore(x, other)));
    var m := Step(v, ByUser(PutStore(x, other)));
    after := Go(start, after, m, RunSync(n, CALM));
    Follows(v, n, uid, x, other);
  }

  lemma Follows(v: World, n: string, uid: string, x: string, other: BackupStorage)
    requires SlotsOk(v) && Up(v, n, uid, x) && HasStorage(v.(stores := v.stores[x := other]), x)
    ensures var u := Step(Step(v, ByUser(PutStore(x, other))), RunSync(n, CALM));
            && Serves(u, n, x) && PlacedOn(u, n, u.stores) && u.stores == v.stores[x := other]
            && u.(clusters := v.clusters, pmmSecrets := v.pmmSecrets, stores := v.stores) == v
  {
    var m := v.(stores := v.stores[x := other]);
    OneSound(m, x);
    CalmFollows(m, n, uid, x);
  }

  lemma CalmFollows(m: World, n: string, uid: string, x: string)
    requires SlotsOk(m) && Configured(m, n, uid, Config(true, x)) && Sound(Entry(x), m.stores) && m.restores == map[]
    requires Serves(m, n, x)
    ensures var u := Step(m, RunSync(n, CALM));
            && Serves(u, n, x) && PlacedOn(u, n, m.stores)
            && u.(clusters := m.clusters, pmmSecrets := m.pmmSecrets) == m
  {
    CalmSync(m, n, uid, x);
    CalmSucceeds(m, n, uid, x);
    SyncPlaces(m, n, CALM);
  }

  lemma CalmSucceeds(v: World, n: string, uid: string, s: string)
    requires SlotsOk(v) && Configured(v, n, uid, Config(true, s)) && Sound(Entry(s), v.stores) && v.restores == map[]
    requires n in v.clusters && (s in v.clusters[n].slots ==> v.clusters[n].slots[s] == 0)
    ensures Sync(v, n, CALM).1 == Applied(None)
  {
    CalmPrunes(v, n, s);
    CalmSettles(v, n);
    CalmFinishSucceeds(Settled(v, n, CALM), n, uid, s, PMMOf(v, n, CALM).pmm);
  }

  lemma CalmFinishSucceeds(v: World, n: string, uid: string, s: string, pmm: bool)
    requires SlotsOk(v) && Configured(v, n, uid, Config(true, s)) && Sound(Entry(s), v.stores) && v.restores == map[]
    requires n in v.clusters && (s in v.clusters[n].slots ==> v.clusters[n].slots[s] == 0)
    ensures Finish(v, n, CALM, pmm).1 == Applied(None)
  {
    CalmSettings(v, n, uid, s);
    ConcludeSucceeds(v, n, DesiredSettings(v, n, CALM), pmm, BuildBootstrap(v, n));
  }

  lemma ConcludeSucceeds(v: World, n: string, d: Settings, pmm: bool, bootstrap: Bootstrap)
    requires n in v.clusters
    ensures Conclude(v, n, d, pmm, false, false, bootstrap).1 == Applied(d.error)
  {
  }

  /** A clone after a BackupStorage was edited: it reads the new bucket, where nothing was written,
      although the Backup is untouched and the source cluster still has the old place. */
  lemma SeedOfMovedStorage(start: World, n: string, uid: string, c: string, uid2: string, x: string,
      other: BackupStorage, b: string)
    returns (run: seq<Action>, v: World)
    requires Initial(start) && Moves(start, x, other) && c != n && n != "" && b != ""
    ensures Ran(start, run, v) && c in v.instances && v.instances[c].dataSource == Some(FromBackup(Some(b)))
    ensures BuildBootstrap(v, c).From? && OnOwnRepo(v, b) && v.backups[b].storage == x
    ensures OnLiveRepo(v, b) && !ReadsAt(BuildBootstrap(v, c).source, WrittenTo(v, b))
  {
    run, v := TakeBackup(start, n, uid, x, b, 0);
    ghost var before := v.stores;
    var a := ByUser(PutStore(x, other));
    run := Go(start, run, v, a);
    v := Step(v, a);
    a := ByUser(CreateInstance(c, uid2, None, Some(FromBackup(Some(b)))));
    run := Go(start, run, v, a);
    v := Step(v, a);
    Seeds(v, c, b, n, x);
    BackupBootstrap(v, c, b);
    OwnRepoWrittenTo(v, b, before);
  }

  /** And a clone of the stream: the source cluster archives to the old place, the clone reads the
      new one. */
  lemma StreamSeedOfMovedStorage(start: World, n: string, uid: string, c: string, uid2: string, x: string,
      other: BackupStorage)
    returns (run: seq<Action>, v: World)
    requires Initial(start) && Moves(start, x, other) && c != n && n != ""
    ensures Ran(start, run, v) && c in v.instances
    ensures v.instances[c].dataSource == Some(FromPointInTime(Some(PointInTime(Some(n), x, Latest))))
    ensures BuildBootstrap(v, c).From?
    ensures var at := Prescribed(start.stores[x].s3.value, uid, RepoName(0));
            LiveOn(v, n, RepoName(0), at) && !ReadsAt(BuildBootstrap(v, c).source, at)
  {
    run, v := BringUp(start, n, uid, x);
    HeldByOne(v, n, x, Prescribed(v.stores[x].s3.value, uid, RepoName(0)));
    var a := ByUser(PutStore(x, other));
    run := Go(start, run, v, a);
    v := Step(v, a);
    var ds := FromPointInTime(Some(PointInTime(Some(n), x, Latest)));
    a := ByUser(CreateInstance(c, uid2, None, Some(ds)));
    run := Go(start, run, v, a);
    v := Step(v, a);
    StreamSeeds(v, c, n, x);
    BootstrapSource(v, c);
  }

  lemma StreamSeeds(v: World, c: string, n: string, x: string)
    requires SlotsOk(v) && IsReady(v, n, x) && n in v.instances && HasStorage(v, x) && c != n && n != ""
    requires c in v.instances
    requires v.instances[c].dataSource == Some(FromPointInTime(Some(PointInTime(Some(n), x, Latest))))
    ensures BuildBootstrap(v, c).From? && BuildBootstrap(v, c).source.repo.name == RepoName(0)
  {
    FirstHasAll(v, n, x);
    var ds := v.instances[c].dataSource.value;
    assert ResolveSource(v, c + v.seedSuffix, Restore(c, ds, RestoreUnset)) == Usable(Some(RepoName(0)), []);
  }

  // ---------------------------------------------------------------- the name that keeps two controllers apart

  /** A mirrored Backup whose schedule name a user empties: the next SyncBackup takes the operator's
      scheduled backup over. */
  lemma TakenOver(start: World, n: string, uid: string, x: string, o: string) returns (run: seq<Action>, v: World)
    requires Initial(start) && HasStorage(start, x) && o != ""
    ensures Reached(start, run, v) && o in v.backups && v.backups[o].mirrored && o in v.opBackups
              && !v.opBackups[o].owned
    ensures Possible(v, RunSyncBackup(o)) && Step(v, RunSyncBackup(o)) != v
  {
    run, v := Mirrored(start, n, uid, x, o);
    var a := ByUser(EditScheduleName(o, ""));
    run := Take(start, run, v, a);
    v := Step(v, a);
    LeftAloneIff(v, o);
  }

  /** The state of that run before the edit. */
  lemma Mirrored(start: World, n: string, uid: string, x: string, o: string) returns (run: seq<Action>, v: World)
    requires Initial(start) && HasStorage(start, x) && o != ""
    ensures Reached(start, run, v) && n in v.instances && o in v.opBackups && !v.opBackups[o].owned
    ensures o in v.backups && v.backups[o].mirrored && v.backups[o].origin == Some(n)
  {
    run, v := BringUp(start, n, uid, x);
    var a := ByOperator(OperatorBackup(o, n, Some(RepoName(0)), "generated", false));
    run := Take(start, run, v, a);
    v := Step(v, a);
    MirrorsFirst(v, n, uid, x, o);
    run := Take(start, run, v, RunMirror(o, Some(x)));
    v := Step(v, RunMirror(o, Some(x)));
  }

  lemma MirrorsFirst(v: World, n: string, uid: string, x: string, o: string)
    requires Up(v, n, uid, x) && o in v.opBackups && o !in v.backups && x != ""
    requires v.opBackups[o] == OpBackup(n, Some(RepoName(0)), "generated", false, false, false, NoState, "", None, None)
    ensures var w := Step(v, RunMirror(o, Some(x)));
            && w.(backups := v.backups) == v && o in w.backups && w.backups[o].mirrored
                 && w.backups[o].origin == Some(n)
  {
    assert Provider.LooksUp(MirrorSlots(v, o), v.opBackups[o].repo, Some(x));
    assert RepoName(0)[0] == 'r';
    assert Mirror(v, o, Some(x)).Some?;
  }

  // ---------------------------------------------------------------- a Backup that waits for ever

  /** Backups switched off on Instance and cluster, the storage still listed: a Backup created now is
      wanted in every respect and never starts. */
  lemma WaitsForEver(start: World, n: string, uid: string, x: string, b: string) returns (run: seq<Action>, v: World)
    requires Initial(start) && HasStorage(start, x)
    ensures Reached(start, run, v) && SwitchedOff(v, b, n) && Wanted(v, b, n) && !NotSwitchedOff(v, b, n)
  {
    run, v := SwitchOff(start, n, uid, x);
    var a := ByUser(CreateBackup(b, Some(n), x, ""));
    run := Take(start, run, v, a);
    v := Step(v, a);
    assert NamesOf([Entry(x)])[0] == x;
    OneSound(start, x);
    SoundWithout(x, start.stores);
  }

  lemma SwitchOff(start: World, n: string, uid: string, x: string) returns (run: seq<Action>, v: World)
    requires Initial(start) && HasStorage(start, x)
    ensures Reached(start, run, v) && Configured(v, n, uid, Config(false, x)) && v.backups == map[]
              && v.opBackups == map[]
    ensures n in v.clusters && !v.clusters[n].backups.enabled && v.restores == map[]
  {
    run, v := BringUp(start, n, uid, x);
    var a := ByUser(EditConfig(n, Config(false, x)));
    run := Take(start, run, v, a);
    v := Step(v, a);
    CalmPrunes(v, n, x);
    CalmSwitchesOff(v, n);
    run := Take(start, run, v, RunSync(n, CALM));
    v := Step(v, RunSync(n, CALM));
  }

  lemma CalmSwitchesOff(v: World, n: string)
    requires n in v.instances && n in v.clusters && v.restores == map[] && v.instances[n].dataSource.None?
    requires v.instances[n].backup.Some? && !v.instances[n].backup.value.enabled && Pruned(v, n) == Some(v.instances[n])
    ensures var w := Step(v, RunSync(n, CALM));
            && w.(clusters := v.clusters, pmmSecrets := v.pmmSecrets) == v && n in w.clusters
                 && !w.clusters[n].backups.enabled
  {
    CalmSettles(v, n);
    var v2 := Settled(v, n, CALM);
    ConcludeWrites(v2, n, DesiredSettings(v2, n, CALM), PMMOf(v, n, CALM).pmm, BuildBootstrap(v2, n));
  }

  lemma SoundWithout(s: string, stores: map<string, BackupStorage>)
    requires Sound(Entry(s), stores)
    ensures Sound(Storage(s, [], false), stores)
  {
  }

  // ---------------------------------------------------------------- calls that crash

  /** When SyncRestore dereferences a nil: a finished, usable backup whose Backup names no Instance. */
  lemma CrashIff(w: World, r: string)
    requires Possible(w, RunSyncRestore(r))
    ensures SyncRestore(w, r).1 == RestoreCrash <==>
              exists b :: && w.restores[r].source == FromBackup(Some(b)) && b != "" && Whole(w, b)
                  && !w.backups[b].failed
                          && w.opBackups[b].state == Succeeded && w.backups[b].origin.None?
  {
    var restore := w.restores[r];
    if restore.source.FromBackup? && restore.source.backup.Some? && SyncRestore(w, r).1 == RestoreCrash {
      assert Whole(w, restore.source.backup.value);
    }
  }

  /** When pruning does: a data source whose detail section is missing, on an Instance with storages. */
  lemma PruningFailsIff(w: World, n: string)
    requires n in w.instances
    ensures var instance := w.instances[n];
            Pruned(w, n).None? <==>
              && instance.backup.Some? && instance.backup.value.storages != []
              && instance.dataSource in {Some(FromBackup(None)), Some(FromPointInTime(None)), Some(OtherSource)}
  {
  }

  /** Such an Instance never gets a cluster, nor does one it has follow it any more. */
  lemma PruningFailureStopsSync(w: World, n: string, env: SyncEnv)
    requires n in w.instances && Pruned(w, n).None?
    ensures Sync(w, n, env).1 == Aborted && Sync(w, n, env).0.clusters == w.clusters
  {
    PrunedIgnoresSecrets(w, n, PMMOf(w, n, env).secret);
  }

  lemma RestoreWithoutOrigin(start: World, n: string, uid: string, x: string, b: string, r: string)
    returns (run: seq<Action>, v: World)
    requires Initial(start) && HasStorage(start, x) && b != ""
    ensures Reached(start, run, v) && Possible(v, RunSyncRestore(r)) && SyncRestore(v, r).1 == RestoreCrash
  {
    run, v := TakeBackup(start, n, uid, x, b, 0);
    var a := ByUser(EditOrigin(b, None));
    run := Take(start, run, v, a);
    v := Step(v, a);
    a := ByUser(CreateRestore(r, n, FromBackup(Some(b))));
    run := Take(start, run, v, a);
    v := Step(v, a);
    assert Whole(v, b);
    CrashIff(v, r);
  }

  lemma SourceWithoutDetail(start: World, n: string, uid: string, x: string) returns (run: seq<Action>, v: World)
    requires Initial(start)
    ensures Reached(start, run, v) && n in v.instances && Pruned(v, n).None?
  {
    Begin(start);
    var a := ByUser(CreateInstance(n, uid, Config(true, x), Some(FromBackup(None))));
    run := Take(start, [], start, a);
    v := Step(start, a);
    PruningFailsIff(v, n);
  }
}
