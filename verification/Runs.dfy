/** Runs: any interleaving of users, the operator and the provider's controller calls, and what
    holds along every one of them. */
module Runs {
  import opened Wrappers
  import opened Text
  import opened Slots
  import opened Repos
  import opened Model
  import opened Controllers
  import Provider

  datatype UserAction =
    | CreateInstance(n: string, uid: string, config: Option<BackupConfig>, source: Option<DataSource>)
    | EditConfig(n: string, config: Option<BackupConfig>)
    | DeleteInstance(n: string)
    | PutStore(store: string, backend: BackupStorage)
    | CreateBackup(b: string, origin: Option<string>, storage: string, scheduleName: string)
    | EditOrigin(b: string, origin: Option<string>)
    | EditStorage(b: string, storage: string)
    | EditScheduleName(b: string, scheduleName: string)
    | MarkBackup(b: string, deleting: bool, failed: bool)
    | RemoveBackup(b: string)
    | CreateRestore(r: string, instance: string, from: DataSource)
    | SetRestoreState(r: string, state: RestoreState)

  datatype OperatorAction =
    | OperatorBackup(o: string, cluster: string, repo: Option<string>, generateName: string, replicaCreate: bool)
    | OperatorReports(o: string, opState: OpState, setName: string, completedAt: Option<int>, latest: Option<int>,
        opDeleting: bool)
    | OperatorRemoves(o: string)
    | OperatorCluster(n: string, stanzas: set<string>, phase: Phase)

  /** Something a user or the runtime does, something the operator does, or a call of the provider. */
  datatype Action =
    | ByUser(user: UserAction)
    | ByOperator(operator: OperatorAction)
    | RunSync(n: string, env: SyncEnv)
    | RunSyncBackup(b: string)
    | RunSyncRestore(r: string)
    | RunMirror(o: string, found: Option<string>)

  ghost predicate DistinctConfig(config: Option<BackupConfig>) {
    config.Some? ==> DistinctNames(config.value.storages)
  }

  /** When an action can happen. Users list each storage once; every other guard says that the
      object acted on exists, or that a new one does not exist yet. */
  ghost predicate Possible(w: World, a: Action) {
    match a
    case ByUser(u) => UserMay(w, u)
    case ByOperator(o) => OperatorMay(w, o)
    case RunSync(n, _) => n in w.instances
    case RunSyncBackup(b) => b in w.backups && w.backups[b].origin.Some? && w.backups[b].origin.value in w.instances
    case RunSyncRestore(r) => r in w.restores && w.restores[r].instance in w.instances
    case RunMirror(o, found) => o in w.opBackups && Provider.LooksUp(MirrorSlots(w, o), w.opBackups[o].repo, found)
  }

  ghost predicate UserMay(w: World, u: UserAction) {
    match u
    case CreateInstance(n, uid, config, _) => n !in w.instances && DistinctConfig(config)
    case EditConfig(n, config) => n in w.instances && DistinctConfig(config)
    case DeleteInstance(n) => n in w.instances
    case PutStore(_, _) => true
    case CreateBackup(b, _, _, _) => b !in w.backups
    case EditOrigin(b, _) => b in w.backups
    case EditStorage(b, _) => b in w.backups
    case EditScheduleName(b, _) => b in w.backups
    case MarkBackup(b, _, _) => b in w.backups
    case RemoveBackup(_) => true
    case CreateRestore(r, _, _) => r !in w.restores
    case SetRestoreState(r, _) => r in w.restores
  }

  predicate OperatorMay(w: World, o: OperatorAction) {
    match o
    case OperatorBackup(b, _, _, generateName, replicaCreate) =>
      b !in w.opBackups && b != "" && (generateName != "" || replicaCreate)
    case OperatorReports(b, _, _, _, _, _) => b in w.opBackups
    case OperatorRemoves(_) => true
    case OperatorCluster(n, _, _) => n in w.clusters
  }

  ghost function Effect(w: World, a: Action): World
    requires Possible(w, a)
  {
    match a
    case ByUser(u) => UserEffect(w, u)
    case ByOperator(o) => OperatorEffect(w, o)
    case RunSync(n, env) => Sync(w, n, env).0
    case RunSyncBackup(b) => SyncBackup(w, b, w.backups[b].origin.value).0
    case RunSyncRestore(r) => SyncRestore(w, r).0
    case RunMirror(o, found) => AddMirrored(w, o, Mirror(w, o, found))
  }

  /** The runtime creates the Backup a Mirror call returns unless one of that name exists. */
  function AddMirrored(w: World, o: string, mirrored: Option<Backup>): World {
    if mirrored.None? || o in w.backups then w else w.(backups := w.backups[o := mirrored.value])
  }

  ghost function UserEffect(w: World, u: UserAction): World
    requires UserMay(w, u)
  {
    match u
    case CreateInstance(n, uid, config, source) =>
      w.(instances := w.instances[n := Instance(uid, config, source, false)])
    case EditConfig(n, config) => w.(instances := w.instances[n := w.instances[n].(backup := config)])
    case DeleteInstance(n) => w.(instances := w.instances[n := w.instances[n].(deleting := true)])
    case PutStore(name, backend) => w.(stores := w.stores[name := backend])
    case CreateBackup(b, origin, storage, scheduleName) =>
      w.(backups := w.backups[b := Backup(origin, storage, scheduleName, false, false, false)])
    case EditOrigin(b, origin) => w.(backups := w.backups[b := w.backups[b].(origin := origin)])
    case EditStorage(b, storage) => w.(backups := w.backups[b := w.backups[b].(storage := storage)])
    case EditScheduleName(b, name) => w.(backups := w.backups[b := w.backups[b].(scheduleName := name)])
    case MarkBackup(b, deleting, failed) =>
      w.(backups := w.backups[b := w.backups[b].(deleting := deleting, failed := failed)])
    case RemoveBackup(b) => w.(backups := w.backups - {b})
    case CreateRestore(r, instance, from) => w.(restores := w.restores[r := Restore(instance, from, RestoreUnset)])
    case SetRestoreState(r, state) => w.(restores := w.restores[r := w.restores[r].(state := state)])
  }

  function OperatorEffect(w: World, o: OperatorAction): World
    requires OperatorMay(w, o)
  {
    match o
    case OperatorBackup(b, cluster, repo, generateName, replicaCreate) =>
      w.(opBackups := w.opBackups[b := OpBackup(cluster, repo, generateName, replicaCreate, false, false, NoState, "",
          None, None)])
    case OperatorReports(b, state, setName, completedAt, latest, deleting) =>
      w.(opBackups := w.opBackups[b := w.opBackups[b].(state := state, setName := setName, completedAt := completedAt,
                                                       latestRestorable := latest, deleting := deleting)])
    case OperatorRemoves(b) => w.(opBackups := w.opBackups - {b})
    case OperatorCluster(n, stanzas, phase) =>
      w.(clusters := w.clusters[n := w.clusters[n].(stanzas := stanzas, phase := phase)])
  }

  ghost function Step(w: World, a: Action): World {
    if Possible(w, a) then Effect(w, a) else w
  }

  /** The state after a sequence of actions. */
  ghost function Exec(w: World, run: seq<Action>): World {
    if run == [] then w else Step(Exec(w, run[..|run| - 1]), run[|run| - 1])
  }

  // ---------------------------------------------------------------- what a step leaves alone

  /** Every cluster's settings are as they were: only what the operator reports may differ. */
  ghost predicate SameSettings(w: World, w': World) {
    forall n ::
      && (n in w'.clusters <==> n in w.clusters)
      && (n in w.clusters ==>
            w'.clusters[n].(stanzas := w.clusters[n].stanzas, phase := w.clusters[n].phase) == w.clusters[n])
  }

  lemma UserLeaves(w: World, u: UserAction)
    requires UserMay(w, u)
    ensures var w' := UserEffect(w, u);
            && w'.clusters == w.clusters && w'.opBackups == w.opBackups && w'.opRestores == w.opRestores
            && w'.pmmSecrets == w.pmmSecrets
  {
  }

  lemma OperatorLeaves(w: World, o: OperatorAction)
    requires OperatorMay(w, o)
    ensures var w' := OperatorEffect(w, o);
            w'.(clusters := w.clusters, opBackups := w.opBackups) == w && SameSettings(w, w')
  {
  }

  lemma SyncBackupKeepsClusters(w: World, b: string, n: string)
    requires b in w.backups && n in w.instances
    ensures var w' := SyncBackup(w, b, n).0; w'.clusters == w.clusters && w'.pmmSecrets == w.pmmSecrets
  {
  }

  lemma SyncRestoreLeaves(w: World, r: string)
    requires r in w.restores && w.restores[r].instance in w.instances
    ensures SyncRestore(w, r).0.(opRestores := w.opRestores) == w
  {
  }

  lemma SameClustersSameSettings(w: World, w': World)
    requires w'.clusters == w.clusters
    ensures SameSettings(w, w')
  {
  }

  /** Only a Sync writes the provider's fields of a cluster or a token Secret. */
  lemma OthersKeepSettings(w: World, a: Action)
    requires !a.RunSync?
    ensures SameSettings(w, Step(w, a)) && Step(w, a).pmmSecrets == w.pmmSecrets
  {
    if Possible(w, a) {
      match a {
        case ByUser(u) => UserLeaves(w, u);
        case ByOperator(o) => OperatorLeaves(w, o);
        case RunSyncBackup(b) => SyncBackupKeepsClusters(w, b, w.backups[b].origin.value);
        case RunSyncRestore(r) => SyncRestoreLeaves(w, r);
        case RunMirror(_, _) =>
      }
    }
    if !a.ByOperator? { SameClustersSameSettings(w, Step(w, a)); }
  }

  /** Where runs start: BackupStorage objects may exist, nothing else. */
  ghost predicate Initial(w: World) {
    && w.instances == map[] && w.clusters == map[] && w.backups == map[] && w.opBackups == map[]
    && w.restores == map[] && w.opRestores == map[] && w.pmmSecrets == {}
  }

  // ---------------------------------------------------------------- slots and repos

  function RepoNames(repos: seq<Repo>): set<string> { set i | 0 <= i < |repos| :: repos[i].name }

  function SlotNames(slots: SlotMap): set<string> { set s | s in slots :: RepoName(slots[s]) }

  ghost predicate ReposDistinct(repos: seq<Repo>) {
    forall i, j :: 0 <= i < j < |repos| ==> repos[i].name != repos[j].name
  }

  /** The live repos are exactly the repos of the slots in the annotation, each once. */
  ghost predicate ReposAreSlots(repos: seq<Repo>, slots: SlotMap) {
    && InRange(slots) && Injective(slots)
    && RepoNames(repos) == SlotNames(slots)
    && ReposDistinct(repos)
  }

  ghost predicate ClusterOk(c: Cluster) { ReposAreSlots(c.backups.repos, c.slots) }

  ghost predicate InstanceOk(i: Instance) { DistinctConfig(i.backup) }

  ghost predicate SlotsOk(w: World) {
    && (forall n :: n in w.clusters ==> ClusterOk(w.clusters[n]))
    && (forall n :: n in w.instances ==> InstanceOk(w.instances[n]))
  }

  /** What a successful compilation leaves behind. */
  lemma CompiledAreSlots(storages: seq<Storage>, existing: SlotMap, stores: map<string, BackupStorage>, uid: string)
    requires DistinctNames(storages) && Injective(existing)
    requires var slots := Reconcile(existing, NamesOf(storages)); Compile(storages, slots, stores, uid).Ok?
    ensures var slots := Reconcile(existing, NamesOf(storages));
            && ReposAreSlots(Compile(storages, slots, stores, uid).value.repos, slots)
            && forall i :: 0 <= i < |storages| ==> storages[i].name in slots
  {
    var names := NamesOf(storages);
    var slots := Reconcile(existing, names);
    var repos := Merged(storages, slots, stores, uid).repos;
    ReconcileKeeps(existing, names);
    ReconcileInjective(existing, names);
    ProblemFree(storages, slots, stores);
    ReposInOrder(storages, slots, stores, uid);
    forall i | 0 <= i < |storages|
      ensures storages[i].name in slots && repos[i].name == RepoName(slots[storages[i].name])
    {
      assert Valid(storages[i], slots, stores);
    }
    NamedAfterSlots(storages, repos, slots);
  }

  lemma NamedAfterSlots(storages: seq<Storage>, repos: seq<Repo>, slots: SlotMap)
    requires DistinctNames(storages) && InRange(slots) && Injective(slots)
    requires forall s :: s in slots ==> s in NamesOf(storages)
    requires |repos| == |storages|
    requires forall i :: 0 <= i < |storages| ==>
               storages[i].name in slots && repos[i].name == RepoName(slots[storages[i].name])
    ensures ReposAreSlots(repos, slots)
  {
    var names := NamesOf(storages);
    forall r | r in RepoNames(repos) ensures r in SlotNames(slots) {
      var i :| 0 <= i < |repos| && repos[i].name == r;
      assert storages[i].name in slots;
    }
    forall r | r in SlotNames(slots) ensures r in RepoNames(repos) {
      var s :| s in slots && RepoName(slots[s]) == r;
      var i :| 0 <= i < |names| && names[i] == s;
      assert repos[i].name == r;
    }
    forall i, j | 0 <= i < j < |repos| ensures repos[i].name != repos[j].name {
      assert storages[i].name != storages[j].name;
      if repos[i].name == repos[j].name {
        RepoNameInjective(slots[storages[i].name], slots[storages[j].name]);
      }
    }
  }

  lemma SettingsOk(instance: Instance, live: Option<Cluster>, stores: map<string, BackupStorage>, rejected: bool,
      noImage: bool)
    requires InstanceOk(instance) && (live.Some? ==> ClusterOk(live.value))
    ensures var s := Preserve(ApplySettings(instance, live, stores, rejected, noImage), live);
            ReposAreSlots(s.backups.repos, s.slots)
  {
    var s := ApplySettings(instance, live, stores, rejected, noImage);
    if s.error.None? && instance.backup.Some? && instance.backup.value.enabled {
      var existing := if live.Some? then live.value.slots else map[];
      CompiledAreSlots(instance.backup.value.storages, existing, stores, instance.uid);
    }
  }

  lemma {:induction false} KeptDistinct(storages: seq<Storage>, referenced: set<string>, source: string)
    requires DistinctNames(storages)
    ensures var kept := Kept(storages, referenced, source);
            && DistinctNames(kept) && |kept| <= |storages|
            && (forall s :: s in kept <==> s in storages && Keep(s, referenced, source))
  {
    if storages != [] {
      var init, last := storages[..|storages| - 1], storages[|storages| - 1];
      KeptDistinct(init, referenced, source);
      assert storages == init + [last];
      var kept := Kept(init, referenced, source);
      forall i | 0 <= i < |kept| ensures kept[i].name != last.name {
        assert kept[i] in kept;
        var j :| 0 <= j < |init| && storages[j] == kept[i];
      }
    }
  }

  lemma PrunedOk(w: World, n: string)
    requires n in w.instances && InstanceOk(w.instances[n])
    ensures Pruned(w, n).Some? ==>
              var before, after := w.instances[n], Pruned(w, n).value;
              && InstanceOk(after) && after.dataSource == before.dataSource && after.uid == before.uid
              && (after.backup.Some? <==> before.backup.Some?)
              && (after.backup.Some? ==> |after.backup.value.storages| <= |before.backup.value.storages|)
  {
    var before := w.instances[n];
    if before.backup.Some? && before.backup.value.storages != [] {
      var source := if before.dataSource.None? then Ok("") else DataSourceStorage(w, before.dataSource.value);
      if source.Ok? {
        KeptDistinct(before.backup.value.storages, Referenced(w, n), source.value);
      }
    }
  }

  lemma RegisteredOk(w: World, n: string, storage: string, slots: SlotMap)
    requires n in w.instances && InstanceOk(w.instances[n])
    requires RepoOnInstance(w.instances[n], slots, storage).None?
    ensures var r := AutoRegister(w, n, storage);
            r.Done? ==>
              && InstanceOk(r.instance) && storage !in Listed(w.instances[n])
              && r.instance.backup.Some? && |r.instance.backup.value.storages| <= MAX_REPOS
  {
    var instance := w.instances[n];
    if AutoRegister(w, n, storage).Done? {
      var storages := instance.backup.value.storages;
      if storage in NamesOf(storages) {
        UnservedMeansFive(slots, NamesOf(storages), storage);
      }
      forall i | 0 <= i < |storages| ensures storages[i].name != storage {
        assert NamesOf(storages)[i] in NamesOf(storages);
      }
    }
  }

  /** Every action keeps the annotation injective within the four slots, the live repos exactly
      those of the annotation, and the storage lists free of repetitions. */
  lemma StepKeepsSlotsOk(w: World, a: Action)
    requires SlotsOk(w)
    ensures SlotsOk(Step(w, a))
  {
    if Possible(w, a) {
      match a {
        case ByUser(u) => UserKeepsSlotsOk(w, u);
        case ByOperator(o) => OperatorKeepsSlotsOk(w, o);
        case RunSync(n, env) => SyncKeepsSlotsOk(w, n, env);
        case RunSyncBackup(b) => SyncBackupKeepsSlotsOk(w, b, w.backups[b].origin.value);
        case RunSyncRestore(r) => SyncRestoreLeaves(w, r);
        case RunMirror(_, _) =>
      }
    }
  }

  lemma UserKeepsSlotsOk(w: World, u: UserAction)
    requires SlotsOk(w) && UserMay(w, u)
    ensures SlotsOk(UserEffect(w, u))
  {
    var w' := UserEffect(w, u);
    UserLeaves(w, u);
    forall n | n in w'.instances ensures InstanceOk(w'.instances[n]) {
      assert n in w.instances ==> InstanceOk(w.instances[n]);
    }
  }

  lemma OperatorKeepsSlotsOk(w: World, o: OperatorAction)
    requires SlotsOk(w) && OperatorMay(w, o)
    ensures SlotsOk(OperatorEffect(w, o))
  {
    OperatorLeaves(w, o);
    SettingsKeepSlotsOk(w, OperatorEffect(w, o));
  }

  lemma SettingsKeepSlotsOk(w: World, w': World)
    requires SlotsOk(w) && SameSettings(w, w') && w'.instances == w.instances
    ensures SlotsOk(w')
  {
    forall n | n in w'.clusters ensures ClusterOk(w'.clusters[n]) {
      assert ClusterOk(w.clusters[n]);
    }
  }

  lemma PutInstance(w: World, n: string, instance: Instance)
    requires SlotsOk(w) && InstanceOk(instance)
    ensures SlotsOk(w.(instances := w.instances[n := instance]))
  {
  }

  lemma PutCluster(w: World, n: string, cluster: Cluster)
    requires SlotsOk(w) && ClusterOk(cluster)
    ensures SlotsOk(w.(clusters := w.clusters[n := cluster]))
  {
  }

  lemma RegisterKeepsSlotsOk(w: World, n: string, r: Registration)
    requires SlotsOk(w) && (r.Done? ==> InstanceOk(r.instance))
    ensures SlotsOk(Register(w, n, r).0)
  {
    if r.Done? { PutInstance(w, n, r.instance); }
  }

  lemma SyncBackupKeepsSlotsOk(w: World, b: string, n: string)
    requires b in w.backups && n in w.instances && SlotsOk(w)
    ensures SlotsOk(SyncBackup(w, b, n).0)
  {
    var storage := w.backups[b].storage;
    if n in w.clusters && RepoOnInstance(w.instances[n], w.clusters[n].slots, storage).None? {
      RegisteredOk(w, n, storage, w.clusters[n].slots);
      RegisterKeepsSlotsOk(w, n, AutoRegister(w, n, storage));
    }
  }

  lemma SyncKeepsSlotsOk(w: World, n: string, env: SyncEnv)
    requires n in w.instances && SlotsOk(w)
    ensures SlotsOk(Sync(w, n, env).0)
  {
    var w1 := SetSecret(w, n, PMMOf(w, n, env).secret);
    PrunedOk(w1, n);
    if Pruned(w1, n).Some? {
      var w2 := w1.(instances := w1.instances[n := Pruned(w1, n).value]);
      PutInstance(w1, n, Pruned(w1, n).value);
      FinishKeepsSlotsOk(w2, n, env, PMMOf(w, n, env).pmm);
    }
  }

  lemma ConcludeKeepsSlotsOk(w: World, n: string, s: Settings, pmm: bool, restoring: bool, fails: bool,
      bootstrap: Bootstrap)
    requires SlotsOk(w) && ReposAreSlots(s.backups.repos, s.slots)
    ensures SlotsOk(Conclude(w, n, s, pmm, restoring, fails, bootstrap).0)
  {
    ApplyKeepsSlotsOk(w, n, s, SourceFor(w, n, bootstrap), pmm);
  }

  lemma ApplyKeepsSlotsOk(w: World, n: string, s: Settings, source: Option<ClusterSource>, pmm: bool)
    requires SlotsOk(w) && ReposAreSlots(s.backups.repos, s.slots)
    ensures SlotsOk(ApplyCluster(w, n, s, source, pmm))
  {
    PutCluster(w, n, ApplyCluster(w, n, s, source, pmm).clusters[n]);
  }

  lemma FinishKeepsSlotsOk(w: World, n: string, env: SyncEnv, pmm: bool)
    requires n in w.instances && SlotsOk(w)
    ensures SlotsOk(Finish(w, n, env, pmm).0)
  {
    var s := DesiredSettings(w, n, env);
    SettingsOk(w.instances[n], Get(w.clusters, n), w.stores, env.rejected, env.noImage);
    ConcludeKeepsSlotsOk(w, n, s, pmm, RestoreInProgress(w, n), env.stop == BeforeApply, BuildBootstrap(w, n));
  }

  /** In every run, at every moment. */
  lemma {:induction false} RunKeepsSlotsOk(w: World, run: seq<Action>)
    requires SlotsOk(w)
    ensures SlotsOk(Exec(w, run))
  {
    if run != [] {
      RunKeepsSlotsOk(w, run[..|run| - 1]);
      StepKeepsSlotsOk(Exec(w, run[..|run| - 1]), run[|run| - 1]);
    }
  }

  lemma ReachableSlots(w: World, run: seq<Action>)
    requires Initial(w)
    ensures SlotsOk(Exec(w, run))
  {
    RunKeepsSlotsOk(w, run);
  }

  // ---------------------------------------------------------------- slots never move

  ghost predicate HoldsSlot(w: World, n: string, s: string) { n in w.clusters && s in w.clusters[n].slots }

  ghost predicate BacksUp(w: World, n: string) {
    n in w.instances && w.instances[n].backup.Some? && w.instances[n].backup.value.enabled
  }

  /** The Instance has backups enabled and lists the storage. */
  ghost predicate Uses(w: World, n: string, s: string) { BacksUp(w, n) && s in Listed(w.instances[n]) }

  ghost predicate SameSlot(w: World, w': World, n: string, s: string)
    requires HoldsSlot(w, n, s)
  {
    HoldsSlot(w', n, s) && w'.clusters[n].slots[s] == w.clusters[n].slots[s]
  }

  lemma SettingsKeepSlot(instance: Instance, live: Cluster, stores: map<string, BackupStorage>, rejected: bool,
      noImage: bool, s: string)
    requires ClusterOk(live) && s in live.slots
    requires instance.backup.Some? && instance.backup.value.enabled && s in Listed(instance)
    ensures var after := Preserve(ApplySettings(instance, Some(live), stores, rejected, noImage), Some(live)).slots;
            s in after && after[s] == live.slots[s]
  {
    ReconcileKeeps(live.slots, Listed(instance));
  }

  lemma FinishKeepsSlot(w: World, n: string, env: SyncEnv, pmm: bool, s: string)
    requires SlotsOk(w) && HoldsSlot(w, n, s) && Uses(w, n, s)
    ensures SameSlot(w, Finish(w, n, env, pmm).0, n, s)
  {
    SettingsKeepSlot(w.instances[n], w.clusters[n], w.stores, env.rejected, env.noImage, s);
    ConcludeKeepsSlot(w, n, DesiredSettings(w, n, env), pmm, RestoreInProgress(w, n), env.stop == BeforeApply,
        BuildBootstrap(w, n), s);
  }

  lemma ConcludeKeepsSlot(w: World, n: string, d: Settings, pmm: bool, restoring: bool, fails: bool,
      bootstrap: Bootstrap, s: string)
    requires HoldsSlot(w, n, s) && s in d.slots && d.slots[s] == w.clusters[n].slots[s]
    ensures SameSlot(w, Conclude(w, n, d, pmm, restoring, fails, bootstrap).0, n, s)
  {
  }

  ghost predicate OnlyCluster(w: World, w': World, n: string) {
    && w'.(clusters := w.clusters) == w
    && forall m :: m != n ==> Get(w'.clusters, m) == Get(w.clusters, m)
  }

  lemma ConcludeTouchesOne(w: World, n: string, d: Settings, pmm: bool, restoring: bool, fails: bool,
      bootstrap: Bootstrap)
    ensures OnlyCluster(w, Conclude(w, n, d, pmm, restoring, fails, bootstrap).0, n)
  {
  }

  /** The last part of Sync writes the cluster of its own Instance and nothing else. */
  lemma FinishTouchesOne(w: World, n: string, env: SyncEnv, pmm: bool)
    requires n in w.instances
    ensures OnlyCluster(w, Finish(w, n, env, pmm).0, n)
  {
    ConcludeTouchesOne(w, n, DesiredSettings(w, n, env), pmm, RestoreInProgress(w, n), env.stop == BeforeApply,
        BuildBootstrap(w, n));
  }

  /** The state in which Sync compiles the backup settings: the token Secret planned, the Instance
      pruned. */
  ghost function Settled(w: World, n: string, env: SyncEnv): World
    requires n in w.instances && Pruned(SetSecret(w, n, PMMOf(w, n, env).secret), n).Some?
  {
    var w1 := SetSecret(w, n, PMMOf(w, n, env).secret);
    w1.(instances := w1.instances[n := Pruned(w1, n).value])
  }

  ghost predicate Reaches(w: World, n: string, env: SyncEnv)
    requires n in w.instances
  {
    && env.stop != BeforePMM && PMMOf(w, n, env).ok && env.stop != BeforePrune
    && Pruned(SetSecret(w, n, PMMOf(w, n, env).secret), n).Some? && env.stop != BeforeSettings
  }

  /** What a Sync that does not get there leaves behind. */
  ghost function Early(w: World, n: string, env: SyncEnv): World
    requires n in w.instances
  {
    var w1 := SetSecret(w, n, PMMOf(w, n, env).secret);
    if env.stop == BeforePMM then w
    else if !PMMOf(w, n, env).ok || env.stop == BeforePrune || Pruned(w1, n).None? then w1
    else Settled(w, n, env)
  }

  /** A Sync either stops before it looks at the cluster or finishes from the settled state. */
  lemma SyncSplits(w: World, n: string, env: SyncEnv)
    requires n in w.instances
    ensures Reaches(w, n, env) ==> Sync(w, n, env) == Finish(Settled(w, n, env), n, env, PMMOf(w, n, env).pmm)
    ensures !Reaches(w, n, env) ==> Sync(w, n, env) == (Early(w, n, env), Aborted)
  {
  }

  lemma PrunedIgnoresSecrets(w: World, n: string, present: bool)
    requires n in w.instances
    ensures Pruned(SetSecret(w, n, present), n) == Pruned(w, n)
  {
    assert Referenced(SetSecret(w, n, present), n) == Referenced(w, n);
  }

  /** `w'` is `w` but for token Secrets and, perhaps, the pruning of Instance `n`. */
  ghost predicate PrunedOnly(w: World, w': World, n: string)
    requires n in w.instances
  {
    && w'.(instances := w.instances, pmmSecrets := w.pmmSecrets) == w
    && (w'.instances == w.instances || (Pruned(w, n).Some? && w'.instances == w.instances[n := Pruned(w, n).value]))
  }

  lemma SettledPrunes(w: World, n: string, env: SyncEnv)
    requires n in w.instances && Pruned(SetSecret(w, n, PMMOf(w, n, env).secret), n).Some?
    ensures Pruned(w, n).Some? && Settled(w, n, env).instances == w.instances[n := Pruned(w, n).value]
    ensures PrunedOnly(w, Settled(w, n, env), n)
  {
    PrunedIgnoresSecrets(w, n, PMMOf(w, n, env).secret);
  }

  lemma EarlyPrunes(w: World, n: string, env: SyncEnv)
    requires n in w.instances
    ensures PrunedOnly(w, Early(w, n, env), n)
  {
    if Pruned(SetSecret(w, n, PMMOf(w, n, env).secret), n).Some? { SettledPrunes(w, n, env); }
  }

  /** `w'` differs from `w` in Instance `n` by pruning, in cluster `n`, and in token Secrets only. */
  ghost predicate Writes(w: World, w': World, n: string)
    requires n in w.instances
  {
    && PrunedOnly(w, w'.(clusters := w.clusters), n)
    && forall m :: m != n ==> Get(w'.clusters, m) == Get(w.clusters, m)
  }

  lemma PruneThenCluster(w: World, w2: World, w': World, n: string)
    requires n in w.instances && PrunedOnly(w, w2, n) && OnlyCluster(w2, w', n)
    ensures Writes(w, w', n)
  {
    assert w'.(clusters := w.clusters) == w2;
  }

  /** A Sync leaves the Instances alone or prunes its own, and writes its own cluster. */
  lemma SyncWrites(w: World, n: string, env: SyncEnv)
    requires n in w.instances
    ensures Writes(w, Sync(w, n, env).0, n)
  {
    SyncSplits(w, n, env);
    if Reaches(w, n, env) {
      SettledPrunes(w, n, env);
      FinishWrites(w, Settled(w, n, env), n, env, PMMOf(w, n, env).pmm);
    } else {
      EarlyPrunes(w, n, env);
      PruneThenCluster(w, Early(w, n, env), Early(w, n, env), n);
    }
  }

  lemma FinishWrites(w: World, w2: World, n: string, env: SyncEnv, pmm: bool)
    requires n in w.instances && n in w2.instances && PrunedOnly(w, w2, n)
    ensures Writes(w, Finish(w2, n, env, pmm).0, n)
  {
    FinishTouchesOne(w2, n, env, pmm);
    PruneThenCluster(w, w2, Finish(w2, n, env, pmm).0, n);
  }

  lemma SettledOk(w: World, n: string, env: SyncEnv)
    requires n in w.instances && Reaches(w, n, env) && SlotsOk(w)
    ensures SlotsOk(Settled(w, n, env))
  {
    var w1 := SetSecret(w, n, PMMOf(w, n, env).secret);
    PrunedOk(w1, n);
    PutInstance(w1, n, Pruned(w1, n).value);
  }

  lemma SyncKeepsSlot(w: World, m: string, env: SyncEnv, n: string, s: string)
    requires m in w.instances && SlotsOk(w) && HoldsSlot(w, n, s) && Uses(Sync(w, m, env).0, n, s)
    ensures SameSlot(w, Sync(w, m, env).0, n, s)
  {
    if m != n {
      SyncWrites(w, m, env);
      OtherKeepsSlot(w, Sync(w, m, env).0, n, s);
    } else {
      SyncSplits(w, n, env);
      if Reaches(w, n, env) {
        OwnSyncKeepsSlot(w, n, env, s);
      } else {
        EarlyKeepsClusters(w, n, env);
      }
    }
  }

  lemma OtherKeepsSlot(w: World, w': World, n: string, s: string)
    requires HoldsSlot(w, n, s) && Get(w'.clusters, n) == Get(w.clusters, n)
    ensures SameSlot(w, w', n, s)
  {
  }

  lemma OwnSyncKeepsSlot(w: World, n: string, env: SyncEnv, s: string)
    requires n in w.instances && Reaches(w, n, env) && SlotsOk(w) && HoldsSlot(w, n, s)
    requires var w2 := Settled(w, n, env); Uses(Finish(w2, n, env, PMMOf(w, n, env).pmm).0, n, s)
    ensures var w2 := Settled(w, n, env); SameSlot(w, Finish(w2, n, env, PMMOf(w, n, env).pmm).0, n, s)
  {
    var w2, pmm := Settled(w, n, env), PMMOf(w, n, env).pmm;
    SettledOk(w, n, env);
    FinishTouchesOne(w2, n, env, pmm);
    FinishKeepsSlot(w2, n, env, pmm, s);
  }

  lemma StepKeepsSlot(w: World, a: Action, n: string, s: string)
    requires SlotsOk(w) && HoldsSlot(w, n, s) && Uses(Step(w, a), n, s)
    ensures SameSlot(w, Step(w, a), n, s)
  {
    if a.RunSync? {
      if Possible(w, a) { SyncKeepsSlot(w, a.n, a.env, n, s); }
    } else {
      OthersKeepSettings(w, a);
    }
  }

  /** Once persisted, a slot stays with its storage through any run in which the storage stays
      listed and backups stay enabled, whatever else is added, removed, misconfigured or restored. */
  lemma {:induction false} SlotsNeverMove(w: World, run: seq<Action>, n: string, s: string)
    requires SlotsOk(w) && HoldsSlot(w, n, s)
    requires forall k :: 0 < k <= |run| ==> Uses(Exec(w, run[..k]), n, s)
    ensures SameSlot(w, Exec(w, run), n, s)
  {
    if run != [] {
      var init := run[..|run| - 1];
      forall k | 0 < k <= |init| ensures Uses(Exec(w, init[..k]), n, s) {
        assert init[..k] == run[..k];
      }
      SlotsNeverMove(w, init, n, s);
      RunKeepsSlotsOk(w, init);
      assert run[..|run|] == run;
      StepKeepsSlot(Exec(w, init), run[|run| - 1], n, s);
    }
  }

  // ---------------------------------------------------------------- the two lookups

  /** What a Sync without a configuration error persists: the reconciled map, in which every listed
      storage has its slot. */
  lemma CompiledSlots(instance: Instance, live: Option<Cluster>, stores: map<string, BackupStorage>, rejected: bool,
      noImage: bool)
    requires InstanceOk(instance) && (live.Some? ==> ClusterOk(live.value))
    requires instance.backup.Some? && instance.backup.value.enabled
    requires Preserve(ApplySettings(instance, live, stores, rejected, noImage), live).error.None?
    ensures var slots := Preserve(ApplySettings(instance, live, stores, rejected, noImage), live).slots;
            && slots == Reconcile(if live.Some? then live.value.slots else map[], Listed(instance))
            && forall s :: s in Listed(instance) ==> s in slots
  {
    var existing := if live.Some? then live.value.slots else map[];
    CompiledAreSlots(instance.backup.value.storages, existing, stores, instance.uid);
  }

  lemma ConcludeApplies(w: World, n: string, d: Settings, pmm: bool, restoring: bool, fails: bool, bootstrap: Bootstrap)
    requires Conclude(w, n, d, pmm, restoring, fails, bootstrap).1.Applied?
    ensures var (w', r) := Conclude(w, n, d, pmm, restoring, fails, bootstrap);
            n in w'.clusters && w'.clusters[n].slots == d.slots && r.error == d.error
  {
  }

  lemma FinishPersists(w: World, n: string, env: SyncEnv, pmm: bool)
    requires n in w.instances && SlotsOk(w) && BacksUp(w, n) && Finish(w, n, env, pmm).1 == Applied(None)
    ensures var w' := Finish(w, n, env, pmm).0;
            && n in w'.clusters && w'.instances == w.instances
            && (exists existing :: w'.clusters[n].slots == Reconcile(existing, Listed(w.instances[n])))
            && forall s :: s in Listed(w.instances[n]) ==> s in w'.clusters[n].slots
  {
    FinishTouchesOne(w, n, env, pmm);
    ConcludeApplies(w, n, DesiredSettings(w, n, env), pmm, RestoreInProgress(w, n), env.stop == BeforeApply,
        BuildBootstrap(w, n));
    CompiledSlots(w.instances[n], Get(w.clusters, n), w.stores, env.rejected, env.noImage);
  }

  /** After a successful Sync of an Instance with backups enabled, the lookup that recomputes the
      slots resolves exactly the storages of the persisted map, to the repos they hold there; the
      reverse lookup leads from that repo back to the storage; and every listed storage has one. */
  lemma LookupsAfterSync(w: World, n: string, env: SyncEnv, s: string)
    requires n in w.instances && SlotsOk(w) && Sync(w, n, env).1 == Applied(None) && BacksUp(Sync(w, n, env).0, n)
    ensures var w' := Sync(w, n, env).0;
            && n in w'.clusters
            && var slots := w'.clusters[n].slots;
               && RepoOnInstance(w'.instances[n], slots, s) == (if s in slots then Some(RepoName(slots[s])) else None)
               && (s in slots ==> StorageOf(slots, RepoName(slots[s])) == Some(s))
               && (s in Listed(w'.instances[n]) ==> s in slots)
  {
    SyncSplits(w, n, env);
    SettledOk(w, n, env);
    SyncKeepsSlotsOk(w, n, env);
    var w2, w' := Settled(w, n, env), Sync(w, n, env).0;
    FinishTouchesOne(w2, n, env, PMMOf(w, n, env).pmm);
    FinishPersists(w2, n, env, PMMOf(w, n, env).pmm);
    var existing :| w'.clusters[n].slots == Reconcile(existing, Listed(w2.instances[n]));
    ReconcileIdempotent(existing, Listed(w2.instances[n]));
    assert ClusterOk(w'.clusters[n]);
    if s in w'.clusters[n].slots { ReverseLookup(w'.clusters[n].slots, s); }
  }

  // ---------------------------------------------------------------- configuration errors

  lemma FinishPreserves(w: World, n: string, env: SyncEnv, pmm: bool)
    requires n in w.instances && n in w.clusters
    ensures var (w', r) := Finish(w, n, env, pmm);
            && w'.instances == w.instances && n in w'.clusters
            && (r != Applied(None) ==> SameBackups(w.clusters[n], w'.clusters[n]))
            && (r == Applied(None) && !BacksUp(w, n) ==>
                 w'.clusters[n].backups == NO_BACKUPS && w'.clusters[n].slots == map[])
  {
    FinishTouchesOne(w, n, env, pmm);
    ConcludePreserves(w, n, DesiredSettings(w, n, env), pmm, RestoreInProgress(w, n), env.stop == BeforeApply,
        BuildBootstrap(w, n));
  }

  lemma ConcludePreserves(w: World, n: string, d: Settings, pmm: bool, restoring: bool, fails: bool,
      bootstrap: Bootstrap)
    requires n in w.clusters && (d.error.Some? ==> d.backups == w.clusters[n].backups && d.slots == w.clusters[n].slots)
    ensures var (w', r) := Conclude(w, n, d, pmm, restoring, fails, bootstrap);
            && n in w'.clusters
            && (r != Applied(None) ==> SameBackups(w.clusters[n], w'.clusters[n]))
            && (r == Applied(None) ==>
                  d.error.None? && w'.clusters[n].backups == d.backups && w'.clusters[n].slots == d.slots)
  {
  }

  ghost predicate SameBackups(c: Cluster, c': Cluster) { c'.backups == c.backups && c'.slots == c.slots }

  /** A Sync that reports a configuration error, is skipped or is stopped leaves the backup settings
      and the annotation of an existing cluster alone; one that succeeds with backups switched off
      clears both. */
  lemma OnlySuccessReconfigures(w: World, n: string, env: SyncEnv)
    requires n in w.instances && n in w.clusters
    ensures var (w', r) := Sync(w, n, env);
            && n in w'.clusters
            && (r != Applied(None) ==> SameBackups(w.clusters[n], w'.clusters[n]))
            && (r == Applied(None) && !BacksUp(w', n) ==>
                 w'.clusters[n].backups == NO_BACKUPS && w'.clusters[n].slots == map[])
  {
    SyncSplits(w, n, env);
    if Reaches(w, n, env) {
      SettledPreserves(w, n, env);
    } else {
      EarlyKeepsClusters(w, n, env);
    }
  }

  lemma EarlyKeepsClusters(w: World, n: string, env: SyncEnv)
    requires n in w.instances
    ensures Early(w, n, env).clusters == w.clusters
  {
    EarlyPrunes(w, n, env);
  }

  lemma SettledPreserves(w: World, n: string, env: SyncEnv)
    requires n in w.instances && n in w.clusters && Reaches(w, n, env)
    ensures var (w', r) := Finish(Settled(w, n, env), n, env, PMMOf(w, n, env).pmm);
            && n in w'.clusters
            && (r != Applied(None) ==> SameBackups(w.clusters[n], w'.clusters[n]))
            && (r == Applied(None) && !BacksUp(w', n) ==>
                 w'.clusters[n].backups == NO_BACKUPS && w'.clusters[n].slots == map[])
  {
    SettledPrunes(w, n, env);
    FinishPreserves(Settled(w, n, env), n, env, PMMOf(w, n, env).pmm);
  }

  // ---------------------------------------------------------------- at most four storages

  ghost predicate FourAtMost(config: Option<BackupConfig>) { config.Some? ==> |config.value.storages| <= MAX_REPOS }

  ghost predicate ListsFour(w: World) { forall n :: n in w.instances ==> FourAtMost(w.instances[n].backup) }

  ghost predicate SmallEdit(a: Action) {
    match a
    case ByUser(CreateInstance(_, _, config, _)) => FourAtMost(config)
    case ByUser(EditConfig(_, config)) => FourAtMost(config)
    case _ => true
  }

  lemma SyncKeepsFour(w: World, n: string, env: SyncEnv)
    requires n in w.instances && SlotsOk(w) && ListsFour(w)
    ensures ListsFour(Sync(w, n, env).0)
  {
    assert InstanceOk(w.instances[n]) && FourAtMost(w.instances[n].backup);
    PrunedOk(w, n);
    SyncWrites(w, n, env);
  }

  lemma SyncBackupKeepsFour(w: World, b: string, n: string)
    requires b in w.backups && n in w.instances && SlotsOk(w) && ListsFour(w)
    ensures ListsFour(SyncBackup(w, b, n).0)
  {
    if n in w.clusters && RepoOnInstance(w.instances[n], w.clusters[n].slots, w.backups[b].storage).None? {
      assert InstanceOk(w.instances[n]);
      RegisteredOk(w, n, w.backups[b].storage, w.clusters[n].slots);
    }
  }

  lemma UserKeepsFour(w: World, u: UserAction)
    requires UserMay(w, u) && ListsFour(w) && SmallEdit(ByUser(u))
    ensures ListsFour(UserEffect(w, u))
  {
    var w' := UserEffect(w, u);
    forall n | n in w'.instances ensures FourAtMost(w'.instances[n].backup) {
      assert n in w.instances ==> FourAtMost(w.instances[n].backup);
    }
  }

  lemma StepKeepsFour(w: World, a: Action)
    requires SlotsOk(w) && ListsFour(w) && SmallEdit(a)
    ensures ListsFour(Step(w, a))
  {
    if Possible(w, a) {
      match a {
        case ByUser(u) => UserKeepsFour(w, u);
        case ByOperator(o) => OperatorLeaves(w, o);
        case RunSync(n, env) => SyncKeepsFour(w, n, env);
        case RunSyncBackup(b) => SyncBackupKeepsFour(w, b, w.backups[b].origin.value);
        case RunSyncRestore(r) => SyncRestoreLeaves(w, r);
        case RunMirror(_, _) =>
      }
    }
  }

  /** As long as users list at most four storages, so does every Instance at every moment: automatic
      registration neither repeats a storage nor adds a fifth. */
  lemma {:induction false} FourStoragesAtMost(w: World, run: seq<Action>)
    requires SlotsOk(w) && ListsFour(w)
    requires forall k :: 0 <= k < |run| ==> SmallEdit(run[k])
    ensures ListsFour(Exec(w, run))
    ensures forall n :: n in Exec(w, run).instances ==> InstanceOk(Exec(w, run).instances[n])
  {
    RunKeepsSlotsOk(w, run);
    if run != [] {
      var init, a := run[..|run| - 1], run[|run| - 1];
      FourStoragesAtMost(w, init);
      RunKeepsSlotsOk(w, init);
      var v := Exec(w, init);
      StepKeepsFour(v, a);
    }
  }
}
