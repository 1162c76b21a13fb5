/** What each controller call does to the shared objects, as a function of their state and of the
    outcomes that come from outside the provider. `Provider` computes these in the provider's own
    steps; `Runs` and the modules after it prove what whole runs of them keep. */
module Controllers {
  import opened Wrappers
  import opened Text
  import opened Slots
  import opened Repos
  import opened Model
  import ScheduleNames

  // ---------------------------------------------------------------- monitoring

  datatype Need = Required | NotRequired | Undecided

  datatype Outcome = RenderFailed | RenderError | Rendered

  /** A monitoring binding: whether it is the applicable PMM one, and how rendering it ends. */
  datatype Binding = Binding(applies: bool, outcome: Outcome)

  function FirstApplicable(bindings: seq<Binding>): Option<Outcome> {
    if bindings == [] then None
    else if bindings[0].applies then Some(bindings[0].outcome)
    else FirstApplicable(bindings[1..])
  }

  datatype PMMPlan = PMMPlan(ok: bool, pmm: bool, secret: bool)

  /** The PMM setting of the cluster to be applied and whether the token Secret exists afterwards;
      `live` is the setting of the live cluster. */
  function PlanPMM(need: Need, bindings: seq<Binding>, live: bool, secret: bool): PMMPlan {
    if need == NotRequired then PMMPlan(true, false, secret && live)
    else if need == Undecided then PMMPlan(true, live, secret)
    else
      match FirstApplicable(bindings)
      case Some(Rendered) => PMMPlan(true, true, true)
      case Some(RenderError) => PMMPlan(false, live, secret)
      case _ => PMMPlan(true, live, secret)
  }

  // ---------------------------------------------------------------- pruning

  /** The storage the data source reads: Err(true) while its Backup does not exist yet, Err(false)
      when the description is incomplete and the code dereferences a nil. */
  function DataSourceStorage(w: World, ds: DataSource): Result<string, bool> {
    match ds
    case FromPointInTime(Some(pit)) => Ok(pit.storage)
    case FromBackup(Some(b)) => if b in w.backups then Ok(w.backups[b].storage) else Err(true)
    case _ => Err(false)
  }

  /** The storages referenced by a Backup of this Instance that is not being deleted. */
  function Referenced(w: World, n: string): set<string> { ReferencedIn(w.backups, w.backups.Keys, n) }

  function ReferencedIn(backups: map<string, Backup>, among: set<string>, n: string): set<string> {
    set b | b in among && b in backups && backups[b].origin == Some(n) && !backups[b].deleting :: backups[b].storage
  }

  predicate Keep(s: Storage, referenced: set<string>, source: string) {
    s.schedules != [] || s.name in referenced || (source != "" && s.name == source)
  }

  function Kept(storages: seq<Storage>, referenced: set<string>, source: string): seq<Storage> {
    if storages == [] then []
    else
      var s := storages[|storages| - 1];
      Kept(storages[..|storages| - 1], referenced, source) + if Keep(s, referenced, source) then [s] else []
  }

  function PrunedConfig(config: BackupConfig, kept: seq<Storage>): BackupConfig {
    if |kept| == |config.storages| then config
    else config.(storages := kept, enabled := config.enabled && kept != [])
  }

  /** The Instance after pruning, or None when the call fails. */
  function Pruned(w: World, n: string): Option<Instance>
    requires n in w.instances
  {
    var instance := w.instances[n];
    if instance.backup.None? || instance.backup.value.storages == [] then Some(instance)
    else
      var config := instance.backup.value;
      var source := if instance.dataSource.None? then Ok("") else DataSourceStorage(w, instance.dataSource.value);
      match source
      case Err(missing) => if missing then Some(instance) else None
      case Ok(name) => Some(instance.(backup := Some(PrunedConfig(config,
          Kept(config.storages, Referenced(w, n), name)))))
  }

  // ---------------------------------------------------------------- backup settings

  datatype Settings = Settings(backups: Backups, slots: SlotMap, error: Option<Reason>)

  const NO_BACKUPS := Backups(false, [], map[])

  /** `rejected` and `noImage` are the answers of the backup class and the image catalogue. */
  function ApplySettings(
    instance: Instance, live: Option<Cluster>, stores: map<string, BackupStorage>, rejected: bool,
        noImage: bool): Settings
  {
    if instance.backup.None? || !instance.backup.value.enabled then Settings(NO_BACKUPS, map[], None)
    else if rejected then Settings(NO_BACKUPS, map[], Some(ClassRejected))
    else if noImage then Settings(NO_BACKUPS, map[], Some(ImageUnavailable))
    else
      var storages := instance.backup.value.storages;
      if storages == [] then Settings(NO_BACKUPS.(enabled := true), map[], Some(NoStoragesConfigured))
      else
        var slots := Reconcile(if live.Some? then live.value.slots else map[], NamesOf(storages));
        match Compile(storages, slots, stores, instance.uid)
        case Err(reason) => Settings(NO_BACKUPS.(enabled := true), map[], Some(reason))
        case Ok(compiled) => Settings(Backups(true, compiled.repos, compiled.global), slots, None)
  }

  /** After a configuration error an existing cluster keeps the backup settings it has. */
  function Preserve(s: Settings, live: Option<Cluster>): Settings {
    if s.error.Some? && live.Some? then s.(backups := live.value.backups, slots := live.value.slots) else s
  }

  // ---------------------------------------------------------------- restore sources

  predicate IsSeeding(w: World, n: string, restore: string) {
    n in w.instances && w.instances[n].dataSource.Some? && restore == n + w.seedSuffix
  }

  /** The Instance whose repo holds the data, "" when it cannot be told. */
  function SourceInstance(w: World, ds: DataSource): string {
    match ds
    case FromBackup(Some(b)) => if b in w.backups && w.backups[b].origin.Some? then w.backups[b].origin.value else ""
    case FromPointInTime(Some(pit)) => if pit.source.Some? then pit.source.value else ""
    case _ => ""
  }

  /** A source is usable, not usable with a state to report, or makes the call crash. */
  datatype Source = Usable(repo: Option<string>, options: seq<RestoreOption>) | Unusable(state: RestoreState) | Crash

  function ResolveBackupSource(w: World, name: string, restore: Restore, backup: Option<string>): Source {
    if backup.None? || backup.value == "" then Unusable(RestoreFailed)
    else
      var b := backup.value;
      if b !in w.backups then Unusable(RestorePending)
      else if w.backups[b].failed then Unusable(RestoreFailed)
      else if b !in w.opBackups then Unusable(RestorePending)
      else if w.opBackups[b].state == Failed then Unusable(RestoreFailed)
      else if w.opBackups[b].state != Succeeded then Unusable(RestorePending)
      else if w.backups[b].origin.None? then Crash
      else if w.backups[b].origin.value != restore.instance
          && !IsSeeding(w, restore.instance, name) then Unusable(RestoreFailed)
      else
        var op := w.opBackups[b];
        Usable(op.repo, (if op.setName != "" then [Set(op.setName)] else []) + [Immediate])
  }

  predicate Foreign(pit: PointInTime, restore: Restore) { pit.source.Some? && pit.source.value != restore.instance }

  /** The repo of the WAL stream: looked up in the foreign cluster's own slot map, or resolved on
      the Instance itself. */
  function StreamRepo(w: World, pit: PointInTime, restore: Restore): Option<string>
    requires restore.instance in w.instances
  {
    if Foreign(pit, restore) then
      var slots := if pit.source.value in w.clusters then w.clusters[pit.source.value].slots else map[];
      if pit.storage in slots then Some(RepoName(slots[pit.storage])) else None
    else
      var slots := if restore.instance in w.clusters then w.clusters[restore.instance].slots else map[];
      RepoOnInstance(w.instances[restore.instance], slots, pit.storage)
  }

  function ResolvePointInTime(w: World, name: string, restore: Restore, at: Option<PointInTime>): Source
    requires restore.instance in w.instances
  {
    if at.None? then Unusable(RestoreFailed)
    else
      var pit := at.value;
      if pit.target == Date(None) then Unusable(RestoreFailed)
      else if Foreign(pit, restore) && !IsSeeding(w, restore.instance, name) then Unusable(RestoreFailed)
      else
        var cluster := if Foreign(pit, restore) then pit.source.value else restore.instance;
        if cluster !in w.clusters then Unusable(RestorePending)
        else
          var repo := StreamRepo(w, pit, restore);
          if repo.None? || !HasRepo(w.clusters[cluster], repo.value) then Unusable(RestorePending)
          else Usable(repo, if pit.target.Date? then [TimeTarget(pit.target.at.value)] else [])
  }

  function ResolveSource(w: World, name: string, restore: Restore): Source
    requires restore.instance in w.instances
  {
    match restore.source
    case FromBackup(backup) => ResolveBackupSource(w, name, restore, backup)
    case FromPointInTime(at) => ResolvePointInTime(w, name, restore, at)
    case OtherSource => Unusable(RestoreFailed)
  }

  // ---------------------------------------------------------------- seeding

  /** What a cluster that does not exist yet is created from. */
  datatype Bootstrap = FromScratch | From(source: ClusterSource) | NotReady | Broken

  function BuildBootstrap(w: World, n: string): Bootstrap
    requires n in w.instances
  {
    if w.instances[n].dataSource.None? then FromScratch
    else
      var ds := w.instances[n].dataSource.value;
      match ResolveSource(w, n + w.seedSuffix, Restore(n, ds, RestoreUnset))
      case Unusable(_) => NotReady
      case Crash => Broken
      case Usable(repo, options) =>
        var source := SourceInstance(w, ds);
        if source == "" || source == n then FromScratch
        else if source !in w.instances then NotReady
        else
          var storage := DataSourceStorage(w, ds);
          if storage.Err? || storage.value !in w.stores || repo.None? then Broken
          else SourceOn(repo.value, options, w.stores[storage.value], w.instances[source].uid)
  }

  function SourceOn(repo: string, options: seq<RestoreOption>, backend: BackupStorage, uid: string): Bootstrap {
    match BuildPGBackRestRepo(repo, backend, uid)
    case Err(_) => Broken
    case Ok((built, path)) =>
      if !backend.credentials then Broken
      else From(ClusterSource(built, options, path + TransportKeys(repo, backend.s3.value)))
  }

  // ---------------------------------------------------------------- Sync

  predicate Active(r: Restore) { r.state == RestoreUnset || r.state == RestorePending || r.state == RestoreRunning }

  predicate RestoreInProgress(w: World, n: string) {
    exists r :: r in w.restores && w.restores[r].instance == n && Active(w.restores[r])
  }

  /** An API or lookup error that ends the call before the named step. */
  datatype Stop = Never | BeforePMM | BeforePrune | BeforeSettings | BeforeApply

  datatype SyncEnv = SyncEnv(need: Need, bindings: seq<Binding>, rejected: bool, noImage: bool, stop: Stop)

  datatype SyncResult = Aborted | Skipped(error: Option<Reason>) | Applied(error: Option<Reason>)

  function SetSecret(w: World, n: string, present: bool): World {
    w.(pmmSecrets := if present then w.pmmSecrets + {n} else w.pmmSecrets - {n})
  }

  function PMMOf(w: World, n: string, env: SyncEnv): PMMPlan {
    PlanPMM(env.need, env.bindings, n in w.clusters && w.clusters[n].pmm, n in w.pmmSecrets)
  }

  function DesiredSettings(w: World, n: string, env: SyncEnv): Settings
    requires n in w.instances
  {
    Preserve(ApplySettings(w.instances[n], Get(w.clusters, n), w.stores, env.rejected, env.noImage), Get(w.clusters, n))
  }

  /** The write of the cluster: the provider's fields are replaced, the operator's stay. */
  function ApplyCluster(w: World, n: string, s: Settings, source: Option<ClusterSource>, pmm: bool): World {
    var live := Get(w.clusters, n);
    w.(clusters := w.clusters[n := Cluster(s.backups, s.slots, source, pmm,
                                          if live.Some? then live.value.stanzas else {},
                                          if live.Some? then live.value.phase else Initializing)])
  }

  /** The last part of Sync, from the decision whether to write the cluster at all: nothing is written
      while a restore runs, and a cluster that does not exist yet is created only from a source that
      is ready. */
  function Conclude(w: World, n: string, s: Settings, pmm: bool, restoring: bool, fails: bool,
      bootstrap: Bootstrap): (World, SyncResult)
  {
    if restoring then (w, Skipped(s.error))
    else if fails || (n !in w.clusters && (bootstrap.NotReady? || bootstrap.Broken?)) then (w, Aborted)
    else (ApplyCluster(w, n, s, SourceFor(w, n, bootstrap), pmm), Applied(s.error))
  }

  /** An existing cluster keeps the source it was created with. */
  function SourceFor(w: World, n: string, bootstrap: Bootstrap): Option<ClusterSource> {
    if n in w.clusters then w.clusters[n].source
    else if bootstrap.From? then Some(bootstrap.source)
    else None
  }

  function Finish(w: World, n: string, env: SyncEnv, pmm: bool): (World, SyncResult)
    requires n in w.instances
  {
    Conclude(w, n, DesiredSettings(w, n, env), pmm, RestoreInProgress(w, n), env.stop == BeforeApply,
        BuildBootstrap(w, n))
  }

  function Sync(w: World, n: string, env: SyncEnv): (World, SyncResult)
    requires n in w.instances
  {
    if env.stop == BeforePMM then (w, Aborted)
    else
      var plan := PMMOf(w, n, env);
      var w1 := SetSecret(w, n, plan.secret);
      if !plan.ok || env.stop == BeforePrune then (w1, Aborted)
      else
        match Pruned(w1, n)
        case None => (w1, Aborted)
        case Some(instance) =>
          var w2 := w1.(instances := w1.instances[n := instance]);
          if env.stop == BeforeSettings then (w2, Aborted) else Finish(w2, n, env, plan.pmm)
  }

  // ---------------------------------------------------------------- SyncBackup

  datatype BackupVerdict =
    | WaitScheduled | ClusterMissing | RegisterFailed | WaitStorage | Registered
    | WaitRepos | WaitRepo | WaitInit | WaitStanza | Following(state: OpState)

  datatype Registration = NotRegistered | LimitReached | Done(instance: Instance)

  function AutoRegister(w: World, n: string, storage: string): Registration
    requires n in w.instances
  {
    var instance := w.instances[n];
    if storage !in w.stores || instance.backup.None? then NotRegistered
    else if |instance.backup.value.storages| >= MAX_REPOS then LimitReached
    else
      var config := instance.backup.value;
      Done(instance.(backup := Some(config.(enabled := true,
          storages := config.storages + [Storage(storage, [], false)]))))
  }

  function NewOpBackup(n: string, repo: string): OpBackup {
    OpBackup(n, Some(repo), "", false, true, false, NoState, "", None, None)
  }

  /** A Backup whose storage has no slot: the storage is registered if it may be. */
  function Register(w: World, n: string, registration: Registration): (World, BackupVerdict) {
    match registration
    case NotRegistered => (w, WaitStorage)
    case LimitReached => (w, RegisterFailed)
    case Done(instance) => (w.(instances := w.instances[n := instance]), Registered)
  }

  /** What a resolved repo still lacks before a backup can be taken on it. */
  function Lacks(cluster: Cluster, repo: string): Option<BackupVerdict> {
    if !cluster.backups.enabled || cluster.backups.repos == [] then Some(WaitRepos)
    else if !HasRepo(cluster, repo) then Some(WaitRepo)
    else if cluster.phase == Initializing then Some(WaitInit)
    else if repo !in cluster.stanzas then Some(WaitStanza)
    else None
  }

  /** The call for an on-demand Backup whose operator backup does not exist yet. */
  function StartBackup(w: World, b: string, n: string): (World, BackupVerdict)
    requires b in w.backups && n in w.instances
  {
    var storage := w.backups[b].storage;
    if n !in w.clusters then (w, ClusterMissing)
    else
      match RepoOnInstance(w.instances[n], w.clusters[n].slots, storage)
      case None => Register(w, n, AutoRegister(w, n, storage))
      case Some(repo) =>
        match Lacks(w.clusters[n], repo)
        case Some(verdict) => (w, verdict)
        case None => (w.(opBackups := w.opBackups[b := NewOpBackup(n, repo)]), Following(NoState))
  }

  /** SyncBackup for a Backup of Instance `n`. */
  function SyncBackup(w: World, b: string, n: string): (World, BackupVerdict)
    requires b in w.backups && n in w.instances
  {
    var managed := w.backups[b].scheduleName == "";
    if b !in w.opBackups then
      if !managed then (w, WaitScheduled) else StartBackup(w, b, n)
    else
      var op := w.opBackups[b];
      (if managed then w.(opBackups := w.opBackups[b := op.(owned := true)]) else w, Following(op.state))
  }

  // ---------------------------------------------------------------- SyncRestore

  datatype RestoreVerdict = Refused(state: RestoreState) | Seeding(state: RestoreState) | Restoring | RestoreCrash

  function SyncRestore(w: World, r: string): (World, RestoreVerdict)
    requires r in w.restores && w.restores[r].instance in w.instances
  {
    var restore := w.restores[r];
    match ResolveSource(w, r, restore)
    case Unusable(state) => (w, Refused(state))
    case Crash => (w, RestoreCrash)
    case Usable(repo, options) =>
      if IsSeeding(w, restore.instance, r) && SourceInstance(w, restore.source) != restore.instance then
        (w, Seeding(if restore.instance !in w.clusters then RestorePending
                    else if w.clusters[restore.instance].phase == Ready then RestoreSucceeded
                    else RestoreRunning))
      else if r in w.opRestores then (w, Restoring)
      else (w.(opRestores := w.opRestores[r := OpRestore(restore.instance, repo, options)]), Restoring)
  }

  // ---------------------------------------------------------------- Mirror

  predicate Scheduled(op: OpBackup) { !op.replicaCreate && op.generateName != "" }

  /** The Backup that mirrors operator backup `o`, if it is mirrored; `storage` is what the reverse
      lookup of its repo finds. */
  function Mirror(w: World, o: string, storage: Option<string>): Option<Backup>
    requires o in w.opBackups
  {
    var op := w.opBackups[o];
    if op.deleting || op.owned || !Scheduled(op) then None
    else if op.cluster !in w.instances || w.instances[op.cluster].deleting then None
    else if w.instances[op.cluster].backup.None? || w.instances[op.cluster].backup.value.className == "" then None
    else if op.repo.None? || op.repo.value == "" || storage.None? || storage.value == "" then None
    else
      Some(Backup(Some(op.cluster), storage.value,
                  ScheduleNames.DeriveScheduleName(o, op.cluster, op.repo.value), false, false, true))
  }

  /** The slot map the reverse lookup of Mirror reads. */
  function MirrorSlots(w: World, o: string): SlotMap
    requires o in w.opBackups
  {
    var op := w.opBackups[o];
    if op.cluster in w.clusters then w.clusters[op.cluster].slots else map[]
  }
}
