/** The objects the controllers share: one namespace of Instances, PostgreSQL clusters, backups,
    restores and storages, each with the fields this provider reads or writes. */
module Model {
  import opened Wrappers
  import opened Slots
  import opened Repos

  datatype BackupConfig = BackupConfig(enabled: bool, storages: seq<Storage>, className: string)

  datatype Target = Latest | Date(at: Option<int>)

  datatype PointInTime = PointInTime(source: Option<string>, storage: string, target: Target)

  datatype DataSource = FromBackup(backup: Option<string>) | FromPointInTime(pit: Option<PointInTime>) | OtherSource

  datatype Instance = Instance(uid: string, backup: Option<BackupConfig>, dataSource: Option<DataSource>,
      deleting: bool)

  datatype RestoreOption = Set(setName: string) | Immediate | TimeTarget(at: int)

  /** The repo a new cluster is bootstrapped from. */
  datatype ClusterSource = ClusterSource(repo: Repo, options: seq<RestoreOption>, global: map<string, string>)

  datatype Backups = Backups(enabled: bool, repos: seq<Repo>, global: map<string, string>)

  datatype Phase = Initializing | Ready | OtherPhase

  /** A PerconaPGCluster: the provider owns all but the last two fields, which the operator reports. */
  datatype Cluster = Cluster(
    backups: Backups, slots: SlotMap, source: Option<ClusterSource>, pmm: bool,
    stanzas: set<string>, phase: Phase)

  datatype OpState = NoState | Starting | Running | Succeeded | Failed

  /** A PerconaPGBackup; `owned` is a controller reference to a Backup. */
  datatype OpBackup = OpBackup(
    cluster: string, repo: Option<string>, generateName: string, replicaCreate: bool, owned: bool, deleting: bool,
    state: OpState, setName: string, completedAt: Option<int>, latestRestorable: Option<int>)

  /** A Backup; `mirrored` is an owner reference to a PerconaPGBackup. */
  datatype Backup = Backup(origin: Option<string>, storage: string, scheduleName: string, deleting: bool, failed: bool,
      mirrored: bool)

  datatype RestoreState = RestoreUnset | RestorePending | RestoreRunning | RestoreSucceeded | RestoreFailed

  datatype Restore = Restore(instance: string, source: DataSource, state: RestoreState)

  /** A PerconaPGRestore. */
  datatype OpRestore = OpRestore(cluster: string, repo: Option<string>, options: seq<RestoreOption>)

  /** `seedSuffix` is the runtime's suffix for the name of a seeding Restore, whatever it is. */
  datatype World = World(
    instances: map<string, Instance>,
    clusters: map<string, Cluster>,
    stores: map<string, BackupStorage>,
    backups: map<string, Backup>,
    opBackups: map<string, OpBackup>,
    restores: map<string, Restore>,
    opRestores: map<string, OpRestore>,
    pmmSecrets: set<string>,
    seedSuffix: string)

  function NamesOf(storages: seq<Storage>): (names: seq<string>)
    ensures |names| == |storages|
    ensures forall i :: 0 <= i < |storages| ==> names[i] == storages[i].name
  {
    seq(|storages|, i requires 0 <= i < |storages| => storages[i].name)
  }

  /** The storage names an Instance lists; none without a backup section. */
  function Listed(instance: Instance): seq<string> {
    if instance.backup.None? then [] else NamesOf(instance.backup.value.storages)
  }

  /** The repo a storage name resolves to on an Instance, given its cluster's slot map. */
  function RepoOnInstance(instance: Instance, slots: SlotMap, storage: string): Option<string> {
    if instance.backup.None? then None else RepoOf(slots, Listed(instance), storage)
  }

  predicate HasRepo(cluster: Cluster, repo: string) {
    exists i :: 0 <= i < |cluster.backups.repos| && cluster.backups.repos[i].name == repo
  }
}
