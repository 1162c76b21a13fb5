/** The provider's controller calls in their own form: methods that read and replace the objects of
    one namespace, and build the cluster to be applied field by field. Each is proved to do exactly
    what `Controllers` says of it. */
module Provider {
  import opened Wrappers
  import opened Text
  import opened Slots
  import opened Repos
  import opened Model
  import Controllers
  import ScheduleNames

  /** The cluster object a Sync fills in before it applies it. */
  class DesiredCluster {
    var backups: Backups
    var slots: SlotMap
    var source: Option<ClusterSource>
    var pmm: bool

    constructor ()
      ensures backups == Controllers.NO_BACKUPS && slots == map[] && source == None && !pmm
    {
      backups, slots, source, pmm := Controllers.NO_BACKUPS, map[], None, false;
    }
  }

  /** How building a data source ends. */
  datatype Building = Built | Waiting | Broke

  /** A data source under construction: pgBackRest's options are added to it one by one. */
  class SeedSource {
    var repo: Repo
    var options: seq<RestoreOption>
    var global: map<string, string>

    constructor (repo: Repo, options: seq<RestoreOption>, global: map<string, string>)
      ensures Source() == ClusterSource(repo, options, global)
    {
      this.repo, this.options, this.global := repo, options, global;
    }

    function Source(): ClusterSource
      reads this
    {
      ClusterSource(repo, options, global)
    }

    method AddTransport(s3: S3)
      modifies this`global
      ensures global == old(global) + TransportKeys(repo.name, s3)
    {
      if s3.forcePathStyle == Some(true) {
        global := global[RepoKey(repo.name, "s3-uri-style") := "path"];
      }
      if s3.verifyTLS == Some(false) {
        global := global[RepoKey(repo.name, "storage-verify-tls") := "n"];
      }
    }
  }

  /** The search for a repo of that name among the cluster's. */
  method FindRepo(cluster: Cluster, repo: string) returns (found: bool)
    ensures found <==> HasRepo(cluster, repo)
  {
    for i := 0 to |cluster.backups.repos|
      invariant forall j :: 0 <= j < i ==> cluster.backups.repos[j].name != repo
    {
      if cluster.backups.repos[i].name == repo { return true; }
    }
    return false;
  }

  class Namespace {
    var instances: map<string, Instance>
    var clusters: map<string, Cluster>
    var stores: map<string, BackupStorage>
    var backups: map<string, Backup>
    var opBackups: map<string, OpBackup>
    var restores: map<string, Restore>
    var opRestores: map<string, OpRestore>
    var pmmSecrets: set<string>
    const seedSuffix: string

    constructor (w: World)
      ensures State() == w
    {
      instances, clusters, stores, backups := w.instances, w.clusters, w.stores, w.backups;
      opBackups, restores, opRestores, pmmSecrets := w.opBackups, w.restores, w.opRestores, w.pmmSecrets;
      seedSuffix := w.seedSuffix;
    }

    function State(): World
      reads this
    {
      World(instances, clusters, stores, backups, opBackups, restores, opRestores, pmmSecrets, seedSuffix)
    }

    // -------------------------------------------------------------- Sync

    method ApplyPMM(cluster: DesiredCluster, n: string, env: Controllers.SyncEnv) returns (ok: bool)
      modifies this`pmmSecrets, cluster`pmm
      ensures var plan := Controllers.PMMOf(old(State()), n, env);
              && State() == Controllers.SetSecret(old(State()), n, plan.secret)
              && ok == plan.ok && (ok ==> cluster.pmm == plan.pmm)
    {
      var live := n in clusters && clusters[n].pmm;
      if env.need == Controllers.NotRequired || (env.need == Controllers.Undecided && !live) {
        cluster.pmm := false;
        if env.need == Controllers.NotRequired && !live {
          pmmSecrets := pmmSecrets - {n};
        }
        return true;
      }
      cluster.pmm := live;
      if env.need != Controllers.Required { return true; }
      for i := 0 to |env.bindings|
        invariant Controllers.FirstApplicable(env.bindings) == Controllers.FirstApplicable(env.bindings[i..])
        invariant cluster.pmm == live && pmmSecrets == old(pmmSecrets)
      {
        assert env.bindings[i..][1..] == env.bindings[i + 1..];
        if env.bindings[i].applies {
          match env.bindings[i].outcome {
            case RenderFailed => return true;
            case RenderError => return false;
            case Rendered =>
              pmmSecrets := pmmSecrets + {n};
              cluster.pmm := true;
              return true;
          }
        }
      }
      return true;
    }

    method ReferencedStorages(n: string) returns (referenced: set<string>)
      ensures referenced == Controllers.Referenced(State(), n)
    {
      referenced := {};
      var remaining := backups.Keys;
      while remaining != {}
        invariant remaining <= backups.Keys
        invariant referenced == Controllers.ReferencedIn(backups, backups.Keys - remaining, n)
      {
        var b :| b in remaining;
        if backups[b].origin == Some(n) && !backups[b].deleting {
          referenced := referenced + {backups[b].storage};
        }
        remaining := remaining - {b};
      }
    }

    method PruneUnreferencedStorages(n: string) returns (ok: bool)
      requires n in instances
      modifies this`instances
      ensures match Controllers.Pruned(old(State()), n) {
                case None => !ok && instances == old(instances)
                case Some(instance) => ok && instances == old(instances)[n := instance]
              }
    {
      var instance := instances[n];
      assert instances == instances[n := instance];
      if instance.backup.None? || instance.backup.value.storages == [] { return true; }
      var config := instance.backup.value;
      var source := "";
      if instance.dataSource.Some? {
        var found := DataSourceStorageName(instance.dataSource.value);
        if found.Err? { return found.error; }
        source := found.value;
      }
      var referenced := ReferencedStorages(n);
      var kept: seq<Storage> := [];
      for i := 0 to |config.storages|
        invariant kept == Controllers.Kept(config.storages[..i], referenced, source)
      {
        assert config.storages[..i + 1][..i] == config.storages[..i];
        var s := config.storages[i];
        if |s.schedules| > 0 || s.name in referenced || (source != "" && s.name == source) {
          kept := kept + [s];
        }
      }
      assert config.storages[..|config.storages|] == config.storages;
      if |kept| == |config.storages| { return true; }
      config := config.(storages := kept);
      if |kept| == 0 { config := config.(enabled := false); }
      instances := instances[n := instance.(backup := Some(config))];
      return true;
    }

    method ApplyBackupSettings(cluster: DesiredCluster, n: string, env: Controllers.SyncEnv)
      returns (error: Option<Reason>)
      requires n in instances
      requires cluster.backups == Controllers.NO_BACKUPS && cluster.slots == map[]
      modifies cluster`backups, cluster`slots
      ensures Controllers.Settings(cluster.backups, cluster.slots, error) ==
              Controllers.ApplySettings(instances[n], Get(clusters, n), stores, env.rejected, env.noImage)
    {
      var instance := instances[n];
      if instance.backup.None? || !instance.backup.value.enabled {
        cluster.backups := Backups(false, [], map[]);
        cluster.slots := map[];
        return None;
      }
      if env.rejected { return Some(ClassRejected); }
      if env.noImage { return Some(ImageUnavailable); }
      cluster.backups := cluster.backups.(enabled := true);
      var storages := instance.backup.value.storages;
      if |storages| == 0 { return Some(NoStoragesConfigured); }
      var existing := if n in clusters then clusters[n].slots else map[];
      var slots := ReconcileRepoSlotMap(existing, NamesOf(storages));
      var compiled := CompileStorages(storages, slots, stores, instance.uid);
      if compiled.Err? { return Some(compiled.error); }
      cluster.backups := cluster.backups.(repos := compiled.value.repos, global := compiled.value.global);
      cluster.slots := slots;
      return None;
    }

    method IsRestoreRunning(n: string) returns (running: bool)
      ensures running == Controllers.RestoreInProgress(State(), n)
    {
      var remaining := restores.Keys;
      while remaining != {}
        invariant remaining <= restores.Keys
        invariant forall r :: r in restores && r !in remaining ==>
                  !(restores[r].instance == n && Controllers.Active(restores[r]))
      {
        var r :| r in remaining;
        if restores[r].instance == n {
          var state := restores[r].state;
          if state == RestoreUnset || state == RestorePending || state == RestoreRunning { return true; }
        }
        remaining := remaining - {r};
      }
      return false;
    }

    /** An existing cluster keeps the source it was created with; a new one gets one if the Instance
        is seeded from another, and is not created while that one is not ready. */
    method ApplyDataSourceBootstrap(cluster: DesiredCluster, n: string) returns (ok: bool)
      requires n in instances && cluster.source == None
      modifies cluster`source
      ensures n in clusters ==> ok && cluster.source == clusters[n].source
      ensures n !in clusters ==> match Controllers.BuildBootstrap(State(), n) {
                case FromScratch => ok && cluster.source == None
                case From(source) => ok && cluster.source == Some(source)
                case _ => !ok
              }
    {
      if n in clusters {
        cluster.source := clusters[n].source;
        return true;
      }
      var bootstrap, outcome := BuildDataSourceBootstrap(n);
      if outcome.Waiting? || outcome.Broke? { return false; }
      if bootstrap != null {
        cluster.source := Some(bootstrap.Source());
      }
      return true;
    }

    /** What a new cluster is created from: nothing and Built if the Instance has no data source or
        seeds from itself, otherwise the source, unless it is not usable yet or the call fails. */
    method BuildDataSourceBootstrap(n: string) returns (bootstrap: SeedSource?, outcome: Building)
      requires n in instances
      ensures bootstrap != null ==> fresh(bootstrap)
      ensures match Controllers.BuildBootstrap(State(), n) {
                case FromScratch => outcome == Built && bootstrap == null
                case From(source) => outcome == Built && bootstrap != null && bootstrap.Source() == source
                case NotReady => outcome == Waiting
                case Broken => outcome == Broke
              }
    {
      bootstrap := null;
      if instances[n].dataSource.None? { return null, Built; }
      var ds := instances[n].dataSource.value;
      var resolved := ResolveRestoreSource(n + seedSuffix, Restore(n, ds, RestoreUnset));
      if resolved.Crash? { return null, Broke; }
      if resolved.Unusable? { return null, Waiting; }
      var sourceName := DataSourceSourceInstance(ds);
      if sourceName == "" || sourceName == n { return null, Built; }
      if sourceName !in instances { return null, Waiting; }
      var storageName := DataSourceStorageName(ds);
      if storageName.Err? || storageName.value !in stores { return null, Broke; }
      var backend := stores[storageName.value];
      if resolved.repo.None? { return null, Broke; }
      var built := BuildPGBackRestRepo(resolved.repo.value, backend, instances[sourceName].uid);
      if built.Err? { return null, Broke; }
      var (repo, path) := built.value;
      var source := new SeedSource(repo, resolved.options, path);
      if !backend.credentials { return null, Broke; }
      source.AddTransport(backend.s3.value);
      return source, Built;
    }

    method DataSourceSourceInstance(ds: DataSource) returns (name: string)
      ensures name == Controllers.SourceInstance(State(), ds)
    {
      match ds {
        case FromBackup(backup) =>
          if backup.None? || backup.value !in backups { return ""; }
          var origin := backups[backup.value].origin;
          return if origin.None? then "" else origin.value;
        case FromPointInTime(pit) =>
          if pit.None? || pit.value.source.None? { return ""; }
          return pit.value.source.value;
        case OtherSource => return "";
      }
    }

    method DataSourceStorageName(ds: DataSource) returns (name: Result<string, bool>)
      ensures name == Controllers.DataSourceStorage(State(), ds)
    {
      if ds.FromPointInTime? {
        return if ds.pit.Some? then Ok(ds.pit.value.storage) else Err(false);
      }
      if ds.OtherSource? || ds.backup.None? { return Err(false); }
      if ds.backup.value !in backups { return Err(true); }
      return Ok(backups[ds.backup.value].storage);
    }

    // -------------------------------------------------------------- restore sources

    method ResolveRestoreSource(name: string, restore: Restore) returns (source: Controllers.Source)
      requires restore.instance in instances
      ensures source == Controllers.ResolveSource(State(), name, restore)
    {
      match restore.source {
        case FromBackup(backup) => source := ResolveBackupSource(name, restore, backup);
        case FromPointInTime(at) => source := ResolvePointInTimeSource(name, restore, at);
        case OtherSource => source := Controllers.Unusable(RestoreFailed);
      }
    }

    /** The repo and the backup set of an operator backup, or why they cannot be had. */
    method ResolveRestoreRepoName(backup: string) returns (repo: Option<string>, setName: string,
        pending: Option<RestoreState>)
      ensures pending == None <==> backup in opBackups && opBackups[backup].state == Succeeded
      ensures pending == Some(RestoreFailed) <==> backup in opBackups && opBackups[backup].state == Failed
      ensures pending in {None, Some(RestorePending), Some(RestoreFailed)}
      ensures pending == None ==> repo == opBackups[backup].repo && setName == opBackups[backup].setName
    {
      if backup !in opBackups { return None, "", Some(RestorePending); }
      var op := opBackups[backup];
      if op.state == Failed { return None, "", Some(RestoreFailed); }
      if op.state != Succeeded { return None, "", Some(RestorePending); }
      return op.repo, op.setName, None;
    }

    method ResolveBackupSource(name: string, restore: Restore, backup: Option<string>)
      returns (source: Controllers.Source)
      ensures source == Controllers.ResolveBackupSource(State(), name, restore, backup)
    {
      if backup.None? || backup.value == "" { return Controllers.Unusable(RestoreFailed); }
      if backup.value !in backups { return Controllers.Unusable(RestorePending); }
      var sourceBackup := backups[backup.value];
      if sourceBackup.failed { return Controllers.Unusable(RestoreFailed); }
      var repo, setName, pending := ResolveRestoreRepoName(backup.value);
      if pending.Some? { return Controllers.Unusable(pending.value); }
      var options: seq<RestoreOption> := [];
      if setName != "" {
        options := options + [Set(setName)];
      }
      options := options + [Immediate];
      if sourceBackup.origin.None? { return Controllers.Crash; }
      if sourceBackup.origin.value != restore.instance && !Controllers.IsSeeding(State(), restore.instance, name) {
        return Controllers.Unusable(RestoreFailed);
      }
      return Controllers.Usable(repo, options);
    }

    method ResolvePointInTimeSource(name: string, restore: Restore, at: Option<PointInTime>)
      returns (source: Controllers.Source)
      requires restore.instance in instances
      ensures source == Controllers.ResolvePointInTime(State(), name, restore, at)
    {
      if at.None? { return Controllers.Unusable(RestoreFailed); }
      var pit := at.value;
      if pit.target.Date? && pit.target.at.None? { return Controllers.Unusable(RestoreFailed); }
      var foreign := pit.source.Some? && pit.source.value != restore.instance;
      if foreign && !Controllers.IsSeeding(State(), restore.instance, name) {
        return Controllers.Unusable(RestoreFailed);
      }
      var clusterName := restore.instance;
      if foreign { clusterName := pit.source.value; }
      if clusterName !in clusters { return Controllers.Unusable(RestorePending); }
      var cluster := clusters[clusterName];
      var repo: Option<string> := None;
      if foreign {
        if pit.storage in cluster.slots { repo := Some(RepoName(cluster.slots[pit.storage])); }
      } else if instances[restore.instance].backup.Some? {
        repo := StorageNameToRepoName(cluster.slots, Listed(instances[restore.instance]), pit.storage);
      }
      if repo.None? { return Controllers.Unusable(RestorePending); }
      var live := FindRepo(cluster, repo.value);
      if !live { return Controllers.Unusable(RestorePending); }
      var options: seq<RestoreOption> := [];
      if pit.target.Date? {
        options := options + [TimeTarget(pit.target.at.value)];
      }
      return Controllers.Usable(repo, options);
    }

    method Sync(n: string, env: Controllers.SyncEnv) returns (result: Controllers.SyncResult)
      requires n in instances
      modifies this
      ensures (State(), result) == Controllers.Sync(old(State()), n, env)
    {
      if env.stop == Controllers.BeforePMM { return Controllers.Aborted; }
      var cluster := new DesiredCluster();
      var rendered := ApplyPMM(cluster, n, env);
      if !rendered || env.stop == Controllers.BeforePrune { return Controllers.Aborted; }
      var pruned := PruneUnreferencedStorages(n);
      if !pruned || env.stop == Controllers.BeforeSettings { return Controllers.Aborted; }
      result := SyncCluster(cluster, n, env);
    }

    /** The rest of Sync, once the Instance is as it will be compiled. */
    method SyncCluster(cluster: DesiredCluster, n: string, env: Controllers.SyncEnv)
      returns (result: Controllers.SyncResult)
      requires n in instances
      requires cluster.backups == Controllers.NO_BACKUPS && cluster.slots == map[] && cluster.source == None
      modifies this`clusters, cluster
      ensures (State(), result) == Controllers.Finish(old(State()), n, env, old(cluster.pmm))
    {
      var error := ApplyBackupSettings(cluster, n, env);
      if error.Some? && n in clusters {
        cluster.backups := clusters[n].backups;
        cluster.slots := clusters[n].slots;
      }
      var restoring := IsRestoreRunning(n);
      if restoring { return Controllers.Skipped(error); }
      if env.stop == Controllers.BeforeApply { return Controllers.Aborted; }
      var ready := ApplyDataSourceBootstrap(cluster, n);
      if !ready { return Controllers.Aborted; }
      var stanzas, phase := {}, Initializing;
      if n in clusters { stanzas, phase := clusters[n].stanzas, clusters[n].phase; }
      clusters := clusters[n := Cluster(cluster.backups, cluster.slots, cluster.source, cluster.pmm, stanzas, phase)];
      return Controllers.Applied(error);
    }

    // -------------------------------------------------------------- SyncBackup

    method AutoRegisterStorage(n: string, storage: string) returns (registered: bool, refused: bool)
      requires n in instances
      modifies this`instances
      ensures match Controllers.AutoRegister(old(State()), n, storage) {
                case NotRegistered => !registered && !refused && instances == old(instances)
                case LimitReached => !registered && refused && instances == old(instances)
                case Done(instance) => registered && !refused && instances == old(instances)[n := instance]
              }
    {
      if storage !in stores { return false, false; }
      var instance := instances[n];
      if instance.backup.None? { return false, false; }
      var config := instance.backup.value;
      if |config.storages| >= MAX_REPOS { return false, true; }
      config := config.(storages := config.storages + [Storage(storage, [], false)]);
      config := config.(enabled := true);
      instances := instances[n := instance.(backup := Some(config))];
      return true, false;
    }

    method SyncBackup(b: string, n: string) returns (verdict: Controllers.BackupVerdict)
      requires b in backups && n in instances
      modifies this
      ensures (State(), verdict) == Controllers.SyncBackup(old(State()), b, n)
    {
      var backup := backups[b];
      var managedByRuntime := backup.scheduleName == "";
      if b !in opBackups {
        if !managedByRuntime { return Controllers.WaitScheduled; }
        if n !in clusters { return Controllers.ClusterMissing; }
        var cluster := clusters[n];
        var repo: Option<string> := None;
        if instances[n].backup.Some? {
          repo := StorageNameToRepoName(cluster.slots, Listed(instances[n]), backup.storage);
        }
        if repo.None? {
          var registered, refused := AutoRegisterStorage(n, backup.storage);
          if refused { return Controllers.RegisterFailed; }
          if !registered { return Controllers.WaitStorage; }
          return Controllers.Registered;
        }
        if !cluster.backups.enabled || |cluster.backups.repos| == 0 { return Controllers.WaitRepos; }
        var live := FindRepo(cluster, repo.value);
        if !live { return Controllers.WaitRepo; }
        if cluster.phase == Initializing { return Controllers.WaitInit; }
        if repo.value !in cluster.stanzas { return Controllers.WaitStanza; }
        opBackups := opBackups[b := Controllers.NewOpBackup(n, repo.value)];
      }
      if managedByRuntime {
        ghost var found := opBackups[b];
        opBackups := opBackups[b := opBackups[b].(owned := true)];
        assert opBackups == old(opBackups)[b := found.(owned := true)];
      }
      return Controllers.Following(opBackups[b].state);
    }

    // -------------------------------------------------------------- SyncRestore and Mirror

    method SyncRestore(r: string) returns (verdict: Controllers.RestoreVerdict)
      requires r in restores && restores[r].instance in instances
      modifies this`opRestores
      ensures (State(), verdict) == Controllers.SyncRestore(old(State()), r)
    {
      var restore := restores[r];
      var source := ResolveRestoreSource(r, restore);
      if source.Unusable? { return Controllers.Refused(source.state); }
      if source.Crash? { return Controllers.RestoreCrash; }
      if Controllers.IsSeeding(State(), restore.instance, r) {
        var sourceName := DataSourceSourceInstance(restore.source);
        if sourceName != restore.instance {
          if restore.instance !in clusters { return Controllers.Seeding(RestorePending); }
          if clusters[restore.instance].phase == Ready { return Controllers.Seeding(RestoreSucceeded); }
          return Controllers.Seeding(RestoreRunning);
        }
      }
      if r !in opRestores {
        opRestores := opRestores[r := OpRestore(restore.instance, source.repo, source.options)];
      }
      return Controllers.Restoring;
    }

    /** Mirror, and the runtime's creation of the Backup it returns unless one of that name exists. */
    method MirrorBackup(o: string) returns (storage: Option<string>)
      requires o in opBackups
      modifies this`backups
      ensures LooksUp(Controllers.MirrorSlots(old(State()), o), opBackups[o].repo, storage)
      ensures backups == match Controllers.Mirror(old(State()), o, storage) {
                  case None => old(backups)
                  case Some(backup) => if o in old(backups) then old(backups) else old(backups)[o := backup]
                }
    {
      var op := opBackups[o];
      var repo := if op.repo.Some? then op.repo.value else "";
      storage := RepoNameToStorageName(Controllers.MirrorSlots(State(), o), repo);
      if op.deleting || op.owned || op.replicaCreate || op.generateName == "" { return; }
      var scheduleName := ScheduleNames.DeriveScheduleName(o, op.cluster, repo);
      if op.cluster !in instances { return; }
      var instance := instances[op.cluster];
      if instance.deleting || instance.backup.None? || instance.backup.value.className == "" { return; }
      if repo == "" || storage.None? || storage.value == "" { return; }
      if o !in backups {
        backups := backups[o := Backup(Some(op.cluster), storage.value, scheduleName, false, false, true)];
      }
    }
  }

  /** A possible answer of the reverse lookup of an operator backup's repo. */
  ghost predicate LooksUp(slots: SlotMap, repo: Option<string>, storage: Option<string>) {
    var name := if repo.Some? then repo.value else "";
    && (storage.Some? ==> storage.value in slots && RepoName(slots[storage.value]) == name)
    && (storage.None? ==> forall n :: n in slots ==> RepoName(slots[n]) != name)
  }
}
