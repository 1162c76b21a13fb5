/** How each controller call ends and what it writes, in terms of the objects alone: when a Sync
    applies its cluster, what pruning removes, when a storage is registered, what a restore needs,
    which operator backups are mirrored and under what name. */
module Outcomes {
  import opened Wrappers
  import opened Text
  import opened Slots
  import opened Repos
  import opened Model
  import opened Controllers
  import opened Runs
  import ScheduleNames

  // ---------------------------------------------------------------- pruning

  /** A data source whose section for its type is missing. */
  predicate DetailMissing(instance: Instance) {
    && instance.backup.Some? && instance.backup.value.storages != []
    && instance.dataSource in {Some(FromBackup(None)), Some(FromPointInTime(None)), Some(OtherSource)}
  }

  /** The Instance's data source is a Backup that does not exist. */
  predicate SourceMissing(w: World, instance: Instance) {
    instance.dataSource.Some? && instance.dataSource.value.FromBackup? && instance.dataSource.value.backup.Some?
    && instance.dataSource.value.backup.value !in w.backups
  }

  /** Something still needs the storage: a schedule, a Backup of the Instance that is not being deleted,
      or the Instance's data source. */
  ghost predicate Needed(w: World, n: string, s: Storage)
    requires n in w.instances
  {
    || s.schedules != []
    || (exists b :: b in w.backups && w.backups[b].origin == Some(n) && !w.backups[b].deleting
                    && w.backups[b].storage == s.name)
    || (s.name != "" && ReadsStorage(w, w.instances[n].dataSource, s.name))
  }

  predicate ReadsStorage(w: World, source: Option<DataSource>, name: string) {
    match source
    case Some(FromPointInTime(Some(pit))) => pit.storage == name
    case Some(FromBackup(Some(b))) => b in w.backups && w.backups[b].storage == name
    case _ => false
  }

  /** Pruning removes exactly the storages that nothing needs, once the data source can be read; it
      switches backups off exactly when that leaves none, and touches nothing else. */
  lemma PruneIs(w: World, n: string)
    requires n in w.instances && InstanceOk(w.instances[n]) && w.instances[n].backup.Some? && Pruned(w, n).Some?
    ensures var before, after := w.instances[n], Pruned(w, n).value;
            && after.backup.Some? && after.(backup := before.backup) == before
            && var was, now := before.backup.value, after.backup.value;
               && now.(storages := was.storages, enabled := was.enabled) == was
               && (SourceMissing(w, before) ==> now == was)
               && (!SourceMissing(w, before) ==>
                     && (forall s :: s in now.storages <==> s in was.storages && Needed(w, n, s))
                     && (now.enabled <==> was.enabled && (now.storages != [] || was.storages == [])))
  {
    var before := w.instances[n];
    var config := before.backup.value;
    if config.storages != [] && !SourceMissing(w, before) {
      var source := if before.dataSource.None? then Ok("") else DataSourceStorage(w, before.dataSource.value);
      KeptDistinct(config.storages, Referenced(w, n), source.value);
      forall s | s in config.storages ensures Keep(s, Referenced(w, n), source.value) <==> Needed(w, n, s) {
        NeededIff(w, n, s, source.value);
      }
      SameIfKept(config.storages, Referenced(w, n), source.value);
    }
  }

  lemma NeededIff(w: World, n: string, s: Storage, source: string)
    requires n in w.instances
    requires var ds := w.instances[n].dataSource;
             if ds.None? then source == "" else DataSourceStorage(w, ds.value) == Ok(source)
    ensures Keep(s, Referenced(w, n), source) <==> Needed(w, n, s)
  {
    if s.name in Referenced(w, n) {
      var b :| b in w.backups && w.backups[b].origin == Some(n) && !w.backups[b].deleting
               && w.backups[b].storage == s.name;
    }
  }

  /** What pruning leaves is in the order it was in. */
  lemma {:induction false} KeptInOrder(storages: seq<Storage>, referenced: set<string>, source: string,
      i: nat, j: nat, k: nat, l: nat)
    requires DistinctNames(storages) && k < |storages| && l < |storages|
    requires var kept := Kept(storages, referenced, source);
             i < j < |kept| && kept[i] == storages[k] && kept[j] == storages[l]
    ensures k < l
  {
    var last := |storages| - 1;
    var init := storages[..last];
    var kept := Kept(init, referenced, source);
    KeptDistinct(init, referenced, source);
    assert kept[i] in kept;
    var h :| 0 <= h < last && init[h] == kept[i];
    assert storages[h].name == storages[k].name;
    if j < |kept| {
      assert kept[j] in kept;
      var g :| 0 <= g < last && init[g] == kept[j];
      assert storages[g].name == storages[l].name;
      KeptInOrder(init, referenced, source, i, j, k, l);
    }
  }

  lemma PruneKeepsOrder(w: World, n: string, i: nat, j: nat, k: nat, l: nat)
    requires n in w.instances && InstanceOk(w.instances[n]) && Pruned(w, n).Some?
    requires w.instances[n].backup.Some? && Pruned(w, n).value.backup.Some?
    requires var was, now := w.instances[n].backup.value.storages, Pruned(w, n).value.backup.value.storages;
             i < j < |now| && k < |was| && l < |was| && now[i] == was[k] && now[j] == was[l]
    ensures k < l
  {
    var instance := w.instances[n];
    var was := instance.backup.value.storages;
    if Pruned(w, n).value.backup.value.storages == was {
      assert was[i].name == was[k].name && was[j].name == was[l].name;
    } else {
      var source := if instance.dataSource.None? then Ok("") else DataSourceStorage(w, instance.dataSource.value);
      KeptInOrder(was, Referenced(w, n), source.value, i, j, k, l);
    }
  }

  lemma {:induction false} SameIfKept(storages: seq<Storage>, referenced: set<string>, source: string)
    ensures var kept := Kept(storages, referenced, source);
            |kept| <= |storages| && (|kept| == |storages| ==> kept == storages)
  {
    if storages != [] {
      var init := storages[..|storages| - 1];
      SameIfKept(init, referenced, source);
      assert storages == init + [storages[|storages| - 1]];
    }
  }

  // ---------------------------------------------------------------- Sync

  /** A Restore of the Instance has not ended yet. */
  ghost predicate Restoring(w: World, n: string) {
    exists r :: r in w.restores && w.restores[r].instance == n
                && w.restores[r].state in {RestoreUnset, RestorePending, RestoreRunning}
  }

  /** The Instance and storage that hold the data of a data source, and the repo it is on, once there is
      any: a finished backup of a Backup that is not marked failed, or a stream that is archived. */
  ghost predicate Available(w: World, n: string, source: DataSource, from: string, storage: string,
      repo: Option<string>)
  {
    match source
    case FromBackup(Some(b)) =>
      && b != "" && b in w.backups && !w.backups[b].failed && w.backups[b].origin == Some(from)
      && w.backups[b].storage == storage
      && b in w.opBackups && w.opBackups[b].state == Succeeded && w.opBackups[b].repo == repo
    case FromPointInTime(Some(pit)) =>
      && pit.target != Date(None) && pit.source == Some(from) && from != n && pit.storage == storage
      && from in w.clusters && storage in w.clusters[from].slots
      && repo == Some(RepoName(w.clusters[from].slots[storage]))
      && repo.value in RepoNames(w.clusters[from].backups.repos)
    case _ => false
  }

  /** A data source on another Instance's repo can be built. */
  ghost predicate Buildable(w: World, n: string, source: DataSource, from: string, storage: string, repo: string) {
    && Available(w, n, source, from, storage, Some(repo)) && from != "" && from != n && from in w.instances
    && storage in w.stores && w.stores[storage].isS3 && w.stores[storage].s3.Some? && w.stores[storage].credentials
  }

  /** A cluster that does not exist yet may be created: there is no data source, it turns out to be none of
      another Instance, or it can be built. */
  ghost predicate MayCreate(w: World, n: string)
    requires n in w.instances
  {
    var ds := w.instances[n].dataSource;
    || ds.None?
    || (exists from, storage, repo :: Available(w, n, ds.value, from, storage, repo) && (from == "" || from == n))
    || (exists from, storage, repo :: Buildable(w, n, ds.value, from, storage, repo))
  }

  lemma UsableIsAvailable(w: World, n: string) returns (storage: string)
    requires n in w.instances && n !in w.clusters && w.instances[n].dataSource.Some?
    requires ResolveSource(w, n + w.seedSuffix, Restore(n, w.instances[n].dataSource.value, RestoreUnset)).Usable?
    ensures var ds := w.instances[n].dataSource.value;
            && Available(w, n, ds, SourceInstance(w, ds), storage,
                         ResolveSource(w, n + w.seedSuffix, Restore(n, ds, RestoreUnset)).repo)
            && DataSourceStorage(w, ds) == Ok(storage)
  {
    var ds := w.instances[n].dataSource.value;
    storage := DataSourceStorage(w, ds).value;
    if ds.FromPointInTime? {
      var c := w.clusters[SourceInstance(w, ds)];
      RepoNamesAre(c);
    }
  }

  lemma AvailableIsUsable(w: World, n: string, from: string, storage: string, repo: Option<string>)
    requires n in w.instances && w.instances[n].dataSource.Some?
    requires Available(w, n, w.instances[n].dataSource.value, from, storage, repo)
    ensures var ds := w.instances[n].dataSource.value;
            var resolved := ResolveSource(w, n + w.seedSuffix, Restore(n, ds, RestoreUnset));
            && resolved.Usable? && resolved.repo == repo
            && SourceInstance(w, ds) == from && DataSourceStorage(w, ds) == Ok(storage)
  {
    if w.instances[n].dataSource.value.FromPointInTime? { RepoNamesAre(w.clusters[from]); }
  }

  lemma RepoNamesAre(c: Cluster)
    ensures forall repo :: HasRepo(c, repo) <==> repo in RepoNames(c.backups.repos)
  {
  }

  lemma BootstrapIff(w: World, n: string)
    requires n in w.instances && n !in w.clusters
    ensures BuildBootstrap(w, n).FromScratch? || BuildBootstrap(w, n).From? <==> MayCreate(w, n)
  {
    if w.instances[n].dataSource.Some? {
      var ds := w.instances[n].dataSource.value;
      var resolved := ResolveSource(w, n + w.seedSuffix, Restore(n, ds, RestoreUnset));
      if resolved.Usable? {
        var storage := UsableIsAvailable(w, n);
        if BuildBootstrap(w, n).From? {
          assert Buildable(w, n, ds, SourceInstance(w, ds), storage, resolved.repo.value);
        }
        forall from, s, repo | Available(w, n, ds, from, s, repo)
          ensures from == SourceInstance(w, ds) && s == storage && repo == resolved.repo
        {
          AvailableIsUsable(w, n, from, s, repo);
        }
      } else {
        forall from, s, repo ensures !Available(w, n, ds, from, s, repo) {
          if Available(w, n, ds, from, s, repo) { AvailableIsUsable(w, n, from, s, repo); }
        }
      }
    }
  }

  /** Nothing stops the Sync before it looks at the cluster. */
  ghost predicate GetsThrough(w: World, n: string, env: SyncEnv)
    requires n in w.instances
  {
    && env.stop in {Never, BeforeApply} && !DetailMissing(w.instances[n])
    && !(env.need == Required && FirstApplicable(env.bindings) == Some(RenderError))
  }

  lemma GetsThroughIff(w: World, n: string, env: SyncEnv)
    requires n in w.instances
    ensures GetsThrough(w, n, env) <==> Reaches(w, n, env)
  {
    PrunedIgnoresSecrets(w, n, PMMOf(w, n, env).secret);
  }

  /** The world in which a Sync decides has the objects it started with, the Instance pruned. */
  lemma SameQuestions(w: World, w2: World, n: string)
    requires n in w.instances && PrunedOnly(w, w2, n)
    ensures n in w2.instances && (Restoring(w2, n) <==> Restoring(w, n)) && (MayCreate(w2, n) <==> MayCreate(w, n))
  {
    assert w2.instances.Keys == w.instances.Keys;
    var ds := w.instances[n].dataSource;
    assert w2.instances[n].dataSource == ds;
    if ds.Some? {
      forall from, storage, repo
        ensures Available(w2, n, ds.value, from, storage, repo) <==> Available(w, n, ds.value, from, storage, repo)
      {
      }
      forall from, storage, repo
        ensures Buildable(w2, n, ds.value, from, storage, repo) <==> Buildable(w, n, ds.value, from, storage, repo)
      {
      }
    }
  }

  lemma FinishOutcome(w: World, n: string, env: SyncEnv, pmm: bool)
    requires n in w.instances
    ensures var (w', r) := Finish(w, n, env, pmm);
            && (r.Skipped? <==> Restoring(w, n))
            && (r.Applied? <==> !Restoring(w, n) && env.stop != BeforeApply && (n in w.clusters || MayCreate(w, n)))
            && (!r.Applied? ==> w'.clusters == w.clusters)
  {
    assert RestoreInProgress(w, n) <==> Restoring(w, n);
    if n !in w.clusters { BootstrapIff(w, n); }
    ConcludeOutcome(w, n, DesiredSettings(w, n, env), pmm, RestoreInProgress(w, n), env.stop == BeforeApply,
        BuildBootstrap(w, n));
  }

  lemma ConcludeOutcome(w: World, n: string, d: Settings, pmm: bool, restoring: bool, fails: bool, bootstrap: Bootstrap)
    ensures var (w', r) := Conclude(w, n, d, pmm, restoring, fails, bootstrap);
            && (r.Skipped? <==> restoring)
            && (r.Applied? <==>
                  !restoring && !fails && (n in w.clusters || bootstrap.FromScratch? || bootstrap.From?))
            && (!r.Applied? ==> w'.clusters == w.clusters)
  {
  }

  /** Exactly when a Sync writes its cluster: nothing stopped it before, no Restore of the Instance is
      running, and the cluster exists or may be created. While a Restore runs the write is skipped, for an
      existing cluster as well; and a Sync that does not apply leaves every cluster as it is. */
  lemma SyncOutcome(w: World, n: string, env: SyncEnv)
    requires n in w.instances
    ensures var (w', r) := Sync(w, n, env);
            && (r.Skipped? <==> GetsThrough(w, n, env) && Restoring(w, n))
            && (r.Applied? <==> GetsThrough(w, n, env) && !Restoring(w, n) && env.stop != BeforeApply
                                && (n in w.clusters || MayCreate(w, n)))
            && (!r.Applied? ==> w'.clusters == w.clusters)
  {
    GetsThroughIff(w, n, env);
    SyncSplits(w, n, env);
    if Reaches(w, n, env) {
      SettledOutcome(w, n, env);
    } else {
      EarlyKeepsClusters(w, n, env);
    }
  }

  lemma SettledOutcome(w: World, n: string, env: SyncEnv)
    requires n in w.instances && Reaches(w, n, env)
    ensures var (w', r) := Finish(Settled(w, n, env), n, env, PMMOf(w, n, env).pmm);
            && (r.Skipped? <==> Restoring(w, n))
            && (r.Applied? <==> !Restoring(w, n) && env.stop != BeforeApply && (n in w.clusters || MayCreate(w, n)))
            && (!r.Applied? ==> w'.clusters == w.clusters)
  {
    SettledPrunes(w, n, env);
    SameQuestions(w, Settled(w, n, env), n);
    FinishOutcome(Settled(w, n, env), n, env, PMMOf(w, n, env).pmm);
  }

  /** In particular nothing is written to any cluster while a Restore of the Instance runs. */
  lemma NoWriteWhileRestoring(w: World, n: string, env: SyncEnv, r: string)
    requires n in w.instances && r in w.restores && w.restores[r].instance == n
    requires w.restores[r].state in {RestoreUnset, RestorePending, RestoreRunning}
    ensures Sync(w, n, env).0.clusters == w.clusters && !Sync(w, n, env).1.Applied?
  {
    assert Restoring(w, n);
    SyncOutcome(w, n, env);
  }

  // ---------------------------------------------------------------- what a Sync configures

  function LiveSlots(w: World, n: string): SlotMap { if n in w.clusters then w.clusters[n].slots else map[] }

  /** The slots of a list of storages, given those the live cluster holds. */
  function SlotsFor(w: World, n: string, storages: seq<Storage>): SlotMap {
    Reconcile(LiveSlots(w, n), NamesOf(storages))
  }

  /** The pruned Instance has nothing wrong with its backup section. */
  ghost predicate InOrder(w: World, n: string, env: SyncEnv, config: BackupConfig) {
    && !env.rejected && !env.noImage && config.storages != []
    && forall s :: s in config.storages ==> FitsIn(s, SlotsFor(w, n, config.storages), w.stores)
  }

  lemma SettingsReport(w: World, n: string, env: SyncEnv)
    requires n in w.instances && BacksUp(w, n)
    ensures var config, d := w.instances[n].backup.value, DesiredSettings(w, n, env);
            && (d.error == None <==> InOrder(w, n, env, config))
            && (d.error == Some(ClassRejected) <==> env.rejected)
            && (d.error == Some(ImageUnavailable) <==> !env.rejected && env.noImage)
            && (d.error == Some(NoStoragesConfigured) <==> !env.rejected && !env.noImage && config.storages == [])
  {
    var config := w.instances[n].backup.value;
    var slots, uid := SlotsFor(w, n, config.storages), w.instances[n].uid;
    CompilesIff(config.storages, slots, w.stores, uid);
    if Compile(config.storages, slots, w.stores, uid).Err? {
      StorageReasons(config.storages, slots, w.stores);
    }
  }

  lemma {:induction false} StorageReasons(storages: seq<Storage>, slots: SlotMap, stores: map<string, BackupStorage>)
    ensures FirstProblem(storages, slots, stores) !in
            {Some(ClassRejected), Some(ImageUnavailable), Some(NoStoragesConfigured)}
  {
    if storages != [] { StorageReasons(storages[..|storages| - 1], slots, stores); }
  }

  lemma SettingsReportFirst(w: World, n: string, env: SyncEnv, i: nat, reason: Reason)
    requires n in w.instances && BacksUp(w, n) && !env.rejected && !env.noImage
    requires var storages := w.instances[n].backup.value.storages;
             FirstFails(storages, SlotsFor(w, n, storages), w.stores, i, reason)
    ensures DesiredSettings(w, n, env).error == Some(reason)
  {
    var storages := w.instances[n].backup.value.storages;
    CompileReports(storages, SlotsFor(w, n, storages), w.stores, w.instances[n].uid, i, reason);
  }

  /** A Sync that gets as far as the cluster has just these settings to report and to write. */
  lemma SyncReports(w: World, n: string, env: SyncEnv)
    requires n in w.instances && !Sync(w, n, env).1.Aborted?
    ensures var (w', r) := Sync(w, n, env); var w2 := w'.(clusters := w.clusters);
            && n in w'.instances && w2.stores == w.stores
            && r.error == DesiredSettings(w2, n, env).error
            && (r.Applied? ==>
                  && n in w'.clusters && w'.clusters[n].backups == DesiredSettings(w2, n, env).backups
                  && w'.clusters[n].slots == DesiredSettings(w2, n, env).slots)
  {
    SyncSplits(w, n, env);
    SettledPrunes(w, n, env);
    FinishReports(Settled(w, n, env), n, env, PMMOf(w, n, env).pmm);
  }

  lemma FinishReports(w: World, n: string, env: SyncEnv, pmm: bool)
    requires n in w.instances && !Finish(w, n, env, pmm).1.Aborted?
    ensures var (w', r) := Finish(w, n, env, pmm);
            && w'.(clusters := w.clusters) == w
            && r.error == DesiredSettings(w, n, env).error
            && (r.Applied? ==>
                  && n in w'.clusters && w'.clusters[n].backups == DesiredSettings(w, n, env).backups
                  && w'.clusters[n].slots == DesiredSettings(w, n, env).slots)
  {
    ConcludeReports(w, n, DesiredSettings(w, n, env), pmm, RestoreInProgress(w, n), env.stop == BeforeApply,
        BuildBootstrap(w, n));
  }

  lemma ConcludeReports(w: World, n: string, d: Settings, pmm: bool, restoring: bool, fails: bool, bootstrap: Bootstrap)
    ensures var (w', r) := Conclude(w, n, d, pmm, restoring, fails, bootstrap);
            && w'.(clusters := w.clusters) == w
            && (!r.Aborted? ==> r.error == d.error)
            && (r.Applied? ==>
                  n in w'.clusters && w'.clusters[n].backups == d.backups && w'.clusters[n].slots == d.slots)
  {
  }

  /** What a Sync reports: no error exactly if backups are off on the pruned Instance or its section is in
      order; otherwise the first thing that is wrong, the class before the image, the image before the
      list, and in the list the first storage that does not fit in. */
  lemma SyncError(w: World, n: string, env: SyncEnv)
    requires n in w.instances && !Sync(w, n, env).1.Aborted?
    ensures var (w', r) := Sync(w, n, env);
            && n in w'.instances
            && (!BacksUp(w', n) ==> r.error == None)
            && (BacksUp(w', n) ==>
                  var config := w'.instances[n].backup.value;
                  && (r.error == None <==> InOrder(w, n, env, config))
                  && (r.error == Some(ClassRejected) <==> env.rejected)
                  && (r.error == Some(ImageUnavailable) <==> !env.rejected && env.noImage)
                  && (r.error == Some(NoStoragesConfigured) <==>
                        !env.rejected && !env.noImage && config.storages == []))
  {
    SyncReports(w, n, env);
    var w2 := Sync(w, n, env).0.(clusters := w.clusters);
    if BacksUp(w2, n) { SettingsReport(w2, n, env); }
  }

  lemma SyncReportsFirst(w: World, n: string, env: SyncEnv, i: nat, reason: Reason)
    requires n in w.instances && !Sync(w, n, env).1.Aborted? && !env.rejected && !env.noImage
    requires BacksUp(Sync(w, n, env).0, n)
    requires var storages := Sync(w, n, env).0.instances[n].backup.value.storages;
             FirstFails(storages, SlotsFor(w, n, storages), w.stores, i, reason)
    ensures Sync(w, n, env).1.error == Some(reason)
  {
    SyncReports(w, n, env);
    SettingsReportFirst(Sync(w, n, env).0.(clusters := w.clusters), n, env, i, reason);
  }

  /** What a successful Sync with backups enabled writes: the list of the pruned Instance compiled for its
      reconciled slots, all of it and nothing else. */
  lemma SyncCompiles(w: World, n: string, env: SyncEnv)
    requires n in w.instances && Sync(w, n, env).1 == Applied(None) && BacksUp(Sync(w, n, env).0, n)
    ensures var w' := Sync(w, n, env).0;
            var storages := w'.instances[n].backup.value.storages;
            var compiled := Compile(storages, SlotsFor(w, n, storages), w.stores, w'.instances[n].uid);
            && n in w'.clusters && compiled.Ok?
            && w'.clusters[n].backups == Backups(true, compiled.value.repos, compiled.value.global)
            && w'.clusters[n].slots == SlotsFor(w, n, storages)
  {
    SyncReports(w, n, env);
  }

  /** A cluster created in spite of a configuration error has backups without repos or slots, and has them
      enabled, as the operator sees it, once class and image were found. */
  lemma SyncCreatesWithError(w: World, n: string, env: SyncEnv, reason: Reason)
    requires n in w.instances && n !in w.clusters && Sync(w, n, env).1 == Applied(Some(reason))
    ensures var w' := Sync(w, n, env).0;
            && n in w'.clusters && w'.clusters[n].slots == map[]
            && w'.clusters[n].backups == Backups(reason !in {ClassRejected, ImageUnavailable}, [], map[])
  {
    SyncReports(w, n, env);
    SyncError(w, n, env);
  }

  // ---------------------------------------------------------------- SyncBackup

  /** An on-demand Backup whose operator backup does not exist, on an Instance with a cluster. */
  ghost predicate Asks(w: World, b: string) {
    && Possible(w, RunSyncBackup(b)) && b !in w.opBackups && w.backups[b].scheduleName == ""
    && w.backups[b].origin.value in w.clusters
  }

  /** The repo its storage has on that cluster, given the Instance's list as it is. */
  ghost predicate ResolvesTo(w: World, b: string, repo: string)
    requires Asks(w, b)
  {
    var n, s := w.backups[b].origin.value, w.backups[b].storage;
    w.instances[n].backup.Some? &&
    var slots := Reconcile(w.clusters[n].slots, Listed(w.instances[n]));
    s in slots && repo == RepoName(slots[s])
  }

  ghost predicate Unresolved(w: World, b: string)
    requires Asks(w, b)
  {
    forall repo :: !ResolvesTo(w, b, repo)
  }

  /** It has no repo yet, but its BackupStorage exists and there is a place for it in the list. */
  ghost predicate Registers(w: World, b: string) {
    && Asks(w, b) && Unresolved(w, b) && w.backups[b].storage in w.stores
    && w.instances[w.backups[b].origin.value].backup.Some?
    && |w.instances[w.backups[b].origin.value].backup.value.storages| < 4
  }

  /** SyncBackup changes an Instance exactly when it registers a storage; the Instance then lists it last,
      without schedules, and has backups enabled. An unknown storage is never registered. */
  lemma SyncBackupInstances(w: World, b: string)
    requires Possible(w, RunSyncBackup(b))
    ensures var n, w' := w.backups[b].origin.value, Step(w, RunSyncBackup(b));
            if !Registers(w, b) then w'.instances == w.instances
            else
              var config := w.instances[n].backup.value;
              && w'.opBackups == w.opBackups
              && w'.instances == w.instances[n := w.instances[n].(backup := Some(
                   BackupConfig(true, config.storages + [Storage(w.backups[b].storage, [], false)], config.className)))]
  {
    if Asks(w, b) { ResolvesIff(w, b); }
  }

  lemma ResolvesIff(w: World, b: string)
    requires Asks(w, b)
    ensures var n := w.backups[b].origin.value;
            var repo := RepoOnInstance(w.instances[n], w.clusters[n].slots, w.backups[b].storage);
            && (repo.None? <==> Unresolved(w, b))
            && (repo.Some? ==> ResolvesTo(w, b, repo.value))
  {
    var n := w.backups[b].origin.value;
    var repo := RepoOnInstance(w.instances[n], w.clusters[n].slots, w.backups[b].storage);
    if repo.Some? { assert ResolvesTo(w, b, repo.value); }
  }

  /** The operator backup it starts: on the resolved repo of the origin's cluster, owned by the Backup, and
      with none of the marks of a scheduled one. */
  lemma SyncBackupStarts(w: World, b: string, repo: string)
    requires Asks(w, b) && ResolvesTo(w, b, repo) && b in Step(w, RunSyncBackup(b)).opBackups
    ensures Step(w, RunSyncBackup(b)) ==
            w.(opBackups := w.opBackups[b := OpBackup(w.backups[b].origin.value, Some(repo), "", false, true, false,
                                                      NoState, "", None, None)])
  {
    ResolvesIff(w, b);
  }

  /** What it answers for a Backup whose operator backup exists, and for one it leaves to the operator. */
  lemma SyncBackupFollows(w: World, b: string)
    requires Possible(w, RunSyncBackup(b))
    ensures var (w', v) := SyncBackup(w, b, w.backups[b].origin.value);
            && (b in w.opBackups ==>
                  && v == Following(w.opBackups[b].state)
                  && w' == if w.backups[b].scheduleName != "" then w
                           else w.(opBackups := w.opBackups[b := w.opBackups[b].(owned := true)]))
            && (b !in w.opBackups && w.backups[b].scheduleName != "" ==> v == WaitScheduled && w' == w)
            && (b !in w.opBackups && w.backups[b].scheduleName == "" && w.backups[b].origin.value !in w.clusters ==>
                  v == ClusterMissing && w' == w)
  {
  }

  /** What it answers without a repo. */
  lemma SyncBackupUnresolved(w: World, b: string)
    requires Asks(w, b) && Unresolved(w, b)
    ensures var n := w.backups[b].origin.value;
            var known := w.backups[b].storage in w.stores && w.instances[n].backup.Some?;
            var v := SyncBackup(w, b, n).1;
            && (v == WaitStorage <==> !known)
            && (v == RegisterFailed <==> known && |w.instances[n].backup.value.storages| >= 4)
            && (v == Registered <==> known && |w.instances[n].backup.value.storages| < 4)
  {
    ResolvesIff(w, b);
  }

  /** And with one: it waits for the repos, for this repo, for the cluster and for the stanza, and reports
      the first of these that is not there. */
  lemma SyncBackupResolved(w: World, b: string, repo: string)
    requires Asks(w, b) && ResolvesTo(w, b, repo)
    ensures var c, v := w.clusters[w.backups[b].origin.value], SyncBackup(w, b, w.backups[b].origin.value).1;
            var repos := c.backups.enabled && c.backups.repos != [];
            var live := repos && repo in RepoNames(c.backups.repos);
            var initialised := live && c.phase != Initializing;
            && (v == WaitRepos <==> !repos)
            && (v == WaitRepo <==> repos && !live)
            && (v == WaitInit <==> live && !initialised)
            && (v == WaitStanza <==> initialised && repo !in c.stanzas)
            && (v == Following(NoState) <==> initialised && repo in c.stanzas)
  {
    ResolvesIff(w, b);
    RepoNamesAre(w.clusters[w.backups[b].origin.value]);
  }

  // ---------------------------------------------------------------- SyncRestore

  /** The Restore that the runtime makes to seed its Instance. */
  ghost predicate Seeds(w: World, r: string) {
    && Possible(w, RunSyncRestore(r)) && w.instances[w.restores[r].instance].dataSource.Some?
    && r == w.restores[r].instance + w.seedSuffix
  }

  /** The backup a Restore names, as far as it gets: it exists and is not marked failed. */
  ghost predicate Names(w: World, r: string, b: string) {
    Possible(w, RunSyncRestore(r)) && w.restores[r].source == FromBackup(Some(b)) && b != "" && b in w.backups
    && !w.backups[b].failed
  }

  ghost predicate Finished(w: World, r: string, b: string) {
    Names(w, r, b) && b in w.opBackups && w.opBackups[b].state == Succeeded
  }

  /** How a Restore from a Backup is answered before anything is created. */
  lemma RestoreFromBackup(w: World, r: string, b: string)
    requires Possible(w, RunSyncRestore(r)) && w.restores[r].source == FromBackup(Some(b))
    ensures var v, home := SyncRestore(w, r).1, w.restores[r].instance;
            var abroad := Finished(w, r, b) && w.backups[b].origin.Some? && w.backups[b].origin != Some(home);
            && (v == RestoreCrash <==> Finished(w, r, b) && w.backups[b].origin.None?)
            && (v == Refused(RestoreFailed) <==>
                  || b == "" || (b in w.backups && w.backups[b].failed)
                  || (Names(w, r, b) && b in w.opBackups && w.opBackups[b].state == Failed)
                  || (abroad && !Seeds(w, r)))
            && (v == Refused(RestorePending) <==>
                  || (b != "" && b !in w.backups)
                  || (Names(w, r, b) && (b !in w.opBackups || w.opBackups[b].state !in {Failed, Succeeded})))
            && (v.Seeding? <==> abroad && Seeds(w, r))
            && (v.Restoring? <==> Finished(w, r, b) && w.backups[b].origin == Some(home))
  {
  }

  /** A stream of another Instance. */
  predicate OfOther(pit: PointInTime, home: string) { pit.source.Some? && pit.source.value != home }

  /** The repo of the stream: by the other cluster's own annotation, or resolved on the Instance itself. */
  ghost predicate StreamOn(w: World, r: string, pit: PointInTime, repo: string) {
    && Possible(w, RunSyncRestore(r))
    && var home := w.restores[r].instance;
       if OfOther(pit, home) then
         && pit.source.value in w.clusters && pit.storage in w.clusters[pit.source.value].slots
         && repo == RepoName(w.clusters[pit.source.value].slots[pit.storage])
         && repo in RepoNames(w.clusters[pit.source.value].backups.repos)
       else
         && home in w.clusters && w.instances[home].backup.Some?
         && var slots := Reconcile(w.clusters[home].slots, Listed(w.instances[home]));
            && pit.storage in slots && repo == RepoName(slots[pit.storage])
            && repo in RepoNames(w.clusters[home].backups.repos)
  }

  /** How a Restore from a stream is answered. */
  lemma RestoreFromStream(w: World, r: string, pit: PointInTime)
    requires Possible(w, RunSyncRestore(r)) && w.restores[r].source == FromPointInTime(Some(pit))
    ensures var v, home := SyncRestore(w, r).1, w.restores[r].instance;
            var refused := pit.target == Date(None) || (OfOther(pit, home) && !Seeds(w, r));
            var found := exists repo :: StreamOn(w, r, pit, repo);
            var seeds := Seeds(w, r) && (if pit.source.Some? then pit.source.value else "") != home;
            && (v == Refused(RestoreFailed) <==> refused)
            && (v == Refused(RestorePending) <==> !refused && !found)
            && (v.Seeding? <==> !refused && found && seeds)
            && (v.Restoring? <==> !refused && found && !seeds)
  {
    if pit.target != Date(None) && (OfOther(pit, w.restores[r].instance) ==> Seeds(w, r)) {
      StreamResolves(w, r, pit);
    }
  }

  lemma StreamResolves(w: World, r: string, pit: PointInTime)
    requires Possible(w, RunSyncRestore(r)) && w.restores[r].source == FromPointInTime(Some(pit))
    requires pit.target != Date(None) && (OfOther(pit, w.restores[r].instance) ==> Seeds(w, r))
    ensures var source := ResolveSource(w, r, w.restores[r]);
            && (source.Usable? <==> exists repo :: StreamOn(w, r, pit, repo))
            && !source.Crash? && (source.Unusable? ==> source.state == RestorePending)
  {
    var cluster := if OfOther(pit, w.restores[r].instance) then pit.source.value else w.restores[r].instance;
    if cluster in w.clusters {
      RepoNamesAre(w.clusters[cluster]);
      var repo := StreamRepo(w, pit, w.restores[r]);
      if repo.Some? && HasRepo(w.clusters[cluster], repo.value) { assert StreamOn(w, r, pit, repo.value); }
    }
  }

  /** A Restore without the section for its type, or of an unknown type, has failed. */
  lemma RestoreFromNothing(w: World, r: string)
    requires Possible(w, RunSyncRestore(r))
    requires w.restores[r].source in {FromBackup(None), FromPointInTime(None), OtherSource}
    ensures SyncRestore(w, r) == (w, Refused(RestoreFailed))
  {
  }

  /** What a seeding Restore reports stands in for the operator restore there is not: pending without a
      cluster, done once the cluster is ready, running in between. */
  lemma SeedingReports(w: World, r: string)
    requires Possible(w, RunSyncRestore(r)) && SyncRestore(w, r).1.Seeding?
    ensures var home := w.restores[r].instance;
            && Step(w, RunSyncRestore(r)) == w
            && SyncRestore(w, r).1.state ==
               if home !in w.clusters then RestorePending
               else if w.clusters[home].phase == Ready then RestoreSucceeded
               else RestoreRunning
  {
  }

  /** An operator restore is created exactly when the Restore goes through and there is none of its name. */
  lemma RestoreCreatesIff(w: World, r: string)
    requires Possible(w, RunSyncRestore(r))
    ensures Step(w, RunSyncRestore(r)).opRestores.Keys ==
            w.opRestores.Keys + (if SyncRestore(w, r).1.Restoring? then {r} else {})
    ensures !SyncRestore(w, r).1.Restoring? || r in w.opRestores ==> Step(w, RunSyncRestore(r)) == w
  {
    assert r in w.opRestores ==> w.opRestores.Keys + {r} == w.opRestores.Keys;
  }

  // ---------------------------------------------------------------- Mirror

  /** Which operator backups become Backups: scheduled ones of a living Instance with a backup class that
      nobody owns and that are not being deleted, whose repo and storage are known. */
  lemma MirrorIff(w: World, o: string, found: Option<string>)
    requires o in w.opBackups
    ensures var op := w.opBackups[o];
            Mirror(w, o, found).Some? <==>
              && !op.deleting && !op.owned && !op.replicaCreate && op.generateName != ""
              && op.cluster in w.instances && !w.instances[op.cluster].deleting
              && w.instances[op.cluster].backup.Some? && w.instances[op.cluster].backup.value.className != ""
              && op.repo.Some? && op.repo.value != "" && found.Some? && found.value != ""
  {
  }

  /** The storage that the reverse lookup finds is the one whose slot in the live cluster's annotation is the
      repo of the operator backup, and it finds none only if there is none. */
  lemma MirrorFinds(w: World, o: string, found: Option<string>, s: string)
    requires SlotsOk(w) && Possible(w, RunMirror(o, found))
    ensures var op := w.opBackups[o];
            found == Some(s) <==>
              && op.cluster in w.clusters && s in w.clusters[op.cluster].slots
              && op.repo == Some(RepoName(w.clusters[op.cluster].slots[s]))
  {
    var op := w.opBackups[o];
    if op.cluster in w.clusters {
      var slots := w.clusters[op.cluster].slots;
      assert ClusterOk(w.clusters[op.cluster]);
      if found.Some? && s in slots && op.repo == Some(RepoName(slots[s])) {
        RepoNameInjective(slots[s], slots[found.value]);
      }
    }
  }

  /** And what they become: a Backup of that Instance on that storage, whose schedule is the type in the
      operator's name for it. */
  lemma MirrorNamesType(w: World, o: string, found: Option<string>, kind: string, suffix: string)
    requires o in w.opBackups && Mirror(w, o, found).Some? && w.opBackups[o].repo.Some?
    requires kind != "" && Free(kind, '-')
    requires o == w.opBackups[o].cluster + "-" + w.opBackups[o].repo.value + "-" + kind + "-" + suffix
    ensures Mirror(w, o, found) == Some(Backup(Some(w.opBackups[o].cluster), found.value, kind, false, false, true))
  {
    ScheduleNames.RecoversType(w.opBackups[o].cluster, w.opBackups[o].repo.value, kind, suffix);
  }

  /** A name that does not follow the operator's convention is the schedule itself. */
  lemma MirrorNamesOther(w: World, o: string, found: Option<string>)
    requires o in w.opBackups && o != "" && Mirror(w, o, found).Some? && w.opBackups[o].repo.Some?
    requires !HasPrefix(o, w.opBackups[o].cluster + "-" + w.opBackups[o].repo.value + "-")
    ensures Mirror(w, o, found) == Some(Backup(Some(w.opBackups[o].cluster), found.value, o, false, false, true))
  {
    ScheduleNames.DerivedName(o, w.opBackups[o].cluster, w.opBackups[o].repo.value);
  }
}
