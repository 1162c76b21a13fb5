/** Where the data of a backup is, and what a later restore or clone of it reads: when that is the
    place it was written to, and when it is not. */
module Provenance {
  import opened Wrappers
  import opened Text
  import opened Slots
  import opened Repos
  import opened Model
  import opened Controllers
  import opened Runs
  import opened Isolation
  import opened Placement
  import opened Seeding

  // ---------------------------------------------------------------- live repos

  /** Cluster `n` exists and reaches its repo of that name in this way. */
  ghost predicate LiveOn(v: World, n: string, repo: string, at: Connection) {
    n in v.clusters && LivesAt(v.clusters[n].backups, repo, at)
  }

  /** The storage that holds this repo on cluster `n` prescribes this place, as the storages are in
      `stores`. */
  ghost predicate HeldAt(v: World, n: string, stores: map<string, BackupStorage>, repo: string, at: Connection) {
    && n in v.clusters && n in v.instances
    && exists t :: t in v.clusters[n].slots && RepoName(v.clusters[n].slots[t]) == repo && IsUsable(stores, t)
                   && Prescribed(stores[t].s3.value, v.instances[n].uid, repo) == at
  }

  /** A live repo is at one place: where the storage that holds it prescribed when the cluster was
      configured. */
  lemma LiveWhereHeld(v: World, n: string, stores: map<string, BackupStorage>, repo: string, at: Connection)
    requires SlotsOk(v) && (n in v.clusters ==> PlacedOn(v, n, stores))
    ensures LiveOn(v, n, repo, at) <==> HeldAt(v, n, stores, repo, at)
  {
    if n in v.clusters {
      var c := v.clusters[n];
      assert ClusterOk(c);
      if LivesAt(c.backups, repo, at) {
        assert repo in RepoNames(c.backups.repos);
        var t :| t in c.slots && RepoName(c.slots[t]) == repo;
        OnePlace(c.backups, repo, at, Prescribed(stores[t].s3.value, v.instances[n].uid, repo));
      }
    }
  }

  // ---------------------------------------------------------------- the repo a backup lands on

  /** Whose repo an on-demand backup lands on: the resolved repo always has an owner on the live
      cluster, and it is the backup's own storage exactly when that storage is in the persisted slot
      map already. */
  lemma RepoIsOwnIff(instance: Instance, cluster: Cluster, storage: string, repo: string)
    requires ClusterOk(cluster) && RepoOnInstance(instance, cluster.slots, storage) == Some(repo)
               && HasRepo(cluster, repo)
    ensures StorageOf(cluster.slots, repo).Some?
    ensures StorageOf(cluster.slots, repo) == Some(storage) <==> storage in cluster.slots
  {
    assert repo in RepoNames(cluster.backups.repos);
    var owner :| owner in cluster.slots && RepoName(cluster.slots[owner]) == repo;
    ReverseLookup(cluster.slots, owner);
    ReconcileKeeps(cluster.slots, Listed(instance));
    if storage in cluster.slots {
      ReverseLookup(cluster.slots, storage);
    }
  }

  lemma StartedOn(w: World, b: string)
    requires Possible(w, RunSyncBackup(b)) && b !in w.opBackups && b in Step(w, RunSyncBackup(b)).opBackups
    ensures var n := w.backups[b].origin.value;
            && n in w.clusters
            && var repo := RepoOnInstance(w.instances[n], w.clusters[n].slots, w.backups[b].storage);
               repo.Some? && HasRepo(w.clusters[n], repo.value)
                   && Step(w, RunSyncBackup(b)).opBackups[b] == NewOpBackup(n, repo.value)
  {
  }

  lemma StartedSlot(instance: Instance, cluster: Cluster, s: string)
    requires ClusterOk(cluster) && s in cluster.slots && RepoOnInstance(instance, cluster.slots, s).Some?
    ensures RepoOnInstance(instance, cluster.slots, s) == Some(RepoName(cluster.slots[s]))
  {
    ReconcileKeeps(cluster.slots, Listed(instance));
  }

  // ---------------------------------------------------------------- what becomes of a backup

  ghost predicate Whole(w: World, b: string) { b in w.backups && b in w.opBackups }

  predicate EditsSource(a: Action, b: string) { a.ByUser? && (EditsOrigin(a.user, b) || EditsStorage(a.user, b)) }

  lemma StepKeepsBackup(w: World, a: Action, b: string)
    requires Whole(w, b) && Whole(Step(w, a), b)
    ensures SameOpBackup(w, Step(w, a), b)
    ensures !EditsSource(a, b) ==> SameSource(w, Step(w, a), b)
  {
    if Possible(w, a) {
      match a {
        case ByUser(u) =>
          UserLeaves(w, u);
          UserBackups(w, u);
        case ByOperator(o) =>
          OperatorLeaves(w, o);
          OperatorBackups(w, o);
        case RunSync(n, env) => SyncChanges(w, n, env);
        case RunSyncBackup(c) =>
          SyncBackupChanges(w, c, w.backups[c].origin.value);
          assert Get(Step(w, a).opBackups, b) == Get(w.opBackups, b) || b == c;
        case RunSyncRestore(r) => SyncRestoreLeaves(w, r);
        case RunMirror(_, _) =>
      }
    }
  }

  ghost predicate SameOpBackup(w: World, w': World, b: string)
    requires Whole(w, b) && Whole(w', b)
  {
    w'.opBackups[b].repo == w.opBackups[b].repo && w'.opBackups[b].cluster == w.opBackups[b].cluster
  }

  ghost predicate SameSource(w: World, w': World, b: string)
    requires Whole(w, b) && Whole(w', b)
  {
    w'.backups[b].storage == w.backups[b].storage && w'.backups[b].origin == w.backups[b].origin
  }

  /** A run throughout which the Backup and its operator backup exist. */
  ghost predicate Lasts(w: World, run: seq<Action>, b: string) {
    forall k :: 0 <= k <= |run| ==> Whole(Exec(w, run[..k]), b)
  }

  /** A run in which nobody edits the Backup's origin or storage. */
  ghost predicate Unedited(run: seq<Action>, b: string) {
    forall k :: 0 <= k < |run| ==> !EditsSource(run[k], b)
  }

  lemma {:induction false} RunKeepsBackup(w: World, run: seq<Action>, b: string)
    requires Lasts(w, run, b)
    ensures Whole(w, b) && Whole(Exec(w, run), b) && SameOpBackup(w, Exec(w, run), b)
    ensures Unedited(run, b) ==> SameSource(w, Exec(w, run), b)
  {
    assert run[..0] == [] && run[..|run|] == run;
    assert Whole(Exec(w, run[..0]), b);
    if run != [] {
      var init := run[..|run| - 1];
      forall k | 0 <= k <= |init| ensures Whole(Exec(w, init[..k]), b) {
        assert init[..k] == run[..k];
      }
      RunKeepsBackup(w, init, b);
      StepKeepsBackup(Exec(w, init), run[|run| - 1], b);
    }
  }

  /** An operator backup on the repo that its own storage holds on the live cluster of its origin. */
  ghost predicate OnOwnRepo(w: World, b: string) {
    && Whole(w, b) && w.backups[b].origin.Some? && w.backups[b].origin.value in w.clusters
    && var n, s := w.backups[b].origin.value, w.backups[b].storage;
       s in w.clusters[n].slots && w.opBackups[b].cluster == n
           && w.opBackups[b].repo == Some(RepoName(w.clusters[n].slots[s]))
  }

  /** A backup that SyncBackup starts while its storage is in the persisted slot map is such a one. */
  lemma StartsOnOwnRepo(w: World, b: string)
    requires SlotsOk(w) && Possible(w, RunSyncBackup(b)) && b !in w.opBackups
               && b in Step(w, RunSyncBackup(b)).opBackups
    requires HoldsSlot(w, w.backups[b].origin.value, w.backups[b].storage)
    ensures OnOwnRepo(Step(w, RunSyncBackup(b)), b)
  {
    var n := w.backups[b].origin.value;
    StartedOn(w, b);
    StartedSlot(w.instances[n], w.clusters[n], w.backups[b].storage);
    SyncBackupChanges(w, b, n);
  }

  /** So is a Backup that Mirror makes, at that moment. */
  lemma MirroredOnOwnRepo(w: World, o: string, found: Option<string>)
    requires Possible(w, RunMirror(o, found)) && o !in w.backups && Mirror(w, o, found).Some?
    ensures OnOwnRepo(Step(w, RunMirror(o, found)), o)
  {
  }

  /** But the storage it names is the one that holds the repo now. It is the one the data was written
      to, `s`, exactly if that storage holds the repo still: if the slot changed hands between the
      operator's backup and the Mirror call, the Backup names the new holder. */
  lemma MirrorNamesHolder(w: World, o: string, found: Option<string>, s: string)
    requires SlotsOk(w) && Possible(w, RunMirror(o, found)) && Mirror(w, o, found).Some?
    ensures w.opBackups[o].cluster in w.clusters
    ensures var slots := w.clusters[w.opBackups[o].cluster].slots;
            (Mirror(w, o, found).value.storage == s <==> s in slots && w.opBackups[o].repo == Some(RepoName(slots[s])))
  {
    var slots := w.clusters[w.opBackups[o].cluster].slots;
    assert ClusterOk(w.clusters[w.opBackups[o].cluster]);
    if s in slots && w.opBackups[o].repo == Some(RepoName(slots[s])) {
      RepoNameInjective(slots[s], slots[found.value]);
    }
  }

  /** An operator backup whose repo is live on its cluster, whichever storage holds it. */
  ghost predicate OnLiveRepo(w: World, b: string) {
    && Whole(w, b) && w.opBackups[b].cluster in w.clusters && w.opBackups[b].repo.Some?
    && HasRepo(w.clusters[w.opBackups[b].cluster], w.opBackups[b].repo.value)
  }

  /** The place such a backup is written to: where the cluster reaches that repo at that time. */
  ghost function WrittenTo(w: World, b: string): Connection
    requires OnLiveRepo(w, b)
  {
    var live, repo := w.clusters[w.opBackups[b].cluster].backups, w.opBackups[b].repo.value;
    var r :| r in live.repos && r.name == repo;
    Connection(r.bucket, r.region, r.endpoint, Get(live.global, RepoKey(repo, "path")),
               Get(live.global, RepoKey(repo, "s3-uri-style")), Get(live.global, RepoKey(repo, "storage-verify-tls")))
  }

  lemma WrittenToIsLive(w: World, b: string)
    requires OnLiveRepo(w, b)
    ensures LiveOn(w, w.opBackups[b].cluster, w.opBackups[b].repo.value, WrittenTo(w, b))
  {
  }

  /** SyncBackup starts backups on live repos only. */
  lemma StartsOnLiveRepo(w: World, b: string)
    requires Possible(w, RunSyncBackup(b)) && b !in w.opBackups && b in Step(w, RunSyncBackup(b)).opBackups
    ensures OnLiveRepo(Step(w, RunSyncBackup(b)), b)
  {
    StartedOn(w, b);
    SyncBackupChanges(w, b, w.backups[b].origin.value);
    SyncBackupKeepsClusters(w, b, w.backups[b].origin.value);
  }

  /** A backup on its own repo is written to where its storage prescribed when the cluster was
      configured. */
  lemma OwnRepoWrittenTo(w: World, b: string, before: map<string, BackupStorage>)
    requires SlotsOk(w) && OnOwnRepo(w, b) && PlacedOn(w, w.backups[b].origin.value, before)
    ensures OnLiveRepo(w, b) && IsUsable(before, w.backups[b].storage)
    ensures var n, s := w.backups[b].origin.value, w.backups[b].storage;
            WrittenTo(w, b) == Prescribed(before[s].s3.value, w.instances[n].uid, w.opBackups[b].repo.value)
  {
    var n, s, repo := w.backups[b].origin.value, w.backups[b].storage, w.opBackups[b].repo.value;
    assert ClusterOk(w.clusters[n]);
    assert repo in SlotNames(w.clusters[n].slots);
    assert repo in RepoNames(w.clusters[n].backups.repos);
    WrittenToIsLive(w, b);
    OnePlace(w.clusters[n].backups, repo, WrittenTo(w, b), Prescribed(before[s].s3.value, w.instances[n].uid, repo));
  }

  // ---------------------------------------------------------------- restoring in place

  /** SyncRestore creates this operator restore for a Restore from Backup `b`. */
  ghost predicate RestoresFrom(v: World, r: string, b: string, created: OpRestore) {
    Creates(v, r) && v.restores[r].source == FromBackup(Some(b)) && created == Step(v, RunSyncRestore(r)).opRestores[r]
  }

  lemma RestoreNames(v: World, r: string, b: string, created: OpRestore)
    requires RestoresFrom(v, r, b, created)
    ensures Whole(v, b) && v.backups[b].origin == Some(created.cluster) && created.repo == v.opBackups[b].repo
  {
    RestoreStaysHome(v, r);
  }

  /** What a restore from a backup reads, whatever happened since: the operator restore names the repo
      that was written, on the cluster of the Backup's origin, and nobody asks who holds that repo by
      now. It reads the place that was written exactly if the storage that holds the repo there
      prescribed that place when the cluster was last configured (`stores`). */
  lemma RestoreReadsWhatWasWritten(w: World, b: string, run: seq<Action>, v: World, r: string, created: OpRestore,
      stores: map<string, BackupStorage>)
    requires SlotsOk(w) && OnLiveRepo(w, b) && Lasts(w, run, b) && v == Exec(w, run)
    requires RestoresFrom(v, r, b, created)
    requires created.cluster in v.clusters ==> PlacedOn(v, created.cluster, stores)
    ensures created.repo == w.opBackups[b].repo && b in v.backups && v.backups[b].origin == Some(created.cluster)
    ensures var repo, at := w.opBackups[b].repo.value, WrittenTo(w, b);
            LiveOn(v, created.cluster, repo, at) <==> HeldAt(v, created.cluster, stores, repo, at)
  {
    RunKeepsBackup(w, run, b);
    RunKeepsSlotsOk(w, run);
    RestoreNames(v, r, b, created);
    LiveWhereHeld(v, created.cluster, stores, created.repo.value, WrittenTo(w, b));
  }

  lemma {:induction false} ExecSplits(w: World, run: seq<Action>, more: seq<Action>)
    ensures Exec(w, run + more) == Exec(Exec(w, run), more)
  {
    if more == [] {
      assert run + more == run;
    } else {
      var init := more[..|more| - 1];
      ExecSplits(w, run, init);
      assert (run + more)[..|run + more| - 1] == run + init;
    }
  }

  /** And so in every run from an empty namespace, with no condition on what happens in it: the
      storages that count are those at the last successful Sync of the cluster restored to. */
  lemma ReachedRestoreReads(start: World, run: seq<Action>, b: string, more: seq<Action>, r: string, created: OpRestore)
    requires Initial(start) && OnLiveRepo(Exec(start, run), b) && Lasts(Exec(start, run), more, b)
    requires RestoresFrom(Exec(start, run + more), r, b, created)
    ensures created.repo == Exec(start, run).opBackups[b].repo
    ensures var v, repo, at := Exec(start, run + more), created.repo.value, WrittenTo(Exec(start, run), b);
            var stores := ConfiguredBy(start, run + more, created.cluster);
            LiveOn(v, created.cluster, repo, at) <==> HeldAt(v, created.cluster, stores, repo, at)
  {
    var w, v := Exec(start, run), Exec(start, run + more);
    ExecSplits(start, run, more);
    ReachableSlots(start, run);
    if created.cluster in v.clusters { RunPlaced(start, run + more, created.cluster); }
    RestoreReadsWhatWasWritten(w, b, more, v, r, created, ConfiguredBy(start, run + more, created.cluster));
  }

  /** If the Backup says what it said and its own storage holds that repo at both times, it is a question of
      that storage alone: whether it prescribed the same place when the cluster was last configured
      before the backup (`before`) and before the restore (`now`). */
  lemma OwnRepoReadsIff(w: World, b: string, run: seq<Action>, v: World,
      before: map<string, BackupStorage>, now: map<string, BackupStorage>)
    requires SlotsOk(w) && OnOwnRepo(w, b) && PlacedOn(w, w.backups[b].origin.value, before)
    requires Lasts(w, run, b) && v == Exec(w, run)
    requires OnOwnRepo(v, b) && SameSource(w, v, b) && PlacedOn(v, v.backups[b].origin.value, now)
    ensures OnLiveRepo(w, b) && IsUsable(before, w.backups[b].storage) && IsUsable(now, w.backups[b].storage)
    ensures LiveOn(v, v.backups[b].origin.value, v.opBackups[b].repo.value, WrittenTo(w, b))
       <==> SamePlace(before[w.backups[b].storage].s3.value, now[w.backups[b].storage].s3.value)
  {
    var n, s, repo := w.backups[b].origin.value, w.backups[b].storage, w.opBackups[b].repo.value;
    RunKeepsBackup(w, run, b);
    RunKeepsSlotsOk(w, run);
    RunKeepsUIDs(w, run);
    OwnRepoWrittenTo(w, b, before);
    OwnRepoWrittenTo(v, b, now);
    WrittenToIsLive(v, b);
    assert ClusterOk(v.clusters[n]);
    SamePlaceIff(before[s].s3.value, now[s].s3.value, w.instances[n].uid, repo);
    if LiveOn(v, n, repo, WrittenTo(w, b)) { OnePlace(v.clusters[n].backups, repo, WrittenTo(w, b), WrittenTo(v, b)); }
  }

  /** And its own storage does hold the repo still if it stayed listed and backups stayed enabled. */
  lemma {:induction false} InUseStaysOwn(w: World, b: string, run: seq<Action>)
    requires SlotsOk(w) && OnOwnRepo(w, b) && Lasts(w, run, b) && Unedited(run, b)
    requires forall k :: 0 < k <= |run| ==> Uses(Exec(w, run[..k]), w.backups[b].origin.value, w.backups[b].storage)
    ensures OnOwnRepo(Exec(w, run), b)
  {
    RunKeepsBackup(w, run, b);
    SlotsNeverMove(w, run, w.backups[b].origin.value, w.backups[b].storage);
  }

  /** No two Instances share a UID, and none is without: Kubernetes' own guarantee. */
  ghost predicate UniqueUIDs(w: World) {
    && (forall n :: n in w.instances ==> w.instances[n].uid != "")
    && (forall m, n :: m in w.instances && n in w.instances && w.instances[m].uid == w.instances[n].uid ==> m == n)
  }

  ghost predicate CreatesUnique(w: World, a: Action) {
    a.ByUser? && a.user.CreateInstance? ==>
      a.user.uid != "" && forall n :: n in w.instances ==> w.instances[n].uid != a.user.uid
  }

  /** The same Instances with the same UIDs. */
  ghost predicate JustSameUIDs(w: World, w': World) {
    w'.instances.Keys == w.instances.Keys && SameUIDs(w, w')
  }

  lemma SyncJustSameUIDs(w: World, n: string, env: SyncEnv)
    requires n in w.instances && SlotsOk(w)
    ensures JustSameUIDs(w, Sync(w, n, env).0)
  {
    SyncWrites(w, n, env);
    SyncKeepsUIDs(w, n, env);
  }

  lemma SyncBackupJustSameUIDs(w: World, b: string, n: string)
    requires b in w.backups && n in w.instances
    ensures JustSameUIDs(w, SyncBackup(w, b, n).0)
  {
    SyncBackupKeepsUIDs(w, b, n);
    RegisterAddsNone(w, n, AutoRegister(w, n, w.backups[b].storage));
  }

  lemma RegisterAddsNone(w: World, n: string, r: Registration)
    requires n in w.instances
    ensures Register(w, n, r).0.instances.Keys == w.instances.Keys
  {
  }

  lemma UserUniqueUIDs(w: World, u: UserAction)
    requires UserMay(w, u) && UniqueUIDs(w) && CreatesUnique(w, ByUser(u))
    ensures UniqueUIDs(UserEffect(w, u))
  {
  }

  lemma StepUniqueUIDs(w: World, a: Action)
    requires SlotsOk(w) && UniqueUIDs(w) && CreatesUnique(w, a)
    ensures UniqueUIDs(Step(w, a))
  {
    if Possible(w, a) {
      match a {
        case ByUser(u) => UserUniqueUIDs(w, u);
        case ByOperator(o) => OperatorLeaves(w, o);
        case RunSync(n, env) => SyncJustSameUIDs(w, n, env);
        case RunSyncBackup(b) => SyncBackupJustSameUIDs(w, b, w.backups[b].origin.value);
        case RunSyncRestore(r) => SyncRestoreLeaves(w, r);
        case RunMirror(_, _) =>
      }
    }
  }

  /** It holds throughout every run in which new Instances get new UIDs. */
  lemma {:induction false} RunUniqueUIDs(w: World, run: seq<Action>)
    requires SlotsOk(w) && UniqueUIDs(w)
    requires forall k :: 0 <= k < |run| ==> CreatesUnique(Exec(w, run[..k]), run[k])
    ensures UniqueUIDs(Exec(w, run))
  {
    if run != [] {
      var init := run[..|run| - 1];
      forall k | 0 <= k < |init| ensures CreatesUnique(Exec(w, init[..k]), init[k]) {
        assert init[..k] == run[..k];
      }
      RunUniqueUIDs(w, init);
      RunKeepsSlotsOk(w, init);
      StepUniqueUIDs(Exec(w, init), run[|run| - 1]);
    }
  }

  /** Isolation of restores: SyncRestore checks the Backup's origin only. What its operator restore
      reads is what the operator backup's own cluster reaches under that repo exactly if the origin
      still is that cluster; after an edit of the origin it is another Instance's repo, or none. */
  lemma IsolatedIff(v: World, r: string, b: string, created: OpRestore, at: Connection)
    requires SlotsOk(v) && PathsRight(v) && UniqueUIDs(v)
    requires RestoresFrom(v, r, b, created) && created.repo.Some?
    requires LiveOn(v, v.opBackups[b].cluster, created.repo.value, at)
    ensures LiveOn(v, created.cluster, created.repo.value, at) <==> v.backups[b].origin == Some(v.opBackups[b].cluster)
  {
    RestoreNames(v, r, b, created);
    var m, n, repo := v.opBackups[b].cluster, created.cluster, created.repo.value;
    if LiveOn(v, n, repo, at) {
      var s := PathOfLive(v, m, repo, at);
      var t := PathOfLive(v, n, repo, at);
      PathsInjective(v.instances[m].uid, v.clusters[m].slots[s], v.instances[n].uid, v.clusters[n].slots[t]);
    }
  }

  lemma PathOfLive(v: World, n: string, repo: string, at: Connection) returns (s: string)
    requires SlotsOk(v) && PathsRight(v) && UniqueUIDs(v) && LiveOn(v, n, repo, at)
    ensures s in v.clusters[n].slots && RepoName(v.clusters[n].slots[s]) == repo && n in v.instances
    ensures at.path == Some(RepoPath(v.instances[n].uid, repo))
  {
    assert ClusterOk(v.clusters[n]);
    assert repo in RepoNames(v.clusters[n].backups.repos);
    s :| s in v.clusters[n].slots && RepoName(v.clusters[n].slots[s]) == repo;
    assert PathRight(v, n, s);
  }

  /** A point-in-time restore replays its own storage's stream exactly if that storage is in the
      persisted slot map; otherwise the repo it resolves to, though live, is another storage's. */
  lemma StreamIsOwnIff(w: World, r: string, pit: PointInTime)
    requires SlotsOk(w) && Creates(w, r) && w.restores[r].source == FromPointInTime(Some(pit))
    ensures var created := Step(w, RunSyncRestore(r)).opRestores[r];
            && created.cluster == w.restores[r].instance && created.cluster in w.clusters && created.repo.Some?
            && StorageOf(w.clusters[created.cluster].slots, created.repo.value).Some?
            && (StorageOf(w.clusters[created.cluster].slots, created.repo.value) == Some(pit.storage)
                <==> pit.storage in w.clusters[created.cluster].slots)
  {
    RestoreStaysHome(w, r);
    var n, created := w.restores[r].instance, Step(w, RunSyncRestore(r)).opRestores[r];
    assert ClusterOk(w.clusters[n]);
    RepoIsOwnIff(w.instances[n], w.clusters[n], pit.storage, created.repo.value);
  }

  // ---------------------------------------------------------------- seeding from a backup

  lemma BackupBootstrap(v: World, c: string, b: string)
    requires c in v.instances && v.instances[c].dataSource == Some(FromBackup(Some(b))) && BuildBootstrap(v, c).From?
    ensures Whole(v, b) && v.backups[b].origin.Some?
    ensures var n, s, source := v.backups[b].origin.value, v.backups[b].storage, BuildBootstrap(v, c).source;
            && n in v.instances && IsUsable(v.stores, s) && v.opBackups[b].repo == Some(source.repo.name)
            && ReadsAt(source, Prescribed(v.stores[s].s3.value, v.instances[n].uid, source.repo.name))
  {
    BootstrapSource(v, c);
  }

  /** What a clone of a backup reads, whatever happened to slots, clusters, storages and the Backup
      since: its data source combines the repo that was written with what the Backup's storage and
      origin prescribe now. It reads the place that was written exactly if they prescribe that place. */
  lemma BackupSeedReadsWhatWasWritten(w: World, b: string, run: seq<Action>, v: World, c: string)
    requires OnLiveRepo(w, b) && Lasts(w, run, b) && v == Exec(w, run)
    requires c in v.instances && v.instances[c].dataSource == Some(FromBackup(Some(b))) && BuildBootstrap(v, c).From?
    ensures BuildBootstrap(v, c).source.repo.name == w.opBackups[b].repo.value
    ensures ReadsAt(BuildBootstrap(v, c).source, WrittenTo(w, b)) <==> NowPrescribes(v, b, WrittenTo(w, b))
  {
    RunKeepsBackup(w, run, b);
    BackupBootstrap(v, c, b);
  }

  /** For a Backup on its own repo that says what it said, that is: exactly if its storage prescribes now what it
      prescribed when the source cluster was last configured before the backup (`before`). */
  lemma UneditedSeedReadsIff(w: World, b: string, run: seq<Action>, v: World, c: string,
      before: map<string, BackupStorage>)
    requires SlotsOk(w) && OnOwnRepo(w, b) && PlacedOn(w, w.backups[b].origin.value, before)
    requires Lasts(w, run, b) && v == Exec(w, run) && Whole(v, b) && SameSource(w, v, b)
    requires c in v.instances && v.instances[c].dataSource == Some(FromBackup(Some(b))) && BuildBootstrap(v, c).From?
    ensures OnLiveRepo(w, b) && IsUsable(before, w.backups[b].storage) && IsUsable(v.stores, w.backups[b].storage)
    ensures ReadsAt(BuildBootstrap(v, c).source, WrittenTo(w, b))
       <==> SamePlace(before[w.backups[b].storage].s3.value, v.stores[w.backups[b].storage].s3.value)
  {
    var n, s := w.backups[b].origin.value, w.backups[b].storage;
    OwnRepoWrittenTo(w, b, before);
    BackupSeedReadsWhatWasWritten(w, b, run, v, c);
    RunKeepsBackup(w, run, b);
    RunKeepsUIDs(w, run);
    BackupBootstrap(v, c, b);
    SamePlaceIff(before[s].s3.value, v.stores[s].s3.value, w.instances[n].uid, w.opBackups[b].repo.value);
  }

  /** The Backup's storage and origin prescribe this place for its operator backup's repo. */
  ghost predicate NowPrescribes(v: World, b: string, at: Connection) {
    && Whole(v, b) && v.backups[b].origin.Some? && v.backups[b].origin.value in v.instances
    && IsUsable(v.stores, v.backups[b].storage) && v.opBackups[b].repo.Some?
    && Prescribed(v.stores[v.backups[b].storage].s3.value, v.instances[v.backups[b].origin.value].uid,
                  v.opBackups[b].repo.value) == at
  }
}
