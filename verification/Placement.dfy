/** Where the repos of live clusters are: pgBackRest reaches each at the place that its storage
    prescribed when the cluster was last configured, in every run, whatever users edit since. */
module Placement {
  import opened Wrappers
  import opened Text
  import opened Slots
  import opened Repos
  import opened Model
  import opened Controllers
  import opened Runs

  // ---------------------------------------------------------------- places

  /** The place and manner in which pgBackRest reaches a repo. */
  datatype Connection = Connection(
    bucket: string, region: string, endpoint: string,
    path: Option<string>, uriStyle: Option<string>, verifyTLS: Option<string>)

  /** What a storage prescribes for a repo of an Instance. */
  function Prescribed(s3: S3, uid: string, repo: string): Connection {
    Connection(TrimSlashes(s3.bucket), s3.region, s3.endpoint,
               if uid != "" then Some(RepoPath(uid, repo)) else None,
               if s3.forcePathStyle == Some(true) then Some("path") else None,
               if s3.verifyTLS == Some(false) then Some("n") else None)
  }

  ghost predicate Options(global: map<string, string>, repo: string, c: Connection) {
    && Get(global, RepoKey(repo, "path")) == c.path
    && Get(global, RepoKey(repo, "s3-uri-style")) == c.uriStyle
    && Get(global, RepoKey(repo, "storage-verify-tls")) == c.verifyTLS
  }

  ghost predicate PointsAt(r: Repo, c: Connection) {
    r.bucket == c.bucket && r.region == c.region && r.endpoint == c.endpoint
  }

  /** A live cluster reaches its repo of that name in this way. */
  ghost predicate LivesAt(b: Backups, repo: string, c: Connection) {
    && (exists r :: r in b.repos && r.name == repo && PointsAt(r, c))
    && Options(b.global, repo, c)
  }

  /** A data source reads its repo in this way. */
  ghost predicate ReadsAt(s: ClusterSource, c: Connection) {
    PointsAt(s.repo, c) && Options(s.global, s.repo.name, c)
  }

  lemma PrescribedOptions(repo: string, s3: S3, uid: string)
    ensures Options(PathKeys(repo, uid) + TransportKeys(repo, s3), repo, Prescribed(s3, uid, repo))
  {
    OptionNamesApart(repo);
  }

  ghost predicate IsUsable(stores: map<string, BackupStorage>, s: string) {
    s in stores && stores[s].isS3 && stores[s].s3.Some?
  }

  /** Every slot's repo is where its own storage prescribes. */
  ghost predicate Placed(b: Backups, slots: SlotMap, stores: map<string, BackupStorage>, uid: string) {
    forall s :: s in slots ==>
      && IsUsable(stores, s)
      && LivesAt(b, RepoName(slots[s]), Prescribed(stores[s].s3.value, uid, RepoName(slots[s])))
  }

  /** Two specifications of a storage that prescribe the same place for every repo. */
  predicate SamePlace(a: S3, b: S3) {
    && TrimSlashes(a.bucket) == TrimSlashes(b.bucket) && a.region == b.region && a.endpoint == b.endpoint
    && (a.forcePathStyle == Some(true) <==> b.forcePathStyle == Some(true))
    && (a.verifyTLS == Some(false) <==> b.verifyTLS == Some(false))
  }

  lemma SamePlaceIff(a: S3, b: S3, uid: string, repo: string)
    ensures Prescribed(a, uid, repo) == Prescribed(b, uid, repo) <==> SamePlace(a, b)
  {
  }

  lemma OnePlace(b: Backups, repo: string, at: Connection, also: Connection)
    requires ReposDistinct(b.repos) && LivesAt(b, repo, at) && LivesAt(b, repo, also)
    ensures at == also
  {
    var r :| r in b.repos && r.name == repo && PointsAt(r, at);
    var q :| q in b.repos && q.name == repo && PointsAt(q, also);
    var i :| 0 <= i < |b.repos| && b.repos[i] == r;
    var j :| 0 <= j < |b.repos| && b.repos[j] == q;
    assert i == j;
  }

  /** Cluster `n` is configured as the storages prescribed it when they were `stores`. */
  ghost predicate PlacedOn(w: World, n: string, stores: map<string, BackupStorage>) {
    && n in w.clusters && n in w.instances
    && Placed(w.clusters[n].backups, w.clusters[n].slots, stores, w.instances[n].uid)
  }

  /** No cluster is behind an edit of its storages. */
  ghost predicate AllPlaced(w: World) { forall n :: n in w.clusters ==> PlacedOn(w, n, w.stores) }

  lemma CompiledArePlaced(storages: seq<Storage>, slots: SlotMap, stores: map<string, BackupStorage>, uid: string)
    requires DistinctNames(storages) && Injective(slots)
    requires forall s :: s in slots ==> s in NamesOf(storages)
    requires Compile(storages, slots, stores, uid).Ok?
    ensures var c := Compile(storages, slots, stores, uid).value;
            Placed(Backups(true, c.repos, c.global), slots, stores, uid)
  {
    var c := Merged(storages, slots, stores, uid);
    ProblemFree(storages, slots, stores);
    ReposInOrder(storages, slots, stores, uid);
    forall s | s in slots
      ensures IsUsable(stores, s)
      ensures LivesAt(Backups(true, c.repos, c.global), RepoName(slots[s]),
                Prescribed(stores[s].s3.value, uid, RepoName(slots[s])))
    {
      var i :| 0 <= i < |storages| && NamesOf(storages)[i] == s;
      var storage := storages[i];
      assert storage in storages && Valid(storage, slots, stores);
      ConnectionInGlobal(storages, slots, stores, uid, storage);
      PrescribedOptions(RepoName(slots[s]), stores[s].s3.value, uid);
      assert c.repos[i] in c.repos;
    }
  }

  // ---------------------------------------------------------------- what a Sync places

  lemma SettingsPlaced(instance: Instance, live: Option<Cluster>, stores: map<string, BackupStorage>, rejected: bool,
      noImage: bool)
    requires InstanceOk(instance) && (live.Some? ==> ClusterOk(live.value))
    requires Preserve(ApplySettings(instance, live, stores, rejected, noImage), live).error.None?
    ensures var s := Preserve(ApplySettings(instance, live, stores, rejected, noImage), live);
            Placed(s.backups, s.slots, stores, instance.uid)
  {
    if instance.backup.Some? && instance.backup.value.enabled {
      var storages := instance.backup.value.storages;
      var existing := if live.Some? then live.value.slots else map[];
      ReconcileKeeps(existing, NamesOf(storages));
      ReconcileInjective(existing, NamesOf(storages));
      CompiledArePlaced(storages, Reconcile(existing, NamesOf(storages)), stores, instance.uid);
    }
  }

  lemma ConcludePlaces(w: World, n: string, d: Settings, pmm: bool, restoring: bool, fails: bool, bootstrap: Bootstrap)
    ensures var (w', r) := Conclude(w, n, d, pmm, restoring, fails, bootstrap);
            && w'.instances == w.instances
            && (r.Applied? ==>
                  n in w'.clusters && w'.clusters[n].backups == d.backups && w'.clusters[n].slots == d.slots
                  && r.error == d.error)
  {
  }

  lemma FinishPlaces(w: World, n: string, env: SyncEnv, pmm: bool)
    requires n in w.instances && SlotsOk(w) && Finish(w, n, env, pmm).1 == Applied(None)
    ensures PlacedOn(Finish(w, n, env, pmm).0, n, w.stores)
  {
    assert InstanceOk(w.instances[n]) && (n in w.clusters ==> ClusterOk(w.clusters[n]));
    ConcludePlaces(w, n, DesiredSettings(w, n, env), pmm, RestoreInProgress(w, n), env.stop == BeforeApply,
        BuildBootstrap(w, n));
    SettingsPlaced(w.instances[n], Get(w.clusters, n), w.stores, env.rejected, env.noImage);
  }

  /** A successful Sync puts every repo of its cluster where its storage prescribes now, wherever the
      repos were before and however the storages were edited. */
  lemma SyncPlaces(w: World, n: string, env: SyncEnv)
    requires n in w.instances && SlotsOk(w) && Sync(w, n, env).1 == Applied(None)
    ensures PlacedOn(Sync(w, n, env).0, n, w.stores)
  {
    SyncSplits(w, n, env);
    SettledPrunes(w, n, env);
    SettledOk(w, n, env);
    FinishPlaces(Settled(w, n, env), n, env, PMMOf(w, n, env).pmm);
  }

  /** A cluster created by a Sync that reports a configuration error holds no slot. */
  lemma SyncCreatesEmpty(w: World, n: string, env: SyncEnv, stores: map<string, BackupStorage>)
    requires n in w.instances && n !in w.clusters && n in Sync(w, n, env).0.clusters
    requires Sync(w, n, env).1 != Applied(None)
    ensures PlacedOn(Sync(w, n, env).0, n, stores)
  {
    SyncSplits(w, n, env);
    if Reaches(w, n, env) {
      SettledPrunes(w, n, env);
      FinishCreatesEmpty(Settled(w, n, env), n, env, PMMOf(w, n, env).pmm, stores);
    } else {
      EarlyPrunes(w, n, env);
    }
  }

  lemma FinishCreatesEmpty(w: World, n: string, env: SyncEnv, pmm: bool, stores: map<string, BackupStorage>)
    requires n in w.instances && n !in w.clusters && n in Finish(w, n, env, pmm).0.clusters
    requires Finish(w, n, env, pmm).1 != Applied(None)
    ensures PlacedOn(Finish(w, n, env, pmm).0, n, stores)
  {
    ConcludeCreatesEmpty(w, n, DesiredSettings(w, n, env), pmm, RestoreInProgress(w, n), env.stop == BeforeApply,
        BuildBootstrap(w, n));
  }

  lemma ConcludeCreatesEmpty(w: World, n: string, d: Settings, pmm: bool, restoring: bool, fails: bool,
      bootstrap: Bootstrap)
    requires n !in w.clusters && (d.error.Some? ==> d.slots == map[])
    ensures var (w', r) := Conclude(w, n, d, pmm, restoring, fails, bootstrap);
            && w'.instances == w.instances
            && (n in w'.clusters && r != Applied(None) ==> w'.clusters[n].slots == map[])
  {
  }

  lemma SyncKeepsUIDs(w: World, n: string, env: SyncEnv)
    requires n in w.instances && SlotsOk(w)
    ensures SameUIDs(w, Sync(w, n, env).0)
  {
    PrunedOk(w, n);
    SyncWrites(w, n, env);
  }

  ghost predicate SameUIDs(w: World, w': World) {
    forall m :: m in w.instances ==>
      m in w'.instances && w'.instances[m].uid == w.instances[m].uid
          && w'.instances[m].dataSource == w.instances[m].dataSource
  }

  lemma SyncBackupKeepsUIDs(w: World, b: string, n: string)
    requires b in w.backups && n in w.instances
    ensures SameUIDs(w, SyncBackup(w, b, n).0)
  {
    RegisterKeepsUIDs(w, n, w.backups[b].storage);
  }

  lemma RegisterKeepsUIDs(w: World, n: string, storage: string)
    requires n in w.instances
    ensures SameUIDs(w, Register(w, n, AutoRegister(w, n, storage)).0)
  {
  }

  // ---------------------------------------------------------------- runs

  lemma UserKeepsUIDs(w: World, u: UserAction)
    requires UserMay(w, u)
    ensures SameUIDs(w, UserEffect(w, u))
  {
  }

  lemma StepKeepsUIDs(w: World, a: Action)
    requires SlotsOk(w)
    ensures SameUIDs(w, Step(w, a))
  {
    if Possible(w, a) {
      match a {
        case ByUser(u) => UserKeepsUIDs(w, u);
        case ByOperator(o) => OperatorLeaves(w, o);
        case RunSync(n, env) => SyncKeepsUIDs(w, n, env);
        case RunSyncBackup(b) => SyncBackupKeepsUIDs(w, b, w.backups[b].origin.value);
        case RunSyncRestore(r) => SyncRestoreLeaves(w, r);
        case RunMirror(_, _) =>
      }
    }
  }

  lemma {:induction false} RunKeepsUIDs(w: World, run: seq<Action>)
    requires SlotsOk(w)
    ensures SameUIDs(w, Exec(w, run))
  {
    if run != [] {
      var init := run[..|run| - 1];
      RunKeepsUIDs(w, init);
      RunKeepsSlotsOk(w, init);
      StepKeepsUIDs(Exec(w, init), run[|run| - 1]);
    }
  }

  /** The step is a successful Sync of Instance `n`. */
  ghost predicate Configures(w: World, a: Action, n: string) {
    a.RunSync? && a.n == n && Possible(w, a) && Sync(w, n, a.env).1 == Applied(None)
  }

  lemma StillPlaced(w: World, w': World, n: string, stores: map<string, BackupStorage>)
    requires PlacedOn(w, n, stores) && n in w'.clusters && SameBackups(w.clusters[n], w'.clusters[n]) && SameUIDs(w, w')
    ensures PlacedOn(w', n, stores)
  {
    assert w'.instances[n].uid == w.instances[n].uid;
  }

  lemma OtherSyncKeepsPlace(w: World, a: Action, n: string, stores: map<string, BackupStorage>)
    requires SlotsOk(w) && a.RunSync? && a.n != n && n in Step(w, a).clusters
    requires n in w.clusters ==> PlacedOn(w, n, stores)
    ensures PlacedOn(Step(w, a), n, stores)
  {
    StepKeepsUIDs(w, a);
    if Possible(w, a) {
      SyncWrites(w, a.n, a.env);
      assert Get(Step(w, a).clusters, n) == Get(w.clusters, n);
    }
    StillPlaced(w, Step(w, a), n, stores);
  }

  lemma OwnSyncKeepsPlace(w: World, n: string, env: SyncEnv, stores: map<string, BackupStorage>)
    requires SlotsOk(w) && n in w.instances && n in Sync(w, n, env).0.clusters && Sync(w, n, env).1 != Applied(None)
    requires n in w.clusters ==> PlacedOn(w, n, stores)
    ensures PlacedOn(Sync(w, n, env).0, n, stores)
  {
    if n in w.clusters {
      OnlySuccessReconfigures(w, n, env);
      SyncKeepsUIDs(w, n, env);
      StillPlaced(w, Sync(w, n, env).0, n, stores);
    } else {
      SyncCreatesEmpty(w, n, env, stores);
    }
  }

  /** A step leaves cluster `n` as some earlier storages prescribed it, or is a successful Sync of `n`
      and configures it as the storages are now. */
  lemma StepPlaced(w: World, a: Action, n: string, stores: map<string, BackupStorage>)
    requires SlotsOk(w) && n in Step(w, a).clusters
    requires n in w.clusters ==> PlacedOn(w, n, stores)
    ensures PlacedOn(Step(w, a), n, if Configures(w, a, n) then w.stores else stores)
  {
    if a.RunSync? && a.n == n && Possible(w, a) {
      if Sync(w, n, a.env).1 == Applied(None) {
        SyncPlaces(w, n, a.env);
      } else {
        OwnSyncKeepsPlace(w, n, a.env, stores);
      }
    } else if a.RunSync? && a.n != n {
      OtherSyncKeepsPlace(w, a, n, stores);
    } else {
      NoSyncKeepsPlace(w, a, n, stores);
    }
  }

  lemma NoSyncKeepsPlace(w: World, a: Action, n: string, stores: map<string, BackupStorage>)
    requires SlotsOk(w) && (a.RunSync? ==> !Possible(w, a)) && n in Step(w, a).clusters
    requires n in w.clusters ==> PlacedOn(w, n, stores)
    ensures PlacedOn(Step(w, a), n, stores)
  {
    StepKeepsUIDs(w, a);
    if !a.RunSync? { OthersKeepSettings(w, a); }
    StillPlaced(w, Step(w, a), n, stores);
  }

  /** The storages as they were at the last successful Sync of `n`. */
  ghost function ConfiguredBy(start: World, run: seq<Action>, n: string): map<string, BackupStorage> {
    if run == [] then start.stores
    else
      var init := run[..|run| - 1];
      if Configures(Exec(start, init), run[|run| - 1], n) then Exec(start, init).stores
      else ConfiguredBy(start, init, n)
  }

  /** In every run from an empty namespace, every live repo is at the place that its storage prescribed
      at the last successful Sync of its cluster. */
  lemma {:induction false} RunPlaced(start: World, run: seq<Action>, n: string)
    requires Initial(start) && n in Exec(start, run).clusters
    ensures PlacedOn(Exec(start, run), n, ConfiguredBy(start, run, n))
  {
    if run != [] {
      var init := run[..|run| - 1];
      ReachableSlots(start, init);
      if n in Exec(start, init).clusters { RunPlaced(start, init, n); }
      StepPlaced(Exec(start, init), run[|run| - 1], n, ConfiguredBy(start, init, n));
    }
  }

  /** Whether a cluster is up to date with its storages can be told from what these were then and are
      now: credentials and storages that the cluster does not use do not matter. */
  lemma UpToDateIff(w: World, n: string, before: map<string, BackupStorage>, now: map<string, BackupStorage>)
    requires SlotsOk(w) && PlacedOn(w, n, before)
    ensures PlacedOn(w, n, now) <==>
              forall s :: s in w.clusters[n].slots ==>
                IsUsable(now, s) && SamePlace(before[s].s3.value, now[s].s3.value)
  {
    var c, uid := w.clusters[n], w.instances[n].uid;
    assert ClusterOk(c);
    forall s | s in c.slots && IsUsable(now, s)
      ensures LivesAt(c.backups, RepoName(c.slots[s]), Prescribed(now[s].s3.value, uid, RepoName(c.slots[s])))
         <==> SamePlace(before[s].s3.value, now[s].s3.value)
    {
      SlotUpToDate(c.backups, before[s].s3.value, now[s].s3.value, uid, RepoName(c.slots[s]));
    }
  }

  lemma SlotUpToDate(b: Backups, before: S3, now: S3, uid: string, repo: string)
    requires ReposDistinct(b.repos) && LivesAt(b, repo, Prescribed(before, uid, repo))
    ensures LivesAt(b, repo, Prescribed(now, uid, repo)) <==> SamePlace(before, now)
  {
    SamePlaceIff(before, now, uid, repo);
    if LivesAt(b, repo, Prescribed(now, uid, repo)) {
      OnePlace(b, repo, Prescribed(before, uid, repo), Prescribed(now, uid, repo));
    }
  }

  // ---------------------------------------------------------------- paths

  /** Every slot's repo has the path of its own Instance, which no storage has a say in. */
  ghost predicate PathsRight(w: World) {
    forall n, s :: n in w.clusters && s in w.clusters[n].slots ==> n in w.instances && PathRight(w, n, s)
  }

  ghost predicate PathRight(w: World, n: string, s: string)
    requires n in w.clusters && n in w.instances && s in w.clusters[n].slots
  {
    var repo, uid := RepoName(w.clusters[n].slots[s]), w.instances[n].uid;
    Get(w.clusters[n].backups.global, RepoKey(repo, "path")) == if uid != "" then Some(RepoPath(uid, repo)) else None
  }

  /** In every run from an empty namespace. */
  lemma RunPathsRight(start: World, run: seq<Action>)
    requires Initial(start)
    ensures PathsRight(Exec(start, run))
  {
    var w := Exec(start, run);
    forall n, s | n in w.clusters && s in w.clusters[n].slots ensures n in w.instances && PathRight(w, n, s) {
      RunPlaced(start, run, n);
      var stores := ConfiguredBy(start, run, n);
      assert IsUsable(stores, s);
    }
  }

  /** So repos of Instances with different UIDs have different paths. */
  lemma PathsOfInstancesDiffer(w: World, c: string, s: string, n: string, t: string)
    requires PathsRight(w) && c in w.clusters && n in w.clusters && s in w.clusters[c].slots && t in w.clusters[n].slots
    requires w.instances[c].uid != w.instances[n].uid && w.instances[c].uid != "" && w.instances[n].uid != ""
    ensures var p := Get(w.clusters[c].backups.global, RepoKey(RepoName(w.clusters[c].slots[s]), "path"));
            var q := Get(w.clusters[n].backups.global, RepoKey(RepoName(w.clusters[n].slots[t]), "path"));
            p.Some? && q.Some? && p != q
  {
    var i, j := w.clusters[c].slots[s], w.clusters[n].slots[t];
    assert PathRight(w, c, s) && PathRight(w, n, t);
    if RepoPath(w.instances[c].uid, RepoName(i)) == RepoPath(w.instances[n].uid, RepoName(j)) {
      PathsInjective(w.instances[c].uid, i, w.instances[n].uid, j);
    }
  }

  /** Nor does one lie inside another, for UIDs without a slash, as Kubernetes gives them. */
  lemma LivePathsNotNested(w: World, c: string, s: string, n: string, t: string)
    requires PathsRight(w) && c in w.clusters && n in w.clusters && s in w.clusters[c].slots && t in w.clusters[n].slots
    requires w.instances[c].uid != w.instances[n].uid && w.instances[c].uid != "" && w.instances[n].uid != ""
    requires Free(w.instances[c].uid, '/') && Free(w.instances[n].uid, '/')
    ensures var p := Get(w.clusters[c].backups.global, RepoKey(RepoName(w.clusters[c].slots[s]), "path"));
            var q := Get(w.clusters[n].backups.global, RepoKey(RepoName(w.clusters[n].slots[t]), "path"));
            p.Some? && q.Some? && !HasPrefix(q.value + "/", p.value + "/")
  {
    assert PathRight(w, c, s) && PathRight(w, n, t);
    PathsNotNested(w.instances[c].uid, w.clusters[c].slots[s], w.instances[n].uid, w.clusters[n].slots[t]);
  }
}
