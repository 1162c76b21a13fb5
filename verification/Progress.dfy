/** On-demand backups make progress: the controllers that wait for one another never undo each
    other's step, and two rounds of calls are enough. */
module Progress {
  import opened Wrappers
  import opened Text
  import opened Retention
  import opened Slots
  import opened Repos
  import opened Model
  import opened Controllers
  import opened Runs
  import opened Isolation

  // ---------------------------------------------------------------- a round

  /** The operator creates the stanzas of the live repos and the cluster becomes ready. */
  ghost function OperatorCatchesUp(w: World, n: string): World {
    var stanzas := if n in w.clusters then RepoNames(w.clusters[n].backups.repos) else {};
    Step(w, ByOperator(OperatorCluster(n, stanzas, Ready)))
  }

  /** SyncBackup of the Backup, Sync of its Instance, and the operator. */
  ghost function Round(w: World, b: string, n: string, env: SyncEnv): World {
    OperatorCatchesUp(Step(Step(w, RunSyncBackup(b)), RunSync(n, env)), n)
  }

  /** Everything of a storage that does not depend on slots is in order. */
  predicate Sound(s: Storage, stores: map<string, BackupStorage>) {
    s.name != "" && s.name in stores && stores[s.name].isS3 && stores[s.name].s3.Some? && stores[s.name].credentials
    && Refuse !in Effects(s.schedules)
  }

  /** Outcomes outside the provider that do not stop a Sync. */
  ghost predicate Smooth(w: World, n: string, env: SyncEnv) {
    && env.stop == Never && !env.rejected && !env.noImage
    && (env.need == Required ==> FirstApplicable(env.bindings) != Some(RenderError))
    && (n in w.instances && w.instances[n].dataSource.Some? ==>
         DataSourceStorage(w, w.instances[n].dataSource.value) != Err(false))
  }

  /** An on-demand Backup of Instance `n` that is not being deleted, on an existing cluster without
      a running restore, with sound storages, and a free place in the list if it needs one. */
  ghost predicate Wanted(w: World, b: string, n: string) {
    && SlotsOk(w) && n in w.instances && n in w.clusters && !RestoreInProgress(w, n)
    && b in w.backups && w.backups[b].origin == Some(n) && w.backups[b].scheduleName == "" && !w.backups[b].deleting
    && Sound(Storage(w.backups[b].storage, [], false), w.stores)
    && w.instances[n].backup.Some?
    && (forall s :: s in w.instances[n].backup.value.storages ==> Sound(s, w.stores))
    && |w.instances[n].backup.value.storages| <= MAX_REPOS
    && (w.backups[b].storage !in Listed(w.instances[n]) ==> |w.instances[n].backup.value.storages| < MAX_REPOS)
  }

  ghost predicate IsListed(w: World, b: string, n: string)
    requires b in w.backups && n in w.instances
  {
    w.backups[b].storage in Listed(w.instances[n])
  }

  /** What a caller can check beforehand: a listed storage comes with backups enabled. */
  ghost predicate NotSwitchedOff(w: World, b: string, n: string)
    requires b in w.backups && n in w.instances && w.instances[n].backup.Some?
  {
    IsListed(w, b, n) ==> w.instances[n].backup.value.enabled
  }

  /** The next SyncBackup will start the backup. */
  ghost predicate Startable(w: World, b: string, n: string)
    requires b in w.backups && n in w.instances
  {
    n in w.clusters &&
    var repo := RepoOnInstance(w.instances[n], w.clusters[n].slots, w.backups[b].storage);
    repo.Some? && Lacks(w.clusters[n], repo.value).None?
  }

  ghost predicate OnCluster(w: World, b: string, n: string)
    requires b in w.backups && n in w.instances
  {
    n in w.clusters && w.clusters[n].backups.enabled &&
    var repo := RepoOnInstance(w.instances[n], w.clusters[n].slots, w.backups[b].storage);
    repo.Some? && HasRepo(w.clusters[n], repo.value)
  }

  /** 4: unregistered, 3: registered, 2: repo present, 1: stanza created, 0: backup started. */
  ghost function Rank(w: World, b: string, n: string): nat
    requires b in w.backups && n in w.instances
  {
    if b in w.opBackups then 0
    else if Startable(w, b, n) then 1
    else if !IsListed(w, b, n) then 4
    else if OnCluster(w, b, n) then 2
    else 3
  }

  // ---------------------------------------------------------------- the three steps

  lemma FourAreServed(instance: Instance, slots: SlotMap, s: string)
    requires instance.backup.Some? && |instance.backup.value.storages| <= MAX_REPOS && s in Listed(instance)
    ensures s in Reconcile(slots, Listed(instance)) && RepoOnInstance(instance, slots, s).Some?
  {
    if s !in Reconcile(slots, Listed(instance)) {
      UnservedMeansFive(slots, Listed(instance), s);
    }
  }

  lemma UnlistedHasNoRepo(instance: Instance, slots: SlotMap, s: string)
    requires s !in Listed(instance)
    ensures RepoOnInstance(instance, slots, s).None?
  {
    ReconcileKeeps(slots, Listed(instance));
  }

  /** SyncBackup starts a startable backup, registers an unlisted storage, and otherwise waits. */
  lemma SyncBackupProgress(w: World, b: string, n: string)
    requires Wanted(w, b, n) && b !in w.opBackups
    ensures var w' := Step(w, RunSyncBackup(b));
            && (Startable(w, b, n) <==> b in w'.opBackups)
            && (!Startable(w, b, n) ==>
                  w' == if IsListed(w, b, n) then w else w.(instances := w.instances[n := Registering(w, b, n)]))
  {
    var instance, slots, s := w.instances[n], w.clusters[n].slots, w.backups[b].storage;
    if IsListed(w, b, n) {
      FourAreServed(instance, slots, s);
    } else {
      UnlistedHasNoRepo(instance, slots, s);
    }
  }

  /** The gate: SyncBackup starts a backup exactly when nobody else schedules it, the cluster exists
      with backups enabled and is past its initialisation, and the repo that the storage resolves to
      is live with its stanza created. */
  lemma GateIff(w: World, b: string)
    requires Possible(w, RunSyncBackup(b)) && b !in w.opBackups
    ensures var n, s := w.backups[b].origin.value, w.backups[b].storage;
            b in Step(w, RunSyncBackup(b)).opBackups <==>
              && w.backups[b].scheduleName == "" && n in w.clusters && w.instances[n].backup.Some?
              && w.clusters[n].backups.enabled && w.clusters[n].phase != Initializing
              && var slots := Reconcile(w.clusters[n].slots, Listed(w.instances[n]));
                 s in slots && RepoName(slots[s]) in RepoNames(w.clusters[n].backups.repos) * w.clusters[n].stanzas
  {
    var n := w.backups[b].origin.value;
    if n in w.clusters { RepoIsLive(w.clusters[n]); }
  }

  lemma RepoIsLive(c: Cluster)
    ensures forall repo :: HasRepo(c, repo) <==> repo in RepoNames(c.backups.repos)
  {
  }

  function Registering(w: World, b: string, n: string): Instance
    requires b in w.backups && n in w.instances && w.instances[n].backup.Some?
  {
    var config := w.instances[n].backup.value;
    w.instances[n].(backup := Some(config.(enabled := true,
        storages := config.storages + [Storage(w.backups[b].storage, [], false)])))
  }

  lemma RegisteringLists(w: World, b: string, n: string)
    requires Wanted(w, b, n) && !IsListed(w, b, n)
    ensures var w' := w.(instances := w.instances[n := Registering(w, b, n)]);
            Wanted(w', b, n) && IsListed(w', b, n) && NotSwitchedOff(w', b, n)
  {
    var storages, s := w.instances[n].backup.value.storages, Storage(w.backups[b].storage, [], false);
    var instance := Registering(w, b, n);
    assert NamesOf(storages + [s])[|storages|] == s.name;
    assert InstanceOk(w.instances[n]);
    forall i | 0 <= i < |storages| ensures storages[i].name != s.name {
      assert NamesOf(storages)[i] in NamesOf(storages);
    }
    assert InstanceOk(instance);
    PutInstance(w, n, instance);
  }

  // ---------------------------------------------------------------- Sync configures the repo

  lemma SoundIsValid(s: Storage, slots: SlotMap, stores: map<string, BackupStorage>)
    requires Sound(s, stores) && s.name in slots
    ensures Valid(s, slots, stores)
  {
  }

  /** Settings compiled from at most four sound storages. */
  lemma SoundCompiles(instance: Instance, live: Cluster, stores: map<string, BackupStorage>, s: string)
    requires InstanceOk(instance) && ClusterOk(live)
    requires instance.backup.Some? && instance.backup.value.enabled && |instance.backup.value.storages| <= MAX_REPOS
    requires forall t :: t in instance.backup.value.storages ==> Sound(t, stores)
    requires s in Listed(instance)
    ensures var d := Preserve(ApplySettings(instance, Some(live), stores, false, false), Some(live));
            && d.error.None? && d.backups.enabled && s in d.slots && d.slots == Reconcile(live.slots, Listed(instance))
            && ReposAreSlots(d.backups.repos, d.slots)
  {
    var storages := instance.backup.value.storages;
    var slots := Reconcile(live.slots, Listed(instance));
    FourAreServed(instance, live.slots, s);
    forall t | t in storages ensures Valid(t, slots, stores) {
      var i :| 0 <= i < |storages| && storages[i] == t;
      assert Listed(instance)[i] in Listed(instance);
      FourAreServed(instance, live.slots, t.name);
      SoundIsValid(t, slots, stores);
    }
    ProblemFree(storages, slots, stores);
    CompiledAreSlots(storages, live.slots, stores, instance.uid);
    assert storages != [];
  }

  // ---------------------------------------------------------------- registration stays

  /** The Backup, not being deleted, refers to a storage that its Instance lists. */
  ghost predicate Refers(w: World, b: string, n: string) {
    && b in w.backups && w.backups[b].origin == Some(n) && !w.backups[b].deleting
    && n in w.instances && IsListed(w, b, n)
  }

  /** Pruning never takes away a storage that a live Backup refers to, nor the enabled flag. */
  lemma PruneKeepsReferenced(w: World, b: string, n: string)
    requires Refers(w, b, n) && InstanceOk(w.instances[n]) && Pruned(w, n).Some?
    ensures var after, before := Pruned(w, n).value, w.instances[n];
            && before.backup.Some? && after.backup.Some? && after.backup.value.enabled == before.backup.value.enabled
            && w.backups[b].storage in Listed(after)
            && |after.backup.value.storages| <= |before.backup.value.storages|
            && (forall t :: t in after.backup.value.storages ==> t in before.backup.value.storages)
            && after.uid == before.uid
  {
    var config, s := w.instances[n].backup.value, w.backups[b].storage;
    var source := if w.instances[n].dataSource.None? then Ok("")
        else DataSourceStorage(w, w.instances[n].dataSource.value);
    var i :| 0 <= i < |config.storages| && Listed(w.instances[n])[i] == s;
    if source.Ok? {
      assert s in Referenced(w, n);
      KeptNamed(config.storages, Referenced(w, n), source.value, config.storages[i]);
    }
  }

  lemma KeptNamed(storages: seq<Storage>, referenced: set<string>, source: string, s: Storage)
    requires DistinctNames(storages) && s in storages && s.name in referenced
    ensures var kept := Kept(storages, referenced, source);
            && s.name in NamesOf(kept) && kept != [] && |kept| <= |storages| && forall t :: t in kept ==> t in storages
  {
    KeptDistinct(storages, referenced, source);
    var kept := Kept(storages, referenced, source);
    assert s in kept;
    var j :| 0 <= j < |kept| && kept[j] == s;
    assert NamesOf(kept)[j] == s.name;
  }

  /** Edits by which a user takes the registration back. */
  predicate TakesBack(a: Action, b: string, n: string) {
    match a
    case ByUser(EditConfig(m, _)) => m == n
    case ByUser(EditOrigin(c, _)) => c == b
    case ByUser(EditStorage(c, _)) => c == b
    case ByUser(RemoveBackup(c)) => c == b
    case ByUser(MarkBackup(c, deleting, _)) => c == b && deleting
    case _ => false
  }

  lemma UserKeepsListed(w: World, u: UserAction, b: string, n: string)
    requires UserMay(w, u) && Refers(w, b, n) && !TakesBack(ByUser(u), b, n)
    ensures Refers(UserEffect(w, u), b, n)
  {
  }

  lemma SyncKeepsListed(w: World, m: string, env: SyncEnv, b: string, n: string)
    requires SlotsOk(w) && m in w.instances && Refers(w, b, n)
    ensures Refers(Sync(w, m, env).0, b, n)
  {
    SyncWrites(w, m, env);
    assert InstanceOk(w.instances[n]);
    if Pruned(w, n).Some? { PruneKeepsReferenced(w, b, n); }
  }

  lemma SyncBackupKeepsListed(w: World, c: string, m: string, b: string, n: string)
    requires c in w.backups && m in w.instances && Refers(w, b, n)
    ensures Refers(SyncBackup(w, c, m).0, b, n)
  {
    SyncBackupChanges(w, c, m);
    RegisterKeepsListed(w, m, w.backups[c].storage, b, n);
  }

  lemma RegisterKeepsListed(w: World, m: string, storage: string, b: string, n: string)
    requires m in w.instances && Refers(w, b, n)
    ensures Refers(Register(w, m, AutoRegister(w, m, storage)).0, b, n)
  {
    if m == n && AutoRegister(w, m, storage).Done? {
      var storages, instance := w.instances[n].backup.value.storages, AutoRegister(w, m, storage).instance;
      var i :| 0 <= i < |storages| && NamesOf(storages)[i] == w.backups[b].storage;
      assert Listed(instance)[i] == w.backups[b].storage;
    }
  }

  lemma StepKeepsListed(w: World, a: Action, b: string, n: string)
    requires SlotsOk(w) && Refers(w, b, n) && !TakesBack(a, b, n)
    ensures Refers(Step(w, a), b, n)
  {
    if Possible(w, a) {
      match a {
        case ByUser(u) => UserKeepsListed(w, u, b, n);
        case ByOperator(o) => OperatorLeaves(w, o);
        case RunSync(m, env) => SyncKeepsListed(w, m, env, b, n);
        case RunSyncBackup(c) => SyncBackupKeepsListed(w, c, w.backups[c].origin.value, b, n);
        case RunSyncRestore(r) => SyncRestoreLeaves(w, r);
        case RunMirror(_, _) =>
      }
    }
  }

  /** Over whole runs: as long as users do not take it back, the storage of a Backup that is not being
      deleted stays listed, through any number of prunings, failures, restores and registrations. */
  lemma {:induction false} RegistrationStays(w: World, run: seq<Action>, b: string, n: string)
    requires SlotsOk(w) && Refers(w, b, n)
    requires forall k :: 0 <= k < |run| ==> !TakesBack(run[k], b, n)
    ensures Refers(Exec(w, run), b, n)
  {
    if run != [] {
      var init := run[..|run| - 1];
      RegistrationStays(w, init, b, n);
      RunKeepsSlotsOk(w, init);
      StepKeepsListed(Exec(w, init), run[|run| - 1], b, n);
    }
  }

  // ---------------------------------------------------------------- Sync, as far as it gets

  /** A smooth Sync is not stopped before it looks at the cluster. */
  lemma SmoothReaches(w: World, n: string, env: SyncEnv)
    requires n in w.instances && Smooth(w, n, env)
    ensures Reaches(w, n, env)
  {
    PrunedIgnoresSecrets(w, n, PMMOf(w, n, env).secret);
  }

  /** After a smooth Sync with backups enabled the storage holds a slot whose repo is live. */
  lemma SyncConfigures(w: World, b: string, n: string, env: SyncEnv)
    requires Wanted(w, b, n) && IsListed(w, b, n) && w.instances[n].backup.value.enabled && Smooth(w, n, env)
    ensures var w' := Sync(w, n, env).0;
            && n in w'.instances && n in w'.clusters
            && IsListed(w', b, n) && w'.clusters[n].backups.enabled
            && w.backups[b].storage in w'.clusters[n].slots && ClusterOk(w'.clusters[n])
            && w'.opBackups == w.opBackups && w'.backups == w.backups
  {
    SmoothReaches(w, n, env);
    SettledPrunes(w, n, env);
    assert InstanceOk(w.instances[n]);
    PruneKeepsReferenced(w, b, n);
    SyncSplits(w, n, env);
    SettledOk(w, n, env);
    var w2 := Settled(w, n, env);
    assert InstanceOk(w2.instances[n]) && ClusterOk(w2.clusters[n]);
    SoundCompiles(w2.instances[n], w2.clusters[n], w2.stores, w.backups[b].storage);
    ConcludeConfigures(w2, n, DesiredSettings(w2, n, env), PMMOf(w, n, env).pmm, BuildBootstrap(w2, n),
        w.backups[b].storage);
  }

  lemma ConcludeConfigures(w: World, n: string, d: Settings, pmm: bool, bootstrap: Bootstrap, s: string)
    requires n in w.clusters && d.backups.enabled && s in d.slots && ReposAreSlots(d.backups.repos, d.slots)
    ensures var w' := Conclude(w, n, d, pmm, false, false, bootstrap).0;
            && n in w'.clusters && w'.clusters[n].backups == d.backups && w'.clusters[n].slots == d.slots
            && w'.(clusters := w.clusters) == w
  {
  }

  lemma CaughtUp(w: World, b: string, n: string)
    requires b in w.backups && n in w.instances && n in w.clusters && IsListed(w, b, n)
    requires w.clusters[n].backups.enabled && w.backups[b].storage in w.clusters[n].slots && ClusterOk(w.clusters[n])
    ensures var w' := OperatorCatchesUp(w, n);
            && w'.(clusters := w.clusters) == w && n in w'.clusters && Startable(w', b, n)
  {
    var c, s := w.clusters[n], w.backups[b].storage;
    var repo := RepoName(c.slots[s]);
    ReconcileKeeps(c.slots, Listed(w.instances[n]));
    assert repo in SlotNames(c.slots);
    assert repo in RepoNames(c.backups.repos);
    var i :| 0 <= i < |c.backups.repos| && c.backups.repos[i].name == repo;
  }

  // ---------------------------------------------------------------- progress

  /** SyncBackup of a startable backup. */
  lemma StartableCreates(w: World, b: string, n: string)
    requires b in w.backups && w.backups[b].origin == Some(n) && w.backups[b].scheduleName == "" && n in w.instances
    requires b !in w.opBackups && Startable(w, b, n)
    ensures var w1 := Step(w, RunSyncBackup(b));
            b in w1.opBackups && w1.backups == w.backups && w1.instances == w.instances
  {
    assert StartBackup(w, b, n).1 == Following(NoState);
  }

  /** After SyncBackup an unstarted backup's storage is listed with backups enabled. */
  lemma WaitingIsListed(w: World, b: string, n: string, env: SyncEnv)
    requires Wanted(w, b, n) && b !in w.opBackups && NotSwitchedOff(w, b, n) && Smooth(w, n, env) && !Startable(w, b, n)
    ensures var w1 := Step(w, RunSyncBackup(b));
            && Wanted(w1, b, n) && IsListed(w1, b, n) && NotSwitchedOff(w1, b, n) && Smooth(w1, n, env)
            && w1.opBackups == w.opBackups && w1.backups == w.backups
  {
    SyncBackupProgress(w, b, n);
    if !IsListed(w, b, n) { RegisteringLists(w, b, n); }
  }

  /** One round: a startable backup is started, any other becomes startable. */
  lemma RoundAdvances(w: World, b: string, n: string, env: SyncEnv)
    requires Wanted(w, b, n) && b !in w.opBackups && NotSwitchedOff(w, b, n) && Smooth(w, n, env)
    ensures var w' := Round(w, b, n, env);
            && b in w'.backups && n in w'.instances
            && (Startable(w, b, n) ==> b in w'.opBackups)
            && (!Startable(w, b, n) ==> b !in w'.opBackups && Startable(w', b, n) && w'.backups == w.backups)
  {
    var w1 := Step(w, RunSyncBackup(b));
    if Startable(w, b, n) {
      StartableCreates(w, b, n);
      SyncKeepsStarted(w1, b, n, env);
    } else {
      WaitingIsListed(w, b, n, env);
      SyncConfigures(w1, b, n, env);
      CaughtUp(Step(w1, RunSync(n, env)), b, n);
    }
  }

  lemma SyncKeepsStarted(w: World, b: string, n: string, env: SyncEnv)
    requires n in w.instances && b in w.opBackups && b in w.backups
    ensures var w' := OperatorCatchesUp(Step(w, RunSync(n, env)), n);
            n in w'.instances && b in w'.backups && b in w'.opBackups
  {
    SyncWrites(w, n, env);
  }

  /** Each round strictly decreases the rank until the operator backup exists. */
  lemma RankDecreases(w: World, b: string, n: string, env: SyncEnv)
    requires Wanted(w, b, n) && b !in w.opBackups && NotSwitchedOff(w, b, n) && Smooth(w, n, env)
    ensures b in Round(w, b, n, env).backups && n in Round(w, b, n, env).instances
    ensures Rank(Round(w, b, n, env), b, n) < Rank(w, b, n)
  {
    RoundAdvances(w, b, n, env);
  }

  lemma StartableStarts(w: World, b: string, n: string, env: SyncEnv)
    requires b in w.backups && w.backups[b].origin == Some(n) && w.backups[b].scheduleName == "" && n in w.instances
    requires b !in w.opBackups && Startable(w, b, n)
    ensures b in Round(w, b, n, env).opBackups
  {
    StartableCreates(w, b, n);
    SyncKeepsStarted(Step(w, RunSyncBackup(b)), b, n, env);
  }

  /** So two rounds are enough. */
  lemma TwoRoundsStart(w: World, b: string, n: string, env: SyncEnv, env2: SyncEnv)
    requires Wanted(w, b, n) && b !in w.opBackups && NotSwitchedOff(w, b, n) && Smooth(w, n, env)
    ensures b in Round(w, b, n, env).opBackups || b in Round(Round(w, b, n, env), b, n, env2).opBackups
  {
    RoundAdvances(w, b, n, env);
    if !Startable(w, b, n) {
      StartableStarts(Round(w, b, n, env), b, n, env2);
    }
  }

  // ---------------------------------------------------------------- each step by itself

  /** SyncBackup leaves the two stages that are its own, unregistered and stanza created, for a lower
      one, and at the other two it changes nothing. */
  lemma SyncBackupLowers(w: World, b: string, n: string)
    requires Wanted(w, b, n) && b !in w.opBackups
    ensures var w' := Step(w, RunSyncBackup(b));
            && b in w'.backups && n in w'.instances
            && (Rank(w, b, n) in {1, 4} ==> Rank(w', b, n) < Rank(w, b, n))
            && (Rank(w, b, n) in {2, 3} ==> w' == w)
  {
    SyncBackupProgress(w, b, n);
    if Startable(w, b, n) {
      StartableCreates(w, b, n);
    } else if !IsListed(w, b, n) {
      RegisteringLists(w, b, n);
    }
  }

  /** A smooth Sync brings a registered storage onto the cluster. */
  lemma SyncLowers(w: World, b: string, n: string, env: SyncEnv)
    requires Wanted(w, b, n) && b !in w.opBackups && NotSwitchedOff(w, b, n) && Smooth(w, n, env) && Rank(w, b, n) == 3
    ensures var w' := Sync(w, n, env).0;
            b in w'.backups && n in w'.instances && Rank(w', b, n) < Rank(w, b, n)
  {
    SyncConfigures(w, b, n, env);
    HeldRepo(Sync(w, n, env).0, b, n);
  }

  /** One report of the operator is enough for the next stage, if it has this one repo's stanza in it
      and the cluster past its initialisation; whatever else it says. */
  lemma ReportLowers(w: World, b: string, n: string, stanzas: set<string>, phase: Phase)
    requires b in w.backups && n in w.instances && b !in w.opBackups && Rank(w, b, n) == 2
    requires phase != Initializing
    requires RepoOnInstance(w.instances[n], w.clusters[n].slots, w.backups[b].storage).value in stanzas
    ensures var w' := Step(w, ByOperator(OperatorCluster(n, stanzas, phase)));
            b in w'.backups && n in w'.instances && Rank(w', b, n) < Rank(w, b, n)
  {
  }

  /** Where a storage holds a slot, the stage is read off its own repo. */
  lemma HeldRepo(w: World, b: string, n: string)
    requires b in w.backups && n in w.instances && IsListed(w, b, n)
    requires HoldsSlot(w, n, w.backups[b].storage) && ClusterOk(w.clusters[n])
    ensures var c, repo := w.clusters[n], RepoName(w.clusters[n].slots[w.backups[b].storage]);
            && RepoOnInstance(w.instances[n], c.slots, w.backups[b].storage) == Some(repo)
            && (OnCluster(w, b, n) <==> c.backups.enabled)
            && (Startable(w, b, n) <==> c.backups.enabled && c.phase != Initializing && repo in c.stanzas)
  {
    var c, s := w.clusters[n], w.backups[b].storage;
    ReconcileKeeps(c.slots, Listed(w.instances[n]));
    assert RepoName(c.slots[s]) in SlotNames(c.slots);
    RepoIsLive(c);
  }

  /** What a call may not take away from cluster `n`: backups once enabled, the slot, the reports. */
  ghost predicate NoWorse(w: World, w': World, n: string, s: string)
    requires HoldsSlot(w, n, s)
  {
    && SameSlot(w, w', n, s) && (w.clusters[n].backups.enabled ==> w'.clusters[n].backups.enabled)
    && w'.clusters[n].phase == w.clusters[n].phase && w'.clusters[n].stanzas == w.clusters[n].stanzas
  }

  lemma ConcludeNoWorse(w: World, n: string, d: Settings, pmm: bool, restoring: bool, fails: bool, bootstrap: Bootstrap,
      s: string)
    requires HoldsSlot(w, n, s) && s in d.slots && d.slots[s] == w.clusters[n].slots[s]
    requires w.clusters[n].backups.enabled ==> d.backups.enabled
    ensures NoWorse(w, Conclude(w, n, d, pmm, restoring, fails, bootstrap).0, n, s)
  {
  }

  lemma FinishNoWorse(w: World, n: string, env: SyncEnv, pmm: bool, s: string)
    requires SlotsOk(w) && HoldsSlot(w, n, s) && Uses(w, n, s)
    ensures NoWorse(w, Finish(w, n, env, pmm).0, n, s)
  {
    SettingsKeepSlot(w.instances[n], w.clusters[n], w.stores, env.rejected, env.noImage, s);
    ConcludeNoWorse(w, n, DesiredSettings(w, n, env), pmm, RestoreInProgress(w, n), env.stop == BeforeApply,
        BuildBootstrap(w, n), s);
  }

  lemma SyncNoWorse(w: World, m: string, env: SyncEnv, b: string, n: string)
    requires SlotsOk(w) && m in w.instances && Refers(w, b, n) && BacksUp(w, n) && HoldsSlot(w, n, w.backups[b].storage)
    ensures NoWorse(w, Sync(w, m, env).0, n, w.backups[b].storage)
  {
    SyncWrites(w, m, env);
    if m != n {
      assert Get(Sync(w, m, env).0.clusters, n) == Get(w.clusters, n);
    } else {
      SyncSplits(w, n, env);
      if Reaches(w, n, env) {
        SettledNoWorse(w, n, env, b);
      } else {
        EarlyKeepsClusters(w, n, env);
      }
    }
  }

  lemma SettledNoWorse(w: World, n: string, env: SyncEnv, b: string)
    requires SlotsOk(w) && Refers(w, b, n) && BacksUp(w, n) && HoldsSlot(w, n, w.backups[b].storage)
               && Reaches(w, n, env)
    ensures NoWorse(w, Finish(Settled(w, n, env), n, env, PMMOf(w, n, env).pmm).0, n, w.backups[b].storage)
  {
    SettledPrunes(w, n, env);
    SettledOk(w, n, env);
    assert InstanceOk(w.instances[n]);
    PruneKeepsReferenced(w, b, n);
    FinishNoWorse(Settled(w, n, env), n, env, PMMOf(w, n, env).pmm, w.backups[b].storage);
  }

  lemma StepKeepsOpBackup(w: World, a: Action, b: string)
    requires !a.ByOperator? && b in w.opBackups
    ensures b in Step(w, a).opBackups
  {
    if Possible(w, a) {
      match a {
        case ByUser(u) => UserLeaves(w, u);
        case RunSync(n, env) => SyncChanges(w, n, env);
        case RunSyncBackup(c) =>
          SyncBackupChanges(w, c, w.backups[c].origin.value);
          assert b == c || Get(Step(w, a).opBackups, b) == Get(w.opBackups, b);
        case RunSyncRestore(r) => SyncRestoreLeaves(w, r);
        case RunMirror(_, _) =>
      }
    }
  }

  lemma StepNoWorse(w: World, a: Action, b: string, n: string)
    requires SlotsOk(w) && Refers(w, b, n) && BacksUp(w, n) && HoldsSlot(w, n, w.backups[b].storage)
    requires !a.ByUser? && !a.ByOperator?
    ensures NoWorse(w, Step(w, a), n, w.backups[b].storage)
  {
    if Possible(w, a) {
      match a {
        case RunSync(m, env) => SyncNoWorse(w, m, env, b, n);
        case RunSyncBackup(c) => SyncBackupKeepsClusters(w, c, w.backups[c].origin.value);
        case RunSyncRestore(r) => SyncRestoreLeaves(w, r);
        case RunMirror(_, _) =>
      }
    }
  }

  /** No call of the provider, for any Instance, Backup or Restore and however it ends, ever raises
      the rank of a registered Backup, as long as backups are enabled and its storage, once on the
      cluster, is there in its own slot. */
  lemma ProviderKeepsRank(w: World, a: Action, b: string, n: string)
    requires SlotsOk(w) && Refers(w, b, n) && BacksUp(w, n) && !a.ByUser? && !a.ByOperator?
    requires Rank(w, b, n) in {1, 2} ==> HoldsSlot(w, n, w.backups[b].storage)
    ensures Refers(Step(w, a), b, n) && Rank(Step(w, a), b, n) <= Rank(w, b, n)
  {
    StepKeepsListed(w, a, b, n);
    if b in w.opBackups {
      StepKeepsOpBackup(w, a, b);
    } else if Rank(w, b, n) in {1, 2} {
      StepNoWorse(w, a, b, n);
      StepKeepsSlotsOk(w, a);
      StepKeepsStorage(w, a, b);
      HeldRepo(w, b, n);
      HeldRepo(Step(w, a), b, n);
    }
  }

  lemma StepKeepsStorage(w: World, a: Action, b: string)
    requires b in w.backups && !a.ByUser?
    ensures b in Step(w, a).backups && Step(w, a).backups[b] == w.backups[b]
  {
    if Possible(w, a) {
      match a {
        case ByOperator(o) => OperatorLeaves(w, o);
        case RunSync(n, env) => SyncChanges(w, n, env);
        case RunSyncBackup(c) => SyncBackupChanges(w, c, w.backups[c].origin.value);
        case RunSyncRestore(r) => SyncRestoreLeaves(w, r);
        case RunMirror(_, _) =>
      }
    }
  }

  // ---------------------------------------------------------------- and when it does not

  /** A Backup on a listed storage of an Instance with backups switched off, on the cluster too. */
  ghost predicate SwitchedOff(w: World, b: string, n: string) {
    && SlotsOk(w) && n in w.instances && n in w.clusters && b !in w.opBackups
    && b in w.backups && w.backups[b].origin == Some(n) && !w.backups[b].deleting
    && w.instances[n].backup.Some? && !w.instances[n].backup.value.enabled && !w.clusters[n].backups.enabled
    && |w.instances[n].backup.value.storages| <= MAX_REPOS && IsListed(w, b, n)
  }

  lemma SyncStaysOff(w: World, b: string, n: string, env: SyncEnv)
    requires SwitchedOff(w, b, n)
    ensures SwitchedOff(Sync(w, n, env).0, b, n)
  {
    SyncKeepsSlotsOk(w, n, env);
    SyncChanges(w, n, env);
    SyncWrites(w, n, env);
    assert InstanceOk(w.instances[n]);
    if Pruned(w, n).Some? { PruneKeepsReferenced(w, b, n); }
    SyncLeavesOff(w, n, env);
  }

  lemma SyncLeavesOff(w: World, n: string, env: SyncEnv)
    requires n in w.instances && n in w.clusters && !w.clusters[n].backups.enabled
    requires w.instances[n].backup.Some? && !w.instances[n].backup.value.enabled
    ensures var w' := Sync(w, n, env).0; n in w'.clusters && !w'.clusters[n].backups.enabled
  {
    SyncSplits(w, n, env);
    if Reaches(w, n, env) {
      SettledLeavesOff(w, n, env);
    } else {
      EarlyPrunes(w, n, env);
    }
  }

  lemma SettledLeavesOff(w: World, n: string, env: SyncEnv)
    requires n in w.instances && n in w.clusters && !w.clusters[n].backups.enabled && Reaches(w, n, env)
    requires w.instances[n].backup.Some? && !w.instances[n].backup.value.enabled
    ensures var w' := Finish(Settled(w, n, env), n, env, PMMOf(w, n, env).pmm).0;
            n in w'.clusters && !w'.clusters[n].backups.enabled
  {
    SettledPrunes(w, n, env);
    FinishLeavesOff(Settled(w, n, env), n, env, PMMOf(w, n, env).pmm);
  }

  lemma FinishLeavesOff(w: World, n: string, env: SyncEnv, pmm: bool)
    requires n in w.instances && n in w.clusters && !w.clusters[n].backups.enabled
    requires w.instances[n].backup.Some? && !w.instances[n].backup.value.enabled
    ensures var w' := Finish(w, n, env, pmm).0; n in w'.clusters && !w'.clusters[n].backups.enabled
  {
    ConcludeStaysOff(w, n, DesiredSettings(w, n, env), pmm, RestoreInProgress(w, n), env.stop == BeforeApply,
        BuildBootstrap(w, n));
  }

  lemma ConcludeStaysOff(w: World, n: string, d: Settings, pmm: bool, restoring: bool, fails: bool,
      bootstrap: Bootstrap)
    requires n in w.clusters && !w.clusters[n].backups.enabled && !d.backups.enabled
    ensures var w' := Conclude(w, n, d, pmm, restoring, fails, bootstrap).0;
            n in w'.clusters && !w'.clusters[n].backups.enabled && w'.instances == w.instances
  {
  }

  lemma SyncBackupStaysOff(w: World, b: string, n: string)
    requires SwitchedOff(w, b, n)
    ensures Step(w, RunSyncBackup(b)) == w
  {
    FourAreServed(w.instances[n], w.clusters[n].slots, w.backups[b].storage);
  }

  /** Such a Backup waits for ever: no sequence of its SyncBackups, of Syncs of the Instance with any
      outcome and of operator reports starts it. The registration that would switch backups on is
      only reached by storages that are not listed. */
  lemma {:induction false} SwitchedOffNeverStarts(w: World, b: string, n: string, run: seq<Action>)
    requires SwitchedOff(w, b, n)
    requires forall k :: 0 <= k < |run| ==>
               run[k] == RunSyncBackup(b) || (run[k].RunSync? && run[k].n == n)
                   || (run[k].ByOperator? && run[k].operator.OperatorCluster?)
    ensures SwitchedOff(Exec(w, run), b, n)
  {
    if run != [] {
      var init, a := run[..|run| - 1], run[|run| - 1];
      SwitchedOffNeverStarts(w, b, n, init);
      var v := Exec(w, init);
      match a {
        case RunSyncBackup(_) => SyncBackupStaysOff(v, b, n);
        case RunSync(_, env) => SyncStaysOff(v, b, n, env);
        case ByOperator(_) => StepKeepsSlotsOk(v, a);
      }
    }
  }

  /** A smooth Sync of an Instance with backups switched off switches them off on the cluster. */
  lemma SyncSwitchesOff(w: World, b: string, n: string, env: SyncEnv)
    requires Wanted(w, b, n) && b !in w.opBackups && !NotSwitchedOff(w, b, n) && Smooth(w, n, env)
    ensures SwitchedOff(Sync(w, n, env).0, b, n)
  {
    SmoothReaches(w, n, env);
    SettledPrunes(w, n, env);
    assert InstanceOk(w.instances[n]);
    PruneKeepsReferenced(w, b, n);
    SyncSplits(w, n, env);
    SyncKeepsSlotsOk(w, n, env);
    SyncWrites(w, n, env);
    FinishSwitchesOff(Settled(w, n, env), n, env, PMMOf(w, n, env).pmm);
  }

  lemma FinishSwitchesOff(w: World, n: string, env: SyncEnv, pmm: bool)
    requires n in w.instances && n in w.clusters && !RestoreInProgress(w, n) && env.stop == Never
    requires w.instances[n].backup.Some? && !w.instances[n].backup.value.enabled
    ensures var w' := Finish(w, n, env, pmm).0;
            n in w'.clusters && !w'.clusters[n].backups.enabled && w'.instances == w.instances
  {
    ConcludeApplied(w, n, DesiredSettings(w, n, env), pmm, BuildBootstrap(w, n));
  }

  lemma ConcludeApplied(w: World, n: string, d: Settings, pmm: bool, bootstrap: Bootstrap)
    requires n in w.clusters
    ensures var w' := Conclude(w, n, d, pmm, false, false, bootstrap).0;
            n in w'.clusters && w'.clusters[n].backups == d.backups && w'.instances == w.instances
  {
  }

  lemma RoundSwitchesOff(w: World, b: string, n: string, env: SyncEnv)
    requires Wanted(w, b, n) && b !in w.opBackups && Smooth(w, n, env)
    requires !NotSwitchedOff(w, b, n) && !Startable(w, b, n)
    ensures SwitchedOff(Round(w, b, n, env), b, n)
  {
    SyncBackupProgress(w, b, n);
    SyncSwitchesOff(w, b, n, env);
    OperatorLeavesOff(Step(w, RunSync(n, env)), b, n);
  }

  lemma OperatorLeavesOff(w: World, b: string, n: string)
    requires SwitchedOff(w, b, n)
    ensures SwitchedOff(OperatorCatchesUp(w, n), b, n)
  {
    StepKeepsSlotsOk(w, ByOperator(OperatorCluster(n, RepoNames(w.clusters[n].backups.repos), Ready)));
  }

  /** Two rounds, the first of them with a smooth Sync and the second with any, have started a wanted
      backup exactly if it was not switched off or was startable to begin with. */
  lemma ProgressIff(w: World, b: string, n: string, env: SyncEnv, env2: SyncEnv)
    requires Wanted(w, b, n) && b !in w.opBackups && Smooth(w, n, env)
    ensures b in Round(w, b, n, env).opBackups || b in Round(Round(w, b, n, env), b, n, env2).opBackups
       <==> NotSwitchedOff(w, b, n) || Startable(w, b, n)
  {
    if Startable(w, b, n) {
      StartableStarts(w, b, n, env);
    } else if NotSwitchedOff(w, b, n) {
      TwoRoundsStart(w, b, n, env, env2);
    } else {
      RoundSwitchesOff(w, b, n, env);
      RoundStaysOff(Round(w, b, n, env), b, n, env2);
    }
  }

  lemma RoundStaysOff(w: World, b: string, n: string, env: SyncEnv)
    requires SwitchedOff(w, b, n)
    ensures SwitchedOff(Round(w, b, n, env), b, n)
  {
    SyncBackupStaysOff(w, b, n);
    SyncStaysOff(w, b, n, env);
    OperatorLeavesOff(Step(w, RunSync(n, env)), b, n);
  }
}
