/** What controllers take from one another over runs: Mirror and SyncBackup never feed each other,
    and a restore never crosses from one Instance to another. */
module Isolation {
  import opened Wrappers
  import opened Model
  import opened Controllers
  import opened Runs
  import ScheduleNames

  // ---------------------------------------------------------------- no feedback

  /** A mirrored Backup has a schedule name; an operator backup nobody owns has a name. */
  ghost predicate MirrorsNamed(w: World) {
    && (forall b :: b in w.backups && w.backups[b].mirrored ==> w.backups[b].scheduleName != "")
    && (forall o :: o in w.opBackups && !w.opBackups[o].owned ==> o != "")
  }

  lemma MirrorIsNamed(w: World, o: string, found: Option<string>)
    requires o in w.opBackups && MirrorsNamed(w)
    ensures var mirrored := Mirror(w, o, found);
            mirrored.Some? ==> mirrored.value.mirrored && mirrored.value.scheduleName != ""
  {
    if Mirror(w, o, found).Some? {
      ScheduleNames.DerivedName(o, w.opBackups[o].cluster, w.opBackups[o].repo.value);
    }
  }

  /** SyncBackup writes Instances and the operator backup of its own name, nothing else. */
  ghost predicate OnlyBackup(w: World, w': World, b: string) {
    && w'.(instances := w.instances, opBackups := w.opBackups) == w
    && forall o :: o != b ==> Get(w'.opBackups, o) == Get(w.opBackups, o)
  }

  lemma StartChanges(w: World, b: string, n: string)
    requires b in w.backups && n in w.instances && b !in w.opBackups
    ensures var w' := StartBackup(w, b, n).0;
            && OnlyBackup(w, w', b)
            && (b in w'.opBackups ==> exists repo :: w'.opBackups[b] == NewOpBackup(n, repo))
  {
    var start := StartBackup(w, b, n);
    if n in w.clusters {
      var repo := RepoOnInstance(w.instances[n], w.clusters[n].slots, w.backups[b].storage);
      if repo.None? {
        assert start == Register(w, n, AutoRegister(w, n, w.backups[b].storage));
      } else if Lacks(w.clusters[n], repo.value).None? {
        assert start.0.opBackups[b] == NewOpBackup(n, repo.value);
      }
    }
  }

  lemma SyncBackupChanges(w: World, b: string, n: string)
    requires b in w.backups && n in w.instances
    ensures var w' := SyncBackup(w, b, n).0;
            && OnlyBackup(w, w', b)
            && (b in w.opBackups ==>
                  b in w'.opBackups && w'.opBackups[b].(owned := true) == w.opBackups[b].(owned := true))
            && (b in w.opBackups && w.opBackups[b].owned ==> w'.opBackups[b].owned)
            && (b !in w.opBackups && b in w'.opBackups ==>
                  w.backups[b].scheduleName == "" && exists repo :: w'.opBackups[b] == NewOpBackup(n, repo))
  {
    if b !in w.opBackups { StartChanges(w, b, n); }
  }

  /** Sync writes its own Instance, its own cluster and its own Secret, nothing else. */
  lemma SyncChanges(w: World, n: string, env: SyncEnv)
    requires n in w.instances
    ensures Sync(w, n, env).0.(instances := w.instances, clusters := w.clusters, pmmSecrets := w.pmmSecrets) == w
  {
    SyncWrites(w, n, env);
  }

  predicate EditsOrigin(u: UserAction, b: string) { u.EditOrigin? && u.b == b }

  predicate EditsStorage(u: UserAction, b: string) { u.EditStorage? && u.b == b }

  predicate EditsScheduleName(u: UserAction, b: string) { u.EditScheduleName? && u.b == b }

  /** What a user's step does to the Backups: the edited field of the edited one changes, and no new
      one is a mirrored one. */
  ghost predicate BackupsAfter(w: World, w': World, u: UserAction) {
    forall b :: b in w'.backups ==>
      if b in w.backups then
        && w'.backups[b].mirrored == w.backups[b].mirrored
        && (w'.backups[b].origin == w.backups[b].origin || EditsOrigin(u, b))
        && (w'.backups[b].storage == w.backups[b].storage || EditsStorage(u, b))
        && (w'.backups[b].scheduleName == w.backups[b].scheduleName
            || (EditsScheduleName(u, b) && w'.backups[b].scheduleName == u.scheduleName))
      else u.CreateBackup? && u.b == b && !w'.backups[b].mirrored
  }

  lemma UserBackups(w: World, u: UserAction)
    requires UserMay(w, u)
    ensures BackupsAfter(w, UserEffect(w, u), u)
  {
  }

  /** What the operator's step does to its backups: cluster, repo and owner stay. */
  ghost predicate OpBackupsAfter(w: World, w': World, o: OperatorAction) {
    forall b :: b in w'.opBackups ==>
      if b in w.opBackups then
        && w'.opBackups[b].cluster == w.opBackups[b].cluster && w'.opBackups[b].repo == w.opBackups[b].repo
        && w'.opBackups[b].owned == w.opBackups[b].owned
      else o.OperatorBackup? && o.o == b && b != ""
  }

  lemma OperatorBackups(w: World, o: OperatorAction)
    requires OperatorMay(w, o)
    ensures OpBackupsAfter(w, OperatorEffect(w, o), o)
  {
  }

  /** A user empties the schedule name of a Backup that Mirror made. */
  predicate ClearsName(w: World, a: Action) {
    a.ByUser? && a.user.EditScheduleName? && a.user.scheduleName == "" && a.user.b in w.backups
        && w.backups[a.user.b].mirrored
  }

  lemma StepMirrorsNamed(w: World, a: Action)
    requires MirrorsNamed(w) && !ClearsName(w, a)
    ensures MirrorsNamed(Step(w, a))
  {
    if Possible(w, a) {
      match a {
        case ByUser(u) => UserMirrorsNamed(w, u);
        case ByOperator(o) => OperatorMirrorsNamed(w, o);
        case RunSyncRestore(r) => SyncRestoreLeaves(w, r);
        case RunSync(n, env) => SyncChanges(w, n, env);
        case RunSyncBackup(b) =>
          SyncBackupChanges(w, b, w.backups[b].origin.value);
          SyncBackupMirrorsNamed(w, SyncBackup(w, b, w.backups[b].origin.value).0, b);
        case RunMirror(o, found) =>
          MirrorIsNamed(w, o, found);
          AddingMirrorsNamed(w, o, Mirror(w, o, found));
      }
    }
  }

  lemma UserMirrorsNamed(w: World, u: UserAction)
    requires MirrorsNamed(w) && UserMay(w, u) && !ClearsName(w, ByUser(u))
    ensures MirrorsNamed(UserEffect(w, u))
  {
    UserLeaves(w, u);
    UserBackups(w, u);
  }

  lemma OperatorMirrorsNamed(w: World, o: OperatorAction)
    requires MirrorsNamed(w) && OperatorMay(w, o)
    ensures MirrorsNamed(OperatorEffect(w, o))
  {
    OperatorLeaves(w, o);
    OperatorBackups(w, o);
  }

  lemma AddingMirrorsNamed(w: World, o: string, mirrored: Option<Backup>)
    requires MirrorsNamed(w) && (mirrored.Some? ==> mirrored.value.scheduleName != "")
    ensures MirrorsNamed(AddMirrored(w, o, mirrored))
  {
  }

  lemma SyncBackupMirrorsNamed(w: World, w': World, b: string)
    requires MirrorsNamed(w) && w'.backups == w.backups
    requires forall o :: o != b ==> Get(w'.opBackups, o) == Get(w.opBackups, o)
    requires b in w'.opBackups && !w'.opBackups[b].owned ==> b in w.opBackups && !w.opBackups[b].owned
    ensures MirrorsNamed(w')
  {
    forall o | o in w'.opBackups && !w'.opBackups[o].owned ensures o != "" {
      assert Get(w'.opBackups, o) == Get(w.opBackups, o) || o == b;
    }
  }

  ghost predicate KeepsNames(w: World, run: seq<Action>) {
    forall k :: 0 <= k < |run| ==> !ClearsName(Exec(w, run[..k]), run[k])
  }

  lemma {:induction false} RunMirrorsNamed(w: World, run: seq<Action>)
    requires MirrorsNamed(w) && KeepsNames(w, run)
    ensures MirrorsNamed(Exec(w, run))
  {
    if run != [] {
      var init := run[..|run| - 1];
      forall k | 0 <= k < |init| ensures !ClearsName(Exec(w, init[..k]), init[k]) {
        assert init[..k] == run[..k];
      }
      RunMirrorsNamed(w, init);
      StepMirrorsNamed(Exec(w, init), run[|run| - 1]);
    }
  }

  /** In every run in which nobody empties a mirrored Backup's schedule name, syncing a Backup that
      Mirror made changes nothing: it starts no operator backup and takes none over. */
  lemma MirroredStartsNothing(start: World, run: seq<Action>, b: string)
    requires Initial(start) && KeepsNames(start, run)
    requires var w := Exec(start, run); b in w.backups && w.backups[b].mirrored
    ensures Step(Exec(start, run), RunSyncBackup(b)) == Exec(start, run)
  {
    RunMirrorsNamed(start, run);
    NamedStartsNothing(Exec(start, run), b);
  }

  lemma NamedStartsNothing(w: World, b: string)
    requires b in w.backups && w.backups[b].scheduleName != ""
    ensures Step(w, RunSyncBackup(b)) == w
  {
  }

  /** SyncBackup leaves an operator backup that nobody owns alone exactly as long as the Backup of its
      name has a schedule name: the name is all that keeps the two controllers apart. */
  lemma LeftAloneIff(w: World, b: string)
    requires Possible(w, RunSyncBackup(b)) && b in w.opBackups && !w.opBackups[b].owned
    ensures Step(w, RunSyncBackup(b)) == w <==> w.backups[b].scheduleName != ""
  {
    if w.backups[b].scheduleName == "" {
      assert Step(w, RunSyncBackup(b)).opBackups[b].owned;
    }
  }

  ghost predicate Stays(w: World, run: seq<Action>, o: string) {
    forall k :: 0 <= k <= |run| ==> o in Exec(w, run[..k]).opBackups
  }

  lemma StepKeepsOwner(w: World, a: Action, o: string)
    requires o in w.opBackups && w.opBackups[o].owned && o in Step(w, a).opBackups
    ensures Step(w, a).opBackups[o].owned
  {
    if Possible(w, a) {
      match a {
        case ByUser(u) => UserLeaves(w, u);
        case ByOperator(p) => OperatorBackups(w, p);
        case RunSync(n, env) => SyncChanges(w, n, env);
        case RunSyncBackup(b) =>
          SyncBackupChanges(w, b, w.backups[b].origin.value);
          assert Get(Step(w, a).opBackups, o) == Get(w.opBackups, o) || o == b;
        case RunSyncRestore(r) => SyncRestoreLeaves(w, r);
        case RunMirror(_, _) =>
      }
    }
  }

  lemma {:induction false} OwnerStays(w: World, run: seq<Action>, o: string)
    requires o in w.opBackups && w.opBackups[o].owned && Stays(w, run, o)
    ensures o in Exec(w, run).opBackups && Exec(w, run).opBackups[o].owned
  {
    if run != [] {
      var init := run[..|run| - 1];
      forall k | 0 <= k <= |init| ensures o in Exec(w, init[..k]).opBackups {
        assert init[..k] == run[..k];
      }
      OwnerStays(w, init, o);
      assert run[..|run|] == run;
      StepKeepsOwner(Exec(w, init), run[|run| - 1], o);
    }
  }

  /** An operator backup that SyncBackup started is never mirrored, for as long as it exists. */
  lemma StartedIsNeverMirrored(w: World, b: string, run: seq<Action>, found: Option<string>)
    requires Possible(w, RunSyncBackup(b)) && b !in w.opBackups && b in Step(w, RunSyncBackup(b)).opBackups
    requires Stays(Step(w, RunSyncBackup(b)), run, b)
    ensures var v := Exec(Step(w, RunSyncBackup(b)), run);
            b in v.opBackups && Mirror(v, b, found).None?
  {
    SyncBackupChanges(w, b, w.backups[b].origin.value);
    OwnerStays(Step(w, RunSyncBackup(b)), run, b);
  }

  // ---------------------------------------------------------------- restores stay at home

  /** Where the data of a restore comes from, by its own description. */
  ghost predicate ReadsFrom(w: World, restore: Restore, instance: string) {
    match restore.source
    case FromBackup(Some(b)) => b in w.backups && w.backups[b].origin == Some(instance)
    case FromPointInTime(Some(pit)) => pit.source == Some(instance)
        || (pit.source.None? && instance == restore.instance)
    case _ => false
  }

  /** SyncRestore creates the operator restore of this Restore. */
  ghost predicate Creates(w: World, r: string) {
    Possible(w, RunSyncRestore(r)) && r !in w.opRestores && r in Step(w, RunSyncRestore(r)).opRestores
  }

  /** The options of a restore from this operator backup: pinned to its set once that is known, and
      stopping right after it. */
  function PinnedTo(op: OpBackup): seq<RestoreOption> {
    if op.setName == "" then [Immediate] else [Set(op.setName), Immediate]
  }

  /** How far a restore replays the stream: to its end, or to the time asked for. */
  function UpTo(target: Target): seq<RestoreOption> {
    match target
    case Latest => []
    case Date(at) => if at.Some? then [TimeTarget(at.value)] else []
  }

  /** An operator restore as it has to be: for the cluster of the Instance the backup or the WAL stream
      belongs to, from the repo and the very set of that backup, or from a live repo of that cluster
      and up to the target. */
  ghost predicate StaysHome(w: World, restore: Restore, created: OpRestore) {
    && created.cluster == restore.instance && ReadsFrom(w, restore, created.cluster)
    && match restore.source
       case FromBackup(Some(b)) =>
         b in w.opBackups && created.repo == w.opBackups[b].repo && created.options == PinnedTo(w.opBackups[b])
       case FromPointInTime(Some(pit)) =>
         && created.cluster in w.clusters && created.repo.Some?
         && HasRepo(w.clusters[created.cluster], created.repo.value) && created.options == UpTo(pit.target)
       case _ => false
  }

  /** Every operator restore that a call creates is one. */
  lemma RestoreStaysHome(w: World, r: string)
    requires Creates(w, r)
    ensures StaysHome(w, w.restores[r], Step(w, RunSyncRestore(r)).opRestores[r])
  {
    CreatesFromUsable(w, r);
    match w.restores[r].source {
      case FromBackup(backup) => UsableBackup(w, r, w.restores[r], backup);
      case FromPointInTime(at) => UsableStream(w, r, w.restores[r], at);
      case OtherSource =>
    }
  }

  lemma CreatesFromUsable(w: World, r: string)
    requires Creates(w, r)
    ensures var restore, created := w.restores[r], Step(w, RunSyncRestore(r)).opRestores[r];
            && ResolveSource(w, r, restore) == Usable(created.repo, created.options)
            && created.cluster == restore.instance
            && (IsSeeding(w, restore.instance, r) ==> SourceInstance(w, restore.source) == restore.instance)
  {
  }

  lemma UsableBackup(w: World, name: string, restore: Restore, backup: Option<string>)
    requires ResolveBackupSource(w, name, restore, backup).Usable?
    ensures backup.Some? && backup.value in w.backups && backup.value in w.opBackups
    ensures var source, b := ResolveBackupSource(w, name, restore, backup), backup.value;
            && source.repo == w.opBackups[b].repo && source.options == PinnedTo(w.opBackups[b])
            && w.backups[b].origin.Some?
            && (w.backups[b].origin.value == restore.instance || IsSeeding(w, restore.instance, name))
  {
  }

  lemma UsableStream(w: World, name: string, restore: Restore, at: Option<PointInTime>)
    requires restore.instance in w.instances && ResolvePointInTime(w, name, restore, at).Usable?
    ensures at.Some? && (Foreign(at.value, restore) ==> IsSeeding(w, restore.instance, name))
    ensures var source := ResolvePointInTime(w, name, restore, at);
            var cluster := if Foreign(at.value, restore) then at.value.source.value else restore.instance;
            && cluster in w.clusters && source.repo.Some? && HasRepo(w.clusters[cluster], source.repo.value)
            && source.options == UpTo(at.value.target)
  {
  }

  lemma OtherKeepsRestores(w: World, a: Action)
    requires !a.RunSyncRestore?
    ensures Step(w, a).opRestores == w.opRestores
  {
    if Possible(w, a) {
      match a {
        case ByUser(u) => UserLeaves(w, u);
        case ByOperator(o) => OperatorLeaves(w, o);
        case RunSync(n, env) => SyncChanges(w, n, env);
        case RunSyncBackup(b) => SyncBackupChanges(w, b, w.backups[b].origin.value);
        case RunMirror(_, _) =>
      }
    }
  }

  /** An operator restore is as it was, or has just been created. */
  lemma StepKeepsRestore(w: World, a: Action, r: string)
    requires r in Step(w, a).opRestores
    ensures if r in w.opRestores then Step(w, a).opRestores[r] == w.opRestores[r]
            else a == RunSyncRestore(r) && Creates(w, r)
  {
    if !a.RunSyncRestore? { OtherKeepsRestores(w, a); }
  }

  /** So in every run from an empty namespace every operator restore, from its creation on, is one that
      stays home, as things stood when it was created. */
  lemma {:induction false} RunRestoresStayHome(start: World, run: seq<Action>, r: string) returns (k: nat)
    requires Initial(start) && r in Exec(start, run).opRestores
    ensures k < |run| && r in Exec(start, run[..k]).restores
    ensures StaysHome(Exec(start, run[..k]), Exec(start, run[..k]).restores[r], Exec(start, run).opRestores[r])
  {
    var init := run[..|run| - 1];
    var w, a := Exec(start, init), run[|run| - 1];
    StepKeepsRestore(w, a, r);
    if r in w.opRestores {
      k := RunRestoresStayHome(start, init, r);
      assert init[..k] == run[..k];
    } else {
      k := |init|;
      assert run[..k] == init;
      RestoreStaysHome(w, r);
    }
  }

  /** Seeding from another Instance, or from one that cannot be told, creates no operator restore. */
  lemma SeedingCreatesNone(w: World, r: string)
    requires Possible(w, RunSyncRestore(r))
    requires IsSeeding(w, w.restores[r].instance, r)
    requires SourceInstance(w, w.restores[r].source) != w.restores[r].instance
    ensures Step(w, RunSyncRestore(r)) == w
  {
  }

  /** The operator backup of a Backup's name was taken on the cluster the Backup names. */
  ghost predicate OriginsMatch(w: World) {
    forall b :: b in w.backups && b in w.opBackups && w.backups[b].origin.Some? ==>
        w.opBackups[b].cluster == w.backups[b].origin.value
  }

  /** Steps that leave a Backup's origin alone and never reuse a name across the two kinds. */
  ghost predicate Careful(w: World, a: Action) {
    match a
    case ByUser(EditOrigin(_, _)) => false
    case ByUser(CreateBackup(b, _, _, _)) => b !in w.opBackups
    case ByOperator(OperatorBackup(o, _, _, _, _)) => o !in w.backups
    case _ => true
  }

  lemma StepOriginsMatch(w: World, a: Action)
    requires OriginsMatch(w) && Careful(w, a)
    ensures OriginsMatch(Step(w, a))
  {
    if Possible(w, a) {
      match a {
        case ByUser(u) => UserOriginsMatch(w, u);
        case ByOperator(o) => OperatorOriginsMatch(w, o);
        case RunSync(n, env) => SyncChanges(w, n, env);
        case RunSyncBackup(b) => SyncBackupOriginsMatch(w, b);
        case RunSyncRestore(r) => SyncRestoreLeaves(w, r);
        case RunMirror(o, found) => AddingOriginsMatch(w, o, Mirror(w, o, found));
      }
    }
  }

  lemma UserOriginsMatch(w: World, u: UserAction)
    requires OriginsMatch(w) && UserMay(w, u) && Careful(w, ByUser(u))
    ensures OriginsMatch(UserEffect(w, u))
  {
    UserLeaves(w, u);
    UserBackups(w, u);
  }

  lemma OperatorOriginsMatch(w: World, o: OperatorAction)
    requires OriginsMatch(w) && OperatorMay(w, o) && Careful(w, ByOperator(o))
    ensures OriginsMatch(OperatorEffect(w, o))
  {
    OperatorLeaves(w, o);
    OperatorBackups(w, o);
  }

  lemma SyncBackupOriginsMatch(w: World, b: string)
    requires OriginsMatch(w) && Possible(w, RunSyncBackup(b))
    ensures OriginsMatch(SyncBackup(w, b, w.backups[b].origin.value).0)
  {
    SyncBackupChanges(w, b, w.backups[b].origin.value);
    var w' := SyncBackup(w, b, w.backups[b].origin.value).0;
    forall c | c in w'.backups && c in w'.opBackups && w'.backups[c].origin.Some?
      ensures w'.opBackups[c].cluster == w'.backups[c].origin.value
    {
      assert Get(w'.opBackups, c) == Get(w.opBackups, c) || c == b;
    }
  }

  /** Mirror makes its Backup from the operator backup of that very cluster. */
  lemma AddingOriginsMatch(w: World, o: string, mirrored: Option<Backup>)
    requires OriginsMatch(w)
    requires mirrored.Some? ==> o in w.opBackups && mirrored.value.origin == Some(w.opBackups[o].cluster)
    ensures OriginsMatch(AddMirrored(w, o, mirrored))
  {
  }

  ghost predicate CarefulRun(w: World, run: seq<Action>) {
    forall k :: 0 <= k < |run| ==> Careful(Exec(w, run[..k]), run[k])
  }

  lemma {:induction false} RunOriginsMatch(w: World, run: seq<Action>)
    requires OriginsMatch(w) && CarefulRun(w, run)
    ensures OriginsMatch(Exec(w, run))
  {
    if run != [] {
      var init := run[..|run| - 1];
      forall k | 0 <= k < |init| ensures Careful(Exec(w, init[..k]), init[k]) {
        assert init[..k] == run[..k];
      }
      RunOriginsMatch(w, init);
      StepOriginsMatch(Exec(w, init), run[|run| - 1]);
    }
  }

  /** So in every careful run a restore created from a Backup reads an operator backup of the very
      cluster it writes to. */
  lemma RestoreIsolated(start: World, run: seq<Action>, r: string)
    requires Initial(start) && CarefulRun(start, run)
    requires var w := Exec(start, run);
             Creates(w, r) && w.restores[r].source.FromBackup?
    ensures var w := Exec(start, run);
            w.opBackups[w.restores[r].source.backup.value].cluster == Step(w, RunSyncRestore(r)).opRestores[r].cluster
  {
    RunOriginsMatch(start, run);
    RestoreStaysHome(Exec(start, run), r);
  }
}
