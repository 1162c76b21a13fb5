/** Clusters created from another Instance's repo: when they are created, that their data source
    never changes, and that it reads exactly what the source cluster wrote. */
module Seeding {
  import opened Wrappers
  import opened Text
  import opened Slots
  import opened Repos
  import opened Model
  import opened Controllers
  import opened Runs
  import opened Placement

  // ---------------------------------------------------------------- write once

  lemma ConcludeKeepsSource(w: World, n: string, d: Settings, pmm: bool, restoring: bool, fails: bool,
      bootstrap: Bootstrap, m: string)
    requires m in w.clusters
    ensures var w' := Conclude(w, n, d, pmm, restoring, fails, bootstrap).0;
            m in w'.clusters && w'.clusters[m].source == w.clusters[m].source
  {
  }

  lemma StepKeepsSource(w: World, a: Action, m: string)
    requires m in w.clusters
    ensures m in Step(w, a).clusters && Step(w, a).clusters[m].source == w.clusters[m].source
  {
    if a.RunSync? {
      if Possible(w, a) { SyncKeepsSource(w, a.n, a.env, m); }
    } else {
      OthersKeepSettings(w, a);
    }
  }

  lemma SyncKeepsSource(w: World, n: string, env: SyncEnv, m: string)
    requires n in w.instances && m in w.clusters
    ensures var w' := Sync(w, n, env).0;
            m in w'.clusters && w'.clusters[m].source == w.clusters[m].source
  {
    SyncSplits(w, n, env);
    if Reaches(w, n, env) {
      SettledKeepsSource(w, n, env, m);
    } else {
      EarlyKeepsClusters(w, n, env);
    }
  }

  lemma SettledKeepsSource(w: World, n: string, env: SyncEnv, m: string)
    requires n in w.instances && m in w.clusters && Reaches(w, n, env)
    ensures var w' := Finish(Settled(w, n, env), n, env, PMMOf(w, n, env).pmm).0;
            m in w'.clusters && w'.clusters[m].source == w.clusters[m].source
  {
    SettledPrunes(w, n, env);
    FinishKeepsSource(Settled(w, n, env), n, env, PMMOf(w, n, env).pmm, m);
  }

  lemma FinishKeepsSource(w: World, n: string, env: SyncEnv, pmm: bool, m: string)
    requires n in w.instances && m in w.clusters
    ensures var w' := Finish(w, n, env, pmm).0;
            m in w'.clusters && w'.clusters[m].source == w.clusters[m].source
  {
    ConcludeKeepsSource(w, n, DesiredSettings(w, n, env), pmm, RestoreInProgress(w, n), env.stop == BeforeApply,
        BuildBootstrap(w, n), m);
  }

  /** Whatever happens after a cluster exists, its data source stays what it was created with. */
  lemma {:induction false} SourceIsFixed(w: World, run: seq<Action>, m: string)
    requires m in w.clusters
    ensures m in Exec(w, run).clusters && Exec(w, run).clusters[m].source == w.clusters[m].source
  {
    if run != [] {
      SourceIsFixed(w, run[..|run| - 1], m);
      StepKeepsSource(Exec(w, run[..|run| - 1]), run[|run| - 1], m);
    }
  }

  // ---------------------------------------------------------------- creation

  /** The data source of the Instance names another Instance. */
  ghost predicate SeedsFromOther(w: World, n: string) {
    && n in w.instances && w.instances[n].dataSource.Some?
    && SourceInstance(w, w.instances[n].dataSource.value) != ""
         && SourceInstance(w, w.instances[n].dataSource.value) != n
  }

  ghost predicate CreatedBy(w: World, a: Action, n: string) {
    n !in w.clusters && n in Step(w, a).clusters
  }

  lemma ConcludeCreates(w: World, n: string, d: Settings, pmm: bool, restoring: bool, fails: bool, bootstrap: Bootstrap)
    requires n !in w.clusters
    ensures var w' := Conclude(w, n, d, pmm, restoring, fails, bootstrap).0;
            && (n in w'.clusters <==> !restoring && !fails && (bootstrap.FromScratch? || bootstrap.From?))
            && (n in w'.clusters ==> w'.clusters[n].source == if bootstrap.From? then Some(bootstrap.source) else None)
  {
  }

  /** Only a Sync of the Instance creates its cluster, and only once the source is ready; if the
      Instance seeds from another one, the cluster carries the data source built for it. */
  lemma CreatedFromSource(w: World, a: Action, n: string)
    requires SlotsOk(w) && CreatedBy(w, a, n)
    ensures a.RunSync? && a.n == n && Possible(w, a) && Reaches(w, n, a.env)
    ensures var bootstrap, source := BuildBootstrap(Settled(w, n, a.env), n), Step(w, a).clusters[n].source;
            && (bootstrap.FromScratch? || bootstrap.From?)
            && (SeedsFromOther(w, n) ==> bootstrap.From? && source == Some(bootstrap.source))
  {
    if a.RunSync? {
      SyncCreates(w, a.n, a.env, n);
      SeedingBootstrap(w, Settled(w, n, a.env), n);
    } else {
      OthersKeepSettings(w, a);
    }
  }

  lemma SyncCreates(w: World, m: string, env: SyncEnv, n: string)
    requires m in w.instances && SlotsOk(w) && n !in w.clusters && n in Sync(w, m, env).0.clusters
    ensures n == m && Reaches(w, n, env)
    ensures var w2 := Settled(w, n, env);
            var bootstrap := BuildBootstrap(w2, n);
            && w2.instances[n].dataSource == w.instances[n].dataSource && w2.backups == w.backups
            && (bootstrap.FromScratch? || bootstrap.From?)
            && Sync(w, m, env).0.clusters[n].source == if bootstrap.From? then Some(bootstrap.source) else None
  {
    SyncWrites(w, m, env);
    assert n == m || Get(Sync(w, m, env).0.clusters, n) == Get(w.clusters, n);
    SyncSplits(w, n, env);
    EarlyPrunes(w, n, env);
    if Reaches(w, n, env) {
      SettledFacts(w, n, env);
      FinishCreates(Settled(w, n, env), n, env, PMMOf(w, n, env).pmm);
    }
  }

  lemma FinishCreates(w: World, n: string, env: SyncEnv, pmm: bool)
    requires n in w.instances && n !in w.clusters && n in Finish(w, n, env, pmm).0.clusters
    ensures var bootstrap := BuildBootstrap(w, n);
            && (bootstrap.FromScratch? || bootstrap.From?)
            && Finish(w, n, env, pmm).0.clusters[n].source == if bootstrap.From? then Some(bootstrap.source) else None
  {
    ConcludeCreates(w, n, DesiredSettings(w, n, env), pmm, RestoreInProgress(w, n), env.stop == BeforeApply,
        BuildBootstrap(w, n));
  }

  lemma SeedingBootstrap(w: World, w2: World, n: string)
    requires n in w2.instances
    requires SeedsFromOther(w, n) ==> w2.instances[n].dataSource == w.instances[n].dataSource && w2.backups == w.backups
    ensures SeedsFromOther(w, n) ==> !BuildBootstrap(w2, n).FromScratch?
  {
  }

  /** From the moment such a cluster is created, it carries that data source for good. */
  lemma SeededForGood(w: World, a: Action, run: seq<Action>, n: string)
    requires SlotsOk(w) && CreatedBy(w, a, n) && SeedsFromOther(w, n)
    ensures var v := Exec(Step(w, a), run);
            n in v.clusters && v.clusters[n].source.Some? && v.clusters[n].source == Step(w, a).clusters[n].source
  {
    CreatedFromSource(w, a, n);
    SourceIsFixed(Step(w, a), run, n);
  }

  // ---------------------------------------------------------------- what a data source reads

  lemma SettledFacts(w: World, n: string, env: SyncEnv)
    requires n in w.instances && Reaches(w, n, env) && SlotsOk(w)
    ensures var w2 := Settled(w, n, env);
            && w2.(instances := w.instances, pmmSecrets := w.pmmSecrets) == w
            && w2.instances.Keys == w.instances.Keys
            && (forall m :: m in w.instances ==>
                  w2.instances[m].uid == w.instances[m].uid && w2.instances[m].dataSource == w.instances[m].dataSource)
  {
    PrunedOk(SetSecret(w, n, PMMOf(w, n, env).secret), n);
  }

  /** The connection of a data source built on `repo` from a storage for an Instance. */
  lemma SourceReads(repo: string, options: seq<RestoreOption>, backend: BackupStorage, uid: string)
    requires SourceOn(repo, options, backend, uid).From?
    ensures var s := SourceOn(repo, options, backend, uid).source;
            && s.repo.name == repo && backend.isS3 && backend.s3.Some?
            && ReadsAt(s, Prescribed(backend.s3.value, uid, repo))
  {
    PrescribedOptions(repo, backend.s3.value, uid);
  }

  /** The repo and the storage behind a data source. */
  lemma BootstrapSource(w: World, c: string)
    requires c in w.instances && BuildBootstrap(w, c).From?
    ensures w.instances[c].dataSource.Some?
    ensures var ds := w.instances[c].dataSource.value;
            var n, storage, source := SourceInstance(w, ds), DataSourceStorage(w, ds), BuildBootstrap(w, c).source;
            && n in w.instances && n != c && n != "" && storage.Ok? && IsUsable(w.stores, storage.value)
            && ReadsAt(source, Prescribed(w.stores[storage.value].s3.value, w.instances[n].uid, source.repo.name))
            && ResolveSource(w, c + w.seedSuffix, Restore(c, ds, RestoreUnset)) ==
                 Usable(Some(source.repo.name), source.options)
  {
    var ds := w.instances[c].dataSource.value;
    var resolved := ResolveSource(w, c + w.seedSuffix, Restore(c, ds, RestoreUnset));
    SourceReads(resolved.repo.value, resolved.options, w.stores[DataSourceStorage(w, ds).value],
        w.instances[SourceInstance(w, ds)].uid);
  }

  /** Seeding from another Instance's WAL stream: the data source names the repo that the source
      cluster archives that storage to, and reads it where the storage prescribes now; the cluster
      archives to where it prescribed when it was last configured (`before`). These are the same
      bucket, endpoint, path and options exactly if the storage still prescribes that place. */
  lemma StreamSeedReadsWhatIsWritten(w: World, c: string, before: map<string, BackupStorage>) returns (at: Connection)
    requires SlotsOk(w)
    requires c in w.instances && BuildBootstrap(w, c).From? && w.instances[c].dataSource.value.FromPointInTime?
    requires var n := SourceInstance(w, w.instances[c].dataSource.value); n in w.clusters ==> PlacedOn(w, n, before)
    ensures var source, n := BuildBootstrap(w, c).source, SourceInstance(w, w.instances[c].dataSource.value);
            var storage := w.instances[c].dataSource.value.pit.value.storage;
            && n in w.clusters && n != c && IsUsable(before, storage) && IsUsable(w.stores, storage)
            && StorageOf(w.clusters[n].slots, source.repo.name) == Some(storage)
            && LivesAt(w.clusters[n].backups, source.repo.name, at)
            && (ReadsAt(source, at) <==> SamePlace(before[storage].s3.value, w.stores[storage].s3.value))
  {
    BootstrapSource(w, c);
    var ds, source := w.instances[c].dataSource.value, BuildBootstrap(w, c).source;
    var n, storage := SourceInstance(w, ds), DataSourceStorage(w, ds).value;
    assert storage in w.clusters[n].slots && RepoName(w.clusters[n].slots[storage]) == source.repo.name;
    assert ClusterOk(w.clusters[n]);
    ReverseLookup(w.clusters[n].slots, storage);
    at := Prescribed(before[storage].s3.value, w.instances[n].uid, source.repo.name);
    SamePlaceIff(before[storage].s3.value, w.stores[storage].s3.value, w.instances[n].uid, source.repo.name);
  }
}
