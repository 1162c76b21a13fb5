/** The two-phase PMM protocol over runs: the operator never runs PMM without the token Secret it
    reads, and PMM that nobody needs any more is gone after two Syncs. */
module Monitoring {
  import opened Wrappers
  import opened Model
  import opened Controllers
  import opened Runs

  /** Wherever PMM is on, the token Secret exists. */
  ghost predicate TokenSafe(w: World) {
    forall n :: n in w.clusters && w.clusters[n].pmm ==> n in w.pmmSecrets
  }

  /** The outcome of the first applicable binding, and none without one. */
  lemma {:induction false} FirstApplicableIs(bindings: seq<Binding>, i: nat)
    requires i < |bindings| && bindings[i].applies && forall j :: 0 <= j < i ==> !bindings[j].applies
    ensures FirstApplicable(bindings) == Some(bindings[i].outcome)
  {
    if i > 0 { FirstApplicableIs(bindings[1..], i - 1); }
  }

  lemma {:induction false} NoneApplicable(bindings: seq<Binding>)
    requires forall i :: 0 <= i < |bindings| ==> !bindings[i].applies
    ensures FirstApplicable(bindings) == None
  {
    if bindings != [] { NoneApplicable(bindings[1..]); }
  }

  lemma PlanIsSafe(need: Need, bindings: seq<Binding>, live: bool, secret: bool)
    requires live ==> secret
    ensures var plan := PlanPMM(need, bindings, live, secret);
            && (live ==> plan.secret)
            && (plan.ok && plan.pmm ==> plan.secret)
  {
  }

  lemma ConcludeTokenSafe(w: World, n: string, d: Settings, pmm: bool, restoring: bool, fails: bool,
      bootstrap: Bootstrap)
    requires TokenSafe(w) && (pmm ==> n in w.pmmSecrets)
    ensures TokenSafe(Conclude(w, n, d, pmm, restoring, fails, bootstrap).0)
  {
  }

  /** Rendering, holding, failing to render, disabling and skipping the write: none of them leaves
      PMM on without its token, whatever stops the call half-way. */
  lemma SyncTokenSafe(w: World, n: string, env: SyncEnv)
    requires n in w.instances && TokenSafe(w)
    ensures TokenSafe(Sync(w, n, env).0)
  {
    SyncSplits(w, n, env);
    if Reaches(w, n, env) {
      SettledTokenSafe(w, n, env);
    } else {
      EarlyTokenSafe(w, n, env);
    }
  }

  lemma EarlyTokenSafe(w: World, n: string, env: SyncEnv)
    requires n in w.instances && TokenSafe(w)
    ensures TokenSafe(Early(w, n, env))
  {
    PlanIsSafe(env.need, env.bindings, n in w.clusters && w.clusters[n].pmm, n in w.pmmSecrets);
    SecretTokenSafe(w, n, PMMOf(w, n, env).secret);
  }

  lemma SettledTokenSafe(w: World, n: string, env: SyncEnv)
    requires n in w.instances && TokenSafe(w) && Reaches(w, n, env)
    ensures TokenSafe(Finish(Settled(w, n, env), n, env, PMMOf(w, n, env).pmm).0)
  {
    PlanIsSafe(env.need, env.bindings, n in w.clusters && w.clusters[n].pmm, n in w.pmmSecrets);
    SecretTokenSafe(w, n, PMMOf(w, n, env).secret);
    FinishTokenSafe(Settled(w, n, env), n, env, PMMOf(w, n, env).pmm);
  }

  lemma SecretTokenSafe(w: World, n: string, secret: bool)
    requires TokenSafe(w) && (n in w.clusters && w.clusters[n].pmm ==> secret)
    ensures TokenSafe(SetSecret(w, n, secret))
  {
  }

  lemma FinishTokenSafe(w: World, n: string, env: SyncEnv, pmm: bool)
    requires n in w.instances && TokenSafe(w) && (pmm ==> n in w.pmmSecrets)
    ensures TokenSafe(Finish(w, n, env, pmm).0)
  {
    ConcludeTokenSafe(w, n, DesiredSettings(w, n, env), pmm, RestoreInProgress(w, n), env.stop == BeforeApply,
        BuildBootstrap(w, n));
  }

  lemma StepTokenSafe(w: World, a: Action)
    requires TokenSafe(w)
    ensures TokenSafe(Step(w, a))
  {
    if a.RunSync? {
      if Possible(w, a) { SyncTokenSafe(w, a.n, a.env); }
    } else {
      OthersKeepSettings(w, a);
    }
  }

  lemma {:induction false} RunTokenSafe(w: World, run: seq<Action>)
    requires TokenSafe(w)
    ensures TokenSafe(Exec(w, run))
  {
    if run != [] {
      RunTokenSafe(w, run[..|run| - 1]);
      StepTokenSafe(Exec(w, run[..|run| - 1]), run[|run| - 1]);
    }
  }

  lemma SyncPMM(w: World, n: string, env: SyncEnv)
    requires n in w.instances
    ensures var (w', r) := Sync(w, n, env);
            && (r.Applied? ==> n in w'.clusters && w'.clusters[n].pmm == PMMOf(w, n, env).pmm)
            && (!r.Applied? ==> w'.clusters == w.clusters)
            && (env.stop != BeforePMM ==> (n in w'.pmmSecrets <==> PMMOf(w, n, env).secret))
  {
    SyncSplits(w, n, env);
    if Reaches(w, n, env) {
      SettledPMM(w, n, env);
    } else {
      EarlyPMM(w, n, env);
    }
  }

  lemma EarlyPMM(w: World, n: string, env: SyncEnv)
    requires n in w.instances
    ensures Early(w, n, env).clusters == w.clusters
    ensures env.stop != BeforePMM ==> (n in Early(w, n, env).pmmSecrets <==> PMMOf(w, n, env).secret)
  {
    EarlyKeepsClusters(w, n, env);
  }

  lemma SettledPMM(w: World, n: string, env: SyncEnv)
    requires n in w.instances && Reaches(w, n, env)
    ensures var (w', r) := Finish(Settled(w, n, env), n, env, PMMOf(w, n, env).pmm);
            && (r.Applied? ==> n in w'.clusters && w'.clusters[n].pmm == PMMOf(w, n, env).pmm)
            && (!r.Applied? ==> w'.clusters == w.clusters)
            && (n in w'.pmmSecrets <==> PMMOf(w, n, env).secret)
  {
    FinishPMM(Settled(w, n, env), n, env, PMMOf(w, n, env).pmm);
  }

  lemma FinishPMM(w: World, n: string, env: SyncEnv, pmm: bool)
    requires n in w.instances
    ensures var (w', r) := Finish(w, n, env, pmm);
            && w'.pmmSecrets == w.pmmSecrets
            && (r.Applied? ==> n in w'.clusters && w'.clusters[n].pmm == pmm)
            && (!r.Applied? ==> w'.clusters == w.clusters)
  {
    ConcludePMM(w, n, DesiredSettings(w, n, env), pmm, RestoreInProgress(w, n), env.stop == BeforeApply,
        BuildBootstrap(w, n));
  }

  /** What an applied Sync leaves: PMM is on exactly if it is not dispensed with and either ran before
      or has just been rendered; the Secret goes only when PMM is neither needed nor running. */
  lemma AppliedPMM(w: World, n: string, env: SyncEnv)
    requires n in w.instances && Sync(w, n, env).1.Applied?
    ensures var w' := Sync(w, n, env).0;
            var ran := n in w.clusters && w.clusters[n].pmm;
            var rendered := env.need == Required && FirstApplicable(env.bindings) == Some(Rendered);
            && n in w'.clusters
            && (w'.clusters[n].pmm <==> env.need != NotRequired && (ran || rendered))
            && (n in w'.pmmSecrets <==> rendered || (n in w.pmmSecrets && (env.need == NotRequired ==> ran)))
  {
    SyncPMM(w, n, env);
    SyncSplits(w, n, env);
  }

  /** The token Secret after a Sync that got to PMM at all, however it ended: there if it has just been
      rendered, or was there and PMM is needed, undecided or still running. */
  lemma SecretAfterSync(w: World, n: string, env: SyncEnv)
    requires n in w.instances
    ensures var secret := n in Sync(w, n, env).0.pmmSecrets;
            if env.stop == BeforePMM then secret == (n in w.pmmSecrets)
            else
              var ran := n in w.clusters && w.clusters[n].pmm;
              var rendered := env.need == Required && FirstApplicable(env.bindings) == Some(Rendered);
              secret == (rendered || (n in w.pmmSecrets && (env.need == NotRequired ==> ran)))
  {
    SyncPMM(w, n, env);
    SyncSplits(w, n, env);
  }

  lemma ConcludePMM(w: World, n: string, d: Settings, pmm: bool, restoring: bool, fails: bool, bootstrap: Bootstrap)
    ensures var (w', r) := Conclude(w, n, d, pmm, restoring, fails, bootstrap);
            && w'.pmmSecrets == w.pmmSecrets
            && (r.Applied? ==> n in w'.clusters && w'.clusters[n].pmm == pmm)
            && (!r.Applied? ==> w'.clusters == w.clusters)
  {
  }

  /** One Sync that applies the cluster while PMM is not required switches it off; the next such
      Sync, applied or not, removes the Secret, and PMM stays off. */
  lemma TwoSyncsSwitchOff(w: World, n: string, first: SyncEnv, second: SyncEnv)
    requires n in w.instances && n in Sync(w, n, first).0.instances
    requires first.need == NotRequired && second.need == NotRequired && second.stop != BeforePMM
    requires Sync(w, n, first).1.Applied?
    ensures var w' := Sync(Sync(w, n, first).0, n, second).0;
            n in w'.clusters && !w'.clusters[n].pmm && n !in w'.pmmSecrets
  {
    SyncPMM(w, n, first);
    SyncPMM(Sync(w, n, first).0, n, second);
  }
}
