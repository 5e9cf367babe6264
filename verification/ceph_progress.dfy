/** Both Ceph orchestrations always come to an end: no run gets stuck, and none is longer than the nodes warrant. */
module CephProgress {
  import opened Options
  import opened CephJob
  import I = CephInstall
  import D = CephDestroy

  /** How far `i` is from `n`. */
  function Rest(n: nat, i: nat): nat { if i < n then n - i else 0 }

  // ---- Installation ----

  /** A bound on the steps the main goroutine and its workers still take, over `n` nodes. */
  function InstallLeft(n: nat, pc: I.PC): nat {
    match pc
    case Resolve(i) => Rest(n, i) + 8 * n + 17
    case BeginPreflight(i) => Rest(n, i) + 7 * n + 16
    case Probing => 7 * n + 15
    case MarkPreflight(i, _, _) => Rest(n, i) + 6 * n + 14
    case Launch(i) => 2 * Rest(n, i) + 4 * n + 13
    case Await => 4 * n + 12
    case MarkPackages(i, _) => Rest(n, i) + 3 * n + 11
    case Init(started) => 3 * n + (if started then 9 else 10)
    case Mon(i, started) => 3 * Rest(n, i) + (if started then 7 else 8)
    case MonWait(i) => 3 * Rest(n, i) + 6
    case Mgr(started) => if started then 5 else 6
    case MgrWait => 4
    case Health(started) => if started then 2 else 3
    case Failing(_) => 1
    case Succeeding => 1
    case Done(_, _) => 0
  }

  lemma EarlyStepsDown(cfg: I.Config, s: I.State, ok: bool)
    requires I.ValidConfig(cfg) && I.MainStep(cfg, s, ok).Some? && !s.pc.Launch? && I.Stage(s.pc) <= 1
    ensures var s', n := I.MainStep(cfg, s, ok).value, |cfg.nodes|;
            InstallLeft(n, s'.pc) < InstallLeft(n, s.pc) && s'.inFlight == s.inFlight
  {
    hide SetState, Touch;
  }

  lemma LateStepsDown(cfg: I.Config, s: I.State, ok: bool)
    requires I.ValidConfig(cfg) && I.MainStep(cfg, s, ok).Some? && I.Stage(s.pc) > 1
    ensures var s', n := I.MainStep(cfg, s, ok).value, |cfg.nodes|;
            InstallLeft(n, s'.pc) < InstallLeft(n, s.pc) && s'.inFlight == s.inFlight
  {
    hide SetState, Touch;
  }

  lemma LaunchStepsDown(cfg: I.Config, s: I.State, ok: bool)
    requires I.ValidConfig(cfg) && s.pc.Launch?
    ensures I.MainStep(cfg, s, ok).Some?
    ensures var s', n := I.MainStep(cfg, s, ok).value, |cfg.nodes|;
            InstallLeft(n, s'.pc) + |s'.inFlight| < InstallLeft(n, s.pc) + |s.inFlight|
  {
    hide SetState, Touch;
    OneMore(s.inFlight, s.pc.i);
  }

  lemma OneMore<T>(u: set<T>, i: T)
    ensures |u + {i}| <= |u| + 1
  {
    if i in u {
      assert u + {i} == u;
    }
  }

  lemma InstallStepsDown(cfg: I.Config, s: I.State, a: I.Action)
    requires I.ValidConfig(cfg) && I.Next(cfg, s, a).Some?
    ensures var s', n := I.Next(cfg, s, a).value, |cfg.nodes|;
            InstallLeft(n, s'.pc) + |s'.inFlight| < InstallLeft(n, s.pc) + |s.inFlight|
  {
    hide I.MainStep, Touch;
    match a
    case Main(ok) =>
      if s.pc.Launch? {
        LaunchStepsDown(cfg, s, ok);
      } else {
        hide InstallLeft;
        if I.Stage(s.pc) <= 1 {
          EarlyStepsDown(cfg, s, ok);
        } else {
          LateStepsDown(cfg, s, ok);
        }
      }
    case Report(probes) =>
    case Post(i, ok) =>
  }

  /** Every run of an installation over n nodes takes at most 9n + 17 steps, workers included. */
  lemma {:induction false} InstallTerminates(cfg: I.Config, s: I.State, actions: seq<I.Action>)
    requires I.ValidConfig(cfg) && I.Reaches(cfg, s, actions)
    ensures |actions| + InstallLeft(|cfg.nodes|, s.pc) + |s.inFlight| <= 9 * |cfg.nodes| + 17
    decreases |actions|
  {
    if actions != [] {
      hide I.Next, InstallLeft;
      var front := actions[..|actions| - 1];
      var s0 := I.Run(cfg, front).value;
      InstallTerminates(cfg, s0, front);
      InstallStepsDown(cfg, s0, actions[|actions| - 1]);
    }
  }

  /** As long as the job is running some goroutine can move, whatever its remote call answers. */
  lemma InstallNeverStuck(cfg: I.Config, s: I.State, actions: seq<I.Action>, ok: bool, probes: seq<Probe>)
    requires I.ValidConfig(cfg) && I.Reaches(cfg, s, actions) && s.job == JobRunning && |probes| == |cfg.nodes|
    ensures || I.Next(cfg, s, I.Main(ok)).Some? || I.Next(cfg, s, I.Report(probes)).Some?
            || exists i :: i in s.inFlight && I.Next(cfg, s, I.Post(i, ok)).Some?
  {
    I.ReachableInv(cfg, s, actions);
    hide I.Base, I.Serial, I.Run;
    if s.pc.Await? && s.inFlight != {} {
      var i :| i in s.inFlight;
      assert I.Next(cfg, s, I.Post(i, ok)).Some?;
    }
  }

  ghost predicate Favourable(a: I.Action) {
    match a
    case Main(ok) => ok
    case Report(probes) => MayProceed(probes)
    case Post(_, ok) => ok
  }

  ghost predicate Healthy(s: I.State) {
    && !s.pc.Failing? && (s.pc.Done? ==> s.pc.ok) && (s.pc.MarkPreflight? ==> s.pc.go) && (s.pc.MarkPackages? ==> !s.pc.anyFailed)
    && (forall h :: h in s.results ==> s.results[h])
  }

  lemma StaysHealthy(s: I.State, cfg: I.Config, a: I.Action)
    requires I.ValidConfig(cfg) && Healthy(s) && Favourable(a) && I.Next(cfg, s, a).Some?
    ensures Healthy(I.Next(cfg, s, a).value)
  {
    hide SetState, Touch, MayProceed;
  }

  /** A job fails only if a remote call or the preflight failed. */
  lemma {:induction false} FailsOnlyOnFailure(cfg: I.Config, s: I.State, actions: seq<I.Action>)
    requires I.ValidConfig(cfg) && I.Reaches(cfg, s, actions) && forall a :: a in actions ==> Favourable(a)
    ensures Healthy(s) && s.job != JobFailed
    decreases |actions|
  {
    I.ReachableInv(cfg, s, actions);
    if actions != [] {
      hide I.Inv, I.Next, Favourable;
      var front, last := actions[..|actions| - 1], actions[|actions| - 1];
      assert actions == front + [last];
      var s0 := I.Run(cfg, front).value;
      FailsOnlyOnFailure(cfg, s0, front);
      StaysHealthy(s0, cfg, last);
      HealthyJob(cfg, s);
    }
  }

  lemma HealthyJob(cfg: I.Config, s: I.State)
    requires I.ValidConfig(cfg) && I.Inv(cfg, s) && Healthy(s)
    ensures s.job != JobFailed
  {
  }

  /** One more favourable step, as long as the job is running. */
  lemma FavourableStep(cfg: I.Config, s: I.State, actions: seq<I.Action>, probes: seq<Probe>) returns (a: I.Action)
    requires I.ValidConfig(cfg) && I.Reaches(cfg, s, actions) && s.job == JobRunning
    requires |probes| == |cfg.nodes| && MayProceed(probes)
    ensures Favourable(a) && I.Next(cfg, s, a).Some?
  {
    InstallNeverStuck(cfg, s, actions, true, probes);
    hide I.Next, I.Reaches, MayProceed;
    if I.Next(cfg, s, I.Main(true)).Some? {
      a := I.Main(true);
    } else if I.Next(cfg, s, I.Report(probes)).Some? {
      a := I.Report(probes);
    } else {
      var i :| i in s.inFlight && I.Next(cfg, s, I.Post(i, true)).Some?;
      a := I.Post(i, true);
    }
  }

  lemma Extends(cfg: I.Config, s: I.State, actions: seq<I.Action>, a: I.Action)
    requires I.ValidConfig(cfg) && I.Reaches(cfg, s, actions) && I.Next(cfg, s, a).Some?
    ensures I.Reaches(cfg, I.Next(cfg, s, a).value, actions + [a])
  {
    hide I.Next;
    assert (actions + [a])[..|actions|] == actions;
  }

  lemma Finishes(cfg: I.Config, s: I.State, actions: seq<I.Action>, probes: seq<Probe>) returns (s': I.State, actions': seq<I.Action>)
    requires I.ValidConfig(cfg) && I.Reaches(cfg, s, actions) && forall a :: a in actions ==> Favourable(a)
    requires |probes| == |cfg.nodes| && MayProceed(probes)
    ensures I.Reaches(cfg, s', actions') && s'.job == JobSucceeded
    decreases 9 * |cfg.nodes| + 17 - |actions|
  {
    InstallTerminates(cfg, s, actions);
    FailsOnlyOnFailure(cfg, s, actions);
    hide I.Next, I.Reaches, MayProceed, Healthy, InstallLeft;
    if s.job == JobSucceeded {
      return s, actions;
    }
    var a := FavourableStep(cfg, s, actions, probes);
    Extends(cfg, s, actions, a);
    InstallTerminates(cfg, I.Next(cfg, s, a).value, actions + [a]);
    s', actions' := Finishes(cfg, I.Next(cfg, s, a).value, actions + [a], probes);
  }

  /** Over any list of nodes some run of the installation succeeds. */
  lemma SomeRunSucceeds(cfg: I.Config) returns (s: I.State, actions: seq<I.Action>)
    requires I.ValidConfig(cfg)
    ensures I.Reaches(cfg, s, actions) && s.job == JobSucceeded
  {
    var probes := seq(|cfg.nodes|, i => Reached("8", false));
    assert MayProceed(probes);
    hide MayProceed;
    s, actions := Finishes(cfg, I.InitState(cfg), [], probes);
  }

  /** With a repeated node, or a founder reporting another name, an installation does succeed with a seeded step still pending. */
  lemma SucceedsWithPendingStep(cfg: I.Config) returns (s: I.State, actions: seq<I.Action>, r: nat)
    requires I.ValidConfig(cfg) && !I.WellNamed(cfg)
    ensures I.Reaches(cfg, s, actions) && s.job == JobSucceeded
    ensures r < |I.Seed(cfg.nodes)| && r < |s.steps| && s.steps[r].state == Pending
  {
    s, actions := SomeRunSucceeds(cfg);
    I.PendingWhenIllNamed(cfg, s, actions);
    r :| r < |I.Seed(cfg.nodes)| && r < |s.steps| && s.steps[r].state == Pending;
  }

  // ---- Destruction ----

  function DestroyLeft(n: nat, pc: D.PC): nat {
    match pc
    case Phase(k, started) => 2 * Rest(D.PHASES, k) + 2 * n + (if started then 2 else 3)
    case Launch(i) => 2 * Rest(n, i) + 3
    case Await => 2
    case Finalize => 1
    case Done => 0
  }

  /** Main steps other than a launch move on without touching the purges in flight. */
  lemma DestroyMainDown(cfg: D.Config, o: D.Outcomes, s: D.State)
    requires D.Next(cfg, o, s, D.Main).Some? && !(s.pc.Launch? && s.pc.i < |cfg.launch|)
    ensures var s', n := D.Next(cfg, o, s, D.Main).value, |cfg.launch|;
            DestroyLeft(n, s'.pc) < DestroyLeft(n, s.pc) && s'.inFlight == s.inFlight
  {
    hide SetState, FinalJob, D.ClusterPhases, D.PhaseResult;
  }

  lemma DestroyLaunchDown(cfg: D.Config, o: D.Outcomes, s: D.State)
    requires s.pc.Launch? && s.pc.i < |cfg.launch| && D.Next(cfg, o, s, D.Main).Some?
    ensures var s', n := D.Next(cfg, o, s, D.Main).value, |cfg.launch|;
            DestroyLeft(n, s'.pc) == DestroyLeft(n, s.pc) - 2 && |s'.inFlight| <= |s.inFlight| + 1
  {
    hide SetState, FinalJob, D.ClusterPhases, D.PhaseResult;
    OneMore(s.inFlight, cfg.launch[s.pc.i]);
  }

  lemma DestroyFinishDown(cfg: D.Config, o: D.Outcomes, s: D.State, h: string)
    requires D.Next(cfg, o, s, D.Finish(h)).Some?
    ensures var s' := D.Next(cfg, o, s, D.Finish(h)).value; s'.pc == s.pc && |s'.inFlight| == |s.inFlight| - 1
  {
    hide SetState;
  }

  lemma DestroyStepsDown(cfg: D.Config, o: D.Outcomes, s: D.State, a: D.Action)
    requires D.Next(cfg, o, s, a).Some?
    ensures var s', n := D.Next(cfg, o, s, a).value, |cfg.launch|;
            DestroyLeft(n, s'.pc) + |s'.inFlight| < DestroyLeft(n, s.pc) + |s.inFlight|
  {
    hide D.Next, DestroyLeft;
    match a
    case Finish(h) => DestroyFinishDown(cfg, o, s, h);
    case Main =>
      if s.pc.Launch? && s.pc.i < |cfg.launch| {
        DestroyLaunchDown(cfg, o, s);
      } else {
        DestroyMainDown(cfg, o, s);
      }
  }

  /** Every run of a destruction over n nodes takes at most 2n + 19 steps, whatever fails. */
  lemma {:induction false} DestroyTerminates(cfg: D.Config, o: D.Outcomes, actions: seq<D.Action>)
    requires D.ValidConfig(cfg) && D.Run(cfg, o, actions).Some?
    ensures var s := D.Run(cfg, o, actions).value;
            |actions| + DestroyLeft(|cfg.launch|, s.pc) + |s.inFlight| <= 2 * |cfg.launch| + 19
    decreases |actions|
  {
    if actions != [] {
      hide D.Next, DestroyLeft;
      var front := actions[..|actions| - 1];
      DestroyTerminates(cfg, o, front);
      DestroyStepsDown(cfg, o, D.Run(cfg, o, front).value, actions[|actions| - 1]);
    }
  }

  /** Until the job is finished some goroutine can move. */
  lemma DestroyNeverStuck(cfg: D.Config, o: D.Outcomes, actions: seq<D.Action>)
    requires D.ValidConfig(cfg) && D.Run(cfg, o, actions).Some? && D.Run(cfg, o, actions).value.pc != D.Done
    ensures var s := D.Run(cfg, o, actions).value;
            D.Next(cfg, o, s, D.Main).Some? || exists h :: h in s.inFlight && D.Next(cfg, o, s, D.Finish(h)).Some?
  {
    D.RunInv(cfg, o, actions);
    hide D.Run;
    var s := D.Run(cfg, o, actions).value;
    if s.pc.Await? && s.inFlight != {} {
      var h :| h in s.inFlight;
      assert D.Next(cfg, o, s, D.Finish(h)).Some?;
    }
  }

  lemma DestroyContinues(cfg: D.Config, o: D.Outcomes, actions: seq<D.Action>) returns (more: seq<D.Action>)
    requires D.ValidConfig(cfg) && D.Run(cfg, o, actions).Some?
    ensures D.Run(cfg, o, more).Some? && D.Run(cfg, o, more).value.pc == D.Done
    decreases 2 * |cfg.launch| + 19 - |actions|
  {
    DestroyTerminates(cfg, o, actions);
    hide D.Next, DestroyLeft;
    var s := D.Run(cfg, o, actions).value;
    if s.pc == D.Done {
      return actions;
    }
    DestroyNeverStuck(cfg, o, actions);
    var a := D.Main;
    if D.Next(cfg, o, s, D.Main).None? {
      var h :| h in s.inFlight && D.Next(cfg, o, s, D.Finish(h)).Some?;
      a := D.Finish(h);
    }
    assert (actions + [a])[..|actions|] == actions;
    DestroyTerminates(cfg, o, actions + [a]);
    more := DestroyContinues(cfg, o, actions + [a]);
  }

  /** Whatever the outcomes, some run of the destruction reaches its end. */
  lemma DestroyFinishes(cfg: D.Config, o: D.Outcomes) returns (actions: seq<D.Action>)
    requires D.ValidConfig(cfg)
    ensures D.Run(cfg, o, actions).Some? && D.Run(cfg, o, actions).value.pc == D.Done
  {
    actions := DestroyContinues(cfg, o, []);
  }
}
