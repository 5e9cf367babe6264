/** What failing calls do to an installation: which run succeeds, where a failure shows, and that nothing follows it. */
module CephFailures {
  import opened Options
  import opened Seqs
  import opened CephJob
  import opened CephInstall

  // ---- The calls of a run and their answers ----

  /** The host and phase a call of the main goroutine is about, if it makes one here. */
  ghost function CallAt(cfg: Config, pc: PC): Option<(string, Phase)>
    requires ValidConfig(cfg)
  {
    var ns := cfg.nodes;
    match pc
    case Resolve(i) => if i < |ns| then Some((ns[i], InstallPreflight)) else None
    case Init(started) => if started then Some((cfg.founderName, CephInit)) else None
    case Mon(i, started) => if started && i < |ns| then Some((ns[i], CreateMON)) else None
    case MonWait(i) => if i < |ns| then Some((ns[i], CreateMON)) else None
    case Mgr(started) => if started then Some((ns[0], CreateMGR)) else None
    case MgrWait => Some((ns[0], CreateMGR))
    case Health(started) => if started then Some(("", WaitHealthy)) else None
    case _ => None
  }

  /** The call that failed first in a run, if one did. */
  ghost function FailedCall(cfg: Config, actions: seq<Action>): Option<(string, Phase)>
    requires ValidConfig(cfg) && Run(cfg, actions).Some?
  {
    if actions == [] then None else
    var front, last := actions[..|actions| - 1], actions[|actions| - 1];
    if FailedCall(cfg, front).Some? then FailedCall(cfg, front)
    else if last.Main? && !last.ok then CallAt(cfg, Run(cfg, front).value.pc)
    else None
  }

  /** What the preflight probes answered, once they did. */
  ghost function Probed(actions: seq<Action>): Option<seq<Probe>> {
    if actions == [] then None
    else if actions[|actions| - 1].Report? then Some(actions[|actions| - 1].probes)
    else Probed(actions[..|actions| - 1])
  }

  /** How the last package installation on a node of that name went, once one ended. */
  ghost function Installed(cfg: Config, actions: seq<Action>, h: string): Option<bool> {
    if actions == [] then None else
    var last := actions[|actions| - 1];
    if last.Post? && last.node < |cfg.nodes| && cfg.nodes[last.node] == h then Some(last.ok)
    else Installed(cfg, actions[..|actions| - 1], h)
  }

  ghost predicate ProbesRefused(actions: seq<Action>) { Probed(actions).Some? && !MayProceed(Probed(actions).value) }

  // ---- Where the main goroutine is, given the answers ----

  /** The job failed, or is about to, in that phase. */
  predicate FailedIn(pc: PC, stage: int) { (pc.Failing? && pc.stage == stage) || (pc.Done? && !pc.ok && pc.stage == stage) }

  /** The calls and probes that failed are exactly what stops the main goroutine outside the package phase. */
  ghost predicate Stopped(cfg: Config, actions: seq<Action>, s: State)
    requires ValidConfig(cfg) && Run(cfg, actions).Some?
  {
    var f := FailedCall(cfg, actions);
    && (f.Some? ==> FailedIn(s.pc, Idx(f.value.1)) && Idx(f.value.1) != 1 && Shows(s.steps, f.value.0, f.value.1, Failed))
    && (ProbesRefused(actions) ==> FailedIn(s.pc, 0) || s.pc.MarkPreflight?)
    && (s.pc.MarkPreflight? ==> Probed(actions).Some? && (s.pc.go <==> MayProceed(Probed(actions).value)))
    && (Probed(actions).None? ==> s.pc.Resolve? || s.pc.BeginPreflight? || s.pc == Probing || FailedIn(s.pc, 0))
    && (Probed(actions).Some? ==> |Probed(actions).value| == |cfg.nodes| && !s.pc.Resolve? && !s.pc.BeginPreflight? && s.pc != Probing)
    && (s.pc.Failing? || (s.pc.Done? && !s.pc.ok) ==> FailedIn(s.pc, 1) || f.Some? || ProbesRefused(actions))
  }

  /** Some node up to the k-th got a failing answer. */
  ghost predicate SomeBad(cfg: Config, s: State, k: int) {
    exists j :: 0 <= j < k && j < |cfg.nodes| && cfg.nodes[j] in s.results && !s.results[cfg.nodes[j]]
  }

  ghost predicate AllAnswered(cfg: Config, s: State) { forall j :: 0 <= j < |cfg.nodes| ==> cfg.nodes[j] in s.results }

  ghost predicate Launched(cfg: Config, s: State, k: nat) {
    forall j :: 0 <= j < k && j < |cfg.nodes| ==> j in s.inFlight || cfg.nodes[j] in s.results
  }

  ghost predicate Packaged(cfg: Config, s: State)
    requires ValidConfig(cfg)
  {
    match s.pc
    case Launch(i) => i <= |cfg.nodes| && Launched(cfg, s, i)
    case Await => Launched(cfg, s, |cfg.nodes|)
    case MarkPackages(i, bad) => i <= |cfg.nodes| && s.inFlight == {} && AllAnswered(cfg, s) && (bad <==> SomeBad(cfg, s, i))
    case _ =>
      s.inFlight == {} &&
      if Stage(s.pc) == 0 then s.results == map[]
      else AllAnswered(cfg, s) && (SomeBad(cfg, s, |cfg.nodes|) <==> FailedIn(s.pc, 1))
  }

  ghost predicate Answers(cfg: Config, actions: seq<Action>, s: State) {
    forall h :: Installed(cfg, actions, h) == if h in s.results then Some(s.results[h]) else None
  }

  // ---- Every step keeps the account ----

  lemma PackagedStep(cfg: Config, s: State, ok: bool)
    requires ValidConfig(cfg) && Inv(cfg, s) && Packaged(cfg, s) && MainStep(cfg, s, ok).Some?
    ensures Packaged(cfg, MainStep(cfg, s, ok).value)
  {
    hide SetState, Touch, Base, Serial, PrefixShows;
    var s' := MainStep(cfg, s, ok).value;
    if s.pc.MarkPackages? && s.pc.i < |cfg.nodes| {
      BadGrows(cfg, s, s.pc.i);
      assert forall k :: SomeBad(cfg, s', k) <==> SomeBad(cfg, s, k);
    }
  }

  lemma BadGrows(cfg: Config, s: State, i: nat)
    requires i < |cfg.nodes|
    ensures SomeBad(cfg, s, i + 1) <==> SomeBad(cfg, s, i) || (cfg.nodes[i] in s.results && !s.results[cfg.nodes[i]])
  {
  }

  lemma PackagedNext(cfg: Config, s: State, a: Action)
    requires ValidConfig(cfg) && Inv(cfg, s) && Packaged(cfg, s) && Next(cfg, s, a).Some?
    ensures Packaged(cfg, Next(cfg, s, a).value)
  {
    match a
    case Main(ok) => PackagedStep(cfg, s, ok);
    case Report(probes) =>
    case Post(i, ok) =>
      hide Base, Serial, PrefixShows, Touch;
  }

  lemma {:induction false} RunPackaged(cfg: Config, s: State, actions: seq<Action>)
    requires ValidConfig(cfg) && Reaches(cfg, s, actions)
    ensures Packaged(cfg, s) && Answers(cfg, actions, s)
    decreases |actions|
  {
    if actions != [] {
      var front, last := actions[..|actions| - 1], actions[|actions| - 1];
      var s0 := Run(cfg, front).value;
      RunPackaged(cfg, s0, front);
      ReachableInv(cfg, s0, front);
      hide Inv, Packaged;
      PackagedNext(cfg, s0, last);
      AnswersNext(cfg, front, s0, last);
      assert front + [last] == actions;
    }
  }

  lemma AnswersNext(cfg: Config, front: seq<Action>, s: State, last: Action)
    requires ValidConfig(cfg) && Answers(cfg, front, s) && Next(cfg, s, last).Some?
    ensures Answers(cfg, front + [last], Next(cfg, s, last).value)
  {
    hide SetState, Touch;
    assert (front + [last])[..|front|] == front;
  }

  // ---- What stops the main goroutine ----

  /** One main step: a failing call shows its step failed and stops the machine in its phase; any other goes on. */
  lemma MainStops(cfg: Config, s: State, ok: bool)
    requires ValidConfig(cfg) && MainStep(cfg, s, ok).Some?
    ensures var s', call := MainStep(cfg, s, ok).value, CallAt(cfg, s.pc);
            && (call.Some? && !ok ==>
                  s'.pc == Failing(Idx(call.value.1)) && s'.steps == SetState(s.steps, call.value.0, call.value.1, Failed) && Idx(call.value.1) != 1)
            && (!(call.Some? && !ok) ==> (s'.pc.Failing? <==>
                  (s.pc.MarkPreflight? && (s.pc.i >= |cfg.nodes| || s.pc.i >= |s.pc.blocked|) && !s.pc.go) ||
                  (s.pc.MarkPackages? && s.pc.i >= |cfg.nodes| && s.pc.anyFailed)))
            && (s'.pc.Done? && !s'.pc.ok <==> s.pc.Failing?)
  {
    hide SetState, Touch;
  }

  lemma StoppedByCall(cfg: Config, front: seq<Action>, s: State, ok: bool)
    requires ValidConfig(cfg) && Reaches(cfg, s, front) && Inv(cfg, s) && Stopped(cfg, front, s) && MainStep(cfg, s, ok).Some?
    requires CallAt(cfg, s.pc).Some? && !ok
    ensures Run(cfg, front + [Main(ok)]) == Some(MainStep(cfg, s, ok).value)
    ensures Stopped(cfg, front + [Main(ok)], MainStep(cfg, s, ok).value)
  {
    hide Inv, MainStep, SetState, Shows, Run, FailedCall, Probed, MayProceed;
    Extended(cfg, front, s, Main(ok));
    MainStops(cfg, s, ok);
    var call := CallAt(cfg, s.pc).value;
    SetStateShows(s.steps, call.0, call.1, Failed, call.0, call.1, Failed);
    assert FailedCall(cfg, front).None?;
    hide CallAt;
  }

  lemma Extended(cfg: Config, front: seq<Action>, s: State, a: Action)
    requires ValidConfig(cfg) && Reaches(cfg, s, front) && Next(cfg, s, a).Some?
    ensures Run(cfg, front + [a]) == Next(cfg, s, a) && Run(cfg, front) == Some(s)
    ensures (front + [a])[..|front|] == front && (front + [a])[|front|] == a
    ensures Probed(front + [a]) == if a.Report? then Some(a.probes) else Probed(front)
    ensures FailedCall(cfg, front + [a]) ==
            if FailedCall(cfg, front).Some? then FailedCall(cfg, front)
            else if a.Main? && !a.ok then CallAt(cfg, s.pc) else None
  {
    hide Next;
    assert (front + [a])[..|front|] == front;
  }

  lemma MainPlain(cfg: Config, s: State, ok: bool)
    requires ValidConfig(cfg) && MainStep(cfg, s, ok).Some?
    ensures var s' := MainStep(cfg, s, ok).value;
            && (s'.pc.MarkPreflight? ==> s.pc.MarkPreflight? && s'.pc.go == s.pc.go)
            && (s'.pc.Resolve? ==> s.pc.Resolve?) && (s'.pc.BeginPreflight? ==> s.pc.Resolve? || s.pc.BeginPreflight?)
            && (s'.pc == Probing ==> s.pc.BeginPreflight?)
            && (s.pc.Failing? ==> s'.steps == s.steps && s'.pc == Done(false, s.pc.stage))
            && (s.pc.Resolve? && ok ==> s'.pc.Resolve? || s'.pc.BeginPreflight?)
            && (s.pc.BeginPreflight? ==> s'.pc.BeginPreflight? || s'.pc == Probing)
            && (s.pc.MarkPreflight? ==> s'.pc.MarkPreflight? || (if s.pc.go then s'.pc == Launch(0) else s'.pc == Failing(0)))
            && (s.pc.MarkPackages? && s'.pc.Failing? ==> s'.pc == Failing(1))
            && s.pc != Probing && !s.pc.Done?
  {
    hide SetState, Touch;
  }

  lemma StoppedByMain(cfg: Config, front: seq<Action>, s: State, ok: bool)
    requires ValidConfig(cfg) && Reaches(cfg, s, front) && Stopped(cfg, front, s) && MainStep(cfg, s, ok).Some?
    requires CallAt(cfg, s.pc).None? || ok
    ensures Run(cfg, front + [Main(ok)]) == Some(MainStep(cfg, s, ok).value)
    ensures Stopped(cfg, front + [Main(ok)], MainStep(cfg, s, ok).value)
  {
    Extended(cfg, front, s, Main(ok));
    MainStops(cfg, s, ok);
    MainPlain(cfg, s, ok);
    ResolveCalls(cfg, s.pc);
    hide MainStep, SetState, Shows, Run, CallAt, MayProceed;
  }

  lemma ResolveCalls(cfg: Config, pc: PC)
    requires ValidConfig(cfg)
    ensures pc.Failing? || pc.Done? || pc.MarkPreflight? || pc.MarkPackages? ==> CallAt(cfg, pc).None?
    ensures pc.Resolve? && CallAt(cfg, pc).None? ==> pc.i >= |cfg.nodes|
  {
  }

  lemma StoppedByWorker(cfg: Config, front: seq<Action>, s: State, a: Action)
    requires ValidConfig(cfg) && Reaches(cfg, s, front) && Inv(cfg, s) && Stopped(cfg, front, s) && Next(cfg, s, a).Some? && !a.Main?
    ensures Run(cfg, front + [a]) == Next(cfg, s, a)
    ensures Stopped(cfg, front + [a], Next(cfg, s, a).value)
  {
    Extended(cfg, front, s, a);
    hide Base, Local, Serial, Run, Shows, Touch, MayProceed, Blocked;
  }

  lemma {:induction false} RunStopped(cfg: Config, s: State, actions: seq<Action>)
    requires ValidConfig(cfg) && Reaches(cfg, s, actions)
    ensures Stopped(cfg, actions, s)
    decreases |actions|
  {
    if actions == [] {
      StoppedAtStart(cfg);
      return;
    }
    var front, last := actions[..|actions| - 1], actions[|actions| - 1];
    var s0 := Run(cfg, front).value;
    assert front + [last] == actions && Next(cfg, s0, last) == Some(s);
    hide Stopped, Next, Run;
    RunStopped(cfg, s0, front);
    StoppedStep(cfg, front, s0, last);
  }

  lemma StoppedAtStart(cfg: Config)
    requires ValidConfig(cfg)
    ensures Stopped(cfg, [], InitState(cfg))
  {
    hide Seed, Shows, MayProceed;
  }

  lemma StoppedStep(cfg: Config, front: seq<Action>, s: State, last: Action)
    requires ValidConfig(cfg) && Reaches(cfg, s, front) && Stopped(cfg, front, s) && Next(cfg, s, last).Some?
    ensures Run(cfg, front + [last]) == Next(cfg, s, last)
    ensures Stopped(cfg, front + [last], Next(cfg, s, last).value)
  {
    ReachableInv(cfg, s, front);
    hide Inv, Stopped, MainStep, CallAt;
    if !last.Main? {
      StoppedByWorker(cfg, front, s, last);
    } else if CallAt(cfg, s.pc).Some? && !last.ok {
      StoppedByCall(cfg, front, s, last.ok);
    } else {
      StoppedByMain(cfg, front, s, last.ok);
    }
  }

  // ---- The theorems ----

  /** A finished installation succeeded if and only if no call failed, the probes let it proceed and every node got its packages. */
  lemma SucceedsIffNothingFailed(cfg: Config, s: State, actions: seq<Action>)
    requires ValidConfig(cfg) && Reaches(cfg, s, actions) && s.pc.Done?
    ensures s.job == JobSucceeded <==>
            && FailedCall(cfg, actions).None?
            && Probed(actions).Some? && MayProceed(Probed(actions).value)
            && forall h :: h in cfg.nodes ==> Installed(cfg, actions, h) == Some(true)
  {
    hide Inv, Stopped, Packaged, Answers, Run, MayProceed;
    ReachableInv(cfg, s, actions);
    RunStopped(cfg, s, actions);
    RunPackaged(cfg, s, actions);
    FinishedJob(cfg, s);
    FinishedPackages(cfg, s, actions);
    FinishedCalls(cfg, s, actions);
  }

  lemma FinishedJob(cfg: Config, s: State)
    requires ValidConfig(cfg) && Inv(cfg, s) && s.pc.Done?
    ensures (s.job == JobSucceeded <==> s.pc.ok) && (if s.pc.ok then s.pc.stage == 6 else s.pc.stage <= 5)
  {
    hide Base, Local, Serial;
  }

  /** The nodes that answered, read off a finished job. */
  lemma FinishedPackages(cfg: Config, s: State, actions: seq<Action>)
    requires ValidConfig(cfg) && Packaged(cfg, s) && Answers(cfg, actions, s) && s.pc.Done?
    ensures s.pc.stage >= 1 ==>
              (FailedIn(s.pc, 1) <==> !forall h :: h in cfg.nodes ==> Installed(cfg, actions, h) == Some(true))
    ensures s.pc.stage == 0 ==> !forall h :: h in cfg.nodes ==> Installed(cfg, actions, h) == Some(true)
  {
    hide Installed;
    assert cfg.nodes[0] in cfg.nodes;
    if s.pc.stage >= 1 && SomeBad(cfg, s, |cfg.nodes|) {
      var j :| 0 <= j < |cfg.nodes| && cfg.nodes[j] in s.results && !s.results[cfg.nodes[j]];
      assert cfg.nodes[j] in cfg.nodes && Installed(cfg, actions, cfg.nodes[j]) == Some(false);
    }
    if h :| h in cfg.nodes && s.pc.stage >= 1 && Installed(cfg, actions, h) != Some(true) {
      var j :| 0 <= j < |cfg.nodes| && cfg.nodes[j] == h;
      assert cfg.nodes[j] in s.results && SomeBad(cfg, s, |cfg.nodes|);
    }
  }

  lemma FinishedCalls(cfg: Config, s: State, actions: seq<Action>)
    requires ValidConfig(cfg) && Run(cfg, actions).Some? && Stopped(cfg, actions, s) && s.pc.Done?
    ensures !s.pc.ok ==> FailedIn(s.pc, 1) || FailedCall(cfg, actions).Some? || ProbesRefused(actions)
    ensures s.pc.ok ==> FailedCall(cfg, actions).None? && !ProbesRefused(actions) && Probed(actions).Some?
    ensures FailedIn(s.pc, 1) ==> FailedCall(cfg, actions).None? && !ProbesRefused(actions) && Probed(actions).Some?
  {
    hide Run, FailedCall, Probed, MayProceed, Shows;
  }

  /**
   * Fail fast: once a call failed, its step shows failed for good, nothing of a later phase has begun or ever will, and
   * the job does not succeed.
   */
  lemma FailureStopsEverything(cfg: Config, s: State, actions: seq<Action>, r: nat)
    requires ValidConfig(cfg) && Reaches(cfg, s, actions) && FailedCall(cfg, actions).Some?
    ensures var (h, p) := FailedCall(cfg, actions).value;
            && Shows(s.steps, h, p, Failed) && s.job != JobSucceeded
            && (r < |s.steps| && Idx(s.steps[r].phase) > Idx(p) ==> s.steps[r].state == Pending)
  {
    ReachableInv(cfg, s, actions);
    RunStopped(cfg, s, actions);
    hide Local, Serial, Run, Shows, MayProceed, FailedCall, Probed, Seeded, EarlierSucceeded, ShadowsPending;
  }

  /** When the probes refuse, no package is installed and nothing of a later phase begins. */
  lemma RefusalStopsEverything(cfg: Config, s: State, actions: seq<Action>, r: nat)
    requires ValidConfig(cfg) && Reaches(cfg, s, actions) && ProbesRefused(actions)
    ensures s.job != JobSucceeded && s.results == map[] && s.inFlight == {}
    ensures r < |s.steps| && Idx(s.steps[r].phase) > 0 ==> s.steps[r].state == Pending
  {
    ReachableInv(cfg, s, actions);
    RunStopped(cfg, s, actions);
    RunPackaged(cfg, s, actions);
    hide Local, Serial, Run, Shows, MayProceed, FailedCall, Probed, Seeded, EarlierSucceeded, ShadowsPending;
  }

  // ---- Which hosts show a failure ----

  ghost predicate PreflightMarked(cfg: Config, steps: seq<Step>, ps: seq<Probe>, k: int) {
    forall j :: 0 <= j < k && j < |cfg.nodes| && j < |ps| ==>
      Shows(steps, cfg.nodes[j], InstallPreflight, if Blocked(ps[j]) then Failed else Succeeded)
  }

  ghost predicate PackagesMarked(cfg: Config, s: State, k: int) {
    forall j :: 0 <= j < k && j < |cfg.nodes| ==>
      cfg.nodes[j] in s.results && Shows(s.steps, cfg.nodes[j], InstallPackages, if s.results[cfg.nodes[j]] then Succeeded else Failed)
  }

  /** The preflight rows marked so far show what the probes answered. */
  ghost predicate ProbesMarked(cfg: Config, probed: Option<seq<Probe>>, s: State) {
    probed.Some? ==>
      var ps := probed.value;
      && PreflightMarked(cfg, s.steps, ps, if s.pc.MarkPreflight? then s.pc.i else |cfg.nodes|)
      && (s.pc.MarkPreflight? ==> |s.pc.blocked| == |ps| && forall j :: 0 <= j < |ps| ==> s.pc.blocked[j] == Blocked(ps[j]))
  }

  /** The package rows marked so far show what the workers answered. */
  ghost predicate NodesMarked(cfg: Config, s: State) {
    && (s.pc.MarkPackages? ==> PackagesMarked(cfg, s, s.pc.i))
    && (Stage(s.pc) >= 2 || FailedIn(s.pc, 1) ==> PackagesMarked(cfg, s, |cfg.nodes|))
  }

  ghost predicate Marked(cfg: Config, actions: seq<Action>, s: State) {
    ProbesMarked(cfg, Probed(actions), s) && NodesMarked(cfg, s)
  }

  /** A write to another key, or to a row not marked yet, leaves the marked rows as they show. */
  lemma PreflightKept(cfg: Config, steps: seq<Step>, ps: seq<Probe>, k: int, h: string, p: Phase, st: StepState)
    requires PreflightMarked(cfg, steps, ps, k) && (p != InstallPreflight || forall j :: 0 <= j < k && j < |cfg.nodes| ==> cfg.nodes[j] != h)
    ensures PreflightMarked(cfg, SetState(steps, h, p, st), ps, k)
  {
    hide SetState, Shows, Blocked;
    forall j | 0 <= j < k && j < |cfg.nodes| && j < |ps|
      ensures Shows(SetState(steps, h, p, st), cfg.nodes[j], InstallPreflight, if Blocked(ps[j]) then Failed else Succeeded)
    {
      SetStateShows(steps, h, p, st, cfg.nodes[j], InstallPreflight, if Blocked(ps[j]) then Failed else Succeeded);
    }
  }

  lemma PackagesKept(cfg: Config, s: State, s': State, k: int, h: string, p: Phase, st: StepState)
    requires PackagesMarked(cfg, s, k) && (p != InstallPackages || forall j :: 0 <= j < k && j < |cfg.nodes| ==> cfg.nodes[j] != h)
    requires s'.results == s.results && s'.steps == SetState(s.steps, h, p, st)
    ensures PackagesMarked(cfg, s', k)
  {
    hide SetState, Shows;
    forall j | 0 <= j < k && j < |cfg.nodes|
      ensures Shows(s'.steps, cfg.nodes[j], InstallPackages, if s.results[cfg.nodes[j]] then Succeeded else Failed)
    {
      SetStateShows(s.steps, h, p, st, cfg.nodes[j], InstallPackages, if s.results[cfg.nodes[j]] then Succeeded else Failed);
    }
  }

  /** The step a main step writes, if it writes one. */
  ghost function Written(cfg: Config, s: State, ok: bool): Option<Step>
    requires ValidConfig(cfg)
  {
    var ns := cfg.nodes;
    match s.pc
    case Resolve(i) => if i < |ns| && !ok then Some(Step(ns[i], InstallPreflight, Failed)) else None
    case BeginPreflight(i) => if i < |ns| then Some(Step(ns[i], InstallPreflight, Running)) else None
    case MarkPreflight(i, blocked, _) =>
      if i < |ns| && i < |blocked| then Some(Step(ns[i], InstallPreflight, if blocked[i] then Failed else Succeeded)) else None
    case Launch(i) => if i < |ns| then Some(Step(ns[i], InstallPackages, Running)) else None
    case MarkPackages(i, _) =>
      if i < |ns| then Some(Step(ns[i], InstallPackages, if ns[i] in s.results && !s.results[ns[i]] then Failed else Succeeded)) else None
    case Init(started) => Some(Step(cfg.founderName, CephInit, if !started then Running else Outcome(ok)))
    case Mon(i, started) => if i >= |ns| || (started && ok) then None else Some(Step(ns[i], CreateMON, if !started then Running else Failed))
    case MonWait(i) => if i < |ns| then Some(Step(ns[i], CreateMON, Outcome(ok))) else None
    case Mgr(started) => if started && ok then None else Some(Step(ns[0], CreateMGR, if !started then Running else Failed))
    case MgrWait => Some(Step(ns[0], CreateMGR, Outcome(ok)))
    case Health(started) => Some(Step("", WaitHealthy, if !started then Running else Outcome(ok)))
    case _ => None
  }

  function Outcome(ok: bool): StepState { if ok then Succeeded else Failed }

  ghost predicate Writes1(s: State, s': State, w: Option<Step>) {
    && s'.results == s.results
    && s'.steps == (if w.Some? then SetState(s.steps, w.value.host, w.value.phase, w.value.state) else s.steps)
    && (w.Some? ==> Idx(w.value.phase) == Stage(s.pc))
  }

  lemma EarlyWrites(cfg: Config, s: State, ok: bool)
    requires ValidConfig(cfg) && MainStep(cfg, s, ok).Some? && Stage(s.pc) <= 1
    ensures Writes1(s, MainStep(cfg, s, ok).value, Written(cfg, s, ok))
  {
    hide SetState, Touch;
  }

  lemma MonWrites(cfg: Config, s: State, ok: bool)
    requires ValidConfig(cfg) && MainStep(cfg, s, ok).Some? && 2 <= Stage(s.pc) <= 3
    requires s.pc.Mon? && s.pc.i < |cfg.nodes| ==> Touch(s.steps, cfg.nodes[s.pc.i], CreateMON) == s.steps
    ensures Writes1(s, MainStep(cfg, s, ok).value, Written(cfg, s, ok))
  {
    hide SetState, Touch;
  }

  lemma TailWrites(cfg: Config, s: State, ok: bool)
    requires ValidConfig(cfg) && MainStep(cfg, s, ok).Some? && Stage(s.pc) >= 4
    requires s.pc.Mgr? ==> Touch(s.steps, cfg.nodes[0], CreateMGR) == s.steps
    ensures Writes1(s, MainStep(cfg, s, ok).value, Written(cfg, s, ok))
  {
    hide SetState, Touch;
  }

  /** What a main step writes: at most one step, of the phase it is in. */
  lemma MainWrites(cfg: Config, s: State, ok: bool) returns (h: string, p: Phase, st: StepState, wrote: bool)
    requires ValidConfig(cfg) && Inv(cfg, s) && MainStep(cfg, s, ok).Some?
    ensures var s' := MainStep(cfg, s, ok).value;
            && s'.results == s.results
            && s'.steps == (if wrote then SetState(s.steps, h, p, st) else s.steps)
            && (wrote ==> Idx(p) == Stage(s.pc))
    ensures Written(cfg, s, ok) == if wrote then Some(Step(h, p, st)) else None
  {
    hide SetState, MainStep, Written, Inv;
    if Stage(s.pc) <= 1 {
      EarlyWrites(cfg, s, ok);
    } else {
      MonTouch(cfg, s);
      hide Touch;
      if Stage(s.pc) <= 3 {
        MonWrites(cfg, s, ok);
      } else {
        TailWrites(cfg, s, ok);
      }
    }
    var w := Written(cfg, s, ok);
    wrote := w.Some?;
    if wrote {
      h, p, st := w.value.host, w.value.phase, w.value.state;
    } else {
      h, p, st := "", WaitHealthy, Pending;
    }
  }

  /** Recording a task id writes no step that is not there. */
  lemma MonTouch(cfg: Config, s: State)
    requires ValidConfig(cfg) && Inv(cfg, s)
    ensures s.pc.Mon? && s.pc.i < |cfg.nodes| ==> Touch(s.steps, cfg.nodes[s.pc.i], CreateMON) == s.steps
    ensures s.pc.Mgr? ==> Touch(s.steps, cfg.nodes[0], CreateMGR) == s.steps
    ensures forall i :: 0 <= i < |cfg.nodes| && Stage(s.pc) == 1 ==> Touch(s.steps, cfg.nodes[i], InstallPackages) == s.steps
  {
    hide Touch, Base, Serial, Local;
    if s.pc.Mon? && s.pc.i < |cfg.nodes| {
      TouchIsSilent(cfg, s.steps, 3, cfg.nodes[s.pc.i], CreateMON);
    }
    if s.pc.Mgr? {
      TouchIsSilent(cfg, s.steps, 4, cfg.nodes[0], CreateMGR);
    }
    if Stage(s.pc) == 1 {
      forall i | 0 <= i < |cfg.nodes| ensures Touch(s.steps, cfg.nodes[i], InstallPackages) == s.steps {
        TouchIsSilent(cfg, s.steps, 1, cfg.nodes[i], InstallPackages);
      }
    }
  }

  lemma MarkedByMain(cfg: Config, front: seq<Action>, s: State, ok: bool)
    requires ValidConfig(cfg) && NoDup(cfg.nodes) && Reaches(cfg, s, front) && Inv(cfg, s) && Packaged(cfg, s) && Stopped(cfg, front, s)
    requires Marked(cfg, front, s) && MainStep(cfg, s, ok).Some?
    ensures Marked(cfg, front + [Main(ok)], MainStep(cfg, s, ok).value)
  {
    Extended(cfg, front, s, Main(ok));
    PastProbing(cfg, front, s);
    hide MainStep, Run, Inv, FailedCall, Probed, Packaged, Stopped, ProbesMarked, NodesMarked;
    ProbesByMain(cfg, Probed(front), s, ok);
    NodesByMain(cfg, s, ok);
  }

  lemma PastProbing(cfg: Config, actions: seq<Action>, s: State)
    requires ValidConfig(cfg) && Run(cfg, actions).Some? && Stopped(cfg, actions, s)
    ensures Probed(actions).Some? ==> |Probed(actions).value| == |cfg.nodes| && !s.pc.Resolve? && !s.pc.BeginPreflight?
  {
    hide Run, FailedCall, Probed, MayProceed, Shows;
  }

  lemma ProbesByMain(cfg: Config, probed: Option<seq<Probe>>, s: State, ok: bool)
    requires ValidConfig(cfg) && NoDup(cfg.nodes) && Inv(cfg, s) && MainStep(cfg, s, ok).Some? && ProbesMarked(cfg, probed, s)
    requires probed.Some? ==> |probed.value| == |cfg.nodes| && !s.pc.Resolve? && !s.pc.BeginPreflight?
    ensures ProbesMarked(cfg, probed, MainStep(cfg, s, ok).value)
  {
    var s' := MainStep(cfg, s, ok).value;
    MainMoves(cfg, s, ok);
    var h, p, st, wrote := MainWrites(cfg, s, ok);
    hide MainStep, SetState, Shows, Inv, PreflightMarked, Blocked;
    if probed.Some? {
      PreflightByMain(cfg, s, s', probed.value, h, p, st, wrote);
    }
  }

  lemma NodesByMain(cfg: Config, s: State, ok: bool)
    requires ValidConfig(cfg) && NoDup(cfg.nodes) && Inv(cfg, s) && MainStep(cfg, s, ok).Some? && Packaged(cfg, s) && NodesMarked(cfg, s)
    ensures NodesMarked(cfg, MainStep(cfg, s, ok).value)
  {
    var s' := MainStep(cfg, s, ok).value;
    MainMoves(cfg, s, ok);
    var h, p, st, wrote := MainWrites(cfg, s, ok);
    hide MainStep, SetState, Shows, Inv;
    if s.pc.MarkPackages? || Stage(s.pc) >= 2 || FailedIn(s.pc, 1) {
      AnsweredByNow(cfg, s);
      hide Packaged;
      PackagesByMain(cfg, s, s', h, p, st, wrote);
    }
    hide Packaged, PackagesMarked;
    if s'.pc.MarkPackages? && s.pc == Await {
      NothingMarked(cfg, s');
    }
  }

  lemma NothingMarked(cfg: Config, s: State)
    ensures PackagesMarked(cfg, s, 0)
  {
  }

  lemma AnsweredByNow(cfg: Config, s: State)
    requires ValidConfig(cfg) && Packaged(cfg, s) && (s.pc.MarkPackages? || Stage(s.pc) >= 2 || FailedIn(s.pc, 1))
    ensures AllAnswered(cfg, s)
  {
  }

  /** How the main goroutine moves through the phases that mark nodes. */
  lemma MainMoves(cfg: Config, s: State, ok: bool)
    requires ValidConfig(cfg) && Inv(cfg, s) && MainStep(cfg, s, ok).Some?
    ensures var s', n := MainStep(cfg, s, ok).value, |cfg.nodes|;
            && (s'.pc.MarkPreflight? ==> s.pc.MarkPreflight? && s.pc.i < n && s.pc.i < |s.pc.blocked|)
            && (s.pc.MarkPreflight? ==> |s.pc.blocked| == n && (s.pc.i < n || !s'.pc.MarkPreflight?))
            && (s'.pc.MarkPackages? ==> (s.pc == Await && s'.pc.i == 0) || (s.pc.MarkPackages? && s.pc.i < n))
            && (Stage(s'.pc) >= 2 || FailedIn(s'.pc, 1) ==>
                  Stage(s.pc) >= 2 || FailedIn(s.pc, 1) || (s.pc.MarkPackages? && s.pc.i >= n))
            && (s.pc.MarkPackages? && s.pc.i < n ==> Stage(s'.pc) == 1 && !FailedIn(s'.pc, 1) && s'.pc.MarkPackages? && s'.pc.i == s.pc.i + 1)
            && (s.pc.MarkPreflight? && s.pc.i < n ==> s'.pc == MarkPreflight(s.pc.i + 1, s.pc.blocked, s.pc.go))
  {
    hide SetState, Touch, Base, Serial;
  }

  lemma PreflightByMain(cfg: Config, s: State, s': State, ps: seq<Probe>, h: string, p: Phase, st: StepState, wrote: bool)
    requires ValidConfig(cfg) && NoDup(cfg.nodes) && |ps| == |cfg.nodes|
    requires PreflightMarked(cfg, s.steps, ps, if s.pc.MarkPreflight? then s.pc.i else |cfg.nodes|)
    requires s'.steps == if wrote then SetState(s.steps, h, p, st) else s.steps
    requires s.pc.MarkPreflight? ==> |s.pc.blocked| == |cfg.nodes| && forall j :: 0 <= j < |ps| ==> s.pc.blocked[j] == Blocked(ps[j])
    requires if s.pc.MarkPreflight? && s.pc.i < |cfg.nodes| then
               wrote && h == cfg.nodes[s.pc.i] && p == InstallPreflight && st == (if s.pc.blocked[s.pc.i] then Failed else Succeeded)
             else wrote ==> p != InstallPreflight
    ensures PreflightMarked(cfg, s'.steps, ps,
              if s.pc.MarkPreflight? then (if s.pc.i < |cfg.nodes| then s.pc.i + 1 else s.pc.i) else |cfg.nodes|)
  {
    hide SetState, Shows, Blocked;
    if wrote {
      PreflightKept(cfg, s.steps, ps, if s.pc.MarkPreflight? then s.pc.i else |cfg.nodes|, h, p, st);
      SetStateShows(s.steps, h, p, st, h, p, st);
    }
  }

  lemma PackagesByMain(cfg: Config, s: State, s': State, h: string, p: Phase, st: StepState, wrote: bool)
    requires ValidConfig(cfg) && NoDup(cfg.nodes) && s'.results == s.results && AllAnswered(cfg, s)
    requires PackagesMarked(cfg, s, if s.pc.MarkPackages? then s.pc.i else |cfg.nodes|)
    requires s'.steps == if wrote then SetState(s.steps, h, p, st) else s.steps
    requires if s.pc.MarkPackages? && s.pc.i < |cfg.nodes| then
               wrote && h == cfg.nodes[s.pc.i] && p == InstallPackages && st == (if h in s.results && !s.results[h] then Failed else Succeeded)
             else wrote ==> p != InstallPackages
    ensures PackagesMarked(cfg, s',
              if s.pc.MarkPackages? then (if s.pc.i < |cfg.nodes| then s.pc.i + 1 else s.pc.i) else |cfg.nodes|)
  {
    hide SetState, Shows;
    if wrote {
      PackagesKept(cfg, s, s', if s.pc.MarkPackages? then s.pc.i else |cfg.nodes|, h, p, st);
      SetStateShows(s.steps, h, p, st, h, p, st);
    }
  }

  lemma MarkedByWorker(cfg: Config, front: seq<Action>, s: State, a: Action)
    requires ValidConfig(cfg) && Reaches(cfg, s, front) && Inv(cfg, s) && Stopped(cfg, front, s)
    requires Marked(cfg, front, s) && Next(cfg, s, a).Some? && !a.Main?
    ensures Marked(cfg, front + [a], Next(cfg, s, a).value)
  {
    Extended(cfg, front, s, a);
    MonTouch(cfg, s);
    hide SetState, Touch, Shows, Run, Base, Local, Serial, FailedCall, Blocked, MayProceed;
  }

  lemma {:induction false} RunMarked(cfg: Config, s: State, actions: seq<Action>)
    requires ValidConfig(cfg) && NoDup(cfg.nodes) && Reaches(cfg, s, actions)
    ensures Marked(cfg, actions, s)
    decreases |actions|
  {
    if actions == [] {
      MarkedAtStart(cfg);
      return;
    }
    var front, last := actions[..|actions| - 1], actions[|actions| - 1];
    var s0 := Run(cfg, front).value;
    assert front + [last] == actions && Next(cfg, s0, last) == Some(s);
    hide Inv, Stopped, Packaged, Answers, Marked, MainStep, Next, Run;
    RunMarked(cfg, s0, front);
    MarkedStep(cfg, front, s0, last);
  }

  lemma MarkedAtStart(cfg: Config)
    requires ValidConfig(cfg)
    ensures Marked(cfg, [], InitState(cfg))
  {
    hide Seed;
  }

  lemma MarkedStep(cfg: Config, front: seq<Action>, s: State, last: Action)
    requires ValidConfig(cfg) && NoDup(cfg.nodes) && Reaches(cfg, s, front) && Marked(cfg, front, s) && Next(cfg, s, last).Some?
    ensures Marked(cfg, front + [last], Next(cfg, s, last).value)
  {
    hide Inv, Stopped, Packaged, Answers, Marked, MainStep, Reaches;
    RunStopped(cfg, s, front);
    RunPackaged(cfg, s, front);
    ReachableInv(cfg, s, front);
    if last.Main? {
      MarkedByMain(cfg, front, s, last.ok);
    } else {
      MarkedByWorker(cfg, front, s, last);
    }
  }

  /** Over distinct nodes, once the probes are marked a node's preflight shows failed if and only if its probe was blocked. */
  lemma PreflightShowsProbes(cfg: Config, s: State, actions: seq<Action>, j: nat)
    requires ValidConfig(cfg) && NoDup(cfg.nodes) && Reaches(cfg, s, actions) && j < |cfg.nodes|
    requires Probed(actions).Some? && !s.pc.MarkPreflight?
    ensures j < |Probed(actions).value|
    ensures Shows(s.steps, cfg.nodes[j], InstallPreflight, if Blocked(Probed(actions).value[j]) then Failed else Succeeded)
  {
    RunMarked(cfg, s, actions);
    RunStopped(cfg, s, actions);
    hide Reaches, Shows, FailedCall, Probed;
  }

  /** Over distinct nodes, once the packages are marked a node's step shows failed if and only if its installation failed. */
  lemma PackagesShowAnswers(cfg: Config, s: State, actions: seq<Action>, j: nat)
    requires ValidConfig(cfg) && NoDup(cfg.nodes) && Reaches(cfg, s, actions) && j < |cfg.nodes|
    requires Stage(s.pc) >= 2 || FailedIn(s.pc, 1)
    ensures Installed(cfg, actions, cfg.nodes[j]).Some?
    ensures Shows(s.steps, cfg.nodes[j], InstallPackages, if Installed(cfg, actions, cfg.nodes[j]).value then Succeeded else Failed)
  {
    RunMarked(cfg, s, actions);
    RunPackaged(cfg, s, actions);
    hide Reaches, Shows, Installed, Packaged;
  }

  /** When a node did not get its packages, the phases after that do not begin and the job does not succeed. */
  lemma PackageFailureStopsEverything(cfg: Config, s: State, actions: seq<Action>, h: string, r: nat)
    requires ValidConfig(cfg) && Reaches(cfg, s, actions) && h in cfg.nodes && Installed(cfg, actions, h) == Some(false)
    requires s.pc.MarkPackages? || Stage(s.pc) >= 2 || FailedIn(s.pc, 1)
    ensures s.job != JobSucceeded && Stage(s.pc) == 1
    ensures r < |s.steps| && Idx(s.steps[r].phase) > 1 ==> s.steps[r].state == Pending
  {
    ReachableInv(cfg, s, actions);
    RunPackaged(cfg, s, actions);
    hide Local, Serial, Reaches, Installed, Seeded, EarlierSucceeded, ShadowsPending;
    var j :| 0 <= j < |cfg.nodes| && cfg.nodes[j] == h;
    assert SomeBad(cfg, s, |cfg.nodes|);
  }
}
