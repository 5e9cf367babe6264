/** The destroy orchestration: serial cluster phases, then one purge goroutine per node. */
module CephDestroy {
  import opened Options
  import opened Seqs
  import opened CephJob

  /** The ordered cluster-scoped phases. */
  function ClusterPhases(): seq<Phase> {
    [DestroyPreflight, SetNoout, DeleteFS, DeletePools, DeleteMDS, DeleteOSD, DeleteMGR, DeleteMON]
  }

  const PHASES := 8

  /** `nodes` is the order in which steps were seeded, `launch` the order in which purges are started. */
  datatype Config = Config(nodes: seq<string>, launch: seq<string>)

  ghost predicate ValidConfig(cfg: Config) {
    && |cfg.nodes| > 0 && NoDup(cfg.nodes) && NoDup(cfg.launch)
    && forall h :: h in cfg.launch <==> h in cfg.nodes
  }

  /** Whether Ceph was found, whether each cluster phase ended without errors, and whether each purge worked. */
  datatype Outcomes = Outcomes(found: bool, phaseOk: Phase -> bool, purgeOk: string -> bool)

  function SeedSteps(nodes: seq<string>): (r: seq<Step>)
    ensures |r| == PHASES + |nodes|
    ensures forall k :: 0 <= k < PHASES ==> r[k] == Step("", ClusterPhases()[k], Pending)
    ensures forall i :: PHASES <= i < |r| ==> r[i] == Step(nodes[i - PHASES], CephPurge, Pending)
  {
    seq(PHASES, k requires 0 <= k < PHASES => Step("", ClusterPhases()[k], Pending))
    + seq(|nodes|, i requires 0 <= i < |nodes| => Step(nodes[i], CephPurge, Pending))
  }

  datatype PC = Phase(k: nat, started: bool) | Launch(i: nat) | Await | Finalize | Done

  datatype State = State(pc: PC, steps: seq<Step>, job: JobState, inFlight: set<string>)

  /** The orchestration goroutine advances, or the purge goroutine of a node ends. */
  datatype Action = Main | Finish(node: string)

  function ResultOf(ok: bool): StepState { if ok then Succeeded else Failed }

  function PhaseResult(o: Outcomes, k: nat): StepState
    requires k < PHASES
  {
    if k == 0 then Succeeded else ResultOf(o.phaseOk(ClusterPhases()[k]))
  }

  ghost function Next(cfg: Config, o: Outcomes, s: State, a: Action): Option<State> {
    match a
    case Finish(h) =>
      if h in s.inFlight then
        Some(s.(steps := SetState(s.steps, h, CephPurge, ResultOf(o.purgeOk(h))), inFlight := s.inFlight - {h}))
      else None
    case Main =>
      match s.pc
      case Phase(k, started) =>
        if k >= PHASES then None
        else if !started then Some(s.(steps := SetState(s.steps, "", ClusterPhases()[k], Running), pc := Phase(k, true)))
        else
          var pc := if (k == 0 && !o.found) || k == PHASES - 1 then Launch(0) else Phase(k + 1, false);
          Some(s.(steps := SetState(s.steps, "", ClusterPhases()[k], PhaseResult(o, k)), pc := pc))
      case Launch(i) =>
        if i >= |cfg.launch| then Some(s.(pc := Await))
        else
          Some(s.(steps := SetState(s.steps, cfg.launch[i], CephPurge, Running), pc := Launch(i + 1),
                  inFlight := s.inFlight + {cfg.launch[i]}))
      case Await => if s.inFlight == {} then Some(s.(pc := Finalize)) else None
      case Finalize => Some(s.(job := FinalJob(s.steps), pc := Done))
      case Done => None
  }

  ghost function Run(cfg: Config, o: Outcomes, actions: seq<Action>): Option<State>
    decreases |actions|
  {
    if actions == [] then Some(State(Phase(0, false), SeedSteps(cfg.nodes), JobRunning, {})) else
    var before := Run(cfg, o, actions[..|actions| - 1]);
    if before.None? then None else Next(cfg, o, before.value, actions[|actions| - 1])
  }

  // ---- Closed form of the steps at every interleaving point ----

  ghost function PhaseNow(o: Outcomes, pc: PC, k: nat): StepState
    requires k < PHASES
  {
    if pc.Phase? then
      if k < pc.k then PhaseResult(o, k) else if k == pc.k && pc.started then Running else Pending
    else if o.found || k == 0 then PhaseResult(o, k) else Pending
  }

  ghost predicate Launched(cfg: Config, pc: PC, h: string) {
    match pc
    case Phase(_, _) => false
    case Launch(i) => h in cfg.launch[..if i <= |cfg.launch| then i else |cfg.launch|]
    case _ => h in cfg.launch
  }

  ghost function PurgeNow(cfg: Config, o: Outcomes, s: State, h: string): StepState {
    if !Launched(cfg, s.pc, h) then Pending
    else if h in s.inFlight then Running
    else ResultOf(o.purgeOk(h))
  }

  ghost predicate Shape(cfg: Config, steps: seq<Step>) {
    && |steps| == PHASES + |cfg.nodes|
    && (forall k :: 0 <= k < PHASES ==> steps[k].host == "" && steps[k].phase == ClusterPhases()[k])
    && (forall r :: PHASES <= r < |steps| ==> steps[r].host == cfg.nodes[r - PHASES] && steps[r].phase == CephPurge)
  }

  ghost predicate Inv(cfg: Config, o: Outcomes, s: State) {
    && Shape(cfg, s.steps)
    && (forall k :: 0 <= k < PHASES ==> s.steps[k].state == PhaseNow(o, s.pc, k))
    && (forall r :: PHASES <= r < |s.steps| ==> s.steps[r].state == PurgeNow(cfg, o, s, s.steps[r].host))
    && (forall h :: h in s.inFlight ==> Launched(cfg, s.pc, h) && h in cfg.nodes)
    && (s.pc.Phase? ==> s.pc.k < PHASES && (s.pc.k > 0 ==> o.found))
    && (s.pc.Launch? ==> s.pc.i <= |cfg.launch|)
    && (s.pc.Finalize? || s.pc.Done? ==> s.inFlight == {})
    && (s.job == if s.pc.Done? then FinalJob(s.steps) else JobRunning)
  }

  lemma PhaseRow(cfg: Config, steps: seq<Step>, k: nat, st: StepState)
    requires Shape(cfg, steps) && k < PHASES
    ensures SetState(steps, "", ClusterPhases()[k], st) == steps[k := steps[k].(state := st)]
  {
    hide Find;
    FindUnique(steps, "", ClusterPhases()[k], k);
  }

  lemma PurgeRow(cfg: Config, steps: seq<Step>, i: nat, st: StepState)
    requires ValidConfig(cfg) && Shape(cfg, steps) && i < |cfg.nodes|
    ensures SetState(steps, cfg.nodes[i], CephPurge, st) == steps[PHASES + i := steps[PHASES + i].(state := st)]
  {
    hide Find;
    var h := cfg.nodes[i];
    forall j | 0 <= j < PHASES + i ensures !Matches(steps[j], h, CephPurge) {
      if j < PHASES {
        assert ClusterPhases()[j] != CephPurge;
      }
    }
    FindUnique(steps, h, CephPurge, PHASES + i);
  }

  lemma PhaseKeepsInv(cfg: Config, o: Outcomes, s: State)
    requires ValidConfig(cfg) && Inv(cfg, o, s) && s.pc.Phase? && Next(cfg, o, s, Main).Some?
    ensures Inv(cfg, o, Next(cfg, o, s, Main).value)
  {
    hide SetState;
    PhaseRow(cfg, s.steps, s.pc.k, Running);
    PhaseRow(cfg, s.steps, s.pc.k, PhaseResult(o, s.pc.k));
  }

  lemma LaunchKeepsInv(cfg: Config, o: Outcomes, s: State)
    requires ValidConfig(cfg) && Inv(cfg, o, s) && s.pc.Launch? && s.pc.i < |cfg.launch|
    ensures Inv(cfg, o, Next(cfg, o, s, Main).value)
  {
    hide SetState, FinalJob;
    var h, p := cfg.launch[s.pc.i], s.pc.i;
    assert h in cfg.nodes;
    var i :| 0 <= i < |cfg.nodes| && cfg.nodes[i] == h;
    PurgeRow(cfg, s.steps, i, Running);
    var s' := Next(cfg, o, s, Main).value;
    LaunchedOneMore(cfg, p);
    hide Launched;
    OtherRows(cfg, s.steps, i);
    hide Shape;
    ShapeKept(cfg, s.steps, PHASES + i, Running);
  }

  lemma LaunchedOneMore(cfg: Config, p: nat)
    requires p < |cfg.launch|
    ensures forall h :: Launched(cfg, Launch(p + 1), h) <==> Launched(cfg, Launch(p), h) || h == cfg.launch[p]
  {
    var more, all := cfg.launch[..p + 1], cfg.launch[..p];
    assert more == all + [cfg.launch[p]];
    forall h ensures Launched(cfg, Launch(p + 1), h) <==> Launched(cfg, Launch(p), h) || h == cfg.launch[p] {
      assert Launched(cfg, Launch(p + 1), h) <==> h in more;
      assert Launched(cfg, Launch(p), h) <==> h in all;
    }
  }

  lemma OtherRows(cfg: Config, steps: seq<Step>, i: nat)
    requires ValidConfig(cfg) && Shape(cfg, steps) && i < |cfg.nodes|
    ensures forall r :: PHASES <= r < |steps| && r != PHASES + i ==> steps[r].host != cfg.nodes[i]
    ensures |steps| == PHASES + |cfg.nodes| && steps[PHASES + i].host == cfg.nodes[i]
  {
  }

  lemma ShapeKept(cfg: Config, steps: seq<Step>, r: nat, st: StepState)
    requires Shape(cfg, steps) && r < |steps|
    ensures Shape(cfg, steps[r := steps[r].(state := st)])
  {
  }

  lemma FinishKeepsInv(cfg: Config, o: Outcomes, s: State, h: string)
    requires ValidConfig(cfg) && Inv(cfg, o, s) && h in s.inFlight
    ensures Inv(cfg, o, Next(cfg, o, s, Finish(h)).value)
  {
    hide SetState;
    var i :| 0 <= i < |cfg.nodes| && cfg.nodes[i] == h;
    PurgeRow(cfg, s.steps, i, ResultOf(o.purgeOk(h)));
    assert forall r :: PHASES <= r < |s.steps| && r != PHASES + i ==> s.steps[r].host != h;
  }

  lemma NextKeepsInv(cfg: Config, o: Outcomes, s: State, a: Action)
    requires ValidConfig(cfg) && Inv(cfg, o, s) && Next(cfg, o, s, a).Some?
    ensures Inv(cfg, o, Next(cfg, o, s, a).value)
  {
    match a
    case Finish(h) => FinishKeepsInv(cfg, o, s, h);
    case Main =>
      if s.pc.Phase? {
        PhaseKeepsInv(cfg, o, s);
      } else if s.pc.Launch? && s.pc.i < |cfg.launch| {
        LaunchKeepsInv(cfg, o, s);
      } else {
        assert cfg.launch[..|cfg.launch|] == cfg.launch;
      }
  }

  lemma {:induction false} RunInv(cfg: Config, o: Outcomes, actions: seq<Action>)
    requires ValidConfig(cfg) && Run(cfg, o, actions).Some?
    ensures Inv(cfg, o, Run(cfg, o, actions).value)
    decreases |actions|
  {
    hide Next;
    if actions != [] {
      hide Inv;
      RunInv(cfg, o, actions[..|actions| - 1]);
      NextKeepsInv(cfg, o, Run(cfg, o, actions[..|actions| - 1]).value, actions[|actions| - 1]);
    }
  }

  // ---- Theorems ----

  /** What a finished job looks like, computed from the outcomes alone. */
  ghost function FinalSteps(nodes: seq<string>, o: Outcomes): (r: seq<Step>)
    ensures |r| == PHASES + |nodes|
    ensures forall k :: 0 <= k < PHASES ==>
      r[k] == Step("", ClusterPhases()[k], if o.found || k == 0 then PhaseResult(o, k) else Pending)
    ensures forall i :: PHASES <= i < |r| ==>
      r[i] == Step(nodes[i - PHASES], CephPurge, ResultOf(o.purgeOk(nodes[i - PHASES])))
  {
    seq(PHASES, k requires 0 <= k < PHASES =>
      Step("", ClusterPhases()[k], if o.found || k == 0 then PhaseResult(o, k) else Pending))
    + seq(|nodes|, i requires 0 <= i < |nodes| => Step(nodes[i], CephPurge, ResultOf(o.purgeOk(nodes[i]))))
  }

  /** Every interleaving, under every launch order, ends with the same steps and appends none. */
  lemma PurgesAreConfluent(cfg: Config, o: Outcomes, actions: seq<Action>)
    requires ValidConfig(cfg) && Run(cfg, o, actions).Some? && Run(cfg, o, actions).value.pc == Done
    ensures Run(cfg, o, actions).value.steps == FinalSteps(cfg.nodes, o)
  {
    RunInv(cfg, o, actions);
    hide Run;
    var s := Run(cfg, o, actions).value;
    var f := FinalSteps(cfg.nodes, o);
    forall r | 0 <= r < |f| ensures s.steps[r] == f[r] {
      if r >= PHASES {
        assert s.steps[r].host in cfg.nodes && s.steps[r].host in cfg.launch;
      }
    }
  }

  /** No step is ever appended, and no purge starts before every cluster phase is terminal, unless no Ceph was found. */
  lemma PurgeComesLast(cfg: Config, o: Outcomes, actions: seq<Action>, r: nat, k: nat)
    requires ValidConfig(cfg) && Run(cfg, o, actions).Some? && k < PHASES
    ensures |Run(cfg, o, actions).value.steps| == PHASES + |cfg.nodes|
    ensures var steps := Run(cfg, o, actions).value.steps;
            o.found && r < |steps| && steps[r].phase == CephPurge && steps[r].state != Pending ==>
              steps[k].state == Succeeded || steps[k].state == Failed
  {
    RunInv(cfg, o, actions);
    hide Run;
    var s := Run(cfg, o, actions).value;
    if r < PHASES {
      assert ClusterPhases()[r] != CephPurge;
    }
  }

  /** The job fails exactly when the purge failed on every node. */
  lemma FailsIffAllPurgesFail(cfg: Config, o: Outcomes, actions: seq<Action>)
    requires ValidConfig(cfg) && Run(cfg, o, actions).Some? && Run(cfg, o, actions).value.pc == Done
    ensures Run(cfg, o, actions).value.job == JobFailed <==> forall h :: h in cfg.nodes ==> !o.purgeOk(h)
    ensures Run(cfg, o, actions).value.job != JobRunning
  {
    RunInv(cfg, o, actions);
    PurgesAreConfluent(cfg, o, actions);
    hide Run, Shape, FinalSteps, FinalJob;
    FinalJobOf(cfg.nodes, o);
  }

  lemma FinalJobOf(nodes: seq<string>, o: Outcomes)
    requires |nodes| > 0
    ensures FinalJob(FinalSteps(nodes, o)) == JobFailed <==> forall h :: h in nodes ==> !o.purgeOk(h)
    ensures FinalJob(FinalSteps(nodes, o)) != JobRunning
  {
    var f := FinalSteps(nodes, o);
    hide FinalSteps;
    assert f[PHASES] in f && f[PHASES].phase == CephPurge;
    if h :| h in nodes && o.purgeOk(h) {
      var i :| 0 <= i < |nodes| && nodes[i] == h;
      assert f[PHASES + i] in f && f[PHASES + i].state == Succeeded;
    } else {
      forall s | s in f && s.phase == CephPurge ensures s.state != Succeeded {
        var r :| 0 <= r < |f| && f[r] == s;
        if r >= PHASES {
          assert nodes[r - PHASES] in nodes;
        }
      }
    }
  }

  // ---- What each phase shows, and in which order the phases come ----

  /** The place of a cluster phase in the teardown; nothing for any other phase. */
  function Place(p: Phase): Option<nat> {
    match p
    case DestroyPreflight => Some(0)
    case SetNoout => Some(1)
    case DeleteFS => Some(2)
    case DeletePools => Some(3)
    case DeleteMDS => Some(4)
    case DeleteOSD => Some(5)
    case DeleteMGR => Some(6)
    case DeleteMON => Some(7)
    case _ => None
  }

  lemma PlaceOf(p: Phase)
    requires Place(p).Some?
    ensures Place(p).value < PHASES && ClusterPhases()[Place(p).value] == p
  {
  }

  lemma RowOf(cfg: Config, steps: seq<Step>, p: Phase, st: StepState)
    requires Shape(cfg, steps) && Place(p).Some?
    ensures Place(p).value < |steps|
    ensures Shows(steps, "", p, st) <==> steps[Place(p).value].state == st
  {
    PlaceOf(p);
    var k := Place(p).value;
    assert forall j :: 0 <= j < k ==> steps[j].phase == ClusterPhases()[j];
    FindUnique(steps, "", p, k);
    hide Find;
  }

  /** A finished teardown shows every cluster phase failed if and only if it failed; without Ceph none but the preflight ran. */
  lemma PhasesShowOutcomes(cfg: Config, o: Outcomes, actions: seq<Action>, p: Phase)
    requires ValidConfig(cfg) && Run(cfg, o, actions).Some? && Run(cfg, o, actions).value.pc == Done && Place(p).Some?
    ensures Shows(Run(cfg, o, actions).value.steps, "", p,
              if p == DestroyPreflight then Succeeded
              else if !o.found then Pending
              else if o.phaseOk(p) then Succeeded else Failed)
  {
    RunInv(cfg, o, actions);
    PlaceOf(p);
    var s := Run(cfg, o, actions).value;
    hide Run, Find, Shows;
    RowOf(cfg, s.steps, p, s.steps[Place(p).value].state);
  }

  ghost predicate Terminal(steps: seq<Step>, p: Phase) { Shows(steps, "", p, Succeeded) || Shows(steps, "", p, Failed) }

  /** At every point of every run a phase that has begun has all phases with an earlier place behind it. */
  lemma PhasesInOrder(cfg: Config, o: Outcomes, actions: seq<Action>, p: Phase, q: Phase)
    requires ValidConfig(cfg) && Run(cfg, o, actions).Some? && Place(p).Some? && Place(q).Some? && Place(p).value < Place(q).value
    ensures var steps := Run(cfg, o, actions).value.steps; Shows(steps, "", q, Pending) || Terminal(steps, p)
  {
    RunInv(cfg, o, actions);
    PlaceOf(p);
    PlaceOf(q);
    var s := Run(cfg, o, actions).value;
    hide Run, Find, Shows;
    RowOf(cfg, s.steps, p, s.steps[Place(p).value].state);
    RowOf(cfg, s.steps, q, s.steps[Place(q).value].state);
  }

  /** No monitor and no manager is deleted before the OSDs were, and no pool before the file systems. */
  lemma MonitorsOutliveOSDs(cfg: Config, o: Outcomes, actions: seq<Action>)
    requires ValidConfig(cfg) && Run(cfg, o, actions).Some?
    ensures var steps := Run(cfg, o, actions).value.steps;
            && (Shows(steps, "", DeleteMON, Pending) || (Terminal(steps, DeleteOSD) && Terminal(steps, DeleteMGR)))
            && (Shows(steps, "", DeleteMGR, Pending) || Terminal(steps, DeleteOSD))
            && (Shows(steps, "", DeleteOSD, Pending) || Terminal(steps, DeleteMDS))
            && (Shows(steps, "", DeletePools, Pending) || Terminal(steps, DeleteFS))
  {
    hide Run, Terminal, Shows, ValidConfig;
    PhasesInOrder(cfg, o, actions, DeleteOSD, DeleteMON);
    PhasesInOrder(cfg, o, actions, DeleteMGR, DeleteMON);
    PhasesInOrder(cfg, o, actions, DeleteOSD, DeleteMGR);
    PhasesInOrder(cfg, o, actions, DeleteMDS, DeleteOSD);
    PhasesInOrder(cfg, o, actions, DeleteFS, DeletePools);
  }

  /** A finished teardown shows a purge failed if and only if it failed. */
  lemma PurgesShowOutcomes(cfg: Config, o: Outcomes, actions: seq<Action>, h: string)
    requires ValidConfig(cfg) && Run(cfg, o, actions).Some? && Run(cfg, o, actions).value.pc == Done && h in cfg.nodes
    ensures Shows(Run(cfg, o, actions).value.steps, h, CephPurge, if o.purgeOk(h) then Succeeded else Failed)
  {
    RunInv(cfg, o, actions);
    var s := Run(cfg, o, actions).value;
    hide Run, Find;
    var i :| 0 <= i < |cfg.nodes| && cfg.nodes[i] == h;
    OtherRows(cfg, s.steps, i);
    forall j | 0 <= j < PHASES + i ensures !Matches(s.steps[j], h, CephPurge) {
      if j < PHASES {
        assert ClusterPhases()[j] != CephPurge;
      }
    }
    FindUnique(s.steps, h, CephPurge, PHASES + i);
  }
}
