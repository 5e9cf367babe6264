/** The install orchestration as a machine: one main goroutine, and one goroutine per node while packages install. */
module CephInstall {
  import opened Options
  import opened Seqs
  import opened CephJob

  /** The requested nodes, and the name the founder's client reports for itself. */
  datatype Config = Config(nodes: seq<string>, founderName: string)

  ghost predicate ValidConfig(cfg: Config) {
    |cfg.nodes| > 0
  }

  // ---- Seeding ----

  function Rows(hosts: seq<string>, phase: Phase): (r: seq<Step>)
    ensures |r| == |hosts| && forall i :: 0 <= i < |hosts| ==> r[i] == Step(hosts[i], phase, Pending)
  {
    seq(|hosts|, i requires 0 <= i < |hosts| => Step(hosts[i], phase, Pending))
  }

  function Seed(nodes: seq<string>): seq<Step>
    requires |nodes| > 0
  {
    Rows(nodes, InstallPreflight) + Rows(nodes, InstallPackages) + Rows([nodes[0]], CephInit)
    + Rows(nodes, CreateMON) + Rows([nodes[0]], CreateMGR) + Rows([""], WaitHealthy)
  }

  /** The plan row by row: who does what, and in which order. */
  lemma SeedIsPlan(nodes: seq<string>, i: nat)
    requires i < |nodes|
    ensures var n, plan := |nodes|, Seed(nodes);
            && |plan| == 3 * n + 3
            && plan[i] == Step(nodes[i], InstallPreflight, Pending)
            && plan[n + i] == Step(nodes[i], InstallPackages, Pending)
            && plan[2 * n] == Step(nodes[0], CephInit, Pending)
            && plan[2 * n + 1 + i] == Step(nodes[i], CreateMON, Pending)
            && plan[3 * n + 1] == Step(nodes[0], CreateMGR, Pending)
            && plan[3 * n + 2] == Step("", WaitHealthy, Pending)
  {
    var n := |nodes|;
    var tail := Rows(nodes, CreateMON) + Rows([nodes[0]], CreateMGR) + Rows([""], WaitHealthy);
    assert Seed(nodes) == Rows(nodes, InstallPreflight) + Rows(nodes, InstallPackages) + Rows([nodes[0]], CephInit) + tail;
    assert tail[i] == Step(nodes[i], CreateMON, Pending);
    assert tail[n] == Step(nodes[0], CreateMGR, Pending) && tail[n + 1] == Step("", WaitHealthy, Pending);
  }

  /** StartInstall seeds every expected step up-front, phase by phase. */
  method SeedSteps(nodes: seq<string>) returns (steps: seq<Step>)
    requires |nodes| > 0
    ensures steps == Seed(nodes)
  {
    steps := AppendRows([], nodes, InstallPreflight);
    steps := AppendRows(steps, nodes, InstallPackages);
    steps := steps + [Step(nodes[0], CephInit, Pending)];
    steps := AppendRows(steps, nodes, CreateMON);
    steps := steps + [Step(nodes[0], CreateMGR, Pending)];
    steps := steps + [Step("", WaitHealthy, Pending)];
    assert [Step(nodes[0], CephInit, Pending)] == Rows([nodes[0]], CephInit);
    assert [Step(nodes[0], CreateMGR, Pending)] == Rows([nodes[0]], CreateMGR);
    assert [Step("", WaitHealthy, Pending)] == Rows([""], WaitHealthy);
    assert [] + Rows(nodes, InstallPreflight) == Rows(nodes, InstallPreflight);
  }

  method AppendRows(steps: seq<Step>, nodes: seq<string>, phase: Phase) returns (out: seq<Step>)
    ensures out == steps + Rows(nodes, phase)
  {
    out := steps;
    for i := 0 to |nodes|
      invariant out == steps + Rows(nodes, phase)[..i]
    {
      out := out + [Step(nodes[i], phase, Pending)];
    }
  }

  /** Position of an install phase in the plan. */
  function Idx(p: Phase): nat {
    match p
    case InstallPreflight => 0
    case InstallPackages => 1
    case CephInit => 2
    case CreateMON => 3
    case CreateMGR => 4
    case WaitHealthy => 5
    case _ => 6
  }

  /** The keys the orchestration writes. */
  ghost predicate Writes(cfg: Config, h: string, p: Phase)
    requires ValidConfig(cfg)
  {
    match p
    case InstallPreflight => h in cfg.nodes
    case InstallPackages => h in cfg.nodes
    case CephInit => h == cfg.founderName
    case CreateMON => h in cfg.nodes
    case CreateMGR => h == cfg.nodes[0]
    case WaitHealthy => h == ""
    case _ => false
  }

  // ---- The machine ----

  datatype PC =
    | Resolve(i: nat)
    | BeginPreflight(i: nat)
    | Probing
    | MarkPreflight(i: nat, blocked: seq<bool>, go: bool)
    | Launch(i: nat)
    | Await
    | MarkPackages(i: nat, anyFailed: bool)
    | Init(started: bool)
    | Mon(i: nat, started: bool)
    | MonWait(i: nat)
    | Mgr(started: bool)
    | MgrWait
    | Health(started: bool)
    | Failing(stage: nat)
    | Succeeding
    | Done(ok: bool, stage: nat)

  datatype State = State(
    pc: PC, steps: seq<Step>, job: JobState, terminalSets: nat, inFlight: set<nat>, results: map<string, bool>, mons: nat)

  /** The phase the main goroutine is in; 6 once all are through. */
  function Stage(pc: PC): nat {
    match pc
    case Resolve(_) => 0
    case BeginPreflight(_) => 0
    case Probing => 0
    case MarkPreflight(_, _, _) => 0
    case Launch(_) => 1
    case Await => 1
    case MarkPackages(_, _) => 1
    case Init(_) => 2
    case Mon(_, _) => 3
    case MonWait(_) => 3
    case Mgr(_) => 4
    case MgrWait => 4
    case Health(_) => 5
    case Failing(k) => k
    case Succeeding => 6
    case Done(_, k) => k
  }

  /** Main(ok) advances the main goroutine, `ok` being the outcome of its remote call if it makes one. */
  datatype Action =
    | Main(ok: bool)
    | Report(probes: seq<Probe>)
    | Post(node: nat, ok: bool)

  ghost function InitState(cfg: Config): State
    requires ValidConfig(cfg)
  {
    State(Resolve(0), Seed(cfg.nodes), JobRunning, 0, {}, map[], 0)
  }

  ghost function Set(s: State, h: string, p: Phase, st: StepState, pc: PC): State {
    s.(steps := SetState(s.steps, h, p, st), pc := pc)
  }

  /** One step of the main goroutine, or None when it is blocked or finished. */
  ghost function MainStep(cfg: Config, s: State, ok: bool): Option<State>
    requires ValidConfig(cfg)
  {
    var ns := cfg.nodes;
    match s.pc
    case Resolve(i) =>
      if i >= |ns| then Some(s.(pc := BeginPreflight(0)))
      else if ok then Some(s.(pc := Resolve(i + 1)))
      else Some(Set(s, ns[i], InstallPreflight, Failed, Failing(0)))
    case BeginPreflight(i) =>
      if i >= |ns| then Some(s.(pc := Probing))
      else Some(Set(s, ns[i], InstallPreflight, Running, BeginPreflight(i + 1)))
    case Probing => None
    case MarkPreflight(i, blocked, go) =>
      if i >= |ns| || i >= |blocked| then Some(s.(pc := if go then Launch(0) else Failing(0)))
      else Some(Set(s, ns[i], InstallPreflight, if blocked[i] then Failed else Succeeded, MarkPreflight(i + 1, blocked, go)))
    case Launch(i) =>
      if i >= |ns| then Some(s.(pc := Await))
      else Some(Set(s, ns[i], InstallPackages, Running, Launch(i + 1)).(inFlight := s.inFlight + {i}))
    case Await => if s.inFlight == {} then Some(s.(pc := MarkPackages(0, false))) else None
    case MarkPackages(i, bad) =>
      if i >= |ns| then Some(s.(pc := if bad then Failing(1) else Init(false)))
      else
        var failed := ns[i] in s.results && !s.results[ns[i]];
        Some(Set(s, ns[i], InstallPackages, if failed then Failed else Succeeded, MarkPackages(i + 1, bad || failed)))
    case Init(started) =>
      if !started then Some(Set(s, cfg.founderName, CephInit, Running, Init(true)))
      else if ok then Some(Set(s, cfg.founderName, CephInit, Succeeded, Mon(0, false)))
      else Some(Set(s, cfg.founderName, CephInit, Failed, Failing(2)))
    case Mon(i, started) =>
      if i >= |ns| then Some(s.(pc := Mgr(false)))
      else if !started then Some(Set(s, ns[i], CreateMON, Running, Mon(i, true)))
      else if ok then Some(s.(pc := MonWait(i), steps := Touch(s.steps, ns[i], CreateMON)))
      else Some(Set(s, ns[i], CreateMON, Failed, Failing(3)))
    case MonWait(i) =>
      if i >= |ns| then None
      else if ok then Some(Set(s, ns[i], CreateMON, Succeeded, Mon(i + 1, false)).(mons := i + 1))
      else Some(Set(s, ns[i], CreateMON, Failed, Failing(3)))
    case Mgr(started) =>
      if !started then Some(Set(s, ns[0], CreateMGR, Running, Mgr(true)))
      else if ok then Some(s.(pc := MgrWait, steps := Touch(s.steps, ns[0], CreateMGR)))
      else Some(Set(s, ns[0], CreateMGR, Failed, Failing(4)))
    case MgrWait =>
      if ok then Some(Set(s, ns[0], CreateMGR, Succeeded, Health(false)))
      else Some(Set(s, ns[0], CreateMGR, Failed, Failing(4)))
    case Health(started) =>
      if !started then Some(Set(s, "", WaitHealthy, Running, Health(true)))
      else if ok then Some(Set(s, "", WaitHealthy, Succeeded, Succeeding))
      else Some(Set(s, "", WaitHealthy, Failed, Failing(5)))
    case Failing(k) => Some(s.(job := JobFailed, terminalSets := s.terminalSets + 1, pc := Done(false, k)))
    case Succeeding => Some(s.(job := JobSucceeded, terminalSets := s.terminalSets + 1, pc := Done(true, 6)))
    case Done(_, _) => None
  }

  ghost function Next(cfg: Config, s: State, a: Action): Option<State>
    requires ValidConfig(cfg)
  {
    match a
    case Main(ok) => MainStep(cfg, s, ok)
    case Report(probes) =>
      if s.pc == Probing && |probes| == |cfg.nodes| then
        Some(s.(pc := MarkPreflight(0, seq(|probes|, i requires 0 <= i < |probes| => Blocked(probes[i])), MayProceed(probes))))
      else None
    case Post(i, ok) =>
      if i in s.inFlight && i < |cfg.nodes| then
        Some(s.(inFlight := s.inFlight - {i}, results := s.results[cfg.nodes[i] := ok],
                steps := Touch(s.steps, cfg.nodes[i], InstallPackages)))
      else None
  }

  // ---- What holds of the steps at every point ----

  ghost predicate SameKey(a: Step, b: Step) {
    a.host == b.host && a.phase == b.phase
  }

  /** The seeded rows keep their keys; the only other row is the init step of a founder reporting another name. */
  ghost predicate Seeded(cfg: Config, steps: seq<Step>)
    requires ValidConfig(cfg)
  {
    StartsWith(Seed(cfg.nodes), steps) && ExtraRows(cfg, |Seed(cfg.nodes)|, steps)
  }

  ghost predicate StartsWith(seed: seq<Step>, steps: seq<Step>) {
    |steps| >= |seed| && forall r :: 0 <= r < |seed| ==> SameKey(steps[r], seed[r])
  }

  ghost predicate ExtraRows(cfg: Config, n: nat, steps: seq<Step>)
    requires ValidConfig(cfg)
  {
    forall r :: n <= r < |steps| ==> MisnamedInit(cfg, steps[r])
  }

  /** The init step of a founder that reports another name. */
  ghost predicate MisnamedInit(cfg: Config, s: Step)
    requires ValidConfig(cfg)
  {
    cfg.founderName != cfg.nodes[0] && s.host == cfg.founderName && s.phase == CephInit
  }

  ghost predicate LaterPending(steps: seq<Step>, stage: nat) {
    forall r :: 0 <= r < |steps| && Idx(steps[r].phase) > stage ==> steps[r].state == Pending
  }

  ghost predicate EarlierSucceeded(cfg: Config, steps: seq<Step>, stage: nat)
    requires ValidConfig(cfg)
  {
    forall h, p :: Writes(cfg, h, p) && Idx(p) < stage ==> Shows(steps, h, p, Succeeded)
  }

  /** Rows behind another row of the same key, or seeded for a name the founder does not report, are never written. */
  ghost predicate ShadowsPending(cfg: Config, steps: seq<Step>)
    requires ValidConfig(cfg)
  {
    && (forall r :: 0 <= r < |steps| && Find(steps, steps[r].host, steps[r].phase) != r ==> steps[r].state == Pending)
    && (forall r :: 0 <= r < |steps| && steps[r].phase == CephInit && steps[r].host != cfg.founderName ==>
          steps[r].state == Pending)
  }

  ghost predicate Base(cfg: Config, steps: seq<Step>, stage: nat)
    requires ValidConfig(cfg)
  {
    && Seeded(cfg, steps) && LaterPending(steps, stage)
    && EarlierSucceeded(cfg, steps, stage) && ShadowsPending(cfg, steps)
  }

  lemma SeedHas(cfg: Config, h: string, p: Phase)
    requires ValidConfig(cfg) && Writes(cfg, h, p) && (p == CephInit ==> h == cfg.nodes[0])
    ensures Step(h, p, Pending) in Seed(cfg.nodes)
  {
    var ns := cfg.nodes;
    assert forall q :: Rows([ns[0]], q)[0] == Step(ns[0], q, Pending);
    assert Rows([""], WaitHealthy)[0] == Step("", WaitHealthy, Pending);
    if h in ns {
      var i :| 0 <= i < |ns| && ns[i] == h;
      assert forall q :: Rows(ns, q)[i] == Step(h, q, Pending);
    }
  }

  /** A written key other than a mismatched founder's init step is always found. */
  lemma WrittenIsFound(cfg: Config, steps: seq<Step>, h: string, p: Phase)
    requires ValidConfig(cfg) && Seeded(cfg, steps) && Writes(cfg, h, p) && (p == CephInit ==> h == cfg.nodes[0])
    ensures Find(steps, h, p) < |Seed(cfg.nodes)|
  {
    SeedHas(cfg, h, p);
    hide Seed, Find;
    var seed := Seed(cfg.nodes);
    var r :| 0 <= r < |seed| && seed[r] == Step(h, p, Pending);
    assert SameKey(steps[r], seed[r]);
    assert Matches(steps[r], h, p);
  }

  /** Writing a step of the current phase keeps the base invariant. */
  lemma BaseSet(cfg: Config, steps: seq<Step>, stage: nat, h: string, p: Phase, st: StepState)
    requires ValidConfig(cfg) && Base(cfg, steps, stage) && Writes(cfg, h, p) && Idx(p) == stage
    ensures Base(cfg, SetState(steps, h, p, st), stage)
  {
    var steps' := SetState(steps, h, p, st);
    SetStateKeys(steps, h, p, st);
    if !(p == CephInit && h != cfg.nodes[0]) {
      WrittenIsFound(cfg, steps, h, p);
    }
    SeededSet(cfg, steps, steps', Find(steps, h, p), h, p);
    assert EarlierSucceeded(cfg, steps', stage) by {
      hide Seed, Find, SetState, Shows;
      forall h', p' | Writes(cfg, h', p') && Idx(p') < stage ensures Shows(steps', h', p', Succeeded) {
        SetStateShows(steps, h, p, st, h', p', Succeeded);
      }
    }
    ShadowsSet(cfg, steps, h, p, st);
  }

  lemma SeededSet(cfg: Config, steps: seq<Step>, steps': seq<Step>, i: nat, h: string, p: Phase)
    requires ValidConfig(cfg) && Seeded(cfg, steps) && Writes(cfg, h, p)
    requires i <= |steps| && |steps'| == (if i < |steps| then |steps| else |steps| + 1)
    requires steps'[i].host == h && steps'[i].phase == p
    requires i < |steps| ==> steps[i].host == h && steps[i].phase == p
    requires forall j :: 0 <= j < |steps| && j != i ==> steps'[j] == steps[j]
    requires !(p == CephInit && h != cfg.nodes[0]) ==> i < |Seed(cfg.nodes)|
    ensures Seeded(cfg, steps')
  {
    hide Seed, Rows, StartsWith, ExtraRows;
    PrefixSet(Seed(cfg.nodes), steps, steps', i, h, p);
    ExtraSet(cfg, |Seed(cfg.nodes)|, steps, steps', i, h, p);
  }

  lemma PrefixSet(seed: seq<Step>, steps: seq<Step>, steps': seq<Step>, i: nat, h: string, p: Phase)
    requires StartsWith(seed, steps) && i <= |steps| && |steps'| == (if i < |steps| then |steps| else |steps| + 1)
    requires steps'[i].host == h && steps'[i].phase == p
    requires i < |steps| ==> steps[i].host == h && steps[i].phase == p
    requires forall j :: 0 <= j < |steps| && j != i ==> steps'[j] == steps[j]
    ensures StartsWith(seed, steps')
  {
    forall r | 0 <= r < |seed| ensures SameKey(steps'[r], seed[r]) {
      assert SameKey(steps[r], seed[r]);
    }
  }

  lemma ExtraSet(cfg: Config, n: nat, steps: seq<Step>, steps': seq<Step>, i: nat, h: string, p: Phase)
    requires ValidConfig(cfg) && ExtraRows(cfg, n, steps) && Writes(cfg, h, p)
    requires i <= |steps| && |steps'| == (if i < |steps| then |steps| else |steps| + 1)
    requires steps'[i].host == h && steps'[i].phase == p
    requires forall j :: 0 <= j < |steps| && j != i ==> steps'[j] == steps[j]
    requires !(p == CephInit && h != cfg.nodes[0]) ==> i < n
    ensures ExtraRows(cfg, n, steps')
  {
    forall r | n <= r < |steps'| ensures MisnamedInit(cfg, steps'[r]) {
      if r != i {
        assert MisnamedInit(cfg, steps[r]);
      }
    }
  }

  lemma ShadowsSet(cfg: Config, steps: seq<Step>, h: string, p: Phase, st: StepState)
    requires ValidConfig(cfg) && ShadowsPending(cfg, steps) && Writes(cfg, h, p)
    ensures ShadowsPending(cfg, SetState(steps, h, p, st))
  {
    hide Find, SetState;
    var steps' := SetState(steps, h, p, st);
    var i := Find(steps, h, p);
    SetStateKeys(steps, h, p, st);
    forall r | 0 <= r < |steps'| && Find(steps', steps'[r].host, steps'[r].phase) != r ensures steps'[r].state == Pending {
      if r == i {
        FindAfterSame(steps, h, p, st);
      } else {
        KeyPositions(steps, steps', i, r);
      }
    }
  }

  lemma KeyPositions(steps: seq<Step>, steps': seq<Step>, i: nat, r: nat)
    requires r < |steps| <= |steps'| && i < |steps'| && r != i && steps'[r] == steps[r]
    requires forall j :: 0 <= j < |steps| && j != i ==> steps'[j] == steps[j]
    requires i < |steps| ==> SameKey(steps'[i], steps[i])
    requires Find(steps', steps[r].host, steps[r].phase) != r
    ensures Find(steps, steps[r].host, steps[r].phase) != r
  {
    hide Find;
    var h, p := steps[r].host, steps[r].phase;
    SameKeys(steps, steps', i, h, p);
    if Find(steps, h, p) == r {
      FindUnique(steps', h, p, r);
    }
  }

  /** Finishing a phase with every one of its steps succeeded moves the base invariant on. */
  lemma BaseAdvance(cfg: Config, steps: seq<Step>, stage: nat)
    requires ValidConfig(cfg) && Base(cfg, steps, stage)
    requires forall h, p :: Writes(cfg, h, p) && Idx(p) == stage ==> Shows(steps, h, p, Succeeded)
    ensures Base(cfg, steps, stage + 1)
  {
  }

  // ---- The invariant of the machine ----

  ghost predicate PrefixShows(cfg: Config, s: State, p: Phase, i: nat) {
    i <= |cfg.nodes| && forall j :: 0 <= j < i ==> Shows(s.steps, cfg.nodes[j], p, Succeeded)
  }

  ghost predicate Local(cfg: Config, s: State)
    requires ValidConfig(cfg)
  {
    var ns := cfg.nodes;
    match s.pc
    case MarkPreflight(i, blocked, go) =>
      && |blocked| == |ns| && i <= |ns|
      && (go ==> forall j :: 0 <= j < |ns| ==> !blocked[j])
      && ((forall j :: 0 <= j < i ==> !blocked[j]) ==> PrefixShows(cfg, s, InstallPreflight, i))
    case Launch(i) => i <= |ns| && forall j :: j in s.inFlight ==> j < i
    case Await => forall j :: j in s.inFlight ==> j < |ns|
    case MarkPackages(i, bad) => i <= |ns| && s.inFlight == {} && (!bad ==> PrefixShows(cfg, s, InstallPackages, i))
    case Mon(i, started) =>
      && i == s.mons <= |ns|
      && (!started ==> PrefixShows(cfg, s, CreateMON, i))
      && (started ==> i < |ns|)
    case MonWait(i) => i == s.mons < |ns|
    case _ => true
  }

  /** MON creation is serial: nodes before the current one are done, nodes after it are untouched. */
  ghost predicate Serial(cfg: Config, s: State)
    requires ValidConfig(cfg)
  {
    var ns, k := cfg.nodes, s.mons;
    Stage(s.pc) == 3 ==>
      && k <= |ns|
      && (forall j :: 0 <= j < k && (k < |ns| ==> ns[j] != ns[k]) ==> Shows(s.steps, ns[j], CreateMON, Succeeded))
      && (forall j :: k < j < |ns| && ns[j] !in ns[..k + 1] ==> Shows(s.steps, ns[j], CreateMON, Pending))
  }

  ghost predicate Inv(cfg: Config, s: State)
    requires ValidConfig(cfg)
  {
    && Base(cfg, s.steps, Stage(s.pc))
    && Local(cfg, s)
    && Serial(cfg, s)
    && (s.pc.Failing? ==> s.pc.stage <= 5)
    && (s.pc.Done? ==> if s.pc.ok then s.pc.stage == 6 else s.pc.stage <= 5)
    && (Stage(s.pc) < 3 ==> s.mons == 0)
    && (s.inFlight != {} ==> s.pc.Launch? || s.pc.Await?)
    && s.terminalSets == (if s.pc.Done? then 1 else 0)
    && (s.job == if s.pc.Done? then (if s.pc.ok then JobSucceeded else JobFailed) else JobRunning)
  }

  lemma PrefixGrows(cfg: Config, s: State, p: Phase, i: nat, pc: PC)
    requires i < |cfg.nodes| && PrefixShows(cfg, s, p, i)
    ensures PrefixShows(cfg, Set(s, cfg.nodes[i], p, Succeeded, pc), p, i + 1)
  {
    hide SetState, Shows;
    forall j | 0 <= j < i + 1 ensures Shows(SetState(s.steps, cfg.nodes[i], p, Succeeded), cfg.nodes[j], p, Succeeded) {
      SetStateShows(s.steps, cfg.nodes[i], p, Succeeded, cfg.nodes[j], p, Succeeded);
    }
  }

  /** A per-node phase is over when every node shows success. */
  lemma NodesDone(cfg: Config, s: State, p: Phase)
    requires ValidConfig(cfg) && Base(cfg, s.steps, Idx(p)) && PrefixShows(cfg, s, p, |cfg.nodes|)
    requires p == InstallPreflight || p == InstallPackages || p == CreateMON
    ensures Base(cfg, s.steps, Idx(p) + 1)
  {
    hide Shows, Base;
    forall h, q | Writes(cfg, h, q) && Idx(q) == Idx(p) ensures Shows(s.steps, h, q, Succeeded) {
      var j :| 0 <= j < |cfg.nodes| && cfg.nodes[j] == h;
      assert Shows(s.steps, cfg.nodes[j], p, Succeeded);
    }
    BaseAdvance(cfg, s.steps, Idx(p));
  }

  /** A single-step phase is over when its one step succeeds. */
  lemma SingleDone(cfg: Config, steps: seq<Step>, h: string, p: Phase)
    requires ValidConfig(cfg) && Base(cfg, steps, Idx(p)) && Writes(cfg, h, p)
    requires p == CephInit || p == CreateMGR || p == WaitHealthy
    ensures Base(cfg, SetState(steps, h, p, Succeeded), Idx(p) + 1)
  {
    hide Shows, Base, SetState;
    BaseSet(cfg, steps, Idx(p), h, p, Succeeded);
    SetStateShows(steps, h, p, Succeeded, h, p, Succeeded);
    BaseAdvance(cfg, SetState(steps, h, p, Succeeded), Idx(p));
  }

  lemma TouchIsSilent(cfg: Config, steps: seq<Step>, stage: nat, h: string, p: Phase)
    requires ValidConfig(cfg) && Base(cfg, steps, stage) && Writes(cfg, h, p) && p != CephInit
    ensures Touch(steps, h, p) == steps
  {
    WrittenIsFound(cfg, steps, h, p);
  }

  lemma MonsUntouched(cfg: Config, steps: seq<Step>, j: nat)
    requires ValidConfig(cfg) && Base(cfg, steps, 2) && j < |cfg.nodes|
    ensures Shows(steps, cfg.nodes[j], CreateMON, Pending)
  {
    WrittenIsFound(cfg, steps, cfg.nodes[j], CreateMON);
    hide Find, Seed;
  }

  lemma PreflightStep(cfg: Config, s: State, ok: bool)
    requires ValidConfig(cfg) && Inv(cfg, s) && Stage(s.pc) == 0 && !s.pc.Failing? && !s.pc.Done? && MainStep(cfg, s, ok).Some?
    ensures Inv(cfg, MainStep(cfg, s, ok).value)
  {
    hide Base, SetState, Shows;
    var ns := cfg.nodes;
    match s.pc
    case Resolve(i) =>
      if i < |ns| && !ok {
        BaseSet(cfg, s.steps, 0, ns[i], InstallPreflight, Failed);
      }
    case BeginPreflight(i) =>
      if i < |ns| {
        BaseSet(cfg, s.steps, 0, ns[i], InstallPreflight, Running);
      }
    case MarkPreflight(i, blocked, go) =>
      if i < |ns| {
        BaseSet(cfg, s.steps, 0, ns[i], InstallPreflight, if blocked[i] then Failed else Succeeded);
        if forall j :: 0 <= j < i + 1 ==> !blocked[j] {
          PrefixGrows(cfg, s, InstallPreflight, i, MarkPreflight(i + 1, blocked, go));
        }
      } else if go {
        NodesDone(cfg, s, InstallPreflight);
      }
  }

  lemma PackagesStep(cfg: Config, s: State, ok: bool)
    requires ValidConfig(cfg) && Inv(cfg, s) && Stage(s.pc) == 1 && !s.pc.Failing? && !s.pc.Done? && MainStep(cfg, s, ok).Some?
    ensures Inv(cfg, MainStep(cfg, s, ok).value)
  {
    hide Base, SetState, Shows;
    var ns := cfg.nodes;
    match s.pc
    case Launch(i) =>
      if i < |ns| {
        BaseSet(cfg, s.steps, 1, ns[i], InstallPackages, Running);
      }
    case Await =>
    case MarkPackages(i, bad) =>
      if i < |ns| {
        var failed := ns[i] in s.results && !s.results[ns[i]];
        BaseSet(cfg, s.steps, 1, ns[i], InstallPackages, if failed then Failed else Succeeded);
        if !bad && !failed {
          PrefixGrows(cfg, s, InstallPackages, i, MarkPackages(i + 1, false));
        }
      } else if !bad {
        NodesDone(cfg, s, InstallPackages);
      }
  }

  lemma InitStep(cfg: Config, s: State, ok: bool)
    requires ValidConfig(cfg) && Inv(cfg, s) && s.pc.Init?
    ensures Inv(cfg, MainStep(cfg, s, ok).value)
  {
    hide Base, SetState, Shows;
    BaseSet(cfg, s.steps, 2, cfg.founderName, CephInit, Running);
    BaseSet(cfg, s.steps, 2, cfg.founderName, CephInit, Failed);
    BaseSet(cfg, s.steps, 2, cfg.founderName, CephInit, Succeeded);
    SingleDone(cfg, s.steps, cfg.founderName, CephInit);
    var steps' := SetState(s.steps, cfg.founderName, CephInit, Succeeded);
    forall j | 0 <= j < |cfg.nodes| ensures Shows(steps', cfg.nodes[j], CreateMON, Pending) {
      MonsUntouched(cfg, steps', j);
    }
  }

  /** A write to the MON step of the current node leaves the other nodes' MON steps as they were. */
  lemma SerialSet(cfg: Config, s: State, st: StepState, pc: PC)
    requires ValidConfig(cfg) && Stage(s.pc) == 3 && Serial(cfg, s) && s.mons < |cfg.nodes|
    ensures Serial(cfg, Set(s, cfg.nodes[s.mons], CreateMON, st, pc))
    ensures st == Succeeded ==> PrefixShows(cfg, Set(s, cfg.nodes[s.mons], CreateMON, st, pc), CreateMON, s.mons + 1)
    ensures st == Succeeded && pc == Mon(s.mons + 1, false) ==>
      Serial(cfg, Set(s, cfg.nodes[s.mons], CreateMON, st, pc).(mons := s.mons + 1))
  {
    hide SetState, Shows;
    var ns, k := cfg.nodes, s.mons;
    var steps' := SetState(s.steps, ns[k], CreateMON, st);
    forall j | 0 <= j < |ns|
      ensures forall v :: Shows(steps', ns[j], CreateMON, v) <==>
                if ns[j] == ns[k] then v == st else Shows(s.steps, ns[j], CreateMON, v)
    {
      forall v { SetStateShows(s.steps, ns[k], CreateMON, st, ns[j], CreateMON, v); }
    }
    assert ns[k] in ns[..k + 1];
    if k + 1 < |ns| {
      assert ns[..k + 2] == ns[..k + 1] + [ns[k + 1]];
    }
  }

  lemma MonStep(cfg: Config, s: State, ok: bool)
    requires ValidConfig(cfg) && Inv(cfg, s) && (s.pc.Mon? || s.pc.MonWait?)
    ensures MainStep(cfg, s, ok).Some? && Inv(cfg, MainStep(cfg, s, ok).value)
  {
    hide Base, SetState, Shows, Touch;
    var ns, i := cfg.nodes, s.mons;
    if i >= |ns| {
      NodesDone(cfg, s, CreateMON);
    } else {
      BaseSet(cfg, s.steps, 3, ns[i], CreateMON, Running);
      BaseSet(cfg, s.steps, 3, ns[i], CreateMON, Failed);
      BaseSet(cfg, s.steps, 3, ns[i], CreateMON, Succeeded);
      TouchIsSilent(cfg, s.steps, 3, ns[i], CreateMON);
      SerialSet(cfg, s, Running, Mon(i, true));
      SerialSet(cfg, s, Failed, Failing(3));
      SerialSet(cfg, s, Succeeded, Mon(i + 1, false));
    }
  }

  lemma TailStep(cfg: Config, s: State, ok: bool)
    requires ValidConfig(cfg) && Inv(cfg, s)
    requires s.pc.Mgr? || s.pc.MgrWait? || s.pc.Health? || s.pc.Failing? || s.pc.Succeeding?
    ensures Inv(cfg, MainStep(cfg, s, ok).value)
  {
    hide Base, SetState, Shows, Touch;
    var f := cfg.nodes[0];
    if s.pc.Mgr? || s.pc.MgrWait? {
      BaseSet(cfg, s.steps, 4, f, CreateMGR, Running);
      BaseSet(cfg, s.steps, 4, f, CreateMGR, Failed);
      SingleDone(cfg, s.steps, f, CreateMGR);
      TouchIsSilent(cfg, s.steps, 4, f, CreateMGR);
    } else if s.pc.Health? {
      BaseSet(cfg, s.steps, 5, "", WaitHealthy, Running);
      BaseSet(cfg, s.steps, 5, "", WaitHealthy, Failed);
      SingleDone(cfg, s.steps, "", WaitHealthy);
    }
  }

  lemma OtherStep(cfg: Config, s: State, a: Action)
    requires ValidConfig(cfg) && Inv(cfg, s) && !a.Main? && Next(cfg, s, a).Some?
    ensures Inv(cfg, Next(cfg, s, a).value)
  {
    hide Base, SetState, Shows, Touch;
    if a.Post? {
      TouchIsSilent(cfg, s.steps, 1, cfg.nodes[a.node], InstallPackages);
    }
  }

  lemma NextKeepsInv(cfg: Config, s: State, a: Action)
    requires ValidConfig(cfg) && Inv(cfg, s) && Next(cfg, s, a).Some?
    ensures Inv(cfg, Next(cfg, s, a).value)
  {
    hide Inv, MainStep;
    match a
    case Main(ok) => MainKeepsInv(cfg, s, ok);
    case _ => OtherStep(cfg, s, a);
  }

  lemma MainKeepsInv(cfg: Config, s: State, ok: bool)
    requires ValidConfig(cfg) && Inv(cfg, s) && MainStep(cfg, s, ok).Some?
    ensures Inv(cfg, MainStep(cfg, s, ok).value)
  {
    hide Inv;
    match s.pc
    case Init(_) => InitStep(cfg, s, ok);
    case Mon(_, _) => MonStep(cfg, s, ok);
    case MonWait(_) => MonStep(cfg, s, ok);
    case Mgr(_) => TailStep(cfg, s, ok);
    case MgrWait => TailStep(cfg, s, ok);
    case Health(_) => TailStep(cfg, s, ok);
    case Failing(_) => TailStep(cfg, s, ok);
    case Succeeding => TailStep(cfg, s, ok);
    case Launch(_) => PackagesStep(cfg, s, ok);
    case Await => PackagesStep(cfg, s, ok);
    case MarkPackages(_, _) => PackagesStep(cfg, s, ok);
    case _ => PreflightStep(cfg, s, ok);
  }

  lemma InitHolds(cfg: Config)
    requires ValidConfig(cfg)
    ensures Inv(cfg, InitState(cfg))
  {
    var seed := Seed(cfg.nodes);
    assert forall r :: 0 <= r < |seed| ==> seed[r].state == Pending;
  }

  // ---- Runs ----

  /** The state after interleaving the goroutines in the given order with the given remote outcomes. */
  ghost function Run(cfg: Config, actions: seq<Action>): Option<State>
    requires ValidConfig(cfg)
    decreases |actions|
  {
    if actions == [] then Some(InitState(cfg)) else
    var before := Run(cfg, actions[..|actions| - 1]);
    if before.None? then None else Next(cfg, before.value, actions[|actions| - 1])
  }

  ghost predicate Reaches(cfg: Config, s: State, actions: seq<Action>)
    requires ValidConfig(cfg)
  {
    Run(cfg, actions) == Some(s)
  }

  lemma {:induction false} ReachableInv(cfg: Config, s: State, actions: seq<Action>)
    requires ValidConfig(cfg) && Reaches(cfg, s, actions)
    ensures Inv(cfg, s)
    decreases |actions|
  {
    hide Inv, Next;
    if actions == [] {
      InitHolds(cfg);
    } else {
      var s0 := Run(cfg, actions[..|actions| - 1]).value;
      ReachableInv(cfg, s0, actions[..|actions| - 1]);
      NextKeepsInv(cfg, s0, actions[|actions| - 1]);
    }
  }

  // ---- Theorems over every interleaving ----

  ghost predicate WellNamed(cfg: Config)
    requires ValidConfig(cfg)
  {
    NoDup(cfg.nodes) && cfg.founderName == cfg.nodes[0]
  }

  ghost predicate UniqueKeys(steps: seq<Step>) {
    forall i, j :: 0 <= i < j < |steps| ==> !SameKey(steps[i], steps[j])
  }

  ghost predicate Before(steps: seq<Step>, k: nat) {
    forall i :: 0 <= i < |steps| ==> Idx(steps[i].phase) < k
  }

  lemma UniqueAppend(a: seq<Step>, hosts: seq<string>, p: Phase)
    requires UniqueKeys(a) && Before(a, Idx(p)) && NoDup(hosts)
    ensures UniqueKeys(a + Rows(hosts, p)) && Before(a + Rows(hosts, p), Idx(p) + 1)
  {
    var b := Rows(hosts, p);
    forall i, j | 0 <= i < j < |a + b| ensures !SameKey((a + b)[i], (a + b)[j]) {
      if i >= |a| {
        assert hosts[i - |a|] != hosts[j - |a|];
      }
    }
  }

  lemma NoDupSingle(s: string)
    ensures NoDup([s])
  {
  }

  lemma SeedUnique(nodes: seq<string>)
    requires |nodes| > 0 && NoDup(nodes)
    ensures UniqueKeys(Seed(nodes))
  {
    var a := Rows(nodes, InstallPreflight);
    UniqueAppend([], nodes, InstallPreflight);
    assert [] + a == a;
    hide UniqueKeys, Rows, Before;
    NoDupSingle(nodes[0]);
    NoDupSingle("");
    var b := a + Rows(nodes, InstallPackages);
    UniqueAppend(a, nodes, InstallPackages);
    var c := b + Rows([nodes[0]], CephInit);
    UniqueAppend(b, [nodes[0]], CephInit);
    var d := c + Rows(nodes, CreateMON);
    UniqueAppend(c, nodes, CreateMON);
    var e := d + Rows([nodes[0]], CreateMGR);
    UniqueAppend(d, [nodes[0]], CreateMGR);
    UniqueAppend(e, [""], WaitHealthy);
  }

  lemma SeedWrites(cfg: Config, r: nat)
    requires ValidConfig(cfg) && cfg.founderName == cfg.nodes[0] && r < |Seed(cfg.nodes)|
    ensures Writes(cfg, Seed(cfg.nodes)[r].host, Seed(cfg.nodes)[r].phase) && Idx(Seed(cfg.nodes)[r].phase) <= 5
  {
    var ns, st := cfg.nodes, Seed(cfg.nodes)[r];
    assert st in Rows(ns, InstallPreflight) || st in Rows(ns, InstallPackages) || st in Rows([ns[0]], CephInit)
        || st in Rows(ns, CreateMON) || st in Rows([ns[0]], CreateMGR) || st in Rows([""], WaitHealthy);
  }

  /** With well-named nodes every row is the one its key shows. */
  lemma RowIsShown(cfg: Config, steps: seq<Step>, r: nat)
    requires ValidConfig(cfg) && WellNamed(cfg) && Seeded(cfg, steps) && r < |steps|
    ensures Find(steps, steps[r].host, steps[r].phase) == r
    ensures Writes(cfg, steps[r].host, steps[r].phase) && Idx(steps[r].phase) <= 5
  {
    var row := steps[r];
    assert r < |Seed(cfg.nodes)|;
    SeedUnique(cfg.nodes);
    SeedWrites(cfg, r);
    var seed := Seed(cfg.nodes);
    assert SameKey(steps[r], seed[r]);
    forall j | 0 <= j < r ensures !Matches(steps[j], steps[r].host, steps[r].phase) {
      assert SameKey(steps[j], seed[j]) && !SameKey(seed[j], seed[r]);
    }
    hide Find, Seed;
    FindUnique(steps, steps[r].host, steps[r].phase, r);
  }

  /** A step that has left pending implies that every step of every earlier phase has succeeded. */
  lemma PhaseOrder(cfg: Config, s: State, actions: seq<Action>, early: nat, late: nat)
    requires ValidConfig(cfg) && WellNamed(cfg) && Reaches(cfg, s, actions)
    requires early < |s.steps| && late < |s.steps| && Idx(s.steps[early].phase) < Idx(s.steps[late].phase)
    requires s.steps[late].state != Pending
    ensures s.steps[early].state == Succeeded
  {
    ReachableInv(cfg, s, actions);
    hide Find, Reaches, Local, Serial;
    RowIsShown(cfg, s.steps, early);
    assert Idx(s.steps[late].phase) <= Stage(s.pc);
    assert Shows(s.steps, s.steps[early].host, s.steps[early].phase, Succeeded);
  }

  /** MON creation advances one node at a time: before the current node all are done, after it none has begun. */
  lemma MonsAreSerial(cfg: Config, s: State, actions: seq<Action>, j: nat)
    requires ValidConfig(cfg) && WellNamed(cfg) && Reaches(cfg, s, actions) && Stage(s.pc) == 3 && j < |cfg.nodes|
    ensures s.mons <= |cfg.nodes|
    ensures j < s.mons ==> Shows(s.steps, cfg.nodes[j], CreateMON, Succeeded)
    ensures j > s.mons ==> Shows(s.steps, cfg.nodes[j], CreateMON, Pending)
  {
    ReachableInv(cfg, s, actions);
    hide Shows, Reaches, Local, Base;
    if s.mons < j {
      assert cfg.nodes[j] !in cfg.nodes[..s.mons + 1];
    }
  }

  /** The terminal state is written exactly once, at the end, and success needs every phase. */
  lemma TerminalOnce(cfg: Config, s: State, actions: seq<Action>)
    requires ValidConfig(cfg) && Reaches(cfg, s, actions)
    ensures s.terminalSets == (if s.job == JobRunning then 0 else 1)
    ensures s.job != JobRunning <==> s.pc.Done?
    ensures forall ok :: s.job != JobRunning ==> Next(cfg, s, Main(ok)).None?
  {
    ReachableInv(cfg, s, actions);
  }

  /**
   * When the job succeeds, all seeded steps show success exactly when the nodes are distinct and the
   * founder's client reports the founder's name; otherwise a seeded step stays pending for good.
   */
  lemma SuccessCoversSeed(cfg: Config, s: State, actions: seq<Action>)
    requires ValidConfig(cfg) && Reaches(cfg, s, actions) && s.job == JobSucceeded
    ensures |s.steps| >= |Seed(cfg.nodes)|
    ensures (forall r :: 0 <= r < |Seed(cfg.nodes)| ==> s.steps[r].state == Succeeded) <==> WellNamed(cfg)
  {
    ReachableInv(cfg, s, actions);
    assert Base(cfg, s.steps, 6);
    hide Reaches, Inv, Base, Seed, WellNamed;
    if WellNamed(cfg) {
      AllSucceeded(cfg, s.steps);
    } else {
      PendingWhenIllNamed(cfg, s, actions);
    }
    SeedIsThere(cfg, s.steps);
  }

  lemma SeedIsThere(cfg: Config, steps: seq<Step>)
    requires ValidConfig(cfg) && Base(cfg, steps, 6)
    ensures |steps| >= |Seed(cfg.nodes)|
  {
    hide Seed;
  }

  lemma AllSucceeded(cfg: Config, steps: seq<Step>)
    requires ValidConfig(cfg) && WellNamed(cfg) && Base(cfg, steps, 6)
    ensures forall r :: 0 <= r < |Seed(cfg.nodes)| && r < |steps| ==> steps[r].state == Succeeded
  {
    hide Find, Seed, Matches, WellNamed;
    forall r | 0 <= r < |Seed(cfg.nodes)| && r < |steps| ensures steps[r].state == Succeeded {
      RowIsShown(cfg, steps, r);
      assert Shows(steps, steps[r].host, steps[r].phase, Succeeded);
    }
  }

  /** A repeated node or a misnamed founder leaves a seeded step pending at every point of every run. */
  lemma PendingWhenIllNamed(cfg: Config, s: State, actions: seq<Action>)
    requires ValidConfig(cfg) && Reaches(cfg, s, actions) && !WellNamed(cfg)
    ensures exists r :: 0 <= r < |Seed(cfg.nodes)| && r < |s.steps| && s.steps[r].state == Pending
  {
    ReachableInv(cfg, s, actions);
    hide Reaches, Local, Serial, Find, Seed, Matches;
    var ns, steps := cfg.nodes, s.steps;
    if !NoDup(ns) {
      var i, j :| 0 <= i < j < |ns| && ns[i] == ns[j];
      ShadowedRow(cfg, steps, i, j);
    } else {
      MisnamedRow(cfg, steps);
    }
  }

  lemma MisnamedRow(cfg: Config, steps: seq<Step>)
    requires ValidConfig(cfg) && Seeded(cfg, steps) && ShadowsPending(cfg, steps) && cfg.founderName != cfg.nodes[0]
    ensures exists r :: 0 <= r < |Seed(cfg.nodes)| && steps[r].state == Pending
  {
    hide Find;
    var seed, r := Seed(cfg.nodes), 2 * |cfg.nodes|;
    assert seed[r] == Step(cfg.nodes[0], CephInit, Pending);
    assert SameKey(steps[r], seed[r]);
  }

  lemma ShadowedRow(cfg: Config, steps: seq<Step>, i: nat, j: nat)
    requires ValidConfig(cfg) && Seeded(cfg, steps) && ShadowsPending(cfg, steps)
    requires i < j < |cfg.nodes| && cfg.nodes[i] == cfg.nodes[j]
    ensures j < |Seed(cfg.nodes)| && steps[j].state == Pending
  {
    var seed := Seed(cfg.nodes);
    assert seed[i] == Step(cfg.nodes[i], InstallPreflight, Pending) && seed[j] == Step(cfg.nodes[j], InstallPreflight, Pending);
    assert SameKey(steps[i], seed[i]) && SameKey(steps[j], seed[j]);
    hide Find;
    assert Matches(steps[i], steps[j].host, steps[j].phase);
  }
}
