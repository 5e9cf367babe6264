/** Jobs and their steps: the record both the install and the destroy orchestration write to. */
module CephJob {

  datatype StepState = Pending | Running | Succeeded | Failed

  datatype JobState = JobRunning | JobSucceeded | JobFailed

  datatype Phase =
    | InstallPreflight | InstallPackages | CephInit | CreateMON | CreateMGR | WaitHealthy
    | DestroyPreflight | SetNoout | DeleteFS | DeletePools | DeleteMDS | DeleteOSD | DeleteMGR | DeleteMON
    | CephPurge

  datatype Step = Step(host: string, phase: Phase, state: StepState)

  predicate Matches(s: Step, host: string, phase: Phase) {
    s.host == host && s.phase == phase
  }

  /** Position of the first step for (host, phase), or the length when there is none. */
  function Find(steps: seq<Step>, host: string, phase: Phase): (i: nat)
    ensures i <= |steps|
    ensures i < |steps| ==> Matches(steps[i], host, phase)
    ensures forall j :: 0 <= j < i ==> !Matches(steps[j], host, phase)
  {
    if steps == [] then 0
    else if Matches(steps[0], host, phase) then 0
    else
      var k := Find(steps[1..], host, phase);
      assert forall j :: 0 < j < k + 1 ==> steps[j] == steps[1..][j - 1];
      k + 1
  }

  /** setStep: mutate the first step for (host, phase), appending a pending one if it is missing. */
  function SetState(steps: seq<Step>, host: string, phase: Phase, state: StepState): seq<Step> {
    var i := Find(steps, host, phase);
    if i < |steps| then steps[i := steps[i].(state := state)]
    else steps + [Step(host, phase, state)]
  }

  /** setStep with a mutation that leaves the state alone (message or UPID). */
  function Touch(steps: seq<Step>, host: string, phase: Phase): seq<Step> {
    if Find(steps, host, phase) < |steps| then steps else steps + [Step(host, phase, Pending)]
  }

  /** What a reader of the progress view sees for (host, phase). */
  predicate Shows(steps: seq<Step>, host: string, phase: Phase, state: StepState) {
    var i := Find(steps, host, phase);
    i < |steps| && steps[i].state == state
  }

  lemma FindUnique(steps: seq<Step>, host: string, phase: Phase, i: nat)
    requires i < |steps| && Matches(steps[i], host, phase)
    requires forall j :: 0 <= j < i ==> !Matches(steps[j], host, phase)
    ensures Find(steps, host, phase) == i
  {
    hide Find;
  }

  /** Setting one step's state keeps every key at its position. */
  lemma SetStateKeys(steps: seq<Step>, host: string, phase: Phase, state: StepState)
    ensures var steps' := SetState(steps, host, phase, state);
            var i := Find(steps, host, phase);
            && |steps'| == (if i < |steps| then |steps| else |steps| + 1)
            && i < |steps'| && steps'[i] == Step(host, phase, state) && Matches(steps'[i], host, phase)
            && (i < |steps| ==> steps[i].host == host && steps[i].phase == phase)
            && forall j :: 0 <= j < |steps| && j != i ==> steps'[j] == steps[j]
  {
    hide Find;
  }

  lemma SetStateShows(steps: seq<Step>, host: string, phase: Phase, state: StepState, h: string, p: Phase, st: StepState)
    ensures Shows(SetState(steps, host, phase, state), h, p, st) <==>
            if h == host && p == phase then st == state else Shows(steps, h, p, st)
  {
    hide SetState, Shows;
    if h == host && p == phase {
      FindAfterSame(steps, host, phase, state);
      ShowsAt(SetState(steps, host, phase, state), h, p, st, Find(steps, host, phase));
    } else {
      FindAfterOther(steps, host, phase, state, h, p, st);
    }
  }

  lemma ShowsAt(steps: seq<Step>, h: string, p: Phase, st: StepState, i: nat)
    requires i < |steps| && Find(steps, h, p) == i
    ensures Shows(steps, h, p, st) <==> steps[i].state == st
  {
    hide Find;
  }

  lemma FindAfterSame(steps: seq<Step>, host: string, phase: Phase, state: StepState)
    ensures var steps' := SetState(steps, host, phase, state);
            var i := Find(steps, host, phase);
            i < |steps'| && Find(steps', host, phase) == i && steps'[i].state == state
  {
    hide Find, SetState, Matches;
    SetStateKeys(steps, host, phase, state);
    var steps' := SetState(steps, host, phase, state);
    SameKeys(steps, steps', Find(steps, host, phase), host, phase);
    FindUnique(steps', host, phase, Find(steps, host, phase));
  }

  lemma FindAfterOther(steps: seq<Step>, host: string, phase: Phase, state: StepState, h: string, p: Phase, st: StepState)
    requires !(h == host && p == phase)
    ensures Shows(SetState(steps, host, phase, state), h, p, st) <==> Shows(steps, h, p, st)
  {
    hide Find, SetState, Matches, Shows;
    SetStateKeys(steps, host, phase, state);
    var steps' := SetState(steps, host, phase, state);
    var i := Find(steps, host, phase);
    SameKeys(steps, steps', i, h, p);
    OtherKey(steps', i, host, phase, h, p);
    FindPrefix(steps, steps', h, p);
    ShowsElsewhere(steps, steps', i, h, p, st);
  }

  lemma ShowsElsewhere(steps: seq<Step>, steps': seq<Step>, i: nat, h: string, p: Phase, st: StepState)
    requires |steps| <= |steps'| && i < |steps'| && !Matches(steps'[i], h, p)
    requires forall j :: 0 <= j < |steps| && j != i ==> steps'[j] == steps[j]
    requires Find(steps, h, p) < |steps| ==> Find(steps', h, p) == Find(steps, h, p)
    requires Find(steps, h, p) == |steps| ==> Find(steps', h, p) == |steps'|
    ensures Shows(steps', h, p, st) <==> Shows(steps, h, p, st)
  {
    hide Find, Matches;
    var k := Find(steps', h, p);
    assert k < |steps'| ==> Matches(steps'[k], h, p);
  }

  lemma OtherKey(steps: seq<Step>, i: nat, host: string, phase: Phase, h: string, p: Phase)
    requires i < |steps| && steps[i].host == host && steps[i].phase == phase && !(h == host && p == phase)
    ensures !Matches(steps[i], h, p)
  {
  }

  lemma SameKeys(steps: seq<Step>, steps': seq<Step>, i: nat, h: string, p: Phase)
    requires |steps| <= |steps'| && i < |steps'|
    requires forall j :: 0 <= j < |steps| && j != i ==> steps'[j] == steps[j]
    requires i < |steps| ==> steps'[i].host == steps[i].host && steps'[i].phase == steps[i].phase
    ensures forall j :: 0 <= j < |steps| ==> (Matches(steps'[j], h, p) <==> Matches(steps[j], h, p))
  {
  }

  lemma FindPrefix(steps: seq<Step>, steps': seq<Step>, h: string, p: Phase)
    requires |steps| <= |steps'|
    requires forall j :: 0 <= j < |steps| ==> (Matches(steps'[j], h, p) <==> Matches(steps[j], h, p))
    requires forall j :: |steps| <= j < |steps'| ==> !Matches(steps'[j], h, p)
    ensures Find(steps, h, p) < |steps| ==> Find(steps', h, p) == Find(steps, h, p)
    ensures Find(steps, h, p) == |steps| ==> Find(steps', h, p) == |steps'|
  {
    hide Find, Matches;
    if Find(steps, h, p) < |steps| {
      FindUnique(steps', h, p, Find(steps, h, p));
    }
  }

  /** Recording a message shows nothing new, unless the step was not there: then it is shown pending. */
  lemma TouchShows(steps: seq<Step>, host: string, phase: Phase, h: string, p: Phase, st: StepState)
    ensures Shows(Touch(steps, host, phase), h, p, st) <==>
            Shows(steps, h, p, st) || (h == host && p == phase && st == Pending && Find(steps, host, phase) == |steps|)
  {
    if Find(steps, host, phase) == |steps| {
      assert Touch(steps, host, phase) == SetState(steps, host, phase, Pending);
      SetStateShows(steps, host, phase, Pending, h, p, st);
    }
    hide Find, SetState;
  }

  /** How a destroy job ends: failed exactly when purges were attempted and none succeeded. */
  ghost function FinalJob(steps: seq<Step>): JobState {
    if (exists s :: s in steps && s.phase == CephPurge) && (forall s :: s in steps && s.phase == CephPurge ==> s.state != Succeeded)
    then JobFailed else JobSucceeded
  }

  class Job {
    var steps: seq<Step>
    var state: JobState
    var error: string

    constructor (seeded: seq<Step>)
      ensures steps == seeded && state == JobRunning && error == ""
    {
      steps, state, error := seeded, JobRunning, "";
    }

    /** Locates the step by a scan under the job lock. */
    method SetStep(host: string, phase: Phase, state': StepState)
      modifies this`steps
      ensures steps == SetState(old(steps), host, phase, state')
    {
      for i := 0 to |steps|
        invariant steps == old(steps)
        invariant forall j :: 0 <= j < i ==> !Matches(steps[j], host, phase)
      {
        if Matches(steps[i], host, phase) {
          FindUnique(steps, host, phase, i);
          steps := steps[i := steps[i].(state := state')];
          return;
        }
      }
      steps := steps + [Step(host, phase, state')];
    }

    method MarkFailed(message: string)
      modifies this`state, this`error
      ensures state == JobFailed && error == message
    {
      state, error := JobFailed, message;
    }

    method MarkSucceeded()
      modifies this`state
      ensures state == JobSucceeded
    {
      state := JobSucceeded;
    }

    /** The terminal rule of destroy, by counting. */
    method FinalizeDestroy(message: string)
      modifies this
      ensures steps == old(steps) && state == FinalJob(steps)
    {
      var attempted, succeeded := 0, 0;
      for i := 0 to |steps|
        invariant steps == old(steps)
        invariant attempted >= succeeded >= 0
        invariant attempted > 0 <==> exists j :: 0 <= j < i && steps[j].phase == CephPurge
        invariant succeeded > 0 <==> exists j :: 0 <= j < i && steps[j].phase == CephPurge && steps[j].state == Succeeded
      {
        if steps[i].phase == CephPurge {
          attempted := attempted + 1;
          if steps[i].state == Succeeded {
            succeeded := succeeded + 1;
          }
        }
      }
      if attempted > 0 && succeeded == 0 {
        MarkFailed(message);
      } else {
        MarkSucceeded();
      }
    }
  }

  // ---- Install preflight ----

  /** What the probes of one node returned: no client, unreachable, or a version and whether Ceph is there. */
  datatype Probe = NoClient | Unreachable | Reached(version: string, ceph: bool)

  /** The part of a version before its first dot, or all of it when there is none. */
  function MajorVersion(v: string): (major: string)
    ensures '.' !in major && |major| <= |v| && v[..|major|] == major
    ensures |major| < |v| ==> v[|major|] == '.'
  {
    if v == "" || v[0] == '.' then "" else [v[0]] + MajorVersion(v[1..])
  }

  predicate Blocked(p: Probe) {
    !p.Reached? || p.ceph
  }

  /** The host reported a version whose major is not empty. */
  predicate Versioned(p: Probe) {
    p.Reached? && MajorVersion(p.version) != ""
  }

  /** The installation may proceed exactly when no host is blocked and no two known majors differ. */
  ghost predicate MayProceed(probes: seq<Probe>) {
    && (forall i :: 0 <= i < |probes| ==> !Blocked(probes[i]))
    && (forall i, j :: 0 <= i < |probes| && 0 <= j < |probes| && Versioned(probes[i]) && Versioned(probes[j]) ==>
          MajorVersion(probes[i].version) == MajorVersion(probes[j].version))
  }

  /** Every host is reachable and without Ceph, and all versions agree up to their first dot. */
  ghost predicate Ready(probes: seq<Probe>) {
    && (forall p :: p in probes ==> p != NoClient && p != Unreachable && !p.ceph)
    && (forall p, q :: p in probes && q in probes && p.Reached? && q.Reached? && Known(p.version) && Known(q.version) ==>
          MajorVersion(p.version) == MajorVersion(q.version))
  }

  lemma MayProceedMeans(probes: seq<Probe>)
    ensures MayProceed(probes) <==> Ready(probes)
  {
    forall v ensures Known(v) <==> MajorVersion(v) != "" {
      KnownIff(v);
    }
    hide MajorVersion, Known;
    if MayProceed(probes) {
      ProceedIsReady(probes);
    }
    if Ready(probes) {
      forall i | 0 <= i < |probes| ensures probes[i] in probes && !Blocked(probes[i]) {
      }
    }
  }

  lemma ProceedIsReady(probes: seq<Probe>)
    requires MayProceed(probes) && forall v :: Known(v) <==> MajorVersion(v) != ""
    ensures Ready(probes)
  {
    hide MajorVersion, Known;
    forall p | p in probes ensures p != NoClient && p != Unreachable && !p.ceph {
      var i :| 0 <= i < |probes| && probes[i] == p;
      assert !Blocked(probes[i]);
    }
    forall p, q | p in probes && q in probes && p.Reached? && q.Reached? && Known(p.version) && Known(q.version)
      ensures MajorVersion(p.version) == MajorVersion(q.version)
    {
      var i :| 0 <= i < |probes| && probes[i] == p;
      var j :| 0 <= j < |probes| && probes[j] == q;
      assert Versioned(probes[i]) && Versioned(probes[j]);
    }
  }

  lemma KnownIff(v: string)
    ensures Known(v) <==> MajorVersion(v) != ""
  {
  }

  /** A version that does not start with a dot and is not empty has a major. */
  predicate Known(v: string) { v != "" && v[0] != '.' }

  method RunInstallPreflight(probes: seq<Probe>) returns (blocked: seq<bool>, canProceed: bool)
    ensures |blocked| == |probes| && forall i :: 0 <= i < |probes| ==> blocked[i] == Blocked(probes[i])
    ensures forall i :: 0 <= i < |probes| ==> (blocked[i] <==> probes[i] == NoClient || probes[i] == Unreachable || probes[i].ceph)
    ensures canProceed <==> MayProceed(probes)
  {
    hide MajorVersion;
    canProceed, blocked := true, [];
    var majors: set<string> := {};
    for i := 0 to |probes|
      invariant |blocked| == i && forall j :: 0 <= j < i ==> blocked[j] == Blocked(probes[j])
      invariant canProceed <==> forall j :: 0 <= j < i ==> !Blocked(probes[j])
      invariant forall m :: m in majors <==> exists j :: 0 <= j < i && Versioned(probes[j]) && MajorVersion(probes[j].version) == m
    {
      match probes[i] {
        case NoClient =>
          blocked, canProceed := blocked + [true], false;
        case Unreachable =>
          blocked, canProceed := blocked + [true], false;
        case Reached(version, ceph) =>
          var major := MajorVersion(version);
          if major != "" {
            majors := majors + {major};
          }
          if ceph {
            canProceed := false;
          }
          blocked := blocked + [ceph];
      }
    }
    MajorsDecide(probes, majors);
    if |majors| > 1 {
      canProceed := false;
    }
  }

  /** More than one known major means that two hosts differ. */
  lemma MajorsDecide(probes: seq<Probe>, majors: set<string>)
    requires forall m :: m in majors <==> exists j :: 0 <= j < |probes| && Versioned(probes[j]) && MajorVersion(probes[j].version) == m
    ensures |majors| <= 1 <==>
            forall i, j :: 0 <= i < |probes| && 0 <= j < |probes| && Versioned(probes[i]) && Versioned(probes[j]) ==>
              MajorVersion(probes[i].version) == MajorVersion(probes[j].version)
  {
    hide MajorVersion;
    if |majors| > 1 {
      TwoDistinct(majors);
      var a, b :| a in majors && b in majors && a != b;
      var i :| 0 <= i < |probes| && Versioned(probes[i]) && MajorVersion(probes[i].version) == a;
      var j :| 0 <= j < |probes| && Versioned(probes[j]) && MajorVersion(probes[j].version) == b;
    } else {
      AtMostOne(majors);
      assert forall j :: 0 <= j < |probes| && Versioned(probes[j]) ==> MajorVersion(probes[j].version) in majors;
    }
  }

  lemma TwoDistinct(s: set<string>)
    requires |s| > 1
    ensures exists a, b :: a in s && b in s && a != b
  {
    var a :| a in s;
    assert |s - {a}| == |s| - 1;
    var b :| b in s - {a};
  }

  lemma AtMostOne(s: set<string>)
    requires |s| <= 1
    ensures forall a, b :: a in s && b in s ==> a == b
  {
    forall a | a in s ensures s == {a} {
      assert |s - {a}| == |s| - 1;
    }
  }
}
