/** The alarm evaluator: an incremental machine against a function of the whole sample history. */
module Alarms {
  import opened Options
  import opened Seqs

  datatype AlarmState = Normal | Warning | Critical

  datatype Definition = Definition(below: bool, warning: real, critical: real, clear: real, duration: int)

  predicate IsViolation(value: real, threshold: real, below: bool) {
    if below then value < threshold else value > threshold
  }

  predicate IsClear(value: real, threshold: real, below: bool) {
    if below then value >= threshold else value <= threshold
  }

  /** What one sample says; None between the clear and warning thresholds. */
  function Level(def: Definition, value: real): Option<AlarmState> {
    if IsViolation(value, def.critical, def.below) then Some(Critical)
    else if IsViolation(value, def.warning, def.below) then Some(Warning)
    else if IsClear(value, def.clear, def.below) then Some(Normal)
    else None
  }

  /** The stored row of one alarm on one resource. */
  datatype Instance = Instance(state: AlarmState, count: nat, triggeredAt: int, ackBy: string, ackAt: int,
                               value: real, threshold: real, evaluatedAt: int)

  datatype Entry = Entry(from: AlarmState, to: AlarmState)

  /** One alarm: its row if it has one, and its recorded history. */
  datatype Alarm = Alarm(row: Option<Instance>, history: seq<Entry>)

  // ---- One evaluation and one acknowledgement ----

  function Evaluate(def: Definition, a: Alarm, value: real, now: int): Alarm {
    var level := Level(def, value);
    if level.None? then a else
    var existing := if a.row.Some? then a.row.value else Instance(Normal, 0, 0, "", 0, 0.0, 0.0, 0);
    var previous := existing.state;
    var inst :=
      if level.value == Normal then
        Instance(Normal, 0, 0, "", 0, value, def.clear, now)
      else
        var count := existing.count + 1;
        if count >= def.duration then
          Instance(level.value, count, if previous == Normal then now else existing.triggeredAt, "", 0, value,
                   if level.value == Warning then def.warning else def.critical, now)
        else
          Instance(previous, count, existing.triggeredAt, "", 0, value, def.warning, now);
    var kept := if inst.state == previous then inst.(ackBy := existing.ackBy, ackAt := existing.ackAt) else inst;
    Alarm(Some(kept), if kept.state != previous then a.history + [Entry(previous, kept.state)] else a.history)
  }

  /** UPDATE ... WHERE id: no effect without a row. */
  function Acknowledge(a: Alarm, user: string, now: int): Alarm {
    if a.row.None? then a else a.(row := Some(a.row.value.(ackBy := user, ackAt := now)))
  }

  class Evaluator {
    var instances: map<string, Instance>
    var histories: map<string, seq<Entry>>

    ghost function AlarmOf(id: string): Alarm
      reads this
    {
      Alarm(if id in instances then Some(instances[id]) else None, if id in histories then histories[id] else [])
    }

    constructor ()
      ensures forall id :: AlarmOf(id) == Alarm(None, [])
    {
      instances, histories := map[], map[];
    }

    method EvaluateAlarm(id: string, def: Definition, value: real, now: int) returns (changed: bool)
      modifies this
      ensures AlarmOf(id) == Evaluate(def, old(AlarmOf(id)), value, now)
      ensures forall other :: other != id ==> AlarmOf(other) == old(AlarmOf(other))
      ensures changed <==> |AlarmOf(id).history| > |old(AlarmOf(id)).history|
    {
      var violation: AlarmState;
      if IsViolation(value, def.critical, def.below) {
        violation := Critical;
      } else if IsViolation(value, def.warning, def.below) {
        violation := Warning;
      } else if IsClear(value, def.clear, def.below) {
        violation := Normal;
      } else {
        return false;
      }
      var existing := Instance(Normal, 0, 0, "", 0, 0.0, 0.0, 0);
      if id in instances {
        existing := instances[id];
      }
      var previous := existing.state;
      var inst := Instance(Normal, 0, 0, "", 0, value, def.clear, now);
      if violation != Normal {
        inst := inst.(count := existing.count + 1);
        if inst.count >= def.duration {
          inst := inst.(state := violation, triggeredAt := if previous == Normal then now else existing.triggeredAt,
                        threshold := if violation == Warning then def.warning else def.critical);
        } else {
          inst := inst.(state := previous, triggeredAt := existing.triggeredAt, threshold := def.warning);
        }
      }
      if inst.state == previous {
        inst := inst.(ackBy := existing.ackBy, ackAt := existing.ackAt);
      }
      instances := instances[id := inst];
      changed := inst.state != previous;
      if changed {
        histories := histories[id := (if id in histories then histories[id] else []) + [Entry(previous, inst.state)]];
      }
    }

    method AcknowledgeAlarm(id: string, user: string, now: int)
      modifies this`instances
      ensures AlarmOf(id) == Acknowledge(old(AlarmOf(id)), user, now)
      ensures forall other :: other != id ==> AlarmOf(other) == old(AlarmOf(other))
    {
      if id in instances {
        instances := instances[id := instances[id].(ackBy := user, ackAt := now)];
      }
    }
  }

  // ---- Runs, and the reference reading of the whole history ----

  datatype Event = Sample(now: int, value: real) | Ack(user: string, at: int)

  ghost function Run(def: Definition, es: seq<Event>): Alarm {
    if es == [] then Alarm(None, []) else
    var before := Run(def, es[..|es| - 1]);
    match es[|es| - 1]
    case Sample(now, value) => Evaluate(def, before, value, now)
    case Ack(user, now) => Acknowledge(before, user, now)
  }

  predicate Clears(def: Definition, e: Event) {
    e.Sample? && Level(def, e.value) == Some(Normal)
  }

  predicate Violates(def: Definition, e: Event) {
    e.Sample? && Level(def, e.value).Some? && Level(def, e.value).value != Normal
  }

  function ViolatesBy(def: Definition): Event -> bool {
    e => Violates(def, e)
  }

  /** The events after the last clearing sample. */
  ghost function SinceClear(def: Definition, es: seq<Event>): seq<Event> {
    if es == [] || Clears(def, es[|es| - 1]) then [] else SinceClear(def, es[..|es| - 1]) + [es[|es| - 1]]
  }

  /** The violating samples after the last clearing one. */
  ghost function Violations(def: Definition, es: seq<Event>): (vs: seq<Event>)
    ensures AllViolate(def, vs)
  {
    FilterIn(SinceClear(def, es), ViolatesBy(def));
    var vs := Filter(SinceClear(def, es), ViolatesBy(def));
    assert forall i :: 0 <= i < |vs| ==> vs[i] in vs;
    vs
  }

  /** Violations needed to raise the alarm. */
  ghost function Needed(def: Definition): nat {
    if def.duration < 1 then 1 else def.duration
  }

  ghost predicate AllViolate(def: Definition, vs: seq<Event>) {
    forall i :: 0 <= i < |vs| ==> Violates(def, vs[i])
  }

  /** Normal below the needed number of violations, else the level of the latest one. */
  ghost function StateFrom(def: Definition, vs: seq<Event>): AlarmState
    requires AllViolate(def, vs)
  {
    if |vs| < Needed(def) then Normal else Level(def, vs[|vs| - 1].value).value
  }

  /** The time of the violation that raised the alarm. */
  ghost function TriggerFrom(def: Definition, vs: seq<Event>): int
    requires AllViolate(def, vs)
  {
    if |vs| < Needed(def) then 0 else vs[Needed(def) - 1].now
  }

  ghost function ReferenceState(def: Definition, es: seq<Event>): AlarmState {
    StateFrom(def, Violations(def, es))
  }

  ghost predicate Decisive(def: Definition, e: Event) {
    Clears(def, e) || Violates(def, e)
  }

  /** How Violations grows with one more event. */
  lemma ViolationsSnoc(def: Definition, es: seq<Event>, e: Event)
    ensures Violations(def, es + [e]) ==
            if Clears(def, e) then [] else if Violates(def, e) then Violations(def, es) + [e] else Violations(def, es)
  {
    assert (es + [e])[..|es|] == es;
    if !Clears(def, e) {
      FilterSnoc(SinceClear(def, es), e, ViolatesBy(def));
    }
  }

  /** The stored row agrees with the list of violations since the last clearing sample. */
  ghost predicate Agrees(def: Definition, a: Alarm, vs: seq<Event>) {
    && AllViolate(def, vs)
    && (a.row.None? ==> vs == [])
    && (a.row.Some? ==>
          && a.row.value.count == |vs|
          && a.row.value.state == StateFrom(def, vs)
          && a.row.value.triggeredAt == TriggerFrom(def, vs))
  }

  lemma EvaluateAgrees(def: Definition, a: Alarm, vs: seq<Event>, e: Event)
    requires e.Sample? && Agrees(def, a, vs)
    ensures Agrees(def, Evaluate(def, a, e.value, e.now), if Clears(def, e) then [] else if Violates(def, e) then vs + [e] else vs)
  {
  }

  /**
   * The machine refines the reference: the stored count is the number of violating samples since the last clearing
   * one, the state and trigger time are read off that list, and a row exists once a sample was decisive.
   */
  lemma {:induction false} RunRefinesReference(def: Definition, es: seq<Event>)
    ensures Agrees(def, Run(def, es), Violations(def, es))
    ensures Run(def, es).row.Some? <==> exists e :: e in es && Decisive(def, e)
  {
    if es != [] {
      hide Violations, Agrees;
      var front, last := es[..|es| - 1], es[|es| - 1];
      assert es == front + [last];
      RunRefinesReference(def, front);
      ViolationsSnoc(def, front, last);
      if last.Sample? {
        EvaluateAgrees(def, Run(def, front), Violations(def, front), last);
      } else {
        AcknowledgeAgrees(def, Run(def, front), Violations(def, front), last);
      }
      assert last in es;
    }
  }

  lemma AcknowledgeAgrees(def: Definition, a: Alarm, vs: seq<Event>, e: Event)
    requires e.Ack? && Agrees(def, a, vs)
    ensures Agrees(def, Acknowledge(a, e.user, e.at), vs)
  {
  }

  /** For an ordered "above" definition the three readings are the three value ranges. */
  lemma OrderedAbove(def: Definition, value: real)
    requires !def.below && def.clear < def.warning < def.critical
    ensures Level(def, value) == Some(Critical) <==> value > def.critical
    ensures Level(def, value) == Some(Warning) <==> def.warning < value <= def.critical
    ensures Level(def, value) == Some(Normal) <==> value <= def.clear
    ensures Level(def, value).None? <==> def.clear < value <= def.warning
  {
  }

  // ---- Acknowledgements ----

  ghost function StateAt(def: Definition, es: seq<Event>, i: nat): AlarmState
    requires i <= |es|
  {
    ReferenceState(def, es[..i])
  }

  /** Event i acknowledges an existing row, and no later event changes the state. */
  ghost predicate StandingAck(def: Definition, es: seq<Event>, i: nat) {
    && i < |es| && es[i].Ack?
    && (exists j :: 0 <= j < i && Decisive(def, es[j]))
    && forall k :: i < k < |es| ==> StateAt(def, es, k) == StateAt(def, es, k + 1)
  }

  ghost predicate NamedAcks(es: seq<Event>) {
    forall e :: e in es && e.Ack? ==> e.user != ""
  }

  lemma StandingAckFront(def: Definition, es: seq<Event>, i: nat)
    requires es != [] && i < |es| - 1
    ensures StandingAck(def, es, i) <==>
            StandingAck(def, es[..|es| - 1], i) && ReferenceState(def, es[..|es| - 1]) == ReferenceState(def, es)
  {
    hide ReferenceState;
    var front, n := es[..|es| - 1], |es| - 1;
    assert es[..n] == front && es[..|es|] == es;
    assert StateAt(def, es, n) == ReferenceState(def, front) && StateAt(def, es, |es|) == ReferenceState(def, es);
    forall k | 0 <= k <= n ensures StateAt(def, es, k) == StateAt(def, front, k) {
      assert front[..k] == es[..k];
    }
    if StandingAck(def, es, i) {
      assert StateAt(def, es, n) == StateAt(def, es, n + 1);
      forall k | i < k < |front| ensures StateAt(def, front, k) == StateAt(def, front, k + 1) {
        assert StateAt(def, es, k) == StateAt(def, es, k + 1);
      }
    }
    if StandingAck(def, front, i) && ReferenceState(def, front) == ReferenceState(def, es) {
      forall k | i < k < |es| ensures StateAt(def, es, k) == StateAt(def, es, k + 1) {
        if k < |front| {
          assert StateAt(def, front, k) == StateAt(def, front, k + 1);
        }
      }
    }
  }

  /** The alarm shows as acknowledged exactly when an acknowledgement reached its row since the last state change. */
  lemma {:induction false} AckShownIffStanding(def: Definition, es: seq<Event>)
    requires NamedAcks(es)
    ensures var a := Run(def, es);
            (a.row.Some? && a.row.value.ackBy != "") <==> exists i :: StandingAck(def, es, i)
  {
    if es != [] {
      var front, last := es[..|es| - 1], es[|es| - 1];
      assert es == front + [last];
      AckShownIffStanding(def, front);
      RunRefinesReference(def, front);
      RunRefinesReference(def, es);
      AckStep(def, es);
      StandingStep(def, es);
    }
  }

  /** What one event does to the acknowledgement of the stored row. */
  lemma AckStep(def: Definition, es: seq<Event>)
    requires es != [] && NamedAcks(es)
    ensures var before, a := Run(def, es[..|es| - 1]), Run(def, es);
            var shown := a.row.Some? && a.row.value.ackBy != "";
            var was := before.row.Some? && before.row.value.ackBy != "";
            if es[|es| - 1].Ack? then shown <==> before.row.Some?
            else shown <==> was && before.row.value.state == a.row.value.state
    ensures Run(def, es[..|es| - 1]).row.Some? ==> Run(def, es).row.Some?
    ensures Run(def, es[..|es| - 1]).row.Some? && es[|es| - 1].Ack? ==>
      Run(def, es[..|es| - 1]).row.value.state == Run(def, es).row.value.state
  {
    assert es[|es| - 1] in es;
  }

  lemma StandingStep(def: Definition, es: seq<Event>)
    requires es != []
    ensures var front, last := es[..|es| - 1], es[|es| - 1];
            (exists i :: StandingAck(def, es, i)) <==>
            if last.Ack? && (exists e :: e in front && Decisive(def, e)) then true
            else (exists i :: StandingAck(def, front, i)) && ReferenceState(def, front) == ReferenceState(def, es)
  {
    hide ReferenceState, StateAt, Decisive;
    var front, last, n := es[..|es| - 1], es[|es| - 1], |es| - 1;
    if i: nat :| StandingAck(def, es, i) {
      if i < n {
        StandingAckFront(def, es, i);
        assert StandingAck(def, front, i);
      } else {
        var j :| 0 <= j < i && Decisive(def, es[j]);
        assert front[j] == es[j] && front[j] in front;
      }
    }
    if last.Ack? && (exists e :: e in front && Decisive(def, e)) {
      var e :| e in front && Decisive(def, e);
      var j :| 0 <= j < |front| && front[j] == e;
      assert es[j] == e;
      assert StandingAck(def, es, n);
    }
    if i: nat :| StandingAck(def, front, i) && ReferenceState(def, front) == ReferenceState(def, es) {
      StandingAckFront(def, es, i);
    }
  }

  // ---- Recorded history ----

  ghost predicate Chain(h: seq<Entry>, current: AlarmState) {
    && (forall i :: 0 <= i < |h| ==> h[i].from != h[i].to)
    && (forall i :: 0 < i < |h| ==> h[i].from == h[i - 1].to)
    && (if h == [] then current == Normal else h[0].from == Normal && h[|h| - 1].to == current)
  }

  /** Recorded history is a chain of real state changes from normal to the current state. */
  lemma {:induction false} HistoryIsChain(def: Definition, es: seq<Event>)
    ensures var a := Run(def, es);
            Chain(a.history, if a.row.Some? then a.row.value.state else Normal)
  {
    if es != [] {
      HistoryIsChain(def, es[..|es| - 1]);
    }
  }

  /** The changes of the reference state, in order. */
  ghost function Changes(def: Definition, es: seq<Event>): seq<Entry> {
    if es == [] then [] else
    var front := es[..|es| - 1];
    var was, now := ReferenceState(def, front), ReferenceState(def, es);
    Changes(def, front) + (if was != now then [Entry(was, now)] else [])
  }

  /** Recorded history is exactly the changes of the reference state: none is missing and none is made up. */
  lemma {:induction false} HistoryIsAllChanges(def: Definition, es: seq<Event>)
    ensures Run(def, es).history == Changes(def, es)
  {
    if es != [] {
      var front := es[..|es| - 1];
      HistoryIsAllChanges(def, front);
      RunRefinesReference(def, front);
      RunRefinesReference(def, es);
      NoViolations(def);
      hide Violations;
    }
  }

  lemma NoViolations(def: Definition)
    ensures StateFrom(def, []) == Normal
  {
  }

  // ---- What the row says of the latest sample ----

  /** The latest sample that was not between the thresholds. */
  ghost function Latest(def: Definition, es: seq<Event>): Option<Event> {
    if es == [] then None
    else if Decisive(def, es[|es| - 1]) then Some(es[|es| - 1])
    else Latest(def, es[..|es| - 1])
  }

  /** The threshold shown with a sample: that of its level once the alarm is raised, the warning one before, the clear one after. */
  ghost function ShownThreshold(def: Definition, e: Event, violations: nat): real
    requires e.Sample?
  {
    if Clears(def, e) then def.clear
    else if violations < Needed(def) then def.warning
    else if IsViolation(e.value, def.critical, def.below) then def.critical else def.warning
  }

  /** The row shows the value, the time and the threshold of the latest decisive sample. */
  lemma {:induction false} RowShowsLatest(def: Definition, es: seq<Event>)
    ensures Run(def, es).row.Some? <==> Latest(def, es).Some?
    ensures Run(def, es).row.Some? ==>
      var row, e := Run(def, es).row.value, Latest(def, es).value;
      && e.Sample? && row.value == e.value && row.evaluatedAt == e.now
      && row.threshold == ShownThreshold(def, e, |Violations(def, es)|)
  {
    if es != [] {
      var front, last := es[..|es| - 1], es[|es| - 1];
      assert es == front + [last];
      RowShowsLatest(def, front);
      RunRefinesReference(def, front);
      ViolationsSnoc(def, front, last);
      hide Violations;
    }
  }

  // ---- Whose acknowledgement shows ----

  /** Event i is the latest acknowledgement. */
  ghost predicate LatestAck(es: seq<Event>, i: nat) {
    i < |es| && es[i].Ack? && forall k :: i < k < |es| ==> !es[k].Ack?
  }

  /** What shows is the user and the time of the latest acknowledgement, or nothing at all. */
  lemma {:induction false} ShownAckIsLatest(def: Definition, es: seq<Event>)
    requires NamedAcks(es)
    ensures var a := Run(def, es);
            a.row.Some? ==>
              if a.row.value.ackBy == "" then a.row.value.ackAt == 0
              else exists i: nat :: LatestAck(es, i) && a.row.value.ackBy == es[i].user && a.row.value.ackAt == es[i].at
  {
    if es != [] {
      var front, last, n := es[..|es| - 1], es[|es| - 1], |es| - 1;
      assert es == front + [last] && last in es;
      ShownAckIsLatest(def, front);
      if last.Ack? {
        assert LatestAck(es, n);
      } else {
        forall i: nat | LatestAck(front, i) ensures LatestAck(es, i) && es[i] == front[i] {
        }
      }
    }
  }

  // ---- Below definitions ----

  /** For an ordered "below" definition the readings are the mirrored value ranges. */
  lemma OrderedBelow(def: Definition, value: real)
    requires def.below && def.critical < def.warning < def.clear
    ensures Level(def, value) == Some(Critical) <==> value < def.critical
    ensures Level(def, value) == Some(Warning) <==> def.critical <= value < def.warning
    ensures Level(def, value) == Some(Normal) <==> value >= def.clear
    ensures Level(def, value).None? <==> def.warning <= value < def.clear
  {
  }

  /** A "below" definition whose thresholds pass the check for "above" ones never warns and has no range between. */
  lemma ValidatedBelowNeverWarns(def: Definition, value: real)
    requires def.below && def.clear < def.warning < def.critical
    ensures Level(def, value) == if value < def.critical then Some(Critical) else Some(Normal)
  {
  }
}
