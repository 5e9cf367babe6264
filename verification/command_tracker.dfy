/** The agent command tracker: pending commands, and results on one-slot channels, under every interleaving. */
module CommandTracker {
  /** What an agent answers; also what a command gets that timed out. */
  datatype Result = Result(id: string, success: bool, upid: string, output: string, error: string)

  function TimedOut(id: string): Result { Result(id, false, "", "", "command timed out") }

  /** The channel made for one command: everything ever put on it, how much is unread, and refused sends. */
  datatype Chan = Chan(command: string, sent: seq<Result>, unread: nat, refused: nat)

  datatype Pending = Pending(chan: nat, sentAt: int)

  /** A completion that has removed its command and not sent the result yet. */
  datatype Flight = Flight(chan: nat, result: Result)

  datatype State = State(pending: map<string, Pending>, chans: seq<Chan>, flights: seq<Flight>)

  /** A send that gives up when the slot is taken. */
  function Offer(c: Chan, r: Result): Chan {
    if c.unread < 1 then c.(sent := c.sent + [r], unread := c.unread + 1) else c.(refused := c.refused + 1)
  }

  // ---- Atomic steps ----

  datatype Action =
    | Add(id: string, now: int)
    | Take(result: Result)
    | Deliver(flight: nat)
    | Remove(id: string)
    | Cleanup(now: int, timeout: int)
    | Receive(chan: nat)

  function AddStep(s: State, id: string, now: int): State {
    s.(chans := s.chans + [Chan(id, [], 0, 0)], pending := s.pending[id := Pending(|s.chans|, now)])
  }

  predicate Stale(s: State, now: int, timeout: int, id: string) {
    id in s.pending && now - s.pending[id].sentAt > timeout
  }

  /** The channel of a stale command. */
  predicate StaleChan(s: State, now: int, timeout: int, k: nat)
    requires k < |s.chans|
  {
    Stale(s, now, timeout, s.chans[k].command) && s.pending[s.chans[k].command].chan == k
  }

  function CleanupStep(s: State, now: int, timeout: int): State {
    s.(pending := map id | id in s.pending && !Stale(s, now, timeout, id) :: s.pending[id],
       chans := seq(|s.chans|, k requires 0 <= k < |s.chans| =>
         if StaleChan(s, now, timeout, k) then Offer(s.chans[k], TimedOut(s.chans[k].command)) else s.chans[k]))
  }

  function Step(s: State, a: Action): State {
    match a
    case Add(id, now) => AddStep(s, id, now)
    case Take(r) =>
      if r.id in s.pending then
        State(s.pending - {r.id}, s.chans, s.flights + [Flight(s.pending[r.id].chan, r)])
      else s
    case Deliver(i) =>
      if i < |s.flights| && s.flights[i].chan < |s.chans| then
        var f := s.flights[i];
        s.(chans := s.chans[f.chan := Offer(s.chans[f.chan], f.result)], flights := s.flights[..i] + s.flights[i + 1..])
      else s
    case Remove(id) => s.(pending := s.pending - {id})
    case Cleanup(now, timeout) => CleanupStep(s, now, timeout)
    case Receive(k) =>
      if k < |s.chans| && s.chans[k].unread > 0 then s.(chans := s.chans[k := s.chans[k].(unread := s.chans[k].unread - 1)])
      else s
  }

  // ---- The tracker object; each method is one critical section ----

  class Tracker {
    var pending: map<string, Pending>
    var chans: seq<Chan>
    var flights: seq<Flight>

    ghost function Contents(): State
      reads this
    {
      State(pending, chans, flights)
    }

    constructor ()
      ensures Contents() == State(map[], [], [])
    {
      pending, chans, flights := map[], [], [];
    }

    method AddCommand(id: string, now: int) returns (chan: nat)
      modifies this
      ensures Contents() == Step(old(Contents()), Add(id, now)) && chan == |old(chans)|
    {
      chan := |chans|;
      chans := chans + [Chan(id, [], 0, 0)];
      pending := pending[id := Pending(chan, now)];
    }

    /** First half of Complete, under the lock. */
    method TakePending(result: Result) returns (ok: bool)
      modifies this
      ensures Contents() == Step(old(Contents()), Take(result)) && ok == (result.id in old(pending))
    {
      ok := result.id in pending;
      if ok {
        flights := flights + [Flight(pending[result.id].chan, result)];
        pending := pending - {result.id};
      }
    }

    /** One pass over the pending commands, all under the lock. */
    method CleanupStale(now: int, timeout: int) returns (cleaned: nat)
      requires Inv(Contents())
      modifies this
      ensures Contents() == Step(old(Contents()), Cleanup(now, timeout)) && Inv(Contents())
      ensures forall id :: id in pending ==> now - pending[id].sentAt <= timeout
    {
      hide Inv, Owed, Swept, CleanupStep;
      CleanupKeepsInv(Contents(), now, timeout);
      ghost var s := Contents();
      cleaned := 0;
      var todo := pending.Keys;
      SweepStarts(s, now, timeout);
      while todo != {}
        invariant todo <= s.pending.Keys && Swept(s, Contents(), todo, now, timeout)
        decreases todo
      {
        var id :| id in todo;
        SweepStep(s, Contents(), todo, now, timeout, id);
        var k := pending[id].chan;
        if now - pending[id].sentAt > timeout {
          chans := chans[k := Offer(chans[k], TimedOut(id))];
          pending := pending - {id};
          cleaned := cleaned + 1;
        }
        todo := todo - {id};
      }
      SweepEnds(s, Contents(), now, timeout);
    }
  }

  // ---- The pass, command by command ----

  /** `t` is `s` after the pass has looked at every pending command but those in `todo`. */
  ghost predicate Swept(s: State, t: State, todo: set<string>, now: int, timeout: int) {
    && t.flights == s.flights && |t.chans| == |s.chans|
    && (forall id :: id in t.pending <==> id in s.pending && (id in todo || !Stale(s, now, timeout, id)))
    && (forall id :: id in t.pending ==> t.pending[id] == s.pending[id])
    && (forall k :: 0 <= k < |t.chans| ==>
          t.chans[k] == if StaleChan(s, now, timeout, k) && s.chans[k].command !in todo
                        then Offer(s.chans[k], TimedOut(s.chans[k].command)) else s.chans[k])
  }

  lemma SweepStarts(s: State, now: int, timeout: int)
    ensures Swept(s, s, s.pending.Keys, now, timeout)
  {
  }

  ghost function SweepOne(t: State, now: int, timeout: int, id: string): State
    requires id in t.pending && t.pending[id].chan < |t.chans|
  {
    var k := t.pending[id].chan;
    if now - t.pending[id].sentAt > timeout then
      State(t.pending - {id}, t.chans[k := Offer(t.chans[k], TimedOut(id))], t.flights)
    else t
  }

  lemma SweepStep(s: State, t: State, todo: set<string>, now: int, timeout: int, id: string)
    requires Inv(s) && Swept(s, t, todo, now, timeout) && id in todo && todo <= s.pending.Keys
    ensures id in t.pending && t.pending[id].chan < |t.chans|
    ensures Swept(s, SweepOne(t, now, timeout, id), todo - {id}, now, timeout)
  {
    assert Owed(s, s.pending[id].chan, id);
    hide Inv;
    assert t.chans[s.pending[id].chan] == s.chans[s.pending[id].chan];
  }

  lemma SweepEnds(s: State, t: State, now: int, timeout: int)
    requires Swept(s, t, {}, now, timeout)
    ensures t == CleanupStep(s, now, timeout)
    ensures forall id :: id in t.pending ==> now - t.pending[id].sentAt <= timeout
  {
    var u := CleanupStep(s, now, timeout);
    assert t.pending == u.pending;
    assert t.chans == u.chans;
  }

  // ---- The invariant ----

  ghost predicate ChanOk(c: Chan) {
    && |c.sent| <= 1 && c.unread <= |c.sent| && c.refused == 0
    && forall i :: 0 <= i < |c.sent| ==> c.sent[i].id == c.command
  }

  /** A channel still owed a result: nothing was sent on it. */
  ghost predicate Owed(s: State, k: nat, id: string) {
    k < |s.chans| && s.chans[k].command == id && s.chans[k].sent == []
  }

  ghost predicate Inv(s: State) {
    && (forall k :: 0 <= k < |s.chans| ==> ChanOk(s.chans[k]))
    && (forall id :: id in s.pending ==> Owed(s, s.pending[id].chan, id))
    && (forall i :: 0 <= i < |s.flights| ==> Owed(s, s.flights[i].chan, s.flights[i].result.id))
    && (forall i, j :: 0 <= i < j < |s.flights| ==> s.flights[i].chan != s.flights[j].chan)
    && (forall i, id :: 0 <= i < |s.flights| && id in s.pending ==> s.flights[i].chan != s.pending[id].chan)
  }

  lemma CleanupKeepsInv(s: State, now: int, timeout: int)
    requires Inv(s)
    ensures Inv(CleanupStep(s, now, timeout))
  {
    var s' := CleanupStep(s, now, timeout);
    forall id | id in s'.pending ensures Owed(s', s'.pending[id].chan, id) {
      assert Owed(s, s.pending[id].chan, id);
    }
    forall i | 0 <= i < |s'.flights| ensures Owed(s', s'.flights[i].chan, s'.flights[i].result.id) {
      assert Owed(s, s.flights[i].chan, s.flights[i].result.id);
    }
    forall k | 0 <= k < |s'.chans| ensures ChanOk(s'.chans[k]) {
      assert ChanOk(s.chans[k]);
      if StaleChan(s, now, timeout, k) {
        assert Owed(s, s.pending[s.chans[k].command].chan, s.chans[k].command);
      }
    }
  }

  lemma DeliverKeepsInv(s: State, i: nat)
    requires Inv(s)
    ensures Inv(Step(s, Deliver(i)))
  {
    if i < |s.flights| && s.flights[i].chan < |s.chans| {
      var s' := Step(s, Deliver(i));
      var f := s.flights[i];
      assert Owed(s, f.chan, f.result.id) && ChanOk(s.chans[f.chan]);
      forall id | id in s'.pending ensures Owed(s', s'.pending[id].chan, id) {
        assert Owed(s, s.pending[id].chan, id);
      }
      forall j | 0 <= j < |s'.flights| ensures Owed(s', s'.flights[j].chan, s'.flights[j].result.id) {
        var j0 := if j < i then j else j + 1;
        assert s'.flights[j] == s.flights[j0] && Owed(s, s.flights[j0].chan, s.flights[j0].result.id);
      }
      forall k | 0 <= k < |s'.chans| ensures ChanOk(s'.chans[k]) {
        assert ChanOk(s.chans[k]);
      }
    }
  }

  lemma StepKeepsInv(s: State, a: Action)
    requires Inv(s)
    ensures Inv(Step(s, a))
  {
    match a
    case Deliver(i) => DeliverKeepsInv(s, i);
    case Cleanup(now, timeout) => CleanupKeepsInv(s, now, timeout);
    case Add(id, now) =>
      var s' := Step(s, a);
      forall x | x in s.pending ensures Owed(s', s.pending[x].chan, x) {
        assert Owed(s, s.pending[x].chan, x);
      }
      forall i | 0 <= i < |s.flights| ensures Owed(s', s.flights[i].chan, s.flights[i].result.id) {
        assert Owed(s, s.flights[i].chan, s.flights[i].result.id);
      }
    case Take(r) =>
      if r.id in s.pending {
        var s' := Step(s, a);
        assert Owed(s, s.pending[r.id].chan, r.id);
        forall x | x in s'.pending ensures Owed(s', s'.pending[x].chan, x) {
          assert Owed(s, s.pending[x].chan, x);
        }
        forall i | 0 <= i < |s.flights| ensures Owed(s', s.flights[i].chan, s.flights[i].result.id) {
          assert Owed(s, s.flights[i].chan, s.flights[i].result.id);
        }
      }
    case Remove(id) =>
      var s' := Step(s, a);
      forall x | x in s'.pending ensures Owed(s', s'.pending[x].chan, x) {
        assert Owed(s, s.pending[x].chan, x);
      }
      forall i | 0 <= i < |s.flights| ensures Owed(s', s.flights[i].chan, s.flights[i].result.id) {
        assert Owed(s, s.flights[i].chan, s.flights[i].result.id);
      }
    case Receive(k) =>
      var s' := Step(s, a);
      forall x | x in s.pending ensures Owed(s', s.pending[x].chan, x) {
        assert Owed(s, s.pending[x].chan, x);
      }
      forall i | 0 <= i < |s.flights| ensures Owed(s', s.flights[i].chan, s.flights[i].result.id) {
        assert Owed(s, s.flights[i].chan, s.flights[i].result.id);
      }
  }

  ghost function Run(actions: seq<Action>): State {
    if actions == [] then State(map[], [], []) else Step(Run(actions[..|actions| - 1]), actions[|actions| - 1])
  }

  lemma {:induction false} RunInv(actions: seq<Action>)
    ensures Inv(Run(actions))
  {
    if actions != [] {
      RunInv(actions[..|actions| - 1]);
      StepKeepsInv(Run(actions[..|actions| - 1]), actions[|actions| - 1]);
    }
  }

  /** In every interleaving a command's channel gets at most one result, with the command's id, and none is refused. */
  lemma AtMostOneResult(actions: seq<Action>, k: nat)
    requires k < |Run(actions).chans|
    ensures var c := Run(actions).chans[k];
            |c.sent| <= 1 && c.refused == 0 && forall i :: 0 <= i < |c.sent| ==> c.sent[i].id == c.command
  {
    RunInv(actions);
  }

  /** Only commands no older than the timeout are pending after a cleanup pass, and every removed one got an answer. */
  lemma CleanupAnswersStale(actions: seq<Action>, now: int, timeout: int, id: string)
    requires id in Run(actions).pending
    ensures var s, s' := Run(actions), Run(actions + [Cleanup(now, timeout)]);
            var k := s.pending[id].chan;
            && (id in s'.pending <==> now - s.pending[id].sentAt <= timeout)
            && k < |s'.chans| && (id !in s'.pending ==> s'.chans[k].sent == [TimedOut(id)])
  {
    RunInv(actions);
    assert (actions + [Cleanup(now, timeout)])[..|actions|] == actions;
    var s := Run(actions);
    assert Owed(s, s.pending[id].chan, id);
    assert ChanOk(s.chans[s.pending[id].chan]);
  }

  // ---- What became of a channel without a result ----

  ghost predicate PendingOn(s: State, k: nat)
    requires k < |s.chans|
  {
    var id := s.chans[k].command; id in s.pending && s.pending[id].chan == k
  }

  ghost predicate InFlight(s: State, k: nat) { exists i :: 0 <= i < |s.flights| && s.flights[i].chan == k }

  ghost predicate Claimed(s: State, k: nat)
    requires k < |s.chans|
  {
    PendingOn(s, k) || InFlight(s, k)
  }

  /** The action gives up the channel: its command is removed, or overwritten by another with the same id. */
  ghost predicate Abandons(s: State, a: Action, k: nat) {
    (a.Remove? || a.Add?) && a.id in s.pending && s.pending[a.id].chan == k
  }

  ghost predicate Abandoned(actions: seq<Action>, k: nat) {
    exists i :: 0 <= i < |actions| && AbandonedAt(actions, i, k)
  }

  ghost predicate AbandonedAt(actions: seq<Action>, i: nat, k: nat)
    requires i < |actions|
  {
    Abandons(Run(actions[..i]), actions[i], k)
  }

  lemma ClaimIsOpen(s: State, k: nat)
    requires Inv(s) && k < |s.chans| && Claimed(s, k)
    ensures s.chans[k].sent == []
  {
    if PendingOn(s, k) {
      assert Owed(s, s.pending[s.chans[k].command].chan, s.chans[k].command);
    } else {
      var i :| 0 <= i < |s.flights| && s.flights[i].chan == k;
      assert Owed(s, s.flights[i].chan, s.flights[i].result.id);
    }
  }

  lemma NotBoth(s: State, k: nat)
    requires Inv(s) && k < |s.chans| && PendingOn(s, k)
    ensures !InFlight(s, k)
  {
  }

  /** A step either keeps a claim on a channel, answers it, or abandons it; and touches the answers of claimed channels only. */
  ghost predicate Follows(s: State, a: Action, k: nat)
    requires k < |s.chans| <= |Step(s, a).chans|
  {
    var s' := Step(s, a);
    && s'.chans[k].command == s.chans[k].command
    && (!Claimed(s, k) ==> !Claimed(s', k) && s'.chans[k].sent == s.chans[k].sent)
    && (Claimed(s, k) && Abandons(s, a, k) ==> !Claimed(s', k) && s'.chans[k].sent == s.chans[k].sent)
    && (Claimed(s, k) && !Abandons(s, a, k) ==> Claimed(s', k) || s'.chans[k].sent != [])
  }

  lemma DeliverFollows(s: State, i: nat, k: nat)
    requires Inv(s) && k < |s.chans|
    ensures |s.chans| <= |Step(s, Deliver(i)).chans| && Follows(s, Deliver(i), k)
  {
    if i < |s.flights| && s.flights[i].chan < |s.chans| {
      assert Owed(s, s.flights[i].chan, s.flights[i].result.id) && ChanOk(s.chans[s.flights[i].chan]);
      LandedFlight(s, i, k);
      hide Inv, InFlight;
    }
  }

  /** When a flight lands, exactly the other flights are left. */
  lemma LandedFlight(s: State, i: nat, k: nat)
    requires Inv(s) && i < |s.flights| && s.flights[i].chan < |s.chans|
    ensures InFlight(Step(s, Deliver(i)), k) <==> InFlight(s, k) && k != s.flights[i].chan
    ensures s.flights[i].chan == k ==> InFlight(s, k) && (k < |s.chans| ==> !PendingOn(s, k))
  {
    var rest := s.flights[..i] + s.flights[i + 1..];
    if InFlight(s, k) && k != s.flights[i].chan {
      var j :| 0 <= j < |s.flights| && s.flights[j].chan == k;
      assert rest[if j < i then j else j - 1].chan == k;
    }
    if j :| 0 <= j < |rest| && rest[j].chan == k {
      assert rest[j] == s.flights[if j < i then j else j + 1];
    }
  }

  lemma CleanupFollows(s: State, now: int, timeout: int, k: nat)
    requires Inv(s) && k < |s.chans|
    ensures |s.chans| <= |Step(s, Cleanup(now, timeout)).chans| && Follows(s, Cleanup(now, timeout), k)
  {
    assert ChanOk(s.chans[k]);
    if PendingOn(s, k) {
      assert Owed(s, s.pending[s.chans[k].command].chan, s.chans[k].command);
    }
  }

  lemma TakeFollows(s: State, r: Result, k: nat)
    requires Inv(s) && k < |s.chans|
    ensures |s.chans| <= |Step(s, Take(r)).chans| && Follows(s, Take(r), k)
  {
    if r.id in s.pending {
      var s' := Step(s, Take(r));
      assert Owed(s, s.pending[r.id].chan, r.id);
      assert s'.flights[|s.flights|].chan == s.pending[r.id].chan;
      assert forall j :: 0 <= j < |s.flights| ==> s'.flights[j] == s.flights[j];
    }
  }

  lemma GiveUpFollows(s: State, a: Action, k: nat)
    requires Inv(s) && k < |s.chans| && (a.Add? || a.Remove?)
    ensures |s.chans| <= |Step(s, a).chans| && Follows(s, a, k)
  {
    if a.id in s.pending {
      assert Owed(s, s.pending[a.id].chan, a.id);
      if s.pending[a.id].chan == k {
        NotBoth(s, k);
      }
    }
  }

  lemma StepFollows(s: State, a: Action, k: nat)
    requires Inv(s) && k < |s.chans|
    ensures |s.chans| <= |Step(s, a).chans| && Follows(s, a, k)
  {
    match a
    case Deliver(i) => DeliverFollows(s, i, k);
    case Cleanup(now, timeout) => CleanupFollows(s, now, timeout, k);
    case Take(r) => TakeFollows(s, r, k);
    case Add(id, now) => GiveUpFollows(s, a, k);
    case Remove(id) => GiveUpFollows(s, a, k);
    case Receive(j) =>
  }

  lemma AbandonedSnoc(actions: seq<Action>, k: nat)
    requires actions != []
    ensures var front, last := actions[..|actions| - 1], actions[|actions| - 1];
            Abandoned(actions, k) <==> Abandoned(front, k) || Abandons(Run(front), last, k)
  {
    hide Run, Abandons;
    var front, n := actions[..|actions| - 1], |actions| - 1;
    forall i | 0 <= i < n ensures AbandonedAt(actions, i, k) <==> AbandonedAt(front, i, k) {
      assert front[..i] == actions[..i];
    }
    if Abandoned(front, k) {
      var i :| 0 <= i < |front| && AbandonedAt(front, i, k);
      assert AbandonedAt(actions, i, k);
    }
    assert AbandonedAt(actions, n, k) <==> Abandons(Run(front), actions[n], k);
  }

  lemma AbandonsExisting(s: State, a: Action, k: nat)
    requires Inv(s) && Abandons(s, a, k)
    ensures k < |s.chans| && PendingOn(s, k)
  {
    assert Owed(s, s.pending[a.id].chan, a.id);
  }

  /** The channel without a result is exactly one that is still claimed or was given up, and never both. */
  ghost predicate Accounted(actions: seq<Action>, k: nat) {
    var s := Run(actions);
    if k < |s.chans| then
      && (s.chans[k].sent == [] <==> Claimed(s, k) || Abandoned(actions, k))
      && !(Claimed(s, k) && Abandoned(actions, k))
    else !Abandoned(actions, k)
  }

  lemma {:induction false} EveryChannelAccounted(actions: seq<Action>, k: nat)
    ensures Accounted(actions, k)
  {
    if actions == [] {
      return;
    }
    var front, last := actions[..|actions| - 1], actions[|actions| - 1];
    EveryChannelAccounted(front, k);
    AbandonedSnoc(actions, k);
    RunInv(front);
    RunInv(actions);
    var s := Run(front);
    assert Run(actions) == Step(s, last);
    hide Run, Inv, Abandoned;
    if Abandons(s, last, k) {
      AbandonsExisting(s, last, k);
    }
    if k < |s.chans| {
      StepFollows(s, last, k);
      if Claimed(s, k) {
        ClaimIsOpen(s, k);
      }
      if Claimed(Step(s, last), k) {
        ClaimIsOpen(Step(s, last), k);
      }
    } else if k < |Step(s, last).chans| {
      assert last.Add? && k == |s.chans|;
      assert PendingOn(Step(s, last), k);
    }
  }

  /**
   * In every interleaving a command's channel has no result exactly when the command is still pending on it, its
   * result is on the way, or it was removed or overwritten before a result came: no result is ever lost.
   */
  lemma NoResultIsLost(actions: seq<Action>, k: nat)
    requires k < |Run(actions).chans|
    ensures Run(actions).chans[k].sent == [] <==>
            PendingOn(Run(actions), k) || InFlight(Run(actions), k) || Abandoned(actions, k)
  {
    EveryChannelAccounted(actions, k);
  }

  // ---- What each step does ----

  /** Adding makes a fresh empty channel for the command, pending since then; every other command keeps what it had. */
  lemma AddFates(s: State, id: string, now: int, other: string)
    ensures var s' := Step(s, Add(id, now));
            && s'.chans[..|s.chans|] == s.chans && |s'.chans| == |s.chans| + 1 && s'.flights == s.flights
            && s'.chans[|s.chans|].command == id && s'.chans[|s.chans|].sent == [] && s'.chans[|s.chans|].unread == 0
            && id in s'.pending && s'.pending[id].chan == |s.chans| && s'.pending[id].sentAt == now
            && (other != id ==> (other in s'.pending <==> other in s.pending) && (other in s.pending ==> s'.pending[other] == s.pending[other]))
  {
  }

  /** Completing and removing take exactly that command off the list; completing also owes its result to its channel. */
  lemma RemovalFates(s: State, a: Action, other: string)
    requires a.Take? || a.Remove?
    ensures var s', id := Step(s, a), if a.Take? then a.result.id else a.id;
            && s'.chans == s.chans && id !in s'.pending
            && (other != id ==> (other in s'.pending <==> other in s.pending) && (other in s.pending ==> s'.pending[other] == s.pending[other]))
            && (if a.Take? && id in s.pending
                then |s'.flights| == |s.flights| + 1 && s'.flights[..|s.flights|] == s.flights
                     && s'.flights[|s.flights|].chan == s.pending[id].chan && s'.flights[|s.flights|].result == a.result
                else s'.flights == s.flights)
  {
  }

  /** A landing flight puts its result on its channel; a reader takes one result; no other channel changes. */
  lemma ChannelFates(s: State, a: Action, k: nat)
    requires Inv(s) && k < |s.chans| && (a.Deliver? || a.Receive?)
    ensures var s' := Step(s, a);
            && |s'.chans| == |s.chans| && s'.pending == s.pending
            && (a.Deliver? && a.flight < |s.flights| && s.flights[a.flight].chan == k ==>
                  s'.chans[k].sent == s.chans[k].sent + [s.flights[a.flight].result] && s'.chans[k].unread == s.chans[k].unread + 1)
            && (a.Deliver? && !(a.flight < |s.flights| && s.flights[a.flight].chan == k) ==> s'.chans[k] == s.chans[k])
            && (a.Deliver? ==> s'.flights == if a.flight < |s.flights| then s.flights[..a.flight] + s.flights[a.flight + 1..] else s.flights)
            && (a.Receive? ==> s'.flights == s.flights && s'.chans[k].sent == s.chans[k].sent)
            && (a.Receive? ==> s'.chans[k].unread == if a.chan == k && s.chans[k].unread > 0 then s.chans[k].unread - 1 else s.chans[k].unread)
  {
    if a.Deliver? && a.flight < |s.flights| {
      var f := s.flights[a.flight];
      assert Owed(s, f.chan, f.result.id) && ChanOk(s.chans[f.chan]);
    }
  }

  /** The result was completed by an agent, or is the answer of a cleanup pass. */
  ghost predicate Given(actions: seq<Action>, r: Result) {
    Take(r) in actions || (r == TimedOut(r.id) && exists a :: a in actions && a.Cleanup?)
  }

  ghost predicate AllGiven(actions: seq<Action>, s: State) {
    && (forall i :: 0 <= i < |s.flights| ==> Take(s.flights[i].result) in actions)
    && (forall k, r :: 0 <= k < |s.chans| && r in s.chans[k].sent ==> Given(actions, r))
  }

  lemma {:induction false} RunGives(actions: seq<Action>)
    ensures AllGiven(actions, Run(actions))
  {
    if actions != [] {
      var front, last := actions[..|actions| - 1], actions[|actions| - 1];
      assert actions == front + [last];
      RunGives(front);
      hide Run;
      GivenStep(front, Run(front), last);
    }
  }

  lemma GivenStep(front: seq<Action>, s: State, last: Action)
    requires AllGiven(front, s)
    ensures AllGiven(front + [last], Step(s, last))
  {
    var all, s' := front + [last], Step(s, last);
    forall r | Given(front, r) ensures Given(all, r) {
    }
    forall i | 0 <= i < |s'.flights| ensures Take(s'.flights[i].result) in all {
      if last.Deliver? && last.flight < |s.flights| && s.flights[last.flight].chan < |s.chans| {
        assert s'.flights[i] == s.flights[if i < last.flight then i else i + 1];
      }
    }
    forall k, r | 0 <= k < |s'.chans| && r in s'.chans[k].sent ensures Given(all, r) {
      assert last in all;
      if k < |s.chans| && r in s.chans[k].sent {
        assert Given(front, r);
      }
    }
  }

  /** Whatever is put on a channel is a result that an agent completed, unchanged, or the time-out answer of a cleanup pass. */
  lemma ResultsAreGiven(actions: seq<Action>, k: nat, r: Result)
    requires k < |Run(actions).chans| && r in Run(actions).chans[k].sent
    ensures Given(actions, r)
  {
    RunGives(actions);
  }
}
