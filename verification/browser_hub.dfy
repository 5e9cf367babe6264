/** The browser hub: one event loop over client registration, removal, broadcasts and shutdown. */
module BrowserHub {
  import opened Options

  const CAPACITY := 256

  /** A client's send channel. `faults` counts sends on, or closes of, a closed channel (each would panic). */
  datatype Channel<Msg> = Channel(sent: seq<Msg>, unread: nat, closes: nat, faults: nat)

  function Closed<Msg>(c: Channel<Msg>): bool { c.closes > 0 }

  /** A select with a default: refused when the buffer is full. */
  function TrySend<Msg>(c: Channel<Msg>, m: Msg): Channel<Msg> {
    if Closed(c) then c.(faults := c.faults + 1)
    else if c.unread < CAPACITY then c.(sent := c.sent + [m], unread := c.unread + 1)
    else c
  }

  predicate Full<Msg>(c: Channel<Msg>) { !Closed(c) && c.unread >= CAPACITY }

  function Close<Msg>(c: Channel<Msg>): Channel<Msg> {
    if Closed(c) then c.(faults := c.faults + 1) else c.(closes := c.closes + 1)
  }

  // ---- The event loop ----

  datatype Hub<Msg> = Hub(clients: set<nat>, chans: map<nat, Channel<Msg>>, stopped: bool)

  /** Drain is the client's writer taking one message; it is not an event of the loop. */
  datatype Event<Msg> =
    | Register(client: nat, initial: Option<Msg>)
    | Unregister(client: nat)
    | Broadcast(message: Msg)
    | Stop
    | Drain(client: nat)

  function AfterRegister<Msg>(h: Hub<Msg>, c: nat, initial: Option<Msg>): Hub<Msg> {
    var ch := if c in h.chans then h.chans[c] else Channel([], 0, 0, 0);
    h.(clients := h.clients + {c}, chans := h.chans[c := if initial.Some? then TrySend(ch, initial.value) else ch])
  }

  /** The channel of a client after a broadcast: sent to, or closed when its buffer is full. */
  function AfterMessage<Msg>(c: Channel<Msg>, m: Msg): Channel<Msg> {
    if Full(c) then Close(c) else TrySend(c, m)
  }

  function Handle<Msg>(h: Hub<Msg>, e: Event<Msg>): Hub<Msg> {
    match e
    case Register(c, initial) => AfterRegister(h, c, initial)
    case Unregister(c) =>
      if c in h.clients && c in h.chans then h.(clients := h.clients - {c}, chans := h.chans[c := Close(h.chans[c])])
      else h
    case Broadcast(m) =>
      h.(clients := (set c | c in h.clients && !(c in h.chans && Full(h.chans[c]))),
         chans := map c | c in h.chans :: if c in h.clients then AfterMessage(h.chans[c], m) else h.chans[c])
    case Stop =>
      Hub({}, (map c | c in h.chans :: if c in h.clients then Close(h.chans[c]) else h.chans[c]), true)
    case Drain(c) =>
      if c in h.chans && h.chans[c].unread > 0 then
        h.(chans := h.chans[c := h.chans[c].(unread := h.chans[c].unread - 1)])
      else h
  }

  /** After Stop the loop handles nothing more; writers still drain. */
  function Step<Msg>(h: Hub<Msg>, e: Event<Msg>): Hub<Msg> {
    if h.stopped && !e.Drain? then h else Handle(h, e)
  }

  class HubLoop<Msg(!new)> {
    var clients: set<nat>
    var chans: map<nat, Channel<Msg>>
    var stopped: bool

    ghost function Contents(): Hub<Msg>
      reads this
    {
      Hub(clients, chans, stopped)
    }

    constructor ()
      ensures Contents() == Hub({}, map[], false)
    {
      clients, chans, stopped := {}, map[], false;
    }

    /** Send to every client, remember the slow ones, then remove and close those. */
    method HandleBroadcast(m: Msg)
      requires clients <= chans.Keys && !stopped
      requires forall c :: c in clients ==> !Closed(chans[c])
      modifies this
      ensures Contents() == Step(old(Contents()), Broadcast(m))
    {
      ghost var h := Contents();
      var slow: set<nat> := {};
      var todo := clients;
      while todo != {}
        invariant todo <= clients == h.clients && chans.Keys == h.chans.Keys && stopped == h.stopped
        invariant slow == set c | c in h.clients - todo && Full(h.chans[c])
        invariant forall c :: c in chans ==>
          chans[c] == if c in h.clients && c !in todo && c !in slow then TrySend(h.chans[c], m) else h.chans[c]
        decreases todo
      {
        var c :| c in todo;
        if chans[c].unread < CAPACITY {
          chans := chans[c := TrySend(chans[c], m)];
        } else {
          slow := slow + {c};
        }
        todo := todo - {c};
      }
      ghost var all := slow;
      while slow != {}
        invariant slow <= all && chans.Keys == h.chans.Keys && stopped == h.stopped
        invariant clients == h.clients - (all - slow)
        invariant forall c :: c in chans ==>
          chans[c] == if c in all then (if c in slow then h.chans[c] else Close(h.chans[c]))
                      else if c in h.clients then TrySend(h.chans[c], m) else h.chans[c]
        decreases slow
      {
        var c :| c in slow;
        if c in clients {
          clients := clients - {c};
          chans := chans[c := Close(chans[c])];
        }
        slow := slow - {c};
      }
      assert Contents() == Step(h, Broadcast(m));
    }

    /** Graceful shutdown closes every client's channel. */
    method HandleStop()
      requires clients <= chans.Keys && !stopped
      modifies this
      ensures Contents() == Step(old(Contents()), Stop)
    {
      ghost var h := Contents();
      while clients != {}
        invariant clients <= h.clients && chans.Keys == h.chans.Keys && stopped == h.stopped
        invariant forall c :: c in chans ==> chans[c] == if c in h.clients && c !in clients then Close(h.chans[c]) else h.chans[c]
        decreases clients
      {
        var c :| c in clients;
        chans := chans[c := Close(chans[c])];
        clients := clients - {c};
      }
      stopped := true;
      assert Contents() == Step(h, Stop);
    }

    method HandleUnregister(c: nat)
      requires clients <= chans.Keys && !stopped
      modifies this
      ensures Contents() == Step(old(Contents()), Unregister(c))
    {
      if c in clients {
        clients := clients - {c};
        chans := chans[c := Close(chans[c])];
      }
    }
  }

  // ---- What each client was sent, against the log of broadcasts ----

  /** When a client came, what it was first sent, and how many broadcasts the loop had processed when it left. */
  datatype Stay<Msg> = Stay(initial: Option<Msg>, from: nat, until: Option<nat>)

  datatype History<Msg> = History(hub: Hub<Msg>, log: seq<Msg>, stays: map<nat, Stay<Msg>>)

  ghost function LeaveAll<Msg>(stays: map<nat, Stay<Msg>>, gone: set<nat>, at: nat): map<nat, Stay<Msg>> {
    map c | c in stays :: if c in gone then stays[c].(until := Some(at)) else stays[c]
  }

  /** One event, recording arrivals, departures and processed broadcasts. */
  ghost function Record<Msg>(r: History<Msg>, e: Event<Msg>): History<Msg> {
    var h, h' := r.hub, Step(r.hub, e);
    var stays := LeaveAll(r.stays, h.clients - h'.clients, |r.log|);
    match e
    case Register(c, initial) =>
      if h.stopped then r else History(h', r.log, r.stays[c := Stay(initial, |r.log|, None)])
    case Broadcast(m) => if h.stopped then r else History(h', r.log + [m], stays)
    case _ => History(h', r.log, stays)
  }

  ghost function Run<Msg>(es: seq<Event<Msg>>): History<Msg> {
    if es == [] then History(Hub({}, map[], false), [], map[]) else Record(Run(es[..|es| - 1]), es[|es| - 1])
  }

  ghost predicate Consistent<Msg>(r: History<Msg>, c: nat)
    requires c in r.hub.chans && c in r.stays
  {
    var ch, st := r.hub.chans[c], r.stays[c];
    var end := if st.until.Some? then st.until.value else |r.log|;
    && st.from <= end <= |r.log|
    && ch.sent == (if st.initial.Some? then [st.initial.value] else []) + r.log[st.from..end]
    && ch.faults == 0
    && ch.closes == (if st.until.Some? then 1 else 0)
    && (c in r.hub.clients <==> st.until.None?)
  }

  ghost predicate Inv<Msg>(r: History<Msg>) {
    && r.hub.chans.Keys == r.stays.Keys && r.hub.clients <= r.stays.Keys
    && forall c :: c in r.stays ==> Consistent(r, c)
  }

  lemma RecordKeepsClient<Msg>(r: History<Msg>, e: Event<Msg>, c: nat)
    requires Inv(r) && c in Record(r, e).stays && c in Record(r, e).hub.chans
    requires e.Register? ==> e.client !in r.stays
    ensures Consistent(Record(r, e), c)
  {
    var r' := Record(r, e);
    if c in r.stays {
      assert Consistent(r, c);
      if e.Broadcast? && !r.hub.stopped {
        BroadcastKeepsClient(r, e.message, c);
      }
    } else {
      assert r.log[|r.log|..|r.log|] == [];
    }
  }

  lemma BroadcastKeepsClient<Msg>(r: History<Msg>, m: Msg, c: nat)
    requires Inv(r) && c in r.stays && !r.hub.stopped
    ensures Consistent(Record(r, Broadcast(m)), c)
  {
    assert Consistent(r, c);
    var st := r.stays[c];
    var first := if st.initial.Some? then [st.initial.value] else [];
    LogGrows(first, r.log, m, st.from, if st.until.Some? then st.until.value else |r.log|);
  }

  /** What a client was sent, as the log grows: unchanged up to a fixed end, and one message longer up to the new end. */
  lemma LogGrows<Msg>(first: seq<Msg>, log: seq<Msg>, m: Msg, from: nat, end: nat)
    requires from <= end <= |log|
    ensures (log + [m])[from..end] == log[from..end]
    ensures first + (log + [m])[from..|log + [m]|] == first + log[from..|log|] + [m]
  {
    assert (log + [m])[from..|log + [m]|] == log[from..|log|] + [m];
  }

  lemma RecordKeepsInv<Msg>(r: History<Msg>, e: Event<Msg>)
    requires Inv(r) && (e.Register? ==> e.client !in r.stays)
    ensures Inv(Record(r, e))
  {
    var r' := Record(r, e);
    assert r'.hub.chans.Keys == r'.stays.Keys;
    forall c | c in r'.stays ensures Consistent(r', c) {
      RecordKeepsClient(r, e, c);
    }
  }

  /** Each client registers once, as every connection makes a new client. */
  ghost predicate RegisteredOnce<Msg>(es: seq<Event<Msg>>) {
    forall i, j :: 0 <= i < j < |es| && es[i].Register? && es[j].Register? ==> es[i].client != es[j].client
  }

  lemma {:induction false} StaysRegistered<Msg>(es: seq<Event<Msg>>, c: nat)
    requires c in Run(es).stays
    ensures exists i :: 0 <= i < |es| && es[i].Register? && es[i].client == c
  {
    var front, last := es[..|es| - 1], es[|es| - 1];
    if c in Run(front).stays {
      StaysRegistered(front, c);
      var i :| 0 <= i < |front| && front[i].Register? && front[i].client == c;
      assert es[i] == front[i];
    } else {
      assert last.Register? && last.client == c;
    }
  }

  lemma {:induction false} RunInv<Msg>(es: seq<Event<Msg>>)
    requires RegisteredOnce(es)
    ensures Inv(Run(es))
  {
    if es != [] {
      RunInv(es[..|es| - 1]);
      var last := es[|es| - 1];
      if last.Register? && last.client in Run(es[..|es| - 1]).stays {
        StaysRegistered(es[..|es| - 1], last.client);
      }
      RecordKeepsInv(Run(es[..|es| - 1]), es[|es| - 1]);
    }
  }

  /**
   * In every run a client's channel is closed at most once and never used after closing, and what it was sent is its
   * initial state followed by exactly the broadcasts processed from its registration up to its removal, in order.
   */
  lemma DeliveryIsGapFree<Msg>(es: seq<Event<Msg>>, c: nat)
    requires RegisteredOnce(es) && c in Run(es).stays
    ensures c in Run(es).hub.chans
    ensures var r := Run(es);
            var ch, st := r.hub.chans[c], r.stays[c];
            var end := if st.until.Some? then st.until.value else |r.log|;
            && ch.closes <= 1 && ch.faults == 0
            && st.from <= end <= |r.log|
            && ch.sent == (if st.initial.Some? then [st.initial.value] else []) + r.log[st.from..end]
  {
    RunInv(es);
    assert Consistent(Run(es), c);
  }

  // ---- When a closed channel is used ----

  ghost function HubAfter<Msg>(es: seq<Event<Msg>>): Hub<Msg> {
    if es == [] then Hub({}, map[], false) else Step(HubAfter(es[..|es| - 1]), es[|es| - 1])
  }

  lemma {:induction false} RunHub<Msg>(es: seq<Event<Msg>>)
    ensures Run(es).hub == HubAfter(es)
  {
    if es != [] {
      RunHub(es[..|es| - 1]);
    }
  }

  /** A client registers again after it was removed. */
  ghost predicate Rejoins<Msg>(h: Hub<Msg>, e: Event<Msg>) {
    e.Register? && !h.stopped && e.client in h.chans && e.client !in h.clients
  }

  ghost predicate RejoinsAt<Msg>(es: seq<Event<Msg>>, i: nat)
    requires i < |es|
  {
    Rejoins(HubAfter(es[..i]), es[i])
  }

  ghost predicate SomeoneRejoins<Msg>(es: seq<Event<Msg>>) { exists i :: 0 <= i < |es| && RejoinsAt(es, i) }

  ghost predicate Faultless<Msg>(h: Hub<Msg>) { forall c :: c in h.chans ==> h.chans[c].faults == 0 }

  /** Exactly the registered clients have an open channel, and none was misused. */
  ghost predicate Tidy<Msg>(h: Hub<Msg>) {
    h.clients <= h.chans.Keys && Faultless(h) && forall c :: c in h.chans ==> (Closed(h.chans[c]) <==> c !in h.clients)
  }

  /** A closed channel was used already, or its client is registered, so that the next message or the end will. */
  ghost predicate Doomed<Msg>(h: Hub<Msg>, c: nat) {
    c in h.chans && (h.chans[c].faults > 0 || (c in h.clients && Closed(h.chans[c])))
  }

  lemma StepTidy<Msg>(h: Hub<Msg>, e: Event<Msg>)
    requires Tidy(h)
    ensures if Rejoins(h, e) then Doomed(Step(h, e), e.client) else Tidy(Step(h, e))
  {
  }

  lemma StepDoomed<Msg>(h: Hub<Msg>, e: Event<Msg>, c: nat)
    requires Doomed(h, c)
    ensures Doomed(Step(h, e), c)
  {
  }

  lemma RejoinsSnoc<Msg>(es: seq<Event<Msg>>)
    requires es != []
    ensures var front := es[..|es| - 1]; SomeoneRejoins(es) <==> SomeoneRejoins(front) || Rejoins(HubAfter(front), es[|es| - 1])
  {
    hide HubAfter, Rejoins;
    var front, n := es[..|es| - 1], |es| - 1;
    forall i | 0 <= i < n ensures RejoinsAt(es, i) <==> RejoinsAt(front, i) {
      assert front[..i] == es[..i];
    }
    if SomeoneRejoins(front) {
      var i :| 0 <= i < |front| && RejoinsAt(front, i);
      assert RejoinsAt(es, i);
    }
    assert RejoinsAt(es, n) <==> Rejoins(HubAfter(front), es[n]);
  }

  lemma {:induction false} TidyOrDoomed<Msg>(es: seq<Event<Msg>>)
    ensures if SomeoneRejoins(es) then exists c :: Doomed(HubAfter(es), c) else Tidy(HubAfter(es))
  {
    if es == [] {
      return;
    }
    var front, last := es[..|es| - 1], es[|es| - 1];
    TidyOrDoomed(front);
    RejoinsSnoc(es);
    var h := HubAfter(front);
    assert HubAfter(es) == Step(h, last);
    hide HubAfter, SomeoneRejoins, Tidy, Doomed, Step, Rejoins;
    if SomeoneRejoins(front) {
      var c :| Doomed(h, c);
      StepDoomed(h, last, c);
    } else {
      StepTidy(h, last);
      if Rejoins(h, last) {
        RejoinIsRegister(h, last);
      }
    }
  }

  lemma RejoinIsRegister<Msg>(h: Hub<Msg>, e: Event<Msg>)
    requires Rejoins(h, e)
    ensures e.Register?
  {
  }

  lemma StopShows<Msg>(h: Hub<Msg>, c: nat)
    requires Doomed(h, c) && (h.stopped ==> h.clients == {})
    ensures !Faultless(Step(h, Stop))
  {
    assert c in Step(h, Stop).chans;
  }

  lemma {:induction false} StoppedIsEmpty<Msg>(es: seq<Event<Msg>>)
    ensures HubAfter(es).stopped ==> HubAfter(es).clients == {}
  {
    if es != [] {
      StoppedIsEmpty(es[..|es| - 1]);
    }
  }

  /**
   * Over every run that ends with a shutdown, no closed channel is sent to or closed again if and only if no client
   * registers after it was removed. Every connection makes a new client, so the code stays on the safe side.
   */
  lemma FaultlessIffNoRejoin<Msg>(es: seq<Event<Msg>>)
    ensures Faultless(Run(es + [Stop]).hub) <==> !SomeoneRejoins(es)
  {
    RunHub(es + [Stop]);
    assert (es + [Stop])[..|es|] == es;
    var h := HubAfter(es);
    assert HubAfter(es + [Stop]) == Step(h, Stop);
    TidyOrDoomed(es);
    StoppedIsEmpty(es);
    hide HubAfter, SomeoneRejoins, Run;
    if SomeoneRejoins(es) {
      var c :| Doomed(h, c);
      StopShows(h, c);
    }
  }

  // ---- What each event does to each client ----

  /** The client took one more message: it is registered, and its open channel holds the message last. */
  predicate Received<Msg(==)>(h: Hub<Msg>, h': Hub<Msg>, c: nat, m: Msg)
    requires c in h.chans && c in h'.chans
  {
    var ch, ch' := h.chans[c], h'.chans[c];
    c in h'.clients && ch'.closes == 0 && ch'.sent == ch.sent + [m] && ch'.unread == ch.unread + 1 && ch'.faults == ch.faults
  }

  /** The client was removed and its channel closed, with nothing more sent. */
  predicate Dropped<Msg(==)>(h: Hub<Msg>, h': Hub<Msg>, c: nat)
    requires c in h.chans && c in h'.chans
  {
    var ch, ch' := h.chans[c], h'.chans[c];
    c !in h'.clients && ch'.closes == 1 && ch'.sent == ch.sent && ch'.unread == ch.unread && ch'.faults == ch.faults
  }

  predicate Unaffected<Msg(==)>(h: Hub<Msg>, h': Hub<Msg>, c: nat)
    requires c in h.chans && c in h'.chans
  {
    h'.chans[c] == h.chans[c] && (c in h'.clients <==> c in h.clients)
  }

  /** A registered client gets the message when it has room and is dropped when it has none; nobody else notices. */
  lemma BroadcastFates<Msg>(h: Hub<Msg>, m: Msg, c: nat)
    requires Tidy(h) && !h.stopped && c in h.chans
    ensures c in Step(h, Broadcast(m)).chans
    ensures var h' := Step(h, Broadcast(m));
            if c !in h.clients then Unaffected(h, h', c)
            else if h.chans[c].unread < CAPACITY then Received(h, h', c, m) else Dropped(h, h', c)
  {
  }

  /** A new client is registered with an open channel that holds the initial state alone, if there is one. */
  lemma RegisterFates<Msg>(h: Hub<Msg>, client: nat, initial: Option<Msg>, c: nat)
    requires Tidy(h) && !h.stopped && client !in h.chans && (c == client || c in h.chans)
    ensures c in Step(h, Register(client, initial)).chans
    ensures var h' := Step(h, Register(client, initial));
            if c != client then Unaffected(h, h', c)
            else c in h'.clients && h'.chans[c].closes == 0 && h'.chans[c].faults == 0
                 && h'.chans[c].sent == (if initial.Some? then [initial.value] else []) && h'.chans[c].unread == |h'.chans[c].sent|
  {
  }

  /** Unregistering drops that client, if it is registered, and stopping drops them all. */
  lemma RemovalFates<Msg>(h: Hub<Msg>, e: Event<Msg>, c: nat)
    requires Tidy(h) && !h.stopped && c in h.chans && (e.Unregister? || e.Stop?)
    ensures c in Step(h, e).chans && (Step(h, e).stopped <==> e.Stop?)
    ensures if c in h.clients && (e.Stop? || e.client == c) then Dropped(h, Step(h, e), c) else Unaffected(h, Step(h, e), c)
  {
  }

  /** A writer takes one unread message, before and after the stop; nothing else happens to a stopped hub. */
  lemma DrainFates<Msg>(h: Hub<Msg>, e: Event<Msg>, c: nat)
    requires c in h.chans && (e.Drain? || h.stopped)
    ensures c in Step(h, e).chans && Step(h, e).stopped == h.stopped && Step(h, e).clients == h.clients
    ensures Step(h, e).chans[c] ==
            if e == Drain(c) && h.chans[c].unread > 0 then h.chans[c].(unread := h.chans[c].unread - 1) else h.chans[c]
  {
  }

  /** The event is one for which the hub removes the client. */
  ghost predicate Ends<Msg>(h: Hub<Msg>, e: Event<Msg>, c: nat)
    requires c in h.chans
  {
    e == Unregister(c) || e.Stop? || (e.Broadcast? && h.chans[c].unread >= CAPACITY)
  }

  /** A registered client leaves exactly at its unregistration, at the stop, or at a broadcast that finds its buffer full. */
  lemma LeavesIff<Msg>(h: Hub<Msg>, e: Event<Msg>, c: nat)
    requires Tidy(h) && !h.stopped && c in h.clients
    ensures c !in Step(h, e).clients <==> Ends(h, e, c)
  {
  }

  /** The stay of the client ended with event `i`, after `at` broadcasts. */
  ghost predicate EndedAt<Msg>(es: seq<Event<Msg>>, i: nat, c: nat, at: nat)
    requires i < |es|
  {
    var r := Run(es[..i]);
    c in r.hub.clients && c in r.hub.chans && !r.hub.stopped && |r.log| == at && Ends(r.hub, es[i], c)
  }

  lemma RunIsTidy<Msg>(es: seq<Event<Msg>>)
    requires RegisteredOnce(es)
    ensures Tidy(Run(es).hub)
  {
    RunInv(es);
    forall c | c in Run(es).hub.chans ensures Consistent(Run(es), c) {
    }
    hide Run;
  }

  /** In every run a stay that ended did so with its unregistration, the stop, or a broadcast that found its buffer full. */
  lemma {:induction false} StayEndsForCause<Msg>(es: seq<Event<Msg>>, c: nat)
    requires RegisteredOnce(es) && c in Run(es).stays && Run(es).stays[c].until.Some?
    ensures exists i :: 0 <= i < |es| && EndedAt(es, i, c, Run(es).stays[c].until.value)
  {
    var front, n := es[..|es| - 1], |es| - 1;
    RunIsTidy(front);
    RunInv(front);
    StoppedHub(front);
    var r := Run(front);
    if c in r.stays {
      assert Consistent(r, c);
    }
    if c in r.stays && r.stays[c].until.Some? {
      StayEndsForCause(front, c);
      LongerStay(es, c);
      var i :| 0 <= i < |front| && EndedAt(front, i, c, r.stays[c].until.value);
      assert front[..i] == es[..i];
      assert EndedAt(es, i, c, Run(es).stays[c].until.value);
    } else {
      EndsNow(r, es[n], c);
      assert EndedAt(es, n, c, Run(es).stays[c].until.value);
    }
  }

  lemma StoppedHub<Msg>(es: seq<Event<Msg>>)
    ensures Run(es).hub.stopped ==> Run(es).hub.clients == {}
  {
    RunHub(es);
    StoppedIsEmpty(es);
  }

  /** A stay that has ended is not changed by later events. */
  lemma LongerStay<Msg>(es: seq<Event<Msg>>, c: nat)
    requires es != [] && RegisteredOnce(es) && c in Run(es[..|es| - 1]).stays && Run(es[..|es| - 1]).stays[c].until.Some?
    ensures c in Run(es).stays && Run(es).stays[c] == Run(es[..|es| - 1]).stays[c]
  {
    var front, last := es[..|es| - 1], es[|es| - 1];
    RunInv(front);
    assert Consistent(Run(front), c);
    StaysRegistered(front, c);
    assert !(last.Register? && last.client == c);
    EndedStays(Run(front), last, c);
  }

  lemma EndedStays<Msg>(r: History<Msg>, e: Event<Msg>, c: nat)
    requires c in r.stays && c !in r.hub.clients && !(e.Register? && e.client == c)
    ensures c in Record(r, e).stays && Record(r, e).stays[c] == r.stays[c]
  {
    hide Step;
  }

  lemma EndsNow<Msg>(r: History<Msg>, e: Event<Msg>, c: nat)
    requires Inv(r) && Tidy(r.hub) && (r.hub.stopped ==> r.hub.clients == {})
    requires c in Record(r, e).stays && Record(r, e).stays[c].until.Some? && (c in r.stays ==> r.stays[c].until.None?)
    ensures c in r.hub.clients && c in r.hub.chans && !r.hub.stopped && Ends(r.hub, e, c)
    ensures Record(r, e).stays[c].until.value == |r.log|
  {
    if c in r.stays {
      assert Consistent(r, c);
      LeavesIff(r.hub, e, c);
    }
  }
}
