/** The hot-reload event hub (pkg/runtime/hmr/hmr.go) as interleaved steps. Each critical
    section is one step; the replay that Subscribe sends after unlocking is a step of its own. */
module EventHub {
  import opened GoStrings

  const SCHEMA_MAJOR := 1
  const SCHEMA_MINOR := 1
  const REPLAY_WINDOW := 2.0
  const QUEUE := 8

  datatype Event = Event(kind: string, target: string, payload: string, source: string, route: string,
                         schemaMajor: int, schemaMinor: int, buildID: string, ts: real)

  function Stamp(e: Event, buildID: string, now: real): Event {
    e.(schemaMajor := SCHEMA_MAJOR, schemaMinor := SCHEMA_MINOR, buildID := buildID, ts := now)
  }

  /** Where the Subscribe call that made a channel stands: it still has an event to replay, or
      it has returned, and only then the caller can receive or cancel. */
  datatype Phase = Replaying(event: Event) | Returned

  datatype Channel = Channel(queue: seq<Event>, closed: bool, phase: Phase)

  type Channels = map<nat, Channel>

  datatype State = State(buildID: string, clients: set<nat>, channels: Channels, last: Option<Event>, lastAt: real)

  datatype Step =
    | Subscribe(id: nat, now: real)
    | Replay(id: nat)
    | Cancel(id: nat)
    | Broadcast(event: Event, now: real)
    | Receive(id: nat)

  function Start(buildID: string): State {
    State(buildID, {}, map[], None, 0.0)
  }

  /** A subscription makes a new channel; a send waits for room; only a returned Subscribe hands
      out the channel and its cancel function. */
  predicate Enabled(s: State, step: Step) {
    match step
    case Subscribe(id, _) => id !in s.channels
    case Replay(id) => id in s.channels && s.channels[id].phase.Replaying? && |s.channels[id].queue| < QUEUE
    case Cancel(id) => id in s.channels && s.channels[id].phase.Returned?
    case Broadcast(_, _) => true
    case Receive(id) => id in s.channels && s.channels[id].phase.Returned? && s.channels[id].queue != []
  }

  function Push(c: Channel, e: Event): Channel {
    c.(queue := c.queue + [e])
  }

  /** A full queue drops the event. */
  function Offer(c: Channel, e: Event): Channel {
    if |c.queue| < QUEUE then Push(c, e) else c
  }

  function Offered(channels: Channels, clients: set<nat>, e: Event): Channels {
    map id | id in channels :: if id in clients then Offer(channels[id], e) else channels[id]
  }

  function FirstPhase(s: State, now: real): Phase {
    if s.last.Some? && now - s.lastAt < REPLAY_WINDOW then Replaying(s.last.value) else Returned
  }

  function Next(s: State, step: Step): State
    requires Enabled(s, step)
  {
    match step
    case Subscribe(id, now) =>
      s.(clients := s.clients + {id}, channels := s.channels[id := Channel([], false, FirstPhase(s, now))])
    case Replay(id) =>
      var c := s.channels[id];
      s.(channels := s.channels[id := Push(c, c.phase.event).(phase := Returned)])
    case Cancel(id) =>
      if id in s.clients then
        s.(clients := s.clients - {id}, channels := s.channels[id := s.channels[id].(closed := true)])
      else s
    case Broadcast(event, now) =>
      var e := Stamp(event, s.buildID, now);
      s.(channels := Offered(s.channels, s.clients, e), last := Some(e), lastAt := now)
    case Receive(id) =>
      s.(channels := s.channels[id := s.channels[id].(queue := s.channels[id].queue[1..])])
  }

  /** Registered channels are open, so is one whose replay is still to be sent, and no queue is
      over its bound. */
  predicate Safe(s: State) {
    s.clients <= s.channels.Keys &&
    forall id :: id in s.channels ==> SafeChannel(s.channels[id], id in s.clients)
  }

  predicate SafeChannel(c: Channel, registered: bool) {
    c.closed == !registered && (c.phase.Replaying? ==> registered) && |c.queue| <= QUEUE
  }

  lemma NextKeepsSafe(s: State, step: Step)
    requires Safe(s) && Enabled(s, step)
    ensures Safe(Next(s, step))
  {
    var t := Next(s, step);
    forall id | id in t.channels ensures SafeChannel(t.channels[id], id in t.clients) {
      if id in s.channels { assert SafeChannel(s.channels[id], id in s.clients); }
    }
  }

  // ---------------------------------------------------------------- the code

  class Hub {
    const buildID: string
    var clients: set<nat>
    var channels: Channels
    var last: Option<Event>
    var lastAt: real

    ghost function View(): State
      reads this
    {
      State(buildID, clients, channels, last, lastAt)
    }

    constructor (buildID: string)
      ensures View() == Start(buildID)
    {
      this.buildID := buildID;
      clients, channels, last, lastAt := {}, map[], None, 0.0;
    }

    /** A send, which panics on a closed channel. */
    method Send(id: nat, e: Event)
      requires id in channels && !channels[id].closed && |channels[id].queue| < QUEUE
      modifies `channels
      ensures channels == old(channels)[id := Push(old(channels[id]), e)]
    {
      channels := channels[id := Push(channels[id], e)];
    }

    /** Closing, which panics on a closed channel. */
    method Close(id: nat)
      requires id in channels && !channels[id].closed
      modifies `channels
      ensures channels == old(channels)[id := old(channels[id]).(closed := true)]
    {
      channels := channels[id := channels[id].(closed := true)];
    }

    /** The locked part of Subscribe. */
    method Register(id: nat, now: real)
      requires Enabled(View(), Subscribe(id, now))
      modifies this
      ensures View() == Next(old(View()), Subscribe(id, now))
    {
      clients := clients + {id};
      var phase := Returned;
      if last.Some? && now - lastAt < REPLAY_WINDOW {
        phase := Replaying(last.value);
      }
      channels := channels[id := Channel([], false, phase)];
    }

    /** The rest of Subscribe, once the queue has room. */
    method SendReplay(id: nat)
      requires Safe(View()) && Enabled(View(), Replay(id))
      modifies this
      ensures View() == Next(old(View()), Replay(id))
    {
      assert SafeChannel(channels[id], id in clients);
      var e := channels[id].phase.event;
      Send(id, e);
      channels := channels[id := channels[id].(phase := Returned)];
    }

    /** The cancel function, as often as it is called. */
    method Unsubscribe(id: nat)
      requires Safe(View()) && Enabled(View(), Cancel(id))
      modifies this
      ensures View() == Next(old(View()), Cancel(id))
    {
      if id in clients {
        assert SafeChannel(channels[id], true);
        clients := clients - {id};
        Close(id);
      }
    }

    /** A send that skips a client whose queue is full. */
    method TrySend(id: nat, e: Event)
      requires id in channels && !channels[id].closed
      modifies `channels
      ensures channels == old(channels)[id := Offer(old(channels)[id], e)]
    {
      if |channels[id].queue| < QUEUE {
        Send(id, e);
      }
    }

    /** Clients in any order. */
    method Publish(event: Event, now: real)
      requires Safe(View())
      modifies this
      ensures View() == Next(old(View()), Broadcast(event, now))
    {
      var e := Stamp(event, buildID, now);
      last := Some(e);
      lastAt := now;
      var todo := clients;
      ghost var before, done: set<nat> := channels, {};
      assert clients <= channels.Keys;
      OfferedNone(channels, e);
      hide *;
      while todo != {}
        invariant todo <= clients == old(clients) && last == Some(e) && lastAt == now
        invariant forall id :: id in done <==> id in clients && id !in todo
        invariant channels == Offered(before, done, e)
        decreases |todo|
      {
        var id :| id in todo;
        ClientIsOpen(old(View()), id);
        OfferedOneMore(before, done, id, e);
        todo := todo - {id};
        done := done + {id};
        TrySend(id, e);
      }
      assert done == clients;
      Published(old(View()), event, now);
    }
  }

  lemma Published(s: State, event: Event, now: real)
    ensures var e := Stamp(event, s.buildID, now);
            Next(s, Broadcast(event, now)) == s.(channels := Offered(s.channels, s.clients, e), last := Some(e), lastAt := now)
  {
  }

  lemma ClientIsOpen(s: State, id: nat)
    requires Safe(s) && id in s.clients
    ensures id in s.channels && !s.channels[id].closed
  {
    assert SafeChannel(s.channels[id], true);
  }

  lemma OfferedNone(channels: Channels, e: Event)
    ensures Offered(channels, {}, e) == channels
  {
  }

  lemma OfferedOneMore(channels: Channels, offered: set<nat>, id: nat, e: Event)
    requires id in channels && id !in offered
    ensures var now := Offered(channels, offered, e);
            id in now && now[id] == channels[id] && Offered(channels, offered + {id}, e) == now[id := Offer(now[id], e)]
  {
  }

  // ---------------------------------------------------------------- whole runs

  /** What became of one broadcast for one client: queued, or dropped at a queue depth. */
  datatype Fate = Delivered | Dropped(depth: nat)

  /** What an observer notes of one channel: how many broadcasts came before it, the fate of
      each one since then, where in the stream its replay was queued, and what was received. */
  datatype Entry = Entry(since: nat, fates: seq<Fate>, replayAt: Option<nat>, received: seq<Event>)

  datatype World = World(hub: State, sent: seq<Event>, book: map<nat, Entry>)

  function FateOf(before: Channel, after: Channel): Fate {
    if before.queue == after.queue then Dropped(|before.queue|) else Delivered
  }

  function NoteBroadcast(s: State, t: State, book: map<nat, Entry>): map<nat, Entry> {
    map id | id in book ::
      if id in s.clients && id in s.channels && id in t.channels
      then book[id].(fates := book[id].fates + [FateOf(s.channels[id], t.channels[id])]) else book[id]
  }

  function Observe(w: World, step: Step): World
    requires Enabled(w.hub, step) && w.hub.channels.Keys == w.book.Keys
  {
    var t := Next(w.hub, step);
    match step
    case Subscribe(id, _) => World(t, w.sent, w.book[id := Entry(|w.sent|, [], None, [])])
    case Replay(id) =>
      var e := w.book[id];
      World(t, w.sent, w.book[id := e.(replayAt := Some(|e.received + w.hub.channels[id].queue|))])
    case Cancel(_) => World(t, w.sent, w.book)
    case Broadcast(_, _) => World(t, w.sent + [t.last.value], NoteBroadcast(w.hub, t, w.book))
    case Receive(id) =>
      var e := w.book[id];
      World(t, w.sent, w.book[id := e.(received := e.received + [w.hub.channels[id].queue[0]])])
  }

  /** Any steps in any order, as long as each is enabled. */
  function Run(buildID: string, steps: seq<Step>): Option<World> {
    if steps == [] then Some(World(Start(buildID), [], map[]))
    else
      var w := Run(buildID, steps[..|steps| - 1]);
      var step := steps[|steps| - 1];
      if w.Some? && Enabled(w.value.hub, step) && w.value.hub.channels.Keys == w.value.book.Keys
      then Some(Observe(w.value, step)) else None
  }

  /** The delivered ones of the broadcasts number since, since + 1, and so on. */
  function Live(sent: seq<Event>, since: nat, fates: seq<Fate>): seq<Event>
    requires since + |fates| <= |sent|
  {
    if fates == [] then []
    else
      var n := |fates| - 1;
      if fates[n].Delivered? then Live(sent, since, fates[..n]) + [sent[since + n]] else Live(sent, since, fates[..n])
  }

  /** All a channel ever queued: the delivered broadcasts in order, with at most one replay, of
      the last broadcast before the subscription, somewhere among them. */
  function Stream(sent: seq<Event>, e: Entry): seq<Event>
    requires e.since + |e.fates| <= |sent|
    requires e.replayAt.Some? ==> e.since > 0 && e.replayAt.value <= |Live(sent, e.since, e.fates)|
  {
    var d := Live(sent, e.since, e.fates);
    match e.replayAt
    case None => d
    case Some(p) => d[..p] + [sent[e.since - 1]] + d[p..]
  }

  ghost predicate GoodChannel(sent: seq<Event>, e: Entry, c: Channel, registered: bool) {
    && e.since + |e.fates| <= |sent| && (registered ==> e.since + |e.fates| == |sent|)
    && (forall i :: 0 <= i < |e.fates| ==> e.fates[i] == Delivered || e.fates[i] == Dropped(8))
    && (e.replayAt.Some? ==> e.since > 0 && e.replayAt.value <= |Live(sent, e.since, e.fates)|)
    && (c.phase.Replaying? ==> e.since > 0 && e.replayAt.None? && c.phase.event == sent[e.since - 1])
    && e.received + c.queue == Stream(sent, e)
  }

  ghost predicate AllStamped(s: State, sent: seq<Event>) {
    && s.last == (if sent == [] then None else Some(sent[|sent| - 1]))
    && forall i :: 0 <= i < |sent| ==> sent[i].buildID == s.buildID && sent[i].schemaMajor == 1 && sent[i].schemaMinor == 1
  }

  ghost predicate Good(w: World) {
    && Safe(w.hub) && w.hub.channels.Keys == w.book.Keys && AllStamped(w.hub, w.sent)
    && forall id :: id in w.book ==> GoodChannel(w.sent, w.book[id], w.hub.channels[id], id in w.hub.clients)
  }

  lemma {:induction false} LiveExtends(sent: seq<Event>, more: seq<Event>, since: nat, fates: seq<Fate>)
    requires since + |fates| <= |sent|
    ensures Live(sent + more, since, fates) == Live(sent, since, fates)
  {
    if fates != [] { LiveExtends(sent, more, since, fates[..|fates| - 1]); }
  }

  lemma StreamExtends(sent: seq<Event>, x: Event, e: Entry, c: Channel)
    requires GoodChannel(sent, e, c, false)
    ensures GoodChannel(sent + [x], e, c, false)
  {
    LiveExtends(sent, [x], e.since, e.fates);
  }

  /** A broadcast at a registered channel: queued at the end of its stream, or dropped because
      the queue holds eight events. */
  lemma BroadcastAt(sent: seq<Event>, x: Event, e: Entry, c: Channel)
    requires GoodChannel(sent, e, c, true) && |c.queue| <= QUEUE
    ensures var d := Offer(c, x);
            GoodChannel(sent + [x], e.(fates := e.fates + [FateOf(c, d)]), d, true)
  {
    var d := Offer(c, x);
    var f := e.(fates := e.fates + [FateOf(c, d)]);
    LiveExtends(sent, [x], e.since, e.fates);
    assert f.fates[..|e.fates|] == e.fates;
    var before, after := Live(sent, e.since, e.fates), Live(sent + [x], e.since, f.fates);
    if |c.queue| < QUEUE {
      assert |d.queue| == |c.queue| + 1;
      assert after == before + [x];
      assert e.received + d.queue == e.received + c.queue + [x];
      if e.replayAt.Some? {
        var p := e.replayAt.value;
        assert after[..p] == before[..p] && after[p..] == before[p..] + [x];
      }
    }
  }

  lemma ReplayAt(sent: seq<Event>, e: Entry, c: Channel)
    requires GoodChannel(sent, e, c, true) && c.phase.Replaying?
    ensures GoodChannel(sent, e.(replayAt := Some(|e.received + c.queue|)), Push(c, c.phase.event).(phase := Returned), true)
  {
    var d := Live(sent, e.since, e.fates);
    assert d == e.received + c.queue && d[..|d|] == d && d[|d|..] == [];
    assert e.received + (c.queue + [c.phase.event]) == d + [sent[e.since - 1]];
  }

  lemma ReceiveAt(sent: seq<Event>, e: Entry, c: Channel, registered: bool)
    requires GoodChannel(sent, e, c, registered) && c.queue != []
    ensures GoodChannel(sent, e.(received := e.received + [c.queue[0]]), c.(queue := c.queue[1..]), registered)
  {
    assert e.received + [c.queue[0]] + c.queue[1..] == e.received + c.queue;
  }

  lemma ObserveKeepsGood(w: World, step: Step)
    requires Good(w) && Enabled(w.hub, step)
    ensures Good(Observe(w, step))
  {
    hide GoodChannel, AllStamped, Safe;
    NextKeepsSafe(w.hub, step);
    NextKeepsStamped(w, step);
    var v := Observe(w, step);
    assert v.hub == Next(w.hub, step);
    hide Next, Observe;
    forall id | id in v.book ensures GoodChannel(v.sent, v.book[id], v.hub.channels[id], id in v.hub.clients) {
      ChannelStaysGood(w, step, id);
    }
  }

  lemma NextKeepsStamped(w: World, step: Step)
    requires AllStamped(w.hub, w.sent) && Enabled(w.hub, step) && w.hub.channels.Keys == w.book.Keys
    ensures AllStamped(Observe(w, step).hub, Observe(w, step).sent)
    ensures Observe(w, step).hub.channels.Keys == Observe(w, step).book.Keys
  {
    hide Offered, NoteBroadcast;
    if step.Broadcast? {
      SameIds(w.hub, Next(w.hub, step), w.book, Stamp(step.event, w.hub.buildID, step.now));
    }
  }

  lemma SameIds(s: State, t: State, book: map<nat, Entry>, e: Event)
    ensures Offered(s.channels, s.clients, e).Keys == s.channels.Keys && NoteBroadcast(s, t, book).Keys == book.Keys
  {
  }

  lemma ChannelStaysGood(w: World, step: Step, id: nat)
    requires Good(w) && Enabled(w.hub, step) && id in Observe(w, step).book
    ensures var v := Observe(w, step);
            GoodChannel(v.sent, v.book[id], v.hub.channels[id], id in v.hub.clients)
  {
    if id !in w.book {
      assert Live(w.sent, |w.sent|, []) == [];
    } else {
      var e, c := w.book[id], w.hub.channels[id];
      assert GoodChannel(w.sent, e, c, id in w.hub.clients) && SafeChannel(c, id in w.hub.clients);
      hide GoodChannel, Live, Stream;
      match step
      case Subscribe(_, _) =>
      case Replay(k) => if k == id { ReplayAt(w.sent, e, c); }
      case Cancel(k) => if k == id && id in w.hub.clients { ClosedStaysGood(w.sent, e, c); }
      case Receive(k) => if k == id { ReceiveAt(w.sent, e, c, id in w.hub.clients); }
      case Broadcast(event, now) =>
        var x := Stamp(event, w.hub.buildID, now);
        if id in w.hub.clients { BroadcastAt(w.sent, x, e, c); } else { StreamExtends(w.sent, x, e, c); }
    }
  }

  lemma ClosedStaysGood(sent: seq<Event>, e: Entry, c: Channel)
    requires GoodChannel(sent, e, c, true)
    ensures GoodChannel(sent, e, c.(closed := true), false)
  {
  }

  /** Over every interleaving: registered channels are open and closed ones stay out, queues hold
      at most eight events, every event carries the hub's build id and its schema version, and
      each channel's stream is what Stream says, a broadcast being dropped only by a full queue. */
  lemma {:induction false} EveryRunIsGood(buildID: string, steps: seq<Step>)
    requires Run(buildID, steps).Some?
    ensures Good(Run(buildID, steps).value)
  {
    if steps != [] {
      EveryRunIsGood(buildID, steps[..|steps| - 1]);
      ObserveKeepsGood(Run(buildID, steps[..|steps| - 1]).value, steps[|steps| - 1]);
    }
  }

  /** Cancelling again does nothing, and a closed channel is never opened or fed again. */
  lemma ClosedStep(w: World, step: Step, id: nat)
    requires Good(w) && Enabled(w.hub, step) && id in w.hub.channels && w.hub.channels[id].closed
    ensures Enabled(w.hub, Cancel(id)) && Next(w.hub, Cancel(id)) == w.hub
    ensures var v := Observe(w, step);
            && id in v.book && id in v.hub.channels && v.hub.channels[id].closed
            && v.book[id].received + v.hub.channels[id].queue == w.book[id].received + w.hub.channels[id].queue
  {
    hide GoodChannel, AllStamped;
    var c := w.hub.channels[id];
    assert SafeChannel(c, id in w.hub.clients);
    if step == Receive(id) { assert w.book[id].received + [c.queue[0]] + c.queue[1..] == w.book[id].received + c.queue; }
  }

  /** Over whole runs: closed once means closed for good, and all it was ever sent stays the same. */
  lemma {:induction false} ClosedForGood(buildID: string, steps: seq<Step>, more: seq<Step>, id: nat)
    requires Run(buildID, steps).Some? && Run(buildID, steps + more).Some?
    requires var w := Run(buildID, steps).value; id in w.hub.channels && id in w.book && w.hub.channels[id].closed
    ensures var w, v := Run(buildID, steps).value, Run(buildID, steps + more).value;
            && id in v.book && id in v.hub.channels && v.hub.channels[id].closed
            && v.book[id].received + v.hub.channels[id].queue == w.book[id].received + w.hub.channels[id].queue
  {
    if more == [] {
      assert steps + more == steps;
    } else {
      var front, step := more[..|more| - 1], more[|more| - 1];
      assert (steps + more)[..|steps + more| - 1] == steps + front;
      ClosedForGood(buildID, steps, front, id);
      EveryRunIsGood(buildID, steps + front);
      ClosedStep(Run(buildID, steps + front).value, step, id);
    }
  }

  // ---------------------------------------------------------------- the replay can stall

  /** A replay that waits on a full queue: Subscribe has not returned, so nobody can receive. */
  predicate Stalled(s: State, id: nat) {
    id in s.channels && s.channels[id].phase.Replaying? && |s.channels[id].queue| >= QUEUE
  }

  /** Once stalled, forever stalled, with the same queue. */
  lemma {:induction false} StalledForever(buildID: string, steps: seq<Step>, more: seq<Step>, id: nat)
    requires Run(buildID, steps).Some? && Stalled(Run(buildID, steps).value.hub, id)
    requires Run(buildID, steps + more).Some?
    ensures Stalled(Run(buildID, steps + more).value.hub, id)
    ensures Run(buildID, steps + more).value.hub.channels[id].queue == Run(buildID, steps).value.hub.channels[id].queue
  {
    if more == [] {
      assert steps + more == steps;
    } else {
      var front, step := more[..|more| - 1], more[|more| - 1];
      assert (steps + more)[..|steps + more| - 1] == steps + front;
      StalledForever(buildID, steps, front, id);
      StalledStep(Run(buildID, steps + front).value.hub, step, id);
    }
  }

  lemma StalledStep(s: State, step: Step, id: nat)
    requires Stalled(s, id) && Enabled(s, step)
    ensures Stalled(Next(s, step), id) && Next(s, step).channels[id].queue == s.channels[id].queue
  {
  }

  /** While a replay is waiting nobody has received anything: the queue holds the broadcasts since
      the subscription up to its bound, delivered one and all until it is full. */
  ghost predicate Waiting(e: Entry, c: Channel, registered: bool) {
    c.phase.Replaying? ==>
      && registered && e.received == [] && |c.queue| == (if |e.fates| < QUEUE then |e.fates| else QUEUE)
      && forall i :: 0 <= i < |e.fates| && i < QUEUE ==> e.fates[i] == Delivered
  }

  ghost predicate AllWaiting(w: World) {
    forall id :: id in w.book && id in w.hub.channels ==> Waiting(w.book[id], w.hub.channels[id], id in w.hub.clients)
  }

  lemma BroadcastKeepsWaiting(e: Entry, c: Channel, x: Event)
    requires Waiting(e, c, true)
    ensures var d := Offer(c, x); Waiting(e.(fates := e.fates + [FateOf(c, d)]), d, true)
  {
    var d := Offer(c, x);
    if |c.queue| < QUEUE { assert |d.queue| == |c.queue| + 1; }
  }

  lemma ObserveKeepsWaiting(w: World, step: Step)
    requires Good(w) && Enabled(w.hub, step) && AllWaiting(w)
    ensures AllWaiting(Observe(w, step))
  {
    var v := Observe(w, step);
    forall id | id in v.book && id in v.hub.channels ensures Waiting(v.book[id], v.hub.channels[id], id in v.hub.clients) {
      WaitingStays(w, step, id);
    }
  }

  lemma WaitingStays(w: World, step: Step, id: nat)
    requires Good(w) && Enabled(w.hub, step) && AllWaiting(w) && id in Observe(w, step).book && id in Observe(w, step).hub.channels
    ensures var v := Observe(w, step);
            Waiting(v.book[id], v.hub.channels[id], id in v.hub.clients)
  {
    hide GoodChannel, AllStamped, Safe, Stamp, Offer;
    if id in w.book {
      var e, c := w.book[id], w.hub.channels[id];
      assert Waiting(e, c, id in w.hub.clients);
      if step.Broadcast? && id in w.hub.clients {
        BroadcastKeepsWaiting(e, c, Stamp(step.event, w.hub.buildID, step.now));
      }
    }
  }

  lemma {:induction false} EveryRunWaits(buildID: string, steps: seq<Step>)
    requires Run(buildID, steps).Some?
    ensures AllWaiting(Run(buildID, steps).value)
  {
    if steps != [] {
      var front := steps[..|steps| - 1];
      EveryRunWaits(buildID, front);
      EveryRunIsGood(buildID, front);
      ObserveKeepsWaiting(Run(buildID, front).value, steps[|steps| - 1]);
    }
  }

  /** In every run, a Subscribe that has a replay to send can send it and return exactly while
      fewer than eight broadcasts have slipped in since it registered; from the eighth on it is
      stalled. */
  lemma SubscribeReturnsIffFewerThanEight(buildID: string, steps: seq<Step>, id: nat)
    requires Run(buildID, steps).Some?
    requires var w := Run(buildID, steps).value; id in w.hub.channels && id in w.book && w.hub.channels[id].phase.Replaying?
    ensures var w := Run(buildID, steps).value;
            && (Enabled(w.hub, Replay(id)) <==> |w.book[id].fates| < 8)
            && (Stalled(w.hub, id) <==> |w.book[id].fates| >= 8)
  {
    EveryRunWaits(buildID, steps);
    var w := Run(buildID, steps).value;
    assert Waiting(w.book[id], w.hub.channels[id], id in w.hub.clients);
  }

  lemma {:induction false} AllDelivered(sent: seq<Event>, since: nat, fates: seq<Fate>)
    requires since + |fates| <= |sent| && forall i :: 0 <= i < |fates| ==> fates[i] == Delivered
    ensures Live(sent, since, fates) == sent[since..since + |fates|]
  {
    if fates != [] { AllDelivered(sent, since, fates[..|fates| - 1]); }
  }

  /** In every run, a replay that is sent queues up behind every broadcast made since the client
      registered, though it is older than all of them; it comes first exactly when there were
      none. */
  lemma ReplayOvertaken(buildID: string, steps: seq<Step>, id: nat)
    requires Run(buildID, steps).Some? && Enabled(Run(buildID, steps).value.hub, Replay(id))
    ensures var w := Run(buildID, steps).value;
            && id in w.book && w.hub.channels.Keys == w.book.Keys && w.book[id].since > 0 && w.book[id].since <= |w.sent|
            && var v := Observe(w, Replay(id));
               && v.hub.channels[id].queue == w.sent[w.book[id].since..] + [w.sent[w.book[id].since - 1]]
               && v.book[id].received == [] && v.book[id].replayAt == Some(|w.book[id].fates|)
               && |w.book[id].fates| == |w.sent| - w.book[id].since
  {
    EveryRunIsGood(buildID, steps);
    EveryRunWaits(buildID, steps);
    hide *;
    ReplayQueuesLast(Run(buildID, steps).value, id);
  }

  lemma ReplayQueuesLast(w: World, id: nat)
    requires Good(w) && AllWaiting(w) && Enabled(w.hub, Replay(id))
    ensures id in w.book && w.hub.channels.Keys == w.book.Keys && w.book[id].since > 0 && w.book[id].since <= |w.sent|
    ensures var v := Observe(w, Replay(id));
            && v.hub.channels[id].queue == w.sent[w.book[id].since..] + [w.sent[w.book[id].since - 1]]
            && v.book[id].received == [] && v.book[id].replayAt == Some(|w.book[id].fates|)
            && |w.book[id].fates| == |w.sent| - w.book[id].since
  {
    hide Safe, AllStamped;
    var e, c := w.book[id], w.hub.channels[id];
    assert GoodChannel(w.sent, e, c, id in w.hub.clients) && Waiting(e, c, id in w.hub.clients);
    AllDelivered(w.sent, e.since, e.fates);
    hide Live;
    assert e.received + c.queue == c.queue;
    assert w.sent[e.since..e.since + |e.fates|] == w.sent[e.since..];
  }

  function Repeat(step: Step, n: nat): seq<Step> {
    if n == 0 then [] else Repeat(step, n - 1) + [step]
  }

  /** A client subscribes within the replay window and n events are published before its replay
      is sent. */
  function Burst(e: Event, n: nat): seq<Step> {
    [Broadcast(e, 0.0), Subscribe(0, 1.0)] + Repeat(Broadcast(e, 1.0), n)
  }

  predicate Holding(s: State, n: nat) {
    0 in s.channels && 0 in s.clients && s.channels[0].phase.Replaying? && |s.channels[0].queue| == if n < QUEUE then n else QUEUE
  }

  lemma HoldsOneMore(s: State, n: nat, e: Event, now: real)
    requires Holding(s, n)
    ensures Holding(Next(s, Broadcast(e, now)), n + 1)
  {
  }

  lemma BurstBegins(buildID: string, e: Event)
    ensures Run(buildID, Burst(e, 0)).Some? && Holding(Run(buildID, Burst(e, 0)).value.hub, 0)
  {
    var s1, s2 := Broadcast(e, 0.0), Subscribe(0, 1.0);
    assert Burst(e, 0) == [s1, s2] && [s1, s2][..1] == [s1] && [s1][..0] == [];
    var w0 := World(Start(buildID), [], map[]);
    assert Run(buildID, []) == Some(w0);
    var w1 := Observe(w0, s1);
    assert Run(buildID, [s1]) == Some(w1);
    assert Run(buildID, [s1, s2]) == Some(Observe(w1, s2));
  }

  lemma {:induction false} BurstFills(buildID: string, e: Event, n: nat)
    ensures Run(buildID, Burst(e, n)).Some? && Holding(Run(buildID, Burst(e, n)).value.hub, n)
  {
    if n == 0 {
      BurstBegins(buildID, e);
    } else {
      assert Burst(e, n) == Burst(e, n - 1) + [Broadcast(e, 1.0)];
      hide *;
      BurstFills(buildID, e, n - 1);
      var w := Run(buildID, Burst(e, n - 1)).value;
      EveryRunIsGood(buildID, Burst(e, n - 1));
      AnotherBroadcast(buildID, Burst(e, n - 1), w, e, 1.0);
      HoldsOneMore(w.hub, n - 1, e, 1.0);
    }
  }

  lemma AnotherBroadcast(buildID: string, steps: seq<Step>, w: World, e: Event, now: real)
    requires Run(buildID, steps) == Some(w) && Good(w)
    ensures Run(buildID, steps + [Broadcast(e, now)]).Some?
    ensures Enabled(w.hub, Broadcast(e, now)) && Run(buildID, steps + [Broadcast(e, now)]).value.hub == Next(w.hub, Broadcast(e, now))
  {
    hide GoodChannel, Safe, AllStamped, Next;
    var more := steps + [Broadcast(e, now)];
    assert more[..|more| - 1] == steps;
  }

  /** Both cases occur: with any number of events in the burst, and it stalls from eight on. */
  lemma BurstStalls(buildID: string, e: Event, n: nat)
    ensures Run(buildID, Burst(e, n)).Some?
    ensures Stalled(Run(buildID, Burst(e, n)).value.hub, 0) <==> n >= 8
  {
    BurstFills(buildID, e, n);
  }
}
