/** The dev loop's change scheduler and hot swap (setupWatcher in
    examples/webapp-demo/cmd/dev/main.go). Every block the source runs under its mutex is
    one atomic step; between steps anything may happen in any order. */
module DevScheduler {
  import opened GoStrings

  type Proc = nat

  datatype Change = Change(source: string, generate: bool)

  /** filepath.Ext: from the last '.' of the last path element on. */
  function Ext(path: string): string {
    if path == "" || path[|path| - 1] == '/' then ""
    else if path[|path| - 1] == '.' then "."
    else
      var front := Ext(path[..|path| - 1]);
      if front == "" then "" else front + [path[|path| - 1]]
  }

  predicate IsStaticAsset(path: string) {
    Ext(path) == ".css" || Ext(path) == ".js" || Ext(path) == ".html"
  }

  function MergeSource(current: string, next: string, hasCurrent: bool): string {
    if !hasCurrent || IsStaticAsset(next) || !IsStaticAsset(current) then next else current
  }

  datatype Phase = Building | Waiting(proc: Proc) | Finishing

  datatype Cycle = Cycle(source: string, generate: bool, phase: Phase)

  /** A coalesced batch: whether there is one, what it is named after, whether it needs generate. */
  datatype Slot = Slot(full: bool, source: string, generate: bool)

  const EMPTY := Slot(false, "", false)

  function Collect(slot: Slot, c: Change): Slot {
    Slot(true, MergeSource(slot.source, c.source, slot.full), slot.generate || c.generate)
  }

  /** The captured variables of setupWatcher (the pending and debounce ones as slots), the
      timers whose callback has not run yet, the running cycles and the server processes. */
  datatype State = State(
    busy: bool, pending: Slot, debounce: Slot, debounceID: nat, restartTimer: Option<nat>,
    armed: set<nat>, cycles: seq<Cycle>, proc: Proc, alive: set<Proc>)

  function Init(proc: Proc): State {
    State(false, EMPTY, EMPTY, 0, None, {}, [], proc, {proc})
  }

  /** Changed says whether stopping the previous timer came in time; a timer that could not
      be stopped still runs its callback, with an old id. The cycle events name a running
      cycle by its position. */
  datatype Event =
    | Changed(change: Change, stopped: bool)
    | TimerFired(id: nat)
    | Failed(cycle: nat)
    | Started(cycle: nat, proc: Proc)
    | Ready(cycle: nat)
    | NotReady(cycle: nat)
    | Finished(cycle: nat)

  predicate InPhase(s: State, i: nat, building: bool) {
    i < |s.cycles| && s.cycles[i].phase == if building then Building else Finishing
  }

  predicate Enabled(s: State, e: Event) {
    match e
    case Changed(_, _) => true
    case TimerFired(id) => id in s.armed
    case Failed(i) => InPhase(s, i, true)
    case Started(i, p) => InPhase(s, i, true) && p !in s.alive
    case Ready(i) => i < |s.cycles| && s.cycles[i].phase.Waiting?
    case NotReady(i) => i < |s.cycles| && s.cycles[i].phase.Waiting?
    case Finished(i) => InPhase(s, i, false)
  }

  function Without<T>(xs: seq<T>, i: nat): seq<T>
    requires i < |xs|
  {
    xs[..i] + xs[i + 1..]
  }

  function OnChange(s: State, c: Change, stopped: bool): State {
    if s.busy then s.(pending := Collect(s.pending, c))
    else
      var id := s.debounceID + 1;
      var left := if s.restartTimer.Some? && stopped then s.armed - {s.restartTimer.value} else s.armed;
      s.(debounce := Collect(s.debounce, c), debounceID := id, restartTimer := Some(id), armed := left + {id})
  }

  function OnTimer(s: State, id: nat): State {
    var t := s.(armed := s.armed - {id});
    if id != s.debounceID then t
    else
      t.(restartTimer := None, debounce := EMPTY, busy := true,
         cycles := s.cycles + [Cycle(s.debounce.source, s.debounce.generate, Building)])
  }

  function OnFail(s: State, i: nat): State
    requires i < |s.cycles|
  {
    s.(busy := false, cycles := Without(s.cycles, i))
  }

  function OnStart(s: State, i: nat, p: Proc): State
    requires i < |s.cycles|
  {
    s.(cycles := s.cycles[i := s.cycles[i].(phase := Waiting(p))], alive := s.alive + {p})
  }

  function OnWaited(s: State, i: nat, ready: bool): State
    requires i < |s.cycles| && s.cycles[i].phase.Waiting?
  {
    var p := s.cycles[i].phase.proc;
    var t := s.(cycles := s.cycles[i := s.cycles[i].(phase := Finishing)]);
    if ready then t.(proc := p, alive := s.alive - {s.proc}) else t.(alive := s.alive - {p})
  }

  function OnFinish(s: State, i: nat): State
    requires i < |s.cycles|
  {
    if s.pending.full then
      s.(pending := EMPTY, cycles := s.cycles[i := Cycle(s.pending.source, s.pending.generate, Building)])
    else s.(busy := false, cycles := Without(s.cycles, i))
  }

  function Step(s: State, e: Event): State {
    if !Enabled(s, e) then s
    else
      match e
      case Changed(c, stopped) => OnChange(s, c, stopped)
      case TimerFired(id) => OnTimer(s, id)
      case Failed(i) => OnFail(s, i)
      case Started(i, p) => OnStart(s, i, p)
      case Ready(i) => OnWaited(s, i, true)
      case NotReady(i) => OnWaited(s, i, false)
      case Finished(i) => OnFinish(s, i)
  }

  // ---------------------------------------------------------------- the code

  class DevWatcher {
    var busy: bool
    var pending: bool
    var pendingSrc: string
    var pendingGen: bool
    var debouncePending: bool
    var debounceSrc: string
    var debounceGen: bool
    var debounceID: nat
    var restartTimer: Option<nat>
    var armed: set<nat>
    var cycles: seq<Cycle>
    var proc: Proc
    var alive: set<Proc>

    function View(): State
      reads this
    {
      State(busy, Slot(pending, pendingSrc, pendingGen), Slot(debouncePending, debounceSrc, debounceGen), debounceID,
            restartTimer, armed, cycles, proc, alive)
    }

    constructor (server: Proc)
      ensures View() == Init(server)
    {
      busy, pending, pendingSrc, pendingGen := false, false, "", false;
      debouncePending, debounceSrc, debounceGen, debounceID := false, "", false, 0;
      restartTimer, armed, cycles, proc, alive := None, {}, [], server, {server};
    }

    /** scheduleChange while no cycle runs: collect the change and restart the timer. */
    method Debounce(changed: string, needGenerate: bool, stopped: bool)
      requires !busy
      modifies `debounceSrc, `debouncePending, `debounceGen, `debounceID, `restartTimer, `armed
      ensures View() == OnChange(old(View()), Change(changed, needGenerate), stopped)
    {
      var left := armed;
      if restartTimer.Some? && stopped {
        left := armed - {restartTimer.value};
      }
      debounceSrc := MergeSource(debounceSrc, changed, debouncePending);
      debouncePending := true;
      debounceGen := debounceGen || needGenerate;
      var timerID := debounceID + 1;
      debounceID := timerID;
      restartTimer := Some(timerID);
      armed := left + {timerID};
    }

    method ScheduleChange(changed: string, needGenerate: bool, stopped: bool)
      modifies this
      ensures View() == OnChange(old(View()), Change(changed, needGenerate), stopped)
    {
      if busy {
        pendingSrc := MergeSource(pendingSrc, changed, pending);
        pending := true;
        pendingGen := pendingGen || needGenerate;
        return;
      }
      Debounce(changed, needGenerate, stopped);
    }

    /** The callback handed to time.AfterFunc, up to where it starts the cycle. */
    method TimerCallback(timerID: nat)
      requires timerID in armed
      modifies this
      ensures View() == OnTimer(old(View()), timerID)
    {
      armed := armed - {timerID};
      if timerID != debounceID {
        return;
      }
      restartTimer := None;
      var source, generate := debounceSrc, debounceGen;
      debounceSrc := "";
      debounceGen := false;
      debouncePending := false;
      busy := true;
      cycles := cycles + [Cycle(source, generate, Building)];
    }

    /** runCycle's early returns: generate, build or start went wrong. */
    method CycleFailed(i: nat)
      requires Enabled(View(), Failed(i))
      modifies this
      ensures View() == OnFail(old(View()), i)
    {
      busy := false;
      cycles := cycles[..i] + cycles[i + 1..];
    }

    /** runCycle around waitForBuild: the old server is stopped only once the new one is up. */
    method CycleStarted(i: nat, newProc: Proc)
      requires Enabled(View(), Started(i, newProc))
      modifies this
      ensures View() == OnStart(old(View()), i, newProc)
    {
      alive := alive + {newProc};
      cycles := cycles[i := cycles[i].(phase := Waiting(newProc))];
    }

    method CycleWaited(i: nat, ready: bool)
      requires Enabled(View(), Ready(i))
      modifies this
      ensures View() == OnWaited(old(View()), i, ready)
    {
      var newProc := cycles[i].phase.proc;
      if ready {
        var oldProc := proc;
        proc := newProc;
        alive := alive - {oldProc};
      } else {
        alive := alive - {newProc};
      }
      cycles := cycles[i := cycles[i].(phase := Finishing)];
    }

    /** The locked block at the end of runCycle. */
    method CycleFinished(i: nat)
      requires Enabled(View(), Finished(i))
      modifies this
      ensures View() == OnFinish(old(View()), i)
    {
      if pending {
        var nextSrc, nextGen := pendingSrc, pendingGen;
        pending := false;
        pendingSrc := "";
        pendingGen := false;
        cycles := cycles[i := Cycle(nextSrc, nextGen, Building)];
        return;
      }
      busy := false;
      cycles := cycles[..i] + cycles[i + 1..];
    }
  }

  // ------------------------------------------------- where every change goes

  /** An accepted change with its arrival number. */
  datatype Item = Item(number: nat, change: Change)

  /** A batch handed to a cycle that began when `before` changes had been accepted. */
  datatype Handed = Handed(batch: seq<Item>, slot: Slot, before: nat)

  /** Bookkeeping beside a run: the accepted changes, those collected by the debounce and by
      the pending batch, and what cycles were given. */
  datatype Ledger = Ledger(accepted: seq<Item>, debounce: seq<Item>, waiting: seq<Item>, handed: seq<Handed>)

  datatype World = World(s: State, l: Ledger)

  function HandOver(l: Ledger, batch: seq<Item>, slot: Slot): Ledger {
    l.(handed := l.handed + [Handed(batch, slot, |l.accepted|)])
  }

  function Book(s: State, l: Ledger, e: Event): Ledger {
    if !Enabled(s, e) then l
    else
      match e
      case Changed(c, _) =>
        var item := Item(|l.accepted|, c);
        var m := l.(accepted := l.accepted + [item]);
        if s.busy then m.(waiting := l.waiting + [item]) else m.(debounce := l.debounce + [item])
      case TimerFired(id) =>
        if id != s.debounceID then l else HandOver(l, l.debounce, s.debounce).(debounce := [])
      case Finished(_) =>
        if s.pending.full then HandOver(l, l.waiting, s.pending).(waiting := []) else l
      case _ => l
  }

  function StepWorld(w: World, e: Event): World {
    World(Step(w.s, e), Book(w.s, w.l, e))
  }

  function RunFrom(w: World, es: seq<Event>): World
    decreases |es|
  {
    if es == [] then w else RunFrom(StepWorld(w, es[0]), es[1..])
  }

  function Run(proc: Proc, es: seq<Event>): World {
    RunFrom(World(Init(proc), Ledger([], [], [], [])), es)
  }

  /** The source a batch of changes is rebuilt for. */
  function MergeAll(batch: seq<Item>): string {
    if batch == [] then ""
    else MergeSource(MergeAll(batch[..|batch| - 1]), batch[|batch| - 1].change.source, |batch| > 1)
  }

  predicate AnyGenerate(batch: seq<Item>) {
    exists x :: x in batch && x.change.generate
  }

  /** The slot sums up the batch: named by MergeAll, generating iff one of its changes does. */
  predicate Summary(batch: seq<Item>, slot: Slot) {
    slot == Slot(batch != [], MergeAll(batch), AnyGenerate(batch))
  }

  function HandedOut(hs: seq<Handed>): multiset<Item> {
    if hs == [] then multiset{} else HandedOut(hs[..|hs| - 1]) + multiset(hs[|hs| - 1].batch)
  }

  predicate OneCycle(s: State) {
    (s.busy <==> |s.cycles| == 1) && |s.cycles| <= 1
  }

  predicate DebounceIsLive(s: State) {
    (s.debounce.full ==> s.debounceID in s.armed && !s.busy) &&
    (!s.debounce.full ==> s.debounceID !in s.armed) &&
    forall id :: id in s.armed ==> id <= s.debounceID
  }

  predicate ServerKept(s: State) {
    s.proc in s.alive &&
    s.alive == {s.proc} + (if |s.cycles| == 1 && s.cycles[0].phase.Waiting? then {s.cycles[0].phase.proc} else {}) &&
    (|s.cycles| == 1 && s.cycles[0].phase.Waiting? ==> s.cycles[0].phase.proc != s.proc)
  }

  /** Arrival numbers tell the accepted changes apart, and each accepted change is in exactly
      one of the batches, exactly once. */
  predicate NothingLost(l: Ledger) {
    (forall i :: 0 <= i < |l.accepted| ==> l.accepted[i].number == i) &&
    multiset(l.debounce) + multiset(l.waiting) + HandedOut(l.handed) == multiset(l.accepted)
  }

  predicate BatchesSummed(s: State, l: Ledger) {
    Summary(l.debounce, s.debounce) && Summary(l.waiting, s.pending)
  }

  /** A handed batch is not empty, is summed up by what its cycle was given, and holds only
      changes accepted before that cycle began. */
  predicate HandedSummed(h: Handed) {
    h.batch != [] && Summary(h.batch, h.slot) && forall x :: x in h.batch ==> x.number < h.before
  }

  predicate Controlled(s: State) {
    OneCycle(s) && DebounceIsLive(s) && ServerKept(s)
  }

  predicate Booked(s: State, l: Ledger) {
    NothingLost(l) && BatchesSummed(s, l) && forall h :: h in l.handed ==> HandedSummed(h)
  }

  predicate Safe(w: World) {
    Controlled(w.s) && Booked(w.s, w.l)
  }

  lemma SummaryGrows(batch: seq<Item>, slot: Slot, x: Item)
    requires Summary(batch, slot)
    ensures Summary(batch + [x], Collect(slot, x.change))
  {
    var b := batch + [x];
    assert b[..|b| - 1] == batch;
    assert forall y :: y in b <==> y in batch || y == x;
  }

  /** A batch cut from the accepted changes holds only numbers below their count. */
  lemma BatchNumbers(l: Ledger, batch: seq<Item>)
    requires NothingLost(l) && (batch == l.debounce || batch == l.waiting)
    ensures forall x :: x in batch ==> x.number < |l.accepted|
  {
    forall x | x in batch ensures x.number < |l.accepted| {
      assert x in multiset(batch);
      assert x in multiset(l.accepted);
    }
  }

  lemma HandOverKeeps(l: Ledger, batch: seq<Item>, slot: Slot)
    requires NothingLost(l) && (batch == l.debounce || batch == l.waiting)
    requires batch != [] && Summary(batch, slot)
    ensures HandedSummed(Handed(batch, slot, |l.accepted|))
    ensures HandedOut(HandOver(l, batch, slot).handed) == HandedOut(l.handed) + multiset(batch)
  {
    BatchNumbers(l, batch);
    var h := Handed(batch, slot, |l.accepted|);
    assert (l.handed + [h])[..|l.handed|] == l.handed;
  }

  lemma StepKeepsControl(s: State, e: Event)
    requires Controlled(s)
    ensures Controlled(Step(s, e))
  {
  }

  lemma QueuedKeepsBooks(s: State, l: Ledger, c: Change, stopped: bool)
    requires Booked(s, l) && s.busy
    ensures Booked(OnChange(s, c, stopped), Book(s, l, Changed(c, stopped)))
  {
    var x := Item(|l.accepted|, c);
    SummaryGrows(l.waiting, s.pending, x);
    assert multiset(l.accepted + [x]) == multiset(l.accepted) + multiset{x};
    assert multiset(l.waiting + [x]) == multiset(l.waiting) + multiset{x};
  }

  lemma DebouncedKeepsBooks(s: State, l: Ledger, c: Change, stopped: bool)
    requires Booked(s, l) && !s.busy
    ensures Booked(OnChange(s, c, stopped), Book(s, l, Changed(c, stopped)))
  {
    var x := Item(|l.accepted|, c);
    SummaryGrows(l.debounce, s.debounce, x);
    assert multiset(l.accepted + [x]) == multiset(l.accepted) + multiset{x};
    assert multiset(l.debounce + [x]) == multiset(l.debounce) + multiset{x};
  }

  lemma TimerKeepsBooks(s: State, l: Ledger, id: nat)
    requires Booked(s, l) && DebounceIsLive(s) && id in s.armed
    ensures Booked(OnTimer(s, id), Book(s, l, TimerFired(id)))
  {
    if id == s.debounceID {
      HandOverKeeps(l, l.debounce, s.debounce);
    }
  }

  lemma FinishKeepsBooks(s: State, l: Ledger, i: nat)
    requires Booked(s, l) && Enabled(s, Finished(i))
    ensures Booked(OnFinish(s, i), Book(s, l, Finished(i)))
  {
    if s.pending.full {
      HandOverKeeps(l, l.waiting, s.pending);
    }
  }

  lemma OtherStepsKeepBooks(s: State, l: Ledger, e: Event)
    requires Booked(s, l) && !e.Changed? && !e.TimerFired? && !e.Finished?
    ensures Booked(Step(s, e), l) && Book(s, l, e) == l
  {
  }

  lemma StepKeepsBooks(s: State, l: Ledger, e: Event)
    requires Controlled(s) && Booked(s, l) && Enabled(s, e)
    ensures Booked(Step(s, e), Book(s, l, e))
  {
    match e
    case Changed(c, stopped) => if s.busy { QueuedKeepsBooks(s, l, c, stopped); } else { DebouncedKeepsBooks(s, l, c, stopped); }
    case TimerFired(id) => TimerKeepsBooks(s, l, id);
    case Finished(i) => FinishKeepsBooks(s, l, i);
    case _ => OtherStepsKeepBooks(s, l, e);
  }

  lemma StepKeepsSafe(w: World, e: Event)
    requires Safe(w)
    ensures Safe(StepWorld(w, e))
  {
    StepKeepsControl(w.s, e);
    if Enabled(w.s, e) {
      StepKeepsBooks(w.s, w.l, e);
    }
  }

  lemma {:induction false} RunKeepsSafe(w: World, es: seq<Event>)
    requires Safe(w)
    ensures Safe(RunFrom(w, es))
    decreases |es|
  {
    if es != [] {
      StepKeepsSafe(w, es[0]);
      RunKeepsSafe(StepWorld(w, es[0]), es[1..]);
    }
  }

  /** Over every interleaving: one cycle at most, a live timer for every debounce batch, a
      server that is always up, and no change lost, doubled or mis-summed. */
  lemma EveryRunIsSafe(proc: Proc, es: seq<Event>)
    ensures Safe(Run(proc, es))
  {
    RunKeepsSafe(World(Init(proc), Ledger([], [], [], [])), es);
  }

  predicate Static(x: Item) {
    IsStaticAsset(x.change.source)
  }

  /** The change a batch is named after: the last static asset, or the last change when
      there is none. */
  predicate Names(batch: seq<Item>, k: int) {
    0 <= k < |batch| &&
    if exists x :: x in batch && Static(x) then Static(batch[k]) && forall j :: k < j < |batch| ==> !Static(batch[j])
    else k == |batch| - 1
  }

  lemma {:induction false} MergeAllMeaning(batch: seq<Item>) returns (k: nat)
    requires batch != []
    ensures Names(batch, k) && MergeAll(batch) == batch[k].change.source
  {
    var n := |batch| - 1;
    k := n;
    if n > 0 {
      var front := batch[..n];
      assert forall x :: x in batch <==> x in front || x == batch[n];
      var before := MergeAllMeaning(front);
      if !Static(batch[n]) && Static(batch[before]) {
        k := before;
        assert batch[before] in batch;
      } else {
        assert Static(batch[n]) || !Static(front[before]);
      }
    }
  }

  /** A queued batch that no cycle will pick up: nothing is running. */
  predicate Stranded(s: State) {
    s.pending.full && !s.busy
  }

  /** A step strands a batch exactly when it is a failure with a batch queued, and a stranded
      batch gets moving again exactly when the next timer starts a cycle. */
  lemma StrandedExactlyByFailure(s: State, e: Event)
    requires Controlled(s) && Enabled(s, e)
    ensures !Stranded(s) ==> (Stranded(Step(s, e)) <==> e.Failed? && s.pending.full)
    ensures Stranded(s) ==> Step(s, e).pending == s.pending
    ensures Stranded(s) ==> (!Stranded(Step(s, e)) <==> e == TimerFired(s.debounceID))
  {
    hide IsStaticAsset, MergeSource;
  }

  /** In every run: once no timer is armed and nothing is running, every accepted change has been
      handed to a cycle exactly when no batch is stranded. */
  lemma IdleIsDoneIffNotStranded(proc: Proc, es: seq<Event>)
    ensures var w := Run(proc, es);
            w.s.armed == {} && w.s.cycles == [] ==> (HandedOut(w.l.handed) == multiset(w.l.accepted) <==> !Stranded(w.s))
  {
    EveryRunIsSafe(proc, es);
    var w := Run(proc, es);
    hide Run, MergeAll, HandedOut;
    if w.s.armed == {} && w.s.cycles == [] {
      assert w.l.debounce == [] && (w.l.waiting == [] <==> !Stranded(w.s));
      assert w.l.waiting != [] ==> w.l.waiting[0] in multiset(w.l.waiting);
    }
  }

  /** "Never dropped" is all that holds: after a failed cycle a queued change can sit in the
      pending batch with no cycle running and no timer set. */
  lemma QueuedChangeCanStrand(proc: Proc, a: Change, b: Change)
    ensures var w := Run(proc, [Changed(a, true), TimerFired(1), Changed(b, true), Failed(0)]);
            w.l.waiting == [Item(1, b)] && !w.s.busy && w.s.cycles == [] && w.s.armed == {}
  {
    var es := [Changed(a, true), TimerFired(1), Changed(b, true), Failed(0)];
    var w0 := World(Init(proc), Ledger([], [], [], []));
    var w1 := StepWorld(w0, es[0]);
    assert w1.s.armed == {1} && w1.s.debounceID == 1;
    var w2 := StepWorld(w1, es[1]);
    assert w2.s.busy && w2.s.armed == {} && |w2.s.cycles| == 1 && w2.s.cycles[0].phase == Building;
    var w3 := StepWorld(w2, es[2]);
    var w4 := StepWorld(w3, es[3]);
    assert w4.s.cycles == [];
    assert RunFrom(w0, es) == RunFrom(w1, es[1..]) == RunFrom(w2, es[1..][1..]) == RunFrom(w3, es[1..][1..][1..]);
    assert RunFrom(w3, es[1..][1..][1..]) == w4;
  }
}
