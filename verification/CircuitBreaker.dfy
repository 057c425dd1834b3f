/** The circuit breaker in front of a proxy (proxyCircuitBreaker in pkg/runtime/proxy.go).
    Time is in seconds and passed in; None stands for Go's zero time. */
module CircuitBreaker {
  import opened GoStrings

  datatype Breaker = Breaker(threshold: int, window: real, openFor: real,
                             failures: nat, resetAt: Option<real>, openUntil: Option<real>)

  /** newProxyCircuitBreaker; a threshold that is not positive gives nil, a breaker that
      never refuses. */
  function New(threshold: int, window: real, openFor: real): Breaker
    requires threshold > 0
  {
    Breaker(threshold, if window <= 0.0 then 60.0 else window, if openFor <= 0.0 then 15.0 else openFor, 0, None, None)
  }

  /** The failure count starts over: it never began, or it began more than a window ago. */
  predicate Stale(b: Breaker, now: real) {
    b.resetAt.None? || now - b.resetAt.value > b.window
  }

  function Restarted(b: Breaker, now: real): Breaker {
    if Stale(b, now) then b.(failures := 0, resetAt := Some(now)) else b
  }

  predicate Refuses(b: Breaker, now: real) {
    b.openUntil.Some? && now < b.openUntil.value
  }

  function OnAllow(b: Breaker, now: real): Breaker {
    if Refuses(b, now) then b else Restarted(b.(openUntil := None), now)
  }

  function OnSuccess(b: Breaker, now: real): Breaker {
    b.(failures := 0, resetAt := Some(now), openUntil := None)
  }

  function OnFailure(b: Breaker, now: real): Breaker {
    var r := Restarted(b, now);
    var n := r.failures + 1;
    r.(failures := n, openUntil := if n >= b.threshold then Some(now + b.openFor) else b.openUntil)
  }

  class ProxyCircuitBreaker {
    const threshold: int
    const window: real
    const openFor: real
    var failures: nat
    var resetAt: Option<real>
    var openUntil: Option<real>

    function View(): Breaker
      reads this
    {
      Breaker(threshold, window, openFor, failures, resetAt, openUntil)
    }

    constructor (limit: int, span: real, pause: real)
      requires limit > 0
      ensures View() == New(limit, span, pause)
      ensures threshold == limit && window == (if span > 0.0 then span else 60.0) && openFor == (if pause > 0.0 then pause else 15.0)
      ensures failures == 0 && resetAt == None && openUntil == None
    {
      threshold := limit;
      window := if span <= 0.0 then 60.0 else span;
      openFor := if pause <= 0.0 then 15.0 else pause;
      failures, resetAt, openUntil := 0, None, None;
    }

    method Allow(now: real) returns (ok: bool)
      modifies this
      ensures ok == !Refuses(old(View()), now) && View() == OnAllow(old(View()), now)
    {
      if openUntil.Some? {
        if now < openUntil.value {
          return false;
        }
        openUntil := None;
      }
      if resetAt.None? || now - resetAt.value > window {
        failures := 0;
        resetAt := Some(now);
      }
      return true;
    }

    method RecordSuccess(now: real)
      modifies this
      ensures View() == OnSuccess(old(View()), now)
    {
      failures := 0;
      resetAt := Some(now);
      openUntil := None;
    }

    method RecordFailure(now: real)
      modifies this
      ensures View() == OnFailure(old(View()), now)
    {
      if resetAt.None? || now - resetAt.value > window {
        failures := 0;
        resetAt := Some(now);
      }
      failures := failures + 1;
      if failures >= threshold {
        openUntil := Some(now + openFor);
      }
    }
  }

  // ---------------------------------------------------------------- whole runs

  datatype Kind = Allow | Success | Failure

  datatype Event = Event(kind: Kind, at: real)

  function Step(b: Breaker, e: Event): Breaker {
    match e.kind
    case Allow => OnAllow(b, e.at)
    case Success => OnSuccess(b, e.at)
    case Failure => OnFailure(b, e.at)
  }

  /** The breaker after the first k events. */
  function State(b: Breaker, es: seq<Event>, k: nat): Breaker
    requires k <= |es|
  {
    if k == 0 then b else Step(State(b, es, k - 1), es[k - 1])
  }

  predicate Ordered(es: seq<Event>) {
    forall i, j :: 0 <= i <= j < |es| ==> es[i].at <= es[j].at
  }

  /** A breaker as New makes it. */
  predicate Fresh(b: Breaker) {
    b.threshold > 0 && b.window > 0.0 && b.openFor > 0.0 && b.failures == 0 && b.resetAt == None && b.openUntil == None
  }

  /** Event i is a failure that trips the breaker. */
  predicate Trips(b: Breaker, es: seq<Event>, i: int) {
    0 <= i < |es| && es[i].kind == Failure && Restarted(State(b, es, i), es[i].at).failures + 1 >= b.threshold
  }

  predicate NoSuccess(es: seq<Event>, i: int, k: int)
    requires 0 <= i && k <= |es|
  {
    forall j :: i <= j < k ==> es[j].kind != Success
  }

  function Failures(es: seq<Event>, i: nat, k: nat): nat
    requires i <= k <= |es|
    decreases k - i
  {
    if i == k then 0 else Failures(es, i, k - 1) + if es[k - 1].kind == Failure then 1 else 0
  }

  lemma {:induction false} SettingsKept(b: Breaker, es: seq<Event>, k: nat)
    requires k <= |es|
    ensures var s := State(b, es, k); s.threshold == b.threshold && s.window == b.window && s.openFor == b.openFor
  {
    if k > 0 { SettingsKept(b, es, k - 1); }
  }

  /** Since event `mark` nothing but failures has been counted, with no success in between
      and nothing earlier than resetAt. */
  predicate CountedSince(b: Breaker, es: seq<Event>, k: nat, mark: nat)
    requires mark <= k <= |es|
  {
    var s := State(b, es, k);
    s.failures == Failures(es, mark, k) && NoSuccess(es, mark, k) &&
    (s.resetAt.None? ==> k == 0) &&
    (s.resetAt.Some? ==> (forall j :: mark <= j < k ==> s.resetAt.value <= es[j].at) && (k > 0 ==> s.resetAt.value <= es[k - 1].at))
  }

  lemma {:induction false} FailuresAreCounted(b: Breaker, es: seq<Event>, k: nat) returns (mark: nat)
    requires Fresh(b) && Ordered(es) && k <= |es|
    ensures mark <= k && CountedSince(b, es, k, mark)
  {
    mark := 0;
    if k > 0 {
      var e, s := es[k - 1], State(b, es, k - 1);
      mark := FailuresAreCounted(b, es, k - 1);
      match e.kind {
        case Success => mark := k;
        case Allow => if !Refuses(s, e.at) && Stale(s, e.at) { mark := k; }
        case Failure => if Stale(s, e.at) { mark := k - 1; }
      }
    }
  }

  /** Whenever a failure at time t trips the breaker, at least `threshold` failures were
      recorded within [t - window, t] with no success since the first of them. */
  lemma TripsOnlyOnRecentFailures(b: Breaker, es: seq<Event>, k: nat) returns (first: nat)
    requires Fresh(b) && Ordered(es) && Trips(b, es, k)
    ensures first <= k && NoSuccess(es, first, k + 1) && Failures(es, first, k + 1) >= b.threshold
    ensures forall j :: first <= j <= k ==> es[k].at - b.window <= es[j].at <= es[k].at
  {
    first := FailuresAreCounted(b, es, k);
    SettingsKept(b, es, k);
    if Stale(State(b, es, k), es[k].at) {
      first := k;
    }
  }

  /** Event i tripped the breaker, and no success has closed it before event k. */
  predicate TrippedSince(b: Breaker, es: seq<Event>, i: int, k: nat)
    requires k <= |es|
  {
    0 <= i < k && Trips(b, es, i) && NoSuccess(es, i + 1, k)
  }

  /** An open breaker was tripped by some failure, openFor before it may reopen. */
  lemma {:induction false} OpenBecauseTripped(b: Breaker, es: seq<Event>, k: nat) returns (i: int)
    requires Fresh(b) && k <= |es|
    ensures State(b, es, k).openUntil.Some? ==>
              TrippedSince(b, es, i, k) && State(b, es, k).openUntil.value == es[i].at + b.openFor
  {
    i := -1;
    if k > 0 {
      i := OpenBecauseTripped(b, es, k - 1);
      SettingsKept(b, es, k - 1);
      if Trips(b, es, k - 1) { i := k - 1; }
    }
  }

  /** Once tripped at event i, and with no success since, the breaker cannot be closed before
      openFor is over, and later failures only push the reopening back. */
  lemma {:induction false} StaysOpen(b: Breaker, es: seq<Event>, i: nat, k: nat)
    requires Fresh(b) && Ordered(es) && k <= |es| && TrippedSince(b, es, i, k)
    requires forall j :: i < j < k ==> es[j].at < es[i].at + b.openFor
    ensures State(b, es, k).openUntil.Some? && State(b, es, k).openUntil.value >= es[i].at + b.openFor
  {
    SettingsKept(b, es, k - 1);
    if k > i + 1 {
      StaysOpen(b, es, i, k - 1);
      assert es[k - 1].kind != Success && es[i].at <= es[k - 1].at;
    }
  }

  // ---------------------------------------------------------------- the same, read off the events

  /** The event that began the counting window in force after the first n events, or -1: a success
      always begins one; a failure, or a request that is let through, begins one when there is none
      or the present one began more than a window ago. */
  function WindowStart(b: Breaker, es: seq<Event>, n: nat): (start: int)
    requires n <= |es|
    ensures -1 <= start < n
    decreases n, 0
  {
    if n == 0 then -1
    else
      var e, before := es[n - 1], WindowStart(b, es, n - 1);
      if e.kind == Success then n - 1
      else if before >= 0 && e.at - es[before].at <= b.window then before
      else if e.kind == Allow && OpenAt(b, es, n - 1) then before
      else n - 1
  }

  /** Event i is a failure, and with it at least threshold failures lie in its window. */
  predicate Opens(b: Breaker, es: seq<Event>, i: nat)
    requires i < |es|
    decreases i + 1, 1
  {
    es[i].kind == Failure && WindowStart(b, es, i + 1) >= 0 && Failures(es, WindowStart(b, es, i + 1), i + 1) >= b.threshold
  }

  /** Some such failure lies less than openFor before event k, with no success in between. */
  predicate OpenAt(b: Breaker, es: seq<Event>, k: nat)
    requires k < |es|
    decreases k, 2
  {
    exists i :: 0 <= i < k && Opens(b, es, i) && NoSuccess(es, i + 1, k) && es[k].at < es[i].at + b.openFor
  }

  /** What the breaker remembers is what the events say. */
  predicate Remembers(b: Breaker, es: seq<Event>, k: nat)
    requires k <= |es|
  {
    var s, start := State(b, es, k), WindowStart(b, es, k);
    s.resetAt == (if start < 0 then None else Some(es[start].at)) &&
    s.failures == if start < 0 then 0 else Failures(es, start, k)
  }

  /** Over every run with a forward clock: the counter is the failures since the window's start,
      a failure trips the breaker exactly when at least threshold failures lie since then, and a
      request is refused exactly when such a failure is less than openFor old with no success
      since. */
  lemma {:induction false} EventsDecide(b: Breaker, es: seq<Event>, k: nat)
    requires Fresh(b) && Ordered(es) && k <= |es|
    ensures Remembers(b, es, k)
    ensures k < |es| ==> (Trips(b, es, k) <==> Opens(b, es, k)) && (Refuses(State(b, es, k), es[k].at) <==> OpenAt(b, es, k))
  {
    forall i | 0 <= i < k ensures Trips(b, es, i) <==> Opens(b, es, i) { EventsDecide(b, es, i); }
    if k > 0 {
      EventsDecide(b, es, k - 1);
      RemembersNext(b, es, k - 1);
    }
    if k < |es| {
      RefusedAsTold(b, es, k);
      TripsAsTold(b, es, k);
    }
  }

  lemma FailuresNext(es: seq<Event>, i: nat, k: nat)
    requires i <= k < |es|
    ensures Failures(es, i, k + 1) == Failures(es, i, k) + if es[k].kind == Failure then 1 else 0
    ensures Failures(es, k, k) == 0
  {
  }

  lemma RemembersNext(b: Breaker, es: seq<Event>, k: nat)
    requires Fresh(b) && k < |es| && Remembers(b, es, k)
    requires Refuses(State(b, es, k), es[k].at) <==> OpenAt(b, es, k)
    ensures Remembers(b, es, k + 1)
  {
    hide OpenAt, Opens, Refuses, Failures;
    SettingsKept(b, es, k);
    var before, start := WindowStart(b, es, k), WindowStart(b, es, k + 1);
    FailuresNext(es, k, k);
    if before >= 0 { FailuresNext(es, before, k); }
    assert State(b, es, k + 1) == Step(State(b, es, k), es[k]);
    assert start == before || start == k;
  }

  lemma TripsAsTold(b: Breaker, es: seq<Event>, k: nat)
    requires Fresh(b) && k < |es| && Remembers(b, es, k)
    ensures Trips(b, es, k) <==> Opens(b, es, k)
  {
    hide OpenAt, Failures;
    SettingsKept(b, es, k);
    var before, start := WindowStart(b, es, k), WindowStart(b, es, k + 1);
    FailuresNext(es, k, k);
    if before >= 0 { FailuresNext(es, before, k); }
    assert start == before || start == k;
  }

  lemma RefusedAsTold(b: Breaker, es: seq<Event>, k: nat)
    requires Fresh(b) && Ordered(es) && k < |es|
    requires forall i :: 0 <= i < k ==> (Trips(b, es, i) <==> Opens(b, es, i))
    ensures Refuses(State(b, es, k), es[k].at) <==> OpenAt(b, es, k)
  {
    hide Opens, Trips, WindowStart;
    RefusedWhileTripped(b, es, k);
    if i :| TrippedSince(b, es, i, k) && es[k].at < es[i].at + b.openFor { assert Opens(b, es, i); }
    if i :| 0 <= i < k && Opens(b, es, i) && NoSuccess(es, i + 1, k) && es[k].at < es[i].at + b.openFor {
      assert TrippedSince(b, es, i, k);
    }
  }

  lemma RefusedWhileTripped(b: Breaker, es: seq<Event>, k: nat)
    requires Fresh(b) && Ordered(es) && k < |es|
    ensures Refuses(State(b, es, k), es[k].at) <==>
            exists i :: TrippedSince(b, es, i, k) && es[k].at < es[i].at + b.openFor
  {
    if Refuses(State(b, es, k), es[k].at) {
      var i := OpenBecauseTripped(b, es, k);
      assert TrippedSince(b, es, i, k);
    }
    if i :| TrippedSince(b, es, i, k) && es[k].at < es[i].at + b.openFor {
      assert forall j :: i < j < k ==> es[j].at <= es[k].at;
      StaysOpen(b, es, i, k);
    }
  }

  /** A failure trips the breaker exactly when at least threshold failures lie since the start of
      its window, and a window starts as WindowStart says. */
  lemma TripsExactly(b: Breaker, es: seq<Event>, k: nat)
    requires Fresh(b) && Ordered(es) && k < |es|
    ensures Trips(b, es, k) <==> Opens(b, es, k)
  {
    EventsDecide(b, es, k);
  }

  /** A request is refused exactly when an opening failure lies less than openFor before it and no
      success came in between. */
  lemma RefusesExactlyWhileTripped(b: Breaker, es: seq<Event>, k: nat)
    requires Fresh(b) && Ordered(es) && k < |es|
    ensures Refuses(State(b, es, k), es[k].at) <==> OpenAt(b, es, k)
  {
    EventsDecide(b, es, k);
  }

  // ---------------------------------------------------------------- how far the window is from sliding

  /** A stretch no longer than the window, without a success or a trip, falls into two windows at
      most. */
  lemma {:induction false} TwoWindowsAtMost(b: Breaker, es: seq<Event>, i: nat, n: nat)
    requires Fresh(b) && Ordered(es) && i < n <= |es| && NoSuccess(es, i, n) && es[n - 1].at - es[i].at <= b.window
    requires forall j :: i <= j < n ==> !Trips(b, es, j)
    ensures var s, f := State(b, es, n), Failures(es, i, n);
            || (f <= s.failures && (f > 0 ==> s.failures < b.threshold))
            || (s.resetAt.Some? && es[i].at <= s.resetAt.value && s.failures < b.threshold && f < b.threshold + s.failures)
    decreases n
  {
    SettingsKept(b, es, n - 1);
    assert !Trips(b, es, n - 1);
    if n > i + 1 {
      assert es[n - 2].at <= es[n - 1].at;
      TwoWindowsAtMost(b, es, i, n - 1);
    }
  }

  /** Twice the threshold less one always suffices: that many failures in a stretch no longer than
      the window, without a success, hold one that opens the breaker. */
  lemma TwiceThresholdTrips(b: Breaker, es: seq<Event>, i: nat, n: nat) returns (j: nat)
    requires Fresh(b) && Ordered(es) && i < n <= |es| && NoSuccess(es, i, n) && es[n - 1].at - es[i].at <= b.window
    requires Failures(es, i, n) >= 2 * b.threshold - 1
    ensures i <= j < n && Trips(b, es, j) && Opens(b, es, j)
  {
    if forall m :: i <= m < n ==> !Trips(b, es, m) { TwoWindowsAtMost(b, es, i, n); }
    j :| i <= j < n && Trips(b, es, j);
    TripsExactly(b, es, j);
  }

  /** A request that is let through, threshold - 1 failures as its window ends, and as many again
      half a window later. */
  predicate StraddlingRun(b: Breaker, es: seq<Event>) {
    |es| == 2 * b.threshold - 1 &&
    es[0] == Event(Allow, 0.0) &&
    (forall j :: 1 <= j < b.threshold ==> es[j] == Event(Failure, b.window)) &&
    forall j :: b.threshold <= j < |es| ==> es[j] == Event(Failure, 1.5 * b.window)
  }

  lemma {:induction false} StraddlingState(b: Breaker, es: seq<Event>, k: nat)
    requires Fresh(b) && b.threshold >= 2 && StraddlingRun(b, es) && k <= |es|
    ensures State(b, es, k) ==
            if k == 0 then b
            else if k <= b.threshold then b.(failures := k - 1, resetAt := Some(0.0))
            else b.(failures := k - b.threshold, resetAt := Some(1.5 * b.window))
  {
    if k > 0 { StraddlingState(b, es, k - 1); }
  }

  lemma {:induction false} AllFailures(es: seq<Event>, i: nat, n: nat)
    requires i <= n <= |es| && forall j :: i <= j < n ==> es[j].kind == Failure
    ensures Failures(es, i, n) == n - i
    decreases n
  {
    if i < n { AllFailures(es, i, n - 1); }
  }

  /** One failure fewer does not suffice, for any threshold above one: there is a run with
      2 * threshold - 2 failures within half a window and no success, in which none opens the
      breaker. (The window's start stands still: here a request began it.) */
  lemma WindowDoesNotSlide(b: Breaker) returns (es: seq<Event>)
    requires Fresh(b) && b.threshold >= 2
    ensures Ordered(es) && |es| > 1 && NoSuccess(es, 0, |es|) && es[|es| - 1].at - es[1].at < b.window
    ensures Failures(es, 1, |es|) == 2 * b.threshold - 2
    ensures forall j :: 0 <= j < |es| ==> !Trips(b, es, j)
    ensures State(b, es, |es|).openUntil == None
  {
    es := seq(2 * b.threshold - 1, j =>
      if j == 0 then Event(Allow, 0.0) else Event(Failure, if j < b.threshold then b.window else 1.5 * b.window));
    AllFailures(es, 1, |es|);
    StraddlingState(b, es, |es|);
    forall j | 0 <= j < |es| ensures !Trips(b, es, j) { StraddlingState(b, es, j); }
  }
}
