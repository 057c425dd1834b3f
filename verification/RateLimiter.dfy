/** The token bucket in front of a proxy (proxyRateLimiter in pkg/runtime/proxy.go). Time
    is in seconds and passed in; it never runs backwards. */
module RateLimiter {
  datatype Bucket = Bucket(limit: real, burst: real, tokens: real, last: real)

  /** What newProxyRateLimiter builds; it returns nil, a limiter that admits everything,
      for a rate that is not positive. */
  function New(requestsPerSecond: int, burst: int, now: real): Bucket
    requires requestsPerSecond > 0
  {
    var b := if burst <= 0 then requestsPerSecond else burst;
    Bucket(requestsPerSecond as real, b as real, b as real, now)
  }

  /** What drips in between two instants. */
  function Drip(limit: real, from: real, to: real): real {
    (to - from) * limit
  }

  lemma DripAdds(limit: real, a: real, b: real, c: real)
    ensures Drip(limit, a, b) + Drip(limit, b, c) == Drip(limit, a, c)
    ensures Drip(limit, a, a) == 0.0
    ensures limit > 0.0 && a <= b ==> Drip(limit, a, b) >= 0.0
  {
  }

  /** The tokens in the bucket at `now`, before the request takes one. */
  function Refilled(b: Bucket, now: real): real {
    var tokens := b.tokens + Drip(b.limit, b.last, now);
    if tokens > b.burst then b.burst else tokens
  }

  predicate Admits(b: Bucket, now: real) {
    Refilled(b, now) >= 1.0
  }

  function After(b: Bucket, now: real): Bucket {
    var tokens := Refilled(b, now);
    b.(tokens := if tokens >= 1.0 then tokens - 1.0 else tokens, last := now)
  }

  class ProxyRateLimiter {
    const limit: real
    const burst: real
    var tokens: real
    var last: real

    function View(): Bucket
      reads this
    {
      Bucket(limit, burst, tokens, last)
    }

    constructor (requestsPerSecond: int, burstSize: int, now: real)
      requires requestsPerSecond > 0
      ensures View() == New(requestsPerSecond, burstSize, now)
      ensures tokens == burst == (if burstSize > 0 then burstSize else requestsPerSecond) as real
      ensures limit == requestsPerSecond as real && last == now
    {
      var b := if burstSize <= 0 then requestsPerSecond else burstSize;
      limit := requestsPerSecond as real;
      burst := b as real;
      tokens := b as real;
      last := now;
    }

    method Allow(now: real) returns (ok: bool)
      modifies this
      ensures ok == Admits(old(View()), now) && View() == After(old(View()), now)
    {
      var elapsed := now - last;
      var dripped := elapsed * limit;
      assert dripped == Drip(limit, last, now);
      hide Drip;
      last := now;
      tokens := tokens + dripped;
      if tokens > burst {
        tokens := burst;
      }
      if tokens >= 1.0 {
        tokens := tokens - 1.0;
        return true;
      }
      return false;
    }
  }

  // ---------------------------------------------------------------- whole runs

  /** Request times of a run, none before the limiter was made. */
  predicate Ordered(start: real, times: seq<real>) {
    (forall i :: 0 <= i < |times| ==> start <= times[i]) &&
    forall i, j :: 0 <= i <= j < |times| ==> times[i] <= times[j]
  }

  /** The bucket after the first k requests. */
  function State(b: Bucket, times: seq<real>, k: nat): Bucket
    requires k <= |times|
  {
    if k == 0 then b else After(State(b, times, k - 1), times[k - 1])
  }

  predicate Admitted(b: Bucket, times: seq<real>, k: nat)
    requires k < |times|
  {
    Admits(State(b, times, k), times[k])
  }

  /** How many of the requests i..k-1 were admitted. */
  function Count(b: Bucket, times: seq<real>, i: nat, k: nat): nat
    requires i <= k <= |times|
    decreases k - i
  {
    if i == k then 0 else Count(b, times, i, k - 1) + if Admitted(b, times, k - 1) then 1 else 0
  }

  /** The instant from which requests i.. are counted: the i-th request, or the start. */
  function Since(b: Bucket, times: seq<real>, i: nat): real
    requires i <= |times|
  {
    if i == 0 then b.last else times[i - 1]
  }

  /** A full bucket as New makes it. */
  predicate Fresh(b: Bucket) {
    b.limit > 0.0 && b.burst >= 1.0 && b.tokens == b.burst
  }

  lemma {:induction false} StateShape(b: Bucket, times: seq<real>, k: nat)
    requires Fresh(b) && Ordered(b.last, times) && k <= |times|
    ensures var s := State(b, times, k);
            s.limit == b.limit && s.burst == b.burst && 0.0 <= s.tokens <= s.burst && s.last == Since(b, times, k)
  {
    hide Drip;
    if k > 0 {
      StateShape(b, times, k - 1);
      var s := State(b, times, k - 1);
      assert s.last <= times[k - 1];
      DripAdds(b.limit, s.last, times[k - 1], times[k - 1]);
    }
  }

  /** Tokens left plus requests admitted since time u never exceed what the bucket held at u
      plus what has dripped in since. */
  lemma {:induction false} SpentWithinBudget(b: Bucket, times: seq<real>, i: nat, k: nat)
    requires Fresh(b) && Ordered(b.last, times) && i <= k <= |times|
    ensures Count(b, times, i, k) as real + State(b, times, k).tokens
            <= State(b, times, i).tokens + Drip(b.limit, Since(b, times, i), Since(b, times, k))
    decreases k - i
  {
    hide Drip;
    DripAdds(b.limit, Since(b, times, i), Since(b, times, i), Since(b, times, i));
    if i < k {
      SpentWithinBudget(b, times, i, k - 1);
      StateShape(b, times, k - 1);
      DripAdds(b.limit, Since(b, times, i), Since(b, times, k - 1), times[k - 1]);
    }
  }

  lemma {:induction false} CountFirst(b: Bucket, times: seq<real>, i: nat, k: nat)
    requires i < k <= |times|
    ensures Count(b, times, i, k) == (if Admitted(b, times, i) then 1 else 0) + Count(b, times, i + 1, k)
    decreases k - i
  {
    if i + 1 < k {
      CountFirst(b, times, i, k - 1);
    }
  }

  /** Upper half: between the i-th request and the k-th, both counted, at most
      burst + limit * (elapsed time) requests are admitted. */
  lemma NeverOverBudget(b: Bucket, times: seq<real>, i: nat, k: nat)
    requires Fresh(b) && Ordered(b.last, times) && i <= k < |times|
    ensures Count(b, times, i, k + 1) as real <= b.burst + Drip(b.limit, times[i], times[k])
  {
    hide Drip;
    var j, n := i + 1, k + 1;
    StateShape(b, times, i);
    StateShape(b, times, n);
    SpentWithinBudget(b, times, j, n);
    CountFirst(b, times, i, n);
    assert State(b, times, j).tokens + (if Admitted(b, times, i) then 1.0 else 0.0) <= b.burst;
  }

  /** The same, counted from the creation of the limiter. */
  lemma NeverOverBudgetFromStart(b: Bucket, times: seq<real>, k: nat)
    requires Fresh(b) && Ordered(b.last, times) && k < |times|
    ensures Count(b, times, 0, k + 1) as real <= b.burst + Drip(b.limit, b.last, times[k])
  {
    hide Drip;
    var n := k + 1;
    StateShape(b, times, n);
    SpentWithinBudget(b, times, 0, n);
  }

  /** Requests are counted from `since`: the time of request i or, for i = 0, the creation. */
  predicate CountsFrom(b: Bucket, times: seq<real>, i: int, k: nat, since: real)
    requires k < |times|
  {
    0 <= i <= k && (since == times[i] || (i == 0 && since == b.last))
  }

  /** One more admission at request k would exceed burst + limit * (time since `since`). */
  predicate OverBudget(b: Bucket, times: seq<real>, i: int, k: nat, since: real)
    requires k < |times|
  {
    CountsFrom(b, times, i, k, since) &&
    Count(b, times, i, k) as real + 1.0 > b.burst + Drip(b.limit, since, times[k])
  }

  /** Since the last moment the bucket was full, every token is accounted for exactly. */
  lemma {:induction false} FullMoment(b: Bucket, times: seq<real>, k: nat) returns (i: nat, since: real)
    requires Fresh(b) && Ordered(b.last, times) && k < |times|
    ensures CountsFrom(b, times, i, k, since)
    ensures Refilled(State(b, times, k), times[k]) + Count(b, times, i, k) as real == b.burst + Drip(b.limit, since, times[k])
  {
    hide Drip;
    var s, now := State(b, times, k), times[k];
    StateShape(b, times, k);
    DripAdds(b.limit, now, now, now);
    if s.tokens + Drip(b.limit, s.last, now) >= b.burst {
      i, since := k, now;
    } else if k == 0 {
      i, since := 0, b.last;
    } else {
      i, since := FullMoment(b, times, k - 1);
      StateShape(b, times, k - 1);
      DripAdds(b.limit, since, s.last, now);
    }
  }

  /** Exactness: request k is turned away if and only if admitting it would break the budget
      counted from the limiter's creation or from some request up to k. */
  lemma RejectsExactlyOverBudget(b: Bucket, times: seq<real>, k: nat)
    requires Fresh(b) && Ordered(b.last, times) && k < |times|
    ensures !Admitted(b, times, k) <==> exists i, since :: OverBudget(b, times, i, k, since)
  {
    hide Drip;
    if !Admitted(b, times, k) {
      var i, since := FullMoment(b, times, k);
      assert OverBudget(b, times, i, k, since);
    } else {
      forall i, since ensures !OverBudget(b, times, i, k, since) {
        if CountsFrom(b, times, i, k, since) {
          if since == times[i] { NeverOverBudget(b, times, i, k); } else { NeverOverBudgetFromStart(b, times, k); }
        }
      }
    }
  }
}
