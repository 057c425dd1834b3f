/** The sliding window behind the alerting error rate (Metrics.Record and ErrorWindow in
    pkg/runtime/metrics.go): a ring of the last 1000 outcomes refines the plain history. */
module ErrorWindows {
  const CAPACITY := 1000
  const STATUS_BAD_REQUEST := 400

  function Last<T>(h: seq<T>, n: nat): (w: seq<T>)
    ensures |w| == if |h| <= n then |h| else n
  {
    if |h| <= n then h else h[|h| - n..]
  }

  function Errors(w: seq<bool>): (n: nat)
    ensures n <= |w|
  {
    if w == [] then 0 else (if w[0] then 1 else 0) + Errors(w[1..])
  }

  lemma {:induction false} ErrorsConcat(a: seq<bool>, b: seq<bool>)
    ensures Errors(a + b) == Errors(a) + Errors(b)
  {
    if a == [] {
      assert a + b == b;
    } else {
      assert (a + b)[1..] == a[1..] + b;
      ErrorsConcat(a[1..], b);
    }
  }

  lemma {:induction false} NoErrors(w: seq<bool>)
    ensures Errors(w) == 0 <==> true !in w
  {
    if w != [] {
      NoErrors(w[1..]);
      assert forall x :: x in w <==> x == w[0] || x in w[1..];
    }
  }

  /** A ring of slots read from its oldest entry on. */
  function Reading(slots: seq<bool>, head: nat, count: nat): seq<bool>
    requires head <= |slots| && count <= |slots|
  {
    if count < |slots| then slots[..count] else slots[head..] + slots[..head]
  }

  /** Writing at the head appends; once the ring is full it also drops the oldest. */
  lemma Pushed(slots: seq<bool>, head: nat, count: nat, x: bool)
    requires head < |slots| && count <= |slots| && (count < |slots| ==> head == count)
    ensures count < |slots| ==>
              Reading(slots[head := x], (head + 1) % |slots|, count + 1) == Reading(slots, head, count) + [x]
    ensures count == |slots| ==>
              Reading(slots, head, count)[0] == slots[head] &&
              Reading(slots[head := x], (head + 1) % |slots|, count) == Reading(slots, head, count)[1..] + [x]
  {
    var after := slots[head := x];
    if head + 1 == |slots| {
      assert (head + 1) % |slots| == 0;
      assert after[0..] == after == slots[..head] + [x];
    } else {
      assert (head + 1) % |slots| == head + 1;
      assert after[head + 1..] == slots[head + 1..] && after[..head + 1] == slots[..head] + [x];
    }
    if count == |slots| {
      assert slots[head..] == [slots[head]] + slots[head + 1..];
    }
  }

  /** The ring and its counters stand for the last 1000 outcomes of a history. */
  ghost predicate Represents(slots: seq<bool>, head: nat, count: nat, errs: int, history: seq<bool>) {
    && |slots| == CAPACITY && head < CAPACITY && count <= CAPACITY && (count < CAPACITY ==> head == count)
    && Reading(slots, head, count) == Last(history, CAPACITY)
    && errs == Errors(Last(history, CAPACITY))
  }

  lemma CountIsLength(slots: seq<bool>, head: nat, count: nat, errs: int, history: seq<bool>)
    requires Represents(slots, head, count, errs, history)
    ensures count == |Last(history, CAPACITY)|
  {
  }

  lemma PushKeeps(slots: seq<bool>, head: nat, count: nat, errs: int, history: seq<bool>, failed: bool)
    requires Represents(slots, head, count, errs, history)
    ensures var gained := errs + (if failed then 1 else 0);
            var lost := if count == CAPACITY && slots[head] then 1 else 0;
            Represents(slots[head := failed], (head + 1) % CAPACITY, if count < CAPACITY then count + 1 else count,
                       gained - lost, history + [failed])
  {
    hide Reading, Errors, Last;
    CountIsLength(slots, head, count, errs, history);
    LastSnoc(history, failed);
    Appending(Last(history, CAPACITY), failed);
    Pushed(slots, head, count, failed);
  }

  class Metrics {
    var errorWindow: array?<bool>
    var errorWinHead: nat
    var errorWinCount: nat
    var errorWinErrs: int
    ghost var history: seq<bool>

    ghost predicate Valid()
      reads this, errorWindow
    {
      if errorWindow == null then errorWinHead == errorWinCount == 0 && errorWinErrs == 0 && history == []
      else Represents(errorWindow[..], errorWinHead, errorWinCount, errorWinErrs, history)
    }

    constructor ()
      ensures Valid() && history == []
    {
      errorWindow, errorWinHead, errorWinCount, errorWinErrs := null, 0, 0, 0;
      history := [];
    }

    method Record(status: int)
      requires Valid()
      modifies this, errorWindow
      ensures Valid() && history == old(history) + [status >= 400]
      ensures errorWindow == old(errorWindow) || fresh(errorWindow)
    {
      var failed := status >= STATUS_BAD_REQUEST;
      if errorWindow == null {
        errorWindow := new bool[CAPACITY](_ => false);
      }
      var ring: array<bool> := errorWindow;
      ghost var slots, head := ring[..], errorWinHead;
      assert Represents(slots, errorWinHead, errorWinCount, errorWinErrs, history);
      PushKeeps(slots, errorWinHead, errorWinCount, errorWinErrs, history, failed);
      assert ring.Length == CAPACITY && head < CAPACITY && errorWinCount <= CAPACITY;
      hide *;
      if errorWinCount < CAPACITY {
        ring[errorWinHead] := failed;
        errorWinHead := (errorWinHead + 1) % CAPACITY;
        errorWinCount := errorWinCount + 1;
        if failed {
          errorWinErrs := errorWinErrs + 1;
        }
      } else {
        var evicted := ring[errorWinHead];
        if evicted {
          errorWinErrs := errorWinErrs - 1;
        }
        ring[errorWinHead] := failed;
        errorWinHead := (errorWinHead + 1) % CAPACITY;
        if failed {
          errorWinErrs := errorWinErrs + 1;
        }
      }
      history := history + [failed];
      assert ring[..] == slots[head := failed];
      assert Represents(ring[..], errorWinHead, errorWinCount, errorWinErrs, history);
      assert Valid() by { IsValid(); }
    }

    lemma IsValid()
      requires errorWindow != null && Represents(errorWindow[..], errorWinHead, errorWinCount, errorWinErrs, history)
      ensures Valid()
    {
    }

    method ErrorWindow(size: int) returns (requests: int, rate: real)
      requires Valid()
      ensures (requests, rate) == Reported(history, size)
    {
      if size <= 0 {
        return 0, 0.0;
      }
      if errorWindow != null {
        CountIsLength(errorWindow[..], errorWinHead, errorWinCount, errorWinErrs, history);
      }
      requests := errorWinCount;
      if requests > size {
        requests := size;
      }
      if requests == 0 {
        return 0, 0.0;
      }
      return requests, errorWinErrs as real / requests as real;
    }
  }

  lemma LastSnoc(h: seq<bool>, x: bool)
    ensures var w := Last(h, CAPACITY);
            Last(h + [x], CAPACITY) == if |w| < CAPACITY then w + [x] else w[1..] + [x]
  {
  }

  lemma Appending(w: seq<bool>, failed: bool)
    ensures Errors(w + [failed]) == Errors(w) + (if failed then 1 else 0)
    ensures w != [] ==> Errors(w[1..] + [failed]) == Errors(w) - (if w[0] then 1 else 0) + (if failed then 1 else 0)
  {
    ErrorsConcat(w, [failed]);
    if w != [] { ErrorsConcat(w[1..], [failed]); }
  }

  /** What ErrorWindow answers after a history of outcomes: the failures of the whole window over
      a number of requests cut down to size. */
  function Reported(h: seq<bool>, size: int): (int, real) {
    var w := Last(h, CAPACITY);
    var requests := if |w| > size then size else |w|;
    if size <= 0 || requests == 0 then (0, 0.0) else (requests, Errors(w) as real / requests as real)
  }

  function Rate(w: seq<bool>): real {
    if w == [] then 0.0 else Errors(w) as real / |w| as real
  }

  lemma DivideApart(a: nat, b: nat, n: nat)
    requires n > 0
    ensures a as real / n as real == b as real / n as real <==> a == b
    ensures 0.0 <= a as real / n as real
    ensures a <= n <==> a as real / n as real <= 1.0
  {
    var x, y := a as real / n as real, b as real / n as real;
    assert x * n as real == a as real && y * n as real == b as real;
  }

  lemma LastOfLast(h: seq<bool>, size: nat)
    ensures Last(Last(h, CAPACITY), size) == Last(h, if size < CAPACITY then size else CAPACITY)
  {
  }

  /** ErrorWindow(size) counts the last min(size, 1000) requests, and its rate is their rate
      exactly when no failure sits in the window before them. From size 1000 on there is no
      "before", so the answer is right for every history. */
  lemma RightIffNothingOlderFailed(h: seq<bool>, size: nat)
    requires size > 0
    ensures var counted := Last(h, if size < 1000 then size else 1000);
            var window := Last(h, 1000);
            && Reported(h, size).0 == |counted|
            && (Reported(h, size).1 == Rate(counted) <==> true !in window[..|window| - |counted|])
  {
    var w := Last(h, CAPACITY);
    var c := Last(w, size);
    LastOfLast(h, size);
    var older := w[..|w| - |c|];
    assert w == older + c;
    ErrorsConcat(older, c);
    NoErrors(older);
    if c != [] { DivideApart(Errors(w), Errors(c), |c|); }
  }

  lemma WholeWindowIsExact(h: seq<bool>, size: nat)
    requires size >= 1000
    ensures Reported(h, size) == (|Last(h, 1000)|, Rate(Last(h, 1000)))
    ensures 0.0 <= Reported(h, size).1 <= 1.0
  {
    RightIffNothingOlderFailed(h, size);
    var w := Last(h, CAPACITY);
    if w != [] { DivideApart(Errors(w), 0, |w|); }
  }

  /** For a smaller size the answer is a rate at all, that is at most 1, exactly when the whole
      window holds no more failures than size. */
  lemma RateAtMostOne(h: seq<bool>, size: nat)
    requires 0 < size < |Last(h, 1000)|
    ensures Reported(h, size).1 <= 1.0 <==> Errors(Last(h, 1000)) <= size
  {
    DivideApart(Errors(Last(h, CAPACITY)), 0, size);
  }

  /** Two failures, asked for the last one: a rate of 200 percent. */
  lemma RateAboveOne()
    ensures Reported([true, true], 1) == (1, 2.0)
  {
    assert Last([true, true], CAPACITY) == [true, true];
    assert Errors([true, true]) == 2;
  }
}
