/** Whole runs of the dev loop (setupWatcher in examples/webapp-demo/cmd/dev/main.go): which server is
    current, what a cycle rebuilds, which timers are armed. */
module DevRuns {
  import opened GoStrings
  import opened DevScheduler

  predicate EnabledAt(proc: Proc, es: seq<Event>, k: nat)
    requires k < |es|
  {
    Enabled(Run(proc, es[..k]).s, es[k])
  }

  /** The process of the last of the first n events that started one. */
  function LastStarted(proc: Proc, es: seq<Event>, n: nat): Proc
    requires n <= |es|
  {
    if n == 0 then proc
    else if es[n - 1].Started? && EnabledAt(proc, es, n - 1) then es[n - 1].proc
    else LastStarted(proc, es, n - 1)
  }

  /** The process that the last Ready among the first n events found ready: the one started last before
      it; the initial one if there was none. */
  function LastReady(proc: Proc, es: seq<Event>, n: nat): Proc
    requires n <= |es|
  {
    if n == 0 then proc
    else if es[n - 1].Ready? && EnabledAt(proc, es, n - 1) then LastStarted(proc, es, n - 1)
    else LastReady(proc, es, n - 1)
  }

  lemma {:induction false} RunFromSnoc(w: World, es: seq<Event>, e: Event)
    ensures RunFrom(w, es + [e]) == StepWorld(RunFrom(w, es), e)
    decreases |es|
  {
    if es == [] {
      assert (es + [e])[1..] == [];
    } else {
      RunFromSnoc(StepWorld(w, es[0]), es[1..], e);
      assert (es + [e])[1..] == es[1..] + [e];
    }
  }

  lemma RunOneMore(proc: Proc, es: seq<Event>, n: nat)
    requires n < |es|
    ensures Run(proc, es[..n + 1]) == StepWorld(Run(proc, es[..n]), es[n])
  {
    assert es[..n + 1] == es[..n] + [es[n]];
    RunFromSnoc(World(Init(proc), Ledger([], [], [], [])), es[..n], es[n]);
  }

  // ---------------------------------------------------------------- the current server

  predicate Serving(s: State, current: Proc, started: Proc) {
    s.proc == current && |s.cycles| <= 1 && (|s.cycles| == 1 && s.cycles[0].phase.Waiting? ==> s.cycles[0].phase.proc == started) &&
    s.alive == {current} + if |s.cycles| == 1 && s.cycles[0].phase.Waiting? then {started} else {}
  }

  lemma ServingStep(s: State, e: Event, current: Proc, started: Proc)
    requires Controlled(s) && Serving(s, current, started)
    ensures var now := if Enabled(s, e) && e.Ready? then started else current;
            Serving(Step(s, e), now, if Enabled(s, e) && e.Started? then e.proc else started)
  {
    StepKeepsControl(s, e);
  }

  /** In every run the current server is the process that the last Ready event found ready; nothing
      else replaces it. Alive are this one and, while a cycle waits, the one the cycle started. */
  lemma {:induction false} CurrentIsLastReady(proc: Proc, es: seq<Event>, n: nat)
    requires n <= |es|
    ensures Serving(Run(proc, es[..n]).s, LastReady(proc, es, n), LastStarted(proc, es, n))
  {
    if n > 0 {
      CurrentIsLastReady(proc, es, n - 1);
      RunOneMore(proc, es, n - 1);
      EveryRunIsSafe(proc, es[..n - 1]);
      var s := Run(proc, es[..n - 1]).s;
      ServingStep(s, es[n - 1], LastReady(proc, es, n - 1), LastStarted(proc, es, n - 1));
    }
  }

  // ---------------------------------------------------------------- what a cycle rebuilds

  predicate CycleGotLast(w: World) {
    |w.s.cycles| == 1 ==>
      w.l.handed != [] &&
      var slot, cycle := w.l.handed[|w.l.handed| - 1].slot, w.s.cycles[0];
      cycle.source == slot.source && cycle.generate == slot.generate
  }

  lemma CycleGotLastStep(w: World, e: Event)
    requires Safe(w) && CycleGotLast(w)
    ensures CycleGotLast(StepWorld(w, e))
  {
    hide NothingLost, BatchesSummed, HandedSummed;
  }

  /** In every run the running cycle works on the batch handed over last: named by its last static asset,
      or its last change, and generating iff one of its changes asks for it. */
  lemma {:induction false} CycleRebuildsLastBatch(proc: Proc, es: seq<Event>)
    ensures var w := Run(proc, es);
            |w.s.cycles| == 1 ==>
              w.l.handed != [] && var batch := w.l.handed[|w.l.handed| - 1].batch;
              w.s.cycles[0].source == MergeAll(batch) && (w.s.cycles[0].generate <==> AnyGenerate(batch))
  {
    CycleGotLastRun(proc, es, |es|);
    assert es[..|es|] == es;
    EveryRunIsSafe(proc, es);
    var hs := Run(proc, es).l.handed;
    if hs != [] { assert HandedSummed(hs[|hs| - 1]); }
  }

  lemma {:induction false} CycleGotLastRun(proc: Proc, es: seq<Event>, n: nat)
    requires n <= |es|
    ensures CycleGotLast(Run(proc, es[..n]))
  {
    if n > 0 {
      CycleGotLastRun(proc, es, n - 1);
      RunOneMore(proc, es, n - 1);
      EveryRunIsSafe(proc, es[..n - 1]);
      CycleGotLastStep(Run(proc, es[..n - 1]), es[n - 1]);
    }
  }

  /** The static assets by their endings. */
  lemma StaticIff(path: string)
    ensures IsStaticAsset(path) <==> HasSuffix(path, ".css") || HasSuffix(path, ".js") || HasSuffix(path, ".html")
  {
    hide HasSuffix, Ext;
    ExtIff(path, ".css");
    ExtIff(path, ".js");
    ExtIff(path, ".html");
  }

  lemma {:induction false} ExtIff(path: string, ending: string)
    requires ending != "" && ending[0] == '.' && forall i :: 0 < i < |ending| ==> ending[i] != '.' && ending[i] != '/'
    ensures Ext(path) == ending <==> HasSuffix(path, ending)
    decreases |path|
  {
    if |path| > 0 {
      var n, m := |path| - 1, |ending| - 1;
      var front, c, less, d := path[..n], path[n], ending[..m], ending[m];
      assert path == front + [c] && ending == less + [d];
      hide HasSuffix, Ext;
      ExtSnoc(front, c);
      SuffixSnoc(front, c, less, d);
      if m == 0 {
        EndsWithNothing(front, less);
      } else {
        ExtIff(front, less);
      }
    } else {
      EmptyExt(path, ending);
    }
  }

  lemma EndsWithNothing(s: string, t: string)
    requires |t| == 0
    ensures HasSuffix(s, t)
  {
  }

  lemma EmptyExt(path: string, ending: string)
    requires |path| == 0 && ending != ""
    ensures Ext(path) != ending && !HasSuffix(path, ending)
  {
  }

  lemma ExtSnoc(front: string, c: char)
    ensures Ext(front + [c]) == if c == '/' then "" else if c == '.' then "." else if Ext(front) == "" then "" else Ext(front) + [c]
  {
    assert (front + [c])[..|front|] == front;
  }

  lemma SuffixSnoc(front: string, c: char, t: string, d: char)
    ensures HasSuffix(front + [c], t + [d]) <==> c == d && HasSuffix(front, t)
  {
    var s, k := front + [c], |front| - |t|;
    if k >= 0 {
      assert s[k..] == front[k..] + [c];
      assert (front[k..] + [c])[..|t|] == front[k..] && (t + [d])[..|t|] == t;
    }
  }

  // ---------------------------------------------------------------- the timers

  /** The timer of the debounce batch, when it could stop all earlier ones in time. */
  predicate OneTimer(s: State) {
    s.armed == (if s.debounce.full then {s.debounceID} else {}) && s.restartTimer == if s.debounce.full then Some(s.debounceID) else None
  }

  lemma OneTimerStep(s: State, e: Event)
    requires Controlled(s) && OneTimer(s) && (e.Changed? ==> e.stopped)
    ensures OneTimer(Step(s, e))
  {
  }

  /** In every run in which stopping a timer always comes in time, there is one timer while a batch is
      being collected, and none otherwise. */
  lemma {:induction false} StoppedTimersAreGone(proc: Proc, es: seq<Event>, n: nat)
    requires n <= |es| && forall k :: 0 <= k < n && es[k].Changed? ==> es[k].stopped
    ensures OneTimer(Run(proc, es[..n]).s)
  {
    if n > 0 {
      StoppedTimersAreGone(proc, es, n - 1);
      RunOneMore(proc, es, n - 1);
      EveryRunIsSafe(proc, es[..n - 1]);
      OneTimerStep(Run(proc, es[..n - 1]).s, es[n - 1]);
    }
  }
}
