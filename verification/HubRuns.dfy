/** What the steps of a run alone say about the hub (pkg/runtime/hmr/hmr.go): what was broadcast, who is
    registered, who gets a replay. */
module HubRuns {
  import opened GoStrings
  import opened EventHub

  /** The events broadcast in a run, as they go out: with the wire schema 1.1, the build id and the time. */
  function Broadcasts(buildID: string, steps: seq<Step>): seq<Event> {
    if steps == [] then []
    else
      var front, step := Broadcasts(buildID, steps[..|steps| - 1]), steps[|steps| - 1];
      match step
      case Broadcast(e, at) => front + [Event(e.kind, e.target, e.payload, e.source, e.route, 1, 1, buildID, at)]
      case _ => front
  }

  lemma LastStep(buildID: string, steps: seq<Step>)
    requires Run(buildID, steps).Some? && steps != []
    ensures var front, step := steps[..|steps| - 1], steps[|steps| - 1];
            && Run(buildID, front).Some? && Enabled(Run(buildID, front).value.hub, step)
            && Run(buildID, front).value.hub.channels.Keys == Run(buildID, front).value.book.Keys
            && Run(buildID, steps).value == Observe(Run(buildID, front).value, step)
  {
  }

  /** The hub remembers them all, its own id, and the last with its time. */
  predicate Remembers(s: State, sent: seq<Event>, buildID: string) {
    s.buildID == buildID && s.last == (if sent == [] then None else Some(sent[|sent| - 1])) &&
    (sent != [] ==> s.lastAt == sent[|sent| - 1].ts)
  }

  lemma {:induction false} SentAreTheBroadcasts(buildID: string, steps: seq<Step>)
    requires Run(buildID, steps).Some?
    ensures var w := Run(buildID, steps).value; w.sent == Broadcasts(buildID, steps) && Remembers(w.hub, w.sent, buildID)
  {
    if steps != [] {
      LastStep(buildID, steps);
      hide Run, Enabled, Offered, NoteBroadcast;
      SentAreTheBroadcasts(buildID, steps[..|steps| - 1]);
    }
  }

  /** In every run a client is registered iff it has subscribed and not cancelled. */
  lemma {:induction false} RegisteredIff(buildID: string, steps: seq<Step>, id: nat)
    requires Run(buildID, steps).Some?
    ensures var s := Run(buildID, steps).value.hub;
            (id in s.clients <==> id in s.channels && Cancel(id) !in steps) && (Cancel(id) in steps ==> id in s.channels) &&
            (id in s.channels <==> exists i :: 0 <= i < |steps| && steps[i].Subscribe? && steps[i].id == id)
  {
    if steps != [] {
      LastStep(buildID, steps);
      var front, step := steps[..|steps| - 1], steps[|steps| - 1];
      var s, t := Run(buildID, front).value.hub, Run(buildID, steps).value.hub;
      RegisteredIff(buildID, front, id);
      assert steps == front + [step];
      assert Cancel(id) in steps <==> Cancel(id) in front || step == Cancel(id);
      OneStep(s, step, id);
      hide Run, Next;
      SubscribedMore(front, step, id);
    }
  }

  lemma OneStep(s: State, step: Step, id: nat)
    requires Enabled(s, step)
    ensures var t := Next(s, step);
            && (id in t.channels <==> id in s.channels || (step.Subscribe? && step.id == id))
            && (id in t.clients <==> (id in s.clients && step != Cancel(id)) || (step.Subscribe? && step.id == id))
            && (step.Subscribe? && step.id == id ==> id !in s.channels) && (step == Cancel(id) ==> id in s.channels)
  {
  }

  lemma SubscribedMore(front: seq<Step>, step: Step, id: nat)
    ensures var steps := front + [step];
            (exists i :: 0 <= i < |steps| && steps[i].Subscribe? && steps[i].id == id) <==>
            (exists i :: 0 <= i < |front| && front[i].Subscribe? && front[i].id == id) || (step.Subscribe? && step.id == id)
  {
    var steps := front + [step];
    assert steps[|front|] == step && forall i :: 0 <= i < |front| ==> steps[i] == front[i];
  }

  /** A client that subscribes is to be sent the last broadcast iff that was less than two seconds ago. */
  lemma ReplaysIffRecent(buildID: string, steps: seq<Step>, id: nat, now: real)
    requires Run(buildID, steps).Some? && Enabled(Run(buildID, steps).value.hub, Subscribe(id, now))
    ensures var sent, c := Broadcasts(buildID, steps), Next(Run(buildID, steps).value.hub, Subscribe(id, now)).channels[id];
            && c.queue == [] && !c.closed
            && c.phase == if sent != [] && now - sent[|sent| - 1].ts < 2.0 then Replaying(sent[|sent| - 1]) else Returned
  {
    SentAreTheBroadcasts(buildID, steps);
  }
}
