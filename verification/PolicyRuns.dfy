/** What any sequence of policy operations leaves in the registry (pkg/runtime/policy_versioning.go),
    said with the operations themselves. */
module PolicyRuns {
  import opened GoStrings
  import opened Policies

  /** A save that fails leaves the change in place. */
  predicate Accepted(o: Outcome) {
    o.error == None || o.error == Some(SaveFailed)
  }

  /** The policy that an accepted operation puts in force: the one it brings, or the recorded one it goes
      back to. */
  function PutInForce(s: State, op: Op): Option<Policy> {
    match op
    case CreateOp(p, _, _, _, _) => Some(p)
    case UpdateOp(p, _, _, _, _) => Some(p)
    case RollbackOp(name, env, to, _, _, _, _) =>
      var key := TrimSpace(name) + "/" + TrimSpace(env);
      if key in s.versions && 1 <= to <= |s.versions[key]| then Some(s.versions[key][to - 1].policy) else None
  }

  /** The active form of a policy: names without white space around them, "prod" and the standard SLO where
      it says nothing, and all else as it is. */
  predicate ActiveFormOf(q: Policy, p: Policy) {
    && q.name == TrimSpace(p.name) && q.service == TrimSpace(p.service)
    && (if TrimSpace(p.environment) != "" then q.environment == TrimSpace(p.environment) else q.environment == "prod")
    && (if p.slo.Some? then q.slo == p.slo else q.slo == Some(SLO(0.05, 250, 0.02)))
    && q.allowedTenants == p.allowedTenants && q.allowedRegions == p.allowedRegions
    && q.requireSigned == p.requireSigned && q.requireAudit == p.requireAudit
  }

  /** The policy that the last accepted operation for a name put in force. */
  function InForce(ops: seq<Op>, n: string): Option<Policy> {
    if ops == [] then None
    else
      var front, op := ops[..|ops| - 1], ops[|ops| - 1];
      var s := Run(front);
      var p := PutInForce(s, op);
      if Accepted(Apply(s, op)) && p.Some? && TrimSpace(p.value.name) == n then p else InForce(front, n)
  }

  lemma ActivatedIsActiveForm(policies: Registry, p: Policy)
    ensures var q := Normalize(p);
            && ActiveFormOf(q, p) && Activated(policies, p) == policies[TrimSpace(p.name) := q]
            && Activated(policies, q) == policies[TrimSpace(p.name) := q]
  {
    NormalizeTwice(p);
    TrimTwice(p.name);
    hide TrimSpace;
  }

  /** Who asked for it, why and when. */
  predicate TellsOf(r: Record, op: Op) {
    match op
    case CreateOp(_, actor, reason, at, _) => Signed(r, actor, at) && r.reason == Given(TrimSpace(reason))
    case UpdateOp(_, actor, reason, at, _) => Signed(r, actor, at) && r.reason == Given(TrimSpace(reason))
    case RollbackOp(_, _, to, actor, reason, at, _) => Signed(r, actor, at) && r.reason == RolledBack(to, TrimSpace(reason))
  }

  predicate Signed(r: Record, actor: string, at: real) {
    TrimSpace(actor) != "" && r.actor == TrimSpace(actor) && r.createdAt == at
  }

  function EnvironmentOf(p: Policy): string {
    if TrimSpace(p.environment) == "" then "prod" else TrimSpace(p.environment)
  }

  /** Where an operation is recorded. */
  function FiledUnder(op: Op): string {
    match op
    case CreateOp(p, _, _, _, _) => TrimSpace(p.name) + "/" + TrimSpace(p.environment)
    case UpdateOp(p, _, _, _, _) => TrimSpace(p.name) + "/" + EnvironmentOf(p)
    case RollbackOp(name, env, _, _, _, _, _) => TrimSpace(name) + "/" + TrimSpace(env)
  }

  predicate SameNames(q: Policy, p: Policy) {
    TrimSpace(q.name) == TrimSpace(p.name) && TrimSpace(q.service) == TrimSpace(p.service)
  }

  /** One accepted operation: the active form is in force, and one record is appended. */
  predicate Done(s: State, op: Op, t: State) {
    var p, key := PutInForce(s, op), FiledUnder(op);
    && p.Some? && TrimSpace(p.value.name) != "" && TrimSpace(p.value.service) != ""
    && t.policies == s.policies[TrimSpace(p.value.name) := Normalize(p.value)]
    && key in t.versions && t.versions == s.versions[key := t.versions[key]]
    && |t.versions[key]| == |HistoryOf(s.versions, key)| + 1 && t.versions[key][..|t.versions[key]| - 1] == HistoryOf(s.versions, key)
    && TellsOf(t.versions[key][|t.versions[key]| - 1], op)
    && SameNames(t.versions[key][|t.versions[key]| - 1].policy, p.value)
  }

  lemma AppendedOne(s: State, policies: Registry, key: string, r: Record, saved: bool)
    ensures var t := Appended(s, policies, key, r, saved).state;
            && t.policies == policies && key in t.versions && t.versions == s.versions[key := t.versions[key]]
            && |t.versions[key]| == |HistoryOf(s.versions, key)| + 1
            && t.versions[key][..|t.versions[key]| - 1] == HistoryOf(s.versions, key)
            && t.versions[key][|t.versions[key]| - 1] == r
    ensures Accepted(Appended(s, policies, key, r, saved))
  {
    hide HistoryOf;
  }

  lemma CreateDoes(s: State, p: Policy, actor: string, reason: string, at: real, saved: bool)
    ensures var o := Create(s, p, actor, reason, at, saved);
            if Accepted(o) then Done(s, CreateOp(p, actor, reason, at, saved), o.state) else o.state == s
  {
    ActivatedIsActiveForm(s.policies, p);
    AppendedOne(s, Activated(s.policies, p), KeyOf(p.name, p.environment),
                Record(p.name, p.environment, 1, p, TrimSpace(actor), Given(TrimSpace(reason)), at), saved);
    hide TrimSpace, Normalize, Activated, Appended;
  }

  lemma UpdateDoes(s: State, p: Policy, actor: string, reason: string, at: real, saved: bool)
    ensures var o := Update(s, p, actor, reason, at, saved);
            if Accepted(o) then Done(s, UpdateOp(p, actor, reason, at, saved), o.state) else o.state == s
  {
    var q := Normalize(p);
    NormalFields(p);
    ActivatedIsActiveForm(s.policies, p);
    var key := KeyOf(q.name, q.environment);
    var r := Record(q.name, q.environment, |HistoryOf(s.versions, key)| + 1, q, TrimSpace(actor), Given(TrimSpace(reason)), at);
    AppendedOne(s, Activated(s.policies, q), key, r, saved);
    hide TrimSpace, Normalize, Activated, Appended, HistoryOf;
  }

  lemma NormalFields(p: Policy)
    ensures var q := Normalize(p);
            && TrimSpace(q.name) == TrimSpace(p.name) && TrimSpace(q.service) == TrimSpace(p.service)
            && KeyOf(q.name, q.environment) == TrimSpace(p.name) + "/" + EnvironmentOf(p)
  {
    TrimTwice(p.name);
    TrimTwice(p.service);
    TrimTwice(p.environment);
    assert !IsSpace('p') && !IsSpace('d');
    assert TrimSpace("prod") == "prod";
  }

  lemma RollbackDoes(s: State, name: string, environment: string, to: int, actor: string, reason: string, at: real, saved: bool)
    ensures var o := Rollback(s, name, environment, to, actor, reason, at, saved);
            if Accepted(o) then Done(s, RollbackOp(name, environment, to, actor, reason, at, saved), o.state) else o.state == s
  {
    var key := KeyOf(name, environment);
    var h := HistoryOf(s.versions, key);
    if 1 <= to <= |h| {
      var target := h[to - 1].policy;
      ActivatedIsActiveForm(s.policies, target);
      var r := Record(name, environment, |h| + 1, target, TrimSpace(actor), RolledBack(to, TrimSpace(reason)), at);
      AppendedOne(s, Activated(s.policies, target), key, r, saved);
    }
    hide TrimSpace, Normalize, Activated, Appended;
  }

  lemma OneOp(s: State, op: Op)
    ensures var o := Apply(s, op);
            if Accepted(o) then Done(s, op, o.state) else o.state == s
  {
    hide Create, Update, Rollback, Done;
    match op
    case CreateOp(p, actor, reason, at, saved) => CreateDoes(s, p, actor, reason, at, saved);
    case UpdateOp(p, actor, reason, at, saved) => UpdateDoes(s, p, actor, reason, at, saved);
    case RollbackOp(name, env, to, actor, reason, at, saved) => RollbackDoes(s, name, env, to, actor, reason, at, saved);
  }

  /** In every run a name is active iff some accepted operation put a policy of that name in force, and what
      is active is the active form of the policy that the last such operation brought or went back to. */
  lemma {:induction false} LastAcceptedIsActive(ops: seq<Op>, n: string)
    ensures n in Run(ops).policies <==> InForce(ops, n).Some?
    ensures n in Run(ops).policies ==>
              ActiveFormOf(Run(ops).policies[n], InForce(ops, n).value) && TrimSpace(InForce(ops, n).value.name) == n != ""
  {
    if ops != [] {
      var front, op := ops[..|ops| - 1], ops[|ops| - 1];
      LastAcceptedIsActive(front, n);
      var s := Run(front);
      OneOp(s, op);
      if PutInForce(s, op).Some? { ActivatedIsActiveForm(s.policies, PutInForce(s, op).value); }
      hide Apply, Normalize, PutInForce, TrimSpace, ActiveFormOf, Accepted, TellsOf, FiledUnder, HistoryOf;
    }
  }

  // ---------------------------------------------------------------- what is accepted

  /** A policy can be created iff somebody asks, it has a name and a service, and no accepted operation of
      the run has put a policy of that name in force. */
  lemma CreateAcceptedIff(ops: seq<Op>, p: Policy, actor: string, reason: string, at: real, saved: bool)
    ensures Accepted(Create(Run(ops), p, actor, reason, at, saved)) <==>
            && TrimSpace(actor) != "" && TrimSpace(p.name) != "" && TrimSpace(p.service) != ""
            && InForce(ops, TrimSpace(p.name)) == None
  {
    LastAcceptedIsActive(ops, TrimSpace(p.name));
    hide TrimSpace, InForce, Run;
  }

  /** It can be updated iff one of that name is in force, it names the environment of that one, and it has
      a service. */
  lemma UpdateAcceptedIff(ops: seq<Op>, p: Policy, actor: string, reason: string, at: real, saved: bool)
    ensures var n := TrimSpace(p.name);
            Accepted(Update(Run(ops), p, actor, reason, at, saved)) <==>
            && TrimSpace(actor) != "" && TrimSpace(p.service) != "" && InForce(ops, n).Some?
            && p.environment == EnvironmentOf(InForce(ops, n).value)
  {
    var n, s := TrimSpace(p.name), Run(ops);
    LastAcceptedIsActive(ops, n);
    NormalFields(p);
    if n in s.policies { UpdateTaken(s, p, actor, reason, at, saved, InForce(ops, n).value); }
    hide TrimSpace, InForce, Run, ActiveFormOf;
  }

  lemma UpdateTaken(s: State, p: Policy, actor: string, reason: string, at: real, saved: bool, active: Policy)
    requires TrimSpace(p.name) in s.policies && TrimSpace(p.name) != "" && ActiveFormOf(s.policies[TrimSpace(p.name)], active)
    ensures Accepted(Update(s, p, actor, reason, at, saved)) <==>
            TrimSpace(actor) != "" && TrimSpace(p.service) != "" && p.environment == EnvironmentOf(active)
  {
    NormalFields(p);
    hide TrimSpace, Normalize;
  }

  /** A policy of the name is active, and it has a service. */
  predicate Known(policies: Registry, p: Policy) {
    TrimSpace(p.name) != "" && TrimSpace(p.service) != "" && TrimSpace(p.name) in policies
  }

  ghost predicate AllKnown(s: State) {
    forall key, i :: key in s.versions && 0 <= i < |s.versions[key]| ==> Known(s.policies, s.versions[key][i].policy)
  }

  lemma StaysKnown(s: State, op: Op, t: State)
    requires AllKnown(s) && Done(s, op, t)
    ensures AllKnown(t)
  {
    hide TrimSpace, Normalize, PutInForce, FiledUnder, TellsOf;
    var key := FiledUnder(op);
    forall k, i | k in t.versions && 0 <= i < |t.versions[k]| ensures Known(t.policies, t.versions[k][i].policy) {
      if k != key {
        assert Known(s.policies, s.versions[k][i].policy);
      } else if i < |t.versions[k]| - 1 {
        assert t.versions[k][i] == HistoryOf(s.versions, key)[i];
        assert Known(s.policies, s.versions[k][i].policy);
      }
    }
  }

  lemma {:induction false} EveryRecordIsKnown(ops: seq<Op>)
    ensures AllKnown(Run(ops))
  {
    if ops != [] {
      var front, op := ops[..|ops| - 1], ops[|ops| - 1];
      EveryRecordIsKnown(front);
      OneOp(Run(front), op);
      hide Apply, Done, Accepted, AllKnown;
      if Accepted(Apply(Run(front), op)) { StaysKnown(Run(front), op, Run(ops)); }
    }
  }

  /** A rollback is accepted iff somebody asks and the version exists, whatever the run. */
  lemma RollbackAcceptedIff(ops: seq<Op>, name: string, environment: string, to: int, actor: string, reason: string, at: real, saved: bool)
    ensures var key := TrimSpace(name) + "/" + TrimSpace(environment);
            Accepted(Rollback(Run(ops), name, environment, to, actor, reason, at, saved)) <==>
            TrimSpace(actor) != "" && key in Run(ops).versions && 1 <= to <= |Run(ops).versions[key]|
  {
    EveryRecordIsKnown(ops);
    var s, key := Run(ops), KeyOf(name, environment);
    hide TrimSpace, Run, Normalize, AllKnown;
    if key in s.versions && 1 <= to <= |s.versions[key]| { KnownAt(s, key, to - 1); }
  }

  lemma KnownAt(s: State, key: string, i: nat)
    requires AllKnown(s) && key in s.versions && i < |s.versions[key]|
    ensures Known(s.policies, s.versions[key][i].policy)
  {
  }

  // ---------------------------------------------------------------- what is recorded

  /** The accepted operations that are recorded under a key, in order. */
  function RecordedOps(ops: seq<Op>, key: string): seq<Op> {
    if ops == [] then []
    else
      var front, op := ops[..|ops| - 1], ops[|ops| - 1];
      RecordedOps(front, key) + if Accepted(Apply(Run(front), op)) && FiledUnder(op) == key then [op] else []
  }

  ghost predicate TellAll(h: seq<Record>, done: seq<Op>) {
    |h| == |done| && forall i :: 0 <= i < |h| ==> TellsOf(h[i], done[i])
  }

  /** In every run each history holds one record for each of them, telling who asked, why and when. */
  lemma {:induction false} EveryOperationIsRecorded(ops: seq<Op>, key: string)
    ensures TellAll(HistoryOf(Run(ops).versions, key), RecordedOps(ops, key))
  {
    if ops != [] {
      var front, op := ops[..|ops| - 1], ops[|ops| - 1];
      EveryOperationIsRecorded(front, key);
      hide TellAll, Apply, Accepted, FiledUnder;
      RecordedOnce(Run(front), op, key, RecordedOps(front, key));
    }
  }

  lemma RecordedOnce(s: State, op: Op, key: string, done: seq<Op>)
    requires TellAll(HistoryOf(s.versions, key), done)
    ensures var o := Apply(s, op);
            TellAll(HistoryOf(o.state.versions, key), done + if Accepted(o) && FiledUnder(op) == key then [op] else [])
  {
    OneOp(s, op);
    hide Apply, Normalize, PutInForce, TrimSpace, Accepted, TellsOf, FiledUnder;
    if Accepted(Apply(s, op)) && FiledUnder(op) == key {
      var h := HistoryOf(Apply(s, op).state.versions, key);
      assert h == HistoryOf(s.versions, key) + [h[|h| - 1]];
    }
  }
}
