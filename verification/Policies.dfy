/** Versioned route policies over a registry (pkg/runtime/policy_versioning.go and the
    policy part of pkg/runtime/config_registry.go). Operations run one at a time. */
module Policies {
  import opened GoStrings
  import opened KeyOrders

  datatype SLO = SLO(errorRate: real, latencyMs: int, burnRate: real)

  const DEFAULT_SLO := SLO(0.05, 250, 0.02)

  datatype Policy = Policy(
    name: string, environment: string, service: string, allowedTenants: seq<string>, allowedRegions: seq<string>,
    requireSigned: bool, requireAudit: bool, slo: Option<SLO>)

  datatype Reason = Given(text: string) | RolledBack(to: int, text: string)

  datatype Record = Record(policyName: string, environment: string, version: int, policy: Policy,
                           actor: string, reason: Reason, createdAt: real)

  type Registry = map<string, Policy>
  type Histories = map<string, seq<Record>>

  datatype Error =
    | ActorRequired | NameRequired | ServiceRequired | AlreadyExists | NotFound | WrongEnvironment
    | NoHistory | OutOfRange | SaveFailed

  /** The registry, the histories in memory and the histories last saved. */
  datatype State = State(policies: Registry, versions: Histories, stored: Histories)

  datatype Outcome = Outcome(state: State, error: Option<Error>)

  /** What the registry keeps of a policy. */
  function Normalize(p: Policy): Policy {
    p.(name := TrimSpace(p.name), service := TrimSpace(p.service),
       environment := if TrimSpace(p.environment) == "" then "prod" else TrimSpace(p.environment),
       slo := if p.slo.None? then Some(DEFAULT_SLO) else p.slo)
  }

  /** Why RegisterPolicy or replacePolicy turn a policy away. */
  function Refusal(policies: Registry, p: Policy, replacing: bool): Option<Error> {
    if TrimSpace(p.name) == "" then Some(NameRequired)
    else if TrimSpace(p.service) == "" then Some(ServiceRequired)
    else if replacing && TrimSpace(p.name) !in policies then Some(NotFound)
    else if !replacing && TrimSpace(p.name) in policies then Some(AlreadyExists)
    else None
  }

  function Activated(policies: Registry, p: Policy): Registry {
    policies[TrimSpace(p.name) := Normalize(p)]
  }

  function KeyOf(name: string, environment: string): string {
    TrimSpace(name) + "/" + TrimSpace(environment)
  }

  function HistoryOf(versions: Histories, key: string): seq<Record> {
    if key in versions then versions[key] else []
  }

  /** Append a record and save; a failed save leaves the change in memory. */
  function Appended(s: State, policies: Registry, key: string, r: Record, saved: bool): Outcome {
    var versions := s.versions[key := HistoryOf(s.versions, key) + [r]];
    Outcome(State(policies, versions, if saved then versions else s.stored), if saved then None else Some(SaveFailed))
  }

  function Create(s: State, p: Policy, actor: string, reason: string, at: real, saved: bool): Outcome {
    if TrimSpace(actor) == "" then Outcome(s, Some(ActorRequired))
    else
      var refusal := Refusal(s.policies, p, false);
      if refusal.Some? then Outcome(s, refusal)
      else
        Appended(s, Activated(s.policies, p), KeyOf(p.name, p.environment),
                 Record(p.name, p.environment, 1, p, TrimSpace(actor), Given(TrimSpace(reason)), at), saved)
  }

  function Update(s: State, p: Policy, actor: string, reason: string, at: real, saved: bool): Outcome {
    if TrimSpace(actor) == "" then Outcome(s, Some(ActorRequired))
    else if TrimSpace(p.name) !in s.policies then Outcome(s, Some(NotFound))
    else if s.policies[TrimSpace(p.name)].environment != p.environment then Outcome(s, Some(WrongEnvironment))
    else
      var q := Normalize(p);
      var refusal := Refusal(s.policies, q, true);
      if refusal.Some? then Outcome(s, refusal)
      else
        var key := KeyOf(q.name, q.environment);
        Appended(s, Activated(s.policies, q), key,
                 Record(q.name, q.environment, |HistoryOf(s.versions, key)| + 1, q, TrimSpace(actor), Given(TrimSpace(reason)), at),
                 saved)
  }

  function Rollback(s: State, name: string, environment: string, to: int, actor: string, reason: string, at: real, saved: bool): Outcome {
    if TrimSpace(actor) == "" then Outcome(s, Some(ActorRequired))
    else
      var key := KeyOf(name, environment);
      var history := HistoryOf(s.versions, key);
      if history == [] then Outcome(s, Some(NoHistory))
      else if to < 1 || to > |history| then Outcome(s, Some(OutOfRange))
      else
        var target := history[to - 1].policy;
        var refusal := Refusal(s.policies, target, true);
        if refusal.Some? then Outcome(s, refusal)
        else
          Appended(s, Activated(s.policies, target), key,
                   Record(name, environment, |history| + 1, target, TrimSpace(actor), RolledBack(to, TrimSpace(reason)), at), saved)
  }

  // ---------------------------------------------------------------- the code

  class RouteRegistry {
    var policies: Registry

    constructor ()
      ensures policies == map[]
    {
      policies := map[];
    }

    method RegisterPolicy(policy: Policy) returns (error: Option<Error>)
      modifies this
      ensures error == Refusal(old(policies), policy, false)
      ensures policies == if error.Some? then old(policies) else Activated(old(policies), policy)
    {
      var name, service := TrimSpace(policy.name), TrimSpace(policy.service);
      if name == "" {
        return Some(NameRequired);
      }
      if service == "" {
        return Some(ServiceRequired);
      }
      if name in policies {
        return Some(AlreadyExists);
      }
      policies := policies[name := Normalize(policy)];
      return None;
    }

    method ReplacePolicy(policy: Policy) returns (error: Option<Error>)
      modifies this
      ensures error == Refusal(old(policies), policy, true)
      ensures policies == if error.Some? then old(policies) else Activated(old(policies), policy)
    {
      var name, service := TrimSpace(policy.name), TrimSpace(policy.service);
      if name == "" {
        return Some(NameRequired);
      }
      if service == "" {
        return Some(ServiceRequired);
      }
      if name !in policies {
        return Some(NotFound);
      }
      policies := policies[name := Normalize(policy)];
      return None;
    }

    method GetPolicy(name: string) returns (r: Option<Policy>)
      ensures r == if TrimSpace(name) in policies then Some(policies[TrimSpace(name)]) else None
    {
      var n := TrimSpace(name);
      if n in policies {
        return Some(policies[n]);
      }
      return None;
    }
  }

  class PolicyVersioner {
    const registry: RouteRegistry
    var versions: Histories
    var stored: Histories

    function View(): State
      reads this, registry
    {
      State(registry.policies, versions, stored)
    }

    constructor Empty(registry: RouteRegistry)
      requires registry.policies == map[]
      ensures this.registry == registry && View() == State(map[], map[], map[])
    {
      this.registry := registry;
      versions, stored := map[], map[];
    }

    method AppendAndPersist(key: string, r: Record, saved: bool) returns (error: Option<Error>)
      modifies this
      ensures Outcome(View(), error) == Appended(old(View()), registry.policies, key, r, saved)
    {
      versions := versions[key := HistoryOf(versions, key) + [r]];
      if !saved {
        return Some(SaveFailed);
      }
      stored := versions;
      return None;
    }

    method CreatePolicy(policy: Policy, actor: string, reason: string, at: real, saved: bool) returns (error: Option<Error>)
      modifies this, registry
      ensures Outcome(View(), error) == Create(old(View()), policy, actor, reason, at, saved)
    {
      if TrimSpace(actor) == "" {
        return Some(ActorRequired);
      }
      error := registry.RegisterPolicy(policy);
      if error.Some? {
        return;
      }
      var r := Record(policy.name, policy.environment, 1, policy, TrimSpace(actor), Given(TrimSpace(reason)), at);
      error := AppendAndPersist(KeyOf(policy.name, policy.environment), r, saved);
    }

    method UpdatePolicy(policy: Policy, actor: string, reason: string, at: real, saved: bool) returns (error: Option<Error>)
      modifies this, registry
      ensures Outcome(View(), error) == Update(old(View()), policy, actor, reason, at, saved)
    {
      if TrimSpace(actor) == "" {
        return Some(ActorRequired);
      }
      var current := registry.GetPolicy(policy.name);
      if current.None? {
        return Some(NotFound);
      }
      if current.value.environment != policy.environment {
        return Some(WrongEnvironment);
      }
      var p := Normalize(policy);
      error := registry.ReplacePolicy(p);
      if error.Some? {
        return;
      }
      var key := KeyOf(p.name, p.environment);
      var nextVersion := |HistoryOf(versions, key)| + 1;
      var r := Record(p.name, p.environment, nextVersion, p, TrimSpace(actor), Given(TrimSpace(reason)), at);
      error := AppendAndPersist(key, r, saved);
    }

    method RollbackPolicy(name: string, environment: string, to: int, actor: string, reason: string, at: real, saved: bool)
      returns (error: Option<Error>)
      modifies this, registry
      ensures Outcome(View(), error) == Rollback(old(View()), name, environment, to, actor, reason, at, saved)
    {
      if TrimSpace(actor) == "" {
        return Some(ActorRequired);
      }
      var key := KeyOf(name, environment);
      var history := HistoryOf(versions, key);
      if |history| == 0 {
        return Some(NoHistory);
      }
      if to < 1 || to > |history| {
        return Some(OutOfRange);
      }
      var target := history[to - 1];
      error := registry.ReplacePolicy(target.policy);
      if error.Some? {
        return;
      }
      var r := Record(name, environment, |history| + 1, target.policy, TrimSpace(actor), RolledBack(to, TrimSpace(reason)), at);
      error := AppendAndPersist(key, r, saved);
    }
  }

  // ---------------------------------------------------------------- what every run keeps

  predicate SoundPolicy(p: Policy) {
    TrimSpace(p.name) != "" && '/' !in TrimSpace(p.name) && TrimSpace(p.environment) != "" && TrimSpace(p.service) != ""
  }

  /** Record i of a history carries version i + 1 and a policy of that very name and
      environment. */
  predicate RecordFits(key: string, h: seq<Record>, i: int)
    requires 0 <= i < |h|
  {
    h[i].version == i + 1 && SoundPolicy(h[i].policy) &&
    KeyOf(h[i].policyName, h[i].environment) == key && KeyOf(h[i].policy.name, h[i].policy.environment) == key
  }

  predicate HistoryFits(key: string, h: seq<Record>) {
    h != [] && forall i :: 0 <= i < |h| ==> RecordFits(key, h, i)
  }

  function Latest(h: seq<Record>): Policy
    requires h != []
  {
    h[|h| - 1].policy
  }

  /** The registry holds, for each history and nothing else, the normalised policy of the
      last record. */
  predicate Active(policies: Registry, key: string, h: seq<Record>)
    requires h != []
  {
    var n := TrimSpace(Latest(h).name);
    n in policies && policies[n] == Normalize(Latest(h))
  }

  predicate Backed(policies: Registry, versions: Histories, n: string)
    requires n in policies
  {
    var key := KeyOf(n, policies[n].environment);
    key in versions && versions[key] != [] && TrimSpace(Latest(versions[key]).name) == n
  }

  ghost predicate AlignedWith(policies: Registry, versions: Histories) {
    (forall key :: key in versions ==> HistoryFits(key, versions[key]) && Active(policies, key, versions[key])) &&
    forall n :: n in policies ==> Backed(policies, versions, n)
  }

  ghost predicate Aligned(s: State) {
    AlignedWith(s.policies, s.versions)
  }

  lemma TrimTwice(s: string)
    ensures TrimSpace(TrimSpace(s)) == TrimSpace(s)
  {
  }

  lemma NormalizeTwice(p: Policy)
    ensures Normalize(Normalize(p)) == Normalize(p)
  {
    TrimTwice(p.name);
    TrimTwice(p.service);
    TrimTwice(p.environment);
    assert !IsSpace('p') && !IsSpace('d');
    assert TrimSpace("prod") == "prod";
  }

  /** The key of a history can be read off the active policy, so a name has one history. */
  lemma KeyOfActive(policies: Registry, versions: Histories, key: string)
    requires AlignedWith(policies, versions) && key in versions
    ensures var n := TrimSpace(Latest(versions[key]).name);
            n in policies && key == KeyOf(n, policies[n].environment)
  {
    hide TrimSpace;
    var h := versions[key];
    var p := Latest(h);
    assert HistoryFits(key, h) && RecordFits(key, h, |h| - 1);
    assert Active(policies, key, h);
    TrimTwice(p.name);
    TrimTwice(p.environment);
  }

  lemma HistoryGrows(key: string, h: seq<Record>, r: Record)
    requires h == [] || HistoryFits(key, h)
    requires RecordFits(key, [r], 0) || r.version == |h| + 1
    requires r.version == |h| + 1 && SoundPolicy(r.policy)
    requires KeyOf(r.policyName, r.environment) == key && KeyOf(r.policy.name, r.policy.environment) == key
    ensures HistoryFits(key, h + [r])
  {
    forall i | 0 <= i < |h| + 1 ensures RecordFits(key, h + [r], i) {
      if i < |h| { assert RecordFits(key, h, i); }
    }
  }

  /** Activating a sound policy and recording it under its own key keeps the alignment, as
      long as the name is new or its active policy already has that key. */
  lemma AppendKeepsAligned(s: State, key: string, r: Record, saved: bool)
    requires Aligned(s) && SoundPolicy(r.policy) && r.version == |HistoryOf(s.versions, key)| + 1
    requires KeyOf(r.policyName, r.environment) == key && KeyOf(r.policy.name, r.policy.environment) == key
    requires var n := TrimSpace(r.policy.name);
             if n in s.policies then KeyOf(n, s.policies[n].environment) == key else key !in s.versions
    ensures Aligned(Appended(s, Activated(s.policies, r.policy), key, r, saved).state)
  {
    var n := TrimSpace(r.policy.name);
    var policies := Activated(s.policies, r.policy);
    var h := HistoryOf(s.versions, key) + [r];
    var versions := s.versions[key := h];
    assert key in s.versions ==> HistoryFits(key, s.versions[key]);
    HistoryGrows(key, HistoryOf(s.versions, key), r);
    assert Latest(h) == r.policy;
    forall k | k in versions ensures HistoryFits(k, versions[k]) && Active(policies, k, versions[k]) {
      if k != key {
        KeyOfActive(s.policies, s.versions, k);
        assert HistoryFits(k, s.versions[k]) && Active(s.policies, k, s.versions[k]);
      }
    }
    TrimTwice(r.policy.name);
    TrimTwice(r.policy.environment);
    forall m | m in policies ensures Backed(policies, versions, m) {
      if m != n { assert Backed(s.policies, s.versions, m); }
    }
  }

  lemma KeyNamesApart(n1: string, e1: string, n2: string, e2: string)
    requires '/' !in n1 && '/' !in n2 && n1 + "/" + e1 == n2 + "/" + e2
    ensures n1 == n2 && e1 == e2
  {
    IndexByteAt(n1, '/', e1);
    IndexByteAt(n2, '/', e2);
    var k := n1 + ['/'] + e1;
    assert n1 == k[..|n1|] && e1 == k[|n1| + 1..];
    assert n2 == k[..|n2|] && e2 == k[|n2| + 1..];
  }

  lemma FreshNameFreshKey(s: State, p: Policy)
    requires Aligned(s) && SoundPolicy(p) && TrimSpace(p.name) !in s.policies
    ensures KeyOf(p.name, p.environment) !in s.versions
  {
    var key := KeyOf(p.name, p.environment);
    if key in s.versions {
      var h := s.versions[key];
      assert HistoryFits(key, h) && RecordFits(key, h, |h| - 1) && Active(s.policies, key, h);
      KeyNamesApart(TrimSpace(p.name), TrimSpace(p.environment), TrimSpace(Latest(h).name), TrimSpace(Latest(h).environment));
      assert false;
    }
  }

  lemma CreateKeepsAligned(s: State, p: Policy, actor: string, reason: string, at: real, saved: bool)
    requires Aligned(s) && '/' !in TrimSpace(p.name) && TrimSpace(p.environment) != ""
    ensures Aligned(Create(s, p, actor, reason, at, saved).state)
  {
    if TrimSpace(actor) != "" && Refusal(s.policies, p, false).None? {
      FreshNameFreshKey(s, p);
      AppendKeepsAligned(s, KeyOf(p.name, p.environment),
                         Record(p.name, p.environment, 1, p, TrimSpace(actor), Given(TrimSpace(reason)), at), saved);
    }
  }

  /** The active policy of a name is sound, and a normalised policy of that name and
      environment belongs to its history. */
  lemma ActiveKey(s: State, n: string)
    requires Aligned(s) && n in s.policies
    ensures var key := KeyOf(n, s.policies[n].environment);
            key in s.versions && Normalize(Latest(s.versions[key])) == s.policies[n] &&
            SoundPolicy(Latest(s.versions[key])) && TrimSpace(n) == n && '/' !in n
  {
    assert Backed(s.policies, s.versions, n);
    var key := KeyOf(n, s.policies[n].environment);
    var h := s.versions[key];
    assert HistoryFits(key, h) && RecordFits(key, h, |h| - 1) && Active(s.policies, key, h);
    TrimTwice(Latest(h).name);
  }

  lemma UpdateKeepsAligned(s: State, p: Policy, actor: string, reason: string, at: real, saved: bool)
    requires Aligned(s)
    ensures Aligned(Update(s, p, actor, reason, at, saved).state)
  {
    var n := TrimSpace(p.name);
    if TrimSpace(actor) != "" && n in s.policies && s.policies[n].environment == p.environment
       && Refusal(s.policies, Normalize(p), true).None? {
      ActiveKey(s, n);
      var q := Normalize(p);
      TrimTwice(p.name);
      TrimTwice(p.environment);
      TrimTwice(p.service);
      var last := Latest(s.versions[KeyOf(n, s.policies[n].environment)]);
      TrimTwice(last.environment);
      assert TrimSpace(p.environment) == p.environment && q.environment == p.environment;
      var key := KeyOf(q.name, q.environment);
      AppendKeepsAligned(s, key,
                         Record(q.name, q.environment, |HistoryOf(s.versions, key)| + 1, q, TrimSpace(actor),
                                Given(TrimSpace(reason)), at), saved);
    }
  }

  lemma RollbackKeepsAligned(s: State, name: string, environment: string, to: int, actor: string, reason: string, at: real, saved: bool)
    requires Aligned(s)
    ensures Aligned(Rollback(s, name, environment, to, actor, reason, at, saved).state)
  {
    var key := KeyOf(name, environment);
    var h := HistoryOf(s.versions, key);
    if TrimSpace(actor) != "" && 1 <= to <= |h| && Refusal(s.policies, h[to - 1].policy, true).None? {
      RollbackTarget(s, key, to);
      AppendKeepsAligned(s, key,
                         Record(name, environment, |h| + 1, h[to - 1].policy, TrimSpace(actor),
                                RolledBack(to, TrimSpace(reason)), at), saved);
    }
  }

  /** Every version of a history has the name of the active one, which the registry holds. */
  lemma RollbackTarget(s: State, key: string, to: int)
    requires Aligned(s) && key in s.versions && 1 <= to <= |s.versions[key]|
    ensures var p := s.versions[key][to - 1].policy;
            var n := TrimSpace(p.name);
            SoundPolicy(p) && KeyOf(p.name, p.environment) == key && n in s.policies && KeyOf(n, s.policies[n].environment) == key
  {
    hide TrimSpace, KeyOf, Normalize;
    var h := s.versions[key];
    assert HistoryFits(key, h) && RecordFits(key, h, to - 1) && RecordFits(key, h, |h| - 1);
    SameKeySameName(h[to - 1].policy, Latest(h));
    KeyOfActive(s.policies, s.versions, key);
  }

  lemma SameKeySameName(p: Policy, q: Policy)
    requires SoundPolicy(p) && SoundPolicy(q) && KeyOf(p.name, p.environment) == KeyOf(q.name, q.environment)
    ensures TrimSpace(p.name) == TrimSpace(q.name)
  {
    KeyNamesApart(TrimSpace(p.name), TrimSpace(p.environment), TrimSpace(q.name), TrimSpace(q.environment));
  }

  /** Rolling back never fails on a state that a run can reach once the version exists, and
      makes version `to` active as version n + 1 on top of an unchanged history. */
  lemma RollbackRestores(s: State, name: string, environment: string, to: int, actor: string, reason: string, at: real)
    requires Aligned(s) && TrimSpace(actor) != ""
    requires 1 <= to <= |HistoryOf(s.versions, KeyOf(name, environment))|
    ensures var key := KeyOf(name, environment);
            var h := HistoryOf(s.versions, key);
            var o := Rollback(s, name, environment, to, actor, reason, at, true);
            && o.error == None
            && |o.state.versions[key]| == |h| + 1 && o.state.versions[key][..|h|] == h
            && o.state.versions[key][|h|].version == |h| + 1 && o.state.versions[key][|h|].policy == h[to - 1].policy
            && o.state.policies == s.policies[TrimSpace(h[to - 1].policy.name) := Normalize(h[to - 1].policy)]
  {
    RollbackTarget(s, KeyOf(name, environment), to);
  }

  // ---------------------------------------------------------------- whole runs

  datatype Op =
    | CreateOp(policy: Policy, actor: string, reason: string, at: real, saved: bool)
    | UpdateOp(policy: Policy, actor: string, reason: string, at: real, saved: bool)
    | RollbackOp(name: string, environment: string, to: int, actor: string, reason: string, at: real, saved: bool)

  function Apply(s: State, op: Op): Outcome {
    match op
    case CreateOp(p, actor, reason, at, saved) => Create(s, p, actor, reason, at, saved)
    case UpdateOp(p, actor, reason, at, saved) => Update(s, p, actor, reason, at, saved)
    case RollbackOp(name, env, to, actor, reason, at, saved) => Rollback(s, name, env, to, actor, reason, at, saved)
  }

  function Run(ops: seq<Op>): State {
    if ops == [] then State(map[], map[], map[]) else Apply(Run(ops[..|ops| - 1]), ops[|ops| - 1]).state
  }

  /** New policies have no '/' in their name and say which environment they are for. */
  predicate PlainOp(op: Op) {
    op.CreateOp? ==> '/' !in TrimSpace(op.policy.name) && TrimSpace(op.policy.environment) != ""
  }

  lemma {:induction false} EveryRunIsAligned(ops: seq<Op>)
    requires forall op :: op in ops ==> PlainOp(op)
    ensures Aligned(Run(ops))
  {
    if ops != [] {
      var front, last := ops[..|ops| - 1], ops[|ops| - 1];
      assert forall op :: op in front ==> op in ops;
      assert last in ops;
      EveryRunIsAligned(front);
      var s := Run(front);
      match last
      case CreateOp(p, actor, reason, at, saved) => CreateKeepsAligned(s, p, actor, reason, at, saved);
      case UpdateOp(p, actor, reason, at, saved) => UpdateKeepsAligned(s, p, actor, reason, at, saved);
      case RollbackOp(name, env, to, actor, reason, at, saved) =>
        RollbackKeepsAligned(s, name, env, to, actor, reason, at, saved);
    }
  }

  /** No operation rewrites history: every old history is a prefix of the new one. */
  lemma HistoryOnlyGrows(s: State, op: Op, key: string)
    requires key in s.versions
    ensures key in Apply(s, op).state.versions && s.versions[key] <= Apply(s, op).state.versions[key]
  {
  }

  /** Over whole runs: a version once recorded is never changed, moved or dropped. */
  lemma {:induction false} VersionsArePermanent(ops: seq<Op>, more: seq<Op>, key: string)
    requires key in Run(ops).versions
    ensures key in Run(ops + more).versions && Run(ops).versions[key] <= Run(ops + more).versions[key]
  {
    if more == [] {
      assert ops + more == ops;
    } else {
      var front, last := more[..|more| - 1], more[|more| - 1];
      assert (ops + more)[..|ops + more| - 1] == ops + front && (ops + more)[|ops + more| - 1] == last;
      VersionsArePermanent(ops, front, key);
      HistoryOnlyGrows(Run(ops + front), last, key);
    }
  }

  /** The environment default is applied to the active policy but not to the recorded one:
      a policy created without an environment is active under "prod" and filed under "". So
      creating a policy keeps registry and history aligned exactly when it names one. */
  lemma CreateAlignedIffEnvironmentGiven(s: State, p: Policy, actor: string, reason: string, at: real, saved: bool)
    requires Aligned(s) && '/' !in TrimSpace(p.name) && TrimSpace(actor) != "" && Refusal(s.policies, p, false).None?
    ensures Aligned(Create(s, p, actor, reason, at, saved).state) <==> TrimSpace(p.environment) != ""
  {
    if TrimSpace(p.environment) != "" {
      CreateKeepsAligned(s, p, actor, reason, at, saved);
    } else {
      var t := Create(s, p, actor, reason, at, saved).state;
      var key := KeyOf(p.name, p.environment);
      var h := t.versions[key];
      assert !SoundPolicy(h[|h| - 1].policy);
      assert !RecordFits(key, h, |h| - 1);
    }
  }

  // ---------------------------------------------------------------- starting again

  /** What restoring one history does to the registry. */
  function AfterRestore(now: Registry, history: seq<Record>): Registry {
    if history == [] then now
    else
      var latest := history[|history| - 1];
      if TrimSpace(latest.policyName) in now || Refusal(now, latest.policy, false).Some? then now
      else Activated(now, latest.policy)
  }

  /** Restoring the histories in the given order into an empty registry. */
  function RestoreAll(saved: Histories, order: seq<string>): Registry
    requires forall k :: k in order ==> k in saved
  {
    if order == [] then map[] else AfterRestore(RestoreAll(saved, order[..|order| - 1]), saved[order[|order| - 1]])
  }

  /** An order in which a map loop may take the histories. */
  ghost predicate IsOrder(saved: Histories, order: seq<string>) {
    Lists(order, saved.Keys)
  }

  lemma RestoreSnoc(saved: Histories, order: seq<string>, key: string)
    requires (forall k :: k in order ==> k in saved) && key in saved
    ensures (forall k :: k in order + [key] ==> k in saved) &&
            RestoreAll(saved, order + [key]) == AfterRestore(RestoreAll(saved, order), saved[key])
  {
    assert (order + [key])[..|order|] == order;
  }

  /** NewPolicyVersioner on an empty registry: the saved histories come in any order, and if
      they belong to a set of active policies, exactly these are active again. */
  method Rebuild(saved: Histories, ghost active: Registry) returns (registry: RouteRegistry)
    ensures fresh(registry)
    ensures exists order :: IsOrder(saved, order) && registry.policies == RestoreAll(saved, order)
    ensures AlignedWith(active, saved) ==> registry.policies == active
  {
    registry := new RouteRegistry();
    var todo := saved.Keys;
    ghost var order: seq<string>, done: set<string> := [], {};
    assert Lists(order, done) && Restored(map[], active, saved, done) && RestoreAll(saved, order) == map[];
    hide AlignedWith, Restored, AfterRestore, Lists;
    while todo != {}
      invariant todo <= saved.Keys && fresh(registry) && Lists(order, done)
      invariant forall k :: k in done <==> k in saved && k !in todo
      invariant (forall k :: k in order ==> k in saved) && registry.policies == RestoreAll(saved, order)
      invariant AlignedWith(active, saved) ==> Restored(registry.policies, active, saved, done)
      decreases |todo|
    {
      var key :| key in todo;
      if AlignedWith(active, saved) { RestoreStep(registry.policies, active, saved, done, key); }
      RestoreOne(registry, saved[key]);
      todo := todo - {key};
      RestoreSnoc(saved, order, key);
      ListsOneMore(order, done, key);
      order, done := order + [key], done + {key};
    }
    assert done == saved.Keys;
    if AlignedWith(active, saved) { RestoredAll(registry.policies, active, saved); }
  }

  method RestoreOne(registry: RouteRegistry, history: seq<Record>)
    modifies registry
    ensures registry.policies == AfterRestore(old(registry.policies), history)
  {
    if history == [] {
      return;
    }
    var latest := history[|history| - 1];
    var existing := registry.GetPolicy(latest.policyName);
    if existing.None? {
      var _ := registry.RegisterPolicy(latest.policy);
    }
  }

  /** Exactly the active policies of the histories in `done` are back. */
  ghost predicate Restored(now: Registry, active: Registry, saved: Histories, done: set<string>) {
    (forall n :: n in now ==> n in active && now[n] == active[n] && KeyOf(n, active[n].environment) in done) &&
    forall key :: key in done && key in saved && saved[key] != [] ==> TrimSpace(Latest(saved[key]).name) in now
  }

  lemma NotYetRestored(now: Registry, active: Registry, saved: Histories, done: set<string>, key: string)
    requires AlignedWith(active, saved) && Restored(now, active, saved, done) && key in saved && key !in done
    ensures saved[key] != [] && TrimSpace(saved[key][|saved[key]| - 1].policyName) !in now
  {
    hide TrimSpace;
    var h := saved[key];
    assert HistoryFits(key, h) && RecordFits(key, h, |h| - 1);
    var latest := h[|h| - 1];
    var m := TrimSpace(latest.policyName);
    if m in now {
      ActiveKey(State(active, saved, saved), m);
      KeyOfActive(active, saved, key);
      KeyNamesApart(m, TrimSpace(latest.environment), TrimSpace(latest.policy.name), TrimSpace(latest.policy.environment));
    }
  }

  lemma RestoreStep(now: Registry, active: Registry, saved: Histories, done: set<string>, key: string)
    requires AlignedWith(active, saved) && Restored(now, active, saved, done) && key in saved && key !in done
    ensures Restored(AfterRestore(now, saved[key]), active, saved, done + {key})
  {
    hide TrimSpace, KeyOf, Normalize;
    var h := saved[key];
    NotYetRestored(now, active, saved, done, key);
    assert HistoryFits(key, h) && RecordFits(key, h, |h| - 1) && Active(active, key, h);
    KeyOfActive(active, saved, key);
    var n := TrimSpace(Latest(h).name);
    assert n !in now && active[n] == Normalize(Latest(h));
    var next := AfterRestore(now, h);
    assert next == now[n := active[n]];
    forall k | k in done + {key} && k in saved && saved[k] != [] ensures TrimSpace(Latest(saved[k]).name) in next {
      if k != key { assert TrimSpace(Latest(saved[k]).name) in now; }
    }
  }

  lemma BackIn(now: Registry, active: Registry, saved: Histories, n: string)
    requires AlignedWith(active, saved) && Restored(now, active, saved, saved.Keys) && n in active
    ensures n in now
  {
    hide TrimSpace, KeyOf, Normalize, HistoryFits, Active;
    assert Backed(active, saved, n);
    var key := KeyOf(n, active[n].environment);
    assert key in saved.Keys && TrimSpace(Latest(saved[key]).name) in now;
  }

  lemma RestoredAll(now: Registry, active: Registry, saved: Histories)
    requires AlignedWith(active, saved) && Restored(now, active, saved, saved.Keys)
    ensures now == active
  {
    hide AlignedWith, TrimSpace, KeyOf;
    forall n | n in active ensures n in now { BackIn(now, active, saved, n); }
  }

  /** Histories determine the active policies. */
  lemma HistoriesDetermineRegistry(versions: Histories, p: Registry, q: Registry)
    requires AlignedWith(p, versions) && AlignedWith(q, versions)
    ensures p == q
  {
    forall n | n in p ensures n in q && q[n] == p[n] { SameActive(versions, p, q, n); }
    forall n | n in q ensures n in p { SameActive(versions, q, p, n); }
    assert p.Keys == q.Keys;
  }

  lemma SameActive(versions: Histories, p: Registry, q: Registry, n: string)
    requires AlignedWith(p, versions) && AlignedWith(q, versions) && n in p
    ensures n in q && q[n] == p[n]
  {
    ActiveKey(State(p, versions, versions), n);
    var key := KeyOf(n, p[n].environment);
    assert Backed(p, versions, n) && Active(q, key, versions[key]);
  }

  /** After any run whose last save went through, a restart from what was saved brings the
      very same active policies back. */
  method RestartAfterRun(ghost ops: seq<Op>, saved: Histories) returns (registry: RouteRegistry)
    requires forall op :: op in ops ==> PlainOp(op)
    requires saved == Run(ops).stored == Run(ops).versions
    ensures registry.policies == Run(ops).policies
  {
    EveryRunIsAligned(ops);
    registry := Rebuild(saved, Run(ops).policies);
  }
}
