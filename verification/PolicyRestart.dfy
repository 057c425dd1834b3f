/** What a restart brings back when one policy name has several histories (NewPolicyVersioner
    in pkg/runtime/policy_versioning.go takes the saved histories in map order). */
module PolicyRestart {
  import opened GoStrings
  import opened KeyOrders
  import opened Policies

  /** A record of a policy without '/' in its name, filed under the key of that policy. */
  predicate FiledRecord(key: string, r: Record) {
    && TrimSpace(r.policy.name) != "" && '/' !in TrimSpace(r.policy.name) && TrimSpace(r.policy.service) != ""
    && KeyOf(r.policyName, r.environment) == key && KeyOf(r.policy.name, r.policy.environment) == key
  }

  predicate FiledHistory(key: string, h: seq<Record>) {
    h != [] && forall i :: 0 <= i < |h| ==> FiledRecord(key, h[i])
  }

  ghost predicate Filed(saved: Histories) {
    forall key :: key in saved ==> FiledHistory(key, saved[key])
  }

  function NameOf(h: seq<Record>): string
    requires h != []
  {
    TrimSpace(Latest(h).name)
  }

  /** Names in the registry hold no '/'. */
  predicate PlainNames(now: Registry) {
    forall n :: n in now ==> '/' !in n
  }

  /** A history is restored exactly if its name is not there yet. */
  lemma RestoresIfNew(now: Registry, key: string, h: seq<Record>)
    requires FiledHistory(key, h) && PlainNames(now)
    ensures AfterRestore(now, h) == if NameOf(h) in now then now else now[NameOf(h) := Normalize(Latest(h))]
    ensures PlainNames(AfterRestore(now, h))
  {
    hide TrimSpace, Normalize;
    var r := h[|h| - 1];
    assert FiledRecord(key, r);
    if '/' !in TrimSpace(r.policyName) {
      KeyNamesApart(TrimSpace(r.policyName), TrimSpace(r.environment), TrimSpace(r.policy.name), TrimSpace(r.policy.environment));
    }
  }

  /** The first key in the order whose history has the name. */
  function FirstOf(saved: Histories, order: seq<string>, n: string): (r: Option<string>)
    requires forall k :: k in order ==> k in saved && saved[k] != []
    ensures r.Some? ==> r.value in order && NameOf(saved[r.value]) == n
    ensures r.None? ==> forall k :: k in order ==> NameOf(saved[k]) != n
    ensures order != [] && NameOf(saved[order[0]]) == n ==> r == Some(order[0])
  {
    if order == [] then None
    else if NameOf(saved[order[0]]) == n then Some(order[0])
    else FirstOf(saved, order[1..], n)
  }

  lemma {:induction false} FirstOfSnoc(saved: Histories, front: seq<string>, key: string, n: string)
    requires forall k :: k in front + [key] ==> k in saved && saved[k] != []
    requires forall k :: k in front ==> k in saved && saved[k] != []
    ensures FirstOf(saved, front + [key], n) ==
            if FirstOf(saved, front, n).Some? then FirstOf(saved, front, n) else if NameOf(saved[key]) == n then Some(key) else None
  {
    hide NameOf;
    if front == [] {
      assert [] + [key] == [key] && [key][1..] == [];
    } else {
      assert (front + [key])[1..] == front[1..] + [key];
      FirstOfSnoc(saved, front[1..], key, n);
    }
  }

  lemma FiledAll(saved: Histories, order: seq<string>)
    requires Filed(saved) && forall k :: k in order ==> k in saved
    ensures forall k :: k in order ==> k in saved && saved[k] != []
  {
    forall k | k in order ensures saved[k] != [] { assert FiledHistory(k, saved[k]); }
  }

  predicate Holds(now: Registry, n: string, saved: Histories, key: Option<string>)
    requires key.Some? ==> key.value in saved && saved[key.value] != []
  {
    if key.None? then n !in now else n in now && now[n] == Normalize(Latest(saved[key.value]))
  }

  /** The first history of each name in the order is the one that is restored. */
  lemma {:induction false} FirstWins(saved: Histories, order: seq<string>, n: string)
    requires Filed(saved) && (forall k :: k in order ==> k in saved) && forall k :: k in order ==> k in saved && saved[k] != []
    ensures PlainNames(RestoreAll(saved, order))
    ensures Holds(RestoreAll(saved, order), n, saved, FirstOf(saved, order, n))
  {
    hide TrimSpace, Normalize, FiledHistory, AfterRestore, FirstOf, NameOf;
    if order == [] {
      NothingFirst(saved, n);
    } else {
      var front, key := order[..|order| - 1], order[|order| - 1];
      assert forall k :: k in front ==> k in order;
      assert order == front + [key];
      FirstWins(saved, front, n);
      FirstOfSnoc(saved, front, key, n);
      assert FiledHistory(key, saved[key]);
      RestoresIfNew(RestoreAll(saved, front), key, saved[key]);
    }
  }

  lemma NothingFirst(saved: Histories, n: string)
    ensures FirstOf(saved, [], n) == None
  {
  }

  /** The registry holds the names of the histories and no others. */
  ghost predicate NamesMatch(policies: Registry, versions: Histories) {
    (forall key :: key in versions ==> versions[key] != [] && NameOf(versions[key]) in policies) &&
    forall n :: n in policies ==> exists key :: key in versions && versions[key] != [] && NameOf(versions[key]) == n
  }

  /** A restart brings the active policies back, whatever the map order, exactly when the last
      record of every history is the active policy of its name. */
  lemma RestartFaithfulIff(policies: Registry, saved: Histories)
    requires Filed(saved) && NamesMatch(policies, saved)
    ensures (forall order :: IsOrder(saved, order) ==> RestoreAll(saved, order) == policies) <==>
            forall key :: key in saved ==> Normalize(Latest(saved[key])) == policies[NameOf(saved[key])]
  {
    hide TrimSpace, Normalize, Filed, RestoreAll;
    if forall key :: key in saved ==> Normalize(Latest(saved[key])) == policies[NameOf(saved[key])] {
      forall order | IsOrder(saved, order) ensures RestoreAll(saved, order) == policies {
        RestoredIsActive(policies, saved, order);
      }
    }
    if forall order :: IsOrder(saved, order) ==> RestoreAll(saved, order) == policies {
      forall key | key in saved ensures Normalize(Latest(saved[key])) == policies[NameOf(saved[key])] {
        var order := OrderFrom(saved.Keys, key);
        FiledAll(saved, order);
        FirstWins(saved, order, NameOf(saved[key]));
      }
    }
  }

  lemma RestoredIsActive(policies: Registry, saved: Histories, order: seq<string>)
    requires Filed(saved) && NamesMatch(policies, saved) && IsOrder(saved, order)
    requires forall key :: key in saved ==> Normalize(Latest(saved[key])) == policies[NameOf(saved[key])]
    ensures RestoreAll(saved, order) == policies
  {
    hide TrimSpace, Normalize, Filed, RestoreAll, NameOf, FirstOf;
    FiledAll(saved, order);
    var now := RestoreAll(saved, order);
    forall n ensures n in now <==> n in policies {
      FirstWins(saved, order, n);
      if n in policies { var key :| key in saved && saved[key] != [] && NameOf(saved[key]) == n; }
    }
    forall n | n in now ensures now[n] == policies[n] { FirstWins(saved, order, n); }
  }

  // ---------------------------------------------------------------- every run without '/' in new names

  ghost predicate Kept(s: State) {
    Filed(s.versions) && PlainNames(s.policies) && NamesMatch(s.policies, s.versions)
  }

  predicate SlashlessOp(op: Op) {
    op.CreateOp? ==> '/' !in TrimSpace(op.policy.name)
  }

  lemma FiledGrows(versions: Histories, key: string, r: Record)
    requires Filed(versions) && FiledRecord(key, r)
    ensures Filed(versions[key := HistoryOf(versions, key) + [r]])
  {
    hide FiledRecord;
    assert key in versions ==> FiledHistory(key, versions[key]);
    var h := HistoryOf(versions, key) + [r];
    assert FiledHistory(key, h);
  }

  lemma NamesGrow(policies: Registry, versions: Histories, key: string, h: seq<Record>, p: Policy)
    requires NamesMatch(policies, versions) && h != [] && (key in versions ==> NameOf(versions[key]) == NameOf(h))
    ensures NamesMatch(policies[NameOf(h) := p], versions[key := h])
  {
    hide NameOf;
    var n, ps, vs := NameOf(h), policies[NameOf(h) := p], versions[key := h];
    forall m | m in ps ensures exists k :: k in vs && vs[k] != [] && NameOf(vs[k]) == m {
      if m == n {
        assert NameOf(vs[key]) == m;
      } else {
        var k :| k in versions && versions[k] != [] && NameOf(versions[k]) == m;
        assert k != key && vs[k] == versions[k];
      }
    }
  }

  lemma AppendKeeps(s: State, key: string, r: Record, saved: bool)
    requires Kept(s) && FiledRecord(key, r)
    requires key in s.versions ==> NameOf(s.versions[key]) == TrimSpace(r.policy.name)
    ensures Kept(Appended(s, Activated(s.policies, r.policy), key, r, saved).state)
  {
    hide TrimSpace, Normalize, KeyOf, Filed, NamesMatch;
    var h := HistoryOf(s.versions, key) + [r];
    assert NameOf(h) == TrimSpace(r.policy.name);
    FiledGrows(s.versions, key, r);
    NamesGrow(s.policies, s.versions, key, h, Normalize(r.policy));
  }

  /** Records of one key have one name. */
  lemma OneName(key: string, h: seq<Record>, i: nat, j: nat)
    requires FiledHistory(key, h) && i < |h| && j < |h|
    ensures TrimSpace(h[i].policy.name) == TrimSpace(h[j].policy.name)
  {
    hide TrimSpace;
    assert FiledRecord(key, h[i]) && FiledRecord(key, h[j]);
    KeyNamesApart(TrimSpace(h[i].policy.name), TrimSpace(h[i].policy.environment),
                  TrimSpace(h[j].policy.name), TrimSpace(h[j].policy.environment));
  }

  lemma KeyHasOneName(s: State, key: string, name: string, environment: string)
    requires Kept(s) && key in s.versions && '/' !in TrimSpace(name) && KeyOf(name, environment) == key
    ensures NameOf(s.versions[key]) == TrimSpace(name)
  {
    hide TrimSpace;
    var h := s.versions[key];
    assert FiledHistory(key, h) && FiledRecord(key, h[|h| - 1]);
    KeyNamesApart(TrimSpace(name), TrimSpace(environment), TrimSpace(Latest(h).name), TrimSpace(Latest(h).environment));
  }

  lemma CreateKeeps(s: State, p: Policy, actor: string, reason: string, at: real, saved: bool)
    requires Kept(s) && '/' !in TrimSpace(p.name)
    ensures Kept(Create(s, p, actor, reason, at, saved).state)
  {
    hide TrimSpace, KeyOf, Normalize, Kept;
    if TrimSpace(actor) != "" && Refusal(s.policies, p, false).None? {
      var key := KeyOf(p.name, p.environment);
      if key in s.versions { KeyHasOneName(s, key, p.name, p.environment); }
      AppendKeeps(s, key, Record(p.name, p.environment, 1, p, TrimSpace(actor), Given(TrimSpace(reason)), at), saved);
    }
  }

  lemma UpdateKeeps(s: State, p: Policy, actor: string, reason: string, at: real, saved: bool)
    requires Kept(s)
    ensures Kept(Update(s, p, actor, reason, at, saved).state)
  {
    var q := Normalize(p);
    TrimTwice(p.name);
    assert q.name == TrimSpace(p.name) == TrimSpace(q.name);
    if Update(s, p, actor, reason, at, saved).state != s {
      hide TrimSpace, KeyOf, Normalize;
      assert '/' !in q.name;
      var key := KeyOf(q.name, q.environment);
      if key in s.versions { KeyHasOneName(s, key, q.name, q.environment); }
      AppendKeeps(s, key,
                  Record(q.name, q.environment, |HistoryOf(s.versions, key)| + 1, q, TrimSpace(actor),
                         Given(TrimSpace(reason)), at), saved);
    }
  }

  lemma RollbackKeeps(s: State, name: string, environment: string, to: int, actor: string, reason: string, at: real, saved: bool)
    requires Kept(s)
    ensures Kept(Rollback(s, name, environment, to, actor, reason, at, saved).state)
  {
    hide TrimSpace, KeyOf, Normalize;
    var key := KeyOf(name, environment);
    var h := HistoryOf(s.versions, key);
    if Rollback(s, name, environment, to, actor, reason, at, saved).state != s {
      assert FiledHistory(key, h) && FiledRecord(key, h[to - 1]);
      OneName(key, h, to - 1, |h| - 1);
      AppendKeeps(s, key,
                  Record(name, environment, |h| + 1, h[to - 1].policy, TrimSpace(actor),
                         RolledBack(to, TrimSpace(reason)), at), saved);
    }
  }

  lemma {:induction false} EveryRunKeeps(ops: seq<Op>)
    requires forall op :: op in ops ==> SlashlessOp(op)
    ensures Kept(Run(ops))
  {
    if ops != [] {
      var front, last := ops[..|ops| - 1], ops[|ops| - 1];
      assert forall op :: op in front ==> op in ops;
      assert last in ops;
      EveryRunKeeps(front);
      match last
      case CreateOp(p, actor, reason, at, saved) => CreateKeeps(Run(front), p, actor, reason, at, saved);
      case UpdateOp(p, actor, reason, at, saved) => UpdateKeeps(Run(front), p, actor, reason, at, saved);
      case RollbackOp(name, env, to, actor, reason, at, saved) =>
        RollbackKeeps(Run(front), name, env, to, actor, reason, at, saved);
    }
  }

  /** Over every run, policies without an environment included: a restart from the histories
      brings the active policies back in every map order exactly when each history ends with the
      active policy of its name. */
  lemma RestartAfterRunIff(ops: seq<Op>)
    requires forall op :: op in ops ==> SlashlessOp(op)
    ensures var s := Run(ops);
            && Filed(s.versions) && NamesMatch(s.policies, s.versions)
            && ((forall order :: IsOrder(s.versions, order) ==> RestoreAll(s.versions, order) == s.policies) <==>
                forall key :: key in s.versions ==> Normalize(Latest(s.versions[key])) == s.policies[NameOf(s.versions[key])])
  {
    EveryRunKeeps(ops);
    RestartFaithfulIff(Run(ops).policies, Run(ops).versions);
  }

  lemma KeysOfSplit(p: Policy, q: Policy)
    requires TrimSpace(p.environment) == "" && q.environment == "prod" && TrimSpace(q.name) == TrimSpace(p.name)
    ensures var n, r := TrimSpace(p.name), Normalize(q);
            && KeyOf(p.name, p.environment) == n + "/" && KeyOf(r.name, r.environment) == n + "/prod"
            && r.name == n && TrimSpace(n) == n && TrimSpace(r.service) == TrimSpace(q.service) && Normalize(p).environment == "prod"
  {
    assert !IsSpace('p') && !IsSpace('d');
    assert TrimSpace("prod") == "prod";
    TrimTwice(p.name);
    TrimTwice(q.service);
    assert TrimSpace(p.name) + "/" + "" == TrimSpace(p.name) + "/";
  }

  lemma AfterCreate(p: Policy, actor: string, reason: string, at: real, key: string)
    requires TrimSpace(p.name) != "" && TrimSpace(p.service) != "" && TrimSpace(actor) != "" && key == KeyOf(p.name, p.environment)
    ensures var s := Create(State(map[], map[], map[]), p, actor, reason, at, true).state;
            && s.policies == map[TrimSpace(p.name) := Normalize(p)]
            && s.versions.Keys == {key} && |s.versions[key]| == 1 && Latest(s.versions[key]) == p
  {
    hide TrimSpace, KeyOf, Normalize;
  }

  lemma AfterUpdate(s: State, q: Policy, actor: string, reason: string, at: real, key: string)
    requires TrimSpace(actor) != "" && TrimSpace(q.name) in s.policies && s.policies[TrimSpace(q.name)].environment == q.environment
    requires var r := Normalize(q);
             && TrimSpace(r.name) == TrimSpace(q.name) != "" && TrimSpace(r.service) != ""
             && KeyOf(r.name, r.environment) == key && key !in s.versions && Normalize(r) == r
    ensures var t := Update(s, q, actor, reason, at, true).state;
            && t.policies == s.policies[TrimSpace(q.name) := Normalize(q)]
            && t.versions.Keys == s.versions.Keys + {key} && |t.versions[key]| == 1 && Latest(t.versions[key]) == Normalize(q)
            && forall k :: k in s.versions ==> t.versions[k] == s.versions[k]
  {
    hide TrimSpace, KeyOf, Normalize;
  }

  lemma RunOfTwo(c: Op, u: Op)
    ensures Run([c, u]) == Apply(Apply(State(map[], map[], map[]), c).state, u).state
  {
    assert [c, u][..1] == [c] && [c][..0] == [];
    assert Run([]) == State(map[], map[], map[]);
    assert Run([c]) == Apply(Run([]), c).state;
  }

  /** A policy created without an environment and then updated for "prod" has two histories, and a
      restart that takes them in creation order brings the old policy back. */
  lemma RestartCanRevert(p: Policy, q: Policy, actor: string, reason: string, at: real)
    requires TrimSpace(p.environment) == "" && q.environment == "prod" && TrimSpace(q.name) == TrimSpace(p.name) != ""
    requires '/' !in TrimSpace(p.name) && TrimSpace(p.service) != "" && TrimSpace(q.service) != "" && TrimSpace(actor) != ""
    ensures var n, s := TrimSpace(p.name), Run([CreateOp(p, actor, reason, at, true), UpdateOp(q, actor, reason, at, true)]);
            var order := [n + "/", n + "/prod"];
            && s.policies == map[n := Normalize(q)] && IsOrder(s.versions, order)
            && RestoreAll(s.versions, order) == map[n := Normalize(p)]
  {
    var c, u := CreateOp(p, actor, reason, at, true), UpdateOp(q, actor, reason, at, true);
    var n := TrimSpace(p.name);
    var first, second := n + "/", n + "/prod";
    assert |first| != |second|;
    hide *;
    TwoSteps(p, q, actor, reason, at, n, first, second);
    EveryRunKeeps([c, u]);
    SplitRestores(Run([c, u]), p, n, first, second);
  }

  lemma UpdatedName(q: Policy, n: string)
    requires TrimSpace(q.name) == n
    ensures TrimSpace(Normalize(q).name) == n
  {
    TrimTwice(q.name);
  }

  lemma TwoSteps(p: Policy, q: Policy, actor: string, reason: string, at: real, n: string, first: string, second: string)
    requires TrimSpace(p.environment) == "" && q.environment == "prod" && TrimSpace(q.name) == TrimSpace(p.name) == n != ""
    requires TrimSpace(p.service) != "" && TrimSpace(q.service) != "" && TrimSpace(actor) != ""
    requires first == n + "/" && second == n + "/prod" && first != second
    ensures var s := Run([CreateOp(p, actor, reason, at, true), UpdateOp(q, actor, reason, at, true)]);
            && s.policies == map[n := Normalize(q)] && s.versions.Keys == {first, second}
            && s.versions[first] != [] && Latest(s.versions[first]) == p
            && s.versions[second] != [] && Latest(s.versions[second]) == Normalize(q) && NameOf(s.versions[second]) == n
  {
    var c, u := CreateOp(p, actor, reason, at, true), UpdateOp(q, actor, reason, at, true);
    hide TrimSpace, KeyOf, Normalize, Create, Update, Run;
    RunOfTwo(c, u);
    KeysOfSplit(p, q);
    NormalizeTwice(q);
    AfterCreate(p, actor, reason, at, first);
    var s1 := Create(State(map[], map[], map[]), p, actor, reason, at, true).state;
    assert Apply(State(map[], map[], map[]), c).state == s1;
    hide *;
    AfterUpdate(s1, q, actor, reason, at, second);
    UpdatedName(q, n);
  }

  lemma SplitRestores(s: State, p: Policy, n: string, first: string, second: string)
    requires Kept(s) && s.versions.Keys == {first, second} && first != second && TrimSpace(p.name) == n
    requires s.versions[first] != [] && s.versions[second] != [] && Latest(s.versions[first]) == p && NameOf(s.versions[second]) == n
    ensures IsOrder(s.versions, [first, second])
    ensures RestoreAll(s.versions, [first, second]) == map[n := Normalize(p)]
  {
    hide TrimSpace, Normalize, RestoreAll, Filed;
    RestoresBoth(s.versions, first, second, n);
  }

  lemma RestoresBoth(saved: Histories, first: string, second: string, n: string)
    requires Filed(saved) && first in saved && second in saved && saved[first] != [] && saved[second] != []
    requires NameOf(saved[first]) == n == NameOf(saved[second])
    ensures RestoreAll(saved, [first, second]) == map[n := Normalize(Latest(saved[first]))]
  {
    hide TrimSpace, Normalize, NameOf;
    var now := RestoreAll(saved, [first, second]);
    forall m ensures m in now <==> m == n { FirstWins(saved, [first, second], m); }
    FirstWins(saved, [first, second], n);
  }
}
