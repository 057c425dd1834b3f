/** Which manifests the deployment ledger takes (pkg/runtime/governance.go), said with the manifests
    themselves. */
module LedgerRules {
  import opened GoStrings
  import opened Deployments
  import Policies

  /** Guarded as production is meant to be. */
  predicate ProductionReady(p: Policies.Policy) {
    p.requireSigned && p.requireAudit && p.slo.Some? && p.allowedTenants != [] && p.allowedRegions != []
  }

  predicate OwnPolicy(m: Manifest) {
    (m.policy.environment == "" || m.policy.environment == m.environment) && (m.policy.service == "" || m.policy.service == m.service)
  }

  predicate Acceptable(m: Manifest) {
    && TrimSpace(m.service) != "" && TrimSpace(m.environment) != ""
    && OwnPolicy(m) && m.audit != []
    && (m.policy.requireSigned || m.policy.requireAudit ==> m.policy.slo.Some?)
    && (m.environment == "prod" ==> ProductionReady(m.policy))
  }

  predicate VersionKnown(s: State, m: Manifest) {
    var service, env := TrimSpace(m.service), TrimSpace(m.environment);
    service in s.history && env in s.history[service] &&
    exists i :: 0 <= i < |s.history[service][env]| && s.history[service][env][i].version == m.version
  }

  /** A manifest is taken iff it keeps the rules and its version is free; what is filed is the manifest
      with its policy named for its own environment and service. */
  lemma AcceptedIff(s: State, m: Manifest)
    ensures Record(s, m).error == None <==> Acceptable(m) && !VersionKnown(s, m)
    ensures Record(s, m).error == None ==>
              var f := Record(s, m).manifest;
              f == m.(policy := m.policy.(environment := m.environment, service := m.service))
  {
    hide TrimSpace;
    var service, env := TrimSpace(m.service), TrimSpace(m.environment);
    BlankStaysBlank(m.service);
    BlankStaysBlank(m.environment);
    TakenIff(s, service, env, m.version);
  }

  lemma BlankStaysBlank(s: string)
    ensures s == "" ==> TrimSpace(s) == ""
  {
  }

  lemma TakenIff(s: State, service: string, env: string, version: string)
    ensures Taken(s, service, env, version) <==>
            service in s.history && env in s.history[service] &&
            exists i :: 0 <= i < |s.history[service][env]| && s.history[service][env][i].version == version
  {
    assert forall e :: e in HistoryOf(s.history, service, env) ==>
             exists i :: 0 <= i < |HistoryOf(s.history, service, env)| && HistoryOf(s.history, service, env)[i] == e;
  }

  // ---------------------------------------------------------------- over whole runs

  ghost predicate Filed(ms: seq<Manifest>, service: string, env: string, m: Manifest) {
    service in Run(ms).history && env in Run(ms).history[service] && m in Run(ms).history[service][env]
  }

  /** The manifests for one service and environment that are filed when these are offered: each that
      keeps the rules and brings a version not filed there yet, in the order of the offers. */
  function Expected(ms: seq<Manifest>, service: string, env: string): seq<Manifest> {
    if ms == [] then []
    else
      var earlier, m := Expected(ms[..|ms| - 1], service, env), ms[|ms| - 1];
      if TrimSpace(m.service) == service && TrimSpace(m.environment) == env && Acceptable(m)
         && (forall i :: 0 <= i < |earlier| ==> earlier[i].version != m.version)
      then earlier + [m.(policy := m.policy.(environment := m.environment, service := m.service))] else earlier
  }

  lemma OneOffer(s: State, m: Manifest, service: string, env: string)
    ensures var here := TrimSpace(m.service) == service && TrimSpace(m.environment) == env;
            var h := HistoryOf(s.history, service, env);
            HistoryOf(Record(s, m).state.history, service, env) ==
            if here && Acceptable(m) && (forall i :: 0 <= i < |h| ==> h[i].version != m.version)
            then h + [m.(policy := m.policy.(environment := m.environment, service := m.service))] else h
  {
    AcceptedIff(s, m);
    hide TrimSpace, Acceptable, Guarded, Named, Filled;
  }

  /** After any offers the ledger's history of a service and environment is just that, and its active
      manifest the last of it. */
  lemma HistoryIsAsExpected(ms: seq<Manifest>, service: string, env: string)
    ensures HistoryOf(Run(ms).history, service, env) == Expected(ms, service, env)
    ensures var h := Expected(ms, service, env);
            if h == [] then !(service in Run(ms).current && env in Run(ms).current[service])
            else service in Run(ms).current && env in Run(ms).current[service] && Run(ms).current[service][env] == h[|h| - 1]
  {
    HistoryIs(ms, service, env);
    EveryLedgerIsSound(ms);
    ActiveIsLast(Run(ms), service, env);
  }

  lemma {:induction false} HistoryIs(ms: seq<Manifest>, service: string, env: string)
    ensures HistoryOf(Run(ms).history, service, env) == Expected(ms, service, env)
  {
    if ms != [] {
      var front, m := ms[..|ms| - 1], ms[|ms| - 1];
      HistoryIs(front, service, env);
      hide TrimSpace, Acceptable, HistoryOf, Record;
      OneOffer(Run(front), m, service, env);
    }
  }

  lemma ActiveIsLast(s: State, service: string, env: string)
    requires Sound(s)
    ensures var h := HistoryOf(s.history, service, env);
            if h == [] then !(service in s.current && env in s.current[service])
            else service in s.current && env in s.current[service] && s.current[service][env] == h[|h| - 1]
  {
    hide ListFits;
    if service in s.current.Keys {
      assert ServiceFits(s.current[service], s.history[service], service);
      if env in s.current[service].Keys { assert EntryFits(s.current[service][env], s.history[service][env], service, env); }
    }
  }

  /** Whatever manifests are offered, each one filed belongs where it is filed, has an audit trail, a
      policy of its own environment and service, an SLO if it asks for signing or audit, and the
      production guardrails if it spells its environment "prod". */
  lemma EveryEntryKeepsTheRules(ms: seq<Manifest>, service: string, env: string, m: Manifest)
    requires Filed(ms, service, env, m)
    ensures TrimSpace(m.service) == service && TrimSpace(m.environment) == env
    ensures m.policy.environment == m.environment && m.policy.service == m.service && m.audit != []
    ensures m.policy.requireSigned || m.policy.requireAudit ==> m.policy.slo.Some?
    ensures m.environment == "prod" ==> ProductionReady(m.policy)
  {
    hide Sound, Run, TrimSpace;
    EveryLedgerIsSound(ms);
    EntryOfSound(Run(ms), service, env, m);
  }

  lemma EntryOfSound(s: State, service: string, env: string, m: Manifest)
    requires Sound(s) && service in s.history && env in s.history[service] && m in s.history[service][env]
    ensures Fits(m, service, env)
  {
    hide Fits;
    assert service in s.current.Keys;
    assert ServiceFits(s.current[service], s.history[service], service);
    assert env in s.current[service].Keys;
    assert EntryFits(s.current[service][env], s.history[service][env], service, env);
  }

  /** The rule looks at the spelling and the ledger files by the trimmed one: of all spellings that are
      filed under "prod", exactly "prod" itself is always guarded. */
  lemma GuardedIffSpelledProd(spelling: string)
    requires TrimSpace(spelling) == "prod"
    ensures (forall ms, service, m :: Filed(ms, service, "prod", m) && m.environment == spelling ==> ProductionReady(m.policy)) <==>
            spelling == "prod"
  {
    if spelling == "prod" {
      forall ms, service, m | Filed(ms, service, "prod", m) && m.environment == spelling ensures ProductionReady(m.policy) {
        EveryEntryKeepsTheRules(ms, service, "prod", m);
      }
    } else {
      var m := Unguarded(spelling, "api");
      FiledFirst(m, "api");
      assert Filed([m], "api", "prod", m) && !ProductionReady(m.policy);
    }
  }

  // Such spellings exist.
  lemma SpacedProd()
    ensures TrimSpace(" prod") == "prod" && " prod" != "prod"
  {
    assert " prod"[0] == ' ' && " prod"[1..] == "prod";
    assert !IsSpace('p') && !IsSpace('d');
  }

  /** A manifest without any guardrail. */
  function Unguarded(environment: string, service: string): Manifest {
    Manifest(environment, service, "1", Policies.Policy("", environment, service, [], [], false, false, None), ["created"], 0.0)
  }

  lemma FiledFirst(m: Manifest, service: string)
    requires Acceptable(m) && TrimSpace(m.service) == service && m.policy.environment == m.environment && m.policy.service == m.service
    ensures Filed([m], service, TrimSpace(m.environment), m)
  {
    hide TrimSpace;
    var none := Run([]);
    AcceptedIff(none, m);
    assert [m][..0] == [] && Run([m]) == Record(none, m).state;
  }
}
