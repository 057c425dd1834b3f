/** The per-tenant quota as callers see it (pkg/runtime/tenant.go): requests as they come in, each with
    what its context and its header say about the tenant. */
module QuotaCallers {
  import opened GoStrings
  import opened TenantQuota

  datatype Incoming = Incoming(context: string, header: string, at: real)

  /** The tenant is the one in the context; only a request without one there is charged to its header's. */
  predicate ChargedTo(r: Incoming, t: string) {
    t != "" && (TrimSpace(r.context) == t || (TrimSpace(r.context) == "" && TrimSpace(r.header) == t))
  }

  /** How many requests charged to a tenant passed after the cutoff: those that found fewer than `limit`
      such ones in the window ending with them. */
  function PassedFor(q: Quota, past: seq<Incoming>, t: string, cutoff: real): nat
    decreases |past|
  {
    if past == [] then 0
    else
      var front, last := past[..|past| - 1], past[|past| - 1];
      PassedFor(q, front, t, cutoff) +
      if ChargedTo(last, t) && last.at > cutoff && PassedFor(q, front, t, last.at - q.window) < q.limit then 1 else 0
  }

  /** What the rule says about a request. */
  ghost predicate Right(q: Quota, past: seq<Incoming>, r: Incoming, answer: Outcome) {
    if q.limit <= 0 || q.window <= 0.0 then answer == Passed
    else if TrimSpace(r.context) == "" && TrimSpace(r.header) == "" then answer == TenantRequired
    else exists t :: ChargedTo(r, t) && answer == if PassedFor(q, past, t, r.at - q.window) < q.limit then Passed else QuotaExceeded
  }

  predicate InOrder(rs: seq<Incoming>) {
    forall i, j :: 0 <= i <= j < |rs| ==> rs[i].at <= rs[j].at
  }

  /** The requests that say who they are. */
  function Named(rs: seq<Incoming>): seq<Request> {
    if rs == [] then []
    else
      var front, last := Named(rs[..|rs| - 1]), rs[|rs| - 1];
      if TenantOf(last.context, last.header) == "" then front else front + [Request(TenantOf(last.context, last.header), last.at)]
  }

  lemma ChargedIff(r: Incoming, t: string)
    ensures ChargedTo(r, t) <==> t != "" && TenantOf(r.context, r.header) == t
  {
    hide TrimSpace;
  }

  lemma NamedSnoc(front: seq<Incoming>, last: Incoming)
    ensures var tenant := TenantOf(last.context, last.header);
            Named(front + [last]) == if tenant == "" then Named(front) else Named(front) + [Request(tenant, last.at)]
  {
    assert (front + [last])[..|front|] == front;
  }

  lemma PassedForSnoc(q: Quota, front: seq<Incoming>, last: Incoming, t: string, cutoff: real)
    ensures PassedFor(q, front + [last], t, cutoff) == PassedFor(q, front, t, cutoff) +
            if ChargedTo(last, t) && last.at > cutoff && PassedFor(q, front, t, last.at - q.window) < q.limit then 1 else 0
  {
    assert (front + [last])[..|front|] == front;
  }

  lemma NobodyYet(q: Quota, past: seq<Incoming>, t: string, cutoff: real)
    requires past == []
    ensures PassedFor(q, past, t, cutoff) == 0 == PassedSince(q, Named(past), t, cutoff)
  {
  }

  lemma {:induction false} PassedForNamed(q: Quota, past: seq<Incoming>, t: string, cutoff: real)
    requires t != ""
    ensures PassedFor(q, past, t, cutoff) == PassedSince(q, Named(past), t, cutoff)
    decreases |past|
  {
    hide PassedFor, PassedSince, Named, ChargedTo, TenantOf;
    if past == [] {
      NobodyYet(q, past, t, cutoff);
    } else {
      var front, last := past[..|past| - 1], past[|past| - 1];
      var request := Request(TenantOf(last.context, last.header), last.at);
      assert past == front + [last];
      PassedForNamed(q, front, t, cutoff);
      PassedForNamed(q, front, t, last.at - q.window);
      ChargedIff(last, t);
      NamedSnoc(front, last);
      PassedForSnoc(q, front, last, t, cutoff);
      PassedSnoc(q, Named(front), request, t, cutoff);
    }
  }

  lemma {:induction false} NamedInOrder(rs: seq<Incoming>, end: real)
    requires InOrder(rs) && forall i :: 0 <= i < |rs| ==> rs[i].at <= end
    ensures Ordered(Named(rs)) && forall i :: 0 <= i < |Named(rs)| ==> Named(rs)[i].at <= end
  {
    if rs != [] {
      var front, last := rs[..|rs| - 1], rs[|rs| - 1];
      NamedInOrder(front, last.at);
    }
  }

  /** The middleware serves requests in the order of time: each gets the answer the rule gives. */
  method ServeInOrder(store: TenantQuotaStore, rs: seq<Incoming>) returns (answers: seq<Outcome>)
    requires store.View() == Store(map[], 0) && InOrder(rs)
    modifies store
    ensures |answers| == |rs| && forall i :: 0 <= i < |rs| ==> Right(store.Settings(), rs[..i], rs[i], answers[i])
  {
    answers := [];
    ghost var q := store.Settings();
    for n := 0 to |rs|
      invariant |answers| == n && store.Settings() == q
      invariant q.limit > 0 && q.window > 0.0 ==> store.View() == Run(q, Named(rs[..n]))
      invariant forall i :: 0 <= i < n ==> Right(q, rs[..i], rs[i], answers[i])
    {
      ghost var was := store.View();
      var answer := store.Admit(rs[n].context, rs[n].header, rs[n].at);
      OneRequest(q, rs, n, was, answer, store.View());
      answers := answers + [answer];
    }
  }

  lemma OneRequest(q: Quota, rs: seq<Incoming>, n: nat, was: Store, answer: Outcome, now: Store)
    requires InOrder(rs) && n < |rs|
    requires q.limit > 0 && q.window > 0.0 ==> was == Run(q, Named(rs[..n]))
    requires var tenant := TenantOf(rs[n].context, rs[n].header);
             if q.limit <= 0 || q.window <= 0.0 then answer == Passed
             else if tenant == "" then answer == TenantRequired && now == was
             else answer == (if Admits(q, was, tenant, rs[n].at) then Passed else QuotaExceeded) && now == After(q, was, tenant, rs[n].at)
    ensures Right(q, rs[..n], rs[n], answer)
    ensures q.limit > 0 && q.window > 0.0 ==> now == Run(q, Named(rs[..n + 1]))
  {
    hide TenantOf, Admits, After, PassedFor, TrimSpace, Run, Named, ChargedTo;
    var front, r := rs[..n], rs[n];
    var tenant := TenantOf(r.context, r.header);
    assert rs[..n + 1] == front + [r];
    NamedSnoc(front, r);
    NobodyIff(r);
    if q.limit > 0 && q.window > 0.0 && tenant != "" {
      RuleAgrees(q, front, r, tenant);
      assert Right(q, front, r, answer);
    }
  }

  lemma NobodyIff(r: Incoming)
    ensures TenantOf(r.context, r.header) == "" <==> TrimSpace(r.context) == "" && TrimSpace(r.header) == ""
  {
    hide TrimSpace;
  }

  lemma RuleAgrees(q: Quota, front: seq<Incoming>, r: Incoming, tenant: string)
    requires InOrder(front) && (forall i :: 0 <= i < |front| ==> front[i].at <= r.at)
    requires tenant == TenantOf(r.context, r.header) && tenant != ""
    ensures ChargedTo(r, tenant) && Run(q, Named(front) + [Request(tenant, r.at)]) == After(q, Run(q, Named(front)), tenant, r.at)
    ensures Admits(q, Run(q, Named(front)), tenant, r.at) <==> PassedFor(q, front, tenant, r.at - q.window) < q.limit
  {
    hide TenantOf, Admits, After, PassedFor, PassedSince, TrimSpace, Run, Named, ChargedTo;
    ChargedIff(r, tenant);
    NamedInOrder(front, r.at);
    RunSnoc(q, Named(front), Request(tenant, r.at));
    ExactSlidingWindow(q, Named(front), Request(tenant, r.at));
    PassedForNamed(q, front, tenant, r.at - q.window);
  }
}
