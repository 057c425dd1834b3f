/** The per-tenant sliding window (TenantQuotaMiddleware in pkg/runtime/tenant.go). Time is
    in seconds and passed in. */
module TenantQuota {
  import opened GoStrings

  datatype Outcome = TenantRequired | QuotaExceeded | Passed

  /** The tenant of a request: the one in its context, or else the header's. */
  function TenantOf(context: string, header: string): string {
    if TrimSpace(context) != "" then TrimSpace(context) else TrimSpace(header)
  }

  /** The admission times that are still inside the window. */
  function Live(log: seq<real>, cutoff: real): seq<real> {
    if log == [] then []
    else if log[|log| - 1] > cutoff then Live(log[..|log| - 1], cutoff) + [log[|log| - 1]]
    else Live(log[..|log| - 1], cutoff)
  }

  type Logs = map<string, seq<real>>

  function LogOf(logs: Logs, tenant: string): seq<real> {
    if tenant in logs then logs[tenant] else []
  }

  /** Some time in the log is after the cutoff, the last one at least. */
  predicate Recent(log: seq<real>, cutoff: real) {
    log != [] && log[|log| - 1] > cutoff
  }

  predicate Dead(log: seq<real>, cutoff: real) {
    log == [] || log[|log| - 1] <= cutoff
  }

  function Swept(logs: Logs, cutoff: real): Logs {
    map t | t in logs && !Dead(logs[t], cutoff) :: logs[t]
  }

  datatype Store = Store(byUser: Logs, requests: nat)

  /** A limiter's settings; `every` says how often the logs are swept (256 in the source,
      0 for never). */
  datatype Quota = Quota(limit: int, window: real, every: nat)

  const SWEEP_EVERY: nat := 256

  function SweptIfDue(q: Quota, s: Store, now: real): Logs {
    if q.every != 0 && (s.requests + 1) % q.every == 0 then Swept(s.byUser, now - q.window) else s.byUser
  }

  predicate Admits(q: Quota, s: Store, tenant: string, now: real) {
    |Live(LogOf(SweptIfDue(q, s, now), tenant), now - q.window)| < q.limit
  }

  function After(q: Quota, s: Store, tenant: string, now: real): Store {
    var logs := SweptIfDue(q, s, now);
    var filtered := Live(LogOf(logs, tenant), now - q.window);
    Store(logs[tenant := if |filtered| >= q.limit then filtered else filtered + [now]], s.requests + 1)
  }

  /** The filter loop over entries[:0]: the kept times move to the front of the same array. */
  method CompactInPlace(a: array<real>, cutoff: real) returns (kept: nat)
    modifies a
    ensures kept <= a.Length && a[..kept] == Live(old(a[..]), cutoff)
  {
    ghost var was := a[..];
    kept := 0;
    assert Live(was[..0], cutoff) == a[..0];
    hide Live;
    for i := 0 to a.Length
      invariant kept <= i
      invariant a[..kept] == Live(was[..i], cutoff)
      invariant forall j :: i <= j < a.Length ==> a[j] == was[j]
    {
      var ts := a[i];
      assert was[..i + 1] == was[..i] + [ts];
      LiveSnoc(was[..i], ts, cutoff);
      if ts > cutoff {
        ghost var front := a[..kept];
        a[kept] := ts;
        kept := kept + 1;
        assert a[..kept] == front + [ts];
      }
    }
    assert was[..a.Length] == was;
  }

  class TenantQuotaStore {
    const limit: int
    const window: real
    var byUser: Logs
    var requests: nat

    function View(): Store
      reads this
    {
      Store(byUser, requests)
    }

    function Settings(): Quota {
      Quota(limit, window, SWEEP_EVERY)
    }

    constructor (limit: int, window: real)
      ensures View() == Store(map[], 0) && Settings() == Quota(limit, window, SWEEP_EVERY)
    {
      this.limit := limit;
      this.window := window;
      byUser, requests := map[], 0;
    }

    /** The sweep loop; the keys come in any order. */
    method Sweep(cutoff: real)
      modifies `byUser
      ensures byUser == Swept(old(byUser), cutoff)
      ensures forall t :: t in byUser <==> t in old(byUser) && Recent(old(byUser)[t], cutoff)
    {
      ghost var was := byUser;
      var todo := byUser.Keys;
      while todo != {}
        invariant byUser.Keys <= was.Keys && todo <= was.Keys
        invariant forall t :: t in was ==> (t in byUser <==> t in todo || !Dead(was[t], cutoff))
        invariant forall t :: t in byUser ==> byUser[t] == was[t]
        decreases |todo|
      {
        var key :| key in todo;
        todo := todo - {key};
        if Dead(byUser[key], cutoff) {
          byUser := byUser - {key};
        }
      }
    }

    method Admit(context: string, header: string, now: real) returns (r: Outcome)
      modifies this
      ensures limit <= 0 || window <= 0.0 ==> r == Passed && View() == old(View())
      ensures limit > 0 && window > 0.0 && TenantOf(context, header) == "" ==> r == TenantRequired && View() == old(View())
      ensures limit > 0 && window > 0.0 && TenantOf(context, header) != "" ==>
                && r == (if Admits(Settings(), old(View()), TenantOf(context, header), now) then Passed else QuotaExceeded)
                && View() == After(Settings(), old(View()), TenantOf(context, header), now)
                && requests == old(requests) + 1
                && forall t :: t != TenantOf(context, header) ==>
                     (t in byUser <==> t in old(byUser) && (requests % 256 != 0 || Recent(old(byUser)[t], now - window)))
    {
      if limit <= 0 || window <= 0.0 {
        return Passed;
      }
      var tenant := TenantOf(context, header);
      if tenant == "" {
        return TenantRequired;
      }
      r := AdmitTenant(tenant, now);
    }

    /** The locked part of the handler. */
    method AdmitTenant(tenant: string, now: real) returns (r: Outcome)
      modifies this
      ensures r == if Admits(Settings(), old(View()), tenant, now) then Passed else QuotaExceeded
      ensures View() == After(Settings(), old(View()), tenant, now)
      ensures requests == old(requests) + 1
      ensures forall t :: t != tenant ==>
                (t in byUser <==> t in old(byUser) && (requests % 256 != 0 || Recent(old(byUser)[t], now - window)))
    {
      var cutoff := now - window;
      requests := requests + 1;
      if requests % SWEEP_EVERY == 0 {
        Sweep(cutoff);
      }
      assert byUser == SweptIfDue(Settings(), old(View()), now);
      var filtered := FilterLog(LogOf(byUser, tenant), cutoff);
      hide Live, Swept, SweptIfDue;
      if |filtered| >= limit {
        byUser := byUser[tenant := filtered];
        return QuotaExceeded;
      }
      filtered := filtered + [now];
      byUser := byUser[tenant := filtered];
      return Passed;
    }
  }

  method FilterLog(entries: seq<real>, cutoff: real) returns (filtered: seq<real>)
    ensures filtered == Live(entries, cutoff)
  {
    var buffer := new real[|entries|](i requires 0 <= i < |entries| => entries[i]);
    assert buffer[..] == entries;
    var kept := CompactInPlace(buffer, cutoff);
    filtered := buffer[..kept];
  }

  // ---------------------------------------------------------------- whole runs

  datatype Request = Request(tenant: string, at: real)

  predicate Ordered(rs: seq<Request>) {
    forall i, j :: 0 <= i <= j < |rs| ==> rs[i].at <= rs[j].at
  }

  /** The store after a run. */
  function Run(q: Quota, past: seq<Request>): Store {
    if past == [] then Store(map[], 0)
    else
      var last := past[|past| - 1];
      After(q, Run(q, past[..|past| - 1]), last.tenant, last.at)
  }

  /** The rule: a request passes iff fewer than `limit` requests of its own tenant passed
      within the window that ends with it. */
  predicate Passes(q: Quota, past: seq<Request>, r: Request)
    decreases |past|, 1
  {
    PassedSince(q, past, r.tenant, r.at - q.window) < q.limit
  }

  /** How many of the tenant's past requests passed after the cutoff, by that rule. */
  function PassedSince(q: Quota, past: seq<Request>, tenant: string, cutoff: real): nat
    decreases |past|, 0
  {
    if past == [] then 0
    else
      var front, last := past[..|past| - 1], past[|past| - 1];
      PassedSince(q, front, tenant, cutoff) +
      if last.tenant == tenant && last.at > cutoff && Passes(q, front, last) then 1 else 0
  }

  predicate Sorted(log: seq<real>, bound: real) {
    (forall i, j :: 0 <= i <= j < |log| ==> log[i] <= log[j]) && forall i :: 0 <= i < |log| ==> log[i] <= bound
  }

  lemma {:induction false} LiveKeepsOrder(log: seq<real>, cutoff: real, bound: real)
    requires Sorted(log, bound)
    ensures Sorted(Live(log, cutoff), bound)
  {
    if log != [] {
      var front, x := log[..|log| - 1], log[|log| - 1];
      assert Sorted(front, x);
      LiveKeepsOrder(front, cutoff, x);
      SortedSnoc(Live(front, cutoff), x, bound);
    }
  }

  lemma SortedSnoc(log: seq<real>, x: real, bound: real)
    requires Sorted(log, x) && x <= bound
    ensures Sorted(log, bound) && Sorted(log + [x], bound)
  {
  }

  lemma {:induction false} LiveTwice(log: seq<real>, early: real, late: real)
    requires early <= late
    ensures Live(Live(log, early), late) == Live(log, late)
  {
    if log != [] {
      var front, x := log[..|log| - 1], log[|log| - 1];
      LiveTwice(front, early, late);
      LiveSnoc(Live(front, early), x, late);
    }
  }

  lemma LiveSnoc(log: seq<real>, x: real, cutoff: real)
    ensures Live(log + [x], cutoff) == if x > cutoff then Live(log, cutoff) + [x] else Live(log, cutoff)
  {
    assert (log + [x])[..|log|] == log;
  }

  lemma {:induction false} DeadIsNotLive(log: seq<real>, cutoff: real, bound: real)
    requires Sorted(log, bound) && Dead(log, cutoff)
    ensures Live(log, cutoff) == []
  {
    if log != [] {
      var front, x := log[..|log| - 1], log[|log| - 1];
      assert Sorted(front, x) && Dead(front, cutoff);
      DeadIsNotLive(front, cutoff, x);
    }
  }

  /** The log of a tenant is in order and, for every cutoff no earlier than `from`, holds
      exactly the passes after that cutoff. */
  ghost predicate Faithful(q: Quota, logs: Logs, past: seq<Request>, tenant: string, from: real, bound: real) {
    Sorted(LogOf(logs, tenant), bound) &&
    forall cutoff :: from <= cutoff ==> |Live(LogOf(logs, tenant), cutoff)| == PassedSince(q, past, tenant, cutoff)
  }

  lemma SweepIsFaithful(q: Quota, s: Store, past: seq<Request>, tenant: string, from: real, bound: real, now: real)
    requires Faithful(q, s.byUser, past, tenant, from, bound) && from <= now - q.window
    ensures Faithful(q, SweptIfDue(q, s, now), past, tenant, now - q.window, bound)
  {
    var log, left := LogOf(s.byUser, tenant), LogOf(SweptIfDue(q, s, now), tenant);
    if left != log {
      assert Dead(log, now - q.window) && left == [];
      forall cutoff | now - q.window <= cutoff ensures |Live(left, cutoff)| == PassedSince(q, past, tenant, cutoff) {
        DeadIsNotLive(log, cutoff, bound);
      }
    }
  }

  lemma PassedSnoc(q: Quota, past: seq<Request>, r: Request, tenant: string, cutoff: real)
    ensures PassedSince(q, past + [r], tenant, cutoff) ==
            PassedSince(q, past, tenant, cutoff) + if r.tenant == tenant && r.at > cutoff && Passes(q, past, r) then 1 else 0
  {
    assert (past + [r])[..|past|] == past;
  }

  lemma OwnLogStaysFaithful(q: Quota, logs: Logs, past: seq<Request>, edge: real, bound: real, r: Request)
    requires Faithful(q, logs, past, r.tenant, edge, bound) && edge == r.at - q.window && bound <= r.at
    ensures var filtered := Live(LogOf(logs, r.tenant), edge);
            Faithful(q, logs[r.tenant := if |filtered| >= q.limit then filtered else filtered + [r.at]], past + [r], r.tenant, edge, r.at)
  {
    var log := LogOf(logs, r.tenant);
    var filtered := Live(log, edge);
    LiveKeepsOrder(log, edge, bound);
    var next := if |filtered| >= q.limit then filtered else filtered + [r.at];
    assert Passes(q, past, r) <==> |filtered| < q.limit;
    forall cutoff | edge <= cutoff ensures |Live(next, cutoff)| == PassedSince(q, past + [r], r.tenant, cutoff) {
      PassedSnoc(q, past, r, r.tenant, cutoff);
      LiveTwice(log, edge, cutoff);
      LiveSnoc(filtered, r.at, cutoff);
    }
  }

  lemma OtherLogsStayFaithful(q: Quota, logs: Logs, past: seq<Request>, tenant: string, edge: real, bound: real, r: Request,
                              own: seq<real>)
    requires Faithful(q, logs, past, tenant, edge, bound) && tenant != r.tenant && bound <= r.at
    ensures Faithful(q, logs[r.tenant := own], past + [r], tenant, edge, r.at)
  {
    forall cutoff | edge <= cutoff ensures |Live(LogOf(logs, tenant), cutoff)| == PassedSince(q, past + [r], tenant, cutoff) {
      PassedSnoc(q, past, r, tenant, cutoff);
    }
  }

  lemma StepIsFaithful(q: Quota, s: Store, past: seq<Request>, tenant: string, from: real, bound: real, r: Request)
    requires Faithful(q, s.byUser, past, tenant, from, bound) && Faithful(q, s.byUser, past, r.tenant, from, bound)
    requires from <= r.at - q.window && bound <= r.at
    ensures Admits(q, s, r.tenant, r.at) == Passes(q, past, r)
    ensures Faithful(q, After(q, s, r.tenant, r.at).byUser, past + [r], tenant, r.at - q.window, r.at)
  {
    var edge, logs := r.at - q.window, SweptIfDue(q, s, r.at);
    hide *;
    SweepIsFaithful(q, s, past, r.tenant, from, bound, r.at);
    SweepIsFaithful(q, s, past, tenant, from, bound, r.at);
    DecidesByRule(q, s, past, logs, edge, bound, r);
    AfterwardsLogs(q, s, logs, r, edge);
    if tenant == r.tenant {
      OwnLogStaysFaithful(q, logs, past, edge, bound, r);
    } else {
      OtherLogsStayFaithful(q, logs, past, tenant, edge, bound, r, After(q, s, r.tenant, r.at).byUser[r.tenant]);
    }
  }

  lemma AfterwardsLogs(q: Quota, s: Store, logs: Logs, r: Request, edge: real)
    requires logs == SweptIfDue(q, s, r.at) && edge == r.at - q.window
    ensures var filtered, now := Live(LogOf(logs, r.tenant), edge), After(q, s, r.tenant, r.at).byUser;
            && now == logs[r.tenant := if |filtered| >= q.limit then filtered else filtered + [r.at]]
            && r.tenant in now && now == logs[r.tenant := now[r.tenant]]
  {
    hide Live, SweptIfDue;
  }

  /** A faithful log decides by the rule. */
  lemma DecidesByRule(q: Quota, s: Store, past: seq<Request>, logs: Logs, edge: real, bound: real, r: Request)
    requires logs == SweptIfDue(q, s, r.at) && edge == r.at - q.window && Faithful(q, logs, past, r.tenant, edge, bound)
    ensures Admits(q, s, r.tenant, r.at) == Passes(q, past, r)
  {
    hide Live, Swept, SweptIfDue, PassedSince;
  }

  lemma RunSnoc(q: Quota, past: seq<Request>, r: Request)
    ensures Run(q, past + [r]) == After(q, Run(q, past), r.tenant, r.at)
  {
    assert (past + [r])[..|past|] == past;
  }

  lemma NothingYet(q: Quota, tenant: string, from: real, bound: real)
    ensures Faithful(q, Run(q, []).byUser, [], tenant, from, bound)
  {
  }

  lemma {:induction false} RunIsFaithful(q: Quota, past: seq<Request>, tenant: string, now: real)
    requires Ordered(past) && (past != [] ==> past[|past| - 1].at <= now)
    ensures Faithful(q, Run(q, past).byUser, past, tenant, now - q.window, now)
  {
    if past == [] {
      NothingYet(q, tenant, now - q.window, now);
    } else {
      var front, last := past[..|past| - 1], past[|past| - 1];
      assert front != [] ==> past[|front| - 1].at <= last.at;
      assert Ordered(front) && front + [last] == past;
      hide *;
      RunIsFaithful(q, front, tenant, last.at);
      RunIsFaithful(q, front, last.tenant, last.at);
      StepIsFaithful(q, Run(q, front), front, tenant, last.at - q.window, last.at, last);
      RunSnoc(q, front, last);
      LaterIsFaithful(q, Run(q, past).byUser, past, tenant, last.at, now);
    }
  }

  /** What holds for all cutoffs from one on holds for all later ones. */
  lemma LaterIsFaithful(q: Quota, logs: Logs, past: seq<Request>, tenant: string, at: real, now: real)
    requires Faithful(q, logs, past, tenant, at - q.window, at) && at <= now
    ensures Faithful(q, logs, past, tenant, now - q.window, now)
  {
    hide PassedSince, Live;
  }

  /** The middleware is an exact sliding window: with arrivals in time order it lets a request
      through if and only if fewer than `limit` of that tenant's requests passed in the window
      ending with it, no matter how often the logs are swept. */
  lemma ExactSlidingWindow(q: Quota, past: seq<Request>, r: Request)
    requires Ordered(past + [r])
    ensures Admits(q, Run(q, past), r.tenant, r.at) <==> Passes(q, past, r)
  {
    assert forall i :: 0 <= i < |past| ==> past[i] == (past + [r])[i];
    assert (past + [r])[|past|] == r;
    RunIsFaithful(q, past, r.tenant, r.at);
    StepIsFaithful(q, Run(q, past), past, r.tenant, r.at - q.window, r.at, r);
  }

  lemma {:induction false} RuleIgnoresSweeps(q: Quota, past: seq<Request>, tenant: string, cutoff: real, every: nat)
    ensures PassedSince(q.(every := every), past, tenant, cutoff) == PassedSince(q, past, tenant, cutoff)
    decreases |past|
  {
    if past != [] {
      var front, last := past[..|past| - 1], past[|past| - 1];
      RuleIgnoresSweeps(q, front, tenant, cutoff, every);
      RuleIgnoresSweeps(q, front, last.tenant, last.at - q.window, every);
    }
  }

  /** So the sweep changes no decision, ever. */
  lemma SweepChangesNoDecision(q: Quota, past: seq<Request>, r: Request, every: nat)
    requires Ordered(past + [r])
    ensures var p := q.(every := every);
            Admits(p, Run(p, past), r.tenant, r.at) <==> Admits(q, Run(q, past), r.tenant, r.at)
  {
    hide Run, Admits, PassedSince;
    ExactSlidingWindow(q, past, r);
    ExactSlidingWindow(q.(every := every), past, r);
    RuleIgnoresSweeps(q, past, r.tenant, r.at - q.window, every);
  }

  function Only(rs: seq<Request>, tenant: string): seq<Request> {
    if rs == [] then []
    else if rs[|rs| - 1].tenant == tenant then Only(rs[..|rs| - 1], tenant) + [rs[|rs| - 1]]
    else Only(rs[..|rs| - 1], tenant)
  }

  /** Other tenants' traffic does not matter to the rule. */
  lemma {:induction false} TenantsAreIsolated(q: Quota, past: seq<Request>, tenant: string, cutoff: real)
    ensures PassedSince(q, past, tenant, cutoff) == PassedSince(q, Only(past, tenant), tenant, cutoff)
    decreases |past|
  {
    if past != [] {
      var front, last := past[..|past| - 1], past[|past| - 1];
      TenantsAreIsolated(q, front, tenant, cutoff);
      assert front + [last] == past;
      PassedSnoc(q, front, last, tenant, cutoff);
      assert Only(past, tenant) == if last.tenant == tenant then Only(front, tenant) + [last] else Only(front, tenant);
      hide PassedSince, Only;
      if last.tenant == tenant {
        TenantsAreIsolated(q, front, tenant, last.at - q.window);
        PassedSnoc(q, Only(front, tenant), last, tenant, cutoff);
      }
    }
  }

  lemma {:induction false} OnlyOrdered(rs: seq<Request>, tenant: string, end: real)
    requires Ordered(rs) && forall i :: 0 <= i < |rs| ==> rs[i].at <= end
    ensures Ordered(Only(rs, tenant)) && forall i :: 0 <= i < |Only(rs, tenant)| ==> Only(rs, tenant)[i].at <= end
  {
    if rs != [] {
      var front, last := rs[..|rs| - 1], rs[|rs| - 1];
      OnlyOrdered(front, tenant, last.at);
    }
  }

  lemma OwnRequestsOrdered(past: seq<Request>, r: Request)
    requires Ordered(past + [r])
    ensures Ordered(Only(past, r.tenant) + [r])
  {
    hide Only;
    assert forall i :: 0 <= i < |past| ==> past[i] == (past + [r])[i];
    assert (past + [r])[|past|] == r;
    OnlyOrdered(past, r.tenant, r.at);
  }

  /** And to the middleware: it decides as if the tenant were alone. */
  lemma DecidesAsIfAlone(q: Quota, past: seq<Request>, r: Request)
    requires Ordered(past + [r])
    ensures Admits(q, Run(q, past), r.tenant, r.at) <==> Admits(q, Run(q, Only(past, r.tenant)), r.tenant, r.at)
  {
    hide Run, Admits, PassedSince, Only, Ordered;
    OwnRequestsOrdered(past, r);
    ExactSlidingWindow(q, past, r);
    ExactSlidingWindow(q, Only(past, r.tenant), r);
    TenantsAreIsolated(q, past, r.tenant, r.at - q.window);
  }

  lemma {:induction false} EarlierCutoffCountsMore(q: Quota, past: seq<Request>, tenant: string, early: real, late: real)
    requires early <= late
    ensures PassedSince(q, past, tenant, late) <= PassedSince(q, past, tenant, early)
  {
    if past != [] { EarlierCutoffCountsMore(q, past[..|past| - 1], tenant, early, late); }
  }

  /** No window ever holds more than `limit` passes of a tenant: not only the windows that end
      with a request, but every half-open stretch of that length. */
  lemma {:induction false} NoWindowOverflows(q: Quota, past: seq<Request>, tenant: string, end: real)
    requires q.limit > 0 && Ordered(past) && (past != [] ==> past[|past| - 1].at <= end)
    ensures PassedSince(q, past, tenant, end - q.window) <= q.limit
  {
    if past == [] {
      assert PassedSince(q, [], tenant, end - q.window) == 0;
    } else {
      var front, last := past[..|past| - 1], past[|past| - 1];
      assert front != [] ==> past[|front| - 1].at <= last.at;
      assert Ordered(front) && front + [last] == past;
      assert Passes(q, front, last) <==> PassedSince(q, front, last.tenant, last.at - q.window) < q.limit;
      hide *;
      NoWindowOverflows(q, front, tenant, end);
      EarlierCutoffCountsMore(q, front, tenant, last.at - q.window, end - q.window);
      PassedSnoc(q, front, last, tenant, end - q.window);
    }
  }
}
