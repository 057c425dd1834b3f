/** Upstream registration, weighted selection and route resolution (pkg/runtime/upstream.go and
    Register in pkg/runtime/config_registry.go). Whether a target parses as a URL and what the
    random source draws are parameters. */
module Upstreams {
  import opened GoStrings
  import Router

  datatype Upstream = Upstream(name: string, target: string, fallback: string, services: seq<string>, weight: int,
                               enabled: bool, healthy: bool)

  datatype Route = Route(name: string, verb: string, path: string, target: string, upstream: string, weight: int, enabled: bool)

  type Backends = map<string, Upstream>
  type Routes = map<string, Route>

  datatype Error =
    | NameRequired | TargetRequired | BadTarget | OwnFallback | AlreadyExists
    | PathRequired | UnknownUpstream | DisabledNeedsWeight | Disabled

  // ---------------------------------------------------------------- weighted pools

  function Total(pool: seq<Upstream>): int {
    if pool == [] then 0 else Total(pool[..|pool| - 1]) + pool[|pool| - 1].weight
  }

  predicate Weighted(pool: seq<Upstream>) {
    forall i :: 0 <= i < |pool| ==> pool[i].weight >= 1
  }

  /** Draw d falls to member i: the weights before it add up to at most d, with its own to more. */
  predicate FallsTo(pool: seq<Upstream>, d: int, i: int) {
    0 <= i < |pool| && Total(pool[..i]) <= d < Total(pool[..i + 1])
  }

  lemma TotalSnoc(pool: seq<Upstream>, i: nat)
    requires i < |pool|
    ensures Total(pool[..i + 1]) == Total(pool[..i]) + pool[i].weight
  {
    assert pool[..i + 1][..i] == pool[..i];
  }

  /** The walk that subtracts weights until the draw is used up. A draw past the total would end
      at the last member. */
  method PickWeightedUpstream(pool: seq<Upstream>, draw: int) returns (up: Upstream)
    requires pool != []
    ensures Weighted(pool) && 0 <= draw < Total(pool) ==> exists i :: FallsTo(pool, draw, i) && up == pool[i]
    ensures Weighted(pool) && draw >= Total(pool) ==> up == pool[|pool| - 1]
    ensures up in pool
  {
    var pick := draw;
    for i := 0 to |pool|
      invariant pick == draw - Total(pool[..i])
      invariant i > 0 ==> pick >= 0
    {
      TotalSnoc(pool, i);
      pick := pick - pool[i].weight;
      if pick < 0 {
        if Weighted(pool) { TotalRises(pool, i + 1, |pool|); }
        assert pool[..|pool|] == pool;
        assert draw >= 0 ==> FallsTo(pool, draw, i);
        return pool[i];
      }
    }
    assert pool[..|pool|] == pool;
    return pool[|pool| - 1];
  }

  lemma {:induction false} TotalRises(pool: seq<Upstream>, i: nat, j: nat)
    requires Weighted(pool) && i <= j <= |pool|
    ensures Total(pool[..i]) + (j - i) <= Total(pool[..j])
    decreases j
  {
    if i < j {
      TotalRises(pool, i, j - 1);
      TotalSnoc(pool, j - 1);
    }
  }

  /** Every draw below the total falls to exactly one member: the trailing return is never used. */
  lemma {:induction false} OneMemberPerDraw(pool: seq<Upstream>, d: int) returns (i: nat)
    requires Weighted(pool) && 0 <= d < Total(pool)
    ensures FallsTo(pool, d, i) && forall j :: FallsTo(pool, d, j) ==> j == i
  {
    i := 0;
    assert pool[..|pool|] == pool;
    while Total(pool[..i + 1]) <= d
      invariant i < |pool| && Total(pool[..i]) <= d
      decreases |pool| - i
    {
      i := i + 1;
    }
    forall j | FallsTo(pool, d, j) ensures j == i {
      if j < i { TotalRises(pool, j + 1, i); }
      if i < j { TotalRises(pool, i + 1, j); }
    }
  }

  function Draws(pool: seq<Upstream>, i: nat): set<int> {
    set d | 0 <= d < Total(pool) && FallsTo(pool, d, i)
  }

  lemma {:induction false} IntervalSize(lo: int, hi: int, s: set<int>)
    requires lo <= hi && forall d :: d in s <==> lo <= d < hi
    ensures |s| == hi - lo
    decreases hi - lo
  {
    if lo == hi {
      assert forall d :: d !in s;
    } else {
      IntervalSize(lo, hi - 1, s - {hi - 1});
    }
  }

  /** Exactly weight of the draws choose each member, whatever order the pool is in. */
  lemma ExactlyWeightDraws(pool: seq<Upstream>, i: nat)
    requires Weighted(pool) && i < |pool|
    ensures |Draws(pool, i)| == pool[i].weight
  {
    TotalSnoc(pool, i);
    TotalRises(pool, 0, i);
    TotalRises(pool, i + 1, |pool|);
    assert pool[..|pool|] == pool;
    IntervalSize(Total(pool[..i]), Total(pool[..i + 1]), Draws(pool, i));
  }

  lemma {:induction false} TotalConcat(p: seq<Upstream>, q: seq<Upstream>)
    ensures Total(p + q) == Total(p) + Total(q)
  {
    if q == [] {
      assert p + q == p;
    } else {
      assert (p + q)[..|p + q| - 1] == p + q[..|q| - 1];
      TotalConcat(p, q[..|q| - 1]);
    }
  }

  lemma TotalWithout(q: seq<Upstream>, k: nat)
    requires k < |q|
    ensures Total(q) == Total(q[..k] + q[k + 1..]) + q[k].weight
  {
    hide Total;
    var a, b, c := q[..k], q[..k + 1], q[k + 1..];
    TotalConcat(a, c);
    TotalConcat(b, c);
    TotalSnoc(q, k);
    assert q == b + c;
  }

  predicate DistinctNames(pool: seq<Upstream>) {
    forall i, j :: 0 <= i < j < |pool| ==> pool[i].name != pool[j].name
  }

  /** Two orders of one pool have one total, so the draw's range does not depend on the order. */
  lemma {:induction false} TotalIgnoresOrder(p: seq<Upstream>, q: seq<Upstream>)
    requires DistinctNames(p) && DistinctNames(q) && forall x :: x in p <==> x in q
    ensures Total(p) == Total(q)
  {
    if p == [] {
      NoMembers(q);
    } else {
      var front, last := p[..|p| - 1], p[|p| - 1];
      assert last in p && last in q;
      var k :| 0 <= k < |q| && q[k] == last;
      var rest := q[..k] + q[k + 1..];
      Without(p, |p| - 1, front);
      Without(q, k, rest);
      TotalIgnoresOrder(front, rest);
      TotalWithout(q, k);
    }
  }

  lemma NoMembers(q: seq<Upstream>)
    ensures q == [] || q[0] in q
  {
  }

  lemma Without(q: seq<Upstream>, k: nat, rest: seq<Upstream>)
    requires DistinctNames(q) && k < |q| && rest == q[..k] + q[k + 1..]
    ensures DistinctNames(rest) && forall x :: x in rest <==> x in q && x != q[k]
  {
    forall x | x in q && x != q[k] ensures x in rest {
      var i :| 0 <= i < |q| && q[i] == x;
      if i < k { assert rest[i] == x; } else { assert rest[i - 1] == x; }
    }
    assert forall i :: 0 <= i < |rest| ==> rest[i] == if i < k then q[i] else q[i + 1];
  }

  // ---------------------------------------------------------------- selection

  predicate Serves(up: Upstream, service: string) {
    up.services == [] || exists i :: 0 <= i < |up.services| && TrimSpace(up.services[i]) == service
  }

  predicate Up(up: Upstream) {
    up.enabled && up.healthy
  }

  predicate Eligible(up: Upstream, service: string) {
    Up(up) && (service == "" || Serves(up, service))
  }

  /** The name of an upstream that takes requests. */
  predicate Alive(upstreams: Backends, name: string) {
    name != "" && name in upstreams && upstreams[name].enabled && upstreams[name].healthy
  }

  /** Who a name resolves to without a pool: itself, or its fallback while it is down. */
  function Select(upstreams: Backends, name: string): Option<Upstream> {
    var n := TrimSpace(name);
    if n !in upstreams || !upstreams[n].enabled then None
    else if upstreams[n].healthy then Some(upstreams[n])
    else
      var fb := upstreams[n].fallback;
      if fb != "" && fb in upstreams && Up(upstreams[fb]) then Some(upstreams[fb]) else None
  }

  /** A pool holds every eligible upstream once and nothing else. */
  ghost predicate IsPool(upstreams: Backends, service: string, pool: seq<Upstream>) {
    (forall i :: 0 <= i < |pool| ==> Eligible(pool[i], service) && pool[i].name in upstreams && upstreams[pool[i].name] == pool[i]) &&
    DistinctNames(pool) &&
    forall n :: n in upstreams && Eligible(upstreams[n], service) ==> upstreams[n] in pool
  }

  /** An upstream a route may be sent to: a live one serving the named upstream's first service,
      or who the name itself resolves to. */
  ghost predicate MayServe(upstreams: Backends, name: string, up: Upstream) {
    var n := TrimSpace(name);
    && n in upstreams && up in upstreams.Values && Up(up)
    && (Select(upstreams, name) == Some(up) ||
        (upstreams[n].services != [] && Eligible(up, TrimSpace(upstreams[n].services[0]))))
  }

  /** The draw below the pool's total weight fell to this member. */
  ghost predicate DrawnFrom(pool: seq<Upstream>, rand: nat -> nat, up: Upstream) {
    Weighted(pool) && Total(pool) > 0 && up in pool && exists i :: FallsTo(pool, rand(Total(pool)), i) && up == pool[i]
  }

  /** A registered upstream that takes requests for a service: it declares no services, or this one
      among them; for the empty service anybody does. */
  ghost predicate Takes(upstreams: Backends, up: Upstream, service: string) {
    up in upstreams.Values && up.enabled && up.healthy &&
    (service == "" || up.services == [] || exists i :: 0 <= i < |up.services| && TrimSpace(up.services[i]) == service)
  }

  lemma PoolTakes(upstreams: Backends, service: string)
    ensures forall up :: Takes(upstreams, up, service) <==> up in upstreams.Values && Eligible(up, service)
    ensures forall pool, up :: IsPool(upstreams, service, pool) && up in pool ==> Takes(upstreams, up, service)
  {
    hide TrimSpace;
  }

  ghost predicate SomeEligible(upstreams: Backends, service: string) {
    exists n :: n in upstreams && Eligible(upstreams[n], service)
  }

  /** Where a name leads: a name without services to itself or its fallback; otherwise the drawn
      member of the pool of its first service, and to itself or its fallback only when that pool
      is empty. */
  ghost predicate LeadsTo(upstreams: Backends, name: string, rand: nat -> nat, r: Option<Upstream>) {
    var n := TrimSpace(name);
    if n !in upstreams then r == None
    else if upstreams[n].services != [] && SomeEligible(upstreams, TrimSpace(upstreams[n].services[0])) then
      r.Some? && exists pool :: IsPool(upstreams, TrimSpace(upstreams[n].services[0]), pool) && DrawnFrom(pool, rand, r.value)
    else r == Select(upstreams, name)
  }

  // ---------------------------------------------------------------- the code

  function Trimmed(u: Upstream): Upstream {
    u.(name := TrimSpace(u.name), target := TrimSpace(u.target), fallback := TrimSpace(u.fallback),
       weight := if u.weight <= 0 then 1 else u.weight)
  }

  function UpstreamRefusal(upstreams: Backends, u: Upstream, parses: string -> bool): Option<Error> {
    var t := Trimmed(u);
    if t.name == "" then Some(NameRequired)
    else if t.target == "" then Some(TargetRequired)
    else if !parses(t.target) then Some(BadTarget)
    else if t.fallback == t.name then Some(OwnFallback)
    else if t.name in upstreams then Some(AlreadyExists)
    else None
  }

  predicate SoundUpstream(u: Upstream, name: string) {
    u.name == name && name != "" && TrimSpace(name) == name && u.target != "" && u.weight >= 1 && u.fallback != name
  }

  predicate SoundRoute(r: Route, name: string, upstreams: Backends) {
    && r.name == name && name != "" && r.enabled && r.weight >= 1 && r.verb != ""
    && (r.upstream == "" ==> r.target != "")
    && (r.upstream != "" ==> r.upstream in upstreams && TrimSpace(r.upstream) == r.upstream)
  }

  ghost predicate Sound(upstreams: Backends, routes: Routes) {
    (forall n :: n in upstreams ==> SoundUpstream(upstreams[n], n)) &&
    forall n :: n in routes ==> SoundRoute(routes[n], n, upstreams)
  }

  function Kept(r: Route): Route {
    var verb := Router.ToUpper(TrimSpace(r.verb));
    r.(name := TrimSpace(r.name), verb := if verb == "" then "ANY" else verb, path := Router.NormalizePath(r.path),
       target := TrimSpace(r.target), upstream := TrimSpace(r.upstream), weight := if r.weight <= 0 then 100 else r.weight)
  }

  function RouteRefusal(upstreams: Backends, routes: Routes, r: Route): Option<Error> {
    var k := Kept(r);
    if k.name == "" then Some(NameRequired)
    else if k.path == "/" && Router.ToUpper(TrimSpace(r.verb)) == "" then Some(PathRequired)
    else if k.target == "" && r.upstream == "" then Some(TargetRequired)
    else if r.upstream != "" && k.upstream !in upstreams then Some(UnknownUpstream)
    else if !r.enabled then Some(if r.weight <= 0 then DisabledNeedsWeight else Disabled)
    else if k.name in routes then Some(AlreadyExists)
    else None
  }

  class RouteRegistry {
    var upstreams: Backends
    var routes: Routes

    ghost predicate Valid()
      reads this
    {
      Sound(upstreams, routes)
    }

    constructor ()
      ensures Valid() && upstreams == map[] && routes == map[]
    {
      upstreams, routes := map[], map[];
    }

    method RegisterUpstream(cfg: Upstream, parses: string -> bool) returns (error: Option<Error>)
      requires Valid()
      modifies `upstreams
      ensures Valid()
      ensures error == UpstreamRefusal(old(upstreams), cfg, parses)
      ensures upstreams == if error.Some? then old(upstreams) else old(upstreams)[Trimmed(cfg).name := Trimmed(cfg)]
    {
      var u := cfg.(name := TrimSpace(cfg.name), target := TrimSpace(cfg.target), fallback := TrimSpace(cfg.fallback));
      if u.name == "" {
        return Some(NameRequired);
      }
      if u.target == "" {
        return Some(TargetRequired);
      }
      if !parses(u.target) || u.target == "" {
        return Some(BadTarget);
      }
      if u.weight < 0 {
        u := u.(weight := 0);
      }
      if u.weight == 0 {
        u := u.(weight := 1);
      }
      if u.fallback == u.name {
        return Some(OwnFallback);
      }
      if u.name in upstreams {
        return Some(AlreadyExists);
      }
      UpstreamKeepsSound(upstreams, routes, u, cfg.name);
      upstreams := upstreams[u.name := u];
      return None;
    }

    method Register(cfg: Route) returns (error: Option<Error>)
      requires Valid()
      modifies `routes
      ensures Valid()
      ensures error == RouteRefusal(upstreams, old(routes), cfg)
      ensures routes == if error.Some? then old(routes) else old(routes)[Kept(cfg).name := Kept(cfg)]
    {
      var r := cfg.(name := TrimSpace(cfg.name), verb := Router.ToUpper(TrimSpace(cfg.verb)),
                    path := Router.NormalizePath(cfg.path), target := TrimSpace(cfg.target));
      assert TrimSpace("") == "";
      hide TrimSpace, Router.NormalizePath, Router.ToUpper;
      if r.name == "" {
        return Some(NameRequired);
      }
      if r.path == "" || (r.path == "/" && r.verb == "") {
        return Some(PathRequired);
      }
      if r.target == "" && r.upstream == "" {
        return Some(TargetRequired);
      }
      if r.upstream != "" {
        r := r.(upstream := TrimSpace(r.upstream));
        if r.upstream !in upstreams {
          return Some(UnknownUpstream);
        }
      }
      if r.verb == "" {
        r := r.(verb := "ANY");
      }
      if r.weight < 0 {
        r := r.(weight := 0);
      }
      if !r.enabled {
        if r.weight == 0 {
          return Some(DisabledNeedsWeight);
        }
        return Some(Disabled);
      }
      if r.enabled && r.weight == 0 {
        r := r.(weight := 100);
      }
      if r.name in routes {
        return Some(AlreadyExists);
      }
      routes := routes[r.name := r];
      return None;
    }

    method SelectUpstream(name: string) returns (r: Option<Upstream>)
      ensures r == Select(upstreams, name)
      ensures r.Some? ==>
                var n := TrimSpace(name);
                n in upstreams && upstreams[n].enabled && r.value.enabled && r.value.healthy &&
                if upstreams[n].healthy then r.value == upstreams[n]
                else upstreams[n].fallback in upstreams && r.value == upstreams[upstreams[n].fallback]
      ensures r.None? ==>
                var n := TrimSpace(name);
                n !in upstreams || !upstreams[n].enabled ||
                (!upstreams[n].healthy && !Alive(upstreams, upstreams[n].fallback))
    {
      var n := TrimSpace(name);
      if n !in upstreams || !upstreams[n].enabled {
        return None;
      }
      var up := upstreams[n];
      if up.healthy {
        return Some(up);
      }
      if up.fallback != "" {
        if up.fallback in upstreams && upstreams[up.fallback].enabled && upstreams[up.fallback].healthy {
          return Some(upstreams[up.fallback]);
        }
      }
      return None;
    }

    /** The upstreams in any order. */
    method CollectPool(service: string) returns (pool: seq<Upstream>, total: int)
      requires Valid()
      ensures IsPool(upstreams, service, pool) && Weighted(pool) && total == Total(pool)
    {
      assert Weighted([]) && PartOfPool(upstreams, service, [], upstreams.Keys);
      assert forall up :: Eligible(up, service) <==> up.enabled && up.healthy && (service == "" || Serves(up, service));
      hide *;
      pool, total := [], 0;
      var todo := upstreams.Keys;
      EmptyTotal();
      while todo != {}
        invariant todo <= upstreams.Keys
        invariant PartOfPool(upstreams, service, pool, todo) && Weighted(pool) && total == Total(pool)
        decreases |todo|
      {
        var n :| n in todo;
        var up := upstreams[n];
        PoolStep(upstreams, routes, service, pool, todo, n);
        todo := todo - {n};
        if !up.enabled || !up.healthy {
          continue;
        }
        var serves := ServesService(up, service);
        if service != "" && !serves {
          continue;
        }
        pool := pool + [up];
        total := total + up.weight;
      }
      PoolDone(upstreams, service, pool, todo);
    }

    /** rand(n) stands for a draw below n. */
    method PickUpstream(serviceName: string, rand: nat -> nat) returns (r: Option<Upstream>)
      requires Valid()
      requires forall n: nat :: n > 0 ==> rand(n) < n
      ensures r.None? <==> forall n :: n in upstreams ==> !Eligible(upstreams[n], TrimSpace(serviceName))
      ensures r.Some? ==> exists pool :: IsPool(upstreams, TrimSpace(serviceName), pool) && DrawnFrom(pool, rand, r.value)
      ensures r.Some? ==> Takes(upstreams, r.value, TrimSpace(serviceName))
      ensures r.None? ==> forall up :: !Takes(upstreams, up, TrimSpace(serviceName))
    {
      PoolTakes(upstreams, TrimSpace(serviceName));
      hide *;
      var pool, total := CollectPool(TrimSpace(serviceName));
      EmptyPool(upstreams, TrimSpace(serviceName), pool);
      if |pool| == 0 {
        return None;
      }
      PoolHasWeight(pool);
      var up := PickWeightedUpstream(pool, rand(total));
      IsDrawn(pool, rand, up);
      return Some(up);
    }

    /** A route whose upstream has no service is served by that upstream or its fallback; otherwise
        by anyone serving the first service, and by the name itself only if nobody does. */
    method PickForRoute(name: string, rand: nat -> nat) returns (r: Option<Upstream>)
      requires Valid()
      requires forall n: nat :: n > 0 ==> rand(n) < n
      ensures LeadsTo(upstreams, name, rand, r)
      ensures r.Some? ==> MayServe(upstreams, name, r.value)
      ensures r.None? ==> forall up :: !MayServe(upstreams, name, up)
    {
      var n := TrimSpace(name);
      if n !in upstreams {
        return None;
      }
      var named := upstreams[n];
      if |named.services| == 0 {
        r := SelectUpstream(name);
        SelectIsLive(upstreams, name);
        return;
      }
      r := PickUpstream(named.services[0], rand);
      if r.Some? {
        ghost var pool :| IsPool(upstreams, TrimSpace(named.services[0]), pool) && DrawnFrom(pool, rand, r.value);
        PoolMayServe(upstreams, name, pool, r.value);
        return;
      }
      SelectIsLive(upstreams, name);
      r := SelectUpstream(name);
    }

    method ResolveRouteTarget(routeName: string, rand: nat -> nat) returns (r: Option<string>)
      requires Valid()
      requires forall n: nat :: n > 0 ==> rand(n) < n
      ensures r.Some? <==> Resolvable(upstreams, routes, TrimSpace(routeName))
      ensures r.Some? ==> ResolvesTo(upstreams, routes, TrimSpace(routeName), r.value)
      ensures TargetOf(upstreams, routes, TrimSpace(routeName), rand, r)
    {
      var n := TrimSpace(routeName);
      if n !in routes {
        return None;
      }
      var route := routes[n];
      if route.upstream != "" {
        var up := PickForRoute(route.upstream, rand);
        if up.Some? {
          return Some(up.value.target);
        }
        return None;
      }
      if route.target != "" {
        return Some(route.target);
      }
      return None;
    }
  }

  method ServesService(up: Upstream, service: string) returns (r: bool)
    ensures r == Serves(up, service)
  {
    if |up.services| == 0 {
      return true;
    }
    for i := 0 to |up.services|
      invariant forall j :: 0 <= j < i ==> TrimSpace(up.services[j]) != service
    {
      if TrimSpace(up.services[i]) == service {
        return true;
      }
    }
    return false;
  }

  /** A registered route resolves when it is inline or somebody may serve it. */
  ghost predicate Resolvable(upstreams: Backends, routes: Routes, n: string) {
    n in routes && (routes[n].upstream == "" || exists up :: MayServe(upstreams, routes[n].upstream, up))
  }

  /** The target is the inline one, or that of an enabled and healthy registered upstream which
      may serve the route. */
  ghost predicate ResolvesTo(upstreams: Backends, routes: Routes, n: string, target: string) {
    n in routes && target != "" &&
    if routes[n].upstream == "" then target == routes[n].target
    else exists up :: MayServe(upstreams, routes[n].upstream, up) && up.target == target
  }

  /** The target of a route: the inline one, or that of the upstream its reference leads to. */
  ghost predicate TargetOf(upstreams: Backends, routes: Routes, n: string, rand: nat -> nat, target: Option<string>) {
    if n !in routes then target == None
    else if routes[n].upstream == "" then target == Some(routes[n].target)
    else exists up :: LeadsTo(upstreams, routes[n].upstream, rand, up) &&
                      target == if up.Some? then Some(up.value.target) else None
  }

  // ---------------------------------------------------------------- lemmas the code rests on

  lemma UpstreamKeepsSound(upstreams: Backends, routes: Routes, u: Upstream, raw: string)
    requires Sound(upstreams, routes) && SoundUpstream(u, u.name) && u.name !in upstreams
    ensures Sound(upstreams[u.name := u], routes)
  {
    hide SoundUpstream, TrimSpace;
    var more := upstreams[u.name := u];
    forall n | n in routes ensures SoundRoute(routes[n], n, more) { assert SoundRoute(routes[n], n, upstreams); }
  }

  ghost predicate PartOfPool(upstreams: Backends, service: string, pool: seq<Upstream>, todo: set<string>) {
    (forall i :: 0 <= i < |pool| ==>
       Eligible(pool[i], service) && pool[i].name in upstreams && upstreams[pool[i].name] == pool[i] && pool[i].name !in todo) &&
    DistinctNames(pool) &&
    forall n :: n in upstreams && n !in todo && Eligible(upstreams[n], service) ==> upstreams[n] in pool
  }

  lemma PoolStep(upstreams: Backends, routes: Routes, service: string, pool: seq<Upstream>, todo: set<string>, n: string)
    requires Sound(upstreams, routes) && PartOfPool(upstreams, service, pool, todo) && n in todo && n in upstreams && Weighted(pool)
    ensures Eligible(upstreams[n], service) ==>
              PartOfPool(upstreams, service, pool + [upstreams[n]], todo - {n}) && Weighted(pool + [upstreams[n]]) &&
              Total(pool + [upstreams[n]]) == Total(pool) + upstreams[n].weight
    ensures !Eligible(upstreams[n], service) ==> PartOfPool(upstreams, service, pool, todo - {n})
  {
    hide Eligible, TrimSpace;
    assert SoundUpstream(upstreams[n], n);
    var more := pool + [upstreams[n]];
    assert more[..|pool|] == pool;
    assert forall x :: x in pool ==> x in more;
    assert more[|pool|] == upstreams[n];
  }

  lemma PoolHasWeight(pool: seq<Upstream>)
    requires Weighted(pool) && pool != []
    ensures Total(pool) > 0
  {
    TotalRises(pool, 0, |pool|);
    assert pool[..|pool|] == pool;
  }

  /** Any two pools of one service hold the same upstreams and the same total weight. */
  lemma PoolsAgree(upstreams: Backends, service: string, p: seq<Upstream>, q: seq<Upstream>)
    requires IsPool(upstreams, service, p) && IsPool(upstreams, service, q)
    ensures Total(p) == Total(q) && forall x :: x in p <==> x in q
  {
    hide Eligible;
    TotalIgnoresOrder(p, q);
  }

  lemma PoolDone(upstreams: Backends, service: string, pool: seq<Upstream>, todo: set<string>)
    requires PartOfPool(upstreams, service, pool, todo) && todo == {}
    ensures IsPool(upstreams, service, pool)
  {
  }

  lemma EmptyPool(upstreams: Backends, service: string, pool: seq<Upstream>)
    requires IsPool(upstreams, service, pool)
    ensures pool == [] <==> forall n :: n in upstreams ==> !Eligible(upstreams[n], service)
  {
    hide Eligible;
    if pool != [] { assert pool[0] == upstreams[pool[0].name]; }
  }

  lemma EmptyTotal()
    ensures Total([]) == 0
  {
  }

  lemma IsDrawn(pool: seq<Upstream>, rand: nat -> nat, up: Upstream)
    requires Weighted(pool) && Total(pool) > 0 && up in pool && exists i :: FallsTo(pool, rand(Total(pool)), i) && up == pool[i]
    ensures DrawnFrom(pool, rand, up)
  {
  }

  lemma SelectIsLive(upstreams: Backends, name: string)
    ensures var r := Select(upstreams, name);
            r.Some? ==> TrimSpace(name) in upstreams && r.value in upstreams.Values && Up(r.value)
  {
  }

  lemma PoolMayServe(upstreams: Backends, name: string, pool: seq<Upstream>, up: Upstream)
    requires var n := TrimSpace(name);
             n in upstreams && upstreams[n].services != [] && IsPool(upstreams, TrimSpace(upstreams[n].services[0]), pool)
    requires up in pool
    ensures MayServe(upstreams, name, up)
  {
    hide TrimSpace, Serves;
    var i :| 0 <= i < |pool| && pool[i] == up;
    assert pool[i] == upstreams[pool[i].name];
  }
}
