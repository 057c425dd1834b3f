/** What any sequence of registrations leaves in the registry (pkg/runtime/upstream.go and Register in
    pkg/runtime/config_registry.go), said with the registrations themselves. */
module RegistryRuns {
  import opened GoStrings
  import opened Upstreams
  import Router

  datatype Registration = AddUpstream(upstream: Upstream) | AddRoute(route: Route)

  datatype Registry = Registry(upstreams: Backends, routes: Routes)

  /** What RegisterUpstream and Register do. */
  function Registered(s: Registry, e: Registration, parses: string -> bool): Registry {
    match e
    case AddUpstream(u) =>
      if UpstreamRefusal(s.upstreams, u, parses).Some? then s else s.(upstreams := s.upstreams[Trimmed(u).name := Trimmed(u)])
    case AddRoute(r) =>
      if RouteRefusal(s.upstreams, s.routes, r).Some? then s else s.(routes := s.routes[Kept(r).name := Kept(r)])
  }

  function Run(es: seq<Registration>, parses: string -> bool): Registry {
    if es == [] then Registry(map[], map[]) else Registered(Run(es[..|es| - 1], parses), es[|es| - 1], parses)
  }

  // ---------------------------------------------------------------- upstreams

  predicate CompleteUpstream(u: Upstream, parses: string -> bool) {
    TrimSpace(u.name) != "" && TrimSpace(u.target) != "" && parses(TrimSpace(u.target)) && TrimSpace(u.fallback) != TrimSpace(u.name)
  }

  /** The first complete upstream of a name. */
  function FirstUpstream(es: seq<Registration>, n: string, parses: string -> bool): Option<Upstream> {
    if es == [] then None
    else
      var earlier, e := FirstUpstream(es[..|es| - 1], n, parses), es[|es| - 1];
      if earlier.None? && e.AddUpstream? && TrimSpace(e.upstream.name) == n && CompleteUpstream(e.upstream, parses) then Some(e.upstream)
      else earlier
  }

  predicate UpstreamAs(v: Upstream, u: Upstream) {
    && v.name == TrimSpace(u.name) && v.target == TrimSpace(u.target) && v.fallback == TrimSpace(u.fallback)
    && v.services == u.services && v.enabled == u.enabled && v.healthy == u.healthy
    && v.weight == if u.weight > 0 then u.weight else 1
  }

  /** After any registrations an upstream is there iff a complete one of its name was offered, and it is
      the first of them, its names trimmed and its weight at least 1. */
  lemma {:induction false} FirstUpstreamStays(es: seq<Registration>, n: string, parses: string -> bool)
    ensures var s := Run(es, parses);
            (n in s.upstreams <==> FirstUpstream(es, n, parses).Some?) &&
            (n in s.upstreams ==> UpstreamAs(s.upstreams[n], FirstUpstream(es, n, parses).value))
  {
    if es != [] {
      var front, e := es[..|es| - 1], es[|es| - 1];
      FirstUpstreamStays(front, n, parses);
      if e.AddUpstream? { UpstreamTaken(Run(front, parses).upstreams, e.upstream, parses); }
      hide TrimSpace, UpstreamRefusal, Trimmed, RouteRefusal, UpstreamAs;
    }
  }

  lemma UpstreamTaken(upstreams: Backends, u: Upstream, parses: string -> bool)
    ensures UpstreamRefusal(upstreams, u, parses) == None <==> CompleteUpstream(u, parses) && TrimSpace(u.name) !in upstreams
    ensures Trimmed(u).name == TrimSpace(u.name) && UpstreamAs(Trimmed(u), u)
  {
    hide TrimSpace;
  }

  // ---------------------------------------------------------------- routes

  /** A route needs a name, a method or a path of its own, and a target or an upstream that is there; it
      must be enabled. */
  predicate CompleteRoute(earlier: seq<Registration>, r: Route, parses: string -> bool) {
    && TrimSpace(r.name) != "" && r.enabled
    && (TrimSpace(r.verb) == "" ==> Router.NormalizePath(r.path) != "/")
    && (if r.upstream == "" then TrimSpace(r.target) != "" else FirstUpstream(earlier, TrimSpace(r.upstream), parses).Some?)
  }

  function FirstRoute(es: seq<Registration>, n: string, parses: string -> bool): Option<Route> {
    if es == [] then None
    else
      var front, e := es[..|es| - 1], es[|es| - 1];
      var earlier := FirstRoute(front, n, parses);
      if earlier.None? && e.AddRoute? && TrimSpace(e.route.name) == n && CompleteRoute(front, e.route, parses) then Some(e.route)
      else earlier
  }

  predicate RouteAs(v: Route, r: Route) {
    && v.name == TrimSpace(r.name) && v.target == TrimSpace(r.target) && v.upstream == TrimSpace(r.upstream)
    && v.path == Router.NormalizePath(r.path) && v.enabled && v.weight == (if r.weight > 0 then r.weight else 100)
    && v.verb == if TrimSpace(r.verb) == "" then "ANY" else Router.ToUpper(TrimSpace(r.verb))
  }

  /** A route is there iff one of its name was offered when it was complete, and it is the first of them. */
  lemma {:induction false} FirstRouteStays(es: seq<Registration>, n: string, parses: string -> bool)
    ensures var s := Run(es, parses);
            (n in s.routes <==> FirstRoute(es, n, parses).Some?) &&
            (n in s.routes ==> RouteAs(s.routes[n], FirstRoute(es, n, parses).value))
  {
    if es != [] {
      var front, e := es[..|es| - 1], es[|es| - 1];
      FirstRouteStays(front, n, parses);
      if e.AddRoute? { RouteTaken(front, Run(front, parses), e.route, parses); }
      hide TrimSpace, UpstreamRefusal, Kept, RouteRefusal, RouteAs, CompleteRoute;
    }
  }

  lemma RouteTaken(earlier: seq<Registration>, s: Registry, r: Route, parses: string -> bool)
    requires s == Run(earlier, parses)
    ensures RouteRefusal(s.upstreams, s.routes, r) == None <==> CompleteRoute(earlier, r, parses) && TrimSpace(r.name) !in s.routes
    ensures Kept(r).name == TrimSpace(r.name) && (r.enabled ==> RouteAs(Kept(r), r))
  {
    FirstUpstreamStays(earlier, TrimSpace(r.upstream), parses);
    UpperIsBlank(TrimSpace(r.verb));
    assert TrimSpace("") == "";
    hide TrimSpace, Run, FirstUpstream, Router.NormalizePath, Router.ToUpper;
  }

  lemma UpperIsBlank(s: string)
    ensures Router.ToUpper(s) == "" <==> s == ""
  {
  }
}
