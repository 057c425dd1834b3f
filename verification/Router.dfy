/** Registration, route selection and the process-wide pattern index
    (pkg/runtime/router.go; normalizePath lives in pkg/runtime/proxy.go). */
module Router {
  import opened GoStrings
  import opened KeyOrders
  import opened RouteMatching
  import opened RoutePatterns

  type Handler = nat

  /** A route pattern compiled at registration time. */
  datatype RouteEntry = RouteEntry(handler: Handler, segments: seq<RouteSegment>, hasParams: bool, literals: nat)

  type MethodRoutes = map<string, RouteEntry>
  type Routes = map<string, MethodRoutes>
  type PatternIndex = map<string, seq<RouteSegment>>

  function NormalizePath(path: string): (n: string)
    ensures "/" <= n
  {
    if path == "" then "/"
    else
      var p := if path[0] != '/' then "/" + path else path;
      if p != "/" && p[|p| - 1] == '/' then p[..|p| - 1] else p
  }

  /** Normalising strips one trailing slash only, so a second pass changes exactly the
      paths that end in "//" (the path "//" itself excepted). */
  lemma NormalizeTwice(path: string)
    ensures NormalizePath(NormalizePath(path)) == NormalizePath(path) <==> !(|path| > 2 && HasSuffix(path, "//"))
  {
    if |path| >= 2 {
      assert path[|path| - 2..] == [path[|path| - 2], path[|path| - 1]];
    }
  }

  function UpperChar(c: char): char {
    if 'a' <= c <= 'z' then (c as int - 32) as char else c
  }

  function ToUpper(s: string): string {
    seq(|s|, i requires 0 <= i < |s| => UpperChar(s[i]))
  }

  // ---------------------------------------------------------------- registration

  /** Wildcard patterns keep the prefix semantics and are never compiled. */
  predicate Indexable(path: string) {
    !HasSuffix(path, "/*") && HasParams(Compile(path))
  }

  /** The specificity score: whole-segment parameters do not count. */
  function CountLiterals(segs: seq<RouteSegment>): nat {
    if segs == [] then 0 else (if segs[0].Param? then 0 else 1) + CountLiterals(segs[1..])
  }

  lemma {:induction false} CountLiteralsSnoc(segs: seq<RouteSegment>, s: RouteSegment)
    ensures CountLiterals(segs + [s]) == CountLiterals(segs) + if s.Param? then 0 else 1
  {
    if segs == [] {
      assert [s][1..] == [];
    } else {
      CountLiteralsSnoc(segs[1..], s);
      assert (segs + [s])[1..] == segs[1..] + [s];
    }
  }

  function EntryFor(path: string, handler: Handler): RouteEntry {
    if Indexable(path) then RouteEntry(handler, Compile(path), true, CountLiterals(Compile(path)))
    else RouteEntry(handler, [], false, 0)
  }

  function Registered(routes: Routes, verb: string, path: string, handler: Handler): Routes {
    var m, p := ToUpper(verb), NormalizePath(path);
    var own := if m in routes then routes[m] else map[];
    routes[m := own[p := EntryFor(p, handler)]]
  }

  function Indexed(index: PatternIndex, path: string): PatternIndex {
    var p := NormalizePath(path);
    if Indexable(p) && p !in index then index[p := Compile(p)] else index
  }

  /** The copy-on-write index shared by every router. */
  class ParamPatternIndex {
    var entries: PatternIndex

    constructor ()
      ensures entries == map[]
    {
      entries := map[];
    }

    /** indexParamPattern: an entry, once there, is never replaced. */
    method Index(pattern: string, segments: seq<RouteSegment>)
      modifies this
      ensures entries == if pattern in old(entries) then old(entries) else old(entries)[pattern := segments]
    {
      var current := entries;
      if pattern in current {
        return;
      }
      var next := current[pattern := segments];
      entries := next;
    }
  }

  class RouterTable {
    var routes: Routes

    constructor ()
      ensures routes == map[]
    {
      routes := map[];
    }

    method Handle(index: ParamPatternIndex, verb: string, path: string, handler: Handler)
      modifies this, index
      ensures routes == Registered(old(routes), verb, path, handler)
      ensures index.entries == Indexed(old(index.entries), path)
    {
      var m, p := ToUpper(verb), NormalizePath(path);
      if m !in routes {
        routes := routes[m := map[]];
      }
      var own := routes[m];
      var entry := CompileEntry(index, p, handler);
      own := own[p := entry];
      routes := routes[m := own];
    }
  }

  method Specificity(segments: seq<RouteSegment>) returns (literals: nat)
    ensures literals == CountLiterals(segments)
  {
    literals := 0;
    for i := 0 to |segments|
      invariant literals == CountLiterals(segments[..i])
    {
      CountLiteralsSnoc(segments[..i], segments[i]);
      assert segments[..i + 1] == segments[..i] + [segments[i]];
      if !segments[i].Param? {
        literals := literals + 1;
      }
    }
    assert segments[..|segments|] == segments;
  }

  /** The part of Handle that compiles and indexes one normalised pattern. */
  method CompileEntry(index: ParamPatternIndex, p: string, handler: Handler) returns (entry: RouteEntry)
    modifies index
    ensures entry == EntryFor(p, handler)
    ensures index.entries == if Indexable(p) && p !in old(index.entries) then old(index.entries)[p := Compile(p)] else old(index.entries)
  {
    entry := RouteEntry(handler, [], false, 0);
    if HasSuffix(p, "/*") {
      return;
    }
    var segments, hasParams := CompilePattern(p);
    if hasParams {
      var literals := Specificity(segments);
      entry := RouteEntry(handler, segments, true, literals);
      index.Index(p, segments);
    }
  }

  // ---------------------------------------------------------------- route selection

  function WildcardBase(route: string): string
    requires HasSuffix(route, "/*")
  {
    route[..|route| - 2]
  }

  /** routeMatches: prefix matching for routes without parameters. */
  predicate RouteMatches(route: string, path: string) {
    var r, p := NormalizePath(route), NormalizePath(path);
    r == p ||
    if HasSuffix(r, "/*") then
      var base := WildcardBase(r);
      base == "" || base == p || base + "/" <= p
    else r + "/" <= p
  }

  lemma {:induction false} JoinAppend(p: seq<string>, q: seq<string>)
    requires p != [] && q != []
    ensures Join(p + q, '/') == Join(p, '/') + "/" + Join(q, '/')
  {
    assert (p + q)[1..] == p[1..] + q;
    if |p| > 1 {
      JoinAppend(p[1..], q);
    }
  }

  lemma SplitAppend(a: string, b: string)
    ensures Split(a + "/" + b, '/') == Split(a, '/') + Split(b, '/')
  {
    var p, q := Split(a, '/'), Split(b, '/');
    JoinSplit(a, '/');
    JoinSplit(b, '/');
    JoinAppend(p, q);
    SplitJoin(p + q, '/');
  }

  /** Such a prefix match never stops inside a segment: the route's segments are the first
      segments of the path. */
  lemma PrefixIsSegmentPrefix(a: string, b: string)
    ensures a == b || a + "/" <= b <==> Split(a, '/') <= Split(b, '/')
  {
    hide Split;
    if a + "/" <= b {
      SplitAppend(a, b[|a| + 1..]);
      assert b == a + "/" + b[|a| + 1..];
    }
    if Split(a, '/') <= Split(b, '/') { SegmentPrefixIsPrefix(a, b); }
  }

  lemma SegmentPrefixIsPrefix(a: string, b: string)
    requires Split(a, '/') <= Split(b, '/')
    ensures a == b || a + "/" <= b
  {
    JoinSplit(a, '/');
    JoinSplit(b, '/');
    JoinPrefix(Split(a, '/'), Split(b, '/'));
  }

  lemma JoinPrefix(p: seq<string>, q: seq<string>)
    requires p != [] && p <= q
    ensures Join(p, '/') == Join(q, '/') || Join(p, '/') + "/" <= Join(q, '/')
  {
    var rest := q[|p|..];
    assert q == p + rest;
    if rest == [] {
      assert p + rest == p;
    } else {
      JoinAppend(p, rest);
    }
  }

  /** The route is the path, or its segments (without the "*" of a wildcard) are the first segments
      of the path. */
  predicate Covers(route: string, path: string) {
    var r, p := NormalizePath(route), NormalizePath(path);
    r == p || Split(if HasSuffix(r, "/*") then r[..|r| - 2] else r, '/') <= Split(p, '/')
  }

  /** Prefix matching never stops inside a segment. */
  lemma RouteMatchesIff(route: string, path: string)
    ensures RouteMatches(route, path) <==> Covers(route, path)
  {
    hide Split;
    var r, p := NormalizePath(route), NormalizePath(path);
    PrefixIsSegmentPrefix(if HasSuffix(r, "/*") then r[..|r| - 2] else r, p);
    assert "" + "/" == "/";
  }

  /** Normalising puts a '/' in front and takes one from the end: no segment but an empty one is gained
      or lost. */
  lemma NormalizeKeepsSegments(path: string)
    ensures Filled(Split(NormalizePath(path), '/')) == Filled(Split(path, '/'))
  {
    hide Split, Filled;
    var p := if path == "" || path[0] != '/' then "/" + path else path;
    if p != path {
      SlashInFront(path);
    }
    if NormalizePath(path) != p {
      SlashBehind(NormalizePath(path));
      assert NormalizePath(path) + "/" == p;
    }
  }

  lemma SlashInFront(s: string)
    ensures Filled(Split("/" + s, '/')) == Filled(Split(s, '/'))
  {
    var empty: string := [];
    SplitCons(empty, s, '/');
    assert empty + "/" + s == "/" + s;
    hide Split;
    assert ([empty] + Split(s, '/'))[1..] == Split(s, '/');
  }

  lemma SlashBehind(s: string)
    ensures Filled(Split(s + "/", '/')) == Filled(Split(s, '/'))
  {
    var empty: string := [];
    SplitAppend(s, empty);
    assert s + "/" + empty == s + "/";
    assert IndexByte(empty, '/') < 0;
    assert Split(empty, '/') == [empty];
    hide Split;
    FilledEmpty(Split(s, '/'), empty);
  }

  /** The pieces that are not empty. */
  function Filled(ps: seq<string>): seq<string> {
    if ps == [] then [] else (if |ps[0]| == 0 then [] else [ps[0]]) + Filled(ps[1..])
  }

  lemma {:induction false} FilledEmpty(ps: seq<string>, empty: string)
    requires |empty| == 0
    ensures Filled(ps + [empty]) == Filled(ps)
  {
    if ps == [] {
      assert [empty][1..] == [];
    } else {
      FilledEmpty(ps[1..], empty);
      assert (ps + [empty])[1..] == ps[1..] + [empty];
    }
  }

  predicate ParamCandidate(rs: MethodRoutes, path: string, p: string) {
    p in rs && rs[p].hasParams && MatchesPath(rs[p].segments, path)
  }

  predicate LegacyCandidate(rs: MethodRoutes, path: string, p: string) {
    p in rs && !rs[p].hasParams && p != "/" && RouteMatches(p, path)
  }

  predicate RootCandidate(rs: MethodRoutes) {
    "/" in rs && !rs["/"].hasParams
  }

  /** q ranks at least as high as p: more literal segments, or as many and not shorter. */
  predicate RanksAtLeast(rs: MethodRoutes, q: string, p: string)
    requires p in rs && q in rs
  {
    rs[q].literals > rs[p].literals || (rs[q].literals == rs[p].literals && |q| >= |p|)
  }

  ghost predicate BestParam(rs: MethodRoutes, path: string, q: string) {
    ParamCandidate(rs, path, q) && forall p :: ParamCandidate(rs, path, p) ==> RanksAtLeast(rs, q, p)
  }

  ghost predicate BestLegacy(rs: MethodRoutes, path: string, q: string) {
    LegacyCandidate(rs, path, q) && forall p :: LegacyCandidate(rs, path, p) ==> |q| >= |p|
  }

  /** The pattern a request may be dispatched to. */
  ghost predicate Selects(rs: MethodRoutes, path: string, r: Option<string>) {
    if path in rs then r == Some(path)
    else if exists p :: ParamCandidate(rs, path, p) then r.Some? && BestParam(rs, path, r.value)
    else if exists p :: LegacyCandidate(rs, path, p) then r.Some? && BestLegacy(rs, path, r.value)
    else if RootCandidate(rs) then r == Some("/")
    else r == None
  }

  /** What a dispatched request can rely on, said with segments: its route is registered and fits the
      path; of the parameter routes that fit none has more literal segments, or as many and a longer
      pattern; else of the other routes that fit none is longer; and without a route none fits. */
  ghost predicate Serves(rs: MethodRoutes, path: string, r: Option<string>) {
    match r
    case None =>
      path !in rs &&
      forall p :: p in rs ==> if rs[p].hasParams then !MatchesPath(rs[p].segments, path) else p != "/" && !Covers(p, path)
    case Some(q) =>
      q in rs && (path in rs ==> q == path) &&
      (path !in rs && rs[q].hasParams ==> MatchesPath(rs[q].segments, path)) &&
      (path !in rs && !rs[q].hasParams ==> q == "/" || Covers(q, path)) &&
      (path !in rs ==> forall p :: p in rs ==> Outdone(rs, path, q, p))
  }

  predicate Outdone(rs: MethodRoutes, path: string, q: string, p: string)
    requires p in rs && q in rs
  {
    if rs[p].hasParams then
      MatchesPath(rs[p].segments, path) ==>
        rs[q].hasParams && (rs[p].literals < rs[q].literals || (rs[p].literals == rs[q].literals && |p| <= |q|))
    else p != "/" && Covers(p, path) && !rs[q].hasParams ==> |p| <= |q| && q != "/"
  }

  /** The running best of the selection loop. */
  datatype Found = Found(param: Option<string>, legacy: Option<string>, root: bool)

  predicate Beats(rs: MethodRoutes, p: string, best: Option<string>)
    requires p in rs && (best.Some? ==> best.value in rs)
  {
    best.None? || rs[p].literals > rs[best.value].literals ||
    (rs[p].literals == rs[best.value].literals && |p| > |best.value|)
  }

  /** What one key does to the running best. */
  function Visit(rs: MethodRoutes, path: string, f: Found, p: string): (g: Found)
    requires p in rs && (f.param.Some? ==> f.param.value in rs)
    ensures g.param.Some? ==> g.param.value in rs
  {
    if rs[p].hasParams then
      if MatchesPath(rs[p].segments, path) && Beats(rs, p, f.param) then f.(param := Some(p)) else f
    else if p == "/" then f.(root := true)
    else if RouteMatches(p, path) && (f.legacy.None? || |p| > |f.legacy.value|) then f.(legacy := Some(p))
    else f
  }

  function Visited(rs: MethodRoutes, path: string, order: seq<string>): (f: Found)
    requires forall p :: p in order ==> p in rs
    ensures f.param.Some? ==> f.param.value in rs
  {
    if order == [] then Found(None, None, false)
    else Visit(rs, path, Visited(rs, path, order[..|order| - 1]), order[|order| - 1])
  }

  /** The route that is selected when the keys come in this order. */
  function RouteOf(rs: MethodRoutes, path: string, order: seq<string>): Option<string>
    requires forall p :: p in order ==> p in rs
  {
    if path in rs then Some(path)
    else
      var f := Visited(rs, path, order);
      if f.param.Some? then f.param else if f.legacy.Some? then f.legacy else if f.root then Some("/") else None
  }

  /** matchRoute on the routes of one method; the keys come in any order, as in a Go map. */
  method MatchRoute(rs: MethodRoutes, path: string) returns (r: Option<string>)
    ensures exists order :: Lists(order, rs.Keys) && r == RouteOf(rs, path, order)
    ensures Selects(rs, path, r)
    ensures Serves(rs, path, r)
  {
    assert path in rs ==> Serves(rs, path, Some(path));
    if path in rs {
      ghost var any := SomeOrder(rs.Keys);
      return Some(path);
    }
    var param, legacy: Option<string>, root := None, None, false;
    var todo := rs.Keys;
    ghost var order: seq<string>, done: set<string> := [], {};
    while todo != {}
      invariant todo <= rs.Keys && Lists(order, done) && (forall k :: k in order ==> k in rs)
      invariant forall k :: k in done <==> k in rs && k !in todo
      invariant param.Some? ==> param.value in rs
      invariant Visited(rs, path, order) == Found(param, legacy, root)
      decreases |todo|
    {
      var pattern :| pattern in todo;
      todo := todo - {pattern};
      VisitedSnoc(rs, path, order, pattern);
      ListsOneMore(order, done, pattern);
      order, done := order + [pattern], done + {pattern};
      var entry := rs[pattern];
      if entry.hasParams {
        var ok := MatchParams(entry.segments, path);
        if !ok {
          continue;
        }
        if param.None? || entry.literals > rs[param.value].literals ||
           (entry.literals == rs[param.value].literals && |pattern| > |param.value|) {
          param := Some(pattern);
        }
      } else if pattern == "/" {
        root := true;
      } else if RouteMatches(pattern, path) {
        if legacy.None? || |pattern| > |legacy.value| {
          legacy := Some(pattern);
        }
      }
    }
    assert done == rs.Keys;
    OrderSelects(rs, path, order);
    SelectedServes(rs, path, RouteOf(rs, path, order));
    if param.Some? {
      return param;
    } else if legacy.Some? {
      return legacy;
    } else if root {
      return Some("/");
    }
    return None;
  }

  lemma VisitedSnoc(rs: MethodRoutes, path: string, order: seq<string>, p: string)
    requires (forall k :: k in order ==> k in rs) && p in rs
    ensures (forall k :: k in order + [p] ==> k in rs) &&
            Visited(rs, path, order + [p]) == Visit(rs, path, Visited(rs, path, order), p)
  {
    assert (order + [p])[..|order|] == order;
  }

  // ---------------------------------------------------------------- what an order selects

  /** The running best is the best of the keys visited. */
  ghost predicate BestOf(rs: MethodRoutes, path: string, order: seq<string>, f: Found) {
    && (f.param.Some? ==> ParamCandidate(rs, path, f.param.value))
    && (forall p :: p in order && ParamCandidate(rs, path, p) ==> f.param.Some? && RanksAtLeast(rs, f.param.value, p))
    && (f.legacy.Some? ==> LegacyCandidate(rs, path, f.legacy.value))
    && (forall p :: p in order && LegacyCandidate(rs, path, p) ==> f.legacy.Some? && |f.legacy.value| >= |p|)
    && (f.root <==> "/" in order && RootCandidate(rs))
  }

  lemma {:induction false} VisitedIsBest(rs: MethodRoutes, path: string, order: seq<string>)
    requires forall p :: p in order ==> p in rs
    ensures BestOf(rs, path, order, Visited(rs, path, order))
  {
    if order != [] {
      var front, p := order[..|order| - 1], order[|order| - 1];
      assert front + [p] == order;
      VisitedIsBest(rs, path, front);
      BestOfNext(rs, path, front, Visited(rs, path, front), p);
    }
  }

  lemma BestOfNext(rs: MethodRoutes, path: string, front: seq<string>, f: Found, p: string)
    requires BestOf(rs, path, front, f) && p in rs
    ensures BestOf(rs, path, front + [p], Visit(rs, path, f, p))
  {
    hide MatchesPath, RouteMatches;
    var g, order := Visit(rs, path, f, p), front + [p];
    assert forall q :: q in order <==> q in front || q == p;
    assert ParamCandidate(rs, path, p) ==> g.param.Some? && RanksAtLeast(rs, g.param.value, p);
  }

  lemma OrderSelects(rs: MethodRoutes, path: string, order: seq<string>)
    requires Lists(order, rs.Keys)
    ensures Selects(rs, path, RouteOf(rs, path, order))
  {
    hide MatchesPath, RouteMatches, RanksAtLeast;
    if path !in rs {
      VisitedIsBest(rs, path, order);
      BestSelects(rs, path, order, Visited(rs, path, order));
    }
  }

  lemma SelectedServes(rs: MethodRoutes, path: string, r: Option<string>)
    requires Selects(rs, path, r)
    ensures Serves(rs, path, r)
  {
    hide MatchesPath, RouteMatches, Covers;
    forall p | p in rs
      ensures ParamCandidate(rs, path, p) <==> rs[p].hasParams && MatchesPath(rs[p].segments, path)
      ensures LegacyCandidate(rs, path, p) <==> !rs[p].hasParams && p != "/" && Covers(p, path)
    {
      RouteMatchesIff(p, path);
    }
    match r
    case None => assert forall p :: p in rs ==> !ParamCandidate(rs, path, p) && !LegacyCandidate(rs, path, p);
    case Some(q) =>
      if path !in rs {
        forall p | p in rs ensures Outdone(rs, path, q, p) {
          assert ParamCandidate(rs, path, p) ==> BestParam(rs, path, q);
          assert LegacyCandidate(rs, path, p) && !rs[q].hasParams ==> BestLegacy(rs, path, q);
        }
      }
  }

  lemma BestSelects(rs: MethodRoutes, path: string, order: seq<string>, f: Found)
    requires path !in rs && Lists(order, rs.Keys) && BestOf(rs, path, order, f)
    ensures Selects(rs, path, if f.param.Some? then f.param else if f.legacy.Some? then f.legacy else if f.root then Some("/") else None)
  {
    hide MatchesPath, RouteMatches, RanksAtLeast;
    assert forall p :: ParamCandidate(rs, path, p) ==> p in order;
    assert forall p :: LegacyCandidate(rs, path, p) ==> p in order;
  }

  lemma ParamStays(rs: MethodRoutes, path: string, f: Found, best: string, p: string)
    requires BestParam(rs, path, best) && p in rs && (f.param == Some(best) || (f.param == None && p == best))
    ensures Visit(rs, path, f, p).param == Some(best)
  {
    hide MatchesPath, RouteMatches;
    assert ParamCandidate(rs, path, p) ==> RanksAtLeast(rs, best, p);
  }

  lemma LegacyStays(rs: MethodRoutes, path: string, f: Found, best: string, p: string)
    requires BestLegacy(rs, path, best) && p in rs && (f.legacy == Some(best) || (f.legacy == None && p == best))
    requires f.param.Some? ==> f.param.value in rs
    ensures Visit(rs, path, f, p).legacy == Some(best)
  {
    hide MatchesPath, RouteMatches;
    assert LegacyCandidate(rs, path, p) ==> |best| >= |p|;
  }

  /** A best parameter route that comes first stays the winner, so does a best legacy route among
      the legacy routes. */
  lemma {:induction false} FirstStays(rs: MethodRoutes, path: string, order: seq<string>)
    requires order != [] && forall p :: p in order ==> p in rs
    ensures BestParam(rs, path, order[0]) ==> Visited(rs, path, order).param == Some(order[0])
    ensures BestLegacy(rs, path, order[0]) ==> Visited(rs, path, order).legacy == Some(order[0])
  {
    hide BestParam, BestLegacy, Visit;
    var front, p := order[..|order| - 1], order[|order| - 1];
    var f := Visited(rs, path, front);
    if front != [] { FirstStays(rs, path, front); }
    if BestParam(rs, path, order[0]) { ParamStays(rs, path, f, order[0], p); }
    if BestLegacy(rs, path, order[0]) { LegacyStays(rs, path, f, order[0], p); }
  }

  /** The routes that some key order selects are exactly those that Selects describes. */
  lemma SelectedBySomeOrder(rs: MethodRoutes, path: string, r: Option<string>) returns (order: seq<string>)
    requires Selects(rs, path, r)
    ensures Lists(order, rs.Keys) && RouteOf(rs, path, order) == r
  {
    hide MatchesPath, RouteMatches, RanksAtLeast, Visited;
    order := SomeOrder(rs.Keys);
    OrderSelects(rs, path, order);
    if path !in rs && r.Some? && BestParam(rs, path, r.value) {
      order := OrderFrom(rs.Keys, r.value);
      FirstStays(rs, path, order);
    } else if path !in rs && r.Some? && BestLegacy(rs, path, r.value) {
      order := OrderFrom(rs.Keys, r.value);
      FirstStays(rs, path, order);
      VisitedIsBest(rs, path, order);
    }
  }

  datatype Rank = NoRoute | Root | Legacy(length: nat) | ByParams(literals: nat, length: nat) | Exact

  function RankOf(rs: MethodRoutes, path: string, r: Option<string>): Rank {
    if r.None? || r.value !in rs then NoRoute
    else if r.value == path then Exact
    else if rs[r.value].hasParams then ByParams(rs[r.value].literals, |r.value|)
    else if r.value == "/" then Root
    else Legacy(|r.value|)
  }

  /** Whatever the map order, two runs land in the same category with the same score; so
      they can differ only between candidates that tie. */
  lemma SelectionRankIsFixed(rs: MethodRoutes, path: string, o1: seq<string>, o2: seq<string>)
    requires Lists(o1, rs.Keys) && Lists(o2, rs.Keys)
    ensures var r1, r2 := RouteOf(rs, path, o1), RouteOf(rs, path, o2);
            && RankOf(rs, path, r1) == RankOf(rs, path, r2)
            && (r1 != r2 ==> RankOf(rs, path, r1).Legacy? || RankOf(rs, path, r1).ByParams?)
  {
    hide MatchesPath, RouteMatches, RouteOf;
    OrderSelects(rs, path, o1);
    OrderSelects(rs, path, o2);
  }

  /** And every candidate that ties with the route of one order is the route of another. */
  lemma TiesAreSelectable(rs: MethodRoutes, path: string, o: seq<string>, q: string) returns (order: seq<string>)
    requires Lists(o, rs.Keys) && RankOf(rs, path, Some(q)) == RankOf(rs, path, RouteOf(rs, path, o)) != NoRoute
    requires ParamCandidate(rs, path, q) || LegacyCandidate(rs, path, q)
    ensures Lists(order, rs.Keys) && RouteOf(rs, path, order) == Some(q)
  {
    hide MatchesPath, RouteMatches, RouteOf;
    OrderSelects(rs, path, o);
    var r := RouteOf(rs, path, o);
    if path !in rs {
      if ParamCandidate(rs, path, q) {
        assert BestParam(rs, path, r.value);
      } else {
        assert BestLegacy(rs, path, r.value);
      }
    }
    order := SelectedBySomeOrder(rs, path, Some(q));
  }

  /** Two different routes are the best of the category that decides. */
  ghost predicate Tied(rs: MethodRoutes, path: string, p: string, q: string) {
    p != q &&
    ((BestParam(rs, path, p) && BestParam(rs, path, q)) ||
     ((forall c :: !ParamCandidate(rs, path, c)) && BestLegacy(rs, path, p) && BestLegacy(rs, path, q)))
  }

  /** Of two routes that tie the one whose key comes first is selected. */
  lemma FirstOfTied(rs: MethodRoutes, path: string, order: seq<string>, q: string)
    requires path !in rs && Lists(order, rs.Keys) && order != [] && Tied(rs, path, order[0], q)
    ensures RouteOf(rs, path, order) == Some(order[0])
  {
    hide MatchesPath, RouteMatches, RanksAtLeast, Visited;
    VisitedIsBest(rs, path, order);
    FirstStays(rs, path, order);
  }

  lemma SelectedDiffer(rs: MethodRoutes, path: string, o1: seq<string>, o2: seq<string>)
    requires path !in rs && Lists(o1, rs.Keys) && Lists(o2, rs.Keys) && RouteOf(rs, path, o1) != RouteOf(rs, path, o2)
    ensures RouteOf(rs, path, o1).Some? && RouteOf(rs, path, o2).Some?
    ensures Tied(rs, path, RouteOf(rs, path, o1).value, RouteOf(rs, path, o2).value)
  {
    hide MatchesPath, RouteMatches, RanksAtLeast, RootCandidate, RouteOf;
    OrderSelects(rs, path, o1);
    OrderSelects(rs, path, o2);
  }

  /** All key orders select one route exactly when the path is registered as it stands or no two
      routes tie for the best place. */
  lemma RouteIsFixedIff(rs: MethodRoutes, path: string)
    ensures (forall o1, o2 :: Lists(o1, rs.Keys) && Lists(o2, rs.Keys) ==> RouteOf(rs, path, o1) == RouteOf(rs, path, o2)) <==>
            path in rs || forall p, q :: !Tied(rs, path, p, q)
  {
    hide BestParam, BestLegacy, ParamCandidate, Visited;
    if path !in rs {
      if p, q :| Tied(rs, path, p, q) {
        var o1, o2 := OrdersOfTied(rs, path, p, q);
      }
      if o1, o2 :| Lists(o1, rs.Keys) && Lists(o2, rs.Keys) && RouteOf(rs, path, o1) != RouteOf(rs, path, o2) {
        SelectedDiffer(rs, path, o1, o2);
      }
    }
  }

  lemma OrdersOfTied(rs: MethodRoutes, path: string, p: string, q: string) returns (o1: seq<string>, o2: seq<string>)
    requires path !in rs && Tied(rs, path, p, q)
    ensures Lists(o1, rs.Keys) && Lists(o2, rs.Keys)
    ensures RouteOf(rs, path, o1) == Some(p) && RouteOf(rs, path, o2) == Some(q) != Some(p)
  {
    hide MatchesPath, RouteMatches, RanksAtLeast, RouteOf;
    o1 := OrderFrom(rs.Keys, p);
    o2 := OrderFrom(rs.Keys, q);
    FirstOfTied(rs, path, o1, q);
    FirstOfTied(rs, path, o2, p);
  }

  /** A table of two routes that tie, looked at in both orders. */
  lemma BothOrders(rs: MethodRoutes, path: string, p: string, q: string)
    requires path !in rs && rs.Keys == {p, q} && Tied(rs, path, p, q)
    ensures Lists([p, q], rs.Keys) && RouteOf(rs, path, [p, q]) == Some(p)
    ensures Lists([q, p], rs.Keys) && RouteOf(rs, path, [q, p]) == Some(q)
  {
    hide MatchesPath, RouteMatches, RanksAtLeast, RouteOf;
    FirstOfTied(rs, path, [p, q], q);
    FirstOfTied(rs, path, [q, p], p);
  }

  lemma TwoSegments(pattern: string, a: string, b: string)
    requires '/' !in a && '/' !in b && pattern == "/" + (a + "/" + b)
    ensures Split(pattern[1..], '/') == [a, b] && Compile(pattern) == [CompileSegment(a), CompileSegment(b)]
  {
    hide Split, CompileSegment;
    SplitJoin([a, b], '/');
    assert Join([a, b], '/') == a + "/" + b by { assert [a, b][1..] == [b]; }
    assert a + "/" + b == pattern[1..];
  }

  /** A pattern of one parameter and one literal, in either place. */
  lemma ParamAndLiteral(pattern: string, name: string, text: string, h: Handler)
    requires ValidName(name) && '{' !in text && ':' !in text && '/' !in text && !HasSuffix(pattern, "/*") && '/' !in name
    ensures pattern == "/" + ("{" + name + "}" + "/" + text) ==>
              EntryFor(pattern, h) == RouteEntry(h, [Param(name), Literal(text)], true, 1)
    ensures pattern == "/" + (text + "/" + ("{" + name + "}")) ==>
              EntryFor(pattern, h) == RouteEntry(h, [Literal(text), Param(name)], true, 1)
  {
    var hole := "{" + name + "}";
    LoneHoleIff(Hole(name), Braces);
    NoBraceLiteral(text);
    assert CompileSegment(hole) == Param(name);
    if pattern == "/" + (hole + "/" + text) { TwoSegments(pattern, hole, text); }
    if pattern == "/" + (text + "/" + hole) { TwoSegments(pattern, text, hole); }
    hide Compile, CompileSegment, Split;
    OneParamOneLiteral(Param(name), Literal(text));
  }

  lemma OneParamOneLiteral(s: RouteSegment, t: RouteSegment)
    requires s.Param? && t.Literal?
    ensures HasParams([s, t]) && CountLiterals([s, t]) == 1 && HasParams([t, s]) && CountLiterals([t, s]) == 1
  {
    assert s in [s, t] && s in [t, s];
    assert [s, t][1..] == [t] && [t, s][1..] == [s];
    CountOne(s);
    CountOne(t);
  }

  lemma CountOne(s: RouteSegment)
    ensures CountLiterals([s]) == if s.Param? then 0 else 1
  {
    assert [s][1..] == [];
  }

  lemma TwoMatch(s: RouteSegment, t: RouteSegment, path: string, a: string, b: string)
    requires |path| > 1 && Split(path[1..], '/') == [a, b] && MatchSegment(s, a) && MatchSegment(t, b)
    ensures MatchesPath([s, t], path)
  {
  }

  lemma EqualParamsTie(rs: MethodRoutes, path: string, p: string, q: string)
    requires rs.Keys == {p, q} && path !in rs && p != q && |p| == |q| && rs[p].literals == rs[q].literals
    requires ParamCandidate(rs, path, p) && ParamCandidate(rs, path, q)
    ensures Tied(rs, path, p, q)
  {
    hide MatchesPath;
  }

  lemma ParamTieOf(p: string, q: string, path: string, h: Handler)
    requires p == "/" + ("{" + "x" + "}" + "/" + "b") && q == "/" + ("a" + "/" + ("{" + "y" + "}")) && path == "/" + ("a" + "/" + "b")
    requires EntryFor(p, h) == RouteEntry(h, [Param("x"), Literal("b")], true, 1)
    requires EntryFor(q, h) == RouteEntry(h, [Literal("a"), Param("y")], true, 1)
    ensures var rs := map[p := EntryFor(p, h), q := EntryFor(q, h)];
            && Lists([p, q], rs.Keys) && RouteOf(rs, path, [p, q]) == Some(p)
            && Lists([q, p], rs.Keys) && RouteOf(rs, path, [q, p]) == Some(q)
  {
    hide EntryFor, Selects, Tied, MatchesPath, RouteOf;
    assert p[1] != q[1] && |p| == |q| == 6 && |path| == 4;
    TwoSegments(path, "a", "b");
    TwoMatch(Param("x"), Literal("b"), path, "a", "b");
    TwoMatch(Literal("a"), Param("y"), path, "a", "b");
    EqualParamsTie(map[p := EntryFor(p, h), q := EntryFor(q, h)], path, p, q);
    BothOrders(map[p := EntryFor(p, h), q := EntryFor(q, h)], path, p, q);
  }

  lemma NoWildcard(p: string)
    requires |p| == 6 && p[5] != '*'
    ensures !HasSuffix(p, "/*")
  {
    assert p[4..][1] == p[5];
  }

  // Parameter routes tie as well: for "/a/b" both of these have one literal and one length, and
  // the one whose key comes first is selected.
  lemma ParamTieExample(h: Handler)
    ensures var rs := map["/{x}/b" := EntryFor("/{x}/b", h), "/a/{y}" := EntryFor("/a/{y}", h)];
            && Lists(["/{x}/b", "/a/{y}"], rs.Keys) && RouteOf(rs, "/a/b", ["/{x}/b", "/a/{y}"]) == Some("/{x}/b")
            && Lists(["/a/{y}", "/{x}/b"], rs.Keys) && RouteOf(rs, "/a/b", ["/a/{y}", "/{x}/b"]) == Some("/a/{y}")
  {
    hide *;
    var p, q, path := "/{x}/b", "/a/{y}", "/a/b";
    assert p == "/" + ("{" + "x" + "}" + "/" + "b") && q == "/" + ("a" + "/" + ("{" + "y" + "}")) && path == "/" + ("a" + "/" + "b");
    NoWildcard(p);
    NoWildcard(q);
    OneLetter("x");
    OneLetter("y");
    ParamAndLiteral(p, "x", "b", h);
    ParamAndLiteral(q, "y", "a", h);
    ParamTieOf(p, q, path, h);
  }

  lemma OneLetter(name: string)
    requires |name| == 1 && 'a' <= name[0] <= 'z'
    ensures ValidName(name) && '/' !in name
  {
  }

  /** Among normalised legacy patterns a tie is always between one wildcard and one plain
      route: two of a kind with equal length that match the same path are the same. */
  lemma LegacyTieMixesKinds(p: string, q: string, path: string)
    requires NormalizePath(p) == p && NormalizePath(q) == q && |p| == |q|
    requires RouteMatches(p, path) && RouteMatches(q, path) && HasSuffix(p, "/*") == HasSuffix(q, "/*")
    ensures p == q
  {
    var n := NormalizePath(path);
    if HasSuffix(p, "/*") {
      assert p == WildcardBase(p) + "/*" && q == WildcardBase(q) + "/*";
      assert p != n ==> WildcardBase(p) <= n;
      assert q != n ==> WildcardBase(q) <= n;
    } else {
      assert p <= n && q <= n;
    }
  }

  lemma TieRoutesMatch()
    ensures RouteMatches("/a/*", "/a/b/c") && RouteMatches("/a/b", "/a/b/c")
  {
    assert WildcardBase("/a/*") == "/a" && "/a/b/c" == "/a" + "/" + "b/c" == "/a/b" + "/" + "c";
  }

  lemma EqualLegacyTie(rs: MethodRoutes, path: string, p: string, q: string)
    requires rs.Keys == {p, q} && !rs[p].hasParams && !rs[q].hasParams && |p| == |q| && p != q
    requires p != "/" && q != "/" && path != p && path != q && RouteMatches(p, path) && RouteMatches(q, path)
    ensures path !in rs && Tied(rs, path, p, q)
  {
    hide RouteMatches, MatchesPath;
    assert LegacyCandidate(rs, path, p) && LegacyCandidate(rs, path, q);
  }

  // Ties do happen: the wildcard "/a/*" and the plain "/a/b" have one length and both match
  // "/a/b/c", and the one whose key comes first is selected.
  lemma LegacyTieExample(h: Handler)
    ensures var rs := map["/a/*" := EntryFor("/a/*", h), "/a/b" := EntryFor("/a/b", h)];
            && Lists(["/a/*", "/a/b"], rs.Keys) && RouteOf(rs, "/a/b/c", ["/a/*", "/a/b"]) == Some("/a/*")
            && Lists(["/a/b", "/a/*"], rs.Keys) && RouteOf(rs, "/a/b/c", ["/a/b", "/a/*"]) == Some("/a/b")
  {
    hide *;
    var p, q, path := "/a/*", "/a/b", "/a/b/c";
    assert p[3] != q[3] && p[2..] == "/*" && |path| > |p| == |q| > |"/"|;
    assert '{' !in q && ':' !in q;
    PlainEntries(p, q, h);
    TieRoutesMatch();
    EqualLegacyTie(map[p := EntryFor(p, h), q := EntryFor(q, h)], path, p, q);
    BothOrders(map[p := EntryFor(p, h), q := EntryFor(q, h)], path, p, q);
  }

  lemma PlainEntries(p: string, q: string, h: Handler)
    requires |p| >= 2 && p[|p| - 2..] == "/*" && '{' !in q && ':' !in q
    ensures !EntryFor(p, h).hasParams && !EntryFor(q, h).hasParams
  {
    NoBraceNoParams(q);
    hide Compile, HasParams;
  }

  /** A pattern without '{' and ':' has no parameters. */
  lemma NoBraceNoParams(pattern: string)
    requires '{' !in pattern && ':' !in pattern
    ensures !HasParams(Compile(pattern))
  {
    var text := TrimSlash(pattern);
    var pieces := Split(text, '/');
    JoinSplit(text, '/');
    forall i | 0 <= i < |pieces| ensures CompileSegment(pieces[i]).Literal? {
      JoinHolds(pieces, i);
      assert forall c :: c in text ==> c in pattern;
      NoBraceLiteral(pieces[i]);
    }
  }

  lemma NoBraceLiteral(s: string)
    requires '{' !in s && ':' !in s
    ensures CompileSegment(s) == Literal(s)
  {
    TokensText(s, "", "");
    assert s + "" == s && "" + s == s;
  }

  lemma {:induction false} JoinHolds(pieces: seq<string>, i: nat)
    requires i < |pieces|
    ensures forall c :: c in pieces[i] ==> c in Join(pieces, '/')
  {
    if i > 0 { JoinHolds(pieces[1..], i - 1); }
  }

  // ------------------------------------------------- the index agrees with the routers

  /** All routers of the process and the index they share. */
  datatype World = World(index: PatternIndex, routers: map<nat, Routes>)

  datatype Registration = Registration(router: nat, verb: string, path: string, handler: Handler)

  function Register(w: World, e: Registration): World {
    var own := if e.router in w.routers then w.routers[e.router] else map[];
    World(Indexed(w.index, e.path), w.routers[e.router := Registered(own, e.verb, e.path, e.handler)])
  }

  function RegisterAll(es: seq<Registration>): World {
    if es == [] then World(map[], map[]) else Register(RegisterAll(es[..|es| - 1]), es[|es| - 1])
  }

  ghost predicate IndexSound(index: PatternIndex) {
    forall k :: k in index ==> Indexable(k) && index[k] == Compile(k)
  }

  predicate EntryAgrees(index: PatternIndex, p: string, entry: RouteEntry) {
    entry == EntryFor(p, entry.handler) && (entry.hasParams ==> p in index)
  }

  ghost predicate RoutesAgree(index: PatternIndex, routes: Routes) {
    forall m, p :: m in routes && p in routes[m] ==> EntryAgrees(index, p, routes[m][p])
  }

  ghost predicate Agreement(w: World) {
    IndexSound(w.index) && forall r :: r in w.routers ==> RoutesAgree(w.index, w.routers[r])
  }

  lemma RegisteredAgrees(index: PatternIndex, own: Routes, verb: string, path: string, handler: Handler)
    requires RoutesAgree(index, own)
    ensures RoutesAgree(Indexed(index, path), own) && RoutesAgree(Indexed(index, path), Registered(own, verb, path, handler))
  {
    var routes, more := Registered(own, verb, path, handler), Indexed(index, path);
    forall m, p | m in own && p in own[m] ensures EntryAgrees(more, p, own[m][p]) {
      assert EntryAgrees(index, p, own[m][p]);
    }
    forall m, p | m in routes && p in routes[m] ensures EntryAgrees(more, p, routes[m][p]) {
      assert m in own && p in own[m] ==> EntryAgrees(more, p, own[m][p]);
    }
  }

  lemma RegisterKeepsAgreement(w: World, e: Registration)
    requires Agreement(w)
    ensures Agreement(Register(w, e))
    ensures forall k :: k in w.index ==> k in Register(w, e).index && Register(w, e).index[k] == w.index[k]
  {
    var v := Register(w, e);
    forall r | r in v.routers ensures RoutesAgree(v.index, v.routers[r]) {
      var own := if r in w.routers then w.routers[r] else map[];
      assert RoutesAgree(w.index, own);
      RegisteredAgrees(w.index, own, e.verb, e.path, e.handler);
      assert v.routers[r] == own || v.routers[r] == Registered(own, e.verb, e.path, e.handler);
    }
  }

  /** After any registrations on any routers: every index entry is the fresh compilation of
      its key, and every registered parameter pattern is in the index. */
  lemma {:induction false} IndexAgreesWithRouters(es: seq<Registration>)
    ensures Agreement(RegisterAll(es))
  {
    if es != [] {
      IndexAgreesWithRouters(es[..|es| - 1]);
      RegisterKeepsAgreement(RegisterAll(es[..|es| - 1]), es[|es| - 1]);
    }
  }

  /** Index entries are never dropped or changed by later registrations. */
  lemma {:induction false} IndexOnlyGrows(es: seq<Registration>, more: seq<Registration>, k: string)
    requires k in RegisterAll(es).index
    ensures k in RegisterAll(es + more).index && RegisterAll(es + more).index[k] == RegisterAll(es).index[k]
  {
    if more == [] {
      assert es + more == es;
    } else {
      var front, last := more[..|more| - 1], more[|more| - 1];
      IndexOnlyGrows(es, front, k);
      assert (es + more)[..|es + more| - 1] == es + front && (es + more)[|es + more| - 1] == last;
      IndexAgreesWithRouters(es + front);
      RegisterKeepsAgreement(RegisterAll(es + front), last);
    }
  }

  /** What PathValue answers for a request with the recorded pattern and the current URL
      path; stdlib is what the standard library's Request.PathValue would say. */
  function PathValueOf(index: PatternIndex, pattern: string, urlPath: string, name: string, stdlib: string): string {
    if pattern !in index then stdlib
    else
      var path := NormalizePath(urlPath);
      if MatchesPath(index[pattern], path) then Lookup(PathBindings(index[pattern], path), name) else ""
  }

  method PathValue(index: ParamPatternIndex, pattern: string, urlPath: string, name: string, stdlib: string) returns (v: string)
    ensures v == PathValueOf(index.entries, pattern, urlPath, name, stdlib)
  {
    if pattern !in index.entries {
      return stdlib;
    }
    var path := NormalizePath(urlPath);
    var ok := MatchParams(index.entries[pattern], path);
    if !ok {
      return "";
    }
    v := ParamValue(index.entries[pattern], path, name);
  }

  /** A request that some router dispatched by its parameters reads, through the shared
      index, the values of the very entry it matched; once the path is rewritten to a shape
      the pattern does not match, it reads the empty string. */
  lemma PathValueAfterDispatch(es: seq<Registration>, router: nat, verb: string, urlPath: string, r: Option<string>,
                               later: string, name: string, stdlib: string)
    requires router in RegisterAll(es).routers && verb in RegisterAll(es).routers[router]
    requires Selects(RegisterAll(es).routers[router][verb], NormalizePath(urlPath), r) && r.Some?
    requires ParamCandidate(RegisterAll(es).routers[router][verb], NormalizePath(urlPath), r.value)
    ensures var w := RegisterAll(es);
            var segments := w.routers[router][verb][r.value].segments;
            && PathValueOf(w.index, r.value, urlPath, name, stdlib) ==
               Lookup(PathBindings(segments, NormalizePath(urlPath)), name)
            && (!MatchesPath(segments, NormalizePath(later)) ==> PathValueOf(w.index, r.value, later, name, stdlib) == "")
  {
    var w := RegisterAll(es);
    IndexAgreesWithRouters(es);
    assert RoutesAgree(w.index, w.routers[router]);
    assert EntryAgrees(w.index, r.value, w.routers[router][verb][r.value]);
  }
}
