/** Putting parameter values back into a pattern, and why that and matching undo each
    other (pkg/runtime/router.go, matchParams and paramValue). */
module RouteSubstitution {
  import opened GoStrings
  import opened RouteMatching

  type Env = string -> string

  function FillParts(parts: seq<SegPart>, env: Env): (pieces: seq<string>)
    ensures |pieces| == |parts|
    ensures forall i :: 0 <= i < |parts| ==> pieces[i] == if parts[i].Chunk? then parts[i].text else env(parts[i].name)
  {
    seq(|parts|, i requires 0 <= i < |parts| => if parts[i].Chunk? then parts[i].text else env(parts[i].name))
  }

  function FillSegment(s: RouteSegment, env: Env): string {
    match s
    case Literal(text) => text
    case Param(name) => env(name)
    case Mixed(parts) => Concat(FillParts(parts, env))
  }

  function FillSegments(segs: seq<RouteSegment>, env: Env): (pieces: seq<string>)
    ensures |pieces| == |segs|
    ensures forall i :: 0 <= i < |segs| ==> pieces[i] == FillSegment(segs[i], env)
  {
    seq(|segs|, i requires 0 <= i < |segs| => FillSegment(segs[i], env))
  }

  /** The path that carries the given values in the pattern's parameters. */
  function FillPath(segs: seq<RouteSegment>, env: Env): string {
    "/" + Join(FillSegments(segs, env), '/')
  }

  function PartNames(parts: seq<SegPart>): seq<string> {
    if parts == [] then []
    else (if parts[0].Hole? then [parts[0].name] else []) + PartNames(parts[1..])
  }

  function SegmentNames(s: RouteSegment): seq<string> {
    match s
    case Literal(_) => []
    case Param(name) => [name]
    case Mixed(parts) => PartNames(parts)
  }

  /** The parameter names of a pattern, left to right. */
  function Names(segs: seq<RouteSegment>): seq<string> {
    if segs == [] then [] else SegmentNames(segs[0]) + Names(segs[1..])
  }

  predicate DistinctNames(segs: seq<RouteSegment>) {
    var ns := Names(segs);
    forall i, j :: 0 <= i < j < |ns| ==> ns[i] != ns[j]
  }

  function BindAll(names: seq<string>, env: Env): (bs: seq<Binding>)
    ensures |bs| == |names|
    ensures forall i :: 0 <= i < |bs| ==> bs[i] == Binding(names[i], env(names[i]))
  {
    seq(|names|, i requires 0 <= i < |names| => Binding(names[i], env(names[i])))
  }

  // ------------------------------------------------------------ match, then substitute

  lemma {:induction false} PartBindingNames(parts: seq<SegPart>, pieces: seq<string>)
    requires |parts| == |pieces|
    ensures Named(PartBindings(parts, pieces), PartNames(parts))
  {
    if parts != [] { PartBindingNames(parts[1..], pieces[1..]); }
  }

  lemma SegmentBindingNames(s: RouteSegment, seg: string)
    requires MatchSegment(s, seg)
    ensures Named(SegmentBindings(s, seg), SegmentNames(s))
  {
    if s.Mixed? { PartBindingNames(s.parts, Decompose(s.parts, seg).value); }
  }

  predicate Named(bs: seq<Binding>, ns: seq<string>) {
    |bs| == |ns| && forall i :: 0 <= i < |ns| ==> bs[i].name == ns[i]
  }

  lemma NamesAppend(a: seq<Binding>, b: seq<Binding>, na: seq<string>, nb: seq<string>)
    requires Named(a, na) && Named(b, nb)
    ensures Named(a + b, na + nb)
  {
  }

  lemma {:induction false} BindingNames(segs: seq<RouteSegment>, pieces: seq<string>)
    requires MatchAll(segs, pieces)
    ensures Named(Bindings(segs, pieces), Names(segs))
  {
    if segs != [] {
      MatchAllStep(segs, pieces);
      SegmentBindingNames(segs[0], pieces[0]);
      BindingNames(segs[1..], pieces[1..]);
      NamesAppend(SegmentBindings(segs[0], pieces[0]), Bindings(segs[1..], pieces[1..]),
                  SegmentNames(segs[0]), Names(segs[1..]));
    }
  }

  predicate Agrees(bs: seq<Binding>, env: Env) {
    forall b :: b in bs ==> env(b.name) == b.value
  }

  lemma {:induction false} FillPartsRebuilds(parts: seq<SegPart>, pieces: seq<string>, env: Env)
    requires |parts| == |pieces| && forall i :: 0 <= i < |parts| ==> PieceOk(parts, pieces, i)
    requires Agrees(PartBindings(parts, pieces), env)
    ensures FillParts(parts, env) == pieces
  {
    if parts != [] {
      PieceOkTail(parts, pieces);
      var bs := PartBindings(parts, pieces);
      assert forall b :: b in PartBindings(parts[1..], pieces[1..]) ==> b in bs;
      FillPartsRebuilds(parts[1..], pieces[1..], env);
      assert FillParts(parts, env)[1..] == FillParts(parts[1..], env);
      assert parts[0].Hole? ==> bs[0] in bs;
      assert pieces == [pieces[0]] + pieces[1..];
    }
  }

  lemma FillSegmentRebuilds(s: RouteSegment, seg: string, env: Env)
    requires MatchSegment(s, seg) && Agrees(SegmentBindings(s, seg), env)
    ensures FillSegment(s, env) == seg
  {
    match s
    case Literal(_) =>
    case Param(_) => assert SegmentBindings(s, seg)[0] in SegmentBindings(s, seg);
    case Mixed(parts) =>
      DecomposeSound(parts, seg);
      FillPartsRebuilds(parts, Decompose(parts, seg).value, env);
  }

  lemma {:induction false} FillSegmentsRebuild(segs: seq<RouteSegment>, pieces: seq<string>, env: Env)
    requires MatchAll(segs, pieces) && Agrees(Bindings(segs, pieces), env)
    ensures FillSegments(segs, env) == pieces
  {
    hide FillSegment, SegmentBindings, MatchSegment;
    if segs != [] {
      MatchAllStep(segs, pieces);
      var bs := Bindings(segs, pieces);
      assert forall b :: b in SegmentBindings(segs[0], pieces[0]) ==> b in bs;
      assert forall b :: b in Bindings(segs[1..], pieces[1..]) ==> b in bs;
      FillSegmentRebuilds(segs[0], pieces[0], env);
      FillSegmentsRebuild(segs[1..], pieces[1..], env);
      assert FillSegments(segs, env)[1..] == FillSegments(segs[1..], env);
      assert pieces == [pieces[0]] + pieces[1..];
    }
  }

  /** All bindings of one name hold the same value. */
  predicate Consistent(bs: seq<Binding>) {
    forall i, j :: 0 <= i < j < |bs| && bs[i].name == bs[j].name ==> bs[i].value == bs[j].value
  }

  lemma {:induction false} LookupConsistent(bs: seq<Binding>, b: Binding)
    requires Consistent(bs) && b in bs
    ensures Lookup(bs, b.name) == b.value
  {
    if bs[0] != b {
      assert forall i, j :: 0 <= i < j < |bs| - 1 ==> bs[1..][i] == bs[i + 1] && bs[1..][j] == bs[j + 1];
      var k :| 0 <= k < |bs| && bs[k] == b;
      assert bs[1..][k - 1] == b;
      LookupConsistent(bs[1..], b);
    }
  }

  /** Every value of a path reads back exactly when bindings of one name agree: a lookup answers
      for the first of them. */
  lemma ReadBackIffConsistent(bs: seq<Binding>)
    ensures (forall b :: b in bs ==> Lookup(bs, b.name) == b.value) <==> Consistent(bs)
  {
    if Consistent(bs) {
      forall b | b in bs ensures Lookup(bs, b.name) == b.value { LookupConsistent(bs, b); }
    }
    if forall b :: b in bs ==> Lookup(bs, b.name) == b.value {
      forall i, j | 0 <= i < j < |bs| && bs[i].name == bs[j].name ensures bs[i].value == bs[j].value {
        assert bs[i] in bs && bs[j] in bs;
      }
    }
  }

  /** The values read out of a matching path rebuild it byte for byte. */
  lemma MatchThenFill(segs: seq<RouteSegment>, path: string)
    requires "/" <= path && MatchesPath(segs, path)
    requires Consistent(PathBindings(segs, path))
    ensures FillPath(segs, name => Lookup(PathBindings(segs, path), name)) == path
  {
    var bs := PathBindings(segs, path);
    var env := name => Lookup(bs, name);
    forall b | b in bs ensures env(b.name) == b.value { LookupConsistent(bs, b); }
    FillSegmentsRebuild(segs, Split(path[1..], '/'), env);
    JoinSplit(path[1..], '/');
  }

  lemma DistinctNamesConsistent(segs: seq<RouteSegment>, path: string)
    requires DistinctNames(segs) && MatchesPath(segs, path)
    ensures Consistent(PathBindings(segs, path))
  {
    BindingNames(segs, Split(path[1..], '/'));
  }

  // ------------------------------------------------------------ substitute, then match

  /** The value for part i is one the matcher can find again: not empty, without '/', and
      either last or in front of a literal that does not already occur in it. */
  predicate CleanPart(parts: seq<SegPart>, env: Env, i: int)
    requires 0 <= i < |parts|
  {
    parts[i].Hole? ==>
      var v := env(parts[i].name);
      v != "" && '/' !in v &&
      (i + 1 < |parts| ==> parts[i + 1].Chunk? && EndsFirst(v, parts[i + 1].text))
  }

  predicate CleanSegment(s: RouteSegment, env: Env) {
    match s
    case Literal(_) => true
    case Param(name) => env(name) != "" && '/' !in env(name)
    case Mixed(parts) => forall i :: 0 <= i < |parts| ==> CleanPart(parts, env, i)
  }

  predicate Clean(segs: seq<RouteSegment>, env: Env) {
    forall s :: s in segs ==> CleanSegment(s, env)
  }

  /** No literal text of the pattern holds a '/'; every compiled pattern is like that. */
  predicate SlashFree(segs: seq<RouteSegment>) {
    forall s :: s in segs ==> SlashFreeSegment(s)
  }

  predicate SlashFreeSegment(s: RouteSegment) {
    match s
    case Literal(text) => '/' !in text
    case Param(_) => true
    case Mixed(parts) => forall p :: p in parts && p.Chunk? ==> '/' !in p.text
  }

  lemma {:induction false} ConcatSlashFree(pieces: seq<string>)
    ensures '/' !in Concat(pieces) <==> forall p :: p in pieces ==> '/' !in p
  {
    if pieces != [] {
      ConcatSlashFree(pieces[1..]);
      assert forall p :: p in pieces <==> p == pieces[0] || p in pieces[1..];
    }
  }

  lemma {:induction false} FilledPartBindings(parts: seq<SegPart>, env: Env)
    ensures PartBindings(parts, FillParts(parts, env)) == BindAll(PartNames(parts), env)
  {
    if parts != [] {
      FilledPartBindings(parts[1..], env);
      assert FillParts(parts, env)[1..] == FillParts(parts[1..], env);
    }
  }

  lemma CleanSegmentMatches(s: RouteSegment, env: Env)
    requires SlashFreeSegment(s) && CleanSegment(s, env)
    ensures '/' !in FillSegment(s, env)
    ensures MatchSegment(s, FillSegment(s, env))
    ensures SegmentBindings(s, FillSegment(s, env)) == BindAll(SegmentNames(s), env)
  {
    match s
    case Literal(_) =>
    case Param(_) =>
    case Mixed(parts) =>
      var pieces := FillParts(parts, env);
      forall i | 0 <= i < |parts| ensures PieceOk(parts, pieces, i) && '/' !in pieces[i] {
        assert CleanPart(parts, env, i);
        assert parts[i] in parts;
      }
      DecomposeComplete(parts, pieces);
      ConcatSlashFree(pieces);
      FilledPartBindings(parts, env);
  }

  lemma {:induction false} CleanMatchesAll(segs: seq<RouteSegment>, env: Env)
    requires SlashFree(segs) && Clean(segs, env)
    ensures forall p :: p in FillSegments(segs, env) ==> '/' !in p
    ensures MatchAll(segs, FillSegments(segs, env))
    ensures Bindings(segs, FillSegments(segs, env)) == BindAll(Names(segs), env)
  {
    if segs != [] {
      var pieces := FillSegments(segs, env);
      assert segs[0] in segs;
      CleanSegmentMatches(segs[0], env);
      CleanMatchesAll(segs[1..], env);
      assert pieces[1..] == FillSegments(segs[1..], env);
      MatchAllStep(segs, pieces);
    }
  }

  /** The matcher reads back only clean values: the pieces it cut are the values put in. */
  lemma {:induction false} ReadBackParts(parts: seq<SegPart>, pieces: seq<string>, env: Env)
    requires |parts| == |pieces| && forall i :: 0 <= i < |parts| ==> PieceOk(parts, pieces, i)
    requires PartBindings(parts, pieces) == BindAll(PartNames(parts), env)
    ensures pieces == FillParts(parts, env)
  {
    if parts != [] {
      PieceOkTail(parts, pieces);
      var bs, ns := PartBindings(parts, pieces), PartNames(parts);
      if parts[0].Hole? {
        assert bs[0] == Binding(ns[0], env(ns[0]));
        assert bs[1..] == PartBindings(parts[1..], pieces[1..]) && ns[1..] == PartNames(parts[1..]);
        assert bs[1..] == BindAll(ns[1..], env);
      } else {
        assert bs == PartBindings(parts[1..], pieces[1..]) && ns == PartNames(parts[1..]);
      }
      ReadBackParts(parts[1..], pieces[1..], env);
      assert FillParts(parts, env)[1..] == FillParts(parts[1..], env);
      assert pieces == [pieces[0]] + pieces[1..];
    }
  }

  lemma ReadBackSegment(s: RouteSegment, seg: string, env: Env)
    requires '/' !in seg && MatchSegment(s, seg) && SegmentBindings(s, seg) == BindAll(SegmentNames(s), env)
    ensures CleanSegment(s, env)
  {
    match s
    case Literal(_) =>
    case Param(name) => assert SegmentBindings(s, seg)[0] == Binding(name, env(name));
    case Mixed(parts) =>
      DecomposeSound(parts, seg);
      var pieces := Decompose(parts, seg).value;
      ReadBackParts(parts, pieces, env);
      ConcatSlashFree(pieces);
      forall i | 0 <= i < |parts| ensures CleanPart(parts, env, i) {
        assert PieceOk(parts, pieces, i) && pieces[i] in pieces;
      }
  }

  lemma {:induction false} ReadBackAll(segs: seq<RouteSegment>, pieces: seq<string>, env: Env)
    requires forall p :: p in pieces ==> '/' !in p
    requires MatchAll(segs, pieces) && Bindings(segs, pieces) == BindAll(Names(segs), env)
    ensures Clean(segs, env)
  {
    if segs != [] {
      MatchAllStep(segs, pieces);
      SegmentBindingNames(segs[0], pieces[0]);
      var k := |SegmentNames(segs[0])|;
      assert Bindings(segs, pieces)[..k] == SegmentBindings(segs[0], pieces[0]) && Names(segs)[..k] == SegmentNames(segs[0]);
      assert Bindings(segs, pieces)[k..] == Bindings(segs[1..], pieces[1..]) && Names(segs)[k..] == Names(segs[1..]);
      assert BindAll(Names(segs), env)[..k] == BindAll(SegmentNames(segs[0]), env);
      assert BindAll(Names(segs), env)[k..] == BindAll(Names(segs[1..]), env);
      ReadBackSegment(segs[0], pieces[0], env);
      ReadBackAll(segs[1..], pieces[1..], env);
    }
  }

  /** Exactly the clean values come back: a pattern with a parameter, filled in with env,
      matches and yields env's own values if and only if every value is clean. */
  lemma FillThenMatch(segs: seq<RouteSegment>, env: Env)
    requires SlashFree(segs) && Names(segs) != []
    ensures Clean(segs, env) <==>
            MatchesPath(segs, FillPath(segs, env)) && PathBindings(segs, FillPath(segs, env)) == BindAll(Names(segs), env)
  {
    var path, pieces := FillPath(segs, env), FillSegments(segs, env);
    assert path[1..] == Join(pieces, '/');
    if Clean(segs, env) {
      CleanMatchesAll(segs, env);
      SplitJoin(pieces, '/');
      if |segs| == 1 {
        assert Names(segs) == SegmentNames(segs[0]);
        var b := Bindings(segs, pieces);
        CleanNotEmpty(segs[0], env);
      }
    }
    if MatchesPath(segs, path) && PathBindings(segs, path) == BindAll(Names(segs), env) {
      ReadBackAll(segs, Split(path[1..], '/'), env);
    }
  }

  lemma CleanNotEmpty(s: RouteSegment, env: Env)
    requires CleanSegment(s, env) && SegmentNames(s) != []
    ensures FillSegment(s, env) != ""
  {
    if s.Mixed? {
      CleanPartsNotEmpty(s.parts, env, 0);
    }
  }

  lemma CleanPartsNotEmpty(parts: seq<SegPart>, env: Env, i: nat)
    requires i <= |parts| && PartNames(parts[i..]) != []
    requires forall j :: 0 <= j < |parts| ==> CleanPart(parts, env, j)
    ensures Concat(FillParts(parts, env)[i..]) != ""
    decreases |parts| - i
  {
    if i < |parts| {
      assert CleanPart(parts, env, i);
      assert parts[i..][1..] == parts[i + 1..] && FillParts(parts, env)[i..][1..] == FillParts(parts, env)[i + 1..];
      if parts[i].Chunk? { CleanPartsNotEmpty(parts, env, i + 1); }
    }
  }

  /** With clean values, each name reads back the value it was given. */
  lemma FilledValuesComeBack(segs: seq<RouteSegment>, env: Env, name: string)
    requires SlashFree(segs) && Clean(segs, env) && name in Names(segs)
    ensures MatchesPath(segs, FillPath(segs, env)) && Lookup(PathBindings(segs, FillPath(segs, env)), name) == env(name)
  {
    FillThenMatch(segs, env);
    var bs := BindAll(Names(segs), env);
    var i :| 0 <= i < |Names(segs)| && Names(segs)[i] == name;
    LookupConsistent(bs, bs[i]);
  }

  // ------------------------------------------------------------ when every matching path is rebuilt

  /** Literal chunks are not empty; every compiled pattern is like that. */
  predicate ChunksHold(segs: seq<RouteSegment>) {
    forall s :: s in segs && s.Mixed? ==> PartsHold(s.parts)
  }

  predicate PartsHold(parts: seq<SegPart>) {
    forall p :: p in parts && p.Chunk? ==> p.text != ""
  }

  /** Two parameters in a row; such a pattern matches nothing. */
  predicate AdjacentIn(parts: seq<SegPart>) {
    exists i :: 0 <= i < |parts| - 1 && parts[i].Hole? && parts[i + 1].Hole?
  }

  predicate Adjacent(segs: seq<RouteSegment>) {
    exists s :: s in segs && s.Mixed? && AdjacentIn(s.parts)
  }

  /** One of three bytes that differs from two others. */
  function Pick(c: char, d: char): (e: char)
    ensures e != c && e != d && e != '/'
  {
    if c != 'x' && d != 'x' then 'x' else if c != 'y' && d != 'y' then 'y' else 'z'
  }

  /** A byte other than the one the name was first given. */
  function Fresh(seen: seq<Binding>, name: string, next: char): (v: string)
    ensures |v| == 1 && v[0] != next && v[0] != '/'
    ensures Lookup(seen, name) != "" ==> v != Lookup(seen, name)
  {
    var first := Lookup(seen, name);
    [Pick(next, if first == "" then '/' else first[0])]
  }

  function NextByte(parts: seq<SegPart>): char {
    if parts != [] && parts[0].Chunk? && parts[0].text != "" then parts[0].text[0] else '/'
  }

  /** Pieces for a part list in which each parameter gets one byte that does not begin the literal
      after it and differs from what its name was first given. */
  function Differing(parts: seq<SegPart>, seen: seq<Binding>): (pieces: seq<string>)
    ensures |pieces| == |parts|
  {
    if parts == [] then []
    else if parts[0].Chunk? then [parts[0].text] + Differing(parts[1..], seen)
    else
      var v := Fresh(seen, parts[0].name, NextByte(parts[1..]));
      [v] + Differing(parts[1..], seen + [Binding(parts[0].name, v)])
  }

  function DifferingSegment(s: RouteSegment, seen: seq<Binding>): string {
    match s
    case Literal(text) => text
    case Param(name) => Fresh(seen, name, '/')
    case Mixed(parts) => Concat(Differing(parts, seen))
  }

  function BoundBy(s: RouteSegment, seen: seq<Binding>): seq<Binding> {
    match s
    case Literal(_) => []
    case Param(name) => [Binding(name, Fresh(seen, name, '/'))]
    case Mixed(parts) => PartBindings(parts, Differing(parts, seen))
  }

  function DifferingPieces(segs: seq<RouteSegment>, seen: seq<Binding>): (pieces: seq<string>)
    ensures |pieces| == |segs|
  {
    if segs == [] then [] else [DifferingSegment(segs[0], seen)] + DifferingPieces(segs[1..], seen + BoundBy(segs[0], seen))
  }

  /** Every binding holds one byte, and not the one an earlier binding of its name came with. */
  predicate Differ(seen: seq<Binding>, bs: seq<Binding>) {
    forall k :: 0 <= k < |bs| ==> DiffersAt(seen, bs, k)
  }

  predicate DiffersAt(seen: seq<Binding>, bs: seq<Binding>, k: int)
    requires 0 <= k < |bs|
  {
    |bs[k].value| == 1 && bs[k].value[0] != '/' &&
    (Lookup(seen + bs[..k], bs[k].name) != "" ==> bs[k].value != Lookup(seen + bs[..k], bs[k].name))
  }

  lemma DifferAppend(seen: seq<Binding>, a: seq<Binding>, b: seq<Binding>)
    requires Differ(seen, a) && Differ(seen + a, b)
    ensures Differ(seen, a + b)
  {
    forall k | 0 <= k < |a + b| ensures DiffersAt(seen, a + b, k) {
      if k < |a| {
        assert DiffersAt(seen, a, k) && (a + b)[..k] == a[..k];
      } else {
        var m := k - |a|;
        assert DiffersAt(seen + a, b, m) && (a + b)[..k] == a + b[..m] && (a + b)[k] == b[m];
        assert seen + (a + b[..m]) == seen + a + b[..m];
      }
    }
  }

  lemma OneDiffers(seen: seq<Binding>, name: string, next: char)
    ensures Differ(seen, [Binding(name, Fresh(seen, name, next))])
  {
    var bs := [Binding(name, Fresh(seen, name, next))];
    assert seen + bs[..0] == seen;
  }

  lemma OneByteEndsFirst(v: string, lit: string)
    requires |v| == 1 && lit != "" && v[0] != lit[0]
    ensures EndsFirst(v, lit)
  {
    assert (v + lit)[1..1 + |lit|] == lit;
    assert OccursAt(v + lit, lit, 1);
    CharDiffers(v + lit, lit, 0, 0);
  }

  lemma AdjacentTail(parts: seq<SegPart>)
    requires parts != []
    ensures AdjacentIn(parts[1..]) ==> AdjacentIn(parts)
  {
    var tail := parts[1..];
    if i :| 0 <= i < |tail| - 1 && tail[i].Hole? && tail[i + 1].Hole? {
      var j := i + 1;
      assert parts[j].Hole? && parts[j + 1].Hole?;
    }
  }

  lemma {:induction false} DifferingParts(parts: seq<SegPart>, seen: seq<Binding>)
    requires PartsHold(parts) && !AdjacentIn(parts)
    ensures forall i :: 0 <= i < |parts| ==> PieceOk(parts, Differing(parts, seen), i)
    ensures Differ(seen, PartBindings(parts, Differing(parts, seen)))
    ensures forall i :: 0 <= i < |parts| && parts[i].Hole? ==> '/' !in Differing(parts, seen)[i]
  {
    if parts != [] {
      var tail, pieces := parts[1..], Differing(parts, seen);
      assert PartsHold(tail) by { assert forall p :: p in tail ==> p in parts; }
      AdjacentTail(parts);
      assert pieces[1..] == Differing(tail, if parts[0].Chunk? then seen else seen + [Binding(parts[0].name, pieces[0])]);
      if parts[0].Chunk? {
        DifferingParts(tail, seen);
        assert PartBindings(parts, pieces) == PartBindings(tail, pieces[1..]);
      } else {
        var one := [Binding(parts[0].name, pieces[0])];
        DifferingParts(tail, seen + one);
        OneDiffers(seen, parts[0].name, NextByte(tail));
        DifferAppend(seen, one, PartBindings(tail, pieces[1..]));
        if tail != [] {
          assert parts[1] in parts && parts[0].Hole?;
          OneByteEndsFirst(pieces[0], parts[1].text);
        }
      }
      PieceOkTail(parts, pieces);
    }
  }

  lemma DifferingMatches(s: RouteSegment, seen: seq<Binding>)
    requires SlashFreeSegment(s) && (s.Mixed? ==> PartsHold(s.parts) && !AdjacentIn(s.parts))
    ensures MatchSegment(s, DifferingSegment(s, seen)) && '/' !in DifferingSegment(s, seen)
    ensures SegmentBindings(s, DifferingSegment(s, seen)) == BoundBy(s, seen) && Differ(seen, BoundBy(s, seen))
  {
    match s
    case Literal(_) =>
    case Param(name) => OneDiffers(seen, name, '/');
    case Mixed(parts) =>
      var pieces := Differing(parts, seen);
      DifferingParts(parts, seen);
      DecomposeComplete(parts, pieces);
      forall i | 0 <= i < |parts| ensures '/' !in pieces[i] {
        assert PieceOk(parts, pieces, i) && parts[i] in parts;
      }
      ConcatSlashFree(pieces);
  }

  lemma {:induction false} DifferingMatchesAll(segs: seq<RouteSegment>, seen: seq<Binding>)
    requires SlashFree(segs) && ChunksHold(segs) && !Adjacent(segs)
    ensures var pieces := DifferingPieces(segs, seen);
            MatchAll(segs, pieces) && (forall p :: p in pieces ==> '/' !in p) && Differ(seen, Bindings(segs, pieces))
  {
    if segs != [] {
      var s, tail, pieces := segs[0], segs[1..], DifferingPieces(segs, seen);
      assert s in segs && forall t :: t in tail ==> t in segs;
      assert !Adjacent(tail);
      DifferingMatches(s, seen);
      DifferingMatchesAll(tail, seen + BoundBy(s, seen));
      assert pieces[1..] == DifferingPieces(tail, seen + BoundBy(s, seen));
      MatchAllStep(segs, pieces);
      DifferAppend(seen, BoundBy(s, seen), Bindings(tail, pieces[1..]));
    }
  }

  lemma {:induction false} LookupFirst(bs: seq<Binding>, i: nat, j: nat)
    requires i < j < |bs| && bs[i].name == bs[j].name && forall k :: 0 <= k < |bs| ==> bs[k].value != ""
    ensures Lookup(bs[..j], bs[j].name) == Lookup(bs, bs[j].name) != ""
  {
    LookupAppend(bs[..j], bs[j..], bs[j].name);
    assert bs[..j] + bs[j..] == bs && bs[..j][i] == bs[i];
    LookupSome(bs[..j], bs[j].name);
  }

  lemma {:induction false} LookupSome(bs: seq<Binding>, name: string)
    requires Binds(bs, name) && forall k :: 0 <= k < |bs| ==> bs[k].value != ""
    ensures Lookup(bs, name) != ""
  {
    if bs[0].name != name {
      BindsTail(bs, name);
      LookupSome(bs[1..], name);
    }
  }

  /** Values that all differ from the first of their name are not consistent once a name repeats. */
  lemma DifferNotConsistent(bs: seq<Binding>, i: nat, j: nat)
    requires Differ([], bs) && i < j < |bs| && bs[i].name == bs[j].name
    ensures !Consistent(bs)
  {
    forall k | 0 <= k < |bs| ensures bs[k].value != "" { assert DiffersAt([], bs, k); }
    assert DiffersAt([], bs, j) && [] + bs[..j] == bs[..j];
    LookupFirst(bs, i, j);
    if Consistent(bs) { LookupConsistent(bs, bs[j]); }
  }

  // ------------------------------------------------------------ a rebuilt path of one-byte values is consistent

  lemma {:induction false} SameConcat(p: seq<string>, q: seq<string>)
    requires |p| == |q| && (forall i :: 0 <= i < |p| ==> |p[i]| == |q[i]|) && Concat(p) == Concat(q)
    ensures p == q
  {
    if p != [] {
      assert Concat(p)[..|p[0]|] == p[0] && Concat(q)[..|q[0]|] == q[0];
      ConcatSplits(p);
      ConcatSplits(q);
      SameConcat(p[1..], q[1..]);
      assert p == [p[0]] + p[1..] && q == [q[0]] + q[1..];
    }
  }

  /** The values bound, and those looked up for their names, are one byte each. */
  predicate OneByte(bs: seq<Binding>, env: Env) {
    forall b :: b in bs ==> |b.value| == 1 && |env(b.name)| == 1
  }

  lemma {:induction false} PartsAgree(parts: seq<SegPart>, pieces: seq<string>, env: Env)
    requires |parts| == |pieces| && (forall i :: 0 <= i < |parts| ==> PieceOk(parts, pieces, i))
    requires OneByte(PartBindings(parts, pieces), env)
    ensures forall i :: 0 <= i < |parts| ==> |FillParts(parts, env)[i]| == |pieces[i]|
    ensures FillParts(parts, env) == pieces ==> Agrees(PartBindings(parts, pieces), env)
  {
    if parts != [] {
      PieceOkTail(parts, pieces);
      var bs, rest := PartBindings(parts, pieces), PartBindings(parts[1..], pieces[1..]);
      assert forall b :: b in rest ==> b in bs;
      assert parts[0].Hole? ==> bs[0] in bs;
      PartsAgree(parts[1..], pieces[1..], env);
      assert FillParts(parts, env)[1..] == FillParts(parts[1..], env);
      assert forall b :: b in bs ==> b in rest || (parts[0].Hole? && b == bs[0]);
      forall i | 0 <= i < |parts| ensures |FillParts(parts, env)[i]| == |pieces[i]| {
        if i > 0 { assert FillParts(parts[1..], env)[i - 1] == FillParts(parts, env)[i] && pieces[1..][i - 1] == pieces[i]; }
      }
    }
  }

  lemma SegmentAgrees(s: RouteSegment, seg: string, env: Env)
    requires MatchSegment(s, seg) && OneByte(SegmentBindings(s, seg), env) && FillSegment(s, env) == seg
    ensures Agrees(SegmentBindings(s, seg), env)
  {
    if s.Mixed? {
      var pieces := Decompose(s.parts, seg).value;
      DecomposeSound(s.parts, seg);
      PartsAgree(s.parts, pieces, env);
      SameConcat(FillParts(s.parts, env), pieces);
    }
  }

  lemma {:induction false} SegmentsAgree(segs: seq<RouteSegment>, pieces: seq<string>, env: Env)
    requires MatchAll(segs, pieces) && OneByte(Bindings(segs, pieces), env) && FillSegments(segs, env) == pieces
    ensures Agrees(Bindings(segs, pieces), env)
  {
    if segs != [] {
      MatchAllStep(segs, pieces);
      var bs, here, rest := Bindings(segs, pieces), SegmentBindings(segs[0], pieces[0]), Bindings(segs[1..], pieces[1..]);
      assert bs == here + rest;
      assert forall b :: b in bs <==> b in here || b in rest;
      SegmentAgrees(segs[0], pieces[0], env);
      assert FillSegments(segs, env)[1..] == FillSegments(segs[1..], env);
      SegmentsAgree(segs[1..], pieces[1..], env);
    }
  }

  lemma {:induction false} SegmentSlashFree(s: RouteSegment, env: Env)
    requires SlashFreeSegment(s) && forall n :: n in SegmentNames(s) ==> '/' !in env(n)
    ensures '/' !in FillSegment(s, env)
  {
    if s.Mixed? {
      var pieces := FillParts(s.parts, env);
      forall i | 0 <= i < |s.parts| ensures '/' !in pieces[i] {
        assert s.parts[i] in s.parts;
        if s.parts[i].Hole? { HoleNamed(s.parts, i); }
      }
      ConcatSlashFree(pieces);
    }
  }

  lemma {:induction false} HoleNamed(parts: seq<SegPart>, i: nat)
    requires i < |parts| && parts[i].Hole?
    ensures parts[i].name in PartNames(parts)
  {
    if i > 0 { HoleNamed(parts[1..], i - 1); }
  }

  lemma {:induction false} SegmentsSlashFree(segs: seq<RouteSegment>, env: Env)
    requires SlashFree(segs) && forall n :: n in Names(segs) ==> '/' !in env(n)
    ensures forall p :: p in FillSegments(segs, env) ==> '/' !in p
  {
    if segs != [] {
      assert segs[0] in segs;
      SegmentSlashFree(segs[0], env);
      assert forall t :: t in segs[1..] ==> t in segs;
      SegmentsSlashFree(segs[1..], env);
      assert FillSegments(segs, env) == [FillSegment(segs[0], env)] + FillSegments(segs[1..], env);
    }
  }

  lemma {:induction false} LookupIsBound(bs: seq<Binding>, name: string) returns (k: nat)
    requires Binds(bs, name)
    ensures k < |bs| && Lookup(bs, name) == bs[k].value
  {
    if bs[0].name == name {
      k := 0;
    } else {
      BindsTail(bs, name);
      k := LookupIsBound(bs[1..], name);
      k := k + 1;
    }
  }

  lemma {:induction false} BoundPartsNotEmpty(parts: seq<SegPart>, pieces: seq<string>)
    requires |parts| == |pieces| && (forall i :: 0 <= i < |parts| ==> PieceOk(parts, pieces, i)) && PartBindings(parts, pieces) != []
    ensures Concat(pieces) != ""
  {
    PieceOkTail(parts, pieces);
    if parts[0].Chunk? {
      assert PartBindings(parts, pieces) == PartBindings(parts[1..], pieces[1..]);
      BoundPartsNotEmpty(parts[1..], pieces[1..]);
    }
  }

  lemma BoundNotEmpty(s: RouteSegment, seg: string)
    requires MatchSegment(s, seg) && SegmentBindings(s, seg) != []
    ensures seg != ""
  {
    if s.Mixed? {
      DecomposeSound(s.parts, seg);
      BoundPartsNotEmpty(s.parts, Decompose(s.parts, seg).value);
    }
  }

  lemma JoinNotEmpty(pieces: seq<string>)
    requires |pieces| > 1 || (|pieces| == 1 && pieces[0] != "")
    ensures Join(pieces, '/') != ""
  {
  }

  /** The path of differing values matches, and is what its segments say. */
  lemma DifferingPath(segs: seq<RouteSegment>) returns (path: string)
    requires SlashFree(segs) && ChunksHold(segs) && !Adjacent(segs) && Names(segs) != []
    ensures "/" <= path && MatchesPath(segs, path) && Differ([], PathBindings(segs, path))
  {
    var pieces := DifferingPieces(segs, []);
    DifferingMatchesAll(segs, []);
    path := "/" + Join(pieces, '/');
    assert path[1..] == Join(pieces, '/');
    SplitJoin(pieces, '/');
    if |segs| == 1 {
      BindingNames(segs, pieces);
      assert Bindings(segs, pieces) == SegmentBindings(segs[0], pieces[0]);
      BoundNotEmpty(segs[0], pieces[0]);
    }
    JoinNotEmpty(pieces);
  }

  predicate Rebuilds(segs: seq<RouteSegment>, path: string)
    requires MatchesPath(segs, path)
  {
    FillPath(segs, name => Lookup(PathBindings(segs, path), name)) == path
  }

  /** When all values are single bytes a path can only be rebuilt from consistent ones. */
  lemma RebuiltIsConsistent(segs: seq<RouteSegment>, path: string)
    requires SlashFree(segs) && segs != [] && MatchesPath(segs, path) && Rebuilds(segs, path) && Differ([], PathBindings(segs, path))
    ensures Consistent(PathBindings(segs, path))
  {
    var pieces, bs := Split(path[1..], '/'), PathBindings(segs, path);
    var env := name => Lookup(bs, name);
    BindingNames(segs, pieces);
    forall k | 0 <= k < |bs| ensures |env(bs[k].name)| == 1 && '/' !in env(bs[k].name) && |bs[k].value| == 1 {
      var m := LookupIsBound(bs, bs[k].name);
      assert DiffersAt([], bs, m) && DiffersAt([], bs, k);
    }
    forall n | n in Names(segs) ensures '/' !in env(n) {
      var k :| 0 <= k < |Names(segs)| && Names(segs)[k] == n;
      assert bs[k].name == n;
    }
    SegmentsSlashFree(segs, env);
    SplitJoin(FillSegments(segs, env), '/');
    assert FillPath(segs, env)[1..] == Join(FillSegments(segs, env), '/');
    SegmentsAgree(segs, pieces, env);
    ReadBackIffConsistent(bs);
  }

  lemma AdjacentMatchesNothing(segs: seq<RouteSegment>, path: string)
    requires Adjacent(segs)
    ensures !MatchesPath(segs, path)
  {
    var s :| s in segs && s.Mixed? && AdjacentIn(s.parts);
    var i :| 0 <= i < |s.parts| - 1 && s.parts[i].Hole? && s.parts[i + 1].Hole?;
    var k :| 0 <= k < |segs| && segs[k] == s;
    if MatchesPath(segs, path) {
      var pieces := Split(path[1..], '/');
      assert MatchSegment(segs[k], pieces[k]);
      AdjacentParamsNeverMatch(s.parts, pieces[k], i);
    }
  }

  /** Every matching path is rebuilt from the values read out of it exactly when no parameter name
      repeats, or the pattern has two adjacent parameters and matches nothing at all. */
  lemma RebuiltIffNamesDistinct(segs: seq<RouteSegment>)
    requires SlashFree(segs) && ChunksHold(segs)
    ensures (forall path :: "/" <= path && MatchesPath(segs, path) ==> Rebuilds(segs, path)) <==>
            DistinctNames(segs) || Adjacent(segs)
  {
    if DistinctNames(segs) || Adjacent(segs) {
      forall path | "/" <= path && MatchesPath(segs, path) ensures Rebuilds(segs, path) {
        if Adjacent(segs) { AdjacentMatchesNothing(segs, path); }
        DistinctNamesConsistent(segs, path);
        MatchThenFill(segs, path);
      }
    } else {
      var path := RepeatedNameLosesValues(segs);
    }
  }

  /** For every pattern with a repeated name some matching path is not rebuilt: a name answers for
      the first of its values only. */
  lemma RepeatedNameLosesValues(segs: seq<RouteSegment>) returns (path: string)
    requires SlashFree(segs) && ChunksHold(segs) && !DistinctNames(segs) && !Adjacent(segs)
    ensures "/" <= path && MatchesPath(segs, path) && !Rebuilds(segs, path)
  {
    var ns := Names(segs);
    var i, j :| 0 <= i < j < |ns| && ns[i] == ns[j];
    path := DifferingPath(segs);
    var bs := PathBindings(segs, path);
    BindingNames(segs, Split(path[1..], '/'));
    DifferNotConsistent(bs, i, j);
    if Rebuilds(segs, path) { RebuiltIsConsistent(segs, path); }
  }
}
