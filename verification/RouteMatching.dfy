/** Compiled route patterns and how they match request paths and yield
    parameter values (pkg/runtime/router.go). */
module RouteMatching {
  import opened GoStrings

  /** One piece of a mixed segment: a literal chunk or a parameter. (The source keeps both
      fields and tells them apart by param != ""; a compiled name is never empty.) */
  datatype SegPart = Chunk(text: string) | Hole(name: string)

  /** One segment of a compiled pattern: a literal, a whole-segment parameter, or a mix
      such as "post-{id}". */
  datatype RouteSegment = Literal(text: string) | Param(name: string) | Mixed(parts: seq<SegPart>)

  datatype Binding = Binding(name: string, value: string)

  // ---------------------------------------------------------------- mixed segments

  /** A value in front of a literal ends exactly where the literal first occurs. */
  predicate EndsFirst(v: string, lit: string) {
    Index(v + lit, lit) == |v|
  }

  /** What piece i of a decomposition has to be: the literal itself, or a non-empty
      value that is the last piece or runs up to the first occurrence of the literal
      after it. Two parameters in a row are never acceptable. */
  predicate PieceOk(parts: seq<SegPart>, pieces: seq<string>, i: int)
    requires 0 <= i < |parts| == |pieces|
  {
    if parts[i].Chunk? then pieces[i] == parts[i].text
    else
      pieces[i] != "" &&
      (i + 1 < |parts| ==> parts[i + 1].Chunk? && EndsFirst(pieces[i], parts[i + 1].text))
  }

  predicate IsDecomposition(parts: seq<SegPart>, seg: string, pieces: seq<string>) {
    |pieces| == |parts| && Concat(pieces) == seg &&
    forall i :: 0 <= i < |parts| ==> PieceOk(parts, pieces, i)
  }

  /** Where a leading parameter stops: at the first occurrence of the literal after it,
      or at the end of the segment; -1 when that literal is missing. */
  function ParamEnd(parts: seq<SegPart>, seg: string): (end: int)
    requires parts != []
    ensures -1 <= end <= |seg|
  {
    if |parts| > 1 && parts[1].Chunk? then Index(seg, parts[1].text) else |seg|
  }

  /** The pieces the left-to-right scan cuts seg into, if it gets to the end. */
  function Decompose(parts: seq<SegPart>, seg: string): (r: Option<seq<string>>)
    ensures r.Some? ==> |r.value| == |parts|
  {
    if parts == [] then if seg == "" then Some([]) else None
    else
      var end := if parts[0].Hole? then ParamEnd(parts, seg)
                 else if parts[0].text <= seg then |parts[0].text| else -1;
      if end < 0 || (parts[0].Hole? && end == 0) then None
      else
        match Decompose(parts[1..], seg[end..])
        case None => None
        case Some(pieces) => Some([seg[..end]] + pieces)
  }

  lemma EndsFirstAnyTail(v: string, lit: string, tail: string)
    ensures Index(v + lit + tail, lit) == |v| <==> EndsFirst(v, lit)
  {
    var s, t := v + lit + tail, v + lit;
    assert s[..|t|] == t;
    assert forall k :: 0 <= k <= |v| ==> (OccursAt(s, lit, k) <==> OccursAt(t, lit, k)) by {
      forall k | 0 <= k <= |v| ensures OccursAt(s, lit, k) <==> OccursAt(t, lit, k) {
        assert s[k..k + |lit|] == t[k..k + |lit|];
      }
    }
    assert OccursAt(t, lit, |v|);
    if Index(s, lit) < |v| { assert OccursAt(t, lit, Index(s, lit)); }
    if Index(t, lit) < |v| { assert OccursAt(s, lit, Index(t, lit)); }
  }

  lemma ConcatSplits(pieces: seq<string>)
    requires pieces != []
    ensures Concat(pieces)[|pieces[0]|..] == Concat(pieces[1..])
    ensures Concat(pieces)[..|pieces[0]|] == pieces[0]
  {
  }

  lemma PieceOkTail(parts: seq<SegPart>, pieces: seq<string>)
    requires 0 < |parts| == |pieces|
    ensures (forall i :: 0 <= i < |parts| ==> PieceOk(parts, pieces, i))
            <==> PieceOk(parts, pieces, 0) && (forall i :: 0 <= i < |parts| - 1 ==> PieceOk(parts[1..], pieces[1..], i))
  {
    assert forall i :: 0 <= i < |parts| - 1 ==> (PieceOk(parts[1..], pieces[1..], i) <==> PieceOk(parts, pieces, i + 1));
    if forall i :: 0 <= i < |parts| - 1 ==> PieceOk(parts[1..], pieces[1..], i) {
      forall i | 1 <= i < |parts| ensures PieceOk(parts, pieces, i) {
        assert PieceOk(parts[1..], pieces[1..], i - 1);
      }
    }
  }

  lemma FirstPieceEnds(parts: seq<SegPart>, pieces: seq<string>)
    requires 0 < |parts| == |pieces|
    requires PieceOk(parts, pieces, 0)
    requires |parts| > 1 && parts[1].Chunk? ==> pieces[1] == parts[1].text
    requires |parts| == 1 ==> Concat(pieces[1..]) == ""
    ensures parts[0].Hole? ==> ParamEnd(parts, Concat(pieces)) == |pieces[0]|
    ensures parts[0].Chunk? ==> parts[0].text <= Concat(pieces) && |parts[0].text| == |pieces[0]|
  {
    if parts[0].Hole? && |parts| > 1 {
      var tail := Concat(pieces[1..][1..]);
      assert Concat(pieces) == pieces[0] + parts[1].text + tail;
      EndsFirstAnyTail(pieces[0], parts[1].text, tail);
    }
  }

  lemma {:induction false} DecomposeComplete(parts: seq<SegPart>, pieces: seq<string>)
    requires |pieces| == |parts| && forall i :: 0 <= i < |parts| ==> PieceOk(parts, pieces, i)
    ensures Decompose(parts, Concat(pieces)) == Some(pieces)
  {
    if parts != [] {
      PieceOkTail(parts, pieces);
      DecomposeComplete(parts[1..], pieces[1..]);
      assert |parts| > 1 ==> PieceOk(parts, pieces, 1);
      FirstPieceEnds(parts, pieces);
      ConcatSplits(pieces);
      assert [pieces[0]] + pieces[1..] == pieces;
    }
  }

  /** A parameter that the scan ended at the next literal is followed by that literal, not
      by another parameter, and holds no earlier occurrence of it. */
  lemma FirstPieceOk(parts: seq<SegPart>, pieces: seq<string>)
    requires 0 < |parts| == |pieces|
    requires parts[0].Hole? && |pieces[0]| > 0 && ParamEnd(parts, Concat(pieces)) == |pieces[0]|
    requires |parts| > 1 ==> PieceOk(parts[1..], pieces[1..], 0)
    ensures PieceOk(parts, pieces, 0)
  {
    if |parts| > 1 {
      assert parts[1..][0] == parts[1] && pieces[1..][0] == pieces[1];
      if parts[1].Chunk? {
        var tail := Concat(pieces[1..][1..]);
        assert Concat(pieces) == pieces[0] + parts[1].text + tail;
        EndsFirstAnyTail(pieces[0], parts[1].text, tail);
      }
    }
  }

  lemma {:induction false} DecomposeSound(parts: seq<SegPart>, seg: string)
    requires Decompose(parts, seg).Some?
    ensures IsDecomposition(parts, seg, Decompose(parts, seg).value)
  {
    if parts != [] {
      var pieces := Decompose(parts, seg).value;
      var end := |pieces[0]|;
      DecomposeSound(parts[1..], seg[end..]);
      assert pieces[1..] == Decompose(parts[1..], seg[end..]).value;
      assert seg == seg[..end] + seg[end..];
      if parts[0].Hole? {
        assert |parts| > 1 ==> PieceOk(parts[1..], pieces[1..], 0);
        FirstPieceOk(parts, pieces);
      }
      PieceOkTail(parts, pieces);
    }
  }

  /** The scan finds a decomposition exactly when one exists, and it finds that one:
      decompositions are unique. */
  lemma DecomposeExact(parts: seq<SegPart>, seg: string, pieces: seq<string>)
    ensures Decompose(parts, seg) == Some(pieces) <==> IsDecomposition(parts, seg, pieces)
  {
    if Decompose(parts, seg).Some? { DecomposeSound(parts, seg); }
    if IsDecomposition(parts, seg, pieces) { DecomposeComplete(parts, pieces); }
  }

  lemma AdjacentParamsNeverMatch(parts: seq<SegPart>, seg: string, i: nat)
    requires i + 1 < |parts| && parts[i].Hole? && parts[i + 1].Hole?
    ensures Decompose(parts, seg) == None
  {
    if Decompose(parts, seg).Some? {
      assert !PieceOk(parts, Decompose(parts, seg).value, i);
      DecomposeSound(parts, seg);
    }
  }

  /** matchSegParts: the cursor walk accepts exactly the decomposable segments. */
  method MatchSegParts(parts: seq<SegPart>, seg: string) returns (ok: bool)
    ensures ok <==> exists pieces :: IsDecomposition(parts, seg, pieces)
    ensures ok <==> Decompose(parts, seg).Some?
  {
    ghost var goal := Decompose(parts, seg).Some?;
    if goal {
      DecomposeSound(parts, seg);
    } else {
      forall pieces ensures !IsDecomposition(parts, seg, pieces) { DecomposeExact(parts, seg, pieces); }
    }
    var off := 0;
    for pi := 0 to |parts|
      invariant 0 <= off <= |seg|
      invariant goal <==> Decompose(parts[pi..], seg[off..]).Some?
    {
      var part := parts[pi];
      assert parts[pi..][0] == part && parts[pi..][1..] == parts[pi + 1..];
      if part.Hole? {
        var end;
        if pi + 1 < |parts| && parts[pi + 1].Chunk? {
          var next := Index(seg[off..], parts[pi + 1].text);
          if next < 0 {
            return false;
          }
          end := off + next;
        } else {
          end := |seg|;
        }
        if end == off {
          return false;
        }
        assert seg[off..][end - off..] == seg[end..];
        off := end;
        continue;
      }
      if !(part.text <= seg[off..]) {
        return false;
      }
      var next := off + |part.text|;
      assert seg[off..][next - off..] == seg[next..];
      off := next;
    }
    assert parts[|parts|..] == [];
    return off == |seg|;
  }

  /** The (name, value) pairs of a mixed segment, left to right. */
  function PartBindings(parts: seq<SegPart>, pieces: seq<string>): (bs: seq<Binding>)
    requires |parts| == |pieces|
  {
    if parts == [] then []
    else (if parts[0].Hole? then [Binding(parts[0].name, pieces[0])] else [])
         + PartBindings(parts[1..], pieces[1..])
  }

  predicate Binds(bs: seq<Binding>, name: string) {
    exists i :: 0 <= i < |bs| && bs[i].name == name
  }

  /** The value of the first binding of the name; "" when there is none. */
  function Lookup(bs: seq<Binding>, name: string): string {
    if bs == [] then "" else if bs[0].name == name then bs[0].value else Lookup(bs[1..], name)
  }

  /** The rest of a matched segment answers a lookup with (found, value). */
  ghost predicate Answers(parts: seq<SegPart>, seg: string, name: string, found: bool, value: string) {
    Decompose(parts, seg).Some? &&
    var bs := PartBindings(parts, Decompose(parts, seg).value);
    found == Binds(bs, name) && value == Lookup(bs, name)
  }

  lemma AnswersStep(parts: seq<SegPart>, seg: string, name: string, found: bool, value: string)
    requires Answers(parts, seg, name, found, value) && parts != []
    ensures parts[0].Chunk? ==>
              parts[0].text <= seg && Answers(parts[1..], seg[|parts[0].text|..], name, found, value)
    ensures parts[0].Hole? ==>
              var end := ParamEnd(parts, seg);
              0 < end && (if parts[0].name == name then found && value == seg[..end]
                          else Answers(parts[1..], seg[end..], name, found, value))
  {
    var pieces := Decompose(parts, seg).value;
    var bs := PartBindings(parts, pieces);
    if parts[0].Hole? {
      assert bs[1..] == PartBindings(parts[1..], pieces[1..]);
      BindsTail(bs, name);
    } else {
      assert bs == PartBindings(parts[1..], pieces[1..]);
    }
  }

  /** The same step, in the cursor terms of the walk below. */
  lemma AnswersAt(parts: seq<SegPart>, pi: nat, seg: string, off: nat, next: nat, name: string, found: bool, value: string)
    requires pi < |parts| && off <= next && off <= |seg|
    requires Answers(parts[pi..], seg[off..], name, found, value)
    requires parts[pi].Chunk? ==> next == off + |parts[pi].text|
    requires parts[pi].Hole? && ParamEnd(parts[pi..], seg[off..]) >= 0 ==> next == off + ParamEnd(parts[pi..], seg[off..])
    ensures parts[pi].Chunk? ==>
              parts[pi].text <= seg[off..] && next <= |seg| && Answers(parts[pi + 1..], seg[next..], name, found, value)
    ensures parts[pi].Hole? ==>
              ParamEnd(parts[pi..], seg[off..]) >= 0 && off < next <= |seg| &&
              (if parts[pi].name == name then found && value == seg[off..next]
               else Answers(parts[pi + 1..], seg[next..], name, found, value))
  {
    AnswersStep(parts[pi..], seg[off..], name, found, value);
    assert parts[pi..][1..] == parts[pi + 1..];
    assert seg[off..][next - off..] == seg[next..] && seg[off..][..next - off] == seg[off..next];
  }

  lemma AnswersMean(parts: seq<SegPart>, seg: string, name: string, found: bool, value: string)
    requires Decompose(parts, seg).Some? ==> Answers(parts, seg, name, found, value)
    ensures ValueOfMatch(parts, seg, name, found, value)
  {
    forall pieces | IsDecomposition(parts, seg, pieces)
      ensures found == Binds(PartBindings(parts, pieces), name) && value == Lookup(PartBindings(parts, pieces), name)
    {
      DecomposeExact(parts, seg, pieces);
    }
  }

  /** (found, value) is what the decomposition of a matching segment holds under the name. */
  ghost predicate ValueOfMatch(parts: seq<SegPart>, seg: string, name: string, found: bool, value: string) {
    forall pieces :: IsDecomposition(parts, seg, pieces) ==>
      found == Binds(PartBindings(parts, pieces), name) && value == Lookup(PartBindings(parts, pieces), name)
  }

  /** segPartValue: on a segment that matched, the piece of the decomposition that stands
      at the parameter's first place. */
  method SegPartValue(parts: seq<SegPart>, seg: string, name: string) returns (value: string, found: bool)
    ensures ValueOfMatch(parts, seg, name, found, value)
    ensures Decompose(parts, seg).Some? ==> Answers(parts, seg, name, found, value)
  {
    ghost var matched := Decompose(parts, seg).Some?;
    ghost var wantFound, want := false, "";
    if matched {
      var bs := PartBindings(parts, Decompose(parts, seg).value);
      wantFound, want := Binds(bs, name), Lookup(bs, name);
    }
    var off := 0;
    for pi := 0 to |parts|
      invariant 0 <= off <= |seg|
      invariant matched ==> Answers(parts[pi..], seg[off..], name, wantFound, want)
    {
      var part := parts[pi];
      if part.Hole? {
        var end;
        if pi + 1 < |parts| && parts[pi + 1].Chunk? {
          var next := Index(seg[off..], parts[pi + 1].text);
          if matched { AnswersStep(parts[pi..], seg[off..], name, wantFound, want); }
          if next < 0 {
            value, found := "", false;
            AnswersMean(parts, seg, name, found, value);
            return;
          }
          end := off + next;
        } else {
          end := |seg|;
        }
        if matched { AnswersAt(parts, pi, seg, off, end, name, wantFound, want); }
        if part.name == name {
          value, found := seg[off..end], true;
          AnswersMean(parts, seg, name, found, value);
          return;
        }
        off := end;
        continue;
      }
      var next := off + |part.text|;
      if matched { AnswersAt(parts, pi, seg, off, next, name, wantFound, want); }
      if !(part.text <= seg[off..]) {
        value, found := "", false;
        AnswersMean(parts, seg, name, found, value);
        return;
      }
      off := next;
    }
    value, found := "", false;
    AnswersMean(parts, seg, name, found, value);
  }

  lemma BindsTail(bs: seq<Binding>, name: string)
    requires bs != []
    ensures Binds(bs, name) <==> bs[0].name == name || Binds(bs[1..], name)
  {
    if Binds(bs, name) {
      var i :| 0 <= i < |bs| && bs[i].name == name;
      assert i > 0 ==> bs[1..][i - 1] == bs[i];
    }
    if Binds(bs[1..], name) {
      var i :| 0 <= i < |bs| - 1 && bs[1..][i].name == name;
      assert bs[i + 1].name == name;
    }
  }

  // ---------------------------------------------------------------- whole paths

  /** matchSegment. */
  predicate MatchSegment(s: RouteSegment, seg: string) {
    match s
    case Param(_) => seg != ""
    case Mixed(parts) => Decompose(parts, seg).Some?
    case Literal(text) => text == seg
  }

  predicate MatchAll(segs: seq<RouteSegment>, pieces: seq<string>) {
    |segs| == |pieces| && forall i :: 0 <= i < |segs| ==> MatchSegment(segs[i], pieces[i])
  }

  /** What the cursor walk has to decide: the path, cut at every '/', has as many
      segments as the pattern, and they match one by one. */
  predicate MatchesPath(segs: seq<RouteSegment>, path: string) {
    |path| > 1 && MatchAll(segs, Split(path[1..], '/'))
  }

  /** The pieces of the path from a cursor on; none once the cursor has run past the end. */
  ghost function PiecesFrom(path: string, off: nat): seq<string> {
    if off <= |path| then Split(path[off..], '/') else []
  }

  /** The cut at the next '/' that both walks make. */
  lemma PiecesFromStep(path: string, off: nat, seg: string, next: nat)
    requires off <= |path| && next == off + |seg| + 1
    requires var idx := IndexByte(path[off..], '/'); seg == if idx < 0 then path[off..] else path[off..off + idx]
    ensures PiecesFrom(path, off) == [seg] + PiecesFrom(path, next)
  {
    var s := path[off..];
    var idx := IndexByte(s, '/');
    if idx >= 0 {
      assert s == seg + ['/'] + path[next..];
      SplitCons(seg, path[next..], '/');
    }
  }

  lemma MatchAllStep(segs: seq<RouteSegment>, pieces: seq<string>)
    requires pieces != []
    ensures MatchAll(segs, pieces) <==>
            segs != [] && MatchSegment(segs[0], pieces[0]) && MatchAll(segs[1..], pieces[1..])
  {
    if segs != [] && MatchSegment(segs[0], pieces[0]) && MatchAll(segs[1..], pieces[1..]) {
      forall i | 0 <= i < |segs| ensures MatchSegment(segs[i], pieces[i]) {
        if i > 0 { assert MatchSegment(segs[1..][i - 1], pieces[1..][i - 1]); }
      }
    }
    if MatchAll(segs, pieces) {
      assert forall i :: 0 <= i < |segs| - 1 ==> segs[1..][i] == segs[i + 1] && pieces[1..][i] == pieces[i + 1];
    }
  }

  /** One round of the walk: from segment i at offset off to offset next. */
  lemma MatchStep(segs: seq<RouteSegment>, i: nat, path: string, off: nat, seg: string, next: nat)
    requires i <= |segs| && off <= |path| && next == off + |seg| + 1
    requires var idx := IndexByte(path[off..], '/'); seg == if idx < 0 then path[off..] else path[off..off + idx]
    ensures MatchAll(segs[i..], PiecesFrom(path, off)) <==>
            i < |segs| && MatchSegment(segs[i], seg) && MatchAll(segs[i + 1..], PiecesFrom(path, next))
  {
    PiecesFromStep(path, off, seg, next);
    var pieces := PiecesFrom(path, off);
    assert pieces[0] == seg && pieces[1..] == PiecesFrom(path, next);
    MatchAllStep(segs[i..], pieces);
    if i < |segs| { assert segs[i..][0] == segs[i] && segs[i..][1..] == segs[i + 1..]; }
  }

  /** matchParams: the walk that never builds the segment list. */
  method MatchParams(segs: seq<RouteSegment>, path: string) returns (ok: bool)
    ensures ok == MatchesPath(segs, path)
    ensures ok ==> |path| > 1
  {
    if |path| <= 1 {
      return false;
    }
    ghost var goal := MatchesPath(segs, path);
    assert segs[0..] == segs;
    var i, off := 0, 1;
    while true
      invariant 1 <= off <= |path| && 0 <= i <= |segs|
      invariant goal == MatchAll(segs[i..], PiecesFrom(path, off))
      decreases |path| - off
    {
      var idx := IndexByte(path[off..], '/');
      var seg := if idx < 0 then path[off..] else path[off..off + idx];
      var next := if idx < 0 then |path| + 1 else off + idx + 1;
      MatchStep(segs, i, path, off, seg, next);
      if i >= |segs| {
        return false;
      }
      if !MatchSegment(segs[i], seg) {
        return false;
      }
      i := i + 1;
      if idx < 0 {
        break;
      }
      off := next;
    }
    return i == |segs|;
  }

  function SegmentBindings(s: RouteSegment, seg: string): seq<Binding>
    requires MatchSegment(s, seg)
  {
    match s
    case Param(name) => [Binding(name, seg)]
    case Mixed(parts) => PartBindings(parts, Decompose(parts, seg).value)
    case Literal(_) => []
  }

  /** Everything a matching path binds, in pattern order. */
  function Bindings(segs: seq<RouteSegment>, pieces: seq<string>): seq<Binding>
    requires MatchAll(segs, pieces)
  {
    if segs == [] then []
    else
      assert MatchAll(segs[1..], pieces[1..]) by { MatchAllStep(segs, pieces); }
      SegmentBindings(segs[0], pieces[0]) + Bindings(segs[1..], pieces[1..])
  }

  function PathBindings(segs: seq<RouteSegment>, path: string): seq<Binding>
    requires MatchesPath(segs, path)
  {
    Bindings(segs, Split(path[1..], '/'))
  }

  lemma {:induction false} LookupAppend(a: seq<Binding>, b: seq<Binding>, name: string)
    ensures Binds(a, name) ==> Lookup(a + b, name) == Lookup(a, name)
    ensures !Binds(a, name) ==> Lookup(a + b, name) == Lookup(b, name)
    ensures Binds(a + b, name) <==> Binds(a, name) || Binds(b, name)
  {
    if a == [] {
      assert a + b == b;
    } else {
      LookupAppend(a[1..], b, name);
      BindsTail(a, name);
      BindsTail(a + b, name);
      assert (a + b)[1..] == a[1..] + b;
    }
  }

  /** What a lookup on the rest of a match finds; None when the rest does not match. */
  ghost function LookupRest(segs: seq<RouteSegment>, pieces: seq<string>, name: string): Option<string> {
    if MatchAll(segs, pieces) then Some(Lookup(Bindings(segs, pieces), name)) else None
  }

  ghost predicate SegmentAnswers(s: RouteSegment, seg: string, name: string, found: bool, value: string) {
    if s.Param? then found == (s.name == name) && (found ==> value == seg)
    else if s.Mixed? then Decompose(s.parts, seg).Some? ==> Answers(s.parts, seg, name, found, value)
    else !found
  }

  lemma LookupRestStep(s: RouteSegment, segs: seq<RouteSegment>, seg: string, pieces: seq<string>, name: string,
                       found: bool, value: string)
    requires LookupRest([s] + segs, [seg] + pieces, name).Some?
    ensures SegmentAnswers(s, seg, name, found, value) ==>
              LookupRest([s] + segs, [seg] + pieces, name) ==
              (if found then Some(value) else LookupRest(segs, pieces, name))
  {
    var ss, ps := [s] + segs, [seg] + pieces;
    MatchAllStep(ss, ps);
    assert ss[1..] == segs && ps[1..] == pieces && ss[0] == s && ps[0] == seg;
    var here := SegmentBindings(s, seg);
    LookupAppend(here, Bindings(segs, pieces), name);
    if s.Param? {
      BindsTail(here, name);
    }
  }

  /** What is left to look up stands at segment i and path offset off, and is answered by goal. */
  ghost predicate Walking(segs: seq<RouteSegment>, i: nat, path: string, off: nat, name: string, goal: Option<string>)
    requires i <= |segs|
  {
    goal.Some? ==> LookupRest(segs[i..], PiecesFrom(path, off), name) == goal
  }

  /** One round of the walk, in its own cursor terms. */
  lemma WalkStep(segs: seq<RouteSegment>, i: nat, path: string, off: nat, seg: string, name: string,
                 found: bool, value: string, goal: Option<string>, next: nat)
    requires next == off + |seg| + 1
    requires i <= |segs| && off <= |path| && Walking(segs, i, path, off, name, goal)
    requires var idx := IndexByte(path[off..], '/'); seg == if idx < 0 then path[off..] else path[off..off + idx]
    requires i < |segs| ==> SegmentAnswers(segs[i], seg, name, found, value)
    ensures goal.Some? ==> i < |segs|
    ensures goal.Some? && found ==> goal == Some(value)
    ensures i < |segs| && !found ==> Walking(segs, i + 1, path, next, name, goal)
    ensures goal.Some? && !found && next > |path| ==> goal == Some("")
  {
    if goal.Some? {
      var rest := PiecesFrom(path, next);
      PiecesFromStep(path, off, seg, next);
      assert |segs[i..]| == |[seg] + rest|;
      assert segs[i..] == [segs[i]] + segs[i + 1..];
      LookupRestStep(segs[i], segs[i + 1..], seg, rest, name, found, value);
    }
  }

  /** The switch inside paramValue's loop. */
  method SegmentValue(s: RouteSegment, seg: string, name: string) returns (value: string, found: bool)
    ensures SegmentAnswers(s, seg, name, found, value)
  {
    if s.Param? && s.name == name {
      return seg, true;
    } else if s.Mixed? {
      value, found := SegPartValue(s.parts, seg, name);
      return;
    }
    return "", false;
  }

  /** The walk of paramValue over a path that has at least one segment. */
  method LookupWalk(segs: seq<RouteSegment>, path: string, name: string) returns (value: string)
    requires |path| > 1
    ensures LookupRest(segs, PiecesFrom(path, 1), name).Some? ==> LookupRest(segs, PiecesFrom(path, 1), name) == Some(value)
  {
    ghost var goal := LookupRest(segs, PiecesFrom(path, 1), name);
    assert Walking(segs, 0, path, 1, name, goal) by { assert segs[0..] == segs; }
    hide *;
    var i, off := 0, 1;
    while true
      invariant 1 <= off <= |path| && 0 <= i <= |segs|
      invariant Walking(segs, i, path, off, name, goal)
      decreases |path| - off
    {
      var idx := IndexByte(path[off..], '/');
      var seg := if idx < 0 then path[off..] else path[off..off + idx];
      var v, found := "", false;
      if i < |segs| {
        v, found := SegmentValue(segs[i], seg, name);
      }
      var next := if idx < 0 then |path| + 1 else off + idx + 1;
      WalkStep(segs, i, path, off, seg, name, found, v, goal, next);
      if i >= |segs| {
        return "";
      }
      if found {
        return v;
      }
      i := i + 1;
      if idx < 0 {
        break;
      }
      off := next;
    }
    return "";
  }

  /** paramValue: on a matching path, the value of the first binding of the name. */
  method ParamValue(segs: seq<RouteSegment>, path: string, name: string) returns (value: string)
    ensures MatchesPath(segs, path) ==> value == Lookup(PathBindings(segs, path), name)
  {
    if |path| <= 1 {
      return "";
    }
    value := LookupWalk(segs, path, name);
  }
}
