/** The route pattern compiler (pkg/runtime/router.go, compilePattern and below). */
module RoutePatterns {
  import opened GoStrings
  import opened RouteMatching
  import RouteSubstitution

  predicate ValidByte(c: char) {
    'a' <= c <= 'z' || 'A' <= c <= 'Z' || '0' <= c <= '9' || c == '_'
  }

  predicate ValidName(name: string) {
    name != "" && forall c :: c in name ==> ValidByte(c)
  }

  /** paramSegmentName: the name when the whole segment is "{name}" or ":name". */
  function ParamSegmentName(segment: string): Option<string> {
    if |segment| > 1 && segment[0] == '{' && segment[|segment| - 1] == '}' then
      if ValidName(segment[1..|segment| - 1]) then Some(segment[1..|segment| - 1]) else None
    else if |segment| > 0 && segment[0] == ':' then
      if ValidName(segment[1..]) then Some(segment[1..]) else None
    else None
  }

  // ---------------------------------------------------------------- mixed segments

  /** Inside a segment a ":name" runs up to the next '.', '-', '_', '{' or byte no name may hold. */
  predicate RunByte(c: char) {
    ValidByte(c) && c != '_'
  }

  function NameRun(s: string): (n: nat)
    ensures n <= |s| && forall k :: 0 <= k < n ==> RunByte(s[k])
    ensures n < |s| ==> !RunByte(s[n])
  {
    if s == "" || !RunByte(s[0]) then 0 else 1 + NameRun(s[1..])
  }

  function Flush(lit: string): seq<SegPart> {
    if lit == "" then [] else [Chunk(lit)]
  }

  /** What the compiler does at the front of s: take a parameter spelled in the first
      `length` bytes, or keep one byte as literal text. */
  datatype Lexeme = Keep | Take(name: string, length: nat)

  function Lex(s: string): (x: Lexeme)
    requires s != ""
    ensures x.Take? ==> ValidName(x.name) && x.length <= |s| &&
                        (s[..x.length] == "{" + x.name + "}" || s[..x.length] == ":" + x.name)
  {
    if s[0] == '{' then
      var end := IndexByte(s, '}');
      if end < 0 || !ValidName(s[1..end]) then Keep else Take(s[1..end], end + 1)
    else if s[0] == ':' then
      var n := NameRun(s[1..]);
      assert forall k :: 1 <= k < n + 1 ==> s[k] == s[1..][k - 1];
      if n == 0 then Keep else Take(s[1..n + 1], n + 1)
    else Keep
  }

  /** The parts that the rest s of a segment adds when lit is already in the literal buffer. */
  function Tokens(s: string, lit: string): seq<SegPart>
    decreases |s|
  {
    if s == "" then Flush(lit)
    else
      match Lex(s)
      case Keep => Tokens(s[1..], lit + [s[0]])
      case Take(name, length) => Flush(lit) + [Hole(name)] + Tokens(s[length..], "")
  }

  predicate HasHole(parts: seq<SegPart>) {
    exists p :: p in parts && p.Hole?
  }

  /** One turn of the loop: parts so far and the rest to scan still make up goal. */
  lemma TokensTurn(segment: string, i: nat, next: nat, parts: seq<SegPart>, lit: string, goal: seq<SegPart>)
    requires i < |segment| && parts + Tokens(segment[i..], lit) == goal
    requires match Lex(segment[i..]) case Keep => next == i + 1 case Take(_, length) => next == i + length
    ensures next <= |segment|
    ensures match Lex(segment[i..])
            case Keep => parts + Tokens(segment[next..], lit + [segment[i]]) == goal
            case Take(name, _) => (parts + Flush(lit) + [Hole(name)]) + Tokens(segment[next..], "") == goal
  {
    var s := segment[i..];
    assert s[next - i..] == segment[next..] && s[0] == segment[i];
    if Lex(s).Take? {
      var rest := Tokens(segment[next..], "");
      assert Tokens(s, lit) == Flush(lit) + [Hole(Lex(s).name)] + rest;
      assert (parts + Flush(lit) + [Hole(Lex(s).name)]) + rest == parts + (Flush(lit) + [Hole(Lex(s).name)] + rest);
    }
  }

  lemma LexColonAt(segment: string, i: nat, j: nat)
    requires i < j <= |segment| && segment[i] == ':'
    requires (forall k :: i + 1 <= k < j ==> RunByte(segment[k])) && (j < |segment| ==> !RunByte(segment[j]))
    ensures Lex(segment[i..]) == if j == i + 1 then Keep else Take(segment[i + 1..j], j - i)
  {
    var s, n := segment[i..], j - i - 1;
    NameRunStops(s[1..], n);
    assert s[1..n + 1] == segment[i + 1..j];
  }

  lemma LexBraceAt(segment: string, i: nat, end: int)
    requires i < |segment| && segment[i] == '{' && end == IndexByte(segment[i..], '}')
    ensures Lex(segment[i..]) == if end >= 0 && ValidName(segment[i + 1..i + end]) then Take(segment[i + 1..i + end], end + 1) else Keep
  {
    assert end >= 0 ==> segment[i..][1..end] == segment[i + 1..i + end];
  }

  lemma LexOtherAt(segment: string, i: nat)
    requires i < |segment| && segment[i] != '{' && segment[i] != ':'
    ensures Lex(segment[i..]) == Keep
  {
  }

  lemma NameNotEmpty(name: string)
    requires ValidName(name)
    ensures name != ""
  {
  }

  lemma RunIsName(segment: string, i: nat, j: nat)
    requires i < j <= |segment| && forall k :: i + 1 <= k < j ==> RunByte(segment[k])
    ensures j > i + 1 ==> segment[i + 1..j] != ""
  {
  }

  /** compileSegParts: the loop with a literal buffer and an index into the segment. */
  method CompileSegParts(segment: string) returns (r: Option<seq<SegPart>>)
    ensures r == (if HasHole(Tokens(segment, "")) then Some(Tokens(segment, "")) else None)
  {
    var parts: seq<SegPart>, lit, i := [], "", 0;
    ghost var goal := Tokens(segment, "");
    assert segment[0..] == segment;
    hide Tokens, Lex, ValidName;
    while i < |segment|
      invariant 0 <= i <= |segment|
      invariant parts + Tokens(segment[i..], lit) == goal
    {
      var c := segment[i];
      var next := i + 1;
      var name := "";
      if c == '{' {
        var end := IndexByte(segment[i..], '}');
        LexBraceAt(segment, i, end);
        if end >= 0 && ValidName(segment[i + 1..i + end]) {
          name, next := segment[i + 1..i + end], i + end + 1;
          NameNotEmpty(name);
        }
      } else if c == ':' {
        var j := i + 1;
        while j < |segment| && RunByte(segment[j])
          invariant i + 1 <= j <= |segment|
          invariant forall k :: i + 1 <= k < j ==> RunByte(segment[k])
        {
          j := j + 1;
        }
        LexColonAt(segment, i, j);
        if j > i + 1 {
          RunIsName(segment, i, j);
          name, next := segment[i + 1..j], j;
        }
      } else {
        LexOtherAt(segment, i);
      }
      TokensTurn(segment, i, next, parts, lit, goal);
      if name != "" {
        parts, lit := parts + Flush(lit) + [Hole(name)], "";
      } else {
        lit := lit + [c];
      }
      i := next;
    }
    parts := parts + Flush(lit);
    LastTokens(segment[i..], lit);
    assert parts == goal;
    if exists p :: p in parts && p.Hole? {
      return Some(parts);
    }
    return None;
  }

  lemma LastTokens(s: string, lit: string)
    requires s == ""
    ensures Tokens(s, lit) == Flush(lit)
  {
  }

  lemma NameRunStops(s: string, n: nat)
    requires n <= |s| && (forall k :: 0 <= k < n ==> RunByte(s[k])) && (n < |s| ==> !RunByte(s[n]))
    ensures NameRun(s) == n
  {
  }

  /** Literal chunks are not empty and never adjacent; names are valid. */
  predicate Canonical(parts: seq<SegPart>) {
    forall i :: 0 <= i < |parts| ==> CanonicalPart(parts, i)
  }

  predicate CanonicalPart(parts: seq<SegPart>, i: int)
    requires 0 <= i < |parts|
  {
    match parts[i]
    case Chunk(text) => text != "" && (i + 1 < |parts| ==> parts[i + 1].Hole?)
    case Hole(name) => ValidName(name)
  }

  lemma CanonicalCons(lit: string, name: string, rest: seq<SegPart>)
    requires ValidName(name) && Canonical(rest)
    ensures Canonical(Flush(lit) + [Hole(name)] + rest)
  {
    var parts := Flush(lit) + [Hole(name)] + rest;
    var k := |parts| - |rest|;
    forall i | 0 <= i < |parts| ensures CanonicalPart(parts, i) {
      if i >= k { assert CanonicalPart(rest, i - k); }
    }
  }

  lemma {:induction false} TokensCanonical(s: string, lit: string)
    ensures Canonical(Tokens(s, lit))
    decreases |s|
  {
    if s != "" {
      match Lex(s)
      case Keep => TokensCanonical(s[1..], lit + [s[0]]);
      case Take(name, length) =>
        TokensCanonical(s[length..], "");
        CanonicalCons(lit, name, Tokens(s[length..], ""));
    }
  }

  // ---------------------------------------------------------------- spelling parts

  datatype Style = Braces | Colon

  function SpellPart(p: SegPart, style: Style): string {
    match p
    case Chunk(text) => text
    case Hole(name) => if style == Braces then "{" + name + "}" else ":" + name
  }

  /** The pattern text of a part list, with each parameter written in one of the two styles. */
  function Spell(parts: seq<SegPart>, styles: seq<Style>): string
    requires |parts| == |styles|
  {
    if parts == [] then "" else SpellPart(parts[0], styles[0]) + Spell(parts[1..], styles[1..])
  }

  lemma SpellCons(p: SegPart, style: Style, rest: seq<SegPart>, styles: seq<Style>)
    requires |rest| == |styles|
    ensures Spell([p] + rest, [style] + styles) == SpellPart(p, style) + Spell(rest, styles)
  {
    assert ([p] + rest)[1..] == rest && ([style] + styles)[1..] == styles;
  }

  lemma SpellTokensCons(lit: string, hole: SegPart, style: Style, rest: seq<SegPart>, styles: seq<Style>) returns (all: seq<Style>)
    requires |rest| == |styles|
    ensures |all| == |Flush(lit) + [hole] + rest|
    ensures Spell(Flush(lit) + [hole] + rest, all) == lit + (SpellPart(hole, style) + Spell(rest, styles))
  {
    var tail := [hole] + rest;
    all := [style] + styles;
    SpellCons(hole, style, rest, styles);
    if lit == "" {
      assert Flush(lit) + [hole] == [hole];
    } else {
      SpellCons(Chunk(lit), Braces, tail, all);
      assert Flush(lit) + [hole] + rest == Flush(lit) + tail;
      all := [Braces] + all;
    }
  }

  lemma TokensTake(s: string, lit: string, name: string, length: nat)
    requires s != "" && Lex(s) == Take(name, length)
    ensures length <= |s| && Tokens(s, lit) == Flush(lit) + [Hole(name)] + Tokens(s[length..], "")
    ensures s[..length] == SpellPart(Hole(name), Braces) || s[..length] == SpellPart(Hole(name), Colon)
  {
  }

  lemma SpellTake(s: string, lit: string, name: string, length: nat, rest: seq<Style>) returns (styles: seq<Style>)
    requires s != "" && Lex(s) == Take(name, length) && length <= |s|
    requires var tail := s[length..]; |rest| == |Tokens(tail, "")| && Spell(Tokens(tail, ""), rest) == tail
    ensures |styles| == |Tokens(s, lit)| && Spell(Tokens(s, lit), styles) == lit + s
  {
    hide *;
    TokensTake(s, lit, name, length);
    var head, tail, hole := s[..length], s[length..], Hole(name);
    var style := if head == SpellPart(hole, Braces) then Braces else Colon;
    styles := SpellTokensCons(lit, hole, style, Tokens(tail, ""), rest);
    assert s == head + tail;
  }

  /** The compiler forgets nothing: the compiled parts spell the text they came from. */
  lemma {:induction false} TokensSpell(s: string, lit: string) returns (styles: seq<Style>)
    ensures |styles| == |Tokens(s, lit)| && Spell(Tokens(s, lit), styles) == lit + s
    decreases |s|
  {
    if s == "" {
      styles := if lit == "" then [] else [Braces];
      assert Spell(Flush(lit), styles) == lit;
    } else {
      match Lex(s) {
        case Keep =>
          styles := TokensSpell(s[1..], lit + [s[0]]);
          assert lit + s == lit + [s[0]] + s[1..];
        case Take(name, length) =>
          var rest := TokensSpell(s[length..], "");
          assert Spell(Tokens(s[length..], ""), rest) == s[length..];
          styles := SpellTake(s, lit, name, length, rest);
      }
    }
  }

  /** Part i can be spelled so that the compiler reads it back: chunks hold neither '{' nor
      ':', and a ":name" holds no '_' and stands before a byte that cannot continue it. */
  predicate SpellablePart(parts: seq<SegPart>, styles: seq<Style>, i: int)
    requires 0 <= i < |parts| == |styles|
  {
    match parts[i]
    case Chunk(text) => text != "" && '{' !in text && ':' !in text && (i + 1 < |parts| ==> parts[i + 1].Hole?)
    case Hole(name) =>
      ValidName(name) &&
      (styles[i] == Colon ==>
         '_' !in name && (i + 1 < |parts| && parts[i + 1].Chunk? ==> parts[i + 1].text != "" && !ValidByte(parts[i + 1].text[0])))
  }

  predicate Spellable(parts: seq<SegPart>, styles: seq<Style>) {
    |parts| == |styles| && forall i :: 0 <= i < |parts| ==> SpellablePart(parts, styles, i)
  }

  lemma SpellableTail(parts: seq<SegPart>, styles: seq<Style>)
    requires Spellable(parts, styles) && parts != []
    ensures Spellable(parts[1..], styles[1..])
  {
    forall i | 0 <= i < |parts| - 1 ensures SpellablePart(parts[1..], styles[1..], i) {
      assert SpellablePart(parts, styles, i + 1);
    }
  }

  lemma {:induction false} TokensText(text: string, rest: string, lit: string)
    requires '{' !in text && ':' !in text
    ensures Tokens(text + rest, lit) == Tokens(rest, lit + text)
  {
    if text == "" {
      assert text + rest == rest && lit + text == lit;
    } else {
      assert (text + rest)[1..] == text[1..] + rest;
      TokensText(text[1..], rest, lit + [text[0]]);
      assert lit + [text[0]] + text[1..] == lit + text;
    }
  }

  lemma NameRunExact(name: string, rest: string)
    requires ValidName(name) && '_' !in name && (rest == "" || !RunByte(rest[0]))
    ensures NameRun(name + rest) == |name|
  {
    var s := name + rest;
    assert forall k :: 0 <= k < |name| ==> s[k] == name[k] && s[k] in name && RunByte(s[k]);
    assert rest != "" ==> s[|name|] == rest[0];
    NameRunStops(s, |name|);
  }

  lemma LexBraces(name: string, rest: string)
    requires ValidName(name)
    ensures Lex("{" + name + "}" + rest) == Take(name, |name| + 2)
  {
    var open, n := "{" + name, |name| + 1;
    var s := open + "}" + rest;
    assert forall c :: c in open ==> c == '{' || c in name;
    IndexByteAt(open, '}', rest);
    assert IndexByte(s, '}') == n && s[1..n] == name;
  }

  lemma LexColon(name: string, rest: string)
    requires ValidName(name) && '_' !in name && (rest == "" || !RunByte(rest[0]))
    ensures Lex(":" + name + rest) == Take(name, |name| + 1)
  {
    var s, n := ":" + name + rest, |name|;
    assert s[1..] == name + rest;
    NameRunExact(name, rest);
    assert s[1..n + 1] == name;
  }

  lemma TokensHole(hole: SegPart, style: Style, rest: string, lit: string)
    requires hole.Hole? && ValidName(hole.name)
    requires style == Colon ==> '_' !in hole.name && (rest == "" || !RunByte(rest[0]))
    ensures Tokens(SpellPart(hole, style) + rest, lit) == Flush(lit) + [hole] + Tokens(rest, "")
  {
    var text := SpellPart(hole, style);
    if style == Braces { LexBraces(hole.name, rest); } else { LexColon(hole.name, rest); }
    assert Lex(text + rest) == Take(hole.name, |text|);
    assert (text + rest)[|text|..] == rest;
  }

  lemma SpelledChunk(parts: seq<SegPart>, styles: seq<Style>)
    requires Spellable(parts, styles) && parts != [] && parts[0].Chunk?
    requires Tokens(Spell(parts[1..], styles[1..]), parts[0].text) == Flush(parts[0].text) + parts[1..]
    ensures Tokens(Spell(parts, styles), "") == parts
  {
    assert SpellablePart(parts, styles, 0);
    TokensText(parts[0].text, Spell(parts[1..], styles[1..]), "");
    assert "" + parts[0].text == parts[0].text;
    assert Flush(parts[0].text) + parts[1..] == parts;
  }

  lemma SpelledHole(hole: SegPart, style: Style, tail: seq<SegPart>, rest: string, lit: string)
    requires hole.Hole? && ValidName(hole.name) && Tokens(rest, "") == tail
    requires style == Colon ==> '_' !in hole.name && (rest == "" || !RunByte(rest[0]))
    ensures Tokens(SpellPart(hole, style) + rest, lit) == Flush(lit) + ([hole] + tail)
  {
    hide Tokens, Flush, SpellPart, ValidName;
    TokensHole(hole, style, rest, lit);
    assert Flush(lit) + [hole] + tail == Flush(lit) + ([hole] + tail);
  }

  lemma SpellHead(parts: seq<SegPart>, styles: seq<Style>)
    requires |parts| == |styles|
    ensures parts == [] ==> Spell(parts, styles) == ""
    ensures parts != [] ==> Spell(parts, styles) == SpellPart(parts[0], styles[0]) + Spell(parts[1..], styles[1..])
  {
  }

  /** Compiling a spelled part list gives that part list back. */
  lemma {:induction false} TokensOfSpell(parts: seq<SegPart>, styles: seq<Style>, lit: string)
    requires Spellable(parts, styles)
    requires lit == "" || parts == [] || parts[0].Hole?
    ensures Tokens(Spell(parts, styles), lit) == Flush(lit) + parts
  {
    hide Tokens, Spell, SpellPart, Lex;
    SpellHead(parts, styles);
    if parts == [] {
      LastTokens("", lit);
    } else {
      SpellableTail(parts, styles);
      assert SpellablePart(parts, styles, 0);
      if parts[0].Chunk? {
        assert |parts| > 1 ==> parts[1..][0] == parts[1];
        TokensOfSpell(parts[1..], styles[1..], parts[0].text);
        SpelledChunk(parts, styles);
      } else {
        TokensOfSpell(parts[1..], styles[1..], "");
        NothingFlushed(parts[1..]);
        NextByteStops(parts, styles);
        SpelledHole(parts[0], styles[0], parts[1..], Spell(parts[1..], styles[1..]), lit);
        assert [parts[0]] + parts[1..] == parts;
      }
    }
  }

  lemma NextByteStops(parts: seq<SegPart>, styles: seq<Style>)
    requires Spellable(parts, styles) && parts != [] && parts[0].Hole?
    ensures var rest := Spell(parts[1..], styles[1..]);
            styles[0] == Colon ==> rest == "" || !ValidByte(rest[0])
  {
    assert SpellablePart(parts, styles, 0);
    if |parts| > 1 {
      assert SpellablePart(parts, styles, 1);
      assert parts[1..][0] == parts[1] && styles[1..][0] == styles[1];
    }
  }

  // ---------------------------------------------------------------- which spellings are read back

  /** No parameter is read at any byte of the text, with the rest behind it. */
  predicate KeptAsText(text: string, rest: string) {
    forall k :: 0 <= k < |text| ==> Lex((text + rest)[k..]) == Keep
  }

  /** Each chunk is kept as text and stands apart from the next, each parameter is read as itself. */
  predicate Readable(parts: seq<SegPart>, styles: seq<Style>)
    requires |parts| == |styles|
  {
    parts == [] ||
    var rest := Spell(parts[1..], styles[1..]);
    Readable(parts[1..], styles[1..]) &&
    match parts[0]
    case Chunk(text) => text != "" && (|parts| > 1 ==> parts[1].Hole?) && KeptAsText(text, rest)
    case Hole(name) => Lex(SpellPart(parts[0], styles[0]) + rest) == Take(name, |SpellPart(parts[0], styles[0])|)
  }

  /** The compiler keeps text up to the first byte where it reads a parameter. */
  predicate RunEnds(s: string, lit: string, p: nat) {
    p <= |s| && (forall k :: 0 <= k < p ==> Lex(s[k..]) == Keep) && (p < |s| ==> Lex(s[p..]).Take?) &&
    Tokens(s, lit) == Flush(lit + s[..p]) + Tokens(s[p..], "")
  }

  lemma RunEndsHere(s: string, lit: string)
    requires s == "" || Lex(s).Take?
    ensures RunEnds(s, lit, 0)
  {
    assert s[0..] == s && lit + s[..0] == lit;
    if s != "" {
      var tail := Tokens(s[Lex(s).length..], "");
      assert Flush("") + [Hole(Lex(s).name)] + tail == [Hole(Lex(s).name)] + tail;
      assert Flush(lit) + [Hole(Lex(s).name)] + tail == Flush(lit) + ([Hole(Lex(s).name)] + tail);
    }
  }

  lemma TokensKeep(s: string, lit: string)
    requires s != "" && Lex(s) == Keep
    ensures Tokens(s, lit) == Tokens(s[1..], lit + [s[0]])
  {
  }

  lemma RunGoesOn(s: string, lit: string, q: nat, p: nat)
    requires s != "" && Lex(s) == Keep && RunEnds(s[1..], lit + [s[0]], q) && p == q + 1
    ensures RunEnds(s, lit, p)
  {
    hide Lex, Tokens;
    TokensKeep(s, lit);
    assert s[1..][q..] == s[p..] && lit + [s[0]] + s[1..][..q] == lit + s[..p];
    forall k | 0 <= k < p ensures Lex(s[k..]) == Keep {
      if k > 0 {
        var m := k - 1;
        assert s[1..][m..] == s[k..];
      } else { assert s[0..] == s; }
    }
  }

  lemma {:induction false} KeepRun(s: string, lit: string) returns (p: nat)
    ensures RunEnds(s, lit, p)
    ensures if p == |s| then Tokens(s[p..], "") == [] else Tokens(s[p..], "") != [] && Tokens(s[p..], "")[0].Hole?
    decreases |s|
  {
    p := 0;
    if s == "" || Lex(s).Take? {
      RunEndsHere(s, lit);
    } else {
      var q := KeepRun(s[1..], lit + [s[0]]);
      p := q + 1;
      RunGoesOn(s, lit, q, p);
    }
    TokensAt(s[p..]);
  }

  lemma TokensAt(s: string)
    ensures s == "" ==> Tokens(s, "") == []
    ensures s != "" && Lex(s).Take? ==> Tokens(s, "") != [] && Tokens(s, "")[0].Hole?
  {
  }

  /** A run of kept bytes is as long as the lexer says. */
  lemma KeptThenTokens(text: string, rest: string)
    requires text != "" && KeptAsText(text, rest) && (rest != "" ==> Lex(rest).Take?)
    ensures Tokens(text + rest, "") == [Chunk(text)] + Tokens(rest, "")
  {
    var s := text + rest;
    var p := KeepRun(s, "");
    assert s[|text|..] == rest;
    assert p == |text| && s[..p] == text && "" + text == text;
  }

  lemma HoleThenTokens(hole: SegPart, style: Style, rest: string)
    requires hole.Hole? && Lex(SpellPart(hole, style) + rest) == Take(hole.name, |SpellPart(hole, style)|)
    ensures Tokens(SpellPart(hole, style) + rest, "") == [hole] + Tokens(rest, "")
  {
    var text := SpellPart(hole, style);
    assert (text + rest)[|text|..] == rest;
    assert Flush("") + [hole] == [hole];
  }

  lemma {:induction false} ReadableIsRead(parts: seq<SegPart>, styles: seq<Style>)
    requires |parts| == |styles| && Readable(parts, styles)
    ensures Tokens(Spell(parts, styles), "") == parts
    ensures parts != [] && parts[0].Hole? ==> Spell(parts, styles) != "" && Lex(Spell(parts, styles)).Take?
  {
    if parts != [] {
      var rest := Spell(parts[1..], styles[1..]);
      ReadableIsRead(parts[1..], styles[1..]);
      assert parts == [parts[0]] + parts[1..];
      if parts[0].Chunk? {
        assert |parts| == 1 ==> rest == "";
        assert |parts| > 1 ==> parts[1..][0] == parts[1];
        KeptThenTokens(parts[0].text, rest);
      } else {
        HoleThenTokens(parts[0], styles[0], rest);
      }
    }
  }

  /** The first part tells where the first kept run ends. */
  lemma ReadChunk(text: string, rest: string, tail: seq<SegPart>)
    requires Tokens(text + rest, "") == [Chunk(text)] + tail
    ensures text != "" && KeptAsText(text, rest) && Tokens(rest, "") == tail
  {
    var s := text + rest;
    TokensCanonical(s, "");
    var all := [Chunk(text)] + tail;
    assert CanonicalPart(all, 0);
    var p := KeepRun(s, "");
    assert "" + s[..p] == s[..p];
    NothingFlushed(Tokens(s[p..], ""));
    if p > 0 {
      assert all[0] == Chunk(s[..p]) && all[1..] == Tokens(s[p..], "") && all[1..] == tail;
      assert p == |text| && s[p..] == rest;
    }
  }

  lemma FlushedFirst(lit: string, parts: seq<SegPart>)
    ensures lit != "" ==> (Flush(lit) + parts)[0] == Chunk(lit)
  {
  }

  lemma NothingFlushed(parts: seq<SegPart>)
    ensures Flush("") + parts == parts
  {
  }

  lemma ReadHole(hole: SegPart, style: Style, rest: string, tail: seq<SegPart>)
    requires hole.Hole? && Tokens(SpellPart(hole, style) + rest, "") == [hole] + tail
    ensures Lex(SpellPart(hole, style) + rest) == Take(hole.name, |SpellPart(hole, style)|) && Tokens(rest, "") == tail
  {
    var text := SpellPart(hole, style);
    var s, all := text + rest, [hole] + tail;
    var p := KeepRun(s, "");
    FlushedFirst("" + s[..p], Tokens(s[p..], ""));
    assert s[0..] == s && Lex(s).Take?;
    var x := Lex(s);
    assert s[0] == text[0];
    assert Tokens(s, "") == Flush("") + [Hole(x.name)] + Tokens(s[x.length..], "");
    assert all[0] == Hole(x.name);
    assert s[..x.length][0] == s[0];
    assert x.length == |text| && s[|text|..] == rest;
    assert all[1..] == tail && all[1..] == Tokens(rest, "");
  }

  lemma {:induction false} ReadIsReadable(parts: seq<SegPart>, styles: seq<Style>)
    requires |parts| == |styles| && Tokens(Spell(parts, styles), "") == parts
    ensures Readable(parts, styles)
  {
    if parts != [] {
      var rest := Spell(parts[1..], styles[1..]);
      assert parts == [parts[0]] + parts[1..];
      if parts[0].Chunk? {
        TokensCanonical(Spell(parts, styles), "");
        assert CanonicalPart(parts, 0);
        ReadChunk(parts[0].text, rest, parts[1..]);
      } else {
        ReadHole(parts[0], styles[0], rest, parts[1..]);
      }
      ReadIsReadable(parts[1..], styles[1..]);
    }
  }

  /** Printing a part list and compiling it gives the list back exactly for readable spellings. */
  lemma ReadBackIffReadable(parts: seq<SegPart>, styles: seq<Style>)
    requires |parts| == |styles|
    ensures Tokens(Spell(parts, styles), "") == parts <==> Readable(parts, styles)
  {
    if Readable(parts, styles) { ReadableIsRead(parts, styles); }
    if Tokens(Spell(parts, styles), "") == parts { ReadIsReadable(parts, styles); }
  }

  // ---------------------------------------------------------------- whole patterns

  function CompileSegment(segment: string): RouteSegment {
    match ParamSegmentName(segment)
    case Some(name) => Param(name)
    case None => if HasHole(Tokens(segment, "")) then Mixed(Tokens(segment, "")) else Literal(segment)
  }

  function CompileAll(pieces: seq<string>): (segs: seq<RouteSegment>)
    ensures |segs| == |pieces| && forall i :: 0 <= i < |segs| ==> segs[i] == CompileSegment(pieces[i])
  {
    seq(|pieces|, i requires 0 <= i < |pieces| => CompileSegment(pieces[i]))
  }

  function TrimSlash(pattern: string): string {
    if "/" <= pattern then pattern[1..] else pattern
  }

  /** The compiled form of a pattern; no segments when nothing follows the leading '/'. */
  function Compile(pattern: string): seq<RouteSegment> {
    if TrimSlash(pattern) == "" then [] else CompileAll(Split(TrimSlash(pattern), '/'))
  }

  predicate HasParams(segs: seq<RouteSegment>) {
    exists s :: s in segs && !s.Literal?
  }

  lemma HasParamsSnoc(segs: seq<RouteSegment>, s: RouteSegment)
    ensures HasParams(segs + [s]) <==> HasParams(segs) || !s.Literal?
  {
    assert forall x :: x in segs + [s] <==> x in segs || x == s;
  }

  /** compilePattern. */
  method CompilePattern(pattern: string) returns (segments: seq<RouteSegment>, hasParams: bool)
    ensures segments == Compile(pattern) && hasParams == HasParams(segments)
  {
    var trimmed := TrimSlash(pattern);
    if trimmed == "" {
      return [], false;
    }
    var parts := Split(trimmed, '/');
    segments, hasParams := [], false;
    for i := 0 to |parts|
      invariant segments == CompileAll(parts[..i])
      invariant hasParams == HasParams(segments)
    {
      var part := parts[i];
      var s;
      var name := ParamSegmentName(part);
      if name.Some? {
        s := Param(name.value);
        hasParams := true;
      } else {
        var segParts := CompileSegParts(part);
        if segParts.Some? {
          s := Mixed(segParts.value);
          hasParams := true;
        } else {
          s := Literal(part);
        }
      }
      assert s == CompileSegment(part);
      HasParamsSnoc(segments, s);
      segments := segments + [s];
      assert parts[..i + 1] == parts[..i] + [part];
    }
    assert parts[..|parts|] == parts;
  }

  /** What the compiler promises about each segment: valid names; mixed segments are
      canonical, hold a parameter and at least two parts; literal text has no '/'. */
  predicate WellFormedSegment(s: RouteSegment) {
    match s
    case Literal(text) => '/' !in text
    case Param(name) => ValidName(name)
    case Mixed(parts) =>
      |parts| >= 2 && HasHole(parts) && Canonical(parts) && forall p :: p in parts && p.Chunk? ==> '/' !in p.text
  }

  predicate WellFormed(segs: seq<RouteSegment>) {
    forall s :: s in segs ==> WellFormedSegment(s)
  }

  lemma {:induction false} SpellHolds(parts: seq<SegPart>, styles: seq<Style>, p: SegPart)
    requires |parts| == |styles| && p in parts && p.Chunk?
    ensures forall c :: c in p.text ==> c in Spell(parts, styles)
  {
    if parts[0] != p {
      SpellHolds(parts[1..], styles[1..], p);
    }
  }

  lemma LoneHoleIff(hole: SegPart, style: Style)
    requires hole.Hole?
    ensures var s := SpellPart(hole, style);
            ParamSegmentName(s) == (if ValidName(hole.name) then Some(hole.name) else None)
  {
    var s := SpellPart(hole, style);
    assert style == Braces ==> s[1..|s| - 1] == hole.name;
    assert style == Colon ==> s[1..] == hole.name;
  }

  lemma CompiledSegmentWellFormed(segment: string)
    requires '/' !in segment
    ensures WellFormedSegment(CompileSegment(segment))
  {
    var parts := Tokens(segment, "");
    if ParamSegmentName(segment) == None && HasHole(parts) {
      TokensCanonical(segment, "");
      var styles := TokensSpell(segment, "");
      assert "" + segment == segment;
      forall p | p in parts && p.Chunk? ensures '/' !in p.text { SpellHolds(parts, styles, p); }
      if |parts| == 1 {
        // a lone parameter would have been read as a whole-segment parameter
        assert CanonicalPart(parts, 0);
        assert Spell(parts[1..], styles[1..]) == "";
        assert segment == SpellPart(parts[0], styles[0]) + "" == SpellPart(parts[0], styles[0]);
        LoneHoleIff(parts[0], styles[0]);
        assert false;
      }
    }
  }

  lemma CompiledWellFormed(pattern: string)
    ensures WellFormed(Compile(pattern))
  {
    var segs := Compile(pattern);
    forall s | s in segs ensures WellFormedSegment(s) {
      var i :| 0 <= i < |segs| && segs[i] == s;
      CompiledSegmentWellFormed(Split(TrimSlash(pattern), '/')[i]);
    }
  }

  /** A segment together with the styles its parameters are written in. */
  datatype Spelled = Spelled(seg: RouteSegment, styles: seq<Style>)

  /** One style for each part that is written. */
  predicate Styled(w: Spelled) {
    match w.seg
    case Literal(_) => true
    case Param(_) => |w.styles| == 1
    case Mixed(parts) => |w.styles| == |parts|
  }

  /** The spelling is read back as this segment. */
  predicate ReadableSegment(w: Spelled)
    requires Styled(w)
  {
    match w.seg
    case Literal(text) => ParamSegmentName(text).None? && KeptAsText(text, "")
    case Param(name) => ValidName(name)
    case Mixed(parts) => HasHole(parts) && Readable(parts, w.styles) && ParamSegmentName(Spell(parts, w.styles)).None?
  }

  /** What a writer can see at once: literals without '{', ':' and '/', and a ":name" in front of
      a byte that no name holds. */
  predicate SpellableSegment(w: Spelled) {
    match w.seg
    case Literal(text) => '{' !in text && ':' !in text && '/' !in text
    case Param(name) => ValidName(name) && |w.styles| == 1
    case Mixed(parts) =>
      |parts| >= 2 && HasHole(parts) && Spellable(parts, w.styles) && forall p :: p in parts && p.Chunk? ==> '/' !in p.text
  }

  function SpellSegment(w: Spelled): string
    requires Styled(w)
  {
    match w.seg
    case Literal(text) => text
    case Param(name) => SpellPart(Hole(name), w.styles[0])
    case Mixed(parts) => Spell(parts, w.styles)
  }

  lemma {:induction false} SpellSlashFree(parts: seq<SegPart>, styles: seq<Style>)
    requires Spellable(parts, styles) && forall p :: p in parts && p.Chunk? ==> '/' !in p.text
    ensures '/' !in Spell(parts, styles)
  {
    if parts != [] {
      assert SpellablePart(parts, styles, 0);
      assert parts[0] in parts;
      SpellableTail(parts, styles);
      SpellSlashFree(parts[1..], styles[1..]);
    }
  }

  lemma ChunkFirstIsNoParam(text: string, rest: string)
    requires text != "" && '{' !in text && ':' !in text
    ensures ParamSegmentName(text + rest) == None
  {
    assert (text + rest)[0] == text[0] && text[0] in text;
  }

  lemma BracesFirstIsNoParam(name: string, rest: string)
    requires rest != ""
    ensures ParamSegmentName("{" + name + "}" + rest) == None
  {
    var text := "{" + name + "}" + rest;
    var inner := text[1..|text| - 1];
    assert inner[|name|] == '}' && inner[|name|] in inner;
  }

  lemma ColonFirstIsNoParam(name: string, rest: string)
    requires rest != "" && !ValidByte(rest[0])
    ensures ParamSegmentName(":" + name + rest) == None
  {
    var inner := (":" + name + rest)[1..];
    assert inner[|name|] == rest[0] && inner[|name|] in inner;
  }

  /** No mixed segment spells a whole-segment parameter. */
  lemma MixedIsNoParam(parts: seq<SegPart>, styles: seq<Style>)
    requires |parts| >= 2 && Spellable(parts, styles)
    ensures ParamSegmentName(Spell(parts, styles)) == None
  {
    var rest := Spell(parts[1..], styles[1..]);
    assert SpellablePart(parts, styles, 0) && SpellablePart(parts, styles, 1);
    assert rest == SpellPart(parts[1], styles[1]) + Spell(parts[1..][1..], styles[1..][1..]);
    if parts[0].Hole? { NextByteStops(parts, styles); }
    match parts[0] {
      case Chunk(text) => ChunkFirstIsNoParam(text, rest);
      case Hole(name) =>
        if styles[0] == Braces {
          BracesFirstIsNoParam(name, rest);
        } else {
          ColonFirstIsNoParam(name, rest);
        }
    }
  }

  lemma NoHoleIffKept(text: string)
    ensures HasHole(Tokens(text, "")) <==> !KeptAsText(text, "")
  {
    var p := KeepRun(text, "");
    var tail := Tokens(text[p..], "");
    assert text + "" == text && "" + text[..p] == text[..p];
    if p < |text| {
      assert tail[0] in Flush(text[..p]) + tail;
    } else {
      assert Flush(text[..p]) + tail == Flush(text[..p]);
    }
  }

  /** Printing a segment and compiling it gives the segment back exactly for readable spellings. */
  lemma CompileSegmentIff(w: Spelled)
    requires Styled(w)
    ensures CompileSegment(SpellSegment(w)) == w.seg <==> ReadableSegment(w)
  {
    match w.seg
    case Literal(text) => NoHoleIffKept(text);
    case Param(name) => LoneHoleIff(Hole(name), w.styles[0]);
    case Mixed(parts) => ReadBackIffReadable(parts, w.styles);
  }

  lemma SpellableIsReadable(w: Spelled)
    requires SpellableSegment(w)
    ensures Styled(w) && ReadableSegment(w) && '/' !in SpellSegment(w)
  {
    match w.seg
    case Literal(text) =>
      TokensText(text, "", "");
      assert text + "" == text && "" + text == text;
      CompileSegmentIff(w);
    case Param(name) =>
    case Mixed(parts) =>
      MixedIsNoParam(parts, w.styles);
      TokensOfSpell(parts, w.styles, "");
      assert Flush("") + parts == parts;
      ReadBackIffReadable(parts, w.styles);
      SpellSlashFree(parts, w.styles);
  }

  function SpellPattern(ws: seq<Spelled>): string
    requires forall w :: w in ws ==> Styled(w)
  {
    "/" + Join(seq(|ws|, i requires 0 <= i < |ws| => SpellSegment(ws[i])), '/')
  }

  function Segments(ws: seq<Spelled>): seq<RouteSegment> {
    seq(|ws|, i requires 0 <= i < |ws| => ws[i].seg)
  }

  /** Printing a pattern of slash-free segments and compiling it gives the segments back exactly
      when each of them is readable. The one exception is the bare "/", which has no segments. */
  lemma CompileOfSpell(ws: seq<Spelled>)
    requires ws != [] && forall w :: w in ws ==> Styled(w) && '/' !in SpellSegment(w)
    requires SpellPattern(ws) != "/"
    ensures Compile(SpellPattern(ws)) == Segments(ws) <==> forall w :: w in ws ==> ReadableSegment(w)
  {
    var pieces := seq(|ws|, i requires 0 <= i < |ws| => SpellSegment(ws[i]));
    forall p | p in pieces ensures '/' !in p {
      var i :| 0 <= i < |pieces| && pieces[i] == p;
      assert ws[i] in ws;
    }
    SplitJoin(pieces, '/');
    var segs := Compile(SpellPattern(ws));
    assert SpellPattern(ws)[1..] == Join(pieces, '/');
    assert segs == CompileAll(pieces);
    hide *;
    EachReadable(ws, segs);
  }

  lemma EachReadable(ws: seq<Spelled>, segs: seq<RouteSegment>)
    requires (forall w :: w in ws ==> Styled(w)) && |segs| == |ws|
    requires forall i :: 0 <= i < |ws| ==> segs[i] == CompileSegment(SpellSegment(ws[i]))
    ensures segs == Segments(ws) <==> forall w :: w in ws ==> ReadableSegment(w)
  {
    hide CompileSegment, SpellSegment, ReadableSegment, Styled;
    forall i | 0 <= i < |ws| ensures segs[i] == ws[i].seg <==> ReadableSegment(ws[i]) {
      assert ws[i] in ws;
      CompileSegmentIff(ws[i]);
    }
    if segs == Segments(ws) {
      forall w | w in ws ensures ReadableSegment(w) {
        var i :| 0 <= i < |ws| && ws[i] == w;
        assert segs[i] == Segments(ws)[i];
      }
    }
    if forall w :: w in ws ==> ReadableSegment(w) {
      forall i | 0 <= i < |ws| ensures segs[i] == Segments(ws)[i] { assert ws[i] in ws; }
    }
  }

  // ------------------------------------------------------------ compiled patterns match what they print

  lemma {:induction false} HoleNames(parts: seq<SegPart>)
    ensures RouteSubstitution.PartNames(parts) != [] <==> HasHole(parts)
  {
    if parts != [] {
      HoleNames(parts[1..]);
      assert HasHole(parts) ==> parts[0].Hole? || HasHole(parts[1..]);
      assert HasHole(parts[1..]) ==> HasHole(parts) by {
        assert forall p :: p in parts[1..] ==> p in parts;
      }
      assert parts[0] in parts;
    }
  }

  lemma {:induction false} ParamNames(segs: seq<RouteSegment>)
    requires WellFormed(segs)
    ensures RouteSubstitution.Names(segs) != [] <==> HasParams(segs)
  {
    if segs != [] {
      assert segs[0] in segs && WellFormedSegment(segs[0]);
      if segs[0].Mixed? { HoleNames(segs[0].parts); }
      ParamNames(segs[1..]);
      assert HasParams(segs) ==> !segs[0].Literal? || HasParams(segs[1..]);
      assert HasParams(segs[1..]) ==> HasParams(segs) by {
        assert forall s :: s in segs[1..] ==> s in segs;
      }
    }
  }

  /** For every pattern that compiles with parameters: a filled-in path matches and gives
      the values back exactly when they are clean. */
  lemma CompiledFillThenMatch(pattern: string, env: RouteSubstitution.Env)
    requires HasParams(Compile(pattern))
    ensures var segs := Compile(pattern);
            var path := RouteSubstitution.FillPath(segs, env);
            RouteSubstitution.Clean(segs, env) <==>
            MatchesPath(segs, path) && PathBindings(segs, path) == RouteSubstitution.BindAll(RouteSubstitution.Names(segs), env)
  {
    var segs := Compile(pattern);
    CompiledWellFormed(pattern);
    ParamNames(segs);
    forall s | s in segs ensures RouteSubstitution.SlashFreeSegment(s) { assert WellFormedSegment(s); }
    RouteSubstitution.FillThenMatch(segs, env);
  }

  /** For every pattern text: the values read out of a matching path rebuild it, for all matching
      paths, exactly when no name repeats or two parameters stand side by side. */
  lemma CompiledRebuiltIffNamesDistinct(pattern: string)
    ensures var segs := Compile(pattern);
            (forall path :: "/" <= path && MatchesPath(segs, path) ==> RouteSubstitution.Rebuilds(segs, path)) <==>
            RouteSubstitution.DistinctNames(segs) || RouteSubstitution.Adjacent(segs)
  {
    var segs := Compile(pattern);
    CompiledWellFormed(pattern);
    forall s | s in segs
      ensures RouteSubstitution.SlashFreeSegment(s) && (s.Mixed? ==> RouteSubstitution.PartsHold(s.parts))
    {
      assert WellFormedSegment(s);
      if s.Mixed? {
        forall p | p in s.parts && p.Chunk? ensures p.text != "" {
          var i :| 0 <= i < |s.parts| && s.parts[i] == p;
          assert CanonicalPart(s.parts, i);
        }
      }
    }
    RouteSubstitution.RebuiltIffNamesDistinct(segs);
  }
}
