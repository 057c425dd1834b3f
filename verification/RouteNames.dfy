/** Which names the pattern compiler takes for parameters (pkg/runtime/router.go), said with the
    bytes themselves. */
module RouteNames {
  import opened GoStrings
  import opened RouteMatching
  import opened RoutePatterns

  const LOWER := "abcdefghijklmnopqrstuvwxyz"
  const UPPER := "ABCDEFGHIJKLMNOPQRSTUVWXYZ"
  const DIGITS := "0123456789"
  const LETTERS_AND_DIGITS := LOWER + UPPER + DIGITS
  const NAME_BYTES := LETTERS_AND_DIGITS + "_"

  predicate MadeOf(name: string, bytes: string) {
    name != "" && forall c :: c in name ==> c in bytes
  }

  /** The text begins with a parameter: "{name}", or ":name" up to the first byte that is neither a
      letter nor a digit. */
  predicate BeginsWith(s: string, name: string, style: Style) {
    match style
    case Braces => MadeOf(name, NAME_BYTES) && "{" + name + "}" <= s
    case Colon =>
      MadeOf(name, LETTERS_AND_DIGITS) && ":" + name <= s &&
      (|s| > |name| + 1 ==> s[|name| + 1] !in LETTERS_AND_DIGITS)
  }

  lemma Ranges(c: char)
    ensures (c in LOWER <==> 'a' <= c <= 'z') && (c in UPPER <==> 'A' <= c <= 'Z') && (c in DIGITS <==> '0' <= c <= '9')
  {
  }

  lemma NameBytes(c: char)
    ensures (ValidByte(c) <==> c in NAME_BYTES) && (RunByte(c) <==> c in LETTERS_AND_DIGITS)
  {
    Ranges(c);
    InParts(c, LOWER, UPPER, DIGITS, "_");
  }

  lemma InParts(c: char, a: string, b: string, d: string, e: string)
    ensures c in a + b + d + e <==> c in a + b + d || c in e
    ensures c in a + b + d <==> c in a || c in b || c in d
  {
  }

  lemma NamesAreMadeOf(name: string)
    ensures ValidName(name) <==> MadeOf(name, NAME_BYTES)
    ensures ValidName(name) && '_' !in name <==> MadeOf(name, LETTERS_AND_DIGITS)
  {
    forall c: char ensures (ValidByte(c) <==> c in NAME_BYTES) && (RunByte(c) <==> c in LETTERS_AND_DIGITS) { NameBytes(c); }
    hide ValidByte;
  }

  /** A whole segment "{name}" or ":name" is a parameter iff the name is not empty and made of letters,
      digits and '_'. */
  lemma ParameterIff(name: string)
    ensures CompileSegment("{" + name + "}") == Param(name) <==> MadeOf(name, NAME_BYTES)
    ensures CompileSegment(":" + name) == Param(name) <==> MadeOf(name, NAME_BYTES)
  {
    hide Tokens, MadeOf;
    NamesAreMadeOf(name);
    LoneHoleIff(Hole(name), Braces);
    LoneHoleIff(Hole(name), Colon);
  }

  /** Nothing else is: a segment is a parameter only in one of these two spellings. */
  lemma ParameterSpelling(segment: string)
    requires CompileSegment(segment).Param?
    ensures var name := CompileSegment(segment).name; segment == "{" + name + "}" || segment == ":" + name
  {
    hide Tokens;
  }

  /** Inside a segment the compiler reads a parameter at the front of the rest exactly where one begins. */
  lemma LexReads(s: string, name: string, style: Style)
    requires s != ""
    ensures Lex(s) == Take(name, |SpellPart(Hole(name), style)|) <==> BeginsWith(s, name, style)
  {
    NamesAreMadeOf(name);
    var text := SpellPart(Hole(name), style);
    if BeginsWith(s, name, style) {
      var rest := s[|text|..];
      assert s == text + rest;
      if style == Braces {
        LexBraces(name, rest);
      } else {
        NextByte(rest);
        LexColon(name, rest);
      }
    }
    if Lex(s) == Take(name, |text|) { LexGives(s, name, style); }
  }

  lemma NextByte(rest: string)
    ensures rest != "" ==> (RunByte(rest[0]) <==> rest[0] in LETTERS_AND_DIGITS)
  {
    if rest != "" { NameBytes(rest[0]); }
  }

  lemma LexGives(s: string, name: string, style: Style)
    requires s != "" && Lex(s) == Take(name, |SpellPart(Hole(name), style)|)
    ensures BeginsWith(s, name, style)
  {
    var text := SpellPart(Hole(name), style);
    assert s[..|text|] == text;
    if style == Braces {
      NamesAreMadeOf(name);
    } else {
      TakenRun(s, name, |name|);
    }
  }

  lemma TakenRun(s: string, name: string, n: nat)
    requires s != "" && s[0] == ':' && n == |name| && Lex(s) == Take(name, n + 1)
    ensures MadeOf(name, LETTERS_AND_DIGITS) && (|s| > n + 1 ==> s[n + 1] !in LETTERS_AND_DIGITS)
  {
    assert NameRun(s[1..]) == n && s[1..n + 1] == name;
    assert forall k :: 0 <= k < n ==> RunByte(s[1..][k]) && s[1..][k] == name[k];
    hide Lex, NameRun;
    NextByte(s[n + 1..]);
    forall c | c in name ensures c in LETTERS_AND_DIGITS {
      NameBytes(c);
    }
  }

  /** Where a parameter begins it is read, and where none begins one byte is kept as text: this is all
      the compiler does inside a segment. */
  lemma MixedReads(s: string, lit: string, name: string, style: Style)
    requires BeginsWith(s, name, style)
    ensures Tokens(s, lit) == Flush(lit) + [Hole(name)] + Tokens(s[|SpellPart(Hole(name), style)|..], "")
  {
    LexReads(s, name, style);
    TokensTake(s, lit, name, |SpellPart(Hole(name), style)|);
  }

  lemma MixedKeeps(s: string, lit: string)
    requires s != "" && forall name, style :: !BeginsWith(s, name, style)
    ensures Tokens(s, lit) == Tokens(s[1..], lit + [s[0]])
  {
    NoneBegins(s);
    TokensKeep(s, lit);
  }

  lemma NoneBegins(s: string)
    requires s != ""
    ensures Lex(s) == Keep <==> forall name, style :: !BeginsWith(s, name, style)
  {
    hide BeginsWith;
    match Lex(s)
    case Keep =>
      forall name, style ensures !BeginsWith(s, name, style) { LexReads(s, name, style); }
    case Take(name, length) =>
      var style := if s[..length] == "{" + name + "}" then Braces else Colon;
      assert length == |SpellPart(Hole(name), style)|;
      LexReads(s, name, style);
  }

  ghost predicate NoneIn(segment: string) {
    forall k, name, style :: 0 <= k < |segment| ==> !BeginsWith(segment[k..], name, style)
  }

  lemma KeptThroughout(segment: string, p: nat)
    requires p <= |segment| && (forall k :: 0 <= k < p ==> Lex(segment[k..]) == Keep)
    requires p < |segment| ==> Lex(segment[p..]).Take?
    ensures NoneIn(segment) <==> p == |segment|
  {
    hide BeginsWith, Lex;
    if p == |segment| {
      forall k, name, style | 0 <= k < |segment| ensures !BeginsWith(segment[k..], name, style) { NoneBegins(segment[k..]); }
    } else {
      NoneBegins(segment[p..]);
    }
  }

  /** A pattern has one segment for each piece between its slashes, the leading one left out; "/" has none. */
  lemma SegmentsArePieces(rest: string, i: nat)
    ensures if rest == "" then Compile("/" + rest) == [] else |Compile("/" + rest)| == |Split(rest, '/')|
    ensures rest != "" && i < |Split(rest, '/')| ==> Compile("/" + rest)[i] == CompileSegment(Split(rest, '/')[i])
  {
    hide Split, CompileSegment;
    assert ("/" + rest)[1..] == rest;
  }

  /** A segment is literal iff no parameter begins anywhere in it, and it is not ':' with a name behind
      it: only as a whole may such a name begin with '_' or hold one. */
  lemma LiteralIff(segment: string)
    ensures CompileSegment(segment) == Literal(segment) <==> !(":" <= segment && MadeOf(segment[1..], NAME_BYTES)) && NoneIn(segment)
  {
    var p := KeepRun(segment, "");
    assert "" + segment[..p] == segment[..p];
    KeptThroughout(segment, p);
    WholeName(segment);
    assert segment[0..] == segment;
    hide BeginsWith, Tokens, MadeOf, NoneIn;
    FirstHole(segment, p);
  }

  lemma FirstHole(segment: string, p: nat)
    requires p <= |segment| && Tokens(segment, "") == Flush(segment[..p]) + Tokens(segment[p..], "")
    requires if p == |segment| then Tokens(segment[p..], "") == [] else Tokens(segment[p..], "") != [] && Tokens(segment[p..], "")[0].Hole?
    ensures CompileSegment(segment) == Literal(segment) <==> p == |segment| && !CompileSegment(segment).Param?
  {
    if p < |segment| {
      assert Tokens(segment[p..], "")[0] in Tokens(segment, "");
    }
  }

  lemma WholeName(segment: string)
    ensures CompileSegment(segment).Param? <==>
            (":" <= segment && MadeOf(segment[1..], NAME_BYTES)) ||
            ("{" <= segment && Lex(segment).Take? && Lex(segment).length == |segment|)
  {
    hide Tokens, MadeOf;
    if CompileSegment(segment).Param? {
      var name := CompileSegment(segment).name;
      ParameterSpelling(segment);
      ParameterIff(name);
      if segment[0] == '{' {
        NamesAreMadeOf(name);
        LexBraces(name, "");
        assert "{" + name + "}" + "" == segment;
      } else {
        assert segment[1..] == name;
      }
    } else if ":" <= segment {
      ParameterIff(segment[1..]);
      assert segment == ":" + segment[1..];
    }
  }
}
