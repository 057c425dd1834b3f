/** What any sequence of registrations leaves behind (pkg/runtime/router.go), said with the
    registrations themselves. */
module RouterRuns {
  import opened GoStrings
  import opened RouteMatching
  import opened RoutePatterns
  import opened RouteNames
  import opened Router

  /** The method key: letters become capitals, every other byte stays. */
  lemma UpperMeans(s: string, i: nat, k: nat)
    requires i < |s| && k < 26
    ensures |ToUpper(s)| == |s|
    ensures s[i] == LOWER[k] ==> ToUpper(s)[i] == UPPER[k]
    ensures s[i] !in LOWER ==> ToUpper(s)[i] == s[i]
  {
    Alphabet(k);
    Ranges(s[i]);
  }

  lemma Alphabet(k: nat)
    requires k < 26
    ensures LOWER[k] as int == 'a' as int + k && UPPER[k] as int == 'A' as int + k
  {
  }

  /** The literal counter is the number of places that are not whole-segment parameters. */
  lemma {:induction false} LiteralsAreCounted(segs: seq<RouteSegment>)
    ensures CountLiterals(segs) == |set i | 0 <= i < |segs| && !segs[i].Param?|
  {
    var places := set i | 0 <= i < |segs| && !segs[i].Param?;
    if segs == [] {
      assert places == {};
    } else {
      var n := |segs| - 1;
      var front := segs[..n];
      LiteralsAreCounted(front);
      CountLiteralsSnoc(front, segs[n]);
      assert front + [segs[n]] == segs;
      var earlier := set i | 0 <= i < |front| && !front[i].Param?;
      assert places == earlier + if segs[n].Param? then {} else {n};
    }
  }

  // ---------------------------------------------------------------- which handler is registered

  predicate IsFor(e: Registration, router: nat, verb: string, p: string) {
    e.router == router && ToUpper(e.verb) == verb && NormalizePath(e.path) == p
  }

  predicate Present(w: World, router: nat, verb: string, p: string) {
    router in w.routers && verb in w.routers[router] && p in w.routers[router][verb]
  }

  predicate LastFor(es: seq<Registration>, k: int, router: nat, verb: string, p: string) {
    0 <= k < |es| && IsFor(es[k], router, verb, p) && forall j :: k < j < |es| ==> !IsFor(es[j], router, verb, p)
  }

  lemma RegisterAt(w: World, e: Registration, router: nat, verb: string, p: string)
    ensures var v := Register(w, e);
            if IsFor(e, router, verb, p) then Present(v, router, verb, p) && v.routers[router][verb][p] == EntryFor(p, e.handler)
            else (Present(v, router, verb, p) <==> Present(w, router, verb, p)) &&
                 (Present(w, router, verb, p) ==> v.routers[router][verb][p] == w.routers[router][verb][p])
  {
    hide ToUpper, NormalizePath, EntryFor, Indexed;
  }

  lemma LastOfMore(front: seq<Registration>, e: Registration, router: nat, verb: string, p: string)
    ensures IsFor(e, router, verb, p) ==> forall k :: LastFor(front + [e], k, router, verb, p) <==> k == |front|
    ensures !IsFor(e, router, verb, p) ==> forall k :: LastFor(front + [e], k, router, verb, p) <==> LastFor(front, k, router, verb, p)
  {
    hide IsFor;
    var es := front + [e];
    assert es[|front|] == e && forall j :: 0 <= j < |front| ==> es[j] == front[j];
  }

  lemma RegisterOneMore(front: seq<Registration>, e: Registration)
    ensures RegisterAll(front + [e]) == Register(RegisterAll(front), e)
  {
    assert (front + [e])[..|front|] == front;
  }

  /** A router has an entry for a method and a pattern iff some registration named them, and it holds the
      handler of the last one that did. */
  lemma {:induction false} LastHandlerWins(es: seq<Registration>, router: nat, verb: string, p: string)
    ensures Present(RegisterAll(es), router, verb, p) <==> exists k :: LastFor(es, k, router, verb, p)
    ensures forall k :: LastFor(es, k, router, verb, p) ==> RegisterAll(es).routers[router][verb][p] == EntryFor(p, es[k].handler)
  {
    if es != [] {
      var n := |es| - 1;
      var front, last := es[..n], es[n];
      assert es == front + [last];
      hide *;
      LastHandlerWins(front, router, verb, p);
      RegisterAt(RegisterAll(front), last, router, verb, p);
      RegisterOneMore(front, last);
      LastOfMore(front, last, router, verb, p);
      LastIsInside(front, router, verb, p);
      if IsFor(last, router, verb, p) { assert LastFor(es, n, router, verb, p); }
    }
  }

  lemma LastIsInside(es: seq<Registration>, router: nat, verb: string, p: string)
    ensures forall k :: LastFor(es, k, router, verb, p) ==> 0 <= k < |es|
  {
  }

  // ---------------------------------------------------------------- which patterns have parameters

  /** In some piece between the slashes a parameter begins, or it is ':' with a name. */
  ghost predicate HasParameter(pattern: string) {
    exists piece :: piece in Split(TrimSlash(pattern), '/') && !IsText(piece)
  }

  ghost predicate IsText(piece: string) {
    !(":" <= piece && MadeOf(piece[1..], NAME_BYTES)) && NoneIn(piece)
  }

  /** An entry takes part in parameter matching iff its pattern is no wildcard and has a parameter. */
  lemma EntryHasParamsIff(p: string, h: Handler)
    ensures EntryFor(p, h).hasParams <==> !HasSuffix(p, "/*") && HasParameter(p)
    ensures EntryFor(p, h).handler == h && (EntryFor(p, h).hasParams ==> EntryFor(p, h).segments == Compile(p))
  {
    var pieces, segs := Split(TrimSlash(p), '/'), Compile(p);
    forall piece ensures CompileSegment(piece).Literal? <==> IsText(piece) { TextIff(piece); }
    if TrimSlash(p) == "" {
      EmptyIsText(TrimSlash(p));
    } else {
      hide CompileSegment, IsText;
      assert segs == CompileAll(pieces);
      assert HasParams(segs) <==> exists i :: 0 <= i < |segs| && !segs[i].Literal?;
      assert HasParameter(p) <==> exists i :: 0 <= i < |pieces| && !IsText(pieces[i]);
    }
  }

  lemma EmptyIsText(s: string)
    requires s == ""
    ensures forall piece :: piece in Split(s, '/') ==> IsText(piece)
  {
  }

  lemma TextIff(piece: string)
    ensures CompileSegment(piece).Literal? <==> IsText(piece)
  {
    LiteralIff(piece);
  }

  // ---------------------------------------------------------------- what PathValue answers

  predicate Registers(e: Registration, pattern: string) {
    NormalizePath(e.path) == pattern
  }

  ghost predicate SomeRegisters(es: seq<Registration>, pattern: string) {
    exists k :: 0 <= k < |es| && Registers(es[k], pattern)
  }

  lemma SomeRegistersMore(front: seq<Registration>, e: Registration, pattern: string)
    ensures SomeRegisters(front + [e], pattern) <==> SomeRegisters(front, pattern) || Registers(e, pattern)
  {
    var es := front + [e];
    assert es[|front|] == e && forall j :: 0 <= j < |front| ==> es[j] == front[j];
  }

  lemma IndexStep(w: World, e: Registration, pattern: string)
    ensures pattern in Register(w, e).index <==>
            pattern in w.index || (Registers(e, pattern) && !HasSuffix(pattern, "/*") && HasParameter(pattern))
  {
    EntryHasParamsIff(pattern, e.handler);
    hide HasParameter, HasParams, Compile, NormalizePath;
  }

  lemma {:induction false} IndexedIff(es: seq<Registration>, pattern: string)
    ensures pattern in RegisterAll(es).index <==> SomeRegisters(es, pattern) && !HasSuffix(pattern, "/*") && HasParameter(pattern)
  {
    if es != [] {
      var n := |es| - 1;
      var front, last := es[..n], es[n];
      assert es == front + [last];
      hide *;
      IndexedIff(front, pattern);
      RegisterOneMore(front, last);
      SomeRegistersMore(front, last, pattern);
      IndexStep(RegisterAll(front), last, pattern);
    }
  }

  /** For a pattern that no router registered, or that has no parameters, the standard library answers;
      otherwise the value of the first parameter of that name in a path that fits, and "" for a path that
      does not. */
  lemma PathValueAnswers(es: seq<Registration>, pattern: string, urlPath: string, name: string, stdlib: string)
    ensures var known := SomeRegisters(es, pattern) && !HasSuffix(pattern, "/*") && HasParameter(pattern);
            var segs, path := Compile(pattern), NormalizePath(urlPath);
            PathValueOf(RegisterAll(es).index, pattern, urlPath, name, stdlib) ==
            if !known then stdlib else if MatchesPath(segs, path) then Lookup(PathBindings(segs, path), name) else ""
  {
    hide HasParameter, MatchesPath, Lookup, PathBindings, Compile, NormalizePath, Registers;
    IndexedIff(es, pattern);
    IndexAgreesWithRouters(es);
  }
}
