/** The operations of Go's strings package that the modelled code relies on. A Go
    string is a sequence of bytes; here one char stands for one byte. */
module GoStrings {
  datatype Option<+T> = None | Some(value: T)

  predicate OccursAt(s: string, sub: string, k: int) {
    0 <= k <= |s| - |sub| && s[k..k + |sub|] == sub
  }

  lemma OccursChar(s: string, sub: string, k: nat, j: nat)
    requires OccursAt(s, sub, k) && j < |sub|
    ensures s[k + j] == sub[j]
  {
    assert s[k..k + |sub|][j] == s[k + j];
  }

  /** A byte that differs rules an occurrence out. */
  lemma CharDiffers(s: string, sub: string, k: nat, j: nat)
    requires j < |sub| && k + j < |s| && s[k + j] != sub[j]
    ensures !OccursAt(s, sub, k)
  {
    if OccursAt(s, sub, k) { OccursChar(s, sub, k, j); }
  }

  lemma Assoc(a: string, b: string, c: string)
    ensures (a + b) + c == a + (b + c)
  {
  }

  function IndexFrom(s: string, sub: string, i: nat): (r: int)
    ensures r < 0 || (i <= r && OccursAt(s, sub, r))
    ensures forall k :: OccursAt(s, sub, k) && i <= k ==> 0 <= r <= k
    decreases |s| - i
  {
    if i + |sub| > |s| then -1
    else if s[i..i + |sub|] == sub then i
    else if i == |s| then -1
    else IndexFrom(s, sub, i + 1)
  }

  /** strings.Index: the first occurrence of sub in s, or -1. */
  function Index(s: string, sub: string): (r: int)
    ensures -1 <= r
    ensures r >= 0 ==> OccursAt(s, sub, r)
    ensures forall k :: OccursAt(s, sub, k) ==> 0 <= r <= k
  {
    var r := IndexFrom(s, sub, 0);
    if r < 0 then -1 else r
  }

  /** strings.IndexByte: the first position of c in s, or -1. */
  function IndexByte(s: string, c: char): (r: int)
    ensures -1 <= r < |s|
    ensures r >= 0 ==> s[r] == c && c !in s[..r]
    ensures r < 0 ==> c !in s
  {
    if s == "" then -1
    else if s[0] == c then 0
    else
      var r := IndexByte(s[1..], c);
      assert s == [s[0]] + s[1..];
      if r < 0 then -1 else
        assert s[..r + 1] == [s[0]] + s[1..][..r];
        r + 1
  }

  function LastIndexByteBelow(s: string, c: char, n: nat): (r: int)
    requires n <= |s|
    ensures -1 <= r < n && (r >= 0 ==> s[r] == c)
    ensures forall k :: r < k < n ==> s[k] != c
  {
    if n == 0 then -1
    else if s[n - 1] == c then n - 1
    else LastIndexByteBelow(s, c, n - 1)
  }

  /** strings.LastIndex for a single byte: the last position of c in s, or -1. */
  function LastIndexByte(s: string, c: char): (r: int)
    ensures -1 <= r < |s| && (r >= 0 ==> s[r] == c)
    ensures forall k :: r < k < |s| ==> s[k] != c
  {
    LastIndexByteBelow(s, c, |s|)
  }

  predicate HasSuffix(s: string, t: string) {
    |t| <= |s| && s[|s| - |t|..] == t
  }

  /** strings.Split on a single byte: one piece more than there are separators. */
  function Split(s: string, sep: char): (ps: seq<string>)
    ensures |ps| >= 1
    ensures forall p :: p in ps ==> sep !in p
    decreases |s|
  {
    var i := IndexByte(s, sep);
    if i < 0 then [s] else [s[..i]] + Split(s[i + 1..], sep)
  }

  function Join(ps: seq<string>, sep: char): string {
    if |ps| == 0 then ""
    else if |ps| == 1 then ps[0]
    else ps[0] + [sep] + Join(ps[1..], sep)
  }

  lemma {:induction false} JoinSplit(s: string, sep: char)
    ensures Join(Split(s, sep), sep) == s
    decreases |s|
  {
    var i := IndexByte(s, sep);
    if i >= 0 {
      var head, rest := s[..i], s[i + 1..];
      JoinSplit(rest, sep);
      JoinCons(head, Split(rest, sep), sep);
      assert s == head + [sep] + rest;
    }
  }

  lemma JoinCons(p: string, ps: seq<string>, sep: char)
    requires ps != []
    ensures Join([p] + ps, sep) == p + [sep] + Join(ps, sep)
  {
    assert ([p] + ps)[1..] == ps;
  }

  lemma SplitCons(p: string, s: string, sep: char)
    requires sep !in p
    ensures Split(p + [sep] + s, sep) == [p] + Split(s, sep)
  {
    IndexByteAt(p, sep, s);
    var all := p + [sep] + s;
    assert all[..|p|] == p && all[|p| + 1..] == s;
  }

  lemma IndexByteAt(a: string, c: char, b: string)
    requires c !in a
    ensures IndexByte(a + [c] + b, c) == |a|
  {
    var s := a + [c] + b;
    var r := IndexByte(s, c);
    assert forall k :: 0 <= k < |a| ==> s[k] == a[k] && s[k] != c;
    assert s[|a|] == c && c in s;
    assert forall k :: 0 <= k < r ==> s[..r][k] == s[k] && s[k] != c;
  }

  lemma {:induction false} SplitJoin(ps: seq<string>, sep: char)
    requires |ps| >= 1
    requires forall p :: p in ps ==> sep !in p
    ensures Split(Join(ps, sep), sep) == ps
  {
    if |ps| > 1 {
      var p, rest := ps[0], ps[1..];
      SplitJoin(rest, sep);
      SplitCons(p, Join(rest, sep), sep);
      assert ps == [p] + rest;
    } else {
      assert ps == [ps[0]] && ps[0] in ps;
      assert IndexByte(ps[0], sep) < 0;
    }
  }

  function Concat(ps: seq<string>): string {
    if ps == [] then "" else ps[0] + Concat(ps[1..])
  }

  predicate IsSpace(c: char) {
    c == ' ' || c == '\t' || c == '\n' || c == '\r' || c == '\U{0B}' || c == '\U{0C}'
  }

  /** strings.TrimSpace on ASCII white space. */
  function TrimSpace(s: string): (t: string)
    ensures t == "" || (!IsSpace(t[0]) && !IsSpace(t[|t| - 1]))
    ensures |t| <= |s|
    ensures (s == "" || (!IsSpace(s[0]) && !IsSpace(s[|s| - 1]))) ==> t == s
  {
    if s == "" then ""
    else if IsSpace(s[0]) then TrimSpace(s[1..])
    else if IsSpace(s[|s| - 1]) then TrimSpace(s[..|s| - 1])
    else s
  }
}
