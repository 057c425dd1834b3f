/** The dev loop's hand-written fragment extractor (extractFragment in
    examples/webapp-demo/cmd/dev/main.go). */
module Fragment {
  import opened GoStrings

  const CONTAINER_ID := "id=\"fgoths-content\""

  /** The next div tag the walk looks at, with the text after that tag. */
  datatype Move = Stuck | Opens(rest: string) | Closes(rest: string)

  function Next(s: string): (m: Move)
    ensures m.Opens? ==> |m.rest| <= |s| - 4
    ensures m.Closes? ==> |m.rest| <= |s| - 6
  {
    var open, close := Index(s, "<div"), Index(s, "</div>");
    if close < 0 then Stuck
    else if 0 <= open < close then Opens(s[open + 4..])
    else Closes(s[close + 6..])
  }

  /** What the depth walk leaves of s when the depth falls to zero. */
  function Scan(s: string, depth: nat): (r: Option<string>)
    ensures r.Some? ==> |r.value| <= |s| - if depth > 0 then 6 else 0
  {
    ScanBytes(s, |s|, depth)
  }

  function ScanBytes(s: string, n: nat, depth: nat): (r: Option<string>)
    requires n == |s|
    ensures r.Some? ==> |r.value| <= n - if depth > 0 then 6 else 0
    decreases n
  {
    if depth == 0 then Some(s)
    else
      match Next(s)
      case Stuck => None
      case Opens(rest) => ScanBytes(rest, |rest|, depth + 1)
      case Closes(rest) => ScanBytes(rest, |rest|, depth - 1)
  }

  lemma ScanOpens(s: string, depth: nat, deeper: nat)
    requires depth >= 1 && deeper == depth + 1 && Next(s).Opens?
    ensures Scan(s, depth) == Scan(Next(s).rest, deeper)
  {
    hide Next, OccursAt;
  }

  lemma ScanStuck(s: string, depth: nat)
    requires depth >= 1 && Next(s) == Stuck
    ensures Scan(s, depth) == None
  {
    hide Next, OccursAt;
  }

  lemma ScanCloses(s: string, depth: nat, upper: nat)
    requires depth >= 1 && upper == depth - 1 && Next(s).Closes?
    ensures Scan(s, depth) == Scan(Next(s).rest, upper)
  {
    hide Next, OccursAt;
  }

  /** Where the container's opening tag ends. */
  function ContentStart(html: string): (r: Option<nat>)
    ensures r.Some? ==> r.value <= |html|
  {
    var idx := Index(html, CONTAINER_ID);
    if idx < 0 then None
    else
      var tagStart := LastIndexByte(html[..idx], '<');
      if tagStart < 0 then None
      else
        var tagEnd := IndexByte(html[tagStart..], '>');
        if tagEnd < 0 then None else Some(tagStart + tagEnd + 1)
  }

  /** The text from start up to the closing tag where the depth falls to zero. */
  function ContentFrom(html: string, start: nat): Option<string>
    requires start <= |html|
  {
    match Scan(html[start..], 1)
    case None => None
    case Some(rest) => Some(html[start..|html| - |rest| - 6])
  }

  function Extract(html: string): Option<string> {
    match ContentStart(html)
    case None => None
    case Some(start) => ContentFrom(html, start)
  }

  lemma NextAt(html: string, pos: nat, next: nat)
    requires pos <= |html|
    requires var open, close := Index(html[pos..], "<div"), Index(html[pos..], "</div>");
             close >= 0 && next == pos + if 0 <= open < close then open + 4 else close + 6
    ensures next <= |html|
    ensures var open, close := Index(html[pos..], "<div"), Index(html[pos..], "</div>");
            Next(html[pos..]) == if 0 <= open < close then Opens(html[next..]) else Closes(html[next..])
  {
    assert html[pos..][next - pos..] == html[next..];
  }

  /** The first half of extractFragment: find the container's tag. */
  method FindContent(html: string) returns (r: Option<nat>)
    ensures r == ContentStart(html)
  {
    var idx := Index(html, CONTAINER_ID);
    if idx == -1 {
      return None;
    }
    var tagStart := LastIndexByte(html[..idx], '<');
    if tagStart == -1 {
      return None;
    }
    var tagEnd := IndexByte(html[tagStart..], '>');
    if tagEnd == -1 {
      return None;
    }
    return Some(tagStart + tagEnd + 1);
  }

  /** The position after the next div tag from pos on, and which kind of tag it is. */
  method NextTag(html: string, pos: nat) returns (next: Option<nat>, opens: bool)
    requires pos <= |html|
    ensures next.None? ==> Next(html[pos..]) == Stuck
    ensures next.Some? ==> pos + 4 <= next.value <= |html| && (!opens ==> pos + 6 <= next.value)
    ensures next.Some? ==> Next(html[pos..]) == if opens then Opens(html[next.value..]) else Closes(html[next.value..])
  {
    var nextOpen := Index(html[pos..], "<div");
    var nextClose := Index(html[pos..], "</div>");
    if nextClose == -1 {
      return None, false;
    }
    opens := nextOpen != -1 && nextOpen < nextClose;
    var n := pos + if opens then nextOpen + 4 else nextClose + 6;
    NextAt(html, pos, n);
    next := Some(n);
  }

  /** The depth loop; it ends on every input because pos moves forward. */
  method WalkDivs(html: string, contentStart: nat) returns (r: Option<string>)
    requires contentStart <= |html|
    ensures r == ContentFrom(html, contentStart)
  {
    hide ScanBytes;
    var pos, depth := contentStart, 1;
    while depth > 0
      invariant contentStart <= pos <= |html| && depth >= 0
      invariant depth == 0 ==> pos >= contentStart + 6
      invariant Scan(html[pos..], depth) == Scan(html[contentStart..], 1)
      decreases |html| - pos
    {
      var next, opens := NextTag(html, pos);
      if next.None? {
        ScanStuck(html[pos..], depth);
        return None;
      }
      if opens {
        ScanOpens(html[pos..], depth, depth + 1);
        depth := depth + 1;
      } else {
        ScanCloses(html[pos..], depth, depth - 1);
        depth := depth - 1;
      }
      pos := next.value;
    }
    ScanDone(html[pos..]);
    assert |html| - |html[pos..]| - 6 == pos - 6;
    return Some(html[contentStart..pos - 6]);
  }

  lemma ScanDone(s: string)
    ensures Scan(s, 0) == Some(s)
  {
  }

  /** extractFragment. */
  method ExtractFragment(html: string) returns (r: Option<string>)
    ensures r == Extract(html)
  {
    var start := FindContent(html);
    if start.None? {
      return None;
    }
    r := WalkDivs(html, start.value);
  }

  // ---------------------------------------------------------------- printed div trees

  /** Rendered markup: text, other tags, and nested divs. */
  datatype Forest =
    | Empty
    | Text(text: string, rest: Forest)
    | Tag(inner: string, rest: Forest)
    | Div(attrs: string, kids: Forest, rest: Forest)

  function Print(f: Forest): string {
    match f
    case Empty => ""
    case Text(text, rest) => text + Print(rest)
    case Tag(inner, rest) => ("<" + (inner + ">")) + Print(rest)
    case Div(attrs, kids, rest) => "<div" + ((attrs + ">") + (Print(kids) + ("</div>" + Print(rest))))
  }

  /** Text and attributes hold no '<', and other tags do not read as "</div>". */
  predicate WellFormed(f: Forest) {
    match f
    case Empty => true
    case Text(text, rest) => '<' !in text && WellFormed(rest)
    case Tag(inner, rest) => '<' !in inner && !("/div>" <= inner + ">") && WellFormed(rest)
    case Div(attrs, kids, rest) => '<' !in attrs && WellFormed(kids) && WellFormed(rest)
  }

  /** How many of the other tags begin like a div, as in "<divider>". */
  function DivLike(f: Forest): nat {
    match f
    case Empty => 0
    case Text(text, rest) => DivLike(rest)
    case Tag(inner, rest) => (if "div" <= inner then 1 else 0) + DivLike(rest)
    case Div(attrs, kids, rest) => DivLike(kids) + DivLike(rest)
  }

  lemma IndexSkip(t: string, s: string, sub: string)
    requires forall k :: 0 <= k < |t| ==> !OccursAt(t + s, sub, k)
    ensures Index(t + s, sub) == if Index(s, sub) < 0 then -1 else |t| + Index(s, sub)
  {
    var all := t + s;
    assert forall k :: OccursAt(s, sub, k) ==> all[|t| + k..|t| + k + |sub|] == s[k..k + |sub|] && OccursAt(all, sub, |t| + k);
    assert forall k :: OccursAt(all, sub, k) && k >= |t| ==> s[k - |t|..k - |t| + |sub|] == all[k..k + |sub|] && OccursAt(s, sub, k - |t|);
  }

  /** Neither an opening nor a closing div begins inside t. */
  predicate NoDivIn(t: string, s: string) {
    forall k :: 0 <= k < |t| ==> !OccursAt(t + s, "<div", k) && !OccursAt(t + s, "</div>", k)
  }

  lemma ScanSkip(t: string, s: string, depth: nat)
    requires depth >= 1 && NoDivIn(t, s)
    ensures Scan(t + s, depth) == Scan(s, depth)
  {
    IndexSkip(t, s, "<div");
    IndexSkip(t, s, "</div>");
    var open, close := Index(s, "<div"), Index(s, "</div>");
    if close >= 0 {
      var n := if 0 <= open < close then open + 4 else close + 6;
      assert (t + s)[|t| + n..] == s[n..];
      assert Next(t + s) == Next(s);
    }
  }

  lemma NoDivWithoutAngle(all: string, k: nat)
    requires k < |all| && all[k] != '<'
    ensures !OccursAt(all, "<div", k) && !OccursAt(all, "</div>", k)
  {
    CharDiffers(all, "<div", k, 0);
    CharDiffers(all, "</div>", k, 0);
  }

  lemma PlainTextHasNoDiv(t: string, s: string)
    requires '<' !in t
    ensures NoDivIn(t, s)
  {
    forall k | 0 <= k < |t| ensures !OccursAt(t + s, "<div", k) && !OccursAt(t + s, "</div>", k) {
      assert (t + s)[k] == t[k];
      NoDivWithoutAngle(t + s, k);
    }
  }

  lemma OtherTagHasNoDiv(inner: string, s: string)
    requires '<' !in inner && !("div" <= inner) && !("/div>" <= inner + ">")
    ensures NoDivIn("<" + (inner + ">"), s)
  {
    var body := inner + ">";
    var t := "<" + body;
    var all := t + s;
    forall k | 0 <= k < |t| ensures !OccursAt(all, "<div", k) && !OccursAt(all, "</div>", k) {
      if k > 0 {
        var j := k - 1;
        assert all[k] == t[k] == body[j] && body[j] in body;
        NoDivWithoutAngle(all, k);
      } else {
        OtherTagOpensNoDiv(body, s);
      }
    }
  }

  /** A tag "<" + body, whose body ends in its only '>' byte of interest, can start with
      "<" + sub only if its body starts with sub. */
  lemma TagStart(body: string, s: string, sub: string)
    requires body != "" && body[|body| - 1] == '>'
    requires forall j :: 0 <= j < |sub| - 1 ==> sub[j] != '>'
    ensures OccursAt("<" + body + s, "<" + sub, 0) && !(sub <= body) ==>
              sub != "" && |sub| > |body| && sub[|body| - 1] == '>'
    ensures OccursAt("<" + body + s, "<" + sub, 0) ==> forall j :: 0 <= j < |body| && j < |sub| ==> body[j] == sub[j]
  {
    var all := "<" + body + s;
    if OccursAt(all, "<" + sub, 0) {
      forall j | 0 <= j < |body| && j < |sub| ensures body[j] == sub[j] {
        var m := j + 1;
        OccursChar(all, "<" + sub, 0, m);
        assert all[m] == body[j] && ("<" + sub)[m] == sub[j];
      }
      if |sub| <= |body| { assert body[..|sub|] == sub; }
    }
  }

  lemma OtherTagOpensNoDiv(body: string, s: string)
    requires body != "" && body[|body| - 1] == '>'
    requires !("div" <= body[..|body| - 1]) && !("/div>" <= body)
    ensures !OccursAt("<" + body + s, "<div", 0) && !OccursAt("<" + body + s, "</div>", 0)
  {
    assert "<" + "div" == "<div" && "<" + "/div>" == "</div>";
    TagStart(body, s, "div");
    TagStart(body, s, "/div>");
    PrefixInner(body, "div");
  }

  lemma PrefixInner(body: string, sub: string)
    requires body != "" && body[|body| - 1] == '>' && '>' !in sub
    ensures sub <= body ==> sub <= body[..|body| - 1]
  {
    var n := |body| - 1;
    if sub <= body {
      assert |sub| <= n;
      assert body[..n][..|sub|] == body[..|sub|];
    }
  }

  lemma NextAtOpening(s: string, k: nat)
    requires OccursAt(s, "</div>", k)
    ensures Next("<div" + s) == Opens(s)
  {
    var all := "<div" + s;
    assert all[..4] == "<div" && OccursAt(all, "<div", 0);
    CharDiffers(all, "</div>", 0, 1);
    var m := 4 + k;
    assert all[m..m + 6] == s[k..k + 6] && OccursAt(all, "</div>", m);
    assert all[4..] == s;
  }

  lemma NextAtClosing(s: string)
    ensures Next("</div>" + s) == Closes(s)
  {
    assert OccursAt("</div>" + s, "</div>", 0);
    assert ("</div>" + s)[6..] == s;
  }

  /** An opening div takes the walk one level deeper, whatever comes after it. */
  lemma ScanOpening(s: string, depth: nat, deeper: nat)
    requires depth >= 1 && deeper == depth + 1
    ensures Scan("<div" + s, depth) == Scan(s, deeper)
  {
    if k :| OccursAt(s, "</div>", k) {
      NextAtOpening(s, k);
      ScanOpens("<div" + s, depth, deeper);
    } else {
      forall k | 0 <= k < 4 ensures !OccursAt("<div" + s, "</div>", k) {
        CharDiffers("<div" + s, "</div>", k, if k == 0 then 1 else 0);
      }
      IndexSkip("<div", s, "</div>");
      ScanStuck("<div" + s, depth);
      ScanStuck(s, deeper);
    }
  }

  /** The walk passes over a printed forest; every tag that begins like a div leaves it one deeper. */
  lemma {:induction false} ScanForest(f: Forest, s: string, depth: nat, after: nat)
    requires WellFormed(f) && depth >= 1 && after == depth + DivLike(f)
    ensures Scan(Print(f) + s, depth) == Scan(s, after)
    decreases f
  {
    hide Scan, ScanBytes, NoDivIn;
    match f
    case Empty => assert Print(f) + s == s;
    case Text(text, rest) =>
      ScanForest(rest, s, depth, after);
      ScanText(text, Print(rest), s, depth);
    case Tag(inner, rest) =>
      if "div" <= inner {
        ScanForest(rest, s, depth + 1, after);
        ScanDivLike(inner, Print(rest), s, depth, depth + 1);
      } else {
        ScanForest(rest, s, depth, after);
        ScanOtherTag(inner, Print(rest), s, depth);
      }
    case Div(attrs, kids, rest) =>
      var left := depth + DivLike(kids);
      ScanForest(rest, s, left, after);
      ScanForest(kids, "</div>" + (Print(rest) + s), depth + 1, left + 1);
      ScanDiv(attrs, Print(kids), Print(rest), s, depth, depth + 1, left + 1, left);
  }

  lemma ScanText(text: string, rest: string, s: string, depth: nat)
    requires depth >= 1 && '<' !in text
    ensures Scan((text + rest) + s, depth) == Scan(rest + s, depth)
  {
    PlainTextHasNoDiv(text, rest + s);
    ScanThen(text, rest, s, depth);
  }

  lemma ScanOtherTag(inner: string, rest: string, s: string, depth: nat)
    requires depth >= 1 && '<' !in inner && !("div" <= inner) && !("/div>" <= inner + ">")
    ensures Scan((("<" + (inner + ">")) + rest) + s, depth) == Scan(rest + s, depth)
  {
    OtherTagHasNoDiv(inner, rest + s);
    ScanThen("<" + (inner + ">"), rest, s, depth);
  }

  lemma ScanThen(t: string, rest: string, s: string, depth: nat)
    requires depth >= 1 && NoDivIn(t, rest + s)
    ensures Scan((t + rest) + s, depth) == Scan(rest + s, depth)
  {
    ScanSkip(t, rest + s, depth);
    assert (t + rest) + s == t + (rest + s);
  }

  lemma ScanDivLike(inner: string, rest: string, s: string, depth: nat, deeper: nat)
    requires depth >= 1 && deeper == depth + 1 && "div" <= inner && '<' !in inner
    ensures Scan((("<" + (inner + ">")) + rest) + s, depth) == Scan(rest + s, deeper)
  {
    var more := inner[3..] + ">";
    assert "<" + (inner + ">") == "<div" + more;
    PlainTextHasNoDiv(more, rest + s);
    ScanSkip(more, rest + s, deeper);
    ScanOpening(more + (rest + s), depth, deeper);
    Assoc(more, rest, s);
    Assoc("<div", more, rest);
    Assoc("<div", more + rest, s);
  }

  lemma ScanDiv(attrs: string, kids: string, rest: string, s: string, depth: nat, deeper: nat, left: nat, after: nat)
    requires depth >= 1 && deeper == depth + 1 && left == after + 1 && '<' !in attrs
    requires var close := "</div>" + (rest + s); Scan(kids + close, deeper) == Scan(close, left)
    ensures Scan("<div" + ((attrs + ">") + (kids + ("</div>" + rest))) + s, depth) == Scan(rest + s, after)
  {
    var close, open := "</div>" + (rest + s), attrs + ">";
    var inside := kids + close;
    NextAtClosing(rest + s);
    ScanCloses(close, left, after);
    PlainTextHasNoDiv(open, inside);
    ScanSkip(open, inside, deeper);
    ScanOpening(open + inside, depth, deeper);
    Assoc("</div>", rest, s);
    Assoc(kids, "</div>" + rest, s);
    Assoc(open, kids + ("</div>" + rest), s);
    Assoc("<div", open + (kids + ("</div>" + rest)), s);
  }

  // ---------------------------------------------------------------- the container tag

  predicate IdFree(s: string) {
    Index(s, CONTAINER_ID) < 0
  }

  lemma ContainerIdShape()
    ensures CONTAINER_ID[0] == 'i' && '<' !in CONTAINER_ID && '>' !in CONTAINER_ID && |CONTAINER_ID| > 0
    ensures forall j :: 0 < j < |CONTAINER_ID| ==> CONTAINER_ID[j] != 'i'
  {
  }

  /** No id starts in an id-free stretch before a byte an id only starts with, or never holds. */
  lemma NoIdIn(a: string, b: string, k: nat)
    requires IdFree(a) && b != "" && (b[0] == '<' || b[0] == 'i') && k < |a|
    ensures !OccursAt(a + b, CONTAINER_ID, k)
  {
    ContainerIdShape();
    var n, j := |CONTAINER_ID|, |a| - k;
    if j < n {
      assert CONTAINER_ID[j] in CONTAINER_ID;
      assert (a + b)[k + j] == b[0];
      CharDiffers(a + b, CONTAINER_ID, k, j);
    } else {
      assert (a + b)[k..k + n] == a[k..k + n];
      assert !OccursAt(a, CONTAINER_ID, k);
    }
  }

  lemma IndexIdSkip(a: string, b: string)
    requires IdFree(a) && b != "" && (b[0] == '<' || b[0] == 'i')
    ensures Index(a + b, CONTAINER_ID) == if Index(b, CONTAINER_ID) < 0 then -1 else |a| + Index(b, CONTAINER_ID)
  {
    forall k | 0 <= k < |a| ensures !OccursAt(a + b, CONTAINER_ID, k) { NoIdIn(a, b, k); }
    IndexSkip(a, b, CONTAINER_ID);
  }

  lemma FirstId(prefix: string, head: string, b: string)
    requires IdFree(prefix) && IdFree(head)
    ensures Index(prefix + ("<" + (head + (CONTAINER_ID + b))), CONTAINER_ID) == |prefix| + 1 + |head|
  {
    ContainerIdShape();
    var atId := CONTAINER_ID + b;
    assert OccursAt(atId, CONTAINER_ID, 0);
    IndexIdSkip(head, atId);
    var tag := "<" + (head + atId);
    CharDiffers(tag, CONTAINER_ID, 0, 0);
    IndexSkip("<", head + atId, CONTAINER_ID);
    IndexIdSkip(prefix, tag);
  }

  lemma LastByteAt(a: string, c: char, b: string)
    requires c !in b
    ensures LastIndexByte(a + ([c] + b), c) == |a|
  {
    var s, n := a + ([c] + b), |a|;
    assert s[n] == c;
    assert forall k :: n < k < |s| ==> s[k] == b[k - n - 1];
  }

  /** The container's opening tag, up to its '>'. */
  function OpenTag(head: string, tail: string): string {
    "<" + (head + (CONTAINER_ID + tail))
  }

  /** A page whose first container id stands in a div around the printed forest. */
  function Page(prefix: string, head: string, tail: string, body: string): string {
    prefix + (OpenTag(head, tail) + (">" + body))
  }

  lemma PageShape(prefix: string, head: string, tail: string, body: string)
    ensures Page(prefix, head, tail, body) == prefix + ("<" + (head + (CONTAINER_ID + (tail + (">" + body)))))
    ensures Page(prefix, head, tail, body) == (prefix + ("<" + head)) + (CONTAINER_ID + (tail + (">" + body)))
  {
    var id, close := CONTAINER_ID, ">" + body;
    Assoc("<", head + (id + tail), close);
    Assoc(head, id + tail, close);
    Assoc(id, tail, close);
    var rest := id + (tail + close);
    Assoc("<", head, rest);
    Assoc(prefix, "<" + head, rest);
  }

  lemma TagStartsAt(prefix: string, head: string, tail: string, body: string)
    requires IdFree(prefix) && IdFree(head) && '<' !in head
    ensures var html := Page(prefix, head, tail, body);
            var idx := Index(html, CONTAINER_ID);
            idx >= 0 && LastIndexByte(html[..idx], '<') == |prefix|
  {
    PageShape(prefix, head, tail, body);
    FirstId(prefix, head, tail + (">" + body));
    var before, rest := prefix + ("<" + head), CONTAINER_ID + (tail + (">" + body));
    assert (before + rest)[..|before|] == before;
    LastByteAt(prefix, '<', head);
  }

  lemma DropFront(a: string, b: string)
    ensures (a + b)[|a|..] == b
  {
  }

  lemma TagIsUnclosed(head: string, tail: string)
    requires '>' !in head && '>' !in tail
    ensures '>' !in OpenTag(head, tail)
  {
    ContainerIdShape();
  }

  lemma ContentStartsAt(html: string, tagStart: nat, tagEnd: nat, start: nat)
    requires start == tagStart + tagEnd + 1 && tagStart <= |html| && IndexByte(html[tagStart..], '>') == tagEnd
    requires var idx := Index(html, CONTAINER_ID); idx >= 0 && LastIndexByte(html[..idx], '<') == tagStart
    ensures ContentStart(html) == Some(start)
  {
  }

  lemma StartOfContent(prefix: string, head: string, tail: string, body: string, start: nat)
    requires IdFree(prefix) && IdFree(head) && '<' !in head && '>' !in head && '>' !in tail
    requires start == |prefix| + |OpenTag(head, tail)| + 1
    ensures ContentStart(Page(prefix, head, tail, body)) == Some(start)
    ensures Page(prefix, head, tail, body)[start..] == body
  {
    var html, tag := Page(prefix, head, tail, body), OpenTag(head, tail);
    assert html == prefix + (tag + (">" + body));
    hide *;
    TagStartsAt(prefix, head, tail, body);
    TagIsUnclosed(head, tail);
    AfterTag(html, prefix, tag, body, start);
    ContentStartsAt(html, |prefix|, |tag|, start);
  }

  lemma AfterTag(html: string, prefix: string, tag: string, body: string, start: nat)
    requires '>' !in tag && html == prefix + (tag + (">" + body)) && start == |prefix| + |tag| + 1
    ensures IndexByte(html[|prefix|..], '>') == |tag| && start <= |html| && html[start..] == body
  {
    hide *;
    DropFront(prefix, tag + (">" + body));
    Assoc(tag, ">", body);
    IndexByteAt(tag, '>', body);
    Assoc(prefix, tag + ">", body);
    DropFront(prefix + (tag + ">"), body);
  }

  /** Extracting from a page gives back the printed forest, whatever follows it, exactly when no
      other tag begins like a div; otherwise it runs on past the container, or finds no end. */
  lemma ExtractInvertsPrint(prefix: string, head: string, tail: string, f: Forest, suffix: string)
    requires IdFree(prefix) && IdFree(head) && '<' !in head && '>' !in head && '>' !in tail && WellFormed(f)
    ensures var r := Extract(Page(prefix, head, tail, Print(f) + ("</div>" + suffix)));
            && (r == Some(Print(f)) <==> DivLike(f) == 0)
            && (DivLike(f) > 0 && r.Some? ==> |r.value| >= |Print(f)| + 6)
            && (DivLike(f) > 0 && Index(suffix, "</div>") < 0 ==> r == None)
  {
    var body := Print(f) + ("</div>" + suffix);
    var html, start := Page(prefix, head, tail, body), |prefix| + |OpenTag(head, tail)| + 1;
    StartOfContent(prefix, head, tail, body, start);
    BodyContent(html, start, f, suffix);
  }

  /** The walk goes on behind the container with the depth the div-like tags left over. */
  lemma BodyScan(f: Forest, suffix: string)
    requires WellFormed(f)
    ensures Scan(Print(f) + ("</div>" + suffix), 1) == Scan(suffix, DivLike(f))
  {
    var left: nat := 1 + DivLike(f);
    ScanForest(f, "</div>" + suffix, 1, left);
    NextAtClosing(suffix);
    ScanCloses("</div>" + suffix, left, DivLike(f));
  }

  lemma BodyContent(html: string, start: nat, f: Forest, suffix: string)
    requires start <= |html| && html[start..] == Print(f) + ("</div>" + suffix) && WellFormed(f)
    ensures var r := ContentFrom(html, start);
            && (r == Some(Print(f)) <==> DivLike(f) == 0)
            && (DivLike(f) > 0 && r.Some? ==> |r.value| >= |Print(f)| + 6)
            && (DivLike(f) > 0 && Index(suffix, "</div>") < 0 ==> r == None)
  {
    BodyScan(f, suffix);
    var out := Scan(suffix, DivLike(f));
    assert |html| - start == |Print(f)| + 6 + |suffix|;
    if DivLike(f) == 0 {
      ScanDone(suffix);
      hide *;
      ContentOf(html, start, Print(f), "</div>" + suffix);
      ContentUpTo(html, start, suffix, |html| - |"</div>" + suffix|);
    } else {
      if Index(suffix, "</div>") < 0 { ScanStuck(suffix, DivLike(f)); }
      hide ScanBytes;
      if out.Some? { ContentUpTo(html, start, out.value, |html| - |out.value| - 6); }
    }
  }

  lemma ContentUpTo(html: string, start: nat, rest: string, end: int)
    requires start <= |html| && Scan(html[start..], 1) == Some(rest) && end == |html| - |rest| - 6
    ensures start <= end && ContentFrom(html, start) == Some(html[start..end])
  {
    hide ScanBytes;
  }

  lemma ContentOf(html: string, start: nat, content: string, rest: string)
    requires start <= |html| && html[start..] == content + rest
    ensures html[start..|html| - |rest|] == content
  {
    assert html[start..|html| - |rest|] == html[start..][..|content|];
  }
}
