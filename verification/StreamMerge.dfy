/** The stream merger of highlight.js: two streams of nested tags become one. */
module StreamMerge {
  import opened Options
  import opened Sequences

  datatype Attribute = Attribute(name: string, value: string)

  // id stands for the identity of the DOM node.
  datatype Node = Node(id: nat, name: string, attributes: seq<Attribute>)

  datatype Event = Start(offset: nat, node: Node) | Stop(offset: nat, node: Node)

  // The output, seen as markup.
  datatype Piece = Open(node: Node) | Close(node: Node) | Char(c: char)

  // ---------- escaping ----------

  function ReplaceAll(s: string, c: char, rep: string): string {
    if s == "" then "" else (if s[0] == c then rep else [s[0]]) + ReplaceAll(s[1..], c, rep)
  }

  function Escape(s: string): string {
    ReplaceAll(ReplaceAll(ReplaceAll(s, '&', "&amp;"), '<', "&lt;"), '>', "&gt;")
  }

  function EscapeChar(c: char): string {
    if c == '&' then "&amp;" else if c == '<' then "&lt;" else if c == '>' then "&gt;" else [c]
  }

  lemma {:induction false} ReplaceAllConcat(s: string, t: string, c: char, rep: string)
    ensures ReplaceAll(s + t, c, rep) == ReplaceAll(s, c, rep) + ReplaceAll(t, c, rep)
  {
    if s == "" {
      assert s + t == t;
    } else {
      assert (s + t)[1..] == s[1..] + t;
      ReplaceAllConcat(s[1..], t, c, rep);
    }
  }

  /** Escaping splits over concatenation, so escaping piecewise is escaping the whole text. */
  lemma EscapeConcat(s: string, t: string)
    ensures Escape(s + t) == Escape(s) + Escape(t)
  {
    ReplaceAllConcat(s, t, '&', "&amp;");
    var s1, t1 := ReplaceAll(s, '&', "&amp;"), ReplaceAll(t, '&', "&amp;");
    ReplaceAllConcat(s1, t1, '<', "&lt;");
    ReplaceAllConcat(ReplaceAll(s1, '<', "&lt;"), ReplaceAll(t1, '<', "&lt;"), '>', "&gt;");
  }

  lemma EscapeEmpty()
    ensures Escape("") == ""
  {}

  lemma {:induction false} ReplaceAllAbsent(s: string, c: char, rep: string)
    requires c !in s
    ensures ReplaceAll(s, c, rep) == s
  {
    if s != "" { ReplaceAllAbsent(s[1..], c, rep); }
  }

  lemma ReplaceOne(s: string, c: char, rep: string)
    requires |s| == 1
    ensures ReplaceAll(s, c, rep) == if s[0] == c then rep else s
  {
    assert ReplaceAll(s[1..], c, rep) == "";
  }

  /** Replacing the ampersand first, the three passes act on each character once. */
  lemma EscapeOne(c: char)
    ensures Escape([c]) == EscapeChar(c)
  {
    ReplaceOne([c], '&', "&amp;");
    var s1 := ReplaceAll([c], '&', "&amp;");
    if c == '&' {
      ReplaceAllAbsent(s1, '<', "&lt;");
      ReplaceAllAbsent(s1, '>', "&gt;");
    } else {
      ReplaceOne(s1, '<', "&lt;");
      var s2 := ReplaceAll(s1, '<', "&lt;");
      if c == '<' {
        ReplaceAllAbsent(s2, '>', "&gt;");
      } else {
        ReplaceOne(s2, '>', "&gt;");
      }
    }
  }

  // ---------- rendering ----------

  function Attributes(a: seq<Attribute>): string {
    if a == [] then "" else " " + a[0].name + "=\"" + Escape(a[0].value) + "\"" + Attributes(a[1..])
  }

  function OpenTag(n: Node): string { "<" + n.name + Attributes(n.attributes) + ">" }

  function CloseTag(n: Node): string { "</" + Lower(n.name) + ">" }

  function Render(pieces: seq<Piece>): string {
    if pieces == [] then ""
    else
      var last := pieces[|pieces| - 1];
      Render(pieces[..|pieces| - 1]) +
      match last
      case Open(n) => OpenTag(n)
      case Close(n) => CloseTag(n)
      case Char(c) => EscapeChar(c)
  }

  // ---------- what markup means ----------

  /** The elements open at the end of the markup, outermost first; None if a close tag
      does not match the innermost open element. */
  function OpenElements(pieces: seq<Piece>): Option<seq<Node>> {
    if pieces == [] then Some([])
    else
      match OpenElements(pieces[..|pieces| - 1])
      case None => None
      case Some(r) => AfterPiece(r, pieces[|pieces| - 1])
  }

  function AfterPiece(r: seq<Node>, p: Piece): Option<seq<Node>> {
    match p
    case Open(n) => Some(r + [n])
    case Close(n) => if r != [] && r[|r| - 1] == n then Some(r[..|r| - 1]) else None
    case Char(_) => Some(r)
  }

  predicate Balanced(pieces: seq<Piece>) {
    OpenElements(pieces) == Some([])
  }

  function Text(pieces: seq<Piece>): string {
    if pieces == [] then ""
    else
      Text(pieces[..|pieces| - 1]) +
      match pieces[|pieces| - 1]
      case Char(c) => [c]
      case _ => ""
  }

  function Elements(r: seq<Node>): set<Node> { set n | n in r }

  /** For every character of the text, the set of elements that enclose it. */
  function Layers(pieces: seq<Piece>): seq<set<Node>> {
    if pieces == [] then []
    else
      var front := pieces[..|pieces| - 1];
      Layers(front) +
      if pieces[|pieces| - 1].Char? then
        match OpenElements(front)
        case Some(r) => [Elements(r)]
        case None => [{}]
      else []
  }

  // ---------- event streams ----------

  predicate StartsAt(s: seq<Event>, i: int, n: Node) { 0 <= i < |s| && s[i].Start? && s[i].node == n }

  predicate StopsAt(s: seq<Event>, i: int, n: Node) { 0 <= i < |s| && s[i].Stop? && s[i].node == n }

  ghost predicate Sorted(s: seq<Event>) {
    forall i, j :: 0 <= i < j < |s| ==> s[i].offset <= s[j].offset
  }

  // Every element starts once and stops once, later in the stream.
  ghost predicate Paired(s: seq<Event>) {
    && (forall i, j, n :: StartsAt(s, i, n) && StartsAt(s, j, n) ==> i == j)
    && (forall i, j, n :: StopsAt(s, i, n) && StopsAt(s, j, n) ==> i == j)
    && (forall j, n :: StopsAt(s, j, n) ==> exists i :: StartsAt(s, i, n) && i < j)
    && (forall i, n :: StartsAt(s, i, n) ==> exists j :: StopsAt(s, j, n) && i < j)
  }

  ghost predicate WellFormed(s: seq<Event>, w: string) {
    Sorted(s) && Paired(s) && forall i :: 0 <= i < |s| ==> s[i].offset <= |w|
  }

  ghost predicate Disjoint(x: seq<Event>, v: seq<Event>) {
    forall i, j :: 0 <= i < |x| && 0 <= j < |v| ==> x[i].node != v[j].node
  }

  /** The span of n in the stream, from its start to its stop, covers position k of the text. */
  ghost predicate Covers(s: seq<Event>, n: Node, k: int) {
    exists i, j :: StartsAt(s, i, n) && StopsAt(s, j, n) && s[i].offset <= k < s[j].offset
  }

  // Elements that the first i events leave open.
  ghost function Opened(s: seq<Event>, i: nat): set<Node>
    requires i <= |s|
  {
    if i == 0 then {}
    else if s[i - 1].Start? then Opened(s, i - 1) + {s[i - 1].node}
    else Opened(s, i - 1) - {s[i - 1].node}
  }

  lemma {:induction false} OpenedMeaning(s: seq<Event>, i: nat, n: Node)
    requires Paired(s) && i <= |s|
    ensures n in Opened(s, i) <==> exists a, b :: StartsAt(s, a, n) && StopsAt(s, b, n) && a < i <= b
  {
    if i > 0 {
      OpenedMeaning(s, i - 1, n);
      if s[i - 1].node == n {
        assert s[i - 1].Start? ==> StartsAt(s, i - 1, n);
        assert s[i - 1].Stop? ==> StopsAt(s, i - 1, n);
      }
    }
  }

  /** If the first i events are those at or before position k, what they leave open is what covers k. */
  lemma OpenedCovers(s: seq<Event>, w: string, i: nat, k: int, n: Node)
    requires WellFormed(s, w) && i <= |s|
    requires forall j :: 0 <= j < i ==> s[j].offset <= k
    requires forall j :: i <= j < |s| ==> k < s[j].offset
    ensures n in Opened(s, i) <==> Covers(s, n, k)
  {
    OpenedMeaning(s, i, n);
  }

  lemma OpenedAtEnd(s: seq<Event>)
    requires Paired(s)
    ensures Opened(s, |s|) == {}
  {
    forall n ensures n !in Opened(s, |s|) { OpenedMeaning(s, |s|, n); }
  }

  /** A stop event closes an element that is open, a start event opens one that is not. */
  lemma NextEvent(s: seq<Event>, i: nat)
    requires Paired(s) && i < |s|
    ensures s[i].Stop? <==> s[i].node in Opened(s, i)
  {
    var n := s[i].node;
    OpenedMeaning(s, i, n);
    if s[i].Stop? {
      assert StopsAt(s, i, n);
    } else {
      assert StartsAt(s, i, n);
    }
  }

  // ---------- emitting pieces ----------

  function Chars(t: string): seq<Piece> { seq(|t|, i requires 0 <= i < |t| => Char(t[i])) }

  lemma EmitOne(pieces: seq<Piece>, p: Piece)
    ensures Render(pieces + [p]) == Render(pieces) + Render([p])
    ensures OpenElements(pieces).Some? ==> OpenElements(pieces + [p]) == AfterPiece(OpenElements(pieces).value, p)
    ensures !p.Char? ==> Text(pieces + [p]) == Text(pieces) && Layers(pieces + [p]) == Layers(pieces)
    ensures p.Char? ==> Text(pieces + [p]) == Text(pieces) + [p.c]
    ensures p.Char? && OpenElements(pieces).Some? ==>
      Layers(pieces + [p]) == Layers(pieces) + [Elements(OpenElements(pieces).value)]
  {
    hide OpenTag, CloseTag, EscapeChar, Elements, AfterPiece;
    assert (pieces + [p])[..|pieces|] == pieces;
    assert [p][..0] == [];
  }

  /** Emitting text keeps the open elements and encloses every new character in them. */
  lemma {:induction false} EmitText(pieces: seq<Piece>, t: string, r: seq<Node>)
    requires OpenElements(pieces) == Some(r)
    ensures Render(pieces + Chars(t)) == Render(pieces) + Escape(t)
    ensures OpenElements(pieces + Chars(t)) == Some(r)
    ensures Text(pieces + Chars(t)) == Text(pieces) + t
    ensures Layers(pieces + Chars(t)) == Layers(pieces) + seq(|t|, i => Elements(r))
  {
    hide Render, OpenElements, Text, Layers, EscapeChar, Escape, Elements;
    if t == "" {
      assert pieces + Chars(t) == pieces;
      EscapeEmpty();
    } else {
      var front, c := t[..|t| - 1], t[|t| - 1];
      assert t == front + [c];
      EmitText(pieces, front, r);
      assert pieces + Chars(t) == (pieces + Chars(front)) + [Char(c)];
      EmitOne(pieces + Chars(front), Char(c));
      EscapeConcat(front, [c]);
      EscapeOne(c);
      RenderOne(Char(c));
    }
  }

  lemma RenderOne(p: Piece)
    ensures p.Open? ==> Render([p]) == OpenTag(p.node)
    ensures p.Close? ==> Render([p]) == CloseTag(p.node)
    ensures p.Char? ==> Render([p]) == EscapeChar(p.c)
  {
    assert [p][..0] == [];
  }

  lemma {:induction false} LayersPerCharacter(pieces: seq<Piece>)
    ensures |Layers(pieces)| == |Text(pieces)|
  {
    if pieces != [] { LayersPerCharacter(pieces[..|pieces| - 1]); }
  }

  // The markup so far: the text y, the pieces it renders, and the stack of open elements.
  ghost predicate Emitted(y: string, pieces: seq<Piece>, r: seq<Node>) {
    y == Render(pieces) && OpenElements(pieces) == Some(r)
  }

  lemma TakenOut(r: seq<Node>, q: nat)
    requires q < |r| && Distinct(r)
    ensures
      var left := r[..q] + r[q + 1..];
      left[..q] == r[..q] && Distinct(left) && forall m :: m in left <==> m in r && m != r[q]
  {
    assert r == r[..q] + [r[q]] + r[q + 1..];
  }

  lemma LastIsNew(r: seq<Node>, q: nat)
    requires q < |r| && Distinct(r)
    ensures r[q] !in r[..q] && r[..q + 1] == r[..q] + [r[q]]
  {}

  // Emitting a tag.
  lemma EmitTag(y: string, pieces: seq<Piece>, r: seq<Node>, p: Piece, next: seq<Node>)
    requires Emitted(y, pieces, r) && !p.Char? && AfterPiece(r, p) == Some(next)
    ensures Emitted(y + (if p.Open? then OpenTag(p.node) else CloseTag(p.node)), pieces + [p], next)
    ensures Text(pieces + [p]) == Text(pieces) && Layers(pieces + [p]) == Layers(pieces)
  {
    hide Render, OpenElements, Text, Layers, OpenTag, CloseTag;
    EmitOne(pieces, p);
    RenderOne(p);
  }

  // The tags that close the elements of r, the last first, and those that open them.
  function Closing(r: seq<Node>): seq<Piece> {
    if r == [] then [] else [Close(r[|r| - 1])] + Closing(r[..|r| - 1])
  }

  function Opening(r: seq<Node>): seq<Piece> { seq(|r|, i requires 0 <= i < |r| => Open(r[i])) }

  lemma ClosedOne(r: seq<Node>, q: nat)
    requires q < |r|
    ensures Closing(r[q + 1..]) + [Close(r[q])] == Closing(r[q..])
    decreases |r|
  {
    if q + 1 < |r| {
      ClosedOne(r[..|r| - 1], q);
      assert r[..|r| - 1][q..] == r[q..][..|r| - q - 1] && r[..|r| - 1][q + 1..] == r[q + 1..][..|r| - q - 2];
    }
  }

  /** A stop event: close down to n, drop n, and reopen what was above it, in its order. */
  method StopElement(r: seq<Node>, n: Node, y: string, ghost pieces: seq<Piece>)
      returns (left: seq<Node>, y': string, ghost pieces': seq<Piece>)
    requires n in r && Distinct(r) && Emitted(y, pieces, r)
    ensures Emitted(y', pieces', left) && Distinct(left)
    ensures exists q :: (
      && 0 <= q < |r| && r[q] == n && left == r[..q] + r[q + 1..]
      && pieces' == pieces + Closing(r[q..]) + Opening(r[q + 1..]))
    ensures forall m :: m in left <==> m in r && m != n
    ensures Text(pieces') == Text(pieces) && Layers(pieces') == Layers(pieces)
  {
    hide Render, OpenElements, Text, Layers, OpenTag, CloseTag, Distinct, Emitted, Closing;
    var q := |r| - 1;
    y', pieces' := y, pieces;
    EmitTag(y', pieces', r, Close(r[q]), r[..q]);
    y', pieces' := y' + CloseTag(r[q]), pieces' + [Close(r[q])];
    assert r[..q + 1] == r;
    ClosedOne(r, q);
    NothingClosed();
    assert r[q + 1..] == [] && pieces + [] + [Close(r[q])] == pieces + ([] + [Close(r[q])]);
    while r[q] != n
      invariant 0 <= q < |r| && n in r[..q + 1]
      invariant Emitted(y', pieces', r[..q])
      invariant pieces' == pieces + Closing(r[q..])
      invariant Text(pieces') == Text(pieces) && Layers(pieces') == Layers(pieces)
      decreases q
    {
      q := q - 1;
      assert r[..q + 1][..q] == r[..q];
      EmitTag(y', pieces', r[..q + 1], Close(r[q]), r[..q]);
      y', pieces' := y' + CloseTag(r[q]), pieces' + [Close(r[q])];
      ClosedOne(r, q);
    }
    left := r[..q] + r[q + 1..];
    TakenOut(r, q);
    ghost var at, closed := q, pieces';
    assert closed == closed + Opening(left[at..at]);
    while q < |left|
      invariant at <= q <= |left|
      invariant Emitted(y', pieces', left[..q])
      invariant pieces' == closed + Opening(left[at..q])
      invariant Text(pieces') == Text(pieces) && Layers(pieces') == Layers(pieces)
    {
      LastIsNew(left, q);
      EmitTag(y', pieces', left[..q], Open(left[q]), left[..q + 1]);
      y', pieces' := y' + OpenTag(left[q]), pieces' + [Open(left[q])];
      assert Opening(left[at..q + 1]) == Opening(left[at..q]) + [Open(left[q])];
      q := q + 1;
    }
    assert left[..q] == left && left[at..q] == r[at + 1..];
  }

  lemma NothingClosed()
    ensures Closing([]) == []
  {}

  // ---------- the order of the events, and what they make ----------

  // An event of the first stream or of the second.
  datatype Place = InX(at: nat) | InV(at: nat)

  // Event b of v comes before event a of x: at a lower offset, or at the same one if v starts nothing there before or
  // with b.
  ghost predicate VFirst(x: seq<Event>, v: seq<Event>, a: nat, b: nat)
    requires a < |x| && b < |v|
  {
    || v[b].offset < x[a].offset
    || (v[b].offset == x[a].offset && forall c :: 0 <= c <= b && v[c].offset == v[b].offset ==> v[c].Stop?)
  }

  predicate IsPlace(x: seq<Event>, v: seq<Event>, p: Place) {
    match p
    case InX(a) => a < |x|
    case InV(b) => b < |v|
  }

  ghost predicate Precedes(x: seq<Event>, v: seq<Event>, p: Place, q: Place)
    requires IsPlace(x, v, p) && IsPlace(x, v, q)
  {
    match (p, q)
    case (InX(a), InX(b)) => a < b
    case (InV(a), InV(b)) => a < b
    case (InX(a), InV(b)) => !VFirst(x, v, a, b)
    case (InV(b), InX(a)) => VFirst(x, v, a, b)
  }

  // The first i events of x and the first j of v, each before those that come after it.
  ghost predicate InOrder(o: seq<Place>, x: seq<Event>, v: seq<Event>, i: nat, j: nat) {
    && i <= |x| && j <= |v|
    && (forall p :: p in o <==> if p.InX? then p.at < i else p.at < j)
    && (forall k, l :: 0 <= k < l < |o| ==> Precedes(x, v, o[k], o[l]))
  }

  /** The order in which the merger takes all events of both streams. */
  ghost predicate IsOrder(o: seq<Place>, x: seq<Event>, v: seq<Event>) { InOrder(o, x, v, |x|, |v|) }

  function EventAt(x: seq<Event>, v: seq<Event>, p: Place): Event
    requires IsPlace(x, v, p)
  {
    match p
    case InX(a) => x[a]
    case InV(b) => v[b]
  }

  function Events(x: seq<Event>, v: seq<Event>, o: seq<Place>): (e: seq<Event>)
    requires forall p :: p in o ==> IsPlace(x, v, p)
  {
    seq(|o|, k requires 0 <= k < |o| => EventAt(x, v, o[k]))
  }

  // What has not been taken comes after what has.
  ghost predicate TakenFirst(x: seq<Event>, v: seq<Event>, i: nat, j: nat)
    requires i <= |x| && j <= |v|
  {
    && (forall a, b :: 0 <= a < i && j <= b < |v| ==> !VFirst(x, v, a, b))
    && (forall a, b :: i <= a < |x| && 0 <= b < j ==> VFirst(x, v, a, b))
  }

  lemma OrderGrows(x: seq<Event>, v: seq<Event>, o: seq<Place>, i: nat, j: nat, first: bool)
    requires InOrder(o, x, v, i, j) && TakenFirst(x, v, i, j)
    requires if first then i < |x| else j < |v|
    ensures
      var p := if first then InX(i) else InV(j);
      && InOrder(o + [p], x, v, if first then i + 1 else i, if first then j else j + 1)
      && Events(x, v, o + [p]) == Events(x, v, o) + [if first then x[i] else v[j]]
  {
    hide VFirst;
    var p := if first then InX(i) else InV(j);
    assert forall q :: q in o + [p] <==> q in o || q == p;
  }

  // t(): at the same offset the head of v goes first only if it is a stop event.
  predicate TakesFirst(x: seq<Event>, v: seq<Event>)
    requires x != [] || v != []
  {
    if x != [] && v != [] then
      if x[0].offset != v[0].offset then x[0].offset < v[0].offset else v[0].Start?
    else x != []
  }

  lemma HeadIsNext(x: seq<Event>, v: seq<Event>, i: nat, j: nat)
    requires Sorted(x) && Sorted(v) && i <= |x| && j <= |v| && (i < |x| || j < |v|) && TakenFirst(x, v, i, j)
    ensures
      var first := TakesFirst(x[i..], v[j..]);
      && (if first then i < |x| else j < |v|)
      && TakenFirst(x, v, if first then i + 1 else i, if first then j else j + 1)
  {
    if TakesFirst(x[i..], v[j..]) {
      forall b | j <= b < |v| ensures !VFirst(x, v, i, b) {}
    } else {
      forall a | i <= a < |x| ensures VFirst(x, v, a, j) {
        if v[j].offset == x[a].offset {
          forall c | 0 <= c < j && v[c].offset == v[j].offset ensures v[c].Stop? {
            assert VFirst(x, v, a, c);
          }
        }
      }
    }
  }

  /** The elements that events leave open, in the order in which they started. */
  ghost function OpenAfter(e: seq<Event>): seq<Node> {
    if e == [] then []
    else
      var r, u := OpenAfter(e[..|e| - 1]), e[|e| - 1];
      if u.Start? then r + [u.node] else if u.node in r then r[..Depth(r, u.node)] + r[Depth(r, u.node) + 1..] else r
  }

  ghost function Depth(r: seq<Node>, n: Node): (q: nat)
    requires n in r
    ensures q < |r| && r[q] == n
  {
    var q :| 0 <= q < |r| && r[q] == n;
    q
  }

  // The tags that an event makes, in elements r.
  ghost function Tags(r: seq<Node>, u: Event): seq<Piece> {
    if u.Start? then [Open(u.node)]
    else if u.node in r then Closing(r[Depth(r, u.node)..]) + Opening(r[Depth(r, u.node) + 1..])
    else []
  }

  // How much of the text is in front of the last event.
  function At(e: seq<Event>): nat { if e == [] then 0 else e[|e| - 1].offset }

  function Part(w: string, from: nat, to: nat): string { if from <= to <= |w| then w[from..to] else "" }

  // The markup that events make, up to the last one.
  ghost function Written(e: seq<Event>, w: string): seq<Piece> {
    if e == [] then []
    else
      var front, u := e[..|e| - 1], e[|e| - 1];
      Written(front, w) + Chars(Part(w, At(front), u.offset)) + Tags(OpenAfter(front), u)
  }

  /** The markup that events make of the text w. */
  ghost function Markup(e: seq<Event>, w: string): seq<Piece> { Written(e, w) + Chars(Part(w, At(e), |w|)) }

  lemma WrittenNext(e: seq<Event>, u: Event, w: string)
    ensures Written(e + [u], w) == Written(e, w) + Chars(Part(w, At(e), u.offset)) + Tags(OpenAfter(e), u)
    ensures At(e + [u]) == u.offset
    ensures u.Start? ==> OpenAfter(e + [u]) == OpenAfter(e) + [u.node]
    ensures u.Stop? && u.node in OpenAfter(e) ==>
      var r := OpenAfter(e); var q := Depth(r, u.node); OpenAfter(e + [u]) == r[..q] + r[q + 1..]
  {
    assert (e + [u])[..|e|] == e;
  }

  lemma DepthIsUnique(r: seq<Node>, q: nat)
    requires q < |r| && Distinct(r)
    ensures Depth(r, r[q]) == q
  {}

  lemma WrittenStart(e: seq<Event>, u: Event, w: string, pieces: seq<Piece>, r: seq<Node>)
    requires pieces == Written(e, w) && r == OpenAfter(e) && At(e) <= u.offset <= |w| && u.Start?
    ensures Written(e + [u], w) == pieces + Chars(w[At(e)..u.offset]) + [Open(u.node)] && At(e + [u]) == u.offset
    ensures OpenAfter(e + [u]) == r + [u.node]
  {
    hide Written, OpenAfter;
    WrittenNext(e, u, w);
  }

  lemma WrittenStop(e: seq<Event>, u: Event, w: string, pieces: seq<Piece>, r: seq<Node>, q: nat)
    requires pieces == Written(e, w) && r == OpenAfter(e) && At(e) <= u.offset <= |w| && u.Stop?
    requires Distinct(r) && q < |r| && r[q] == u.node
    ensures Written(e + [u], w) == pieces + Chars(w[At(e)..u.offset]) + Closing(r[q..]) + Opening(r[q + 1..])
    ensures OpenAfter(e + [u]) == r[..q] + r[q + 1..] && At(e + [u]) == u.offset
  {
    hide Written, OpenAfter, Closing, Opening;
    WrittenNext(e, u, w);
    DepthIsUnique(r, q);
    var text := pieces + Chars(w[At(e)..u.offset]);
    assert text + (Closing(r[q..]) + Opening(r[q + 1..])) == text + Closing(r[q..]) + Opening(r[q + 1..]);
  }

  // ---------- merging ----------

  // What the merger knows after i events of x and j events of v, at position p of the text.
  ghost predicate Merged(x: seq<Event>, v: seq<Event>, w: string, i: nat, j: nat, p: nat, pieces: seq<Piece>,
                         r: seq<Node>) {
    && i <= |x| && j <= |v| && p <= |w|
    && (forall a :: 0 <= a < i ==> x[a].offset <= p) && (forall a :: i <= a < |x| ==> p <= x[a].offset)
    && (forall b :: 0 <= b < j ==> v[b].offset <= p) && (forall b :: j <= b < |v| ==> p <= v[b].offset)
    && Text(pieces) == w[..p]
    && Distinct(r) && (forall n :: n in r <==> n in Opened(x, i) || n in Opened(v, j))
    && LayersAreCovers(x, v, pieces)
  }

  /** Every character is enclosed by exactly the elements of both streams that cover it. */
  ghost predicate LayersAreCovers(x: seq<Event>, v: seq<Event>, pieces: seq<Piece>) {
    forall k, n :: 0 <= k < |Layers(pieces)| ==> (n in Layers(pieces)[k] <==> Covers(x, n, k) || Covers(v, n, k))
  }

  /** Copying the text up to the next offset keeps the state of the merger. */
  lemma CopyText(x: seq<Event>, v: seq<Event>, w: string, i: nat, j: nat, p: nat, to: nat, pieces: seq<Piece>,
                 r: seq<Node>)
    requires WellFormed(x, w) && WellFormed(v, w) && OpenElements(pieces) == Some(r)
    requires Merged(x, v, w, i, j, p, pieces, r) && p <= to <= |w|
    requires (forall a :: i <= a < |x| ==> to <= x[a].offset) && (forall b :: j <= b < |v| ==> to <= v[b].offset)
    ensures Merged(x, v, w, i, j, to, pieces + Chars(w[p..to]), r)
    ensures OpenElements(pieces + Chars(w[p..to])) == Some(r)
    ensures Render(pieces + Chars(w[p..to])) == Render(pieces) + Escape(w[p..to])
  {
    hide Render, OpenElements, Text, Layers, Escape;
    var t := w[p..to];
    EmitText(pieces, t, r);
    assert w[..p] + t == w[..to];
    LayersPerCharacter(pieces);
    forall k, n | 0 <= k < |Layers(pieces + Chars(t))|
      ensures n in Layers(pieces + Chars(t))[k] <==> Covers(x, n, k) || Covers(v, n, k)
    {
      if k < p {
        assert Layers(pieces + Chars(t))[k] == Layers(pieces)[k];
      } else {
        OpenedCovers(x, w, i, k, n);
        OpenedCovers(v, w, j, k, n);
      }
    }
  }

  lemma OpenedInStream(s: seq<Event>, i: nat, n: Node)
    requires Paired(s) && i <= |s| && n in Opened(s, i)
    ensures exists a :: 0 <= a < |s| && s[a].node == n
  {
    OpenedMeaning(s, i, n);
    var a, b :| StartsAt(s, a, n) && StopsAt(s, b, n) && a < i <= b;
  }

  /** Taking an event that sits at the current position. */
  lemma TakeEvent(x: seq<Event>, v: seq<Event>, w: string, i: nat, j: nat, p: nat, first: bool,
                  pieces: seq<Piece>, r: seq<Node>, pieces': seq<Piece>, r': seq<Node>)
    requires WellFormed(x, w) && WellFormed(v, w) && Disjoint(x, v) && Merged(x, v, w, i, j, p, pieces, r)
    requires if first then i < |x| && x[i].offset == p else j < |v| && v[j].offset == p
    requires Text(pieces') == Text(pieces) && Layers(pieces') == Layers(pieces) && Distinct(r')
    requires var u := if first then x[i] else v[j];
      forall n :: n in r' <==> (if n == u.node then u.Start? else n in r)
    ensures if first then Merged(x, v, w, i + 1, j, p, pieces', r') else Merged(x, v, w, i, j + 1, p, pieces', r')
  {
    hide Text, Layers;
    var u := if first then x[i] else v[j];
    HeadIsOther(x, v, i, j, first);
  }

  lemma HeadIsOther(x: seq<Event>, v: seq<Event>, i: nat, j: nat, first: bool)
    requires Paired(x) && Paired(v) && Disjoint(x, v) && i <= |x| && j <= |v|
    requires if first then i < |x| else j < |v|
    ensures first ==> x[i].node !in Opened(v, j) && (x[i].Stop? <==> x[i].node in Opened(x, i))
    ensures !first ==> v[j].node !in Opened(x, i) && (v[j].Stop? <==> v[j].node in Opened(v, j))
  {
    if first {
      NextEvent(x, i);
      if x[i].node in Opened(v, j) { OpenedInStream(v, j, x[i].node); }
    } else {
      NextEvent(v, j);
      if v[j].node in Opened(x, i) { OpenedInStream(x, i, v[j].node); }
    }
  }

  /** The chosen head is not later than any event left, and is a stop exactly when its element is open. */
  lemma ChosenHead(x: seq<Event>, v: seq<Event>, w: string, i: nat, j: nat, p: nat, pieces: seq<Piece>, r: seq<Node>)
    requires WellFormed(x, w) && WellFormed(v, w) && Disjoint(x, v) && Merged(x, v, w, i, j, p, pieces, r)
    requires i < |x| || j < |v|
    ensures
      var first := TakesFirst(x[i..], v[j..]);
      && (if first then i < |x| else j < |v|)
      && var u := if first then x[i] else v[j];
      && p <= u.offset <= |w| && (u.Stop? <==> u.node in r)
      && (forall a :: i <= a < |x| ==> u.offset <= x[a].offset)
      && (forall b :: j <= b < |v| ==> u.offset <= v[b].offset)
  {
    hide Text, Layers;
    HeadIsOther(x, v, i, j, TakesFirst(x[i..], v[j..]));
  }

  lemma FirstIsIn(r: seq<Node>)
    ensures r != [] ==> r[0] in r
  {}

  lemma NothingLeftOpen(x: seq<Event>, v: seq<Event>, w: string, p: nat, pieces: seq<Piece>, r: seq<Node>)
    requires WellFormed(x, w) && WellFormed(v, w) && Merged(x, v, w, |x|, |v|, p, pieces, r)
    ensures r == [] && p <= |w|
  {
    hide Text, Layers;
    OpenedAtEnd(x);
    OpenedAtEnd(v);
    FirstIsIn(r);
  }

  lemma MergedParts(x: seq<Event>, v: seq<Event>, w: string, i: nat, j: nat, p: nat, pieces: seq<Piece>, r: seq<Node>)
    requires Merged(x, v, w, i, j, p, pieces, r)
    ensures i <= |x| && j <= |v| && p <= |w| && Distinct(r) && Text(pieces) == w[..p]
    ensures LayersAreCovers(x, v, pieces)
  {}

  lemma PushIsEmitted(y: string, pieces: seq<Piece>, r: seq<Node>, n: Node)
    requires Emitted(y, pieces, r) && Distinct(r) && n !in r
    ensures Emitted(y + OpenTag(n), pieces + [Open(n)], r + [n]) && Distinct(r + [n])
    ensures Text(pieces + [Open(n)]) == Text(pieces) && Layers(pieces + [Open(n)]) == Layers(pieces)
  {
    hide Render, OpenElements, Text, Layers;
    EmitOne(pieces, Open(n));
    RenderOne(Open(n));
  }

  // The text up to the chosen head is copied.
  lemma HeadReached(x: seq<Event>, v: seq<Event>, w: string, i: nat, j: nat, p: nat, y: string, pieces: seq<Piece>,
                    r: seq<Node>)
    requires WellFormed(x, w) && WellFormed(v, w) && Disjoint(x, v) && Merged(x, v, w, i, j, p, pieces, r)
    requires Emitted(y, pieces, r)
    requires i < |x| || j < |v|
    ensures
      var first := TakesFirst(x[i..], v[j..]);
      && (if first then i < |x| else j < |v|) && i <= |x| && j <= |v|
      && var u := if first then x[i] else v[j];
      && p <= u.offset <= |w| && (u.Stop? <==> u.node in r) && Distinct(r)
      && Merged(x, v, w, i, j, u.offset, pieces + Chars(w[p..u.offset]), r)
      && Emitted(y + Escape(w[p..u.offset]), pieces + Chars(w[p..u.offset]), r)
  {
    hide Render, OpenElements, Text, Layers, Escape, Merged, WellFormed, Disjoint, LayersAreCovers;
    ChosenHead(x, v, w, i, j, p, pieces, r);
    MergedParts(x, v, w, i, j, p, pieces, r);
    var u := if TakesFirst(x[i..], v[j..]) then x[i] else v[j];
    CopyText(x, v, w, i, j, p, u.offset, pieces, r);
  }

  lemma NothingMerged(x: seq<Event>, v: seq<Event>, w: string)
    ensures Merged(x, v, w, 0, 0, 0, [], []) && Emitted("", [], [])
  {}

  lemma EndReached(x: seq<Event>, v: seq<Event>, w: string, p: nat, y: string, pieces: seq<Piece>, r: seq<Node>)
    requires WellFormed(x, w) && WellFormed(v, w) && Merged(x, v, w, |x|, |v|, p, pieces, r) && Emitted(y, pieces, r)
    ensures p <= |w| && IsMarkup(y + Escape(w[p..]), pieces + Chars(w[p..]), x, v, w)
  {
    hide Render, OpenElements, Text, Layers, Escape, Merged, LayersAreCovers;
    NothingLeftOpen(x, v, w, p, pieces, r);
    CopyText(x, v, w, |x|, |v|, p, |w|, pieces, r);
    assert w[p..] == w[p..|w|] && w[..|w|] == w;
    MergedParts(x, v, w, |x|, |v|, |w|, pieces + Chars(w[p..|w|]), r);
  }

  // The markup is that of the events taken, in their order.
  ghost predicate Follows(x: seq<Event>, v: seq<Event>, w: string, o: seq<Place>, i: nat, j: nat, p: nat,
                          pieces: seq<Piece>, r: seq<Node>) {
    && InOrder(o, x, v, i, j) && TakenFirst(x, v, i, j)
    && var e := Events(x, v, o); pieces == Written(e, w) && p == At(e) && r == OpenAfter(e)
  }

  lemma NothingFollows(x: seq<Event>, v: seq<Event>, w: string)
    ensures Follows(x, v, w, [], 0, 0, 0, [], [])
  {}

  // Taking the chosen head: the text up to it, and its tags.
  lemma FollowsNext(x: seq<Event>, v: seq<Event>, w: string, o: seq<Place>, i: nat, j: nat, p: nat,
                    pieces: seq<Piece>, r: seq<Node>, pieces': seq<Piece>, r': seq<Node>)
    requires Sorted(x) && Sorted(v) && (i < |x| || j < |v|) && Follows(x, v, w, o, i, j, p, pieces, r) && Distinct(r)
    requires i <= |x| && j <= |v|
    requires
      var first := TakesFirst(x[i..], v[j..]);
      && (if first then i < |x| else j < |v|)
      && var u := if first then x[i] else v[j];
      && p <= u.offset <= |w|
      && (u.Start? ==> pieces' == pieces + Chars(w[p..u.offset]) + [Open(u.node)] && r' == r + [u.node])
      && (u.Stop? ==> exists q :: (
        && 0 <= q < |r| && r[q] == u.node && r' == r[..q] + r[q + 1..]
        && pieces' == pieces + Chars(w[p..u.offset]) + Closing(r[q..]) + Opening(r[q + 1..])))
    ensures
      var first := TakesFirst(x[i..], v[j..]);
      && (if first then i < |x| else j < |v|)
      && Follows(x, v, w, o + [if first then InX(i) else InV(j)], if first then i + 1 else i,
        if first then j else j + 1, (if first then x[i] else v[j]).offset, pieces', r')
  {
    hide Written, OpenAfter, TakesFirst, TakenFirst, Precedes, VFirst, Closing, Distinct, EventAt, At, Sorted;
    var first := TakesFirst(x[i..], v[j..]);
    var u := if first then x[i] else v[j];
    HeadIsNext(x, v, i, j);
    OrderGrows(x, v, o, i, j, first);
    if u.Start? {
      WrittenStart(Events(x, v, o), u, w, pieces, r);
    } else {
      var q :| (
        && 0 <= q < |r| && r[q] == u.node && r' == r[..q] + r[q + 1..]
        && pieces' == pieces + Chars(w[p..u.offset]) + Closing(r[q..]) + Opening(r[q + 1..]));
      WrittenStop(Events(x, v, o), u, w, pieces, r, q);
    }
  }

  // y is markup for the text w, in which every character is enclosed by exactly the elements that cover it.
  ghost predicate IsMarkup(y: string, pieces: seq<Piece>, x: seq<Event>, v: seq<Event>, w: string) {
    y == Render(pieces) && Balanced(pieces) && Text(pieces) == w && LayersAreCovers(x, v, pieces)
  }

  // y is the markup that the events of both streams make of w in their order.
  ghost predicate IsMerged(y: string, o: seq<Place>, x: seq<Event>, v: seq<Event>, w: string) {
    IsOrder(o, x, v) && IsMarkup(y, Markup(Events(x, v, o), w), x, v, w)
  }

  lemma AllFollows(x: seq<Event>, v: seq<Event>, w: string, o: seq<Place>, p: nat, y: string, pieces: seq<Piece>,
                   r: seq<Node>)
    requires Follows(x, v, w, o, |x|, |v|, p, pieces, r) && p <= |w|
    requires IsMarkup(y, pieces + Chars(w[p..]), x, v, w)
    ensures IsMerged(y, o, x, v, w)
  {
    hide IsMarkup, Written, OpenAfter;
    assert w[p..] == w[p..|w|];
  }

  /** The merger: for two streams of paired events with non-decreasing offsets within the text
      and no element in common, the output is the markup that the events make in their order: balanced, its text is w,
      and every character is enclosed by exactly the elements whose span covers it. */
  method Merge(x: seq<Event>, v: seq<Event>, w: string) returns (y: string)
    requires WellFormed(x, w) && WellFormed(v, w) && Disjoint(x, v)
    ensures exists o :: IsMerged(y, o, x, v, w)
  {
    hide Render, OpenElements, Text, Layers, Escape, OpenTag, Emitted, Distinct, Merged, Disjoint, Sorted, Paired,
      IsMarkup, TakesFirst, Follows, IsMerged, Closing;
    var xs, vs, p: nat, r: seq<Node> := x, v, 0, [];
    ghost var pieces: seq<Piece>, o: seq<Place> := [], [];
    y := "";
    ghost var i: nat, j: nat := 0, 0;
    NothingMerged(x, v, w);
    NothingFollows(x, v, w);
    while |xs| > 0 || |vs| > 0
      invariant i <= |x| && j <= |v| && xs == x[i..] && vs == v[j..]
      invariant Merged(x, v, w, i, j, p, pieces, r) && Emitted(y, pieces, r)
      invariant Follows(x, v, w, o, i, j, p, pieces, r)
      decreases |xs| + |vs|
    {
      HeadReached(x, v, w, i, j, p, y, pieces, r);
      var first := TakesFirst(xs, vs);
      var u := if first then xs[0] else vs[0];
      ghost var from, place := pieces, p;
      y, pieces := y + Escape(w[p..u.offset]), pieces + Chars(w[p..u.offset]);
      p := u.offset;
      ghost var before, stack := pieces, r;
      if u.Start? {
        PushIsEmitted(y, pieces, r, u.node);
        y, pieces, r := y + OpenTag(u.node), pieces + [Open(u.node)], r + [u.node];
      } else {
        r, y, pieces := StopElement(r, u.node, y, pieces);
      }
      FollowsNext(x, v, w, o, i, j, place, from, stack, pieces, r);
      TakeEvent(x, v, w, i, j, p, first, before, stack, pieces, r);
      o := o + [if first then InX(i) else InV(j)];
      if first { xs, i := xs[1..], i + 1; } else { vs, j := vs[1..], j + 1; }
    }
    EndReached(x, v, w, p, y, pieces, r);
    y := y + Escape(w[p..]);
    AllFollows(x, v, w, o, p, y, pieces, r);
  }

  // ---------- how often an element is opened ----------

  // What every beginning of paired events has.
  ghost predicate Proper(e: seq<Event>) {
    && (forall i, j, n :: StartsAt(e, i, n) && StartsAt(e, j, n) ==> i == j)
    && (forall i, j, n :: StopsAt(e, i, n) && StopsAt(e, j, n) ==> i == j)
    && (forall j, n :: StopsAt(e, j, n) ==> exists i :: StartsAt(e, i, n) && i < j)
  }

  ghost predicate Started(e: seq<Event>, n: Node) { exists i :: StartsAt(e, i, n) }

  ghost predicate Stopped(e: seq<Event>, n: Node) { exists i :: StopsAt(e, i, n) }

  ghost predicate StartedLater(e: seq<Event>, n: Node, m: Node) {
    exists i, j :: StartsAt(e, i, m) && StartsAt(e, j, n) && i < j
  }

  // The stop of m after these events cuts n: n is open and was started later.
  ghost predicate CutBy(e: seq<Event>, n: Node, m: Node) {
    Started(e, n) && !Stopped(e, n) && StartedLater(e, n, m)
  }

  // How often events cut n.
  ghost function Cuts(e: seq<Event>, n: Node): nat {
    if e == [] then 0
    else
      var front, u := e[..|e| - 1], e[|e| - 1];
      Cuts(front, n) + if u.Stop? && CutBy(front, n, u.node) then 1 else 0
  }

  lemma ProperFront(e: seq<Event>)
    requires Proper(e) && e != []
    ensures
      var front, u := e[..|e| - 1], e[|e| - 1];
      && Proper(front)
      && (forall n :: Started(e, n) <==> Started(front, n) || (u.Start? && n == u.node))
      && (forall n :: Stopped(e, n) <==> Stopped(front, n) || (u.Stop? && n == u.node))
      && (u.Start? ==> !Started(front, u.node) && !Stopped(front, u.node))
      && (u.Stop? ==> Started(front, u.node) && !Stopped(front, u.node))
  {
    var front, u, k := e[..|e| - 1], e[|e| - 1], |e| - 1;
    assert forall i, n :: StartsAt(e, i, n) <==> StartsAt(front, i, n) || (i == k && u.Start? && n == u.node);
    assert forall i, n :: StopsAt(e, i, n) <==> StopsAt(front, i, n) || (i == k && u.Stop? && n == u.node);
    assert if u.Start? then StartsAt(e, k, u.node) else StopsAt(e, k, u.node);
    assert forall i, n :: StartsAt(front, i, n) || StopsAt(front, i, n) ==> i < k;
  }

  // The stack has what is open, in the order of the starts.
  ghost predicate IsStack(e: seq<Event>, r: seq<Node>) {
    && Distinct(r) && (forall n :: n in r <==> Started(e, n) && !Stopped(e, n))
    && (forall k, l :: 0 <= k < l < |r| ==> StartedLater(e, r[l], r[k]))
  }

  lemma LaterStays(e: seq<Event>, u: Event, n: Node, m: Node)
    requires StartedLater(e, n, m)
    ensures StartedLater(e + [u], n, m)
  {
    var i, j :| StartsAt(e, i, m) && StartsAt(e, j, n) && i < j;
    assert StartsAt(e + [u], i, m) && StartsAt(e + [u], j, n);
  }

  lemma NewIsLater(e: seq<Event>, u: Event, m: Node)
    requires Started(e, m) && u.Start?
    ensures StartedLater(e + [u], u.node, m)
  {
    var i :| StartsAt(e, i, m);
    assert StartsAt(e + [u], i, m) && StartsAt(e + [u], |e|, u.node);
  }

  lemma LaterOneWay(e: seq<Event>, n: Node, m: Node)
    requires Proper(e) && StartedLater(e, n, m)
    ensures !StartedLater(e, m, n)
  {
    var i, j :| StartsAt(e, i, m) && StartsAt(e, j, n) && i < j;
  }

  lemma {:induction false} OpenIsStack(e: seq<Event>)
    requires Proper(e)
    ensures IsStack(e, OpenAfter(e))
  {
    if e != [] {
      var front, u := e[..|e| - 1], e[|e| - 1];
      ProperFront(e);
      OpenIsStack(front);
      assert e == front + [u];
      StackNext(front, u, OpenAfter(front), OpenAfter(e));
    }
  }

  lemma StackNext(e: seq<Event>, u: Event, r: seq<Node>, r': seq<Node>)
    requires IsStack(e, r)
    requires u.Start? ==> !Started(e, u.node) && !Stopped(e, u.node) && r' == r + [u.node]
    requires u.Stop? ==> Started(e, u.node) && !Stopped(e, u.node)
    requires u.Stop? && u.node in r ==> r' == r[..Depth(r, u.node)] + r[Depth(r, u.node) + 1..]
    requires forall n :: Started(e + [u], n) <==> Started(e, n) || (u.Start? && n == u.node)
    requires forall n :: Stopped(e + [u], n) <==> Stopped(e, n) || (u.Stop? && n == u.node)
    ensures IsStack(e + [u], r')
  {
    hide Started, Stopped, StartedLater;
    var q: nat := |r|;
    if u.Stop? {
      q := Depth(r, u.node);
      TakenOut(r, q);
    }
    forall k, l | 0 <= k < l < |r'| ensures StartedLater(e + [u], r'[l], r'[k]) {
      if u.Start? && l == |r| {
        assert r[k] in r;
        NewIsLater(e, u, r[k]);
      } else {
        LaterStays(e, u, r'[l], r'[k]);
      }
    }
  }

  lemma {:induction false} ClosingHas(r: seq<Node>, n: Node)
    ensures multiset(Closing(r))[Open(n)] == 0 && multiset(Closing(r))[Close(n)] == multiset(r)[n]
  {
    if r != [] {
      ClosingHas(r[..|r| - 1], n);
      assert r == r[..|r| - 1] + [r[|r| - 1]];
    }
  }

  lemma {:induction false} OpeningHas(r: seq<Node>, n: Node)
    ensures multiset(Opening(r))[Open(n)] == multiset(r)[n] && multiset(Opening(r))[Close(n)] == 0
  {
    if r != [] {
      OpeningHas(r[..|r| - 1], n);
      assert r == r[..|r| - 1] + [r[|r| - 1]];
      assert Opening(r) == Opening(r[..|r| - 1]) + [Open(r[|r| - 1])];
    }
  }

  lemma CharsHave(t: string, n: Node)
    ensures multiset(Chars(t))[Open(n)] == 0 && multiset(Chars(t))[Close(n)] == 0
  {
    assert Open(n) !in Chars(t) && Close(n) !in Chars(t);
  }

  lemma DistinctOnce(r: seq<Node>, n: Node)
    requires Distinct(r)
    ensures multiset(r)[n] == if n in r then 1 else 0
  {
    if n in r {
      var q := Depth(r, n);
      assert r == r[..q] + [n] + r[q + 1..];
      assert n !in r[..q] && n !in r[q + 1..];
    }
  }

  // What is above m on the stack is what its stop cuts.
  lemma AboveIsCut(e: seq<Event>, r: seq<Node>, m: Node, n: Node)
    requires Proper(e) && IsStack(e, r) && m in r
    ensures n in r[Depth(r, m) + 1..] <==> CutBy(e, n, m)
  {
    hide Started, Stopped, StartedLater, Proper;
    var q := Depth(r, m);
    if n in r[q + 1..] {
      assert n == r[q + 1 + Depth(r[q + 1..], n)];
    }
    if CutBy(e, n, m) {
      LaterOneWay(e, n, m);
      var k := Depth(r, n);
      assert k > q;
      assert r[q + 1..][k - q - 1] == n;
    }
  }

  // A stop reopens exactly what it cuts.
  lemma TagsHave(e: seq<Event>, u: Event, r: seq<Node>, n: Node)
    requires Proper(e) && IsStack(e, r) && u.Stop? && Started(e, u.node) && !Stopped(e, u.node)
    ensures multiset(Tags(r, u))[Open(n)] == if CutBy(e, n, u.node) then 1 else 0
    ensures multiset(Tags(r, u))[Close(n)] == if n == u.node || CutBy(e, n, u.node) then 1 else 0
  {
    hide Started, Stopped, StartedLater, Proper, Closing, Opening;
    var q := Depth(r, u.node);
    var above := r[q + 1..];
    ClosingHas(r[q..], n);
    OpeningHas(above, n);
    DistinctOnce(r[q..], n);
    DistinctOnce(above, n);
    AboveIsCut(e, r, u.node, n);
    assert n in r[q..] <==> n == u.node || n in above by { assert r[q..] == [u.node] + above; }
  }

  /** An element is opened when it starts, and once more at every stop, while it is open, of an element that was
      started before it; it is closed as often, but for the last time while it is open. */
  lemma {:induction false} OpenedAtCuts(e: seq<Event>, w: string, n: Node)
    requires Proper(e)
    ensures multiset(Written(e, w))[Open(n)] == (if Started(e, n) then 1 else 0) + Cuts(e, n)
    ensures multiset(Written(e, w))[Close(n)] == (if Stopped(e, n) then 1 else 0) + Cuts(e, n)
  {
    if e != [] {
      hide Started, Stopped, CutBy, Tags, Proper, IsStack;
      var front, u := e[..|e| - 1], e[|e| - 1];
      assert e == front + [u];
      ProperFront(e);
      OpenedAtCuts(front, w, n);
      OpenIsStack(front);
      CharsHave(Part(w, At(front), u.offset), n);
      if u.Start? {
        TagsOfStart(OpenAfter(front), u);
      } else {
        TagsHave(front, u, OpenAfter(front), n);
      }
    }
  }

  lemma PlacesDiffer(x: seq<Event>, v: seq<Event>, o: seq<Place>, k: nat, l: nat)
    requires IsOrder(o, x, v) && k < |o| && l < |o| && o[k] == o[l]
    ensures k == l
  {}

  lemma PlaceTaken(x: seq<Event>, v: seq<Event>, o: seq<Place>, p: Place) returns (k: nat)
    requires IsOrder(o, x, v) && IsPlace(x, v, p)
    ensures k < |o| && o[k] == p
  {
    hide VFirst, Precedes;
    assert p in o;
    k :| k < |o| && o[k] == p;
  }

  // An event of the merged order is one of its stream, and the streams have no element in common.
  lemma SameStream(x: seq<Event>, v: seq<Event>, o: seq<Place>, k: nat, l: nat)
    requires IsOrder(o, x, v) && Disjoint(x, v) && k < |o| && l < |o|
    requires Events(x, v, o)[k].node == Events(x, v, o)[l].node
    ensures o[k].InX? <==> o[l].InX?
  {
    hide VFirst, Precedes;
  }

  /** The events of both streams in their order are paired again. */
  lemma OrderIsPaired(x: seq<Event>, v: seq<Event>, o: seq<Place>)
    requires Paired(x) && Paired(v) && Disjoint(x, v) && IsOrder(o, x, v)
    ensures Paired(Events(x, v, o))
  {
    hide VFirst, Disjoint, IsOrder, Precedes;
    assert forall p :: p in o ==> IsPlace(x, v, p) by { PlacesAre(x, v, o); }
    var e := Events(x, v, o);
    forall k, l, n | (StartsAt(e, k, n) && StartsAt(e, l, n)) || (StopsAt(e, k, n) && StopsAt(e, l, n))
      ensures k == l
    {
      SameStream(x, v, o, k, l);
      EventOf(x, v, o, k);
      EventOf(x, v, o, l);
      var s := if o[k].InX? then x else v;
      assert (StartsAt(s, o[k].at, n) && StartsAt(s, o[l].at, n)) || (StopsAt(s, o[k].at, n) && StopsAt(s, o[l].at, n));
      PlacesDiffer(x, v, o, k, l);
    }
    forall j, n | StopsAt(e, j, n) ensures exists i :: StartsAt(e, i, n) && i < j {
      EventOf(x, v, o, j);
      var s := if o[j].InX? then x else v;
      assert StopsAt(s, o[j].at, n);
      var a :| StartsAt(s, a, n) && a < o[j].at;
      var i := PlaceTaken(x, v, o, if o[j].InX? then InX(a) else InV(a));
      EarlierPlace(x, v, o, i, j);
      assert StartsAt(e, i, n);
    }
    forall i, n | StartsAt(e, i, n) ensures exists j :: StopsAt(e, j, n) && i < j {
      EventOf(x, v, o, i);
      var s := if o[i].InX? then x else v;
      assert StartsAt(s, o[i].at, n);
      var b :| StopsAt(s, b, n) && o[i].at < b;
      var j := PlaceTaken(x, v, o, if o[i].InX? then InX(b) else InV(b));
      EarlierPlace(x, v, o, i, j);
      assert StopsAt(e, j, n);
    }
  }

  lemma PlacesAre(x: seq<Event>, v: seq<Event>, o: seq<Place>)
    requires IsOrder(o, x, v)
    ensures forall p :: p in o ==> IsPlace(x, v, p)
  {}

  lemma EventOf(x: seq<Event>, v: seq<Event>, o: seq<Place>, k: nat)
    requires k < |o| && forall p :: p in o ==> IsPlace(x, v, p)
    ensures IsPlace(x, v, o[k]) && Events(x, v, o)[k] == (if o[k].InX? then x else v)[o[k].at]
  {
    assert o[k] in o;
  }

  lemma EarlierPlace(x: seq<Event>, v: seq<Event>, o: seq<Place>, i: nat, j: nat)
    requires IsOrder(o, x, v) && i < |o| && j < |o| && o[i].at < o[j].at && (o[i].InX? <==> o[j].InX?)
    ensures i < j
  {}

  lemma StartedInOrder(x: seq<Event>, v: seq<Event>, o: seq<Place>, n: Node)
    requires IsOrder(o, x, v)
    ensures (forall p :: p in o ==> IsPlace(x, v, p)) &&
      (Started(Events(x, v, o), n) <==> Started(x, n) || Started(v, n))
  {
    hide VFirst, IsOrder, Precedes;
    PlacesAre(x, v, o);
    var e := Events(x, v, o);
    if Started(e, n) {
      var k :| StartsAt(e, k, n);
      EventOf(x, v, o, k);
      assert StartsAt(if o[k].InX? then x else v, o[k].at, n);
    }
    if Started(x, n) {
      var a :| StartsAt(x, a, n);
      var k := PlaceTaken(x, v, o, InX(a));
      assert StartsAt(e, k, n);
    }
    if Started(v, n) {
      var b :| StartsAt(v, b, n);
      var k := PlaceTaken(x, v, o, InV(b));
      assert StartsAt(e, k, n);
    }
  }

  lemma {:induction false} OnlyStartedAreCut(e: seq<Event>, n: Node)
    requires Proper(e) && Cuts(e, n) > 0
    ensures Started(e, n)
  {
    hide Started, Stopped, StartedLater, Proper;
    ProperFront(e);
    if Cuts(e[..|e| - 1], n) > 0 { OnlyStartedAreCut(e[..|e| - 1], n); }
  }

  /** In the merger's markup an element has one tag to open it, and one more for each stop of an element started
      before it that comes while it is open; and as many to close it. */
  lemma OpenedAndClosed(x: seq<Event>, v: seq<Event>, w: string, o: seq<Place>, n: Node)
    requires Paired(x) && Paired(v) && Disjoint(x, v) && IsOrder(o, x, v)
    ensures
      var e := Events(x, v, o);
      && multiset(Markup(e, w))[Open(n)] == multiset(Markup(e, w))[Close(n)]
      && multiset(Markup(e, w))[Open(n)] == (if Started(e, n) then 1 else 0) + Cuts(e, n)
  {
    hide VFirst, Disjoint, Cuts, Written, IsOrder;
    PlacesAre(x, v, o);
    var e := Events(x, v, o);
    OrderIsPaired(x, v, o);
    OpenedAtCuts(e, w, n);
    CharsHave(Part(w, At(e), |w|), n);
  }

  lemma TagsOfStart(r: seq<Node>, u: Event)
    requires u.Start?
    ensures Tags(r, u) == [Open(u.node)]
  {}

  // ---------- where the streams come from ----------

  datatype Dom = TextNode(length: nat) | LineBreak | Element(node: Node, children: seq<Dom>) | OtherNode

  function Length(ds: seq<Dom>): nat {
    if ds == [] then 0
    else
      (match ds[0]
       case TextNode(n) => n
       case LineBreak => 1
       case Element(_, children) => Length(children)
       case OtherNode => 0) + Length(ds[1..])
  }

  // The events of the nodes in a list, the text in front of them at being so long.
  function Stream(ds: seq<Dom>, at: nat): seq<Event> {
    if ds == [] then []
    else
      match ds[0]
      case TextNode(n) => Stream(ds[1..], at + n)
      case LineBreak => Stream(ds[1..], at + 1)
      case Element(n, children) =>
        var to := at + Length(children);
        [Start(at, n)] + Stream(children, at) + [Stop(to, n)] + Stream(ds[1..], to)
      case OtherNode => Stream(ds[1..], at)
  }

  function ElementsIn(ds: seq<Dom>): set<Node> {
    if ds == [] then {}
    else (if ds[0].Element? then {ds[0].node} + ElementsIn(ds[0].children) else {}) + ElementsIn(ds[1..])
  }

  // Every element occurs once.
  predicate Once(ds: seq<Dom>) {
    ds == [] || (
      && Once(ds[1..])
      && (ds[0].Element? ==>
        && Once(ds[0].children) && ds[0].node !in ElementsIn(ds[0].children) && ds[0].node !in ElementsIn(ds[1..])
        && ElementsIn(ds[0].children) !! ElementsIn(ds[1..])))
  }

  ghost predicate Between(s: seq<Event>, from: nat, to: nat) {
    Sorted(s) && forall i :: 0 <= i < |s| ==> from <= s[i].offset <= to
  }

  ghost predicate Among(s: seq<Event>, nodes: set<Node>) { forall i :: 0 <= i < |s| ==> s[i].node in nodes }

  lemma PairedConcat(x: seq<Event>, y: seq<Event>, p: set<Node>, q: set<Node>)
    requires Paired(x) && Paired(y) && Among(x, p) && Among(y, q) && p !! q
    ensures Paired(x + y) && Among(x + y, p + q)
  {
    var s := x + y;
    forall i, n | StartsAt(s, i, n) ensures exists j :: StopsAt(s, j, n) && i < j {
      if i < |x| {
        assert StartsAt(x, i, n);
        var j :| StopsAt(x, j, n) && i < j;
        assert StopsAt(s, j, n);
      } else {
        assert StartsAt(y, i - |x|, n);
        var j :| StopsAt(y, j, n) && i - |x| < j;
        assert StopsAt(s, j + |x|, n);
      }
    }
    forall j, n | StopsAt(s, j, n) ensures exists i :: StartsAt(s, i, n) && i < j {
      if j < |x| {
        assert StopsAt(x, j, n);
        var i :| StartsAt(x, i, n) && i < j;
        assert StartsAt(s, i, n);
      } else {
        assert StopsAt(y, j - |x|, n);
        var i :| StartsAt(y, i, n) && i < j - |x|;
        assert StartsAt(s, i + |x|, n);
      }
    }
    forall i, j, n | StartsAt(s, i, n) && StartsAt(s, j, n) ensures i == j { PlaceOf(x, y, p, q, i, j, n); }
    forall i, j, n | StopsAt(s, i, n) && StopsAt(s, j, n) ensures i == j { PlaceOf(x, y, p, q, i, j, n); }
  }

  // Two places of one element, of the same kind, are the same place.
  lemma PlaceOf(x: seq<Event>, y: seq<Event>, p: set<Node>, q: set<Node>, i: int, j: int, n: Node)
    requires Paired(x) && Paired(y) && Among(x, p) && Among(y, q) && p !! q
    requires var s := x + y; (StartsAt(s, i, n) && StartsAt(s, j, n)) || (StopsAt(s, i, n) && StopsAt(s, j, n))
    ensures i == j
  {
    var s := x + y;
    if StartsAt(s, i, n) {
      assert i < |x| ==> StartsAt(x, i, n) && n in p;
      assert j < |x| ==> StartsAt(x, j, n) && n in p;
      assert i >= |x| ==> StartsAt(y, i - |x|, n) && n in q;
      assert j >= |x| ==> StartsAt(y, j - |x|, n) && n in q;
    } else {
      assert i < |x| ==> StopsAt(x, i, n) && n in p;
      assert j < |x| ==> StopsAt(x, j, n) && n in p;
      assert i >= |x| ==> StopsAt(y, i - |x|, n) && n in q;
      assert j >= |x| ==> StopsAt(y, j - |x|, n) && n in q;
    }
  }

  // The events of an element around those of its children.
  lemma EventsOfWrap(x: seq<Event>, n: Node, from: nat, to: nat)
    ensures var s := [Start(from, n)] + x + [Stop(to, n)];
      && (forall i, m :: StartsAt(s, i, m) <==> (i == 0 && m == n) || StartsAt(x, i - 1, m))
      && (forall j, m :: StopsAt(s, j, m) <==> (j == |x| + 1 && m == n) || StopsAt(x, j - 1, m))
  {
    var s := [Start(from, n)] + x + [Stop(to, n)];
    assert forall i :: 0 < i <= |x| ==> s[i] == x[i - 1];
  }

  lemma PairedWrap(x: seq<Event>, nodes: set<Node>, n: Node, from: nat, to: nat)
    requires Paired(x) && Among(x, nodes) && n !in nodes
    ensures Paired([Start(from, n)] + x + [Stop(to, n)]) && Among([Start(from, n)] + x + [Stop(to, n)], {n} + nodes)
  {
    var s := [Start(from, n)] + x + [Stop(to, n)];
    EventsOfWrap(x, n, from, to);
    forall i, m ensures StartsAt(x, i, m) || StopsAt(x, i, m) ==> m in nodes {}
    WrapIsPaired(x, s, nodes, n);
  }

  lemma WrapIsPaired(x: seq<Event>, s: seq<Event>, nodes: set<Node>, n: Node)
    requires Paired(x) && n !in nodes
    requires forall i, m :: StartsAt(s, i, m) <==> (i == 0 && m == n) || StartsAt(x, i - 1, m)
    requires forall j, m :: StopsAt(s, j, m) <==> (j == |x| + 1 && m == n) || StopsAt(x, j - 1, m)
    requires forall i, m :: StartsAt(x, i, m) || StopsAt(x, i, m) ==> m in nodes
    ensures Paired(s)
  {
    hide StartsAt, StopsAt;
    assert StartsAt(s, 0, n) && StopsAt(s, |x| + 1, n);
    forall i, m | StartsAt(s, i, m) ensures exists j :: StopsAt(s, j, m) && i < j {
      if m != n {
        var j :| StopsAt(x, j, m) && i - 1 < j;
        assert StopsAt(s, j + 1, m);
      }
    }
    forall j, m | StopsAt(s, j, m) ensures exists i :: StartsAt(s, i, m) && i < j {
      if m != n {
        var i :| StartsAt(x, i, m) && i < j - 1;
        assert StartsAt(s, i + 1, m);
      }
    }
  }

  lemma BetweenJoin(n: Node, x: seq<Event>, y: seq<Event>, from: nat, to: nat, end: nat)
    requires Between(x, from, to) && Between(y, to, end) && from <= to <= end
    ensures Between([Start(from, n)] + x + [Stop(to, n)] + y, from, end)
  {}

  lemma BetweenLater(x: seq<Event>, from: nat, to: nat, earlier: nat)
    requires Between(x, from, to) && earlier <= from
    ensures Between(x, earlier, to)
  {}

  lemma ElementStream(ds: seq<Dom>, at: nat)
    requires ds != [] && ds[0].Element? && Once(ds)
    requires var c := ds[0].children; Paired(Stream(c, at)) && Among(Stream(c, at), ElementsIn(c))
    requires var to := at + Length(ds[0].children);
      Paired(Stream(ds[1..], to)) && Among(Stream(ds[1..], to), ElementsIn(ds[1..]))
    ensures Paired(Stream(ds, at)) && Among(Stream(ds, at), ElementsIn(ds))
  {
    hide Paired, Among;
    var n, c := ds[0].node, ds[0].children;
    var to := at + Length(c);
    PairedWrap(Stream(c, at), ElementsIn(c), n, at, to);
    var own := [Start(at, n)] + Stream(c, at) + [Stop(to, n)];
    PairedConcat(own, Stream(ds[1..], to), {n} + ElementsIn(c), ElementsIn(ds[1..]));
    assert Stream(ds, at) == own + Stream(ds[1..], to);
  }

  // How much text is in front of the second node of a list.
  function Next(ds: seq<Dom>, at: nat): nat
    requires ds != []
  {
    at + match ds[0]
         case TextNode(n) => n
         case LineBreak => 1
         case Element(_, children) => Length(children)
         case OtherNode => 0
  }

  lemma StreamSplits(ds: seq<Dom>, at: nat)
    requires ds != [] && Once(ds)
    ensures at <= Next(ds, at) && Next(ds, at) + Length(ds[1..]) == at + Length(ds) && Once(ds[1..])
    ensures ds[0].Element? ==> Once(ds[0].children)
    ensures ds[0].Element? ==> (
      Stream(ds, at) ==
        [Start(at, ds[0].node)] + Stream(ds[0].children, at) + [Stop(Next(ds, at), ds[0].node)]
        + Stream(ds[1..], Next(ds, at)))
    ensures !ds[0].Element? ==> Stream(ds, at) == Stream(ds[1..], Next(ds, at)) && ElementsIn(ds) == ElementsIn(ds[1..])
  {}

  /** The stream of a document is well-formed for its text: what the merger asks of its streams. */
  lemma {:induction false} StreamsArePaired(ds: seq<Dom>, at: nat)
    requires Once(ds)
    ensures Paired(Stream(ds, at)) && Among(Stream(ds, at), ElementsIn(ds))
    ensures Between(Stream(ds, at), at, at + Length(ds))
  {
    if ds != [] {
      hide Paired, Among, Between, Stream, Length, ElementsIn, Once;
      StreamSplits(ds, at);
      StreamsArePaired(ds[1..], Next(ds, at));
      if ds[0].Element? {
        StreamsArePaired(ds[0].children, at);
        ElementStream(ds, at);
        BetweenJoin(ds[0].node, Stream(ds[0].children, at), Stream(ds[1..], Next(ds, at)), at, Next(ds, at),
          at + Length(ds));
      } else {
        BetweenLater(Stream(ds[1..], Next(ds, at)), Next(ds, at), at + Length(ds), at);
      }
    }
  }

  lemma StreamIsWellFormed(ds: seq<Dom>, w: string)
    requires Once(ds) && |w| == Length(ds)
    ensures WellFormed(Stream(ds, 0), w)
  {
    StreamsArePaired(ds, 0);
    hide Paired, Sorted;
  }

  /** A document as markup, with its part of the text w. */
  function DocumentMarkup(ds: seq<Dom>, w: string, at: nat): seq<Piece> {
    if ds == [] then []
    else
      match ds[0]
      case TextNode(n) => Chars(Part(w, at, at + n)) + DocumentMarkup(ds[1..], w, at + n)
      case LineBreak => Chars(Part(w, at, at + 1)) + DocumentMarkup(ds[1..], w, at + 1)
      case Element(n, children) =>
        var to := at + Length(children);
        [Open(n)] + DocumentMarkup(children, w, at) + [Close(n)] + DocumentMarkup(ds[1..], w, to)
      case OtherNode => DocumentMarkup(ds[1..], w, at)
  }

  // Behind the events e, the text up to the place of the next.
  ghost function UpTo(e: seq<Event>, w: string, at: nat): seq<Piece> { Written(e, w) + Chars(Part(w, At(e), at)) }

  lemma UpToSplits(e: seq<Event>, w: string, at: nat, to: nat)
    requires At(e) <= at <= to <= |w|
    ensures UpTo(e, w, at) + Chars(Part(w, at, to)) == UpTo(e, w, to)
  {
    assert w[At(e)..at] + w[at..to] == w[At(e)..to];
  }

  lemma StartMarkup(e: seq<Event>, n: Node, w: string, at: nat)
    requires At(e) <= at <= |w|
    ensures UpTo(e + [Start(at, n)], w, at) == UpTo(e, w, at) + [Open(n)]
    ensures OpenAfter(e + [Start(at, n)]) == OpenAfter(e) + [n] && At(e + [Start(at, n)]) == at
  {
    hide Written, OpenAfter;
    WrittenNext(e, Start(at, n), w);
    assert Part(w, at, at) == "";
  }

  lemma StopMarkup(e: seq<Event>, n: Node, w: string, at: nat, r: seq<Node>)
    requires At(e) <= at <= |w| && OpenAfter(e) == r + [n] && n !in r
    ensures UpTo(e + [Stop(at, n)], w, at) == UpTo(e, w, at) + [Close(n)]
    ensures OpenAfter(e + [Stop(at, n)]) == r && At(e + [Stop(at, n)]) == at
  {
    hide Written, OpenAfter;
    WrittenNext(e, Stop(at, n), w);
    assert Depth(r + [n], n) == |r|;
    assert (r + [n])[|r|..] == [n] && (r + [n])[|r| + 1..] == [] && (r + [n])[..|r|] == r;
    assert Closing([n]) == [Close(n)] by { NothingClosed(); assert [n][..0] == []; }
    assert Part(w, at, at) == "";
  }

  // The events of f behind those of e make the markup m of the text between two places.
  ghost predicate MarksUp(e: seq<Event>, f: seq<Event>, m: seq<Piece>, w: string, at: nat, to: nat) {
    At(f) <= to && OpenAfter(f) == OpenAfter(e) && UpTo(f, w, to) == UpTo(e, w, at) + m
  }

  lemma MarksUpJoin(e: seq<Event>, f: seq<Event>, g: seq<Event>, m: seq<Piece>, n: seq<Piece>, w: string, at: nat,
                    to: nat, end: nat)
    requires MarksUp(e, f, m, w, at, to) && MarksUp(f, g, n, w, to, end)
    ensures MarksUp(e, g, m + n, w, at, end)
  {
    hide At, OpenAfter, UpTo;
    assert UpTo(e, w, at) + m + n == UpTo(e, w, at) + (m + n);
  }

  // An element around events that make the markup m.
  lemma WrapMarkup(e: seq<Event>, n: Node, c: seq<Event>, m: seq<Piece>, w: string, at: nat, to: nat)
    requires At(e) <= at <= to <= |w| && n !in OpenAfter(e)
    requires var e1 := e + [Start(at, n)]; MarksUp(e1, e1 + c, m, w, at, to)
    ensures MarksUp(e, e + [Start(at, n)] + c + [Stop(to, n)], [Open(n)] + m + [Close(n)], w, at, to)
  {
    hide Written, OpenAfter, At, UpTo;
    StartMarkup(e, n, w, at);
    StopMarkup(e + [Start(at, n)] + c, n, w, to, OpenAfter(e));
    assert UpTo(e, w, at) + [Open(n)] + m + [Close(n)] == UpTo(e, w, at) + ([Open(n)] + m + [Close(n)]);
  }

  lemma Joined<T>(a: seq<T>, b: seq<T>, c: seq<T>, d: seq<T>, e: seq<T>)
    ensures a + b + c + d + e == a + (b + c + d + e)
  {}

  // The events of a document behind others make the document's own markup.
  lemma {:induction false} MarkupOfStream(e: seq<Event>, ds: seq<Dom>, w: string, at: nat)
    requires Once(ds) && At(e) <= at && at + Length(ds) <= |w|
    requires forall n :: n in OpenAfter(e) ==> n !in ElementsIn(ds)
    ensures MarksUp(e, e + Stream(ds, at), DocumentMarkup(ds, w, at), w, at, at + Length(ds))
    decreases ds
  {
    hide Once, Stream, Length, ElementsIn, DocumentMarkup, UpTo, OpenAfter, At, MarksUp, Next;
    if ds == [] {
      NoMarkup(e, w, at);
    } else {
      StreamSplits(ds, at);
      ElementsSplit(ds);
      MarkupSplits(ds, w, at);
      var to, rest := Next(ds, at), ds[1..];
      var f, m;
      if ds[0].Element? {
        var n, c := ds[0].node, ds[0].children;
        StartMarkup(e, n, w, at);
        MarkupOfStream(e + [Start(at, n)], c, w, at);
        WrapMarkup(e, n, Stream(c, at), DocumentMarkup(c, w, at), w, at, to);
        f, m := e + [Start(at, n)] + Stream(c, at) + [Stop(to, n)], [Open(n)] + DocumentMarkup(c, w, at) + [Close(n)];
        Joined(e, [Start(at, n)], Stream(c, at), [Stop(to, n)], Stream(rest, to));
      } else {
        f, m := e, Chars(Part(w, at, to));
        UpToSplits(e, w, at, to);
        TextMarksUp(e, m, w, at, to);
      }
      MarksUpStays(e, f, m, w, at, to);
      MarkupOfStream(f, rest, w, to);
      MarksUpJoin(e, f, f + Stream(rest, to), m, DocumentMarkup(rest, w, to), w, at, to, at + Length(ds));
    }
  }

  lemma NoMarkup(e: seq<Event>, w: string, at: nat)
    requires At(e) <= at
    ensures MarksUp(e, e + Stream([], at), DocumentMarkup([], w, at), w, at, at + Length([]))
  {
    assert e + [] == e && UpTo(e, w, at) + [] == UpTo(e, w, at);
  }

  lemma TextMarksUp(e: seq<Event>, m: seq<Piece>, w: string, at: nat, to: nat)
    requires At(e) <= to && UpTo(e, w, at) + m == UpTo(e, w, to)
    ensures MarksUp(e, e, m, w, at, to)
  {}

  lemma MarksUpStays(e: seq<Event>, f: seq<Event>, m: seq<Piece>, w: string, at: nat, to: nat)
    requires MarksUp(e, f, m, w, at, to)
    ensures At(f) <= to && OpenAfter(f) == OpenAfter(e)
  {}

  lemma ElementsSplit(ds: seq<Dom>)
    requires ds != [] && Once(ds)
    ensures ElementsIn(ds[1..]) <= ElementsIn(ds)
    ensures ds[0].Element? ==>
      var n, c := ds[0].node, ds[0].children;
      n in ElementsIn(ds) && ElementsIn(c) <= ElementsIn(ds) && n !in ElementsIn(c) && n !in ElementsIn(ds[1..])
  {}

  lemma MarkupSplits(ds: seq<Dom>, w: string, at: nat)
    requires ds != []
    ensures ds[0].Element? ==> (
      DocumentMarkup(ds, w, at) ==
        [Open(ds[0].node)] + DocumentMarkup(ds[0].children, w, at) + [Close(ds[0].node)]
        + DocumentMarkup(ds[1..], w, Next(ds, at)))
    ensures ds[0].Element? ==> Next(ds, at) == at + Length(ds[0].children)
    ensures !ds[0].Element? ==>
      DocumentMarkup(ds, w, at) == Chars(Part(w, at, Next(ds, at))) + DocumentMarkup(ds[1..], w, Next(ds, at))
  {
    if ds[0].OtherNode? { assert Part(w, at, at) == ""; }
  }

  // An order of one stream is that stream.
  lemma {:induction false} OrderOfOne(x: seq<Event>, o: seq<Place>, i: nat)
    requires InOrder(o, x, [], i, 0)
    ensures |o| == i && forall k :: 0 <= k < i ==> o[k] == InX(k)
  {
    forall k | 0 <= k < |o| ensures o[k].InX? && o[k].at < i { assert o[k] in o; }
    if i > 0 {
      var last := |o| - 1;
      assert InX(i - 1) in o;
      var k :| 0 <= k < |o| && o[k] == InX(i - 1);
      assert o[last].at < i;
      assert k == last;
      var front := o[..last];
      forall p: Place | p.InX? && p.at < i - 1 ensures p in front {
        assert p in o;
        var l :| 0 <= l < |o| && o[l] == p;
        assert front[l] == p;
      }
      forall l | 0 <= l < |front| ensures front[l].at < i - 1 { assert Precedes(x, [], o[l], o[k]); }
      OrderOfOne(x, front, i - 1);
    }
  }

  /** A document's tags merged with none into its own text make the document again: every element is opened and
      closed once, at its place. */
  lemma DocumentAgain(ds: seq<Dom>, w: string, o: seq<Place>)
    requires Once(ds) && |w| == Length(ds) && IsOrder(o, Stream(ds, 0), [])
    ensures Markup(Events(Stream(ds, 0), [], o), w) == DocumentMarkup(ds, w, 0)
  {
    hide Stream, Length, DocumentMarkup, Once, Events, OpenAfter, Written, InOrder, UpTo, Part;
    var x := Stream(ds, 0);
    OrderOfOne(x, o, |x|);
    EventsOfOne(x, o);
    NothingUpTo(w);
    MarkupOfStream([], ds, w, 0);
    IsAll(x, DocumentMarkup(ds, w, 0), w);
  }

  lemma IsAll(e: seq<Event>, m: seq<Piece>, w: string)
    requires MarksUp([], [] + e, m, w, 0, |w|)
    ensures Markup(e, w) == m
  {
    hide OpenAfter;
    NothingUpTo(w);
    assert [] + e == e && [] + m == m;
  }

  lemma NothingUpTo(w: string)
    ensures UpTo([], w, 0) == [] && At([]) == 0 && OpenAfter([]) == []
  {
    assert Part(w, 0, 0) == "";
  }

  lemma EventsOfOne(x: seq<Event>, o: seq<Place>)
    requires |o| == |x| && forall k :: 0 <= k < |x| ==> o[k] == InX(k)
    ensures (forall p :: p in o ==> IsPlace(x, [], p)) && Events(x, [], o) == x
  {}
}
