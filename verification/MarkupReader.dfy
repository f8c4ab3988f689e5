/** Reading the merger's output as markup: the tags, with their attributes, and the text are there again. */
module MarkupReader {
  import opened Options
  import opened Sequences
  import opened StreamMerge

  // ---------- character references ----------

  // A character and how many characters of s stand for it.
  function ReadChar(s: string): (char, nat)
    requires s != ""
  {
    if "&amp;" <= s then ('&', 5) else if "&lt;" <= s then ('<', 4) else if "&gt;" <= s then ('>', 4) else (s[0], 1)
  }

  function Unescape(s: string): string {
    if s == "" then ""
    else
      var (c, n) := ReadChar(s);
      [c] + Unescape(s[n..])
  }

  lemma ReadEscaped(c: char, t: string)
    ensures var s := EscapeChar(c) + t; s != "" && ReadChar(s) == (c, |EscapeChar(c)|) && s[|EscapeChar(c)|..] == t
  {
    var s := EscapeChar(c) + t;
    assert c == '&' ==> s[..5] == "&amp;";
    assert c == '<' ==> s[..4] == "&lt;" && s[1] == 'l';
    assert c == '>' ==> s[..4] == "&gt;" && s[1] == 'g';
    assert c != '&' && c != '<' && c != '>' ==> s[0] == c;
  }

  lemma EscapeFirst(s: string)
    requires s != ""
    ensures Escape(s) == EscapeChar(s[0]) + Escape(s[1..])
  {
    assert s == [s[0]] + s[1..];
    EscapeConcat([s[0]], s[1..]);
    EscapeOne(s[0]);
  }

  /** Escaping loses nothing. */
  lemma {:induction false} EscapedIsRead(s: string)
    ensures Unescape(Escape(s)) == s
  {
    if s == "" {
      EscapeEmpty();
    } else {
      hide Escape, EscapeChar;
      EscapeFirst(s);
      ReadEscaped(s[0], Escape(s[1..]));
      EscapedIsRead(s[1..]);
    }
  }

  lemma {:induction false} NoQuoteMade(s: string)
    requires '"' !in s
    ensures '"' !in Unescape(s)
  {
    if s != "" { NoQuoteMade(s[ReadChar(s).1..]); }
  }

  lemma {:induction false} EscapeKeepsQuotes(s: string)
    ensures '"' in Escape(s) <==> '"' in s
  {
    if s == "" {
      EscapeEmpty();
    } else {
      hide Escape;
      EscapeFirst(s);
      EscapeKeepsQuotes(s[1..]);
    }
  }

  // ---------- tags ----------

  datatype Token = OpenToken(name: string, attributes: seq<Attribute>) | CloseToken(name: string) | CharToken(c: char)

  predicate NameChar(c: char) { c != ' ' && c != '>' && c != '=' && c != '/' && c != '"' }

  predicate IsName(s: string) { s != "" && forall i :: 0 <= i < |s| ==> NameChar(s[i]) }

  // Up to the first character that is in no name.
  function NameEnd(s: string): (k: nat)
    ensures k <= |s|
  {
    if s == "" || !NameChar(s[0]) then 0 else 1 + NameEnd(s[1..])
  }

  function QuoteEnd(s: string): (k: nat)
    ensures k <= |s| && '"' !in s[..k] && (k < |s| ==> s[k] == '"')
  {
    if s == "" || s[0] == '"' then 0 else 1 + QuoteEnd(s[1..])
  }

  // What the rest of a tag says, and what is behind it.
  function ReadAttributes(s: string): (r: Option<(seq<Attribute>, string)>)
    ensures r.Some? ==> |r.value.1| < |s|
    decreases |s|
  {
    if s == "" then None
    else if s[0] == '>' then Some(([], s[1..]))
    else if s[0] != ' ' then None
    else
      var k := NameEnd(s[1..]);
      var t := s[1 + k..];
      if k == 0 || !("=\"" <= t) then None else ReadValue(s[1..1 + k], t[2..])
  }

  // The value of the attribute with this name, its closing quote, and the rest of the tag.
  function ReadValue(name: string, v: string): (r: Option<(seq<Attribute>, string)>)
    ensures r.Some? ==> |r.value.1| < |v|
    decreases |v|
  {
    var q := QuoteEnd(v);
    if q == |v| then None
    else
      match ReadAttributes(v[q + 1..])
      case None => None
      case Some(rest) => Some(([Attribute(name, Unescape(v[..q]))] + rest.0, rest.1))
  }

  function ReadToken(s: string): (r: Option<(Token, string)>)
    requires s != ""
    ensures r.Some? ==> |r.value.1| < |s|
  {
    if s[0] != '<' then
      var (c, n) := ReadChar(s);
      Some((CharToken(c), s[n..]))
    else if |s| > 1 && s[1] == '/' then
      var k := NameEnd(s[2..]);
      if k == 0 || 2 + k == |s| || s[2 + k] != '>' then None else Some((CloseToken(s[2..2 + k]), s[2 + k + 1..]))
    else
      var k := NameEnd(s[1..]);
      if k == 0 then None
      else
        match ReadAttributes(s[1 + k..])
        case None => None
        case Some(rest) => Some((OpenToken(s[1..1 + k], rest.0), rest.1))
  }

  function Read(s: string): Option<seq<Token>>
    decreases |s|
  {
    if s == "" then Some([])
    else
      match ReadToken(s)
      case None => None
      case Some(first) =>
        match Read(first.1)
        case None => None
        case Some(rest) => Some([first.0] + rest)
  }

  // What a piece of markup should be read as.
  function TokenOf(p: Piece): Token {
    match p
    case Open(n) => OpenToken(n.name, n.attributes)
    case Close(n) => CloseToken(Lower(n.name))
    case Char(c) => CharToken(c)
  }

  predicate HasNames(n: Node) { IsName(n.name) && forall a :: a in n.attributes ==> IsName(a.name) }

  predicate Quotable(a: seq<Attribute>) { forall i :: 0 <= i < |a| ==> '"' !in a[i].value }

  // The names in the tags are names, as those of the DOM are.
  predicate Named(pieces: seq<Piece>) { forall i :: 0 <= i < |pieces| && !pieces[i].Char? ==> HasNames(pieces[i].node) }

  // No attribute of an opened element has a double quote in its value.
  predicate AllQuotable(pieces: seq<Piece>) {
    forall i :: 0 <= i < |pieces| && pieces[i].Open? ==> Quotable(pieces[i].node.attributes)
  }

  lemma {:induction false} NameIsRead(name: string, t: string)
    requires (forall i :: 0 <= i < |name| ==> NameChar(name[i])) && (t == "" || !NameChar(t[0]))
    ensures NameEnd(name + t) == |name| && (name + t)[..|name|] == name && (name + t)[|name|..] == t
  {
    if name == "" {
      assert name + t == t;
    } else {
      assert (name + t)[1..] == name[1..] + t;
      NameIsRead(name[1..], t);
    }
  }

  lemma {:induction false} QuoteIsRead(v: string, t: string)
    ensures '"' !in v ==>
      QuoteEnd(v + "\"" + t) == |v| && (v + "\"" + t)[..|v|] == v && (v + "\"" + t)[|v| + 1..] == t
    ensures QuoteEnd(v + "\"" + t) < |v + "\"" + t|
  {
    if v == "" {
      assert v + "\"" + t == "\"" + t;
    } else {
      assert (v + "\"" + t)[1..] == v[1..] + "\"" + t;
      QuoteIsRead(v[1..], t);
    }
  }

  // The attributes a of a tag, its end, and what is behind it.
  function TagEnd(a: seq<Attribute>, t: string): string { Attributes(a) + ">" + t }

  lemma TagEndSplits(a: seq<Attribute>, t: string)
    requires a != []
    ensures
      var v := Escape(a[0].value) + "\"" + TagEnd(a[1..], t);
      TagEnd(a, t) == " " + (a[0].name + ("=\"" + v))
  {}

  // One attribute: its name, then its value up to the first quote.
  lemma FirstAttribute(name: string, v: string)
    requires IsName(name)
    ensures ReadAttributes(" " + (name + ("=\"" + v))) == ReadValue(name, v)
  {
    hide NameEnd, NameChar, ReadValue;
    AttributeParts(name, v);
  }

  lemma AttributeParts(name: string, v: string)
    requires IsName(name)
    ensures
      var u := "=\"" + v;
      var s := " " + (name + u);
      && s[0] == ' ' && NameEnd(s[1..]) == |name| && s[1..1 + |name|] == name && s[1 + |name|..] == u
      && u[..2] == "=\"" && u[2..] == v
  {
    var u := "=\"" + v;
    var s := " " + (name + u);
    assert s[1..] == name + u;
    NameIsRead(name, u);
  }

  /** The attributes of a tag are read as they are if and only if none of their values has a double quote. */
  lemma {:induction false} AttributesAreRead(a: seq<Attribute>, t: string)
    requires forall x :: x in a ==> IsName(x.name)
    ensures ReadAttributes(TagEnd(a, t)) == Some((a, t)) <==> Quotable(a)
    ensures ReadAttributes(TagEnd(a, t)).Some? && ReadAttributes(TagEnd(a, t)).value.0 == a ==> Quotable(a)
  {
    if a == [] {
      assert TagEnd(a, t) == ">" + t;
      assert (">" + t)[1..] == t;
    } else {
      hide Escape, Unescape, QuoteEnd, ReadAttributes, Attributes, TagEnd;
      var value := Escape(a[0].value);
      var v := value + "\"" + TagEnd(a[1..], t);
      TagEndSplits(a, t);
      FirstAttribute(a[0].name, v);
      QuoteIsRead(value, TagEnd(a[1..], t));
      EscapeKeepsQuotes(a[0].value);
      EscapedIsRead(a[0].value);
      AttributesAreRead(a[1..], t);
      QuotableFirst(a);
      if '"' in a[0].value {
        NoQuoteMade(v[..QuoteEnd(v)]);
      } else {
        OneMore(a, ReadAttributes(TagEnd(a[1..], t)), t);
      }
    }
  }

  lemma QuotableFirst(a: seq<Attribute>)
    requires a != []
    ensures Quotable(a) <==> '"' !in a[0].value && Quotable(a[1..])
  {
    assert a == [a[0]] + a[1..];
  }

  lemma OneMore(a: seq<Attribute>, r: Option<(seq<Attribute>, string)>, t: string)
    requires a != []
    ensures r.Some? ==> ([a[0]] + r.value.0 == a <==> r.value.0 == a[1..])
  {
    assert r.Some? ==> ([a[0]] + r.value.0)[1..] == r.value.0 && a == [a[0]] + a[1..];
  }

  lemma {:induction false} RenderConcat(x: seq<Piece>, y: seq<Piece>)
    ensures Render(x + y) == Render(x) + Render(y)
    decreases |y|
  {
    hide OpenElements, Text, Layers, OpenTag, CloseTag, EscapeChar;
    if y == [] {
      assert x + y == x;
    } else {
      hide Render;
      var front, last := y[..|y| - 1], y[|y| - 1];
      assert x + y == (x + front) + [last] && y == front + [last];
      RenderConcat(x, front);
      EmitOne(x + front, last);
      EmitOne(front, last);
    }
  }

  // One piece in front of any text.
  lemma PieceIsRead(p: Piece, t: string)
    requires !p.Char? ==> HasNames(p.node)
    ensures
      var s := Render([p]) + t;
      && s != ""
      && (ReadToken(s) == Some((TokenOf(p), t)) <==> (p.Open? ==> Quotable(p.node.attributes)))
      && (ReadToken(s).Some? && ReadToken(s).value.0 == TokenOf(p) ==> (p.Open? ==> Quotable(p.node.attributes)))
  {
    hide ReadAttributes, Attributes, NameEnd, EscapeChar, Render;
    RenderOne(p);
    match p
    case Char(c) =>
      ReadEscaped(c, t);
      EscapedStart(c);
    case Close(n) =>
      var name := Lower(n.name);
      LowerIsName(n.name);
      var s := Render([p]) + t;
      assert s[0] == '<' && s[1] == '/' && s[2..] == name + (">" + t);
      NameIsRead(name, ">" + t);
      assert s[2..2 + |name|] == name && s[2 + |name|] == '>' && s[2 + |name| + 1..] == t;
    case Open(n) =>
      var end := TagEnd(n.attributes, t);
      var s := Render([p]) + t;
      assert s == "<" + (n.name + end);
      assert s[0] == '<' && s[1] == n.name[0] && NameChar(n.name[0]) && s[1..] == n.name + end;
      TagEndStarts(n.attributes, t);
      NameIsRead(n.name, end);
      assert s[1..1 + |n.name|] == n.name && s[1 + |n.name|..] == end;
      AttributesAreRead(n.attributes, t);
  }

  lemma EscapedStart(c: char)
    ensures EscapeChar(c) != "" && EscapeChar(c)[0] != '<'
  {}

  lemma LowerIsName(s: string)
    requires IsName(s)
    ensures IsName(Lower(s))
  {}

  lemma TagEndStarts(a: seq<Attribute>, t: string)
    ensures TagEnd(a, t) != "" && !NameChar(TagEnd(a, t)[0])
  {}

  function Tokens(pieces: seq<Piece>): seq<Token> {
    seq(|pieces|, i requires 0 <= i < |pieces| => TokenOf(pieces[i]))
  }

  /** Reading rendered markup gives its tags, attributes and characters again, the names of close tags in lower case,
      if and only if no attribute has a double quote in its value: the source does not escape that. */
  lemma {:induction false} RenderedIsRead(pieces: seq<Piece>)
    requires Named(pieces)
    ensures Read(Render(pieces)) == Some(Tokens(pieces)) <==> AllQuotable(pieces)
    decreases |pieces|
  {
    hide Render, Read, ReadToken, TokenOf, HasNames, Quotable;
    if pieces == [] {
      NothingRead();
    } else {
      var p, rest := pieces[0], pieces[1..];
      assert pieces == [p] + rest;
      RenderConcat([p], rest);
      PieceIsRead(p, Render(rest));
      RenderedIsRead(rest);
      assert Tokens(pieces) == [TokenOf(p)] + Tokens(rest);
      assert AllQuotable(pieces) <==> (p.Open? ==> Quotable(p.node.attributes)) && AllQuotable(rest);
      ReadStep(Render(pieces), TokenOf(p), Tokens(rest));
    }
  }

  lemma NothingRead()
    ensures Read(Render([])) == Some(Tokens([]))
  {
    assert Tokens([]) == [];
  }

  lemma ReadStep(s: string, first: Token, rest: seq<Token>)
    requires s != ""
    ensures Read(s) == Some([first] + rest) <==>
      ReadToken(s).Some? && ReadToken(s).value.0 == first && Read(ReadToken(s).value.1) == Some(rest)
  {
    hide ReadToken;
    if ReadToken(s).Some? && Read(ReadToken(s).value.1).Some? {
      var x, xs := ReadToken(s).value.0, Read(ReadToken(s).value.1).value;
      assert ([x] + xs)[1..] == xs && ([first] + rest)[1..] == rest;
      assert ([x] + xs)[0] == x && ([first] + rest)[0] == first;
    }
  }

  // The elements with tags in the merger's markup are those of the streams.
  lemma TagsAreStarted(x: seq<Event>, v: seq<Event>, w: string, o: seq<Place>, n: Node)
    requires Paired(x) && Paired(v) && Disjoint(x, v) && IsOrder(o, x, v)
    ensures (forall p :: p in o ==> IsPlace(x, v, p)) &&
      var m := Markup(Events(x, v, o), w);
      && (Open(n) in m <==> Started(x, n) || Started(v, n))
      && (Close(n) in m <==> Started(x, n) || Started(v, n))
  {
    hide Paired, Disjoint, IsOrder, Markup, Started, Events, IsPlace;
    StartedInOrder(x, v, o, n);
    var e := Events(x, v, o);
    OrderIsPaired(x, v, o);
    OpenedAndClosed(x, v, w, o, n);
    PairedIsProper(e);
    if Cuts(e, n) > 0 { OnlyStartedAreCut(e, n); }
    assert Open(n) in Markup(e, w) <==> multiset(Markup(e, w))[Open(n)] > 0;
    assert Close(n) in Markup(e, w) <==> multiset(Markup(e, w))[Close(n)] > 0;
  }

  lemma PairedIsProper(e: seq<Event>)
    requires Paired(e)
    ensures Proper(e)
  {}

  /** The merger's output, read as markup, has the tags, attributes and text it was made of, if and only if no element
      of the streams has an attribute with a double quote in its value. */
  lemma MergedIsRead(x: seq<Event>, v: seq<Event>, w: string, o: seq<Place>, y: string)
    requires Paired(x) && Paired(v) && Disjoint(x, v) && IsMerged(y, o, x, v, w)
    requires forall n :: Started(x, n) || Started(v, n) ==> HasNames(n)
    ensures (forall p :: p in o ==> IsPlace(x, v, p)) && (
      Read(y) == Some(Tokens(Markup(Events(x, v, o), w))) <==>
        forall n :: Started(x, n) || Started(v, n) ==> Quotable(n.attributes))
  {
    hide Paired, Disjoint, IsOrder, Markup, Started, Events, IsPlace, Read, Tokens, HasNames, Quotable, Render,
      Balanced, Text, LayersAreCovers;
    PlacesAre(x, v, o);
    var m := Markup(Events(x, v, o), w);
    forall n
      ensures Open(n) in m <==> Started(x, n) || Started(v, n)
      ensures Close(n) in m <==> Started(x, n) || Started(v, n)
    {
      TagsAreStarted(x, v, w, o, n);
    }
    assert Named(m);
    assert AllQuotable(m) <==> forall n :: Open(n) in m ==> Quotable(n.attributes);
    RenderedIsRead(m);
  }
}
