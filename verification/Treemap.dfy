/** The squarified treemap of d3: rows of cells that fill a rectangle. */
module Treemap {
  import opened Options
  import opened Sequences

  datatype Box = Box(x: real, y: real, dx: real, dy: real)

  // A row score: the worst aspect ratio of a row can be infinite.
  datatype Score = Finite(v: real) | Infinite

  predicate AtMost(a: Score, b: Score) { b == Infinite || (a.Finite? && a.v <= b.v) }

  function MinReal(a: real, b: real): real { if a <= b then a else b }

  function MaxReal(a: real, b: real): real { if a <= b then b else a }

  ghost predicate KeepsSign(round: real -> real) { forall r :: r >= 0.0 ==> round(r) >= 0.0 }

  predicate NonNegative(a: seq<real>) { forall i :: 0 <= i < |a| ==> a[i] >= 0.0 }

  function Sum(a: seq<real>): (s: real)
    ensures NonNegative(a) ==> s >= 0.0
  {
    if a == [] then 0.0 else Sum(a[..|a| - 1]) + a[|a| - 1]
  }

  // ---------- the score of a row ----------

  function Largest(a: seq<real>): (r: real)
  {
    if a == [] then 0.0 else MaxReal(Largest(a[..|a| - 1]), a[|a| - 1])
  }

  // The smallest area that is not zero.
  function Smallest(a: seq<real>): Option<real> {
    if a == [] then None
    else
      var rest, r := Smallest(a[..|a| - 1]), a[|a| - 1];
      if r == 0.0 then rest else if rest == None || r < rest.value then Some(r) else rest
  }

  function Weight(r: real, u: real, ratio: real): real { u * u * r * ratio }

  function Square(s: real): real { s * s }

  // The worst aspect ratio, against a target ratio, of cells of areas a along a side of length u.
  function Worst(a: seq<real>, u: real, ratio: real): Score {
    var s := Square(Sum(a));
    if s == 0.0 || Smallest(a) == None then Infinite
    else
      var thin := Weight(Smallest(a).value, u, ratio);
      if thin == 0.0 then Infinite else Finite(MaxReal(Weight(Largest(a), u, ratio) / s, s / thin))
  }

  // How far a cell of area r is from the target ratio, in a row of area s along a side of length u: its
  // sides are r * u / s and s / u.
  ghost function Aspect(r: real, s: real, u: real, ratio: real): real
    requires r > 0.0 && s > 0.0 && u > 0.0 && ratio > 0.0
  {
    var q := (r * u / s) / (s / u) * ratio;
    MaxReal(q, 1.0 / q)
  }

  lemma SmallestIsLeast(a: seq<real>)
    requires NonNegative(a)
    ensures Smallest(a) == None <==> forall i :: 0 <= i < |a| ==> a[i] == 0.0
    ensures Smallest(a).Some? ==> Smallest(a).value > 0.0 && Smallest(a).value in a
    ensures Smallest(a).Some? ==> forall i :: 0 <= i < |a| && a[i] > 0.0 ==> Smallest(a).value <= a[i]
  {}

  lemma LargestIsMost(a: seq<real>)
    requires NonNegative(a)
    ensures forall i :: 0 <= i < |a| ==> a[i] <= Largest(a)
    ensures Largest(a) == 0.0 || Largest(a) in a
  {}

  lemma DivideOrder(n: real, m: real, d: real, e: real)
    requires 0.0 <= n <= m && 0.0 < d <= e
    ensures n / e <= m / d
  {
    assert n / e * e == n && m / d * d == m;
    var p, q := n / e, m / d;
    assert q >= 0.0;
    assert q * e >= q * d;
    if p > q { assert p * e > q * e; }
  }

  // The ratio of the sides of a cell, without the sides.
  lemma AspectWithoutSides(r: real, s: real, u: real, ratio: real)
    requires r > 0.0 && s > 0.0 && u > 0.0 && ratio > 0.0
    ensures Weight(r, u, ratio) > 0.0 && Square(s) > 0.0
    ensures Aspect(r, s, u, ratio) == MaxReal(Weight(r, u, ratio) / Square(s), Square(s) / Weight(r, u, ratio))
  {
    var w, h := r * u / s, s / u;
    Products(r, s, u, ratio);
    assert w * s == r * u && h * u == s;
    var q := w / h * ratio;
    assert w / h * h == w;
    var t := u * u * r * ratio;
    assert q * (s * s) == t by {
      calc {
        q * (s * s);
        (w / h) * ratio * ((h * u) * s);
        (w / h * h) * s * u * ratio;
        (r * u) * u * ratio;
        t;
      }
    }
    Quotients(q, t, s * s);
  }

  lemma Products(r: real, s: real, u: real, ratio: real)
    requires r > 0.0 && s > 0.0 && u > 0.0 && ratio > 0.0
    ensures u * u * r * ratio > 0.0 && s * s > 0.0 && s / u > 0.0 && r * u / s > 0.0
  {
    assert u * u > 0.0;
    assert u * u * r > 0.0;
    assert r * u > 0.0;
  }

  lemma Quotients(q: real, t: real, s: real)
    requires t > 0.0 && s > 0.0 && q * s == t
    ensures q > 0.0 && q == t / s && 1.0 / q == s / t
  {
    assert q > 0.0;
    var p := 1.0 / q;
    assert p * q == 1.0;
    assert p * t == p * q * s;
  }

  lemma AspectBounds(r: real, q: real, s: real, u: real, ratio: real)
    requires 0.0 < r <= q && s > 0.0 && u > 0.0 && ratio > 0.0
    ensures Weight(r, u, ratio) > 0.0 && Weight(q, u, ratio) > 0.0 && Square(s) > 0.0
    ensures Weight(r, u, ratio) / Square(s) <= Weight(q, u, ratio) / Square(s)
    ensures Square(s) / Weight(q, u, ratio) <= Square(s) / Weight(r, u, ratio)
    ensures Aspect(r, s, u, ratio) == MaxReal(Weight(r, u, ratio) / Square(s), Square(s) / Weight(r, u, ratio))
  {
    hide Aspect, Weight, Square;
    AspectWithoutSides(r, s, u, ratio);
    Scaled(r, q, u, ratio);
    DivideOrder(Weight(r, u, ratio), Weight(q, u, ratio), Square(s), Square(s));
    DivideOrder(Square(s), Square(s), Weight(r, u, ratio), Weight(q, u, ratio));
  }

  lemma WorstOfTwo(a: seq<real>, u: real, ratio: real)
    requires Square(Sum(a)) > 0.0 && Smallest(a).Some? && Weight(Smallest(a).value, u, ratio) > 0.0
    ensures Worst(a, u, ratio) ==
      Finite(MaxReal(Weight(Largest(a), u, ratio) / Square(Sum(a)),
        Square(Sum(a)) / Weight(Smallest(a).value, u, ratio)))
  {
    hide Sum, Smallest, Largest, Weight, Square;
  }

  /** The score of a row is the aspect ratio of its worst cell. */
  lemma WorstIsWorst(a: seq<real>, u: real, ratio: real)
    requires NonNegative(a) && Sum(a) > 0.0 && u > 0.0 && ratio > 0.0
    ensures Worst(a, u, ratio).Finite?
    ensures forall i :: 0 <= i < |a| && a[i] > 0.0 ==> Aspect(a[i], Sum(a), u, ratio) <= Worst(a, u, ratio).v
    ensures exists i :: 0 <= i < |a| && a[i] > 0.0 && Aspect(a[i], Sum(a), u, ratio) == Worst(a, u, ratio).v
  {
    SmallestIsLeast(a);
    LargestIsMost(a);
    SumOfZeros(a);
    var s, least, most := Sum(a), Smallest(a).value, Largest(a);
    AspectBounds(least, most, s, u, ratio);
    AspectBounds(most, most, s, u, ratio);
    WorstOfTwo(a, u, ratio);
    hide Aspect, Smallest, Largest, Sum, Weight, Square, Worst;
    forall i | 0 <= i < |a| && a[i] > 0.0 ensures Aspect(a[i], s, u, ratio) <= Worst(a, u, ratio).v {
      AspectBounds(least, a[i], s, u, ratio);
      AspectBounds(a[i], most, s, u, ratio);
    }
    var i :| 0 <= i < |a| && a[i] == least;
    var j :| 0 <= j < |a| && a[j] == most;
  }

  lemma Scaled(r: real, q: real, u: real, ratio: real)
    requires 0.0 < r <= q && u > 0.0 && ratio > 0.0
    ensures 0.0 < Weight(r, u, ratio) <= Weight(q, u, ratio)
  {
    assert u * u > 0.0;
    assert u * u * r <= u * u * q;
    Products(r, 1.0, u, ratio);
  }

  lemma {:induction false} SumOfZeros(a: seq<real>)
    ensures (forall i :: 0 <= i < |a| ==> a[i] == 0.0) ==> Sum(a) == 0.0
  {
    if a != [] { SumOfZeros(a[..|a| - 1]); }
  }

  // ---------- the layout ----------

  // A part of a line.
  datatype Segment = Segment(at: real, len: real)

  // The length of a cell of area r and of width v, where no more than left is left.
  function CutOff(left: real, r: real, v: real, round: real -> real): real {
    MinReal(left, if v != 0.0 then round(r / v) else 0.0)
  }

  // The line from at to end cut for cells of areas a and of width v. The last one takes what rounding leaves.
  function Segments(a: seq<real>, at: real, end: real, v: real, round: real -> real): (s: seq<Segment>)
    requires a != []
    ensures |s| == |a|
  {
    if |a| == 1 then [Segment(at, end - at)]
    else
      var len := CutOff(end - at, a[0], v, round);
      [Segment(at, len)] + Segments(a[1..], at + len, end, v, round)
  }

  function Width(s: real, u: real, most: real, flush: bool, round: real -> real): real {
    var v := if u != 0.0 then round(s / u) else 0.0;
    if flush || v > most then most else v
  }

  // Where the side that a row lies along begins, and its length.
  function Start(rect: Box): real { if rect.dx <= rect.dy then rect.x else rect.y }

  function Side(rect: Box): real { MinReal(rect.dx, rect.dy) }

  // How much of the rectangle a row takes, across the side that it lies along.
  function StripWidth(a: seq<real>, rect: Box, flush: bool, round: real -> real): real {
    Width(Sum(a), Side(rect), if rect.dx <= rect.dy then rect.dy else rect.dx, flush, round)
  }

  function BoxOf(s: Segment, rect: Box, v: real): Box {
    if rect.dx <= rect.dy then Box(s.at, rect.y, s.len, v) else Box(rect.x, s.at, v, s.len)
  }

  function BoxesOf(s: seq<Segment>, rect: Box, v: real): (b: seq<Box>)
    ensures |b| == |s| && forall i :: 0 <= i < |s| ==> b[i] == BoxOf(s[i], rect, v)
  {
    if s == [] then [] else [BoxOf(s[0], rect, v)] + BoxesOf(s[1..], rect, v)
  }

  // A row of cells on the shorter side of the rectangle.
  function Strip(a: seq<real>, rect: Box, v: real, round: real -> real): (b: seq<Box>)
    requires a != []
    ensures |b| == |a|
  {
    BoxesOf(Segments(a, Start(rect), Start(rect) + Side(rect), v, round), rect, v)
  }

  function Rest(rect: Box, v: real): Box {
    if rect.dx <= rect.dy then rect.(y := rect.y + v, dy := rect.dy - v) else rect.(x := rect.x + v, dx := rect.dx - v)
  }

  // How many cells, of n already, the first row takes.
  function RowEnd(a: seq<real>, u: real, ratio: real, n: nat): (r: nat)
    requires 1 <= n <= |a|
    ensures n <= r <= |a|
    decreases |a| - n
  {
    if n < |a| && AtMost(Worst(a[..n + 1], u, ratio), Worst(a[..n], u, ratio)) then RowEnd(a, u, ratio, n + 1) else n
  }

  /** A row takes cells while its score does not get worse, and stops before the first that makes it worse. */
  lemma {:induction false} RowEndsBeforeWorse(a: seq<real>, u: real, ratio: real, n: nat, k: nat)
    requires 1 <= n <= |a|
    ensures
      var r := RowEnd(a, u, ratio, n);
      && (n <= k < r ==> AtMost(Worst(a[..k + 1], u, ratio), Worst(a[..k], u, ratio)))
      && (r < |a| ==> !AtMost(Worst(a[..r + 1], u, ratio), Worst(a[..r], u, ratio)))
    decreases |a| - n
  {
    hide Worst;
    if n < |a| && AtMost(Worst(a[..n + 1], u, ratio), Worst(a[..n], u, ratio)) {
      RowEndsBeforeWorse(a, u, ratio, n + 1, k);
    }
  }

  /** The boxes of cells of areas a, taken in this order. */
  function Layout(a: seq<real>, rect: Box, ratio: real, round: real -> real): (b: seq<Box>)
    ensures |b| == |a|
    decreases |a|
  {
    if a == [] then []
    else
      var n := RowEnd(a, Side(rect), ratio, 1);
      var v := StripWidth(a[..n], rect, n == |a|, round);
      Strip(a[..n], rect, v, round) + Layout(a[n..], Rest(rect, v), ratio, round)
  }

  // ---------- tiling ----------

  predicate Inside(b: Box, rect: Box) {
    && b.dx >= 0.0 && b.dy >= 0.0
    && rect.x <= b.x && b.x + b.dx <= rect.x + rect.dx && rect.y <= b.y && b.y + b.dy <= rect.y + rect.dy
  }

  // Two boxes share no inner point.
  predicate Disjoint(b: Box, c: Box) {
    b.x + b.dx <= c.x || c.x + c.dx <= b.x || b.y + b.dy <= c.y || c.y + c.dy <= b.y
  }

  predicate Has(b: Box, px: real, py: real) { b.x <= px <= b.x + b.dx && b.y <= py <= b.y + b.dy }

  ghost predicate Covered(bs: seq<Box>, px: real, py: real) { exists i :: 0 <= i < |bs| && Has(bs[i], px, py) }

  function Product(x: real, y: real): real { x * y }

  function AreaOf(b: Box): real { Product(b.dx, b.dy) }

  function Area(bs: seq<Box>): real {
    if bs == [] then 0.0 else AreaOf(bs[0]) + Area(bs[1..])
  }

  ghost predicate AllInside(bs: seq<Box>, rect: Box) { forall i :: 0 <= i < |bs| ==> Inside(bs[i], rect) }

  ghost predicate AllDisjoint(bs: seq<Box>) { forall i, j :: 0 <= i < j < |bs| ==> Disjoint(bs[i], bs[j]) }

  ghost predicate AllCovered(bs: seq<Box>, rect: Box) { forall px, py :: Has(rect, px, py) ==> Covered(bs, px, py) }

  /** Boxes fill a rectangle: they lie inside, share no inner point, leave no gap and have its area. */
  ghost predicate Tiles(bs: seq<Box>, rect: Box) {
    AllInside(bs, rect) && AllDisjoint(bs) && AllCovered(bs, rect) && Area(bs) == AreaOf(rect)
  }

  // Segments fill a line in order.
  ghost predicate Fills(s: seq<Segment>, at: real, end: real) {
    && (forall i :: 0 <= i < |s| ==> s[i].len >= 0.0 && at <= s[i].at && s[i].at + s[i].len <= end)
    && (forall i, j :: 0 <= i < j < |s| ==> s[i].at + s[i].len <= s[j].at)
    && (forall p :: at <= p <= end ==> Reached(s, p))
  }

  predicate On(s: Segment, p: real) { s.at <= p <= s.at + s.len }

  ghost predicate Reached(s: seq<Segment>, p: real) { exists i :: 0 <= i < |s| && On(s[i], p) }

  lemma {:induction false} SegmentsFill(a: seq<real>, at: real, end: real, v: real, round: real -> real)
    requires a != [] && NonNegative(a) && at <= end && v >= 0.0 && KeepsSign(round)
    ensures Fills(Segments(a, at, end, v, round), at, end)
  {
    var s := Segments(a, at, end, v, round);
    if |a| == 1 {
      forall p | at <= p <= end ensures Reached(s, p) { assert On(s[0], p); }
    } else {
      var len := CutOff(end - at, a[0], v, round);
      assert 0.0 <= len <= end - at by {
        assert v != 0.0 ==> a[0] / v >= 0.0 by { if v != 0.0 { assert a[0] / v * v == a[0]; } }
      }
      SegmentsFill(a[1..], at + len, end, v, round);
      FillsCons(Segment(at, len), Segments(a[1..], at + len, end, v, round), at, end);
    }
  }

  lemma FillsCons(first: Segment, s: seq<Segment>, at: real, end: real)
    requires first.at == at && 0.0 <= first.len && at + first.len <= end && Fills(s, at + first.len, end)
    ensures Fills([first] + s, at, end)
  {
    var t := [first] + s;
    forall p | at <= p <= end ensures Reached(t, p) {
      if p <= at + first.len {
        assert t[0] == first && On(t[0], p);
      } else {
        assert Reached(s, p);
        var i :| 0 <= i < |s| && On(s[i], p);
        assert t[i + 1] == s[i];
      }
    }
  }

  lemma ProductSplits(x: real, y: real, v: real)
    ensures Product(x, v) + Product(y, v) == Product(x + y, v) && Product(v, x) == Product(x, v)
  {}

  lemma ProductOrder(x: real, y: real, v: real)
    requires v > 0.0
    ensures x <= y <==> Product(x, v) <= Product(y, v)
    ensures x == y <==> Product(x, v) == Product(y, v)
  {
    var d := y - x;
    assert Product(y, v) - Product(x, v) == d * v;
  }

  lemma ProductOfQuotient(s: real, u: real)
    requires u != 0.0
    ensures Product(s / u, u) == s
  {}

  lemma ProductOfZero(x: real)
    ensures Product(x, 0.0) == 0.0 && Product(0.0, x) == 0.0
  {}

  lemma {:induction false} SegmentsArea(a: seq<real>, at: real, end: real, v: real, round: real -> real, rect: Box)
    requires a != []
    ensures Area(BoxesOf(Segments(a, at, end, v, round), rect, v)) == Product(end - at, v)
  {
    hide Product, CutOff;
    if |a| == 1 {
      ProductSplits(end - at, 0.0, v);
      assert BoxesOf(Segments(a, at, end, v, round), rect, v)[1..] == [];
    } else {
      var len := CutOff(end - at, a[0], v, round);
      SegmentsArea(a[1..], at + len, end, v, round, rect);
      ProductSplits(len, end - (at + len), v);
    }
  }

  // What a row takes of the rectangle.
  function Taken(rect: Box, v: real): Box {
    if rect.dx <= rect.dy then rect.(dy := v) else rect.(dx := v)
  }

  lemma StripTiles(a: seq<real>, rect: Box, v: real, round: real -> real)
    requires a != [] && NonNegative(a) && KeepsSign(round) && rect.dx >= 0.0 && rect.dy >= 0.0
    requires 0.0 <= v
    ensures Tiles(Strip(a, rect, v, round), Taken(rect, v))
  {
    var at, end := Start(rect), Start(rect) + Side(rect);
    AreaOfTaken(rect, v);
    ProductSplits(end - at, 0.0, v);
    hide Segments, Area, AreaOf, Product, BoxesOf, AllInside, AllDisjoint, AllCovered, Fills;
    var s := Segments(a, at, end, v, round);
    SegmentsFill(a, at, end, v, round);
    SegmentsArea(a, at, end, v, round, rect);
    FilledIsTiled(s, rect, v);
  }

  lemma FilledIsTiled(s: seq<Segment>, rect: Box, v: real)
    requires Fills(s, Start(rect), Start(rect) + Side(rect)) && v >= 0.0
    ensures AllInside(BoxesOf(s, rect, v), Taken(rect, v)) && AllDisjoint(BoxesOf(s, rect, v))
    ensures AllCovered(BoxesOf(s, rect, v), Taken(rect, v))
  {
    var bs, taken := BoxesOf(s, rect, v), Taken(rect, v);
    forall px, py | Has(taken, px, py) ensures Covered(bs, px, py) {
      var p := if rect.dx <= rect.dy then px else py;
      assert Reached(s, p);
      var i :| 0 <= i < |s| && On(s[i], p);
      assert Has(bs[i], px, py);
    }
  }

  lemma {:induction false} AreaConcat(b: seq<Box>, c: seq<Box>)
    ensures Area(b + c) == Area(b) + Area(c)
  {
    if b == [] {
      assert b + c == c;
    } else {
      AreaConcat(b[1..], c);
      assert (b + c)[1..] == b[1..] + c;
    }
  }

  lemma InsideOuter(b: seq<Box>, p: Box, c: seq<Box>, q: Box, outer: Box)
    requires AllInside(b, p) && AllInside(c, q) && Inside(p, outer) && Inside(q, outer)
    ensures AllInside(b + c, outer)
  {}

  lemma SeparateDisjoint(b: seq<Box>, c: seq<Box>, rect: Box, v: real)
    requires AllDisjoint(b) && AllDisjoint(c) && AllInside(b, Taken(rect, v)) && AllInside(c, Rest(rect, v))
    ensures AllDisjoint(b + c)
  {}

  lemma JoinCovers(b: seq<Box>, c: seq<Box>, rect: Box, v: real)
    requires AllCovered(b, Taken(rect, v)) && AllCovered(c, Rest(rect, v))
    ensures AllCovered(b + c, rect)
  {
    var bs := b + c;
    forall px, py | Has(rect, px, py) ensures Covered(bs, px, py) {
      if Has(Taken(rect, v), px, py) {
        assert Covered(b, px, py);
        var i :| 0 <= i < |b| && Has(b[i], px, py);
        assert bs[i] == b[i];
      } else {
        assert Has(Rest(rect, v), px, py);
        assert Covered(c, px, py);
        var i :| 0 <= i < |c| && Has(c[i], px, py);
        assert bs[|b| + i] == c[i];
      }
    }
  }

  lemma TilesJoin(b: seq<Box>, c: seq<Box>, rect: Box, v: real)
    requires rect.dx >= 0.0 && rect.dy >= 0.0 && 0.0 <= v <= MaxReal(rect.dx, rect.dy)
    requires Tiles(b, Taken(rect, v)) && Tiles(c, Rest(rect, v))
    ensures Tiles(b + c, rect)
  {
    hide Area, AreaOf, AllInside, AllDisjoint, AllCovered;
    AreaConcat(b, c);
    AreasSplit(rect, v);
    assert Inside(Taken(rect, v), rect) && Inside(Rest(rect, v), rect);
    InsideOuter(b, Taken(rect, v), c, Rest(rect, v), rect);
    SeparateDisjoint(b, c, rect, v);
    JoinCovers(b, c, rect, v);
  }

  lemma AreasSplit(rect: Box, v: real)
    ensures AreaOf(Taken(rect, v)) + AreaOf(Rest(rect, v)) == AreaOf(rect)
  {}

  lemma WidthInRange(a: seq<real>, rect: Box, flush: bool, round: real -> real)
    requires NonNegative(a) && KeepsSign(round) && rect.dx >= 0.0 && rect.dy >= 0.0
    ensures 0.0 <= StripWidth(a, rect, flush, round) <= MaxReal(rect.dx, rect.dy)
    ensures flush ==> StripWidth(a, rect, flush, round) == MaxReal(rect.dx, rect.dy)
  {
    var s, u := Sum(a), Side(rect);
    assert u != 0.0 ==> s / u >= 0.0 by { if u != 0.0 { assert s / u * u == s; } }
  }

  /** The cells of a row after another fill the rectangle, whatever the rounding. */
  lemma {:induction false} LayoutTiles(a: seq<real>, rect: Box, ratio: real, round: real -> real)
    requires a != [] && NonNegative(a) && KeepsSign(round) && rect.dx >= 0.0 && rect.dy >= 0.0
    ensures Tiles(Layout(a, rect, ratio, round), rect)
    decreases |a|
  {
    var n := RowEnd(a, Side(rect), ratio, 1);
    var row, rest := a[..n], a[n..];
    var v := StripWidth(row, rect, n == |a|, round);
    WidthInRange(row, rect, n == |a|, round);
    StripTiles(row, rect, v, round);
    hide Tiles, StripWidth, Strip;
    if n == |a| {
      assert Strip(row, rect, v, round) + [] == Strip(row, rect, v, round);
      assert Taken(rect, v) == rect;
    } else {
      LayoutTiles(rest, Rest(rect, v), ratio, round);
      TilesJoin(Strip(row, rect, v, round), Layout(rest, Rest(rect, v), ratio, round), rect, v);
    }
  }

  // ---------- rows ----------

  // Cells that follow one another along the shorter side of the rectangle, from its beginning to its end, each of the
  // width v.
  ghost predicate IsRow(row: seq<Box>, rect: Box, v: real) {
    && row != []
    && if rect.dx <= rect.dy then
         && row[0].x == rect.x && row[|row| - 1].x + row[|row| - 1].dx == rect.x + rect.dx
         && (forall i :: 0 <= i < |row| ==> row[i].y == rect.y && row[i].dy == v)
         && (forall i :: 0 < i < |row| ==> row[i].x == row[i - 1].x + row[i - 1].dx)
       else
         && row[0].y == rect.y && row[|row| - 1].y + row[|row| - 1].dy == rect.y + rect.dy
         && (forall i :: 0 <= i < |row| ==> row[i].x == rect.x && row[i].dx == v)
         && (forall i :: 0 < i < |row| ==> row[i].y == row[i - 1].y + row[i - 1].dy)
  }

  // The first n boxes are a row of the width v, and the others are in rows in what is left.
  ghost predicate RowThen(bs: seq<Box>, rect: Box, n: nat, v: real)
    decreases |bs|, 0
  {
    && 0 < n <= |bs| && IsRow(bs[..n], rect, v)
    && InRows(bs[n..], if rect.dx <= rect.dy then Box(rect.x, rect.y + v, rect.dx, rect.dy - v)
      else Box(rect.x + v, rect.y, rect.dx - v, rect.dy))
  }

  ghost predicate InRows(bs: seq<Box>, rect: Box)
    decreases |bs|, 1
  {
    bs == [] || exists n, v :: RowThen(bs, rect, n, v)
  }

  lemma {:induction false} SegmentsFollow(a: seq<real>, at: real, end: real, v: real, round: real -> real)
    requires a != []
    ensures
      var s := Segments(a, at, end, v, round);
      && s[0].at == at && s[|s| - 1].at + s[|s| - 1].len == end
      && forall i :: 0 < i < |s| ==> s[i].at == s[i - 1].at + s[i - 1].len
  {
    if |a| > 1 {
      var len := CutOff(end - at, a[0], v, round);
      SegmentsFollow(a[1..], at + len, end, v, round);
      var s, rest := Segments(a, at, end, v, round), Segments(a[1..], at + len, end, v, round);
      assert s == [Segment(at, len)] + rest;
      forall i | 0 < i < |s| ensures s[i].at == s[i - 1].at + s[i - 1].len { assert s[i] == rest[i - 1]; }
    }
  }

  lemma StripIsRow(a: seq<real>, rect: Box, v: real, round: real -> real)
    requires a != []
    ensures IsRow(Strip(a, rect, v, round), rect, v)
  {
    hide Segments, BoxesOf;
    SegmentsFollow(a, Start(rect), Start(rect) + Side(rect), v, round);
  }

  /** The cells lie in rows along the shorter side of what is left, one after the other, whatever the rounding. */
  lemma {:induction false} LayoutInRows(a: seq<real>, rect: Box, ratio: real, round: real -> real)
    ensures InRows(Layout(a, rect, ratio, round), rect)
    decreases |a|
  {
    if a != [] {
      var n := RowEnd(a, Side(rect), ratio, 1);
      var v := StripWidth(a[..n], rect, n == |a|, round);
      var row, rest := Strip(a[..n], rect, v, round), Layout(a[n..], Rest(rect, v), ratio, round);
      StripIsRow(a[..n], rect, v, round);
      LayoutInRows(a[n..], Rest(rect, v), ratio, round);
      hide IsRow, Strip, StripWidth;
      assert (row + rest)[..n] == row && (row + rest)[n..] == rest;
      assert RowThen(row + rest, rect, n, v);
    }
  }

  // ---------- whole numbers ----------

  predicate Whole(r: real) { r == r.Floor as real }

  predicate WholeBox(b: Box) { Whole(b.x) && Whole(b.y) && Whole(b.dx) && Whole(b.dy) }

  lemma WholeSums(p: real, q: real)
    requires Whole(p) && Whole(q)
    ensures Whole(p + q) && Whole(p - q)
  {
    var i, j := p.Floor, q.Floor;
    assert p == i as real && q == j as real;
    WholeInt(i + j);
    WholeInt(i - j);
    assert (i + j) as real == i as real + j as real && (i - j) as real == i as real - j as real;
  }

  lemma WholeInt(i: int)
    ensures Whole(i as real)
  {}

  lemma {:induction false} SegmentsAreWhole(a: seq<real>, at: real, end: real, v: real, round: real -> real)
    requires a != [] && Whole(at) && Whole(end) && forall r :: Whole(round(r))
    ensures forall i :: 0 <= i < |a| ==>
      Whole(Segments(a, at, end, v, round)[i].at) && Whole(Segments(a, at, end, v, round)[i].len)
  {
    hide Whole;
    WholeSums(end, at);
    if |a| > 1 {
      var len := CutOff(end - at, a[0], v, round);
      assert Whole(0.0) by { NothingIsWhole(); }
      assert Whole(len);
      WholeSums(at, len);
      SegmentsAreWhole(a[1..], at + len, end, v, round);
    }
  }

  lemma NothingIsWhole()
    ensures Whole(0.0)
  {}

  /** If rounding gives whole numbers, a rectangle at whole coordinates is cut at whole coordinates only. */
  lemma {:induction false} LayoutIsWhole(a: seq<real>, rect: Box, ratio: real, round: real -> real)
    requires WholeBox(rect) && forall r :: Whole(round(r))
    ensures forall i :: 0 <= i < |a| ==> WholeBox(Layout(a, rect, ratio, round)[i])
    decreases |a|
  {
    if a != [] {
      var n := RowEnd(a, Side(rect), ratio, 1);
      var v := StripWidth(a[..n], rect, n == |a|, round);
      WidthIsWhole(a[..n], rect, n == |a|, round);
      StripIsWhole(a[..n], rect, v, round);
      RestIsWhole(rect, v);
      hide Whole, StripWidth, Strip, Rest;
      LayoutIsWhole(a[n..], Rest(rect, v), ratio, round);
    }
  }

  lemma WidthIsWhole(a: seq<real>, rect: Box, flush: bool, round: real -> real)
    requires WholeBox(rect) && forall r :: Whole(round(r))
    ensures Whole(StripWidth(a, rect, flush, round))
  {
    hide Whole;
    NothingIsWhole();
  }

  lemma StripIsWhole(a: seq<real>, rect: Box, v: real, round: real -> real)
    requires a != [] && WholeBox(rect) && Whole(v) && forall r :: Whole(round(r))
    ensures forall i :: 0 <= i < |a| ==> WholeBox(Strip(a, rect, v, round)[i])
  {
    hide Whole, Segments;
    WholeSums(Start(rect), Side(rect));
    SegmentsAreWhole(a, Start(rect), Start(rect) + Side(rect), v, round);
  }

  lemma RestIsWhole(rect: Box, v: real)
    requires WholeBox(rect) && Whole(v)
    ensures WholeBox(Rest(rect, v))
  {
    hide Whole;
    WholeSums(rect.x, v);
    WholeSums(rect.y, v);
    WholeSums(rect.dx, v);
    WholeSums(rect.dy, v);
  }

  // ---------- areas without rounding ----------

  lemma {:induction false} SumConcat(a: seq<real>, b: seq<real>)
    ensures Sum(a + b) == Sum(a) + Sum(b)
  {
    if b == [] {
      assert a + b == a;
    } else {
      var n := |b| - 1;
      SumConcat(a, b[..n]);
      assert (a + b)[..|a| + n] == a + b[..n];
    }
  }

  lemma SumCons(a: seq<real>)
    requires a != []
    ensures Sum(a) == a[0] + Sum(a[1..])
  {
    SumConcat(a[..1], a[1..]);
    assert a[..1] + a[1..] == a && a[..1][..0] == [];
    assert Sum(a[..1]) == Sum([]) + a[0];
  }

  ghost predicate Exact(s: seq<Segment>, a: seq<real>, v: real)
    requires |s| == |a|
  {
    forall i :: 0 <= i < |a| ==> Product(s[i].len, v) == a[i]
  }

  lemma ExactCons(first: Segment, s: seq<Segment>, a: seq<real>, v: real)
    requires |a| == |s| + 1 && Product(first.len, v) == a[0] && Exact(s, a[1..], v)
    ensures Exact([first] + s, a, v)
  {
    hide Product;
    var t := [first] + s;
    forall i | 0 <= i < |a| ensures Product(t[i].len, v) == a[i] {
      if i > 0 { assert t[i] == s[i - 1] && a[i] == a[1..][i - 1]; }
    }
  }

  lemma {:induction false} SegmentsExact(a: seq<real>, at: real, end: real, v: real, round: real -> real)
    requires a != [] && NonNegative(a) && v > 0.0 && Product(end - at, v) == Sum(a) && forall r :: round(r) == r
    ensures Exact(Segments(a, at, end, v, round), a, v)
  {
    SumCons(a);
    hide Sum, Product;
    if |a| == 1 {
      assert a[1..] == [] && Sum([]) == 0.0 by { SumOfZeros([]); }
    } else {
      var len := a[0] / v;
      assert Sum(a[1..]) >= 0.0;
      ProductOfQuotient(a[0], v);
      ProductOrder(len, end - at, v);
      ProductSplits(len, end - (at + len), v);
      SegmentsExact(a[1..], at + len, end, v, round);
      ExactCons(Segment(at, len), Segments(a[1..], at + len, end, v, round), a, v);
    }
  }

  lemma {:induction false} ZeroSum(a: seq<real>)
    requires NonNegative(a) && Sum(a) == 0.0
    ensures forall i :: 0 <= i < |a| ==> a[i] == 0.0
  {
    if a != [] { ZeroSum(a[..|a| - 1]); }
  }

  ghost predicate Proportional(bs: seq<Box>, a: seq<real>)
    requires |bs| == |a|
  {
    forall i :: 0 <= i < |a| ==> AreaOf(bs[i]) == a[i]
  }

  // How wide a row is without rounding, if the areas fit the rectangle.
  lemma ExactWidth(s: real, rect: Box, flush: bool, round: real -> real)
    requires rect.dx >= 0.0 && rect.dy >= 0.0 && 0.0 <= s <= AreaOf(rect) && (flush ==> s == AreaOf(rect))
      && forall r :: round(r) == r
    ensures
      var v := Width(s, Side(rect), MaxReal(rect.dx, rect.dy), flush, round);
      0.0 <= v <= MaxReal(rect.dx, rect.dy) && Product(v, Side(rect)) == s
  {
    var u, most := Side(rect), MaxReal(rect.dx, rect.dy);
    assert AreaOf(rect) == Product(most, u);
    ProductOfZero(u);
    ProductOfZero(most);
    hide AreaOf, Product;
    if u != 0.0 {
      ProductOfQuotient(s, u);
      ProductOrder(0.0, s / u, u);
      ProductOrder(s / u, most, u);
    } else {
      ProductOfZero(Width(s, u, most, flush, round));
    }
  }

  lemma StripProportional(a: seq<real>, rect: Box, v: real, round: real -> real)
    requires a != [] && NonNegative(a) && v >= 0.0 && Product(v, Side(rect)) == Sum(a) && forall r :: round(r) == r
    ensures Proportional(Strip(a, rect, v, round), a)
  {
    hide Sum, Product, Segments;
    var at, end := Start(rect), Start(rect) + Side(rect);
    var s := Segments(a, at, end, v, round);
    ProductSplits(end - at, 0.0, v);
    if v > 0.0 {
      SegmentsExact(a, at, end, v, round);
    } else {
      ProductOfZero(Side(rect));
      ZeroSum(a);
      assert Exact(s, a, v)
        by { forall i | 0 <= i < |a| ensures Product(s[i].len, v) == 0.0 { ProductOfZero(s[i].len); } }
    }
    ExactIsProportional(s, a, rect, v);
  }

  lemma ExactIsProportional(s: seq<Segment>, a: seq<real>, rect: Box, v: real)
    requires |s| == |a| && Exact(s, a, v)
    ensures Proportional(BoxesOf(s, rect, v), a)
  {
    hide Product;
    var bs := BoxesOf(s, rect, v);
    forall i | 0 <= i < |a| ensures AreaOf(bs[i]) == a[i] {
      assert Product(s[i].len, v) == a[i];
      ProductSplits(s[i].len, 0.0, v);
    }
  }

  /** Without rounding, and if the areas add up to that of the rectangle, each cell has its area. */
  lemma {:induction false} LayoutIsProportional(a: seq<real>, rect: Box, ratio: real, round: real -> real)
    requires NonNegative(a) && rect.dx >= 0.0 && rect.dy >= 0.0 && Sum(a) == AreaOf(rect) && forall r :: round(r) == r
    ensures Proportional(Layout(a, rect, ratio, round), a)
    decreases |a|
  {
    if a != [] {
      var n := RowEnd(a, Side(rect), ratio, 1);
      var row, rest := a[..n], a[n..];
      var v := StripWidth(row, rect, n == |a|, round);
      RowAndRest(a, n, rect);
      hide Sum, AreaOf, Product, Segments, Strip, Width, RowEnd;
      assert n == |a| ==> row == a;
      ExactWidth(Sum(row), rect, n == |a|, round);
      StripProportional(row, rect, v, round);
      AreaOfTaken(rect, v);
      AreasSplit(rect, v);
      LayoutIsProportional(rest, Rest(rect, v), ratio, round);
      JoinProportional(Strip(row, rect, v, round), row, Layout(rest, Rest(rect, v), ratio, round), rest);
    }
  }

  lemma RowAndRest(a: seq<real>, n: nat, rect: Box)
    requires NonNegative(a) && n <= |a|
    ensures a[..n] + a[n..] == a && NonNegative(a[..n]) && NonNegative(a[n..])
    ensures Sum(a[..n]) >= 0.0 && Sum(a[n..]) >= 0.0 && Sum(a[..n]) + Sum(a[n..]) == Sum(a)
  {
    hide Sum;
    var row, rest := a[..n], a[n..];
    assert row + rest == a;
    assert NonNegative(row) && NonNegative(rest);
    SumConcat(row, rest);
  }

  lemma AreaOfTaken(rect: Box, v: real)
    ensures AreaOf(Taken(rect, v)) == Product(v, Side(rect))
  {}

  lemma JoinProportional(b: seq<Box>, p: seq<real>, c: seq<Box>, q: seq<real>)
    requires |b| == |p| && |c| == |q| && Proportional(b, p) && Proportional(c, q)
    ensures Proportional(b + c, p + q)
  {
    hide AreaOf;
    forall i | 0 <= i < |p + q| ensures AreaOf((b + c)[i]) == (p + q)[i] {
      if i >= |p| { assert (b + c)[i] == c[i - |p|] && (p + q)[i] == q[i - |p|]; }
    }
  }

  // ---------- the cells ----------

  datatype Padding = Padding(top: real, right: real, bottom: real, left: real)

  // The rectangle inside the padding of a box; what is too narrow shrinks to a line.
  function Padded(b: Box, p: Option<Padding>): Box {
    match p
    case None => b
    case Some(q) =>
      var dx, dy := b.dx - q.right - q.left, b.dy - q.top - q.bottom;
      Box(b.x + q.left + (if dx < 0.0 then dx / 2.0 else 0.0), b.y + q.top + (if dy < 0.0 then dy / 2.0 else 0.0),
        if dx < 0.0 then 0.0 else dx, if dy < 0.0 then 0.0 else dy)
  }

  /** Where opposite paddings fit, each side of the box keeps its own distance; where they do not, nothing is left,
      midway between the two lines that the paddings draw. */
  lemma PaddedSides(b: Box, p: Padding)
    ensures
      var r := Padded(b, Some(p));
      && (if p.left + p.right <= b.dx
          then r.x - b.x == p.left && (b.x + b.dx) - (r.x + r.dx) == p.right
          else r.dx == 0.0 && r.x - (b.x + b.dx - p.right) == b.x + p.left - r.x)
      && (if p.top + p.bottom <= b.dy
          then r.y - b.y == p.top && (b.y + b.dy) - (r.y + r.dy) == p.bottom
          else r.dy == 0.0 && r.y - (b.y + b.dy - p.bottom) == b.y + p.top - r.y)
  {}

  function Difference(p: real, q: real): real { if p < q then q - p else p - q }

  /** Opposite paddings keep the cells inside their parent exactly if their difference is no more than its extent. */
  lemma PaddedInsideIff(b: Box, p: Padding)
    requires b.dx >= 0.0 && b.dy >= 0.0 && p.top >= 0.0 && p.right >= 0.0 && p.bottom >= 0.0 && p.left >= 0.0
    ensures Inside(Padded(b, Some(p)), b) <==>
      Difference(p.left, p.right) <= b.dx && Difference(p.top, p.bottom) <= b.dy
  {}

  /** A padding of ten on the left of a box of extent one: what is left of it lies outside. */
  lemma PaddedOutside()
    ensures
      var b := Box(0.0, 0.0, 1.0, 1.0);
      !Inside(Padded(b, Some(Padding(0.0, 0.0, 0.0, 10.0))), b)
  {
    PaddedInsideIff(Box(0.0, 0.0, 1.0, 1.0), Padding(0.0, 0.0, 0.0, 10.0));
    hide Padded;
  }

  // A total of zero for a rectangle that is not empty: the scale is infinite, and so is the area of a positive value.
  predicate InfiniteArea(value: real, rect: Box, total: real) {
    total == 0.0 && rect.dx * rect.dy > 0.0 && value > 0.0
  }

  // What scale makes of the value of a child, in a rectangle for the value of the parent, unless it is infinite.
  function ScaledArea(value: real, rect: Box, total: real): real {
    if total == 0.0 then 0.0
    else
      var k := rect.dx * rect.dy / total;
      var area := value * (if k < 0.0 then 0.0 else k);
      if area <= 0.0 then 0.0 else area
  }

  lemma AreaSign(value: real, rect: Box, total: real)
    ensures ScaledArea(value, rect, total) >= 0.0 && (value <= 0.0 ==> ScaledArea(value, rect, total) == 0.0)
  {
    if total != 0.0 && value <= 0.0 {
      var k := rect.dx * rect.dy / total;
      assert k >= 0.0 ==> value * k <= 0.0;
    }
  }

  datatype Config = Config(ratio: real, round: real -> real, padding: Cell -> Option<Padding>)

  class Cell {
    const value: real
    const children: seq<Cell>
    var x: real
    var y: real
    var dx: real
    var dy: real
    var area: real
    ghost const Repr: set<Cell>

    // A node over the trees of its children.
    constructor (value: real, children: seq<Cell>)
      requires forall c :: c in children ==> c.Valid()
      requires forall i, j :: 0 <= i < j < |children| ==> children[i].Repr !! children[j].Repr
      ensures Valid() && this.value == value && this.children == children
      ensures Repr == {this} + set c, m | c in children && m in c.Repr :: m
    {
      this.value, this.children := value, children;
      Repr := {this} + set c, m | c in children && m in c.Repr :: m;
    }

    function Extent(): Box
      reads this
    {
      Box(x, y, dx, dy)
    }

    // The cells form a tree.
    ghost predicate Valid()
      decreases Repr
    {
      && this in Repr
      && (forall c :: c in children ==> c.Repr <= Repr && this !in c.Repr && c.Valid())
      && (forall i, j :: 0 <= i < j < |children| ==> children[i].Repr !! children[j].Repr)
      && (forall m :: m in Repr && m != this ==> exists c :: c in children && m in c.Repr)
    }

    // The areas of the children, the last child first.
    ghost function Areas(rect: Box): (a: seq<real>)
      ensures |a| == |children| && NonNegative(a)
    {
      seq(|children|, k requires 0 <= k < |children| => ScaledArea(children[|children| - 1 - k].value, rect, value))
    }

    // Whether some child has no finite area.
    ghost predicate Unscaled(g: Config)
      reads this
    {
      exists c :: c in children && InfiniteArea(c.value, Padded(Extent(), g.padding(this)), value)
    }

    // The children lie where the layout of their areas puts them, the last child first.
    ghost predicate LaidOut(g: Config)
      reads this, Cells(children)
    {
      var rect := Padded(Extent(), g.padding(this));
      HaveBoxes(Backwards(children), Layout(Areas(rect), rect, g.ratio, g.round))
    }
  }

  class Rect {
    var x: real
    var y: real
    var dx: real
    var dy: real

    constructor (b: Box)
      ensures Extent() == b
    {
      x, y, dx, dy := b.x, b.y, b.dx, b.dy;
    }

    function Extent(): Box
      reads this
    {
      Box(x, y, dx, dy)
    }
  }

  ghost function Cells(s: seq<Cell>): set<Cell> { set c | c in s }

  ghost predicate HaveAreas(row: seq<Cell>, a: seq<real>)
    reads Cells(row)
  {
    |row| == |a| && forall i :: 0 <= i < |row| ==> row[i].area == a[i]
  }

  ghost predicate HaveBoxes(cells: seq<Cell>, boxes: seq<Box>)
    reads Cells(cells)
  {
    |cells| == |boxes| && forall i :: 0 <= i < |cells| ==> cells[i].Extent() == boxes[i]
  }

  lemma SegmentsAt(a: seq<real>, at: real, end: real, v: real, round: real -> real)
    requires a != []
    ensures Segments(a, at, end, v, round)[0] ==
      Segment(at, if |a| == 1 then end - at else CutOff(end - at, a[0], v, round))
    ensures |a| > 1 ==>
      Segments(a, at, end, v, round)[1..] == Segments(a[1..], at + CutOff(end - at, a[0], v, round), end, v, round)
  {}

  // The loop of position for a row from left to right, and the rounding error after it.
  method PlaceAcross(row: seq<Cell>, rect: Rect, v: real, round: real -> real, ghost a: seq<real>)
    requires row != [] && Distinct(row) && HaveAreas(row, a) && rect.dx <= rect.dy
    modifies Cells(row)
    ensures HaveAreas(row, a)
    ensures HaveBoxes(row, Strip(a, rect.Extent(), v, round))
  {
    hide Segments, CutOff, BoxesOf;
    ghost var s := Segments(a, rect.x, rect.x + rect.dx, v, round);
    var i, n, x := 0, |row|, rect.x;
    var o: Cell := row[0];
    while i < n
      invariant 0 <= i <= n && HaveAreas(row, a)
      invariant i < n ==> s[i..] == Segments(a[i..], x, rect.x + rect.dx, v, round)
      invariant forall j :: 0 <= j < i ==>
        row[j].x == s[j].at && row[j].y == rect.y && row[j].dy == v && (j < n - 1 ==> row[j].dx == s[j].len)
      invariant i == n ==> o == row[n - 1] && x == o.x + o.dx && s[n - 1].len == rect.x + rect.dx - o.x
    {
      SegmentsAt(a[i..], x, rect.x + rect.dx, v, round);
      assert s[i] == s[i..][0] && s[i..][1..] == s[i + 1..] && a[i..][1..] == a[i + 1..];
      o := row[i];
      o.x := x;
      o.y := rect.y;
      o.dy := v;
      o.dx := CutOff(rect.x + rect.dx - x, o.area, v, round);
      x := x + o.dx;
      i := i + 1;
    }
    o.dx := o.dx + (rect.x + rect.dx - x);
  }

  // The same for a row from top to bottom.
  method PlaceDown(row: seq<Cell>, rect: Rect, v: real, round: real -> real, ghost a: seq<real>)
    requires row != [] && Distinct(row) && HaveAreas(row, a) && rect.dy < rect.dx
    modifies Cells(row)
    ensures HaveAreas(row, a)
    ensures HaveBoxes(row, Strip(a, rect.Extent(), v, round))
  {
    hide Segments, CutOff, BoxesOf;
    ghost var s := Segments(a, rect.y, rect.y + rect.dy, v, round);
    var i, n, y := 0, |row|, rect.y;
    var o: Cell := row[0];
    while i < n
      invariant 0 <= i <= n && HaveAreas(row, a)
      invariant i < n ==> s[i..] == Segments(a[i..], y, rect.y + rect.dy, v, round)
      invariant forall j :: 0 <= j < i ==>
        row[j].x == rect.x && row[j].y == s[j].at && row[j].dx == v && (j < n - 1 ==> row[j].dy == s[j].len)
      invariant i == n ==> o == row[n - 1] && y == o.y + o.dy && s[n - 1].len == rect.y + rect.dy - o.y
    {
      SegmentsAt(a[i..], y, rect.y + rect.dy, v, round);
      assert s[i] == s[i..][0] && s[i..][1..] == s[i + 1..] && a[i..][1..] == a[i + 1..];
      o := row[i];
      o.x := rect.x;
      o.y := y;
      o.dx := v;
      o.dy := CutOff(rect.y + rect.dy - y, o.area, v, round);
      y := y + o.dy;
      i := i + 1;
    }
    o.dy := o.dy + (rect.y + rect.dy - y);
  }

  /** position: the cells of a row get their boxes, and the rectangle loses what they take. */
  method Position(row: seq<Cell>, area: real, u: real, rect: Rect, flush: bool, round: real -> real, ghost a: seq<real>)
    requires row != [] && Distinct(row) && HaveAreas(row, a) && area == Sum(a) && u == Side(rect.Extent())
    modifies rect, Cells(row)
    ensures HaveAreas(row, a)
    ensures var v := StripWidth(a, old(rect.Extent()), flush, round);
      rect.Extent() == Rest(old(rect.Extent()), v) && HaveBoxes(row, Strip(a, old(rect.Extent()), v, round))
  {
    hide Segments, Sum, BoxesOf, Strip, HaveAreas, HaveBoxes, Distinct;
    ghost var was := rect.Extent();
    var v := if u != 0.0 then round(area / u) else 0.0;
    if u == rect.dx {
      if flush || v > rect.dy { v := rect.dy; }
      assert v == StripWidth(a, was, flush, round);
      hide StripWidth;
      PlaceAcross(row, rect, v, round, a);
      rect.y := rect.y + v;
      rect.dy := rect.dy - v;
    } else {
      if flush || v > rect.dx { v := rect.dx; }
      assert v == StripWidth(a, was, flush, round);
      hide StripWidth;
      PlaceDown(row, rect, v, round, a);
      rect.x := rect.x + v;
      rect.dx := rect.dx - v;
    }
  }

  /** worst: the score of a row of cells. */
  method ScoreOf(row: seq<Cell>, area: real, u: real, ratio: real, ghost a: seq<real>) returns (score: Score)
    requires HaveAreas(row, a) && area == Sum(a) && NonNegative(a)
    ensures score == Worst(a, u, ratio)
  {
    hide Sum, Weight, Square;
    var most, least: Option<real> := 0.0, None;
    for i := 0 to |row|
      invariant most == Largest(a[..i]) && most >= 0.0 && least == Smallest(a[..i])
    {
      assert a[..i + 1][..i] == a[..i] && a[..i + 1][i] == a[i];
      var r := row[i].area;
      if r != 0.0 {
        if least == None || r < least.value { least := Some(r); }
        if r > most { most := r; }
      }
    }
    assert a[..|row|] == a;
    hide Smallest, Largest;
    var s := Square(area);
    if s == 0.0 || least == None {
      score := Infinite;
    } else {
      var thin := Weight(least.value, u, ratio);
      score := if thin == 0.0 then Infinite else Finite(MaxReal(Weight(most, u, ratio) / s, s / thin));
    }
  }

  /** scale: the areas of cells in a rectangle for a total value, and whether all of them are finite. */
  method Scale(children: seq<Cell>, rect: Box, total: real) returns (finite: bool)
    modifies Cells(children)
    ensures forall c :: c in children && !InfiniteArea(c.value, rect, total) ==>
      c.area == ScaledArea(c.value, rect, total) >= 0.0 && (c.value <= 0.0 ==> c.area == 0.0)
    ensures finite <==> forall c :: c in children ==> !InfiniteArea(c.value, rect, total)
  {
    hide ScaledArea, InfiniteArea;
    var n := |children|;
    finite := true;
    for i := 0 to n
      invariant forall c :: c in children[..i] && !InfiniteArea(c.value, rect, total) ==>
        c.area == ScaledArea(c.value, rect, total) >= 0.0 && (c.value <= 0.0 ==> c.area == 0.0)
      invariant finite <==> forall c :: c in children[..i] ==> !InfiniteArea(c.value, rect, total)
    {
      assert children[..i + 1] == children[..i] + [children[i]];
      if InfiniteArea(children[i].value, rect, total) {
        finite := false;
      } else {
        AreaSign(children[i].value, rect, total);
        children[i].area := ScaledArea(children[i].value, rect, total);
      }
    }
    assert children[..n] == children;
  }

  // ---------- squarify ----------

  // The children in the order in which they are laid out: the last one first.
  ghost function Backwards(children: seq<Cell>): (order: seq<Cell>)
    ensures |order| == |children| && forall k :: 0 <= k < |order| ==> order[k] == children[|children| - 1 - k]
  {
    seq(|children|, k requires 0 <= k < |children| => children[|children| - 1 - k])
  }

  ghost function UpTo<T>(s: seq<T>, c: nat): (t: seq<T>)
    requires c <= |s|
    ensures |t| == c
  {
    s[..c]
  }

  ghost function From<T>(s: seq<T>, c: nat): (t: seq<T>)
    requires c <= |s|
    ensures |t| == |s| - c
  {
    s[c..]
  }

  ghost function Slice<T>(s: seq<T>, c: nat, r: nat): (t: seq<T>)
    requires c + r <= |s|
    ensures |t| == r
  {
    s[c..c + r]
  }

  lemma Slices<T>(s: seq<T>, c: nat, r: nat)
    requires c + r <= |s|
    ensures UpTo(From(s, c), r) == Slice(s, c, r) && From(From(s, c), r) == From(s, c + r)
    ensures UpTo(s, c) + Slice(s, c, r) == UpTo(s, c + r)
    ensures forall i :: 0 <= i < r ==> Slice(s, c, r)[i] == s[c + i]
    ensures c + r < |s| ==> Slice(s, c, r) + [s[c + r]] == Slice(s, c, r + 1)
  {}

  // What is known beforehand: the cells in order with their areas, and the boxes they are to have.
  datatype Plan = Plan(order: seq<Cell>, a: seq<real>, boxes: seq<Box>, g: Config)

  ghost predicate Sound(p: Plan) { |p.order| == |p.a| == |p.boxes| && Distinct(p.order) && NonNegative(p.a) }

  // Of the cells in order, c have their boxes; those after them have their areas.
  ghost predicate Laying(p: Plan, rect: Rect, c: nat)
    reads rect, Cells(p.order)
  {
    && Sound(p) && c <= |p.order|
    && HaveBoxes(UpTo(p.order, c), UpTo(p.boxes, c)) && HaveAreas(From(p.order, c), From(p.a, c))
    && From(p.boxes, c) == Layout(From(p.a, c), rect.Extent(), p.g.ratio, p.g.round)
  }

  // A row of r areas is begun, and its score is known.
  ghost predicate RowBegun(a: seq<real>, c: nat, r: nat, u: real, ratio: real, best: Score)
    requires c + r <= |a|
  {
    if r == 0 then best == Infinite
    else best == Worst(Slice(a, c, r), u, ratio) && RowEnd(From(a, c), u, ratio, 1) == RowEnd(From(a, c), u, ratio, r)
  }

  lemma RowGrows(a: seq<real>, c: nat, r: nat, u: real, ratio: real, best: Score)
    requires c + r < |a| && RowBegun(a, c, r, u, ratio, best)
    ensures
      var score := Worst(Slice(a, c, r + 1), u, ratio);
      if AtMost(score, best) then RowBegun(a, c, r + 1, u, ratio, score)
      else r > 0 && RowEnd(From(a, c), u, ratio, 1) == r
  {
    hide Worst;
    assert From(a, c)[..r] == Slice(a, c, r) && From(a, c)[..r + 1] == Slice(a, c, r + 1);
  }

  lemma RowEnds(a: seq<real>, c: nat, r: nat, u: real, ratio: real, best: Score)
    requires c + r == |a| && r > 0 && RowBegun(a, c, r, u, ratio, best)
    ensures RowEnd(From(a, c), u, ratio, 1) == r
  {
    hide Worst;
  }

  lemma RowTaken(a: seq<real>, rect: Box, g: Config, r: nat)
    requires 0 < r <= |a| && RowEnd(a, Side(rect), g.ratio, 1) == r
    ensures
      var v := StripWidth(UpTo(a, r), rect, r == |a|, g.round);
      && UpTo(Layout(a, rect, g.ratio, g.round), r) == Strip(UpTo(a, r), rect, v, g.round)
      && From(Layout(a, rect, g.ratio, g.round), r) == Layout(From(a, r), Rest(rect, v), g.ratio, g.round)
  {
    hide RowEnd, Strip, StripWidth;
  }

  lemma JoinBoxes(b: seq<Cell>, p: seq<Box>, c: seq<Cell>, q: seq<Box>)
    requires HaveBoxes(b, p) && HaveBoxes(c, q)
    ensures HaveBoxes(b + c, p + q)
  {}

  lemma CutAreas(row: seq<Cell>, a: seq<real>, r: nat)
    requires HaveAreas(row, a) && r <= |row|
    ensures HaveAreas(UpTo(row, r), UpTo(a, r)) && HaveAreas(From(row, r), From(a, r))
  {}

  lemma SlicesApart(order: seq<Cell>, c: nat, r: nat)
    requires Distinct(order) && c + r <= |order|
    ensures Distinct(Slice(order, c, r)) && Cells(Slice(order, c, r)) <= Cells(order)
    ensures Cells(UpTo(order, c)) <= Cells(order) && Cells(From(order, c + r)) <= Cells(order)
    ensures Cells(UpTo(order, c)) !! Cells(Slice(order, c, r)) && Cells(From(order, c + r)) !! Cells(Slice(order, c, r))
  {}

  // The row is complete: its cells are positioned.
  method FinishRow(row: seq<Cell>, area: real, u: real, rect: Rect, flush: bool, round: real -> real, ghost p: Plan,
                   ghost c: nat)
    requires row != [] && Laying(p, rect, c) && u == Side(rect.Extent()) && round == p.g.round
    requires c + |row| <= |p.order| == |p.a| && row == Slice(p.order, c, |row|) && area == Sum(Slice(p.a, c, |row|))
    requires RowEnd(From(p.a, c), u, p.g.ratio, 1) == |row| && flush == (c + |row| == |p.order|)
    modifies rect, Cells(row)
    ensures Laying(p, rect, c + |row|)
  {
    ghost var r := |row|;
    hide RowEnd, Layout, Strip, StripWidth, Sum, Rest, Side, NonNegative, HaveAreas, HaveBoxes, Distinct, UpTo, From,
      Slice;
    SlicesApart(p.order, c, r);
    CutAreas(From(p.order, c), From(p.a, c), r);
    Slices(p.order, c, r);
    Slices(p.a, c, r);
    Slices(p.boxes, c, r);
    RowTaken(From(p.a, c), rect.Extent(), p.g, r);
    Position(row, area, u, rect, flush, round, Slice(p.a, c, r));
    JoinBoxes(UpTo(p.order, c), UpTo(p.boxes, c), row, Slice(p.boxes, c, r));
  }

  // The cells c and following in order are in the row, and the others remain.
  ghost predicate Rowing(p: Plan, children: seq<Cell>, remaining: seq<Cell>, row: seq<Cell>, c: nat, area: real,
                         u: real, best: Score) {
    && Sound(p) && p.order == Backwards(children)
    && c + |row| + |remaining| == |p.order| && remaining == UpTo(children, |remaining|)
    && row == Slice(p.order, c, |row|) && area == Sum(Slice(p.a, c, |row|))
    && RowBegun(p.a, c, |row|, u, p.g.ratio, best)
  }

  lemma NewRow(p: Plan, children: seq<Cell>, remaining: seq<Cell>, c: nat, u: real)
    requires Sound(p) && p.order == Backwards(children) && c + |remaining| == |p.order|
    requires remaining == UpTo(children, |remaining|)
    ensures Rowing(p, children, remaining, [], c, 0.0, u, Infinite)
  {
    assert Slice(p.a, c, 0) == [] && Sum([]) == 0.0;
  }

  lemma RowOf(p: Plan, children: seq<Cell>, remaining: seq<Cell>, row: seq<Cell>, c: nat, area: real, u: real,
              best: Score)
    requires Rowing(p, children, remaining, row, c, area, u, best)
    ensures c + |row| + |remaining| == |p.order| == |p.a| == |p.boxes| && Sound(p) && p.order == Backwards(children)
    ensures remaining == UpTo(children, |remaining|)
    ensures row == Slice(p.order, c, |row|) && area == Sum(Slice(p.a, c, |row|)) && Cells(row) <= Cells(p.order)
    ensures remaining == [] && row != [] ==> RowEnd(From(p.a, c), u, p.g.ratio, 1) == |row|
  {
    hide Worst, Backwards;
    if remaining == [] && row != [] { RowEnds(p.a, c, |row|, u, p.g.ratio, best); }
  }

  // The last cell that remains is the next in order.
  lemma NextCell(p: Plan, children: seq<Cell>, remaining: seq<Cell>, rect: Rect, c: nat, r: nat)
    requires Laying(p, rect, c) && p.order == Backwards(children) && remaining != [] && c + r + |remaining| == |p.order|
    requires remaining == UpTo(children, |remaining|)
    ensures
      var n := |remaining| - 1;
      && remaining[n] == p.order[c + r] && remaining[n].area == p.a[c + r] && UpTo(remaining, n) == UpTo(children, n)
      && HaveAreas(Slice(p.order, c, r + 1), Slice(p.a, c, r + 1)) && NonNegative(Slice(p.a, c, r + 1))
      && Sum(Slice(p.a, c, r + 1)) == Sum(Slice(p.a, c, r)) + p.a[c + r]
  {
    hide Layout, HaveBoxes, Backwards, Distinct;
    CutAreas(From(p.order, c), From(p.a, c), r + 1);
    Slices(p.order, c, r + 1);
    Slices(p.a, c, r + 1);
    assert Slice(p.order, c, r + 1)[r].area == Slice(p.a, c, r + 1)[r];
    assert Slice(p.a, c, r + 1)[..r] == Slice(p.a, c, r);
  }

  // What the score of the longer row decides.
  lemma Offered(p: Plan, children: seq<Cell>, remaining: seq<Cell>, row: seq<Cell>, rect: Rect, c: nat, area: real,
                u: real, best: Score)
    requires remaining != [] && Laying(p, rect, c) && Rowing(p, children, remaining, row, c, area, u, best)
    ensures
      var n, r := |remaining| - 1, |row|;
      var score := Worst(Slice(p.a, c, r + 1), u, p.g.ratio);
      && HaveAreas(row + [remaining[n]], Slice(p.a, c, r + 1)) && NonNegative(Slice(p.a, c, r + 1))
      && area + remaining[n].area == Sum(Slice(p.a, c, r + 1))
      && (AtMost(score, best) ==>
        Rowing(p, children, remaining[..n], row + [remaining[n]], c, area + remaining[n].area, u, score))
      && (!AtMost(score, best) ==> row != [] && RowEnd(From(p.a, c), u, p.g.ratio, 1) == |row|)
  {
    hide Worst, RowEnd, HaveAreas, HaveBoxes, Sum, NonNegative, Backwards, RowBegun, Layout, Slice, From;
    NextCell(p, children, remaining, rect, c, |row|);
    RowGrows(p.a, c, |row|, u, p.g.ratio, best);
    Slices(p.order, c, |row|);
  }

  // What holds before the first cell.
  lemma LayingStarts(p: Plan, node: Cell, rect: Rect)
    requires Distinct(node.children) && p.order == Backwards(node.children) && p.a == node.Areas(rect.Extent())
    requires p.boxes == Layout(p.a, rect.Extent(), p.g.ratio, p.g.round)
    requires forall c :: c in node.children ==> c.area == ScaledArea(c.value, rect.Extent(), node.value)
    ensures Laying(p, rect, 0) && Rowing(p, node.children, node.children, [], 0, 0.0, Side(rect.Extent()), Infinite)
    ensures Cells(p.order) <= Cells(node.children)
  {
    hide Layout;
    assert UpTo(node.children, |node.children|) == node.children;
    NewRow(p, node.children, node.children, 0, Side(rect.Extent()));
    hide Rowing, Side;
    assert From(p.order, 0) == p.order && From(p.a, 0) == p.a && From(p.boxes, 0) == p.boxes;
  }

  lemma LayingEnds(p: Plan, node: Cell, rect: Rect)
    requires PlanFor(p, node) && Laying(p, rect, |p.order|)
    ensures node.LaidOut(p.g)
  {
    hide Layout;
    var order := p.order;
    assert UpTo(order, |order|) == order && UpTo(p.boxes, |order|) == p.boxes;
  }

  // The plan for the children of a node.
  ghost predicate PlanFor(p: Plan, node: Cell)
    reads node
  {
    var pad := Padded(node.Extent(), p.g.padding(node));
    p.order == Backwards(node.children) && p.a == node.Areas(pad) && p.boxes == Layout(p.a, pad, p.g.ratio, p.g.round)
  }

  // The rectangle of a node and the areas of its children.
  method Prepare(node: Cell, g: Config) returns (finite: bool, rect: Rect, ghost p: Plan)
    requires Distinct(node.children) && node !in node.children
    modifies Cells(node.children)
    ensures finite <==> !node.Unscaled(g)
    ensures fresh(rect) && p.g == g && PlanFor(p, node) && Cells(p.order) <= Cells(node.children)
    ensures finite ==>
      Laying(p, rect, 0) && Rowing(p, node.children, node.children, [], 0, 0.0, Side(rect.Extent()), Infinite)
  {
    hide ScaledArea, InfiniteArea, Layout, Laying, Rowing, Backwards, Distinct;
    var pad := Padded(node.Extent(), g.padding(node));
    rect := new Rect(pad);
    ghost var a := node.Areas(pad);
    p := Plan(Backwards(node.children), a, Layout(a, pad, g.ratio, g.round), g);
    finite := Scale(node.children, pad, node.value);
    assert Cells(p.order) <= Cells(node.children) by { SameCells(node.children); }
    if finite { LayingStarts(p, node, rect); }
  }

  /** The rows of squarify for the children of one node. A child with an infinite area fits no row: its scores are no
      numbers, so that in the end the source places a row without cells, which fails. */
  method LayChildren(node: Cell, g: Config) returns (ok: bool)
    requires Distinct(node.children) && node !in node.children
    modifies Cells(node.children)
    ensures ok <==> !node.Unscaled(g)
    ensures ok ==> node.LaidOut(g)
  {
    hide Layout, Worst, RowEnd, HaveAreas, Laying, Sum, NonNegative, Rowing, From, Slice, UpTo, Backwards, Sound,
      Distinct, PlanFor;
    ghost var c: nat := 0;
    ghost var p;
    var rect;
    ok, rect, p := Prepare(node, g);
    if !ok {
      return;
    }
    var remaining, row := node.children, [];
    var best, u, area := Infinite, MinReal(rect.dx, rect.dy), 0.0;
    while |remaining| > 0
      invariant Laying(p, rect, c) && Rowing(p, node.children, remaining, row, c, area, u, best)
      invariant u == Side(rect.Extent())
      decreases |remaining|, |row|
    {
      var n := |remaining|;
      var child := remaining[n - 1];
      Offered(p, node.children, remaining, row, rect, c, area, u, best);
      RowOf(p, node.children, remaining, row, c, area, u, best);
      var longer := row + [child];
      var score := ScoreOf(longer, area + child.area, u, g.ratio, Slice(p.a, c, |row| + 1));
      if AtMost(score, best) {
        remaining, row, area, best := remaining[..n - 1], longer, area + child.area, score;
      } else {
        assert longer[..|longer| - 1] == row;
        area := area + child.area - longer[|longer| - 1].area;
        FinishRow(row, area, u, rect, false, g.round, p, c);
        u := MinReal(rect.dx, rect.dy);
        c := c + |row|;
        row, area, best := [], 0.0, Infinite;
        NewRow(p, node.children, remaining, c, u);
      }
    }
    RowOf(p, node.children, remaining, row, c, area, u, best);
    if |row| > 0 {
      FinishRow(row, area, u, rect, true, g.round, p, c);
    }
    LayingEnds(p, node, rect);
  }

  lemma SameCells(children: seq<Cell>)
    ensures Cells(Backwards(children)) <= Cells(children)
  {}

  lemma {:induction false} ChildrenInside(node: Cell, m: Cell)
    requires node.Valid() && m in node.Repr
    ensures Cells(m.children) <= node.Repr
    decreases node.Repr
  {
    if m != node {
      var c :| c in node.children && m in c.Repr;
      ChildrenInside(c, m);
    }
  }

  lemma ChildrenDistinct(node: Cell)
    requires node.Valid()
    ensures Distinct(node.children) && node !in node.children
  {
    forall i, j | 0 <= i < j < |node.children| ensures node.children[i] != node.children[j] {
      assert node.children[i] in node.children[i].Repr && node.children[i] !in node.children[j].Repr;
    }
  }

  // The children of every node below are below.
  ghost predicate Closed(node: Cell) { forall m :: m in node.Repr ==> Cells(m.children) <= node.Repr }

  // Every node from here down has its children laid out in the rectangle that it got itself.
  ghost predicate AllLaidOut(node: Cell, g: Config)
    requires Closed(node)
    reads node.Repr
  {
    forall m :: m in node.Repr ==> m.LaidOut(g)
  }

  lemma IsClosed(node: Cell)
    requires node.Valid()
    ensures Closed(node)
  {
    forall m | m in node.Repr ensures Cells(m.children) <= node.Repr { ChildrenInside(node, m); }
  }

  lemma KidFacts(node: Cell)
    requires node.Valid()
    ensures node in node.Repr && Closed(node) && Distinct(node.children) && node !in node.children
    ensures Cells(node.children) <= node.Repr - {node}
    ensures forall c :: c in node.children ==> c.Valid() && Closed(c) && c.Repr < node.Repr && node !in c.Repr
    ensures forall i, j :: 0 <= i < |node.children| && 0 <= j < |node.children| && i != j ==>
      node.children[i].Repr !! node.children[j].Repr
    ensures forall i :: 0 <= i < |node.children| ==> node.children[i].Repr - {node.children[i]} !! Cells(node.children)
  {
    hide Closed;
    var kids := node.children;
    ChildrenDistinct(node);
    IsClosed(node);
    forall c | c in kids ensures Closed(c) { IsClosed(c); }
    assert forall c :: c in kids ==> c in c.Repr && c.Repr <= node.Repr && node !in c.Repr;
    KidsApart(node);
  }

  lemma KidsApart(node: Cell)
    requires node.Valid()
    ensures forall i, j :: 0 <= i < |node.children| && 0 <= j < |node.children| && i != j ==>
      node.children[i].Repr !! node.children[j].Repr
    ensures forall i :: 0 <= i < |node.children| ==> node.children[i].Repr - {node.children[i]} !! Cells(node.children)
  {
    var kids := node.children;
    forall i, j | 0 <= i < |kids| && 0 <= j < |kids| && i != j ensures kids[i].Repr !! kids[j].Repr {
      if j < i { assert kids[j].Repr !! kids[i].Repr; }
    }
    forall i | 0 <= i < |kids| ensures kids[i].Repr - {kids[i]} !! Cells(kids) {
      forall j | 0 <= j < |kids| ensures kids[j] !in kids[i].Repr - {kids[i]} {
        assert kids[j] in kids[j].Repr;
        if j != i { assert kids[i].Repr !! kids[j].Repr; }
      }
    }
  }

  lemma AllFromKids(node: Cell, g: Config)
    requires node.Valid() && Closed(node) && node.LaidOut(g)
    requires forall c :: c in node.children ==> Closed(c) && AllLaidOut(c, g)
    ensures AllLaidOut(node, g)
  {
    forall m | m in node.Repr ensures m.LaidOut(g) {
      if m != node {
        var c :| c in node.children && m in c.Repr;
        assert AllLaidOut(c, g);
      }
    }
  }

  // Every node from here down has finite areas for its children, in the rectangle that it got itself.
  ghost predicate AllScaled(node: Cell, g: Config)
    reads node.Repr
  {
    forall m :: m in node.Repr ==> !m.Unscaled(g)
  }

  lemma ScaledFromKids(node: Cell, g: Config)
    requires node.Valid()
    ensures AllScaled(node, g) <==> !node.Unscaled(g) && forall c :: c in node.children ==> AllScaled(c, g)
  {
    hide Padded, InfiniteArea;
    if !node.Unscaled(g) && forall c :: c in node.children ==> AllScaled(c, g) {
      forall m | m in node.Repr ensures !m.Unscaled(g) {
        if m != node {
          var c :| c in node.children && m in c.Repr;
          assert AllScaled(c, g);
        }
      }
    }
  }

  /** squarify: every node below has its children laid out in the rectangle that it got itself. It fails exactly if a
      node with the value zero comes to a rectangle that is not empty and has a child with a positive value. */
  method Squarify(node: Cell, g: Config) returns (ok: bool)
    requires node.Valid()
    modifies node.Repr - {node}
    ensures ok <==> AllScaled(node, g)
    ensures Closed(node) && (ok ==> AllLaidOut(node, g))
    decreases node.Repr
  {
    hide AllLaidOut, Closed, Distinct, AllScaled;
    KidFacts(node);
    ok := LayChildren(node, g);
    if !ok {
      ScaledFromKids(node, g);
      return;
    }
    for i := 0 to |node.children|
      invariant node.LaidOut(g) && !node.Unscaled(g)
      invariant forall j :: 0 <= j < i ==> AllLaidOut(node.children[j], g) && AllScaled(node.children[j], g)
    {
      ok := Squarify(node.children[i], g);
      if !ok {
        ScaledFromKids(node, g);
        return;
      }
    }
    ScaledFromKids(node, g);
    AllFromKids(node, g);
    ok := true;
  }

  /** A node whose value is the sum of its children's, none of them negative, never fails. */
  lemma SumsAreScaled(m: Cell, g: Config)
    requires NonNegative(Values(m)) && m.value == Sum(Values(m))
    ensures !m.Unscaled(g)
  {
    hide Padded;
    var v := Values(m);
    if m.value == 0.0 {
      ZeroSum(v);
      forall c | c in m.children ensures c.value == 0.0 {
        var i :| 0 <= i < |m.children| && m.children[i] == c;
        assert v[|m.children| - 1 - i] == c.value;
      }
    }
  }

  /** Values that cancel out, 1 and -1 in a square: squarify fails. */
  method CancelledValues(ratio: real, round: real -> real) returns (ok: bool)
    ensures !ok
  {
    hide Closed, AllLaidOut, AllScaled;
    var g := Config(ratio, round, (c: Cell) => None);
    var one := new Cell(1.0, []);
    var other := new Cell(-1.0, []);
    var root := new Cell(0.0, [one, other]);
    root.x, root.y, root.dx, root.dy := 0.0, 0.0, 1.0, 1.0;
    ok := Squarify(root, g);
    assert root.children[0] == one && InfiniteArea(one.value, root.Extent(), root.value);
    assert root.Unscaled(g) by { assert Padded(root.Extent(), g.padding(root)) == root.Extent(); }
    ScaledFromKids(root, g);
  }

  // ---------- what the cells show ----------

  // These are the boxes of the children, the last child first.
  ghost predicate BoxesFromLast(children: seq<Cell>, boxes: seq<Box>)
    reads Cells(children)
  {
    |boxes| == |children| && forall i :: 0 <= i < |boxes| ==> children[|children| - 1 - i].Extent() == boxes[i]
  }

  /** The children of a node, as long as it has any, fill the rectangle inside its padding, in rows from the last child
      on. */
  ghost predicate Filled(m: Cell, g: Config)
    reads m, Cells(m.children)
  {
    var rect := Padded(m.Extent(), g.padding(m));
    m.children != [] ==>
      exists boxes :: BoxesFromLast(m.children, boxes) && Tiles(boxes, rect) && InRows(boxes, rect)
  }

  /** A child keeps to each side of its parent the distance that the padding asks for, if opposite paddings fit. */
  ghost predicate Apart(c: Box, b: Box, p: Option<Padding>) {
    match p
    case None => Inside(c, b)
    case Some(q) =>
      && (q.left + q.right <= b.dx ==> b.x + q.left <= c.x && c.x + c.dx + q.right <= b.x + b.dx)
      && (q.top + q.bottom <= b.dy ==> b.y + q.top <= c.y && c.y + c.dy + q.bottom <= b.y + b.dy)
  }

  lemma InsideIsApart(c: Box, b: Box, p: Option<Padding>)
    requires Inside(c, Padded(b, p))
    ensures Apart(c, b, p)
  {
    if p.Some? {
      PaddedSides(b, p.value);
      hide Padded;
    }
  }

  lemma LaidOutIsFilled(m: Cell, g: Config)
    requires m.LaidOut(g) && KeepsSign(g.round) && m.dx >= 0.0 && m.dy >= 0.0
    ensures Filled(m, g)
    ensures forall c :: c in m.children ==>
      c.dx >= 0.0 && c.dy >= 0.0 && Apart(c.Extent(), m.Extent(), g.padding(m))
  {
    if m.children != [] {
      var rect := Padded(m.Extent(), g.padding(m));
      var a := m.Areas(rect);
      LayoutTiles(a, rect, g.ratio, g.round);
      LayoutInRows(a, rect, g.ratio, g.round);
      hide Layout, Padded, InRows, Apart;
      var boxes, order := Layout(a, rect, g.ratio, g.round), Backwards(m.children);
      assert AllInside(boxes, rect);
      forall i | 0 <= i < |m.children| ensures m.children[i].dx >= 0.0 && m.children[i].dy >= 0.0
        && Apart(m.children[i].Extent(), m.Extent(), g.padding(m))
      {
        var k := |m.children| - 1 - i;
        assert order[k].Extent() == boxes[k] && Inside(boxes[k], rect);
        InsideIsApart(boxes[k], m.Extent(), g.padding(m));
      }
      assert BoxesFromLast(m.children, boxes);
    }
  }

  /** After squarify every node with children is tiled by them, in rows and at the distances that its padding asks for,
      if the root is no negative box. */
  lemma {:induction false} AllFilled(node: Cell, g: Config, m: Cell)
    requires node.Valid() && Closed(node) && AllLaidOut(node, g) && KeepsSign(g.round) && node.dx >= 0.0
    requires node.dy >= 0.0
    requires m in node.Repr
    ensures Filled(m, g)
    ensures forall c :: c in m.children ==> Apart(c.Extent(), m.Extent(), g.padding(m))
    decreases node.Repr
  {
    LaidOutIsFilled(node, g);
    hide Filled, Apart;
    if m != node {
      var c :| c in node.children && m in c.Repr;
      forall k | k in c.Repr ensures Cells(k.children) <= c.Repr { ChildrenInside(c, k); }
      AllFilled(c, g, m);
    }
  }

  // The values of the children, the last child first.
  ghost function Values(m: Cell): (v: seq<real>)
    ensures |v| == |m.children|
  {
    seq(|m.children|, k requires 0 <= k < |m.children| => m.children[|m.children| - 1 - k].value)
  }

  lemma {:induction false} SumScaled(a: seq<real>, v: seq<real>, k: real)
    requires |a| == |v| && forall i :: 0 <= i < |a| ==> a[i] == Product(v[i], k)
    ensures Sum(a) == Product(Sum(v), k)
  {
    hide Product;
    if a == [] {
      ProductOfZero(k);
    } else {
      var n := |a| - 1;
      SumScaled(a[..n], v[..n], k);
      ProductSplits(Sum(v[..n]), v[n], k);
    }
  }

  lemma ScaledIsProduct(value: real, rect: Box, total: real)
    requires value >= 0.0 && total > 0.0 && rect.dx >= 0.0 && rect.dy >= 0.0
    ensures ScaledArea(value, rect, total) == Product(value, AreaOf(rect) / total)
  {
    var k := AreaOf(rect) / total;
    ProductOfQuotient(AreaOf(rect), total);
    assert AreaOf(rect) >= 0.0;
    assert k >= 0.0;
    assert value * k >= 0.0;
  }

  /** Without rounding, a child gets the share of its parent's rectangle that its value has of the total. */
  lemma SharesAreValues(m: Cell, g: Config, i: nat)
    requires m.LaidOut(g) && m.dx >= 0.0 && m.dy >= 0.0 && i < |m.children| && forall r :: g.round(r) == r
    requires NonNegative(Values(m)) && m.value == Sum(Values(m)) > 0.0
    ensures AreaOf(m.children[i].Extent()) ==
      Product(m.children[i].value, AreaOf(Padded(m.Extent(), g.padding(m))) / m.value)
  {
    var rect, v, k := Padded(m.Extent(), g.padding(m)), Values(m), |m.children| - 1 - i;
    var a, share := m.Areas(rect), AreaOf(rect) / m.value;
    forall i | 0 <= i < |a| ensures a[i] == Product(v[i], share) { ScaledIsProduct(v[i], rect, m.value); }
    assert rect.dx >= 0.0 && rect.dy >= 0.0;
    assert v[k] == m.children[i].value && Backwards(m.children)[k] == m.children[i];
    hide Product, Sum, AreaOf, Layout, Padded, Backwards;
    SumScaled(a, v, share);
    assert Sum(a) == AreaOf(rect) by { ProductOfQuotient(AreaOf(rect), m.value); ProductSplits(m.value, 0.0, share); }
    LayoutIsProportional(a, rect, g.ratio, g.round);
    assert Backwards(m.children)[k].Extent() == Layout(a, rect, g.ratio, g.round)[k];
  }

  /** If rounding gives whole numbers, the cells of a node are at whole coordinates if the rectangle for them is. */
  lemma CellsAreWhole(m: Cell, g: Config)
    requires m.LaidOut(g) && WholeBox(Padded(m.Extent(), g.padding(m))) && forall r :: Whole(g.round(r))
    ensures forall c :: c in m.children ==> WholeBox(c.Extent())
  {
    hide Whole, Padded;
    var rect := Padded(m.Extent(), g.padding(m));
    LayoutIsWhole(m.Areas(rect), rect, g.ratio, g.round);
    hide Layout;
    forall i | 0 <= i < |m.children| ensures WholeBox(m.children[i].Extent()) {
      assert Backwards(m.children)[|m.children| - 1 - i] == m.children[i];
    }
  }
}
