/** Graham scan of d3.geom.hull, in exact arithmetic. */
module ConvexHull {
  import opened Sequences

  datatype Point = Point(x: real, y: real)

  // An entry of the polar list; the scan writes -1 into the index of an entry it tosses out.
  datatype Polar = Polar(angle: real, index: int)

  // Stuck: an entry is read that does not exist, when the loop that fills the stack finds fewer than two
  // directions, or when the scan empties the stack.
  datatype Outcome = Polygon(points: seq<Point>) | Stuck

  /** Twice the signed area of a triangle: positive iff a, b, c turn counter-clockwise. */
  function Orient(a: Point, b: Point, c: Point): real {
    (c.y - a.y) * (b.x - a.x) - (b.y - a.y) * (c.x - a.x)
  }

  function DistanceSquared(a: Point, b: Point): real {
    (b.x - a.x) * (b.x - a.x) + (b.y - a.y) * (b.y - a.y)
  }

  // Directions that can occur around the lowest leftmost point: angles in [0, pi).
  predicate Upper(o: Point, p: Point) {
    o.y < p.y || (o.y == p.y && o.x < p.x)
  }

  /** What exact atan2 guarantees on [0, pi): the angle order is the turning order. */
  ghost predicate ExactAngles(angle: (Point, Point) -> real) {
    forall o, p, q {:trigger angle(o, p), angle(o, q)} :: Upper(o, p) && Upper(o, q) ==>
      (angle(o, p) < angle(o, q) <==> Orient(o, p, q) > 0.0)
  }

  /** And on the point itself: atan2(0, 0) is the angle of what lies level on the right. */
  ghost predicate LevelFirst(angle: (Point, Point) -> real) {
    forall o, p {:trigger angle(o, p)} :: Upper(o, p) ==>
      angle(o, o) <= angle(o, p) && (angle(o, o) == angle(o, p) <==> o.y == p.y)
  }

  ghost predicate AllCollinear(v: seq<Point>) {
    forall i, j, k :: 0 <= i < |v| && 0 <= j < |v| && 0 <= k < |v| ==> Orient(v[i], v[j], v[k]) == 0.0
  }

  /** The specification of a hull: a strictly convex counter-clockwise polygon over
      the given vertices that has every vertex on or left of every one of its edges. */
  ghost predicate IsHull(poly: seq<Point>, v: seq<Point>) {
    && |poly| >= 3
    && Distinct(poly)
    && (forall i :: 0 <= i < |poly| ==> poly[i] in v)
    && (forall i, j, k ::
      0 <= i < |poly| && 0 <= j < |poly| && 0 <= k < |poly| && j == Next(i, |poly|) && k == Next(j, |poly|) ==>
      Orient(poly[i], poly[j], poly[k]) > 0.0)
    && (forall i, j, k :: 0 <= i < |poly| && 0 <= j < |poly| && 0 <= k < |v| && j == Next(i, |poly|) ==>
      Orient(poly[i], poly[j], v[k]) >= 0.0)
  }

  /** What the algorithm is for: it is stuck on points of one line, and otherwise finds their hull. */
  ghost predicate IsRight(v: seq<Point>, r: Outcome) {
    (r == Stuck <==> AllCollinear(v)) && (r.Polygon? ==> IsHull(r.points, v))
  }

  // The leftmost of the lowest points.
  ghost predicate IsReference(v: seq<Point>, h: Point) {
    forall i :: 0 <= i < |v| ==> v[i] == h || Upper(h, v[i])
  }

  ghost predicate Once(v: seq<Point>, h: Point) {
    forall i, j :: 0 <= i < |v| && 0 <= j < |v| && v[i] == h && v[j] == h ==> i == j
  }

  ghost predicate HasLevel(v: seq<Point>, h: Point) { exists k :: 0 <= k < |v| && v[k] != h && v[k].y == h.y }

  ghost predicate AllEqual(v: seq<Point>, h: Point) { forall k :: 0 <= k < |v| ==> v[k] == h }

  /** The leftmost of the lowest points is given once, or another point lies level with it, or there is no other. */
  ghost predicate ReferenceShows(v: seq<Point>) {
    forall h :: h in v && IsReference(v, h) ==> Once(v, h) || HasLevel(v, h) || AllEqual(v, h)
  }

  function Next(i: int, n: int): int { if i + 1 < n then i + 1 else 0 }

  // ---------- the plane ----------

  lemma Rotate(a: Point, b: Point, c: Point)
    ensures Orient(a, b, c) == Orient(b, c, a) == Orient(c, a, b)
    ensures Orient(a, b, c) == -Orient(a, c, b)
  {}

  /** Around b, four directions satisfy the Pluecker relation; signs of three turns give the fourth. */
  lemma Pluecker(b: Point, o: Point, a: Point, p: Point, q: Point)
    ensures Orient(b, o, a) * Orient(b, q, p) == Orient(b, p, a) * Orient(b, q, o) + Orient(b, o, p) * Orient(b, q, a)
  {}

  lemma SignOfProduct(x: real, y: real, z: real)
    requires x > 0.0 && x * y == z && z >= 0.0
    ensures y >= 0.0
    ensures z > 0.0 ==> y > 0.0
  {}

  lemma ProductNonNegative(x: real, y: real)
    requires x >= 0.0 && y >= 0.0
    ensures x * y >= 0.0
  {}

  /** A point left of the last edge of a left-turning fan is left of the edge before it. */
  lemma LeftOfPreviousEdge(h: Point, a: Point, b: Point, c: Point, q: Point)
    requires Orient(h, a, b) > 0.0 || (h == a)
    requires Orient(h, b, c) > 0.0 && Orient(h, b, q) > 0.0
    requires Orient(a, b, c) > 0.0 && Orient(b, c, q) > 0.0
    ensures Orient(a, b, q) > 0.0
  {
    if h != a {
      var left := Orient(h, b, q) * Orient(a, b, c) + Orient(b, c, q) * Orient(h, a, b);
      assert Orient(h, b, c) * Orient(a, b, q) == left;
      assert Orient(h, b, q) * Orient(a, b, c) > 0.0;
      assert Orient(b, c, q) * Orient(h, a, b) > 0.0;
      SignOfProduct(Orient(h, b, c), Orient(a, b, q), left);
    }
  }

  /** Popping b: a point between a and b in the fan stays left of the chord from a to q. */
  lemma PopBetween(h: Point, a: Point, b: Point, p: Point, q: Point)
    requires Orient(h, a, b) > 0.0 && Orient(h, a, p) > 0.0 && Orient(h, a, q) > 0.0
    requires Orient(a, b, p) >= 0.0 && Orient(a, b, q) <= 0.0
    ensures Orient(a, q, p) >= 0.0
  {
    hide Orient;
    // Around a: q, b, p lie in the open half-plane to the right of h.
    Rotate(h, a, b); Rotate(h, a, p); Rotate(h, a, q); Rotate(a, b, q); Rotate(a, h, p); Rotate(a, h, b);
    Pluecker(a, h, b, p, q);
    assert Orient(a, h, b) == -Orient(h, a, b) && Orient(a, p, b) == -Orient(a, b, p) by { Rotate(a, b, p); }
    ProductNonNegative(Orient(h, a, p), -Orient(a, b, q));
    ProductNonNegative(Orient(a, b, p), Orient(h, a, q));
    assert Orient(a, h, p) == -Orient(h, a, p) && Orient(a, q, h) == Orient(h, a, q)
      && Orient(a, q, b) == -Orient(a, b, q);
    SignOfProduct(Orient(h, a, b), Orient(a, q, p),
      Orient(a, b, p) * Orient(h, a, q) + Orient(h, a, p) * -Orient(a, b, q));
  }

  /** Popping b: a point beyond b that is left of the chord from b is left of the chord from a. */
  lemma PopBeyond(h: Point, a: Point, b: Point, p: Point, q: Point)
    requires Orient(h, a, q) > 0.0 && Orient(h, b, q) > 0.0 && Orient(h, p, q) > 0.0
    requires Orient(b, q, p) >= 0.0 && Orient(a, b, q) <= 0.0
    ensures Orient(a, q, p) >= 0.0
  {
    hide Orient;
    Rotate(h, a, q); Rotate(h, b, q); Rotate(h, p, q); Rotate(b, q, p); Rotate(a, b, q); Rotate(a, q, p);
    Pluecker(q, h, b, a, p);
    assert Orient(q, a, b) == Orient(a, b, q) && Orient(q, p, a) == Orient(a, q, p);
    assert Orient(q, p, h) == -Orient(h, p, q) && Orient(q, p, b) == Orient(b, q, p)
      by { Rotate(q, p, h); Rotate(q, h, p); }
    ProductNonNegative(-Orient(a, b, q), Orient(h, p, q));
    ProductNonNegative(Orient(h, a, q), Orient(b, q, p));
    SignOfProduct(Orient(h, b, q), Orient(a, q, p),
      -Orient(a, b, q) * Orient(h, p, q) + Orient(h, a, q) * Orient(b, q, p));
  }

  /** Pushing q on b: a point not beyond b and left of the edge from a to b is left of the new edge. */
  lemma PushBefore(h: Point, a: Point, b: Point, p: Point, q: Point)
    requires Orient(h, a, b) > 0.0 && Orient(h, b, q) > 0.0 && Orient(a, b, q) > 0.0
    requires Orient(h, b, p) <= 0.0 && Orient(a, b, p) >= 0.0
    ensures Orient(b, q, p) >= 0.0
  {
    hide Orient;
    Pluecker(b, h, a, p, q);
    Rotate(h, a, b); Rotate(a, b, p); Rotate(h, b, q); Rotate(h, b, p); Rotate(a, b, q);
    assert Orient(b, h, p) == -Orient(h, b, p) by { Rotate(b, h, p); }
    ProductNonNegative(Orient(a, b, p), Orient(h, b, q));
    ProductNonNegative(-Orient(h, b, p), Orient(a, b, q));
    SignOfProduct(Orient(h, a, b), Orient(b, q, p),
      Orient(a, b, p) * Orient(h, b, q) + -Orient(h, b, p) * Orient(a, b, q));
  }

  /** A tossed point lies on the segment from the reference to its keeper, so it is left
      of every line that has both of them on its left. */
  lemma TossedIsLeft(h: Point, p: Point, s: Point, e: Point, f: Point)
    requires Upper(h, p) && Upper(h, s) && Orient(h, p, s) == 0.0
    requires DistanceSquared(h, p) <= DistanceSquared(h, s)
    requires Orient(e, f, h) >= 0.0 && Orient(e, f, s) >= 0.0
    ensures Orient(e, f, p) >= 0.0
  {
    hide Orient, DistanceSquared;
    var px, py, sx, sy := p.x - h.x, p.y - h.y, s.x - h.x, s.y - h.y;
    var dot, len := px * sx + py * sy, sx * sx + sy * sy;
    OneRay(h, p, s);
    DotOnOneRay(px, py, sx, sy);
    ParallelScale(px, py, sx, sy);
    TurnIsAffine(h, p, s, e, f, len, dot);
    ProductNonNegative(len - dot, Orient(e, f, h));
    ProductNonNegative(dot, Orient(e, f, s));
    SignOfProduct(len, Orient(e, f, p), (len - dot) * Orient(e, f, h) + dot * Orient(e, f, s));
  }

  lemma OneRay(h: Point, p: Point, s: Point)
    requires Orient(h, p, s) == 0.0 && DistanceSquared(h, p) <= DistanceSquared(h, s)
    ensures (s.y - h.y) * (p.x - h.x) == (p.y - h.y) * (s.x - h.x)
    ensures (p.x - h.x) * (p.x - h.x) + (p.y - h.y) * (p.y - h.y) <=
      (s.x - h.x) * (s.x - h.x) + (s.y - h.y) * (s.y - h.y)
  {}

  lemma ParallelScale(px: real, py: real, sx: real, sy: real)
    requires sy * px == py * sx
    ensures (sx * sx + sy * sy) * px == (px * sx + py * sy) * sx
    ensures (sx * sx + sy * sy) * py == (px * sx + py * sy) * sy
  {
    assert (sx * sx + sy * sy) * px == sx * sx * px + sy * (sy * px);
    assert (sx * sx + sy * sy) * py == sx * (py * sx) + sy * sy * py;
  }

  lemma TurnIsAffine(h: Point, p: Point, s: Point, e: Point, f: Point, len: real, dot: real)
    requires len * (p.x - h.x) == dot * (s.x - h.x) && len * (p.y - h.y) == dot * (s.y - h.y)
    ensures len * Orient(e, f, p) == (len - dot) * Orient(e, f, h) + dot * Orient(e, f, s)
  {
    var fx, fy := f.x - e.x, f.y - e.y;
    assert Orient(e, f, p) == Orient(e, f, h) + (p.y - h.y) * fx - fy * (p.x - h.x);
    assert Orient(e, f, s) == Orient(e, f, h) + (s.y - h.y) * fx - fy * (s.x - h.x);
    assert len * ((p.y - h.y) * fx - fy * (p.x - h.x)) == (len * (p.y - h.y)) * fx - fy * (len * (p.x - h.x));
    assert dot * ((s.y - h.y) * fx - fy * (s.x - h.x)) == (dot * (s.y - h.y)) * fx - fy * (dot * (s.x - h.x));
  }

  lemma DotOnOneRay(px: real, py: real, sx: real, sy: real)
    requires py > 0.0 || (py == 0.0 && px > 0.0)
    requires sy > 0.0 || (sy == 0.0 && sx > 0.0)
    requires sy * px == py * sx
    requires px * px + py * py <= sx * sx + sy * sy
    ensures 0.0 <= px * sx + py * sy <= sx * sx + sy * sy
    ensures sx * sx + sy * sy > 0.0
  {
    var dot, len, lenP := px * sx + py * sy, sx * sx + sy * sy, px * px + py * py;
    assert sx * sx >= 0.0 && sy * sy >= 0.0;
    assert len > 0.0;
    if sy == 0.0 {
      assert py * sx == 0.0;
    } else {
      assert sy * dot == py * len by {
        assert sy * dot == (sy * px) * sx + sy * py * sy;
        assert py * len == (py * sx) * sx + py * sy * sy;
      }
      assert py * len >= 0.0;
      SignOfProduct(sy, dot, py * len);
    }
  }

  // ---------- the scan over points ----------

  // s is the stack, bottom first, with the reference point at s[0];
  // done is the set of surviving points the scan has reached.

  ghost predicate Fan(s: seq<Point>) {
    forall i, k :: 1 <= i < k < |s| ==> Orient(s[0], s[i], s[k]) > 0.0
  }

  ghost predicate Turns(s: seq<Point>) {
    forall i, j, k :: 0 <= i < |s| - 2 && j == i + 1 && k == i + 2 ==> Orient(s[i], s[j], s[k]) > 0.0
  }

  ghost predicate LeftOfEdges(s: seq<Point>, done: set<Point>) {
    forall i, j, p :: 0 <= i < |s| - 1 && j == i + 1 && p in done ==> Orient(s[i], s[j], p) >= 0.0
  }

  ghost predicate Chain(s: seq<Point>, done: set<Point>) {
    |s| >= 2 && Fan(s) && Turns(s) && LeftOfEdges(s, done)
  }

  // All survivors seen from the reference lie in different directions.
  ghost predicate Directions(h: Point, done: set<Point>) {
    forall p, q :: p in done && q in done && p != q ==> Orient(h, p, q) != 0.0
  }

  // q lies strictly beyond every point of done.
  ghost predicate Beyond(h: Point, done: set<Point>, q: Point) {
    forall p :: p in done ==> Orient(h, p, q) > 0.0
  }

  // The points beyond the top of the stack are left of the edge that would run from it to q.
  ghost predicate CutLeft(s: seq<Point>, done: set<Point>, q: Point)
    requires |s| >= 2
  {
    var top := s[|s| - 1];
    forall p :: p in done && Orient(s[0], top, p) > 0.0 ==> Orient(top, q, p) >= 0.0
  }

  /** Every iteration of the pop loop keeps CutLeft. */
  lemma PopKeepsCut(s: seq<Point>, done: set<Point>, q: Point)
    requires |s| >= 3 && Chain(s, done) && (forall i :: 1 <= i < |s| ==> s[i] in done)
    requires Beyond(s[0], done, q) && CutLeft(s, done, q)
    requires Orient(s[|s| - 2], s[|s| - 1], q) <= 0.0
    ensures Chain(s[..|s| - 1], done) && CutLeft(s[..|s| - 1], done, q)
  {
    var n := |s|;
    var h, a, b := s[0], s[n - 2], s[n - 1];
    forall p | p in done && Orient(h, a, p) > 0.0
      ensures Orient(a, q, p) >= 0.0
    {
      if Orient(h, b, p) > 0.0 {
        PopBeyond(h, a, b, p, q);
      } else {
        assert Orient(a, b, p) >= 0.0;
        PopBetween(h, a, b, p, q);
      }
    }
  }

  /** Once the top edge has q on its left, so has every edge below it. */
  lemma {:induction false} LeftOfAllEdges(s: seq<Point>, q: Point, i: nat)
    requires |s| >= 2 && Fan(s) && Turns(s) && i < |s| - 1
    requires forall k :: 1 <= k < |s| ==> Orient(s[0], s[k], q) > 0.0
    requires Orient(s[|s| - 2], s[|s| - 1], q) > 0.0
    ensures Orient(s[i], s[i + 1], q) > 0.0
    decreases |s| - i
  {
    if i < |s| - 2 {
      LeftOfAllEdges(s, q, i + 1);
      LeftOfPreviousEdge(s[0], s[i], s[i + 1], s[i + 2], q);
    }
  }

  /** Every reached point is left of the new edge that runs to q. */
  lemma LeftOfNewEdge(s: seq<Point>, done: set<Point>, q: Point, p: Point)
    requires Chain(s, done) && (forall i :: 1 <= i < |s| ==> s[i] in done)
    requires Directions(s[0], done) && Beyond(s[0], done, q) && CutLeft(s, done, q)
    requires Orient(s[|s| - 2], s[|s| - 1], q) > 0.0 && p in done
    ensures Orient(s[|s| - 1], q, p) >= 0.0
  {
    var n := |s|;
    var h, a, b := s[0], s[n - 2], s[n - 1];
    if Orient(h, b, p) <= 0.0 {
      assert Orient(a, b, p) >= 0.0;
      if n > 2 {
        PushBefore(h, a, b, p, q);
      } else {
        assert p == b;
      }
    }
  }

  lemma PushKeepsTurns(s: seq<Point>, q: Point)
    requires |s| >= 2 && Fan(s) && Turns(s)
    requires forall k :: 1 <= k < |s| ==> Orient(s[0], s[k], q) > 0.0
    requires Orient(s[|s| - 2], s[|s| - 1], q) > 0.0
    ensures Fan(s + [q]) && Turns(s + [q])
  {}

  /** Pushing q extends the chain and the region it covers. */
  lemma PushKeepsChain(s: seq<Point>, done: set<Point>, q: Point)
    requires Chain(s, done) && (forall i :: 1 <= i < |s| ==> s[i] in done)
    requires Directions(s[0], done) && Beyond(s[0], done, q) && CutLeft(s, done, q)
    requires Orient(s[|s| - 2], s[|s| - 1], q) > 0.0
    ensures Chain(s + [q], done + {q})
  {
    PushKeepsTurns(s, q);
    var t := s + [q];
    forall i, j, p | 0 <= i < |t| - 1 && j == i + 1 && p in done + {q}
      ensures Orient(t[i], t[j], p) >= 0.0
    {
      if j == |s| {
        if p != q { LeftOfNewEdge(s, done, q, p); }
      } else if p == q {
        LeftOfAllEdges(s, q, i);
      } else {
        assert Orient(s[i], s[j], p) >= 0.0;
      }
    }
  }

  // ---------- the stages of the algorithm ----------

  method FindReference(v: seq<Point>) returns (h: nat)
    requires |v| > 0
    ensures h < |v|
    ensures forall i :: 0 <= i < |v| ==> v[i] == v[h] || Upper(v[h], v[i])
  {
    h := 0;
    for i := 1 to |v|
      invariant h < |v|
      invariant forall k :: 0 <= k < i ==> v[k] == v[h] || Upper(v[h], v[k])
    {
      if v[i].y < v[h].y {
        h := i;
      } else if v[i].y == v[h].y {
        h := if v[i].x < v[h].x then i else h;
      }
    }
  }

  ghost predicate SortedByAngle(points: seq<Polar>) {
    forall k, l :: 0 <= k < l < |points| ==> points[k].angle <= points[l].angle
  }

  method InsertByAngle(sorted: seq<Polar>, x: Polar) returns (r: seq<Polar>)
    requires SortedByAngle(sorted)
    ensures SortedByAngle(r) && multiset(r) == multiset(sorted) + multiset{x}
  {
    var k := |sorted|;
    while k > 0 && x.angle < sorted[k - 1].angle
      invariant 0 <= k <= |sorted|
      invariant k < |sorted| ==> x.angle < sorted[k].angle
    {
      k := k - 1;
    }
    r := sorted[..k] + ([x] + sorted[k..]);
    InsertKeepsElements(sorted, k, x);
    InsertKeepsOrder(sorted, k, x);
  }

  lemma InsertKeepsElements(s: seq<Polar>, k: nat, x: Polar)
    requires k <= |s|
    ensures multiset(s[..k] + ([x] + s[k..])) == multiset(s) + multiset{x}
  {
    assert s == s[..k] + s[k..];
  }

  lemma InsertKeepsOrder(s: seq<Polar>, k: nat, x: Polar)
    requires SortedByAngle(s) && k <= |s|
    requires k < |s| ==> x.angle <= s[k].angle
    requires k > 0 ==> s[k - 1].angle <= x.angle
    ensures SortedByAngle(s[..k] + ([x] + s[k..]))
  {
    var r := s[..k] + ([x] + s[k..]);
    forall i, l | 0 <= i < l < |r| ensures r[i].angle <= r[l].angle {
      var i', l' := if i > k then i - 1 else i, if l > k then l - 1 else l;
      if i != k { assert r[i] == s[i']; }
      if l != k { assert r[l] == s[l']; }
    }
  }

  // The built-in sort: callers only rely on the order and on the elements being kept.
  method SortByAngle(points: seq<Polar>) returns (sorted: seq<Polar>)
    ensures SortedByAngle(sorted) && multiset(sorted) == multiset(points)
  {
    sorted := [];
    for i := 0 to |points|
      invariant SortedByAngle(sorted) && multiset(sorted) == multiset(points[..i])
    {
      assert points[..i + 1] == points[..i] + [points[i]];
      sorted := InsertByAngle(sorted, points[i]);
    }
    assert points[..|points|] == points;
  }

  // The entries are the vertices other than h, each with its angle.
  ghost predicate PolarView(v: seq<Point>, h: nat, angle: (Point, Point) -> real, points: seq<Polar>)
    requires h < |v|
  {
    && (forall k :: 0 <= k < |points| ==>
        0 <= points[k].index < |v| && points[k].index != h && points[k].angle == angle(v[h], v[points[k].index]))
    && (forall i :: 0 <= i < |v| && i != h ==> Polar(angle(v[h], v[i]), i) in points)
  }

  method PolarOrder(v: seq<Point>, h: nat, angle: (Point, Point) -> real) returns (points: seq<Polar>)
    requires h < |v|
    ensures SortedByAngle(points) && PolarView(v, h, angle, points)
  {
    var unsorted: seq<Polar> := [];
    for i := 0 to |v|
      invariant forall k :: 0 <= k < |unsorted| ==>
        0 <= unsorted[k].index < i && unsorted[k].index != h && unsorted[k].angle == angle(v[h], v[unsorted[k].index])
      invariant forall k :: 0 <= k < i && k != h ==> Polar(angle(v[h], v[k]), k) in unsorted
    {
      if i != h {
        unsorted := unsorted + [Polar(angle(v[h], v[i]), i)];
      }
    }
    points := SortByAngle(unsorted);
    forall k | 0 <= k < |points| ensures points[k] in unsorted {
      assert points[k] in multiset(points);
    }
    forall i | 0 <= i < |v| && i != h ensures Polar(angle(v[h], v[i]), i) in points {
      assert Polar(angle(v[h], v[i]), i) in multiset(unsorted);
    }
  }

  // kept is points with some indices overwritten by -1; keeper[k] survives for entry k:
  // it has the same angle and is at least as far from the reference.
  ghost predicate Tossed(v: seq<Point>, h: nat, points: seq<Polar>, kept: seq<Polar>, keeper: seq<nat>, n: nat)
    requires h < |v| && n <= |points| == |kept| && n <= |keeper|
    requires forall k :: 0 <= k < |points| ==> 0 <= points[k].index < |v|
  {
    && (forall k :: 0 <= k < |points| ==> kept[k] == points[k] || (k < n && kept[k] == Polar(points[k].angle, -1)))
    && (forall k, l :: 0 <= k < l < n && kept[k].index != -1 && kept[l].index != -1 ==>
      points[k].angle < points[l].angle)
    && (forall k :: 0 <= k < n ==>
        && keeper[k] < n && kept[keeper[k]].index != -1 && points[keeper[k]].angle == points[k].angle
        && DistanceSquared(v[h], v[points[k].index]) <= DistanceSquared(v[h], v[points[keeper[k]].index]))
  }

  ghost function Rekeep(keeper: seq<nat>, u: nat, i: nat): (r: seq<nat>)
    ensures |r| == |keeper| + 1 && r[|keeper|] == i
    ensures forall k :: 0 <= k < |keeper| ==> r[k] == if keeper[k] == u then i else keeper[k]
  {
    seq(|keeper|, k requires 0 <= k < |keeper| => if keeper[k] == u then i else keeper[k]) + [i]
  }

  // The three ways entry i is dealt with, u being the survivor of the last angle group.
  lemma TossNew(v: seq<Point>, h: nat, points: seq<Polar>, kept: seq<Polar>, keeper: seq<nat>, u: nat, i: nat)
    requires h < |v| && u < i < |points| == |kept| && |keeper| == i
    requires forall k :: 0 <= k < |points| ==> 0 <= points[k].index < |v|
    requires Tossed(v, h, points, kept, keeper, i) && kept[u] == points[u] && points[u].angle == points[i].angle
    requires DistanceSquared(v[h], v[points[u].index]) >= DistanceSquared(v[h], v[points[i].index])
    ensures Tossed(v, h, points, kept[i := Polar(points[i].angle, -1)], keeper + [u], i + 1)
  {
    hide DistanceSquared;
  }

  lemma TossOld(v: seq<Point>, h: nat, points: seq<Polar>, kept: seq<Polar>, keeper: seq<nat>, u: nat, i: nat)
    requires h < |v| && u < i < |points| == |kept| && |keeper| == i && SortedByAngle(points)
    requires forall k :: 0 <= k < |points| ==> 0 <= points[k].index < |v|
    requires Tossed(v, h, points, kept, keeper, i) && kept[u] == points[u] && points[u].angle == points[i].angle
    requires DistanceSquared(v[h], v[points[u].index]) <= DistanceSquared(v[h], v[points[i].index])
    ensures Tossed(v, h, points, kept[u := Polar(points[u].angle, -1)], Rekeep(keeper, u, i), i + 1)
  {
    hide DistanceSquared;
  }

  lemma KeepNew(v: seq<Point>, h: nat, points: seq<Polar>, kept: seq<Polar>, keeper: seq<nat>, i: nat)
    requires h < |v| && 0 < i < |points| == |kept| && |keeper| == i && SortedByAngle(points)
    requires forall k :: 0 <= k < |points| ==> 0 <= points[k].index < |v|
    requires Tossed(v, h, points, kept, keeper, i) && points[i - 1].angle < points[i].angle
    ensures Tossed(v, h, points, kept, keeper + [i], i + 1)
  {
    hide DistanceSquared;
  }

  method TossDuplicates(v: seq<Point>, h: nat, points: seq<Polar>) returns (kept: seq<Polar>, ghost keeper: seq<nat>)
    requires h < |v| && |points| > 0 && SortedByAngle(points)
    requires forall k :: 0 <= k < |points| ==> 0 <= points[k].index < |v|
    ensures |kept| == |keeper| == |points| && Tossed(v, h, points, kept, keeper, |points|)
  {
    hide Tossed, DistanceSquared, SortedByAngle;
    kept := points;
    keeper := [0];
    TossedFirst(v, h, points);
    var a, far, u := points[0].angle, points[0].index, 0;
    for i := 1 to |points|
      invariant |kept| == |points| && |keeper| == i && Tossed(v, h, points, kept, keeper, i)
      invariant 0 <= u < i && kept[u] == points[u] && far == points[u].index
      invariant a == points[u].angle == points[i - 1].angle
      invariant forall k :: i <= k < |points| ==> kept[k] == points[k]
    {
      assert points[i - 1].angle <= points[i].angle by { Consecutive(points, i); }
      var j := kept[i].index;
      if a == kept[i].angle {
        if DistanceSquared(v[h], v[far]) >= DistanceSquared(v[h], v[j]) {
          TossNew(v, h, points, kept, keeper, u, i);
          kept := kept[i := kept[i].(index := -1)];
          keeper := keeper + [u];
        } else {
          TossOld(v, h, points, kept, keeper, u, i);
          kept := kept[u := kept[u].(index := -1)];
          keeper := Rekeep(keeper, u, i);
          a, u, far := kept[i].angle, i, j;
        }
      } else {
        KeepNew(v, h, points, kept, keeper, i);
        a, u, far := kept[i].angle, i, j;
        keeper := keeper + [i];
      }
    }
  }

  lemma TossedFirst(v: seq<Point>, h: nat, points: seq<Polar>)
    requires h < |v| && |points| > 0 && forall k :: 0 <= k < |points| ==> 0 <= points[k].index < |v|
    ensures Tossed(v, h, points, points, [0], 1)
  {}

  lemma Consecutive(points: seq<Polar>, i: nat)
    requires SortedByAngle(points) && 0 < i < |points|
    ensures points[i - 1].angle <= points[i].angle
  {}

  function At(v: seq<Point>, ids: seq<int>): (s: seq<Point>)
    requires forall i :: 0 <= i < |ids| ==> 0 <= ids[i] < |v|
    ensures |s| == |ids| && forall i :: 0 <= i < |ids| ==> s[i] == v[ids[i]]
  {
    seq(|ids|, i requires 0 <= i < |ids| => v[ids[i]])
  }

  // The survivors among the first n entries.
  ghost function Reached(v: seq<Point>, kept: seq<Polar>, n: nat): set<Point>
    requires n <= |kept| && Survivors(v, kept)
  {
    if n == 0 then {}
    else if kept[n - 1].index == -1 then Reached(v, kept, n - 1)
    else Reached(v, kept, n - 1) + {v[kept[n - 1].index]}
  }

  lemma {:induction false} SurvivorIsReached(v: seq<Point>, kept: seq<Polar>, k: nat, n: nat)
    requires k < n <= |kept| && Survivors(v, kept) && kept[k].index != -1
    ensures v[kept[k].index] in Reached(v, kept, n)
  {
    if k < n - 1 { SurvivorIsReached(v, kept, k, n - 1); }
  }

  ghost predicate Survivors(v: seq<Point>, kept: seq<Polar>) {
    forall k :: 0 <= k < |kept| ==> kept[k].index == -1 || 0 <= kept[k].index < |v|
  }

  // Survivors turn strictly counter-clockwise around the reference.
  ghost predicate StrictFan(v: seq<Point>, h: Point, kept: seq<Polar>)
    requires Survivors(v, kept)
  {
    forall k, l :: 0 <= k < l < |kept| && kept[k].index != -1 && kept[l].index != -1 ==>
      Orient(h, v[kept[k].index], v[kept[l].index]) > 0.0
  }

  // The stack holds the reference and the only two survivors before entry j.
  ghost predicate Filled(kept: seq<Polar>, h: int, stack: seq<int>, first: nat, j: nat) {
    && first < j - 1 < |kept| && stack == [h, kept[first].index, kept[j - 1].index]
    && kept[first].index != -1 && kept[j - 1].index != -1
    && (forall k :: 0 <= k < j && k != first && k != j - 1 ==> kept[k].index == -1)
  }

  method FillStack(kept: seq<Polar>, h: int) returns (full: bool, stack: seq<int>, j: nat, ghost first: nat)
    ensures full <==> !OneDirection(kept)
    ensures full ==> Filled(kept, h, stack, first, j)
  {
    stack, first, j := [h], 0, 0;
    var i := 0;
    while i < 2
      invariant 0 <= i <= 2 && j <= |kept|
      invariant i == 0 ==> stack == [h] && forall k :: 0 <= k < j ==> kept[k].index == -1
      invariant i >= 1 ==> first < j && kept[first].index != -1
      invariant i == 1 ==> stack == [h, kept[first].index] && forall k :: 0 <= k < j && k != first ==>
        kept[k].index == -1
      invariant i == 2 ==>
        first < j - 1 && stack == [h, kept[first].index, kept[j - 1].index] && kept[j - 1].index != -1
      invariant i == 2 ==> forall k :: 0 <= k < j && k != first && k != j - 1 ==> kept[k].index == -1
      decreases |kept| - j, 2 - i
    {
      if j == |kept| {
        return false, stack, j, first;
      }
      if kept[j].index != -1 {
        stack := stack + [kept[j].index];
        if i == 0 { first := j; }
        i := i + 1;
      }
      j := j + 1;
    }
    full := true;
  }

  // What the scan knows between two entries, done being the survivors it has reached.
  ghost predicate Scanned(s: seq<Point>, done: set<Point>) {
    Chain(s, done) && EndsAhead(s, done) && (forall i :: 1 <= i < |s| ==> s[i] in done)
  }

  lemma {:induction false} ReachedBefore(v: seq<Point>, h: Point, kept: seq<Polar>, n: nat, j: nat)
    requires Survivors(v, kept) && StrictFan(v, h, kept) && n <= j < |kept| && kept[j].index != -1
    ensures Beyond(h, Reached(v, kept, n), v[kept[j].index])
  {
    if n > 0 { ReachedBefore(v, h, kept, n - 1, j); }
  }

  /** Reached points lie in directions of their own. */
  lemma {:induction false} ReachedDirections(v: seq<Point>, h: Point, kept: seq<Polar>, n: nat)
    requires Survivors(v, kept) && StrictFan(v, h, kept) && n <= |kept|
    ensures Directions(h, Reached(v, kept, n))
  {
    if n > 0 {
      ReachedDirections(v, h, kept, n - 1);
      if kept[n - 1].index != -1 {
        var q := v[kept[n - 1].index];
        ReachedBefore(v, h, kept, n - 1, n - 1);
        forall p | p in Reached(v, kept, n - 1) ensures Orient(h, p, q) > 0.0 && Orient(h, q, p) < 0.0 {
          assert Orient(h, q, p) == -Orient(h, p, q);
        }
      }
    }
  }

  lemma {:induction false} ReachedNothing(v: seq<Point>, kept: seq<Polar>, m: nat, n: nat)
    requires Survivors(v, kept) && m <= n <= |kept| && (forall k :: m <= k < n ==> kept[k].index == -1)
    ensures Reached(v, kept, n) == Reached(v, kept, m)
  {
    if m < n { ReachedNothing(v, kept, m, n - 1); }
  }

  // The pop loop, between two tests: the rest of the stack covers what was reached, and q can be cut to.
  ghost predicate Popping(s: seq<Point>, done: set<Point>, q: Point) {
    && Chain(s, done) && CutLeft(s, done, q)
    && Directions(s[0], done) && Beyond(s[0], done, q)
    && (forall i :: 1 <= i < |s| ==> s[i] in done)
  }

  // One visit of the scan: entry j is pushed on a stack whose points beyond the top are cut off.
  lemma VisitKeepsScanned(s: seq<Point>, done: set<Point>, q: Point)
    requires Popping(s, done, q)
    requires Orient(s[|s| - 2], s[|s| - 1], q) > 0.0
    ensures Scanned(s + [q], done + {q})
  {
    PushKeepsChain(s, done, q);
  }

  function Store(stack: seq<int>, sp: nat, x: int): seq<int>
    requires sp <= |stack|
  {
    if sp == |stack| then stack + [x] else stack[sp := x]
  }

  lemma AtPrefix(v: seq<Point>, stack: seq<int>, sp: nat)
    requires 2 <= sp <= |stack| && (forall i :: 0 <= i < |stack| ==> 0 <= stack[i] < |v|)
    ensures At(v, stack[..sp])[..sp - 1] == At(v, stack[..sp - 1])
  {}

  lemma AtAfterStore(v: seq<Point>, stack: seq<int>, sp: nat, id: int)
    requires sp <= |stack| && 0 <= id < |v| && (forall i :: 0 <= i < |stack| ==> 0 <= stack[i] < |v|)
    ensures At(v, Store(stack, sp, id)[..sp + 1]) == At(v, stack[..sp]) + [v[id]]
  {}

  // With only the reference and one more point left, the test of the loop holds.
  lemma PopStep(s: seq<Point>, done: set<Point>, q: Point)
    requires Popping(s, done, q) && Orient(s[|s| - 2], s[|s| - 1], q) <= 0.0
    ensures |s| >= 3 && Popping(s[..|s| - 1], done, q)
  {
    assert s[1] in done;
    PopKeepsCut(s, done, q);
  }

  // The inner loop of the scan: drop entries until the top two and the new point turn left. With fewer than two
  // entries left the source reads one that does not exist.
  method Pop(v: seq<Point>, stack: seq<int>, top: nat, id: int, ghost done: set<Point>) returns (sp: nat)
    requires 2 <= top <= |stack| && 0 <= id < |v| && (forall i :: 0 <= i < |stack| ==> 0 <= stack[i] < |v|)
    ensures 1 <= sp <= top
    ensures Popping(At(v, stack[..top]), done, v[id]) ==>
      && 2 <= sp && Popping(At(v, stack[..sp]), done, v[id])
      && Orient(At(v, stack[..sp])[sp - 2], At(v, stack[..sp])[sp - 1], v[id]) > 0.0
  {
    hide Orient, Popping;
    sp := top;
    ghost var fan := Popping(At(v, stack[..top]), done, v[id]);
    while sp >= 2 && Orient(v[stack[sp - 2]], v[stack[sp - 1]], v[id]) <= 0.0
      invariant 1 <= sp <= top && (fan ==> 2 <= sp && Popping(At(v, stack[..sp]), done, v[id]))
      decreases sp
    {
      if fan {
        PopStep(At(v, stack[..sp]), done, v[id]);
        AtPrefix(v, stack, sp);
      }
      sp := sp - 1;
    }
  }

  // The array the scan keeps: its first sp entries are the stack, the rest is stale.
  ghost predicate StackState(v: seq<Point>, h: nat, stack: seq<int>, sp: nat, done: set<Point>) {
    && 3 <= sp <= |stack| && stack[0] == h
    && (forall i :: 0 <= i < |stack| ==> 0 <= stack[i] < |v|)
    && Scanned(At(v, stack[..sp]), done)
  }

  lemma FirstTriangle(h: Point, p: Point, q: Point)
    requires Orient(h, p, q) > 0.0
    ensures Scanned([h, p, q], {p, q})
  {}

  lemma StackStarts(v: seq<Point>, h: nat, kept: seq<Polar>, stack: seq<int>, first: nat, j: nat)
    requires h < |v| && Survivors(v, kept) && StrictFan(v, v[h], kept) && Filled(kept, h, stack, first, j)
    ensures StackState(v, h, stack, 3, Reached(v, kept, j))
  {
    hide Orient, Scanned;
    var p, q := v[kept[first].index], v[kept[j - 1].index];
    FirstTriangle(v[h], p, q);
    ReachedTwo(v, kept, first, j);
    assert At(v, stack[..3]) == [v[h], p, q];
  }

  lemma ReachedTwo(v: seq<Point>, kept: seq<Polar>, first: nat, j: nat)
    requires Survivors(v, kept) && first < j - 1 < |kept| && kept[first].index != -1 && kept[j - 1].index != -1
    requires forall k :: 0 <= k < j && k != first && k != j - 1 ==> kept[k].index == -1
    ensures Reached(v, kept, j) == {v[kept[first].index], v[kept[j - 1].index]}
  {
    ReachedNothing(v, kept, 0, first);
    ReachedNothing(v, kept, first + 1, j - 1);
  }

  lemma PushedState(v: seq<Point>, h: nat, stack: seq<int>, sp: nat, id: nat, done: set<Point>)
    requires id < |v| && 2 <= sp <= |stack| && (forall i :: 0 <= i < |stack| ==> 0 <= stack[i] < |v|)
    requires stack[0] == h && Popping(At(v, stack[..sp]), done, v[id])
    requires Orient(At(v, stack[..sp])[sp - 2], At(v, stack[..sp])[sp - 1], v[id]) > 0.0
    ensures StackState(v, h, Store(stack, sp, id), sp + 1, done + {v[id]})
  {
    hide Orient, Popping, Scanned;
    AtAfterStore(v, stack, sp, id);
    VisitKeepsScanned(At(v, stack[..sp]), done, v[id]);
  }

  // The visit of one surviving entry. The first two entries of the stack are never replaced.
  method Visit(v: seq<Point>, h: nat, stack: seq<int>, top: nat, id: nat, ghost done: set<Point>)
    returns (stuck: bool, pushed: seq<int>, sp: nat)
    requires id < |v| && OnStack(v, stack, top)
    ensures !stuck ==> OnStack(v, pushed, sp) && pushed[..2] == stack[..2]
    ensures h < |v| && StackState(v, h, stack, top, done) && Beyond(v[h], done, v[id]) && Directions(v[h], done) ==>
      !stuck && StackState(v, h, pushed, sp, done + {v[id]})
  {
    hide Orient, Chain, Popping, Beyond, Directions, EndsAhead;
    ghost var fan := h < |v| && StackState(v, h, stack, top, done) && Beyond(v[h], done, v[id])
                     && Directions(v[h], done);
    if fan { StartPopping(At(v, stack[..top]), done, v[id]); }
    sp := Pop(v, stack, top, id, done);
    if sp < 2 {
      return true, stack, sp;
    }
    pushed := Store(stack, sp, id);
    if fan { PushedState(v, h, stack, sp, id, done); }
    stuck, sp := false, sp + 1;
  }

  ghost predicate OnStack(v: seq<Point>, stack: seq<int>, sp: nat) {
    3 <= sp <= |stack| && forall i :: 0 <= i < |stack| ==> 0 <= stack[i] < |v|
  }

  method Scan(v: seq<Point>, h: nat, kept: seq<Polar>, start: seq<int>, first: nat)
    returns (stuck: bool, hull: seq<int>)
    requires h < |v| && Survivors(v, kept) && first <= |kept| && OnStack(v, start, |start|)
    ensures !stuck ==> OnStack(v, hull, |hull|) && hull[..2] == start[..2]
    ensures stuck ==> exists k :: first <= k < |kept| && kept[k].index != -1
    ensures StrictFan(v, v[h], kept) && StackState(v, h, start, |start|, Reached(v, kept, first)) ==>
      !stuck && StackState(v, h, hull, |hull|, Reached(v, kept, |kept|))
  {
    hide Scanned, StackState, StrictFan, Beyond, Directions, Orient;
    var stack, sp: nat := start, |start|;
    ghost var fan := StrictFan(v, v[h], kept) && StackState(v, h, start, |start|, Reached(v, kept, first));
    for j := first to |kept|
      invariant OnStack(v, stack, sp) && stack[..2] == start[..2]
      invariant fan ==> StackState(v, h, stack, sp, Reached(v, kept, j))
    {
      if kept[j].index != -1 {
        if fan {
          ReachedBefore(v, v[h], kept, j, j);
          ReachedDirections(v, v[h], kept, j);
        }
        stuck, stack, sp := Visit(v, h, stack, sp, kept[j].index, Reached(v, kept, j));
        if stuck {
          return true, stack;
        }
      }
    }
    stuck, hull := false, stack[..sp];
    OnlyStack(v, h, stack, sp, Reached(v, kept, |kept|));
  }

  lemma OnlyStack(v: seq<Point>, h: nat, stack: seq<int>, sp: nat, done: set<Point>)
    requires OnStack(v, stack, sp)
    ensures StackState(v, h, stack, sp, done) ==> StackState(v, h, stack[..sp], sp, done)
  {
    assert stack[..sp][..sp] == stack[..sp];
  }

  lemma StartPopping(s: seq<Point>, done: set<Point>, q: Point)
    requires Chain(s, done) && (forall i :: 1 <= i < |s| ==> s[i] in done)
    requires EndsAhead(s, done)
    requires Directions(s[0], done) && Beyond(s[0], done, q)
    ensures Popping(s, done, q)
  {
    forall p | p in done ensures Orient(s[0], s[|s| - 1], p) <= 0.0 {
      assert Orient(s[0], s[|s| - 1], p) == -Orient(s[0], p, s[|s| - 1]);
    }
  }

  // ---------- the whole algorithm ----------

  // Every vertex is the reference, or is a survivor or was tossed in favour of one.
  ghost predicate KeptOrTossed(h: Point, done: set<Point>, p: Point) {
    p == h || exists s :: s in done && TossedFor(h, p, s)
  }

  ghost predicate TossedFor(h: Point, p: Point, s: Point) {
    Upper(h, p) && Upper(h, s) && Orient(h, p, s) == 0.0 && DistanceSquared(h, p) <= DistanceSquared(h, s)
  }

  // The last point of the chain closes the polygon: everything is right of the ray through it.
  ghost predicate EndsAhead(s: seq<Point>, done: set<Point>)
    requires |s| > 0
  {
    forall p :: p in done ==> p == s[|s| - 1] || Orient(s[0], p, s[|s| - 1]) > 0.0
  }

  lemma LeftOfRing(s: seq<Point>, done: set<Point>, i: nat, j: nat, p: Point)
    requires |s| >= 3 && Chain(s, done) && i < |s| && j == Next(i, |s|) && EndsAhead(s, done)
    requires KeptOrTossed(s[0], done, p)
    ensures Orient(s[i], s[j], p) >= 0.0
  {
    var h := s[0];
    if p != h {
      var t :| t in done && TossedFor(h, p, t);
      if j == i + 1 {
        assert Orient(s[i], s[j], t) >= 0.0;
      } else {
        assert Orient(s[i], h, t) == Orient(h, t, s[i]);
      }
      if 0 < i && j == i + 1 {
        assert Orient(s[i], s[j], h) == Orient(h, s[i], s[j]);
      }
      TossedIsLeft(h, p, t, s[i], s[j]);
    } else if 0 < i && j == i + 1 {
      assert Orient(s[i], s[j], h) == Orient(h, s[i], s[j]);
    }
  }

  lemma RingTurns(s: seq<Point>, done: set<Point>, i: nat, j: nat, k: nat)
    requires |s| >= 3 && Chain(s, done) && i < |s| && j == Next(i, |s|) && k == Next(j, |s|)
    ensures Orient(s[i], s[j], s[k]) > 0.0
  {
    var n := |s|;
    if i == n - 2 {
      assert Orient(s[0], s[n - 2], s[n - 1]) > 0.0;
    } else if i == n - 1 {
      assert Orient(s[0], s[1], s[n - 1]) > 0.0;
    }
  }

  lemma FanIsDistinct(s: seq<Point>, done: set<Point>)
    requires |s| >= 3 && Chain(s, done)
    ensures Distinct(s)
  {
    forall i, j | 0 <= i < j < |s| ensures s[i] != s[j] {
      if i == 0 {
        var k := if j == 1 then 2 else 1;
        assert Orient(s[0], s[1], s[j]) > 0.0 || Orient(s[0], s[1], s[2]) > 0.0;
      } else {
        assert Orient(s[0], s[i], s[j]) > 0.0;
      }
    }
  }

  lemma RingIsConvex(s: seq<Point>, done: set<Point>)
    requires |s| >= 3 && Chain(s, done)
    ensures forall i, j, k ::
      0 <= i < |s| && 0 <= j < |s| && 0 <= k < |s| && j == Next(i, |s|) && k == Next(j, |s|) ==>
      Orient(s[i], s[j], s[k]) > 0.0
  {
    hide Orient, Chain;
    forall i, j, k | 0 <= i < |s| && 0 <= j < |s| && 0 <= k < |s| && j == Next(i, |s|) && k == Next(j, |s|)
      ensures Orient(s[i], s[j], s[k]) > 0.0
    {
      RingTurns(s, done, i, j, k);
    }
  }

  lemma RingCovers(s: seq<Point>, done: set<Point>, v: seq<Point>)
    requires |s| >= 3 && Chain(s, done) && EndsAhead(s, done)
    requires forall k :: 0 <= k < |v| ==> KeptOrTossed(s[0], done, v[k])
    ensures forall i, j, k :: 0 <= i < |s| && 0 <= j < |s| && 0 <= k < |v| && j == Next(i, |s|) ==>
      Orient(s[i], s[j], v[k]) >= 0.0
  {
    hide Orient, Chain, EndsAhead, KeptOrTossed;
    forall i, j, k | 0 <= i < |s| && 0 <= j < |s| && 0 <= k < |v| && j == Next(i, |s|)
      ensures Orient(s[i], s[j], v[k]) >= 0.0
    {
      LeftOfRing(s, done, i, j, v[k]);
    }
  }

  /** A chain that covers everything it reached is the hull of all the vertices. */
  lemma ChainIsHull(s: seq<Point>, done: set<Point>, v: seq<Point>)
    requires |s| >= 3 && Chain(s, done) && (forall i :: 0 <= i < |s| ==> s[i] in v) && EndsAhead(s, done)
    requires forall k :: 0 <= k < |v| ==> KeptOrTossed(s[0], done, v[k])
    ensures IsHull(s, v)
  {
    hide Orient, Chain, EndsAhead, KeptOrTossed, Next;
    FanIsDistinct(s, done);
    RingIsConvex(s, done);
    RingCovers(s, done, v);
  }

  /** In two surviving directions the angle order is a strict turn. */
  lemma AnglesAreTurns(v: seq<Point>, h: nat, angle: (Point, Point) -> real, points: seq<Polar>, kept: seq<Polar>,
                       keeper: seq<nat>)
    requires Prepared(v, h, angle, points, kept, keeper) && Apart(v, v[h], kept)
    ensures Survivors(v, kept) && StrictFan(v, v[h], kept)
    ensures forall i :: 0 <= i < |v| ==> KeptOrTossed(v[h], Reached(v, kept, |kept|), v[i])
  {
    hide Orient, DistanceSquared, TossedFor, Reached;
    forall k, l | 0 <= k < l < |kept| && kept[k].index != -1 && kept[l].index != -1
      ensures Orient(v[h], v[kept[k].index], v[kept[l].index]) > 0.0
    {
      assert points[k].angle < points[l].angle;
    }
    forall i | 0 <= i < |v| && v[i] != v[h] ensures KeptOrTossed(v[h], Reached(v, kept, |kept|), v[i]) {
      var l := TossedHasKeeper(v, h, angle, points, kept, keeper, i);
      SurvivorIsReached(v, kept, l, |kept|);
    }
  }

  lemma TossedHasKeeper(v: seq<Point>, h: nat, angle: (Point, Point) -> real, points: seq<Polar>, kept: seq<Polar>,
                        keeper: seq<nat>, i: nat) returns (l: nat)
    requires Prepared(v, h, angle, points, kept, keeper) && Apart(v, v[h], kept) && i < |v| && v[i] != v[h]
    ensures l < |kept| && 0 <= kept[l].index < |v| && TossedFor(v[h], v[i], v[kept[l].index])
  {
    hide Orient, DistanceSquared;
    var k := EntryOf(v, h, angle, points, i);
    l := keeper[k];
    assert kept[l] == points[l];
    SwapTurn(v[h], v[i], v[points[l].index]);
  }

  lemma OneDirectionIsCollinear(v: seq<Point>, h: nat)
    requires h < |v| && (forall i, j :: 0 <= i < |v| && 0 <= j < |v| ==> Orient(v[h], v[i], v[j]) == 0.0)
    ensures AllCollinear(v)
  {
    forall i, j, k | 0 <= i < |v| && 0 <= j < |v| && 0 <= k < |v| ensures Orient(v[i], v[j], v[k]) == 0.0 {
      assert Orient(v[i], v[j], v[k])
          == Orient(v[h], v[i], v[j]) + Orient(v[h], v[j], v[k]) + Orient(v[h], v[k], v[i]);
    }
  }

  lemma SwapTurn(a: Point, b: Point, c: Point)
    ensures Orient(a, b, c) == -Orient(a, c, b)
  {}

  // At most one entry survives.
  ghost predicate OneDirection(kept: seq<Polar>) {
    forall k, l :: 0 <= k < l < |kept| ==> kept[k].index == -1 || kept[l].index == -1
  }

  // The entry of vertex i in the polar list.
  lemma EntryOf(v: seq<Point>, h: nat, angle: (Point, Point) -> real, points: seq<Polar>, i: nat) returns (k: nat)
    requires h < |v| && PolarView(v, h, angle, points) && i < |v| && i != h
    ensures k < |points| && points[k] == Polar(angle(v[h], v[i]), i)
  {
    var e := Polar(angle(v[h], v[i]), i);
    assert e in points;
    k :| 0 <= k < |points| && points[k] == e;
  }

  // All that the later proofs need of the first three stages.
  ghost predicate Prepared(v: seq<Point>, h: nat, angle: (Point, Point) -> real, points: seq<Polar>, kept: seq<Polar>,
                           keeper: seq<nat>) {
    && h < |v| && ExactAngles(angle) && LevelFirst(angle) && PolarView(v, h, angle, points)
    && IsReference(v, v[h])
    && |kept| == |keeper| == |points| && Tossed(v, h, points, kept, keeper, |points|)
  }

  lemma OneDirectionIsOneLine(v: seq<Point>, h: nat, angle: (Point, Point) -> real, points: seq<Polar>,
                              kept: seq<Polar>, keeper: seq<nat>, i: nat, j: nat)
    requires Prepared(v, h, angle, points, kept, keeper) && OneDirection(kept)
    requires i < |v| && j < |v|
    ensures Orient(v[h], v[i], v[j]) == 0.0
  {
    if v[i] != v[h] && v[j] != v[h] {
      var k := EntryOf(v, h, angle, points, i);
      var l := EntryOf(v, h, angle, points, j);
      assert keeper[k] == keeper[l];
      SwapTurn(v[h], v[i], v[j]);
    }
  }

  /** Fewer than two surviving directions is the same as all vertices on one line. */
  lemma StuckIffCollinear(v: seq<Point>, h: nat, angle: (Point, Point) -> real, points: seq<Polar>, kept: seq<Polar>,
                          keeper: seq<nat>)
    requires Prepared(v, h, angle, points, kept, keeper)
    ensures OneDirection(kept) ==> AllCollinear(v)
    ensures AllCollinear(v) && Apart(v, v[h], kept) ==> OneDirection(kept)
  {
    if OneDirection(kept) {
      forall i, j | 0 <= i < |v| && 0 <= j < |v| ensures Orient(v[h], v[i], v[j]) == 0.0 {
        OneDirectionIsOneLine(v, h, angle, points, kept, keeper, i, j);
      }
      OneDirectionIsCollinear(v, h);
    } else if Apart(v, v[h], kept) {
      AnglesAreTurns(v, h, angle, points, kept, keeper);
    }
  }

  // ---------- a repeated reference ----------

  // No survivor is the reference again.
  ghost predicate Apart(v: seq<Point>, h: Point, kept: seq<Polar>) {
    forall k :: 0 <= k < |kept| && 0 <= kept[k].index < |v| ==> v[kept[k].index] != h
  }

  // Two survivors in one direction are one.
  lemma SurvivorIsOne(v: seq<Point>, h: nat, points: seq<Polar>, kept: seq<Polar>, keeper: seq<nat>, k: nat, l: nat)
    requires h < |v| && |points| == |kept| == |keeper| && k < |kept| && l < |kept|
    requires forall i :: 0 <= i < |points| ==> 0 <= points[i].index < |v|
    requires Tossed(v, h, points, kept, keeper, |points|)
    requires kept[k].index != -1 && kept[l].index != -1 && points[k].angle == points[l].angle
    ensures k == l
  {
    hide DistanceSquared;
  }

  /** A repetition of the reference does not survive beside a point that is level with it. */
  lemma LevelTossesReference(v: seq<Point>, h: nat, angle: (Point, Point) -> real, points: seq<Polar>,
                             kept: seq<Polar>, keeper: seq<nat>)
    requires Prepared(v, h, angle, points, kept, keeper) && (Once(v, v[h]) || HasLevel(v, v[h]))
    ensures Apart(v, v[h], kept)
  {
    forall k | 0 <= k < |kept| && 0 <= kept[k].index < |v| ensures v[kept[k].index] != v[h] {
      if v[kept[k].index] == v[h] {
        assert kept[k] == points[k] && points[k].index != h;
        var w :| 0 <= w < |v| && v[w] != v[h] && v[w].y == v[h].y;
        var e := EntryOf(v, h, angle, points, w);
        assert Upper(v[h], v[w]) && angle(v[h], v[w]) == angle(v[h], v[h]);
        SurvivorIsOne(v, h, points, kept, keeper, k, keeper[e]);
        OthersAreFarther(v[h], v[w]);
      }
    }
  }

  function Times(x: real, y: real): real { x * y }

  lemma SameSigns(x: real, y: real)
    requires (x > 0.0 && y > 0.0) || (x < 0.0 && y < 0.0)
    ensures Times(x, y) > 0.0
  {}

  lemma DistanceIsSquares(h: Point, p: Point)
    ensures DistanceSquared(h, p) == Times(p.x - h.x, p.x - h.x) + Times(p.y - h.y, p.y - h.y)
  {}

  lemma OthersAreFarther(h: Point, p: Point)
    requires p != h
    ensures DistanceSquared(h, p) > DistanceSquared(h, h)
  {
    hide DistanceSquared, Times;
    var dx, dy := p.x - h.x, p.y - h.y;
    DistanceIsSquares(h, p);
    DistanceIsSquares(h, h);
    TimesZero();
    if dx != 0.0 { SameSigns(dx, dx); }
    if dy != 0.0 { SameSigns(dy, dy); }
  }

  lemma TimesZero()
    ensures Times(0.0, 0.0) == 0.0
  {}

  lemma EqualPointsAreOneDirection(v: seq<Point>, h: nat, angle: (Point, Point) -> real, points: seq<Polar>,
                                   kept: seq<Polar>, keeper: seq<nat>)
    requires Prepared(v, h, angle, points, kept, keeper) && AllEqual(v, v[h])
    ensures OneDirection(kept)
  {
    hide DistanceSquared, Orient, ExactAngles, LevelFirst;
    forall k, l | 0 <= k < l < |kept| ensures kept[k].index == -1 || kept[l].index == -1 {
      assert points[k].angle == points[l].angle;
    }
  }

  /** Otherwise a repetition of the reference survives, in the first direction of at least two. */
  lemma RepetitionIsFirst(v: seq<Point>, h: nat, angle: (Point, Point) -> real, points: seq<Polar>,
                          kept: seq<Polar>, keeper: seq<nat>)
    requires Prepared(v, h, angle, points, kept, keeper)
    requires !Once(v, v[h]) && !HasLevel(v, v[h]) && !AllEqual(v, v[h])
    ensures !OneDirection(kept)
    ensures forall stack, first: nat, j: nat :: Filled(kept, h, stack, first, j) ==>
      0 <= kept[first].index < |v| && v[kept[first].index] == v[h]
  {
    hide DistanceSquared, Orient, ExactAngles;
    var x, y :| 0 <= x < |v| && 0 <= y < |v| && v[x] == v[h] && v[y] == v[h] && x != y;
    var e := EntryOf(v, h, angle, points, if x == h then y else x);
    var g := keeper[e];
    assert kept[g] == points[g];
    assert v[points[g].index] == v[h];
    var z :| 0 <= z < |v| && v[z] != v[h];
    var d := EntryOf(v, h, angle, points, z);
    assert keeper[d] != g && kept[keeper[d]].index != -1;
    forall stack, first: nat, j: nat | Filled(kept, h, stack, first, j)
      ensures 0 <= kept[first].index < |v| && v[kept[first].index] == v[h]
    {
      NoneBefore(v, h, angle, points, kept, keeper, g, first);
    }
  }

  lemma NoneBefore(v: seq<Point>, h: nat, angle: (Point, Point) -> real, points: seq<Polar>, kept: seq<Polar>,
                   keeper: seq<nat>, g: nat, first: nat)
    requires Prepared(v, h, angle, points, kept, keeper) && g < |kept| && kept[g] == points[g]
    requires v[points[g].index] == v[h]
    requires first < |kept| && kept[first].index != -1
    ensures g <= first
  {
    hide DistanceSquared, Orient, ExactAngles;
    assert points[g].angle == angle(v[h], v[h]) <= points[first].angle;
  }

  lemma ReferenceIsOne(v: seq<Point>, h: nat)
    requires h < |v| && IsReference(v, v[h])
    ensures ReferenceShows(v) <==> Once(v, v[h]) || HasLevel(v, v[h]) || AllEqual(v, v[h])
  {
    hide Once, HasLevel, AllEqual;
    forall g | g in v && IsReference(v, g) ensures g == v[h] {
      var i :| 0 <= i < |v| && v[i] == g;
      assert v[h] == g || Upper(g, v[h]);
    }
  }

  // Then points on one line have no third direction.
  lemma NoThirdOnLine(v: seq<Point>, h: nat, angle: (Point, Point) -> real, points: seq<Polar>, kept: seq<Polar>,
                      keeper: seq<nat>, stack: seq<int>, first: nat, j: nat, k: nat)
    requires Prepared(v, h, angle, points, kept, keeper) && Filled(kept, h, stack, first, j)
    requires 0 <= kept[first].index < |v| && v[kept[first].index] == v[h] && !HasLevel(v, v[h])
    requires j <= k < |kept| && kept[k].index != -1
    ensures !AllCollinear(v)
  {
    hide DistanceSquared, Orient;
    var p, q := points[j - 1].index, points[k].index;
    assert kept[j - 1] == points[j - 1] && kept[k] == points[k] && kept[first] == points[first];
    assert points[first].angle < points[j - 1].angle < points[k].angle;
    assert v[p] != v[h] && v[q] != v[h];
    assert Orient(v[h], v[p], v[q]) > 0.0;
  }

  lemma SurvivorsAreVertices(v: seq<Point>, h: nat, angle: (Point, Point) -> real, points: seq<Polar>,
                             kept: seq<Polar>, keeper: seq<nat>)
    requires Prepared(v, h, angle, points, kept, keeper)
    ensures Survivors(v, kept)
  {
    hide DistanceSquared, Orient;
  }

  // A polygon that repeats a point is no hull.
  lemma RepeatsAreWrong(v: seq<Point>, stack: seq<int>, h: nat)
    requires h < |v| && OnStack(v, stack, |stack|) && stack[0] == h && v[stack[1]] == v[h]
    ensures !IsHull(At(v, stack), v)
  {
    assert At(v, stack)[0] == At(v, stack)[1];
  }

  /** d3.geom.hull finds the hull of three or more vertices exactly if its reference shows: then it is stuck if
      they are collinear, and otherwise returns their convex hull. */
  method Hull(v: seq<Point>, angle: (Point, Point) -> real) returns (r: Outcome)
    requires ExactAngles(angle) && LevelFirst(angle)
    ensures |v| < 3 ==> r == Polygon([])
    ensures |v| >= 3 ==> (IsRight(v, r) <==> ReferenceShows(v))
  {
    hide Orient, Scanned, IsHull, Upper, Filled, Apart, ReferenceShows, Once, HasLevel, AllEqual, AllCollinear,
      Tossed, PolarView, OneDirection, Survivors, StackState, StrictFan, ExactAngles, LevelFirst;
    if |v| < 3 {
      return Polygon([]);
    }
    var h := FindReference(v);
    var points := PolarOrder(v, h, angle);
    EntriesExist(v, h, angle, points);
    var kept, keeper := TossDuplicates(v, h, points);
    ReferenceIsOne(v, h);
    StuckIffCollinear(v, h, angle, points, kept, keeper);
    ghost var repeated := !Once(v, v[h]) && !HasLevel(v, v[h]) && !AllEqual(v, v[h]);
    if repeated {
      RepetitionIsFirst(v, h, angle, points, kept, keeper);
    } else if AllEqual(v, v[h]) {
      EqualPointsAreOneDirection(v, h, angle, points, kept, keeper);
    }
    var full, stack, j, first := FillStack(kept, h);
    if !full {
      return Stuck;
    }
    SurvivorsAreVertices(v, h, angle, points, kept, keeper);
    FilledIsStack(v, h, kept, stack, first, j);
    ghost var start := stack;
    if !repeated {
      LevelTossesReference(v, h, angle, points, kept, keeper);
      AnglesAreTurns(v, h, angle, points, kept, keeper);
      StackStarts(v, h, kept, stack, first, j);
    }
    var stuck;
    stuck, stack := Scan(v, h, kept, stack, j);
    r := if stuck then Stuck else Polygon(At(v, stack));
    if !repeated {
      StackIsHull(v, h, stack, Reached(v, kept, |kept|));
    } else if stuck {
      var k :| j <= k < |kept| && kept[k].index != -1;
      NoThirdOnLine(v, h, angle, points, kept, keeper, start, first, j, k);
    } else {
      assert start[..2][0] == stack[0] && start[..2][1] == stack[1];
      RepeatsAreWrong(v, stack, h);
    }
  }

  /** Three corners of a triangle with the lowest given twice: the reference does not show. */
  lemma RepeatedExample()
    ensures !ReferenceShows([Point(0.0, 0.0), Point(0.0, 0.0), Point(0.0, 1.0), Point(-1.0, 1.0)])
  {
    var h := Point(0.0, 0.0);
    var v := [h, h, Point(0.0, 1.0), Point(-1.0, 1.0)];
    assert v[0] == v[1] == h && v[2] != h && h in v;
  }

  lemma EntriesExist(v: seq<Point>, h: nat, angle: (Point, Point) -> real, points: seq<Polar>)
    requires h < |v| && |v| > 1 && PolarView(v, h, angle, points)
    ensures |points| > 0 && forall k :: 0 <= k < |points| ==> 0 <= points[k].index < |v|
  {
    var other := if h == 0 then 1 else 0;
    assert Polar(angle(v[h], v[other]), other) in points;
  }

  lemma FilledIsStack(v: seq<Point>, h: nat, kept: seq<Polar>, stack: seq<int>, first: nat, j: nat)
    requires h < |v| && Survivors(v, kept) && Filled(kept, h, stack, first, j)
    ensures j <= |kept| && first < |kept| && OnStack(v, stack, |stack|)
    ensures stack[0] == h && stack[1] == kept[first].index
  {}

  lemma StackIsHull(v: seq<Point>, h: nat, stack: seq<int>, done: set<Point>)
    requires h < |v| && StackState(v, h, stack, |stack|, done)
    requires forall i :: 0 <= i < |v| ==> KeptOrTossed(v[h], done, v[i])
    ensures IsHull(At(v, stack), v)
  {
    assert stack[..|stack|] == stack;
    ChainIsHull(At(v, stack), done, v);
  }

  // ---------- angles ----------

  function Magnitude(x: real): real { if x < 0.0 then -x else x }

  // A stand-in for the angle of a direction in the upper half plane: it grows with it.
  function Slant(x: real, y: real): real {
    if Magnitude(x) + y == 0.0 then -1.0 else -x / (Magnitude(x) + y)
  }

  lemma CompareQuotients(a: real, b: real, c: real, d: real)
    requires b > 0.0 && d > 0.0
    ensures a / b < c / d <==> a * d < c * b
  {
    var p, q := a / b, c / d;
    assert a == p * b && c == q * d;
    assert a * d == p * (b * d) && c * b == q * (b * d);
    var z := b * d;
    assert z > 0.0;
    assert p < q <==> p * z < q * z by {
      var e := q - p;
      assert q * z - p * z == e * z;
    }
  }

  // The signs of the products that decide the order of two directions.
  lemma SlantProducts(x: real, y: real, u: real, w: real)
    requires (y > 0.0 || (y == 0.0 && x > 0.0)) && (w > 0.0 || (w == 0.0 && u > 0.0))
    ensures (x >= 0.0 && u >= 0.0) || (x < 0.0 && u < 0.0) ==> x * Magnitude(u) == u * Magnitude(x)
    ensures x >= 0.0 && u < 0.0 ==> x * Magnitude(u) >= 0.0 >= u * Magnitude(x) && x * w > u * y
    ensures x < 0.0 && u >= 0.0 ==> x * Magnitude(u) <= 0.0 <= u * Magnitude(x) && x * w < u * y
  {
    if x >= 0.0 && u < 0.0 { UpperProducts(x, y, u, w); }
    if x < 0.0 && u >= 0.0 { UpperProducts(u, w, x, y); }
  }

  lemma UpperProducts(x: real, y: real, u: real, w: real)
    requires (y > 0.0 || (y == 0.0 && x > 0.0)) && w > 0.0 && x >= 0.0 && u < 0.0
    ensures x * w > u * y && x * Magnitude(u) >= 0.0 >= u * Magnitude(x)
  {
    assert x * w >= 0.0 && (x > 0.0 ==> x * w > 0.0);
    assert u * y <= 0.0 && (y > 0.0 ==> u * y < 0.0);
  }

  lemma SlantOrder(x: real, y: real, u: real, w: real)
    requires (y > 0.0 || (y == 0.0 && x > 0.0)) && (w > 0.0 || (w == 0.0 && u > 0.0))
    ensures Slant(x, y) < Slant(u, w) <==> x * w > u * y
  {
    SlantProducts(x, y, u, w);
    var m, n := Magnitude(x) + y, Magnitude(u) + w;
    assert m > 0.0 && n > 0.0;
    hide Magnitude;
    CompareQuotients(-x, m, -u, n);
    assert -x * n == -(x * Magnitude(u)) - x * w && -u * m == -(u * Magnitude(x)) - u * y;
  }

  lemma LevelSlant(x: real, y: real)
    requires y > 0.0 || (y == 0.0 && x > 0.0)
    ensures Slant(0.0, 0.0) <= Slant(x, y) && (Slant(0.0, 0.0) == Slant(x, y) <==> y == 0.0)
  {
    var m := Magnitude(x) + y;
    var q := -x / m;
    assert m > 0.0 && q * m == -x;
    assert (q + 1.0) * m == m - x;
  }

  /** Exact angles exist. */
  lemma ExactAnglesExist() returns (angle: (Point, Point) -> real)
    ensures ExactAngles(angle) && LevelFirst(angle)
  {
    angle := (o: Point, p: Point) => Slant(p.x - o.x, p.y - o.y);
    forall o, p, q | Upper(o, p) && Upper(o, q) ensures angle(o, p) < angle(o, q) <==> Orient(o, p, q) > 0.0 {
      SlantOrder(p.x - o.x, p.y - o.y, q.x - o.x, q.y - o.y);
    }
    forall o, p | Upper(o, p)
      ensures angle(o, o) <= angle(o, p) && (angle(o, o) == angle(o, p) <==> o.y == p.y)
    {
      LevelSlant(p.x - o.x, p.y - o.y);
    }
  }
}
