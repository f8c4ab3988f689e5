/** The quadtree of d3: points in boxes that are halved both ways until they separate. */
module Quadtree {
  import opened Options

  datatype Point = Point(x: real, y: real)

  datatype Box = Box(x1: real, y1: real, x2: real, y2: real)

  type Quadrant = i: nat | i < 4

  // The contents of a node and of all nodes below it.
  datatype Tree = Absent | Node(leaf: bool, point: Option<Point>, k0: Tree, k1: Tree, k2: Tree, k3: Tree)

  const EMPTY := Node(true, None, Absent, Absent, Absent, Absent)

  // ---------- boxes ----------

  predicate In(p: Point, b: Box) { b.x1 <= p.x <= b.x2 && b.y1 <= p.y <= b.y2 }

  // The split of insertChild: which quadrant a point goes to, and the box of that quadrant.
  function Route(p: Point, b: Box): Quadrant {
    (if p.y >= (b.y1 + b.y2) * 0.5 then 2 else 0) + if p.x >= (b.x1 + b.x2) * 0.5 then 1 else 0
  }

  function Part(b: Box, i: Quadrant): Box {
    var sx, sy := (b.x1 + b.x2) * 0.5, (b.y1 + b.y2) * 0.5;
    Box(if i % 2 == 1 then sx else b.x1, if i >= 2 then sy else b.y1, if i % 2 == 1 then b.x2 else sx,
      if i >= 2 then b.y2 else sy)
  }

  function Abs(x: real): real { if x < 0.0 then -x else x }

  predicate Near(p: Point, q: Point) { Abs(p.x - q.x) + Abs(p.y - q.y) < 0.01 }

  function Size(b: Box): real { (b.x2 - b.x1) + (b.y2 - b.y1) }

  /** How often a length can be halved before it is below the distance at which points are near. */
  ghost function Halvings(d: real): (k: nat)
    ensures k == 0 <==> d < 0.01
    ensures k > 0 ==> Halvings(d * 0.5) == k - 1
    decreases if d < 0.01 then 0 else 1 + (d * 100.0).Floor
  {
    if d < 0.01 then 0 else 1 + Halvings(d * 0.5)
  }

  lemma RouteIs(p: Point, b: Box)
    ensures Route(p, b) ==
      (if p.y >= (b.y1 + b.y2) * 0.5 then 2 else 0) + if p.x >= (b.x1 + b.x2) * 0.5 then 1 else 0
  {}

  // The box of a quadrant, one coordinate of each pair replaced.
  lemma PartIs(b: Box, right: bool, bottom: bool)
    ensures
      var sx, sy := (b.x1 + b.x2) * 0.5, (b.y1 + b.y2) * 0.5;
      var c := if right then b.(x1 := sx) else b.(x2 := sx);
      (if bottom then c.(y1 := sy) else c.(y2 := sy)) ==
        Part(b, (if bottom then 2 else 0) + if right then 1 else 0)
  {}

  lemma PartIsHalf(b: Box, i: Quadrant)
    ensures Size(Part(b, i)) == Size(b) * 0.5
  {}

  lemma RouteIsIn(p: Point, b: Box)
    requires In(p, b)
    ensures In(p, Part(b, Route(p, b)))
  {}

  lemma FarNeedsRoom(p: Point, q: Point, b: Box)
    requires In(p, b) && In(q, b) && !Near(p, q)
    ensures Halvings(Size(b)) > 0
  {}

  // ---------- trees ----------

  function Kid(t: Tree, i: Quadrant): Tree
    requires t.Node?
  {
    if i == 0 then t.k0 else if i == 1 then t.k1 else if i == 2 then t.k2 else t.k3
  }

  function WithKid(t: Tree, i: Quadrant, k: Tree): Tree
    requires t.Node?
  {
    if i == 0 then t.(leaf := false, k0 := k)
    else if i == 1 then t.(leaf := false, k1 := k)
    else if i == 2 then t.(leaf := false, k2 := k)
    else t.(leaf := false, k3 := k)
  }

  function CountAt(o: Option<Point>, q: Point): nat { if o == Some(q) then 1 else 0 }

  // How often q is stored in a tree, or below its root.
  ghost function Count(t: Tree, q: Point): nat
    decreases t, 1
  {
    if t == Absent then 0 else CountAt(t.point, q) + CountBelow(t, q)
  }

  ghost function CountBelow(t: Tree, q: Point): nat
    requires t.Node?
    decreases t, 0
  {
    Count(t.k0, q) + Count(t.k1, q) + Count(t.k2, q) + Count(t.k3, q)
  }

  // How many points are stored.
  ghost function Total(t: Tree): nat {
    if t == Absent then 0
    else (if t.point.Some? then 1 else 0) + Total(t.k0) + Total(t.k1) + Total(t.k2) + Total(t.k3)
  }

  ghost function Max(a: nat, b: nat): nat { if a < b then b else a }

  ghost function Height(t: Tree): nat {
    if t == Absent || t.leaf then 0 else 1 + Max(Max(Height(t.k0), Height(t.k1)), Max(Height(t.k2), Height(t.k3)))
  }

  /** Every point lies in the box of its node, leaves have no children, and where a box is too small to
      part two points the node kept its own. */
  ghost predicate Placed(t: Tree, b: Box) {
    t != Absent ==>
      && (t.point.Some? ==> In(t.point.value, b))
      && (t.leaf ==> t.k0 == t.k1 == t.k2 == t.k3 == Absent)
      && (!t.leaf && Halvings(Size(b)) == 0 ==> t.point.Some?)
      && Placed(t.k0, Part(b, 0)) && Placed(t.k1, Part(b, 1)) && Placed(t.k2, Part(b, 2)) && Placed(t.k3, Part(b, 3))
  }

  lemma KidPlaced(t: Tree, b: Box, i: Quadrant)
    requires t.Node? && Placed(t, b)
    ensures Placed(Kid(t, i), Part(b, i))
  {
    hide Halvings, Part, In;
  }

  lemma KidIsLower(t: Tree, i: Quadrant)
    requires t.Node? && !t.leaf
    ensures Height(Kid(t, i)) < Height(t)
  {}

  lemma WithKidPlaced(t: Tree, b: Box, i: Quadrant, k: Tree)
    requires t.Node? && Placed(t, b) && Placed(k, Part(b, i)) && (Halvings(Size(b)) == 0 ==> t.point.Some?)
    ensures Placed(WithKid(t, i, k), b)
  {
    hide Part, In, Halvings, Size;
  }

  // ---------- insertion ----------

  ghost function Room(t: Tree, b: Box): nat { Halvings(Size(b)) + Height(t) }

  ghost predicate Stores(t: Tree) { t.Node? && t.leaf && t.point == None }

  function Child(t: Tree, i: Quadrant): Tree
    requires t.Node?
  {
    if Kid(t, i) == Absent then EMPTY else Kid(t, i)
  }

  /** The tree that insert leaves. It ends: each split halves the box, and near points are not split. */
  function Inserted(t: Tree, p: Point, b: Box): (r: Tree)
    requires t.Node? && Placed(t, b) && In(p, b)
    ensures r.Node? && Placed(r, b)
    ensures Stores(t) ==> r == t.(point := Some(p))
    decreases Room(t, b), if Stores(t) then 0 else 2
  {
    if t.leaf then
      match t.point
      case None => t.(point := Some(p))
      case Some(v) =>
        if Near(v, p) then InsertedChild(t, p, b)
        else
          FarNeedsRoom(v, p, b);
          InsertedChild(InsertedChild(t.(point := None), v, b), p, b)
    else
      KidIsLower(t, Route(p, b));
      InsertedChild(t, p, b)
  }

  lemma ChildPlaced(t: Tree, b: Box, i: Quadrant)
    requires t.Node? && Placed(t, b)
    ensures Child(t, i).Node? && Placed(Child(t, i), Part(b, i))
  {
    KidPlaced(t, b, i);
  }

  function InsertedChild(t: Tree, p: Point, b: Box): (r: Tree)
    requires t.Node? && Placed(t, b) && In(p, b) && (Halvings(Size(b)) == 0 ==> t.point.Some?)
    ensures r.Node? && Placed(r, b)
    ensures Kid(t, Route(p, b)) == Absent ==> r == WithKid(t, Route(p, b), EMPTY.(point := Some(p)))
    decreases Halvings(Size(b) * 0.5) + Height(Child(t, Route(p, b))), if Stores(Child(t, Route(p, b))) then 1 else 3
  {
    var i := Route(p, b);
    PartIsHalf(b, i);
    RouteIsIn(p, b);
    KidPlaced(t, b, i);
    var k := Inserted(Child(t, i), p, Part(b, i));
    WithKidPlaced(t, b, i, k);
    WithKid(t, i, k)
  }

  // ---------- what an insertion keeps ----------

  lemma EmptiedPlaced(t: Tree, b: Box)
    requires t.Node? && t.leaf && Placed(t, b)
    ensures Placed(t.(point := None), b)
  {
    hide Part, In, Halvings;
  }

  /** An insertion adds its point and loses none. */
  lemma {:induction false} InsertedConserves(t: Tree, p: Point, b: Box, q: Point)
    requires t.Node? && Placed(t, b) && In(p, b)
    ensures Count(Inserted(t, p, b), q) == Count(t, q) + (if q == p then 1 else 0)
    decreases Room(t, b), if Stores(t) then 0 else 2
  {
    if t.leaf && t.point.Some? && !Near(t.point.value, p) {
      var v := t.point.value;
      FarNeedsRoom(v, p, b);
      var e := t.(point := None);
      EmptiedPlaced(t, b);
      hide Placed, In, Halvings, Route, Part;
      ChildConserves(e, v, b, q);
      ChildConserves(InsertedChild(e, v, b), p, b, q);
    } else if !t.leaf || t.point.Some? {
      if !t.leaf { KidIsLower(t, Route(p, b)); }
      ChildConserves(t, p, b, q);
    }
  }

  // What insertChild asks of the child.
  lemma ChildTask(t: Tree, p: Point, b: Box)
    requires t.Node? && Placed(t, b) && In(p, b) && (Halvings(Size(b)) == 0 ==> t.point.Some?)
    ensures
      var i := Route(p, b);
      && Child(t, i).Node? && Placed(Child(t, i), Part(b, i)) && In(p, Part(b, i)) && Size(Part(b, i)) == Size(b) * 0.5
      && InsertedChild(t, p, b) == WithKid(t, i, Inserted(Child(t, i), p, Part(b, i)))
  {
    hide Inserted, Placed, Part, In, Route, Halvings;
    var i := Route(p, b);
    PartIsHalf(b, i);
    RouteIsIn(p, b);
    ChildPlaced(t, b, i);
  }

  // ---------- points outside the bounds ----------

  // insert for any points and bounds, given up after a number of splits.
  function Attempt(t: Tree, p: Point, b: Box, splits: nat): (r: Option<Tree>)
    requires t.Node?
    ensures r.Some? ==> r.value.Node?
    decreases splits, 1
  {
    if t.leaf && t.point == None then Some(t.(point := Some(p)))
    else if t.leaf && !Near(t.point.value, p) then
      match AttemptChild(t.(point := None), t.point.value, b, splits)
      case None => None
      case Some(u) => AttemptChild(u, p, b, splits)
    else AttemptChild(t, p, b, splits)
  }

  function AttemptChild(t: Tree, p: Point, b: Box, splits: nat): (r: Option<Tree>)
    requires t.Node?
    ensures r.Some? ==> r.value.Node?
    decreases splits, 0
  {
    var i := Route(p, b);
    if splits == 0 then None
    else
      match Attempt(Child(t, i), p, Part(b, i), splits - 1)
      case None => None
      case Some(k) => Some(WithKid(t, i, k))
  }

  // The splits an insertion takes at most.
  ghost function Splits(t: Tree, b: Box): nat { if Stores(t) then 0 else 1 + Room(t, b) }

  /** Inside the bounds insert ends, after no more splits than the room it has. */
  lemma {:induction false} InsideEnds(t: Tree, p: Point, b: Box, splits: nat)
    requires t.Node? && Placed(t, b) && In(p, b) && splits >= Splits(t, b)
    ensures Attempt(t, p, b, splits) == Some(Inserted(t, p, b))
    decreases splits, 1
  {
    hide Placed, In, Part, Route, Halvings, AttemptChild, InsertedChild;
    if t.leaf && t.point.Some? && !Near(t.point.value, p) {
      var v := t.point.value;
      PointIn(t, b);
      FarNeedsRoom(v, p, b);
      var e := t.(point := None);
      EmptiedPlaced(t, b);
      LeafSplits(t, b, v);
      InsideEndsBelow(e, v, b, splits);
      LeafSplitsAgain(t, b, v, p);
      InsideEndsBelow(InsertedChild(e, v, b), p, b, splits);
    } else if !Stores(t) {
      if t.leaf { LeafSplits(t, b, p); } else { KidSplits(t, b, p); }
      NoRoomKept(t, b);
      InsideEndsBelow(t, p, b, splits);
    }
  }

  lemma {:induction false} InsideEndsBelow(t: Tree, p: Point, b: Box, splits: nat)
    requires t.Node? && Placed(t, b) && In(p, b) && (Halvings(Size(b)) == 0 ==> t.point.Some?)
    requires splits >= 1 + Splits(Child(t, Route(p, b)), Part(b, Route(p, b)))
    ensures AttemptChild(t, p, b, splits) == Some(InsertedChild(t, p, b))
    decreases splits, 0
  {
    hide Placed, In, Part, Route, Halvings, Attempt, InsertedChild, Inserted, Splits;
    var i := Route(p, b);
    ChildTask(t, p, b);
    InsideEnds(Child(t, i), p, Part(b, i), splits - 1);
  }

  lemma PointIn(t: Tree, b: Box)
    requires t.Node? && Placed(t, b) && t.point.Some?
    ensures In(t.point.value, b)
  {
    hide In, Part, Halvings;
  }

  lemma NoRoomKept(t: Tree, b: Box)
    requires t.Node? && Placed(t, b) && !Stores(t)
    ensures Halvings(Size(b)) == 0 ==> t.point.Some?
  {
    hide Halvings;
  }

  // What is below a leaf, or a leaf without its point, takes no splits.
  lemma LeafSplits(t: Tree, b: Box, p: Point)
    requires t.Node? && t.leaf && Placed(t, b)
    ensures Splits(Child(t, Route(p, b)), Part(b, Route(p, b))) == 0
    ensures Splits(Child(t.(point := None), Route(p, b)), Part(b, Route(p, b))) == 0
  {
    hide Part, Halvings;
  }

  // After the leaf's own point went down a second one takes one split less.
  lemma LeafSplitsAgain(t: Tree, b: Box, v: Point, p: Point)
    requires t.Node? && t.leaf && t.point == Some(v) && Placed(t, b) && In(v, b) && Halvings(Size(b)) > 0
    ensures
      var u := InsertedChild(t.(point := None), v, b);
      Splits(Child(u, Route(p, b)), Part(b, Route(p, b))) <= Halvings(Size(b))
  {
    var e := t.(point := None);
    EmptiedPlaced(t, b);
    PartIsHalf(b, Route(p, b));
    assert Kid(e, Route(v, b)) == Absent;
    hide Part, Inserted, In, Route, Placed;
    var u := InsertedChild(e, v, b);
    assert u == WithKid(e, Route(v, b), EMPTY.(point := Some(v)));
  }

  lemma KidSplits(t: Tree, b: Box, p: Point)
    requires t.Node? && !t.leaf
    ensures Splits(Child(t, Route(p, b)), Part(b, Route(p, b))) <= Room(t, b)
  {
    KidIsLower(t, Route(p, b));
    PartIsHalf(b, Route(p, b));
    hide Part, Route;
  }

  // Beyond the corner of quadrant i.
  predicate Beyond(p: Point, b: Box, i: Quadrant) {
    && (if i % 2 == 1 then p.x >= b.x2 else p.x < b.x1)
    && (if i >= 2 then p.y >= b.y2 else p.y < b.y1)
  }

  lemma BeyondStays(p: Point, b: Box, i: Quadrant)
    requires b.x1 <= b.x2 && b.y1 <= b.y2 && Beyond(p, b, i)
    ensures Route(p, b) == i && Beyond(p, Part(b, i), i)
    ensures Part(b, i).x1 <= Part(b, i).x2 && Part(b, i).y1 <= Part(b, i).y2
  {}

  /** Two points beyond one corner that are not near each other always go to the same quadrant: however many splits,
      the insertion of the second does not end. */
  lemma {:induction false} BeyondDoesNotEnd(p: Point, q: Point, b: Box, i: Quadrant, splits: nat)
    requires b.x1 <= b.x2 && b.y1 <= b.y2 && Beyond(p, b, i) && Beyond(q, b, i) && !Near(p, q)
    ensures Attempt(EMPTY.(point := Some(p)), q, b, splits) == None
    decreases splits
  {
    BeyondStays(p, b, i);
    BeyondStays(q, b, i);
    if splits > 0 {
      BeyondDoesNotEnd(p, q, Part(b, i), i, splits - 1);
      hide Part, Route, Beyond, Near;
      var leaf := EMPTY.(point := Some(p));
      assert Attempt(EMPTY, p, Part(b, i), splits - 1) == Some(leaf);
      assert AttemptChild(EMPTY, p, b, splits) == Some(WithKid(EMPTY, i, leaf));
      assert Child(WithKid(EMPTY, i, leaf), i) == leaf;
    }
  }

  lemma CountWithKid(t: Tree, i: Quadrant, k: Tree, q: Point)
    requires t.Node? && k.Node?
    ensures CountBelow(WithKid(t, i, k), q) == CountBelow(t, q) - Count(Child(t, i), q) + Count(k, q)
    ensures WithKid(t, i, k).point == t.point
  {}

  lemma {:induction false} ChildConserves(t: Tree, p: Point, b: Box, q: Point)
    requires t.Node? && Placed(t, b) && In(p, b) && (Halvings(Size(b)) == 0 ==> t.point.Some?)
    ensures CountBelow(InsertedChild(t, p, b), q) == CountBelow(t, q) + (if q == p then 1 else 0)
    ensures InsertedChild(t, p, b).point == t.point
    decreases Halvings(Size(b) * 0.5) + Height(Child(t, Route(p, b))), if Stores(Child(t, Route(p, b))) then 1 else 3
  {
    hide InsertedChild, Inserted, Placed, Part, In, Route, Halvings, CountBelow;
    var i := Route(p, b);
    ChildTask(t, p, b);
    var k := Inserted(Child(t, i), p, Part(b, i));
    InsertedConserves(Child(t, i), p, Part(b, i), q);
    CountWithKid(t, i, k, q);
  }

  // A point near v is stored below the root.
  ghost predicate HasNear(v: Point, t: Tree)
    requires t.Node?
  {
    exists q: Point :: Abs(v.x - q.x) + Abs(v.y - q.y) < 0.01 && CountBelow(t, q) > 0
  }

  /** A node above others keeps a point only for a near one further down. */
  ghost predicate Kept(t: Tree) {
    t != Absent ==>
      && (!t.leaf && t.point.Some? ==> HasNear(t.point.value, t))
      && Kept(t.k0) && Kept(t.k1) && Kept(t.k2) && Kept(t.k3)
  }

  lemma NearStays(t: Tree, p: Point, b: Box, v: Point)
    requires t.Node? && Placed(t, b) && In(p, b) && (Halvings(Size(b)) == 0 ==> t.point.Some?)
    requires HasNear(v, t) || Near(v, p)
    ensures HasNear(v, InsertedChild(t, p, b))
  {
    var q: Point :| Abs(v.x - q.x) + Abs(v.y - q.y) < 0.01 && (CountBelow(t, q) > 0 || q == p);
    ChildConserves(t, p, b, q);
  }

  lemma {:induction false} InsertedKept(t: Tree, p: Point, b: Box)
    requires t.Node? && Placed(t, b) && In(p, b) && Kept(t)
    ensures Kept(Inserted(t, p, b))
    decreases Room(t, b), if Stores(t) then 0 else 2
  {
    if t.leaf && t.point.Some? && !Near(t.point.value, p) {
      var v := t.point.value;
      FarNeedsRoom(v, p, b);
      var e := t.(point := None);
      EmptiedPlaced(t, b);
      hide Placed, In, Halvings, Route, Part;
      ChildKept(e, v, b);
      ChildKept(InsertedChild(e, v, b), p, b);
    } else if !t.leaf || t.point.Some? {
      if !t.leaf { KidIsLower(t, Route(p, b)); }
      ChildKept(t, p, b);
    }
  }

  lemma {:induction false} ChildKept(t: Tree, p: Point, b: Box)
    requires t.Node? && Placed(t, b) && In(p, b) && (Halvings(Size(b)) == 0 ==> t.point.Some?)
    requires Kept(t.k0) && Kept(t.k1) && Kept(t.k2) && Kept(t.k3)
    requires t.point.Some? ==> HasNear(t.point.value, t) || Near(t.point.value, p)
    ensures Kept(InsertedChild(t, p, b))
    decreases Halvings(Size(b) * 0.5) + Height(Child(t, Route(p, b))), if Stores(Child(t, Route(p, b))) then 1 else 3
  {
    var i := Route(p, b);
    ChildTask(t, p, b);
    InsertedKept(Child(t, i), p, Part(b, i));
    if t.point.Some? { NearStays(t, p, b, t.point.value); }
    KeptWithKid(t, i, Inserted(Child(t, i), p, Part(b, i)));
  }

  /** A leaf keeps its point beside a new one exactly if they are nearer than .01, the distances along the axes added;
      else the point goes down, and comes to rest below. */
  lemma LeafKeepsIff(t: Tree, v: Point, p: Point, b: Box)
    requires t.Node? && t.leaf && t.point == Some(v) && Placed(t, b) && In(p, b)
    ensures Inserted(t, p, b).point ==
      if Abs(v.x - p.x) + Abs(v.y - p.y) < 0.01 then Some(v) else None
  {
    hide Halvings, Route, Part, InsertedChild;
    if Near(v, p) {
      ChildConserves(t, p, b, p);
    } else {
      FarNeedsRoom(v, p, b);
      EmptiedPlaced(t, b);
      var e := t.(point := None);
      ChildConserves(e, v, b, p);
      ChildConserves(InsertedChild(e, v, b), p, b, p);
    }
  }

  lemma KeptWithKid(t: Tree, i: Quadrant, k: Tree)
    requires t.Node? && Kept(t.k0) && Kept(t.k1) && Kept(t.k2) && Kept(t.k3) && Kept(k)
    requires t.point.Some? ==> HasNear(t.point.value, WithKid(t, i, k))
    ensures Kept(WithKid(t, i, k))
  {
    hide HasNear;
  }

  // What is stored in quadrant i is on that side of both center lines; a point on a line is to the right or below.
  ghost predicate OnSide(t: Tree, b: Box, i: Quadrant) {
    forall q :: Count(t, q) > 0 ==>
      && (i == 1 || i == 3 <==> 2.0 * q.x >= b.x1 + b.x2)
      && (i == 2 || i == 3 <==> 2.0 * q.y >= b.y1 + b.y2)
  }

  /** The center lines of every box part what is stored below its node. */
  ghost predicate Parted(t: Tree, b: Box) {
    t != Absent ==>
      && OnSide(t.k0, b, 0) && OnSide(t.k1, b, 1) && OnSide(t.k2, b, 2) && OnSide(t.k3, b, 3)
      && Parted(t.k0, Part(b, 0)) && Parted(t.k1, Part(b, 1)) && Parted(t.k2, Part(b, 2)) && Parted(t.k3, Part(b, 3))
  }

  lemma KidParted(t: Tree, b: Box, i: Quadrant)
    requires t.Node? && Parted(t, b)
    ensures Parted(Child(t, i), Part(b, i)) && OnSide(Child(t, i), b, i)
  {
    assert forall q :: Count(EMPTY, q) == 0;
    EmptyParted(Part(b, i));
  }

  lemma EmptyParted(b: Box)
    ensures Parted(EMPTY, b)
  {}

  lemma WithKidParted(t: Tree, b: Box, i: Quadrant, k: Tree)
    requires t.Node? && Parted(t, b) && Parted(k, Part(b, i)) && OnSide(k, b, i)
    ensures Parted(WithKid(t, i, k), b)
  {
    hide OnSide, Part;
  }

  lemma AddedOnSide(p: Point, b: Box, k: Tree, u: Tree)
    requires OnSide(k, b, Route(p, b)) && forall q :: Count(u, q) == Count(k, q) + (if q == p then 1 else 0)
    ensures OnSide(u, b, Route(p, b))
  {}

  lemma {:induction false} InsertedParted(t: Tree, p: Point, b: Box)
    requires t.Node? && Placed(t, b) && In(p, b) && Parted(t, b)
    ensures Parted(Inserted(t, p, b), b)
    decreases Room(t, b), if Stores(t) then 0 else 2
  {
    if t.leaf && t.point.Some? && !Near(t.point.value, p) {
      var v := t.point.value;
      FarNeedsRoom(v, p, b);
      var e := t.(point := None);
      EmptiedPlaced(t, b);
      hide Placed, In, Halvings, Route, Part, OnSide;
      ChildParted(e, v, b);
      ChildParted(InsertedChild(e, v, b), p, b);
    } else if !t.leaf || t.point.Some? {
      if !t.leaf { KidIsLower(t, Route(p, b)); }
      hide OnSide;
      ChildParted(t, p, b);
    }
  }

  lemma {:induction false} ChildParted(t: Tree, p: Point, b: Box)
    requires t.Node? && Placed(t, b) && In(p, b) && (Halvings(Size(b)) == 0 ==> t.point.Some?) && Parted(t, b)
    ensures Parted(InsertedChild(t, p, b), b)
    decreases Halvings(Size(b) * 0.5) + Height(Child(t, Route(p, b))), if Stores(Child(t, Route(p, b))) then 1 else 3
  {
    hide Placed, Parted, OnSide, In, Part, Inserted, InsertedChild, Child, WithKid, Halvings, Route;
    var i := Route(p, b);
    ChildTask(t, p, b);
    KidParted(t, b, i);
    var k := Inserted(Child(t, i), p, Part(b, i));
    InsertedParted(Child(t, i), p, Part(b, i));
    forall q ensures Count(k, q) == Count(Child(t, i), q) + (if q == p then 1 else 0) {
      InsertedConserves(Child(t, i), p, Part(b, i), q);
    }
    AddedOnSide(p, b, Child(t, i), k);
    WithKidParted(t, b, i, k);
  }

  /** No node is deeper than the halvings its box allows and one more for every point. */
  lemma {:induction false} HeightBound(t: Tree, b: Box)
    requires Placed(t, b)
    ensures Height(t) <= Halvings(Size(b)) + Total(t)
  {
    if t != Absent && !t.leaf {
      PartIsHalf(b, 0); PartIsHalf(b, 1); PartIsHalf(b, 2); PartIsHalf(b, 3);
      HeightBound(t.k0, Part(b, 0));
      HeightBound(t.k1, Part(b, 1));
      HeightBound(t.k2, Part(b, 2));
      HeightBound(t.k3, Part(b, 3));
      hide Part, Size;
    }
  }

  // ---------- visiting ----------

  datatype Seen = Seen(tree: Tree, box: Box)

  /** The nodes that visit shows to its visitor, each with the box that insertion uses for it. The visitor
      answers whether to pass over the nodes below. */
  function Visited(t: Tree, b: Box, f: (Tree, Box) -> bool): seq<Seen>
    decreases t, 1
  {
    if t == Absent then [] else [Seen(t, b)] + if f(t, b) then [] else VisitedBelow(t, b, f)
  }

  function VisitedBelow(t: Tree, b: Box, f: (Tree, Box) -> bool): seq<Seen>
    requires t.Node?
    decreases t, 0
  {
    Visited(t.k0, Part(b, 0), f) + Visited(t.k1, Part(b, 1), f) + Visited(t.k2, Part(b, 2), f)
      + Visited(t.k3, Part(b, 3), f)
  }

  lemma NoneVisited(f: (Tree, Box) -> bool)
    ensures forall c :: Visited(Absent, c, f) == []
  {}

  lemma VisitedUnfold(t: Tree, b: Box, f: (Tree, Box) -> bool)
    requires t.Node?
    ensures Visited(t, b, f) == [Seen(t, b)] + if f(t, b) then [] else VisitedBelow(t, b, f)
  {}

  // ---------- which nodes are shown ----------

  // Quadrants from the root down.
  type Path = seq<Quadrant>

  // The upper left, upper right, lower left and lower right quarter of a box.
  function Quarter(b: Box, i: Quadrant): Box {
    var sx, sy := (b.x1 + b.x2) * 0.5, (b.y1 + b.y2) * 0.5;
    match i
    case 0 => Box(b.x1, b.y1, sx, sy)
    case 1 => Box(sx, b.y1, b.x2, sy)
    case 2 => Box(b.x1, sy, sx, b.y2)
    case _ => Box(sx, sy, b.x2, b.y2)
  }

  function NodeAt(t: Tree, path: Path): Tree {
    if path == [] || t == Absent then t
    else
      match path[0]
      case 0 => NodeAt(t.k0, path[1..])
      case 1 => NodeAt(t.k1, path[1..])
      case 2 => NodeAt(t.k2, path[1..])
      case _ => NodeAt(t.k3, path[1..])
  }

  function BoxAt(b: Box, path: Path): Box
    decreases path
  {
    if path == [] then b else BoxAt(Quarter(b, path[0]), path[1..])
  }

  // There is a node at the end of the path, and no node above it is one whose children are passed over.
  ghost predicate Shown(t: Tree, b: Box, f: (Tree, Box) -> bool, path: Path) {
    && NodeAt(t, path) != Absent
    && forall k :: 0 <= k < |path| ==> !f(NodeAt(t, path[..k]), BoxAt(b, path[..k]))
  }

  // A node comes before those below it, and quadrants come in their order.
  predicate InFront(p: Path, q: Path) {
    q != [] && (p == [] || p[0] < q[0] || (p[0] == q[0] && InFront(p[1..], q[1..])))
  }

  // The log has the nodes at these paths, with their boxes: those that are shown, each once, in order.
  ghost predicate IsWalk(log: seq<Seen>, paths: seq<Path>, t: Tree, b: Box, f: (Tree, Box) -> bool) {
    && |paths| == |log| && (forall k :: 0 <= k < |log| ==> log[k] == Seen(NodeAt(t, paths[k]), BoxAt(b, paths[k])))
    && (forall path :: path in paths <==> Shown(t, b, f, path))
    && (forall i, j :: 0 <= i < j < |paths| ==> InFront(paths[i], paths[j]))
  }

  ghost function Below(i: Quadrant, paths: seq<Path>): seq<Path> {
    seq(|paths|, k requires 0 <= k < |paths| => [i] + paths[k])
  }

  lemma InBelow(i: Quadrant, paths: seq<Path>, path: Path)
    ensures path in Below(i, paths) <==> path != [] && path[0] == i && path[1..] in paths
  {
    if path in Below(i, paths) {
      var k :| 0 <= k < |paths| && path == [i] + paths[k];
      assert path[1..] == paths[k];
    }
    if path != [] && path[0] == i && path[1..] in paths {
      var k :| 0 <= k < |paths| && paths[k] == path[1..];
      assert [i] + paths[k] == path == Below(i, paths)[k];
    }
  }

  lemma ShownBelow(t: Tree, b: Box, f: (Tree, Box) -> bool, path: Path)
    requires t.Node? && path != []
    ensures NodeAt(t, path) == NodeAt(Kid(t, path[0]), path[1..])
    ensures BoxAt(b, path) == BoxAt(Part(b, path[0]), path[1..])
    ensures Shown(t, b, f, path) <==> !f(t, b) && Shown(Kid(t, path[0]), Part(b, path[0]), f, path[1..])
  {
    var i, rest := path[0], path[1..];
    assert Quarter(b, i) == Part(b, i);
    assert path[..0] == [];
    hide Quarter, Part;
    forall k | 0 < k < |path|
      ensures NodeAt(t, path[..k]) == NodeAt(Kid(t, i), rest[..k - 1])
      ensures BoxAt(b, path[..k]) == BoxAt(Part(b, i), rest[..k - 1])
    {
      assert path[..k][1..] == rest[..k - 1];
    }
    if !f(t, b) && Shown(Kid(t, i), Part(b, i), f, rest) {
      forall k | 0 <= k < |path| ensures !f(NodeAt(t, path[..k]), BoxAt(b, path[..k])) {
        if k > 0 { assert !f(NodeAt(Kid(t, i), rest[..k - 1]), BoxAt(Part(b, i), rest[..k - 1])); }
      }
    }
    if Shown(t, b, f, path) {
      forall k | 0 <= k < |rest| ensures !f(NodeAt(Kid(t, i), rest[..k]), BoxAt(Part(b, i), rest[..k])) {
        assert !f(NodeAt(t, path[..k + 1]), BoxAt(b, path[..k + 1]));
      }
    }
  }

  // The walks of two neighbours, one after the other; all paths of the first come before those of the second.
  ghost predicate IsWalkBelow(log: seq<Seen>, paths: seq<Path>, t: Tree, b: Box, f: (Tree, Box) -> bool, n: nat)
    requires t.Node?
  {
    && |paths| == |log| && (forall k :: 0 <= k < |log| ==> log[k] == Seen(NodeAt(t, paths[k]), BoxAt(b, paths[k])))
    && (forall path :: path in paths <==>
      path != [] && path[0] < n && Shown(Kid(t, path[0]), Part(b, path[0]), f, path[1..]))
    && (forall i, j :: 0 <= i < j < |paths| ==> InFront(paths[i], paths[j]))
  }

  lemma NextWalk(log: seq<Seen>, paths: seq<Path>, more: seq<Seen>, ps: seq<Path>, t: Tree, b: Box,
                 f: (Tree, Box) -> bool, i: Quadrant)
    requires t.Node? && IsWalkBelow(log, paths, t, b, f, i) && IsWalk(more, ps, Kid(t, i), Part(b, i), f)
    ensures IsWalkBelow(log + more, paths + Below(i, ps), t, b, f, i + 1)
  {
    hide Shown, Kid, Part;
    var all := paths + Below(i, ps);
    forall path
      ensures path in all <==> path != [] && path[0] < i + 1 && Shown(Kid(t, path[0]), Part(b, path[0]), f, path[1..])
    {
      InBelow(i, ps, path);
    }
    forall k | 0 <= k < |log + more| ensures (log + more)[k] == Seen(NodeAt(t, all[k]), BoxAt(b, all[k])) {
      if k >= |log| {
        var p := ps[k - |log|];
        assert all[k] == [i] + p && all[k][1..] == p;
        ShownBelow(t, b, f, all[k]);
      }
    }
    forall j, k | 0 <= j < k < |all| ensures InFront(all[j], all[k]) {
      if j < |paths| <= k {
        assert paths[j] in paths && all[k][0] == i;
      } else if |paths| <= j {
        var p, q := ps[j - |paths|], ps[k - |paths|];
        assert all[j] == [i] + p && all[k] == [i] + q && all[j][1..] == p && all[k][1..] == q;
      }
    }
  }

  /** The visitor is shown exactly the nodes above which it has passed over none, each once and with the box that its
      path from the root leads to; a node before those below it, and quadrants in their order. */
  lemma {:induction false} VisitedIsWalk(t: Tree, b: Box, f: (Tree, Box) -> bool) returns (paths: seq<Path>)
    ensures IsWalk(Visited(t, b, f), paths, t, b, f)
  {
    if t == Absent {
      paths := [];
      forall path ensures !Shown(t, b, f, path) {}
    } else {
      hide Shown, Part;
      var below: seq<Path> := [];
      var log: seq<Seen> := [];
      if !f(t, b) {
        var p0 := VisitedIsWalk(t.k0, Part(b, 0), f);
        var p1 := VisitedIsWalk(t.k1, Part(b, 1), f);
        var p2 := VisitedIsWalk(t.k2, Part(b, 2), f);
        var p3 := VisitedIsWalk(t.k3, Part(b, 3), f);
        log, below := WalkOfFour(t, b, f, p0, p1, p2, p3);
      }
      paths := [[]] + below;
      WalkFromRoot(log, below, t, b, f);
      VisitedUnfold(t, b, f);
    }
  }

  lemma WalkOfFour(t: Tree, b: Box, f: (Tree, Box) -> bool, p0: seq<Path>, p1: seq<Path>, p2: seq<Path>, p3: seq<Path>)
    returns (log: seq<Seen>, paths: seq<Path>)
    requires t.Node? && IsWalk(Visited(t.k0, Part(b, 0), f), p0, t.k0, Part(b, 0), f)
    requires IsWalk(Visited(t.k1, Part(b, 1), f), p1, t.k1, Part(b, 1), f)
    requires IsWalk(Visited(t.k2, Part(b, 2), f), p2, t.k2, Part(b, 2), f)
    requires IsWalk(Visited(t.k3, Part(b, 3), f), p3, t.k3, Part(b, 3), f)
    ensures log == VisitedBelow(t, b, f) && IsWalkBelow(log, paths, t, b, f, 4)
  {
    hide IsWalk, IsWalkBelow, Visited, Part;
    var v0, v1, v2, v3 :=
      Visited(t.k0, Part(b, 0), f), Visited(t.k1, Part(b, 1), f), Visited(t.k2, Part(b, 2), f),
        Visited(t.k3, Part(b, 3), f);
    NoWalk(t, b, f);
    NextWalk([], [], v0, p0, t, b, f, 0);
    NextWalk([] + v0, [] + Below(0, p0), v1, p1, t, b, f, 1);
    NextWalk([] + v0 + v1, [] + Below(0, p0) + Below(1, p1), v2, p2, t, b, f, 2);
    log, paths := [] + v0 + v1 + v2, [] + Below(0, p0) + Below(1, p1) + Below(2, p2);
    NextWalk(log, paths, v3, p3, t, b, f, 3);
    assert [] + v0 == v0;
    log, paths := log + v3, paths + Below(3, p3);
  }

  lemma NoWalk(t: Tree, b: Box, f: (Tree, Box) -> bool)
    requires t.Node?
    ensures IsWalkBelow([], [], t, b, f, 0)
  {}

  lemma WalkFromRoot(log: seq<Seen>, below: seq<Path>, t: Tree, b: Box, f: (Tree, Box) -> bool)
    requires t.Node? && (if f(t, b) then log == [] && below == [] else IsWalkBelow(log, below, t, b, f, 4))
    ensures IsWalk([Seen(t, b)] + log, [[]] + below, t, b, f)
  {
    var paths: seq<Path> := [[]] + below;
    forall path ensures path in paths <==> Shown(t, b, f, path) {
      assert path in paths <==> path == [] || path in below;
      if path != [] { ShownBelow(t, b, f, path); }
    }
    hide Shown;
    forall i, j | 0 <= i < j < |paths| ensures InFront(paths[i], paths[j]) {
      if i == 0 { assert paths[j] in below; }
    }
  }

  // How often q is the point of a node in a list.
  ghost function CountSeen(log: seq<Seen>, q: Point): nat {
    if log == [] then 0 else (if log[0].tree.Node? then CountAt(log[0].tree.point, q) else 0) + CountSeen(log[1..], q)
  }

  lemma {:induction false} CountSeenConcat(a: seq<Seen>, b: seq<Seen>, q: Point)
    ensures CountSeen(a + b, q) == CountSeen(a, q) + CountSeen(b, q)
  {
    if a == [] {
      assert a + b == b;
    } else {
      CountSeenConcat(a[1..], b, q);
      assert (a + b)[1..] == a[1..] + b;
    }
  }

  ghost predicate SeenPlaced(log: seq<Seen>) { forall k :: 0 <= k < |log| ==> Placed(log[k].tree, log[k].box) }

  /** Each box shown to the visitor holds its node: the node's point and all those below. */
  lemma {:induction false} VisitedPlaced(t: Tree, b: Box, f: (Tree, Box) -> bool)
    requires Placed(t, b)
    ensures SeenPlaced(Visited(t, b, f))
  {
    if t != Absent {
      VisitedPlaced(t.k0, Part(b, 0), f);
      VisitedPlaced(t.k1, Part(b, 1), f);
      VisitedPlaced(t.k2, Part(b, 2), f);
      VisitedPlaced(t.k3, Part(b, 3), f);
      hide Placed, Part;
    }
  }

  lemma {:induction false} StoredIsIn(t: Tree, b: Box, q: Point)
    requires Placed(t, b) && Count(t, q) > 0
    ensures In(q, b)
  {
    if t.point != Some(q) {
      if Count(t.k0, q) > 0 { StoredIsIn(t.k0, Part(b, 0), q); }
      else if Count(t.k1, q) > 0 { StoredIsIn(t.k1, Part(b, 1), q); }
      else if Count(t.k2, q) > 0 { StoredIsIn(t.k2, Part(b, 2), q); }
      else { StoredIsIn(t.k3, Part(b, 3), q); }
    }
  }

  lemma CountSeenFour(own: Seen, a: seq<Seen>, b: seq<Seen>, c: seq<Seen>, d: seq<Seen>, q: Point)
    requires own.tree.Node?
    ensures CountSeen([own] + (a + b + c + d), q) ==
      CountAt(own.tree.point, q) + CountSeen(a, q) + CountSeen(b, q) + CountSeen(c, q) + CountSeen(d, q)
  {
    CountSeenConcat(a, b, q);
    CountSeenConcat(a + b, c, q);
    CountSeenConcat(a + b + c, d, q);
    assert ([own] + (a + b + c + d))[1..] == a + b + c + d;
  }

  /** A visitor that only passes over boxes without q is shown q as often as it was inserted. */
  lemma {:induction false} VisitFinds(t: Tree, b: Box, f: (Tree, Box) -> bool, q: Point)
    requires Placed(t, b) && forall s, c :: f(s, c) ==> !In(q, c)
    ensures CountSeen(Visited(t, b, f), q) == Count(t, q)
  {
    if t != Absent {
      VisitFinds(t.k0, Part(b, 0), f, q);
      VisitFinds(t.k1, Part(b, 1), f, q);
      VisitFinds(t.k2, Part(b, 2), f, q);
      VisitFinds(t.k3, Part(b, 3), f, q);
      if Count(t, q) > 0 { StoredIsIn(t, b, q); }
      CountSeenFour(Seen(t, b), Visited(t.k0, Part(b, 0), f), Visited(t.k1, Part(b, 1), f),
        Visited(t.k2, Part(b, 2), f), Visited(t.k3, Part(b, 3), f), q);
      hide Placed, Part, In;
      assert [Seen(t, b)] + [] == [Seen(t, b)];
    }
  }

  lemma WithKidKids(t: Tree, i: Quadrant, k: Tree)
    requires t.Node?
    ensures WithKid(t, i, k).Node? && !WithKid(t, i, k).leaf && WithKid(t, i, k).point == t.point
    ensures forall j: Quadrant :: Kid(WithKid(t, i, k), j) == if j == i then k else Kid(t, j)
    ensures WithKid(WithKid(t, i, Child(t, i)), i, k) == WithKid(t, i, k)
  {}

  // ---------- the nodes ----------

  class QNode {
    var leaf: bool
    var nodes: seq<QNode?>
    var point: Option<Point>
    ghost var tree: Tree
    ghost var Repr: set<QNode>

    // This node, its children and all nodes below them, none of them shared.
    ghost predicate Valid()
      reads this, Repr
      decreases Repr
    {
      && this in Repr && |nodes| == 4
      && (forall j: Quadrant :: nodes[j] != null ==>
        nodes[j] in Repr && nodes[j].Repr <= Repr && this !in nodes[j].Repr && nodes[j].Valid())
      && (forall j: Quadrant, k: Quadrant :: j != k && nodes[j] != null && nodes[k] != null ==>
        nodes[j].Repr !! nodes[k].Repr)
      && tree.Node? && tree.leaf == leaf && tree.point == point
      && (forall j: Quadrant :: Kid(tree, j) == if nodes[j] == null then Absent else nodes[j].tree)
    }

    lemma KidValid(i: Quadrant)
      requires Valid()
      ensures this in Repr && |nodes| == 4 && tree.Node?
      ensures Kid(tree, i) == (if nodes[i] == null then Absent else nodes[i].tree)
      ensures nodes[i] != null ==> nodes[i].Valid() && nodes[i].Repr < Repr
    {
      hide Kid;
    }

    constructor ()
      ensures Valid() && fresh(Repr) && tree == EMPTY
    {
      leaf, nodes, point := true, [null, null, null, null], None;
      tree, Repr := EMPTY, {this};
    }

    // What a visitor can see of a node: its fields, and its children through them.
    function Contents(): (t: Tree)
      requires Valid()
      reads Repr
      ensures t == tree
      decreases Repr
    {
      assert Kid(tree, 0) == tree.k0 && Kid(tree, 1) == tree.k1 && Kid(tree, 2) == tree.k2 && Kid(tree, 3) == tree.k3;
      Node(leaf, point,
        if nodes[0] == null then Absent else nodes[0].Contents(),
        if nodes[1] == null then Absent else nodes[1].Contents(),
        if nodes[2] == null then Absent else nodes[2].Contents(),
        if nodes[3] == null then Absent else nodes[3].Contents())
    }

    // insert: the point is added to this node or below it.
    method Insert(p: Point, b: Box)
      requires Valid() && Placed(tree, b) && In(p, b)
      modifies Repr
      ensures Valid() && fresh(Repr - old(Repr)) && old(Repr) <= Repr
      ensures tree == Inserted(old(tree), p, b)
      decreases Room(tree, b), if Stores(tree) then 0 else 3
    {
      if leaf {
        if point.Some? {
          var v := point.value;
          if Near(v, p) {
            InsertChild(p, b);
          } else {
            FarNeedsRoom(v, p, b);
            point := None;
            tree := tree.(point := None);
            InsertChild(v, b);
            InsertChild(p, b);
          }
        } else {
          point := Some(p);
          tree := tree.(point := Some(p));
        }
      } else {
        KidIsLower(tree, Route(p, b));
        InsertChild(p, b);
      }
    }

    // insertChild: the point is added to the child that it is routed to.
    method InsertChild(p: Point, b: Box)
      requires Valid() && Placed(tree, b) && In(p, b) && (Halvings(Size(b)) == 0 ==> tree.point.Some?)
      modifies Repr
      ensures Valid() && fresh(Repr - old(Repr)) && old(Repr) <= Repr
      ensures tree == InsertedChild(old(tree), p, b)
      decreases Halvings(Size(b) * 0.5) + Height(Child(tree, Route(p, b))), if Stores(Child(tree, Route(p, b))) then 2
        else 5
    {
      hide Valid, Placed, Halvings, Height, Inserted, InsertedChild, Kid, WithKid, Child, Part, In, Route, Size;
      var sx, sy := (b.x1 + b.x2) * 0.5, (b.y1 + b.y2) * 0.5;
      var right, bottom := p.x >= sx, p.y >= sy;
      var i: Quadrant := (if bottom then 2 else 0) + if right then 1 else 0;
      RouteIs(p, b);
      KidValid(i);
      ChildTask(tree, p, b);
      var c := b;
      c := if right then c.(x1 := sx) else c.(x2 := sx);
      c := if bottom then c.(y1 := sy) else c.(y2 := sy);
      PartIs(b, right, bottom);
      ghost var t := tree;
      var n := GetChild(i);
      WithKidKids(t, i, Inserted(Child(t, i), p, c));
      InsertBelow(i, n, p, c);
    }

    // The call of insert on the child found, with what it means for this node.
    method InsertBelow(i: Quadrant, n: QNode, p: Point, b: Box)
      requires Valid() && !leaf && n == nodes[i] && n.tree.Node? && Placed(n.tree, b) && In(p, b)
      modifies Repr
      ensures Valid() && fresh(Repr - old(Repr)) && old(Repr) <= Repr
      ensures tree == WithKid(old(tree), i, Inserted(old(n.tree), p, b))
      decreases Room(n.tree, b), if Stores(n.tree) then 1 else 4
    {
      hide Placed, In, Halvings, Height, Inserted, Size, Kid, WithKid;
      n.Insert(p, b);
      forall j: Quadrant | j != i && nodes[j] != null
        ensures nodes[j].Repr == old(nodes[j].Repr) && nodes[j].tree == old(nodes[j].tree) && nodes[j].Valid()
        ensures nodes[j].Repr !! n.Repr && n.Repr !! nodes[j].Repr
      {
        var m: QNode := nodes[j];
        assert old(m.Valid()) && m in old(m.Repr) && old(m.Repr !! n.Repr);
        assert forall x :: x in old(m.Repr) ==> x in old(Repr) - old(n.Repr) && !fresh(x);
        assert unchanged(m);
        assert forall x :: x in n.Repr ==> x in old(n.Repr) || fresh(x);
      }
      hide Valid;
      Adopt(i, n);
    }

    // The children other than child i.
    ghost predicate Siblings(i: Quadrant)
      reads this, nodes, Repr
    {
      && this in Repr && |nodes| == 4
      && (forall j: Quadrant :: j != i && nodes[j] != null ==>
        nodes[j] in Repr && nodes[j].Repr <= Repr && this !in nodes[j].Repr && nodes[j].Valid())
      && (forall j: Quadrant, k: Quadrant :: j != k && nodes[j] != null && nodes[k] != null ==>
        nodes[j].Repr !! nodes[k].Repr)
      && tree.Node? && tree.point == point
      && (forall j: Quadrant :: j != i ==> Kid(tree, j) == if nodes[j] == null then Absent else nodes[j].tree)
    }

    // The child that has grown is this node's own again.
    ghost method Adopt(i: Quadrant, n: QNode)
      requires Siblings(i) && !leaf && n == nodes[i] && n in n.Repr && this !in n.Repr && n.Valid()
      modifies this`tree, this`Repr
      ensures Valid() && tree == WithKid(old(tree), i, n.tree) && Repr == old(Repr) + n.Repr
    {
      WithKidKids(tree, i, n.tree);
      hide Kid, WithKid;
      tree := WithKid(tree, i, n.tree);
      Repr := Repr + n.Repr;
    }

    // n.nodes[i] || (n.nodes[i] = ...), of a node that is a leaf no more.
    method GetChild(i: Quadrant) returns (n: QNode)
      requires Valid()
      modifies this
      ensures Valid() && fresh(Repr - old(Repr)) && old(Repr) <= Repr
      ensures |nodes| == 4 && n == nodes[i] && n.tree == Child(old(tree), i) && !leaf
      ensures tree == WithKid(old(tree), i, n.tree)
    {
      hide Kid, WithKid;
      leaf := false;
      if nodes[i] == null {
        n := new QNode();
        nodes := nodes[i := n];
      } else {
        n := nodes[i];
      }
      WithKidKids(tree, i, n.tree);
      hide Kid, WithKid;
      tree := WithKid(tree, i, n.tree);
      Repr := Repr + n.Repr;
    }

    /** The visit: the boxes of the four children are computed anew. */
    method Visit(f: (Tree, Box) -> bool, x1: real, y1: real, x2: real, y2: real) returns (log: seq<Seen>)
      requires Valid()
      ensures log == Visited(tree, Box(x1, y1, x2, y2), f)
      decreases Repr
    {
      KidValid(0); KidValid(1); KidValid(2); KidValid(3);
      ghost var b := Box(x1, y1, x2, y2);
      var own := [Seen(Contents(), Box(x1, y1, x2, y2))];
      log := [];
      if !f(Contents(), Box(x1, y1, x2, y2)) {
        var sx, sy := (x1 + x2) * 0.5, (y1 + y2) * 0.5;
        assert b.x1 == x1 && Part(b, 0) == Box(x1, y1, sx, sy) && Part(b, 1) == Box(sx, y1, x2, sy);
        assert b.x1 == x1 && Part(b, 2) == Box(x1, sy, sx, y2) && Part(b, 3) == Box(sx, sy, x2, y2);
        hide Part, Valid, Visited;
        NoneVisited(f);
        var v0, v1, v2, v3 := [], [], [], [];
        if nodes[0] != null { v0 := nodes[0].Visit(f, x1, y1, sx, sy); }
        if nodes[1] != null { v1 := nodes[1].Visit(f, sx, y1, x2, sy); }
        if nodes[2] != null { v2 := nodes[2].Visit(f, x1, sy, sx, y2); }
        if nodes[3] != null { v3 := nodes[3].Visit(f, sx, sy, x2, y2); }
        log := v0 + v1 + v2 + v3;
      }
      log := own + log;
      VisitedUnfold(tree, b, f);
    }
  }

  // ---------- the whole quadtree ----------

  // The smallest square from the least coordinates that holds all the points.
  ghost predicate Encloses(b: Box, points: seq<Point>) {
    && (forall p :: p in points ==> In(p, b))
    && (exists p :: p in points && p.x == b.x1) && (exists p :: p in points && p.y == b.y1)
    && b.x2 - b.x1 == b.y2 - b.y1
    && ((exists p :: p in points && p.x == b.x2) || (exists p :: p in points && p.y == b.y2))
  }

  /** The bounds computed for points: none, as they stay infinite, without points. */
  method Bounds(points: seq<Point>) returns (b: Option<Box>)
    ensures b == None <==> points == []
    ensures b.Some? ==> Encloses(b.value, points)
  {
    b := None;
    for i := 0 to |points|
      invariant b == None <==> i == 0
      invariant b.Some? ==> forall p :: p in points[..i] ==> In(p, b.value)
      invariant b.Some? ==>
        (exists p :: p in points && p.x == b.value.x1) && (exists p :: p in points && p.y == b.value.y1)
      invariant b.Some? ==>
        (exists p :: p in points && p.x == b.value.x2) && (exists p :: p in points && p.y == b.value.y2)
    {
      var p := points[i];
      assert points[..i + 1] == points[..i] + [p] && p in points;
      b := Some(match b
        case None => Box(p.x, p.y, p.x, p.y)
        case Some(c) =>
          Box(if p.x < c.x1 then p.x else c.x1, if p.y < c.y1 then p.y else c.y1,
              if p.x > c.x2 then p.x else c.x2, if p.y > c.y2 then p.y else c.y2));
    }
    assert points[..|points|] == points;
    if b.Some? {
      var c := b.value;
      var dx, dy := c.x2 - c.x1, c.y2 - c.y1;
      b := Some(if dx > dy then c.(y2 := c.y1 + dx) else c.(x2 := c.x1 + dy));
    }
  }

  ghost predicate StoresExactly(t: Tree, points: seq<Point>) { forall q :: Count(t, q) == multiset(points)[q] }

  // A tree for these points in this box, the points parted where they can be.
  ghost predicate IsBuilt(t: Tree, b: Box, points: seq<Point>) {
    StoresExactly(t, points) && Placed(t, b) && Kept(t) && Parted(t, b)
  }

  lemma EmptyIsBuilt(b: Box)
    ensures IsBuilt(EMPTY, b, [])
  {
    EmptyParted(b);
    assert forall q :: Count(EMPTY, q) == 0;
    assert Kept(Absent);
  }

  lemma NextInserted(t: Tree, p: Point, b: Box, points: seq<Point>)
    requires t.Node? && Placed(t, b) && In(p, b) && IsBuilt(t, b, points)
    ensures IsBuilt(Inserted(t, p, b), b, points + [p])
  {
    forall q ensures Count(Inserted(t, p, b), q) == multiset(points + [p])[q] {
      InsertedConserves(t, p, b, q);
    }
    InsertedKept(t, p, b);
    InsertedParted(t, p, b);
  }

  lemma EnclosedAreIn(b: Box, points: seq<Point>)
    requires Encloses(b, points)
    ensures forall p :: p in points ==> In(p, b)
  {}

  /** The quadtree of points: it stores exactly them, each in its box, and parts them where it can. */
  method Build(points: seq<Point>, explicit: Option<Box>) returns (root: QNode, b: Option<Box>)
    requires explicit.Some? ==> forall p :: p in points ==> In(p, explicit.value)
    ensures fresh(root.Repr) && root.Valid()
    ensures explicit.Some? ==> b == explicit
    ensures explicit == None && points != [] ==> b.Some? && Encloses(b.value, points)
    ensures points == [] ==> root.tree == EMPTY
    ensures StoresExactly(root.tree, points)
    ensures b.Some? ==> Placed(root.tree, b.value) && Kept(root.tree) && Parted(root.tree, b.value)
  {
    hide StoresExactly, Placed, Kept, Parted, In, Inserted, Encloses;
    b := explicit;
    if b == None {
      b := Bounds(points);
      if b.Some? { EnclosedAreIn(b.value, points); }
    }
    root := new QNode();
    ghost var box := if b.Some? then b.value else Box(0.0, 0.0, 0.0, 0.0);
    EmptyIsBuilt(box);
    for i := 0 to |points|
      invariant fresh(root.Repr) && root.Valid() && (i == 0 ==> root.tree == EMPTY)
      invariant IsBuilt(root.tree, box, points[..i])
    {
      var p := points[i];
      assert points[..i + 1] == points[..i] + [p] && p in points;
      NextInserted(root.tree, p, box, points[..i]);
      root.Insert(p, b.value);
    }
    assert points[..|points|] == points;
  }
}
