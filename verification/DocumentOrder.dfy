/** The fallback sortOrder of Sizzle: document order from parent and sibling links alone. */
module DocumentOrder {
  import opened Options
  import opened Sequences

  type Node = nat

  // A document, and the links a browser offers over it.
  datatype Tree = Tree(id: Node, kids: seq<Tree>)
  datatype Links = Links(parent: map<Node, Node>, next: map<Node, Node>)

  /** The nodes in document order: each node, then its children's subtrees. */
  function Preorder(t: Tree): (r: seq<Node>)
    ensures |r| > 0 && r[0] == t.id
    decreases t, 0
  {
    [t.id] + PreorderAll(t.kids)
  }

  function PreorderAll(ts: seq<Tree>): seq<Node>
    decreases ts
  {
    if ts == [] then [] else Preorder(ts[0]) + PreorderAll(ts[1..])
  }

  /** a comes before b. */
  ghost predicate Precedes(s: seq<Node>, a: Node, b: Node) {
    exists i, j :: 0 <= i < j < |s| && s[i] == a && s[j] == b
  }

  ghost predicate Linked(t: Tree, l: Links) {
    && SiblingsLinked(t.kids, t.id, l)
    && forall k :: 0 <= k < |t.kids| ==> Linked(t.kids[k], l)
  }

  ghost predicate SiblingsLinked(kids: seq<Tree>, p: Node, l: Links) {
    && (forall k :: 0 <= k < |kids| ==> kids[k].id in l.parent && l.parent[kids[k].id] == p)
    && Chained(Ids(kids), l.next)
  }

  function Ids(ts: seq<Tree>): (r: seq<Node>)
    ensures |r| == |ts| && forall k :: 0 <= k < |ts| ==> r[k] == ts[k].id
  {
    seq(|ts|, k requires 0 <= k < |ts| => ts[k].id)
  }

  // nextSibling runs through s and ends with it.
  ghost predicate Chained(s: seq<Node>, next: map<Node, Node>) {
    && (forall i, j :: 0 <= i < |s| - 1 && j == i + 1 ==> s[i] in next && next[s[i]] == s[j])
    && (s != [] ==> s[|s| - 1] !in next)
  }

  // ---------- preorder ----------

  lemma PrecedesInPart(a: seq<Node>, s: seq<Node>, b: seq<Node>, x: Node, y: Node)
    requires Precedes(s, x, y)
    ensures Precedes(a + s + b, x, y)
  {
    var i, j :| 0 <= i < j < |s| && s[i] == x && s[j] == y;
    var r := a + s + b;
    assert r[|a| + i] == x && r[|a| + j] == y;
  }

  lemma PrecedesAcross(s: seq<Node>, t: seq<Node>, x: Node, y: Node)
    requires x in s && y in t
    ensures Precedes(s + t, x, y)
  {
    var i :| 0 <= i < |s| && s[i] == x;
    var j :| 0 <= j < |t| && t[j] == y;
    assert (s + t)[i] == x && (s + t)[|s| + j] == y;
  }

  // What lies in child k, and what order holds within it.
  lemma {:induction false} InChild(ts: seq<Tree>, k: nat, x: Node)
    requires k < |ts| && x in Preorder(ts[k])
    ensures x in PreorderAll(ts)
    decreases k
  {
    if k > 0 { InChild(ts[1..], k - 1, x); }
  }

  lemma {:induction false} PrecedesInChild(ts: seq<Tree>, k: nat, x: Node, y: Node)
    requires k < |ts| && Precedes(Preorder(ts[k]), x, y)
    ensures Precedes(PreorderAll(ts), x, y)
    decreases k
  {
    if k == 0 {
      PrecedesInPart([], Preorder(ts[0]), PreorderAll(ts[1..]), x, y);
      assert [] + Preorder(ts[0]) == Preorder(ts[0]);
    } else {
      PrecedesInChild(ts[1..], k - 1, x, y);
      PrecedesInPart(Preorder(ts[0]), PreorderAll(ts[1..]), [], x, y);
      assert PreorderAll(ts) + [] == PreorderAll(ts);
    }
  }

  lemma {:induction false} PrecedesAcrossChildren(ts: seq<Tree>, k: nat, m: nat, x: Node, y: Node)
    requires k < m < |ts| && x in Preorder(ts[k]) && y in Preorder(ts[m])
    ensures Precedes(PreorderAll(ts), x, y)
    decreases k
  {
    if k == 0 {
      InChild(ts[1..], m - 1, y);
      PrecedesAcross(Preorder(ts[0]), PreorderAll(ts[1..]), x, y);
    } else {
      PrecedesAcrossChildren(ts[1..], k - 1, m - 1, x, y);
      PrecedesInPart(Preorder(ts[0]), PreorderAll(ts[1..]), [], x, y);
      assert PreorderAll(ts) + [] == PreorderAll(ts);
    }
  }

  /** In a list without repetition document order is a strict total order. */
  lemma PrecedesIsStrictTotal(s: seq<Node>, a: Node, b: Node, c: Node)
    requires Distinct(s) && a in s && b in s && c in s
    ensures !Precedes(s, a, a)
    ensures a != b ==> (Precedes(s, a, b) <==> !Precedes(s, b, a))
    ensures Precedes(s, a, b) && Precedes(s, b, c) ==> Precedes(s, a, c)
  {
    var i :| 0 <= i < |s| && s[i] == a;
    var j :| 0 <= j < |s| && s[j] == b;
    if a != b { assert i < j || j < i; }
  }

  // ---------- paths ----------

  // The child whose subtree holds x.
  function ChildOf(ts: seq<Tree>, x: Node): (k: nat)
    requires x in PreorderAll(ts)
    ensures k < |ts| && x in Preorder(ts[k])
  {
    if x in Preorder(ts[0]) then 0 else 1 + ChildOf(ts[1..], x)
  }

  /** The nodes from the root down to x. */
  function PathTo(t: Tree, x: Node): (r: seq<Node>)
    requires x in Preorder(t)
    ensures |r| > 0 && r[0] == t.id && r[|r| - 1] == x
    decreases t
  {
    if x == t.id then [x] else [t.id] + PathTo(t.kids[ChildOf(t.kids, x)], x)
  }

  /** Each node of the path is the parent of the next. */
  lemma {:induction false} PathFollowsParents(t: Tree, l: Links, x: Node, i: nat)
    requires Linked(t, l) && x in Preorder(t) && 0 < i < |PathTo(t, x)|
    ensures PathTo(t, x)[i] in l.parent && l.parent[PathTo(t, x)[i]] == PathTo(t, x)[i - 1]
    decreases t
  {
    var k := ChildOf(t.kids, x);
    if i > 1 { PathFollowsParents(t.kids[k], l, x, i - 1); }
  }

  // Where the paths to two nodes part, and the siblings they part into.
  ghost predicate PartsAt(t: Tree, l: Links, a: Node, b: Node, i: nat, sibs: seq<Node>)
    requires a in Preorder(t) && b in Preorder(t)
  {
    var p, q := PathTo(t, a), PathTo(t, b);
    && 0 < i <= |p| && i <= |q| && p[..i] == q[..i]
    && (i == |p| ==> Precedes(Preorder(t), a, b))
    && (i == |q| ==> Precedes(Preorder(t), b, a))
    && (i < |p| && i < |q| ==> SiblingsDecide(Preorder(t), l, a, b, p[i], q[i], sibs))
  }

  // c and d are different siblings, and their order is that of a and b.
  ghost predicate SiblingsDecide(s: seq<Node>, l: Links, a: Node, b: Node, c: Node, d: Node, sibs: seq<Node>) {
    && Chained(sibs, l.next) && Distinct(sibs)
    && c in sibs && d in sibs && c != d
    && (Precedes(sibs, c, d) ==> Precedes(s, a, b)) && (Precedes(sibs, d, c) ==> Precedes(s, b, a))
  }

  lemma {:induction false} DistinctChild(ts: seq<Tree>, k: nat)
    requires Distinct(PreorderAll(ts)) && k < |ts|
    ensures Distinct(Preorder(ts[k]))
    decreases k
  {
    var s, r := Preorder(ts[0]), PreorderAll(ts[1..]);
    if k == 0 {
      forall i, j | 0 <= i < j < |s| ensures s[i] != s[j] { assert (s + r)[i] != (s + r)[j]; }
    } else {
      forall i, j | 0 <= i < j < |r| ensures r[i] != r[j] { assert (s + r)[|s| + i] != (s + r)[|s| + j]; }
      DistinctChild(ts[1..], k - 1);
    }
  }

  lemma DistinctTail(t: Tree)
    requires Distinct(Preorder(t))
    ensures Distinct(PreorderAll(t.kids))
  {
    var r := PreorderAll(t.kids);
    forall i, j | 0 <= i < j < |r| ensures r[i] != r[j] { assert Preorder(t)[i + 1] != Preorder(t)[j + 1]; }
  }

  // No node lies in two children.
  lemma ChildIsUnique(ts: seq<Tree>, k: nat, m: nat, x: Node)
    requires Distinct(PreorderAll(ts)) && k < |ts| && m < |ts| && x in Preorder(ts[k]) && x in Preorder(ts[m])
    ensures k == m
  {
    if k < m {
      PrecedesAcrossChildren(ts, k, m, x, x);
    } else if m < k {
      PrecedesAcrossChildren(ts, m, k, x, x);
    }
  }

  lemma IdsDistinct(ts: seq<Tree>)
    requires Distinct(PreorderAll(ts))
    ensures Distinct(Ids(ts))
  {
    forall i, j | 0 <= i < j < |ts| ensures ts[i].id != ts[j].id {
      if ts[i].id == ts[j].id { ChildIsUnique(ts, i, j, ts[i].id); }
    }
  }

  // Order within a child is order within the tree.
  lemma LiftPrecedes(t: Tree, k: nat, a: Node, b: Node)
    requires k < |t.kids| && Precedes(Preorder(t.kids[k]), a, b)
    ensures Precedes(Preorder(t), a, b)
  {
    PrecedesInChild(t.kids, k, a, b);
    PrecedesInPart([t.id], PreorderAll(t.kids), [], a, b);
    assert [t.id] + PreorderAll(t.kids) + [] == Preorder(t);
  }

  lemma OrderOfChildren(t: Tree, k: nat, m: nat, a: Node, b: Node)
    requires k < m < |t.kids| && a in Preorder(t.kids[k]) && b in Preorder(t.kids[m])
    ensures Precedes(Preorder(t), a, b)
  {
    PrecedesAcrossChildren(t.kids, k, m, a, b);
    PrecedesInPart([t.id], PreorderAll(t.kids), [], a, b);
    assert [t.id] + PreorderAll(t.kids) + [] == Preorder(t);
  }

  lemma RootIsFirst(t: Tree, b: Node)
    requires b in Preorder(t) && b != t.id
    ensures Precedes(Preorder(t), t.id, b)
  {
    var j :| 0 <= j < |Preorder(t)| && Preorder(t)[j] == b;
  }

  // The paths part among the children of t.
  lemma PartAmongChildren(t: Tree, l: Links, a: Node, b: Node)
    requires Linked(t, l) && Distinct(Preorder(t)) && a in Preorder(t) && b in Preorder(t) && a != t.id && b != t.id
    requires ChildOf(t.kids, a) != ChildOf(t.kids, b)
    ensures PartsAt(t, l, a, b, 1, Ids(t.kids))
  {
    var k, m := ChildOf(t.kids, a), ChildOf(t.kids, b);
    var sibs := Ids(t.kids);
    DistinctTail(t);
    IdsDistinct(t.kids);
    if k < m { OrderOfChildren(t, k, m, a, b); } else { OrderOfChildren(t, m, k, b, a); }
    var p, q := PathTo(t, a), PathTo(t, b);
    assert p[1] == sibs[k] && q[1] == sibs[m];
    assert p[..1] == [t.id] == q[..1];
    assert Precedes(sibs, p[1], q[1]) ==> k < m;
    assert Precedes(sibs, q[1], p[1]) ==> m < k;
  }

  // The paths part further down, in child k.
  lemma PartInChild(t: Tree, l: Links, a: Node, b: Node, i: nat, sibs: seq<Node>)
    requires a in Preorder(t) && b in Preorder(t) && a != t.id && b != t.id && ChildOf(t.kids, a) == ChildOf(t.kids, b)
    requires PartsAt(t.kids[ChildOf(t.kids, a)], l, a, b, i, sibs)
    ensures PartsAt(t, l, a, b, i + 1, sibs)
  {
    var k := ChildOf(t.kids, a);
    var p, q := PathTo(t.kids[k], a), PathTo(t.kids[k], b);
    assert PathTo(t, a) == [t.id] + p && PathTo(t, b) == [t.id] + q;
    assert ([t.id] + p)[..i + 1] == [t.id] + p[..i] && ([t.id] + q)[..i + 1] == [t.id] + q[..i];
    if Precedes(Preorder(t.kids[k]), a, b) { LiftPrecedes(t, k, a, b); }
    if Precedes(Preorder(t.kids[k]), b, a) { LiftPrecedes(t, k, b, a); }
  }

  lemma PartAtRoot(t: Tree, l: Links, a: Node, b: Node)
    requires Distinct(Preorder(t)) && a in Preorder(t) && b in Preorder(t) && a != b && (a == t.id || b == t.id)
    ensures PartsAt(t, l, a, b, 1, [])
  {
    if a == t.id { RootIsFirst(t, b); } else { RootIsFirst(t, a); }
    hide Precedes, Distinct;
    assert PathTo(t, a)[..1] == [t.id] == PathTo(t, b)[..1];
  }

  /** The paths to two nodes part somewhere, and document order is decided there. */
  lemma {:induction false} PathsPart(t: Tree, l: Links, a: Node, b: Node) returns (i: nat, sibs: seq<Node>)
    requires Linked(t, l) && Distinct(Preorder(t)) && a in Preorder(t) && b in Preorder(t) && a != b
    ensures PartsAt(t, l, a, b, i, sibs)
    decreases t
  {
    hide PartsAt, PathTo, Precedes, Distinct;
    if a == t.id || b == t.id {
      i, sibs := 1, [];
      PartAtRoot(t, l, a, b);
    } else if ChildOf(t.kids, a) == ChildOf(t.kids, b) {
      DistinctTail(t);
      DistinctChild(t.kids, ChildOf(t.kids, a));
      i, sibs := PathsPart(t.kids[ChildOf(t.kids, a)], l, a, b);
      PartInChild(t, l, a, b, i, sibs);
      i := i + 1;
    } else {
      i, sibs := 1, Ids(t.kids);
      PartAmongChildren(t, l, a, b);
    }
  }

  lemma PathThroughChild(t: Tree, k: nat, y: Node)
    requires Distinct(Preorder(t)) && k < |t.kids| && y in Preorder(t.kids[k])
    ensures y in Preorder(t) && PathTo(t, y) == [t.id] + PathTo(t.kids[k], y)
  {
    hide Distinct;
    DistinctTail(t);
    InChild(t.kids, k, y);
    ChildIsUnique(t.kids, k, ChildOf(t.kids, y), y);
    RootIsNoChild(t, y);
  }

  /** The path to a node on a path is the first part of that path. */
  lemma {:induction false} PathToPrefix(t: Tree, x: Node, i: nat)
    requires Distinct(Preorder(t)) && x in Preorder(t) && i < |PathTo(t, x)|
    ensures PathTo(t, x)[i] in Preorder(t) && PathTo(t, PathTo(t, x)[i]) == PathTo(t, x)[..i + 1]
    decreases t
  {
    hide Distinct;
    if i > 0 {
      var k := ChildOf(t.kids, x);
      DistinctTail(t);
      DistinctChild(t.kids, k);
      var p := PathTo(t.kids[k], x);
      assert PathTo(t, x) == [t.id] + p;
      PathToPrefix(t.kids[k], x, i - 1);
      PathThroughChild(t, k, p[i - 1]);
      assert ([t.id] + p)[..i + 1] == [t.id] + p[..i];
    }
  }

  lemma RootIsNoChild(t: Tree, y: Node)
    requires Distinct(Preorder(t)) && y in PreorderAll(t.kids)
    ensures y != t.id
  {
    var j :| 0 <= j < |PreorderAll(t.kids)| && PreorderAll(t.kids)[j] == y;
    assert Preorder(t)[j + 1] != Preorder(t)[0];
  }

  // ---------- the comparison ----------

  lemma ChainNext(s: seq<Node>, next: map<Node, Node>, i: nat)
    requires Chained(s, next)
    ensures i + 1 < |s| ==> s[i] in next && next[s[i]] == s[i + 1]
  {}

  method SiblingCheck(l: Links, a: Node, b: Node, ret: int, ghost sibs: seq<Node>) returns (r: int)
    requires a != b ==> Chained(sibs, l.next) && Distinct(sibs) && a in sibs && b in sibs
    ensures a == b ==> r == ret
    ensures a != b ==> if Precedes(sibs, a, b) then r == -1 else r == 1 && Precedes(sibs, b, a)
  {
    if a == b {
      return ret;
    }
    ghost var x :| 0 <= x < |sibs| && sibs[x] == a;
    ghost var y :| 0 <= y < |sibs| && sibs[y] == b;
    ghost var i := x;
    var node := a;
    while node in l.next
      invariant x <= i < |sibs| && node == sibs[i] && (x < y ==> i < y)
      decreases |sibs| - i
    {
      node := l.next[node];
      i := i + 1;
      if node == b {
        assert x < i && sibs[x] == a && sibs[i] == b;
        return -1;
      }
    }
    PrecedesIsStrictTotal(sibs, a, b, b);
    ChainNext(sibs, l.next, i);
    assert sibs[y] == b && sibs[x] == a && y < x;
    r := 1;
  }

  // The loop that collects the parents of a node, the root first.
  method Parents(l: Links, x: Node, ghost t: Tree) returns (up: seq<Node>)
    requires Linked(t, l) && t.id !in l.parent && x in Preorder(t) && x in l.parent
    ensures up == PathTo(t, x)[..|PathTo(t, x)| - 1]
  {
    hide PathTo, Preorder, Linked;
    ghost var p := PathTo(t, x);
    ghost var i: int := |p| - 1;
    if i > 0 { PathFollowsParents(t, l, x, i); }
    var node := Some(l.parent[x]);
    i := i - 1;
    up := [];
    while node.Some?
      invariant -1 <= i < |p| - 1 && node == (if i >= 0 then Some(p[i]) else None)
      invariant up == p[i + 1..|p| - 1]
      decreases i + 1
    {
      up := [node.value] + up;
      if i > 0 { PathFollowsParents(t, l, x, i); }
      node := if node.value in l.parent then Some(l.parent[node.value]) else None;
      i := i - 1;
    }
  }

  /** sortOrder on two nodes of one document: negative, zero or positive as the first comes before,
      is, or comes after the second. */
  method SortOrder(l: Links, a: Node, b: Node, ghost t: Tree) returns (r: int)
    requires Linked(t, l) && t.id !in l.parent && Distinct(Preorder(t)) && a in Preorder(t) && b in Preorder(t)
    ensures r == 0 <==> a == b
    ensures r < 0 <==> Precedes(Preorder(t), a, b)
    ensures r > 0 <==> Precedes(Preorder(t), b, a)
  {
    PrecedesIsStrictTotal(Preorder(t), a, b, b);
    if a == b {
      return 0;
    }
    ghost var i, sibs := PathsPart(t, l, a, b);
    ghost var p, q := PathTo(t, a), PathTo(t, b);
    var aup := if a in l.parent then Some(l.parent[a]) else None;
    var bup := if b in l.parent then Some(l.parent[b]) else None;
    ParentOnPath(t, l, a);
    ParentOnPath(t, l, b);
    if aup == bup {
      SiblingsPartLast(t, l, a, b, i, sibs);
      r := SiblingCheck(l, a, b, 0, sibs);
    } else if aup == None {
      RootIsFirst(t, b);
      r := -1;
    } else if bup == None {
      RootIsFirst(t, a);
      r := 1;
    } else {
      r := ComparePaths(l, a, b, t, i, sibs);
    }
  }

  // A node without a parent link is the root; any other has the last but one node of its path as parent.
  lemma ParentOnPath(t: Tree, l: Links, x: Node)
    requires Linked(t, l) && t.id !in l.parent && Distinct(Preorder(t)) && x in Preorder(t)
    ensures x !in l.parent <==> x == t.id
    ensures x in l.parent ==>
      |PathTo(t, x)| >= 2 && l.parent[x] in Preorder(t) && PathTo(t, l.parent[x]) == PathTo(t, x)[..|PathTo(t, x)| - 1]
  {
    if x != t.id {
      var n := |PathTo(t, x)|;
      PathFollowsParents(t, l, x, n - 1);
      PathToPrefix(t, x, n - 2);
    }
  }

  // Nodes with the same parent part at their last step.
  lemma SiblingsPartLast(t: Tree, l: Links, a: Node, b: Node, i: nat, sibs: seq<Node>)
    requires Linked(t, l) && t.id !in l.parent && Distinct(Preorder(t)) && a in Preorder(t) && b in Preorder(t)
    requires a != b
    requires PartsAt(t, l, a, b, i, sibs) && a in l.parent && b in l.parent && l.parent[a] == l.parent[b]
    ensures SiblingsDecide(Preorder(t), l, a, b, a, b, sibs)
  {
    hide Linked, Preorder, PathTo, Distinct, Precedes;
    PathEnds(t, a);
    PathEnds(t, b);
    ParentOnPath(t, l, a);
    ParentOnPath(t, l, b);
    var p, q := PathTo(t, a), PathTo(t, b);
    var n := |p|;
    assert p[..n - 1] == q[..n - 1] && |q| == n;
    SliceAt(p, q, n - 1, i);
    SliceAt(p, q, i, n - 1);
  }

  lemma PathEnds(t: Tree, x: Node)
    requires x in Preorder(t)
    ensures |PathTo(t, x)| > 0 && PathTo(t, x)[|PathTo(t, x)| - 1] == x
  {}

  lemma SliceAt(p: seq<Node>, q: seq<Node>, m: nat, i: nat)
    requires m <= |p| && m <= |q| && p[..m] == q[..m]
    ensures i < m ==> p[i] == q[i]
  {
    if i < m { assert p[..m][i] == q[..m][i]; }
  }

  // The loop that walks down two lists while they agree.
  method FirstDifference(ap: seq<Node>, bp: seq<Node>) returns (i: nat)
    ensures i <= |ap| && i <= |bp| && ap[..i] == bp[..i]
    ensures i < |ap| && i < |bp| ==> ap[i] != bp[i]
  {
    i := 0;
    while i < |ap| && i < |bp| && ap[i] == bp[i]
      invariant i <= |ap| && i <= |bp| && ap[..i] == bp[..i]
    {
      assert ap[..i + 1] == ap[..i] + [ap[i]] && bp[..i + 1] == bp[..i] + [bp[i]];
      i := i + 1;
    }
  }

  // The part of sortOrder for nodes elsewhere in the tree: walk down both paths to where they part.
  method ComparePaths(l: Links, a: Node, b: Node, ghost t: Tree, ghost part: nat, ghost sibs: seq<Node>)
    returns (r: int)
    requires Linked(t, l) && t.id !in l.parent && Distinct(Preorder(t)) && a in Preorder(t) && b in Preorder(t)
    requires a != b
    requires PartsAt(t, l, a, b, part, sibs) && a in l.parent && b in l.parent && l.parent[a] != l.parent[b]
    ensures if r < 0 then Precedes(Preorder(t), a, b) else r > 0 && Precedes(Preorder(t), b, a)
  {
    hide PathTo, Linked, Preorder, Precedes, PartsAt;
    var ap := Parents(l, a, t);
    var bp := Parents(l, b, t);
    var i := FirstDifference(ap, bp);
    assert PathTo(t, a)[..i] == ap[..i] && PathTo(t, b)[..i] == bp[..i];
    DifferentParents(t, l, a, b, i);
    PathsMeet(t, l, a, b, part, sibs, i);
    if i < |ap| && i < |bp| {
      r := SiblingCheck(l, ap[i], bp[i], 0, sibs);
    } else if i == |ap| {
      r := SiblingCheck(l, a, bp[i], -1, sibs);
    } else {
      r := SiblingCheck(l, ap[i], b, 1, sibs);
    }
  }

  // Two paths that agree up to i, where one of them may end.
  lemma PathsMeet(t: Tree, l: Links, a: Node, b: Node, part: nat, sibs: seq<Node>, i: nat)
    requires a in Preorder(t) && b in Preorder(t) && PartsAt(t, l, a, b, part, sibs)
    requires i < |PathTo(t, a)| && i < |PathTo(t, b)| && PathTo(t, a)[..i] == PathTo(t, b)[..i]
    requires PathTo(t, a)[i] == PathTo(t, b)[i] ==> i == |PathTo(t, a)| - 1 || i == |PathTo(t, b)| - 1
    ensures
      var c, d := PathTo(t, a)[i], PathTo(t, b)[i];
      && (c != d ==> SiblingsDecide(Preorder(t), l, a, b, c, d, sibs))
      && (c == d && i == |PathTo(t, a)| - 1 < |PathTo(t, b)| - 1 ==> Precedes(Preorder(t), a, b))
      && (c == d && i == |PathTo(t, b)| - 1 < |PathTo(t, a)| - 1 ==> Precedes(Preorder(t), b, a))
  {
    var p, q := PathTo(t, a), PathTo(t, b);
    SliceAt(p, q, i, part);
    if p[i] != q[i] {
      SamePart(p, q, part, i);
    }
  }

  lemma DifferentParents(t: Tree, l: Links, a: Node, b: Node, i: nat)
    requires Linked(t, l) && t.id !in l.parent && Distinct(Preorder(t)) && a in Preorder(t) && b in Preorder(t)
    requires a in l.parent && b in l.parent && l.parent[a] != l.parent[b]
    requires i <= |PathTo(t, a)| && i <= |PathTo(t, b)| && PathTo(t, a)[..i] == PathTo(t, b)[..i]
    ensures !(i == |PathTo(t, a)| - 1 == |PathTo(t, b)| - 1)
  {
    ParentOnPath(t, l, a);
    ParentOnPath(t, l, b);
  }

  lemma SamePart(p: seq<Node>, q: seq<Node>, part: nat, i: nat)
    requires i <= part <= |p| && part <= |q| && p[..part] == q[..part] && i < |p| && i < |q| && p[i] != q[i]
    ensures i == part
  {
    SliceAt(p, q, part, i);
  }
}
