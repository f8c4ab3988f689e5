/** Paths through a tree, as the bundle layout of d3 computes them. */
module BundlePath {
  import opened Options
  import opened Sequences

  type Node = nat

  // A child is further from the root than its parent; a node without an entry in parent is a root.
  ghost predicate Rooted(parent: map<Node, Node>, depth: Node -> nat) {
    forall n :: n in parent ==> depth(parent[n]) < depth(n)
  }

  /** A node and its ancestors, the root last. */
  ghost function Ancestors(parent: map<Node, Node>, depth: Node -> nat, n: Node): (r: seq<Node>)
    requires Rooted(parent, depth)
    ensures |r| > 0 && r[0] == n
    decreases depth(n)
  {
    if n in parent then [n] + Ancestors(parent, depth, parent[n]) else [n]
  }

  ghost function Root(parent: map<Node, Node>, depth: Node -> nat, n: Node): Node
    requires Rooted(parent, depth)
  {
    var r := Ancestors(parent, depth, n);
    r[|r| - 1]
  }

  /** c is the deepest node that is an ancestor of both, each node counting as its own ancestor. */
  ghost predicate IsDeepestCommon(parent: map<Node, Node>, depth: Node -> nat, a: Node, b: Node, c: Node)
    requires Rooted(parent, depth)
  {
    && c in Ancestors(parent, depth, a) && c in Ancestors(parent, depth, b)
    && forall d :: d in Ancestors(parent, depth, a) && d in Ancestors(parent, depth, b) ==>
      d in Ancestors(parent, depth, c)
  }

  predicate Adjacent(parent: map<Node, Node>, a: Node, b: Node) {
    (a in parent && parent[a] == b) || (b in parent && parent[b] == a)
  }

  /** The simple path between two nodes. */
  ghost predicate IsPath(parent: map<Node, Node>, points: seq<Node>, a: Node, b: Node) {
    && |points| > 0 && points[0] == a && points[|points| - 1] == b
    && Distinct(points)
    && (forall i, j :: 0 <= i < |points| - 1 && j == i + 1 ==> Adjacent(parent, points[i], points[j]))
  }

  // ---------- ancestors ----------

  /** The ancestors of an ancestor are the rest of the list. */
  lemma {:induction false} AncestorsFrom(parent: map<Node, Node>, depth: Node -> nat, n: Node, i: nat)
    requires Rooted(parent, depth) && i < |Ancestors(parent, depth, n)|
    ensures Ancestors(parent, depth, Ancestors(parent, depth, n)[i]) == Ancestors(parent, depth, n)[i..]
    decreases i
  {
    if i > 0 { AncestorsFrom(parent, depth, parent[n], i - 1); }
  }

  lemma {:induction false} AncestorsRise(parent: map<Node, Node>, depth: Node -> nat, n: Node, i: nat, j: nat)
    requires Rooted(parent, depth) && i < j < |Ancestors(parent, depth, n)|
    ensures depth(Ancestors(parent, depth, n)[j]) < depth(Ancestors(parent, depth, n)[i])
    ensures j == i + 1 ==>
      Ancestors(parent, depth, n)[i] in parent
        && parent[Ancestors(parent, depth, n)[i]] == Ancestors(parent, depth, n)[j]
    decreases j
  {
    if i > 0 {
      AncestorsRise(parent, depth, parent[n], i - 1, j - 1);
    } else if j > 1 {
      AncestorsRise(parent, depth, parent[n], 0, j - 1);
    }
  }

  method BundleAncestors(parent: map<Node, Node>, ghost depth: Node -> nat, n: Node) returns (ancestors: seq<Node>)
    requires Rooted(parent, depth)
    ensures ancestors == Ancestors(parent, depth, n)
  {
    ancestors := [];
    var node := n;
    while node in parent
      invariant ancestors + Ancestors(parent, depth, node) == Ancestors(parent, depth, n)
      decreases depth(node)
    {
      ancestors := ancestors + [node];
      node := parent[node];
    }
    ancestors := ancestors + [node];
  }

  function Pop(s: seq<Node>): Option<Node> { if s == [] then None else Some(s[|s| - 1]) }

  function Front(s: seq<Node>): seq<Node> { if s == [] then [] else s[..|s| - 1] }

  ghost function FromEnd(p: seq<Node>, i: nat): Node
    requires 1 <= i <= |p|
  {
    p[|p| - i]
  }

  ghost predicate TailsAgree(p: seq<Node>, q: seq<Node>, j: nat) {
    j <= |p| && j <= |q| && forall i: nat :: 1 <= i <= j ==> FromEnd(p, i) == FromEnd(q, i)
  }

  // The last j nodes of both lists are the same, and no more.
  ghost predicate CommonTail(p: seq<Node>, q: seq<Node>, j: nat) {
    TailsAgree(p, q, j) && (j < |p| && j < |q| ==> FromEnd(p, j + 1) != FromEnd(q, j + 1))
  }

  lemma SlicesAgree(p: seq<Node>, q: seq<Node>, x: nat, y: nat)
    requires x <= |p| && y <= |q| && p[x..] == q[y..]
    ensures TailsAgree(p, q, |p| - x)
  {
    assert |p| - x == |q| - y;
    forall i: nat | 1 <= i <= |p| - x ensures FromEnd(p, i) == FromEnd(q, i) {
      assert p[x..][|p| - x - i] == q[y..][|q| - y - i];
    }
  }

  lemma DifferentListsDoNotAgree(p: seq<Node>, q: seq<Node>, j: nat)
    requires TailsAgree(p, q, j) && p != q
    ensures !(j == |p| == |q|)
  {
    if |p| == |q| {
      var i :| 0 <= i < |p| && p[i] != q[i];
      assert FromEnd(p, |p| - i) == p[i] && FromEnd(q, |p| - i) == q[i];
    }
  }

  lemma CommonTailIsDeepest(parent: map<Node, Node>, depth: Node -> nat, a: Node, b: Node, j: nat)
    requires Rooted(parent, depth) && 0 < j
    requires CommonTail(Ancestors(parent, depth, a), Ancestors(parent, depth, b), j)
    ensures IsDeepestCommon(parent, depth, a, b, Ancestors(parent, depth, a)[|Ancestors(parent, depth, a)| - j])
  {
    var p, q := Ancestors(parent, depth, a), Ancestors(parent, depth, b);
    hide Ancestors, Rooted;
    assert FromEnd(p, j) == FromEnd(q, j);
    AncestorsFrom(parent, depth, a, |p| - j);
    forall d | d in p && d in q ensures d in p[|p| - j..] {
      var x :| 0 <= x < |p| && p[x] == d;
      var y :| 0 <= y < |q| && q[y] == d;
      AncestorsFrom(parent, depth, a, x);
      AncestorsFrom(parent, depth, b, y);
      SlicesAgree(p, q, x, y);
      InTail(p, q, j, x);
    }
  }

  lemma InTail(p: seq<Node>, q: seq<Node>, j: nat, x: nat)
    requires CommonTail(p, q, j) && x < |p| && TailsAgree(p, q, |p| - x)
    ensures p[x] in p[|p| - j..]
  {
    assert |p| - x <= j;
    assert p[|p| - j..][x - (|p| - j)] == p[x];
  }

  // The loop of the search: pop both lists while the popped nodes agree.
  method PopCommon(p: seq<Node>, q: seq<Node>) returns (shared: Option<Node>, ghost j: nat)
    requires p != q
    ensures CommonTail(p, q, j) && shared == if j == 0 then None else Some(FromEnd(p, j))
  {
    var aNodes, bNodes := p, q;
    j := 0;
    var aNode, bNode := Pop(aNodes), Pop(bNodes);
    aNodes, bNodes := Front(aNodes), Front(bNodes);
    shared := None;
    while aNode == bNode
      invariant TailsAgree(p, q, j)
      invariant Popped(p, j, aNode, aNodes) && Popped(q, j, bNode, bNodes)
      invariant shared == if j == 0 then None else Some(FromEnd(p, j))
      decreases |p| - j
    {
      DifferentListsDoNotAgree(p, q, j);
      j := j + 1;
      shared := aNode;
      aNode, bNode := Pop(aNodes), Pop(bNodes);
      aNodes, bNodes := Front(aNodes), Front(bNodes);
    }
  }

  // After j + 1 pops.
  ghost predicate Popped(p: seq<Node>, j: nat, node: Option<Node>, rest: seq<Node>) {
    if j < |p| then node == Some(FromEnd(p, j + 1)) && rest == p[..|p| - j - 1] else node == None && rest == []
  }

  /** The search returns the deepest common ancestor, or nothing for nodes of different trees. */
  method LeastCommonAncestor(parent: map<Node, Node>, ghost depth: Node -> nat, a: Node, b: Node)
    returns (shared: Option<Node>)
    requires Rooted(parent, depth)
    ensures shared.Some? <==> Root(parent, depth, a) == Root(parent, depth, b)
    ensures shared.Some? ==> IsDeepestCommon(parent, depth, a, b, shared.value)
  {
    if a == b {
      return Some(a);
    }
    var aNodes := BundleAncestors(parent, depth, a);
    var bNodes := BundleAncestors(parent, depth, b);
    ghost var j: nat;
    shared, j := PopCommon(aNodes, bNodes);
    assert j == 0 ==> FromEnd(aNodes, 1) != FromEnd(bNodes, 1);
    if j > 0 {
      CommonTailIsDeepest(parent, depth, a, b, j);
      assert FromEnd(aNodes, 1) == FromEnd(bNodes, 1);
    }
  }

  /** d3_layout_bundlePath: up from the source to the deepest common ancestor, then down to the target. */
  method BundlePathOf(parent: map<Node, Node>, ghost depth: Node -> nat, source: Node, target: Node)
    returns (points: seq<Node>)
    requires Rooted(parent, depth) && Root(parent, depth, source) == Root(parent, depth, target)
    ensures IsPath(parent, points, source, target)
  {
    hide Ancestors, Rooted, Root, IsPath, Reversed;
    var lca := LeastCommonAncestor(parent, depth, source, target);
    ghost var x :| 0 <= x < |Ancestors(parent, depth, source)| && Ancestors(parent, depth, source)[x] == lca.value;
    ghost var y :| 0 <= y < |Ancestors(parent, depth, target)| && Ancestors(parent, depth, target)[y] == lca.value;
    var up := ClimbTo(parent, depth, source, lca.value, x);
    points := DescendFrom(parent, depth, target, lca.value, up, y);
    UpAndDownIsPath(parent, depth, source, target, lca.value, x, y);
  }

  // The second loop: what is below the common ancestor on the way to the target, inserted in front of what is there.
  method DescendFrom(parent: map<Node, Node>, ghost depth: Node -> nat, target: Node, lca: Node, up: seq<Node>,
                     ghost y: nat)
      returns (points: seq<Node>)
    requires Rooted(parent, depth) && y < |Ancestors(parent, depth, target)|
    requires Ancestors(parent, depth, target)[y] == lca
    ensures points == up + Reversed(Ancestors(parent, depth, target)[..y])
  {
    hide Ancestors, Rooted;
    ghost var q := Ancestors(parent, depth, target);
    var k, end := |up|, target;
    points := up;
    ghost var j: nat := 0;
    while end != lca
      invariant j <= y && end == q[j] && points == up + Reversed(q[..j])
      decreases y - j
    {
      ReachedOrParent(parent, depth, target, j, y);
      ReversedGrows(q, j);
      points := points[..k] + [end] + points[k..];
      end := parent[end];
      j := j + 1;
    }
    ReachedOrParent(parent, depth, target, j, y);
  }

  lemma ReversedGrows(q: seq<Node>, j: nat)
    requires j < |q|
    ensures Reversed(q[..j + 1]) == [q[j]] + Reversed(q[..j])
  {}

  // Before the goal the next ancestor is the parent; equal nodes are at the same place.
  lemma ReachedOrParent(parent: map<Node, Node>, depth: Node -> nat, n: Node, j: nat, y: nat)
    requires Rooted(parent, depth) && j <= y < |Ancestors(parent, depth, n)|
    ensures
      var q := Ancestors(parent, depth, n);
      && (q[j] == q[y] ==> j == y)
      && (q[j] != q[y] ==> j < y && q[j] in parent && parent[q[j]] == q[j + 1])
  {
    if j < y {
      AncestorsRise(parent, depth, n, j, y);
      AncestorsRise(parent, depth, n, j, j + 1);
    }
  }

  // The first loop: from the source up to the common ancestor.
  method ClimbTo(parent: map<Node, Node>, ghost depth: Node -> nat, source: Node, lca: Node, ghost x: nat)
    returns (points: seq<Node>)
    requires Rooted(parent, depth) && x < |Ancestors(parent, depth, source)|
    requires Ancestors(parent, depth, source)[x] == lca
    ensures points == Ancestors(parent, depth, source)[..x + 1]
  {
    ghost var p := Ancestors(parent, depth, source);
    var start := source;
    points := [start];
    ghost var i: nat := 0;
    while start != lca
      invariant i <= x && start == p[i] && points == p[..i + 1]
      decreases x - i
    {
      ReachedOrParent(parent, depth, source, i, x);
      start := parent[start];
      i := i + 1;
      points := points + [start];
    }
    ReachedOrParent(parent, depth, source, i, x);
  }

  ghost function Reversed(s: seq<Node>): (r: seq<Node>)
    ensures |r| == |s| && forall i :: 0 <= i < |s| ==> r[i] == s[|s| - 1 - i]
  {
    seq(|s|, i requires 0 <= i < |s| => s[|s| - 1 - i])
  }

  // Up to position x on one side, down from below position y on the other.
  ghost function UpDown(p: seq<Node>, q: seq<Node>, x: nat, y: nat): (r: seq<Node>)
    requires x < |p| && y < |q|
    ensures |r| == x + 1 + y
    ensures forall i :: 0 <= i <= x ==> r[i] == p[i]
    ensures forall i :: x < i < x + 1 + y ==> r[i] == q[y - (i - x)]
  {
    p[..x + 1] + Reversed(q[..y])
  }

  lemma UpDownDistinct(parent: map<Node, Node>, depth: Node -> nat, a: Node, b: Node, c: Node, x: nat, y: nat, i: nat,
                       j: nat)
    requires Rooted(parent, depth) && IsDeepestCommon(parent, depth, a, b, c)
    requires x < |Ancestors(parent, depth, a)| && Ancestors(parent, depth, a)[x] == c
    requires y < |Ancestors(parent, depth, b)| && Ancestors(parent, depth, b)[y] == c
    requires i < j < x + 1 + y
    ensures
      var r := UpDown(Ancestors(parent, depth, a), Ancestors(parent, depth, b), x, y);
      r[i] != r[j] && (j == i + 1 ==> Adjacent(parent, r[i], r[j]))
  {
    hide Ancestors, Rooted, IsDeepestCommon, UpDown;
    if j <= x {
      AncestorsRise(parent, depth, a, i, j);
    } else if x < i {
      AncestorsRise(parent, depth, b, y - (j - x), y - (i - x));
    } else {
      BelowNotCommon(parent, depth, a, b, c, x, y, i, y - (j - x));
      AncestorsRise(parent, depth, b, y - (j - x), y);
    }
  }

  lemma UpAndDownIsPath(parent: map<Node, Node>, depth: Node -> nat, a: Node, b: Node, c: Node, x: nat, y: nat)
    requires Rooted(parent, depth) && IsDeepestCommon(parent, depth, a, b, c)
    requires x < |Ancestors(parent, depth, a)| && Ancestors(parent, depth, a)[x] == c
    requires y < |Ancestors(parent, depth, b)| && Ancestors(parent, depth, b)[y] == c
    ensures IsPath(parent, UpDown(Ancestors(parent, depth, a), Ancestors(parent, depth, b), x, y), a, b)
  {
    hide Ancestors, Rooted, IsDeepestCommon, UpDown, Adjacent;
    var r := UpDown(Ancestors(parent, depth, a), Ancestors(parent, depth, b), x, y);
    forall i, j | 0 <= i < j < |r| ensures r[i] != r[j] && (j == i + 1 ==> Adjacent(parent, r[i], r[j])) {
      UpDownDistinct(parent, depth, a, b, c, x, y, i, j);
    }
  }

  // A node strictly below the deepest common ancestor on one side is not on the other side.
  lemma BelowNotCommon(parent: map<Node, Node>, depth: Node -> nat, a: Node, b: Node, c: Node, x: nat, y: nat, i: nat,
                       l: nat)
    requires Rooted(parent, depth) && IsDeepestCommon(parent, depth, a, b, c)
    requires i <= x < |Ancestors(parent, depth, a)| && Ancestors(parent, depth, a)[x] == c
    requires l < y < |Ancestors(parent, depth, b)| && Ancestors(parent, depth, b)[y] == c
    ensures Ancestors(parent, depth, a)[i] != Ancestors(parent, depth, b)[l]
  {
    var d := Ancestors(parent, depth, b)[l];
    AncestorsRise(parent, depth, b, l, y);
    assert depth(c) < depth(d);
    if d in Ancestors(parent, depth, a) {
      var r := Ancestors(parent, depth, c);
      var z :| 0 <= z < |r| && r[z] == d;
      if z > 0 { AncestorsRise(parent, depth, c, 0, z); }
    }
  }
}
