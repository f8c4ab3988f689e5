/** The memoised walks of Sizzle along one direction of the document. */
module DirectionCheck {
  import opened Sequences

  class Element {
    // The neighbour in the direction of the walk (parentNode or previousSibling).
    const next: Element?
    const nodeType: int
    const nodeName: string
    // How far the walk can still go.
    ghost const height: nat
    var expando: int
    var sizset: int

    constructor (next: Element?, nodeType: int, nodeName: string, ghost height: nat)
      ensures this.next == next && this.nodeType == nodeType && this.nodeName == nodeName && this.height == height
    {
      this.next, this.nodeType, this.nodeName, this.height := next, nodeType, nodeName, height;
    }
  }

  // An entry of checkSet.
  datatype Entry = Item(element: Element) | True | False

  // The direction leads out of no element of the document, and never in a circle.
  ghost predicate Acyclic(doc: set<Element>) {
    forall e :: e in doc && e.next != null ==> e.next in doc && e.next.height < e.height
  }

  /** The unmemoised walk: the entry for the first element from e on that is a hit. */
  function Nearest(doc: set<Element>, e: Element?, hit: Element -> bool, found: Element -> Entry): Entry
    requires Acyclic(doc) && (e != null ==> e in doc)
    decreases if e == null then 0 else e.height + 1
  {
    if e == null then False
    else if hit(e) then found(e)
    else Nearest(doc, e.next, hit, found)
  }

  // What one entry of checkSet becomes, walking on its own.
  function Walked(doc: set<Element>, entry: Entry, hit: Element -> bool, found: Element -> Entry): Entry
    requires Acyclic(doc) && (entry.Item? ==> entry.element in doc)
  {
    match entry
    case Item(e) => Nearest(doc, e.next, hit, found)
    case True => False
    case False => False
  }

  ghost predicate InDocument(doc: set<Element>, s: seq<Entry>) {
    forall k :: 0 <= k < |s| && s[k].Item? ==> s[k].element in doc
  }

  // Marks left by the walks of the first i entries lead to finished entries that agree with the walk from there.
  ghost predicate MarksAgree(doc: set<Element>, s: seq<Entry>, i: nat, doneName: int, hit: Element -> bool,
                             found: Element -> Entry)
    requires Acyclic(doc)
    reads doc
  {
    forall e :: e in doc && e.expando == doneName ==>
      0 <= e.sizset < i && e.sizset < |s| && s[e.sizset] == Nearest(doc, e, hit, found)
  }

  // The same while entry i is walked: its own marks lie behind and share its fate.
  ghost predicate MarksAgreeSoFar(doc: set<Element>, s: seq<Entry>, i: nat, at: Element?, doneName: int,
                                  hit: Element -> bool, found: Element -> Entry)
    requires Acyclic(doc) && (at != null ==> at in doc)
    reads doc
  {
    forall e :: e in doc && e.expando == doneName ==>
      if e.sizset == i then
        (at != null ==> at.height < e.height) && Nearest(doc, e, hit, found) == Nearest(doc, at, hit, found)
      else 0 <= e.sizset < i && e.sizset < |s| && s[e.sizset] == Nearest(doc, e, hit, found)
  }

  function NameHit(cur: string): Element -> bool { (e: Element) => Lower(e.nodeName) == cur }

  function ItemOf(): Element -> Entry { (e: Element) => Item(e) }

  /** The inner loop of dirNodeCheck for entry i. */
  method WalkNodes(cur: string, doneName: int, s: seq<Entry>, i: nat, isXML: bool, start: Element?,
                   ghost doc: set<Element>)
    returns (m: Entry)
    requires Acyclic(doc) && (start != null ==> start in doc) && i < |s|
    requires MarksAgree(doc, s, i, doneName, NameHit(cur), ItemOf())
    modifies doc`expando, doc`sizset
    ensures m == Nearest(doc, start, NameHit(cur), ItemOf())
    ensures MarksAgree(doc, s[i := m], i + 1, doneName, NameHit(cur), ItemOf())
  {
    ghost var hit, found := NameHit(cur), ItemOf();
    var elem := start;
    m := False;
    while elem != null
      invariant elem != null ==> elem in doc
      invariant m == False && Nearest(doc, start, hit, found) == Nearest(doc, elem, hit, found)
      invariant MarksAgreeSoFar(doc, s, i, elem, doneName, hit, found)
      decreases if elem == null then 0 else elem.height + 1
    {
      if elem.expando == doneName {
        m := s[elem.sizset];
        break;
      }
      if elem.nodeType == 1 && !isXML {
        elem.expando := doneName;
        elem.sizset := i;
      }
      if Lower(elem.nodeName) == cur {
        m := Item(elem);
        break;
      }
      elem := elem.next;
    }
  }

  /** dirNodeCheck: each entry becomes what its own walk to the nearest node of that name finds. */
  method DirNodeCheck(cur: string, doneName: int, checkSet: array<Entry>, isXML: bool, ghost doc: set<Element>)
    requires Acyclic(doc) && InDocument(doc, checkSet[..])
    requires forall e :: e in doc ==> e.expando != doneName
    modifies checkSet, doc`expando, doc`sizset
    ensures forall k :: 0 <= k < checkSet.Length ==>
      checkSet[k] == Walked(doc, old(checkSet[k]), NameHit(cur), ItemOf())
  {
    ghost var was := checkSet[..];
    for i := 0 to checkSet.Length
      invariant forall k :: 0 <= k < i ==> checkSet[k] == Walked(doc, was[k], NameHit(cur), ItemOf())
      invariant forall k :: i <= k < checkSet.Length ==> checkSet[k] == was[k]
      invariant MarksAgree(doc, checkSet[..], i, doneName, NameHit(cur), ItemOf())
    {
      if checkSet[i] != False {
        var start := if checkSet[i].Item? then checkSet[i].element.next else null;
        var m := WalkNodes(cur, doneName, checkSet[..], i, isXML, start, doc);
        checkSet[i] := m;
      }
    }
  }

  // What dirCheck looks for: an element, or whatever passes a filter expression.
  datatype Target = Exactly(element: Element) | Filtered(passes: Element -> bool)

  function TargetHit(cur: Target): Element -> bool {
    (e: Element) => e.nodeType == 1 && (if cur.Exactly? then e == cur.element else cur.passes(e))
  }

  function TargetFound(cur: Target): Element -> Entry {
    (e: Element) => if cur.Exactly? then True else Item(e)
  }

  /** The inner loop of dirCheck for entry i. */
  method WalkElements(cur: Target, doneName: int, s: seq<Entry>, i: nat, isXML: bool, start: Element?,
                      ghost doc: set<Element>)
    returns (m: Entry)
    requires Acyclic(doc) && (start != null ==> start in doc) && i < |s|
    requires MarksAgree(doc, s, i, doneName, TargetHit(cur), TargetFound(cur))
    modifies doc`expando, doc`sizset
    ensures m == Nearest(doc, start, TargetHit(cur), TargetFound(cur))
    ensures MarksAgree(doc, s[i := m], i + 1, doneName, TargetHit(cur), TargetFound(cur))
  {
    ghost var hit, found := TargetHit(cur), TargetFound(cur);
    var elem := start;
    m := False;
    while elem != null
      invariant elem != null ==> elem in doc
      invariant m == False && Nearest(doc, start, hit, found) == Nearest(doc, elem, hit, found)
      invariant MarksAgreeSoFar(doc, s, i, elem, doneName, hit, found)
      decreases if elem == null then 0 else elem.height + 1
    {
      if elem.expando == doneName {
        m := s[elem.sizset];
        break;
      }
      if elem.nodeType == 1 {
        if !isXML {
          elem.expando := doneName;
          elem.sizset := i;
        }
        if cur.Exactly? {
          if elem == cur.element {
            m := True;
            break;
          }
        } else if cur.passes(elem) {
          m := Item(elem);
          break;
        }
      }
      elem := elem.next;
    }
  }

  /** dirCheck: each entry becomes what its own walk to the target finds. */
  method DirCheck(cur: Target, doneName: int, checkSet: array<Entry>, isXML: bool, ghost doc: set<Element>)
    requires Acyclic(doc) && InDocument(doc, checkSet[..])
    requires forall e :: e in doc ==> e.expando != doneName
    modifies checkSet, doc`expando, doc`sizset
    ensures forall k :: 0 <= k < checkSet.Length ==>
      checkSet[k] == Walked(doc, old(checkSet[k]), TargetHit(cur), TargetFound(cur))
  {
    ghost var was := checkSet[..];
    for i := 0 to checkSet.Length
      invariant forall k :: 0 <= k < i ==> checkSet[k] == Walked(doc, was[k], TargetHit(cur), TargetFound(cur))
      invariant forall k :: i <= k < checkSet.Length ==> checkSet[k] == was[k]
      invariant MarksAgree(doc, checkSet[..], i, doneName, TargetHit(cur), TargetFound(cur))
    {
      if checkSet[i] != False {
        var start := if checkSet[i].Item? then checkSet[i].element.next else null;
        var m := WalkElements(cur, doneName, checkSet[..], i, isXML, start, doc);
        checkSet[i] := m;
      }
    }
  }

  // Element e is reached by following the direction n times from d.
  ghost predicate Reaches(doc: set<Element>, d: Element?, e: Element, n: nat)
    requires Acyclic(doc) && (d != null ==> d in doc)
    decreases n
  {
    d != null && if n == 0 then d == e else Reaches(doc, d.next, e, n - 1)
  }

  // Element e is reached by n steps from d, and none before it is a hit.
  ghost predicate FirstHit(doc: set<Element>, d: Element?, hit: Element -> bool, e: Element, n: nat)
    requires Acyclic(doc) && (d != null ==> d in doc)
  {
    hit(e) && Reaches(doc, d, e, n) && forall x, m: nat :: x in doc && m < n && Reaches(doc, d, x, m) ==> !hit(x)
  }

  ghost predicate NoHit(doc: set<Element>, d: Element?, hit: Element -> bool)
    requires Acyclic(doc) && (d != null ==> d in doc)
  {
    forall x, m: nat :: x in doc && Reaches(doc, d, x, m) ==> !hit(x)
  }

  /** What a walk finds is the nearest hit: some element on the way, with no hit in front of it; and
      it finds nothing only if there is no hit on the way. */
  lemma {:induction false} NearestIsNearest(doc: set<Element>, d: Element?, hit: Element -> bool,
                                            found: Element -> Entry) returns (e: Element?, n: nat)
    requires Acyclic(doc) && (d != null ==> d in doc)
    ensures if e != null then FirstHit(doc, d, hit, e, n) && Nearest(doc, d, hit, found) == found(e)
      else NoHit(doc, d, hit) && Nearest(doc, d, hit, found) == False
    decreases if d == null then 0 else d.height + 1
  {
    if d == null || hit(d) {
      e, n := d, 0;
    } else {
      e, n := NearestIsNearest(doc, d.next, hit, found);
      forall x, m: nat | x in doc && Reaches(doc, d, x, m) && (e != null ==> m < n + 1) ensures !hit(x) {
        if m > 0 { assert Reaches(doc, d.next, x, m - 1); }
      }
      n := n + 1;
    }
  }

  /** What an entry becomes in dirNodeCheck: the nearest node of that name, letter case aside. */
  lemma NodeFound(doc: set<Element>, e: Element, cur: string) returns (f: Element?, n: nat)
    requires Acyclic(doc) && e in doc
    ensures if f == null then
        && Walked(doc, Item(e), NameHit(cur), ItemOf()) == False
        && forall x, m: nat :: x in doc && Reaches(doc, e.next, x, m) ==> Lower(x.nodeName) != cur
      else
        && Walked(doc, Item(e), NameHit(cur), ItemOf()) == Item(f)
        && Lower(f.nodeName) == cur && Reaches(doc, e.next, f, n)
        && forall x, m: nat :: x in doc && m < n && Reaches(doc, e.next, x, m) ==> Lower(x.nodeName) != cur
  {
    f, n := NearestIsNearest(doc, e.next, NameHit(cur), ItemOf());
  }

  /** What an entry becomes in dirCheck: for an element whether it is met, for a filter the nearest element that
      passes. */
  lemma TargetFoundBy(doc: set<Element>, e: Element, cur: Target) returns (f: Element?, n: nat)
    requires Acyclic(doc) && e in doc
    ensures cur.Exactly? ==>
      Walked(doc, Item(e), TargetHit(cur), TargetFound(cur)) == if f != null then True else False
    ensures cur.Exactly? && f != null ==> f == cur.element && f.nodeType == 1 && Reaches(doc, e.next, f, n)
    ensures cur.Exactly? && f == null ==>
      forall m: nat :: cur.element in doc && Reaches(doc, e.next, cur.element, m) ==> cur.element.nodeType != 1
    ensures cur.Filtered? ==>
      Walked(doc, Item(e), TargetHit(cur), TargetFound(cur)) == if f != null then Item(f) else False
    ensures cur.Filtered? && f != null ==> f.nodeType == 1 && cur.passes(f) && Reaches(doc, e.next, f, n)
    ensures cur.Filtered? ==> forall x, m: nat :: x in doc && (f != null ==> m < n) && Reaches(doc, e.next, x, m) ==>
      x.nodeType != 1 || !cur.passes(x)
  {
    f, n := NearestIsNearest(doc, e.next, TargetHit(cur), TargetFound(cur));
  }
}
