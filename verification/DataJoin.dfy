/** The data join of a d3 selection: nodes and data are matched by key, or by position. */
module DataJoin {
  import opened Options
  import opened Sequences

  class Node<Data> {
    var data: Data

    constructor (d: Data)
      ensures data == d
    {
      data := d;
    }
  }

  // ---------- which datum goes to which node ----------

  ghost function IndexOf<Key>(ks: seq<Key>, k: Key): (p: nat)
    ensures p <= |ks| && k !in ks[..p] && (p < |ks| ==> ks[p] == k)
    ensures p < |ks| <==> k in ks
  {
    if ks == [] || ks[0] == k then 0 else 1 + IndexOf(ks[1..], k)
  }

  /** The node for datum i: the first with its key, unless an earlier datum took it. */
  ghost function Matched<Key>(ks: seq<Key>, ds: seq<Key>, i: nat): (p: Option<nat>)
    requires i < |ds|
    ensures p.Some? ==> p.value < |ks|
  {
    if ds[i] in ks && ds[i] !in ds[..i] then Some(IndexOf(ks, ds[i])) else None
  }

  // The positions of nodes whose key an earlier node has.
  ghost function Repeats<Key>(ks: seq<Key>): (r: seq<nat>)
    ensures forall x :: 0 <= x < |r| ==> r[x] < |ks|
  {
    if ks == [] then []
    else
      var n := |ks| - 1;
      Repeats(ks[..n]) + if ks[n] in ks[..n] then [n] else []
  }

  /** The node at an exit slot: the node of that place if no datum has its key; else, behind the places of
      the data, a node with a repeated key. */
  ghost function Exiting<Key>(ks: seq<Key>, ds: seq<Key>, slot: nat): (p: Option<nat>)
    ensures p.Some? ==> p.value < |ks|
  {
    if slot < |ks| && ks[slot] !in ds then Some(slot)
    else if |ds| <= slot < |ds| + |Repeats(ks)| then Some(Repeats(ks)[slot - |ds|])
    else None
  }

  ghost predicate Updates<Key>(ks: seq<Key>, ds: seq<Key>, p: nat) {
    exists i :: 0 <= i < |ds| && Matched(ks, ds, i) == Some(p)
  }

  ghost predicate Exits<Key>(ks: seq<Key>, ds: seq<Key>, p: nat) {
    exists slot: nat :: Exiting(ks, ds, slot) == Some(p)
  }

  lemma {:induction false} RepeatsAre<Key>(ks: seq<Key>, p: nat)
    ensures p in Repeats(ks) <==> p < |ks| && ks[p] in ks[..p]
  {
    if ks != [] {
      var n := |ks| - 1;
      RepeatsAre(ks[..n], p);
      assert p < n ==> ks[..n][..p] == ks[..p];
    }
  }

  lemma {:induction false} RepeatsDistinct<Key>(ks: seq<Key>)
    ensures Distinct(Repeats(ks))
  {
    if ks != [] {
      var n := |ks| - 1;
      RepeatsDistinct(ks[..n]);
      assert n !in Repeats(ks[..n]);
    }
  }

  lemma DistinctHasNoRepeats<Key>(ks: seq<Key>)
    requires Distinct(ks)
    ensures Repeats(ks) == []
  {
    if Repeats(ks) != [] {
      RepeatsAre(ks, Repeats(ks)[0]);
      assert false;
    }
  }

  lemma Earlier<T>(s: seq<T>, p: nat, q: nat)
    ensures p < q <= |s| ==> s[p] in s[..q]
  {
    if p < q <= |s| { assert s[..q][p] == s[p]; }
  }

  lemma TakenByFirst<Key>(ks: seq<Key>, ds: seq<Key>, p: nat)
    requires p < |ks| && ks[p] in ds && ks[p] !in ks[..p]
    ensures Matched(ks, ds, IndexOf(ds, ks[p])) == Some(p)
  {
    var q := IndexOf(ks, ks[p]);
    Earlier(ks, q, p);
    Earlier(ks, p, q);
  }

  /** With keys that no two nodes share, each node is either updated, by one datum that has its key, or it
      exits at its own place. Nothing else exits. */
  lemma NodesArePartitioned<Key>(ks: seq<Key>, ds: seq<Key>, p: nat)
    requires Distinct(ks) && p < |ks|
    ensures Updates(ks, ds, p) <==> ks[p] in ds
    ensures Exits(ks, ds, p) <==> ks[p] !in ds
    ensures Exits(ks, ds, p) ==> Exiting(ks, ds, p) == Some(p)
    ensures forall i, j ::
      0 <= i < |ds| && 0 <= j < |ds| && Matched(ks, ds, i) == Some(p) && Matched(ks, ds, j) == Some(p) ==> i == j
    ensures forall slot: nat :: Exiting(ks, ds, slot) == Some(p) ==> slot == p
  {
    DistinctHasNoRepeats(ks);
    if ks[p] in ds {
      assert ks[p] !in ks[..p];
      TakenByFirst(ks, ds, p);
      assert Updates(ks, ds, p);
    }
    assert Exiting(ks, ds, p) == Some(p) <==> ks[p] !in ds;
    forall i, j | 0 <= i < |ds| && 0 <= j < |ds| && Matched(ks, ds, i) == Some(p) && Matched(ks, ds, j) == Some(p)
      ensures i == j {
      assert ds[i] == ks[p] == ds[j];
      Earlier(ds, i, j);
      Earlier(ds, j, i);
    }
  }

  /** An updated node has the key of its datum, and two data never get the same node, even if their keys are
      the same. */
  lemma MatchesAreKeyed<Key>(ks: seq<Key>, ds: seq<Key>, i: nat)
    requires i < |ds|
    ensures Matched(ks, ds, i).Some? ==> Matched(ks, ds, i).value < |ks| && ks[Matched(ks, ds, i).value] == ds[i]
    ensures forall j :: 0 <= j < i && Matched(ks, ds, i).Some? ==> Matched(ks, ds, j) != Matched(ks, ds, i)
  {
    forall j | 0 <= j < i && Matched(ks, ds, i).Some? ensures Matched(ks, ds, j) != Matched(ks, ds, i) {
      assert ds[j] in ds[..i];
    }
  }

  /** The node for a datum is the first one with its key, and the datum is the first one with its key. */
  lemma MatchedIff<Key>(ks: seq<Key>, ds: seq<Key>, i: nat, p: nat)
    requires i < |ds|
    ensures Matched(ks, ds, i) == Some(p) <==>
      && p < |ks| && ks[p] == ds[i]
      && (forall q :: 0 <= q < p ==> ks[q] != ds[i]) && (forall j :: 0 <= j < i ==> ds[j] != ds[i])
  {
    var q := IndexOf(ks, ds[i]);
    if q < |ks| { assert forall x :: 0 <= x < q ==> ks[x] == ks[..q][x]; }
    assert ds[i] in ds[..i] <==> exists j :: 0 <= j < i && ds[j] == ds[i];
  }

  // The exit slot that a node with a repeated key is given first.
  ghost function SlotOfRepeat<Key>(ks: seq<Key>, ds: seq<Key>, p: nat): nat { |ds| + IndexOf(Repeats(ks), p) }

  /** For any keys: a node is neither updated nor does it exit exactly if its key is repeated and matched, and
      its exit slot is the place of a node that no datum matches. */
  lemma LostIff<Key>(ks: seq<Key>, ds: seq<Key>, p: nat)
    requires p < |ks|
    ensures !Updates(ks, ds, p) && !Exits(ks, ds, p) <==>
      ks[p] in ks[..p] && ks[p] in ds && SlotOfRepeat(ks, ds, p) < |ks| && ks[SlotOfRepeat(ks, ds, p)] !in ds
  {
    if ks[p] !in ds {
      assert Exiting(ks, ds, p) == Some(p);
    } else if ks[p] !in ks[..p] {
      TakenByFirst(ks, ds, p);
    } else {
      RepeatIsNotFirst(ks, ds, p);
      RepeatExits(ks, ds, p);
    }
  }

  lemma RepeatExits<Key>(ks: seq<Key>, ds: seq<Key>, p: nat)
    requires p < |ks| && ks[p] in ks[..p] && ks[p] in ds
    ensures Exits(ks, ds, p) <==> !(SlotOfRepeat(ks, ds, p) < |ks| && ks[SlotOfRepeat(ks, ds, p)] !in ds)
  {
    RepeatsAre(ks, p);
    RepeatsDistinct(ks);
    hide Repeats;
    var r, s := Repeats(ks), SlotOfRepeat(ks, ds, p);
    assert r[s - |ds|] == p;
    forall slot: nat ensures Exiting(ks, ds, slot) == Some(p) ==> slot == s {
      assert |ds| <= slot < |ds| + |r| && slot != s ==> r[slot - |ds|] != p;
    }
    assert Exiting(ks, ds, s) == Some(p) ==> Exits(ks, ds, p);
  }

  lemma RepeatIsNotFirst<Key>(ks: seq<Key>, ds: seq<Key>, p: nat)
    requires p < |ks| && ks[p] in ks[..p]
    ensures !Updates(ks, ds, p)
  {}

  /** A node that gets lost: three nodes with keys 0, 0 and 1, and data with keys 0 and 2. */
  lemma LostExample()
    ensures var ks, ds := [0, 0, 1], [0, 2]; !Updates(ks, ds, 1) && !Exits(ks, ds, 1)
  {
    var ks, ds := [0, 0, 1], [0, 2];
    RepeatsAre(ks, 0);
    RepeatsAre(ks, 1);
    RepeatsAre(ks, 2);
    hide Repeats;
    assert ks[..1] == [0] && ks[..2] == [0, 0];
    var r := Repeats(ks);
    assert r[0] in r && r[0] == 1;
    LostIff(ks, ds, 1);
  }

  // ---------- the join ----------

  ghost function NodeAt<Data>(group: seq<Node<Data>>, p: Option<nat>): Option<Node<Data>>
    requires p.Some? ==> p.value < |group|
  {
    if p.Some? then Some(group[p.value]) else None
  }

  // The keys of nodes by their data.
  ghost function KeysOf<Data, Key>(group: seq<Node<Data>>, key: (Node<Data>, Data, nat) -> Key): (ks: seq<Key>)
    reads set o | o in group
    ensures |ks| == |group|
  {
    seq(|group|, i requires 0 <= i < |group| reads set o | o in group => key(group[i], group[i].data, i))
  }

  ghost function DataKeys<Data, Key>(groupData: seq<Data>, key: (Data, nat) -> Key): (ds: seq<Key>)
    ensures |ds| == |groupData|
  {
    seq(|groupData|, i requires 0 <= i < |groupData| => key(groupData[i], i))
  }

  // The map after the first i nodes: the first node with each key.
  ghost predicate Indexed<Data, Key(!new)>(group: seq<Node<Data>>, ks: seq<Key>, i: nat,
                                           nodeByKey: map<Key, Node<Data>>) {
    && i <= |group| == |ks|
    && (forall k :: k in nodeByKey <==> k in ks[..i])
    && (forall k :: k in nodeByKey ==> nodeByKey[k] == group[IndexOf(ks, k)])
  }

  // The map after the first i data: their nodes are gone.
  ghost predicate Remaining<Data, Key(!new)>(group: seq<Node<Data>>, ks: seq<Key>, ds: seq<Key>, i: nat,
                                             nodeByKey: map<Key, Node<Data>>) {
    && i <= |ds| && |group| == |ks|
    && (forall k :: k in nodeByKey <==> k in ks && k !in ds[..i])
    && (forall k :: k in nodeByKey ==> nodeByKey[k] == group[IndexOf(ks, k)])
  }

  lemma IndexNext<Data, Key(!new)>(group: seq<Node<Data>>, ks: seq<Key>, i: nat, nodeByKey: map<Key, Node<Data>>)
    requires Indexed(group, ks, i, nodeByKey) && i < |ks|
    ensures ks[i] in nodeByKey <==> ks[i] in ks[..i]
    ensures Repeats(ks[..i + 1]) == Repeats(ks[..i]) + if ks[i] in nodeByKey then [i] else []
    ensures Indexed(group, ks, i + 1, if ks[i] in nodeByKey then nodeByKey else nodeByKey[ks[i] := group[i]])
  {
    assert ks[..i + 1][..i] == ks[..i] && ks[..i + 1] == ks[..i] + [ks[i]];
    var q := IndexOf(ks, ks[i]);
    Earlier(ks, q, i);
    Earlier(ks, i, q);
  }

  lemma TakeNext<Data, Key(!new)>(group: seq<Node<Data>>, ks: seq<Key>, ds: seq<Key>, i: nat,
                                  nodeByKey: map<Key, Node<Data>>)
    requires Remaining(group, ks, ds, i, nodeByKey) && i < |ds|
    ensures ds[i] in nodeByKey <==> Matched(ks, ds, i).Some?
    ensures ds[i] in nodeByKey ==> Some(nodeByKey[ds[i]]) == NodeAt(group, Matched(ks, ds, i))
    ensures Remaining(group, ks, ds, i + 1, nodeByKey - {ds[i]})
  {
    assert ds[..i + 1] == ds[..i] + [ds[i]];
  }

  ghost function Slot<Data>(exit: map<nat, Node<Data>>, slot: nat): Option<Node<Data>> {
    if slot in exit then Some(exit[slot]) else None
  }

  ghost function ExitSlot<Data, Key>(group: seq<Node<Data>>, ks: seq<Key>, ds: seq<Key>, slot: nat): Option<Node<Data>>
    requires |group| == |ks|
  {
    NodeAt(group, Exiting(ks, ds, slot))
  }

  // The exit slots while only the nodes at r, with repeated keys, have been put there.
  ghost predicate SlotsOf<Data>(group: seq<Node<Data>>, r: seq<nat>, m: nat, exit: map<nat, Node<Data>>)
    requires forall x :: 0 <= x < |r| ==> r[x] < |group|
  {
    forall slot: nat :: Slot(exit, slot) == if m <= slot < m + |r| then Some(group[r[slot - m]]) else None
  }

  ghost predicate RepeatsExit<Data, Key>(group: seq<Node<Data>>, ks: seq<Key>, m: nat, i: nat,
                                         exit: map<nat, Node<Data>>)
    requires i <= |ks| == |group|
  {
    SlotsOf(group, Repeats(ks[..i]), m, exit)
  }

  // The exit slots when the places before i have been looked at again.
  ghost predicate PlacesExit<Data, Key>(group: seq<Node<Data>>, ks: seq<Key>, ds: seq<Key>, i: nat,
                                        exit: map<nat, Node<Data>>)
    requires i <= |ks| == |group|
  {
    var r := Repeats(ks);
    forall slot: nat :: Slot(exit, slot) == NodeAt(group,
      if slot < i && ks[slot] !in ds then Some(slot)
      else if |ds| <= slot < |ds| + |r| then Some(r[slot - |ds|])
      else None)
  }

  lemma SlotOfUpdate<Data>(exit: map<nat, Node<Data>>, j: nat, node: Node<Data>, slot: nat)
    ensures Slot(exit[j := node], slot) == if slot == j then Some(node) else Slot(exit, slot)
  {}

  lemma AnotherSlot<Data>(group: seq<Node<Data>>, r: seq<nat>, m: nat, exit: map<nat, Node<Data>>, i: nat)
    requires i < |group| && (forall x :: 0 <= x < |r| ==> r[x] < |group|) && SlotsOf(group, r, m, exit)
    ensures SlotsOf(group, r + [i], m, exit[m + |r| := group[i]])
  {
    hide Slot;
    var next := exit[m + |r| := group[i]];
    forall slot: nat
      ensures Slot(next, slot) == if m <= slot < m + |r| + 1 then Some(group[(r + [i])[slot - m]]) else None {
      SlotOfUpdate(exit, m + |r|, group[i], slot);
    }
  }

  lemma RepeatNext<Data, Key(!new)>(group: seq<Node<Data>>, ks: seq<Key>, m: nat, i: nat, exit: map<nat, Node<Data>>,
                                    nodeByKey: map<Key, Node<Data>>)
    requires i < |ks| == |group| && Indexed(group, ks, i, nodeByKey) && RepeatsExit(group, ks, m, i, exit)
    ensures RepeatsExit(group, ks, m, i + 1,
      if ks[i] in nodeByKey then exit[m + |Repeats(ks[..i])| := group[i]] else exit)
  {
    hide Repeats, Indexed, SlotsOf;
    IndexNext(group, ks, i, nodeByKey);
    assert Repeats(ks[..i]) + [] == Repeats(ks[..i]);
    if ks[i] in nodeByKey { AnotherSlot(group, Repeats(ks[..i]), m, exit, i); }
  }

  lemma NoSlotYet<Data, Key>(group: seq<Node<Data>>, ks: seq<Key>, m: nat, exit: map<nat, Node<Data>>, i: nat)
    requires |ks| == |group| && RepeatsExit(group, ks, m, |ks|, exit) && i < m
    ensures exit - {i} == exit
  {
    assert Slot(exit, i) == None;
  }

  lemma PlaceNext<Data, Key>(group: seq<Node<Data>>, ks: seq<Key>, ds: seq<Key>, i: nat, exit: map<nat, Node<Data>>)
    requires i < |ks| == |group| && PlacesExit(group, ks, ds, i, exit)
    ensures PlacesExit(group, ks, ds, i + 1, if ks[i] !in ds then exit[i := group[i]] else exit)
  {
    hide Repeats;
    hide Slot;
    var r, next := Repeats(ks), if ks[i] !in ds then exit[i := group[i]] else exit;
    forall slot: nat
      ensures Slot(next, slot) == NodeAt(group,
        if slot < i + 1 && ks[slot] !in ds then Some(slot)
        else if |ds| <= slot < |ds| + |r| then Some(r[slot - |ds|])
        else None)
    {
      assert Slot(exit, slot) == NodeAt(group,
        if slot < i && ks[slot] !in ds then Some(slot)
        else if |ds| <= slot < |ds| + |r| then Some(r[slot - |ds|])
        else None);
      SlotOfUpdate(exit, i, group[i], slot);
    }
  }

  lemma PlacesAreExits<Data, Key>(group: seq<Node<Data>>, ks: seq<Key>, ds: seq<Key>, exit: map<nat, Node<Data>>)
    requires |ks| == |group|
    ensures RepeatsExit(group, ks, |ds|, |ks|, exit) ==> PlacesExit(group, ks, ds, 0, exit)
    ensures PlacesExit(group, ks, ds, |ks|, exit) ==>
      forall slot: nat :: Slot(exit, slot) == ExitSlot(group, ks, ds, slot)
  {
    hide Repeats;
    assert ks[..|ks|] == ks;
  }

  /** The join by key. The nodes in update get their data; enter has the data without a node. */
  method BindByKey<Data, Key(==,!new)>(group: seq<Node<Data>>, groupData: seq<Data>,
                                       nodeKey: (Node<Data>, Data, nat) -> Key, dataKey: (Data, nat) -> Key)
      returns (update: seq<Option<Node<Data>>>, enter: seq<Option<Data>>, exit: map<nat, Node<Data>>)
    modifies set o | o in group
    ensures |update| == |enter| == |groupData|
    ensures var ks, ds := old(KeysOf(group, nodeKey)), DataKeys(groupData, dataKey);
      && (forall i :: 0 <= i < |group| ==> ks[i] == nodeKey(group[i], old(group[i].data), i))
      && (forall i :: 0 <= i < |groupData| ==> ds[i] == dataKey(groupData[i], i))
      && Joined(group, groupData, ks, ds, update, enter)
      && (forall slot: nat :: Slot(exit, slot) == ExitSlot(group, ks, ds, slot))
    ensures Distinct(group) ==> HaveData(groupData, update)
    ensures forall o :: o in group && o !in NodesIn(update) ==> o.data == old(o.data)
  {
    ghost var ks, ds := KeysOf(group, nodeKey), DataKeys(groupData, dataKey);
    var nodeByKey: map<Key, Node<Data>>, keyValues: seq<Key>;
    nodeByKey, keyValues, exit := IndexNodes(group, |groupData|, nodeKey);
    assert ks[..|ks|] == ks;
    hide Repeats, Slot, ExitSlot, Exiting, Matched, RepeatsExit, Indexed, Joined, HaveData, PlacesExit, IndexOf;
    update, enter, exit, nodeByKey := MatchData(group, groupData, dataKey, nodeByKey, exit, ks);
    exit := LeavePlaces(group, keyValues, nodeByKey, exit, ds);
  }

  // The third loop: the nodes whose keys are left exit at their own places.
  method LeavePlaces<Data, Key(==,!new)>(group: seq<Node<Data>>, keyValues: seq<Key>, nodeByKey: map<Key, Node<Data>>,
                                         slots: map<nat, Node<Data>>, ghost ds: seq<Key>)
      returns (exit: map<nat, Node<Data>>)
    requires |keyValues| == |group| && (forall k :: k in nodeByKey <==> k in keyValues && k !in ds)
    requires RepeatsExit(group, keyValues, |ds|, |group|, slots)
    ensures forall slot: nat :: Slot(exit, slot) == ExitSlot(group, keyValues, ds, slot)
  {
    exit := slots;
    hide Repeats, Slot, ExitSlot, Exiting, RepeatsExit, PlacesExit;
    PlacesAreExits(group, keyValues, ds, exit);
    for i := 0 to |group|
      invariant PlacesExit(group, keyValues, ds, i, exit)
    {
      PlaceNext(group, keyValues, ds, i, exit);
      if keyValues[i] in nodeByKey {
        exit := exit[i := group[i]];
      }
    }
    PlacesAreExits(group, keyValues, ds, exit);
  }

  // The second loop: each datum takes its node.
  method MatchData<Data, Key(==,!new)>(group: seq<Node<Data>>, groupData: seq<Data>, dataKey: (Data, nat) -> Key,
                                       nodes: map<Key, Node<Data>>, slots: map<nat, Node<Data>>, ghost ks: seq<Key>)
      returns (update: seq<Option<Node<Data>>>, enter: seq<Option<Data>>, exit: map<nat, Node<Data>>,
        nodeByKey: map<Key, Node<Data>>)
    requires |ks| == |group| && Indexed(group, ks, |ks|, nodes) && RepeatsExit(group, ks, |groupData|, |group|, slots)
    modifies set o | o in group
    ensures |update| == |enter| == |groupData| && exit == slots
    ensures var ds := DataKeys(groupData, dataKey);
      && (forall k :: k in nodeByKey <==> k in ks && k !in ds)
      && Joined(group, groupData, ks, ds, update, enter)
    ensures Distinct(group) ==> HaveData(groupData, update)
    ensures forall o :: o in group && o !in NodesIn(update) ==> o.data == old(o.data)
  {
    ghost var ds := DataKeys(groupData, dataKey);
    hide IndexOf, Repeats, RepeatsExit, Slot, Exiting, Remaining, Indexed, Matched, Joined, Distinct, NodesIn, HaveData;
    exit, nodeByKey, update, enter := slots, nodes, [], [];
    StartTaking(group, groupData, ks, ds, nodeByKey);
    for i := 0 to |groupData|
      invariant Remaining(group, ks, ds, i, nodeByKey) && exit == slots
      invariant |update| == |enter| == i && Joined(group, groupData, ks, ds, update, enter)
      invariant NodesIn(update) <= (set o | o in group) && (Distinct(group) ==> HaveData(groupData, update))
      invariant forall o :: o in group && o !in NodesIn(update) ==> o.data == old(o.data)
    {
      var nodeData := groupData[i];
      var keyValue := dataKey(nodeData, i);
      JoinNext(group, groupData, ks, ds, update, enter, nodeByKey);
      NoSlotYet(group, ks, |ds|, exit, i);
      if keyValue in nodeByKey {
        var node := nodeByKey[keyValue];
        node.data := nodeData;
        DataNext(groupData, update, Some(node));
        update, enter := update + [Some(node)], enter + [None];
      } else {
        DataNext(groupData, update, None);
        update, enter := update + [None], enter + [Some(nodeData)];
      }
      exit := exit - {i};
      nodeByKey := nodeByKey - {keyValue};
    }
    AllTaken(group, ks, ds, nodeByKey);
  }

  // Update and enter slots for the first data: a node, or else the datum itself.
  ghost predicate Joined<Data, Key>(group: seq<Node<Data>>, groupData: seq<Data>, ks: seq<Key>, ds: seq<Key>,
                                    update: seq<Option<Node<Data>>>, enter: seq<Option<Data>>)
    requires |group| == |ks| && |groupData| == |ds|
  {
    && |update| == |enter| <= |ds|
    && (forall i :: 0 <= i < |update| ==> update[i] == NodeAt(group, Matched(ks, ds, i)))
    && (forall i :: 0 <= i < |enter| ==> enter[i] == (if Matched(ks, ds, i) == None then Some(groupData[i]) else None))
  }

  ghost function NodesIn<Data>(update: seq<Option<Node<Data>>>): set<Node<Data>> {
    set i | 0 <= i < |update| && update[i].Some? :: update[i].value
  }

  // The nodes in update have their data.
  ghost predicate HaveData<Data>(groupData: seq<Data>, update: seq<Option<Node<Data>>>)
    reads NodesIn(update)
  {
    |update| <= |groupData| && forall i :: 0 <= i < |update| && update[i].Some? ==> update[i].value.data == groupData[i]
  }

  lemma DataNext<Data>(groupData: seq<Data>, update: seq<Option<Node<Data>>>, x: Option<Node<Data>>)
    requires |update| < |groupData| && (x.Some? ==> x.value.data == groupData[|update|])
    ensures HaveData(groupData, update) ==> HaveData(groupData, update + [x])
    ensures NodesIn(update + [x]) == NodesIn(update) + if x.Some? then {x.value} else {}
  {
    var next := update + [x];
    forall n | n in NodesIn(update) ensures n in NodesIn(next) {
      var i :| 0 <= i < |update| && update[i] == Some(n);
      assert next[i] == Some(n);
    }
    if x.Some? { assert next[|update|] == x; }
  }

  lemma JoinNext<Data, Key(!new)>(group: seq<Node<Data>>, groupData: seq<Data>, ks: seq<Key>, ds: seq<Key>,
                                  update: seq<Option<Node<Data>>>, enter: seq<Option<Data>>,
                                  nodeByKey: map<Key, Node<Data>>)
    requires |group| == |ks| && |groupData| == |ds| && Joined(group, groupData, ks, ds, update, enter)
    requires |update| < |ds|
    requires Remaining(group, ks, ds, |update|, nodeByKey)
    ensures
      var i := |update|;
      && Remaining(group, ks, ds, i + 1, nodeByKey - {ds[i]})
      && (if ds[i] in nodeByKey then Joined(group, groupData, ks, ds, update + [Some(nodeByKey[ds[i]])], enter + [None])
          else Joined(group, groupData, ks, ds, update + [None], enter + [Some(groupData[i])]))
      && (ds[i] in nodeByKey ==>
        nodeByKey[ds[i]] in group && (Distinct(group) ==> nodeByKey[ds[i]] !in NodesIn(update)))
  {
    var i := |update|;
    TakeNext(group, ks, ds, i, nodeByKey);
    hide Matched, Remaining, Distinct, IndexOf;
    if ds[i] in nodeByKey {
      assert nodeByKey[ds[i]] in group;
      if Distinct(group) { NotTakenYet(group, groupData, ks, ds, update, enter); }
    }
  }

  lemma NotTakenYet<Data, Key>(group: seq<Node<Data>>, groupData: seq<Data>, ks: seq<Key>, ds: seq<Key>,
                               update: seq<Option<Node<Data>>>, enter: seq<Option<Data>>)
    requires |group| == |ks| && |groupData| == |ds| && Joined(group, groupData, ks, ds, update, enter)
    requires |update| < |ds| && Distinct(group)
    requires Matched(ks, ds, |update|).Some?
    ensures NodeAt(group, Matched(ks, ds, |update|)).value !in NodesIn(update)
  {
    var i := |update|;
    MatchesAreKeyed(ks, ds, i);
    hide Matched, Distinct;
    forall k | 0 <= k < i ensures update[k] != NodeAt(group, Matched(ks, ds, i)) {
      OtherNode(group, Matched(ks, ds, k), Matched(ks, ds, i));
    }
  }

  lemma OtherNode<Data>(group: seq<Node<Data>>, p: Option<nat>, q: Option<nat>)
    requires Distinct(group) && p != q && (p.Some? ==> p.value < |group|) && (q.Some? ==> q.value < |group|)
    ensures NodeAt(group, p) != NodeAt(group, q)
  {}

  lemma StartTaking<Data, Key(!new)>(group: seq<Node<Data>>, groupData: seq<Data>, ks: seq<Key>, ds: seq<Key>,
                                     nodeByKey: map<Key, Node<Data>>)
    requires Indexed(group, ks, |ks|, nodeByKey) && |groupData| == |ds|
    ensures Remaining(group, ks, ds, 0, nodeByKey) && Joined(group, groupData, ks, ds, [], [])
    ensures NodesIn<Data>([]) == {} && HaveData(groupData, [])
  {
    assert ks[..|ks|] == ks;
  }

  lemma AllTaken<Data, Key(!new)>(group: seq<Node<Data>>, ks: seq<Key>, ds: seq<Key>, nodeByKey: map<Key, Node<Data>>)
    requires Remaining(group, ks, ds, |ds|, nodeByKey)
    ensures forall k :: k in nodeByKey <==> k in ks && k !in ds
  {
    assert ds[..|ds|] == ds;
  }

  lemma StartIndexing<Data, Key(!new)>(group: seq<Node<Data>>, ks: seq<Key>, m: nat)
    requires |ks| == |group|
    ensures Indexed(group, ks, 0, map[]) && RepeatsExit(group, ks, m, 0, map[]) && Repeats(ks[..0]) == []
  {}

  // The first loop: nodes by key, the keys, and the nodes whose keys are repeated.
  method IndexNodes<Data, Key(==,!new)>(group: seq<Node<Data>>, m: nat, nodeKey: (Node<Data>, Data, nat) -> Key)
      returns (nodeByKey: map<Key, Node<Data>>, keyValues: seq<Key>, exit: map<nat, Node<Data>>)
    ensures keyValues == KeysOf(group, nodeKey)
    ensures Indexed(group, keyValues, |group|, nodeByKey) && RepeatsExit(group, keyValues, m, |group|, exit)
  {
    ghost var ks := KeysOf(group, nodeKey);
    nodeByKey, keyValues, exit := map[], [], map[];
    var j := m;
    hide Repeats, IndexOf, RepeatsExit, Indexed;
    StartIndexing<Data, Key>(group, ks, m);
    for i := 0 to |group|
      invariant keyValues == ks[..i] && Indexed(group, ks, i, nodeByKey)
      invariant j == m + |Repeats(ks[..i])| && RepeatsExit(group, ks, m, i, exit)
    {
      IndexNext(group, ks, i, nodeByKey);
      RepeatNext(group, ks, m, i, exit, nodeByKey);
      var node := group[i];
      var keyValue := nodeKey(node, node.data, i);
      if keyValue in nodeByKey {
        exit := exit[j := node];
        j := j + 1;
      } else {
        nodeByKey := nodeByKey[keyValue := node];
      }
      keyValues := keyValues + [keyValue];
    }
  }

  /** The join by position, where a group can have holes: what has both a node and a datum is updated, a datum
      without a node enters, and the places behind the data exit. */
  method BindByIndex<Data>(group: seq<Option<Node<Data>>>, groupData: seq<Data>)
      returns (update: seq<Option<Node<Data>>>, enter: seq<Option<Data>>, exit: seq<Option<Node<Data>>>)
    requires forall i, j :: 0 <= i < j < |group| && group[i].Some? ==> group[i] != group[j]
    modifies NodesIn(group)
    ensures |update| == |enter| == |exit| == if |group| < |groupData| then |groupData| else |group|
    ensures forall i :: 0 <= i < |update| ==> update[i] == (if i < |group| && i < |groupData| then group[i] else None)
    ensures forall i :: 0 <= i < |enter| ==>
      enter[i] == (if i < |groupData| && (i < |group| ==> group[i] == None) then Some(groupData[i]) else None)
    ensures forall i :: 0 <= i < |exit| ==> exit[i] == (if i >= |groupData| then group[i] else None)
    ensures forall i :: 0 <= i < |group| && group[i].Some? ==>
      group[i].value.data == if i < |groupData| then groupData[i] else old(group[i].value.data)
  {
    var n, m := |group|, |groupData|;
    var n0 := if n < m then n else m;
    var i := 0;
    update, enter, exit := [], [], [];
    while i < n0
      invariant 0 <= i <= n0 && update == group[..i] && |enter| == |exit| == i
      invariant forall k :: 0 <= k < i ==> exit[k] == None
      invariant forall k :: 0 <= k < i ==> enter[k] == (if group[k] == None then Some(groupData[k]) else None)
      invariant forall k :: 0 <= k < n && group[k].Some? ==>
        group[k].value.data == if k < i then groupData[k] else old(group[k].value.data)
    {
      var node := group[i];
      if node.Some? {
        var o := node.value;
        assert o in NodesIn(group);
        o.data := groupData[i];
        update, enter, exit := update + [node], enter + [None], exit + [None];
      } else {
        update, enter, exit := update + [None], enter + [Some(groupData[i])], exit + [None];
      }
      i := i + 1;
    }
    update, enter, exit := FillUp(group, groupData, n0, update, enter);
  }

  // The loops for the data without nodes and for the nodes without data, behind the first n0 places.
  method FillUp<Data>(group: seq<Option<Node<Data>>>, groupData: seq<Data>, n0: nat,
                      updateNodes: seq<Option<Node<Data>>>, enterNodes: seq<Option<Data>>)
      returns (update: seq<Option<Node<Data>>>, enter: seq<Option<Data>>, exit: seq<Option<Node<Data>>>)
    requires n0 == (if |group| < |groupData| then |group| else |groupData|) && updateNodes == group[..n0]
    requires |enterNodes| == n0
    requires forall k :: 0 <= k < n0 ==> enterNodes[k] == (if group[k] == None then Some(groupData[k]) else None)
    ensures |update| == |enter| == |exit| == if |group| < |groupData| then |groupData| else |group|
    ensures forall i :: 0 <= i < |update| ==> update[i] == (if i < |group| && i < |groupData| then group[i] else None)
    ensures forall i :: 0 <= i < |enter| ==>
      enter[i] == (if i < |groupData| && (i < |group| ==> group[i] == None) then Some(groupData[i]) else None)
    ensures forall i :: 0 <= i < |exit| ==> exit[i] == (if i >= |groupData| then group[i] else None)
  {
    var n, m, i := |group|, |groupData|, n0;
    update, enter, exit := updateNodes, enterNodes, seq(n0, _ => None);
    while i < m
      invariant n0 <= i && (i <= m || i == n0) && |update| == |enter| == |exit| == i
      invariant forall k :: 0 <= k < i ==> update[k] == (if k < n0 then group[k] else None) && exit[k] == None
      invariant forall k :: 0 <= k < i ==> enter[k] == (if k < n && group[k].Some? then None else Some(groupData[k]))
    {
      update, enter, exit := update + [None], enter + [Some(groupData[i])], exit + [None];
      i := i + 1;
    }
    while i < n
      invariant m <= i && (i <= n || i == m) && |update| == |enter| == |exit| == i
      invariant forall k :: 0 <= k < i ==>
        update[k] == (if k < n0 then group[k] else None) && exit[k] == (if k < m then None else group[k])
      invariant forall k :: 0 <= k < i ==>
        enter[k] == (if k >= m || (k < n && group[k].Some?) then None else Some(groupData[k]))
    {
      update, enter, exit := update + [None], enter + [None], exit + [group[i]];
      i := i + 1;
    }
  }
}
