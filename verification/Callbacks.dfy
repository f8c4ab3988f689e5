/** jQuery.Callbacks: a callback list whose callbacks can add, remove and fire while it is firing. A run is a
    sequence of calls on the list, made from outside or from the callback that is running, and of returns of
    the running callback. */
module Callbacks {
  import opened Options
  import opened Sequences

  datatype Flags = Flags(once: bool, memory: bool, unique: bool, stopOnFalse: bool)

  // The identity of a callback, and of a context with arguments.
  type Fn = nat
  type Value = int

  // undefined, true, or a context with arguments.
  datatype Memory = Unset | Halted | Kept(v: Value)

  // What one firing did so far: with which value, what it has to call, what it called, which callbacks were
  // removed meanwhile, whether it was halted, and whether it was fired (or replayed from memory).
  datatype Round = Round(v: Value, owed: seq<Fn>, called: seq<Fn>, removed: set<Fn>, halted: bool, full: bool)

  datatype State = State(list: Option<seq<Fn>>, stack: Option<seq<Value>>, memory: Memory, firing: bool,
                         start: nat, length: int, index: int, current: Value, rounds: seq<Round>)

  const INITIAL := State(Some([]), Some([]), Unset, false, 0, 0, 0, 0, [])

  // ---------- lists ----------

  // The list without all occurrences of the callbacks in a set.
  function Without(s: seq<Fn>, r: set<Fn>): (t: seq<Fn>)
    ensures |t| <= |s|
  {
    if s == [] then [] else if s[0] in r then Without(s[1..], r) else [s[0]] + Without(s[1..], r)
  }

  lemma {:induction false} WithoutConcat(s: seq<Fn>, t: seq<Fn>, r: set<Fn>)
    ensures Without(s + t, r) == Without(s, r) + Without(t, r)
  {
    if s == [] {
      assert s + t == t;
    } else {
      WithoutConcat(s[1..], t, r);
      assert (s + t)[1..] == s[1..] + t && (s + t)[0] == s[0];
      assert [s[0]] + (Without(s[1..], r) + Without(t, r)) == [s[0]] + Without(s[1..], r) + Without(t, r);
    }
  }

  lemma {:induction false} WithoutTwice(s: seq<Fn>, r: set<Fn>, q: set<Fn>)
    ensures Without(Without(s, r), q) == Without(s, r + q) == Without(Without(s, q), r)
  {
    if s != [] {
      WithoutTwice(s[1..], r, q);
      var t, u := Without(s[1..], r), Without(s[1..], q);
      assert ([s[0]] + t)[1..] == t && ([s[0]] + u)[1..] == u;
    }
  }

  lemma {:induction false} WithoutKeeps(s: seq<Fn>, r: set<Fn>, f: Fn)
    ensures f in Without(s, r) <==> f in s && f !in r
  {
    if s != [] { WithoutKeeps(s[1..], r, f); }
  }

  lemma {:induction false} WithoutDistinct(s: seq<Fn>, r: set<Fn>)
    requires Distinct(s)
    ensures Distinct(Without(s, r))
  {
    if s != [] {
      WithoutDistinct(s[1..], r);
      WithoutKeeps(s[1..], r, s[0]);
    }
  }

  // The list with callbacks added: in unique mode only those that it does not have.
  function Added(s: seq<Fn>, fs: seq<Fn>, unique: bool): (t: seq<Fn>)
    ensures s <= t
    decreases |fs|
  {
    if fs == [] then s
    else Added(if unique && fs[0] in s then s else s + [fs[0]], fs[1..], unique)
  }

  lemma {:induction false} AddedAll(s: seq<Fn>, fs: seq<Fn>)
    ensures Added(s, fs, false) == s + fs
    decreases |fs|
  {
    if fs != [] { AddedAll(s + [fs[0]], fs[1..]); }
  }

  lemma {:induction false} AddedDistinct(s: seq<Fn>, fs: seq<Fn>)
    requires Distinct(s)
    ensures Distinct(Added(s, fs, true))
    decreases |fs|
  {
    if fs != [] { AddedDistinct(if fs[0] in s then s else s + [fs[0]], fs[1..]); }
  }

  // ---------- steps ----------

  // What the running loop still has before it.
  function Pending(s: State): seq<Fn> {
    if s.firing && s.list.Some? && -1 <= s.index < |s.list.value| then s.list.value[s.index + 1..] else []
  }

  function Queued(s: State): nat { if s.stack.Some? then |s.stack.value| else 0 }

  function Last(s: State): Round
    requires s.rounds != []
  {
    s.rounds[|s.rounds| - 1]
  }

  function WithLast(s: State, r: Round): State
    requires s.rounds != []
  {
    s.(rounds := s.rounds[..|s.rounds| - 1] + [r])
  }

  function Disabled(s: State): State { s.(list := None, stack := None, memory := Unset) }

  function Locked(s: State): State {
    var t := s.(stack := None);
    if s.memory.Kept? then t else Disabled(t)
  }

  // fire: up to the call of the first callback, or to the end if there is none.
  function Fire(fl: Flags, s: State, v: Value, full: bool): State
    requires s.list.Some?
    decreases Queued(s), 2
  {
    var l := s.list.value;
    var owed := if s.start <= |l| then l[s.start..] else [];
    Advance(fl, s.(memory := if fl.memory then Kept(v) else Halted, firing := true, index := s.start, start := 0,
      length := |l|, current := v, rounds := s.rounds + [Round(v, owed, [], {}, false, full)]))
  }

  // The test of the loop in fire, and the call of the callback at the index.
  function Advance(fl: Flags, s: State): State
    requires s.rounds != []
    decreases Queued(s), 1
  {
    if s.list.Some? && 0 <= s.index < s.length && s.index < |s.list.value| then
      WithLast(s, Last(s).(called := Last(s).called + [s.list.value[s.index]]))
    else Finish(fl, s)
  }

  // The end of fire: queued values are fired, a list for one firing is used up.
  function Finish(fl: Flags, s: State): State
    decreases Queued(s), 0
  {
    var t := s.(firing := false);
    if t.list == None then t
    else if !fl.once then
      if Queued(t) > 0 then
        Fire(fl, t.(stack := Some(t.stack.value[1..]), memory := Kept(t.stack.value[0])), t.stack.value[0], true)
      else t
    else if t.memory == Halted then Disabled(t)
    else t.(list := Some([]))
  }

  // The running callback returns.
  function Returned(fl: Flags, s: State, isFalse: bool): State
    requires s.rounds != []
  {
    if isFalse && fl.stopOnFalse then Finish(fl, WithLast(s, Last(s).(halted := true)).(memory := Halted))
    else Advance(fl, s.(index := s.index + 1))
  }

  function FiredWith(fl: Flags, s: State, v: Value): State
    requires s.stack.Some? ==> s.list.Some?
  {
    if s.stack == None then s
    else if s.firing then (if fl.once then s else s.(stack := Some(s.stack.value + [v])))
    else if fl.once && s.memory != Unset then s
    else Fire(fl, s, v, true)
  }

  function AddedTo(fl: Flags, s: State, fs: seq<Fn>): State
    requires s.firing ==> s.rounds != []
  {
    if s.list == None then s
    else
      var l := Added(s.list.value, fs, fl.unique);
      var t := s.(list := Some(l));
      if s.firing then WithLast(t, Last(s).(owed := Last(s).owed + l[|s.list.value|..])).(length := |l|)
      else if s.memory.Kept? then Fire(fl, t.(start := |s.list.value|), s.memory.v, false)
      else t
  }

  // remove of one callback: the loop moves the index and the length along.
  function RemovedOne(s: State, f: Fn): State
    requires s.firing ==> s.rounds != [] && (s.list.Some? ==> -1 <= s.index < |s.list.value|)
  {
    if s.list == None then s
    else
      var l := s.list.value;
      var t := s.(list := Some(Without(l, {f})));
      if !s.firing then t
      else WithLast(t.(index := |Without(l[..s.index + 1], {f})| - 1, length := s.length - (|l| - |Without(l, {f})|)),
             Last(s).(removed := Last(s).removed + {f}))
  }

  // ---------- the invariant ----------

  // What every step needs.
  predicate Sane(s: State) {
    (s.stack.Some? ==> s.list.Some?)
      && (s.firing ==> s.rounds != [] && (s.list.Some? ==> -1 <= s.index < |s.list.value|))
  }

  /** Between the steps: while firing the index is on the list and the length is that of the list. */
  ghost predicate Inv(fl: Flags, s: State) {
    && Sane(s) && s.start == 0
    && (s.firing ==> s.rounds != [] && Last(s).v == s.current && (s.memory != Unset || s.list == None))
    && (s.firing && s.list.Some? ==> s.length == |s.list.value|)
    && (!s.firing ==> Queued(s) == 0)
    && (fl.once ==> Queued(s) == 0)
    && (fl.unique && s.list.Some? ==> Distinct(s.list.value))
    && (!fl.memory ==> !s.memory.Kept?)
    && (fl.once && !s.firing && s.memory != Unset && s.list.Some? ==> s.list == Some([]) && s.memory.Kept?)
  }

  // What a round called and has still to call is what it owes, but for what was removed meanwhile.
  ghost predicate RoundOk(r: Round, pending: seq<Fn>) {
    Without(r.called + pending, r.removed) == Without(r.owed, r.removed)
  }

  /** Every round that ended, not halted and not cut off by disable, called what it owed. */
  ghost predicate RoundsOk(s: State) {
    && (forall i :: 0 <= i < |s.rounds| - 1 ==> s.rounds[i].halted || RoundOk(s.rounds[i], []))
    && (s.rounds != [] && s.list.Some? ==> Last(s).halted || RoundOk(Last(s), Pending(s)))
  }

  ghost predicate PastOk(rounds: seq<Round>) {
    forall i :: 0 <= i < |rounds| ==> rounds[i].halted || RoundOk(rounds[i], [])
  }

  // The part of the invariant that also holds inside fire.
  ghost predicate Base(fl: Flags, s: State) {
    && (s.stack.Some? ==> s.list.Some?) && (fl.once ==> Queued(s) == 0)
    && (fl.unique && s.list.Some? ==> Distinct(s.list.value))
  }

  lemma {:induction false} FireKeeps(fl: Flags, s: State, v: Value, full: bool)
    requires Base(fl, s) && s.list.Some? && s.start <= |s.list.value| && PastOk(s.rounds)
    ensures Inv(fl, Fire(fl, s, v, full)) && RoundsOk(Fire(fl, s, v, full))
    decreases Queued(s), 2
  {
    var l := s.list.value;
    var r := Round(v, l[s.start..], [], {}, false, full);
    assert [] + l[s.start..] == l[s.start..];
    AdvanceKeeps(fl, s.(memory := if fl.memory then Kept(v) else Halted, firing := true, index := s.start, start := 0,
      length := |l|, current := v, rounds := s.rounds + [r]), s.rounds, r);
  }

  lemma {:induction false} AdvanceKeeps(fl: Flags, s: State, past: seq<Round>, r: Round)
    requires Base(fl, s) && s.firing && s.start == 0 && (!fl.memory ==> !s.memory.Kept?) && s.rounds == past + [r]
    requires s.list.Some? ==> s.length == |s.list.value| && 0 <= s.index <= s.length
    requires r.v == s.current && PastOk(past) && (s.list.Some? ==> r.halted || RoundOk(r, s.list.value[s.index..]))
    requires s.memory != Unset || s.list == None
    ensures Inv(fl, Advance(fl, s)) && RoundsOk(Advance(fl, s))
    decreases Queued(s), 1
  {
    assert Last(s) == r && s.rounds[..|s.rounds| - 1] == past;
    if s.list.Some? && s.index < s.length {
      var l := s.list.value;
      assert l[s.index..] == [l[s.index]] + l[s.index + 1..];
      assert r.called + l[s.index..] == r.called + [l[s.index]] + l[s.index + 1..];
    } else {
      FinishKeeps(fl, s, past, r);
    }
  }

  lemma {:induction false} FinishKeeps(fl: Flags, s: State, past: seq<Round>, r: Round)
    requires Base(fl, s) && s.start == 0 && (!fl.memory ==> !s.memory.Kept?) && s.rounds == past + [r]
    requires PastOk(past) && (s.list.Some? ==> r.halted || RoundOk(r, []))
    requires s.memory != Unset || s.list == None
    ensures Inv(fl, Finish(fl, s)) && RoundsOk(Finish(fl, s))
    decreases Queued(s), 0
  {
    var t := s.(firing := false);
    if t.list.Some? && !fl.once && Queued(t) > 0 {
      FireKeeps(fl, t.(stack := Some(t.stack.value[1..]), memory := Kept(t.stack.value[0])), t.stack.value[0], true);
    }
  }

  lemma ReturnKeeps(fl: Flags, s: State, isFalse: bool)
    requires Inv(fl, s) && RoundsOk(s) && s.firing
    ensures Inv(fl, Returned(fl, s, isFalse)) && RoundsOk(Returned(fl, s, isFalse))
  {
    var n := |s.rounds| - 1;
    var past, r := s.rounds[..n], s.rounds[n];
    assert s.rounds == past + [r];
    if isFalse && fl.stopOnFalse {
      FinishKeeps(fl, WithLast(s, r.(halted := true)).(memory := Halted), past, r.(halted := true));
    } else {
      AdvanceKeeps(fl, s.(index := s.index + 1), past, r);
    }
  }

  lemma FiredWithKeeps(fl: Flags, s: State, v: Value)
    requires Inv(fl, s) && RoundsOk(s)
    ensures Inv(fl, FiredWith(fl, s, v)) && RoundsOk(FiredWith(fl, s, v))
  {
    if s.stack.Some? && !s.firing && !(fl.once && s.memory != Unset) {
      FireKeeps(fl, s, v, true);
    }
  }

  lemma RoundAfterAdd(r: Round, pending: seq<Fn>, fs: seq<Fn>)
    requires RoundOk(r, pending)
    ensures RoundOk(r.(owed := r.owed + fs), pending + fs)
  {
    assert r.called + (pending + fs) == (r.called + pending) + fs;
    WithoutConcat(r.called + pending, fs, r.removed);
    WithoutConcat(r.owed, fs, r.removed);
  }

  lemma AddKeepsFiring(fl: Flags, s: State, fs: seq<Fn>)
    requires Inv(fl, s) && RoundsOk(s) && s.firing && s.list.Some?
    ensures Inv(fl, AddedTo(fl, s, fs)) && RoundsOk(AddedTo(fl, s, fs))
  {
    hide Added, Distinct, RoundOk;
    var l, r := s.list.value, Last(s);
    var k := Added(l, fs, fl.unique);
    if fl.unique { AddedDistinct(l, fs); }
    var q := r.(owed := r.owed + k[|l|..]);
    assert k == l + k[|l|..] && k[s.index + 1..] == l[s.index + 1..] + k[|l|..];
    if !r.halted { RoundAfterAdd(r, l[s.index + 1..], k[|l|..]); }
    var t := AddedTo(fl, s, fs);
    assert t == s.(list := Some(k), length := |k|, rounds := s.rounds[..|s.rounds| - 1] + [q]);
    assert Last(t) == q && Pending(t) == k[s.index + 1..] && Pending(s) == l[s.index + 1..];
    hide AddedTo, Pending;
    assert forall i :: 0 <= i < |s.rounds| - 1 ==> t.rounds[i] == s.rounds[i];
  }

  lemma AddKeeps(fl: Flags, s: State, fs: seq<Fn>)
    requires Inv(fl, s) && RoundsOk(s)
    ensures Inv(fl, AddedTo(fl, s, fs)) && RoundsOk(AddedTo(fl, s, fs))
  {
    if s.list.Some? {
      var l := s.list.value;
      if fl.unique { AddedDistinct(l, fs); }
      if s.firing {
        AddKeepsFiring(fl, s, fs);
        hide Inv, RoundsOk, AddedTo;
      } else {
        hide Added, Distinct, Fire;
        if s.memory.Kept? { FireKeeps(fl, s.(list := Some(Added(l, fs, fl.unique)), start := |l|), s.memory.v, false); }
      }
    }
  }

  /** remove takes the callback from what is still to be called, and nothing else: none is skipped or called
      again because the list moved. */
  lemma RemoveFromPending(fl: Flags, s: State, f: Fn)
    requires Inv(fl, s) && s.firing
    ensures Pending(RemovedOne(s, f)) == Without(Pending(s), {f})
    ensures Inv(fl, RemovedOne(s, f))
  {
    if s.list.Some? {
      var l, i := s.list.value, s.index + 1;
      assert l == l[..i] + l[i..];
      WithoutConcat(l[..i], l[i..], {f});
      if fl.unique { WithoutDistinct(l, {f}); }
    }
  }

  lemma RemoveKeeps(fl: Flags, s: State, f: Fn)
    requires Inv(fl, s) && RoundsOk(s)
    ensures Inv(fl, RemovedOne(s, f)) && RoundsOk(RemovedOne(s, f))
  {
    if s.firing {
      RemoveFromPending(fl, s, f);
      if s.list.Some? && !Last(s).halted { RoundAfterRemove(Last(s), Pending(s), f); }
    } else if s.list.Some? && fl.unique {
      WithoutDistinct(s.list.value, {f});
    }
  }

  lemma RoundAfterRemove(r: Round, pending: seq<Fn>, f: Fn)
    requires RoundOk(r, pending)
    ensures RoundOk(r.(removed := r.removed + {f}), Without(pending, {f}))
  {
    var q := r.removed + {f};
    WithoutConcat(r.called, pending, r.removed);
    WithoutConcat(r.called, Without(pending, {f}), q);
    WithoutConcat(r.called, pending, q);
    WithoutTwice(pending, {f}, q);
    WithoutTwice(r.called + pending, r.removed, {f});
    WithoutTwice(r.owed, r.removed, {f});
    assert {f} + q == q;
  }

  // ---------- runs ----------

  datatype Event = Add(fs: seq<Fn>) | Remove(f: Fn) | FireWith(v: Value) | Disable | Lock | Return(isFalse: bool)

  function Step(fl: Flags, s: State, e: Event): State
    requires Sane(s)
  {
    match e
    case Add(fs) => AddedTo(fl, s, fs)
    case Remove(f) => RemovedOne(s, f)
    case FireWith(v) => FiredWith(fl, s, v)
    case Disable => Disabled(s)
    case Lock => Locked(s)
    case Return(isFalse) => if s.firing then Returned(fl, s, isFalse) else s
  }

  /** Every step keeps the invariant, and rounds stay whole. */
  lemma StepKeeps(fl: Flags, s: State, e: Event)
    requires Inv(fl, s) && RoundsOk(s)
    ensures Inv(fl, Step(fl, s, e)) && RoundsOk(Step(fl, s, e))
  {
    match e
    case Add(fs) => AddKeeps(fl, s, fs);
    case Remove(f) => RemoveKeeps(fl, s, f);
    case FireWith(v) => FiredWithKeeps(fl, s, v);
    case Disable =>
    case Lock =>
    case Return(isFalse) => if s.firing { ReturnKeeps(fl, s, isFalse); }
  }

  ghost function Run(fl: Flags, es: seq<Event>): (s: State)
    ensures Inv(fl, s) && RoundsOk(s)
  {
    if es == [] then INITIAL
    else
      var s := Run(fl, es[..|es| - 1]);
      StepKeeps(fl, s, es[|es| - 1]);
      Step(fl, s, es[|es| - 1])
  }

  // ---------- what runs show ----------

  function AllCalled(rounds: seq<Round>): seq<Fn> {
    if rounds == [] then [] else AllCalled(rounds[..|rounds| - 1]) + rounds[|rounds| - 1].called
  }

  // The values of the rounds that were fired, not replayed.
  function FullValues(rounds: seq<Round>): seq<Value> {
    if rounds == [] then []
    else FullValues(rounds[..|rounds| - 1]) + if rounds[|rounds| - 1].full then [rounds[|rounds| - 1].v] else []
  }

  // What the events of a run add, remove and fire.
  function Adds(es: seq<Event>): seq<Fn> {
    if es == [] then [] else Adds(es[..|es| - 1]) + match es[|es| - 1] case Add(fs) => fs case _ => []
  }

  function Removes(es: seq<Event>): set<Fn> {
    if es == [] then {} else Removes(es[..|es| - 1]) + match es[|es| - 1] case Remove(f) => {f} case _ => {}
  }

  function Fires(es: seq<Event>): seq<Value> {
    if es == [] then [] else Fires(es[..|es| - 1]) + match es[|es| - 1] case FireWith(v) => [v] case _ => []
  }

  // What waits for its call: all of the list, or what the running loop has not reached.
  function Waiting(s: State): seq<Fn> {
    if s.firing then Pending(s) else if s.list.Some? then s.list.value else []
  }

  function Account(s: State): seq<Fn> { AllCalled(s.rounds) + Waiting(s) }

  function StackOf(s: State): seq<Value> { if s.stack.Some? then s.stack.value else [] }

  lemma LastCalled(past: seq<Round>, r: Round)
    ensures AllCalled(past + [r]) == AllCalled(past) + r.called
    ensures FullValues(past + [r]) == FullValues(past) + if r.full then [r.v] else []
  {
    assert (past + [r])[..|past|] == past;
  }

  lemma SplitLast(s: State)
    requires s.rounds != []
    ensures s.rounds == s.rounds[..|s.rounds| - 1] + [Last(s)]
  {}

  // The state when fire reaches its loop.
  function Begun(fl: Flags, s: State, v: Value, full: bool): State
    requires s.list.Some? && s.start <= |s.list.value|
  {
    s.(memory := if fl.memory then Kept(v) else Halted, firing := true, index := s.start, start := 0,
      length := |s.list.value|,
       current := v, rounds := s.rounds + [Round(v, s.list.value[s.start..], [], {}, false, full)])
  }

  lemma FireBegins(fl: Flags, s: State, v: Value, full: bool)
    requires s.list.Some? && s.start <= |s.list.value|
    ensures Fire(fl, s, v, full) == Advance(fl, Begun(fl, s, v, full))
  {}

  lemma AdvanceCalls(fl: Flags, s: State, past: seq<Round>, r: Round)
    requires s.list.Some? && s.length == |s.list.value| && 0 <= s.index <= s.length && s.rounds == past + [r]
    ensures Advance(fl, s) ==
      if s.index < s.length then s.(rounds := past + [r.(called := r.called + [s.list.value[s.index]])])
        else Finish(fl, s)
  {
    assert s.rounds[..|s.rounds| - 1] == past;
  }

  // A return on a list for one firing that is not disabled by it.
  lemma OnceReturned(fl: Flags, s: State, isFalse: bool, past: seq<Round>, r: Round)
    requires Inv(fl, s) && fl.once && s.firing && s.rounds == past + [r]
    ensures s.list == None || (isFalse && fl.stopOnFalse) ==> Returned(fl, s, isFalse).list == None
    ensures s.list.Some? && !(isFalse && fl.stopOnFalse) ==>
      var l, i := s.list.value, s.index + 1;
      var t := s.(index := i);
      Returned(fl, s, isFalse) ==
        if i < |l| then t.(rounds := past + [r.(called := r.called + [l[i]])])
        else if s.memory == Halted then Disabled(t.(firing := false)) else t.(firing := false, list := Some([]))
  {
    if isFalse && fl.stopOnFalse {
      FinishStops(fl, WithLast(s, Last(s).(halted := true)).(memory := Halted));
    } else if s.list.Some? {
      AdvanceCalls(fl, s.(index := s.index + 1), past, r);
    } else {
      FinishStops(fl, s.(index := s.index + 1));
    }
  }

  lemma FinishStops(fl: Flags, s: State)
    requires s.list == None || (fl.once && s.memory == Halted)
    ensures Finish(fl, s).list == None
    ensures s.list == None ==> Finish(fl, s) == s.(firing := false)
  {}

  // The account when the round calls the callback at index i, and when there is none left.
  lemma AccountMoves(past: seq<Round>, r: Round, q: Round, l: seq<Fn>, i: nat)
    requires i <= |l| && q == if i < |l| then r.(called := r.called + [l[i]]) else r
    ensures AllCalled(past + [q]) + (if i < |l| then l[i + 1..] else []) == AllCalled(past + [r]) + l[i..]
  {
    LastCalled(past, r);
    LastCalled(past, q);
    hide AllCalled, FullValues;
    if i < |l| {
      assert l[i..] == [l[i]] + l[i + 1..];
      assert AllCalled(past) + r.called + l[i..] == AllCalled(past) + (r.called + [l[i]]) + l[i + 1..];
    } else {
      assert l[i..] == [];
    }
  }

  // A list for one firing: its step over the account of what was called and what waits.
  lemma OnceFire(fl: Flags, s: State, v: Value, full: bool)
    requires fl.once && fl.memory && s.list.Some? && s.start == 0
    ensures Fire(fl, s, v, full).list.Some? && Account(Fire(fl, s, v, full)) == AllCalled(s.rounds) + s.list.value
    ensures Fire(fl, s, v, full).memory == Kept(v) && |Fire(fl, s, v, full).rounds| == |s.rounds| + 1
    ensures StartsLike(s.rounds, Fire(fl, s, v, full).rounds)
    ensures Fire(fl, s, v, full).rounds[|s.rounds|].v == v
  {
    hide AllCalled, FullValues, Fire;
    var l, t := s.list.value, Begun(fl, s, v, full);
    var r := Round(v, l[0..], [], {}, false, full);
    FireBegins(fl, s, v, full);
    AdvanceCalls(fl, t, s.rounds, r);
    AccountMoves(s.rounds, r, if 0 < |l| then r.(called := r.called + [l[0]]) else r, l, 0);
    LastCalled(s.rounds, r);
    assert AllCalled(s.rounds) + [] + l[0..] == AllCalled(s.rounds) + l;
  }

  lemma OnceReturn(fl: Flags, s: State, isFalse: bool)
    requires Inv(fl, s) && fl.once && fl.memory && s.firing && Returned(fl, s, isFalse).list.Some?
    ensures Account(Returned(fl, s, isFalse)) == Account(s) && Returned(fl, s, isFalse).memory == s.memory
    ensures SameValues(s.rounds, Returned(fl, s, isFalse).rounds)
  {
    hide AllCalled, FullValues, Returned, Distinct;
    SplitLast(s);
    var past, r := s.rounds[..|s.rounds| - 1], Last(s);
    OnceReturned(fl, s, isFalse, past, r);
    var l, i := s.list.value, s.index + 1;
    var q := if i < |l| then r.(called := r.called + [l[i]]) else r;
    AccountMoves(past, r, q, l, i);
    assert Returned(fl, s, isFalse).rounds == past + [q];
  }

  ghost predicate SameValues(a: seq<Round>, b: seq<Round>) {
    |a| == |b| && forall i :: 0 <= i < |a| ==> a[i].v == b[i].v && a[i].full == b[i].full
  }

  ghost predicate StartsLike(a: seq<Round>, b: seq<Round>) {
    |a| <= |b| && forall i :: 0 <= i < |a| ==> b[i].v == a[i].v && b[i].full == a[i].full
  }

  // What an add puts on the list: in unique mode only what it does not have.
  function Appends(fl: Flags, s: State, fs: seq<Fn>): seq<Fn> {
    if s.list.Some? then Added(s.list.value, fs, fl.unique)[|s.list.value|..] else []
  }

  // What all adds of a run put on the list.
  ghost function Appended(fl: Flags, es: seq<Event>): seq<Fn> {
    if es == [] then []
    else
      var past := es[..|es| - 1];
      Appended(fl, past) + match es[|es| - 1] case Add(fs) => Appends(fl, Run(fl, past), fs) case _ => []
  }

  lemma OnceAddFiring(fl: Flags, s: State, fs: seq<Fn>)
    requires Inv(fl, s) && s.list.Some? && s.firing
    ensures Account(AddedTo(fl, s, fs)) == Account(s) + Appends(fl, s, fs)
    ensures SameValues(s.rounds, AddedTo(fl, s, fs).rounds)
  {
    hide AllCalled, FullValues, Added, Distinct;
    var l, a := s.list.value, Appends(fl, s, fs);
    assert Added(l, fs, fl.unique) == l + a;
    SplitLast(s);
    var past, r := s.rounds[..|s.rounds| - 1], Last(s);
    var q := r.(owed := r.owed + a);
    var t := AddedTo(fl, s, fs);
    assert t.list == Some(l + a) && t.rounds == past + [q] && t.firing && t.index == s.index;
    hide AddedTo, Appends, Last, WithLast;
    LastCalled(past, r);
    LastCalled(past, q);
    assert (l + a)[s.index + 1..] == l[s.index + 1..] + a;
    assert Pending(t) == Pending(s) + a;
    hide Pending;
    assert AllCalled(t.rounds) == AllCalled(s.rounds);
    assert AllCalled(s.rounds) + (Pending(s) + a) == AllCalled(s.rounds) + Pending(s) + a;
  }

  lemma OnceAddResting(fl: Flags, s: State, fs: seq<Fn>)
    requires Inv(fl, s) && fl.once && fl.memory && s.list.Some? && !s.firing
    ensures s.memory == Unset ==> AddedTo(fl, s, fs) == s.(list := Some(s.list.value + Appends(fl, s, fs)))
    ensures s.memory.Kept? ==>
      var t := AddedTo(fl, s, fs);
      && t.list.Some? && Account(t) == Account(s) + Appends(fl, s, fs) && t.memory == s.memory
      && StartsLike(s.rounds, t.rounds) && |t.rounds| == |s.rounds| + 1 && t.rounds[|s.rounds|].v == s.memory.v
  {
    hide AllCalled, FullValues, Added, Fire, Distinct, StartsLike;
    var l, a := s.list.value, Appends(fl, s, fs);
    assert Added(l, fs, fl.unique) == l + a;
    if s.memory.Kept? {
      assert l == [] && l + a == a && AllCalled(s.rounds) + [] == AllCalled(s.rounds);
      OnceFire(fl, s.(list := Some(l + a), start := |l|), s.memory.v, false);
    }
  }

  lemma OnceRemove(fl: Flags, s: State, f: Fn)
    requires Inv(fl, s) && s.list.Some?
    ensures Account(RemovedOne(s, f)) == AllCalled(s.rounds) + Without(Waiting(s), {f})
    ensures RemovedOne(s, f).list.Some? && RemovedOne(s, f).memory == s.memory
    ensures SameValues(s.rounds, RemovedOne(s, f).rounds)
  {
    if s.firing {
      SplitLast(s);
      var past, r := s.rounds[..|s.rounds| - 1], Last(s);
      LastCalled(past, r);
      LastCalled(past, r.(removed := r.removed + {f}));
      RemoveFromPending(fl, s, f);
    }
  }

  lemma AccountWithout(called: seq<Fn>, waiting: seq<Fn>, f: Fn, adds: seq<Fn>, r: set<Fn>)
    requires Without(called + waiting, r) == Without(adds, r)
    ensures Without(called + Without(waiting, {f}), r + {f}) == Without(adds, r + {f})
  {
    var q := r + {f};
    WithoutConcat(called, waiting, r);
    WithoutConcat(called, Without(waiting, {f}), q);
    WithoutConcat(called, waiting, q);
    WithoutTwice(waiting, {f}, q);
    WithoutTwice(called + waiting, r, {f});
    WithoutTwice(adds, r, {f});
    assert {f} + q == q;
  }

  ghost predicate OneValue(rounds: seq<Round>, v: Value) { forall i :: 0 <= i < |rounds| ==> rounds[i].v == v }

  // On a list for one firing with memory, as long as it is not disabled.
  ghost predicate OnceOk(s: State, es: seq<Event>, added: seq<Fn>) {
    s.list.Some? ==>
      && Without(Account(s), Removes(es)) == Without(added, Removes(es))
      && (Fires(es) == [] <==> s.memory == Unset)
        && (s.memory == Unset ==> !s.firing && s.rounds == [] && s.stack.Some?)
      && (s.memory != Unset ==> s.memory == Kept(Fires(es)[0]) && OneValue(s.rounds, Fires(es)[0]))
  }

  lemma AccountPlus(account: seq<Fn>, added: seq<Fn>, a: seq<Fn>, r: set<Fn>)
    requires Without(account, r) == Without(added, r)
    ensures Without(account + a, r) == Without(added + a, r)
  {
    WithoutConcat(account, a, r);
    WithoutConcat(added, a, r);
  }

  // The account after an add.
  lemma OnceOkAdded(s: State, t: State, es: seq<Event>, added: seq<Fn>, fs: seq<Fn>, a: seq<Fn>)
    requires OnceOk(s, es, added) && s.list.Some? && t.list.Some? && t.memory == s.memory
    requires Account(t) == Account(s) + a
    requires
      if s.memory == Unset then t.firing == s.firing && t.rounds == s.rounds && t.stack == s.stack
      else forall i :: 0 <= i < |t.rounds| ==> (if i < |s.rounds| then t.rounds[i].v == s.rounds[i].v
                                                else t.rounds[i].v == s.memory.v)
    ensures OnceOk(t, es + [Add(fs)], added + a)
  {
    hide Removes, Fires, Without, Account;
    HistoryNext(es, Add(fs));
    assert Removes(es) + {} == Removes(es) && Fires(es) + [] == Fires(es);
    AccountPlus(Account(s), added, a, Removes(es));
  }

  lemma OnceStepAdd(fl: Flags, s: State, es: seq<Event>, added: seq<Fn>, fs: seq<Fn>)
    requires Inv(fl, s) && fl.once && fl.memory && OnceOk(s, es, added) && s.list.Some?
    ensures OnceOk(AddedTo(fl, s, fs), es + [Add(fs)], added + Appends(fl, s, fs))
  {
    hide Added, Appends, AllCalled, Fire, Without, Removes, Fires, Distinct, Pending;
    var t, a := AddedTo(fl, s, fs), Appends(fl, s, fs);
    if s.firing {
      OnceAddFiring(fl, s, fs);
      assert t.list.Some? && t.memory == s.memory;
      hide Account, AddedTo;
    } else {
      OnceAddResting(fl, s, fs);
      assert s.memory == Unset ==> AllCalled(s.rounds) + (s.list.value + a) == Account(s) + a;
      hide AddedTo;
      if s.memory == Unset { assert Account(t) == Account(s) + a; }
    }
    OnceOkAdded(s, t, es, added, fs, a);
  }

  lemma OnceStepRemove(fl: Flags, s: State, es: seq<Event>, added: seq<Fn>, f: Fn)
    requires Inv(fl, s) && OnceOk(s, es, added) && s.list.Some?
    ensures OnceOk(RemovedOne(s, f), es + [Remove(f)], added)
  {
    HistoryNext(es, Remove(f));
    hide Removes, Fires, Without, AllCalled, Waiting;
    assert Fires(es) + [] == Fires(es);
    OnceRemove(fl, s, f);
    AccountWithout(AllCalled(s.rounds), Waiting(s), f, added, Removes(es));
  }

  lemma OnceStepFire(fl: Flags, s: State, es: seq<Event>, added: seq<Fn>, v: Value)
    requires Inv(fl, s) && fl.once && fl.memory && OnceOk(s, es, added) && s.list.Some?
    ensures OnceOk(FiredWith(fl, s, v), es + [FireWith(v)], added)
  {
    HistoryNext(es, FireWith(v));
    OnceFiredWith(fl, s, v);
    hide Removes, Fires, Without, AllCalled, Waiting, Account, FiredWith;
    assert Removes(es) + {} == Removes(es);
  }

  lemma OnceStepRest(fl: Flags, s: State, es: seq<Event>, added: seq<Fn>, e: Event)
    requires Inv(fl, s) && fl.once && fl.memory && OnceOk(s, es, added) && (e.Disable? || e.Lock? || e.Return?)
    ensures OnceOk(Step(fl, s, e), es + [e], added)
  {
    HistoryNext(es, e);
    assert Removes(es) + {} == Removes(es) && Fires(es) + [] == Fires(es);
    hide Removes, Fires, Without, AllCalled, Waiting, Account, Returned;
    if e.Lock? && Locked(s).list.Some? { OnceLocked(s); }
    if e.Return? && s.firing {
      if s.list == None { OnceReturnedNone(fl, s, e.isFalse); }
      else if Returned(fl, s, e.isFalse).list.Some? { OnceReturn(fl, s, e.isFalse); }
    }
  }

  lemma OnceReturnedNone(fl: Flags, s: State, isFalse: bool)
    requires s.list == None && s.rounds != []
    ensures Returned(fl, s, isFalse).list == None
  {
    FinishStops(fl, WithLast(s, Last(s).(halted := true)).(memory := Halted));
    FinishStops(fl, s.(index := s.index + 1));
  }

  lemma OnceStep(fl: Flags, s: State, es: seq<Event>, added: seq<Fn>, e: Event)
    requires Inv(fl, s) && fl.once && fl.memory && OnceOk(s, es, added)
    ensures OnceOk(Step(fl, s, e), es + [e], added + match e case Add(fs) => Appends(fl, s, fs) case _ => [])
  {
    assert added + [] == added;
    if e.Disable? || e.Lock? || e.Return? {
      OnceStepRest(fl, s, es, added, e);
    } else if s.list.Some? {
      hide OnceOk;
      match e
      case Add(fs) => OnceStepAdd(fl, s, es, added, fs);
      case Remove(f) => OnceStepRemove(fl, s, es, added, f);
      case FireWith(v) => OnceStepFire(fl, s, es, added, v);
    }
  }

  lemma HistoryNext(es: seq<Event>, e: Event)
    ensures Adds(es + [e]) == Adds(es) + match e case Add(fs) => fs case _ => []
    ensures Removes(es + [e]) == Removes(es) + match e case Remove(f) => {f} case _ => {}
    ensures Fires(es + [e]) == Fires(es) + match e case FireWith(v) => [v] case _ => []
  {
    assert (es + [e])[..|es|] == es;
  }

  lemma OnceFiredWith(fl: Flags, s: State, v: Value)
    requires Inv(fl, s) && fl.once && fl.memory && s.list.Some? && (s.memory == Unset ==> !s.firing && s.rounds == [])
    ensures s.memory != Unset || s.stack == None ==> FiredWith(fl, s, v) == s
    ensures s.memory == Unset && s.stack.Some? ==>
      var t := FiredWith(fl, s, v);
        Account(t) == Account(s) && t.memory == Kept(v) && |t.rounds| == 1 && t.rounds[0].v == v
  {
    hide AllCalled;
    if s.stack.Some? && s.memory == Unset { OnceFire(fl, s, v, true); }
  }

  lemma OnceLocked(s: State)
    requires Locked(s).list.Some?
    ensures Account(Locked(s)) == Account(s) && s.memory.Kept?
  {
    hide AllCalled;
  }

  /** A list with memory for one firing: whatever happens meanwhile, a callback that is never removed is called
      exactly as often as an add puts it on the list, in the order of the additions and always with the first
      value fired; when the list is at rest, all of them have been called. */
  lemma {:induction false} OnceWithMemory(fl: Flags, es: seq<Event>)
    requires fl.once && fl.memory
    ensures OnceOk(Run(fl, es), es, Appended(fl, es))
  {
    if es != [] {
      var n := |es| - 1;
      OnceWithMemory(fl, es[..n]);
      OnceStep(fl, Run(fl, es[..n]), es[..n], Appended(fl, es[..n]), es[n]);
      assert es == es[..n] + [es[n]];
    }
  }

  lemma AtRest(fl: Flags, es: seq<Event>)
    requires fl.once && fl.memory
    ensures
      var s := Run(fl, es);
      s.list.Some? && !s.firing && Fires(es) != [] ==>
        && Without(AllCalled(s.rounds), Removes(es)) == Without(Appended(fl, es), Removes(es))
        && OneValue(s.rounds, Fires(es)[0])
  {
    OnceWithMemory(fl, es);
    var s := Run(fl, es);
    assert AllCalled(s.rounds) + [] == AllCalled(s.rounds);
  }

  /** Without unique, on a list that is not disabled, that is everything the adds were given. */
  lemma {:induction false} AppendedIsAdds(fl: Flags, es: seq<Event>)
    requires !fl.unique && Run(fl, es).list.Some?
    ensures Appended(fl, es) == Adds(es)
  {
    hide Step;
    if es != [] {
      var n := |es| - 1;
      var s := Run(fl, es[..n]);
      if s.list == None { DisabledForGood(fl, s, es[n]); }
      AppendedIsAdds(fl, es[..n]);
      if es[n].Add? { AddedAll(s.list.value, es[n].fs); }
    }
  }

  /** With unique, an add puts on the list what it was given and the list does not have, each once. */
  lemma {:induction false} AddedUnique(s: seq<Fn>, fs: seq<Fn>, f: Fn)
    requires Distinct(s)
    ensures var t := Added(s, fs, true); Distinct(t) && (f in t[|s|..] <==> f in fs && f !in s)
    decreases |fs|
  {
    if fs != [] {
      var s1 := if fs[0] in s then s else s + [fs[0]];
      AddedUnique(s1, fs[1..], f);
      var t := Added(s1, fs[1..], true);
      assert t == s1 + t[|s1|..];
      assert t[|s|..] == s1[|s|..] + t[|s1|..];
      assert fs == [fs[0]] + fs[1..];
    }
  }

  // ---------- rounds in the order of their firing ----------

  // The values fired so far: those of the rounds, and those that queue.
  function FiredOf(s: State): seq<Value> { FullValues(s.rounds) + StackOf(s) }

  lemma {:induction false} FifoFire(fl: Flags, s: State, v: Value, full: bool)
    requires Base(fl, s) && !fl.once && s.list.Some? && s.start <= |s.list.value|
    ensures Fire(fl, s, v, full).stack.Some? <==> s.stack.Some?
    ensures FiredOf(Fire(fl, s, v, full)) == FullValues(s.rounds) + (if full then [v] else []) + StackOf(s)
    decreases Queued(s), 1
  {
    var l, t := s.list.value, Begun(fl, s, v, full);
    var r := Round(v, l[s.start..], [], {}, false, full);
    FireBegins(fl, s, v, full);
    AdvanceCalls(fl, t, s.rounds, r);
    LastCalled(s.rounds, r);
    if s.start < |l| {
      LastCalled(s.rounds, r.(called := [] + [l[s.start]]));
    } else {
      FifoFinish(fl, t);
    }
  }

  lemma {:induction false} FifoFinish(fl: Flags, s: State)
    requires Base(fl, s) && !fl.once && s.list.Some? && s.start == 0
    ensures Finish(fl, s).stack.Some? <==> s.stack.Some?
    ensures FiredOf(Finish(fl, s)) == FiredOf(s)
    decreases Queued(s), 0
  {
    if Queued(s) > 0 {
      var q := s.stack.value;
      FifoFire(fl, s.(firing := false, stack := Some(q[1..]), memory := Kept(q[0])), q[0], true);
      assert q == [q[0]] + q[1..];
      assert FullValues(s.rounds) + [q[0]] + q[1..] == FullValues(s.rounds) + q;
    }
  }

  lemma FifoReturn(fl: Flags, s: State, isFalse: bool)
    requires Inv(fl, s) && !fl.once && s.firing && s.stack.Some?
    ensures Returned(fl, s, isFalse).stack.Some? && FiredOf(Returned(fl, s, isFalse)) == FiredOf(s)
  {
    SplitLast(s);
    var past, r := s.rounds[..|s.rounds| - 1], Last(s);
    LastCalled(past, r);
    if isFalse && fl.stopOnFalse {
      LastCalled(past, r.(halted := true));
      FifoFinish(fl, WithLast(s, r.(halted := true)).(memory := Halted));
    } else {
      var t := s.(index := s.index + 1);
      AdvanceCalls(fl, t, past, r);
      if t.index < t.length {
        LastCalled(past, r.(called := r.called + [s.list.value[t.index]]));
      } else {
        FifoFinish(fl, t);
      }
    }
  }

  lemma FifoAdd(fl: Flags, s: State, fs: seq<Fn>)
    requires Inv(fl, s) && !fl.once && s.stack.Some?
    ensures AddedTo(fl, s, fs).stack.Some? && FiredOf(AddedTo(fl, s, fs)) == FiredOf(s)
  {
    var l := s.list.value;
    var k := Added(l, fs, fl.unique);
    if fl.unique { AddedDistinct(l, fs); }
    hide Added, Distinct;
    if s.firing {
      SplitLast(s);
      LastCalled(s.rounds[..|s.rounds| - 1], Last(s));
      LastCalled(s.rounds[..|s.rounds| - 1], Last(s).(owed := Last(s).owed + k[|l|..]));
    } else if s.memory.Kept? {
      FifoFire(fl, s.(list := Some(k), start := |l|), s.memory.v, false);
      assert FullValues(s.rounds) + [] == FullValues(s.rounds);
    }
  }

  lemma FifoRemove(fl: Flags, s: State, f: Fn)
    requires Inv(fl, s) && s.stack.Some?
    ensures RemovedOne(s, f).stack.Some? && FiredOf(RemovedOne(s, f)) == FiredOf(s)
  {
    if s.firing {
      SplitLast(s);
      LastCalled(s.rounds[..|s.rounds| - 1], Last(s));
      LastCalled(s.rounds[..|s.rounds| - 1], Last(s).(removed := Last(s).removed + {f}));
    }
  }

  lemma FifoFiredWith(fl: Flags, s: State, v: Value)
    requires Inv(fl, s) && !fl.once && s.stack.Some?
    ensures FiredWith(fl, s, v).stack.Some? && FiredOf(FiredWith(fl, s, v)) == FiredOf(s) + [v]
  {
    if s.firing {
      assert FullValues(s.rounds) + (s.stack.value + [v]) == FiredOf(s) + [v];
    } else {
      FifoFire(fl, s, v, true);
      assert StackOf(s) == [] && FullValues(s.rounds) + [v] + [] == FullValues(s.rounds) + [] + [v];
    }
  }

  lemma FifoStep(fl: Flags, s: State, es: seq<Event>, e: Event)
    requires Inv(fl, s) && !fl.once && s.stack.Some? && FiredOf(s) == Fires(es) && !e.Disable? && !e.Lock?
    ensures Step(fl, s, e).stack.Some? && FiredOf(Step(fl, s, e)) == Fires(es + [e])
  {
    HistoryNext(es, e);
    hide Fires, FiredOf, AddedTo, RemovedOne, FiredWith, Returned;
    assert Fires(es) + [] == Fires(es);
    match e
    case Add(fs) => FifoAdd(fl, s, fs);
    case Remove(f) => FifoRemove(fl, s, f);
    case FireWith(v) => FifoFiredWith(fl, s, v);
    case Return(isFalse) => if s.firing { FifoReturn(fl, s, isFalse); }
  }

  ghost predicate Open(es: seq<Event>) { forall i :: 0 <= i < |es| ==> !es[i].Disable? && !es[i].Lock? }

  /** A repeatable list that is neither disabled nor locked: the values fired become rounds in the order of the
      firing, also those fired from callbacks; at rest none is left. */
  lemma {:induction false} FiredInOrder(fl: Flags, es: seq<Event>)
    requires !fl.once && Open(es)
    ensures var s := Run(fl, es);
      s.stack.Some? && FiredOf(s) == Fires(es) && (!s.firing ==> FullValues(s.rounds) == Fires(es))
  {
    var s := Run(fl, es);
    if es != [] {
      hide FiredOf, Fires, FullValues, Step;
      var n := |es| - 1;
      FiredInOrder(fl, es[..n]);
      FifoStep(fl, Run(fl, es[..n]), es[..n], es[n]);
      assert es == es[..n] + [es[n]];
    }
    RestingFired(s);
  }

  lemma RestingFired(s: State)
    ensures StackOf(s) == [] ==> FiredOf(s) == FullValues(s.rounds)
  {}

  // A locked list stays locked.
  lemma NoStackStays(fl: Flags, s: State, e: Event)
    requires Inv(fl, s) && s.stack == None
    ensures Step(fl, s, e).stack == None
  {
    match e
    case Add(fs) =>
      if s.list.Some? && !s.firing && s.memory.Kept? {
        var t := s.(list := Some(Added(s.list.value, fs, fl.unique)), start := |s.list.value|);
        FireBegins(fl, t, s.memory.v, false);
        FinishNoStack(fl, Begun(fl, t, s.memory.v, false));
      }
    case Return(isFalse) =>
      if s.firing {
        FinishNoStack(fl, WithLast(s, Last(s).(halted := true)).(memory := Halted));
        FinishNoStack(fl, s.(index := s.index + 1));
      }
    case _ =>
  }

  lemma FinishNoStack(fl: Flags, s: State)
    requires s.stack == None
    ensures Finish(fl, s).stack == None
  {}

  /** A disabled list stays so and calls nothing more. */
  lemma DisabledForGood(fl: Flags, s: State, e: Event)
    requires Inv(fl, s) && s.list == None
    ensures Step(fl, s, e).list == None && AllCalled(Step(fl, s, e).rounds) == AllCalled(s.rounds)
  {
    if e.Return? && s.firing {
      SplitLast(s);
      LastCalled(s.rounds[..|s.rounds| - 1], Last(s));
      LastCalled(s.rounds[..|s.rounds| - 1], Last(s).(halted := true));
      FinishStops(fl, WithLast(s, Last(s).(halted := true)).(memory := Halted));
      FinishStops(fl, s.(index := s.index + 1));
    }
  }

  // A step that disables a list for one firing calls nothing.
  lemma OnceDisables(fl: Flags, s: State, e: Event)
    requires Inv(fl, s) && fl.once && fl.memory && Step(fl, s, e).list == None
    ensures AllCalled(Step(fl, s, e).rounds) == AllCalled(s.rounds)
  {
    hide AllCalled, FullValues, Added, Distinct;
    if s.list == None {
      DisabledForGood(fl, s, e);
    } else if e.Return? && s.firing {
      SplitLast(s);
      var past, r := s.rounds[..|s.rounds| - 1], Last(s);
      LastCalled(past, r);
      LastCalled(past, r.(halted := true));
      OnceReturned(fl, s, e.isFalse, past, r);
    } else if e.Add? && !s.firing && s.memory.Kept? {
      var l := Added(s.list.value, e.fs, fl.unique);
      FireIsOpen(fl, s.(list := Some(l), start := |s.list.value|), s.memory.v, false);
    } else if e.FireWith? && !s.firing && s.memory == Unset {
      FireIsOpen(fl, s, e.v, true);
    }
  }

  // With memory, fire does not disable a list for one firing.
  lemma FireIsOpen(fl: Flags, s: State, v: Value, full: bool)
    requires fl.once && fl.memory && s.list.Some? && s.start <= |s.list.value|
    ensures Fire(fl, s, v, full).list.Some?
  {
    FireBegins(fl, s, v, full);
  }

  lemma FrontStays(called: seq<Fn>, added: seq<Fn>, more: seq<Fn>, r: set<Fn>, q: set<Fn>)
    requires Without(called, r) <= Without(added, r)
    ensures Without(called, r + q) <= Without(added + more, r + q)
  {
    hide Without;
    var c, a := Without(called, r), Without(added, r);
    assert a == c + a[|c|..];
    WithoutConcat(c, a[|c|..], q);
    WithoutTwice(called, r, q);
    WithoutTwice(added, r, q);
    WithoutConcat(added, more, r + q);
  }

  /** Whatever happens to a list with memory for one firing, disabled or not: apart from what is removed, the
      calls so far are the first callbacks that adds put on the list, in their order. */
  lemma {:induction false} CalledInOrder(fl: Flags, es: seq<Event>)
    requires fl.once && fl.memory
    ensures Without(AllCalled(Run(fl, es).rounds), Removes(es)) <= Without(Appended(fl, es), Removes(es))
  {
    if es == [] {
    } else if Run(fl, es).list.Some? {
      var s := Run(fl, es);
      OnceWithMemory(fl, es);
      WithoutConcat(AllCalled(s.rounds), Waiting(s), Removes(es));
    } else {
      hide AllCalled, Without, Step;
      var past, e := es[..|es| - 1], es[|es| - 1];
      var s := Run(fl, past);
      CalledInOrder(fl, past);
      OnceDisables(fl, s, e);
      FrontStays(AllCalled(s.rounds), Appended(fl, past), match e case Add(fs) => Appends(fl, s, fs) case _ => [],
                 Removes(past), match e case Remove(f) => {f} case _ => {});
    }
  }

  // ---------- the arguments of add ----------

  // A callback, an array of arguments, or something else, which add passes over.
  datatype Arg = Callback(f: Fn) | Nested(args: seq<Arg>) | Skipped

  // The callbacks among the arguments, in their order, from whatever depth.
  function Flat(args: seq<Arg>): seq<Fn> {
    if args == [] then []
    else (match args[0] case Callback(f) => [f] case Nested(inner) => Flat(inner) case Skipped => []) + Flat(args[1..])
  }

  // Callbacks as arguments.
  function Plain(fs: seq<Fn>): (args: seq<Arg>)
    ensures Flat(args) == fs
  {
    if fs == [] then []
    else
      var rest := Plain(fs[1..]);
      assert ([Callback(fs[0])] + rest)[1..] == rest && [fs[0]] + fs[1..] == fs;
      [Callback(fs[0])] + rest
  }

  lemma {:induction false} AddedTwice(s: seq<Fn>, fs: seq<Fn>, gs: seq<Fn>, unique: bool)
    ensures Added(s, fs + gs, unique) == Added(Added(s, fs, unique), gs, unique)
    decreases |fs|
  {
    if fs == [] {
      assert fs + gs == gs;
    } else {
      assert (fs + gs)[1..] == fs[1..] + gs && (fs + gs)[0] == fs[0];
      AddedTwice(if unique && fs[0] in s then s else s + [fs[0]], fs[1..], gs, unique);
    }
  }

  // ---------- the object ----------

  // The loop of remove has looked at k callbacks of the list l, and is at place i of what is left.
  ghost predicate Removing(l: seq<Fn>, list: seq<Fn>, i: int, k: int, f: Fn) {
    0 <= k <= |l| && list == Without(l[..k], {f}) + l[k..] && i == |Without(l[..k], {f})|
  }

  // How many of the first at callbacks stay.
  ghost function Stay(l: seq<Fn>, at: int, f: Fn): int { if 0 <= at <= |l| then |Without(l[..at], {f})| else 0 }

  lemma RemovingStarts(l: seq<Fn>, f: Fn)
    ensures Removing(l, l, 0, 0, f)
  {
    assert l[..0] == [] && l[0..] == l;
  }

  // The list with the callback at i taken out.
  function Spliced(list: seq<Fn>, i: nat): (r: seq<Fn>)
    requires i < |list|
    ensures |r| == |list| - 1
  {
    list[..i] + list[i + 1..]
  }

  lemma WithoutGrows(l: seq<Fn>, k: nat, f: Fn)
    requires k < |l|
    ensures Without(l[..k + 1], {f}) == Without(l[..k], {f}) + if l[k] == f then [] else [l[k]]
  {
    assert l[..k + 1] == l[..k] + [l[k]];
    WithoutConcat(l[..k], [l[k]], {f});
    assert [l[k]][1..] == [];
  }

  lemma WithoutShrinks(l: seq<Fn>, at: int, k: nat, f: Fn)
    requires 0 <= at <= k <= |l|
    ensures |Without(l[..at], {f})| <= |Without(l[..k], {f})|
  {
    assert l[..k] == l[..at] + l[at..k];
    WithoutConcat(l[..at], l[at..k], {f});
  }

  lemma SplicedAt(list: seq<Fn>, w: seq<Fn>, x: Fn, tail: seq<Fn>)
    requires list == w + ([x] + tail)
    ensures list[|w|] == x && Spliced(list, |w|) == w + tail && list == (w + [x]) + tail
  {}

  lemma WithoutNext(l: seq<Fn>, list: seq<Fn>, i: int, k: int, at: int, f: Fn)
    requires Removing(l, list, i, k, f) && i < |list|
    ensures k < |l| && list[i] == l[k]
    ensures list[i] == f ==> Removing(l, Spliced(list, i), i, k + 1, f)
    ensures list[i] != f ==> Removing(l, list, i + 1, k + 1, f)
    ensures 0 <= at <= k ==> Stay(l, at, f) <= i && (at == k ==> Stay(l, at, f) == i)
  {
    hide Without, Spliced;
    WithoutGrows(l, k, f);
    if 0 <= at <= k { WithoutShrinks(l, at, k, f); }
    assert l[k..] == [l[k]] + l[k + 1..];
    SplicedAt(list, Without(l[..k], {f}), l[k], l[k + 1..]);
  }

  lemma {:induction false} WithoutAbsent(s: seq<Fn>, f: Fn)
    requires f !in s
    ensures Without(s, {f}) == s
  {
    if s != [] { WithoutAbsent(s[1..], f); }
  }

  // What is left of l: at the end of the list, or behind the only occurrence of f.
  lemma RemovingEnds(l: seq<Fn>, list: seq<Fn>, i: int, k: int, at: int, f: Fn)
    requires Removing(l, list, i, k, f) && (i >= |list| || (0 < k && l[k - 1] == f && Distinct(l)))
    ensures list == Without(l, {f})
    ensures k <= at <= |l| ==> i + (at - k) == Stay(l, at, f)
  {
    NoneLeft(l, list, i, k, f);
    AbsentBehind(l, k, |l|, f);
    assert l[..|l|] == l;
    if k <= at <= |l| { AbsentBehind(l, k, at, f); }
    hide Without;
    assert i >= |list| ==> l[k..] == [];
  }

  lemma NoneLeft(l: seq<Fn>, list: seq<Fn>, i: int, k: int, f: Fn)
    requires Removing(l, list, i, k, f) && (i >= |list| || (0 < k && l[k - 1] == f && Distinct(l)))
    ensures f !in l[k..]
  {
    hide Without;
  }

  lemma AbsentBehind(l: seq<Fn>, k: nat, at: nat, f: Fn)
    requires k <= at <= |l| && f !in l[k..]
    ensures Without(l[..at], {f}) == Without(l[..k], {f}) + l[k..at]
  {
    assert l[..at] == l[..k] + l[k..at];
    assert forall x :: x in l[k..at] ==> x in l[k..];
    WithoutAbsent(l[k..at], f);
    WithoutConcat(l[..k], l[k..at], {f});
  }

  class CallbackList {
    const flags: Flags
    var list: Option<seq<Fn>>
    var stack: Option<seq<Value>>
    var memory: Memory
    var firing: bool
    var firingStart: nat
    var firingLength: int
    var firingIndex: int
    var current: Value
    ghost var rounds: seq<Round>

    ghost function Now(): State
      reads this
    {
      State(list, stack, memory, firing, firingStart, firingLength, firingIndex, current, rounds)
    }

    ghost predicate Valid()
      reads this
    {
      Inv(flags, Now()) && RoundsOk(Now())
    }

    constructor (fl: Flags)
      ensures flags == fl && Now() == INITIAL && Valid()
    {
      flags := fl;
      list, stack, memory, firing := Some([]), Some([]), Unset, false;
      firingStart, firingLength, firingIndex, current := 0, 0, 0, 0;
      rounds := [];
    }

    method Has(fn: Fn) returns (found: bool)
      ensures found <==> list.Some? && fn in list.value
    {
      if list.Some? {
        for i := 0 to |list.value|
          invariant fn !in list.value[..i]
        {
          if list.value[i] == fn { return true; }
        }
      }
      return false;
    }

    // The inner add: a loop over the arguments, which calls itself for an array among them.
    method Append(args: seq<Arg>)
      requires list.Some?
      modifies this`list
      ensures list == Some(Added(old(list).value, Flat(args), flags.unique))
      decreases args
    {
      for i := 0 to |args|
        invariant list.Some?
        invariant Added(list.value, Flat(args[i..]), flags.unique) == Added(old(list).value, Flat(args), flags.unique)
      {
        ghost var l, rest := list.value, Flat(args[i + 1..]);
        assert args[i..][1..] == args[i + 1..];
        match args[i]
        case Callback(f) =>
          AddedTwice(l, [f], rest, flags.unique);
          var has := Has(f);
          if !flags.unique || !has { list := Some(list.value + [f]); }
        case Nested(inner) =>
          AddedTwice(l, Flat(inner), rest, flags.unique);
          Append(inner);
        case Skipped =>
          assert [] + rest == rest;
      }
    }

    method Add(args: seq<Arg>)
      requires Valid()
      modifies this
      ensures Valid() && Now() == AddedTo(flags, old(Now()), Flat(args))
    {
      AddKeeps(flags, Now(), Flat(args));
      if list.Some? {
        var length := |list.value|;
        Append(args);
        if firing {
          firingLength := |list.value|;
          ghost var n := |rounds| - 1;
          rounds := rounds[..n] + [rounds[n].(owed := rounds[n].owed + list.value[length..])];
        } else if memory.Kept? {
          firingStart := length;
          FireNow(memory.v, false);
        }
      }
    }

    // fire, up to the first call.
    method FireNow(v: Value, ghost full: bool)
      requires list.Some?
      modifies this
      ensures Now() == Fire(flags, old(Now()), v, full)
      decreases Queued(Now()), 2
    {
      memory := if flags.memory then Kept(v) else Halted;
      firing := true;
      firingIndex := firingStart;
      firingStart := 0;
      firingLength := |list.value|;
      current := v;
      rounds := rounds
        + [Round(v, if firingIndex <= firingLength then list.value[firingIndex..] else [], [], {}, false, full)];
      Continue();
    }

    // The loop test in fire; the callback at the index is called, or fire ends.
    method Continue()
      requires rounds != []
      modifies this
      ensures Now() == Advance(flags, old(Now()))
      decreases Queued(Now()), 1
    {
      if list.Some? && 0 <= firingIndex < firingLength && firingIndex < |list.value| {
        ghost var n := |rounds| - 1;
        rounds := rounds[..n] + [rounds[n].(called := rounds[n].called + [list.value[firingIndex]])];
      } else {
        End();
      }
    }

    // What fire does after its loop.
    method End()
      modifies this
      ensures Now() == Finish(flags, old(Now()))
      decreases Queued(Now()), 0
    {
      firing := false;
      if list.Some? {
        if !flags.once {
          if stack.Some? && |stack.value| > 0 {
            var v := stack.value[0];
            memory := Kept(v);
            stack := Some(stack.value[1..]);
            FireNow(v, true);
          }
        } else if memory == Halted {
          DisableList();
        } else {
          list := Some([]);
        }
      }
    }

    // The callback that is running returns.
    method Return(isFalse: bool)
      requires Valid() && firing
      modifies this
      ensures Valid() && Now() == Returned(flags, old(Now()), isFalse)
    {
      assert rounds != [];
      ReturnKeeps(flags, Now(), isFalse);
      hide Inv, RoundsOk;
      if isFalse && flags.stopOnFalse {
        memory := Halted;
        ghost var n := |rounds| - 1;
        rounds := rounds[..n] + [rounds[n].(halted := true)];
        End();
      } else {
        firingIndex := firingIndex + 1;
        Continue();
      }
    }

    /** remove of one callback: the list shrinks in place while index and length follow. */
    method Remove(f: Fn)
      requires Valid()
      modifies this
      ensures Valid() && Now() == RemovedOne(old(Now()), f)
    {
      RemoveKeeps(flags, Now(), f);
      if list.Some? {
        hide Without, RoundsOk, Distinct;
        Splice(f);
        if firing {
          ghost var n := |rounds| - 1;
          rounds := rounds[..n] + [rounds[n].(removed := rounds[n].removed + {f})];
        }
      }
    }

    // The loop of remove over the list.
    method Splice(f: Fn)
      requires list.Some? && (flags.unique ==> Distinct(list.value))
      requires firing ==> firingLength == |list.value| && -1 <= firingIndex < firingLength
      modifies this`list, this`firingLength, this`firingIndex
      ensures list == Some(Without(old(list).value, {f}))
      ensures firing ==>
        firingLength == |list.value| && firingIndex == Stay(old(list).value, old(firingIndex) + 1, f) - 1
      ensures !firing ==> firingLength == old(firingLength) && firingIndex == old(firingIndex)
    {
      hide Without, Removing, Distinct, Spliced, Stay;
      ghost var l, at := list.value, if firing then firingIndex + 1 else 0;
      var i := 0;
      ghost var k := 0;
      RemovingStarts(l, f);
      while i < |list.value|
        invariant list.Some? && 0 <= i <= |list.value| && Removing(l, list.value, i, k, f)
        invariant firing ==>
          firingLength == |list.value| && firingIndex + 1 == (if k <= at then i + (at - k) else Stay(l, at, f))
        invariant !firing ==> firingLength == old(firingLength) && firingIndex == old(firingIndex)
        invariant 0 <= k <= |l|
        decreases |l| - k
      {
        WithoutNext(l, list.value, i, k, at, f);
        if list.value[i] == f {
          if firing && i <= firingLength {
            firingLength := firingLength - 1;
            if i <= firingIndex { firingIndex := firingIndex - 1; }
          }
          list := Some(Spliced(list.value, i));
          k := k + 1;
          if flags.unique { break; }
        } else {
          i := i + 1;
          k := k + 1;
        }
      }
      RemovingEnds(l, list.value, i, k, at, f);
    }

    method DisableList()
      modifies this
      ensures Now() == Disabled(old(Now()))
    {
      list, stack, memory := None, None, Unset;
    }

    method LockList()
      modifies this
      ensures Now() == Locked(old(Now()))
    {
      stack := None;
      if !memory.Kept? { DisableList(); }
    }

    method FireWith(v: Value)
      requires Valid()
      modifies this
      ensures Valid() && Now() == FiredWith(flags, old(Now()), v)
    {
      FiredWithKeeps(flags, Now(), v);
      if stack.Some? {
        if firing {
          if !flags.once { stack := Some(stack.value + [v]); }
        } else if !(flags.once && memory != Unset) {
          FireNow(v, true);
        }
      }
    }
  }
}
