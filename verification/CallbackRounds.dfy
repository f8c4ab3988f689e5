/** What each call on a jQuery callback list does to its firings: which one begins, with which value and for which
    callbacks, which one goes on, and which one is halted. */
module CallbackRounds {
  import opened Callbacks
  import opened Options
  import opened Sequences

  // A round that has just begun: the first of the callbacks is called.
  ghost predicate Starts(r: Round, v: Value, full: bool, owed: seq<Fn>) {
    && r.v == v && r.full == full && r.owed == owed && r.removed == {} && !r.halted
    && r.called == if owed == [] then [] else [owed[0]]
  }

  // Rounds fired with these values, each for the whole list.
  ghost predicate FiredRounds(rs: seq<Round>, l: seq<Fn>, values: seq<Value>) {
    |rs| == |values| && forall i :: 0 <= i < |rs| ==> Starts(rs[i], values[i], true, l)
  }

  // The callbacks that an add puts on the list.
  function NewOnes(fl: Flags, s: State, fs: seq<Fn>): seq<Fn>
    requires s.list.Some?
  {
    Added(s.list.value, fs, fl.unique)[|s.list.value|..]
  }

  predicate Halts(fl: Flags, e: Event) { e == Return(true) && fl.stopOnFalse }

  /** The running round when e happens: an add lengthens what it owes, a remove shortens it, a return makes it call the
      next callback that waits, and false halts it if the list is to stop on false. */
  ghost predicate GoesOn(fl: Flags, s: State, e: Event, r: Round, q: Round) {
    && q.v == r.v && q.full == r.full
    && q.owed == r.owed + (if e.Add? && s.list.Some? then NewOnes(fl, s, e.fs) else [])
    && q.removed == r.removed + (if e.Remove? && s.list.Some? then {e.f} else {})
    && (q.halted <==> r.halted || Halts(fl, e))
    && q.called == r.called + (if e.Return? && !Halts(fl, e) && Pending(s) != [] then [Pending(s)[0]] else [])
  }

  /** The rounds that begin when e happens: one for what is added, with the value that is remembered, unless the list is
      firing; one for the value fired, if the list is at rest and not used up;
        and when a round ends, those that queue. */
  ghost predicate Begin(fl: Flags, s: State, e: Event, rs: seq<Round>) {
    match e
    case Add(fs) =>
      if s.list.Some? && !s.firing && s.memory.Kept? then
        |rs| == 1 && Starts(rs[0], s.memory.v, false, NewOnes(fl, s, fs))
      else rs == []
    case FireWith(v) =>
      if s.stack.Some? && !s.firing && !(fl.once && s.memory != Unset) then
        s.list.Some? && FiredRounds(rs, s.list.value, [v])
      else rs == []
    case Return(_) =>
      if s.firing && s.list.Some? && (Halts(fl, e) || Pending(s) == []) then
        && |rs| <= |StackOf(s)| && FiredRounds(rs, s.list.value, StackOf(s)[..|rs|])
        && (StackOf(s) != [] ==> rs != [])
      else rs == []
    case _ => rs == []
  }

  // What e makes of the rounds.
  ghost predicate RoundsMove(fl: Flags, s: State, e: Event, rounds: seq<Round>) {
    var n := |s.rounds|;
    && n <= |rounds| && Begin(fl, s, e, rounds[n..])
    && if s.firing && n > 0 then
         rounds[..n - 1] == s.rounds[..n - 1] && GoesOn(fl, s, e, s.rounds[n - 1], rounds[n - 1])
       else rounds[..n] == s.rounds
  }

  lemma {:induction false} FireRounds(fl: Flags, s: State, v: Value, full: bool) returns (rs: seq<Round>)
    requires Base(fl, s) && s.list.Some? && s.start <= |s.list.value|
    ensures Fire(fl, s, v, full).rounds == s.rounds + rs && 0 < |rs| <= 1 + |StackOf(s)|
    ensures Starts(rs[0], v, full, s.list.value[s.start..])
    ensures FiredRounds(rs[1..], s.list.value, StackOf(s)[..|rs| - 1])
    decreases Queued(s), 1
  {
    var l, t := s.list.value, Begun(fl, s, v, full);
    var r := Round(v, l[s.start..], [], {}, false, full);
    FireBegins(fl, s, v, full);
    AdvanceCalls(fl, t, s.rounds, r);
    if s.start < |l| {
      rs := [r.(called := [] + [l[s.start]])];
    } else {
      var more := FinishRounds(fl, t);
      rs := [r] + more;
    }
  }

  lemma {:induction false} FinishRounds(fl: Flags, s: State) returns (rs: seq<Round>)
    requires Base(fl, s) && s.start == 0
    ensures Finish(fl, s).rounds == s.rounds + rs && |rs| <= |StackOf(s)|
    ensures if s.list.Some? then FiredRounds(rs, s.list.value, StackOf(s)[..|rs|]) else rs == []
    ensures s.list.Some? && StackOf(s) != [] ==> rs != []
    decreases Queued(s), 0
  {
    if s.list.Some? && Queued(s) > 0 {
      var q, l := s.stack.value, s.list.value;
      var t := s.(firing := false, stack := Some(q[1..]), memory := Kept(q[0]));
      rs := FireRounds(fl, t, q[0], true);
      assert q == [q[0]] + q[1..];
      assert rs == [rs[0]] + rs[1..] && q[..|rs|] == [q[0]] + q[1..][..|rs| - 1];
    } else {
      rs := [];
    }
  }

  lemma ReturnMoves(fl: Flags, s: State, isFalse: bool)
    requires Inv(fl, s) && s.firing
    ensures RoundsMove(fl, s, Return(isFalse), Returned(fl, s, isFalse).rounds)
  {
    SplitLast(s);
    var n := |s.rounds| - 1;
    var past, r := s.rounds[..n], Last(s);
    var e := Return(isFalse);
    if Halts(fl, e) {
      var q := r.(halted := true);
      var u := WithLast(s, q).(memory := Halted);
      var rs := FinishRounds(fl, u);
      Moved(fl, s, e, past, r, q, rs, Returned(fl, s, isFalse).rounds);
    } else {
      var t := s.(index := s.index + 1);
      if s.list.Some? && t.index < t.length {
        AdvanceCalls(fl, t, past, r);
        Moved(fl, s, e, past, r, r.(called := r.called + [Pending(s)[0]]), [], Returned(fl, s, isFalse).rounds);
      } else {
        var rs := FinishRounds(fl, t);
        Moved(fl, s, e, past, r, r, rs, Returned(fl, s, isFalse).rounds);
      }
    }
  }

  lemma Moved(fl: Flags, s: State, e: Event, past: seq<Round>, r: Round, q: Round, rs: seq<Round>, rounds: seq<Round>)
    requires s.firing && s.rounds == past + [r] && rounds == past + [q] + rs
    requires GoesOn(fl, s, e, r, q) && Begin(fl, s, e, rs)
    ensures RoundsMove(fl, s, e, rounds)
  {
    var n := |s.rounds|;
    assert rounds[n..] == rs && rounds[..n - 1] == past == s.rounds[..n - 1] && rounds[n - 1] == q;
  }

  lemma NothingMoves(fl: Flags, s: State, e: Event, rs: seq<Round>, rounds: seq<Round>)
    requires (s.firing ==> s.rounds == []) && rounds == s.rounds + rs && Begin(fl, s, e, rs)
    ensures RoundsMove(fl, s, e, rounds)
  {
    assert rounds[|s.rounds|..] == rs && rounds[..|s.rounds|] == s.rounds;
  }

  lemma AddMoves(fl: Flags, s: State, fs: seq<Fn>)
    requires Inv(fl, s)
    ensures RoundsMove(fl, s, Add(fs), AddedTo(fl, s, fs).rounds)
  {
    var e := Add(fs);
    if s.firing {
      SplitLast(s);
      var past, r := s.rounds[..|s.rounds| - 1], Last(s);
      assert r.owed + [] == r.owed;
      Moved(fl, s, e, past, r, r.(owed := r.owed + if s.list.Some? then NewOnes(fl, s, fs) else []), [],
        AddedTo(fl, s, fs).rounds);
    } else if s.list.Some? && s.memory.Kept? {
      var l := s.list.value;
      var k := Added(l, fs, fl.unique);
      if fl.unique { AddedDistinct(l, fs); }
      var rs := FireRounds(fl, s.(list := Some(k), start := |l|), s.memory.v, false);
      NothingMoves(fl, s, e, rs, AddedTo(fl, s, fs).rounds);
    } else {
      NothingMoves(fl, s, e, [], AddedTo(fl, s, fs).rounds);
    }
  }

  lemma RemoveMoves(fl: Flags, s: State, f: Fn)
    requires Inv(fl, s)
    ensures RoundsMove(fl, s, Remove(f), RemovedOne(s, f).rounds)
  {
    if s.firing {
      SplitLast(s);
      var past, r := s.rounds[..|s.rounds| - 1], Last(s);
      assert r.removed + {} == r.removed;
      Moved(fl, s, Remove(f), past, r, r.(removed := r.removed + if s.list.Some? then {f} else {}), [],
        RemovedOne(s, f).rounds);
    } else {
      NothingMoves(fl, s, Remove(f), [], RemovedOne(s, f).rounds);
    }
  }

  lemma FireWithMoves(fl: Flags, s: State, v: Value)
    requires Inv(fl, s)
    ensures RoundsMove(fl, s, FireWith(v), FiredWith(fl, s, v).rounds)
  {
    var e := FireWith(v);
    if s.firing {
      SplitLast(s);
      Moved(fl, s, e, s.rounds[..|s.rounds| - 1], Last(s), Last(s), [], FiredWith(fl, s, v).rounds);
    } else if s.stack.Some? && !(fl.once && s.memory != Unset) {
      var rs := FireRounds(fl, s, v, true);
      assert rs == [rs[0]];
      NothingMoves(fl, s, e, rs, FiredWith(fl, s, v).rounds);
    } else {
      NothingMoves(fl, s, e, [], FiredWith(fl, s, v).rounds);
    }
  }

  /** Every call on a list, and every return of a callback, moves its rounds as described above. */
  lemma StepMoves(fl: Flags, s: State, e: Event)
    requires Inv(fl, s)
    ensures RoundsMove(fl, s, e, Step(fl, s, e).rounds)
  {
    hide Returned, AddedTo, RemovedOne, FiredWith, RoundsMove;
    match e
    case Add(fs) => AddMoves(fl, s, fs);
    case Remove(f) => RemoveMoves(fl, s, f);
    case FireWith(v) => FireWithMoves(fl, s, v);
    case Return(isFalse) =>
      if s.firing { ReturnMoves(fl, s, isFalse); } else { NothingMoves(fl, s, e, [], s.rounds); }
    case Disable => StaysPut(fl, s, e);
    case Lock => StaysPut(fl, s, e);
  }

  lemma StaysPut(fl: Flags, s: State, e: Event)
    requires Inv(fl, s) && (e.Disable? || e.Lock?)
    ensures RoundsMove(fl, s, e, s.rounds)
  {
    if s.firing {
      SplitLast(s);
      Moved(fl, s, e, s.rounds[..|s.rounds| - 1], Last(s), Last(s), [], s.rounds);
    } else {
      NothingMoves(fl, s, e, [], s.rounds);
    }
  }

  // ---------- memory and halted rounds ----------

  // The value fired last, replays not counted.
  function LastFired(rounds: seq<Round>): Option<Value> {
    if rounds == [] then None
    else
      var n := |rounds| - 1;
      if rounds[n].full then Some(rounds[n].v) else LastFired(rounds[..n])
  }

  // What was called is the beginning of what is owed, but for what was removed meanwhile.
  ghost predicate FrontCalled(r: Round) { Without(r.called, r.removed) <= Without(r.owed, r.removed) }

  ghost predicate FrontsCalled(rounds: seq<Round>) {
    forall i :: 0 <= i < |rounds| ==> FrontCalled(rounds[i])
  }

  /** What is remembered is the value fired last; a list with memory remembers it unless the last round was halted.
      Every round, halted or cut off or not, has called the beginning of what it owes. */
  ghost predicate MemoryOk(fl: Flags, s: State) {
    && FrontsCalled(s.rounds) && (s.firing ==> s.rounds != [] && !Last(s).halted)
    && (s.memory.Kept? ==> LastFired(s.rounds) == Some(s.memory.v))
    && (fl.memory && s.list.Some? ==>
      && (s.memory == Unset <==> s.rounds == [])
      && (s.memory == Halted <==> s.rounds != [] && Last(s).halted))
  }

  lemma LastFiredNext(past: seq<Round>, r: Round)
    ensures LastFired(past + [r]) == if r.full then Some(r.v) else LastFired(past)
  {
    assert (past + [r])[..|past|] == past;
  }

  lemma FrontsNext(past: seq<Round>, r: Round)
    requires FrontsCalled(past) && FrontCalled(r)
    ensures FrontsCalled(past + [r])
  {}

  lemma {:induction false} FireRemembers(fl: Flags, s: State, v: Value, full: bool)
    requires s.list.Some? && s.start <= |s.list.value| && FrontsCalled(s.rounds)
    requires full || LastFired(s.rounds) == Some(v)
    ensures MemoryOk(fl, Fire(fl, s, v, full))
    decreases Queued(s), 1
  {
    var l, t := s.list.value, Begun(fl, s, v, full);
    var r := Round(v, l[s.start..], [], {}, false, full);
    FireBegins(fl, s, v, full);
    AdvanceCalls(fl, t, s.rounds, r);
    LastFiredNext(s.rounds, r);
    FrontsNext(s.rounds, r);
    if s.start < |l| {
      var q := r.(called := [] + [l[s.start]]);
      LastFiredNext(s.rounds, q);
      assert q.called + l[s.start + 1..] == q.owed;
      FrontOf(q, l[s.start + 1..]);
      FrontsNext(s.rounds, q);
    } else {
      FinishRemembers(fl, t);
    }
  }

  lemma {:induction false} FinishRemembers(fl: Flags, s: State)
    requires s.rounds != [] && s.start == 0 && FrontsCalled(s.rounds)
    requires s.memory.Kept? ==> LastFired(s.rounds) == Some(s.memory.v)
    requires fl.memory && s.list.Some? ==> s.memory != Unset && (s.memory == Halted <==> Last(s).halted)
    ensures MemoryOk(fl, Finish(fl, s))
    decreases Queued(s), 0
  {
    if s.list.Some? && !fl.once && Queued(s) > 0 {
      var q := s.stack.value;
      FireRemembers(fl, s.(firing := false, stack := Some(q[1..]), memory := Kept(q[0])), q[0], true);
    }
  }

  lemma FrontOf(r: Round, pending: seq<Fn>)
    requires RoundOk(r, pending)
    ensures FrontCalled(r)
  {
    WithoutConcat(r.called, pending, r.removed);
  }

  lemma ReturnRemembers(fl: Flags, s: State, isFalse: bool)
    requires Inv(fl, s) && RoundsOk(s) && MemoryOk(fl, s) && s.firing
    ensures MemoryOk(fl, Returned(fl, s, isFalse))
  {
    SplitLast(s);
    var past, r := s.rounds[..|s.rounds| - 1], Last(s);
    assert FrontsCalled(past) && FrontCalled(r);
    LastFiredNext(past, r);
    if isFalse && fl.stopOnFalse {
      var q := r.(halted := true);
      LastFiredNext(past, q);
      FrontsNext(past, q);
      FinishRemembers(fl, WithLast(s, q).(memory := Halted));
    } else {
      var t := s.(index := s.index + 1);
      if s.list.Some? && t.index < t.length {
        NextRemembers(fl, s, past, r);
      } else {
        FinishRemembers(fl, t);
      }
    }
  }

  lemma NextRemembers(fl: Flags, s: State, past: seq<Round>, r: Round)
    requires Inv(fl, s) && RoundsOk(s) && MemoryOk(fl, s) && s.firing && s.rounds == past + [r] && !r.halted
    requires s.list.Some? && s.index + 1 < s.length && FrontsCalled(past)
    ensures MemoryOk(fl, Advance(fl, s.(index := s.index + 1)))
  {
    var i, l := s.index + 1, s.list.value;
    AdvanceCalls(fl, s.(index := i), past, r);
    var q := r.(called := r.called + [l[i]]);
    LastFiredNext(past, r);
    LastFiredNext(past, q);
    assert r.called + l[i..] == q.called + l[i + 1..];
    assert RoundOk(r, l[i..]);
    FrontOf(q, l[i + 1..]);
    FrontsNext(past, q);
    assert (past + [q])[|past|] == q;
    hide LastFired, FrontsCalled, FrontCalled, RoundsOk;
  }

  lemma AddRemembers(fl: Flags, s: State, fs: seq<Fn>)
    requires Inv(fl, s) && RoundsOk(s) && MemoryOk(fl, s)
    ensures MemoryOk(fl, AddedTo(fl, s, fs))
  {
    if s.list.Some? {
      var l := s.list.value;
      var k := Added(l, fs, fl.unique);
      if s.firing {
        SplitLast(s);
        var past, r := s.rounds[..|s.rounds| - 1], Last(s);
        var q := r.(owed := r.owed + k[|l|..]);
        RoundAfterAdd(r, Pending(s), k[|l|..]);
        FrontOf(q, Pending(s) + k[|l|..]);
        LastReplaced(fl, s, past, r, q, AddedTo(fl, s, fs));
      } else if s.memory.Kept? {
        FireRemembers(fl, s.(list := Some(k), start := |l|), s.memory.v, false);
      }
    }
  }

  // The running round has changed, but not its value, and nothing else.
  lemma LastReplaced(fl: Flags, s: State, past: seq<Round>, r: Round, q: Round, t: State)
    requires MemoryOk(fl, s) && s.firing && s.rounds == past + [r] && FrontCalled(q) && !q.halted
    requires q.v == r.v && q.full == r.full && t.rounds == past + [q] && t.memory == s.memory && t.firing
    requires t.list.Some? <==> s.list.Some?
    ensures MemoryOk(fl, t)
  {
    assert forall i :: 0 <= i < |past| ==> past[i] == s.rounds[i];
    LastFiredNext(past, r);
    LastFiredNext(past, q);
    FrontsNext(past, q);
  }

  lemma RemoveRemembers(fl: Flags, s: State, f: Fn)
    requires Inv(fl, s) && RoundsOk(s) && MemoryOk(fl, s)
    ensures MemoryOk(fl, RemovedOne(s, f))
  {
    if s.list.Some? && s.firing {
      SplitLast(s);
      var past, r := s.rounds[..|s.rounds| - 1], Last(s);
      var q := r.(removed := r.removed + {f});
      RoundAfterRemove(r, Pending(s), f);
      FrontOf(q, Without(Pending(s), {f}));
      LastReplaced(fl, s, past, r, q, RemovedOne(s, f));
    }
  }

  lemma {:induction false} RunRemembers(fl: Flags, es: seq<Event>)
    ensures MemoryOk(fl, Run(fl, es))
  {
    if es != [] {
      hide MemoryOk, Inv, RoundsOk, AddedTo, RemovedOne, FiredWith, Returned;
      var s, e := Run(fl, es[..|es| - 1]), es[|es| - 1];
      RunRemembers(fl, es[..|es| - 1]);
      match e
      case Add(fs) => AddRemembers(fl, s, fs);
      case Remove(f) => RemoveRemembers(fl, s, f);
      case FireWith(v) => FireWithRemembers(fl, s, v);
      case Return(isFalse) => if s.firing { ReturnRemembers(fl, s, isFalse); }
      case Disable => DisableRemembers(fl, s);
      case Lock => DisableRemembers(fl, s);
    } else {
      NothingRemembered(fl);
    }
  }

  lemma NothingRemembered(fl: Flags)
    ensures MemoryOk(fl, INITIAL)
  {}

  lemma FireWithRemembers(fl: Flags, s: State, v: Value)
    requires Inv(fl, s) && MemoryOk(fl, s)
    ensures MemoryOk(fl, FiredWith(fl, s, v))
  {
    if s.stack.Some? && !s.firing && !(fl.once && s.memory != Unset) { FireRemembers(fl, s, v, true); }
  }

  lemma DisableRemembers(fl: Flags, s: State)
    requires MemoryOk(fl, s)
    ensures MemoryOk(fl, Disabled(s)) && MemoryOk(fl, Locked(s))
  {}

  /** In every run: each event moves the rounds as described, rounds that ended called what they owe unless they were
      halted, and a list with memory remembers the value fired last. */
  lemma RoundsOfRun(fl: Flags, es: seq<Event>, k: nat)
    requires k < |es|
    ensures RoundsMove(fl, Run(fl, es[..k]), es[k], Run(fl, es[..k + 1]).rounds)
    ensures MemoryOk(fl, Run(fl, es)) && RoundsOk(Run(fl, es))
  {
    hide RoundsMove, MemoryOk, RoundsOk, Inv, Step;
    assert es[..k + 1][..k] == es[..k] && es[..k + 1][k] == es[k];
    StepMoves(fl, Run(fl, es[..k]), es[k]);
    RunRemembers(fl, es);
  }
}
