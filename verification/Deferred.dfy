/** jQuery.Deferred: three callback lists and a state. Calls on the deferred come from outside or from a callback
    that is running; callbacks of different lists can run inside each other. */
module Deferreds {
  import opened Options
  import opened Callbacks
  import opened Sequences

  const ONCE_FLAGS := Flags(true, true, false, false)
  const NOTIFY_FLAGS := Flags(false, true, false, false)

  datatype Which = DoneList | FailList | ProgressList

  datatype Settlement = IsPending | Resolved | Rejected

  // A callback list with what has happened to it.
  datatype Tracked = Tracked(fl: Flags, s: State, es: seq<Event>)

  // The lists, the state, and the lists of the callbacks that are running, the innermost last.
  datatype Deferred = Deferred(done: Tracked, fail: Tracked, progress: Tracked, state: Settlement, frames: seq<Which>)

  // The first callbacks of the done and fail lists: the state changes, the other list is disabled, the
  // progress list is locked. All other callbacks have greater numbers.
  const SET_STATE: Fn := 0
  const DISABLE_OTHER: Fn := 1
  const LOCK_PROGRESS: Fn := 2

  const OWN: seq<Fn> := [SET_STATE, DISABLE_OTHER, LOCK_PROGRESS]

  predicate AreUsers(fs: seq<Fn>) { forall i :: 0 <= i < |fs| ==> fs[i] > LOCK_PROGRESS }

  // ---------- steps ----------

  ghost predicate Ok(t: Tracked) { Sane(t.s) && Inv(t.fl, t.s) && RoundsOk(t.s) && t.s == Run(t.fl, t.es) }

  function Do(t: Tracked, e: Event): Tracked
    requires Sane(t.s)
  {
    Tracked(t.fl, Step(t.fl, t.s, e), t.es + [e])
  }

  lemma DoKeeps(t: Tracked, e: Event)
    requires Ok(t)
    ensures Ok(Do(t, e))
  {
    StepKeeps(t.fl, t.s, e);
    assert (t.es + [e])[..|t.es|] == t.es;
  }

  function List(d: Deferred, w: Which): Tracked {
    match w case DoneList => d.done case FailList => d.fail case ProgressList => d.progress
  }

  function WithList(d: Deferred, w: Which, t: Tracked): Deferred {
    match w case DoneList => d.(done := t) case FailList => d.(fail := t) case ProgressList => d.(progress := t)
  }

  ghost predicate AllOk(d: Deferred) {
    && Sane(d.done.s) && Sane(d.fail.s) && Sane(d.progress.s)
    && Ok(d.done) && Ok(d.fail) && Ok(d.progress)
    && d.done.fl == ONCE_FLAGS && d.fail.fl == ONCE_FLAGS && d.progress.fl == NOTIFY_FLAGS
  }

  // A call on one list: a callback of it begins to run, or the running one was the last.
  function Apply(d: Deferred, w: Which, e: Event): Deferred
    requires Sane(List(d, w).s)
  {
    var t := Do(List(d, w), e);
    var before, after := List(d, w).s.firing, t.s.firing;
    var frames :=
      if !before && after then d.frames + [w]
      else if before && !after && d.frames != [] then d.frames[..|d.frames| - 1]
      else d.frames;
    WithList(d, w, t).(frames := frames)
  }

  lemma ApplyKeeps(d: Deferred, w: Which, e: Event)
    requires AllOk(d)
    ensures AllOk(Apply(d, w, e))
  {
    DoKeeps(List(d, w), e);
    hide Ok, Do;
  }

  // The callback that the list is calling.
  function Running(s: State): Fn
    requires s.list.Some? && 0 <= s.index < |s.list.value|
  {
    s.list.value[s.index]
  }

  function Other(w: Which): Which { if w == DoneList then FailList else DoneList }

  // What one of the own callbacks of list w does.
  function Effect(d: Deferred, w: Which, f: Fn): Deferred
    requires Sane(d.progress.s) && Sane(d.fail.s) && Sane(d.done.s)
  {
    if f == SET_STATE then d.(state := if w == DoneList then Resolved else Rejected)
    else if f == DISABLE_OTHER then Apply(d, Other(w), Disable)
    else Apply(d, ProgressList, Lock)
  }

  lemma EffectKeeps(d: Deferred, w: Which, f: Fn)
    requires AllOk(d)
    ensures AllOk(Effect(d, w, f))
  {
    ApplyKeeps(d, Other(w), Disable);
    ApplyKeeps(d, ProgressList, Lock);
    hide Ok, Apply;
  }

  // An own callback that is running does its work and returns.
  ghost function RunOwn(d: Deferred, w: Which): (r: Deferred)
    requires AllOk(d)
    ensures AllOk(r)
  {
    var s := List(d, w).s;
    if s.firing && s.list.Some? && 0 <= s.index < |s.list.value| && Running(s) <= LOCK_PROGRESS then
      EffectKeeps(d, w, Running(s));
      ApplyKeeps(Effect(d, w, Running(s)), w, Return(false));
      Apply(Effect(d, w, Running(s)), w, Return(false))
    else d
  }

  // Calls on a deferred: then, done, fail and progress add; resolve, reject and notify fire; a callback returns.
  datatype Call = Attach(w: Which, fs: seq<Fn>) | Send(w: Which, v: Value) | Leave

  ghost function Stepped(d: Deferred, c: Call): (r: Deferred)
    requires AllOk(d)
    ensures AllOk(r)
  {
    match c
    case Attach(w, fs) =>
      ApplyKeeps(d, w, Add(fs));
      Apply(d, w, Add(fs))
    case Send(w, v) =>
      ApplyKeeps(d, w, FireWith(v));
      var t := Apply(d, w, FireWith(v));
      if w == ProgressList then t else RunOwn(RunOwn(RunOwn(t, w), w), w)
    case Leave =>
      if d.frames == [] then d
      else
        var w := d.frames[|d.frames| - 1];
        ApplyKeeps(d, w, Return(false));
        Apply(d, w, Return(false))
  }

  // ---------- what holds between the calls ----------

  // A list that has not been fired, with its own callbacks first.
  ghost predicate Fresh(s: State) {
    && !s.firing && s.memory == Unset && s.rounds == [] && s.stack == Some([]) && s.start == 0
    && s.list.Some? && OWN <= s.list.value && AreUsers(s.list.value[3..])
  }

  // A list that has been fired: the callback that runs and those that wait are not its own ones.
  ghost predicate Won(s: State) {
    && s.memory.Kept? && s.list.Some?
    && (s.firing ==> 0 <= s.index < |s.list.value| && AreUsers(s.list.value[s.index..]))
  }

  // A list that was disabled before it was fired.
  ghost predicate Lost(s: State) { s.list == None && s.stack == None && !s.firing && s.rounds == [] }

  ghost predicate FramesOk(d: Deferred) {
    && Distinct(d.frames)
    && (forall w :: w in d.frames <==> List(d, w).s.firing)
  }

  // The state and the lists agree.
  ghost predicate Agrees(d: Deferred) {
    match d.state
    case IsPending => Fresh(d.done.s) && Fresh(d.fail.s) && d.progress.s.stack.Some?
    case Resolved => Won(d.done.s) && Lost(d.fail.s) && d.progress.s.stack == None
    case Rejected => Won(d.fail.s) && Lost(d.done.s) && d.progress.s.stack == None
  }

  ghost predicate Good(d: Deferred) { AllOk(d) && FramesOk(d) && Agrees(d) }

  // ---------- settling ----------

  // The done or fail list in its first round, calling the callback at i.
  function At(l: seq<Fn>, v: Value, i: nat): State
    requires i < |l|
  {
    State(Some(l), Some([]), Kept(v), true, 0, |l|, i, v, [Round(v, l, l[..i + 1], {}, false, true)])
  }

  lemma FreshFires(s: State, v: Value)
    requires Fresh(s)
    ensures FiredWith(ONCE_FLAGS, s, v) == At(s.list.value, v, 0)
  {
    var l := s.list.value;
    var r := Round(v, l[0..], [], {}, false, true);
    FireBegins(ONCE_FLAGS, s, v, true);
    AdvanceCalls(ONCE_FLAGS, Begun(ONCE_FLAGS, s, v, true), [], r);
    hide Callbacks.Fire, Advance;
    assert r.owed == l && r.called + [l[0]] == l[..1];
    assert [] + [r] == [r];
  }

  lemma AtReturns(l: seq<Fn>, v: Value, i: nat)
    requires i < |l|
    ensures Returned(ONCE_FLAGS, At(l, v, i), false) ==
      if i + 1 < |l| then At(l, v, i + 1) else At(l, v, i).(index := i + 1, firing := false, list := Some([]))
  {
    var s := At(l, v, i);
    var r := s.rounds[0];
    assert s.rounds == [] + [r];
    AdvanceCalls(ONCE_FLAGS, s.(index := i + 1), [], r);
    if i + 1 < |l| {
      hide Advance;
      assert r.called + [l[i + 1]] == l[..i + 2];
      assert [] + [r.(called := l[..i + 2])] == At(l, v, i + 1).rounds;
    }
  }

  lemma ApplyFrames(d: Deferred, w: Which, e: Event)
    requires Sane(List(d, w).s)
    ensures
      var r := Apply(d, w, e);
      && List(r, w) == Do(List(d, w), e)
      && (forall x :: x != w ==> List(r, x) == List(d, x)) && r.state == d.state
      && (List(r, w).s.firing == List(d, w).s.firing ==> r.frames == d.frames)
      && (List(r, w).s.firing && !List(d, w).s.firing ==> r.frames == d.frames + [w])
      && (!List(r, w).s.firing && List(d, w).s.firing && d.frames != [] ==> r.frames == d.frames[..|d.frames| - 1])
  {
    hide Step;
  }

  lemma OwnEffect(d: Deferred, w: Which, i: nat)
    requires Sane(d.done.s) && Sane(d.fail.s) && Sane(d.progress.s) && w != ProgressList && i < 3
    ensures
      var r := Effect(d, w, i);
      && List(r, w) == List(d, w) && r.frames == d.frames
      && r.state == (if i > 0 then d.state else if w == DoneList then Resolved else Rejected)
      && List(r, Other(w)) == (if i == 1 then Do(List(d, Other(w)), Disable) else List(d, Other(w)))
      && r.progress == (if i == 2 then Do(d.progress, Lock) else d.progress)
  {}

  lemma RunOwnIs(d: Deferred, w: Which, l: seq<Fn>, v: Value, i: nat)
    requires AllOk(d) && w != ProgressList && i < 3 && OWN <= l && List(d, w).s == At(l, v, i)
    ensures Sane(List(Effect(d, w, i), w).s) && RunOwn(d, w) == Apply(Effect(d, w, i), w, Return(false))
  {
    EffectKeeps(d, w, i);
    assert l[i] == OWN[i] == i;
    hide Ok, Apply, Effect;
  }

  // One own callback of the first round: it works, and the next one is called.
  lemma OwnRuns(d: Deferred, w: Which, l: seq<Fn>, v: Value, i: nat)
    requires AllOk(d) && w != ProgressList && i < 3 && OWN <= l && List(d, w).s == At(l, v, i) && d.frames != []
    ensures
      var r := RunOwn(d, w);
      && List(r, w) == Tracked(List(d, w).fl, Returned(ONCE_FLAGS, At(l, v, i), false), List(d, w).es + [Return(false)])
      && r.state == (if i > 0 then d.state else if w == DoneList then Resolved else Rejected)
      && List(r, Other(w)) == (if i == 1 then Do(List(d, Other(w)), Disable) else List(d, Other(w)))
      && r.progress == (if i == 2 then Do(d.progress, Lock) else d.progress)
      && r.frames == if i + 1 < |l| then d.frames else d.frames[..|d.frames| - 1]
  {
    OwnEffect(d, w, i);
    RunOwnIs(d, w, l, v, i);
    AtReturns(l, v, i);
    assert List(d, w).fl == ONCE_FLAGS;
    hide AllOk, RunOwn, Effect, Apply, Returned, At;
    ApplyFrames(Effect(d, w, i), w, Return(false));
    ReturnStep(List(d, w), l, v, i);
    hide Do;
    
  }

  lemma ReturnStep(t: Tracked, l: seq<Fn>, v: Value, i: nat)
    requires i < |l| && t.s == At(l, v, i) && t.fl == ONCE_FLAGS
    ensures Do(t, Return(false)) == Tracked(t.fl, Returned(ONCE_FLAGS, At(l, v, i), false), t.es + [Return(false)])
    ensures Do(t, Return(false)).s.firing == (i + 1 < |l|) && t.s.firing
  {
    AtReturns(l, v, i);
    hide Returned;
  }

  // resolve or reject, up to the call of the first own callback.
  lemma Sent(d: Deferred, w: Which, v: Value)
    requires AllOk(d) && w != ProgressList && Fresh(List(d, w).s)
    ensures
      var t := Apply(d, w, FireWith(v));
      var l := List(d, w).s.list.value;
      && AllOk(t) && List(t, w) == Tracked(ONCE_FLAGS, At(l, v, 0), List(d, w).es + [FireWith(v)])
      && List(t, Other(w)) == List(d, Other(w)) && t.progress == d.progress && t.state == d.state
        && t.frames == d.frames + [w]
  {
    FreshFires(List(d, w).s, v);
    ApplyKeeps(d, w, FireWith(v));
    ApplyFrames(d, w, FireWith(v));
    hide Apply, RunOwn, Ok, FiredWith;
  }

  // The deferred when resolve or reject has called i own callbacks to their end.
  ghost function Sending(d: Deferred, w: Which, v: Value, i: nat): (r: Deferred)
    requires AllOk(d)
    ensures AllOk(r)
  {
    if i == 0 then ApplyKeeps(d, w, FireWith(v)); Apply(d, w, FireWith(v)) else RunOwn(Sending(d, w, v, i - 1), w)
  }

  ghost function Returns(i: nat): seq<Event> { if i == 0 then [] else Returns(i - 1) + [Return(false)] }

  // The own callback i is running.
  ghost predicate OwnAt(d: Deferred, r: Deferred, w: Which, v: Value, i: nat)
    requires Sane(List(d, Other(w)).s) && Fresh(List(d, w).s) && i < 3
  {
    && List(r, w) == Tracked(ONCE_FLAGS, At(List(d, w).s.list.value, v, i), List(d, w).es + [FireWith(v)] + Returns(i))
    && r.state == (if i == 0 then d.state else if w == DoneList then Resolved else Rejected)
    && List(r, Other(w)) == (if i < 2 then List(d, Other(w)) else Do(List(d, Other(w)), Disable))
    && r.progress == d.progress && r.frames == d.frames + [w]
  }

  lemma OwnNext(d: Deferred, r: Deferred, w: Which, v: Value, i: nat)
    requires AllOk(r) && w != ProgressList && Sane(List(d, Other(w)).s) && Fresh(List(d, w).s) && i < 2
    requires OwnAt(d, r, w, v, i)
    ensures OwnAt(d, RunOwn(r, w), w, v, i + 1)
  {
    hide AllOk, Ok, Returned, At, Do, RunOwn;
    var l, h := List(d, w).s.list.value, List(d, w).es + [FireWith(v)];
    assert OWN <= l && |l| >= 3;
    hide Fresh, List, Other;
    OwnRuns(r, w, l, v, i);
    AtReturns(l, v, i);
    assert h + Returns(i) + [Return(false)] == h + Returns(i + 1);
  }

  lemma {:induction false} OwnRun(d: Deferred, w: Which, v: Value, i: nat)
    requires AllOk(d) && w != ProgressList && Fresh(List(d, w).s) && i < 3
    ensures OwnAt(d, Sending(d, w, v, i), w, v, i)
  {
    hide Ok, Returned, At, Do, RunOwn;
    if i == 0 {
      Sent(d, w, v);
      hide Stepped, AllOk, Apply, At, Fresh, RunOwn, List, Other;
      assert List(d, w).es + [FireWith(v)] + [] == List(d, w).es + [FireWith(v)];
    } else {
      OwnRun(d, w, v, i - 1);
      hide Stepped, Apply, Fresh, RunOwn, OwnAt, List, Other;
      OwnNext(d, Sending(d, w, v, i - 1), w, v, i - 1);
    }
  }

  // The last own callback has returned.
  ghost predicate OwnDone(d: Deferred, r: Deferred, w: Which, v: Value)
    requires Sane(List(d, Other(w)).s) && Sane(d.progress.s) && Fresh(List(d, w).s)
  {
    var l := List(d, w).s.list.value;
    && List(r, w) ==
      Tracked(ONCE_FLAGS, Returned(ONCE_FLAGS, At(l, v, 2), false), List(d, w).es + [FireWith(v)] + Returns(3))
    && r.state == (if w == DoneList then Resolved else Rejected)
    && List(r, Other(w)) == Do(List(d, Other(w)), Disable) && r.progress == Do(d.progress, Lock)
    && r.frames == if |l| > 3 then d.frames + [w] else d.frames
  }

  lemma OwnLast(d: Deferred, r: Deferred, w: Which, v: Value)
    requires AllOk(r) && w != ProgressList && Sane(List(d, Other(w)).s) && Sane(d.progress.s) && Fresh(List(d, w).s)
    requires OwnAt(d, r, w, v, 2)
    ensures OwnDone(d, RunOwn(r, w), w, v)
  {
    hide AllOk, Ok, Returned, At, Do, RunOwn;
    var l, h := List(d, w).s.list.value, List(d, w).es + [FireWith(v)];
    assert OWN <= l && |l| >= 3;
    hide Fresh, List, Other;
    OwnRuns(r, w, l, v, 2);
    assert h + Returns(2) + [Return(false)] == h + Returns(3);
    assert (d.frames + [w])[..|d.frames|] == d.frames;
  }

  lemma OwnEnds(d: Deferred, w: Which, v: Value)
    requires AllOk(d) && w != ProgressList && Fresh(List(d, w).s)
    ensures OwnDone(d, Sending(d, w, v, 3), w, v)
  {
    OwnRun(d, w, v, 2);
    hide Stepped, Apply, Fresh, RunOwn, OwnAt, OwnDone, List, Other;
    OwnLast(d, Sending(d, w, v, 2), w, v);
  }

  lemma SendingIsStepped(d: Deferred, w: Which, v: Value)
    requires AllOk(d) && w != ProgressList
    ensures Stepped(d, Send(w, v)) == Sending(d, w, v, 3)
  {
    hide Apply, RunOwn, AllOk;
    assert Sending(d, w, v, 3) == RunOwn(Sending(d, w, v, 2), w);
    assert Sending(d, w, v, 2) == RunOwn(Sending(d, w, v, 1), w);
    assert Sending(d, w, v, 1) == RunOwn(Sending(d, w, v, 0), w);
  }

  /** The first resolve or reject settles: the state changes, the other list is disabled, the progress list is
      locked, and then the first callback of a user is called. */
  lemma Settles(d: Deferred, w: Which, v: Value)
    requires Good(d) && d.state == IsPending && w != ProgressList
    ensures Good(Stepped(d, Send(w, v))) && OwnDone(d, Stepped(d, Send(w, v)), w, v)
  {
    SendingIsStepped(d, w, v);
    OwnEnds(d, w, v);
    SettledAgrees(d, Stepped(d, Send(w, v)), w, v);
  }

  lemma SettledAgrees(d: Deferred, r: Deferred, w: Which, v: Value)
    requires AllOk(d) && FramesOk(d) && Agrees(d) && d.state == IsPending && w != ProgressList && OwnDone(d, r, w, v)
    ensures FramesOk(r) && Agrees(r)
  {
    hide Ok, Returned, AllOk;
    SaneLists(d);
    var l := List(d, w).s.list.value;
    AtReturns(l, v, 2);
    assert |l| > 3 ==> l[3..] == List(d, w).s.list.value[3..];
    assert Won(List(r, w).s);
    assert Lost(List(r, Other(w)).s);
    assert r.progress.s.firing == d.progress.s.firing;
  }

  // ---------- the other calls ----------

  lemma FreshAdd(s: State, fs: seq<Fn>)
    requires Fresh(s) && AreUsers(fs)
    ensures Fresh(AddedTo(ONCE_FLAGS, s, fs))
  {
    AddedAll(s.list.value, fs);
    hide Added;
    assert (s.list.value + fs)[3..] == s.list.value[3..] + fs;
  }

  lemma WonAdd(s: State, fs: seq<Fn>)
    requires Inv(ONCE_FLAGS, s) && Won(s) && AreUsers(fs)
    ensures Won(AddedTo(ONCE_FLAGS, s, fs)) && (s.firing ==> AddedTo(ONCE_FLAGS, s, fs).firing)
  {
    hide Added, Fire, RoundOk, Distinct, Without;
    var l := s.list.value;
    AddedAll(l, fs);
    if s.firing {
      assert (l + fs)[s.index..] == l[s.index..] + fs;
    } else {
      var t := s.(list := Some(l + fs), start := |l|);
      var b := Begun(ONCE_FLAGS, t, s.memory.v, false);
      FireBegins(ONCE_FLAGS, t, s.memory.v, false);
      AdvanceCalls(ONCE_FLAGS, b, s.rounds, Last(b));
      assert fs[0..] == fs;
    }
  }

  lemma WonReturn(s: State)
    requires Inv(ONCE_FLAGS, s) && Won(s) && s.firing
    ensures Won(Returned(ONCE_FLAGS, s, false))
  {
    var n := |s.rounds| - 1;
    assert s.rounds == s.rounds[..n] + [s.rounds[n]];
    OnceReturned(ONCE_FLAGS, s, false, s.rounds[..n], s.rounds[n]);
    hide Returned;
    var l, i := s.list.value, s.index;
    assert i + 1 < |l| ==> l[i + 1..] == l[i..][1..];
  }

  // A list that is firing goes on when it is added to or fired.
  lemma FiringStays(fl: Flags, s: State, e: Event)
    requires Sane(s) && s.firing && (e.Add? || e.FireWith?)
    ensures Step(fl, s, e).firing
  {}

  lemma {:induction false} RestingRun(d: Deferred, w: Which)
    requires AllOk(d) && (Lost(List(d, w).s) || Won(List(d, w).s))
    ensures RunOwn(d, w) == d
  {
    hide Ok;
    var s := List(d, w).s;
    assert Won(s) && s.firing ==> s.list.value[s.index..][0] == Running(s);
  }

  // ---------- whole runs ----------

  ghost predicate Legal(c: Call) { c.Attach? ==> AreUsers(c.fs) }

  // A call on list w leaves the other lists alone, and keeps track of the running callbacks.
  lemma FramesKept(d: Deferred, w: Which, e: Event)
    requires AllOk(d) && FramesOk(d)
    requires e.Add? || e.FireWith? || (e == Return(false) && d.frames != [] && d.frames[|d.frames| - 1] == w)
    ensures FramesOk(Apply(d, w, e)) && AllOk(Apply(d, w, e))
  {
    hide AllOk, Ok, Apply, Do;
    ApplyKeeps(d, w, e);
    assert Sane(List(d, w).s) by { SaneLists(d); }
    ApplyFrames(d, w, e);
    DoIs(List(d, w), e);
    hide List;
    if e.Add? || e.FireWith? {
      if List(d, w).s.firing { FiringStays(List(d, w).fl, List(d, w).s, e); }
    } else {
      assert w in d.frames;
    }
  }

  lemma SaneLists(d: Deferred)
    requires AllOk(d)
    ensures forall w :: Sane(List(d, w).s) && Inv(List(d, w).fl, List(d, w).s)
    ensures d.done.fl == ONCE_FLAGS && d.fail.fl == ONCE_FLAGS && d.progress.fl == NOTIFY_FLAGS
  {
    hide Run, RoundsOk, Inv;
  }

  lemma DoIs(t: Tracked, e: Event)
    requires Sane(t.s)
    ensures Do(t, e) == Tracked(t.fl, Step(t.fl, t.s, e), t.es + [e])
  {
    hide Step;
  }

  // The state and the lists still agree after a call on one list that does not settle.
  lemma AgreesKept(d: Deferred, w: Which, e: Event)
    requires AllOk(d) && Agrees(d)
    requires (e.Add? && AreUsers(e.fs)) || (e.FireWith? && (w == ProgressList || d.state != IsPending))
      || (e == Return(false) && List(d, w).s.firing)
    ensures Agrees(Apply(d, w, e)) && Apply(d, w, e).state == d.state
  {
    hide AllOk, Ok, Apply, Do, Fresh, Won, Step;
    SaneLists(d);
    ApplyFrames(d, w, e);
    DoIs(List(d, w), e);
    var s, r := List(d, w).s, Apply(d, w, e);
    assert r.done == List(r, DoneList) && r.fail == List(r, FailList) && r.progress == List(r, ProgressList);
    assert d.done == List(d, DoneList) && d.fail == List(d, FailList) && d.progress == List(d, ProgressList);
    if w == ProgressList {
      ProgressKept(s, e);
    } else {
      hide Sane, Inv;
      OnceKept(s, e);
    }
  }

  lemma ProgressKept(s: State, e: Event)
    requires Inv(NOTIFY_FLAGS, s) && Sane(s) && (e.Add? || e.FireWith? || (e == Return(false) && s.firing))
    ensures Step(NOTIFY_FLAGS, s, e).stack.Some? <==> s.stack.Some?
  {
    if s.stack == None {
      NoStackStays(NOTIFY_FLAGS, s, e);
    } else {
      hide AddedTo, FiredWith, Returned, FiredOf;
      match e
      case Add(fs) => FifoAdd(NOTIFY_FLAGS, s, fs);
      case FireWith(v) => FifoFiredWith(NOTIFY_FLAGS, s, v);
      case Return(b) => FifoReturn(NOTIFY_FLAGS, s, b);
    }
  }

  lemma OnceKept(s: State, e: Event)
    requires Inv(ONCE_FLAGS, s) && Sane(s)
    requires (e.Add? && AreUsers(e.fs)) || (e.FireWith? && (Won(s) || Lost(s))) || (e == Return(false) && s.firing)
    ensures Fresh(s) ==> Fresh(Step(ONCE_FLAGS, s, e))
    ensures Won(s) ==> Won(Step(ONCE_FLAGS, s, e))
    ensures Lost(s) ==> Lost(Step(ONCE_FLAGS, s, e))
  {
    match e
    case Add(fs) =>
      if Fresh(s) { FreshAdd(s, fs); }
      if Won(s) { WonAdd(s, fs); }
      hide Fresh, Won, Added;
    case FireWith(v) =>
      hide Callbacks.Fire, Fresh;
    case Return(b) =>
      if Won(s) { WonReturn(s); }
      hide Returned, Won;
  }

  // Every call that does not settle is a call on one list.
  lemma KeptBy(d: Deferred, w: Which, e: Event)
    requires Good(d)
    requires (e.Add? && AreUsers(e.fs)) || (e.FireWith? && (w == ProgressList || d.state != IsPending))
      || (e == Return(false) && d.frames != [] && d.frames[|d.frames| - 1] == w)
    ensures Good(Apply(d, w, e)) && Apply(d, w, e).state == d.state
  {
    assert d.frames != [] && d.frames[|d.frames| - 1] == w ==> w in d.frames;
    assert w in d.frames ==> List(d, w).s.firing;
    FramesKept(d, w, e);
    hide FramesOk;
    AgreesKept(d, w, e);
  }

  // A fired list, or a lost one, does not fire its own callbacks again.
  lemma SendAgain(d: Deferred, w: Which, v: Value)
    requires Good(d) && w != ProgressList && d.state != IsPending
    ensures Stepped(d, Send(w, v)) == Apply(d, w, FireWith(v))
  {
    KeptBy(d, w, FireWith(v));
    var t := Apply(d, w, FireWith(v));
    assert Won(List(t, w).s) || Lost(List(t, w).s);
    RestingRun(t, w);
    hide Apply, Ok, RunOwn, Won;
  }

  /** Every call keeps the agreement of state and lists, and the state leaves pending at most once. */
  lemma StepKeepsGood(d: Deferred, c: Call)
    requires Good(d) && Legal(c)
    ensures Good(Stepped(d, c))
    ensures d.state != IsPending ==> Stepped(d, c).state == d.state
    ensures d.state == IsPending ==>
      Stepped(d, c).state == if c.Send? && c.w == DoneList then Resolved
        else if c.Send? && c.w == FailList then Rejected else IsPending
  {
    match c
    case Attach(w, fs) => KeptBy(d, w, Add(fs));
    case Send(w, v) =>
      if w != ProgressList && d.state == IsPending {
        Settles(d, w, v);
      } else {
        KeptBy(d, w, FireWith(v));
        if w != ProgressList { SendAgain(d, w, v); }
      }
    case Leave =>
      if d.frames != [] { KeptBy(d, d.frames[|d.frames| - 1], Return(false)); }
  }

  // What the calls attach to a list and send to it.
  function Attached(cs: seq<Call>, w: Which): seq<Fn> {
    if cs == [] then []
    else Attached(cs[..|cs| - 1], w) + match cs[|cs| - 1] case Attach(x, fs) => (if x == w then fs else []) case _ => []
  }

  function Sends(cs: seq<Call>, w: Which): seq<Value> {
    if cs == [] then []
    else Sends(cs[..|cs| - 1], w) + match cs[|cs| - 1] case Send(x, v) => (if x == w then [v] else []) case _ => []
  }

  // The first resolve or reject.
  function FirstSettling(cs: seq<Call>): (f: Option<Call>)
    ensures f.Some? ==> f.value.Send? && f.value.w != ProgressList
  {
    if cs == [] then None
    else
      var f, c := FirstSettling(cs[..|cs| - 1]), cs[|cs| - 1];
      if f == None && c.Send? && c.w != ProgressList then Some(c) else f
  }

  // The calls of resolve and reject among calls.
  function Settlings(cs: seq<Call>): seq<Call> {
    if cs == [] then []
    else Settlings(cs[..|cs| - 1]) + var c := cs[|cs| - 1]; if c.Send? && c.w != ProgressList then [c] else []
  }

  lemma {:induction false} FirstOfSettlings(cs: seq<Call>)
    ensures FirstSettling(cs) == if Settlings(cs) == [] then None else Some(Settlings(cs)[0])
  {
    if cs != [] { FirstOfSettlings(cs[..|cs| - 1]); }
  }

  function OwnOf(w: Which): seq<Fn> { if w == ProgressList then [] else OWN }

  // The history of a list says what was attached and sent to it.
  ghost predicate Records(es: seq<Event>, fs: seq<Fn>, vs: seq<Value>) {
    Adds(es) == fs && Removes(es) == {} && Fires(es) == vs
  }

  lemma RecordsNext(es: seq<Event>, fs: seq<Fn>, vs: seq<Value>, e: Event)
    requires Records(es, fs, vs) && !e.Remove?
    ensures Records(es + [e], fs + (if e.Add? then e.fs else []), vs + if e.FireWith? then [e.v] else [])
  {
    HistoryNext(es, e);
    hide Adds, Removes, Fires;
  }

  lemma RecordsSettling(es: seq<Event>, fs: seq<Fn>, vs: seq<Value>, v: Value)
    requires Records(es, fs, vs)
    ensures Records(es + [FireWith(v)] + Returns(3), fs, vs + [v])
  {
    RecordsNext(es, fs, vs, FireWith(v));
    var h, b := es + [FireWith(v)], Return(false);
    RecordsNext(h, fs + [], vs + [v], b);
    RecordsNext(h + [b], fs + [] + [], vs + [v] + [], b);
    RecordsNext(h + [b] + [b], fs + [] + [] + [], vs + [v] + [] + [], b);
    hide Records;
    assert fs + [] + [] + [] + [] == fs && vs + [v] + [] + [] + [] == vs + [v];
    assert Returns(1) == [] + [b] && Returns(2) == [] + [b] + [b] && Returns(3) == [] + [b] + [b] + [b];
    assert h + [b] + [b] + [b] == h + Returns(3);
  }

  const START: Deferred :=
    Deferred(Tracked(ONCE_FLAGS, INITIAL.(list := Some(OWN)), [Add(OWN)]),
      Tracked(ONCE_FLAGS, INITIAL.(list := Some(OWN)), [Add(OWN)]),
      Tracked(NOTIFY_FLAGS, INITIAL, []), IsPending, [])

  lemma StartIsGood()
    ensures Good(START) && Records([Add(OWN)], OWN, []) && Records([], [], [])
  {
    OwnAdded();
    HistoryNext([], Add(OWN));
    assert [] + [Add(OWN)] == [Add(OWN)] && [] + OWN == OWN;
    hide Run;
  }

  lemma OwnListed()
    ensures AddedTo(ONCE_FLAGS, INITIAL, OWN) == INITIAL.(list := Some(OWN))
  {
    AddedAll([], OWN);
    assert [] + OWN == OWN;
  }

  lemma OwnAdded()
    ensures Run(ONCE_FLAGS, [Add(OWN)]) == INITIAL.(list := Some(OWN)) && Run(NOTIFY_FLAGS, []) == INITIAL
  {
    AddedAll([], OWN);
    hide Added;
    assert [Add(OWN)][..0] == [] && [] + OWN == OWN;
    assert Run(ONCE_FLAGS, []) == INITIAL;
  }

  ghost predicate AllLegal(cs: seq<Call>) { forall i :: 0 <= i < |cs| ==> Legal(cs[i]) }

  // The deferred after calls.
  ghost function After(cs: seq<Call>): (d: Deferred)
    requires AllLegal(cs)
    ensures Good(d)
  {
    if cs == [] then StartIsGood(); START
    else
      var d := After(cs[..|cs| - 1]);
      StepKeepsGood(d, cs[|cs| - 1]);
      Stepped(d, cs[|cs| - 1])
  }

  ghost predicate Told(d: Deferred, cs: seq<Call>) {
    && (forall w :: Records(List(d, w).es, OwnOf(w) + Attached(cs, w), Sends(cs, w)))
    && (match FirstSettling(cs)
        case None => d.state == IsPending && Sends(cs, DoneList) == [] && Sends(cs, FailList) == []
        case Some(c) => c.Send? && d.state == (if c.w == DoneList then Resolved else Rejected) && c.w != ProgressList
                        && Sends(cs, c.w) != [] && Sends(cs, c.w)[0] == c.v)
  }

  lemma CallNext(cs: seq<Call>, c: Call, w: Which)
    ensures Attached(cs + [c], w) == Attached(cs, w) + (if c.Attach? && c.w == w then c.fs else [])
    ensures Sends(cs + [c], w) == Sends(cs, w) + (if c.Send? && c.w == w then [c.v] else [])
    ensures FirstSettling(cs + [c]) == if FirstSettling(cs) == None && c.Send? && c.w != ProgressList then Some(c)
      else FirstSettling(cs)
  {
    assert (cs + [c])[..|cs|] == cs;
  }

  // What a call adds to the history of a list.
  lemma HistoryOf(d: Deferred, c: Call, w: Which, fs: seq<Fn>, vs: seq<Value>)
    requires Good(d) && Legal(c) && Records(List(d, w).es, fs, vs)
    ensures Records(List(Stepped(d, c), w).es, fs + (if c.Attach? && c.w == w then c.fs else []),
      vs + if c.Send? && c.w == w then [c.v] else [])
  {
    hide Records, Run, RoundsOk, Inv, RunOwn, Fresh, Won, Lost;
    var h := List(d, w).es;
    assert fs + [] == fs && vs + [] == vs;
    if c.Send? && c.w != ProgressList && d.state == IsPending {
      Settles(d, c.w, c.v);
      RecordsSettling(h, fs, vs, c.v);
      RecordsNext(h, fs, vs, Disable);
      RecordsNext(h, fs, vs, Lock);
      hide Stepped;
    } else if c.Send? && c.w != ProgressList {
      SendAgain(d, c.w, c.v);
      RecordsNext(h, fs, vs, FireWith(c.v));
      hide Stepped;
    } else {
      RecordsNext(h, fs, vs, Return(false));
      if c.Attach? { RecordsNext(h, fs, vs, Add(c.fs)); }
      if c.Send? { RecordsNext(h, fs, vs, FireWith(c.v)); }
    }
  }

  lemma ToldStep(d: Deferred, cs: seq<Call>, c: Call)
    requires Good(d) && Legal(c) && Told(d, cs)
    ensures Told(Stepped(d, c), cs + [c])
  {
    hide Good, AllOk, Stepped, Records, Attached, Sends, FirstSettling;
    StepKeepsGood(d, c);
    GoodIsOk(d);
    var r := Stepped(d, c);
    forall w ensures Records(List(r, w).es, OwnOf(w) + Attached(cs + [c], w), Sends(cs + [c], w)) {
      ToldOf(d, cs, c, w);
    }
    CallNext(cs, c, DoneList);
    CallNext(cs, c, FailList);
  }

  lemma GoodIsOk(d: Deferred)
    requires Good(d)
    ensures AllOk(d)
  {
    hide AllOk, FramesOk, Agrees;
  }

  lemma ToldOf(d: Deferred, cs: seq<Call>, c: Call, w: Which)
    requires Good(d) && Legal(c) && Told(d, cs)
    ensures Records(List(Stepped(d, c), w).es, OwnOf(w) + Attached(cs + [c], w), Sends(cs + [c], w))
  {
    hide Good, Stepped, Records, Attached, Sends, FirstSettling, List;
    CallNext(cs, c, w);
    HistoryOf(d, c, w, OwnOf(w) + Attached(cs, w), Sends(cs, w));
    var more := if c.Attach? && c.w == w then c.fs else [];
    assert OwnOf(w) + (Attached(cs, w) + more) == OwnOf(w) + Attached(cs, w) + more;
  }

  lemma {:induction false} ToldAfter(cs: seq<Call>)
    requires AllLegal(cs)
    ensures Told(After(cs), cs)
  {
    hide Good, Told, Stepped;
    if cs == [] {
      ToldStart();
    } else {
      var n := |cs| - 1;
      ToldAfter(cs[..n]);
      ToldStep(After(cs[..n]), cs[..n], cs[n]);
      assert cs == cs[..n] + [cs[n]];
    }
  }

  lemma ToldStart()
    ensures Told(START, [])
  {
    hide Records, Good;
    StartIsGood();
    forall w ensures Records(List(START, w).es, OwnOf(w) + Attached([], w), Sends([], w)) {
      assert OwnOf(w) + Attached([], w) == OwnOf(w);
    }
  }

  /** Whatever is called and from wherever: while nothing was resolved or rejected the deferred is pending and
      no done or fail callback has been called. The first resolve or reject decides the state for good; the
      other list never calls anything; and on the list that won every callback attached, before or after, is
      called exactly once, in the order of attachment, with the arguments of that first call. */
  lemma WinnersAreCalledOnce(cs: seq<Call>)
    requires AllLegal(cs)
    ensures
      var d := After(cs);
      match FirstSettling(cs)
      case None => d.state == IsPending && d.done.s.rounds == [] && d.fail.s.rounds == []
      case Some(c) =>
        var w, won := c.w, List(d, c.w).s;
        && c.Send? && w != ProgressList && d.state == (if w == DoneList then Resolved else Rejected)
        && List(d, Other(w)).s.rounds == []
        && AllCalled(won.rounds) + Waiting(won) == OWN + Attached(cs, w) && OneValue(won.rounds, c.v)
        && (w !in d.frames ==> AllCalled(won.rounds) == OWN + Attached(cs, w))
  {
    hide AllOk, FramesOk;
    var d := After(cs);
    ToldAfter(cs);
    match FirstSettling(cs)
    case None =>
    case Some(c) =>
      assert Lost(List(d, Other(c.w)).s) && Won(List(d, c.w).s);
      WinnerAccount(d, cs, c.w);
      hide Good, Told, FirstSettling, Attached, Sends;
  }

  lemma WinnerAccount(d: Deferred, cs: seq<Call>, w: Which)
    requires Good(d) && Told(d, cs) && w != ProgressList && Won(List(d, w).s)
    ensures
      var won := List(d, w).s;
      && Sends(cs, w) != [] && OneValue(won.rounds, Sends(cs, w)[0])
      && AllCalled(won.rounds) + Waiting(won) == OWN + Attached(cs, w)
      && (w !in d.frames ==> AllCalled(won.rounds) == OWN + Attached(cs, w))
  {
    var t, adds := List(d, w), OwnOf(w) + Attached(cs, w);
    assert Records(t.es, adds, Sends(cs, w));
    assert Ok(t) && t.fl == ONCE_FLAGS && (t.s.firing ==> w in d.frames);
    hide Good, Told, Attached, Sends, Run, AllCalled, Waiting, Adds, Fires, Removes, RoundsOk;
    OnceWithMemory(ONCE_FLAGS, t.es);
    AppendedIsAdds(ONCE_FLAGS, t.es);
    NoneWithout(Account(t.s));
    NoneWithout(adds);
    RestingAccount(t.s);
  }

  lemma {:induction false} NoneWithout(s: seq<Fn>)
    ensures Without(s, {}) == s
  {
    if s != [] { NoneWithout(s[1..]); }
  }

  lemma RestingAccount(s: State)
    requires Inv(ONCE_FLAGS, s) && Won(s)
    ensures !s.firing ==> Account(s) == AllCalled(s.rounds)
  {}

  lemma {:induction false} OneSettling(cs: seq<Call>, n: nat)
    requires n <= |cs| && FirstSettling(cs[..n]).Some?
    ensures FirstSettling(cs) == FirstSettling(cs[..n])
  {
    if n < |cs| {
      assert cs[..|cs| - 1][..n] == cs[..n];
      OneSettling(cs[..|cs| - 1], n);
    } else {
      assert cs[..n] == cs;
    }
  }

  // After these calls list w has won with v: the other one calls nothing, and w calls with v only.
  ghost predicate HasWon(cs: seq<Call>, w: Which, v: Value)
    requires AllLegal(cs)
  {
    var d := After(cs);
    && d.state == (if w == DoneList then Resolved else Rejected)
    && List(d, Other(w)).s.rounds == [] && OneValue(List(d, w).s.rounds, v)
  }

  ghost predicate NothingWon(cs: seq<Call>)
    requires AllLegal(cs)
  {
    After(cs).state == IsPending && After(cs).done.s.rounds == [] && After(cs).fail.s.rounds == []
  }

  /** Of the calls of resolve and reject only the first one counts. */
  lemma FirstSettlingWins(cs: seq<Call>)
    requires AllLegal(cs)
    ensures Settlings(cs) == [] ==> NothingWon(cs)
    ensures Settlings(cs) != [] ==> Settlings(cs)[0].Send? && HasWon(cs, Settlings(cs)[0].w, Settlings(cs)[0].v)
  {
    hide Good, AllCalled, Waiting, Settlings;
    FirstOfSettlings(cs);
    WinnersAreCalledOnce(cs);
  }

  // While nothing is settled the progress list is neither locked nor disabled.
  lemma {:induction false} ProgressOpen(cs: seq<Call>)
    requires AllLegal(cs) && FirstSettling(cs) == None
    ensures Open(After(cs).progress.es)
  {
    if cs != [] {
      hide Open;
      var n := |cs| - 1;
      assert cs == cs[..n] + [cs[n]];
      CallNext(cs[..n], cs[n], DoneList);
      ProgressOpen(cs[..n]);
      ToldAfter(cs[..n]);
      OpenNext(After(cs[..n]), cs[n]);
    }
  }

  lemma OpenNext(d: Deferred, c: Call)
    requires Good(d) && Legal(c) && d.state == IsPending && !(c.Send? && c.w != ProgressList) && Open(d.progress.es)
    ensures Open(Stepped(d, c).progress.es)
  {
    hide Run, Inv, RoundsOk, Agrees, Step;
    GoodIsOk(d);
  }

  /** As long as nothing is resolved or rejected, notifications are delivered in the order in which they were
      sent, also those sent by callbacks. */
  lemma NotifiesInOrder(cs: seq<Call>)
    requires AllLegal(cs) && FirstSettling(cs) == None
    ensures FiredOf(After(cs).progress.s) == Sends(cs, ProgressList)
    ensures ProgressList !in After(cs).frames ==> FullValues(After(cs).progress.s.rounds) == Sends(cs, ProgressList)
  {
    ProgressOpen(cs);
    ToldAfter(cs);
    var d := After(cs);
    var t := List(d, ProgressList);
    assert Records(t.es, OwnOf(ProgressList) + Attached(cs, ProgressList), Sends(cs, ProgressList));
    assert Ok(t) && t.fl == NOTIFY_FLAGS && (t.s.firing ==> ProgressList in d.frames);
    hide Good, Told, FirstSettling, Attached, Sends, Inv, RoundsOk;
    FiredInOrder(NOTIFY_FLAGS, t.es);
  }

  // ---------- the object ----------

  // A list for one firing with the own callbacks of a deferred on it.
  method OwnList() returns (l: CallbackList)
    ensures fresh(l) && l.flags == ONCE_FLAGS && l.Now() == INITIAL.(list := Some(OWN))
  {
    hide Plain, Flat, AddedTo, RoundsOk;
    OwnListed();
    l := new CallbackList(ONCE_FLAGS);
    l.Add(Plain(OWN));
  }

  class DeferredObject {
    const doneList: CallbackList
    const failList: CallbackList
    const progressList: CallbackList
    var state: Settlement
    ghost var frames: seq<Which>
    ghost var doneEvents: seq<Event>
    ghost var failEvents: seq<Event>
    ghost var progressEvents: seq<Event>

    ghost function Now(): Deferred
      reads this, doneList, failList, progressList
    {
      Deferred(Tracked(doneList.flags, doneList.Now(), doneEvents), Tracked(failList.flags, failList.Now(), failEvents),
        Tracked(progressList.flags, progressList.Now(), progressEvents), state, frames)
    }

    ghost predicate Valid()
      reads this, doneList, failList, progressList
    {
      doneList != failList && doneList != progressList && failList != progressList && Good(Now())
    }

    // The three lists, and the own callbacks of two of them.
    constructor ()
      ensures Valid() && Now() == START && fresh(doneList) && fresh(failList) && fresh(progressList)
    {
      var done := OwnList();
      var fail := OwnList();
      doneList, failList := done, fail;
      progressList := new CallbackList(NOTIFY_FLAGS);
      state := IsPending;
      frames, doneEvents, failEvents, progressEvents := [], [Add(OWN)], [Add(OWN)], [];
      new;
      hide Good;
      StartIsGood();
    }

    function ListOf(w: Which): CallbackList {
      match w case DoneList => doneList case FailList => failList case ProgressList => progressList
    }

    // What a call on list w means for the deferred: the list is as it is now, the rest is known.
    ghost method Note(w: Which, e: Event, was: Deferred)
      requires doneList != failList && doneList != progressList && failList != progressList && Sane(List(was, w).s)
      requires List(Now(), w).s == Step(List(was, w).fl, List(was, w).s, e)
      requires Now() == WithList(was, w, List(was, w).(s := List(Now(), w).s))
      modifies this`frames, this`doneEvents, this`failEvents, this`progressEvents
      ensures Now() == Apply(was, w, e)
    {
      hide Step;
      frames := Apply(was, w, e).frames;
      match w
      case DoneList => doneEvents := doneEvents + [e];
      case FailList => failEvents := failEvents + [e];
      case ProgressList => progressEvents := progressEvents + [e];
    }

    // done, fail and progress.
    method AttachTo(w: Which, args: seq<Arg>)
      requires Valid() && AreUsers(Flat(args))
      modifies this, doneList, failList, progressList
      ensures Valid() && Now() == Stepped(old(Now()), Attach(w, Flat(args)))
    {
      ghost var fs := Flat(args);
      StepKeepsGood(Now(), Attach(w, fs));
      hide Run, Inv, RoundsOk, Agrees, FramesOk, AddedTo;
      ghost var was := Now();
      ListOf(w).Add(args);
      Note(w, Add(fs), was);
      hide Apply;
    }

    // The lists are three, and each is in order.
    ghost predicate Ordered()
      reads this, doneList, failList, progressList
    {
      doneList != failList && doneList != progressList && failList != progressList && AllOk(Now())
    }

    // The work of one of the own callbacks of list w.
    method Work(w: Which, f: Fn)
      requires Ordered() && w != ProgressList
      modifies this, doneList, failList, progressList
      ensures Ordered() && Now() == Effect(old(Now()), w, f)
    {
      EffectKeeps(Now(), w, f);
      SaneLists(Now());
      hide Run, Inv, RoundsOk, Step, Ok;
      ghost var was := Now();
      if f == SET_STATE {
        state := if w == DoneList then Resolved else Rejected;
      } else if f == DISABLE_OTHER {
        DisabledStep(List(was, Other(w)));
        ListOf(Other(w)).DisableList();
        Note(Other(w), Disable, was);
      } else {
        DisabledStep(List(was, ProgressList));
        progressList.LockList();
        Note(ProgressList, Lock, was);
      }
    }

    // The own callback that is running works and returns.
    method RunOwnCallback(w: Which)
      requires Ordered() && w != ProgressList
      modifies this, doneList, failList, progressList
      ensures Ordered() && Now() == RunOwn(old(Now()), w)
    {
      hide AllOk, Ok, Run, Inv, RoundsOk, Step, Effect, RunOwn, Apply;
      SaneLists(Now());
      RunOwnCases(Now(), w);
      var l := ListOf(w);
      if l.firing && l.list.Some? && 0 <= l.firingIndex < |l.list.value|
        && l.list.value[l.firingIndex] <= LOCK_PROGRESS {
        Work(w, l.list.value[l.firingIndex]);
        LeaveList(w);
      }
    }

    // A callback of list w returns.
    method LeaveList(w: Which)
      requires Ordered() && ListOf(w).firing
      modifies this, doneList, failList, progressList
      ensures Ordered() && Now() == Apply(old(Now()), w, Return(false))
    {
      ApplyKeeps(Now(), w, Return(false));
      hide Run, Inv, RoundsOk, Returned;
      ghost var was := Now();
      ListOf(w).Return(false);
      Note(w, Return(false), was);
      hide Apply;
    }

    // The innermost running callback, one of list w, returns.
    method Leave(w: Which)
      requires Valid() && frames != [] && w == frames[|frames| - 1]
      modifies this, doneList, failList, progressList
      ensures Valid() && Now() == Stepped(old(Now()), Call.Leave)
    {
      StepKeepsGood(Now(), Call.Leave);
      assert Ordered() && (w in frames ==> List(Now(), w).s.firing);
      hide AllOk, Agrees, FramesOk, Apply;
      LeaveList(w);
    }

    // resolve, reject and notify.
    method SendTo(w: Which, v: Value)
      requires Valid()
      modifies this, doneList, failList, progressList
      ensures Valid() && Now() == Stepped(old(Now()), Send(w, v))
    {
      StepKeepsGood(Now(), Send(w, v));
      assert Ordered();
      hide Agrees, FramesOk, RunOwn;
      FireList(w, v);
      hide AllOk, Apply;
      if w != ProgressList {
        RunOwnCallback(w);
        RunOwnCallback(w);
        RunOwnCallback(w);
      }
    }

    method FireList(w: Which, v: Value)
      requires Ordered()
      modifies this, doneList, failList, progressList
      ensures Ordered() && Now() == Apply(old(Now()), w, FireWith(v))
    {
      ApplyKeeps(Now(), w, FireWith(v));
      hide Run, Inv, RoundsOk, FiredWith;
      ghost var was := Now();
      ListOf(w).FireWith(v);
      Note(w, FireWith(v), was);
      hide Apply;
    }
  }

  lemma RunOwnCases(d: Deferred, w: Which)
    requires AllOk(d) && w != ProgressList
    ensures
      var s := List(d, w).s;
      if s.firing && s.list.Some? && 0 <= s.index < |s.list.value| && Running(s) <= LOCK_PROGRESS then
        var f := Effect(d, w, Running(s));
          List(f, w) == List(d, w) && AllOk(f) && RunOwn(d, w) == Apply(f, w, Return(false))
      else RunOwn(d, w) == d
  {
    hide Ok, Apply, Effect;
    var s := List(d, w).s;
    if s.firing && s.list.Some? && 0 <= s.index < |s.list.value| && Running(s) <= LOCK_PROGRESS {
      EffectKeeps(d, w, Running(s));
      OwnEffect(d, w, Running(s));
    }
  }

  lemma DisabledStep(t: Tracked)
    requires Sane(t.s)
    ensures Step(t.fl, t.s, Disable) == Disabled(t.s) && Step(t.fl, t.s, Lock) == Locked(t.s)
  {}
}
