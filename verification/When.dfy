/** jQuery.when for several arguments: a counter over promises that settle in any order, some of them before or
    while the arguments are gone through. */
module When {
  import opened Options
  import Deferreds

  // The arguments of a callback become one value: an array, if there are several.
  datatype Value = Nothing | One(v: int) | Many(vs: seq<int>)

  datatype Arg = Plain(v: Value) | Promise

  datatype Settling = Fulfilled(vs: seq<int>) | Failed(vs: seq<int>)

  // What the new deferred got. It takes the first resolve or reject and no other.
  datatype Outcome = Waiting | ResolvedWith(args: seq<Arg>) | RejectedWith(vs: seq<int>)

  // The arguments as they were and as they are, the place of the loop over them, whether it is over, the
  // counter, the outcome, how each promise settled, and the first failure.
  datatype State = State(given: seq<Arg>, args: seq<Arg>, i: nat, over: bool, count: int, outcome: Outcome,
                         settled: seq<Option<Settling>>, failure: Option<seq<int>>)

  // The loop goes on, or ends; a promise that the loop has passed settles.
  datatype Event = Next | End | Settle(j: nat, how: Settling)

  function Pack(vs: seq<int>): Value {
    if |vs| > 1 then Many(vs) else if |vs| == 1 then One(vs[0]) else Nothing
  }

  function Begin(given: seq<Arg>): State {
    State(given, given, 0, false, |given|, Waiting, seq(|given|, _ => None), None)
  }

  // A step that can happen: each promise settles at most once.
  predicate Enabled(s: State, e: Event) {
    match e
    case Next => s.i < |s.given|
    case End => s.i == |s.given| && !s.over
    case Settle(j, how) => j < s.i && j < |s.given| == |s.settled| && s.given[j].Promise? && s.settled[j] == None
  }

  function Resolve(o: Outcome, args: seq<Arg>): Outcome { if o == Waiting then ResolvedWith(args) else o }

  function Reject(o: Outcome, vs: seq<int>): Outcome { if o == Waiting then RejectedWith(vs) else o }

  function Step(s: State, e: Event): State
    requires Enabled(s, e) && |s.args| == |s.given|
  {
    match e
    case Next => s.(i := s.i + 1, count := if s.given[s.i].Promise? then s.count else s.count - 1)
    case End => s.(over := true, outcome := if s.count == 0 then Resolve(s.outcome, s.args) else s.outcome)
    case Settle(j, Fulfilled(vs)) =>
      var args := s.args[j := Plain(Pack(vs))];
      s.(args := args, settled := s.settled[j := Some(Fulfilled(vs))], count := s.count - 1,
         outcome := if s.count - 1 == 0 then Resolve(s.outcome, args) else s.outcome)
    case Settle(j, Failed(vs)) =>
      s.(settled := s.settled[j := Some(Failed(vs))], outcome := Reject(s.outcome, vs),
         failure := if s.failure == None then Some(vs) else s.failure)
  }

  // ---------- what holds at every step ----------

  // Argument k still counts: the loop has not passed it as a plain value, and it is no fulfilled promise.
  predicate Counts(s: State, k: nat)
    requires k < |s.given| == |s.settled|
  {
    if s.given[k].Plain? then k >= s.i else !(s.settled[k].Some? && s.settled[k].value.Fulfilled?)
  }

  function Counting(s: State, n: nat): (c: nat)
    requires n <= |s.given| == |s.settled|
    ensures c == 0 ==> forall k :: 0 <= k < n ==> !Counts(s, k)
    ensures c > 0 ==> exists k :: 0 <= k < n && Counts(s, k)
  {
    if n == 0 then 0 else Counting(s, n - 1) + if Counts(s, n - 1) then 1 else 0
  }

  // The arguments as they are now: fulfilled promises are replaced by their values.
  function ArgNow(s: State, k: nat): Arg
    requires k < |s.given| == |s.settled|
  {
    if s.given[k].Promise? && s.settled[k].Some?
      && s.settled[k].value.Fulfilled? then Plain(Pack(s.settled[k].value.vs)) else s.given[k]
  }

  ghost predicate AllFulfilled(s: State)
    requires |s.given| == |s.settled|
  {
    forall k :: 0 <= k < |s.given| && s.given[k].Promise? ==> s.settled[k].Some? && s.settled[k].value.Fulfilled?
  }

  ghost predicate SomeFailed(s: State) {
    exists k :: 0 <= k < |s.settled| && s.settled[k].Some? && s.settled[k].value.Failed?
  }

  ghost predicate Shape(s: State) {
    && |s.given| == |s.args| == |s.settled| && s.i <= |s.given| && (s.over ==> s.i == |s.given|)
    && (forall k :: 0 <= k < |s.given| && s.settled[k].Some? ==> k < s.i && s.given[k].Promise?)
    && (forall k :: 0 <= k < |s.given| ==> s.args[k] == ArgNow(s, k))
  }

  /** The counter counts what is open; the outcome is the first failure, or the values if all is fulfilled. */
  ghost predicate Inv(s: State) {
    && Shape(s) && s.count == Counting(s, |s.given|)
    && (s.failure.Some? <==> SomeFailed(s))
    && (s.failure.Some? ==> s.outcome == RejectedWith(s.failure.value))
    && (s.failure == None ==> !s.outcome.RejectedWith?)
    && (s.outcome.ResolvedWith? ==> s.count == 0 && s.outcome.args == s.args)
    && (s.over && s.count == 0 ==> s.outcome.ResolvedWith?)
  }

  // Steps that change whether argument j counts, and nothing else of the count.
  lemma {:induction false} CountChanges(s: State, t: State, n: nat, j: nat)
    requires n <= |s.given| == |s.settled| == |t.settled| && t.given == s.given && j < |s.given|
    requires forall k :: 0 <= k < n && k != j ==> (Counts(t, k) <==> Counts(s, k))
    ensures Counting(t, n) == Counting(s, n) + if j < n then
      (if Counts(t, j) then 1 else 0) - (if Counts(s, j) then 1 else 0) else 0
  {
    if n > 0 { CountChanges(s, t, n - 1, j); }
  }

  /** The counter is zero exactly when all arguments have been gone through and all promises are fulfilled. */
  lemma ZeroIff(s: State)
    requires Inv(s) && s.given != []
    ensures s.count == 0 <==> s.i == |s.given| && AllFulfilled(s)
    ensures s.count == 0 ==> !SomeFailed(s)
  {
    var n := |s.given|;
    if s.count == 0 {
      assert !Counts(s, n - 1);
      forall k | 0 <= k < n && s.given[k].Promise? ensures s.settled[k].Some? && s.settled[k].value.Fulfilled? {
        assert !Counts(s, k);
      }
    } else {
      var k :| 0 <= k < n && Counts(s, k);
    }
    if SomeFailed(s) { FailureCounts(s); }
  }

  // ---------- steps and runs ----------

  lemma BeginIsInv(given: seq<Arg>)
    requires given != []
    ensures Inv(Begin(given))
  {
    var s := Begin(given);
    AllCount(s, |given|);
  }

  lemma {:induction false} AllCount(s: State, n: nat)
    requires n <= |s.given| == |s.settled| && forall k :: 0 <= k < |s.given| ==> Counts(s, k)
    ensures Counting(s, n) == n
  {
    if n > 0 { AllCount(s, n - 1); }
  }

  lemma NextKeeps(s: State)
    requires Inv(s) && s.given != [] && Enabled(s, Next)
    ensures Inv(Step(s, Next))
  {
    var t := Step(s, Next);
    CountChanges(s, t, |s.given|, s.i);
    ZeroIff(s);
    assert Shape(t) by { assert forall k :: 0 <= k < |s.given| ==> ArgNow(t, k) == ArgNow(s, k); }
    hide Counting, ArgNow;
  }

  lemma SettleShape(s: State, j: nat, how: Settling)
    requires Shape(s) && Enabled(s, Settle(j, how))
    ensures Shape(Step(s, Settle(j, how)))
    ensures |Step(s, Settle(j, how)).settled| == |s.settled|
    ensures forall k :: 0 <= k < |s.given| && k != j ==> (Counts(Step(s, Settle(j, how)), k) <==> Counts(s, k))
    ensures SomeFailed(Step(s, Settle(j, how))) <==> SomeFailed(s) || how.Failed?
  {
    var t := Step(s, Settle(j, how));
    forall k | 0 <= k < |s.given| ensures t.args[k] == ArgNow(t, k) {}
    if how.Failed? { assert t.settled[j] == Some(how); }
    if SomeFailed(s) {
      var k :| 0 <= k < |s.settled| && s.settled[k].Some? && s.settled[k].value.Failed?;
      assert t.settled[k] == s.settled[k];
    }
  }

  lemma SettleKeeps(s: State, j: nat, how: Settling)
    requires Inv(s) && Enabled(s, Settle(j, how))
    ensures Inv(Step(s, Settle(j, how)))
  {
    var t := Step(s, Settle(j, how));
    SettleShape(s, j, how);
    CountChanges(s, t, |s.given|, j);
    ZeroIff(s);
    assert Counts(s, j) && (Counts(t, j) <==> how.Failed?);
    assert s.count != 0 by { assert !AllFulfilled(s); }
    if SomeFailed(t) && t.count == 0 { FailureCounts(t); }
    hide Shape, Counting, ArgNow;
  }

  lemma FailureCounts(s: State)
    requires Shape(s) && SomeFailed(s)
    ensures Counting(s, |s.given|) > 0
  {
    var k :| 0 <= k < |s.settled| && s.settled[k].Some? && s.settled[k].value.Failed?;
    assert Counts(s, k);
  }

  lemma StepKeeps(s: State, e: Event)
    requires Inv(s) && s.given != [] && Enabled(s, e)
    ensures Inv(Step(s, e)) && Step(s, e).given == s.given
    ensures s.outcome != Waiting ==> Step(s, e).outcome == s.outcome
  {
    match e
    case Next => NextKeeps(s);
    case End =>
      ZeroIff(s);
      EndKeeps(s);
    case Settle(j, how) =>
      SettleKeeps(s, j, how);
      ZeroIff(s);
      assert s.count != 0 by { assert !AllFulfilled(s); }
  }

  lemma EndKeeps(s: State)
    requires Inv(s) && s.given != [] && Enabled(s, End) && (s.count == 0 ==> !SomeFailed(s))
    ensures Inv(Step(s, End))
  {
    var t := Step(s, End);
    assert forall k :: 0 <= k < |s.given| ==> Counts(t, k) == Counts(s, k) && ArgNow(t, k) == ArgNow(s, k);
    CountChanges(s, t, |s.given|, 0);
    hide Counts, Counting, ArgNow;
  }

  ghost predicate IsRun(given: seq<Arg>, es: seq<Event>)
    requires given != []
    decreases |es|, 0
  {
    es == [] || (IsRun(given, es[..|es| - 1]) && Enabled(After(given, es[..|es| - 1]), es[|es| - 1]))
  }

  ghost function After(given: seq<Arg>, es: seq<Event>): (s: State)
    requires given != [] && IsRun(given, es)
    ensures Inv(s) && s.given == given
    decreases |es|, 1
  {
    if es == [] then BeginIsInv(given); Begin(given)
    else
      var s := After(given, es[..|es| - 1]);
      StepKeeps(s, es[|es| - 1]);
      Step(s, es[|es| - 1])
  }

  // The first failure among events.
  function FirstFailure(es: seq<Event>): Option<seq<int>> {
    if es == [] then None
    else
      var f := FirstFailure(es[..|es| - 1]);
      if f == None && es[|es| - 1].Settle? && es[|es| - 1].how.Failed? then Some(es[|es| - 1].how.vs) else f
  }

  lemma {:induction false} FailureIsFirst(given: seq<Arg>, es: seq<Event>)
    requires given != [] && IsRun(given, es)
    ensures After(given, es).failure == FirstFailure(es)
  {
    hide Inv, Pack;
    if es != [] { FailureIsFirst(given, es[..|es| - 1]); }
  }

  // The arguments of a callback as one value: nothing, the only one, or an array of several.
  predicate IsValue(v: Value, vs: seq<int>) {
    match v
    case Nothing => vs == []
    case One(x) => vs == [x]
    case Many(xs) => |xs| > 1 && vs == xs
  }

  // Promise k was fulfilled with vs.
  predicate IsFulfilled(es: seq<Event>, k: nat, vs: seq<int>) { Settle(k, Fulfilled(vs)) in es }

  ghost predicate AllAreFulfilled(given: seq<Arg>, es: seq<Event>) {
    forall k :: 0 <= k < |given| && given[k].Promise? ==> exists vs :: IsFulfilled(es, k, vs)
  }

  // Every argument in its place: a plain value, or what its promise was fulfilled with.
  ghost predicate InPlace(given: seq<Arg>, es: seq<Event>, values: seq<Arg>) {
    && |values| == |given| && (forall k :: 0 <= k < |given| && given[k].Plain? ==> values[k] == given[k])
    && (forall k :: 0 <= k < |given| && given[k].Promise? ==>
      values[k].Plain? && exists vs :: IsFulfilled(es, k, vs) && IsValue(values[k].v, vs))
  }

  lemma SettledStep(s: State, e: Event, k: nat, how: Settling)
    requires Shape(s) && Enabled(s, e) && k < |s.given|
    ensures |Step(s, e).settled| == |s.given|
    ensures Step(s, e).settled[k] == Some(how) <==> s.settled[k] == Some(how) || e == Settle(k, how)
  {
    hide ArgNow;
  }

  lemma {:induction false} SettledAre(given: seq<Arg>, es: seq<Event>, k: nat, how: Settling)
    requires given != [] && IsRun(given, es) && k < |given|
    ensures |After(given, es).settled| == |given|
    ensures After(given, es).settled[k] == Some(how) <==> Settle(k, how) in es
  {
    if es != [] {
      var front, e := es[..|es| - 1], es[|es| - 1];
      var s := After(given, front);
      SettledAre(given, front, k, how);
      assert es == front + [e];
      assert Shape(s);
      hide Inv, Shape, Step;
      SettledStep(s, e, k, how);
    }
  }

  lemma SettledAt(given: seq<Arg>, es: seq<Event>, k: nat)
    requires given != [] && IsRun(given, es) && k < |given| && |After(given, es).settled| == |given|
    ensures
      var o := After(given, es).settled[k];
      && (o.Some? && o.value.Fulfilled? ==> IsFulfilled(es, k, o.value.vs))
      && forall vs :: IsFulfilled(es, k, vs) ==> o == Some(Fulfilled(vs))
  {
    hide After;
    var o := After(given, es).settled[k];
    if o.Some? { SettledAre(given, es, k, o.value); }
    forall vs | IsFulfilled(es, k, vs) ensures o == Some(Fulfilled(vs)) { SettledAre(given, es, k, Fulfilled(vs)); }
  }

  // A state's record of fulfilled promises is that of the events.
  ghost predicate Recorded(s: State, es: seq<Event>) {
    forall k :: 0 <= k < |s.settled| ==>
      && (s.settled[k].Some? && s.settled[k].value.Fulfilled? ==> IsFulfilled(es, k, s.settled[k].value.vs))
      && forall vs :: IsFulfilled(es, k, vs) ==> s.settled[k] == Some(Fulfilled(vs))
  }

  lemma RunIsRecorded(given: seq<Arg>, es: seq<Event>)
    requires given != [] && IsRun(given, es)
    ensures |After(given, es).settled| == |given| && Recorded(After(given, es), es)
  {
    hide After, IsFulfilled, IsRun;
    SettledAre(given, es, 0, Failed([]));
    forall k | 0 <= k < |given| {
      SettledAt(given, es, k);
    }
  }

  lemma FulfilledAre(s: State, es: seq<Event>)
    requires |s.given| == |s.settled| && Recorded(s, es)
    ensures AllFulfilled(s) <==> AllAreFulfilled(s.given, es)
  {
    hide IsFulfilled;
  }

  lemma ValueInPlace(s: State, es: seq<Event>, k: nat)
    requires k < |s.given| == |s.settled| && Recorded(s, es) && AllFulfilled(s)
    ensures s.given[k].Plain? ==> ArgNow(s, k) == s.given[k]
    ensures s.given[k].Promise? ==>
      ArgNow(s, k).Plain? && exists vs :: IsFulfilled(es, k, vs) && IsValue(ArgNow(s, k).v, vs)
  {
    hide IsFulfilled;
    if s.given[k].Promise? {
      var vs := s.settled[k].value.vs;
      assert IsFulfilled(es, k, vs) && IsValue(Pack(vs), vs);
    }
  }

  lemma ValuesInPlace(s: State, es: seq<Event>)
    requires Shape(s) && Recorded(s, es) && AllFulfilled(s)
    ensures InPlace(s.given, es, s.args)
  {
    hide IsFulfilled, ArgNow, Recorded, AllFulfilled, IsValue;
    forall k | 0 <= k < |s.given|
      ensures s.given[k].Plain? ==> s.args[k] == s.given[k]
      ensures s.given[k].Promise? ==>
        s.args[k].Plain? && exists vs :: IsFulfilled(es, k, vs) && IsValue(s.args[k].v, vs)
    {
      ValueInPlace(s, es, k);
    }
  }

  /** In every run, whatever the order in which the promises settle, before or after the loop: the new deferred
      is rejected exactly if a promise has failed, with the arguments of the first failure; when the loop is
      over, it is resolved exactly if all promises are fulfilled, with every value in its own place; it is
      never resolved before all arguments have been gone through. */
  lemma WhenSettles(given: seq<Arg>, es: seq<Event>)
    requires given != [] && IsRun(given, es)
    ensures
      var s := After(given, es);
      && (FirstFailure(es).Some? ==> s.outcome == RejectedWith(FirstFailure(es).value))
      && (FirstFailure(es) == None ==> !s.outcome.RejectedWith?)
      && (s.outcome.ResolvedWith? ==>
        s.i == |given| && AllAreFulfilled(given, es) && InPlace(given, es, s.outcome.args))
      && (s.over && AllAreFulfilled(given, es) ==> s.outcome.ResolvedWith?)
  {
    hide After, IsRun, InPlace, AllAreFulfilled, AllFulfilled, SomeFailed, Recorded, Counting, ArgNow;
    var s := After(given, es);
    FailureIsFirst(given, es);
    ZeroIff(s);
    RunIsRecorded(given, es);
    FulfilledAre(s, es);
    if AllFulfilled(s) { ValuesInPlace(s, es); }
  }

  // ---------- the new deferred ----------

  // What a step asks of the new deferred: to be resolved or rejected.
  function Attempt(s: State, e: Event): Option<Outcome>
    requires Enabled(s, e) && |s.args| == |s.given|
  {
    match e
    case Next => None
    case End => if s.count == 0 then Some(ResolvedWith(s.args)) else None
    case Settle(j, Fulfilled(vs)) => if s.count - 1 == 0 then Some(ResolvedWith(s.args[j := Plain(Pack(vs))])) else None
    case Settle(_, Failed(vs)) => Some(RejectedWith(vs))
  }

  ghost function Attempts(given: seq<Arg>, es: seq<Event>): (os: seq<Outcome>)
    requires given != [] && IsRun(given, es)
    ensures forall i :: 0 <= i < |os| ==> os[i] != Waiting
  {
    if es == [] then []
    else
      var n := |es| - 1;
      Attempts(given, es[..n]) + match Attempt(After(given, es[..n]), es[n]) case Some(o) => [o] case None => []
  }

  // The calls of resolve and reject for attempts; a number stands for the arguments of the attempt at that place.
  function SendsOf(os: seq<Outcome>): (cs: seq<Deferreds.Call>)
    ensures |cs| == |os| && forall i :: 0 <= i < |os| ==>
      cs[i] == Deferreds.Send(if os[i].ResolvedWith? then Deferreds.DoneList else Deferreds.FailList, i)
  {
    seq(|os|, i requires 0 <= i < |os| =>
      Deferreds.Send(if os[i].ResolvedWith? then Deferreds.DoneList else Deferreds.FailList, i))
  }

  lemma AttemptStep(s: State, e: Event)
    requires Enabled(s, e) && |s.args| == |s.given|
    ensures Step(s, e).outcome ==
      if s.outcome == Waiting && Attempt(s, e).Some? then Attempt(s, e).value else s.outcome
  {}

  lemma {:induction false} FirstAttempt(given: seq<Arg>, es: seq<Event>)
    requires given != [] && IsRun(given, es)
    ensures After(given, es).outcome == if Attempts(given, es) == [] then Waiting else Attempts(given, es)[0]
  {
    hide Counting, ArgNow, Step, Attempt;
    if es != [] {
      FirstAttempt(given, es[..|es| - 1]);
      AttemptStep(After(given, es[..|es| - 1]), es[|es| - 1]);
    }
  }

  /** The outcome is what the model of deferreds says: whatever else is called on the new deferred, if its calls
      of resolve and reject are those of this run, its state is that of the outcome, and every callback attached
      to it for that outcome gets the arguments of the first attempt, the outcome's. */
  lemma OutcomeIsDeferreds(given: seq<Arg>, es: seq<Event>, cs: seq<Deferreds.Call>)
    requires given != [] && IsRun(given, es) && Deferreds.AllLegal(cs)
    requires Deferreds.Settlings(cs) == SendsOf(Attempts(given, es))
    ensures
      match After(given, es).outcome
      case Waiting => Deferreds.NothingWon(cs)
      case ResolvedWith(_) =>
        Deferreds.HasWon(cs, Deferreds.DoneList, 0) && [After(given, es).outcome] <= Attempts(given, es)
      case RejectedWith(_) =>
        Deferreds.HasWon(cs, Deferreds.FailList, 0) && [After(given, es).outcome] <= Attempts(given, es)
  {
    hide Inv, Attempts, Deferreds.NothingWon, Deferreds.HasWon;
    FirstAttempt(given, es);
    Deferreds.FirstSettlingWins(cs);
  }

  /** So what the new deferred got first is what it keeps. */
  lemma OutcomeStays(given: seq<Arg>, es: seq<Event>, e: Event)
    requires given != [] && IsRun(given, es + [e]) && IsRun(given, es) && After(given, es).outcome != Waiting
    ensures After(given, es + [e]).outcome == After(given, es).outcome
  {
    assert (es + [e])[..|es|] == es;
    StepKeeps(After(given, es), e);
  }

  // ---------- the call ----------

  // The variables of one call of when, shared by the callbacks it attaches to the promises.
  class WhenCall {
    var args: seq<Arg>
    var i: nat
    var over: bool
    var count: int
    var outcome: Outcome
    ghost var given: seq<Arg>
    ghost var settled: seq<Option<Settling>>
    ghost var failure: Option<seq<int>>

    ghost function Now(): State
      reads this
    {
      State(given, args, i, over, count, outcome, settled, failure)
    }

    ghost predicate Valid()
      reads this
    {
      given != [] && Inv(Now())
    }

    constructor (arguments: seq<Arg>)
      requires |arguments| > 1
      ensures Valid() && Now() == Begin(arguments)
    {
      args, i, over, count, outcome := arguments, 0, false, |arguments|, Waiting;
      given, settled, failure := arguments, seq(|arguments|, _ => None), None;
      new;
      BeginIsInv(arguments);
    }

    // One turn of the loop: callbacks are attached to a promise, anything else is done with.
    method Pass()
      requires Valid() && Enabled(Now(), Next)
      modifies this
      ensures Valid() && Now() == Step(old(Now()), Next)
    {
      StepKeeps(Now(), Next);
      assert args[i] == ArgNow(Now(), i) && settled[i] == None;
      hide Inv;
      if !args[i].Promise? {
        count := count - 1;
      }
      i := i + 1;
    }

    method Finish()
      requires Valid() && Enabled(Now(), End)
      modifies this
      ensures Valid() && Now() == Step(old(Now()), End)
    {
      StepKeeps(Now(), End);
      hide Inv;
      over := true;
      if count == 0 { outcome := Resolve(outcome, args); }
    }

    // resolveFunc(j), called when promise j is fulfilled.
    method Resolved(j: nat, vs: seq<int>)
      requires Valid() && Enabled(Now(), Settle(j, Fulfilled(vs)))
      modifies this
      ensures Valid() && Now() == Step(old(Now()), Settle(j, Fulfilled(vs)))
    {
      StepKeeps(Now(), Settle(j, Fulfilled(vs)));
      assert |args| == |given|;
      hide Inv;
      args := args[j := Plain(Pack(vs))];
      settled := settled[j := Some(Fulfilled(vs))];
      count := count - 1;
      if count == 0 { outcome := Resolve(outcome, args); }
    }

    // deferred.reject, called when promise j fails.
    method Rejected(ghost j: nat, vs: seq<int>)
      requires Valid() && Enabled(Now(), Settle(j, Failed(vs)))
      modifies this
      ensures Valid() && Now() == Step(old(Now()), Settle(j, Failed(vs)))
    {
      StepKeeps(Now(), Settle(j, Failed(vs)));
      hide Inv;
      settled := settled[j := Some(Failed(vs))];
      failure := if failure == None then Some(vs) else failure;
      outcome := Reject(outcome, vs);
    }
  }
}
