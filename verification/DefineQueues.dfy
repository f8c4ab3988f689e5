/** The queues of define calls of require.js, and the calls of main that come of them. What they do does not depend
    on the modules: it is a function of the events of a page. */
module DefineQueues {
  import opened Options
  import opened LoaderState

  // What define leaves for the loader to pick up; no name if the script's own name is meant.
  datatype Record = Record(name: Option<Name>, deps: seq<Name>, callback: Callback)

  // One call of main: its arguments, and the record it was made for; no name for a call of require.
  datatype Call = Call(name: Option<Name>, deps: seq<Name>, callback: Callback, record: Option<Record>)

  predicate NamedOk(r: Record) { r.name.Some? ==> IsDependency(r.name.value) }

  predicate Answers(r: Record, m: Name) { r.name == None || r.name == Some(m) }

  // ---------- the queue ----------

  /** The first record that completes the load of m; the length of the queue if there is none. */
  function FirstFor(q: seq<Record>, m: Name): (k: nat)
    ensures k <= |q|
    ensures forall i :: 0 <= i < k ==> !Answers(q[i], m)
    ensures k < |q| ==> Answers(q[k], m)
  {
    if q == [] || Answers(q[0], m) then 0 else 1 + FirstFor(q[1..], m)
  }

  // The records in front of the first one without a name.
  function FirstUnnamed(q: seq<Record>): (k: nat)
    ensures k <= |q|
    ensures forall i :: 0 <= i < k ==> q[i].name.Some?
    ensures k < |q| ==> q[k].name == None
  {
    if q == [] || q[0].name == None then 0 else 1 + FirstUnnamed(q[1..])
  }

  /** takeGlobalQueue puts the new records before the last one that waits. */
  function Spliced(defQueue: seq<Record>, globalQueue: seq<Record>): seq<Record> {
    var k := if defQueue == [] then 0 else |defQueue| - 1;
    if globalQueue == [] then defQueue else defQueue[..k] + globalQueue + defQueue[k..]
  }

  /** No record is lost or doubled by the splice; the records that waited, and the new ones, stay in order, and the last
      one that waited stays last. */
  lemma SplicedKeepsRecords(d: seq<Record>, g: seq<Record>)
    ensures multiset(Spliced(d, g)) == multiset(d) + multiset(g)
    ensures d == [] ==> Spliced(d, g) == g
    ensures d != [] ==> exists front, last :: d == front + [last] && Spliced(d, g) == front + g + [last]
  {
    var k := if d == [] then 0 else |d| - 1;
    assert d == d[..k] + d[k..];
    if d != [] {
      assert d == d[..k] + [d[k]] && Spliced(d, g) == d[..k] + g + [d[k]];
    }
  }

  // The call of main for a record, under its own name or that of the script.
  function CallFor(r: Record, m: Name): Call { Call(Some(m), r.deps, r.callback, Some(r)) }

  // The calls of main for records with names.
  function NamedCalls(q: seq<Record>): (calls: seq<Call>)
    requires forall i :: 0 <= i < |q| ==> q[i].name.Some?
    ensures |calls| == |q|
  {
    seq(|q|, i requires 0 <= i < |q| => CallFor(q[i], q[i].name.value))
  }

  // The call of main that completes the load of m: for the record in front, or for a script without a define call.
  function OwnCall(q: seq<Record>, m: Name): Call {
    if q == [] then Call(Some(m), [], Literal(Null), None) else CallFor(q[0], m)
  }

  datatype Queues = Queues(globalQueue: seq<Record>, defQueue: seq<Record>, calls: seq<Call>, lost: seq<Record>)

  const NO_QUEUES := Queues([], [], [], [])

  // completeLoad(m) up to resume.
  function Completed(q: Queues, m: Name): Queues {
    var d := Spliced(q.defQueue, q.globalQueue);
    var k := FirstFor(d, m);
    var rest := if k < |d| then d[k + 1..] else [];
    Queues([], rest, q.calls + NamedCalls(d[..k]) + [OwnCall(d[k..], m)], q.lost)
  }

  // resume: everything in front of a record without a name; that record is lost to a mismatch error.
  function Resumed(q: Queues): Queues {
    var d := Spliced(q.defQueue, q.globalQueue);
    var k := FirstUnnamed(d);
    var rest := if k < |d| then d[k + 1..] else [];
    Queues([], rest, q.calls + NamedCalls(d[..k]), q.lost + if k < |d| then [d[k]] else [])
  }

  // What happens to a page: a define call, a require call, the end of a script, resume on its own, checkLoaded.
  datatype Event =
    | DefineEvent(record: Record)
    | RequireEvent(deps: seq<Name>, callback: Callback)
    | LoadEvent(name: Name)
    | ResumeEvent
    | CheckEvent(scriptsInFlight: bool, expired: bool)

  predicate EventOk(e: Event) {
    match e
    case DefineEvent(r) => NamedOk(r)
    case RequireEvent(deps, _) => "exports" !in deps
    case LoadEvent(m) => IsDependency(m)
    case _ => true
  }

  function QueueStep(q: Queues, e: Event): Queues {
    match e
    case DefineEvent(r) => q.(globalQueue := q.globalQueue + [r])
    case RequireEvent(deps, callback) => q.(calls := q.calls + [Call(None, deps, callback, None)])
    case LoadEvent(m) => Resumed(Completed(q, m))
    case ResumeEvent => Resumed(q)
    case CheckEvent(_, _) => q
  }

  function QueueRun(q: Queues, es: seq<Event>): Queues {
    if es == [] then q else QueueStep(QueueRun(q, es[..|es| - 1]), es[|es| - 1])
  }

  // ---------- no record is lost but by mismatch, or handed over twice ----------

  // The records main was called for.
  function Handed(calls: seq<Call>): multiset<Record> {
    if calls == [] then multiset{}
    else
      var c := calls[|calls| - 1];
      Handed(calls[..|calls| - 1]) + if c.record.Some? then multiset{c.record.value} else multiset{}
  }

  lemma HandedNext(calls: seq<Call>, c: Call)
    ensures Handed(calls + [c]) == Handed(calls) + if c.record.Some? then multiset{c.record.value} else multiset{}
  {
    assert (calls + [c])[..|calls|] == calls;
  }

  lemma NamedCallsNext(q: seq<Record>, r: Record)
    requires (forall i :: 0 <= i < |q| ==> q[i].name.Some?) && r.name.Some?
    ensures NamedCalls(q + [r]) == NamedCalls(q) + [CallFor(r, r.name.value)]
  {}

  lemma {:induction false} HandedNamed(calls: seq<Call>, q: seq<Record>)
    requires forall i :: 0 <= i < |q| ==> q[i].name.Some?
    ensures Handed(calls + NamedCalls(q)) == Handed(calls) + multiset(q)
  {
    hide NamedCalls, Handed;
    if q == [] {
      assert calls + NamedCalls(q) == calls;
    } else {
      var p, r := q[..|q| - 1], q[|q| - 1];
      assert q == p + [r];
      HandedNamed(calls, p);
      NamedCallsNext(p, r);
      var c := CallFor(r, r.name.value);
      assert calls + (NamedCalls(p) + [c]) == (calls + NamedCalls(p)) + [c];
      HandedNext(calls + NamedCalls(p), c);
    }
  }

  // The records of these queues: still there, handed to main, or lost.
  function Records(q: Queues): multiset<Record> {
    multiset(q.globalQueue) + multiset(q.defQueue) + Handed(q.calls) + multiset(q.lost)
  }

  // The queue is what is in front of k, the record at k, and the rest.
  lemma CutQueue(d: seq<Record>, k: nat)
    requires k <= |d|
    ensures k == |d| ==> d[..k] == d && d[k..] == []
    ensures k < |d| ==> multiset(d) == multiset(d[..k]) + multiset{d[k]} + multiset(d[k + 1..]) && d[k..][0] == d[k]
  {
    if k < |d| {
      assert d == d[..k] + ([d[k]] + d[k + 1..]);
    }
  }

  lemma CompletedConserves(q: Queues, m: Name)
    ensures Records(Completed(q, m)) == Records(q)
  {
    hide Handed, Spliced, NamedCalls, FirstFor;
    var d := Spliced(q.defQueue, q.globalQueue);
    var k := FirstFor(d, m);
    SplicedKeepsRecords(q.defQueue, q.globalQueue);
    CutQueue(d, k);
    HandedNamed(q.calls, d[..k]);
    HandedNext(q.calls + NamedCalls(d[..k]), OwnCall(d[k..], m));
    if k < |d| {
      SameRecords(q, Completed(q, m), d, multiset{d[k]} + multiset(d[..k]), multiset{});
    } else {
      SameRecords(q, Completed(q, m), d, multiset(d[..k]), multiset{});
    }
  }

  // Records taken off the joined queue are handed over or lost.
  lemma SameRecords(q: Queues, t: Queues, d: seq<Record>, handed: multiset<Record>, lost: multiset<Record>)
    requires multiset(d) == multiset(q.defQueue) + multiset(q.globalQueue) && t.globalQueue == []
    requires multiset(d) == handed + lost + multiset(t.defQueue)
    requires Handed(t.calls) == Handed(q.calls) + handed && multiset(t.lost) == multiset(q.lost) + lost
    ensures Records(t) == Records(q)
  {
    hide Handed;
    forall r ensures Records(t)[r] == Records(q)[r] {
      assert multiset(d)[r] == multiset(q.defQueue)[r] + multiset(q.globalQueue)[r];
    }
  }

  lemma ResumedConserves(q: Queues)
    ensures Records(Resumed(q)) == Records(q)
  {
    hide Handed, Spliced, NamedCalls, FirstUnnamed;
    var d := Spliced(q.defQueue, q.globalQueue);
    var k := FirstUnnamed(d);
    SplicedKeepsRecords(q.defQueue, q.globalQueue);
    CutQueue(d, k);
    HandedNamed(q.calls, d[..k]);
    SameRecords(q, Resumed(q), d, multiset(d[..k]), if k < |d| then multiset{d[k]} else multiset{});
  }

  // The records that define made in these events.
  function Made(es: seq<Event>): multiset<Record> {
    if es == [] then multiset{}
    else
      var e := es[|es| - 1];
      Made(es[..|es| - 1]) + if e.DefineEvent? then multiset{e.record} else multiset{}
  }

  lemma StepConserves(q: Queues, e: Event)
    ensures Records(QueueStep(q, e)) == Records(q) + if e.DefineEvent? then multiset{e.record} else multiset{}
  {
    hide Handed, Completed, Resumed;
    match e
    case DefineEvent(r) => assert multiset(q.globalQueue + [r]) == multiset(q.globalQueue) + multiset{r};
    case RequireEvent(deps, callback) => HandedNext(q.calls, Call(None, deps, callback, None));
    case LoadEvent(m) =>
      CompletedConserves(q, m);
      ResumedConserves(Completed(q, m));
    case ResumeEvent => ResumedConserves(q);
    case CheckEvent(_, _) =>
  }

  /** Every record that define made is still queued, main was called for it exactly once, or it was lost to a
      mismatch error. */
  lemma {:induction false} RunConserves(q: Queues, es: seq<Event>)
    ensures Records(QueueRun(q, es)) == Records(q) + Made(es)
  {
    hide Records, QueueStep;
    if es != [] {
      var n := |es| - 1;
      RunConserves(q, es[..n]);
      StepConserves(QueueRun(q, es[..n]), es[n]);
    }
  }

  // What is left for resume after completeLoad.
  function LeftBy(q: Queues, m: Name): seq<Record> {
    var d := Spliced(q.defQueue, q.globalQueue);
    var k := FirstFor(d, m);
    if k < |d| then d[k + 1..] else []
  }

  /** The end of a script loses a record exactly if one without a name is left behind that of the script; else it
      empties the queues. */
  lemma LoadMismatchIff(q: Queues, m: Name)
    ensures
      var t := QueueStep(q, LoadEvent(m));
      if exists r :: r in LeftBy(q, m) && r.name == None then |t.lost| == |q.lost| + 1
      else t.lost == q.lost && t.globalQueue == t.defQueue == []
  {
    CompletedLeaves(q, m);
    ResumedLoses(Completed(q, m));
    hide Completed, Resumed, LeftBy;
  }

  lemma CompletedLeaves(q: Queues, m: Name)
    ensures
      var t := Completed(q, m);
      t.globalQueue == [] && t.defQueue == LeftBy(q, m) && t.lost == q.lost
  {
    hide Spliced, FirstFor, NamedCalls;
  }

  lemma ResumedLoses(q: Queues)
    requires q.globalQueue == []
    ensures
      var t := Resumed(q);
      if exists r :: r in q.defQueue && r.name == None then |t.lost| == |q.lost| + 1
      else t.lost == q.lost && t.globalQueue == t.defQueue == []
  {
    hide NamedCalls, FirstUnnamed;
    var d := q.defQueue;
    var k := FirstUnnamed(d);
    assert Spliced(d, []) == d;
    hide Spliced;
    if k < |d| { assert d[k] in d; }
    if r :| r in d && r.name == None { UnnamedIsFound(d, r); }
  }

  lemma {:induction false} UnnamedIsFound(q: seq<Record>, r: Record)
    requires r in q && r.name == None
    ensures FirstUnnamed(q) < |q|
  {
    var i :| 0 <= i < |q| && q[i] == r;
    if q[0].name.Some? {
      assert q[1..][i - 1] == r;
      UnnamedIsFound(q[1..], r);
    }
  }

  /** In a run without a mismatch, whenever a script has ended main was called for every record so far, once. */
  lemma RunWithoutMismatch(es: seq<Event>, m: Name)
    requires QueueRun(NO_QUEUES, es + [LoadEvent(m)]).lost == []
    ensures Handed(QueueRun(NO_QUEUES, es + [LoadEvent(m)]).calls) == Made(es)
  {
    var q := QueueRun(NO_QUEUES, es);
    MadeNext(es, LoadEvent(m));
    RunConserves(NO_QUEUES, es + [LoadEvent(m)]);
    LoadMismatchIff(q, m);
    var t := QueueRun(NO_QUEUES, es + [LoadEvent(m)]);
    hide QueueRun, QueueStep, LeftBy, Made;
    assert t.globalQueue == t.defQueue == t.lost == [];
    assert Records(t) == Handed(t.calls);
    assert Records(NO_QUEUES) == multiset{};
  }

  lemma MadeNext(es: seq<Event>, e: Event)
    ensures Made(es + [e]) == Made(es) + if e.DefineEvent? then multiset{e.record} else multiset{}
    ensures forall q :: QueueRun(q, es + [e]) == QueueStep(QueueRun(q, es), e)
  {
    assert (es + [e])[..|es|] == es;
    hide QueueStep;
  }

  // A call for a record has its dependencies and its callback, under its name or that of the script.
  predicate CallOk(c: Call) {
    c.record.Some? ==>
      && c.name.Some? && Answers(c.record.value, c.name.value)
      && c.deps == c.record.value.deps && c.callback == c.record.value.callback
  }

  lemma {:induction false} CallsAreOk(q: Queues, es: seq<Event>)
    requires forall c :: c in q.calls ==> CallOk(c)
    ensures forall c :: c in QueueRun(q, es).calls ==> CallOk(c)
  {
    hide QueueStep, CallOk;
    if es != [] {
      var n := |es| - 1;
      CallsAreOk(q, es[..n]);
      StepCallsOk(QueueRun(q, es[..n]), es[n]);
    }
  }

  lemma StepCallsOk(q: Queues, e: Event)
    requires forall c :: c in q.calls ==> CallOk(c)
    ensures forall c :: c in QueueStep(q, e).calls ==> CallOk(c)
  {
    match e
    case LoadEvent(m) =>
      CompletedCallsOk(q, m);
      ResumedCallsOk(Completed(q, m));
      hide Completed, Resumed;
    case ResumeEvent => ResumedCallsOk(q);
    case _ =>
  }

  lemma CompletedCallsOk(q: Queues, m: Name)
    requires forall c :: c in q.calls ==> CallOk(c)
    ensures forall c :: c in Completed(q, m).calls ==> CallOk(c)
  {
    hide FirstFor, Spliced;
  }

  lemma ResumedCallsOk(q: Queues)
    requires forall c :: c in q.calls ==> CallOk(c)
    ensures forall c :: c in Resumed(q).calls ==> CallOk(c)
  {
    hide FirstUnnamed, Spliced;
  }

  // ---------- calls of main and managers ----------

  // The calls of require among these calls.
  function Unnamed(calls: seq<Call>): nat {
    if calls == [] then 0
    else Unnamed(calls[..|calls| - 1]) + if calls[|calls| - 1].name == None then 1 else 0
  }

  // The manager a call is about, after n calls of require.
  function IdOf(c: Call, n: nat): Id { if c.name.Some? then Named(c.name.value) else Anonymous(n) }

  /** The call that a manager has its dependencies and its callback from: the first one about it. */
  function CallOf(calls: seq<Call>, id: Id): Option<Call> {
    if calls == [] then None
    else
      var past, c := calls[..|calls| - 1], calls[|calls| - 1];
      if CallOf(past, id).Some? then CallOf(past, id)
      else if id == IdOf(c, Unnamed(past)) then Some(c)
      else None
  }

  // Whether some manager lists module n.
  predicate Asked(calls: seq<Call>, n: Name) {
    calls != [] &&
    var past, c := calls[..|calls| - 1], calls[|calls| - 1];
    Asked(past, n) || (CallOf(past, IdOf(c, Unnamed(past))) == None && n in c.deps)
  }

  /** Whether some manager listed module n when main was first called for it. */
  predicate AskedBefore(calls: seq<Call>, n: Name) {
    calls != [] &&
    var past, c := calls[..|calls| - 1], calls[|calls| - 1];
    if CallOf(past, Named(n)).Some? then AskedBefore(past, n) else c.name == Some(n) && Asked(past, n)
  }

  lemma CallsNext(calls: seq<Call>, c: Call)
    ensures
      var now, own := calls + [c], IdOf(c, Unnamed(calls));
      && Unnamed(now) == Unnamed(calls) + (if c.name == None then 1 else 0)
      && (forall id ::
        CallOf(now, id) == if CallOf(calls, id).Some? || id != own then CallOf(calls, id) else Some(c))
      && (forall n :: Asked(now, n) <==> Asked(calls, n) || (CallOf(calls, own) == None && n in c.deps))
      && (forall n :: AskedBefore(now, n) <==>
        if CallOf(calls, Named(n)).Some? then AskedBefore(calls, n) else c.name == Some(n) && Asked(calls, n))
  {
    assert (calls + [c])[..|calls|] == calls && (calls + [c])[|calls|] == c;
  }

  // What main gives the manager.
  ghost predicate FromCall(m: Manager, c: Call) {
    && m.attached && m.depArray == c.deps && m.callback == c.callback
    && m.usingExports == ("exports" in c.deps) && m.usingModule == ("module" in c.deps)
  }

  // A module's own name after exports has a callback exactly if the module had been asked for.
  ghost predicate OwnGiven(m: Manager, n: Name, asked: bool) {
    forall i :: SelfAfterExports(n, m.depArray, i) ==> (i in m.depCallbacks <==> asked)
  }

  /** main has dealt with exactly the modules and calls of require it was called for, with what the first call about
      each gave; the other managers are those of modules that something lists. */
  ghost predicate FromCalls(ms: map<Id, Manager>, calls: seq<Call>, counter: nat) {
    && counter == Unnamed(calls)
    && (forall id :: (id in ms && ms[id].attached) <==> CallOf(calls, id).Some?)
    && (forall id :: CallOf(calls, id).Some? ==> FromCall(ms[id], CallOf(calls, id).value))
    && (forall n :: CallOf(calls, Named(n)).Some? ==> OwnGiven(ms[Named(n)], n, AskedBefore(calls, n)))
    && (forall n :: Named(n) in ms <==> CallOf(calls, Named(n)).Some? || (IsDependency(n) && Asked(calls, n)))
  }

  lemma FlagsFromCalls(ms: map<Id, Manager>, calls: seq<Call>, counter: nat)
    requires FromCalls(ms, calls, counter)
    ensures forall id :: id in ms && ms[id].attached ==> Flags(ms[id])
  {
    hide OwnGiven, CallOf;
  }

  lemma OwnGivenKept(a: Manager, b: Manager, n: Name, asked: bool)
    requires OwnGiven(a, n, asked) && KeepsManager(a, b)
    ensures OwnGiven(b, n, asked)
  {
    hide SelfAfterExports;
  }

  lemma SameFromCall(m: Manager, c: Call, d: Call)
    requires FromCall(m, c) && d.deps == c.deps && d.callback == c.callback
    ensures FromCall(m, d)
  {}

  // The manager as main leaves it: a before its dependencies, b behind them.
  lemma BuiltIsGiven(a: Manager, b: Manager, m: Manager, id: Id, arr: seq<Name>, callback: Callback, requested: bool)
    requires a.callback == callback && !a.usingExports && !a.usingModule
    requires Took(a, b, id, arr, |arr|, requested) && KeepsManager(b, m) && m.depArray == arr
    ensures FromCall(m, Call(None, arr, callback, None))
    ensures id.Named? ==> OwnGiven(m, id.name, requested)
  {
    assert arr[..|arr|] == arr;
    assert forall n, j: nat :: SelfAfterExports(n, arr, j) ==> j < |arr|;
    hide SelfAfterExports;
  }

  lemma NothingCalled()
    ensures FromCalls(map[], [], 0)
  {}

  // A call about a manager that main has dealt with before.
  lemma FromCallsAgain(ms: map<Id, Manager>, calls: seq<Call>, counter: nat, c: Call)
    requires FromCalls(ms, calls, counter) && c.name.Some?
    requires Named(c.name.value) in ms && ms[Named(c.name.value)].attached
    ensures FromCalls(ms, calls + [c], counter)
  {
    CallsNext(calls, c);
    hide CallOf, Asked, AskedBefore, Unnamed, FromCall, OwnGiven, IsDependency;
  }

  // A call about a new one, id.
  lemma FromCallsNext(a: map<Id, Manager>, b: map<Id, Manager>, calls: seq<Call>, counter: nat, c: Call)
    requires FromCalls(a, calls, counter) && Keeps(a, b, {IdOf(c, counter)})
    requires
      var id := IdOf(c, counter);
      && (id in a ==> !a[id].attached) && id in b && b[id].attached && FromCall(b[id], c)
      && (id.Named? ==> OwnGiven(b[id], id.name, id in a))
      && (forall n :: Named(n) in b <==> Named(n) in a || Named(n) == id || (IsDependency(n) && n in c.deps))
      && (c.name.Some? ==> IsDependency(c.name.value))
    ensures FromCalls(b, calls + [c], counter + if c.name == None then 1 else 0)
  {
    CallsNext(calls, c);
    hide CallOf, Asked, AskedBefore, Unnamed, FromCall, OwnGiven, IsDependency, KeepsFields;
    var now := calls + [c];
    forall id | CallOf(now, id).Some? ensures FromCall(b[id], CallOf(now, id).value) {
      if CallOf(calls, id).Some? { FromCallKept(a[id], b[id], CallOf(calls, id).value); }
    }
    forall n | CallOf(now, Named(n)).Some? ensures OwnGiven(b[Named(n)], n, AskedBefore(now, n)) {
      if CallOf(calls, Named(n)).Some? { OwnGivenKept(a[Named(n)], b[Named(n)], n, AskedBefore(calls, n)); }
    }
    assert forall id :: (id in b && b[id].attached) <==> CallOf(now, id).Some?;
    assert forall n :: Named(n) in b <==> CallOf(now, Named(n)).Some? || (IsDependency(n) && Asked(now, n));
  }

  lemma FromCallKept(a: Manager, b: Manager, c: Call)
    requires FromCall(a, c) && KeepsManager(a, b)
    ensures FromCall(b, c)
  {}

  lemma FromCallsKept(a: map<Id, Manager>, b: map<Id, Manager>, calls: seq<Call>, counter: nat)
    requires FromCalls(a, calls, counter) && Keeps(a, b, {}) && a.Keys == b.Keys
    ensures FromCalls(b, calls, counter)
  {
    hide CallOf, Asked, AskedBefore, Unnamed, FromCall, OwnGiven, IsDependency, KeepsFields;
    forall id | CallOf(calls, id).Some? ensures FromCall(b[id], CallOf(calls, id).value) {
      FromCallKept(a[id], b[id], CallOf(calls, id).value);
    }
    forall n | CallOf(calls, Named(n)).Some? ensures OwnGiven(b[Named(n)], n, AskedBefore(calls, n)) {
      OwnGivenKept(a[Named(n)], b[Named(n)], n, AskedBefore(calls, n));
    }
  }

  // No waiting module lists its own name after exports without having been asked for before.
  ghost predicate OwnWereAsked(waiting: set<Id>, calls: seq<Call>) {
    forall n, i ::
      (Named(n) in waiting && CallOf(calls, Named(n)).Some?
      && SelfAfterExports(n, CallOf(calls, Named(n)).value.deps, i)) ==> AskedBefore(calls, n)
  }

  /** Once everything has arrived, forceExec finds every callback it calls if and only if no waiting module lists its
      own name after exports without having been asked for before. */
  lemma GapIff(s: State, calls: seq<Call>, counter: nat, forced: bool)
    requires Inv(s, {}, {}) && AllSeen(s) && IdsOk(s.managers.Keys, counter) && EarlyOk(s.managers, s.early, forced)
    requires FromCalls(s.managers, calls, counter)
    ensures NoGap(s) <==> OwnWereAsked(s.waiting, calls)
  {
    hide Inv, EarlyOk, FromCalls, NoSelfGap, NoGap, OwnWereAsked, AllSeen, IdsOk;
    NoGapIff(s, counter, forced);
    OwnGapIff(s, calls, counter);
  }

  // Whether or not everything has arrived.
  lemma OwnGapIff(s: State, calls: seq<Call>, counter: nat)
    requires FromCalls(s.managers, calls, counter)
    ensures NoSelfGap(s) <==> OwnWereAsked(s.waiting, calls)
  {
    hide CallOf, Asked, AskedBefore, Unnamed, IsDependency, SelfAfterExports;
    if NoSelfGap(s) {
      forall n, i | Named(n) in s.waiting && CallOf(calls, Named(n)).Some?
        && SelfAfterExports(n, CallOf(calls, Named(n)).value.deps, i)
        ensures AskedBefore(calls, n)
      {
        assert OwnAfterExports(s.managers, Listener(Named(n), i));
        assert OwnGiven(s.managers[Named(n)], n, AskedBefore(calls, n));
      }
    }
    if OwnWereAsked(s.waiting, calls) {
      forall k, i | k in s.managers && s.managers[k].attached && k in s.waiting
        && OwnAfterExports(s.managers, Listener(k, i))
        ensures i in s.managers[k].depCallbacks
      {
        assert CallOf(calls, k).Some? && FromCall(s.managers[k], CallOf(calls, k).value);
        assert OwnGiven(s.managers[k], k.name, AskedBefore(calls, k.name));
      }
    }
  }

  // ---------- runs in which no module lists its own name after exports ----------

  // No call is about a module that lists its own name after exports.
  ghost predicate TidyCalls(calls: seq<Call>) {
    forall c :: c in calls && c.name.Some? ==> OwnFree(c.name.value, c.deps)
  }

  lemma {:induction false} CallOfIsCall(calls: seq<Call>, id: Id)
    requires CallOf(calls, id).Some?
    ensures CallOf(calls, id).value in calls && (id.Named? ==> CallOf(calls, id).value.name == Some(id.name))
  {
    var past := calls[..|calls| - 1];
    if CallOf(past, id).Some? { CallOfIsCall(past, id); }
  }

  /** If no module lists its own name after exports, forceExec finds every callback. */
  lemma TidyNoGap(s: State, calls: seq<Call>, counter: nat)
    requires FromCalls(s.managers, calls, counter) && TidyCalls(calls)
    ensures NoSelfGap(s)
  {
    hide FromCalls, NoSelfGap, CallOf, AskedBefore, SelfAfterExports, TidyCalls, OwnWereAsked;
    OwnGapIff(s, calls, counter);
    assert OwnWereAsked(s.waiting, calls) by { TidyAsked(s.waiting, calls); }
  }

  lemma TidyAsked(waiting: set<Id>, calls: seq<Call>)
    requires TidyCalls(calls)
    ensures OwnWereAsked(waiting, calls)
  {
    hide CallOf, AskedBefore, SelfAfterExports;
    forall n | CallOf(calls, Named(n)).Some? ensures OwnFree(n, CallOf(calls, Named(n)).value.deps) {
      CallOfIsCall(calls, Named(n));
    }
  }

  // What is called later does not make earlier calls tidy.
  lemma TidyBefore(q: Queues, e: Event)
    ensures TidyCalls(QueueStep(q, e).calls) ==> TidyCalls(q.calls)
  {
    hide OwnFree, Spliced, FirstFor, FirstUnnamed, NamedCalls;
    if e.LoadEvent? { ResumedGrows(Completed(q, e.name)); }
  }

  // No module of this record lists its own name after exports; an unnamed one can be that of any script.
  ghost predicate RecordTidy(r: Record, scripts: set<Name>) {
    if r.name.Some? then OwnFree(r.name.value, r.deps) else forall m :: m in scripts ==> OwnFree(m, r.deps)
  }

  /** Over scripts with the given names, no record of these events lists its module's own name after exports. */
  ghost predicate TidyEvents(es: seq<Event>, scripts: set<Name>) {
    && (forall r :: DefineEvent(r) in es ==> RecordTidy(r, scripts))
    && (forall m :: LoadEvent(m) in es ==> m in scripts)
  }

  ghost predicate TidyQueues(q: Queues, scripts: set<Name>) {
    && (forall r :: r in q.globalQueue || r in q.defQueue ==> RecordTidy(r, scripts))
    && TidyCalls(q.calls)
  }

  lemma SplicedHas(d: seq<Record>, g: seq<Record>)
    ensures forall r :: r in Spliced(d, g) <==> r in d || r in g
  {
    SplicedKeepsRecords(d, g);
    hide Spliced;
    assert forall r :: r in Spliced(d, g) <==> r in multiset(Spliced(d, g));
    assert forall r :: r in d || r in g <==> r in multiset(d) + multiset(g);
  }

  lemma TidyCompleted(q: Queues, m: Name, scripts: set<Name>)
    requires TidyQueues(q, scripts) && m in scripts
    ensures TidyQueues(Completed(q, m), scripts)
  {
    SplicedHas(q.defQueue, q.globalQueue);
    hide Spliced, OwnFree, FirstFor;
    var d := Spliced(q.defQueue, q.globalQueue);
    var k := FirstFor(d, m);
    assert OwnFree(m, []) by { NothingIsFree(m); }
    assert k < |d| ==> d[k..][0] in d;
    forall c | c in Completed(q, m).calls && c.name.Some? ensures OwnFree(c.name.value, c.deps) {
      if c in NamedCalls(d[..k]) { NamedAreTidy(d[..k], c, scripts); }
    }
  }

  lemma NothingIsFree(m: Name)
    ensures OwnFree(m, [])
  {}

  lemma NamedAreTidy(q: seq<Record>, c: Call, scripts: set<Name>)
    requires (forall i :: 0 <= i < |q| ==> q[i].name.Some?) && c in NamedCalls(q)
    requires forall r :: r in q ==> RecordTidy(r, scripts)
    ensures c.name.Some? && OwnFree(c.name.value, c.deps)
  {
    hide OwnFree;
    var i :| 0 <= i < |q| && NamedCalls(q)[i] == c;
    assert q[i] in q;
  }

  lemma TidyResumed(q: Queues, scripts: set<Name>)
    requires TidyQueues(q, scripts)
    ensures TidyQueues(Resumed(q), scripts)
  {
    SplicedHas(q.defQueue, q.globalQueue);
    hide Spliced, OwnFree, FirstUnnamed;
    var d := Spliced(q.defQueue, q.globalQueue);
    var k := FirstUnnamed(d);
    forall c | c in Resumed(q).calls && c.name.Some? ensures OwnFree(c.name.value, c.deps) {
      if c in NamedCalls(d[..k]) { NamedAreTidy(d[..k], c, scripts); }
    }
  }

  lemma TidyStep(q: Queues, e: Event, scripts: set<Name>)
    requires TidyQueues(q, scripts) && TidyEvents([e], scripts)
    ensures TidyQueues(QueueStep(q, e), scripts)
  {
    hide OwnFree;
    assert e in [e];
    match e
    case LoadEvent(m) =>
      TidyCompleted(q, m, scripts);
      TidyResumed(Completed(q, m), scripts);
      hide Completed, Resumed, TidyQueues;
    case ResumeEvent => TidyResumed(q, scripts);
    case _ =>
  }

  lemma {:induction false} TidyRun(es: seq<Event>, scripts: set<Name>)
    requires TidyEvents(es, scripts)
    ensures TidyQueues(QueueRun(NO_QUEUES, es), scripts)
  {
    hide RecordTidy, OwnFree, QueueStep;
    if es != [] {
      var n := |es| - 1;
      TidyRun(es[..n], scripts);
      TidyStep(QueueRun(NO_QUEUES, es[..n]), es[n], scripts);
    }
  }

  // ---------- for the loops of the loader ----------

  lemma {:induction false} CallStays(before: seq<Call>, now: seq<Call>, id: Id)
    requires before <= now && CallOf(before, id).Some?
    ensures CallOf(now, id) == CallOf(before, id)
    decreases |now|
  {
    if |before| < |now| {
      CallStays(before, now[..|now| - 1], id);
    } else {
      assert now == before;
    }
  }

  lemma ResumedGrows(q: Queues)
    ensures q.calls <= Resumed(q).calls
  {}

  lemma NoCalls(calls: seq<Call>)
    ensures calls == calls + NamedCalls([])
  {}

  lemma NamedCallsGrow(calls: seq<Call>, q: seq<Record>, n: nat)
    requires n < |q| && forall i :: 0 <= i <= n ==> q[i].name.Some?
    ensures calls + NamedCalls(q[..n + 1]) == calls + NamedCalls(q[..n]) + [CallFor(q[n], q[n].name.value)]
  {
    assert q[..n + 1] == q[..n] + [q[n]];
    NamedCallsNext(q[..n], q[n]);
    hide NamedCalls;
  }

  lemma UnnamedInSplice(d: seq<Record>, g: seq<Record>)
    ensures FirstUnnamed(Spliced(d, g)) < |Spliced(d, g)| <==> exists r :: (r in d || r in g) && r.name == None
  {
    SplicedHas(d, g);
    hide Spliced;
    var q := Spliced(d, g);
    if FirstUnnamed(q) < |q| { assert q[FirstUnnamed(q)] in q; }
    if r :| r in q && r.name == None { UnnamedIsFound(q, r); }
  }

  // ---------- a module that lists itself after exports ----------

  // define a, define b, and the end of the script of b.
  function GapEvents(first: Callback, second: Callback): seq<Event> {
    [DefineEvent(Record(Some(A_NAME), A_DEPS, first)), DefineEvent(Record(Some(B_NAME), B_DEPS, second)),
     LoadEvent(B_NAME)]
  }

  ghost predicate AreGapCalls(calls: seq<Call>) {
    && |calls| == 2 && calls[0].name == Some(A_NAME) && calls[0].deps == A_DEPS
    && calls[1].name == Some(B_NAME) && calls[1].deps == B_DEPS
  }

  lemma GapCalls(first: Callback, second: Callback)
    ensures AreGapCalls(QueueRun(NO_QUEUES, GapEvents(first, second)).calls)
    ensures forall e :: e in GapEvents(first, second) ==> EventOk(e) && !e.CheckEvent?
  {
    hide QueueRun, QueueStep;
    var es := GapEvents(first, second);
    var ra, rb := es[0].record, es[1].record;
    assert es == (([] + [es[0]]) + [es[1]]) + [es[2]];
    MadeNext([], es[0]);
    MadeNext([] + [es[0]], es[1]);
    MadeNext(([] + [es[0]]) + [es[1]], es[2]);
    NoEvents(NO_QUEUES);
    GapQueued(ra, rb);
    GapLoaded(ra, rb);
  }

  lemma NoEvents(q: Queues)
    ensures QueueRun(q, []) == q
  {}

  lemma GapQueued(ra: Record, rb: Record)
    ensures QueueStep(QueueStep(NO_QUEUES, DefineEvent(ra)), DefineEvent(rb)) == Queues([ra, rb], [], [], [])
  {}

  lemma GapLoaded(ra: Record, rb: Record)
    requires ra.name == Some(A_NAME) && ra.deps == A_DEPS && rb.name == Some(B_NAME) && rb.deps == B_DEPS
    ensures AreGapCalls(QueueStep(Queues([ra, rb], [], [], []), LoadEvent(B_NAME)).calls)
  {
    var d := [ra, rb];
    var q := Queues(d, [], [], []);
    assert Spliced([], d) == d;
    assert FirstFor(d[1..], B_NAME) == 0 && FirstFor(d, B_NAME) == 1;
    assert d[..1] == [ra] && d[1..] == [rb];
    assert Completed(q, B_NAME).calls == [CallFor(ra, A_NAME), CallFor(rb, B_NAME)];
    hide Completed, Spliced;
    assert Completed(q, B_NAME).globalQueue == Completed(q, B_NAME).defQueue == [] by { GapCompleted(ra, rb); }
    ResumedNothing(Completed(q, B_NAME));
  }

  lemma GapCompleted(ra: Record, rb: Record)
    requires ra.name == Some(A_NAME) && rb.name == Some(B_NAME)
    ensures var q := Completed(Queues([ra, rb], [], [], []), B_NAME); q.globalQueue == q.defQueue == []
  {
    assert Spliced([], [ra, rb]) == [ra, rb];
    assert FirstFor([ra, rb][1..], B_NAME) == 0 && FirstFor([ra, rb], B_NAME) == 1;
  }

  lemma ResumedNothing(q: Queues)
    requires q.globalQueue == q.defQueue == []
    ensures Resumed(q).calls == q.calls
  {
    assert Spliced([], []) == [];
    NoCalls(q.calls);
    hide NamedCalls;
  }

  lemma GapCallsOf(calls: seq<Call>)
    requires AreGapCalls(calls)
    ensures CallOf(calls, Named(A_NAME)) == Some(calls[0]) && CallOf(calls, Named(B_NAME)) == Some(calls[1])
    ensures forall id :: id != Named(A_NAME) && id != Named(B_NAME) ==> CallOf(calls, id) == None
    ensures !AskedBefore(calls, A_NAME)
    ensures forall n :: IsDependency(n) && Asked(calls, n) ==> n == A_NAME || n == B_NAME
  {
    assert calls == ([] + [calls[0]]) + [calls[1]];
    CallsNext([], calls[0]);
    CallsNext([] + [calls[0]], calls[1]);
  }

  // There is no callback for a's own name.
  lemma SelfGap(s: State, calls: seq<Call>, counter: nat)
    requires Inv(s, {}, {}) && EarlyOk(s.managers, s.early, false) && Known(s, {})
    requires FromCalls(s.managers, calls, counter) && AreGapCalls(calls)
    ensures AllSeen(s) && s.waiting == {Named(A_NAME), Named(B_NAME)} && !NoGap(s) && !NoSelfGap(s)
  {
    hide Inv, EarlyOk, CallOf, Asked, AskedBefore, IsDependency, Unnamed;
    GapCallsOf(calls);
    var a, b := Named(A_NAME), Named(B_NAME);
    assert CallOf(calls, a).Some? && CallOf(calls, b).Some?;
    assert FromCall(s.managers[a], calls[0]) && FromCall(s.managers[b], calls[1]);
    forall k | k in s.managers ensures k == a || k == b {
      assert s.managers[k].attached || Awaited(s, k, s.managers[k]);
      assert s.managers[k].attached <==> CallOf(calls, k).Some?;
    }
    NeitherHasRun(s);
    Waiting(s, a);
    Waiting(s, b);
    WaitingAreManagers(s);
    OwnAfter();
    assert OwnGiven(s.managers[a], A_NAME, AskedBefore(calls, A_NAME));
    assert 1 !in s.managers[a].depCallbacks;
    assert OwnAfterExports(s.managers, Listener(a, 1));
  }

  lemma OwnAfter()
    ensures SelfAfterExports(A_NAME, A_DEPS, 1)
  {
    assert A_DEPS[..1][0] == "exports";
  }
}
