/** The state of the module loader of require.js, its invariant, and what each atomic step keeps. */
module LoaderState {
  import opened Options

  type Name = string

  // A manager's id: the module's name, or a counter for a call of require.
  datatype Id = Named(name: Name) | Anonymous(n: nat)

  datatype Value =
    | Undefined
    | Null
    | RequireFunction(id: Id)
    | ExportsObject(name: Name)
    | ModuleObject(id: Id)
    | Result(n: int)

  // What was handed to define: a factory, or the module's value itself.
  datatype Callback = Factory(code: int) | Literal(value: Value)

  // What running a factory yields: its return value, and module.exports afterwards.
  datatype Outcome = Outcome(ret: Value, exported: Value)

  // The callback that position index of a manager registered with a dependency.
  datatype Listener = Listener(manager: Id, index: nat)

  datatype Manager = Manager(
    depArray: seq<Name>,
    callback: Callback,
    deps: map<nat, Value>,
    depCount: int,
    depDone: set<nat>,
    depCallbacks: set<nat>,
    listeners: seq<Listener>,
    isDone: bool,
    usingExports: bool,
    usingModule: bool,
    attached: bool)  // main has dealt with all of depArray

  // One execution: whose, with which arguments, and with which value for the listeners.
  datatype Run = Run(id: Id, args: map<nat, Value>, ret: Value)

  // Runs the factory with the given code on its arguments.
  type ExecCb = (int, map<nat, Value>) -> Outcome

  // ran, log and early record the history: the managers executed, in order, and the
  // positions that got a value before the dependency had been executed.
  datatype State = State(
    managers: map<Id, Manager>,
    waiting: set<Id>,
    waitAry: seq<Id>,
    waitCount: int,
    defined: map<Name, Value>,
    loaded: map<Name, bool>,
    ran: set<Id>,
    log: seq<Run>,
    early: set<Listener>)

  predicate Reserved(d: Name) { d == "require" || d == "exports" || d == "module" }

  // Entries that name a module: null entries and the CommonJS names are dealt with in place.
  predicate IsDependency(d: Name) { d != "" && !Reserved(d) }

  function Pending(m: Manager): set<nat> { m.depCallbacks - m.depDone }

  // ---------- the invariant ----------

  ghost predicate ManagerOk(m: Manager) {
    && (forall i :: i in m.depCallbacks ==> i < |m.depArray| && IsDependency(m.depArray[i]))
    && m.depDone <= m.depCallbacks
    && m.depCount == |m.depCallbacks| - |m.depDone|
  }

  ghost predicate Managers(ms: map<Id, Manager>) {
    forall k :: k in ms ==> ManagerOk(ms[k])
  }

  // Position i of k waits for a callback from d.
  ghost predicate DependsOn(ms: map<Id, Manager>, k: Id, i: nat, d: Id) {
    k in ms && i in ms[k].depCallbacks && i < |ms[k].depArray| && d == Named(ms[k].depArray[i])
  }

  // A listener sits with d exactly when the position it belongs to depends on d.
  ghost predicate Links(ms: map<Id, Manager>) {
    && (forall d, l :: d in ms && l in ms[d].listeners ==> DependsOn(ms, l.manager, l.index, d))
    && (forall k, i, d :: DependsOn(ms, k, i, d) ==> d in ms && Listener(k, i) in ms[d].listeners)
  }

  // Positions still undone wait for something not executed yet, except those in owed.
  ghost predicate Settled(s: State, owed: set<Listener>) {
    forall k, i, d :: DependsOn(s.managers, k, i, d) && d in s.ran && i !in s.managers[k].depDone ==>
      Listener(k, i) in owed
  }

  // What main has seen and is not executed is waiting for something, except what is in ready.
  ghost predicate Quiet(s: State, ready: set<Id>) {
    forall k :: k in s.managers && k !in ready ==> QuietManager(s, k, s.managers[k])
  }

  ghost predicate QuietManager(s: State, k: Id, m: Manager) {
    && (m.attached && k !in s.ran ==> k in s.waiting && m.depCount > 0)
    && (m.depCallbacks != {} || m.deps != map[] ==> m.attached)
  }

  // Position i of m has the final value of its dependency, which has been executed.
  ghost predicate Filled(s: State, m: Manager, i: nat)
    requires i < |m.depArray|
  {
    var d := m.depArray[i];
    Named(d) in s.ran && d in s.defined && i in m.deps && m.deps[i] == s.defined[d]
  }

  // What k is given in place for an entry that names no module: its own require function, its exports object, the
  // object that stands for it, or nothing.
  ghost predicate HasOwn(k: Id, args: map<nat, Value>, d: Name, i: nat) {
    if d == "" then i !in args
    else
      && i in args
      && (d == "require" ==> args[i] == RequireFunction(k))
      && (d == "exports" ==> k.Named? && args[i] == ExportsObject(k.name))
      && (d == "module" ==> args[i] == ModuleObject(k))
  }

  // Of its first n positions, and nothing behind them.
  ghost predicate OwnValues(k: Id, args: map<nat, Value>, arr: seq<Name>, n: nat)
    requires n <= |arr|
  {
    && (forall i :: 0 <= i < n && !IsDependency(arr[i]) ==> HasOwn(k, args, arr[i], i))
    && (forall i :: i in args ==> i < n)
  }

  // What a module that has not run is to others: its exports object, if it asked for that.
  function Unfinished(ms: map<Id, Manager>, d: Name): Value {
    if Named(d) in ms && ms[Named(d)].usingExports then ExportsObject(d) else Undefined
  }

  function ArgumentAt(args: map<nat, Value>, i: nat): Value { if i in args then args[i] else Undefined }

  // A manager that others can hold an unfinished value of: it keeps the exports object it asked for.
  ghost predicate Lasting(ms: map<Id, Manager>, d: Id) { d in ms && (ms[d].attached || ms[d].usingExports) }

  // Position i of m has the value of a dependency that was not finished.
  ghost predicate FilledEarly(ms: map<Id, Manager>, m: Manager, i: nat)
    requires i < |m.depArray|
  {
    Lasting(ms, Named(m.depArray[i])) && ArgumentAt(m.deps, i) == Unfinished(ms, m.depArray[i])
  }

  // Position i of k has the final value of its dependency, or got it early.
  ghost predicate Given(s: State, k: Id, m: Manager, i: nat)
    requires i < |m.depArray|
  {
    Filled(s, m, i) || (Listener(k, i) in s.early && FilledEarly(s.managers, m, i))
  }

  ghost predicate ValuesOf(s: State, k: Id, m: Manager, n: nat)
    requires n <= |m.depArray|
  {
    && (forall i :: 0 <= i < n && IsDependency(m.depArray[i]) && i !in Pending(m) ==> Given(s, k, m, i))
    && OwnValues(k, m.deps, m.depArray, n)
  }

  ghost predicate SameFlags(a: map<Id, Manager>, b: map<Id, Manager>) {
    forall x :: Lasting(a, x) ==> Lasting(b, x) && (b[x].usingExports <==> a[x].usingExports)
  }

  // What is final stays so.
  ghost predicate SameFinal(s: State, t: State) {
    s.early <= t.early && forall n :: Named(n) in s.ran ==> Named(n) in t.ran && SameValue(s.defined, t.defined, n)
  }

  lemma GivenKept(s: State, t: State, k: Id, m: Manager, u: Manager, i: nat)
    requires i < |m.depArray| && i < |u.depArray| && u.depArray[i] == m.depArray[i] && Given(s, k, m, i)
    requires ArgumentsSame(m.deps, u.deps, i) && SameFlags(s.managers, t.managers) && SameFinal(s, t)
    ensures Given(t, k, u, i)
  {
    assert Lasting(s.managers, Named(m.depArray[i])) ==> Lasting(t.managers, Named(m.depArray[i]));
  }

  ghost predicate ArgumentsSame(a: map<nat, Value>, b: map<nat, Value>, i: nat) {
    (i in a <==> i in b) && (i in a ==> a[i] == b[i])
  }

  lemma ValuesOfKept(s: State, t: State, k: Id, m: Manager, u: Manager, n: nat)
    requires n <= |m.depArray| && ValuesOf(s, k, m, n) && SameFlags(s.managers, t.managers) && SameFinal(s, t)
    requires u.depArray == m.depArray && u.deps == m.deps && Pending(m) <= Pending(u)
    ensures ValuesOf(t, k, u, n)
  {
    hide SameFlags, SameFinal, Given, OwnValues;
    forall i | 0 <= i < n && IsDependency(u.depArray[i]) && i !in Pending(u) ensures Given(t, k, u, i) {
      GivenKept(s, t, k, m, u, i);
    }
  }

  ghost predicate Values(s: State) {
    forall k :: k in s.managers && s.managers[k].attached ==> ValuesOf(s, k, s.managers[k], |s.managers[k].depArray|)
  }

  ghost predicate WaitsAttached(s: State, k: Id) {
    k in s.waiting && k in s.managers && s.managers[k].attached
  }

  ghost predicate Defs(s: State, ready: set<Id>) {
    && (forall n :: Named(n) in s.ran ==> n in s.defined)
    && (forall n :: n in s.defined ==> Named(n) in s.ran || Named(n) in ready || WaitsAttached(s, Named(n)))
    && (forall k :: k in s.managers && s.managers[k].usingExports ==> k.Named? && k.name in s.defined)
  }

  ghost predicate Waits(s: State) {
    && s.waitCount == |s.waiting|
    && s.waiting <= s.managers.Keys && s.ran <= s.managers.Keys
    && (forall k :: k in s.waiting ==> k !in s.ran && k in s.waitAry)
    && (forall k :: k in s.waitAry ==> k in s.managers)
  }

  ghost predicate Status(s: State) {
    forall k :: k in s.managers ==> StatusOk(s, k, s.managers[k])
  }

  ghost predicate StatusOk(s: State, k: Id, m: Manager) {
    && (k in s.ran ==> m.attached && Pending(m) == {})
    && (m.isDone ==> k in s.ran)
    && (k.Named? ==> (m.attached <==> k.name in s.loaded && s.loaded[k.name]))
  }

  ghost predicate RanBefore(log: seq<Run>, t: nat, id: Id) {
    exists u :: 0 <= u < t && u < |log| && log[u].id == id
  }

  // Every execution comes after those of all dependencies whose value it did not get early.
  ghost predicate Logged(s: State) {
    && LoggedOnce(s)
    && (forall t :: 0 <= t < |s.log| ==> InOrder(s, t))
  }

  // Every executed manager is in the log once, with the arguments it holds.
  ghost predicate LoggedOnce(s: State) {
    && (forall t, u :: 0 <= t < u < |s.log| ==> s.log[t].id != s.log[u].id)
    && (forall t :: 0 <= t < |s.log| ==>
      s.log[t].id in s.ran && s.log[t].id in s.managers && s.log[t].args == s.managers[s.log[t].id].deps)
    && (forall k :: k in s.ran ==> RanBefore(s.log, |s.log|, k))
  }

  ghost predicate InOrder(s: State, t: nat)
    requires t < |s.log| && s.log[t].id in s.managers
  {
    var k := s.log[t].id;
    forall i ::
      0 <= i < |s.managers[k].depArray| && IsDependency(s.managers[k].depArray[i]) && Listener(k, i) !in s.early ==>
      RanBefore(s.log, t, Named(s.managers[k].depArray[i]))
  }

  /** The loader's invariant: owed are callbacks about to be made, ready are managers about to be executed. */
  ghost predicate Inv(s: State, owed: set<Listener>, ready: set<Id>) {
    && Managers(s.managers) && Links(s.managers)
    && Settled(s, owed) && Quiet(s, ready) && Values(s) && Defs(s, ready) && Waits(s) && Status(s) && Logged(s)
  }

  // ---------- executing one manager ----------

  /** What executing m changes before any listener hears of it. */
  ghost predicate Executes(s: State, t: State, m: Id, ret: Value)
    requires m in s.managers
  {
    && t.managers == s.managers[m := s.managers[m].(isDone := s.managers[m].isDone || m in s.waiting)]
    && t.ran == s.ran + {m} && t.log == s.log + [Run(m, s.managers[m].deps, ret)]
    && t.waiting == s.waiting - {m} && t.waitCount == (if m in s.waiting then s.waitCount - 1 else s.waitCount)
    && t.waitAry == (if m in s.waiting && t.waitCount == 0 then [] else s.waitAry)
    && (m.Named? ==> t.defined == s.defined[m.name := ret])
    && (m.Anonymous? ==> t.defined == s.defined)
    && t.loaded == s.loaded && t.early == s.early
  }

  // The listeners from position i on.
  ghost function ListenersFrom(ls: seq<Listener>, i: nat): set<Listener>
    requires i <= |ls|
    decreases |ls| - i
  {
    if i == |ls| then {} else {ls[i]} + ListenersFrom(ls, i + 1)
  }

  ghost function Owed(m: Manager): set<Listener> { ListenersFrom(m.listeners, 0) }

  lemma {:induction false} InListenersFrom(ls: seq<Listener>, i: nat, j: nat)
    requires i <= j < |ls|
    ensures ls[j] in ListenersFrom(ls, i)
    decreases j - i
  {
    if i < j { InListenersFrom(ls, i + 1, j); }
  }

  // m may be executed: main has seen it, everything it waits for is there.
  ghost predicate CanExecute(s: State, m: Id) {
    m in s.managers && s.managers[m].attached && m !in s.ran && s.managers[m].depCount == 0
  }

  // Managers keep what main gave them; only progress of their positions changes.
  ghost predicate SameShape(a: map<Id, Manager>, b: map<Id, Manager>) {
    && a.Keys == b.Keys
    && (forall k :: k in a ==> Shape(a[k]) == Shape(b[k]))
  }

  ghost function Shape(m: Manager): (seq<Name>, set<nat>, seq<Listener>) {
    (m.depArray, m.depCallbacks, m.listeners)
  }

  lemma SameDependsOn(a: map<Id, Manager>, b: map<Id, Manager>, k: Id, i: nat, d: Id)
    requires SameShape(a, b)
    ensures DependsOn(a, k, i, d) <==> DependsOn(b, k, i, d)
  {
    if k in a { assert Shape(a[k]) == Shape(b[k]); }
  }

  lemma SameLinks(a: map<Id, Manager>, b: map<Id, Manager>)
    requires SameShape(a, b) && Links(a)
    ensures Links(b)
  {
    forall d, l | d in b && l in b[d].listeners ensures DependsOn(b, l.manager, l.index, d) {
      assert Shape(a[d]) == Shape(b[d]);
      SameDependsOn(a, b, l.manager, l.index, d);
    }
    forall k, i, d | DependsOn(b, k, i, d) ensures d in b && Listener(k, i) in b[d].listeners {
      SameDependsOn(a, b, k, i, d);
      assert Shape(a[d]) == Shape(b[d]);
    }
  }

  lemma ExecutesManagers(s: State, t: State, m: Id, ret: Value)
    requires CanExecute(s, m) && Managers(s.managers) && Links(s.managers) && Executes(s, t, m, ret)
    ensures Managers(t.managers) && Links(t.managers) && SameShape(s.managers, t.managers)
  {
    hide Links, DependsOn;
    SameLinks(s.managers, t.managers);
  }

  lemma ExecutesSettled(s: State, t: State, m: Id, ret: Value, owed: set<Listener>, ready: set<Id>)
    requires CanExecute(s, m) && Links(s.managers) && Executes(s, t, m, ret) && SameShape(s.managers, t.managers)
    requires Settled(s, owed) && Quiet(s, ready + {m}) && m !in ready && Pending(s.managers[m]) == {}
    ensures Settled(t, owed + Owed(s.managers[m])) && Quiet(t, ready)
  {
    hide SameShape;
    forall k, i, d | DependsOn(t.managers, k, i, d) && d in t.ran && i !in t.managers[k].depDone
      ensures Listener(k, i) in owed + Owed(s.managers[m])
    {
      SameDependsOn(s.managers, t.managers, k, i, d);
      if d == m { OwedToDependent(s.managers, k, i, m); }
    }
  }

  lemma OwedToDependent(ms: map<Id, Manager>, k: Id, i: nat, d: Id)
    requires Links(ms) && DependsOn(ms, k, i, d)
    ensures d in ms && Listener(k, i) in Owed(ms[d])
  {
    var ls := ms[d].listeners;
    var j :| 0 <= j < |ls| && ls[j] == Listener(k, i);
    InListenersFrom(ls, 0, j);
  }

  lemma ExecutesValues(s: State, t: State, m: Id, ret: Value)
    requires CanExecute(s, m) && Values(s) && Executes(s, t, m, ret)
    ensures Values(t)
  {
    assert SameFlags(s.managers, t.managers) && SameFinal(s, t);
    hide SameFlags, SameFinal, ValuesOf;
    forall k | k in t.managers && t.managers[k].attached
      ensures ValuesOf(t, k, t.managers[k], |t.managers[k].depArray|)
    {
      ValuesOfKept(s, t, k, s.managers[k], t.managers[k], |t.managers[k].depArray|);
    }
  }

  lemma ExecutesDefs(s: State, t: State, m: Id, ret: Value, ready: set<Id>)
    requires CanExecute(s, m) && Executes(s, t, m, ret) && Defs(s, ready + {m})
    ensures Defs(t, ready)
  {
    forall k | k in t.managers && t.managers[k].usingExports ensures k.Named? && k.name in t.defined {
      assert k in s.managers && s.managers[k].usingExports;
    }
  }

  lemma ExecutesWaits(s: State, t: State, m: Id, ret: Value)
    requires CanExecute(s, m) && Executes(s, t, m, ret) && Waits(s)
    ensures Waits(t)
  {
    assert t.waitCount == |t.waiting|;
  }

  lemma ExecutesStatus(s: State, t: State, m: Id, ret: Value)
    requires CanExecute(s, m) && Pending(s.managers[m]) == {} && Executes(s, t, m, ret) && Status(s)
    ensures Status(t)
  {
    hide Pending;
    assert StatusOk(s, m, s.managers[m]);
    SamePending(s.managers[m], t.managers[m]);
    forall k | k in t.managers ensures StatusOk(t, k, t.managers[k]) {
      assert StatusOk(s, k, s.managers[k]);
    }
  }

  lemma SamePending(a: Manager, b: Manager)
    requires a.depCallbacks == b.depCallbacks && a.depDone == b.depDone
    ensures Pending(a) == Pending(b)
  {}

  lemma RanBeforeGrows(a: seq<Run>, b: seq<Run>, t: nat, u: nat, id: Id)
    requires |a| <= |b| && a == b[..|a|] && t <= u && RanBefore(a, t, id)
    ensures RanBefore(b, u, id)
  {
    var x :| 0 <= x < t && x < |a| && a[x].id == id;
    assert b[x] == a[x];
  }

  lemma InOrderStays(s: State, t: State, x: nat)
    requires x < |s.log| <= |t.log| && s.log == t.log[..|s.log|] && s.log[x].id in s.managers
    requires SameShape(s.managers, t.managers) && t.early == s.early && InOrder(s, x)
    ensures t.log[x] == s.log[x] && InOrder(t, x)
  {
    var k := s.log[x].id;
    assert Shape(s.managers[k]) == Shape(t.managers[k]);
    forall i | 0 <= i < |t.managers[k].depArray| && IsDependency(t.managers[k].depArray[i])
      && Listener(k, i) !in t.early
      ensures RanBefore(t.log, x, Named(t.managers[k].depArray[i]))
    {
      RanBeforeGrows(s.log, t.log, x, x, Named(s.managers[k].depArray[i]));
    }
  }

  // The new entry of the log: everything it did not get early was filled with a value already there.
  lemma LastInOrder(s: State, t: State, m: Id, ret: Value)
    requires CanExecute(s, m) && ManagerOk(s.managers[m]) && Values(s) && Executes(s, t, m, ret)
    requires forall k :: k in s.ran ==> RanBefore(s.log, |s.log|, k)
    ensures InOrder(t, |s.log|)
  {
    var u := s.managers[m];
    assert ValuesOf(s, m, u, |u.depArray|);
    CountIsPending(u);
    assert Pending(u) == {};
    forall i | 0 <= i < |u.depArray| && IsDependency(u.depArray[i]) && Listener(m, i) !in t.early
      ensures RanBefore(t.log, |s.log|, Named(u.depArray[i]))
    {
      assert Filled(s, u, i);
      RanBeforeGrows(s.log, t.log, |s.log|, |s.log|, Named(u.depArray[i]));
    }
  }

  lemma ExecutesOnce(s: State, t: State, m: Id, ret: Value)
    requires CanExecute(s, m) && LoggedOnce(s) && Executes(s, t, m, ret)
    ensures LoggedOnce(t)
  {
    var n := |s.log|;
    assert s.log == t.log[..n];
    LastRan(t.log);
    hide RanBefore;
    forall k | k in t.ran ensures RanBefore(t.log, |t.log|, k) {
      if k != m { RanBeforeGrows(s.log, t.log, n, n + 1, k); }
    }
  }

  lemma ExecutesInOrder(s: State, t: State, m: Id, ret: Value, x: nat)
    requires CanExecute(s, m) && ManagerOk(s.managers[m]) && Values(s) && Logged(s) && Executes(s, t, m, ret)
    requires SameShape(s.managers, t.managers) && x < |t.log|
    ensures t.log[x].id in t.managers && InOrder(t, x)
  {
    hide RanBefore, ManagerOk, Values, SameShape;
    if x < |s.log| {
      InOrderStays(s, t, x);
    } else {
      LastInOrder(s, t, m, ret);
    }
  }

  lemma ExecutesLogged(s: State, t: State, m: Id, ret: Value)
    requires CanExecute(s, m) && ManagerOk(s.managers[m]) && Values(s) && Logged(s) && Executes(s, t, m, ret)
    requires SameShape(s.managers, t.managers)
    ensures Logged(t)
  {
    ExecutesOnce(s, t, m, ret);
    hide InOrder, Executes, CanExecute, ManagerOk, Values, SameShape, RanBefore;
    forall x | 0 <= x < |t.log| ensures t.log[x].id in t.managers && InOrder(t, x) {
      ExecutesInOrder(s, t, m, ret, x);
    }
  }

  lemma LastRan(log: seq<Run>)
    requires |log| > 0
    ensures RanBefore(log, |log|, log[|log| - 1].id)
  {}

  lemma ManagersAt(ms: map<Id, Manager>, k: Id)
    requires Managers(ms) && k in ms
    ensures ManagerOk(ms[k]) && ms[k].depCount == |Pending(ms[k])|
  {
    CountIsPending(ms[k]);
  }

  lemma CountIsPending(m: Manager)
    requires ManagerOk(m)
    ensures m.depCount == |Pending(m)|
  {
    assert Pending(m) + m.depDone == m.depCallbacks;
  }

  /** Executing a manager keeps the invariant, with its listeners owed. */
  lemma ExecutesKeepsInv(s: State, t: State, m: Id, ret: Value, owed: set<Listener>)
    requires CanExecute(s, m) && Inv(s, owed, {m}) && Executes(s, t, m, ret)
    ensures Inv(t, owed + Owed(s.managers[m]), {})
  {
    hide Managers, Links, Settled, Quiet, Values, Defs, Waits, Status, Logged, Executes, CanExecute;
    assert {} + {m} == {m};
    CanExecuteParts(s, m);
    ExecutesManagers(s, t, m, ret);
    ManagersAt(s.managers, m);
    assert Pending(s.managers[m]) == {};
    ExecutesSettled(s, t, m, ret, owed, {});
    ExecutesValues(s, t, m, ret);
    ExecutesDefs(s, t, m, ret, {});
    ExecutesWaits(s, t, m, ret);
    ExecutesStatus(s, t, m, ret);
    ExecutesLogged(s, t, m, ret);
  }

  // ---------- filling one position ----------

  // v is the final value of the dependency d, which has been executed.
  ghost predicate IsFinal(s: State, d: Name, v: Value) {
    Named(d) in s.ran && d in s.defined && s.defined[d] == v
  }

  /** What the callback of position i of k changes: the position is done and holds v. */
  ghost predicate Fills(s: State, t: State, k: Id, i: nat, v: Value)
    requires k in s.managers && i < |s.managers[k].depArray|
  {
    var m := s.managers[k];
    && t.managers == s.managers[k := m.(depDone := m.depDone + {i}, deps := m.deps[i := v], depCount := m.depCount - 1)]
    && t.early == (if IsFinal(s, m.depArray[i], v) then s.early else s.early + {Listener(k, i)})
    && t == s.(managers := t.managers, early := t.early)
  }

  ghost predicate CanFill(s: State, k: Id, i: nat) {
    k in s.managers && i in Pending(s.managers[k]) && i < |s.managers[k].depArray| && k !in s.ran
  }

  ghost function NowReady(t: State, k: Id): set<Id>
    requires k in t.managers
  {
    if t.managers[k].depCount == 0 then {k} else {}
  }

  lemma FillsManagers(s: State, t: State, k: Id, i: nat, v: Value)
    requires CanFill(s, k, i) && Managers(s.managers) && Links(s.managers) && Fills(s, t, k, i, v)
    ensures Managers(t.managers) && Links(t.managers) && SameShape(s.managers, t.managers)
    ensures Pending(t.managers[k]) == Pending(s.managers[k]) - {i}
  {
    hide Links, DependsOn, ManagerOk, Pending, IsFinal;
    ManagersAt(s.managers, k);
    FillsManager(s.managers[k], i, v);
    SameLinks(s.managers, t.managers);
  }

  lemma FillsManager(m: Manager, i: nat, v: Value)
    requires ManagerOk(m) && i in Pending(m)
    ensures
      var u := m.(depDone := m.depDone + {i}, deps := m.deps[i := v], depCount := m.depCount - 1);
      ManagerOk(u) && Pending(u) == Pending(m) - {i}
  {
    hide IsDependency;
    var u := m.(depDone := m.depDone + {i}, deps := m.deps[i := v], depCount := m.depCount - 1);
    assert Pending(u) == Pending(m) - {i};
  }

  lemma FillsSettled(s: State, t: State, k: Id, i: nat, v: Value, owed: set<Listener>, ready: set<Id>)
    requires CanFill(s, k, i) && SameShape(s.managers, t.managers) && Fills(s, t, k, i, v)
    requires Settled(s, owed) && Quiet(s, ready) && ManagerOk(s.managers[k]) && ManagerOk(t.managers[k])
    ensures Settled(t, owed - {Listener(k, i)}) && Quiet(t, ready + NowReady(t, k))
  {
    forall x, j, d | DependsOn(t.managers, x, j, d) ensures DependsOn(s.managers, x, j, d) {
      SameDependsOn(s.managers, t.managers, x, j, d);
    }
  }

  // What a callback for d is called with: its final value, or what d is before it has run.
  ghost predicate IsValueOf(s: State, d: Name, v: Value) {
    IsFinal(s, d, v) || (v == Unfinished(s.managers, d) && Lasting(s.managers, Named(d)))
  }

  lemma FillsSame(s: State, t: State, k: Id, i: nat, v: Value)
    requires CanFill(s, k, i) && Fills(s, t, k, i, v)
    ensures SameFlags(s.managers, t.managers) && SameFinal(s, t) && t.managers.Keys == s.managers.Keys
    ensures t.managers[k].attached == s.managers[k].attached
    ensures forall x :: x in s.managers && x != k ==> t.managers[x] == s.managers[x]
  {}

  lemma FillsGiven(s: State, t: State, k: Id, i: nat, v: Value)
    requires CanFill(s, k, i) && Fills(s, t, k, i, v) && IsValueOf(s, s.managers[k].depArray[i], v)
    ensures Given(t, k, t.managers[k], i)
  {}

  lemma FillsOwnValues(s: State, t: State, k: Id, i: nat, v: Value)
    requires CanFill(s, k, i) && ManagerOk(s.managers[k]) && Fills(s, t, k, i, v)
    requires ValuesOf(s, k, s.managers[k], |s.managers[k].depArray|) && IsValueOf(s, s.managers[k].depArray[i], v)
    ensures ValuesOf(t, k, t.managers[k], |t.managers[k].depArray|)
  {
    hide SameFlags, SameFinal, Given, IsFinal, IsValueOf;
    var m, u := s.managers[k], t.managers[k];
    FillsSame(s, t, k, i, v);
    FillsGiven(s, t, k, i, v);
    assert u == m.(depDone := m.depDone + {i}, deps := m.deps[i := v], depCount := m.depCount - 1);
    assert IsDependency(u.depArray[i]);
    hide Fills, HasOwn;
    forall j | 0 <= j < |u.depArray| && IsDependency(u.depArray[j]) && j !in Pending(u) ensures Given(t, k, u, j) {
      if j != i { GivenKept(s, t, k, m, u, j); }
    }
    forall j | 0 <= j < |u.depArray| && !IsDependency(u.depArray[j]) ensures HasOwn(k, u.deps, u.depArray[j], j) {
      OwnKept(k, m.deps, u.deps, u.depArray[j], j);
    }
  }

  lemma OwnKept(k: Id, a: map<nat, Value>, b: map<nat, Value>, d: Name, i: nat)
    requires HasOwn(k, a, d, i) && ArgumentsSame(a, b, i)
    ensures HasOwn(k, b, d, i)
  {}

  lemma FillsValues(s: State, t: State, k: Id, i: nat, v: Value)
    requires CanFill(s, k, i) && ManagerOk(s.managers[k]) && Values(s) && Fills(s, t, k, i, v)
    requires IsValueOf(s, s.managers[k].depArray[i], v)
    ensures Values(t)
  {
    hide SameFlags, SameFinal, Fills, ValuesOf, IsValueOf;
    FillsSame(s, t, k, i, v);
    forall x | x in t.managers && t.managers[x].attached
      ensures ValuesOf(t, x, t.managers[x], |t.managers[x].depArray|)
    {
      assert ValuesOf(s, x, s.managers[x], |s.managers[x].depArray|);
      if x == k {
        FillsOwnValues(s, t, k, i, v);
      } else {
        ValuesOfKept(s, t, x, s.managers[x], t.managers[x], |t.managers[x].depArray|);
      }
    }
  }

  lemma FillsRest(s: State, t: State, k: Id, i: nat, v: Value, ready: set<Id>)
    requires CanFill(s, k, i) && Fills(s, t, k, i, v) && Defs(s, ready) && Waits(s)
    ensures Defs(t, ready + NowReady(t, k)) && Waits(t)
  {
    forall x | x in t.managers && t.managers[x].usingExports ensures x.Named? && x.name in t.defined {
      assert x in s.managers && s.managers[x].usingExports;
    }
  }

  lemma FillsStatus(s: State, t: State, k: Id, i: nat, v: Value)
    requires CanFill(s, k, i) && Fills(s, t, k, i, v) && Status(s)
    ensures Status(t)
  {
    hide Pending, IsFinal;
    forall x | x in t.managers ensures StatusOk(t, x, t.managers[x]) {
      assert StatusOk(s, x, s.managers[x]);
    }
  }

  lemma InOrderGrows(s: State, t: State, x: nat)
    requires x < |s.log| && s.log == t.log && s.log[x].id in s.managers
    requires SameShape(s.managers, t.managers) && s.early <= t.early && InOrder(s, x)
    ensures InOrder(t, x)
  {
    assert Shape(s.managers[s.log[x].id]) == Shape(t.managers[s.log[x].id]);
  }

  lemma FillsLogged(s: State, t: State, k: Id, i: nat, v: Value)
    requires CanFill(s, k, i) && Fills(s, t, k, i, v) && Logged(s) && SameShape(s.managers, t.managers)
    ensures Logged(t)
  {
    hide InOrder;
    forall x | 0 <= x < |t.log| ensures InOrder(t, x) {
      InOrderGrows(s, t, x);
    }
  }

  lemma FillsKeepsInv(s: State, t: State, k: Id, i: nat, v: Value, owed: set<Listener>, ready: set<Id>)
    requires CanFill(s, k, i) && Inv(s, owed, ready) && Fills(s, t, k, i, v)
    requires IsValueOf(s, s.managers[k].depArray[i], v)
    ensures Inv(t, owed - {Listener(k, i)}, ready + NowReady(t, k))
    ensures SameShape(s.managers, t.managers) && Pending(t.managers[k]) == Pending(s.managers[k]) - {i}
  {
    hide Managers, Links, Settled, Quiet, Values, Defs, Waits, Status, Logged, Fills, NowReady, SameShape, Pending,
      IsValueOf;
    FillsManagers(s, t, k, i, v);
    ManagersAt(s.managers, k);
    assert k in t.managers by { FillsAt(s, t, k, i, v); }
    ManagersAt(t.managers, k);
    FillsSettled(s, t, k, i, v, owed, ready);
    FillsValues(s, t, k, i, v);
    FillsRest(s, t, k, i, v, ready);
    FillsStatus(s, t, k, i, v);
    FillsLogged(s, t, k, i, v);
  }

  lemma FillsAt(s: State, t: State, k: Id, i: nat, v: Value)
    requires CanFill(s, k, i) && Fills(s, t, k, i, v)
    ensures k in t.managers && t.ran == s.ran && t.log == s.log && t.waiting == s.waiting && t.defined == s.defined
  {}

  // ---------- progress ----------

  ghost function Static(m: Manager): Manager {
    m.(deps := map[], depCount := 0, depDone := {}, isDone := false)
  }

  ghost predicate Grows(a: map<Id, Manager>, b: map<Id, Manager>) {
    && a.Keys == b.Keys
    && (forall k :: k in a ==> Static(a[k]) == Static(b[k]) && a[k].depDone <= b[k].depDone)
  }

  ghost predicate SameValue(a: map<Name, Value>, b: map<Name, Value>, n: Name) {
    (n in a <==> n in b) && (n in a ==> a[n] == b[n])
  }

  /** What any amount of executing does: nothing that has run changes, and what runs stops waiting. */
  ghost predicate Progress(a: State, b: State) {
    && Grows(a.managers, b.managers)
    && a.ran <= b.ran && b.waiting == a.waiting - b.ran
    && |a.log| <= |b.log| && a.log == b.log[..|a.log|]
    && b.loaded == a.loaded
    && (forall n :: Named(n) in a.ran || Named(n) !in b.ran ==> SameValue(a.defined, b.defined, n))
    && (b.waitAry == a.waitAry || (b.waitAry == [] && b.waiting == {}))
  }

  lemma ProgressTransitive(a: State, b: State, c: State)
    requires Progress(a, b) && Progress(b, c)
    ensures Progress(a, c)
  {
    forall n | Named(n) in a.ran || Named(n) !in c.ran ensures SameValue(a.defined, c.defined, n) {
      assert SameValue(a.defined, b.defined, n) && SameValue(b.defined, c.defined, n);
    }
  }

  lemma FillsProgress(s: State, t: State, k: Id, i: nat, v: Value)
    requires CanFill(s, k, i) && Fills(s, t, k, i, v) && s.waiting !! s.ran
    ensures Progress(s, t)
  {}

  lemma ExecutesProgress(s: State, t: State, m: Id, ret: Value)
    requires CanExecute(s, m) && Executes(s, t, m, ret) && Waits(s)
    ensures Progress(s, t)
  {
    hide ManagerOk, Pending, CanExecute;
    assert m in s.managers && m !in s.ran by { CanExecuteParts(s, m); }
    WaitParts(s);
    hide Waits;
    if m in s.waiting { assert |t.waiting| == t.waitCount; }
  }

  lemma CanExecuteParts(s: State, m: Id)
    requires CanExecute(s, m)
    ensures m in s.managers && s.managers[m].attached && m !in s.ran && s.managers[m].depCount == 0
  {}

  lemma WaitParts(s: State)
    requires Waits(s)
    ensures s.waitCount == |s.waiting| && s.waiting !! s.ran && s.waiting <= s.managers.Keys && s.ran <= s.managers.Keys
  {}


  // The positions whose callback has not been called: they bound the recursion.
  ghost function Undone(ms: map<Id, Manager>): set<Listener> {
    set k, i | k in ms && i in Pending(ms[k]) :: Listener(k, i)
  }

  lemma UndoneShrinks(a: map<Id, Manager>, b: map<Id, Manager>)
    requires Grows(a, b)
    ensures Undone(b) <= Undone(a)
  {
    forall k, i | k in b && i in Pending(b[k]) ensures k in a && i in Pending(a[k]) {
      assert Static(a[k]) == Static(b[k]);
    }
  }

  lemma UndoneDrops(s: State, t: State, k: Id, i: nat, v: Value)
    requires CanFill(s, k, i) && Fills(s, t, k, i, v) && Grows(s.managers, t.managers)
    ensures Undone(t.managers) < Undone(s.managers)
  {
    UndoneShrinks(s.managers, t.managers);
    assert Listener(k, i) in Undone(s.managers) && Listener(k, i) !in Undone(t.managers);
  }

  // ---------- breaking cycles ----------

  // Every module anything depends on has arrived.
  ghost predicate AllSeen(s: State) {
    forall k :: k in s.managers ==> s.managers[k].attached
  }

  /** forceExec calls the callback of every position whose dependency is waiting; this says there is one.
      Only a module that names itself after "exports" can break it. */
  ghost predicate NoGap(s: State) {
    forall k, i ::
      k in s.managers && 0 <= i < |s.managers[k].depArray| && Named(s.managers[k].depArray[i]) in s.waiting ==>
      i in s.managers[k].depCallbacks
  }

  ghost predicate Forcible(s: State) {
    Inv(s, {}, {}) && AllSeen(s)
  }

  lemma StaticFields(a: Manager, b: Manager)
    requires Static(a) == Static(b)
    ensures a.depArray == b.depArray && a.depCallbacks == b.depCallbacks && a.listeners == b.listeners
    ensures a.attached == b.attached && a.callback == b.callback
  {}

  lemma ProgressForcible(a: State, b: State)
    requires Forcible(a) && Progress(a, b) && Inv(b, {}, {})
    ensures Forcible(b)
  {
    hide Inv;
    forall k | k in b.managers ensures b.managers[k].attached {
      StaticFields(a.managers[k], b.managers[k]);
    }
  }

  // Executing makes no gap.
  lemma GapWasThere(a: State, b: State)
    requires Progress(a, b) && NoGap(a)
    ensures NoGap(b)
  {
    forall k, i | k in b.managers && 0 <= i < |b.managers[k].depArray| && Named(b.managers[k].depArray[i]) in b.waiting
      ensures i in b.managers[k].depCallbacks
    {
      StaticFields(a.managers[k], b.managers[k]);
    }
  }

  /** When everything has arrived, a dependency that is not waiting has been executed and has said so. */
  lemma NotWaitingIsDone(s: State, m: Id, i: nat)
    requires Inv(s, {}, {}) && AllSeen(s) && m in s.managers && i in s.managers[m].depCallbacks
    requires i < |s.managers[m].depArray| && Named(s.managers[m].depArray[i]) !in s.waiting
    ensures i in s.managers[m].depDone
  {
    hide Managers, Values, Defs, Waits, Status, Logged;
    var d := Named(s.managers[m].depArray[i]);
    assert DependsOn(s.managers, m, i, d);
    assert QuietManager(s, d, s.managers[d]);
  }

  lemma AllDoneHasRun(s: State, m: Id)
    requires Inv(s, {}, {}) && AllSeen(s) && m in s.managers && s.managers[m].depCallbacks <= s.managers[m].depDone
    ensures m in s.ran
  {
    hide Links, Settled, Values, Defs, Waits, Status, Logged;
    ManagersAt(s.managers, m);
    assert Pending(s.managers[m]) == {};
    assert QuietManager(s, m, s.managers[m]);
  }

  // When no named module waits, every manager has all its callbacks.
  lemma NothingNamedWaits(s: State, m: Id)
    requires Inv(s, {}, {}) && AllSeen(s) && m in s.managers
    requires forall k :: k in s.waiting ==> k.Anonymous?
    ensures m in s.ran
  {
    hide Inv;
    forall i | i in s.managers[m].depCallbacks ensures i in s.managers[m].depDone {
      CallbackIsInArray(s, m, i);
      NotWaitingIsDone(s, m, i);
    }
    AllDoneHasRun(s, m);
  }

  /** When all named modules have run, so have the calls of require. */
  lemma NamedRanAllRan(s: State)
    requires Inv(s, {}, {}) && AllSeen(s)
    requires forall k :: k in s.waiting ==> k.Anonymous?
    ensures s.waiting == {} && s.waitCount == 0
  {
    hide Managers, Links, Settled, Quiet, Values, Defs, Status, Logged;
    forall m | m in s.managers ensures m in s.ran {
      NothingNamedWaits(s, m);
    }
    assert s.waiting == {};
  }

  lemma CallbackIsInArray(s: State, m: Id, i: nat)
    requires Inv(s, {}, {}) && m in s.managers && i in s.managers[m].depCallbacks
    ensures i < |s.managers[m].depArray|
  {
    ManagersAt(s.managers, m);
  }

  // A module waits on one of lower rank.
  lemma WaitsOnLower(s: State, m: Id, rank: Id -> nat) returns (d: Id)
    requires Inv(s, {}, {}) && AllSeen(s) && m in s.waiting
    requires forall k, i, x :: DependsOn(s.managers, k, i, x) ==> rank(x) < rank(k)
    ensures d in s.waiting && rank(d) < rank(m)
  {
    hide Links, Settled, Values, Defs, Status, Logged;
    if forall i :: i in s.managers[m].depCallbacks ==> i in s.managers[m].depDone {
      AllDoneHasRun(s, m);
      assert false;
    }
    var i :| i in s.managers[m].depCallbacks && i !in s.managers[m].depDone;
    ManagersAt(s.managers, m);
    d := Named(s.managers[m].depArray[i]);
    assert DependsOn(s.managers, m, i, d);
    if d !in s.waiting {
      NotWaitingIsDone(s, m, i);
      assert false;
    }
  }

  /** Without a cycle nothing needs forcing: once everything has arrived, everything has run. */
  lemma {:induction false} AcyclicRunsAll(s: State, m: Id, rank: Id -> nat)
    requires Inv(s, {}, {}) && AllSeen(s) && m in s.managers
    requires forall k, i, x :: DependsOn(s.managers, k, i, x) ==> rank(x) < rank(k)
    ensures m in s.ran
    decreases rank(m)
  {
    hide Inv;
    if m in s.waiting {
      var d := WaitsOnLower(s, m, rank);
      WaitingIsManager(s, d);
      AcyclicRunsAll(s, d, rank);
      assert false;
    } else {
      NotWaitingHasRun(s, m);
    }
  }

  lemma WaitingIsManager(s: State, d: Id)
    requires Inv(s, {}, {}) && d in s.waiting
    ensures d in s.managers && d !in s.ran
  {}

  lemma NotWaitingHasRun(s: State, m: Id)
    requires Inv(s, {}, {}) && AllSeen(s) && m in s.managers && m !in s.waiting
    ensures m in s.ran
  {
    hide Managers, Links, Settled, Values, Defs, Waits, Status, Logged;
    assert QuietManager(s, m, s.managers[m]);
  }

  // forceExec failed at position i of m, or below it.
  lemma GapBefore(s: State, a: State, m: Id, i: nat)
    requires Progress(s, a) && m in a.managers && i < |a.managers[m].depArray|
    requires Named(a.managers[m].depArray[i]) in a.waiting
    ensures !NoGap(a) || i !in a.managers[m].depCallbacks ==> !NoGap(s)
  {
    if NoGap(s) { GapWasThere(s, a); }
  }

  // What forceExec knows at position i of m.
  lemma ForcedPosition(s: State, m: Id, i: nat)
    requires Forcible(s) && m in s.managers && i < |s.managers[m].depArray|
    ensures
      var d := s.managers[m].depArray[i];
      && (Named(d) in s.waiting ==> Named(d) in s.managers)
      && (i in s.managers[m].depCallbacks ==>
        if Named(d) in s.waiting then
          && d != "" && Named(d) in s.managers && !s.managers[Named(d)].isDone && d in s.loaded && s.loaded[d]
          && Inv(s, {} + {Listener(m, i)}, {})
        else i in s.managers[m].depDone)
  {
    var d := Named(s.managers[m].depArray[i]);
    hide Inv;
    if d in s.waiting { WaitingIsManager(s, d); }
    if i in s.managers[m].depCallbacks {
      if d in s.waiting {
        StatusAt(s, d);
        CallbackIsDependency(s, m, i);
        OwedLess(s, {}, {} + {Listener(m, i)}, {});
      } else {
        NotWaitingIsDone(s, m, i);
      }
    }
  }

  lemma StatusAt(s: State, k: Id)
    requires Inv(s, {}, {}) && k in s.managers
    ensures StatusOk(s, k, s.managers[k])
  {}

  lemma CallbackIsDependency(s: State, m: Id, i: nat)
    requires Inv(s, {}, {}) && m in s.managers && i in s.managers[m].depCallbacks
    ensures i < |s.managers[m].depArray| && IsDependency(s.managers[m].depArray[i])
  {
    ManagersAt(s.managers, m);
  }

  // The modules forceExec has not traced yet: they bound its recursion.
  ghost function Untraced(keys: set<Id>, traced: set<Name>): set<Id> {
    set k | k in keys && k.Named? && k.name !in traced
  }

  lemma ProgressStatic(a: State, b: State, m: Id)
    requires Progress(a, b) && m in a.managers
    ensures b.managers.Keys == a.managers.Keys && m in b.managers
    ensures b.managers[m].depArray == a.managers[m].depArray && b.managers[m].depCallbacks == a.managers[m].depCallbacks
    ensures a.managers[m].depDone <= b.managers[m].depDone && a.ran <= b.ran
  {
    StaticFields(a.managers[m], b.managers[m]);
  }

  lemma ForcibleParts(s: State)
    requires Forcible(s)
    ensures Inv(s, {}, {}) && AllSeen(s) && Progress(s, s)
  {
    hide Managers, Links, Settled, Quiet, Values, Defs, Waits, Status, Logged, Progress, AllSeen;
    ProgressReflexive(s);
  }

  lemma ProgressReflexive(s: State)
    requires Waits(s)
    ensures Progress(s, s)
  {}

  // ---------- one pass over the waiting managers ----------

  function Ids(log: seq<Run>): seq<Id> { seq(|log|, t requires 0 <= t < |log| => log[t].id) }

  lemma {:induction false} DistinctIds(ids: seq<Id>, members: set<Id>)
    requires forall t, u :: 0 <= t < u < |ids| ==> ids[t] != ids[u]
    requires (forall t :: 0 <= t < |ids| ==> ids[t] in members) && (forall k :: k in members ==> k in ids)
    ensures multiset(ids) == multiset(members)
  {
    if ids == [] {
      assert members == {};
    } else {
      var n := |ids| - 1;
      var k := ids[n];
      assert ids == ids[..n] + [k];
      DistinctIds(ids[..n], members - {k});
      assert members == members - {k} + {k};
    }
  }

  /** The log has every executed manager once. */
  lemma LogIsRan(s: State)
    requires Inv(s, {}, {})
    ensures multiset(Ids(s.log)) == multiset(s.ran)
  {
    InvParts(s, {}, {});
    hide Inv, Managers, Links, Settled, Quiet, Values, Defs, Waits, Status, InOrder;
    var ids := Ids(s.log);
    forall k | k in s.ran ensures k in ids {
      var u :| 0 <= u < |s.log| && u < |s.log| && s.log[u].id == k;
      assert ids[u] == k;
    }
    DistinctIds(ids, s.ran);
  }

  // In a pass, exactly the managers that waited have been added to ran.
  lemma PassRan(a: State, b: State)
    requires Forcible(a) && Inv(b, {}, {}) && Progress(a, b) && b.waiting == {}
    ensures b.ran == a.ran + a.waiting && a.ran !! a.waiting
    ensures multiset(Ids(b.log)) == multiset(Ids(a.log)) + multiset(a.waiting)
  {
    hide Inv, Forcible, Ids, AllSeen, Progress;
    ForcibleParts(a);
    ProgressSets(a, b);
    LogIsRan(a);
    LogIsRan(b);
    forall k | k in b.ran ensures k in a.ran + a.waiting {
      RanIsManager(b, k);
      if k !in a.waiting { NotWaitingHasRun(a, k); }
    }
    forall k | k in a.waiting ensures k !in a.ran && k in b.ran {
      WaitingIsManager(a, k);
      assert k !in b.waiting;
    }
    UnionOnce(a.ran, a.waiting, b.ran);
  }

  lemma ProgressSets(a: State, b: State)
    requires Progress(a, b)
    ensures a.ran <= b.ran && b.waiting == a.waiting - b.ran && b.managers.Keys == a.managers.Keys
  {}

  lemma UnionOnce(a: set<Id>, w: set<Id>, b: set<Id>)
    requires a !! w && b == a + w
    ensures multiset(b) == multiset(a) + multiset(w)
  {}

  lemma WaitAryIsManagers(s: State, i: nat)
    requires Forcible(s) && i < |s.waitAry|
    ensures s.waitAry[i] in s.managers
  {
    hide Managers, Links, Settled, Quiet, Values, Defs, Status, Logged, AllSeen;
    assert s.waitAry[i] in s.waitAry;
  }

  lemma PassStep(a: State, b: State)
    requires Progress(a, b)
    ensures a.ran <= b.ran && (b.waitAry == a.waitAry || (b.waitAry == [] && b.waiting == {}))
    ensures a.waiting == {} ==> b.waiting == {}
  {}

  lemma NothingNamedLeft(a: State, b: State)
    requires Forcible(a) && Inv(b, {}, {}) && Progress(a, b)
    requires (b.waitAry == [] && b.waiting == {}) || forall j :: 0 <= j < |a.waitAry| && a.waitAry[j].Named? ==>
      a.waitAry[j] in b.ran
    ensures forall k :: k in b.waiting ==> k.Anonymous?
  {
    InvParts(a, {}, {});
    WaitParts(b) by { InvParts(b, {}, {}); }
    hide Inv;
    forall k | k in b.waiting ensures k.Anonymous? {
      assert k in a.waiting;
    }
  }

  lemma RanIsManager(s: State, k: Id)
    requires Inv(s, {}, {}) && k in s.ran
    ensures k in s.managers
  {}

  // ---------- registering a module ----------

  const EMPTY_MANAGER := Manager([], Literal(Undefined), map[], 0, {}, {}, [], false, false, false, false)

  // main is at position i of the dependencies of k: everything before it is dealt with.
  ghost predicate Building(s: State, k: Id, arr: seq<Name>, i: nat) {
    && Inv(s, {}, {k}) && k in s.managers && k !in s.ran && i <= |arr|
    && var m := s.managers[k];
    && !m.attached && m.depArray == arr && m.depDone == {}
    && (forall j :: j in m.depCallbacks ==> j < i)
    && ValuesOf(s, k, m, i)
  }

  /** getManager for a dependency nobody asked for before: it starts to wait, not loaded. */
  ghost predicate Requests(s: State, t: State, d: Name) {
    && Named(d) !in s.managers
    && t == s.(managers := s.managers[Named(d) := EMPTY_MANAGER], waiting := s.waiting + {Named(d)},
               waitAry := s.waitAry + [Named(d)], waitCount := s.waitCount + 1, loaded := s.loaded[d := false])
  }

  lemma RequestsDependsOn(s: State, t: State, d: Name, k: Id, i: nat, x: Id)
    requires Requests(s, t, d)
    ensures DependsOn(s.managers, k, i, x) <==> DependsOn(t.managers, k, i, x)
  {}

  lemma RequestsLinks(s: State, t: State, d: Name)
    requires Requests(s, t, d) && Links(s.managers) && Settled(s, {}) && Managers(s.managers)
    ensures Links(t.managers) && Settled(t, {}) && Managers(t.managers)
  {
    forall k, i, x | DependsOn(t.managers, k, i, x)
      ensures DependsOn(s.managers, k, i, x) && x in t.managers && Listener(k, i) in t.managers[x].listeners
    {
      RequestsDependsOn(s, t, d, k, i, x);
    }
    forall x, l | x in t.managers && l in t.managers[x].listeners ensures DependsOn(t.managers, l.manager, l.index, x) {
      RequestsDependsOn(s, t, d, l.manager, l.index, x);
    }
  }

  lemma RequestsRest(s: State, t: State, d: Name, ready: set<Id>)
    requires Requests(s, t, d) && Quiet(s, ready) && Defs(s, ready) && Waits(s) && Status(s)
    ensures Quiet(t, ready) && Defs(t, ready) && Waits(t) && Status(t)
  {
    assert Named(d) !in s.waiting && Named(d) !in s.ran;
    assert t.waitCount == |t.waiting|;
    forall k | k in t.managers ensures StatusOk(t, k, t.managers[k]) {
      if k != Named(d) { assert StatusOk(s, k, s.managers[k]); }
    }
    forall k | k in t.managers && k !in ready ensures QuietManager(t, k, t.managers[k]) {
      if k != Named(d) { assert QuietManager(s, k, s.managers[k]); }
    }
    forall k | k in t.managers && t.managers[k].usingExports ensures k.Named? && k.name in t.defined {
      assert k in s.managers && s.managers[k].usingExports;
    }
  }

  lemma RequestsHistory(s: State, t: State, d: Name)
    requires Requests(s, t, d) && Values(s) && Waits(s) && Logged(s)
    ensures Values(t) && Logged(t)
  {
    forall k | k in t.managers && t.managers[k].attached
      ensures ValuesOf(t, k, t.managers[k], |t.managers[k].depArray|) {
      assert ValuesOf(s, k, s.managers[k], |s.managers[k].depArray|);
      RequestsValues(s, t, d, k, |s.managers[k].depArray|);
    }
    forall x | 0 <= x < |t.log| ensures InOrder(t, x) {
      assert InOrder(s, x);
    }
  }

  lemma RequestsValues(s: State, t: State, d: Name, k: Id, n: nat)
    requires Requests(s, t, d) && k in s.managers && n <= |s.managers[k].depArray| && ValuesOf(s, k, s.managers[k], n)
    ensures k in t.managers && t.managers[k] == s.managers[k] && ValuesOf(t, k, t.managers[k], n)
  {
    assert SameFlags(s.managers, t.managers) && SameFinal(s, t);
    hide SameFlags, SameFinal, ValuesOf;
    ValuesOfKept(s, t, k, s.managers[k], t.managers[k], n);
  }

  lemma RequestsKeepsInv(s: State, t: State, d: Name, ready: set<Id>)
    requires Requests(s, t, d) && Inv(s, {}, ready)
    ensures Inv(t, {}, ready)
  {
    hide Managers, Links, Settled, Quiet, Values, Defs, Waits, Status, Logged, Requests;
    RequestsLinks(s, t, d);
    RequestsRest(s, t, d, ready);
    RequestsHistory(s, t, d);
  }

  lemma RequestsKeepsBuilding(s: State, t: State, d: Name, k: Id, arr: seq<Name>, i: nat)
    requires Requests(s, t, d) && Building(s, k, arr, i)
    ensures Building(t, k, arr, i)
  {
    hide Inv;
    RequestsKeepsInv(s, t, d, {k});
    RequestsValues(s, t, d, k, i);
  }

  /** What main does at position i of its own manager without registering anything. */
  ghost predicate Takes(s: State, t: State, k: Id, u: Manager) {
    && k in s.managers
    && t == s.(managers := s.managers[k := u], defined := t.defined, early := t.early)
    && s.early <= t.early
    && (t.defined == s.defined
      || (k.Named? && k.name in t.defined && t.defined == s.defined[k.name := t.defined[k.name]]))
    && u == s.managers[k].(deps := u.deps, usingExports := u.usingExports, usingModule := u.usingModule)
    && (u.usingExports ==> k.Named? && k.name in t.defined) && (s.managers[k].usingExports ==> u.usingExports)
  }

  lemma TakesManagers(s: State, t: State, k: Id, u: Manager)
    requires Takes(s, t, k, u) && Managers(s.managers) && Links(s.managers) && Settled(s, {})
    ensures Managers(t.managers) && Links(t.managers) && Settled(t, {}) && SameShape(s.managers, t.managers)
  {
    hide Links, DependsOn, Pending;
    SamePending(s.managers[k], u);
    SameLinks(s.managers, t.managers);
    forall x, j, d | DependsOn(t.managers, x, j, d) ensures DependsOn(s.managers, x, j, d) {
      SameDependsOn(s.managers, t.managers, x, j, d);
    }
  }

  lemma TakesRest(s: State, t: State, k: Id, u: Manager)
    requires Takes(s, t, k, u) && k !in s.ran && Quiet(s, {k}) && Defs(s, {k}) && Waits(s) && Status(s)
    ensures Quiet(t, {k}) && Defs(t, {k}) && Waits(t) && Status(t)
  {
    hide Pending;
    SamePending(s.managers[k], u);
    forall x | x in t.managers ensures StatusOk(t, x, t.managers[x]) {
      assert StatusOk(s, x, s.managers[x]);
    }
    forall x | x in t.managers && x != k ensures QuietManager(t, x, t.managers[x]) {
      assert QuietManager(s, x, s.managers[x]);
    }
    forall x | x in t.managers && t.managers[x].usingExports ensures x.Named? && x.name in t.defined {
      if x != k { assert s.managers[x].usingExports; }
    }
  }

  lemma TakesSame(s: State, t: State, k: Id, u: Manager)
    requires Takes(s, t, k, u) && k !in s.ran && !u.attached
    ensures SameFlags(s.managers, t.managers) && SameFinal(s, t)
  {
    assert SameFlags(s.managers, t.managers);
    forall n | Named(n) in s.ran ensures Named(n) in t.ran && SameValue(s.defined, t.defined, n) {
      assert Named(n) != k;
    }
  }

  lemma TakesValues(s: State, t: State, k: Id, u: Manager, x: Id, n: nat)
    requires Takes(s, t, k, u) && k !in s.ran && !u.attached && x in s.managers && x != k
    requires n <= |s.managers[x].depArray|
    requires ValuesOf(s, x, s.managers[x], n)
    ensures ValuesOf(t, x, s.managers[x], n)
  {
    hide SameFlags, SameFinal, ValuesOf;
    TakesSame(s, t, k, u);
    ValuesOfKept(s, t, x, s.managers[x], s.managers[x], n);
  }

  lemma TakesHistory(s: State, t: State, k: Id, u: Manager)
    requires Takes(s, t, k, u) && k !in s.ran && !u.attached && SameShape(s.managers, t.managers) && Values(s)
    requires Logged(s)
    ensures Values(t) && Logged(t)
  {
    hide InOrder;
    forall x | x in t.managers && t.managers[x].attached
      ensures ValuesOf(t, x, t.managers[x], |t.managers[x].depArray|) {
      assert ValuesOf(s, x, s.managers[x], |s.managers[x].depArray|);
      TakesValues(s, t, k, u, x, |s.managers[x].depArray|);
    }
    forall x | 0 <= x < |t.log| ensures InOrder(t, x) {
      assert InOrder(s, x);
      InOrderGrows(s, t, x);
    }
  }

  /** Position i got its value in place: it is final, or early, or not a module's. */
  lemma TakesKeepsBuilding(s: State, t: State, k: Id, u: Manager, arr: seq<Name>, i: nat)
    requires Building(s, k, arr, i) && Takes(s, t, k, u) && i < |arr|
    requires forall j :: j != i ==>
      (j in u.deps <==> j in s.managers[k].deps) && (j in u.deps ==> u.deps[j] == s.managers[k].deps[j])
    requires if IsDependency(arr[i]) then Given(t, k, u, i) else HasOwn(k, u.deps, arr[i], i)
    ensures Building(t, k, arr, i + 1)
  {
    InvParts(s, {}, {k});
    TakesOwnValues(s, t, k, u, arr, i);
    hide Managers, Links, Settled, Quiet, Values, Defs, Waits, Status, Logged, ValuesOf, Filled, Takes;
    TakesAt(s, t, k, u);
    TakesManagers(s, t, k, u);
    TakesRest(s, t, k, u);
    TakesHistory(s, t, k, u);
  }

  lemma TakesAt(s: State, t: State, k: Id, u: Manager)
    requires Takes(s, t, k, u)
    ensures k in t.managers && t.managers[k] == u && t.ran == s.ran
    ensures u.attached == s.managers[k].attached && u.depArray == s.managers[k].depArray
    ensures u.depDone == s.managers[k].depDone && u.depCallbacks == s.managers[k].depCallbacks
  {}

  lemma TakesOwnValues(s: State, t: State, k: Id, u: Manager, arr: seq<Name>, i: nat)
    requires Takes(s, t, k, u) && k !in s.ran && !u.attached && s.managers[k].depArray == arr && i < |arr|
    requires ValuesOf(s, k, s.managers[k], i)
    requires forall j :: j != i ==>
      (j in u.deps <==> j in s.managers[k].deps) && (j in u.deps ==> u.deps[j] == s.managers[k].deps[j])
    requires if IsDependency(arr[i]) then Given(t, k, u, i) else HasOwn(k, u.deps, arr[i], i)
    ensures ValuesOf(t, k, u, i + 1)
  {
    hide SameFlags, SameFinal;
    TakesSame(s, t, k, u);
    hide Takes;
    forall j | 0 <= j < i + 1 && IsDependency(arr[j]) && j !in Pending(u) ensures Given(t, k, u, j) {
      if j < i { GivenKept(s, t, k, s.managers[k], u, j); }
    }
  }

  /** Position i of k registers its callback with d, which is not executed yet. */
  ghost predicate Registers(s: State, t: State, k: Id, i: nat, d: Id)
    requires k in s.managers && d in s.managers
  {
    && t == s.(managers := t.managers)
    && var m := s.managers[k];
    && var counted := s.managers[k := m.(depCount := m.depCount + 1, depCallbacks := m.depCallbacks + {i})];
    && t.managers == counted[d := counted[d].(listeners := counted[d].listeners + [Listener(k, i)])]
  }

  ghost predicate CanRegister(s: State, k: Id, i: nat, d: Id) {
    && k in s.managers && d in s.managers && d !in s.ran && k !in s.ran
    && var m := s.managers[k];
    && i < |m.depArray| && IsDependency(m.depArray[i]) && d == Named(m.depArray[i])
    && i !in m.depCallbacks && i !in m.depDone && !m.attached
  }

  // All that Registers changes about a manager x.
  lemma RegistersAt(s: State, t: State, k: Id, i: nat, d: Id, x: Id)
    requires CanRegister(s, k, i, d) && Registers(s, t, k, i, d) && x in s.managers
    ensures
      && x in t.managers && var a, b := s.managers[x], t.managers[x];
      && b == a.(depCount := b.depCount, depCallbacks := b.depCallbacks, listeners := b.listeners)
      && (if x == k then b.depCallbacks == a.depCallbacks + {i} && b.depCount == a.depCount + 1
          else b.depCallbacks == a.depCallbacks && b.depCount == a.depCount)
      && b.listeners == (if x == d then a.listeners + [Listener(k, i)] else a.listeners)
  {}

  lemma RegistersDependsOn(s: State, t: State, k: Id, i: nat, d: Id, x: Id, j: nat, e: Id)
    requires CanRegister(s, k, i, d) && Registers(s, t, k, i, d)
    ensures DependsOn(t.managers, x, j, e) <==> DependsOn(s.managers, x, j, e) || (x == k && j == i && e == d)
  {
    if x in s.managers { RegistersAt(s, t, k, i, d, x); }
  }

  lemma RegistersLinks(s: State, t: State, k: Id, i: nat, d: Id)
    requires CanRegister(s, k, i, d) && Registers(s, t, k, i, d) && Links(s.managers) && Settled(s, {})
    ensures Links(t.managers) && Settled(t, {})
  {
    hide DependsOn, Registers;
    RegistersAt(s, t, k, i, d, k);
    forall x, j, e | DependsOn(t.managers, x, j, e)
      ensures e in t.managers && Listener(x, j) in t.managers[e].listeners
      ensures x in t.managers && (e in t.ran ==> j in t.managers[x].depDone)
    {
      RegistersDependsOn(s, t, k, i, d, x, j, e);
      DependsOnIn(t.managers, x, j, e);
      RegistersState(s, t, k, i, d);
      RegistersAt(s, t, k, i, d, e);
      RegistersAt(s, t, k, i, d, x);
    }
    forall e, l | e in t.managers && l in t.managers[e].listeners ensures DependsOn(t.managers, l.manager, l.index, e) {
      RegistersState(s, t, k, i, d);
      RegistersAt(s, t, k, i, d, e);
      RegistersDependsOn(s, t, k, i, d, l.manager, l.index, e);
    }
  }

  lemma DependsOnIn(ms: map<Id, Manager>, k: Id, i: nat, d: Id)
    requires DependsOn(ms, k, i, d)
    ensures k in ms && i in ms[k].depCallbacks
  {}

  lemma RegistersState(s: State, t: State, k: Id, i: nat, d: Id)
    requires CanRegister(s, k, i, d) && Registers(s, t, k, i, d)
    ensures t.managers.Keys == s.managers.Keys && t == s.(managers := t.managers)
  {}

  lemma RegistersManager(m: Manager, u: Manager, i: nat)
    requires ManagerOk(m) && i !in m.depCallbacks && i < |m.depArray| && IsDependency(m.depArray[i]) && i !in m.depDone
    requires u.depArray == m.depArray && u.depDone == m.depDone
    requires u.depCallbacks == m.depCallbacks + {i} && u.depCount == m.depCount + 1
    ensures ManagerOk(u) && Pending(u) == Pending(m) + {i}
  {
    assert Pending(u) == Pending(m) + {i};
  }

  lemma RegistersManagers(s: State, t: State, k: Id, i: nat, d: Id)
    requires CanRegister(s, k, i, d) && Registers(s, t, k, i, d) && Managers(s.managers)
    ensures Managers(t.managers) && i in Pending(t.managers[k])
  {
    hide Registers, IsDependency, ManagerOk, Pending;
    RegistersState(s, t, k, i, d);
    RegistersAt(s, t, k, i, d, k);
    RegistersManager(s.managers[k], t.managers[k], i);
    forall x | x in t.managers ensures ManagerOk(t.managers[x]) {
      RegistersAt(s, t, k, i, d, x);
      if x != k { SameManagerOk(s.managers[x], t.managers[x]); }
    }
    assert i in Pending(s.managers[k]) + {i};
  }

  lemma SameManagerOk(a: Manager, b: Manager)
    requires ManagerOk(a) && b.depArray == a.depArray && b.depDone == a.depDone
    requires b.depCallbacks == a.depCallbacks && b.depCount == a.depCount
    ensures ManagerOk(b)
  {}

  lemma RegistersRest(s: State, t: State, k: Id, i: nat, d: Id)
    requires CanRegister(s, k, i, d) && Registers(s, t, k, i, d)
    requires Quiet(s, {k}) && Defs(s, {k}) && Waits(s) && Status(s)
    ensures Quiet(t, {k}) && Defs(t, {k}) && Waits(t) && Status(t)
  {
    hide Registers, Pending;
    RegistersState(s, t, k, i, d);
    forall x | x in t.managers
      ensures StatusOk(t, x, t.managers[x]) && (x != k ==> QuietManager(t, x, t.managers[x]))
      ensures t.managers[x].usingExports ==> x.Named? && x.name in t.defined
    {
      RegistersAt(s, t, k, i, d, x);
      assert StatusOk(s, x, s.managers[x]);
      if x != k {
        assert QuietManager(s, x, s.managers[x]);
        SamePending(s.managers[x], t.managers[x]);
      }
    }
  }

  lemma RegistersFlags(s: State, t: State, k: Id, i: nat, d: Id)
    requires CanRegister(s, k, i, d) && Registers(s, t, k, i, d)
    ensures SameFlags(s.managers, t.managers)
  {}

  lemma RegistersValues(s: State, t: State, k: Id, i: nat, d: Id, x: Id, n: nat)
    requires CanRegister(s, k, i, d) && Registers(s, t, k, i, d) && x in s.managers && n <= |s.managers[x].depArray|
    requires ValuesOf(s, x, s.managers[x], n)
    ensures x in t.managers && t.managers[x].depArray == s.managers[x].depArray && ValuesOf(t, x, t.managers[x], n)
  {
    RegistersAt(s, t, k, i, d, x);
    RegistersState(s, t, k, i, d);
    RegistersFlags(s, t, k, i, d);
    assert Pending(s.managers[x]) <= Pending(t.managers[x]);
    assert SameFinal(s, t);
    hide Registers, Pending, SameFlags, SameFinal, ValuesOf;
    ValuesOfKept(s, t, x, s.managers[x], t.managers[x], n);
  }

  lemma RegistersHistory(s: State, t: State, k: Id, i: nat, d: Id)
    requires CanRegister(s, k, i, d) && Registers(s, t, k, i, d) && Values(s) && Logged(s)
    ensures Values(t) && Logged(t)
  {
    hide Registers, InOrder, ValuesOf;
    RegistersState(s, t, k, i, d);
    forall x | x in t.managers && t.managers[x].attached
      ensures ValuesOf(t, x, t.managers[x], |t.managers[x].depArray|) {
      RegistersAt(s, t, k, i, d, x);
      RegistersValues(s, t, k, i, d, x, |s.managers[x].depArray|);
    }
    forall x | 0 <= x < |t.log|
      ensures InOrder(t, x) && t.log[x].args == t.managers[t.log[x].id].deps
    {
      RegistersAt(s, t, k, i, d, t.log[x].id);
      SameInOrder(s, t, x);
    }
  }

  lemma SameInOrder(s: State, t: State, x: nat)
    requires x < |s.log| && s.log == t.log && s.early == t.early && s.log[x].id in s.managers
    requires s.log[x].id in t.managers
    requires s.managers[s.log[x].id].depArray == t.managers[s.log[x].id].depArray && InOrder(s, x)
    ensures InOrder(t, x)
  {}

  /** Position i waits for its dependency. */
  lemma RegistersKeepsBuilding(s: State, t: State, k: Id, i: nat, d: Id, arr: seq<Name>)
    requires Building(s, k, arr, i) && i < |arr| && IsDependency(arr[i]) && d == Named(arr[i]) && d in s.managers
    requires d !in s.ran
    requires Registers(s, t, k, i, d)
    ensures Building(t, k, arr, i + 1)
  {
    hide Managers, Links, Settled, Quiet, Values, Defs, Waits, Status, Logged, Registers, Pending, ValuesOf, Filled;
    InvParts(s, {}, {k});
    ManagersAt(s.managers, k);
    assert CanRegister(s, k, i, d);
    hide CanRegister, Inv;
    RegistersLinks(s, t, k, i, d);
    RegistersManagers(s, t, k, i, d);
    RegistersRest(s, t, k, i, d);
    RegistersHistory(s, t, k, i, d);
    assert Inv(t, {}, {k}) by { JoinInv(t, {}, {k}); }
    RegistersState(s, t, k, i, d);
    RegistersAt(s, t, k, i, d, k);
    RegistersValues(s, t, k, i, d, k, i);
    ValuesOfPending(t, k, t.managers[k], i);
  }

  lemma JoinInv(s: State, owed: set<Listener>, ready: set<Id>)
    requires Managers(s.managers) && Links(s.managers) && Settled(s, owed) && Quiet(s, ready) && Values(s)
    requires Defs(s, ready) && Waits(s) && Status(s) && Logged(s)
    ensures Inv(s, owed, ready)
  {}

  lemma ValuesOfPending(s: State, k: Id, m: Manager, i: nat)
    requires i < |m.depArray| && ValuesOf(s, k, m, i) && i in Pending(m) && IsDependency(m.depArray[i])
    ensures ValuesOf(s, k, m, i + 1)
  {}

  /** main attaches the dependencies and the callback to its manager, made now or by an earlier request. */
  ghost predicate Attaches(s: State, t: State, k: Id, arr: seq<Name>, cb: Callback) {
    && k !in s.ran && (k in s.managers ==> !s.managers[k].attached)
    && (k.Named? ==> !(k.name in s.loaded && s.loaded[k.name]))
    && var m := if k in s.managers then s.managers[k] else EMPTY_MANAGER;
    && t == s.(managers := s.managers[k := m.(depArray := arr, callback := cb)])
  }

  lemma AttachesOwn(s: State, t: State, k: Id, arr: seq<Name>, cb: Callback)
    requires Attaches(s, t, k, arr, cb) && Inv(s, {}, {})
    ensures k in t.managers && t.managers[k].depCallbacks == {} && t.managers[k].depDone == {}
    ensures ManagerOk(t.managers[k]) && !t.managers[k].attached && t.managers[k].depArray == arr
    ensures k in s.managers ==> s.managers[k].depCallbacks == {}
  {
    hide Links, Settled, Values, Defs, Waits, Status, Logged, IsDependency;
    if k in s.managers {
      ManagersAt(s.managers, k);
      assert QuietManager(s, k, s.managers[k]);
    }
    assert Pending(t.managers[k]) == {};
  }

  lemma AttachesDependsOn(s: State, t: State, k: Id, arr: seq<Name>, cb: Callback, x: Id, i: nat, d: Id)
    requires Attaches(s, t, k, arr, cb) && k in t.managers && t.managers[k].depCallbacks == {}
    requires k in s.managers ==> s.managers[k].depCallbacks == {}
    ensures DependsOn(s.managers, x, i, d) <==> DependsOn(t.managers, x, i, d)
  {}

  lemma AttachesLinks(s: State, t: State, k: Id, arr: seq<Name>, cb: Callback)
    requires Attaches(s, t, k, arr, cb) && Links(s.managers) && Settled(s, {})
    requires k in t.managers && t.managers[k].depCallbacks == {}
    requires k in s.managers ==> s.managers[k].depCallbacks == {}
    ensures Links(t.managers) && Settled(t, {})
  {
    forall x, i, d | DependsOn(t.managers, x, i, d)
      ensures d in t.managers && Listener(x, i) in t.managers[d].listeners
      ensures x in t.managers && (d in t.ran ==> i in t.managers[x].depDone)
    {
      AttachesDependsOn(s, t, k, arr, cb, x, i, d);
    }
    forall d, l | d in t.managers && l in t.managers[d].listeners ensures DependsOn(t.managers, l.manager, l.index, d) {
      assert d in s.managers;
      AttachesDependsOn(s, t, k, arr, cb, l.manager, l.index, d);
    }
  }

  lemma AttachesRest(s: State, t: State, k: Id, arr: seq<Name>, cb: Callback)
    requires Attaches(s, t, k, arr, cb) && Quiet(s, {}) && Defs(s, {}) && Waits(s) && Status(s)
    ensures Quiet(t, {k}) && Defs(t, {k}) && Waits(t) && Status(t)
  {
    hide Pending;
    forall x | x in t.managers
      ensures StatusOk(t, x, t.managers[x]) && (x != k ==> QuietManager(t, x, t.managers[x]))
      ensures t.managers[x].usingExports ==> x.Named? && x.name in t.defined
    {
      if x in s.managers { assert StatusOk(s, x, s.managers[x]); }
      if x != k { assert QuietManager(s, x, s.managers[x]); }
    }
  }

  lemma AttachesHistory(s: State, t: State, k: Id, arr: seq<Name>, cb: Callback)
    requires Attaches(s, t, k, arr, cb) && Values(s) && Logged(s) && k in t.managers
    ensures Values(t) && Logged(t)
  {
    hide InOrder;
    forall x | x in t.managers && t.managers[x].attached
      ensures ValuesOf(t, x, t.managers[x], |t.managers[x].depArray|) {
      assert x != k;
      assert ValuesOf(s, x, s.managers[x], |s.managers[x].depArray|);
      SameValuesOf(s, t, x, s.managers[x], |s.managers[x].depArray|);
    }
    forall x | 0 <= x < |t.log| ensures InOrder(t, x) {
      assert InOrder(s, x);
      SameInOrder(s, t, x);
    }
  }

  lemma SameValuesOf(s: State, t: State, x: Id, m: Manager, n: nat)
    requires s.ran == t.ran && s.defined == t.defined && s.early == t.early && n <= |m.depArray| && ValuesOf(s, x, m, n)
    requires SameFlags(s.managers, t.managers)
    ensures ValuesOf(t, x, m, n)
  {
    assert SameFinal(s, t);
    hide SameFlags, SameFinal, ValuesOf;
    ValuesOfKept(s, t, x, m, m, n);
  }

  lemma AttachesStartsBuilding(s: State, t: State, k: Id, arr: seq<Name>, cb: Callback)
    requires Attaches(s, t, k, arr, cb) && Inv(s, {}, {})
    ensures Building(t, k, arr, 0)
  {
    InvParts(s, {}, {});
    AttachesOwn(s, t, k, arr, cb);
    hide Managers, Links, Settled, Quiet, Values, Defs, Waits, Status, Logged, ManagerOk;
    AttachesLinks(s, t, k, arr, cb);
    AttachesRest(s, t, k, arr, cb);
    AttachesHistory(s, t, k, arr, cb);
    forall x | x in t.managers ensures ManagerOk(t.managers[x]) {
      if x != k { ManagersAt(s.managers, x); }
    }
    assert Managers(t.managers) by { AllManagersOk(t.managers); }
  }

  lemma AllManagersOk(ms: map<Id, Manager>)
    requires forall x :: x in ms ==> ManagerOk(ms[x])
    ensures Managers(ms)
  {}

  /** The end of main's loop: the manager counts as loaded and, if it waits for something, as waiting. */
  ghost predicate Loads(s: State, t: State, k: Id) {
    && k in s.managers
    && t == s.(managers := s.managers[k := s.managers[k].(attached := true)], loaded := t.loaded)
    && t.loaded == (if k.Named? then s.loaded[k.name := true] else s.loaded)
  }

  lemma LoadsKeepsInv(s: State, t: State, k: Id, arr: seq<Name>)
    requires Building(s, k, arr, |arr|) && Loads(s, t, k)
    ensures Inv(t, {}, {k}) && k in t.managers && t.managers[k].attached && k !in t.ran
  {
    InvParts(s, {}, {k});
    hide Inv, Managers, Links, Settled, Quiet, Values, Defs, Waits, Status, Logged, ValuesOf, Pending;
    LoadsShape(s, t, k);
    LoadsRest(s, t, k);
    LoadsHistory(s, t, k);
    JoinInv(t, {}, {k});
  }

  lemma LoadsShape(s: State, t: State, k: Id)
    requires Loads(s, t, k) && Managers(s.managers) && Links(s.managers) && Settled(s, {})
    ensures Managers(t.managers) && Links(t.managers) && Settled(t, {})
  {
    hide Links, DependsOn, ManagerOk;
    forall x | x in t.managers ensures ManagerOk(t.managers[x]) {
      ManagersAt(s.managers, x);
      SameManagerOk(s.managers[x], t.managers[x]);
    }
    SameLinks(s.managers, t.managers);
    forall x, j, d | DependsOn(t.managers, x, j, d) ensures DependsOn(s.managers, x, j, d) {
      SameDependsOn(s.managers, t.managers, x, j, d);
    }
  }

  lemma LoadsRest(s: State, t: State, k: Id)
    requires Loads(s, t, k) && k !in s.ran && Quiet(s, {k}) && Defs(s, {k}) && Waits(s) && Status(s)
    ensures Quiet(t, {k}) && Defs(t, {k}) && Waits(t) && Status(t)
  {
    hide Pending;
    forall x | x in t.managers
      ensures StatusOk(t, x, t.managers[x]) && (x != k ==> QuietManager(t, x, t.managers[x]))
      ensures t.managers[x].usingExports ==> x.Named? && x.name in t.defined
    {
      SamePending(s.managers[x], t.managers[x]);
      assert StatusOk(s, x, s.managers[x]);
      if x != k { assert QuietManager(s, x, s.managers[x]); }
    }
  }

  lemma LoadsHistory(s: State, t: State, k: Id)
    requires Loads(s, t, k) && Values(s) && Logged(s) && ValuesOf(s, k, s.managers[k], |s.managers[k].depArray|)
    ensures Values(t) && Logged(t)
  {
    hide InOrder, Pending;
    forall x | x in t.managers && t.managers[x].attached
      ensures ValuesOf(t, x, t.managers[x], |t.managers[x].depArray|) {
      var m := s.managers[x];
      assert ValuesOf(s, x, m, |m.depArray|);
      SameValuesOf(s, t, x, m, |m.depArray|);
      SamePending(m, t.managers[x]);
      MovedValuesOf(t, x, m, t.managers[x]);
    }
    forall x | 0 <= x < |t.log| ensures InOrder(t, x) {
      assert InOrder(s, x);
      SameInOrder(s, t, x);
    }
  }

  lemma MovedValuesOf(s: State, x: Id, m: Manager, u: Manager)
    requires u == m.(attached := u.attached) && Pending(u) == Pending(m) && ValuesOf(s, x, m, |m.depArray|)
    ensures ValuesOf(s, x, u, |u.depArray|)
  {
    ValuesOfKept(s, s, x, m, u, |u.depArray|);
  }

  /** addWait. */
  ghost predicate AddsWait(s: State, t: State, k: Id) {
    t == if k in s.waiting then s
         else s.(waiting := s.waiting + {k}, waitAry := s.waitAry + [k], waitCount := s.waitCount + 1)
  }

  lemma AddsWaitKeepsInv(s: State, t: State, k: Id)
    requires AddsWait(s, t, k) && Inv(s, {}, {k}) && k in s.managers && s.managers[k].attached && k !in s.ran
    requires s.managers[k].depCount != 0
    ensures Inv(t, {}, {})
  {
    ManagersAt(s.managers, k);
    InvParts(s, {}, {k});
    assert t.managers == s.managers && t.ran == s.ran && t.log == s.log && t.defined == s.defined && t.early == s.early;
    hide Inv, Managers, ManagerOk, Links;
    AddsWaitRest(s, t, k);
    hide Quiet, Defs, Waits, Status;
    assert Settled(t, {});
    forall x | x in t.managers && t.managers[x].attached
      ensures ValuesOf(t, x, t.managers[x], |t.managers[x].depArray|) {
      assert ValuesOf(s, x, s.managers[x], |s.managers[x].depArray|);
      SameValuesOf(s, t, x, s.managers[x], |s.managers[x].depArray|);
    }
    AddsWaitLogged(s, t);
    JoinInv(t, {}, {});
  }

  lemma AddsWaitLogged(s: State, t: State)
    requires Logged(s) && t.managers == s.managers && t.ran == s.ran && t.log == s.log && t.early == s.early
    ensures Logged(t)
  {
    hide InOrder;
    forall x | 0 <= x < |t.log| ensures InOrder(t, x) {
      assert InOrder(s, x);
      SameInOrder(s, t, x);
    }
  }

  lemma AddsWaitWaits(s: State, t: State, k: Id)
    requires AddsWait(s, t, k) && k in s.managers && k !in s.ran && Waits(s)
    ensures Waits(t)
  {
    assert t.waitCount == |t.waiting|;
  }

  lemma AddsWaitDefs(s: State, t: State, k: Id)
    requires AddsWait(s, t, k) && k in s.managers && s.managers[k].attached && Defs(s, {k})
    ensures Defs(t, {})
  {
    forall x | x in t.managers && t.managers[x].usingExports ensures x.Named? && x.name in t.defined {
      assert x in s.managers && s.managers[x].usingExports;
    }
  }

  lemma AddsWaitRest(s: State, t: State, k: Id)
    requires AddsWait(s, t, k) && k in s.managers && s.managers[k].attached && k !in s.ran && s.managers[k].depCount > 0
    requires Quiet(s, {k}) && Defs(s, {k}) && Waits(s) && Status(s)
    ensures Quiet(t, {}) && Defs(t, {}) && Waits(t) && Status(t)
  {
    AddsWaitWaits(s, t, k);
    AddsWaitDefs(s, t, k);
    hide Pending, Waits, Defs;
    forall x | x in t.managers ensures StatusOk(t, x, t.managers[x]) && QuietManager(t, x, t.managers[x]) {
      assert StatusOk(s, x, s.managers[x]);
      if x != k { assert QuietManager(s, x, s.managers[x]); }
    }
  }

  // What the module's value is once its factory has run.
  function ModuleValue(m: Manager, out: Outcome, before: Value): Value {
    if m.usingModule && out.exported != Undefined && out.exported != before then out.exported
    else if out.ret == Undefined && m.usingExports then before
    else out.ret
  }

  function ValueOf(defined: map<Name, Value>, n: Name): Value {
    if n in defined then defined[n] else Undefined
  }

  lemma OwedLess(s: State, owed: set<Listener>, more: set<Listener>, ready: set<Id>)
    requires Inv(s, owed, ready) && owed <= more
    ensures Inv(s, more, ready)
  {
    hide Managers, Links, Quiet, Values, Defs, Waits, Status, Logged;
  }

  /** A callback that is still due: k has been seen by main and has not been executed. */
  lemma CallbackIsDue(s: State, k: Id, i: nat, owed: set<Listener>)
    requires Inv(s, owed, {}) && k in s.managers && i in s.managers[k].depCallbacks && i !in s.managers[k].depDone
    ensures CanFill(s, k, i) && s.managers[k].attached && s.waiting !! s.ran
  {
    hide Links, Settled, Values, Defs, Logged;
    ManagersAt(s.managers, k);
    assert QuietManager(s, k, s.managers[k]) && StatusOk(s, k, s.managers[k]);
  }

  /** The first call of a callback: the position is filled, and k is ready if it was the last one. */
  lemma CallbackFills(s: State, t: State, k: Id, i: nat, v: Value, owed: set<Listener>)
    requires CanFill(s, k, i) && s.managers[k].attached && s.waiting !! s.ran
    requires Inv(s, owed + {Listener(k, i)}, {}) && Fills(s, t, k, i, v)
    requires IsValueOf(s, s.managers[k].depArray[i], v)
    ensures Progress(s, t) && Undone(t.managers) < Undone(s.managers)
    ensures k in t.managers && i in t.managers[k].depDone
    ensures if t.managers[k].depCount == 0 then CanExecute(t, k) && Inv(t, owed, {k}) else Inv(t, owed, {})
  {
    hide Inv, Progress, Undone, IsFinal, IsValueOf;
    FillsKeepsInv(s, t, k, i, v, owed + {Listener(k, i)}, {});
    FillsProgress(s, t, k, i, v);
    ProgressGrows(s, t);
    UndoneDrops(s, t, k, i, v);
    assert {} + NowReady(t, k) == NowReady(t, k);
    OwedLess(t, owed + {Listener(k, i)} - {Listener(k, i)}, owed, NowReady(t, k));
  }

  lemma ProgressGrows(a: State, b: State)
    requires Progress(a, b)
    ensures Grows(a.managers, b.managers) && a.ran <= b.ran
    ensures Undone(b.managers) <= Undone(a.managers)
  {
    UndoneShrinks(a.managers, b.managers);
  }

  lemma ExecutionIsDue(s: State, m: Id, owed: set<Listener>)
    requires CanExecute(s, m) && Inv(s, owed, {m})
    ensures m in s.managers && Links(s.managers) && Waits(s)
    ensures s.managers[m].usingExports ==> m.Named? && m.name in s.defined
  {
    hide Managers, Links, Settled, Quiet, Values, Waits, Status, Logged;
  }

  lemma AfterExecute(s: State, u: State, m: Id, ret: Value)
    requires m in s.managers && Executes(s, u, m, ret)
    ensures m in u.managers && u.managers[m].listeners == s.managers[m].listeners && u.early == s.early && m in u.ran
    ensures |u.log| == |s.log| + 1 && u.log[|s.log|] == Run(m, s.managers[m].deps, ret)
    ensures m.Named? ==> m.name in u.defined && u.defined[m.name] == ret
    ensures Undone(u.managers) <= Undone(s.managers)
    ensures s.waiting !! s.ran ==> Progress(u, u)
  {
    hide Links;
    UndoneShrinks(s.managers, u.managers);
  }

  // While the listeners of m are called, each call passes the final value of m.
  lemma ListenerIsDue(v: State, u: State, m: Id, i: nat, owed: set<Listener>)
    requires Inv(v, owed, {}) && Progress(u, v) && m in u.managers && m in u.ran && i < |u.managers[m].listeners|
    ensures
      var l := u.managers[m].listeners[i];
      && m in v.managers && l.manager in v.managers && l.index in v.managers[l.manager].depCallbacks
      && l.index < |v.managers[l.manager].depArray| && m == Named(v.managers[l.manager].depArray[l.index])
    ensures m.Named? && m.name in u.defined ==>
      m.name in v.defined && v.defined[m.name] == u.defined[m.name] && m in v.ran
    ensures Undone(v.managers) <= Undone(u.managers)
  {
    hide Managers, Settled, Quiet, Values, Defs, Waits, Status, Logged, Undone;
    UndoneShrinks(u.managers, v.managers);
    assert Static(u.managers[m]) == Static(v.managers[m]);
    var l := u.managers[m].listeners[i];
    assert l in v.managers[m].listeners;
    if m.Named? { assert SameValue(u.defined, v.defined, m.name); }
  }

  lemma LogGrows(a: State, b: State)
    requires Progress(a, b)
    ensures |a.log| <= |b.log| && forall t :: 0 <= t < |a.log| ==> b.log[t] == a.log[t]
  {}

  lemma CallbackWasDone(s: State, k: Id, i: nat, owed: set<Listener>)
    requires Inv(s, owed + {Listener(k, i)}, {}) && k in s.managers && i in s.managers[k].depDone
    ensures Inv(s, owed, {}) && Progress(s, s)
  {
    hide Managers, Links, Quiet, Values, Defs, Logged;
    assert s.waiting !! s.ran;
  }

  lemma InvParts(s: State, owed: set<Listener>, ready: set<Id>)
    requires Inv(s, owed, ready)
    ensures Managers(s.managers) && Links(s.managers) && Settled(s, owed) && Quiet(s, ready) && Values(s)
    ensures Defs(s, ready) && Waits(s) && Status(s) && Logged(s)
  {}

  // A module that lists its own name after "exports" finds itself in defined before it has run.
  predicate SelfAfterExports(name: Name, arr: seq<Name>, i: nat) {
    i < |arr| && arr[i] == name && "exports" in arr[..i]
  }

  // Nothing in the array is the module's own name after "exports".
  ghost predicate OwnFree(name: Name, arr: seq<Name>) { forall i :: !SelfAfterExports(name, arr, i) }

  /** main gives position l.index of its manager k a value before the dependency has run. */
  predicate GivenEarly(l: Listener, k: Id, arr: seq<Name>, requested: bool) {
    k.Named? && l.manager == k && !requested && SelfAfterExports(k.name, arr, l.index)
  }

  /** A dependency found in defined and not waiting has run, or is the module itself. */
  lemma DefinedHasRun(s: State, k: Id, arr: seq<Name>, i: nat, d: Name)
    requires Building(s, k, arr, i) && d in s.defined && Named(d) !in s.waiting && Named(d) !in s.ran
    ensures k == Named(d)
  {
    hide Managers, Links, Settled, Quiet, Values, Waits, Status, Logged;
  }

  // What id finds of itself in defined, while main is at its dependencies, is the exports object it asked for.
  ghost predicate OwnExports(s: State, id: Id) {
    && id in s.managers
    && (id.Named? && id.name in s.defined ==>
      s.managers[id].usingExports && s.defined[id.name] == ExportsObject(id.name))
  }

  lemma NoOwnExports(s: State, id: Id)
    requires id in s.managers && (id.Named? ==> id.name !in s.defined)
    ensures OwnExports(s, id)
  {}

  lemma TakenIsGiven(s: State, t: State, id: Id, d: Name, i: nat)
    requires id in t.managers && i < |t.managers[id].depArray| && t.managers[id].depArray[i] == d && d in s.defined
    requires t.defined == s.defined && t.ran == s.ran && OwnExports(t, id)
    requires i in t.managers[id].deps && t.managers[id].deps[i] == s.defined[d]
    requires Named(d) in s.ran || (Named(d) == id && Listener(id, i) in t.early)
    ensures Given(t, id, t.managers[id], i)
  {}

  lemma NotDefinedHasNotRun(s: State, k: Id, arr: seq<Name>, i: nat, d: Name)
    requires Building(s, k, arr, i) && (d !in s.defined || Named(d) in s.waiting)
    ensures Named(d) !in s.ran
  {
    hide Managers, Links, Settled, Quiet, Values, Status, Logged;
  }

  lemma BuildingParts(s: State, k: Id, arr: seq<Name>, i: nat)
    requires Building(s, k, arr, i)
    ensures k in s.managers && k !in s.ran && s.managers[k].depArray == arr && i <= |arr| && !s.managers[k].attached
    ensures s.managers[k].usingExports ==> k.Named? && k.name in s.defined
    ensures forall j :: j in s.managers[k].depCallbacks ==> j < i
    ensures s.waiting <= s.managers.Keys && s.ran <= s.managers.Keys
  {
    hide Managers, Links, Settled, Quiet, Values, Status, Logged;
  }

  lemma NotYetGiven(s: State, k: Id, arr: seq<Name>, i: nat)
    requires Building(s, k, arr, i)
    ensures k in s.managers && i !in s.managers[k].deps
  {
    hide Inv;
  }

  lemma BuildingWaits(s: State, k: Id, arr: seq<Name>, i: nat)
    requires Building(s, k, arr, i)
    ensures Waits(s)
  {
    InvParts(s, {}, {k});
  }

  lemma RequestsAt(s: State, t: State, d: Name, k: Id, arr: seq<Name>, i: nat)
    requires Building(s, k, arr, i)
    requires if Named(d) in s.managers then t == s else Requests(s, t, d)
    requires Known(s, {k})
    ensures Known(t, {k}) && Keeps(s.managers, t.managers, {})
    ensures Building(t, k, arr, i) && Named(d) in t.managers && t.managers.Keys == s.managers.Keys + {Named(d)}
    ensures t.ran == s.ran && t.early == s.early && t.defined == s.defined && t.log == s.log
    ensures k in t.waiting <==> k in s.waiting
  {
    hide Inv, ValuesOf;
    if t != s { RequestsKeepsBuilding(s, t, d, k, arr, i); }
  }

  // Names and counters of managers.
  ghost predicate IdsOk(keys: set<Id>, counter: nat) {
    && (forall n: nat :: Anonymous(n) in keys ==> n < counter)
    && (forall d :: Named(d) in keys ==> IsDependency(d))
  }

  lemma NamedIsDependency(keys: set<Id>, id: Id, counter: nat)
    requires IdsOk(keys + {id}, counter)
    ensures id.Named? ==> IsDependency(id.name)
    ensures IdsOk(keys, counter)
  {}

  // The position a module's own name takes after "exports", while the module is not requested.
  ghost predicate EarlyAfter(before: set<Listener>, now: set<Listener>, id: Id, arr: seq<Name>, i: nat,
                             requested: bool) {
    forall l :: l in now <==> l in before || (l.index < i && GivenEarly(l, id, arr, requested))
  }

  // Positions filled early since before have no callbacks.
  ghost predicate EarlyWithout(before: set<Listener>, now: set<Listener>, callbacks: set<nat>, i: nat) {
    forall l :: l in now && l !in before ==> l.index < i && l.index !in callbacks
  }

  lemma EarlyWithoutNext(before: set<Listener>, now: set<Listener>, next: set<Listener>, callbacks: set<nat>,
                         more: set<nat>, id: Id, i: nat)
    requires EarlyWithout(before, now, callbacks, i) && forall j :: j in callbacks ==> j < i
    requires (next == now && more <= callbacks + {i}) || (next <= now + {Listener(id, i)} && more == callbacks)
    ensures EarlyWithout(before, next, more, i + 1) && forall j :: j in more ==> j < i + 1
  {}

  lemma EarlyStarts(early: set<Listener>, callbacks: set<nat>, id: Id, arr: seq<Name>, requested: bool)
    ensures EarlyWithout(early, early, callbacks, 0) && EarlyAfter(early, early, id, arr, 0, requested)
  {}

  // The managers made since before are those of id and of its dependencies.
  ghost predicate KeysWithin(before: set<Id>, now: set<Id>, id: Id, arr: seq<Name>) {
    forall k :: k in now ==> k in before || k == id || (k.Named? && k.name in arr)
  }

  lemma EarlyNext(before: set<Listener>, now: set<Listener>, next: set<Listener>, id: Id, arr: seq<Name>, i: nat,
                  requested: bool)
    requires EarlyAfter(before, now, id, arr, i, requested) && i < |arr|
    requires next ==
      (if id == Named(arr[i]) && "exports" in arr[..i] && !requested then now + {Listener(id, i)} else now)
    ensures EarlyAfter(before, next, id, arr, i + 1, requested)
  {}

  lemma ProgressLog(a: State, b: State)
    requires Progress(a, b)
    ensures |a.log| <= |b.log| && b.log[..|a.log|] == a.log
  {}

  /** Whatever is defined is loaded. */
  lemma DefinedIsLoaded(s: State, n: Name)
    requires Inv(s, {}, {}) && n in s.defined
    ensures n in s.loaded && s.loaded[n]
  {
    hide Managers, Links, Settled, Quiet, Values, Logged;
    assert StatusOk(s, Named(n), s.managers[Named(n)]);
  }

  // A manager main may attach dependencies to.
  lemma NotLoadedIsNew(s: State, n: Name)
    requires Inv(s, {}, {}) && !(n in s.loaded && s.loaded[n])
    ensures Named(n) !in s.ran && n !in s.defined && (Named(n) in s.managers ==> !s.managers[Named(n)].attached)
  {
    hide Managers, Links, Settled, Quiet, Values, Logged;
    if Named(n) in s.managers { assert StatusOk(s, Named(n), s.managers[Named(n)]); }
  }

  // What later define calls leave alone about the managers main has dealt with, and which ones are new to it.
  ghost predicate Keeps(a: map<Id, Manager>, b: map<Id, Manager>, added: set<Id>) {
    && a.Keys <= b.Keys
    && (forall k :: k in a && a[k].attached ==> KeepsManager(a[k], b[k]))
    && (forall k :: k in b && b[k].attached ==> k in added || (k in a && a[k].attached))
  }

  ghost predicate KeepsManager(a: Manager, b: Manager) { b.attached && KeepsFields(a, b) }

  // What main gave the manager.
  ghost predicate KeepsFields(a: Manager, b: Manager) {
    && b.depArray == a.depArray && b.callback == a.callback && b.depCallbacks == a.depCallbacks
    && b.usingExports == a.usingExports && b.usingModule == a.usingModule
  }

  lemma ProgressKeeps(a: State, b: State)
    requires Progress(a, b)
    ensures Keeps(a.managers, b.managers, {}) && b.managers.Keys == a.managers.Keys && b.loaded == a.loaded
    ensures forall k :: k in a.managers ==> (a.managers[k].attached <==> b.managers[k].attached)
  {
    forall k | k in a.managers ensures Static(a.managers[k]) == Static(b.managers[k]) {}
  }

  // Every manager is attached, or is a named one that waits for its script.
  ghost predicate Known(s: State, building: set<Id>) {
    && (forall k :: k in s.managers && k !in building && !s.managers[k].attached ==> Awaited(s, k, s.managers[k]))
    && (forall n :: n in s.loaded ==> Named(n) in s.managers)
  }

  ghost predicate Awaited(s: State, k: Id, m: Manager) {
    k.Named? && k.name in s.loaded && !s.loaded[k.name] && k in s.waiting && !m.usingExports && !m.usingModule
  }

  lemma EverythingLoaded(s: State)
    requires Inv(s, {}, {}) && Known(s, {}) && forall n :: n in s.loaded ==> s.loaded[n]
    ensures AllSeen(s)
  {
    hide Inv;
    assert forall k :: k in s.managers && !s.managers[k].attached ==> Awaited(s, k, s.managers[k]);
  }

  lemma StillKnown(a: State, b: State)
    requires Known(a, {}) && Progress(a, b) && Inv(b, {}, {})
    ensures Known(b, {})
  {
    hide Managers, Links, Settled, Quiet, Values, Defs, Waits, Logged, Pending;
    forall k | k in b.managers && !b.managers[k].attached ensures Awaited(b, k, b.managers[k]) {
      assert Static(a.managers[k]) == Static(b.managers[k]);
      assert Awaited(a, k, a.managers[k]) && StatusOk(b, k, b.managers[k]);
    }
  }

  lemma AddsWaitKnown(s: State, t: State, k: Id)
    requires AddsWait(s, t, k) && Known(s, {})
    ensures Known(t, {})
  {
    forall x | x in t.managers && !t.managers[x].attached ensures Awaited(t, x, t.managers[x]) {
      assert Awaited(s, x, s.managers[x]);
    }
  }

  // ---------- positions filled early ----------

  // A module that main has dealt with lists d as a dependency.
  ghost predicate Needs(ms: map<Id, Manager>, k: Id, d: Id) {
    k in ms && ms[k].attached && d.Named? && d.name in ms[k].depArray
  }

  ghost predicate IsChain(ms: map<Id, Manager>, p: seq<Id>, a: Id, b: Id) {
    && |p| > 0 && p[0] == a && p[|p| - 1] == b
    && forall i, j :: 0 <= i < |p| - 1 && j == i + 1 ==> Needs(ms, p[i], p[j])
  }

  // a depends on b, through any number of modules.
  ghost predicate Leads(ms: map<Id, Manager>, a: Id, b: Id) { exists p :: IsChain(ms, p, a, b) }

  // The dependency at this position depends back on the manager.
  ghost predicate OnCycle(ms: map<Id, Manager>, l: Listener) {
    && l.manager in ms && l.index < |ms[l.manager].depArray|
    && Leads(ms, Named(ms[l.manager].depArray[l.index]), l.manager)
  }

  ghost predicate OwnAfterExports(ms: map<Id, Manager>, l: Listener) {
    l.manager in ms && l.manager.Named? && SelfAfterExports(l.manager.name, ms[l.manager].depArray, l.index)
  }

  /** The positions that can have got a value before their dependency had run: a module's own name after
      exports, and, once a cycle has been broken, a position on a cycle. */
  ghost predicate Excused(ms: map<Id, Manager>, l: Listener, forced: bool) {
    OwnAfterExports(ms, l) || (forced && OnCycle(ms, l))
  }

  // The positions filled early are excused; only those on cycles have callbacks.
  ghost predicate EarlyOk(ms: map<Id, Manager>, early: set<Listener>, forced: bool) {
    forall l :: l in early ==> EarlyPosition(ms, l, forced)
  }

  ghost predicate EarlyPosition(ms: map<Id, Manager>, l: Listener, forced: bool) {
    && l.manager in ms && ms[l.manager].attached
    && if l.index in ms[l.manager].depCallbacks then forced && OnCycle(ms, l) else OwnAfterExports(ms, l)
  }

  lemma LeadsItself(ms: map<Id, Manager>, a: Id)
    ensures Leads(ms, a, a)
  {
    assert IsChain(ms, [a], a, a);
  }

  lemma LeadsOn(ms: map<Id, Manager>, a: Id, b: Id, c: Id)
    requires Leads(ms, a, b) && Needs(ms, b, c)
    ensures Leads(ms, a, c)
  {
    hide Needs;
    var p :| IsChain(ms, p, a, b);
    assert IsChain(ms, p + [c], a, c);
  }

  lemma LeadsKept(a: map<Id, Manager>, b: map<Id, Manager>, added: set<Id>, x: Id, y: Id)
    requires Keeps(a, b, added) && Leads(a, x, y)
    ensures Leads(b, x, y)
  {
    var p :| IsChain(a, p, x, y);
    forall i, j | 0 <= i < |p| - 1 && j == i + 1 ensures Needs(b, p[i], p[j]) {
      assert Needs(a, p[i], p[j]) && KeepsManager(a[p[i]], b[p[i]]);
    }
    assert IsChain(b, p, x, y);
  }

  lemma EarlyPositionKept(a: map<Id, Manager>, b: map<Id, Manager>, added: set<Id>, l: Listener, forced: bool)
    requires EarlyPosition(a, l, forced) && Keeps(a, b, added)
    ensures EarlyPosition(b, l, forced)
  {
    assert KeepsManager(a[l.manager], b[l.manager]);
    if l.index in a[l.manager].depCallbacks {
      LeadsKept(a, b, added, Named(a[l.manager].depArray[l.index]), l.manager);
    }
    hide Leads, Keeps;
  }

  lemma EarlyOkKept(a: map<Id, Manager>, b: map<Id, Manager>, before: set<Listener>, now: set<Listener>, id: Id,
                    requested: bool, forced: bool)
    requires EarlyOk(a, before, forced) && Keeps(a, b, {id}) && id in b && b[id].attached
    requires EarlyAfter(before, now, id, b[id].depArray, |b[id].depArray|, requested)
    requires EarlyWithout(before, now, b[id].depCallbacks, |b[id].depArray|)
    ensures EarlyOk(b, now, forced)
  {
    hide Keeps;
    forall l | l in now ensures EarlyPosition(b, l, forced) {
      if l in before { EarlyPositionKept(a, b, {id}, l, forced); }
    }
  }

  lemma KeepsTransitive(a: map<Id, Manager>, b: map<Id, Manager>, c: map<Id, Manager>, added: set<Id>)
    requires Keeps(a, b, {}) && Keeps(b, c, added)
    ensures Keeps(a, c, added)
  {
    forall k | k in a && a[k].attached ensures KeepsManager(a[k], c[k]) {
      assert KeepsManager(a[k], b[k]) && KeepsManager(b[k], c[k]);
    }
  }

  // While main deals with k, nothing changes about the others.
  lemma KeepsOthers(s: State, t: State, k: Id)
    requires t.managers.Keys == s.managers.Keys && k in s.managers && !s.managers[k].attached
    requires !t.managers[k].attached && Known(s, {k}) && t.loaded == s.loaded && t.waiting == s.waiting
    requires forall x :: x in s.managers && x != k ==>
      t.managers[x].attached == s.managers[x].attached && KeepsFields(s.managers[x], t.managers[x])
    ensures Known(t, {k}) && Keeps(s.managers, t.managers, {})
  {
    hide Keeps, KeepsFields;
    forall x | x in t.managers && x != k && !t.managers[x].attached ensures Awaited(t, x, t.managers[x]) {
      assert Awaited(s, x, s.managers[x]);
      FieldsKept(s.managers[x], t.managers[x]);
    }
    KeepsBy(s.managers, t.managers, k);
  }

  lemma FieldsKept(a: Manager, b: Manager)
    requires KeepsFields(a, b)
    ensures b.usingExports == a.usingExports && b.usingModule == a.usingModule
  {}

  lemma KeepsBy(a: map<Id, Manager>, b: map<Id, Manager>, k: Id)
    requires b.Keys == a.Keys && k in a && !a[k].attached && !b[k].attached
    requires forall x :: x in a && x != k ==> b[x].attached == a[x].attached && KeepsFields(a[x], b[x])
    ensures Keeps(a, b, {})
  {}

  lemma KeepsMore(a: map<Id, Manager>, id: Id)
    ensures Keeps(a, a, {id})
  {}

  lemma KeepsReflexive(a: map<Id, Manager>)
    ensures Keeps(a, a, {})
  {}

  lemma LoadsKnown(s: State, t: State, k: Id)
    requires Loads(s, t, k) && Known(s, {k}) && !s.managers[k].attached
    ensures Known(t, {}) && Keeps(s.managers, t.managers, {k})
  {
    hide Keeps, KeepsManager;
    forall x | x in t.managers && !t.managers[x].attached ensures Awaited(t, x, t.managers[x]) {
      assert Awaited(s, x, s.managers[x]);
    }
    hide Awaited;
    assert Keeps(s.managers, t.managers, {k}) by { LoadsKeeps(s, t, k); }
  }

  lemma LoadsKeeps(s: State, t: State, k: Id)
    requires Loads(s, t, k) && !s.managers[k].attached
    ensures Keeps(s.managers, t.managers, {k})
  {}

  lemma KeepsStatic(a: map<Id, Manager>, b: map<Id, Manager>, c: map<Id, Manager>, added: set<Id>)
    requires Keeps(a, b, added) && Keeps(b, c, {})
    ensures Keeps(a, c, added)
  {
    forall k | k in a && a[k].attached ensures KeepsManager(a[k], c[k]) {
      assert KeepsManager(a[k], b[k]) && KeepsManager(b[k], c[k]);
    }
  }

  /** No module that waits was given itself, for its own name after exports, instead of a callback. */
  ghost predicate NoSelfGap(s: State) {
    forall k, i ::
      k in s.managers && s.managers[k].attached && k in s.waiting && OwnAfterExports(s.managers, Listener(k, i)) ==>
      i in s.managers[k].depCallbacks
  }

  /** forceExec finds every callback it calls if and only if no waiting module was given itself early. */
  lemma NoGapIff(s: State, counter: nat, forced: bool)
    requires Inv(s, {}, {}) && AllSeen(s) && IdsOk(s.managers.Keys, counter) && EarlyOk(s.managers, s.early, forced)
    ensures NoGap(s) <==> NoSelfGap(s)
  {
    hide Managers, Links, Settled, Quiet, Defs, Waits, Status, Logged, IsDependency, OnCycle;
    if NoSelfGap(s) {
      forall k, i | k in s.managers && 0 <= i < |s.managers[k].depArray|
        && Named(s.managers[k].depArray[i]) in s.waiting
        ensures i in s.managers[k].depCallbacks
      {
        GapIsOwn(s, k, i, counter, forced);
      }
    }
  }

  // A position without a callback whose dependency waits holds the module's own name after exports.
  lemma GapIsOwn(s: State, k: Id, i: nat, counter: nat, forced: bool)
    requires Inv(s, {}, {}) && AllSeen(s) && IdsOk(s.managers.Keys, counter) && EarlyOk(s.managers, s.early, forced)
    requires k in s.managers && i < |s.managers[k].depArray| && Named(s.managers[k].depArray[i]) in s.waiting
    ensures i in s.managers[k].depCallbacks || OwnAfterExports(s.managers, Listener(k, i))
  {
    hide Managers, Links, Settled, Quiet, Defs, Waits, Status, Logged, OnCycle, IsDependency;
    WaitingIsManager(s, Named(s.managers[k].depArray[i]));
    var m := s.managers[k];
    assert ValuesOf(s, k, m, |m.depArray|);
    if i !in m.depCallbacks {
      assert Given(s, k, m, i);
      assert Listener(k, i) in s.early ==> EarlyPosition(s.managers, Listener(k, i), forced);
    }
  }

  lemma EarlyOkMore(ms: map<Id, Manager>, early: set<Listener>, forced: bool)
    requires EarlyOk(ms, early, forced)
    ensures EarlyOk(ms, early, true)
  {
    hide OnCycle, OwnAfterExports;
    forall l | l in early ensures EarlyPosition(ms, l, true) { assert EarlyPosition(ms, l, forced); }
  }

  // ---------- the calls of forceExec ----------

  // What has been traced has run, or is being forced.
  ghost predicate Traced(traced: set<Name>, ran: set<Id>, stack: set<Id>) {
    forall n :: n in traced ==> Named(n) in ran || Named(n) in stack
  }

  // Everything being forced depends on m.
  ghost predicate LeadTo(ms: map<Id, Manager>, stack: set<Id>, m: Id) { forall x :: x in stack ==> Leads(ms, x, m) }

  lemma TraceNext(traced: set<Name>, ran: set<Id>, stack: set<Id>, m: Id)
    requires Traced(traced, ran, stack) && m.Named?
    ensures Traced(traced + {m.name}, ran, stack + {m})
  {}

  lemma TraceDone(traced: set<Name>, ran: set<Id>, stack: set<Id>, m: Id)
    requires Traced(traced, ran, stack + {m}) && m in ran
    ensures Traced(traced, ran, stack)
  {}

  lemma TracedMore(traced: set<Name>, a: set<Id>, b: set<Id>, stack: set<Id>)
    requires Traced(traced, a, stack) && a <= b
    ensures Traced(traced, b, stack)
  {}

  // Everything being forced, m included, depends on m and on the dependency at position i of m.
  lemma StackLeads(s: State, a: State, stack: set<Id>, m: Id, i: nat)
    requires LeadTo(s.managers, stack, m) && Progress(s, a) && AllSeen(a) && m in a.managers
    requires i < |a.managers[m].depArray|
    ensures LeadTo(a.managers, stack + {m}, m) && LeadTo(a.managers, stack + {m}, Named(a.managers[m].depArray[i]))
  {
    ProgressKeeps(s, a);
    hide Progress, Leads;
    var d := Named(a.managers[m].depArray[i]);
    assert Needs(a.managers, m, d);
    hide Needs;
    LeadsItself(a.managers, m);
    LeadsOn(a.managers, m, m, d);
    forall x | x in stack ensures Leads(a.managers, x, m) && Leads(a.managers, x, d) {
      LeadsKept(s.managers, a.managers, {}, x, m);
      LeadsOn(a.managers, x, m, d);
    }
  }

  // A callback forceExec called: its dependency d has run and has its value, or d is being forced itself.
  lemma ForcedOnCycle(a: State, b: State, c: State, stack: set<Id>, m: Id, i: nat, before: set<Name>, value: Value)
    requires Progress(a, b) && Progress(b, c) && Inv(b, {}, {}) && m in a.managers && i < |a.managers[m].depArray|
    requires LeadTo(a.managers, stack + {m}, m) && Traced(before, a.ran, stack + {m})
    requires
      var d := a.managers[m].depArray[i];
      && Named(d) !in a.ran && (d !in before ==> Named(d) in b.ran) && value == ValueOf(b.defined, d)
      && (IsFinal(b, d, value) ==> c.early == b.early)
    ensures Listener(m, i) in c.early && Listener(m, i) !in b.early ==> OnCycle(c.managers, Listener(m, i))
  {
    var d := a.managers[m].depArray[i];
    ProgressKeeps(a, b);
    ProgressKeeps(b, c);
    ProgressStatic(a, b, m);
    ProgressStatic(b, c, m);
    RanIsDefined(b, d);
    hide Progress, Inv;
    if Named(d) !in b.ran {
      assert Leads(a.managers, Named(d), m);
      LeadsKept(a.managers, b.managers, {}, Named(d), m);
      LeadsKept(b.managers, c.managers, {}, Named(d), m);
    }
  }

  // Once everything has arrived, what forceExec hands on is a value of the dependency.
  lemma HandedOn(s: State, d: Name, execCb: ExecCb)
    requires Forcible(s) && Produced(s, execCb) && Named(d) in s.managers
    ensures IsValueOf(s, d, ValueOf(s.defined, d))
  {
    hide Managers, Links, Settled, Quiet, Values, Waits, Status, Logged, ProducedAt;
  }

  lemma RanIsDefined(s: State, d: Name)
    requires Inv(s, {}, {})
    ensures Named(d) in s.ran ==> d in s.defined
  {
    hide Managers, Links, Settled, Quiet, Values, Waits, Status, Logged;
  }

  lemma CyclesKept(a: State, b: State)
    requires Progress(a, b)
    ensures forall l :: OnCycle(a.managers, l) ==> OnCycle(b.managers, l)
  {
    ProgressKeeps(a, b);
    forall l | OnCycle(a.managers, l) ensures OnCycle(b.managers, l) {
      ProgressStatic(a, b, l.manager);
      LeadsKept(a.managers, b.managers, {}, Named(a.managers[l.manager].depArray[l.index]), l.manager);
    }
  }

  // A callback forceExec made fills a position early only on a cycle.
  lemma EarlyOkForced(a: State, b: State, k: Id, i: nat)
    requires EarlyOk(a.managers, a.early, true) && Progress(a, b) && AllSeen(a)
    requires k in a.managers && i in a.managers[k].depCallbacks && b.early <= a.early + {Listener(k, i)}
    requires Listener(k, i) in b.early && Listener(k, i) !in a.early ==> OnCycle(b.managers, Listener(k, i))
    ensures EarlyOk(b.managers, b.early, true)
  {
    hide Progress, OnCycle, OwnAfterExports;
    ProgressKeeps(a, b);
    assert KeepsManager(a.managers[k], b.managers[k]);
    forall l | l in b.early ensures EarlyPosition(b.managers, l, true) {
      if l in a.early { EarlyPositionKept(a.managers, b.managers, {}, l, true); }
    }
  }

  // Every module a manager lists has a manager.
  lemma DependencyIsManager(s: State, k: Id, i: nat, forced: bool)
    requires Inv(s, {}, {}) && EarlyOk(s.managers, s.early, forced) && k in s.managers && s.managers[k].attached
    requires i < |s.managers[k].depArray| && IsDependency(s.managers[k].depArray[i])
    ensures Named(s.managers[k].depArray[i]) in s.managers
  {
    hide Managers, Settled, Quiet, Defs, Status, Logged, OnCycle, IsDependency;
    var m := s.managers[k];
    var d := Named(m.depArray[i]);
    assert ValuesOf(s, k, m, |m.depArray|);
    if i in m.depCallbacks {
      assert DependsOn(s.managers, k, i, d);
    } else if Listener(k, i) in s.early {
      assert EarlyPosition(s.managers, Listener(k, i), forced);
    } else {
      assert Filled(s, m, i);
    }
  }

  // ---------- what factories produce ----------

  /** What executing a manager on these arguments gives: the literal, or what the factory makes of them. */
  function ResultOf(execCb: ExecCb, m: Manager, id: Id, args: map<nat, Value>): Value {
    match m.callback
    case Literal(v) => if id.Named? then v else Undefined
    case Factory(code) =>
      var out := execCb(code, args);
      if id.Named? then ModuleValue(m, out, if m.usingExports then ExportsObject(id.name) else Undefined) else out.ret
  }

  // The value of this execution is that of the manager's callback on the logged arguments, and the module's.
  ghost predicate ProducedAt(s: State, r: Run, execCb: ExecCb) {
    && r.id in s.managers && s.managers[r.id].attached && r.ret == ResultOf(execCb, s.managers[r.id], r.id, r.args)
    && (r.id.Named? ==> r.id.name in s.defined && s.defined[r.id.name] == r.ret)
  }

  // A module that is defined and has not run holds the object it asked for with exports.
  ghost predicate Unproduced(s: State) {
    forall n :: n in s.defined && Named(n) !in s.ran ==>
      Named(n) in s.managers && s.managers[Named(n)].usingExports && s.defined[n] == ExportsObject(n)
  }

  /** Every module that has run is defined as its factory, or its literal, says. */
  ghost predicate Produced(s: State, execCb: ExecCb) {
    Unproduced(s) && forall t :: 0 <= t < |s.log| ==> ProducedAt(s, s.log[t], execCb)
  }

  lemma SameResult(execCb: ExecCb, m: Manager, u: Manager, id: Id, args: map<nat, Value>)
    requires u.callback == m.callback && u.usingExports == m.usingExports && u.usingModule == m.usingModule
    ensures ResultOf(execCb, u, id, args) == ResultOf(execCb, m, id, args)
  {}

  // What a module that has not run finds of itself in defined.
  lemma OwnValue(s: State, m: Id, owed: set<Listener>, ready: set<Id>)
    requires Inv(s, owed, ready) && Unproduced(s) && m in s.managers && m.Named? && m !in s.ran
    ensures ValueOf(s.defined, m.name) == if s.managers[m].usingExports then ExportsObject(m.name) else Undefined
  {
    hide Managers, Links, Settled, Quiet, Values, Waits, Status, Logged;
  }

  lemma ProducedParts(s: State, execCb: ExecCb)
    requires Produced(s, execCb)
    ensures Unproduced(s)
  {}

  lemma NotYetRun(s: State, m: Id)
    requires CanExecute(s, m)
    ensures m in s.managers && m !in s.ran
  {}

  lemma NothingProduced(execCb: ExecCb)
    ensures
      var s := State(map[], {}, [], 0, map[], map[], {}, [], {});
      Inv(s, {}, {}) && Produced(s, execCb)
  {}

  // What stays the same about a manager main has dealt with.
  ghost predicate KeptManagers(s: State, t: State) {
    forall k :: k in s.managers && s.managers[k].attached ==>
      k in t.managers && KeepsManager(s.managers[k], t.managers[k])
  }

  lemma ProducedAtKept(s: State, t: State, r: Run, execCb: ExecCb)
    requires ProducedAt(s, r, execCb) && KeptManagers(s, t)
    requires r.id.Named? ==> SameValue(s.defined, t.defined, r.id.name)
    ensures ProducedAt(t, r, execCb)
  {
    hide ResultOf;
    assert KeepsManager(s.managers[r.id], t.managers[r.id]);
    SameResult(execCb, s.managers[r.id], t.managers[r.id], r.id, r.args);
  }

  lemma ProducedKept(s: State, t: State, owed: set<Listener>, ready: set<Id>, execCb: ExecCb)
    requires Produced(s, execCb) && Inv(s, owed, ready) && KeptManagers(s, t) && t.log == s.log && Unproduced(t)
    requires forall n :: Named(n) in s.ran ==> SameValue(s.defined, t.defined, n)
    ensures Produced(t, execCb)
  {
    hide ProducedAt, KeptManagers, Unproduced, Inv, SameValue;
    forall x | 0 <= x < |t.log| ensures ProducedAt(t, t.log[x], execCb) {
      LoggedHasRun(s, x, owed, ready);
      ProducedAtKept(s, t, s.log[x], execCb);
    }
  }

  lemma LoggedHasRun(s: State, t: nat, owed: set<Listener>, ready: set<Id>)
    requires Inv(s, owed, ready) && t < |s.log|
    ensures s.log[t].id in s.ran
  {
    hide Managers, Links, Settled, Quiet, Values, Defs, Waits, Status, InOrder;
  }

  lemma ExecutesProduced(s: State, t: State, m: Id, ret: Value, owed: set<Listener>, execCb: ExecCb)
    requires CanExecute(s, m) && Inv(s, owed, {m}) && Produced(s, execCb) && Executes(s, t, m, ret)
    requires ret == ResultOf(execCb, s.managers[m], m, s.managers[m].deps)
    ensures Produced(t, execCb)
  {
    hide Inv, ResultOf;
    SameResult(execCb, s.managers[m], t.managers[m], m, s.managers[m].deps);
    assert ProducedAt(t, t.log[|s.log|], execCb);
    assert KeptManagers(s, t);
    hide ProducedAt, KeptManagers, CanExecute;
    forall x | 0 <= x < |t.log| ensures ProducedAt(t, t.log[x], execCb) {
      if x < |s.log| {
        LoggedHasRun(s, x, owed, {m});
        ProducedAtKept(s, t, s.log[x], execCb);
      }
    }
  }

  lemma FillsProduced(s: State, t: State, k: Id, i: nat, v: Value, owed: set<Listener>, execCb: ExecCb)
    requires CanFill(s, k, i) && Inv(s, owed, {}) && Produced(s, execCb) && Fills(s, t, k, i, v)
    ensures Produced(t, execCb)
  {
    hide Inv, ProducedAt, ResultOf, IsFinal;
    ProducedKept(s, t, owed, {}, execCb);
  }

  /** What the first i entries of the array do to the manager main is at: exports and module are remembered, a
      module's own name after exports gets a callback if the module was asked for, and a value if not. */
  ghost predicate Took(a: Manager, b: Manager, id: Id, arr: seq<Name>, i: nat, requested: bool)
    requires i <= |arr|
  {
    && b.callback == a.callback && b.usingExports == (a.usingExports || "exports" in arr[..i])
    && b.usingModule == (a.usingModule || "module" in arr[..i])
    && forall j :: 0 <= j < i && id.Named? && SelfAfterExports(id.name, arr, j) ==> (j in b.depCallbacks <==> requested)
  }

  // One more entry.
  ghost predicate TookOne(a: Manager, b: Manager, id: Id, arr: seq<Name>, i: nat, requested: bool)
    requires i < |arr|
  {
    && b.callback == a.callback && b.usingExports == (a.usingExports || arr[i] == "exports")
    && b.usingModule == (a.usingModule || arr[i] == "module")
    && (forall j :: j != i ==> (j in b.depCallbacks <==> j in a.depCallbacks))
    && (id.Named? && SelfAfterExports(id.name, arr, i) ==> (i in b.depCallbacks <==> requested))
  }

  lemma TookNext(a: Manager, b: Manager, c: Manager, id: Id, arr: seq<Name>, i: nat, requested: bool)
    requires i < |arr| && Took(a, b, id, arr, i, requested) && TookOne(b, c, id, arr, i, requested)
    ensures Took(a, c, id, arr, i + 1, requested)
  {
    assert arr[..i + 1] == arr[..i] + [arr[i]];
    hide SelfAfterExports;
  }

  // main has dealt with all of arr for id: exports, if it is there, is what the module is defined as by now.
  lemma TakesAllProduced(s: State, t: State, id: Id, arr: seq<Name>, execCb: ExecCb)
    requires Produced(s, execCb) && Inv(s, {}, {}) && Keeps(s.managers, t.managers, {}) && t.log == s.log
    requires t.ran == s.ran && id !in s.ran && (id.Named? ==> id.name !in s.defined)
    requires id in t.managers && (t.managers[id].usingExports <==> "exports" in arr)
    requires if "exports" in arr then id.Named? && t.defined == s.defined[id.name := ExportsObject(id.name)]
      else t.defined == s.defined
    ensures Produced(t, execCb)
  {
    hide Managers, Links, Settled, Quiet, Values, Waits, Status, Logged, ProducedAt, ResultOf;
    forall n | n in t.defined && Named(n) !in t.ran
      ensures Named(n) in t.managers && t.managers[Named(n)].usingExports && t.defined[n] == ExportsObject(n)
    {
      if Named(n) != id { assert KeepsManager(s.managers[Named(n)], t.managers[Named(n)]); }
    }
    hide Defs;
    ProducedKept(s, t, {}, {}, execCb);
  }

  lemma LoadsProduced(s: State, t: State, k: Id, execCb: ExecCb)
    requires Produced(s, execCb) && Inv(s, {}, {k}) && Loads(s, t, k)
    ensures Produced(t, execCb)
  {
    hide Inv, ProducedAt, ResultOf;
    ProducedKept(s, t, {}, {k}, execCb);
  }

  lemma AddsWaitProduced(s: State, t: State, k: Id, execCb: ExecCb)
    requires Produced(s, execCb) && AddsWait(s, t, k)
    ensures Produced(t, execCb)
  {
    hide ResultOf;
    forall x | 0 <= x < |t.log| ensures ProducedAt(t, t.log[x], execCb) {
      assert ProducedAt(s, s.log[x], execCb);
    }
  }

  // What main gave the manager, while it is still at the dependencies.
  ghost predicate KeepsGiven(a: Manager, b: Manager) {
    b.callback == a.callback && b.usingExports == a.usingExports && b.usingModule == a.usingModule
  }

  lemma SelfAfterMeans(id: Id, arr: seq<Name>, i: nat)
    requires i < |arr| && id.Named?
    ensures SelfAfterExports(id.name, arr, i) <==> arr[i] == id.name && "exports" in arr[..i]
  {}

  lemma TookNothing(m: Manager, id: Id, arr: seq<Name>, requested: bool)
    ensures Took(m, m, id, arr, 0, requested)
  {
    assert arr[..0] == [];
  }

  lemma BuildingInv(s: State, k: Id, arr: seq<Name>)
    requires Building(s, k, arr, |arr|)
    ensures Inv(s, {}, {k})
  {}

  lemma AttachesKnown(s: State, t: State, k: Id, arr: seq<Name>, cb: Callback)
    requires Attaches(s, t, k, arr, cb) && Known(s, {})
    ensures Known(t, {k}) && Keeps(s.managers, t.managers, {})
  {
    forall x | x in t.managers && x != k && !t.managers[x].attached ensures Awaited(t, x, t.managers[x]) {
      assert Awaited(s, x, s.managers[x]);
    }
  }

  lemma ProgressManager(a: State, b: State, m: Id)
    requires Progress(a, b) && m in a.managers && a.managers[m].attached
    ensures m in b.managers && KeepsManager(a.managers[m], b.managers[m])
  {
    ProgressKeeps(a, b);
  }

  lemma KeysWithinSame(keys: set<Id>, id: Id, arr: seq<Name>)
    ensures KeysWithin(keys, keys, id, arr)
  {}

  // A loaded module has been dealt with.
  lemma LoadedIsAttached(s: State, n: Name)
    requires Inv(s, {}, {}) && Known(s, {}) && n in s.loaded && s.loaded[n]
    ensures Named(n) in s.managers && s.managers[Named(n)].attached
  {
    hide Managers, Links, Settled, Quiet, Values, Defs, Waits, Logged;
    assert StatusOk(s, Named(n), s.managers[Named(n)]);
  }

  lemma KeysWithinNext(before: set<Id>, now: set<Id>, next: set<Id>, id: Id, arr: seq<Name>, i: nat)
    requires KeysWithin(before, now, id, arr) && i < |arr| && next <= now + {Named(arr[i])}
    ensures KeysWithin(before, next, id, arr)
  {}

  lemma KeysWithinOwn(before: set<Id>, now: set<Id>, id: Id, arr: seq<Name>)
    requires KeysWithin(before + {id}, now, id, arr)
    ensures KeysWithin(before, now, id, arr)
  {}

  // A module that main has not dealt with has a manager exactly if it waits.
  lemma AwaitedIffManager(s: State, id: Id)
    requires Inv(s, {}, {}) && Known(s, {}) && (id in s.managers ==> !s.managers[id].attached)
    ensures id in s.managers <==> id in s.waiting
  {
    hide Managers, Links, Settled, Quiet, Values, Defs, Status, Logged;
    if id in s.managers { assert Awaited(s, id, s.managers[id]); }
  }

  lemma AnonymousIsNew(s: State, counter: nat)
    requires Inv(s, {}, {}) && IdsOk(s.managers.Keys, counter)
    ensures Anonymous(counter) !in s.managers && Anonymous(counter) !in s.ran
  {
    InvParts(s, {}, {});
    WaitParts(s);
  }

  lemma IdsMore(keys: set<Id>, id: Id, counter: nat, next: nat)
    requires IdsOk(keys, counter)
    requires if id.Named? then IsDependency(id.name) && next == counter else id.n == counter && next == counter + 1
    ensures IdsOk(keys + {id}, next)
  {}

  // The managers after a call of main: those before, its own, and those of its dependencies.
  lemma MainKeys(a: map<Id, Manager>, s: State, id: Id, arr: seq<Name>, counter: nat, forced: bool)
    requires Inv(s, {}, {}) && EarlyOk(s.managers, s.early, forced) && IdsOk(s.managers.Keys, counter)
    requires Keeps(a, s.managers, {id}) && KeysWithin(a.Keys, s.managers.Keys, id, arr)
    requires id in s.managers && s.managers[id].attached && s.managers[id].depArray == arr
    ensures forall n :: Named(n) in s.managers <==> Named(n) in a || Named(n) == id || (IsDependency(n) && n in arr)
  {
    hide Inv, EarlyOk, IsDependency;
    forall n | IsDependency(n) && n in arr ensures Named(n) in s.managers {
      var i :| 0 <= i < |arr| && arr[i] == n;
      DependencyIsManager(s, id, i, forced);
    }
  }

  // ---------- what the invariant says ----------

  /** So no manager is executed twice. */
  lemma ExecutedOnce(s: State, t: nat, u: nat)
    requires Inv(s, {}, {}) && t < |s.log| && u < |s.log| && s.log[t].id == s.log[u].id
    ensures t == u
  {
    hide Managers, Links, Settled, Quiet, Values, Defs, Waits, Status;
  }

  // At execution t position i got the value of its dependency, which had been executed before.
  ghost predicate ArgumentOk(s: State, t: nat, i: nat)
    requires t < |s.log| && s.log[t].id in s.managers && i < |s.managers[s.log[t].id].depArray|
  {
    var d := s.managers[s.log[t].id].depArray[i];
    RanBefore(s.log, t, Named(d)) && d in s.defined && i in s.log[t].args && s.log[t].args[i] == s.defined[d]
  }

  // Or it got what its dependency is before it has run, or has in defined now.
  ghost predicate EarlyArgumentOk(s: State, t: nat, i: nat)
    requires t < |s.log| && s.log[t].id in s.managers && i < |s.managers[s.log[t].id].depArray|
  {
    var d := s.managers[s.log[t].id].depArray[i];
    ArgumentAt(s.log[t].args, i) == Unfinished(s.managers, d) || ArgumentAt(s.log[t].args, i) == ValueOf(s.defined, d)
  }

  ghost predicate ArgumentsOk(s: State, t: nat, forced: bool)
    requires t < |s.log|
  {
    var k := s.log[t].id;
    && k in s.managers && OwnValues(k, s.log[t].args, s.managers[k].depArray, |s.managers[k].depArray|)
    && forall i :: 0 <= i < |s.managers[k].depArray| && IsDependency(s.managers[k].depArray[i]) ==>
      if Excused(s.managers, Listener(k, i), forced) then EarlyArgumentOk(s, t, i) else ArgumentOk(s, t, i)
  }

  // The module is defined as its literal; or as module.exports, if the factory, run on the logged arguments, put
  // something else there; or as what the factory returned; or, if it returned nothing, as its exports object.
  ghost predicate DefinedBy(s: State, r: Run, execCb: ExecCb) {
    && r.id in s.managers && (r.id.Named? ==> r.id.name in s.defined && s.defined[r.id.name] == r.ret)
    && match s.managers[r.id].callback
       case Literal(v) => r.id.Named? ==> r.ret == v
       case Factory(code) =>
         var out, arr := execCb(code, r.args), s.managers[r.id].depArray;
         var own := if r.id.Named? && "exports" in arr then ExportsObject(r.id.name) else Undefined;
         if r.id.Named? && "module" in arr && out.exported !in {Undefined, own} then r.ret == out.exported
         else if out.ret != Undefined then r.ret == out.ret
         else r.ret == own
  }

  // A manager remembers whether its dependencies list exports and module.
  ghost predicate Flags(m: Manager) {
    (m.usingExports <==> "exports" in m.depArray) && (m.usingModule <==> "module" in m.depArray)
  }

  lemma ResultIsDefined(s: State, r: Run, execCb: ExecCb)
    requires ProducedAt(s, r, execCb) && Flags(s.managers[r.id]) && (r.id.Anonymous? ==> !s.managers[r.id].usingExports)
    ensures DefinedBy(s, r, execCb)
  {}

  /** Every execution so far came after those of its dependencies and got the values in defined, but for the positions
      that are excused: they may hold what the dependency was before it had run. At the places of require, exports and
      module it got the module's own objects, and nothing at empty entries. And the module is defined as its literal, or
      its factory on these arguments, says. */
  ghost predicate InTurn(s: State, forced: bool, execCb: ExecCb) {
    forall t :: 0 <= t < |s.log| ==> ArgumentsOk(s, t, forced) && DefinedBy(s, s.log[t], execCb)
  }

  lemma ArgumentsAt(s: State, t: nat, forced: bool)
    requires Inv(s, {}, {}) && EarlyOk(s.managers, s.early, forced) && t < |s.log|
    ensures ArgumentsOk(s, t, forced)
  {
    LoggedValues(s, t);
    hide Inv, EarlyOk, Excused, ArgumentOk, EarlyArgumentOk, OwnValues;
    forall i | 0 <= i < |s.managers[s.log[t].id].depArray| && IsDependency(s.managers[s.log[t].id].depArray[i])
      ensures if Excused(s.managers, Listener(s.log[t].id, i), forced) then EarlyArgumentOk(s, t, i)
        else ArgumentOk(s, t, i)
    {
      EarlyArgument(s, t, i);
      if !Excused(s.managers, Listener(s.log[t].id, i), forced) {
        NotExcusedNotEarly(s.managers, s.early, Listener(s.log[t].id, i), forced);
        ArgumentIsValue(s, t, i);
      }
    }
  }

  lemma LoggedValues(s: State, t: nat)
    requires Inv(s, {}, {}) && t < |s.log|
    ensures s.log[t].id in s.managers
    ensures var m := s.managers[s.log[t].id];
      && s.log[t].args == m.deps && OwnValues(s.log[t].id, m.deps, m.depArray, |m.depArray|)
      && forall i :: 0 <= i < |m.depArray| && IsDependency(m.depArray[i]) ==> Given(s, s.log[t].id, m, i)
  {
    hide Managers, Links, Settled, Quiet, Defs, Waits, Given, OwnValues, InOrder;
    var k := s.log[t].id;
    assert StatusOk(s, k, s.managers[k]);
    assert ValuesOf(s, k, s.managers[k], |s.managers[k].depArray|);
  }

  lemma EarlyArgument(s: State, t: nat, i: nat)
    requires Inv(s, {}, {}) && t < |s.log| && s.log[t].id in s.managers
    requires i < |s.managers[s.log[t].id].depArray| && IsDependency(s.managers[s.log[t].id].depArray[i])
    ensures EarlyArgumentOk(s, t, i)
  {
    LoggedValues(s, t);
    hide Inv;
    assert Given(s, s.log[t].id, s.managers[s.log[t].id], i);
  }

  lemma ArgumentsAreValues(s: State, forced: bool, execCb: ExecCb)
    requires Inv(s, {}, {}) && EarlyOk(s.managers, s.early, forced) && Produced(s, execCb)
    requires forall k :: k in s.managers && s.managers[k].attached ==> Flags(s.managers[k])
    ensures InTurn(s, forced, execCb)
  {
    hide Inv, EarlyOk, ArgumentsOk, Unproduced, ResultOf, DefinedBy, Flags;
    forall t | 0 <= t < |s.log| ensures ArgumentsOk(s, t, forced) && DefinedBy(s, s.log[t], execCb) {
      ArgumentsAt(s, t, forced);
      assert ProducedAt(s, s.log[t], execCb);
      if s.managers[s.log[t].id].usingExports { OnlyNamedExport(s, s.log[t].id); }
      ResultIsDefined(s, s.log[t], execCb);
    }
  }

  lemma OnlyNamedExport(s: State, k: Id)
    requires Inv(s, {}, {}) && k in s.managers && s.managers[k].usingExports
    ensures k.Named?
  {
    hide Managers, Links, Settled, Quiet, Values, Waits, Status, Logged;
  }

  lemma NotExcusedNotEarly(ms: map<Id, Manager>, early: set<Listener>, l: Listener, forced: bool)
    requires EarlyOk(ms, early, forced) && !Excused(ms, l, forced)
    ensures l !in early
  {
    hide OnCycle, OwnAfterExports;
  }

  lemma ArgumentIsValue(s: State, t: nat, i: nat)
    requires Inv(s, {}, {}) && t < |s.log| && s.log[t].id in s.managers
    requires i < |s.managers[s.log[t].id].depArray| && IsDependency(s.managers[s.log[t].id].depArray[i])
    requires Listener(s.log[t].id, i) !in s.early
    ensures ArgumentOk(s, t, i)
  {
    LoggedValues(s, t);
    hide Managers, Links, Settled, Quiet, Values, Defs, Waits, Status, LoggedOnce;
    assert InOrder(s, t);
    assert Given(s, s.log[t].id, s.managers[s.log[t].id], i);
  }

  // What main gave a manager in place is there.
  lemma OwnAreGiven(s: State, k: Id)
    requires Inv(s, {}, {}) && k in s.managers && s.managers[k].attached
    ensures OwnValues(k, s.managers[k].deps, s.managers[k].depArray, |s.managers[k].depArray|)
  {
    hide Managers, Links, Settled, Quiet, Defs, Waits, Status, Logged, OwnValues, Given;
    assert ValuesOf(s, k, s.managers[k], |s.managers[k].depArray|);
  }

  /** In particular the counters say what their names say. */
  lemma Counters(s: State, k: Id)
    requires Inv(s, {}, {})
    ensures s.waitCount == |s.waiting| && (k in s.waiting ==> k in s.waitAry && k in s.managers)
    ensures k in s.managers ==> s.managers[k].depCount == |s.managers[k].depCallbacks - s.managers[k].depDone|
    ensures k in s.managers && s.managers[k].attached ==> (k in s.waiting <==> k !in s.ran)
  {
    hide Links, Settled, Values, Defs, Logged;
    if k in s.managers {
      ManagersAt(s.managers, k);
      assert QuietManager(s, k, s.managers[k]) && StatusOk(s, k, s.managers[k]);
    }
  }

  // ---------- a module that lists itself after exports ----------

  const A_NAME: Name := "a"
  const B_NAME: Name := "b"
  const A_DEPS: seq<Name> := ["exports", "a", "b"]
  const B_DEPS: seq<Name> := ["a"]

  lemma RunsAfter(s: State, t: nat, k: Id, i: nat)
    requires Inv(s, {}, {}) && EarlyOk(s.managers, s.early, false) && t < |s.log| && s.log[t].id == k && k in s.managers
    requires i < |s.managers[k].depArray| && IsDependency(s.managers[k].depArray[i])
    requires !OwnAfterExports(s.managers, Listener(k, i))
    ensures RanBefore(s.log, t, Named(s.managers[k].depArray[i]))
  {
    hide Inv, EarlyOk, OwnAfterExports, IsDependency, RanBefore;
    ArgumentsAt(s, t, false);
    assert ArgumentOk(s, t, i);
  }

  // a and b need each other, so neither has run.
  lemma NeitherHasRun(s: State)
    requires Inv(s, {}, {}) && EarlyOk(s.managers, s.early, false)
    requires Named(A_NAME) in s.managers && s.managers[Named(A_NAME)].depArray == A_DEPS
    requires Named(B_NAME) in s.managers && s.managers[Named(B_NAME)].depArray == B_DEPS
    ensures Named(A_NAME) !in s.ran && Named(B_NAME) !in s.ran
  {
    hide EarlyOk, Inv;
    forall t | 0 <= t < |s.log| && s.log[t].id == Named(A_NAME) ensures false {
      RunsAfter(s, t, Named(A_NAME), 2);
      var u :| 0 <= u < t && s.log[u].id == Named(B_NAME);
      RunsAfter(s, u, Named(B_NAME), 0);
      var v :| 0 <= v < u && s.log[v].id == Named(A_NAME);
      ExecutedOnce(s, t, v);
    }
    forall t | 0 <= t < |s.log| && s.log[t].id == Named(B_NAME) ensures false {
      RunsAfter(s, t, Named(B_NAME), 0);
    }
    RanIsLogged(s, Named(A_NAME));
    RanIsLogged(s, Named(B_NAME));
  }

  lemma RanIsLogged(s: State, k: Id)
    requires Inv(s, {}, {})
    ensures k in s.ran ==> exists t :: 0 <= t < |s.log| && s.log[t].id == k
  {
    hide Managers, Links, Settled, Quiet, Values, Defs, Waits, Status;
    assert k in s.ran ==> RanBefore(s.log, |s.log|, k);
  }

  lemma Waiting(s: State, k: Id)
    requires Inv(s, {}, {}) && k in s.managers && s.managers[k].attached && k !in s.ran
    ensures k in s.waiting
  {
    hide Managers, Links, Settled, Values, Defs, Waits, Status, Logged;
    assert QuietManager(s, k, s.managers[k]);
  }

  lemma WaitingAreManagers(s: State)
    requires Inv(s, {}, {})
    ensures s.waiting <= s.managers.Keys
  {
    hide Managers, Links, Settled, Quiet, Values, Defs, Status, Logged;
  }
}
