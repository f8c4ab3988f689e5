/** The module loader of require.js: execManager, makeArgCallback, forceExec, main and the define queues. */
module ModuleLoader {
  import opened DefineQueues
  import opened LoaderState
  import opened Options

  class Loader {
    const execCb: ExecCb
    var managers: map<Id, Manager>
    var waiting: set<Id>
    var waitAry: seq<Id>
    var waitCount: int
    var defined: map<Name, Value>
    var loaded: map<Name, bool>
    var paused: seq<Id>
    var managerCounter: nat
    var globalDefQueue: seq<Record>
    var defQueue: seq<Record>
    ghost var ran: set<Id>
    ghost var log: seq<Run>
    ghost var early: set<Listener>
    ghost var forced: bool  // whether cycles have been broken
    ghost var calls: seq<Call>  // the calls of main so far
    ghost var lost: seq<Record>  // the records lost to mismatch errors

    constructor (execCb: ExecCb)
      ensures Valid() && QueuesOk() && this.execCb == execCb && !forced
      ensures S() == State(map[], {}, [], 0, map[], map[], {}, [], {}) && Q() == NO_QUEUES
    {
      hide Inv, Produced, FromCalls;
      this.execCb, forced := execCb, false;
      managers, waiting, waitAry, waitCount := map[], {}, [], 0;
      defined, loaded, paused, managerCounter := map[], map[], [], 0;
      ran, log, early := {}, [], {};
      globalDefQueue, defQueue, calls, lost := [], [], [], [];
      NothingProduced(execCb);
      NothingCalled();
    }

    ghost function Q(): Queues
      reads this`globalDefQueue, this`defQueue, this`calls, this`lost
    {
      Queues(globalDefQueue, defQueue, calls, lost)
    }

    ghost function S(): State
      reads this`managers, this`waiting, this`waitAry, this`waitCount, this`defined, this`loaded, this`ran, this`log,
        this`early
    {
      State(managers, waiting, waitAry, waitCount, defined, loaded, ran, log, early)
    }

    // The first half of execManager: call the factory and define the module.
    method Define(m: Id) returns (ret: Value)
      requires m in managers && (managers[m].usingExports ==> m.Named? && m.name in defined)
      modifies this`defined
      ensures defined == if m.Named? then old(defined)[m.name := ret] else old(defined)
      ensures m.Named? && managers[m].callback.Factory? ==>
        ret == ModuleValue(managers[m], execCb(managers[m].callback.code, managers[m].deps),
          ValueOf(old(defined), m.name))
      ensures managers[m].callback.Literal? ==> ret == if m.Named? then managers[m].callback.value else Undefined
      ensures m.Anonymous? && managers[m].callback.Factory? ==>
        ret == execCb(managers[m].callback.code, managers[m].deps).ret
    {
      var mgr := managers[m];
      ret := Undefined;
      if mgr.callback.Factory? {
        var out := execCb(mgr.callback.code, mgr.deps);
        ret := out.ret;
        if m.Named? {
          if mgr.usingModule && out.exported != Undefined && out.exported != ValueOf(defined, m.name) {
            ret := out.exported;
            defined := defined[m.name := ret];
          } else if ret == Undefined && mgr.usingExports {
            ret := defined[m.name];
          } else {
            defined := defined[m.name := ret];
          }
        }
      } else if m.Named? {
        ret := mgr.callback.value;
        defined := defined[m.name := ret];
      }
    }

    method StopWaiting(m: Id)
      requires m in managers
      modifies this`managers, this`waiting, this`waitAry, this`waitCount
      ensures managers == old(managers)[m := old(managers)[m].(isDone := old(managers)[m].isDone || m in old(waiting))]
      ensures waiting == old(waiting) - {m}
      ensures waitCount == if m in old(waiting) then old(waitCount) - 1 else old(waitCount)
      ensures waitAry == if m in old(waiting) && waitCount == 0 then [] else old(waitAry)
    {
      if m in waiting {
        waiting := waiting - {m};
        managers := managers[m := managers[m].(isDone := true)];
        waitCount := waitCount - 1;
        if waitCount == 0 {
          waitAry := [];
        }
      } else {
        assert managers[m := managers[m].(isDone := managers[m].isDone)] == managers;
      }
    }

    // execManager up to its listeners: define the module and stop waiting.
    method Execute(m: Id) returns (ret: Value)
      requires m in managers && (managers[m].usingExports ==> m.Named? && m.name in defined)
      requires m.Named? ==>
        ValueOf(defined, m.name) == if managers[m].usingExports then ExportsObject(m.name) else Undefined
      modifies this`managers, this`waiting, this`waitAry, this`waitCount, this`defined, this`ran, this`log
      ensures Executes(old(S()), S(), m, ret)
      ensures ret == ResultOf(execCb, old(managers[m]), m, old(managers[m].deps))
    {
      hide ModuleValue;
      ret := Define(m);
      ran, log := ran + {m}, log + [Run(m, managers[m].deps, ret)];
      StopWaiting(m);
    }

    /** execManager as a whole: execute m, then call every listener with its value. What its factory, or its literal,
        makes of its arguments is logged and, for a module, defined. */
    method ExecManager(m: Id, ghost owed: set<Listener>)
      requires CanExecute(S(), m) && Inv(S(), owed, {m}) && Produced(S(), execCb)
      modifies this`managers, this`waiting, this`waitAry, this`waitCount, this`defined, this`ran, this`log, this`early
      ensures Inv(S(), owed, {}) && Progress(old(S()), S()) && early == old(early) && m in ran
      ensures Produced(S(), execCb) && |log| > |old(log)|
      ensures
        var was := old(managers[m]);
        log[|old(log)|] == Run(m, was.deps, ResultOf(execCb, was, m, was.deps))
      decreases Undone(managers), 2
    {
      hide Inv, Progress, Executes, CanExecute, Produced, ResultOf;
      ghost var s := S();
      ExecutionIsDue(s, m, owed);
      if m.Named? { OwnValue(s, m, owed, {m}) by { ProducedParts(s, execCb); NotYetRun(s, m); } }
      var ret := Execute(m);
      ghost var u := S();
      ExecutesKeepsInv(s, u, m, ret, owed);
      ExecutesProduced(s, u, m, ret, owed, execCb);
      ExecutesProgress(s, u, m, ret);
      AfterExecute(s, u, m, ret);
      var listeners := managers[m].listeners;
      var i := 0;
      while i < |listeners|
        invariant 0 <= i <= |listeners|
        invariant Inv(S(), owed + ListenersFrom(listeners, i), {}) && Progress(u, S()) && early == old(early)
        invariant Produced(S(), execCb)
      {
        ghost var v := S();
        ListenerIsDue(v, u, m, i, owed + ListenersFrom(listeners, i));
        var l := listeners[i];
        assert ListenersFrom(listeners, i) == ListenersFrom(listeners, i + 1) + {l};
        assert owed + ListenersFrom(listeners, i) ==
          owed + ListenersFrom(listeners, i + 1) + {Listener(l.manager, l.index)};
        ArgCallback(l.manager, l.index, ret, owed + ListenersFrom(listeners, i + 1));
        ProgressTransitive(u, v, S());
        i := i + 1;
      }
      assert owed + ListenersFrom(listeners, i) == owed;
      ProgressTransitive(s, u, S());
      ProgressGrows(u, S());
      LogGrows(u, S());
    }

    /** The function made by makeArgCallback: the first call fills position i of k. */
    method ArgCallback(k: Id, i: nat, value: Value, ghost owed: set<Listener>)
      requires k in managers && i in managers[k].depCallbacks && i < |managers[k].depArray|
      requires Inv(S(), owed + {Listener(k, i)}, {}) && Produced(S(), execCb)
      requires IsValueOf(S(), managers[k].depArray[i], value)
      modifies this`managers, this`waiting, this`waitAry, this`waitCount, this`defined, this`ran, this`log, this`early
      ensures Inv(S(), owed, {}) && Progress(old(S()), S()) && k in managers && i in managers[k].depDone
      ensures Produced(S(), execCb)
      ensures early == if i in old(managers[k].depDone) || IsFinal(old(S()), old(managers[k].depArray[i]), value)
        then old(early) else old(early) + {Listener(k, i)}
      decreases Undone(managers), 1
    {
      hide Inv, Progress, IsFinal, IsValueOf, CanExecute, Undone, Produced;
      ghost var s := S();
      var m := managers[k];
      if i !in m.depDone {
        CallbackIsDue(s, k, i, owed + {Listener(k, i)});
        managers := managers[k := m.(depDone := m.depDone + {i}, deps := m.deps[i := value],
          depCount := m.depCount - 1)];
        if !IsFinal(s, m.depArray[i], value) { early := early + {Listener(k, i)}; }
        ghost var t := S();
        CallbackFills(s, t, k, i, value, owed);
        FillsProduced(s, t, k, i, value, owed + {Listener(k, i)}, execCb);
        if managers[k].depCount == 0 {
          ExecManager(k, owed);
          ProgressTransitive(s, t, S());
          ProgressGrows(t, S());
        }
      } else {
        CallbackWasDone(s, k, i, owed);
      }
    }

    /** forceExec: trace through the dependencies that still wait, handing each position the value its dependency has
        at that moment. A module it has not traced before has run afterwards, and its value is returned; only positions
        on a dependency cycle are filled early. It fails if it would call a callback that does not exist. The stack is
        that of the calls of forceExec that are being made. */
    method ForceExec(m: Id, tracedBefore: set<Name>, ghost stack: set<Id>)
      returns (failed: bool, value: Value, traced: set<Name>)
      requires Forcible(S()) && m in managers && EarlyOk(managers, early, true) && Produced(S(), execCb)
      requires Traced(tracedBefore, ran, stack) && LeadTo(managers, stack, m)
      modifies this`managers, this`waiting, this`waitAry, this`waitCount, this`defined, this`ran, this`log, this`early
      ensures Forcible(S()) && Progress(old(S()), S()) && EarlyOk(managers, early, true) && Produced(S(), execCb)
      ensures failed ==> !NoGap(old(S()))
      ensures !failed ==> Traced(traced, ran, stack) && tracedBefore <= traced
      ensures !failed && m.Named? && m.name !in tracedBefore ==> m in ran
      ensures !failed && m.Named? && m !in old(ran) ==> value == ValueOf(defined, m.name)
      ensures forall l :: l in early && l !in old(early) ==> OnCycle(managers, l)
      decreases Untraced(managers.Keys, tracedBefore)
    {
      hide Inv, Progress, Forcible, EarlyOk, Leads, LeadTo, Traced, OnCycle, Produced, NoGap;
      ghost var s := S();
      ForcibleParts(s);
      StatusAt(s, m);
      failed, traced := false, tracedBefore;
      if managers[m].isDone || m.Anonymous? || !(m.name in loaded && loaded[m.name]) {
        return false, Undefined, traced;
      }
      if m.name in traced {
        return false, ValueOf(defined, m.name), traced;
      }
      traced := traced + {m.name};
      TraceNext(tracedBefore, ran, stack, m);
      var depArray := managers[m].depArray;
      var i := 0;
      while i < |depArray|
        invariant 0 <= i <= |depArray| && tracedBefore + {m.name} <= traced && !failed
        invariant Forcible(S()) && Progress(s, S()) && EarlyOk(managers, early, true)
        invariant Traced(traced, ran, stack + {m}) && Produced(S(), execCb)
        invariant m in managers && managers.Keys == s.managers.Keys
        invariant managers[m].depArray == depArray && managers[m].depCallbacks == s.managers[m].depCallbacks
        invariant forall j :: 0 <= j < i && j in managers[m].depCallbacks ==> j in managers[m].depDone
        invariant forall l :: l in early && l !in s.early ==> OnCycle(managers, l)
      {
        ghost var a := S();
        ForcedPosition(a, m, i);
        ForcibleParts(a);
        var d := depArray[i];
        if d != "" && Named(d) in waiting && !managers[Named(d)].isDone && d in loaded && loaded[d] {
          assert m in Untraced(s.managers.Keys, tracedBefore) && m !in Untraced(managers.Keys, traced);
          WaitingIsManager(a, Named(d));
          StackLeads(s, a, stack, m, i);
          ghost var before := traced;
          failed, value, traced := ForceExec(Named(d), traced, stack + {m});
          ghost var b := S();
          ForcibleParts(b);
          ProgressStatic(a, b, m);
          CyclesKept(a, b);
          if failed || i !in managers[m].depCallbacks {
            GapBefore(s, a, m, i);
            ProgressTransitive(s, a, b);
            return true, Undefined, traced;
          }
          OwedLess(b, {}, {} + {Listener(m, i)}, {});
          HandedOn(b, d, execCb);
          ArgCallback(m, i, value, {});
          ghost var c := S();
          ProgressStatic(b, c, m);
          ProgressForcible(b, c);
          ForcedOnCycle(a, b, c, stack, m, i, before, value);
          EarlyOkForced(b, c, m, i);
          TracedMore(traced, b.ran, c.ran, stack + {m});
          CyclesKept(b, c);
          ProgressTransitive(a, b, c);
          ProgressTransitive(s, a, c);
        }
        i := i + 1;
      }
      ForcibleParts(S());
      forall j | j in managers[m].depCallbacks ensures j in managers[m].depDone {
        CallbackIsDependency(S(), m, j);
      }
      AllDoneHasRun(S(), m);
      TraceDone(traced, ran, stack, m);
      value := ValueOf(defined, m.name);
    }

    /** The pass of checkLoaded over waitAry: when everything has arrived, whatever cycles there are, every manager that
        waits is executed, each exactly once, and nothing waits any more; unless forceExec fails. */
    method ForceWaiting() returns (failed: bool)
      requires Forcible(S()) && EarlyOk(managers, early, true) && Produced(S(), execCb)
      modifies this`managers, this`waiting, this`waitAry, this`waitCount, this`defined, this`ran, this`log, this`early
      ensures Inv(S(), {}, {}) && Progress(old(S()), S()) && EarlyOk(managers, early, true) && Produced(S(), execCb)
      ensures failed ==> !NoGap(old(S()))
      ensures !failed ==> waiting == {} && waitCount == 0 && ran == old(ran) + old(waiting)
      ensures !failed ==> multiset(Ids(log)) == multiset(Ids(old(log))) + multiset(old(waiting))
    {
      hide Inv, Progress, Forcible, EarlyOk, Produced, NoGap;
      ghost var s := S();
      ForcibleParts(s);
      var i := 0;
      while i < |waitAry|
        invariant 0 <= i && Forcible(S()) && Progress(s, S()) && EarlyOk(managers, early, true)
        invariant Produced(S(), execCb)
        invariant waitAry == s.waitAry || (waitAry == [] && waiting == {})
        invariant forall j :: 0 <= j < i && j < |s.waitAry| && s.waitAry[j].Named? ==> s.waitAry[j] in ran
        decreases |s.waitAry| - i
      {
        ghost var a := S();
        WaitAryIsManagers(a, i);
        var value, traced;
        failed, value, traced := ForceExec(waitAry[i], {}, {});
        ProgressTransitive(s, a, S());
        if failed {
          if NoGap(s) { GapWasThere(s, a); }
          ForcibleParts(S());
          return true;
        }
        PassStep(a, S());
        i := i + 1;
      }
      ForcibleParts(S());
      NothingNamedLeft(s, S());
      NamedRanAllRan(S());
      PassRan(s, S());
      failed := false;
    }

    // addWait.
    method AddWait(id: Id)
      modifies this`waiting, this`waitAry, this`waitCount
      ensures AddsWait(old(S()), S(), id)
    {
      if id !in waiting {
        waiting, waitAry, waitCount := waiting + {id}, waitAry + [id], waitCount + 1;
      }
    }

    // getManager for a dependency: one manager for each name, made and queued when first asked for.
    method GetManager(d: Name)
      requires Waits(S())
      modifies this`managers, this`waiting, this`waitAry, this`waitCount, this`loaded, this`paused
      ensures if Named(d) in old(managers) then S() == old(S()) && paused == old(paused)
        else Requests(old(S()), S(), d) && paused == old(paused) + [Named(d)]
    {
      if Named(d) !in managers {
        managers := managers[Named(d) := EMPTY_MANAGER];
        loaded := loaded[d := false];
        paused := paused + [Named(d)];
        AddWait(Named(d));
      }
    }

    // The CommonJS names are given a value in place.
    method TakeReserved(id: Id, i: nat, ghost arr: seq<Name>)
      requires Building(S(), id, arr, i) && i < |arr| && !IsDependency(arr[i])
      requires id.Anonymous? ==> arr[i] != "exports"
      requires Known(S(), {id})
      modifies this`managers, this`defined
      ensures Known(S(), {id})
      ensures Building(S(), id, arr, i + 1) && S() == old(S()).(managers := managers, defined := defined)
      ensures Keeps(old(managers), managers, {}) && managers.Keys == old(managers.Keys)
      ensures managers[id] == old(managers[id]).(deps := managers[id].deps,
        usingExports := old(managers[id].usingExports) || arr[i] == "exports",
        usingModule := old(managers[id].usingModule) || arr[i] == "module")
      ensures defined == if arr[i] == "exports" then old(defined)[id.name := ExportsObject(id.name)] else old(defined)
    {
      hide Inv, ValuesOf, Known, Keeps;
      ghost var s := S();
      BuildingParts(s, id, arr, i);
      var m := managers[id];
      var d := m.depArray[i];
      NotYetGiven(s, id, arr, i);
      assert IsDependency(d) <==> d != "" && d != "require" && d != "exports" && d != "module";
      if d == "require" {
        m := m.(deps := m.deps[i := RequireFunction(id)]);
      } else if d == "exports" {
        m := m.(deps := m.deps[i := ExportsObject(id.name)], usingExports := true);
        defined := defined[id.name := ExportsObject(id.name)];
      } else if d == "module" {
        m := m.(deps := m.deps[i := ModuleObject(id)], usingModule := true);
      }
      managers := managers[id := m];
      KeepsOthers(s, S(), id);
      TakesKeepsBuilding(s, S(), id, m, arr, i);
    }

    // A dependency that is defined and not waiting: its value is taken at once.
    method TakeDefined(id: Id, i: nat, ghost arr: seq<Name>)
      requires Building(S(), id, arr, i) && i < |arr| && IsDependency(arr[i])
      requires arr[i] in defined && Named(arr[i]) !in waiting
      requires Known(S(), {id}) && OwnExports(S(), id)
      modifies this`managers, this`early
      ensures Known(S(), {id})
      ensures Building(S(), id, arr, i + 1) && Keeps(old(managers), managers, {}) && managers.Keys == old(managers.Keys)
      ensures managers[id] == old(managers[id]).(deps := managers[id].deps)
      ensures early == if id == Named(arr[i]) then old(early) + {Listener(id, i)} else old(early)
    {
      hide Inv, ValuesOf, Known, Keeps;
      ghost var s := S();
      BuildingParts(s, id, arr, i);
      if Named(arr[i]) !in ran {
        DefinedHasRun(s, id, arr, i, arr[i]);
        early := early + {Listener(id, i)};
      }
      var m := managers[id].(deps := managers[id].deps[i := defined[managers[id].depArray[i]]]);
      managers := managers[id := m];
      KeepsOthers(s, S(), id);
      TakenIsGiven(s, S(), id, arr[i], i);
      TakesKeepsBuilding(s, S(), id, m, arr, i);
    }

    // Any other dependency: a callback is registered with its manager.
    method RegisterWith(id: Id, i: nat, d: Name, ghost arr: seq<Name>)
      requires Building(S(), id, arr, i) && i < |arr| && IsDependency(arr[i]) && d == arr[i]
      requires Named(d) in managers && Named(d) !in ran
      requires Known(S(), {id})
      modifies this`managers
      ensures Known(S(), {id})
      ensures Building(S(), id, arr, i + 1) && Keeps(old(managers), managers, {}) && managers.Keys == old(managers.Keys)
      ensures managers[id].depCallbacks == old(managers)[id].depCallbacks + {i}
      ensures KeepsGiven(old(managers)[id], managers[id])
    {
      hide Inv, ValuesOf, Known, Keeps;
      ghost var s := S();
      BuildingParts(s, id, arr, i);
      var m := managers[id];
      managers := managers[id := m.(depCount := m.depCount + 1, depCallbacks := m.depCallbacks + {i})];
      managers := managers[Named(d) :=
        managers[Named(d)].(listeners := managers[Named(d)].listeners + [Listener(id, i)])];
      KeepsOthers(s, S(), id);
      RegistersKeepsBuilding(s, S(), id, i, Named(d), arr);
    }

    // A dependency on a module: its value if it is defined and not waiting, else a callback.
    method TakeDependency(id: Id, i: nat, ghost arr: seq<Name>)
      requires Building(S(), id, arr, i) && i < |arr| && IsDependency(arr[i])
      requires Known(S(), {id}) && OwnExports(S(), id)
      modifies this`managers, this`waiting, this`waitAry, this`waitCount, this`loaded, this`paused, this`early
      ensures Known(S(), {id})
      ensures Building(S(), id, arr, i + 1)
      ensures Keeps(old(managers), managers, {})
      ensures id in managers && id in old(managers) && managers[id].depCallbacks == old(managers)[id].depCallbacks
        + if arr[i] in defined && Named(arr[i]) !in old(waiting) then {} else {i}
      ensures KeepsGiven(old(managers)[id], managers[id])
      ensures managers.Keys == old(managers.Keys) + {Named(arr[i])} || managers.Keys == old(managers.Keys)
      ensures id in waiting <==> id in old(waiting)
      ensures early == if id == Named(arr[i]) && arr[i] in defined && id !in waiting
        then old(early) + {Listener(id, i)} else old(early)
    {
      hide Building, Requests, Waits, Known, Keeps;
      ghost var s := S();
      BuildingParts(s, id, arr, i);
      var d := managers[id].depArray[i];
      if d in defined && Named(d) !in waiting {
        TakeDefined(id, i, arr);
      } else {
        NotDefinedHasNotRun(s, id, arr, i, d);
        BuildingWaits(s, id, arr, i);
        GetManager(d);
        RequestsAt(s, S(), d, id, arr, i);
        ghost var t := S();
        RegisterWith(id, i, d, arr);
        KeepsTransitive(s.managers, t.managers, managers, {});
      }
    }

    /** Between two calls of main: the loader is in order, what has run is defined as its factory says, and the
        managers have what main was called with. */
    ghost predicate Valid()
      reads this`managers, this`waiting, this`waitAry, this`waitCount, this`defined, this`loaded, this`managerCounter
      reads this`ran, this`log, this`early, this`forced, this`calls
    {
      && Inv(S(), {}, {}) && IdsOk(managers.Keys, managerCounter) && Known(S(), {})
      && EarlyOk(managers, early, forced) && Produced(S(), execCb) && FromCalls(managers, calls, managerCounter)
    }

    // getManager and the first lines of main: attach what define was given.
    method Attach(id: Id, depArray: seq<Name>, callback: Callback)
      requires Inv(S(), {}, {}) && id !in ran && (id in managers ==> !managers[id].attached)
      requires id.Named? ==> !(id.name in loaded && loaded[id.name])
      requires Known(S(), {})
      modifies this`managers
      ensures Building(S(), id, depArray, 0) && managers.Keys == old(managers.Keys) + {id}
      ensures Known(S(), {id}) && Keeps(old(managers), managers, {})
      ensures managers[id].callback == callback && !managers[id].usingExports && !managers[id].usingModule
    {
      hide Inv, Building;
      ghost var s := S();
      var m := if id in managers then managers[id] else EMPTY_MANAGER;
      assert id in managers ==> Awaited(s, id, managers[id]);
      managers := managers[id := m.(depArray := depArray, callback := callback)];
      AttachesStartsBuilding(s, S(), id, depArray, callback);
      AttachesKnown(s, S(), id, depArray, callback);
    }

    // One turn of the loop of main over the dependencies.
    method TakeEntry(id: Id, i: nat, ghost arr: seq<Name>)
      requires Building(S(), id, arr, i) && i < |arr| && Known(S(), {id})
      requires IdsOk(managers.Keys, managerCounter) && OwnExports(S(), id)
      requires id.Anonymous? ==> arr[i] != "exports"
      requires id in managers
      requires id.Named? ==> IsDependency(id.name) && (id.name in defined <==> "exports" in arr[..i])
      modifies this`managers, this`waiting, this`waitAry, this`waitCount, this`defined, this`loaded, this`paused,
        this`early
      ensures Building(S(), id, arr, i + 1) && Known(S(), {id}) && Keeps(old(managers), managers, {})
      ensures OwnExports(S(), id)
      ensures IdsOk(managers.Keys, managerCounter) && (id in waiting <==> id in old(waiting))
      ensures managers.Keys <= old(managers).Keys + {Named(arr[i])}
      ensures id in managers && managers[id].depCallbacks <= old(managers)[id].depCallbacks + {i}
      ensures early != old(early) ==> managers[id].depCallbacks == old(managers)[id].depCallbacks
      ensures early == if id == Named(arr[i]) && "exports" in arr[..i] && id !in old(waiting)
        then old(early) + {Listener(id, i)} else old(early)
      ensures defined == if arr[i] == "exports" then old(defined)[id.name := ExportsObject(id.name)] else old(defined)
      ensures TookOne(old(managers)[id], managers[id], id, arr, i, id in old(waiting))
    {
      hide Building, Known, Keeps, SelfAfterExports;
      ghost var t := S();
      BuildingParts(t, id, arr, i);
      assert id.Named? ==> (SelfAfterExports(id.name, arr, i) <==> arr[i] == id.name && "exports" in arr[..i]) by {
        if id.Named? { SelfAfterMeans(id, arr, i); }
      }
      if IsDependency(managers[id].depArray[i]) {
        TakeDependency(id, i, arr);
      } else {
        TakeReserved(id, i, arr);
      }
    }

    // The loop of main over the dependencies.
    method TakeAll(id: Id, depArray: seq<Name>)
      requires Building(S(), id, depArray, 0) && Known(S(), {id}) && IdsOk(managers.Keys, managerCounter)
      requires id.Anonymous? ==> "exports" !in depArray
      requires id.Named? ==> IsDependency(id.name) && id.name !in defined
      modifies this`managers, this`waiting, this`waitAry, this`waitCount, this`defined, this`loaded, this`paused,
        this`early
      ensures Building(S(), id, depArray, |depArray|) && Known(S(), {id})
      ensures Keeps(old(managers), managers, {})
      ensures IdsOk(managers.Keys, managerCounter)
      ensures EarlyAfter(old(early), early, id, depArray, |depArray|, id in old(waiting))
      ensures id in managers && EarlyWithout(old(early), early, managers[id].depCallbacks, |depArray|)
      ensures KeysWithin(old(managers).Keys, managers.Keys, id, depArray)
      ensures id in old(managers)
      ensures Took(old(managers)[id], managers[id], id, depArray, |depArray|, id in old(waiting))
      ensures defined ==
        if "exports" in depArray then old(defined)[id.name := ExportsObject(id.name)] else old(defined)
    {
      hide Building, Known, Keeps, EarlyWithout, EarlyAfter, Took, TookOne, IdsOk, KeysWithin, OwnExports;
      ghost var s := S();
      BuildingParts(s, id, depArray, 0);
      NoOwnExports(s, id);
      EarlyStarts(early, managers[id].depCallbacks, id, depArray, id in waiting);
      TookNothing(managers[id], id, depArray, id in waiting);
      KeepsReflexive(managers);
      KeysWithinSame(managers.Keys, id, depArray);
      var i := 0;
      while i < |depArray|
        invariant 0 <= i <= |depArray| && Building(S(), id, depArray, i) && IdsOk(managers.Keys, managerCounter)
        invariant Known(S(), {id}) && Keeps(s.managers, managers, {}) && OwnExports(S(), id)
        invariant id in managers && forall j :: j in managers[id].depCallbacks ==> j < i
        invariant EarlyWithout(old(early), early, managers[id].depCallbacks, i)
        invariant KeysWithin(s.managers.Keys, managers.Keys, id, depArray)
        invariant id in waiting <==> id in old(waiting)
        invariant defined ==
          if "exports" in depArray[..i] then old(defined)[id.name := ExportsObject(id.name)] else old(defined)
        invariant EarlyAfter(old(early), early, id, depArray, i, id in old(waiting))
        invariant Took(s.managers[id], managers[id], id, depArray, i, id in old(waiting))
      {
        ghost var t := S();
        assert depArray[..i + 1] == depArray[..i] + [depArray[i]];
        TakeEntry(id, i, depArray);
        EarlyNext(old(early), t.early, early, id, depArray, i, id in old(waiting));
        EarlyWithoutNext(old(early), t.early, early, t.managers[id].depCallbacks, managers[id].depCallbacks, id, i);
        TookNext(s.managers[id], t.managers[id], managers[id], id, depArray, i, id in old(waiting));
        KeepsTransitive(s.managers, t.managers, managers, {});
        KeysWithinNext(s.managers.Keys, t.managers.Keys, managers.Keys, id, depArray, i);
        i := i + 1;
      }
      assert depArray[..i] == depArray;
    }

    // The last lines of main: execute the manager, or let it wait.
    method Finish(id: Id, ghost arr: seq<Name>)
      requires Building(S(), id, arr, |arr|) && Known(S(), {id}) && Produced(S(), execCb)
      modifies this`managers, this`waiting, this`waitAry, this`waitCount, this`defined, this`loaded, this`ran, this`log,
        this`early
      ensures Inv(S(), {}, {}) && Known(S(), {}) && Keeps(old(managers), managers, {id}) && Produced(S(), execCb)
      ensures managers.Keys == old(managers.Keys) && early == old(early)
      ensures old(ran) <= ran && |old(log)| <= |log| && log[..|old(log)|] == old(log)
      ensures id in managers && (id in ran || id in waiting)
      ensures id in old(managers) && KeepsManager(old(managers)[id], managers[id])
      ensures id.Named? ==> id.name in loaded && loaded[id.name]
    {
      hide Inv, Building, Progress, Keeps, Known, Produced;
      ghost var s := S();
      BuildingParts(s, id, arr, |arr|);
      managers := managers[id := managers[id].(attached := true)];
      if id.Named? { loaded := loaded[id.name := true]; }
      ghost var t := S();
      LoadsKeepsInv(s, t, id, arr);
      LoadsKnown(s, t, id);
      LoadsProduced(s, t, id, execCb) by { BuildingInv(s, id, arr); }
      if managers[id].depCount == 0 {
        ExecManager(id, {});
        ProgressManager(t, S(), id);
        ProgressSets(t, S());
        ProgressLog(t, S());
        ProgressKeeps(t, S());
        StillKnown(t, S());
        KeepsStatic(s.managers, t.managers, managers, {id});
      } else {
        AddWait(id);
        AddsWaitKeepsInv(t, S(), id);
        AddsWaitKnown(t, S(), id);
        AddsWaitProduced(t, S(), id, execCb);
      }
    }

    // The part of main for a manager that it has not dealt with.
    method Take(id: Id, depArray: seq<Name>, callback: Callback)
      requires Inv(S(), {}, {}) && id !in ran && (id in managers ==> !managers[id].attached)
      requires Known(S(), {}) && EarlyOk(managers, early, forced) && Produced(S(), execCb)
      requires IdsOk(managers.Keys + {id}, managerCounter) && (id.Anonymous? ==> "exports" !in depArray)
      requires id.Named? ==> id.name !in defined && !(id.name in loaded && loaded[id.name])
      modifies this`managers, this`waiting, this`waitAry, this`waitCount, this`defined, this`loaded, this`paused,
        this`ran, this`log, this`early
      ensures Inv(S(), {}, {}) && IdsOk(managers.Keys, managerCounter) && Known(S(), {})
      ensures EarlyOk(managers, early, forced) && Produced(S(), execCb)
      ensures id.Named? ==> id.name in loaded && loaded[id.name]
      ensures id in managers && FromCall(managers[id], Call(None, depArray, callback, None))
      ensures id in ran || id in waiting
      ensures id.Named? ==> OwnGiven(managers[id], id.name, id in old(waiting))
      ensures EarlyAfter(old(early), early, id, depArray, |depArray|, id in old(waiting))
      ensures Keeps(old(managers), managers, {id}) && KeysWithin(old(managers).Keys, managers.Keys, id, depArray)
      ensures old(ran) <= ran && |old(log)| <= |log| && log[..|old(log)|] == old(log)
    {
      hide Inv, Building, Known, Keeps, EarlyOk, EarlyAfter, EarlyWithout, Produced, KeysWithin, OwnGiven, IdsOk,
        FromCall,
        IsDependency;
      ghost var s := S();
      NamedIsDependency(managers.Keys, id, managerCounter);
      Attach(id, depArray, callback);
      ghost var a := S();
      TakeAll(id, depArray);
      ghost var b := S();
      KeepsTransitive(s.managers, a.managers, b.managers, {});
      assert depArray[..|depArray|] == depArray;
      BuildingParts(b, id, depArray, |depArray|);
      TakesAllProduced(s, b, id, depArray, execCb);
      Finish(id, depArray);
      KeepsTransitive(s.managers, b.managers, managers, {id});
      KeysWithinOwn(s.managers.Keys, managers.Keys, id, depArray);
      BuiltIsGiven(a.managers[id], b.managers[id], managers[id], id, depArray, callback, id in s.waiting);
      EarlyOkKept(s.managers, managers, s.early, early, id, id in s.waiting, forced);
    }

    /** main: what define(name, depArray, callback) and require(depArray, callback) come to. A name that is loaded
        already changes nothing; otherwise the manager has what main was given, and waits or has been executed. The
        record is the one of define that the call is made for, if there is one. */
    method MainCall(inName: Option<Name>, depArray: seq<Name>, callback: Callback, ghost record: Option<Record>)
      returns (id: Id)
      requires Valid()
      requires inName.Some? ==> IsDependency(inName.value)
      requires inName.None? ==> "exports" !in depArray
      modifies this`managers, this`waiting, this`waitAry, this`waitCount, this`defined, this`loaded, this`paused,
        this`managerCounter, this`ran, this`log, this`early, this`calls
      ensures Valid() && calls == old(calls) + [Call(inName, depArray, callback, record)]
      ensures id == (if inName.Some? then Named(inName.value) else Anonymous(old(managerCounter)))
      ensures id.Named? ==> id.name in loaded && loaded[id.name]
      ensures id.Named? && (id.name in old(loaded) && old(loaded)[id.name]) ==> S() == old(S())
      ensures id.Anonymous? || !(id.name in old(loaded) && old(loaded)[id.name]) ==>
        && id in managers && FromCall(managers[id], Call(inName, depArray, callback, record))
        && (id in ran || id in waiting) && OwnValues(id, managers[id].deps, depArray, |depArray|)
        && EarlyAfter(old(early), early, id, depArray, |depArray|, id in old(waiting))
      ensures Keeps(old(managers), managers, {id}) && KeysWithin(old(managers).Keys, managers.Keys, id, depArray)
      ensures old(ran) <= ran && |old(log)| <= |log| && log[..|old(log)|] == old(log)
    {
      hide Inv, Known, Keeps, EarlyOk, EarlyAfter, Produced, FromCalls, IdsOk, KeysWithin, OwnGiven, OwnValues;
      ghost var s, c, counter := S(), Call(inName, depArray, callback, record), managerCounter;
      calls := calls + [c];
      if inName.Some? {
        id := Named(inName.value);
        if id.name in defined { DefinedIsLoaded(s, id.name); }
        if id.name in defined || (id.name in loaded && loaded[id.name]) {
          KeepsMore(managers, id);
          KeysWithinSame(managers.Keys, id, depArray);
          LoadedIsAttached(s, id.name);
          FromCallsAgain(managers, old(calls), counter, c);
          return;
        }
        NotLoadedIsNew(s, id.name);
        AwaitedIffManager(s, id);
      } else {
        id := Anonymous(managerCounter);
        managerCounter := managerCounter + 1;
        AnonymousIsNew(s, counter);
      }
      IdsMore(managers.Keys, id, counter, managerCounter);
      Take(id, depArray, callback);
      MainKeys(s.managers, S(), id, depArray, managerCounter, forced);
      SameFromCall(managers[id], Call(None, depArray, callback, None), c);
      FromCallsNext(s.managers, managers, old(calls), counter, c);
      OwnAreGiven(S(), id);
    }

    ghost predicate QueuesOk()
      reads this`globalDefQueue, this`defQueue
    {
      forall r :: r in globalDefQueue || r in defQueue ==> NamedOk(r)
    }

    // define.
    method DefineCall(r: Record)
      requires QueuesOk() && NamedOk(r)
      modifies this`globalDefQueue
      ensures QueuesOk() && globalDefQueue == old(globalDefQueue) + [r]
    {
      globalDefQueue := globalDefQueue + [r];
    }

    method TakeGlobalQueue()
      requires QueuesOk()
      modifies this`globalDefQueue, this`defQueue
      ensures QueuesOk() && globalDefQueue == [] && defQueue == Spliced(old(defQueue), old(globalDefQueue))
    {
      SplicedHas(defQueue, globalDefQueue);
      if globalDefQueue != [] {
        var k := if |defQueue| == 0 then 0 else |defQueue| - 1;
        defQueue := defQueue[..k] + globalDefQueue + defQueue[k..];
        globalDefQueue := [];
      }
      hide NamedOk;
    }

    // Shift the next record off the queue and call main for it, under the name m.
    method HandOver(m: Name)
      requires Valid() && QueuesOk() && IsDependency(m) && |defQueue| > 0
      modifies this`managers, this`waiting, this`waitAry, this`waitCount, this`defined, this`loaded, this`paused,
        this`managerCounter, this`ran, this`log, this`early, this`defQueue, this`calls
      ensures Valid() && QueuesOk() && defQueue == old(defQueue)[1..]
      ensures calls == old(calls) + [CallFor(old(defQueue)[0], m)] && m in loaded && loaded[m]
    {
      hide Valid, NamedOk, EarlyAfter, Keeps, FromCall;
      var r := defQueue[0];
      defQueue := defQueue[1..];
      var id := MainCall(Some(m), r.deps, r.callback, Some(r));
    }

    // The loop of completeLoad: main is called for the records of other modules in front of the one for m.
    method HandOthers(m: Name)
      requires Valid() && QueuesOk()
      modifies this`managers, this`waiting, this`waitAry, this`waitCount, this`defined, this`loaded, this`paused,
        this`managerCounter, this`ran, this`log, this`early, this`defQueue, this`calls
      ensures Valid() && QueuesOk() && defQueue == old(defQueue)[FirstFor(old(defQueue), m)..]
      ensures calls == old(calls) + NamedCalls(old(defQueue)[..FirstFor(old(defQueue), m)])
    {
      hide Valid, QueuesOk, NamedCalls;
      ghost var q, k := defQueue, FirstFor(defQueue, m);
      ghost var n: nat := 0;
      assert calls == old(calls) + NamedCalls(q[..0]) by { NoCalls(calls); }
      while |defQueue| > 0 && !Answers(defQueue[0], m)
        invariant Valid() && QueuesOk()
        invariant n <= k && defQueue == q[n..] && calls == old(calls) + NamedCalls(q[..n])
        decreases |defQueue|
      {
        NamedInQueue();
        NamedCallsGrow(old(calls), q, n);
        HandOver(defQueue[0].name.value);
        n := n + 1;
      }
      assert n == k;
    }

    // The last call of completeLoad: for the record of m, or for a script without a define call.
    method HandOwn(m: Name)
      requires Valid() && QueuesOk() && IsDependency(m)
      modifies this`managers, this`waiting, this`waitAry, this`waitCount, this`defined, this`loaded, this`paused,
        this`managerCounter, this`ran, this`log, this`early, this`defQueue, this`calls
      ensures Valid() && QueuesOk() && m in loaded && loaded[m]
      ensures calls == old(calls) + [OwnCall(old(defQueue), m)]
      ensures defQueue == if old(defQueue) == [] then [] else old(defQueue)[1..]
    {
      hide Valid, QueuesOk, EarlyAfter, Keeps, FromCall;
      if |defQueue| > 0 {
        HandOver(m);
      } else {
        var id := MainCall(Some(m), [], Literal(Null), None);
      }
    }

    /** completeLoad up to resume: main is called for the records in front of the one for m, in their order, and then
        for m, exactly once. */
    method TakeDefine(m: Name)
      requires Valid() && QueuesOk() && IsDependency(m)
      modifies this
      ensures Valid() && QueuesOk() && Q() == Completed(old(Q()), m) && forced == old(forced)
      ensures m in loaded && loaded[m]
    {
      hide Valid, QueuesOk, Spliced, NamedCalls, FirstFor;
      TakeGlobalQueue();
      ghost var d, k := defQueue, FirstFor(defQueue, m);
      HandOthers(m);
      HandOwn(m);
      assert k < |d| ==> d[k..][1..] == d[k + 1..];
    }

    // The loop of resume, up to a record without a name.
    method HandNamed()
      requires Valid() && QueuesOk()
      modifies this`managers, this`waiting, this`waitAry, this`waitCount, this`defined, this`loaded, this`paused,
        this`managerCounter, this`ran, this`log, this`early, this`defQueue, this`calls
      ensures Valid() && QueuesOk() && defQueue == old(defQueue)[FirstUnnamed(old(defQueue))..]
      ensures calls == old(calls) + NamedCalls(old(defQueue)[..FirstUnnamed(old(defQueue))])
    {
      hide Valid, QueuesOk, NamedCalls;
      ghost var q, k := defQueue, FirstUnnamed(defQueue);
      ghost var n: nat := 0;
      assert calls == old(calls) + NamedCalls(q[..0]) by { NoCalls(calls); }
      while |defQueue| > 0 && defQueue[0].name != None
        invariant Valid() && QueuesOk()
        invariant n <= k && defQueue == q[n..] && calls == old(calls) + NamedCalls(q[..n])
        decreases |defQueue|
      {
        NamedInQueue();
        NamedCallsGrow(old(calls), q, n);
        HandOver(defQueue[0].name.value);
        n := n + 1;
      }
      assert n == k;
    }

    /** resume: main is called for every queued record in front of the first one without a name; that one is lost to
        a mismatch error, and the rest stays queued. */
    method Resume() returns (mismatch: bool)
      requires Valid() && QueuesOk()
      modifies this
      ensures Valid() && QueuesOk() && Q() == Resumed(old(Q())) && forced == old(forced)
      ensures mismatch <==> exists r :: (r in old(defQueue) || r in old(globalDefQueue)) && r.name == None
      ensures |lost| == |old(lost)| + (if mismatch then 1 else 0)
    {
      hide Valid, QueuesOk, FirstUnnamed, Spliced, NamedCalls;
      UnnamedInSplice(defQueue, globalDefQueue);
      TakeGlobalQueue();
      ghost var d, k := defQueue, FirstUnnamed(defQueue);
      HandNamed();
      mismatch := |defQueue| > 0;
      if mismatch {
        assert defQueue[0] == d[k] && defQueue[1..] == d[k + 1..];
        LoseFirst();
      } else {
        paused := [];
      }
    }

    // The error exit of resume: the anonymous record is gone, the rest stays queued.
    method LoseFirst()
      requires QueuesOk() && |defQueue| > 0
      modifies this`defQueue, this`lost
      ensures QueuesOk() && defQueue == old(defQueue)[1..] && lost == old(lost) + [old(defQueue)[0]]
    {
      hide NamedOk;
      lost, defQueue := lost + [defQueue[0]], defQueue[1..];
    }

    /** completeLoad: main is called for the records of other modules in front of that of m, for m, and for what named
        records are left up to one without a name. Exactly if there is such a one it is lost to a mismatch error. */
    method CompleteLoad(m: Name) returns (mismatch: bool)
      requires Valid() && QueuesOk() && IsDependency(m)
      modifies this
      ensures Valid() && QueuesOk() && Q() == QueueStep(old(Q()), LoadEvent(m)) && forced == old(forced)
      ensures m in loaded && loaded[m]
      ensures mismatch <==> exists r :: r in LeftBy(old(Q()), m) && r.name == None
      ensures |lost| == |old(lost)| + (if mismatch then 1 else 0)
    {
      hide Valid, QueuesOk, Spliced, FirstUnnamed, NamedCalls, FirstFor, Resumed;
      TakeDefine(m);
      ghost var q := Q();
      CalledFor(m);
      mismatch := Resume();
      ResumedGrows(q);
      StillLoaded(m, q.calls);
    }

    /** checkLoaded: once every script has arrived, what still waits is forced; after the time limit also while scripts
        are in flight, and if a module has not arrived by then that is an error. The call repeated after forcing, down
        to a certain depth, finds nothing left. Forcing fails only if a waiting module lists its own name after exports
        without having been asked for before. */
    method CheckLoaded(scriptsInFlight: bool, expired: bool, depth: nat)
      returns (broken: bool, timedOut: bool, failed: bool)
      requires Valid() && depth <= 5
      modifies this`managers, this`waiting, this`waitAry, this`waitCount, this`defined, this`ran, this`log, this`early,
        this`forced
      ensures Valid() && forced == (old(forced) || broken)
      ensures timedOut <==> expired && exists n :: n in loaded && !loaded[n]
      ensures broken <==>
        old(waitCount) > 0 && (expired || !scriptsInFlight) && forall n :: n in loaded ==> loaded[n]
      ensures !broken ==> S() == old(S()) && !failed
      ensures broken && !failed ==> waiting == {} && waitCount == 0 && ran == old(ran) + old(waiting)
      ensures failed ==> !OwnWereAsked(old(waiting), calls)
      decreases 5 - depth
    {
      hide Inv, EarlyOk, IdsOk, Known, Produced, FromCalls, AllSeen, NoGap, OwnWereAsked;
      var allLoaded := forall n | n in loaded :: loaded[n];
      timedOut, failed := expired && !allLoaded, false;
      broken := !timedOut && (expired || (allLoaded && !scriptsInFlight)) && waitCount > 0;
      if broken {
        ghost var s := S();
        EverythingLoaded(s);
        GapIff(s, calls, managerCounter, forced);
        EarlyOkMore(managers, early, forced);
        forced := true;
        failed := ForceWaiting();
        ProgressKeeps(s, S());
        StillKnown(s, S());
        FromCallsKept(s.managers, managers, calls, managerCounter);
        if !failed && depth < 5 {
          var again, late, wrong := CheckLoaded(scriptsInFlight, expired, depth + 1);
        }
      }
    }

    // One event.
    method TakeEvent(e: Event) returns (mismatch: bool, failed: bool)
      requires Valid() && QueuesOk() && EventOk(e)
      modifies this
      ensures Valid() && QueuesOk() && Q() == QueueStep(old(Q()), e)
      ensures |lost| == |old(lost)| + (if mismatch then 1 else 0)
      ensures !e.CheckEvent? ==> forced == old(forced)
      ensures failed ==> e.CheckEvent? && !OwnWereAsked(old(waiting), calls)
      ensures !failed && AtRest(e) ==> waiting == {}
    {
      hide Valid, QueuesOk, EarlyAfter, Keeps, FromCall, Completed, Resumed, OwnWereAsked, OwnValues;
      mismatch, failed := false, false;
      match e
      case DefineEvent(r) => DefineCall(r);
      case RequireEvent(deps, callback) => var id := MainCall(None, deps, callback, None);
      case LoadEvent(m) => mismatch := CompleteLoad(m);
      case ResumeEvent => mismatch := Resume();
      case CheckEvent(scriptsInFlight, expired) =>
        var broken, timedOut;
        CountIsWaiting();
        broken, timedOut, failed := CheckLoaded(scriptsInFlight, expired, 0);
    }

    // A check that comes when every module has arrived, and is not put off.
    ghost predicate AtRest(e: Event)
      reads this`loaded
    {
      e.CheckEvent? && (e.expired || !e.scriptsInFlight) && forall n :: n in loaded ==> loaded[n]
    }

    lemma CountIsWaiting()
      requires Valid()
      ensures waitCount == |waiting|
    {
      hide Managers, Links, Settled, Quiet, Values, Defs, Status, Logged, EarlyOk, Known, IdsOk, Produced, FromCalls;
    }

    // When nothing waits, everything main was called for has run.
    lemma AllHaveRun()
      requires Valid() && waiting == {}
      ensures forall id :: CallOf(calls, id).Some? ==> id in ran
    {
      hide Inv, EarlyOk, Known, IdsOk, Produced, CallOf;
      forall id | CallOf(calls, id).Some? ensures id in ran {
        assert id in managers && managers[id].attached;
        if id !in ran { Waiting(S(), id); }
      }
    }

    /** Any run of define calls, require calls, script arrivals and checks. The queues and the calls of main are those
        the events make, each mismatch loses one record, and the managers have what main was called with. Every
        execution came after those of its dependencies and got their values in defined: without a broken cycle for
        all positions but a module's own name after exports, and otherwise for all that are on no cycle; and what was
        executed is defined as its factory says of these arguments. A check fails only if some module lists its own
        name after exports; and after one that does not, when every module has arrived, everything main was called for
        has run. */
    method RunEvents(events: seq<Event>) returns (mismatches: nat, failures: nat)
      requires Valid() && QueuesOk() && forall e :: e in events ==> EventOk(e)
      modifies this
      ensures Valid() && QueuesOk() && Q() == QueueRun(old(Q()), events) && |lost| == |old(lost)| + mismatches
      ensures InTurn(S(), forced, execCb)
      ensures (forall e :: e in events ==> !e.CheckEvent?) ==> forced == old(forced)
      ensures TidyCalls(calls) ==> failures == 0
      ensures failures == 0 && events != [] && AtRest(events[|events| - 1]) ==>
        waiting == {} && forall id :: CallOf(calls, id).Some? ==> id in ran
    {
      hide Valid, QueuesOk, QueueStep, TidyCalls, OwnWereAsked, AtRest;
      mismatches, failures := 0, 0;
      for i := 0 to |events|
        invariant Valid() && QueuesOk() && Q() == QueueRun(old(Q()), events[..i])
        invariant |lost| == |old(lost)| + mismatches
        invariant (forall e :: e in events ==> !e.CheckEvent?) ==> forced == old(forced)
        invariant TidyCalls(calls) ==> failures == 0
        invariant failures == 0 && i > 0 && AtRest(events[i - 1]) ==> waiting == {}
      {
        assert EventOk(events[i]);
        assert events[..i + 1][..i] == events[..i] && events[..i + 1][i] == events[i];
        ghost var q, w := Q(), waiting;
        var mismatch, failed := TakeEvent(events[i]);
        TidyBefore(q, events[i]);
        if TidyCalls(calls) { TidyAsked(w, calls); }
        mismatches := mismatches + if mismatch then 1 else 0;
        failures := failures + if failed then 1 else 0;
      }
      assert events[..|events|] == events;
      if waiting == {} { AllHaveRun(); }
      RunSays();
    }

    // What the invariant says of a run.
    lemma RunSays()
      requires Valid()
      ensures InTurn(S(), forced, execCb)
    {
      hide Inv, EarlyOk, Known, IdsOk, OwnAfterExports, FromCalls, Produced, InTurn;
      FlagsFromCalls(managers, calls, managerCounter);
      ArgumentsAreValues(S(), forced, execCb);
    }

    lemma CalledFor(m: Name)
      requires Valid() && m in loaded && loaded[m]
      ensures CallOf(calls, Named(m)).Some?
    {
      hide Inv, EarlyOk, Known, IdsOk, Produced, CallOf;
      LoadedIsAttached(S(), m);
    }

    // What main was called for is loaded.
    lemma StillLoaded(m: Name, before: seq<Call>)
      requires Valid() && before <= calls && CallOf(before, Named(m)).Some?
      ensures m in loaded && loaded[m]
    {
      CallStays(before, calls, Named(m));
      hide Managers, Links, Settled, Quiet, Values, Defs, Waits, Logged, EarlyOk, Known, IdsOk, Produced, CallOf;
      assert Named(m) in managers && managers[Named(m)].attached;
      assert StatusOk(S(), Named(m), managers[Named(m)]);
    }

    lemma NamedInQueue()
      requires QueuesOk()
      ensures forall i :: 0 <= i < |defQueue| ==> NamedOk(defQueue[i])
    {}
  }

  /** A page from the start: main is called as the events say, no record is lost but by mismatch, everything runs in
      turn, and without a check no cycle is broken. If no record lists its own name after exports, no check fails. */
  method RunPage(execCb: ExecCb, events: seq<Event>, ghost scripts: set<Name>)
    returns (loader: Loader, mismatches: nat, failures: nat)
    requires forall e :: e in events ==> EventOk(e)
    ensures loader.Valid() && loader.execCb == execCb && loader.Q() == QueueRun(NO_QUEUES, events)
    ensures |loader.lost| == mismatches && InTurn(loader.S(), loader.forced, execCb)
    ensures (forall e :: e in events ==> !e.CheckEvent?) ==> !loader.forced
    ensures TidyEvents(events, scripts) ==> failures == 0 && NoSelfGap(loader.S())
    ensures failures == 0 && events != [] && loader.AtRest(events[|events| - 1]) ==>
      loader.waiting == {} && forall id :: CallOf(loader.calls, id).Some? ==> id in loader.ran
  {
    hide QueueRun, Inv, EarlyOk, Known, IdsOk, Produced, FromCalls, TidyEvents, NoSelfGap, TidyCalls;
    loader := new Loader(execCb);
    mismatches, failures := loader.RunEvents(events);
    if TidyEvents(events, scripts) {
      TidyRun(events, scripts);
      TidyNoGap(loader.S(), loader.calls, loader.managerCounter);
    }
  }

  /** define a, define b, and the end of the script of b: a lists its own name after exports and nobody has asked for
      it, b needs a. Everything has arrived, both modules wait for each other, and the callback that forceExec calls
      for a's own name does not exist. */
  method SelfGapExample(execCb: ExecCb, first: Callback, second: Callback) returns (loader: Loader)
    ensures loader.Valid() && loader.Q() == QueueRun(NO_QUEUES, GapEvents(first, second)) && !loader.forced
    ensures AllSeen(loader.S()) && loader.waiting == {Named(A_NAME), Named(B_NAME)} && !NoGap(loader.S())
  {
    hide QueueRun, Inv, EarlyOk, Known, IdsOk, Produced, FromCalls, AllSeen, NoGap;
    loader := new Loader(execCb);
    GapCalls(first, second);
    var mismatches, failures := loader.RunEvents(GapEvents(first, second));
    SelfGap(loader.S(), loader.calls, loader.managerCounter);
  }
}
