# Verified models of the client-side libraries of the Solr admin page

The admin page ships four pieces of hard algorithmic code: the RequireJS module loader, the event
machinery and the selector engine of jQuery in the same file, layouts and geometry of d3, and the stream
merger of highlight.js. This project models their central algorithms in Dafny and proves what they are for.
`dafny verify dfyconfig.toml` checks everything.

| file | what it models |
|---|---|
| `LoaderState.dfy`, `DefineQueues.dfy`, `Loader.dfy` | the module loader: managers, listeners and cycle breaking; the queues of define calls and the calls of main; the loader itself |
| `TrimDots.dfy` | the in-place path normaliser |
| `Callbacks.dfy`, `CallbackRounds.dfy`, `Deferred.dfy`, `When.dfy` | re-entrant callback lists and their firings, deferreds, and the join of promises |
| `DirectionCheck.dfy`, `DocumentOrder.dfy` | the memoised ancestor walks and the fallback document order of Sizzle |
| `Treemap.dfy`, `Quadtree.dfy`, `ConvexHull.dfy` | squarified treemap, quadtree, Graham scan |
| `Csv.dfy`, `DataJoin.dfy`, `BundlePath.dfy` | CSV printer and parser, the data join, paths in trees |
| `StreamMerge.dfy`, `MarkupReader.dfy` | the merger of two tag streams; reading its output |
| `Options.dfy`, `Sequences.dfy` | the option type; what several modules ask of sequences |

## How to read it

Code that changes objects step by step is a class or a method with loops, proved against functions or
relations on snapshots of the state; what the code promises is proved about those. Two forms recur.

*Re-entrance.* The loader's listeners run inside `execManager`; its proof carries the set of callbacks still
owed. For `Callbacks`, `Deferred` and `when` a run is a sequence of calls and returns: a call is made from
outside or from the callback that runs at the moment, and a return ends that callback. The theorems range over
all such sequences, so over everything callbacks can do.

*Exact conditions.* Some promises do not hold for all inputs. There the code is modelled as it is, and the
condition is proved to be exact:

- `trimDots` leaves a `..` behind another segment exactly when its early break is met
  (`FullyTrimmedIffNotClipped`; `ClipExamples`).
- The CSV round trip fails exactly for empty rows, an unquoted carriage return, and an empty last cell
  (`RoundTripIff`; `LostTables`).
- The hull is found exactly if the lowest leftmost point is given once, or another point lies level with it, or
  there is no other (`Hull`; `RepeatedExample` fails). Then only points on one line read an entry that does not
  exist.
- The merger's output reads as the markup it was made of exactly if no attribute value has a double quote, which it
  does not escape (`MergedIsRead`).
- A keyed join can lose a node with a repeated key (`LostExample`), exactly when `LostIff` says so.
- Padding can push children out of their parent in the treemap (`PaddedInsideIff`; `PaddedOutside`).
- The treemap fails exactly if a node of value zero with a child of positive value comes to a rectangle that is not
  empty (`Squarify`; `CancelledValues`). Sums of values that are not negative do not do that (`SumsAreScaled`).
- A record of a define call is lost exactly if it has no name and is left over when a script has ended
  (`LoadMismatchIff`, `RunConserves`).
- Insertion into a quadtree ends inside the bounds (`InsideEnds`), and not always outside (`BeyondDoesNotEnd`).
- In the loader a module that lists its own name after `exports`, and that nobody asked for before, gets its own
  unfinished value without a callback. If it waits on a cycle, `forceExec` calls the missing callback: such a state
  is reached (`SelfGapExample`), and this is the only case (`GapIff`, `TidyNoGap`).
- A factory gets an unfinished value of a dependency only for its own name after `exports`, or at a position on a
  dependency cycle after `forceExec` broke cycles (`ForceExec`, `ArgumentsAreValues`).

Small corollaries of the larger results are marked as such in the table.

Numbers are integers or reals; factories, key functions, rounding and predicates are arbitrary functions.

## Model

| member | source | states |
|---|---|---|
| `ModuleLoader.Loader.Define` | src/solr/solr-webapp/webapp/js/require.js:419-467 | the module's value is the factory's return value, unless `module.exports` was set or the factory used `exports` and returned nothing; a literal is its own value; exactly `defined[name]` changes |
| `ModuleLoader.Loader.StopWaiting` | src/solr/solr-webapp/webapp/js/require.js:474-488 | executing a waiting manager removes it from `waiting`, marks it done and decrements the counter; `waitAry` is emptied exactly when the counter reaches zero |
| `ModuleLoader.Loader.ExecManager` | src/solr/solr-webapp/webapp/js/require.js:419-519 | with its re-entrant listeners: the first thing it executes is m, and what m's factory (or literal) makes of m's own arguments is logged and, for a module, defined; it keeps the whole loader invariant, nothing that has run changes, and it ends because pending positions only become fewer |
| `ModuleLoader.Loader.ArgCallback` | src/solr/solr-webapp/webapp/js/require.js:526-542 | a second call of the callback of a position does nothing; the first one fills it, and fills it early exactly when the value is not the final one of its dependency |
| `ModuleLoader.Loader.ForceExec` | src/solr/solr-webapp/webapp/js/require.js:941-982 | terminates on any dependency graph (bounded by the untraced managers); a named module not traced before has been executed afterwards and its value in `defined` is returned; a position gets an unfinished value only if its dependency depends on the manager in turn, that is on a cycle; it fails only if a callback it would call does not exist |
| `ModuleLoader.Loader.ForceWaiting` | src/solr/solr-webapp/webapp/js/require.js:1095-1099 | the pass over `waitAry`: for every dependency graph it executes every waiting manager, each exactly once (the log grows by exactly the waiting ones), and ends with nothing waiting and counter 0, unless `forceExec` fails |
| `ModuleLoader.Loader.AddWait` | src/solr/solr-webapp/webapp/js/require.js:636-642 | a manager enters `waiting`, `waitAry` and the counter together, and only once |
| `ModuleLoader.Loader.GetManager` | src/solr/solr-webapp/webapp/js/require.js:652-735 | a dependency asked for the first time gets a waiting manager, not loaded, and a request; a known one changes nothing |
| `ModuleLoader.Loader.MainCall` | src/solr/solr-webapp/webapp/js/require.js:737-844 | keeps the invariant; a name already loaded changes nothing; otherwise the manager has the dependencies and the callback it was given, knows whether they list `exports` and `module`, holds its own require function, exports object and module object exactly where they list these, and either waits or has been executed, and only the module's own name after `exports` gets a value early |
| `ModuleLoader.Loader.CheckLoaded` | src/solr/solr-webapp/webapp/js/require.js:1013-1103 | with its repeated call down to depth five: it forces exactly when something waits, everything is loaded, and no script is in flight or the time is up; then everything that waited runs, unless a waiting module lists its own name after `exports` and nobody had asked for it; the time limit is an error exactly if something is not loaded then |
| `ModuleLoader.Loader.DefineCall` | src/solr/solr-webapp/webapp/js/require.js:1682-1741 | a define call queues exactly its own record |
| `ModuleLoader.Loader.TakeGlobalQueue` | src/solr/solr-webapp/webapp/js/require.js:1386-1396 | moves all global records in front of the last queued one and loses none |
| `ModuleLoader.Loader.HandOthers` | src/solr/solr-webapp/webapp/js/require.js:1409-1424 | the loop of `completeLoad` calls main for exactly the records in front of the first one that is anonymous or named m, in their order, with their dependencies and callbacks |
| `ModuleLoader.Loader.TakeDefine` | src/solr/solr-webapp/webapp/js/require.js:1404-1436 | `completeLoad(m)` up to `resume`: main is called for the records of other modules in front, then exactly once for m, with its record if there is one; m is then loaded, and the other records stay queued in order |
| `DefineQueues.CallsAreOk` | src/solr/solr-webapp/webapp/js/require.js:1404-1436 | a call of main for a record has that record's dependencies and callback, under its name or, without one, that of the script |
| `ModuleLoader.Loader.Resume` | src/solr/solr-webapp/webapp/js/require.js:1130-1154 | main is called for every queued record in front of the first anonymous one; that one is lost, the rest stays queued; a mismatch is reported exactly if some queued record is anonymous |
| `ModuleLoader.Loader.CompleteLoad` | src/solr/solr-webapp/webapp/js/require.js:1404-1450 | the queues, the calls of main in their order and the lost records are exactly those of the queue model; m is loaded afterwards; a mismatch, and one lost record, exactly if an anonymous record is left behind that of m |
| `ModuleLoader.Loader.RunEvents` | src/solr/solr-webapp/webapp/js/require.js:1130-1450 | for any run of define calls, require calls, script arrivals, resumes and checks: queues, lost records and all calls of main are the function of the events that the queue model gives, each mismatch loses one record, every manager has what the first call of main about it gave; every execution came after those of its dependencies with their values in `defined`, with the module's own require function, exports object and module object where it lists these and nothing at empty entries; only positions on a cycle, once a cycle was broken, and a module's own name after `exports` may hold what the dependency was before it ran, its exports object or nothing; each result is what its factory makes of the logged arguments; after a check that comes when everything has arrived and does not fail, all has run |
| `ModuleLoader.RunPage` | src/solr/solr-webapp/webapp/js/require.js:419-1450 | the same for a page from the start; without a check no cycle is broken, so that only a module's own name after `exports` is excused; if no record lists that, no check fails |
| `ModuleLoader.SelfGapExample` | src/solr/solr-webapp/webapp/js/require.js:959-979 | from the events define a, define b, end of script b the loader reaches a state in which forceExec would call a callback that does not exist: a lists `exports` and itself before anyone asked for it, and waits for b, which needs a |
| `DefineQueues.RunConserves` | src/solr/solr-webapp/webapp/js/require.js:1386-1450 | in every run, mismatches included, each record that define made is still queued, main was called for it exactly once, or it was lost to a mismatch |
| `DefineQueues.RunWithoutMismatch` | src/solr/solr-webapp/webapp/js/require.js:1404-1450 | in a run without a mismatch, after the end of any script main has been called for every record so far, exactly once |
| `DefineQueues.LoadMismatchIff` | src/solr/solr-webapp/webapp/js/require.js:1130-1450 | the end of a script loses one record exactly if one without a name is left behind that of the script, and else empties the queues |
| `DefineQueues.GapIff` | src/solr/solr-webapp/webapp/js/require.js:959-979 | once everything has arrived, forceExec finds every callback it calls if and only if every waiting module that lists its own name after `exports` had been asked for before main was first called for it |
| `DefineQueues.TidyNoGap` | src/solr/solr-webapp/webapp/js/require.js:959-979 | so it does if main was never called for a module that lists its own name after `exports` |
| `DefineQueues.FromCallsNext` | src/solr/solr-webapp/webapp/js/require.js:737-844 | a call of main keeps: the managers main has dealt with are exactly those it was called for, each with what the first call gave it, and the others are those of modules something lists |
| `LoaderState.ExecutesProduced` | src/solr/solr-webapp/webapp/js/require.js:419-467 | executing a manager keeps: every module that has run is defined as its literal, or its factory on the logged arguments, says |
| `LoaderState.ExecutesKeepsInv` | src/solr/solr-webapp/webapp/js/require.js:419-508 | executing a manager preserves every clause of the invariant, with its listeners owed |
| `LoaderState.CallbackFills` | src/solr/solr-webapp/webapp/js/require.js:526-542 | filling a position lowers the number of pending positions, and makes the manager ready exactly when it was the last |
| `LoaderState.Counters` | src/solr/solr-webapp/webapp/js/require.js:636-642 | corollary of the invariant: `waitCount` is the size of `waiting`, every waiting manager is in `waitAry`, `depCount` is the number of registered positions not yet done, an attached manager waits exactly as long as it has not run |
| `LoaderState.ExecutedOnce` | src/solr/solr-webapp/webapp/js/require.js:419-467 | corollary of the invariant: in the log of a run no manager occurs twice |
| `LoaderState.LogIsRan` | src/solr/solr-webapp/webapp/js/require.js:419-467 | the log has exactly the executed managers, each once |
| `LoaderState.ArgumentsAreValues` | src/solr/solr-webapp/webapp/js/require.js:419-542 | for every logged execution: at a position that is not excused (own name after `exports`; on a cycle, once cycles were broken) the dependency is earlier in the log and the argument is its value in `defined`, at an excused one it may be what the dependency was before it ran; the arguments for `require`, `exports` and `module` are the module's own; and the module is defined as `module.exports`, if its factory put something else there, else as what the factory returned, else as its exports object |
| `LoaderState.AcyclicRunsAll` | src/solr/solr-webapp/webapp/js/require.js:526-542 | without a cycle nothing needs forcing: once everything has arrived, every manager has run |
| `LoaderState.NotWaitingIsDone` | src/solr/solr-webapp/webapp/js/require.js:941-982 | when everything has arrived, a dependency that is not waiting has called its callback |
| `LoaderState.NamedRanAllRan` | src/solr/solr-webapp/webapp/js/require.js:1095-1099 | when all named modules have run, so have the anonymous require calls |
| `LoaderState.NoGapIff` | src/solr/solr-webapp/webapp/js/require.js:959-979 | once everything has arrived, forceExec finds every callback it calls if and only if no waiting module that lists its own name after `exports` is without a callback for it |
| `LoaderState.DefinedHasRun` | src/solr/solr-webapp/webapp/js/require.js:807-815 | a dependency found in `defined` and not waiting has run, or is the module itself |
| `LoaderState.DefinedIsLoaded` | src/solr/solr-webapp/webapp/js/require.js:737-844 | whatever is defined is loaded |
| `DefineQueues.SplicedKeepsRecords` | src/solr/solr-webapp/webapp/js/require.js:1386-1396 | the splice neither loses nor doubles a record; old and new records keep their order, and the last one that waited stays last |
| `DefineQueues.FirstFor` | src/solr/solr-webapp/webapp/js/require.js:1409-1424 | the record that completes the load of m is the first anonymous one or the first named m |
| `TrimDots.Segments.TrimDots` | src/solr/solr-webapp/webapp/js/require.js:210-231 | the in-place loop, with its regressing index, leaves exactly the trimmed array, and terminates |
| `TrimDots.TrimKeepsMeaning` | src/solr/solr-webapp/webapp/js/require.js:210-231 | wherever a path points (steps up, then names), it points there after trimming; the loop stops in front of a normal prefix |
| `TrimDots.TrimIdempotent` | src/solr/solr-webapp/webapp/js/require.js:210-231 | trimming twice is trimming once, for every array |
| `TrimDots.FullyTrimmedIffNotClipped` | src/solr/solr-webapp/webapp/js/require.js:218-226 | without empty segments: no `.` remains and `..` only in front if and only if the input never meets the early break; then the result is its meaning written out |
| `TrimDots.ClipExamples` | src/solr/solr-webapp/webapp/js/require.js:218-226 | two paths that keep `..`, behind a name and behind another `..` |
| `TrimDots.EmptySegmentStops` | src/solr/solr-webapp/webapp/js/require.js:212 | an empty segment ends the work: the part in front is trimmed as if alone, the rest is untouched |
| `TrimDots.NormalMeaning` | src/solr/solr-webapp/webapp/js/require.js:203-210 | a normal array is its own meaning: at most one step up, then its names |
| `Callbacks.StepKeeps` | src/solr/solr-webapp/webapp/js/require.js:3070-3231 | every add, remove, fire, disable, lock and return, also from inside a callback, keeps: the index is on the list and firingLength is its length while firing; every round that ended called exactly what it owed, additions included, removals excluded |
| `Callbacks.RemoveFromPending` | src/solr/solr-webapp/webapp/js/require.js:3140-3169 | remove while firing takes the callback from those still to be called and nothing else: none is skipped or repeated |
| `Callbacks.ReturnKeeps` | src/solr/solr-webapp/webapp/js/require.js:3091-3118 | the return of a callback, which may end the round and start the queued ones, keeps invariant and rounds |
| `Callbacks.OnceWithMemory` | src/solr/solr-webapp/webapp/js/require.js:3091-3220 | once and memory, unique or not: in every run, called plus waiting callbacks are what the adds put on the list, in order, leaving out those ever removed, and all rounds have the first fired value |
| `Callbacks.AtRest` | src/solr/solr-webapp/webapp/js/require.js:3091-3220 | when such a list is at rest after firing, each callback never removed has been called exactly as often as an add put it on the list, in order |
| `Callbacks.CalledInOrder` | src/solr/solr-webapp/webapp/js/require.js:3091-3220 | on such a list, disabled or not, the calls so far are the first of what the adds put on it, in order, leaving out those ever removed |
| `Callbacks.AppendedIsAdds` | src/solr/solr-webapp/webapp/js/require.js:3121-3138 | without the unique flag, on a list not disabled, that is everything the adds were given |
| `Callbacks.AddedUnique` | src/solr/solr-webapp/webapp/js/require.js:3127-3130 | with the unique flag, an add puts on the list what it was given and the list does not have, each once |
| `Callbacks.FiredInOrder` | src/solr/solr-webapp/webapp/js/require.js:3091-3220 | without once: the values fired, also from callbacks, become rounds in the order of firing; at rest none is queued |
| `Callbacks.DisabledForGood` | src/solr/solr-webapp/webapp/js/require.js:3189-3192 | a disabled list stays disabled and calls nothing more |
| `Callbacks.NoStackStays` | src/solr/solr-webapp/webapp/js/require.js:3198-3204 | a locked list stays locked |
| `Callbacks.CallbackList.Add` | src/solr/solr-webapp/webapp/js/require.js:3121-3138 | add as the model's step for the callbacks among its arguments, arrays of arguments in any depth included |
| `Callbacks.CallbackList.Splice` | src/solr/solr-webapp/webapp/js/require.js:3146-3166 | the shrinking loop of remove leaves the list without the callback, and index and length where the callbacks left put them, in unique mode too |
| `Callbacks.CallbackList.FireWith` | src/solr/solr-webapp/webapp/js/require.js:3210-3221 | fireWith queues while firing, is ignored by a used list, and fires otherwise |
| `Callbacks.CallbackList.Return` | src/solr/solr-webapp/webapp/js/require.js:3098-3118 | the loop of fire from one callback's return to the next call, with stopOnFalse |
| `Callbacks.CallbackList.Has` | src/solr/solr-webapp/webapp/js/require.js:3171-3182 | true exactly for callbacks on the list |
| `CallbackRounds.StepMoves` | src/solr/solr-webapp/webapp/js/require.js:3091-3221 | every call and return moves the firings as described: an add to a resting list with memory begins one for the new callbacks with the value remembered, a fire on a resting list one for all of it, a return calls the next callback that waits, and when a firing ends the queued values are fired in order; it is halted exactly if a callback returns false and the list stops on false |
| `CallbackRounds.RunRemembers` | src/solr/solr-webapp/webapp/js/require.js:3091-3118 | in every run the value remembered is the one fired last, a list with memory remembers it unless the last firing was halted, and every firing, halted or not, has called the beginning of what it owes |
| `CallbackRounds.RoundsOfRun` | src/solr/solr-webapp/webapp/js/require.js:3091-3221 | both together, at every event of every run |
| `Deferreds.Settles` | src/solr/solr-webapp/webapp/js/require.js:3321-3326 | the first resolve or reject changes the state, disables the other list and locks the progress list before any user callback runs |
| `Deferreds.StepKeepsGood` | src/solr/solr-webapp/webapp/js/require.js:3244-3335 | every call, also from running callbacks of any list, keeps state and lists in agreement; the state leaves pending at most once |
| `Deferreds.WinnersAreCalledOnce` | src/solr/solr-webapp/webapp/js/require.js:3244-3335 | in every run the first resolve or reject decides: the losing list never calls anything, and every callback attached to the winning one, before or after, is called exactly once, in order, with the first arguments |
| `Deferreds.NotifiesInOrder` | src/solr/solr-webapp/webapp/js/require.js:3244-3252 | while pending, notifications become rounds in the order sent |
| `Deferreds.OneSettling` | src/solr/solr-webapp/webapp/js/require.js:3321-3326 | the settling call of a run stays the same however the run goes on |
| `Deferreds.FirstSettlingWins` | src/solr/solr-webapp/webapp/js/require.js:3244-3335 | of the resolve and reject calls of a run only the first counts, for the state, the winning list and its arguments |
| `Deferreds.DeferredObject.SendTo` | src/solr/solr-webapp/webapp/js/require.js:3316-3326 | resolve, reject and notify on the three lists do what the model's call does, own callbacks included |
| `Deferreds.DeferredObject.AttachTo` | src/solr/solr-webapp/webapp/js/require.js:3254-3258 | done, fail and progress do what the model's call does |
| `Deferreds.DeferredObject.Leave` | src/solr/solr-webapp/webapp/js/require.js:3098-3118 | the return of the innermost callback does what the model's call does |
| `When.WhenSettles` | src/solr/solr-webapp/webapp/js/require.js:3338-3378 | in every order of settling, before, during or after the loop: rejected exactly if a promise failed, with the first failure; once the loop is over resolved exactly if all promises are fulfilled, with every plain argument and, at the place of its promise, what each was fulfilled with (several arguments as an array); never resolved before the loop has passed all arguments |
| `When.ZeroIff` | src/solr/solr-webapp/webapp/js/require.js:3350-3371 | the counter is zero exactly when all arguments have been passed and all promises are fulfilled |
| `When.StepKeeps` | src/solr/solr-webapp/webapp/js/require.js:3350-3371 | every step keeps the counter equal to the number of open arguments, and a settled outcome never changes |
| `When.OutcomeIsDeferreds` | src/solr/solr-webapp/webapp/js/require.js:3338-3378 | the outcome is what the model of deferreds makes of the resolve and reject calls `when` sends, whatever else is called on the new deferred |
| `When.OutcomeStays` | src/solr/solr-webapp/webapp/js/require.js:3338-3378 | corollary: what the new deferred got first it keeps |
| `When.WhenCall.Resolved` | src/solr/solr-webapp/webapp/js/require.js:3349-3356 | resolveFunc: the value replaces its promise in place, several arguments as an array, and the last one resolves |
| `When.WhenCall.Pass` | src/solr/solr-webapp/webapp/js/require.js:3363-3369 | one turn of the loop counts down for a plain argument only |
| `DirectionCheck.DirNodeCheck` | src/solr/solr-webapp/webapp/js/require.js:7221-7252 | every entry of the set becomes what its own unmemoised walk to the nearest node of that name finds |
| `DirectionCheck.DirCheck` | src/solr/solr-webapp/webapp/js/require.js:7254-7293 | the same for a target element or a filter, which only look at elements |
| `DirectionCheck.NearestIsNearest` | src/solr/solr-webapp/webapp/js/require.js:7228-7247 | what a walk finds is a hit with no hit in front of it, and it finds nothing only if there is none |
| `DirectionCheck.NodeFound` | src/solr/solr-webapp/webapp/js/require.js:7221-7252 | so an entry of dirNodeCheck becomes the nearest node whose name, in lower case, is the one asked for, or false if there is none |
| `DirectionCheck.TargetFoundBy` | src/solr/solr-webapp/webapp/js/require.js:7254-7293 | and an entry of dirCheck becomes whether the element asked for is met, or the nearest element that passes the filter, or false |
| `DocumentOrder.SortOrder` | src/solr/solr-webapp/webapp/js/require.js:6886-6933 | negative, zero or positive exactly as the first node precedes, is or follows the second in document order, from parent and sibling links alone |
| `DocumentOrder.SiblingCheck` | src/solr/solr-webapp/webapp/js/require.js:6935-6951 | decides which of two siblings comes first, and gives back the default for the same node |
| `DocumentOrder.PrecedesIsStrictTotal` | src/solr/solr-webapp/webapp/js/require.js:6875-6933 | document order is a strict total order on the nodes of a document |
| `DocumentOrder.PathsPart` | src/solr/solr-webapp/webapp/js/require.js:6920-6932 | the paths to two nodes part somewhere, and what stands there decides document order |
| `DocumentOrder.PathFollowsParents` | src/solr/solr-webapp/webapp/js/require.js:6905-6915 | each node on the path from the root is the parent link of the next |
| `Treemap.LayoutTiles` | src/solr/solr-webapp/webapp/js/lib/d3.js:6589-6622 | for any non-negative areas and any rounding that keeps non-negatives: the cells lie inside the rectangle, share no inner point, leave no gap and have its area |
| `Treemap.LayoutIsProportional` | src/solr/solr-webapp/webapp/js/lib/d3.js:6668-6700 | without rounding, if the areas add up to the rectangle, every cell has exactly its area |
| `Treemap.SharesAreValues` | src/solr/solr-webapp/webapp/js/lib/d3.js:6577-6602 | without rounding a child's rectangle is the share of its parent's that its value is of the total |
| `Treemap.LayoutInRows` | src/solr/solr-webapp/webapp/js/lib/d3.js:6668-6700 | whatever the rounding, the cells lie in rows along the shorter side of what is left, one after the other from its beginning to its end, all of a row equally wide |
| `Treemap.LayoutIsWhole` | src/solr/solr-webapp/webapp/js/lib/d3.js:6668-6700 | if rounding gives whole numbers, a rectangle at whole coordinates is cut at whole coordinates only |
| `Treemap.CellsAreWhole` | src/solr/solr-webapp/webapp/js/lib/d3.js:6589-6622 | so the cells of a node are at whole coordinates if the rectangle for them is |
| `Treemap.WorstIsWorst` | src/solr/solr-webapp/webapp/js/lib/d3.js:6648-6665 | the score of a row is the aspect ratio, against the target ratio, of its worst cell, and some cell has it |
| `Treemap.RowEndsBeforeWorse` | src/solr/solr-webapp/webapp/js/lib/d3.js:6603-6614 | a row takes cells as long as the score does not get worse, and ends before the first that would make it worse |
| `Treemap.PaddedInsideIff` | src/solr/solr-webapp/webapp/js/lib/d3.js:6772-6780 | the padded rectangle lies inside its cell exactly if opposite paddings differ by no more than the extent |
| `Treemap.PaddedSides` | src/solr/solr-webapp/webapp/js/lib/d3.js:6772-6780 | where opposite paddings fit, the gaps left, top, right and bottom are the paddings of these sides; where they do not, the rectangle has no extent and lies midway between the lines they draw |
| `Treemap.PaddedOutside` | src/solr/solr-webapp/webapp/js/lib/d3.js:6772-6780 | a padded rectangle outside its cell |
| `Treemap.Position` | src/solr/solr-webapp/webapp/js/lib/d3.js:6668-6700 | a row is cut along the shorter side, its last cell takes the rounding error, and the rectangle loses exactly what the row took |
| `Treemap.ScoreOf` | src/solr/solr-webapp/webapp/js/lib/d3.js:6648-6665 | the loop over a row computes its score, skipping empty cells |
| `Treemap.Scale` | src/solr/solr-webapp/webapp/js/lib/d3.js:6577-6586 | areas are values times the scale, and zero for values that are not positive; an area is infinite exactly for a positive value, a total of zero and a rectangle that is not empty |
| `Treemap.LayChildren` | src/solr/solr-webapp/webapp/js/lib/d3.js:6589-6622 | the loop over rows gives every child, the last first, the box of the layout, each exactly once, and terminates; it fails exactly if a child has an infinite area |
| `Treemap.Squarify` | src/solr/solr-webapp/webapp/js/lib/d3.js:6589-6622 | the recursion lays out every node of the hierarchy in the rectangle it got itself; it fails exactly if a node of value zero comes to a rectangle that is not empty and has a child with a positive value |
| `Treemap.SumsAreScaled` | src/solr/solr-webapp/webapp/js/lib/d3.js:6577-6602 | a node whose value is the sum of its children's, none of them negative, does not fail |
| `Treemap.CancelledValues` | src/solr/solr-webapp/webapp/js/lib/d3.js:6577-6602 | children of values 1 and -1 in a square: it fails |
| `Treemap.AllFilled` | src/solr/solr-webapp/webapp/js/lib/d3.js:6589-6622 | after it every node with children is tiled by them inside its padding, in rows from the last child on, and no child comes nearer to a side of its parent than the padding of that side |
| `Quadtree.Halvings` | src/solr/solr-webapp/webapp/js/lib/d3.js:8557-8580 | a length is below the separation distance after finitely many halvings, one fewer for its half |
| `Quadtree.Inserted` | src/solr/solr-webapp/webapp/js/lib/d3.js:8557-8597 | insertion of a point inside the bounds terminates, and every point stays in the box of its node |
| `Quadtree.InsideEnds` | src/solr/solr-webapp/webapp/js/lib/d3.js:8557-8597 | insert as the source has it, for any points and bounds, ends inside the bounds after no more splits than they have room for, with that tree |
| `Quadtree.BeyondDoesNotEnd` | src/solr/solr-webapp/webapp/js/lib/d3.js:8557-8597 | beyond one corner of the bounds insert of a second point that is not near the first does not end, however many splits |
| `Quadtree.InsertedConserves` | src/solr/solr-webapp/webapp/js/lib/d3.js:8557-8597 | insertion adds its point once and loses none |
| `Quadtree.InsertedKept` | src/solr/solr-webapp/webapp/js/lib/d3.js:8559-8573 | a node above others keeps its own point only if a point nearer than .01 is stored below it |
| `Quadtree.HeightBound` | src/solr/solr-webapp/webapp/js/lib/d3.js:8557-8597 | no node is deeper than the halvings its bounds allow and the number of points |
| `Quadtree.VisitedPlaced` | src/solr/solr-webapp/webapp/js/lib/d3.js:8625-8635 | every box shown to the visitor is the box insertion used: it holds the node's point and all those below |
| `Quadtree.VisitFinds` | src/solr/solr-webapp/webapp/js/lib/d3.js:8625-8635 | a visitor that passes over no box with a point in it is shown that point as often as it was inserted |
| `Quadtree.VisitedIsWalk` | src/solr/solr-webapp/webapp/js/lib/d3.js:8625-8635 | the visitor is shown exactly the nodes on whose path it has answered false at every node above, each once, with the box that the path leads to, in preorder |
| `Quadtree.InsertedParted` | src/solr/solr-webapp/webapp/js/lib/d3.js:8583-8597 | the center lines of every box part the points stored below: insertion keeps each on its side, those on a line to the right or below |
| `Quadtree.LeafKeepsIff` | src/solr/solr-webapp/webapp/js/lib/d3.js:8559-8573 | a leaf keeps its point beside a new one exactly if their distances along the axes add up to less than .01 |
| `Quadtree.QNode.Insert` | src/solr/solr-webapp/webapp/js/lib/d3.js:8557-8580 | insert on the linked nodes does what the pure insertion does |
| `Quadtree.QNode.InsertChild` | src/solr/solr-webapp/webapp/js/lib/d3.js:8583-8599 | insertChild creates or finds the quadrant's node and inserts there |
| `Quadtree.QNode.Visit` | src/solr/solr-webapp/webapp/js/lib/d3.js:8625-8635 | visit shows the nodes in order with the boxes of the four quadrants computed anew |
| `Quadtree.Bounds` | src/solr/solr-webapp/webapp/js/lib/d3.js:8535-8551 | computed bounds hold all points, are tight at the low corner and in one extent, and are square; without points there are none |
| `Quadtree.Build` | src/solr/solr-webapp/webapp/js/lib/d3.js:8521-8615 | the tree stores exactly the given points, each in its box and on its side of the center lines of all boxes above |
| `ConvexHull.Hull` | src/solr/solr-webapp/webapp/js/lib/d3.js:7897-7985 | for any three or more points: the answer is right (out of entries exactly if all are on one line, else a strictly convex counter-clockwise polygon with every point on or left of every edge) if and only if the lowest leftmost point is given once, or another point lies level with it, or there is no other; fewer points give nothing |
| `ConvexHull.RepeatedExample` | src/solr/solr-webapp/webapp/js/lib/d3.js:7915-7949 | four points for which that fails |
| `ConvexHull.LevelTossesReference` | src/solr/solr-webapp/webapp/js/lib/d3.js:7924-7949 | a repetition of the reference is tossed out if another point lies level with it |
| `ConvexHull.RepetitionIsFirst` | src/solr/solr-webapp/webapp/js/lib/d3.js:7924-7959 | otherwise it survives as the first direction, beside at least one more |
| `ConvexHull.FindReference` | src/solr/solr-webapp/webapp/js/lib/d3.js:7906-7913 | the reference is the leftmost of the lowest points |
| `ConvexHull.TossDuplicates` | src/solr/solr-webapp/webapp/js/lib/d3.js:7924-7949 | of points in one direction only one farthest from the reference survives, and every other has its keeper |
| `ConvexHull.FillStack` | src/solr/solr-webapp/webapp/js/lib/d3.js:7951-7959 | the stack starts with the reference and the first two survivors, or there are fewer than two |
| `ConvexHull.Pop` | src/solr/solr-webapp/webapp/js/lib/d3.js:7964-7966 | popping ends, and on a covering chain keeps at least two entries, the chain, and every reached point left of the cut |
| `ConvexHull.Scan` | src/solr/solr-webapp/webapp/js/lib/d3.js:7961-7968 | the scan ends with a chain that covers all reached points |
| `ConvexHull.LeftOfPreviousEdge` | src/solr/solr-webapp/webapp/js/lib/d3.js:7978-7985 | a point left of the last edge of a left-turning fan is left of the edge before it |
| `ConvexHull.PopBetween` | src/solr/solr-webapp/webapp/js/lib/d3.js:7964-7966 | after popping, a point between the two stays left of the new chord |
| `ConvexHull.PopBeyond` | src/solr/solr-webapp/webapp/js/lib/d3.js:7964-7966 | after popping, a point beyond the popped one is left of the new chord |
| `ConvexHull.PopKeepsCut` | src/solr/solr-webapp/webapp/js/lib/d3.js:7964-7966 | every turn of the pop loop keeps all reached points on the left of chain and cut |
| `ConvexHull.PushKeepsChain` | src/solr/solr-webapp/webapp/js/lib/d3.js:7967 | pushing extends the chain by a strict left turn and covers the new point |
| `ConvexHull.LeftOfAllEdges` | src/solr/solr-webapp/webapp/js/lib/d3.js:7961-7968 | once the top edge has a point on its left, so has every edge below |
| `ConvexHull.TossedIsLeft` | src/solr/solr-webapp/webapp/js/lib/d3.js:7927-7949 | a tossed point is left of every line that has the reference and its keeper on the left |
| `ConvexHull.ChainIsHull` | src/solr/solr-webapp/webapp/js/lib/d3.js:7961-7976 | a chain that covers everything reached is the hull of all points |
| `ConvexHull.StuckIffCollinear` | src/solr/solr-webapp/webapp/js/lib/d3.js:7951-7959 | fewer than two surviving directions means all points are on one line, and the converse holds unless the reference survives again |
| `ConvexHull.ExactAnglesExist` | src/solr/solr-webapp/webapp/js/lib/d3.js:7915-7922 | there is a measure of direction that orders the points as exact angles would, the point itself as atan2(0, 0) |
| `Csv.RoundTripIff` | src/solr/solr-webapp/webapp/js/lib/d3.js:6800-6871 | printing and reading back gives the same table if and only if no row is empty, a carriage return is only in cells quoted for another reason, and the very last cell is not empty |
| `Csv.LostTables` | src/solr/solr-webapp/webapp/js/lib/d3.js:6800-6871 | three tables that are not read back: a bare carriage return, an empty last cell, an empty row |
| `Csv.AnyLayoutIsRead` | src/solr/solr-webapp/webapp/js/lib/d3.js:6800-6858 | however a table is written, cells quoted or not where that is not needed, rows ended by any of the three line ends, with one at the end of the text or not, it is read as that table |
| `Csv.LineEndsAreRead` | src/solr/solr-webapp/webapp/js/lib/d3.js:6800-6871 | a table that survives is read back with each of the three line ends between its rows |
| `Csv.TokensIffGood` | src/solr/solr-webapp/webapp/js/lib/d3.js:6800-6871 | the printed text is read token by token as the table exactly under the same condition, with quoted commas, line ends and doubled quotes |
| `Csv.TokensAreATable` | src/solr/solr-webapp/webapp/js/lib/d3.js:6812-6845 | any text reads as the tokens of some table without empty rows |
| `Csv.ParseHasNoEmptyRow` | src/solr/solr-webapp/webapp/js/lib/d3.js:6847-6857 | reading never yields an empty row |
| `Csv.Reader.NextToken` | src/solr/solr-webapp/webapp/js/lib/d3.js:6812-6845 | each call of token returns the next token of the text and moves past it |
| `Csv.Reader.ScanQuoted` | src/solr/solr-webapp/webapp/js/lib/d3.js:6818-6826 | the inner loop stops at the first quote that is not doubled, or behind the text |
| `Csv.ParseRows` | src/solr/solr-webapp/webapp/js/lib/d3.js:6847-6858 | the nested loops collect exactly the rows of the token list |
| `Csv.PrintAndRead` | src/solr/solr-webapp/webapp/js/lib/d3.js:6800-6871 | the imperative parser on printed text returns the table exactly if it survives |
| `DataJoin.BindByKey` | src/solr/solr-webapp/webapp/js/lib/d3.js:1814-1847 | for any keys, each computed from the node or datum and its index: update has the first node with the datum's key unless an earlier datum took it, enter has exactly the other data, exit has the unmatched places and the repeated keys; updated nodes carry their datum, all others keep theirs |
| `DataJoin.MatchedIff` | src/solr/solr-webapp/webapp/js/lib/d3.js:1831-1842 | a node is the one for a datum exactly if it is the first with that key and the datum is the first with it |
| `DataJoin.NodesArePartitioned` | src/solr/solr-webapp/webapp/js/lib/d3.js:1814-1847 | with distinct node keys each node is either updated, by exactly one datum, or exits at its own place |
| `DataJoin.MatchesAreKeyed` | src/solr/solr-webapp/webapp/js/lib/d3.js:1831-1842 | an updated pair has equal keys and no two data get one node, even if data keys repeat |
| `DataJoin.LostIff` | src/solr/solr-webapp/webapp/js/lib/d3.js:1818-1847 | for any keys a node is neither updated nor exits exactly if its key is repeated and matched and its exit slot is the place of an unmatched node |
| `DataJoin.LostExample` | src/solr/solr-webapp/webapp/js/lib/d3.js:1818-1847 | three nodes and two data for which a node is lost |
| `DataJoin.BindByIndex` | src/solr/solr-webapp/webapp/js/lib/d3.js:1848-1868 | by position: update, enter and exit for groups with holes, and the data the nodes end with |
| `BundlePath.LeastCommonAncestor` | src/solr/solr-webapp/webapp/js/lib/d3.js:4927-4940 | the deepest common ancestor, or nothing exactly for nodes of different trees |
| `BundlePath.BundlePathOf` | src/solr/solr-webapp/webapp/js/lib/d3.js:4898-4913 | the simple path from source to target: right ends, neighbours parent and child, no repeats |
| `BundlePath.DescendFrom` | src/solr/solr-webapp/webapp/js/lib/d3.js:4907-4911 | the second loop adds the way down from the common ancestor, each node inserted in front of the ones before |
| `BundlePath.BundleAncestors` | src/solr/solr-webapp/webapp/js/lib/d3.js:4915-4925 | the loop collects the node and its ancestors up to the root |
| `BundlePath.CommonTailIsDeepest` | src/solr/solr-webapp/webapp/js/lib/d3.js:4927-4940 | where two ancestor lists cease to agree from the root is the deepest common ancestor |
| `BundlePath.AncestorsFrom` | src/solr/solr-webapp/webapp/js/lib/d3.js:4915-4925 | the ancestors of an ancestor are the rest of the list |
| `StreamMerge.Merge` | src/solr/solr-webapp/webapp/js/lib/highlight.js:1 | function j: the output is the markup that the events of both streams make in their order (at one place the stops of the second stream in front of those of the first): balanced, its text is the escaped input, and every character is enclosed by exactly the elements of both streams whose span covers it |
| `StreamMerge.StopElement` | src/solr/solr-webapp/webapp/js/lib/highlight.js:1 | a stop closes exactly its element and those above it, the last first, and reopens exactly those above it, in their order |
| `StreamMerge.OpenedAndClosed` | src/solr/solr-webapp/webapp/js/lib/highlight.js:1 | in the output an element is opened once, and once more for each stop, while it is open, of an element started before it; it is closed as often |
| `StreamMerge.OrderIsPaired` | src/solr/solr-webapp/webapp/js/lib/highlight.js:1 | the events of two paired streams in their merged order are paired again |
| `StreamMerge.DocumentAgain` | src/solr/solr-webapp/webapp/js/lib/highlight.js:1 | the stream of a document merged with an empty one into the document's text is the document's own markup, every tag at its place |
| `MarkupReader.MergedIsRead` | src/solr/solr-webapp/webapp/js/lib/highlight.js:1 | the output read as markup has exactly the tags, attributes and characters it was made of, names of close tags in lower case, if and only if no attribute of an element has a double quote in its value |
| `MarkupReader.RenderedIsRead` | src/solr/solr-webapp/webapp/js/lib/highlight.js:1 | the same for any rendered markup |
| `MarkupReader.AttributesAreRead` | src/solr/solr-webapp/webapp/js/lib/highlight.js:1 | the attributes of a tag are read as they are if and only if none of their values has a double quote |
| `MarkupReader.EscapedIsRead` | src/solr/solr-webapp/webapp/js/lib/highlight.js:1 | reading the character references of escaped text gives the text |
| `StreamMerge.ChosenHead` | src/solr/solr-webapp/webapp/js/lib/highlight.js:1 | the stream chosen next is never later than the other, and offers a stop exactly for an open element |
| `StreamMerge.CopyText` | src/solr/solr-webapp/webapp/js/lib/highlight.js:1 | copying text up to the next offset encloses it in exactly the elements that cover it |
| `StreamMerge.TakeEvent` | src/solr/solr-webapp/webapp/js/lib/highlight.js:1 | taking the event at the current place keeps what is open equal to what both streams have opened |
| `StreamMerge.OpenedCovers` | src/solr/solr-webapp/webapp/js/lib/highlight.js:1 | what a prefix of a stream leaves open is what covers the next position |
| `StreamMerge.EscapeConcat` | src/solr/solr-webapp/webapp/js/lib/highlight.js:1 | escaping piece by piece is escaping the whole text |
| `StreamMerge.EscapeOne` | src/solr/solr-webapp/webapp/js/lib/highlight.js:1 | the three replacements, the ampersand first, act on each character once |
| `StreamMerge.StreamsArePaired` | src/solr/solr-webapp/webapp/js/lib/highlight.js:1 | function c: the events of a document are sorted, within its text, and every element starts and stops once |
| `StreamMerge.StreamIsWellFormed` | src/solr/solr-webapp/webapp/js/lib/highlight.js:1 | so they are what the merger asks for |

## Left out

- Loader plugins, `needFullExec`, `catchError`, priority configuration, package and URL mapping, `findCycle`: they multiply cases of the same steps.
- Script tags, timers, `eval`, DOM ready: a script arrival is a step that calls `completeLoad`.
- Factories that throw or call `require`: a factory is a function of its arguments. Each module has one exports object, even if it lists `exports` twice. A `require` call that asks for `exports` itself is excluded.
- Loader objects are records in a map under their ids: sharing of a manager object other than through its id, and the second manager of a module defined again after it ran, are not captured. Names are taken as normalized already.
- ModuleLoader.Loader.GetManager: without the branch for names with a plugin prefix.
- ModuleLoader.Loader.ForceExec: says when it can fail, not in which order of waiting managers it does.
- ModuleLoader.Loader.CompleteLoad: the counter of scripts in flight is a parameter of `checkLoaded`, and its call at the end of `resume` is an event of its own. A script without a define call gets no value, also that of jQuery.
- ModuleLoader.Loader.Resume: the depth counter of `resume`, which stays raised after a mismatch so that `resume` no longer checks; the requests for paused modules, and the call of `resume` for them in `checkLoaded`.
- ModuleLoader.Loader.DefineCall: the record is given; the dependencies that `define` finds by scanning a factory's text, and the script node that names a module in old browsers, are not part of this model.
- `Callbacks.empty`: called while firing it leaves the length stale, and the firing invariant does not cover it. Several arguments of `remove` are taken one callback at a time.
- Deferred: `pipe`, `promise(obj)` and `always` only combine the modelled calls. `when`: progress notifications and their values are left out, and `when` with one argument or none, which hands on its promise or resolves at once.
- DirectionCheck and DocumentOrder: native `compareDocumentPosition`, `sourceIndex` and `contains`; selector matching is a predicate.
- Treemap.Squarify: areas are exact reals, and an infinite one is only noted; the mark left for the sticky mode, and that mode itself, are not modelled.
- Quadtree.Inserted: points inside the bounds; outside insertion may not end (`BeyondDoesNotEnd`).
- Quadtree.Build: without coordinates that are not numbers, and without points outside explicit bounds. The visitor is a function of what it sees.
- ConvexHull.Hull: exact arithmetic; `atan2` and the sort become any measure of direction that orders points as exact angles do, and the sorted list it yields.
- CSV object mode and row functions, which only post-process the rows.
- DataJoin: `null` nodes in keyed mode, for which the source fails; keys are values, not their strings.
- StreamMerge.Merge: the two streams have no element in common; grammars and regular expressions of the highlighter are not modelled.
- Colours, easing, axes, projections, force layout, and the page's own scripts: visual code or user interface.
