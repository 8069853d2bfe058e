# react: a verified model of the listener-dispatch core

This project models the core of the `react` library, a Java library for
functional-reactive programming.

- **Reactor.** A `Reactor` keeps its connections in an intrusive, singly linked chain of `Cons` cells.
  - `insert` keeps a chain of non-increasing priority sorted, first-come first-served among equal priorities, and so do `remove`, `removeAll` and an `atPrio` outside a pass.
  - With the corrected `atPrio` (`Engine.AtPrio`), an `atPrio` during a pass changes the priority at once and queues the re-link, so two of them in one pass can leave the chain unsorted (`SignalScenarios.TwoPrioChangesInPass`). The `atPrio` as written clears the cell's link at once, which ends the pass early and drops open cells from the chain; see the `Cons.java:42-50` row under "## Findings".
  - `notify` walks a snapshot of the chain. While it does, connect, disconnect and nested `notify` calls are queued on `_pendingRuns` and drained after the pass.
  - A closed cell gets the placeholder listener at once, and a one-shot cell is closed right after it is invoked.
  - A listener's `RuntimeException` does not cut the pass short. The first one is rethrown at the end.
- **Built on the reactor.** On top sit:
  - the values (`AbstractValue`, `Value`, `IntValue`);
  - the reactive collections (`RSet`, `RMap`, `RList`, `RQueue` over `RCollection`);
  - connection bookkeeping (`ConnectionGroup`, `Connection.join`, `MappedSignal`, `MappedValue`);
  - promises and futures with the `sequence` and `collect` aggregators;
  - `MultiFailureException`, and the small combinators `Try`, `Slot`, `Values`, `Functions` and `ObjectsUtil`.
- **The older variant.** `com.threerings.react.AbstractValue` with its `AbstractConnection` chain is modelled beside the reactor.
  - Its chain is kept in non-decreasing priority.
  - It defers additions and removals through `_toAdd` and `_toRemove`, and it does not catch listener exceptions.

## How it is organised

- **Listener code.** A listener is a slot number. A `script` says what the listener does when it is invoked: connect, close, change priority, set one-shot, emit again, throw. The engine interprets these actions as the reactor's methods would.
- **Pure functions.** `Engine` gives the reactor's operations as functions on an explicit `State`: the chain as a sequence, the cells' fields, the dispatching flag, the pending queue, the delivery and error logs. `EngineFacts` proves the reactor invariant and what a pass delivers.
- **Linked chain.** `Cons.Chain` is the linked chain itself, a `head` plus a map of `next` links. Its `Insert`, `Remove` and `RemoveAll` walk the links in loops and are proved to relink the cells into exactly the sequence that `Cons.Inserted`, `Cons.Removed` and `Cons.RemovedAll` describe.
- **Reactor class.** `Reactors.Reactor` is the reactor as a class whose fields the methods update in place. Each method is proved to do what the `Engine` function of the same name does.
- **Collections.** The collections model their backing container as a Dafny `set`, `map` or `seq` field and their listener notifications as an event log.
  - What the listeners do with an event is a fixed `reaction`: the exception that notify pass ends with, if any.
  - Iteration order over a hash set or map is an explicit sequence the caller cannot predict (`Collections.Enumerate`).
- **Futures.** `sequence` and `collect` take the order in which their inputs complete as a parameter.
- **Correction.** `Findings` and `LegacyFindings` show three defects on the code as written and prove the corrected behaviour.
  - The main engine uses the corrected `atPrio` (`Engine.AtPrio`, `Cons.Chain.Insert`).
  - The older variant is modelled as written (`LegacyValues`); only `LegacyFindings` holds its corrected versions.

## Model

| member | source | states |
|---|---|---|
| Cons.Inserted | src/main/java/react/Cons.java:99-126 | the chain after `insert` is one cell longer |
| Cons.FirstBelow | src/main/java/react/Cons.java:103-118 | the insertion point: every earlier cell has priority at least `p`, the cell there (if any) has lower priority |
| Cons.FirstBelowUnique | src/main/java/react/Cons.java:103-118 | the insertion point is the only index with those two properties |
| Cons.InsertedAt | src/main/java/react/Cons.java:99-126 | `insert` places the cell after every cell of equal or higher priority and before the first strictly lower one, keeping all other cells in order |
| Cons.InsertedKeepsOrder | src/main/java/react/Cons.java:99-126 | inserting into a chain of non-increasing priority keeps it non-increasing |
| Cons.InsertedContents | src/main/java/react/Cons.java:99-126 | the new chain holds exactly the old cells plus the inserted one (as a multiset) |
| Cons.InsertedDistinct | src/main/java/react/Cons.java:99-126 | inserting an unlinked cell keeps the chain free of duplicates |
| Cons.Removed | src/main/java/react/Cons.java:128-144 | `remove` shortens the chain by one exactly when the cell is linked |
| Cons.RemovedAbsent | src/main/java/react/Cons.java:128-144 | removing a cell that is not linked changes nothing |
| Cons.RemovedAt | src/main/java/react/Cons.java:128-144 | removal takes out the cell at its first position and keeps the rest in order |
| Cons.RemovedMembers | src/main/java/react/Cons.java:128-144 | removal drops that cell and no other; in a duplicate-free chain the cell is gone afterwards |
| Cons.RemovedKeepsOrder | src/main/java/react/Cons.java:128-144 | removal keeps the chain sorted by priority |
| Cons.RemovedAll | src/main/java/react/Cons.java:146-159 | `removeAll` never lengthens the chain |
| Cons.RemovedAllMembers | src/main/java/react/Cons.java:146-159 | a cell survives `removeAll(l)` iff it was linked and its listener is not `l` |
| Cons.RemovedAllAppend | src/main/java/react/Cons.java:146-159 | `removeAll` distributes over concatenation (it decides cell by cell) |
| Cons.RemovedAllKeepsOrder | src/main/java/react/Cons.java:146-159 | `removeAll` keeps the survivors' order, so sortedness and distinctness are preserved |
| Cons.LinkedInsertAfter | src/main/java/react/Cons.java:114-117 | splicing a cell after position `i` by rewriting two links yields the chain with the cell at `i + 1` |
| Cons.LinkedRemoveAfter | src/main/java/react/Cons.java:134-136 | routing a predecessor's link around its successor unlinks exactly that successor |
| Cons.Chain.constructor | src/main/java/react/Reactor.java:178 | a new reactor has an empty chain |
| Cons.Chain.IsEmpty | src/main/java/react/Reactor.java:20-22 | the chain is empty iff it links no cell |
| Cons.Chain.Clear | src/main/java/react/Reactor.java:31-36 | dropping the head empties the chain and leaves every cell's link as it was |
| Cons.Chain.Insert | src/main/java/react/Cons.java:99-126 | the walk along the `next` links relinks the cells into exactly `Inserted(old chain, c)` |
| Cons.Chain.Remove | src/main/java/react/Cons.java:128-144 | the walk along the `next` links relinks the cells into exactly `Removed(old chain, c)` |
| Cons.Chain.RemoveAll | src/main/java/react/Cons.java:146-159 | the walk along the `next` links relinks the cells into exactly `RemovedAll(old chain, l)` |
| Cons.Chain.PruneBehindHead | src/main/java/react/Cons.java:149-156 | the loop keeps the head and leaves behind it exactly the cells whose listener is not `l`, in order |
| Cons.Chain.UnlinkAfter | src/main/java/react/Cons.java:152 | unlinking the cell after `cycle` drops exactly that cell from the chain |
| Cons.NonIncreasingCons | src/main/java/react/Cons.java:99-126 | a cell of priority at least that of every cell of a sorted chain can be linked in front of it |
| Engine.AddConnection | src/main/java/react/Reactor.java:42-60 | creating a connection keeps ids fresh, never resets a cell's flags, and during a pass only queues the insertion and leaves the walked chain alone |
| Engine.RemoveConnection | src/main/java/react/Reactor.java:76-88 | removing a listener's connections never resets a cell's flags and, during a pass, only queues the removal |
| Engine.Close | src/main/java/react/Cons.java:28-35 | closing leaves the cell closed with its one-shot flag kept, never resets any cell's flags, and during a pass only queues the unlinking |
| Engine.Once | src/main/java/react/Cons.java:37-40 | setting the one-shot flag leaves the logs alone, never resets a flag and, during a pass, leaves the walked chain and the queue alone |
| Engine.AtPrio | src/main/java/react/Cons.java:42-50 | changing priority keeps ids fresh and cell flags, and during a pass only queues the unlink and relink |
| Engine.Apply | src/main/java/react/Reactor.java:42-88 | one listener action taken inside a pass leaves the chain snapshot alone, only appends to the deferred queue, keeps ids fresh and never resets a cell's flags |
| Engine.RunScript | src/main/java/react/Reactor.java:138-143 | a listener's actions up to the first exception keep the same frame as one action |
| Engine.Invoke | src/main/java/react/Reactor.java:138-143 | invoking a cell logs one delivery for a real listener and none for the placeholder; caught exceptions are only appended |
| Engine.Visit | src/main/java/react/Reactor.java:137-145 | one loop iteration delivers at most to its own cell and leaves a one-shot cell closed |
| Engine.Pass | src/main/java/react/Reactor.java:137-145 | the dispatch loop only grows the delivery and error logs, keeps the snapshot and only appends deferred runs |
| Engine.FullPass | src/main/java/react/Reactor.java:129-149 | a pass sets the sentinel, walks the chain and restores it: afterwards the reactor is not dispatching and the chain is the one it started from |
| Engine.Drain | src/main/java/react/Reactor.java:151-171 | draining the deferred runs empties the queue, keeps a reactor at rest at rest and only grows the logs |
| Engine.DrainStep | src/main/java/react/Reactor.java:167-171 | each deferred run shortens the queue or spends one unit of fuel |
| EngineFacts.QueuedAppend | src/main/java/react/Reactor.java:189-193 | appending a run to `_pendingRuns` keeps the queue sound when its insertion's cell is not linked by then |
| EngineFacts.EmptyValid | src/main/java/react/Reactor.java:178-179 | a new reactor satisfies the invariant, is not dispatching and has no connections |
| EngineFacts.AddConsValid | src/main/java/react/Reactor.java:47-60 | `addCons` keeps the reactor invariant (chain duplicate-free, ids fresh, closed cells hold the placeholder, queue sound) |
| EngineFacts.DisconnectValid | src/main/java/react/Reactor.java:62-74 | `disconnect` keeps the invariant; at rest the cell is unlinked at once, while dispatching it is unlinked once the queue drains |
| EngineFacts.ApplyValid | src/main/java/react/Reactor.java:42-88 | every listener action keeps the invariant |
| EngineFacts.RunScriptValid | src/main/java/react/Reactor.java:138-143 | a listener's whole script keeps the invariant |
| EngineFacts.CloseValid | src/main/java/react/Cons.java:28-35 | `close` keeps the invariant |
| EngineFacts.VisitValid | src/main/java/react/Reactor.java:137-145 | one loop iteration keeps the invariant |
| EngineFacts.PassValid | src/main/java/react/Reactor.java:137-145 | the dispatch loop keeps the invariant |
| EngineFacts.FullPassSound | src/main/java/react/Reactor.java:129-149 | a full pass keeps the structural invariant |
| EngineFacts.DrainStepSound | src/main/java/react/Reactor.java:151-160 | performing one deferred run keeps the structural invariant |
| EngineFacts.DrainSound | src/main/java/react/Reactor.java:151-160 | draining the queue keeps the structural invariant |
| EngineFacts.NotifyValid | src/main/java/react/Reactor.java:116-165 | `notify` keeps the invariant; from rest it ends at rest with nothing queued |
| EngineFacts.DirectValid | src/main/java/react/Reactor.java:116-165 | listener code run outside a pass keeps the invariant and the dispatching flag |
| EngineFacts.DirectEvolves | src/main/java/react/Reactor.java:116-165 | listener code run outside a pass only grows the log and lets cells evolve as the engine allows |
| EngineFacts.PassScope | src/main/java/react/Reactor.java:137-145 | every delivery of a pass goes to a snapshot cell and carries the notified payload |
| EngineFacts.PassSplit | src/main/java/react/Reactor.java:137-145 | a pass's deliveries are its first visit's followed by the rest's |
| EngineFacts.VisitCount | src/main/java/react/Reactor.java:137-145 | one iteration delivers once to its own open cell and to nothing else |
| EngineFacts.PassCountAt | src/main/java/react/Reactor.java:137-145 | a snapshot cell is invoked at most once, and exactly once if its listener is still real at the end |
| EngineFacts.PassDeliveries | src/main/java/react/Reactor.java:134-145 | whatever the listeners do (throw, remove, reconnect), no snapshot cell is invoked twice and every cell still open at the end was invoked exactly once |
| EngineFacts.PassSilent | src/main/java/react/Reactor.java:137-145 | a cell holding the placeholder receives nothing in a pass |
| EngineFacts.DrainStepSilent | src/main/java/react/Reactor.java:151-160 | a cell holding the placeholder receives nothing in a deferred run |
| EngineFacts.DrainSilent | src/main/java/react/Reactor.java:151-160 | a cell holding the placeholder receives nothing while the queue drains, queued notifications included |
| EngineFacts.FullPassFresh | src/main/java/react/Reactor.java:129-149 | a full pass delivers exactly what the loop over the chain delivers |
| EngineFacts.NotifyFresh | src/main/java/react/Reactor.java:116-165 | `notify` at rest delivers its pass's deliveries followed by the drain's |
| EngineFacts.ClosedCellSilent | src/main/java/react/Cons.java:28-35 | a closed connection is never invoked again by any `notify`, its own pass or queued ones |
| EngineFacts.PassClosesOneShot | src/main/java/react/Reactor.java:144 | a one-shot cell in the snapshot is closed by the end of the pass |
| EngineFacts.OneShotAtMostOnce | src/main/java/react/Reactor.java:144 | a one-shot connection fires at most once per `notify`, queued notifications included |
| EngineFacts.ConnectedDuringPassSilent | src/main/java/react/Reactor.java:47-54 | a connection made during a pass is not notified by that pass |
| EngineFacts.Count | src/main/java/react/Reactor.java:137-145 | the number of deliveries to a cell is at most the log's length |
| EngineFacts.CountAppend | src/main/java/react/Reactor.java:137-145 | delivery counts add up over concatenated logs |
| EngineFacts.AddConnectionValid | src/main/java/react/Reactor.java:42-60 | `addConnection` keeps the invariant: the new cell is fresh, linked once, or queued for insertion while unlinked |
| EngineFacts.AtPrioValid | src/main/java/react/Cons.java:42-50 | `atPrio` keeps the invariant: the cell is unlinked before it is added again |
| EngineFacts.RemoveConnectionValid | src/main/java/react/Reactor.java:76-88 | `removeConnection` keeps the invariant |
| EngineFacts.PassCountAtMost | src/main/java/react/Reactor.java:137-145 | in a pass over a duplicate-free snapshot no cell is invoked twice |
| EngineFacts.PassCountOnce | src/main/java/react/Reactor.java:137-145 | a snapshot cell whose listener is still real after the pass was invoked during it |
| EngineFacts.RestSkips | src/main/java/react/Reactor.java:137-145 | the rest of a pass never invokes a cell outside the rest of the snapshot |
| EngineFacts.InsertRunSound | src/main/java/react/Reactor.java:49-52 | a deferred insertion, run after the pass, links its cell once and keeps the invariant |
| EngineFacts.RemoveRunSound | src/main/java/react/Reactor.java:64-67 | a deferred removal, run after the pass, keeps the invariant |
| EngineFacts.RemoveAllRunSound | src/main/java/react/Reactor.java:78-81 | a deferred `removeAll`, run after the pass, keeps the invariant |
| EngineFacts.NotifyRunSound | src/main/java/react/Reactor.java:151-160 | taking a deferred notification off the queue keeps the invariant |
| EngineFacts.FreshSplit | src/main/java/react/Reactor.java:137-160 | the deliveries of successive stretches of a dispatch are the concatenation of each stretch's deliveries |
| Reactors.Reactor.constructor | src/main/java/react/Reactor.java:178-179 | a new reactor is the engine's empty reactor and satisfies the invariant |
| Reactors.Reactor.HasConnections | src/main/java/react/Reactor.java:20-22 | true during a pass (the sentinel is not null) and otherwise exactly when a cell is linked |
| Reactors.Reactor.AddCons | src/main/java/react/Reactor.java:47-60 | the linked chain and queue become exactly the engine's `AddCons` |
| Reactors.Reactor.Disconnect | src/main/java/react/Reactor.java:62-74 | the linked chain and queue become exactly the engine's `Disconnect` |
| Reactors.Reactor.RemoveConnection | src/main/java/react/Reactor.java:76-88 | exactly the engine's `RemoveConnection`, keeping the invariant |
| Reactors.Reactor.AddConnection | src/main/java/react/Reactor.java:42-45 | a null listener gives NullPointerException("Null listener"); otherwise exactly the engine's new open cell, keeping the invariant |
| Reactors.Reactor.Close | src/main/java/react/Cons.java:28-35 | exactly the engine's `Close`, keeping the invariant |
| Reactors.Reactor.Once | src/main/java/react/Cons.java:37-40 | exactly the engine's `Once` |
| Reactors.Reactor.AtPrio | src/main/java/react/Cons.java:42-50 | IllegalStateException on a closed cell, otherwise exactly the engine's re-insertion |
| Reactors.Reactor.ClearConnections | src/main/java/react/Reactor.java:31-36 | IllegalStateException while dispatching, otherwise the chain is dropped, as the engine says |
| Reactors.Reactor.Apply | src/main/java/react/Reactor.java:42-88 | a listener action on the object is exactly the engine's `Apply` |
| Reactors.Reactor.RunScript | src/main/java/react/Reactor.java:138-143 | the loop over a listener's actions is exactly the engine's `RunScript` |
| Reactors.Reactor.Invoke | src/main/java/react/Reactor.java:138-143 | exactly the engine's `Invoke` |
| Reactors.Reactor.Visit | src/main/java/react/Reactor.java:137-145 | exactly the engine's `Visit` |
| Reactors.Reactor.FullPass | src/main/java/react/Reactor.java:129-149 | walking the chain by its `next` links is exactly the engine's `FullPass`, and keeps the structural invariant |
| Reactors.Reactor.DrainStep | src/main/java/react/Reactor.java:153-160 | exactly the engine's `DrainStep` |
| Reactors.Reactor.Drain | src/main/java/react/Reactor.java:151-160 | the drain loop is exactly the engine's `Drain` |
| Reactors.Reactor.Notify | src/main/java/react/Reactor.java:116-165 | exactly the engine's `Notify`, keeping the invariant, and the thrown exception is the first one caught |
| ConnectionFacts.PrioFrame | src/main/java/react/Reactor.java:42-45 | changing an unlinked cell leaves the chain's priorities and insertion points alone |
| ConnectionFacts.AddConnectionAtRest | src/main/java/react/Reactor.java:42-60 | at rest: null gives NullPointerException and no change; otherwise a fresh open cell of priority 0 is linked after every cell of priority >= 0, keeping the chain sorted |
| ConnectionFacts.AddConnectionDuringPass | src/main/java/react/Reactor.java:47-54 | during a pass: the cell exists and is open, the walked chain is untouched and the insertion waits at the end of the queue |
| ConnectionFacts.CloseEffect | src/main/java/react/Cons.java:28-35 | close swaps in the placeholder and marks the cell closed; unlinks now at rest, queues the unlink in a pass; touches no other cell; closing twice is a no-op |
| ConnectionFacts.OnceEffect | src/main/java/react/Cons.java:37-40 | once changes only the one-shot flag and is idempotent |
| ConnectionFacts.AtPrioClosed | src/main/java/react/Cons.java:42-44 | atPrio on a closed connection throws IllegalStateException with the source's message and changes nothing |
| ConnectionFacts.AtPrioAtRest | src/main/java/react/Cons.java:42-50 | at rest, atPrio re-inserts the cell under its new priority; same cells, still sorted |
| ConnectionFacts.RemoveConnectionAtRest | src/main/java/react/Reactor.java:76-88 | at rest, exactly the cells of that listener leave the chain; they are not closed |
| ConnectionFacts.ClearConnectionsEffect | src/main/java/react/Reactor.java:31-36 | refused with IllegalStateException while dispatching; otherwise the chain is emptied and no connection is left |
| ConnectionFacts.HasConnectionsMeaning | src/main/java/react/Reactor.java:20-22 | true throughout a pass and at rest exactly when some cell is linked |
| SignalScenarios.Deliveries | src/main/java/react/Reactor.java:137-145 | what a pass of idle listeners delivers: only snapshot cells, each with the payload |
| SignalScenarios.QuietVisit | src/main/java/react/Reactor.java:137-145 | visiting an idle listener's cell logs its delivery and touches no other cell |
| SignalScenarios.QuietPassOrder | src/main/java/react/Reactor.java:137-145 | a pass of idle listeners delivers to the open cells in snapshot order |
| SignalScenarios.PriorityOrder | src/test/java/react/SignalTest.java:57-80 | at rest, a pass of idle listeners delivers to the chain head to tail, i.e. in priority order |
| SignalScenarios.QuietPassQueues | src/main/java/react/Reactor.java:137-145 | a pass of idle listeners queues no notification and catches nothing |
| SignalScenarios.DrainNoNotify | src/main/java/react/Reactor.java:151-160 | draining a queue without notifications delivers nothing and catches nothing |
| SignalScenarios.QuietNotify | src/main/java/react/Reactor.java:116-165 | a notify of idle listeners delivers once to every open cell in chain order and throws nothing |
| SignalScenarios.RemovalPass | src/test/java/react/SignalTest.java:100-120 | the exact state after the pass in which a listener closes another connection |
| SignalScenarios.RemoveDuringDispatch | src/test/java/react/SignalTest.java:100-120 | the connection closed during the pass gets nothing from it, though still in the snapshot, and is unlinked afterwards |
| SignalScenarios.NestedFirstPass | src/test/java/react/SignalTest.java:152-169 | the exact state after the first pass of the nested-emit test |
| SignalScenarios.NestedSecondPass | src/test/java/react/SignalTest.java:152-169 | the exact state after the queued emission's pass |
| SignalScenarios.NestedDrain | src/test/java/react/SignalTest.java:152-169 | the exact state after the drain of the nested-emit test |
| SignalScenarios.DispatchDuringDispatch | src/test/java/react/SignalTest.java:152-169 | an emission made during a pass is delivered after it, to the counter only: 5 then 10; the one-shot listener is never called again |
| SignalScenarios.MultiFailure | src/test/java/react/SignalTest.java:195-208 | both throwing listeners are called, both exceptions are collected in order, and the first is rethrown |
| SignalScenarios.AddFirstNotify | src/test/java/react/SignalTest.java:82-98 | the exact state after the first emission of the add-during-dispatch test |
| SignalScenarios.AddDuringDispatch | src/test/java/react/SignalTest.java:82-98 | a connection made during the first emission gets nothing from it and receives the second |
| SignalScenarios.PrioFirstVisit | src/main/java/react/Cons.java:42-50 | corrected: two `atPrio` calls in one listener change both priorities at once and queue a removal and a re-insertion for each |
| SignalScenarios.PrioPass | src/main/java/react/Reactor.java:116-145 | corrected: the exact state after that pass: all four listeners called, four runs queued |
| SignalScenarios.PrioDrain | src/main/java/react/Reactor.java:147-160 | corrected: the drain re-inserts the first cell in front of the second, whose priority is already lowered, and ends with the chain a, x, y, b |
| SignalScenarios.PrioStartSorted | src/main/java/react/Cons.java:99-126 | the starting chain is sorted by non-increasing priority |
| SignalScenarios.ReprioritizedUnsorted | src/main/java/react/Cons.java:42-50 | corrected: the final chain, with priorities 3, 4, 1, 0, is not sorted |
| SignalScenarios.TwoPrioChangesInPass | src/main/java/react/Cons.java:42-50 | corrected: a sorted chain left unsorted by two `atPrio` calls in one pass of the corrected engine: a(9), b(5), x(4), y(1) ends as a(3), x(4), y(1), b(0) |
| Findings.Walk | src/main/java/react/Reactor.java:137 | the loop's walk over `next` links starts at the head and visits at most `fuel` cells |
| Findings.WalkLinked | src/main/java/react/Reactor.java:137 | following well-formed links from the head walks exactly the chain |
| Findings.UnlinkAfter | src/main/java/react/Cons.java:132-141 | the as-written removal loop only rewrites links to the removed cell's successor |
| Findings.RemoveAsWritten | src/main/java/react/Cons.java:128-144 | as written, removing the head returns the head's own `next` as the new chain |
| Findings.LinkAfter | src/main/java/react/Cons.java:108-122 | the as-written insertion loop only rewrites the new cell's link and a link to the new cell |
| Findings.InsertAsWritten | src/main/java/react/Cons.java:99-126 | as written, inserting into an empty chain leaves the new cell's own link untouched |
| Findings.AtPrioLinksAsWritten | src/main/java/react/Cons.java:45-46 | as written, `atPrio` nulls the cell's `next` at once and changes no other link |
| Findings.AtPrioDuringPassDropsCell | src/main/java/react/Cons.java:42-50 | as written, `atPrio` during a pass makes the loop skip the next cell, and the deferred remove and insert leave an open cell out of the chain |
| Findings.FullPassBoth | src/main/java/react/Reactor.java:129-149 | with the correction, the pass reaches both cells |
| Findings.DrainBoth | src/main/java/react/Reactor.java:151-160 | with the correction, the deferred re-insertion puts the moved cell after the other one |
| Findings.AtPrioDuringPassKeepsCell | src/main/java/react/Cons.java:42-50 | corrected: both cells are notified, both stay linked in priority order, nothing is thrown or left queued |
| Functions.Not | src/main/java/react/Functions.java:15-20 | `NOT` answers the opposite of its argument |
| Functions.Get | src/main/java/react/Functions.java:37 | `Map.get` answers null for a key the map does not contain |
| Functions.ForMapMeaning | src/main/java/react/Functions.java:29-41 | `forMap` answers the stored value for every contained key (a stored null included) and the default exactly for keys not contained |
| Tries.Get | src/main/java/react/Try.java:23-51 | `get` returns exactly when the try is a success, the value of a success, and rethrows a failure's cause |
| Tries.GetFailure | src/main/java/react/Try.java:24-52 | `getFailure` returns exactly on a failure, its cause; a success throws IllegalStateException |
| Tries.Map | src/main/java/react/Try.java:26-56 | `map` keeps success or failure; a success `v` becomes a success holding `f(v)`, and a failure passes through unchanged |
| Tries.FlatMap | src/main/java/react/Try.java:29-59 | `flatMap` continues a success with `f` and passes a failure through |
| Tries.Constructors | src/main/java/react/Try.java:66-70 | `success` and `failure` build tries that `get` and `getFailure` take apart again |
| Tries.GetOrFailure | src/main/java/react/Try.java:79-92 | exactly one of `get` and `getFailure` returns; `isFailure` is `!isSuccess` |
| Tries.LiftIsMap | src/main/java/react/Try.java:72-77 | `lift(f)` applied to a try is that try's `map(f)` |
| Tries.MapLaws | src/main/java/react/Try.java:94-95 | `map` preserves identity and composition |
| Tries.FlatMapLaws | src/main/java/react/Try.java:97-98 | `flatMap(success)` is the identity and `flatMap` of a success-building function is `map` |
| Tries.FlatMapAssociative | src/main/java/react/Try.java:97-98 | `flatMap` is associative |
| Slots.Noop | src/main/java/react/Slot.java:14-15 | `NOOP` has no effect and throws nothing on any value |
| Slots.OnChangeIgnoresOld | src/main/java/react/Slot.java:58 | a slot used as a value listener reacts to the new value alone |
| Slots.FilteredMeaning | src/main/java/react/Slot.java:38-46 | a filtered slot acts as the slot on accepted values and as `NOOP` on the others |
| Slots.ComposeComposes | src/main/java/react/Slot.java:29-36 | composing twice is composing with the composed function |
| Slots.AndThenMeaning | src/main/java/react/Slot.java:48-56 | `andThen` makes the first slot's effects then the second's; if the first throws, the second does not run |
| Slots.AndThenLaws | src/main/java/react/Slot.java:48-56 | `andThen` is associative and `NOOP` is its unit |
| Slots.FilteredTwice | src/main/java/react/Slot.java:38-46 | filtering twice accepts exactly what both predicates accept |
| ObjectsUtil.Equals | src/main/java/react/ObjectsUtil.java:11-14 | the same reference (both null included) is equal; null equals only null; otherwise the object's own `equals` decides |
| ObjectsUtil.HashCode | src/main/java/react/ObjectsUtil.java:6-9 | 0 for null, the object's own hash otherwise |
| ObjectsUtil.EqualsIsEquivalence | src/main/java/react/ObjectsUtil.java:11-14 | given lawful `equals`, the null-safe equality is reflexive, symmetric, transitive and separates null |
| ObjectsUtil.EqualsAgreesWithHashCode | src/main/java/react/ObjectsUtil.java:6-14 | given lawful `equals` and `hashCode`, equal references hash alike |
| ValueHolders.UpdatedStores | src/main/java/react/AbstractValue.java:149-156 | `updateAndNotify` stores the new value and returns the old one; it notifies `(new, old)` exactly when forced or when the two differ, rethrows the first listener exception; without `updateLocal` it throws UnsupportedOperationException and changes nothing; the reactor invariant holds |
| ValueHolders.UpdatedDelivers | src/main/java/react/AbstractValue.java:149-170 | with idle listeners, a forced or changing update delivers `(new, old)` to every open connection in chain order, and an unchanged one delivers nothing |
| ValueHolders.Value.constructor | src/main/java/react/Value.java:23-26 | a new value holds its initial value and has no connections |
| ValueHolders.Value.UpdateAndNotify | src/main/java/react/Value.java:50-54 | stored value, reactor and result are exactly those of `updateAndNotify` with a storing `updateLocal` |
| ValueHolders.Value.Update | src/main/java/react/Value.java:33-35 | `update` is the unforced update |
| ValueHolders.Value.UpdateForce | src/main/java/react/Value.java:42-44 | `updateForce` is the forced update |
| ValueHolders.ConnectNotifyEffect | src/main/java/react/AbstractValue.java:75-91 | the new listener hears `(current, null)` at once; if it throws, its connection is closed and the exception propagates, otherwise the caller gets the connection |
| ValueHolders.ValueEquals | src/main/java/react/AbstractValue.java:109-115 | false for null and for another class; otherwise the held values are compared null-safely |
| ValueHolders.ValueEqualsSymmetric | src/main/java/react/AbstractValue.java:109-115 | for a lawful held `equals`, value equality is reflexive, symmetric and transitive |
| ValueHolders.When | src/main/java/react/AbstractValue.java:66-70 | `when` completes with the current value if it meets the condition, otherwise with the first later value that does, and stays pending if none does |
| ValueHolders.FirstWhere | src/main/java/react/AbstractSignal.java:28-63 | `filter(cond).next()` completes with the first emitted value that meets the condition, or stays pending |
| ValueHolders.MapChange | src/main/java/react/AbstractValue.java:18-31 | a mapped value forwards each change `(v, ov)` as `(f(v), f(ov))` |
| IntValues.Wrap | src/main/java/react/IntValue.java:26-28 | Java `int` arithmetic: the result agrees with the exact one modulo 2^32 and equals it when it fits |
| IntValues.IncrementedClamp | src/main/java/react/IntValue.java:36-38 | the stored value never exceeds `max` |
| IntValues.IncrementedClampRange | src/main/java/react/IntValue.java:46-48 | the stored value is at least `min`, and at most `max` when `min <= max` |
| IntValues.DecrementedClamp | src/main/java/react/IntValue.java:56-58 | the stored value is at least `min` |
| IntValues.ClampsWithoutOverflow | src/main/java/react/IntValue.java:26-58 | when no overflow happens, the four updates store the mathematical sum, difference or clamp |
| IntValues.ClampAfterWrap | src/main/java/react/IntValue.java:36-38 | the sum wraps before the clamp: `incrementClamp(1, MAX_VALUE)` on `MAX_VALUE` stores `MIN_VALUE` |
| IntValues.IntValue.constructor | src/main/java/react/IntValue.java:17-19 | a new int value holds its initial value and has no connections |
| IntValues.IntValue.UpdateInt | src/main/java/react/IntValue.java:60-63 | `updateInt(n)` stores `n` through `update` and returns `n`, or the listener's exception |
| IntValues.IntValue.Current | src/main/java/react/IntValue.java:27 | unboxing the held value: a null value throws NullPointerException |
| IntValues.IntValue.Increment | src/main/java/react/IntValue.java:26-28 | stores and returns the wrapped sum; a null value throws and changes nothing |
| IntValues.IntValue.IncrementClamp | src/main/java/react/IntValue.java:36-38 | stores and returns `min(get() + a, max)`, never above `max` |
| IntValues.IntValue.IncrementClampRange | src/main/java/react/IntValue.java:46-48 | stores and returns the sum confined below by `min` |
| IntValues.IntValue.DecrementClamp | src/main/java/react/IntValue.java:56-58 | stores and returns `max(get() - a, min)`, never below `min` |
| IntValues.IntUpdateNotifiesOnChange | src/main/java/react/IntValue.java:60-63 | an arithmetic update delivers `(n, cur)` to every open connection exactly when `n != cur` |
| MultiFailure.Digit | src/main/java/react/MultiFailureException.java:33 | a decimal digit character for each value below ten |
| MultiFailure.NatToString | src/main/java/react/MultiFailureException.java:33 | the count is printed as non-empty decimal digits with no leading zero |
| MultiFailure.ParseNatToString | src/main/java/react/MultiFailureException.java:33 | reading the printed count back gives the count |
| MultiFailure.ClassName | src/main/java/react/MultiFailureException.java:31 | every failure has a non-empty class name |
| MultiFailure.Entries | src/main/java/react/MultiFailureException.java:29-32 | one entry per failure, in insertion order |
| MultiFailure.Entry | src/main/java/react/MultiFailureException.java:31 | an entry is never empty |
| MultiFailure.MessageOf | src/main/java/react/MultiFailureException.java:26-34 | the message of a list of failures is the multi-failure's message |
| MultiFailure.JoinSnoc | src/main/java/react/MultiFailureException.java:29-32 | appending an entry adds ", " before it unless the list was empty |
| MultiFailure.JoinEmpty | src/main/java/react/MultiFailureException.java:30 | a joined list of non-empty entries is empty exactly when there are no entries |
| MultiFailure.MultiFailureException.constructor | src/main/java/react/MultiFailureException.java:56 | a new exception holds no failures |
| MultiFailure.MultiFailureException.AddFailure | src/main/java/react/MultiFailureException.java:22-24 | appends the failure |
| MultiFailure.MultiFailureException.Failures | src/main/java/react/MultiFailureException.java:18-20 | the failures in insertion order |
| MultiFailure.MultiFailureException.AsExn | src/main/java/react/MultiFailureException.java:16 | the exception thrown carries exactly the collected failures |
| MultiFailure.MultiFailureException.GetMessage | src/main/java/react/MultiFailureException.java:26-34 | the buffer loop computes exactly the count, " failures: ", then the entries separated by ", " |
| MultiFailure.MessageShape | src/main/java/react/MultiFailureException.java:26-34 | the message opens with the decimal count, which reads back as the number of failures, then " failures: " and the entry list |
| MultiFailure.MessageSmall | src/main/java/react/MultiFailureException.java:26-34 | with no failures the message is "0 failures: "; with one it is "1 failures: " and its entry |
| MultiFailure.RuntimeEntry | src/main/java/react/MultiFailureException.java:31 | an entry is `<class name>: <message>` |
| MultiFailure.TwoEntries | src/main/java/react/MultiFailureException.java:26-34 | two failures give "2 failures: " and both entries separated by ", " |
| MultiFailure.TwoFailuresMessage | src/test/java/react/RFutureTest.java:299-305 | the message for two `Exception`s "Boo 1!" and "Boo 2!" is the one the future test expects |
| Connections.WrapperAdjust | src/main/java/react/Connection.java:14-18 | `once`, `atPrio` and `holdWeakly` on `NOOP` or a joined connection always throw UnsupportedOperationException |
| Connections.NoopDisconnect | src/main/java/react/Connection.java:37-39 | `NOOP.disconnect()` changes nothing |
| Connections.CloseMeaning | src/main/java/react/Cons.java:28-35 | closing an open cell swaps in the placeholder and marks it closed; at rest it is unlinked with the other cells kept in order and nothing queued, during a pass the snapshot is kept and exactly one removal is queued; the other cells, the log, the errors, the id counter and the exhausted flag do not change, and closing a closed cell does nothing |
| Connections.ClosedAllStep | src/main/java/react/ConnectionGroup.java:19-24 | on a chain without repeats, closing one more member extends the set of closed members by it, and at rest the chain is the start chain without the open members closed so far |
| Connections.CloseMember | src/main/java/react/ConnectionGroup.java:21 | disconnecting one member keeps the "closed exactly these" invariant of the group loop, at rest or during a pass: at rest the chain is exactly the start chain, in order, without the open members closed so far; log, errors, id counter and exhausted flag unchanged |
| Connections.ConnectionGroup.constructor | src/main/java/react/ConnectionGroup.java:42 | a new group is empty |
| Connections.ConnectionGroup.Add | src/main/java/react/ConnectionGroup.java:30-33 | `add` returns its argument and the group gains it |
| Connections.ConnectionGroup.Remove | src/main/java/react/ConnectionGroup.java:38-40 | `remove` forgets the connection and leaves it connected |
| Connections.ConnectionGroup.Disconnect | src/main/java/react/ConnectionGroup.java:19-24 | every member is closed; at rest the chain becomes the old chain, in order, without the members that were open, and nothing is queued; during a pass the snapshot is kept and only removals of open members are queued, exactly one for each; no other cell changes, nor the log, errors, id counter or exhausted flag; the group ends empty |
| Connections.JoinedConnection.constructor | src/main/java/react/Connection.java:44-45 | the joined connection keeps the caller's array |
| Connections.JoinedConnection.Disconnect | src/main/java/react/Connection.java:46-52 | every non-null component is closed (at rest the chain becomes the old one, in order, without the open components; during a pass exactly one removal per open component is queued), every slot is nulled; no other cell, nor the log, errors, id counter or exhausted flag, changes; a second call does nothing |
| Connections.ComponentsSnoc | src/main/java/react/Connection.java:47-51 | one more array slot adds its component, if any |
| Connections.ComponentsMembers | src/main/java/react/Connection.java:48 | the components are exactly the non-null slots |
| Mapped.ConnectSource | src/main/java/react/AbstractSignal.java:31-32 | connecting the relay makes a fresh open cell, linked into the source's chain at rest, or queued for insertion with the snapshot kept while the source dispatches; no existing cell changes |
| Mapped.CloseSource | src/main/java/react/MappedSignal.java:33-36 | closing the held connection swaps in the placeholder and closes it; it is unlinked at rest, or its removal queued while the source dispatches; nothing else changes |
| Mapped.MappedSignal.constructor | src/main/java/react/MappedSignal.java:39 | a derived signal starts with no listeners and no source connection |
| Mapped.MappedSignal.OnSourceEmit | src/main/java/react/AbstractSignal.java:11-57 | the relay emits what `map`/`filter`/`collect` make of the value, or nothing |
| Mapped.MappedSignal.ConnectionAdded | src/main/java/react/MappedSignal.java:24-28 | connects to the source only when no connection is held |
| Mapped.MappedSignal.ConnectionRemoved | src/main/java/react/MappedSignal.java:30-37 | closes and forgets the source connection exactly when the last listener is gone |
| Mapped.MappedSignal.Connect | src/main/java/react/AbstractSignal.java:65-67 | adding a listener to a signal without listeners connects it to its source; null is refused with nothing changed |
| Mapped.MappedSignal.CloseListener | src/main/java/react/MappedSignal.java:30-37 | closing the last listener closes the source connection; otherwise the source is untouched |
| Mapped.MappedSignal.RemoveListener | src/main/java/react/AbstractSignal.java:69-71 | removing the last listener closes the source connection; otherwise the source is untouched |
| Mapped.MappedValue.constructor | src/main/java/react/MappedValue.java:46 | a derived value starts with no listeners and no source connection |
| Mapped.MappedValue.Disconnect | src/main/java/react/MappedValue.java:24-29 | a held connection is closed and cleared, and unlinked at rest or its removal queued while the source dispatches; without one nothing changes |
| Mapped.MappedValue.Reconnect | src/main/java/react/MappedValue.java:31-34 | the old connection is closed and exactly one new one is held |
| Mapped.MappedValue.ConnectionAdded | src/main/java/react/MappedValue.java:36-39 | connects to the source only when no connection is held |
| Mapped.MappedValue.ConnectionRemoved | src/main/java/react/MappedValue.java:41-44 | with no listener left, the source connection is closed and cleared |
| Mapped.MappedValue.Connect | src/main/java/react/AbstractValue.java:72-74 | adding a listener to a value without listeners connects it to its source |
| Mapped.MappedValue.CloseListener | src/main/java/react/MappedValue.java:41-44 | closing the last listener closes the source connection |
| Mapped.RelayMeaning | src/main/java/react/AbstractSignal.java:11-57 | `map` always emits `func(v)`; `filter` emits `v` exactly when `pred(v)`; `collect` emits exactly the non-null collected values |
| Mapped.RelayDelivers | src/main/java/react/AbstractSignal.java:81-83 | with idle listeners, a derived signal delivers what the relay passes on to each listener in chain order |
| Mapped.LastListenerReleasesSource | src/main/java/react/MappedSignal.java:30-37 | when the relay was the source's only connection, closing it leaves the source with no connections |
| ConnectionFacts.AtPrioKeepsOrder | src/main/java/react/Cons.java:42-50 | outside a pass, `atPrio` keeps a sorted, duplicate-free chain sorted under the new priority |
| Connections.CloseAll | src/main/java/react/ConnectionGroup.java:20-22 | after the loop every member is closed; at rest the chain is the old chain, in its order, without the members that were open, and nothing is queued; during a pass exactly one removal per open member is queued; every other cell, the log, the errors, the id counter and the exhausted flag are as they were |
| Connections.JoinedConnection.DisconnectSlot | src/main/java/react/Connection.java:48-50 | a non-null slot's component is closed and the slot nulled, keeping the loop's invariant (exact chain order at rest, log, errors, id counter and exhausted flag unchanged); a null slot changes nothing; no other slot changes |
| Collections.SizeStep | src/main/java/react/RCollection.java:38-40 | an existing size view takes the size and reports `(size, previous)` only when they differ; with no view nothing changes |
| Collections.Emitter.constructor | src/main/java/react/RCollection.java:50-51 | a new collection has no events, no listeners and no size view |
| Collections.Emitter.Connect | src/main/java/react/Reactor.java:42-45 | connecting adds a listener and notifies nothing |
| Collections.Emitter.SizeView | src/main/java/react/RCollection.java:16-22 | the size view is created on first use holding the size, and returned untouched afterwards |
| Collections.Emitter.IsEmptyView | src/main/java/react/RCollection.java:24-27 | true exactly when the size is 0 |
| Collections.Emitter.IsNonEmptyView | src/main/java/react/RCollection.java:29-32 | true exactly when the size is above 0 |
| Collections.Emitter.UpdateSize | src/main/java/react/RCollection.java:34-40 | the size view moves as `SizeStep` says; no event is logged |
| Collections.Emitter.Notify | src/main/java/react/RCollection.java:42-48 | the event is delivered, and the size view is updated even when a listener throws |
| Collections.Returning | src/main/java/react/RCollection.java:42-48 | a mutator returns its value exactly when the notification threw nothing, and otherwise throws what it threw |
| RSets.Adds | src/main/java/react/RSet.java:255-261 | one add event per element, in order |
| RSets.Removes | src/main/java/react/RSet.java:263-269 | one remove event per element, in order |
| RSets.NewOnesMeaning | src/main/java/react/RSet.java:170-176 | the elements `addAll` finds new are exactly the absent ones of the collection, each once; none exactly when all were present |
| RSets.NewOnesSnoc | src/main/java/react/RSet.java:172-174 | one more element extends the new ones by it when it is still new |
| RSets.ContainsChange | src/main/java/react/RSet.java:119-127 | a contains-view reacts exactly to events about its own element |
| RSets.RSet.constructor | src/main/java/react/RSet.java:55-57 | wraps the given set and notifies nothing |
| RSets.RSet.Size | src/main/java/react/RSet.java:133-135 | the number of elements |
| RSets.RSet.Contains | src/main/java/react/RSet.java:143-145 | membership in the backing set |
| RSets.RSet.Add | src/main/java/react/RSet.java:148-153 | a new element is added and notified and the result is true; a present one gives false and no event |
| RSets.RSet.Remove | src/main/java/react/RSet.java:156-162 | a present element is removed and notified and the result is true; an absent one gives false and no event |
| RSets.RSet.AddForce | src/main/java/react/RSet.java:88-93 | always notifies; returns whether the set changed |
| RSets.RSet.RemoveForce | src/main/java/react/RSet.java:100-105 | always notifies; returns whether the set changed |
| RSets.RSet.AddAll | src/main/java/react/RSet.java:170-176 | without an exception the set gains the collection, exactly the new elements are notified in order, and the result says whether there was one; an exception stops it after the element that caused it |
| RSets.RSet.Clear | src/main/java/react/RSet.java:200-207 | the set is emptied first; every former element is notified removed, each once, unless a listener throws, which stops the notifications there |
| RSets.RSet.ConnectNotify | src/main/java/react/RSet.java:71-74 | every element is replayed once to the new listener alone, then it is connected; if it throws during the replay it is not connected |
| RSets.RSet.ContainsView | src/main/java/react/RSet.java:113-118 | a null element gives NullPointerException with the source's message; otherwise the view holds whether the set contains it |
| RSets.ContainsChangeAccurate | src/main/java/react/RSet.java:107-130 | for a real change of the element's membership the view reports `(now, before)` |
| Collections.Enumerate | src/main/java/react/RSet.java:180-181 | every element of the set, each exactly once, in an order the model leaves open |
| RSets.PresentOnesMeaning | src/main/java/react/RSet.java:191-197 | the elements `removeAll` removes are exactly those of the collection still in the set, each once; none exactly when no element of the collection is present |
| RSets.PresentOnesSnoc | src/main/java/react/RSet.java:193-195 | one more element extends the removed ones by it when it is present and not yet removed |
| RSets.PresentOnesDistinct | src/main/java/react/RSet.java:191-197 | a collection of distinct elements that are all present is removed whole, in its own order |
| RSets.RSet.RemoveAll | src/main/java/react/RSet.java:191-197 | removes each element of the collection in turn; exactly the present ones are notified, in order; the result is whether anything was removed; a listener's exception stops the loop and propagates |
| RSets.RSet.RetainAll | src/main/java/react/RSet.java:179-188 | removes, each once and notified, exactly the elements not in the collection; without an exception the set becomes its intersection with the collection and the result is whether anything was removed |
| RMaps.Lookup | src/main/java/react/RMap.java:240-242 | the mapped value; null for an absent key |
| RMaps.MapRemovals | src/main/java/react/RMap.java:278-285 | one removal event per key, each with its old value, in order |
| RMaps.ContainsKeyChange | src/main/java/react/RMap.java:151-159 | a contains-key view reacts only to events about its own key |
| RMaps.GetViewChange | src/main/java/react/RMap.java:175-183 | a get view reacts exactly to events about its own key, reporting the event's old value as the previous one |
| RMaps.RMap.constructor | src/main/java/react/RMap.java:74-76 | wraps the given map and notifies nothing |
| RMaps.RMap.Get | src/main/java/react/RMap.java:240-242 | `get` is the lookup in the backing map |
| RMaps.RMap.GetOrElse | src/main/java/react/RMap.java:110-113 | the mapped value when it is not null, otherwise the default |
| RMaps.RMap.Put | src/main/java/react/RMap.java:245-252 | stores the mapping; notifies `(key, value, old)` exactly when the value is not `areEqual` to the old one; returns the old value; the size view moves to the new size only with an event, so a silent `put(key, null)` of a new key leaves it behind |
| RMaps.RMap.PutForce | src/main/java/react/RMap.java:120-125 | stores the mapping, always notifies, returns the old value |
| RMaps.RMap.Remove | src/main/java/react/RMap.java:255-268 | an absent key gives null and no event; a present one is removed and notified with its old value, which is returned |
| RMaps.RMap.RemoveForce | src/main/java/react/RMap.java:132-137 | removes and always notifies, even with no mapping; returns the old value |
| RMaps.RMap.KeySetRemove | src/main/java/react/RMap.java:314-323 | notifies the removal with the old value only when a mapping was removed, and says whether one was |
| RMaps.RMap.Clear | src/main/java/react/RMap.java:278-285 | the map is emptied first; every former entry is notified removed with its value, each once, unless a listener throws, which stops the notifications there |
| RMaps.RMap.NotifyRemovals | src/main/java/react/RMap.java:284 | with the map already empty, each listed key is notified removed with its former value, in order, until a listener throws; that exception is the reaction to the last removal sent, and all earlier reactions were quiet; the map stays empty |
| RMaps.RMap.ConnectNotify | src/main/java/react/RMap.java:91-96 | every entry is replayed once as `(key, value, null)` to the new listener alone, then it is connected; a throw leaves it unconnected |
| RMaps.RMap.ContainsKeyView | src/main/java/react/RMap.java:145-150 | a null key gives NullPointerException with the source's message; otherwise the view holds `containsKey` |
| RMaps.RMap.GetView | src/main/java/react/RMap.java:169-174 | a null key gives NullPointerException; otherwise the view holds `get` |
| RMaps.ContainsKeyViewFollows | src/main/java/react/RMap.java:139-163 | on a map without null mappings, a put or removal that changes whether the key is present is reported as `(after, before)`, and one that does not change it is not reported |
| RMaps.ContainsKeyViewMisreadsNull | src/main/java/react/RMap.java:153-155 | over a mapping to null, a put reports the key as newly added although it was present |
| RMaps.GetViewFollows | src/main/java/react/RMap.java:165-187 | a get view reports `(get after, get before)` for every put and removal of its key |
| RMaps.PutEvent | src/main/java/react/RMap.java:245-252 | one put notifies nothing exactly when the new value is `areEqual` to the old one, and otherwise `(key, value, old)` |
| RMaps.PutsMeaning | src/main/java/react/RMap.java:271-275 | after the puts of `putAll` every put key maps to its new value and every other mapping is unchanged |
| RMaps.PutsEvery | src/main/java/react/RMap.java:271-275 | putting every key of the argument gives the old map overridden by the argument |
| RMaps.PutEventsMeaning | src/main/java/react/RMap.java:271-275 | `putAll` announces a put exactly for each key whose new value is not `areEqual` to its old one, with that old value, at most one per key |
| RMaps.PutAllStep | src/main/java/react/RMap.java:272-274 | each further put of a key not yet written sees the key's value from before `putAll` and adds its own event |
| RMaps.RMap.PutAll | src/main/java/react/RMap.java:271-275 | puts each mapping of the argument in turn with its own notification; without an exception the map becomes the old one overridden by the argument; a listener's exception stops the loop and propagates |
| RMaps.RMap.PutEach | src/main/java/react/RMap.java:272-274 | over distinct keys of the argument, the map after each put is the old one with the keys so far overwritten, and the events are exactly the puts that changed a value; it stops at the first listener exception, which is the reaction to the last key's put event |
| RLists.IndexOf | src/main/java/react/RList.java:252-254 | -1 exactly when the element is absent; otherwise an index holding it with no earlier occurrence |
| RLists.ReplaySnoc | src/main/java/react/RList.java:287-298 | a listener's copy after one more event is that event applied to the copy so far |
| RLists.Inserts | src/main/java/react/RList.java:120-128 | `addAll(index, xs)` notifies `onAdd(index + k, xs[k])` for each `k` in order |
| RLists.HeadRemovals | src/main/java/react/RList.java:268-271 | `clear` notifies `onRemove(0, xs[k])` for each `k` in order |
| RLists.ReplayInserts | src/main/java/react/RList.java:120-128 | a copy that follows the events of `addAll(index, xs)` ends with `xs` spliced in at `index` |
| RLists.ReplayHeadRemovals | src/main/java/react/RList.java:268-271 | a copy that follows the first `n` removals of `clear` holds the list's rest from `n` on |
| RLists.InsertStep | src/main/java/react/RList.java:124-126 | inserting the next element at the next index extends both the splice and the event run by it |
| RLists.RList.constructor | src/main/java/react/RList.java:63-65 | wraps the list; nothing is notified |
| RLists.RList.Get | src/main/java/react/RList.java:248-250 | the element, or IndexOutOfBoundsException for an index out of range |
| RLists.RList.AddAt | src/main/java/react/RList.java:110-114 | an index outside `0..size` throws and changes nothing; otherwise `e` is inserted at `index`, `onAdd(index, e)` notified, and a copy following the event matches |
| RLists.RList.Add | src/main/java/react/RList.java:105-108 | appends, notifies `onAdd(size, e)`, returns true |
| RLists.RList.AddAll | src/main/java/react/RList.java:116-128 | elements are added one at a time with one event each, so no element is added without its event; a listener's exception stops the walk right after the add that caused it |
| RLists.RList.InsertEach | src/main/java/react/RList.java:124-126 | for an index in range, the elements go in at `index`, `index + 1`, ... in order, with one event each; it stops at the first listener exception, and that exception is the reaction to the last element added |
| RLists.RList.RemoveElem | src/main/java/react/RList.java:198-207 | an absent element gives false and no event; otherwise its first occurrence is removed and notified at its index |
| RLists.RList.RemoveAt | src/main/java/react/RList.java:209-214 | an out-of-range index throws and changes nothing; otherwise the element is removed, notified at its index and returned |
| RLists.RList.RemoveForce | src/main/java/react/RList.java:96-102 | removes the first occurrence if any and always notifies, at index -1 when absent; returns whether it was present |
| RLists.RList.Set | src/main/java/react/RList.java:216-221 | an out-of-range index throws and changes nothing; otherwise replaces, notifies `onSet(index, e, old)` and returns the old element |
| RLists.RList.Clear | src/main/java/react/RList.java:268-271 | removes index 0 until empty, each element notified at 0 front to back; a listener's exception stops it after the removal that caused it |
| RLists.RList.ConnectNotify | src/main/java/react/RList.java:79-83 | `onAdd(i, get(i))` for every index in order to the new listener alone, then connected; an exception leaves it unconnected and nothing changed |
| RQueues.ReplaySnoc | src/main/java/react/RQueue.java:196-202 | a listener's copy after one more event is that event applied to the copy so far |
| RQueues.Offers | src/main/java/react/RQueue.java:90-96 | `addAll(xs)` notifies `onOffer(xs[k])` for each `k` in order |
| RQueues.Polls | src/main/java/react/RQueue.java:112-115 | `clear` notifies `onPoll(xs[k])` for each `k` in order |
| RQueues.ReplayOffers | src/main/java/react/RQueue.java:76-96 | a copy following the offers of `xs` has `xs` appended in order |
| RQueues.ReplayPolls | src/main/java/react/RQueue.java:98-115 | a copy following the polls of the first `n` elements holds the rest: the head goes first |
| RQueues.FirstInFirstOut | src/main/java/react/RQueue.java:76-115 | after offering `xs` to a queue holding `q`, polling everything yields `q` then `xs` in order and leaves it empty |
| RQueues.RQueue.constructor | src/main/java/react/RQueue.java:47-49 | wraps the queue; nothing is notified and the size view is current |
| RQueues.RQueue.Offer | src/main/java/react/RQueue.java:76-81 | a full queue gives false and no event; otherwise appends, notifies `onOffer(e)`, returns true; the size view stays current |
| RQueues.RQueue.Add | src/main/java/react/RQueue.java:83-88 | a full queue throws IllegalStateException and changes nothing; otherwise as `offer` |
| RQueues.RQueue.AddAll | src/main/java/react/RQueue.java:90-96 | `add` of each element in turn, so every element added has its event; the first exception stops the walk |
| RQueues.RQueue.Poll | src/main/java/react/RQueue.java:98-103 | an empty queue gives null and no event; otherwise the head is removed and returned and notified unless it is null, in which case the size view is left one too high |
| RQueues.RQueue.Remove | src/main/java/react/RQueue.java:105-110 | an empty queue throws NoSuchElementException; otherwise the head is removed, notified even when null, and returned |
| RQueues.RQueue.Clear | src/main/java/react/RQueue.java:112-115 | `remove()` until empty, every element notified head first; an exception stops it after the removal that caused it |
| RQueues.RQueue.ConnectNotify | src/main/java/react/RQueue.java:63-66 | `onOffer` of every element head first to the new listener alone, then connected; an exception leaves it unconnected |
| RQueues.RQueue.ArbitraryRemoval | src/main/java/react/RQueue.java:141-151 | `remove(Object)`, `removeAll` and `retainAll` throw UnsupportedOperationException |
| Futures.Promise.constructor | src/main/java/react/RPromise.java:21-23 | a new promise is uncompleted and has no listeners |
| Futures.Promise.Complete | src/main/java/react/RPromise.java:26-34 | a completed promise throws IllegalStateException and changes nothing; otherwise the result is stored, the listeners notified, every connection cleared whatever they threw, and the first exception rethrown |
| Futures.Promise.Succeed | src/main/java/react/RPromise.java:37-39 | `complete` with a success of the value |
| Futures.Promise.Fail | src/main/java/react/RPromise.java:42-44 | `complete` with a failure of the cause |
| Futures.Promise.IsCompleteNow | src/main/java/react/RFuture.java:231-233 | true exactly when a result is held |
| Futures.CompleteEffect | src/main/java/react/RPromise.java:26-34 | after `complete` no connection is left and nothing is queued; with listeners that only listen, every open one received the result once, in chain order, and nothing was thrown |
| Futures.SuccessArrives | src/main/java/react/RFuture.java:190-194 | the listener `onSuccess` connects passes a value on exactly for a success, and it is that value |
| Futures.FailureArrives | src/main/java/react/RFuture.java:204-208 | the listener `onFailure` connects passes a cause on exactly for a failure, and it is that cause |
| Futures.OnSuccessNow | src/main/java/react/RFuture.java:188-197 | uncompleted: connects; completed: calls the slot now exactly when it succeeded, with its value |
| Futures.OnFailureNow | src/main/java/react/RFuture.java:202-211 | uncompleted: connects; completed: calls the slot now exactly when it failed, with its cause |
| Futures.OnCompleteNow | src/main/java/react/RFuture.java:216-221 | uncompleted: connects; completed: calls the slot now with the result |
| Futures.EarlyAndLateAgree | src/main/java/react/RFuture.java:188-221 | a slot hears the same thing whether it subscribed before or after completion |
| Futures.MapResult | src/main/java/react/RFuture.java:245-253 | pending stays pending; otherwise the result is the try mapped by the function |
| Futures.FlatMapResult | src/main/java/react/RFuture.java:258-268 | pending stays pending; a failure is passed on with its cause; a success gives what the function's future holds |
| Futures.FlatMapFailsIfEitherFails | src/main/java/react/RFuture.java:245-268 | `flatMap` fails exactly when either stage fails; `map(f)` is `flatMap` into an already successful future |
| Futures.Failures | src/main/java/react/RFuture.java:105-108 | the failures collected are empty exactly when every arrival succeeded |
| Futures.ValueAtArrival | src/main/java/react/RFuture.java:103-104 | with each input completing once, an index's slot holds the value its own arrival brought |
| Futures.SequenceKeepsIndices | src/main/java/react/RFuture.java:95-130 | when every input succeeds, slot `i` holds input `i`'s value whatever the completion order |
| Futures.Sequencer.constructor | src/main/java/react/RFuture.java:117-119 | one empty slot per input, the countdown at the input count, no error |
| Futures.Sequencer.OnResult | src/main/java/react/RFuture.java:102-116 | a success fills its slot, a failure joins the error; at zero it completes with the error if any, otherwise the slots |
| Futures.Sequence | src/main/java/react/RFuture.java:95-130 | no inputs gives an empty success at once; otherwise complete exactly when every input is, with the failures or the values by index |
| Futures.Successes | src/main/java/react/RFuture.java:175 | the successes kept are no more than the arrivals |
| Futures.SuccessesMembers | src/main/java/react/RFuture.java:174-177 | a value is collected exactly when some input succeeded with it |
| Futures.Collector.constructor | src/main/java/react/RFuture.java:178-179 | nothing kept, the countdown at the input count |
| Futures.Collector.OnEmit | src/main/java/react/RFuture.java:174-177 | keeps a success; at zero completes with what it kept |
| Futures.Collect | src/main/java/react/RFuture.java:167-183 | never fails; completes exactly when every input has, with the success values only, in arrival order |
| Futures.Next | src/main/java/react/AbstractSignal.java:59-63 | connects the promise's slot and makes that connection one-shot; the cell is open; it is linked at rest, and during the signal's own pass its linking is queued with the chain unchanged |
| Futures.NextAtMostOnce | src/main/java/react/AbstractSignal.java:59-63 | the connection `next` makes hears the next `notify` at most once, queued notifications included |
| Futures.Feed | src/main/java/react/RFuture.java:102-116 | one more completion keeps the sequencer in step with the arrivals: slots hold each index's value, the error lists the failures in order, and the promise completes after the last |
| Values.AllAnyMeaning | src/main/java/react/Values.java:150-174 | `and` holds exactly when every value is true, `or` when some value is; so no values give true and false |
| Values.AnyIsNotAllNot | src/main/java/react/Values.java:222-234 | some value is true exactly when not every negated value is |
| Values.ComputeAnd | src/main/java/react/Values.java:222-227 | the early-exit loop returns true exactly when every value is true |
| Values.ComputeOr | src/main/java/react/Values.java:229-234 | the early-exit loop returns true exactly when some value is true |
| Values.Aggregate | src/main/java/react/Values.java:150-174 | `and` aggregates to "every value true", `or` to "some value true" |
| Values.AggValue.constructor | src/main/java/react/Values.java:201-213 | the current aggregate is that of the sources at creation; no listeners |
| Values.AggValue.Get | src/main/java/react/Values.java:202-204 | `get` recomputes the aggregate from the sources |
| Values.AggValue.Trigger | src/main/java/react/Values.java:214-218 | recomputes and notifies `(new, previous)` to the listeners, whether or not the aggregate changed (queued when the value is itself mid-pass); a listener's exception propagates |
| Values.AggregateAlwaysNotifies | src/main/java/react/Values.java:214-218 | with quiet listeners, every open connection hears `(recomputed, previous)` in chain order even when the two are equal |
| Values.ToggledParity | src/main/java/react/Values.java:123-126 | a toggler is back at its initial value after an even number of emissions and flipped after an odd one |
| Values.Toggler.constructor | src/main/java/react/Values.java:118-128 | holds the initial value; no listeners |
| Values.Toggler.Get | src/main/java/react/Values.java:119-121 | `get` is the current value |
| Values.Toggler.OnEmit | src/main/java/react/Values.java:123-126 | flips the value and notifies `(flipped, old)`, one emission counted, also when re-entered during the value's own pass (the notification is then queued) |
| Values.AsValue.constructor | src/main/java/react/Values.java:181-193 | holds the initial value; no listeners |
| Values.AsValue.OnEmit | src/main/java/react/Values.java:185-191 | adopts the emitted value and notifies `(v, previous)` only when they differ by `areEqual`, at rest or queued mid-pass |
| Values.AsValueSilentOnRepeat | src/main/java/react/Values.java:185-191 | emitting the value already held leaves the listeners unnotified and returns the held value |
| Values.T2Equals | src/main/java/react/Values.java:34-38 | false for null or a non-T2; otherwise equal exactly when both components are |
| Values.T3Equals | src/main/java/react/Values.java:58-62 | false for null or a non-T3; otherwise equal exactly when all three components are |
| Values.TupleEqualsIsEquality | src/main/java/react/Values.java:34-62 | tuple `equals` is equality of the tuples: reflexive and symmetric |
| Values.Join2.constructor | src/main/java/react/Values.java:70-77 | the tuple of both sources' current values; no listeners |
| Values.Join2.Trigger | src/main/java/react/Values.java:78-82 | rebuilds the tuple from both sources and notifies `(new, old)` whatever was emitted, at rest or queued mid-pass |
| Values.Join3.constructor | src/main/java/react/Values.java:94-102 | the triple of the three sources' current values; no listeners |
| Values.Join3.Trigger | src/main/java/react/Values.java:103-107 | rebuilds the triple from all three sources and notifies `(new, old)`, at rest or queued mid-pass |
| LegacyValues.SortedFrame | src/main/java/react/AbstractConnection.java:28 | a chain in non-decreasing priority stays so while cells keep their priority |
| LegacyValues.Insert | src/main/java/react/AbstractConnection.java:30-40 | `insert` makes the chain one cell longer |
| LegacyValues.InsertMultiset | src/main/java/react/AbstractConnection.java:30-40 | `insert` adds exactly the one cell and loses none |
| LegacyValues.FirstAbove | src/main/java/react/AbstractConnection.java:33 | the index where `insert` stops lies within the chain or at its end |
| LegacyValues.FirstAboveBounds | src/main/java/react/AbstractConnection.java:33-38 | every cell before that index has priority at most the new one's, and the cell at it more |
| LegacyValues.SortedTail | src/main/java/react/AbstractConnection.java:37 | the rest of a non-decreasing chain is non-decreasing and no lower than its head |
| LegacyValues.SortedCons | src/main/java/react/AbstractConnection.java:33-35 | a cell no higher than every cell of a non-decreasing chain can lead it |
| LegacyValues.InsertPlacement | src/main/java/react/AbstractConnection.java:30-40 | the new cell goes right before the first cell of strictly higher priority, so after every cell of equal priority |
| LegacyValues.InsertSorted | src/main/java/react/AbstractConnection.java:30-40 | `insert` keeps a non-decreasing chain non-decreasing |
| LegacyValues.InsertedAll | src/main/java/react/AbstractConnection.java:42-50 | `insertAll` links exactly the chain's cells plus the queued ones |
| LegacyValues.InsertedAllSorted | src/main/java/react/AbstractConnection.java:42-50 | the chain `insertAll` builds is as ordered as the one it started from |
| LegacyValues.InsertAll | src/main/java/react/AbstractConnection.java:42-50 | the popping loop computes `InsertedAll`: the chain plus every queued cell |
| LegacyValues.IndexOf | src/main/java/react/AbstractConnection.java:53-57 | the walk stops at the first link to the cell |
| LegacyValues.Unlinked | src/main/java/react/AbstractConnection.java:52-60 | unlinking drops exactly one occurrence of the cell |
| LegacyValues.UnlinkedSorted | src/main/java/react/AbstractConnection.java:52-60 | unlinking keeps the rest in their order |
| LegacyValues.Remove | src/main/java/react/AbstractConnection.java:52-60 | a linked cell is unlinked; one that is not linked runs off the chain: NullPointerException |
| LegacyValues.RemoveAll | src/main/java/react/AbstractConnection.java:62-67 | keeps exactly the cells not in the set, and the whole chain when none is |
| LegacyValues.RemoveAllSorted | src/main/java/react/AbstractConnection.java:62-67 | what `removeAll` keeps stays in non-decreasing priority |
| LegacyValues.QueueRemove | src/main/java/react/AbstractConnection.java:69-75 | creates the set on first use and adds the cell to it |
| LegacyValues.ListenValid | src/main/java/com/threerings/react/AbstractValue.java:22-31 | `listen` makes a fresh cell, keeps the invariant, and during a pass leaves the chain alone |
| LegacyValues.InsertValid | src/main/java/com/threerings/react/AbstractValue.java:28 | inserting a known cell into a sorted chain of known cells leaves it sorted and holding only known cells |
| LegacyValues.DisconnectValid | src/main/java/com/threerings/react/AbstractValue.java:122-128 | `disconnect` keeps the invariant; during a pass it only queues, never throwing |
| LegacyValues.OnceValid | src/main/java/react/AbstractConnection.java:22-25 | `once` keeps the invariant and changes only the cell's flag |
| LegacyValues.RunValid | src/main/java/com/threerings/react/AbstractValue.java:89 | a listener's actions during a pass keep the invariant, the chain and the log |
| LegacyValues.PassValid | src/main/java/com/threerings/react/AbstractValue.java:87-92 | the dispatch loop keeps the invariant and the saved chain, and only extends the log |
| LegacyValues.SettleValid | src/main/java/com/threerings/react/AbstractValue.java:94-105 | the restore after a loop yields a value at rest with nothing queued |
| LegacyValues.UpdateValid | src/main/java/com/threerings/react/AbstractValue.java:77-109 | `updateAndNotify` keeps the invariant whether it returns or throws |
| LegacyValues.LegacyValue.constructor | src/main/java/com/threerings/react/AbstractValue.java:135-139 | holds the value; no listeners, nothing queued |
| LegacyValues.LegacyValue.Listen | src/main/java/com/threerings/react/AbstractValue.java:22-31 | a new cell, pushed on `_toAdd` during a pass and inserted by priority otherwise |
| LegacyValues.LegacyValue.Disconnect | src/main/java/com/threerings/react/AbstractValue.java:122-128 | queued for removal during a pass, unlinked otherwise |
| LegacyValues.LegacyValue.Once | src/main/java/react/AbstractConnection.java:22-25 | marks the cell one-shot |
| LegacyValues.LegacyValue.RunListener | src/main/java/com/threerings/react/AbstractValue.java:89 | one listener's actions, cut short by its first exception |
| LegacyValues.LegacyValue.Dispatch | src/main/java/com/threerings/react/AbstractValue.java:87-92 | calls each cell of the saved chain, disconnecting one-shot cells after their call; an exception stops the loop |
| LegacyValues.LegacyValue.Call | src/main/java/com/threerings/react/AbstractValue.java:89-90 | one turn of the loop: the listener's call is logged and its actions run; unless it threw, a one-shot cell is then disconnected; the chain is untouched |
| LegacyValues.LegacyValue.FinishPass | src/main/java/com/threerings/react/AbstractValue.java:94-105 | restores the chain, applies the queued removals, then the queued additions |
| LegacyValues.LegacyValue.UpdateAndNotify | src/main/java/com/threerings/react/AbstractValue.java:77-109 | stores the value, notifies the chain with `(v, old)` and returns the old value; the invariant holds afterwards |
| LegacyValues.LegacyValue.UpdateAndNotifyIf | src/main/java/com/threerings/react/AbstractValue.java:68-71 | an equal value changes nothing and returns the argument; any other is `updateAndNotify` |
| LegacyValues.QuietPass | src/main/java/com/threerings/react/AbstractValue.java:87-92 | with listeners that only listen, the loop calls every cell once in order and queues exactly the one-shot cells for removal |
| LegacyValues.QuietUpdate | src/main/java/com/threerings/react/AbstractValue.java:77-109 | with quiet listeners: returns the old value, calls every cell once with `(v, old)` in order, and unlinks exactly the one-shot cells, the rest staying ordered |
| LegacyValues.RunKeepsLog | src/main/java/com/threerings/react/AbstractValue.java:89 | a listener's own actions make no delivery |
| LegacyValues.PassLog | src/main/java/com/threerings/react/AbstractValue.java:87-92 | the loop only adds deliveries to cells of the saved chain, each with `(v, old)` |
| LegacyValues.UpdateNotifiesChainOnly | src/main/java/com/threerings/react/AbstractValue.java:83-92 | only cells linked when the update began are called; a cell connected during the pass is not |
| LegacyValues.SettleMembers | src/main/java/com/threerings/react/AbstractValue.java:94-105 | after a pass the chain holds its cells not queued for removal plus every queued addition, in order |
| LegacyValues.ThrowLeavesDispatching | src/main/java/com/threerings/react/AbstractValue.java:87-96 | a listener's exception escapes with the value still dispatching: later updates throw NullPointerException and later `listen`s only queue |
| LegacyValues.LegacyEquals | src/main/java/com/threerings/react/AbstractValue.java:52-57 | false for null and for another class; the same class holding the same value is equal |
| LegacyValues.LegacyEqualsMirrorsNewer | src/main/java/com/threerings/react/AbstractValue.java:52-57 | the older `equals` of `a` against `b` is the newer one of `b` against `a` |
| LegacyFindings.OneListener | src/main/java/com/threerings/react/AbstractValue.java:135-139 | a value with one connection satisfies the invariant |
| LegacyFindings.DisconnectInPassIgnored | src/main/java/com/threerings/react/AbstractValue.java:97-105 | as written: a connection made and disconnected in the same pass ends up linked |
| LegacyFindings.SettleFixed | src/main/java/com/threerings/react/AbstractValue.java:97-105 | corrected restore: a cell is linked exactly when it was linked or queued for addition, and not queued for removal |
| LegacyFindings.UpdateFixedHonoursDisconnect | src/main/java/com/threerings/react/AbstractValue.java:77-109 | corrected: no cell queued for removal stays linked, every other queued addition is linked, the chain stays ordered, and the value is at rest |
| LegacyFindings.UpdateFixedRecovers | src/main/java/com/threerings/react/AbstractValue.java:87-96 | corrected: a listener's exception is still rethrown, but the value is left at rest and valid |
| LegacyFindings.DisconnectInPassHonoured | src/main/java/com/threerings/react/AbstractValue.java:97-105 | corrected, same listener: the connection it made and disconnected is not linked |

## Left out

- Weak references: `holdWeakly` and the weak-listener cells are not modelled. A cell always holds its listener strongly.
- Concurrency: `synchronized` blocks and thread-safety are not modelled. Every operation is one sequential step.
- Objective-C headers and GWT super-source copies: they are declarations or duplicates of the Java logic.
- `hashCode` on values and tuples, `toString` and the debug trace are not modelled, except `ObjectsUtil.hashCode`'s null rule.
- Listener identity: listeners are slot numbers, and a listener's code is a script of actions. Arbitrary Java listener code is not modelled.
- Engine.Drain: every queued notification that is drained spends one unit of a `fuel` bound. Once it is spent, a queued notification is dropped and the state's `exhausted` flag is set. The source has no bound, and its nested notifications run until the queue is empty.
- Iteration order of a `HashSet` or `HashMap`: `Collections.Enumerate` returns the elements in some order. The contracts of `RSets.RSet.Clear`, `RSets.RSet.RetainAll`, `RMaps.RMap.Clear` and `RMaps.RMap.PutAll` hold for every order; which order Java picks is not modelled.
- RSets.RSet.RetainAll: the iterator visits the elements `coll` lacks in an order the caller cannot predict (`Collections.Enumerate`), removing and notifying each; the order the Java iterator takes is not modelled.
- Listeners of the reactive collections: what they do with an event is a fixed `reaction` (the exception the pass ends with). A collection listener that changes the collection during its own notification is not modelled.
- `RMap`'s `prepareNotify` and generic `Reactor<L>` belong to a newer engine that is not part of this model. The map's notifications are modelled against the abstract event log, like the other collections.
- `RList.listIterator`, `retainAll`, `removeAll` and `subList` are not modelled, nor `RQueue`'s iterator apart from the unsupported `remove` (`RQueues.RQueue.ArbitraryRemoval`).
- Checked exceptions and errors: every failure cause here is a `RuntimeException`, so `Try.get` on a failure rethrows its cause as it is. A cause that is an `Error` (also rethrown as it is) or a checked exception (wrapped in a new `RuntimeException`) is not modelled.
- Engine.Invoke: a listener that throws an `Error` rather than a `RuntimeException` is not modelled. In the source the `Error` ends the pass at once (`Engine.Pass` would not visit the remaining cells); the `finally` block still restores the chain and drains the queue, and then the `Error` propagates out of `notify`. Every listener failure here is a `RuntimeException`, which the pass catches and records.
- `RFuture.map`/`flatMap` are modelled on results (`Futures.MapResult`, `Futures.FlatMapResult`): the future that forwards a completion later, through a connection, is not modelled separately.
- Values.T2Equals: components are compared with Dafny's equality, which stands for `Objects.equals` only where a component's own `equals` is an equivalence.
- Values.T3Equals: as for `T2Equals`, the three components are compared with Dafny's equality, which stands for `Objects.equals` only where a component's own `equals` is an equivalence.
- Connections.ConnectionGroup.Disconnect: the members are cells of one reactor `rx` (at rest or mid-pass). A group holding connections to several reactors, each closed on its own reactor, is not modelled.
- Connections.JoinedConnection.Disconnect: the components are cells of one reactor `rx` (at rest or mid-pass). A `join` over connections to several reactors is not modelled.
- Mapped.MappedSignal.Connect: the derived signal itself is at rest in `Connect`, `CloseListener` and `RemoveListener` of both `MappedSignal` and `MappedValue`, as it is whenever the hooks run. A call made during the derived signal's own pass only queues the change and the hook with it (as `Engine.AddConnection`, `Engine.Close` and `Engine.RemoveConnection` show), and the hook's later run from the drain is not modelled here. The source may be mid-pass in all of them.
- Functions.Not: its argument is a non-null `bool`. In the source, `NOT.apply(null)` unboxes a null `Boolean` and throws NullPointerException; that failure is not modelled.
- Values.ComputeAnd: the values are non-null `bool`s. In the source, a source value whose `get()` is a null `Boolean` makes `!value.get()` throw NullPointerException; that failure is not modelled.
- Values.ComputeOr: the values are non-null `bool`s. In the source, a null `Boolean` from `get()` makes the test `value.get()` throw NullPointerException; that failure is not modelled.
- `Values` combinators (`join`, `aggValue`, `toggler`, `asValue`): their values are modelled, and `Trigger`/`OnEmit` recompute on each source emission; the wiring of their source connections is not modelled.
- `Cons.close` and `Connection.disconnect`: the chain cell in this source tree overrides `close`, while `Connection` declares `disconnect`; the two are modelled as one operation.
- The wording of `IndexOutOfBoundsException` messages is not modelled: the exception kind and index are.
- Older variant, null listeners: `listen(null)` is not modelled, because a listener here is a slot number and a null one cannot be expressed.
- Older variant, the chain: the linked `AbstractConnection` cells are a sequence of cell ids, and `insert`, `remove` and `removeAll` are functions on that sequence. The updates of the `next` fields are not modelled for this variant.

## Findings

| source | as written | input that shows it | evidently intended | confidence | as-written member | corrected member |
|---|---|---|---|---|---|---|
| src/main/java/react/Cons.java:42-50 | during a pass, `atPrio` clears the cell's `next` at once, so the running pass stops at that cell; the queued `remove` then finds the cell at the head and keeps only its (now null) link | chain cell 0 (priority 5) then cell 1 (priority 3); cell 0's listener calls `atPrio(0)` during `notify(7)`: cell 1 gets nothing and is left off the chain while still open | the relink is deferred with the chain links intact: every cell of the pass is visited and afterwards the chain is cell 1 then cell 0 | not executed | Findings.AtPrioDuringPassDropsCell | Findings.AtPrioDuringPassKeepsCell |
| src/main/java/com/threerings/react/AbstractValue.java:97-105 | after a pass the queued removals are applied before the queued additions, so a connection made and disconnected in the same pass stays linked | a value with one listener (slot 0) that connects slot 1 and disconnects it again, updated to 5: slot 1 ends up linked | additions applied first and removals second: a connection disconnected during the pass is not linked afterwards | not executed | LegacyFindings.DisconnectInPassIgnored | LegacyFindings.UpdateFixedHonoursDisconnect |
| src/main/java/com/threerings/react/AbstractValue.java:87-96 | nothing restores the chain when a listener throws, so the value stays dispatching: every later update throws NullPointerException and every later `listen` only queues | any value whose listener throws during `updateAndNotify` | the chain is restored and the queued work applied before the exception propagates | not executed | LegacyValues.ThrowLeavesDispatching | LegacyFindings.UpdateFixedRecovers |
