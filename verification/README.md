# Verified models of a trading repository

Dafny models of the parts of the repository that hold state, protocols or algebra, with proofs about every
input, every run or every reachable state. `dafny verify dfyconfig.toml` checks the whole project.

## What is modelled

**The two-phase trailing-stop strategy and the venue that answers it** (`Desk`, `EmaCrossRr`, `DeskRefinement`,
`DeskRuns`, `DeskLaws`, `TrailingStop`, `TrailFreeze`, `StopRatchet`). `EmaCrossRr.Trader` is the strategy with its
nine fields, next to an exchange with a net position, resting stops, an order log and a command queue. Both of the
exchange's dispatch modes are modelled: commands wait in a first-in first-out queue that is drained after each bar, or
they are processed at once, so that the answer re-enters the strategy in the middle of the handler that sent the
command. Entries may be rejected, stops may be rejected as in the market, and stops may trade at any bar; the answers
are an arbitrary function, and so are the signal and the prices of each bar. `DeskRefinement.BookBar` says in one step
what a bar amounts to, and `BarRefines` proves that both dispatch modes do exactly that; protection, signal,
alternation, closed form and ratchet of the trailing stop are proved for whole runs from it. A price is a whole number
of ticks; what the strategy computes from prices is real.

**The actor executor** (`Executor`, `ActorExecutor`, `ExecutorShape`, `ExecutorHistory`, `ExecutorFailures`,
`ExecutorProgress`, `ExecutorCancel`). The event loop's ready queue, futures with their callbacks in order, worker
coroutines cut at each `await`, thread completions and calls are atomic steps, and every sequence of steps is an
interleaving. A call from another thread is two steps, since the put is scheduled before the task is added to the
queued set.

**The docstring generator** (`DocLines`, `DocRewrite`, `GenerateDocstrings`, `DocIdempotence`, `DocSelection`). Lines
come classified as doc, attribute or code; the scanner with its flags, the section filter and the edits in place on
positions of the unedited file are the source's loops.

**The stub generator** (`StubText`, `StubDefaults`, `StubResolve`, `StubOptional`, `StubAnnotations`, `StubLine`,
`StubUnclosed`, `GenerateStubs`, `StubClasses`, `StubRecut`). The signature passes work on characters; the class pass
on classified lines.

**Balances, returns and bars** (`Balances`, `AccountReturns`, `AccountReports`, `CombinedBalances`, `CombinedReports`,
`ReturnsAgreement`, `Drawdown`, `BarAggregation`). Series are sequences of timed values over exact reals; a missing
value and the result of a division by zero are `None`.

`Wrappers`, `Seqs`, `Prices` and `Reals` hold what the others share.

## Where the code falls short of what it promises

- The executor's documentation calls `queue_for_executor` safe to call from other threads. The item can be taken
  and discarded before the task is registered, and the task is then queued for good and never starts
  (`ExecutorProgress.ForeignCallCanLoseTask`). `EveryQueuedTaskStarts` says exactly which tasks start, and
  `LoopThreadIsNeverLate` that calls on the loop's own thread lose none.
- An exception raised by a queued function ends the worker, and nothing queued behind it starts until everything is
  cancelled (`ExecutorProgress.ExceptionStopsWorker`, `StalledUntilCancelled`). `NoWorkerIff` says exactly when that
  is the case, and `EveryQueuedTaskStarts` which tasks are affected.
- The strategy's guard on a positive peak stops a short from trailing once its best price is not positive
  (`TrailFreeze.ShortFreezesBelowZero`); `FollowsIff` and `RunFollowsIff` say exactly when that makes a difference.
- The docstring generator deletes an attribute that stands between two doc lines, and is then not idempotent if
  that attribute was the only `#[new]` (`DocRewrite.AttributesSurviveIff`,
  `DocIdempotence.InterleavedConstructorChanges`); `RewriteIdempotentIff` has the exact condition.
- Completing Optional parameters is not idempotent for a parameter whose brackets do not close or whose colon
  comes after an equals sign (`StubLine.FixIdempotentIff`), and can then leave a required parameter after a defaulted
  one (`FixKeepsLegalIff`, `StubUnclosed.UnclosedLine`).
- A class pass with renames `a` to `b` and `b` to `c` loses the method `c` (`StubClasses.RenamedChainLosesMethod`);
  `LostIff` has the exact condition.

## Model

| member | source | states |
|---|---|---|
| `Prices.Round` | crates/model/src/types/fixed.rs:675-681 | A price is the nearest whole number of ticks: within half a tick of the float, and away from zero at exactly half. |
| `Desk.Drain` | nautilus_trader/backtest/engine.pyx:3575-3591 | Draining ends, with an empty queue, although answers may send more commands: each is paid for by an order identifier that the answer clears. |
| `DeskRefinement.StopProcessed` | strategies/ema_cross_rr.py:150-164 | From any state that waits for a stop, settling ends in a position guarded by exactly that stop or, if it is rejected, in no position, no stop and cleared fields. |
| `DeskRefinement.EntryProcessed` | strategies/ema_cross_rr.py:169-174 | A submitted entry settles into a guarded position, into no position because its stop was rejected, or into no position because it was itself rejected. |
| `DeskRefinement.HitsRefine` | strategies/ema_cross_rr.py:176-188 | Any sequence of stops traded by the market leaves the desk as it was or flat and cleared. |
| `DeskRefinement.TrailRefines` | strategies/ema_cross_rr.py:208-243 | Moving the trail settles into a position with the new stop or, if that is in the market, into none. |
| `DeskRefinement.SignalRefines` | strategies/ema_cross_rr.py:245-272 | From any settled state a flipped signal closes what is open and enters once on the new side; an unchanged one does nothing. |
| `DeskRefinement.ReverseSends` | strategies/ema_cross_rr.py:365-382 | With commands queued, reversing a guarded position sends, in order, the cancel of its stop, a cancel-all, the close and the entry on the new side, and clears the trade but for the new entry's identifier and side. |
| `DeskRefinement.TrailThenReverse` | strategies/ema_cross_rr.py:334-382 | A bar that moves the stop and then reverses, with all commands queued: the new stop, accepted or rejected, never guards or closes the new position. |
| `DeskRefinement.BarRefines` | strategies/ema_cross_rr.py:194-272 | One bar of strategy and venue, with any answers and in either dispatch mode, is one step of the transaction `BookBar`. |
| `DeskRuns.AlwaysProtected` | strategies/ema_cross_rr.py:298-382 | In every run, between bars: every command is settled, and the position is plus or minus one trade size exactly when one stop of that size rests on the other side under `_sl_order_id`; otherwise flat, no stop, no identifier. |
| `DeskRuns.PositionFollowsSignal` | strategies/ema_cross_rr.py:246-272 | In every run, between bars, a long has a bullish and a short a bearish remembered signal, and the position never exceeds one trade size. |
| `DeskRuns.QueuedAndImmediateAgree` | nautilus_trader/backtest/engine.pyx:3307-3312 | In every run the message queue and re-entrant answers give the same orders, position, resting stop and, in a position, the same nine strategy fields. |
| `DeskRuns.EntriesAreFlips` | strategies/ema_cross_rr.py:250-272 | In every run the entries submitted are exactly the flips of the signal over the bars acted on, one each and on the side flipped to, whatever the venue did in between. |
| `DeskRuns.EntriesAlternate` | strategies/ema_cross_rr.py:263-272 | Consecutive entries of a run are on opposite sides. |
| `DeskRuns.StopLeavesNothing` | strategies/ema_cross_rr.py:123-126 | Stopping between bars leaves no resting order, and no position if closing is configured; the strategy keeps its stale stop identifier. |
| `DeskLaws.QuietBar` | strategies/ema_cross_rr.py:194-204 | In every run, a bar before warm-up or with its four prices equal leaves the desk as the stops triggered by it left it. |
| `DeskLaws.LoudBar` | strategies/ema_cross_rr.py:206-272 | In every run, any other bar makes the strategy remember its signal. |
| `DeskLaws.HitsCloseExactly` | strategies/ema_cross_rr.py:176-188 | In every run, a bar that triggers the recorded stop leaves no position, no resting stop and a cleared trade; one that does not changes nothing. |
| `DeskLaws.AnswersHonoured` | strategies/ema_cross_rr.py:150-174 | In every run, between bars: an accepted entry is followed by its stop and a rejected one is not; a rejected stop is followed by an order that closes the position; and an open position has an accepted entry with none since it and an accepted stop. |
| `DeskLaws.FlatIsCleared` | strategies/ema_cross_rr.py:133-188 | In every run, between bars, a flat strategy has peak, trail and distance at zero and the trail inactive, and remembers a side only for an entry that was not filled. |
| `DeskLaws.FirstStopDistance` | strategies/ema_cross_rr.py:298-326 | In every run, the order after an accepted entry is a stop on the other side, of the trade size, at the fill price less (long) or plus (short) the configured fraction of it, rounded to ticks. |
| `TrailingStop.TrailCatchesUp` | strategies/ema_cross_rr.py:208-243 | For a positive stop-loss fraction, any entry price, any bars and any pattern of the stop being open or not: active exactly when 1:1 has been reached, peak the best price since entry, trail the best price at the last update less the distance; a skipped update is caught up with. With an entry price that is not positive there is no positive distance, and the trail never moves. |
| `TrailingStop.TrailIsClosedForm` | strategies/ema_cross_rr.py:303-358 | In every run with a positive stop-loss fraction, between bars, the trailing fields and the trigger resting at the venue are that closed form over the bars since the last flip. |
| `TrailingStop.ShutAdvance` | strategies/ema_cross_rr.py:334-337 | With the stop not open the strategy moves its peak, sends nothing and keeps its trail price. |
| `TrailFreeze.FollowsIff` | strategies/ema_cross_rr.py:208-243 | For a positive stop-loss fraction, any bars and any pattern of the stop being open or not, the closed form is over all bars since the entry if and only if no bar after the best price became non-positive with 1:1 reached improves on it or would have caught up with a skipped update. |
| `TrailFreeze.RunFollowsIff` | strategies/ema_cross_rr.py:208-243 | In every run with a positive stop-loss fraction, between bars, the trailing fields and the resting trigger follow all bars since the last flip if and only if that condition holds of them. |
| `TrailFreeze.PositiveFollows` | strategies/ema_cross_rr.py:209-211 | It holds for every long, and for every short whose prices after the entry stay positive. |
| `TrailFreeze.ShortFreezesBelowZero` | strategies/ema_cross_rr.py:209-211 | It can fail: a run of strategy and venue in which a short has seen -1 and keeps its stop at 0 when the market falls to -5. |
| `StopRatchet.StopsRatchet` | strategies/ema_cross_rr.py:215-243 | In every run, of two stops submitted for the same trade the later one is on the same side and gives back nothing, after rounding to ticks. |
| `StopRatchet.TrailedStopsLockEntry` | strategies/ema_cross_rr.py:303-358 | In every run, for all prices and distances, the first stop of a trade is at the configured distance from the fill, and every later one at the fill price or better. |
| `EmaCrossRr.Trader.constructor` | strategies/ema_cross_rr.py:74-95 | Starts with every field cleared and nothing at the venue, and stands for the empty book. |
| `EmaCrossRr.Trader.OnReset` | strategies/ema_cross_rr.py:133-144 | Clears each of the nine fields and leaves the venue alone. |
| `EmaCrossRr.Trader.OnStop` | strategies/ema_cross_rr.py:123-126 | Cancels all orders and, if configured, closes all positions. |
| `EmaCrossRr.Trader.OnEvent` | strategies/ema_cross_rr.py:150-188 | A rejection of the current stop cancels, closes and clears; a fill of the current entry places its stop; a fill of the current stop clears; anything else changes nothing. Answers that re-enter included. |
| `EmaCrossRr.Trader.OnBar` | strategies/ema_cross_rr.py:194-272 | Nothing changes before warm-up or on a bar with four equal prices, stated on the bar's own fields; otherwise the trail, then the signal. Once every command is settled, whatever book the desk stood for has made one step. |
| `EmaCrossRr.Trader.Trail` | strategies/ema_cross_rr.py:208-243 | Activates at 1:1 and moves the stop only to a better price, mirrored for shorts. |
| `EmaCrossRr.Trader.Signal` | strategies/ema_cross_rr.py:245-272 | Remembers the signal and, if it flipped, enters when flat, reverses when on the other side and does nothing on the same side. |
| `EmaCrossRr.Trader.Enter` | strategies/ema_cross_rr.py:278-289 | Records the identifier and side, then submits a market order of the trade size. |
| `EmaCrossRr.Trader.PlaceSl` | strategies/ema_cross_rr.py:298-326 | Sets distance, peak, rounded trail and identifier before it submits the stop on the other side. |
| `EmaCrossRr.Trader.UpdateTrailingSl` | strategies/ema_cross_rr.py:334-359 | With the stop open, cancels it and submits a new one at the rounded price under a fresh identifier recorded first; otherwise nothing. |
| `EmaCrossRr.Trader.ExitAndReverse` | strategies/ema_cross_rr.py:365-382 | Cancels the stop if open, cancels all, closes, clears and enters on the new side, in this order. |
| `EmaCrossRr.Trader.CancelAllOrders` | nautilus_trader/trading/strategy.pyx:1215-1349 | Sends a cancel-all exactly when an order is open or in flight. |
| `EmaCrossRr.Trader.CloseAllPositions` | nautilus_trader/trading/strategy.pyx:1418-1475 | Submits a reduce-only order for the open position, if there is one. |
| `EmaCrossRr.Trader.Send` | nautilus_trader/backtest/engine.pyx:3295-3312 | Queues or processes a command. |
| `EmaCrossRr.Trader.Process` | nautilus_trader/backtest/engine.pyx:4932-5172 | Cancels, fills, accepts or rejects as the venue does, with the strategy answering inside. |
| `EmaCrossRr.Trader.DrainCommands` | nautilus_trader/backtest/engine.pyx:3575-3591 | Processes until the queue is empty, and ends. |
| `EmaCrossRr.Trader.ProcessHits` | nautilus_trader/backtest/engine.pyx:3472-3499 | Trades the triggered stops, each answered to the strategy: whatever book the desk stood for, it then stands for that book with its position closed exactly if its stop was among them. |
| `EmaCrossRr.Trader.StepBar` | nautilus_trader/backtest/engine.pyx:1602-1662 | One bar of the engine's loop leaves nothing pending and is one step of the book. |
| `EmaCrossRr.Trader.Backtest` | nautilus_trader/backtest/engine.pyx:1602-1662 | Runs a whole sequence of bars, stands for the book of that run, and ends idle or protected. |
| `ExecutorShape.IndexInvariant` | nautilus_trader/common/executor.py:169-235 | In every state that any interleaving reaches: the two task maps are inverse, no task is both queued and active, every worker but the newest has been cancelled, and at most one active task came from the queue. |
| `ExecutorShape.StepShape` | nautilus_trader/common/executor.py:162-382 | Every atomic step keeps that shape; in particular the done callback of a future runs before the worker that awaits it resumes. |
| `ExecutorShape.CancelAllShape` | nautilus_trader/common/executor.py:370-382 | Cancelling everything leaves nothing queued or active, whatever the iteration order, and a fresh worker due to start. |
| `ExecutorShape.ResetShape` | nautilus_trader/common/executor.py:106-118 | Resetting is cancelling everything: the maps it clears are empty already. |
| `ExecutorHistory.StartsInOrder` | nautilus_trader/common/executor.py:173-190 | In every interleaving tasks start at most once and in the order in which they were queued. |
| `ExecutorHistory.CancelledNeverStarts` | nautilus_trader/common/executor.py:355-382 | A task cancelled or drained while queued never starts, in any continuation, even if its delayed put lands after the drain. |
| `ExecutorCancel.CancelActiveTask` | nautilus_trader/common/executor.py:355-368 | After any interleaving, cancelling an active task takes it out of both maps; a pending future is cancelled, with its done callback and then its waiter due; one already set keeps its outcome; nothing else changes. |
| `ExecutorCancel.CancelAllFutures` | nautilus_trader/common/executor.py:370-382 | After any interleaving, cancelling everything cancels the pending future of every active task and leaves set ones as they are, whatever the iteration order. |
| `ExecutorCancel.CancelStartsNext` | nautilus_trader/common/executor.py:173-204 | Once the task that the worker awaits is cancelled, the loop's callbacks alone, with no thread ending, start the first of the tasks that were queued and not late. |
| `ExecutorCancel.LoopIdles` | nautilus_trader/common/executor.py:173-204 | The loop comes to a point where no callback is left to run. |
| `ExecutorCancel.NothingActiveAtRest` | nautilus_trader/common/executor.py:206-213 | At rest after any interleaving both maps are empty, whatever returned, raised or was cancelled. |
| `ExecutorCancel.CancelledStopped` | nautilus_trader/common/executor.py:136-143 | In every reachable state with no callback left to run, every worker that was told to stop has stopped, even if no thread has ended. |
| `ExecutorProgress.AlwaysLive` | nautilus_trader/common/executor.py:173-264 | In every reachable state a running worker is due, every pending future will be set, and every queued task has its item unless it was registered late. |
| `ExecutorProgress.InternalDecreases` | nautilus_trader/common/executor.py:173-202 | Every step the executor takes by itself, a callback or a thread that returns or raises, leaves strictly less to do. |
| `ExecutorProgress.EveryQueuedTaskStarts` | nautilus_trader/common/executor.py:173-264 | After any history every run without further calls is finite, whatever returns or raises. At its end, if a worker is left, every queued task has started except exactly those registered late, which are still queued; if a function the worker awaited raised, its task was started last and exactly the tasks up to it have started; after a shutdown none has. No worker is left if and only if one of the last two is the case. |
| `ExecutorProgress.NoWorkerIff` | nautilus_trader/common/executor.py:188-203 | At rest after any interleaving, the worker is gone if and only if the executor was shut down since everything was last cancelled, or a function that the worker awaited raised before its task was cancelled. Functions run directly may raise. |
| `ExecutorFailures.AlwaysBlamed` | nautilus_trader/common/executor.py:188-235 | In every reachable state a future holds an exception only if its thread raised, only the future that the current worker awaits can hold one it has not been resumed with, and a worker that ended without being cancelled awaited such a future. |
| `ExecutorFailures.CancelledIff` | nautilus_trader/common/executor.py:136-143 | The current worker is cancelled exactly after a shutdown that no cancelling of everything followed. |
| `ExecutorProgress.ComesToRest` | nautilus_trader/common/executor.py:173-202 | From every such state, and for every choice of functions that raise, the executor can come to rest by its own steps. |
| `ExecutorProgress.LoopThreadIsNeverLate` | nautilus_trader/common/executor.py:260-264 | If every call is made on the loop's thread, no task is ever late. |
| `ExecutorProgress.LateStep` | nautilus_trader/common/executor.py:260-264 | A task becomes late exactly when another thread adds it to the queued set after its item has left the queue. |
| `ExecutorProgress.LateNeverStarts` | nautilus_trader/common/executor.py:183-184 | A late task never starts, in any continuation. |
| `ExecutorProgress.ForeignCallCanLoseTask` | nautilus_trader/common/executor.py:260-264 | A call from another thread can lose its task: a run that ends at rest with the task queued for good. |
| `ExecutorProgress.ExceptionStopsWorker` | nautilus_trader/common/executor.py:188-203 | An exception does end the only worker: a run in which the first of two queued tasks raises, and which ends at rest without a worker and with the second task queued. |
| `ExecutorProgress.StalledUntilCancelled` | nautilus_trader/common/executor.py:173-204 | Without a worker nothing starts, however much is queued, until everything is cancelled. |
| `ActorExecutor.ActorExecutor.constructor` | nautilus_trader/common/executor.py:89-104 | Starts with empty collections and one worker due to start, and with the invariant of all interleavings. |
| `ActorExecutor.ActorExecutor.DrainQueue` | nautilus_trader/common/executor.py:162-167 | Empties the queue and the queued set, and nothing else. |
| `ActorExecutor.ActorExecutor.ResumeWorker` | nautilus_trader/common/executor.py:173-204 | One stretch of the worker from an await to the next: it stops if cancelled or if its function raised, and otherwise takes the next item. |
| `ActorExecutor.ActorExecutor.TakeNext` | nautilus_trader/common/executor.py:175-193 | The worker's loop skips items no longer queued, and starts the first that is or waits for one. |
| `ActorExecutor.ActorExecutor.RemoveDoneTask` | nautilus_trader/common/executor.py:206-213 | Removes a future from both maps, if it is there. |
| `ActorExecutor.ActorExecutor.SubmitToExecutor` | nautilus_trader/common/executor.py:226-235 | Creates a pending future and records it under the task in both maps. |
| `ActorExecutor.ActorExecutor.QueueForExecutor` | nautilus_trader/common/executor.py:260-264 | Returns a fresh identifier, schedules its put and adds it to the queued set; keeps the invariant. |
| `ActorExecutor.ActorExecutor.RunInExecutor` | nautilus_trader/common/executor.py:289-297 | Returns a fresh identifier that is active at once; keeps the invariant. |
| `ActorExecutor.ActorExecutor.CancelTask` | nautilus_trader/common/executor.py:355-368 | Removes a queued task, or removes an active one and, if its future is pending, cancels that future and schedules its done callback and its waiter, or does nothing; keeps the invariant. |
| `ActorExecutor.ActorExecutor.CancelAllTasks` | nautilus_trader/common/executor.py:370-382 | Drains, cancels the worker and every active task in turn, and starts a new worker; keeps the invariant and leaves both maps, the queued set and the queue empty. |
| `ActorExecutor.ActorExecutor.RunOnce` | nautilus_trader/common/executor.py:173-264 | The loop runs its next callback: a delayed put, a settled future, a done callback or a resumed worker. It keeps the invariant, leaves strictly less to do, and takes a task from the queued ones only by starting it. |
| `ActorExecutor.ActorExecutor.Reset` | nautilus_trader/common/executor.py:106-118 | Cancels everything and clears the collections; keeps the invariant and leaves nothing behind. |
| `DocLines.FlattenChunks` | python/generate_docstrings.py:289-349 | Cutting a file into headers and code lines, multi-line attributes included, loses nothing. |
| `DocLines.ChunksFlatten` | python/generate_docstrings.py:289-349 | Headers and code lines are found again in the text they make up. |
| `DocRewrite.RedocHeader` | python/generate_docstrings.py:427-433 | A rewritten header is a header whose doc lines are exactly the new ones, and rewriting it again changes nothing. |
| `DocIdempotence.RewriteIdempotentIff` | python/generate_docstrings.py:387-435 | For every file, a second run performs no update, and leaves it as it is, if and only if for each function the attributes outside its doc range, with those of the headers above, select no doc or the one the first run leaves there. |
| `DocIdempotence.RewriteIdempotent` | python/generate_docstrings.py:387-435 | A second run finds the same functions with the same keys, performs no update and leaves the file as it is, if no header that the first run rewrites has a `#[new]` or `#[pymethods]` only between its doc lines. |
| `DocIdempotence.ContiguousIdempotent` | python/generate_docstrings.py:387-435 | In particular if the doc lines of every rewritten header are contiguous. |
| `DocRewrite.AttributesSurviveIff` | python/generate_docstrings.py:427-433 | The attributes of a rewritten item survive, in order, if and only if its doc lines were contiguous. |
| `DocSelection.MethodGets` | python/generate_docstrings.py:387-408 | In every file, a method of an `impl` of type `T` that is no constructor has its doc lines replaced by the transformed doc of that method of `T`, and by nothing else; without one it is left alone. |
| `DocSelection.ConstructorGets` | python/generate_docstrings.py:393-404 | A constructor of `T` gets the doc of the type `T`, or, if that is missing or empty, the doc of its `new`. |
| `DocSelection.FunctionGets` | python/generate_docstrings.py:387-408 | A function outside any `impl` gets the doc of the free function of its name; after `#[pymethods]` without an `impl` it is left alone. |
| `DocSelection.OthersKept` | python/generate_docstrings.py:387-435 | Whatever is no such function, and the lines after the last code line, are left alone. |
| `DocSelection.NewDocFirst` | python/generate_docstrings.py:427-433 | A function without a doc gets it above its attributes. |
| `DocSelection.ImplInForce` | python/generate_docstrings.py:318-349 | From an `impl` line after `#[pymethods]` on, its type is in force exactly as long as more braces are open than closed. |
| `DocSelection.NoImpl` | python/generate_docstrings.py:318-329 | Before the first `#[pymethods]` no `impl` type is in force. |
| `DocSelection.KeptLine` | python/generate_docstrings.py:202-252 | Line by line, the transform keeps exactly the lines in no dropped section, with their links rewritten. |
| `DocSelection.TransformTrims` | python/generate_docstrings.py:202-252 | Of the lines kept it leaves out blank ones at either end, all of them and nothing else. |
| `DocIdempotence.InterleavedConstructorChanges` | python/generate_docstrings.py:393-433 | It can fail: a file with `#[new]` between two doc lines of a constructor, which the first run deletes, so that the second run writes a different doc. |
| `GenerateDocstrings.TransformDoc` | python/generate_docstrings.py:202-252 | The result is the lines in no dropped section, in order, without blank lines at either end. |
| `GenerateDocstrings.ParseItems` | python/generate_docstrings.py:289-351 | The items found by the line scanner are those of the chunks, each with the range of its doc lines and, without docs, the start of its header as the place to insert. |
| `GenerateDocstrings.WeaveFile` | python/generate_docstrings.py:387-435 | Doc ranges are disjoint and in order, each above its own function line; replacing all of them at once is rewriting every chunk. |
| `GenerateDocstrings.EditExtends` | python/generate_docstrings.py:387-433 | An edit in place from the bottom finds its function line and its doc range as they were in the unedited file. |
| `GenerateDocstrings.ProcessFile` | python/generate_docstrings.py:377-445 | Editing in place from the last item to the first gives the simultaneous replacement, whose docs `DocSelection` states, and counts the docs that were out of date. |
| `StubText.SplitIsLossless` | python/generate_stubs.py:448-471 | Putting the parts and their commas together again gives the text. |
| `StubText.SplitCutsOutside` | python/generate_stubs.py:448-471 | No part has a comma outside brackets, and every part but the last closes the brackets it opens. |
| `StubText.SplitFindsParts` | python/generate_stubs.py:448-471 | Splitting a text put together from such parts gives those parts: the cut is unique. |
| `StubDefaults.SplitSignatureParams` | python/generate_stubs.py:448-471 | The character loop computes that split. |
| `StubDefaults.SplitSignatureRoundTrip` | python/generate_stubs.py:448-471 | Joining the parts with commas restores the text up to one trailing comma. |
| `StubDefaults.ResolveSignatureParams` | python/generate_stubs.py:404-428 | The parameters in order, without empty ones and the star, each with its translated default. |
| `StubResolve.ResolveRoundTrip` | python/generate_stubs.py:404-428 | Any parameters, with or without a default, written with any blanks and joined by commas, resolve to their names and translated defaults, if each keeps its brackets and commas to itself. |
| `StubResolve.ResolveSkips` | python/generate_stubs.py:404-428 | Empty parts and the star are left out. |
| `StubDefaults.FilterSafeDefaults` | python/generate_stubs.py:431-445 | The emitted defaults are exactly those of the longest suffix of parameters with translatable defaults, so no required parameter follows a defaulted one. |
| `StubOptional.CompletedHasDefault` | python/generate_stubs.py:1801-1814 | A completed parameter is recognised as having a default if and only if its own brackets close and its colon comes before any equals sign. |
| `StubOptional.AddDefaultsTwiceIff` | python/generate_stubs.py:1849-1859 | Completing a parameter list is idempotent if and only if every completed parameter is of that form. |
| `StubAnnotations.AnnotatedIff` | python/generate_stubs.py:1778-1798 | A parameter counts as Optional if and only if it is a name, a colon, an annotation, and perhaps an equals sign and what follows, whose annotation contains `Optional[` or has, outside brackets, a bar with `None` in the six characters after it. |
| `StubAnnotations.HasDefaultIff` | python/generate_stubs.py:1801-1814 | A parameter counts as having a default if and only if an equals sign stands outside brackets and a colon before every equals sign. |
| `StubAnnotations.CompletedExactly` | python/generate_stubs.py:1849-1859 | A parameter without a default at the end of any list is completed if and only if its annotation is of that kind; otherwise nothing before it is completed either. |
| `StubAnnotations.CompletedAnnotations` | python/generate_stubs.py:1833-1863 | In every rewritten line each parameter is as it was, or had such an annotation and no default and gained one; and the last one left without a default has no such annotation. |
| `StubLine.SplitJoined` | python/generate_stubs.py:1756-1775 | Joining a stripped parameter list and splitting the text again gives the list. |
| `StubLine.ReplaceInner` | python/generate_stubs.py:1817-1830 | In a line whose parentheses are refilled with nested text, the first parenthesis and its match are found again around that text. |
| `StubLine.FixKeepsParameters` | python/generate_stubs.py:1833-1863 | The parameters of the rewritten line are those of the line, the trailing Optional ones completed; the line is unchanged exactly when none is. |
| `StubLine.FixKeepsRest` | python/generate_stubs.py:1833-1863 | A line that is changed is changed only between its first parenthesis and the matching one. |
| `StubLine.FixIdempotentIff` | python/generate_stubs.py:1833-1863 | Rewriting a line twice is rewriting it once if and only if every parameter it completes closes its own brackets and has its colon before any equals sign. |
| `StubLine.FixKeepsLegalIff` | python/generate_stubs.py:1833-1863 | A line with no required parameter after a defaulted one stays so if and only if, among the parameters it completes, none that closes its brackets and has its colon first comes before one that does not. |
| `StubUnclosed.UnclosedLine` | python/generate_stubs.py:1833-1863 | Both can fail: a line with a legal signature, whose last parameter leaves a bracket open, that is completed differently the second time and is no longer legal after the first. |
| `GenerateStubs.SplitParams` | python/generate_stubs.py:1756-1775 | The index loop computes the stripped split. |
| `GenerateStubs.IsOptionalParam` | python/generate_stubs.py:1778-1798 | Decides whether a parameter is a name, a colon and an annotation that contains `Optional[` or, outside brackets, a bar soon followed by `None`. |
| `GenerateStubs.HasDefault` | python/generate_stubs.py:1801-1814 | Decides whether there is an equals sign outside brackets after the annotation. |
| `GenerateStubs.FindMatchingParen` | python/generate_stubs.py:1817-1830 | Finds the first position at which the parentheses from the start are closed, or -1. |
| `GenerateStubs.CompleteParams` | python/generate_stubs.py:1849-1859 | Completes a list in place from the right and says whether it changed. |
| `GenerateStubs.FixOptionalDefaultsInLine` | python/generate_stubs.py:1833-1863 | Computes the rewritten line. |
| `StubClasses.SegmentsAreLossless` | python/generate_stubs.py:1142-1157 | Cutting a class body into blocks ends and consumes every line exactly once. |
| `StubClasses.ParsesBlock` | python/generate_stubs.py:1182-1262 | A block is exactly decorators, a `def` line with a name, the lines up to the end of its signature and the longest body after it; where there is none, the line is blank or the decorators lead to no such `def`. |
| `StubClasses.AssembleInserts` | python/generate_stubs.py:1158-1179 | Missing methods go in after the last line that is not blank, each after a blank line, and every other line stays. |
| `StubClasses.ResultNamesDistinct` | python/generate_stubs.py:1131-1179 | The names of the rewritten class are distinct, injected ones included, none of its own methods is suppressed, and every injected method is there unless its name was used. |
| `StubRecut.ResultIsRecut` | python/generate_stubs.py:1131-1179 | Those names are what the emitted lines define: cutting the result into blocks again finds exactly them, in order, if rewriting and injecting give one block of the name it is for. |
| `StubClasses.KeptIff` | python/generate_stubs.py:1150-1156 | A method is kept if and only if it is the first of its resolved name, that name is not suppressed, no earlier method is renamed to its old name, none has its new name but another one itself, and its old name is not suppressed. |
| `StubClasses.LostIff` | python/generate_stubs.py:1131-1179 | The rewritten class lacks the first method of a resolved name that is not suppressed, under any definition and injected ones included, if and only if one of the last three conditions fails. |
| `StubClasses.RenamedChainLosesMethod` | python/generate_stubs.py:1150-1156 | That happens: for any names and any renames with `a` to `b` and `b` to `c`, a class of `a` and `b` ends up without `c`. |
| `StubClasses.ApplyClassBlockFixups` | python/generate_stubs.py:1131-1179 | The loop emits the kept methods, the other lines and the missing methods before the trailing blank lines. |
| `StubClasses.SplitMethodBlock` | python/generate_stubs.py:1265-1288 | Decorators, signature and remainder make up the block; the signature ends at its first line that ends one. |
| `Balances.FfillCarries` | nautilus_trader/analysis/analyzer.py:637-647 | Resampling to days and forward filling gives, for each day, the balance in force at its end. |
| `Balances.ReturnsAgree` | nautilus_trader/analysis/analyzer.py:637-647 | Daily returns depend only on the days covered and the balances at their ends. |
| `AccountReturns.CalculatePortfolioReturns` | nautilus_trader/analysis/analyzer.py:613-652 | The analyzer's loop, with its early returns, computes `PortfolioReturns`. |
| `AccountReturns.CalculateAccountReturns` | nautilus_trader/analysis/tearsheet.py:482-520 | The tearsheet's loop, with its early returns, computes `CombinedReturns`, which `CombinedReports` states in terms of the rows of all reports. |
| `ReturnsAgreement.AnalyzerMatchesTearsheet` | nautilus_trader/analysis/tearsheet.py:462-567 | For every account with events at distinct times both give the same daily returns or both give none: gaps, zero balances, empty events and mixed currencies included. |
| `ReturnsAgreement.DailyReturnsOfDaily` | nautilus_trader/analysis/analyzer.py:620-647 | Keeping the last balance of each day first makes no difference to the daily returns. |
| `ReturnsAgreement.CollectFails` | nautilus_trader/analysis/analyzer.py:620-629 | The analyzer gives up only on an account whose report shows two currencies. |
| `AccountReports.TotalsKeepLast` | nautilus_trader/analysis/tearsheet.py:543-549 | Grouping a sorted report by time keeps one ascending entry for each time, with the total of its last row. |
| `AccountReports.TargetIsFilter` | nautilus_trader/analysis/tearsheet.py:523-549 | Asking for a currency is keeping only its rows in every report and asking for none. |
| `AccountReports.CombinedReportBalance` | nautilus_trader/analysis/tearsheet.py:492-520 | For any accounts with sorted reports, at every event time from the moment all have reported, the combined balance is the sum of their latest totals at or before it, and no other time appears. |
| `CombinedReports.ReturnsOfReports` | nautilus_trader/analysis/tearsheet.py:462-520 | For any reports the combined returns are those of the sum of the series of totals of all reports that have rows in the currency; there are none exactly if no currency is asked for and two rows of any reports differ in theirs, if no row counts, or if the sum has no returns. |
| `CombinedReports.BalanceOfReports` | nautilus_trader/analysis/tearsheet.py:492-549 | For sorted reports that sum has an entry at exactly the times of rows that count from which on every report with such rows has one, and its value is the sum over all those reports of the latest total. |
| `CombinedBalances.ColumnIsLatest` | nautilus_trader/analysis/tearsheet.py:516-516 | Forward filling one account over the times of all gives its latest balance at or before each. |
| `CombinedBalances.CombinedIsSumOfLatest` | nautilus_trader/analysis/tearsheet.py:492-520 | The combined balance of ascending series at a time is the sum of each account's latest balance at or before it. |
| `CombinedBalances.CombinedTimes` | nautilus_trader/analysis/tearsheet.py:516-520 | A time appears in it if and only if some account has an entry at it and every account has reported by then; times ascend. |
| `Drawdown.CompoundingRestoresBalance` | nautilus_trader/analysis/tearsheet.py:156-156 | For positive balances, compounding the daily returns gives each day's carried balance relative to the first day's. |
| `Drawdown.ReturnsExactly` | nautilus_trader/analysis/tearsheet.py:552-567 | For any balances, zero and negative ones included, the daily returns are the relative changes between the carried balances of consecutive days, at the days from the second on where the change is defined. |
| `Drawdown.DrawdownIsBalanceFall` | nautilus_trader/analysis/tearsheet.py:152-167 | For positive balances, the drawdown of the daily returns is the percentage by which the carried balance lies below its own running maximum, above -100 and at most 0. |
| `BarAggregation.ResampledIsFolded` | run_backtest_chart.py:190-192 | For rows in time order, grouping by bucket is adding row by row to the last bar. |
| `BarAggregation.ResampleComposes` | run_backtest_chart.py:167-201 | Collapsing to bars, and those to bars a whole number of times as wide, gives the same bars as collapsing at once. |
| `BarAggregation.ChartIgnoresTimeframe` | run_backtest_chart.py:282-309 | The hourly chart is the same whether the backtest ran on 1, 5 or 15 minutes or an hour. |
| `BarAggregation.VolumeConserved` | run_backtest_chart.py:190-192 | Collapsing conserves the total volume. |
| `BarAggregation.BarsBoundRows` | run_backtest_chart.py:190-192 | There is exactly one bar for each bucket that has rows, in strictly ascending order; its high and low bound every row of the bucket and are each attained by one. |
| `BarAggregation.BarsSpanRows` | run_backtest_chart.py:190-192 | Each bar opens with the first row of its bucket, closes with the last one and has the volume of all of them. |
| `BarAggregation.TimeframeBuckets` | run_backtest_chart.py:167-201 | One minute leaves the rows alone; the other timeframes collapse to buckets of 5, 15, 60 and 240 minutes. |
| `BarAggregation.ChartShows` | run_backtest_chart.py:282-309 | The candles are the bars of an hour, or the one-hour and four-hour bars as they are, with their start in seconds and the prices in their places. |

## Left out

- Partial fills and latencies: an order fills at once and in full, and a reduce-only close fills whenever there is a
  position to reduce. A close that fails would leave a position without its stop.
- Denials by the risk engine: every order reaches the venue. The strategy answers a rejection of its stop but not a
  denial of it (`strategies/ema_cross_rr.py:152-166`), so that a denied stop would leave its position without one until
  the next flip; `AlwaysProtected` and what follows from it are about runs in which no order is denied.
- The venue's own cancelling of reduce-only stops when a position closes: no state that the strategy reaches has
  such a stop left over.
- When a stop triggers and when a stop price is in the market: both are arbitrary, so that every price path is
  covered, and the trigger price has no effect on them.
- EMA arithmetic, warm-up and instrument lookup: each bar carries an arbitrary signal and whether the indicators
  are ready.
- Logging, quote and trade subscriptions, bar requests and the tags of orders.
- The `shutdown` coroutine of the executor beyond its cancelling of the worker, the `task_done` counter of its
  queue, and the results of functions.
- Regular expressions of the docstring generator: which item a line defines, which section a doc line heads and
  how its links are rewritten are given with the line or as functions. Collecting the source docs, reading and
  writing files and their line ends are not modelled.
- Rewriting the signature of a method block (decorators, receivers, renames in the text) is a function of the
  block; `_rust_default_to_python` is an arbitrary partial translation; the other stub passes are regular
  expressions over whole files.
- Floating-point error and NaN: exact reals, with rounding only where the strategy builds a price. The chart's
  rounding of candle prices to one decimal is applied to each candle alone and is not modelled.
- Position returns, statistics, realized profit and the choice of the primary return series of the analyzer: each
  is a branch or a sum.
- Bars of four hours have no coarser chart: `ChartIgnoresTimeframe` covers the timeframes that the chart shows by
  the hour.
- Downloads, caching of files, dashboards, plots, themes, configuration, sweeps and examples.
