/** The actor executor on its event loop.

The loop runs one callback at a time from its ready queue, and a coroutine runs from one `await` to the
next within one callback. Calls into the executor and the ends of its threads happen between callbacks,
in any order. `Step` is one such atomic step; every interleaving is a sequence of events.

Task identifiers are numbered in the order in which their tasks were created. */
module Executor {
  import opened Wrappers

  type TaskId = nat
  type FutureId = nat
  type WorkerId = nat

  datatype Outcome = Pending | Result | Error | Cancelled

  /** A future of the loop; `waiter` is the worker that awaits it, if it came from the queue, and `task` the task it
  was created for. */
  datatype Future = Future(outcome: Outcome, waiter: Option<WorkerId>, task: TaskId)

  /** Where a worker coroutine is suspended. */
  datatype Point = AtStart | AtGet | AtAwait(future: FutureId) | Stopped

  /** `cancelled` records a cancellation request, delivered when the worker next runs. */
  datatype Worker = Worker(point: Point, cancelled: bool)

  datatype Callback =
    | Put(id: TaskId)                              // the delayed `put_nowait`
    | Settle(future: FutureId, outcome: Outcome)   // a thread ended: set its future
    | Done(future: FutureId)                       // `_remove_done_task`
    | Wake(worker: WorkerId)                       // resume a worker

  datatype State = State(
    active: map<TaskId, FutureId>,
    index: map<FutureId, TaskId>,
    queued: set<TaskId>,
    queue: seq<TaskId>,
    getters: seq<WorkerId>,       // workers waiting for an item
    workers: seq<Worker>,         // the last one is the current worker
    futures: seq<Future>,
    threads: set<FutureId>,       // running in the thread pool
    ready: seq<Callback>,
    nextId: TaskId,
    unregistered: set<TaskId>,    // scheduled by another thread, not yet in `queued`
    started: seq<TaskId>,         // history: tasks started from the queue
    dropped: set<TaskId>,         // history: tasks cancelled or drained while queued
    late: set<TaskId>)            // history: tasks registered after their item was gone
  {
    function WithWorker(w: WorkerId, point: Point): State
      requires w < |workers|
    {
      this.(workers := workers[w := workers[w].(point := point)])
    }
  }

  const INITIAL := State(map[], map[], {}, [], [], [Worker(AtStart, false)], [], {}, [Wake(0)], 0, {}, [], {}, {})

  // Futures

  /** Set a pending future; its callbacks run in the order in which they were added. */
  function Complete(s: State, f: FutureId, outcome: Outcome): State
    requires f < |s.futures|
  {
    if s.futures[f].outcome != Pending then s
    else s.(futures := s.futures[f := s.futures[f].(outcome := outcome)],
            ready := s.ready + [Done(f)] + Wakes(s.futures[f].waiter))
  }

  function Wakes(waiter: Option<WorkerId>): seq<Callback> {
    if waiter.Some? then [Wake(waiter.value)] else []
  }

  function Submit(s: State, id: TaskId, waiter: Option<WorkerId>): State {
    var f := |s.futures|;
    s.(futures := s.futures + [Future(Pending, waiter, id)], threads := s.threads + {f},
       active := s.active[id := f], index := s.index[f := id])
  }

  function RemoveDone(s: State, f: FutureId): State {
    if f !in s.index then s
    else s.(index := s.index - {f}, active := s.active - {s.index[f]}, queued := s.queued - {s.index[f]})
  }

  // The worker

  /** From the top of the worker's loop to its next `await`: skip items that are no longer queued. */
  function GetLoop(s: State, w: WorkerId): State
    requires w < |s.workers|
    decreases |s.queue|
  {
    if s.queue == [] then s.WithWorker(w, AtGet).(getters := s.getters + [w])
    else
      var id := s.queue[0];
      var s1 := s.(queue := s.queue[1..]);
      if id !in s.queued then GetLoop(s1, w)
      else Submit(s1.(queued := s.queued - {id}, started := s.started + [id]), id, Some(w))
           .WithWorker(w, AtAwait(|s.futures|))
  }

  function Resume(s: State, w: WorkerId): State
    requires w < |s.workers|
  {
    match s.workers[w].point
    case Stopped => s
    case AtStart => if s.workers[w].cancelled then s.WithWorker(w, Stopped) else GetLoop(s, w)
    case AtGet => if s.workers[w].cancelled then WakeGetterIfItems(s.WithWorker(w, Stopped)) else GetLoop(s, w)
    case AtAwait(f) =>
      if s.workers[w].cancelled || (f < |s.futures| && s.futures[f].outcome == Error)
      then s.WithWorker(w, Stopped) else GetLoop(s, w)
  }

  function WakeGetter(s: State): State {
    if s.getters == [] then s else s.(getters := s.getters[1..], ready := s.ready + [Wake(s.getters[0])])
  }

  function WakeGetterIfItems(s: State): State {
    if s.queue == [] then s else WakeGetter(s)
  }

  /** Ask a worker to stop; this cancels what it awaits. */
  function CancelWorker(s: State, w: WorkerId): State
    requires w < |s.workers|
  {
    var s1 := s.(workers := s.workers[w := s.workers[w].(cancelled := true)]);
    match s.workers[w].point
    case AtGet =>
      if w in s.getters
      then s1.(getters := Without(s.getters, w), ready := s.ready + [Wake(w)]) else s1
    case AtAwait(f) => if f < |s.futures| then Complete(s1, f, Cancelled) else s1
    case _ => s1
  }

  function Without(ws: seq<WorkerId>, w: WorkerId): seq<WorkerId> {
    if ws == [] then [] else if ws[0] == w then ws[1..] else [ws[0]] + Without(ws[1..], w)
  }

  // Calls

  function Schedule(s: State): State {
    s.(ready := s.ready + [Put(s.nextId)], nextId := s.nextId + 1, unregistered := s.unregistered + {s.nextId})
  }

  predicate Tracked(s: State, id: TaskId) {
    id in s.queue || Put(id) in s.ready
  }

  function Register(s: State, id: TaskId): State {
    if id !in s.unregistered then s
    else s.(unregistered := s.unregistered - {id}, queued := s.queued + {id},
            late := if Tracked(s, id) then s.late else s.late + {id})
  }

  function QueueForExecutor(s: State): State {
    Register(Schedule(s), s.nextId)
  }

  function RunInExecutor(s: State): State {
    Submit(s.(nextId := s.nextId + 1), s.nextId, None)
  }

  function CancelTask(s: State, id: TaskId): State {
    if id in s.queued then s.(queued := s.queued - {id}, dropped := s.dropped + {id})
    else if id !in s.active then s
    else
      var f := s.active[id];
      var s1 := s.(active := s.active - {id}, index := s.index - {f});
      if f < |s.futures| then Complete(s1, f, Cancelled) else s1
  }

  function CancelEach(s: State, ids: seq<TaskId>): State
    decreases |ids|
  {
    if ids == [] then s else CancelEach(CancelTask(s, ids[0]), ids[1..])
  }

  function DrainQueue(s: State): State {
    s.(queue := [], queued := {}, dropped := s.dropped + s.queued)
  }

  function CancelCurrent(s: State): State {
    if |s.workers| == 0 then s else CancelWorker(s, |s.workers| - 1)
  }

  function NewWorker(s: State): State {
    s.(workers := s.workers + [Worker(AtStart, false)], ready := s.ready + [Wake(|s.workers|)])
  }

  /** `order` is the iteration order of the active tasks. */
  function CancelAllTasks(s: State, order: seq<TaskId>): State {
    NewWorker(CancelEach(CancelCurrent(DrainQueue(s)), order))
  }

  function Reset(s: State, order: seq<TaskId>): State {
    CancelAllTasks(s, order).(active := map[], index := map[], queued := {})
  }

  // Atomic steps

  datatype Event =
    | Enqueue                                            // queue_for_executor on the loop's thread
    | ForeignSchedule                                    // queue_for_executor on another thread, first half
    | ForeignRegister(id: TaskId)                        // and its second half
    | RunDirectly                                        // run_in_executor
    | CancelOne(id: TaskId)
    | CancelAll(order: seq<TaskId>)
    | ResetAll(order: seq<TaskId>)
    | Shutdown                                           // cancels the worker without replacing it
    | ThreadEnds(future: FutureId, outcome: Outcome)     // a pool thread returns or raises
    | RunReady                                           // the loop runs its next callback

  function RunCallback(s: State): State {
    if s.ready == [] then s
    else
      var s1 := s.(ready := s.ready[1..]);
      match s.ready[0]
      case Put(id) => WakeGetter(s1.(queue := s.queue + [id]))
      case Settle(f, outcome) => if f < |s.futures| then Complete(s1, f, outcome) else s1
      case Done(f) => RemoveDone(s1, f)
      case Wake(w) => if w < |s.workers| then Resume(s1, w) else s1
  }

  function Step(s: State, e: Event): State {
    match e
    case Enqueue => QueueForExecutor(s)
    case ForeignSchedule => Schedule(s)
    case ForeignRegister(id) => Register(s, id)
    case RunDirectly => RunInExecutor(s)
    case CancelOne(id) => CancelTask(s, id)
    case CancelAll(order) => if Lists(order, s.active.Keys) then CancelAllTasks(s, order) else s
    case ResetAll(order) => if Lists(order, s.active.Keys) then Reset(s, order) else s
    case Shutdown => CancelCurrent(s)
    case ThreadEnds(f, outcome) =>
      if f in s.threads && (outcome == Result || outcome == Error)
      then s.(threads := s.threads - {f}, ready := s.ready + [Settle(f, outcome)]) else s
    case RunReady => RunCallback(s)
  }

  predicate Lists(order: seq<TaskId>, ids: set<TaskId>) {
    (forall id <- order :: id in ids) && (forall id <- ids :: id in order)
  }

  function Run(events: seq<Event>): State {
    if events == [] then INITIAL else Step(Run(events[..|events| - 1]), events[|events| - 1])
  }
}
