/** The executor and its event loop as objects that update their fields in place. Each method is proved to do
what the corresponding function of `Executor` says, and every call and every callback to keep the invariant of the
executor's runs. */
module ActorExecutor {
  import opened Wrappers
  import opened Executor
  import opened ExecutorProgress

  /** What the loop keeps for the executor: its ready queue, its futures and the suspended workers. */
  class EventLoop {
    var getters: seq<WorkerId>
    var workers: seq<Worker>
    var futures: seq<Future>
    var threads: set<FutureId>
    var ready: seq<Callback>

    constructor ()
      ensures getters == [] && workers == [] && futures == [] && threads == {} && ready == []
    {
      getters, workers, futures, threads, ready := [], [], [], {}, [];
    }

    method CallSoon(c: Callback)
      modifies this`ready
      ensures ready == old(ready) + [c]
    {
      ready := ready + [c];
    }

    method Suspend(w: WorkerId, point: Point)
      requires w < |workers|
      modifies this`workers
      ensures workers == old(workers)[w := old(workers)[w].(point := point)]
    {
      workers := workers[w := workers[w].(point := point)];
    }
  }

  class ActorExecutor {
    const loop: EventLoop
    var activeTasks: map<TaskId, FutureId>
    var futureIndex: map<FutureId, TaskId>
    var queuedTasks: set<TaskId>
    var queue: seq<TaskId>
    var nextId: TaskId
    ghost var unregistered: set<TaskId>
    ghost var started: seq<TaskId>
    ghost var dropped: set<TaskId>
    ghost var late: set<TaskId>

    /** The state these objects stand for. */
    ghost function Snapshot(): State
      reads this, loop
    {
      State(activeTasks, futureIndex, queuedTasks, queue, loop.getters, loop.workers, loop.futures, loop.threads,
            loop.ready, nextId, unregistered, started, dropped, late)
    }

    /** What every interleaving keeps: the shape of the indexes and workers, the order of starts, and that whatever is
    waited for is due. */
    ghost predicate Valid()
      reads this, loop
    {
      Invariant(Snapshot())
    }

    constructor ()
      ensures fresh(loop) && Snapshot() == INITIAL && Valid()
    {
      loop := new EventLoop();
      activeTasks, futureIndex, queuedTasks, queue, nextId := map[], map[], {}, [], 0;
      unregistered, started, dropped, late := {}, [], {}, {};
      new;
      hide Invariant;
      CreateWorker();
      AlwaysInvariant([]);
    }

    method CreateWorker()
      modifies loop
      ensures Snapshot() == NewWorker(old(Snapshot()))
    {
      loop.workers := loop.workers + [Worker(AtStart, false)];
      loop.CallSoon(Wake(|loop.workers| - 1));
    }

    method CompleteFuture(f: FutureId, outcome: Outcome)
      requires f < |loop.futures|
      modifies loop
      ensures Snapshot() == Complete(old(Snapshot()), f, outcome)
    {
      if loop.futures[f].outcome == Pending {
        loop.futures := loop.futures[f := loop.futures[f].(outcome := outcome)];
        loop.CallSoon(Done(f));
        if loop.futures[f].waiter.Some? {
          loop.CallSoon(Wake(loop.futures[f].waiter.value));
        }
      }
    }

    method SubmitToExecutor(id: TaskId, waiter: Option<WorkerId>) returns (f: FutureId)
      modifies this, loop
      ensures f == |old(loop.futures)|
      ensures Snapshot() == Submit(old(Snapshot()), id, waiter)
    {
      f := |loop.futures|;
      loop.futures := loop.futures + [Future(Pending, waiter, id)];
      loop.threads := loop.threads + {f};
      activeTasks := activeTasks[id := f];
      futureIndex := futureIndex[f := id];
    }

    method RemoveDoneTask(f: FutureId)
      modifies this
      ensures Snapshot() == RemoveDone(old(Snapshot()), f)
    {
      if f in futureIndex {
        var id := futureIndex[f];
        futureIndex := futureIndex - {f};
        activeTasks := activeTasks - {id};
        queuedTasks := queuedTasks - {id};
      }
    }

    /** The worker's loop, from the point at which it resumes to the point at which it next suspends. */
    method ResumeWorker(w: WorkerId)
      requires w < |loop.workers|
      modifies this, loop
      ensures Snapshot() == Resume(old(Snapshot()), w)
    {
      hide GetLoop;
      var point := loop.workers[w].point;
      if point.Stopped? {
        return;
      }
      if loop.workers[w].cancelled {
        loop.Suspend(w, Stopped);
        if point.AtGet? && queue != [] {
          WakeNextGetter();
        }
        return;
      }
      if point.AtAwait? && point.future < |loop.futures| && loop.futures[point.future].outcome == Error {
        loop.Suspend(w, Stopped);
        return;
      }
      TakeNext(w);
    }

    /** The worker's loop: skip items that are no longer queued, start the first that is, or wait for one. */
    method TakeNext(w: WorkerId)
      requires w < |loop.workers|
      modifies this, loop
      ensures Snapshot() == GetLoop(old(Snapshot()), w)
    {
      while queue != []
        invariant w < |loop.workers|
        invariant GetLoop(Snapshot(), w) == GetLoop(old(Snapshot()), w)
        decreases |queue|
      {
        var id := queue[0];
        queue := queue[1..];
        if id in queuedTasks {
          queuedTasks := queuedTasks - {id};
          started := started + [id];
          var f := SubmitToExecutor(id, Some(w));
          loop.Suspend(w, AtAwait(f));
          return;
        }
      }
      loop.Suspend(w, AtGet);
      loop.getters := loop.getters + [w];
    }

    method WakeNextGetter()
      modifies loop
      ensures Snapshot() == WakeGetter(old(Snapshot()))
    {
      if loop.getters != [] {
        var w := loop.getters[0];
        loop.getters := loop.getters[1..];
        loop.CallSoon(Wake(w));
      }
    }

    method CancelWorkerTask()
      modifies loop
      ensures Snapshot() == CancelCurrent(old(Snapshot()))
      ensures old(Valid()) ==> Valid()
    {
      hide Invariant;
      if Valid() {
        StepInvariant(Snapshot(), Shutdown);
      }
      if loop.workers == [] {
        return;
      }
      var w := |loop.workers| - 1;
      loop.workers := loop.workers[w := loop.workers[w].(cancelled := true)];
      match loop.workers[w].point
      case AtGet =>
        if w in loop.getters {
          loop.getters := Without(loop.getters, w);
          loop.CallSoon(Wake(w));
        }
      case AtAwait(f) =>
        if f < |loop.futures| {
          CompleteFuture(f, Cancelled);
        }
      case _ =>
    }

    method QueueForExecutor() returns (id: TaskId)
      modifies this, loop
      ensures id == old(nextId)
      ensures Snapshot() == Executor.QueueForExecutor(old(Snapshot()))
      ensures old(Valid()) ==> Valid()
    {
      hide Invariant;
      if Valid() {
        StepInvariant(Snapshot(), Enqueue);
      }
      id := nextId;
      nextId := nextId + 1;
      loop.CallSoon(Put(id));
      queuedTasks := queuedTasks + {id};
      ghost var scheduled := Schedule(old(Snapshot()));
      assert Put(id) in loop.ready;
      assert Tracked(scheduled, id);
      unregistered := scheduled.unregistered - {id};
    }

    method RunInExecutor() returns (id: TaskId)
      modifies this, loop
      ensures id == old(nextId)
      ensures Snapshot() == Executor.RunInExecutor(old(Snapshot()))
      ensures old(Valid()) ==> Valid()
    {
      hide Invariant;
      if Valid() {
        StepInvariant(Snapshot(), RunDirectly);
      }
      id := nextId;
      nextId := nextId + 1;
      var _ := SubmitToExecutor(id, None);
    }

    method CancelTask(id: TaskId)
      modifies this, loop
      ensures Snapshot() == Executor.CancelTask(old(Snapshot()), id)
      ensures old(Valid()) && id in old(activeTasks) ==>
                var f := old(activeTasks)[id];
                && f < |old(loop.futures)| && id !in activeTasks && f !in futureIndex
                && if old(loop.futures)[f].outcome == Pending then
                     && loop.futures == old(loop.futures)[f := old(loop.futures)[f].(outcome := Cancelled)]
                     && loop.ready == old(loop.ready) + [Done(f)] + Wakes(old(loop.futures)[f].waiter)
                   else loop.futures == old(loop.futures) && loop.ready == old(loop.ready)
      ensures old(Valid()) ==> Valid()
    {
      hide Invariant;
      if Valid() {
        StepInvariant(Snapshot(), CancelOne(id));
        ActiveFacts(Snapshot());
      }
      if id in queuedTasks {
        queuedTasks := queuedTasks - {id};
        dropped := dropped + {id};
        return;
      }
      if id in activeTasks {
        var f := activeTasks[id];
        activeTasks := activeTasks - {id};
        futureIndex := futureIndex - {f};
        if f < |loop.futures| {
          CompleteFuture(f, Cancelled);
        }
      }
    }

    method DrainQueue()
      modifies this
      ensures Snapshot() == Executor.DrainQueue(old(Snapshot()))
    {
      while queue != []
        invariant Snapshot() == old(Snapshot()).(queue := queue)
        decreases |queue|
      {
        queue := queue[1..];
      }
      dropped := dropped + queuedTasks;
      queuedTasks := {};
    }

    /** `order` is the iteration order of the active tasks. */
    method CancelAllTasks(order: seq<TaskId>)
      requires Lists(order, activeTasks.Keys)
      modifies this, loop
      ensures Snapshot() == Executor.CancelAllTasks(old(Snapshot()), order)
      ensures old(Valid()) ==> Valid()
      ensures old(Valid()) ==> activeTasks == map[] && futureIndex == map[] && queuedTasks == {} && queue == []
    {
      hide Invariant;
      if Valid() {
        StepInvariant(Snapshot(), CancelAll(order));
        CancelAllEmpties(Snapshot(), order);
      }
      DrainQueue();
      CancelWorkerTask();
      ghost var before := Snapshot();
      var i := 0;
      while i < |order|
        invariant 0 <= i <= |order|
        invariant CancelEach(Snapshot(), order[i..]) == CancelEach(before, order)
      {
        assert order[i..][1..] == order[i + 1..];
        CancelTask(order[i]);
        i := i + 1;
      }
      CreateWorker();
    }

    method Reset(order: seq<TaskId>)
      requires Lists(order, activeTasks.Keys)
      modifies this, loop
      ensures Snapshot() == Executor.Reset(old(Snapshot()), order)
      ensures old(Valid()) ==> Valid()
      ensures old(Valid()) ==> activeTasks == map[] && futureIndex == map[] && queuedTasks == {} && queue == []
    {
      hide Invariant;
      if Valid() {
        StepInvariant(Snapshot(), ResetAll(order));
        CancelAllEmpties(Snapshot(), order);
      }
      CancelAllTasks(order);
      activeTasks, futureIndex, queuedTasks := map[], map[], {};
    }

    /** The loop runs its next callback. */
    method RunOnce()
      modifies this, loop
      ensures Snapshot() == RunCallback(old(Snapshot()))
      ensures old(Valid()) ==> Valid()
      ensures old(Valid()) && old(loop.ready) != [] ==>
                Measure(Snapshot()) < Measure(old(Snapshot())) && Carries(old(Snapshot()), Snapshot())
    {
      hide Invariant;
      if Valid() {
        StepInvariant(Snapshot(), RunReady);
        if loop.ready != [] {
          InternalStepKeeps(Snapshot(), RunReady);
        }
      }
      if loop.ready == [] {
        return;
      }
      var c := loop.ready[0];
      loop.ready := loop.ready[1..];
      match c
      case Put(id) =>
        queue := queue + [id];
        WakeNextGetter();
      case Settle(f, outcome) =>
        if f < |loop.futures| {
          CompleteFuture(f, outcome);
        }
      case Done(f) => RemoveDoneTask(f);
      case Wake(w) =>
        if w < |loop.workers| {
          ResumeWorker(w);
        }
    }
  }
}
