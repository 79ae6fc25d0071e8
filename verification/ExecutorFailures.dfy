/** Why a worker ends: the two causes, traced back to the events of the run. */
module ExecutorFailures {
  import opened Wrappers
  import opened Executor
  import opened ExecutorShape

  /** No worker will take anything from the queue. */
  ghost predicate NoWorker(s: State) {
    forall w :: 0 <= w < |s.workers| ==> s.workers[w].cancelled || s.workers[w].point.Stopped?
  }

  /** The futures whose function raised. */
  function Raised(events: seq<Event>): set<FutureId> {
    if events == [] then {}
    else
      var n := |events| - 1;
      RaisedBy(Run(events[..n]), Raised(events[..n]), events[n])
  }

  function RaisedBy(s: State, raised: set<FutureId>, e: Event): set<FutureId> {
    if e.ThreadEnds? && e.outcome == Error && e.future in s.threads then raised + {e.future} else raised
  }

  predicate Replaces(s: State, e: Event) {
    (e.CancelAll? || e.ResetAll?) && Lists(e.order, s.active.Keys)
  }

  /** The executor was shut down, and not set going again by cancelling everything. */
  predicate ShutDown(events: seq<Event>) {
    events != [] &&
      var n := |events| - 1;
      events[n] == Shutdown || (ShutDown(events[..n]) && !Replaces(Run(events[..n]), events[n]))
  }

  // Outcomes of threads

  /** A thread ends once, and only a thread that raised gives its future an exception. */
  ghost predicate EndsOnce(s: State, raised: set<FutureId>) {
    && s.threads !! raised
    && (forall f :: f in s.threads || f in raised ==>
          f < |s.futures| && s.futures[f].outcome != Result && Settle(f, Result) !in s.ready)
    && (forall c <- s.ready :: c.Settle? && c.outcome == Error ==> c.future in raised)
    && (forall f :: 0 <= f < |s.futures| && s.futures[f].outcome == Error ==> f in raised)
  }

  /** The current worker awaits the future, or did. */
  predicate Awaits(s: State, f: FutureId) {
    s.workers != [] && f < |s.futures| && s.futures[f].waiter == Some(|s.workers| - 1)
  }

  /** An exception the current worker has not been resumed with yet is that of the future it awaits. */
  ghost predicate Raising(s: State) {
    forall f :: 0 <= f < |s.futures| && Awaits(s, f) && s.futures[f].outcome == Error ==>
      s.workers[|s.workers| - 1].point.Stopped? || s.workers[|s.workers| - 1].point == AtAwait(f)
  }

  ghost predicate Failed(s: State) {
    exists f :: 0 <= f < |s.futures| && Awaits(s, f) && s.futures[f].outcome == Error
  }

  /** A current worker that ended was cancelled or awaited a function that raised; what it awaits has started. */
  ghost predicate Blame(s: State, raised: set<FutureId>) {
    && EndsOnce(s, raised)
    && Raising(s)
    && s.workers != []
    && (s.workers[|s.workers| - 1].point.Stopped? && !s.workers[|s.workers| - 1].cancelled ==> Failed(s))
    && (forall f :: 0 <= f < |s.futures| && s.futures[f].waiter.Some? ==> s.started != [])
    && LastStarted(s)
  }

  /** What the current worker awaits, and what it was not resumed from, is the task started last. */
  ghost predicate LastStarted(s: State) {
    forall f :: 0 <= f < |s.futures| && Awaits(s, f)
                && (s.futures[f].outcome == Error || s.workers[|s.workers| - 1].point == AtAwait(f)) ==>
      s.started != [] && s.futures[f].task == s.started[|s.started| - 1]
  }

  // Each operation keeps it

  lemma {:induction false} SameBlame(s: State, r: State, raised: set<FutureId>)
    requires Blame(s, raised) && r.workers == s.workers && r.futures == s.futures && r.threads == s.threads
             && r.started == s.started
    requires forall c <- r.ready :: c.Settle? ==> c in s.ready
    ensures Blame(r, raised)
  {
  }

  /** An outcome that a future may be given. */
  predicate Deserved(s: State, f: FutureId, outcome: Outcome, raised: set<FutureId>) {
    || outcome == Cancelled
    || (outcome == Result && f !in s.threads && f !in raised)
    || (outcome == Error && f in raised)
  }

  lemma {:induction false} CompleteEndsOnce(s: State, f: FutureId, outcome: Outcome, raised: set<FutureId>)
    requires EndsOnce(s, raised) && f < |s.futures| && s.futures[f].outcome == Pending
             && Deserved(s, f, outcome, raised)
    ensures EndsOnce(Complete(s, f, outcome), raised)
  {
    var r := Complete(s, f, outcome);
    CompleteReady(s, f, outcome);
    assert r.threads == s.threads && r.futures == s.futures[f := s.futures[f].(outcome := outcome)];
    assert forall c <- r.ready :: c.Settle? ==> c in s.ready;
    hide Complete;
  }

  lemma {:induction false} CompleteAwaited(s: State, f: FutureId, outcome: Outcome)
    requires Raising(s) && LastStarted(s) && f < |s.futures| && s.futures[f].outcome == Pending
    requires s.futures[f].waiter.Some? ==>
               s.futures[f].waiter.value < |s.workers| && s.workers[s.futures[f].waiter.value].point == AtAwait(f)
    ensures var r := Complete(s, f, outcome);
            && Raising(r) && LastStarted(r) && (Failed(s) ==> Failed(r))
            && forall g :: 0 <= g < |r.futures| ==> r.futures[g].waiter == s.futures[g].waiter
  {
    var r := Complete(s, f, outcome);
    assert r.workers == s.workers && r.started == s.started;
    assert r.futures == s.futures[f := s.futures[f].(outcome := outcome)];
    hide Complete;
    assert forall g :: 0 <= g < |s.futures| ==> (Awaits(r, g) <==> Awaits(s, g));
  }

  lemma {:induction false} BlameIs(s: State, raised: set<FutureId>)
    ensures Blame(s, raised) <==>
              && EndsOnce(s, raised) && Raising(s) && LastStarted(s) && s.workers != []
              && (s.workers[|s.workers| - 1].point.Stopped? && !s.workers[|s.workers| - 1].cancelled ==> Failed(s))
              && (forall f :: 0 <= f < |s.futures| && s.futures[f].waiter.Some? ==> s.started != [])
  {
    hide EndsOnce;
    hide Raising;
    hide LastStarted;
    hide Failed;
  }

  lemma {:induction false} CompleteBlame(s: State, f: FutureId, outcome: Outcome, raised: set<FutureId>)
    requires Shape(s) && Blame(s, raised) && f < |s.futures| && Deserved(s, f, outcome, raised)
    ensures Blame(Complete(s, f, outcome), raised)
  {
    if s.futures[f].outcome == Pending {
      CompleteRest(s, f, outcome);
      BlameIs(s, raised);
      var r := Complete(s, f, outcome);
      assert r.workers == s.workers && r.started == s.started && |r.futures| == |s.futures|;
      hide *;
      CompleteEndsOnce(s, f, outcome, raised);
      CompleteAwaited(s, f, outcome);
      BlameIs(r, raised);
    }
  }

  lemma {:induction false} FlagBlame(s: State, raised: set<FutureId>)
    requires Blame(s, raised)
    ensures var w := |s.workers| - 1; Blame(s.(workers := s.workers[w := s.workers[w].(cancelled := true)]), raised)
  {
  }

  lemma {:induction false} CancelGetterBlame(s: State, raised: set<FutureId>)
    requires Blame(s, raised) && s.workers != [] && |s.workers| - 1 in s.getters
    requires s.workers[|s.workers| - 1].point.AtGet?
    ensures Blame(CancelCurrent(s), raised)
  {
    var w := |s.workers| - 1;
    FlagBlame(s, raised);
    hide Blame;
    SameBlame(s.(workers := s.workers[w := s.workers[w].(cancelled := true)]), CancelCurrent(s), raised);
  }

  lemma {:induction false} CancelCurrentBlame(s: State, raised: set<FutureId>)
    requires Shape(s) && Blame(s, raised)
    ensures Blame(CancelCurrent(s), raised)
  {
    var w := |s.workers| - 1;
    if w in s.getters {
      CancelGetterBlame(s, raised);
    } else {
      var s1 := s.(workers := s.workers[w := s.workers[w].(cancelled := true)]);
      var point := s.workers[w].point;
      CancelFlagShape(s, w);
      assert point.AtAwait? ==> point.future < |s.futures| && Deserved(s1, point.future, Cancelled, raised);
      assert CancelCurrent(s) == if point.AtAwait? then Complete(s1, point.future, Cancelled) else s1;
      hide *;
      FlagBlame(s, raised);
      if point.AtAwait? {
        CompleteBlame(s1, point.future, Cancelled, raised);
      }
    }
  }

  lemma {:induction false} CancelTaskBlame(s: State, id: TaskId, raised: set<FutureId>)
    requires Shape(s) && Blame(s, raised)
    ensures Blame(CancelTask(s, id), raised)
  {
    if id !in s.queued && id in s.active {
      var f := s.active[id];
      var s1 := s.(active := s.active - {id}, index := s.index - {f});
      IdsShape(s, s1);
      assert f < |s1.futures| && CancelTask(s, id) == Complete(s1, f, Cancelled);
      SameBlame(s, s1, raised);
      assert Deserved(s1, f, Cancelled, raised);
      hide *;
      CompleteBlame(s1, f, Cancelled, raised);
    } else {
      SameBlame(s, CancelTask(s, id), raised);
    }
  }

  lemma {:induction false} CancelEachBlame(s: State, ids: seq<TaskId>, raised: set<FutureId>)
    requires Shape(s) && Blame(s, raised)
    ensures Blame(CancelEach(s, ids), raised)
    decreases |ids|
  {
    if ids != [] {
      assert CancelEach(s, ids) == CancelEach(CancelTask(s, ids[0]), ids[1..]);
      hide *;
      CancelTaskShape(s, ids[0]);
      CancelTaskBlame(s, ids[0], raised);
      CancelEachBlame(CancelTask(s, ids[0]), ids[1..], raised);
    }
  }

  lemma {:induction false} NewWorkerBlame(s: State, raised: set<FutureId>)
    requires Shape(s) && Blame(s, raised)
    ensures Blame(NewWorker(s), raised)
  {
    var r := NewWorker(s);
    assert forall c <- r.ready :: c.Settle? ==> c in s.ready;
  }

  lemma {:induction false} CancelAllBlame(s: State, order: seq<TaskId>, raised: set<FutureId>)
    requires Shape(s) && Blame(s, raised)
    ensures Blame(CancelAllTasks(s, order), raised)
  {
    var s1 := DrainQueue(s);
    var s2 := CancelCurrent(s1);
    SameBlame(s, s1, raised);
    hide *;
    DrainShape(s);
    CancelCurrentShape(s1);
    CancelCurrentBlame(s1, raised);
    CancelEachShape(s2, order);
    CancelEachBlame(s2, order, raised);
    NewWorkerBlame(CancelEach(s2, order), raised);
  }

  lemma {:induction false} SkipBlame(s: State, queue: seq<TaskId>, raised: set<FutureId>)
    requires Bounded(s) && EndsOnce(s, raised) && !Failed(s)
    ensures var r := s.(queue := queue); Bounded(r) && EndsOnce(r, raised) && !Failed(r)
  {
    var r := s.(queue := queue);
    assert forall f :: Awaits(r, f) <==> Awaits(s, f);
    assert forall c <- s.ready :: CallbackOk(s, c) ==> CallbackOk(r, c);
  }

  lemma {:induction false} StartBlame(s: State, w: WorkerId, raised: set<FutureId>)
    requires Bounded(s) && EndsOnce(s, raised) && !Failed(s) && w == |s.workers| - 1
    requires s.queue != [] && s.queue[0] in s.queued
    ensures Blame(GetLoop(s, w), raised)
  {
    var r, f := GetLoop(s, w), |s.futures|;
    assert r.futures == s.futures + [Future(Pending, Some(w), s.queue[0])] && r.started == s.started + [s.queue[0]];
    assert r.threads == s.threads + {f} && r.ready == s.ready;
    assert |r.workers| == |s.workers| && r.workers[w].point == AtAwait(f);
    assert forall c <- s.ready :: CallbackOk(s, c);
    hide GetLoop;
    assert forall g :: 0 <= g < f ==> r.futures[g] == s.futures[g] && (Awaits(r, g) <==> Awaits(s, g));
    assert EndsOnce(r, raised);
    hide EndsOnce;
    assert Raising(r) && LastStarted(r);
  }

  /** The current worker goes on: nothing it has awaited raised. */
  lemma {:induction false} GetLoopBlame(s: State, w: WorkerId, raised: set<FutureId>)
    requires Bounded(s) && EndsOnce(s, raised) && !Failed(s) && w == |s.workers| - 1
    requires forall f :: 0 <= f < |s.futures| && s.futures[f].waiter.Some? ==> s.started != []
    ensures Blame(GetLoop(s, w), raised)
    decreases |s.queue|
  {
    var r := GetLoop(s, w);
    if s.queue == [] {
      assert r.futures == s.futures && r.started == s.started && r.threads == s.threads && r.ready == s.ready;
      assert |r.workers| == |s.workers| && r.workers[w].point == AtGet;
      hide GetLoop;
      assert forall f :: Awaits(r, f) <==> Awaits(s, f);
    } else if s.queue[0] !in s.queued {
      SkipBlame(s, s.queue[1..], raised);
      hide Bounded;
      hide EndsOnce;
      hide Failed;
      GetLoopBlame(s.(queue := s.queue[1..]), w, raised);
    } else {
      StartBlame(s, w, raised);
    }
  }

  lemma {:induction false} StopBlame(s: State, w: WorkerId, raised: set<FutureId>)
    requires Blame(s, raised) && w < |s.workers|
    requires w == |s.workers| - 1 ==> s.workers[w].cancelled || Failed(s)
    ensures Blame(s.WithWorker(w, Stopped), raised)
  {
    assert forall f :: Awaits(s, f) ==> Awaits(s.WithWorker(w, Stopped), f);
  }

  lemma {:induction false} ResumeBlame(s: State, w: WorkerId, raised: set<FutureId>)
    requires Bounded(s) && OneWorker(s) && Blame(s, raised) && w < |s.workers|
    ensures Blame(Resume(s, w), raised)
  {
    var worker := s.workers[w];
    if worker.point.Stopped? {
    } else if worker.cancelled {
      StopBlame(s, w, raised);
      SameBlame(s.WithWorker(w, Stopped), Resume(s, w), raised);
    } else if worker.point.AtAwait? && s.futures[worker.point.future].outcome == Error {
      assert w == |s.workers| - 1 ==> Awaits(s, worker.point.future);
      StopBlame(s, w, raised);
    } else {
      assert !Failed(s);
      GetLoopBlame(s, w, raised);
    }
  }

  lemma {:induction false} CallbackBlame(s: State, raised: set<FutureId>)
    requires Shape(s) && Blame(s, raised) && s.ready != []
    ensures Blame(RunCallback(s), raised)
  {
    var s1 := s.(ready := s.ready[1..]);
    SameBlame(s, s1, raised);
    assert s.ready[0] in s.ready && CallbackOk(s, s.ready[0]);
    match s.ready[0]
    case Put(id) =>
      hide Shape;
      hide Blame;
      SameBlame(s1, RunCallback(s), raised);
    case Settle(f, outcome) =>
      assert Deserved(s1, f, outcome, raised);
      PopShape(s);
      hide Shape;
      hide Blame;
      hide Complete;
      CompleteBlame(s1, f, outcome, raised);
    case Done(f) =>
      hide Shape;
      hide Blame;
      SameBlame(s1, RunCallback(s), raised);
    case Wake(w) =>
      PopShape(s);
      hide Blame;
      hide Resume;
      ResumeBlame(s1, w, raised);
  }

  lemma {:induction false} StepBlame(s: State, e: Event, raised: set<FutureId>)
    requires Shape(s) && Blame(s, raised)
    ensures Blame(Step(s, e), RaisedBy(s, raised, e))
  {
    hide Shape;
    hide Blame;
    match e
    case Enqueue => SameBlame(s, Step(s, e), raised);
    case ForeignSchedule => SameBlame(s, Step(s, e), raised);
    case ForeignRegister(id) => SameBlame(s, Step(s, e), raised);
    case RunDirectly => DirectBlame(s, raised);
    case CancelOne(id) => CancelTaskBlame(s, id, raised);
    case CancelAll(order) => CancelAllBlame(s, order, raised);
    case ResetAll(order) =>
      if Lists(order, s.active.Keys) {
        ResetShape(s, order);
        CancelAllBlame(s, order, raised);
      }
    case Shutdown => CancelCurrentBlame(s, raised);
    case ThreadEnds(f, outcome) => ThreadBlame(s, e, raised);
    case RunReady => if s.ready != [] { CallbackBlame(s, raised); }
  }

  lemma {:induction false} DirectBlame(s: State, raised: set<FutureId>)
    requires Shape(s) && Blame(s, raised)
    ensures Blame(RunInExecutor(s), raised)
  {
    var r := RunInExecutor(s);
    assert r.futures == s.futures + [Future(Pending, None, s.nextId)] && r.threads == s.threads + {|s.futures|};
    assert r.workers == s.workers && r.started == s.started && r.ready == s.ready;
    assert forall c <- s.ready :: CallbackOk(s, c);
    hide Shape;
    hide RunInExecutor;
    assert forall f :: 0 <= f < |s.futures| ==> r.futures[f] == s.futures[f];
    assert forall f :: 0 <= f < |s.futures| ==> (Awaits(s, f) <==> Awaits(r, f));
    assert EndsOnce(r, raised);
    hide EndsOnce;
    assert Raising(r) && LastStarted(r) && (Failed(s) ==> Failed(r));
  }

  lemma {:induction false} SameAwaits(s: State, r: State)
    requires r.workers == s.workers && r.futures == s.futures && r.started == s.started
    ensures Raising(s) ==> Raising(r)
    ensures LastStarted(s) ==> LastStarted(r)
    ensures Failed(s) ==> Failed(r)
  {
    assert forall f :: Awaits(s, f) <==> Awaits(r, f);
  }

  lemma {:induction false} ThreadEndsOnce(s: State, e: Event, raised: set<FutureId>)
    requires EndsOnce(s, raised) && e.ThreadEnds?
    ensures EndsOnce(Step(s, e), RaisedBy(s, raised, e))
  {
    var r := Step(s, e);
    assert forall c <- r.ready :: c in s.ready || c == Settle(e.future, e.outcome);
  }

  lemma {:induction false} ThreadBlame(s: State, e: Event, raised: set<FutureId>)
    requires Shape(s) && Blame(s, raised) && e.ThreadEnds?
    ensures Blame(Step(s, e), RaisedBy(s, raised, e))
  {
    var r := Step(s, e);
    assert r == s || r == s.(threads := s.threads - {e.future}, ready := s.ready + [Settle(e.future, e.outcome)]);
    ThreadEndsOnce(s, e, raised);
    hide Step;
    hide Shape;
    hide EndsOnce;
    SameAwaits(s, r);
    hide Raising;
    hide LastStarted;
    hide Failed;
  }

  lemma {:induction false} AlwaysBlamed(events: seq<Event>)
    ensures Blame(Run(events), Raised(events))
  {
    if events != [] {
      var n := |events| - 1;
      AlwaysBlamed(events[..n]);
      AlwaysShaped(events[..n]);
      StepBlame(Run(events[..n]), events[n], Raised(events[..n]));
    }
  }

  // Cancelled workers

  predicate CurrentCancelled(s: State) {
    s.workers != [] && s.workers[|s.workers| - 1].cancelled
  }

  lemma {:induction false} GetLoopFlags(s: State, w: WorkerId)
    requires w < |s.workers|
    ensures CurrentCancelled(GetLoop(s, w)) == CurrentCancelled(s)
    decreases |s.queue|
  {
    if s.queue != [] && s.queue[0] !in s.queued {
      GetLoopFlags(s.(queue := s.queue[1..]), w);
    }
  }

  lemma {:induction false} CallbackFlags(s: State)
    ensures CurrentCancelled(RunCallback(s)) == CurrentCancelled(s)
  {
    if s.ready != [] && s.ready[0].Wake? && s.ready[0].worker < |s.workers| {
      GetLoopFlags(s.(ready := s.ready[1..]), s.ready[0].worker);
    }
    hide GetLoop;
  }

  /** Only shutting down cancels the current worker, and only cancelling everything replaces it. */
  lemma {:induction false} CancelledStep(s: State, e: Event)
    requires s.workers != []
    ensures CurrentCancelled(Step(s, e)) <==> e == Shutdown || (CurrentCancelled(s) && !Replaces(s, e))
  {
    if e.CancelAll? || e.ResetAll? {
      var s3 := CancelEach(CancelCurrent(DrainQueue(s)), e.order);
      hide CancelEach;
      hide CancelCurrent;
      var r := NewWorker(s3);
      assert r.workers == s3.workers + [Worker(AtStart, false)];
    } else if e.RunReady? {
      CallbackFlags(s);
      hide RunCallback;
    } else {
      hide RunCallback;
    }
  }

  lemma {:induction false} CancelledIff(events: seq<Event>)
    ensures CurrentCancelled(Run(events)) <==> ShutDown(events)
  {
    if events != [] {
      var n := |events| - 1;
      AlwaysShaped(events[..n]);
      CancelledIff(events[..n]);
      CancelledStep(Run(events[..n]), events[n]);
    }
  }
}
