/** Which queued tasks start when the executor is left alone, and exactly what keeps the others from starting. */
module ExecutorProgress {
  import opened Wrappers
  import opened Executor
  import opened ExecutorShape
  import opened ExecutorHistory
  import opened ExecutorFailures

  /** The current worker will run again. */
  ghost predicate WorkerDue(s: State) {
    s.workers != [] ==>
      var w := |s.workers| - 1;
      || s.workers[w].cancelled || s.workers[w].point.Stopped?
      || w in s.getters || Wake(w) in s.ready || AwaitsPending(s, w)
  }

  predicate AwaitsPending(s: State, w: WorkerId) {
    w < |s.workers| && s.workers[w].point.AtAwait? && s.workers[w].point.future < |s.futures|
    && s.futures[s.workers[w].point.future].outcome == Pending
  }

  predicate Settling(s: State, f: FutureId) {
    f in s.threads || Settle(f, Result) in s.ready || Settle(f, Error) in s.ready
  }

  /** Every pending future will be set. */
  ghost predicate FuturesDue(s: State) {
    forall f :: 0 <= f < |s.futures| && s.futures[f].outcome == Pending ==> Settling(s, f)
  }

  /** Every queued task has its item, unless it was registered too late. */
  ghost predicate ItemsDue(s: State) {
    forall id <- s.queued :: Tracked(s, id) || id in s.late
  }

  ghost predicate Live(s: State) {
    WorkerDue(s) && FuturesDue(s) && ItemsDue(s) && (s.getters != [] ==> s.queue == [])
  }

  // Each operation keeps it

  /** A future is set, and what waits for it is due. */
  lemma {:induction false} CompletedLive(s: State, r: State, f: FutureId, outcome: Outcome)
    requires WorkerDue(s) && ItemsDue(s) && f < |s.futures| && outcome != Pending
    requires forall g :: 0 <= g < |s.futures| && s.futures[g].outcome == Pending && g != f ==> Settling(s, g)
    requires s.getters != [] ==> s.queue == []
    requires r == s.(ready := r.ready, futures := s.futures[f := s.futures[f].(outcome := outcome)])
    requires forall c :: c in s.ready ==> c in r.ready
    requires s.workers != []
    requires var w := |s.workers| - 1; AwaitsPending(s, w) && s.workers[w].point.future == f ==> Wake(w) in r.ready
    ensures Live(r)
  {
    assert WorkerDue(r);
    hide WorkerDue;
    assert ItemsDue(r);
    hide ItemsDue;
    assert FuturesDue(r);
  }

  lemma {:induction false} CompleteLive(s: State, f: FutureId, outcome: Outcome)
    requires Shape(s) && WorkerDue(s) && ItemsDue(s) && f < |s.futures| && outcome != Pending
    requires forall g :: 0 <= g < |s.futures| && s.futures[g].outcome == Pending && g != f ==> Settling(s, g)
    requires s.getters != [] ==> s.queue == []
    ensures Live(Complete(s, f, outcome))
  {
    if s.futures[f].outcome == Pending {
      var r, w := Complete(s, f, outcome), |s.workers| - 1;
      assert w >= 0;
      assert AwaitsPending(s, w) && s.workers[w].point.future == f ==> s.futures[f].waiter == Some(w);
      CompleteReady(s, f, outcome);
      assert s.futures[f].waiter.Some? ==> Wake(s.futures[f].waiter.value) in r.ready;
      assert r == s.(ready := r.ready, futures := s.futures[f := s.futures[f].(outcome := outcome)]);
      hide *;
      CompletedLive(s, r, f, outcome);
    }
  }

  lemma {:induction false} PushLive(s: State, c: Callback)
    requires Live(s)
    ensures Live(s.(ready := s.ready + [c]))
  {
    var r := s.(ready := s.ready + [c]);
    assert forall d :: d in s.ready ==> d in r.ready;
  }

  lemma {:induction false} CancelFlagLive(s: State)
    requires Live(s) && s.workers != []
    ensures var w := |s.workers| - 1; Live(s.(workers := s.workers[w := s.workers[w].(cancelled := true)]))
  {
    var w := |s.workers| - 1;
    var r := s.(workers := s.workers[w := s.workers[w].(cancelled := true)]);
    assert WorkerDue(r);
    hide WorkerDue;
  }

  lemma {:induction false} CancelGetterLive(s: State)
    requires Shape(s) && Live(s) && |s.workers| - 1 in s.getters
    ensures Live(CancelCurrent(s))
  {
    var w := |s.workers| - 1;
    CancelGetterShape(s, w);
    var s2 := s.(workers := s.workers[w := s.workers[w].(cancelled := true)], getters := []);
    assert CancelCurrent(s) == s2.(ready := s2.ready + [Wake(w)]);
    hide Shape;
    hide CancelCurrent;
    assert Live(s2) by { hide Settling; }
    PushLive(s2, Wake(w));
  }

  lemma {:induction false} CancelCurrentLive(s: State)
    requires Shape(s) && Live(s)
    ensures Live(CancelCurrent(s))
  {
    var w := |s.workers| - 1;
    assert w >= 0;
    if w in s.getters {
      CancelGetterLive(s);
    } else {
      CancelFlagLive(s);
      CancelFlagShape(s, w);
      var s1 := s.(workers := s.workers[w := s.workers[w].(cancelled := true)]);
      assert s.workers[w].point.AtAwait? ==> s.workers[w].point.future < |s.futures|;
      assert CancelCurrent(s)
          == if s.workers[w].point.AtAwait? then Complete(s1, s.workers[w].point.future, Cancelled) else s1;
      hide *;
      LiveIs(s1);
      if s.workers[w].point.AtAwait? {
        CompleteLive(s1, s.workers[w].point.future, Cancelled);
      }
    }
  }

  lemma {:induction false} LiveIs(s: State)
    requires Live(s)
    ensures WorkerDue(s) && FuturesDue(s) && ItemsDue(s) && (s.getters != [] ==> s.queue == [])
    ensures forall g :: 0 <= g < |s.futures| && s.futures[g].outcome == Pending ==> Settling(s, g)
  {
    hide WorkerDue;
    hide ItemsDue;
    hide Settling;
  }

  lemma {:induction false} MapsLive(s: State, active: map<TaskId, FutureId>, index: map<FutureId, TaskId>)
    requires Live(s)
    ensures Live(s.(active := active, index := index))
  {
  }

  lemma {:induction false} CancelActiveLive(s: State, id: TaskId)
    requires Shape(s) && Live(s) && id !in s.queued && id in s.active
    ensures Live(CancelTask(s, id))
  {
    var f := s.active[id];
    var active, index := s.active - {id}, s.index - {f};
    var s1 := s.(active := active, index := index);
    IdsShape(s, s1);
    assert f < |s.futures| && CancelTask(s, id) == Complete(s1, f, Cancelled);
    hide *;
    MapsLive(s, active, index);
    LiveIs(s1);
    CompleteLive(s1, f, Cancelled);
  }

  lemma {:induction false} CancelTaskLive(s: State, id: TaskId)
    requires Shape(s) && Live(s)
    ensures Live(CancelTask(s, id))
  {
    if id !in s.queued && id in s.active {
      CancelActiveLive(s, id);
    } else {
      hide Shape;
    }
  }

  lemma {:induction false} CancelEachLive(s: State, ids: seq<TaskId>)
    requires Shape(s) && Live(s)
    ensures Live(CancelEach(s, ids))
    decreases |ids|
  {
    if ids != [] {
      assert CancelEach(s, ids) == CancelEach(CancelTask(s, ids[0]), ids[1..]);
      hide *;
      CancelTaskShape(s, ids[0]);
      CancelTaskLive(s, ids[0]);
      CancelEachLive(CancelTask(s, ids[0]), ids[1..]);
    }
  }

  lemma {:induction false} CancelAllLive(s: State, order: seq<TaskId>)
    requires Shape(s) && Live(s)
    ensures Live(CancelAllTasks(s, order))
  {
    var s1 := DrainQueue(s);
    var s2 := CancelCurrent(s1);
    var s3 := CancelEach(s2, order);
    assert Live(s1);
    DrainShape(s);
    CancelCurrentShape(s1);
    CancelCurrentLive(s1);
    CancelEachLive(s2, order);
    NewWorkerLive(s3);
  }

  lemma {:induction false} NewWorkerLive(s: State)
    requires Live(s)
    ensures Live(NewWorker(s))
  {
    var r := NewWorker(s);
    assert forall d :: d in s.ready ==> d in r.ready;
    assert Wake(|s.workers|) in r.ready;
  }

  /** Taking a callback from the ready queue only affects what that callback was due for. */
  lemma {:induction false} PopLive(s: State)
    requires Live(s) && s.ready != [] && s.workers != []
    ensures var r := s.(ready := s.ready[1..]);
            && (s.ready[0] != Wake(|s.workers| - 1) ==> WorkerDue(r))
            && (!s.ready[0].Settle? ==> FuturesDue(r))
            && (forall g :: 0 <= g < |s.futures| && s.futures[g].outcome == Pending
                            && s.ready[0] != Settle(g, Result) && s.ready[0] != Settle(g, Error)
                  ==> Settling(r, g))
            && (!s.ready[0].Put? ==> ItemsDue(r))
            && (forall id <- s.queued :: Tracked(r, id) || id in s.late || s.ready[0] == Put(id))
  {
    var r := s.(ready := s.ready[1..]);
    forall d | d in s.ready && d != s.ready[0] ensures d in r.ready {
      var i :| 0 <= i < |s.ready| && s.ready[i] == d;
      assert r.ready[i - 1] == d;
    }
  }

  lemma {:induction false} SkipLive(s: State, w: WorkerId)
    requires Running(s, w) && FuturesDue(s) && ItemsDue(s) && s.queue != [] && s.queue[0] !in s.queued
    ensures var r := s.(queue := s.queue[1..]);
            Running(r, w) && FuturesDue(r) && ItemsDue(r) && GetLoop(s, w) == GetLoop(r, w)
  {
    var id, rest := s.queue[0], s.queue[1..];
    assert forall x <- s.queue :: x == id || x in rest;
    hide Shape;
    DiscardRuns(s, w, id, rest, s.started);
    hide Running;
  }

  lemma {:induction false} GetLoopLive(s: State, w: WorkerId)
    requires Running(s, w) && FuturesDue(s) && ItemsDue(s)
    ensures Live(GetLoop(s, w))
    decreases |s.queue|
  {
    if s.queue == [] {
      hide Shape;
      var r := GetLoop(s, w);
      assert r.getters == [w];
      assert Live(r);
    } else if s.queue[0] !in s.queued {
      SkipLive(s, w);
      GetLoopLive(s.(queue := s.queue[1..]), w);
    } else {
      StartLive(s, w);
    }
  }

  lemma {:induction false} StartLive(s: State, w: WorkerId)
    requires Running(s, w) && FuturesDue(s) && ItemsDue(s) && s.queue != [] && s.queue[0] in s.queued
    ensures Live(GetLoop(s, w))
  {
    var id := s.queue[0];
    var f := |s.futures|;
    var r := GetLoop(s, w);
    assert forall x <- s.queue :: x == id || x in s.queue[1..];
    assert r.ready == s.ready && r.getters == [] && r.threads == s.threads + {f};
    assert r.futures == s.futures + [Future(Pending, Some(w), s.queue[0])];
    forall g | 0 <= g < |r.futures| && r.futures[g].outcome == Pending ensures Settling(r, g) {
      if g < f { assert r.futures[g] == s.futures[g] && Settling(s, g); }
    }
    assert AwaitsPending(r, w);
    assert ItemsDue(r);
  }

  /** A worker that was cancelled, or has stopped before, does not go on. */
  lemma {:induction false} ResumeStops(s: State, w: WorkerId)
    requires Shape(s) && Live(s) && s.ready != [] && s.ready[0] == Wake(w) && w < |s.workers|
    requires s.workers[w].cancelled || s.workers[w].point.Stopped?
    ensures Live(Resume(s.(ready := s.ready[1..]), w))
  {
    var s1 := s.(ready := s.ready[1..]);
    var s2, n := s1.WithWorker(w, Stopped), |s.workers| - 1;
    PopLive(s);
    assert w == n || s2.workers[n] == s.workers[n];
    assert WorkerDue(s2) && (w == n || WorkerDue(s1)) && FuturesDue(s1) && ItemsDue(s1);
    hide Shape;
    hide WorkerDue;
    hide GetLoop;
    assert Live(s2) by { hide Settling; hide Tracked; }
    WakeLive(s2);
    assert w == n && s.workers[w].point.Stopped? ==> s2 == s1;
  }

  lemma {:induction false} WakeLive(s: State)
    requires Live(s)
    ensures WakeGetterIfItems(s) == s
  {
    hide WorkerDue;
    hide FuturesDue;
    hide ItemsDue;
  }

  lemma {:induction false} ResumeLive(s: State, w: WorkerId)
    requires Shape(s) && Live(s) && s.ready != [] && s.ready[0] == Wake(w) && w < |s.workers|
    ensures Live(Resume(s.(ready := s.ready[1..]), w))
  {
    if !s.workers[w].cancelled && !s.workers[w].point.Stopped? {
      ResumeGoesOn(s, w);
    } else {
      hide GetLoop;
      ResumeStops(s, w);
    }
  }

  lemma {:induction false} ResumeGoesOn(s: State, w: WorkerId)
    requires Shape(s) && Live(s) && s.ready != [] && s.ready[0] == Wake(w) && w < |s.workers|
    requires !s.workers[w].cancelled && !s.workers[w].point.Stopped?
    ensures Live(Resume(s.(ready := s.ready[1..]), w))
  {
    var s1 := s.(ready := s.ready[1..]);
    PopLive(s);
    ResumedRuns(s, w);
    assert Running(s1, w) && FuturesDue(s1) && ItemsDue(s1) && w == |s.workers| - 1;
    var r := s1.WithWorker(w, Stopped);
    assert Resume(s1, w) == GetLoop(s1, w) || Resume(s1, w) == r;
    assert r.getters == [] && FuturesDue(r) && ItemsDue(r) && WorkerDue(r);
    hide GetLoop;
    hide Resume;
    hide Running;
    GetLoopLive(s1, w);
  }

  lemma {:induction false} SettleLive(s: State)
    requires Shape(s) && Live(s) && s.ready != [] && s.ready[0].Settle?
    ensures Live(RunCallback(s))
  {
    var s1, f, outcome := s.(ready := s.ready[1..]), s.ready[0].future, s.ready[0].outcome;
    assert s.ready[0] in s.ready && CallbackOk(s, s.ready[0]);
    PopLive(s);
    PopShape(s);
    assert s1.getters != [] ==> s1.queue == [];
    assert RunCallback(s) == Complete(s1, f, outcome);
    hide *;
    CompleteLive(s1, f, outcome);
  }

  lemma {:induction false} DoneLive(s: State)
    requires Shape(s) && Live(s) && s.ready != [] && s.ready[0].Done?
    ensures Live(RunCallback(s))
  {
    PopLive(s);
    hide Shape;
  }

  lemma {:induction false} CallbackLive(s: State)
    requires Shape(s) && Live(s) && s.ready != []
    ensures Live(RunCallback(s))
  {
    var s1 := s.(ready := s.ready[1..]);
    assert s.ready[0] in s.ready && CallbackOk(s, s.ready[0]);
    match s.ready[0]
    case Put(id) => PutLive(s);
    case Settle(f, outcome) => SettleLive(s);
    case Done(f) => DoneLive(s);
    case Wake(w) =>
      hide Live;
      ResumeLive(s, w);
  }

  lemma {:induction false} PutLive(s: State)
    requires Shape(s) && Live(s) && s.ready != [] && s.ready[0].Put?
    ensures Live(RunCallback(s))
  {
    var id := s.ready[0].id;
    var s1 := s.(ready := s.ready[1..], queue := s.queue + [id]);
    PopLive(s);
    assert ItemsDue(s1);
    if s.getters != [] {
      var w := s.getters[0];
      var r := WakeGetter(s1);
      assert r == s1.(getters := [], ready := s1.ready + [Wake(w)]) && w == |s.workers| - 1;
      assert forall d :: d in s1.ready ==> d in r.ready;
      assert Wake(w) in r.ready;
      assert FuturesDue(s1);
      forall f | 0 <= f < |r.futures| && r.futures[f].outcome == Pending ensures Settling(r, f) {
        assert Settling(s1, f);
      }
    }
  }

  lemma {:induction false} ScheduleLive(s: State)
    requires Live(s)
    ensures Live(Schedule(s)) && Put(s.nextId) in Schedule(s).ready
  {
    PushLive(s, Put(s.nextId));
  }

  lemma {:induction false} RegisterLive(s: State, id: TaskId)
    requires Live(s)
    ensures Live(Register(s, id))
  {
  }

  lemma {:induction false} EnqueueLive(s: State)
    requires Live(s)
    ensures Live(QueueForExecutor(s))
  {
    ScheduleLive(s);
    RegisterLive(Schedule(s), s.nextId);
    hide Live;
    hide Register;
  }

  lemma {:induction false} StepLive(s: State, e: Event)
    requires Shape(s) && Live(s)
    ensures Live(Step(s, e))
  {
    hide Shape;
    hide Live;
    match e
    case Enqueue => EnqueueLive(s);
    case ForeignSchedule => ScheduleLive(s);
    case ForeignRegister(id) => RegisterLive(s, id);
    case RunDirectly => DirectLive(s);
    case CancelOne(id) => CancelTaskLive(s, id);
    case CancelAll(order) => CancelAllLive(s, order);
    case ResetAll(order) =>
      if Lists(order, s.active.Keys) {
        ResetShape(s, order);
        CancelAllLive(s, order);
      }
    case Shutdown => CancelCurrentLive(s);
    case ThreadEnds(f, outcome) =>
      if f in s.threads && (outcome == Result || outcome == Error) { ThreadLive(s, f, outcome); }
    case RunReady => if s.ready != [] { CallbackLive(s); }
  }

  lemma {:induction false} DirectLive(s: State)
    requires Shape(s) && Live(s)
    ensures Live(RunInExecutor(s))
  {
    var r := RunInExecutor(s);
    forall g | 0 <= g < |r.futures| && r.futures[g].outcome == Pending ensures Settling(r, g) {
      if g < |s.futures| { assert r.futures[g] == s.futures[g] && Settling(s, g); }
    }
    assert r.workers == s.workers && r.getters == s.getters && r.ready == s.ready;
    assert AwaitsPending(s, |s.workers| - 1) ==> AwaitsPending(r, |s.workers| - 1);
    assert forall id <- r.queued :: Tracked(s, id) ==> Tracked(r, id);
  }

  lemma {:induction false} ThreadLive(s: State, f: FutureId, outcome: Outcome)
    requires Live(s) && f in s.threads && (outcome == Result || outcome == Error)
    ensures Live(s.(threads := s.threads - {f}, ready := s.ready + [Settle(f, outcome)]))
  {
    var r := s.(threads := s.threads - {f}, ready := s.ready + [Settle(f, outcome)]);
    assert forall d :: d in s.ready ==> d in r.ready;
    assert Settle(f, outcome) in r.ready;
  }

  lemma {:induction false} AlwaysLive(events: seq<Event>)
    ensures Live(Run(events))
  {
    if events == [] {
      assert Wake(0) in INITIAL.ready;
    } else {
      AlwaysLive(events[..|events| - 1]);
      AlwaysShaped(events[..|events| - 1]);
      StepLive(Run(events[..|events| - 1]), events[|events| - 1]);
    }
  }

  // Steps the executor takes by itself

  /** The loop runs a callback, or a thread returns or raises. */
  predicate Internal(s: State, e: Event) {
    || (e == RunReady && s.ready != [])
    || (e.ThreadEnds? && (e.outcome == Result || e.outcome == Error) && e.future in s.threads)
  }

  predicate Quiescent(s: State) {
    s.ready == [] && s.threads == {}
  }

  function CallbackWeight(c: Callback): nat {
    match c
    case Put(_) => 7
    case Settle(_, _) => 3
    case Done(_) => 1
    case Wake(_) => 1
  }

  function Weight(ready: seq<Callback>): nat {
    if ready == [] then 0 else CallbackWeight(ready[0]) + Weight(ready[1..])
  }

  lemma {:induction false} WeightAppend(a: seq<Callback>, b: seq<Callback>)
    ensures Weight(a + b) == Weight(a) + Weight(b)
  {
    if a == [] {
      assert a + b == b;
    } else {
      assert (a + b)[1..] == a[1..] + b;
      WeightAppend(a[1..], b);
    }
  }

  lemma {:induction false} WeightPush(a: seq<Callback>, c: Callback)
    ensures Weight(a + [c]) == Weight(a) + CallbackWeight(c)
  {
    WeightAppend(a, [c]);
    assert [c][1..] == [];
  }

  /** Bounds the steps the executor can take by itself. */
  function Measure(s: State): nat {
    Weight(s.ready) + 5 * |s.queue| + 4 * |s.threads|
  }

  lemma {:induction false} CompleteMeasure(s: State, f: FutureId, outcome: Outcome)
    requires f < |s.futures|
    ensures Measure(Complete(s, f, outcome)) <= Measure(s) + 2
  {
    WeightPush(s.ready, Done(f));
    var waiter := s.futures[f].waiter;
    if waiter.Some? {
      WeightPush(s.ready + [Done(f)], Wake(waiter.value));
    } else {
      assert s.ready + [Done(f)] + Wakes(waiter) == s.ready + [Done(f)];
    }
  }

  lemma {:induction false} GetLoopMeasure(s: State, w: WorkerId)
    requires w < |s.workers|
    ensures Measure(GetLoop(s, w)) <= Measure(s)
    decreases |s.queue|
  {
    if s.queue != [] && s.queue[0] !in s.queued {
      GetLoopMeasure(s.(queue := s.queue[1..]), w);
    }
  }

  lemma {:induction false} WakeGetterMeasure(s: State)
    ensures Measure(WakeGetter(s)) <= Measure(s) + 1
  {
    if s.getters != [] {
      WeightPush(s.ready, Wake(s.getters[0]));
    }
  }

  lemma {:induction false} ResumeMeasure(s: State, w: WorkerId)
    requires w < |s.workers| && (s.getters != [] ==> s.queue == [])
    ensures Measure(Resume(s, w)) <= Measure(s)
  {
    GetLoopMeasure(s, w);
    hide GetLoop;
  }

  lemma {:induction false} CallbackDecreases(s: State)
    requires s.ready != [] && (s.getters != [] ==> s.queue == [])
    ensures Measure(RunCallback(s)) < Measure(s)
  {
    var s1 := s.(ready := s.ready[1..]);
    assert Measure(s) == Measure(s1) + CallbackWeight(s.ready[0]);
    match s.ready[0]
    case Put(id) => WakeGetterMeasure(s1.(queue := s.queue + [id]));
    case Settle(f, outcome) => if f < |s.futures| { CompleteMeasure(s1, f, outcome); }
    case Done(f) =>
    case Wake(w) => if w < |s.workers| { ResumeMeasure(s1, w); }
  }

  /** Every step the executor takes by itself leaves less to do. */
  lemma {:induction false} InternalDecreases(s: State, e: Event)
    requires Shape(s) && Live(s) && Internal(s, e)
    ensures Measure(Step(s, e)) < Measure(s)
  {
    hide Shape;
    hide WorkerDue;
    hide FuturesDue;
    hide ItemsDue;
    if e == RunReady {
      CallbackDecreases(s);
      hide Measure;
      hide RunCallback;
    } else {
      WeightPush(s.ready, Settle(e.future, e.outcome));
    }
  }

  /** Nothing but a start takes a task from the queued ones. */
  ghost predicate Carries(s: State, r: State) {
    && r.late == s.late
    && (forall id <- s.queued :: id in r.queued || id in r.started)
    && (forall id <- s.started :: id in r.started)
    && r.queued <= s.queued
  }

  lemma {:induction false} GetLoopCarries(s: State, w: WorkerId)
    requires w < |s.workers|
    ensures Carries(s, GetLoop(s, w))
    decreases |s.queue|
  {
    if s.queue != [] && s.queue[0] !in s.queued {
      GetLoopCarries(s.(queue := s.queue[1..]), w);
    }
  }

  lemma {:induction false} ResumeCarries(s: State, w: WorkerId)
    requires w < |s.workers|
    ensures Carries(s, Resume(s, w))
  {
    GetLoopCarries(s, w);
    hide GetLoop;
  }

  lemma {:induction false} InternalCarries(s: State, e: Event)
    requires Shape(s) && Internal(s, e)
    ensures Carries(s, Step(s, e))
  {
    if e == RunReady {
      assert s.ready[0].Done? && s.ready[0].future in s.index ==>
               s.index[s.ready[0].future] in s.active && s.index[s.ready[0].future] !in s.queued;
      hide Shape;
      if s.ready[0].Wake? && s.ready[0].worker < |s.workers| {
        ResumeCarries(s.(ready := s.ready[1..]), s.ready[0].worker);
        hide Resume;
      }
    }
  }

  // Whole runs

  function RunFrom(s: State, events: seq<Event>): State {
    if events == [] then s else Step(RunFrom(s, events[..|events| - 1]), events[|events| - 1])
  }

  lemma {:induction false} RunSplits(history: seq<Event>, events: seq<Event>)
    ensures Run(history + events) == RunFrom(Run(history), events)
  {
    hide Step;
    if events == [] {
      assert history + events == history;
    } else {
      var n := |events| - 1;
      assert (history + events)[..|history| + n] == history + events[..n];
      RunSplits(history, events[..n]);
    }
  }

  predicate InternalRun(s: State, events: seq<Event>) {
    forall i :: 0 <= i < |events| ==> Internal(RunFrom(s, events[..i]), events[i])
  }

  ghost predicate Invariant(s: State) {
    Shape(s) && Hist(s) && Live(s)
  }

  lemma {:induction false} AlwaysInvariant(events: seq<Event>)
    ensures Invariant(Run(events))
  {
    AlwaysShaped(events);
    AlwaysHist(events);
    AlwaysLive(events);
  }

  lemma {:induction false} StepInvariant(s: State, e: Event)
    requires Invariant(s)
    ensures Invariant(Step(s, e))
  {
    hide Shape;
    hide Hist;
    hide Live;
    hide Step;
    StepShape(s, e);
    StepHist(s, e);
    StepLive(s, e);
  }

  lemma {:induction false} ActiveFacts(s: State)
    requires Invariant(s)
    ensures forall id <- s.active :: id !in s.queued && s.active[id] < |s.futures|
  {
    assert s.queued !! s.active.Keys;
  }

  /** Cancelling everything, or resetting, leaves nothing behind. */
  lemma {:induction false} CancelAllEmpties(s: State, order: seq<TaskId>)
    requires Invariant(s) && Lists(order, s.active.Keys)
    ensures var r := CancelAllTasks(s, order);
            r.active == map[] && r.index == map[] && r.queued == {} && r.queue == [] && Reset(s, order) == r
  {
    CancelAllShape(s, order);
    ResetShape(s, order);
    CancelAllHist(s, order);
    assert Rec(CancelAllTasks(s, order)).queue == Rec(DrainQueue(s)).queue;
    hide CancelAllTasks;
  }

  lemma {:induction false} InternalRunKeeps(s: State, events: seq<Event>)
    requires Invariant(s) && InternalRun(s, events)
    ensures var r := RunFrom(s, events); Invariant(r) && Carries(s, r) && |events| + Measure(r) <= Measure(s)
  {
    if events != [] {
      var n := |events| - 1;
      var before, e := events[..n], events[n];
      InternalPrefix(s, events, n);
      var m := RunFrom(s, before);
      assert Internal(m, e);
      assert RunFrom(s, events) == Step(m, e);
      InternalRunKeeps(s, before);
      InternalStepKeeps(m, e);
    }
  }

  lemma {:induction false} InternalStepKeeps(s: State, e: Event)
    requires Invariant(s) && Internal(s, e)
    ensures var r := Step(s, e); Invariant(r) && Carries(s, r) && Measure(r) < Measure(s)
  {
    StepInvariant(s, e);
    InternalCarries(s, e);
    InternalDecreases(s, e);
  }

  // At rest

  /** A function that the current worker awaited raised before its task was cancelled. */
  ghost predicate AwaitedRaised(s: State, raised: set<FutureId>) {
    exists f <- raised :: Awaits(s, f) && s.futures[f].outcome != Cancelled
  }

  /** At rest the worker is gone exactly if the executor was shut down or a function the worker awaited
  raised. What is run directly may raise. */
  lemma {:induction false} NoWorkerIff(events: seq<Event>)
    requires Quiescent(Run(events))
    ensures NoWorker(Run(events)) <==> ShutDown(events) || AwaitedRaised(Run(events), Raised(events))
  {
    var s := Run(events);
    AlwaysInvariant(events);
    AlwaysBlamed(events);
    CancelledIff(events);
    hide Run;
    hide Raised;
    hide ShutDown;
    RaisedAtRest(s, Raised(events));
    StoppedAtRest(s);
  }

  /** At rest a function that raised has given its future the exception, unless that was cancelled. */
  lemma {:induction false} RaisedAtRest(s: State, raised: set<FutureId>)
    requires FuturesDue(s) && Quiescent(s) && Blame(s, raised)
    ensures AwaitedRaised(s, raised) <==> Failed(s)
  {
    assert forall f :: 0 <= f < |s.futures| ==> s.futures[f].outcome != Pending;
  }

  lemma {:induction false} StoppedAtRest(s: State)
    requires Shape(s) && Live(s) && Quiescent(s) && s.workers != [] && Raising(s)
    requires s.workers[|s.workers| - 1].point.Stopped? && !CurrentCancelled(s) ==> Failed(s)
    ensures NoWorker(s) <==> CurrentCancelled(s) || Failed(s)
  {
    var w := |s.workers| - 1;
    assert !AwaitsPending(s, w) by {
      assert forall f :: 0 <= f < |s.futures| && s.futures[f].outcome == Pending ==> Settling(s, f);
    }
  }

  /** At rest with a worker, only tasks registered too late are still queued. */
  lemma {:induction false} QuiescentQueued(s: State)
    requires Shape(s) && Live(s) && Quiescent(s) && !NoWorker(s)
    ensures s.queued <= s.late && s.queue == []
  {
    var w := |s.workers| - 1;
    assert !AwaitsPending(s, w) by {
      assert forall f :: 0 <= f < |s.futures| && s.futures[f].outcome == Pending ==> Settling(s, f);
    }
    assert w in s.getters;
  }

  /** At rest without a worker, what is still queued comes after what has started. */
  lemma {:induction false} QuiescentStalled(s: State, id: TaskId)
    requires Hist(s) && Live(s) && Quiescent(s) && s.started != [] && id !in s.late
    requires id in s.queued || id in s.started
    ensures id in s.started <==> id <= s.started[|s.started| - 1]
  {
    var r := Rec(s);
    var line := Line(r) + [r.nextId];
    var n := |s.started|;
    assert line[n - 1] == s.started[n - 1];
    if id in s.started {
      var i :| 0 <= i < n && s.started[i] == id;
      assert line[i] == id;
    } else {
      var i :| 0 <= i < |s.queue| && s.queue[i] == id;
      assert line[n + i] == id;
    }
  }

  lemma {:induction false} RestedCarries(s: State, r: State)
    requires Carries(s, r) && Hist(r) && r.queued <= r.late
    ensures forall id <- s.queued :: if id in s.late then id in r.queued else id in r.started
    ensures r.queued == s.queued * s.late
  {
    assert forall id <- Rec(r).late :: id !in r.started;
  }

  /** Left alone after any history, the executor comes to rest within `Measure` steps, whatever returns or
  raises. If its worker is still there, every queued task that was not registered too late has then started
  and no other is queued. If a function that the worker awaited raised, its task was started last, and exactly the
  tasks up to that one have started. If the executor was shut down before, none has. */
  lemma {:induction false} EveryQueuedTaskStarts(history: seq<Event>, events: seq<Event>)
    requires InternalRun(Run(history), events)
    ensures |events| <= Measure(Run(history))
    ensures var s, r := Run(history), Run(history + events);
            Quiescent(r) && !NoWorker(r) ==>
              && (forall id <- s.queued :: if id in s.late then id in r.queued else id in r.started)
              && r.queued == s.queued * s.late
    ensures var s, r := Run(history), Run(history + events);
            Quiescent(r) && AwaitedRaised(r, Raised(history + events)) ==>
              && r.started != []
              && (forall f <- Raised(history + events) :: Awaits(r, f) && r.futures[f].outcome != Cancelled ==>
                    r.futures[f].task == r.started[|r.started| - 1])
              && (forall id <- s.queued - s.late :: id in r.started <==> id <= r.started[|r.started| - 1])
              && (forall id <- s.queued - s.late :: id in r.queued <==> id > r.started[|r.started| - 1])
    ensures ShutDown(history) ==> Run(history + events).started == Run(history).started
    ensures var r := Run(history + events);
            Quiescent(r) ==> (NoWorker(r) <==> ShutDown(history) || AwaitedRaised(r, Raised(history + events)))
  {
    var s := Run(history);
    var r := Run(history + events);
    AlwaysInvariant(history);
    RunSplits(history, events);
    InternalRunKeeps(s, events);
    if ShutDown(history) {
      ShutDownStartsNothing(history, events);
    }
    if Quiescent(r) {
      NoWorkerIff(history + events);
      InternalNeverShutsDown(history, events);
      if !NoWorker(r) {
        QuiescentQueued(r);
        RestedCarries(s, r);
      }
      AlwaysBlamed(history + events);
      if AwaitedRaised(r, Raised(history + events)) {
        RaisedStalls(s, r, Raised(history + events));
      }
    }
  }

  lemma {:induction false} RaisedIsLast(s: State, raised: set<FutureId>)
    requires FuturesDue(s) && Quiescent(s) && Blame(s, raised) && AwaitedRaised(s, raised)
    ensures s.started != []
    ensures forall f <- raised :: Awaits(s, f) && s.futures[f].outcome != Cancelled ==>
              s.futures[f].task == s.started[|s.started| - 1]
  {
    assert forall f :: 0 <= f < |s.futures| ==> s.futures[f].outcome != Pending;
  }

  lemma {:induction false} RaisedStalls(s: State, r: State, raised: set<FutureId>)
    requires Carries(s, r) && Invariant(r) && Quiescent(r) && Blame(r, raised) && AwaitedRaised(r, raised)
    ensures r.started != []
    ensures forall f <- raised :: Awaits(r, f) && r.futures[f].outcome != Cancelled ==>
              r.futures[f].task == r.started[|r.started| - 1]
    ensures forall id <- s.queued - s.late :: id in r.started <==> id <= r.started[|r.started| - 1]
    ensures forall id <- s.queued - s.late :: id in r.queued <==> id > r.started[|r.started| - 1]
  {
    RaisedIsLast(r, raised);
    forall id <- s.queued - s.late
      ensures id in r.started <==> id <= r.started[|r.started| - 1]
      ensures id in r.queued <==> id > r.started[|r.started| - 1]
    {
      QuiescentStalled(r, id);
      assert id in Rec(r).queued ==> id !in r.started;
    }
  }

  lemma {:induction false} ShutDownStartsNothing(history: seq<Event>, events: seq<Event>)
    requires ShutDown(history) && InternalRun(Run(history), events)
    ensures RunFrom(Run(history), events).started == Run(history).started
  {
    var s := Run(history);
    CancelledIff(history);
    AlwaysShaped(history);
    assert NoWorker(s);
    forall e <- events ensures !e.CancelAll? && !e.ResetAll? {
      var i :| 0 <= i < |events| && events[i] == e;
      assert Internal(RunFrom(s, events[..i]), events[i]);
    }
    StalledUntilCancelled(s, events);
  }

  lemma {:induction false} InternalNeverShutsDown(history: seq<Event>, events: seq<Event>)
    requires InternalRun(Run(history), events)
    ensures ShutDown(history + events) <==> ShutDown(history)
  {
    hide Run;
    hide RunFrom;
    if events == [] {
      assert history + events == history;
    } else {
      var n := |events| - 1;
      var all := history + events;
      assert all[..|history| + n] == history + events[..n] && all[|history| + n] == events[n];
      assert Internal(RunFrom(Run(history), events[..n]), events[n]);
      assert ShutDown(all) <==> ShutDown(history + events[..n]);
      hide *;
      InternalPrefix(Run(history), events, n);
      InternalNeverShutsDown(history, events[..n]);
    }
  }

  lemma {:induction false} InternalPrefix(s: State, events: seq<Event>, n: nat)
    requires InternalRun(s, events) && n <= |events|
    ensures InternalRun(s, events[..n])
  {
    forall i | 0 <= i < n ensures Internal(RunFrom(s, events[..n][..i]), events[..n][i]) {
      assert events[..n][..i] == events[..i];
    }
  }

  /** Coming to rest is always possible, whichever functions raise. */
  lemma {:induction false} ComesToRest(s: State, raises: FutureId -> bool) returns (events: seq<Event>)
    requires Invariant(s)
    ensures InternalRun(s, events) && Quiescent(RunFrom(s, events))
    ensures forall e <- events :: e.ThreadEnds? ==> e.outcome == if raises(e.future) then Error else Result
    decreases Measure(s)
  {
    if Quiescent(s) {
      events := [];
    } else {
      var e: Event;
      if s.ready != [] {
        e := RunReady;
      } else {
        var f :| f in s.threads;
        e := ThreadEnds(f, if raises(f) then Error else Result);
      }
      assert Internal(s, e);
      hide *;
      InternalStepKeeps(s, e);
      var rest := ComesToRest(Step(s, e), raises);
      events := [e] + rest;
      PrependRun(s, e, rest);
      PrependInternal(s, e, rest);
    }
  }

  lemma {:induction false} PrependInternal(s: State, e: Event, rest: seq<Event>)
    requires Internal(s, e) && InternalRun(Step(s, e), rest)
    ensures InternalRun(s, [e] + rest)
  {
    var events := [e] + rest;
    forall i | 0 <= i < |events| ensures Internal(RunFrom(s, events[..i]), events[i]) {
      if i > 0 {
        assert events[..i] == [e] + rest[..i - 1];
        PrependRun(s, e, rest[..i - 1]);
        assert events[i] == rest[i - 1];
      }
    }
  }

  lemma {:induction false} PrependRun(s: State, e: Event, rest: seq<Event>)
    ensures RunFrom(s, [e] + rest) == RunFrom(Step(s, e), rest)
  {
    hide Step;
    if rest == [] {
      assert [e] + rest == [e] && [e][..0] == [];
      assert RunFrom(s, []) == s;
    } else {
      var n := |rest| - 1;
      assert ([e] + rest)[..n + 1] == [e] + rest[..n];
      PrependRun(s, e, rest[..n]);
    }
  }

  // When a queued task does not start

  /** With every call made on the loop's own thread, no task is registered late. */
  lemma {:induction false} LoopThreadIsNeverLate(events: seq<Event>)
    requires forall e <- events :: !e.ForeignSchedule?
    ensures Run(events).late == {} && Run(events).unregistered == {}
  {
    if events != [] {
      var n := |events| - 1;
      LoopThreadIsNeverLate(events[..n]);
      AlwaysHist(events[..n]);
      LateStep(Run(events[..n]), events[n]);
    }
  }

  /** Only the second half of a foreign call makes a task late, and exactly when its item is gone by then. */
  lemma {:induction false} LateStep(s: State, e: Event)
    requires Hist(s)
    ensures Step(s, e).late
         == if e.ForeignRegister? && e.id in s.unregistered && !Tracked(s, e.id) then s.late + {e.id} else s.late
    ensures !e.ForeignSchedule? ==> Step(s, e).unregistered <= s.unregistered
  {
    match e
    case Enqueue =>
      assert Put(s.nextId) in Schedule(s).ready;
    case CancelOne(id) => CancelTaskHist(s, id);
      CancelTaskLate(s, id);
    case CancelAll(order) =>
      CancelAllHist(s, order);
      assert Rec(CancelAllTasks(s, order)) == Rec(DrainQueue(s));
    case ResetAll(order) =>
      CancelAllHist(s, order);
      assert Rec(CancelAllTasks(s, order)) == Rec(DrainQueue(s));
    case Shutdown =>
      CancelCurrentRec(s);
      assert Rec(CancelCurrent(s)).late == s.late;
    case RunReady => CallbackLate(s);
    case _ =>
  }

  lemma {:induction false} CancelTaskLate(s: State, id: TaskId)
    ensures CancelTask(s, id).late == s.late && CancelTask(s, id).unregistered == s.unregistered
  {
  }

  lemma {:induction false} CallbackLate(s: State)
    ensures RunCallback(s).late == s.late && RunCallback(s).unregistered == s.unregistered
  {
    if s.ready != [] && s.ready[0].Wake? && s.ready[0].worker < |s.workers| {
      GetLoopLate(s.(ready := s.ready[1..]), s.ready[0].worker);
    }
  }

  lemma {:induction false} GetLoopLate(s: State, w: WorkerId)
    requires w < |s.workers|
    ensures GetLoop(s, w).late == s.late && GetLoop(s, w).unregistered == s.unregistered
    decreases |s.queue|
  {
    if s.queue != [] && s.queue[0] !in s.queued {
      GetLoopLate(s.(queue := s.queue[1..]), w);
    }
  }

  lemma {:induction false} LateStays(events: seq<Event>, more: seq<Event>)
    ensures Run(events).late <= Run(events + more).late
  {
    if more == [] {
      assert events + more == events;
    } else {
      var n := |more| - 1;
      assert (events + more)[..|events| + n] == events + more[..n];
      assert Run(events + more) == Step(Run(events + more[..n]), more[n]);
      hide *;
      LateStays(events, more[..n]);
      AlwaysHist(events + more[..n]);
      LateStep(Run(events + more[..n]), more[n]);
    }
  }

  /** A late task never starts, whatever happens next. */
  lemma {:induction false} LateNeverStarts(events: seq<Event>, more: seq<Event>, id: TaskId)
    requires id in Run(events).late
    ensures id !in Run(events + more).started
  {
    LateStays(events, more);
    AlwaysHist(events + more);
    assert id in Rec(Run(events + more)).late;
  }

  lemma {:induction false} RunPush(events: seq<Event>, i: nat)
    requires i < |events|
    ensures Run(events[..i + 1]) == Step(Run(events[..i]), events[i])
  {
    hide Step;
    assert events[..i + 1][..i] == events[..i];
  }

  // A foreign call registers its task too late: the events, and the state after each

  const LOSING_RUN := [RunReady, ForeignSchedule, RunReady, RunReady, ForeignRegister(0)]

  function LosingState(i: nat): State {
    var s := INITIAL.(ready := [], workers := [Worker(AtGet, false)]);
    match i
    case 0 => INITIAL
    case 1 => s.(getters := [0])
    case 2 => s.(getters := [0], ready := [Put(0)], nextId := 1, unregistered := {0})
    case 3 => s.(ready := [Wake(0)], queue := [0], nextId := 1, unregistered := {0})
    case 4 => s.(getters := [0], nextId := 1, unregistered := {0})
    case _ => s.(getters := [0], nextId := 1, queued := {0}, late := {0})
  }

  lemma {:induction false} LosingResumes(i: nat)
    requires i == 0 || i == 3
    ensures Step(LosingState(i), RunReady) == LosingState(i + 1)
  {
    var s := LosingState(i).(ready := []);
    assert Step(LosingState(i), RunReady) == Resume(s, 0) == GetLoop(s, 0);
    assert i == 3 ==> GetLoop(s, 0) == GetLoop(s.(queue := []), 0);
  }

  lemma {:induction false} LosingCalls(i: nat)
    requires i == 1 || i == 2 || i == 4
    ensures Step(LosingState(i), LOSING_RUN[i]) == LosingState(i + 1)
  {
  }

  lemma {:induction false} LosingRun(i: nat)
    requires i <= 5
    ensures Run(LOSING_RUN[..i]) == LosingState(i)
  {
    if i == 0 {
      assert LOSING_RUN[..0] == [];
    } else {
      var k := i - 1;
      assert k < |LOSING_RUN| && (k == 0 || k == 3 ==> LOSING_RUN[k] == RunReady);
      hide *;
      LosingRun(k);
      RunPush(LOSING_RUN, k);
      if k == 0 || k == 3 { LosingResumes(k); } else { LosingCalls(k); }
    }
  }

  /** It does happen: another thread schedules its item, the loop takes and discards it, and only then is the
  task registered. The executor is at rest with task 0 queued for good. */
  lemma {:induction false} ForeignCallCanLoseTask()
    ensures var s := Run(LOSING_RUN);
            Quiescent(s) && !NoWorker(s) && s.queued == {0} && s.late == {0} && s.started == []
  {
    LosingRun(5);
    assert LOSING_RUN[..5] == LOSING_RUN;
    hide Run;
    assert LosingState(5).workers[0] == Worker(AtGet, false);
  }

  // Of two queued tasks the first raises: the events, and the state after each

  const RAISING_RUN := [RunReady, Enqueue, Enqueue, RunReady, RunReady, RunReady, ThreadEnds(0, Error),
                        RunReady, RunReady, RunReady]

  function RaisingState(i: nat): State {
    var s := INITIAL.(workers := [Worker(AtGet, false)]);
    var t := s.(nextId := 2, queued := {1}, queue := [1], started := [0], workers := [Worker(AtAwait(0), false)]);
    var maps := t.(active := map[0 := 0], index := map[0 := 0]);
    match i
    case 0 => INITIAL
    case 1 => s.(ready := [], getters := [0])
    case 2 => s.(ready := [Put(0)], getters := [0], nextId := 1, queued := {0})
    case 3 => s.(ready := [Put(0), Put(1)], getters := [0], nextId := 2, queued := {0, 1})
    case 4 => s.(ready := [Put(1), Wake(0)], nextId := 2, queued := {0, 1}, queue := [0])
    case 5 => s.(ready := [Wake(0)], nextId := 2, queued := {0, 1}, queue := [0, 1])
    case 6 => maps.(ready := [], futures := [Future(Pending, Some(0), 0)], threads := {0})
    case 7 => maps.(ready := [Settle(0, Error)], futures := [Future(Pending, Some(0), 0)])
    case 8 => maps.(ready := [Done(0), Wake(0)], futures := [Future(Error, Some(0), 0)])
    case 9 => t.(ready := [Wake(0)], futures := [Future(Error, Some(0), 0)])
    case _ => t.(ready := [], futures := [Future(Error, Some(0), 0)], workers := [Worker(Stopped, false)])
  }

  lemma {:induction false} RaisingEnqueues(i: nat)
    requires 1 <= i < 3
    ensures Step(RaisingState(i), Enqueue) == RaisingState(i + 1)
  {
    var s := RaisingState(i);
    assert Schedule(s).ready[|s.ready|] == Put(s.nextId);
  }

  lemma {:induction false} RaisingPuts(i: nat)
    requires 3 <= i < 5
    ensures Step(RaisingState(i), RunReady) == RaisingState(i + 1)
  {
  }

  lemma {:induction false} RaisingResumes(i: nat)
    requires i == 0 || i == 5 || i == 9
    ensures Step(RaisingState(i), RunReady) == RaisingState(i + 1)
  {
    var s := RaisingState(i).(ready := []);
    assert Step(RaisingState(i), RunReady) == Resume(s, 0);
  }

  lemma {:induction false} RaisingEnds(i: nat)
    requires 6 <= i < 9
    ensures Step(RaisingState(i), RAISING_RUN[i]) == RaisingState(i + 1)
  {
    var s := RaisingState(i).(ready := []);
    if i == 7 {
      assert Step(RaisingState(7), RunReady) == Complete(s, 0, Error);
    } else if i == 8 {
      assert Step(RaisingState(8), RunReady) == RemoveDone(s.(ready := [Wake(0)]), 0);
    }
  }

  lemma {:induction false} RaisingRun(i: nat)
    requires i <= 10
    ensures Run(RAISING_RUN[..i]) == RaisingState(i)
  {
    if i == 0 {
      assert RAISING_RUN[..0] == [];
    } else {
      var k := i - 1;
      assert k < |RAISING_RUN| && (1 <= k < 3 ==> RAISING_RUN[k] == Enqueue);
      assert k == 0 || 3 <= k < 6 || k == 9 ==> RAISING_RUN[k] == RunReady;
      hide *;
      RaisingRun(k);
      RunPush(RAISING_RUN, k);
      if 1 <= k < 3 { RaisingEnqueues(k); }
      else if 3 <= k < 5 { RaisingPuts(k); }
      else if 6 <= k < 9 { RaisingEnds(k); }
      else { RaisingResumes(k); }
    }
  }

  /** It does happen: the first of two queued tasks raises. The executor is then at rest without a worker, and the
  second task stays queued. */
  lemma {:induction false} ExceptionStopsWorker()
    ensures var s := Run(RAISING_RUN);
            Quiescent(s) && NoWorker(s) && s.started == [0] && s.queued == {1} && s.late == {}
  {
    RaisingRun(10);
    assert RAISING_RUN[..10] == RAISING_RUN;
    hide Run;
  }

  lemma {:induction false} NoWorkerCallback(s: State)
    requires NoWorker(s)
    ensures NoWorker(RunCallback(s)) && RunCallback(s).started == s.started
  {
    hide GetLoop;
  }

  /** Without a worker nothing starts until everything is cancelled, however much is queued. */
  lemma {:induction false} NoWorkerStartsNothing(s: State, e: Event)
    requires NoWorker(s) && !e.CancelAll? && !e.ResetAll?
    ensures NoWorker(Step(s, e)) && Step(s, e).started == s.started
  {
    match e
    case CancelOne(id) => assert CancelTask(s, id).workers == s.workers;
    case RunReady => NoWorkerCallback(s);
    case _ => hide GetLoop; hide RunCallback;
  }

  lemma {:induction false} StalledUntilCancelled(s: State, events: seq<Event>)
    requires NoWorker(s) && forall e <- events :: !e.CancelAll? && !e.ResetAll?
    ensures RunFrom(s, events).started == s.started && NoWorker(RunFrom(s, events))
  {
    if events != [] {
      StalledUntilCancelled(s, events[..|events| - 1]);
      NoWorkerStartsNothing(RunFrom(s, events[..|events| - 1]), events[|events| - 1]);
    }
  }
}
