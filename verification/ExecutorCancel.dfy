/** What cancelling does to futures and to the worker that awaits them. */
module ExecutorCancel {
  import opened Wrappers
  import opened Executor
  import opened ExecutorShape
  import opened ExecutorHistory
  import opened ExecutorFailures
  import opened ExecutorProgress

  // One task

  /** Cancelling an active task takes it out of both maps. A future that was pending is cancelled, and its done callback
  and the resumption of its waiter are due, in this order; one that was set keeps its outcome. Nothing else changes. */
  lemma {:induction false} CancelActiveTask(events: seq<Event>, id: TaskId)
    requires id in Run(events).active
    ensures var s, r := Run(events), Run(events + [CancelOne(id)]);
            var f := s.active[id];
            && f < |s.futures|
            && r == s.(active := s.active - {id}, index := s.index - {f}, futures := r.futures, ready := r.ready)
            && if s.futures[f].outcome == Pending then
                 && r.futures == s.futures[f := s.futures[f].(outcome := Cancelled)]
                 && r.ready == s.ready + [Done(f)]
                               + (if s.futures[f].waiter.Some? then [Wake(s.futures[f].waiter.value)] else [])
               else r.futures == s.futures && r.ready == s.ready
  {
    hide *;
    CancelOneStep(events, id);
    AlwaysInvariant(events);
    ActiveFacts(Run(events));
    CancelActive(Run(events), id);
  }

  lemma {:induction false} CancelOneStep(events: seq<Event>, id: TaskId)
    ensures Run(events + [CancelOne(id)]) == CancelTask(Run(events), id)
  {
    hide CancelTask;
    assert (events + [CancelOne(id)])[..|events|] == events;
  }

  lemma {:induction false} CancelActive(s: State, id: TaskId)
    requires id in s.active && id !in s.queued && s.active[id] < |s.futures|
    ensures var r, f := CancelTask(s, id), s.active[id];
            && r == s.(active := s.active - {id}, index := s.index - {f}, futures := r.futures, ready := r.ready)
            && if s.futures[f].outcome == Pending then
                 && r.futures == s.futures[f := s.futures[f].(outcome := Cancelled)]
                 && r.ready == s.ready + [Done(f)]
                               + (if s.futures[f].waiter.Some? then [Wake(s.futures[f].waiter.value)] else [])
               else r.futures == s.futures && r.ready == s.ready
  {
  }

  // All tasks

  /** Futures are left alone, or cancelled while pending. */
  ghost predicate OnlyCancels(s: State, r: State) {
    |r.futures| == |s.futures| &&
    forall f :: 0 <= f < |s.futures| ==>
      || r.futures[f] == s.futures[f]
      || (s.futures[f].outcome == Pending && r.futures[f] == s.futures[f].(outcome := Cancelled))
  }

  lemma {:induction false} CancelsTwice(s: State, a: State, r: State)
    requires OnlyCancels(s, a) && OnlyCancels(a, r)
    ensures OnlyCancels(s, r)
    ensures forall f :: 0 <= f < |r.futures| && a.futures[f].outcome != Pending ==> r.futures[f].outcome != Pending
  {
  }

  lemma {:induction false} ActiveBounded(s: State)
    requires Shape(s)
    ensures forall id <- s.active :: s.active[id] < |s.futures|
  {
  }

  /** The future of this task is not pending. */
  predicate NotPending(s: State, r: State, id: TaskId) {
    id in s.active ==> s.active[id] < |r.futures| && r.futures[s.active[id]].outcome != Pending
  }

  lemma {:induction false} CancelTaskCancels(s: State, id: TaskId)
    requires Shape(s) && s.queued == {}
    ensures var r := CancelTask(s, id);
            && OnlyCancels(s, r) && r.queued == {} && r.active == s.active - {id}
            && (id in s.active ==> r.futures[s.active[id]].outcome != Pending)
  {
  }

  lemma {:induction false} CancelEachCancels(s: State, ids: seq<TaskId>)
    requires Shape(s) && s.queued == {}
    ensures OnlyCancels(s, CancelEach(s, ids))
    ensures forall id <- ids :: NotPending(s, CancelEach(s, ids), id)
    decreases |ids|
  {
    if ids != [] {
      var s1 := CancelTask(s, ids[0]);
      assert CancelEach(s, ids) == CancelEach(s1, ids[1..]);
      ActiveBounded(s);
      CancelTaskCancels(s, ids[0]);
      hide Shape;
      hide CancelEach;
      hide CancelTask;
      CancelTaskShape(s, ids[0]);
      var r := CancelEach(s1, ids[1..]);
      CancelEachCancels(s1, ids[1..]);
      CancelsTwice(s, s1, r);
      assert |s1.futures| == |s.futures| && |r.futures| == |s.futures|;
      hide OnlyCancels;
      forall id <- ids ensures NotPending(s, r, id) {
        if id != ids[0] { assert id in ids[1..] && NotPending(s1, r, id); }
      }
    }
  }

  lemma {:induction false} CancelCurrentCancels(s: State)
    ensures var r := CancelCurrent(s); OnlyCancels(s, r) && r.active == s.active && r.queued == s.queued
  {
  }

  lemma {:induction false} CancelAllSteps(s: State, order: seq<TaskId>)
    ensures var s1 := DrainQueue(s);
            && s1.futures == s.futures && s1.active == s.active && s1.queued == {}
            && CancelAllTasks(s, order).futures == CancelEach(CancelCurrent(s1), order).futures
  {
    hide CancelEach;
    hide CancelCurrent;
  }

  lemma {:induction false} CancelAllCancels(s: State, order: seq<TaskId>)
    requires Shape(s)
    ensures OnlyCancels(s, CancelAllTasks(s, order))
    ensures forall id <- order :: NotPending(s, CancelAllTasks(s, order), id)
  {
    var s1 := DrainQueue(s);
    var s2 := CancelCurrent(s1);
    CancelAllSteps(s, order);
    CancelCurrentCancels(s1);
    hide Shape;
    hide CancelEach;
    hide CancelCurrent;
    hide DrainQueue;
    hide CancelAllTasks;
    DrainShape(s);
    CancelCurrentShape(s1);
    CancelEachCancels(s2, order);
    CancelsTwice(s1, s2, CancelEach(s2, order));
    forall id <- order ensures NotPending(s, CancelAllTasks(s, order), id) {
      assert NotPending(s2, CancelEach(s2, order), id);
    }
  }

  /** Cancelling everything leaves no future of an active task pending: those that were are cancelled, and those that
  were set keep their outcome. */
  lemma {:induction false} CancelAllFutures(events: seq<Event>, order: seq<TaskId>)
    requires Lists(order, Run(events).active.Keys)
    ensures var s, r := Run(events), Run(events + [CancelAll(order)]);
            forall id <- s.active ::
              && s.active[id] < |s.futures| && s.active[id] < |r.futures|
              && r.futures[s.active[id]].outcome
                 == if s.futures[s.active[id]].outcome == Pending then Cancelled else s.futures[s.active[id]].outcome
  {
    var s := Run(events);
    assert (events + [CancelAll(order)])[..|events|] == events;
    assert Run(events + [CancelAll(order)]) == CancelAllTasks(s, order) by {
      hide CancelAllTasks;
    }
    AlwaysShaped(events);
    ActiveBounded(s);
    hide Run;
    hide Shape;
    hide CancelAllTasks;
    CancelAllCancels(s, order);
    forall id <- s.active ensures id in order && NotPending(s, CancelAllTasks(s, order), id) {
    }
  }

  // The worker goes on

  /** The loop runs `n` callbacks; no thread ends and nothing is called. */
  function Loop(s: State, n: nat): State {
    if n == 0 then s else RunCallback(Loop(s, n - 1))
  }

  /** From the top of its loop a worker waits, or it starts one queued task and awaits it. */
  ghost predicate Took(s: State, r: State, w: WorkerId) {
    && w < |s.workers| && |r.workers| == |s.workers| && r.workers[w].cancelled == s.workers[w].cancelled
    && (forall v :: 0 <= v < |s.workers| && v != w ==> r.workers[v] == s.workers[v])
    && r.ready == s.ready && r.queued <= s.queued
    && if r.started == s.started
       then r.workers[w].point == AtGet && r.futures == s.futures && r.threads == s.threads
       else
         exists id <- s.queued ::
           && r.started == s.started + [id] && r.workers[w].point == AtAwait(|s.futures|)
           && r.futures == s.futures + [Future(Pending, Some(w), id)] && r.threads == s.threads + {|s.futures|}
  }

  lemma {:induction false} GetLoopTakes(s: State, w: WorkerId)
    requires w < |s.workers|
    ensures Took(s, GetLoop(s, w), w)
    decreases |s.queue|
  {
    if s.queue != [] && s.queue[0] !in s.queued {
      var s1 := s.(queue := s.queue[1..]);
      GetLoopTakes(s1, w);
      assert GetLoop(s, w) == GetLoop(s1, w);
      hide GetLoop;
    } else if s.queue != [] {
      var r := GetLoop(s, w);
      assert r.started == s.started + [s.queue[0]];
      assert |r.started| != |s.started|;
    }
  }

  /** The current worker goes on: it was not told to stop, nothing it awaits has raised or is about to, and it awaits a
  pending future only if it has started one since. */
  ghost predicate GoesOn(s: State, t: State) {
    && t.workers != [] && |t.workers| == |s.workers| && !CurrentCancelled(t) && !Failed(t)
    && !t.workers[|t.workers| - 1].point.Stopped?
    && (forall g :: 0 <= g < |t.futures| && Awaits(t, g) && t.futures[g].outcome == Pending ==>
          g in t.threads && Settle(g, Result) !in t.ready && Settle(g, Error) !in t.ready)
    && StartsFrom(s, t)
    && (AwaitsPending(t, |t.workers| - 1) ==> |t.started| > |s.started|)
  }

  /** What has started since `s` was queued in it, and what was queued in it is still so or has started. */
  ghost predicate StartsFrom(s: State, t: State) {
    && |s.started| <= |t.started| && t.started[..|s.started|] == s.started
    && (forall i :: |s.started| <= i < |t.started| ==> t.started[i] in s.queued)
    && t.queued <= s.queued && t.late == s.late
    && (forall id <- s.queued :: id in t.queued || id in t.started)
  }

  lemma {:induction false} CancelledGoesOn(s: State, id: TaskId)
    requires Shape(s) && !CurrentCancelled(s) && id in s.active
    requires s.active[id] < |s.futures| && s.futures[s.active[id]].outcome == Pending
    requires s.futures[s.active[id]].waiter.Some?
    requires Raising(s)
    ensures GoesOn(s, CancelTask(s, id))
  {
    var f, w := s.active[id], |s.workers| - 1;
    assert s.workers[w].point == AtAwait(f) && s.futures[f].waiter == Some(w);
    var r := CancelTask(s, id);
    assert r.workers == s.workers && r.futures == s.futures[f := s.futures[f].(outcome := Cancelled)];
    assert r.started == s.started && r.queued == s.queued && r.late == s.late && r.started[..|s.started|] == s.started;
    assert forall g :: 0 <= g < |s.futures| ==> (Awaits(r, g) <==> Awaits(s, g));
    assert forall g :: 0 <= g < |s.futures| && Awaits(s, g) && s.futures[g].outcome == Pending ==> g == f;
    assert forall g :: 0 <= g < |s.futures| && Awaits(s, g) && s.futures[g].outcome == Error ==> g == f;
  }

  lemma {:induction false} SameGoesOn(s: State, t: State, r: State)
    requires GoesOn(s, t)
    requires |r.workers| == |t.workers| && r.workers[|t.workers| - 1] == t.workers[|t.workers| - 1]
    requires r.futures == t.futures && r.threads == t.threads
    requires r.started == t.started && r.queued == t.queued && r.late == t.late
    requires forall c <- r.ready :: c.Settle? ==> c in t.ready
    ensures GoesOn(s, r)
  {
    assert forall g :: 0 <= g < |t.futures| ==> (Awaits(r, g) <==> Awaits(t, g));
  }

  lemma {:induction false} TookStarts(s: State, t: State, r: State, w: WorkerId)
    requires StartsFrom(s, t) && Took(t, r, w) && r.late == t.late
    requires forall id <- t.queued :: id in r.queued || id in r.started
    ensures StartsFrom(s, r) && |t.started| <= |r.started|
  {
    var n := |s.started|;
    assert |t.started| <= |r.started| && r.started[..|t.started|] == t.started;
    assert r.started[..n] == r.started[..|t.started|][..n];
    assert forall i :: 0 <= i < |t.started| ==> r.started[i] == r.started[..|t.started|][i];
    assert forall id <- t.started :: id in r.started;
  }

  lemma {:induction false} TookGoesOn(s: State, t: State, r: State)
    requires GoesOn(s, t) && Took(t, r, |t.workers| - 1) && r.late == t.late && Bounded(t)
    requires forall id <- t.queued :: id in r.queued || id in r.started
    ensures GoesOn(s, r)
  {
    TookStarts(s, t, r, |t.workers| - 1);
    assert |s.started| <= |t.started|;
    hide StartsFrom;
    assert forall g :: 0 <= g < |t.futures| ==> r.futures[g] == t.futures[g] && (Awaits(r, g) <==> Awaits(t, g));
    assert forall c <- t.ready :: CallbackOk(t, c);
    hide Bounded;
  }

  lemma {:induction false} SettleGoesOn(s: State, t: State, g: FutureId, outcome: Outcome)
    requires GoesOn(s, t) && g < |t.futures|
    requires Awaits(t, g) && t.futures[g].outcome == Pending ==> outcome == Cancelled
    ensures GoesOn(s, Complete(t, g, outcome))
  {
    if t.futures[g].outcome == Pending {
      var r := Complete(t, g, outcome);
      CompleteReady(t, g, outcome);
      assert r == t.(futures := t.futures[g := t.futures[g].(outcome := outcome)], ready := r.ready);
      assert forall c <- r.ready :: c.Settle? ==> c in t.ready;
      hide Complete;
      assert forall h :: 0 <= h < |t.futures| ==> (Awaits(r, h) <==> Awaits(t, h));
    }
  }

  lemma {:induction false} WakeGoesOn(s: State, t: State, w: WorkerId)
    requires GoesOn(s, t) && Bounded(t) && OneWorker(t) && w < |t.workers|
    ensures GoesOn(s, Resume(t, w))
  {
    if w == |t.workers| - 1 {
      assert Resume(t, w) == GetLoop(t, w) by { hide GetLoop; }
      GetLoopTakes(t, w);
      GetLoopCarries(t, w);
      hide GetLoop;
      hide Resume;
      TookGoesOn(s, t, GetLoop(t, w));
    } else {
      hide GetLoop;
      SameGoesOn(s, t, Resume(t, w));
    }
  }

  lemma {:induction false} DoneQueued(s: State, f: FutureId)
    requires Shape(s)
    ensures f in s.index ==> s.queued - {s.index[f]} == s.queued
  {
    assert f in s.index ==> s.index[f] in s.active;
  }

  lemma {:induction false} PopGoesOn(s: State, t: State)
    requires GoesOn(s, t) && Shape(t) && t.ready != []
    ensures CallbackOk(t, t.ready[0])
    ensures var t1, c := t.(ready := t.ready[1..]), t.ready[0];
            && GoesOn(s, t1)
            && (c.Settle? && Awaits(t1, c.future) && t1.futures[c.future].outcome == Pending ==> c.outcome == Cancelled)
  {
    var t1 := t.(ready := t.ready[1..]);
    assert t.ready[0] in t.ready && CallbackOk(t, t.ready[0]);
    hide Shape;
    assert forall c <- t1.ready :: c in t.ready;
    SameGoesOn(s, t, t1);
  }

  lemma {:induction false} CallbackGoesOn(s: State, t: State)
    requires GoesOn(s, t) && Shape(t)
    ensures GoesOn(s, RunCallback(t))
  {
    if t.ready != [] {
      var t1 := t.(ready := t.ready[1..]);
      PopGoesOn(s, t);
      match t.ready[0]
      case Put(id) =>
        hide Shape;
        hide GoesOn;
        SameGoesOn(s, t1, RunCallback(t));
      case Settle(f, outcome) =>
        hide Shape;
        hide GoesOn;
        hide Complete;
        SettleGoesOn(s, t1, f, outcome);
      case Done(f) =>
        DoneQueued(t, f);
        hide Shape;
        hide GoesOn;
        SameGoesOn(s, t1, RunCallback(t));
      case Wake(w) =>
        PopShape(t);
        hide GoesOn;
        hide Resume;
        WakeGoesOn(s, t1, w);
    }
  }

  lemma {:induction false} LoopNone(s: State)
    ensures Loop(s, 0) == s
  {
  }

  lemma {:induction false} LoopOne(s: State, n: nat)
    requires n > 0
    ensures Loop(s, n) == RunCallback(Loop(s, n - 1)) == Step(Loop(s, n - 1), RunReady)
  {
    hide RunCallback;
  }

  lemma {:induction false} InvariantShape(s: State)
    requires Invariant(s)
    ensures Shape(s)
  {
    hide Shape;
    hide Hist;
    hide Live;
  }

  lemma {:induction false} LoopGoesOn(s: State, t: State, n: nat)
    requires GoesOn(s, t) && Invariant(t)
    ensures GoesOn(s, Loop(t, n)) && Invariant(Loop(t, n))
  {
    hide *;
    if n == 0 {
      LoopNone(t);
    } else {
      LoopOne(t, n);
      LoopGoesOn(s, t, n - 1);
      InvariantShape(Loop(t, n - 1));
      StepInvariant(Loop(t, n - 1), RunReady);
      CallbackGoesOn(s, Loop(t, n - 1));
    }
  }

  // What it starts

  lemma {:induction false} WholeOrLonger(a: seq<TaskId>, b: seq<TaskId>)
    requires |a| <= |b| && b[..|a|] == a
    ensures |b| > |a| || b == a
  {
    if |b| == |a| { assert b[..|a|] == b; }
  }

  /** When the loop has nothing left to run, the worker waits, or it has started the first of the queued tasks. */
  lemma {:induction false} IdleStarted(s: State, t: State)
    requires GoesOn(s, t) && Invariant(t) && t.ready == [] && s.queued - s.late != {}
    requires forall id <- s.queued :: id !in s.started
    ensures |t.started| > |s.started|
  {
    var w := |t.workers| - 1;
    WholeOrLonger(s.started, t.started);
    if !AwaitsPending(t, w) {
      assert WorkerDue(t) && w in t.getters && t.queue == [];
      var id :| id in s.queued - s.late;
      assert id in t.queued ==> Tracked(t, id) || id in t.late;
      assert id in t.started;
    }
  }

  lemma {:induction false} FirstStarted(s: State, t: State, id: TaskId)
    requires GoesOn(s, t) && Invariant(t) && t.ready == [] && |t.started| > |s.started|
    requires id in s.queued - s.late && id !in s.started
    ensures t.started[|s.started|] <= id
  {
    var r, n := Rec(t), |s.started|;
    var line := Line(r) + [r.nextId];
    assert Ordered(r) && line[n] == t.started[n];
    assert id in t.started || id in t.queue by {
      if id !in t.started { assert Tracked(t, id) || id in t.late; }
    }
    hide Invariant;
    assert forall i :: 0 <= i < n ==> t.started[..n][i] == t.started[i] && s.started[i] in s.started;
    if id in t.started {
      var i :| 0 <= i < |t.started| && t.started[i] == id;
      assert line[i] == id;
    } else {
      var i :| 0 <= i < |t.queue| && t.queue[i] == id;
      assert line[|t.started| + i] == id;
    }
  }

  /** Once the task that the worker awaits is cancelled, the loop's own callbacks start the next task: when none is left
  to run, with no thread having ended, the first of the tasks that were queued and not late has started. */
  lemma {:induction false} CancelStartsNext(history: seq<Event>, id: TaskId, n: nat)
    requires var s := Run(history);
             && !CurrentCancelled(s) && id in s.active && s.active[id] < |s.futures|
             && s.futures[s.active[id]].outcome == Pending && s.futures[s.active[id]].waiter.Some?
             && s.queued - s.late != {}
    requires Loop(CancelTask(Run(history), id), n).ready == []
    ensures var s, r := Run(history), Loop(CancelTask(Run(history), id), n);
            && |r.started| > |s.started| && r.started[..|s.started|] == s.started
            && r.started[|s.started|] in s.queued
            && forall x <- s.queued - s.late :: r.started[|s.started|] <= x
  {
    hide *;
    var s := Run(history);
    var t := CancelTask(s, id);
    AlwaysInvariant(history);
    InvariantShape(s);
    AlwaysBlamed(history);
    BlameIs(s, Raised(history));
    CancelledGoesOn(s, id);
    CancelStep(s, id);
    StepInvariant(s, CancelOne(id));
    LoopGoesOn(s, t, n);
    NotStarted(s);
    var r := Loop(t, n);
    IdleStarted(s, r);
    GoesOnStarted(s, r);
    forall x <- s.queued - s.late ensures r.started[|s.started|] <= x {
      FirstStarted(s, r, x);
    }
  }

  lemma {:induction false} CancelStep(s: State, id: TaskId)
    ensures Step(s, CancelOne(id)) == CancelTask(s, id)
  {
    hide CancelTask;
  }

  lemma {:induction false} NotStarted(s: State)
    requires Invariant(s)
    ensures forall id <- s.queued :: id !in s.started
  {
    assert forall id <- Rec(s).queued :: id !in Rec(s).started;
  }

  lemma {:induction false} GoesOnStarted(s: State, t: State)
    requires GoesOn(s, t)
    ensures |s.started| <= |t.started| && t.started[..|s.started|] == s.started
    ensures forall i :: |s.started| <= i < |t.started| ==> t.started[i] in s.queued
  {
  }

  /** The loop does come to a point where it has nothing left to run. */
  lemma {:induction false} LoopIdles(s: State) returns (n: nat)
    requires Invariant(s)
    ensures Loop(s, n).ready == []
    decreases Measure(s)
  {
    hide *;
    if s.ready == [] {
      n := 0;
      LoopNone(s);
    } else {
      StepIsCallback(s);
      InternalStepKeeps(s, RunReady);
      var m := LoopIdles(RunCallback(s));
      LoopFirst(s, m);
      n := m + 1;
    }
  }

  lemma {:induction false} StepIsCallback(s: State)
    ensures Step(s, RunReady) == RunCallback(s) && (s.ready != [] ==> Internal(s, RunReady))
  {
    hide RunCallback;
  }

  lemma {:induction false} LoopFirst(s: State, n: nat)
    ensures Loop(s, n + 1) == Loop(RunCallback(s), n)
  {
    hide RunCallback;
    if n > 0 {
      LoopFirst(s, n - 1);
    } else {
      assert Loop(s, 0) == s;
    }
  }

  // Tasks that end leave the maps

  /** The future of every active task is pending or has its done callback due. */
  ghost predicate ActiveDue(s: State) {
    forall id <- s.active ::
      s.active[id] < |s.futures| && (s.futures[s.active[id]].outcome == Pending || Done(s.active[id]) in s.ready)
  }

  lemma {:induction false} SameActive(s: State, r: State)
    requires ActiveDue(s) && r.active == s.active && r.futures == s.futures
    requires forall c <- s.ready :: c.Done? ==> c in r.ready
    ensures ActiveDue(r)
  {
  }

  lemma {:induction false} FewerActive(s: State, ids: set<TaskId>, index: map<FutureId, TaskId>, queued: set<TaskId>)
    requires ActiveDue(s)
    ensures ActiveDue(s.(active := s.active - ids, index := index, queued := queued))
  {
  }

  lemma {:induction false} CompleteActive(s: State, f: FutureId, outcome: Outcome)
    requires ActiveDue(s) && f < |s.futures|
    ensures ActiveDue(Complete(s, f, outcome))
  {
    if s.futures[f].outcome == Pending {
      var r := Complete(s, f, outcome);
      CompleteReady(s, f, outcome);
      assert r.active == s.active && r.futures == s.futures[f := s.futures[f].(outcome := outcome)];
      hide Complete;
      assert forall c <- s.ready :: c in r.ready;
      assert Done(f) in r.ready;
    }
  }

  lemma {:induction false} SubmitActive(s: State, id: TaskId, waiter: Option<WorkerId>)
    requires ActiveDue(s)
    ensures ActiveDue(Submit(s, id, waiter))
  {
    var r := Submit(s, id, waiter);
    assert forall g :: 0 <= g < |s.futures| ==> r.futures[g] == s.futures[g];
  }

  lemma {:induction false} GetLoopActive(s: State, w: WorkerId)
    requires ActiveDue(s) && w < |s.workers|
    ensures ActiveDue(GetLoop(s, w))
    decreases |s.queue|
  {
    if s.queue == [] {
      SameActive(s, GetLoop(s, w));
    } else {
      var id, s1 := s.queue[0], s.(queue := s.queue[1..]);
      SameActive(s, s1);
      if id !in s.queued {
        GetLoopActive(s1, w);
      } else {
        var s2 := s1.(queued := s.queued - {id}, started := s.started + [id]);
        SameActive(s, s2);
        SubmitActive(s2, id, Some(w));
        var s3 := Submit(s2, id, Some(w));
        SameActive(s3, s3.WithWorker(w, AtAwait(|s.futures|)));
      }
    }
  }

  lemma {:induction false} CancelTaskActive(s: State, id: TaskId)
    requires ActiveDue(s)
    ensures ActiveDue(CancelTask(s, id))
  {
    if id in s.queued {
      SameActive(s, CancelTask(s, id));
    } else if id in s.active {
      var f := s.active[id];
      FewerActive(s, {id}, s.index - {f}, s.queued);
      hide ActiveDue;
      assert s.(active := s.active - {id}, index := s.index - {f}, queued := s.queued)
          == s.(active := s.active - {id}, index := s.index - {f});
      if f < |s.futures| {
        CompleteActive(s.(active := s.active - {id}, index := s.index - {f}), f, Cancelled);
      }
    }
  }

  lemma {:induction false} CancelEachActive(s: State, ids: seq<TaskId>)
    requires ActiveDue(s)
    ensures ActiveDue(CancelEach(s, ids))
    decreases |ids|
  {
    if ids != [] {
      assert CancelEach(s, ids) == CancelEach(CancelTask(s, ids[0]), ids[1..]);
      hide *;
      CancelTaskActive(s, ids[0]);
      CancelEachActive(CancelTask(s, ids[0]), ids[1..]);
    }
  }

  lemma {:induction false} CancelCurrentActive(s: State)
    requires ActiveDue(s)
    ensures ActiveDue(CancelCurrent(s))
  {
    if s.workers != [] {
      var w := |s.workers| - 1;
      var s1 := s.(workers := s.workers[w := s.workers[w].(cancelled := true)]);
      SameActive(s, s1);
      if s.workers[w].point.AtAwait? && s.workers[w].point.future < |s.futures| {
        CompleteActive(s1, s.workers[w].point.future, Cancelled);
        hide Complete;
      } else {
        SameActive(s1, CancelCurrent(s));
      }
    }
  }

  lemma {:induction false} PopActive(s: State)
    requires ActiveDue(s) && s.ready != [] && !s.ready[0].Done?
    ensures ActiveDue(s.(ready := s.ready[1..]))
  {
    var s1 := s.(ready := s.ready[1..]);
    assert forall d <- s.ready :: d == s.ready[0] || d in s1.ready;
    hide ActiveDue;
    SameActive(s, s1);
  }

  lemma {:induction false} ResumeActive(s: State, w: WorkerId)
    requires ActiveDue(s) && w < |s.workers|
    ensures ActiveDue(Resume(s, w))
  {
    hide ActiveDue;
    hide GetLoop;
    GetLoopActive(s, w);
    var r := s.WithWorker(w, Stopped);
    SameActive(s, r);
    SameActive(r, WakeGetterIfItems(r));
  }

  lemma {:induction false} CallbackActive(s: State)
    requires ActiveDue(s) && Shape(s) && s.ready != []
    ensures ActiveDue(RunCallback(s))
  {
    var s1 := s.(ready := s.ready[1..]);
    if s.ready[0].Done? {
      DoneActive(s);
    } else {
      hide Shape;
      PopActive(s);
      hide ActiveDue;
      match s.ready[0]
      case Put(id) => SameActive(s1, RunCallback(s));
      case Settle(f, outcome) => if f < |s.futures| { hide Complete; CompleteActive(s1, f, outcome); }
      case Wake(w) => if w < |s.workers| { hide Resume; ResumeActive(s1, w); }
      case _ =>
    }
  }

  lemma {:induction false} DoneActive(s: State)
    requires ActiveDue(s) && Shape(s) && s.ready != [] && s.ready[0].Done?
    ensures ActiveDue(RunCallback(s))
  {
    var f, r := s.ready[0].future, RunCallback(s);
    assert forall d <- s.ready :: d == Done(f) || d in r.ready;
    assert forall id <- s.active :: s.active[id] == f ==> s.index[f] == id;
    assert forall id <- r.active :: id in s.active && s.active[id] != f;
  }

  lemma {:induction false} StepActive(s: State, e: Event)
    requires ActiveDue(s) && Shape(s)
    ensures ActiveDue(Step(s, e))
  {
    hide Shape;
    hide ActiveDue;
    match e
    case Enqueue => SameActive(s, Step(s, e));
    case ForeignSchedule => SameActive(s, Step(s, e));
    case ForeignRegister(id) => SameActive(s, Step(s, e));
    case RunDirectly =>
      SameActive(s, s.(nextId := s.nextId + 1));
      SubmitActive(s.(nextId := s.nextId + 1), s.nextId, None);
    case CancelOne(id) => CancelTaskActive(s, id);
    case CancelAll(order) => CancelAllActive(s, order);
    case ResetAll(order) =>
      if Lists(order, s.active.Keys) {
        ResetShape(s, order);
        CancelAllActive(s, order);
      }
    case Shutdown => CancelCurrentActive(s);
    case ThreadEnds(f, outcome) => SameActive(s, Step(s, e));
    case RunReady => if s.ready != [] { CallbackActive(s); }
  }

  lemma {:induction false} CancelAllActive(s: State, order: seq<TaskId>)
    requires ActiveDue(s)
    ensures ActiveDue(CancelAllTasks(s, order))
  {
    var s1 := DrainQueue(s);
    var s3 := CancelEach(CancelCurrent(s1), order);
    hide CancelEach;
    hide CancelCurrent;
    SameActive(s, s1);
    hide ActiveDue;
    CancelCurrentActive(s1);
    CancelEachActive(CancelCurrent(s1), order);
    SameActive(s3, NewWorker(s3));
  }

  lemma {:induction false} AlwaysActiveDue(events: seq<Event>)
    ensures ActiveDue(Run(events))
  {
    if events != [] {
      var n := |events| - 1;
      AlwaysActiveDue(events[..n]);
      AlwaysShaped(events[..n]);
      StepActive(Run(events[..n]), events[n]);
    }
  }

  /** At rest after any interleaving no task is active: whatever returned, raised or was cancelled has left both
  maps. */
  lemma {:induction false} NothingActiveAtRest(events: seq<Event>)
    requires Quiescent(Run(events))
    ensures Run(events).active == map[] && Run(events).index == map[]
  {
    var s := Run(events);
    AlwaysActiveDue(events);
    AlwaysLive(events);
    AlwaysShaped(events);
    hide Run;
    assert forall f :: 0 <= f < |s.futures| && s.futures[f].outcome == Pending ==> Settling(s, f);
    assert forall id :: id !in s.active;
    InverseEmpty(s);
  }

  // Workers that were told to stop

  /** A cancelled worker has stopped or is about to be resumed. */
  ghost predicate CancelledDue(s: State) {
    forall w :: 0 <= w < |s.workers| && s.workers[w].cancelled ==> s.workers[w].point.Stopped? || Wake(w) in s.ready
  }

  lemma {:induction false} SameCancelled(s: State, r: State)
    requires CancelledDue(s) && r.workers == s.workers && forall c <- s.ready :: c.Wake? ==> c in r.ready
    ensures CancelledDue(r)
  {
  }

  lemma {:induction false} CompleteWorkers(s: State, f: FutureId, outcome: Outcome)
    requires f < |s.futures|
    ensures var r := Complete(s, f, outcome); r.workers == s.workers && forall c <- s.ready :: c in r.ready
  {
    if s.futures[f].outcome == Pending { CompleteReady(s, f, outcome); }
  }

  lemma {:induction false} CancelTaskCancelled(s: State, id: TaskId)
    requires CancelledDue(s)
    ensures CancelledDue(CancelTask(s, id))
  {
    if id !in s.queued && id in s.active && s.active[id] < |s.futures| {
      var f := s.active[id];
      CompleteWorkers(s.(active := s.active - {id}, index := s.index - {f}), f, Cancelled);
      hide Complete;
    }
    hide CancelledDue;
    SameCancelled(s, CancelTask(s, id));
  }

  lemma {:induction false} CancelEachCancelled(s: State, ids: seq<TaskId>)
    requires CancelledDue(s)
    ensures CancelledDue(CancelEach(s, ids))
    decreases |ids|
  {
    if ids != [] {
      assert CancelEach(s, ids) == CancelEach(CancelTask(s, ids[0]), ids[1..]);
      hide *;
      CancelTaskCancelled(s, ids[0]);
      CancelEachCancelled(CancelTask(s, ids[0]), ids[1..]);
    }
  }

  /** Shutting down cancels what the current worker awaits and has it resumed. */
  lemma {:induction false} CancelCurrentCancelled(s: State)
    requires CancelledDue(s) && Shape(s) && WorkerDue(s)
    ensures CancelledDue(CancelCurrent(s)) && CurrentCancelled(CancelCurrent(s))
  {
    var w, r := |s.workers| - 1, CancelCurrent(s);
    var point := s.workers[w].point;
    var s1 := s.(workers := s.workers[w := s.workers[w].(cancelled := true)]);
    if point.AtAwait? {
      CompleteWorkers(s1, point.future, Cancelled);
      if s.futures[point.future].outcome == Pending {
        CompleteReady(s1, point.future, Cancelled);
        assert s.futures[point.future].waiter == Some(w) && Wake(w) in Wakes(Some(w));
      }
    }
    assert r.workers == s1.workers && forall c <- s.ready :: c in r.ready;
    assert w in s.getters ==> Wake(w) in r.ready && point.AtGet?;
    hide CancelCurrent;
    assert s.workers[w].cancelled || point.Stopped? || Wake(w) in r.ready;
  }

  lemma {:induction false} CallbackCancelled(s: State)
    requires CancelledDue(s) && s.ready != []
    ensures CancelledDue(RunCallback(s))
  {
    var s1, c := s.(ready := s.ready[1..]), s.ready[0];
    assert forall d <- s.ready :: d == c || d in s1.ready;
    match c
    case Put(id) => SameCancelled(s, RunCallback(s));
    case Settle(f, outcome) =>
      if f < |s.futures| {
        CompleteWorkers(s1, f, outcome);
        hide Complete;
      }
      SameCancelled(s, RunCallback(s));
    case Done(f) => SameCancelled(s, RunCallback(s));
    case Wake(w) => if w < |s.workers| { WakeCancelled(s, w); }
  }

  lemma {:induction false} WakeCancelled(s: State, w: WorkerId)
    requires CancelledDue(s) && s.ready != [] && s.ready[0] == Wake(w) && w < |s.workers|
    ensures CancelledDue(Resume(s.(ready := s.ready[1..]), w))
  {
    var s1 := s.(ready := s.ready[1..]);
    assert forall d <- s.ready :: d == Wake(w) || d in s1.ready;
    if s.workers[w].cancelled || s.workers[w].point.Stopped? {
      hide GetLoop;
    } else {
      GetLoopTakes(s1, w);
      hide GetLoop;
    }
  }

  lemma {:induction false} StepCancelled(s: State, e: Event)
    requires CancelledDue(s) && Shape(s) && Live(s)
    ensures CancelledDue(Step(s, e))
  {
    hide Shape;
    hide CancelledDue;
    match e
    case Enqueue => SameCancelled(s, Step(s, e));
    case ForeignSchedule => SameCancelled(s, Step(s, e));
    case ForeignRegister(id) => SameCancelled(s, Step(s, e));
    case RunDirectly => SameCancelled(s, Step(s, e));
    case CancelOne(id) => CancelTaskCancelled(s, id);
    case CancelAll(order) => CancelAllCancelled(s, order);
    case ResetAll(order) =>
      if Lists(order, s.active.Keys) {
        ResetShape(s, order);
        CancelAllCancelled(s, order);
      }
    case Shutdown => CancelCurrentCancelled(s);
    case ThreadEnds(f, outcome) => SameCancelled(s, Step(s, e));
    case RunReady => if s.ready != [] { CallbackCancelled(s); }
  }

  lemma {:induction false} CancelAllCancelled(s: State, order: seq<TaskId>)
    requires CancelledDue(s) && Shape(s) && WorkerDue(s)
    ensures CancelledDue(CancelAllTasks(s, order))
  {
    var s1 := DrainQueue(s);
    var s3 := CancelEach(CancelCurrent(s1), order);
    assert WorkerDue(s1);
    hide CancelEach;
    hide CancelCurrent;
    hide WorkerDue;
    DrainShape(s);
    hide Shape;
    SameCancelled(s, s1);
    CancelCurrentCancelled(s1);
    hide CancelledDue;
    CancelEachCancelled(CancelCurrent(s1), order);
    NewCancelled(s3);
  }

  lemma {:induction false} NewCancelled(s: State)
    requires CancelledDue(s)
    ensures CancelledDue(NewWorker(s))
  {
  }

  lemma {:induction false} AlwaysCancelledDue(events: seq<Event>)
    ensures CancelledDue(Run(events))
  {
    if events != [] {
      var n := |events| - 1;
      AlwaysCancelledDue(events[..n]);
      AlwaysShaped(events[..n]);
      AlwaysLive(events[..n]);
      StepCancelled(Run(events[..n]), events[n]);
    }
  }

  /** In every reachable state with no callback left to run, every worker that was told to stop has stopped, although no
  thread may have ended: its own future was cancelled. */
  lemma {:induction false} CancelledStopped(events: seq<Event>, w: WorkerId)
    requires var s := Run(events); s.ready == [] && w < |s.workers| && s.workers[w].cancelled
    ensures Run(events).workers[w].point.Stopped?
  {
    AlwaysCancelledDue(events);
  }
}
