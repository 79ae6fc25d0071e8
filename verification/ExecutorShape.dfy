/** What every reachable state of the executor looks like: the two task indexes, the workers and the
callbacks that are due. */
module ExecutorShape {
  import opened Wrappers
  import opened Executor

  predicate CallbackOk(s: State, c: Callback) {
    match c
    case Put(id) => id < s.nextId
    case Settle(f, outcome) => f < |s.futures| && outcome != Pending
    case Done(f) => f < |s.futures|
    case Wake(w) => w < |s.workers|
  }

  ghost predicate Bounded(s: State) {
    && |s.workers| > 0
    && (forall id <- s.active :: s.active[id] < |s.futures| && id < s.nextId)
    && (forall id <- s.queued :: id < s.nextId)
    && (forall id <- s.unregistered :: id < s.nextId)
    && (forall c <- s.ready :: CallbackOk(s, c))
    && (forall f <- s.threads :: f < |s.futures|)
    && (forall w :: 0 <= w < |s.workers| && s.workers[w].point.AtAwait? ==>
          var f := s.workers[w].point.future; f < |s.futures| && s.futures[f].waiter == Some(w))
    && (forall f :: 0 <= f < |s.futures| && s.futures[f].waiter.Some? ==> s.futures[f].waiter.value < |s.workers|)
  }

  /** The active tasks and the future index are inverse to each other. */
  ghost predicate Inverse(s: State) {
    && (forall id <- s.active :: s.active[id] in s.index && s.index[s.active[id]] == id)
    && (forall f <- s.index :: s.index[f] in s.active && s.active[s.index[f]] == f)
  }

  ghost predicate Disjoint(s: State) {
    s.queued !! s.active.Keys && s.unregistered !! s.active.Keys && s.unregistered !! s.queued
  }

  /** Every worker but the current one has been told to stop. */
  ghost predicate OneWorker(s: State) {
    forall w :: 0 <= w < |s.workers| - 1 ==> s.workers[w].cancelled
  }

  /** A worker is resumed at most once for each time it suspends. */
  ghost predicate WakesOnce(s: State) {
    && (forall j, k :: 0 <= j < k < |s.ready| && s.ready[j].Wake? ==> s.ready[j] != s.ready[k])
    && (forall w :: 0 <= w < |s.workers| && s.workers[w].point.AtAwait? && Wake(w) in s.ready ==>
          s.workers[w].point.future < |s.futures| && s.futures[s.workers[w].point.future].outcome != Pending)
    && (s.getters != [] ==>
          && |s.workers| > 0 && s.getters == [|s.workers| - 1]
          && Wake(|s.workers| - 1) !in s.ready && s.workers[|s.workers| - 1] == Worker(AtGet, false))
    && (forall f :: 0 <= f < |s.futures| && s.futures[f].outcome == Pending && s.futures[f].waiter.Some? ==>
          var w := s.futures[f].waiter.value; w < |s.workers| && s.workers[w].point == AtAwait(f))
  }

  /** `_remove_done_task` runs for a future before the worker that awaits it is resumed. */
  ghost predicate DoneFirst(s: State) {
    forall k :: 0 <= k < |s.ready| && s.ready[k].Wake? ==> DoneBefore(s, k, s.ready[k].worker)
  }

  ghost predicate DoneBefore(s: State, k: int, w: WorkerId)
    requires k <= |s.ready|
  {
    w < |s.workers| && s.workers[w].point.AtAwait? && s.workers[w].point.future in s.index ==>
      exists j :: 0 <= j < k && s.ready[j] == Done(s.workers[w].point.future)
  }

  /** An active task that came from the queue is the one the current worker awaits. */
  ghost predicate QueueActive(s: State) {
    forall id <- s.active ::
      s.active[id] < |s.futures| && s.futures[s.active[id]].waiter.Some? ==>
        s.workers != [] && s.workers[|s.workers| - 1].point == AtAwait(s.active[id])
  }

  ghost predicate Shape(s: State) {
    Bounded(s) && Inverse(s) && Disjoint(s) && OneWorker(s) && WakesOnce(s) && DoneFirst(s) && QueueActive(s)
  }

  // Each operation keeps the shape

  lemma {:induction false} CompleteRest(s: State, f: FutureId, outcome: Outcome)
    requires Shape(s) && f < |s.futures| && s.futures[f].outcome == Pending
    ensures var r := Complete(s, f, outcome); QueueActive(r) && Inverse(r) && Disjoint(r) && OneWorker(r)
    ensures var waiter := s.futures[f].waiter;
            waiter.Some? ==> waiter.value < |s.workers| && s.workers[waiter.value].point == AtAwait(f)
  {
    hide Bounded;
    hide DoneFirst;
  }

  lemma {:induction false} CompleteShape(s: State, f: FutureId, outcome: Outcome)
    requires Shape(s) && f < |s.futures| && outcome != Pending
    ensures Shape(Complete(s, f, outcome))
  {
    if s.futures[f].outcome == Pending {
      CompleteRest(s, f, outcome);
      ShapeIs(s);
      hide *;
      CompleteBounded(s, f, outcome);
      CompleteWakesOnce(s, f, outcome);
      CompleteDoneFirst(s, f, outcome);
      ShapeIs(Complete(s, f, outcome));
    }
  }

  lemma {:induction false} CompleteReady(s: State, f: FutureId, outcome: Outcome)
    requires f < |s.futures| && s.futures[f].outcome == Pending
    ensures var r := Complete(s, f, outcome);
            && r.ready[..|s.ready|] == s.ready
            && r.ready[|s.ready|..] == [Done(f)] + Wakes(s.futures[f].waiter)
            && (forall c :: c in r.ready <==> c in s.ready || c == Done(f) || c in Wakes(s.futures[f].waiter))
  {
    var r := Complete(s, f, outcome);
    assert r.ready == s.ready + ([Done(f)] + Wakes(s.futures[f].waiter));
  }

  lemma {:induction false} CompleteBounded(s: State, f: FutureId, outcome: Outcome)
    requires Bounded(s) && f < |s.futures| && s.futures[f].outcome == Pending && outcome != Pending
    ensures Bounded(Complete(s, f, outcome))
  {
    CompleteReady(s, f, outcome);
    var r := Complete(s, f, outcome);
    forall c <- r.ready ensures CallbackOk(r, c) {
      assert c in s.ready ==> CallbackOk(s, c);
    }
  }

  lemma {:induction false} CompleteWakesDistinct(before: seq<Callback>, ready: seq<Callback>, f: FutureId,
                                                 waiter: Option<WorkerId>)
    requires forall j, k :: 0 <= j < k < |before| && before[j].Wake? ==> before[j] != before[k]
    requires |before| <= |ready| && ready[..|before|] == before && ready[|before|..] == [Done(f)] + Wakes(waiter)
    requires waiter.Some? ==> Wake(waiter.value) !in before
    ensures forall j, k :: 0 <= j < k < |ready| && ready[j].Wake? ==> ready[j] != ready[k]
  {
    var n := |before|;
    assert forall i :: n <= i < |ready| ==> ready[i] == ready[n..][i - n];
    assert forall i :: 0 <= i < n ==> ready[i] == before[i] && before[i] in before;
  }

  lemma {:induction false} CompleteWakesOnce(s: State, f: FutureId, outcome: Outcome)
    requires Bounded(s) && WakesOnce(s) && f < |s.futures| && s.futures[f].outcome == Pending && outcome != Pending
    ensures WakesOnce(Complete(s, f, outcome))
  {
    var r := Complete(s, f, outcome);
    var waiter := s.futures[f].waiter;
    if waiter.Some? {
      assert s.workers[waiter.value].point == AtAwait(f);
      assert Wake(waiter.value) !in s.ready;
    }
    assert r.workers == s.workers && r.getters == s.getters
           && r.futures == s.futures[f := s.futures[f].(outcome := outcome)];
    CompleteReady(s, f, outcome);
    hide Complete;
    hide Bounded;
    CompleteWakesDistinct(s.ready, r.ready, f, waiter);
  }

  lemma {:induction false} CompleteDoneFirst(s: State, f: FutureId, outcome: Outcome)
    requires Bounded(s) && DoneFirst(s) && f < |s.futures| && s.futures[f].outcome == Pending
    requires s.futures[f].waiter.Some? ==> s.workers[s.futures[f].waiter.value].point == AtAwait(f)
    ensures DoneFirst(Complete(s, f, outcome))
  {
    CompleteReady(s, f, outcome);
    var r := Complete(s, f, outcome);
    var n := |s.ready|;
    forall k | 0 <= k < |r.ready| && r.ready[k].Wake? ensures DoneBefore(r, k, r.ready[k].worker) {
      var w := r.ready[k].worker;
      if k < n {
        assert r.ready[k] == s.ready[k];
        assert DoneBefore(s, k, w);
        if w < |s.workers| && s.workers[w].point.AtAwait? && s.workers[w].point.future in s.index {
          var j :| 0 <= j < k && s.ready[j] == Done(s.workers[w].point.future);
          assert r.ready[j] == s.ready[j];
        }
      } else {
        assert r.ready[k] == r.ready[n..][k - n];
        assert r.ready[n] == Done(f);
      }
    }
  }

  lemma {:induction false} CallbackGrows(s: State, r: State, c: Callback)
    requires CallbackOk(s, c)
    requires r.nextId >= s.nextId && |r.futures| >= |s.futures| && |r.workers| >= |s.workers|
    ensures CallbackOk(r, c)
  {
  }

  /** Only the task identifiers change. */
  lemma {:induction false} IdsShape(s: State, r: State)
    requires Shape(s)
    requires r == s.(nextId := r.nextId, unregistered := r.unregistered, queued := r.queued,
                     active := r.active, index := r.index)
    requires r.nextId >= s.nextId
    requires Inverse(r) && Disjoint(r) && QueueActive(r)
    requires forall id <- r.active :: r.active[id] < |r.futures| && id < r.nextId
    requires (forall id <- r.queued :: id < r.nextId) && (forall id <- r.unregistered :: id < r.nextId)
    requires forall f <- r.index :: f in s.index
    ensures Shape(r)
  {
    forall c <- r.ready ensures CallbackOk(r, c) { CallbackGrows(s, r, c); }
    forall k | 0 <= k < |r.ready| && r.ready[k].Wake? ensures DoneBefore(r, k, r.ready[k].worker) {
      assert DoneBefore(s, k, s.ready[k].worker);
    }
  }

  lemma {:induction false} ScheduleShape(s: State)
    requires Shape(s)
    ensures Shape(Schedule(s))
  {
    var s1 := s.(nextId := s.nextId + 1, unregistered := s.unregistered + {s.nextId});
    IdsShape(s, s1);
    assert Schedule(s) == s1.(ready := s.ready + [Put(s.nextId)]) && CallbackOk(s1, Put(s.nextId));
    hide *;
    PushShape(s1, Put(s.nextId));
  }

  /** Anything but a wake-up can be added to the ready queue. */
  lemma {:induction false} PushShape(s: State, c: Callback)
    requires Shape(s) && CallbackOk(s, c) && !c.Wake?
    ensures Shape(s.(ready := s.ready + [c]))
  {
    var r := s.(ready := s.ready + [c]);
    assert forall d :: d in r.ready <==> d in s.ready || d == c;
    assert forall d <- s.ready :: CallbackOk(s, d) ==> CallbackOk(r, d);
    PushDoneFirst(s, c);
  }

  lemma {:induction false} PushDoneFirst(s: State, c: Callback)
    requires DoneFirst(s)
    requires c.Wake? && c.worker < |s.workers| && s.workers[c.worker].point.AtAwait? ==>
             s.workers[c.worker].point.future !in s.index
    ensures DoneFirst(s.(ready := s.ready + [c]))
  {
    var r := s.(ready := s.ready + [c]);
    forall k | 0 <= k < |r.ready| && r.ready[k].Wake? ensures DoneBefore(r, k, r.ready[k].worker) {
      var w := r.ready[k].worker;
      if k < |s.ready| {
        assert r.ready[k] == s.ready[k] && DoneBefore(s, k, w);
        if w < |s.workers| && s.workers[w].point.AtAwait? && s.workers[w].point.future in s.index {
          var j :| 0 <= j < k && s.ready[j] == Done(s.workers[w].point.future);
          assert r.ready[j] == s.ready[j];
        }
      }
    }
  }

  lemma {:induction false} PopDoneFirst(s: State)
    requires DoneFirst(s) && s.ready != [] && !s.ready[0].Done?
    ensures DoneFirst(s.(ready := s.ready[1..]))
  {
    var r := s.(ready := s.ready[1..]);
    forall k | 0 <= k < |r.ready| && r.ready[k].Wake? ensures DoneBefore(r, k, r.ready[k].worker) {
      var w := r.ready[k].worker;
      assert r.ready[k] == s.ready[k + 1] && DoneBefore(s, k + 1, w);
      if w < |s.workers| && s.workers[w].point.AtAwait? && s.workers[w].point.future in s.index {
        var j :| 0 <= j < k + 1 && s.ready[j] == Done(s.workers[w].point.future);
        assert r.ready[j - 1] == s.ready[j];
      }
    }
  }

  /** Anything but a done callback can be taken from the ready queue. */
  lemma {:induction false} PopShape(s: State)
    requires Shape(s) && s.ready != [] && !s.ready[0].Done?
    ensures Shape(s.(ready := s.ready[1..]))
  {
    var r := s.(ready := s.ready[1..]);
    PopDoneFirst(s);
    forall d <- r.ready ensures d in s.ready && CallbackOk(r, d) {
      var i :| 0 <= i < |r.ready| && r.ready[i] == d;
      assert s.ready[i + 1] == d;
      CallbackGrows(s, r, d);
    }
    forall j, k | 0 <= j < k < |r.ready| && r.ready[j].Wake? ensures r.ready[j] != r.ready[k] {
      assert r.ready[j] == s.ready[j + 1] && r.ready[k] == s.ready[k + 1];
    }
  }

  lemma {:induction false} RemoveDoneShape(s: State, f: FutureId)
    requires Shape(s) && s.ready != [] && s.ready[0] == Done(f)
    ensures Shape(RemoveDone(s.(ready := s.ready[1..]), f))
  {
    hide *;
    ShapeIs(s);
    RemoveDoneRest(s, f);
    RemoveDoneCallbacks(s, f);
    RemoveDoneWakes(s, f);
    RemoveDoneFirst(s, f);
    ShapeIs(RemoveDone(s.(ready := s.ready[1..]), f));
  }

  lemma {:induction false} ShapeIs(s: State)
    ensures Shape(s) <==>
              Bounded(s) && Inverse(s) && Disjoint(s) && OneWorker(s) && WakesOnce(s) && DoneFirst(s) && QueueActive(s)
  {
    hide Bounded;
    hide Inverse;
    hide Disjoint;
    hide OneWorker;
    hide WakesOnce;
    hide DoneFirst;
    hide QueueActive;
  }

  lemma {:induction false} RemoveDoneCallbacks(s: State, f: FutureId)
    requires Bounded(s) && s.ready != [] && s.ready[0] == Done(f)
    ensures Bounded(RemoveDone(s.(ready := s.ready[1..]), f))
  {
    var r := RemoveDone(s.(ready := s.ready[1..]), f);
    forall d <- r.ready ensures CallbackOk(r, d) {
      var i :| 0 <= i < |r.ready| && r.ready[i] == d;
      assert s.ready[i + 1] == d;
      CallbackGrows(s, r, d);
    }
  }

  lemma {:induction false} RemoveDoneWakes(s: State, f: FutureId)
    requires WakesOnce(s) && s.ready != [] && s.ready[0] == Done(f)
    ensures WakesOnce(RemoveDone(s.(ready := s.ready[1..]), f))
  {
    var r := RemoveDone(s.(ready := s.ready[1..]), f);
    forall d <- r.ready ensures d in s.ready {
      var i :| 0 <= i < |r.ready| && r.ready[i] == d;
      assert s.ready[i + 1] == d;
    }
    forall j, k | 0 <= j < k < |r.ready| && r.ready[j].Wake? ensures r.ready[j] != r.ready[k] {
      assert r.ready[j] == s.ready[j + 1] && r.ready[k] == s.ready[k + 1];
    }
  }

  lemma {:induction false} RemoveDoneFirst(s: State, f: FutureId)
    requires DoneFirst(s) && s.ready != [] && s.ready[0] == Done(f)
    ensures DoneFirst(RemoveDone(s.(ready := s.ready[1..]), f))
  {
    var r := RemoveDone(s.(ready := s.ready[1..]), f);
    assert f !in r.index;
    forall k | 0 <= k < |r.ready| && r.ready[k].Wake? ensures DoneBefore(r, k, r.ready[k].worker) {
      var w := r.ready[k].worker;
      assert r.ready[k] == s.ready[k + 1] && DoneBefore(s, k + 1, w);
      if w < |s.workers| && s.workers[w].point.AtAwait? && s.workers[w].point.future in r.index {
        var j :| 0 <= j < k + 1 && s.ready[j] == Done(s.workers[w].point.future);
        assert j > 0 && r.ready[j - 1] == s.ready[j];
      }
    }
  }

  lemma {:induction false} RemoveDoneRest(s: State, f: FutureId)
    requires Shape(s)
    ensures var r := RemoveDone(s.(ready := if s.ready == [] then [] else s.ready[1..]), f);
            Inverse(r) && Disjoint(r) && OneWorker(r) && QueueActive(r)
  {
  }

  lemma {:induction false} RegisterShape(s: State, id: TaskId)
    requires Shape(s)
    ensures Shape(Register(s, id))
  {
    if id in s.unregistered {
      var r := Register(s, id);
      var r1 := r.(late := s.late);
      IdsShape(s, r1);
      LateShape(r1, r.late, r.dropped, r.started, r.queue);
    }
  }

  /** The shape says nothing about the history or the items in the queue. */
  lemma {:induction false} LateShape(s: State, late: set<TaskId>, dropped: set<TaskId>, started: seq<TaskId>,
                                     queue: seq<TaskId>)
    requires Shape(s)
    ensures Shape(s.(late := late, dropped := dropped, started := started, queue := queue))
  {
    var r := s.(late := late, dropped := dropped, started := started, queue := queue);
    forall c <- r.ready ensures CallbackOk(r, c) { CallbackGrows(s, r, c); }
    forall k | 0 <= k < |r.ready| && r.ready[k].Wake? ensures DoneBefore(r, k, r.ready[k].worker) {
      assert DoneBefore(s, k, s.ready[k].worker);
    }
  }

  /** A new future for task `id`, before anything else changes. */
  lemma {:induction false} SubmitMaps(s: State, id: TaskId, waiter: Option<WorkerId>)
    requires Bounded(s) && Inverse(s) && Disjoint(s)
    requires id !in s.active && id !in s.queued && id !in s.unregistered
    ensures Inverse(Submit(s, id, waiter)) && Disjoint(Submit(s, id, waiter))
    ensures |s.futures| !in s.index
  {
    assert forall f <- s.index :: f < |s.futures|;
  }

  lemma {:induction false} SubmitBounded(s: State, id: TaskId, waiter: Option<WorkerId>)
    requires Bounded(s) && id < s.nextId && (waiter.Some? ==> waiter.value < |s.workers|)
    ensures Bounded(Submit(s, id, waiter))
  {
    var r := Submit(s, id, waiter);
    forall c <- r.ready ensures CallbackOk(r, c) { CallbackGrows(s, r, c); }
  }

  /** A future that nobody awaits changes nothing about the workers. */
  lemma {:induction false} SubmitDirectRest(s: State, id: TaskId)
    requires Shape(s)
    ensures var r := Submit(s, id, None); OneWorker(r) && WakesOnce(r) && QueueActive(r)
  {
    var r := Submit(s, id, None);
    assert forall f :: 0 <= f < |s.futures| ==> r.futures[f] == s.futures[f];
  }

  lemma {:induction false} SubmitDirectShape(s: State)
    requires Shape(s)
    ensures Shape(RunInExecutor(s))
  {
    var s1 := s.(nextId := s.nextId + 1);
    IdsShape(s, s1);
    assert s.nextId !in s1.active && s.nextId !in s1.queued && s.nextId !in s1.unregistered;
    assert RunInExecutor(s) == Submit(s1, s.nextId, None);
    hide *;
    SubmitUnawaitedShape(s1, s.nextId);
  }

  lemma {:induction false} SubmitUnawaitedShape(s: State, id: TaskId)
    requires Shape(s) && id < s.nextId
    requires id !in s.active && id !in s.queued && id !in s.unregistered
    ensures Shape(Submit(s, id, None))
  {
    SubmitMaps(s, id, None);
    SubmitBounded(s, id, None);
    SubmitDirectRest(s, id);
    SubmitDirectDoneFirst(s, id);
    hide *;
    ShapeIs(Submit(s, id, None));
  }

  lemma {:induction false} SubmitDirectDoneFirst(s: State, id: TaskId)
    requires Shape(s) && |s.futures| !in s.index
    ensures DoneFirst(Submit(s, id, None))
  {
    var r := Submit(s, id, None);
    forall k | 0 <= k < |r.ready| && r.ready[k].Wake? ensures DoneBefore(r, k, r.ready[k].worker) {
      assert DoneBefore(s, k, s.ready[k].worker);
    }
  }

  // The worker

  /** Worker `w` is running: nothing will resume it and it awaits nothing. */
  ghost predicate Running(s: State, w: WorkerId) {
    && Shape(s) && w == |s.workers| - 1 && !s.workers[w].cancelled
    && s.getters == [] && Wake(w) !in s.ready
    && (forall f :: 0 <= f < |s.futures| && s.futures[f].outcome == Pending ==> s.futures[f].waiter != Some(w))
    && (forall id <- s.active :: s.futures[s.active[id]].waiter.None?)
  }

  /** A resumed worker no longer finds its own task among the active ones. */
  lemma {:induction false} ResumedRuns(s: State, w: WorkerId)
    requires Shape(s) && s.ready != [] && s.ready[0] == Wake(w) && w < |s.workers|
    requires !s.workers[w].cancelled && s.workers[w].point != Stopped
    ensures Running(s.(ready := s.ready[1..]), w)
  {
    var r := s.(ready := s.ready[1..]);
    PopShape(s);
    assert w == |s.workers| - 1;
    assert Wake(w) in s.ready;
    forall i | 0 <= i < |r.ready| ensures r.ready[i] != Wake(w) {
      assert r.ready[i] == s.ready[i + 1];
    }
    StoppedAwaitsNothing(s, w);
  }

  /** Workers move, none to a new await. */
  ghost predicate Moved(s: State, r: State) {
    && r == s.(workers := r.workers, getters := r.getters) && |r.workers| == |s.workers|
    && forall v :: 0 <= v < |s.workers| && r.workers[v].point.AtAwait? ==> r.workers[v].point == s.workers[v].point
  }

  lemma {:induction false} MovedDoneFirst(s: State, r: State)
    requires DoneFirst(s) && Moved(s, r)
    ensures DoneFirst(r)
  {
    forall k | 0 <= k < |r.ready| && r.ready[k].Wake? ensures DoneBefore(r, k, r.ready[k].worker) {
      assert DoneBefore(s, k, s.ready[k].worker);
    }
  }

  lemma {:induction false} MovedBounded(s: State, r: State)
    requires Bounded(s) && Moved(s, r)
    ensures Bounded(r)
  {
    forall c <- r.ready ensures CallbackOk(r, c) { CallbackGrows(s, r, c); }
  }

  lemma {:induction false} MovedShape(s: State, r: State)
    requires Shape(s) && Moved(s, r) && OneWorker(r) && WakesOnce(r) && QueueActive(r)
    ensures Shape(r)
  {
    assert Inverse(s) && Disjoint(s) && Bounded(s) && DoneFirst(s);
    assert r.active == s.active && r.index == s.index && r.queued == s.queued && r.unregistered == s.unregistered;
    hide Bounded;
    hide OneWorker;
    hide WakesOnce;
    hide DoneFirst;
    hide QueueActive;
    MovedDoneFirst(s, r);
    MovedBounded(s, r);
  }

  /** Moving the running worker to a point at which it does not await a pending future. */
  lemma {:induction false} ParkShape(s: State, w: WorkerId, point: Point)
    requires Running(s, w) && (point.AtGet? || point.Stopped?)
    ensures Shape(s.WithWorker(w, point).(getters := if point.AtGet? then [w] else []))
  {
    var r := s.WithWorker(w, point).(getters := if point.AtGet? then [w] else []);
    assert Shape(s) && Moved(s, r);
    assert OneWorker(r) && QueueActive(r);
    hide Bounded;
    hide Inverse;
    hide Disjoint;
    hide DoneFirst;
    hide QueueActive;
    assert WakesOnce(r);
    hide *;
    MovedShape(s, r);
  }

  lemma {:induction false} DiscardRuns(s: State, w: WorkerId, id: TaskId, queue: seq<TaskId>, started: seq<TaskId>)
    requires Running(s, w)
    ensures Running(s.(queue := queue, queued := s.queued - {id}, started := started), w)
    ensures Running(s.(queue := queue), w)
  {
    var r := s.(queued := s.queued - {id});
    IdsShape(s, r);
    LateShape(r, r.late, r.dropped, started, queue);
    LateShape(s, s.late, s.dropped, s.started, queue);
  }

  lemma {:induction false} RunningShape(s: State, w: WorkerId)
    requires Running(s, w)
    ensures Bounded(s) && Inverse(s) && Disjoint(s) && DoneFirst(s) && w < |s.workers|
  {
    hide Bounded;
    hide Inverse;
    hide Disjoint;
    hide DoneFirst;
  }

  lemma {:induction false} StartRest(s: State, w: WorkerId, id: TaskId)
    requires Running(s, w) && Inverse(Submit(s, id, Some(w))) && Disjoint(Submit(s, id, Some(w)))
    ensures var r := Submit(s, id, Some(w)).WithWorker(w, AtAwait(|s.futures|));
            Inverse(r) && Disjoint(r) && OneWorker(r) && QueueActive(r)
  {
  }

  lemma {:induction false} StartDoneFirst(s: State, w: WorkerId, id: TaskId)
    requires Running(s, w)
    ensures DoneFirst(Submit(s, id, Some(w)).WithWorker(w, AtAwait(|s.futures|)))
  {
    var r := Submit(s, id, Some(w)).WithWorker(w, AtAwait(|s.futures|));
    forall k | 0 <= k < |r.ready| && r.ready[k].Wake? ensures DoneBefore(r, k, r.ready[k].worker) {
      assert DoneBefore(s, k, s.ready[k].worker);
      assert r.ready[k] in r.ready;
    }
  }

  /** Starting a task from the running worker. */
  lemma {:induction false} StartShape(s: State, w: WorkerId, id: TaskId)
    requires Running(s, w) && id < s.nextId
    requires id !in s.active && id !in s.queued && id !in s.unregistered
    ensures Shape(Submit(s, id, Some(w)).WithWorker(w, AtAwait(|s.futures|)))
  {
    var f := |s.futures|;
    var r := Submit(s, id, Some(w)).WithWorker(w, AtAwait(f));
    RunningShape(s, w);
    SubmitMaps(s, id, Some(w));
    SubmitBounded(s, id, Some(w));
    StartBounded(s, w, id);
    StartRest(s, w, id);
    StartDoneFirst(s, w, id);
    StartWakesOnce(s, w, id);
    hide *;
    ShapeIs(r);
  }

  lemma {:induction false} StartBounded(s: State, w: WorkerId, id: TaskId)
    requires Running(s, w) && id < s.nextId && Bounded(Submit(s, id, Some(w)))
    ensures Bounded(Submit(s, id, Some(w)).WithWorker(w, AtAwait(|s.futures|)))
  {
    var r := Submit(s, id, Some(w)).WithWorker(w, AtAwait(|s.futures|));
    forall c <- r.ready ensures CallbackOk(r, c) { CallbackGrows(s, r, c); }
  }

  lemma {:induction false} StartWakesOnce(s: State, w: WorkerId, id: TaskId)
    requires Running(s, w)
    ensures WakesOnce(Submit(s, id, Some(w)).WithWorker(w, AtAwait(|s.futures|)))
  {
    var f := |s.futures|;
    var r := Submit(s, id, Some(w)).WithWorker(w, AtAwait(f));
    forall g | 0 <= g < |r.futures| && r.futures[g].outcome == Pending && r.futures[g].waiter.Some?
      ensures r.futures[g].waiter.value < |r.workers| && r.workers[r.futures[g].waiter.value].point == AtAwait(g)
    {
      if g < f { assert r.futures[g] == s.futures[g]; }
    }
    forall v | 0 <= v < |r.workers| && r.workers[v].point.AtAwait? && Wake(v) in r.ready
      ensures r.workers[v].point.future < |r.futures| && r.futures[r.workers[v].point.future].outcome != Pending
    {
      assert v != w;
    }
  }

  lemma {:induction false} GetLoopShape(s: State, w: WorkerId)
    requires Running(s, w)
    ensures Shape(GetLoop(s, w))
    decreases |s.queue|
  {
    if s.queue == [] {
      assert GetLoop(s, w) == s.WithWorker(w, AtGet).(getters := [w]);
      hide *;
      ParkShape(s, w, AtGet);
    } else {
      var id, rest := s.queue[0], s.queue[1..];
      var s1 := s.(queue := rest, queued := s.queued - {id}, started := s.started + [id]);
      assert GetLoop(s, w) == if id !in s.queued then GetLoop(s.(queue := rest), w)
                              else Submit(s1, id, Some(w)).WithWorker(w, AtAwait(|s1.futures|));
      assert id in s.queued ==> id < s.nextId && id !in s.active && id !in s.unregistered;
      hide *;
      if id !in s.queued {
        DiscardRuns(s, w, id, rest, s.started);
        GetLoopShape(s.(queue := rest), w);
      } else {
        DiscardRuns(s, w, id, rest, s.started + [id]);
        StartShape(s1, w, id);
      }
    }
  }

  /** A stopping worker touches nothing else. */
  lemma {:induction false} StopShape(s: State, w: WorkerId)
    requires Shape(s) && w < |s.workers| && w !in s.getters
    requires forall f :: 0 <= f < |s.futures| && s.futures[f].outcome == Pending ==> s.futures[f].waiter != Some(w)
    requires w == |s.workers| - 1 ==> forall id <- s.active :: s.futures[s.active[id]].waiter.None?
    ensures Shape(s.WithWorker(w, Stopped))
  {
    var r := s.WithWorker(w, Stopped);
    assert Moved(s, r) && OneWorker(r) && QueueActive(r);
    hide Bounded;
    hide Inverse;
    hide Disjoint;
    hide DoneFirst;
    hide QueueActive;
    assert WakesOnce(r);
    hide *;
    MovedShape(s, r);
  }

  lemma {:induction false} WakeGetterShape(s: State)
    requires Shape(s)
    ensures Shape(WakeGetter(s))
  {
    if s.getters != [] {
      var w := s.getters[0];
      assert w in s.getters;
      AddWakeShape(s, w);
      assert s.getters[1..] == [];
    }
  }

  /** A worker that waits for an item can be woken. */
  lemma {:induction false} AddWakeShape(s: State, w: WorkerId)
    requires Shape(s) && w in s.getters
    ensures Shape(s.(getters := [], ready := s.ready + [Wake(w)]))
  {
    var r := s.(getters := [], ready := s.ready + [Wake(w)]);
    assert forall d :: d in r.ready <==> d in s.ready || d == Wake(w);
    forall c <- r.ready ensures CallbackOk(r, c) { if c in s.ready { CallbackGrows(s, r, c); } }
    PushDoneFirst(s, Wake(w));
    forall k | 0 <= k < |r.ready| && r.ready[k].Wake? ensures DoneBefore(r, k, r.ready[k].worker) {
      assert DoneBefore(s.(ready := r.ready), k, r.ready[k].worker);
    }
    AddWakeOnce(s, w);
  }

  lemma {:induction false} AddWakeOnce(s: State, w: WorkerId)
    requires WakesOnce(s) && w in s.getters && w < |s.workers|
    ensures WakesOnce(s.(getters := [], ready := s.ready + [Wake(w)]))
  {
    var r := s.(getters := [], ready := s.ready + [Wake(w)]);
    assert forall d :: d in r.ready <==> d in s.ready || d == Wake(w);
    forall j, k | 0 <= j < k < |r.ready| && r.ready[j].Wake? ensures r.ready[j] != r.ready[k] {
      assert r.ready[j] == s.ready[j] && s.ready[j] in s.ready;
      if k < |s.ready| { assert r.ready[k] == s.ready[k]; }
    }
  }

  lemma {:induction false} ResumeGoesShape(s: State, w: WorkerId)
    requires Running(s, w) && w < |s.workers| && !s.workers[w].point.Stopped? && !s.workers[w].cancelled
    ensures Shape(Resume(s, w))
  {
    assert s.getters == [] && s.WithWorker(w, Stopped).(getters := []) == s.WithWorker(w, Stopped);
    hide Running;
    hide Shape;
    ParkShape(s, w, Stopped);
    GetLoopShape(s, w);
    hide GetLoop;
  }

  lemma {:induction false} ResumeShape(s: State, w: WorkerId)
    requires Shape(s) && s.ready != [] && s.ready[0] == Wake(w) && w < |s.workers|
    ensures Shape(Resume(s.(ready := s.ready[1..]), w))
  {
    var s1 := s.(ready := s.ready[1..]);
    PopShape(s);
    assert s1.workers == s.workers && s1.futures == s.futures;
    if s.workers[w].point.Stopped? {
      hide Shape;
    } else if !s.workers[w].cancelled {
      ResumedRuns(s, w);
      assert s.workers[w].point.AtAwait? ==> s.workers[w].point.future < |s.futures|;
      hide Shape;
      ResumeGoesShape(s1, w);
    } else {
      StoppedAwaitsNothing(s, w);
      assert s1.active == s.active && s1.getters == s.getters;
      assert w !in s.getters;
      hide Shape;
      StopShape(s1, w);
      WakeGetterShape(s1.WithWorker(w, Stopped));
      hide GetLoop;
    }
  }

  lemma {:induction false} StoppedAwaitsNothing(s: State, w: WorkerId)
    requires Shape(s) && s.ready != [] && s.ready[0] == Wake(w) && w < |s.workers|
    ensures w !in s.getters
    ensures forall f :: 0 <= f < |s.futures| && s.futures[f].outcome == Pending ==> s.futures[f].waiter != Some(w)
    ensures w == |s.workers| - 1 ==> forall id <- s.active :: s.futures[s.active[id]].waiter.None?
  {
    assert Wake(w) in s.ready;
    assert DoneBefore(s, 0, w);
    assert s.workers[w].point.AtAwait? ==> s.workers[w].point.future !in s.index;
  }

  // Cancellation

  lemma {:induction false} CancelFlagShape(s: State, w: WorkerId)
    requires Shape(s) && w < |s.workers| && w !in s.getters
    ensures Shape(s.(workers := s.workers[w := s.workers[w].(cancelled := true)]))
  {
    var r := s.(workers := s.workers[w := s.workers[w].(cancelled := true)]);
    assert forall v :: 0 <= v < |s.workers| ==> r.workers[v].point == s.workers[v].point;
    assert Moved(s, r) && OneWorker(r) && QueueActive(r);
    hide Bounded;
    hide Inverse;
    hide Disjoint;
    hide DoneFirst;
    hide QueueActive;
    assert WakesOnce(r);
    hide *;
    MovedShape(s, r);
  }

  lemma {:induction false} CancelCurrentShape(s: State)
    requires Shape(s)
    ensures var r := CancelCurrent(s);
            Shape(r) && r.getters == [] && |r.workers| == |s.workers| && r.workers[|r.workers| - 1].cancelled
            && r == s.(getters := r.getters, workers := r.workers, ready := r.ready, futures := r.futures)
  {
    var w := |s.workers| - 1;
    if w in s.getters {
      CancelGetterShape(s, w);
    } else {
      CancelFlagShape(s, w);
      var s1 := s.(workers := s.workers[w := s.workers[w].(cancelled := true)]);
      if s.workers[w].point.AtAwait? {
        var f := s.workers[w].point.future;
        assert CancelCurrent(s) == Complete(s1, f, Cancelled);
        CompleteShape(s1, f, Cancelled);
      } else {
        assert CancelCurrent(s) == s1;
      }
    }
  }

  lemma {:induction false} CancelGetterShape(s: State, w: WorkerId)
    requires Shape(s) && w == |s.workers| - 1 && w in s.getters
    ensures var r := CancelCurrent(s);
            && Shape(r)
            && r == s.(getters := [], ready := s.ready + [Wake(w)], workers := s.workers[w := Worker(AtGet, true)])
  {
    assert s.getters == [w];
    var s1 := s.(getters := [], ready := s.ready + [Wake(w)]);
    assert CancelCurrent(s) == s1.(workers := s1.workers[w := s1.workers[w].(cancelled := true)]);
    hide *;
    AddWakeShape(s, w);
    CancelFlagShape(s1, w);
  }

  lemma {:induction false} CancelTaskShape(s: State, id: TaskId)
    requires Shape(s)
    ensures Shape(CancelTask(s, id))
  {
    if id in s.queued {
      var r := s.(queued := s.queued - {id});
      IdsShape(s, r);
      LateShape(r, r.late, s.dropped + {id}, r.started, r.queue);
    } else if id in s.active {
      var f := s.active[id];
      var s1 := s.(active := s.active - {id}, index := s.index - {f});
      IdsShape(s, s1);
      CompleteShape(s1, f, Cancelled);
    }
  }

  lemma {:induction false} CancelTaskKeeps(s: State, id: TaskId)
    requires s.queued == {}
    ensures var r := CancelTask(s, id);
            r.queued == {} && r.workers == s.workers && r.getters == s.getters
            && forall k <- r.active :: k in s.active && k != id
  {
  }

  lemma {:induction false} CancelEachShape(s: State, ids: seq<TaskId>)
    requires Shape(s) && s.queued == {}
    ensures var r := CancelEach(s, ids);
            Shape(r) && r.queued == {} && r.workers == s.workers && r.getters == s.getters
            && forall k <- r.active :: k in s.active && k !in ids
    decreases |ids|
  {
    if ids != [] {
      assert CancelEach(s, ids) == CancelEach(CancelTask(s, ids[0]), ids[1..]);
      hide *;
      CancelTaskShape(s, ids[0]);
      CancelTaskKeeps(s, ids[0]);
      CancelEachShape(CancelTask(s, ids[0]), ids[1..]);
    }
  }

  lemma {:induction false} NewWorkerShape(s: State)
    requires Shape(s) && s.workers[|s.workers| - 1].cancelled && s.getters == [] && s.active == map[]
    ensures Shape(NewWorker(s))
  {
    var n := |s.workers|;
    var r := NewWorker(s);
    assert !CallbackOk(s, Wake(n));
    assert forall d :: d in r.ready <==> d in s.ready || d == Wake(n);
    forall c <- r.ready ensures CallbackOk(r, c) { if c in s.ready { CallbackGrows(s, r, c); } }
    assert forall f :: f !in s.index;
    assert forall v :: 0 <= v < n ==> r.workers[v] == s.workers[v];
    assert Bounded(r) && OneWorker(r) && QueueActive(r) && DoneFirst(r);
    NewWorkerWakesOnce(s);
  }

  lemma {:induction false} NewWorkerWakesOnce(s: State)
    requires WakesOnce(s) && s.getters == [] && Wake(|s.workers|) !in s.ready
    ensures WakesOnce(NewWorker(s))
  {
    var n := |s.workers|;
    var r := NewWorker(s);
    assert forall d :: d in r.ready <==> d in s.ready || d == Wake(n);
    assert forall v :: 0 <= v < n ==> r.workers[v] == s.workers[v];
    forall j, k | 0 <= j < k < |r.ready| && r.ready[j].Wake? ensures r.ready[j] != r.ready[k] {
      assert r.ready[j] == s.ready[j] && s.ready[j] in s.ready;
      if k < |s.ready| { assert r.ready[k] == s.ready[k]; }
    }
  }

  lemma {:induction false} CancelAllParts(s: State, order: seq<TaskId>)
    requires Lists(order, s.active.Keys)
    ensures DrainQueue(s).active == s.active && DrainQueue(s).queued == {} && forall k <- s.active :: k in order
    ensures var s3 := CancelEach(CancelCurrent(DrainQueue(s)), order);
            var r := NewWorker(s3);
            CancelAllTasks(s, order) == r && r.queued == s3.queued && r.active == s3.active && r.index == s3.index
  {
    hide CancelEach;
    hide CancelCurrent;
  }

  /** After cancelling everything nothing is queued or active, and a fresh worker is due to start. */
  lemma {:induction false} CancelAllShape(s: State, order: seq<TaskId>)
    requires Shape(s) && Lists(order, s.active.Keys)
    ensures var r := CancelAllTasks(s, order);
            Shape(r) && r.queued == {} && r.active == map[] && r.index == map[]
  {
    hide *;
    var s1 := DrainQueue(s);
    var s2 := CancelCurrent(s1);
    var s3 := CancelEach(s2, order);
    CancelAllParts(s, order);
    DrainShape(s);
    CancelCurrentShape(s1);
    CancelEachShape(s2, order);
    assert s3.active == map[];
    NewWorkerShape(s3);
    InverseEmpty(NewWorker(s3));
  }

  lemma {:induction false} DrainShape(s: State)
    requires Shape(s)
    ensures Shape(DrainQueue(s))
  {
    IdsShape(s, s.(queued := {}));
    LateShape(s.(queued := {}), s.late, s.dropped + s.queued, s.started, []);
  }

  lemma {:induction false} InverseEmpty(s: State)
    requires Shape(s) && s.active == map[]
    ensures s.index == map[]
  {
    assert forall f :: f !in s.index;
  }

  lemma {:induction false} StepShape(s: State, e: Event)
    requires Shape(s)
    ensures Shape(Step(s, e))
  {
    match e
    case Enqueue =>
      ScheduleShape(s);
      RegisterShape(Schedule(s), s.nextId);
    case ForeignSchedule => ScheduleShape(s);
    case ForeignRegister(id) => RegisterShape(s, id);
    case RunDirectly => SubmitDirectShape(s);
    case CancelOne(id) => CancelTaskShape(s, id);
    case CancelAll(order) => if Lists(order, s.active.Keys) { CancelAllShape(s, order); }
    case ResetAll(order) => if Lists(order, s.active.Keys) { ResetShape(s, order); }
    case Shutdown => CancelCurrentShape(s);
    case ThreadEnds(f, outcome) => ThreadShape(s, f, outcome);
    case RunReady => if s.ready != [] { CallbackShape(s); }
  }

  /** Clearing the maps after cancelling everything changes nothing: they are empty already. */
  lemma {:induction false} ResetShape(s: State, order: seq<TaskId>)
    requires Shape(s) && Lists(order, s.active.Keys)
    ensures Reset(s, order) == CancelAllTasks(s, order)
    ensures Shape(Reset(s, order))
  {
    assert Reset(s, order) == CancelAllTasks(s, order).(active := map[], index := map[], queued := {});
    hide *;
    CancelAllShape(s, order);
  }

  lemma {:induction false} ThreadShape(s: State, f: FutureId, outcome: Outcome)
    requires Shape(s)
    ensures Shape(Step(s, ThreadEnds(f, outcome)))
  {
    if f in s.threads && (outcome == Result || outcome == Error) {
      var s1 := s.(ready := s.ready + [Settle(f, outcome)]);
      PushShape(s, Settle(f, outcome));
      var r := s1.(threads := s.threads - {f});
      assert Step(s, ThreadEnds(f, outcome)) == r;
      ThreadsShape(s1, r.threads);
    }
  }

  lemma {:induction false} ThreadsShape(s: State, threads: set<FutureId>)
    requires Shape(s) && threads <= s.threads
    ensures Shape(s.(threads := threads))
  {
    var r := s.(threads := threads);
    forall c <- r.ready ensures CallbackOk(r, c) { CallbackGrows(s, r, c); }
    forall k | 0 <= k < |r.ready| && r.ready[k].Wake? ensures DoneBefore(r, k, r.ready[k].worker) {
      assert DoneBefore(s, k, s.ready[k].worker);
    }
  }

  lemma {:induction false} CallbackShape(s: State)
    requires Shape(s) && s.ready != []
    ensures Shape(RunCallback(s))
  {
    var s1 := s.(ready := s.ready[1..]);
    assert s.ready[0] in s.ready && CallbackOk(s, s.ready[0]);
    match s.ready[0]
    case Put(id) =>
      PopShape(s);
      LateShape(s1, s1.late, s1.dropped, s1.started, s.queue + [id]);
      WakeGetterShape(s1.(queue := s.queue + [id]));
    case Settle(f, outcome) =>
      PopShape(s);
      CompleteShape(s1, f, outcome);
    case Done(f) => RemoveDoneShape(s, f);
    case Wake(w) => ResumeShape(s, w);
  }

  lemma {:induction false} AlwaysShaped(events: seq<Event>)
    ensures Shape(Run(events))
  {
    if events == [] {
      assert DoneBefore(INITIAL, 0, 0);
    } else {
      AlwaysShaped(events[..|events| - 1]);
      StepShape(Run(events[..|events| - 1]), events[|events| - 1]);
    }
  }

  /** In every reachable state the two indexes are inverse to each other, no task is both queued and active,
  every worker but the newest has been told to stop, and at most one active task came from the queue. */
  lemma {:induction false} IndexInvariant(events: seq<Event>)
    ensures var s := Run(events);
            && (forall id, f :: id in s.active && s.active[id] == f <==> f in s.index && s.index[f] == id)
            && s.queued !! s.active.Keys
            && (forall w :: 0 <= w < |s.workers| - 1 ==> s.workers[w].cancelled)
            && (forall a, b :: a in s.active && b in s.active && FromQueue(s, a) && FromQueue(s, b) ==> a == b)
  {
    AlwaysShaped(events);
    var s := Run(events);
    forall a, b | a in s.active && b in s.active && FromQueue(s, a) && FromQueue(s, b) ensures a == b {
      assert s.index[s.active[a]] == a && s.index[s.active[b]] == b;
    }
  }

  predicate FromQueue(s: State, id: TaskId) {
    id in s.active && s.active[id] < |s.futures| && s.futures[s.active[id]].waiter.Some?
  }
}
