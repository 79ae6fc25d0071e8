/** Which queued tasks start, and in which order, in every interleaving. */
module ExecutorHistory {
  import opened Wrappers
  import opened Executor
  import opened ExecutorShape

  /** The tasks whose delayed `put_nowait` is still due. */
  function Puts(ready: seq<Callback>): seq<TaskId> {
    if ready == [] then []
    else if ready[0].Put? then [ready[0].id] + Puts(ready[1..])
    else Puts(ready[1..])
  }

  lemma {:induction false} PutsAppend(a: seq<Callback>, b: seq<Callback>)
    ensures Puts(a + b) == Puts(a) + Puts(b)
  {
    if a == [] {
      assert a + b == b;
    } else {
      assert (a + b)[1..] == a[1..] + b;
      PutsAppend(a[1..], b);
    }
  }

  lemma {:induction false} PutsMember(ready: seq<Callback>, id: TaskId)
    ensures id in Puts(ready) <==> Put(id) in ready
  {
    if ready != [] {
      PutsMember(ready[1..], id);
    }
  }

  /** The part of a state that concerns queued tasks. */
  datatype Record = Record(
    queue: seq<TaskId>,
    puts: seq<TaskId>,
    queued: set<TaskId>,
    started: seq<TaskId>,
    dropped: set<TaskId>,
    late: set<TaskId>,
    unregistered: set<TaskId>,
    nextId: TaskId)

  function Rec(s: State): Record {
    Record(s.queue, Puts(s.ready), s.queued, s.started, s.dropped, s.late, s.unregistered, s.nextId)
  }

  /** Everything that has started, then what waits in the queue, then what is still to be put there. */
  function Line(r: Record): seq<TaskId> {
    r.started + r.queue + r.puts
  }

  ghost predicate Increasing(a: seq<TaskId>) {
    forall i, j :: 0 <= i < j < |a| ==> a[i] < a[j]
  }

  ghost predicate Ordered(r: Record) {
    Increasing(Line(r) + [r.nextId])
  }

  /** Leaving out a part keeps the order. */
  lemma {:induction false} IncreasingCut(a: seq<TaskId>, b: seq<TaskId>, c: seq<TaskId>)
    requires Increasing(a + b + c)
    ensures Increasing(a + c)
  {
    forall i, j | 0 <= i < j < |a + c| ensures (a + c)[i] < (a + c)[j] {
      var i', j' := if i < |a| then i else i + |b|, if j < |a| then j else j + |b|;
      assert (a + b + c)[i'] == (a + c)[i] && (a + b + c)[j'] == (a + c)[j];
    }
  }

  /** A started task is neither queued, nor dropped, nor late; a dropped one is not queued; what is not
  registered yet is none of these; and a late one has no item left. */
  ghost predicate Separate(r: Record) {
    && (forall id <- r.queued :: id < r.nextId && id !in r.started)
    && (forall id <- r.dropped :: id < r.nextId && id !in r.started)
    && (forall id <- r.unregistered :: id < r.nextId && id !in r.started)
    && (forall id <- r.late :: id < r.nextId && id !in r.started)
    && r.dropped !! r.queued
    && r.unregistered !! r.queued
    && r.unregistered !! r.dropped
    && (forall id <- r.late :: id !in r.queue && id !in r.puts)
  }

  ghost predicate Hist(s: State) {
    Ordered(Rec(s)) && Separate(Rec(s))
  }

  // Operations that do not touch queued tasks

  lemma {:induction false} CompleteRec(s: State, f: FutureId, outcome: Outcome)
    requires f < |s.futures|
    ensures Rec(Complete(s, f, outcome)) == Rec(s)
  {
    var waiter := s.futures[f].waiter;
    PutsAppend(s.ready, [Done(f)]);
    PutsAppend(s.ready + [Done(f)], Wakes(waiter));
    assert [Done(f)][1..] == [];
    assert waiter.Some? ==> Wakes(waiter)[1..] == [];
  }

  lemma {:induction false} PushRec(s: State, c: Callback)
    requires !c.Put?
    ensures Rec(s.(ready := s.ready + [c])) == Rec(s)
  {
    PutsAppend(s.ready, [c]);
    assert [c][1..] == [];
  }

  lemma {:induction false} CancelCurrentRec(s: State)
    ensures Rec(CancelCurrent(s)) == Rec(s)
  {
    if s.workers != [] {
      var w := |s.workers| - 1;
      var s1 := s.(workers := s.workers[w := s.workers[w].(cancelled := true)]);
      PushRec(s1, Wake(w));
      if s.workers[w].point.AtAwait? && s.workers[w].point.future < |s.futures| {
        CompleteRec(s1, s.workers[w].point.future, Cancelled);
      }
    }
  }

  lemma {:induction false} WakeGetterRec(s: State)
    ensures Rec(WakeGetter(s)) == Rec(s)
  {
    if s.getters != [] {
      PushRec(s, Wake(s.getters[0]));
    }
  }

  // Operations on queued tasks

  lemma {:induction false} ScheduleHist(s: State)
    requires Hist(s)
    ensures Hist(Schedule(s))
  {
    var id := s.nextId;
    PutsAppend(s.ready, [Put(id)]);
    assert [Put(id)][1..] == [];
    var r := Rec(Schedule(s));
    assert r == Rec(s).(puts := Puts(s.ready) + [id], nextId := id + 1, unregistered := s.unregistered + {id});
    assert Line(r) == Line(Rec(s)) + [id];
    IdGrows(Rec(s), r);
  }

  lemma {:induction false} IdGrows(r: Record, t: Record)
    requires Ordered(r) && t.nextId == r.nextId + 1 && (Line(t) == Line(r) + [r.nextId] || Line(t) == Line(r))
    ensures Ordered(t)
    ensures r.nextId !in r.started
  {
    var n := |Line(r)|;
    var line, line' := Line(r) + [r.nextId], Line(t) + [t.nextId];
    forall k | 0 <= k < n ensures Line(r)[k] < r.nextId {
      assert line[k] < line[n];
    }
    forall k | 0 <= k < |r.started| ensures r.started[k] != r.nextId {
      assert Line(r)[k] == r.started[k];
    }
    forall i, j | 0 <= i < j < |line'| ensures line'[i] < line'[j] {
      assert i < n ==> line'[i] == line[i] == Line(r)[i];
      assert j < n ==> line'[j] == line[j];
    }
  }

  lemma {:induction false} RegisterHist(s: State, id: TaskId)
    requires Hist(s)
    ensures Hist(Register(s, id))
  {
    PutsMember(s.ready, id);
  }

  lemma {:induction false} CancelTaskHist(s: State, id: TaskId)
    requires Hist(s)
    ensures Hist(CancelTask(s, id))
    ensures CancelTask(s, id).dropped == s.dropped + ({id} * s.queued)
    ensures id !in s.queued ==> Rec(CancelTask(s, id)) == Rec(s)
  {
    if id !in s.queued && id in s.active && s.active[id] < |s.futures| {
      var f := s.active[id];
      CompleteRec(s.(active := s.active - {id}, index := s.index - {f}), f, Cancelled);
    }
  }

  lemma {:induction false} CancelEachRec(s: State, ids: seq<TaskId>)
    requires s.queued == {} && Hist(s)
    ensures Rec(CancelEach(s, ids)) == Rec(s)
    decreases |ids|
  {
    if ids != [] {
      CancelTaskHist(s, ids[0]);
      var s1 := CancelTask(s, ids[0]);
      assert Rec(s1).queued == {};
      CancelEachRec(s1, ids[1..]);
    }
  }

  lemma {:induction false} CancelAllHist(s: State, order: seq<TaskId>)
    requires Hist(s)
    ensures Rec(CancelAllTasks(s, order)) == Rec(DrainQueue(s))
    ensures Hist(CancelAllTasks(s, order))
  {
    var s1 := DrainQueue(s);
    DrainHist(s);
    var s2 := CancelCurrent(s1);
    CancelCurrentRec(s1);
    assert Rec(s2).queued == {};
    CancelEachRec(s2, order);
    PushRec(CancelEach(s2, order), Wake(|CancelEach(s2, order).workers|));
  }

  lemma {:induction false} StartHist(s: State, w: WorkerId)
    requires Hist(s) && w < |s.workers| && s.queue != [] && s.queue[0] in s.queued
    ensures Hist(GetLoop(s, w)) && GetLoop(s, w).dropped == s.dropped
  {
    var id, rest, r := s.queue[0], s.queue[1..], GetLoop(s, w);
    assert Rec(r) == Rec(s).(queue := rest, queued := s.queued - {id}, started := s.started + [id]);
    hide GetLoop;
    assert s.queue == [id] + rest;
    assert Line(Rec(r)) == Line(Rec(s));
    assert Ordered(Rec(r));
    hide Ordered;
    assert forall x :: x in r.started <==> x in s.started || x == id;
    assert id in s.queue && forall x <- rest :: x in s.queue;
    assert Separate(Rec(r));
  }

  lemma {:induction false} GetLoopHist(s: State, w: WorkerId)
    requires Hist(s) && w < |s.workers|
    ensures Hist(GetLoop(s, w))
    ensures GetLoop(s, w).dropped == s.dropped
    decreases |s.queue|
  {
    if s.queue != [] {
      var s1 := s.(queue := s.queue[1..]);
      if s.queue[0] !in s.queued {
        DiscardHist(s);
        hide Hist;
        GetLoopHist(s1, w);
      } else {
        StartHist(s, w);
      }
    }
  }

  lemma {:induction false} DiscardHist(s: State)
    requires Hist(s) && s.queue != []
    ensures Hist(s.(queue := s.queue[1..]))
  {
    var r := Rec(s);
    assert s.queue == [s.queue[0]] + s.queue[1..];
    assert Line(r) + [r.nextId] == r.started + [s.queue[0]] + (s.queue[1..] + r.puts + [r.nextId]);
    IncreasingCut(r.started, [s.queue[0]], s.queue[1..] + r.puts + [r.nextId]);
    assert r.started + (s.queue[1..] + r.puts + [r.nextId]) == Line(r.(queue := s.queue[1..])) + [r.nextId];
  }

  lemma {:induction false} DrainHist(s: State)
    requires Hist(s)
    ensures Hist(DrainQueue(s))
  {
    var r := Rec(s);
    assert Line(r) + [r.nextId] == r.started + r.queue + (r.puts + [r.nextId]);
    IncreasingCut(r.started, r.queue, r.puts + [r.nextId]);
    assert r.started + (r.puts + [r.nextId]) == Line(r.(queue := [])) + [r.nextId];
  }

  lemma {:induction false} CallbackHist(s: State)
    requires Hist(s) && Shape(s) && s.ready != []
    ensures Hist(RunCallback(s))
    ensures RunCallback(s).dropped == s.dropped
  {
    var s1 := s.(ready := s.ready[1..]);
    match s.ready[0]
    case Put(id) =>
      var s2 := s1.(queue := s.queue + [id]);
      PutHist(s);
      WakeGetterRec(s2);
    case Settle(f, outcome) =>
      if f < |s.futures| { CompleteRec(s1, f, outcome); }
    case Done(f) =>
      assert f in s.index ==> s.index[f] in s.active;
      assert f in s.index ==> s.queued - {s.index[f]} == s.queued;
    case Wake(w) =>
      if w < |s.workers| {
        assert Rec(s1) == Rec(s);
        ResumeHist(s1, w);
      }
  }

  lemma {:induction false} PutHist(s: State)
    requires Hist(s) && s.ready != [] && s.ready[0].Put?
    ensures Hist(s.(ready := s.ready[1..], queue := s.queue + [s.ready[0].id]))
  {
    var id := s.ready[0].id;
    var r := s.(ready := s.ready[1..], queue := s.queue + [id]);
    assert Puts(s.ready) == [id] + Puts(r.ready);
    assert Line(Rec(r)) == Line(Rec(s));
    assert id in Puts(s.ready) && forall x <- Puts(r.ready) :: x in Puts(s.ready);
  }

  lemma {:induction false} ResumeHist(s: State, w: WorkerId)
    requires Hist(s) && w < |s.workers|
    ensures Hist(Resume(s, w)) && Resume(s, w).dropped == s.dropped
  {
    GetLoopHist(s, w);
    WakeGetterRec(s.WithWorker(w, Stopped));
  }

  lemma {:induction false} DirectHist(s: State)
    requires Hist(s)
    ensures Hist(RunInExecutor(s))
  {
    IdGrows(Rec(s), Rec(RunInExecutor(s)));
  }

  lemma {:induction false} StepHist(s: State, e: Event)
    requires Hist(s) && Shape(s)
    ensures Hist(Step(s, e))
    ensures s.dropped <= Step(s, e).dropped
  {
    hide Shape;
    hide Ordered;
    hide Separate;
    match e
    case Enqueue =>
      ScheduleHist(s);
      RegisterHist(Schedule(s), s.nextId);
    case ForeignSchedule => ScheduleHist(s);
    case ForeignRegister(id) => RegisterHist(s, id);
    case RunDirectly => DirectHist(s);
    case CancelOne(id) => CancelTaskHist(s, id);
    case CancelAll(order) => CancelAllHist(s, order);
    case ResetAll(order) =>
      if Lists(order, s.active.Keys) {
        ResetShape(s, order);
        CancelAllHist(s, order);
      }
    case Shutdown => CancelCurrentRec(s);
    case ThreadEnds(f, outcome) => PushRec(s, Settle(f, outcome));
    case RunReady => if s.ready != [] { CallbackHist(s); }
  }

  lemma {:induction false} AlwaysHist(events: seq<Event>)
    ensures Hist(Run(events))
  {
    if events == [] {
      assert Puts(INITIAL.ready[1..]) == [];
    } else {
      AlwaysHist(events[..|events| - 1]);
      AlwaysShaped(events[..|events| - 1]);
      StepHist(Run(events[..|events| - 1]), events[|events| - 1]);
    }
  }

  lemma {:induction false} DroppedStays(events: seq<Event>, more: seq<Event>)
    ensures Run(events).dropped <= Run(events + more).dropped
  {
    hide Step;
    if more == [] {
      assert events + more == events;
    } else {
      var n := |more| - 1;
      assert (events + more)[..|events| + n] == events + more[..n];
      assert Run(events + more) == Step(Run(events + more[..n]), more[n]);
      hide *;
      DroppedStays(events, more[..n]);
      AlwaysHist(events + more[..n]);
      AlwaysShaped(events + more[..n]);
      StepHist(Run(events + more[..n]), more[n]);
    }
  }

  /** In every interleaving, tasks start at most once and in the order in which they were queued, and the
  queue never holds a task out of that order. */
  lemma {:induction false} StartsInOrder(events: seq<Event>, i: nat, j: nat)
    requires i < j < |Run(events).started|
    ensures Run(events).started[i] < Run(events).started[j] < Run(events).nextId
  {
    AlwaysHist(events);
    var r := Rec(Run(events));
    var line := Line(r) + [r.nextId];
    assert line[i] == r.started[i] && line[j] == r.started[j] && line[|line| - 1] == r.nextId;
  }

  predicate Cancels(s: State, e: Event, id: TaskId) {
    id in s.queued && (e == CancelOne(id) || ((e.CancelAll? || e.ResetAll?) && Lists(e.order, s.active.Keys)))
  }

  /** A task cancelled or drained while it is queued never starts, whatever happens next; in particular when
  its delayed `put_nowait` lands after the drain. */
  lemma {:induction false} CancelledNeverStarts(before: seq<Event>, e: Event, after: seq<Event>, id: TaskId)
    requires Cancels(Run(before), e, id)
    ensures id !in Run(before + [e] + after).started
  {
    hide Shape;
    var s := Run(before);
    AlwaysHist(before);
    AlwaysShaped(before);
    assert (before + [e])[..|before|] == before;
    var r := Run(before + [e]);
    assert id in r.dropped by {
      if e.CancelOne? {
        CancelTaskHist(s, id);
      } else {
        CancelAllHist(s, e.order);
        ResetShape(s, e.order);
        assert id in Rec(DrainQueue(s)).dropped;
      }
    }
    DroppedStays(before + [e], after);
    AlwaysHist(before + [e] + after);
  }
}
