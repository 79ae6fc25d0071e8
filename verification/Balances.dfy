/** Balance series and the daily returns computed from them.

A series is a sequence of timed values; a missing value in a column is `None`, which also stands for the
undefined result of a division by zero. */
module Balances {
  import opened Wrappers

  /** Nanoseconds in a calendar day. */
  const DAY := 86_400_000_000_000

  datatype Entry = Entry(t: int, v: real)

  function DayOf(t: int): int {
    t / DAY
  }

  ghost predicate Increasing(s: seq<Entry>) {
    forall i, j :: 0 <= i < j < |s| ==> s[i].t < s[j].t
  }

  /** The value in force at time `t`: that of the last entry at or before it. */
  function Latest(s: seq<Entry>, t: int): Option<real> {
    if s == [] then None
    else if s[|s| - 1].t <= t then Some(s[|s| - 1].v)
    else Latest(s[..|s| - 1], t)
  }

  /** An entry replaces the last one of the same time, or follows the others. */
  function PutLast(s: seq<Entry>, e: Entry): seq<Entry> {
    if s != [] && s[|s| - 1].t == e.t then s[..|s| - 1] + [e] else s + [e]
  }

  // The resampling pipeline

  /** The last value of a calendar day. */
  function LastOfDay(s: seq<Entry>, d: int): Option<real> {
    if s == [] then None
    else if DayOf(s[|s| - 1].t) == d then Some(s[|s| - 1].v)
    else LastOfDay(s[..|s| - 1], d)
  }

  function FirstDay(s: seq<Entry>): int
    requires s != []
  {
    DayOf(s[0].t)
  }

  function DayCount(s: seq<Entry>): int
    requires s != []
  {
    DayOf(s[|s| - 1].t) - FirstDay(s) + 1
  }

  /** One row for each calendar day from the first entry to the last. */
  function Resample(s: seq<Entry>, n: nat): (col: seq<Option<real>>)
    requires s != []
    ensures |col| == n
  {
    if n == 0 then [] else Resample(s, n - 1) + [LastOfDay(s, FirstDay(s) + n - 1)]
  }

  function Ffill(col: seq<Option<real>>): (r: seq<Option<real>>)
    ensures |r| == |col|
  {
    if col == [] then []
    else
      var before := Ffill(col[..|col| - 1]);
      var last := col[|col| - 1];
      before + [if last.None? && before != [] then before[|before| - 1] else last]
  }

  /** The relative change between two values; undefined after a missing or a zero value. */
  function Change(a: Option<real>, b: Option<real>): Option<real> {
    if a.Some? && b.Some? && a.value != 0.0 then Some(b.value / a.value - 1.0) else None
  }

  function PctChange(col: seq<Option<real>>): (r: seq<Option<real>>)
    ensures |r| == |col|
  {
    if col == [] then []
    else PctChange(col[..|col| - 1]) + [if |col| == 1 then None else Change(col[|col| - 2], col[|col| - 1])]
  }

  /** The defined values of a column whose first row is day `first`. */
  function DropMissing(first: int, col: seq<Option<real>>): seq<Entry> {
    if col == [] then []
    else
      var before := DropMissing(first, col[..|col| - 1]);
      var last := col[|col| - 1];
      if last.Some? then before + [Entry((first + |col| - 1) * DAY, last.value)] else before
  }

  function DailyReturns(s: seq<Entry>): seq<Entry> {
    if s == [] || DayCount(s) < 0 then []
    else DropMissing(FirstDay(s), PctChange(Ffill(Resample(s, DayCount(s)))))
  }

  // What the pipeline computes

  function EndOfDay(d: int): int {
    d * DAY + DAY - 1
  }

  lemma {:induction false} DayBounds(t: int, d: int)
    ensures DayOf(t) <= d <==> t <= EndOfDay(d)
    ensures DayOf(d * DAY) == d
    ensures DayOf(EndOfDay(d)) == d
  {
  }

  /** The balance carried forward to the end of each day. */
  function Carried(s: seq<Entry>, first: int, n: nat): (col: seq<Option<real>>)
    ensures |col| == n
  {
    if n == 0 then [] else Carried(s, first, n - 1) + [Latest(s, EndOfDay(first + n - 1))]
  }

  lemma {:induction false} LastOfDayIsLatest(s: seq<Entry>, d: int)
    requires Increasing(s)
    ensures Latest(s, EndOfDay(d)) == if LastOfDay(s, d).Some? then LastOfDay(s, d) else Latest(s, EndOfDay(d - 1))
  {
    if s != [] {
      var s' := s[..|s| - 1];
      LastOfDayIsLatest(s', d);
      var t := s[|s| - 1].t;
      DayBounds(t, d);
      DayBounds(t, d - 1);
      if DayOf(t) < d {
        NoneLater(s', d);
      }
    }
  }

  lemma {:induction false} NoneLater(s: seq<Entry>, d: int)
    requires forall e <- s :: DayOf(e.t) < d
    ensures LastOfDay(s, d) == None
  {
    if s != [] {
      assert s[|s| - 1] in s;
      NoneLater(s[..|s| - 1], d);
    }
  }

  lemma {:induction false} LatestBefore(s: seq<Entry>, t: int)
    requires forall e <- s :: t < e.t
    ensures Latest(s, t) == None
  {
    if s != [] {
      assert s[|s| - 1] in s;
      LatestBefore(s[..|s| - 1], t);
    }
  }

  /** Forward filling the last values of the days gives the balance in force at the end of each day. */
  lemma {:induction false} FfillCarries(s: seq<Entry>, n: nat)
    requires Increasing(s) && s != []
    ensures Ffill(Resample(s, n)) == Carried(s, FirstDay(s), n)
  {
    if n > 0 {
      var d := FirstDay(s) + n - 1;
      FfillCarries(s, n - 1);
      assert Resample(s, n)[..n - 1] == Resample(s, n - 1);
      LastOfDayIsLatest(s, d);
      if n == 1 {
        DayBounds(s[0].t, d - 1);
        LatestBefore(s, EndOfDay(d - 1));
      }
    }
  }

  lemma {:induction false} CarriedAgree(a: seq<Entry>, b: seq<Entry>, first: int, n: nat)
    requires forall d :: Latest(a, EndOfDay(d)) == Latest(b, EndOfDay(d))
    ensures Carried(a, first, n) == Carried(b, first, n)
  {
    if n > 0 {
      CarriedAgree(a, b, first, n - 1);
    }
  }

  /** Daily returns depend only on the days covered and the balance at the end of each. */
  lemma {:induction false} ReturnsAgree(a: seq<Entry>, b: seq<Entry>)
    requires Increasing(a) && Increasing(b) && a != [] && b != []
    requires FirstDay(a) == FirstDay(b) && DayCount(a) == DayCount(b)
    requires forall d :: Latest(a, EndOfDay(d)) == Latest(b, EndOfDay(d))
    ensures DailyReturns(a) == DailyReturns(b)
  {
    if DayCount(a) >= 0 {
      FfillCarries(a, DayCount(a));
      FfillCarries(b, DayCount(a));
      CarriedAgree(a, b, FirstDay(a), DayCount(a));
    }
  }

  lemma {:induction false} DaysOrdered(s: seq<Entry>)
    requires Increasing(s) && s != []
    ensures DayCount(s) >= 1
  {
    assert s[0].t <= s[|s| - 1].t;
  }

  /** A single day has no return. */
  lemma {:induction false} OneDayNoReturns(s: seq<Entry>)
    requires s != [] && DayCount(s) == 1
    ensures DailyReturns(s) == []
  {
    var changes := PctChange(Ffill(Resample(s, 1)));
    assert changes[..0] == [];
    assert changes == [None];
    assert DropMissing(FirstDay(s), changes[..0]) == [];
  }
}
