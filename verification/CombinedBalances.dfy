/** The combined balance of several accounts: at each time at which any of them reports, the sum of what each
was last known to hold. */
module CombinedBalances {
  import opened Seqs
  import opened Wrappers
  import opened Balances
  import opened AccountReturns

  ghost predicate Ascending(times: seq<int>) {
    forall i, j :: 0 <= i < j < |times| ==> times[i] < times[j]
  }

  lemma {:induction false} MergeMembers(a: seq<int>, b: seq<int>)
    ensures forall t :: t in MergeTimes(a, b) <==> t in a || t in b
    decreases |a| + |b|
  {
    if a != [] && b != [] {
      var a', b' := a[..|a| - 1], b[..|b| - 1];
      var x, y := a[|a| - 1], b[|b| - 1];
      assert a == a' + [x] && b == b' + [y];
      if x == y { MergeMembers(a', b'); } else if x < y { MergeMembers(a, b'); } else { MergeMembers(a', b); }
    }
  }

  lemma {:induction false} MergeAscending(a: seq<int>, b: seq<int>)
    requires Ascending(a) && Ascending(b)
    ensures Ascending(MergeTimes(a, b))
    decreases |a| + |b|
  {
    if a != [] && b != [] {
      var a', b' := a[..|a| - 1], b[..|b| - 1];
      var x, y := a[|a| - 1], b[|b| - 1];
      if x == y {
        MergeAscending(a', b');
        MergeMembers(a', b');
        AscendingPush(MergeTimes(a', b'), x);
      } else if x < y {
        MergeAscending(a, b');
        MergeMembers(a, b');
        AscendingPush(MergeTimes(a, b'), y);
      } else {
        MergeAscending(a', b);
        MergeMembers(a', b);
        AscendingPush(MergeTimes(a', b), x);
      }
    }
  }

  lemma {:induction false} AscendingPush(times: seq<int>, t: int)
    requires Ascending(times) && forall u <- times :: u < t
    ensures Ascending(times + [t])
  {
    var more := times + [t];
    forall i, j | 0 <= i < j < |more| ensures more[i] < more[j] {
      assert times[i] in times;
    }
  }

  ghost predicate AllIncreasing(series: seq<seq<Entry>>) {
    forall s <- series :: Increasing(s)
  }

  lemma {:induction false} TimesAscending(series: seq<seq<Entry>>)
    requires AllIncreasing(series)
    ensures Ascending(Times(series))
    ensures forall t :: t in Times(series) <==> exists s <- series :: t in TimesOf(s)
  {
    if series != [] {
      var before, last := series[..|series| - 1], series[|series| - 1];
      assert last in series;
      TimesAscending(before);
      MergeAscending(Times(before), TimesOf(last));
      MergeMembers(Times(before), TimesOf(last));
      assert forall s :: s in series <==> s in before || s == last;
    }
  }

  // One column

  lemma {:induction false} LatestAt(s: seq<Entry>, t: int)
    requires Increasing(s)
    ensures t in TimesOf(s) ==> ValueAt(s, t) == Latest(s, t) && ValueAt(s, t).Some?
    ensures t !in TimesOf(s) ==> ValueAt(s, t) == None
  {
    if s != [] {
      var s' := s[..|s| - 1];
      LatestAt(s', t);
      assert TimesOf(s) == TimesOf(s') + [s[|s| - 1].t];
      assert forall u <- TimesOf(s') :: u < s[|s| - 1].t;
    }
  }

  /** Nothing changes between two times with no entry in between. */
  lemma {:induction false} LatestBetween(s: seq<Entry>, t: int, u: int)
    requires t <= u && forall e <- s :: !(t < e.t <= u)
    ensures Latest(s, t) == Latest(s, u)
  {
    if s != [] {
      assert s[|s| - 1] in s;
      LatestBetween(s[..|s| - 1], t, u);
    }
  }

  /** Forward filling an account's column over all times gives its balance in force at each of them. */
  lemma {:induction false} ColumnIsLatest(s: seq<Entry>, times: seq<int>, n: nat)
    requires Increasing(s) && Ascending(times) && n <= |times|
    requires forall t <- TimesOf(s) :: t in times
    ensures Column(s, times[..n]) == Column(s, times)[..n]
    ensures forall i :: 0 <= i < n ==> Ffill(Column(s, times[..n]))[i] == Latest(s, times[i])
  {
    ColumnPrefix(s, times, n);
    if n > 0 {
      hide *;
      ColumnIsLatest(s, times, n - 1);
      ColumnStep(s, times, n);
      PrefixPush(times, n - 1);
      ColumnPush(s, times[..n - 1], times[n - 1]);
      FfillPush(Column(s, times[..n - 1]), ValueAt(s, times[n - 1]));
    }
  }

  lemma {:induction false} ColumnPush(s: seq<Entry>, times: seq<int>, t: int)
    ensures Column(s, times + [t]) == Column(s, times) + [ValueAt(s, t)]
  {
    assert (times + [t])[..|times|] == times;
  }

  lemma {:induction false} FfillPush(col: seq<Option<real>>, cell: Option<real>)
    ensures Ffill(col + [cell])
         == Ffill(col) + [if cell.None? && col != [] then Ffill(col)[|col| - 1] else cell]
  {
    assert (col + [cell])[..|col|] == col;
  }

  /** The cell of the last time is the value there, or that of the time before. */
  lemma {:induction false} ColumnStep(s: seq<Entry>, times: seq<int>, n: nat)
    requires Increasing(s) && Ascending(times) && 0 < n <= |times|
    requires forall t <- TimesOf(s) :: t in times
    ensures var cell := ValueAt(s, times[n - 1]);
            Latest(s, times[n - 1]) == if cell.Some? || n == 1 then cell else Latest(s, times[n - 2])
  {
    var t := times[n - 1];
    LatestAt(s, t);
    if t !in TimesOf(s) {
      NoEntryBetween(s, times, n - 1);
      if n > 1 {
        LatestBetween(s, times[n - 2], t);
      } else {
        LatestBefore(s, t);
      }
    }
  }

  lemma {:induction false} NoEntryBetween(s: seq<Entry>, times: seq<int>, k: nat)
    requires Ascending(times) && k < |times| && times[k] !in TimesOf(s)
    requires forall t <- TimesOf(s) :: t in times
    ensures forall e <- s :: if k > 0 then !(times[k - 1] < e.t <= times[k]) else times[k] < e.t
  {
    forall e <- s ensures if k > 0 then !(times[k - 1] < e.t <= times[k]) else times[k] < e.t {
      var i :| 0 <= i < |s| && s[i] == e;
      assert TimesOf(s)[i] == e.t && TimesOf(s)[i] in TimesOf(s);
      var j :| 0 <= j < |times| && times[j] == e.t;
    }
  }

  lemma {:induction false} ColumnPrefix(s: seq<Entry>, times: seq<int>, n: nat)
    requires n <= |times|
    ensures Column(s, times[..n]) == Column(s, times)[..n]
  {
    if n == |times| {
      assert times[..n] == times;
    } else {
      ColumnPrefix(s, times[..|times| - 1], n);
      assert times[..|times| - 1][..n] == times[..n];
    }
  }

  // All columns

  /** The sum of the balances in force at time `t`, if every account has one. */
  function SumLatest(series: seq<seq<Entry>>, t: int): Option<real> {
    if series == [] then Some(0.0)
    else AddCells(SumLatest(series[..|series| - 1], t), Latest(series[|series| - 1], t))
  }

  lemma {:induction false} RowIsSumLatest(series: seq<seq<Entry>>, times: seq<int>, i: nat)
    requires AllIncreasing(series) && Ascending(times) && i < |times|
    requires forall s <- series :: forall t <- TimesOf(s) :: t in times
    ensures RowTotal(series, times, i) == SumLatest(series, times[i])
  {
    if series != [] {
      var before, last := series[..|series| - 1], series[|series| - 1];
      assert last in series && forall s <- before :: s in series;
      RowIsSumLatest(before, times, i);
      ColumnIsLatest(last, times, |times|);
      assert times[..|times|] == times;
    }
  }

  /** The times at which every account has reported, with the sums. */
  function LatestSums(series: seq<seq<Entry>>, times: seq<int>): seq<Entry> {
    if times == [] then []
    else
      var before, total := LatestSums(series, times[..|times| - 1]), SumLatest(series, times[|times| - 1]);
      if total.Some? then before + [Entry(times[|times| - 1], total.value)] else before
  }

  /** The combined balance at every event time is the sum of each account's latest balance at or before it. */
  lemma {:induction false} CombinedIsSumOfLatest(series: seq<seq<Entry>>)
    requires AllIncreasing(series)
    ensures Combine(series) == LatestSums(series, Times(series))
  {
    TimesAscending(series);
    CompleteRowsAre(series, Times(series), |Times(series)|);
    assert Times(series)[..|Times(series)|] == Times(series);
  }

  lemma {:induction false} CompleteRowsAre(series: seq<seq<Entry>>, times: seq<int>, n: nat)
    requires AllIncreasing(series) && Ascending(times) && n <= |times|
    requires forall s <- series :: forall t <- TimesOf(s) :: t in times
    ensures CompleteRows(series, times, n) == LatestSums(series, times[..n])
  {
    if n > 0 {
      CompleteRowsAre(series, times, n - 1);
      assert times[..n][..n - 1] == times[..n - 1];
      RowIsSumLatest(series, times, n - 1);
    }
  }

  predicate HasReported(s: seq<Entry>, t: int) {
    s != [] && s[0].t <= t
  }

  lemma {:induction false} LatestDefined(s: seq<Entry>, t: int)
    requires Increasing(s)
    ensures Latest(s, t).Some? <==> HasReported(s, t)
  {
    if s != [] {
      LatestDefined(s[..|s| - 1], t);
    }
  }

  lemma {:induction false} SumDefined(series: seq<seq<Entry>>, t: int)
    requires AllIncreasing(series)
    ensures SumLatest(series, t).Some? <==> forall s <- series :: HasReported(s, t)
  {
    if series != [] {
      var before, last := series[..|series| - 1], series[|series| - 1];
      assert last in series && forall s :: s in series <==> s in before || s == last;
      SumDefined(before, t);
      LatestDefined(last, t);
    }
  }

  /** A time appears in the combined balance exactly when some account has an entry at it and every account has
  reported by then; the combined balance is a series again. */
  lemma {:induction false} CombinedTimes(series: seq<seq<Entry>>)
    requires AllIncreasing(series)
    ensures Increasing(Combine(series))
    ensures forall t :: t in TimesOf(Combine(series)) <==>
              (exists s <- series :: t in TimesOf(s)) && forall s <- series :: HasReported(s, t)
  {
    TimesAscending(series);
    CombinedIsSumOfLatest(series);
    LatestSumsTimes(series, Times(series));
  }

  lemma {:induction false} LatestSumsTimes(series: seq<seq<Entry>>, times: seq<int>)
    requires AllIncreasing(series) && Ascending(times)
    ensures Increasing(LatestSums(series, times))
    ensures forall t :: t in TimesOf(LatestSums(series, times)) <==>
              t in times && forall s <- series :: HasReported(s, t)
  {
    if times != [] {
      var times', t := times[..|times| - 1], times[|times| - 1];
      LatestSumsTimes(series, times');
      SumDefined(series, t);
      var before, now := LatestSums(series, times'), LatestSums(series, times);
      assert forall u :: u in times <==> u in times' || u == t;
      if SumLatest(series, t).Some? {
        assert TimesOf(now) == TimesOf(before) + [t];
        forall i | 0 <= i < |before| ensures before[i].t < t {
          assert TimesOf(before)[i] in TimesOf(before);
        }
      }
    }
  }
}
