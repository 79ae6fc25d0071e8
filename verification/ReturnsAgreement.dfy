/** For one account the analyzer and the tearsheet arrive at the same daily returns. */
module ReturnsAgreement {
  import opened Seqs
  import opened Wrappers
  import opened Balances
  import opened AccountReturns
  import opened CombinedBalances

  ghost predicate DistinctTimes(events: seq<AccountEvent>) {
    forall i, j :: 0 <= i < j < |events| ==> events[i].ts != events[j].ts
  }

  /** An account event carries at most one balance in each currency. */
  ghost predicate OneEach(e: AccountEvent) {
    forall i, j :: 0 <= i < j < |e.balances| ==> e.balances[i].currency != e.balances[j].currency
  }

  ghost predicate Chronological(events: seq<AccountEvent>) {
    forall i, j :: 0 <= i < j < |events| ==> events[i].ts < events[j].ts
  }

  // Sorting events and sorting rows

  lemma {:induction false} RowsPush(s: seq<AccountEvent>, e: AccountEvent)
    ensures Rows(s + [e]) == Rows(s) + RowsOf(e.ts, e.balances)
  {
    assert (s + [e])[..|s|] == s;
  }

  lemma {:induction false} InsertIs(e: AccountEvent, s: seq<AccountEvent>)
    ensures InsertEvent(e, s)
         == if s == [] || s[|s| - 1].ts <= e.ts then s + [e] else InsertEvent(e, s[..|s| - 1]) + [s[|s| - 1]]
  {
  }

  lemma {:induction false} InsertMembers(e: AccountEvent, s: seq<AccountEvent>)
    ensures |InsertEvent(e, s)| == |s| + 1
    ensures forall x :: x in InsertEvent(e, s) <==> x == e || x in s
  {
    hide *;
    InsertIs(e, s);
    if s != [] {
      LastSplit(s);
      InsertMembers(e, s[..|s| - 1]);
    }
  }

  lemma {:induction false} InsertRows(e: AccountEvent, s: seq<AccountEvent>)
    ensures multiset(Rows(InsertEvent(e, s))) == multiset(Rows(s)) + multiset(RowsOf(e.ts, e.balances))
  {
    hide *;
    InsertIs(e, s);
    RowsPush(s, e);
    if s != [] {
      var s', last := s[..|s| - 1], s[|s| - 1];
      LastSplit(s);
      InsertRows(e, s');
      RowsPush(s', last);
      RowsPush(InsertEvent(e, s'), last);
    }
  }

  lemma {:induction false} InsertChronological(e: AccountEvent, s: seq<AccountEvent>)
    requires Chronological(s) && forall x <- s :: x.ts != e.ts
    ensures Chronological(InsertEvent(e, s))
  {
    if s != [] {
      var s', last := s[..|s| - 1], s[|s| - 1];
      assert last in s;
      if e.ts < last.ts {
        InsertChronological(e, s');
        InsertMembers(e, s');
        ChronologicalPush(InsertEvent(e, s'), last);
      } else {
        ChronologicalPush(s, e);
      }
    }
  }

  lemma {:induction false} ChronologicalPush(s: seq<AccountEvent>, e: AccountEvent)
    requires Chronological(s) && forall x <- s :: x.ts < e.ts
    ensures Chronological(s + [e])
  {
    var r := s + [e];
    forall i, j | 0 <= i < j < |r| ensures r[i].ts < r[j].ts {
      assert s[i] in s;
    }
  }

  lemma {:induction false} SortMembers(events: seq<AccountEvent>)
    ensures |SortEvents(events)| == |events|
    ensures forall x :: x in SortEvents(events) <==> x in events
  {
    if events != [] {
      var before, e := events[..|events| - 1], events[|events| - 1];
      assert SortEvents(events) == InsertEvent(e, SortEvents(before));
      hide *;
      SortMembers(before);
      InsertMembers(e, SortEvents(before));
      LastSplit(events);
    }
  }

  lemma {:induction false} SortRows(events: seq<AccountEvent>)
    ensures multiset(Rows(SortEvents(events))) == multiset(Rows(events))
  {
    if events != [] {
      var before, e := events[..|events| - 1], events[|events| - 1];
      assert SortEvents(events) == InsertEvent(e, SortEvents(before));
      hide *;
      SortRows(before);
      InsertRows(e, SortEvents(before));
      LastSplit(events);
      RowsPush(before, e);
    }
  }

  lemma {:induction false} SortChronological(events: seq<AccountEvent>)
    requires DistinctTimes(events)
    ensures Chronological(SortEvents(events))
  {
    if events != [] {
      var before, e := events[..|events| - 1], events[|events| - 1];
      SortChronological(before);
      SortMembers(before);
      forall x <- SortEvents(before) ensures x.ts != e.ts {
        assert x in before;
        var i :| 0 <= i < |before| && before[i] == x;
        assert events[i] == x;
      }
      InsertChronological(e, SortEvents(before));
    }
  }

  ghost predicate RowsSorted(rows: seq<Row>) {
    forall i, j :: 0 <= i < j < |rows| ==> rows[i].t <= rows[j].t
  }

  ghost predicate RowsStrict(rows: seq<Row>) {
    forall i, j :: 0 <= i < j < |rows| ==> rows[i].t < rows[j].t
  }

  /** Rows at distinct times can be sorted in one way only. */
  lemma {:induction false} SortedOnce(a: seq<Row>, b: seq<Row>)
    requires RowsStrict(a) && RowsSorted(b) && multiset(a) == multiset(b)
    ensures a == b
    decreases |a|
  {
    assert |a| == |multiset(a)| == |multiset(b)| == |b|;
    if a != [] {
      var n := |a| - 1;
      LastRow(a, b);
      assert RowsStrict(a[..n]) && RowsSorted(b[..n]);
      hide *;
      WithoutLast(a);
      WithoutLast(b);
      SortedOnce(a[..n], b[..n]);
    }
  }

  lemma {:induction false} WithoutLast(a: seq<Row>)
    requires a != []
    ensures a == a[..|a| - 1] + [a[|a| - 1]]
    ensures multiset(a[..|a| - 1]) == multiset(a) - multiset{a[|a| - 1]}
  {
    assert a == a[..|a| - 1] + [a[|a| - 1]];
  }

  lemma {:induction false} LastRow(a: seq<Row>, b: seq<Row>)
    requires RowsStrict(a) && RowsSorted(b) && multiset(a) == multiset(b) && a != [] && |a| == |b|
    ensures a[|a| - 1] == b[|b| - 1]
  {
    var n := |a| - 1;
    assert b[n] in multiset(b) && a[n] in multiset(a);
    assert b[n] in a && a[n] in b;
    var i :| 0 <= i < |a| && a[i] == b[n];
    var j :| 0 <= j < |b| && b[j] == a[n];
    assert a[n].t <= b[n].t;
  }

  // What the analyzer collects

  /** The times and totals of the events that carry a balance. */
  function Points(events: seq<AccountEvent>): seq<Entry> {
    if events == [] then []
    else
      var before, e := Points(events[..|events| - 1]), events[|events| - 1];
      if e.balances == [] then before else before + [Entry(e.ts, e.balances[0].total)]
  }

  /** The last value of each day, in order. */
  function DailyOf(points: seq<Entry>): seq<Entry> {
    if points == [] then []
    else
      var before, e := DailyOf(points[..|points| - 1]), points[|points| - 1];
      PutLast(before, Entry(DayOf(e.t) * DAY, e.v))
  }

  lemma {:induction false} EarlierEvents(events: seq<AccountEvent>)
    requires Chronological(events) && events != []
    ensures forall x <- events[..|events| - 1] :: x.ts < events[|events| - 1].ts
  {
    var before := events[..|events| - 1];
    forall x <- before ensures x.ts < events[|events| - 1].ts {
      var i :| 0 <= i < |before| && before[i] == x;
      assert events[i] == x;
    }
  }

  lemma {:induction false} PointsBounded(events: seq<AccountEvent>, t: int)
    requires Chronological(events) && forall e <- events :: e.ts < t
    ensures Increasing(Points(events)) && forall p <- Points(events) :: p.t < t
  {
    if events != [] {
      var before, e := events[..|events| - 1], events[|events| - 1];
      assert Chronological(before);
      EarlierEvents(events);
      assert e in events;
      hide Increasing;
      hide Chronological;
      PointsBounded(before, e.ts);
      IncreasingPush(Points(before), e.ts);
    }
  }

  lemma {:induction false} IncreasingPush(s: seq<Entry>, t: int)
    requires Increasing(s) && forall e <- s :: e.t < t
    ensures forall v: real :: Increasing(s + [Entry(t, v)])
  {
    forall v: real ensures Increasing(s + [Entry(t, v)]) {
      var r := s + [Entry(t, v)];
      forall i, j | 0 <= i < j < |r| ensures r[i].t < r[j].t {
        assert s[i] in s;
      }
    }
  }

  lemma {:induction false} PointsIncreasing(events: seq<AccountEvent>)
    requires Chronological(events)
    ensures Increasing(Points(events))
  {
    if events != [] {
      var t := events[|events| - 1].ts + 1;
      PointsBounded(events, t);
    }
  }

  lemma {:induction false} PutLastIncreasing(d: seq<Entry>, e: Entry)
    requires Increasing(d) && (d != [] ==> d[|d| - 1].t <= e.t)
    ensures var r := PutLast(d, e);
            Increasing(r) && r != [] && r[|r| - 1] == e && r[0].t == if d == [] then e.t else d[0].t
  {
  }

  /** Days only move forward. */
  lemma {:induction false} DailyFacts(points: seq<Entry>)
    requires Increasing(points)
    ensures var d := DailyOf(points);
            && Increasing(d) && (d == [] <==> points == [])
            && (points != [] ==>
                  d[0].t == DayOf(points[0].t) * DAY && d[|d| - 1].t == DayOf(points[|points| - 1].t) * DAY)
            && (points != [] ==> d[|d| - 1].v == points[|points| - 1].v)
  {
    if points == [] {
      assert DailyOf(points) == [];
    } else {
      var before, e := points[..|points| - 1], points[|points| - 1];
      assert Increasing(before) && (before != [] ==> before[|before| - 1].t <= e.t && before[0] == points[0]);
      assert DailyOf(points) == PutLast(DailyOf(before), Entry(DayOf(e.t) * DAY, e.v));
      hide *;
      DailyFacts(before);
      if before != [] {
        DayMonotone(before[|before| - 1].t, e.t);
      }
      PutLastIncreasing(DailyOf(before), Entry(DayOf(e.t) * DAY, e.v));
    }
  }

  lemma {:induction false} DayMonotone(t: int, u: int)
    requires t <= u
    ensures DayOf(t) <= DayOf(u)
    ensures DayOf(t) * DAY == DayOf(u) * DAY <==> DayOf(t) == DayOf(u)
    ensures DayOf(t) < DayOf(u) ==> DayOf(t) * DAY < DayOf(u) * DAY
    ensures DayOf(t) * DAY <= DayOf(u) * DAY
  {
  }

  /** Assigning to a dictionary whose keys ascend, at its last key or beyond. */
  lemma {:induction false} SetItemLast(d: seq<Entry>, k: int, v: real)
    requires Increasing(d) && (d != [] ==> d[|d| - 1].t <= k)
    ensures SetItem(d, k, v) == PutLast(d, Entry(k, v))
  {
    if |d| > 1 {
      SetItemLast(d[1..], k, v);
    }
  }

  lemma {:induction false} SortEntriesId(d: seq<Entry>)
    requires Increasing(d)
    ensures SortEntries(d) == d
  {
    if d != [] {
      var before, e := d[..|d| - 1], d[|d| - 1];
      assert SortEntries(d) == InsertEntry(e, SortEntries(before));
      assert Increasing(before) && (before != [] ==> before[|before| - 1].t < e.t);
      assert InsertEntry(e, before) == before + [e];
      hide *;
      SortEntriesId(before);
      assert d == before + [e];
    }
  }

  /** The last values of the days carry the same balances to the ends of days as the series they come from. */
  lemma {:induction false} DailyLatest(points: seq<Entry>, d: int)
    requires Increasing(points)
    ensures Latest(DailyOf(points), EndOfDay(d)) == Latest(points, EndOfDay(d))
  {
    if points != [] {
      var before, e := points[..|points| - 1], points[|points| - 1];
      DailyLatest(before, d);
      DailyFacts(points);
      DailyFacts(before);
      DayBounds(e.t, d);
      DayBounds(DayOf(e.t) * DAY, d);
      DayBounds(e.t, DayOf(e.t));
    }
  }

  lemma {:induction false} SameDays(d: seq<Entry>, points: seq<Entry>)
    requires d != [] && points != []
    requires d[0].t == DayOf(points[0].t) * DAY && d[|d| - 1].t == DayOf(points[|points| - 1].t) * DAY
    ensures FirstDay(d) == FirstDay(points) && DayCount(d) == DayCount(points)
  {
    DayBounds(0, DayOf(points[0].t));
    DayBounds(0, DayOf(points[|points| - 1].t));
    hide DayOf;
  }

  /** Resampling to days first makes no difference. */
  lemma {:induction false} DailyReturnsOfDaily(points: seq<Entry>)
    requires Increasing(points) && points != []
    ensures DailyReturns(DailyOf(points)) == DailyReturns(points)
  {
    hide *;
    var d := DailyOf(points);
    DailyFacts(points);
    SameDays(d, points);
    forall day ensures Latest(d, EndOfDay(day)) == Latest(points, EndOfDay(day)) {
      DailyLatest(points, day);
    }
    ReturnsAgree(d, points);
  }

  // What the tearsheet extracts

  lemma {:induction false} OneRow(t: int, b: Balance)
    ensures RowsOf(t, [b]) == [Row(t, b.currency, b.total)]
  {
    assert [b][..0] == [];
  }

  /** An account in one currency: the analyzer's map holds the last point of each day. */
  lemma {:induction false} CollectDaily(events: seq<AccountEvent>)
    requires Chronological(events) && !Collect(events).Failed?
    ensures Collect(events).daily == DailyOf(Points(events))
  {
    if events != [] {
      var before, e := events[..|events| - 1], events[|events| - 1];
      assert events == before + [e];
      PointsBefore(before, e);
      CollectDaily(before);
      if e.balances != [] {
        var points := Points(before);
        assert Points(events) == points + [Entry(e.ts, e.balances[0].total)];
        assert Collect(events).daily == SetItem(DailyOf(points), DayOf(e.ts) * DAY, e.balances[0].total);
        DailyPush(points, e.ts, e.balances[0].total);
      }
    }
  }

  lemma {:induction false} DailyPush(points: seq<Entry>, t: int, v: real)
    requires Increasing(points) && forall p <- points :: p.t < t
    ensures SetItem(DailyOf(points), DayOf(t) * DAY, v) == DailyOf(points + [Entry(t, v)])
  {
    assert (points + [Entry(t, v)])[..|points|] == points;
    DailyFacts(points);
    if points != [] {
      assert points[|points| - 1] in points;
      DayMonotone(points[|points| - 1].t, t);
    }
    SetItemLast(DailyOf(points), DayOf(t) * DAY, v);
  }

  /** And the rows of its report are its points. */
  lemma {:induction false} CollectRows(events: seq<AccountEvent>)
    requires Chronological(events) && !Collect(events).Failed?
    ensures Collect(events).currency.None? <==> Rows(events) == []
    ensures forall r <- Rows(events) :: Some(r.currency) == Collect(events).currency
    ensures TotalsAre(Rows(events), Points(events))
  {
    if events != [] {
      var before, e := events[..|events| - 1], events[|events| - 1];
      assert events == before + [e];
      PointsBefore(before, e);
      CollectRows(before);
      if e.balances != [] {
        var b := e.balances[0];
        assert e.balances == [b];
        OneRow(e.ts, b);
        var row := Row(e.ts, b.currency, b.total);
        assert Rows(events) == Rows(before) + [row];
        assert Points(events) == Points(before) + [Entry(e.ts, b.total)];
        TotalsPush(Rows(before), Points(before), row);
      } else {
        assert Rows(events) == Rows(before) + [] == Rows(before);
      }
    }
  }

  /** Rows at ascending times make one point each. */
  ghost predicate TotalsAre(rows: seq<Row>, points: seq<Entry>) {
    && |rows| == |points| && Totals(rows) == points
    && forall i :: 0 <= i < |rows| ==> rows[i].t == points[i].t
  }

  lemma {:induction false} TotalsPush(rows: seq<Row>, points: seq<Entry>, row: Row)
    requires TotalsAre(rows, points) && forall p <- points :: p.t < row.t
    ensures TotalsAre(rows + [row], points + [Entry(row.t, row.total)])
  {
    assert (rows + [row])[..|rows|] == rows;
    if points != [] {
      assert points[|points| - 1] in points;
    }
  }

  lemma {:induction false} PointsBefore(before: seq<AccountEvent>, e: AccountEvent)
    requires Chronological(before + [e])
    ensures Chronological(before) && Increasing(Points(before)) && forall p <- Points(before) :: p.t < e.ts
  {
    var all := before + [e];
    assert Chronological(before) by {
      forall i, j | 0 <= i < j < |before| ensures before[i].ts < before[j].ts {
        assert all[i] == before[i] && all[j] == before[j];
      }
    }
    forall x <- before ensures x.ts < e.ts {
      var i :| 0 <= i < |before| && before[i] == x;
      assert all[i] == x && all[|before|] == e;
    }
    PointsBounded(before, e.ts);
  }

  lemma {:induction false} RowOf(t: int, balances: seq<Balance>, i: nat)
    requires i < |balances|
    ensures Row(t, balances[i].currency, balances[i].total) in RowsOf(t, balances)
  {
    if i < |balances| - 1 {
      RowOf(t, balances[..|balances| - 1], i);
    }
  }

  /** The analyzer gives up only on an account whose report shows two currencies. */
  lemma {:induction false} CollectFails(events: seq<AccountEvent>) returns (a: Row, b: Row)
    requires Chronological(events) && Collect(events).Failed? && forall e <- events :: OneEach(e)
    ensures a in Rows(events) && b in Rows(events) && a.currency != b.currency
  {
    var before, e := events[..|events| - 1], events[|events| - 1];
    assert events == before + [e] && e in events;
    assert Rows(events) == Rows(before) + RowsOf(e.ts, e.balances);
    if Collect(before).Failed? {
      a, b := CollectFails(before);
    } else {
      PointsBefore(before, e);
      CollectRows(before);
      RowOf(e.ts, e.balances, 0);
      a := Row(e.ts, e.balances[0].currency, e.balances[0].total);
      if |e.balances| >= 2 {
        RowOf(e.ts, e.balances, 1);
        b := Row(e.ts, e.balances[1].currency, e.balances[1].total);
      } else {
        b := Rows(before)[0];
        assert b in Rows(before);
      }
    }
  }

  lemma {:induction false} Singleton<T>(s: set<T>, x: T, y: T)
    requires |s| == 1 && x in s && y in s
    ensures x == y
  {
    var rest := s - {x};
    assert |rest| == 0;
    assert y !in rest;
  }

  lemma {:induction false} MixedReport(report: seq<Row>, a: Row, b: Row)
    requires a in report && b in report && a.currency != b.currency
    ensures CombinedReturns([report], None) == None
  {
    var cs := Currencies(report);
    assert a.currency in cs && b.currency in cs;
    assert |cs| != 1 by {
      if |cs| == 1 { Singleton(cs, a.currency, b.currency); }
    }
    assert [report][..0] == [];
    assert Gather([report], None) == Stopped;
  }

  // One account

  lemma {:induction false} CombineOnePrefix(s: seq<Entry>, n: nat)
    requires Increasing(s) && n <= |s|
    ensures LatestSums([s], TimesOf(s)[..n]) == s[..n]
  {
    if n > 0 {
      var times := TimesOf(s);
      assert times[n - 1] == s[n - 1].t;
      hide *;
      CombineOnePrefix(s, n - 1);
      LatestAtEntry(s, n - 1);
      SumOne(s, times[n - 1]);
      PrefixPush(times, n - 1);
      PrefixPush(s, n - 1);
      SumsPush([s], times[..n - 1], times[n - 1]);
      assert s[n - 1] == Entry(times[n - 1], s[n - 1].v);
    } else {
      assert LatestSums([s], TimesOf(s)[..0]) == [];
    }
  }

  lemma {:induction false} SumOne(s: seq<Entry>, t: int)
    requires Latest(s, t).Some?
    ensures SumLatest([s], t) == Latest(s, t)
  {
    assert [s][..0] == [];
    assert SumLatest([s][..0], t) == Some(0.0);
  }

  lemma {:induction false} SumsPush(series: seq<seq<Entry>>, times: seq<int>, t: int)
    ensures var total := SumLatest(series, t);
            LatestSums(series, times + [t])
            == if total.Some? then LatestSums(series, times) + [Entry(t, total.value)] else LatestSums(series, times)
  {
    assert (times + [t])[..|times|] == times;
  }

  lemma {:induction false} LatestAtEntry(s: seq<Entry>, i: nat)
    requires Increasing(s) && i < |s|
    ensures Latest(s, s[i].t) == Some(s[i].v)
  {
    if i < |s| - 1 {
      LatestAtEntry(s[..|s| - 1], i);
    }
  }

  /** Combining one account changes nothing. */
  lemma {:induction false} CombineOne(s: seq<Entry>)
    requires Increasing(s)
    ensures Combine([s]) == s
  {
    CombinedIsSumOfLatest([s]);
    assert [s][..0] == [];
    assert Times([s]) == TimesOf(s);
    CombineOnePrefix(s, |s|);
    assert TimesOf(s)[..|s|] == TimesOf(s) && s[..|s|] == s;
  }

  lemma {:induction false} SingleReport(report: seq<Row>, currency: string, points: seq<Entry>)
    requires TotalsAre(report, points) && Increasing(points)
    requires forall r <- report :: r.currency == currency
    ensures CombinedReturns([report], None)
         == if points == [] || DailyReturns(points) == [] then None else Some(DailyReturns(points))
  {
    assert [report][..0] == [];
    if points == [] {
      assert report == [];
      assert Gather([report], None) == Gathered([], {});
    } else {
      assert report[0] in report;
      assert Currencies(report) == {currency};
      assert Gather([report], None) == Gathered([points], {currency});
      CombineOne(points);
    }
  }

  /** The daily returns of the analyzer and of the tearsheet agree for every account whose events are at distinct
  times, in one currency or in several: they are the same series, or there are none. */
  lemma {:induction false} AnalyzerMatchesTearsheet(events: seq<AccountEvent>, report: seq<Row>)
    requires DistinctTimes(events) && forall e <- events :: OneEach(e)
    requires RowsSorted(report) && multiset(report) == multiset(Rows(events))
    ensures var daily := PortfolioReturns(events);
            CombinedReturns([report], None) == if daily == [] then None else Some(daily)
  {
    hide *;
    var states := SortEvents(events);
    SortMembers(events);
    SortRows(events);
    SortChronological(events);
    PortfolioIs(events);
    if Collect(states).Failed? {
      var a, b := CollectFails(states);
      assert a in multiset(report) && b in multiset(report);
      MixedReport(report, a, b);
    } else {
      var points := Points(states);
      CollectDaily(states);
      CollectRows(states);
      PointsIncreasing(states);
      PointRowsStrict(Rows(states), points);
      SortedOnce(Rows(states), report);
      var c := Collect(states).currency;
      SingleReport(report, if c.Some? then c.value else "", points);
      AnalyzerReturns(states, points, Collect(states).daily);
    }
  }

  lemma {:induction false} PointRowsStrict(rows: seq<Row>, points: seq<Entry>)
    requires TotalsAre(rows, points) && Increasing(points)
    ensures RowsStrict(rows)
  {
  }

  lemma {:induction false} PortfolioIs(events: seq<AccountEvent>)
    ensures var states := SortEvents(events);
            PortfolioReturns(events)
            == if Collect(states).Failed? || |states| < 2 || |Collect(states).daily| < 2 then []
               else DailyReturns(SortEntries(Collect(states).daily))
  {
    hide SortEvents;
    hide Collect;
    hide DailyReturns;
    hide SortEntries;
  }

  /** The analyzer's early returns only skip accounts without returns. */
  lemma {:induction false} AnalyzerReturns(states: seq<AccountEvent>, points: seq<Entry>, daily: seq<Entry>)
    requires Increasing(points) && points == Points(states) && daily == DailyOf(points)
    ensures (if |states| < 2 || |daily| < 2 then [] else DailyReturns(SortEntries(daily)))
         == if points == [] then [] else DailyReturns(points)
  {
    DailyFacts(points);
    PointsCount(states);
    if points != [] {
      DailyReturnsOfDaily(points);
      SortEntriesId(daily);
      if |daily| < 2 || |states| < 2 {
        DailyCount(points);
        assert |daily| == 1 && daily[0] == daily[|daily| - 1];
        OneDayNoReturns(points);
      }
    }
  }

  lemma {:induction false} PointsCount(events: seq<AccountEvent>)
    ensures |Points(events)| <= |events|
  {
    if events != [] {
      PointsCount(events[..|events| - 1]);
    }
  }

  lemma {:induction false} DailyCount(points: seq<Entry>)
    ensures |DailyOf(points)| <= |points|
  {
    if points != [] {
      DailyCount(points[..|points| - 1]);
    }
  }
}
