/** The combined returns of any accounts, in terms of the rows of their reports. */
module CombinedReports {
  import opened Seqs
  import opened Wrappers
  import opened Balances
  import opened AccountReturns
  import opened CombinedBalances
  import opened ReturnsAgreement
  import opened AccountReports

  predicate Counts(r: Row, target: Option<string>) {
    target.None? || r.currency == target.value
  }

  /** The rows of a report in the currency asked for. */
  function RowsIn(report: seq<Row>, target: Option<string>): seq<Row> {
    if report == [] then []
    else
      var before, r := RowsIn(report[..|report| - 1], target), report[|report| - 1];
      if Counts(r, target) then before + [r] else before
  }

  /** Those of all reports that have any. */
  function Reporting(reports: seq<seq<Row>>, target: Option<string>): seq<seq<Row>> {
    if reports == [] then []
    else
      var before, rows := Reporting(reports[..|reports| - 1], target), RowsIn(reports[|reports| - 1], target);
      if rows == [] then before else before + [rows]
  }

  function AllTotals(reports: seq<seq<Row>>): (series: seq<seq<Entry>>)
    ensures |series| == |reports| && forall i :: 0 <= i < |reports| ==> series[i] == Totals(reports[i])
  {
    if reports == [] then [] else AllTotals(reports[..|reports| - 1]) + [Totals(reports[|reports| - 1])]
  }

  /** The currencies of all rows. */
  ghost predicate Seen(reports: seq<seq<Row>>, currency: string) {
    exists report <- reports :: exists r <- report :: r.currency == currency
  }

  ghost predicate Disagree(reports: seq<seq<Row>>) {
    exists a, b :: a != b && Seen(reports, a) && Seen(reports, b)
  }

  // Gathering

  lemma {:induction false} RowsInNone(report: seq<Row>)
    ensures RowsIn(report, None) == report
  {
    if report != [] {
      RowsInNone(report[..|report| - 1]);
      LastSplit(report);
    }
  }

  lemma {:induction false} RowsInSome(report: seq<Row>, currency: string)
    ensures RowsIn(report, Some(currency)) == FilterRows(report, currency)
  {
    if report != [] {
      RowsInSome(report[..|report| - 1], currency);
    }
  }

  lemma {:induction false} AllTotalsPush(reports: seq<seq<Row>>, rows: seq<Row>)
    ensures AllTotals(reports + [rows]) == AllTotals(reports) + [Totals(rows)]
  {
    assert (reports + [rows])[..|reports|] == reports;
  }

  ghost predicate AnyMixed(reports: seq<seq<Row>>) {
    exists report <- reports :: |Currencies(report)| > 1
  }

  /** The series are the totals of the reports with rows that count, and the currencies observed are those seen. */
  ghost predicate GatheredFrom(reports: seq<seq<Row>>, target: Option<string>, g: Gathered) {
    if target.None? && AnyMixed(reports) then g.Stopped?
    else
      && g.Gathered? && g.series == AllTotals(Reporting(reports, target))
      && (target.None? ==> forall c :: c in g.observed <==> Seen(reports, c))
  }

  lemma {:induction false} ExtractIs(report: seq<Row>, target: Option<string>)
    ensures var x, rows := Extract(report, target), RowsIn(report, target);
            if target.None? && |Currencies(report)| > 1 then x.Mixed?
            else
              && x.Extracted? && x.series == (if rows == [] then None else Some(Totals(rows)))
              && (target.None? ==> (report == [] <==> x.observed.None?))
              && (target.None? && report != [] ==> forall r <- report :: r.currency == x.observed.value)
  {
    if target.None? {
      RowsInNone(report);
      if report != [] {
        assert report[0] in report && report[0].currency in Currencies(report);
        if |Currencies(report)| <= 1 { OneCurrency(report); }
      }
    } else {
      RowsInSome(report, target.value);
    }
  }

  lemma {:induction false} OneCurrency(report: seq<Row>)
    requires report != [] && |Currencies(report)| <= 1
    ensures |Currencies(report)| == 1 && forall r <- report :: r.currency == report[0].currency
  {
    var cs, c := Currencies(report), report[0].currency;
    assert report[0] in report && c in cs;
    assert |cs - {c}| == |cs| - 1;
    forall r <- report ensures r.currency == c {
      assert r.currency in cs;
      assert r.currency != c ==> r.currency in cs - {c};
    }
  }

  lemma {:induction false} SeenPush(before: seq<seq<Row>>, report: seq<Row>, c: string)
    ensures Seen(before + [report], c) <==> Seen(before, c) || exists r <- report :: r.currency == c
  {
    var all := before + [report];
    assert report in all && forall x :: x in all <==> x in before || x == report;
  }

  lemma {:induction false} GatherIs(reports: seq<seq<Row>>, target: Option<string>)
    ensures GatheredFrom(reports, target, Gather(reports, target))
  {
    if reports == [] {
      assert Reporting(reports, target) == [] && AllTotals([]) == [];
    } else {
      var before, last := reports[..|reports| - 1], reports[|reports| - 1];
      GatherIs(before, target);
      LastSplit(reports);
      GatherStep(before, last, target);
    }
  }

  lemma {:induction false} MixedPush(before: seq<seq<Row>>, last: seq<Row>)
    ensures AnyMixed(before + [last]) <==> AnyMixed(before) || |Currencies(last)| > 1
  {
    var all := before + [last];
    assert last in all && forall report :: report in all <==> report in before || report == last;
    hide Currencies;
  }

  lemma {:induction false} ReportingPush(before: seq<seq<Row>>, last: seq<Row>, target: Option<string>)
    ensures var rows := RowsIn(last, target);
            Reporting(before + [last], target)
            == if rows == [] then Reporting(before, target) else Reporting(before, target) + [rows]
  {
    assert (before + [last])[..|before|] == before;
    hide RowsIn;
  }

  /** One account more. */
  function Adding(g: Gathered, x: Extracted): Gathered {
    if g.Stopped? || x.Mixed? then Stopped
    else Gathered(if x.series.Some? then g.series + [x.series.value] else g.series,
                  if x.observed.Some? then g.observed + {x.observed.value} else g.observed)
  }

  lemma {:induction false} GatherPush(before: seq<seq<Row>>, last: seq<Row>, target: Option<string>)
    ensures Gather(before + [last], target) == Adding(Gather(before, target), Extract(last, target))
  {
    assert (before + [last])[..|before|] == before;
    hide Extract;
  }

  lemma {:induction false} ObservedPush(before: seq<seq<Row>>, last: seq<Row>, observed: set<string>, now: set<string>,
                                        c: string)
    requires c in observed <==> Seen(before, c)
    requires last == [] ==> now == observed
    requires last != [] ==> exists d :: now == observed + {d} && forall r <- last :: r.currency == d
    ensures c in now <==> Seen(before + [last], c)
  {
    SeenPush(before, last, c);
    hide Seen;
    assert last != [] ==> last[0] in last;
  }

  lemma {:induction false} GatheredPush(before: seq<seq<Row>>, last: seq<Row>, target: Option<string>, g: Gathered,
                                        x: Extracted, now: Gathered)
    requires GatheredFrom(before, target, g) && now == Adding(g, x)
    requires AnyMixed(before + [last]) <==> AnyMixed(before) || |Currencies(last)| > 1
    requires var rows := RowsIn(last, target);
             && (if target.None? && |Currencies(last)| > 1 then x.Mixed?
                 else
                   && x.Extracted? && x.series == (if rows == [] then None else Some(Totals(rows)))
                   && (target.None? ==> (last == [] <==> x.observed.None?))
                   && (target.None? && last != [] ==> forall r <- last :: r.currency == x.observed.value))
             && AllTotals(Reporting(before + [last], target))
                == if rows == [] then AllTotals(Reporting(before, target))
                   else AllTotals(Reporting(before, target)) + [Totals(rows)]
    ensures GatheredFrom(before + [last], target, now)
  {
    hide AnyMixed;
    hide Currencies;
    hide RowsIn;
    hide Reporting;
    hide Totals;
    hide Seen;
    if target.None? && g.Gathered? && x.Extracted? {
      forall c ensures c in now.observed <==> Seen(before + [last], c) {
        ObservedPush(before, last, g.observed, now.observed, c);
      }
    }
  }

  lemma {:induction false} GatherStep(before: seq<seq<Row>>, last: seq<Row>, target: Option<string>)
    requires GatheredFrom(before, target, Gather(before, target))
    ensures GatheredFrom(before + [last], target, Gather(before + [last], target))
  {
    hide *;
    GatherPush(before, last, target);
    ExtractIs(last, target);
    ReportingPush(before, last, target);
    AllTotalsPush(Reporting(before, target), RowsIn(last, target));
    MixedPush(before, last);
    GatheredPush(before, last, target, Gather(before, target), Extract(last, target), Gather(before + [last], target));
  }

  function OrNone(daily: seq<Entry>): Option<seq<Entry>> {
    if daily == [] then None else Some(daily)
  }

  lemma {:induction false} TwoSeen(reports: seq<seq<Row>>, observed: set<string>)
    requires forall c :: c in observed <==> Seen(reports, c)
    ensures |observed| > 1 <==> Disagree(reports)
  {
    if |observed| > 1 {
      var a :| a in observed;
      assert |observed - {a}| == |observed| - 1;
      var b :| b in observed - {a};
      assert a != b && Seen(reports, a) && Seen(reports, b);
    }
    if Disagree(reports) {
      var a, b :| a != b && Seen(reports, a) && Seen(reports, b);
      assert |observed| == |{a} + (observed - {a})| == 1 + |observed - {a}|;
      assert b in observed - {a};
    }
  }

  lemma {:induction false} MixedDisagree(reports: seq<seq<Row>>)
    requires AnyMixed(reports)
    ensures Disagree(reports)
  {
    var report :| report in reports && |Currencies(report)| > 1;
    var cs := Currencies(report);
    var a :| a in cs;
    assert |cs - {a}| == |cs| - 1;
    var b :| b in cs - {a};
    assert Seen(reports, a) && Seen(reports, b);
  }

  lemma {:induction false} ReportingSeen(reports: seq<seq<Row>>)
    requires Reporting(reports, None) != []
    ensures exists c :: Seen(reports, c)
  {
    var before, last := reports[..|reports| - 1], reports[|reports| - 1];
    RowsInNone(last);
    if last != [] {
      assert last in reports && last[0] in last && Seen(reports, last[0].currency);
    } else {
      ReportingSeen(before);
      var c :| Seen(before, c);
      LastSplit(reports);
      SeenPush(before, last, c);
    }
  }

  /** The combined returns are those of the sum of all series of totals, one for each report with rows in the currency.
  There are none if no currency is asked for and two rows of any reports differ in theirs, or if no row counts. */
  lemma {:induction false} ReturnsOfReports(reports: seq<seq<Row>>, target: Option<string>)
    ensures CombinedReturns(reports, target)
         == if (target.None? && Disagree(reports)) || Reporting(reports, target) == [] then None
            else OrNone(DailyReturns(Combine(AllTotals(Reporting(reports, target)))))
  {
    var g := Gather(reports, target);
    GatherIs(reports, target);
    hide Gather;
    hide Reporting;
    hide Combine;
    hide DailyReturns;
    hide Disagree;
    hide Seen;
    if target.None? {
      if AnyMixed(reports) {
        MixedDisagree(reports);
      } else {
        TwoSeen(reports, g.observed);
        if g.series != [] {
          ReportingSeen(reports);
          var c :| Seen(reports, c);
          assert c in g.observed && |g.observed| >= 1;
        }
      }
    }
  }

  // The combined balance

  /** The total of the last row that counts at or before `t`. */
  function LatestTotal(report: seq<Row>, target: Option<string>, t: int): Option<real> {
    if report == [] then None
    else
      var r := report[|report| - 1];
      if Counts(r, target) && r.t <= t then Some(r.total) else LatestTotal(report[..|report| - 1], target, t)
  }

  predicate HasRows(report: seq<Row>, target: Option<string>) {
    exists r <- report :: Counts(r, target)
  }

  predicate ReportedBy(report: seq<Row>, target: Option<string>, t: int) {
    exists r <- report :: Counts(r, target) && r.t <= t
  }

  /** The sum of the latest totals of all reports with rows that count, once all of them have one. */
  function SumOfReports(reports: seq<seq<Row>>, target: Option<string>, t: int): Option<real> {
    if reports == [] then Some(0.0)
    else
      var before, last := SumOfReports(reports[..|reports| - 1], target, t), reports[|reports| - 1];
      if HasRows(last, target) then AddCells(before, LatestTotal(last, target, t)) else before
  }

  lemma {:induction false} LatestPut(s: seq<Entry>, e: Entry, t: int)
    requires s != [] ==> s[|s| - 1].t <= e.t
    ensures Latest(PutLast(s, e), t) == if e.t <= t then Some(e.v) else Latest(s, t)
  {
    var r := PutLast(s, e);
    assert r[|r| - 1] == e;
    assert r[..|r| - 1] == if s != [] && s[|s| - 1].t == e.t then s[..|s| - 1] else s;
  }

  lemma {:induction false} TotalsLatest(rows: seq<Row>, t: int)
    requires RowsSorted(rows)
    ensures Latest(Totals(rows), t) == LatestTotal(rows, None, t)
  {
    if rows != [] {
      var before, r := rows[..|rows| - 1], rows[|rows| - 1];
      assert RowsSorted(before) && (before != [] ==> before[|before| - 1].t <= r.t);
      TotalsLatest(before, t);
      TotalsKeepLast(before);
      LatestPut(Totals(before), Entry(r.t, r.total), t);
    }
  }

  lemma {:induction false} RowsInFacts(report: seq<Row>, target: Option<string>)
    ensures RowsSorted(report) ==> RowsSorted(RowsIn(report, target))
    ensures forall r :: r in RowsIn(report, target) <==> r in report && Counts(r, target)
    ensures RowsIn(report, target) != [] <==> HasRows(report, target)
  {
    if target.None? {
      RowsInNone(report);
    } else {
      RowsInSome(report, target.value);
      FilterFacts(report, target.value);
    }
    hide RowsIn;
    hide FilterRows;
    var rows := RowsIn(report, target);
    assert rows != [] ==> rows[0] in rows;
  }

  lemma {:induction false} LatestRowsIn(report: seq<Row>, target: Option<string>, t: int)
    ensures LatestTotal(RowsIn(report, target), None, t) == LatestTotal(report, target, t)
  {
    if report != [] {
      var before, r := report[..|report| - 1], report[|report| - 1];
      LatestRowsIn(before, target, t);
      var rows := RowsIn(report, target);
      assert Counts(r, target) ==> rows[..|rows| - 1] == RowsIn(before, target) && rows[|rows| - 1] == r;
    }
  }

  lemma {:induction false} SumIs(reports: seq<seq<Row>>, target: Option<string>, t: int)
    requires forall report <- reports :: RowsSorted(report)
    ensures SumLatest(AllTotals(Reporting(reports, target)), t) == SumOfReports(reports, target, t)
  {
    if reports == [] {
      assert Reporting(reports, target) == [] && AllTotals([]) == [];
    } else {
      var before, last := reports[..|reports| - 1], reports[|reports| - 1];
      var rows := RowsIn(last, target);
      assert last in reports && forall report <- before :: report in reports;
      assert SumOfReports(reports, target, t)
          == if HasRows(last, target) then AddCells(SumOfReports(before, target, t), LatestTotal(last, target, t))
             else SumOfReports(before, target, t);
      LastSplit(reports);
      hide *;
      SumIs(before, target, t);
      RowsInFacts(last, target);
      TotalsLatest(rows, t);
      LatestRowsIn(last, target, t);
      ReportingPush(before, last, target);
      if rows != [] {
        AllTotalsPush(Reporting(before, target), rows);
        SumPush(AllTotals(Reporting(before, target)), Totals(rows), t);
      }
    }
  }

  lemma {:induction false} SumPush(series: seq<seq<Entry>>, s: seq<Entry>, t: int)
    ensures SumLatest(series + [s], t) == AddCells(SumLatest(series, t), Latest(s, t))
  {
    assert (series + [s])[..|series|] == series;
  }

  lemma {:induction false} SumsValues(series: seq<seq<Entry>>, times: seq<int>)
    ensures forall e <- LatestSums(series, times) :: SumLatest(series, e.t) == Some(e.v)
  {
    if times != [] {
      SumsValues(series, times[..|times| - 1]);
      hide SumLatest;
    }
  }

  lemma {:induction false} ReportingAre(reports: seq<seq<Row>>, target: Option<string>, rows: seq<Row>)
    ensures rows in Reporting(reports, target) <==>
              rows != [] && exists report <- reports :: RowsIn(report, target) == rows
  {
    if reports != [] {
      var before, last := reports[..|reports| - 1], reports[|reports| - 1];
      var kept, own := Reporting(before, target), RowsIn(last, target);
      ReportingAre(before, target, rows);
      assert Reporting(reports, target) == if own == [] then kept else kept + [own];
      hide RowsIn;
      hide Reporting;
      assert rows in kept + [own] <==> rows in kept || rows == own;
      assert last in reports && forall report :: report in reports <==> report in before || report == last;
      assert (exists report <- reports :: RowsIn(report, target) == rows) <==>
             (exists report <- before :: RowsIn(report, target) == rows) || own == rows;
    }
  }

  lemma {:induction false} ReportingSorted(reports: seq<seq<Row>>, target: Option<string>)
    requires forall report <- reports :: RowsSorted(report)
    ensures AllIncreasing(AllTotals(Reporting(reports, target)))
  {
    var kept := Reporting(reports, target);
    forall rows <- kept ensures Increasing(Totals(rows)) {
      ReportingAre(reports, target, rows);
      var report :| report in reports && RowsIn(report, target) == rows;
      RowsInFacts(report, target);
      TotalsKeepLast(rows);
    }
    hide Increasing;
    hide Totals;
    hide Reporting;
    forall s <- AllTotals(kept) ensures Increasing(s) {
      var i :| 0 <= i < |kept| && AllTotals(kept)[i] == s;
      assert kept[i] in kept;
    }
  }

  lemma {:induction false} LatestTotalSome(report: seq<Row>, target: Option<string>, t: int)
    ensures LatestTotal(report, target, t).Some? <==> ReportedBy(report, target, t)
  {
    if report != [] {
      var before, r := report[..|report| - 1], report[|report| - 1];
      LatestTotalSome(before, target, t);
      assert r in report && forall x :: x in report <==> x in before || x == r;
    }
  }

  lemma {:induction false} SumOfReportsSome(reports: seq<seq<Row>>, target: Option<string>, t: int)
    ensures SumOfReports(reports, target, t).Some? <==>
              forall report <- reports :: HasRows(report, target) ==> ReportedBy(report, target, t)
  {
    if reports != [] {
      var before, last := reports[..|reports| - 1], reports[|reports| - 1];
      SumOfReportsSome(before, target, t);
      LatestTotalSome(last, target, t);
      assert last in reports && forall report :: report in reports <==> report in before || report == last;
      hide HasRows;
      hide ReportedBy;
      hide LatestTotal;
    }
  }

  lemma {:induction false} LastTotalSome(rows: seq<Row>, t: int)
    ensures LastTotal(rows, t).Some? <==> exists r <- rows :: r.t == t
  {
    if rows != [] {
      var before, r := rows[..|rows| - 1], rows[|rows| - 1];
      LastTotalSome(before, t);
      assert r in rows && forall x :: x in rows <==> x in before || x == r;
    }
  }

  lemma {:induction false} ValueAtSome(s: seq<Entry>, t: int)
    ensures ValueAt(s, t).Some? <==> t in TimesOf(s)
  {
    if s != [] {
      ValueAtSome(s[..|s| - 1], t);
      var times := TimesOf(s);
      assert times == TimesOf(s[..|s| - 1]) + [s[|s| - 1].t];
    }
  }

  lemma {:induction false} TotalsTimes(rows: seq<Row>, t: int)
    requires RowsSorted(rows)
    ensures t in TimesOf(Totals(rows)) <==> exists r <- rows :: r.t == t
  {
    TotalsKeepLast(rows);
    ValueAtSome(Totals(rows), t);
    LastTotalSome(rows, t);
    hide TimesOf;
    hide Totals;
  }

  /** Some row that counts is at `t`. */
  ghost predicate RowAt(reports: seq<seq<Row>>, target: Option<string>, t: int) {
    exists report <- reports :: exists r <- report :: Counts(r, target) && r.t == t
  }

  lemma {:induction false} SomeTime(reports: seq<seq<Row>>, target: Option<string>, t: int)
    requires forall report <- reports :: RowsSorted(report)
    ensures (exists s <- AllTotals(Reporting(reports, target)) :: t in TimesOf(s)) <==> RowAt(reports, target, t)
  {
    var kept := Reporting(reports, target);
    var series := AllTotals(kept);
    hide Reporting;
    hide Totals;
    hide TimesOf;
    if exists s <- series :: t in TimesOf(s) {
      var s :| s in series && t in TimesOf(s);
      var i :| 0 <= i < |series| && series[i] == s;
      assert kept[i] in kept;
      ReportingAre(reports, target, kept[i]);
      var report :| report in reports && RowsIn(report, target) == kept[i];
      RowsInFacts(report, target);
      TotalsTimes(kept[i], t);
    }
    if RowAt(reports, target, t) {
      var report :| report in reports && exists r <- report :: Counts(r, target) && r.t == t;
      var rows := RowsIn(report, target);
      RowsInFacts(report, target);
      ReportingAre(reports, target, rows);
      assert rows in kept;
      var i :| 0 <= i < |kept| && kept[i] == rows;
      TotalsTimes(rows, t);
      assert series[i] in series;
    }
  }

  /** For sorted reports, the combined balance has an entry at exactly the times of rows that count from which on every
  report with such rows has one, in order, and its value is the sum over those reports of the latest total. */
  lemma {:induction false} BalanceOfReports(reports: seq<seq<Row>>, target: Option<string>)
    requires forall report <- reports :: RowsSorted(report)
    ensures var balance := Combine(AllTotals(Reporting(reports, target)));
            && Increasing(balance)
            && (forall t :: t in TimesOf(balance) <==>
                  && RowAt(reports, target, t)
                  && forall report <- reports :: HasRows(report, target) ==> ReportedBy(report, target, t))
            && forall e <- balance :: SumOfReports(reports, target, e.t) == Some(e.v)
  {
    var series := AllTotals(Reporting(reports, target));
    hide *;
    ReportingSorted(reports, target);
    CombinedIsSumOfLatest(series);
    CombinedTimes(series);
    SumsValues(series, Times(series));
    forall t ensures SumLatest(series, t) == SumOfReports(reports, target, t) {
      SumIs(reports, target, t);
    }
    forall t ensures t in TimesOf(Combine(series)) <==>
                       && RowAt(reports, target, t)
                       && forall report <- reports :: HasRows(report, target) ==> ReportedBy(report, target, t)
    {
      SomeTime(reports, target, t);
      SumDefined(series, t);
      SumOfReportsSome(reports, target, t);
    }
  }
}
