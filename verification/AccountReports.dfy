/** From account reports to the series that are combined: what grouping by time, filtering by currency and
gathering the accounts do. */
module AccountReports {
  import opened Seqs
  import opened Wrappers
  import opened Balances
  import opened AccountReturns
  import opened CombinedBalances
  import opened ReturnsAgreement

  /** The total of the last row at time `t`. */
  function LastTotal(rows: seq<Row>, t: int): Option<real> {
    if rows == [] then None
    else if rows[|rows| - 1].t == t then Some(rows[|rows| - 1].total)
    else LastTotal(rows[..|rows| - 1], t)
  }

  lemma {:induction false} PutLastValue(d: seq<Entry>, e: Entry, t: int)
    ensures ValueAt(PutLast(d, e), t) == if t == e.t then Some(e.v) else ValueAt(d, t)
  {
    var r := PutLast(d, e);
    if d != [] && d[|d| - 1].t == e.t {
      assert r[..|r| - 1] == d[..|d| - 1];
    } else {
      assert r[..|r| - 1] == d;
    }
  }

  /** Grouping a sorted report by time keeps one entry for each time, with the total of its last row. */
  lemma {:induction false} TotalsKeepLast(rows: seq<Row>)
    requires RowsSorted(rows)
    ensures Increasing(Totals(rows)) && (Totals(rows) == [] <==> rows == [])
    ensures rows != [] ==> Totals(rows)[|Totals(rows)| - 1].t == rows[|rows| - 1].t
    ensures forall t :: ValueAt(Totals(rows), t) == LastTotal(rows, t)
  {
    if rows != [] {
      var before, r := rows[..|rows| - 1], rows[|rows| - 1];
      assert RowsSorted(before) && (before != [] ==> before[|before| - 1].t <= r.t);
      TotalsKeepLast(before);
      PutLastIncreasing(Totals(before), Entry(r.t, r.total));
      forall t ensures ValueAt(Totals(rows), t) == LastTotal(rows, t) {
        PutLastValue(Totals(before), Entry(r.t, r.total), t);
      }
    }
  }

  // Filtering by currency

  lemma {:induction false} FilterFacts(rows: seq<Row>, currency: string)
    ensures forall r :: r in FilterRows(rows, currency) <==> r in rows && r.currency == currency
    ensures RowsSorted(rows) ==> RowsSorted(FilterRows(rows, currency))
  {
    if rows != [] {
      var before, r := rows[..|rows| - 1], rows[|rows| - 1];
      FilterFacts(before, currency);
      LastSplit(rows);
      if RowsSorted(rows) && r.currency == currency {
        RowsPush(FilterRows(before, currency), before, r);
      }
    }
  }

  lemma {:induction false} RowsPush(kept: seq<Row>, rows: seq<Row>, r: Row)
    requires RowsSorted(rows + [r]) && RowsSorted(kept) && forall x <- kept :: x in rows
    ensures RowsSorted(kept + [r])
  {
    var all, more := rows + [r], kept + [r];
    forall i, j | 0 <= i < j < |more| ensures more[i].t <= more[j].t {
      if j == |kept| {
        assert kept[i] in kept;
        var k :| 0 <= k < |rows| && rows[k] == kept[i];
        assert all[k].t <= all[|rows|].t;
      }
    }
  }

  function FilterAll(reports: seq<seq<Row>>, currency: string): (r: seq<seq<Row>>)
    ensures |r| == |reports|
  {
    if reports == [] then []
    else FilterAll(reports[..|reports| - 1], currency) + [FilterRows(reports[|reports| - 1], currency)]
  }

  lemma {:induction false} ExtractFiltered(report: seq<Row>, currency: string)
    ensures var x := Extract(FilterRows(report, currency), None);
            && x.Extracted?
            && x.series == Extract(report, Some(currency)).series
            && x.observed == if x.series.Some? then Some(currency) else None
  {
    var rows := FilterRows(report, currency);
    FilterFacts(report, currency);
    if rows != [] {
      assert rows[0] in rows;
      assert Currencies(rows) == {currency};
    }
  }

  lemma {:induction false} GatherFiltered(reports: seq<seq<Row>>, currency: string)
    ensures var g, f := Gather(reports, Some(currency)), Gather(FilterAll(reports, currency), None);
            && g.Gathered? && f.Gathered? && f.series == g.series
            && f.observed == if g.series == [] then {} else {currency}
  {
    if reports != [] {
      var before, last := reports[..|reports| - 1], reports[|reports| - 1];
      GatherFiltered(before, currency);
      ExtractFiltered(last, currency);
      var filtered := FilterAll(reports, currency);
      assert filtered[..|before|] == FilterAll(before, currency);
    }
  }

  /** Asking for a currency is the same as keeping only its rows and asking for none. */
  lemma {:induction false} TargetIsFilter(reports: seq<seq<Row>>, currency: string)
    ensures CombinedReturns(reports, Some(currency)) == CombinedReturns(FilterAll(reports, currency), None)
  {
    GatherFiltered(reports, currency);
    assert |{currency}| == 1;
    hide Combine;
    hide DailyReturns;
    hide Gather;
  }

  // Gathering

  lemma {:induction false} GatherIncreasing(reports: seq<seq<Row>>, target: Option<string>)
    requires forall rows <- reports :: RowsSorted(rows)
    ensures Gather(reports, target).Gathered? ==> AllIncreasing(Gather(reports, target).series)
  {
    if reports != [] {
      var before, last := reports[..|reports| - 1], reports[|reports| - 1];
      assert last in reports && forall rows <- before :: rows in reports;
      GatherIncreasing(before, target);
      TotalsKeepLast(last);
      if target.Some? {
        FilterFacts(last, target.value);
        TotalsKeepLast(FilterRows(last, target.value));
      }
    }
  }

  /** The combined balance of any accounts with sorted reports is, at each of its times, the sum of their latest
  totals, from the first time at which all of them have reported. */
  lemma {:induction false} CombinedReportBalance(reports: seq<seq<Row>>, target: Option<string>)
    requires forall rows <- reports :: RowsSorted(rows)
    requires Gather(reports, target).Gathered?
    ensures var series := Gather(reports, target).series;
            && Combine(series) == LatestSums(series, Times(series))
            && forall t :: t in TimesOf(Combine(series)) <==>
                 (exists s <- series :: t in TimesOf(s)) && forall s <- series :: HasReported(s, t)
  {
    GatherIncreasing(reports, target);
    CombinedIsSumOfLatest(Gather(reports, target).series);
    CombinedTimes(Gather(reports, target).series);
  }
}
