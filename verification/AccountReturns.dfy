/** Two ways from account events to daily returns: the analyzer's map of last balances by day, and the
tearsheet's report, grouped by time and resampled. */
module AccountReturns {
  import opened Wrappers
  import opened Balances

  datatype Balance = Balance(currency: string, total: real)

  datatype AccountEvent = AccountEvent(ts: int, balances: seq<Balance>)

  // The analyzer

  function InsertEvent(e: AccountEvent, s: seq<AccountEvent>): seq<AccountEvent> {
    if s == [] || s[|s| - 1].ts <= e.ts then s + [e]
    else InsertEvent(e, s[..|s| - 1]) + [s[|s| - 1]]
  }

  /** Stable sort by event time. */
  function SortEvents(events: seq<AccountEvent>): seq<AccountEvent> {
    if events == [] then [] else InsertEvent(events[|events| - 1], SortEvents(events[..|events| - 1]))
  }

  /** Assignment to a key of an insertion-ordered dictionary. */
  function SetItem(d: seq<Entry>, k: int, v: real): seq<Entry> {
    if d == [] then [Entry(k, v)]
    else if d[0].t == k then [Entry(k, v)] + d[1..]
    else [d[0]] + SetItem(d[1..], k, v)
  }

  function InsertEntry(e: Entry, s: seq<Entry>): seq<Entry> {
    if s == [] || s[|s| - 1].t <= e.t then s + [e] else InsertEntry(e, s[..|s| - 1]) + [s[|s| - 1]]
  }

  function SortEntries(d: seq<Entry>): seq<Entry> {
    if d == [] then [] else InsertEntry(d[|d| - 1], SortEntries(d[..|d| - 1]))
  }

  datatype Collected = Failed | Collected(currency: Option<string>, daily: seq<Entry>)

  /** The last balance of each day, or a failure on mixed currencies. */
  function Collect(events: seq<AccountEvent>): Collected {
    if events == [] then Collected(None, [])
    else
      var before, e := Collect(events[..|events| - 1]), events[|events| - 1];
      if before.Failed? || e.balances == [] then before
      else if |e.balances| != 1 then Failed
      else if before.currency.Some? && e.balances[0].currency != before.currency.value then Failed
      else Collected(Some(e.balances[0].currency), SetItem(before.daily, DayOf(e.ts) * DAY, e.balances[0].total))
  }

  function PortfolioReturns(events: seq<AccountEvent>): seq<Entry> {
    var states := SortEvents(events);
    if |states| < 2 then []
    else
      var c := Collect(states);
      if c.Failed? || |c.daily| < 2 then [] else DailyReturns(SortEntries(c.daily))
  }

  // The tearsheet

  datatype Row = Row(t: int, currency: string, total: real)

  function RowsOf(t: int, balances: seq<Balance>): seq<Row> {
    if balances == [] then []
    else
      var before, b := balances[..|balances| - 1], balances[|balances| - 1];
      RowsOf(t, before) + [Row(t, b.currency, b.total)]
  }

  /** One report row for each balance of each event. */
  function Rows(events: seq<AccountEvent>): seq<Row> {
    if events == [] then []
    else
      var before, e := events[..|events| - 1], events[|events| - 1];
      Rows(before) + RowsOf(e.ts, e.balances)
  }

  function Currencies(rows: seq<Row>): set<string> {
    set r <- rows :: r.currency
  }

  /** The totals of a report by time, the last row of each time counting. */
  function Totals(rows: seq<Row>): seq<Entry> {
    if rows == [] then []
    else
      var before, r := Totals(rows[..|rows| - 1]), rows[|rows| - 1];
      PutLast(before, Entry(r.t, r.total))
  }

  datatype Extracted = Mixed | Extracted(series: Option<seq<Entry>>, observed: Option<string>)

  function FilterRows(rows: seq<Row>, currency: string): seq<Row> {
    if rows == [] then []
    else
      var before := FilterRows(rows[..|rows| - 1], currency);
      if rows[|rows| - 1].currency == currency then before + [rows[|rows| - 1]] else before
  }

  /** The balance series of one account, from its report sorted by time. */
  function Extract(report: seq<Row>, target: Option<string>): Extracted {
    if report == [] then Extracted(None, None)
    else if target.None? then
      if |Currencies(report)| != 1 then Mixed else Extracted(Some(Totals(report)), Some(report[0].currency))
    else
      var rows := FilterRows(report, target.value);
      Extracted(if rows == [] then None else Some(Totals(rows)), None)
  }

  datatype Gathered = Stopped | Gathered(series: seq<seq<Entry>>, observed: set<string>)

  /** The balance series of all accounts; stops at an account with mixed currencies. */
  function Gather(reports: seq<seq<Row>>, target: Option<string>): Gathered {
    if reports == [] then Gathered([], {})
    else
      var before, x := Gather(reports[..|reports| - 1], target), Extract(reports[|reports| - 1], target);
      if before.Stopped? || x.Mixed? then Stopped
      else Gathered(if x.series.Some? then before.series + [x.series.value] else before.series,
                    if x.observed.Some? then before.observed + {x.observed.value} else before.observed)
  }

  /** The combined daily returns of all accounts. */
  function CombinedReturns(reports: seq<seq<Row>>, target: Option<string>): Option<seq<Entry>> {
    var g := Gather(reports, target);
    if g.Stopped? || g.series == [] || (target.None? && |g.observed| != 1) then None
    else
      var daily := DailyReturns(Combine(g.series));
      if daily == [] then None else Some(daily)
  }

  // Combining accounts

  /** The union of two ascending sequences of times. */
  function MergeTimes(a: seq<int>, b: seq<int>): seq<int> {
    if a == [] then b
    else if b == [] then a
    else
      var x, y := a[|a| - 1], b[|b| - 1];
      if x == y then MergeTimes(a[..|a| - 1], b[..|b| - 1]) + [x]
      else if x < y then MergeTimes(a, b[..|b| - 1]) + [y]
      else MergeTimes(a[..|a| - 1], b) + [x]
  }

  function TimesOf(s: seq<Entry>): (r: seq<int>)
    ensures |r| == |s| && forall i :: 0 <= i < |s| ==> r[i] == s[i].t
  {
    if s == [] then [] else TimesOf(s[..|s| - 1]) + [s[|s| - 1].t]
  }

  function Times(series: seq<seq<Entry>>): seq<int> {
    if series == [] then [] else MergeTimes(Times(series[..|series| - 1]), TimesOf(series[|series| - 1]))
  }

  function ValueAt(s: seq<Entry>, t: int): Option<real> {
    if s == [] then None
    else if s[|s| - 1].t == t then Some(s[|s| - 1].v)
    else ValueAt(s[..|s| - 1], t)
  }

  /** The column of one account in the table of all times. */
  function Column(s: seq<Entry>, times: seq<int>): (col: seq<Option<real>>)
    ensures |col| == |times|
  {
    if times == [] then [] else Column(s, times[..|times| - 1]) + [ValueAt(s, times[|times| - 1])]
  }

  function AddCells(a: Option<real>, b: Option<real>): Option<real> {
    if a.Some? && b.Some? then Some(a.value + b.value) else None
  }

  /** The sum of row `i` of the forward-filled table, if the row is complete. */
  function RowTotal(series: seq<seq<Entry>>, times: seq<int>, i: nat): Option<real>
    requires i < |times|
  {
    if series == [] then Some(0.0)
    else AddCells(RowTotal(series[..|series| - 1], times, i), Ffill(Column(series[|series| - 1], times))[i])
  }

  /** The totals of the complete rows among the first `n`. */
  function CompleteRows(series: seq<seq<Entry>>, times: seq<int>, n: nat): seq<Entry>
    requires n <= |times|
  {
    if n == 0 then []
    else
      var before, total := CompleteRows(series, times, n - 1), RowTotal(series, times, n - 1);
      if total.Some? then before + [Entry(times[n - 1], total.value)] else before
  }

  function Combine(series: seq<seq<Entry>>): seq<Entry> {
    CompleteRows(series, Times(series), |Times(series)|)
  }

  // The loops

  /** The analyzer: fill a dictionary of the last balance of each day. */
  method CalculatePortfolioReturns(events: seq<AccountEvent>) returns (r: seq<Entry>)
    ensures r == PortfolioReturns(events)
  {
    var states := SortEvents(events);
    if |states| < 2 {
      return [];
    }
    var currency: Option<string> := None;
    var daily: seq<Entry> := [];
    var i := 0;
    while i < |states|
      invariant 0 <= i <= |states|
      invariant Collect(states[..i]) == Collected(currency, daily)
    {
      assert states[..i + 1][..i] == states[..i];
      var state := states[i];
      i := i + 1;
      if state.balances == [] {
        continue;
      }
      if |state.balances| != 1 || (currency.Some? && state.balances[0].currency != currency.value) {
        FailureStays(states, i);
        return [];
      }
      currency := Some(state.balances[0].currency);
      daily := SetItem(daily, DayOf(state.ts) * DAY, state.balances[0].total);
    }
    assert states[..i] == states;
    r := if |daily| < 2 then [] else DailyReturns(SortEntries(daily));
  }

  lemma {:induction false} FailureStays(states: seq<AccountEvent>, n: nat)
    requires n <= |states| && Collect(states[..n]).Failed?
    ensures Collect(states).Failed?
  {
    if n == |states| {
      assert states[..n] == states;
    } else {
      assert states[..|states| - 1][..n] == states[..n];
      FailureStays(states[..|states| - 1], n);
    }
  }

  /** The tearsheet: gather the balance series of all accounts and combine them. */
  method CalculateAccountReturns(reports: seq<seq<Row>>, target: Option<string>) returns (r: Option<seq<Entry>>)
    ensures r == CombinedReturns(reports, target)
  {
    var observed: set<string> := {};
    var series: seq<seq<Entry>> := [];
    var i := 0;
    while i < |reports|
      invariant 0 <= i <= |reports|
      invariant Gather(reports[..i], target) == Gathered(series, observed)
    {
      assert reports[..i + 1][..i] == reports[..i];
      var x := Extract(reports[i], target);
      i := i + 1;
      if x.Mixed? {
        StopStays(reports, target, i);
        return None;
      }
      if x.observed.Some? {
        observed := observed + {x.observed.value};
      }
      if x.series.None? {
        continue;
      }
      series := series + [x.series.value];
    }
    assert reports[..i] == reports;
    if series == [] || (target.None? && |observed| != 1) {
      return None;
    }
    var daily := DailyReturns(Combine(series));
    r := if daily == [] then None else Some(daily);
  }

  lemma {:induction false} StopStays(reports: seq<seq<Row>>, target: Option<string>, n: nat)
    requires n <= |reports| && Gather(reports[..n], target).Stopped?
    ensures Gather(reports, target).Stopped?
  {
    if n == |reports| {
      assert reports[..n] == reports;
    } else {
      assert reports[..|reports| - 1][..n] == reports[..n];
      StopStays(reports[..|reports| - 1], target, n);
    }
  }
}
