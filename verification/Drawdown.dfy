/** Compounding daily returns gives back the balance, and the drawdown of the returns is that of the balance. */
module Drawdown {
  import opened Wrappers
  import opened Balances
  import opened Reals

  function Grow(c: real, r: real): real {
    c * (1.0 + r)
  }

  /** The cumulative product of `1 + r`, after a baseline of 1. */
  function Cumulative(rs: seq<real>): (cs: seq<real>)
    ensures |cs| == |rs| + 1
  {
    if rs == [] then [1.0]
    else
      var before := Cumulative(rs[..|rs| - 1]);
      before + [Grow(before[|before| - 1], rs[|rs| - 1])]
  }

  lemma {:induction false} CumulativePush(rs: seq<real>, r: real)
    ensures Cumulative(rs + [r]) == Cumulative(rs) + [Grow(Cumulative(rs)[|rs|], r)]
  {
    hide Grow;
    assert (rs + [r])[..|rs|] == rs;
  }

  function RunningMax(xs: seq<real>): (ms: seq<real>)
    ensures |ms| == |xs|
  {
    if xs == [] then []
    else
      var before := RunningMax(xs[..|xs| - 1]);
      before + [if before == [] then xs[|xs| - 1] else MaxOf(before[|before| - 1], xs[|xs| - 1])]
  }

  /** The percentage by which `x` lies below `m`. */
  function Fall(x: real, m: real): real
    requires m != 0.0
  {
    (x - m) / m * 100.0
  }

  /** The drawdown in percent, from the baseline on; nothing for an empty series. */
  function DrawdownOf(rs: seq<real>): (r: seq<real>)
    ensures |r| == if rs == [] then 0 else |rs| + 1
  {
    BaselineIsOne(rs);
    RunningMaxFromFirst(Cumulative(rs));
    if rs == [] then [] else Falls(Cumulative(rs), RunningMax(Cumulative(rs)))
  }

  predicate NonZero(ms: seq<real>) {
    forall i :: 0 <= i < |ms| ==> ms[i] != 0.0
  }

  lemma {:induction false} BaselineIsOne(rs: seq<real>)
    ensures Cumulative(rs)[0] == 1.0
  {
    hide Grow;
    if rs != [] {
      BaselineIsOne(rs[..|rs| - 1]);
    }
  }

  /** A running maximum never falls below its first value. */
  lemma {:induction false} RunningMaxFromFirst(xs: seq<real>)
    requires xs != []
    ensures forall i :: 0 <= i < |xs| ==> RunningMax(xs)[i] >= xs[0]
  {
    if |xs| > 1 {
      RunningMaxFromFirst(xs[..|xs| - 1]);
    }
  }

  function Falls(xs: seq<real>, ms: seq<real>): (r: seq<real>)
    requires |xs| == |ms| && NonZero(ms)
    ensures |r| == |xs| && forall i :: 0 <= i < |xs| ==> r[i] == Fall(xs[i], ms[i])
  {
    if xs == [] then []
    else
      Falls(xs[..|xs| - 1], ms[..|ms| - 1]) + [Fall(xs[|xs| - 1], ms[|ms| - 1])]
  }

  // Balances

  predicate Positive(s: seq<Entry>) {
    forall e <- s :: e.v > 0.0
  }

  /** The balance carried to the end of day `d`. */
  function BalanceOn(s: seq<Entry>, d: int): real {
    var x := Latest(s, EndOfDay(d));
    if x.Some? then x.value else 0.0
  }

  /** The balances of the first `n` days of a series. */
  function BalancesOf(s: seq<Entry>, n: nat): (bs: seq<real>)
    requires s != []
    ensures |bs| == n && forall i :: 0 <= i < n ==> bs[i] == BalanceOn(s, FirstDay(s) + i)
  {
    if n == 0 then [] else BalancesOf(s, n - 1) + [BalanceOn(s, FirstDay(s) + n - 1)]
  }

  /** The relative change of the balance on day `d`, if it was not zero the day before. */
  function ChangeOn(s: seq<Entry>, d: int): Option<real> {
    if BalanceOn(s, d - 1) == 0.0 then None else Some(BalanceOn(s, d) / BalanceOn(s, d - 1) - 1.0)
  }

  predicate IsReturn(s: seq<Entry>, d: int, e: Entry) {
    ChangeOn(s, d).Some? && e == Entry(d * DAY, ChangeOn(s, d).value)
  }

  ghost predicate Listed(s: seq<Entry>, d: int, r: seq<Entry>) {
    exists e <- r :: IsReturn(s, d, e)
  }

  lemma {:induction false} LatestPositive(s: seq<Entry>, t: int)
    requires Positive(s)
    ensures Latest(s, t).Some? ==> Latest(s, t).value > 0.0
  {
    if s != [] {
      assert s[|s| - 1] in s;
      LatestPositive(s[..|s| - 1], t);
    }
  }

  lemma {:induction false} LatestFromFirst(s: seq<Entry>, t: int)
    requires Increasing(s) && s != [] && s[0].t <= t
    ensures Latest(s, t).Some?
  {
    if |s| > 1 && t < s[|s| - 1].t {
      LatestFromFirst(s[..|s| - 1], t);
    }
  }

  lemma {:induction false} BalancePositive(s: seq<Entry>, d: int)
    requires Increasing(s) && s != [] && Positive(s) && FirstDay(s) <= d
    ensures Latest(s, EndOfDay(d)) == Some(BalanceOn(s, d)) && BalanceOn(s, d) > 0.0
  {
    DayBounds(s[0].t, d);
    LatestFromFirst(s, EndOfDay(d));
    LatestPositive(s, EndOfDay(d));
  }

  function Values(s: seq<Entry>): (vs: seq<real>)
    ensures |vs| == |s| && forall i :: 0 <= i < |s| ==> vs[i] == s[i].v
  {
    if s == [] then [] else Values(s[..|s| - 1]) + [s[|s| - 1].v]
  }

  /** The return on the day `k + 1` days after the first. */
  function ReturnOn(s: seq<Entry>, k: int): Entry
    requires s != []
  {
    var d := FirstDay(s) + k + 1;
    Entry(d * DAY, if BalanceOn(s, d - 1) == 0.0 then 0.0 else BalanceOn(s, d) / BalanceOn(s, d - 1) - 1.0)
  }

  /** The relative change of a column on its last day. */
  lemma {:induction false} LastReturn(s: seq<Entry>, n: nat)
    requires Increasing(s) && s != [] && Positive(s) && n >= 2
    ensures var first := FirstDay(s);
            PctChange(Carried(s, first, n)) == PctChange(Carried(s, first, n - 1)) + [Some(ReturnOn(s, n - 2).v)]
  {
    var first := FirstDay(s);
    var col := Carried(s, first, n);
    assert col[..n - 1] == Carried(s, first, n - 1);
    BalancePositive(s, first + n - 1);
    BalancePositive(s, first + n - 2);
    hide BalanceOn;
    assert col[n - 2] == Latest(s, EndOfDay(first + n - 2)) && col[n - 1] == Latest(s, EndOfDay(first + n - 1));
  }

  /** Positive balances have a return on every day but the first. */
  lemma {:induction false} ReturnsOfPositive(s: seq<Entry>, n: nat)
    requires Increasing(s) && s != [] && Positive(s) && n >= 1
    ensures var r := DropMissing(FirstDay(s), PctChange(Carried(s, FirstDay(s), n)));
            && |r| == n - 1
            && forall k :: 0 <= k < n - 1 ==> r[k] == ReturnOn(s, k)
  {
    var first := FirstDay(s);
    var changes := PctChange(Carried(s, first, n));
    if n == 1 {
      assert changes == [None] && changes[..0] == [];
      assert DropMissing(first, changes[..0]) == [];
    } else {
      ReturnsOfPositive(s, n - 1);
      LastReturn(s, n);
      hide BalanceOn;
      assert changes[..n - 1] == PctChange(Carried(s, first, n - 1));
      assert DropMissing(first, changes) == DropMissing(first, changes[..n - 1]) + [ReturnOn(s, n - 2)];
    }
  }

  lemma {:induction false} LastChange(s: seq<Entry>, n: nat)
    requires Increasing(s) && s != [] && n >= 2
    ensures var first := FirstDay(s);
            PctChange(Carried(s, first, n)) == PctChange(Carried(s, first, n - 1)) + [ChangeOn(s, first + n - 1)]
  {
    var first := FirstDay(s);
    var col := Carried(s, first, n);
    assert col[..n - 1] == Carried(s, first, n - 1);
    DayBounds(s[0].t, first + n - 1);
    DayBounds(s[0].t, first + n - 2);
    LatestFromFirst(s, EndOfDay(first + n - 1));
    LatestFromFirst(s, EndOfDay(first + n - 2));
    assert col[n - 2] == Latest(s, EndOfDay(first + n - 2)) && col[n - 1] == Latest(s, EndOfDay(first + n - 1));
  }

  /** The returns are those of exactly the days after the first that follow a balance other than zero, in order. */
  ghost predicate ReturnsOn(s: seq<Entry>, n: nat, r: seq<Entry>)
    requires s != []
  {
    && Increasing(r)
    && (forall e <- r :: exists d :: FirstDay(s) < d < FirstDay(s) + n && IsReturn(s, d, e))
    && (forall d :: FirstDay(s) < d < FirstDay(s) + n && ChangeOn(s, d).Some? ==> Listed(s, d, r))
  }

  lemma {:induction false} ReturnsPush(s: seq<Entry>, n: nat, r: seq<Entry>, e: Entry)
    requires s != [] && n >= 1 && ReturnsOn(s, n, r)
    ensures IsReturn(s, FirstDay(s) + n, e) ==> ReturnsOn(s, n + 1, r + [e])
    ensures ChangeOn(s, FirstDay(s) + n).None? ==> ReturnsOn(s, n + 1, r)
  {
    hide ChangeOn;
    var first := FirstDay(s);
    if IsReturn(s, first + n, e) {
      var more := r + [e];
      assert e in more && forall x <- r :: x in more;
      forall i, j | 0 <= i < j < |more| ensures more[i].t < more[j].t {
        assert r[i] in r;
        if j == |r| {
          var d :| first < d < first + n && IsReturn(s, d, r[i]);
          assert d * DAY < (first + n) * DAY;
        }
      }
      forall x <- more ensures exists d :: first < d < first + n + 1 && IsReturn(s, d, x) {
        if x != e { var d :| first < d < first + n && IsReturn(s, d, x); }
      }
      forall d | first < d < first + n + 1 && ChangeOn(s, d).Some? ensures Listed(s, d, more) {
        if d < first + n {
          assert Listed(s, d, r);
          var x :| x in r && IsReturn(s, d, x);
        }
      }
    }
  }

  lemma {:induction false} DropPush(first: int, col: seq<Option<real>>, x: Option<real>)
    ensures DropMissing(first, col + [x])
         == if x.Some? then DropMissing(first, col) + [Entry((first + |col|) * DAY, x.value)]
            else DropMissing(first, col)
  {
    assert (col + [x])[..|col|] == col;
  }

  lemma {:induction false} NoReturnYet(s: seq<Entry>)
    requires s != []
    ensures ReturnsOn(s, 1, DropMissing(FirstDay(s), PctChange(Carried(s, FirstDay(s), 1))))
  {
    var first := FirstDay(s);
    var changes := PctChange(Carried(s, first, 1));
    assert changes == [None] && changes[..0] == [];
    assert DropMissing(first, changes[..0]) == [];
  }

  lemma {:induction false} ReturnsNext(s: seq<Entry>, n: nat, r: seq<Entry>)
    requires s != [] && n >= 1 && ReturnsOn(s, n, r)
    ensures var d := FirstDay(s) + n;
            var x := ChangeOn(s, d);
            ReturnsOn(s, n + 1, if x.Some? then r + [Entry(d * DAY, x.value)] else r)
  {
    var d := FirstDay(s) + n;
    var x := ChangeOn(s, d);
    var e := if x.Some? then Entry(d * DAY, x.value) else Entry(0, 0.0);
    assert x.Some? ==> IsReturn(s, d, e);
    hide *;
    ReturnsPush(s, n, r, e);
  }

  lemma {:induction false} ReturnsUpTo(s: seq<Entry>, n: nat)
    requires Increasing(s) && s != [] && n >= 1
    ensures ReturnsOn(s, n, DropMissing(FirstDay(s), PctChange(Carried(s, FirstDay(s), n))))
  {
    hide *;
    var first := FirstDay(s);
    if n == 1 {
      NoReturnYet(s);
    } else {
      var d, before := first + n - 1, PctChange(Carried(s, first, n - 1));
      LastChange(s, n);
      DropPush(first, before, ChangeOn(s, d));
      ReturnsUpTo(s, n - 1);
      ReturnsNext(s, n - 1, DropMissing(first, before));
    }
  }

  /** For any balances, zero and negative ones included: the daily returns. */
  lemma {:induction false} ReturnsExactly(s: seq<Entry>)
    requires Increasing(s) && s != []
    ensures DayCount(s) >= 1 && ReturnsOn(s, DayCount(s), DailyReturns(s))
  {
    DaysOrdered(s);
    FfillCarries(s, DayCount(s));
    ReturnsUpTo(s, DayCount(s));
    hide ReturnsOn;
  }

  lemma {:induction false} Telescope(a: real, b: real, c: real)
    requires a > 0.0 && b > 0.0
    ensures Grow(b / a, c / b - 1.0) == c / a
  {
    var x, y := b / a, c / b;
    assert x * a == b && y * b == c;
    assert (x * y) * a == c;
  }

  /** The balance of a day relative to that of the first. */
  function Growth(s: seq<Entry>, k: int): real
    requires s != []
  {
    var first := BalanceOn(s, FirstDay(s));
    if first == 0.0 then 0.0 else BalanceOn(s, FirstDay(s) + k) / first
  }

  lemma {:induction false} OverItself(x: real)
    requires x > 0.0
    ensures x / x == 1.0
  {
  }

  lemma {:induction false} GrowthStep(s: seq<Entry>, k: nat)
    requires Increasing(s) && s != [] && Positive(s)
    ensures Growth(s, 0) == 1.0
    ensures Grow(Growth(s, k), ReturnOn(s, k).v) == Growth(s, k + 1)
  {
    var first := FirstDay(s);
    BalancePositive(s, first);
    BalancePositive(s, first + k);
    hide BalanceOn;
    OverItself(BalanceOn(s, first));
    Telescope(BalanceOn(s, first), BalanceOn(s, first + k), BalanceOn(s, first + k + 1));
  }

  lemma {:induction false} Compounding(s: seq<Entry>, rs: seq<real>, n: nat)
    requires Increasing(s) && s != [] && Positive(s) && n >= 1 && |rs| == n - 1
    requires forall k :: 0 <= k < n - 1 ==> rs[k] == ReturnOn(s, k).v
    ensures forall k :: 0 <= k < n ==> Cumulative(rs)[k] == Growth(s, k)
  {
    hide Grow;
    hide Growth;
    hide ReturnOn;
    hide Increasing;
    hide Positive;
    GrowthStep(s, 0);
    if n > 1 {
      var before := rs[..n - 2];
      Compounding(s, before, n - 1);
      GrowthStep(s, n - 2);
      CumulativePush(before, rs[n - 2]);
      assert rs == before + [rs[n - 2]];
    }
  }

  /** Compounding the daily returns up to a day gives that day's carried balance relative to the first day's. */
  lemma {:induction false} CompoundingRestoresBalance(s: seq<Entry>, n: nat)
    requires Increasing(s) && s != [] && Positive(s) && n == DayCount(s)
    ensures n >= 1 && |DailyReturns(s)| == n - 1
    ensures forall k :: 0 <= k < n ==> Cumulative(Values(DailyReturns(s)))[k] == Growth(s, k)
  {
    DaysOrdered(s);
    FfillCarries(s, n);
    ReturnsOfPositive(s, n);
    Compounding(s, Values(DailyReturns(s)), n);
  }

  // Drawdown

  lemma {:induction false} ScaleMax(x: real, y: real, a: real)
    requires a > 0.0
    ensures MaxOf(x / a, y / a) == MaxOf(x, y) / a
  {
    assert x / a - y / a == (x - y) / a;
    assert x < y ==> (x - y) / a < 0.0;
    assert x >= y ==> (x - y) / a >= 0.0;
  }

  lemma {:induction false} ScaledRunningMax(xs: seq<real>, bs: seq<real>, a: real)
    requires a > 0.0 && |xs| == |bs| && forall i :: 0 <= i < |xs| ==> xs[i] == bs[i] / a
    ensures forall i :: 0 <= i < |xs| ==> RunningMax(xs)[i] == RunningMax(bs)[i] / a
  {
    if xs != [] {
      var n := |xs| - 1;
      ScaledRunningMax(xs[..n], bs[..n], a);
      if n > 0 {
        ScaleMax(RunningMax(bs[..n])[n - 1], bs[n], a);
      }
    }
  }

  lemma {:induction false} RunningMaxBounds(bs: seq<real>, i: nat)
    requires i < |bs| && forall j :: 0 <= j < |bs| ==> bs[j] > 0.0
    ensures RunningMax(bs)[i] >= bs[i] > 0.0
    ensures forall j :: 0 <= j <= i ==> bs[j] <= RunningMax(bs)[i]
    ensures RunningMax(bs)[i] in bs[..i + 1]
    decreases |bs|
  {
    var n := |bs| - 1;
    if i < n {
      RunningMaxBounds(bs[..n], i);
      assert bs[..n][..i + 1] == bs[..i + 1];
    } else if n > 0 {
      RunningMaxBounds(bs[..n], n - 1);
      assert bs[..n][..n] == bs[..n] && bs[..n + 1] == bs;
    }
  }

  lemma {:induction false} ScaledFall(b: real, m: real, a: real)
    requires a > 0.0 && 0.0 < b <= m
    ensures m / a != 0.0 && Fall(b / a, m / a) == Fall(b, m)
    ensures -100.0 < Fall(b, m) <= 0.0
  {
    var x, y := b / a, m / a;
    assert x * a == b && y * a == m && y > 0.0;
    var f := (b - m) / m;
    assert f * m == b - m;
    assert (f * y) * a == (x - y) * a;
    assert f * y == x - y;
    assert f <= 0.0;
    assert f > -1.0 by { assert (f + 1.0) * m == b; }
  }

  /** For positive balances, the drawdown of the daily returns is the percentage by which the carried balance lies
  below its own running maximum: never positive, and never as low as -100. */
  lemma {:induction false} DrawdownIsBalanceFall(s: seq<Entry>, n: nat)
    requires Increasing(s) && s != [] && Positive(s) && n == DayCount(s) && n >= 2
    ensures var rs, bs := Values(DailyReturns(s)), BalancesOf(s, n);
            && |rs| == n - 1 && |DrawdownOf(rs)| == n
            && forall k :: 0 <= k < n ==>
                 RunningMax(bs)[k] > 0.0 && DrawdownOf(rs)[k] == Fall(bs[k], RunningMax(bs)[k])
                 && -100.0 < DrawdownOf(rs)[k] <= 0.0
  {
    var first := FirstDay(s);
    var rs, bs := Values(DailyReturns(s)), BalancesOf(s, n);
    CompoundingRestoresBalance(s, n);
    var cs, a := Cumulative(rs), BalanceOn(s, first);
    BalancePositive(s, first);
    ScaledRunningMax(cs, bs, a);
    var ms, ns := RunningMax(cs), RunningMax(bs);
    forall i | 0 <= i < n ensures bs[i] > 0.0 {
      BalancePositive(s, first + i);
    }
    forall k | 0 <= k < n ensures ns[k] > 0.0 && ms[k] != 0.0 && Fall(cs[k], ms[k]) == Fall(bs[k], ns[k])
                                   && -100.0 < Fall(bs[k], ns[k]) <= 0.0
    {
      RunningMaxBounds(bs, k);
      ScaledFall(bs[k], ns[k], a);
    }
  }
}
