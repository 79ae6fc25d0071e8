/** Aggregating price bars to coarser timeframes.

`Resampled` groups rows by time bucket, as the chart runner does. Collapsing in two steps gives the same
candles as collapsing at once. */
module BarAggregation {
  import opened Reals

  /** One bar: start time in milliseconds, open, high, low, close, volume. */
  datatype Row = Row(t: int, o: real, h: real, l: real, c: real, v: real)

  const MINUTE := 60_000

  datatype Timeframe = M1 | M5 | M15 | H1 | H4 {
    function Width(): (w: int)
      ensures w > 0
    {
      match this
      case M1 => MINUTE
      case M5 => 5 * MINUTE
      case M15 => 15 * MINUTE
      case H1 => 60 * MINUTE
      case H4 => 240 * MINUTE
    }
  }

  // Grouping by bucket

  /** The rows of bucket `q`, in order. */
  function Members(rows: seq<Row>, q: int, w: int): seq<Row>
    requires w > 0
  {
    if rows == [] then []
    else
      var before := Members(rows[..|rows| - 1], q, w);
      if rows[|rows| - 1].t / w == q then before + [rows[|rows| - 1]] else before
  }

  function HighOf(ms: seq<Row>): real
    requires ms != []
  {
    if |ms| == 1 then ms[0].h else MaxOf(HighOf(ms[..|ms| - 1]), ms[|ms| - 1].h)
  }

  function LowOf(ms: seq<Row>): real
    requires ms != []
  {
    if |ms| == 1 then ms[0].l else MinOf(LowOf(ms[..|ms| - 1]), ms[|ms| - 1].l)
  }

  function Volume(ms: seq<Row>): real {
    if ms == [] then 0.0 else Volume(ms[..|ms| - 1]) + ms[|ms| - 1].v
  }

  /** First open, highest high, lowest low, last close, total volume. */
  function Candle(t: int, ms: seq<Row>): Row
    requires ms != []
  {
    Row(t, ms[0].o, HighOf(ms), LowOf(ms), ms[|ms| - 1].c, Volume(ms))
  }

  /** The candles of the buckets from `q` on, `n` of them; empty buckets have none. */
  function Groups(rows: seq<Row>, q: int, n: nat, w: int): seq<Row>
    requires w > 0
  {
    if n == 0 then []
    else
      var before, ms := Groups(rows, q, n - 1, w), Members(rows, q + n - 1, w);
      if ms == [] then before else before + [Candle((q + n - 1) * w, ms)]
  }

  function Resampled(rows: seq<Row>, w: int): seq<Row>
    requires w > 0
  {
    if rows == [] then []
    else
      var first, last := rows[0].t / w, rows[|rows| - 1].t / w;
      if last < first then [] else Groups(rows, first, last - first + 1, w)
  }

  function AggregateRaw(rows: seq<Row>, timeframe: Timeframe): seq<Row> {
    if timeframe == M1 then rows else Resampled(rows, timeframe.Width())
  }

  datatype ChartCandle = ChartCandle(time: int, open: real, high: real, low: real, close: real)

  function Candles(rows: seq<Row>): seq<ChartCandle> {
    if rows == [] then []
    else
      var r := rows[|rows| - 1];
      Candles(rows[..|rows| - 1]) + [ChartCandle(r.t / 1000, r.o, r.h, r.l, r.c)]
  }

  /** The chart shows one candle an hour for anything finer than an hour. */
  function ChartData(rows: seq<Row>, timeframe: Timeframe): seq<ChartCandle> {
    Candles(if timeframe == H1 || timeframe == H4 then rows else Resampled(rows, H1.Width()))
  }

  // The same one row at a time

  ghost predicate Sorted(rows: seq<Row>) {
    forall i, j :: 0 <= i < j < |rows| ==> rows[i].t <= rows[j].t
  }

  function Start(r: Row, w: int): Row
    requires w > 0
  {
    r.(t := r.t / w * w, v := 0.0 + r.v)
  }

  function Merge(bar: Row, r: Row): Row {
    Row(bar.t, bar.o, MaxOf(bar.h, r.h), MinOf(bar.l, r.l), r.c, bar.v + r.v)
  }

  /** Add a row to the last bar if it falls into its bucket, or start a new one. */
  function Push(bars: seq<Row>, r: Row, w: int): seq<Row>
    requires w > 0
  {
    if bars != [] && bars[|bars| - 1].t == r.t / w * w
    then bars[..|bars| - 1] + [Merge(bars[|bars| - 1], r)]
    else bars + [Start(r, w)]
  }

  function Folded(rows: seq<Row>, w: int): seq<Row>
    requires w > 0
  {
    if rows == [] then [] else Push(Folded(rows[..|rows| - 1], w), rows[|rows| - 1], w)
  }

  // Buckets

  lemma {:induction false} TimesMonotone(x: int, y: int, w: int)
    requires w > 0
    ensures x <= y ==> x * w <= y * w
  {
  }

  lemma {:induction false} BucketOf(t: int, w: int, q: int)
    requires w > 0 && q * w <= t < q * w + w
    ensures t / w == q
  {
    TimesMonotone(t / w + 1, q, w);
    TimesMonotone(q + 1, t / w, w);
  }

  lemma {:induction false} BucketMonotone(t: int, u: int, w: int)
    requires w > 0 && t <= u
    ensures t / w <= u / w
    ensures t / w * w == u / w * w <==> t / w == u / w
  {
    TimesMonotone(u / w + 1, t / w, w);
    TimesMonotone(t / w + 1, u / w, w);
  }

  /** The start of a fine bucket lies in the same coarse bucket as everything in it. */
  lemma {:induction false} BucketsNest(t: int, a: int, k: int)
    requires a > 0 && k > 0
    ensures k * a > 0 && (t / a * a) / (k * a) == t / (k * a)
  {
    var w := k * a;
    assert w > 0;
    var s, q := t / a * a, t / w;
    assert s <= t < s + a;
    assert q * w <= t < q * w + w;
    assert q * w == (q * k) * a;
    BucketMonotone(q * w, t, a);
    assert (q * w) / a == q * k by { BucketOf(q * w, a, q * k); }
    assert q * k <= t / a;
    assert q * w <= s by { assert (q * k) * a <= (t / a) * a; }
    BucketOf(s, w, q);
  }

  // Both definitions agree on rows in time order

  lemma {:induction false} NoMembers(rows: seq<Row>, q: int, w: int)
    requires w > 0 && forall r <- rows :: r.t / w != q
    ensures Members(rows, q, w) == []
  {
    if rows != [] {
      assert rows[|rows| - 1] in rows;
      NoMembers(rows[..|rows| - 1], q, w);
    }
  }

  /** Buckets after the last row are empty. */
  lemma {:induction false} GroupsBeyond(rows: seq<Row>, q: int, n: nat, m: nat, w: int)
    requires w > 0 && n <= m && forall r <- rows :: r.t / w < q + n
    ensures Groups(rows, q, m, w) == Groups(rows, q, n, w)
    decreases m
  {
    if n < m {
      GroupsBeyond(rows, q, n, m - 1, w);
      NoMembers(rows, q + m - 1, w);
    }
  }

  /** A row leaves earlier buckets alone. */
  lemma {:induction false} GroupsBefore(rows: seq<Row>, r: Row, q: int, n: nat, w: int)
    requires w > 0 && q + n <= r.t / w
    ensures Groups(rows + [r], q, n, w) == Groups(rows, q, n, w)
  {
    if n > 0 {
      GroupsBefore(rows, r, q, n - 1, w);
      assert (rows + [r])[..|rows|] == rows;
    }
  }

  lemma {:induction false} CandleMerge(t: int, ms: seq<Row>, r: Row)
    requires ms != []
    ensures Candle(t, ms + [r]) == Merge(Candle(t, ms), r)
  {
    assert (ms + [r])[..|ms|] == ms;
  }

  /** The last bar of sorted rows is that of the last row. */
  ghost predicate EndsAt(rows: seq<Row>, w: int)
    requires w > 0
  {
    rows != [] ==>
      var first, last := rows[0].t / w, rows[|rows| - 1].t / w;
      && first <= last
      && Members(rows, last, w) != []
      && Folded(rows, w) == Groups(rows, first, last - first + 1, w)
      && Groups(rows, first, last - first + 1, w)
         == Groups(rows, first, last - first, w) + [Candle(last * w, Members(rows, last, w))]
  }

  lemma {:induction false} MembersPush(rows: seq<Row>, r: Row, q: int, w: int)
    requires w > 0
    ensures Members(rows + [r], q, w) == if r.t / w == q then Members(rows, q, w) + [r] else Members(rows, q, w)
  {
    assert (rows + [r])[..|rows|] == rows;
  }

  lemma {:induction false} OneCandle(r: Row, w: int)
    requires w > 0
    ensures Candle(r.t / w * w, [r]) == Start(r, w)
  {
    assert [r][..0] == [];
    assert Volume([r][..0]) == 0.0;
  }

  lemma {:induction false} FoldedIsGrouped(rows: seq<Row>, w: int)
    requires w > 0 && Sorted(rows)
    ensures EndsAt(rows, w)
  {
    if rows != [] {
      var before, r := rows[..|rows| - 1], rows[|rows| - 1];
      assert rows == before + [r];
      if before == [] {
        FoldFirst(r, w);
      } else {
        assert Sorted(before);
        hide *;
        FoldedIsGrouped(before, w);
        FoldStep(before, r, w);
      }
    }
  }

  lemma {:induction false} FoldFirst(r: Row, w: int)
    requires w > 0
    ensures EndsAt([r], w)
  {
    var q := r.t / w;
    OneCandle(r, w);
    assert [r][..0] == [] && Members([], q, w) == [] && Folded([], w) == [];
    assert Folded([r], w) == [Start(r, w)];
    assert Members([r], q, w) == [r];
    assert Groups([r], q, 0, w) == [];
    assert Groups([r], q, 1, w) == [Candle(q * w, [r])];
  }

  lemma {:induction false} FoldStep(before: seq<Row>, r: Row, w: int)
    requires w > 0 && Sorted(before + [r]) && before != [] && EndsAt(before, w)
    ensures EndsAt(before + [r], w)
  {
    hide Members;
    hide Groups;
    hide Folded;
    hide Push;
    hide Candle;
    var rows := before + [r];
    var first, last, q := before[0].t / w, before[|before| - 1].t / w, r.t / w;
    assert rows[0] == before[0] && rows[|before|] == r && rows[|before| - 1] == before[|before| - 1];
    assert first <= last <= q by {
      assert rows[|before| - 1].t <= rows[|before|].t;
      BucketMonotone(before[|before| - 1].t, r.t, w);
    }
    MembersPush(before, r, q, w);
    FoldedPush(before, r, w);
    GroupsLast(before, r, first, q - first, w);
    if q == last {
      FoldSame(Groups(before, first, last - first, w), Members(before, last, w), r, w);
    } else {
      BeforeBucket(before, r, w);
      GroupsBeyond(before, first, last - first + 1, q - first, w);
      NoMembers(before, q, w);
      FoldNew(Groups(before, first, last - first, w), Members(before, last, w), last, r, w);
      assert Members(rows, q, w) == [] + [r] == [r];
    }
  }

  /** The bucket of a new last row is the last one. */
  lemma {:induction false} GroupsLast(before: seq<Row>, r: Row, first: int, n: nat, w: int)
    requires w > 0 && first + n == r.t / w
    ensures Members(before + [r], r.t / w, w) != []
    ensures Groups(before + [r], first, n + 1, w)
         == Groups(before, first, n, w) + [Candle(r.t / w * w, Members(before + [r], r.t / w, w))]
    ensures Groups(before + [r], first, n, w) == Groups(before, first, n, w)
  {
    GroupsBefore(before, r, first, n, w);
    MembersPush(before, r, r.t / w, w);
  }

  lemma {:induction false} FoldSame(bars: seq<Row>, ms: seq<Row>, r: Row, w: int)
    requires w > 0 && ms != []
    ensures Push(bars + [Candle(r.t / w * w, ms)], r, w) == bars + [Candle(r.t / w * w, ms + [r])]
  {
    CandleMerge(r.t / w * w, ms, r);
    assert (bars + [Candle(r.t / w * w, ms)])[..|bars|] == bars;
  }

  lemma {:induction false} FoldNew(bars: seq<Row>, ms: seq<Row>, last: int, r: Row, w: int)
    requires w > 0 && ms != [] && last < r.t / w
    ensures Push(bars + [Candle(last * w, ms)], r, w) == bars + [Candle(last * w, ms)] + [Candle(r.t / w * w, [r])]
  {
    OneCandle(r, w);
    TimesMonotone(last + 1, r.t / w, w);
  }

  lemma {:induction false} FoldedPush(rows: seq<Row>, r: Row, w: int)
    requires w > 0
    ensures Folded(rows + [r], w) == Push(Folded(rows, w), r, w)
  {
    assert (rows + [r])[..|rows|] == rows;
  }

  lemma {:induction false} BeforeBucket(before: seq<Row>, r: Row, w: int)
    requires w > 0 && Sorted(before + [r]) && before != [] && before[|before| - 1].t / w < r.t / w
    ensures forall x <- before :: x.t / w <= before[|before| - 1].t / w < r.t / w
  {
    var rows := before + [r];
    forall x <- before ensures x.t / w <= before[|before| - 1].t / w {
      var i :| 0 <= i < |before| && before[i] == x;
      assert rows[i].t <= rows[|before| - 1].t;
      BucketMonotone(x.t, before[|before| - 1].t, w);
    }
  }

  lemma {:induction false} ResampledIsFolded(rows: seq<Row>, w: int)
    requires w > 0 && Sorted(rows)
    ensures Resampled(rows, w) == Folded(rows, w)
  {
    FoldedIsGrouped(rows, w);
  }

  // Collapsing in two steps

  lemma {:induction false} FoldedSorted(rows: seq<Row>, w: int)
    requires w > 0 && Sorted(rows)
    ensures var bars := Folded(rows, w);
            && Sorted(bars) && (bars == [] <==> rows == [])
            && (rows != [] ==> bars[|bars| - 1].t == rows[|rows| - 1].t / w * w)
  {
    if rows != [] {
      var before, r := rows[..|rows| - 1], rows[|rows| - 1];
      FoldedSorted(before, w);
      if before != [] {
        BucketMonotone(before[|before| - 1].t, r.t, w);
        TimesMonotone(before[|before| - 1].t / w, r.t / w, w);
      }
      PushSorted(Folded(before, w), r, w);
    }
  }

  lemma {:induction false} PushSorted(bars: seq<Row>, r: Row, w: int)
    requires w > 0 && Sorted(bars) && (bars != [] ==> bars[|bars| - 1].t <= r.t / w * w)
    ensures Sorted(Push(bars, r, w))
    ensures Push(bars, r, w) != [] && Push(bars, r, w)[|Push(bars, r, w)| - 1].t == r.t / w * w
  {
  }

  /** Pushing the start of a fine bar, or the row it starts with, is the same for a coarse bar. */
  lemma {:induction false} PushStart(bars: seq<Row>, r: Row, a: int, k: int)
    requires a > 0 && k > 0
    ensures k * a > 0 && Push(bars, Start(r, a), k * a) == Push(bars, r, k * a)
  {
    BucketsNest(r.t, a, k);
  }

  /** Growing the last fine bar grows the last coarse bar. */
  lemma {:induction false} PushMerge(bars: seq<Row>, bar: Row, r: Row, w: int)
    requires w > 0 && r.t / w == bar.t / w
    ensures Push(bars, Merge(bar, r), w) == Push(Push(bars, bar, w), r, w)
  {
    var once := Push(bars, bar, w);
    var n := |once| - 1;
    assert once[n].t == bar.t / w * w == r.t / w * w;
    var twice := Push(once, r, w);
    hide MaxOf;
    hide MinOf;
    assert twice == once[..n] + [Merge(once[n], r)];
    if bars != [] && bars[|bars| - 1].t == bar.t / w * w {
      MergeAssociates(bars[|bars| - 1], bar, r);
      assert once[..n] == bars[..|bars| - 1];
    } else {
      assert once[..n] == bars;
      assert Merge(Start(bar, w), r) == Start(Merge(bar, r), w);
    }
  }

  lemma {:induction false} MergeAssociates(x: Row, y: Row, z: Row)
    ensures Merge(Merge(x, y), z) == Merge(x, Merge(y, z))
  {
  }

  lemma {:induction false} FoldTwice(rows: seq<Row>, a: int, k: int)
    requires a > 0 && k > 0
    ensures k * a > 0 && Folded(Folded(rows, a), k * a) == Folded(rows, k * a)
  {
    BucketsNest(0, a, k);
    var w := k * a;
    if rows != [] {
      var before, r := rows[..|rows| - 1], rows[|rows| - 1];
      assert rows == before + [r];
      FoldTwice(before, a, k);
      var fine := Folded(before, a);
      FoldedPush(before, r, a);
      FoldedPush(before, r, w);
      if fine != [] && fine[|fine| - 1].t == r.t / a * a {
        var rest, bar := fine[..|fine| - 1], fine[|fine| - 1];
        assert fine == rest + [bar];
        FoldedPush(rest, bar, w);
        FoldedPush(rest, Merge(bar, r), w);
        BucketsNest(r.t, a, k);
        PushMerge(Folded(rest, w), bar, r, w);
      } else {
        FoldedPush(fine, Start(r, a), w);
        PushStart(Folded(fine, w), r, a, k);
      }
    }
  }

  /** Collapsing rows in time order to bars, and those to bars `k` times as wide, gives the same bars as collapsing
  the rows at once. */
  lemma {:induction false} ResampleComposes(rows: seq<Row>, a: int, k: int)
    requires a > 0 && k > 0 && Sorted(rows)
    ensures k * a > 0 && Resampled(Resampled(rows, a), k * a) == Resampled(rows, k * a)
  {
    BucketsNest(0, a, k);
    ResampledIsFolded(rows, a);
    ResampledIsFolded(rows, k * a);
    FoldedSorted(rows, a);
    ResampledIsFolded(Folded(rows, a), k * a);
    FoldTwice(rows, a, k);
  }

  /** The chart is the same whichever timeframe up to an hour the backtest ran on. */
  lemma {:induction false} ChartIgnoresTimeframe(rows: seq<Row>, timeframe: Timeframe)
    requires Sorted(rows) && timeframe != H4
    ensures ChartData(AggregateRaw(rows, timeframe), timeframe) == ChartData(rows, M1)
  {
    match timeframe
    case M5 => ResampleComposes(rows, 5 * MINUTE, 12);
    case M15 => ResampleComposes(rows, 15 * MINUTE, 4);
    case _ =>
  }

  // Conservation and bounds

  lemma {:induction false} VolumePush(rows: seq<Row>, r: Row)
    ensures Volume(rows + [r]) == Volume(rows) + r.v
  {
    assert (rows + [r])[..|rows|] == rows;
  }

  lemma {:induction false} PushVolume(bars: seq<Row>, r: Row, w: int)
    requires w > 0
    ensures Volume(Push(bars, r, w)) == Volume(bars) + r.v
  {
    if bars != [] && bars[|bars| - 1].t == r.t / w * w {
      var rest, bar := bars[..|bars| - 1], bars[|bars| - 1];
      assert bars == rest + [bar];
      VolumePush(rest, bar);
      VolumePush(rest, Merge(bar, r));
    } else {
      VolumePush(bars, Start(r, w));
    }
  }

  lemma {:induction false} FoldedVolume(rows: seq<Row>, w: int)
    requires w > 0
    ensures Volume(Folded(rows, w)) == Volume(rows)
  {
    if rows != [] {
      FoldedVolume(rows[..|rows| - 1], w);
      PushVolume(Folded(rows[..|rows| - 1], w), rows[|rows| - 1], w);
    }
  }

  /** No volume is lost or invented. */
  lemma {:induction false} VolumeConserved(rows: seq<Row>, w: int)
    requires w > 0 && Sorted(rows)
    ensures Volume(Resampled(rows, w)) == Volume(rows)
  {
    ResampledIsFolded(rows, w);
    FoldedVolume(rows, w);
  }

  /** `bar` is the bar of its bucket among `rows`. */
  predicate Covers(bar: Row, r: Row, w: int)
    requires w > 0
  {
    bar.t == r.t / w * w && bar.l <= r.l && r.h <= bar.h
  }

  lemma {:induction false} PushCovers(bars: seq<Row>, last: Row, w: int)
    requires w > 0
    ensures var now := Push(bars, last, w);
            && now != [] && Covers(now[|now| - 1], last, w)
            && |bars| <= |now| && forall r, i :: 0 <= i < |bars| && Covers(bars[i], r, w) ==> Covers(now[i], r, w)
  {
    var q := last.t / w * w;
    var now := Push(bars, last, w);
    assert now == if bars != [] && bars[|bars| - 1].t == q then bars[..|bars| - 1] + [Merge(bars[|bars| - 1], last)]
                  else bars + [Start(last, w)];
    hide Push;
    forall r, i | 0 <= i < |bars| && Covers(bars[i], r, w) ensures Covers(now[i], r, w) {
      assert now[i] == bars[i] || now[i] == Merge(bars[i], last);
    }
  }

  lemma {:induction false} FoldedCovers(rows: seq<Row>, w: int, r: Row)
    requires w > 0 && r in rows
    ensures exists bar <- Folded(rows, w) :: Covers(bar, r, w)
  {
    var before, last := rows[..|rows| - 1], rows[|rows| - 1];
    var bars, now := Folded(before, w), Folded(rows, w);
    assert rows == before + [last] && now == Push(bars, last, w);
    hide *;
    PushCovers(bars, last, w);
    if r == last {
      assert now[|now| - 1] in now;
    } else {
      FoldedCovers(before, w, r);
      var bar :| bar in bars && Covers(bar, r, w);
      var i :| 0 <= i < |bars| && bars[i] == bar;
      assert now[i] in now;
    }
  }

  // One bar for each bucket

  ghost predicate Ascending(bars: seq<Row>) {
    forall i, j :: 0 <= i < j < |bars| ==> bars[i].t < bars[j].t
  }

  lemma {:induction false} PushAscending(bars: seq<Row>, r: Row, w: int)
    requires w > 0 && Ascending(bars) && (bars != [] ==> bars[|bars| - 1].t <= r.t / w * w)
    ensures Ascending(Push(bars, r, w))
  {
  }

  lemma {:induction false} FoldedAscending(rows: seq<Row>, w: int)
    requires w > 0 && Sorted(rows)
    ensures Ascending(Folded(rows, w))
  {
    if rows != [] {
      var before, r := rows[..|rows| - 1], rows[|rows| - 1];
      FoldedAscending(before, w);
      FoldedSorted(before, w);
      if before != [] {
        BucketMonotone(before[|before| - 1].t, r.t, w);
        TimesMonotone(before[|before| - 1].t / w, r.t / w, w);
      }
      hide Sorted;
      hide Ascending;
      PushAscending(Folded(before, w), r, w);
    }
  }

  /** Some row of the bar's bucket has its high, and some its low. */
  ghost predicate Attained(rows: seq<Row>, bar: Row, w: int)
    requires w > 0
  {
    && (exists r <- rows :: r.t / w * w == bar.t && r.h == bar.h)
    && (exists r <- rows :: r.t / w * w == bar.t && r.l == bar.l)
  }

  lemma {:induction false} AttainedGrows(rows: seq<Row>, r: Row, bar: Row, w: int)
    requires w > 0
    ensures Attained(rows, bar, w) ==> Attained(rows + [r], bar, w)
    ensures Attained(rows, bar, w) && bar.t == r.t / w * w ==> Attained(rows + [r], Merge(bar, r), w)
    ensures Attained(rows + [r], Start(r, w), w)
  {
    var more := rows + [r];
    assert r in more && forall x <- rows :: x in more;
  }

  lemma {:induction false} FoldedAttained(rows: seq<Row>, w: int)
    requires w > 0
    ensures forall bar <- Folded(rows, w) :: Attained(rows, bar, w)
  {
    if rows != [] {
      var before, r := rows[..|rows| - 1], rows[|rows| - 1];
      var bars := Folded(before, w);
      assert rows == before + [r];
      FoldedAttained(before, w);
      forall bar ensures Attained(before, bar, w) ==> Attained(rows, bar, w) {
        AttainedGrows(before, r, bar, w);
      }
      if bars != [] {
        assert bars[|bars| - 1] in bars;
        AttainedGrows(before, r, bars[|bars| - 1], w);
      }
      AttainedGrows(before, r, r, w);
      hide Attained;
      hide Merge;
      hide Start;
      assert forall bar <- Push(bars, r, w) ::
          || bar in bars || bar == Start(r, w)
          || (bars != [] && bars[|bars| - 1].t == r.t / w * w && bar == Merge(bars[|bars| - 1], r));
    }
  }

  lemma {:induction false} OneStart(bars: seq<Row>, x: Row, y: Row)
    requires Ascending(bars) && x in bars && y in bars && x.t == y.t
    ensures x == y
  {
    var i :| 0 <= i < |bars| && bars[i] == x;
    var j :| 0 <= j < |bars| && bars[j] == y;
    assert !(i < j) && !(j < i);
  }

  /** There is one bar for each bucket that has rows, in order. Its high and low are attained by rows of the bucket
  and bound all of them. */
  lemma {:induction false} BarsBoundRows(rows: seq<Row>, w: int)
    requires w > 0 && Sorted(rows)
    ensures var bars := Resampled(rows, w);
            && Ascending(bars)
            && (forall r <- rows :: exists bar <- bars :: bar.t == r.t / w * w)
            && (forall r <- rows, bar <- bars :: bar.t == r.t / w * w ==> Covers(bar, r, w))
            && (forall bar <- bars :: Attained(rows, bar, w))
  {
    var bars := Folded(rows, w);
    ResampledIsFolded(rows, w);
    FoldedAscending(rows, w);
    FoldedAttained(rows, w);
    forall r <- rows
      ensures exists bar <- bars :: bar.t == r.t / w * w
      ensures forall bar <- bars :: bar.t == r.t / w * w ==> Covers(bar, r, w)
    {
      FoldedCovers(rows, w, r);
      var own :| own in bars && Covers(own, r, w);
      forall bar <- bars ensures bar.t == r.t / w * w ==> Covers(bar, r, w) {
        if bar.t == r.t / w * w { OneStart(bars, own, bar); }
      }
    }
  }

  // Open, close and volume

  predicate InBucket(r: Row, t: int, w: int)
    requires w > 0
  {
    r.t / w * w == t
  }

  /** Row `i` is the first of the bucket that starts at `t`. */
  ghost predicate FirstIn(rows: seq<Row>, i: int, t: int, w: int)
    requires w > 0
  {
    0 <= i < |rows| && InBucket(rows[i], t, w) && forall j :: 0 <= j < i ==> !InBucket(rows[j], t, w)
  }

  ghost predicate LastIn(rows: seq<Row>, i: int, t: int, w: int)
    requires w > 0
  {
    0 <= i < |rows| && InBucket(rows[i], t, w) && forall j :: i < j < |rows| ==> !InBucket(rows[j], t, w)
  }

  function VolumeIn(rows: seq<Row>, t: int, w: int): real
    requires w > 0
  {
    if rows == [] then 0.0
    else
      var before, r := VolumeIn(rows[..|rows| - 1], t, w), rows[|rows| - 1];
      if InBucket(r, t, w) then before + r.v else before
  }

  /** The bar opens with the first row of its bucket, closes with the last and has the volume of all. */
  ghost predicate Spans(rows: seq<Row>, bar: Row, w: int)
    requires w > 0
  {
    && (exists i :: FirstIn(rows, i, bar.t, w) && bar.o == rows[i].o)
    && (exists i :: LastIn(rows, i, bar.t, w) && bar.c == rows[i].c)
    && bar.v == VolumeIn(rows, bar.t, w)
  }

  /** A row of another bucket changes nothing about a bar. */
  lemma {:induction false} SpansApart(rows: seq<Row>, r: Row, bar: Row, w: int)
    requires w > 0 && Spans(rows, bar, w) && !InBucket(r, bar.t, w)
    ensures Spans(rows + [r], bar, w)
  {
    hide InBucket;
    var more := rows + [r];
    assert more[..|rows|] == rows;
    var i :| FirstIn(rows, i, bar.t, w) && bar.o == rows[i].o;
    assert FirstIn(more, i, bar.t, w) && more[i] == rows[i];
    var j :| LastIn(rows, j, bar.t, w) && bar.c == rows[j].c;
    assert LastIn(more, j, bar.t, w) && more[j] == rows[j];
  }

  lemma {:induction false} SpansMerged(rows: seq<Row>, r: Row, bar: Row, w: int)
    requires w > 0 && Spans(rows, bar, w) && InBucket(r, bar.t, w)
    ensures Spans(rows + [r], Merge(bar, r), w)
  {
    hide InBucket;
    var more := rows + [r];
    assert more[..|rows|] == rows;
    var i :| FirstIn(rows, i, bar.t, w) && bar.o == rows[i].o;
    assert FirstIn(more, i, bar.t, w) && more[i] == rows[i];
    assert LastIn(more, |rows|, bar.t, w) && more[|rows|] == r;
  }

  lemma {:induction false} SpansStarted(rows: seq<Row>, r: Row, w: int)
    requires w > 0 && forall x <- rows :: !InBucket(x, r.t / w * w, w)
    ensures Spans(rows + [r], Start(r, w), w)
  {
    var more, t := rows + [r], r.t / w * w;
    assert more[..|rows|] == rows && InBucket(r, t, w);
    hide InBucket;
    assert forall j :: 0 <= j < |rows| ==> more[j] == rows[j] && rows[j] in rows;
    assert FirstIn(more, |rows|, t, w) && LastIn(more, |rows|, t, w) && more[|rows|] == r;
    NoVolume(rows, t, w);
  }

  lemma {:induction false} NoVolume(rows: seq<Row>, t: int, w: int)
    requires w > 0 && forall x <- rows :: !InBucket(x, t, w)
    ensures VolumeIn(rows, t, w) == 0.0
  {
    if rows != [] {
      hide InBucket;
      assert rows[|rows| - 1] in rows;
      NoVolume(rows[..|rows| - 1], t, w);
    }
  }

  /** The bucket of the next row is that of the last bar, or later than those of all rows so far. */
  lemma {:induction false} NextBucket(before: seq<Row>, r: Row, w: int)
    requires w > 0 && Sorted(before + [r]) && before != []
    ensures var last := before[|before| - 1].t / w * w;
            last <= r.t / w * w && (last < r.t / w * w ==> forall x <- before :: !InBucket(x, r.t / w * w, w))
  {
    var rows, last := before + [r], before[|before| - 1];
    assert rows[|before| - 1].t <= rows[|before|].t;
    BucketMonotone(last.t, r.t, w);
    TimesMonotone(last.t / w, r.t / w, w);
    if last.t / w * w < r.t / w * w {
      TimesMonotone(r.t / w, last.t / w, w);
      BeforeBucket(before, r, w);
      forall x <- before ensures !InBucket(x, r.t / w * w, w) {
        TimesMonotone(x.t / w + 1, r.t / w, w);
      }
    }
  }

  lemma {:induction false} FoldedSpans(rows: seq<Row>, w: int)
    requires w > 0 && Sorted(rows)
    ensures forall bar <- Folded(rows, w) :: Spans(rows, bar, w)
  {
    if rows != [] {
      var before, r := rows[..|rows| - 1], rows[|rows| - 1];
      assert rows == before + [r] && Sorted(before);
      FoldedPush(before, r, w);
      hide *;
      FoldedSpans(before, w);
      SpansStep(before, r, w);
    } else {
      assert Folded(rows, w) == [];
    }
  }

  lemma {:induction false} FoldedNothing(w: int)
    requires w > 0
    ensures Folded([], w) == []
  {
  }

  lemma {:induction false} PushFirst(r: Row, w: int)
    requires w > 0
    ensures Push([], r, w) == [Start(r, w)]
  {
    hide Start;
  }

  lemma {:induction false} OwnBucket(r: Row, w: int)
    requires w > 0
    ensures forall u :: InBucket(r, u, w) <==> u == r.t / w * w
  {
  }

  /** The bars so far are those of earlier buckets, and perhaps that of the next row. */
  lemma {:induction false} BarsBefore(before: seq<Row>, r: Row, w: int)
    requires w > 0 && Sorted(before + [r]) && Sorted(before) && before != []
    ensures var bars, t := Folded(before, w), r.t / w * w;
            && bars != [] && bars[|bars| - 1] in bars
            && (forall bar <- bars[..|bars| - 1] :: bar in bars && bar.t != t)
            && (bars[|bars| - 1].t != t ==> forall x <- before :: !InBucket(x, t, w))
  {
    FoldedAscending(before, w);
    FoldedSorted(before, w);
    NextBucket(before, r, w);
    hide Folded;
    hide InBucket;
    hide Sorted;
    EarlierBars(Folded(before, w), r.t / w * w);
  }

  lemma {:induction false} EarlierBars(bars: seq<Row>, t: int)
    requires Ascending(bars) && bars != [] && bars[|bars| - 1].t <= t
    ensures forall bar <- bars[..|bars| - 1] :: bar in bars && bar.t != t
  {
    var n := |bars| - 1;
    forall bar <- bars[..n] ensures bar in bars && bar.t != t {
      var i :| 0 <= i < n && bars[..n][i] == bar;
      assert bars[i] == bar;
    }
  }

  lemma {:induction false} SpansStep(before: seq<Row>, r: Row, w: int)
    requires w > 0 && Sorted(before + [r]) && Sorted(before)
    requires forall bar <- Folded(before, w) :: Spans(before, bar, w)
    ensures forall bar <- Push(Folded(before, w), r, w) :: Spans(before + [r], bar, w)
  {
    hide *;
    var bars, t := Folded(before, w), r.t / w * w;
    if before == [] {
      FoldedNothing(w);
      SpansStarted(before, r, w);
      PushFirst(r, w);
    } else {
      BarsBefore(before, r, w);
      PushIs(bars, r, w);
      OwnBucket(r, w);
      var n := |bars| - 1;
      forall bar <- bars[..n] ensures Spans(before + [r], bar, w) { SpansApart(before, r, bar, w); }
      if bars[n].t == t {
        SpansMerged(before, r, bars[n], w);
      } else {
        SpansApart(before, r, bars[n], w);
        SpansStarted(before, r, w);
      }
    }
  }

  lemma {:induction false} PushIs(bars: seq<Row>, r: Row, w: int)
    requires w > 0 && bars != []
    ensures var n := |bars| - 1;
            forall bar :: bar in Push(bars, r, w) <==>
              || bar in bars[..n]
              || if bars[n].t == r.t / w * w then bar == Merge(bars[n], r) else bar == bars[n] || bar == Start(r, w)
  {
    hide Merge;
    hide Start;
    assert bars == bars[..|bars| - 1] + [bars[|bars| - 1]];
  }

  /** Every bar opens with the first row of its bucket, closes with the last one and has the volume of all of them. */
  lemma {:induction false} BarsSpanRows(rows: seq<Row>, w: int)
    requires w > 0 && Sorted(rows)
    ensures forall bar <- Resampled(rows, w) :: Spans(rows, bar, w)
  {
    ResampledIsFolded(rows, w);
    FoldedSpans(rows, w);
  }

  // Timeframes and candles

  /** The buckets of the timeframes, in milliseconds. */
  lemma {:induction false} TimeframeBuckets(rows: seq<Row>)
    ensures AggregateRaw(rows, M1) == rows
    ensures AggregateRaw(rows, M5) == Resampled(rows, 300_000)
    ensures AggregateRaw(rows, M15) == Resampled(rows, 900_000)
    ensures AggregateRaw(rows, H1) == Resampled(rows, 3_600_000)
    ensures AggregateRaw(rows, H4) == Resampled(rows, 14_400_000)
  {
    hide Resampled;
  }

  /** The candles on the chart are the bars of an hour, or the four-hour bars as they are, with their start in
  seconds. */
  lemma {:induction false} ChartShows(rows: seq<Row>, timeframe: Timeframe)
    ensures var bars := if timeframe == H1 || timeframe == H4 then rows else Resampled(rows, 3_600_000);
            var chart := ChartData(rows, timeframe);
            && |chart| == |bars|
            && forall i :: 0 <= i < |bars| ==>
                 && chart[i].time == bars[i].t / 1000 && chart[i].open == bars[i].o && chart[i].high == bars[i].h
                 && chart[i].low == bars[i].l && chart[i].close == bars[i].c
  {
    hide Resampled;
    CandlesAre(if timeframe == H1 || timeframe == H4 then rows else Resampled(rows, 3_600_000));
  }

  lemma {:induction false} CandlesAre(bars: seq<Row>)
    ensures |Candles(bars)| == |bars|
    ensures forall i :: 0 <= i < |bars| ==>
              Candles(bars)[i] == ChartCandle(bars[i].t / 1000, bars[i].o, bars[i].h, bars[i].l, bars[i].c)
  {
    if bars != [] {
      CandlesAre(bars[..|bars| - 1]);
    }
  }
}
