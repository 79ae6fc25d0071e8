/** The trailing stop over the life of a position.

The strategy moves its stop bar by bar, from a rounded initial price and skipping the update whenever
its stop is not open. `TrailIsClosedForm` says what this amounts to. */
module TrailingStop {
  import opened Seqs
  import opened Wrappers
  import opened Desk
  import opened DeskRefinement
  import opened DeskRuns
  import Prices

  /** A bar the strategy acts on, and whether its stop was open at that moment. */
  datatype Look = Look(bar: Bar, open: bool)

  function FavourablePx(side: Side, bar: Bar): int {
    if side.Buy? then bar.high else bar.low
  }

  /** The most favourable price since the entry. */
  function BestPx(side: Side, entry: int, looks: seq<Look>): int {
    if looks == [] then entry
    else
      var before := BestPx(side, entry, looks[..|looks| - 1]);
      var px := FavourablePx(side, looks[|looks| - 1].bar);
      if side.Buy? then Max(before, px) else Min(before, px)
  }

  /** The price has gone as far in favour of the position as its stop was set against it. With an entry price that is
  not positive there is no such distance, and the strategy never trails. */
  predicate Reached(cfg: Config, side: Side, entry: int, looks: seq<Look>) {
    entry > 0 && !Better(side, Ahead(side, entry as real, Dist(cfg, entry)), BestPx(side, entry, looks) as real)
  }

  /** The price that the strategy keeps as its peak. */
  function PeakPx(cfg: Config, side: Side, entry: int, looks: seq<Look>): int {
    if Reached(cfg, side, entry, looks) then BestPx(side, entry, looks) else entry
  }

  /** Fixed until 1:1 is reached, then at the initial distance from the best price. */
  function TrailOf(cfg: Config, side: Side, entry: int, looks: seq<Look>): real {
    if Reached(cfg, side, entry, looks)
    then Ahead(side, BestPx(side, entry, looks) as real, -Dist(cfg, entry))
    else Prices.Round(StopPx(cfg, side, entry)) as real
  }

  /** Up to the last time the stop was open. */
  function Caught(looks: seq<Look>): seq<Look> {
    if looks == [] || looks[|looks| - 1].open then looks else Caught(looks[..|looks| - 1])
  }

  /** A peak that is not positive makes the strategy ignore every later bar. */
  predicate Frozen(cfg: Config, side: Side, entry: int, looks: seq<Look>) {
    PeakPx(cfg, side, entry, looks) <= 0
  }

  function Heard(cfg: Config, side: Side, entry: int, looks: seq<Look>): seq<Look> {
    if looks == [] then []
    else
      var before := Heard(cfg, side, entry, looks[..|looks| - 1]);
      if Frozen(cfg, side, entry, before) then before else before + [looks[|looks| - 1]]
  }

  /** The closed form of the trailing fields. */
  predicate Form(cfg: Config, p: Position, looks: seq<Look>)
    requires p.Open?
  {
    && p.active == Reached(cfg, p.side, p.entry, looks)
    && p.peak == PeakPx(cfg, p.side, p.entry, looks) as real
    && p.trail == TrailOf(cfg, p.side, p.entry, Caught(looks))
  }

  /** What one bar does to the trailing fields, with the stop open or not. */
  function Advance(cfg: Config, p: Position, look: Look): Position
    requires p.Open?
  {
    if p.peak <= 0.0 then p
    else
      var d := Dist(cfg, p.entry);
      var px := Favourable(p.side, look.bar);
      var active := p.active || !Better(p.side, Ahead(p.side, p.entry as real, d), px);
      var peak := Best(p.side, p.peak, px);
      var trail := Ahead(p.side, peak, -d);
      if active && Better(p.side, trail, p.trail)
      then p.(active := active, peak := peak, trail := if look.open then trail else p.trail)
      else p.(active := active)
  }

  /** With the stop open, that is the step of the book. */
  lemma {:induction false} OpenAdvance(cfg: Config, b: Book, bar: Bar)
    requires b.position.Open? && BookTrail(cfg, b, bar).position.Open?
    ensures BookTrail(cfg, b, bar).position.(stopId := b.position.stopId) == Advance(cfg, b.position, Look(bar, true))
  {
  }

  /** With the stop not open, that is what the strategy does, and no command is sent. */
  lemma {:induction false} ShutAdvance(cfg: Config, w: World, p: Position, bar: Bar)
    requires p.Open? && Tracks(cfg, w.s, p) && p.stopId !in w.resting
    ensures Tracks(cfg, Trail(cfg, w, bar).s, Advance(cfg, p, Look(bar, false)))
    ensures Trail(cfg, w, bar).(s := w.s) == w
  {
    hide Dist;
    hide Prices.Round;
  }

  lemma {:induction false} DistPositive(cfg: Config, entry: int)
    requires cfg.pct > 0.0 && entry > 0
    ensures Dist(cfg, entry) > 0.0
  {
    assert entry as real * cfg.pct > 0.0;
  }

  /** Once 1:1 is reached the trail improves on the rounded initial stop: prices are whole ticks, so
  reaching it means a full tick beyond the entry. */
  lemma {:induction false} ReachedImproves(cfg: Config, side: Side, entry: int, best: int)
    requires Dist(cfg, entry) > 0.0
    requires !Better(side, Ahead(side, entry as real, Dist(cfg, entry)), best as real)
    ensures Better(side, Ahead(side, best as real, -Dist(cfg, entry)), Prices.Round(StopPx(cfg, side, entry)) as real)
  {
    if side.Buy? { assert best >= entry + 1; } else { assert best <= entry - 1; }
  }

  lemma {:induction false} CaughtBehind(cfg: Config, side: Side, entry: int, looks: seq<Look>)
    ensures !Better(side, BestPx(side, entry, Caught(looks)) as real, BestPx(side, entry, looks) as real)
    ensures Reached(cfg, side, entry, Caught(looks)) ==> Reached(cfg, side, entry, looks)
  {
    if Caught(looks) != looks {
      CaughtBehind(cfg, side, entry, looks[..|looks| - 1]);
    }
  }

  lemma {:induction false} BestFromEntry(side: Side, entry: int, looks: seq<Look>)
    ensures !Better(side, entry as real, BestPx(side, entry, looks) as real)
  {
    if looks != [] {
      BestFromEntry(side, entry, looks[..|looks| - 1]);
    }
  }

  lemma {:induction false} Push(side: Side, entry: int, looks: seq<Look>, look: Look)
    ensures var px := FavourablePx(side, look.bar);
            BestPx(side, entry, looks + [look])
            == if side.Buy? then Max(BestPx(side, entry, looks), px) else Min(BestPx(side, entry, looks), px)
    ensures Caught(looks + [look]) == if look.open then looks + [look] else Caught(looks)
  {
    assert (looks + [look])[..|looks|] == looks;
  }

  /** One more bar keeps the closed form, whether or not the stop was open. */
  lemma {:induction false} AdvanceKeepsForm(cfg: Config, p: Position, looks: seq<Look>, look: Look)
    requires p.Open? && cfg.pct > 0.0
    requires Form(cfg, p, looks) && !Frozen(cfg, p.side, p.entry, looks)
    ensures Form(cfg, Advance(cfg, p, look), looks + [look])
  {
    var more := looks + [look];
    Push(p.side, p.entry, looks, look);
    BestFromEntry(p.side, p.entry, looks);
    CaughtBehind(cfg, p.side, p.entry, looks);
    if Reached(cfg, p.side, p.entry, more) {
      ReachedForm(cfg, p, looks, look);
    } else {
      hide Dist;
      hide StopPx;
      hide Prices.Round;
      hide BestPx;
      assert !Reached(cfg, p.side, p.entry, looks) && !Reached(cfg, p.side, p.entry, Caught(more));
    }
  }

  lemma {:induction false} ReachedForm(cfg: Config, p: Position, looks: seq<Look>, look: Look)
    requires p.Open? && cfg.pct > 0.0
    requires Form(cfg, p, looks) && !Frozen(cfg, p.side, p.entry, looks)
    requires Reached(cfg, p.side, p.entry, looks + [look])
    ensures Form(cfg, Advance(cfg, p, look), looks + [look])
  {
    var more := looks + [look];
    var best, now := BestPx(p.side, p.entry, looks), BestPx(p.side, p.entry, more);
    var behind := BestPx(p.side, p.entry, Caught(looks));
    var px := FavourablePx(p.side, look.bar);
    Push(p.side, p.entry, looks, look);
    BestFromEntry(p.side, p.entry, looks);
    CaughtBehind(cfg, p.side, p.entry, looks);
    DistPositive(cfg, p.entry);
    ReachedImproves(cfg, p.side, p.entry, now);
    hide Dist;
    hide StopPx;
    hide Prices.Round;
    hide BestPx;
    hide Caught;
    if !Reached(cfg, p.side, p.entry, looks) {
      assert now == px && !p.active && p.trail == Prices.Round(StopPx(cfg, p.side, p.entry)) as real;
    } else {
      assert p.active && p.peak == best as real;
      assert Best(p.side, p.peak, px as real) == now as real;
      if Reached(cfg, p.side, p.entry, Caught(looks)) {
        assert p.trail == Ahead(p.side, behind as real, -Dist(cfg, p.entry));
      }
    }
  }

  function AdvanceAll(cfg: Config, p: Position, looks: seq<Look>): (r: Position)
    requires p.Open?
    ensures r.Open?
  {
    if looks == [] then p else Advance(cfg, AdvanceAll(cfg, p, looks[..|looks| - 1]), looks[|looks| - 1])
  }

  /** From a fresh position, any sequence of bars leads to the closed form over the bars heard: a skipped
  update loses nothing, since the next one catches up with the best price. */
  lemma {:induction false} TrailCatchesUp(cfg: Config, p: Position, looks: seq<Look>)
    requires p.Open? && cfg.pct > 0.0 && Form(cfg, p, [])
    ensures var r := AdvanceAll(cfg, p, looks);
            && r.(active := p.active, peak := p.peak, trail := p.trail) == p
            && Form(cfg, r, Heard(cfg, p.side, p.entry, looks))
  {
    if looks != [] {
      var n := |looks| - 1;
      var r, look := AdvanceAll(cfg, p, looks[..n]), looks[n];
      assert AdvanceAll(cfg, p, looks) == Advance(cfg, r, look);
      AdvanceKeeps(cfg, r, look);
      hide *;
      TrailCatchesUp(cfg, p, looks[..n]);
      HeardForm(cfg, r, looks[..n], look);
      LastSplit(looks);
    }
  }

  lemma {:induction false} AdvanceKeeps(cfg: Config, p: Position, look: Look)
    requires p.Open?
    ensures var r := Advance(cfg, p, look); r.(active := p.active, peak := p.peak, trail := p.trail) == p
  {
  }

  // The closed form in a run

  /** The number of bars up to and including the last flip of the signal. */
  function LastFlipBar(bars: seq<Bar>): (n: nat)
    ensures n <= |bars|
  {
    if bars == [] then 0
    else
      var before, last := bars[..|bars| - 1], bars[|bars| - 1];
      var signals := Signals(before);
      if Acts(last) && signals != [] && signals[|signals| - 1] != last.bullish then |bars| else LastFlipBar(before)
  }

  /** The bars the strategy acts on; between bars its stop is open. */
  function Looks(bars: seq<Bar>): seq<Look> {
    if bars == [] then []
    else PushIf(Looks(bars[..|bars| - 1]), Acts(bars[|bars| - 1]), Look(bars[|bars| - 1], true))
  }

  predicate PositionInForm(cfg: Config, b: Book, looks: seq<Look>) {
    b.position.Open? ==>
      Form(cfg, b.position, Heard(cfg, b.position.side, b.position.entry, looks))
  }

  lemma {:induction false} FormIgnoresStopId(cfg: Config, p: Position, id: OrderId, looks: seq<Look>)
    requires p.Open?
    ensures Form(cfg, p.(stopId := id), looks) == Form(cfg, p, looks)
  {
  }

  lemma {:induction false} TrailKeepsForm(cfg: Config, b: Book, bar: Bar, looks: seq<Look>, since: nat)
    requires cfg.pct > 0.0 && PositionInForm(cfg, b, looks) && EnteredAt(b, since)
    ensures PositionInForm(cfg, BookTrail(cfg, b, bar), looks + [Look(bar, true)])
    ensures EnteredAt(BookTrail(cfg, b, bar), since)
  {
    var b1 := BookTrail(cfg, b, bar);
    if b1.position.Open? {
      var p := b.position;
      assert p.Open?;
      OpenAdvance(cfg, b, bar);
      var q := b1.position.(stopId := p.stopId);
      assert q == Advance(cfg, p, Look(bar, true)) && q.side == p.side && q.entry == p.entry && q.since == p.since;
      hide BookTrail;
      hide Advance;
      hide Form;
      HeardForm(cfg, p, looks, Look(bar, true));
      FormIgnoresStopId(cfg, b1.position, p.stopId, Heard(cfg, p.side, p.entry, looks + [Look(bar, true)]));
    }
  }

  /** A bar keeps the closed form over the bars heard, whether or not it is heard itself. */
  lemma {:induction false} HeardForm(cfg: Config, p: Position, looks: seq<Look>, look: Look)
    requires p.Open? && cfg.pct > 0.0 && Form(cfg, p, Heard(cfg, p.side, p.entry, looks))
    ensures Form(cfg, Advance(cfg, p, look), Heard(cfg, p.side, p.entry, looks + [look]))
  {
    var before := Heard(cfg, p.side, p.entry, looks);
    assert (looks + [look])[..|looks|] == looks;
    hide Dist;
    hide Prices.Round;
    if !Frozen(cfg, p.side, p.entry, before) {
      AdvanceKeepsForm(cfg, p, before, look);
    }
  }

  lemma {:induction false} FreshForm(cfg: Config, b: Book, side: Side)
    requires cfg.pct > 0.0
    ensures PositionInForm(cfg, BookEnter(cfg, b, side), [])
    ensures BookEnter(cfg, b, side).position.Open? ==> BookEnter(cfg, b, side).position.since == b.bars
  {
    var b1 := BookEnter(cfg, b, side);
    if b1.position.Open? && b1.position.entry > 0 {
      DistPositive(cfg, b1.position.entry);
    }
  }

  lemma {:induction false} LooksPush(bars: seq<Bar>, k: nat)
    requires k < |bars|
    ensures Looks(bars[k..])
         == PushIf(Looks(bars[..|bars| - 1][k..]), Acts(bars[|bars| - 1]), Look(bars[|bars| - 1], true))
  {
    assert bars[k..][..|bars| - 1 - k] == bars[..|bars| - 1][k..];
  }

  lemma {:induction false} BookBars(cfg: Config, bars: seq<Bar>)
    ensures BookRun(cfg, bars).bars == |bars|
  {
    if bars != [] {
      var n := |bars| - 1;
      BookBars(cfg, bars[..n]);
      assert BookRun(cfg, bars) == BookBar(cfg, BookRun(cfg, bars[..n]), bars[n]);
    }
  }

  predicate Flipped(b: Book, bar: Bar) {
    Acts(bar) && b.prev == Some(!bar.bullish)
  }

  predicate EnteredAt(b: Book, since: nat) {
    b.position.Open? ==> b.position.since == since
  }

  /** A bar either starts a fresh position or extends the one there is. */
  lemma {:induction false} BarKeepsForm(cfg: Config, b: Book, bar: Bar, looks: seq<Look>, since: nat)
    requires cfg.pct > 0.0 && PositionInForm(cfg, b, looks) && EnteredAt(b, since)
    ensures var b' := BookBar(cfg, b, bar);
            if Flipped(b, bar) then PositionInForm(cfg, b', []) && EnteredAt(b', b.bars + 1)
            else PositionInForm(cfg, b', PushIf(looks, Acts(bar), Look(bar, true))) && EnteredAt(b', since)
  {
    var b1 := BookHits(b.(bars := b.bars + 1), bar.hits);
    assert PositionInForm(cfg, b1, looks) && b1.prev == b.prev && EnteredAt(b1, since);
    assert BookBar(cfg, b, bar) == if Acts(bar) then BookSignal(cfg, BookTrail(cfg, b1, bar), bar) else b1;
    assert Flipped(b, bar) == (Acts(bar) && b.prev == Some(!bar.bullish));
    assert PushIf(looks, Acts(bar), Look(bar, true))
        == if Acts(bar) then looks + [Look(bar, true)] else looks;
    hide *;
    if Acts(bar) {
      TrailKeepsForm(cfg, b1, bar, looks, since);
      SignalKeepsForm(cfg, BookTrail(cfg, b1, bar), bar, looks + [Look(bar, true)], since);
    }
  }

  lemma {:induction false} SignalKeepsForm(cfg: Config, b: Book, bar: Bar, looks: seq<Look>, since: nat)
    requires cfg.pct > 0.0 && PositionInForm(cfg, b, looks) && EnteredAt(b, since)
    ensures var b' := BookSignal(cfg, b, bar);
            if b.prev == Some(!bar.bullish) then PositionInForm(cfg, b', []) && EnteredAt(b', b.bars)
            else PositionInForm(cfg, b', looks) && EnteredAt(b', since)
  {
    if b.prev == Some(!bar.bullish) {
      FreshForm(cfg, Closed(cfg, b, bar.bullish), Towards(bar.bullish));
    } else {
      assert b.prev.Some? ==> b.prev.value == bar.bullish;
    }
  }

  /** Between bars, an open position was entered at the last flip and its trailing fields are the closed
  form over the bars since. */
  lemma {:induction false} RunInForm(cfg: Config, bars: seq<Bar>)
    requires cfg.pct > 0.0
    ensures PositionInForm(cfg, BookRun(cfg, bars), Looks(bars[LastFlipBar(bars)..]))
    ensures EnteredAt(BookRun(cfg, bars), LastFlipBar(bars))
  {
    if bars == [] {
      assert BookRun(cfg, bars) == EMPTY;
    } else {
      var n := |bars| - 1;
      var before, bar := bars[..n], bars[n];
      var b := BookRun(cfg, before);
      var k := LastFlipBar(before);
      assert BookRun(cfg, bars) == BookBar(cfg, b, bar);
      assert Flipped(b, bar) == (LastFlipBar(bars) == |bars|) && (!Flipped(b, bar) ==> LastFlipBar(bars) == k) by {
        LastSignal(cfg, before);
      }
      assert Looks(bars[|bars|..]) == [];
      hide *;
      RunInForm(cfg, before);
      BookBars(cfg, before);
      LooksPush(bars, k);
      BarKeepsForm(cfg, b, bar, Looks(before[k..]), k);
    }
  }

  /** Between bars, the strategy's trailing fields and the trigger resting at the venue are a function of
  the entry price and the bars since the last flip. */
  lemma {:induction false} TrailIsClosedForm(cfg: Config, bars: seq<Bar>, entry: int)
    requires cfg.Valid() && cfg.pct > 0.0
    requires Run(cfg, START, bars).net != 0 && Run(cfg, START, bars).s.entryPx == entry as real
    ensures var w := Run(cfg, START, bars);
            var side := if w.net > 0 then Buy else Sell;
            Trailed(cfg, w, side, entry, Heard(cfg, side, entry, Looks(bars[LastFlipBar(bars)..])))
  {
    RunRefines(cfg, bars);
    RunInForm(cfg, bars);
    var w := Run(cfg, START, bars);
    var side := if w.net > 0 then Buy else Sell;
    var since := bars[LastFlipBar(bars)..];
    CaughtAll(cfg, side, entry, since);
    SettledForm(cfg, w, BookRun(cfg, bars), Looks(since), side, entry);
  }

  /** The trailing fields and the resting stop are those of a position entered at `entry` that saw `looks`. */
  predicate Trailed(cfg: Config, w: World, side: Side, entry: int, looks: seq<Look>) {
    && w.s.trailActive == Reached(cfg, side, entry, looks)
    && w.s.peakPx == PeakPx(cfg, side, entry, looks) as real
    && w.s.trailPx == TrailOf(cfg, side, entry, looks)
    && w.s.slOrderId.Some?
    && w.resting == map[w.s.slOrderId.value := StopMarket(side.Opposite(), cfg.size, Prices.Round(w.s.trailPx))]
  }

  lemma {:induction false} SettledForm(cfg: Config, w: World, b: Book, looks: seq<Look>, side: Side, entry: int)
    requires cfg.Valid() && Settled(cfg, w, b) && PositionInForm(cfg, b, looks)
    requires w.net != 0 && w.s.entryPx == entry as real && side.Buy? == (w.net > 0)
    requires Caught(Heard(cfg, side, entry, looks)) == Heard(cfg, side, entry, looks)
    ensures Trailed(cfg, w, side, entry, Heard(cfg, side, entry, looks))
  {
    assert b.position.Open? && b.position.side == side && b.position.entry == entry;
    hide Heard;
    hide Reached;
    hide PeakPx;
    hide TrailOf;
    hide Caught;
  }

  lemma {:induction false} CaughtAll(cfg: Config, side: Side, entry: int, bars: seq<Bar>)
    ensures var looks := Heard(cfg, side, entry, Looks(bars));
            Caught(looks) == looks
  {
    if bars != [] {
      var looks := Looks(bars[..|bars| - 1]);
      CaughtAll(cfg, side, entry, bars[..|bars| - 1]);
      if Acts(bars[|bars| - 1]) {
        assert Looks(bars)[..|looks|] == looks;
      }
    }
  }
}
