/** What single bars, triggered stops and answers of the venue do in every run, in terms of the bar's prices, the
stops triggered and the venue's replies alone. */
module DeskLaws {
  import opened Wrappers
  import opened Desk
  import opened DeskRefinement
  import opened DeskRuns
  import Prices
  import StopRatchet

  // Which bars count

  /** A bar before warm-up, or with a single price, leaves the desk as the stops triggered by it left it. */
  lemma {:induction false} QuietBar(cfg: Config, bars: seq<Bar>, bar: Bar)
    requires cfg.Valid()
    requires !bar.initialized || (bar.open == bar.high && bar.high == bar.low && bar.low == bar.close)
    ensures Run(cfg, START, bars + [bar]) == FillStops(cfg, Run(cfg, START, bars), bar.hits)
  {
    var w := Run(cfg, START, bars);
    assert (bars + [bar])[..|bars|] == bars;
    assert OnBar(cfg, FillStops(cfg, w, bar.hits), bar) == FillStops(cfg, w, bar.hits);
    RunRefines(cfg, bars);
    HitsRefine(cfg, w, BookRun(cfg, bars), bar.hits);
    hide FillStops;
    hide OnBar;
  }

  /** Any other bar makes the strategy remember its signal. */
  lemma {:induction false} LoudBar(cfg: Config, bars: seq<Bar>, bar: Bar)
    requires cfg.Valid()
    requires bar.initialized && (bar.open != bar.high || bar.high != bar.low || bar.low != bar.close)
    ensures Run(cfg, START, bars + [bar]).s.prevBullish == Some(bar.bullish)
  {
    assert (bars + [bar])[..|bars|] == bars;
    RunRefines(cfg, bars + [bar]);
    BarPrev(cfg, BookRun(cfg, bars), bar);
    hide BookBar;
    hide Run;
  }

  // Stops triggered by the market

  lemma {:induction false} NothingHit(cfg: Config, w: World, hits: seq<Hit>)
    requires forall h <- hits :: h.id !in w.resting
    ensures FillStops(cfg, w, hits) == w
    decreases |hits|
  {
    if hits != [] {
      assert hits[0] in hits && FillStop(cfg, w, hits[0]) == w;
      NothingHit(cfg, w, hits[1..]);
    }
  }

  /** The desk after the stop of its position has traded. */
  function StoppedOut(w: World): World {
    w.(net := 0, resting := map[],
       s := w.s.(slOrderId := None, entrySide := None, peakPx := 0.0, trailPx := 0.0, trailActive := false,
                 slDistance := 0.0))
  }

  lemma {:induction false} StopHit(cfg: Config, w: World, b: Book, hits: seq<Hit>, i: nat)
    requires cfg.Valid() && Settled(cfg, w, b) && b.position.Open?
    requires i < |hits| && hits[i].id == b.position.stopId
    ensures FillStops(cfg, w, hits) == StoppedOut(w)
    decreases |hits|
  {
    if hits[0].id == b.position.stopId {
      assert w.resting - {hits[0].id} == map[];
      assert FillStop(cfg, w, hits[0]) == StoppedOut(w);
      NothingHit(cfg, StoppedOut(w), hits[1..]);
    } else {
      assert FillStop(cfg, w, hits[0]) == w;
      StopHit(cfg, w, b, hits[1..], i - 1);
    }
  }

  /** In every run, a bar that triggers the recorded stop closes the position and clears the strategy's trade; one that
  does not changes nothing. */
  lemma {:induction false} HitsCloseExactly(cfg: Config, bars: seq<Bar>, hits: seq<Hit>)
    requires cfg.Valid()
    ensures var w := Run(cfg, START, bars);
            FillStops(cfg, w, hits)
            == if w.s.slOrderId.Some? && (exists h <- hits :: h.id == w.s.slOrderId.value) then StoppedOut(w) else w
  {
    var w, b := Run(cfg, START, bars), BookRun(cfg, bars);
    RunRefines(cfg, bars);
    hide Run;
    hide BookRun;
    hide FillStops;
    if w.s.slOrderId.Some? && exists h <- hits :: h.id == w.s.slOrderId.value {
      var h :| h in hits && h.id == w.s.slOrderId.value;
      var i :| 0 <= i < |hits| && hits[i] == h;
      StopHit(cfg, w, b, hits, i);
    } else {
      NothingHit(cfg, w, hits);
    }
  }

  // Answers of the venue

  /** Order `i` may be followed by this one: a stop follows an entry exactly if that was accepted, and what follows a
  rejected stop closes the position. */
  predicate Follows(cfg: Config, i: nat, order: Order, next: Order) {
    match order
    case Market(_, _, false) => next.StopMarket? != cfg.reply(i).reject
    case StopMarket(side, _, _) => cfg.reply(i).reject ==> next == Market(side, cfg.size, true)
    case _ => true
  }

  /** Nothing has to follow order `i`. */
  predicate MayEnd(cfg: Config, i: nat, order: Order) {
    match order
    case Market(_, _, false) => cfg.reply(i).reject
    case StopMarket(_, _, _) => !cfg.reply(i).reject
    case _ => true
  }

  predicate Answered(cfg: Config, orders: seq<Order>, i: nat)
    requires i < |orders|
  {
    if i + 1 < |orders| then Follows(cfg, i, orders[i], orders[i + 1]) else MayEnd(cfg, i, orders[i])
  }

  ghost predicate Chained(cfg: Config, orders: seq<Order>) {
    forall i :: 0 <= i < |orders| - 1 ==> Follows(cfg, i, orders[i], orders[i + 1])
  }

  predicate Ended(cfg: Config, orders: seq<Order>) {
    orders != [] ==> MayEnd(cfg, |orders| - 1, orders[|orders| - 1])
  }

  lemma {:induction false} ChainPush(cfg: Config, orders: seq<Order>, order: Order)
    requires Chained(cfg, orders) && (orders != [] ==> Follows(cfg, |orders| - 1, orders[|orders| - 1], order))
    ensures Chained(cfg, orders + [order])
  {
    var more := orders + [order];
    forall i | 0 <= i < |more| - 1 ensures Follows(cfg, i, more[i], more[i + 1]) {
      assert more[i] == orders[i];
    }
  }

  /** A position has an accepted entry, the last one, and an accepted stop. */
  ghost predicate Accepted(cfg: Config, b: Book) {
    b.position.Open? ==>
      var p := b.position;
      && p.entryId < |b.orders| && IsEntry(b.orders[p.entryId]) && !cfg.reply(p.entryId).reject
      && (forall i :: p.entryId < i < |b.orders| ==> !IsEntry(b.orders[i]))
      && p.stopId < |b.orders| && b.orders[p.stopId].StopMarket? && !cfg.reply(p.stopId).reject
  }

  ghost predicate LogOk(cfg: Config, b: Book) {
    Chained(cfg, b.orders) && Ended(cfg, b.orders) && Accepted(cfg, b)
  }

  /** Submitting a stop for a position whose entry was accepted. */
  lemma {:induction false} GuardLog(cfg: Config, b: Book, p: Position, px: real)
    requires p.Open? && Chained(cfg, b.orders)
    requires p.entryId < |b.orders| && IsEntry(b.orders[p.entryId]) && !cfg.reply(p.entryId).reject
    requires forall i :: p.entryId < i < |b.orders| ==> !IsEntry(b.orders[i])
    requires p.entryId + 1 < |b.orders| ==> Ended(cfg, b.orders)
    ensures LogOk(cfg, Guard(cfg, b, p, px))
  {
    var n, stop := |b.orders|, StopAt(cfg, p.side, px);
    assert Follows(cfg, n - 1, b.orders[n - 1], stop);
    ChainPush(cfg, b.orders, stop);
    ChainPush(cfg, b.orders + [stop], Closing(cfg, p.side));
    var r := Guard(cfg, b, p, px);
    assert forall i :: 0 <= i < n ==> r.orders[i] == b.orders[i];
    hide Chained;
  }

  lemma {:induction false} EnterLog(cfg: Config, b: Book, side: Side)
    requires Chained(cfg, b.orders) && Ended(cfg, b.orders)
    ensures LogOk(cfg, BookEnter(cfg, b, side))
  {
    var id, entry := |b.orders|, Market(side, cfg.size, false);
    ChainPush(cfg, b.orders, entry);
    if !cfg.reply(id).reject {
      var px := cfg.reply(id).px;
      var stopPx := StopPx(cfg, side, px);
      var b1 := b.(orders := b.orders + [entry], position := Flat);
      hide Chained;
      GuardLog(cfg, b1, Open(side, px, id, id, px as real, Prices.Round(stopPx) as real, false, b.bars), stopPx);
    }
  }

  lemma {:induction false} TrailLog(cfg: Config, b: Book, bar: Bar)
    requires LogOk(cfg, b)
    ensures LogOk(cfg, BookTrail(cfg, b, bar))
  {
    if b.position.Open? {
      forall q: Position, px: real | q.Open? && q.entryId == b.position.entryId
        ensures LogOk(cfg, Guard(cfg, b, q, px))
      {
        GuardLog(cfg, b, q, px);
      }
    }
    hide Guard;
    hide Chained;
    hide Dist;
  }

  lemma {:induction false} SignalLog(cfg: Config, b: Book, bar: Bar)
    requires LogOk(cfg, b)
    ensures LogOk(cfg, BookSignal(cfg, b, bar))
  {
    if b.prev.Some? && b.prev != Some(bar.bullish) {
      if b.position.Open? {
        assert b.orders != [] && !IsEntry(b.orders[|b.orders| - 1]);
        ChainPush(cfg, b.orders, Closing(cfg, b.position.side));
      }
      hide Chained;
      EnterLog(cfg, Closed(cfg, b, bar.bullish), if bar.bullish then Buy else Sell);
    }
  }

  lemma {:induction false} BookLog(cfg: Config, bars: seq<Bar>)
    ensures LogOk(cfg, BookRun(cfg, bars))
  {
    if bars != [] {
      var n := |bars| - 1;
      var b, bar := BookRun(cfg, bars[..n]), bars[n];
      var b1 := BookHits(b.(bars := b.bars + 1), bar.hits);
      BookLog(cfg, bars[..n]);
      assert LogOk(cfg, b1);
      assert BookRun(cfg, bars) == if Acts(bar) then BookSignal(cfg, BookTrail(cfg, b1, bar), bar) else b1;
      hide *;
      if Acts(bar) {
        TrailLog(cfg, b1, bar);
        SignalLog(cfg, BookTrail(cfg, b1, bar), bar);
      }
    }
  }

  lemma {:induction false} SettledOpen(cfg: Config, w: World, b: Book)
    requires cfg.Valid() && Settled(cfg, w, b)
    ensures w.orders == b.orders && (w.net != 0 ==> b.position.Open? && w.s.slOrderId == Some(b.position.stopId))
  {
  }

  lemma {:induction false} OrdersAnswered(cfg: Config, b: Book)
    requires LogOk(cfg, b)
    ensures forall i :: 0 <= i < |b.orders| ==> Answered(cfg, b.orders, i)
  {
    hide Follows;
    hide MayEnd;
    hide Accepted;
  }

  lemma {:induction false} PositionAccepted(cfg: Config, b: Book)
    requires LogOk(cfg, b) && b.position.Open?
    ensures var id := b.position.stopId; id < |b.orders| && b.orders[id].StopMarket? && !cfg.reply(id).reject
    ensures exists e :: 0 <= e < |b.orders| && IsEntry(b.orders[e]) && !cfg.reply(e).reject
                        && forall i :: e < i < |b.orders| ==> !IsEntry(b.orders[i])
  {
    hide Chained;
    hide Ended;
    var e := b.position.entryId;
    assert e < |b.orders| && IsEntry(b.orders[e]);
  }

  /** In every run, between bars: an entry that the venue accepted is followed by its stop and one that it rejected is
  not; a stop that it rejected is followed by an order that closes the position; and an open position has an entry and
  a resting stop that it accepted, with no entry since. */
  lemma {:induction false} AnswersHonoured(cfg: Config, bars: seq<Bar>)
    requires cfg.Valid()
    ensures var orders := Run(cfg, START, bars).orders;
            forall i :: 0 <= i < |orders| ==> Answered(cfg, orders, i)
    ensures var w := Run(cfg, START, bars);
            w.net != 0 ==>
              && w.s.slOrderId.Some? && w.s.slOrderId.value < |w.orders|
              && w.orders[w.s.slOrderId.value].StopMarket? && !cfg.reply(w.s.slOrderId.value).reject
              && exists e :: 0 <= e < |w.orders| && IsEntry(w.orders[e]) && !cfg.reply(e).reject
                             && forall i :: e < i < |w.orders| ==> !IsEntry(w.orders[i])
  {
    var w, b := Run(cfg, START, bars), BookRun(cfg, bars);
    RunRefines(cfg, bars);
    BookLog(cfg, bars);
    SettledOpen(cfg, w, b);
    hide *;
    OrdersAnswered(cfg, b);
    if b.position.Open? { PositionAccepted(cfg, b); }
  }

  // Fields and distances

  /** In every run, between bars, a flat strategy has cleared its peak, trail and distance, and remembers a side only
  for an entry that was not filled. */
  lemma {:induction false} FlatIsCleared(cfg: Config, bars: seq<Bar>)
    requires cfg.Valid()
    ensures var w := Run(cfg, START, bars);
            w.net == 0 ==>
              && w.s.peakPx == 0.0 && w.s.trailPx == 0.0 && !w.s.trailActive && w.s.slDistance == 0.0
              && (w.s.entrySide.Some? ==> w.s.entryOrderId.Some?)
  {
    RunRefines(cfg, bars);
    hide Run;
    hide BookRun;
  }

  lemma {:induction false} AcceptedEntry(cfg: Config, e: nat, orders: seq<Order>)
    requires e < |orders| && IsEntry(orders[e]) && !cfg.reply(e).reject && Answered(cfg, orders, e)
    ensures e + 1 < |orders| && orders[e + 1].StopMarket?
  {
  }

  lemma {:induction false} TradeOf(orders: seq<Order>, e: nat)
    requires e + 1 < |orders| && orders[e + 1].StopMarket?
    ensures StopRatchet.SameTrade(orders, e, e + 1)
  {
  }

  /** A stop against a position filled at `px`, at the configured fraction of that price. */
  function StopAgainst(cfg: Config, side: Side, px: real): Order {
    if side == Buy then StopMarket(Sell, cfg.size, Prices.Round(px - px * cfg.pct))
    else StopMarket(Buy, cfg.size, Prices.Round(px + px * cfg.pct))
  }

  lemma {:induction false} AheadIs(side: Side, px: real, d: real)
    ensures Ahead(side, px, -d) == if side == Buy then px - d else px + d
  {
  }

  lemma {:induction false} InitialStopIs(cfg: Config, side: Side, px: int)
    ensures StopAt(cfg, side, StopPx(cfg, side, px)) == StopAgainst(cfg, side, px as real)
  {
    AheadIs(side, px as real, px as real * cfg.pct);
    assert Dist(cfg, px) == px as real * cfg.pct;
    hide Dist;
    hide Ahead;
    hide Prices.Round;
  }

  /** In every run, the stop of an accepted entry is on the other side, of the same size, at the fill price less or plus
  the configured fraction of it, rounded to ticks. */
  lemma {:induction false} FirstStopDistance(cfg: Config, bars: seq<Bar>, e: nat)
    requires cfg.Valid()
    requires var orders := Run(cfg, START, bars).orders; e < |orders| && IsEntry(orders[e]) && !cfg.reply(e).reject
    ensures var orders := Run(cfg, START, bars).orders;
            e + 1 < |orders| && orders[e + 1] == StopAgainst(cfg, orders[e].side, cfg.reply(e).px as real)
  {
    hide *;
    AnswersHonoured(cfg, bars);
    var orders := Run(cfg, START, bars).orders;
    AcceptedEntry(cfg, e, orders);
    TradeOf(orders, e);
    StopRatchet.TrailedStopsLockEntry(cfg, bars, e, e + 1);
    InitialStopIs(cfg, orders[e].side, cfg.reply(e).px);
  }
}
