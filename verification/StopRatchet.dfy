/** Guarantees about the stops submitted for one position, read off the order log of a whole run. */
module StopRatchet {
  import opened Wrappers
  import opened Desk
  import opened DeskRefinement
  import opened DeskRuns
  import opened TrailingStop
  import Prices

  /** No position was entered after order `i` up to order `j`. */
  predicate SameTrade(orders: seq<Order>, i: nat, j: nat) {
    i < j < |orders| && forall k :: i < k <= j ==> !IsEntry(orders[k])
  }

  /** A stop on `side` at `a` gives up no more than one at `b`. */
  predicate NoWorse(side: Side, a: int, b: int) {
    if side.Sell? then a >= b else a <= b
  }

  /** What stop `j` owes to the earlier order `i` of the same trade: never to give back what an earlier
  stop had secured; to start at the configured distance from the entry; and, from the second stop on, to
  lock in the entry price. */
  ghost predicate Owes(cfg: Config, orders: seq<Order>, i: nat, j: nat)
    requires i < j < |orders| && orders[j].StopMarket?
  {
    && (orders[i].StopMarket? ==>
          orders[j].side == orders[i].side && NoWorse(orders[j].side, orders[j].trigger, orders[i].trigger))
    && (IsEntry(orders[i]) ==>
          && orders[j].side == orders[i].side.Opposite()
          && (j == i + 1 ==> orders[j] == StopAt(cfg, orders[i].side, StopPx(cfg, orders[i].side, cfg.reply(i).px)))
          && (j > i + 1 ==> NoWorse(orders[j].side, orders[j].trigger, cfg.reply(i).px)))
  }

  ghost predicate LogOk(cfg: Config, orders: seq<Order>) {
    forall i: nat, j: nat :: SameTrade(orders, i, j) && orders[j].StopMarket? ==> Owes(cfg, orders, i, j)
  }

  /** The best price is no worse than the entry. An inactive trail is at its initial state; an active one has a best
  price beyond 1:1. With an entry price that is not positive the trail never moves. */
  predicate TrailState(cfg: Config, p: Position)
    requires p.Open?
  {
    && !Better(p.side, p.entry as real, p.peak)
    && (p.entry <= 0 ==> p.peak == p.entry as real)
    && (p.entry > 0 && Dist(cfg, p.entry) > 0.0 ==>
          if p.active then !Better(p.side, Ahead(p.side, p.entry as real, Dist(cfg, p.entry)), p.peak)
          else p.peak == p.entry as real && p.trail == Prices.Round(StopPx(cfg, p.side, p.entry)) as real)
  }

  /** The orders of the open position are those since its entry, and its stop is the best of them. */
  ghost predicate TradeOk(cfg: Config, b: Book) {
    b.position.Open? ==>
      var p := b.position;
      && p.entryId + 1 < |b.orders|
      && b.orders[p.entryId] == Market(p.side, cfg.size, false)
      && p.entry == cfg.reply(p.entryId).px
      && (forall i :: p.entryId < i < |b.orders| ==> !IsEntry(b.orders[i]))
      && (forall i :: p.entryId < i < |b.orders| && b.orders[i].StopMarket? ==>
            b.orders[i].side == p.side.Opposite()
            && NoWorse(p.side.Opposite(), Prices.Round(p.trail), b.orders[i].trigger))
      && TrailState(cfg, p)
  }

  lemma {:induction false} PushOther(cfg: Config, orders: seq<Order>, order: Order)
    requires LogOk(cfg, orders) && !order.StopMarket?
    ensures LogOk(cfg, orders + [order])
  {
    var more := orders + [order];
    forall i: nat, j: nat | SameTrade(more, i, j) && more[j].StopMarket? ensures Owes(cfg, more, i, j) {
      assert more[i] == orders[i] && more[j] == orders[j];
      assert SameTrade(orders, i, j) by {
        forall k | i < k <= j ensures !IsEntry(orders[k]) { assert more[k] == orders[k]; }
      }
    }
  }

  lemma {:induction false} PushStop(cfg: Config, orders: seq<Order>, stop: Order)
    requires LogOk(cfg, orders) && stop.StopMarket?
    requires forall i: nat :: SameTrade(orders + [stop], i, |orders|) ==> Owes(cfg, orders + [stop], i, |orders|)
    ensures LogOk(cfg, orders + [stop])
  {
    var more := orders + [stop];
    forall i: nat, j: nat | SameTrade(more, i, j) && more[j].StopMarket? ensures Owes(cfg, more, i, j) {
      if j < |orders| {
        assert more[i] == orders[i] && more[j] == orders[j];
        assert SameTrade(orders, i, j) by {
          forall k | i < k <= j ensures !IsEntry(orders[k]) { assert more[k] == orders[k]; }
        }
      }
    }
  }

  /** Submitting a stop that is no worse than those before keeps the log in order. */
  lemma {:induction false} GuardKeepsLog(cfg: Config, b: Book, p: Position, px: real)
    requires p.Open? && LogOk(cfg, b.orders)
    requires p.entryId < |b.orders| && b.orders[p.entryId] == Market(p.side, cfg.size, false)
    requires p.entry == cfg.reply(p.entryId).px
    requires forall i :: p.entryId < i < |b.orders| ==> !IsEntry(b.orders[i])
    requires forall i :: p.entryId < i < |b.orders| && b.orders[i].StopMarket? ==>
               b.orders[i].side == p.side.Opposite()
               && NoWorse(p.side.Opposite(), Prices.Round(px), b.orders[i].trigger)
    requires Prices.Round(p.trail) == Prices.Round(px)
    requires TrailState(cfg, p)
    requires if p.entryId + 1 == |b.orders| then px == StopPx(cfg, p.side, p.entry)
             else NoWorse(p.side.Opposite(), Prices.Round(px), p.entry)
    ensures LogOk(cfg, Guard(cfg, b, p, px).orders) && TradeOk(cfg, Guard(cfg, b, p, px))
  {
    var stop := StopAt(cfg, p.side, px);
    var more := b.orders + [stop];
    forall i: nat | SameTrade(more, i, |b.orders|) ensures Owes(cfg, more, i, |b.orders|) {
      if i < p.entryId {
        assert IsEntry(more[p.entryId]);
        assert false;
      }
      assert more[i] == b.orders[i];
    }
    PushStop(cfg, b.orders, stop);
    PushOther(cfg, more, Closing(cfg, p.side));
    var r := Guard(cfg, b, p, px);
    if r.position.Open? {
      assert forall i :: 0 <= i < |b.orders| ==> r.orders[i] == b.orders[i];
    }
  }

  lemma {:induction false} EnterKeepsLog(cfg: Config, b: Book, side: Side)
    requires LogOk(cfg, b.orders)
    ensures LogOk(cfg, BookEnter(cfg, b, side).orders) && TradeOk(cfg, BookEnter(cfg, b, side))
  {
    var id := |b.orders|;
    var b1 := b.(orders := b.orders + [Market(side, cfg.size, false)], position := Flat);
    PushOther(cfg, b.orders, Market(side, cfg.size, false));
    if !cfg.reply(id).reject {
      var entry := cfg.reply(id).px;
      var px := StopPx(cfg, side, entry);
      Prices.RoundOnGrid(Prices.Round(px));
      GuardKeepsLog(cfg, b1, Open(side, entry, id, id, entry as real, Prices.Round(px) as real, false, b.bars), px);
    }
  }

  /** A trail that moves keeps the state of the trail and locks in the entry price. */
  lemma {:induction false} MovedTrail(cfg: Config, p: Position, bar: Bar)
    requires p.Open? && TrailState(cfg, p)
    ensures var q := Advance(cfg, p, Look(bar, true));
            && TrailState(cfg, q)
            && (q.trail != p.trail ==> NoWorse(p.side.Opposite(), Prices.Round(q.trail), p.entry))
  {
    var q := Advance(cfg, p, Look(bar, true));
    if Dist(cfg, p.entry) > 0.0 && !p.active && q.active {
      ReachedImproves(cfg, p.side, p.entry, FavourablePx(p.side, bar));
    }
    hide Prices.Round;
    Prices.RoundOnGrid(p.entry);
    if q.trail != p.trail {
      assert !Better(p.side, p.entry as real, q.trail);
      if p.side.Buy? {
        Prices.RoundMonotone(p.entry as real, q.trail);
      } else {
        Prices.RoundMonotone(q.trail, p.entry as real);
      }
    }
  }

  lemma {:induction false} TrailKeepsLog(cfg: Config, b: Book, bar: Bar)
    requires LogOk(cfg, b.orders) && TradeOk(cfg, b)
    ensures LogOk(cfg, BookTrail(cfg, b, bar).orders) && TradeOk(cfg, BookTrail(cfg, b, bar))
  {
    if b.position.Open? && b.position.peak > 0.0 {
      var p := b.position;
      var q := Advance(cfg, p, Look(bar, true));
      MovedTrail(cfg, p, bar);
      if q.trail != p.trail {
        if p.side.Buy? { Prices.RoundMonotone(p.trail, q.trail); } else { Prices.RoundMonotone(q.trail, p.trail); }
        assert BookTrail(cfg, b, bar) == Guard(cfg, b, q, q.trail);
        GuardKeepsLog(cfg, b, q, q.trail);
      } else {
        assert BookTrail(cfg, b, bar) == b.(position := q);
      }
    }
  }

  lemma {:induction false} BarKeepsLog(cfg: Config, b: Book, bar: Bar)
    requires LogOk(cfg, b.orders) && TradeOk(cfg, b)
    ensures LogOk(cfg, BookBar(cfg, b, bar).orders) && TradeOk(cfg, BookBar(cfg, b, bar))
  {
    var b1 := BookHits(b.(bars := b.bars + 1), bar.hits);
    assert LogOk(cfg, b1.orders) && TradeOk(cfg, b1);
    assert BookBar(cfg, b, bar) == if Acts(bar) then BookSignal(cfg, BookTrail(cfg, b1, bar), bar) else b1;
    hide *;
    if Acts(bar) {
      TrailKeepsLog(cfg, b1, bar);
      SignalKeepsLog(cfg, BookTrail(cfg, b1, bar), bar);
    }
  }

  lemma {:induction false} SignalKeepsLog(cfg: Config, b: Book, bar: Bar)
    requires LogOk(cfg, b.orders) && TradeOk(cfg, b)
    ensures LogOk(cfg, BookSignal(cfg, b, bar).orders) && TradeOk(cfg, BookSignal(cfg, b, bar))
  {
    if b.prev.Some? && b.prev != Some(bar.bullish) {
      if b.position.Open? {
        PushOther(cfg, b.orders, Closing(cfg, b.position.side));
      }
      EnterKeepsLog(cfg, Closed(cfg, b, bar.bullish), Towards(bar.bullish));
    }
  }

  lemma {:induction false} BookLogOk(cfg: Config, bars: seq<Bar>)
    ensures LogOk(cfg, BookRun(cfg, bars).orders) && TradeOk(cfg, BookRun(cfg, bars))
  {
    if bars != [] {
      var n := |bars| - 1;
      BookLogOk(cfg, bars[..n]);
      BarKeepsLog(cfg, BookRun(cfg, bars[..n]), bars[n]);
    }
  }

  /** In every run, a later stop of the same trade is on the same side and never gives back what an earlier
  one had secured, although the strategy compares unrounded prices with a rounded first one. */
  lemma {:induction false} StopsRatchet(cfg: Config, bars: seq<Bar>, i: nat, j: nat)
    requires cfg.Valid()
    requires var orders := Run(cfg, START, bars).orders;
             SameTrade(orders, i, j) && orders[i].StopMarket? && orders[j].StopMarket?
    ensures var orders := Run(cfg, START, bars).orders;
            orders[j].side == orders[i].side && NoWorse(orders[i].side, orders[j].trigger, orders[i].trigger)
  {
    RunRefines(cfg, bars);
    BookLogOk(cfg, bars);
    assert Owes(cfg, Run(cfg, START, bars).orders, i, j);
  }

  /** In every run, whatever the prices and the distance, the order after an accepted entry is the stop at the
  configured distance from the fill, and every further stop of that trade is at the fill price or better. */
  lemma {:induction false} TrailedStopsLockEntry(cfg: Config, bars: seq<Bar>, e: nat, j: nat)
    requires cfg.Valid()
    requires var orders := Run(cfg, START, bars).orders;
             SameTrade(orders, e, j) && IsEntry(orders[e]) && orders[j].StopMarket?
    ensures var orders := Run(cfg, START, bars).orders;
            var side, px := orders[e].side, cfg.reply(e).px;
            && orders[j].side == side.Opposite()
            && (j == e + 1 ==> orders[j] == StopAt(cfg, side, StopPx(cfg, side, px)))
            && (j > e + 1 ==> NoWorse(orders[j].side, orders[j].trigger, px))
  {
    RunRefines(cfg, bars);
    BookLogOk(cfg, bars);
    assert Owes(cfg, Run(cfg, START, bars).orders, e, j);
  }
}
