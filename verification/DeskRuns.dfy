/** What holds between bars of every run, from the start, whatever the market and the venue do. */
module DeskRuns {
  import opened Wrappers
  import opened Desk
  import opened DeskRefinement
  import Prices

  function BookRun(cfg: Config, bars: seq<Bar>): Book {
    if bars == [] then EMPTY else BookBar(cfg, BookRun(cfg, bars[..|bars| - 1]), bars[|bars| - 1])
  }

  lemma {:induction false} RunRefines(cfg: Config, bars: seq<Bar>)
    requires cfg.Valid()
    ensures Settled(cfg, Run(cfg, START, bars), BookRun(cfg, bars))
  {
    if bars != [] {
      var n := |bars| - 1;
      RunRefines(cfg, bars[..n]);
      BarRefines(cfg, Run(cfg, START, bars[..n]), BookRun(cfg, bars[..n]), bars[n]);
    }
  }

  /** A stop of the full size on the other side of the position, and nothing else, rests at the venue. */
  predicate Protected(cfg: Config, w: World) {
    && (w.net == cfg.size || w.net == -cfg.size)
    && w.s.slOrderId.Some?
    && w.resting.Keys == {w.s.slOrderId.value}
    && var stop := w.resting[w.s.slOrderId.value];
    && stop.StopMarket? && stop.qty == cfg.size
    && stop.side.Reduces(w.net)
  }

  predicate Idle(w: World) {
    w.net == 0 && w.resting == map[] && w.s.slOrderId == None
  }

  /** Between bars the desk is either idle or protected, and every command has been settled. */
  lemma {:induction false} AlwaysProtected(cfg: Config, bars: seq<Bar>)
    requires cfg.Valid()
    ensures var w := Run(cfg, START, bars);
            && w.queue == []
            && (Idle(w) || Protected(cfg, w))
            && (w.net != 0 <==> Protected(cfg, w))
            && (w.resting == map[] <==> Idle(w))
  {
    RunRefines(cfg, bars);
    var w, p := Run(cfg, START, bars), BookRun(cfg, bars).position;
    if p.Open? {
      assert w.resting.Keys == {p.stopId};
      assert p.stopId in w.resting;
    }
  }

  /** Stopping the strategy between bars leaves no resting order, and no position if it is told to close
  them; the strategy itself keeps the identifier of the cancelled stop. */
  lemma {:induction false} StopLeavesNothing(cfg: Config, bars: seq<Bar>, closePositions: bool)
    requires cfg.Valid()
    ensures var w := Run(cfg, START, bars);
            var r := Drain(cfg, OnStop(cfg, w, closePositions));
            r.resting == map[] && r.net == (if closePositions then 0 else w.net) && r.s == w.s
  {
    RunRefines(cfg, bars);
    StopSettles(cfg, Run(cfg, START, bars), BookRun(cfg, bars), closePositions);
  }

  lemma {:induction false} StopSettles(cfg: Config, w: World, b: Book, closePositions: bool)
    requires cfg.Valid() && Settled(cfg, w, b)
    ensures var r := Drain(cfg, OnStop(cfg, w, closePositions));
            r.resting == map[] && r.net == (if closePositions then 0 else w.net) && r.s == w.s
  {
    if b.position.Flat? {
      assert CancelAllOrders(cfg, w) == w;
      assert CloseAllPositions(cfg, w) == w;
    } else {
      var side := b.position.side;
      assert b.position.stopId in w.resting;
      assert CancelAllOrders(cfg, w) == Send(cfg, w, CancelAll);
      var w1 := w.(resting := map[]);
      assert Process(cfg, w, CancelAll) == w1;
      DrainOne(cfg, w, CancelAll);
      if closePositions {
        var close := Submit(|w.orders|, Closing(cfg, side));
        var w2 := w1.(orders := w.orders + [Closing(cfg, side)]);
        StopCloses(cfg, w2, close.id, side);
        if cfg.queued {
          var x := w.(queue := [CancelAll]);
          assert CancelAllOrders(cfg, w) == x;
          ClosesPosition(cfg, x, side);
          var y := x.(orders := w2.orders, queue := [CancelAll, close]);
          assert OnStop(cfg, w, closePositions) == y;
          DrainCons(cfg, y, CancelAll, [close]);
          DrainCons(cfg, w2.(queue := [close]), close, []);
        } else {
          ClosesPosition(cfg, w1, side);
        }
      }
    }
  }

  lemma {:induction false} StopCloses(cfg: Config, w: World, id: OrderId, side: Side)
    requires cfg.Valid() && w.net == side.Signed(cfg.size)
    requires w.s.entryOrderId != Some(id) && w.s.slOrderId != Some(id)
    ensures Process(cfg, w, Submit(id, Closing(cfg, side))) == w.(net := 0)
  {
  }

  /** A position is on the side of the last signal. */
  lemma {:induction false} PositionFollowsSignal(cfg: Config, bars: seq<Bar>)
    requires cfg.Valid()
    ensures var w := Run(cfg, START, bars);
            && (w.net > 0 ==> w.s.prevBullish == Some(true))
            && (w.net < 0 ==> w.s.prevBullish == Some(false))
            && -cfg.size <= w.net <= cfg.size
  {
    RunRefines(cfg, bars);
  }

  lemma {:induction false} BookIgnoresQueue(cfg: Config, cfg': Config, bars: seq<Bar>)
    requires cfg' == cfg.(queued := cfg'.queued)
    ensures BookRun(cfg, bars) == BookRun(cfg', bars)
  {
    if bars != [] {
      var n := |bars| - 1;
      BookIgnoresQueue(cfg, cfg', bars[..n]);
      BookBarIgnoresQueue(cfg, cfg', BookRun(cfg, bars[..n]), bars[n]);
    }
  }

  lemma {:induction false} TrailIgnoresQueue(cfg: Config, cfg': Config, b: Book, bar: Bar)
    requires cfg' == cfg.(queued := cfg'.queued)
    ensures BookTrail(cfg, b, bar) == BookTrail(cfg', b, bar)
  {
    forall p: Position, px: real | p.Open? ensures Guard(cfg, b, p, px) == Guard(cfg', b, p, px) {
      GuardIgnoresQueue(cfg, cfg', b, p, px);
    }
    assert b.position.Open? ==> Dist(cfg, b.position.entry) == Dist(cfg', b.position.entry);
    hide Guard;
    hide Dist;
  }

  lemma {:induction false} SignalIgnoresQueue(cfg: Config, cfg': Config, b: Book, bar: Bar)
    requires cfg' == cfg.(queued := cfg'.queued)
    ensures BookSignal(cfg, b, bar) == BookSignal(cfg', b, bar)
  {
    assert Closed(cfg, b, bar.bullish) == Closed(cfg', b, bar.bullish);
    EnterIgnoresQueue(cfg, cfg', Closed(cfg, b, bar.bullish), if bar.bullish then Buy else Sell);
    hide BookEnter;
    hide Closed;
  }

  lemma {:induction false} BookBarIgnoresQueue(cfg: Config, cfg': Config, b: Book, bar: Bar)
    requires cfg' == cfg.(queued := cfg'.queued)
    ensures BookBar(cfg, b, bar) == BookBar(cfg', b, bar)
  {
    hide BookHits;
    hide BookTrail;
    hide BookSignal;
    var b1 := BookHits(b.(bars := b.bars + 1), bar.hits);
    TrailIgnoresQueue(cfg, cfg', b1, bar);
    SignalIgnoresQueue(cfg, cfg', BookTrail(cfg, b1, bar), bar);
  }

  lemma {:induction false} GuardIgnoresQueue(cfg: Config, cfg': Config, b: Book, p: Position, px: real)
    requires cfg' == cfg.(queued := cfg'.queued) && p.Open?
    ensures Guard(cfg, b, p, px) == Guard(cfg', b, p, px)
  {
    assert StopAt(cfg, p.side, px) == StopAt(cfg', p.side, px);
    assert Closing(cfg, p.side) == Closing(cfg', p.side);
  }

  lemma {:induction false} EnterIgnoresQueue(cfg: Config, cfg': Config, b: Book, side: Side)
    requires cfg' == cfg.(queued := cfg'.queued)
    ensures BookEnter(cfg, b, side) == BookEnter(cfg', b, side)
  {
    var entry := cfg.reply(|b.orders|).px;
    var px := StopPx(cfg, side, entry);
    assert px == StopPx(cfg', side, entry);
    var b1 := b.(orders := b.orders + [Market(side, cfg.size, false)], position := Flat);
    var p := Open(side, entry, |b.orders|, |b.orders|, entry as real, Prices.Round(px) as real, false, b.bars);
    GuardIgnoresQueue(cfg, cfg', b1, p, px);
  }

  /** What a book says about the strategy and the venue does not depend on the queue. */
  lemma {:induction false} SettledDetermines(cfg: Config, cfg': Config, w: World, v: World, b: Book)
    requires cfg' == cfg.(queued := cfg'.queued) && Settled(cfg, w, b) && Settled(cfg', v, b)
    ensures w.orders == v.orders && w.net == v.net && w.resting == v.resting
    ensures w.s.slOrderId == v.s.slOrderId && w.s.prevBullish == v.s.prevBullish
    ensures b.position.Open? ==> w.s == v.s
    ensures b.position.Flat? ==> w.net == 0
  {
  }

  /** A venue that queues commands and one that answers from within the strategy's handlers give the
  same orders, the same position and the same resting stop after every bar. */
  lemma {:induction false} QueuedAndImmediateAgree(cfg: Config, cfg': Config, bars: seq<Bar>)
    requires cfg.Valid() && cfg.queued && cfg' == cfg.(queued := false)
    ensures var w, v := Run(cfg, START, bars), Run(cfg', START, bars);
            && w.orders == v.orders && w.net == v.net && w.resting == v.resting
            && w.s.slOrderId == v.s.slOrderId && w.s.prevBullish == v.s.prevBullish
            && (w.net != 0 ==> w.s == v.s)
  {
    RunRefines(cfg, bars);
    RunRefines(cfg', bars);
    BookIgnoresQueue(cfg, cfg', bars);
    SettledDetermines(cfg, cfg', Run(cfg, START, bars), Run(cfg', START, bars), BookRun(cfg, bars));
  }

  // Entries are the flips of the signal

  function PushIf<T>(s: seq<T>, pushed: bool, x: T): seq<T> {
    if pushed then s + [x] else s
  }

  predicate IsEntry(order: Order) {
    order.Market? && !order.reduceOnly
  }

  /** The sides of the entries among `orders`, in order. */
  function Entries(orders: seq<Order>): seq<Side> {
    if orders == [] then []
    else
      var last := orders[|orders| - 1];
      PushIf(Entries(orders[..|orders| - 1]), IsEntry(last), last.side)
  }

  /** The signals of the bars the strategy acts on. */
  function Signals(bars: seq<Bar>): seq<bool> {
    if bars == [] then []
    else
      var last := bars[|bars| - 1];
      PushIf(Signals(bars[..|bars| - 1]), Acts(last), last.bullish)
  }

  function Towards(bullish: bool): Side {
    if bullish then Buy else Sell
  }

  /** The sides to which a sequence of signals flips. */
  function Flips(signals: seq<bool>): seq<Side> {
    var n := |signals|;
    if n < 2 then []
    else PushIf(Flips(signals[..n - 1]), signals[n - 1] != signals[n - 2], Towards(signals[n - 1]))
  }

  lemma {:induction false} FlipsPush(signals: seq<bool>, bullish: bool)
    ensures Flips(signals + [bullish])
         == PushIf(Flips(signals), signals != [] && signals[|signals| - 1] != bullish, Towards(bullish))
  {
    assert (signals + [bullish])[..|signals|] == signals;
  }

  lemma {:induction false} EntriesPush(orders: seq<Order>, order: Order)
    ensures Entries(orders + [order]) == PushIf(Entries(orders), IsEntry(order), order.side)
  {
    assert (orders + [order])[..|orders|] == orders;
  }

  lemma {:induction false} GuardEntries(cfg: Config, b: Book, p: Position, px: real)
    requires p.Open?
    ensures Entries(Guard(cfg, b, p, px).orders) == Entries(b.orders)
  {
    var stop := StopAt(cfg, p.side, px);
    EntriesPush(b.orders, stop);
    EntriesPush(b.orders + [stop], Closing(cfg, p.side));
  }

  lemma {:induction false} EnterEntries(cfg: Config, b: Book, side: Side)
    ensures Entries(BookEnter(cfg, b, side).orders) == Entries(b.orders) + [side]
  {
    var id := |b.orders|;
    EntriesPush(b.orders, Market(side, cfg.size, false));
    if !cfg.reply(id).reject {
      var entry := cfg.reply(id).px;
      var px := StopPx(cfg, side, entry);
      var b1 := b.(orders := b.orders + [Market(side, cfg.size, false)], position := Flat);
      GuardEntries(cfg, b1, Open(side, entry, id, id, entry as real, Prices.Round(px) as real, false, b.bars), px);
    }
  }

  lemma {:induction false} BarPrev(cfg: Config, b: Book, bar: Bar)
    ensures BookBar(cfg, b, bar).prev == if Acts(bar) then Some(bar.bullish) else b.prev
  {
    hide BookTrail;
    hide Dist;
    hide StopPx;
  }

  /** The last signal is the remembered one. */
  lemma {:induction false} LastSignal(cfg: Config, bars: seq<Bar>)
    ensures var b, signals := BookRun(cfg, bars), Signals(bars);
            b.prev == if signals == [] then None else Some(signals[|signals| - 1])
  {
    if bars != [] {
      var n := |bars| - 1;
      hide BookBar;
      LastSignal(cfg, bars[..n]);
      BarPrev(cfg, BookRun(cfg, bars[..n]), bars[n]);
    }
  }

  lemma {:induction false} BookEntriesAreFlips(cfg: Config, bars: seq<Bar>)
    ensures Entries(BookRun(cfg, bars).orders) == Flips(Signals(bars))
  {
    if bars != [] {
      var n := |bars| - 1;
      var bar, b := bars[n], BookRun(cfg, bars[..n]);
      BookEntriesAreFlips(cfg, bars[..n]);
      LastSignal(cfg, bars[..n]);
      BarEntries(cfg, b, bar);
      FlipsPush(Signals(bars[..n]), bar.bullish);
    }
  }

  lemma {:induction false} TrailEntries(cfg: Config, b: Book, bar: Bar)
    ensures Entries(BookTrail(cfg, b, bar).orders) == Entries(b.orders)
    ensures BookTrail(cfg, b, bar).prev == b.prev
  {
    forall p: Position, px: real | p.Open? ensures Entries(Guard(cfg, b, p, px).orders) == Entries(b.orders) {
      GuardEntries(cfg, b, p, px);
    }
  }

  lemma {:induction false} BarEntries(cfg: Config, b: Book, bar: Bar)
    ensures Entries(BookBar(cfg, b, bar).orders)
         == PushIf(Entries(b.orders), Acts(bar) && b.prev == Some(!bar.bullish), Towards(bar.bullish))
  {
    var b1 := BookHits(b.(bars := b.bars + 1), bar.hits);
    assert b1.orders == b.orders && b1.prev == b.prev;
    assert BookBar(cfg, b, bar) == if Acts(bar) then BookSignal(cfg, BookTrail(cfg, b1, bar), bar) else b1;
    assert forall s: seq<Side>, x :: PushIf(s, false, x) == s;
    hide *;
    TrailEntries(cfg, b1, bar);
    SignalEntries(cfg, BookTrail(cfg, b1, bar), bar);
  }

  lemma {:induction false} SignalEntries(cfg: Config, b: Book, bar: Bar)
    ensures Entries(BookSignal(cfg, b, bar).orders)
         == PushIf(Entries(b.orders), b.prev == Some(!bar.bullish), Towards(bar.bullish))
  {
    assert b.prev.None? || b.prev == Some(bar.bullish) || b.prev == Some(!bar.bullish) by {
      if b.prev.Some? && b.prev.value != bar.bullish { assert b.prev.value == !bar.bullish; }
    }
    if b.prev == Some(!bar.bullish) {
      if b.position.Open? { EntriesPush(b.orders, Closing(cfg, b.position.side)); }
      EnterEntries(cfg, Closed(cfg, b, bar.bullish), if bar.bullish then Buy else Sell);
    }
  }

  /** Exactly one entry is submitted at each flip of the signal and at no other time, on the side the
  signal flips to, whatever happened to the positions in between. */
  lemma {:induction false} EntriesAreFlips(cfg: Config, bars: seq<Bar>)
    requires cfg.Valid()
    ensures Entries(Run(cfg, START, bars).orders) == Flips(Signals(bars))
  {
    RunRefines(cfg, bars);
    BookEntriesAreFlips(cfg, bars);
  }

  /** Flips alternate, and the last one is to the last signal. */
  lemma {:induction false} FlipsAlternate(signals: seq<bool>, i: nat)
    requires i + 1 < |Flips(signals)|
    ensures Flips(signals)[i] != Flips(signals)[i + 1]
  {
    var n := |signals|;
    LastFlip(signals[..n - 1]);
    if i + 1 < |Flips(signals[..n - 1])| {
      FlipsAlternate(signals[..n - 1], i);
    }
  }

  lemma {:induction false} LastFlip(signals: seq<bool>)
    ensures var flips := Flips(signals);
            flips != [] ==> flips[|flips| - 1] == Towards(signals[|signals| - 1])
  {
    if |signals| >= 2 {
      LastFlip(signals[..|signals| - 1]);
    }
  }

  /** Consecutive entries of a run alternate sides. */
  lemma {:induction false} EntriesAlternate(cfg: Config, bars: seq<Bar>, i: nat)
    requires cfg.Valid() && i + 1 < |Entries(Run(cfg, START, bars).orders)|
    ensures Entries(Run(cfg, START, bars).orders)[i] != Entries(Run(cfg, START, bars).orders)[i + 1]
  {
    EntriesAreFlips(cfg, bars);
    FlipsAlternate(Signals(bars), i);
  }
}
