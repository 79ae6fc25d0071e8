/** One bar as a single transaction.

`Book` forgets the command queue, the resting stops and the strategy's identifiers: the desk is
either flat or holds one position guarded by one stop. `BookBar` says in one step what a bar does to
it. `BarRefines` proves that the strategy and the venue do exactly that, whether commands are queued
or answered at once. */
module DeskRefinement {
  import opened Wrappers
  import opened Desk
  import Prices

  datatype Position =
    | Flat
    | Open(side: Side, entry: int, entryId: OrderId, stopId: OrderId, peak: real, trail: real, active: bool, since: nat)

  /** `bars` counts the bars seen so far. */
  datatype Book = Book(position: Position, prev: Option<bool>, orders: seq<Order>, bars: nat)

  const EMPTY := Book(Flat, None, [], 0)

  function Dist(cfg: Config, entry: int): real {
    cfg.Distance(entry as real)
  }

  /** `px` moved by `d` in the direction that favours the side. */
  function Ahead(side: Side, px: real, d: real): real {
    if side.Buy? then px + d else px - d
  }

  /** Where the initial stop of a position belongs. */
  function StopPx(cfg: Config, side: Side, entry: int): real {
    Ahead(side, entry as real, -Dist(cfg, entry))
  }

  predicate Better(side: Side, a: real, b: real) {
    if side.Buy? then a > b else a < b
  }

  /** The most favourable price of a bar. */
  function Favourable(side: Side, bar: Bar): real {
    if side.Buy? then bar.high as real else bar.low as real
  }

  function Best(side: Side, a: real, b: real): real {
    if Better(side, b, a) then b else a
  }

  function StopAt(cfg: Config, side: Side, px: real): Order {
    StopMarket(side.Opposite(), cfg.size, Prices.Round(px))
  }

  function Closing(cfg: Config, side: Side): Order {
    Market(side.Opposite(), cfg.size, true)
  }

  /** The book after submitting a stop for a position: guarded, or closed if the stop is rejected. */
  function Guard(cfg: Config, b: Book, position: Position, px: real): (r: Book)
    requires position.Open?
    ensures r.bars == b.bars
  {
    var orders := b.orders + [StopAt(cfg, position.side, px)];
    if cfg.reply(|b.orders|).reject
    then b.(position := Flat, orders := orders + [Closing(cfg, position.side)])
    else b.(position := position.(stopId := |b.orders|), orders := orders)
  }

  function BookHits(b: Book, hits: seq<Hit>): (r: Book)
    ensures r.bars == b.bars
  {
    if b.position.Open? && exists h <- hits :: h.id == b.position.stopId then b.(position := Flat) else b
  }

  function BookTrail(cfg: Config, b: Book, bar: Bar): (r: Book)
    ensures r.bars == b.bars && r.prev == b.prev
  {
    if b.position.Flat? || b.position.peak <= 0.0 then b
    else
      var p := b.position;
      var d := Dist(cfg, p.entry);
      var px := Favourable(p.side, bar);
      var active := p.active || !Better(p.side, Ahead(p.side, p.entry as real, d), px);
      var peak := Best(p.side, p.peak, px);
      var trail := Ahead(p.side, peak, -d);
      if active && Better(p.side, trail, p.trail)
      then Guard(cfg, b, p.(active := active, peak := peak, trail := trail), trail)
      else b.(position := p.(active := active))
  }

  function BookEnter(cfg: Config, b: Book, side: Side): (r: Book)
    ensures r.bars == b.bars
  {
    var id := |b.orders|;
    var b1 := b.(orders := b.orders + [Market(side, cfg.size, false)], position := Flat);
    if cfg.reply(id).reject then b1
    else
      var entry := cfg.reply(id).px;
      var px := StopPx(cfg, side, entry);
      Guard(cfg, b1, Open(side, entry, id, id, entry as real, Prices.Round(px) as real, false, b.bars), px)
  }

  /** The book after closing whatever is open and recording the new signal. */
  function Closed(cfg: Config, b: Book, bullish: bool): Book {
    var b1 := b.(prev := Some(bullish));
    if b.position.Open? then b1.(orders := b1.orders + [Closing(cfg, b.position.side)]) else b1
  }

  function BookSignal(cfg: Config, b: Book, bar: Bar): (r: Book)
    ensures r.bars == b.bars
  {
    if b.prev.None? || b.prev == Some(bar.bullish) then b.(prev := Some(bar.bullish))
    else BookEnter(cfg, Closed(cfg, b, bar.bullish), if bar.bullish then Buy else Sell)
  }

  /** The indicators are ready and the bar has more than one price. */
  predicate Acts(bar: Bar) {
    bar.initialized && (bar.open != bar.high || bar.high != bar.low || bar.low != bar.close)
  }

  function BookBar(cfg: Config, b: Book, bar: Bar): (r: Book)
    ensures r.bars == b.bars + 1
  {
    BookOnBar(cfg, BookHits(b.(bars := b.bars + 1), bar.hits), bar)
  }

  function BookOnBar(cfg: Config, b: Book, bar: Bar): (r: Book)
    ensures r.bars == b.bars
  {
    if !Acts(bar) then b else BookSignal(cfg, BookTrail(cfg, b, bar), bar)
  }

  /** The signal a position was opened on is the last one seen. */
  predicate OnSignal(b: Book) {
    b.position.Open? ==> b.prev == Some(b.position.side.Buy?)
  }

  /** The stop that guards a position: on the other side, for the same size. */
  predicate Guarded(cfg: Config, w: World, p: Position)
    requires p.Open?
  {
    && w.net == p.side.Signed(cfg.size)
    && w.resting == map[p.stopId := StopAt(cfg, p.side, p.trail)]
  }

  /** The strategy's view of an open position. */
  predicate Tracks(cfg: Config, s: Strategy, p: Position)
    requires p.Open?
  {
    && s.entryOrderId == None
    && s.slOrderId == Some(p.stopId)
    && s.entrySide == Some(p.side)
    && s.entryPx == p.entry as real
    && s.slDistance == Dist(cfg, p.entry)
    && s.peakPx == p.peak
    && s.trailPx == p.trail
    && s.trailActive == p.active
  }

  predicate Known(w: World, id: Option<OrderId>) {
    id.Some? ==> id.value < |w.orders|
  }

  /** Nothing is left of a trade, unless an entry still waits for its fill. */
  predicate Cleared(s: Strategy) {
    && s.peakPx == 0.0 && s.trailPx == 0.0 && !s.trailActive && s.slDistance == 0.0
    && (s.entrySide.Some? ==> s.entryOrderId.Some?)
  }

  /** The state of strategy and venue with nothing pending that stands for `b`. */
  predicate Settled(cfg: Config, w: World, b: Book) {
    && w.queue == []
    && w.orders == b.orders
    && w.s.prevBullish == b.prev
    && OnSignal(b)
    && if b.position.Flat?
       then w.net == 0 && w.resting == map[] && w.s.slOrderId == None && Known(w, w.s.entryOrderId) && Cleared(w.s)
       else Guarded(cfg, w, b.position) && Tracks(cfg, w.s, b.position) && b.position.stopId < |w.orders|
  }

  // Answers of the venue, one command at a time

  /** A position just closed at market answers no order the strategy still waits for. */
  lemma {:induction false} CloseProcessed(cfg: Config, w: World, id: OrderId, side: Side)
    requires cfg.Valid() && w.net == side.Signed(cfg.size)
    requires w.s.slOrderId == None && w.s.entryOrderId != Some(id)
    ensures Process(cfg, w, Submit(id, Closing(cfg, side))) == w.(net := 0)
  {
  }

  lemma {:induction false} ClosesPosition(cfg: Config, w: World, side: Side)
    requires cfg.Valid() && w.net == side.Signed(cfg.size)
    ensures CloseAllPositions(cfg, w)
         == Send(cfg, w.(orders := w.orders + [Closing(cfg, side)]), Submit(|w.orders|, Closing(cfg, side)))
  {
  }

  /** The strategy after it recorded the stop `id` it is about to submit for position `p`. */
  predicate Awaits(cfg: Config, w: World, b: Book, p: Position, px: real)
    requires p.Open?
  {
    && w.queue == [] && w.resting == map[] && w.net == p.side.Signed(cfg.size)
    && w.orders == b.orders + [StopAt(cfg, p.side, px)]
    && Prices.Round(p.trail) == Prices.Round(px)
    && Tracks(cfg, w.s, p.(stopId := |b.orders|))
    && w.s.prevBullish == b.prev
  }

  /** A submitted stop ends in a guarded position or, if rejected, in none. */
  lemma {:induction false} StopProcessed(cfg: Config, w: World, b: Book, p: Position, px: real)
    requires cfg.Valid() && p.Open? && Awaits(cfg, w, b, p, px)
    requires b.prev == Some(p.side.Buy?)
    ensures Settled(cfg, Drain(cfg, Process(cfg, w, Submit(|b.orders|, StopAt(cfg, p.side, px)))), Guard(cfg, b, p, px))
  {
    var id := |b.orders|;
    var stop := StopAt(cfg, p.side, px);
    if cfg.reply(id).reject {
      var w1 := w.(s := w.s.(slOrderId := None));
      assert CancelAllOrders(cfg, w1) == w1;
      var close := Closing(cfg, p.side);
      var w2 := w1.(orders := w1.orders + [close]);
      ClosesPosition(cfg, w1, p.side);
      CloseProcessed(cfg, w2, id + 1, p.side);
      if cfg.queued {
        var w3 := w2.(queue := [Submit(id + 1, close)], s := w2.s.ClearPosition());
        assert Process(cfg, w, Submit(id, stop)) == w3;
        CloseProcessed(cfg, w3.(queue := []), id + 1, p.side);
        assert w3.queue[1..] == [];
        assert Drain(cfg, w3) == w3.(queue := [], net := 0);
      }
    } else {
      assert Process(cfg, w, Submit(id, stop)) == w.(resting := map[id := stop]);
    }
  }

  /** The strategy after it recorded the entry `id` it is about to submit. */
  predicate Enters(cfg: Config, w: World, b: Book, side: Side) {
    && w.queue == [] && w.resting == map[] && w.net == 0
    && w.orders == b.orders + [Market(side, cfg.size, false)]
    && w.s.entryOrderId == Some(|b.orders|)
    && w.s.entrySide == Some(side)
    && w.s.slOrderId == None && Cleared(w.s)
    && w.s.prevBullish == b.prev
  }

  /** The world in which the initial stop of a filled entry is about to be submitted. */
  function EntryFilled(cfg: Config, w: World, side: Side, entry: int): World {
    var stop := StopAt(cfg, side, StopPx(cfg, side, entry));
    w.(net := side.Signed(cfg.size),
       orders := w.orders + [stop],
       s := w.s.(entryPx := entry as real, entryOrderId := None, slDistance := Dist(cfg, entry),
                 peakPx := entry as real, trailPx := stop.trigger as real, trailActive := false,
                 slOrderId := Some(|w.orders|)))
  }

  lemma {:induction false} EntryPlacesStop(cfg: Config, w: World, b: Book, side: Side)
    requires cfg.Valid() && Enters(cfg, w, b, side) && !cfg.reply(|b.orders|).reject
    ensures var entry := cfg.reply(|b.orders|).px;
            Process(cfg, w, Submit(|b.orders|, Market(side, cfg.size, false)))
            == Send(cfg, EntryFilled(cfg, w, side, entry),
                    Submit(|w.orders|, StopAt(cfg, side, StopPx(cfg, side, entry))))
  {
    var entry := cfg.reply(|b.orders|).px;
    var w0 := w.(net := side.Signed(cfg.size), s := w.s.(entryPx := entry as real, entryOrderId := None));
    PlacesStop(cfg, w0, side, entry);
    assert Process(cfg, w, Submit(|b.orders|, Market(side, cfg.size, false))) == PlaceSl(cfg, w0);
  }

  lemma {:induction false} PlacesStop(cfg: Config, w: World, side: Side, entry: int)
    requires w.s.entrySide == Some(side) && w.s.entryPx == entry as real && w.s.entryOrderId == None
    requires w.net == side.Signed(cfg.size)
    ensures PlaceSl(cfg, w)
         == Send(cfg, EntryFilled(cfg, w, side, entry), Submit(|w.orders|, StopAt(cfg, side, StopPx(cfg, side, entry))))
  {
    var stop := StopAt(cfg, side, StopPx(cfg, side, entry));
    assert InitialStop(cfg, w.s.entrySide, w.s.entryPx) == stop;
    assert EntryFilled(cfg, w, side, entry).(orders := w.orders)
        == w.(s := w.s.(slDistance := cfg.Distance(w.s.entryPx), peakPx := w.s.entryPx, trailPx := stop.trigger as real,
                        trailActive := false, slOrderId := Some(|w.orders|)));
  }

  /** A submitted entry ends in a guarded position or in none. */
  lemma {:induction false} EntryProcessed(cfg: Config, w: World, b: Book, side: Side)
    requires cfg.Valid() && Enters(cfg, w, b, side)
    requires b.prev == Some(side.Buy?)
    ensures Settled(cfg, Drain(cfg, Process(cfg, w, Submit(|b.orders|, Market(side, cfg.size, false)))),
                    BookEnter(cfg, b, side))
  {
    var id := |b.orders|;
    if !cfg.reply(id).reject {
      var entry := cfg.reply(id).px;
      var px := StopPx(cfg, side, entry);
      var w1 := EntryFilled(cfg, w, side, entry);
      var b1 := b.(orders := b.orders + [Market(side, cfg.size, false)], position := Flat);
      var p := Open(side, entry, id, id, entry as real, Prices.Round(px) as real, false, b.bars);
      EntryPlacesStop(cfg, w, b, side);
      Prices.RoundOnGrid(Prices.Round(px));
      StopProcessed(cfg, w1, b1, p, px);
      DrainOne(cfg, w1, Submit(|w.orders|, StopAt(cfg, side, px)));
    }
  }

  /** With nothing else pending, sending and draining is processing and draining. */
  lemma {:induction false} DrainOne(cfg: Config, w: World, cmd: Command)
    requires w.queue == []
    ensures Drain(cfg, Send(cfg, w, cmd)) == Drain(cfg, Process(cfg, w, cmd))
  {
    if cfg.queued {
      var w1 := w.(queue := [cmd]);
      assert Send(cfg, w, cmd) == w1;
      assert w1.queue[1..] == [];
      assert w1.(queue := []) == w;
    }
  }

  // The parts of a bar

  lemma {:induction false} HitsRefine(cfg: Config, w: World, b: Book, hits: seq<Hit>)
    requires cfg.Valid() && Settled(cfg, w, b)
    ensures Settled(cfg, FillStops(cfg, w, hits), BookHits(b, hits))
    decreases |hits|
  {
    if hits != [] {
      var b1 := BookHits(b, [hits[0]]);
      assert Settled(cfg, FillStop(cfg, w, hits[0]), b1) by {
        if b.position.Open? && hits[0].id == b.position.stopId {
          assert w.resting - {hits[0].id} == map[];
          assert b1 == b.(position := Flat) by { assert hits[0] in [hits[0]]; }
        } else {
          assert b1 == b;
        }
      }
      HitsRefine(cfg, FillStop(cfg, w, hits[0]), b1, hits[1..]);
      assert BookHits(b1, hits[1..]) == BookHits(b, hits) by {
        assert forall h :: h in hits <==> h == hits[0] || h in hits[1..];
      }
    }
  }

  /** The strategy's fields after a bar moved the trail of `p` to `q`, before the venue hears of it. */
  predicate Moves(cfg: Config, b: Book, bar: Bar, q: Position) {
    && b.position.Open? && q.Open? && b.position.peak > 0.0
    && q.(stopId := b.position.stopId, active := b.position.active, peak := b.position.peak, trail := b.position.trail)
       == b.position
    && BookTrail(cfg, b, bar) == Guard(cfg, b, q, q.trail)
  }

  /** Either the bar leaves the stop where it is, or it replaces it. */
  lemma {:induction false} TrailCases(cfg: Config, w: World, b: Book, bar: Bar) returns (q: Position)
    requires cfg.Valid() && Settled(cfg, w, b)
    ensures q.Flat? ==>
      && Trail(cfg, w, bar).(s := w.s) == w && Settled(cfg, Trail(cfg, w, bar), BookTrail(cfg, b, bar))
    ensures q.Open? ==>
      && Moves(cfg, b, bar, q)
      && Tracks(cfg, w.s.(trailActive := q.active, peakPx := q.peak, trailPx := q.trail), q)
      && Trail(cfg, w, bar)
         == UpdateTrailingSl(cfg, w.(s := w.s.(trailActive := q.active, peakPx := q.peak)), q.trail)
  {
    hide Guard;
    hide UpdateTrailingSl;
    hide Prices.Round;
    q := Flat;
    if b.position.Open? && b.position.peak > 0.0 {
      var p := b.position;
      var d := Dist(cfg, p.entry);
      var px := Favourable(p.side, bar);
      var active := p.active || !Better(p.side, Ahead(p.side, p.entry as real, d), px);
      var peak := Best(p.side, p.peak, px);
      var trail := Ahead(p.side, peak, -d);
      if active && Better(p.side, trail, p.trail) {
        q := p.(active := active, peak := peak, trail := trail);
      }
    }
  }

  lemma {:induction false} DrainCons(cfg: Config, w: World, cmd: Command, rest: seq<Command>)
    requires w.queue == [cmd] + rest
    ensures Drain(cfg, w) == Drain(cfg, Process(cfg, w.(queue := rest), cmd))
  {
    assert w.queue[1..] == rest;
  }

  /** What is left to process once an open position has been told to reverse: the close, the entry. */
  lemma {:induction false} CloseThenEnter(cfg: Config, w: World, b: Book, p: Position, side: Side)
    requires cfg.Valid() && cfg.queued && p.Open?
    requires w.net == p.side.Signed(cfg.size) && w.resting == map[] && w.s.slOrderId == None
    requires w.s.entryOrderId == Some(|b.orders|) && |b.orders| > 0
    requires w.queue == [Submit(|b.orders| - 1, Closing(cfg, p.side)),
                         Submit(|b.orders|, Market(side, cfg.size, false))]
    requires Enters(cfg, w.(queue := [], net := 0), b, side) && b.prev == Some(side.Buy?)
    ensures Settled(cfg, Drain(cfg, w), BookEnter(cfg, b, side))
  {
    var close, entry := w.queue[0], w.queue[1];
    DrainCons(cfg, w, close, [entry]);
    CloseProcessed(cfg, w.(queue := [entry]), |b.orders| - 1, p.side);
    var w1 := w.(queue := [entry], net := 0);
    DrainCons(cfg, w1, entry, []);
    EntryProcessed(cfg, w1.(queue := []), b, side);
  }

  /** A flipped signal reverses or enters, from any settled state. */
  lemma {:induction false} SignalRefines(cfg: Config, w: World, b: Book, bar: Bar)
    requires cfg.Valid() && Settled(cfg, w, b)
    ensures Settled(cfg, Drain(cfg, Signal(cfg, w, bar)), BookSignal(cfg, b, bar))
  {
    if b.prev.Some? && b.prev != Some(bar.bullish) {
      var side := if bar.bullish then Buy else Sell;
      var w1 := w.(s := w.s.(prevBullish := Some(bar.bullish)));
      var b2 := Closed(cfg, b, bar.bullish);
      if b.position.Flat? {
        EnterRefines(cfg, w1, b2, side);
      } else {
        assert b.position.side != side;
        ReverseRefines(cfg, w1, b, bar.bullish);
      }
    }
  }

  lemma {:induction false} EnterRefines(cfg: Config, w: World, b: Book, side: Side)
    requires cfg.Valid() && w.queue == [] && w.resting == map[] && w.net == 0
    requires w.orders == b.orders && w.s.slOrderId == None && Cleared(w.s)
    requires w.s.prevBullish == b.prev == Some(side.Buy?)
    ensures Settled(cfg, Drain(cfg, Enter(cfg, w, side)), BookEnter(cfg, b, side))
  {
    var entry := Market(side, cfg.size, false);
    var w1 := w.(s := w.s.(entryOrderId := Some(|w.orders|), entrySide := Some(side)), orders := w.orders + [entry]);
    assert Enter(cfg, w, side) == Send(cfg, w1, Submit(|w.orders|, entry));
    DrainOne(cfg, w1, Submit(|w.orders|, entry));
    EntryProcessed(cfg, w1, b, side);
  }

  /** A reversal with all its commands queued. */
  function ReverseSent(cfg: Config, w: World, p: Position, side: Side): World
    requires p.Open?
  {
    var id := |w.orders|;
    var close, entry := Closing(cfg, p.side), Market(side, cfg.size, false);
    w.(s := w.s.(slOrderId := None).ClearPosition().(entryOrderId := Some(id + 1), entrySide := Some(side)),
       orders := w.orders + [close] + [entry],
       queue := [Cancel(p.stopId), CancelAll, Submit(id, close), Submit(id + 1, entry)])
  }

  lemma {:induction false} ReverseSends(cfg: Config, w: World, p: Position, side: Side)
    requires cfg.queued && cfg.Valid() && p.Open? && w.queue == [] && w.net == p.side.Signed(cfg.size)
    requires w.s.slOrderId == Some(p.stopId) && p.stopId in w.resting
    ensures ExitAndReverse(cfg, w, side) == ReverseSent(cfg, w, p, side)
  {
    var id := |w.orders|;
    var close, entry := Closing(cfg, p.side), Market(side, cfg.size, false);
    var w2 := ReverseSent(cfg, w, p, side);
    var x1 := w.(queue := [Cancel(p.stopId)], s := w.s.(slOrderId := None));
    var x2 := x1.(queue := [Cancel(p.stopId), CancelAll]);
    assert CancelAllOrders(cfg, x1) == x2;
    var x3 := x2.(queue := [Cancel(p.stopId), CancelAll, Submit(id, close)], orders := w.orders + [close]);
    assert CloseAllPositions(cfg, x2) == x3 by {
      ClosesPosition(cfg, x2, p.side);
      assert x3.queue == x2.queue + [Submit(id, close)];
    }
    assert Enter(cfg, x3.(s := x3.s.ClearPosition()), side) == w2 by {
      assert |x3.orders| == id + 1;
      assert w2.queue == x3.queue + [Submit(id + 1, entry)];
      assert w2 == Send(cfg, w2.(queue := x3.queue), Submit(id + 1, entry));
    }
    assert Send(cfg, w, Cancel(p.stopId)) == w.(queue := [Cancel(p.stopId)]);
  }

  lemma {:induction false} ReverseReady(cfg: Config, w: World, b: Book, bullish: bool)
    requires cfg.Valid() && b.position.Open? && Settled(cfg, w.(s := w.s.(prevBullish := b.prev)), b)
    requires w.s.prevBullish == Some(bullish)
    ensures var side, p := if bullish then Buy else Sell, b.position;
            var b1, w2 := Closed(cfg, b, bullish), ReverseSent(cfg, w, p, side);
            var w3 := w2.(resting := map[], queue := w2.queue[2..]);
            && w.queue == [] && w.net == p.side.Signed(cfg.size)
            && w.s.slOrderId == Some(p.stopId) && p.stopId in w.resting
            && w3.net == p.side.Signed(cfg.size) && w3.s.slOrderId == None
            && w3.s.entryOrderId == Some(|b1.orders|) && |b1.orders| > 0
            && w3.queue == [Submit(|b1.orders| - 1, Closing(cfg, p.side)),
                            Submit(|b1.orders|, Market(side, cfg.size, false))]
            && Enters(cfg, w3.(queue := [], net := 0), b1, side) && b1.prev == Some(side.Buy?)
  {
    hide StopAt;
    hide Dist;
  }

  lemma {:induction false} ReverseQueued(cfg: Config, w: World, b: Book, bullish: bool)
    requires cfg.queued
    requires cfg.Valid() && b.position.Open? && Settled(cfg, w.(s := w.s.(prevBullish := b.prev)), b)
    requires w.s.prevBullish == Some(bullish)
    ensures var side := if bullish then Buy else Sell;
            Settled(cfg, Drain(cfg, ExitAndReverse(cfg, w, side)), BookEnter(cfg, Closed(cfg, b, bullish), side))
  {
    var side := if bullish then Buy else Sell;
    var p, b1 := b.position, Closed(cfg, b, bullish);
    var w2 := ReverseSent(cfg, w, p, side);
    var w3 := w2.(resting := map[], queue := w2.queue[2..]);
    ReverseReady(cfg, w, b, bullish);
    assert w2.queue == [Cancel(p.stopId)] + w2.queue[1..] && w2.queue[1..] == [CancelAll] + w2.queue[2..];
    assert w2.resting - {p.stopId} == map[];
    hide *;
    CancelsProcessed(cfg, w2.(queue := w2.queue[1..]), p.stopId);
    CancelsProcessed(cfg, w3, p.stopId);
    ReverseSends(cfg, w, p, side);
    DrainCons(cfg, w2, Cancel(p.stopId), w2.queue[1..]);
    DrainCons(cfg, w2.(resting := map[], queue := w2.queue[1..]), CancelAll, w2.queue[2..]);
    CloseThenEnter(cfg, w3, b1, p, side);
  }

  lemma {:induction false} ReverseAtOnce(cfg: Config, w: World, b: Book, bullish: bool)
    requires !cfg.queued
    requires cfg.Valid() && b.position.Open? && Settled(cfg, w.(s := w.s.(prevBullish := b.prev)), b)
    requires w.s.prevBullish == Some(bullish)
    ensures var side := if bullish then Buy else Sell;
            Settled(cfg, Drain(cfg, ExitAndReverse(cfg, w, side)), BookEnter(cfg, Closed(cfg, b, bullish), side))
  {
    var side := if bullish then Buy else Sell;
    var p := b.position;
    var b1 := Closed(cfg, b, bullish);
    var id := |w.orders|;
    var close := Closing(cfg, p.side);
    assert w.resting - {p.stopId} == map[];
    var w1 := w.(s := w.s.(slOrderId := None), resting := map[]);
    var w2 := w1.(orders := w1.orders + [close]);
    CloseProcessed(cfg, w2, id, p.side);
    assert Send(cfg, w, Cancel(p.stopId)) == w.(resting := map[]);
    assert CancelAllOrders(cfg, w1) == w1;
    ClosesPosition(cfg, w1, p.side);
    assert ExitAndReverse(cfg, w, side) == Enter(cfg, w2.(net := 0, s := w2.s.ClearPosition()), side);
    EnterRefines(cfg, w2.(net := 0, s := w2.s.ClearPosition()), b1, side);
  }

  lemma {:induction false} ReverseRefines(cfg: Config, w: World, b: Book, bullish: bool)
    requires cfg.Valid() && b.position.Open? && Settled(cfg, w.(s := w.s.(prevBullish := b.prev)), b)
    requires w.s.prevBullish == Some(bullish)
    ensures var side := if bullish then Buy else Sell;
            Settled(cfg, Drain(cfg, ExitAndReverse(cfg, w, side)), BookEnter(cfg, Closed(cfg, b, bullish), side))
  {
    hide *;
    if cfg.queued {
      ReverseQueued(cfg, w, b, bullish);
    } else {
      ReverseAtOnce(cfg, w, b, bullish);
    }
  }

  /** The strategy after it recorded the replacement of the stop of `b.position` by that of `q`. */
  function Replaced(cfg: Config, w: World, q: Position): World
    requires q.Open?
  {
    w.(s := w.s.(trailActive := q.active, peakPx := q.peak, trailPx := q.trail, slOrderId := Some(|w.orders|)),
       orders := w.orders + [StopAt(cfg, q.side, q.trail)])
  }

  /** Replacing a stop is a cancel followed by a submit. */
  lemma {:induction false} ReplacesStop(cfg: Config, w: World, b: Book, bar: Bar, q: Position)
    requires cfg.Valid() && Settled(cfg, w, b) && Moves(cfg, b, bar, q)
    requires Trail(cfg, w, bar)
          == UpdateTrailingSl(cfg, w.(s := w.s.(trailActive := q.active, peakPx := q.peak)), q.trail)
    ensures var stop := Submit(|w.orders|, StopAt(cfg, q.side, q.trail));
            && (cfg.queued ==>
                  Trail(cfg, w, bar) == Replaced(cfg, w, q).(queue := [Cancel(b.position.stopId), stop]))
            && (!cfg.queued ==>
                  Trail(cfg, w, bar) == Process(cfg, Replaced(cfg, w, q).(resting := map[]), stop))
  {
    var w0 := w.(s := w.s.(trailActive := q.active, peakPx := q.peak));
    var old_ := b.position.stopId;
    assert w.resting - {old_} == map[];
    var order := StopAt(cfg, q.side, q.trail);
    if cfg.queued {
      var w1 := w0.(queue := [Cancel(old_)]);
      assert Send(cfg, w0, Cancel(old_)) == w1;
      var w2 := Replaced(cfg, w, q).(queue := [Cancel(old_)]);
      assert UpdateTrailingSl(cfg, w0, q.trail) == Send(cfg, w2, Submit(|w.orders|, order));
    } else {
      var w1 := w0.(resting := map[]);
      assert Send(cfg, w0, Cancel(old_)) == w1;
      var w2 := Replaced(cfg, w, q).(resting := map[]);
      assert UpdateTrailingSl(cfg, w0, q.trail) == Send(cfg, w2, Submit(|w.orders|, order));
    }
  }

  lemma {:induction false} TrailRefines(cfg: Config, w: World, b: Book, bar: Bar)
    requires cfg.Valid() && Settled(cfg, w, b)
    ensures Settled(cfg, Drain(cfg, Trail(cfg, w, bar)), BookTrail(cfg, b, bar))
    ensures !cfg.queued ==> Trail(cfg, w, bar).queue == []
  {
    var q := TrailCases(cfg, w, b, bar);
    if q.Open? {
      ReplacesStop(cfg, w, b, bar, q);
      var w2 := Replaced(cfg, w, q).(resting := map[]);
      StopProcessed(cfg, w2, b, q, q.trail);
      if cfg.queued {
        var stop := Submit(|w.orders|, StopAt(cfg, q.side, q.trail));
        var w1 := Trail(cfg, w, bar);
        assert w.resting - {b.position.stopId} == map[];
        DrainCons(cfg, w1, Cancel(b.position.stopId), [stop]);
        DrainCons(cfg, w2.(queue := [stop]), stop, []);
      }
    }
  }

  /** The commands of a bar that moves the stop of a position and then reverses it. */
  function ReverseQueue(cfg: Config, w: World, oldStop: OrderId, q: Position, side: Side): seq<Command>
    requires q.Open?
  {
    var id := |w.orders|;
    [Cancel(oldStop), Submit(id, StopAt(cfg, q.side, q.trail)), CancelAll, Submit(id + 1, Closing(cfg, q.side)),
     Submit(id + 2, Market(side, cfg.size, false))]
  }

  /** The world in which those commands wait: the strategy has already forgotten both stops. */
  function Reversing(cfg: Config, w: World, oldStop: OrderId, q: Position, side: Side): World
    requires q.Open?
  {
    var s1 := Replaced(cfg, w, q).s.(prevBullish := Some(side.Buy?), slOrderId := None);
    w.(s := s1.ClearPosition().(entryOrderId := Some(|w.orders| + 2), entrySide := Some(side)),
       orders := w.orders + [StopAt(cfg, q.side, q.trail), Closing(cfg, q.side), Market(side, cfg.size, false)],
       queue := ReverseQueue(cfg, w, oldStop, q, side))
  }

  lemma {:induction false} ReverseQueues(cfg: Config, w: World, x: World, q: Position, oldStop: OrderId, side: Side)
    requires cfg.Valid() && cfg.queued && q.Open? && q.side != side
    requires w.net == q.side.Signed(cfg.size) && w.resting != map[] && |w.orders| !in w.resting
    requires x == Replaced(cfg, w, q).(queue := ReverseQueue(cfg, w, oldStop, q, side)[..2])
    ensures ExitAndReverse(cfg, x.(s := x.s.(prevBullish := Some(side.Buy?))), side)
            == Reversing(cfg, w, oldStop, q, side)
  {
    var queue := ReverseQueue(cfg, w, oldStop, q, side);
    var r := Reversing(cfg, w, oldStop, q, side);
    var x1 := x.(s := x.s.(prevBullish := Some(side.Buy?), slOrderId := None));
    var x2 := x1.(queue := queue[..3]);
    assert CancelAllOrders(cfg, x1) == x2 by { assert queue[..3] == queue[..2] + [CancelAll]; }
    var x3 := x2.(queue := queue[..4], orders := r.orders[..|w.orders| + 2]);
    assert CloseAllPositions(cfg, x2) == x3 by {
      ClosesPosition(cfg, x2, q.side);
      assert x3.orders == x2.orders + [Closing(cfg, q.side)];
      assert queue[..4] == queue[..3] + [queue[3]];
    }
    assert Enter(cfg, x3.(s := x3.s.ClearPosition()), side) == r by {
      assert r.orders == x3.orders + [Market(side, cfg.size, false)];
      assert queue == queue[..4] + [queue[4]];
      assert r == Send(cfg, r.(queue := x3.queue), queue[4]);
    }
  }

  lemma {:induction false} ReverseEnters(cfg: Config, w: World, b: Book, q: Position, side: Side)
    requires cfg.Valid() && b.position.Open? && Settled(cfg, w, b) && q.Open? && q.side == b.position.side
    ensures var b1 := b.(orders := b.orders + [StopAt(cfg, q.side, q.trail), Closing(cfg, q.side)],
                         prev := Some(side.Buy?));
            var r := Reversing(cfg, w, b.position.stopId, q, side);
            var w3 := r.(resting := map[], queue := r.queue[3..]);
            && w3.net == q.side.Signed(cfg.size) && w3.s.slOrderId == None
            && w3.s.entryOrderId == Some(|b1.orders|) && |b1.orders| > 0
            && w3.queue == [Submit(|b1.orders| - 1, Closing(cfg, q.side)),
                            Submit(|b1.orders|, Market(side, cfg.size, false))]
            && Enters(cfg, w3.(queue := [], net := 0), b1, side)
  {
    hide StopAt;
    hide Dist;
  }

  /** A stop that the strategy has forgotten rests at the venue or is answered without effect. */
  lemma {:induction false} StopIgnored(cfg: Config, w: World, id: OrderId, stop: Order)
    requires stop.StopMarket? && w.resting == map[] && w.s.slOrderId == None
    ensures Process(cfg, w, Submit(id, stop)).(resting := map[]) == w
  {
  }

  lemma {:induction false} CancelsProcessed(cfg: Config, w: World, id: OrderId)
    ensures Process(cfg, w, Cancel(id)) == w.(resting := w.resting - {id})
    ensures Process(cfg, w, CancelAll) == w.(resting := map[])
  {
  }

  /** Cancelling a stop, submitting one that the strategy has forgotten and cancelling everything. */
  lemma {:induction false} DrainForgotten(cfg: Config, w: World, oldStop: OrderId, id: OrderId, stop: Order,
                                          rest: seq<Command>)
    requires stop.StopMarket? && w.s.slOrderId == None && w.resting - {oldStop} == map[]
    requires w.queue == [Cancel(oldStop), Submit(id, stop), CancelAll] + rest
    ensures Drain(cfg, w) == Drain(cfg, w.(resting := map[], queue := rest))
  {
    hide *;
    var r1, r2 := [Submit(id, stop), CancelAll] + rest, [CancelAll] + rest;
    assert w.queue == [Cancel(oldStop)] + r1 && r1 == [Submit(id, stop)] + r2;
    DrainCons(cfg, w, Cancel(oldStop), r1);
    CancelsProcessed(cfg, w.(queue := r1), oldStop);
    var w1 := w.(resting := map[], queue := r1);
    DrainCons(cfg, w1, Submit(id, stop), r2);
    StopIgnored(cfg, w1.(queue := r2), id, stop);
    var w2 := Process(cfg, w1.(queue := r2), Submit(id, stop));
    DrainCons(cfg, w2, CancelAll, rest);
    CancelsProcessed(cfg, w2.(queue := rest), oldStop);
  }

  lemma {:induction false} ReverseDrains(cfg: Config, w: World, b: Book, q: Position, side: Side)
    requires cfg.Valid() && cfg.queued && b.position.Open? && Settled(cfg, w, b) && q.Open? && q.side == b.position.side
    requires b.prev == Some(!side.Buy?)
    ensures var b1 := b.(orders := b.orders + [StopAt(cfg, q.side, q.trail), Closing(cfg, q.side)],
                         prev := Some(side.Buy?));
            Settled(cfg, Drain(cfg, Reversing(cfg, w, b.position.stopId, q, side)), BookEnter(cfg, b1, side))
  {
    var b1 := b.(orders := b.orders + [StopAt(cfg, q.side, q.trail), Closing(cfg, q.side)], prev := Some(side.Buy?));
    var stop, oldStop := StopAt(cfg, q.side, q.trail), b.position.stopId;
    var w1 := Reversing(cfg, w, oldStop, q, side);
    var rest := w1.queue[3..];
    assert w1.queue == [Cancel(oldStop), Submit(|w.orders|, stop), CancelAll] + rest;
    assert w1.resting - {oldStop} == map[] && w1.s.slOrderId == None && stop.StopMarket?;
    ReverseEnters(cfg, w, b, q, side);
    hide *;
    DrainForgotten(cfg, w1, oldStop, |w.orders|, stop, rest);
    CloseThenEnter(cfg, w1.(resting := map[], queue := rest), b1, q, side);
  }

  /** A bar that moves the stop and flips the signal, with the commands queued: the new stop never
  becomes the strategy's stop again, whether the venue accepts or rejects it. */
  lemma {:induction false} TrailThenReverse(cfg: Config, w: World, b: Book, bar: Bar, q: Position)
    requires cfg.Valid() && cfg.queued && Settled(cfg, w, b) && Moves(cfg, b, bar, q)
    requires b.prev == Some(!bar.bullish)
    requires Trail(cfg, w, bar)
          == UpdateTrailingSl(cfg, w.(s := w.s.(trailActive := q.active, peakPx := q.peak)), q.trail)
    ensures Settled(cfg, Drain(cfg, Signal(cfg, Trail(cfg, w, bar), bar)), BookSignal(cfg, BookTrail(cfg, b, bar), bar))
  {
    var side := if bar.bullish then Buy else Sell;
    var oldStop := b.position.stopId;
    var x := Trail(cfg, w, bar);
    ReplacesStop(cfg, w, b, bar, q);
    assert x == Replaced(cfg, w, q).(queue := ReverseQueue(cfg, w, oldStop, q, side)[..2]);
    ReverseQueues(cfg, w, x, q, oldStop, side);
    assert Signal(cfg, x, bar) == Reversing(cfg, w, oldStop, q, side);
    ReverseDrains(cfg, w, b, q, side);
    ReversedBook(cfg, b, bar, q, side);
  }

  lemma {:induction false} ReversedBook(cfg: Config, b: Book, bar: Bar, q: Position, side: Side)
    requires Moves(cfg, b, bar, q) && b.prev == Some(!bar.bullish) && side.Buy? == bar.bullish
    ensures var b1 := b.(orders := b.orders + [StopAt(cfg, q.side, q.trail), Closing(cfg, q.side)],
                         prev := Some(side.Buy?));
            BookSignal(cfg, BookTrail(cfg, b, bar), bar) == BookEnter(cfg, b1, side)
  {
    var stop, close := StopAt(cfg, q.side, q.trail), Closing(cfg, q.side);
    assert b.orders + [stop] + [close] == b.orders + [stop, close];
    var b1 := b.(orders := b.orders + [stop, close], prev := Some(side.Buy?));
    var b2 := Guard(cfg, b, q, q.trail);
    var b3 := if b2.position.Open? then Closed(cfg, b2, bar.bullish) else b2.(prev := Some(bar.bullish));
    assert b3.(position := Flat) == b1.(position := Flat);
    assert BookEnter(cfg, b3, side) == BookEnter(cfg, b1, side);
  }

  lemma {:induction false} OnBarRefines(cfg: Config, w: World, b: Book, bar: Bar)
    requires cfg.Valid() && Settled(cfg, w, b)
    ensures Settled(cfg, Drain(cfg, OnBar(cfg, w, bar)), BookOnBar(cfg, b, bar))
  {
    if Acts(bar) {
      var w1 := Trail(cfg, w, bar);
      var b1 := BookTrail(cfg, b, bar);
      var q := TrailCases(cfg, w, b, bar);
      if q.Flat? || !cfg.queued {
        TrailRefines(cfg, w, b, bar);
        SignalRefines(cfg, w1, b1, bar);
      } else if b.prev == Some(!bar.bullish) {
        TrailThenReverse(cfg, w, b, bar, q);
      } else {
        TrailRefines(cfg, w, b, bar);
        ReplacesStop(cfg, w, b, bar, q);
        assert b.prev == Some(bar.bullish);
        assert Signal(cfg, w1, bar) == w1;
        assert BookSignal(cfg, b1, bar) == b1;
      }
    }
  }

  lemma {:induction false} SettledCounts(cfg: Config, w: World, b: Book, n: nat)
    ensures Settled(cfg, w, b.(bars := n)) == Settled(cfg, w, b)
  {
    hide Guarded;
    hide Tracks;
  }

  lemma {:induction false} BarParts(cfg: Config, w: World, b: Book, bar: Bar)
    ensures StepBar(cfg, w, bar) == Drain(cfg, OnBar(cfg, FillStops(cfg, w, bar.hits), bar))
    ensures BookBar(cfg, b, bar) == BookOnBar(cfg, BookHits(b.(bars := b.bars + 1), bar.hits), bar)
  {
    hide FillStops;
    hide OnBar;
    hide Drain;
    hide BookHits;
    hide BookOnBar;
  }

  /** One bar of the strategy and the venue is one step of the book, whatever the venue answers and
  whether it answers from its queue or from within the strategy's handlers. */
  lemma {:induction false} BarRefines(cfg: Config, w: World, b: Book, bar: Bar)
    requires cfg.Valid() && Settled(cfg, w, b)
    ensures Settled(cfg, StepBar(cfg, w, bar), BookBar(cfg, b, bar))
  {
    var b0 := b.(bars := b.bars + 1);
    var w1, b1 := FillStops(cfg, w, bar.hits), BookHits(b0, bar.hits);
    BarParts(cfg, w, b, bar);
    SettledCounts(cfg, w, b, b.bars + 1);
    hide *;
    HitsRefine(cfg, w, b0, bar.hits);
    OnBarRefines(cfg, w1, b1, bar);
  }
}
