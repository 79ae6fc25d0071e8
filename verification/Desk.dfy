/** The two-phase trailing-stop strategy and the venue that answers it, as one state machine.

Every handler of the strategy and every command processed by the venue is a function on `World`.
Commands either go through the venue's first-in first-out message queue or are processed at once,
in which case the venue's answer re-enters the strategy inside the handler that sent the command.
Prices are whole numbers of ticks; what the strategy computes from them is real. */
module Desk {
  import opened Wrappers
  import Prices

  type OrderId = nat

  datatype Side = Buy | Sell {
    function Opposite(): Side {
      if Buy? then Sell else Buy
    }

    /** The change of net position when `qty` trades on this side. */
    function Signed(qty: int): int {
      if Buy? then qty else -qty
    }

    /** Whether a trade on this side moves the net position towards zero. */
    predicate Reduces(net: int) {
      if Buy? then net < 0 else net > 0
    }
  }

  datatype Order =
    | Market(side: Side, qty: int, reduceOnly: bool)
    | StopMarket(side: Side, qty: int, trigger: int)

  datatype Command =
    | Submit(id: OrderId, order: Order)
    | Cancel(id: OrderId)
    | CancelAll

  datatype Event =
    | Filled(id: OrderId, px: int)
    | Rejected(id: OrderId)

  /** What the venue does with an order: the fill price of a market order, or a rejection (of an
  entry, or of a stop whose trigger is in the market). */
  datatype Reply = Reply(px: int, reject: bool)

  /** `queued` selects the message queue; `reply` is the venue's answer to each order. */
  datatype Config = Config(size: int, pct: real, queued: bool, reply: OrderId -> Reply) {
    predicate Valid() {
      size > 0
    }

    /** The stop-loss distance of a position entered at `px`. */
    function Distance(px: real): real {
      px * pct
    }
  }

  /** A stop triggered by the market while a bar is processed, and its fill price. */
  datatype Hit = Hit(id: OrderId, px: int)

  datatype Bar = Bar(open: int, high: int, low: int, close: int, initialized: bool, bullish: bool, hits: seq<Hit>) {
    predicate SinglePrice() {
      open == high == low == close
    }

    /** Whether the bar handler goes past its two early returns. */
    predicate Eligible() {
      initialized && !SinglePrice()
    }
  }

  /** The fields of the strategy. */
  datatype Strategy = Strategy(
    entryOrderId: Option<OrderId>,
    slOrderId: Option<OrderId>,
    entrySide: Option<Side>,
    entryPx: real,
    peakPx: real,
    trailPx: real,
    trailActive: bool,
    slDistance: real,
    prevBullish: Option<bool>)
  {
    function ClearPosition(): Strategy {
      this.(entrySide := None, peakPx := 0.0, trailPx := 0.0, trailActive := false, slDistance := 0.0)
    }
  }

  const RESET := Strategy(None, None, None, 0.0, 0.0, 0.0, false, 0.0, None)

  /** The strategy, the venue's net position and resting stops, every order ever created (an order's
  identifier is its index) and the commands not yet processed. */
  datatype World = World(
    s: Strategy,
    net: int,
    resting: map<OrderId, Order>,
    orders: seq<Order>,
    queue: seq<Command>)
  {
    predicate HasInflight() {
      exists c <- queue :: c.Submit?
    }

    function EntryDue(): nat {
      if s.entryOrderId.Some? then 1 else 0
    }

    function SlDue(): nat {
      if s.slOrderId.Some? then 1 else 0
    }

    /** Bounds what is still to be processed: no answer causes more commands than the order
    identifier it clears accounts for. */
    function Pending(): nat {
      |queue| + 5 * EntryDue() + 3 * SlDue()
    }
  }

  const START := World(RESET, 0, map[], [], [])

  function Min(a: int, b: int): int {
    if a <= b then a else b
  }

  function Max(a: int, b: int): int {
    if a <= b then b else a
  }

  /** The net position after a reduce-only trade: never past zero. */
  function Reduced(net: int, side: Side, qty: int): int
    requires side.Reduces(net)
  {
    net + side.Signed(Min(qty, if net < 0 then -net else net))
  }

  // The venue

  function Send(cfg: Config, w: World, cmd: Command): (r: World)
    decreases w.EntryDue(), w.SlDue(), 2
    ensures !cmd.Submit? ==> r.s == w.s
    ensures r.Pending() <= w.Pending() + 1
    ensures !cfg.queued ==> r.queue == w.queue
  {
    if cfg.queued then w.(queue := w.queue + [cmd]) else Process(cfg, w, cmd)
  }

  function Process(cfg: Config, w: World, cmd: Command): (r: World)
    decreases w.EntryDue(), w.SlDue(), 1
    ensures !cmd.Submit? ==> r.s == w.s
    ensures r.Pending() <= w.Pending()
    ensures !cfg.queued ==> r.queue == w.queue
  {
    match cmd
    case Cancel(id) => w.(resting := w.resting - {id})
    case CancelAll => w.(resting := map[])
    case Submit(id, StopMarket(side, qty, trigger)) =>
      if !side.Reduces(w.net) || cfg.reply(id).reject
      then OnEvent(cfg, w, Rejected(id))
      else w.(resting := w.resting[id := cmd.order])
    case Submit(id, Market(side, qty, true)) =>
      if !side.Reduces(w.net)
      then OnEvent(cfg, w, Rejected(id))
      else OnEvent(cfg, w.(net := Reduced(w.net, side, qty)), Filled(id, cfg.reply(id).px))
    case Submit(id, Market(side, qty, false)) =>
      if cfg.reply(id).reject
      then OnEvent(cfg, w, Rejected(id))
      else OnEvent(cfg, w.(net := w.net + side.Signed(qty)), Filled(id, cfg.reply(id).px))
  }

  /** Process commands until none is left, including those sent while processing. */
  function Drain(cfg: Config, w: World): (r: World)
    decreases w.Pending()
    ensures r.queue == []
  {
    if w.queue == [] then w
    else Drain(cfg, Process(cfg, w.(queue := w.queue[1..]), w.queue[0]))
  }

  /** The market trades through resting stops while the venue processes a bar. */
  function FillStops(cfg: Config, w: World, hits: seq<Hit>): World
    decreases |hits|
  {
    if hits == [] then w else FillStops(cfg, FillStop(cfg, w, hits[0]), hits[1..])
  }

  function FillStop(cfg: Config, w: World, hit: Hit): World {
    if hit.id !in w.resting then w
    else
      var stop := w.resting[hit.id];
      var w1 := w.(resting := w.resting - {hit.id});
      if !stop.side.Reduces(w.net) then w1
      else OnEvent(cfg, w1.(net := Reduced(w.net, stop.side, stop.qty)), Filled(hit.id, hit.px))
  }

  // The strategy's order commands

  function SubmitOrder(cfg: Config, w: World, order: Order): (r: World)
    decreases w.EntryDue(), w.SlDue(), 3
    ensures r.Pending() <= w.Pending() + 1
    ensures !cfg.queued ==> r.queue == w.queue
  {
    Send(cfg, w.(orders := w.orders + [order]), Submit(|w.orders|, order))
  }

  function CancelAllOrders(cfg: Config, w: World): (r: World)
    decreases w.EntryDue(), w.SlDue(), 3
    ensures r.s == w.s
    ensures r.Pending() <= w.Pending() + 1
    ensures !cfg.queued ==> r.queue == w.queue
  {
    if w.resting != map[] || w.HasInflight() then Send(cfg, w, CancelAll) else w
  }

  function CloseAllPositions(cfg: Config, w: World): (r: World)
    decreases w.EntryDue(), w.SlDue(), 4
    ensures r.Pending() <= w.Pending() + 1
    ensures !cfg.queued ==> r.queue == w.queue
  {
    if w.net == 0 then w
    else if w.net > 0 then SubmitOrder(cfg, w, Market(Sell, w.net, true))
    else SubmitOrder(cfg, w, Market(Buy, -w.net, true))
  }

  // The strategy's handlers

  function OnEvent(cfg: Config, w: World, event: Event): (r: World)
    decreases w.EntryDue(), w.SlDue(), 0
    ensures r.Pending() <= w.Pending()
    ensures !cfg.queued ==> r.queue == w.queue
  {
    match event
    case Rejected(id) =>
      if w.s.slOrderId == Some(id) then
        var w1 := CancelAllOrders(cfg, w.(s := w.s.(slOrderId := None)));
        var w2 := CloseAllPositions(cfg, w1);
        w2.(s := w2.s.ClearPosition())
      else w
    case Filled(id, px) =>
      if w.s.entryOrderId == Some(id) then
        PlaceSl(cfg, w.(s := w.s.(entryPx := px as real, entryOrderId := None)))
      else if w.s.slOrderId == Some(id) then
        w.(s := w.s.(slOrderId := None).ClearPosition())
      else w
  }

  function InitialStop(cfg: Config, side: Option<Side>, entryPx: real): Order {
    var dist := cfg.Distance(entryPx);
    if side == Some(Buy)
    then StopMarket(Sell, cfg.size, Prices.Round(entryPx - dist))
    else StopMarket(Buy, cfg.size, Prices.Round(entryPx + dist))
  }

  function PlaceSl(cfg: Config, w: World): (r: World)
    decreases w.EntryDue(), 1, 4
    ensures r.Pending() <= w.Pending() + 4
    ensures !cfg.queued ==> r.queue == w.queue
  {
    var order := InitialStop(cfg, w.s.entrySide, w.s.entryPx);
    var s1 := w.s.(slDistance := cfg.Distance(w.s.entryPx), peakPx := w.s.entryPx, trailPx := order.trigger as real,
                   trailActive := false, slOrderId := Some(|w.orders|));
    SubmitOrder(cfg, w.(s := s1), order)
  }

  function OnBar(cfg: Config, w: World, bar: Bar): World {
    if !bar.Eligible() then w else Signal(cfg, Trail(cfg, w, bar), bar)
  }

  predicate Trailing(s: Strategy) {
    s.slOrderId.Some? && s.entrySide.Some? && s.peakPx > 0.0
  }

  /** Lines 208-243: activate the trail at 1:1, then move the stop if it improves. */
  function Trail(cfg: Config, w: World, bar: Bar): World {
    if !Trailing(w.s) then w
    else if w.s.entrySide == Some(Buy) then
      var high := bar.high as real;
      var s1 := w.s.(trailActive := w.s.trailActive || high >= w.s.entryPx + w.s.slDistance);
      var newPeak := if high > s1.peakPx then high else s1.peakPx;
      var newTrail := newPeak - s1.slDistance;
      if s1.trailActive && newTrail > s1.trailPx
      then UpdateTrailingSl(cfg, w.(s := s1.(peakPx := newPeak)), newTrail)
      else w.(s := s1)
    else
      var low := bar.low as real;
      var s1 := w.s.(trailActive := w.s.trailActive || low <= w.s.entryPx - w.s.slDistance);
      var newPeak := if low < s1.peakPx then low else s1.peakPx;
      var newTrail := newPeak + s1.slDistance;
      if s1.trailActive && newTrail < s1.trailPx
      then UpdateTrailingSl(cfg, w.(s := s1.(peakPx := newPeak)), newTrail)
      else w.(s := s1)
  }

  function UpdateTrailingSl(cfg: Config, w: World, newTrail: real): World
    requires w.s.slOrderId.Some?
  {
    if w.s.slOrderId.value !in w.resting then w
    else
      var w1 := Send(cfg, w, Cancel(w.s.slOrderId.value));
      var exit := if w1.s.entrySide == Some(Buy) then Sell else Buy;
      var order := StopMarket(exit, cfg.size, Prices.Round(newTrail));
      SubmitOrder(cfg, w1.(s := w1.s.(slOrderId := Some(|w1.orders|), trailPx := newTrail)), order)
  }

  /** Lines 245-272: trade only when the signal flips. */
  function Signal(cfg: Config, w: World, bar: Bar): World {
    var w1 := w.(s := w.s.(prevBullish := Some(bar.bullish)));
    if w.s.prevBullish.None? || w.s.prevBullish == Some(bar.bullish) then w1
    else if bar.bullish then
      if w.net == 0 then Enter(cfg, w1, Buy) else if w.net < 0 then ExitAndReverse(cfg, w1, Buy) else w1
    else
      if w.net == 0 then Enter(cfg, w1, Sell) else if w.net > 0 then ExitAndReverse(cfg, w1, Sell) else w1
  }

  function Enter(cfg: Config, w: World, side: Side): World {
    SubmitOrder(cfg, w.(s := w.s.(entryOrderId := Some(|w.orders|), entrySide := Some(side))),
                Market(side, cfg.size, false))
  }

  function ExitAndReverse(cfg: Config, w: World, side: Side): World {
    var w1 := if w.s.slOrderId.Some? && w.s.slOrderId.value in w.resting
              then Send(cfg, w, Cancel(w.s.slOrderId.value)) else w;
    var w2 := CancelAllOrders(cfg, w1.(s := w1.s.(slOrderId := None)));
    var w3 := CloseAllPositions(cfg, w2);
    Enter(cfg, w3.(s := w3.s.ClearPosition()), side)
  }

  function OnStop(cfg: Config, w: World, closePositions: bool): World {
    var w1 := CancelAllOrders(cfg, w);
    if closePositions then CloseAllPositions(cfg, w1) else w1
  }

  // Whole bars and runs

  /** One bar: resting stops trade, the strategy sees the bar, the venue settles every command. */
  function StepBar(cfg: Config, w: World, bar: Bar): World {
    Drain(cfg, OnBar(cfg, FillStops(cfg, w, bar.hits), bar))
  }

  function Run(cfg: Config, w: World, bars: seq<Bar>): World {
    if bars == [] then w else StepBar(cfg, Run(cfg, w, bars[..|bars| - 1]), bars[|bars| - 1])
  }
}
