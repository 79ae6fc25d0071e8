/** The strategy and the simulated exchange as objects that update their fields in place. Each method is
proved to do what the corresponding function of `Desk` says, and the steps of a bar to be steps of the book that the
desk stands for between bars. */
module EmaCrossRr {
  import opened Wrappers
  import opened Desk
  import DeskRefinement
  import DeskRuns
  import Prices

  class Exchange {
    var net: int
    var resting: map<OrderId, Order>
    var orders: seq<Order>
    var queue: seq<Command>

    constructor ()
      ensures net == 0 && resting == map[] && orders == [] && queue == []
    {
      net, resting, orders, queue := 0, map[], [], [];
    }
  }

  class Trader {
    const cfg: Config
    const exchange: Exchange
    var entryOrderId: Option<OrderId>
    var slOrderId: Option<OrderId>
    var entrySide: Option<Side>
    var entryPx: real
    var peakPx: real
    var trailPx: real
    var trailActive: bool
    var slDistance: real
    var prevBullish: Option<bool>

    ghost function Fields(): Strategy
      reads this
    {
      Strategy(entryOrderId, slOrderId, entrySide, entryPx, peakPx, trailPx, trailActive, slDistance, prevBullish)
    }

    /** The world these objects stand for. */
    ghost function Snapshot(): World
      reads this, exchange
    {
      World(Fields(), exchange.net, exchange.resting, exchange.orders, exchange.queue)
    }

    /** Nothing is pending, and the desk stands for the book: flat, or one position guarded by one stop. */
    ghost predicate StandsFor(b: DeskRefinement.Book)
      reads this, exchange
    {
      DeskRefinement.Settled(cfg, Snapshot(), b)
    }

    constructor (cfg: Config)
      ensures this.cfg == cfg && fresh(exchange)
      ensures Snapshot() == START && StandsFor(DeskRefinement.EMPTY)
    {
      this.cfg := cfg;
      exchange := new Exchange();
      entryOrderId, slOrderId, entrySide, prevBullish := None, None, None, None;
      entryPx, peakPx, trailPx, slDistance := 0.0, 0.0, 0.0, 0.0;
      trailActive := false;
    }

    method OnReset()
      modifies this
      ensures Snapshot() == old(Snapshot()).(s := RESET)
      ensures entryOrderId == None && slOrderId == None && entrySide == None && prevBullish == None
      ensures entryPx == 0.0 && peakPx == 0.0 && trailPx == 0.0 && slDistance == 0.0 && !trailActive
    {
      entryOrderId, slOrderId, entrySide := None, None, None;
      entryPx := 0.0;
      ClearPosition();
      prevBullish := None;
    }

    method ClearPosition()
      modifies this
      ensures Snapshot() == old(Snapshot()).(s := old(Snapshot()).s.ClearPosition())
    {
      entrySide := None;
      peakPx, trailPx := 0.0, 0.0;
      trailActive := false;
      slDistance := 0.0;
    }

    // The exchange's side of the conversation

    method Send(cmd: Command)
      modifies this, exchange
      decreases Snapshot().EntryDue(), Snapshot().SlDue(), 2
      ensures Snapshot() == Desk.Send(cfg, old(Snapshot()), cmd)
    {
      if cfg.queued {
        exchange.queue := exchange.queue + [cmd];
      } else {
        Process(cmd);
      }
    }

    method Process(cmd: Command)
      modifies this, exchange
      decreases Snapshot().EntryDue(), Snapshot().SlDue(), 1
      ensures Snapshot() == Desk.Process(cfg, old(Snapshot()), cmd)
    {
      match cmd
      case Cancel(id) =>
        exchange.resting := exchange.resting - {id};
      case CancelAll =>
        exchange.resting := map[];
      case Submit(id, order) =>
        var reply := cfg.reply(id);
        if order.StopMarket? {
          if !order.side.Reduces(exchange.net) || reply.reject {
            OnEvent(Rejected(id));
          } else {
            exchange.resting := exchange.resting[id := order];
          }
        } else if order.reduceOnly {
          if !order.side.Reduces(exchange.net) {
            OnEvent(Rejected(id));
          } else {
            exchange.net := Reduced(exchange.net, order.side, order.qty);
            OnEvent(Filled(id, reply.px));
          }
        } else if reply.reject {
          OnEvent(Rejected(id));
        } else {
          exchange.net := exchange.net + order.side.Signed(order.qty);
          OnEvent(Filled(id, reply.px));
        }
    }

    /** Process commands until the queue is empty, including those sent while processing. */
    method DrainCommands()
      modifies this, exchange
      ensures Snapshot() == Drain(cfg, old(Snapshot())) && exchange.queue == []
    {
      while exchange.queue != []
        invariant Drain(cfg, Snapshot()) == Drain(cfg, old(Snapshot()))
        decreases Snapshot().Pending()
      {
        var cmd := exchange.queue[0];
        exchange.queue := exchange.queue[1..];
        Process(cmd);
      }
    }

    /** The market trades through resting stops. */
    method ProcessHits(hits: seq<Hit>)
      modifies this, exchange
      ensures Snapshot() == FillStops(cfg, old(Snapshot()), hits)
      ensures cfg.Valid() ==> forall b | old(StandsFor(b)) :: StandsFor(DeskRefinement.BookHits(b, hits))
    {
      HitsAreSteps(hits);
      hide DeskRefinement.Settled;
      var i := 0;
      while i < |hits|
        invariant 0 <= i <= |hits|
        invariant FillStops(cfg, Snapshot(), hits[i..]) == FillStops(cfg, old(Snapshot()), hits)
      {
        var hit := hits[i];
        assert hits[i..][1..] == hits[i + 1..];
        if hit.id in exchange.resting {
          var stop := exchange.resting[hit.id];
          exchange.resting := exchange.resting - {hit.id};
          if stop.side.Reduces(exchange.net) {
            exchange.net := Reduced(exchange.net, stop.side, stop.qty);
            OnEvent(Filled(hit.id, hit.px));
          }
        }
        i := i + 1;
      }
    }

    // The strategy's order commands

    method SubmitOrder(order: Order)
      modifies this, exchange
      decreases Snapshot().EntryDue(), Snapshot().SlDue(), 3
      ensures Snapshot() == Desk.SubmitOrder(cfg, old(Snapshot()), order)
    {
      var id := |exchange.orders|;
      exchange.orders := exchange.orders + [order];
      Send(Submit(id, order));
    }

    method CancelAllOrders()
      modifies this, exchange
      decreases Snapshot().EntryDue(), Snapshot().SlDue(), 3
      ensures Snapshot() == Desk.CancelAllOrders(cfg, old(Snapshot()))
    {
      if exchange.resting != map[] || exists c <- exchange.queue :: c.Submit? {
        Send(CancelAll);
      }
    }

    method CloseAllPositions()
      modifies this, exchange
      decreases Snapshot().EntryDue(), Snapshot().SlDue(), 4
      ensures Snapshot() == Desk.CloseAllPositions(cfg, old(Snapshot()))
    {
      if exchange.net > 0 {
        SubmitOrder(Market(Sell, exchange.net, true));
      } else if exchange.net < 0 {
        SubmitOrder(Market(Buy, -exchange.net, true));
      }
    }

    // The strategy's handlers

    method OnEvent(event: Event)
      modifies this, exchange
      decreases Snapshot().EntryDue(), Snapshot().SlDue(), 0
      ensures Snapshot() == Desk.OnEvent(cfg, old(Snapshot()), event)
    {
      match event
      case Rejected(id) =>
        if slOrderId == Some(id) {
          slOrderId := None;
          CancelAllOrders();
          CloseAllPositions();
          ClearPosition();
        }
      case Filled(id, px) =>
        if entryOrderId == Some(id) {
          entryPx := px as real;
          entryOrderId := None;
          PlaceSl();
        } else if slOrderId == Some(id) {
          slOrderId := None;
          ClearPosition();
        }
    }

    method PlaceSl()
      modifies this, exchange
      decreases Snapshot().EntryDue(), 1, 4
      ensures Snapshot() == Desk.PlaceSl(cfg, old(Snapshot()))
    {
      var order := InitialStop(cfg, entrySide, entryPx);
      slDistance := cfg.Distance(entryPx);
      peakPx := entryPx;
      trailPx := order.trigger as real;
      trailActive := false;
      slOrderId := Some(|exchange.orders|);
      SubmitOrder(order);
    }

    method OnBar(bar: Bar)
      modifies this, exchange
      ensures Snapshot() == Desk.OnBar(cfg, old(Snapshot()), bar)
      ensures !bar.initialized || (bar.open == bar.high && bar.high == bar.low && bar.low == bar.close) ==>
                Snapshot() == old(Snapshot())
      ensures cfg.Valid() ==> forall b | old(StandsFor(b)) ::
                DeskRefinement.Settled(cfg, Drain(cfg, Snapshot()), DeskRefinement.BookOnBar(cfg, b, bar))
    {
      BarIsStep(bar);
      hide DeskRefinement.Settled;
      if !bar.initialized || bar.SinglePrice() {
        return;
      }
      Trail(bar);
      Signal(bar);
    }

    method Trail(bar: Bar)
      modifies this, exchange
      ensures Snapshot() == Desk.Trail(cfg, old(Snapshot()), bar)
    {
      hide Desk.UpdateTrailingSl;
      if slOrderId == None || entrySide == None || peakPx <= 0.0 {
        return;
      }
      if entrySide == Some(Buy) {
        if !trailActive && bar.high as real >= entryPx + slDistance {
          trailActive := true;
        }
        if trailActive {
          var newPeak := if bar.high as real > peakPx then bar.high as real else peakPx;
          var newTrail := newPeak - slDistance;
          if newTrail > trailPx {
            peakPx := newPeak;
            UpdateTrailingSl(newTrail);
          }
        }
      } else {
        if !trailActive && bar.low as real <= entryPx - slDistance {
          trailActive := true;
        }
        if trailActive {
          var newPeak := if (bar.low as real) < peakPx then bar.low as real else peakPx;
          var newTrail := newPeak + slDistance;
          if newTrail < trailPx {
            peakPx := newPeak;
            UpdateTrailingSl(newTrail);
          }
        }
      }
    }

    method UpdateTrailingSl(newTrail: real)
      requires slOrderId.Some?
      modifies this, exchange
      ensures Snapshot() == Desk.UpdateTrailingSl(cfg, old(Snapshot()), newTrail)
    {
      if slOrderId.value !in exchange.resting {
        return;
      }
      Send(Cancel(slOrderId.value));
      var exit := if entrySide == Some(Buy) then Sell else Buy;
      slOrderId := Some(|exchange.orders|);
      trailPx := newTrail;
      SubmitOrder(StopMarket(exit, cfg.size, Prices.Round(newTrail)));
    }

    method Signal(bar: Bar)
      modifies this, exchange
      ensures Snapshot() == Desk.Signal(cfg, old(Snapshot()), bar)
    {
      if prevBullish == None {
        prevBullish := Some(bar.bullish);
        return;
      }
      var crossedUp := !prevBullish.value && bar.bullish;
      var crossedDown := prevBullish.value && !bar.bullish;
      prevBullish := Some(bar.bullish);
      if crossedUp {
        if exchange.net == 0 {
          Enter(Buy);
        } else if exchange.net < 0 {
          ExitAndReverse(Buy);
        }
      } else if crossedDown {
        if exchange.net == 0 {
          Enter(Sell);
        } else if exchange.net > 0 {
          ExitAndReverse(Sell);
        }
      }
    }

    method Enter(side: Side)
      modifies this, exchange
      ensures Snapshot() == Desk.Enter(cfg, old(Snapshot()), side)
    {
      entryOrderId := Some(|exchange.orders|);
      entrySide := Some(side);
      SubmitOrder(Market(side, cfg.size, false));
    }

    method ExitAndReverse(side: Side)
      modifies this, exchange
      ensures Snapshot() == Desk.ExitAndReverse(cfg, old(Snapshot()), side)
    {
      if slOrderId != None {
        if slOrderId.value in exchange.resting {
          Send(Cancel(slOrderId.value));
        }
        slOrderId := None;
      }
      CancelAllOrders();
      CloseAllPositions();
      ClearPosition();
      Enter(side);
    }

    method OnStop(closePositions: bool)
      modifies this, exchange
      ensures Snapshot() == Desk.OnStop(cfg, old(Snapshot()), closePositions)
    {
      CancelAllOrders();
      if closePositions {
        CloseAllPositions();
      }
    }

    /** What the triggered stops will do to any book the desk stands for. */
    lemma {:induction false} HitsAreSteps(hits: seq<Hit>)
      ensures cfg.Valid() ==> forall b | StandsFor(b) ::
                DeskRefinement.Settled(cfg, FillStops(cfg, Snapshot(), hits), DeskRefinement.BookHits(b, hits))
    {
      if cfg.Valid() {
        forall b | StandsFor(b)
          ensures DeskRefinement.Settled(cfg, FillStops(cfg, Snapshot(), hits), DeskRefinement.BookHits(b, hits))
        {
          DeskRefinement.HitsRefine(cfg, Snapshot(), b, hits);
        }
      }
    }

    /** What the bar handler will do to it, once every command is settled. */
    lemma {:induction false} BarIsStep(bar: Bar)
      ensures cfg.Valid() ==> forall b | StandsFor(b) ::
                DeskRefinement.Settled(cfg, Drain(cfg, Desk.OnBar(cfg, Snapshot(), bar)),
                                       DeskRefinement.BookOnBar(cfg, b, bar))
    {
      if cfg.Valid() {
        forall b | StandsFor(b)
          ensures DeskRefinement.Settled(cfg, Drain(cfg, Desk.OnBar(cfg, Snapshot(), bar)),
                                         DeskRefinement.BookOnBar(cfg, b, bar))
        {
          DeskRefinement.OnBarRefines(cfg, Snapshot(), b, bar);
        }
      }
    }

    /** One bar of the engine's data loop is one step of the book. */
    method StepBar(bar: Bar, ghost b: DeskRefinement.Book)
      requires cfg.Valid() && StandsFor(b)
      modifies this, exchange
      ensures Snapshot() == Desk.StepBar(cfg, old(Snapshot()), bar)
      ensures StandsFor(DeskRefinement.BookBar(cfg, b, bar))
    {
      DeskRefinement.BarRefines(cfg, Snapshot(), b, bar);
      hide DeskRefinement.Settled;
      hide DeskRefinement.BookBar;
      ProcessHits(bar.hits);
      OnBar(bar);
      DrainCommands();
    }

    /** The engine's data loop: after every bar the desk is idle or protected. */
    method Backtest(bars: seq<Bar>)
      requires cfg.Valid() && Snapshot() == START
      modifies this, exchange
      ensures Snapshot() == Run(cfg, START, bars)
      ensures StandsFor(DeskRuns.BookRun(cfg, bars))
      ensures DeskRuns.Idle(Snapshot()) || DeskRuns.Protected(cfg, Snapshot())
    {
      var i := 0;
      assert bars[..0] == [];
      while i < |bars|
        invariant 0 <= i <= |bars|
        invariant Snapshot() == Run(cfg, START, bars[..i])
        invariant StandsFor(DeskRuns.BookRun(cfg, bars[..i]))
      {
        assert bars[..i + 1][..i] == bars[..i];
        StepBar(bars[i], DeskRuns.BookRun(cfg, bars[..i]));
        i := i + 1;
      }
      assert bars[..i] == bars;
      DeskRuns.AlwaysProtected(cfg, bars);
    }
  }
}
