/** When the trailing stop follows all bars since the entry, and when it does not.

A best price that is not positive makes the strategy ignore every later bar. `FollowsIff` and `RunFollowsIff` say
exactly when that makes a difference. */
module TrailFreeze {
  import opened Wrappers
  import opened Desk
  import opened DeskRefinement
  import opened DeskRuns
  import opened TrailingStop
  import Prices

  /** Ignoring this bar loses nothing: it brings no better price, and no update that was still to be caught up with. */
  predicate Harmless(cfg: Config, side: Side, entry: int, before: seq<Look>, look: Look) {
    && !Better(side, FavourablePx(side, look.bar) as real, BestPx(side, entry, before) as real)
    && (look.open ==> TrailOf(cfg, side, entry, Caught(before)) == TrailOf(cfg, side, entry, before))
  }

  /** The best price is not positive, with 1:1 reached. */
  predicate Stopped(cfg: Config, side: Side, entry: int, looks: seq<Look>) {
    Reached(cfg, side, entry, looks) && BestPx(side, entry, looks) <= 0
  }

  /** Every bar after that is harmless. */
  ghost predicate Follows(cfg: Config, side: Side, entry: int, looks: seq<Look>) {
    forall i :: 0 <= i < |looks| && Stopped(cfg, side, entry, looks[..i]) ==>
      Harmless(cfg, side, entry, looks[..i], looks[i])
  }

  /** Two sequences of bars give the same closed form. */
  predicate SameForm(cfg: Config, side: Side, entry: int, a: seq<Look>, b: seq<Look>) {
    && Reached(cfg, side, entry, a) == Reached(cfg, side, entry, b)
    && (Reached(cfg, side, entry, a) ==> BestPx(side, entry, a) == BestPx(side, entry, b))
    && TrailOf(cfg, side, entry, Caught(a)) == TrailOf(cfg, side, entry, Caught(b))
  }

  // After the freeze

  lemma {:induction false} StaysStopped(cfg: Config, side: Side, entry: int, before: seq<Look>, look: Look)
    requires Stopped(cfg, side, entry, before)
    ensures side.Sell? && Stopped(cfg, side, entry, before + [look])
    ensures BestPx(side, entry, before + [look]) == Min(BestPx(side, entry, before), look.bar.low)
  {
    BestFromEntry(side, entry, before);
    Push(side, entry, before, look);
    hide Dist;
    hide BestPx;
  }

  ghost predicate AllHarmless(cfg: Config, side: Side, entry: int, base: seq<Look>, more: seq<Look>) {
    forall i :: 0 <= i < |more| ==> Harmless(cfg, side, entry, base + more[..i], more[i])
  }

  lemma {:induction false} AllHarmlessLast(cfg: Config, side: Side, entry: int, base: seq<Look>, more: seq<Look>)
    requires more != []
    ensures var n := |more| - 1;
            AllHarmless(cfg, side, entry, base, more)
            <==> AllHarmless(cfg, side, entry, base, more[..n]) && Harmless(cfg, side, entry, base + more[..n], more[n])
  {
    hide Harmless;
    var n := |more| - 1;
    assert forall i :: 0 <= i < n ==> more[..n][..i] == more[..i] && more[..n][i] == more[i];
  }

  /** What the bars after a freeze can do to the closed form. */
  ghost predicate Stuck(cfg: Config, side: Side, entry: int, base: seq<Look>, all: seq<Look>) {
    && Stopped(cfg, side, entry, all)
    && BestPx(side, entry, all) <= BestPx(side, entry, base)
    && (BestPx(side, entry, all) == BestPx(side, entry, base) ==>
          || TrailOf(cfg, side, entry, Caught(all)) == TrailOf(cfg, side, entry, Caught(base))
          || TrailOf(cfg, side, entry, Caught(all)) == TrailOf(cfg, side, entry, base))
  }

  lemma {:induction false} StuckStep(cfg: Config, side: Side, entry: int, base: seq<Look>, all: seq<Look>, look: Look)
    requires Stopped(cfg, side, entry, base) && Stuck(cfg, side, entry, base, all)
    ensures Stuck(cfg, side, entry, base, all + [look])
    ensures SameForm(cfg, side, entry, all + [look], base)
       <==> SameForm(cfg, side, entry, all, base) && Harmless(cfg, side, entry, all, look)
  {
    StaysStopped(cfg, side, entry, all, look);
    Push(side, entry, all, look);
    hide Dist;
    hide StopPx;
    hide BestPx;
    hide Caught;
    hide Prices.Round;
  }

  lemma {:induction false} AfterFreeze(cfg: Config, side: Side, entry: int, base: seq<Look>, more: seq<Look>)
    requires Stopped(cfg, side, entry, base)
    ensures Stuck(cfg, side, entry, base, base + more)
    ensures SameForm(cfg, side, entry, base + more, base) <==> AllHarmless(cfg, side, entry, base, more)
  {
    if more == [] {
      assert base + more == base;
    } else {
      var n := |more| - 1;
      assert base + more == base + more[..n] + [more[n]];
      hide *;
      AfterFreeze(cfg, side, entry, base, more[..n]);
      StuckStep(cfg, side, entry, base, base + more[..n], more[n]);
      AllHarmlessLast(cfg, side, entry, base, more);
    }
  }

  /** The bars heard are those before the first freeze. */
  lemma {:induction false} HeardIs(cfg: Config, side: Side, entry: int, looks: seq<Look>)
    ensures var n := |Heard(cfg, side, entry, looks)|;
            && n <= |looks| && Heard(cfg, side, entry, looks) == looks[..n]
            && (n < |looks| ==> Frozen(cfg, side, entry, looks[..n]))
            && (forall i :: 0 <= i < n ==> !Frozen(cfg, side, entry, looks[..i]))
  {
    hide Frozen;
    hide Reached;
    hide BestPx;
    if looks != [] {
      var m := |looks| - 1;
      var h := Heard(cfg, side, entry, looks[..m]);
      assert Heard(cfg, side, entry, looks) == if Frozen(cfg, side, entry, h) then h else h + [looks[m]];
      hide *;
      HeardIs(cfg, side, entry, looks[..m]);
      forall i | 0 <= i <= m ensures looks[..m][..i] == looks[..i] {
      }
      if !Frozen(cfg, side, entry, h) {
        assert h == looks[..m];
        assert h + [looks[m]] == looks == looks[..|looks|];
      }
    }
  }

  lemma {:induction false} StoppedFrom(cfg: Config, side: Side, entry: int, looks: seq<Look>, n: nat, i: nat)
    requires n <= i <= |looks| && Stopped(cfg, side, entry, looks[..n])
    ensures Stopped(cfg, side, entry, looks[..i])
    decreases i
  {
    if i > n {
      StoppedFrom(cfg, side, entry, looks, n, i - 1);
      assert looks[..i] == looks[..i - 1] + [looks[i - 1]];
      StaysStopped(cfg, side, entry, looks[..i - 1], looks[i - 1]);
    }
  }

  lemma {:induction false} FrozenIs(cfg: Config, side: Side, entry: int, looks: seq<Look>)
    ensures entry > 0 ==> (Frozen(cfg, side, entry, looks) <==> Stopped(cfg, side, entry, looks))
    ensures entry <= 0 ==> !Reached(cfg, side, entry, looks)
  {
    hide BestPx;
    hide Dist;
  }

  /** Hearing only some of the bars gives the closed form over all of them exactly if the others are harmless. */
  lemma {:induction false} HeardIff(cfg: Config, side: Side, entry: int, looks: seq<Look>)
    ensures SameForm(cfg, side, entry, looks, Heard(cfg, side, entry, looks)) <==> Follows(cfg, side, entry, looks)
  {
    hide *;
    var n := |Heard(cfg, side, entry, looks)|;
    HeardIs(cfg, side, entry, looks);
    forall i | 0 <= i <= |looks|
      ensures entry > 0 ==> (Frozen(cfg, side, entry, looks[..i]) <==> Stopped(cfg, side, entry, looks[..i]))
    {
      FrozenIs(cfg, side, entry, looks[..i]);
    }
    if entry <= 0 {
      NeverReached(cfg, side, entry, looks, Heard(cfg, side, entry, looks));
    } else if n == |looks| {
      assert looks[..n] == looks;
      NothingStopped(cfg, side, entry, looks);
    } else {
      assert looks[..n] + looks[n..] == looks;
      AfterFreeze(cfg, side, entry, looks[..n], looks[n..]);
      forall i | n <= i < |looks| ensures Stopped(cfg, side, entry, looks[..i]) {
        StoppedFrom(cfg, side, entry, looks, n, i);
      }
      HarmlessAgree(cfg, side, entry, looks, n);
    }
  }

  /** A position entered at a price that is not positive never trails, and follows its closed form in that. */
  lemma {:induction false} NeverReached(cfg: Config, side: Side, entry: int, looks: seq<Look>, heard: seq<Look>)
    requires entry <= 0
    ensures SameForm(cfg, side, entry, looks, heard) && Follows(cfg, side, entry, looks)
  {
    hide BestPx;
    hide Dist;
    hide Caught;
    hide Harmless;
  }

  lemma {:induction false} NothingStopped(cfg: Config, side: Side, entry: int, looks: seq<Look>)
    requires forall i :: 0 <= i < |looks| ==> !Stopped(cfg, side, entry, looks[..i])
    ensures SameForm(cfg, side, entry, looks, looks) && Follows(cfg, side, entry, looks)
  {
    hide Stopped;
    hide Harmless;
  }

  lemma {:induction false} HarmlessAgree(cfg: Config, side: Side, entry: int, looks: seq<Look>, n: nat)
    requires n <= |looks| && (forall i :: 0 <= i < n ==> !Stopped(cfg, side, entry, looks[..i]))
    requires forall i :: n <= i < |looks| ==> Stopped(cfg, side, entry, looks[..i])
    ensures Follows(cfg, side, entry, looks) <==> AllHarmless(cfg, side, entry, looks[..n], looks[n..])
  {
    hide Stopped;
    hide Harmless;
    var base, more := looks[..n], looks[n..];
    forall i | n <= i < |looks| ensures base + more[..i - n] == looks[..i] && more[i - n] == looks[i] {
    }
    assert forall i :: 0 <= i < |more| ==> base + more[..i] == looks[..n + i] && more[i] == looks[n + i];
  }

  // One position

  lemma {:induction false} FormIff(cfg: Config, p: Position, a: seq<Look>, b: seq<Look>)
    requires p.Open? && Form(cfg, p, b)
    ensures Form(cfg, p, a) <==> SameForm(cfg, p.side, p.entry, a, b)
  {
    hide Reached;
    hide BestPx;
    hide TrailOf;
    hide Caught;
  }

  /** From a fresh position, for any bars and any pattern of the stop being open or not, the closed form is over all
  bars if and only if every bar after the freeze is harmless. */
  lemma {:induction false} FollowsIff(cfg: Config, p: Position, looks: seq<Look>)
    requires p.Open? && cfg.pct > 0.0 && Form(cfg, p, [])
    ensures Form(cfg, AdvanceAll(cfg, p, looks), looks) <==> Follows(cfg, p.side, p.entry, looks)
  {
    var r := AdvanceAll(cfg, p, looks);
    TrailCatchesUp(cfg, p, looks);
    hide *;
    assert r.side == p.side && r.entry == p.entry;
    FormIff(cfg, r, looks, Heard(cfg, p.side, p.entry, looks));
    HeardIff(cfg, p.side, p.entry, looks);
  }

  /** In particular for a long, and for a short whose prices stay positive. */
  lemma {:induction false} PositiveFollows(cfg: Config, side: Side, entry: int, looks: seq<Look>)
    requires side.Sell? ==> forall l <- looks :: l.bar.low > 0
    ensures Follows(cfg, side, entry, looks)
  {
    forall i | 0 <= i < |looks| ensures !Stopped(cfg, side, entry, looks[..i]) {
      assert forall l <- looks[..i] :: l in looks;
      BestPositive(side, entry, looks[..i]);
    }
  }

  lemma {:induction false} BestPositive(side: Side, entry: int, looks: seq<Look>)
    requires side.Sell? ==> forall l <- looks :: l.bar.low > 0
    ensures entry > 0 ==> BestPx(side, entry, looks) > 0
  {
    if looks != [] {
      BestPositive(side, entry, looks[..|looks| - 1]);
    }
  }

  // Whole runs

  lemma {:induction false} LooksOpen(bars: seq<Bar>)
    ensures Caught(Looks(bars)) == Looks(bars)
  {
    if bars != [] {
      LooksOpen(bars[..|bars| - 1]);
    }
  }

  lemma {:induction false} TrailedIff(cfg: Config, w: World, side: Side, entry: int, a: seq<Look>, b: seq<Look>)
    requires Trailed(cfg, w, side, entry, b) && Caught(a) == a && Caught(b) == b
    ensures Trailed(cfg, w, side, entry, a) <==> SameForm(cfg, side, entry, a, b)
  {
    hide Reached;
    hide BestPx;
    hide TrailOf;
    hide Caught;
  }

  /** In every run, between bars, the strategy's fields and its resting stop are the closed form over all bars since the
  last flip if and only if every bar after the freeze is harmless. */
  lemma {:induction false} RunFollowsIff(cfg: Config, bars: seq<Bar>, entry: int)
    requires cfg.Valid() && cfg.pct > 0.0
    requires Run(cfg, START, bars).net != 0 && Run(cfg, START, bars).s.entryPx == entry as real
    ensures var w := Run(cfg, START, bars);
            var side, looks := if w.net > 0 then Buy else Sell, Looks(bars[LastFlipBar(bars)..]);
            Trailed(cfg, w, side, entry, looks) <==> Follows(cfg, side, entry, looks)
  {
    hide *;
    var w := Run(cfg, START, bars);
    var side, since := if w.net > 0 then Buy else Sell, bars[LastFlipBar(bars)..];
    TrailIsClosedForm(cfg, bars, entry);
    LooksOpen(since);
    CaughtAll(cfg, side, entry, since);
    TrailedIff(cfg, w, side, entry, Looks(since), Heard(cfg, side, entry, Looks(since)));
    HeardIff(cfg, side, entry, Looks(since));
  }

  // A short that stops trailing

  /** A signal, its flip, a bar that falls to -1 and one that falls to -5. */
  const FALL := [Bar(10, 11, 9, 10, true, true, []), Bar(10, 11, 9, 10, true, false, []),
                 Bar(9, 9, -1, 0, true, false, []), Bar(0, 1, -5, -4, true, false, [])]

  const SHORT := Open(Sell, 10, 0, 1, 10.0, 11.0, false, 2)

  lemma {:induction false} FallEnters(cfg: Config)
    requires cfg.pct == 0.1 && cfg.reply(0) == Reply(10, false) && !cfg.reply(1).reject
    ensures BookRun(cfg, FALL[..2])
         == Book(SHORT, Some(false), [Market(Sell, cfg.size, false), StopMarket(Buy, cfg.size, 11)], 2)
  {
    assert FALL[..2][..1] == FALL[..1] && FALL[..1][..0] == [];
    assert BookRun(cfg, FALL[..1]) == Book(Flat, Some(true), [], 1);
    assert Dist(cfg, 10) == 1.0;
    Prices.RoundOnGrid(11);
  }

  lemma {:induction false} FallFreezes(cfg: Config)
    requires cfg.pct == 0.1 && cfg.reply(0) == Reply(10, false) && !cfg.reply(1).reject && !cfg.reply(2).reject
    ensures BookRun(cfg, FALL).position == SHORT.(stopId := 2, peak := -1.0, trail := 0.0, active := true)
  {
    assert FALL[..3][..2] == FALL[..2] && FALL[..4] == FALL && FALL[..4][..3] == FALL[..3];
    assert Dist(cfg, 10) == 1.0;
    FallEnters(cfg);
    hide Dist;
    var b := BookRun(cfg, FALL[..2]);
    var b' := BookBar(cfg, b, FALL[2]);
    assert BookRun(cfg, FALL[..3]) == b';
    assert b'.position == SHORT.(stopId := 2, peak := -1.0, trail := 0.0, active := true) && b'.prev == Some(false);
    assert BookRun(cfg, FALL) == BookBar(cfg, b', FALL[3]);
  }

  lemma {:induction false} FallLooks()
    ensures LastFlipBar(FALL) == 2
    ensures Looks(FALL[2..]) == [Look(FALL[2], true), Look(FALL[3], true)]
    ensures BestPx(Sell, 10, Looks(FALL[2..])) == -5
  {
    assert FALL[..3] == FALL[..4][..3] && FALL[..2] == FALL[..3][..2] && FALL[..1] == FALL[..2][..1]
           && FALL[..4] == FALL;
    assert Signals(FALL[..1]) == [true] by { assert FALL[..1][..0] == []; }
    assert Signals(FALL[..2]) == [true, false] && Signals(FALL[..3]) == [true, false, false];
    assert LastFlipBar(FALL[..2]) == 2 && LastFlipBar(FALL[..3]) == 2;
    var since := FALL[2..];
    assert since == [FALL[2], FALL[3]] && since[..1] == [FALL[2]] && [FALL[2]][..0] == [];
    assert Looks(since[..1]) == [Look(FALL[2], true)];
    var looks := [Look(FALL[2], true), Look(FALL[3], true)];
    assert looks[..1] == [Look(FALL[2], true)] && looks[..1][..0] == [];
    assert BestPx(Sell, 10, looks[..1]) == -1;
  }

  /** It does happen: a short entered at 10, with distance 1, that has seen -1 keeps its stop at 0 when the market falls
  to -5. */
  lemma {:induction false} ShortFreezesBelowZero(cfg: Config)
    requires cfg.Valid() && cfg.pct == 0.1
    requires cfg.reply(0) == Reply(10, false) && !cfg.reply(1).reject && !cfg.reply(2).reject
    ensures var w, looks := Run(cfg, START, FALL), Looks(FALL[LastFlipBar(FALL)..]);
            && w.net == -cfg.size && w.s.peakPx == -1.0 && w.s.trailPx == 0.0
            && w.resting == map[2 := StopMarket(Buy, cfg.size, 0)]
            && BestPx(Sell, 10, looks) == -5 && TrailOf(cfg, Sell, 10, looks) == -4.0
  {
    RunRefines(cfg, FALL);
    FallFreezes(cfg);
    FallLooks();
    Prices.RoundOnGrid(0);
    assert Dist(cfg, 10) == 1.0;
    hide Run;
    hide BookRun;
    hide Looks;
    hide BestPx;
    hide LastFlipBar;
  }
}
