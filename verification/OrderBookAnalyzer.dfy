/** Slippage estimates over stored order books, and the feasibility test for a two-legged trade. */
module OrderBookAnalyzer {
  import opened Wrappers
  import opened Stats
  import opened OrderBook

  datatype Book = Book(exchange: string, symbol: string, bids: seq<Level>, asks: seq<Level>)

  datatype Estimate = Estimate(
    side: Side,
    requestedAmount: real,
    avgFillPrice: real,
    worstPrice: real,
    slippageBps: real,
    slippageCostUsd: real,
    levelsConsumed: nat,
    fillable: bool,
    filledAmount: real,
    depthUsd: real)

  datatype Simulation = Simulation(
    totalSlippageBps: real,
    totalSlippageCostUsd: real,
    effectiveSpreadPercent: real,
    feasible: bool)

  datatype Candidate = Candidate(exchange: string, avgPrice: real, slippageBps: real)

  function NoData(side: Side, q: real): Estimate {
    Estimate(side, q, 0.0, 0.0, 0.0, 0.0, 0, false, 0.0, 0.0)
  }

  /** The levels a side consumes. */
  function LevelsOf(book: Book, side: Side): seq<Level> {
    if side == Buy then book.asks else book.bids
  }

  /** What an estimate must say, in terms of the allocation that `Greedy` describes. */
  function Estimated(levels: seq<Level>, side: Side, q: real): Estimate {
    if levels == [] then NoData(side, q)
    else
      var best := levels[0].price;
      var filled := Filled(levels, q);
      var avg := Average(Spent(levels, q), filled, best);
      Estimate(side, q, avg, Marginal(levels, q),
               SlipBps(avg, best), SlipCost(avg, best, filled),
               Reached(levels, q), q <= filled, filled,
               VisitedUsd(levels, q))
  }

  function SlipBps(avg: real, best: real): real {
    if best > 0.0 then Abs(avg - best) / best * 10000.0 else 0.0
  }

  function SlipCost(avg: real, best: real, filled: real): real { Abs(avg - best) * filled }

  /** The depth an estimate reports: that of the levels reached and of the one where the walk notices it is done. */
  function VisitedUsd(levels: seq<Level>, q: real): real {
    var n := Reached(levels, q);
    DepthOf(levels[..if n < |levels| then n + 1 else n])
  }

  function DepthOf(levels: seq<Level>): real { Sum(Map(levels, Notional)) }

  lemma DepthSnoc(levels: seq<Level>, i: nat)
    requires i < |levels|
    ensures DepthOf(levels[..i + 1]) == DepthOf(levels[..i]) + Notional(levels[i])
    ensures DepthOf([]) == 0.0
  {
    assert levels[..i + 1] == levels[..i] + [levels[i]];
    MapSnoc(levels[..i], levels[i], Notional);
    SumSnoc(Map(levels[..i], Notional), Notional(levels[i]));
  }

  // ----- the figures of an estimate -----

  /** What each figure of an estimate means, in terms of what is filled, what it costs and the best price. */
  lemma EstimateWrittenOut(levels: seq<Level>, side: Side, q: real)
    requires levels != []
    ensures var e, best := Estimated(levels, side, q), levels[0].price;
            var off := if e.avgFillPrice >= best then e.avgFillPrice - best else best - e.avgFillPrice;
            && e.side == side && e.requestedAmount == q && e.filledAmount == Filled(levels, q)
            && (e.fillable <==> e.filledAmount >= q)
            && (if e.filledAmount > 0.0 then e.avgFillPrice * e.filledAmount == Spent(levels, q)
                else e.avgFillPrice == best)
            && (if best > 0.0 then e.slippageBps * best == off * 10000.0 else e.slippageBps == 0.0)
            && e.slippageCostUsd == off * e.filledAmount
            && e.levelsConsumed == Reached(levels, q)
            && e.worstPrice == levels[if e.levelsConsumed == 0 then 0 else e.levelsConsumed - 1].price
  {
    hide Filled, Spent, Reached, VisitedUsd;
    if Filled(levels, q) > 0.0 {
      AverageTimesFilled(Spent(levels, q), Filled(levels, q), levels[0].price);
    }
    BpsTimesBest(Average(Spent(levels, q), Filled(levels, q), levels[0].price), levels[0].price);
    hide Average, SlipBps;
  }

  lemma BpsTimesBest(avg: real, best: real)
    ensures best > 0.0 ==> SlipBps(avg, best) * best == Abs(avg - best) * 10000.0
  {
    if best > 0.0 {
      var x := Abs(avg - best) / best;
      assert x * best == Abs(avg - best);
      assert x * 10000.0 * best == x * best * 10000.0;
    }
  }

  // ----- the reported depth -----

  ghost predicate Priced(levels: seq<Level>) {
    forall i :: 0 <= i < |levels| ==> levels[i].price > 0.0
  }

  /** The depth of the levels before level `i`, but for the one just before it. */
  function DepthShortOf(levels: seq<Level>, i: nat): real
    requires 1 <= i <= |levels|
  {
    Depth(levels[..i - 1])
  }

  /**
   * Exactly when the reported depth is that of the whole book: no level with an amount lies two or more past the fill.
   */
  lemma DepthIsWholeExactly(levels: seq<Level>, side: Side, q: real)
    requires NonNegative(levels) && Priced(levels)
    ensures Estimated(levels, side, q).depthUsd == DepthOf(levels) <==>
            forall i :: 1 <= i < |levels| && levels[i].amount > 0.0 ==> DepthShortOf(levels, i) < q
  {
    NothingThere(levels);
    if levels != [] {
      var n := Reached(levels, q);
      var m := if n < |levels| then n + 1 else n;
      DepthSplits(levels, m);
      DepthIsZero(levels[m..]);
      assert Estimated(levels, side, q).depthUsd == DepthOf(levels[..m]);
      hide DepthOf, Reached, Estimated;
      RestIsEmpty(levels, q, m);
    }
  }

  lemma RestIsEmpty(levels: seq<Level>, q: real, m: nat)
    requires NonNegative(levels) && levels != []
    requires m == if Reached(levels, q) < |levels| then Reached(levels, q) + 1 else Reached(levels, q)
    ensures (forall i :: 0 <= i < |levels[m..]| ==> levels[m..][i].amount == 0.0) <==>
            forall i :: 1 <= i < |levels| && levels[i].amount > 0.0 ==> DepthShortOf(levels, i) < q
  {
    forall i | 1 <= i < |levels|
      ensures i < m <==> DepthShortOf(levels, i) < q
    {
      hide Depth, Reached;
      ReachedExactly(levels, q, i - 1);
    }
    hide DepthShortOf, Reached;
    assert m >= 1;
    assert forall i :: m <= i < |levels| ==> levels[i] == levels[m..][i - m];
  }

  lemma NothingThere(levels: seq<Level>)
    ensures levels == [] ==> DepthOf(levels) == 0.0
  {
  }

  lemma DepthSplits(levels: seq<Level>, m: nat)
    requires m <= |levels|
    ensures DepthOf(levels) == DepthOf(levels[..m]) + DepthOf(levels[m..])
  {
    assert Map(levels, Notional) == Map(levels[..m], Notional) + Map(levels[m..], Notional);
    SumConcat(Map(levels[..m], Notional), Map(levels[m..], Notional));
  }

  lemma {:induction false} DepthIsZero(levels: seq<Level>)
    requires NonNegative(levels) && Priced(levels)
    ensures DepthOf(levels) >= 0.0
    ensures DepthOf(levels) == 0.0 <==> forall i :: 0 <= i < |levels| ==> levels[i].amount == 0.0
  {
    NothingThere(levels);
    if levels != [] {
      var n := |levels| - 1;
      DepthIsZero(levels[..n]);
      DepthSnoc(levels, n);
      assert levels[..n + 1] == levels;
      hide DepthOf;
      NotionalSign(levels[n]);
    }
  }

  lemma NotionalSign(l: Level)
    requires l.amount >= 0.0 && l.price > 0.0
    ensures Notional(l) >= 0.0 && (Notional(l) == 0.0 <==> l.amount == 0.0)
  {
  }

  /** A book of 303 whose depth is reported as 201: the first level fills the request, the second one ends the walk. */
  lemma DepthStopsShort()
    ensures var levels := [Level(100.0, 1.0), Level(101.0, 1.0), Level(102.0, 1.0)];
            Estimated(levels, Buy, 1.0).depthUsd == 201.0 && DepthOf(levels) == 303.0
  {
    var levels := [Level(100.0, 1.0), Level(101.0, 1.0), Level(102.0, 1.0)];
    DepthSnoc(levels, 0);
    DepthSnoc(levels, 1);
    DepthSnoc(levels, 2);
    assert levels[..0] == [] && levels[..3] == levels;
    hide DepthOf;
    assert Reached(levels[1..], 0.0) == 0;
  }

  // ----- the walk, level by level -----

  /** After `i` levels, what is done and what is still to do make up the whole walk. */
  ghost predicate WalkSoFar(levels: seq<Level>, q: real, i: nat, filled: real, cost: real)
    requires i <= |levels|
  {
    && filled + Filled(levels[i..], q - filled) == Filled(levels, q)
    && cost + Spent(levels[i..], q - filled) == Spent(levels, q)
    && i + Reached(levels[i..], q - filled) == Reached(levels, q)
  }

  lemma WalkStart(levels: seq<Level>, q: real)
    ensures WalkSoFar(levels, q, 0, 0.0, 0.0)
    ensures DepthOf(levels[..0]) == 0.0
  {
    assert levels[0..] == levels;
  }

  lemma WalkOn(levels: seq<Level>, q: real, i: nat, filled: real, cost: real, x: real, paid: real)
    requires i < |levels| && q - filled > 0.0 && WalkSoFar(levels, q, i, filled, cost)
    requires x == Min(q - filled, levels[i].amount) && paid == Times(x, levels[i].price)
    ensures WalkSoFar(levels, q, i + 1, filled + x, cost + paid)
  {
    hide Filled, Spent, Reached, Min;
    WalkStep(levels[i..], q - filled, x, paid);
    assert levels[i..][1..] == levels[i + 1..];
    assert q - (filled + x) == q - filled - x;
  }

  /** When the walk stops, its variables are the estimate. */
  lemma WalkEnds(levels: seq<Level>, side: Side, q: real, i: nat, filled: real, cost: real, worst: real)
    requires levels != [] && i <= |levels| && WalkSoFar(levels, q, i, filled, cost)
    requires i == |levels| || q - filled <= 0.0
    requires worst == levels[if i == 0 then 0 else i - 1].price
    ensures var avg, best := Average(cost, filled, levels[0].price), levels[0].price;
            Estimated(levels, side, q)
            == Estimate(side, q, avg, worst, SlipBps(avg, best), SlipCost(avg, best, filled), i,
                        q - filled <= 0.0, filled,
                        DepthOf(levels[..if i < |levels| then i + 1 else i]))
  {
    GreedyIdle(levels[i..], if q - filled <= 0.0 then q - filled else 0.0);
  }

  // ----- ordering more never gets a better average -----

  /** The facts about one walk that the estimate's prices and costs follow from, signed so that worse is larger. */
  ghost predicate WalkBounds(cost: real, filled: real, best: real, worst: real) {
    0.0 <= filled && best <= worst && Above(cost, filled, worst) <= 0.0 <= Above(cost, filled, best)
  }

  /** `Estimated` in signed terms: `s` is 1 for buys and -1 for sells. */
  lemma SignedEstimate(levels: seq<Level>, side: Side, q: real) returns (c: real, f: real, b: real, w: real)
    requires levels != [] && NonNegative(levels) && Ordered(side, levels)
    ensures WalkBounds(c, f, b, w)
    ensures f == Filled(levels, q)
    ensures c == Sign(side, Spent(levels, q)) && b == Sign(side, levels[0].price)
            && w == Sign(side, Marginal(levels, q))
  {
    f := Filled(levels, q);
    if side == Buy {
      AscendingBounds(levels, q);
      c, b, w := Spent(levels, q), levels[0].price, Marginal(levels, q);
    } else {
      DescendingBounds(levels, q);
      NegateAbove(Spent(levels, q), f, levels[0].price);
      NegateAbove(Spent(levels, q), f, Marginal(levels, q));
      c, b, w := -Spent(levels, q), -levels[0].price, -Marginal(levels, q);
    }
  }

  /** The average lies between the best and the worst price touched, and the cost is what the fill overpays. */
  lemma EstimateBounds(levels: seq<Level>, side: Side, q: real)
    requires levels != [] && NonNegative(levels) && Ordered(side, levels)
    ensures var e := Estimated(levels, side, q);
            && (side == Buy ==> levels[0].price <= e.avgFillPrice <= e.worstPrice)
            && (side == Sell ==> levels[0].price >= e.avgFillPrice >= e.worstPrice)
            && e.slippageCostUsd == Abs(Above(Spent(levels, q), Filled(levels, q), levels[0].price))
  {
    var c, f, b, w := SignedEstimate(levels, side, q);
    AverageBetween(c, f, b, w);
    SignedMeaning(levels, side, q);
    NegateAbove(Spent(levels, q), f, levels[0].price);
  }

  lemma BpsGrow(avg1: real, avg2: real, best: real)
    requires Abs(avg1 - best) <= Abs(avg2 - best)
    ensures SlipBps(avg1, best) <= SlipBps(avg2, best)
  {
    if best > 0.0 {
      var x, y := Abs(avg1 - best), Abs(avg2 - best);
      assert (y - x) / best >= 0.0;
      assert (y - x) / best == y / best - x / best;
    }
  }

  lemma LargerOrderPaysMore(levels: seq<Level>, side: Side, q1: real, q2: real)
    requires NonNegative(levels) && Ordered(side, levels)
    requires q1 <= q2
    ensures var e1, e2 := Estimated(levels, side, q1), Estimated(levels, side, q2);
            && (side == Buy ==> e1.avgFillPrice <= e2.avgFillPrice)
            && (side == Sell ==> e1.avgFillPrice >= e2.avgFillPrice)
            && e1.slippageBps <= e2.slippageBps
            && e1.slippageCostUsd <= e2.slippageCostUsd
  {
    if levels != [] {
      var c1, f1, b, w := SignedEstimate(levels, side, q1);
      var c2, f2, _, w2 := SignedEstimate(levels, side, q2);
      if side == Buy {
        AscendingGrowth(levels, q1, q2);
      } else {
        DescendingGrowth(levels, q1, q2);
        NegateAbove(Spent(levels, q1), f1, Marginal(levels, q1));
        NegateAbove(Spent(levels, q2), f2, Marginal(levels, q1));
      }
      SignedGrowth(c1, f1, c2, f2, b, w, w2);
      SignedMeaning(levels, side, q1);
      SignedMeaning(levels, side, q2);
      BpsGrow(Estimated(levels, side, q1).avgFillPrice, Estimated(levels, side, q2).avgFillPrice, levels[0].price);
    }
  }

  function Sign(side: Side, x: real): real { if side == Buy then x else -x }

  lemma SignedMeaning(levels: seq<Level>, side: Side, q: real)
    requires levels != []
    ensures var e := Estimated(levels, side, q);
            var b := Sign(side, levels[0].price);
            var a := Average(Sign(side, Spent(levels, q)), Filled(levels, q), b);
            && e.avgFillPrice == Sign(side, a)
            && Abs(e.avgFillPrice - levels[0].price) == Abs(a - b)
            && e.slippageCostUsd == SlipCost(a, b, Filled(levels, q))
  {
    NegateAverage(Spent(levels, q), Filled(levels, q), levels[0].price);
  }

  lemma SignedGrowth(c1: real, f1: real, c2: real, f2: real, b: real, w: real, w2: real)
    requires WalkBounds(c1, f1, b, w) && WalkBounds(c2, f2, b, w2) && f1 <= f2
    requires Above(c2, f2, w) >= Above(c1, f1, w)
    ensures b <= Average(c1, f1, b) <= Average(c2, f2, b)
    ensures SlipCost(Average(c1, f1, b), b, f1) <= SlipCost(Average(c2, f2, b), b, f2)
  {
    AverageGrows(c1, f1, c2, f2, b, w);
    AverageBetween(c1, f1, b, w);
    AverageBetween(c2, f2, b, w2);
  }

  // ----- feasibility -----

  /** Both legs against each other: gross spread less fees less the slippage of both legs. */
  function Simulate(buy: Estimate, sell: Estimate, q: real, fee: real): Simulation {
    var gross := sell.avgFillPrice - buy.avgFillPrice;
    var fees := (buy.avgFillPrice + sell.avgFillPrice) * q * fee;
    var slippage := buy.slippageCostUsd + sell.slippageCostUsd;
    var net := gross * q - fees - slippage;
    Simulation(
      buy.slippageBps + sell.slippageBps,
      slippage,
      if buy.avgFillPrice > 0.0 then gross / buy.avgFillPrice * 100.0 else 0.0,
      net > 0.0 && buy.fillable && sell.fillable)
  }

  lemma SimulationWrittenOut(buy: Estimate, sell: Estimate, q: real, fee: real)
    ensures var sim := Simulate(buy, sell, q, fee);
            && sim.totalSlippageBps == buy.slippageBps + sell.slippageBps
            && sim.totalSlippageCostUsd == buy.slippageCostUsd + sell.slippageCostUsd
            && (if buy.avgFillPrice > 0.0
                then sim.effectiveSpreadPercent * buy.avgFillPrice == (sell.avgFillPrice - buy.avgFillPrice) * 100.0
                else sim.effectiveSpreadPercent == 0.0)
            && (sim.feasible <==>
                && buy.fillable && sell.fillable
                && (sell.avgFillPrice - buy.avgFillPrice) * q - (buy.avgFillPrice + sell.avgFillPrice) * q * fee
                   - (buy.slippageCostUsd + sell.slippageCostUsd) > 0.0)
  {
    if buy.avgFillPrice > 0.0 {
      var gross, avg := sell.avgFillPrice - buy.avgFillPrice, buy.avgFillPrice;
      var x := gross / avg;
      assert x * avg == gross;
      assert x * 100.0 * avg == x * avg * 100.0;
    }
  }

  /** What the two walks leave after fees on both notionals. */
  function Gain(asks: seq<Level>, bids: seq<Level>, q: real, fee: real): real {
    var paid, earned := Spent(asks, q), Spent(bids, q);
    earned - paid - fee * (earned + paid)
  }

  function Slippage(asks: seq<Level>, bids: seq<Level>, q: real): real {
    Estimated(asks, Buy, q).slippageCostUsd + Estimated(bids, Sell, q).slippageCostUsd
  }

  function Verdict(asks: seq<Level>, bids: seq<Level>, q: real, fee: real): bool {
    Simulate(Estimated(asks, Buy, q), Estimated(bids, Sell, q), q, fee).feasible
  }

  lemma SlippageNonNegative(levels: seq<Level>, side: Side, q: real)
    requires Filled(levels, q) >= 0.0
    ensures Estimated(levels, side, q).slippageCostUsd >= 0.0
  {
    if levels != [] {
      ScaleSign(Filled(levels, q), Abs(Estimated(levels, side, q).avgFillPrice - levels[0].price));
    }
  }

  lemma NetIsGainLessSlippage(paid: real, earned: real, buy: real, sell: real, q: real, fee: real)
    requires buy * q == paid && sell * q == earned
    ensures (sell - buy) * q - (buy + sell) * q * fee == earned - paid - fee * (earned + paid)
  {
    assert (sell - buy) * q == sell * q - buy * q;
    assert (buy + sell) * q == buy * q + sell * q;
  }

  /** A fill of the whole request is priced at its average. */
  lemma FullFillAverage(levels: seq<Level>, side: Side, q: real)
    requires q >= 0.0 && levels != []
    ensures Estimated(levels, side, q).fillable <==> Filled(levels, q) == q
    ensures Filled(levels, q) == q ==> Estimated(levels, side, q).avgFillPrice * q == Spent(levels, q)
  {
    GreedyNeverOverfills(levels, q);
    if q == 0.0 {
      GreedyIdle(levels, q);
    } else if Filled(levels, q) == q {
      AverageTimesFilled(Spent(levels, q), q, levels[0].price);
    }
  }

  /**
   * The verdict on a non-negative request, exactly: both legs fill, and what the walks leave after fees exceeds the
   * slippage of both legs. The walks already pay that slippage, so it is counted a second time.
   */
  lemma FeasibleExactly(asks: seq<Level>, bids: seq<Level>, q: real, fee: real)
    requires q >= 0.0
    ensures Verdict(asks, bids, q, fee) <==>
            && asks != [] && bids != []
            && Filled(asks, q) == q && Filled(bids, q) == q
            && (var paid, earned := Spent(asks, q), Spent(bids, q);
                earned - paid - fee * (earned + paid)
                > Estimated(asks, Buy, q).slippageCostUsd + Estimated(bids, Sell, q).slippageCostUsd)
  {
    hide Filled, Spent, Marginal, Reached, VisitedUsd, Average, SlipCost, SlipBps;
    if asks != [] && bids != [] {
      FullFillAverage(asks, Buy, q);
      FullFillAverage(bids, Sell, q);
      var buy, sell := Estimated(asks, Buy, q).avgFillPrice, Estimated(bids, Sell, q).avgFillPrice;
      if Filled(asks, q) == q && Filled(bids, q) == q {
        NetIsGainLessSlippage(Spent(asks, q), Spent(bids, q), buy, sell, q, fee);
      }
    }
  }

  /** A feasible verdict is sound: both legs fill in full and the two walks make money after fees. */
  lemma FeasibleIsSound(asks: seq<Level>, bids: seq<Level>, q: real, fee: real)
    requires q >= 0.0
    requires Verdict(asks, bids, q, fee)
    ensures Filled(asks, q) == q && Filled(bids, q) == q
    ensures Gain(asks, bids, q, fee) > 0.0
    ensures Spent(bids, q) - Spent(asks, q) - fee * (Spent(bids, q) + Spent(asks, q)) > 0.0
  {
    FeasibleExactly(asks, bids, q, fee);
    SlippageNonNegative(asks, Buy, q);
    SlippageNonNegative(bids, Sell, q);
  }

  /** A profitable trade that the verdict turns down: it makes 3 after paying slippage of 7, and 3 is not above 7. */
  lemma FeasibleIsNotComplete()
    ensures var asks, bids := [Level(100.0, 1.0), Level(103.0, 1.0)], [Level(105.0, 1.0), Level(101.0, 1.0)];
            Gain(asks, bids, 2.0, 0.0) == 3.0 && Slippage(asks, bids, 2.0) == 7.0 && !Verdict(asks, bids, 2.0, 0.0)
  {
    var asks, bids := [Level(100.0, 1.0), Level(103.0, 1.0)], [Level(105.0, 1.0), Level(101.0, 1.0)];
    TwoLevelWalk(asks[0], asks[1]);
    TwoLevelWalk(bids[0], bids[1]);
    FeasibleExactly(asks, bids, 2.0, 0.0);
  }

  lemma TwoLevelWalk(l0: Level, l1: Level)
    requires l0.amount == 1.0 && l1.amount == 1.0
    ensures Filled([l0, l1], 2.0) == 2.0 && Spent([l0, l1], 2.0) == l0.price + l1.price
  {
    assert [l0, l1][1..] == [l1];
    assert Greedy([l1], 1.0) == [1.0];
    assert Greedy([l0, l1], 2.0) == [1.0, 1.0];
    assert [1.0, 1.0][1..] == [1.0];
    assert Cost([l1], [1.0]) == l1.price;
  }

  /** A negative request fills nothing and is called feasible exactly when the trade loses at the top of the books. */
  lemma NegativeRequest(asks: seq<Level>, bids: seq<Level>, q: real, fee: real)
    requires q < 0.0
    ensures Filled(asks, q) == 0.0 && Filled(bids, q) == 0.0
    ensures Verdict(asks, bids, q, fee) <==>
            && asks != [] && bids != []
            && bids[0].price - asks[0].price < (asks[0].price + bids[0].price) * fee
  {
    GreedyIdle(asks, q);
    GreedyIdle(bids, q);
    if asks != [] && bids != [] {
      var gross, fees := bids[0].price - asks[0].price, (asks[0].price + bids[0].price) * fee;
      assert (asks[0].price + bids[0].price) * q * fee == fees * q;
      assert gross * q - fees * q == (gross - fees) * q;
      ScaleSign(-q, gross - fees);
      if gross < fees {
        assert (gross - fees) * q > 0.0;
      }
    }
  }

  // ----- the analyzer -----

  function BookKey(exchange: string, symbol: string): string { exchange + ":" + symbol }

  datatype Entry = Entry(key: string, book: Book)

  function IndexOf(entries: seq<Entry>, key: string): (r: Option<nat>)
    ensures r.Some? ==> r.value < |entries| && entries[r.value].key == key
    ensures r.None? ==> forall i :: 0 <= i < |entries| ==> entries[i].key != key
  {
    if entries == [] then None
    else
      var n := |entries| - 1;
      if entries[n].key == key then Some(n) else IndexOf(entries[..n], key)
  }

  function LookUp(entries: seq<Entry>, key: string): Option<Book> {
    var i := IndexOf(entries, key);
    if i.None? then None else Some(entries[i.value].book)
  }

  lemma IndexOfDistinct(entries: seq<Entry>, i: nat)
    requires i < |entries|
    requires forall j, k :: 0 <= j < k < |entries| ==> entries[j].key != entries[k].key
    ensures IndexOf(entries, entries[i].key) == Some(i)
  {
  }

  /** What `EstimateSlippage` answers for a stored state. */
  function EstimateFor(entries: seq<Entry>, side: Side, exchange: string, symbol: string, q: real): Estimate {
    var ob := LookUp(entries, BookKey(exchange, symbol));
    if ob.None? then NoData(side, q) else Estimated(LevelsOf(ob.value, side), side, q)
  }

  /** An entry that `BestExchange` may propose. */
  predicate Eligible(entries: seq<Entry>, e: Entry, side: Side, symbol: string, q: real) {
    && EndsWith(e.key, ":" + symbol)
    && var est := EstimateFor(entries, side, e.book.exchange, symbol, q);
       est.fillable && est.avgFillPrice > 0.0
  }

  predicate EndsWith(s: string, suffix: string) {
    |suffix| <= |s| && s[|s| - |suffix|..] == suffix
  }

  class OrderBookAnalyzer {
    var entries: seq<Entry>  // in insertion order, as a JavaScript Map keeps them

    ghost predicate Valid()
      reads this
    {
      && (forall i, j :: 0 <= i < j < |entries| ==> entries[i].key != entries[j].key)
      && (forall i :: 0 <= i < |entries| ==>
            entries[i].key == BookKey(entries[i].book.exchange, entries[i].book.symbol))
    }

    constructor ()
      ensures Valid() && entries == []
    {
      entries := [];
    }

    method UpdateOrderBook(book: Book)
      requires Valid()
      modifies this
      ensures Valid()
      ensures LookUp(entries, BookKey(book.exchange, book.symbol)) == Some(book)
      ensures forall k :: k != BookKey(book.exchange, book.symbol) ==> LookUp(entries, k) == LookUp(old(entries), k)
    {
      var key := BookKey(book.exchange, book.symbol);
      var i := IndexOf(entries, key);
      if i.Some? {
        entries := entries[i.value := Entry(key, book)];
      } else {
        entries := entries + [Entry(key, book)];
      }
      IndexOfDistinct(entries, if i.Some? then i.value else |entries| - 1);
      forall k | k != key
        ensures LookUp(entries, k) == LookUp(old(entries), k)
      {
        var was := IndexOf(old(entries), k);
        if was.Some? {
          assert entries[was.value].key == k;
          IndexOfDistinct(entries, was.value);
        }
      }
    }

    /** The walk itself. */
    method EstimateSlippage(exchange: string, symbol: string, q: real, side: Side) returns (est: Estimate)
      requires Valid()
      ensures est == EstimateFor(entries, side, exchange, symbol, q)
    {
      var ob := LookUp(entries, BookKey(exchange, symbol));
      if ob.None? {
        return NoData(side, q);
      }
      est := WalkLevels(LevelsOf(ob.value, side), q, side);
    }

    static method WalkLevels(levels: seq<Level>, q: real, side: Side) returns (est: Estimate)
      ensures est == Estimated(levels, side, q)
    {
      if |levels| == 0 {
        return NoData(side, q);
      }
      var bestPrice := levels[0].price;
      var remaining, totalCost, filled, consumed, worstPrice, depth := q, 0.0, 0.0, 0, bestPrice, 0.0;
      var i := 0;
      hide Estimated, DepthOf, WalkSoFar, SlipBps, SlipCost, Average, Min, Times, Notional;
      WalkStart(levels, q);
      while i < |levels|
        invariant 0 <= i <= |levels|
        invariant consumed == i && remaining == q - filled
        invariant WalkSoFar(levels, q, i, filled, totalCost)
        invariant worstPrice == levels[if i == 0 then 0 else i - 1].price
        invariant depth == DepthOf(levels[..i])
      {
        var level := levels[i];
        DepthSnoc(levels, i);
        depth := depth + Notional(level);
        if remaining <= 0.0 {
          break;
        }
        var fillAtLevel := Min(remaining, level.amount);
        WalkOn(levels, q, i, filled, totalCost, fillAtLevel, Times(fillAtLevel, level.price));
        totalCost := totalCost + Times(fillAtLevel, level.price);
        filled := filled + fillAtLevel;
        remaining := remaining - fillAtLevel;
        consumed := consumed + 1;
        worstPrice := level.price;
        i := i + 1;
      }
      assert levels[..|levels|] == levels;
      WalkEnds(levels, side, q, i, filled, totalCost, worstPrice);
      var avg := Average(totalCost, filled, bestPrice);
      est := Estimate(side, q, avg, worstPrice, SlipBps(avg, bestPrice), SlipCost(avg, bestPrice, filled),
                      consumed, remaining <= 0.0, filled, depth);
    }

    method SimulateArbitrageFill(buyExchange: string, sellExchange: string, symbol: string, q: real, fee: real)
      returns (buy: Estimate, sell: Estimate, sim: Simulation)
      requires Valid()
      ensures buy == EstimateFor(entries, Buy, buyExchange, symbol, q)
      ensures sell == EstimateFor(entries, Sell, sellExchange, symbol, q)
      ensures sim == Simulate(buy, sell, q, fee)
      ensures q >= 0.0 && sim.feasible ==>
              var b := LookUp(entries, BookKey(buyExchange, symbol));
              var s := LookUp(entries, BookKey(sellExchange, symbol));
              && b.Some? && s.Some?
              && Filled(b.value.asks, q) == q && Filled(s.value.bids, q) == q
              && Gain(b.value.asks, s.value.bids, q, fee) > 0.0
    {
      buy := EstimateSlippage(buyExchange, symbol, q, Buy);
      sell := EstimateSlippage(sellExchange, symbol, q, Sell);
      sim := Simulate(buy, sell, q, fee);
      ghost var b := LookUp(entries, BookKey(buyExchange, symbol));
      ghost var s := LookUp(entries, BookKey(sellExchange, symbol));
      if q >= 0.0 && sim.feasible {
        FeasibleIsSound(b.value.asks, s.value.bids, q, fee);
      }
    }

    /** The cheapest exchange to buy on, or the dearest to sell on, among those that can fill the request. */
    method BestExchange(side: Side, symbol: string, q: real) returns (best: Option<Candidate>)
      requires Valid()
      ensures IsBest(entries, side, symbol, q, best)
    {
      var candidates: seq<Candidate> := [];
      var i := 0;
      while i < |entries|
        invariant 0 <= i <= |entries|
        invariant candidates == Proposed(entries, entries[..i], side, symbol, q)
      {
        var e := entries[i];
        assert entries[..i + 1][..i] == entries[..i];
        if EndsWith(e.key, ":" + symbol) {
          var est := EstimateSlippage(e.book.exchange, symbol, q, side);
          if est.fillable && est.avgFillPrice > 0.0 {
            candidates := candidates + [Candidate(e.book.exchange, est.avgFillPrice, est.slippageBps)];
          }
        }
        i := i + 1;
      }
      assert entries[..|entries|] == entries;
      ChosenIsBest(entries, side, symbol, q);
      best := if |candidates| == 0 then None else Some(SortOn(candidates, c => SortKey(side, c))[0]);
    }
  }

  /**
   * Nothing is chosen exactly when nothing is eligible; what is chosen is eligible and no worse than anything eligible.
   */
  ghost predicate IsBest(entries: seq<Entry>, side: Side, symbol: string, q: real, best: Option<Candidate>) {
    && (best.None? <==> forall e :: e in entries ==> !Eligible(entries, e, side, symbol, q))
    && (best.Some? ==>
          && (exists e :: && e in entries && Eligible(entries, e, side, symbol, q)
                          && best.value == CandidateOf(entries, e, side, symbol, q))
          && (forall e :: e in entries && Eligible(entries, e, side, symbol, q) ==>
                NoWorse(side, best.value, CandidateOf(entries, e, side, symbol, q))))
  }

  /** What may be chosen, what is then reported, and what is no worse, written out. */
  lemma ChoiceWrittenOut(entries: seq<Entry>, e: Entry, side: Side, symbol: string, q: real, a: Candidate, b: Candidate)
    ensures var est := EstimateFor(entries, side, e.book.exchange, symbol, q);
            && (Eligible(entries, e, side, symbol, q) <==>
                  && (exists name: string :: e.key == name + ":" + symbol)
                  && est.fillable && est.avgFillPrice > 0.0)
            && CandidateOf(entries, e, side, symbol, q)
               == Candidate(e.book.exchange, est.avgFillPrice, est.slippageBps)
    ensures side == Buy ==> (NoWorse(side, a, b) <==> a.avgPrice <= b.avgPrice)
    ensures side == Sell ==> (NoWorse(side, a, b) <==> a.avgPrice >= b.avgPrice)
  {
    hide EstimateFor;
    var suffix := ":" + symbol;
    if EndsWith(e.key, suffix) {
      var name := e.key[..|e.key| - |suffix|];
      assert e.key == name + suffix == name + ":" + symbol;
    }
    if name: string :| e.key == name + ":" + symbol {
      assert e.key == name + suffix;
    }
  }

  function SortKey(side: Side, c: Candidate): real { if side == Buy then c.avgPrice else -c.avgPrice }

  lemma ChosenIsBest(entries: seq<Entry>, side: Side, symbol: string, q: real)
    ensures var cs := Proposed(entries, entries, side, symbol, q);
            IsBest(entries, side, symbol, q, if |cs| == 0 then None else Some(SortOn(cs, c => SortKey(side, c))[0]))
  {
    hide SortOn, Proposed, Eligible, CandidateOf;
    var cs := Proposed(entries, entries, side, symbol, q);
    ProposedContent(entries, entries, side, symbol, q);
    if |cs| > 0 {
      SortedHead(cs, c => SortKey(side, c));
      assert cs[0] in cs;
    }
  }

  /** The candidates among `es`, in order. */
  function Proposed(entries: seq<Entry>, es: seq<Entry>, side: Side, symbol: string, q: real): seq<Candidate> {
    if es == [] then []
    else
      var init, e := Proposed(entries, es[..|es| - 1], side, symbol, q), es[|es| - 1];
      if Eligible(entries, e, side, symbol, q) then init + [CandidateOf(entries, e, side, symbol, q)] else init
  }

  lemma {:induction false} ProposedContent(entries: seq<Entry>, es: seq<Entry>, side: Side, symbol: string, q: real)
    ensures forall e :: e in es && Eligible(entries, e, side, symbol, q) ==>
              CandidateOf(entries, e, side, symbol, q) in Proposed(entries, es, side, symbol, q)
    ensures forall c :: c in Proposed(entries, es, side, symbol, q) ==>
              exists e :: e in es && Eligible(entries, e, side, symbol, q)
                  && c == CandidateOf(entries, e, side, symbol, q)
  {
    if es != [] {
      ProposedContent(entries, es[..|es| - 1], side, symbol, q);
    }
  }

  predicate NoWorse(side: Side, a: Candidate, b: Candidate) {
    if side == Buy then a.avgPrice <= b.avgPrice else a.avgPrice >= b.avgPrice
  }

  function CandidateOf(entries: seq<Entry>, e: Entry, side: Side, symbol: string, q: real): Candidate {
    var est := EstimateFor(entries, side, e.book.exchange, symbol, q);
    Candidate(e.book.exchange, est.avgFillPrice, est.slippageBps)
  }
}
