/** Replaying price snapshots: the best pair of a snapshot, the trades a run makes, and the metrics over them. */
module Backtesting {
  import opened Wrappers
  import opened Stats

  datatype PricePoint = PricePoint(exchange: string, price: real)

  datatype Snapshot = Snapshot(symbol: string, timestamp: int, prices: seq<PricePoint>)

  datatype Config = Config(
    initialCapitalUsd: real,
    positionSizeUsd: real,
    minSpreadPercent: real,
    slippageBps: real,
    cooldownMs: int,
    maxDailyLossUsd: real,
    useFeeCalculator: bool,
    flatFeeRate: real)

  datatype Opportunity = Opportunity(
    buyExchange: string,
    sellExchange: string,
    buyPrice: real,
    sellPrice: real,
    spreadPercent: real)

  // ----- the best pair of a snapshot -----

  function Spread(a: real, b: real): real
    requires a > 0.0 && b > 0.0
  {
    Abs(a - b) / Min(a, b) * 100.0
  }

  lemma SpreadIsSymmetric(a: real, b: real)
    requires a > 0.0 && b > 0.0
    ensures Spread(a, b) == Spread(b, a) && Spread(a, b) >= 0.0
    ensures Spread(a, b) > 0.0 <==> a != b
  {
    var m, d := Min(a, b), Abs(a - b);
    var q := d / m;
    assert q * m == d;
  }

  /** A cheaper purchase or a dearer sale widens the spread. */
  lemma SpreadWidens(lo: real, buy: real, sell: real, hi: real)
    requires 0.0 < lo <= buy <= sell <= hi
    ensures Spread(buy, sell) <= Spread(lo, hi)
    ensures (lo < buy && buy < sell) || (sell < hi) ==> Spread(buy, sell) < Spread(lo, hi)
  {
    var x, y := sell / buy, hi / lo;
    assert x * buy == sell && y * lo == hi;
    RatioIsExcess(buy, sell);
    RatioIsExcess(lo, hi);
    RatioOrder(lo, buy, sell, hi);
  }

  lemma RatioIsExcess(buy: real, sell: real)
    requires 0.0 < buy <= sell
    ensures Spread(buy, sell) == (sell / buy - 1.0) * 100.0
  {
    SpreadOf(buy, sell);
    assert (sell - buy) / buy == sell / buy - buy / buy;
    assert buy / buy == 1.0;
  }

  lemma RatioOrder(lo: real, buy: real, sell: real, hi: real)
    requires 0.0 < lo <= buy <= sell <= hi
    ensures sell / buy <= hi / lo
    ensures (lo < buy && buy < sell) || (sell < hi) ==> sell / buy < hi / lo
  {
    var x, y := sell / buy, hi / lo;
    if x >= y {
      assert x * buy == sell && y * lo == hi;
      assert (x - y) * lo >= 0.0;
      assert x * lo >= hi;
      assert x * (buy - lo) >= 0.0;
      assert x * buy >= hi;
    }
  }

  /** The lowest positive price, or zero if there is none. */
  function Lowest(prices: seq<PricePoint>): real {
    if prices == [] then 0.0
    else
      var lo, p := Lowest(prices[..|prices| - 1]), prices[|prices| - 1].price;
      if p > 0.0 && (lo == 0.0 || p < lo) then p else lo
  }

  function Highest(prices: seq<PricePoint>): real {
    if prices == [] then 0.0 else Max(Highest(prices[..|prices| - 1]), prices[|prices| - 1].price)
  }

  lemma {:induction false} LowestIsLowest(prices: seq<PricePoint>)
    ensures Lowest(prices) >= 0.0
    ensures Lowest(prices) == 0.0 <==> forall i :: 0 <= i < |prices| ==> prices[i].price <= 0.0
    ensures forall i :: 0 <= i < |prices| && prices[i].price > 0.0 ==> Lowest(prices) <= prices[i].price
    ensures Lowest(prices) > 0.0 ==> exists i :: 0 <= i < |prices| && prices[i].price == Lowest(prices)
  {
    if prices != [] {
      var init := prices[..|prices| - 1];
      LowestIsLowest(init);
      assert forall i :: 0 <= i < |init| ==> init[i] == prices[i];
      if Lowest(prices) != prices[|prices| - 1].price && Lowest(prices) > 0.0 {
        var i :| 0 <= i < |init| && init[i].price == Lowest(init);
        assert prices[i].price == Lowest(prices);
      }
    }
  }

  lemma {:induction false} HighestIsHighest(prices: seq<PricePoint>)
    ensures Highest(prices) >= 0.0
    ensures forall i :: 0 <= i < |prices| ==> prices[i].price <= Highest(prices)
    ensures Highest(prices) > 0.0 ==> exists i :: 0 <= i < |prices| && prices[i].price == Highest(prices)
  {
    if prices != [] {
      var init := prices[..|prices| - 1];
      HighestIsHighest(init);
      assert forall i :: 0 <= i < |init| ==> init[i] == prices[i];
      if Highest(prices) != prices[|prices| - 1].price && Highest(prices) > 0.0 {
        var i :| 0 <= i < |init| && init[i].price == Highest(init);
        assert prices[i].price == Highest(prices);
      }
    }
  }

  /** `o` buys at one listed positive price and sells at a higher one. */
  ghost predicate Listed(prices: seq<PricePoint>, o: Opportunity) {
    && 0.0 < o.buyPrice < o.sellPrice
    && (exists i :: 0 <= i < |prices| && prices[i] == PricePoint(o.buyExchange, o.buyPrice))
    && (exists j :: 0 <= j < |prices| && prices[j] == PricePoint(o.sellExchange, o.sellPrice))
    && o.spreadPercent == Spread(o.buyPrice, o.sellPrice)
  }

  /** The pair (i, j) offers no more than `best`. */
  ghost predicate NoBetter(prices: seq<PricePoint>, i: int, j: int, best: real)
    requires 0 <= i < |prices| && 0 <= j < |prices|
  {
    prices[i].price > 0.0 && prices[j].price > 0.0 ==> Spread(prices[i].price, prices[j].price) <= best
  }

  /** Every pair that the double loop has seen when it reaches (i, j). */
  ghost predicate SeenNoBetter(prices: seq<PricePoint>, i: int, j: int, best: real)
  {
    forall a, b :: 0 <= a < b < |prices| && (a < i || (a == i && b < j)) ==> NoBetter(prices, a, b, best)
  }

  /**
   * What the double loop finds is the pair of extremes, and it finds nothing only when all positive prices are equal.
   */
  lemma BestIsTheExtremes(prices: seq<PricePoint>, best: Option<Opportunity>)
    requires SeenNoBetter(prices, |prices|, 0, if best.Some? then best.value.spreadPercent else 0.0)
    requires best.Some? ==> Listed(prices, best.value)
    ensures best.Some? <==> 0.0 < Lowest(prices) < Highest(prices)
    ensures best.Some? ==> && best.value.buyPrice == Lowest(prices) && best.value.sellPrice == Highest(prices)
                           && best.value.spreadPercent == (Highest(prices) - Lowest(prices)) / Lowest(prices) * 100.0
  {
    hide Spread, Lowest, Highest;
    LowestIsLowest(prices);
    HighestIsHighest(prices);
    var lo, hi := Lowest(prices), Highest(prices);
    if 0.0 < lo < hi {
      var i :| 0 <= i < |prices| && prices[i].price == lo;
      var j :| 0 <= j < |prices| && prices[j].price == hi;
      SpreadIsSymmetric(lo, hi);
      assert NoBetter(prices, if i < j then i else j, if i < j then j else i,
                      if best.Some? then best.value.spreadPercent else 0.0);
    }
    if best.Some? {
      SpreadWidens(lo, best.value.buyPrice, best.value.sellPrice, hi);
      SpreadOf(lo, hi);
    }
  }

  lemma SpreadOf(lo: real, hi: real)
    requires 0.0 < lo <= hi
    ensures Spread(lo, hi) == (hi - lo) / lo * 100.0
  {
  }

  method FindBestOpportunity(prices: seq<PricePoint>) returns (best: Option<Opportunity>)
    ensures best.Some? <==> 0.0 < Lowest(prices) < Highest(prices)
    ensures best.Some? ==> Listed(prices, best.value)
    ensures best.Some? ==> best.value.buyPrice == Lowest(prices) && best.value.sellPrice == Highest(prices)
    ensures best.Some? ==> best.value.spreadPercent == (Highest(prices) - Lowest(prices)) / Lowest(prices) * 100.0
  {
    hide Spread, Lowest, Highest;
    best := None;
    var bestSpread := 0.0;
    var i := 0;
    while i < |prices|
      invariant 0 <= i <= |prices|
      invariant bestSpread == (if best.Some? then best.value.spreadPercent else 0.0)
      invariant best.Some? ==> Listed(prices, best.value)
      invariant SeenNoBetter(prices, i, 0, bestSpread)
    {
      var j := i + 1;
      while j < |prices|
        invariant i + 1 <= j <= |prices|
        invariant bestSpread == (if best.Some? then best.value.spreadPercent else 0.0)
        invariant best.Some? ==> Listed(prices, best.value)
        invariant SeenNoBetter(prices, i, j, bestSpread)
      {
        var a, b := prices[i], prices[j];
        if a.price > 0.0 && b.price > 0.0 {
          SpreadIsSymmetric(a.price, b.price);
          var spread := Spread(a.price, b.price);
          if spread > bestSpread {
            var buy, sell := if a.price < b.price then a else b, if a.price < b.price then b else a;
            ListedSpread(best);
            bestSpread := spread;
            best := Some(Opportunity(buy.exchange, sell.exchange, buy.price, sell.price, spread));
          }
        }
        j := j + 1;
      }
      i := i + 1;
    }
    BestIsTheExtremes(prices, best);
  }

  lemma ListedSpread(best: Option<Opportunity>)
    requires best.Some? ==> 0.0 < best.value.buyPrice < best.value.sellPrice
                            && best.value.spreadPercent == Spread(best.value.buyPrice, best.value.sellPrice)
    ensures best.Some? ==> best.value.spreadPercent > 0.0
  {
    if best.Some? {
      SpreadIsSymmetric(best.value.buyPrice, best.value.sellPrice);
    }
  }

  // ----- the run -----

  /** The figures of a trade. */
  datatype Fill = Fill(
    timestamp: int,
    buyPrice: real,
    sellPrice: real,
    amount: real,
    grossProfitUsd: real,
    feesUsd: real,
    slippageCostUsd: real,
    netProfitUsd: real,
    equityAfter: real)

  datatype Trade = Trade(id: nat, symbol: string, buyExchange: string, sellExchange: string, fill: Fill)

  datatype EquityPoint = EquityPoint(timestamp: int, equity: real, drawdownPercent: real)

  function NetOf(f: Fill): real { f.netProfitUsd }

  function FillOf(t: Trade): Fill { t.fill }

  function TimeOf(s: Snapshot): real { s.timestamp as real }

  /** Equity, the time of the last trade, and the trades so far. */
  datatype Books = Books(equity: real, lastTradeTime: int, fills: seq<Fill>)

  /** The trade a snapshot gives rise to, told by its price extremes; `calculated` is the fee calculator's answer. */
  function Decide(cfg: Config, snap: Snapshot, calculated: real, b: Books): Option<Fill> {
    var lo, hi := Lowest(snap.prices), Highest(snap.prices);
    if |snap.prices| < 2 || snap.timestamp - b.lastTradeTime < cfg.cooldownMs || !(0.0 < lo < hi) then None
    else if (hi - lo) / lo * 100.0 < cfg.minSpreadPercent || b.equity < cfg.positionSizeUsd then None
    else
      var amount := cfg.positionSizeUsd / lo;
      var fees := if cfg.useFeeCalculator then calculated else cfg.positionSizeUsd * cfg.flatFeeRate * 2.0;
      var slippage := cfg.positionSizeUsd * (cfg.slippageBps / 10000.0) * 2.0;
      var gross := (hi - lo) * amount;
      var net := gross - fees - slippage;
      if net <= 0.0 then None
      else Some(Fill(snap.timestamp, lo, hi, amount, gross, fees, slippage, net, b.equity + net))
  }

  /** When a snapshot is traded on, and every figure of the trade, written out. */
  lemma DecideWrittenOut(cfg: Config, snap: Snapshot, calculated: real, b: Books)
    ensures var f, lo, hi := Decide(cfg, snap, calculated, b), Lowest(snap.prices), Highest(snap.prices);
            var fees := if cfg.useFeeCalculator then calculated else 2.0 * cfg.flatFeeRate * cfg.positionSizeUsd;
            var slippage := 2.0 * cfg.slippageBps * cfg.positionSizeUsd / 10000.0;
            && (f.Some? <==>
                  && |snap.prices| >= 2 && snap.timestamp - b.lastTradeTime >= cfg.cooldownMs
                  && 0.0 < lo < hi && 100.0 * (hi - lo) / lo >= cfg.minSpreadPercent
                  && b.equity >= cfg.positionSizeUsd
                  && (hi - lo) * (cfg.positionSizeUsd / lo) - fees - slippage > 0.0)
            && (f.Some? ==>
                  && f.value.timestamp == snap.timestamp && f.value.buyPrice == lo && f.value.sellPrice == hi
                  && f.value.amount * lo == cfg.positionSizeUsd
                  && f.value.grossProfitUsd == (hi - lo) * f.value.amount
                  && f.value.feesUsd == fees && f.value.slippageCostUsd == slippage
                  && f.value.netProfitUsd == f.value.grossProfitUsd - f.value.feesUsd - f.value.slippageCostUsd
                  && f.value.equityAfter == b.equity + f.value.netProfitUsd)
  {
    hide Lowest, Highest;
    var p := cfg.positionSizeUsd;
    assert p * cfg.flatFeeRate * 2.0 == 2.0 * cfg.flatFeeRate * p;
    SlippageOf(p, cfg.slippageBps);
    var lo, hi := Lowest(snap.prices), Highest(snap.prices);
    if lo > 0.0 {
      var amount := p / lo;
      assert amount * lo == p;
      PercentOf(hi - lo, lo);
    }
  }

  lemma SlippageOf(p: real, bps: real)
    ensures p * (bps / 10000.0) * 2.0 == 2.0 * bps * p / 10000.0
  {
  }

  lemma PercentOf(d: real, lo: real)
    requires lo > 0.0
    ensures d / lo * 100.0 == 100.0 * d / lo
  {
    var x := d / lo;
    assert x * lo == d;
    assert (x * 100.0) * lo == 100.0 * d;
  }

  function Apply(b: Books, f: Option<Fill>): Books {
    if f.None? then b else Books(f.value.equityAfter, f.value.timestamp, b.fills + [f.value])
  }

  /** The books after `n` snapshots when no daily limit is in force. */
  function Replay(cfg: Config, snaps: seq<Snapshot>, calculated: seq<real>, n: nat): Books
    requires n <= |snaps| && n <= |calculated|
  {
    if n == 0 then Books(cfg.initialCapitalUsd, 0, [])
    else
      var b := Replay(cfg, snaps, calculated, n - 1);
      Apply(b, Decide(cfg, snaps[n - 1], calculated[n - 1], b))
  }

  // ----- properties of every replay -----

  /** Each trade makes money, and equity after it is the capital plus everything made so far. */
  ghost predicate Profitable(capital: real, fills: seq<Fill>) {
    forall k :: 0 <= k < |fills| ==>
      fills[k].netProfitUsd > 0.0 && fills[k].equityAfter == capital + Sum(Map(fills[..k + 1], NetOf))
  }

  lemma ProfitableSnoc(capital: real, fills: seq<Fill>, f: Fill)
    requires Profitable(capital, fills) && f.netProfitUsd > 0.0
    requires f.equityAfter == capital + Sum(Map(fills, NetOf)) + f.netProfitUsd
    ensures Profitable(capital, fills + [f])
    ensures Sum(Map(fills + [f], NetOf)) == Sum(Map(fills, NetOf)) + f.netProfitUsd
  {
    MapSnoc(fills, f, NetOf);
    SumSnoc(Map(fills, NetOf), f.netProfitUsd);
    forall k | 0 <= k < |fills + [f]|
      ensures (fills + [f])[k].equityAfter == capital + Sum(Map((fills + [f])[..k + 1], NetOf))
    {
      if k < |fills| {
        assert (fills + [f])[..k + 1] == fills[..k + 1];
      } else {
        assert (fills + [f])[..k + 1] == fills + [f];
      }
    }
  }

  lemma {:induction false} ReplayEarns(cfg: Config, snaps: seq<Snapshot>, calculated: seq<real>, n: nat)
    requires n <= |snaps| && n <= |calculated|
    ensures var b := Replay(cfg, snaps, calculated, n);
            Profitable(cfg.initialCapitalUsd, b.fills) && b.equity == cfg.initialCapitalUsd + Sum(Map(b.fills, NetOf))
  {
    hide Profitable, Decide;
    if n == 0 {
      NothingEarned(cfg.initialCapitalUsd);
    } else {
      ReplayEarns(cfg, snaps, calculated, n - 1);
      var b := Replay(cfg, snaps, calculated, n - 1);
      var f := Decide(cfg, snaps[n - 1], calculated[n - 1], b);
      DecideFacts(cfg, snaps[n - 1], calculated[n - 1], b);
      if f.Some? {
        ProfitableSnoc(cfg.initialCapitalUsd, b.fills, f.value);
      }
    }
  }

  lemma NothingEarned(capital: real)
    ensures Profitable(capital, []) && Sum(Map([], NetOf)) == 0.0
  {
  }

  lemma DecideFacts(cfg: Config, snap: Snapshot, calculated: real, b: Books)
    ensures var f := Decide(cfg, snap, calculated, b);
            f.Some? ==> && f.value.netProfitUsd > 0.0
                        && f.value.equityAfter == b.equity + f.value.netProfitUsd
                        && f.value.timestamp == snap.timestamp
                        && snap.timestamp - b.lastTradeTime >= cfg.cooldownMs
  {
  }

  /** Equity rises from every trade to the next, starting from the initial capital. */
  lemma EquityRises(capital: real, fills: seq<Fill>, k: nat)
    requires Profitable(capital, fills) && k < |fills|
    ensures fills[k].equityAfter > if k == 0 then capital else fills[k - 1].equityAfter
  {
    assert fills[..k + 1] == fills[..k] + [fills[k]];
    MapSnoc(fills[..k], fills[k], NetOf);
    SumSnoc(Map(fills[..k], NetOf), fills[k].netProfitUsd);
    if k == 0 {
      assert Map(fills[..0], NetOf) == [];
    } else {
      assert fills[..(k - 1) + 1] == fills[..k];
    }
  }

  /** Trades keep the cooldown between them; the first keeps it from time zero. */
  lemma {:induction false} CooldownIsKept(cfg: Config, snaps: seq<Snapshot>, calculated: seq<real>, n: nat)
    requires n <= |snaps| && n <= |calculated|
    ensures var b := Replay(cfg, snaps, calculated, n);
            && (forall k :: 1 <= k < |b.fills| ==> b.fills[k].timestamp - b.fills[k - 1].timestamp >= cfg.cooldownMs)
            && (b.fills != [] ==> b.fills[0].timestamp >= cfg.cooldownMs)
            && b.lastTradeTime == (if b.fills == [] then 0 else b.fills[|b.fills| - 1].timestamp)
  {
    hide Decide;
    if n > 0 {
      CooldownIsKept(cfg, snaps, calculated, n - 1);
      DecideFacts(cfg, snaps[n - 1], calculated[n - 1], Replay(cfg, snaps, calculated, n - 1));
    }
  }

  // ----- the loop -----

  /** The listing of `t` in its snapshot. */
  ghost predicate Quoted(snap: Snapshot, t: Trade) {
    && t.symbol == snap.symbol && t.fill.timestamp == snap.timestamp
    && PricePoint(t.buyExchange, t.fill.buyPrice) in snap.prices
    && PricePoint(t.sellExchange, t.fill.sellPrice) in snap.prices
  }

  /** Curve points for the capital and for every fill, none of them in drawdown. */
  function CurveOf(start: EquityPoint, fills: seq<Fill>): seq<EquityPoint> {
    if fills == [] then [start]
    else
      var f := fills[|fills| - 1];
      CurveOf(start, fills[..|fills| - 1]) + [EquityPoint(f.timestamp, f.equityAfter, 0.0)]
  }

  lemma CurveSnoc(start: EquityPoint, fills: seq<Fill>, f: Fill)
    ensures CurveOf(start, fills + [f]) == CurveOf(start, fills) + [EquityPoint(f.timestamp, f.equityAfter, 0.0)]
  {
    assert (fills + [f])[..|fills|] == fills;
  }

  lemma ProfitableBefore(capital: real, fills: seq<Fill>, n: nat)
    requires Profitable(capital, fills) && n <= |fills|
    ensures Profitable(capital, fills[..n])
  {
    forall k | 0 <= k < n
      ensures fills[..n][k].equityAfter == capital + Sum(Map(fills[..n][..k + 1], NetOf))
    {
      assert fills[..n][..k + 1] == fills[..k + 1];
    }
  }

  /** The equity curve rises from every point to every later one. */
  lemma {:induction false} CurveRises(start: EquityPoint, fills: seq<Fill>)
    requires Profitable(start.equity, fills)
    ensures var curve := CurveOf(start, fills);
            && |curve| == |fills| + 1
            && curve[|fills|].equity == (if fills == [] then start.equity else fills[|fills| - 1].equityAfter)
            && curve[0] == start
            && (forall k :: 0 < k < |curve| ==>
                  curve[k] == EquityPoint(fills[k - 1].timestamp, fills[k - 1].equityAfter, 0.0))
            && forall i, j :: 0 <= i < j < |curve| ==> curve[i].equity < curve[j].equity
  {
    hide Profitable;
    if fills != [] {
      var n := |fills| - 1;
      ProfitableBefore(start.equity, fills, n);
      CurveRises(start, fills[..n]);
      EquityRises(start.equity, fills, n);
    }
  }

  /** The snapshots are replayed in the order of their timestamps. */
  lemma SortedByTime(snapshots: seq<Snapshot>)
    ensures var sorted := SortOn(snapshots, TimeOf);
            && multiset(sorted) == multiset(snapshots)
            && forall i, j :: 0 <= i < j < |sorted| ==> sorted[i].timestamp <= sorted[j].timestamp
  {
    SortOnSorts(snapshots, TimeOf);
    hide SortOn;
    var sorted := SortOn(snapshots, TimeOf);
    assert forall i, j :: 0 <= i < j < |sorted| ==> TimeOf(sorted[i]) <= TimeOf(sorted[j]);
  }

  /** One pass over a snapshot; `calculated` is what the fee calculator answers for it. */
  method TradeOn(cfg: Config, snap: Snapshot, calculated: real, equity: real, lastTradeTime: int, tradeId: nat,
                 ghost fills: seq<Fill>)
    returns (trade: Option<Trade>)
    requires |snap.prices| >= 2
    ensures trade.Some? <==> Decide(cfg, snap, calculated, Books(equity, lastTradeTime, fills)).Some?
    ensures trade.Some? ==>
            && trade.value.fill == Decide(cfg, snap, calculated, Books(equity, lastTradeTime, fills)).value
            && trade.value.id == tradeId + 1 && Quoted(snap, trade.value)
  {
    hide Spread, Lowest, Highest;
    if snap.timestamp - lastTradeTime < cfg.cooldownMs {
      return None;
    }
    var opp := FindBestOpportunity(snap.prices);
    if opp.None? {
      return None;
    }
    var o := opp.value;
    if o.spreadPercent < cfg.minSpreadPercent || equity < cfg.positionSizeUsd {
      return None;
    }
    var positionSize := Min(cfg.positionSizeUsd, equity);
    var amount := positionSize / o.buyPrice;
    var feesUsd := if cfg.useFeeCalculator then calculated else positionSize * cfg.flatFeeRate * 2.0;
    var slippageCostUsd := positionSize * (cfg.slippageBps / 10000.0) * 2.0;
    var grossProfitUsd := (o.sellPrice - o.buyPrice) * amount;
    var netProfitUsd := grossProfitUsd - feesUsd - slippageCostUsd;
    if netProfitUsd <= 0.0 {
      return None;
    }
    trade := Some(Trade(tradeId + 1, snap.symbol, o.buyExchange, o.sellExchange,
                        Fill(snap.timestamp, o.buyPrice, o.sellPrice, amount, grossProfitUsd, feesUsd, slippageCostUsd,
                             netProfitUsd, equity + netProfitUsd)));
  }

  function FloorDay(timestamp: int): int { timestamp / 86400000 }

  /**
   * The whole backtest. A positive daily limit never bites, since every booked trade gains; a limit of zero or less
   * blocks every trade.
   */
  method Run(cfg: Config, snapshots: seq<Snapshot>, calculated: seq<real>)
    returns (trades: seq<Trade>, curve: seq<EquityPoint>, maxDrawdownPercent: real, finalEquity: real)
    requires |calculated| == |snapshots|
    ensures maxDrawdownPercent == 0.0
    ensures snapshots == [] ==> trades == [] && curve == []
    ensures snapshots != [] ==>
            var sorted := SortOn(snapshots, TimeOf);
            var fills := if cfg.maxDailyLossUsd > 0.0 then Replay(cfg, sorted, calculated, |sorted|).fills else [];
            && Map(trades, FillOf) == fills
            && curve == CurveOf(EquityPoint(sorted[0].timestamp, cfg.initialCapitalUsd, 0.0), fills)
            && finalEquity == cfg.initialCapitalUsd + Sum(Map(fills, NetOf))
    ensures forall i, j :: 0 <= i < j < |curve| ==> curve[i].equity < curve[j].equity
    ensures forall k :: 0 <= k < |trades| ==> trades[k].id == k + 1
    ensures forall k :: 0 <= k < |trades| ==>
              exists i :: 0 <= i < |snapshots| && Quoted(SortOn(snapshots, TimeOf)[i], trades[k])
  {
    hide Replay, Decide, CurveOf, Quoted, SortOn, Sum, Profitable;
    trades, curve, maxDrawdownPercent, finalEquity := [], [], 0.0, cfg.initialCapitalUsd;
    if |snapshots| == 0 {
      return;
    }
    var sorted := SortOn(snapshots, TimeOf);
    var equity, peakEquity, dailyPnL := cfg.initialCapitalUsd, cfg.initialCapitalUsd, 0.0;
    var lastTradeDay, lastTradeTime := -1, 0;
    var start := EquityPoint(sorted[0].timestamp, equity, 0.0);
    curve := [start];
    StartOfRun(cfg, sorted, calculated, start);
    var i := 0;
    while i < |sorted|
      invariant 0 <= i <= |sorted|
      invariant cfg.maxDailyLossUsd > 0.0 ==>
                  Books(equity, lastTradeTime, Map(trades, FillOf)) == Replay(cfg, sorted, calculated, i)
      invariant cfg.maxDailyLossUsd <= 0.0 ==> trades == [] && dailyPnL == 0.0 && equity == cfg.initialCapitalUsd
      invariant dailyPnL >= 0.0 && peakEquity == equity && maxDrawdownPercent == 0.0
      invariant curve == CurveOf(start, Map(trades, FillOf))
      invariant forall k :: 0 <= k < |trades| ==> trades[k].id == k + 1
      invariant forall k :: 0 <= k < |trades| ==> exists m :: 0 <= m < |sorted| && Quoted(sorted[m], trades[k])
    {
      var snapshot := sorted[i];
      ReplaySnoc(cfg, sorted, calculated, i);
      i := i + 1;
      if |snapshot.prices| < 2 {
        TooFewPrices(cfg, snapshot, calculated[i - 1], Books(equity, lastTradeTime, Map(trades, FillOf)));
        continue;
      }
      var day := FloorDay(snapshot.timestamp);
      if day != lastTradeDay {
        dailyPnL, lastTradeDay := 0.0, day;
      }
      if dailyPnL <= -cfg.maxDailyLossUsd {
        continue;
      }
      var trade := TradeOn(cfg, snapshot, calculated[i - 1], equity, lastTradeTime, |trades|, Map(trades, FillOf));
      if trade.None? {
        continue;
      }
      var f := trade.value.fill;
      DecideFacts(cfg, snapshot, calculated[i - 1], Books(equity, lastTradeTime, Map(trades, FillOf)));
      equity := f.equityAfter;
      dailyPnL := dailyPnL + f.netProfitUsd;
      lastTradeTime := f.timestamp;
      if equity > peakEquity {
        peakEquity := equity;
      }
      var drawdownPercent := if peakEquity > 0.0 then (peakEquity - equity) / peakEquity * 100.0 else 0.0;
      if drawdownPercent > maxDrawdownPercent {
        maxDrawdownPercent := drawdownPercent;
      }
      MapSnoc(trades, trade.value, FillOf);
      CurveSnoc(start, Map(trades, FillOf), f);
      assert Quoted(sorted[i - 1], trade.value);
      trades := trades + [trade.value];
      curve := curve + [EquityPoint(snapshot.timestamp, equity, drawdownPercent)];
    }
    finalEquity := equity;
    EarnedInAll(cfg, sorted, calculated);
    CurveRises(start, Map(trades, FillOf));
  }

  lemma StartOfRun(cfg: Config, snaps: seq<Snapshot>, calculated: seq<real>, start: EquityPoint)
    ensures Replay(cfg, snaps, calculated, 0) == Books(cfg.initialCapitalUsd, 0, [])
    ensures CurveOf(start, []) == [start]
  {
  }

  lemma ReplaySnoc(cfg: Config, snaps: seq<Snapshot>, calculated: seq<real>, n: nat)
    requires n < |snaps| && n < |calculated|
    ensures var b := Replay(cfg, snaps, calculated, n);
            Replay(cfg, snaps, calculated, n + 1) == Apply(b, Decide(cfg, snaps[n], calculated[n], b))
  {
  }

  lemma TooFewPrices(cfg: Config, snap: Snapshot, calculated: real, b: Books)
    requires |snap.prices| < 2
    ensures Decide(cfg, snap, calculated, b).None?
  {
  }

  lemma EarnedInAll(cfg: Config, snaps: seq<Snapshot>, calculated: seq<real>)
    requires |snaps| == |calculated|
    ensures var b := Replay(cfg, snaps, calculated, |snaps|);
            b.equity == cfg.initialCapitalUsd + Sum(Map(b.fills, NetOf)) && Profitable(cfg.initialCapitalUsd, b.fills)
    ensures Sum(Map([], NetOf)) == 0.0 && Profitable(cfg.initialCapitalUsd, [])
  {
    ReplayEarns(cfg, snaps, calculated, |snaps|);
    NothingEarned(cfg.initialCapitalUsd);
  }

  // ----- the metrics -----

  datatype Metrics = Metrics(
    totalTrades: nat,
    winningTrades: nat,
    losingTrades: nat,
    totalProfitUsd: real,
    netProfitUsd: real,
    maxConsecutiveWins: nat,
    maxConsecutiveLosses: nat)

  /** Counts, sums and streaks over any list of results; here a break-even trade is a loss. */
  method CalculateMetrics(nets: seq<real>) returns (m: Metrics)
    ensures m.totalTrades == |nets| == m.winningTrades + m.losingTrades
    ensures m.winningTrades == |Filter(nets, Win)| && m.losingTrades == |Filter(nets, NotWin)|
    ensures m.totalProfitUsd == Sum(Filter(nets, Win)) && m.netProfitUsd == Sum(nets)
    ensures IsLongestRun(nets, Win, m.maxConsecutiveWins) && IsLongestRun(nets, NotWin, m.maxConsecutiveLosses)
  {
    hide Filter, Sum, LongestRun, Trailing;
    var wins, losses := Filter(nets, Win), Filter(nets, NotWin);
    var totalProfit, totalLoss := Sum(wins), Abs(Sum(losses));
    SumSplits(nets);
    var maxWins, maxLosses := Streaks(nets);
    LongestRunIsLongest(nets, Win);
    LongestRunIsLongest(nets, NotWin);
    m := Metrics(|nets|, |wins|, |losses|, totalProfit, totalProfit - totalLoss, maxWins, maxLosses);
  }

  method Streaks(nets: seq<real>) returns (maxWins: nat, maxLosses: nat)
    ensures maxWins == LongestRun(nets, Win) && maxLosses == LongestRun(nets, NotWin)
  {
    hide LongestRun, Trailing;
    maxWins, maxLosses := 0, 0;
    var curWins, curLosses, i := 0, 0, 0;
    NoStreaks();
    while i < |nets|
      invariant 0 <= i <= |nets|
      invariant curWins == Trailing(nets[..i], Win) && curLosses == Trailing(nets[..i], NotWin)
      invariant maxWins == LongestRun(nets[..i], Win) && maxLosses == LongestRun(nets[..i], NotWin)
    {
      assert nets[..i + 1] == nets[..i] + [nets[i]];
      StreakSnoc(nets[..i], nets[i], Win);
      StreakSnoc(nets[..i], nets[i], NotWin);
      if nets[i] > 0.0 {
        curWins, curLosses := curWins + 1, 0;
        maxWins := MaxNat(maxWins, curWins);
      } else {
        curLosses, curWins := curLosses + 1, 0;
        maxLosses := MaxNat(maxLosses, curLosses);
      }
      i := i + 1;
    }
    assert nets[..|nets|] == nets;
  }

  lemma NoStreaks()
    ensures forall o :: Trailing([], o) == LongestRun([], o) == 0
  {
  }

  lemma StreakSnoc(s: seq<real>, x: real, o: Outcome)
    ensures Trailing(s + [x], o) == if Is(o, x) then Trailing(s, o) + 1 else 0
    ensures LongestRun(s + [x], o)
            == if Is(o, x) then MaxNat(LongestRun(s, o), Trailing(s, o) + 1) else LongestRun(s, o)
  {
    TrailingSnoc(s, x, o);
    LongestRunSnoc(s, x, o);
  }

  /** Over the trades of a run every trade wins: the metrics report one unbroken streak and no loss. */
  lemma {:induction false} RunsOnlyWin(capital: real, fills: seq<Fill>)
    requires Profitable(capital, fills)
    ensures var nets := Map(fills, NetOf);
            && LongestRun(nets, Win) == Trailing(nets, Win) == |Filter(nets, Win)| == |fills|
            && LongestRun(nets, NotWin) == Trailing(nets, NotWin) == 0 && Filter(nets, NotWin) == []
  {
    if fills != [] {
      var init, f := fills[..|fills| - 1], fills[|fills| - 1];
      forall k | 0 <= k < |init|
        ensures init[k].netProfitUsd > 0.0 && init[k].equityAfter == capital + Sum(Map(init[..k + 1], NetOf))
      {
        assert init[..k + 1] == fills[..k + 1];
      }
      RunsOnlyWin(capital, init);
      assert fills == init + [f];
      MapSnoc(init, f, NetOf);
      var nets := Map(init, NetOf);
      StreakSnoc(nets, f.netProfitUsd, Win);
      StreakSnoc(nets, f.netProfitUsd, NotWin);
      FilterSnoc(nets, f.netProfitUsd, Win);
      FilterSnoc(nets, f.netProfitUsd, NotWin);
    }
  }
}
