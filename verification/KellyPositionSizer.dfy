/** Kelly sizing over a trimmed history: the same as over the full one, and positive when the window made money. */
module KellySizing {
  import opened Wrappers
  import opened Stats

  datatype Config = Config(
    fractionMultiplier: real,
    minPositionUsd: real,
    maxPositionUsd: real,
    windowSize: int,
    minTradesRequired: int)

  /** Win rate and edge are `None` where they are not numbers: over an empty window. */
  datatype KellyResult = KellyResult(
    kellyFraction: real,
    adjustedFraction: real,
    positionSizeUsd: real,
    winRate: Option<real>,
    payoffRatio: real,
    edgePercent: Option<real>,
    tradesAnalyzed: nat)

  // ----- the window -----

  /** `s.slice(-n)`: the last n elements, all of them for zero, and all but the first -n for a negative n. */
  function SliceFromEnd(s: seq<real>, n: int): seq<real> {
    if n > 0 then Last(s, n) else if -n <= |s| then s[-n..] else []
  }

  /**
   * The trades that count: the last `windowSize`; a window of zero is no limit at all, a negative one holds nothing.
   */
  function Window(all: seq<real>, windowSize: int): (r: seq<real>)
    ensures windowSize > 0 ==> r == all[if |all| < windowSize then 0 else |all| - windowSize..]
    ensures windowSize == 0 ==> r == all
    ensures windowSize < 0 ==> r == []
  {
    if windowSize > 0 then Last(all, windowSize) else if windowSize == 0 then all else []
  }

  function Trimmed(all: seq<real>, windowSize: int): seq<real> {
    if windowSize > 0 then Last(all, 2 * windowSize) else if windowSize == 0 then all else []
  }

  lemma TrimStep(all: seq<real>, pnl: real, windowSize: int)
    ensures var kept := Trimmed(all, windowSize) + [pnl];
            Trimmed(all + [pnl], windowSize) ==
            if |kept| > windowSize * 2 then SliceFromEnd(kept, windowSize * 2) else kept
  {
    if windowSize > 0 {
      LastSnoc(all, pnl, 2 * windowSize);
    }
  }

  /** The window over what was kept is the window over everything. */
  lemma TrimmingIsLossless(all: seq<real>, windowSize: int)
    ensures SliceFromEnd(Trimmed(all, windowSize), windowSize) == Window(all, windowSize)
  {
  }

  // ----- the fraction -----

  function Clamp(x: real): real { Max(0.0, Min(1.0, x)) }

  function WinRate(w: seq<real>): real
    requires w != []
  {
    (|Filter(w, Win)| as real) / (|w| as real)
  }

  function AvgWin(w: seq<real>): real {
    var wins := Filter(w, Win);
    if |wins| > 0 then Sum(wins) / (|wins| as real) else 0.0
  }

  function AvgLoss(w: seq<real>): real {
    var losses := Filter(w, NotWin);
    if |losses| > 0 then Abs(Sum(losses) / (|losses| as real)) else 1.0
  }

  function PayoffRatio(w: seq<real>): real {
    if AvgLoss(w) > 0.0 then AvgWin(w) / AvgLoss(w) else 0.0
  }

  /** The fraction before clamping. */
  function RawFraction(w: seq<real>): real
    requires w != []
  {
    var b := PayoffRatio(w);
    if b > 0.0 then (WinRate(w) * b - (1.0 - WinRate(w))) / b else 0.0
  }

  function KellyFraction(w: seq<real>): real { if w == [] then 0.0 else Clamp(RawFraction(w)) }

  /** The algebra of the formula: with gains `p` and losses `n`, the fraction is the win rate's share of the net. */
  lemma FormulaIsEdge(count: real, wins: real, losses: real, p: real, n: real)
    requires wins > 0.0 && losses > 0.0 && count == wins + losses && p > 0.0 && n > 0.0
    ensures var b := (p / wins) / (n / losses);
            var rate := wins / count;
            && p / wins > 0.0 && n / losses > 0.0 && b > 0.0
            && (rate * b - (1.0 - rate)) / b * p == rate * (p - n)
  {
    var a, c, rate := p / wins, n / losses, wins / count;
    assert a * wins == p && c * losses == n && rate * count == wins;
    var b := a / c;
    assert b * c == a;
    var f := (rate * b - (1.0 - rate)) / b;
    assert f * b == rate * b - (1.0 - rate);
    Unfold(f, b, c, a, rate);
    LossShare(count, wins, losses, c, n, rate);
    Gather(f, a, rate, c, wins, p, n);
  }

  lemma Unfold(f: real, b: real, c: real, a: real, rate: real)
    requires f * b == rate * b - (1.0 - rate) && b * c == a
    ensures f * a == rate * a - (1.0 - rate) * c
  {
    assert (f * b) * c == f * (b * c);
    assert (rate * b - (1.0 - rate)) * c == rate * (b * c) - (1.0 - rate) * c;
  }

  lemma LossShare(count: real, wins: real, losses: real, c: real, n: real, rate: real)
    requires rate * count == wins && count == wins + losses && c * losses == n
    ensures ((1.0 - rate) * c) * wins == rate * n
  {
    assert (1.0 - rate) * count == losses;
    assert ((1.0 - rate) * c) * (rate * count) == rate * c * ((1.0 - rate) * count);
    assert rate * c * losses == rate * (c * losses);
  }

  lemma Gather(f: real, a: real, rate: real, c: real, wins: real, p: real, n: real)
    requires f * a == rate * a - (1.0 - rate) * c
    requires ((1.0 - rate) * c) * wins == rate * n && a * wins == p
    ensures f * p == rate * (p - n)
  {
    assert (f * a) * wins == f * (a * wins);
    assert (rate * a - (1.0 - rate) * c) * wins == rate * (a * wins) - ((1.0 - rate) * c) * wins;
    assert rate * (p - n) == rate * p - rate * n;
  }

  lemma SignOfQuotient(f: real, p: real, rate: real, edge: real)
    requires p > 0.0 && 0.0 < rate <= 1.0 && f * p == rate * edge && edge <= p
    ensures f > 0.0 <==> edge > 0.0
    ensures f <= rate
  {
    var d := p - edge;
    ProductSign(rate, edge);
    ProductSign(rate, d);
    ProductSign(p, f);
    ProductSign(p, rate - f);
    assert (rate - f) * p == rate * p - rate * edge == rate * d;
  }

  lemma ProductSign(a: real, b: real)
    requires a > 0.0
    ensures a * b > 0.0 <==> b > 0.0
    ensures a * b >= 0.0 <==> b >= 0.0
  {
  }

  /** A window with gains and real losses: the fraction is the win rate's share of the net over the gains. */
  lemma MixedWindow(w: seq<real>)
    requires w != [] && Filter(w, Win) != [] && Sum(Filter(w, NotWin)) < 0.0 && Filter(w, NotWin) != []
    ensures Sum(Filter(w, Win)) > 0.0 && 0.0 < WinRate(w) <= 1.0
    ensures RawFraction(w) * Sum(Filter(w, Win)) == WinRate(w) * Sum(w)
  {
    hide Filter, Sum;
    SumSplits(w);
    var wins, losses := Filter(w, Win), Filter(w, NotWin);
    var p, n := Sum(wins), -Sum(losses);
    RateIsShare(|w|, |wins|);
    LossAverage(n, |losses|);
    FormulaIsEdge(|w| as real, |wins| as real, |losses| as real, p, n);
    assert AvgWin(w) == p / (|wins| as real) && AvgLoss(w) == n / (|losses| as real);
  }

  /** Only losses that cost nothing can hide an edge: with them the average loss is zero and the formula is skipped. */
  lemma KellyFollowsNetProfit(w: seq<real>)
    ensures KellyFraction(w) > 0.0 <==> Sum(w) > 0.0 && (Filter(w, NotWin) == [] || Sum(Filter(w, NotWin)) < 0.0)
    ensures w == [] ==> KellyFraction(w) == 0.0
    ensures w != [] ==> 0.0 <= KellyFraction(w) <= WinRate(w) <= 1.0
  {
    EmptyWindow();
    if w != [] {
      KellyFollowsNetProfitOf(w);
    }
  }

  lemma EmptyWindow()
    ensures KellyFraction([]) == 0.0 == Sum([])
  {
  }

  lemma KellyFollowsNetProfitOf(w: seq<real>)
    requires w != []
    ensures KellyFraction(w) > 0.0 <==> Sum(w) > 0.0 && (Filter(w, NotWin) == [] || Sum(Filter(w, NotWin)) < 0.0)
    ensures 0.0 <= KellyFraction(w) <= WinRate(w) <= 1.0
  {
    hide Filter, Sum, KellyFraction, WinRate;
    SumSplits(w);
    WinRateIsShare(w);
    if Filter(w, Win) == [] {
      NoWins(w);
    } else if Filter(w, NotWin) == [] {
      OnlyWins(w);
    } else if Sum(Filter(w, NotWin)) < 0.0 {
      MixedKelly(w);
    } else {
      FreeLosses(w);
    }
  }

  lemma WinRateIsShare(w: seq<real>)
    requires w != []
    ensures 0.0 <= WinRate(w) <= 1.0
  {
    SumSplits(w);
    RateIsShare(|w|, |Filter(w, Win)|);
  }

  lemma MixedKelly(w: seq<real>)
    requires w != [] && Filter(w, Win) != [] && Sum(Filter(w, NotWin)) < 0.0 && Filter(w, NotWin) != []
    ensures KellyFraction(w) > 0.0 <==> Sum(w) > 0.0
    ensures 0.0 <= KellyFraction(w) <= WinRate(w)
  {
    hide Filter, Sum, RawFraction, WinRate;
    SumSplits(w);
    MixedWindow(w);
    SignOfQuotient(RawFraction(w), Sum(Filter(w, Win)), WinRate(w), Sum(w));
  }

  lemma FreeLosses(w: seq<real>)
    requires w != [] && Filter(w, NotWin) != [] && Sum(Filter(w, NotWin)) == 0.0
    ensures KellyFraction(w) == 0.0
  {
    hide Filter, Sum;
    assert 0.0 / (|Filter(w, NotWin)| as real) == 0.0;
  }

  lemma RateIsShare(n: nat, wins: nat)
    requires n >= 1 && wins <= n
    ensures 0.0 <= (wins as real) / (n as real) <= 1.0
    ensures wins >= 1 ==> (wins as real) / (n as real) > 0.0
    ensures wins == n ==> (wins as real) / (n as real) == 1.0
  {
  }

  lemma LossAverage(n: real, count: nat)
    requires n >= 0.0 && count >= 1
    ensures Abs((-n) / (count as real)) == n / (count as real)
    ensures n / (count as real) > 0.0 <==> n > 0.0
  {
    assert (-n) / (count as real) == -(n / (count as real));
  }

  lemma NoWins(w: seq<real>)
    requires w != [] && Filter(w, Win) == []
    ensures KellyFraction(w) == 0.0
  {
    hide Filter;
    if AvgLoss(w) > 0.0 {
      assert 0.0 / AvgLoss(w) == 0.0;
    }
  }

  lemma OnlyWins(w: seq<real>)
    requires w != [] && Filter(w, NotWin) == [] && |Filter(w, Win)| == |w| && Sum(Filter(w, Win)) > 0.0
    ensures KellyFraction(w) == 1.0 == WinRate(w) && Sum(w) > 0.0
  {
    SumSplits(w);
    assert Sum(Filter(w, NotWin)) == 0.0;
    hide Filter, Sum;
    RateIsShare(|w|, |w|);
    var b := Sum(Filter(w, Win)) / (|w| as real);
    assert b > 0.0;
    assert b / 1.0 == b;
    assert (1.0 * b - 0.0) / b == 1.0;
  }

  /** The exception, on a window that made money: one gain and one break-even trade. */
  lemma FreeLossesHideTheEdge()
    ensures Sum([5.0, 0.0]) > 0.0 && KellyFraction([5.0, 0.0]) == 0.0
  {
    var w := [5.0, 0.0];
    assert w[..1] == [5.0] && [5.0][..0] == [] && [0.0][..0] == [];
    assert Filter([5.0], NotWin) == [];
    assert Filter(w, NotWin) == [0.0];
    assert Sum([0.0]) == 0.0;
    assert Sum([5.0]) == 5.0;
    FreeLosses(w);
  }

  // ----- the sizer -----

  /** Expected gain per dollar at risk, in percent. */
  function Edge(w: seq<real>): real
    requires w != []
  {
    (WinRate(w) * AvgWin(w) - (1.0 - WinRate(w)) * AvgLoss(w)) / (if AvgLoss(w) == 0.0 then 1.0 else AvgLoss(w)) * 100.0
  }

  function Size(cfg: Config, w: seq<real>, equityUsd: real, regimeMultiplier: real): KellyResult {
    if |w| < cfg.minTradesRequired then KellyResult(0.0, 0.0, cfg.minPositionUsd, Some(0.0), 0.0, Some(0.0), |w|)
    else
      var kelly := KellyFraction(w);
      var adjusted := Clamp(kelly * cfg.fractionMultiplier * regimeMultiplier);
      KellyResult(kelly, adjusted, Max(cfg.minPositionUsd, Min(cfg.maxPositionUsd, equityUsd * adjusted)),
                  if w == [] then None else Some(WinRate(w)), PayoffRatio(w),
                  if w == [] then None else Some(Edge(w)), |w|)
  }

  /** How the fraction becomes a size, written out: scaled twice, clamped, and held between the two limits. */
  lemma SizeWrittenOut(cfg: Config, w: seq<real>, equityUsd: real, regimeMultiplier: real)
    ensures var r := Size(cfg, w, equityUsd, regimeMultiplier);
            && r.tradesAnalyzed == |w|
            && (|w| < cfg.minTradesRequired ==>
                  r == KellyResult(0.0, 0.0, cfg.minPositionUsd, Some(0.0), 0.0, Some(0.0), |w|))
            && (|w| >= cfg.minTradesRequired ==>
                  var scaled := r.kellyFraction * cfg.fractionMultiplier * regimeMultiplier;
                  var usd := equityUsd * r.adjustedFraction;
                  var capped := if usd < cfg.maxPositionUsd then usd else cfg.maxPositionUsd;
                  && r.kellyFraction == KellyFraction(w) && r.payoffRatio == PayoffRatio(w)
                  && r.adjustedFraction == (if scaled <= 0.0 then 0.0 else if scaled >= 1.0 then 1.0 else scaled)
                  && r.positionSizeUsd == (if capped > cfg.minPositionUsd then capped else cfg.minPositionUsd)
                  && r.winRate == (if w == [] then None else Some(WinRate(w)))
                  && r.edgePercent == (if w == [] then None else Some(Edge(w))))
  {
    hide KellyFraction, PayoffRatio, WinRate, Edge;
  }

  /**
   * The figures over a window with gains and real losses: `p` gained in `a` trades, `n` lost in `b`. A losing window
   * has fraction zero.
   */
  lemma FiguresWrittenOut(w: seq<real>)
    requires w != [] && Filter(w, Win) != [] && Sum(Filter(w, NotWin)) < 0.0 && Filter(w, NotWin) != []
    ensures var p, n := Sum(Filter(w, Win)), -Sum(Filter(w, NotWin));
            var a, b, all := |Filter(w, Win)| as real, |Filter(w, NotWin)| as real, |w| as real;
            && WinRate(w) * all == a
            && PayoffRatio(w) * (n / b) == p / a
            && Edge(w) * (n / b) == 100.0 * Sum(w) / all
            && KellyFraction(w) * p == if Sum(w) > 0.0 then WinRate(w) * Sum(w) else 0.0
  {
    FractionOf(w);
    RatiosOf(w);
  }

  lemma FractionOf(w: seq<real>)
    requires w != [] && Filter(w, Win) != [] && Sum(Filter(w, NotWin)) < 0.0 && Filter(w, NotWin) != []
    ensures KellyFraction(w) * Sum(Filter(w, Win)) == if Sum(w) > 0.0 then WinRate(w) * Sum(w) else 0.0
  {
    hide Filter, Sum, RawFraction, WinRate;
    SumSplits(w);
    MixedWindow(w);
    SignOfQuotient(RawFraction(w), Sum(Filter(w, Win)), WinRate(w), Sum(w));
  }

  lemma RatiosOf(w: seq<real>)
    requires w != [] && Filter(w, Win) != [] && Sum(Filter(w, NotWin)) < 0.0 && Filter(w, NotWin) != []
    ensures var p, n := Sum(Filter(w, Win)), -Sum(Filter(w, NotWin));
            var a, b, all := |Filter(w, Win)| as real, |Filter(w, NotWin)| as real, |w| as real;
            && WinRate(w) * all == a
            && PayoffRatio(w) * (n / b) == p / a
            && Edge(w) * (n / b) == 100.0 * Sum(w) / all
  {
    hide Filter, Sum;
    SumSplits(w);
    var wins, losses := Filter(w, Win), Filter(w, NotWin);
    var p, n, a, b, all := Sum(wins), -Sum(losses), |wins| as real, |losses| as real, |w| as real;
    LossAverage(n, |losses|);
    AveragesAre(w, p, n, a, b);
    EdgeOfAverages(p, n, a, b, all);
    hide AvgWin, AvgLoss;
    assert p - n == Sum(w);
    assert PayoffRatio(w) == p / a / (n / b);
    assert Edge(w) == (a / all * (p / a) - (1.0 - a / all) * (n / b)) / (n / b) * 100.0;
  }

  lemma AveragesAre(w: seq<real>, p: real, n: real, a: real, b: real)
    requires w != [] && Filter(w, Win) != [] && Filter(w, NotWin) != [] && n > 0.0
    requires p == Sum(Filter(w, Win)) && n == -Sum(Filter(w, NotWin))
    requires a == |Filter(w, Win)| as real && b == |Filter(w, NotWin)| as real
    ensures AvgWin(w) == p / a && AvgLoss(w) == n / b > 0.0 && a > 0.0 && b > 0.0
  {
    hide Filter, Sum;
    LossAverage(n, |Filter(w, NotWin)|);
  }

  lemma EdgeOfAverages(p: real, n: real, a: real, b: real, all: real)
    requires a > 0.0 && b > 0.0 && all == a + b && n / b > 0.0
    ensures a / all * all == a
    ensures p / a / (n / b) * (n / b) == p / a
    ensures (a / all * (p / a) - (1.0 - a / all) * (n / b)) / (n / b) * 100.0 * (n / b) == 100.0 * (p - n) / all
  {
    var rate, u, v := a / all, p / a, n / b;
    assert rate * all == a && u * a == p && v * b == n;
    assert u / v * v == u;
    var net := rate * u - (1.0 - rate) * v;
    var q := net / v;
    assert q * v == net;
    assert q * 100.0 * v == 100.0 * (q * v);
    NetPerTrade(rate, u, v, a, b, all, p, n);
    assert 100.0 * (p - n) / all == 100.0 * ((p - n) / all);
    assert net * all == p - n;
  }

  lemma NetPerTrade(rate: real, u: real, v: real, a: real, b: real, all: real, p: real, n: real)
    requires rate * all == a && u * a == p && v * b == n && all == a + b && all > 0.0
    ensures (rate * u - (1.0 - rate) * v) * all == p - n
  {
    assert (rate * u) * all == u * (rate * all);
    assert (1.0 - rate) * all == b;
    assert ((1.0 - rate) * v) * all == v * ((1.0 - rate) * all);
  }

  /** However the trades went, the size is within the configured bounds; without an edge it is the smallest. */
  lemma SizeIsBounded(cfg: Config, w: seq<real>, equityUsd: real, regimeMultiplier: real)
    ensures var r := Size(cfg, w, equityUsd, regimeMultiplier);
            && cfg.minPositionUsd <= r.positionSizeUsd <= Max(cfg.minPositionUsd, cfg.maxPositionUsd)
            && (Sum(w) <= 0.0 && cfg.minPositionUsd >= 0.0 ==> r.positionSizeUsd == cfg.minPositionUsd)
  {
    hide Sum, WinRate, PayoffRatio, Edge;
    if |w| >= cfg.minTradesRequired {
      KellyFollowsNetProfit(w);
      if Sum(w) <= 0.0 {
        hide KellyFraction;
        assert KellyFraction(w) == 0.0;
        assert 0.0 * cfg.fractionMultiplier * regimeMultiplier == 0.0;
        assert equityUsd * 0.0 == 0.0;
      }
    }
  }

  class KellyPositionSizer {
    const cfg: Config
    var trades: seq<real>

    ghost var everything: seq<real>

    ghost predicate Valid()
      reads this
    {
      trades == Trimmed(everything, cfg.windowSize)
    }

    constructor (cfg: Config)
      ensures Valid() && this.cfg == cfg && everything == []
    {
      this.cfg, trades, everything := cfg, [], [];
    }

    method RecordTrade(profitUsd: real)
      requires Valid()
      modifies this
      ensures Valid() && everything == old(everything) + [profitUsd]
    {
      TrimStep(everything, profitUsd, cfg.windowSize);
      trades := trades + [profitUsd];
      if |trades| > cfg.windowSize * 2 {
        trades := SliceFromEnd(trades, cfg.windowSize * 2);
      }
      everything := everything + [profitUsd];
    }

    /** The size is that of the last `windowSize` trades of everything ever recorded. */
    method Calculate(equityUsd: real, regimeMultiplier: real) returns (r: KellyResult)
      requires Valid()
      ensures r == Size(cfg, Window(everything, cfg.windowSize), equityUsd, regimeMultiplier)
    {
      TrimmingIsLossless(everything, cfg.windowSize);
      r := Size(cfg, SliceFromEnd(trades, cfg.windowSize), equityUsd, regimeMultiplier);
    }
  }
}
