/** The running profit statistics, each tied to its plain definition over the whole trade history. */
module ProfitTracking {
  import opened Stats

  datatype EquityPoint = EquityPoint(equity: real, pnl: real, cumulativePnl: real, drawdownPercent: real, tradeId: nat)

  datatype Alert = Alert(drawdownPercent: real, peakEquity: real, currentEquity: real, threshold: real)

  function Equity(initial: real, h: seq<real>): real { initial + Sum(h) }

  /** The highest equity along `h`, the starting equity included. */
  function Peak(initial: real, h: seq<real>): real {
    if h == [] then initial else Max(Peak(initial, h[..|h| - 1]), Equity(initial, h))
  }

  function Trough(initial: real, h: seq<real>): real {
    if h == [] then initial else Min(Trough(initial, h[..|h| - 1]), Equity(initial, h))
  }

  /** How far `equity` lies below `peak`, in percent of `peak`. */
  function Drawdown(peak: real, equity: real): real {
    if peak > 0.0 then (peak - equity) / peak * 100.0 else 0.0
  }

  function DrawdownAt(initial: real, h: seq<real>): real {
    Drawdown(Peak(initial, h), Equity(initial, h))
  }

  /** The worst drawdown from the peak of the moment, over all moments. */
  function WorstFromPeak(initial: real, h: seq<real>): (d: real)
    ensures d >= 0.0
  {
    if h == [] then 0.0 else Max(WorstFromPeak(initial, h[..|h| - 1]), DrawdownAt(initial, h))
  }

  // ----- peak and trough are the extremes of the equity history -----

  lemma {:induction false} PeakIsHighest(initial: real, h: seq<real>)
    ensures exists i :: 0 <= i <= |h| && Peak(initial, h) == Equity(initial, h[..i])
    ensures forall i :: 0 <= i <= |h| ==> Equity(initial, h[..i]) <= Peak(initial, h)
  {
    assert h[..|h|] == h;
    if h != [] {
      var init := h[..|h| - 1];
      PeakIsHighest(initial, init);
      assert forall i :: 0 <= i <= |init| ==> init[..i] == h[..i];
    }
  }

  lemma {:induction false} TroughIsLowest(initial: real, h: seq<real>)
    ensures exists i :: 0 <= i <= |h| && Trough(initial, h) == Equity(initial, h[..i])
    ensures forall i :: 0 <= i <= |h| ==> Equity(initial, h[..i]) >= Trough(initial, h)
  {
    assert h[..|h|] == h;
    if h != [] {
      var init := h[..|h| - 1];
      TroughIsLowest(initial, init);
      assert forall i :: 0 <= i <= |init| ==> init[..i] == h[..i];
    }
  }

  // ----- the one-pass drawdown is the worst over all pairs -----

  /** The fall from moment `i` to moment `j`, in percent of the equity at `i`. */
  function Fall(initial: real, h: seq<real>, i: nat, j: nat): real
    requires i <= j <= |h|
  {
    Drawdown(Equity(initial, h[..i]), Equity(initial, h[..j]))
  }

  ghost predicate IsWorstFall(initial: real, h: seq<real>, d: real) {
    && (forall i: nat, j: nat :: i <= j <= |h| ==> Fall(initial, h, i, j) <= d)
    && (exists i: nat, j: nat :: i <= j <= |h| && Fall(initial, h, i, j) == d)
  }

  /** Two falls from positive levels, compared without dividing. */
  lemma CompareFalls(a: real, x: real, b: real, y: real)
    requires a > 0.0 && b > 0.0
    ensures Drawdown(a, x) <= Drawdown(b, y) <==> Times(y, a) <= Times(x, b)
  {
    RatioOfFall(a, x);
    RatioOfFall(b, y);
    CompareRatios(x, a, y, b);
  }

  lemma CompareRatios(x: real, a: real, y: real, b: real)
    requires a > 0.0 && b > 0.0
    ensures y / b <= x / a <==> Times(y, a) <= Times(x, b)
  {
    var u, v := x / a, y / b;
    assert u * a == x && v * b == y;
    CrossMultiplied(u, a, v, b, Times(a, b));
  }

  lemma CrossMultiplied(u: real, a: real, v: real, b: real, ab: real)
    requires a > 0.0 && b > 0.0 && ab == Times(a, b)
    ensures v <= u <==> Times(v * b, a) <= Times(u * a, b)
  {
    assert ab > 0.0;
    var d := u - v;
    assert Times(u * a, b) - Times(v * b, a) == d * ab by {
      assert Times(u * a, b) == u * ab;
      assert Times(v * b, a) == v * ab;
    }
    assert d >= 0.0 <==> d * ab >= 0.0;
  }

  lemma RatioOfFall(p: real, equity: real)
    requires p > 0.0
    ensures Drawdown(p, equity) == (1.0 - equity / p) * 100.0
  {
    assert (p - equity) / p == p / p - equity / p;
  }

  /** What the tracker reports is the drawdown of some moment, and that of no moment is larger. */
  lemma {:induction false} WorstFromPeakIsSomeMoment(initial: real, h: seq<real>)
    ensures exists k :: 0 <= k <= |h| && DrawdownAt(initial, h[..k]) == WorstFromPeak(initial, h)
    ensures forall k :: 0 <= k <= |h| ==> DrawdownAt(initial, h[..k]) <= WorstFromPeak(initial, h)
  {
    assert h[..|h|] == h;
    if h == [] {
      NoFallFromHere(initial);
    } else {
      hide DrawdownAt;
      var init := h[..|h| - 1];
      WorstFromPeakIsSomeMoment(initial, init);
      assert forall k :: 0 <= k <= |init| ==> init[..k] == h[..k];
    }
  }

  lemma NoFallFromHere(equity: real)
    ensures Drawdown(equity, equity) == 0.0
  {
  }

  /** The fall from moment `i` to moment `j` is no deeper than the drawdown at moment `k`, in terms of equity alone. */
  ghost predicate Outweighed(initial: real, h: seq<real>, i: nat, j: nat, k: nat)
    requires i <= |h| && j <= |h| && k <= |h|
  {
    && Peak(initial, h[..k]) > 0.0
    && Times(Equity(initial, h[..k]), Equity(initial, h[..i])) <= Times(Equity(initial, h[..j]), Peak(initial, h[..k]))
  }

  /** Every fall through zero is outweighed by one that starts at a peak. */
  ghost predicate PlungesFromPeaks(initial: real, h: seq<real>) {
    forall i: nat, j: nat :: i <= j <= |h| && Equity(initial, h[..i]) > 0.0 > Equity(initial, h[..j]) ==>
      exists k: nat :: k <= |h| && Outweighed(initial, h, i, j, k)
  }

  lemma OutweighedMeans(initial: real, h: seq<real>, i: nat, j: nat, k: nat)
    requires i <= j <= |h| && k <= |h| && Equity(initial, h[..i]) > 0.0 > Equity(initial, h[..j])
    ensures Fall(initial, h, i, j) > 0.0
    ensures Fall(initial, h, i, j) <= DrawdownAt(initial, h[..k]) <==> Outweighed(initial, h, i, j, k)
  {
    var a, x := Equity(initial, h[..i]), Equity(initial, h[..j]);
    assert (a - x) / a > 0.0;
    if Peak(initial, h[..k]) > 0.0 {
      CompareFalls(a, x, Peak(initial, h[..k]), Equity(initial, h[..k]));
    }
  }

  /** A fall that stays above zero is no deeper than the drawdown where it ends. */
  lemma FallAboveZero(initial: real, h: seq<real>, i: nat, j: nat)
    requires i <= j <= |h|
    requires Equity(initial, h[..i]) <= 0.0 || Equity(initial, h[..j]) >= 0.0
    ensures Fall(initial, h, i, j) <= 0.0 || Fall(initial, h, i, j) <= DrawdownAt(initial, h[..j])
  {
    hide Peak, Equity;
    var a, x, p := Equity(initial, h[..i]), Equity(initial, h[..j]), Peak(initial, h[..j]);
    PeakIsHighest(initial, h[..j]);
    assert h[..j][..i] == h[..i];
    if a > 0.0 {
      CompareFalls(a, x, p, x);
      NonNegativeScale(x, a, p);
    }
  }

  lemma NonNegativeScale(x: real, a: real, p: real)
    requires x >= 0.0 && a <= p
    ensures Times(x, a) <= Times(x, p)
  {
    var d := p - a;
    assert x * d >= 0.0;
    assert x * p == x * a + x * d;
  }

  /** The drawdown of a moment is a fall that happened. */
  lemma DrawdownIsAFall(initial: real, h: seq<real>, k: nat)
    requires k <= |h|
    ensures exists i: nat, j: nat :: i <= j <= |h| && Fall(initial, h, i, j) == DrawdownAt(initial, h[..k])
  {
    hide Peak, Equity;
    PeakIsHighest(initial, h[..k]);
    if Peak(initial, h[..k]) > 0.0 {
      var i :| 0 <= i <= k && Peak(initial, h[..k]) == Equity(initial, h[..k][..i]);
      assert h[..k][..i] == h[..i];
      assert Fall(initial, h, i, k) == DrawdownAt(initial, h[..k]);
    } else {
      NoFallFromHere(Equity(initial, h[..0]));
      assert Fall(initial, h, 0, 0) == DrawdownAt(initial, h[..k]);
    }
  }

  /**
   * Over every history: the reported maximum is the worst fall of all exactly when falls through zero start at peaks.
   */
  lemma WorstFromPeakExactly(initial: real, h: seq<real>)
    ensures IsWorstFall(initial, h, WorstFromPeak(initial, h)) <==> PlungesFromPeaks(initial, h)
  {
    hide Fall, DrawdownAt, Equity, Outweighed;
    var d := WorstFromPeak(initial, h);
    WorstFromPeakIsSomeMoment(initial, h);
    var k: nat :| k <= |h| && DrawdownAt(initial, h[..k]) == d;
    DrawdownIsAFall(initial, h, k);
    if IsWorstFall(initial, h, d) {
      forall i: nat, j: nat | i <= j <= |h| && Equity(initial, h[..i]) > 0.0 > Equity(initial, h[..j])
        ensures exists k: nat :: k <= |h| && Outweighed(initial, h, i, j, k)
      {
        OutweighedMeans(initial, h, i, j, k);
      }
    }
    if PlungesFromPeaks(initial, h) {
      forall i: nat, j: nat | i <= j <= |h|
        ensures Fall(initial, h, i, j) <= d
      {
        if Equity(initial, h[..i]) > 0.0 > Equity(initial, h[..j]) {
          var m: nat :| m <= |h| && Outweighed(initial, h, i, j, m);
          OutweighedMeans(initial, h, i, j, m);
        } else {
          FallAboveZero(initial, h, i, j);
        }
      }
    }
  }

  /** While equity is never negative, measuring from the running peak finds the worst fall of all. */
  lemma WorstFromPeakIsWorstFall(initial: real, h: seq<real>)
    requires forall i :: 0 <= i <= |h| ==> Equity(initial, h[..i]) >= 0.0
    ensures IsWorstFall(initial, h, WorstFromPeak(initial, h))
  {
    WorstFromPeakExactly(initial, h);
  }

  /** The first time equity is negative, it still does exactly when every positive equity before equals the peak. */
  lemma FirstNegativeEquity(initial: real, h: seq<real>)
    requires h != [] && Equity(initial, h) < 0.0
    requires forall i :: 0 <= i < |h| ==> Equity(initial, h[..i]) >= 0.0
    ensures IsWorstFall(initial, h, WorstFromPeak(initial, h)) <==>
            forall i :: 0 <= i < |h| && Equity(initial, h[..i]) > 0.0 ==> Equity(initial, h[..i]) == Peak(initial, h)
  {
    hide Equity, Peak, IsWorstFall;
    WorstFromPeakExactly(initial, h);
    PeakIsHighest(initial, h);
    var n, x, p := |h|, Equity(initial, h), Peak(initial, h);
    assert h[..n] == h;
    forall i: nat | i < n && Equity(initial, h[..i]) > 0.0
      ensures (exists k: nat :: k <= n && Outweighed(initial, h, i, n, k)) <==> Equity(initial, h[..i]) == p
    {
      LastOutweighs(initial, h, i);
    }
  }

  lemma LastOutweighs(initial: real, h: seq<real>, i: nat)
    requires i < |h| && Equity(initial, h[..i]) > 0.0 > Equity(initial, h)
    requires forall i :: 0 <= i < |h| ==> Equity(initial, h[..i]) >= 0.0
    ensures (exists k: nat :: k <= |h| && Outweighed(initial, h, i, |h|, k)) <==>
            Equity(initial, h[..i]) == Peak(initial, h)
  {
    hide Equity, Peak;
    PeakIsHighest(initial, h);
    assert h[..|h|] == h;
    var e, x, p := Equity(initial, h[..i]), Equity(initial, h), Peak(initial, h);
    ScaleNegative(x, e, p);
    forall k: nat | k < |h| && Outweighed(initial, h, i, |h|, k)
      ensures false
    {
      SignsDiffer(Equity(initial, h[..k]), e, x, Peak(initial, h[..k]));
    }
    if e == p {
      assert Outweighed(initial, h, i, |h|, |h|);
    }
  }

  lemma ScaleNegative(x: real, e: real, p: real)
    requires x < 0.0 && e <= p
    ensures Times(x, e) <= Times(x, p) <==> e == p
  {
    var d := p - e;
    assert x * p == x * e + x * d;
    assert d > 0.0 ==> x * d < 0.0;
  }

  lemma SignsDiffer(y: real, e: real, x: real, p: real)
    requires y >= 0.0 && e > 0.0 && x < 0.0 && p > 0.0
    ensures Times(y, e) > Times(x, p)
  {
    assert y * e >= 0.0;
    assert x * p < 0.0;
  }

  /** A history on which it misses the worst fall: from 1 to 10 to -10, the fall from 1 is 1100%. */
  lemma NegativeEquityHidesAFall()
    ensures var h := [9.0, -20.0];
            !IsWorstFall(1.0, h, WorstFromPeak(1.0, h)) && WorstFromPeak(1.0, h) == 200.0
            && Fall(1.0, h, 0, 2) == 1100.0
  {
    var h := [9.0, -20.0];
    assert h[..1] == [9.0] && h[..0] == [] && h[..2] == h && [9.0][..0] == [];
    assert Sum([9.0]) == 9.0 && Sum(h) == -11.0;
    assert Peak(1.0, [9.0]) == 10.0 && Peak(1.0, h) == 10.0;
    assert WorstFromPeak(1.0, [9.0]) == 0.0;
    assert Fall(1.0, h, 0, 2) == 1100.0;
  }

  // ----- the reported dollar drawdown -----

  /**
   * The summary reports peak less trough. No fall is deeper; it is a fall that happened iff a trough follows a peak.
   */
  lemma ReportedDollarDrawdown(initial: real, h: seq<real>)
    ensures var reported := Peak(initial, h) - Trough(initial, h);
            && (forall i, j :: 0 <= i <= j <= |h| ==> Equity(initial, h[..i]) - Equity(initial, h[..j]) <= reported)
            && ((exists i, j :: 0 <= i <= j <= |h| && Equity(initial, h[..i]) - Equity(initial, h[..j]) == reported)
                <==>
                (exists i, j :: 0 <= i <= j <= |h| && Equity(initial, h[..i]) == Peak(initial, h)
                                && Equity(initial, h[..j]) == Trough(initial, h)))
  {
    PeakIsHighest(initial, h);
    TroughIsLowest(initial, h);
  }

  /** Where the trough comes first: from 100 to 95 to 115 the summary reports 20, and the deepest fall was 5. */
  lemma ReportedFallNeverHappened()
    ensures var h := [-5.0, 20.0];
            && Peak(100.0, h) - Trough(100.0, h) == 20.0
            && forall i, j :: 0 <= i <= j <= 2 ==> Equity(100.0, h[..i]) - Equity(100.0, h[..j]) <= 5.0
  {
    var h := [-5.0, 20.0];
    assert h[..0] == [] && h[..1] == [-5.0] && h[..2] == h && [-5.0][..0] == [];
    assert Sum([-5.0]) == -5.0 && Sum(h) == 15.0;
    assert Peak(100.0, [-5.0]) == 100.0 && Trough(100.0, [-5.0]) == 95.0;
    forall i, j | 0 <= i <= j <= 2
      ensures Equity(100.0, h[..i]) - Equity(100.0, h[..j]) <= 5.0
    {
      assert i == 0 || i == 1 || i == 2;
      assert j == 0 || j == 1 || j == 2;
    }
  }

  // ----- alerts -----

  /** Threshold `t` has been crossed since the present peak was reached. */
  ghost predicate CrossedSincePeak(initial: real, h: seq<real>, t: real) {
    exists j :: 1 <= j <= |h| && Peak(initial, h[..j]) == Peak(initial, h) && DrawdownAt(initial, h[..j]) >= t
  }

  lemma CrossedSnoc(initial: real, h: seq<real>, x: real, t: real)
    ensures CrossedSincePeak(initial, h + [x], t) <==>
            || DrawdownAt(initial, h + [x]) >= t
            || (Peak(initial, h + [x]) == Peak(initial, h) && CrossedSincePeak(initial, h, t))
  {
    var g := h + [x];
    assert g[..|g|] == g && g[..|h|] == h;
    assert forall j :: 0 <= j <= |h| ==> g[..j] == h[..j];
    if Peak(initial, g) != Peak(initial, h) {
      forall j | 1 <= j <= |h|
        ensures Peak(initial, g[..j]) != Peak(initial, g)
      {
        PeakGrows(initial, h, j);
      }
    }
  }

  lemma {:induction false} PeakGrows(initial: real, h: seq<real>, j: nat)
    requires j <= |h|
    ensures Peak(initial, h[..j]) <= Peak(initial, h)
  {
    if j == |h| {
      assert h[..j] == h;
    } else {
      PeakGrows(initial, h[..|h| - 1], j);
      assert h[..|h| - 1][..j] == h[..j];
    }
  }

  // ----- the equity curve -----

  /** The points the trades add to the equity curve. */
  function Points(initial: real, h: seq<real>): (r: seq<EquityPoint>)
    ensures |r| == |h|
  {
    if h == [] then []
    else Points(initial, h[..|h| - 1]) + [PointAt(initial, h)]
  }

  /** The curve that is kept: nothing is trimmed before the first trade. */
  ghost function Curve(initial: real, start: seq<EquityPoint>, h: seq<real>, k: nat): seq<EquityPoint> {
    if h == [] then start else Last(start + Points(initial, h), k)
  }

  function PointAt(initial: real, h: seq<real>): EquityPoint
    requires h != []
  {
    EquityPoint(Equity(initial, h), h[|h| - 1], Sum(h), DrawdownAt(initial, h), |h|)
  }

  lemma CurveSnoc(initial: real, start: seq<EquityPoint>, h: seq<real>, x: real, size: int, k: nat)
    requires k == if size < 0 then 0 else size
    ensures Trim(Curve(initial, start, h, k) + [PointAt(initial, h + [x])], size) == Curve(initial, start, h + [x], k)
  {
    hide Trim, Last, Equity, Sum, DrawdownAt;
    assert (h + [x])[..|h|] == h;
    var before, point := start + Points(initial, h), PointAt(initial, h + [x]);
    assert before + [point] == start + Points(initial, h + [x]);
    assert h == [] ==> before == start;
    TrimIsLast(before, point, size, k);
  }

  lemma EquitySnoc(initial: real, h: seq<real>, x: real)
    ensures var g := h + [x];
            && Sum(g) == Sum(h) + x
            && Peak(initial, g) == Max(Peak(initial, h), Equity(initial, g))
            && Trough(initial, g) == Min(Trough(initial, h), Equity(initial, g))
            && WorstFromPeak(initial, g) == Max(WorstFromPeak(initial, h), DrawdownAt(initial, g))
  {
    assert (h + [x])[..|h|] == h;
    SumSnoc(h, x);
  }

  /** Everything at the start of a history. */
  lemma AtStart(initial: real)
    ensures Sum([]) == 0.0 && Equity(initial, []) == Peak(initial, []) == Trough(initial, []) == initial
    ensures WorstFromPeak(initial, []) == 0.0
    ensures TalliesOf([]) == Tallies(0, 0, 0, 0.0, 0.0, 0, 0, 0)
    ensures forall t :: !CrossedSincePeak(initial, [], t)
  {
  }

  // ----- win and loss bookkeeping -----

  /** The streak counter: the run of wins, or of losses as a negative number, that ends the decided trades. */
  function Streak(h: seq<real>): int {
    var w := Trailing(Filter(h, Decided), Win);
    if w > 0 then w else -(Trailing(Filter(h, Decided), Loss) as int)
  }

  /** The counters of the tracker. */
  datatype Tallies = Tallies(
    trades: nat, wins: nat, losses: nat, won: real, lost: real, maxWins: nat, maxLosses: nat, streak: int)

  /** What the counters mean: selections of the history, their sums, and the longest runs among the decided trades. */
  function TalliesOf(h: seq<real>): Tallies {
    Tallies(|h|, |Filter(h, Win)|, |Filter(h, Loss)|, Sum(Filter(h, Win)), -Sum(Filter(h, Loss)),
            LongestRun(Filter(h, Decided), Win), LongestRun(Filter(h, Decided), Loss), Streak(h))
  }

  lemma TalliesSnoc(h: seq<real>, x: real)
    ensures var t, s := TalliesOf(h), Streak(h + [x]);
            && s == (if x > 0.0 then (if t.streak > 0 then t.streak + 1 else 1)
                     else if x < 0.0 then (if t.streak < 0 then t.streak - 1 else -1)
                     else t.streak)
            && TalliesOf(h + [x]) ==
               (if x > 0.0 then t.(trades := t.trades + 1, wins := t.wins + 1, won := t.won + x, streak := s,
                                   maxWins := MaxNat(t.maxWins, s))
                else if x < 0.0 then t.(trades := t.trades + 1, losses := t.losses + 1, lost := t.lost - x, streak := s,
                                        maxLosses := MaxNat(t.maxLosses, -s))
                else t.(trades := t.trades + 1))
  {
    hide Filter, Trailing, LongestRun, Sum;
    SideSnoc(h, x, Win);
    SideSnoc(h, x, Loss);
    OneStreakAtATime(Filter(h, Decided));
  }

  lemma OneStreakAtATime(s: seq<real>)
    ensures Trailing(s, Win) == 0 || Trailing(s, Loss) == 0
  {
  }

  /** One more trade, for the wins or for the losses. */
  lemma SideSnoc(h: seq<real>, x: real, o: Outcome)
    requires !Is(o, 0.0)
    ensures |Filter(h + [x], o)| == |Filter(h, o)| + if Is(o, x) then 1 else 0
    ensures Sum(Filter(h + [x], o)) == Sum(Filter(h, o)) + if Is(o, x) then x else 0.0
    ensures Trailing(Filter(h + [x], Decided), o) ==
            if Is(o, x) then Trailing(Filter(h, Decided), o) + 1
            else if x == 0.0 then Trailing(Filter(h, Decided), o) else 0
    ensures LongestRun(Filter(h + [x], Decided), o) ==
            if Is(o, x) then MaxNat(LongestRun(Filter(h, Decided), o), Trailing(Filter(h, Decided), o) + 1)
            else LongestRun(Filter(h, Decided), o)
  {
    hide Filter, Trailing, LongestRun, Sum;
    var d := Filter(h, Decided);
    FilterSnoc(h, x, Decided);
    FilterSnoc(h, x, o);
    TrailingSnoc(d, x, o);
    LongestRunSnoc(d, x, o);
    SumSnoc(Filter(h, o), x);
  }

  /** The streak maxima are the longest winning and losing runs once break-even trades are dropped. */
  lemma StreaksAreLongestRuns(h: seq<real>)
    ensures IsLongestRun(Filter(h, Decided), Win, TalliesOf(h).maxWins)
    ensures IsLongestRun(Filter(h, Decided), Loss, TalliesOf(h).maxLosses)
    ensures TalliesOf(h).won - TalliesOf(h).lost == Sum(h)
  {
    LongestRunIsLongest(Filter(h, Decided), Win);
    LongestRunIsLongest(Filter(h, Decided), Loss);
    SumSplits(h);
  }

  // ----- the tracker -----

  class ProfitTracker {
    const initialEquity: real
    const thresholds: seq<real>
    const maxEquityPoints: int

    var equityCurve: seq<EquityPoint>
    var alerts: seq<Alert>
    var triggered: set<real>
    var currentEquity: real
    var peakEquity: real
    var troughEquity: real
    var cumulativePnl: real
    var tradeCount: nat
    var winCount: nat
    var lossCount: nat
    var totalWinAmount: real
    var totalLossAmount: real
    var maxConsecutiveWins: nat
    var maxConsecutiveLosses: nat
    var currentStreak: int
    var maxDrawdownPercent: real

    ghost var history: seq<real>           // every trade since construction or the last reset
    ghost var curveStart: seq<EquityPoint> // the point the curve started with, if any

    ghost predicate Valid()
      reads this
    {
      && EquityAgrees(history)
      && TalliesAgree(history)
      && CurveAgrees(history)
      && AlertsAgree(history)
    }

    ghost predicate EquityAgrees(h: seq<real>)
      reads this`cumulativePnl, this`currentEquity, this`peakEquity, this`troughEquity, this`maxDrawdownPercent
    {
      && cumulativePnl == Sum(h)
      && currentEquity == Equity(initialEquity, h)
      && peakEquity == Peak(initialEquity, h)
      && troughEquity == Trough(initialEquity, h)
      && maxDrawdownPercent == WorstFromPeak(initialEquity, h)
    }

    ghost predicate TalliesAgree(h: seq<real>)
      reads this`tradeCount, this`winCount, this`totalWinAmount, this`maxConsecutiveWins
      reads this`lossCount, this`totalLossAmount, this`maxConsecutiveLosses, this`currentStreak
    {
      Tallies(tradeCount, winCount, lossCount, totalWinAmount, totalLossAmount,
              maxConsecutiveWins, maxConsecutiveLosses, currentStreak) == TalliesOf(h)
    }

    ghost predicate CurveAgrees(h: seq<real>)
      reads this`equityCurve, this`curveStart
    {
      equityCurve == Curve(initialEquity, curveStart, h, Keep())
    }

    ghost predicate AlertsAgree(h: seq<real>)
      reads this`triggered
    {
      forall t :: t in triggered <==> t in thresholds && CrossedSincePeak(initialEquity, h, t)
    }

    ghost function Keep(): nat { if maxEquityPoints < 0 then 0 else maxEquityPoints }

    constructor (initialEquity: real, thresholds: seq<real>, maxEquityPoints: int)
      ensures Valid() && history == [] && alerts == []
      ensures this.initialEquity == initialEquity && this.thresholds == thresholds
      ensures this.maxEquityPoints == maxEquityPoints
      ensures equityCurve == [EquityPoint(initialEquity, 0.0, 0.0, 0.0, 0)]
    {
      this.initialEquity, this.thresholds, this.maxEquityPoints := initialEquity, thresholds, maxEquityPoints;
      currentEquity, peakEquity, troughEquity := initialEquity, initialEquity, initialEquity;
      cumulativePnl, totalWinAmount, totalLossAmount, maxDrawdownPercent := 0.0, 0.0, 0.0, 0.0;
      tradeCount, winCount, lossCount, maxConsecutiveWins, maxConsecutiveLosses, currentStreak := 0, 0, 0, 0, 0, 0;
      alerts, triggered := [], {};
      equityCurve := [EquityPoint(initialEquity, 0.0, 0.0, 0.0, 0)];
      history, curveStart := [], [EquityPoint(initialEquity, 0.0, 0.0, 0.0, 0)];
      new;
      hide Sum, Equity, Peak, Trough, WorstFromPeak, TalliesOf, CrossedSincePeak;
      AtStart(initialEquity);
    }

    method RecordTrade(pnl: real)
      requires Valid()
      modifies this
      ensures Valid()
      ensures history == old(history) + [pnl] && curveStart == old(curveStart)
      // The point this trade adds to the curve.
      ensures maxEquityPoints >= 1 ==>
              && equityCurve != []
              && var p := equityCurve[|equityCurve| - 1];
                 && p.equity == currentEquity && p.pnl == pnl && p.cumulativePnl == cumulativePnl
                 && p.tradeId == tradeCount && p.drawdownPercent == DrawdownAt(initialEquity, history)
      // Alerts: one for each threshold that is crossed for the first time since the present peak.
      ensures old(alerts) <= alerts
      ensures var added := alerts[|old(alerts)|..];
              && (forall t :: (exists a :: a in added && a.threshold == t) <==>
                    && t in thresholds
                    && CrossedSincePeak(initialEquity, history, t)
                    && !(peakEquity == old(peakEquity) && CrossedSincePeak(initialEquity, old(history), t)))
              && (forall i, j :: 0 <= i < j < |added| ==> added[i].threshold != added[j].threshold)
              && (forall a :: a in added ==>
                    a == Alert(DrawdownAt(initialEquity, history), peakEquity, currentEquity, a.threshold))
    {
      hide TalliesAgree, EquityAgrees, CurveAgrees, CrossedSincePeak, Peak, DrawdownAt;
      ghost var h := history;
      CountTrade(pnl);
      var drawdownPercent := MoveEquity(pnl);
      AppendPoint(pnl, drawdownPercent);
      history := h + [pnl];
      forall t
        ensures CrossedSincePeak(initialEquity, h + [pnl], t) <==>
                || drawdownPercent >= t
                || (peakEquity == old(peakEquity) && CrossedSincePeak(initialEquity, h, t))
      {
        CrossedSnoc(initialEquity, h, pnl, t);
      }
      CheckDrawdownAlerts(drawdownPercent);
    }

    /** Counters and streaks. */
    method CountTrade(pnl: real)
      requires TalliesAgree(history)
      modifies this`tradeCount, this`winCount, this`totalWinAmount, this`maxConsecutiveWins
      modifies this`lossCount, this`totalLossAmount, this`maxConsecutiveLosses, this`currentStreak
      ensures TalliesAgree(history + [pnl]) && tradeCount == |history| + 1
    {
      hide Streak, Filter, Sum, LongestRun;
      TalliesSnoc(history, pnl);
      tradeCount := tradeCount + 1;
      if pnl > 0.0 {
        var streak := if currentStreak > 0 then currentStreak + 1 else 1;
        winCount, totalWinAmount, currentStreak, maxConsecutiveWins :=
          winCount + 1, totalWinAmount + pnl, streak, MaxNat(maxConsecutiveWins, streak);
      } else if pnl < 0.0 {
        var streak := if currentStreak < 0 then currentStreak - 1 else -1;
        lossCount, totalLossAmount, currentStreak, maxConsecutiveLosses :=
          lossCount + 1, totalLossAmount + Abs(pnl), streak, MaxNat(maxConsecutiveLosses, -streak);
      }
    }

    /** Equity, peak, trough and drawdown; a new peak re-arms every alert. */
    method MoveEquity(pnl: real) returns (drawdownPercent: real)
      requires EquityAgrees(history)
      modifies this`cumulativePnl, this`currentEquity, this`peakEquity, this`troughEquity
      modifies this`maxDrawdownPercent, this`triggered
      ensures EquityAgrees(history + [pnl])
      ensures drawdownPercent == DrawdownAt(initialEquity, history + [pnl])
      ensures peakEquity == old(peakEquity) <==> Peak(initialEquity, history + [pnl]) == Peak(initialEquity, history)
      ensures triggered == if peakEquity == old(peakEquity) then old(triggered) else {}
    {
      hide Sum, Peak, Trough, WorstFromPeak;
      EquitySnoc(initialEquity, history, pnl);
      cumulativePnl := cumulativePnl + pnl;
      currentEquity := initialEquity + cumulativePnl;
      if currentEquity > peakEquity {
        peakEquity := currentEquity;
        triggered := {};
      }
      if currentEquity < troughEquity {
        troughEquity := currentEquity;
      }
      drawdownPercent := if peakEquity > 0.0 then (peakEquity - currentEquity) / peakEquity * 100.0 else 0.0;
      if drawdownPercent > maxDrawdownPercent {
        maxDrawdownPercent := drawdownPercent;
      }
    }

    /** Appends to the curve and trims it to the newest points. */
    method AppendPoint(pnl: real, drawdownPercent: real)
      requires CurveAgrees(history)
      requires EquityAgrees(history + [pnl]) && tradeCount == |history| + 1
      requires drawdownPercent == DrawdownAt(initialEquity, history + [pnl])
      modifies this`equityCurve
      ensures CurveAgrees(history + [pnl])
      ensures maxEquityPoints >= 1 ==>
              equityCurve != [] && equityCurve[|equityCurve| - 1]
                                   == EquityPoint(currentEquity, pnl, cumulativePnl, drawdownPercent, tradeCount)
    {
      hide Curve, DrawdownAt, Trim, Sum, Peak, Trough, WorstFromPeak;
      CurveSnoc(initialEquity, curveStart, history, pnl, maxEquityPoints, Keep());
      var point := EquityPoint(currentEquity, pnl, cumulativePnl, drawdownPercent, tradeCount);
      TrimKeepsNewest(equityCurve, point, maxEquityPoints);
      equityCurve := Trim(equityCurve + [point], maxEquityPoints);
    }

    method CheckDrawdownAlerts(drawdown: real)
      modifies this`alerts, this`triggered
      ensures triggered == old(triggered) + set t | t in thresholds && drawdown >= t
      ensures old(alerts) <= alerts
      ensures var added := alerts[|old(alerts)|..];
              && (forall a :: a in added ==> a.threshold in triggered && a.threshold !in old(triggered))
              && (forall t :: t in triggered && t !in old(triggered) ==> exists a :: a in added && a.threshold == t)
              && (forall i, j :: 0 <= i < j < |added| ==> added[i].threshold != added[j].threshold)
              && (forall a :: a in added ==> a == Alert(drawdown, peakEquity, currentEquity, a.threshold))
    {
      ghost var sent: seq<Alert> := [];
      var i := 0;
      while i < |thresholds|
        invariant 0 <= i <= |thresholds|
        invariant triggered == old(triggered) + set t | t in thresholds[..i] && drawdown >= t
        invariant alerts == old(alerts) + sent
        invariant forall a :: a in sent ==> a.threshold in triggered && a.threshold !in old(triggered)
        invariant forall t :: t in triggered && t !in old(triggered) ==> exists a :: a in sent && a.threshold == t
        invariant forall i, j :: 0 <= i < j < |sent| ==> sent[i].threshold != sent[j].threshold
        invariant forall a :: a in sent ==> a == Alert(drawdown, peakEquity, currentEquity, a.threshold)
      {
        var threshold := thresholds[i];
        if drawdown >= threshold && threshold !in triggered {
          triggered := triggered + {threshold};
          var alert := Alert(drawdown, peakEquity, currentEquity, threshold);
          alerts := alerts + [alert];
          sent := sent + [alert];
        }
        i := i + 1;
      }
    }

    /** Back to the start, but the curve is emptied where construction puts a first point. */
    method Reset()
      modifies this
      ensures Valid() && history == [] && alerts == [] && equityCurve == []
    {
      hide CrossedSincePeak;
      AtStart(initialEquity);
      equityCurve, alerts, triggered := [], [], {};
      history, curveStart := [], [];
      ClearEquity();
      ClearTallies();
    }

    method ClearEquity()
      modifies this`cumulativePnl, this`currentEquity, this`peakEquity, this`troughEquity, this`maxDrawdownPercent
      ensures EquityAgrees([])
    {
      currentEquity, peakEquity, troughEquity := initialEquity, initialEquity, initialEquity;
      cumulativePnl, maxDrawdownPercent := 0.0, 0.0;
    }

    method ClearTallies()
      modifies this`tradeCount, this`winCount, this`totalWinAmount, this`maxConsecutiveWins
      modifies this`lossCount, this`totalLossAmount, this`maxConsecutiveLosses, this`currentStreak
      ensures TalliesAgree([])
    {
      tradeCount, winCount, lossCount, totalWinAmount, totalLossAmount := 0, 0, 0, 0.0, 0.0;
      maxConsecutiveWins, maxConsecutiveLosses, currentStreak := 0, 0, 0;
    }
  }
}
