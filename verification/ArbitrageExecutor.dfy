/** Concurrent two-legged trades. Each call to `execute` is split at its only await: admission, then settlement. */
module ArbitrageExecution {
  import opened Wrappers
  import opened Stats

  datatype Config = Config(
    maxPositionSizeUsd: real,
    maxConcurrentTrades: int,
    feeRatePerSide: real,
    minNetProfitUsd: real,
    maxDailyLossUsd: real,
    cooldownMs: int)

  datatype Opportunity = Opportunity(
    symbol: string,
    buyExchange: string,
    sellExchange: string,
    buyPrice: real,
    sellPrice: real,
    estimatedProfitUsd: real)

  datatype Order = Order(price: real, amount: real)

  datatype Rejection =
    | MaxConcurrent | DailyLossLimit | BelowMinProfit | CooldownActive | ExchangeNotFound | InvalidPositionSize

  /** A position in units of the asset: what dividing by the price yields, a price of zero included. */
  datatype Size = Units(amount: real) | Infinite | NotANumber

  /** A call that waits for its two orders. */
  datatype Ticket = Ticket(opp: Opportunity, amount: Size, startMs: int)

  datatype Admission = Rejected(why: Rejection) | Started(ticket: Ticket)

  /** How the orders of a waiting call end: each filled or refused, or an exception before anything is booked. */
  datatype Fills = Both(buy: Option<Order>, sell: Option<Order>) | Threw

  datatype Result = Result(actualProfitUsd: real, totalFeesUsd: real, success: bool)

  datatype Trade = Trade(
    id: nat,
    timestamp: int,
    opp: Opportunity,
    amount: Size,
    grossProfitUsd: real,
    feesUsd: real,
    netProfitUsd: real,
    executionTimeMs: int)

  function Net(t: Trade): real { t.netProfitUsd }

  // ----- how much one trade buys -----

  function PositionUsd(cfg: Config, opp: Opportunity): real {
    Min(cfg.maxPositionSizeUsd, opp.estimatedProfitUsd * 100.0)
  }

  /** The size of a position, if it is positive. A price of zero makes an order without bounds, and is not refused. */
  function Sized(cfg: Config, opp: Opportunity): (r: Option<Size>)
    ensures opp.buyPrice > 0.0 ==> (r.Some? <==> cfg.maxPositionSizeUsd > 0.0 && opp.estimatedProfitUsd > 0.0)
    ensures opp.buyPrice < 0.0 ==> (r.Some? <==> cfg.maxPositionSizeUsd < 0.0 || opp.estimatedProfitUsd < 0.0)
    ensures r.Some? && r.value.Units? ==>
            var profit, cap := 100.0 * opp.estimatedProfitUsd, cfg.maxPositionSizeUsd;
            r.value.amount > 0.0 && r.value.amount * opp.buyPrice == if profit < cap then profit else cap
    ensures r.Some? && !r.value.Units? <==>
            opp.buyPrice == 0.0 && cfg.maxPositionSizeUsd >= 0.0 && opp.estimatedProfitUsd >= 0.0
  {
    var usd := PositionUsd(cfg, opp);
    if opp.buyPrice == 0.0 then
      if usd > 0.0 then Some(Infinite) else if usd == 0.0 then Some(NotANumber) else None
    else
      Quotient(usd, opp.buyPrice);
      if usd / opp.buyPrice <= 0.0 then None else Some(Units(usd / opp.buyPrice))
  }

  lemma Quotient(a: real, b: real)
    requires b != 0.0
    ensures a / b * b == a
    ensures b > 0.0 ==> (a / b > 0.0 <==> a > 0.0)
    ensures b < 0.0 ==> (a / b > 0.0 <==> a < 0.0)
  {
    var q := a / b;
    assert q * b == a;
  }

  // ----- what one trade earns -----

  function Fees(fills: Fills, rate: real): real {
    if fills.Both? && fills.buy.Some? && fills.sell.Some? then
      fills.buy.value.price * fills.buy.value.amount * rate + fills.sell.value.price * fills.sell.value.amount * rate
    else 0.0
  }

  function Profit(fills: Fills, rate: real): real {
    if fills.Both? && fills.buy.Some? && fills.sell.Some? then
      (fills.sell.value.price - fills.buy.value.price) * Min(fills.buy.value.amount, fills.sell.value.amount)
      - Fees(fills, rate)
    else 0.0
  }

  /** Two filled orders book the money that changed hands for the amount both filled, less the rate on all of both. */
  lemma FillsBookCash(b: Order, s: Order, m: real, rate: real)
    requires m <= b.amount && m <= s.amount && (m == b.amount || m == s.amount)
    ensures var fills, fees := Both(Some(b), Some(s)), rate * (b.price * b.amount + s.price * s.amount);
            Fees(fills, rate) == fees && Profit(fills, rate) == s.price * m - b.price * m - fees
  {
    assert (s.price - b.price) * m == s.price * m - b.price * m;
    var u, v := b.price * b.amount, s.price * s.amount;
    assert rate * (u + v) == u * rate + v * rate;
  }

  /** Matched fills book sale proceeds, less purchase, less the rate on both. */
  lemma MatchedFillsBookCash(buy: Order, sell: Order, rate: real)
    requires buy.amount == sell.amount
    ensures var paid, got := buy.price * buy.amount, sell.price * sell.amount;
            Profit(Both(Some(buy), Some(sell)), rate) == got - paid - rate * (got + paid)
  {
    FillsBookCash(buy, sell, buy.amount, rate);
    var paid, got := buy.price * buy.amount, sell.price * sell.amount;
    assert rate * (paid + got) == rate * (got + paid);
  }

  /** The money of a settled call, written out: `m` is what both orders filled. */
  ghost predicate BooksCash(fills: Fills, rate: real, r: Result) {
    if fills.Both? && fills.buy.Some? && fills.sell.Some? then
      var b, s := fills.buy.value, fills.sell.value;
      var m := if b.amount <= s.amount then b.amount else s.amount;
      && r.success
      && r.totalFeesUsd == rate * (b.price * b.amount + s.price * s.amount)
      && r.actualProfitUsd == s.price * m - b.price * m - r.totalFeesUsd
    else r == Result(0.0, 0.0, false)
  }

  lemma SettlementBooksCash(fills: Fills, rate: real)
    ensures BooksCash(fills, rate, Result(Profit(fills, rate), Fees(fills, rate),
                                          fills.Both? && fills.buy.Some? && fills.sell.Some?))
  {
    if fills.Both? && fills.buy.Some? && fills.sell.Some? {
      var b, s := fills.buy.value, fills.sell.value;
      FillsBookCash(b, s, if b.amount <= s.amount then b.amount else s.amount, rate);
    }
  }

  lemma FailureBooksNothing(rate: real)
    ensures Profit(Threw, rate) == Fees(Threw, rate) == 0.0
  {
  }

  // ----- every interleaving, as a trace -----

  datatype Event =
    | Admitted(ticket: Ticket)
    | Settled(ticket: Ticket, fills: Fills, profit: real, at: int)
    | Failed(ticket: Ticket)
    | DayReset

  /** The calls that wait after `es`. */
  ghost function InFlight(es: seq<Event>): multiset<Ticket> {
    if es == [] then multiset{}
    else
      var before := InFlight(es[..|es| - 1]);
      match es[|es| - 1]
      case Admitted(t) => before + multiset{t}
      case Settled(t, _, _, _) => before - multiset{t}
      case Failed(t) => before - multiset{t}
      case DayReset => before
  }

  /** The profit booked since the last reset. */
  ghost function Daily(es: seq<Event>): real {
    if es == [] then 0.0
    else
      match es[|es| - 1]
      case Settled(_, _, profit, _) => Daily(es[..|es| - 1]) + profit
      case DayReset => 0.0
      case _ => Daily(es[..|es| - 1])
  }

  /** When a trade in `symbol` was last booked. */
  ghost function LastBooked(es: seq<Event>, symbol: string): Option<int> {
    if es == [] then None
    else
      var e := es[|es| - 1];
      if e.Settled? && e.ticket.opp.symbol == symbol then Some(e.at) else LastBooked(es[..|es| - 1], symbol)
  }

  /** The profits booked, in order. */
  ghost function Booked(es: seq<Event>): seq<real> {
    if es == [] then []
    else
      var before := Booked(es[..|es| - 1]);
      if es[|es| - 1].Settled? then before + [es[|es| - 1].profit] else before
  }

  predicate Cooling(cfg: Config, last: Option<int>, now: int) {
    last.Some? && last.value != 0 && now - last.value < cfg.cooldownMs
  }

  /** What one event may follow. */
  ghost predicate MayFollow(cfg: Config, es: seq<Event>, e: Event) {
    match e
    case Admitted(t) =>
      && |InFlight(es)| < cfg.maxConcurrentTrades
      && Daily(es) > -cfg.maxDailyLossUsd
      && t.opp.estimatedProfitUsd >= cfg.minNetProfitUsd
      && !Cooling(cfg, LastBooked(es, t.opp.symbol), t.startMs)
      && Sized(cfg, t.opp) == Some(t.amount)
    case Settled(t, fills, profit, _) => t in InFlight(es) && profit == Profit(fills, cfg.feeRatePerSide)
    case Failed(t) => t in InFlight(es)
    case DayReset => true
  }

  /** Some ticket for `opp` may be admitted next. */
  ghost predicate Admissible(cfg: Config, es: seq<Event>, opp: Opportunity, now: int) {
    exists size :: MayFollow(cfg, es, Admitted(Ticket(opp, size, now)))
  }

  /** The trade would be worth something: the capped estimate and the price have the same sign, or the price is zero. */
  ghost predicate WorthTrading(cfg: Config, opp: Opportunity) {
    if opp.buyPrice > 0.0 then cfg.maxPositionSizeUsd > 0.0 && opp.estimatedProfitUsd > 0.0
    else if opp.buyPrice < 0.0 then cfg.maxPositionSizeUsd < 0.0 || opp.estimatedProfitUsd < 0.0
    else cfg.maxPositionSizeUsd >= 0.0 && opp.estimatedProfitUsd >= 0.0
  }

  /** No trade in the symbol was booked less than the cooldown ago; a booking at time zero does not count. */
  ghost predicate CooledDown(cfg: Config, es: seq<Event>, symbol: string, now: int) {
    var last := LastBooked(es, symbol);
    last.None? || last.value == 0 || now - last.value >= cfg.cooldownMs
  }

  /** What admission asks, written out. */
  lemma AdmissibleExactly(cfg: Config, es: seq<Event>, opp: Opportunity, now: int)
    ensures Admissible(cfg, es, opp, now) <==>
            && |InFlight(es)| < cfg.maxConcurrentTrades
            && Daily(es) > -cfg.maxDailyLossUsd
            && opp.estimatedProfitUsd >= cfg.minNetProfitUsd
            && (var last := LastBooked(es, opp.symbol);
                last.None? || last.value == 0 || now - last.value >= cfg.cooldownMs)
            && WorthTrading(cfg, opp)
  {
    hide InFlight, Daily, LastBooked;
    SizedExactly(cfg, opp);
    if Sized(cfg, opp).Some? {
      var t := Ticket(opp, Sized(cfg, opp).value, now);
      assert Admissible(cfg, es, opp, now) <== MayFollow(cfg, es, Admitted(t));
    }
  }

  lemma SizedExactly(cfg: Config, opp: Opportunity)
    ensures Sized(cfg, opp).Some? <==> WorthTrading(cfg, opp)
  {
  }

  /** A trace the executor can produce, whatever the order in which calls are admitted and settled. */
  ghost predicate Legal(cfg: Config, es: seq<Event>) {
    es == [] || (Legal(cfg, es[..|es| - 1]) && MayFollow(cfg, es[..|es| - 1], es[|es| - 1]))
  }

  /** The daily result is the sum of what was booked since the last reset. */
  lemma {:induction false} DailyIsBookedSinceReset(es: seq<Event>, k: nat)
    requires k <= |es| && (k == 0 || es[k - 1].DayReset?)
    requires forall i :: k <= i < |es| ==> !es[i].DayReset?
    ensures Daily(es) == Sum(Booked(es[k..]))
  {
    if k < |es| {
      var n := |es| - 1;
      DailyIsBookedSinceReset(es[..n], k);
      assert es[k..][..n - k] == es[..n][k..];
      if es[n].Settled? {
        SumSnoc(Booked(es[..n][k..]), es[n].profit);
      }
    } else {
      assert es[k..] == [];
    }
  }

  lemma LegalSnoc(cfg: Config, es: seq<Event>, e: Event)
    requires Legal(cfg, es) && MayFollow(cfg, es, e)
    ensures Legal(cfg, es + [e])
  {
    assert (es + [e])[..|es|] == es;
  }

  lemma {:induction false} ConcurrencyIsBounded(cfg: Config, es: seq<Event>)
    requires Legal(cfg, es)
    ensures |InFlight(es)| <= if cfg.maxConcurrentTrades < 0 then 0 else cfg.maxConcurrentTrades
  {
    if es != [] {
      ConcurrencyIsBounded(cfg, es[..|es| - 1]);
    }
  }

  /** No trade of the trace loses more than `m`. */
  ghost predicate LosesAtMost(es: seq<Event>, m: real) {
    forall i :: 0 <= i < |es| && es[i].Settled? ==> es[i].profit >= -m
  }

  /** The daily limit, extended by a loss of `m` for each call that could still be admitted. */
  ghost function LossFloor(cfg: Config, inFlight: int, m: real): real {
    -(cfg.maxDailyLossUsd + m * ((cfg.maxConcurrentTrades - inFlight) as real))
  }

  lemma LossFloorSteps(cfg: Config, n: int, m: real)
    requires m >= 0.0 && n <= cfg.maxConcurrentTrades
    ensures LossFloor(cfg, n, m) <= -cfg.maxDailyLossUsd
    ensures LossFloor(cfg, n - 1, m) == LossFloor(cfg, n, m) - m
  {
    var k := (cfg.maxConcurrentTrades - n) as real;
    assert m * k >= 0.0;
    assert (cfg.maxConcurrentTrades - (n - 1)) as real == k + 1.0;
    assert m * (k + 1.0) == m * k + m;
  }

  /**
   * The daily limit is enforced only at admission, so up to `maxConcurrentTrades` trades can still lose after it is
   * reached; no more than that is ever lost, and every waiting trade keeps its share in reserve.
   */
  lemma {:induction false} DailyLossIsBounded(cfg: Config, es: seq<Event>, m: real)
    requires Legal(cfg, es) && LosesAtMost(es, m)
    requires m >= 0.0 && cfg.maxDailyLossUsd > 0.0 && cfg.maxConcurrentTrades >= 0
    ensures Daily(es) > LossFloor(cfg, |InFlight(es)|, m)
  {
    hide LossFloor;
    ConcurrencyIsBounded(cfg, es);
    LossFloorSteps(cfg, |InFlight(es)|, m);
    if es != [] {
      var init, e := es[..|es| - 1], es[|es| - 1];
      if e.Settled? || e.Failed? {
        ConcurrencyIsBounded(cfg, init);
        DailyLossIsBounded(cfg, init, m);
        LossFloorSteps(cfg, |InFlight(init)|, m);
        assert |InFlight(es)| == |InFlight(init)| - 1;
      }
    }
  }

  /** With a limit that is not positive, nothing is ever traded. */
  lemma {:induction false} NoLimitNoTrade(cfg: Config, es: seq<Event>)
    requires Legal(cfg, es) && cfg.maxDailyLossUsd <= 0.0
    ensures Daily(es) == 0.0 && InFlight(es) == multiset{} && Booked(es) == []
  {
    if es != [] {
      NoLimitNoTrade(cfg, es[..|es| - 1]);
    }
  }

  function When(e: Event): Option<int> {
    match e
    case Admitted(t) => Some(t.startMs)
    case Settled(_, _, _, at) => Some(at)
    case _ => None
  }

  /** The clock never runs backwards in `es`. */
  ghost predicate Chronological(es: seq<Event>) {
    forall a, b :: 0 <= a < b < |es| && When(es[a]).Some? && When(es[b]).Some? ==>
      When(es[a]).value <= When(es[b]).value
  }

  /** A trace in which no trade loses more than `m` and that is over by `now`. */
  ghost predicate Tidy(es: seq<Event>, m: real, now: int) {
    && LosesAtMost(es, m) && Chronological(es)
    && forall a :: 0 <= a < |es| && When(es[a]).Some? ==> When(es[a]).value <= now
  }

  lemma TidySnoc(es: seq<Event>, e: Event, m: real, now: int)
    requires Tidy(es, m, now) && When(e) == Some(now) && (e.Settled? ==> e.profit >= -m)
    ensures Tidy(es + [e], m, now)
  {
  }

  lemma TidyLater(es: seq<Event>, m: real, now: int, later: int)
    requires Tidy(es, m, now) && now <= later
    ensures Tidy(es, m, later)
  {
  }

  /**
   * The bound cannot be improved, whatever the cooldown and the number of slots: some run in which no trade loses more
   * than `m`, on a clock that never runs backwards, ends within `eps` of it.
   */
  lemma DailyLossBoundIsTight(cfg: Config, m: real, eps: real)
    requires cfg.maxDailyLossUsd > 0.0 && cfg.maxConcurrentTrades >= 1 && cfg.maxPositionSizeUsd > 0.0
    requires m > 0.0 && eps > 0.0
    ensures exists es :: && Legal(cfg, es) && LosesAtMost(es, m) && Chronological(es) && InFlight(es) == multiset{}
                         && LossFloor(cfg, 0, m) < Daily(es) <= LossFloor(cfg, 0, m) + eps
  {
    hide InFlight, Daily, LastBooked, Legal, Profit, Sized, Chronological, LosesAtMost, Tidy;
    var n, d := cfg.maxConcurrentTrades, Min(m, eps);
    var opp := Opportunity("", "", "", 1.0, 1.0, Max(cfg.minNetProfitUsd, 1.0));
    var j := StepsBelow(cfg.maxDailyLossUsd, d);
    var near, now := Approach(cfg, opp, LosingFills(cfg.feeRatePerSide, d), d, m, j);
    var t := Ticket(opp, Sized(cfg, opp).value, now);
    var full := AdmitMany(cfg, near, t, n, m);
    LosingFillsLose(cfg.feeRatePerSide, m);
    var r := SettleMany(cfg, full, t, LosingFills(cfg.feeRatePerSide, m), n, m);
    FloorWhenIdle(cfg, m);
    TidyMeans(r, m, now);
  }

  lemma TidyMeans(es: seq<Event>, m: real, now: int)
    requires Tidy(es, m, now)
    ensures LosesAtMost(es, m) && Chronological(es)
  {
  }

  lemma FloorWhenIdle(cfg: Config, m: real)
    ensures LossFloor(cfg, 0, m) == Times(-m, cfg.maxConcurrentTrades as real) - cfg.maxDailyLossUsd
  {
    var n := cfg.maxConcurrentTrades as real;
    assert -m * n == -(m * n);
  }

  /** How often `d` goes below `limit`: the last multiple that stays under it. */
  lemma StepsBelow(limit: real, d: real) returns (j: nat)
    requires limit > 0.0 && d > 0.0
    ensures Times(d, j as real) < limit <= Times(d, j as real) + d
  {
    var q := limit / d;
    WholeSteps(limit, d, q);
    hide Times;
    j := if q == q.Floor as real then q.Floor - 1 else q.Floor;
    ScaleOrder(d, j as real, q);
    ScaleOrder(d, q, (j + 1) as real);
    OneMore(d, j + 1);
  }

  lemma WholeSteps(limit: real, d: real, q: real)
    requires limit > 0.0 && d > 0.0 && q == limit / d
    ensures q > 0.0 && Times(d, q) == limit
  {
    assert q * d == limit;
  }

  lemma ScaleOrder(d: real, x: real, y: real)
    requires d > 0.0 && x <= y
    ensures Times(d, x) <= Times(d, y)
    ensures x < y ==> Times(d, x) < Times(d, y)
  {
    var z := y - x;
    assert d * z >= 0.0;
    assert z > 0.0 ==> d * z > 0.0;
    assert d * y == d * x + d * z;
  }

  /** Fills that book a loss of `d`, at any fee rate. */
  function LosingFills(rate: real, d: real): Fills {
    if rate == -1.0 then Both(Some(Order(0.0, 1.0)), Some(Order(-d / 2.0, 1.0)))
    else Both(Some(Order(d / (1.0 + rate), 1.0)), Some(Order(0.0, 1.0)))
  }

  lemma LosingFillsLose(rate: real, d: real)
    ensures Profit(LosingFills(rate, d), rate) == -d
  {
    if rate != -1.0 {
      var p := d / (1.0 + rate);
      assert p * (1.0 + rate) == d;
      assert p * 1.0 * rate == p * rate;
      assert p * (1.0 + rate) == p + p * rate;
    }
  }

  /** Towards the limit in `j` trades, one after the other, each losing `d` and each a cooldown after the last. */
  lemma {:induction false} Approach(cfg: Config, opp: Opportunity, f: Fills, d: real, m: real, j: nat)
    returns (r: seq<Event>, now: int)
    requires cfg.maxConcurrentTrades >= 1 && f == LosingFills(cfg.feeRatePerSide, d) && 0.0 < d <= m
    requires opp.estimatedProfitUsd >= cfg.minNetProfitUsd && Sized(cfg, opp).Some?
    requires Times(d, j as real) < cfg.maxDailyLossUsd
    ensures Legal(cfg, r) && InFlight(r) == multiset{} && Tidy(r, m, now)
    ensures Daily(r) == -Times(d, j as real) && !Cooling(cfg, LastBooked(r, opp.symbol), now)
    decreases j
  {
    hide InFlight, Daily, LastBooked, Legal, Profit, Tidy, Sized;
    if j == 0 {
      r, now := [], 0;
      Nothing(cfg, m, now);
    } else {
      OneMore(d, j);
      assert Times(-d, 1.0) == -d;
      var before, start := Approach(cfg, opp, f, d, m, j - 1);
      var t := Ticket(opp, Sized(cfg, opp).value, start);
      var mid := AdmitMany(cfg, before, t, 1, m);
      LosingFillsLose(cfg.feeRatePerSide, d);
      r := SettleMany(cfg, mid, t, f, 1, m);
      now := start + if cfg.cooldownMs > 0 then cfg.cooldownMs else 0;
      TidyLater(r, m, start, now);
    }
  }

  lemma Nothing(cfg: Config, m: real, now: int)
    ensures Legal(cfg, []) && InFlight([]) == multiset{} && Daily([]) == 0.0 && Tidy([], m, now)
    ensures forall s :: LastBooked([], s) == None
  {
  }

  /** Admit `t` on an idle executor `n` times over. */
  lemma {:induction false} AdmitMany(cfg: Config, es: seq<Event>, t: Ticket, n: nat, m: real) returns (r: seq<Event>)
    requires Legal(cfg, es) && InFlight(es) == multiset{} && n <= cfg.maxConcurrentTrades && Tidy(es, m, t.startMs)
    requires n > 0 ==> MayFollow(cfg, es, Admitted(t))
    ensures Legal(cfg, r) && InFlight(r) == multiset{}[t := n] && Tidy(r, m, t.startMs)
    ensures Daily(r) == Daily(es) && LastBooked(r, t.opp.symbol) == LastBooked(es, t.opp.symbol)
  {
    hide InFlight, Daily, LastBooked, Legal, Tidy, Sized;
    if n == 0 {
      r := es;
    } else {
      var mid := AdmitMany(cfg, es, t, n - 1, m);
      r := mid + [Admitted(t)];
      LegalSnoc(cfg, mid, Admitted(t));
      TraceSnoc(mid, Admitted(t));
      TidySnoc(mid, Admitted(t), m, t.startMs);
    }
  }

  /** Settle `n` waiting calls, each with the same fills. */
  lemma {:induction false} SettleMany(cfg: Config, es: seq<Event>, t: Ticket, fills: Fills, n: nat, m: real)
    returns (r: seq<Event>)
    requires Legal(cfg, es) && InFlight(es) == multiset{}[t := n] && Tidy(es, m, t.startMs)
    requires Profit(fills, cfg.feeRatePerSide) >= -m
    ensures Legal(cfg, r) && InFlight(r) == multiset{} && Tidy(r, m, t.startMs)
    ensures Daily(r) == Daily(es) + Times(Profit(fills, cfg.feeRatePerSide), n as real)
    ensures if n == 0 then r == es else LastBooked(r, t.opp.symbol) == Some(t.startMs)
    decreases n
  {
    hide InFlight, Daily, LastBooked, Legal, Profit, Tidy;
    if n == 0 {
      r := es;
      assert Times(Profit(fills, cfg.feeRatePerSide), 0.0) == 0.0;
    } else {
      hide Times;
      var profit := Profit(fills, cfg.feeRatePerSide);
      var settle := Settled(t, fills, profit, t.startMs);
      LegalSnoc(cfg, es, settle);
      TraceSnoc(es, settle);
      TidySnoc(es, settle, m, t.startMs);
      assert InFlight(es + [settle]) == multiset{}[t := n - 1];
      r := SettleMany(cfg, es + [settle], t, fills, n - 1, m);
      OneMore(profit, n);
    }
  }

  lemma OneMore(p: real, n: nat)
    requires n >= 1
    ensures Times(p, n as real) == Times(p, (n - 1) as real) + p
  {
    var k := (n - 1) as real;
    assert p * (k + 1.0) == p * k + p;
  }

  lemma {:induction false} LastBookedIsNewest(es: seq<Event>, j: nat)
    requires j < |es| && es[j].Settled?
    requires forall i, k :: 0 <= i < k < |es| && es[i].Settled? && es[k].Settled? ==> es[i].at <= es[k].at
    ensures var last := LastBooked(es, es[j].ticket.opp.symbol); last.Some? && es[j].at <= last.value
  {
    var e := es[|es| - 1];
    if !(e.Settled? && e.ticket.opp.symbol == es[j].ticket.opp.symbol) {
      LastBookedIsNewest(es[..|es| - 1], j);
    }
  }

  lemma {:induction false} LegalPrefix(cfg: Config, es: seq<Event>, k: nat)
    requires Legal(cfg, es) && k < |es|
    ensures Legal(cfg, es[..k]) && MayFollow(cfg, es[..k], es[k])
  {
    if k < |es| - 1 {
      LegalPrefix(cfg, es[..|es| - 1], k);
      assert es[..|es| - 1][..k] == es[..k];
    }
  }

  /** A call admitted after a trade in the same symbol was booked comes at least the cooldown later. */
  lemma CooldownIsKept(cfg: Config, es: seq<Event>, j: nat, k: nat)
    requires Legal(cfg, es) && j < k < |es|
    requires es[j].Settled? && es[k].Admitted? && es[j].ticket.opp.symbol == es[k].ticket.opp.symbol
    requires es[j].at > 0
    requires forall a, b :: 0 <= a < b < |es| && es[a].Settled? && es[b].Settled? ==> es[a].at <= es[b].at
    ensures es[k].ticket.startMs - es[j].at >= cfg.cooldownMs
  {
    LegalPrefix(cfg, es, k);
    LastBookedIsNewest(es[..k], j);
  }

  // ----- the dashboard -----

  /** The dashboard's net profit over a log. */
  function NetProfitUsd(log: seq<Trade>): real { Sum(Map(log, Net)) }

  function TotalProfitUsd(log: seq<Trade>): real { Sum(Filter(Map(log, Net), Win)) }

  function TotalLossUsd(log: seq<Trade>): real { Abs(Sum(Filter(Map(log, Net), Loss))) }

  /** Gains less losses is the net; `failedTrades` counts every trade that did not win, break-even ones included. */
  lemma DashboardAddsUp(log: seq<Trade>)
    ensures NetProfitUsd(log) == TotalProfitUsd(log) - TotalLossUsd(log)
    ensures TotalProfitUsd(log) == Sum(Filter(Map(log, Net), Win)) >= 0.0
    ensures TotalLossUsd(log) == -Sum(Filter(Map(log, Net), Loss)) >= 0.0
    ensures |log| - |Filter(Map(log, Net), Win)| == |Filter(Map(log, Net), NotWin)|
  {
    SumSplits(Map(log, Net));
  }

  // ----- the executor -----

  class ArbitrageExecutor {
    const cfg: Config
    var exchanges: set<string>
    var tradeLog: seq<Trade>
    var activeTrades: int
    var dailyPnL: real
    var lastTradeTime: map<string, int>
    var tradeCounter: nat

    ghost var trace: seq<Event>

    ghost predicate Valid()
      reads this
    {
      Books() && activeTrades == |InFlight(trace)|
    }

    /** Everything but the count of waiting calls says what the trace says. */
    ghost predicate Books()
      reads this`trace, this`dailyPnL, this`tradeLog, this`tradeCounter, this`lastTradeTime
    {
      && Legal(cfg, trace)
      && dailyPnL == Daily(trace)
      && LogAgrees(Booked(trace))
      && (forall s :: LastBooked(trace, s) == if s in lastTradeTime then Some(lastTradeTime[s]) else None)
    }


    /** The log holds the booked profits, numbered from one. */
    ghost predicate LogAgrees(booked: seq<real>)
      reads this`tradeLog, this`tradeCounter
    {
      && Map(tradeLog, Net) == booked
      && tradeCounter == |tradeLog|
      && (forall i :: 0 <= i < |tradeLog| ==> tradeLog[i].id == i + 1)
    }

    constructor (cfg: Config)
      ensures Valid() && this.cfg == cfg && trace == [] && exchanges == {} && tradeLog == []
    {
      this.cfg := cfg;
      exchanges, tradeLog, activeTrades, dailyPnL, lastTradeTime, tradeCounter := {}, [], 0, 0.0, map[], 0;
      trace := [];
    }

    method AddExchange(name: string)
      requires Valid()
      modifies this`exchanges
      ensures Valid() && exchanges == old(exchanges) + {name}
    {
      exchanges := exchanges + {name};
    }

    function PreFlightChecks(opp: Opportunity, now: int): (r: Option<Rejection>)
      reads this`activeTrades, this`dailyPnL, this`lastTradeTime
    {
      if activeTrades >= cfg.maxConcurrentTrades then Some(MaxConcurrent)
      else if dailyPnL <= -cfg.maxDailyLossUsd then Some(DailyLossLimit)
      else if opp.estimatedProfitUsd < cfg.minNetProfitUsd then Some(BelowMinProfit)
      else if Cooling(cfg, if opp.symbol in lastTradeTime then Some(lastTradeTime[opp.symbol]) else None, now) then
        Some(CooldownActive)
      else None
    }

    /** `execute` up to its await. */
    method Begin(opp: Opportunity, now: int) returns (r: Admission)
      requires Valid()
      modifies this`activeTrades, this`trace
      ensures Valid()
      ensures r.Started? <==>
              opp.buyExchange in exchanges && opp.sellExchange in exchanges && Admissible(cfg, old(trace), opp, now)
      ensures r.Started? ==> && r.ticket == Ticket(opp, Sized(cfg, opp).value, now)
                             && trace == old(trace) + [Admitted(r.ticket)]
      ensures r.Rejected? ==>
              && trace == old(trace)
              && r.why == (if |InFlight(trace)| >= cfg.maxConcurrentTrades then MaxConcurrent
                           else if Daily(trace) <= -cfg.maxDailyLossUsd then DailyLossLimit
                           else if opp.estimatedProfitUsd < cfg.minNetProfitUsd then BelowMinProfit
                           else if !CooledDown(cfg, trace, opp.symbol, now) then CooldownActive
                           else if opp.buyExchange !in exchanges || opp.sellExchange !in exchanges then ExchangeNotFound
                           else InvalidPositionSize)
    {
      hide Legal, InFlight, Daily, Booked, LastBooked, Sized, WorthTrading, Admissible;
      AdmissibleExactly(cfg, trace, opp, now);
      SizedExactly(cfg, opp);
      var check := PreFlightChecks(opp, now);
      if check.Some? {
        return Rejected(check.value);
      }
      if opp.buyExchange !in exchanges || opp.sellExchange !in exchanges {
        return Rejected(ExchangeNotFound);
      }
      var amount := Sized(cfg, opp);
      if amount.None? {
        return Rejected(InvalidPositionSize);
      }
      activeTrades := activeTrades + 1;
      r := Started(Ticket(opp, amount.value, now));
      LegalSnoc(cfg, trace, Admitted(r.ticket));
      TraceSnoc(trace, Admitted(r.ticket));
      trace := trace + [Admitted(r.ticket)];
    }

    /** `execute` after its await. */
    method Settle(t: Ticket, fills: Fills, now: int) returns (r: Result)
      requires Valid()
      requires t in InFlight(trace)
      modifies this`tradeLog, this`activeTrades, this`dailyPnL, this`lastTradeTime, this`tradeCounter, this`trace
      ensures Valid()
      ensures r == Result(Profit(fills, cfg.feeRatePerSide), Fees(fills, cfg.feeRatePerSide),
                          fills.Both? && fills.buy.Some? && fills.sell.Some?)
      ensures BooksCash(fills, cfg.feeRatePerSide, r)
      ensures fills.Threw? ==> trace == old(trace) + [Failed(t)] && tradeLog == old(tradeLog)
      ensures fills.Both? ==>
              && trace == old(trace) + [Settled(t, fills, r.actualProfitUsd, now)]
              && tradeLog == old(tradeLog)
                             + [Trade(old(tradeCounter) + 1, now, t.opp, t.amount, r.actualProfitUsd + r.totalFeesUsd,
                                      r.totalFeesUsd, r.actualProfitUsd, now - t.startMs)]
    {
      hide Legal, InFlight, Daily, Booked, LastBooked, Profit, Fees, BooksCash, Books;
      SettlementBooksCash(fills, cfg.feeRatePerSide);
      match fills {
        case Threw =>
          FailureBooksNothing(cfg.feeRatePerSide);
          DropCall(t);
          r := Result(0.0, 0.0, false);
        case Both(buy, sell) =>
          var profit, fees := Profit(fills, cfg.feeRatePerSide), Fees(fills, cfg.feeRatePerSide);
          BookTrade(t, fills, profit, fees, now);
          r := Result(profit, fees, buy.Some? && sell.Some?);
      }
      activeTrades := activeTrades - 1;
    }

    /** A call that ends with an exception leaves the books alone. */
    ghost method DropCall(t: Ticket)
      requires Books() && t in InFlight(trace)
      modifies this`trace
      ensures Books() && trace == old(trace) + [Failed(t)] && |InFlight(trace)| == |InFlight(old(trace))| - 1
    {
      hide Legal, InFlight, Daily, Booked, LastBooked, LogAgrees;
      LegalSnoc(cfg, trace, Failed(t));
      TraceSnoc(trace, Failed(t));
      trace := trace + [Failed(t)];
    }

    /** Books the outcome of two orders: log, daily result, and the start of the cooldown. */
    method BookTrade(t: Ticket, fills: Fills, profit: real, fees: real, now: int)
      requires Books() && t in InFlight(trace) && profit == Profit(fills, cfg.feeRatePerSide)
      modifies this`tradeLog, this`dailyPnL, this`lastTradeTime, this`tradeCounter, this`trace
      ensures Books() && trace == old(trace) + [Settled(t, fills, profit, now)]
      ensures |InFlight(trace)| == |InFlight(old(trace))| - 1
      ensures tradeLog == old(tradeLog) + [Trade(old(tradeCounter) + 1, now, t.opp, t.amount, profit + fees, fees,
                                                 profit, now - t.startMs)]
    {
      hide Legal, InFlight, Daily, Booked, LastBooked, Profit, LogAgrees;
      ghost var was, e := trace, Settled(t, fills, profit, now);
      LogTrade(t, profit, fees, now, Booked(was));
      dailyPnL := dailyPnL + profit;
      lastTradeTime := lastTradeTime[t.opp.symbol := now];
      LegalSnoc(cfg, was, e);
      TraceSnoc(was, e);
      trace := was + [e];
    }

    method LogTrade(t: Ticket, profit: real, fees: real, now: int, ghost booked: seq<real>)
      requires LogAgrees(booked)
      modifies this`tradeLog, this`tradeCounter
      ensures tradeCounter == old(tradeCounter) + 1
      ensures tradeLog == old(tradeLog)
                          + [Trade(tradeCounter, now, t.opp, t.amount, profit + fees, fees, profit, now - t.startMs)]
      ensures LogAgrees(booked + [profit])
    {
      tradeCounter := tradeCounter + 1;
      tradeLog := tradeLog + [Trade(tradeCounter, now, t.opp, t.amount, profit + fees, fees, profit, now - t.startMs)];
    }

    method ResetDaily()
      requires Valid()
      modifies this`dailyPnL, this`trace
      ensures Valid() && dailyPnL == 0.0 && trace == old(trace) + [DayReset]
    {
      dailyPnL := 0.0;
      LegalSnoc(cfg, trace, DayReset);
      TraceSnoc(trace, DayReset);
      trace := trace + [DayReset];
    }
  }

  /** One more event, for each reading of the trace. */
  lemma TraceSnoc(es: seq<Event>, e: Event)
    ensures InFlight(es + [e]) == if e.DayReset? then InFlight(es)
                                  else if e.Admitted? then InFlight(es) + multiset{e.ticket}
                                  else InFlight(es) - multiset{e.ticket}
    ensures Daily(es + [e]) == if e.Settled? then Daily(es) + e.profit else if e.DayReset? then 0.0 else Daily(es)
    ensures Booked(es + [e]) == if e.Settled? then Booked(es) + [e.profit] else Booked(es)
    ensures forall s :: LastBooked(es + [e], s) ==
                        if e.Settled? && e.ticket.opp.symbol == s then Some(e.at) else LastBooked(es, s)
  {
    assert (es + [e])[..|es|] == es;
  }
}
