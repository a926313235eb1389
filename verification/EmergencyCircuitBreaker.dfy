/** The trading kill switch: a three-state machine over plain loss histories, and the pruned counters that refine it. */
module EmergencyBreaker {
  import opened Wrappers
  import opened Stats

  datatype Config = Config(
    maxDailyLossUsd: real,
    maxConsecutiveLosses: int,
    rapidLossWindowMs: int,
    rapidLossCount: int,
    cooldownMs: int,
    halfOpenMaxTrades: int)

  datatype Mode = Closed | Open | HalfOpen

  datatype Trigger = DailyLoss | LossStreak | RapidLoss | Manual | ExchangeAnomaly

  /** A trade counted against the limits. */
  datatype Trade = Trade(pnl: real, at: int)

  // ----- the plain readings of a loss history -----

  /** Everything lost. */
  function LossTotal(h: seq<Trade>): real {
    if h == [] then 0.0
    else LossTotal(h[..|h| - 1]) + if h[|h| - 1].pnl < 0.0 then -h[|h| - 1].pnl else 0.0
  }

  /** The number of losses since the last trade that was not one. */
  function LossRun(h: seq<Trade>): nat {
    if h == [] || h[|h| - 1].pnl >= 0.0 then 0 else LossRun(h[..|h| - 1]) + 1
  }

  /** When the losses happened. */
  function LossTimes(h: seq<Trade>): seq<int> {
    if h == [] then []
    else if h[|h| - 1].pnl < 0.0 then LossTimes(h[..|h| - 1]) + [h[|h| - 1].at]
    else LossTimes(h[..|h| - 1])
  }

  /** The times that lie within the window that ends now. */
  function Recent(times: seq<int>, now: int, window: int): seq<int> {
    if times == [] then []
    else
      var init := Recent(times[..|times| - 1], now, window);
      if now - times[|times| - 1] <= window then init + [times[|times| - 1]] else init
  }

  /** The limit that the last trade of `h` reaches, in the order in which the limits are checked. */
  function Breach(cfg: Config, h: seq<Trade>): Option<Trigger> {
    if h == [] || h[|h| - 1].pnl >= 0.0 then None
    else if LossTotal(h) >= cfg.maxDailyLossUsd then Some(DailyLoss)
    else if LossRun(h) >= cfg.maxConsecutiveLosses then Some(LossStreak)
    else if |Recent(LossTimes(h), h[|h| - 1].at, cfg.rapidLossWindowMs)| >= cfg.rapidLossCount then Some(RapidLoss)
    else None
  }

  function PnlOf(t: Trade): real { t.pnl }

  lemma {:induction false} LossTotalExactly(h: seq<Trade>)
    ensures LossTotal(h) == -Sum(Filter(Map(h, PnlOf), Loss))
  {
    if h != [] {
      var init, t := h[..|h| - 1], h[|h| - 1];
      LossTotalExactly(init);
      assert Map(h, PnlOf) == Map(init, PnlOf) + [t.pnl];
      FilterSnoc(Map(init, PnlOf), t.pnl, Loss);
      SumSnoc(Filter(Map(init, PnlOf), Loss), t.pnl);
    }
  }

  lemma {:induction false} LossRunExactly(h: seq<Trade>, n: int)
    ensures LossRun(h) >= n <==> |h| >= n && forall i :: 0 <= i < |h| && |h| - n <= i ==> h[i].pnl < 0.0
  {
    if h != [] {
      var k := |h| - 1;
      LossRunExactly(h[..k], n - 1);
      if n >= 1 {
        assert h[k].pnl >= 0.0 ==> LossRun(h) < n;
        assert forall i :: 0 <= i < k ==> h[..k][i] == h[i];
      }
    }
  }

  /** The losses of `h` that lie within the window that ends at `now`. */
  ghost function RecentLosses(h: seq<Trade>, now: int, window: int): set<int> {
    set i | 0 <= i < |h| && h[i].pnl < 0.0 && now - h[i].at <= window
  }

  lemma {:induction false} RecentExactly(h: seq<Trade>, now: int, window: int)
    ensures |Recent(LossTimes(h), now, window)| == |RecentLosses(h, now, window)|
  {
    if h != [] {
      var k := |h| - 1;
      RecentExactly(h[..k], now, window);
      RecentLossesSnoc(h, now, window);
      if h[k].pnl < 0.0 {
        RecentSnoc(LossTimes(h[..k]), h[k].at, now, window);
      }
    } else {
      assert RecentLosses(h, now, window) == {};
    }
  }

  lemma RecentLossesSnoc(h: seq<Trade>, now: int, window: int)
    requires h != []
    ensures var k := |h| - 1;
            |RecentLosses(h, now, window)| == |RecentLosses(h[..k], now, window)|
                                              + if h[k].pnl < 0.0 && now - h[k].at <= window then 1 else 0
  {
    var k := |h| - 1;
    var before := RecentLosses(h[..k], now, window);
    assert k !in before;
    if h[k].pnl < 0.0 && now - h[k].at <= window {
      assert RecentLosses(h, now, window) == before + {k};
    } else {
      assert RecentLosses(h, now, window) == before;
    }
  }

  /**
   * The three limits over the whole history: what all losses add up to, whether the last so many trades all lost, and
   * how many losses lie in the window. The first one reached, in this order, is named.
   */
  lemma BreachExactly(cfg: Config, h: seq<Trade>)
    requires h != [] && h[|h| - 1].pnl < 0.0
    ensures var n, now := |h|, h[|h| - 1].at;
            var total := -Sum(Filter(Map(h, PnlOf), Loss)) >= cfg.maxDailyLossUsd;
            var streak := n >= cfg.maxConsecutiveLosses
                          && forall i :: 0 <= i < n && n - cfg.maxConsecutiveLosses <= i ==> h[i].pnl < 0.0;
            var rapid := |set i | 0 <= i < n && h[i].pnl < 0.0 && now - h[i].at <= cfg.rapidLossWindowMs|
                         >= cfg.rapidLossCount;
            && (Breach(cfg, h) == Some(DailyLoss) <==> total)
            && (Breach(cfg, h) == Some(LossStreak) <==> !total && streak)
            && (Breach(cfg, h) == Some(RapidLoss) <==> !total && !streak && rapid)
            && (Breach(cfg, h).None? <==> !total && !streak && !rapid)
  {
    hide LossTotal, LossRun, LossTimes, Recent, Filter, Sum;
    LossTotalExactly(h);
    LossRunExactly(h, cfg.maxConsecutiveLosses);
    RecentExactly(h, h[|h| - 1].at, cfg.rapidLossWindowMs);
  }

  /** What all losses of `h` add up to reaches the daily limit. */
  ghost predicate TotalReached(cfg: Config, h: seq<Trade>) {
    -Sum(Filter(Map(h, PnlOf), Loss)) >= cfg.maxDailyLossUsd
  }

  /** The last `maxConsecutiveLosses` trades of `h` exist and all lost. */
  ghost predicate StreakReached(cfg: Config, h: seq<Trade>) {
    && |h| >= cfg.maxConsecutiveLosses
    && forall i :: 0 <= i < |h| && |h| - cfg.maxConsecutiveLosses <= i ==> h[i].pnl < 0.0
  }

  /** At least `rapidLossCount` losses of `h` are no older than the window when the last trade comes. */
  ghost predicate RapidReached(cfg: Config, h: seq<Trade>)
    requires h != []
  {
    |set i | 0 <= i < |h| && h[i].pnl < 0.0 && h[|h| - 1].at - h[i].at <= cfg.rapidLossWindowMs| >= cfg.rapidLossCount
  }

  lemma BreachNames(cfg: Config, h: seq<Trade>)
    requires h != []
    ensures Breach(cfg, h) == if h[|h| - 1].pnl >= 0.0 then None
                              else if TotalReached(cfg, h) then Some(DailyLoss)
                              else if StreakReached(cfg, h) then Some(LossStreak)
                              else if RapidReached(cfg, h) then Some(RapidLoss)
                              else None
  {
    if h[|h| - 1].pnl < 0.0 {
      BreachExactly(cfg, h);
      hide Breach, Sum, Filter;
    }
  }

  /** A trade trips: any loss while half-open, and otherwise one that breaches a limit. */
  predicate Trips(cfg: Config, s: State, pnl: real, at: int) {
    if s.mode == HalfOpen then pnl < 0.0 else Breach(cfg, s.history + [Trade(pnl, at)]).Some?
  }

  // ----- the machine over plain histories -----

  /** `history` holds the trades counted since the last daily reset; `timer` is the deadline of the live timer. */
  datatype State = State(mode: Mode, history: seq<Trade>, lastTrip: int, probation: int, timer: Option<int>)

  datatype Event =
    | Traded(pnl: real, at: int)
    | Tripped(at: int)
    | DayReset
    | ForcedClosed
    | ShutDown
    | TimerFired(at: int)

  const START := State(Closed, [], 0, 0, None)

  function ToOpen(cfg: Config, s: State, at: int): State {
    s.(mode := Open, lastTrip := at, timer := Some(at + cfg.cooldownMs))
  }

  function ToClosed(s: State): State { s.(mode := Closed, probation := 0, timer := None) }

  function Step(cfg: Config, s: State, e: Event): State {
    match e
    case Traded(pnl, at) =>
      if s.mode == HalfOpen then
        var t := s.(probation := s.probation + 1);
        if pnl < 0.0 then ToOpen(cfg, t, at)
        else if t.probation >= cfg.halfOpenMaxTrades then ToClosed(t)
        else t
      else
        var t := s.(history := s.history + [Trade(pnl, at)]);
        if Breach(cfg, t.history).Some? then ToOpen(cfg, t, at) else t
    case Tripped(at) => ToOpen(cfg, s, at)
    case DayReset => if s.mode == Open then ToClosed(s.(history := [])) else s.(history := [])
    case ForcedClosed => ToClosed(s)
    case ShutDown => s.(timer := None)
    case TimerFired(at) =>
      if s.timer.Some? && s.timer.value <= at then
        if s.mode == Open then s.(mode := HalfOpen, probation := 0, timer := None) else s.(timer := None)
      else s
  }

  function Run(cfg: Config, s: State, es: seq<Event>): State {
    if es == [] then s else Step(cfg, Run(cfg, s, es[..|es| - 1]), es[|es| - 1])
  }

  predicate Allows(cfg: Config, s: State) {
    s.mode == Closed || (s.mode == HalfOpen && s.probation < cfg.halfOpenMaxTrades)
  }

  // ----- the recovery protocol, over every run -----

  /** A live timer always belongs to the open state and ends one cooldown after the last trip. */
  ghost predicate TimerSound(cfg: Config, s: State) {
    s.timer.Some? ==> s.mode == Open && s.timer.value == s.lastTrip + cfg.cooldownMs
  }

  lemma {:induction false} TimerProtocol(cfg: Config, es: seq<Event>)
    ensures TimerSound(cfg, Run(cfg, START, es))
    ensures ShutDown !in es ==> (Run(cfg, START, es).mode == Open <==> Run(cfg, START, es).timer.Some?)
  {
    if es != [] {
      var init := es[..|es| - 1];
      TimerProtocol(cfg, init);
      assert ShutDown !in es ==> ShutDown !in init && es[|es| - 1] != ShutDown;
    }
  }

  /** Half-open trades are counted strictly below the allowance, so a half-open breaker lets trades through. */
  lemma {:induction false} HalfOpenHasRoom(cfg: Config, es: seq<Event>)
    ensures var s := Run(cfg, START, es);
            s.mode == HalfOpen ==> 0 <= s.probation && (s.probation == 0 || s.probation < cfg.halfOpenMaxTrades)
    ensures Run(cfg, START, es).mode == HalfOpen ==> (Allows(cfg, Run(cfg, START, es)) <==> cfg.halfOpenMaxTrades >= 1)
  {
    if es != [] {
      HalfOpenHasRoom(cfg, es[..|es| - 1]);
    }
  }

  /** Open before event `i`, and half-open ever since. */
  ghost predicate HalfOpenSince(cfg: Config, es: seq<Event>, i: nat) {
    && i < |es| && Run(cfg, START, es[..i]).mode == Open
    && forall j :: i < j <= |es| ==> Run(cfg, START, es[..j]).mode == HalfOpen
  }

  /** The timer that is event `i` turned the breaker half-open; it has counted the trades since, none of them a loss. */
  ghost predicate Trial(cfg: Config, es: seq<Event>, i: nat) {
    && HalfOpenSince(cfg, es, i) && es[i].TimerFired?
    && NoLoss(Trades(es[i + 1..]))
    && Run(cfg, START, es).probation == |Trades(es[i + 1..])|
  }

  ghost predicate NoLoss(pnls: seq<real>) {
    forall j :: 0 <= j < |pnls| ==> pnls[j] >= 0.0
  }

  ghost function Trades(es: seq<Event>): seq<real> {
    if es == [] then []
    else
      var before := Trades(es[..|es| - 1]);
      if es[|es| - 1].Traded? then before + [es[|es| - 1].pnl] else before
  }

  /** The operator neither forces the breaker closed nor resets the day. */
  ghost predicate HandsOff(es: seq<Event>) {
    forall i :: 0 <= i < |es| ==> !es[i].ForcedClosed? && !es[i].DayReset?
  }

  lemma StaysHalfOpen(cfg: Config, s: State, e: Event)
    requires s.mode == HalfOpen && Step(cfg, s, e).mode == HalfOpen
    ensures e.Traded? ==> e.pnl >= 0.0
    ensures Step(cfg, s, e).probation == s.probation + if e.Traded? then 1 else 0
  {
  }

  lemma TradesSnoc(es: seq<Event>, e: Event)
    ensures Trades(es + [e]) == Trades(es) + if e.Traded? then [e.pnl] else []
  {
    assert (es + [e])[..|es|] == es;
  }

  lemma HalfOpenSinceSnoc(cfg: Config, es: seq<Event>, e: Event, i: nat)
    requires HalfOpenSince(cfg, es, i) && Run(cfg, START, es + [e]).mode == HalfOpen
    ensures HalfOpenSince(cfg, es + [e], i)
  {
    hide Run;
    var all := es + [e];
    assert all[..|all|] == all;
    assert forall j :: 0 <= j <= |es| ==> all[..j] == es[..j];
  }

  lemma RunSnoc(cfg: Config, s: State, es: seq<Event>, e: Event)
    ensures Run(cfg, s, es + [e]) == Step(cfg, Run(cfg, s, es), e)
  {
    assert (es + [e])[..|es|] == es;
  }

  lemma TrialGrows(cfg: Config, es: seq<Event>, e: Event, i: nat)
    requires Trial(cfg, es, i) && Run(cfg, START, es + [e]).mode == HalfOpen
    ensures Trial(cfg, es + [e], i)
  {
    hide Run, Step, Trades, HalfOpenSince;
    HalfOpenSinceSnoc(cfg, es, e, i);
    RunSnoc(cfg, START, es, e);
    TrialIsHalfOpen(cfg, es, i);
    StaysHalfOpen(cfg, Run(cfg, START, es), e);
    assert (es + [e])[i + 1..] == es[i + 1..] + [e];
    TradesSnoc(es[i + 1..], e);
  }

  lemma TrialIsHalfOpen(cfg: Config, es: seq<Event>, i: nat)
    requires Trial(cfg, es, i)
    ensures i < |es| && Run(cfg, START, es).mode == HalfOpen
  {
    hide Run;
    assert es[..|es|] == es;
  }

  lemma TrialStarts(cfg: Config, es: seq<Event>)
    requires es != [] && Run(cfg, START, es[..|es| - 1]).mode == Open && Run(cfg, START, es).mode == HalfOpen
    ensures Trial(cfg, es, |es| - 1)
  {
    assert es[|es|..] == [] && es[..|es|] == es;
  }

  /** Over all events, in every run: a half-open breaker is in a trial. */
  lemma {:induction false} HalfOpenIsATrial(cfg: Config, es: seq<Event>)
    requires Run(cfg, START, es).mode == HalfOpen
    ensures exists i: nat :: Trial(cfg, es, i)
  {
    var init := es[..|es| - 1];
    if Run(cfg, START, init).mode == HalfOpen {
      HalfOpenIsATrial(cfg, init);
      var i: nat :| Trial(cfg, init, i);
      TrialGrows(cfg, init, es[|es| - 1], i);
      assert es == init + [es[|es| - 1]];
    } else {
      TrialStarts(cfg, es);
    }
  }

  /**
   * In every run, what closes a breaker that is not closed: the operator; a daily reset, if it is open; and, if it is
   * half-open, the non-losing trade that completes its trial.
   */
  lemma ClosingTakesACleanTrial(cfg: Config, es: seq<Event>, e: Event)
    requires Run(cfg, START, es).mode != Closed
    ensures var mode := Run(cfg, START, es).mode;
            Run(cfg, START, es + [e]).mode == Closed <==>
            || e.ForcedClosed?
            || (mode == Open && e.DayReset?)
            || (mode == HalfOpen && e.Traded? && e.pnl >= 0.0
                && exists i: nat :: Trial(cfg, es, i) && |Trades(es[i + 1..])| + 1 >= cfg.halfOpenMaxTrades)
  {
    assert (es + [e])[..|es|] == es;
    if Run(cfg, START, es).mode == HalfOpen {
      HalfOpenIsATrial(cfg, es);
    }
  }

  /** The trial starts exactly with the timer, once the cooldown is over, unless a shutdown has dropped the timer. */
  lemma {:induction false} TrialWaitsForCooldown(cfg: Config, es: seq<Event>, e: Event)
    requires Run(cfg, START, es).mode == Open
    ensures Step(cfg, Run(cfg, START, es), e).mode == HalfOpen <==>
            e.TimerFired? && e.at >= Run(cfg, START, es).lastTrip + cfg.cooldownMs && !ShutSinceTrip(cfg, es)
  {
    hide Breach;
    TimerProtocol(cfg, es);
    TimerUnlessShutDown(cfg, es);
  }

  /** While open, only the timer, a forced close or a daily reset can end the block. */
  lemma {:induction false} OpenHolds(cfg: Config, s: State, es: seq<Event>)
    requires s.mode == Open && HandsOff(es)
    requires forall i :: 0 <= i < |es| ==> !es[i].TimerFired?
    ensures Run(cfg, s, es).mode == Open && !Allows(cfg, Run(cfg, s, es))
  {
    if es != [] {
      OpenHolds(cfg, s, es[..|es| - 1]);
    }
  }

  /** The event arms a timer. */
  predicate Arms(cfg: Config, s: State, e: Event) {
    e.Tripped? || (e.Traded? && Trips(cfg, s, e.pnl, e.at))
  }

  /** Going back from the end, a shutdown is met before any trip. */
  ghost predicate ShutSinceTrip(cfg: Config, es: seq<Event>) {
    && es != []
    && (es[|es| - 1].ShutDown?
        || (!Arms(cfg, Run(cfg, START, es[..|es| - 1]), es[|es| - 1]) && ShutSinceTrip(cfg, es[..|es| - 1])))
  }

  /** An open breaker has a timer exactly when no shutdown has come since the trip that opened it last. */
  lemma {:induction false} TimerUnlessShutDown(cfg: Config, es: seq<Event>)
    requires Run(cfg, START, es).mode == Open
    ensures Run(cfg, START, es).timer.Some? <==> !ShutSinceTrip(cfg, es)
  {
    hide Breach;
    var init := es[..|es| - 1];
    if Run(cfg, START, init).mode == Open {
      TimerUnlessShutDown(cfg, init);
    }
  }

  /** After a shutdown no timer is left to end the block: only the operator, or a trip that arms a new timer, does. */
  lemma {:induction false} ShutdownStrandsOpen(cfg: Config, s: State, es: seq<Event>)
    requires s.mode == Open
    requires forall i :: 0 <= i < |es| ==> es[i].TimerFired? || es[i].ShutDown?
    ensures Run(cfg, Step(cfg, s, ShutDown), es) == s.(timer := None)
  {
    if es != [] {
      ShutdownStrandsOpen(cfg, s, es[..|es| - 1]);
    }
  }

  /** A trial does not ask for profit: trades that earn exactly nothing close the breaker as well as any. */
  lemma {:induction false} IdleTrialCloses(cfg: Config, s: State, es: seq<Event>)
    requires s.mode == HalfOpen && s.probation == 0
    requires forall i :: 0 <= i < |es| ==> es[i].Traded? && es[i].pnl == 0.0
    requires 1 <= |es| <= cfg.halfOpenMaxTrades
    ensures |es| < cfg.halfOpenMaxTrades ==> Run(cfg, s, es) == s.(probation := |es|)
    ensures |es| == cfg.halfOpenMaxTrades ==> Run(cfg, s, es) == ToClosed(s)
  {
    if |es| > 1 {
      IdleTrialCloses(cfg, s, es[..|es| - 1]);
    } else {
      assert Run(cfg, s, es[..0]) == s;
    }
  }

  // ----- what slips through between two resets -----

  /** The losses of `h` that left the breaker untripped when they were recorded. */
  function UntrippedLosses(cfg: Config, h: seq<Trade>): real {
    if h == [] then 0.0
    else
      UntrippedLosses(cfg, h[..|h| - 1])
      + if h[|h| - 1].pnl < 0.0 && Breach(cfg, h).None? then -h[|h| - 1].pnl else 0.0
  }

  lemma {:induction false} UntrippedWithinTotal(cfg: Config, h: seq<Trade>)
    ensures UntrippedLosses(cfg, h) <= LossTotal(h)
  {
    if h != [] {
      UntrippedWithinTotal(cfg, h[..|h| - 1]);
    }
  }

  /** However the trades fall, losses that do not trip the breaker between two resets stay below the daily limit. */
  lemma {:induction false} UntrippedLossesAreBounded(cfg: Config, h: seq<Trade>)
    requires cfg.maxDailyLossUsd > 0.0
    ensures UntrippedLosses(cfg, h) < cfg.maxDailyLossUsd
  {
    if h != [] {
      UntrippedLossesAreBounded(cfg, h[..|h| - 1]);
      UntrippedWithinTotal(cfg, h);
    }
  }

  // ----- pruning -----

  /** From `clock` on, `pruned` and `all` agree on every window. */
  ghost predicate SameWindows(pruned: seq<int>, all: seq<int>, clock: int, window: int) {
    forall now :: now >= clock ==> Recent(pruned, now, window) == Recent(all, now, window)
  }

  lemma RecentSnoc(times: seq<int>, t: int, now: int, window: int)
    ensures Recent(times + [t], now, window) ==
            Recent(times, now, window) + if now - t <= window then [t] else []
  {
    assert (times + [t])[..|times|] == times;
  }

  lemma {:induction false} RecentTwice(times: seq<int>, now: int, later: int, window: int)
    requires now <= later
    ensures Recent(Recent(times, now, window), later, window) == Recent(times, later, window)
  {
    if times != [] {
      var init, t := times[..|times| - 1], times[|times| - 1];
      RecentTwice(init, now, later, window);
      RecentSnoc(Recent(init, now, window), t, later, window);
    }
  }

  lemma WindowsAppend(pruned: seq<int>, all: seq<int>, clock: int, window: int, t: int)
    requires SameWindows(pruned, all, clock, window) && clock <= t
    ensures SameWindows(pruned + [t], all + [t], t, window)
  {
    forall now | now >= t
      ensures Recent(pruned + [t], now, window) == Recent(all + [t], now, window)
    {
      RecentSnoc(pruned, t, now, window);
      RecentSnoc(all, t, now, window);
    }
  }

  /** Dropping what has left the window now changes no later window. */
  lemma WindowsPrune(pruned: seq<int>, all: seq<int>, clock: int, window: int)
    requires SameWindows(pruned, all, clock, window)
    ensures SameWindows(Recent(pruned, clock, window), all, clock, window)
    ensures Recent(pruned, clock, window) == Recent(all, clock, window)
  {
    forall now | now >= clock
      ensures Recent(Recent(pruned, clock, window), now, window) == Recent(all, now, window)
    {
      RecentTwice(pruned, clock, now, window);
    }
  }

  lemma HistorySnoc(h: seq<Trade>, pnl: real, at: int)
    ensures var g := h + [Trade(pnl, at)];
            && LossTotal(g) == LossTotal(h) + (if pnl < 0.0 then -pnl else 0.0)
            && LossRun(g) == (if pnl < 0.0 then LossRun(h) + 1 else 0)
            && LossTimes(g) == (if pnl < 0.0 then LossTimes(h) + [at] else LossTimes(h))
  {
    assert (h + [Trade(pnl, at)])[..|h|] == h;
  }

  // ----- the breaker -----

  class EmergencyCircuitBreaker {
    const cfg: Config
    var state: Mode
    var dailyLossUsd: real
    var consecutiveLosses: nat
    var recentLosses: seq<int>
    var tripHistory: seq<(Trigger, int)>
    var lastTripTime: int
    var halfOpenTradeCount: int
    var cooldownTimer: Option<int>

    ghost var history: seq<Trade> // unpruned
    ghost var clock: int          // when the last loss was counted

    /** The counters and the pruned window say what the plain history says. */
    ghost predicate Valid()
      reads this
    {
      && dailyLossUsd == LossTotal(history)
      && consecutiveLosses == LossRun(history)
      && SameWindows(recentLosses, LossTimes(history), clock, cfg.rapidLossWindowMs)
    }

    ghost function View(): State
      reads this
    {
      State(state, history, lastTripTime, halfOpenTradeCount, cooldownTimer)
    }

    constructor (cfg: Config)
      ensures Valid() && this.cfg == cfg && View() == START && tripHistory == []
    {
      this.cfg := cfg;
      state, dailyLossUsd, consecutiveLosses, recentLosses, tripHistory := Closed, 0.0, 0, [], [];
      lastTripTime, halfOpenTradeCount, cooldownTimer := 0, 0, None;
      history, clock := [], 0;
    }

    predicate IsAllowed()
      reads this
      ensures IsAllowed() <==> Allows(cfg, View())
      ensures IsAllowed() <==> state == Closed || (state == HalfOpen && halfOpenTradeCount < cfg.halfOpenMaxTrades)
    {
      if state == Closed then true
      else if state == HalfOpen then halfOpenTradeCount < cfg.halfOpenMaxTrades
      else false
    }

    /** Records a trade at time `now`; the clock does not run backwards between counted losses. */
    method RecordTrade(profitUsd: real, now: int) returns (tripped: bool)
      requires Valid() && clock <= now
      modifies this
      ensures Valid() && clock <= now
      ensures View() == Step(cfg, old(View()), Traded(profitUsd, now))
      ensures tripped <==> Trips(cfg, old(View()), profitUsd, now)
      // While half-open any loss trips and nothing is counted; otherwise a loss trips that reaches one of the limits.
      ensures old(state) == HalfOpen ==> (tripped <==> profitUsd < 0.0) && history == old(history)
      ensures old(state) != HalfOpen ==>
              && history == old(history) + [Trade(profitUsd, now)]
              && (tripped <==> profitUsd < 0.0 && (TotalReached(cfg, history) || StreakReached(cfg, history)
                                                   || RapidReached(cfg, history)))
      ensures tripHistory == old(tripHistory) +
              (if !tripped then []
               else if old(state) == HalfOpen then [(LossStreak, now)]
               else if TotalReached(cfg, history) then [(DailyLoss, now)]
               else if StreakReached(cfg, history) then [(LossStreak, now)]
               else [(RapidLoss, now)])
      ensures tripped ==> state == Open && lastTripTime == now && cooldownTimer == Some(now + cfg.cooldownMs)
      ensures !tripped && old(state) != HalfOpen ==> state == old(state) && cooldownTimer == old(cooldownTimer)
      ensures !tripped && old(state) == HalfOpen ==>
              state == if old(halfOpenTradeCount) + 1 >= cfg.halfOpenMaxTrades then Closed else HalfOpen
    {
      hide LossTotal, LossRun, LossTimes, Recent, SameWindows, Breach, TotalReached, StreakReached, RapidReached;
      if state == HalfOpen {
        tripped := RecordTrial(profitUsd, now);
      } else {
        tripped := RecordCounted(profitUsd, now);
        BreachNames(cfg, history);
      }
    }

    /** A trade while half-open. */
    method RecordTrial(profitUsd: real, now: int) returns (tripped: bool)
      requires state == HalfOpen
      modifies this`state, this`lastTripTime, this`tripHistory, this`cooldownTimer, this`halfOpenTradeCount
      ensures View() == Step(cfg, old(View()), Traded(profitUsd, now))
      ensures tripped <==> profitUsd < 0.0
      ensures tripHistory == old(tripHistory) + if tripped then [(LossStreak, now)] else []
    {
      halfOpenTradeCount := halfOpenTradeCount + 1;
      if profitUsd < 0.0 {
        Trip(LossStreak, now);
        return true;
      }
      if halfOpenTradeCount >= cfg.halfOpenMaxTrades {
        Close();
      }
      return false;
    }

    /** A trade that counts against the limits. */
    method RecordCounted(profitUsd: real, now: int) returns (tripped: bool)
      requires Valid() && clock <= now && state != HalfOpen
      modifies this
      ensures Valid() && clock <= now
      ensures View() == Step(cfg, old(View()), Traded(profitUsd, now))
      ensures tripped <==> Breach(cfg, old(history) + [Trade(profitUsd, now)]).Some?
      ensures tripHistory == old(tripHistory) +
              if tripped then [(Breach(cfg, old(history) + [Trade(profitUsd, now)]).value, now)] else []
    {
      hide LossTotal, LossRun, LossTimes, Recent, SameWindows;
      HistorySnoc(history, profitUsd, now);
      if profitUsd < 0.0 {
        WindowsAppend(recentLosses, LossTimes(history), clock, cfg.rapidLossWindowMs, now);
        history, clock := history + [Trade(profitUsd, now)], now;
        dailyLossUsd := dailyLossUsd + Abs(profitUsd);
        consecutiveLosses := consecutiveLosses + 1;
        recentLosses := recentLosses + [now];

        if dailyLossUsd >= cfg.maxDailyLossUsd {
          Trip(DailyLoss, now);
          return true;
        }
        if consecutiveLosses >= cfg.maxConsecutiveLosses {
          Trip(LossStreak, now);
          return true;
        }
        var recentWindow := Recent(recentLosses, now, cfg.rapidLossWindowMs);
        WindowsPrune(recentLosses, LossTimes(history), now, cfg.rapidLossWindowMs);
        recentLosses := recentWindow;
        if |recentWindow| >= cfg.rapidLossCount {
          Trip(RapidLoss, now);
          return true;
        }
      } else {
        history := history + [Trade(profitUsd, now)];
        consecutiveLosses := 0;
      }
      return false;
    }

    method ManualTrip(now: int)
      requires Valid()
      modifies this`state, this`lastTripTime, this`tripHistory, this`cooldownTimer
      ensures Valid() && View() == Step(cfg, old(View()), Tripped(now))
      ensures tripHistory == old(tripHistory) + [(Manual, now)]
      ensures state == Open && lastTripTime == now && cooldownTimer == Some(now + cfg.cooldownMs)
    {
      Trip(Manual, now);
    }

    method RecordExchangeAnomaly(now: int) returns (tripped: bool)
      requires Valid()
      modifies this`state, this`lastTripTime, this`tripHistory, this`cooldownTimer
      ensures tripped && Valid() && View() == Step(cfg, old(View()), Tripped(now))
      ensures tripHistory == old(tripHistory) + [(ExchangeAnomaly, now)]
      ensures state == Open && lastTripTime == now && cooldownTimer == Some(now + cfg.cooldownMs)
    {
      Trip(ExchangeAnomaly, now);
      return true;
    }

    method ResetDaily()
      requires Valid()
      modifies this
      ensures Valid() && View() == Step(cfg, old(View()), DayReset)
      ensures clock == old(clock) && tripHistory == old(tripHistory)
      ensures history == [] && dailyLossUsd == 0.0 && consecutiveLosses == 0 && recentLosses == []
      ensures state == (if old(state) == Open then Closed else old(state)) && lastTripTime == old(lastTripTime)
      ensures if old(state) == Open then cooldownTimer == None && halfOpenTradeCount == 0
              else cooldownTimer == old(cooldownTimer) && halfOpenTradeCount == old(halfOpenTradeCount)
    {
      dailyLossUsd, consecutiveLosses, recentLosses, history := 0.0, 0, [], [];
      if state == Open {
        Close();
      }
    }

    method ForceClose()
      requires Valid()
      modifies this`state, this`halfOpenTradeCount, this`cooldownTimer
      ensures Valid() && View() == Step(cfg, old(View()), ForcedClosed)
      ensures state == Closed && halfOpenTradeCount == 0 && cooldownTimer == None
    {
      Close();
    }

    method Shutdown()
      requires Valid()
      modifies this`cooldownTimer
      ensures Valid() && View() == Step(cfg, old(View()), ShutDown)
      ensures cooldownTimer == None
    {
      cooldownTimer := None;
    }

    /** The callback of the live timer, at or after its deadline. */
    method OnTimer(now: int)
      requires Valid()
      requires cooldownTimer.Some? && cooldownTimer.value <= now
      modifies this`state, this`halfOpenTradeCount, this`cooldownTimer
      ensures Valid() && View() == Step(cfg, old(View()), TimerFired(now))
      ensures state == (if old(state) == Open then HalfOpen else old(state)) && cooldownTimer == None
      ensures halfOpenTradeCount == if old(state) == Open then 0 else old(halfOpenTradeCount)
    {
      cooldownTimer := None;
      if state == Open {
        state := HalfOpen;
        halfOpenTradeCount := 0;
      }
    }

    method Trip(trigger: Trigger, now: int)
      modifies this`state, this`lastTripTime, this`tripHistory, this`cooldownTimer
      ensures View() == ToOpen(cfg, old(View()), now)
      ensures state == Open && lastTripTime == now && cooldownTimer == Some(now + cfg.cooldownMs)
      ensures tripHistory == old(tripHistory) + [(trigger, now)]
    {
      state := Open;
      lastTripTime := now;
      tripHistory := tripHistory + [(trigger, now)];
      cooldownTimer := Some(now + cfg.cooldownMs);
    }

    method Close()
      modifies this`state, this`halfOpenTradeCount, this`cooldownTimer
      ensures View() == ToClosed(old(View()))
      ensures state == Closed && halfOpenTradeCount == 0 && cooldownTimer == None
    {
      state := Closed;
      halfOpenTradeCount := 0;
      cooldownTimer := None;
    }
  }
}
