/**
 * The engine that takes a detected spread through breaker, scorer and order book to execution. Each detection runs to
 * its await, and continues once its result is there; between the two, anything else may run.
 */
module SpreadEngine {
  import opened Wrappers
  import opened Stats
  import X = ArbitrageExecution
  import B = EmergencyBreaker
  import P = ProfitTracking

  datatype Status = Idle | Running | Stopped | Halted

  datatype Config = Config(
    maxOpportunitiesPerCycle: int,
    enableSignalScoring: bool,
    enableOrderBookValidation: bool)

  /** What the scorer and the order books say of an opportunity. */
  datatype Opinion = Opinion(scorerSkips: bool, bothBooksKnown: bool, feasible: bool)

  datatype Reason = BreakerOpen | ScoreTooLow | OrderBookInfeasible | RateLimited | Executed(success: bool)

  datatype Outcome = Ignored | Skipped(why: Reason) | Awaiting(admission: X.Admission)

  function ProfitOf(r: X.Result): real { r.actualProfitUsd }

  /** The profits of the results that wait to be continued. */
  function Owed(ready: seq<X.Result>): real { Sum(Map(ready, ProfitOf)) }

  function Without<T>(s: seq<T>, i: nat): seq<T>
    requires i < |s|
  {
    s[..i] + s[i + 1..]
  }

  lemma OwedSnoc(ready: seq<X.Result>, r: X.Result)
    ensures Owed(ready + [r]) == Owed(ready) + r.actualProfitUsd
  {
    MapSnoc(ready, r, ProfitOf);
    SumSnoc(Map(ready, ProfitOf), r.actualProfitUsd);
  }

  lemma OwedWithout(ready: seq<X.Result>, i: nat)
    requires i < |ready|
    ensures Owed(Without(ready, i)) == Owed(ready) - ready[i].actualProfitUsd
  {
    var a, b := ready[..i], ready[i + 1..];
    assert Map(ready, ProfitOf) == (Map(a, ProfitOf) + [ready[i].actualProfitUsd]) + Map(b, ProfitOf);
    assert Map(Without(ready, i), ProfitOf) == Map(a, ProfitOf) + Map(b, ProfitOf);
    SumConcat(Map(a, ProfitOf) + [ready[i].actualProfitUsd], Map(b, ProfitOf));
    SumSnoc(Map(a, ProfitOf), ready[i].actualProfitUsd);
    SumConcat(Map(a, ProfitOf), Map(b, ProfitOf));
  }

  class SpreadDetectorEngine {
    const cfg: Config
    const executor: X.ArbitrageExecutor
    const breaker: B.EmergencyCircuitBreaker
    const tracker: P.ProfitTracker

    var isRunning: bool
    var status: Status
    var circuitState: B.Mode
    var totalDetections: nat
    var totalScored: nat
    var totalExecuted: nat
    var successfulExecutions: nat
    var skippedByScorer: nat
    var skippedByOrderbook: nat
    var skippedByCircuitBreaker: nat
    var events: seq<Reason>
    var detectionLatencies: seq<int>

    ghost var ready: seq<X.Result>      // executions that have a result and wait to be continued
    ghost var rateLimited: nat          // detections turned away by the cycle limit
    ghost var forgottenSkips: nat       // breaker skips that daily resets took off the counter
    ghost var allEvents: seq<Reason>
    ghost var allLatencies: seq<int>

    ghost predicate Components()
      reads executor, breaker, tracker
    {
      executor.Valid() && breaker.Valid() && tracker.Valid()
    }

    /** What every interleaving of detections, settlements, continuations and operator actions keeps. */
    ghost predicate Valid()
      reads this, executor, breaker, tracker
    {
      && Components()
      && Accounted()
      && Settled()
      && Recorded()
    }

    /** The two logs keep their newest entries. */
    ghost predicate Recorded()
      reads this`events, this`allEvents, this`detectionLatencies, this`allLatencies
    {
      events == Last(allEvents, 500) && detectionLatencies == Last(allLatencies, 100)
    }

    /**
     * Every detection is in exactly one counter, but for what resets forget; no success, no more than a cycle's worth.
     */
    ghost predicate Accounted()
      reads this`totalDetections, this`skippedByCircuitBreaker, this`forgottenSkips, this`skippedByScorer
      reads this`skippedByOrderbook, this`rateLimited, this`totalExecuted, this`successfulExecutions
    {
      && totalDetections == skippedByCircuitBreaker + forgottenSkips + skippedByScorer + skippedByOrderbook
                            + rateLimited + totalExecuted
      && (successfulExecutions == 0 ==> totalExecuted <= cfg.maxOpportunitiesPerCycle || totalExecuted == 0)
    }

    /** Every execution is waiting for orders, waiting to be continued, or tracked; and the money agrees. */
    ghost predicate Settled()
      reads this`totalExecuted, this`ready, executor`trace, tracker`history
    {
      && totalExecuted == |X.InFlight(executor.trace)| + |ready| + |tracker.history|
      && Sum(tracker.history) + Owed(ready) == Sum(X.Booked(executor.trace))
    }

    constructor (
      cfg: Config, executor: X.ArbitrageExecutor, breaker: B.EmergencyCircuitBreaker, tracker: P.ProfitTracker)
      requires executor.Valid() && executor.trace == []
      requires breaker.Valid() && breaker.View() == B.START
      requires tracker.Valid() && tracker.history == []
      ensures Valid() && this.cfg == cfg
      ensures this.executor == executor && this.breaker == breaker && this.tracker == tracker
    {
      this.cfg, this.executor, this.breaker, this.tracker := cfg, executor, breaker, tracker;
      isRunning, status, circuitState := false, Idle, B.Closed;
      totalDetections, totalScored, totalExecuted, successfulExecutions := 0, 0, 0, 0;
      skippedByScorer, skippedByOrderbook, skippedByCircuitBreaker := 0, 0, 0;
      events, detectionLatencies := [], [];
      ready, rateLimited, forgottenSkips, allEvents, allLatencies := [], 0, 0, [], [];
      new;
      hide X.ArbitrageExecutor.Valid, B.EmergencyCircuitBreaker.Valid, P.ProfitTracker.Valid;
    }

    /** With nothing in flight and nothing waiting, tracker and execution log agree, gains and losses included. */
    lemma QuiescentBooksAgree()
      requires Valid()
      requires X.InFlight(executor.trace) == multiset{} && ready == []
      ensures tracker.cumulativePnl == X.NetProfitUsd(executor.tradeLog)
      ensures tracker.tradeCount == totalExecuted
      ensures tracker.totalWinAmount - tracker.totalLossAmount
              == X.TotalProfitUsd(executor.tradeLog) - X.TotalLossUsd(executor.tradeLog)
      ensures tracker.currentEquity == tracker.initialEquity + X.NetProfitUsd(executor.tradeLog)
    {
      X.DashboardAddsUp(executor.tradeLog);
      P.StreaksAreLongestRuns(tracker.history);
    }

    method RecordEvent(reason: Reason)
      requires Recorded()
      modifies this`events, this`allEvents
      ensures Recorded() && allEvents == old(allEvents) + [reason]
    {
      LastSnoc(allEvents, reason, 500);
      allEvents := allEvents + [reason];
      events := events + [reason];
      if |events| > 500 {
        events := events[|events| - 500..];
      }
    }

    method Start()
      requires Valid()
      modifies this`isRunning, this`status
      ensures Valid() && isRunning && status == if old(isRunning) then old(status) else Running
    {
      hide X.ArbitrageExecutor.Valid, B.EmergencyCircuitBreaker.Valid, P.ProfitTracker.Valid, Settled, Accounted,
           Recorded;
      if isRunning {
        return;
      }
      isRunning, status := true, Running;
    }

    method Stop()
      requires Valid()
      modifies this`isRunning, this`status, breaker`cooldownTimer
      ensures Valid() && !isRunning && status == Stopped
      ensures breaker.View() == B.Step(breaker.cfg, old(breaker.View()), B.ShutDown)
    {
      hide X.ArbitrageExecutor.Valid, B.EmergencyCircuitBreaker.Valid, P.ProfitTracker.Valid, Settled, Accounted,
           Recorded;
      isRunning, status := false, Stopped;
      breaker.Shutdown();
    }

    /** `handleDetection` up to its await. */
    method HandleDetection(opp: X.Opportunity, opinion: Opinion, now: int) returns (r: Outcome)
      requires Valid()
      modifies this`totalDetections, this`totalScored, this`circuitState, this`rateLimited
      modifies this`skippedByCircuitBreaker, this`skippedByScorer, this`skippedByOrderbook
      modifies this`totalExecuted, this`ready, this`events, this`allEvents, executor`activeTrades, executor`trace
      ensures Valid()
      ensures totalDetections == old(totalDetections) + if old(isRunning) then 1 else 0
      ensures r.Ignored? <==> !old(isRunning)
      // Which gate turns a detection away, in order, and what gets past them all.
      ensures var allowed := B.Allows(breaker.cfg, breaker.View());
              var scorer := cfg.enableSignalScoring && opinion.scorerSkips;
              var books := cfg.enableOrderBookValidation && opinion.bothBooksKnown && !opinion.feasible;
              var spent := old(totalExecuted) >= cfg.maxOpportunitiesPerCycle && successfulExecutions == 0;
              && (r == Skipped(BreakerOpen) <==> old(isRunning) && !allowed)
              && (r == Skipped(ScoreTooLow) <==> old(isRunning) && allowed && scorer)
              && (r == Skipped(OrderBookInfeasible) <==> old(isRunning) && allowed && !scorer && books)
              && (r == Skipped(RateLimited) <==> old(isRunning) && allowed && !scorer && !books && spent)
              && (r.Awaiting? <==> old(isRunning) && allowed && !scorer && !books && !spent)
      ensures r.Awaiting? <==> totalExecuted == old(totalExecuted) + 1
      ensures !r.Awaiting? ==>
              totalExecuted == old(totalExecuted) && executor.trace == old(executor.trace) && ready == old(ready)
      ensures r.Awaiting? && r.admission.Started? ==>
              ready == old(ready) && executor.trace == old(executor.trace) + [X.Admitted(r.admission.ticket)]
      ensures r.Awaiting? && r.admission.Rejected? ==>
              ready == old(ready) + [X.Result(0.0, 0.0, false)] && executor.trace == old(executor.trace)
      // The executor is handed this very opportunity, now, and starts it exactly when it may.
      ensures r.Awaiting? && r.admission.Started? ==>
              r.admission.ticket.opp == opp && r.admission.ticket.startMs == now
      ensures r.Awaiting? ==>
              (r.admission.Started? <==>
               && opp.buyExchange in executor.exchanges && opp.sellExchange in executor.exchanges
               && X.Admissible(executor.cfg, old(executor.trace), opp, now))
      ensures totalScored == old(totalScored) +
              if old(isRunning) && B.Allows(breaker.cfg, breaker.View()) && cfg.enableSignalScoring then 1 else 0
      ensures circuitState == if r == Skipped(BreakerOpen) then breaker.state else old(circuitState)
      ensures skippedByCircuitBreaker == old(skippedByCircuitBreaker) + if r == Skipped(BreakerOpen) then 1 else 0
      ensures skippedByScorer == old(skippedByScorer) + if r == Skipped(ScoreTooLow) then 1 else 0
      ensures skippedByOrderbook == old(skippedByOrderbook) + if r == Skipped(OrderBookInfeasible) then 1 else 0
      ensures rateLimited == old(rateLimited) + if r == Skipped(RateLimited) then 1 else 0
      ensures allEvents == old(allEvents) + if r.Skipped? then [r.why] else []
    {
      hide X.ArbitrageExecutor.Valid, B.EmergencyCircuitBreaker.Valid, P.ProfitTracker.Valid, Settled, Recorded,
           B.Allows, X.Admissible;
      if !isRunning {
        return Ignored;
      }
      var why := Gate(opinion);
      if why.Some? {
        RecordEvent(why.value);
        return Skipped(why.value);
      }
      var admission := BeginExecution(opp, now);
      return Awaiting(admission);
    }

    /** The checks before execution, in order; a detection that fails one is counted there. */
    method Gate(opinion: Opinion) returns (why: Option<Reason>)
      requires isRunning && Accounted()
      modifies this`totalDetections, this`totalScored, this`circuitState, this`rateLimited
      modifies this`skippedByCircuitBreaker, this`skippedByScorer, this`skippedByOrderbook
      ensures totalDetections == old(totalDetections) + 1
      ensures var allowed := B.Allows(breaker.cfg, breaker.View());
              var scorer := cfg.enableSignalScoring && opinion.scorerSkips;
              var books := cfg.enableOrderBookValidation && opinion.bothBooksKnown && !opinion.feasible;
              var spent := totalExecuted >= cfg.maxOpportunitiesPerCycle && successfulExecutions == 0;
              && (why == Some(BreakerOpen) <==> !allowed)
              && (why == Some(ScoreTooLow) <==> allowed && scorer)
              && (why == Some(OrderBookInfeasible) <==> allowed && !scorer && books)
              && (why == Some(RateLimited) <==> allowed && !scorer && !books && spent)
              && (why.None? <==> allowed && !scorer && !books && !spent)
      ensures totalScored == old(totalScored) +
              if B.Allows(breaker.cfg, breaker.View()) && cfg.enableSignalScoring then 1 else 0
      ensures circuitState == if why == Some(BreakerOpen) then breaker.state else old(circuitState)
      ensures why.Some? ==> !why.value.Executed? && Accounted()
      ensures skippedByCircuitBreaker == old(skippedByCircuitBreaker) + if why == Some(BreakerOpen) then 1 else 0
      ensures skippedByScorer == old(skippedByScorer) + if why == Some(ScoreTooLow) then 1 else 0
      ensures skippedByOrderbook == old(skippedByOrderbook) + if why == Some(OrderBookInfeasible) then 1 else 0
      ensures rateLimited == old(rateLimited) + if why == Some(RateLimited) then 1 else 0
      ensures why.None? ==>
              && totalDetections == skippedByCircuitBreaker + forgottenSkips + skippedByScorer + skippedByOrderbook
                                    + rateLimited + totalExecuted + 1
              && (successfulExecutions == 0 ==> totalExecuted + 1 <= cfg.maxOpportunitiesPerCycle)
    {
      totalDetections := totalDetections + 1;
      if !breaker.IsAllowed() {
        skippedByCircuitBreaker := skippedByCircuitBreaker + 1;
        circuitState := breaker.state;
        return Some(BreakerOpen);
      }
      if cfg.enableSignalScoring {
        totalScored := totalScored + 1;
        if opinion.scorerSkips {
          skippedByScorer := skippedByScorer + 1;
          return Some(ScoreTooLow);
        }
      }
      if cfg.enableOrderBookValidation && opinion.bothBooksKnown && !opinion.feasible {
        skippedByOrderbook := skippedByOrderbook + 1;
        return Some(OrderBookInfeasible);
      }
      if totalExecuted >= cfg.maxOpportunitiesPerCycle && successfulExecutions == 0 {
        rateLimited := rateLimited + 1;
        return Some(RateLimited);
      }
      return None;
    }

    /** Counts an execution and hands it to the executor; a call turned away there has its result at once. */
    method BeginExecution(opp: X.Opportunity, now: int) returns (admission: X.Admission)
      requires Components() && Settled()
      modifies this`totalExecuted, this`ready, executor`activeTrades, executor`trace
      ensures Components() && Settled()
      ensures totalExecuted == old(totalExecuted) + 1
      ensures admission.Started? ==> admission.ticket.opp == opp && admission.ticket.startMs == now
      ensures admission.Started? <==>
              && opp.buyExchange in executor.exchanges && opp.sellExchange in executor.exchanges
              && X.Admissible(executor.cfg, old(executor.trace), opp, now)
      ensures admission.Started? ==>
              ready == old(ready) && executor.trace == old(executor.trace) + [X.Admitted(admission.ticket)]
      ensures admission.Rejected? ==>
              ready == old(ready) + [X.Result(0.0, 0.0, false)] && executor.trace == old(executor.trace)
    {
      hide X.ArbitrageExecutor.Valid, B.EmergencyCircuitBreaker.Valid, P.ProfitTracker.Valid, X.InFlight, X.Booked,
           X.Legal, X.Admissible, Sum, Owed;
      totalExecuted := totalExecuted + 1;
      ghost var trace := executor.trace;
      admission := executor.Begin(opp, now);
      if admission.Started? {
        X.TraceSnoc(trace, X.Admitted(admission.ticket));
      } else {
        OwedSnoc(ready, X.Result(0.0, 0.0, false));
        ready := ready + [X.Result(0.0, 0.0, false)];
      }
    }

    /** The orders of a waiting execution come back: its result is ready, its detection has not continued yet. */
    method OrdersReturn(t: X.Ticket, fills: X.Fills, now: int)
      requires Valid() && t in X.InFlight(executor.trace)
      modifies this`ready, executor
      ensures Valid()
      ensures |ready| == |old(ready)| + 1 && ready[..|old(ready)|] == old(ready)
      ensures X.BooksCash(fills, executor.cfg.feeRatePerSide, ready[|old(ready)|])
      ensures executor.trace == old(executor.trace) +
              [if fills.Threw? then X.Failed(t) else X.Settled(t, fills, ready[|old(ready)|].actualProfitUsd, now)]
    {
      hide X.ArbitrageExecutor.Valid, B.EmergencyCircuitBreaker.Valid, P.ProfitTracker.Valid, Accounted, Recorded,
           X.InFlight, X.Booked, X.Legal, X.Profit, X.Fees, X.BooksCash, Sum, Owed, Last;
      ghost var trace := executor.trace;
      var result := executor.Settle(t, fills, now);
      X.TraceSnoc(trace, if fills.Threw? then X.Failed(t) else X.Settled(t, fills, result.actualProfitUsd, now));
      if fills.Threw? {
        X.FailureBooksNothing(executor.cfg.feeRatePerSide);
      } else {
        SumSnoc(X.Booked(trace), result.actualProfitUsd);
      }
      OwedSnoc(ready, result);
      ready := ready + [result];
    }

    /** `handleDetection` after its await, for whichever waiting result is resumed first. */
    method Continue(result: X.Result, ghost i: nat, latency: int, now: int)
      requires Valid() && i < |ready| && ready[i] == result
      requires breaker.clock <= now
      modifies this`ready, this`circuitState, this`status, this`successfulExecutions, this`events, this`allEvents
      modifies this`detectionLatencies, this`allLatencies, tracker, breaker
      ensures Valid()
      ensures ready == Without(old(ready), i)
      ensures tracker.history == old(tracker.history) + [result.actualProfitUsd]
      ensures breaker.View() == B.Step(breaker.cfg, old(breaker.View()), B.Traded(result.actualProfitUsd, now))
      ensures circuitState == breaker.state
      ensures status == if old(B.Trips(breaker.cfg, breaker.View(), result.actualProfitUsd, now)) then Halted
                        else old(status)
      ensures successfulExecutions == old(successfulExecutions) + if result.success then 1 else 0
      ensures allLatencies == old(allLatencies) + [latency]
      ensures allEvents == old(allEvents) + [Executed(result.success)]
    {
      hide X.ArbitrageExecutor.Valid, B.EmergencyCircuitBreaker.Valid, P.ProfitTracker.Valid, Settled, Recorded,
           Accounted, B.Step, B.Breach, B.Trips;
      TrackResult(result, i);
      var tripped := breaker.RecordTrade(result.actualProfitUsd, now);
      Conclude(result.success, tripped, latency);
    }

    method Conclude(success: bool, tripped: bool, latency: int)
      requires Accounted() && Recorded()
      modifies this`circuitState, this`status, this`successfulExecutions, this`events, this`allEvents
      modifies this`detectionLatencies, this`allLatencies
      ensures Accounted() && Recorded()
      ensures circuitState == breaker.state && status == if tripped then Halted else old(status)
      ensures successfulExecutions == old(successfulExecutions) + if success then 1 else 0
      ensures allEvents == old(allEvents) + [Executed(success)] && allLatencies == old(allLatencies) + [latency]
    {
      hide Recorded;
      circuitState := breaker.state;
      if tripped {
        status := Halted;
      }
      if success {
        successfulExecutions := successfulExecutions + 1;
      }
      RecordLatency(latency);
      RecordEvent(Executed(success));
    }

    method TrackResult(result: X.Result, ghost i: nat)
      requires Components() && Settled() && i < |ready| && ready[i] == result
      modifies this`ready, tracker
      ensures Components() && Settled()
      ensures ready == Without(old(ready), i)
      ensures tracker.history == old(tracker.history) + [result.actualProfitUsd]
    {
      hide X.ArbitrageExecutor.Valid, B.EmergencyCircuitBreaker.Valid, P.ProfitTracker.Valid, X.InFlight, X.Booked,
           X.Legal, Sum, Owed;
      OwedWithout(ready, i);
      SumSnoc(tracker.history, result.actualProfitUsd);
      ready := Without(ready, i);
      tracker.RecordTrade(result.actualProfitUsd);
    }

    method RecordLatency(latency: int)
      requires Recorded()
      modifies this`detectionLatencies, this`allLatencies
      ensures Recorded() && allLatencies == old(allLatencies) + [latency]
    {
      LastSnoc(allLatencies, latency, 100);
      allLatencies := allLatencies + [latency];
      detectionLatencies := detectionLatencies + [latency];
      if |detectionLatencies| > 100 {
        detectionLatencies := detectionLatencies[1..];
      }
    }

    /** Nothing new executes from here until the cooldown timer, `Resume` or a daily reset ends the block. */
    method EmergencyStop(now: int)
      requires Valid()
      modifies this`status, this`circuitState, breaker
      ensures Valid() && status == Halted && circuitState == B.Open
      ensures breaker.View() == B.Step(breaker.cfg, old(breaker.View()), B.Tripped(now))
      ensures !B.Allows(breaker.cfg, breaker.View())
    {
      hide X.ArbitrageExecutor.Valid, B.EmergencyCircuitBreaker.Valid, P.ProfitTracker.Valid, Settled, Accounted,
           Recorded;
      breaker.ManualTrip(now);
      status, circuitState := Halted, breaker.state;
    }

    method Resume()
      requires Valid()
      modifies this`status, this`circuitState, breaker
      ensures Valid() && status == Running && circuitState == B.Closed
      ensures breaker.View() == B.Step(breaker.cfg, old(breaker.View()), B.ForcedClosed)
    {
      hide X.ArbitrageExecutor.Valid, B.EmergencyCircuitBreaker.Valid, P.ProfitTracker.Valid, Settled, Accounted,
           Recorded;
      breaker.ForceClose();
      status, circuitState := Running, B.Closed;
    }

    /** The only operation that takes detections off the counters. */
    method ResetDaily()
      requires Valid()
      modifies this`skippedByCircuitBreaker, this`forgottenSkips, executor, breaker
      ensures Valid()
      ensures forgottenSkips == old(forgottenSkips) + old(skippedByCircuitBreaker) && skippedByCircuitBreaker == 0
      ensures executor.dailyPnL == 0.0
      ensures breaker.View() == B.Step(breaker.cfg, old(breaker.View()), B.DayReset)
    {
      hide X.ArbitrageExecutor.Valid, B.EmergencyCircuitBreaker.Valid, P.ProfitTracker.Valid, Recorded, X.InFlight,
           X.Booked, X.Legal, Sum, Owed, Last;
      X.TraceSnoc(executor.trace, X.DayReset);
      executor.ResetDaily();
      breaker.ResetDaily();
      forgottenSkips := forgottenSkips + skippedByCircuitBreaker;
      skippedByCircuitBreaker := 0;
    }

    /** The two logs are the newest 500 events and the newest 100 latencies, whole. */
    lemma LogsKeepTheNewest()
      requires Valid()
      ensures events == if |allEvents| <= 500 then allEvents else allEvents[|allEvents| - 500..]
      ensures detectionLatencies == if |allLatencies| <= 100 then allLatencies else allLatencies[|allLatencies| - 100..]
    {
    }

    /** The counters add up iff no daily reset has dropped a breaker skip. */
    lemma CountersAddUp()
      requires Valid()
      ensures forgottenSkips == 0 <==>
              totalDetections == skippedByCircuitBreaker + skippedByScorer + skippedByOrderbook
                                 + rateLimited + totalExecuted
    {
    }
  }
}
