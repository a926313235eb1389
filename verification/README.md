# Trading, metering, autopilot and billing kernels: a verified model

The repository automates work for money: it trades price differences between exchanges, meters usage, runs an LLM
agent inside a budget, and books subscriptions. This project models the parts of it that decide about money and risk,
and proves what they keep over every input, every run and every interleaving.

| module | file | what it models |
|---|---|---|
| `OrderBook`, `OrderBookAnalyzer` | `OrderBook.dfy`, `OrderBookAnalyzer.dfy` | walking an order book, slippage estimates, feasibility of a two-legged trade, the best exchange |
| `ArbitrageExecution` | `ArbitrageExecutor.dfy` | concurrent two-legged trades under a concurrency and a daily loss limit |
| `EmergencyBreaker` | `EmergencyCircuitBreaker.dfy` | the trading kill switch with its timer and its pruned loss window |
| `ProfitTracking` | `ProfitTracker.dfy` | running statistics: equity, peak, trough, drawdown, streaks, alerts |
| `SpreadEngine` | `SpreadDetectorEngine.dfy` | the engine that joins breaker, executor and tracker |
| `UsageMetering`, `MetricsBuffer` | `UsageMetering.dfy`, `MetricsBuffer.dfy` | at-least-once delivery: breaker, bounded retries, buffer of rows |
| `IdeaLoop` | `IdeaLoop.dfy` | the autopilot loop and its safety budget |
| `Backtesting` | `ArbitrageBacktester.dfy` | replaying price snapshots |
| `Rebalancing` | `BalanceRebalancer.dfy` | detecting uneven balances and suggesting transfers |
| `LatencyProfiles` | `LatencyOptimizer.dfy` | latency percentiles over a bounded history |
| `KellySizing` | `KellyPositionSizer.dfy` | Kelly position sizing over a trimmed history |
| `BillingWebhook` | `BillingWebhook.dfy` | webhook deliveries with replays |
| `Stats`, `Wrappers` | `Stats.dfy`, `Wrappers.dfy` | sums, runs, windows, stable sorting; `Option` |

## How it is built

- An object whose methods update its fields is a class with those fields. A ghost field holds the plain history: every
  trade, every delivery, every event. `Valid()` says that the fields are what a plain definition says of that history,
  and every method keeps it. The laws are then lemmas about the plain definitions, over all histories.
- An asynchronous method is split at its only await: `Begin` and `Settle` in the executor; `HandleDetection`,
  `OrdersReturn` and `Continue` in the engine. Between the halves anything else may be called, so `Valid()` of these
  classes is what every interleaving keeps, and `Legal` is the set of event orders the executor can produce.
- Clocks, the network, the model behind the autopilot, the tools it calls, the fee calculator and the scorer are
  parameters with arbitrary values. Amounts, prices and durations are exact reals.
- `Drain` is the one method without a counterpart: it calls `Flush` again and again, as the callers of the service do,
  so that a law about several flushes can be stated of actual flushes.
- `hide` statements only keep definitions out of proofs that do not need them.

## What the proofs found

Where the code and its documentation, or the code and the obvious claim, disagree, the code is modelled and the
difference is proved.

- The reported `depthUsd` is not the depth of the book, as its comment says: it stops at the level where the walk
  notices that it is done. `DepthStopsShort` is such a book, and `DepthIsWholeExactly` says when the two agree.
- `feasible` charges slippage twice, since the prices it compares already contain it. `FeasibleExactly` gives the exact
  condition, so it is sound (`FeasibleIsSound`) and not complete (`FeasibleIsNotComplete`). A negative amount turns the
  test around (`NegativeRequest`).
- The executor checks the daily loss only when a call is admitted. What can be lost past the limit is bounded by one
  worst trade per free slot (`DailyLossIsBounded`), and runs with trades no worse than that come as close to it as one
  likes (`DailyLossBoundIsTight`). A limit that is not positive blocks all trading (`NoLimitNoTrade`). A buy price of
  zero is not refused: it makes an order of unbounded size (`Sized`).
- The breaker's trial period asks for trades that do not lose, not for trades that win. Calls that the executor turns
  away come back with a profit of zero and count as such (`IdleTrialCloses`); the engine counts them as executed. After
  `shutdown` an open breaker has no timer that would ever end the block (`ShutdownStrandsOpen`), until a new trip arms
  one (`TimerUnlessShutDown`).
- The tracker's percentage drawdown is the worst fall of all exactly when each fall through zero is outweighed by one
  that starts at a peak (`WorstFromPeakExactly`): always while equity stays non-negative (`WorstFromPeakIsWorstFall`),
  but not on every history (`NegativeEquityHidesAFall`, `FirstNegativeEquity`). Its dollar drawdown is peak less trough,
  which is a fall that happened exactly when a trough follows a peak (`ReportedDollarDrawdown`,
  `ReportedFallNeverHappened`). `reset` leaves the equity curve empty, where construction puts a starting point.
- The engine's counters add up until a daily reset drops the breaker's skips (`CountersAddUp`).
- Metering rows are deleted by key and not by identity, and the statement does not say which of several rows goes.
  Counted by key nothing is lost. Payloads are right when the oldest match goes (`OldestMatchesAreTheSentRows`);
  whichever goes, they are right exactly when no other event shares the key (`AnyMatchIsSafeExactly`,
  `AnotherMatchLosesAPayload`).
- A post that succeeds in the middle of a retry loop after the breaker has opened does not close the breaker
  (`RetryDoesNotClose`); `AcknowledgedClosesExactly` says which acknowledgements do.
- A backtest only books trades that gain, so its daily loss guard never fires for a positive limit, equity only rises
  and the drawdown is always zero.
- The rebalancer makes each suggestion against the full gaps. Applied together they push someone past the target unless
  one side leaves no choice (`SuggestionsStayWithinTarget`, an equivalence).
- An exchange whose every request failed meets any latency target that is not negative (`MeetsTargetExactly`).
- Kelly sizing finds no edge in a profitable window whose only non-winning trades broke even (`KellyFollowsNetProfit`,
  `FreeLossesHideTheEdge`). A window size of zero means no limit.
- The event id of a subscription event is the id of the subscription, so the cancellation that follows a creation is
  taken for a replay and never handled (`CancellationIsTakenForAReplay`, `DispatchedExactly`). An event whose handler failed is never tried
  again.

## Model

| member | source | states |
|---|---|---|
| `OrderBook.GreedyFills` | packages/vibe-arbitrage-engine/order-book-analyzer.ts:116-127 | the walk is an allocation within the levels, and fills the smaller of the request and the whole depth |
| `OrderBook.GreedyNeverOverfills` | packages/vibe-arbitrage-engine/order-book-analyzer.ts:116-127 | whatever the book holds, no more is filled than requested |
| `OrderBook.ReachedExactly` | packages/vibe-arbitrage-engine/order-book-analyzer.ts:116-127 | a level is reached exactly when the levels before it do not fill the request |
| `OrderBook.GreedyIsCheapest` | packages/vibe-arbitrage-engine/order-book-analyzer.ts:103-148 | over ascending asks, no allocation with the same total costs less than the walk |
| `OrderBook.GreedyIsDearest` | packages/vibe-arbitrage-engine/order-book-analyzer.ts:103-148 | over descending bids, no allocation with the same total earns more than the walk |
| `OrderBook.SlackBound` | packages/vibe-arbitrage-engine/order-book-analyzer.ts:116-127 | taking everything cheaper than a price and nothing dearer costs least relative to that price, among all allocations |
| `OrderBook.GreedySlack` | packages/vibe-arbitrage-engine/order-book-analyzer.ts:116-127 | the walk over ascending asks takes everything below its last price and nothing above it |
| `OrderBook.AscendingGrowth` | packages/vibe-arbitrage-engine/order-book-analyzer.ts:116-127 | a larger buy fills no less, and what it adds is not cheaper than the last price of the smaller one |
| `OrderBook.DescendingGrowth` | packages/vibe-arbitrage-engine/order-book-analyzer.ts:116-127 | the mirror image for sells |
| `OrderBook.AverageGrows` | packages/vibe-arbitrage-engine/order-book-analyzer.ts:129-129 | an average that is extended at prices above all before it does not fall |
| `OrderBookAnalyzer.EstimateBounds` | packages/vibe-arbitrage-engine/order-book-analyzer.ts:129-133 | best price, average and worst price are in order on either side, and the slippage cost is what the fill pays beyond the best price |
| `OrderBookAnalyzer.LargerOrderPaysMore` | packages/vibe-arbitrage-engine/order-book-analyzer.ts:116-133 | ordering more never betters the average, the slippage in basis points or the slippage cost, for buys and sells |
| `OrderBookAnalyzer.EstimateWrittenOut` | packages/vibe-arbitrage-engine/order-book-analyzer.ts:129-148 | each figure of an estimate in terms of fill, cost and best price: average times fill is the cost, basis points are ten thousandths of the best price, the worst price is that of the last level reached |
| `OrderBookAnalyzer.DepthIsWholeExactly` | packages/vibe-arbitrage-engine/order-book-analyzer.ts:114-119 | the reported depth is that of the whole book exactly when no level with an amount lies two or more past the one that fills the request |
| `OrderBookAnalyzer.DepthStopsShort` | packages/vibe-arbitrage-engine/order-book-analyzer.ts:114-119 | a book of 303 whose depth is reported as 201 |
| `OrderBookAnalyzer.SimulationWrittenOut` | packages/vibe-arbitrage-engine/order-book-analyzer.ts:165-185 | each figure of a simulation in terms of the two estimates, the spread in percent of the buying price |
| `OrderBookAnalyzer.FeasibleExactly` | packages/vibe-arbitrage-engine/order-book-analyzer.ts:165-185 | for a non-negative amount: feasible exactly when both books exist, both legs fill in full and the gain after fees exceeds the slippage of both legs, which the gain already contains |
| `OrderBookAnalyzer.FeasibleIsSound` | packages/vibe-arbitrage-engine/order-book-analyzer.ts:165-185 | feasible means that both legs fill in full and proceeds less cost less fees are positive |
| `OrderBookAnalyzer.FeasibleIsNotComplete` | packages/vibe-arbitrage-engine/order-book-analyzer.ts:165-185 | a trade that gains 3 after fees and is not feasible |
| `OrderBookAnalyzer.NegativeRequest` | packages/vibe-arbitrage-engine/order-book-analyzer.ts:165-185 | a negative amount fills nothing, and is feasible exactly when the trade loses at the top of the books |
| `OrderBookAnalyzer.OrderBookAnalyzer.constructor` | packages/vibe-arbitrage-engine/order-book-analyzer.ts:60-61 | no order books at first |
| `OrderBookAnalyzer.OrderBookAnalyzer.UpdateOrderBook` | packages/vibe-arbitrage-engine/order-book-analyzer.ts:66-69 | the book is stored under its exchange and symbol and every other key keeps its book |
| `OrderBookAnalyzer.OrderBookAnalyzer.EstimateSlippage` | packages/vibe-arbitrage-engine/order-book-analyzer.ts:90-149 | the estimate for a stored book, and the empty estimate when there is none |
| `OrderBookAnalyzer.OrderBookAnalyzer.WalkLevels` | packages/vibe-arbitrage-engine/order-book-analyzer.ts:104-148 | the loop yields the allocation of `Greedy`: its fill, cost, last price, levels reached, slippage and visited depth |
| `OrderBookAnalyzer.OrderBookAnalyzer.SimulateArbitrageFill` | packages/vibe-arbitrage-engine/order-book-analyzer.ts:155-187 | both estimates and the verdict on stored books; a feasible verdict for a non-negative amount is a profit on fully filled legs |
| `OrderBookAnalyzer.OrderBookAnalyzer.BestExchange` | packages/vibe-arbitrage-engine/order-book-analyzer.ts:234-275 | nothing is chosen exactly when no exchange can fill the request; the choice can, and no other is cheaper to buy on or dearer to sell on |
| `OrderBookAnalyzer.ChosenIsBest` | packages/vibe-arbitrage-engine/order-book-analyzer.ts:250-274 | the head of the sorted candidates is the best of all eligible exchanges |
| `OrderBookAnalyzer.ChoiceWrittenOut` | packages/vibe-arbitrage-engine/order-book-analyzer.ts:234-275 | which exchanges may be chosen, what is reported of them, and which of two is better |
| `ArbitrageExecution.FillsBookCash` | packages/vibe-arbitrage-engine/arbitrage-executor.ts:79-88 | any two filled orders book the money for the amount both filled, less the fee rate on all of both |
| `ArbitrageExecution.MatchedFillsBookCash` | packages/vibe-arbitrage-engine/arbitrage-executor.ts:79-88 | for fills of equal amounts the booked profit is proceeds less purchase less fees on both |
| `ArbitrageExecution.AdmissibleExactly` | packages/vibe-arbitrage-engine/arbitrage-executor.ts:41-123 | some ticket for an opportunity may be admitted exactly when a slot is free, the daily limit is not reached, the profit and the cooldown suffice and the position is worth something |
| `ArbitrageExecution.DailyIsBookedSinceReset` | packages/vibe-arbitrage-engine/arbitrage-executor.ts:157-160 | the daily result is the sum of what was booked since the last reset |
| `ArbitrageExecution.ConcurrencyIsBounded` | packages/vibe-arbitrage-engine/arbitrage-executor.ts:41-123 | in every interleaving no more calls wait than the limit allows |
| `ArbitrageExecution.DailyLossIsBounded` | packages/vibe-arbitrage-engine/arbitrage-executor.ts:41-123 | in every interleaving, resets included, the day loses less than the limit plus one worst trade for each free slot |
| `ArbitrageExecution.NoLimitNoTrade` | packages/vibe-arbitrage-engine/arbitrage-executor.ts:118-118 | with a limit that is not positive nothing is ever admitted |
| `ArbitrageExecution.Sized` | packages/vibe-arbitrage-engine/arbitrage-executor.ts:54-58 | a position is worth the capped profit estimate at the buy price; for a positive price it is refused exactly when cap or estimate is not positive; a price of zero is not refused |
| `ArbitrageExecution.DailyLossBoundIsTight` | packages/vibe-arbitrage-engine/arbitrage-executor.ts:41-123 | for any cooldown, any number of slots and any m, some run in which no trade loses more than m and the clock never runs backwards ends within any given distance of the bound |
| `ArbitrageExecution.CooldownIsKept` | packages/vibe-arbitrage-engine/arbitrage-executor.ts:120-121 | in every interleaving a call admitted after a booked trade in its symbol starts at least the cooldown later |
| `ArbitrageExecution.DashboardAddsUp` | packages/vibe-arbitrage-engine/arbitrage-executor.ts:134-153 | net profit is gains less losses, and failed trades are those that did not win |
| `ArbitrageExecution.ArbitrageExecutor.constructor` | packages/vibe-arbitrage-engine/arbitrage-executor.ts:24-35 | an idle executor with empty books |
| `ArbitrageExecution.ArbitrageExecutor.AddExchange` | packages/vibe-arbitrage-engine/arbitrage-executor.ts:37-39 | adds one exchange and disturbs nothing |
| `ArbitrageExecution.ArbitrageExecutor.Begin` | packages/vibe-arbitrage-engine/arbitrage-executor.ts:41-60 | up to the await: admitted exactly when both exchanges are known and a ticket for the opportunity may come next; turned away with the first reason otherwise, and then nothing changes |
| `ArbitrageExecution.ArbitrageExecutor.Settle` | packages/vibe-arbitrage-engine/arbitrage-executor.ts:62-113 | after the await: the money for the amount both orders filled, less fees on all of both, in result, log and daily result; a refused order or an exception books nothing; the call stops being active in each case |
| `ArbitrageExecution.ArbitrageExecutor.BookTrade` | packages/vibe-arbitrage-engine/arbitrage-executor.ts:90-92 | log entry, daily result and start of the cooldown |
| `ArbitrageExecution.ArbitrageExecutor.DropCall` | packages/vibe-arbitrage-engine/arbitrage-executor.ts:108-113 | an exception leaves the books alone and ends the call |
| `ArbitrageExecution.ArbitrageExecutor.LogTrade` | packages/vibe-arbitrage-engine/arbitrage-executor.ts:125-132 | appends one entry with the next id |
| `ArbitrageExecution.ArbitrageExecutor.ResetDaily` | packages/vibe-arbitrage-engine/arbitrage-executor.ts:157-160 | the daily result is zero and nothing else changes |
| `EmergencyBreaker.TimerProtocol` | packages/vibe-arbitrage-engine/emergency-circuit-breaker.ts:206-246 | in every run a live timer belongs to the open state and ends one cooldown after the last trip; without a shutdown open and timer are equivalent |
| `EmergencyBreaker.TimerUnlessShutDown` | packages/vibe-arbitrage-engine/emergency-circuit-breaker.ts:199-236 | in every run an open breaker has a timer exactly when no shutdown has come since the trip that opened it last |
| `EmergencyBreaker.HalfOpenHasRoom` | packages/vibe-arbitrage-engine/emergency-circuit-breaker.ts:57-83 | in every run a half-open breaker has counted fewer trades than allowed, so it lets trades through whenever any are allowed |
| `EmergencyBreaker.HalfOpenIsATrial` | packages/vibe-arbitrage-engine/emergency-circuit-breaker.ts:69-83 | in every run, over all events: a half-open breaker was turned so by a timer while open, has been half-open ever since, and has counted the trades since, none of which lost |
| `EmergencyBreaker.ClosingTakesACleanTrial` | packages/vibe-arbitrage-engine/emergency-circuit-breaker.ts:69-83 | in every run, the events that close a breaker are exactly: the operator, a daily reset while open, and the non-losing trade that completes the trial |
| `EmergencyBreaker.TrialWaitsForCooldown` | packages/vibe-arbitrage-engine/emergency-circuit-breaker.ts:224-236 | in every run half-open is entered exactly by the timer once the cooldown is over, unless a shutdown has dropped it |
| `EmergencyBreaker.OpenHolds` | packages/vibe-arbitrage-engine/emergency-circuit-breaker.ts:57-63 | an open breaker blocks until timer, operator or daily reset |
| `EmergencyBreaker.ShutdownStrandsOpen` | packages/vibe-arbitrage-engine/emergency-circuit-breaker.ts:199-204 | after a shutdown no timer event ever ends the block |
| `EmergencyBreaker.IdleTrialCloses` | packages/vibe-arbitrage-engine/emergency-circuit-breaker.ts:69-83 | trades that earn exactly nothing close the breaker |
| `EmergencyBreaker.UntrippedLossesAreBounded` | packages/vibe-arbitrage-engine/emergency-circuit-breaker.ts:86-124 | over any sequence of trades between two resets, losses that do not trip sum to less than the daily limit |
| `EmergencyBreaker.BreachExactly` | packages/vibe-arbitrage-engine/emergency-circuit-breaker.ts:86-120 | the three limits over the plain history: the sum of all losses, the last so many trades by index, and the set of losses in the window; which one is named first |
| `EmergencyBreaker.RecentTwice` | packages/vibe-arbitrage-engine/emergency-circuit-breaker.ts:109-112 | filtering by an earlier window first changes nothing for a later one |
| `EmergencyBreaker.WindowsPrune` | packages/vibe-arbitrage-engine/emergency-circuit-breaker.ts:109-112 | pruning now keeps every window from now on as it was |
| `EmergencyBreaker.WindowsAppend` | packages/vibe-arbitrage-engine/emergency-circuit-breaker.ts:89-89 | recording a loss in the pruned and in the full list keeps every later window equal |
| `EmergencyBreaker.EmergencyCircuitBreaker.constructor` | packages/vibe-arbitrage-engine/emergency-circuit-breaker.ts:40-52 | closed, with empty counters |
| `EmergencyBreaker.EmergencyCircuitBreaker.IsAllowed` | packages/vibe-arbitrage-engine/emergency-circuit-breaker.ts:57-63 | what the abstract machine allows |
| `EmergencyBreaker.EmergencyCircuitBreaker.RecordTrade` | packages/vibe-arbitrage-engine/emergency-circuit-breaker.ts:68-125 | a step of the machine over the unpruned history; trips exactly on a loss while half-open, or on a loss with which all losses, the last trades or the window reach their limit, and logs which |
| `EmergencyBreaker.EmergencyCircuitBreaker.RecordTrial` | packages/vibe-arbitrage-engine/emergency-circuit-breaker.ts:69-83 | a half-open trade: a loss trips again, the last of the allowance closes |
| `EmergencyBreaker.EmergencyCircuitBreaker.RecordCounted` | packages/vibe-arbitrage-engine/emergency-circuit-breaker.ts:85-124 | a counted trade, with the pruned counters |
| `EmergencyBreaker.EmergencyCircuitBreaker.ManualTrip` | packages/vibe-arbitrage-engine/emergency-circuit-breaker.ts:130-132 | opens and arms the timer, and leaves the loss counters alone |
| `EmergencyBreaker.EmergencyCircuitBreaker.RecordExchangeAnomaly` | packages/vibe-arbitrage-engine/emergency-circuit-breaker.ts:137-140 | always trips, and leaves the loss counters alone |
| `EmergencyBreaker.EmergencyCircuitBreaker.ResetDaily` | packages/vibe-arbitrage-engine/emergency-circuit-breaker.ts:178-186 | forgets the losses and closes an open breaker, but not a half-open one |
| `EmergencyBreaker.EmergencyCircuitBreaker.ForceClose` | packages/vibe-arbitrage-engine/emergency-circuit-breaker.ts:191-194 | closes from any state without touching the loss counters |
| `EmergencyBreaker.EmergencyCircuitBreaker.Shutdown` | packages/vibe-arbitrage-engine/emergency-circuit-breaker.ts:199-204 | drops the timer and keeps the state |
| `EmergencyBreaker.EmergencyCircuitBreaker.OnTimer` | packages/vibe-arbitrage-engine/emergency-circuit-breaker.ts:229-235 | an open breaker becomes half-open with no trades counted |
| `EmergencyBreaker.EmergencyCircuitBreaker.Trip` | packages/vibe-arbitrage-engine/emergency-circuit-breaker.ts:206-222 | open, with a timer for one cooldown, and one more entry in the log |
| `EmergencyBreaker.EmergencyCircuitBreaker.Close` | packages/vibe-arbitrage-engine/emergency-circuit-breaker.ts:238-246 | closed, with no timer and no trades counted |
| `ProfitTracking.PeakIsHighest` | packages/vibe-arbitrage-engine/profit-tracker.ts:138-144 | the running peak is the highest equity of the history, start included |
| `ProfitTracking.TroughIsLowest` | packages/vibe-arbitrage-engine/profit-tracker.ts:138-144 | the running trough is the lowest |
| `ProfitTracking.WorstFromPeakIsSomeMoment` | packages/vibe-arbitrage-engine/profit-tracker.ts:147-153 | the one-pass maximum is the drawdown of some moment and at least that of every moment |
| `ProfitTracking.WorstFromPeakExactly` | packages/vibe-arbitrage-engine/profit-tracker.ts:147-153 | for every history: the one-pass maximum is attained by some pair of moments and exceeded by none exactly when each fall through zero is outweighed by one that starts at a peak |
| `ProfitTracking.FirstNegativeEquity` | packages/vibe-arbitrage-engine/profit-tracker.ts:147-153 | when equity is negative for the first time, it is so exactly when every positive equity before equals the peak |
| `ProfitTracking.WorstFromPeakIsWorstFall` | packages/vibe-arbitrage-engine/profit-tracker.ts:147-153 | while equity is never negative the one-pass maximum is the worst fall over all pairs of moments |
| `ProfitTracking.NegativeEquityHidesAFall` | packages/vibe-arbitrage-engine/profit-tracker.ts:147-153 | a history with negative equity on which it is not |
| `ProfitTracking.ReportedDollarDrawdown` | packages/vibe-arbitrage-engine/profit-tracker.ts:182-182 | peak less trough bounds every fall, and is a fall that happened exactly when a trough follows a peak |
| `ProfitTracking.ReportedFallNeverHappened` | packages/vibe-arbitrage-engine/profit-tracker.ts:182-182 | a history that reports 20 and never fell by more than 5 |
| `ProfitTracking.StreaksAreLongestRuns` | packages/vibe-arbitrage-engine/profit-tracker.ts:125-135 | the streak maxima are the longest winning and losing runs among the trades that did not break even, and gains less losses is the net |
| `ProfitTracking.TalliesSnoc` | packages/vibe-arbitrage-engine/profit-tracker.ts:119-135 | how one trade moves counters, sums and streaks that are defined over the whole history |
| `ProfitTracking.CrossedSnoc` | packages/vibe-arbitrage-engine/profit-tracker.ts:283-308 | a threshold counts as crossed since the peak when the newest trade crosses it or an earlier one did and the peak stands |
| `ProfitTracking.ProfitTracker.constructor` | packages/vibe-arbitrage-engine/profit-tracker.ts:91-107 | empty history, one starting point on the curve |
| `ProfitTracking.ProfitTracker.RecordTrade` | packages/vibe-arbitrage-engine/profit-tracker.ts:119-173 | every field stays what its definition says of the full history; alerts go out once for each threshold newly crossed since the present peak, with drawdown, peak and equity of the moment |
| `ProfitTracking.ProfitTracker.CountTrade` | packages/vibe-arbitrage-engine/profit-tracker.ts:119-135 | counters and streaks of the extended history |
| `ProfitTracking.ProfitTracker.MoveEquity` | packages/vibe-arbitrage-engine/profit-tracker.ts:137-153 | equity, peak, trough and drawdown of the extended history; a new peak re-arms the alerts |
| `ProfitTracking.ProfitTracker.AppendPoint` | packages/vibe-arbitrage-engine/profit-tracker.ts:155-169 | the curve holds the newest points of the full curve |
| `ProfitTracking.ProfitTracker.CheckDrawdownAlerts` | packages/vibe-arbitrage-engine/profit-tracker.ts:283-308 | one alert for each configured threshold that is reached and not yet triggered |
| `ProfitTracking.ProfitTracker.Reset` | packages/vibe-arbitrage-engine/profit-tracker.ts:260-278 | an empty history again, with an empty curve |
| `SpreadEngine.OwedWithout` | packages/vibe-arbitrage-engine/spread-detector-engine.ts:283-284 | resuming any one waiting result takes exactly its profit off what is owed to the tracker |
| `SpreadEngine.SpreadDetectorEngine.constructor` | packages/vibe-arbitrage-engine/spread-detector-engine.ts:124-137 | fresh components make a valid engine |
| `SpreadEngine.SpreadDetectorEngine.QuiescentBooksAgree` | packages/vibe-arbitrage-engine/spread-detector-engine.ts:281-285 | with nothing waiting, tracker and executor log agree on net, gains less losses, equity and number of trades |
| `SpreadEngine.SpreadDetectorEngine.CountersAddUp` | packages/vibe-arbitrage-engine/spread-detector-engine.ts:199-281 | detections are the sum of skips, rate-limited and executed exactly when no reset has dropped a breaker skip |
| `SpreadEngine.SpreadDetectorEngine.LogsKeepTheNewest` | packages/vibe-arbitrage-engine/spread-detector-engine.ts:295-335 | the two logs are the newest 500 events and the newest 100 latencies, whole |
| `SpreadEngine.SpreadDetectorEngine.Start` | packages/vibe-arbitrage-engine/spread-detector-engine.ts:166-182 | running |
| `SpreadEngine.SpreadDetectorEngine.Stop` | packages/vibe-arbitrage-engine/spread-detector-engine.ts:184-197 | not running, and the breaker shut down |
| `SpreadEngine.SpreadDetectorEngine.HandleDetection` | packages/vibe-arbitrage-engine/spread-detector-engine.ts:199-281 | up to the await: ignored when stopped, else counted once, under the gate it fails, or as executed exactly when it passes every gate; the executor is handed this opportunity and starts it exactly when it may; the engine invariant holds in between |
| `SpreadEngine.SpreadDetectorEngine.Gate` | packages/vibe-arbitrage-engine/spread-detector-engine.ts:200-279 | which gate turns a detection away, each with its own counter |
| `SpreadEngine.SpreadDetectorEngine.BeginExecution` | packages/vibe-arbitrage-engine/spread-detector-engine.ts:281-283 | counts the execution and hands this opportunity to the executor, whose refusal is a result of zero |
| `SpreadEngine.SpreadDetectorEngine.OrdersReturn` | packages/vibe-arbitrage-engine/spread-detector-engine.ts:283-283 | a waiting execution gets its result while its detection still waits |
| `SpreadEngine.SpreadDetectorEngine.Continue` | packages/vibe-arbitrage-engine/spread-detector-engine.ts:284-300 | after the await, in any order: tracker and breaker take the profit, the engine halts exactly when that trips the breaker, successes are counted |
| `SpreadEngine.SpreadDetectorEngine.TrackResult` | packages/vibe-arbitrage-engine/spread-detector-engine.ts:284-284 | moves a profit from owed to tracked |
| `SpreadEngine.SpreadDetectorEngine.Conclude` | packages/vibe-arbitrage-engine/spread-detector-engine.ts:286-300 | status, success counter, latency and event |
| `SpreadEngine.SpreadDetectorEngine.RecordEvent` | packages/vibe-arbitrage-engine/spread-detector-engine.ts:328-335 | the event list is the last 500 of all events |
| `SpreadEngine.SpreadDetectorEngine.RecordLatency` | packages/vibe-arbitrage-engine/spread-detector-engine.ts:295-297 | the latency list is the last 100 of all |
| `SpreadEngine.SpreadDetectorEngine.EmergencyStop` | packages/vibe-arbitrage-engine/spread-detector-engine.ts:364-369 | halted with an open breaker, so that no detection passes the gates |
| `SpreadEngine.SpreadDetectorEngine.Resume` | packages/vibe-arbitrage-engine/spread-detector-engine.ts:371-376 | running with a closed breaker |
| `SpreadEngine.SpreadDetectorEngine.ResetDaily` | packages/vibe-arbitrage-engine/spread-detector-engine.ts:378-382 | daily result, breaker and skip counter are reset, and the skips that disappear are exactly those |
| `UsageMetering.ClosedMeansBelowThreshold` | engine/payments/usage_metering_service.py:119-180 | in every run: closed exactly when the failures are below the threshold, and then they are the present run of failures |
| `UsageMetering.OpensAtThreshold` | engine/payments/usage_metering_service.py:160-180 | a closed breaker opens exactly with the failure that completes a run of the threshold |
| `UsageMetering.HalfOpenWaits` | engine/payments/usage_metering_service.py:129-145 | in every run an open breaker becomes half-open exactly by a request made the recovery timeout or more after the last failure |
| `UsageMetering.AcknowledgedClosesExactly` | engine/payments/usage_metering_service.py:150-180 | a batch acknowledged after k failed posts leaves the breaker closed exactly when k is zero or, from closed, the failures with k more stay below the threshold |
| `UsageMetering.RetryDoesNotClose` | engine/payments/usage_metering_service.py:150-180 | one failure short of the threshold, a failed post and an acknowledged retry leave the breaker open |
| `UsageMetering.SleepIsBounded` | engine/payments/usage_metering_service.py:466-475 | a batch sleeps no more than 2 to the power of retries less one, less one, seconds |
| `UsageMetering.Posts` | engine/payments/usage_metering_service.py:394-475 | never more than the allowance; every post but the last was answered by something worth retrying |
| `UsageMetering.PostsIs` | engine/payments/usage_metering_service.py:394-475 | the posts end at the first reply that settles the matter or at the allowance |
| `UsageMetering.PostsWrittenOut` | engine/payments/usage_metering_service.py:409-463 | only a 200 is an acknowledgement; timeouts, connection errors and all but client errors are worth another post |
| `UsageMetering.CircuitBreaker.constructor` | engine/payments/usage_metering_service.py:95-112 | closed, no failures |
| `UsageMetering.CircuitBreaker.AllowRequest` | engine/payments/usage_metering_service.py:119-148 | lets through unless open within the recovery timeout; moves to half-open when that is over |
| `UsageMetering.CircuitBreaker.RecordSuccess` | engine/payments/usage_metering_service.py:150-158 | closes a half-open breaker and clears a closed one, and does nothing to an open one |
| `UsageMetering.CircuitBreaker.RecordFailure` | engine/payments/usage_metering_service.py:160-180 | counts, and opens from half-open or at the threshold |
| `UsageMetering.BatchSender.SendBatch` | engine/payments/usage_metering_service.py:366-483 | verdict, number of posts, seconds slept and the breaker afterwards, for every sequence of replies; nothing is posted when the breaker refuses |
| `UsageMetering.BatchSender.PostUntilSettled` | engine/payments/usage_metering_service.py:394-483 | the retry loop posts until a reply settles the batch or the allowance is used up |
| `MetricsBuffer.TenantSplit` | engine/payments/usage_metering_service.py:549-553 | taking out one tenant splits the keys of a batch without loss |
| `MetricsBuffer.OldestMatchesAreTheSentRows` | engine/payments/usage_metering_service.py:514-521 | deleting the oldest match for each sent event removes the very rows that were sent, repeated keys included |
| `MetricsBuffer.AnyMatchIsSafeExactly` | engine/payments/usage_metering_service.py:514-521 | whichever row with the key goes, the sent event is what leaves, exactly when no row with that key holds another event |
| `MetricsBuffer.AnotherMatchLosesAPayload` | engine/payments/usage_metering_service.py:514-521 | deleting another match keeps the count by key and loses an unsent payload |
| `MetricsBuffer.GroupByTenant` | engine/payments/usage_metering_service.py:547-553 | each tenant once, with its events in order, and nobody left out |
| `MetricsBuffer.UsageMeteringService.constructor` | engine/payments/usage_metering_service.py:196-243 | an empty buffer |
| `MetricsBuffer.UsageMeteringService.StoreEvent` | engine/payments/usage_metering_service.py:347-364 | one more row and one more tracked key |
| `MetricsBuffer.UsageMeteringService.GetPendingEvents` | engine/payments/usage_metering_service.py:485-508 | the oldest rows up to the limit |
| `MetricsBuffer.UsageMeteringService.MarkSent` | engine/payments/usage_metering_service.py:510-521 | one row with the key disappears, whichever it is; it holds the sent event unless another event shares the key |
| `MetricsBuffer.UsageMeteringService.MarkPending` | engine/payments/usage_metering_service.py:522-533 | every row with the key counts one more retry and no event changes |
| `MetricsBuffer.UsageMeteringService.RemoveBatch` | engine/payments/usage_metering_service.py:566-568 | the keys of the batch leave, one for one, and the other rows stay as they are |
| `MetricsBuffer.UsageMeteringService.RetryBatch` | engine/payments/usage_metering_service.py:570-572 | a refused batch stays in the buffer, and each row counts one retry for every event of the batch with its key |
| `MetricsBuffer.UsageMeteringService.AcceptGroup` | engine/payments/usage_metering_service.py:565-568 | after an acknowledgement the rows of exactly that tenant are gone |
| `MetricsBuffer.UsageMeteringService.SendGroup` | engine/payments/usage_metering_service.py:557-563 | a group is acknowledged exactly when the breaker lets it out and a post for it is answered well |
| `MetricsBuffer.UsageMeteringService.FlushGroup` | engine/payments/usage_metering_service.py:557-572 | the rows of a tenant leave exactly when its batch was acknowledged, at once or on a retry |
| `MetricsBuffer.UsageMeteringService.FlushGroups` | engine/payments/usage_metering_service.py:555-574 | over all groups: which tenants are acknowledged, exactly, what left, and the breaker afterwards |
| `MetricsBuffer.UsageMeteringService.Flush` | engine/payments/usage_metering_service.py:535-574 | tracked = delivered + pending for each key; returns how many rows left; those that left are the events of exactly the tenants whose send was acknowledged; with every send acknowledged the whole batch leaves |
| `MetricsBuffer.UsageMeteringService.FlushRound` | engine/payments/usage_metering_service.py:535-574 | one flush with what the network did to it |
| `MetricsBuffer.UsageMeteringService.Drain` | engine/payments/usage_metering_service.py:535-574 | over flushes in a row with every send acknowledged, the buffer is empty exactly when they number n / batch size, rounded up, or more; so it is from a breaker at rest when retries stay below the threshold |
| `MetricsBuffer.SmoothSends` | engine/payments/usage_metering_service.py:555-574 | when the first send closes the breaker and retries stay below the threshold, every send is acknowledged |
| `IdeaLoop.FilesWrittenExactly` | mekong/autopilot/idea_loop.py:219-235 | a path is listed exactly when a WRITE or EDIT of it was carried out; none in a dry run |
| `IdeaLoop.BudgetsHold` | mekong/autopilot/safety.py:42-75 | after any number of turns: iterations within their limit, at most one MCU over, failures equal to the failed turns at the end and within their limit |
| `IdeaLoop.TurnWrittenOut` | mekong/autopilot/idea_loop.py:212-309 | what one turn does: leave with an exception, go on, count as a success, write a file |
| `IdeaLoop.SpentIsCounted` | mekong/autopilot/safety.py:57-75 | the counters are the turns, the tokens and calls summed over them, and the failed turns at the end |
| `IdeaLoop.BudgetsWereOpen` | mekong/autopilot/safety.py:42-55 | every pass that happened found every budget open: iterations, tokens, MCU, failures and time, and no signal |
| `IdeaLoop.BudgetExactly` | mekong/autopilot/safety.py:42-55 | the budget that ends the run is used up, and none that is checked before it is |
| `IdeaLoop.SafetyBudget.constructor` | mekong/autopilot/safety.py:19-32 | nothing used |
| `IdeaLoop.SafetyBudget.OnSignal` | mekong/autopilot/safety.py:34-40 | aborted |
| `IdeaLoop.SafetyBudget.RecordIter` | mekong/autopilot/safety.py:57-59 | one iteration more and nothing else |
| `IdeaLoop.SafetyBudget.RecordTokens` | mekong/autopilot/safety.py:61-63 | tokens more and nothing else |
| `IdeaLoop.SafetyBudget.RecordMcu` | mekong/autopilot/safety.py:65-67 | MCU more and nothing else |
| `IdeaLoop.SafetyBudget.RecordSuccess` | mekong/autopilot/safety.py:69-71 | the failure run ends |
| `IdeaLoop.SafetyBudget.RecordFailure` | mekong/autopilot/safety.py:73-75 | the failure run grows by one |
| `IdeaLoop.IdeaLoop.constructor` | mekong/autopilot/idea_loop.py:167-182 | an unused budget and no files |
| `IdeaLoop.IdeaLoop.LlmTurn` | mekong/autopilot/idea_loop.py:198-210 | an answered call costs its tokens and one MCU |
| `IdeaLoop.IdeaLoop.Dispatch` | mekong/autopilot/idea_loop.py:212-246 | tool by tool: terminal, announced only, or invoked with the outcome of the tool; records a file exactly when it was written |
| `IdeaLoop.IdeaLoop.Act` | mekong/autopilot/idea_loop.py:290-309 | an answer without a call is a failed turn; otherwise the tool decides |
| `IdeaLoop.IdeaLoop.LoopAndDeploy` | mekong/autopilot/idea_loop.py:272-320 | the loop and the deploy step end as the turns say |
| `IdeaLoop.IdeaLoop.Pass` | mekong/autopilot/idea_loop.py:274-309 | one turn: continues or stops, and charges the budget, as the reading of the turn says |
| `IdeaLoop.IdeaLoop.Run` | mekong/autopilot/idea_loop.py:266-335 | ends for every behaviour of model and tools; every turn before the end found each budget open, and a budget ending names the first that was not; the final counters are those of the turns; ok exactly for DONE and, where asked for, a good deploy |
| `Backtesting.SpreadWidens` | packages/vibe-arbitrage-engine/arbitrage-backtester.ts:178-181 | a cheaper purchase or a dearer sale widens the spread, strictly |
| `Backtesting.BestIsTheExtremes` | packages/vibe-arbitrage-engine/arbitrage-backtester.ts:170-193 | a pair that no pair beats is the lowest against the highest positive price |
| `Backtesting.FindBestOpportunity` | packages/vibe-arbitrage-engine/arbitrage-backtester.ts:170-193 | finds an opportunity exactly when two positive prices differ, and then buys at the lowest and sells at the highest |
| `Backtesting.LowestIsLowest` | packages/vibe-arbitrage-engine/arbitrage-backtester.ts:170-193 | the lowest positive price, or zero when there is none |
| `Backtesting.HighestIsHighest` | packages/vibe-arbitrage-engine/arbitrage-backtester.ts:170-193 | the highest price, attained when positive |
| `Backtesting.ReplayEarns` | packages/vibe-arbitrage-engine/arbitrage-backtester.ts:115-163 | over any snapshots every trade gains, and equity is the capital plus all net profits, at every point |
| `Backtesting.EquityRises` | packages/vibe-arbitrage-engine/arbitrage-backtester.ts:150-160 | equity rises strictly from each trade to the next |
| `Backtesting.CurveRises` | packages/vibe-arbitrage-engine/arbitrage-backtester.ts:113-163 | the equity curve rises from every point to every later one |
| `Backtesting.CooldownIsKept` | packages/vibe-arbitrage-engine/arbitrage-backtester.ts:121-121 | trades are at least the cooldown apart, the first from time zero |
| `Backtesting.DecideWrittenOut` | packages/vibe-arbitrage-engine/arbitrage-backtester.ts:116-147 | when a snapshot is traded on, and every figure of the trade: amount, gross, fees, slippage, net and equity |
| `Backtesting.SortedByTime` | packages/vibe-arbitrage-engine/arbitrage-backtester.ts:103-103 | the snapshots are replayed in the order of their timestamps |
| `Backtesting.TradeOn` | packages/vibe-arbitrage-engine/arbitrage-backtester.ts:121-147 | a snapshot is traded on exactly when the decision over its price extremes says so, with those figures |
| `Backtesting.Run` | packages/vibe-arbitrage-engine/arbitrage-backtester.ts:100-168 | trades, curve and final equity are those of the replay of the sorted snapshots; the curve rises strictly and drawdown is zero; every trade was quoted in one of the snapshots |
| `Backtesting.CalculateMetrics` | packages/vibe-arbitrage-engine/arbitrage-backtester.ts:195-223 | counts and sums over any results, with the longest winning and non-winning runs |
| `Backtesting.Streaks` | packages/vibe-arbitrage-engine/arbitrage-backtester.ts:207-211 | the two streak counters are the longest runs |
| `Backtesting.RunsOnlyWin` | packages/vibe-arbitrage-engine/arbitrage-backtester.ts:195-223 | over the trades of a run: one unbroken winning streak and no loss |
| `Rebalancing.SeveralOnBothSidesOvershoot` | packages/vibe-arbitrage-engine/balance-rebalancer.ts:177-205 | with two or more on both sides somebody is always pushed past the target |
| `Rebalancing.OvershootCondition` | packages/vibe-arbitrage-engine/balance-rebalancer.ts:177-205 | exactly which gaps allow all pairwise transfers together |
| `Rebalancing.SuggestionsAreSound` | packages/vibe-arbitrage-engine/balance-rebalancer.ts:163-205 | every suggestion made from a report lies between the minimum and both gaps of two of its exchanges and, unless the target is negative, is payable from what the donor has available |
| `Rebalancing.GridExactly` | packages/vibe-arbitrage-engine/balance-rebalancer.ts:177-205 | a pair is suggested exactly when both gaps are worth a transfer and the donor has something to give, with the priority of the imbalance |
| `Rebalancing.SidesExactly` | packages/vibe-arbitrage-engine/balance-rebalancer.ts:170-175 | donors are exactly the exchanges over the target, richest first, and receivers those under it, poorest first |
| `Rebalancing.RowWrittenOut` | packages/vibe-arbitrage-engine/balance-rebalancer.ts:123-127 | the row of an exchange is its first balance in the currency, or nothing |
| `Rebalancing.SharesWrittenOut` | packages/vibe-arbitrage-engine/balance-rebalancer.ts:130-134 | shares are percentages of the total value, zero when there is none |
| `Rebalancing.GridMovesFrom` | packages/vibe-arbitrage-engine/balance-rebalancer.ts:177-205 | what all suggestions together take from a donor |
| `Rebalancing.GridMovesTo` | packages/vibe-arbitrage-engine/balance-rebalancer.ts:177-205 | what all suggestions together bring a receiver |
| `Rebalancing.SuggestionsStayWithinTarget` | packages/vibe-arbitrage-engine/balance-rebalancer.ts:177-205 | nobody is pushed past the target exactly when one side leaves no choice |
| `Rebalancing.SuggestionsConserve` | packages/vibe-arbitrage-engine/balance-rebalancer.ts:177-205 | carrying out every suggestion leaves the total value as it was |
| `Rebalancing.GapsBalance` | packages/vibe-arbitrage-engine/balance-rebalancer.ts:166-175 | around any target, excess less deficit is the total less the target for everyone |
| `Rebalancing.OneSidedIsUnambiguous` | packages/vibe-arbitrage-engine/balance-rebalancer.ts:162-175 | around the equal share a single donor or receiver is never outrun |
| `Rebalancing.EqualShareOneSidedIsSafe` | packages/vibe-arbitrage-engine/balance-rebalancer.ts:162-205 | with one donor or one receiver and the equal share as target, all suggestions can be applied |
| `Rebalancing.AutomaticTargetIsEqualShare` | packages/vibe-arbitrage-engine/balance-rebalancer.ts:162-168 | without a configured share the target times the number of exchanges is the total |
| `Rebalancing.AutomaticOneSidedIsSafe` | packages/vibe-arbitrage-engine/balance-rebalancer.ts:154-208 | the two together, for the target as it is computed |
| `Rebalancing.TwoByTwoOvershoots` | packages/vibe-arbitrage-engine/balance-rebalancer.ts:177-205 | a donor with 100 to spare that is told to give 200 |
| `Rebalancing.BalanceRebalancer.constructor` | packages/vibe-arbitrage-engine/balance-rebalancer.ts:77-79 | no balances |
| `Rebalancing.BalanceRebalancer.UpdateBalances` | packages/vibe-arbitrage-engine/balance-rebalancer.ts:84-86 | a known exchange is replaced in its place, a new one comes last, and the others stay where they are |
| `Rebalancing.BalanceRebalancer.DetectImbalance` | packages/vibe-arbitrage-engine/balance-rebalancer.ts:119-149 | the shares of all exchanges, their extremes, and imbalanced exactly when these differ by more than the threshold |
| `Rebalancing.BalanceRebalancer.SuggestTransfers` | packages/vibe-arbitrage-engine/balance-rebalancer.ts:154-208 | nothing when balanced or alone; else every pair of a donor and a receiver that can move the minimum, in order, each of them sound |
| `Rebalancing.BalanceRebalancer.PairAll` | packages/vibe-arbitrage-engine/balance-rebalancer.ts:177-205 | the outer loop yields one row of pairs for each donor |
| `Rebalancing.BalanceRebalancer.PairOne` | packages/vibe-arbitrage-engine/balance-rebalancer.ts:178-204 | the inner loop yields the pairs of one donor that can move the minimum |
| `Rebalancing.Extremes` | packages/vibe-arbitrage-engine/balance-rebalancer.ts:136-138 | largest and smallest share, attained, and zero for none |
| `LatencyProfiles.PercentileCovers` | packages/vibe-arbitrage-engine/latency-optimizer.ts:235-239 | a percentile is the least value that covers its quota of the samples, and is one of them |
| `LatencyProfiles.PercentilesAscend` | packages/vibe-arbitrage-engine/latency-optimizer.ts:100-108 | a higher percentile is not smaller |
| `LatencyProfiles.MeetsTargetExactly` | packages/vibe-arbitrage-engine/latency-optimizer.ts:154-158 | meets the target exactly when 95 in 100 successes are within it, or there is no record, or no success and the target is not negative |
| `LatencyProfiles.ProfileWrittenOut` | packages/vibe-arbitrage-engine/latency-optimizer.ts:94-112 | each reported percentile is the least value within which its part of the successful records lies; the success rate is their percentage |
| `LatencyProfiles.SortKeepsCount` | packages/vibe-arbitrage-engine/latency-optimizer.ts:100-100 | sorting keeps how many samples lie within a bound |
| `LatencyProfiles.LatencyOptimizer.constructor` | packages/vibe-arbitrage-engine/latency-optimizer.ts:50-52 | no records |
| `LatencyProfiles.LatencyOptimizer.RecordLatency` | packages/vibe-arbitrage-engine/latency-optimizer.ts:57-75 | what is kept is the newest of everything recorded, exchange by exchange |
| `LatencyProfiles.LatencyOptimizer.GetProfile` | packages/vibe-arbitrage-engine/latency-optimizer.ts:80-113 | the profile of the newest records, with ascending percentiles |
| `LatencyProfiles.LatencyOptimizer.MeetsTarget` | packages/vibe-arbitrage-engine/latency-optimizer.ts:154-158 | what the newest records say |
| `KellySizing.TrimStep` | packages/vibe-arbitrage-engine/kelly-position-sizer.ts:72-77 | one record and its trim keep the last 2 x window of everything |
| `KellySizing.TrimmingIsLossless` | packages/vibe-arbitrage-engine/kelly-position-sizer.ts:83-88 | the window over what was kept is the window over everything |
| `KellySizing.MixedWindow` | packages/vibe-arbitrage-engine/kelly-position-sizer.ts:104-122 | the fraction times the gains is the win rate times the net |
| `KellySizing.KellyFollowsNetProfit` | packages/vibe-arbitrage-engine/kelly-position-sizer.ts:104-122 | positive exactly when the window made money and its non-winning trades, if any, include a real loss; never above the win rate; zero for an empty window |
| `KellySizing.FiguresWrittenOut` | packages/vibe-arbitrage-engine/kelly-position-sizer.ts:98-139 | win rate, payoff, edge and fraction of a window with gains and losses, from what was gained and lost in how many trades |
| `KellySizing.SizeWrittenOut` | packages/vibe-arbitrage-engine/kelly-position-sizer.ts:113-136 | the fraction is scaled by both multipliers, clamped, applied to the equity and held within the limits |
| `KellySizing.Window` | packages/vibe-arbitrage-engine/kelly-position-sizer.ts:84-84 | the last trades up to the window size; zero is no limit |
| `KellySizing.FreeLossesHideTheEdge` | packages/vibe-arbitrage-engine/kelly-position-sizer.ts:104-122 | a profitable window with fraction zero |
| `KellySizing.SizeIsBounded` | packages/vibe-arbitrage-engine/kelly-position-sizer.ts:134-136 | the size stays within its bounds, and is the smallest without a net profit |
| `KellySizing.KellyPositionSizer.constructor` | packages/vibe-arbitrage-engine/kelly-position-sizer.ts:60-69 | no trades |
| `KellySizing.KellyPositionSizer.RecordTrade` | packages/vibe-arbitrage-engine/kelly-position-sizer.ts:72-77 | what is kept follows everything recorded |
| `KellySizing.KellyPositionSizer.Calculate` | packages/vibe-arbitrage-engine/kelly-position-sizer.ts:83-151 | the sizing of the last window of everything ever recorded |
| `BillingWebhook.DispatchIsLocal` | src/api/billing_routes.py:255-304 | a dispatch touches one organisation and creates or removes none |
| `BillingWebhook.DispatchWrittenOut` | src/services/org_service.py:740-839 | what a creation and a cancellation do to the organisation they name, and when a dispatch raises |
| `BillingWebhook.LedgerKnowsIds` | src/api/billing_routes.py:210-231 | the ledger holds exactly the ids that were delivered |
| `BillingWebhook.DispatchedAtMostOnce` | src/api/billing_routes.py:210-235 | no id is dispatched twice |
| `BillingWebhook.DispatchedExactly` | src/api/billing_routes.py:210-235 | a delivery is dispatched exactly when it is well formed and no well-formed one before it carries its id |
| `BillingWebhook.ReplaysChangeNothing` | src/api/billing_routes.py:210-220 | any replays in any order leave what is dispatched, and so organisations and ledger, as they were |
| `BillingWebhook.CancellationIsTakenForAReplay` | src/services/polar_client.py:193-193 | after the first event of a subscription no later event about it is dispatched |
| `BillingWebhook.FailedRowsAreRaisedDispatches` | src/api/billing_routes.py:235-250 | a row is marked failed exactly when the one dispatch of its event raised |
| `BillingWebhook.WebhookEndpoint.constructor` | src/api/billing_routes.py:61-73 | an empty ledger |
| `BillingWebhook.WebhookEndpoint.WebhookOrg` | src/api/billing_routes.py:200-252 | ledger and organisations are those of the first occurrences alone; the response says replay, failure or success |
| `BillingWebhook.WebhookEndpoint.DispatchEvent` | src/api/billing_routes.py:255-304 | the effect of one event on the organisations, and whether it raised |
| `Stats.SumSplits` | packages/vibe-arbitrage-engine/arbitrage-executor.ts:134-153 | gains and losses make up the whole, in sum and in number |
| `Stats.LongestRunIsLongest` | packages/vibe-arbitrage-engine/profit-tracker.ts:125-135 | the one-pass streak maximum is the length of a longest block |
| `Stats.TrimIsLast` | packages/vibe-arbitrage-engine/profit-tracker.ts:164-169 | trimming after every append keeps the newest of everything |
| `Stats.SortOnSorts` | packages/vibe-arbitrage-engine/arbitrage-backtester.ts:103-103 | sorting yields the same elements in ascending order |

## Left out

- IEEE rounding, signed zero, and arithmetic on NaN and Infinity: amounts are exact reals; where the code divides by a zero it does not exclude, the result is a case of its own (`Infinite`, `NotANumber`, `None`).
- Exchange clients, WebSockets, HTTP, SQLite itself, JSON files, logging, e-mail: what they answer is a parameter.
- Sharpe and Sortino ratios, the Hurst exponent and everything else that takes a square root.
- Signal scoring, spread history, liquidity score, fee calculator, scanner: their answers are parameters (`Opinion`, `calculated`).
- Reports, dashboards, reason strings and alert listeners; of equity points the timestamps.
- Average latencies per operation, ranking and warm-up of exchanges; snapshots and transfer records of the rebalancer; generated test data of the backtester.
- Order books are addressed by exchange and symbol joined with a colon, as in the source, so an exchange name with a colon can collide there and here.
- ArbitrageExecution.ArbitrageExecutor.Settle: price slippage of the two orders is only logged by the source and is not modelled.
- EmergencyBreaker.EmergencyCircuitBreaker.RecordTrade: one call reads the clock once, and the clock does not run backwards between counted losses.
- EmergencyBreaker.EmergencyCircuitBreaker.OnTimer: the handle of a timer that has fired is modelled as no timer; the source keeps the dead handle, and clearing it does nothing.
- SpreadEngine.SpreadDetectorEngine.Continue: an alert listener that throws is not modelled, so the branch that records an execution error is not reached.
- IdeaLoop.IdeaLoop.Run: the token budget is checked before a turn and how far one turn may exceed it is not bounded, because a reply may be of any size; prompts, context and the final test run are left out.
- MetricsBuffer.UsageMeteringService.Flush: insertion order stands for the creation time by which rows are fetched; a crash is covered between two row operations, not inside one, and then only `Safe` is claimed.
- MetricsBuffer.UsageMeteringService.GetPendingEvents: the status column is not modelled, since every row that is in the table is pending.
- BillingWebhook.WebhookEndpoint.WebhookOrg: signatures and the replay window are checked before; deliveries are handled one at a time, and a crash between the insert and the dispatch is not modelled. Bodies whose `data` is not an object are left out.
- Usage queue and usage meter, licence keys, tokens, regular expressions, path checks, agents, scripts and analytics queries.
