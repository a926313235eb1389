/** The autopilot loop and its safety budget, against a model and tools that may do anything. */
module IdeaLoop {
  import opened Wrappers

  datatype Tool = READ | LS | WRITE | EDIT | BASH | GIT | TEST | TYPECHECK | CHECKPOINT | DONE | ABORT

  datatype Call = Call(tool: Tool, args: string)

  /** A call to the model raises, or answers with a tool call or with nothing that parses as one. */
  datatype ModelReply = Raises | Answers(call: Option<Call>, tokens: nat)

  datatype ToolOutcome = Fine | Fails | Breaks

  /** Everything the outside world decides about one pass of the loop. */
  datatype Turn = Turn(
    signalled: bool,             // a termination signal has arrived by the time the budget is checked
    elapsed: real,               // seconds since the start at that moment
    compaction: Option<ModelReply>, // the extra model call, when the context is near its limit
    reply: ModelReply,
    tool: ToolOutcome)

  datatype Limits = Limits(maxIter: int, maxTokens: int, maxMcu: int, maxConsecFailures: int, timeoutSecs: real)

  datatype Why = Aborted | MaxIter | MaxTokens | MaxMcu | ConsecutiveFailures | TimedOut

  datatype Counters = Counters(iterations: nat, tokens: nat, mcu: nat, failures: nat)

  const UNUSED := Counters(0, 0, 0, 0)

  /** The first budget that is used up, in the order in which they are checked. */
  function Exhausted(lim: Limits, c: Counters, aborted: bool, elapsed: real): Option<Why> {
    if aborted then Some(Aborted)
    else if c.iterations >= lim.maxIter then Some(MaxIter)
    else if c.tokens >= lim.maxTokens then Some(MaxTokens)
    else if c.mcu >= lim.maxMcu then Some(MaxMcu)
    else if c.failures >= lim.maxConsecFailures then Some(ConsecutiveFailures)
    else if elapsed > lim.timeoutSecs then Some(TimedOut)
    else None
  }

  class SafetyBudget {
    const lim: Limits
    var iterCount: nat
    var tokensUsed: nat
    var mcuUsed: nat
    var consecFailures: nat
    var aborted: bool

    function View(): Counters
      reads this
    {
      Counters(iterCount, tokensUsed, mcuUsed, consecFailures)
    }

    constructor (lim: Limits)
      ensures this.lim == lim && View() == UNUSED && !aborted
    {
      this.lim := lim;
      iterCount, tokensUsed, mcuUsed, consecFailures, aborted := 0, 0, 0, 0, false;
    }

    method OnSignal()
      modifies this`aborted
      ensures aborted
    {
      aborted := true;
    }

    method RecordIter()
      modifies this`iterCount
      ensures View() == old(View()).(iterations := old(iterCount) + 1)
    {
      iterCount := iterCount + 1;
    }

    method RecordTokens(n: nat)
      modifies this`tokensUsed
      ensures View() == old(View()).(tokens := old(tokensUsed) + n)
    {
      tokensUsed := tokensUsed + n;
    }

    method RecordMcu(n: nat)
      modifies this`mcuUsed
      ensures View() == old(View()).(mcu := old(mcuUsed) + n)
    {
      mcuUsed := mcuUsed + n;
    }

    method RecordSuccess()
      modifies this`consecFailures
      ensures View() == old(View()).(failures := 0)
    {
      consecFailures := 0;
    }

    method RecordFailure()
      modifies this`consecFailures
      ensures View() == old(View()).(failures := old(consecFailures) + 1)
    {
      consecFailures := consecFailures + 1;
    }
  }

  // ----- what one pass amounts to -----

  predicate Terminal(c: Call) { c.tool == DONE || c.tool == ABORT }

  /** Tools that a dry run only announces. */
  predicate Muted(t: Tool) {
    t == WRITE || t == EDIT || t == BASH || t == GIT || t == TEST || t == TYPECHECK || t == CHECKPOINT
  }

  /** The tool is really invoked, so its outcome counts; reading a file reports every problem as text. */
  predicate Invoked(dryRun: bool, c: Call) {
    !Terminal(c) && c.tool != READ && !(dryRun && Muted(c.tool))
  }

  /** The exception leaves the loop: from the compaction call or from a tool. */
  predicate Escapes(dryRun: bool, t: Turn) {
    || (t.compaction.Some? && t.compaction.value.Raises?)
    || (t.reply.Answers? && t.reply.call.Some? && Invoked(dryRun, t.reply.call.value) && t.tool == Breaks)
  }

  /** The turn counts as a success for the failure budget. */
  predicate Succeeds(dryRun: bool, t: Turn)
    requires t.reply.Answers?
  {
    && t.reply.call.Some?
    && var c := t.reply.call.value;
       if Terminal(c) then c.tool == DONE else Invoked(dryRun, c) ==> t.tool == Fine
  }

  /** The loop goes on after this pass. */
  predicate Continues(dryRun: bool, t: Turn) {
    !Escapes(dryRun, t) && t.reply.Answers? && (t.reply.call.Some? ==> !Terminal(t.reply.call.value))
  }

  /** A file is written: a WRITE or EDIT that was carried out. */
  predicate Touches(dryRun: bool, t: Turn) {
    && t.reply.Answers? && t.reply.call.Some? && !Escapes(dryRun, t)
    && (t.reply.call.value.tool == WRITE || t.reply.call.value.tool == EDIT)
    && Invoked(dryRun, t.reply.call.value) && t.tool == Fine
  }

  /** The counters after a pass that neither raises nor escapes. */
  function Charge(dryRun: bool, c: Counters, t: Turn): Counters
    requires t.reply.Answers? && (t.compaction.Some? ==> t.compaction.value.Answers?)
  {
    var extra := if t.compaction.Some? then t.compaction.value.tokens else 0;
    Counters(c.iterations + 1, c.tokens + extra + t.reply.tokens, c.mcu + (if t.compaction.Some? then 2 else 1),
             if Succeeds(dryRun, t) then 0 else c.failures + 1)
  }

  // ----- the whole run, as a reading of what the world does -----

  /** The counters after the first `n` passes. */
  ghost function Spent(dryRun: bool, world: seq<Turn>, n: nat): Counters
    requires n <= |world|
  {
    if n == 0 then UNUSED
    else if Continues(dryRun, world[n - 1]) then Charge(dryRun, Spent(dryRun, world, n - 1), world[n - 1])
    else Spent(dryRun, world, n - 1)
  }

  /** The budget is open at the check before pass `n`. */
  ghost function BudgetAt(lim: Limits, dryRun: bool, world: seq<Turn>, n: nat): Option<Why>
    requires n < |world|
  {
    Exhausted(lim, Spent(dryRun, world, n), world[n].signalled, world[n].elapsed)
  }

  /** The first `n` passes happen: each finds the budget open and continues. */
  ghost predicate Passed(lim: Limits, dryRun: bool, world: seq<Turn>, n: nat)
    requires n <= |world|
  {
    || n == 0
    || (&& Passed(lim, dryRun, world, n - 1)
        && BudgetAt(lim, dryRun, world, n - 1).None? && Continues(dryRun, world[n - 1]))
  }

  /** The failed turns at the end of the first `n`. */
  ghost function FailedRun(dryRun: bool, world: seq<Turn>, n: nat): nat
    requires n <= |world|
  {
    if n == 0 || !world[n - 1].reply.Answers? || Succeeds(dryRun, world[n - 1]) then 0
    else FailedRun(dryRun, world, n - 1) + 1
  }

  ghost function FilesWritten(dryRun: bool, world: seq<Turn>, n: nat): set<string>
    requires n <= |world|
  {
    if n == 0 then {}
    else
      FilesWritten(dryRun, world, n - 1)
      + if Touches(dryRun, world[n - 1]) then {world[n - 1].reply.call.value.args} else {}
  }

  lemma {:induction false} FilesWrittenExactly(dryRun: bool, world: seq<Turn>, n: nat, path: string)
    requires n <= |world|
    ensures path in FilesWritten(dryRun, world, n) <==>
            exists i :: 0 <= i < n && Touches(dryRun, world[i]) && world[i].reply.call.value.args == path
    ensures dryRun ==> FilesWritten(dryRun, world, n) == {}
  {
    if n > 0 {
      FilesWrittenExactly(dryRun, world, n - 1, path);
    }
  }

  // ----- what the turns cost, told from the turns alone -----

  /** The tokens of the first `n` turns: those of every answer, compactions included. */
  ghost function Tokens(world: seq<Turn>, n: nat): nat
    requires n <= |world|
  {
    if n == 0 then 0
    else
      var t := world[n - 1];
      Tokens(world, n - 1)
      + (if t.reply.Answers? then t.reply.tokens else 0)
      + if t.compaction.Some? && t.compaction.value.Answers? then t.compaction.value.tokens else 0
  }

  /** The calls to the model in the first `n` turns. */
  ghost function Calls(world: seq<Turn>, n: nat): nat
    requires n <= |world|
  {
    if n == 0 then 0 else Calls(world, n - 1) + if world[n - 1].compaction.Some? then 2 else 1
  }

  /** What one turn does, written out: leave with an exception, go on, count as a success, write a file. */
  lemma TurnWrittenOut(dryRun: bool, t: Turn)
    ensures var muted := {WRITE, EDIT, BASH, GIT, TEST, TYPECHECK, CHECKPOINT};
            var compactionRaises := t.compaction.Some? && t.compaction.value.Raises?;
            var called := t.reply.Answers? && t.reply.call.Some?;
            var tool := if called then t.reply.call.value.tool else DONE;
            var ended := called && (tool == DONE || tool == ABORT);
            var invoked := called && !ended && tool != READ && !(dryRun && tool in muted);
            && (Escapes(dryRun, t) <==> compactionRaises || (invoked && t.tool == Breaks))
            && (Continues(dryRun, t) <==>
                  !compactionRaises && t.reply.Answers? && !ended && (invoked ==> t.tool != Breaks))
            && (t.reply.Answers? ==>
                  (Succeeds(dryRun, t) <==> called && tool != ABORT && (invoked ==> t.tool == Fine)))
            && (Touches(dryRun, t) <==>
                  !compactionRaises && called && (tool == WRITE || tool == EDIT) && !dryRun && t.tool == Fine)
  {
  }

  lemma {:induction false} SpentIsCounted(lim: Limits, dryRun: bool, world: seq<Turn>, n: nat)
    requires n <= |world| && Passed(lim, dryRun, world, n)
    ensures Spent(dryRun, world, n) == Counters(n, Tokens(world, n), Calls(world, n), FailedRun(dryRun, world, n))
  {
    if n > 0 {
      SpentIsCounted(lim, dryRun, world, n - 1);
      hide Succeeds;
    }
  }

  /** Pass `k` found no signal and every budget open. */
  ghost predicate FoundOpen(lim: Limits, dryRun: bool, world: seq<Turn>, k: nat)
    requires k < |world|
  {
    && !world[k].signalled && world[k].elapsed <= lim.timeoutSecs
    && k < lim.maxIter && Tokens(world, k) < lim.maxTokens
    && Calls(world, k) < lim.maxMcu && FailedRun(dryRun, world, k) < lim.maxConsecFailures
  }

  /** Every pass that happened found every budget open, and no signal had arrived. */
  lemma {:induction false} BudgetsWereOpen(lim: Limits, dryRun: bool, world: seq<Turn>, n: nat, k: nat)
    requires k < n <= |world| && Passed(lim, dryRun, world, n)
    ensures !world[k].signalled && world[k].elapsed <= lim.timeoutSecs
    ensures k < lim.maxIter && Tokens(world, k) < lim.maxTokens && Calls(world, k) < lim.maxMcu
    ensures FailedRun(dryRun, world, k) < lim.maxConsecFailures
  {
    if k < n - 1 {
      BudgetsWereOpen(lim, dryRun, world, n - 1, k);
    } else {
      SpentIsCounted(lim, dryRun, world, k);
    }
  }

  /** Which budget ends the run before pass `n`: one that is used up, and none that is checked before it. */
  lemma BudgetExactly(lim: Limits, dryRun: bool, world: seq<Turn>, n: nat)
    requires n < |world| && Passed(lim, dryRun, world, n)
    ensures var why, t := BudgetAt(lim, dryRun, world, n), world[n];
            var iter, tokens, mcu := n >= lim.maxIter, Tokens(world, n) >= lim.maxTokens, Calls(world, n) >= lim.maxMcu;
            var failures, late := FailedRun(dryRun, world, n) >= lim.maxConsecFailures, t.elapsed > lim.timeoutSecs;
            && (why == Some(Aborted) <==> t.signalled)
            && (why == Some(MaxIter) <==> !t.signalled && iter)
            && (why == Some(MaxTokens) <==> !t.signalled && !iter && tokens)
            && (why == Some(MaxMcu) <==> !t.signalled && !iter && !tokens && mcu)
            && (why == Some(ConsecutiveFailures) <==> !t.signalled && !iter && !tokens && !mcu && failures)
            && (why == Some(TimedOut) <==> !t.signalled && !iter && !tokens && !mcu && !failures && late)
            && (why.None? <==> !t.signalled && !iter && !tokens && !mcu && !failures && !late)
  {
    SpentIsCounted(lim, dryRun, world, n);
    hide Spent;
  }

  lemma OpenBudget(lim: Limits, c: Counters, aborted: bool, elapsed: real)
    requires Exhausted(lim, c, aborted, elapsed).None?
    ensures !aborted && c.iterations < lim.maxIter && c.mcu < lim.maxMcu && c.failures < lim.maxConsecFailures
  {
  }

  lemma ChargeBounds(dryRun: bool, c: Counters, t: Turn)
    requires Continues(dryRun, t)
    ensures var d := Charge(dryRun, c, t);
            && d.iterations == c.iterations + 1 && c.mcu < d.mcu <= c.mcu + 2
            && d.failures == if Succeeds(dryRun, t) then 0 else c.failures + 1
  {
  }

  /**
   * The budgets after `n` passes: no more iterations than allowed, at most one MCU over, failures within their limit.
   */
  lemma {:induction false} BudgetsHold(lim: Limits, dryRun: bool, world: seq<Turn>, n: nat)
    requires n <= |world| && Passed(lim, dryRun, world, n)
    ensures var c := Spent(dryRun, world, n);
            && c.iterations == n && (n > 0 ==> n <= lim.maxIter)
            && (c.mcu == 0 || c.mcu <= lim.maxMcu + 1)
            && c.failures == FailedRun(dryRun, world, n)
            && (c.failures == 0 || c.failures <= lim.maxConsecFailures)
  {
    hide Exhausted, Charge, Succeeds;
    if n > 0 {
      var t := world[n - 1];
      BudgetsHold(lim, dryRun, world, n - 1);
      OpenBudget(lim, Spent(dryRun, world, n - 1), t.signalled, t.elapsed);
      ChargeBounds(dryRun, Spent(dryRun, world, n - 1), t);
    }
  }

  // ----- the loop -----

  datatype Options = Options(deploy: bool, dryRun: bool)

  datatype Reason = Budget(why: Why) | ModelError | Spoken(call: Call) | DeployFailed

  datatype RunResult = RunResult(ok: bool, reason: Reason, iterations: nat, filesTouched: set<string>)

  /** The run ended with the tool call of its last turn. */
  predicate EndsByTool(r: RunResult) { r.reason.Spoken? || r.reason.DeployFailed? }

  datatype Dispatched = Result(ok: bool, terminal: bool) | Escaped

  /** How a run ends that continued for `n` passes: what the budget says, or else what the next turn does. */
  ghost function Ending(opts: Options, lim: Limits, world: seq<Turn>, n: nat, deployOk: bool): Option<RunResult>
    requires n < |world|
  {
    var t, files := world[n], FilesWritten(opts.dryRun, world, n);
    var why := BudgetAt(lim, opts.dryRun, world, n);
    if why.Some? then Some(RunResult(false, Budget(why.value), n, files))
    else if Escapes(opts.dryRun, t) then None
    else if t.reply.Raises? then Some(RunResult(false, ModelError, n + 1, files))
    else if t.reply.call.None? then None
    else if t.reply.call.value.tool == DONE && opts.deploy && !opts.dryRun && !deployOk then
      Some(RunResult(false, DeployFailed, n + 1, files))
    else Some(RunResult(t.reply.call.value.tool == DONE, Spoken(t.reply.call.value), n + 1, files))
  }

  class IdeaLoop {
    const opts: Options
    const safety: SafetyBudget
    var filesTouched: set<string>

    constructor (opts: Options, lim: Limits)
      ensures this.opts == opts && safety.lim == lim && fresh(safety)
      ensures safety.View() == UNUSED && !safety.aborted && filesTouched == {}
    {
      this.opts := opts;
      safety := new SafetyBudget(lim);
      filesTouched := {};
    }

    /** One answered call to the model. */
    method LlmTurn(reply: ModelReply) returns (call: Option<Call>)
      requires reply.Answers?
      modifies safety`tokensUsed, safety`mcuUsed
      ensures call == reply.call
      ensures safety.View() ==
              old(safety.View()).(tokens := old(safety.tokensUsed) + reply.tokens, mcu := old(safety.mcuUsed) + 1)
    {
      safety.RecordTokens(reply.tokens);
      safety.RecordMcu(1);
      call := reply.call;
    }

    method Dispatch(call: Call, outcome: ToolOutcome) returns (r: Dispatched)
      modifies this`filesTouched
      // Written out, tool by tool.
      ensures call.tool == DONE ==> r == Result(true, true)
      ensures call.tool == ABORT ==> r == Result(false, true)
      ensures call.tool == READ ==> r == Result(true, false)
      ensures opts.dryRun && call.tool in {WRITE, EDIT, BASH, GIT, TEST, TYPECHECK, CHECKPOINT} ==>
              r == Result(true, false)
      ensures call.tool == LS || (!opts.dryRun && call.tool !in {DONE, ABORT, READ}) ==>
              r == if outcome == Breaks then Escaped else Result(outcome == Fine, false)
      ensures filesTouched == old(filesTouched) +
              if call.tool in {WRITE, EDIT} && !opts.dryRun && outcome == Fine then {call.args} else {}
      ensures r.Escaped? <==> Invoked(opts.dryRun, call) && outcome == Breaks
      ensures r.Result? ==> r.terminal == Terminal(call)
      ensures r.Result? ==> (r.ok <==> if Terminal(call) then call.tool == DONE
                                       else Invoked(opts.dryRun, call) ==> outcome == Fine)
      ensures filesTouched == old(filesTouched) +
              if (call.tool == WRITE || call.tool == EDIT) && Invoked(opts.dryRun, call) && outcome == Fine
              then {call.args} else {}
    {
      if call.tool == DONE {
        return Result(true, true);
      }
      if call.tool == ABORT {
        return Result(false, true);
      }
      if opts.dryRun && Muted(call.tool) {
        return Result(true, false);
      }
      if call.tool == READ {
        return Result(true, false);
      }
      if outcome == Breaks {
        return Escaped;
      }
      if (call.tool == WRITE || call.tool == EDIT) && outcome == Fine {
        filesTouched := filesTouched + {call.args};
      }
      return Result(outcome == Fine, false);
    }

    /** Whether a pass ends the loop, and how. */
    method Pass(t: Turn, ghost world: seq<Turn>, ghost n: nat) returns (stop: bool, r: Option<Reason>)
      requires n < |world| && world[n] == t && safety.iterCount == n
      requires safety.View() == Spent(opts.dryRun, world, n) && filesTouched == FilesWritten(opts.dryRun, world, n)
      modifies this`filesTouched, safety`iterCount, safety`tokensUsed, safety`mcuUsed, safety`consecFailures
      ensures stop <==> !Continues(opts.dryRun, t)
      ensures !stop ==> && safety.View() == Spent(opts.dryRun, world, n + 1)
                        && filesTouched == FilesWritten(opts.dryRun, world, n + 1)
      ensures stop ==> r == (if Escapes(opts.dryRun, t) then None else if t.reply.Raises? then Some(ModelError)
                             else Some(Spoken(t.reply.call.value)))
      ensures stop && r.Some? ==> filesTouched == FilesWritten(opts.dryRun, world, n)
      ensures stop ==> && safety.iterCount == n + 1
                       && safety.mcuUsed <= Spent(opts.dryRun, world, n).mcu + 2
                       && safety.consecFailures <= Spent(opts.dryRun, world, n).failures + 1
      ensures stop && r.Some? && r.value.Spoken? ==>
              safety.View() == Charge(opts.dryRun, Spent(opts.dryRun, world, n), t)
      ensures stop && !(r.Some? && r.value.Spoken?) ==> safety.consecFailures == Spent(opts.dryRun, world, n).failures
    {
      hide Spent, FilesWritten;
      PassSnoc(opts.dryRun, world, n);
      safety.RecordIter();
      if t.compaction.Some? {
        if t.compaction.value.Raises? {
          return true, None;
        }
        var summary := LlmTurn(t.compaction.value);
      }
      if t.reply.Raises? {
        return true, Some(ModelError);
      }
      var call := LlmTurn(t.reply);
      stop, r := Act(call, t.tool);
    }

    /** What follows an answer: nothing to call is a failed turn; otherwise the tool decides. */
    method Act(call: Option<Call>, outcome: ToolOutcome) returns (stop: bool, r: Option<Reason>)
      modifies this`filesTouched, safety`consecFailures
      ensures call.None? ==>
              !stop && safety.consecFailures == old(safety.consecFailures) + 1 && filesTouched == old(filesTouched)
      ensures call.Some? ==>
              var invoked := Invoked(opts.dryRun, call.value);
              && (stop <==> Terminal(call.value) || (invoked && outcome == Breaks))
              && r == (if invoked && outcome == Breaks then None else Some(Spoken(call.value)))
              && safety.consecFailures ==
                 (if invoked && outcome == Breaks then old(safety.consecFailures)
                  else if call.value.tool != ABORT && (invoked ==> outcome == Fine) then 0
                  else old(safety.consecFailures) + 1)
              && filesTouched == old(filesTouched) +
                 if call.value.tool in {WRITE, EDIT} && invoked && outcome == Fine then {call.value.args} else {}
    {
      if call.None? {
        safety.RecordFailure();
        return false, None;
      }
      var result := Dispatch(call.value, outcome);
      if result.Escaped? {
        return true, None;
      }
      if result.ok {
        safety.RecordSuccess();
      } else {
        safety.RecordFailure();
      }
      return result.terminal, Some(Spoken(call.value));
    }

    /**
     * The run ends, whatever the model and the tools do, as `Ending` says after the passes that continued. `world` only
     * has to hold as many turns as the loop can ask for.
     */
    method Run(world: seq<Turn>, deployOk: bool) returns (r: Option<RunResult>, ghost n: nat)
      requires safety.View() == UNUSED && !safety.aborted && filesTouched == {}
      requires |world| > 0 && |world| > safety.lim.maxIter
      modifies this, safety
      ensures n < |world| && Passed(safety.lim, opts.dryRun, world, n)
      ensures BudgetAt(safety.lim, opts.dryRun, world, n).Some? || !Continues(opts.dryRun, world[n])
      ensures r == Ending(opts, safety.lim, world, n, deployOk)
      // Every pass before the end found every budget open; a budget ending names the first budget that was not.
      ensures forall k :: 0 <= k < n ==> FoundOpen(safety.lim, opts.dryRun, world, k)
      ensures var t, lim := world[n], safety.lim;
              var iter, tokens := n >= lim.maxIter, Tokens(world, n) >= lim.maxTokens;
              var mcu, late := Calls(world, n) >= lim.maxMcu, t.elapsed > lim.timeoutSecs;
              var failures := FailedRun(opts.dryRun, world, n) >= lim.maxConsecFailures;
              && (r.Some? && r.value.reason.Budget? <==> t.signalled || iter || tokens || mcu || failures || late)
              && (r.Some? && r.value.reason.Budget? ==>
                    r.value.reason.why == (if t.signalled then Aborted else if iter then MaxIter
                                           else if tokens then MaxTokens else if mcu then MaxMcu
                                           else if failures then ConsecutiveFailures else TimedOut))
      // Success is a DONE, followed by a good deploy where one is asked for.
      ensures r.Some? ==> (r.value.ok <==> r.value.reason.Spoken? && r.value.reason.call.tool == DONE)
      ensures r.Some? && r.value.reason.Spoken? ==>
              && world[n].reply.Answers? && world[n].reply.call == Some(r.value.reason.call)
              && (r.value.ok && opts.deploy && !opts.dryRun ==> deployOk)
      ensures r.Some? && r.value.reason.DeployFailed? ==>
              && world[n].reply.Answers? && world[n].reply.call.Some? && world[n].reply.call.value.tool == DONE
              && opts.deploy && !opts.dryRun && !deployOk
      // The counters at the end: those of the turns that continued, and of the last turn if a tool call ended the run.
      ensures r.Some? && (r.value.reason.Budget? || EndsByTool(r.value)) ==>
              var m := if EndsByTool(r.value) then n + 1 else n;
              safety.View() == Counters(m, Tokens(world, m), Calls(world, m), FailedRun(opts.dryRun, world, m))
      ensures safety.consecFailures ==
              FailedRun(opts.dryRun, world, if r.Some? && EndsByTool(r.value) then n + 1 else n)
      ensures safety.iterCount == 0 || safety.iterCount <= safety.lim.maxIter
      ensures safety.mcuUsed == 0 || safety.mcuUsed <= safety.lim.maxMcu + 1
      ensures safety.consecFailures == 0 || safety.consecFailures <= safety.lim.maxConsecFailures
      ensures r.Some? ==> r.value.iterations == safety.iterCount && r.value.filesTouched == filesTouched
    {
      hide Spent, Charge, Ending, BudgetAt, Continues, Passed, Tokens, Calls, FailedRun;
      r, n := LoopAndDeploy(world, deployOk);
      PassesWereOpen(safety.lim, opts.dryRun, world, n);
      BudgetExactly(safety.lim, opts.dryRun, world, n);
      EndingExactly(opts, safety.lim, world, n, deployOk);
      SpentIsCounted(safety.lim, opts.dryRun, world, n);
      if r.Some? && EndsByTool(r.value) {
        ChargeIsCounted(safety.lim, opts.dryRun, world, n);
      }
    }

    /** The loop and the deploy step. */
    method LoopAndDeploy(world: seq<Turn>, deployOk: bool) returns (r: Option<RunResult>, ghost n: nat)
      requires safety.View() == UNUSED && !safety.aborted && filesTouched == {}
      requires |world| > 0 && |world| > safety.lim.maxIter
      modifies this, safety
      ensures n < |world| && Passed(safety.lim, opts.dryRun, world, n)
      ensures BudgetAt(safety.lim, opts.dryRun, world, n).Some? || !Continues(opts.dryRun, world[n])
      ensures r == Ending(opts, safety.lim, world, n, deployOk)
      ensures r.Some? && r.value.reason.Budget? ==> safety.View() == Spent(opts.dryRun, world, n)
      ensures r.Some? && EndsByTool(r.value) ==>
              safety.View() == Charge(opts.dryRun, Spent(opts.dryRun, world, n), world[n])
      ensures safety.consecFailures ==
              FailedRun(opts.dryRun, world, if r.Some? && EndsByTool(r.value) then n + 1 else n)
      ensures safety.iterCount == 0 || safety.iterCount <= safety.lim.maxIter
      ensures safety.mcuUsed == 0 || safety.mcuUsed <= safety.lim.maxMcu + 1
      ensures safety.consecFailures == 0 || safety.consecFailures <= safety.lim.maxConsecFailures
      ensures r.Some? ==> r.value.iterations == safety.iterCount && r.value.filesTouched == filesTouched
    {
      hide Spent, FilesWritten, Charge, Escapes;
      StartOfRun(opts.dryRun, world);
      n := 0;
      var i := 0;
      var why: Option<Why> := None;
      var stop, reason := false, None;
      while true
        invariant n == i < |world|
        invariant Passed(safety.lim, opts.dryRun, world, n)
        invariant safety.View() == Spent(opts.dryRun, world, n) && !safety.aborted
        invariant filesTouched == FilesWritten(opts.dryRun, world, n)
        decreases |world| - i
      {
        BudgetsHold(safety.lim, opts.dryRun, world, n);
        var t := world[i];
        if t.signalled {
          safety.OnSignal();
        }
        why := Exhausted(safety.lim, safety.View(), safety.aborted, t.elapsed);
        if why.Some? {
          return Some(RunResult(false, Budget(why.value), safety.iterCount, filesTouched)), n;
        }
        stop, reason := Pass(t, world, n);
        LastFailures(opts.dryRun, world, n);
        if stop {
          break;
        }
        i, n := i + 1, n + 1;
      }
      if reason.None? {
        return None, n;
      }
      var ok := reason.value.Spoken? && reason.value.call.tool == DONE;
      if ok && opts.deploy && !opts.dryRun && !deployOk {
        return Some(RunResult(false, DeployFailed, safety.iterCount, filesTouched)), n;
      }
      return Some(RunResult(ok, reason.value, safety.iterCount, filesTouched)), n;
    }
  }

  /** The failed turns at the end, with one more turn that was answered and dispatched. */
  lemma LastFailures(dryRun: bool, world: seq<Turn>, n: nat)
    requires n < |world|
    ensures var t := world[n];
            t.reply.Answers? && !Escapes(dryRun, t)
            && Spent(dryRun, world, n).failures == FailedRun(dryRun, world, n) ==>
            Charge(dryRun, Spent(dryRun, world, n), t).failures == FailedRun(dryRun, world, n + 1)
  {
    hide Spent;
  }

  /** How a run ends, written out. */
  lemma EndingExactly(opts: Options, lim: Limits, world: seq<Turn>, n: nat, deployOk: bool)
    requires n < |world|
    requires BudgetAt(lim, opts.dryRun, world, n).Some? || !Continues(opts.dryRun, world[n])
    ensures var r, why, t := Ending(opts, lim, world, n, deployOk), BudgetAt(lim, opts.dryRun, world, n), world[n];
            && (why.Some? <==> r.Some? && r.value.reason.Budget?)
            && (why.Some? ==> r.value.reason == Budget(why.value))
            && (r.Some? ==> (r.value.ok <==> r.value.reason.Spoken? && r.value.reason.call.tool == DONE))
            && (r.Some? && r.value.reason.Spoken? ==>
                  && t.reply.Answers? && t.reply.call == Some(r.value.reason.call)
                  && (r.value.ok && opts.deploy && !opts.dryRun ==> deployOk))
            && (r.Some? && r.value.reason.DeployFailed? ==>
                  && t.reply.Answers? && t.reply.call.Some? && t.reply.call.value.tool == DONE
                  && opts.deploy && !opts.dryRun && !deployOk)
            && (r.Some? && EndsByTool(r.value) ==> !Escapes(opts.dryRun, t) && t.reply.Answers?)
            && (r.None? <==> why.None? && Escapes(opts.dryRun, t))
  {
    hide BudgetAt, FilesWritten;
  }

  lemma ChargeIsCounted(lim: Limits, dryRun: bool, world: seq<Turn>, n: nat)
    requires n < |world| && Passed(lim, dryRun, world, n)
    requires world[n].reply.Answers? && !Escapes(dryRun, world[n])
    ensures Charge(dryRun, Spent(dryRun, world, n), world[n])
         == Counters(n + 1, Tokens(world, n + 1), Calls(world, n + 1), FailedRun(dryRun, world, n + 1))
  {
    SpentIsCounted(lim, dryRun, world, n);
    hide Spent;
  }

  lemma PassesWereOpen(lim: Limits, dryRun: bool, world: seq<Turn>, n: nat)
    requires n <= |world| && Passed(lim, dryRun, world, n)
    ensures forall k :: 0 <= k < n ==> FoundOpen(lim, dryRun, world, k)
  {
    hide Passed, Tokens, Calls, FailedRun;
    forall k | 0 <= k < n
      ensures FoundOpen(lim, dryRun, world, k)
    {
      BudgetsWereOpen(lim, dryRun, world, n, k);
    }
  }

  lemma StartOfRun(dryRun: bool, world: seq<Turn>)
    ensures Spent(dryRun, world, 0) == UNUSED && FilesWritten(dryRun, world, 0) == {}
  {
  }

  lemma PassSnoc(dryRun: bool, world: seq<Turn>, n: nat)
    requires n < |world|
    ensures Continues(dryRun, world[n]) ==>
            Spent(dryRun, world, n + 1) == Charge(dryRun, Spent(dryRun, world, n), world[n])
    ensures FilesWritten(dryRun, world, n + 1) ==
            FilesWritten(dryRun, world, n) + if Touches(dryRun, world[n]) then {world[n].reply.call.value.args} else {}
  {
  }
}
