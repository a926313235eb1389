/** Sending usage events: a breaker in front of the endpoint, and a bounded retry loop. */
module UsageMetering {
  import opened Wrappers

  // ----- the breaker in front of the endpoint -----

  datatype CircuitState = Closed | Open | HalfOpen

  datatype Circuit = Circuit(state: CircuitState, failures: nat, lastFailure: Option<real>)

  datatype CircuitEvent = Asked(at: real) | Succeeded | FailedAt(at: real)

  datatype CircuitConfig = CircuitConfig(failureThreshold: int, recoveryTimeout: real)

  const FRESH := Circuit(Closed, 0, None)

  /** Whether a request may go out: not while open, unless the recovery timeout is over. */
  predicate Admits(cfg: CircuitConfig, c: Circuit, at: real) {
    c.state != Open || c.lastFailure.None? || at - c.lastFailure.value >= cfg.recoveryTimeout
  }

  function StepCircuit(cfg: CircuitConfig, c: Circuit, e: CircuitEvent): Circuit {
    match e
    case Asked(at) => if c.state == Open && c.lastFailure.Some? && Admits(cfg, c, at) then c.(state := HalfOpen) else c
    case Succeeded => if c.state == Open then c else c.(state := Closed, failures := 0)
    case FailedAt(at) =>
      var d := c.(failures := c.failures + 1, lastFailure := Some(at));
      if c.state == HalfOpen || (c.state == Closed && d.failures >= cfg.failureThreshold) then d.(state := Open) else d
  }

  function RunCircuit(cfg: CircuitConfig, c: Circuit, es: seq<CircuitEvent>): Circuit {
    if es == [] then c else StepCircuit(cfg, RunCircuit(cfg, c, es[..|es| - 1]), es[|es| - 1])
  }

  lemma {:induction false} RunConcat(cfg: CircuitConfig, c: Circuit, a: seq<CircuitEvent>, b: seq<CircuitEvent>)
    ensures RunCircuit(cfg, c, a + b) == RunCircuit(cfg, RunCircuit(cfg, c, a), b)
  {
    if b == [] {
      assert a + b == a;
    } else {
      RunConcat(cfg, c, a, b[..|b| - 1]);
      assert (a + b)[..|a + b| - 1] == a + b[..|b| - 1];
    }
  }

  /** The failures since the last success, requests aside. */
  function FailureRun(es: seq<CircuitEvent>): nat {
    if es == [] then 0
    else
      match es[|es| - 1]
      case Asked(_) => FailureRun(es[..|es| - 1])
      case Succeeded => 0
      case FailedAt(_) => FailureRun(es[..|es| - 1]) + 1
  }

  function LastFailure(es: seq<CircuitEvent>): Option<real> {
    if es == [] then None
    else if es[|es| - 1].FailedAt? then Some(es[|es| - 1].at)
    else LastFailure(es[..|es| - 1])
  }

  /**
   * In every run: closed means fewer failures than the threshold, and then the count is the present run of failures.
   */
  lemma {:induction false} ClosedMeansBelowThreshold(cfg: CircuitConfig, es: seq<CircuitEvent>)
    requires cfg.failureThreshold >= 1
    ensures var c := RunCircuit(cfg, FRESH, es);
            && (c.state == Closed <==> c.failures < cfg.failureThreshold)
            && (c.state == Closed ==> c.failures == FailureRun(es))
            && c.lastFailure == LastFailure(es)
            && (c.state != Closed ==> c.lastFailure.Some?)
  {
    if es != [] {
      ClosedMeansBelowThreshold(cfg, es[..|es| - 1]);
    }
  }

  /** A closed breaker opens with the failure that completes a run of `failureThreshold`, and with nothing else. */
  lemma OpensAtThreshold(cfg: CircuitConfig, es: seq<CircuitEvent>, e: CircuitEvent)
    requires cfg.failureThreshold >= 1
    requires RunCircuit(cfg, FRESH, es).state == Closed
    ensures RunCircuit(cfg, FRESH, es + [e]).state != Closed <==>
            e.FailedAt? && FailureRun(es + [e]) == cfg.failureThreshold
    ensures RunCircuit(cfg, FRESH, es + [e]).state != HalfOpen
  {
    assert (es + [e])[..|es|] == es;
    ClosedMeansBelowThreshold(cfg, es);
    ClosedMeansBelowThreshold(cfg, es + [e]);
  }

  /** Half-open is entered by a request to an open breaker, exactly once the recovery timeout is over. */
  lemma HalfOpenWaits(cfg: CircuitConfig, es: seq<CircuitEvent>, e: CircuitEvent)
    requires cfg.failureThreshold >= 1
    ensures RunCircuit(cfg, FRESH, es).state != HalfOpen ==>
            (RunCircuit(cfg, FRESH, es + [e]).state == HalfOpen <==>
             && RunCircuit(cfg, FRESH, es).state == Open && e.Asked?
             && LastFailure(es).Some? && e.at - LastFailure(es).value >= cfg.recoveryTimeout)
    ensures RunCircuit(cfg, FRESH, es).state == Open ==> LastFailure(es).Some?
  {
    assert (es + [e])[..|es|] == es;
    ClosedMeansBelowThreshold(cfg, es);
  }

  class CircuitBreaker {
    const cfg: CircuitConfig
    var state: CircuitState
    var failureCount: nat
    var lastFailureTime: Option<real>

    ghost var trace: seq<CircuitEvent>

    ghost predicate Valid()
      reads this
    {
      Circuit(state, failureCount, lastFailureTime) == RunCircuit(cfg, FRESH, trace)
    }

    ghost function View(): Circuit
      reads this
    {
      Circuit(state, failureCount, lastFailureTime)
    }

    constructor (cfg: CircuitConfig)
      ensures Valid() && this.cfg == cfg && View() == FRESH && trace == []
    {
      this.cfg := cfg;
      state, failureCount, lastFailureTime, trace := Closed, 0, None, [];
    }

    method AllowRequest(now: real) returns (allowed: bool)
      requires Valid()
      modifies this`state, this`trace
      ensures Valid() && trace == old(trace) + [Asked(now)]
      ensures allowed <==> Admits(cfg, old(View()), now)
      ensures allowed <==> || old(state) != Open || lastFailureTime.None?
                           || now - lastFailureTime.value >= cfg.recoveryTimeout
      ensures allowed && old(state) == Open && old(lastFailureTime).Some? ==> state == HalfOpen
      ensures state != Open <==> old(state) != Open || (allowed && lastFailureTime.Some?)
      ensures View() == StepCircuit(cfg, old(View()), Asked(now))
    {
      assert (trace + [Asked(now)])[..|trace|] == trace;
      trace := trace + [Asked(now)];
      if state == Closed {
        return true;
      }
      if state == Open {
        if lastFailureTime.None? {
          return true;
        }
        var elapsed := now - lastFailureTime.value;
        if elapsed >= cfg.recoveryTimeout {
          state := HalfOpen;
          return true;
        }
        return false;
      }
      return true;
    }

    method RecordSuccess()
      requires Valid()
      modifies this`state, this`failureCount, this`trace
      ensures Valid() && trace == old(trace) + [Succeeded]
      ensures View() == StepCircuit(cfg, old(View()), Succeeded)
      ensures if old(state) == Open then state == Open && failureCount == old(failureCount)
              else state == Closed && failureCount == 0
    {
      assert (trace + [Succeeded])[..|trace|] == trace;
      trace := trace + [Succeeded];
      if state == HalfOpen {
        state, failureCount := Closed, 0;
      } else if state == Closed {
        failureCount := 0;
      }
    }

    method RecordFailure(now: real)
      requires Valid()
      modifies this
      ensures Valid() && trace == old(trace) + [FailedAt(now)]
      ensures View() == StepCircuit(cfg, old(View()), FailedAt(now))
      ensures failureCount == old(failureCount) + 1 && lastFailureTime == Some(now)
      ensures state == if old(state) == Closed && failureCount < cfg.failureThreshold then Closed else Open
    {
      assert (trace + [FailedAt(now)])[..|trace|] == trace;
      trace := trace + [FailedAt(now)];
      failureCount, lastFailureTime := failureCount + 1, Some(now);
      if state == HalfOpen {
        state := Open;
      } else if state == Closed {
        if failureCount >= cfg.failureThreshold {
          state := Open;
        }
      }
    }
  }

  // ----- sending one batch -----

  /** How one post ends, and when. */
  datatype Reply = Reply(kind: ReplyKind, at: real)

  datatype ReplyKind = Status(code: int) | Timeout | RequestError | UnexpectedError

  predicate Acknowledges(r: Reply) { r.kind == Status(200) }

  /** Server errors, timeouts and connection errors are worth another try; client errors and the unexpected are not. */
  predicate Retryable(r: Reply) {
    match r.kind
    case Status(code) => code != 200 && !(400 <= code < 500)
    case Timeout => true
    case RequestError => true
    case UnexpectedError => false
  }

  /** The posts that are made: up to the first reply that settles the matter, within the allowance. */
  function Posts(replies: seq<Reply>, allowance: nat): (n: nat)
    requires allowance <= |replies|
    ensures n <= allowance
    ensures forall k :: 0 <= k < n - 1 ==> Retryable(replies[k])
    ensures 0 < n < allowance ==> !Retryable(replies[n - 1])
    ensures n == 0 <==> allowance == 0
  {
    if allowance == 0 then 0
    else if !Retryable(replies[0]) then 1
    else if allowance == 1 then 1
    else 1 + Posts(replies[1..], allowance - 1)
  }

  function Pow2(n: nat): nat { if n == 0 then 1 else 2 * Pow2(n - 1) }

  /** The seconds slept in between `posts` posts: one, two, four and so on. */
  function Slept(posts: nat): int { if posts == 0 then 0 else Pow2(posts - 1) - 1 }

  function ReplyEvents(replies: seq<Reply>): (es: seq<CircuitEvent>)
    ensures |es| == |replies|
  {
    seq(|replies|, i requires 0 <= i < |replies| =>
      if Acknowledges(replies[i]) then Succeeded else FailedAt(replies[i].at))
  }

  lemma EventsSnoc(replies: seq<Reply>, n: nat)
    requires n < |replies|
    ensures ReplyEvents(replies[..n + 1]) ==
            ReplyEvents(replies[..n]) + [if Acknowledges(replies[n]) then Succeeded else FailedAt(replies[n].at)]
  {
  }

  lemma NoReplies(replies: seq<Reply>)
    ensures ReplyEvents(replies[..0]) == []
  {
  }

  /** The post that settles the batch is an acknowledgement. */
  predicate SettledWell(replies: seq<Reply>, allowance: nat)
    requires allowance <= |replies|
  {
    var n := Posts(replies, allowance);
    n > 0 && Acknowledges(replies[n - 1])
  }

  /** Which replies end a batch and which are worth another post, written out. */
  lemma PostsWrittenOut(replies: seq<Reply>, allowance: nat)
    requires allowance <= |replies|
    ensures var n := Posts(replies, allowance);
            && (SettledWell(replies, allowance) <==> n > 0 && replies[n - 1].kind == Status(200))
            && (forall k :: 0 <= k < n - 1 ==>
                  var kind := replies[k].kind;
                  || kind.Timeout? || kind.RequestError?
                  || (kind.Status? && kind.code != 200 && !(400 <= kind.code < 500)))
            && (0 < n < allowance ==>
                  var kind := replies[n - 1].kind;
                  kind.UnexpectedError? || (kind.Status? && (kind.code == 200 || 400 <= kind.code < 500)))
  {
  }

  // ----- the breaker after a batch -----

  /** The breaker after one batch. */
  function AfterSend(cfg: CircuitConfig, c: Circuit, replies: seq<Reply>, now: real, allowance: nat): Circuit
    requires allowance <= |replies|
  {
    var asked := StepCircuit(cfg, c, Asked(now));
    if Admits(cfg, c, now) then RunCircuit(cfg, asked, ReplyEvents(replies[..Posts(replies, allowance)])) else asked
  }

  lemma AfterSendIs(cfg: CircuitConfig, trace: seq<CircuitEvent>, now: real, es: seq<CircuitEvent>)
    ensures RunCircuit(cfg, FRESH, trace + [Asked(now)] + es)
         == RunCircuit(cfg, StepCircuit(cfg, RunCircuit(cfg, FRESH, trace), Asked(now)), es)
  {
    RunConcat(cfg, FRESH, trace + [Asked(now)], es);
    assert (trace + [Asked(now)])[..|trace|] == trace;
  }

  /** Whether an acknowledgement closes the breaker when `k` failed posts of the same batch come before it. */
  predicate ClosesAfter(cfg: CircuitConfig, c: Circuit, k: nat) {
    match c.state
    case Closed => k == 0 || c.failures + k < cfg.failureThreshold
    case HalfOpen => k == 0
    case Open => false
  }

  lemma {:induction false} AllFailed(cfg: CircuitConfig, c: Circuit, es: seq<CircuitEvent>)
    requires forall i :: 0 <= i < |es| ==> es[i].FailedAt?
    ensures var d := RunCircuit(cfg, c, es);
            && d.failures == c.failures + |es|
            && d.state == if ClosesAfter(cfg, c, |es|) || es == [] then c.state else Open
  {
    if es != [] {
      AllFailed(cfg, c, es[..|es| - 1]);
    }
  }

  /** Exactly when a batch that is acknowledged in the end, perhaps on a retry, leaves the breaker closed. */
  lemma AcknowledgedClosesExactly(cfg: CircuitConfig, c: Circuit, replies: seq<Reply>, now: real, allowance: nat)
    requires allowance <= |replies| && Admits(cfg, c, now) && SettledWell(replies, allowance)
    ensures AfterSend(cfg, c, replies, now, allowance).state == Closed <==>
            ClosesAfter(cfg, StepCircuit(cfg, c, Asked(now)), Posts(replies, allowance) - 1)
  {
    var n := Posts(replies, allowance);
    var es, asked := ReplyEvents(replies[..n - 1]), StepCircuit(cfg, c, Asked(now));
    assert replies[..n - 1 + 1] == replies[..n];
    EventsSnoc(replies, n - 1);
    AllFailed(cfg, asked, es);
    assert (es + [Succeeded])[..|es|] == es;
  }

  /** An acknowledgement that leaves the breaker closed leaves no failure on record. */
  lemma AcknowledgedClears(cfg: CircuitConfig, c: Circuit, replies: seq<Reply>, now: real, allowance: nat)
    requires allowance <= |replies| && Admits(cfg, c, now) && SettledWell(replies, allowance)
    ensures var d := AfterSend(cfg, c, replies, now, allowance); d.state == Closed ==> d.failures == 0
  {
    var n := Posts(replies, allowance);
    var es := ReplyEvents(replies[..n - 1]);
    assert replies[..n - 1 + 1] == replies[..n];
    EventsSnoc(replies, n - 1);
    assert (es + [Succeeded])[..|es|] == es;
  }

  /** One failure short of the threshold, a failed post opens the breaker, and the acknowledged retry leaves it open. */
  lemma RetryDoesNotClose()
    ensures var cfg, c := CircuitConfig(5, 30.0), Circuit(Closed, 4, Some(0.0));
            var replies := [Reply(Status(500), 1.0), Reply(Status(200), 2.0)];
            && Admits(cfg, c, 0.0) && SettledWell(replies, 2)
            && AfterSend(cfg, c, replies, 0.0, 2) == Circuit(Open, 5, Some(1.0))
  {
    var replies := [Reply(Status(500), 1.0), Reply(Status(200), 2.0)];
    assert Posts(replies, 2) == 2;
    var es := ReplyEvents(replies[..2]);
    assert es == [FailedAt(1.0), Succeeded];
    assert es[..1] == [FailedAt(1.0)] && [FailedAt(1.0)][..0] == [];
  }

  class BatchSender {
    const breaker: CircuitBreaker
    const maxRetries: int

    constructor (breaker: CircuitBreaker, maxRetries: int)
      ensures this.breaker == breaker && this.maxRetries == maxRetries
    {
      this.breaker, this.maxRetries := breaker, maxRetries;
    }

    function Allowance(): nat { if maxRetries < 0 then 0 else maxRetries }

    /** One batch against the replies the network would give, with the seconds slept between posts. */
    method SendBatch(replies: seq<Reply>, now: real) returns (ok: bool, posts: nat, slept: nat)
      requires breaker.Valid()
      requires |replies| >= Allowance()
      modifies breaker
      ensures breaker.Valid()
      ensures ok <==> old(Admits(breaker.cfg, breaker.View(), now)) && SettledWell(replies, Allowance())
      ensures posts == if old(Admits(breaker.cfg, breaker.View(), now)) then Posts(replies, Allowance()) else 0
      ensures posts <= Allowance() && slept == Slept(posts)
      // Written out: only a 200 is an acknowledgement; client errors and the unexpected end the batch.
      ensures ok <==> posts > 0 && replies[posts - 1].kind == Status(200)
      ensures forall k :: 0 <= k < posts - 1 ==>
                var kind := replies[k].kind;
                kind.Timeout? || kind.RequestError? || (kind.Status? && kind.code != 200 && !(400 <= kind.code < 500))
      ensures 0 < posts < Allowance() ==>
              var kind := replies[posts - 1].kind;
              kind.UnexpectedError? || (kind.Status? && (kind.code == 200 || 400 <= kind.code < 500))
      ensures breaker.trace == old(breaker.trace) + [Asked(now)] + ReplyEvents(replies[..posts])
      ensures breaker.View() == AfterSend(breaker.cfg, old(breaker.View()), replies, now, Allowance())
      // An acknowledgement leaves the breaker closed exactly when the failed posts before it did not open it.
      ensures ok ==> (breaker.state == Closed <==>
                      ClosesAfter(breaker.cfg, StepCircuit(breaker.cfg, old(breaker.View()), Asked(now)), posts - 1))
    {
      hide RunCircuit, StepCircuit, Posts, Admits, ReplyEvents, SettledWell, ClosesAfter;
      NoReplies(replies);
      ghost var trace, c := breaker.trace, breaker.View();
      ok, posts, slept := false, 0, 0;
      var allowed := breaker.AllowRequest(now);
      if allowed {
        ok, posts, slept := PostUntilSettled(replies);
      }
      PostsWrittenOut(replies, Allowance());
      AfterSendIs(breaker.cfg, trace, now, ReplyEvents(replies[..posts]));
      if ok {
        AcknowledgedClosesExactly(breaker.cfg, c, replies, now, Allowance());
      }
    }

    /** The retry loop. */
    method PostUntilSettled(replies: seq<Reply>) returns (ok: bool, posts: nat, slept: nat)
      requires breaker.Valid()
      requires |replies| >= Allowance()
      modifies breaker
      ensures breaker.Valid()
      ensures posts == Posts(replies, Allowance()) && slept == Slept(posts)
      ensures ok <==> SettledWell(replies, Allowance())
      ensures breaker.trace == old(breaker.trace) + ReplyEvents(replies[..posts])
    {
      hide CircuitBreaker.Valid, RunCircuit, StepCircuit, Posts, ReplyEvents;
      NoReplies(replies);
      ok, posts, slept := false, 0, 0;
      var attempt := 0;
      while attempt < maxRetries
        invariant 0 <= attempt <= Allowance()
        invariant posts == attempt && slept == if attempt < maxRetries then Pow2(attempt) - 1 else Slept(posts)
        invariant !ok && breaker.Valid()
        invariant forall k :: 0 <= k < attempt ==> Retryable(replies[k])
        invariant breaker.trace == old(breaker.trace) + ReplyEvents(replies[..attempt])
      {
        var reply := replies[attempt];
        EventsSnoc(replies, attempt);
        posts := posts + 1;
        match reply.kind {
          case Status(code) =>
            if code == 200 {
              breaker.RecordSuccess();
              PostsIs(replies, Allowance(), posts);
              ok := true;
              return;
            }
            breaker.RecordFailure(reply.at);
            if 400 <= code < 500 {
              PostsIs(replies, Allowance(), posts);
              return;
            }
          case Timeout =>
            breaker.RecordFailure(reply.at);
          case RequestError =>
            breaker.RecordFailure(reply.at);
          case UnexpectedError =>
            breaker.RecordFailure(reply.at);
            PostsIs(replies, Allowance(), posts);
            return;
        }
        if attempt < maxRetries - 1 {
          slept := slept + Pow2(attempt);
        }
        attempt := attempt + 1;
      }
      if posts > 0 {
        PostsIs(replies, Allowance(), posts);
      }
      NoPosts(replies, Allowance());
    }
  }

  lemma NoPosts(replies: seq<Reply>, allowance: nat)
    requires allowance <= |replies|
    ensures allowance == 0 ==> Posts(replies, allowance) == 0
  {
  }

  lemma {:induction false} PostsIs(replies: seq<Reply>, allowance: nat, n: nat)
    requires 0 < n <= allowance <= |replies|
    requires forall k :: 0 <= k < n - 1 ==> Retryable(replies[k])
    requires n == allowance || !Retryable(replies[n - 1])
    ensures Posts(replies, allowance) == n
  {
    if n > 1 {
      PostsIs(replies[1..], allowance - 1, n - 1);
    }
  }

  lemma {:induction false} Pow2Grows(m: nat, n: nat)
    requires m <= n
    ensures Pow2(m) <= Pow2(n)
  {
    if m < n {
      Pow2Grows(m, n - 1);
    }
  }

  /** No batch sleeps longer than the full schedule of its allowance. */
  lemma SleepIsBounded(replies: seq<Reply>, allowance: nat)
    requires 1 <= allowance <= |replies|
    ensures Slept(Posts(replies, allowance)) <= Pow2(allowance - 1) - 1
  {
    Pow2Grows(Posts(replies, allowance) - 1, allowance - 1);
  }
}
