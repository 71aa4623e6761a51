/** Exponential backoff, and its composition with the circuit breaker (retry.go). */
module Retry {
  import opened Strings
  import Breaker

  /** Errors, as far as retrying looks at them. The breaker's own error has the retryable Timeout type. */
  datatype Err = Failure(retryable: bool) | BreakerOpen | Cancelled

  /** ShouldRetry: IsRetryable accepts Timeout errors, so the breaker's rejection is retried. */
  predicate ShouldRetry(e: Err) {
    e.BreakerOpen? || (e.Failure? && e.retryable)
  }

  datatype Config = Config(maxRetries: int, baseDelay: int, maxDelay: int, jitterFactor: real)

  const DEFAULT := Config(5, 100_000_000, 30_000_000_000, 0.1)

  /** baseDelay * 2^attempt */
  function Doubled(base: int, attempt: nat): (d: int) {
    if attempt == 0 then base else 2 * Doubled(base, attempt - 1)
  }

  /** The delay before jitter. */
  function Nominal(cfg: Config, attempt: nat): (d: int) {
    var d := Doubled(cfg.baseDelay, attempt);
    if d > cfg.maxDelay then cfg.maxDelay else d
  }

  /** time.Duration(x) on a float drops the fraction. */
  function Truncate(x: real): (r: int) {
    if x >= 0.0 then x.Floor else -((-x).Floor)
  }

  /** The integer next to a number, towards zero. */
  lemma TruncateExactly(x: real)
    ensures if x >= 0.0 then Truncate(x) as real <= x < Truncate(x) as real + 1.0
            else Truncate(x) as real - 1.0 < x <= Truncate(x) as real
  {
  }

  lemma MulBound(x: real, w: real)
    requires x >= 0.0 && -1.0 <= w <= 1.0
    ensures -x <= x * w <= x
  {
    if w >= 0.0 { assert x * (1.0 - w) >= 0.0; } else { assert x * (1.0 + w) >= 0.0; }
  }

  /** Truncating what lies within a spread gives what lies within the truncated spread. */
  lemma TruncateWithin(y: real, x: real)
    requires -x <= y <= x
    ensures -Truncate(x) <= Truncate(y) <= Truncate(x)
  {
  }

  /** A spread `x` in the direction `w`: never more than the spread. */
  function Scaled(x: real, w: real): (j: int)
    ensures x >= 0.0 && -1.0 <= w <= 1.0 ==> -Truncate(x) <= j <= Truncate(x)
  {
    assert x >= 0.0 && -1.0 <= w <= 1.0 ==> -Truncate(x) <= Truncate(x * w) <= Truncate(x) by {
      if x >= 0.0 && -1.0 <= w <= 1.0 { MulBound(x, w); TruncateWithin(x * w, x); }
    }
    Truncate(x * w)
  }

  /** The most that jitter can add to a delay or take from it. */
  function Spread(d: int, factor: real): (j: int)
    ensures d >= 0 && factor <= 1.0 ==> 0 <= j <= d
  {
    assert d >= 0 && 0.0 < factor <= 1.0 ==> 0 <= Truncate(d as real * factor) <= d by {
      if d >= 0 && 0.0 < factor <= 1.0 { MulBound(d as real, factor); PartOf(d, d as real * factor, factor); }
    }
    if factor > 0.0 then Truncate(d as real * factor) else 0
  }

  lemma PartOf(d: int, x: real, factor: real)
    requires d >= 0 && 0.0 <= factor && x == d as real * factor && x <= d as real
    ensures 0 <= Truncate(x) <= d
  {
    assert x >= 0.0;
  }

  /** The jitter calculateDelay adds for a random number `u`. */
  function Jitter(d: int, factor: real, u: real): (j: int) {
    if factor > 0.0 then Scaled(d as real * factor, u * 2.0 - 1.0) else 0
  }

  /** calculateDelay, given the jitter that was drawn. */
  function CalculateDelay(cfg: Config, attempt: nat, jitter: int): (delay: int) {
    var d := Nominal(cfg, attempt) + jitter;
    if d < 0 then cfg.baseDelay else d
  }

  /** One attempt, as the environment makes it happen. `overshoot` is how much later than asked the timer fires. */
  datatype Attempt = Attempt(result: Option<Err>, duration: nat, jitter: int, overshoot: nat, cancelled: bool)

  /** A script of the environment: what the k-th attempt meets. */
  type Script = nat -> Attempt

  /** The jitter is one that calculateDelay can draw: rand.Float64 returns u with 0 <= u < 1. */
  ghost predicate Drawn(cfg: Config, attempt: nat, jitter: int) {
    exists u: real :: 0.0 <= u < 1.0 && jitter == Jitter(Nominal(cfg, attempt), cfg.jitterFactor, u)
  }

  ghost predicate Sensible(cfg: Config, script: Script) {
    forall k: nat :: Drawn(cfg, k, script(k).jitter)
  }

  /** One turn of the loop as it happened. */
  datatype Event = Event(called: bool, start: int, err: Option<Err>, breaker: Option<Breaker.State>)

  /** The wrapped function ran and left the breaker open. */
  predicate Opens(e: Event) {
    e.called && e.breaker.Some? && e.breaker.value.phase.Open?
  }

  datatype Outcome = Outcome(events: seq<Event>, err: Option<Err>, breaker: Option<Breaker.State>)

  /** One call through WithCircuitBreaker (or a plain call when there is no breaker). */
  function Guarded(cb: Option<Breaker.State>, a: Attempt, now: int): (e: Event) {
    if cb.Some? && Breaker.Rejects(cb.value, now) then Event(false, now, Some(BreakerOpen), cb)
    else Event(true, now, a.result,
               if cb.None? then None
               else Some(Breaker.AfterCall(cb.value, Breaker.Call(now, a.result.None?, now + a.duration))))
  }

  function EndOf(e: Event, a: Attempt): (t: int) {
    if e.called then e.start + a.duration else e.start
  }

  function Prepend(e: Event, o: Outcome): (r: Outcome) {
    o.(events := [e] + o.events)
  }

  /** The loop of RetryWithExponentialBackoff from a given attempt on. */
  function Loop(cfg: Config, cb: Option<Breaker.State>, script: Script, attempt: nat, now: int): (o: Outcome)
    decreases cfg.maxRetries - attempt
  {
    if attempt > cfg.maxRetries then Outcome([], None, cb)
    else
      var a := script(attempt);
      var e := Guarded(cb, a, now);
      if e.err.None? then Outcome([e], None, e.breaker)
      else if attempt == cfg.maxRetries || !ShouldRetry(e.err.value) then Outcome([e], e.err, e.breaker)
      else if a.cancelled then Outcome([e], Some(Cancelled), e.breaker)
      else Prepend(e, Loop(cfg, e.breaker, script, attempt + 1,
                           EndOf(e, a) + CalculateDelay(cfg, attempt, a.jitter) + a.overshoot))
  }

  // ---------------------------------------------------------------------------------------------------------
  // Delays

  lemma {:induction false} NominalNonNegative(cfg: Config, attempt: nat)
    requires cfg.baseDelay >= 0 && cfg.maxDelay >= 0
    ensures Nominal(cfg, attempt) >= 0 && Doubled(cfg.baseDelay, attempt) >= 0
  {
    if attempt > 0 { NominalNonNegative(cfg, attempt - 1); }
  }

  lemma JitterBounds(d: int, factor: real, u: real)
    requires d >= 0 && 0.0 <= u < 1.0
    ensures -Spread(d, factor) <= Jitter(d, factor, u) <= Spread(d, factor)
  {
    if factor > 0.0 { assert d as real * factor >= 0.0; }
  }

  /** Delays that are not negative, and a jitter factor that cannot make one negative. */
  predicate Proper(cfg: Config) {
    cfg.baseDelay >= 0 && cfg.maxDelay >= 0 && cfg.jitterFactor <= 1.0
  }

  function Longest(cfg: Config, attempt: nat): (d: int) {
    Nominal(cfg, attempt) + Spread(Nominal(cfg, attempt), cfg.jitterFactor)
  }

  /** Jitter moves a delay by at most its factor, either way. */
  lemma DelayBounds(cfg: Config, attempt: nat, jitter: int)
    requires Proper(cfg) && Drawn(cfg, attempt, jitter)
    ensures 0 <= CalculateDelay(cfg, attempt, jitter) <= Longest(cfg, attempt)
    ensures Nominal(cfg, attempt) - Spread(Nominal(cfg, attempt), cfg.jitterFactor)
            <= CalculateDelay(cfg, attempt, jitter)
  {
    NominalNonNegative(cfg, attempt);
    var d := Nominal(cfg, attempt);
    var u :| 0.0 <= u < 1.0 && jitter == Jitter(d, cfg.jitterFactor, u);
    JitterBounds(d, cfg.jitterFactor, u);
  }

  /** What is left to wait after attempt `i`, at most: the later delays at their longest. */
  function WaitBound(cfg: Config, i: nat): (t: int)
    decreases cfg.maxRetries - i
  {
    if i >= cfg.maxRetries then 0 else Longest(cfg, i) + WaitBound(cfg, i + 1)
  }

  function Overshoot(cfg: Config, script: Script, i: nat): (t: int)
    decreases cfg.maxRetries - i
  {
    if i >= cfg.maxRetries then 0 else script(i).overshoot + Overshoot(cfg, script, i + 1)
  }

  lemma DefaultSpread(d: int, tenth: int)
    requires d == 10 * tenth && tenth >= 0
    ensures Spread(d, DEFAULT.jitterFactor) == tenth
  {
    assert d as real * 0.1 == tenth as real;
  }

  /** With the default settings all delays together are at most 3.41 seconds (in nanoseconds). */
  lemma DefaultWaitBound()
    ensures WaitBound(DEFAULT, 0) == 3_410_000_000
    ensures forall i: nat :: WaitBound(DEFAULT, i) <= WaitBound(DEFAULT, 0)
  {
    var b := DEFAULT.baseDelay;
    assert Doubled(b, 1) == 2 * b && Doubled(b, 2) == 4 * b && Doubled(b, 3) == 8 * b && Doubled(b, 4) == 16 * b;
    DefaultSpread(b, 10_000_000);
    DefaultSpread(2 * b, 20_000_000);
    DefaultSpread(4 * b, 40_000_000);
    DefaultSpread(8 * b, 80_000_000);
    DefaultSpread(16 * b, 160_000_000);
    assert WaitBound(DEFAULT, 5) == 0;
    assert WaitBound(DEFAULT, 4) == 1_760_000_000;
    assert WaitBound(DEFAULT, 3) == 2_640_000_000;
    assert WaitBound(DEFAULT, 2) == 3_080_000_000;
    assert WaitBound(DEFAULT, 1) == 3_300_000_000;
    forall i: nat ensures WaitBound(DEFAULT, i) <= WaitBound(DEFAULT, 0) {
      if i > 5 { assert WaitBound(DEFAULT, i) == 0; }
    }
  }

  // ---------------------------------------------------------------------------------------------------------
  // The breaker inside the loop

  /** An open breaker whose recovery time outlasts every remaining delay turns away every remaining attempt. */
  lemma {:induction false} StaysOpen(cfg: Config, cb: Breaker.State, script: Script, attempt: nat, now: int)
    requires Proper(cfg) && Sensible(cfg, script)
    requires cb.phase.Open?
    requires now - cb.lastFailureTime + Overshoot(cfg, script, attempt) + WaitBound(cfg, attempt) < cb.recoveryTimeout
    ensures forall e :: e in Loop(cfg, Some(cb), script, attempt, now).events ==> !e.called
    decreases cfg.maxRetries - attempt
  {
    if attempt <= cfg.maxRetries {
      WaitBoundNonNegative(cfg, script, attempt);
      if attempt < cfg.maxRetries && !script(attempt).cancelled {
        DelayBounds(cfg, attempt, script(attempt).jitter);
        StaysOpen(cfg, cb, script, attempt + 1,
                  now + CalculateDelay(cfg, attempt, script(attempt).jitter) + script(attempt).overshoot);
      }
    }
  }

  lemma {:induction false} WaitBoundNonNegative(cfg: Config, script: Script, i: nat)
    requires Proper(cfg)
    ensures WaitBound(cfg, i) >= WaitBound(cfg, i + 1) >= 0
    ensures Overshoot(cfg, script, i) >= Overshoot(cfg, script, i + 1) >= 0
    decreases cfg.maxRetries - i
  {
    if i < cfg.maxRetries {
      WaitBoundNonNegative(cfg, script, i + 1);
      NominalNonNegative(cfg, i);
    }
  }

  /** Where the second turn starts, if there is one. */
  function SecondStart(cfg: Config, e: Event, a: Attempt, attempt: nat): (t: int) {
    EndOf(e, a) + CalculateDelay(cfg, attempt, a.jitter) + a.overshoot
  }

  lemma TwoTurns(cfg: Config, cb: Breaker.State, script: Script, attempt: nat, now: int)
    requires |Loop(cfg, Some(cb), script, attempt, now).events| >= 2
    ensures attempt < cfg.maxRetries
    ensures var e := Guarded(Some(cb), script(attempt), now);
            && e.breaker.Some? && e.breaker.value.recoveryTimeout == cb.recoveryTimeout
            && Loop(cfg, Some(cb), script, attempt, now).events
               == [e] + Loop(cfg, e.breaker, script, attempt + 1, SecondStart(cfg, e, script(attempt), attempt)).events
  {
  }

  /** A first call that opens the breaker is the only one. */
  lemma OpenedFirst(cfg: Config, cb: Breaker.State, script: Script, attempt: nat, now: int, rest: Outcome, k: int)
    requires Proper(cfg) && Sensible(cfg, script) && attempt < cfg.maxRetries
    requires WaitBound(cfg, attempt) + Overshoot(cfg, script, attempt) < cb.recoveryTimeout
    requires var e := Guarded(Some(cb), script(attempt), now);
             && Opens(e)
             && rest == Loop(cfg, e.breaker, script, attempt + 1, SecondStart(cfg, e, script(attempt), attempt))
    requires 0 <= k < |rest.events|
    ensures !rest.events[k].called
  {
    var a, e := script(attempt), Guarded(Some(cb), script(attempt), now);
    DelayBounds(cfg, attempt, a.jitter);
    StaysOpen(cfg, e.breaker.value, script, attempt + 1, SecondStart(cfg, e, a, attempt));
    assert rest.events[k] in rest.events;
  }

  /**
   * Once a failing call opens the breaker inside an operation, the wrapped function is not called again in that
   * operation, provided the remaining delays fit into the recovery timeout.
   */
  lemma {:induction false} OpenedNeverCalledAgain(cfg: Config, cb: Breaker.State, script: Script, attempt: nat,
                                                  now: int, events: seq<Event>, i: int, j: int)
    requires Proper(cfg) && Sensible(cfg, script)
    requires WaitBound(cfg, attempt) + Overshoot(cfg, script, attempt) < cb.recoveryTimeout
    requires events == Loop(cfg, Some(cb), script, attempt, now).events
    requires 0 <= i < j < |events| && Opens(events[i])
    ensures !events[j].called
    decreases i
  {
    TwoTurns(cfg, cb, script, attempt, now);
    var e := Guarded(Some(cb), script(attempt), now);
    var next := SecondStart(cfg, e, script(attempt), attempt);
    var rest := Loop(cfg, e.breaker, script, attempt + 1, next);
    if i == 0 {
      OpenedFirst(cfg, cb, script, attempt, now, rest, j - 1);
    } else {
      WaitBoundNonNegative(cfg, script, attempt);
      OpenedNeverCalledAgain(cfg, e.breaker.value, script, attempt + 1, next, rest.events, i - 1, j - 1);
    }
  }

  /** RetryableAWSOperation as the driver configures it: 3.41 s of delays against a 30 s recovery timeout. */
  lemma DefaultOpenedNeverCalledAgain(cb: Breaker.State, script: Script, now: int, events: seq<Event>, i: int, j: int)
    requires cb.recoveryTimeout == Breaker.RECOVERY_TIMEOUT && Sensible(DEFAULT, script)
    requires Overshoot(DEFAULT, script, 0) < 26_590_000_000
    requires events == Loop(DEFAULT, Some(cb), script, 0, now).events
    requires 0 <= i < j < |events| && Opens(events[i])
    ensures !events[j].called
  {
    DefaultWaitBound();
    OpenedNeverCalledAgain(DEFAULT, cb, script, 0, now, events, i, j);
  }

  /** A closed breaker with room for all attempts of an operation is not opened by that operation. */
  lemma {:induction false} RoomStaysClosed(cfg: Config, cb: Breaker.State, script: Script, attempt: nat, now: int)
    requires cb.phase.Closed? && cb.failureCount >= 0
    requires attempt <= cfg.maxRetries + 1 && cb.failureCount + cfg.maxRetries + 1 - attempt < cb.maxFailures
    ensures Loop(cfg, Some(cb), script, attempt, now).breaker.Some?
    ensures Loop(cfg, Some(cb), script, attempt, now).breaker.value.phase.Closed?
    decreases cfg.maxRetries - attempt
  {
    if attempt <= cfg.maxRetries {
      var a := script(attempt);
      var e := Guarded(Some(cb), a, now);
      if e.err.Some? && attempt < cfg.maxRetries && ShouldRetry(e.err.value) && !a.cancelled {
        RoomStaysClosed(cfg, e.breaker.value, script, attempt + 1,
                        EndOf(e, a) + CalculateDelay(cfg, attempt, a.jitter) + a.overshoot);
      }
    }
  }

  /** One operation makes at most six calls, so it never opens a breaker that has no failures yet. */
  lemma DefaultStaysClosed(cb: Breaker.State, script: Script, now: int)
    requires cb.phase.Closed? && cb.failureCount == 0 && cb.maxFailures == Breaker.FAILURE_THRESHOLD
    ensures Loop(DEFAULT, Some(cb), script, 0, now).breaker.Some?
    ensures Loop(DEFAULT, Some(cb), script, 0, now).breaker.value.phase.Closed?
  {
    RoomStaysClosed(DEFAULT, cb, script, 0, now);
  }

  // ---------------------------------------------------------------------------------------------------------
  // The plain loop

  /** Attempt `k` is reached: every earlier one failed with a retryable error and the context was not cancelled. */
  ghost predicate Reaches(script: Script, from: nat, k: nat) {
    forall i: nat :: from <= i < k ==> Again(script(i).result) && !script(i).cancelled
  }

  /** The errors that are tried again. */
  predicate Again(err: Option<Err>) {
    err == Some(Failure(true)) || err == Some(BreakerOpen)
  }

  /**
   * One turn of an operation, the first of which is attempt `attempt` with the breaker `cb`. A turn that the breaker
   * refuses has the breaker's error. Another follows exactly if there are retries left, the error is one to try again,
   * and the context is not cancelled while waiting; it starts after the delay. The last turn's error is returned,
   * unless the context was cancelled.
   */
  predicate TurnIs(cfg: Config, cb: Option<Breaker.State>, script: Script, attempt: nat, o: Outcome, i: nat)
    requires i < |o.events|
  {
    var e, a := o.events[i], script(attempt + i);
    var before := if i == 0 then cb else o.events[i - 1].breaker;
    && (e.called <==> before.None? || !Breaker.Rejects(before.value, e.start))
    && e.err == (if e.called then a.result else Some(BreakerOpen))
    && (i + 1 < |o.events| <==> attempt + i < cfg.maxRetries && Again(e.err) && !a.cancelled)
    && (i + 1 < |o.events| ==>
          o.events[i + 1].start == e.start + (if e.called then a.duration else 0)
                                   + CalculateDelay(cfg, attempt + i, a.jitter) + a.overshoot)
    && (i + 1 == |o.events| ==>
          o.err == if attempt + i < cfg.maxRetries && Again(e.err) then Some(Cancelled) else e.err)
  }

  /** Every turn of every operation, with a breaker or without, is such a turn, and the first starts at once. */
  lemma {:induction false} TurnsExactly(cfg: Config, cb: Option<Breaker.State>, script: Script, attempt: nat, now: int,
                                        o: Outcome, i: nat)
    requires attempt <= cfg.maxRetries && o == Loop(cfg, cb, script, attempt, now) && i < |o.events|
    ensures attempt + |o.events| <= cfg.maxRetries + 1 && o.events[0].start == now
    ensures TurnIs(cfg, cb, script, attempt, o, i)
    decreases cfg.maxRetries - attempt
  {
    var a := script(attempt);
    var e := Guarded(cb, a, now);
    if attempt < cfg.maxRetries && Again(e.err) && !a.cancelled {
      var next := EndOf(e, a) + CalculateDelay(cfg, attempt, a.jitter) + a.overshoot;
      var rest := Loop(cfg, e.breaker, script, attempt + 1, next);
      assert o == Prepend(e, rest);
      TurnsExactly(cfg, e.breaker, script, attempt + 1, next, rest, if i == 0 then 0 else i - 1);
      if i == 0 {
        FirstTurn(cfg, cb, script, attempt, now, rest);
      } else {
        LaterTurn(cfg, cb, script, attempt, e, rest, i);
      }
    } else {
      OnlyTurn(cfg, cb, script, attempt, now);
    }
  }

  lemma OnlyTurn(cfg: Config, cb: Option<Breaker.State>, script: Script, attempt: nat, now: int)
    requires attempt <= cfg.maxRetries
    requires var e := Guarded(cb, script(attempt), now);
             !(attempt < cfg.maxRetries && Again(e.err) && !script(attempt).cancelled)
    ensures var o := Loop(cfg, cb, script, attempt, now);
            |o.events| == 1 && o.events[0].start == now && TurnIs(cfg, cb, script, attempt, o, 0)
  {
  }

  lemma FirstTurn(cfg: Config, cb: Option<Breaker.State>, script: Script, attempt: nat, now: int, rest: Outcome)
    requires var e, a := Guarded(cb, script(attempt), now), script(attempt);
             && attempt < cfg.maxRetries && Again(e.err) && !a.cancelled && |rest.events| > 0
             && rest.events[0].start == EndOf(e, a) + CalculateDelay(cfg, attempt, a.jitter) + a.overshoot
    ensures TurnIs(cfg, cb, script, attempt, Prepend(Guarded(cb, script(attempt), now), rest), 0)
  {
  }

  lemma LaterTurn(cfg: Config, cb: Option<Breaker.State>, script: Script, attempt: nat, e: Event, rest: Outcome, i: nat)
    requires 0 < i <= |rest.events| && TurnIs(cfg, e.breaker, script, attempt + 1, rest, i - 1)
    ensures TurnIs(cfg, cb, script, attempt, Prepend(e, rest), i)
  {
  }

  /** With the default settings they start at a tenth of a second and stay at thirty from the tenth one on. */
  lemma {:induction false} DefaultDelays(attempt: nat)
    ensures attempt == 0 ==> Nominal(DEFAULT, attempt) == 100_000_000
    ensures attempt >= 9 ==> Nominal(DEFAULT, attempt) == 30_000_000_000
    decreases attempt
  {
    if attempt > 9 {
      DefaultDelays(attempt - 1);
      BackoffDoubles(DEFAULT, attempt - 1);
    } else if attempt == 9 {
      assert Doubled(100_000_000, 3) == 800_000_000;
      assert Doubled(100_000_000, 6) == 8 * Doubled(100_000_000, 3);
      assert Doubled(100_000_000, 9) == 8 * Doubled(100_000_000, 6);
    }
  }

  /** The delays double from the base delay until they reach the longest one. */
  lemma BackoffDoubles(cfg: Config, attempt: nat)
    requires cfg.baseDelay >= 0 && cfg.maxDelay >= 0
    ensures Nominal(cfg, 0) == (if cfg.baseDelay > cfg.maxDelay then cfg.maxDelay else cfg.baseDelay)
    ensures var d := 2 * Nominal(cfg, attempt);
            Nominal(cfg, attempt + 1) == if d > cfg.maxDelay then cfg.maxDelay else d
  {
    NominalNonNegative(cfg, attempt);
  }

  /** Without a breaker an operation succeeds exactly when it reaches a successful attempt within its retries. */
  lemma {:induction false} SucceedsExactly(cfg: Config, script: Script, attempt: nat, now: int)
    requires attempt <= cfg.maxRetries
    ensures Loop(cfg, None, script, attempt, now).err.None?
            <==> exists k: nat ::
                   attempt <= k <= cfg.maxRetries && script(k).result.None? && Reaches(script, attempt, k)
    ensures 1 <= |Loop(cfg, None, script, attempt, now).events| <= cfg.maxRetries + 1 - attempt
    ensures forall e :: e in Loop(cfg, None, script, attempt, now).events ==> e.called
    decreases cfg.maxRetries - attempt
  {
    var a := script(attempt);
    var e := Guarded(None, a, now);
    if e.err.None? {
      assert Reaches(script, attempt, attempt);
    } else if attempt < cfg.maxRetries && Again(e.err) && !a.cancelled {
      SucceedsExactly(cfg, script, attempt + 1, EndOf(e, a) + CalculateDelay(cfg, attempt, a.jitter) + a.overshoot);
      forall k: nat | attempt < k ensures Reaches(script, attempt, k) <==> Reaches(script, attempt + 1, k) {}
    } else {
      forall k: nat | attempt < k ensures !Reaches(script, attempt, k) || attempt == cfg.maxRetries {}
    }
  }

  ghost function ViewOf(cb: Breaker.CircuitBreaker?): (v: Option<Breaker.State>)
    reads cb
  {
    if cb == null then None else Some(cb.View())
  }

  /** One call of the wrapped function, through the breaker when there is one. */
  method Invoke(cb: Breaker.CircuitBreaker?, a: Attempt, now: int) returns (err: Option<Err>, end: int, ghost e: Event)
    modifies cb
    ensures e == Guarded(old(ViewOf(cb)), a, now)
    ensures err == e.err && end == EndOf(e, a) && ViewOf(cb) == e.breaker
  {
    e := Guarded(ViewOf(cb), a, now);
    if cb == null { return a.result, now + a.duration, e; }
    var called, ok := cb.Execute(now, a.result.None?, now + a.duration);
    if !called { return Some(BreakerOpen), now, e; }
    return a.result, now + a.duration, e;
  }

  /**
   * One turn of the loop: whether it is the last, the error it ends with then, and otherwise when the next one starts.
   */
  method Turn(cfg: Config, cb: Breaker.CircuitBreaker?, a: Attempt, attempt: nat, now: int)
    returns (last: bool, err: Option<Err>, next: int, ghost e: Event)
    modifies cb
    ensures e == Guarded(old(ViewOf(cb)), a, now) && ViewOf(cb) == e.breaker
    ensures last == LastTurn(cfg, attempt, e, a)
    ensures last ==> err == FinalErr(cfg, attempt, e, a)
    ensures !last ==> next == SecondStart(cfg, e, a, attempt)
  {
    err, next, e := Invoke(cb, a, now);
    if err.None? { return true, err, next, e; }
    if attempt == cfg.maxRetries { return true, err, next, e; }
    if !ShouldRetry(err.value) { return true, err, next, e; }
    var delay := CalculateDelay(cfg, attempt, a.jitter);
    if a.cancelled { return true, Some(Cancelled), next, e; }
    return false, err, next + delay + a.overshoot, e;
  }

  /** RetryWithExponentialBackoff around a breaker (null for none). */
  method RetryWithExponentialBackoff(cfg: Config, cb: Breaker.CircuitBreaker?, script: Script, startTime: int)
    returns (err: Option<Err>, ghost events: seq<Event>)
    modifies cb
    ensures Outcome(events, err, ViewOf(cb)) == Loop(cfg, old(ViewOf(cb)), script, 0, startTime)
  {
    ghost var v := ViewOf(cb);
    ghost var whole := Loop(cfg, v, script, 0, startTime);
    events, err := [], None;
    var now, attempt := startTime, 0;
    ghost var rest := whole;
    assert Follows(whole, events, rest);
    while attempt <= cfg.maxRetries
      invariant attempt == 0 || attempt <= cfg.maxRetries
      invariant attempt == 0 ==> err.None?
      invariant v == ViewOf(cb) && Follows(whole, events, rest) && rest == Loop(cfg, v, script, attempt, now)
      decreases cfg.maxRetries - attempt
    {
      var a := script(attempt);
      rest := LoopTurn(cfg, v, script, attempt, now, whole, events, rest);
      ghost var e;
      var last;
      last, err, now, e := Turn(cfg, cb, a, attempt, now);
      events, v := events + [e], e.breaker;
      if last { return; }
      attempt := attempt + 1;
    }
  }

  /** `whole` is the turns made so far followed by what the rest of the loop does. */
  ghost predicate Follows(whole: Outcome, events: seq<Event>, rest: Outcome) {
    whole == Outcome(events + rest.events, rest.err, rest.breaker)
  }

  predicate LastTurn(cfg: Config, attempt: nat, e: Event, a: Attempt) {
    e.err.None? || attempt == cfg.maxRetries || !ShouldRetry(e.err.value) || a.cancelled
  }

  function FinalErr(cfg: Config, attempt: nat, e: Event, a: Attempt): (err: Option<Err>) {
    if e.err.Some? && ShouldRetry(e.err.value) && a.cancelled && attempt != cfg.maxRetries then Some(Cancelled)
    else e.err
  }

  /** One turn of the loop: it either ends the whole operation or is followed by the rest. */
  lemma LoopTurn(cfg: Config, cb: Option<Breaker.State>, script: Script, attempt: nat, now: int, whole: Outcome,
                 events: seq<Event>, rest: Outcome) returns (rest': Outcome)
    requires attempt <= cfg.maxRetries
    requires Follows(whole, events, rest) && rest == Loop(cfg, cb, script, attempt, now)
    ensures var a := script(attempt);
            var e := Guarded(cb, a, now);
            if LastTurn(cfg, attempt, e, a) then
              whole == Outcome(events + [e], FinalErr(cfg, attempt, e, a), e.breaker)
            else
              && Follows(whole, events + [e], rest')
              && rest' == Loop(cfg, e.breaker, script, attempt + 1, SecondStart(cfg, e, a, attempt))
  {
    var a := script(attempt);
    var e := Guarded(cb, a, now);
    rest' := Loop(cfg, e.breaker, script, attempt + 1, SecondStart(cfg, e, a, attempt));
    assert events + ([e] + rest'.events) == events + [e] + rest'.events;
  }
}
