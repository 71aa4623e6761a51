/** The circuit breaker (retry.go), and what its state says about the calls made so far. */
module Breaker {
  import opened Strings
  import opened Numbers

  datatype Phase = Closed | Open | HalfOpen

  /** The fields of CircuitBreaker; times in nanoseconds. */
  datatype State = State(maxFailures: int, recoveryTimeout: int, successThreshold: int,
                         failureCount: int, lastFailureTime: int, phase: Phase, successCount: int)

  const SUCCESS_THRESHOLD: int := 3
  const FAILURE_THRESHOLD: int := 10
  const RECOVERY_TIMEOUT: int := 30_000_000_000

  function New(maxFailures: int, recoveryTimeout: int): (cb: State) {
    State(maxFailures, recoveryTimeout, SUCCESS_THRESHOLD, 0, 0, Closed, 0)
  }

  predicate Rejects(cb: State, now: int) {
    cb.phase.Open? && now - cb.lastFailureTime < cb.recoveryTimeout
  }

  function Admit(cb: State): (cb': State) {
    if cb.phase.Open? then cb.(phase := HalfOpen, successCount := 0) else cb
  }

  /** recordFailure */
  function Fail(cb: State, at: int): (cb': State) {
    var cb1 := cb.(failureCount := cb.failureCount + 1, lastFailureTime := at);
    if cb.phase.HalfOpen? then cb1.(phase := Open, successCount := 0)
    else if cb1.failureCount >= cb.maxFailures then cb1.(phase := Open)
    else cb1
  }

  /** recordSuccess */
  function Succeed(cb: State): (cb': State) {
    var cb1 := cb.(failureCount := 0);
    if cb.phase.HalfOpen? then
      cb1.(successCount := cb.successCount + 1,
           phase := if cb.successCount + 1 >= cb.successThreshold then Closed else HalfOpen)
    else cb1
  }

  /** A call of Execute: when it starts, whether the wrapped function succeeds if it runs, and when that returns. */
  datatype Call = Call(start: int, ok: bool, end: int)

  function AfterCall(cb: State, c: Call): (cb': State) {
    if Rejects(cb, c.start) then cb
    else if c.ok then Succeed(Admit(cb)) else Fail(Admit(cb), c.end)
  }

  function Run(cb: State, calls: seq<Call>): (cb': State) {
    if calls == [] then cb else AfterCall(Run(cb, calls[..|calls| - 1]), calls[|calls| - 1])
  }

  /** A probe that fails opens the breaker again, with no successes counted. */
  lemma FailedProbe(cb: State, c: Call)
    requires !Rejects(cb, c.start) && !cb.phase.Closed? && !c.ok
    ensures AfterCall(cb, c)
            == cb.(phase := Open, failureCount := cb.failureCount + 1, lastFailureTime := c.end, successCount := 0)
  {
  }

  /** The calls that were let through, in order. */
  function Executed(cb: State, calls: seq<Call>): (r: seq<Call>) {
    if calls == [] then []
    else
      var n := |calls| - 1;
      Executed(cb, calls[..n]) + if Rejects(Run(cb, calls[..n]), calls[n].start) then [] else [calls[n]]
  }

  /** How many calls at the end of a history had the given outcome. */
  function Trailing(h: seq<Call>, ok: bool): (n: nat)
    ensures n <= |h|
    ensures forall i :: |h| - n <= i < |h| ==> h[i].ok == ok
    ensures n < |h| ==> h[|h| - n - 1].ok != ok
  {
    if h == [] || h[|h| - 1].ok != ok then 0 else Trailing(h[..|h| - 1], ok) + 1
  }

  predicate ThreeSuccessesAt(h: seq<Call>, k: int) {
    0 <= k && k + 3 <= |h| && h[k].ok && h[k + 1].ok && h[k + 2].ok
  }

  /** Calls `h[..i]` end in enough consecutive failures to trip, and no three successes in a row came after. */
  ghost predicate TrippedAt(h: seq<Call>, maxFailures: int, i: int) {
    && 0 <= i <= |h| && Trailing(h[..i], false) >= Max(1, maxFailures)
    && forall k :: i <= k ==> !ThreeSuccessesAt(h, k)
  }

  ghost predicate Tripped(h: seq<Call>, maxFailures: int) {
    exists i :: TrippedAt(h, maxFailures, i)
  }

  /** The breaker's fields, as the history of executed calls determines them. */
  ghost predicate Describes(cb: State, h: seq<Call>) {
    && cb.failureCount == Trailing(h, false)
    && (cb.phase.Closed? <==> !Tripped(h, cb.maxFailures))
    && (cb.phase.Open? <==> Tripped(h, cb.maxFailures) && h != [] && !h[|h| - 1].ok)
    && (cb.phase.HalfOpen? <==> Tripped(h, cb.maxFailures) && h != [] && h[|h| - 1].ok)
    && (cb.phase.HalfOpen? ==> cb.successCount == Trailing(h, true) && 1 <= cb.successCount <= 2)
    && (cb.failureCount > 0 ==> cb.lastFailureTime == h[|h| - 1].end)
    && cb.successThreshold == SUCCESS_THRESHOLD
  }

  lemma TrippedNonEmpty(h: seq<Call>, maxFailures: int, i: int)
    requires TrippedAt(h, maxFailures, i)
    ensures i > 0 && !h[i - 1].ok
  {
    assert h[..i][i - 1] == h[i - 1];
  }

  lemma TrippedFail(h: seq<Call>, c: Call, maxFailures: int)
    requires !c.ok
    ensures Tripped(h + [c], maxFailures)
            <==> Tripped(h, maxFailures) || Trailing(h + [c], false) >= Max(1, maxFailures)
  {
    var g := h + [c];
    assert g[..|g|] == g;
    forall k ensures ThreeSuccessesAt(g, k) <==> ThreeSuccessesAt(h, k) {}
    forall i | 0 <= i <= |h| ensures TrippedAt(g, maxFailures, i) <==> TrippedAt(h, maxFailures, i) {
      assert g[..i] == h[..i];
    }
    if Trailing(g, false) >= Max(1, maxFailures) { assert TrippedAt(g, maxFailures, |g|); }
  }

  lemma TrippedSucceed(h: seq<Call>, c: Call, maxFailures: int)
    requires c.ok
    ensures Tripped(h + [c], maxFailures) <==> Tripped(h, maxFailures) && Trailing(h + [c], true) < 3
  {
    var g := h + [c];
    assert g[..|h|] == h;
    assert Trailing(g, true) >= 3 ==> ThreeSuccessesAt(g, |g| - 3);
    forall i | TrippedAt(g, maxFailures, i) ensures TrippedAt(h, maxFailures, i) && Trailing(g, true) < 3 {
      TrippedNonEmpty(g, maxFailures, i);
      assert g[..i] == h[..i];
      forall k | ThreeSuccessesAt(h, k) ensures ThreeSuccessesAt(g, k) {}
    }
    forall i | TrippedAt(h, maxFailures, i) && Trailing(g, true) < 3 ensures TrippedAt(g, maxFailures, i) {
      assert g[..i] == h[..i];
      forall k | i <= k && ThreeSuccessesAt(g, k) ensures ThreeSuccessesAt(h, k) {}
    }
  }

  lemma TrailingSnoc(h: seq<Call>, c: Call, ok: bool)
    ensures Trailing(h + [c], ok) == if c.ok == ok then Trailing(h, ok) + 1 else 0
  {
    assert (h + [c])[..|h|] == h;
  }

  lemma ExecutedStep(cb: State, h: seq<Call>, c: Call)
    requires Describes(cb, h) && !Rejects(cb, c.start)
    ensures Describes(AfterCall(cb, c), h + [c])
  {
    TrailingSnoc(h, c, false);
    TrailingSnoc(h, c, true);
    if c.ok {
      TrippedSucceed(h, c, cb.maxFailures);
    } else {
      TrippedFail(h, c, cb.maxFailures);
    }
  }

  /** After any calls on a new breaker its state is the one the executed calls determine. */
  lemma {:induction false} StateFromHistory(maxFailures: int, recoveryTimeout: int, calls: seq<Call>)
    ensures var cb := Run(New(maxFailures, recoveryTimeout), calls);
            && Describes(cb, Executed(New(maxFailures, recoveryTimeout), calls))
            && cb.maxFailures == maxFailures && cb.recoveryTimeout == recoveryTimeout
  {
    var cb0 := New(maxFailures, recoveryTimeout);
    if calls == [] {
      forall i ensures !TrippedAt([], maxFailures, i) {}
    } else {
      var n := |calls| - 1;
      StateFromHistory(maxFailures, recoveryTimeout, calls[..n]);
      if !Rejects(Run(cb0, calls[..n]), calls[n].start) {
        ExecutedStep(Run(cb0, calls[..n]), Executed(cb0, calls[..n]), calls[n]);
      } else {
        assert Executed(cb0, calls) == Executed(cb0, calls[..n]);
      }
    }
  }

  /** A closed breaker has seen fewer than maxFailures consecutive failures. */
  lemma ClosedMeansFewFailures(maxFailures: int, recoveryTimeout: int, calls: seq<Call>)
    requires Run(New(maxFailures, recoveryTimeout), calls).phase.Closed?
    ensures Trailing(Executed(New(maxFailures, recoveryTimeout), calls), false) < Max(1, maxFailures)
  {
    StateFromHistory(maxFailures, recoveryTimeout, calls);
    var h := Executed(New(maxFailures, recoveryTimeout), calls);
    assert h[..|h|] == h;
    assert !TrippedAt(h, maxFailures, |h|);
  }

  /** A history that trips, and a longer one that does not: three successes in a row came after the first. */
  lemma ThreeBetween(h: seq<Call>, g: seq<Call>, maxFailures: int) returns (k: int)
    requires h <= g && Tripped(h, maxFailures) && !Tripped(g, maxFailures) && h != [] && !h[|h| - 1].ok
    ensures ThreeSuccessesAt(g, k) && k >= |h|
  {
    var i :| TrippedAt(h, maxFailures, i);
    assert g[..i] == h[..i];
    assert !TrippedAt(g, maxFailures, i);
    k :| i <= k && ThreeSuccessesAt(g, k);
    assert !g[|h| - 1].ok;
    assert k + 3 <= |h| ==> ThreeSuccessesAt(h, k);
  }

  /** From open to closed there are three successes in a row among the calls in between, with no failure among them. */
  lemma OpenToClosed(maxFailures: int, recoveryTimeout: int, before: seq<Call>, after: seq<Call>) returns (k: int)
    requires Run(New(maxFailures, recoveryTimeout), before).phase.Open?
    requires Run(New(maxFailures, recoveryTimeout), before + after).phase.Closed?
    ensures ThreeSuccessesAt(Executed(New(maxFailures, recoveryTimeout), before + after), k)
    ensures k >= |Executed(New(maxFailures, recoveryTimeout), before)|
  {
    var cb0 := New(maxFailures, recoveryTimeout);
    StateFromHistory(maxFailures, recoveryTimeout, before);
    StateFromHistory(maxFailures, recoveryTimeout, before + after);
    ExecutedPrefix(cb0, before, after);
    k := ThreeBetween(Executed(cb0, before), Executed(cb0, before + after), maxFailures);
  }

  lemma {:induction false} ExecutedPrefix(cb: State, before: seq<Call>, after: seq<Call>)
    ensures Executed(cb, before) <= Executed(cb, before + after)
  {
    var n := |before + after| - 1;
    if after == [] {
      assert before + after == before;
    } else {
      ExecutedPrefix(cb, before, after[..|after| - 1]);
      assert (before + after)[..n] == before + after[..|after| - 1];
    }
  }

  lemma RejectsAsDescribed(cb: State, h: seq<Call>, now: int)
    requires Describes(cb, h)
    ensures Rejects(cb, now)
            <==> Tripped(h, cb.maxFailures) && h != [] && !h[|h| - 1].ok && now - h[|h| - 1].end < cb.recoveryTimeout
  {
  }

  /** A call is turned away exactly while the breaker is tripped, last failed, and failed too recently. */
  lemma RejectedExactly(maxFailures: int, recoveryTimeout: int, calls: seq<Call>, now: int)
    ensures var h := Executed(New(maxFailures, recoveryTimeout), calls);
            Rejects(Run(New(maxFailures, recoveryTimeout), calls), now)
            <==> Tripped(h, maxFailures) && h != [] && !h[|h| - 1].ok && now - h[|h| - 1].end < recoveryTimeout
  {
    var cb0 := New(maxFailures, recoveryTimeout);
    StateFromHistory(maxFailures, recoveryTimeout, calls);
    RejectsAsDescribed(Run(cb0, calls), Executed(cb0, calls), now);
  }

  /** The driver's breaker turns calls away for thirty seconds after ten failures without three successes between. */
  lemma DefaultRejectedExactly(calls: seq<Call>, now: int)
    ensures var cb := New(FAILURE_THRESHOLD, RECOVERY_TIMEOUT);
            var h := Executed(cb, calls);
            Rejects(Run(cb, calls), now)
            <==> Tripped(h, 10) && h != [] && !h[|h| - 1].ok && now - h[|h| - 1].end < 30_000_000_000
  {
    RejectedExactly(FAILURE_THRESHOLD, RECOVERY_TIMEOUT, calls, now);
  }

  /** CircuitBreaker. Execute's function argument is the outcome it would have. */
  class CircuitBreaker {
    const maxFailures: int
    const recoveryTimeout: int
    const successThreshold: int
    var failureCount: int
    var lastFailureTime: int
    var phase: Phase
    var successCount: int

    ghost function View(): State
      reads this
    {
      State(maxFailures, recoveryTimeout, successThreshold, failureCount, lastFailureTime, phase, successCount)
    }

    constructor (maxFailures: int, recoveryTimeout: int)
      ensures View() == New(maxFailures, recoveryTimeout)
    {
      this.maxFailures, this.recoveryTimeout, successThreshold := maxFailures, recoveryTimeout, SUCCESS_THRESHOLD;
      failureCount, lastFailureTime, phase, successCount := 0, 0, Closed, 0;
    }

    /** `called` tells whether the wrapped function ran; `ok` whether Execute returned no error. */
    method Execute(start: int, fnOk: bool, end: int) returns (called: bool, ok: bool)
      modifies this
      ensures View() == AfterCall(old(View()), Call(start, fnOk, end))
      ensures called <==> !Rejects(old(View()), start)
      ensures ok <==> called && fnOk
    {
      if phase == Open {
        if start - lastFailureTime < recoveryTimeout { return false, false; }
        phase := HalfOpen;
        successCount := 0;
      }
      if !fnOk {
        RecordFailure(end);
        return true, false;
      }
      RecordSuccess();
      return true, true;
    }

    method RecordFailure(now: int)
      modifies this
      ensures View() == Fail(old(View()), now)
    {
      failureCount := failureCount + 1;
      lastFailureTime := now;
      if phase == HalfOpen {
        phase := Open;
        successCount := 0;
      } else if failureCount >= maxFailures {
        phase := Open;
      }
    }

    method RecordSuccess()
      modifies this
      ensures View() == Succeed(old(View()))
    {
      failureCount := 0;
      if phase == HalfOpen {
        successCount := successCount + 1;
        if successCount >= successThreshold { phase := Closed; }
      }
    }
  }
}
