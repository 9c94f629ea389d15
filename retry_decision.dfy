/**
 * The decision a retry predicate returns after an attempt: abort, optionally
 * surfacing a substitute exception, or retry after a delay with a (possibly
 * replaced) callable. Decisions are immutable values. The validating
 * constructor `New`, the factories and `WithDelayNanos` all return a
 * `ValidDecision`, the decisions that satisfy the constructor's guard.
 *
 * `E` stands for Java's `Exception` and `C` for the callable type parameter;
 * both are opaque here. `None` is Java's `null`.
 */
module Failsafe {
  import opened Wrappers
  import opened JavaTypes

  /** The two kinds of decision. */
  datatype DecisionType = Abort | Retry

  /** The `IllegalArgumentException` the constructor throws for a delayed abort. */
  datatype IllegalArgument = CannotDelayAbort(delay: Long)

  /** The delay every abort factory stores: minus one nanosecond, not zero. */
  const ABORT_DELAY: Long := -1

  /** The constructor's guard: only an abort with a positive delay is refused. */
  predicate Admissible(decisionType: DecisionType, delay: Long) {
    !(decisionType == Abort && delay > 0)
  }

  datatype RetryDecision<E, C> = RetryDecision(
    decisionType: DecisionType,
    delayNanos: Long,
    exception: Option<E>,
    newCallable: Option<C>)
  {
    /** The invariant the constructor's guard establishes. */
    predicate Valid() {
      Admissible(decisionType, delayNanos)
    }

    /**
     * A copy of this decision with its delay replaced; the delay is a Java
     * `int` and goes through the constructor's validation again.
     */
    function WithDelayNanos(delay: Int32): (r: Result<ValidDecision<E, C>, IllegalArgument>)
      ensures r.Failure? <==> decisionType == Abort && delay > 0
      ensures r.Failure? ==> r.error == CannotDelayAbort(delay)
      ensures r.Success? ==> r.value == this.(delayNanos := delay)
    {
      New(decisionType, delay, exception, newCallable)
    }
  }

  /** The decisions Java code can hold: those the constructor accepted. */
  type ValidDecision<E, C> = d: RetryDecision<E, C> | d.Valid() witness RetryDecision(Retry, 0, None, None)

  /**
   * The private constructor, with its time unit fixed to nanoseconds (the
   * only unit any caller passes, for which the conversion is the identity).
   */
  function New<E, C>(decisionType: DecisionType, delay: Long, exception: Option<E>, newCallable: Option<C>)
    : (r: Result<ValidDecision<E, C>, IllegalArgument>)
    ensures r.Failure? <==> decisionType == Abort && delay > 0
    ensures r.Failure? ==> r.error == CannotDelayAbort(delay)
    ensures r.Success? ==> r.value.decisionType == decisionType && r.value.delayNanos == delay
    ensures r.Success? ==> r.value.exception == exception && r.value.newCallable == newCallable
  {
    if decisionType == Abort && delay > 0 then
      Failure(CannotDelayAbort(delay))
    else
      Success(RetryDecision(decisionType, delay, exception, newCallable))
  }

  /** `abort()`: the shared abort decision that propagates the original outcome. */
  function SharedAbort<E, C>(): (r: ValidDecision<E, C>)
    ensures r.decisionType == Abort && r.delayNanos == -1
    ensures r.exception == None && r.newCallable == None
  {
    New(Abort, ABORT_DELAY, None, None).value
  }

  /** `abort(e)`: an abort decision that surfaces `e` instead of the original failure. */
  function AbortWith<E, C>(e: E): (r: ValidDecision<E, C>)
    ensures r.decisionType == Abort && r.delayNanos == -1
    ensures r.exception == Some(e) && r.newCallable == None
  {
    New(Abort, ABORT_DELAY, Some(e), None).value
  }

  /** `retry(n, c)`: retry `c` after `n` nanoseconds; no delay, even a negative one, is refused. */
  function RetryAfter<E, C>(retryNanos: Long, callable: C): (r: ValidDecision<E, C>)
    ensures r.decisionType == Retry && r.delayNanos == retryNanos
    ensures r.exception == None && r.newCallable == Some(callable)
  {
    New(Retry, retryNanos, None, Some(callable)).value
  }

  /**
   * The constructor accepts exactly the admissible combinations, and what it
   * accepts is what the getters read back: rebuilding a valid decision from
   * its four getters gives the same decision.
   */
  lemma GettersRoundTrip<E, C>(d: RetryDecision<E, C>)
    ensures d.Valid() <==> New(d.decisionType, d.delayNanos, d.exception, d.newCallable).Success?
    ensures d.Valid() ==> New(d.decisionType, d.delayNanos, d.exception, d.newCallable) == Success(d)
  {
  }

  /**
   * The abort singleton is the only abort decision without exception and
   * callable that the factories produce: `abort(e)` differs from it in the
   * exception alone.
   */
  lemma SharedAbortIsCanonical<E, C>(e: E)
    ensures AbortWith<E, C>(e) == SharedAbort<E, C>().(exception := Some(e))
    ensures forall d: RetryDecision<E, C> ::
      d.decisionType == Abort && d.delayNanos == ABORT_DELAY && d.exception == None && d.newCallable == None
      ==> d == SharedAbort()
  {
  }

  /** Setting a delay twice is the same as setting the second one. */
  lemma WithDelayNanosLastWins<E, C>(d: RetryDecision<E, C>, first: Int32, second: Int32)
    requires d.WithDelayNanos(first).Success?
    ensures d.WithDelayNanos(first).value.WithDelayNanos(second) == d.WithDelayNanos(second)
  {
  }

  /** Re-applying a valid decision's own delay gives back the same decision. */
  lemma WithDelayNanosRestores<E, C>(d: RetryDecision<E, C>)
    requires d.Valid() && -TWO_31 <= d.delayNanos < TWO_31
    ensures d.WithDelayNanos(d.delayNanos) == Success(d)
  {
  }

  /**
   * A retry decision accepts every delay, and an abort decision accepts
   * exactly the non-positive ones, whatever delay it carried before.
   */
  lemma WithDelayNanosAccepts<E, C>(d: RetryDecision<E, C>, delay: Int32)
    ensures d.decisionType == Retry ==> d.WithDelayNanos(delay).Success?
    ensures d.decisionType == Abort ==> (d.WithDelayNanos(delay).Success? <==> delay <= 0)
  {
  }
}
