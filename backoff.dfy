/** The reconnect backoff handed to both Redis connections of the pub/sub bus. */
module Backoff {

  /** Milliseconds added per failed attempt. */
  const StepMs: int := 50

  /** The longest wait between two attempts. */
  const CapMs: int := 2000

  /**
   * `retryStrategy(times)`: `Math.min(times * 50, 2000)`, the wait before
   * reconnect attempt number `times`.
   */
  function RetryDelay(times: int): (d: int)
    ensures d <= CapMs
    ensures d == times * StepMs <==> times <= 40
    ensures times >= 40 ==> d == CapMs
  {
    if times * StepMs < CapMs then times * StepMs else CapMs
  }

  /** A later attempt never waits less than an earlier one. */
  lemma RetryDelayMonotone(a: int, b: int)
    requires a <= b
    ensures RetryDelay(a) <= RetryDelay(b)
  {
  }

  /** A non-negative attempt count never yields a negative wait. */
  lemma RetryDelayNonNegative(times: int)
    requires times >= 0
    ensures 0 <= RetryDelay(times)
  {
  }
}
