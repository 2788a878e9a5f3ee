/** Bounded retry around one Redis operation (`_with_retry`, watchers/redis_client.py, lines 79-110). */
module Retry {
  import opened Schema

  /** How one try of the operation ends; only connection errors and timeouts are worth another try. */
  datatype Try<+T, +E> =
    | Returned(value: T)
    | Retryable(error: E)
    | Fatal(error: E)

  datatype Failure<+E> = InvalidArgument | Raised(error: E)

  function Pow2(n: nat): (r: nat)
    ensures r >= 1
  {
    if n == 0 then 1 else 2 * Pow2(n - 1)
  }

  /**
    `tries` says how the k-th try would end.  The result tells how many were
    made and how long the caller slept in all.
  */
  method WithRetry<T, E>(tries: nat -> Try<T, E>, maxAttempts: int, baseDelay: real)
    returns (r: Result<T, Failure<E>>, made: nat, slept: real)
    ensures maxAttempts < 1 ==> r == Err(InvalidArgument) && made == 0 && slept == 0.0
    ensures maxAttempts >= 1 ==>
      && 1 <= made <= maxAttempts
      && (forall k :: 0 <= k < made - 1 ==> tries(k).Retryable?)
      && r == (match tries(made - 1) case Returned(v) => Ok(v) case Retryable(e) => Err(Raised(e)) case Fatal(e) => Err(Raised(e)))
      && (tries(made - 1).Retryable? ==> made == maxAttempts)
      && slept == baseDelay * (Pow2(made - 1) - 1) as real
  {
    if maxAttempts < 1 {
      return Err(InvalidArgument), 0, 0.0;
    }
    var attempt := 1;
    made, slept := 0, 0.0;
    while attempt <= maxAttempts
      invariant 1 <= attempt <= maxAttempts && made == attempt - 1
      invariant forall k :: 0 <= k < made ==> tries(k).Retryable?
      invariant slept == baseDelay * (Pow2(made) - 1) as real
      decreases maxAttempts - attempt
    {
      var outcome := tries(made);
      made := made + 1;
      match outcome {
        case Returned(v) => return Ok(v), made, slept;
        case Fatal(e) => return Err(Raised(e)), made, slept;
        case Retryable(e) =>
          if attempt == maxAttempts {
            return Err(Raised(e)), made, slept;
          }
      }
      slept := slept + baseDelay * Pow2(attempt - 1) as real;
      attempt := attempt + 1;
    }
    assert false;
    r := Err(InvalidArgument);
  }
}
