/** The remote operation that the retry loop and the circuit breaker run, as an object that answers
    each invocation and counts them. */
module Upstream {
  import opened Wrappers

  class Operation<T, E> {
    const outcomes: nat -> Result<T, E>
    var calls: nat

    constructor (outcomes: nat -> Result<T, E>)
      ensures this.outcomes == outcomes && calls == 0
    {
      this.outcomes := outcomes;
      calls := 0;
    }

    method Invoke() returns (result: Result<T, E>)
      modifies this
      ensures calls == old(calls) + 1
      ensures result == outcomes(old(calls))
    {
      result := outcomes(calls);
      calls := calls + 1;
    }
  }
}
