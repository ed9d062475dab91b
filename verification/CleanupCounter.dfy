/** The counter both in-memory stores advance before deciding whether to clean up. */
module CleanupCounter {

  const MAX_CYCLES_BEFORE_CLEANUP := 10000

  /** The counter is declared but never given a value, so its first increment makes it `NaN`, and it stays `NaN`. */
  datatype Counter = NaN | Count(n: int) {
    function Next(): Counter {
      if NaN? then NaN else Count(n + 1)
    }

    predicate AtLeast(limit: int) {
      Count? && n >= limit
    }
  }
}
