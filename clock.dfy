/**
 * The agents' `timeRemaining()` predicate. It compares a wall clock, which
 * only moves forward, with a fixed deadline, so the answers it gives over a
 * run are some number of yes followed by no for ever. The clock is therefore
 * modelled by how many polls will still answer yes; that number is not known
 * to the agent and is a parameter of every result below. It is also the
 * measure by which the deepening loop terminates.
 */
module Clock {

  /** What a poll answers while `left` more polls would answer yes. */
  function Answer(left: nat): bool {
    left > 0
  }

  /** The polls left answering yes after one more poll. */
  function Tick(left: nat): nat {
    if left > 0 then left - 1 else 0
  }
}
