/**
 * The pseudo-random generator the deck and the random-play search draw
 * from. `System.Random` is not modelled: a generator is an arbitrary infinite
 * stream of choices, and `Next(lo, hi)` maps the next choice into `[lo, hi)`,
 * which is all the repository relies on. Every property proved about a
 * caller therefore holds for every sequence of random outcomes.
 */
module Randomness {

  /** The value `Next(lo, hi)` returns when the `at`-th choice of the stream is drawn. */
  function Pick(stream: nat -> nat, at: nat, lo: int, hi: int): (r: int)
    requires lo < hi
    ensures lo <= r < hi
  {
    lo + stream(at) % (hi - lo)
  }

  class Rng {
    /** The choices this generator will deliver, in order. */
    const stream: nat -> nat
    /** How many choices have been drawn so far. */
    var drawn: nat

    constructor (stream: nat -> nat)
      ensures this.stream == stream && drawn == 0
    {
      this.stream := stream;
      drawn := 0;
    }

    /** Draws a value in `[lo, hi)`; every call site in the repository has `lo < hi`. */
    method Next(lo: int, hi: int) returns (r: int)
      requires lo < hi
      modifies this
      ensures r == Pick(stream, old(drawn), lo, hi)
      ensures drawn == old(drawn) + 1
    {
      r := Pick(stream, drawn, lo, hi);
      drawn := drawn + 1;
    }
  }
}
