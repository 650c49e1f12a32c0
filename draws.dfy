/**
 * The pseudo-random stream (java.util.Random) as an abstract sequence of raw draws.
 * `src(i)` is the raw value of the i-th call; how a seed turns into those values is
 * not modelled, so every property proved here holds for every stream.
 */
module Draws {

  /** 2^24: `nextFloat()` is a 24-bit value divided by this. */
  const FloatSteps: int := 16777216

  /** The float a raw draw yields through `nextFloat()`, in [0, 1). */
  function Fraction(raw: int): (f: real)
    ensures 0.0 <= f < 1.0
  {
    (raw % FloatSteps) as real / FloatSteps as real
  }

  class Rng {
    /** The raw draws of this stream. */
    const src: nat -> int
    /** How many draws have been consumed so far. */
    var drawn: nat

    constructor (src: nat -> int)
      ensures this.src == src && drawn == 0
    {
      this.src := src;
      drawn := 0;
    }

    /** `nextInt(bound)`: one draw, reduced into [0, bound). Java throws for bound <= 0. */
    method NextInt(bound: int) returns (r: int)
      requires bound > 0
      modifies this
      ensures drawn == old(drawn) + 1
      ensures r == src(old(drawn)) % bound && 0 <= r < bound
    {
      r := src(drawn) % bound;
      drawn := drawn + 1;
    }

    /** `nextFloat()`: one draw, in [0, 1). */
    method NextFloat() returns (f: real)
      modifies this
      ensures drawn == old(drawn) + 1
      ensures f == Fraction(src(old(drawn))) && 0.0 <= f < 1.0
    {
      f := Fraction(src(drawn));
      drawn := drawn + 1;
    }
  }
}
