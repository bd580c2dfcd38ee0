/** PHP's process-wide Mersenne Twister (mt_srand / mt_rand), with its
    internals abstracted: after `mt_srand(s)` the k-th call `mt_rand(lo, hi)`
    yields `gen(s, k, lo, hi)`, a value in [lo, hi]. */
module Prng {
  import opened Errors

  /** The PRNG's output function; its only promised property is the range
      contract, which every value of this type satisfies. */
  type Generator = gen: (int, nat, int, int) -> int
    | forall s, k, lo, hi :: lo <= hi ==> lo <= gen(s, k, lo, hi) <= hi
    witness (s: int, k: nat, lo: int, hi: int) => lo

  /** The seed last given to mt_srand and the number of draws since. */
  datatype PrngState = PrngState(seed: int, drawn: nat)

  /** What mt_rand returned (None is PHP's false) and the state after it. */
  datatype Draw = Draw(value: Option<int>, state: PrngState)

  /** mt_rand(lo, hi): the next value of the seeded sequence. For an empty
      range PHP 7 warns and returns false without advancing the generator. */
  function Rand(gen: Generator, st: PrngState, lo: int, hi: int): (d: Draw)
    ensures d.value.Some? <==> lo <= hi
    ensures d.value.Some? ==> lo <= d.value.value <= hi && d.state == PrngState(st.seed, st.drawn + 1)
    ensures d.value.None? ==> d.state == st
  {
    if hi < lo then Draw(None, st)
    else Draw(Some(gen(st.seed, st.drawn, lo, hi)), PrngState(st.seed, st.drawn + 1))
  }

  class MersenneTwister {
    const gen: Generator
    var seed: int
    var drawn: nat

    function State(): PrngState
      reads this
    {
      PrngState(seed, drawn)
    }

    constructor (gen: Generator, seed: int)
      ensures this.gen == gen && State() == PrngState(seed, 0)
    {
      this.gen, this.seed, this.drawn := gen, seed, 0;
    }

    /** mt_srand(seed) */
    method Srand(seed: int)
      modifies this
      ensures State() == PrngState(seed, 0)
    {
      this.seed, drawn := seed, 0;
    }

    /** mt_rand(lo, hi) */
    method MtRand(lo: int, hi: int) returns (r: Option<int>)
      modifies this
      ensures Draw(r, State()) == Rand(gen, old(State()), lo, hi)
    {
      if hi < lo {
        return None;
      }
      r := Some(gen(seed, drawn, lo, hi));
      drawn := drawn + 1;
    }
  }
}
