/**
 * Python's `random` module: a hidden, process-wide generator state. The generator
 * itself is a linear congruential one here; callers are verified against the
 * contracts only, which promise no more than holds for every outcome, so what is
 * proved about the services holds whatever the random draws are.
 */
module Rand {

  class Random {
    var state: nat

    constructor (seed: nat)
      ensures state == seed
    {
      state := seed;
    }

    /** random.randrange(bound) */
    method Below(bound: nat) returns (k: nat)
      requires bound > 0
      modifies this
      ensures k < bound
    {
      state := (state * 1103515245 + 12345) % 0x8000_0000;
      k := state % bound;
    }

    /** random.random() > 0.5: a fair coin. */
    method Coin() returns (heads: bool)
      modifies this
    {
      var k := Below(2);
      heads := k == 1;
    }

    /** random.choice(s); every caller passes a non-empty list. */
    method Choice<T>(s: seq<T>) returns (x: T)
      requires |s| > 0
      modifies this
      ensures x in s
    {
      var k := Below(|s|);
      x := s[k];
    }

    /** random.shuffle(s): CPython's Fisher-Yates pass, on a copy. */
    method Shuffle<T(==)>(s: seq<T>) returns (r: seq<T>)
      modifies this
      ensures |r| == |s| && multiset(r) == multiset(s)
    {
      r := s;
      var i := |r|;
      while i > 1
        invariant 0 <= i <= |r| == |s|
        invariant multiset(r) == multiset(s)
      {
        i := i - 1;
        var j := Below(i + 1);
        r := r[i := r[j]][j := r[i]];
      }
    }
  }
}
