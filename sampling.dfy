/** The random source, turned into an input.
    `Math.random()` yields a number in [0, 1); every random choice in the lottery
    is `Math.floor(Math.random() * n)`, which this module models on reals. */
module Sampling {

  /** A value the random source can produce. */
  predicate IsSample(u: real) {
    0.0 <= u < 1.0
  }

  /** `Math.floor(u * n)`: the index that the sample `u` selects among `n` choices. */
  function Scale(u: real, n: int): (k: int)
    ensures IsSample(u) && n >= 1 ==> 0 <= k < n
  {
    ScaleBelow(u, n);
    (u * n as real).Floor
  }

  /** For a sample `u` and `n >= 1`, `u * n` lies in [0, n). */
  lemma ScaleBelow(u: real, n: int)
    ensures IsSample(u) && n >= 1 ==> 0.0 <= u * n as real < n as real
  {
    if IsSample(u) && n >= 1 {
      assert u * n as real < 1.0 * n as real;
    }
  }
}
