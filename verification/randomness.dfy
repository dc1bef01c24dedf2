/** Random draws, passed to the model as arguments instead of being taken from
    a shared generator. */
module Randomness {

  /** One uniform draw of the kind Random.nextDouble and Math.random return.
      The value 0 is excluded because the agent divides by a draw. */
  type Draw = r: real | 0.0 < r < 1.0 witness 0.5

  /** randInt(min, max) = nextInt(max - min + 1) + min, where nextInt(n) is
      modelled as the floor of d * n. Only the range is promised. */
  function RandInt(min: int, max: int, d: Draw): (r: int)
    requires min <= max
    ensures min <= r <= max
  {
    var n := max - min + 1;
    var scaled := d * (n as real);
    assert 0.0 < scaled < n as real by {
      assert d * (n as real) < 1.0 * (n as real);
    }
    min + scaled.Floor
  }

  /** Which offset is picked: min + k exactly when the scaled draw d * n lies
      in [k, k + 1), so each of the n values of the range is reachable. */
  lemma RandIntPicks(min: int, max: int, d: Draw, k: int)
    requires min <= max
    ensures RandInt(min, max, d) == min + k <==>
      (k as real) <= d * ((max - min + 1) as real) < ((k + 1) as real)
  {
  }
}
