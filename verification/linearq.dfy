/** The linear Q-estimator: Q(s, a) = w . f(s, a), with the two weight-update
    rules found in the code base (the uniform rule the agent uses and the
    semi-gradient rule of the Features class). */
module LinearQ {
  import opened Randomness

  /** Length of every feature vector. */
  const NumFeatures: nat := 9

  /** The dot product over the weights' indices, accumulated left to right:
      sum of w[i] * f[i] for i < |w|. Entries of f beyond |w| are not read. */
  function Dot(w: seq<real>, f: seq<real>): real
    requires |w| <= |f|
  {
    if |w| == 0 then 0.0 else Dot(w[..|w| - 1], f) + w[|w| - 1] * f[|w| - 1]
  }

  /** Sum of the first n entries of f. */
  function SumTo(f: seq<real>, n: nat): real
    requires n <= |f|
  {
    if n == 0 then 0.0 else SumTo(f, n - 1) + f[n - 1]
  }

  /** Sum of the squares of the first n entries of f. */
  function SquaresTo(f: seq<real>, n: nat): (r: real)
    requires n <= |f|
    ensures r >= 0.0
  {
    if n == 0 then 0.0 else SquaresTo(f, n - 1) + f[n - 1] * f[n - 1]
  }

  /** calcQValue / qFunction: the loop over the weights, returning their dot
      product with the feature vector. The weights are an input value and are
      left as they were. */
  method CalcQValue(w: seq<real>, f: seq<real>) returns (q: real)
    requires |w| <= |f|
    ensures q == Dot(w, f)
  {
    q := 0.0;
    var i := 0;
    while i < |w|
      invariant 0 <= i <= |w|
      invariant q == Dot(w[..i], f)
    {
      assert w[..i + 1][..i] == w[..i];
      q := q + w[i] * f[i];
      i := i + 1;
    }
    assert w[..|w|] == w;
  }

  /** Only weights paired with non-zero features matter: with a unit bias
      weight and every other weight 0, Q is the bias feature whatever the rest
      of the vector holds. */
  lemma {:induction false} DotOfBiasWeight(w: seq<real>, f: seq<real>)
    requires 1 <= |w| <= |f|
    requires w[0] == 1.0 && forall i :: 1 <= i < |w| ==> w[i] == 0.0
    ensures Dot(w, f) == f[0]
    decreases |w|
  {
    if |w| > 1 {
      DotOfBiasWeight(w[..|w| - 1], f);
    } else {
      assert w[..0] == [];
    }
  }

  /** RLAgent.updateWeights: every weight moves by the same alpha * delta; the
      feature vector f is accepted and ignored. */
  function UniformUpdate(w: seq<real>, f: seq<real>, delta: real, alpha: real): (w': seq<real>)
    ensures |w'| == |w|
    ensures forall i :: 0 <= i < |w| ==> w'[i] - w[i] == alpha * delta
  {
    seq(|w|, i requires 0 <= i < |w| => w[i] + alpha * delta)
  }

  /** Features.updateWeights: the semi-gradient step w[i] += alpha * delta * f[i]. */
  function SemiGradientUpdate(w: seq<real>, f: seq<real>, delta: real, alpha: real): (w': seq<real>)
    requires |w| <= |f|
    ensures |w'| == |w|
    ensures forall i :: 0 <= i < |w| ==> w'[i] - w[i] == alpha * delta * f[i]
  {
    seq(|w|, i requires 0 <= i < |w| => w[i] + alpha * delta * f[i])
  }

  /** A zero error is a fixed point of both rules, and the uniform rule does
      not depend on the feature vector at all. */
  lemma ZeroErrorKeepsWeights(w: seq<real>, f: seq<real>, g: seq<real>, alpha: real)
    requires |w| <= |f|
    ensures UniformUpdate(w, f, 0.0, alpha) == w
    ensures SemiGradientUpdate(w, f, 0.0, alpha) == w
    ensures UniformUpdate(UniformUpdate(w, f, 0.0, alpha), f, 0.0, alpha) == w
    ensures forall delta :: UniformUpdate(w, f, delta, alpha) == UniformUpdate(w, g, delta, alpha)
  {
  }

  /** The semi-gradient rule leaves every weight whose feature is 0 alone. */
  lemma SemiGradientSkipsZeroFeatures(w: seq<real>, f: seq<real>, delta: real, alpha: real, i: int)
    requires |w| <= |f| && 0 <= i < |w| && f[i] == 0.0
    ensures SemiGradientUpdate(w, f, delta, alpha)[i] == w[i]
  {
  }

  /** After a uniform update by c = alpha * delta, the estimate of any feature
      vector moves by c times the sum of its features. */
  lemma {:induction false} UniformUpdateShiftsQ(w: seq<real>, f: seq<real>, delta: real, alpha: real)
    requires |w| <= |f|
    ensures Dot(UniformUpdate(w, f, delta, alpha), f) == Dot(w, f) + alpha * delta * SumTo(f, |w|)
    decreases |w|
  {
    if |w| > 0 {
      var n := |w| - 1;
      var u := UniformUpdate(w, f, delta, alpha);
      assert u[..n] == UniformUpdate(w[..n], f, delta, alpha);
      UniformUpdateShiftsQ(w[..n], f, delta, alpha);
      assert u[n] * f[n] == w[n] * f[n] + alpha * delta * f[n];
    }
  }

  /** After a semi-gradient update, the estimate of the same feature vector
      moves by alpha * delta times the squared norm of the features: it never
      moves against the sign of alpha * delta. */
  lemma {:induction false} SemiGradientMovesQTowardTarget(w: seq<real>, f: seq<real>, delta: real, alpha: real)
    requires |w| <= |f|
    ensures Dot(SemiGradientUpdate(w, f, delta, alpha), f) == Dot(w, f) + alpha * delta * SquaresTo(f, |w|)
    ensures alpha * delta >= 0.0 ==> Dot(SemiGradientUpdate(w, f, delta, alpha), f) >= Dot(w, f)
    ensures alpha * delta <= 0.0 ==> Dot(SemiGradientUpdate(w, f, delta, alpha), f) <= Dot(w, f)
    decreases |w|
  {
    if |w| > 0 {
      var n := |w| - 1;
      var u := SemiGradientUpdate(w, f, delta, alpha);
      assert u[..n] == SemiGradientUpdate(w[..n], f, delta, alpha);
      SemiGradientMovesQTowardTarget(w[..n], f, delta, alpha);
      assert u[n] * f[n] == w[n] * f[n] + alpha * delta * (f[n] * f[n]);
    }
    var c := alpha * delta;
    var s := SquaresTo(f, |w|);
    if c >= 0.0 {
      assert c * s >= 0.0;
    } else {
      assert c * s <= 0.0;
    }
  }

  /** The initial weights: nextDouble() * 2 - 1 for each of the nine features,
      each drawn independently; every weight lies strictly between -1 and 1. */
  function InitialWeights(draws: nat -> Draw): (w: seq<real>)
    ensures |w| == NumFeatures
    ensures forall i :: 0 <= i < |w| ==> -1.0 < w[i] < 1.0
  {
    seq(NumFeatures, i requires 0 <= i < NumFeatures => draws(i) * 2.0 - 1.0)
  }
}
