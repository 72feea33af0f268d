/**
  Weighted choice over a label list, as numpy's `choice(labels, p=weights)`
  makes it: the cumulative weights are searched for the first position whose
  cumulative weight exceeds the uniform draw. Weights are integer hundredths
  and the draw `u` is a hundredth in [0, Sum(weights)), so no floating point
  is involved. A label may occur at several positions; its effective weight
  is then the sum of the weights at all of them.
 */
module WeightedChoice {

  function Sum(weights: seq<nat>): nat {
    if weights == [] then 0 else weights[0] + Sum(weights[1..])
  }

  /** The label picked by the draw `u`. */
  function Choose<T>(labels: seq<T>, weights: seq<nat>, u: nat): (x: T)
    requires |labels| == |weights| && u < Sum(weights)
    ensures x in labels
  {
    if u < weights[0] then labels[0]
    else Choose(labels[1..], weights[1..], u - weights[0])
  }

  /** The total weight of the positions that hold `x`. */
  function EffectiveWeight<T(==)>(labels: seq<T>, weights: seq<nat>, x: T): nat
    requires |labels| == |weights|
  {
    if labels == [] then 0
    else (if labels[0] == x then weights[0] else 0) + EffectiveWeight(labels[1..], weights[1..], x)
  }

  /** How many of the draws 0, 1, ..., n-1 pick `x`. */
  function Hits<T(==)>(labels: seq<T>, weights: seq<nat>, x: T, n: nat): nat
    requires |labels| == |weights| && n <= Sum(weights)
  {
    if n == 0 then 0
    else Hits(labels, weights, x, n - 1) + (if Choose(labels, weights, n - 1) == x then 1 else 0)
  }

  /** Every draw below the first weight picks the first label. */
  lemma {:induction false} HitsBelowFirst<T>(labels: seq<T>, weights: seq<nat>, x: T, n: nat)
    requires |labels| == |weights| && |weights| > 0 && n <= weights[0]
    ensures Hits(labels, weights, x, n) == if labels[0] == x then n else 0
  {
    if n > 0 {
      HitsBelowFirst(labels, weights, x, n - 1);
    }
  }

  /** Draws at or above the first weight behave as the shifted draw on the tail. */
  lemma {:induction false} HitsShift<T>(labels: seq<T>, weights: seq<nat>, x: T, n: nat)
    requires |labels| == |weights| && |weights| > 0 && weights[0] <= n <= Sum(weights)
    ensures Hits(labels, weights, x, n)
         == (if labels[0] == x then weights[0] else 0) + Hits(labels[1..], weights[1..], x, n - weights[0])
  {
    if n == weights[0] {
      HitsBelowFirst(labels, weights, x, n);
    } else {
      HitsShift(labels, weights, x, n - 1);
    }
  }

  /** The number of draws in [0, Sum(weights)) that pick `x` is exactly the
      effective weight of `x`: the probability of a label is the sum of the
      weights at every position holding it. */
  lemma {:induction false} ChoiceFrequency<T>(labels: seq<T>, weights: seq<nat>, x: T)
    requires |labels| == |weights|
    ensures Hits(labels, weights, x, Sum(weights)) == EffectiveWeight(labels, weights, x)
  {
    if labels != [] {
      HitsShift(labels, weights, x, Sum(weights));
      ChoiceFrequency(labels[1..], weights[1..], x);
    }
  }

  /** A label that occurs nowhere is never picked. */
  lemma {:induction false} AbsentLabelWeight<T>(labels: seq<T>, weights: seq<nat>, x: T)
    requires |labels| == |weights| && x !in labels
    ensures EffectiveWeight(labels, weights, x) == 0
  {
    if labels != [] {
      AbsentLabelWeight(labels[1..], weights[1..], x);
    }
  }
}
