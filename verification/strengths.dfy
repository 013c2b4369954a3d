/** Breakout strength: the ratio of the final body to the largest earlier
    body, or infinity when every earlier body is flat. Python compares these
    as floats, where `inf` sits above every finite value and equals itself. */
module Strengths {

  datatype Strength = Finite(ratio: real) | Infinite

  /** `a >= b` on strengths. */
  predicate AtLeast(a: Strength, b: Strength)
  {
    match a
    case Infinite => true
    case Finite(x) => b.Finite? && x >= b.ratio
  }

  /** `a > b` on strengths. */
  predicate Above(a: Strength, b: Strength)
  {
    !AtLeast(b, a)
  }

  /** Real division; kept behind a name so that proofs about records that
      store quotients compare the quotients without redoing arithmetic. */
  function Ratio(a: real, b: real): real
    requires b != 0.0
  {
    a / b
  }

  /** The strength recorded for a window whose final body `lastDelta`
      strictly exceeds the largest earlier absolute body `maxAbsDelta`:
      `|lastDelta| / maxAbsDelta` when that maximum is positive, infinity
      otherwise. A finite strength is therefore always above 1. */
  function StrengthOf(lastDelta: real, maxAbsDelta: real): (s: Strength)
    requires maxAbsDelta >= 0.0
    requires lastDelta > maxAbsDelta
    ensures s.Finite? <==> maxAbsDelta > 0.0
    ensures s.Finite? ==> s.ratio == Ratio(lastDelta, maxAbsDelta) && s.ratio > 1.0
  {
    if maxAbsDelta > 0.0 then
      var r := (if lastDelta >= 0.0 then lastDelta else -lastDelta) / maxAbsDelta;
      assert r * maxAbsDelta == lastDelta;
      Finite(r)
    else Infinite
  }

  /** `AtLeast` is a total preorder whose only ties are equal values. */
  lemma AtLeastTotalOrder(a: Strength, b: Strength, c: Strength)
    ensures AtLeast(a, a)
    ensures AtLeast(a, b) || AtLeast(b, a)
    ensures AtLeast(a, b) && AtLeast(b, a) ==> a == b
    ensures AtLeast(a, b) && AtLeast(b, c) ==> AtLeast(a, c)
    ensures Above(a, b) <==> AtLeast(a, b) && a != b
  {
  }

  /** Infinity is the top element and nothing is above it. */
  lemma InfiniteIsTop(a: Strength)
    ensures AtLeast(Infinite, a)
    ensures AtLeast(a, Infinite) <==> a == Infinite
  {
  }
}
