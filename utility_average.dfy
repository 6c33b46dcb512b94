// averageAbsoluteValue of lib_utils/Utility.cpp: a mean of magnitudes in
// which those above a positive threshold add nothing but still count.
module UtilityAverage {
  import opened Common

  /** The magnitudes the sum keeps: every one when the threshold is not
      positive, else those not above it. */
  predicate Counted(a: real, threshold: real)
  {
    !(threshold > 0.0 && a > threshold)
  }

  function ClippedSum(vec: seq<Complex>, threshold: real): real
  {
    if vec == [] then 0.0
    else ClippedSum(vec[..|vec| - 1], threshold)
         + (if Counted(Mag(vec[|vec| - 1]), threshold) then Mag(vec[|vec| - 1]) else 0.0)
  }

  /** The plain sum of magnitudes. */
  function MagSum(vec: seq<Complex>): real
  {
    if vec == [] then 0.0 else MagSum(vec[..|vec| - 1]) + Mag(vec[|vec| - 1])
  }

  /** averageAbsoluteValue: 0 for an empty input, else the kept sum over the
      whole input length. */
  method AverageAbsoluteValue(vec: seq<Complex>, threshold: real) returns (r: real)
    ensures vec == [] ==> r == 0.0
    ensures vec != [] ==> r == ClippedSum(vec, threshold) / |vec| as real
  {
    var sum := 0.0;
    var i := 0;
    while i < |vec|
      invariant 0 <= i <= |vec|
      invariant sum == ClippedSum(vec[..i], threshold)
    {
      assert vec[..i + 1][..i] == vec[..i];
      var a := Mag(vec[i]);
      if threshold > 0.0 && a > threshold {
        i := i + 1;
        continue;
      }
      sum := sum + a;
      i := i + 1;
    }
    assert vec[..|vec|] == vec;
    r := if vec == [] then 0.0 else sum / |vec| as real;
  }

  /** With a threshold that is not positive, nothing is left out. */
  lemma {:induction false} NoThresholdIsPlainSum(vec: seq<Complex>, threshold: real)
    requires threshold <= 0.0
    ensures ClippedSum(vec, threshold) == MagSum(vec)
  {
    if vec != [] {
      NoThresholdIsPlainSum(vec[..|vec| - 1], threshold);
    }
  }

  /** Each term lies in [0, threshold], so the sum lies in [0, n·threshold]. */
  lemma {:induction false} ClippedSumBounds(vec: seq<Complex>, threshold: real)
    requires threshold > 0.0
    ensures 0.0 <= ClippedSum(vec, threshold) <= threshold * |vec| as real
  {
    if vec != [] {
      ClippedSumBounds(vec[..|vec| - 1], threshold);
    }
  }

  /** For a non-empty input and a positive threshold the average lies in
      [0, threshold]. */
  lemma AverageWithinThreshold(vec: seq<Complex>, threshold: real)
    requires vec != [] && threshold > 0.0
    ensures 0.0 <= ClippedSum(vec, threshold) / |vec| as real <= threshold
  {
    ClippedSumBounds(vec, threshold);
    var n := |vec| as real;
    var s := ClippedSum(vec, threshold);
    assert s / n * n == s;
  }
}
