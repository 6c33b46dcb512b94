// cpp/CycleStartDetectorTest.cpp: the templated test detector. `produce`
// writes received samples and their times into a ring; `consume` waits for
// a block, correlates it with a Zadoff-Chu reference, tests the largest
// correlation against the mean, searches for peaks and, from their number
// and position, discards the block, keeps part of it for the next round, or
// reports the time of the last peak.
module CppCsdTest {
  import opened Common
  import Stats
  import C = CppCycleStartDetection

  /** MAX_MEAN_RATIO_THRESHOLD. */
  const MaxMeanRatioThreshold: real := 100.0

  /** findPeaks is called with 0.7 of the largest correlation (written as a
      literal below) and this separation. */
  const MinPeakSep: int := 20

  // ---------------------------------------------------------------- the reference

  /** generateZadoffChuSequence: e^{−iπ·m·n·(n + 1)/N}. */
  function TestZfc(n: nat, m: nat): (r: seq<Complex>)
    ensures |r| == n
  {
    seq(n, k requires 0 <= k < n => Polar(1.0, ZfcPhase(n, m, k)))
  }

  function ZfcPhase(n: nat, m: nat, k: nat): real
    requires k < n
  {
    -(Pi * (m * k * (k + 1)) as real) / n as real
  }

  method GenerateZadoffChuSequence(n: nat, m: nat) returns (sequence: seq<Complex>)
    ensures sequence == TestZfc(n, m)
  {
    var a := new Complex[n](_ => Zero);
    var k := 0;
    while k < n
      invariant 0 <= k <= n
      invariant forall j :: 0 <= j < k ==> a[j] == TestZfc(n, m)[j]
    {
      var phase := ZfcPhase(n, m, k);
      a[k] := Polar(1.0, phase);
      k := k + 1;
    }
    sequence := a[..];
  }

  // ---------------------------------------------------------------- the correlation

  /** The ring slot that the inner loop multiplies with zfc[j] at offset i.
      As written it is (front + i) % capacity for every j; the evident
      intent is the sliding window (front + i + j) % capacity. */
  function SampleIndex(front: nat, cap: nat, i: nat, j: nat, fixed: bool): (k: nat)
    requires cap > 0
    ensures k < cap
  {
    if fixed then (front + i + j) % cap else (front + i) % cap
  }

  /** The inner sum after m reference values. */
  function CorrSum(buf: seq<Complex>, front: nat, cap: nat, zfc: seq<Complex>, i: nat, m: nat, fixed: bool): Complex
    requires 0 < cap == |buf| && m <= |zfc|
  {
    if m == 0 then Zero
    else Add(CorrSum(buf, front, cap, zfc, i, m - 1, fixed),
             Mul(buf[SampleIndex(front, cap, i, m - 1, fixed)], C.Conj(zfc[m - 1])))
  }

  /** Σ_{j<m} conj(zfc[j]). */
  function ConjSum(zfc: seq<Complex>, m: nat): Complex
    requires m <= |zfc|
  {
    if m == 0 then Zero else Add(ConjSum(zfc, m - 1), C.Conj(zfc[m - 1]))
  }

  /** Σ_{j<m} |zfc[j]|². */
  function NormSum(zfc: seq<Complex>, m: nat): real
    requires m <= |zfc|
  {
    if m == 0 then 0.0 else NormSum(zfc, m - 1) + Norm(zfc[m - 1])
  }

  lemma MulAddRight(s: Complex, a: Complex, b: Complex)
    ensures Add(Mul(s, a), Mul(s, b)) == Mul(s, Add(a, b))
  {
    assert s.re * a.re + s.re * b.re == s.re * (a.re + b.re);
    assert s.im * a.im + s.im * b.im == s.im * (a.im + b.im);
    assert s.re * a.im + s.re * b.im == s.re * (a.im + b.im);
    assert s.im * a.re + s.im * b.re == s.im * (a.re + b.re);
  }

  lemma MulConjSelf(z: Complex)
    ensures Mul(z, C.Conj(z)) == Complex(Norm(z), 0.0)
  {
    assert z.im * -z.im == -(z.im * z.im);
    assert z.re * -z.im + z.im * z.re == 0.0;
  }

  /** As written, offset i multiplies one sample with the whole reference:
      the correlation is that sample times conj(Σ zfc), whatever the ring
      holds around it. */
  lemma {:induction false} OneSampleCorrelation(buf: seq<Complex>, front: nat, cap: nat, zfc: seq<Complex>, i: nat, m: nat)
    requires 0 < cap == |buf| && m <= |zfc|
    ensures CorrSum(buf, front, cap, zfc, i, m, false) == Mul(buf[(front + i) % cap], ConjSum(zfc, m))
  {
    var s := buf[(front + i) % cap];
    if m == 0 {
      assert Mul(s, Zero) == Zero;
    } else {
      OneSampleCorrelation(buf, front, cap, zfc, i, m - 1);
      MulAddRight(s, ConjSum(zfc, m - 1), C.Conj(zfc[m - 1]));
    }
  }

  /** As written, a reference whose conjugates sum to zero correlates to
      zero at every offset, whatever the ring holds. */
  lemma BalancedReferenceCancels(buf: seq<Complex>, front: nat, cap: nat, zfc: seq<Complex>, i: nat)
    requires 0 < cap == |buf| && ConjSum(zfc, |zfc|) == Zero
    ensures CorrSum(buf, front, cap, zfc, i, |zfc|, false) == Zero
  {
    OneSampleCorrelation(buf, front, cap, zfc, i, |zfc|);
    MulZeroRight(buf[(front + i) % cap]);
  }

  /** A reference [z, −z], such as [1, −1], is balanced and has energy
      2·|z|². */
  lemma PairFacts(zfc: seq<Complex>)
    requires IsPair(zfc)
    ensures ConjSum(zfc, 2) == Zero && NormSum(zfc, 2) == 2.0 * Norm(zfc[0])
  {
    var a := zfc[0];
    assert ConjSum(zfc, 1) == Complex(a.re, -a.im);
    assert NormSum(zfc, 1) == Norm(a);
    assert (-a.re) * (-a.re) == a.re * a.re && (-a.im) * (-a.im) == a.im * a.im;
  }

  /** A reference of two opposite values [z, −z]. */
  predicate IsPair(zfc: seq<Complex>)
  {
    |zfc| == 2 && zfc[1] == Complex(-zfc[0].re, -zfc[0].im)
  }

  /** A ring of two slots read from slot 0 presents its own contents to the
      sliding window. */
  lemma PairWindow(buf: seq<Complex>)
    requires |buf| == 2
    ensures forall j :: 0 <= j < 2 ==> buf[SampleIndex(0, 2, 0, j, true)] == buf[j]
  {
    assert SampleIndex(0, 2, 0, 0, true) == 0;
    assert SampleIndex(0, 2, 0, 1, true) == 1;
  }

  /** A non-zero reference [z, −z] (such as [1, −1]) in a ring that holds
      exactly it: as written the correlation at offset 0 is zero, the
      sliding window gives the energy 2·|z|². */
  lemma SameSampleCorrelation(zfc: seq<Complex>)
    requires IsPair(zfc) && Norm(zfc[0]) > 0.0
    ensures CorrSum(zfc, 0, 2, zfc, 0, 2, false) == Zero
    ensures CorrSum(zfc, 0, 2, zfc, 0, 2, true) == Complex(2.0 * Norm(zfc[0]), 0.0)
    ensures CorrSum(zfc, 0, 2, zfc, 0, 2, false) != CorrSum(zfc, 0, 2, zfc, 0, 2, true)
  {
    PairFacts(zfc);
    BalancedReferenceCancels(zfc, 0, 2, zfc, 0);
    PairWindow(zfc);
    MatchedCorrelation(zfc, 0, 2, zfc, 0, 2);
  }

  lemma MulZeroRight(a: Complex)
    ensures Mul(a, Zero) == Zero
  {
  }



  /** Corrected, a window that holds the reference correlates to the
      reference's energy Σ |zfc[j]|², a real number: the matched-filter
      peak the detector looks for. */
  lemma {:induction false} MatchedCorrelation(buf: seq<Complex>, front: nat, cap: nat, zfc: seq<Complex>, i: nat, m: nat)
    requires 0 < cap == |buf| && m <= |zfc|
    requires forall j :: 0 <= j < m ==> buf[SampleIndex(front, cap, i, j, true)] == zfc[j]
    ensures CorrSum(buf, front, cap, zfc, i, m, true) == Complex(NormSum(zfc, m), 0.0)
  {
    if m > 0 {
      MatchedCorrelation(buf, front, cap, zfc, i, m - 1);
      MulConjSelf(zfc[m - 1]);
    }
  }

  /** The inner loop, with the sliding window. */
  method CorrelateAt(buf: seq<Complex>, front: nat, cap: nat, zfc: seq<Complex>, i: nat) returns (corr: Complex)
    requires 0 < cap == |buf|
    ensures corr == CorrSum(buf, front, cap, zfc, i, |zfc|, true)
  {
    corr := Zero;
    var j := 0;
    while j < |zfc|
      invariant 0 <= j <= |zfc| && corr == CorrSum(buf, front, cap, zfc, i, j, true)
    {
      corr := Add(corr, Mul(buf[(front + i + j) % cap], C.Conj(zfc[j])));
      j := j + 1;
    }
  }

  /** abs_corr: the magnitude of the correlation at each of n offsets. */
  function AbsCorr(buf: seq<Complex>, front: nat, cap: nat, zfc: seq<Complex>, n: nat): (r: seq<real>)
    requires 0 < cap == |buf|
    ensures |r| == n
  {
    seq(n, i requires 0 <= i < n => Mag(CorrSum(buf, front, cap, zfc, i, |zfc|, true)))
  }

  /** max_corr: the running maximum from 0.0. */
  function RunningMax(xs: seq<real>): (m: real)
    ensures m >= 0.0
    ensures forall i :: 0 <= i < |xs| ==> xs[i] <= m
    ensures m == 0.0 || exists i :: 0 <= i < |xs| && xs[i] == m
  {
    if xs == [] then 0.0
    else
      var p := RunningMax(xs[..|xs| - 1]);
      assert forall i :: 0 <= i < |xs| - 1 ==> xs[..|xs| - 1][i] == xs[i];
      if p < xs[|xs| - 1] then xs[|xs| - 1] else p
  }

  /** The correlation loop: abs_corr, its sum and its maximum. */
  method Correlations(buf: seq<Complex>, front: nat, cap: nat, zfc: seq<Complex>, n: nat)
    returns (abs: seq<real>, sum: real, maxCorr: real)
    requires 0 < cap == |buf|
    ensures abs == AbsCorr(buf, front, cap, zfc, n)
    ensures sum == Stats.Sum(abs) && maxCorr == RunningMax(abs)
  {
    abs, sum, maxCorr := [], 0.0, 0.0;
    var i := 0;
    while i < n
      invariant 0 <= i <= n && abs == AbsCorr(buf, front, cap, zfc, i)
      invariant sum == Stats.Sum(abs) && maxCorr == RunningMax(abs)
    {
      var corr := CorrelateAt(buf, front, cap, zfc, i);
      var absVal := Mag(corr);
      ghost var prev := abs;
      abs := abs + [absVal];
      assert abs[..i] == prev;
      sum := sum + absVal;
      if maxCorr < absVal {
        maxCorr := absVal;
      }
      i := i + 1;
    }
  }

  /** `max_corr / mean_corr > 100` with mean = sum / n. An empty or all-zero
      block makes the quotient NaN, which fails the test. */
  predicate RatioExceeds(maxCorr: real, sum: real, n: nat)
  {
    n > 0 && sum > 0.0 && maxCorr / (sum / n as real) > MaxMeanRatioThreshold
  }

  /** A positive sum of non-negative values has a positive value. */
  lemma {:induction false} PositiveSumHasPositive(xs: seq<real>)
    requires Stats.Sum(xs) > 0.0
    ensures exists i :: 0 <= i < |xs| && xs[i] > 0.0
  {
    var n := |xs| - 1;
    if xs[n] <= 0.0 {
      PositiveSumHasPositive(xs[..n]);
      var i :| 0 <= i < n && xs[..n][i] > 0.0;
      assert xs[i] > 0.0;
    }
  }

  // ---------------------------------------------------------------- findPeaks

  /** findPeaks over the first n values, with an empty vector read as "no
      peak yet": index i is kept when its value exceeds the threshold and it
      lies more than `sep` after the last kept index. */
  function Peaks(xs: seq<real>, thr: real, sep: int, n: nat): (r: seq<nat>)
    requires n <= |xs|
    ensures forall k :: 0 <= k < |r| ==> r[k] < n && xs[r[k]] > thr
  {
    if n == 0 then []
    else
      var p := Peaks(xs, thr, sep, n - 1);
      if xs[n - 1] > thr && (p == [] || n - 1 - p[|p| - 1] > sep) then p + [n - 1] else p
  }

  /** One more value either keeps the peaks or appends its own index. */
  lemma PeaksStep(xs: seq<real>, thr: real, sep: int, n: nat)
    requires 0 < n <= |xs|
    ensures var p := Peaks(xs, thr, sep, n - 1);
            var kept := xs[n - 1] > thr && (p == [] || n - 1 - p[|p| - 1] > sep);
            Peaks(xs, thr, sep, n) == if kept then p + [n - 1] else p
  {
  }

  /** Increasing, with consecutive entries more than `sep` apart. */
  predicate Spaced(r: seq<nat>, sep: int)
  {
    forall a, b :: 0 <= a < b < |r| ==> r[a] < r[b] && r[b] - r[a] > sep
  }

  lemma SpacedAppend(p: seq<nat>, x: nat, sep: int)
    requires Spaced(p, sep) && (p == [] || (p[|p| - 1] < x && x - p[|p| - 1] > sep))
    ensures Spaced(p + [x], sep)
  {
    var r := p + [x];
    forall a, b | 0 <= a < b < |r|
      ensures r[a] < r[b] && r[b] - r[a] > sep
    {
      if b < |p| {
        assert r[a] == p[a] && r[b] == p[b];
      } else if a < |p| - 1 {
        assert r[a] == p[a] && p[a] < p[|p| - 1];
      }
    }
  }

  /** One step of the peak search keeps the spacing: the new index lies
      above the last kept one and, when appended, more than `sep` past it. */
  lemma SpacedStep(p: seq<nat>, q: seq<nat>, x: nat, sep: int, kept: bool)
    requires Spaced(p, sep)
    requires p == [] || p[|p| - 1] < x
    requires kept ==> p == [] || x - p[|p| - 1] > sep
    requires q == if kept then p + [x] else p
    ensures Spaced(q, sep)
  {
    if kept {
      SpacedAppend(p, x, sep);
    }
  }

  /** The peaks are increasing and more than `sep` apart. */
  lemma {:induction false} PeaksSpaced(xs: seq<real>, thr: real, sep: int, n: nat)
    requires n <= |xs|
    ensures Spaced(Peaks(xs, thr, sep, n), sep)
  {
    if n > 0 {
      PeaksSpaced(xs, thr, sep, n - 1);
      PeaksSpacedStep(xs, thr, sep, n, Peaks(xs, thr, sep, n - 1));
    }
  }

  lemma PeaksSpacedStep(xs: seq<real>, thr: real, sep: int, n: nat, p: seq<nat>)
    requires 0 < n <= |xs| && p == Peaks(xs, thr, sep, n - 1) && Spaced(p, sep)
    ensures Spaced(Peaks(xs, thr, sep, n), sep)
  {
    var kept := xs[n - 1] > thr && (p == [] || n - 1 - p[|p| - 1] > sep);
    PeaksStep(xs, thr, sep, n);
    assert p == [] || p[|p| - 1] < n - 1;
    SpacedStep(p, Peaks(xs, thr, sep, n), n - 1, sep, kept);
  }

  /** Nothing above the threshold is skipped unless it lies within `sep`
      after a kept index. */
  lemma {:induction false} PeaksComplete(xs: seq<real>, thr: real, sep: int, n: nat, j: nat)
    requires n <= |xs| && j < n && xs[j] > thr
    requires forall k :: 0 <= k < |Peaks(xs, thr, sep, n)| ==> Peaks(xs, thr, sep, n)[k] != j
    ensures exists k :: 0 <= k < |Peaks(xs, thr, sep, n)| && Peaks(xs, thr, sep, n)[k] < j &&
                        j - Peaks(xs, thr, sep, n)[k] <= sep
  {
    var p := Peaks(xs, thr, sep, n - 1);
    var r := Peaks(xs, thr, sep, n);
    PeaksStep(xs, thr, sep, n);
    if |r| > |p| {
      PeaksCompleteKept(xs, thr, sep, n, j, p, r);
    } else if j == n - 1 {
      assert p != [] && r == p;
      assert r[|p| - 1] < j && j - r[|p| - 1] <= sep;
    } else {
      PeaksComplete(xs, thr, sep, n - 1, j);
    }
  }

  /** The step of PeaksComplete where index n − 1 is kept. */
  lemma {:induction false} PeaksCompleteKept(xs: seq<real>, thr: real, sep: int, n: nat, j: nat,
                                             p: seq<nat>, r: seq<nat>)
    requires 0 < n <= |xs| && j < n && xs[j] > thr
    requires p == Peaks(xs, thr, sep, n - 1) && r == p + [n - 1] && r == Peaks(xs, thr, sep, n)
    requires forall k :: 0 <= k < |r| ==> r[k] != j
    ensures exists k :: 0 <= k < |r| && r[k] < j && j - r[k] <= sep
  {
    assert r[|p|] == n - 1;
    assert forall k :: 0 <= k < |p| ==> p[k] != j by {
      forall k | 0 <= k < |p|
        ensures p[k] != j
      {
        assert r[k] == p[k];
      }
    }
    PeaksComplete(xs, thr, sep, n - 1, j);
    var k :| 0 <= k < |p| && p[k] < j && j - p[k] <= sep;
    assert r[k] == p[k];
  }

  /** A value above the threshold always yields a peak. */
  lemma PeaksNonEmpty(xs: seq<real>, thr: real, sep: int, j: nat)
    requires j < |xs| && xs[j] > thr
    ensures Peaks(xs, thr, sep, |xs|) != []
  {
    var r := Peaks(xs, thr, sep, |xs|);
    if forall k :: 0 <= k < |r| ==> r[k] != j {
      PeaksComplete(xs, thr, sep, |xs|, j);
    }
  }

  /** findPeaks: {0} for an empty abs_corr, otherwise the peaks. */
  method FindPeaks(absCorr: seq<real>, thr: real, sep: int) returns (peaks: seq<nat>)
    ensures absCorr == [] ==> peaks == [0]
    ensures absCorr != [] ==> peaks == Peaks(absCorr, thr, sep, |absCorr|)
  {
    if absCorr == [] {
      return [0];
    }
    peaks := [];
    var i := 0;
    while i < |absCorr|
      invariant 0 <= i <= |absCorr| && peaks == Peaks(absCorr, thr, sep, i)
    {
      if absCorr[i] > thr {
        if peaks == [] || i - peaks[|peaks| - 1] > sep {
          peaks := peaks + [i];
        }
      }
      i := i + 1;
    }
  }

  /** findPeaks as written over the first n values: the first value above
      the threshold takes back() of the still empty vector, which is
      undefined (None). */
  function PeaksAsWritten(xs: seq<real>, thr: real, sep: int, n: nat): Option<seq<nat>>
    requires n <= |xs|
  {
    if n == 0 then Some([])
    else
      match PeaksAsWritten(xs, thr, sep, n - 1)
      case None => None
      case Some(p) =>
        if !(xs[n - 1] > thr) then Some(p)
        else if p == [] then None
        else if n - 1 - p[|p| - 1] > sep then Some(p + [n - 1])
        else Some(p)
  }

  /** Some one of the first n values exceeds the threshold. */
  predicate AnyAbove(xs: seq<real>, thr: real, n: nat)
    requires n <= |xs|
  {
    exists i :: 0 <= i < n && xs[i] > thr
  }

  /** As written no peak is ever kept: a block with a value above the
      threshold reaches the undefined read, any other block gives none. */
  lemma {:induction false} PeaksAsWrittenUndefined(xs: seq<real>, thr: real, sep: int, n: nat)
    requires n <= |xs|
    ensures PeaksAsWritten(xs, thr, sep, n) == if AnyAbove(xs, thr, n) then None else Some([])
  {
    if n > 0 {
      PeaksAsWrittenUndefined(xs, thr, sep, n - 1);
      if AnyAbove(xs, thr, n - 1) {
        var i :| 0 <= i < n - 1 && xs[i] > thr;
        assert AnyAbove(xs, thr, n);
      } else if xs[n - 1] > thr {
        assert AnyAbove(xs, thr, n);
      }
    }
  }

  // ---------------------------------------------------------------- correlation_operation

  /** max_element. */
  function MaxNat(xs: seq<nat>): (m: nat)
    ensures forall k :: 0 <= k < |xs| ==> xs[k] <= m
    ensures xs != [] ==> exists k :: 0 <= k < |xs| && xs[k] == m
  {
    if xs == [] then 0
    else
      var p := MaxNat(xs[..|xs| - 1]);
      assert forall k :: 0 <= k < |xs| - 1 ==> xs[..|xs| - 1][k] == xs[k];
      if p < xs[|xs| - 1] then xs[|xs| - 1] else p
  }

  /** The verdict from the peaks of a block of n offsets: (0, 0) without a
      peak; (−1, first) for one peak; with fewer than R_zfc peaks (−1, first)
      when the largest lies within a reference length of the block's end
      and (0, first) otherwise; (1, last) once all R_zfc peaks are seen. */
  function Verdict(peaks: seq<nat>, n: nat, rZfc: nat, nZfc: nat): (r: (int, nat))
    requires forall k :: 0 <= k < |peaks| ==> peaks[k] < n
    ensures r.0 == 1 <==> |peaks| >= 2 && |peaks| >= rZfc
    ensures r.0 == 1 ==> r.1 == peaks[|peaks| - 1]
    ensures r.0 == -1 ==> peaks != [] && r.1 == peaks[0] && (|peaks| == 1 || n - MaxNat(peaks) < nZfc)
    ensures r.0 == 0 ==> (peaks == [] && r.1 == 0) || (2 <= |peaks| < rZfc && n - MaxNat(peaks) >= nZfc && r.1 == peaks[0])
    ensures r.1 == 0 || r.1 < n
  {
    if |peaks| == 0 then (0, 0)
    else if |peaks| < 2 then (-1, peaks[0])
    else if |peaks| < rZfc then
      (if n - MaxNat(peaks) < nZfc then (-1, peaks[0]) else (0, peaks[0]))
    else (1, peaks[|peaks| - 1])
  }

  /** correlation_operation on a block's abs_corr, given its sum and its
      largest value. */
  function Decision(abs: seq<real>, sum: real, maxCorr: real, rZfc: nat, nZfc: nat): (r: (int, nat))
    ensures r.1 == 0 || r.1 < |abs|
  {
    if !RatioExceeds(maxCorr, sum, |abs|) then (0, 0)
    else Verdict(Peaks(abs, 0.7 * maxCorr, MinPeakSep, |abs|), |abs|, rZfc, nZfc)
  }

  /** The decision part of correlation_operation, from abs_corr with its
      sum and maximum. */
  method Decide(abs: seq<real>, sum: real, maxCorr: real, rZfc: nat, nZfc: nat) returns (v: (int, nat))
    ensures v == Decision(abs, sum, maxCorr, rZfc, nZfc)
  {
    if !RatioExceeds(maxCorr, sum, |abs|) {
      return (0, 0);
    }
    v := DecideOnPeaks(abs, maxCorr, rZfc, nZfc);
  }

  /** The verdict of a block that has passed the ratio test. */
  method DecideOnPeaks(abs: seq<real>, maxCorr: real, rZfc: nat, nZfc: nat) returns (v: (int, nat))
    requires abs != []
    ensures v == Verdict(Peaks(abs, 0.7 * maxCorr, MinPeakSep, |abs|), |abs|, rZfc, nZfc)
  {
    var thr := 0.7 * maxCorr;
    var peaks := FindPeaks(abs, thr, MinPeakSep);
    assert peaks == Peaks(abs, 0.7 * maxCorr, MinPeakSep, |abs|);
    v := Verdict(peaks, |abs|, rZfc, nZfc);
  }

  /** A block that passes the max/mean test (which needs a positive sum)
      has a peak above 0.7 of its maximum, so the "no peak" verdict after
      the test cannot occur; as written the same block reaches the
      undefined back() of findPeaks. */
  lemma PassingBlockHasPeak(abs: seq<real>, thr: real)
    requires Stats.Sum(abs) > 0.0 && thr == 0.7 * RunningMax(abs)
    ensures Peaks(abs, thr, MinPeakSep, |abs|) != []
    ensures PeaksAsWritten(abs, thr, MinPeakSep, |abs|).None?
  {
    var k := MaxAboveFraction(abs);
    AboveThresholdHasPeak(abs, thr, k);
  }

  /** With a positive sum the maximum is positive and so exceeds its own
      fraction. */
  lemma MaxAboveFraction(abs: seq<real>) returns (k: nat)
    requires Stats.Sum(abs) > 0.0
    ensures k < |abs| && abs[k] > 0.7 * RunningMax(abs)
  {
    var m := RunningMax(abs);
    PositiveSumHasPositive(abs);
    var i :| 0 <= i < |abs| && abs[i] > 0.0;
    assert m > 0.0;
    k :| 0 <= k < |abs| && abs[k] == m;
  }

  /** A value above the threshold yields a peak, and as written the
      undefined read. */
  lemma AboveThresholdHasPeak(abs: seq<real>, thr: real, k: nat)
    requires k < |abs| && abs[k] > thr
    ensures Peaks(abs, thr, MinPeakSep, |abs|) != []
    ensures PeaksAsWritten(abs, thr, MinPeakSep, |abs|).None?
  {
    assert AnyAbove(abs, thr, |abs|);
    PeaksNonEmpty(abs, thr, MinPeakSep, k);
    PeaksAsWrittenUndefined(abs, thr, MinPeakSep, |abs|);
  }


  // ---------------------------------------------------------------- consume

  /** The time consume reports: for verdict 1 that of the sample at the
      last peak, counted from the front of the ring, and 0 otherwise. */
  function PeakTime(timer: seq<real>, front: Size, cap: Size, v: (int, nat)): (t: real)
    requires 0 < cap && |timer| == cap
    ensures v.0 == 1 ==> t in timer
    ensures v.0 != 1 ==> t == 0.0
  {
    if v.0 == 1 then timer[(front + v.1) % cap] else 0.0
  }

  /** The ring update of consume for a verdict (v, peak): front and
      num_produced afterwards. Verdict 0 drops all but max_sample_size of
      the block; 1 empties the count; −1 drops the samples before
      2·N_zfc ahead of the first peak. As written that difference is taken
      in size_t, where std::max with 0 changes nothing and a peak earlier
      than 2·N_zfc wraps, and front is not reduced modulo the capacity; the
      corrected form clamps at zero and reduces. */
  function Settle(front: Size, np: Size, cap: Size, ncons: Size, maxS: Size, nZfc: Size,
                  v: int, peak: Size, fixed: bool): (r: (Size, Size))
    requires cap > 0
    ensures fixed && front < cap ==> r.0 < cap
  {
    if v == 0 then (SizeSub(SizeAdd(front, ncons), maxS) % cap, SizeSub(np, SizeSub(ncons, maxS)))
    else if v == -1 then
      if fixed then
        var remove := if peak >= 2 * nZfc then peak - 2 * nZfc else 0;
        ((front + remove) % cap, SizeSub(np, remove))
      else
        var remove := SizeSub(peak, C.SizeMul(2, nZfc));
        (SizeAdd(front, remove), SizeSub(np, remove))
    else if v == 1 then (front, 0)
    else (front, np)
  }

  /** Verdict 0 keeps the ring consistent: with max_sample_size ≤ block ≤
      count ≤ capacity, front moves on by block − max_sample_size and the
      count goes down by as much. */
  lemma DiscardKeepsRing(front: Size, rear: Size, np: Size, cap: Size, ncons: Size, maxS: Size, nZfc: Size, peak: Size)
    requires 0 < cap && 2 * cap <= SizeModulus && front < cap && rear < cap
    requires maxS <= ncons <= np <= cap && C.Consistent(front, rear, np, cap)
    ensures var r := Settle(front, np, cap, ncons, maxS, nZfc, 0, peak, true);
            r.0 < cap && r.1 == np - (ncons - maxS) && C.Consistent(r.0, rear, r.1, cap)
  {
    var d := ncons - maxS;
    var r := Settle(front, np, cap, ncons, maxS, nZfc, 0, peak, true);
    assert r.0 == (front + d) % cap;
    ModWrap(front + d, cap);
    ModWrap(front + np, cap);
    ModWrap(r.0 + (np - d), cap);
  }

  /** Corrected, verdict −1 keeps the ring consistent: the samples dropped
      lie before the first peak, which lies inside the counted block. */
  lemma RewindKeepsRing(front: Size, rear: Size, np: Size, cap: Size, ncons: Size, maxS: Size, nZfc: Size, peak: Size)
    requires 0 < cap && 2 * cap <= SizeModulus && front < cap && rear < cap
    requires peak <= np <= cap && C.Consistent(front, rear, np, cap)
    ensures var r := Settle(front, np, cap, ncons, maxS, nZfc, -1, peak, true);
            r.0 < cap && r.1 <= np && C.Consistent(r.0, rear, r.1, cap)
  {
    var d := if peak >= 2 * nZfc then peak - 2 * nZfc else 0;
    var r := Settle(front, np, cap, ncons, maxS, nZfc, -1, peak, true);
    assert r == ((front + d) % cap, np - d);
    ModWrap(front + d, cap);
    ModWrap(front + np, cap);
    ModWrap(r.0 + (np - d), cap);
  }

  /** As written, a first peak at 5 with N_zfc = 10 in a ring of 24 holding
      12 samples from slot 0 wraps: front jumps to 2^64 − 15 and the count
      grows to 27, above the capacity and out of step with rear. */
  lemma RewindAsWrittenBreaksRing()
    ensures var r := Settle(0, 12, 24, 12, 4, 10, -1, 5, false);
            C.Consistent(0, 12, 12, 24) && r.0 >= 24 && r.1 == 27 && !C.Consistent(r.0, 12, r.1, 24)
  {
    var r := Settle(0, 12, 24, 12, 4, 10, -1, 5, false);
    assert r.0 == SizeModulus - 15;
    assert (SizeModulus - 15 + 27) % 24 == 4;
  }

  // ---------------------------------------------------------------- the detector

  /** The ring update of consume for a verdict: the corrected Settle, and
      for verdict 1 the time of the sample at the last peak. */
  method SettleRing(timer: seq<real>, front: Size, np: Size, cap: Size, ncons: Size, maxS: Size,
                    nZfc: Size, v: (int, nat)) returns (newFront: Size, newNp: Size, time: real)
    requires 0 < cap && |timer| == cap && front < cap && v.1 < SizeModulus
    ensures (newFront, newNp) == Settle(front, np, cap, ncons, maxS, nZfc, v.0, v.1, true)
    ensures newFront < cap
    ensures time == PeakTime(timer, front, cap, v)
  {
    var r := Settle(front, np, cap, ncons, maxS, nZfc, v.0, v.1, true);
    newFront, newNp := r.0, r.1;
    if v.0 == 1 {
      time := timer[(front + v.1) % cap];
    } else {
      time := 0.0;
    }
  }

  class CycleStartDetector {
    const capacity: Size
    const maxSampleSize: Size
    const sampleDuration: real
    const numSampConsume: Size
    const nZfc: Size
    const mZfc: Size
    const rZfc: Size
    const zfcSeq: seq<Complex>
    var samplesBuffer: seq<Complex>
    var timer: seq<real>
    var absCorr: seq<real>
    var front: Size
    var rear: Size
    var numProduced: Size

    ghost predicate Valid()
      reads this
    {
      0 < capacity && |samplesBuffer| == capacity && |timer| == capacity &&
      front < capacity && rear < capacity && |absCorr| == numSampConsume
    }

    /** The constructor: buffers of `capacity` default values, abs_corr of
        num_samp_consume zeros, an empty ring and the reference of N_zfc
        values. A zero capacity would make every `%` undefined. */
    constructor(capacity: Size, maxSampleSize: Size, sampleDuration: real, numSampConsume: Size,
                nZfc: Size, mZfc: Size, rZfc: Size)
      requires capacity > 0
      ensures Valid()
      ensures this.capacity == capacity && this.maxSampleSize == maxSampleSize
      ensures this.sampleDuration == sampleDuration && this.numSampConsume == numSampConsume
      ensures this.nZfc == nZfc && this.mZfc == mZfc && this.rZfc == rZfc
      ensures samplesBuffer == Zeros(capacity) && timer == seq(capacity, _ => 0.0)
      ensures absCorr == seq(numSampConsume, _ => 0.0)
      ensures front == 0 && rear == 0 && numProduced == 0
      ensures zfcSeq == TestZfc(nZfc, mZfc)
    {
      this.capacity := capacity;
      this.maxSampleSize := maxSampleSize;
      this.sampleDuration := sampleDuration;
      this.numSampConsume := numSampConsume;
      this.nZfc := nZfc;
      this.mZfc := mZfc;
      this.rZfc := rZfc;
      samplesBuffer := Zeros(capacity);
      timer := seq(capacity, _ => 0.0);
      absCorr := seq(numSampConsume, _ => 0.0);
      front, rear, numProduced := 0, 0, 0;
      var z := GenerateZadoffChuSequence(nZfc, mZfc);
      zfcSeq := z;
    }

    /** produce: once `capacity − num_produced ≥ max_sample_size` in size_t
        (the wait is the precondition), every sample goes to the ring from
        rear with successive times, and num_produced grows by their number.
        The file copy is left out. */
    method Produce(samples: seq<Complex>, time: real)
      requires Valid() && SizeSub(capacity, numProduced) >= maxSampleSize && |samples| < SizeModulus
      modifies this`samplesBuffer, this`timer, this`rear, this`numProduced
      ensures Valid()
      ensures samplesBuffer == C.RingWriteFrom(old(samplesBuffer), old(rear), capacity, samples, 0, |samples|)
      ensures timer == C.RingWriteFrom(old(timer), old(rear), capacity, C.SampleTimes(time, sampleDuration, |samples|), 0, |samples|)
      ensures rear == C.Advance(old(rear), |samples|, capacity)
      ensures numProduced == SizeAdd(old(numProduced), |samples|)
      ensures old(C.Consistent(front, rear, numProduced, capacity)) && old(numProduced) + |samples| <= capacity ==>
                C.Consistent(front, rear, numProduced, capacity)
    {
      var b, t, r := C.FillRing(samplesBuffer, timer, rear, capacity, samples, |samples|, time, sampleDuration);
      if C.Consistent(front, rear, numProduced, capacity) && numProduced + |samples| <= capacity {
        C.ProduceKeepsConsistency(front, rear, numProduced, capacity, |samples|);
      }
      samplesBuffer, timer, rear := b, t, r;
      numProduced := SizeAdd(numProduced, |samples|);
    }

    /** correlation_operation: fills abs_corr with the block's correlation
        magnitudes (with the sliding window) and returns the verdict. */
    method CorrelationOperation() returns (v: (int, nat))
      requires Valid()
      modifies this`absCorr
      ensures Valid()
      ensures absCorr == AbsCorr(samplesBuffer, front, capacity, zfcSeq, numSampConsume)
      ensures v == Decision(absCorr, Stats.Sum(absCorr), RunningMax(absCorr), rZfc, nZfc)
    {
      var abs, sum, maxCorr := Correlations(samplesBuffer, front, capacity, zfcSeq, numSampConsume);
      absCorr := abs;
      v := Decide(abs, sum, maxCorr, rZfc, nZfc);
    }

    /** consume: once a block has been produced (the wait is the
        precondition), the verdict of correlation_operation moves the ring;
        verdict 1 reports the time of the last peak. The −1 branch is the
        corrected one. */
    method Consume() returns (detected: bool, time: real, ghost verdict: (int, nat))
      requires Valid() && numProduced >= numSampConsume
      modifies this`absCorr, this`front, this`numProduced
      ensures Valid()
      ensures absCorr == AbsCorr(samplesBuffer, old(front), capacity, zfcSeq, numSampConsume)
      ensures verdict == Decision(absCorr, Stats.Sum(absCorr), RunningMax(absCorr), rZfc, nZfc)
      ensures (front, numProduced) ==
                Settle(old(front), old(numProduced), capacity, numSampConsume, maxSampleSize, nZfc, verdict.0, verdict.1, true)
      ensures detected == (verdict.0 == 1)
      ensures time == PeakTime(timer, old(front), capacity, verdict)
    {
      var v := CorrelationOperation();
      verdict := v;
      front, numProduced, time := SettleRing(timer, front, numProduced, capacity, numSampConsume, maxSampleSize, nZfc, v);
      detected := v.0 == 1;
    }
  }
}
