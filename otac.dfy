// lib_otac/otac_processor.cpp: over-the-air computation of a sum. Each leaf
// maps its input in [dmin, dmax] to a transmit amplitude, the leaves transmit
// at once, and the central node turns the received power back into the sum
// of the inputs. Also the channel-gain (CTOL) check of the leaf, the
// central node's power detector and the NMSE of the result.
module Otac {
  import opened Common
  import Stats
  import Utility

  // ---------------------------------------------------------------- compute_nmse

  /** The squared relative error (v1 − v2)² / v1². */
  function SqRatio(v1: real, v2: real): (q: NonNeg)
    requires v1 != 0.0
    ensures q * Square(v1) == Square(v1 - v2)
  {
    SquareNonZero(v1);
    DivNonNeg(Square(v1 - v2), Square(v1));
    Square(v1 - v2) / Square(v1)
  }

  /** compute_nmse: sqrt(norm(v1 − v2) / norm(v1)); for v1 = 0 the float
      quotient is infinite or NaN. */
  function ComputeNmse(v1: real, v2: real): (r: Ext)
    ensures r.NonFinite? <==> v1 == 0.0
    ensures r.Fin? ==> r.v >= 0.0
  {
    if v1 == 0.0 then NonFinite else Fin(Sqrt(SqRatio(v1, v2)))
  }

  /** The NMSE vanishes exactly when the output equals the input. */
  lemma NmseZeroIffEqual(v1: real, v2: real)
    requires v1 != 0.0
    requires forall x: NonNeg :: Sqrt(x) == 0.0 <==> x == 0.0
    ensures ComputeNmse(v1, v2) == Fin(0.0) <==> v1 == v2
  {
    var q := SqRatio(v1, v2);
    SquareNonZero(v1);
    if v1 == v2 {
      assert Square(v1 - v2) == 0.0;
      ZeroFactor(q, Square(v1));
    } else {
      SquareNonZero(v1 - v2);
    }
  }

  /** For a square root that squares back, the NMSE is the relative error
      |v1 − v2| / |v1|. */
  lemma NmseIsRelativeError(v1: real, v2: real, e: NonNeg)
    requires v1 != 0.0
    requires forall x: NonNeg :: Sqrt(x) * Sqrt(x) == x
    requires e * (if v1 < 0.0 then -v1 else v1) == (if v1 < v2 then v2 - v1 else v1 - v2)
    ensures ComputeNmse(v1, v2) == Fin(e)
  {
    var q := SqRatio(v1, v2);
    var s := Sqrt(q);
    var m := if v1 < 0.0 then -v1 else v1;
    var d := if v1 < v2 then v2 - v1 else v1 - v2;
    assert Square(m) == Square(v1);
    assert Square(d) == Square(v1 - v2);
    SquareMul(e, m);
    assert e * m == d;
    assert Square(e * m) == Square(d);
    assert Square(e) * Square(m) == Square(e) * Square(v1);
    SquareNonZero(v1);
    assert q * Square(v1) == Square(e) * Square(v1);
    Cancel(q, Square(e), Square(v1));
    assert Square(s) == q;
    SquareUnique(s, e);
  }

  // Real arithmetic the solver does not find unaided. Squares are compared
  // through products of distinct terms, which it handles.

  lemma SquareUnique(s: NonNeg, e: NonNeg)
    requires Square(s) == Square(e)
    ensures s == e
  {
    if s < e {
      SquareMono(s, e);
    } else if e < s {
      SquareMono(e, s);
    }
  }

  lemma SquareMul(a: real, b: real)
    ensures Square(a * b) == Square(a) * Square(b)
  {
  }

  lemma ZeroFactor(q: real, b: real)
    requires b != 0.0 && q * b == 0.0
    ensures q == 0.0
  {
  }

  lemma Cancel(x: real, y: real, b: real)
    requires b != 0.0 && x * b == y * b
    ensures x == y
  {
    assert (x - y) * b == x * b - y * b;
    ZeroFactor(x - y, b);
  }

  lemma MulLe(a: real, b: real, c: real)
    requires a <= b && 0.0 <= c
    ensures a * c <= b * c
  {
    assert b * c - a * c == (b - a) * c;
  }

  lemma MulLt(a: real, b: real, c: real)
    requires a < b && 0.0 < c
    ensures a * c < b * c
  {
    assert b * c - a * c == (b - a) * c;
  }

  lemma ScaleBelow(s: real, f: real)
    requires 0.0 <= s && 0.0 < f <= 1.0
    ensures 0.0 <= s * f <= s
  {
    MulLe(f, 1.0, s);
    assert f * s == s * f;
  }

  /** The affine map of post-processing undoes the channel's scaling. */
  lemma PostInverts(noise: real, m: real, sp: real, dmin: real, dmax: real, n: Size, total: real)
    requires 0.0 < m && Normalises(sp, total, n, dmin, dmax)
    ensures PostValue(noise + m * sp, noise, dmin, dmax, m, n) == total
  {
    var d := dmax - dmin;
    assert (d / m) * m == d;
    assert (m * sp) * (d / m) == sp * d;
    assert noise + m * sp - noise == m * sp;
    assert n as real * dmin == dmin * n as real;
  }

  // ---------------------------------------------------------------- scaling

  /** The full-scale clamp of initialize: a read value outside (0, 1) is
      replaced by 1.0. */
  function ClampFullScale(v: real): (r: real)
    ensures 0.0 < r <= 1.0
    ensures 0.0 < v < 1.0 ==> r == v
    ensures !(0.0 < v < 1.0) ==> r == 1.0
  {
    if v <= 0.0 || v >= 1.0 then 1.0 else v
  }

  /** `std::min<float>(full_scale / sqrt(q), 1.0)` with q = ctol/min_e2e_pow.
      A zero square root makes the positive quotient +inf, which the min
      cuts to 1.0. */
  function PostScaling(fullScale: real, q: NonNeg): (r: real)
    requires fullScale > 0.0
    ensures 0.0 < r <= 1.0
    ensures Sqrt(q) > 0.0 && fullScale <= Sqrt(q) ==> r * Sqrt(q) == fullScale
  {
    var s := Sqrt(q);
    if s == 0.0 then 1.0 else MinReal(fullScale / s, 1.0)
  }

  /** sig_scale: the amplitude for normalised power p, sqrt(p) times the
      post-scaling. It never exceeds sqrt(p). */
  function SigScale(p: NonNeg, fullScale: real, q: NonNeg): (r: real)
    requires fullScale > 0.0
    ensures 0.0 <= r <= Sqrt(p)
  {
    ScaleBelow(Sqrt(p), PostScaling(fullScale, q));
    Sqrt(p) * PostScaling(fullScale, q)
  }

  /** The input's normalised power (x − dmin)/(dmax − dmin): in [0, 1] for
      an input in range. */
  function InputPower(x: real, dmin: real, dmax: real): (p: real)
    requires dmin < dmax
    ensures p * (dmax - dmin) == x - dmin
    ensures dmin <= x <= dmax ==> 0.0 <= p <= 1.0
  {
    UnitQuotient(x - dmin, dmax - dmin);
    (x - dmin) / (dmax - dmin)
  }

  /** a/d lies in [0, 1] when a does in [0, d]. */
  lemma UnitQuotient(a: real, d: real)
    requires d > 0.0
    ensures (a / d) * d == a
    ensures 0.0 <= a <= d ==> 0.0 <= a / d <= 1.0
  {
    var p := a / d;
    if 0.0 <= a <= d {
      if p < 0.0 {
        MulLt(p, 0.0, d);
      }
      if p > 1.0 {
        MulLt(1.0, p, d);
      }
    }
  }

  /** The normalised powers of the leaves' inputs. */
  function Powers(xs: seq<real>, dmin: real, dmax: real): (ps: seq<real>)
    requires dmin < dmax
    ensures |ps| == |xs|
  {
    if xs == [] then [] else Powers(xs[..|xs| - 1], dmin, dmax) + [InputPower(xs[|xs| - 1], dmin, dmax)]
  }

  /** sp·(dmax − dmin) = total − n·dmin. */
  predicate Normalises(sp: real, total: real, n: nat, dmin: real, dmax: real)
  {
    sp * (dmax - dmin) == total - n as real * dmin
  }

  /** The powers, scaled back by dmax − dmin, add up to the inputs' sum less
      n·dmin. */
  lemma {:induction false} PowersSum(xs: seq<real>, dmin: real, dmax: real)
    requires dmin < dmax
    ensures Normalises(Stats.Sum(Powers(xs, dmin, dmax)), Stats.Sum(xs), |xs|, dmin, dmax)
  {
    if xs != [] {
      var init := xs[..|xs| - 1];
      var x := xs[|xs| - 1];
      var ps := Powers(xs, dmin, dmax);
      assert ps[..|ps| - 1] == Powers(init, dmin, dmax);
      PowersSum(init, dmin, dmax);
      NormalisesStep(Stats.Sum(Powers(init, dmin, dmax)), InputPower(x, dmin, dmax), Stats.Sum(init), x, |init|, dmin, dmax);
    }
  }

  /** One more leaf keeps the relation. */
  lemma NormalisesStep(s: real, p: real, total: real, x: real, n: nat, dmin: real, dmax: real)
    requires Normalises(s, total, n, dmin, dmax) && p * (dmax - dmin) == x - dmin
    ensures Normalises(s + p, total + x, n + 1, dmin, dmax)
  {
    assert (s + p) * (dmax - dmin) == s * (dmax - dmin) + p * (dmax - dmin);
  }

  /** otac_pre_processing, over the fields it reads: None (false,
      sig_scale untouched) for an input outside [dmin, dmax]. The second
      range check, on the normalised power, never fails: for dmin < dmax the
      power of an input in range lies in [0, 1], and for dmin = dmax it is
      0/0 = NaN, which passes both comparisons and gives a NaN scale. */
  function PreProcessing(x: real, dmin: real, dmax: real, fullScale: real, ctol: real, minPow: real): (r: Option<Ext>)
    requires 0.0 < fullScale && 0.0 < minPow && 0.0 <= ctol
    ensures r.None? <==> x < dmin || x > dmax
    ensures r.Some? && dmin == dmax ==> r.value == NonFinite
    ensures r.Some? && dmin < dmax ==>
              r.value == Fin(SigScale(InputPower(x, dmin, dmax), fullScale, ctol / minPow))
  {
    DivNonNeg(ctol, minPow);
    if x < dmin || x > dmax then None
    else if dmax == dmin then Some(NonFinite)
    else
      var p := InputPower(x, dmin, dmax);
      if p < 0.0 || p > 1.0 then None
      else Some(Fin(SigScale(p, fullScale, ctol / minPow)))
  }

  /** otac_post_processing's estimate of the inputs' sum from the received
      power. */
  function PostValue(sigPower: real, noisePower: real, dmin: real, dmax: real, minPow: real, numLeafs: Size): real
    requires 0.0 < minPow
  {
    (sigPower - noisePower) * ((dmax - dmin) / minPow) + dmin * numLeafs as real
  }

  /** otac_post_processing, over the fields it reads: the estimate, or None
      (false, out_scale untouched) when it lies outside [dmin·n, dmax·n]. */
  function PostProcessing(sigPower: real, noisePower: real, dmin: real, dmax: real, minPow: real, numLeafs: Size)
    : (r: Option<real>)
    requires 0.0 < minPow
    ensures r.None? <==> PostValue(sigPower, noisePower, dmin, dmax, minPow, numLeafs) < dmin * numLeafs as real ||
                         PostValue(sigPower, noisePower, dmin, dmax, minPow, numLeafs) > dmax * numLeafs as real
    ensures r.Some? ==> r.value == PostValue(sigPower, noisePower, dmin, dmax, minPow, numLeafs)
    ensures r.Some? ==> dmin * numLeafs as real <= r.value <= dmax * numLeafs as real
  {
    var outVal := PostValue(sigPower, noisePower, dmin, dmax, minPow, numLeafs);
    if outVal < dmin * numLeafs as real || outVal > dmax * numLeafs as real then None else Some(outVal)
  }

  /** transmission_otac's scale: anything above full amplitude is cut to 1.0. */
  function ClampScale(scale: real): (r: real)
    ensures r <= 1.0
    ensures scale <= 1.0 ==> r == scale
    ensures scale > 1.0 ==> r == 1.0
  {
    if scale > 1.0 then 1.0 else scale
  }

  // ---------------------------------------------------------------- check_ctol

  /** The RX gain check_ctol leaves behind: unchanged inside the band, and
      outside it the gain corrected by the dB distance to the violated
      bound, rounded down above the band and up below it. */
  function RetunedGain(gain: real, ctol: real, lower: real, upper: real): (g: real)
    requires 0.0 < lower && 0.0 < upper
    ensures lower <= ctol <= upper ==> g == gain
    ensures !(lower <= ctol <= upper) ==> g == g.Floor as real
    ensures ctol > upper ==> gain - ToDecibel(ctol / upper, true) - 1.0 < g <= gain - ToDecibel(ctol / upper, true)
    ensures lower > ctol && ctol <= upper ==>
              gain - ToDecibel(ctol / lower, true) <= g < gain - ToDecibel(ctol / lower, true) + 1.0
  {
    if ctol > upper then Floor(gain - ToDecibel(ctol / upper, true)) as real
    else if ctol < lower then Ceil(gain - ToDecibel(ctol / lower, true)) as real
    else gain
  }

  /** With a logarithm that is positive above 1, a channel above the band
      lowers the gain. */
  lemma RetuneLowersGain(gain: real, ctol: real, lower: real, upper: real)
    requires 0.0 < lower && 0.0 < upper < ctol
    requires forall x :: x > 1.0 ==> Log10(x) > 0.0
    ensures RetunedGain(gain, ctol, lower, upper) < gain
  {
    QuotientAboveOne(ctol, upper);
    assert ToDecibel(ctol / upper, true) > 0.0;
  }

  /** With a logarithm that is negative below 1, a channel below the band
      (and not above it) raises the gain. */
  lemma RetuneRaisesGain(gain: real, ctol: real, lower: real, upper: real)
    requires 0.0 < ctol < lower && ctol <= upper
    requires forall x :: 0.0 < x < 1.0 ==> Log10(x) < 0.0
    ensures RetunedGain(gain, ctol, lower, upper) > gain
  {
    QuotientBelowOne(ctol, lower);
    assert ToDecibel(ctol / lower, true) < 0.0;
  }

  /** As written the retune starts from the stale member gain: with the
      member at 30 dB, a radio already lowered to 23 dB and a ctol just
      above the band (under 1 dB over it), the radio is set back up to
      29 dB. Retuned from the radio's own gain, as with the member stored,
      it goes down to 22 dB, as RetuneLowersGain promises. */
  lemma StaleRxGainRaises(ctol: real, lower: real, upper: real)
    requires 0.0 < lower && 0.0 < upper < ctol
    requires 0.0 < Log10(ctol / upper) < 0.1
    ensures RetunedGain(30.0, ctol, lower, upper) == 29.0 > 23.0
    ensures RetunedGain(23.0, ctol, lower, upper) == 22.0
  {
    var d := ToDecibel(ctol / upper, true);
    assert 0.0 < d < 1.0;
    assert (30.0 - d).Floor == 29;
    assert (23.0 - d).Floor == 22;
  }

  lemma QuotientAboveOne(a: real, b: real)
    requires 0.0 < b < a
    ensures a / b > 1.0
  {
    var r := a / b;
    assert r * b == a;
    if r <= 1.0 {
      MulLe(r, 1.0, b);
    }
  }

  lemma QuotientBelowOne(a: real, b: real)
    requires 0.0 < a < b
    ensures 0.0 < a / b < 1.0
  {
    var r := a / b;
    assert r * b == a;
    if r >= 1.0 {
      MulLe(1.0, r, b);
    }
    if r <= 0.0 {
      MulLe(r, 0.0, b);
    }
  }

  // ---------------------------------------------------------------- otac_signal_detection

  /** norm_samples: the power of every received sample. */
  function Norms(signal: seq<Complex>): (r: seq<real>)
    ensures |r| == |signal|
    ensures forall i :: 0 <= i < |r| ==> r[i] == Norm(signal[i]) && r[i] >= 0.0
  {
    seq(|signal|, i requires 0 <= i < |signal| => Norm(signal[i]))
  }

  /** s[lo] + … + s[hi − 1]. */
  function RangeSum(s: seq<real>, lo: nat, hi: nat): real
    requires lo <= hi <= |s|
    decreases hi
  {
    if hi == lo then 0.0 else RangeSum(s, lo, hi - 1) + s[hi - 1]
  }

  /** Peeling the first term off a range sum. */
  lemma {:induction false} RangeSumCons(s: seq<real>, lo: nat, hi: nat)
    requires lo < hi <= |s|
    ensures RangeSum(s, lo, hi) == s[lo] + RangeSum(s, lo + 1, hi)
    decreases hi
  {
    if hi > lo + 1 {
      RangeSumCons(s, lo, hi - 1);
    }
  }

  /** Sliding the window one sample on: drop s[i − 1], add s[i − 1 + n]. */
  lemma SlideWindow(s: seq<real>, i: nat, n: nat)
    requires 0 < i && 0 < n && i + n <= |s|
    ensures RangeSum(s, i, i + n) == RangeSum(s, i - 1, i - 1 + n) - s[i - 1] + s[i - 1 + n]
  {
    RangeSumCons(s, i - 1, i - 1 + n);
  }

  /** The mean power of the window of n samples starting at i. */
  function WinPow(s: seq<real>, i: nat, n: nat): real
    requires 0 < n && i + n <= |s|
  {
    RangeSum(s, i, i + n) / n as real
  }

  /** The detector's max_val after the windows starting below m: the
      largest window mean, or 0 when none exceeds it. */
  function BestPower(s: seq<real>, n: nat, m: nat): real
    requires 0 < n && m + n <= |s|
  {
    if m == 0 then 0.0 else MaxReal(BestPower(s, n, m - 1), WinPow(s, m - 1, n))
  }

  /** The detector's max_index: where that largest mean was first reached. */
  function BestIndex(s: seq<real>, n: nat, m: nat): nat
    requires 0 < n && m + n <= |s|
  {
    if m == 0 then 0
    else if WinPow(s, m - 1, n) > BestPower(s, n, m - 1) then m - 1
    else BestIndex(s, n, m - 1)
  }

  /** BestPower is non-negative and no examined window beats it. */
  lemma {:induction false} BestPowerIsMax(s: seq<real>, n: nat, m: nat)
    requires 0 < n && m + n <= |s|
    ensures BestPower(s, n, m) >= 0.0
    ensures forall i :: 0 <= i < m ==> WinPow(s, i, n) <= BestPower(s, n, m)
  {
    if m > 0 {
      BestPowerIsMax(s, n, m - 1);
    }
  }

  /** A positive BestPower is the mean of the window at BestIndex, and every
      earlier window is strictly weaker; a zero one leaves the index at 0. */
  lemma {:induction false} BestIndexFirst(s: seq<real>, n: nat, m: nat)
    requires 0 < n && m + n <= |s|
    ensures BestPower(s, n, m) == 0.0 ==> BestIndex(s, n, m) == 0
    ensures BestPower(s, n, m) > 0.0 ==>
              BestIndex(s, n, m) < m && WinPow(s, BestIndex(s, n, m), n) == BestPower(s, n, m) &&
              forall j :: 0 <= j < BestIndex(s, n, m) ==> WinPow(s, j, n) < BestPower(s, n, m)
  {
    if m > 0 {
      BestIndexFirst(s, n, m - 1);
      BestPowerIsMax(s, n, m - 1);
    }
  }

  /** The type-1 scan: the running sum of the first window, then one sample
      in and one out per step, keeping the first strictly largest window
      mean. Windows start at every i < |s| − n, so the one starting at
      |s| − n is not examined. */
  method ScanWindows(s: seq<real>, n: nat) returns (maxVal: real, maxIndex: nat)
    requires 0 < n <= |s|
    ensures maxVal == BestPower(s, n, |s| - n)
    ensures maxIndex == BestIndex(s, n, |s| - n)
  {
    maxVal := 0.0;
    maxIndex := 0;
    var tempVal := 0.0;
    var i := 0;
    while i < |s| - n
      invariant 0 <= i <= |s| - n
      invariant i == 0 ==> tempVal == 0.0
      invariant i > 0 ==> tempVal == RangeSum(s, i - 1, i - 1 + n)
      invariant maxVal == BestPower(s, n, i)
      invariant maxIndex == BestIndex(s, n, i)
    {
      if i == 0 {
        var j := 0;
        while j < n
          invariant 0 <= j <= n
          invariant tempVal == RangeSum(s, 0, j)
        {
          tempVal := tempVal + s[j];
          j := j + 1;
        }
      } else {
        SlideWindow(s, i, n);
        tempVal := tempVal - s[i - 1];
        tempVal := tempVal + s[i + n - 1];
      }
      var winPow := tempVal / n as real;
      if winPow > maxVal {
        maxVal := winPow;
        maxIndex := i;
      }
      i := i + 1;
    }
  }

  // ---------------------------------------------------------------- transmission_otac

  /** The CFO counter value with which sample k of the burst was rotated.
      As written the OTA-C waveform is rotated first from 0 and the
      full-scale waveform after it, from |otac|, although the full-scale
      waveform goes out first; with `fixed` the rotation follows the
      transmitted order. */
  function BurstCounter(otacLen: nat, fsLen: nat, fixed: bool, k: nat): nat
  {
    if fixed then k % SizeModulus
    else if k < fsLen then (otacLen + k) % SizeModulus
    else (k - fsLen) % SizeModulus
  }

  /** The burst transmission_otac hands to the radio: the full-scale
      waveform at scale 1.0, then the OTA-C waveform at the clamped scale,
      each sample rotated by the CFO phase of its counter. */
  function Burst(otac: seq<Complex>, fs: seq<Complex>, scale: real, cfo: real, fixed: bool): (tx: seq<Complex>)
    ensures |tx| == |fs| + |otac|
    ensures forall k :: 0 <= k < |fs| ==>
              tx[k] == Utility.CfoCorrected(fs[k], 1.0, cfo, BurstCounter(|otac|, |fs|, fixed, k))
    ensures forall k :: |fs| <= k < |tx| ==>
              tx[k] == Utility.CfoCorrected(otac[k - |fs|], ClampScale(scale), cfo, BurstCounter(|otac|, |fs|, fixed, k))
  {
    seq(|fs| + |otac|, k requires 0 <= k < |fs| + |otac| =>
      if k < |fs| then Utility.CfoCorrected(fs[k], 1.0, cfo, BurstCounter(|otac|, |fs|, fixed, k))
      else Utility.CfoCorrected(otac[k - |fs|], ClampScale(scale), cfo, BurstCounter(|otac|, |fs|, fixed, k)))
  }

  /** As written, the first transmitted sample is rotated with counter
      |otac| instead of 0, and the OTA-C part restarts the ramp at 0: the
      pre-compensation phase jumps twice within one burst. */
  lemma BurstRampRestarts(otacLen: nat, fsLen: nat)
    requires 0 < otacLen < SizeModulus && 0 < fsLen
    ensures BurstCounter(otacLen, fsLen, false, 0) == otacLen != 0
    ensures BurstCounter(otacLen, fsLen, false, fsLen) == 0 != fsLen
  {
  }

  /** With the rotation in transmitted order every sample k of the burst is
      rotated with counter k (modulo size_t). */
  lemma BurstRampContinuous(otac: seq<Complex>, fs: seq<Complex>, scale: real, cfo: real)
    ensures forall k :: 0 <= k < |fs| ==>
              Burst(otac, fs, scale, cfo, true)[k] == Utility.CfoCorrected(fs[k], 1.0, cfo, k % SizeModulus)
    ensures forall k :: |fs| <= k < |fs| + |otac| ==>
              Burst(otac, fs, scale, cfo, true)[k] == Utility.CfoCorrected(otac[k - |fs|], ClampScale(scale), cfo, k % SizeModulus)
  {
  }

  /** Without CFO the orders agree: the burst is the full-scale waveform
      followed by the scaled OTA-C waveform. */
  lemma BurstWithoutCfo(otac: seq<Complex>, fs: seq<Complex>, scale: real, fixed: bool)
    ensures Burst(otac, fs, scale, 0.0, fixed) == ScaleAll(fs, 1.0) + ScaleAll(otac, ClampScale(scale))
  {
  }

  /** ((a mod 2^64) + i) mod 2^64 = (a + i) mod 2^64. */
  lemma SizeAddMod(a: nat, i: nat)
    ensures ((a % SizeModulus) + i) % SizeModulus == (a + i) % SizeModulus
  {
  }

  /** A waveform rotated by correct_cfo_tx from counter c on. */
  function CfoRotated(w: seq<Complex>, scale: real, cfo: real, c: nat): (r: seq<Complex>)
    ensures |r| == |w|
    ensures forall i :: 0 <= i < |w| ==> r[i] == Utility.CfoCorrected(w[i], scale, cfo, (c + i) % SizeModulus)
  {
    seq(|w|, i requires 0 <= i < |w| => Utility.CfoCorrected(w[i], scale, cfo, (c + i) % SizeModulus))
  }

  /** A copy of the waveform (the local vector) rotated in place. */
  method RotateCopy(w: seq<Complex>, scale: real, cfo: real, counter: Size) returns (r: seq<Complex>, counter': Size)
    ensures r == CfoRotated(w, scale, cfo, counter)
    ensures counter' == (counter + |w|) % SizeModulus
  {
    var a := new Complex[|w|](i requires 0 <= i < |w| => w[i]);
    counter' := Utility.CorrectCfoTx(a, scale, cfo, counter);
    r := a[..];
  }

  /** The burst of BurstCounter's two orders, assembled from the rotated
      copies. */
  lemma BurstOfRotated(ow: seq<Complex>, fw: seq<Complex>, scale: real, cfo: real, fixed: bool)
    ensures Burst(ow, fw, scale, cfo, fixed) ==
            CfoRotated(fw, 1.0, cfo, if fixed then 0 else |ow| % SizeModulus) +
            CfoRotated(ow, ClampScale(scale), cfo, if fixed then |fw| % SizeModulus else 0)
  {
    var b := Burst(ow, fw, scale, cfo, fixed);
    BurstFrontRotated(ow, fw, scale, cfo, fixed);
    BurstBackRotated(ow, fw, scale, cfo, fixed);
    SplitAt(b, |fw|);
  }

  /** A sequence is its prefix followed by its suffix. */
  lemma SplitAt(s: seq<Complex>, n: nat)
    requires n <= |s|
    ensures s == s[..n] + s[n..]
  {
  }

  /** The first |fw| samples of the burst are the rotated full-scale copy. */
  lemma BurstFrontRotated(ow: seq<Complex>, fw: seq<Complex>, scale: real, cfo: real, fixed: bool)
    ensures Burst(ow, fw, scale, cfo, fixed)[..|fw|] ==
            CfoRotated(fw, 1.0, cfo, if fixed then 0 else |ow| % SizeModulus)
  {
    var b := Burst(ow, fw, scale, cfo, fixed);
    var fr := CfoRotated(fw, 1.0, cfo, if fixed then 0 else |ow| % SizeModulus);
    forall k | 0 <= k < |fw|
      ensures b[k] == fr[k]
    {
      FrontCounter(|ow|, |fw|, fixed, k);
    }
  }

  /** The samples after the first |fw| are the rotated OTA-C copy. */
  lemma BurstBackRotated(ow: seq<Complex>, fw: seq<Complex>, scale: real, cfo: real, fixed: bool)
    ensures Burst(ow, fw, scale, cfo, fixed)[|fw|..] ==
            CfoRotated(ow, ClampScale(scale), cfo, if fixed then |fw| % SizeModulus else 0)
  {
    var b := Burst(ow, fw, scale, cfo, fixed);
    var orr := CfoRotated(ow, ClampScale(scale), cfo, if fixed then |fw| % SizeModulus else 0);
    var back := b[|fw|..];
    forall i | 0 <= i < |ow|
      ensures back[i] == orr[i]
    {
      BackSample(ow, fw, scale, cfo, fixed, i);
      assert back[i] == b[|fw| + i];
    }
  }

  /** Sample |fw| + i of the burst is sample i of the OTA-C copy, rotated
      with the copy's counter. */
  lemma BackSample(ow: seq<Complex>, fw: seq<Complex>, scale: real, cfo: real, fixed: bool, i: nat)
    requires i < |ow|
    ensures Burst(ow, fw, scale, cfo, fixed)[|fw| + i] ==
            Utility.CfoCorrected(ow[i], ClampScale(scale), cfo, ((if fixed then |fw| % SizeModulus else 0) + i) % SizeModulus)
  {
    var k := |fw| + i;
    assert k - |fw| == i;
    var c := BurstCounter(|ow|, |fw|, fixed, k);
    BackCounter(|ow|, |fw|, fixed, i);
    assert Burst(ow, fw, scale, cfo, fixed)[k] == Utility.CfoCorrected(ow[i], ClampScale(scale), cfo, c);
  }

  /** Over the full-scale part BurstCounter runs on from the copy's first
      counter value. */
  lemma FrontCounter(otacLen: nat, fsLen: nat, fixed: bool, k: nat)
    requires k < fsLen
    ensures BurstCounter(otacLen, fsLen, fixed, k) == ((if fixed then 0 else otacLen % SizeModulus) + k) % SizeModulus
  {
    SizeAddMod(otacLen, k);
  }

  /** Over the OTA-C part BurstCounter runs on from the copy's first
      counter value. */
  lemma BackCounter(otacLen: nat, fsLen: nat, fixed: bool, i: nat)
    ensures BurstCounter(otacLen, fsLen, fixed, fsLen + i) == ((if fixed then fsLen % SizeModulus else 0) + i) % SizeModulus
  {
    SizeAddMod(fsLen, i);
  }

  /** The body of transmission_otac on copies of the two waveforms: clamp
      the scale, rotate both copies with one running CFO counter, and put
      the full-scale copy in front. */
  method RotateBurst(ow: seq<Complex>, fw: seq<Complex>, scale: real, cfo: real, fixed: bool) returns (tx: seq<Complex>)
    ensures tx == Burst(ow, fw, scale, cfo, fixed)
  {
    var myScale := if scale > 1.0 then 1.0 else scale;
    var cfoCounter := 0;
    var txWaveform, fsTxWaveform;
    if fixed {
      fsTxWaveform, cfoCounter := RotateCopy(fw, 1.0, cfo, cfoCounter);
      txWaveform, cfoCounter := RotateCopy(ow, myScale, cfo, cfoCounter);
    } else {
      txWaveform, cfoCounter := RotateCopy(ow, myScale, cfo, cfoCounter);
      fsTxWaveform, cfoCounter := RotateCopy(fw, 1.0, cfo, cfoCounter);
    }
    tx := fsTxWaveform + txWaveform;
    BurstOfRotated(ow, fw, scale, cfo, fixed);
  }

  // ---------------------------------------------------------------- OTAC_class

  class OtacProcessor {
    /** The leaf's input value, and the range of allowed inputs. */
    var otacInput: real
    var dmin: real
    var dmax: real
    /** num_leafs: how many leaves transmit at once. */
    var numLeafs: Size
    var fullScale: real
    /** ctol: the reference-signal power the leaf measured. */
    var ctol: real
    var minE2ePow: real
    var maxE2ePow: real
    var noisePower: real
    /** usrp_obj->rx_gain: the gain read back when the USRP was set up. As
        written set_rx_gain leaves it alone. */
    var rxGain: real
    /** The gain the radio is set to. */
    var radioRxGain: real
    /** usrp_obj->rx_rate. */
    var rxRate: real
    /** csd_obj->cfo: the leaf's carrier-frequency offset estimate. */
    var cfo: real
    var csdSuccessFlag: bool
    var otacWaveform: seq<Complex>
    var fsWaveform: seq<Complex>

    /** OTAC_class(...): stores the input, its range and the leaf count. */
    constructor(input: real, lo: real, hi: real, leafs: Size)
      ensures otacInput == input && dmin == lo && dmax == hi && numLeafs == leafs
    {
      otacInput := input;
      dmin := lo;
      dmax := hi;
      numLeafs := leafs;
    }

    /** initialize: the noise power from the USRP's noise amplitude, the
        end-to-end power bounds from their amplitudes, and a successfully
        read full scale clamped into (0, 1], or kept as it was when the read
        fails. */
    method Initialize(noiseAmpl: real, minAmp: real, maxAmp: real, fullScaleRead: Option<real>) returns (ok: bool)
      modifies this`csdSuccessFlag, this`noisePower, this`minE2ePow, this`maxE2ePow, this`fullScale
      ensures ok && !csdSuccessFlag
      ensures noisePower == Square(noiseAmpl)
      ensures minE2ePow == Square(minAmp) && maxE2ePow == Square(maxAmp)
      ensures fullScaleRead.Some? ==> fullScale == ClampFullScale(fullScaleRead.value) && 0.0 < fullScale <= 1.0
      ensures fullScaleRead.None? ==> fullScale == old(fullScale)
    {
      csdSuccessFlag := false;
      noisePower := Square(noiseAmpl);
      minE2ePow := Square(minAmp);
      maxE2ePow := Square(maxAmp);
      if fullScaleRead.Some? {
        var v := fullScaleRead.value;
        if v <= 0.0 || v >= 1.0 {
          fullScale := 1.0;
        } else {
          fullScale := v;
        }
      }
      ok := true;
    }

    /** check_ctol: true iff ctol lies in [min_e2e_pow, max_e2e_pow];
        otherwise the radio's RX gain is retuned from the member gain and
        false returned. As written (`fixed` false) set_rx_gain does not
        store the new gain, so the member keeps its initial value; with
        `fixed` it follows the radio. The noise power re-measured afterwards
        lands in a local variable and the peak detector, not in this
        object's noise_power. */
    method CheckCtol(fixed: bool) returns (ok: bool)
      requires 0.0 < minE2ePow && 0.0 < maxE2ePow
      modifies this`rxGain, this`radioRxGain
      ensures ok <==> minE2ePow <= ctol <= maxE2ePow
      ensures ok ==> radioRxGain == old(radioRxGain) && rxGain == old(rxGain)
      ensures !ok ==> radioRxGain == RetunedGain(old(rxGain), ctol, minE2ePow, maxE2ePow)
      ensures !ok ==> rxGain == if fixed then radioRxGain else old(rxGain)
    {
      var upperBound := maxE2ePow;
      var lowerBound := minE2ePow;
      if ctol > upperBound {
        var newRxGain := rxGain - ToDecibel(ctol / upperBound, true);
        SetRxGain(Floor(newRxGain) as real, fixed);
        return false;
      } else if ctol < lowerBound {
        var newRxGain := rxGain - ToDecibel(ctol / lowerBound, true);
        SetRxGain(Ceil(newRxGain) as real, fixed);
        return false;
      }
      ok := true;
    }

    /** USRP_class::set_rx_gain: the radio takes the gain; as written the
        gain read back goes to a local, and with `fixed` to the member. */
    method SetRxGain(g: real, fixed: bool)
      modifies this`radioRxGain, this`rxGain
      ensures radioRxGain == g
      ensures rxGain == if fixed then g else old(rxGain)
    {
      radioRxGain := g;
      if fixed {
        rxGain := g;
      }
    }

    /** otac_signal_detection, with the sample count `wfLen` the parser
        supplies. Type 0 reports 0.1 unconditionally; type 1 finds the
        strongest window and fails when it is below ten times the noise
        power; any other type fails. power and timer are the reference
        arguments, unchanged on failure. */
    method OtacSignalDetection(signal: seq<Complex>, typeId: Size, wfLen: Size, power: real, timer: real)
      returns (ok: bool, power': real, timer': real)
      requires typeId == 1 ==> 0 < wfLen <= |signal| && 0.0 < rxRate
      ensures typeId == 0 ==> ok && power' == 0.1 && timer' == timer
      ensures typeId > 1 ==> !ok && power' == power && timer' == timer
      ensures typeId == 1 ==>
                var s := Norms(signal);
                var m := |signal| - wfLen;
                (ok <==> BestPower(s, wfLen, m) >= 10.0 * noisePower) &&
                (ok ==> power' == BestPower(s, wfLen, m) && timer' == timer + BestIndex(s, wfLen, m) as real / rxRate) &&
                (!ok ==> power' == power && timer' == timer)
    {
      if typeId == 0 {
        return true, 0.1, timer;
      } else if typeId == 1 {
        var normSamples := Norms(signal);
        var maxVal, maxIndex := ScanWindows(normSamples, wfLen);
        if maxVal < 10.0 * noisePower {
          return false, power, timer;
        }
        return true, maxVal, timer + maxIndex as real / rxRate;
      }
      return false, power, timer;
    }

    /** reception_otac: expects 10·wfLen samples; any other count fails
        without detection. The detector type is the header's default
        argument, which is not part of this model, so it is a parameter. */
    method ReceptionOtac(rx: seq<Complex>, typeId: Size, wfLen: Size, power: real, timer: real)
      returns (ok: bool, power': real, timer': real)
      requires 10 * wfLen < SizeModulus
      requires typeId == 1 ==> 0 < wfLen && 0.0 < rxRate
      ensures |rx| != 10 * wfLen ==> !ok && power' == power && timer' == timer
      ensures ok ==> |rx| == 10 * wfLen
      ensures |rx| == 10 * wfLen && typeId == 0 ==> ok && power' == 0.1 && timer' == timer
      ensures |rx| == 10 * wfLen && typeId > 1 ==> !ok && power' == power && timer' == timer
      ensures |rx| == 10 * wfLen && typeId == 1 ==>
                var s := Norms(rx);
                var m := |rx| - wfLen;
                (ok <==> BestPower(s, wfLen, m) >= 10.0 * noisePower) &&
                (ok ==> power' == BestPower(s, wfLen, m) && timer' == timer + BestIndex(s, wfLen, m) as real / rxRate) &&
                (!ok ==> power' == power && timer' == timer)
    {
      var reqNumSamps := 10 * wfLen;
      if |rx| == reqNumSamps {
        ok, power', timer' := OtacSignalDetection(rx, typeId, wfLen, power, timer);
      } else {
        ok, power', timer' := false, power, timer;
      }
    }

    /** transmission_otac: the burst handed to the radio. As written
        (`fixed` false) the OTA-C waveform is CFO-rotated before the
        full-scale waveform although it is sent after it. */
    method TransmissionOtac(scale: real, fixed: bool) returns (tx: seq<Complex>)
      ensures tx == Burst(otacWaveform, fsWaveform, scale, cfo, fixed)
    {
      tx := RotateBurst(otacWaveform, fsWaveform, scale, cfo, fixed);
    }
  }

  // ---------------------------------------------------------------- end to end

  /** The transmitted scale never exceeds full amplitude, for a square
      root that stays within [0, 1] on [0, 1]. */
  lemma PreScaleAtMostOne(x: real, dmin: real, dmax: real, fullScale: real, ctol: real, minPow: real)
    requires 0.0 < fullScale && 0.0 < minPow && 0.0 <= ctol
    requires forall y: NonNeg :: y <= 1.0 ==> Sqrt(y) <= 1.0
    ensures var r := PreProcessing(x, dmin, dmax, fullScale, ctol, minPow);
            r.Some? && r.value.Fin? ==> 0.0 <= r.value.v <= 1.0
  {
    if dmin < dmax && dmin <= x <= dmax {
      var p := InputPower(x, dmin, dmax);
      assert Sqrt(p) <= 1.0;
    }
  }

  /** The round trip of the protocol: when the leaves' inputs xs lie in
      [dmin, dmax] and the central node receives the noise plus
      min_e2e_pow times the sum of their normalised powers, post-processing
      returns the sum of the inputs. */
  lemma OtacRoundTrip(xs: seq<real>, noise: real, dmin: real, dmax: real, minPow: real)
    requires dmin < dmax && 0.0 < minPow
    requires |xs| < SizeModulus
    requires forall i :: 0 <= i < |xs| ==> dmin <= xs[i] <= dmax
    ensures PostProcessing(noise + minPow * Stats.Sum(Powers(xs, dmin, dmax)), noise, dmin, dmax, minPow, |xs|)
            == Some(Stats.Sum(xs))
  {
    PostOfPowers(xs, noise, dmin, dmax, minPow);
    Stats.SumBounds(xs, dmin, dmax);
  }

  /** The estimate for the received power of inputs xs is their sum. */
  lemma PostOfPowers(xs: seq<real>, noise: real, dmin: real, dmax: real, minPow: real)
    requires dmin < dmax && 0.0 < minPow && |xs| < SizeModulus
    ensures PostValue(noise + minPow * Stats.Sum(Powers(xs, dmin, dmax)), noise, dmin, dmax, minPow, |xs|) == Stats.Sum(xs)
  {
    PowersSum(xs, dmin, dmax);
    PostInverts(noise, minPow, Stats.Sum(Powers(xs, dmin, dmax)), dmin, dmax, |xs|, Stats.Sum(xs));
  }
}
