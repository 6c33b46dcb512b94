// The older peak detector of cpp/PeakDetection.cpp: the registered peaks of
// a correlation stream, looking for `totalNumPeaks` peaks spaced
// `refSeqLen` samples apart. Its spacing tests are: within 1 of the
// reference (insertPeak), within 5 (process_corr) and within `peakDetTol`
// (check_peaks).
//
// As in PeakDetector, the state is specified by functions on `State` and
// the class `PeakDetection` is proved to follow them. The peak arrays are
// allocated with `totalNumPeaks` slots as written, which insertPeak can
// write past; the class allocates one more slot (`Slots`).
module CppPeakDetection {
  import opened Common
  import PD = PeakDetector

  /** The configuration read by the constructor. */
  datatype Params = Params(refSeqLen: Size, totalNumPeaks: Size, pnrThreshold: real, peakDetTol: Size,
                           maxPeakMul: real, syncWithPeakFromLast: Size, initNoiseLevel: real,
                           saveBufferFlag: bool)

  predicate ParamsOk(p: Params)
  {
    1 <= p.totalNumPeaks && p.totalNumPeaks + 1 < SizeModulus && 1 <= p.refSeqLen
  }

  /** The detector's fields; the three peak arrays become sequences. */
  datatype State = State(peaksCount: Size, samplesFromFirstPeak: Size, prevPeakIndex: Size,
                         prevPeakVal: real, currPnrThreshold: real, maxPnr: real, detectionFlag: bool,
                         noiseLevel: real, noiseCounter: int,
                         indices: seq<Size>, vals: seq<real>, times: seq<real>)

  /** The slots of each peak array: `total_num_peaks` as written, one more
      corrected. */
  function Slots(p: Params, fixed: bool): nat
  {
    if fixed then p.totalNumPeaks + 1 else p.totalNumPeaks
  }

  /** Three arrays of the same number of slots (as written or corrected),
      and no more registered peaks than slots. */
  predicate Inv(p: Params, s: State)
  {
    |s.vals| == |s.indices| && |s.times| == |s.indices|
    && p.totalNumPeaks <= |s.indices| <= p.totalNumPeaks + 1
    && s.peaksCount <= |s.indices|
  }

  /** The result of a step: the new state, or a write past the arrays. */
  datatype Step = Stepped(s: State) | OutOfRange

  /** insertPeak's test on the last two registered peaks: their spacing is
      above ref + 1 or below ref - 1 (size_t arithmetic). */
  predicate OffSpacing(p: Params, gap: Size)
  {
    gap > SizeAdd(p.refSeqLen, 1) || gap < SizeSub(p.refSeqLen, 1)
  }

  /** insertPeak's test on the current sample: strictly between ref - 1 and
      ref + 1. */
  predicate LastFits(p: Params, gap: Size)
  {
    SizeSub(p.refSeqLen, 1) < gap < SizeAdd(p.refSeqLen, 1)
  }

  /** check_peaks' test on one gap: within [ref - tol, ref + tol]. */
  predicate Spaced(p: Params, gap: Size)
  {
    !(gap < SizeSub(p.refSeqLen, p.peakDetTol) || gap > SizeAdd(p.refSeqLen, p.peakDetTol))
  }

  /** Without wrap-around the two insertPeak tests pin the spacing: the last
      peak fits exactly at ref_seq_len, and two registered peaks are kept
      exactly when they are within 1 of it. */
  lemma SpacingTests(p: Params, gap: Size)
    requires ParamsOk(p) && p.refSeqLen + 1 < SizeModulus
    ensures LastFits(p, gap) <==> gap == p.refSeqLen
    ensures !OffSpacing(p, gap) <==> p.refSeqLen - 1 <= gap <= p.refSeqLen + 1
  {
  }

  /** The cap of update_pnr_threshold: max_pnr once it is set, else 50. */
  function PnrCap(maxPnr: real): (r: real)
    ensures r > 0.0
  {
    if maxPnr > 0.0 then maxPnr else 50.0
  }

  /** update_pnr_threshold: max_peak_mul * prev_peak_val / noise_level,
      clamped from below by pnr_threshold and then from above by the cap. */
  function PnrThreshold(p: Params, prevVal: real, noise: real, maxPnr: real): real
    requires noise != 0.0
  {
    MinReal(MaxReal(p.maxPeakMul * prevVal / noise, p.pnrThreshold), PnrCap(maxPnr))
  }

  /** The new threshold never exceeds the cap, is at least pnr_threshold
      when that is below the cap, and is the scaled previous peak itself
      when that lies between them. */
  lemma PnrThresholdClamped(p: Params, prevVal: real, noise: real, maxPnr: real)
    requires noise != 0.0
    ensures var r := PnrThreshold(p, prevVal, noise, maxPnr);
            var x := p.maxPeakMul * prevVal / noise;
            && r <= PnrCap(maxPnr)
            && (p.pnrThreshold <= PnrCap(maxPnr) ==> p.pnrThreshold <= r)
            && (p.pnrThreshold <= x <= PnrCap(maxPnr) ==> r == x)
            && (PnrCap(maxPnr) < p.pnrThreshold ==> r == PnrCap(maxPnr))
  {
  }

  /** Only the last registered peak is kept, moved to slot 0 with index 0,
      and the sample count is rebased on it. */
  function Collapse(s: State): (r: State)
    requires 2 <= s.peaksCount <= |s.indices| && |s.vals| == |s.indices| && |s.times| == |s.indices|
  {
    var last := s.peaksCount - 1;
    s.(indices := s.indices[0 := 0], vals := s.vals[0 := s.vals[last]], times := s.times[0 := s.times[last]],
       samplesFromFirstPeak := SizeSub(s.samplesFromFirstPeak, s.indices[last]),
       prevPeakIndex := 0, peaksCount := 1)
  }

  /** The first check of insertPeak: with more than one registered peak, a
      bad spacing of the last two collapses them onto the last one. */
  function Prepare(p: Params, s: State): (r: State)
    requires Inv(p, s)
    ensures Inv(p, r)
    ensures r.peaksCount == s.peaksCount || r.peaksCount == 1
  {
    var pc := s.peaksCount;
    if pc > 1 && OffSpacing(p, SizeSub(s.indices[pc - 1], s.indices[pc - 2])) then Collapse(s) else s
  }

  /** The write of a new peak at slot `peaksCount`: the index is the sample
      count, the threshold is updated from the previous peak value (before
      that is replaced), and the peak becomes the previous one. */
  function Record(p: Params, u: State, val: real, time: real): (r: State)
    requires ParamsOk(p) && Inv(p, u) && u.peaksCount < |u.indices| && u.noiseLevel != 0.0
    ensures Inv(p, r)
  {
    var pc := u.peaksCount;
    u.(indices := u.indices[pc := u.samplesFromFirstPeak], vals := u.vals[pc := val],
       times := u.times[pc := time],
       currPnrThreshold := PnrThreshold(p, u.prevPeakVal, u.noiseLevel, u.maxPnr),
       peaksCount := pc + 1, prevPeakIndex := u.samplesFromFirstPeak, prevPeakVal := val)
  }

  /** insertPeak. After `Prepare`: a full array whose last peak sits at the
      right spacing, or one more peak than the total, flags a detection
      without recording; otherwise the peak is written at slot
      `peaksCount` (past the arrays when every slot is in use). The first
      peak restarts the sample count at 0. */
  function Insert(p: Params, s: State, val: real, time: real): Step
    requires ParamsOk(p) && Inv(p, s) && s.noiseLevel != 0.0
  {
    var t := Prepare(p, s);
    var pc := t.peaksCount;
    if pc == p.totalNumPeaks && LastFits(p, SizeSub(t.samplesFromFirstPeak, t.indices[pc - 1])) then
      Stepped(t.(detectionFlag := true))
    else if pc == p.totalNumPeaks + 1 then Stepped(t.(detectionFlag := true))
    else
      var u := if pc == 0 then t.(samplesFromFirstPeak := 0) else t;
      if pc >= |u.indices| then OutOfRange else Stepped(Record(p, u, val, time))
  }

  /** reset_peaks_counter. */
  function ResetCounter(s: State): (r: State)
    ensures r.peaksCount == 0 && r.samplesFromFirstPeak == 0 && r.prevPeakIndex == 0
    ensures r == s.(peaksCount := 0, samplesFromFirstPeak := 0, prevPeakIndex := 0)
  {
    s.(peaksCount := 0, samplesFromFirstPeak := 0, prevPeakIndex := 0)
  }

  /** updatePrevPeak: the last peak is dropped (an error message when there
      is none). */
  function DropLast(s: State): State
  {
    if s.peaksCount == 0 then s else s.(peaksCount := s.peaksCount - 1)
  }

  /** process_corr: a value whose ratio to the noise level exceeds the
      current threshold is a peak; it is inserted as the first peak, after
      a counter reset when it is more than ref + 5 from the previous peak,
      in place of the previous peak when it is closer than ref - 5 and
      higher, and appended otherwise. The boolean is the return value. */
  function Process(p: Params, s: State, absVal: real, time: real): (r: (Step, bool))
    requires ParamsOk(p) && Inv(p, s) && s.noiseLevel != 0.0
    ensures r.1 <==> absVal / s.noiseLevel > s.currPnrThreshold
    ensures !r.1 ==> r.0 == Stepped(s)
  {
    if !(absVal / s.noiseLevel > s.currPnrThreshold) then (Stepped(s), false)
    else if s.peaksCount == 0 then (Insert(p, s, absVal, time), true)
    else
      var fromLast := SizeSub(s.samplesFromFirstPeak, s.prevPeakIndex);
      if fromLast > SizeAdd(p.refSeqLen, 5) then (Insert(p, ResetCounter(s), absVal, time), true)
      else if fromLast < SizeSub(p.refSeqLen, 5) then
        (if s.prevPeakVal < absVal then Insert(p, DropLast(s), absVal, time) else Stepped(s), true)
      else (Insert(p, s, absVal, time), true)
  }

  /** check_peaks: every gap between consecutive slots of the first
      `totalNumPeaks` lies within the tolerance. */
  predicate AllSpaced(p: Params, indices: seq<Size>)
    requires p.totalNumPeaks <= |indices|
  {
    forall i :: 0 <= i < p.totalNumPeaks - 1 ==> Spaced(p, SizeSub(indices[i + 1], indices[i]))
  }

  /** next: with no peaks, nothing; with fewer than the total, one more
      sample counted; with exactly the total, a detection when check_peaks
      passes (the only case returning false) and otherwise one more sample;
      with more, the peaks counter is reset. */
  function Advance(p: Params, s: State): (r: (State, bool))
    requires ParamsOk(p) && Inv(p, s)
    ensures !r.1 <==> s.peaksCount == p.totalNumPeaks && AllSpaced(p, s.indices)
    ensures !r.1 ==> r.0 == s.(detectionFlag := true)
    ensures s.peaksCount == 0 ==> r.0 == s
    ensures 0 < s.peaksCount <= p.totalNumPeaks && r.1 ==>
              r.0 == s.(samplesFromFirstPeak := SizeAdd(s.samplesFromFirstPeak, 1))
    ensures s.peaksCount > p.totalNumPeaks ==> r.0 == ResetCounter(s)
  {
    var pc := s.peaksCount;
    if pc == 0 then (s, true)
    else if pc < p.totalNumPeaks then (s.(samplesFromFirstPeak := SizeAdd(s.samplesFromFirstPeak, 1)), true)
    else if pc == p.totalNumPeaks then
      if AllSpaced(p, s.indices) then (s.(detectionFlag := true), false)
      else (s.(samplesFromFirstPeak := SizeAdd(s.samplesFromFirstPeak, 1)), true)
    else (ResetCounter(s), true)
  }

  /** The relative-deviation test of updateNoiseLevel: below 100%. With a
      zero level the float quotient is inf or NaN and the test fails. */
  predicate NearNoise(avg: real, noise: real)
  {
    noise != 0.0 && PD.AbsReal(avg - noise) / noise < 1.0
  }

  /** updateNoiseLevel: the count-weighted running mean (the divisor in
      size_t), and the counter grown by the sample count unless it has
      reached LONG_MAX, when it restarts at 1. */
  function UpdateNoise(s: State, avg: real, numSamps: Size): State
    requires NearNoise(avg, s.noiseLevel) ==> (s.noiseCounter + numSamps) % SizeModulus != 0
  {
    if NearNoise(avg, s.noiseLevel) then
      s.(noiseLevel := PD.NoiseMean(s.noiseCounter, s.noiseLevel, avg, numSamps),
         noiseCounter := if s.noiseCounter < PD.LongMax then PD.LongOf(s.noiseCounter + numSamps) else 1)
    else s
  }

  /** The sum of vals[0..n). */
  function SumVals(vals: seq<real>, n: nat): real
    requires n <= |vals|
  {
    if n == 0 then 0.0 else SumVals(vals, n - 1) + vals[n - 1]
  }

  /** The amplitude avg_of_peak_vals returns: the mean of the first
      `totalNumPeaks` peak values, or the first value when there is one
      peak. */
  function AvgPeakVals(p: Params, vals: seq<real>): real
    requires ParamsOk(p) && p.totalNumPeaks <= |vals|
  {
    if p.totalNumPeaks > 1 then SumVals(vals, p.totalNumPeaks) / p.totalNumPeaks as real else vals[0]
  }

  /** The mean of equal values is that value. */
  lemma {:induction false} SumValsConstant(vals: seq<real>, n: nat, v: real)
    requires n <= |vals| && forall k :: 0 <= k < n ==> vals[k] == v
    ensures SumVals(vals, n) == n as real * v
  {
    if n > 0 {
      SumValsConstant(vals, n - 1, v);
    }
  }

  lemma AvgOfEqualPeaks(p: Params, vals: seq<real>, v: real)
    requires ParamsOk(p) && p.totalNumPeaks <= |vals|
    requires forall k :: 0 <= k < p.totalNumPeaks ==> vals[k] == v
    ensures AvgPeakVals(p, vals) == v
  {
    SumValsConstant(vals, p.totalNumPeaks, v);
  }

  /** The max PNR avg_of_peak_vals records. */
  function MaxPnrOf(p: Params, maxPeak: real, noise: real): (r: real)
    requires noise != 0.0
    ensures r >= p.pnrThreshold && r >= maxPeak / noise * p.maxPeakMul
  {
    MaxReal(maxPeak / noise * p.maxPeakMul, p.pnrThreshold)
  }

  /** The sum and the number of the non-zero magnitudes of xs[0..n). */
  function PositiveSum(xs: seq<Complex>, n: nat): real
    requires n <= |xs|
  {
    if n == 0 then 0.0 else PositiveSum(xs, n - 1) + (if Mag(xs[n - 1]) > 0.0 then Mag(xs[n - 1]) else 0.0)
  }

  function PositiveCount(xs: seq<Complex>, n: nat): (r: nat)
    requires n <= |xs|
    ensures r <= n
  {
    if n == 0 then 0 else PositiveCount(xs, n - 1) + (if Mag(xs[n - 1]) > 0.0 then 1 else 0)
  }

  /** A signal with no non-zero sample has no positive amplitude. */
  lemma {:induction false} SilentCount(xs: seq<Complex>, n: nat)
    requires n <= |xs| && forall k :: 0 <= k < n ==> xs[k] == Zero
    requires Mag(Zero) == 0.0
    ensures PositiveCount(xs, n) == 0
  {
    if n > 0 {
      SilentCount(xs, n - 1);
      assert xs[n - 1] == Zero;
    }
  }

  /** A signal with no non-zero sample gives 0/0, a NaN. */
  lemma SilentRefSignal(xs: seq<Complex>, n: nat)
    requires n <= |xs| && forall k :: 0 <= k < n ==> xs[k] == Zero
    requires Sqrt(0.0) == 0.0
    ensures PositiveCount(xs, n) == 0 && Div(PositiveSum(xs, n), PositiveCount(xs, n) as real) == NonFinite
  {
    MagZero();
    SilentCount(xs, n);
  }

  /** The sync time: the time of the peak `syncWithPeakFromLast` places from
      the end of the registered ones. */
  function SyncTime(p: Params, s: State): (t: real)
    requires Inv(p, s) && p.syncWithPeakFromLast <= s.peaksCount
    requires s.peaksCount - p.syncWithPeakFromLast < |s.times|
    ensures t == s.times[s.peaksCount - p.syncWithPeakFromLast]
  {
    s.times[s.peaksCount - p.syncWithPeakFromLast]
  }

  // ---------------------------------------------------------------------
  // Properties of the specification.

  /** The first peak restarts the sample count and lands in slot 0. */
  lemma InsertFirstPeak(p: Params, s: State, val: real, time: real)
    requires ParamsOk(p) && Inv(p, s) && s.noiseLevel != 0.0 && s.peaksCount == 0
    ensures Insert(p, s, val, time).Stepped?
    ensures var r := Insert(p, s, val, time).s;
            && r.peaksCount == 1 && r.samplesFromFirstPeak == 0 && r.indices[0] == 0
            && r.vals[0] == val && r.times[0] == time && r.prevPeakIndex == 0 && r.prevPeakVal == val
            && !(r.detectionFlag && !s.detectionFlag)
  {
  }

  /** Badly spaced registered peaks are collapsed onto the last one, and
      the new peak is recorded after it. */
  lemma InsertCollapses(p: Params, s: State, val: real, time: real)
    requires ParamsOk(p) && Inv(p, s) && s.noiseLevel != 0.0 && p.totalNumPeaks > 1
    requires s.peaksCount > 1 && OffSpacing(p, SizeSub(s.indices[s.peaksCount - 1], s.indices[s.peaksCount - 2]))
    ensures Insert(p, s, val, time).Stepped?
    ensures var r := Insert(p, s, val, time).s;
            var last := s.peaksCount - 1;
            && r.peaksCount == 2 && r.indices[0] == 0 && r.vals[0] == s.vals[last] && r.times[0] == s.times[last]
            && r.samplesFromFirstPeak == SizeSub(s.samplesFromFirstPeak, s.indices[last])
            && r.indices[1] == r.samplesFromFirstPeak && r.vals[1] == val && r.times[1] == time
  {
  }

  /** A detection is flagged by an insert exactly when, after the collapse
      check, every slot of the total is used and the new peak sits at the
      right spacing from the last, or one more peak than the total is
      registered; such an insert records nothing. */
  lemma InsertDetection(p: Params, s: State, val: real, time: real)
    requires ParamsOk(p) && Inv(p, s) && s.noiseLevel != 0.0 && !s.detectionFlag
    requires Insert(p, s, val, time).Stepped?
    ensures var t := Prepare(p, s);
            var r := Insert(p, s, val, time).s;
            && (r.detectionFlag <==>
                  (t.peaksCount == p.totalNumPeaks
                   && LastFits(p, SizeSub(t.samplesFromFirstPeak, t.indices[t.peaksCount - 1])))
                  || t.peaksCount == p.totalNumPeaks + 1)
            && (r.detectionFlag ==> r == t.(detectionFlag := true) && p.totalNumPeaks <= r.peaksCount)
  {
  }

  /** As written (arrays of `totalNumPeaks` slots): an insert writes past
      the arrays exactly when, after the collapse check, every slot is used
      and the new peak is not at the right spacing from the last. */
  lemma OutOfRangeAsWritten(p: Params, s: State, val: real, time: real)
    requires ParamsOk(p) && Inv(p, s) && s.noiseLevel != 0.0 && |s.indices| == Slots(p, false)
    ensures var t := Prepare(p, s);
            Insert(p, s, val, time) == OutOfRange <==>
              t.peaksCount == p.totalNumPeaks
              && !LastFits(p, SizeSub(t.samplesFromFirstPeak, t.indices[t.peaksCount - 1]))
  {
  }

  /** A concrete run as written: two peaks at indices 0 and 10 fill the two
      slots (ref_seq_len 10), and a third value above the threshold 12
      samples after the second passes process_corr's window of ±5 but not
      insertPeak's last-peak test, so it is written to slot 2 of 2. */
  lemma InsertOverflowsAsWritten()
    ensures var p := Params(10, 2, 1.0, 1, 1.0, 1, 1.0, false);
            var s := State(2, 22, 10, 1.0, 1.0, 0.0, false, 1.0, 0, [0, 10], [1.0, 1.0], [0.0, 1.0]);
            ParamsOk(p) && Inv(p, s) && |s.indices| == Slots(p, false)
            && Process(p, s, 2.0, 2.0) == (OutOfRange, true)
  {
    var p := Params(10, 2, 1.0, 1, 1.0, 1, 1.0, false);
    var s := State(2, 22, 10, 1.0, 1.0, 0.0, false, 1.0, 0, [0, 10], [1.0, 1.0], [0.0, 1.0]);
    assert !OffSpacing(p, SizeSub(s.indices[1], s.indices[0]));
    assert Prepare(p, s) == s;
    assert !LastFits(p, SizeSub(22, 10));
  }

  /** Corrected (arrays of `totalNumPeaks + 1` slots): an insert never
      writes past the arrays, and the arrays keep their length. */
  lemma InsertInRange(p: Params, s: State, val: real, time: real)
    requires ParamsOk(p) && Inv(p, s) && s.noiseLevel != 0.0 && |s.indices| == Slots(p, true)
    ensures Insert(p, s, val, time).Stepped?
    ensures var r := Insert(p, s, val, time).s;
            && Inv(p, r) && |r.indices| == Slots(p, true)
            && r.noiseLevel == s.noiseLevel && r.noiseCounter == s.noiseCounter
            && (r.detectionFlag && !s.detectionFlag ==> p.totalNumPeaks <= r.peaksCount)
  {
  }

  /** Corrected: process_corr never writes past the arrays. */
  lemma ProcessInRange(p: Params, s: State, absVal: real, time: real)
    requires ParamsOk(p) && Inv(p, s) && s.noiseLevel != 0.0 && |s.indices| == Slots(p, true)
    ensures Process(p, s, absVal, time).0.Stepped?
    ensures var r := Process(p, s, absVal, time).0.s;
            && Inv(p, r) && |r.indices| == Slots(p, true)
            && r.noiseLevel == s.noiseLevel && r.noiseCounter == s.noiseCounter
            && (r.detectionFlag && !s.detectionFlag ==> p.totalNumPeaks <= r.peaksCount)
  {
    if absVal / s.noiseLevel > s.currPnrThreshold && s.peaksCount > 0 {
      var fromLast := SizeSub(s.samplesFromFirstPeak, s.prevPeakIndex);
      if fromLast > SizeAdd(p.refSeqLen, 5) {
        InsertInRange(p, ResetCounter(s), absVal, time);
      } else if fromLast < SizeSub(p.refSeqLen, 5) {
        if s.prevPeakVal < absVal {
          InsertInRange(p, DropLast(s), absVal, time);
        }
      } else {
        InsertInRange(p, s, absVal, time);
      }
    } else if absVal / s.noiseLevel > s.currPnrThreshold {
      InsertInRange(p, s, absVal, time);
    }
  }

  /** A peak more than ref + 5 samples after the previous one starts over:
      it becomes the only peak, at index 0. */
  lemma ProcessTooFar(p: Params, s: State, absVal: real, time: real)
    requires ParamsOk(p) && Inv(p, s) && s.noiseLevel != 0.0 && s.peaksCount > 0
    requires absVal / s.noiseLevel > s.currPnrThreshold
    requires SizeSub(s.samplesFromFirstPeak, s.prevPeakIndex) > SizeAdd(p.refSeqLen, 5)
    ensures Process(p, s, absVal, time).0.Stepped?
    ensures var r := Process(p, s, absVal, time).0.s;
            r.peaksCount == 1 && r.indices[0] == 0 && r.samplesFromFirstPeak == 0 && r.vals[0] == absVal
            && r.noiseLevel == s.noiseLevel && r.currPnrThreshold == PnrThreshold(p, s.prevPeakVal, s.noiseLevel, s.maxPnr)
  {
  }

  /** A peak closer than ref - 5 to the previous one replaces it when
      higher and is ignored otherwise. */
  lemma ProcessTooClose(p: Params, s: State, absVal: real, time: real)
    requires ParamsOk(p) && Inv(p, s) && s.noiseLevel != 0.0 && 0 < s.peaksCount < p.totalNumPeaks
    requires absVal / s.noiseLevel > s.currPnrThreshold
    requires SizeSub(s.samplesFromFirstPeak, s.prevPeakIndex) <= SizeAdd(p.refSeqLen, 5)
    requires SizeSub(s.samplesFromFirstPeak, s.prevPeakIndex) < SizeSub(p.refSeqLen, 5)
    ensures Process(p, s, absVal, time).0.Stepped?
    ensures var r := Process(p, s, absVal, time).0.s;
            && (s.prevPeakVal >= absVal ==> r == s)
            && (s.prevPeakVal < absVal ==> 0 < r.peaksCount <= s.peaksCount && r.vals[r.peaksCount - 1] == absVal
                                           && r.prevPeakVal == absVal)
  {
  }

  /** A peak within 5 of the reference spacing is inserted without
      dropping the previous one. */
  lemma ProcessInWindow(p: Params, s: State, absVal: real, time: real)
    requires ParamsOk(p) && Inv(p, s) && s.noiseLevel != 0.0 && 0 < s.peaksCount < p.totalNumPeaks
    requires absVal / s.noiseLevel > s.currPnrThreshold
    requires SizeSub(p.refSeqLen, 5) <= SizeSub(s.samplesFromFirstPeak, s.prevPeakIndex) <= SizeAdd(p.refSeqLen, 5)
    ensures Process(p, s, absVal, time) == (Insert(p, s, absVal, time), true)
    ensures Insert(p, s, absVal, time).Stepped?
  {
  }

  /** The registered indices and the previous peak never lie after the
      current sample count, so the size_t spacings never wrap. */
  predicate Ordered(s: State)
  {
    s.peaksCount <= |s.indices|
    && s.prevPeakIndex <= s.samplesFromFirstPeak
    && forall i :: 0 <= i < s.peaksCount ==> s.indices[i] <= s.samplesFromFirstPeak
  }

  lemma InsertOrdered(p: Params, s: State, val: real, time: real)
    requires ParamsOk(p) && Inv(p, s) && s.noiseLevel != 0.0 && Ordered(s)
    requires Insert(p, s, val, time).Stepped?
    ensures Ordered(Insert(p, s, val, time).s)
  {
  }

  /** process_corr keeps `Ordered`. */
  lemma ProcessOrdered(p: Params, s: State, absVal: real, time: real)
    requires ParamsOk(p) && Inv(p, s) && s.noiseLevel != 0.0 && Ordered(s)
    requires Process(p, s, absVal, time).0.Stepped?
    ensures Ordered(Process(p, s, absVal, time).0.s)
  {
    if absVal / s.noiseLevel > s.currPnrThreshold && s.peaksCount > 0 {
      var fromLast := SizeSub(s.samplesFromFirstPeak, s.prevPeakIndex);
      if fromLast > SizeAdd(p.refSeqLen, 5) {
        InsertOrdered(p, ResetCounter(s), absVal, time);
      } else if fromLast < SizeSub(p.refSeqLen, 5) {
        if s.prevPeakVal < absVal {
          InsertOrdered(p, DropLast(s), absVal, time);
        }
      } else {
        InsertOrdered(p, s, absVal, time);
      }
    } else if absVal / s.noiseLevel > s.currPnrThreshold {
      InsertOrdered(p, s, absVal, time);
    }
  }

  /** next keeps `Ordered` while the sample count does not wrap. */
  lemma NextOrdered(p: Params, s: State)
    requires ParamsOk(p) && Inv(p, s) && Ordered(s) && s.samplesFromFirstPeak + 1 < SizeModulus
    ensures Ordered(Advance(p, s).0) && Inv(p, Advance(p, s).0)
  {
  }

  /** updateNoiseLevel leaves the state alone unless `avg` is within 100%
      of the level; then, while the counter does not wrap, the new level is
      the count-weighted mean, between the old level and `avg`, and the
      counter grows by the sample count. */
  lemma UpdateNoiseSpec(s: State, avg: real, numSamps: Size)
    requires 0 <= s.noiseCounter && 0 < numSamps && s.noiseCounter + numSamps <= PD.LongMax
    ensures !NearNoise(avg, s.noiseLevel) ==> UpdateNoise(s, avg, numSamps) == s
    ensures NearNoise(avg, s.noiseLevel) ==>
              var r := UpdateNoise(s, avg, numSamps);
              && MinReal(s.noiseLevel, avg) <= r.noiseLevel <= MaxReal(s.noiseLevel, avg)
              && r.noiseCounter == s.noiseCounter + numSamps
              && r == s.(noiseLevel := r.noiseLevel, noiseCounter := r.noiseCounter)
  {
    if NearNoise(avg, s.noiseLevel) {
      PD.NoiseMeanBetween(s.noiseCounter, s.noiseLevel, avg, numSamps);
    }
  }

  /** Four zeroed arrays of n slots (C++ leaves `new[]` contents
      indeterminate; the model zeroes them). */
  method FreshArrays(n: nat) returns (ix: array<Size>, vs: array<real>, ts: array<real>)
    ensures fresh(ix) && fresh(vs) && fresh(ts) && vs != ts
    ensures ix.Length == n && vs.Length == n && ts.Length == n
    ensures ix[..] == PD.ZeroIndices(n) && vs[..] == PD.ZeroReals(n) && ts[..] == PD.ZeroReals(n)
  {
    ix := new Size[n](_ => 0);
    vs := new real[n](_ => 0.0);
    ts := new real[n](_ => 0.0);
    assert ix[..] == PD.ZeroIndices(n);
    assert vs[..] == PD.ZeroReals(n);
    assert ts[..] == PD.ZeroReals(n);
  }

  /** The length of ref_signal: ref_seq_len samples per slot. */
  function RefSignalLength(p: Params): (n: nat)
    ensures n > 0 <==> p.refSeqLen > 0
  {
    p.refSeqLen * (p.totalNumPeaks + 1)
  }

  /** The length of the complex save buffer: two captures of the peaks. */
  function SaveBufferLength(p: Params): (n: nat)
    ensures n > 0 <==> p.refSeqLen > 0 && p.totalNumPeaks > 0
  {
    p.refSeqLen * p.totalNumPeaks * 2
  }

  /** The detector object, with the corrected number of slots. */
  class PeakDetection {
    const params: Params
    var peaksCount: Size
    var samplesFromFirstPeak: Size
    var prevPeakIndex: Size
    var prevPeakVal: real
    var currPnrThreshold: real
    var maxPnr: real
    var detectionFlag: bool
    var noiseLevel: real
    var noiseCounter: int
    var peakIndices: array<Size>
    var peakVals: array<real>
    var peakTimes: array<real>
    var refSignal: seq<Complex>
    var saveBufferComplex: seq<Complex>
    var saveBufferFloat: seq<real>

    /** A detector whose configuration the scan can run on: arrays of the
        corrected slot count and non-empty windows to shift into. */
    ghost predicate Valid()
      reads this
    {
      ParamsOk(params)
      && peakIndices.Length == Slots(params, true) && peakVals.Length == Slots(params, true)
      && peakTimes.Length == Slots(params, true) && peakVals != peakTimes
      && peaksCount <= Slots(params, true)
      && 0 < |refSignal| && (params.saveBufferFlag ==> 0 < |saveBufferComplex|)
    }

    function Snapshot(): State
      reads this, peakIndices, peakVals, peakTimes
    {
      State(peaksCount, samplesFromFirstPeak, prevPeakIndex, prevPeakVal, currPnrThreshold, maxPnr,
            detectionFlag, noiseLevel, noiseCounter, peakIndices[..], peakVals[..], peakTimes[..])
    }

    /** The constructor: empty detector with the threshold and noise level
        from the configuration; ref_signal holds ref_seq_len * (total + 1)
        zeros and, with the save flag, the complex save buffer 2 * ref_seq_len
        * total. The fields C++ leaves unset start at 0. Any configuration
        is accepted; the detector is valid exactly when the configuration
        is. */
    constructor (p: Params)
      ensures params == p && (Valid() <==> ParamsOk(p)) && peaksCount == 0 && !detectionFlag
      ensures peakIndices.Length == Slots(p, true) && peakTimes.Length == Slots(p, true) && peakVals != peakTimes
      ensures currPnrThreshold == p.pnrThreshold && noiseLevel == p.initNoiseLevel && noiseCounter == 0
      ensures maxPnr == 0.0 && peakVals[..] == PD.ZeroReals(Slots(p, true))
      ensures refSignal == Zeros(RefSignalLength(p))
      ensures saveBufferComplex == (if p.saveBufferFlag then Zeros(SaveBufferLength(p)) else [])
      ensures saveBufferFloat == []
    {
      params := p;
      peaksCount, samplesFromFirstPeak, prevPeakIndex, prevPeakVal := 0, 0, 0, 0.0;
      currPnrThreshold, maxPnr, detectionFlag := p.pnrThreshold, 0.0, false;
      noiseLevel, noiseCounter := p.initNoiseLevel, 0;
      var ix, vs, ts := FreshArrays(Slots(p, true));
      peakIndices, peakVals, peakTimes := ix, vs, ts;
      refSignal := Zeros(RefSignalLength(p));
      saveBufferComplex := if p.saveBufferFlag then Zeros(SaveBufferLength(p)) else [];
      saveBufferFloat := [];
    }

    /** reset: counters, flag, threshold and noise level restored and fresh
        arrays; prev_peak_val, max_pnr and the buffers are kept. */
    method Reset()
      requires Valid()
      modifies this`peaksCount, this`samplesFromFirstPeak, this`prevPeakIndex, this`currPnrThreshold
      modifies this`detectionFlag, this`noiseLevel, this`noiseCounter
      modifies this`peakIndices, this`peakVals, this`peakTimes
      ensures Valid() && fresh(peakIndices) && fresh(peakVals) && fresh(peakTimes)
      ensures peaksCount == 0 && samplesFromFirstPeak == 0 && prevPeakIndex == 0 && !detectionFlag
      ensures currPnrThreshold == params.pnrThreshold && noiseLevel == params.initNoiseLevel && noiseCounter == 0
      ensures peakIndices[..] == PD.ZeroIndices(Slots(params, true))
      ensures peakVals[..] == PD.ZeroReals(Slots(params, true)) && peakTimes[..] == PD.ZeroReals(Slots(params, true))
    {
      RestoreCounters();
      RenewArrays();
    }

    /** The scalar half of reset. */
    method RestoreCounters()
      requires Valid()
      modifies this`peaksCount, this`samplesFromFirstPeak, this`prevPeakIndex, this`currPnrThreshold
      modifies this`detectionFlag, this`noiseLevel, this`noiseCounter
      ensures Valid()
      ensures peaksCount == 0 && samplesFromFirstPeak == 0 && prevPeakIndex == 0 && !detectionFlag
      ensures currPnrThreshold == params.pnrThreshold && noiseLevel == params.initNoiseLevel && noiseCounter == 0
    {
      peaksCount, samplesFromFirstPeak, prevPeakIndex := 0, 0, 0;
      currPnrThreshold, detectionFlag := params.pnrThreshold, false;
      noiseLevel, noiseCounter := params.initNoiseLevel, 0;
    }

    /** The array half of reset: `delete[]` and `new[]` of the three peak
        arrays. */
    method RenewArrays()
      requires Valid()
      modifies this`peakIndices, this`peakVals, this`peakTimes
      ensures Valid() && fresh(peakIndices) && fresh(peakVals) && fresh(peakTimes)
      ensures peakIndices[..] == PD.ZeroIndices(Slots(params, true))
      ensures peakVals[..] == PD.ZeroReals(Slots(params, true)) && peakTimes[..] == PD.ZeroReals(Slots(params, true))
    {
      var ix, vs, ts := FreshArrays(Slots(params, true));
      peakIndices, peakVals, peakTimes := ix, vs, ts;
    }

    /** reset_peaks_counter. */
    method ResetPeaksCounter()
      requires Valid()
      modifies this`peaksCount, this`samplesFromFirstPeak, this`prevPeakIndex
      ensures Valid() && Snapshot() == ResetCounter(old(Snapshot()))
    {
      peaksCount, samplesFromFirstPeak, prevPeakIndex := 0, 0, 0;
    }

    /** update_pnr_threshold. */
    method UpdatePnrThreshold()
      requires Valid() && noiseLevel != 0.0
      modifies this`currPnrThreshold
      ensures Valid() && currPnrThreshold == PnrThreshold(params, prevPeakVal, noiseLevel, maxPnr)
    {
      var cap := if maxPnr > 0.0 then maxPnr else 50.0;
      currPnrThreshold := MinReal(MaxReal(params.maxPeakMul * prevPeakVal / noiseLevel, params.pnrThreshold), cap);
    }

    /** The collapse step of insertPeak. */
    method CollapseToLast()
      requires Valid() && 2 <= peaksCount
      modifies this`peaksCount, this`samplesFromFirstPeak, this`prevPeakIndex, peakIndices, peakVals, peakTimes
      ensures Valid() && Snapshot() == Collapse(old(Snapshot()))
    {
      var last := peaksCount - 1;
      peakIndices[0] := 0;
      peakVals[0] := peakVals[last];
      peakTimes[0] := peakTimes[last];
      samplesFromFirstPeak := SizeSub(samplesFromFirstPeak, peakIndices[last]);
      prevPeakIndex := 0;
      peaksCount := 1;
    }

    /** The first check of insertPeak. */
    method PrepareInsert()
      requires Valid()
      modifies this`peaksCount, this`samplesFromFirstPeak, this`prevPeakIndex, peakIndices, peakVals, peakTimes
      ensures Valid() && Snapshot() == Prepare(params, old(Snapshot()))
    {
      var pc := peaksCount;
      if pc > 1 {
        var spacing := SizeSub(peakIndices[pc - 1], peakIndices[pc - 2]);
        if spacing > SizeAdd(params.refSeqLen, 1) || spacing < SizeSub(params.refSeqLen, 1) {
          CollapseToLast();
        }
      }
    }

    /** The write of a new peak at slot `peaksCount`. */
    method RecordPeak(val: real, time: real)
      requires Valid() && peaksCount < Slots(params, true) && noiseLevel != 0.0
      modifies this`peaksCount, this`prevPeakIndex, this`prevPeakVal, this`currPnrThreshold
      modifies peakIndices, peakVals, peakTimes
      ensures Valid() && Snapshot() == Record(params, old(Snapshot()), val, time)
    {
      // update_pnr_threshold reads none of the arrays, so it may come first.
      UpdatePnrThreshold();
      var pc := peaksCount;
      peakIndices[pc] := samplesFromFirstPeak;
      peakVals[pc] := val;
      peakTimes[pc] := time;
      peaksCount := pc + 1;
      prevPeakIndex := samplesFromFirstPeak;
      prevPeakVal := val;
    }

    /** insertPeak. */
    method InsertPeak(val: real, time: real)
      requires Valid() && noiseLevel != 0.0
      modifies this`peaksCount, this`samplesFromFirstPeak, this`prevPeakIndex, this`prevPeakVal
      modifies this`currPnrThreshold, this`detectionFlag, peakIndices, peakVals, peakTimes
      ensures Valid() && Insert(params, old(Snapshot()), val, time) == Stepped(Snapshot())
    {
      InsertInRange(params, Snapshot(), val, time);
      PrepareInsert();
      var total := params.totalNumPeaks;
      if peaksCount == total {
        var lastSpacing := SizeSub(samplesFromFirstPeak, peakIndices[peaksCount - 1]);
        if lastSpacing > SizeSub(params.refSeqLen, 1) && lastSpacing < SizeAdd(params.refSeqLen, 1) {
          detectionFlag := true;
          return;
        }
      } else if peaksCount == total + 1 {
        detectionFlag := true;
        return;
      }
      if peaksCount == 0 {
        samplesFromFirstPeak := 0;
      }
      RecordPeak(val, time);
    }

    /** updatePrevPeak (removeLastPeak when there is a peak). */
    method UpdatePrevPeak()
      requires Valid()
      modifies this`peaksCount
      ensures Valid() && Snapshot() == DropLast(old(Snapshot()))
    {
      if peaksCount != 0 {
        peaksCount := peaksCount - 1;
      }
    }

    /** process_corr. */
    method ProcessCorr(absVal: real, time: real) returns (found: bool)
      requires Valid() && noiseLevel != 0.0
      modifies this`peaksCount, this`samplesFromFirstPeak, this`prevPeakIndex, this`prevPeakVal
      modifies this`currPnrThreshold, this`detectionFlag, peakIndices, peakVals, peakTimes
      ensures Valid() && Process(params, old(Snapshot()), absVal, time) == (Stepped(Snapshot()), found)
    {
      ProcessInRange(params, Snapshot(), absVal, time);
      if absVal / noiseLevel > currPnrThreshold {
        if peaksCount == 0 {
          InsertPeak(absVal, time);
        } else {
          var fromLast := SizeSub(samplesFromFirstPeak, prevPeakIndex);
          if fromLast > SizeAdd(params.refSeqLen, 5) {
            ResetPeaksCounter();
            InsertPeak(absVal, time);
          } else if fromLast < SizeSub(params.refSeqLen, 5) {
            if prevPeakVal < absVal {
              UpdatePrevPeak();
              InsertPeak(absVal, time);
            }
          } else {
            InsertPeak(absVal, time);
          }
        }
        return true;
      }
      return false;
    }

    /** check_peaks. */
    method CheckPeaks() returns (ok: bool)
      requires Valid()
      ensures ok <==> AllSpaced(params, peakIndices[..])
    {
      var i := 0;
      while i < params.totalNumPeaks - 1
        invariant 0 <= i <= params.totalNumPeaks - 1
        invariant forall k :: 0 <= k < i ==> Spaced(params, SizeSub(peakIndices[k + 1], peakIndices[k]))
      {
        var gap := SizeSub(peakIndices[i + 1], peakIndices[i]);
        if gap < SizeSub(params.refSeqLen, params.peakDetTol) || gap > SizeAdd(params.refSeqLen, params.peakDetTol) {
          return false;
        }
        i := i + 1;
      }
      return true;
    }

    /** next. */
    method Next() returns (more: bool)
      requires Valid()
      modifies this`peaksCount, this`samplesFromFirstPeak, this`prevPeakIndex, this`detectionFlag
      ensures Valid() && Advance(params, old(Snapshot())) == (Snapshot(), more)
    {
      if peaksCount == 0 {
        return true;
      } else if peaksCount < params.totalNumPeaks {
        samplesFromFirstPeak := SizeAdd(samplesFromFirstPeak, 1);
        return true;
      } else if peaksCount == params.totalNumPeaks {
        var ok := CheckPeaks();
        if ok {
          detectionFlag := true;
          return false;
        }
        samplesFromFirstPeak := SizeAdd(samplesFromFirstPeak, 1);
        return true;
      }
      ResetPeaksCounter();
      return true;
    }

    /** The `++samples_from_first_peak` the cycle-start detector applies
        after each sample. */
    method CountSample()
      requires Valid()
      modifies this`samplesFromFirstPeak
      ensures Valid() && Snapshot() == old(Snapshot()).(samplesFromFirstPeak := SizeAdd(old(samplesFromFirstPeak), 1))
    {
      samplesFromFirstPeak := SizeAdd(samplesFromFirstPeak, 1);
    }

    /** updateNoiseLevel. */
    method UpdateNoiseLevel(avg: real, numSamps: Size)
      requires Valid()
      requires NearNoise(avg, noiseLevel) ==> (noiseCounter + numSamps) % SizeModulus != 0
      modifies this`noiseLevel, this`noiseCounter
      ensures Valid() && Snapshot() == UpdateNoise(old(Snapshot()), avg, numSamps)
    {
      if NearNoise(avg, noiseLevel) {
        noiseLevel := PD.NoiseMean(noiseCounter, noiseLevel, avg, numSamps);
        if noiseCounter < PD.LongMax {
          noiseCounter := PD.LongOf(noiseCounter + numSamps);
        } else {
          noiseCounter := 1;
        }
      }
    }

    /** get_max_peak_val: the largest registered peak value, or 0. */
    method GetMaxPeakVal() returns (m: real)
      requires Valid()
      ensures m == PD.MaxVal(peakVals[..peaksCount])
      ensures m >= 0.0 && forall k :: 0 <= k < peaksCount ==> peakVals[k] <= m
    {
      m := 0.0;
      var i := 0;
      while i < peaksCount
        invariant 0 <= i <= peaksCount
        invariant m == PD.MaxVal(peakVals[..i])
      {
        assert peakVals[..i + 1][..i] == peakVals[..i];
        if peakVals[i] > m {
          m := peakVals[i];
        }
        i := i + 1;
      }
      PD.MaxValSpec(peakVals[..peaksCount]);
    }

    /** avg_of_peak_vals: the mean peak value of the `totalNumPeaks` slots
        (the first value alone for one peak); also records the max PNR from
        the largest registered peak. */
    method AvgOfPeakVals() returns (a: real)
      requires Valid() && noiseLevel != 0.0
      modifies this`maxPnr
      ensures Valid() && a == AvgPeakVals(params, peakVals[..])
      ensures maxPnr == MaxPnrOf(params, PD.MaxVal(peakVals[..peaksCount]), noiseLevel)
    {
      var maxPeak := GetMaxPeakVal();
      if params.totalNumPeaks > 1 {
        var sum := 0.0;
        var i := 0;
        while i < params.totalNumPeaks
          invariant 0 <= i <= params.totalNumPeaks
          invariant sum == SumVals(peakVals[..], i)
        {
          sum := sum + peakVals[i];
          i := i + 1;
        }
        a := sum / params.totalNumPeaks as real;
      } else {
        a := peakVals[0];
      }
      maxPnr := MaxPnrOf(params, maxPeak, noiseLevel);
    }

    /** est_ch_pow_from_capture_ref_sig: the mean of the non-zero sample
        magnitudes of ref_signal (a float 0/0 when there are none). */
    method EstChPowFromCaptureRefSig() returns (e: Ext)
      requires Valid()
      ensures e == Div(PositiveSum(refSignal, |refSignal|), PositiveCount(refSignal, |refSignal|) as real)
    {
      var sum := 0.0;
      var count := 0;
      var i := 0;
      while i < |refSignal|
        invariant 0 <= i <= |refSignal|
        invariant sum == PositiveSum(refSignal, i) && count == PositiveCount(refSignal, i)
      {
        var elem := Mag(refSignal[i]);
        if elem > 0.0 {
          sum := sum + elem;
          count := count + 1;
        }
        i := i + 1;
      }
      e := Div(sum, count as real);
    }

    /** get_sync_time. */
    function GetSyncTime(): (t: real)
      reads this, peakIndices, peakVals, peakTimes
      requires Valid() && params.syncWithPeakFromLast <= peaksCount
      requires peaksCount - params.syncWithPeakFromLast < Slots(params, true)
      ensures t == SyncTime(params, Snapshot())
    {
      peakTimes[peaksCount - params.syncWithPeakFromLast]
    }

    /** save_float_data_into_buffer: with the save flag, the float buffer
        drops its oldest sample and takes the new one. */
    method SaveFloatDataIntoBuffer(x: real)
      requires Valid() && (params.saveBufferFlag ==> 0 < |saveBufferFloat|)
      modifies this`saveBufferFloat
      ensures Valid() && |saveBufferFloat| == old(|saveBufferFloat|)
      ensures saveBufferFloat == if params.saveBufferFlag then Shift(old(saveBufferFloat), x) else old(saveBufferFloat)
    {
      if params.saveBufferFlag {
        saveBufferFloat := Shift(saveBufferFloat, x);
      }
    }

    /** save_complex_data_into_buffer: ref_signal (and, with the save flag,
        the complex save buffer) drops its oldest sample and takes the new
        one. */
    method SaveComplexDataIntoBuffer(x: Complex)
      requires Valid()
      modifies this`refSignal, this`saveBufferComplex
      ensures Valid() && Snapshot() == old(Snapshot())
      ensures refSignal == Shift(old(refSignal), x)
      ensures saveBufferComplex == if params.saveBufferFlag then Shift(old(saveBufferComplex), x) else old(saveBufferComplex)
    {
      refSignal := Shift(refSignal, x);
      if params.saveBufferFlag {
        saveBufferComplex := Shift(saveBufferComplex, x);
      }
    }
  }
}
