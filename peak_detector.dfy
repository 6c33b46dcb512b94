// The peak detector of lib_csd/peakdetector.cpp: a state machine over the
// registered peaks of a correlation stream, looking for `totalNumPeaks`
// peaks spaced `refSeqLen` samples apart (within `peakDetTol`).
//
// The state is specified by the functions on `State` below; the class
// `PeakDetection` holds the same state in fields and arrays and its methods
// are proved to follow those functions.
module PeakDetector {
  import opened Common

  /** The configuration read by the constructor. */
  datatype Params = Params(refSeqLen: Size, totalNumPeaks: Size, pnrThreshold: real, peakDetTol: Size,
                           maxPeakMul: real, syncWithPeakFromLast: Size, isUpdatePnrThreshold: bool,
                           initNoiseLevel: real)

  predicate ParamsOk(p: Params)
  {
    2 <= p.totalNumPeaks && 0 < p.refSeqLen
  }

  /** The detector's fields; the four arrays become sequences. */
  datatype State = State(peaksCount: Size, samplesFromFirstPeak: Size, prevPeakIndex: Size,
                         prevPeakVal: real, currPnrThreshold: real, maxPnr: real, detectionFlag: bool,
                         noiseLevel: real, noiseCounter: int,
                         indices: seq<Size>, vals: seq<real>, corr: seq<Complex>, times: seq<real>)

  /** Arrays of `totalNumPeaks` slots, and no more registered peaks than slots. */
  predicate Inv(p: Params, s: State)
  {
    |s.indices| == p.totalNumPeaks && |s.vals| == p.totalNumPeaks
    && |s.corr| == p.totalNumPeaks && |s.times| == p.totalNumPeaks
    && s.peaksCount <= p.totalNumPeaks
  }

  /** The result of a step: the new state, or a write past the arrays. */
  datatype Step = Stepped(s: State) | OutOfRange

  /** The ends of the spacing tolerance, in size_t arithmetic. */
  function Lo(p: Params): Size { SizeSub(p.refSeqLen, p.peakDetTol) }
  function Hi(p: Params): Size { SizeAdd(p.refSeqLen, p.peakDetTol) }

  /** A gap within [ref - tol, ref + tol]. */
  predicate Spaced(p: Params, gap: Size)
  {
    Lo(p) <= gap <= Hi(p)
  }

  /** The last-peak test of insertPeak: strictly inside the tolerance as
      written (`fixed == false`), inclusive like every other spacing test
      when corrected. */
  predicate LastPeakFits(p: Params, gap: Size, fixed: bool)
  {
    if fixed then Spaced(p, gap) else Lo(p) < gap < Hi(p)
  }

  function ZeroIndices(n: nat): (r: seq<Size>)
    ensures |r| == n && forall i :: 0 <= i < n ==> r[i] == 0
  {
    seq(n, _ => 0)
  }

  function ZeroReals(n: nat): (r: seq<real>)
    ensures |r| == n && forall i :: 0 <= i < n ==> r[i] == 0.0
  {
    seq(n, _ => 0.0)
  }

  /** reset: counters and `prevPeakVal` zeroed, threshold and noise level
      restored, fresh arrays; `maxPnr` is kept. */
  function ResetState(p: Params, maxPnr: real): (r: State)
    ensures Inv(p, r) && r.peaksCount == 0 && !r.detectionFlag && r.maxPnr == maxPnr
  {
    State(0, 0, 0, 0.0, p.pnrThreshold, maxPnr, false, p.initNoiseLevel, 0,
          ZeroIndices(p.totalNumPeaks), ZeroReals(p.totalNumPeaks), Zeros(p.totalNumPeaks),
          ZeroReals(p.totalNumPeaks))
  }

  /** update_pnr_threshold. */
  function UpdatePnr(p: Params, s: State): State
  {
    if !p.isUpdatePnrThreshold then s
    else if s.maxPnr > 0.0 then
      s.(currPnrThreshold := MinReal(MaxReal(p.maxPeakMul * s.prevPeakVal, p.pnrThreshold), s.maxPnr * p.maxPeakMul))
    else
      s.(currPnrThreshold := MaxReal(s.currPnrThreshold, MaxReal(p.maxPeakMul * s.prevPeakVal, p.pnrThreshold)))
  }

  /** Only the last registered peak is kept, moved to slot 0 with index 0,
      and the sample count is rebased on it. */
  function Collapse(s: State): (r: State)
    requires 2 <= s.peaksCount <= |s.indices| && |s.vals| == |s.corr| == |s.times| == |s.indices|
  {
    var last := s.peaksCount - 1;
    s.(indices := s.indices[0 := 0], corr := s.corr[0 := s.corr[last]], vals := s.vals[0 := s.vals[last]],
       times := s.times[0 := s.times[last]],
       samplesFromFirstPeak := SizeSub(s.samplesFromFirstPeak, s.indices[last]),
       peaksCount := 1, prevPeakIndex := 0)
  }

  /** The checks insertPeak makes before writing the new peak. */
  function Prepare(p: Params, s: State, fixed: bool): (r: State)
    requires Inv(p, s)
    ensures Inv(p, r)
    ensures r.peaksCount == s.peaksCount || r.peaksCount == 1
  {
    var pc := s.peaksCount;
    if pc == 0 then s.(samplesFromFirstPeak := 0)
    else if pc > 1 && pc < SizeSub(p.totalNumPeaks, 1) then
      if Spaced(p, SizeSub(s.indices[pc - 1], s.indices[pc - 2])) then s else Collapse(s)
    else if pc == SizeSub(p.totalNumPeaks, 1) then
      if LastPeakFits(p, SizeSub(s.samplesFromFirstPeak, s.indices[pc - 1]), fixed) then s.(detectionFlag := true)
      else s
    else s
  }

  /** insertPeak: after `Prepare`, the peak is written at slot `peaksCount`
      (out of range once every slot is used); unless a detection is now
      flagged, it becomes the previous peak and the threshold is updated. */
  function Insert(p: Params, s: State, sample: Complex, val: real, time: real, fixed: bool): Step
    requires Inv(p, s)
  {
    var t := Prepare(p, s, fixed);
    if t.peaksCount >= p.totalNumPeaks then OutOfRange
    else
      var u := WritePeak(t, sample, val, time);
      if u.detectionFlag then Stepped(u)
      else Stepped(UpdatePnr(p, u.(prevPeakIndex := u.samplesFromFirstPeak, prevPeakVal := val)))
  }

  /** The new peak in slot `peaksCount`, which is then counted. */
  function WritePeak(t: State, sample: Complex, val: real, time: real): State
    requires t.peaksCount < |t.indices| == |t.corr| == |t.vals| == |t.times| < SizeModulus
  {
    var pc := t.peaksCount;
    t.(indices := t.indices[pc := t.samplesFromFirstPeak], corr := t.corr[pc := sample],
       vals := t.vals[pc := val], times := t.times[pc := time], peaksCount := pc + 1)
  }

  /** updatePrevPeak: the last peak is dropped (a warning when there is none). */
  function DropLast(s: State): State
  {
    if s.peaksCount == 0 then s else s.(peaksCount := s.peaksCount - 1)
  }

  /** The peak value of a correlation sample: |c| / ref / noise. */
  function PeakValue(p: Params, noise: real, sample: Complex): real
    requires 0 < p.refSeqLen && noise != 0.0
  {
    Mag(sample) / (p.refSeqLen as real) / noise
  }

  /** process_corr. */
  function Process(p: Params, s: State, sample: Complex, time: real, fixed: bool): Step
    requires ParamsOk(p) && Inv(p, s) && s.noiseLevel != 0.0
  {
    var fromLast := SizeSub(s.samplesFromFirstPeak, s.prevPeakIndex);
    var v := PeakValue(p, s.noiseLevel, sample);
    if s.peaksCount == 0 then Insert(p, s, sample, v, time, fixed)
    else if fromLast > Hi(p) then Insert(p, ResetState(p, s.maxPnr), sample, v, time, fixed)
    else if fromLast < Lo(p) then
      if s.prevPeakVal < v then Insert(p, DropLast(s), sample, v, time, fixed) else Stepped(s)
    else
      Insert(p, if s.prevPeakVal < 0.8 * v then DropLast(s) else s, sample, v, time, fixed)
  }

  /** increase_samples_counter. */
  function IncreaseSamples(s: State): State
  {
    if s.peaksCount > 0 then s.(samplesFromFirstPeak := SizeAdd(s.samplesFromFirstPeak, 1)) else s
  }

  const LongMax: int := 0x7FFF_FFFF_FFFF_FFFF

  /** A size_t value read back as a long. */
  function LongOf(x: int): int
  {
    var w := x % SizeModulus;
    if w <= LongMax then w else w - SizeModulus
  }

  /** The relative-deviation test of updateNoiseLevel; with a zero level
      the float quotient is inf or NaN and the test fails. */
  predicate CloseToNoise(avg: real, noise: real)
  {
    noise != 0.0 && AbsReal(avg - noise) / noise < 0.1
  }

  function AbsReal(x: real): real { if x < 0.0 then -x else x }

  /** (counter * level + avg * n) / (counter + n), the divisor in size_t. */
  function NoiseMean(counter: int, level: real, avg: real, n: Size): real
    requires (counter + n) % SizeModulus != 0
  {
    (counter as real * level + avg * n as real) / (((counter + n) % SizeModulus) as real)
  }

  /** updateNoiseLevel: the count-weighted running mean, taken only when
      `avg` is within 10% of the current level. The divisor is the size_t
      sum of counter and sample count. */
  function UpdateNoise(s: State, avg: real, numSamps: Size): State
    requires CloseToNoise(avg, s.noiseLevel) ==> (s.noiseCounter + numSamps) % SizeModulus != 0
  {
    if CloseToNoise(avg, s.noiseLevel) then
      s.(noiseLevel := NoiseMean(s.noiseCounter, s.noiseLevel, avg, numSamps),
         noiseCounter := if s.noiseCounter < LongMax then LongOf(s.noiseCounter + numSamps) else 1)
    else s
  }

  /** check_peaks: every consecutive gap of the `totalNumPeaks` slots lies
      within the tolerance. */
  predicate AllSpaced(p: Params, indices: seq<Size>)
  {
    forall i :: 0 <= i < |indices| - 1 ==> Spaced(p, SizeSub(indices[i + 1], indices[i]))
  }

  /** The sum of |corr[k]| for lo <= k < hi. */
  function MagSum(corr: seq<Complex>, lo: nat, hi: nat): real
    requires lo <= hi <= |corr|
    decreases hi - lo
  {
    if lo == hi then 0.0 else MagSum(corr, lo, hi - 1) + Mag(corr[hi - 1])
  }

  /** The largest of the values and 0. */
  function MaxVal(vals: seq<real>): (m: real)
  {
    if vals == [] then 0.0 else MaxReal(MaxVal(vals[..|vals| - 1]), vals[|vals| - 1])
  }

  /** MaxVal is at least 0 and every value, and is 0 or one of them. */
  lemma {:induction false} MaxValSpec(vals: seq<real>)
    ensures MaxVal(vals) >= 0.0
    ensures forall k :: 0 <= k < |vals| ==> vals[k] <= MaxVal(vals)
    ensures MaxVal(vals) == 0.0 || exists k :: 0 <= k < |vals| && MaxVal(vals) == vals[k]
  {
    if vals != [] {
      var init := vals[..|vals| - 1];
      MaxValSpec(init);
      assert forall k :: 0 <= k < |init| ==> vals[k] == init[k];
    }
  }

  /** The max PNR avg_of_peak_vals records: the scaled largest peak, but
      never below the configured threshold. */
  function MaxPnrOf(p: Params, maxPeak: real): (r: real)
    ensures r >= p.pnrThreshold && r >= maxPeak * p.maxPeakMul
    ensures r == p.pnrThreshold || r == maxPeak * p.maxPeakMul
  {
    MaxReal(maxPeak * p.maxPeakMul, p.pnrThreshold)
  }

  function ExtDivBy(e: Ext, d: real): Ext
  {
    match e
    case NonFinite => NonFinite
    case Fin(x) => Div(x, d)
  }

  // ---------------------------------------------------------------------
  // Properties of the specification.

  /** The first peak restarts the sample count at 0 and lands in slot 0. */
  lemma InsertFirstPeak(p: Params, s: State, sample: Complex, val: real, time: real, fixed: bool)
    requires ParamsOk(p) && Inv(p, s) && s.peaksCount == 0
    ensures Insert(p, s, sample, val, time, fixed).Stepped?
    ensures var r := Insert(p, s, sample, val, time, fixed).s;
            r.peaksCount == 1 && r.samplesFromFirstPeak == 0 && r.indices[0] == 0
            && r.vals[0] == val && r.corr[0] == sample && r.times[0] == time
            && (!s.detectionFlag ==> r.prevPeakIndex == 0 && r.prevPeakVal == val)
  {
  }

  /** Badly spaced registered peaks (with 1 < peaksCount < total - 1)
      collapse onto the last one before the new peak is added. */
  lemma InsertCollapses(p: Params, s: State, sample: Complex, val: real, time: real, fixed: bool)
    requires ParamsOk(p) && Inv(p, s)
    requires 1 < s.peaksCount < p.totalNumPeaks - 1
    requires !Spaced(p, SizeSub(s.indices[s.peaksCount - 1], s.indices[s.peaksCount - 2]))
    ensures Insert(p, s, sample, val, time, fixed).Stepped?
    ensures var r := Insert(p, s, sample, val, time, fixed).s;
            var last := s.peaksCount - 1;
            r.peaksCount == 2 && r.indices[0] == 0 && r.vals[0] == s.vals[last] && r.corr[0] == s.corr[last]
            && r.times[0] == s.times[last]
            && r.samplesFromFirstPeak == SizeSub(s.samplesFromFirstPeak, s.indices[last])
            && r.indices[1] == r.samplesFromFirstPeak && r.vals[1] == val
  {
  }

  /** Well spaced peaks are kept and the new one is appended after them. */
  lemma InsertAppends(p: Params, s: State, sample: Complex, val: real, time: real, fixed: bool)
    requires ParamsOk(p) && Inv(p, s)
    requires 0 < s.peaksCount < p.totalNumPeaks
    requires 1 < s.peaksCount < p.totalNumPeaks - 1 ==>
               Spaced(p, SizeSub(s.indices[s.peaksCount - 1], s.indices[s.peaksCount - 2]))
    ensures Insert(p, s, sample, val, time, fixed).Stepped?
    ensures var r := Insert(p, s, sample, val, time, fixed).s;
            var pc := s.peaksCount;
            r.peaksCount == pc + 1 && r.indices[..pc] == s.indices[..pc] && r.vals[..pc] == s.vals[..pc]
            && r.indices[pc] == s.samplesFromFirstPeak && r.vals[pc] == val
            && r.samplesFromFirstPeak == s.samplesFromFirstPeak
  {
    var pc := s.peaksCount;
    var t := Prepare(p, s, fixed);
    assert t.indices == s.indices && t.vals == s.vals && t.peaksCount == pc
           && t.samplesFromFirstPeak == s.samplesFromFirstPeak;
    var u := WritePeak(t, sample, val, time);
    assert u.indices[..pc] == s.indices[..pc] && u.vals[..pc] == s.vals[..pc];
  }

  /** A detection is flagged exactly by an insert at slot total - 1 whose
      spacing from the last peak fits; such an insert leaves the previous
      peak and the threshold alone. */
  lemma DetectionOnlyAtLast(p: Params, s: State, sample: Complex, val: real, time: real, fixed: bool)
    requires ParamsOk(p) && Inv(p, s) && !s.detectionFlag && s.peaksCount < p.totalNumPeaks
    ensures Insert(p, s, sample, val, time, fixed).Stepped?
    ensures var r := Insert(p, s, sample, val, time, fixed).s;
            && (r.detectionFlag <==> (s.peaksCount == p.totalNumPeaks - 1 && s.peaksCount != 0
                                      && LastPeakFits(p, SizeSub(s.samplesFromFirstPeak, s.indices[s.peaksCount - 1]), fixed)))
            && (r.detectionFlag ==> r.prevPeakIndex == s.prevPeakIndex && r.prevPeakVal == s.prevPeakVal
                                    && r.currPnrThreshold == s.currPnrThreshold && r.peaksCount == p.totalNumPeaks)
  {
  }

  /** An insert writes past the arrays exactly when every slot is in use. */
  lemma OutOfRangeIffFull(p: Params, s: State, sample: Complex, val: real, time: real, fixed: bool)
    requires ParamsOk(p) && Inv(p, s)
    ensures Insert(p, s, sample, val, time, fixed) == OutOfRange <==> s.peaksCount == p.totalNumPeaks
  {
  }

  /** As written: a last peak exactly `tol` off the reference spacing is
      accepted by process_corr's inclusive test but fails insertPeak's
      strict one, so all slots fill without a detection. */
  lemma LastPeakOnBoundary(p: Params, s: State, sample: Complex, val: real, time: real)
    requires ParamsOk(p) && Inv(p, s) && !s.detectionFlag
    requires s.peaksCount == p.totalNumPeaks - 1
    requires SizeSub(s.samplesFromFirstPeak, s.indices[s.peaksCount - 1]) == Hi(p)
    requires p.peakDetTol <= p.refSeqLen && p.refSeqLen + p.peakDetTol < SizeModulus
    ensures Spaced(p, Hi(p))
    ensures Insert(p, s, sample, val, time, false).Stepped?
    ensures var r := Insert(p, s, sample, val, time, false).s;
            r.peaksCount == p.totalNumPeaks && !r.detectionFlag
  {
  }

  /** As written: from such a full state, the next peak at a good spacing
      that is not much higher than the previous one is written at slot
      `totalNumPeaks`, past the arrays. */
  lemma FullArrayOverflows(p: Params, s: State, sample: Complex, time: real)
    requires ParamsOk(p) && Inv(p, s) && s.noiseLevel != 0.0
    requires s.peaksCount == p.totalNumPeaks && !s.detectionFlag
    requires Spaced(p, SizeSub(s.samplesFromFirstPeak, s.prevPeakIndex))
    requires s.prevPeakVal >= 0.8 * PeakValue(p, s.noiseLevel, sample)
    ensures Process(p, s, sample, time, false) == OutOfRange
  {
  }

  /** The invariant of the corrected detector between calls: a full array
      means a detection, and without one the previous peak is the last
      registered one. */
  predicate Reachable(p: Params, s: State)
  {
    Inv(p, s)
    && (s.peaksCount == p.totalNumPeaks ==> s.detectionFlag)
    && (0 < s.peaksCount && !s.detectionFlag ==> s.prevPeakIndex == s.indices[s.peaksCount - 1])
  }

  lemma InsertKeepsPrev(p: Params, s: State, sample: Complex, val: real, time: real, fixed: bool)
    requires ParamsOk(p) && Inv(p, s) && s.peaksCount < p.totalNumPeaks
    ensures Insert(p, s, sample, val, time, fixed).Stepped?
    ensures var r := Insert(p, s, sample, val, time, fixed).s;
            Inv(p, r) && (!r.detectionFlag ==> r.prevPeakIndex == r.indices[r.peaksCount - 1])
  {
  }

  /** Insert fills the last slot only by way of the last-peak test, so when
      that test passes for a peak arriving at the last slot the result is
      `Reachable` again. */
  lemma InsertReachable(p: Params, s: State, sample: Complex, val: real, time: real, fixed: bool)
    requires ParamsOk(p) && Inv(p, s) && s.peaksCount < p.totalNumPeaks
    requires s.peaksCount == p.totalNumPeaks - 1 ==>
               LastPeakFits(p, SizeSub(s.samplesFromFirstPeak, s.indices[s.peaksCount - 1]), fixed)
    ensures Insert(p, s, sample, val, time, fixed).Stepped?
    ensures Reachable(p, Insert(p, s, sample, val, time, fixed).s)
  {
    InsertKeepsPrev(p, s, sample, val, time, fixed);
    var t := Prepare(p, s, fixed);
    assert t.peaksCount == p.totalNumPeaks - 1 ==> s.peaksCount == p.totalNumPeaks - 1 && t.detectionFlag;
  }

  /** Corrected: while no detection is flagged, process_corr never writes
      past the arrays and keeps `Reachable`. */
  lemma ProcessStaysInRange(p: Params, s: State, sample: Complex, time: real)
    requires ParamsOk(p) && Reachable(p, s) && !s.detectionFlag && s.noiseLevel != 0.0
    ensures Process(p, s, sample, time, true).Stepped?
    ensures Reachable(p, Process(p, s, sample, time, true).s)
  {
    var fromLast := SizeSub(s.samplesFromFirstPeak, s.prevPeakIndex);
    var v := PeakValue(p, s.noiseLevel, sample);
    var pc := s.peaksCount;
    if pc == 0 {
      assert Process(p, s, sample, time, true) == Insert(p, s, sample, v, time, true);
      InsertReachable(p, s, sample, v, time, true);
    } else if fromLast > Hi(p) {
      var r := ResetState(p, s.maxPnr);
      assert Process(p, s, sample, time, true) == Insert(p, r, sample, v, time, true);
      InsertReachable(p, r, sample, v, time, true);
    } else if fromLast < Lo(p) {
      if s.prevPeakVal < v {
        assert Process(p, s, sample, time, true) == Insert(p, DropLast(s), sample, v, time, true);
        InsertReachable(p, DropLast(s), sample, v, time, true);
      }
    } else {
      var t := if s.prevPeakVal < 0.8 * v then DropLast(s) else s;
      assert Process(p, s, sample, time, true) == Insert(p, t, sample, v, time, true);
      if t == s && pc == p.totalNumPeaks - 1 {
        assert SizeSub(s.samplesFromFirstPeak, s.indices[pc - 1]) == fromLast;
      }
      InsertReachable(p, t, sample, v, time, true);
    }
  }

  /** The registered indices and the previous peak never lie after the
      current sample count, so the size_t spacings never wrap. */
  predicate Ordered(s: State)
  {
    s.peaksCount <= |s.indices|
    && s.prevPeakIndex <= s.samplesFromFirstPeak
    && forall i :: 0 <= i < s.peaksCount ==> s.indices[i] <= s.samplesFromFirstPeak
  }

  lemma InsertOrdered(p: Params, s: State, sample: Complex, val: real, time: real, fixed: bool)
    requires ParamsOk(p) && Inv(p, s) && Ordered(s) && !s.detectionFlag
    requires Insert(p, s, sample, val, time, fixed).Stepped?
    ensures Ordered(Insert(p, s, sample, val, time, fixed).s)
  {
  }

  /** Corrected process_corr keeps `Ordered`. */
  lemma ProcessOrdered(p: Params, s: State, sample: Complex, time: real)
    requires ParamsOk(p) && Reachable(p, s) && Ordered(s) && !s.detectionFlag && s.noiseLevel != 0.0
    ensures Process(p, s, sample, time, true).Stepped? && Ordered(Process(p, s, sample, time, true).s)
  {
    ProcessStaysInRange(p, s, sample, time);
    var fromLast := SizeSub(s.samplesFromFirstPeak, s.prevPeakIndex);
    var v := PeakValue(p, s.noiseLevel, sample);
    if s.peaksCount == 0 {
      InsertOrdered(p, s, sample, v, time, true);
    } else if fromLast > Hi(p) {
      InsertOrdered(p, ResetState(p, s.maxPnr), sample, v, time, true);
    } else if fromLast < Lo(p) {
      if s.prevPeakVal < v {
        InsertOrdered(p, DropLast(s), sample, v, time, true);
      }
    } else {
      InsertOrdered(p, if s.prevPeakVal < 0.8 * v then DropLast(s) else s, sample, v, time, true);
    }
  }

  /** Counting samples keeps `Ordered` until the count would wrap. */
  lemma IncreaseOrdered(s: State)
    requires Ordered(s) && s.samplesFromFirstPeak + 1 < SizeModulus
    ensures Ordered(IncreaseSamples(s))
    ensures s.peaksCount == 0 ==> IncreaseSamples(s) == s
  {
  }

  /** The three ways process_corr treats a peak after the first. */
  lemma ProcessTooFar(p: Params, s: State, sample: Complex, time: real, fixed: bool)
    requires ParamsOk(p) && Inv(p, s) && s.noiseLevel != 0.0 && s.peaksCount > 0
    requires SizeSub(s.samplesFromFirstPeak, s.prevPeakIndex) > Hi(p)
    ensures Process(p, s, sample, time, fixed).Stepped?
    ensures var r := Process(p, s, sample, time, fixed).s;
            r.peaksCount == 1 && r.indices[0] == 0 && r.samplesFromFirstPeak == 0
            && r.vals[0] == PeakValue(p, s.noiseLevel, sample)
            && r.noiseLevel == p.initNoiseLevel && r.noiseCounter == 0
  {
  }

  /** A peak too close to the last one replaces it only when higher; the
      replacement may still collapse badly spaced earlier peaks. */
  lemma ProcessTooClose(p: Params, s: State, sample: Complex, time: real, fixed: bool)
    requires ParamsOk(p) && Reachable(p, s) && !s.detectionFlag && s.noiseLevel != 0.0 && s.peaksCount > 0
    requires SizeSub(s.samplesFromFirstPeak, s.prevPeakIndex) <= Hi(p)
    requires SizeSub(s.samplesFromFirstPeak, s.prevPeakIndex) < Lo(p)
    ensures Process(p, s, sample, time, fixed).Stepped?
    ensures var r := Process(p, s, sample, time, fixed).s;
            var v := PeakValue(p, s.noiseLevel, sample);
            && (s.prevPeakVal >= v ==> r == s)
            && (s.prevPeakVal < v ==> 0 < r.peaksCount <= s.peaksCount && r.vals[r.peaksCount - 1] == v)
  {
  }

  /** A peak at a good spacing is appended, after dropping the last peak
      when that one is below 80% of the new value. */
  lemma ProcessInWindow(p: Params, s: State, sample: Complex, time: real, fixed: bool)
    requires ParamsOk(p) && Reachable(p, s) && !s.detectionFlag && s.noiseLevel != 0.0 && s.peaksCount > 0
    requires Spaced(p, SizeSub(s.samplesFromFirstPeak, s.prevPeakIndex))
    requires s.peaksCount < p.totalNumPeaks
    ensures Process(p, s, sample, time, fixed).Stepped?
    ensures var r := Process(p, s, sample, time, fixed).s;
            var v := PeakValue(p, s.noiseLevel, sample);
            && 0 < r.peaksCount && r.vals[r.peaksCount - 1] == v
            && (s.prevPeakVal < 0.8 * v ==> r.peaksCount <= s.peaksCount)
            && (s.prevPeakVal >= 0.8 * v ==> r.peaksCount <= s.peaksCount + 1)
  {
  }

  /** update_pnr_threshold changes only the threshold: never when updates
      are off; without a max PNR it never lowers it; with one it caps it
      at max_pnr * max_peak_mul. */
  lemma UpdatePnrSpec(p: Params, s: State)
    ensures UpdatePnr(p, s) == s.(currPnrThreshold := UpdatePnr(p, s).currPnrThreshold)
    ensures !p.isUpdatePnrThreshold ==> UpdatePnr(p, s) == s
    ensures p.isUpdatePnrThreshold && s.maxPnr <= 0.0 ==>
              UpdatePnr(p, s).currPnrThreshold >= s.currPnrThreshold
              && UpdatePnr(p, s).currPnrThreshold >= p.pnrThreshold
    ensures p.isUpdatePnrThreshold && s.maxPnr > 0.0 ==>
              UpdatePnr(p, s).currPnrThreshold <= s.maxPnr * p.maxPeakMul
              && (p.pnrThreshold <= s.maxPnr * p.maxPeakMul ==> p.pnrThreshold <= UpdatePnr(p, s).currPnrThreshold)
  {
  }

  /** updateNoiseLevel leaves the state alone unless `avg` is within 10% of
      the level; then, while the counter does not wrap, the new level is
      the count-weighted mean of the old level and `avg`, so it lies
      between them, and the counter grows by the sample count. */
  lemma UpdateNoiseSpec(s: State, avg: real, numSamps: Size)
    requires 0 <= s.noiseCounter && 0 < numSamps && s.noiseCounter + numSamps <= LongMax
    ensures !CloseToNoise(avg, s.noiseLevel) ==> UpdateNoise(s, avg, numSamps) == s
    ensures CloseToNoise(avg, s.noiseLevel) ==>
              var r := UpdateNoise(s, avg, numSamps);
              && MinReal(s.noiseLevel, avg) <= r.noiseLevel <= MaxReal(s.noiseLevel, avg)
              && r.noiseCounter == s.noiseCounter + numSamps
              && r == s.(noiseLevel := r.noiseLevel, noiseCounter := r.noiseCounter)
  {
    if CloseToNoise(avg, s.noiseLevel) {
      NoiseMeanBetween(s.noiseCounter, s.noiseLevel, avg, numSamps);
    }
  }

  /** Without wrap-around the divisor of NoiseMean is the plain sum, so the
      mean lies between the old level and `avg`. */
  lemma NoiseMeanBetween(counter: int, level: real, avg: real, n: Size)
    requires 0 <= counter && 0 < counter + n < SizeModulus && 0 < n
    ensures MinReal(level, avg) <= NoiseMean(counter, level, avg, n) <= MaxReal(level, avg)
  {
    var c, k := counter as real, n as real;
    var d := ((counter + n) % SizeModulus) as real;
    var m := NoiseMean(counter, level, avg, n);
    assert m * d == c * level + avg * k;
    assert (counter + n) % SizeModulus == counter + n;
    assert d == c + k;
    WeightedMeanBetween(c, level, k, avg, m);
  }

  /** A count-weighted mean, given by `m * (c + n) == c * x + y * n`, lies
      between the two values. */
  lemma WeightedMeanBetween(c: real, x: real, n: real, y: real, m: real)
    requires 0.0 <= c && 0.0 < n && m * (c + n) == c * x + y * n
    ensures MinReal(x, y) <= m <= MaxReal(x, y)
  {
    var lo, hi := MinReal(x, y), MaxReal(x, y);
    assert c * x >= c * lo && y * n >= lo * n by {
      assert c * (x - lo) >= 0.0;
      assert n * (y - lo) >= 0.0;
    }
    assert c * x <= c * hi && y * n <= hi * n by {
      assert c * (hi - x) >= 0.0;
      assert n * (hi - y) >= 0.0;
    }
    assert (m - lo) * (c + n) == c * x + y * n - lo * (c + n);
    assert (hi - m) * (c + n) == hi * (c + n) - (c * x + y * n);
  }

  /** The sync time is the time of the peak `syncWithPeakFromLast` places
      from the end of the registered ones. */
  function SyncTime(p: Params, s: State): (t: real)
    requires Inv(p, s) && p.syncWithPeakFromLast <= s.peaksCount && s.peaksCount - p.syncWithPeakFromLast < p.totalNumPeaks
    ensures t == s.times[s.peaksCount - p.syncWithPeakFromLast]
  {
    s.times[s.peaksCount - p.syncWithPeakFromLast]
  }

  /** Four fresh arrays of n slots, as ResetState describes them. */
  method FreshArrays(n: nat) returns (ix: array<Size>, vs: array<real>, cs: array<Complex>, ts: array<real>)
    ensures fresh(ix) && fresh(vs) && fresh(cs) && fresh(ts) && vs != ts
    ensures ix.Length == n && vs.Length == n && cs.Length == n && ts.Length == n
    ensures ix[..] == ZeroIndices(n) && vs[..] == ZeroReals(n)
    ensures cs[..] == Zeros(n) && ts[..] == ZeroReals(n)
  {
    ix := new Size[n](_ => 0);
    vs := new real[n](_ => 0.0);
    cs := new Complex[n](_ => Zero);
    ts := new real[n](_ => 0.0);
    assert ix[..] == ZeroIndices(n);
    assert vs[..] == ZeroReals(n);
    assert cs[..] == Zeros(n);
    assert ts[..] == ZeroReals(n);
  }

  /** The detector object. The configuration is fixed at construction; the
      four arrays are replaced by fresh ones on every reset. */
  class PeakDetection {
    const params: Params
    var peaksCount: Size
    var samplesFromFirstPeak: Size
    var prevPeakIndex: Size
    var prevPeakVal: real
    var currPnrThreshold: real
    var maxPnr: real
    var detectionFlag: bool
    var noiseLevel: real
    var noiseCounter: int
    var peakIndices: array<Size>
    var peakVals: array<real>
    var corrSamples: array<Complex>
    var peakTimes: array<real>

    /** A detector whose configuration the scan can run on, with its four
        arrays of total_num_peaks slots. */
    ghost predicate Valid()
      reads this
    {
      ParamsOk(params)
      && peakIndices.Length == params.totalNumPeaks && peakVals.Length == params.totalNumPeaks
      && corrSamples.Length == params.totalNumPeaks && peakTimes.Length == params.totalNumPeaks
      && peakVals != peakTimes
      && peaksCount <= params.totalNumPeaks
    }

    function Snapshot(): State
      reads this, peakIndices, peakVals, corrSamples, peakTimes
    {
      State(peaksCount, samplesFromFirstPeak, prevPeakIndex, prevPeakVal, currPnrThreshold, maxPnr,
            detectionFlag, noiseLevel, noiseCounter, peakIndices[..], peakVals[..], corrSamples[..], peakTimes[..])
    }

    lemma SnapshotInv()
      requires Valid()
      ensures Inv(params, Snapshot())
    {
    }

    /** The constructor: empty detector, threshold and noise level from the
        configuration (the fields C++ leaves unset start at 0). Any
        configuration is accepted; the detector is valid exactly when the
        configuration is. */
    constructor (p: Params)
      ensures params == p && (Valid() <==> ParamsOk(p)) && peakVals != peakTimes
      ensures Snapshot() == ResetState(p, 0.0)
    {
      params := p;
      peaksCount, samplesFromFirstPeak, prevPeakIndex, prevPeakVal := 0, 0, 0, 0.0;
      currPnrThreshold, maxPnr, detectionFlag := p.pnrThreshold, 0.0, false;
      noiseLevel, noiseCounter := p.initNoiseLevel, 0;
      var ix, vs, cs, ts := FreshArrays(p.totalNumPeaks);
      peakIndices, peakVals, corrSamples, peakTimes := ix, vs, cs, ts;
    }

    /** reset. */
    method Reset()
      requires ParamsOk(params)
      modifies this
      ensures Valid()
      ensures fresh(peakIndices) && fresh(peakVals) && fresh(corrSamples) && fresh(peakTimes)
      ensures Snapshot() == ResetState(params, old(maxPnr))
    {
      ResetScalars();
      RenewArrays();
      ResetShape();
    }

    /** The counters, flags and levels reset restores. */
    method ResetScalars()
      modifies this`peaksCount, this`samplesFromFirstPeak, this`prevPeakIndex, this`prevPeakVal
      modifies this`currPnrThreshold, this`detectionFlag, this`noiseLevel, this`noiseCounter
      ensures peaksCount == 0 && samplesFromFirstPeak == 0 && prevPeakIndex == 0 && prevPeakVal == 0.0
      ensures currPnrThreshold == params.pnrThreshold && !detectionFlag
      ensures noiseLevel == params.initNoiseLevel && noiseCounter == 0
    {
      peaksCount, samplesFromFirstPeak, prevPeakIndex, prevPeakVal := 0, 0, 0, 0.0;
      currPnrThreshold, detectionFlag := params.pnrThreshold, false;
      noiseLevel, noiseCounter := params.initNoiseLevel, 0;
    }

    /** The `delete[]`/`new[]` pairs of reset: four fresh zeroed arrays. */
    method RenewArrays()
      modifies this`peakIndices, this`peakVals, this`corrSamples, this`peakTimes
      ensures fresh(peakIndices) && fresh(peakVals) && fresh(corrSamples) && fresh(peakTimes)
      ensures peakVals != peakTimes
      ensures peakIndices[..] == ZeroIndices(params.totalNumPeaks) && peakVals[..] == ZeroReals(params.totalNumPeaks)
      ensures corrSamples[..] == Zeros(params.totalNumPeaks) && peakTimes[..] == ZeroReals(params.totalNumPeaks)
    {
      var ix, vs, cs, ts := FreshArrays(params.totalNumPeaks);
      peakIndices, peakVals, corrSamples, peakTimes := ix, vs, cs, ts;
    }

    /** Fields as reset leaves them make up ResetState. */
    lemma ResetShape()
      requires ParamsOk(params) && peakVals != peakTimes
      requires peaksCount == 0 && samplesFromFirstPeak == 0 && prevPeakIndex == 0 && prevPeakVal == 0.0
      requires currPnrThreshold == params.pnrThreshold && !detectionFlag
      requires noiseLevel == params.initNoiseLevel && noiseCounter == 0
      requires peakIndices[..] == ZeroIndices(params.totalNumPeaks) && peakVals[..] == ZeroReals(params.totalNumPeaks)
      requires corrSamples[..] == Zeros(params.totalNumPeaks) && peakTimes[..] == ZeroReals(params.totalNumPeaks)
      ensures Valid() && Snapshot() == ResetState(params, maxPnr)
    {
    }

    /** reset_peaks_counter. */
    method ResetPeaksCounter()
      modifies this`peaksCount
      ensures peaksCount == 0
    {
      peaksCount := 0;
    }

    /** update_pnr_threshold. */
    method UpdatePnrThreshold()
      requires Valid()
      modifies this`currPnrThreshold
      ensures Valid()
      ensures Snapshot() == UpdatePnr(params, old(Snapshot()))
    {
      if params.isUpdatePnrThreshold {
        if maxPnr > 0.0 {
          currPnrThreshold := MinReal(MaxReal(params.maxPeakMul * prevPeakVal, params.pnrThreshold), maxPnr * params.maxPeakMul);
        } else {
          currPnrThreshold := MaxReal(currPnrThreshold, MaxReal(params.maxPeakMul * prevPeakVal, params.pnrThreshold));
        }
      }
    }

    /** The collapse step of insertPeak. */
    method CollapseToLast()
      requires Valid() && 2 <= peaksCount
      modifies this, peakIndices, peakVals, corrSamples, peakTimes
      ensures Valid() && peakIndices == old(peakIndices) && peakVals == old(peakVals)
      ensures corrSamples == old(corrSamples) && peakTimes == old(peakTimes)
      ensures Snapshot() == Collapse(old(Snapshot()))
    {
      var last := peaksCount - 1;
      peakIndices[0] := 0;
      corrSamples[0] := corrSamples[last];
      peakVals[0] := peakVals[last];
      peakTimes[0] := peakTimes[last];
      samplesFromFirstPeak := SizeSub(samplesFromFirstPeak, peakIndices[last]);
      peaksCount := 1;
      prevPeakIndex := 0;
    }

    /** The checks insertPeak makes before writing, with the corrected
        last-peak test. */
    method PrepareInsert()
      requires Valid()
      modifies this, peakIndices, peakVals, corrSamples, peakTimes
      ensures Valid() && peakIndices == old(peakIndices) && peakVals == old(peakVals)
      ensures corrSamples == old(corrSamples) && peakTimes == old(peakTimes)
      ensures Snapshot() == Prepare(params, old(Snapshot()), true)
    {
      var pc := peaksCount;
      var total := params.totalNumPeaks;
      if pc == 0 {
        samplesFromFirstPeak := 0;
      } else if pc > 1 && pc < SizeSub(total, 1) {
        var spacing := SizeSub(peakIndices[pc - 1], peakIndices[pc - 2]);
        if !Spaced(params, spacing) {
          CollapseToLast();
        }
      } else if pc == SizeSub(total, 1) {
        var lastSpacing := SizeSub(samplesFromFirstPeak, peakIndices[pc - 1]);
        if Spaced(params, lastSpacing) {
          detectionFlag := true;
        }
      }
    }

    /** insertPeak (corrected); the caller guarantees a free slot. */
    method InsertPeak(sample: Complex, val: real, time: real)
      requires Valid() && peaksCount < params.totalNumPeaks
      modifies this, peakIndices, peakVals, corrSamples, peakTimes
      ensures Valid() && peakIndices == old(peakIndices) && peakVals == old(peakVals)
      ensures corrSamples == old(corrSamples) && peakTimes == old(peakTimes)
      ensures Insert(params, old(Snapshot()), sample, val, time, true) == Stepped(Snapshot())
    {
      PrepareInsert();
      WriteSlot(sample, val, time);
      if detectionFlag {
        return;
      }
      prevPeakIndex := samplesFromFirstPeak;
      prevPeakVal := val;
      UpdatePnrThreshold();
    }

    /** The write of a peak to slot `peaksCount`, which insertPeak then
        counts. */
    method WriteSlot(sample: Complex, val: real, time: real)
      requires Valid() && peaksCount < params.totalNumPeaks
      modifies this`peaksCount, peakIndices, peakVals, corrSamples, peakTimes
      ensures Valid()
      ensures Snapshot() == WritePeak(old(Snapshot()), sample, val, time)
    {
      var pc := peaksCount;
      peakIndices[pc] := samplesFromFirstPeak;
      corrSamples[pc] := sample;
      peakVals[pc] := val;
      peakTimes[pc] := time;
      peaksCount := pc + 1;
    }

    /** updatePrevPeak. */
    method UpdatePrevPeak()
      requires Valid()
      modifies this`peaksCount
      ensures Valid()
      ensures Snapshot() == DropLast(old(Snapshot()))
    {
      if peaksCount != 0 {
        peaksCount := peaksCount - 1;
      }
    }

    /** process_corr (corrected); as the consumer does, it is called only
        while no detection is flagged. */
    method ProcessCorr(sample: Complex, time: real)
      requires Valid() && Reachable(params, Snapshot()) && !detectionFlag && noiseLevel != 0.0
      modifies this, peakIndices, peakVals, corrSamples, peakTimes
      ensures Valid() && Reachable(params, Snapshot())
      ensures Process(params, old(Snapshot()), sample, time, true) == Stepped(Snapshot())
    {
      ProcessStaysInRange(params, Snapshot(), sample, time);
      var fromLast := SizeSub(samplesFromFirstPeak, prevPeakIndex);
      var v := PeakValue(params, noiseLevel, sample);
      if peaksCount == 0 {
        InsertPeak(sample, v, time);
      } else if fromLast > Hi(params) {
        Reset();
        InsertPeak(sample, v, time);
      } else if fromLast < Lo(params) {
        if prevPeakVal < v {
          UpdatePrevPeak();
          InsertPeak(sample, v, time);
        }
      } else {
        if prevPeakVal < 0.8 * v {
          UpdatePrevPeak();
        }
        InsertPeak(sample, v, time);
      }
    }

    /** increase_samples_counter. */
    method IncreaseSamplesCounter()
      requires Valid()
      modifies this`samplesFromFirstPeak
      ensures Valid()
      ensures Snapshot() == IncreaseSamples(old(Snapshot()))
    {
      if peaksCount > 0 {
        samplesFromFirstPeak := SizeAdd(samplesFromFirstPeak, 1);
      }
    }

    /** updateNoiseLevel. */
    method UpdateNoiseLevel(avg: real, numSamps: Size)
      requires Valid()
      requires CloseToNoise(avg, noiseLevel) ==> (noiseCounter + numSamps) % SizeModulus != 0
      modifies this`noiseLevel, this`noiseCounter
      ensures Valid()
      ensures Snapshot() == UpdateNoise(old(Snapshot()), avg, numSamps)
    {
      if CloseToNoise(avg, noiseLevel) {
        noiseLevel := NoiseMean(noiseCounter, noiseLevel, avg, numSamps);
        if noiseCounter < LongMax {
          noiseCounter := LongOf(noiseCounter + numSamps);
        } else {
          noiseCounter := 1;
        }
      }
    }

    /** check_peaks: every consecutive gap of the slots within tolerance. */
    method CheckPeaks() returns (ok: bool)
      requires Valid()
      ensures ok <==> AllSpaced(params, peakIndices[..])
    {
      var i := 0;
      while i < params.totalNumPeaks - 1
        invariant 0 <= i <= params.totalNumPeaks - 1
        invariant forall k :: 0 <= k < i ==> Spaced(params, SizeSub(peakIndices[k + 1], peakIndices[k]))
      {
        var gap := SizeSub(peakIndices[i + 1], peakIndices[i]);
        if gap < Lo(params) || gap > Hi(params) {
          return false;
        }
        i := i + 1;
      }
      return true;
    }

    /** get_max_peak_val: the largest registered peak value, or 0. */
    method GetMaxPeakVal() returns (m: real)
      requires Valid()
      ensures m == MaxVal(peakVals[..peaksCount])
      ensures m >= 0.0 && forall k :: 0 <= k < peaksCount ==> peakVals[k] <= m
    {
      m := 0.0;
      var i := 0;
      while i < peaksCount
        invariant 0 <= i <= peaksCount
        invariant m == MaxVal(peakVals[..i])
      {
        assert peakVals[..i + 1][..i] == peakVals[..i];
        if peakVals[i] > m {
          m := peakVals[i];
        }
        i := i + 1;
      }
      MaxValSpec(peakVals[..peaksCount]);
    }

    /** avg_of_peak_vals: the mean |corr| of the inner peaks (all but the
        first and last slot) over ref_seq_len; also sets the max PNR from
        the largest peak value. */
    method AvgOfPeakVals() returns (e: Ext)
      requires Valid()
      modifies this`maxPnr
      ensures Valid()
      ensures e == ExtDivBy(Div(MagSum(corrSamples[..], 1, params.totalNumPeaks - 1),
                                (params.totalNumPeaks - 2) as real), params.refSeqLen as real)
      ensures maxPnr == MaxPnrOf(params, MaxVal(peakVals[..peaksCount]))
    {
      var maxPeak := GetMaxPeakVal();
      var sum := 0.0;
      var i := 1;
      while i < params.totalNumPeaks - 1
        invariant 1 <= i <= params.totalNumPeaks - 1
        invariant sum == MagSum(corrSamples[..], 1, i)
      {
        sum := sum + Mag(corrSamples[i]);
        i := i + 1;
      }
      e := ExtDivBy(Div(sum, (params.totalNumPeaks - 2) as real), params.refSeqLen as real);
      maxPnr := MaxPnrOf(params, maxPeak);
    }

    /** get_sync_time. */
    function GetSyncTime(): (t: real)
      reads this, peakIndices, peakVals, corrSamples, peakTimes
      requires Valid() && params.syncWithPeakFromLast <= peaksCount
      requires peaksCount - params.syncWithPeakFromLast < params.totalNumPeaks
      ensures t == SyncTime(params, Snapshot())
    {
      peakTimes[peaksCount - params.syncWithPeakFromLast]
    }
  }
}
