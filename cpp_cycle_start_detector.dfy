// The older cycle-start detector of cpp/CycleStartDetector.cpp: a ring of
// received samples and their times, filled by `produce` and scanned by
// `consume`, which correlates each offset of a block of `corrSeqLen`
// offsets with the ZFC reference and feeds the magnitude to the older peak
// detector (CppPeakDetection).
//
// The scan of one block is specified by `DetectFrom`, a recursion over the
// peak detector's state, and `BlockScanOf`; `CycleStartDetector.CorrelationOperation` is
// proved to follow it.
module CppCycleStartDetection {
  import opened Common
  import PDC = CppPeakDetection
  import PD = PeakDetector

  /** The configuration values the constructor reads. */
  datatype Config = Config(nZfc: Size, numCorrSizeMul: Size, maxRxPacketSize: Size, capacityMul: Size,
                           updateNoiseLevel: bool, rxSampleDuration: real)

  /** size_t multiplication: wraps around at 2^64. */
  function SizeMul(a: Size, b: Size): (r: Size)
    ensures a * b < SizeModulus ==> r == a * b
  {
    (a * b) % SizeModulus
  }

  /** The constructor's sizes, (capacity, corr_seq_len), or the range_error
      it throws when the capacity is below corr_seq_len + N_zfc (all in
      size_t). */
  function Layout(c: Config): (r: Outcome<(Size, Size)>)
    ensures r.Throw? <==> SizeMul(c.maxRxPacketSize, c.capacityMul) < SizeAdd(SizeMul(c.nZfc, c.numCorrSizeMul), c.nZfc)
    ensures r.Ok? ==> r.value == (SizeMul(c.maxRxPacketSize, c.capacityMul), SizeMul(c.nZfc, c.numCorrSizeMul))
    ensures !r.Exit?
  {
    var capacity := SizeMul(c.maxRxPacketSize, c.capacityMul);
    var corrSeqLen := SizeMul(c.nZfc, c.numCorrSizeMul);
    if capacity < SizeAdd(corrSeqLen, c.nZfc) then Throw else Ok((capacity, corrSeqLen))
  }

  /** Without wrap-around the check is the plain inequality, and a
      configuration that passes it holds one block and one ZFC length. */
  lemma LayoutWithoutWrap(c: Config)
    requires c.maxRxPacketSize * c.capacityMul < SizeModulus
    requires c.nZfc * c.numCorrSizeMul + c.nZfc < SizeModulus
    ensures Layout(c).Ok? <==> c.nZfc * c.numCorrSizeMul + c.nZfc <= c.maxRxPacketSize * c.capacityMul
    ensures Layout(c).Ok? ==> Layout(c).value.1 + c.nZfc <= Layout(c).value.0
  {
  }

  // ---------------------------------------------------------------------
  // The ring.

  /** The ring slot `k` places after `front`: (front + k) % cap, which is
      `Wrap` for the offsets read here (`ModWrap`). */
  function RingAt<T>(buf: seq<T>, front: nat, cap: nat, k: nat): T
    requires 0 < cap <= |buf| && front < cap && k < cap
  {
    buf[Wrap(front + k, cap)]
  }

  /** The slot after `pos`: (pos + 1) % cap. */
  function NextSlot(pos: nat, cap: nat): (r: nat)
    requires pos < cap
    ensures r < cap && r == (pos + 1) % cap
  {
    ModWrap(pos + 1, cap);
    Wrap(pos + 1, cap)
  }

  /** The slot n steps after `pos`, one `NextSlot` at a time. */
  function Advance(pos: nat, n: nat, cap: nat): (r: nat)
    requires pos < cap
    ensures r < cap
    decreases n
  {
    if n == 0 then pos else Advance(NextSlot(pos, cap), n - 1, cap)
  }

  /** Within one lap, n steps land at (pos + n) % cap. */
  lemma {:induction false} AdvanceOneLap(pos: nat, n: nat, cap: nat)
    requires pos < cap && n <= cap
    ensures Advance(pos, n, cap) == Wrap(pos + n, cap) == (pos + n) % cap
    decreases n
  {
    ModWrap(pos + n, cap);
    if n > 0 {
      AdvanceOneLap(NextSlot(pos, cap), n - 1, cap);
    }
  }

  /** The writes of `produce`: xs[k..n) one slot after another from `pos`,
      later writes winning. */
  function RingWriteFrom<T>(buf: seq<T>, pos: nat, cap: nat, xs: seq<T>, k: nat, n: nat): (r: seq<T>)
    requires 0 < cap <= |buf| && pos < cap && k <= n <= |xs|
    ensures |r| == |buf|
    decreases n - k
  {
    if k == n then buf else RingWriteFrom(buf[pos := xs[k]], NextSlot(pos, cap), cap, xs, k + 1, n)
  }

  /** How many slots after `pos` slot `j` lies. */
  function Offset(pos: nat, j: nat, cap: nat): (d: nat)
    requires pos < cap && j < cap
    ensures d < cap
  {
    if j >= pos then j - pos else j + cap - pos
  }

  /** With at most one lap of writes, a slot `d` places after `pos` holds
      xs[k + d] when d is below the number of writes, and keeps its value
      otherwise. */
  lemma {:induction false} RingWriteSpec<T>(buf: seq<T>, pos: nat, cap: nat, xs: seq<T>, k: nat, n: nat)
    requires 0 < cap <= |buf| && pos < cap && k <= n <= |xs| && n - k <= cap
    ensures var r := RingWriteFrom(buf, pos, cap, xs, k, n);
            forall j :: 0 <= j < |buf| ==>
              r[j] == if j < cap && Offset(pos, j, cap) < n - k then xs[k + Offset(pos, j, cap)] else buf[j]
    decreases n - k
  {
    if k < n {
      var next := NextSlot(pos, cap);
      var buf1 := buf[pos := xs[k]];
      RingWriteSpec(buf1, next, cap, xs, k + 1, n);
      var r := RingWriteFrom(buf, pos, cap, xs, k, n);
      assert r == RingWriteFrom(buf1, next, cap, xs, k + 1, n);
      forall j | 0 <= j < |buf|
        ensures r[j] == if j < cap && Offset(pos, j, cap) < n - k then xs[k + Offset(pos, j, cap)] else buf[j]
      {
        if j < cap && j != pos {
          assert Offset(next, j, cap) == Offset(pos, j, cap) - 1;
        } else if j == pos {
          assert Offset(next, j, cap) == cap - 1;
        }
      }
    }
  }

  /** The times `produce` stores: the first sample at `time`, each later one
      a sample duration after the previous. */
  function SampleTimes(time: real, duration: real, n: nat): (r: seq<real>)
    ensures |r| == n && forall k :: 0 <= k < n ==> r[k] == time + k as real * duration
  {
    seq(n, k => time + k as real * duration)
  }

  /** The ring loop of `produce`, on values: n samples and their times from
      slot `rear`, which advances modulo the capacity. */
  method FillRing(buf: seq<Complex>, timer: seq<real>, rear: nat, cap: nat, xs: seq<Complex>, n: nat,
                  time: real, duration: real)
    returns (buf': seq<Complex>, timer': seq<real>, rear': nat)
    requires 0 < cap <= |buf| && cap <= |timer| && rear < cap && n <= |xs|
    ensures buf' == RingWriteFrom(buf, rear, cap, xs, 0, n)
    ensures timer' == RingWriteFrom(timer, rear, cap, SampleTimes(time, duration, n), 0, n)
    ensures rear' == Advance(rear, n, cap)
  {
    ghost var times := SampleTimes(time, duration, n);
    buf', timer', rear' := buf, timer, rear;
    var nextTime := time;
    var k := 0;
    while k < n
      invariant 0 <= k <= n && rear' < cap && |buf'| == |buf| && |timer'| == |timer|
      invariant nextTime == time + k as real * duration
      invariant RingWriteFrom(buf', rear', cap, xs, k, n) == RingWriteFrom(buf, rear, cap, xs, 0, n)
      invariant RingWriteFrom(timer', rear', cap, times, k, n) == RingWriteFrom(timer, rear, cap, times, 0, n)
      invariant Advance(rear', n - k, cap) == Advance(rear, n, cap)
    {
      ghost var pos := rear';
      buf' := buf'[rear' := xs[k]];
      timer' := timer'[rear' := nextTime];
      rear' := (rear' + 1) % cap;
      assert rear' == NextSlot(pos, cap);
      assert times[k] == nextTime;
      nextTime := nextTime + duration;
      assert (k + 1) as real * duration == k as real * duration + duration;
      k := k + 1;
    }
  }

  /** The ring is consistent when `rear` is `numProduced` slots after
      `front`. */
  predicate Consistent(front: nat, rear: nat, numProduced: nat, cap: nat)
    requires 0 < cap
  {
    rear == (front + numProduced) % cap
  }

  /** Writing as many samples as are counted keeps the ring consistent. */
  lemma ProduceKeepsConsistency(front: nat, rear: nat, numProduced: nat, cap: nat, size: nat)
    requires front < cap && rear < cap && numProduced + size <= cap && Consistent(front, rear, numProduced, cap)
    ensures Consistent(front, Advance(rear, size, cap), numProduced + size, cap)
  {
    AdvanceOneLap(rear, size, cap);
    ModWrap(front + numProduced, cap);
    ModWrap(front + numProduced + size, cap);
  }

  /** A receive shorter than the buffer breaks the ring as written: four
      samples passed with samples_size 2 move rear to 4 while the count
      says 2. */
  lemma ShortReceiveDesyncs()
    ensures Consistent(0, 0, 0, 8) && !Consistent(0, Advance(0, 4, 8), 0 + 2, 8)
  {
    AdvanceOneLap(0, 4, 8);
  }

  // ---------------------------------------------------------------------
  // The correlation.

  function Conj(c: Complex): Complex
  {
    Complex(c.re, -c.im)
  }

  /** Σ_{j<m} samples[(front + i + j) % cap] · conj(zfc[j]). */
  function CorrPrefix(buf: seq<Complex>, front: nat, cap: nat, zfc: seq<Complex>, i: nat, m: nat): Complex
    requires 0 < cap <= |buf| && front < cap && m <= |zfc| && i + m <= cap
  {
    if m == 0 then Zero
    else Add(CorrPrefix(buf, front, cap, zfc, i, m - 1), Mul(RingAt(buf, front, cap, i + m - 1), Conj(zfc[m - 1])))
  }

  /** The correlation at offset i with the whole reference. */
  function CorrAt(buf: seq<Complex>, front: nat, cap: nat, zfc: seq<Complex>, i: nat): Complex
    requires 0 < cap <= |buf| && front < cap && i + |zfc| <= cap
  {
    CorrPrefix(buf, front, cap, zfc, i, |zfc|)
  }

  /** Two rings that agree on offsets [i, i + m) give the same correlation
      prefix: the correlation at offset i reads offsets i .. i + N - 1 only. */
  lemma {:induction false} CorrReadsWindow(buf: seq<Complex>, buf': seq<Complex>, front: nat, cap: nat,
                                           zfc: seq<Complex>, i: nat, m: nat)
    requires 0 < cap <= |buf| && cap <= |buf'| && front < cap && m <= |zfc| && i + m <= cap
    requires forall k :: i <= k < i + m ==> RingAt(buf, front, cap, k) == RingAt(buf', front, cap, k)
    ensures CorrPrefix(buf, front, cap, zfc, i, m) == CorrPrefix(buf', front, cap, zfc, i, m)
  {
    if m > 0 {
      CorrReadsWindow(buf, buf', front, cap, zfc, i, m - 1);
    }
  }

  /** The inner loop of correlation_operation. */
  method Correlate(buf: seq<Complex>, front: nat, cap: nat, zfc: seq<Complex>, i: nat) returns (c: Complex)
    requires 0 < cap <= |buf| && front < cap && i + |zfc| <= cap
    ensures c == CorrAt(buf, front, cap, zfc, i)
  {
    c := Zero;
    var j := 0;
    while j < |zfc|
      invariant 0 <= j <= |zfc| && c == CorrPrefix(buf, front, cap, zfc, i, j)
    {
      ModWrap(front + i + j, cap);
      c := Add(c, Mul(buf[(front + i + j) % cap], Conj(zfc[j])));
      j := j + 1;
    }
  }

  // ---------------------------------------------------------------------
  // The scan of one block.

  /** What the scan reads at one offset: the correlation starting there,
      the sample there and that sample's time. */
  datatype Tap = Tap(corr: Complex, sample: Complex, time: real)

  /** The taps of the offsets [0, len) of the ring. */
  function Taps(buf: seq<Complex>, timer: seq<real>, front: nat, cap: nat, zfc: seq<Complex>, len: nat): (r: seq<Tap>)
    requires 0 < cap <= |buf| && cap <= |timer| && front < cap && len + |zfc| <= cap
    ensures |r| == len
  {
    seq(len, k requires 0 <= k < len =>
          Tap(CorrAt(buf, front, cap, zfc, k), RingAt(buf, front, cap, k), RingAt(timer, front, cap, k)))
  }

  /** The tap at offset k. */
  lemma TapAt(buf: seq<Complex>, timer: seq<real>, front: nat, cap: nat, zfc: seq<Complex>, len: nat, k: nat)
    requires 0 < cap <= |buf| && cap <= |timer| && front < cap && len + |zfc| <= cap && k < len
    ensures Taps(buf, timer, front, cap, zfc, len)[k]
            == Tap(CorrAt(buf, front, cap, zfc, k), buf[(front + k) % cap], timer[(front + k) % cap])
  {
    ModWrap(front + k, cap);
  }

  /** The taps read the ring only at offsets below len + N - 1 (samples)
      and below len (times): two rings that agree there have the same taps,
      hence the same scan. With num_produced >= corr_seq_len + N_zfc, those
      are produced samples. */
  lemma TapsReadWindow(buf: seq<Complex>, timer: seq<real>, buf': seq<Complex>, timer': seq<real>,
                       front: nat, cap: nat, zfc: seq<Complex>, len: nat)
    requires 0 < cap <= |buf| && cap <= |timer| && cap <= |buf'| && cap <= |timer'| && front < cap
    requires 0 < |zfc| && len + |zfc| <= cap
    requires forall k :: 0 <= k < len + |zfc| - 1 ==> RingAt(buf, front, cap, k) == RingAt(buf', front, cap, k)
    requires forall k :: 0 <= k < len ==> RingAt(timer, front, cap, k) == RingAt(timer', front, cap, k)
    ensures Taps(buf, timer, front, cap, zfc, len) == Taps(buf', timer', front, cap, zfc, len)
  {
    forall k | 0 <= k < len
      ensures CorrAt(buf, front, cap, zfc, k) == CorrAt(buf', front, cap, zfc, k)
    {
      CorrReadsWindow(buf, buf', front, cap, zfc, k, |zfc|);
    }
  }

  /** What the peak detector needs to take a step: corrected slots and a
      non-zero noise level. */
  predicate DetectorReady(p: PDC.Params, s: PDC.State)
  {
    PDC.ParamsOk(p) && PDC.Inv(p, s) && |s.indices| == PDC.Slots(p, true) && s.noiseLevel != 0.0
  }

  /** The peak detector's part of a scan: its fields, the last process_corr
      result and the number of offsets processed. */
  datatype Detection = Detection(pd: PDC.State, found: bool, done: nat)

  /** The loop of correlation_operation from offset i, as far as the peak
      detector sees it: at the end of the block, the state reached;
      otherwise the step at offset i. */
  function DetectFrom(p: PDC.Params, taps: seq<Tap>, i: nat, s: PDC.State, found: bool): (r: Detection)
    requires i <= |taps| && DetectorReady(p, s) && !s.detectionFlag
    ensures DetectorReady(p, r.pd) && i <= r.done <= |taps|
    ensures r.pd.noiseLevel == s.noiseLevel && r.pd.noiseCounter == s.noiseCounter
    ensures r.pd.detectionFlag ==> p.totalNumPeaks <= r.pd.peaksCount
    ensures r.done < |taps| ==> r.pd.detectionFlag
    decreases |taps| - i, 1
  {
    if i == |taps| then Detection(s, found, i) else DetectAt(p, taps, i, s)
  }

  /** The step at offset i: process_corr on |corr| and the sample's time;
      stop on a detection, otherwise count one more sample since the first
      peak and go on to the next offset. */
  function DetectAt(p: PDC.Params, taps: seq<Tap>, i: nat, s: PDC.State): (r: Detection)
    requires i < |taps| && DetectorReady(p, s) && !s.detectionFlag
    ensures DetectorReady(p, r.pd) && i < r.done <= |taps|
    ensures r.pd.noiseLevel == s.noiseLevel && r.pd.noiseCounter == s.noiseCounter
    ensures r.pd.detectionFlag ==> p.totalNumPeaks <= r.pd.peaksCount
    ensures r.done < |taps| ==> r.pd.detectionFlag
    decreases |taps| - i, 0
  {
    PDC.ProcessInRange(p, s, Mag(taps[i].corr), taps[i].time);
    var step := PDC.Process(p, s, Mag(taps[i].corr), taps[i].time);
    var next := step.0.s;
    if next.detectionFlag then Detection(next, step.1, i + 1)
    else DetectFrom(p, taps, i + 1, next.(samplesFromFirstPeak := SizeAdd(next.samplesFromFirstPeak, 1)), step.1)
  }

  /** One step of DetectFrom, from the result of process_corr. */
  lemma DetectFromStep(p: PDC.Params, taps: seq<Tap>, i: nat, s: PDC.State, found: bool, s': PDC.State, found': bool)
    requires i < |taps| && DetectorReady(p, s) && !s.detectionFlag
    requires PDC.Process(p, s, Mag(taps[i].corr), taps[i].time) == (PDC.Stepped(s'), found')
    ensures DetectorReady(p, s') && s'.noiseLevel == s.noiseLevel
    ensures s'.detectionFlag ==> DetectFrom(p, taps, i, s, found) == Detection(s', found', i + 1)
    ensures !s'.detectionFlag ==>
              DetectFrom(p, taps, i, s, found)
              == DetectFrom(p, taps, i + 1, s'.(samplesFromFirstPeak := SizeAdd(s'.samplesFromFirstPeak, 1)), found')
  {
    PDC.ProcessInRange(p, s, Mag(taps[i].corr), taps[i].time);
    assert DetectFrom(p, taps, i, s, found) == DetectAt(p, taps, i, s);
  }

  /** The samples of the taps. */
  function Samples(taps: seq<Tap>): (r: seq<Complex>)
    ensures |r| == |taps| && forall k :: 0 <= k < |taps| ==> r[k] == taps[k].sample
  {
    seq(|taps|, k requires 0 <= k < |taps| => taps[k].sample)
  }

  /** Σ |corr_k| / n over the taps [0, m). */
  function AmplSum(n: nat, taps: seq<Tap>, m: nat): real
    requires 0 < n && m <= |taps|
  {
    if m == 0 then 0.0 else AmplSum(n, taps, m - 1) + Mag(taps[m - 1].corr) / n as real
  }

  lemma {:induction false} AmplSumNonNegative(n: nat, taps: seq<Tap>, m: nat)
    requires 0 < n && m <= |taps|
    ensures 0.0 <= AmplSum(n, taps, m)
  {
    if m > 0 {
      AmplSumNonNegative(n, taps, m - 1);
    }
  }

  /** The outcome of a whole scan: the peak detector's part, the amplitude
      sum, ref_signal and the save buffer. */
  datatype Scan = Scan(pd: PDC.State, found: bool, sum: real, ref: seq<Complex>, saved: seq<Complex>, done: nat)

  /** The scan of a block from the detector state `s` and the windows
      `ref` and `saved`: every processed offset shifts its sample into
      ref_signal (and the save buffer, when it is on) and adds |corr| / N
      to the sum when the noise level is tracked. */
  function BlockScanOf(p: PDC.Params, upd: bool, n: nat, taps: seq<Tap>, s: PDC.State,
                       ref: seq<Complex>, saved: seq<Complex>): (r: Scan)
    requires 0 < n && DetectorReady(p, s) && !s.detectionFlag && 0 < |ref| && (p.saveBufferFlag ==> 0 < |saved|)
    ensures DetectorReady(p, r.pd) && r.pd.noiseLevel == s.noiseLevel && r.pd.noiseCounter == s.noiseCounter
    ensures r.pd.detectionFlag ==> p.totalNumPeaks <= r.pd.peaksCount
    ensures !r.pd.detectionFlag ==> r.done == |taps|
    ensures |r.ref| == |ref| && |r.saved| == |saved| && 0.0 <= r.sum
  {
    var d := DetectFrom(p, taps, 0, s, false);
    AmplSumNonNegative(n, taps, d.done);
    Scan(d.pd, d.found, if upd then AmplSum(n, taps, d.done) else 0.0,
         ShiftRange(ref, Samples(taps), 0, d.done),
         if p.saveBufferFlag then ShiftRange(saved, Samples(taps), 0, d.done) else saved, d.done)
  }

  /** The loop of correlation_operation part way: the scan that ends in
      `d` started from the windows `ref0` and `saved0`, and offsets
      [0, i) are processed; `s`, `found`, `ref`, `saved` and `sum` are the
      current values. */
  ghost predicate Progress(p: PDC.Params, upd: bool, n: nat, taps: seq<Tap>, d: Detection,
                           ref0: seq<Complex>, saved0: seq<Complex>,
                           i: nat, s: PDC.State, found: bool, ref: seq<Complex>, saved: seq<Complex>, sum: real)
  {
    && 0 < n && i <= |taps| && DetectorReady(p, s) && !s.detectionFlag
    && 0 < |ref0| && (p.saveBufferFlag ==> 0 < |saved0|)
    && DetectFrom(p, taps, i, s, found) == d
    && ref == ShiftRange(ref0, Samples(taps), 0, i)
    && saved == (if p.saveBufferFlag then ShiftRange(saved0, Samples(taps), 0, i) else saved0)
    && sum == (if upd then AmplSum(n, taps, i) else 0.0)
  }

  /** The loop of correlation_operation ended after `done` offsets with
      these values. */
  ghost predicate Finished(p: PDC.Params, upd: bool, n: nat, taps: seq<Tap>, d: Detection,
                           ref0: seq<Complex>, saved0: seq<Complex>,
                           done: nat, s: PDC.State, found: bool, ref: seq<Complex>, saved: seq<Complex>, sum: real)
  {
    && 0 < n && done <= |taps| && 0 < |ref0| && (p.saveBufferFlag ==> 0 < |saved0|)
    && d == Detection(s, found, done)
    && ref == ShiftRange(ref0, Samples(taps), 0, done)
    && saved == (if p.saveBufferFlag then ShiftRange(saved0, Samples(taps), 0, done) else saved0)
    && sum == (if upd then AmplSum(n, taps, done) else 0.0)
  }

  /** One offset of the loop: from the result of process_corr, the sample
      saved and the amplitude added, either the scan has ended at offset
      i + 1 (a detection) or it goes on from there with one more sample
      counted. */
  lemma ProgressStep(p: PDC.Params, upd: bool, n: nat, taps: seq<Tap>, d: Detection,
                     ref0: seq<Complex>, saved0: seq<Complex>,
                     i: nat, s: PDC.State, found: bool, ref: seq<Complex>, saved: seq<Complex>, sum: real,
                     s': PDC.State, found': bool)
    requires Progress(p, upd, n, taps, d, ref0, saved0, i, s, found, ref, saved, sum) && i < |taps|
    requires PDC.Process(p, s, Mag(taps[i].corr), taps[i].time) == (PDC.Stepped(s'), found')
    ensures 0 < |ref| && (p.saveBufferFlag ==> 0 < |saved|) && DetectorReady(p, s') && s'.noiseLevel == s.noiseLevel
    ensures var ref' := Shift(ref, taps[i].sample);
            var saved' := if p.saveBufferFlag then Shift(saved, taps[i].sample) else saved;
            var sum' := if upd then sum + Mag(taps[i].corr) / n as real else sum;
            && (s'.detectionFlag ==> Finished(p, upd, n, taps, d, ref0, saved0, i + 1, s', found', ref', saved', sum'))
            && (!s'.detectionFlag ==>
                  Progress(p, upd, n, taps, d, ref0, saved0, i + 1,
                           s'.(samplesFromFirstPeak := SizeAdd(s'.samplesFromFirstPeak, 1)), found', ref', saved', sum'))
  {
    DetectFromStep(p, taps, i, s, found, s', found');
  }

  /** At the end of the block the loop has ended. */
  lemma ProgressEnd(p: PDC.Params, upd: bool, n: nat, taps: seq<Tap>, d: Detection,
                    ref0: seq<Complex>, saved0: seq<Complex>,
                    s: PDC.State, found: bool, ref: seq<Complex>, saved: seq<Complex>, sum: real)
    requires Progress(p, upd, n, taps, d, ref0, saved0, |taps|, s, found, ref, saved, sum)
    ensures Finished(p, upd, n, taps, d, ref0, saved0, |taps|, s, found, ref, saved, sum)
  {
  }

  /** The noise update after the loop: with tracking on, only when the last
      offset was not a peak and nothing was detected, from the mean
      amplitude of the block. */
  function AfterScan(upd: bool, len: Size, r: Scan): (s: PDC.State)
    requires 0 < len && 0 <= r.pd.noiseCounter && r.pd.noiseCounter + len <= PD.LongMax
  {
    if !r.found && upd && !r.pd.detectionFlag then PDC.UpdateNoise(r.pd, r.sum / len as real, len) else r.pd
  }

  /** The noise update only ever runs on a block scanned to its end, and
      its mean is the average amplitude of all its offsets. */
  lemma NoiseUpdateUsesWholeBlock(p: PDC.Params, upd: bool, n: nat, taps: seq<Tap>, s: PDC.State,
                                  ref: seq<Complex>, saved: seq<Complex>)
    requires 0 < n && 0 < |taps| < SizeModulus && DetectorReady(p, s) && !s.detectionFlag && 0 < |ref|
    requires p.saveBufferFlag ==> 0 < |saved|
    requires 0 <= s.noiseCounter && s.noiseCounter + |taps| <= PD.LongMax
    ensures var r := BlockScanOf(p, upd, n, taps, s, ref, saved);
            AfterScan(upd, |taps|, r) != r.pd ==>
              r.done == |taps| && upd && !r.found
              && AfterScan(upd, |taps|, r) == PDC.UpdateNoise(r.pd, AmplSum(n, taps, |taps|) / |taps| as real, |taps|)
  {
  }

  lemma DivAtLeastOne(a: real, b: real)
    requires 0.0 < b <= a
    ensures a / b >= 1.0
  {
  }

  /** After the noise update the level stays positive and the counter
      non-negative, and a pending detection is left alone. */
  lemma AfterScanKeepsNoise(upd: bool, len: Size, r: Scan)
    requires 0 < len && 0.0 < r.pd.noiseLevel && 0 <= r.pd.noiseCounter
    requires r.pd.noiseCounter + len <= PD.LongMax && 0.0 <= r.sum
    ensures var s := AfterScan(upd, len, r);
            && 0.0 < s.noiseLevel && 0 <= s.noiseCounter && s.detectionFlag == r.pd.detectionFlag
            && s == r.pd.(noiseLevel := s.noiseLevel, noiseCounter := s.noiseCounter)
  {
    if !r.found && upd && !r.pd.detectionFlag {
      var avg := r.sum / len as real;
      PDC.UpdateNoiseSpec(r.pd, avg, len);
      if PDC.NearNoise(avg, r.pd.noiseLevel) && avg <= 0.0 {
        DivAtLeastOne(PD.AbsReal(avg - r.pd.noiseLevel), r.pd.noiseLevel);
      }
    }
  }

  /** get_wait_time: the sync peak's time, plus N_zfc samples for each of
      the `sync-with-peak-from-last` ZFC lengths after it, plus the
      transmit wait in microseconds. */
  function WaitTime(syncTime: real, duration: real, nZfc: nat, fromLast: nat, txWaitMicrosec: real): (t: real)
    ensures duration >= 0.0 && txWaitMicrosec >= 0.0 ==> t >= syncTime
  {
    syncTime + (duration * nZfc as real * fromLast as real + txWaitMicrosec / 1000000.0)
  }

  /** The wait is an offset from the sync time: moving the sync peak moves
      the transmit time by as much. */
  lemma WaitTimeShifts(syncTime: real, delta: real, duration: real, nZfc: nat, fromLast: nat, txWaitMicrosec: real)
    ensures WaitTime(syncTime + delta, duration, nZfc, fromLast, txWaitMicrosec)
            == WaitTime(syncTime, duration, nZfc, fromLast, txWaitMicrosec) + delta
  {
  }

  /** The older detector and its ring. The peak detector is shared with the
      caller. */
  class CycleStartDetector {
    const pd: PDC.PeakDetection
    const nZfc: Size
    const corrSeqLen: Size
    const capacity: Size
    const updateNoiseLevel: bool
    const rxSampleDuration: real
    const fromLast: Size
    const zfc: seq<Complex>
    var samplesBuffer: seq<Complex>
    var timer: seq<real>
    var front: Size
    var rear: Size
    var numProduced: Size
    var prevTimer: real
    var csdTxStartTimer: real
    var e2eEstRefSigAmp: real

    /** The ring fits in the buffers (which only grow), and a block and one
        ZFC length fit in the ring. */
    ghost predicate RingOk()
      reads this
    {
      0 < nZfc && |zfc| == nZfc && 0 < corrSeqLen && corrSeqLen + nZfc <= capacity
      && capacity <= |samplesBuffer| && capacity <= |timer|
      && front < capacity && rear < capacity && numProduced <= capacity
    }

    /** The peak detector has the corrected slots, a positive initial noise
        level and a sync peak among its slots. */
    ghost predicate DetectorOk()
      reads this, pd
    {
      pd.Valid() && 0.0 < pd.params.initNoiseLevel && fromLast == pd.params.syncWithPeakFromLast
      && 1 <= pd.params.syncWithPeakFromLast <= pd.params.totalNumPeaks
    }

    /** Between calls: a positive noise level, a non-negative counter and no
        pending detection. */
    ghost predicate Valid()
      reads this, pd
    {
      RingOk() && DetectorOk() && 0.0 < pd.noiseLevel && 0 <= pd.noiseCounter && !pd.detectionFlag
    }

    /** The constructor, for a configuration that passes the capacity check
        (`Layout`); the buffers hold `capacity` zeros. */
    constructor (c: Config, zfcSeq: seq<Complex>, peakDet: PDC.PeakDetection)
      requires Layout(c).Ok? && 0 < c.nZfc && 0 < c.numCorrSizeMul && |zfcSeq| == c.nZfc
      requires c.nZfc * c.numCorrSizeMul + c.nZfc < SizeModulus
      requires peakDet.Valid() && 0.0 < peakDet.noiseLevel && 0.0 < peakDet.params.initNoiseLevel
      requires 0 <= peakDet.noiseCounter && !peakDet.detectionFlag
      requires 1 <= peakDet.params.syncWithPeakFromLast <= peakDet.params.totalNumPeaks
      ensures Valid() && pd == peakDet && zfc == zfcSeq && nZfc == c.nZfc
      ensures (capacity, corrSeqLen) == Layout(c).value && updateNoiseLevel == c.updateNoiseLevel
      ensures front == 0 && rear == 0 && numProduced == 0
      ensures samplesBuffer == Zeros(capacity) && timer == seq(capacity, _ => 0.0)
    {
      pd := peakDet;
      nZfc := c.nZfc;
      zfc := zfcSeq;
      rxSampleDuration := c.rxSampleDuration;
      updateNoiseLevel := c.updateNoiseLevel;
      fromLast := peakDet.params.syncWithPeakFromLast;
      capacity := Layout(c).value.0;
      corrSeqLen := Layout(c).value.1;
      front, rear, numProduced := 0, 0, 0;
      prevTimer, csdTxStartTimer, e2eEstRefSigAmp := 0.0, 0.0, 0.0;
      samplesBuffer := Zeros(Layout(c).value.0);
      timer := seq(Layout(c).value.0, _ => 0.0);
    }

    /** reset: the ring restarts at slot 0 with nothing produced, and
        `capacity` zeros are inserted at the front of both buffers, which
        therefore grow. */
    method Reset()
      requires RingOk()
      modifies this`samplesBuffer, this`timer, this`front, this`rear, this`numProduced, this`prevTimer
      ensures RingOk() && front == 0 && rear == 0 && numProduced == 0 && prevTimer == 0.0
      ensures samplesBuffer == Zeros(capacity) + old(samplesBuffer)
      ensures timer == seq(capacity, _ => 0.0) + old(timer)
      ensures |samplesBuffer| == old(|samplesBuffer|) + capacity && |timer| == old(|timer|) + capacity
    {
      numProduced, front, rear := 0, 0, 0;
      samplesBuffer := Zeros(capacity) + samplesBuffer;
      timer := seq(capacity, _ => 0.0) + timer;
      prevTimer := 0.0;
    }

    /** produce, as written: every element of `samples` is written to the
        ring from rear with successive times, rear advances by their number,
        and num_produced grows by `samplesSize`. The wait for space is the
        precondition. */
    method Produce(samples: seq<Complex>, samplesSize: Size, time: real)
      requires RingOk() && capacity - numProduced >= samplesSize
      modifies this`samplesBuffer, this`timer, this`rear, this`numProduced
      ensures RingOk() && numProduced == old(numProduced) + samplesSize
      ensures samplesBuffer == RingWriteFrom(old(samplesBuffer), old(rear), capacity, samples, 0, |samples|)
      ensures timer == RingWriteFrom(old(timer), old(rear), capacity, SampleTimes(time, rxSampleDuration, |samples|), 0, |samples|)
      ensures rear == Advance(old(rear), |samples|, capacity)
      ensures |samples| <= capacity ==> rear == (old(rear) + |samples|) % capacity
    {
      var b, t, r := FillRing(samplesBuffer, timer, rear, capacity, samples, |samples|, time, rxSampleDuration);
      if |samples| <= capacity {
        AdvanceOneLap(rear, |samples|, capacity);
      }
      samplesBuffer, timer, rear := b, t, r;
      numProduced := numProduced + samplesSize;
    }

    /** produce, corrected: only the `samplesSize` received samples are
        written, so rear and num_produced advance together and a consistent
        ring stays consistent. */
    method ProduceReceived(samples: seq<Complex>, samplesSize: Size, time: real)
      requires RingOk() && capacity - numProduced >= samplesSize && samplesSize <= |samples|
      modifies this`samplesBuffer, this`timer, this`rear, this`numProduced
      ensures RingOk() && numProduced == old(numProduced) + samplesSize
      ensures samplesBuffer == RingWriteFrom(old(samplesBuffer), old(rear), capacity, samples, 0, samplesSize)
      ensures timer == RingWriteFrom(old(timer), old(rear), capacity, SampleTimes(time, rxSampleDuration, samplesSize), 0, samplesSize)
      ensures rear == (old(rear) + samplesSize) % capacity
      ensures old(Consistent(front, rear, numProduced, capacity)) ==> Consistent(front, rear, numProduced, capacity)
    {
      var b, t, r := FillRing(samplesBuffer, timer, rear, capacity, samples, samplesSize, time, rxSampleDuration);
      AdvanceOneLap(rear, samplesSize, capacity);
      if Consistent(front, rear, numProduced, capacity) {
        ProduceKeepsConsistency(front, rear, numProduced, capacity, samplesSize);
      }
      samplesBuffer, timer, rear := b, t, r;
      numProduced := numProduced + samplesSize;
    }

    /** The taps of the current block. */
    ghost function BlockTaps(): (r: seq<Tap>)
      reads this
      requires RingOk()
      ensures |r| == corrSeqLen
    {
      Taps(samplesBuffer, timer, front, capacity, zfc, corrSeqLen)
    }

    /** The scan correlation_operation performs from the current state. */
    ghost function BlockScan(): (r: Scan)
      reads this, pd, pd.peakIndices, pd.peakVals, pd.peakTimes
      requires Valid()
      ensures DetectorReady(pd.params, r.pd) && r.pd.noiseLevel == pd.noiseLevel && r.pd.noiseCounter == pd.noiseCounter
      ensures r.pd.detectionFlag ==> pd.params.totalNumPeaks <= r.pd.peaksCount
      ensures 0.0 <= r.sum
    {
      BlockScanOf(pd.params, updateNoiseLevel, nZfc, BlockTaps(), pd.Snapshot(), pd.refSignal, pd.saveBufferComplex)
    }

    /** One offset of the loop of correlation_operation: the correlation,
        process_corr on its magnitude and the sample's time, the sample
        saved, and the amplitude |corr| / N added to the sum when the noise
        level is tracked. */
    method ScanOffset(i: Size, ghost taps: seq<Tap>, sum: real) returns (found: bool, sum': real)
      requires RingOk() && pd.Valid() && pd.noiseLevel != 0.0 && i < corrSeqLen && taps == BlockTaps()
      modifies pd`peaksCount, pd`samplesFromFirstPeak, pd`prevPeakIndex, pd`prevPeakVal, pd`currPnrThreshold
      modifies pd`detectionFlag, pd`refSignal, pd`saveBufferComplex
      modifies pd.peakIndices, pd.peakVals, pd.peakTimes
      ensures pd.Valid() && pd.noiseLevel == old(pd.noiseLevel)
      ensures PDC.Process(pd.params, old(pd.Snapshot()), Mag(taps[i].corr), taps[i].time) == (PDC.Stepped(pd.Snapshot()), found)
      ensures pd.refSignal == Shift(old(pd.refSignal), taps[i].sample)
      ensures pd.saveBufferComplex == if pd.params.saveBufferFlag then Shift(old(pd.saveBufferComplex), taps[i].sample)
                                      else old(pd.saveBufferComplex)
      ensures sum' == if updateNoiseLevel then sum + Mag(taps[i].corr) / nZfc as real else sum
    {
      var c := Correlate(samplesBuffer, front, capacity, zfc, i);
      TapAt(samplesBuffer, timer, front, capacity, zfc, corrSeqLen, i);
      ModWrap(front + i, capacity);
      found := pd.ProcessCorr(Mag(c), timer[(front + i) % capacity]);
      var absVal := Mag(c) / nZfc as real;
      pd.SaveComplexDataIntoBuffer(samplesBuffer[(front + i) % capacity]);
      sum' := sum;
      if updateNoiseLevel {
        sum' := sum + absVal;
      }
    }

    /** One pass of the loop of correlation_operation: the offset, then
        the break on a detection (the result) or one more sample since the
        first peak. */
    method ScanIteration(i: Size, ghost taps: seq<Tap>, ghost d: Detection, ghost ref0: seq<Complex>,
                         ghost saved0: seq<Complex>, ghost last: bool, sum: real)
      returns (found: bool, sum': real, stop: bool)
      requires RingOk() && pd.Valid() && i < corrSeqLen && taps == BlockTaps()
      requires Progress(pd.params, updateNoiseLevel, nZfc, taps, d, ref0, saved0,
                        i, pd.Snapshot(), last, pd.refSignal, pd.saveBufferComplex, sum)
      modifies pd`peaksCount, pd`samplesFromFirstPeak, pd`prevPeakIndex, pd`prevPeakVal, pd`currPnrThreshold
      modifies pd`detectionFlag, pd`refSignal, pd`saveBufferComplex
      modifies pd.peakIndices, pd.peakVals, pd.peakTimes
      ensures pd.Valid() && pd.noiseLevel == old(pd.noiseLevel)
      ensures stop ==> Finished(pd.params, updateNoiseLevel, nZfc, taps, d, ref0, saved0,
                                i + 1, pd.Snapshot(), found, pd.refSignal, pd.saveBufferComplex, sum')
      ensures !stop ==> Progress(pd.params, updateNoiseLevel, nZfc, taps, d, ref0, saved0,
                                 i + 1, pd.Snapshot(), found, pd.refSignal, pd.saveBufferComplex, sum')
    {
      ghost var s, ref, saved := pd.Snapshot(), pd.refSignal, pd.saveBufferComplex;
      found, sum' := ScanOffset(i, taps, sum);
      ProgressStep(pd.params, updateNoiseLevel, nZfc, taps, d, ref0, saved0, i, s, last, ref, saved, sum,
                   pd.Snapshot(), found);
      stop := pd.detectionFlag;
      if !stop {
        pd.CountSample();
      }
    }

    /** The loop of correlation_operation, against the detection it
        performs and the number of offsets it processes. */
    method ScanLoop(ghost taps: seq<Tap>) returns (found: bool, sum: real, ghost done: nat)
      requires RingOk() && pd.Valid() && taps == BlockTaps() && DetectorReady(pd.params, pd.Snapshot())
      requires !pd.detectionFlag
      modifies pd`peaksCount, pd`samplesFromFirstPeak, pd`prevPeakIndex, pd`prevPeakVal, pd`currPnrThreshold
      modifies pd`detectionFlag, pd`refSignal, pd`saveBufferComplex
      modifies pd.peakIndices, pd.peakVals, pd.peakTimes
      ensures pd.Valid() && pd.noiseLevel == old(pd.noiseLevel)
      ensures Finished(pd.params, updateNoiseLevel, nZfc, taps, DetectFrom(pd.params, taps, 0, old(pd.Snapshot()), false),
                       old(pd.refSignal), old(pd.saveBufferComplex), done,
                       pd.Snapshot(), found, pd.refSignal, pd.saveBufferComplex, sum)
    {
      ghost var d := DetectFrom(pd.params, taps, 0, pd.Snapshot(), false);
      ghost var ref0, saved0 := pd.refSignal, pd.saveBufferComplex;
      found, sum := false, 0.0;
      var i := 0;
      ghost var stopped := false;
      while i < corrSeqLen
        invariant 0 <= i <= corrSeqLen && pd.Valid() && pd.noiseLevel == old(pd.noiseLevel) && !stopped
        invariant Progress(pd.params, updateNoiseLevel, nZfc, taps, d, ref0, saved0,
                           i, pd.Snapshot(), found, pd.refSignal, pd.saveBufferComplex, sum)
      {
        var stop;
        found, sum, stop := ScanIteration(i, taps, d, ref0, saved0, found, sum);
        if stop {
          stopped, done := true, i + 1;
          break;
        }
        i := i + 1;
      }
      if !stopped {
        ProgressEnd(pd.params, updateNoiseLevel, nZfc, taps, d, ref0, saved0,
                    pd.Snapshot(), found, pd.refSignal, pd.saveBufferComplex, sum);
        done := i;
      }
    }

    /** The loop of correlation_operation. */
    method ScanBlock() returns (found: bool, sum: real)
      requires Valid()
      modifies pd`peaksCount, pd`samplesFromFirstPeak, pd`prevPeakIndex, pd`prevPeakVal, pd`currPnrThreshold
      modifies pd`detectionFlag, pd`refSignal, pd`saveBufferComplex
      modifies pd.peakIndices, pd.peakVals, pd.peakTimes
      ensures pd.Valid()
      ensures var r := old(BlockScan());
              pd.Snapshot() == r.pd && pd.refSignal == r.ref && pd.saveBufferComplex == r.saved
              && found == r.found && sum == r.sum
    {
      ghost var done;
      found, sum, done := ScanLoop(BlockTaps());
    }

    /** correlation_operation: the block scan, then the noise update. */
    method CorrelationOperation()
      requires Valid() && pd.noiseCounter + corrSeqLen <= PD.LongMax
      modifies pd`peaksCount, pd`samplesFromFirstPeak, pd`prevPeakIndex, pd`prevPeakVal, pd`currPnrThreshold
      modifies pd`detectionFlag, pd`noiseLevel, pd`noiseCounter, pd`refSignal, pd`saveBufferComplex
      modifies pd.peakIndices, pd.peakVals, pd.peakTimes
      ensures pd.Valid()
      ensures pd.Snapshot() == AfterScan(updateNoiseLevel, corrSeqLen, old(BlockScan()))
      ensures pd.refSignal == old(BlockScan()).ref && pd.saveBufferComplex == old(BlockScan()).saved
    {
      ghost var r := BlockScan();
      var found, sum := ScanBlock();
      if !found && updateNoiseLevel && !pd.detectionFlag {
        pd.UpdateNoiseLevel(sum / corrSeqLen as real, corrSeqLen);
      }
    }

    /** The detection branch of consume: the wait timer and the amplitude
        from the registered peaks, then both resets. */
    method DetectionReached(txWaitMicrosec: real)
      requires RingOk() && DetectorOk() && pd.detectionFlag && pd.params.totalNumPeaks <= pd.peaksCount
      requires 0.0 < pd.noiseLevel
      modifies this, pd
      ensures Valid() && front == 0 && rear == 0 && numProduced == 0
      ensures csdTxStartTimer == WaitTime(old(pd.GetSyncTime()), rxSampleDuration, nZfc, fromLast, txWaitMicrosec)
      ensures e2eEstRefSigAmp == PDC.AvgPeakVals(pd.params, old(pd.peakVals[..]))
      ensures pd.peaksCount == 0 && pd.noiseLevel == pd.params.initNoiseLevel && pd.noiseCounter == 0
      ensures pd.refSignal == old(pd.refSignal) && pd.saveBufferComplex == old(pd.saveBufferComplex)
    {
      var syncTime := pd.GetSyncTime();
      csdTxStartTimer := WaitTime(syncTime, rxSampleDuration, nZfc, fromLast, txWaitMicrosec);
      e2eEstRefSigAmp := pd.AvgOfPeakVals();
      Reset();
      pd.Reset();
    }

    /** consume, once num_produced reaches corr_seq_len + N_zfc (the wait is
        the precondition). On a detection: the wait timer and the amplitude
        are computed, the ring and the detector are reset, and the result is
        true (the success signal). Otherwise front advances by one block,
        num_produced drops by one block (the `max` with 0 never applies
        because of the wait), and the result is false. */
    method Consume(txWaitMicrosec: real) returns (detected: bool)
      requires Valid() && numProduced >= corrSeqLen + nZfc
      requires pd.noiseCounter + corrSeqLen <= PD.LongMax
      modifies this, pd, pd.peakIndices, pd.peakVals, pd.peakTimes
      ensures Valid()
      ensures var r := old(BlockScan());
              && (detected <==> r.pd.detectionFlag)
              && (detected ==>
                    && csdTxStartTimer == WaitTime(PDC.SyncTime(pd.params, r.pd), rxSampleDuration, nZfc,
                                                   fromLast, txWaitMicrosec)
                    && e2eEstRefSigAmp == PDC.AvgPeakVals(pd.params, r.pd.vals)
                    && front == 0 && rear == 0 && numProduced == 0
                    && pd.peaksCount == 0 && pd.noiseLevel == pd.params.initNoiseLevel
                    && pd.refSignal == r.ref && pd.saveBufferComplex == r.saved)
              && (!detected ==>
                    && front == (old(front) + corrSeqLen) % capacity
                    && numProduced == old(numProduced) - corrSeqLen
                    && pd.Snapshot() == AfterScan(updateNoiseLevel, corrSeqLen, r)
                    && pd.refSignal == r.ref && pd.saveBufferComplex == r.saved)
    {
      ghost var r := BlockScan();
      AfterScanKeepsNoise(updateNoiseLevel, corrSeqLen, r);
      CorrelationOperation();
      if pd.detectionFlag {
        DetectionReached(txWaitMicrosec);
        return true;
      }
      front := (front + corrSeqLen) % capacity;
      numProduced := SizeSub(numProduced, corrSeqLen);
      return false;
    }
  }
}
