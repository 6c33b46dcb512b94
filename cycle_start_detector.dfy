// The cycle-start detector of lib_csd/cyclestartdetector.cpp. A producer
// pushes received packets into a `CircularPacket`; the consumer unloads one
// packet at a time behind the last N_zfc - 1 samples of the previous one,
// corrects the carrier frequency offset, correlates the block with the ZFC
// sequence and scans the correlation, keeping the last save_ref_len samples
// in `saved_ref`.
//
// The scan calls `process_corr(float, size_t)` of the peak detector, which
// returns whether the sample was taken as a peak and may raise
// `detection_flag`; that overload has no definition in the peak detector's
// source, so its per-sample answers are inputs (`hits`, `flags`).
module CycleStartDetection {
  import opened Common
  import opened CircularBuffers
  import opened CircularPackets

  /** The parser values the constructor reads, and `cfo_count_max`. */
  datatype Config = Config(nZfc: Size, rZfc: Size, maxRxPacketSize: Size, txWaitMicrosec: real,
                           updateNoiseLevel: bool, syncWithPeakFromLast: Size, cfoCountMax: Size)

  /** Sizes for which none of the constructor's size_t expressions wraps and
      the FFT doubling loops cannot overflow. */
  predicate ConfigOk(c: Config)
  {
    1 <= c.nZfc
    && c.nZfc * (c.rZfc + 2) + c.nZfc <= SizeModulus / 2
    && c.maxRxPacketSize + c.nZfc <= SizeModulus / 2
  }

  /** save_ref_len = N_zfc * (R_zfc + 2), in size_t. */
  function SaveRefLen(c: Config): (r: Size)
    ensures ConfigOk(c) ==> r == c.nZfc * (c.rZfc + 2) && c.nZfc <= r
  {
    if ConfigOk(c) then
      AtLeastFactor(c.nZfc, c.rZfc + 2);
      c.nZfc * (c.rZfc + 2)
    else (c.nZfc * SizeAdd(c.rZfc, 2)) % SizeModulus
  }

  lemma AtLeastFactor(a: nat, b: nat)
    requires 1 <= b
    ensures a <= a * b
  {
  }

  /** corr_seq_len + N_zfc - 1, the length the constructor gives the samples buffer. */
  function BufferLen(c: Config): (r: Size)
    ensures ConfigOk(c) ==> r == c.maxRxPacketSize + c.nZfc - 1
  {
    SizeSub(SizeAdd(c.maxRxPacketSize, c.nZfc), 1)
  }

  /** An FFT length loop: `init` doubled until it reaches `target`. The
      result is the first `init * 2^k` at or above `target`. */
  method FftLength(init: Size, target: Size) returns (l: Size, ghost k: nat)
    requires 0 < init && target <= SizeModulus / 2
    ensures l == init * Pow2(k) && target <= l
    ensures k == 0 || l < 2 * target
  {
    l, k := init, 0;
    while l < target
      invariant 0 < l && l == init * Pow2(k)
      invariant k == 0 || l < 2 * target
      decreases target - l
    {
      assert init * Pow2(k + 1) == 2 * l;
      l, k := 2 * l, k + 1;
    }
  }

  // ---------------------------------------------------------------------
  // unload_packet

  /** The factor std::complex(cos(cfo * k), -sin(cfo * k)) that corrects
      the k-th sample for the estimated frequency offset. */
  function CfoRotation(cfo: real, k: Size): Complex
  {
    Complex(Cos(cfo * k as real), -Sin(cfo * k as real))
  }

  /** cfo_counter after one corrected sample: incremented in size_t and
      restarted at 0 on reaching cfo_count_max. */
  function NextCfoCounter(k: Size, max: Size): (r: Size)
    ensures r == 0 || r == k + 1
    ensures k < max ==> r < max
    ensures r == max ==> max == 0
  {
    var n := SizeAdd(k, 1);
    if n == max then 0 else n
  }

  /** A packet after the CFO correction, with the final counter. With a zero
      offset the samples and the counter are left alone. */
  function CfoCorrect(p: Packet, cfo: real, k: Size, max: Size): (r: (Packet, Size))
    ensures |r.0| == |p|
    ensures cfo == 0.0 ==> r == (p, k)
  {
    if p == [] then ([], k)
    else
      var prev := CfoCorrect(p[..|p| - 1], cfo, k, max);
      var x := p[|p| - 1];
      assert p[..|p| - 1] + [x] == p;
      if cfo != 0.0 then (prev.0 + [Mul(x, CfoRotation(cfo, prev.1))], NextCfoCounter(prev.1, max))
      else (prev.0 + [x], prev.1)
  }

  /** Correcting one more sample of a packet appends that sample, turned by
      the rotation for the counter reached so far. */
  lemma CfoCorrectStep(p: Packet, cfo: real, k: Size, max: Size, j: nat)
    requires j < |p|
    ensures var c := CfoCorrect(p[..j], cfo, k, max);
            CfoCorrect(p[..j + 1], cfo, k, max)
            == if cfo != 0.0 then (c.0 + [Mul(p[j], CfoRotation(cfo, c.1))], NextCfoCounter(c.1, max))
               else (c.0 + [p[j]], c.1)
  {
    assert p[..j + 1][..j] == p[..j];
  }

  /** The samples buffer unload_packet builds: the carried-over samples
      `tmp`, then the packet corrected sample by sample, with the CFO
      counter it ends on. */
  method CarryOver(tmp: seq<Complex>, consumed: Packet, cfo: real, k0: Size, max: Size)
    returns (buf: seq<Complex>, counter: Size)
    ensures var corrected := CfoCorrect(consumed, cfo, k0, max);
            buf == tmp + corrected.0 && counter == corrected.1
  {
    var n := |consumed| + |tmp|;
    buf := Zeros(n);
    counter := k0;
    var i := 0;
    while i < n
      invariant 0 <= i <= n && |buf| == n
      invariant i <= |tmp| ==> buf[..i] == tmp[..i] && counter == k0
      invariant i >= |tmp| ==> var c := CfoCorrect(consumed[..i - |tmp|], cfo, k0, max);
                               buf[..i] == tmp + c.0 && counter == c.1
    {
      ghost var before := buf[..i];
      if i < |tmp| {
        buf := buf[i := tmp[i]];
        assert buf[..i + 1] == before + [tmp[i]];
        assert tmp[..i] + [tmp[i]] == tmp[..i + 1];
      } else {
        var j := i - |tmp|;
        CfoCorrectStep(consumed, cfo, k0, max, j);
        var x := consumed[j];
        if cfo != 0.0 {
          x := Mul(x, CfoRotation(cfo, counter));
          counter := NextCfoCounter(counter, max);
        }
        buf := buf[i := x];
        assert buf[..i + 1] == before + [x];
      }
      i := i + 1;
    }
    assert consumed[..n - |tmp|] == consumed;
    assert buf[..n] == buf;
  }

  /** A counter below cfo_count_max stays below it. */
  lemma {:induction false} CfoCounterStaysBelow(p: Packet, cfo: real, k: Size, max: Size)
    requires k < max
    ensures CfoCorrect(p, cfo, k, max).1 < max
  {
    if p != [] {
      CfoCounterStaysBelow(p[..|p| - 1], cfo, k, max);
    }
  }

  /** Each corrected sample is the packet's sample turned by the rotation
      for the counter value reached before it. */
  lemma {:induction false} CfoCorrectSample(p: Packet, cfo: real, k: Size, max: Size, j: nat)
    requires j < |p| && cfo != 0.0
    ensures CfoCorrect(p, cfo, k, max).0[j] == Mul(p[j], CfoRotation(cfo, CfoCorrect(p[..j], cfo, k, max).1))
  {
    if j < |p| - 1 {
      assert p[..|p| - 1][..j] == p[..j];
      CfoCorrectSample(p[..|p| - 1], cfo, k, max, j);
    }
  }

  /** The copy loop of unload_packet as written: slot i of the new buffer
      takes `tmp[i]` below |tmp| and `consumed[i]` from there on. `None` is
      a read past the end of the packet. Yields the first `n` slots and the
      counter. */
  function FillAsWritten(tmp: seq<Complex>, consumed: Packet, cfo: real, k: Size, max: Size, n: nat)
    : Option<(seq<Complex>, Size)>
  {
    if n == 0 then Some(([], k))
    else
      match FillAsWritten(tmp, consumed, cfo, k, max, n - 1)
      case None => None
      case Some(prev) =>
        var i := n - 1;
        if i < |tmp| then Some((prev.0 + [tmp[i]], prev.1))
        else if i >= |consumed| then None
        else if cfo != 0.0 then Some((prev.0 + [Mul(consumed[i], CfoRotation(cfo, prev.1))], NextCfoCounter(prev.1, max)))
        else Some((prev.0 + [consumed[i]], prev.1))
  }

  lemma {:induction false} FillAsWrittenPrefix(tmp: seq<Complex>, consumed: Packet, cfo: real, k: Size, max: Size, n: nat)
    requires n <= |tmp|
    ensures FillAsWritten(tmp, consumed, cfo, k, max, n) == Some((tmp[..n], k))
  {
    if n > 0 {
      FillAsWrittenPrefix(tmp, consumed, cfo, k, max, n - 1);
      assert tmp[..n - 1] + [tmp[n - 1]] == tmp[..n];
    }
  }

  lemma {:induction false} FillAsWrittenStaysNone(tmp: seq<Complex>, consumed: Packet, cfo: real, k: Size, max: Size, n: nat, m: nat)
    requires n <= m && FillAsWritten(tmp, consumed, cfo, k, max, n).None?
    ensures FillAsWritten(tmp, consumed, cfo, k, max, m).None?
    decreases m - n
  {
    if n < m {
      FillAsWrittenStaysNone(tmp, consumed, cfo, k, max, n + 1, m);
    }
  }

  /** As written, the loop reads past the consumed packet whenever there is
      a carried-over sample (N_zfc >= 2) and the packet is not empty: the
      slot max(|tmp|, |consumed|) lies inside the new buffer but indexes the
      packet at its own length or beyond. */
  lemma UnloadReadsPastPacket(tmp: seq<Complex>, consumed: Packet, cfo: real, k: Size, max: Size)
    requires 1 <= |tmp| && 1 <= |consumed|
    ensures FillAsWritten(tmp, consumed, cfo, k, max, |tmp| + |consumed|).None?
  {
    var f := if |tmp| <= |consumed| then |consumed| else |tmp|;
    if f == |tmp| {
      FillAsWrittenPrefix(tmp, consumed, cfo, k, max, f);
    } else {
      FillAsWrittenPrefix(tmp, consumed, cfo, k, max, |tmp|);
      FillAgreesUpTo(tmp, consumed, cfo, k, max, f);
    }
    FillAsWrittenStaysNone(tmp, consumed, cfo, k, max, f + 1, |tmp| + |consumed|);
  }

  /** Below the packet's length the as-written loop writes `consumed[i]`
      with no failure. */
  lemma {:induction false} FillAgreesUpTo(tmp: seq<Complex>, consumed: Packet, cfo: real, k: Size, max: Size, n: nat)
    requires |tmp| <= n <= |consumed|
    ensures FillAsWritten(tmp, consumed, cfo, k, max, n).Some?
  {
    if n == |tmp| {
      FillAsWrittenPrefix(tmp, consumed, cfo, k, max, n);
    } else {
      FillAgreesUpTo(tmp, consumed, cfo, k, max, n - 1);
    }
  }

  /** With nothing carried over (N_zfc == 1) the as-written loop is the
      intended one: the packet, CFO-corrected. */
  lemma {:induction false} AsWrittenAgreesWithoutCarry(consumed: Packet, cfo: real, k: Size, max: Size, n: nat)
    requires n <= |consumed|
    ensures FillAsWritten([], consumed, cfo, k, max, n) == Some(CfoCorrect(consumed[..n], cfo, k, max))
  {
    if n > 0 {
      AsWrittenAgreesWithoutCarry(consumed, cfo, k, max, n - 1);
      assert consumed[..n][..n - 1] == consumed[..n - 1];
    }
  }

  // ---------------------------------------------------------------------
  // Correlation

  /** Output `i` of the FFT correlation of a zero-padded block with the ZFC
      sequence at FFT length `l`: uninterpreted. */
  const CorrelationAt: (seq<Complex>, Size, nat) -> Complex

  /** fft_cross_correlate: the first packet_size outputs of the correlation. */
  function FftCrossCorrelate(samples: seq<Complex>, fftL: Size, packetSize: nat): (r: seq<Complex>)
    requires packetSize <= fftL
    ensures |r| == packetSize
    ensures forall i :: 0 <= i < packetSize ==> r[i] == CorrelationAt(samples, fftL, i)
  {
    seq(packetSize, i requires 0 <= i => CorrelationAt(samples, fftL, i))
  }

  // ---------------------------------------------------------------------
  // peak_detector: the scan of one correlation block

  /** The counters a scan changes, with the scan's locals. */
  datatype ScanState = ScanState(withoutPeak: Size, sumAmpl: real, foundPeak: bool, increases: nat)

  /** How a scan ends: at the end of the block or at the first index where
      detection fires (`detectedAt`), or by indexing past the samples or
      the timer. */
  datatype ScanEnd = Scanned(st: ScanState, detectedAt: Option<nat>) | ReadPastBuffer

  /** num_samples_without_peak after a sample that is not a peak: restarted
      from 0 when it has reached SIZE_MAX, then incremented. */
  function NextWithoutPeak(n: Size): (r: Size)
    ensures 1 <= r
    ensures n + 1 < SizeModulus ==> r == n + 1
    ensures n + 1 == SizeModulus ==> r == 1
  {
    if n == SizeModulus - 1 then 1 else n + 1
  }

  /** |corr_i| / N_zfc. */
  function Ampl(c: Config, x: Complex): real
    requires 1 <= c.nZfc
  {
    Mag(x) / c.nZfc as real
  }

  /** The bookkeeping around one call of process_corr: a peak zeroes the
      run of samples without one; any other sample adds its amplitude to the
      noise sum (when noise updates are on) and extends the run. */
  function Observe(c: Config, st: ScanState, hit: bool, ampl: real): (r: ScanState)
    ensures r.increases == st.increases && r.foundPeak == hit
    ensures hit ==> r.withoutPeak == 0 && r.sumAmpl == st.sumAmpl
    ensures !hit ==> r.withoutPeak == NextWithoutPeak(st.withoutPeak)
                     && r.sumAmpl == if c.updateNoiseLevel then st.sumAmpl + ampl else st.sumAmpl
  {
    if hit then st.(foundPeak := true, withoutPeak := 0)
    else st.(foundPeak := false,
             sumAmpl := if c.updateNoiseLevel then st.sumAmpl + ampl else st.sumAmpl,
             withoutPeak := NextWithoutPeak(st.withoutPeak))
  }

  /** How many samples the detection branch copies: M counts up while
      M + i stays below `bound` and M < N_zfc. */
  function CopyCount(i: nat, bound: nat, n: nat): (m: nat)
    ensures m <= n && (i + m <= bound || m == 0)
    ensures m == n || i + m >= bound
  {
    if i >= bound then 0 else if bound - i < n then bound - i else n
  }

  /** The bound on the copy after a detection: corr_seq_len as written
      (`fixed` false), the block's length corrected (`fixed` true). */
  function CopyBound(c: Config, corr: seq<Complex>, fixed: bool): nat
  {
    if fixed then |corr| else c.maxRxPacketSize
  }

  predicate ScanArgsOk(c: Config, corr: seq<Complex>, hits: seq<bool>, flags: seq<bool>)
  {
    1 <= c.nZfc && |corr| <= c.maxRxPacketSize && |corr| <= |hits| && |corr| <= |flags|
  }

  /** The scan of peak_detector from index `i`. A sample without detection
      is shifted into saved_ref from index i + N_zfc - 1 of the samples
      (and its time from the timer) and counted by increase_samples_counter;
      at a detection the next CopyCount samples are shifted in and the scan
      stops. The contents of the saved window are `SavedWindow`. */
  function ScanFrom(c: Config, samples: seq<Complex>, timer: seq<real>, corr: seq<Complex>,
                    hits: seq<bool>, flags: seq<bool>, fixed: bool, i: nat, st: ScanState): ScanEnd
    requires ScanArgsOk(c, corr, hits, flags) && i <= |corr|
    decreases |corr| - i
  {
    if i == |corr| then Scanned(st, None)
    else
      var at := i + c.nZfc - 1;
      var o := Observe(c, st, hits[i], Ampl(c, corr[i]));
      if flags[i] then
        var end := at + CopyCount(i, CopyBound(c, corr, fixed), c.nZfc);
        if end > |samples| || end > |timer| then ReadPastBuffer else Scanned(o, Some(i))
      else if at >= |samples| || at >= |timer| then ReadPastBuffer
      else ScanFrom(c, samples, timer, corr, hits, flags, fixed, i + 1, o.(increases := o.increases + 1))
  }

  /** The end of the saved window: the block's last sample, or the last
      sample the detection branch copies. */
  function SavedUpTo(c: Config, corr: seq<Complex>, fixed: bool, e: ScanEnd): nat
    requires 1 <= c.nZfc && e.Scanned?
  {
    match e.detectedAt
    case None => |corr| + c.nZfc - 1
    case Some(k) => c.nZfc - 1 + k + CopyCount(k, CopyBound(c, corr, fixed), c.nZfc)
  }

  /** A scan that did not read past its buffers stays within them. */
  lemma {:induction false} ScanWithinBuffers(c: Config, samples: seq<Complex>, timer: seq<real>, corr: seq<Complex>,
                                             hits: seq<bool>, flags: seq<bool>, fixed: bool, i: nat, st: ScanState)
    requires ScanArgsOk(c, corr, hits, flags) && i <= |corr|
    requires ScanFrom(c, samples, timer, corr, hits, flags, fixed, i, st).Scanned?
    requires i + c.nZfc - 1 <= |samples| && i + c.nZfc - 1 <= |timer|
    ensures var u := SavedUpTo(c, corr, fixed, ScanFrom(c, samples, timer, corr, hits, flags, fixed, i, st));
            i + c.nZfc - 1 <= u <= |samples| && u <= |timer|
    decreases |corr| - i
  {
    if i < |corr| && !flags[i] {
      var o := Observe(c, st, hits[i], Ampl(c, corr[i]));
      ScanWithinBuffers(c, samples, timer, corr, hits, flags, fixed, i + 1, o.(increases := o.increases + 1));
    }
  }

  /** saved_ref (or saved_ref_timer) after a scan from the start: every
      sample from index N_zfc - 1 up to the end of the saved window shifted
      in, in order. */
  function SavedWindow<T>(c: Config, corr: seq<Complex>, fixed: bool, before: seq<T>, xs: seq<T>, e: ScanEnd): (r: seq<T>)
    requires 1 <= c.nZfc && 0 < |before| && e.Scanned?
    requires c.nZfc - 1 <= SavedUpTo(c, corr, fixed, e) <= |xs|
    ensures |r| == |before|
  {
    ShiftRange(before, xs, c.nZfc - 1, SavedUpTo(c, corr, fixed, e))
  }

  /** With a block no longer than the samples carried behind it, the
      corrected scan never indexes past the samples or the timer. */
  lemma {:induction false} ScanInRange(c: Config, samples: seq<Complex>, timer: seq<real>, corr: seq<Complex>,
                                       hits: seq<bool>, flags: seq<bool>, i: nat, st: ScanState)
    requires ScanArgsOk(c, corr, hits, flags) && i <= |corr|
    requires |corr| + c.nZfc - 1 <= |samples| <= |timer|
    ensures ScanFrom(c, samples, timer, corr, hits, flags, true, i, st).Scanned?
    decreases |corr| - i
  {
    if i < |corr| && !flags[i] {
      var o := Observe(c, st, hits[i], Ampl(c, corr[i]));
      ScanInRange(c, samples, timer, corr, hits, flags, i + 1, o.(increases := o.increases + 1));
    }
  }

  /** As written, a detection within N_zfc - 1 samples of the end of a
      block shorter than corr_seq_len reads past the samples buffer: the
      copy runs up to N_zfc samples, bounded only by corr_seq_len. */
  lemma {:induction false} ShortBlockReadsPast(c: Config, samples: seq<Complex>, timer: seq<real>, corr: seq<Complex>,
                                               hits: seq<bool>, flags: seq<bool>, i: nat, k: nat, st: ScanState)
    requires ScanArgsOk(c, corr, hits, flags) && i <= k < |corr| < c.maxRxPacketSize
    requires |samples| == |corr| + c.nZfc - 1 <= |timer|
    requires flags[k] && forall j :: i <= j < k ==> !flags[j]
    requires |corr| < k + c.nZfc
    ensures ScanFrom(c, samples, timer, corr, hits, flags, false, i, st) == ReadPastBuffer
    decreases k - i
  {
    if i < k {
      var o := Observe(c, st, hits[i], Ampl(c, corr[i]));
      ShortBlockReadsPast(c, samples, timer, corr, hits, flags, i + 1, k, o.(increases := o.increases + 1));
    }
  }

  /** The scan stops at the first index where detection fires, and it
      reaches the end of the block only when detection never fires; every
      sample before the stop is counted once by increase_samples_counter. */
  lemma {:induction false} ScanStopsAtFirstDetection(c: Config, samples: seq<Complex>, timer: seq<real>, corr: seq<Complex>,
                                                     hits: seq<bool>, flags: seq<bool>, fixed: bool, i: nat, st: ScanState)
    requires ScanArgsOk(c, corr, hits, flags) && i <= |corr|
    ensures var e := ScanFrom(c, samples, timer, corr, hits, flags, fixed, i, st);
            e.Scanned? ==>
              && (e.detectedAt.None? ==> (forall j :: i <= j < |corr| ==> !flags[j])
                                         && e.st.increases == st.increases + (|corr| - i))
              && (e.detectedAt.Some? ==> var k := e.detectedAt.value;
                                         i <= k < |corr| && flags[k] && (forall j :: i <= j < k ==> !flags[j])
                                         && e.st.increases == st.increases + (k - i))
    decreases |corr| - i
  {
    if i < |corr| && !flags[i] {
      var o := Observe(c, st, hits[i], Ampl(c, corr[i]));
      ScanStopsAtFirstDetection(c, samples, timer, corr, hits, flags, fixed, i + 1, o.(increases := o.increases + 1));
    }
  }

  /** found_peak after the scan is the verdict on the last sample
      processed, and a peak leaves the run of samples without one at 0. */
  lemma {:induction false} ScanFoundPeak(c: Config, samples: seq<Complex>, timer: seq<real>, corr: seq<Complex>,
                                         hits: seq<bool>, flags: seq<bool>, fixed: bool, i: nat, st: ScanState)
    requires ScanArgsOk(c, corr, hits, flags) && i < |corr|
    ensures var e := ScanFrom(c, samples, timer, corr, hits, flags, fixed, i, st);
            e.Scanned? ==>
              var last := if e.detectedAt.Some? then e.detectedAt.value else |corr| - 1;
              i <= last < |corr| && e.st.foundPeak == hits[last] && (e.st.foundPeak ==> e.st.withoutPeak == 0)
    decreases |corr| - i
  {
    if !flags[i] && i + 1 < |corr| {
      var o := Observe(c, st, hits[i], Ampl(c, corr[i]));
      ScanFoundPeak(c, samples, timer, corr, hits, flags, fixed, i + 1, o.(increases := o.increases + 1));
    }
  }

  /** A block with no peak and no detection extends the run of samples
      without a peak by its length (when that stays below SIZE_MAX). */
  lemma {:induction false} ScanCountsMisses(c: Config, samples: seq<Complex>, timer: seq<real>, corr: seq<Complex>,
                                            hits: seq<bool>, flags: seq<bool>, fixed: bool, i: nat, st: ScanState)
    requires ScanArgsOk(c, corr, hits, flags) && i <= |corr|
    requires |corr| + c.nZfc - 1 <= |samples| <= |timer|
    requires forall j :: i <= j < |corr| ==> !hits[j] && !flags[j]
    requires st.withoutPeak + (|corr| - i) < SizeModulus
    ensures var e := ScanFrom(c, samples, timer, corr, hits, flags, fixed, i, st);
            e.Scanned? && e.detectedAt.None? && e.st.withoutPeak == st.withoutPeak + (|corr| - i)
    decreases |corr| - i
  {
    if i < |corr| {
      var o := Observe(c, st, hits[i], Ampl(c, corr[i]));
      ScanCountsMisses(c, samples, timer, corr, hits, flags, fixed, i + 1, o.(increases := o.increases + 1));
    }
  }

  /** The updateNoiseLevel call that ends a scan, if any, with the mean
      amplitude sum_ampl / corr_seq_len. */
  function NoiseCall(c: Config, e: ScanEnd): (r: Option<Ext>)
    ensures r.Some? <==> e.Scanned? && e.detectedAt.None? && !e.st.foundPeak && c.updateNoiseLevel
    ensures r.Some? ==> r.value == Div(e.st.sumAmpl, c.maxRxPacketSize as real)
  {
    if e.Scanned? && e.detectedAt.None? && !e.st.foundPeak && c.updateNoiseLevel
    then Some(Div(e.st.sumAmpl, c.maxRxPacketSize as real))
    else None
  }

  /** The noise level is updated after a non-empty block exactly when
      detection never fired, updates are on and the last sample was not a
      peak. */
  lemma NoiseCallOnLastSample(c: Config, samples: seq<Complex>, timer: seq<real>, corr: seq<Complex>,
                              hits: seq<bool>, flags: seq<bool>, fixed: bool, st: ScanState)
    requires ScanArgsOk(c, corr, hits, flags) && 0 < |corr|
    requires ScanFrom(c, samples, timer, corr, hits, flags, fixed, 0, st).Scanned?
    ensures var e := ScanFrom(c, samples, timer, corr, hits, flags, fixed, 0, st);
            NoiseCall(c, e).Some? <==> (forall j :: 0 <= j < |corr| ==> !flags[j]) && !hits[|corr| - 1] && c.updateNoiseLevel
  {
    ScanStopsAtFirstDetection(c, samples, timer, corr, hits, flags, fixed, 0, st);
    ScanFoundPeak(c, samples, timer, corr, hits, flags, fixed, 0, st);
  }

  /** The copy after a detection: the next samples and their times from
      index `i + n - 1` on, at most `n` of them and none at or past index
      `bound + n - 1`, shifted into the saved windows. */
  method CopyAfterDetection(samples: seq<Complex>, timer: seq<real>, ref0: seq<Complex>, refTimer0: seq<real>,
                            i: nat, bound: nat, n: nat)
    returns (ref: seq<Complex>, refTimer: seq<real>)
    requires 1 <= n && i < bound
    requires n - 1 + i + CopyCount(i, bound, n) <= |samples| && n - 1 + i + CopyCount(i, bound, n) <= |timer|
    requires 0 < |ref0| && 0 < |refTimer0|
    ensures ref == ShiftRange(ref0, samples, n - 1 + i, n - 1 + i + CopyCount(i, bound, n))
    ensures refTimer == ShiftRange(refTimer0, timer, n - 1 + i, n - 1 + i + CopyCount(i, bound, n))
  {
    ref, refTimer := ref0, refTimer0;
    var m := 0;
    while m + i < bound && m < n
      invariant m <= CopyCount(i, bound, n)
      invariant ref == ShiftRange(ref0, samples, n - 1 + i, n - 1 + i + m)
      invariant refTimer == ShiftRange(refTimer0, timer, n - 1 + i, n - 1 + i + m)
    {
      ref := Shift(ref, samples[m + i + n - 1]);
      refTimer := Shift(refTimer, timer[m + i + n - 1]);
      m := m + 1;
    }
  }

  /** The loop of peak_detector up to its first detection flag: every
      sample before it is observed and shifted into the saved windows. A
      scan that does not read past the timer finds every time it shifts. */
  method ScanUntilFlag(c: Config, samples: seq<Complex>, timer: seq<real>, corr: seq<Complex>,
                       hits: seq<bool>, flags: seq<bool>, ref0: seq<Complex>, refTimer0: seq<real>, st0: ScanState)
    returns (st: ScanState, i: nat, ref: seq<Complex>, refTimer: seq<real>)
    requires ScanArgsOk(c, corr, hits, flags) && 0 < |ref0| && 0 < |refTimer0| && 0 < |corr|
    requires |corr| + c.nZfc - 1 <= |samples|
    requires ScanFrom(c, samples, timer, corr, hits, flags, true, 0, st0).Scanned?
    ensures i <= |corr| && (i == |corr| || flags[i]) && c.nZfc - 1 + i <= |timer|
    ensures ScanFrom(c, samples, timer, corr, hits, flags, true, 0, st0)
            == ScanFrom(c, samples, timer, corr, hits, flags, true, i, st)
    ensures ref == ShiftRange(ref0, samples, c.nZfc - 1, c.nZfc - 1 + i)
    ensures refTimer == ShiftRange(refTimer0, timer, c.nZfc - 1, c.nZfc - 1 + i)
  {
    st, i, ref, refTimer := st0, 0, ref0, refTimer0;
    while i < |corr| && !flags[i]
      invariant 0 <= i <= |corr| && c.nZfc - 1 + i <= |timer|
      invariant ScanFrom(c, samples, timer, corr, hits, flags, true, 0, st0)
                == ScanFrom(c, samples, timer, corr, hits, flags, true, i, st)
      invariant ref == ShiftRange(ref0, samples, c.nZfc - 1, c.nZfc - 1 + i)
      invariant refTimer == ShiftRange(refTimer0, timer, c.nZfc - 1, c.nZfc - 1 + i)
    {
      var o := Observe(c, st, hits[i], Ampl(c, corr[i]));
      ref := Shift(ref, samples[i + c.nZfc - 1]);
      refTimer := Shift(refTimer, timer[i + c.nZfc - 1]);
      st := o.(increases := o.increases + 1);
      i := i + 1;
    }
  }

  /** The saved window of a scan that ended at sample `hi`. */
  lemma SavedWindowAt<T>(c: Config, corr: seq<Complex>, e: ScanEnd, before: seq<T>, xs: seq<T>, hi: nat)
    requires 1 <= c.nZfc && 0 < |before| && e.Scanned?
    requires SavedUpTo(c, corr, true, e) == hi && c.nZfc - 1 <= hi <= |xs|
    ensures SavedWindow(c, corr, true, before, xs, e) == ShiftRange(before, xs, c.nZfc - 1, hi)
  {
  }

  /** The saved window after a detection at i: `mid` holds the samples
      shifted in before it, `w` those copied after it as well. */
  lemma SavedAfterDetection<T>(c: Config, corr: seq<Complex>, e: ScanEnd, i: nat, before: seq<T>, xs: seq<T>,
                               mid: seq<T>, w: seq<T>)
    requires 1 <= c.nZfc && 0 < |before| && e.Scanned? && e.detectedAt == Some(i)
    requires c.nZfc - 1 + i + CopyCount(i, |corr|, c.nZfc) <= |xs|
    requires mid == ShiftRange(before, xs, c.nZfc - 1, c.nZfc - 1 + i)
    requires w == ShiftRange(mid, xs, c.nZfc - 1 + i, c.nZfc - 1 + i + CopyCount(i, |corr|, c.nZfc))
    ensures c.nZfc - 1 <= SavedUpTo(c, corr, true, e) <= |xs|
    ensures w == SavedWindow(c, corr, true, before, xs, e)
  {
    var hi := c.nZfc - 1 + i + CopyCount(i, |corr|, c.nZfc);
    ShiftRangeAppend(before, xs, c.nZfc - 1, c.nZfc - 1 + i, hi);
    assert SavedUpTo(c, corr, true, e) == hi;
    SavedWindowAt(c, corr, e, before, xs, hi);
  }

  /** As written, the detector's timer is never sized or filled: a scan of
      any non-empty block over an empty timer reads past it, on the first
      sample whether or not detection fires there. */
  lemma EmptyTimerReadsPast(c: Config, samples: seq<Complex>, corr: seq<Complex>,
                            hits: seq<bool>, flags: seq<bool>, fixed: bool, st: ScanState)
    requires ScanArgsOk(c, corr, hits, flags) && 0 < |corr|
    ensures ScanFrom(c, samples, [], corr, hits, flags, fixed, 0, st) == ReadPastBuffer
  {
  }

  /** peak_detector on a non-empty block whose scan stays within the
      samples and the timer, with the detector's saved_ref, saved_ref_timer
      and num_samples_without_peak passed in and out. The copy after a
      detection is bounded by the block's length. */
  method ScanBlock(c: Config, samples: seq<Complex>, timer: seq<real>, corr: seq<Complex>,
                   hits: seq<bool>, flags: seq<bool>, ref0: seq<Complex>, refTimer0: seq<real>, without0: Size)
    returns (ref: seq<Complex>, refTimer: seq<real>, without: Size, increases: nat, detectedAt: Option<nat>, noise: Option<Ext>)
    requires ScanArgsOk(c, corr, hits, flags) && 0 < |ref0| && 0 < |refTimer0| && 0 < |corr|
    requires |corr| + c.nZfc - 1 <= |samples|
    requires ScanFrom(c, samples, timer, corr, hits, flags, true, 0, ScanState(without0, 0.0, false, 0)).Scanned?
    ensures var e := ScanFrom(c, samples, timer, corr, hits, flags, true, 0, ScanState(without0, 0.0, false, 0));
            && e.detectedAt == detectedAt && e.st.increases == increases
            && without == e.st.withoutPeak && noise == NoiseCall(c, e)
            && c.nZfc - 1 <= SavedUpTo(c, corr, true, e) <= |samples| && SavedUpTo(c, corr, true, e) <= |timer|
            && ref == SavedWindow(c, corr, true, ref0, samples, e)
            && refTimer == SavedWindow(c, corr, true, refTimer0, timer, e)
  {
    ghost var e := ScanFrom(c, samples, timer, corr, hits, flags, true, 0, ScanState(without0, 0.0, false, 0));
    var st, i;
    st, i, ref, refTimer := ScanUntilFlag(c, samples, timer, corr, hits, flags, ref0, refTimer0,
                                          ScanState(without0, 0.0, false, 0));
    if i < |corr| {
      var o := Observe(c, st, hits[i], Ampl(c, corr[i]));
      ghost var at := c.nZfc - 1 + i;
      ghost var count := CopyCount(i, |corr|, c.nZfc);
      ghost var midRef, midTimer := ref, refTimer;
      assert e == Scanned(o, Some(i));
      ref, refTimer := CopyAfterDetection(samples, timer, ref, refTimer, i, |corr|, c.nZfc);
      SavedAfterDetection(c, corr, e, i, ref0, samples, midRef, ref);
      SavedAfterDetection(c, corr, e, i, refTimer0, timer, midTimer, refTimer);
      without, increases, detectedAt, noise := o.withoutPeak, o.increases, Some(i), None;
    } else {
      assert e == Scanned(st, None);
      assert SavedUpTo(c, corr, true, e) == c.nZfc - 1 + i;
      without, increases, detectedAt := st.withoutPeak, st.increases, None;
      noise := if !st.foundPeak && c.updateNoiseLevel then Some(Div(st.sumAmpl, c.maxRxPacketSize as real)) else None;
    }
  }

  /** get_wait_time: the sync time, plus N_zfc * sync-with-peak-from-last
      sample durations, plus the configured wait in microseconds. */
  function WaitTime(c: Config, rxDuration: real, syncTime: real): (t: real)
    ensures 0.0 <= rxDuration && 0.0 <= c.txWaitMicrosec ==> syncTime <= t
  {
    var peakToLast := rxDuration * c.nZfc as real * c.syncWithPeakFromLast as real;
    assert 0.0 <= rxDuration ==> 0.0 <= rxDuration * c.nZfc as real;
    assert 0.0 <= rxDuration ==> 0.0 <= peakToLast;
    syncTime + (peakToLast + c.txWaitMicrosec / 1000000.0)
  }

  /** What consume did besides its own state: the post-detection branch
      (the peak detector is reset and the success signal raised), a scan
      with its counter increments, the detection index and the noise-level
      update, or a scan that would index past the timer or pop an empty
      saved_ref_timer, where the model stops. */
  datatype ConsumeEffect = Detected | ScanOnly(increases: nat, detectedAt: Option<nat>, noise: Option<Ext>) | ReadPast

  class CycleStartDetector {
    const cfg: Config
    const rxSampleDuration: real
    const saveRefLen: Size
    const corrSeqLen: Size
    const fftL: Size
    const fftLL: Size
    const packetBuffer: CircularPacket
    var samplesBuffer: seq<Complex>
    var timer: seq<real>
    var savedRef: seq<Complex>
    var savedRefTimer: seq<real>
    var cfo: real
    var cfoCounter: Size
    var numSamplesWithoutPeak: Size
    var currentPacketTimer: real
    var lastPacketTimer: real
    var packetSize: nat
    var csdTxStartTimer: real

    ghost predicate Valid()
      reads this, packetBuffer
    {
      ConfigOk(cfg) && packetBuffer.Valid()
      && corrSeqLen == cfg.maxRxPacketSize && saveRefLen == SaveRefLen(cfg)
      && BufferLen(cfg) <= fftL && saveRefLen + cfg.nZfc - 1 <= fftLL
      && |savedRef| == saveRefLen
      && cfg.nZfc - 1 <= |samplesBuffer|
    }

    /** The scan's starting state. */
    function ScanStart(): ScanState
      reads this
    {
      ScanState(numSamplesWithoutPeak, 0.0, false, 0)
    }

    /** The constructor: saved_ref and the samples buffer sized and zeroed,
        both FFT lengths doubled up from their initial values. As written
        (`fixed` false) saved_ref_timer and timer are left empty; corrected,
        saved_ref_timer is sized like saved_ref and the timer holds the
        given sample times. */
    constructor (c: Config, rxDuration: real, capacity: nat, fftInit: Size, fftInitLL: Size,
                 sampleTimer: seq<real>, fixed: bool)
      requires ConfigOk(c) && 0 < capacity && 0 < fftInit && 0 < fftInitLL
      ensures Valid() && fresh(packetBuffer) && cfg == c && rxSampleDuration == rxDuration
      ensures packetBuffer.capacity == capacity && packetBuffer.Contents() == []
      ensures savedRef == Zeros(SaveRefLen(c)) && samplesBuffer == Zeros(BufferLen(c))
      ensures !fixed ==> savedRefTimer == [] && timer == []
      ensures fixed ==> savedRefTimer == seq(SaveRefLen(c), _ => 0.0) && timer == sampleTimer
      ensures cfo == 0.0 && cfoCounter == 0 && numSamplesWithoutPeak == 0
      ensures fftL == fftInit || fftL < 2 * BufferLen(c)
      ensures fftLL == fftInitLL || fftLL < 2 * (SaveRefLen(c) + c.nZfc - 1)
    {
      cfg := c;
      rxSampleDuration := rxDuration;
      packetBuffer := new CircularPacket(capacity);
      saveRefLen := SaveRefLen(c);
      corrSeqLen := c.maxRxPacketSize;
      var l, k := FftLength(fftInit, BufferLen(c));
      fftL := l;
      var ll, kk := FftLength(fftInitLL, SaveRefLen(c) + c.nZfc - 1);
      fftLL := ll;
      savedRef := Zeros(SaveRefLen(c));
      samplesBuffer := Zeros(BufferLen(c));
      savedRefTimer := if fixed then seq(SaveRefLen(c), _ => 0.0) else [];
      timer := if fixed then sampleTimer else [];
      cfo := 0.0;
      cfoCounter := 0;
      numSamplesWithoutPeak := 0;
      currentPacketTimer, lastPacketTimer, packetSize, csdTxStartTimer := 0.0, 0.0, 0, 0.0;
    }

    /** produce: the packet is cut to its true size (the caller's vector
        too) and pushed. A refused push is retried until the stop flag is
        seen; a slot freed by the consumer meanwhile is the other thread's
        doing, so the model demands the flag or room in the ring. */
    method Produce(packet: Packet, trueSize: nat, startTime: real, stop: bool) returns (pushed: bool, truncated: Packet)
      requires Valid() && trueSize <= |packet|
      requires stop || packetBuffer.Next(packetBuffer.head) != packetBuffer.tail
      modifies packetBuffer
      ensures Valid() && truncated == packet[..trueSize]
      ensures pushed <==> old(packetBuffer.Next(packetBuffer.head)) != old(packetBuffer.tail)
      ensures !pushed ==> stop && packetBuffer.head == old(packetBuffer.head)
                          && packetBuffer.packetBuffer == old(packetBuffer.packetBuffer)
      ensures pushed ==> packetBuffer.packetBuffer == old(packetBuffer.packetBuffer)[old(packetBuffer.head) := truncated]
                         && packetBuffer.timeSpecs == old(packetBuffer.timeSpecs)[old(packetBuffer.head) := startTime]
      ensures pushed && IsPow2(packetBuffer.capacity) ==>
                packetBuffer.Contents() == old(packetBuffer.Contents()) + [(truncated, startTime)]
    {
      truncated := packet;
      if |packet| != trueSize {
        truncated := packet[..trueSize];
      }
      pushed := packetBuffer.Push(truncated, startTime);
    }

    /** unload_packet: pops the next packet (none when the ring is empty and
        the stop flag is set) and rebuilds the samples buffer as the last
        N_zfc - 1 old samples followed by the CFO-corrected packet. The copy
        reads `consumed[i - |tmp|]`, the index the loop intends. */
    method UnloadPacket(stop: bool)
      requires Valid() && (stop || packetBuffer.head != packetBuffer.tail)
      modifies packetBuffer`tail, this`samplesBuffer, this`cfoCounter, this`lastPacketTimer,
               this`currentPacketTimer, this`packetSize
      ensures Valid() && lastPacketTimer == old(currentPacketTimer)
      ensures var empty := old(packetBuffer.head == packetBuffer.tail);
              var consumed := if empty then [] else old(packetBuffer.packetBuffer[packetBuffer.tail]);
              var corrected := CfoCorrect(consumed, cfo, old(cfoCounter), cfg.cfoCountMax);
              && packetSize == |consumed|
              && samplesBuffer == old(samplesBuffer[|samplesBuffer| - (cfg.nZfc - 1)..]) + corrected.0
              && cfoCounter == corrected.1
              && (empty ==> packetBuffer.tail == old(packetBuffer.tail) && currentPacketTimer == old(currentPacketTimer))
              && (!empty ==> packetBuffer.tail == old(packetBuffer.Next(packetBuffer.tail))
                             && currentPacketTimer == old(packetBuffer.timeSpecs[packetBuffer.tail]))
      ensures |samplesBuffer| == packetSize + cfg.nZfc - 1
    {
      var previousTimer := currentPacketTimer;
      var popped := packetBuffer.Pop();
      var consumed: Packet := [];
      if popped.Some? {
        consumed := popped.value.0;
        currentPacketTimer := popped.value.1;
      }
      lastPacketTimer := previousTimer;
      packetSize := |consumed|;
      var tmp := samplesBuffer[|samplesBuffer| - (cfg.nZfc - 1)..];
      samplesBuffer, cfoCounter := CarryOver(tmp, consumed, cfo, cfoCounter, cfg.cfoCountMax);
    }

    /** The scan of peak_detector over one correlation block, with the copy
        after a detection bounded by the block (the corrected bound). `ok`
        is false when the scan would index past the timer or shift into an
        empty saved_ref_timer; the model then changes nothing. */
    method ScanCorrelation(corr: seq<Complex>, hits: seq<bool>, flags: seq<bool>)
      returns (ok: bool, increases: nat, detectedAt: Option<nat>, noise: Option<Ext>)
      requires ScanArgsOk(cfg, corr, hits, flags) && 0 < |savedRef|
      requires |corr| + cfg.nZfc - 1 <= |samplesBuffer|
      modifies this`savedRef, this`savedRefTimer, this`numSamplesWithoutPeak
      ensures var e := ScanFrom(cfg, samplesBuffer, timer, corr, hits, flags, true, 0, old(ScanStart()));
              && (ok <==> e.Scanned? && (|corr| == 0 || 0 < |old(savedRefTimer)|))
              && (ok ==> && e.detectedAt == detectedAt && e.st.increases == increases
                         && numSamplesWithoutPeak == e.st.withoutPeak && noise == NoiseCall(cfg, e)
                         && cfg.nZfc - 1 <= SavedUpTo(cfg, corr, true, e) <= |samplesBuffer|
                         && savedRef == SavedWindow(cfg, corr, true, old(savedRef), samplesBuffer, e)
                         && (|corr| == 0 ==> savedRefTimer == old(savedRefTimer))
                         && (0 < |corr| ==> SavedUpTo(cfg, corr, true, e) <= |timer|
                                            && savedRefTimer == SavedWindow(cfg, corr, true, old(savedRefTimer), timer, e)))
              && (!ok ==> savedRef == old(savedRef) && savedRefTimer == old(savedRefTimer)
                          && numSamplesWithoutPeak == old(numSamplesWithoutPeak))
    {
      var e := ScanFrom(cfg, samplesBuffer, timer, corr, hits, flags, true, 0, ScanStart());
      if |corr| == 0 {
        ok, increases, detectedAt, noise := true, 0, None, NoiseCall(cfg, e);
        return;
      }
      if !e.Scanned? || |savedRefTimer| == 0 {
        ok, increases, detectedAt, noise := false, 0, None, None;
        return;
      }
      var ref, refTimer, without;
      ref, refTimer, without, increases, detectedAt, noise :=
        ScanBlock(cfg, samplesBuffer, timer, corr, hits, flags, savedRef, savedRefTimer, numSamplesWithoutPeak);
      ok := true;
      savedRef, savedRefTimer, numSamplesWithoutPeak := ref, refTimer, without;
    }

    /** reset, corrected: the ring restarts empty with its storage kept
        (`CircularPacket::reset`) and the samples buffer goes back to the
        constructor's length, so the next unload has its N_zfc - 1 samples
        to carry over. saved_ref is zeroed at its length; the counters and
        packet timers return to 0. */
    method Reset()
      requires Valid()
      modifies packetBuffer`head, packetBuffer`tail, this`samplesBuffer, this`savedRef, this`cfoCounter,
               this`numSamplesWithoutPeak, this`currentPacketTimer, this`lastPacketTimer
      ensures Valid() && packetBuffer.Contents() == []
      ensures samplesBuffer == Zeros(BufferLen(cfg)) && savedRef == Zeros(saveRefLen)
      ensures cfoCounter == 0 && numSamplesWithoutPeak == 0
      ensures currentPacketTimer == 0.0 && lastPacketTimer == 0.0
    {
      packetBuffer.Reset();
      samplesBuffer := Zeros(BufferLen(cfg));
      savedRef := Zeros(saveRefLen);
      cfoCounter := 0;
      numSamplesWithoutPeak := 0;
      currentPacketTimer, lastPacketTimer := 0.0, 0.0;
    }

    /** reset as written: `packet_buffer.clear()` empties the ring's storage
        and `samples_buffer.clear()` leaves no samples to carry over, so the
        detector is no longer valid: the next unload takes its N_zfc - 1
        carried samples from an empty buffer, and the next push writes into
        empty storage. */
    method ResetAsWritten()
      requires Valid()
      modifies packetBuffer, this`samplesBuffer, this`savedRef, this`cfoCounter,
               this`numSamplesWithoutPeak, this`currentPacketTimer, this`lastPacketTimer
      ensures samplesBuffer == [] && savedRef == Zeros(saveRefLen)
      ensures packetBuffer.packetBuffer == [] && !packetBuffer.Valid() && !Valid()
      ensures cfg.nZfc >= 2 ==> |samplesBuffer| < cfg.nZfc - 1
      ensures cfoCounter == 0 && numSamplesWithoutPeak == 0
      ensures currentPacketTimer == 0.0 && lastPacketTimer == 0.0
    {
      packetBuffer.Clear();
      samplesBuffer := [];
      savedRef := Zeros(saveRefLen);
      cfoCounter := 0;
      numSamplesWithoutPeak := 0;
      currentPacketTimer, lastPacketTimer := 0.0, 0.0;
    }

    /** The branch of consume without a detection: a packet is unloaded,
        correlated and scanned. The scan reads past the timer, or shifts
        into an empty saved_ref_timer, exactly when `effect` is ReadPast;
        with a timer covering the samples buffer and a sized saved_ref_timer
        it never does. */
    method ConsumePacket(stop: bool, hits: seq<bool>, flags: seq<bool>) returns (effect: ConsumeEffect)
      requires Valid() && (stop || packetBuffer.head != packetBuffer.tail)
      requires packetBuffer.head != packetBuffer.tail ==> |packetBuffer.packetBuffer[packetBuffer.tail]| <= corrSeqLen
      requires corrSeqLen <= |hits| && corrSeqLen <= |flags|
      modifies this, packetBuffer`tail
      ensures Valid() && cfo == old(cfo) && lastPacketTimer == old(currentPacketTimer) && timer == old(timer)
      ensures |samplesBuffer| == packetSize + cfg.nZfc - 1 && packetSize <= corrSeqLen && packetSize <= fftL
      ensures samplesBuffer[..cfg.nZfc - 1] == old(samplesBuffer[|samplesBuffer| - (cfg.nZfc - 1)..])
      ensures var corr := FftCrossCorrelate(samplesBuffer, fftL, packetSize);
              var e := ScanFrom(cfg, samplesBuffer, timer, corr, hits, flags, true, 0, old(ScanStart()));
              && (effect == ReadPast <==> !(e.Scanned? && (packetSize == 0 || 0 < |old(savedRefTimer)|)))
              && (effect != ReadPast ==>
                    && effect == ScanOnly(e.st.increases, e.detectedAt, NoiseCall(cfg, e))
                    && numSamplesWithoutPeak == e.st.withoutPeak
                    && cfg.nZfc - 1 <= SavedUpTo(cfg, corr, true, e) <= |samplesBuffer|
                    && savedRef == SavedWindow(cfg, corr, true, old(savedRef), samplesBuffer, e)
                    && (packetSize == 0 ==> savedRefTimer == old(savedRefTimer))
                    && (0 < packetSize ==> SavedUpTo(cfg, corr, true, e) <= |timer|
                                           && savedRefTimer == SavedWindow(cfg, corr, true, old(savedRefTimer), timer, e)))
              && (effect == ReadPast ==> savedRef == old(savedRef) && savedRefTimer == old(savedRefTimer)
                                         && numSamplesWithoutPeak == old(numSamplesWithoutPeak))
      ensures old(BufferLen(cfg) <= |timer| && 0 < |savedRefTimer|) ==> effect.ScanOnly?
    {
      ghost var start := ScanStart();
      UnloadPacket(stop);
      var corr := FftCrossCorrelate(samplesBuffer, fftL, packetSize);
      if BufferLen(cfg) <= |timer| {
        ScanInRange(cfg, samplesBuffer, timer, corr, hits, flags, 0, start);
      }
      var ok, increases, detectedAt, noise := ScanCorrelation(corr, hits, flags);
      effect := if ok then ScanOnly(increases, detectedAt, noise) else ReadPast;
    }

    /** consume. With detection_flag already set (by the previous call):
        the offset estimate `newCfo` is added to cfo, the transmission time
        is set from the sync time, the detector is reset and success is
        raised. Otherwise `ConsumePacket`. The radio delivers at most
        max-rx-packet-size samples per packet. */
    method Consume(detectionFlag: bool, newCfo: real, syncTime: real, stop: bool, hits: seq<bool>, flags: seq<bool>)
      returns (effect: ConsumeEffect)
      requires Valid()
      requires !detectionFlag ==> stop || packetBuffer.head != packetBuffer.tail
      requires !detectionFlag && packetBuffer.head != packetBuffer.tail ==>
                 |packetBuffer.packetBuffer[packetBuffer.tail]| <= corrSeqLen
      requires !detectionFlag ==> corrSeqLen <= |hits| && corrSeqLen <= |flags|
      modifies this, packetBuffer`head, packetBuffer`tail
      ensures Valid()
      ensures detectionFlag ==>
                && effect == Detected && cfo == old(cfo) + newCfo
                && csdTxStartTimer == WaitTime(cfg, rxSampleDuration, syncTime)
                && packetBuffer.Contents() == [] && samplesBuffer == Zeros(BufferLen(cfg))
                && savedRef == Zeros(saveRefLen) && cfoCounter == 0 && numSamplesWithoutPeak == 0
      ensures !detectionFlag ==> !effect.Detected? && cfo == old(cfo)
      ensures !detectionFlag && old(BufferLen(cfg) <= |timer| && 0 < |savedRefTimer|) ==> effect.ScanOnly?
    {
      if detectionFlag {
        cfo := cfo + newCfo;
        csdTxStartTimer := WaitTime(cfg, rxSampleDuration, syncTime);
        Reset();
        return Detected;
      }
      effect := ConsumePacket(stop, hits, flags);
    }
  }
}
