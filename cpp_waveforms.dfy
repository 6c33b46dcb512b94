// cpp/waveforms.cpp: the stand-alone generate_waveform, which takes its
// parameters as arguments, repeats the base with gaps like the library
// version, and can pad the result cyclically with a scaled copy of the base.
module CppWaveforms {
  import opened Common
  import W = Waveforms

  /** The three enumerators of WAVEFORM_TYPE, and any other value, which the
      switch's default case leaves without a base sequence. */
  datatype WaveformType = Zfc | UnitRand | Impulse | Unlisted

  function Base(t: WaveformType, len: nat, q: nat, scale: real, seed: nat): (r: seq<Complex>)
    requires t == Impulse ==> len >= 2
    ensures t != Unlisted ==> |r| == len
    ensures t == Unlisted ==> r == []
  {
    match t
    case Zfc => W.ZadoffChu(len, q, scale)
    case UnitRand => W.UnitCircleRandom(seed, len, scale)
    case Impulse => Zeros(len)[W.ImpulseLoc(len) := Polar(scale, W.ImpulsePhase)]
    case Unlisted => []
  }

  /** `cyclic_shift`: how many samples the padding leaves off each end. */
  const CyclicShift: nat := 2

  /** `scaleFactor` of the padding. */
  const PaddingScale: real := 0.3

  /** The cyclic padding: the scaled base without its first two samples in
      front, the scaled base without its last two samples behind. */
  function CyclicPadded(base: seq<Complex>, body: seq<Complex>): seq<Complex>
    requires |base| >= CyclicShift
  {
    var scaled := ScaleAll(base, PaddingScale);
    scaled[CyclicShift..] + body + scaled[..|base| - CyclicShift]
  }

  /** generate_waveform: the repetition block, cyclically padded when asked.
      The padding slices the base two samples from either end, so it needs
      a base of at least two samples; without one the copies run outside the
      vector. */
  method GenerateWaveform(t: WaveformType, len: Size, reps: Size, gap: Size, q: Size, scale: real,
                          seed: Size, isCyclicPadding: bool) returns (r: seq<Complex>)
    requires t == Impulse ==> len >= 2
    requires isCyclicPadding ==> t != Unlisted && len >= CyclicShift
    ensures !isCyclicPadding ==> r == W.Body(Base(t, len, q, scale, seed), reps, gap, reps)
    ensures isCyclicPadding ==> r == CyclicPadded(Base(t, len, q, scale, seed), W.Body(Base(t, len, q, scale, seed), reps, gap, reps))
  {
    var sequence: seq<Complex> := [];
    match t {
      case Zfc =>
        sequence := W.GenerateZadoffChu(len, q, scale);
      case UnitRand =>
        sequence := W.GenerateUnitCircleRandom(seed, len, scale);
      case Impulse =>
        sequence := W.GenerateImpulse(len, scale);
      case Unlisted =>
    }
    assert sequence == Base(t, len, q, scale, seed);
    var finalSequence := W.Repeat(sequence, reps, gap);
    if isCyclicPadding {
      var cyclicShift := CyclicShift;
      var scaledSeq := ScaleSamples(sequence, PaddingScale);
      finalSequence := scaledSeq[cyclicShift..] + finalSequence;
      finalSequence := finalSequence + scaledSeq[..|scaledSeq| - cyclicShift];
    }
    r := finalSequence;
  }

  /** The loop of generate_waveform that scales every base sample by the
      padding's scale factor. */
  method ScaleSamples(sequence: seq<Complex>, scaleFactor: real) returns (scaledSeq: seq<Complex>)
    ensures scaledSeq == ScaleAll(sequence, scaleFactor)
  {
    scaledSeq := [];
    var i := 0;
    while i < |sequence|
      invariant 0 <= i <= |sequence|
      invariant scaledSeq == ScaleAll(sequence[..i], scaleFactor)
    {
      scaledSeq := scaledSeq + [Scale(sequence[i], scaleFactor)];
      i := i + 1;
    }
    assert sequence[..|sequence|] == sequence;
  }

  /** The padding adds 2·(|base| − 2) samples: 0.3·base[2..] in front,
      0.3·base[..|base| − 2] behind, and the block unchanged between. */
  lemma CyclicLayout(base: seq<Complex>, body: seq<Complex>)
    requires |base| >= CyclicShift
    ensures |CyclicPadded(base, body)| == |body| + 2 * (|base| - CyclicShift)
    ensures forall i :: 0 <= i < |base| - CyclicShift ==>
              CyclicPadded(base, body)[i] == Scale(base[i + CyclicShift], PaddingScale)
    ensures CyclicPadded(base, body)[|base| - CyclicShift..|base| - CyclicShift + |body|] == body
    ensures forall i :: 0 <= i < |base| - CyclicShift ==>
              CyclicPadded(base, body)[|base| - CyclicShift + |body| + i] == Scale(base[i], PaddingScale)
  {
    var p := CyclicPadded(base, body);
    var scaled := ScaleAll(base, PaddingScale);
    var m := |base| - CyclicShift;
    assert p == scaled[CyclicShift..] + body + scaled[..m];
    assert p[m..m + |body|] == body;
  }
}
