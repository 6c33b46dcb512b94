// lib_waveform/waveforms.cpp: the base sequences (Zadoff-Chu, random phases
// on a circle, an impulse, a DFT tone) and the waveform layout built from
// them: repetitions separated by gaps of zeros, with zeros at both ends.
// cpp/waveforms.cpp has the same generators and the same repetition loop;
// they are modelled once, here.
module Waveforms {
  import opened Common

  datatype WaveformType = Zfc | UnitRand | Impulse | Dft | Sine

  // ---------------------------------------------------------------- base sequences

  /** `-M_PI * zfc_q * n * (n + 1) / wf_len`. */
  function ZfcPhase(q: nat, n: nat, len: nat): real
    requires len > 0
  {
    -Pi * q as real * n as real * (n + 1) as real / len as real
  }

  /** The Zadoff-Chu sequence of root q: `scale * exp(i·phase)`. */
  function ZadoffChu(len: nat, q: nat, scale: real): (r: seq<Complex>)
    ensures |r| == len
  {
    seq(len, n requires 0 <= n < len => Polar(scale, ZfcPhase(q, n, len)))
  }

  /** generateZadoffChuSequence: a vector of wf_len samples filled in a loop. */
  method GenerateZadoffChu(len: nat, q: nat, scale: real) returns (s: seq<Complex>)
    ensures |s| == len
    ensures forall n :: 0 <= n < len ==> s[n] == Polar(scale, ZfcPhase(q, n, len))
  {
    var sequence := new Complex[len];
    var n := 0;
    while n < len
      invariant 0 <= n <= len
      invariant forall k :: 0 <= k < n ==> sequence[k] == Polar(scale, ZfcPhase(q, k, len))
    {
      var phase := -Pi * q as real * n as real * (n + 1) as real / len as real;
      sequence[n] := Polar(scale, phase);
      n := n + 1;
    }
    s := sequence[..];
  }

  /** Draw i of `uniform_real_distribution(0, 2π)` over an mt19937 seeded
      with `seed`: a fixed sequence for each seed, left uninterpreted. */
  const MtPhase: (nat, nat) -> real

  function UnitCircleRandom(seed: nat, len: nat, scale: real): (r: seq<Complex>)
    ensures |r| == len
  {
    seq(len, i requires 0 <= i < len => Polar(scale, MtPhase(seed, i)))
  }

  /** generateUnitCircleRandom: wf_len points of radius scale, their phases
      drawn in order from a generator seeded with rand_seed, so the same seed
      gives the same sequence. */
  method GenerateUnitCircleRandom(seed: nat, len: nat, scale: real) returns (s: seq<Complex>)
    ensures s == UnitCircleRandom(seed, len, scale)
    ensures forall i :: 0 <= i < len ==> s[i] == Polar(scale, MtPhase(seed, i))
  {
    s := [];
    var i := 0;
    while i < len
      invariant 0 <= i <= len
      invariant s == UnitCircleRandom(seed, i, scale)
    {
      var phase := MtPhase(seed, i);
      s := s + [Polar(scale, phase)];
      i := i + 1;
    }
  }

  /** The phase of the impulse sample. */
  const ImpulsePhase: real := 0.71

  /** The index `wf_len / 2 - 1` the impulse is written at. A length below 2
      makes that index wrap around and the write land outside the vector. */
  function ImpulseLoc(len: nat): nat
    requires len >= 2
  {
    len / 2 - 1
  }

  /** generateImpulseSignal / generateImpulse: zeros, with one sample of
      magnitude scale in the middle. */
  method GenerateImpulse(len: nat, scale: real) returns (s: seq<Complex>)
    requires len >= 2
    ensures |s| == len
    ensures s[ImpulseLoc(len)] == Polar(scale, ImpulsePhase)
    ensures forall i :: 0 <= i < len && i != ImpulseLoc(len) ==> s[i] == Zero
  {
    var sequence := new Complex[len](_ => Zero);
    var impulseLoc := len / 2;
    sequence[impulseLoc - 1] := Polar(scale, ImpulsePhase);
    s := sequence[..];
  }

  /** `scale / sqrt(wf_len)`. Sqrt is uninterpreted, so a zero root is
      possible in the model; it stands for the length-0 case, where the float
      quotient is infinite but no sample is computed. */
  function DftAmplitude(len: nat, scale: real): real
  {
    if Sqrt(len as real) == 0.0 then 0.0 else scale / Sqrt(len as real)
  }

  /** `2 * M_PI * zfc_q * n / wf_len`. */
  function DftAngle(q: nat, n: nat, len: nat): real
    requires len > 0
  {
    2.0 * Pi * q as real * n as real / len as real
  }

  /** generateDFTseq: the q-th DFT basis tone, scaled by 1/sqrt(wf_len).
      generate_waveform does not call it. */
  method GenerateDftSeq(len: nat, q: nat, scale: real) returns (s: seq<Complex>)
    ensures |s| == len
    ensures forall n :: 0 <= n < len ==> s[n] == Polar(DftAmplitude(len, scale), DftAngle(q, n, len))
  {
    var sequence := new Complex[len];
    var scaleDown := DftAmplitude(len, scale);
    var n := 0;
    while n < len
      invariant 0 <= n <= len
      invariant forall k :: 0 <= k < n ==> sequence[k] == Polar(scaleDown, DftAngle(q, k, len))
    {
      var angle := 2.0 * Pi * q as real * n as real / len as real;
      sequence[n] := Polar(scaleDown, angle);
      n := n + 1;
    }
    s := sequence[..];
  }

  // ---------------------------------------------------------------- repetitions

  /** What iteration i of the repetition loop appends: the base, then wf_gap
      zeros unless it is the last repetition. */
  function Chunk(base: seq<Complex>, reps: nat, gap: nat, i: nat): seq<Complex>
  {
    base + (if reps > 1 && i < reps - 1 && gap > 0 then Zeros(gap) else [])
  }

  /** The sequence after the first m iterations of the repetition loop. */
  function Body(base: seq<Complex>, reps: nat, gap: nat, m: nat): seq<Complex>
  {
    if m == 0 then [] else Body(base, reps, gap, m - 1) + Chunk(base, reps, gap, m - 1)
  }

  /** The repetition loop: wf_reps copies of the base with wf_gap zeros
      between consecutive copies. */
  method Repeat(base: seq<Complex>, reps: nat, gap: nat) returns (r: seq<Complex>)
    ensures r == Body(base, reps, gap, reps)
  {
    r := [];
    var i := 0;
    while i < reps
      invariant 0 <= i <= reps
      invariant r == Body(base, reps, gap, i)
    {
      r := r + base;
      if reps > 1 && i < reps - 1 && gap > 0 {
        r := r + Zeros(gap);
      }
      i := i + 1;
    }
  }

  /** After m ≤ reps iterations: m copies and a gap after each but the last
      repetition. */
  lemma {:induction false} BodyLength(base: seq<Complex>, reps: nat, gap: nat, m: nat)
    requires m <= reps
    ensures m < reps ==> |Body(base, reps, gap, m)| == m * (|base| + gap)
    ensures m == reps > 0 ==> |Body(base, reps, gap, m)| == reps * |base| + (reps - 1) * gap
  {
    if m > 0 {
      BodyLength(base, reps, gap, m - 1);
      assert (m - 1) * (|base| + gap) + |base| + gap == m * (|base| + gap);
      assert m * (|base| + gap) == m * |base| + m * gap;
      assert (m - 1) * gap == m * gap - gap;
    }
  }

  /** Later iterations only append. */
  lemma {:induction false} BodyPrefix(base: seq<Complex>, reps: nat, gap: nat, j: nat, m: nat)
    requires j <= m
    ensures |Body(base, reps, gap, j)| <= |Body(base, reps, gap, m)|
    ensures Body(base, reps, gap, m)[..|Body(base, reps, gap, j)|] == Body(base, reps, gap, j)
    decreases m
  {
    if j < m {
      BodyPrefix(base, reps, gap, j, m - 1);
      var p := Body(base, reps, gap, m - 1);
      assert Body(base, reps, gap, m)[..|p|] == p;
    }
  }

  /** Copy k of the base starts at k·(|base| + gap). */
  lemma BodyCopy(base: seq<Complex>, reps: nat, gap: nat, k: nat, t: nat)
    requires k < reps && t < |base|
    ensures k * (|base| + gap) + t < |Body(base, reps, gap, reps)|
    ensures Body(base, reps, gap, reps)[k * (|base| + gap) + t] == base[t]
  {
    BodyLength(base, reps, gap, k);
    BodyPrefix(base, reps, gap, k + 1, reps);
    var b := Body(base, reps, gap, k + 1);
    assert b == Body(base, reps, gap, k) + Chunk(base, reps, gap, k);
    assert b[k * (|base| + gap) + t] == base[t];
  }

  /** Between copies k and k + 1 lie gap zeros. */
  lemma BodyGap(base: seq<Complex>, reps: nat, gap: nat, k: nat, t: nat)
    requires k + 1 < reps && t < gap
    ensures k * (|base| + gap) + |base| + t < |Body(base, reps, gap, reps)|
    ensures Body(base, reps, gap, reps)[k * (|base| + gap) + |base| + t] == Zero
  {
    BodyLength(base, reps, gap, k);
    BodyPrefix(base, reps, gap, k + 1, reps);
    var b := Body(base, reps, gap, k + 1);
    assert b == Body(base, reps, gap, k) + Chunk(base, reps, gap, k);
    assert Chunk(base, reps, gap, k) == base + Zeros(gap);
    assert b[k * (|base| + gap) + |base| + t] == Zero;
  }

  // ---------------------------------------------------------------- WaveformGenerator

  /** The base sequence generate_waveform picks for a type. The DFT type is
      dispatched to the impulse generator; SINE has no generator. */
  function Base(t: WaveformType, len: nat, q: nat, scale: real, seed: nat): (r: seq<Complex>)
    requires (t == Impulse || t == Dft) ==> len >= 2
    ensures t != Sine ==> |r| == len
    ensures t == Sine ==> r == []
  {
    match t
    case Zfc => ZadoffChu(len, q, scale)
    case UnitRand => UnitCircleRandom(seed, len, scale)
    case Impulse => Zeros(len)[ImpulseLoc(len) := Polar(scale, ImpulsePhase)]
    case Dft => Zeros(len)[ImpulseLoc(len) := Polar(scale, ImpulsePhase)]
    case Sine => []
  }

  /** The switch of generate_waveform: the generator of the type, none
      for SINE. */
  method GenerateBase(t: WaveformType, len: nat, q: nat, scale: real, seed: nat) returns (sequence: seq<Complex>)
    requires (t == Impulse || t == Dft) ==> len >= 2
    ensures sequence == Base(t, len, q, scale, seed)
  {
    sequence := [];
    match t {
      case Zfc =>
        sequence := GenerateZadoffChu(len, q, scale);
        assert sequence == ZadoffChu(len, q, scale);
      case UnitRand =>
        sequence := GenerateUnitCircleRandom(seed, len, scale);
      case Impulse =>
        sequence := GenerateImpulse(len, scale);
        assert sequence == Zeros(len)[ImpulseLoc(len) := Polar(scale, ImpulsePhase)];
      case Dft =>
        sequence := GenerateImpulse(len, scale);
        assert sequence == Zeros(len)[ImpulseLoc(len) := Polar(scale, ImpulsePhase)];
      case Sine =>
    }
  }

  /** The complete waveform: wf_pad zeros, the repetitions, wf_pad zeros. */
  function Layout(base: seq<Complex>, reps: nat, gap: nat, pad: nat): seq<Complex>
  {
    Zeros(pad) + Body(base, reps, gap, reps) + Zeros(pad)
  }

  /** The waveform's length: 2·pad + reps·|base| + (reps − 1)·gap, or just
      the padding when there are no repetitions. */
  lemma LayoutLength(base: seq<Complex>, reps: nat, gap: nat, pad: nat)
    ensures reps > 0 ==> |Layout(base, reps, gap, pad)| == 2 * pad + reps * |base| + (reps - 1) * gap
    ensures reps == 0 ==> |Layout(base, reps, gap, pad)| == 2 * pad
  {
    BodyLength(base, reps, gap, reps);
  }

  class WaveformGenerator {
    var wfType: WaveformType
    var wfLen: Size
    var wfReps: Size
    var wfGap: Size
    var wfPad: Size
    var zfcQ: Size
    var scale: real
    var randSeed: Size

    /** WaveformGenerator(): the fields are set by initialize; `scale` has
        the default 1.0 of its declaration. */
    constructor()
      ensures scale == 1.0
    {
      scale := 1.0;
    }

    /** initialize: stores the parameters and does nothing else. */
    method Initialize(t: WaveformType, len: Size, reps: Size, gap: Size, pad: Size, q: Size, sc: real, seed: Size)
      modifies this
      ensures wfType == t && wfLen == len && wfReps == reps && wfGap == gap
      ensures wfPad == pad && zfcQ == q && scale == sc && randSeed == seed
    {
      wfType, wfLen, wfReps, wfGap := t, len, reps, gap;
      wfPad, zfcQ, scale, randSeed := pad, q, sc, seed;
    }

    /** generate_waveform: the stored type's base laid out with the stored
        repetitions, gap and padding; nothing else goes into it. */
    method GenerateWaveform() returns (r: seq<Complex>)
      requires (wfType == Impulse || wfType == Dft) ==> wfLen >= 2
      ensures r == Layout(Base(wfType, wfLen, zfcQ, scale, randSeed), wfReps, wfGap, wfPad)
    {
      var sequence := GenerateBase(wfType, wfLen, zfcQ, scale, randSeed);
      var finalSequence := Repeat(sequence, wfReps, wfGap);
      if wfPad > 0 {
        finalSequence := Zeros(wfPad) + finalSequence;
        finalSequence := finalSequence + Zeros(wfPad);
      } else {
        assert Zeros(wfPad) == [];
      }
      r := finalSequence;
    }
  }
}
