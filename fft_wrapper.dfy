// lib_fft/FFTWrapper.cpp: FFTW plans of a fixed size, forward and backward
// transforms through the plan buffers, and zero-padding.
module FftWrapper {
  import opened Common

  /** The exponent sign of an FFTW plan: FFTW_FORWARD is -1, FFTW_BACKWARD +1. */
  const Forward: real := -1.0
  const Backward: real := 1.0

  /** Term j of bin k of the unnormalised DFT that FFTW computes:
      x[j]·e^(sign·2πi·jk/n). */
  function DftTerm(x: seq<Complex>, k: nat, sign: real, j: nat): Complex
    requires j < |x|
  {
    Mul(x[j], Polar(1.0, sign * 2.0 * Pi * (j * k) as real / |x| as real))
  }

  /** The sum of the first m terms of bin k. */
  function DftSum(x: seq<Complex>, k: nat, sign: real, m: nat): Complex
    requires m <= |x|
  {
    if m == 0 then Zero else Add(DftSum(x, k, sign, m - 1), DftTerm(x, k, sign, m - 1))
  }

  /** What fftw_execute leaves in the output buffer of a plan of size |x|. */
  function Dft(x: seq<Complex>, sign: real): (r: seq<Complex>)
    ensures |r| == |x|
  {
    seq(|x|, k requires 0 <= k < |x| => DftSum(x, k, sign, |x|))
  }

  lemma MulZeroLeft(w: Complex)
    ensures Mul(Zero, w) == Zero
  {
    assert 0.0 * w.re == 0.0;
    assert 0.0 * w.im == 0.0;
  }

  lemma {:induction false} DftSumZeros(n: nat, k: nat, sign: real, m: nat)
    requires m <= n
    ensures DftSum(Zeros(n), k, sign, m) == Zero
  {
    if m > 0 {
      DftSumZeros(n, k, sign, m - 1);
      MulZeroLeft(Polar(1.0, sign * 2.0 * Pi * ((m - 1) * k) as real / n as real));
      assert DftTerm(Zeros(n), k, sign, m - 1) == Zero;
    }
  }

  /** Both plans map the all-zero block to itself. */
  lemma DftZeros(n: nat, sign: real)
    ensures Dft(Zeros(n), sign) == Zeros(n)
  {
    forall k | 0 <= k < n
      ensures Dft(Zeros(n), sign)[k] == Zero
    {
      DftSumZeros(n, k, sign, n);
    }
  }

  /** `1.0 / size_`. For size 0 the float quotient is infinite, but then no
      entry is scaled, so any value stands in for it. */
  function ScaleFactor(n: nat): real
  {
    if n == 0 then 0.0 else 1.0 / n as real
  }

  // ---------------------------------------------------------------- zeroPad

  /** The input followed by zeros up to n entries. */
  function Padded(input: seq<Complex>, n: nat): (r: seq<Complex>)
    requires |input| <= n
    ensures |r| == n
  {
    input + Zeros(n - |input|)
  }

  /** Cutting the padding off gives the input back, and padding to the
      input's own length changes nothing. */
  lemma PaddedTruncate(input: seq<Complex>, n: nat)
    requires |input| <= n
    ensures Padded(input, n)[..|input|] == input
    ensures forall i :: |input| <= i < n ==> Padded(input, n)[i] == Zero
    ensures n == |input| ==> Padded(input, n) == input
  {
    assert Padded(input, n)[..|input|] == input;
  }

  /** Padding in two steps is padding in one. */
  lemma PaddedTwice(input: seq<Complex>, m: nat, n: nat)
    requires |input| <= m <= n
    ensures Padded(Padded(input, m), n) == Padded(input, n)
  {
    assert Zeros(m - |input|) + Zeros(n - m) == Zeros(n - |input|);
  }

  class FftWrapper {
    /** size_: the planned transform size. */
    var size: Size

    /** FFTWrapper(): the size is set by initialize. */
    constructor()
      ensures size == 0
    {
      size := 0;
    }

    /** initialize: a non-positive thread count goes to LOG_ERROR, which ends
        the process; otherwise the size is stored and the plans are made. */
    method Initialize(newSize: Size, numThreads: int) returns (st: Status)
      modifies this
      ensures st == Exited <==> numThreads <= 0
      ensures st == Returned ==> size == newSize
      ensures st == Exited ==> size == old(size)
    {
      if numThreads <= 0 {
        return Exited;
      }
      size := newSize;
      st := Returned;
    }

    /** fft: the input must have the planned size; the output is resized
        to that size and holds the forward transform. */
    method Fft(input: seq<Complex>) returns (r: Outcome<seq<Complex>>)
      ensures r.Exit? <==> |input| != size
      ensures r.Ok? ==> |r.value| == size && r.value == Dft(input, Forward)
      ensures !r.Throw?
    {
      if |input| != size {
        return Exit;
      }
      var fftIn := new Complex[size];
      var i := 0;
      while i < size
        invariant 0 <= i <= size
        invariant forall k :: 0 <= k < i ==> fftIn[k] == input[k]
      {
        fftIn[i] := input[i];
        i := i + 1;
      }
      assert fftIn[..] == input;
      var fftOut := Dft(fftIn[..], Forward);
      var output := new Complex[size];
      i := 0;
      while i < size
        invariant 0 <= i <= size
        invariant forall k :: 0 <= k < i ==> output[k] == fftOut[k]
      {
        output[i] := fftOut[i];
        i := i + 1;
      }
      assert output[..] == fftOut;
      r := Ok(output[..]);
    }

    /** ifft: the same size check; the backward transform scaled by 1/size. */
    method Ifft(input: seq<Complex>) returns (r: Outcome<seq<Complex>>)
      ensures r.Exit? <==> |input| != size
      ensures r.Ok? ==> |r.value| == size && r.value == ScaleAll(Dft(input, Backward), ScaleFactor(size))
      ensures !r.Throw?
    {
      if |input| != size {
        return Exit;
      }
      var fftOut := new Complex[size];
      var i := 0;
      while i < size
        invariant 0 <= i <= size
        invariant forall k :: 0 <= k < i ==> fftOut[k] == input[k]
      {
        fftOut[i] := input[i];
        i := i + 1;
      }
      assert fftOut[..] == input;
      var fftIn := Dft(fftOut[..], Backward);
      var scaleFactor := ScaleFactor(size);
      var output := new Complex[size];
      i := 0;
      while i < size
        invariant 0 <= i <= size
        invariant forall k :: 0 <= k < i ==> output[k] == Scale(fftIn[k], scaleFactor)
      {
        output[i] := Scale(fftIn[i], scaleFactor);
        i := i + 1;
      }
      assert output[..] == ScaleAll(fftIn, scaleFactor);
      r := Ok(output[..]);
    }

    /** zeroPad, both overloads (the vector and the deque one have the same
        body): a padded size below the input's size goes to LOG_ERROR; a
        negative one converts to a huge size_t, passes that check, and makes
        `resize` throw std::length_error. */
    method ZeroPad(input: seq<Complex>, paddedSize: int) returns (r: Outcome<seq<Complex>>)
      ensures r.Throw? <==> paddedSize < 0
      ensures r.Exit? <==> 0 <= paddedSize < |input|
      ensures r.Ok? ==> |r.value| == paddedSize && r.value == Padded(input, paddedSize)
    {
      if paddedSize < 0 {
        return Throw;
      }
      if paddedSize < |input| {
        return Exit;
      }
      var output := new Complex[paddedSize];
      var i := 0;
      while i < |input|
        invariant 0 <= i <= |input|
        invariant forall k :: 0 <= k < i ==> output[k] == input[k]
      {
        output[i] := input[i];
        i := i + 1;
      }
      while i < paddedSize
        invariant |input| <= i <= paddedSize
        invariant forall k :: 0 <= k < |input| ==> output[k] == input[k]
        invariant forall k :: |input| <= k < i ==> output[k] == Zero
      {
        output[i] := Complex(0.0, 0.0);
        i := i + 1;
      }
      assert output[..] == Padded(input, paddedSize);
      r := Ok(output[..]);
    }
  }
}
