// cpp/OFDM.cpp: an OFDM helper with N subcarriers and a cyclic prefix of CP
// samples. The radix-2 FFT works in place on its argument; cyclic-prefix
// insertion and removal copy into fresh vectors; segmentation and subcarrier
// mapping fill vectors in loops.
module Ofdm {
  import opened Common

  /** OFDM(N, CP): the object only stores the two sizes. */
  datatype Ofdm = Ofdm(n: Size, cp: Size)

  // ---------------------------------------------------------------- fftRecursive

  /** Lengths the radix-2 recursion handles: every level above one element
      has an even length. For any other length the split loop reads and
      writes one element past the end of its vectors. */
  predicate Radix2Length(n: nat)
  {
    n <= 1 || (n % 2 == 0 && Radix2Length(n / 2))
  }

  function Evens(a: seq<Complex>): (r: seq<Complex>)
    ensures |r| == |a| / 2
  {
    seq(|a| / 2, i requires 0 <= i < |a| / 2 => a[2 * i])
  }

  function Odds(a: seq<Complex>): (r: seq<Complex>)
    ensures |r| == |a| / 2
  {
    seq(|a| / 2, i requires 0 <= i < |a| / 2 => a[2 * i + 1])
  }

  /** The twiddle factor after i steps of `w *= wn` from w = 1. */
  function Power(wn: Complex, i: nat): Complex
  {
    if i == 0 then Complex(1.0, 0.0) else Mul(Power(wn, i - 1), wn)
  }

  /** `2 * M_PI / n * (invert ? -1 : 1)`. */
  function Angle(n: nat, invert: bool): real
    requires n > 0
  {
    2.0 * Pi / n as real * (if invert then -1.0 else 1.0)
  }

  /** The inverse transform halves both butterfly outputs at every level. */
  function Halve(c: Complex, invert: bool): Complex
  {
    if invert then Scale(c, 0.5) else c
  }

  /** Entry i of one butterfly level, over the transformed halves e and o. */
  function Butterfly(e: seq<Complex>, o: seq<Complex>, wn: Complex, i: nat, invert: bool): Complex
    requires |e| == |o| && i < 2 * |e|
  {
    var h := |e|;
    if i < h then Halve(Add(e[i], Mul(Power(wn, i), o[i])), invert)
    else Halve(Sub(e[i - h], Mul(Power(wn, i - h), o[i - h])), invert)
  }

  /** What fftRecursive leaves in its argument. */
  function FftSpec(a: seq<Complex>, invert: bool): (r: seq<Complex>)
    requires Radix2Length(|a|)
    ensures |r| == |a|
    decreases |a|
  {
    if |a| <= 1 then a
    else
      var e := FftSpec(Evens(a), invert);
      var o := FftSpec(Odds(a), invert);
      var wn := Complex(Cos(Angle(|a|, invert)), Sin(Angle(|a|, invert)));
      seq(|a|, i requires 0 <= i < |a| => Butterfly(e, o, wn, i, invert))
  }

  /** The butterfly loop of fftRecursive: recombines the transformed halves
      a0 and a1 into a, with the twiddle factor advancing by wn each step. */
  method Combine(a: array<Complex>, a0: array<Complex>, a1: array<Complex>, wn: Complex, invert: bool)
    requires a0.Length == a1.Length && a.Length == 2 * a0.Length && a != a0 && a != a1
    modifies a
    ensures forall k :: 0 <= k < a.Length ==> a[k] == Butterfly(a0[..], a1[..], wn, k, invert)
  {
    var n, h := a.Length, a0.Length;
    ghost var e, o := a0[..], a1[..];
    var w := Complex(1.0, 0.0);
    var i := 0;
    while 2 * i < n
      invariant 0 <= i <= h
      invariant w == Power(wn, i)
      invariant forall k :: 0 <= k < i ==> a[k] == Butterfly(e, o, wn, k, invert)
      invariant forall k :: h <= k < h + i ==> a[k] == Butterfly(e, o, wn, k, invert)
    {
      var hi, lo := Add(a0[i], Mul(w, a1[i])), Sub(a0[i], Mul(w, a1[i]));
      if invert {
        hi, lo := Scale(hi, 0.5), Scale(lo, 0.5);
      }
      a[i] := hi;
      a[i + h] := lo;
      w := Mul(w, wn);
      i := i + 1;
    }
  }

  /** The split loop of fftRecursive: the even entries go to a0, the odd
      ones to a1. */
  method SplitEvenOdd(a: array<Complex>) returns (a0: array<Complex>, a1: array<Complex>)
    requires a.Length % 2 == 0
    ensures fresh(a0) && fresh(a1) && a0 != a1
    ensures a0[..] == Evens(a[..]) && a1[..] == Odds(a[..])
  {
    var n, h := a.Length, a.Length / 2;
    a0 := new Complex[h];
    a1 := new Complex[h];
    var i := 0;
    while 2 * i < n
      invariant 0 <= i <= h
      invariant forall k :: 0 <= k < i ==> a0[k] == a[2 * k] && a1[k] == a[2 * k + 1]
    {
      a0[i] := a[i * 2];
      a1[i] := a[i * 2 + 1];
      i := i + 1;
    }
  }

  /** fftRecursive: splits into even and odd entries, transforms both halves
      recursively and recombines them with the butterflies, in place. */
  method FftRecursive(a: array<Complex>, invert: bool)
    requires Radix2Length(a.Length)
    modifies a
    ensures a[..] == FftSpec(old(a[..]), invert)
    decreases a.Length
  {
    var n := a.Length;
    if n <= 1 {
      return;
    }
    ghost var orig := a[..];
    var a0, a1 := SplitEvenOdd(a);
    ghost var e, o := FftSpec(Evens(orig), invert), FftSpec(Odds(orig), invert);
    FftRecursive(a0, invert);
    assert a0[..] == e;
    FftRecursive(a1, invert);
    assert a0[..] == e && a1[..] == o;

    var angle := 2.0 * Pi / n as real * (if invert then -1.0 else 1.0);
    var wn := Complex(Cos(angle), Sin(angle));
    assert angle == Angle(n, invert);
    Combine(a, a0, a1, wn, invert);
    assert forall k :: 0 <= k < n ==> a[k] == Butterfly(e, o, wn, k, invert);
  }

  /** fft: a transformed copy; the argument is left as it is. */
  method Fft(o: Ofdm, timeDomain: seq<Complex>) returns (r: seq<Complex>)
    requires Radix2Length(|timeDomain|)
    ensures r == FftSpec(timeDomain, false)
    ensures |r| == |timeDomain|
  {
    var a := new Complex[|timeDomain|](i requires 0 <= i < |timeDomain| => timeDomain[i]);
    assert a[..] == timeDomain;
    FftRecursive(a, false);
    r := a[..];
  }

  /** ifft: the inverse transform of a copy. */
  method Ifft(o: Ofdm, freqDomain: seq<Complex>) returns (r: seq<Complex>)
    requires Radix2Length(|freqDomain|)
    ensures r == FftSpec(freqDomain, true)
    ensures |r| == |freqDomain|
  {
    var a := new Complex[|freqDomain|](i requires 0 <= i < |freqDomain| => freqDomain[i]);
    assert a[..] == freqDomain;
    FftRecursive(a, true);
    r := a[..];
  }

  /** Both transforms map the all-zero block to itself. */
  lemma {:induction false} FftSpecZeros(n: nat, invert: bool)
    requires Radix2Length(n)
    ensures FftSpec(Zeros(n), invert) == Zeros(n)
    decreases n
  {
    if n > 1 {
      var z, h := Zeros(n), n / 2;
      assert Evens(z) == Zeros(h);
      assert Odds(z) == Zeros(h);
      FftSpecZeros(h, invert);
      var wn := Complex(Cos(Angle(n, invert)), Sin(Angle(n, invert)));
      ButterflyZeros(h, wn, invert);
      assert FftSpec(z, invert) == seq(n, i requires 0 <= i < n => Butterfly(Zeros(h), Zeros(h), wn, i, invert));
    }
  }

  lemma ButterflyZeros(h: nat, wn: Complex, invert: bool)
    ensures forall i :: 0 <= i < 2 * h ==> Butterfly(Zeros(h), Zeros(h), wn, i, invert) == Zero
  {
    forall i | 0 <= i < 2 * h
      ensures Butterfly(Zeros(h), Zeros(h), wn, i, invert) == Zero
    {
      MulZero(Power(wn, if i < h then i else i - h));
    }
  }

  lemma MulZero(w: Complex)
    ensures Mul(w, Zero) == Zero
  {
    assert w.re * 0.0 == 0.0;
    assert w.im * 0.0 == 0.0;
  }

  // ---------------------------------------------------------------- cyclic prefix

  /** addCP: the last CP samples, then the symbols. The output has N + CP
      entries; a block shorter than N leaves zeros at the end, and a block
      longer than N or shorter than CP is copied out of bounds. */
  function AddCp(o: Ofdm, x: seq<Complex>): (r: seq<Complex>)
    requires o.cp <= |x| <= o.n
    ensures |r| == o.n + o.cp
    ensures forall i :: 0 <= i < o.cp ==> r[i] == x[|x| - o.cp + i]
    ensures forall i :: 0 <= i < |x| ==> r[o.cp + i] == x[i]
    ensures forall i :: o.cp + |x| <= i < |r| ==> r[i] == Zero
  {
    x[|x| - o.cp..] + x + Zeros(o.n - |x|)
  }

  /** removeCP: the N samples after the first CP; a short input leaves zeros
      at the end. */
  function RemoveCp(o: Ofdm, y: seq<Complex>): (r: seq<Complex>)
    requires o.cp <= |y| && |y| - o.cp <= o.n
    ensures |r| == o.n
    ensures forall i :: 0 <= i < |y| - o.cp ==> r[i] == y[o.cp + i]
    ensures forall i :: |y| - o.cp <= i < o.n ==> r[i] == Zero
  {
    y[o.cp..] + Zeros(o.n - (|y| - o.cp))
  }

  /** Removing the prefix undoes adding it: a full block comes back as it
      was, a short one padded with zeros to N. */
  lemma RemoveAddCp(o: Ofdm, x: seq<Complex>)
    requires o.cp <= |x| <= o.n
    ensures RemoveCp(o, AddCp(o, x)) == x + Zeros(o.n - |x|)
    ensures |x| == o.n ==> RemoveCp(o, AddCp(o, x)) == x
  {
    var y := AddCp(o, x);
    assert y[o.cp..] == x + Zeros(o.n - |x|);
    assert RemoveCp(o, y) == y[o.cp..] + [];
  }

  // ---------------------------------------------------------------- segmentData

  function Concat(blocks: seq<seq<Complex>>): seq<Complex>
  {
    if blocks == [] then [] else Concat(blocks[..|blocks| - 1]) + blocks[|blocks| - 1]
  }

  function MinNat(a: nat, b: nat): nat
  {
    if a <= b then a else b
  }

  /** The number of blocks, `(size + N - 1) / N`, is the ceiling of size / N. */
  lemma CeilDiv(d: nat, n: nat)
    requires n > 0
    ensures ((d + n - 1) / n) * n >= d
    ensures (d + n - 1) / n == 0 || ((d + n - 1) / n - 1) * n < d
  {
    var q, r := (d + n - 1) / n, (d + n - 1) % n;
    assert q * n + r == d + n - 1;
    if q > 0 {
      assert (q - 1) * n == q * n - n;
    }
  }

  lemma BlockStartBelow(d: nat, n: nat, i: nat)
    requires n > 0 && i < (d + n - 1) / n
    ensures i * n < d && i * n + n == (i + 1) * n
  {
    CeilDiv(d, n);
    var q := (d + n - 1) / n;
    assert i * n <= (q - 1) * n;
  }

  /** Every block but the last ends before the data does. */
  lemma FullBlock(d: nat, n: nat, k: nat)
    requires n > 0 && k + 1 < (d + n - 1) / n
    ensures k * n + n < d
  {
    BlockStartBelow(d, n, k + 1);
    assert (k + 1) * n == k * n + n;
  }

  /** Block k of segmentData: from k·N up to (k+1)·N or the end of the data. */
  function Block(data: seq<Complex>, n: nat, k: nat): (r: seq<Complex>)
    requires n > 0 && k < (|data| + n - 1) / n
    ensures 0 < |r| <= n
  {
    BlockStartBelow(|data|, n, k);
    data[k * n..MinNat(k * n + n, |data|)]
  }

  /** Every block but the last is full. */
  lemma BlockFull(data: seq<Complex>, n: nat, k: nat)
    requires n > 0 && k + 1 < (|data| + n - 1) / n
    ensures |Block(data, n, k)| == n
  {
    FullBlock(|data|, n, k);
  }

  lemma ConcatSnoc(blocks: seq<seq<Complex>>, b: seq<Complex>)
    ensures Concat(blocks + [b]) == Concat(blocks) + b
  {
    assert (blocks + [b])[..|blocks|] == blocks;
  }

  /** Block k continues the data right where blocks 0..k-1 stop. */
  lemma BlockStep(data: seq<Complex>, n: nat, k: nat)
    requires n > 0 && k < (|data| + n - 1) / n
    ensures data[..MinNat(k * n, |data|)] + Block(data, n, k) == data[..MinNat((k + 1) * n, |data|)]
  {
    BlockStartBelow(|data|, n, k);
    var end := MinNat(k * n + n, |data|);
    assert data[..end] == data[..k * n] + data[k * n..end];
  }

  /** segmentData: consecutive blocks of N samples, the last one shorter
      when N does not divide the size. */
  method SegmentData(o: Ofdm, data: seq<Complex>) returns (segs: seq<seq<Complex>>)
    requires o.n > 0
    ensures |segs| * o.n >= |data| && (|segs| == 0 || (|segs| - 1) * o.n < |data|)
    ensures Concat(segs) == data
    ensures forall k :: 0 <= k < |segs| ==> 0 < |segs[k]| <= o.n
    ensures forall k :: 0 <= k < |segs| - 1 ==> |segs[k]| == o.n
  {
    var blockSize := o.n;
    var numSegments := (|data| + blockSize - 1) / blockSize;
    segs := [];
    var i := 0;
    while i < numSegments
      invariant 0 <= i <= numSegments
      invariant SegmentsSoFar(data, blockSize, segs, i)
    {
      BlockStartBelow(|data|, blockSize, i);
      var start := i * blockSize;
      var end := MinNat(start + blockSize, |data|);
      assert data[start..end] == Block(data, blockSize, i);
      SegmentStep(data, blockSize, segs, i);
      segs := segs + [data[start..end]];
      i := i + 1;
    }
    SegmentsDone(data, blockSize, segs);
  }

  /** The loop invariant of segmentData: the first i blocks are in place
      and together hold the data up to the end of block i - 1. */
  ghost predicate SegmentsSoFar(data: seq<Complex>, n: nat, segs: seq<seq<Complex>>, i: nat)
    requires n > 0 && i <= (|data| + n - 1) / n
  {
    && |segs| == i
    && (forall k :: 0 <= k < i ==> segs[k] == Block(data, n, k))
    && Concat(segs) == data[..MinNat(i * n, |data|)]
  }

  /** Appending block i keeps the invariant. */
  lemma SegmentStep(data: seq<Complex>, n: nat, segs: seq<seq<Complex>>, i: nat)
    requires n > 0 && i < (|data| + n - 1) / n
    requires SegmentsSoFar(data, n, segs, i)
    ensures SegmentsSoFar(data, n, segs + [Block(data, n, i)], i + 1)
  {
    BlockStep(data, n, i);
    ConcatSnoc(segs, Block(data, n, i));
  }

  /** All blocks in place: they cover the data, each holds at most N
      samples, and all but the last exactly N. */
  lemma SegmentsDone(data: seq<Complex>, n: nat, segs: seq<seq<Complex>>)
    requires n > 0 && SegmentsSoFar(data, n, segs, (|data| + n - 1) / n)
    ensures |segs| * n >= |data| && (|segs| == 0 || (|segs| - 1) * n < |data|)
    ensures Concat(segs) == data
    ensures forall k :: 0 <= k < |segs| ==> 0 < |segs[k]| <= n
    ensures forall k :: 0 <= k < |segs| - 1 ==> |segs[k]| == n
  {
    var q := (|data| + n - 1) / n;
    CeilDiv(|data|, n);
    assert data[..MinNat(q * n, |data|)] == data;
    forall k | 0 <= k < |segs| - 1
      ensures |segs[k]| == n
    {
      BlockFull(data, n, k);
    }
  }

  // ---------------------------------------------------------------- mapToSubcarriers

  /** `N / 2 - 1` in size_t: it wraps to 2^64 - 1 for N < 2, an index no
      loop reaches. */
  function DcIndex(o: Ofdm): Size
  {
    SizeSub(o.n / 2, 1)
  }

  /** The number of writes mapToSubcarriers makes. */
  function PlacedCount(n: nat, skip: bool, dc: nat): nat
  {
    if skip && dc < n then n - 1 else n
  }

  /** The symbols mapToSubcarriers places, in order: every one, or every one
      but the one at index dc when skipping. */
  function Placed(x: seq<Complex>, skip: bool, dc: nat): (r: seq<Complex>)
    ensures |r| == PlacedCount(|x|, skip, dc)
  {
    if x == [] then []
    else Placed(x[..|x| - 1], skip, dc) + (if skip && |x| - 1 == dc then [] else [x[|x| - 1]])
  }

  /** The placed symbols are the input with index dc cut out when skipping. */
  lemma {:induction false} PlacedShape(x: seq<Complex>, skip: bool, dc: nat)
    ensures Placed(x, skip, dc) == if skip && dc < |x| then x[..dc] + x[dc + 1..] else x
  {
    if x != [] {
      var p := x[..|x| - 1];
      PlacedShape(p, skip, dc);
      if skip && dc < |x| - 1 {
        assert p[..dc] == x[..dc];
        assert p[dc + 1..] + [x[|x| - 1]] == x[dc + 1..];
      } else if skip && dc == |x| - 1 {
        assert x[..dc] == p && x[dc + 1..] == [];
      } else {
        assert p + [x[|x| - 1]] == x;
      }
    }
  }

  lemma PlacedStep(x: seq<Complex>, i: nat, skip: bool, dc: nat)
    requires i < |x|
    ensures Placed(x[..i + 1], skip, dc) == Placed(x[..i], skip, dc) + (if skip && i == dc then [] else [x[i]])
  {
    assert x[..i + 1][..i] == x[..i];
  }

  /** Writing the next placed symbol over the first of the trailing zeros. */
  lemma WriteNext(p: seq<Complex>, v: Complex, m: nat)
    requires m > 0
    ensures (p + Zeros(m))[|p| := v] == (p + [v]) + Zeros(m - 1)
  {
  }

  /** The loop of mapToSubcarriers, for a DC index dc and N = n. */
  method PlaceSymbols(x: seq<Complex>, skip: bool, dc: nat, n: nat) returns (r: seq<Complex>)
    requires PlacedCount(|x|, skip, dc) <= n
    ensures r == Placed(x, skip, dc) + Zeros(n - PlacedCount(|x|, skip, dc))
  {
    r := Zeros(n);
    var idx := 0;
    var i := 0;
    assert r == Placed(x[..0], skip, dc) + Zeros(n);
    while i < |x|
      invariant 0 <= i <= |x|
      invariant idx == PlacedCount(i, skip, dc) <= n
      invariant r == Placed(x[..i], skip, dc) + Zeros(n - idx)
    {
      PlacedStep(x, i, skip, dc);
      if skip && i == dc {
        i := i + 1;
        continue;
      }
      WriteNext(Placed(x[..i], skip, dc), x[i], n - idx);
      r := r[idx := x[i]];
      idx := idx + 1;
      i := i + 1;
    }
    assert x[..|x|] == x;
  }

  /** mapToSubcarriers: N entries, the placed symbols first and zeros after
      them. More placed symbols than N would be written past the end. */
  method MapToSubcarriers(o: Ofdm, x: seq<Complex>, skip: bool) returns (r: seq<Complex>)
    requires PlacedCount(|x|, skip, DcIndex(o)) <= o.n
    ensures |r| == o.n
    ensures r == Placed(x, skip, DcIndex(o)) + Zeros(o.n - PlacedCount(|x|, skip, DcIndex(o)))
  {
    r := PlaceSymbols(x, skip, DcIndex(o), o.n);
  }

  /** Before the DC index, and everywhere when not skipping, symbols keep
      their index. */
  lemma PlacedBefore(x: seq<Complex>, skip: bool, dc: nat)
    ensures forall i :: 0 <= i < |x| && (!skip || i < dc) ==> Placed(x, skip, dc)[i] == x[i]
  {
    PlacedShape(x, skip, dc);
  }

  /** After the skipped DC index, symbols move one place down. */
  lemma PlacedAfter(x: seq<Complex>, dc: nat)
    ensures forall i :: dc < i < |x| ==> Placed(x, true, dc)[i - 1] == x[i]
  {
    PlacedShape(x, true, dc);
  }
}
