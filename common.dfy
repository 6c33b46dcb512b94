// Shared vocabulary of the model: optional values, non-finite float results,
// complex samples, C++ size_t arithmetic and the transcendental functions the
// signal code calls (left uninterpreted).
module Common {

  datatype Option<T> = None | Some(value: T)

  /** A `float`/`double` quotient as C++ and NumPy produce it: a division by
      zero yields inf or NaN instead of raising, which the model keeps apart. */
  datatype Ext = Fin(v: real) | NonFinite

  function Div(a: real, b: real): (r: Ext)
    ensures r.Fin? <==> b != 0.0
    ensures r.Fin? ==> r.v * b == a
  {
    if b == 0.0 then NonFinite else Fin(a / b)
  }

  /** How a C++ call ends: it returns, `LOG_ERROR` terminates the process
      (the logger calls `std::exit`), or an exception escapes. */
  datatype Outcome<T> = Ok(value: T) | Exit | Throw

  datatype Status = Returned | Exited | Threw

  type NonNeg = x: real | 0.0 <= x

  /** The square of a real; std::norm of a real. */
  function Square(x: real): NonNeg
  {
    SquareNonNeg(x);
    x * x
  }

  // Real arithmetic the solver does not find unaided. Squares are compared
  // through products of distinct terms, which it handles.

  lemma SquareNonNeg(a: real)
    ensures a * a >= 0.0
  {
    if a < 0.0 {
      assert a * a == (-a) * (-a);
    }
  }

  lemma SquareMono(s: real, e: real)
    requires 0.0 <= s < e
    ensures Square(s) < Square(e)
  {
    var x := s * s;
    var y := e * s;
    var z := e * e;
    assert x <= y by { assert e * s - s * s == (e - s) * s; }
    assert y < z by { assert e * e - e * s == e * (e - s); }
  }

  lemma SquareNonZero(a: real)
    requires a != 0.0
    ensures Square(a) != 0.0
  {
    if a > 0.0 {
      SquareMono(0.0, a);
    } else {
      SquareMono(0.0, -a);
      assert Square(a) == Square(-a);
    }
  }

  lemma DivNonNeg(a: real, b: real)
    requires a >= 0.0 && b >= 0.0 && b != 0.0
    ensures a / b >= 0.0 && (a / b) * b == a
  {
  }

  /** std::complex<float>, with the float rounding left out. */
  datatype Complex = Complex(re: real, im: real)

  const Zero: Complex := Complex(0.0, 0.0)

  /** std::norm: the squared magnitude. */
  function Norm(c: Complex): NonNeg
  {
    c.re * c.re + c.im * c.im
  }

  function Scale(c: Complex, s: real): Complex
  {
    Complex(s * c.re, s * c.im)
  }

  function Mul(a: Complex, b: Complex): Complex
  {
    Complex(a.re * b.re - a.im * b.im, a.re * b.im + a.im * b.re)
  }

  function Add(a: Complex, b: Complex): Complex
  {
    Complex(a.re + b.re, a.im + b.im)
  }

  function Sub(a: Complex, b: Complex): Complex
  {
    Complex(a.re - b.re, a.im - b.im)
  }

  // Transcendental functions: uninterpreted. Only their types are known, so a
  // property that needs more (monotone sqrt, say) is a lemma hypothesis.
  const Sqrt: NonNeg -> NonNeg
  const Log10: real -> real
  const Pow10: real -> real
  const Cos: real -> real
  const Sin: real -> real
  /** std::arg of a complex sample, in [-pi, pi]. */
  const Arg: Complex -> real
  /** M_PI. */
  const Pi: real

  /** std::abs of a complex sample. */
  function Mag(c: Complex): NonNeg
  {
    Sqrt(Norm(c))
  }

  lemma MagZero()
    requires Sqrt(0.0) == 0.0
    ensures Mag(Zero) == 0.0
  {
    assert Norm(Zero) == 0.0;
  }

  /** std::polar(r, theta). */
  function Polar(r: real, theta: real): Complex
  {
    Complex(r * Cos(theta), r * Sin(theta))
  }

  /** toDecibel: 10·log10 for a power ratio, 20·log10 for an amplitude ratio. */
  function ToDecibel(value: real, isPower: bool): real
  {
    (if isPower then 10.0 else 20.0) * Log10(value)
  }

  /** fromDecibel: 10^(dB/10) for a power ratio, 10^(dB/20) for an amplitude ratio. */
  function FromDecibel(db: real, isPower: bool): real
  {
    Pow10(db / (if isPower then 10.0 else 20.0))
  }

  function Floor(x: real): int
  {
    x.Floor
  }

  /** std::ceil. */
  function Ceil(x: real): (r: int)
    ensures x <= r as real < x + 1.0
  {
    -((-x).Floor)
  }

  function MinReal(a: real, b: real): real
  {
    if a <= b then a else b
  }

  function MaxReal(a: real, b: real): real
  {
    if a >= b then a else b
  }

  function Zeros(n: nat): (r: seq<Complex>)
    ensures |r| == n && forall i :: 0 <= i < n ==> r[i] == Zero
  {
    seq(n, _ => Zero)
  }

  function ScaleAll(s: seq<Complex>, k: real): (r: seq<Complex>)
    ensures |r| == |s| && forall i :: 0 <= i < |s| ==> r[i] == Scale(s[i], k)
  {
    seq(|s|, i requires 0 <= i < |s| => Scale(s[i], k))
  }

  // size_t arithmetic (64 bits).
  const SizeModulus: nat := 0x1_0000_0000_0000_0000

  type Size = n: nat | n < SizeModulus

  /** size_t subtraction: wraps around below zero. */
  function SizeSub(a: Size, b: Size): (r: Size)
    ensures a >= b ==> r == a - b
    ensures a < b ==> r == a - b + SizeModulus
  {
    if a >= b then a - b else a - b + SizeModulus
  }

  /** size_t addition: wraps around at 2^64. */
  function SizeAdd(a: Size, b: Size): (r: Size)
    ensures a + b < SizeModulus ==> r == a + b
    ensures a + b >= SizeModulus ==> r == a + b - SizeModulus
  {
    (a + b) % SizeModulus
  }

  /** Reduction of an index below twice a ring's capacity. */
  function Wrap(x: nat, cap: nat): (r: nat)
    requires 0 < cap && x < 2 * cap
    ensures r < cap
  {
    if x < cap then x else x - cap
  }

  /** For indices below twice the capacity, `%` is `Wrap`. */
  lemma ModWrap(x: nat, cap: nat)
    requires 0 < cap && x < 2 * cap
    ensures x % cap == Wrap(x, cap)
  {
    if x >= cap {
      assert (x - cap) % cap == x - cap;
    }
  }

  /** One more step of a size_t counter. */
  lemma SizeSucc(x: nat)
    ensures ((x % SizeModulus) + 1) % SizeModulus == (x + 1) % SizeModulus
  {
  }

  // Fixed-length windows (a deque with pop_front then push_back).

  /** pop_front followed by push_back. */
  function Shift<T>(d: seq<T>, x: T): (r: seq<T>)
    requires |d| > 0
    ensures |r| == |d| && r[|r| - 1] == x
  {
    d[1..] + [x]
  }

  /** `Shift` with each of xs[lo..hi] in turn. */
  function ShiftRange<T>(d: seq<T>, xs: seq<T>, lo: nat, hi: nat): (r: seq<T>)
    requires |d| > 0 && lo <= hi <= |xs|
    ensures |r| == |d|
    decreases hi
  {
    if hi == lo then d else Shift(ShiftRange(d, xs, lo, hi - 1), xs[hi - 1])
  }

  /** After the shifts the window holds the last |d| entries of
      `d + xs[lo..hi]`. */
  lemma {:induction false} ShiftRangeWindow<T>(d: seq<T>, xs: seq<T>, lo: nat, hi: nat)
    requires |d| > 0 && lo <= hi <= |xs|
    ensures ShiftRange(d, xs, lo, hi) == (d + xs[lo..hi])[hi - lo..]
    decreases hi
  {
    if hi > lo {
      ShiftRangeWindow(d, xs, lo, hi - 1);
      var w := d + xs[lo..hi - 1];
      assert d + xs[lo..hi] == w + [xs[hi - 1]];
      assert w[hi - 1 - lo..][1..] == w[hi - lo..];
    }
  }

  /** Shifting in xs[lo..mid] and then xs[mid..hi] shifts in xs[lo..hi]. */
  lemma {:induction false} ShiftRangeAppend<T>(d: seq<T>, xs: seq<T>, lo: nat, mid: nat, hi: nat)
    requires |d| > 0 && lo <= mid <= hi <= |xs|
    ensures ShiftRange(ShiftRange(d, xs, lo, mid), xs, mid, hi) == ShiftRange(d, xs, lo, hi)
    decreases hi
  {
    if hi > mid {
      ShiftRangeAppend(d, xs, lo, mid, hi - 1);
    }
  }
}
