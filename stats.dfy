// The pandas column statistics the calibration aggregation uses: `mean()`
// and `var()` (sample variance, ddof = 1) of a finite column, and the same
// two over a float64 column that may hold infinities and NaN, which pandas
// skips.
module Stats {
  import opened Common

  function Sum(xs: seq<real>): real
  {
    if xs == [] then 0.0 else Sum(xs[..|xs| - 1]) + xs[|xs| - 1]
  }

  /** Series.mean(): NaN for an empty column. */
  function Mean(xs: seq<real>): (r: Ext)
    ensures r.Fin? <==> xs != []
  {
    Div(Sum(xs), |xs| as real)
  }

  function SqDev(xs: seq<real>, m: real): real
  {
    if xs == [] then 0.0
    else SqDev(xs[..|xs| - 1], m) + (xs[|xs| - 1] - m) * (xs[|xs| - 1] - m)
  }

  /** Series.var(): the sample variance with n - 1 in the divisor, NaN for
      fewer than two values. */
  function SampleVar(xs: seq<real>): (r: Ext)
    ensures r.Fin? <==> |xs| >= 2
  {
    if |xs| < 2 then NonFinite
    else Fin(SqDev(xs, Sum(xs) / |xs| as real) / (|xs| - 1) as real)
  }

  /** A float64 as NumPy and pandas carry it: a finite value, an infinity
      of either sign, or NaN. */
  datatype Float64 = Num(v: real) | Inf(positive: bool) | NaN

  /** NumPy's float64 quotient of two finite values: a non-zero value over
      zero is an infinity of the dividend's sign, and 0/0 is NaN. */
  function NpDiv(a: real, b: real): (r: Float64)
    ensures r.Num? <==> b != 0.0
    ensures r.Num? ==> r.v * b == a
    ensures r.Inf? <==> b == 0.0 && a != 0.0
    ensures r.Inf? ==> (r.positive <==> a > 0.0)
  {
    if b != 0.0 then Num(a / b)
    else if a > 0.0 then Inf(true)
    else if a < 0.0 then Inf(false)
    else NaN
  }

  /** IEEE 754 division of two float64 values. A zero divisor is taken as
      +0: the divisors here are a mean of amplitudes and a square. */
  function F64Div(a: Float64, b: Float64): (r: Float64)
    ensures r.Num? <==> a.Num? && (b.Inf? || (b.Num? && b.v != 0.0))
    ensures a.Num? && b.Num? && b.v != 0.0 ==> r.v * b.v == a.v
    ensures a.NaN? || b.NaN? || (a.Inf? && b.Inf?) ==> r.NaN?
  {
    match (a, b)
    case (Num(x), Num(y)) => NpDiv(x, y)
    case (Num(_), Inf(_)) => Num(0.0)
    case (Inf(s), Num(y)) => Inf(if y < 0.0 then !s else s)
    case _ => NaN
  }

  function F64Square(a: Float64): (r: Float64)
    ensures r.Num? <==> a.Num?
    ensures r.Num? ==> r.v == Square(a.v) && (r.v == 0.0 <==> a.v == 0.0)
    ensures a.Inf? ==> r == Inf(true)
  {
    match a
    case Num(x) => if x == 0.0 then Num(Square(x)) else SquareNonZero(x); Num(Square(x))
    case Inf(_) => Inf(true)
    case NaN => NaN
  }

  /** A column of finite values. */
  function Nums(xs: seq<real>): (r: seq<Float64>)
    ensures |r| == |xs| && forall i :: 0 <= i < |xs| ==> r[i] == Num(xs[i])
  {
    seq(|xs|, i requires 0 <= i < |xs| => Num(xs[i]))
  }

  predicate AllNum(es: seq<Float64>)
  {
    forall i :: 0 <= i < |es| ==> es[i].Num?
  }

  function NumValues(es: seq<Float64>): (r: seq<real>)
    requires AllNum(es)
    ensures |r| == |es| && forall i :: 0 <= i < |es| ==> r[i] == es[i].v
  {
    seq(|es|, i requires 0 <= i < |es| => es[i].v)
  }

  /** The entries `skipna=True` keeps: the non-NaN ones, in order. */
  function Kept(es: seq<Float64>): (r: seq<Float64>)
    ensures |r| <= |es|
  {
    if es == [] then []
    else Kept(es[..|es| - 1]) + (if es[|es| - 1].NaN? then [] else [es[|es| - 1]])
  }

  /** The kept entries are exactly the entries that are not NaN. */
  lemma {:induction false} KeptMembers(es: seq<Float64>)
    ensures forall e :: e in Kept(es) <==> e in es && !e.NaN?
  {
    if es != [] {
      KeptMembers(es[..|es| - 1]);
      assert es == es[..|es| - 1] + [es[|es| - 1]];
    }
  }

  /** Series.mean() with NaN skipped: NaN when nothing is left, an infinity
      when the kept values hold infinities of one sign only, NaN when they
      hold both, and otherwise the mean of the kept values. */
  function PdMean(es: seq<Float64>): (r: Float64)
    ensures r.Num? <==> (exists i :: 0 <= i < |es| && es[i].Num?) && Inf(true) !in es && Inf(false) !in es
    ensures r == Inf(true) <==> Inf(true) in es && Inf(false) !in es
    ensures r == Inf(false) <==> Inf(false) in es && Inf(true) !in es
  {
    var ks := Kept(es);
    KeptMembers(es);
    if ks == [] then
      assert forall i :: 0 <= i < |es| ==> es[i] !in ks;
      NaN
    else if Inf(true) in ks && Inf(false) in ks then NaN
    else if Inf(true) in ks then Inf(true)
    else if Inf(false) in ks then Inf(false)
    else
      assert forall i :: 0 <= i < |ks| ==> ks[i] in ks && ks[i] != Inf(true) && ks[i] != Inf(false) && !ks[i].NaN?;
      assert ks[0] in es;
      Num(Mean(NumValues(ks)).v)
  }

  /** Series.var() (ddof = 1) with NaN skipped: NaN with fewer than two
      kept values or with an infinity among them, and otherwise the sample
      variance of the kept values. */
  function PdVar(es: seq<Float64>): (r: Float64)
    ensures r.Num? <==> |Kept(es)| >= 2 && Inf(true) !in es && Inf(false) !in es
    ensures r.Inf? == false
  {
    var ks := Kept(es);
    KeptMembers(es);
    if |ks| < 2 || Inf(true) in ks || Inf(false) in ks then NaN
    else
      assert forall i :: 0 <= i < |ks| ==> ks[i] in ks && ks[i] != Inf(true) && ks[i] != Inf(false) && !ks[i].NaN?;
      Num(SampleVar(NumValues(ks)).v)
  }

  // ---------------------------------------------------------------- properties

  lemma {:induction false} SumBounds(xs: seq<real>, lo: real, hi: real)
    requires forall i :: 0 <= i < |xs| ==> lo <= xs[i] <= hi
    ensures lo * |xs| as real <= Sum(xs) <= hi * |xs| as real
  {
    if xs != [] {
      var k := (|xs| - 1) as real;
      SumBounds(xs[..|xs| - 1], lo, hi);
      assert lo * (k + 1.0) == lo * k + lo && hi * (k + 1.0) == hi * k + hi;
    }
  }

  /** The mean lies between any bounds of the values. */
  lemma MeanBetween(xs: seq<real>, lo: real, hi: real)
    requires xs != []
    requires forall i :: 0 <= i < |xs| ==> lo <= xs[i] <= hi
    ensures lo <= Mean(xs).v <= hi
  {
    SumBounds(xs, lo, hi);
    var n := |xs| as real;
    assert Mean(xs).v * n == Sum(xs);
  }

  lemma {:induction false} SqDevNonNeg(xs: seq<real>, m: real)
    ensures SqDev(xs, m) >= 0.0
  {
    if xs != [] {
      SqDevNonNeg(xs[..|xs| - 1], m);
      var d := xs[|xs| - 1] - m;
      assert d * d >= 0.0;
    }
  }

  /** The sample variance is never negative. */
  lemma SampleVarNonNeg(xs: seq<real>)
    requires |xs| >= 2
    ensures SampleVar(xs).v >= 0.0
  {
    SqDevNonNeg(xs, Sum(xs) / |xs| as real);
  }

  lemma {:induction false} SqDevConstant(xs: seq<real>, c: real)
    requires forall i :: 0 <= i < |xs| ==> xs[i] == c
    ensures SqDev(xs, c) == 0.0
  {
    if xs != [] {
      SqDevConstant(xs[..|xs| - 1], c);
    }
  }

  /** A constant column has that constant as its mean and zero variance. */
  lemma ConstantColumn(xs: seq<real>, c: real)
    requires |xs| >= 2
    requires forall i :: 0 <= i < |xs| ==> xs[i] == c
    ensures Mean(xs) == Fin(c)
    ensures SampleVar(xs) == Fin(0.0)
  {
    SumBounds(xs, c, c);
    var n := |xs| as real;
    assert Sum(xs) == c * n;
    assert Sum(xs) / n == c;
    SqDevConstant(xs, c);
  }

  // ---------------------------------------------------------------- NaN skipping

  lemma {:induction false} KeptNoNaN(es: seq<Float64>)
    requires forall i :: 0 <= i < |es| ==> !es[i].NaN?
    ensures Kept(es) == es
  {
    if es != [] {
      KeptNoNaN(es[..|es| - 1]);
      assert es[..|es| - 1] + [es[|es| - 1]] == es;
    }
  }

  /** Skipping NaN works entry by entry. */
  lemma {:induction false} KeptConcat(a: seq<Float64>, b: seq<Float64>)
    ensures Kept(a + b) == Kept(a) + Kept(b)
  {
    if b == [] {
      assert a + b == a;
    } else {
      var ab := a + b;
      var init := b[..|b| - 1];
      var last := if b[|b| - 1].NaN? then [] else [b[|b| - 1]];
      assert ab[..|ab| - 1] == a + init;
      assert ab[|ab| - 1] == b[|b| - 1];
      assert Kept(ab) == Kept(a + init) + last;
      assert Kept(b) == Kept(init) + last;
      KeptConcat(a, init);
      assert Kept(ab) == (Kept(a) + Kept(init)) + last;
    }
  }

  /** Both statistics see only the kept entries: dropping the NaN first
      changes neither. */
  lemma PdSkipsNaN(es: seq<Float64>)
    ensures PdMean(Kept(es)) == PdMean(es)
    ensures PdVar(Kept(es)) == PdVar(es)
  {
    var ks := Kept(es);
    KeptMembers(es);
    forall i | 0 <= i < |ks| ensures !ks[i].NaN? {
      assert ks[i] in ks;
    }
    KeptNoNaN(ks);
  }

  /** A NaN entry anywhere changes neither statistic. */
  lemma NaNDropped(a: seq<Float64>, b: seq<Float64>)
    ensures PdMean(a + [NaN] + b) == PdMean(a + b)
    ensures PdVar(a + [NaN] + b) == PdVar(a + b)
  {
    KeptDropsNaN(a, b);
    SameKept(a + [NaN] + b, a + b);
  }

  lemma KeptDropsNaN(a: seq<Float64>, b: seq<Float64>)
    ensures Kept(a + [NaN] + b) == Kept(a + b)
  {
    var an := a + [NaN];
    assert [NaN][..0] == [];
    var kn := Kept([NaN]);
    assert kn == [];
    KeptConcat(a, [NaN]);
    var ka := Kept(an);
    assert ka == Kept(a) + kn;
    assert ka == Kept(a);
    KeptConcat(an, b);
    KeptConcat(a, b);
  }

  /** The statistics depend on the kept entries only. */
  lemma SameKept(x: seq<Float64>, y: seq<Float64>)
    requires Kept(x) == Kept(y)
    ensures PdMean(x) == PdMean(y) && PdVar(x) == PdVar(y)
  {
  }

  /** A finite mean lies within any bounds of the finite entries. */
  lemma PdMeanBetween(es: seq<Float64>, lo: real, hi: real)
    requires forall i :: 0 <= i < |es| && es[i].Num? ==> lo <= es[i].v <= hi
    requires PdMean(es).Num?
    ensures lo <= PdMean(es).v <= hi
  {
    var ks := Kept(es);
    KeptMembers(es);
    forall i | 0 <= i < |ks| ensures ks[i].Num? && lo <= ks[i].v <= hi {
      assert ks[i] in ks && ks[i] in es;
      assert ks[i] != Inf(true) && ks[i] != Inf(false);
      var j :| 0 <= j < |es| && es[j] == ks[i];
    }
    MeanBetween(NumValues(ks), lo, hi);
  }

  /** A finite variance is never negative. */
  lemma PdVarNonNeg(es: seq<Float64>)
    requires PdVar(es).Num?
    ensures PdVar(es).v >= 0.0
  {
    var ks := Kept(es);
    KeptMembers(es);
    assert forall i :: 0 <= i < |ks| ==> ks[i] in ks && ks[i] != Inf(true) && ks[i] != Inf(false) && !ks[i].NaN?;
    SampleVarNonNeg(NumValues(ks));
  }

  /** The variance over the squared mean, as the ratio statistics use it:
      finite exactly when the mean is finite and not zero and at least two
      entries are kept, and then not negative. */
  lemma NormalisedVar(es: seq<Float64>)
    ensures var q := F64Div(PdVar(es), F64Square(PdMean(es)));
            && (q.Num? <==> PdMean(es).Num? && PdMean(es).v != 0.0 && |Kept(es)| >= 2)
            && (q.Num? ==> q.v >= 0.0)
  {
    if PdVar(es).Num? {
      VarNumMeanNum(es);
      PdVarNonNeg(es);
    }
    NormalisedQuotient(PdVar(es), PdMean(es));
  }

  lemma VarNumMeanNum(es: seq<Float64>)
    requires PdVar(es).Num?
    ensures PdMean(es).Num?
  {
    var ks := Kept(es);
    KeptMembers(es);
    assert ks[0] in ks && ks[0] in es && ks[0] != Inf(true) && ks[0] != Inf(false);
    var j :| 0 <= j < |es| && es[j] == ks[0];
    assert es[j].Num?;
  }

  lemma NormalisedQuotient(v: Float64, m: Float64)
    requires !v.Inf? && (v.Num? ==> m.Num? && v.v >= 0.0)
    ensures F64Div(v, F64Square(m)).Num? <==> v.Num? && m.v != 0.0
    ensures F64Div(v, F64Square(m)).Num? ==> F64Div(v, F64Square(m)).v >= 0.0
  {
    if v.Num? && m.v != 0.0 {
      DivNonNeg(v.v, F64Square(m).v);
    }
  }

  /** On a column of finite values the two agree with `Mean` and
      `SampleVar`. */
  lemma FiniteColumn(xs: seq<real>)
    ensures PdMean(Nums(xs)) == (if xs == [] then NaN else Num(Mean(xs).v))
    ensures PdVar(Nums(xs)) == (if |xs| < 2 then NaN else Num(SampleVar(xs).v))
  {
    KeptNoNaN(Nums(xs));
    assert NumValues(Nums(xs)) == xs;
    assert forall i :: 0 <= i < |xs| ==> Nums(xs)[i] != Inf(true) && Nums(xs)[i] != Inf(false);
  }

  /** The entries 0/0, c/1 and c/1 (as 0/0, 4/2 and 2/1 for c = 2): the
      NaN is skipped, so the mean is c and the variance 0. */
  lemma NaNSkipped(c: real)
    ensures PdMean([NaN, Num(c), Num(c)]) == Num(c)
    ensures PdVar([NaN, Num(c), Num(c)]) == Num(0.0)
  {
    NaNDropped([], [Num(c), Num(c)]);
    assert [] + [NaN] + [Num(c), Num(c)] == [NaN, Num(c), Num(c)];
    assert [] + [Num(c), Num(c)] == Nums([c, c]);
    FiniteColumn([c, c]);
    ConstantColumn([c, c], c);
  }
}
