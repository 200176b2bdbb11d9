/** NaN-aware reductions along the ensemble axis, as NumPy defines them:
    missing values are replaced by zero for the sum and left out of the
    count, and a count of zero makes the result missing. Sums are over the
    extended reals, so an infinite element makes them infinite. */
module Stats {
  import opened Floats

  /** The number of elements that are not missing. */
  function CountValid(xs: seq<Float>): (n: nat)
    ensures n <= |xs|
    ensures n == 0 <==> forall i :: 0 <= i < |xs| ==> xs[i].NaN?
  {
    if xs == [] then 0
    else (if xs[0].NaN? then 0 else 1) + CountValid(xs[1..])
  }

  /** The number of finite elements. */
  function CountFinite(xs: seq<Float>): (n: nat)
    ensures n <= CountValid(xs)
    ensures n == 0 <==> forall i :: 0 <= i < |xs| ==> !xs[i].Finite?
  {
    if xs == [] then 0
    else (if xs[0].Finite? then 1 else 0) + CountFinite(xs[1..])
  }

  /** `np.nanmin`: the least element that is not missing, infinities
      included; NaN when every element is missing. */
  function NanMin(xs: seq<Float>): (r: Float)
    ensures r.NaN? <==> CountValid(xs) == 0
    ensures forall i :: 0 <= i < |xs| && !xs[i].NaN? ==> !Less(xs[i], r)
    ensures !r.NaN? ==> exists i :: 0 <= i < |xs| && xs[i] == r
  {
    if xs == [] then NaN
    else
      var m := NanMin(xs[1..]);
      assert forall i :: 1 <= i < |xs| ==> xs[1..][i - 1] == xs[i];
      if xs[0].NaN? then m
      else if m.NaN? || Less(xs[0], m) then xs[0]
      else m
  }

  /** `np.nanmax`: the greatest element that is not missing, infinities
      included; NaN when every element is missing. */
  function NanMax(xs: seq<Float>): (r: Float)
    ensures r.NaN? <==> CountValid(xs) == 0
    ensures forall i :: 0 <= i < |xs| && !xs[i].NaN? ==> !Less(r, xs[i])
    ensures !r.NaN? ==> exists i :: 0 <= i < |xs| && xs[i] == r
  {
    if xs == [] then NaN
    else
      var m := NanMax(xs[1..]);
      assert forall i :: 1 <= i < |xs| ==> xs[1..][i - 1] == xs[i];
      if xs[0].NaN? then m
      else if m.NaN? || Less(m, xs[0]) then xs[0]
      else m
  }

  /** The minimum never exceeds the maximum. */
  lemma NanMinAtMostNanMax(xs: seq<Float>)
    ensures NanMin(xs).NaN? <==> NanMax(xs).NaN?
    ensures !Less(NanMax(xs), NanMin(xs))
  {
    var lo := NanMin(xs);
    if !lo.NaN? {
      var i :| 0 <= i < |xs| && xs[i] == lo;
    }
  }

  /** The sum of all elements. */
  function Sum(xs: seq<Float>): Float {
    if xs == [] then Finite(0.0) else Add(xs[0], Sum(xs[1..]))
  }

  /** Missing values replaced by zero. */
  function ReplaceNaN(xs: seq<Float>): (ys: seq<Float>)
    ensures |ys| == |xs|
    ensures forall i :: 0 <= i < |xs| ==> ys[i] == if xs[i].NaN? then Finite(0.0) else xs[i]
  {
    seq(|xs|, i requires 0 <= i < |xs| => if xs[i].NaN? then Finite(0.0) else xs[i])
  }

  /** `nansum`. */
  function NanSum(xs: seq<Float>): Float {
    Sum(ReplaceNaN(xs))
  }

  /** `nanmean`: the sum of the valid elements over their number. */
  function NanMean(xs: seq<Float>): (r: Float)
    ensures CountValid(xs) == 0 ==> r.NaN?
  {
    var n := CountValid(xs);
    if n == 0 then NaN else Div(NanSum(xs), Finite(n as real))
  }

  /** The squared deviations from `m`; missing elements contribute zero. */
  function Deviations(xs: seq<Float>, m: Float): (ds: seq<Float>)
    ensures |ds| == |xs|
    ensures forall i :: 0 <= i < |xs| ==> ds[i] == if xs[i].NaN? then Finite(0.0) else Square(Sub(xs[i], m))
  {
    seq(|xs|, i requires 0 <= i < |xs| => if xs[i].NaN? then Finite(0.0) else Square(Sub(xs[i], m)))
  }

  /** `nanvar` with no degrees-of-freedom correction. */
  function NanVar(xs: seq<Float>): (r: Float)
    ensures CountValid(xs) == 0 ==> r.NaN?
  {
    var n := CountValid(xs);
    if n == 0 then NaN else Div(Sum(Deviations(xs, NanMean(xs))), Finite(n as real))
  }

  /** `nanstd`, with the square root given. */
  function NanStd(sqrt: Float -> Float, xs: seq<Float>): Float {
    sqrt(NanVar(xs))
  }

  /** What the model needs of a square root: it keeps a missing value
      missing and infinity infinite, and maps a non-negative number to a
      non-negative number. */
  ghost predicate SqrtLike(sqrt: Float -> Float) {
    && sqrt(NaN) == NaN
    && sqrt(PosInf) == PosInf
    && forall r: real :: r >= 0.0 ==> sqrt(Finite(r)).Finite? && sqrt(Finite(r)).value >= 0.0
  }

  // Reference definitions over the reals.

  predicate AllFinite(xs: seq<Float>) {
    forall i :: 0 <= i < |xs| ==> xs[i].Finite?
  }

  function ValuesOf(xs: seq<Float>): (rs: seq<real>)
    requires AllFinite(xs)
    ensures |rs| == |xs| && forall i :: 0 <= i < |xs| ==> rs[i] == xs[i].value
  {
    seq(|xs|, i requires 0 <= i < |xs| => xs[i].value)
  }

  function RealSum(rs: seq<real>): real {
    if rs == [] then 0.0 else rs[0] + RealSum(rs[1..])
  }

  function Mean(rs: seq<real>): real
    requires rs != []
  {
    RealSum(rs) / (|rs| as real)
  }

  function SquaredDeviations(rs: seq<real>, m: real): (ds: seq<real>)
    ensures |ds| == |rs| && forall i :: 0 <= i < |rs| ==> ds[i] == (rs[i] - m) * (rs[i] - m)
  {
    seq(|rs|, i requires 0 <= i < |rs| => (rs[i] - m) * (rs[i] - m))
  }

  /** The population variance. */
  function Variance(rs: seq<real>): real
    requires rs != []
  {
    Mean(SquaredDeviations(rs, Mean(rs)))
  }

  /** Elements that are finite or missing. */
  predicate FiniteOrMissing(xs: seq<Float>) {
    forall i :: 0 <= i < |xs| ==> xs[i].Finite? || xs[i].NaN?
  }

  /** Elements that are missing, non-negative or positive infinity. */
  predicate NonNegativeOrMissing(xs: seq<Float>) {
    forall i :: 0 <= i < |xs| ==> xs[i].NaN? || xs[i].PosInf? || (xs[i].Finite? && xs[i].value >= 0.0)
  }

  /** Of finite elements, the sum is their real sum. */
  lemma {:induction false} SumOfFinite(xs: seq<Float>)
    requires AllFinite(xs)
    ensures Sum(xs) == Finite(RealSum(ValuesOf(xs)))
  {
    if xs != [] {
      SumOfFinite(xs[1..]);
      assert ValuesOf(xs[1..]) == ValuesOf(xs)[1..];
    }
  }

  /** A sum of non-negative or infinite elements is non-negative or infinite. */
  lemma {:induction false} SumOfNonNegative(xs: seq<Float>)
    requires forall i :: 0 <= i < |xs| ==> xs[i].PosInf? || (xs[i].Finite? && xs[i].value >= 0.0)
    ensures Sum(xs).PosInf? || (Sum(xs).Finite? && Sum(xs).value >= 0.0)
  {
    if xs != [] {
      SumOfNonNegative(xs[1..]);
    }
  }

  /** The valid elements are the same after squaring each element. */
  lemma {:induction false} SquaringKeepsValidCount(xs: seq<Float>)
    ensures CountValid(seq(|xs|, i requires 0 <= i < |xs| => Square(xs[i]))) == CountValid(xs)
    ensures CountFinite(seq(|xs|, i requires 0 <= i < |xs| => Square(xs[i]))) == CountFinite(xs)
  {
    if xs != [] {
      SquaringKeepsValidCount(xs[1..]);
      assert seq(|xs|, i requires 0 <= i < |xs| => Square(xs[i]))[1..]
             == seq(|xs[1..]|, i requires 0 <= i < |xs[1..]| => Square(xs[1..][i]));
    }
  }

  /** Without missing elements, the count of valid elements is the length. */
  lemma {:induction false} CountWithoutMissing(xs: seq<Float>)
    requires AllFinite(xs)
    ensures CountValid(xs) == |xs|
  {
    if xs != [] {
      CountWithoutMissing(xs[1..]);
    }
  }

  /** The mean of valid elements that are non-negative or infinite is
      non-negative or infinite, and is missing only when nothing is valid. */
  lemma NanMeanOfNonNegative(xs: seq<Float>)
    requires NonNegativeOrMissing(xs) && CountValid(xs) > 0
    ensures NanMean(xs).PosInf? || (NanMean(xs).Finite? && NanMean(xs).value >= 0.0)
  {
    var ys := ReplaceNaN(xs);
    assert forall i :: 0 <= i < |ys| ==> ys[i].PosInf? || (ys[i].Finite? && ys[i].value >= 0.0);
    SumOfNonNegative(ys);
    var s := NanSum(xs);
    assert s == Sum(ys);
    var n := CountValid(xs) as real;
    assert n > 0.0;
    assert NanMean(xs) == Div(s, Finite(n));
    DivByPositive(s, n);
  }

  /** A non-negative or infinite value over a positive count stays so. */
  lemma DivByPositive(s: Float, n: real)
    requires s.PosInf? || (s.Finite? && s.value >= 0.0)
    requires n > 0.0
    ensures Div(s, Finite(n)).PosInf? || (Div(s, Finite(n)).Finite? && Div(s, Finite(n)).value >= 0.0)
  {
    if s.Finite? {
      assert s.value / n >= 0.0;
    }
  }

  /** Without missing elements, `nanmean` is the mean. */
  lemma NanMeanOfFinite(xs: seq<Float>)
    requires AllFinite(xs) && xs != []
    ensures NanMean(xs) == Finite(Mean(ValuesOf(xs)))
  {
    assert ReplaceNaN(xs) == xs;
    SumOfFinite(xs);
    CountWithoutMissing(xs);
  }

  /** Of finite or missing elements, the variance is missing exactly when no
      element is valid, and is otherwise a finite non-negative number. */
  lemma NanVarOfFiniteOrMissing(xs: seq<Float>)
    requires FiniteOrMissing(xs)
    ensures NanVar(xs).NaN? <==> CountValid(xs) == 0
    ensures !NanVar(xs).NaN? ==> NanVar(xs).Finite? && NanVar(xs).value >= 0.0
  {
    var n := CountValid(xs);
    if n > 0 {
      var r := ReplaceNaN(xs);
      SumOfFinite(r);
      var m := NanMean(xs);
      assert m.Finite?;
      var ds := Deviations(xs, m);
      forall i | 0 <= i < |ds|
        ensures ds[i].Finite? && ds[i].value >= 0.0
      {
        if !xs[i].NaN? {
          assert Sub(xs[i], m).Finite?;
        }
      }
      SumOfNonNegative(ds);
      SumOfFinite(ds);
      var s := Sum(ds);
      assert s.value / (n as real) >= 0.0;
    }
  }

  /** Without missing elements, `nanvar` is the population variance. */
  lemma NanVarOfFinite(xs: seq<Float>)
    requires AllFinite(xs) && xs != []
    ensures NanVar(xs) == Finite(Variance(ValuesOf(xs)))
  {
    NanMeanOfFinite(xs);
    CountWithoutMissing(xs);
    var rs := ValuesOf(xs);
    var m := Mean(rs);
    var ds := Deviations(xs, Finite(m));
    DeviationsOfFinite(xs, m);
    SumOfFinite(ds);
    assert Sum(ds) == Finite(RealSum(SquaredDeviations(rs, m)));
  }

  /** Without missing elements, the deviations are the real squared deviations. */
  lemma DeviationsOfFinite(xs: seq<Float>, m: real)
    requires AllFinite(xs)
    ensures AllFinite(Deviations(xs, Finite(m)))
    ensures ValuesOf(Deviations(xs, Finite(m))) == SquaredDeviations(ValuesOf(xs), m)
  {
    var ds := Deviations(xs, Finite(m));
    forall i | 0 <= i < |xs|
      ensures ds[i] == Finite((xs[i].value - m) * (xs[i].value - m))
    {
      assert Sub(xs[i], Finite(m)) == Finite(xs[i].value - m);
    }
    assert AllFinite(ds);
    var ws := ValuesOf(ds);
    var sd := SquaredDeviations(ValuesOf(xs), m);
    assert forall i :: 0 <= i < |xs| ==> ws[i] == sd[i];
  }
}
