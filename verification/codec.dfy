/** Decoding and encoding of data according to the CF conventions: stored
    values become physical values through a fill value, a valid range, a scale
    factor and an add-offset, and physical values are turned back into stored
    ones. Both directions work element by element on a flattened block. */
module Codec {
  import opened Wrappers
  import opened Floats
  import opened Values
  import Algorithm

  /** The five optional CF attributes; `None` stands for an absent attribute. */
  datatype Params = Params(
    addOffset: Option<real>,
    scaleFactor: Option<real>,
    fillValue: Option<real>,
    validMin: Option<real>,
    validMax: Option<real>)

  predicate NoParams(p: Params) {
    p.addOffset.None? && p.scaleFactor.None? && p.fillValue.None?
    && p.validMin.None? && p.validMax.None?
  }

  const AddOffsetKey: string := "add_offset"
  const ScaleFactorKey: string := "scale_factor"
  const FillValueKey: string := "_FillValue"
  const ValidMinKey: string := "valid_min"
  const ValidMaxKey: string := "valid_max"
  const Keys: set<string> := {AddOffsetKey, ScaleFactorKey, FillValueKey, ValidMinKey, ValidMaxKey}

  /** The codec attributes of a variable are numbers (or `None`) when present. */
  predicate NumericCodecAttrs(a: Attrs) {
    forall k :: k in Keys && k in a ==> IsNumber(a[k]) || a[k].Null?
  }

  /** `a.get(key, None)` read as a number. */
  function NumberAttr(a: Attrs, key: string): (r: Option<real>)
    requires key in a ==> IsNumber(a[key]) || a[key].Null?
    ensures r.Some? <==> key in a && !a[key].Null?
    ensures r.Some? ==> r.value == NumberOf(a[key])
  {
    if key in a && !a[key].Null? then Some(NumberOf(a[key])) else None
  }

  /** The keyword arguments the `decode` and `encode` helpers pass on. */
  function ParamsOf(a: Attrs): (p: Params)
    requires NumericCodecAttrs(a)
    ensures p.addOffset == NumberAttr(a, "add_offset")
    ensures p.scaleFactor == NumberAttr(a, "scale_factor")
    ensures p.fillValue == NumberAttr(a, "_FillValue")
    ensures p.validMin == NumberAttr(a, "valid_min")
    ensures p.validMax == NumberAttr(a, "valid_max")
    ensures (forall k :: k in Keys ==> k !in a) ==> NoParams(p)
  {
    Params(NumberAttr(a, AddOffsetKey), NumberAttr(a, ScaleFactorKey), NumberAttr(a, FillValueKey),
           NumberAttr(a, ValidMinKey), NumberAttr(a, ValidMaxKey))
  }

  /** The result type of `decode`: single precision stays single, anything
      else becomes double. */
  function DecodedType(t: Algorithm.DType): (r: Algorithm.DType)
    ensures r == Algorithm.Float32 <==> t == Algorithm.Float32
    ensures r == Algorithm.Float32 || r == Algorithm.Float64
  {
    if t == Algorithm.Float32 then Algorithm.Float32 else Algorithm.Float64
  }

  /** A stored value is missing when it equals the fill value or lies outside
      the valid range; the comparisons see the stored, unscaled value. */
  predicate Masked(p: Params, x: Float) {
    || (p.fillValue.Some? && Equal(x, Finite(p.fillValue.value)))
    || (p.validMin.Some? && Less(x, Finite(p.validMin.value)))
    || (p.validMax.Some? && Less(Finite(p.validMax.value), x))
  }

  /** `Decode.decode` on one element. */
  function DecodeValue(p: Params, x: Float): (y: Float)
    ensures NoParams(p) ==> y == x
    ensures !NoParams(p) && Masked(p, x) ==> y.NaN?
    ensures x.NaN? ==> y.NaN?
    ensures x.Finite? && !Masked(p, x) ==>
              y == Finite(x.value * p.scaleFactor.GetOr(1.0) + p.addOffset.GetOr(0.0))
  {
    if NoParams(p) then x
    else
      var y0 := if Masked(p, x) then NaN else x;
      var y1 := if p.scaleFactor.Some? then Mul(y0, Finite(p.scaleFactor.value)) else y0;
      if p.addOffset.Some? then Add(y1, Finite(p.addOffset.value)) else y1
  }

  /** The stored value of a physical value `r`: the offset removed, then
      divided by the scale factor. */
  function Unscaled(p: Params, r: real): real
    requires p.scaleFactor.GetOr(1.0) != 0.0
  {
    (r - p.addOffset.GetOr(0.0)) / p.scaleFactor.GetOr(1.0)
  }

  /** `v` satisfies the valid-range bounds that are present. */
  predicate InValidRange(p: Params, v: real) {
    (p.validMin.None? || p.validMin.value <= v) && (p.validMax.None? || v <= p.validMax.value)
  }

  /** `Encode.encode` on one element: offset and scale are removed, the value
      is clamped to `valid_max` and then to `valid_min`, and a missing input
      is written as the fill value. */
  function EncodeValue(p: Params, x: Float): (y: Float)
    ensures NoParams(p) ==> y == x
    ensures x.NaN? ==> y == (if p.fillValue.Some? then Finite(p.fillValue.value) else NaN)
    ensures !NoParams(p) && !x.NaN? && p.validMin.Some? ==> !Less(y, Finite(p.validMin.value))
    ensures !NoParams(p) && !x.NaN? && p.validMax.Some?
            && (p.validMin.None? || p.validMin.value <= p.validMax.value) ==>
              !Less(Finite(p.validMax.value), y)
    ensures x.Finite? && p.scaleFactor.GetOr(1.0) != 0.0 && InValidRange(p, Unscaled(p, x.value)) ==>
              y == Finite(Unscaled(p, x.value))
  {
    if NoParams(p) then x
    else
      var y0 := if p.addOffset.Some? then Sub(x, Finite(p.addOffset.value)) else x;
      var y1 := if p.scaleFactor.Some? then Div(y0, Finite(p.scaleFactor.value)) else y0;
      var y2 := if p.validMax.Some? && Less(Finite(p.validMax.value), y1) then Finite(p.validMax.value) else y1;
      var y3 := if p.validMin.Some? && Less(y2, Finite(p.validMin.value)) then Finite(p.validMin.value) else y2;
      if p.fillValue.Some? && x.NaN? then Finite(p.fillValue.value) else y3
  }

  /** `Decode.decode` on a block. */
  function Decode(p: Params, xs: seq<Float>): (ys: seq<Float>)
    ensures |ys| == |xs|
    ensures forall i :: 0 <= i < |xs| ==> ys[i] == DecodeValue(p, xs[i])
  {
    seq(|xs|, i requires 0 <= i < |xs| => DecodeValue(p, xs[i]))
  }

  /** `Encode.encode` on a block. */
  function Encode(p: Params, xs: seq<Float>): (ys: seq<Float>)
    ensures |ys| == |xs|
    ensures forall i :: 0 <= i < |xs| ==> ys[i] == EncodeValue(p, xs[i])
  {
    seq(|xs|, i requires 0 <= i < |xs| => EncodeValue(p, xs[i]))
  }

  /** A valid stored value survives decoding and re-encoding unchanged. */
  lemma EncodeDecodeValue(p: Params, x: Float)
    requires x.Finite? && !Masked(p, x)
    requires p.scaleFactor.GetOr(1.0) != 0.0
    ensures EncodeValue(p, DecodeValue(p, x)) == x
  {
    if !NoParams(p) {
      var s := p.scaleFactor.GetOr(1.0);
      var o := p.addOffset.GetOr(0.0);
      assert DecodeValue(p, x) == Finite(x.value * s + o);
      UnscaleScaled(s, o, x.value);
      assert Unscaled(p, x.value * s + o) == x.value;
      assert InValidRange(p, x.value);
    }
  }

  /** The fill value decodes to a missing value, which encodes to the fill value. */
  lemma EncodeDecodeFill(p: Params)
    requires p.fillValue.Some?
    ensures DecodeValue(p, Finite(p.fillValue.value)).NaN?
    ensures EncodeValue(p, DecodeValue(p, Finite(p.fillValue.value))) == Finite(p.fillValue.value)
  {
  }

  /** A physical value whose stored value is valid survives encoding and
      re-decoding unchanged. */
  lemma DecodeEncodeValue(p: Params, y: Float)
    requires y.Finite? && p.scaleFactor.GetOr(1.0) != 0.0
    requires InValidRange(p, Unscaled(p, y.value))
    requires p.fillValue.None? || p.fillValue.value != Unscaled(p, y.value)
    ensures DecodeValue(p, EncodeValue(p, y)) == y
  {
    if !NoParams(p) {
      var u := Unscaled(p, y.value);
      assert EncodeValue(p, y) == Finite(u);
      assert !Masked(p, Finite(u));
      ScaleBack(p.scaleFactor.GetOr(1.0), p.addOffset.GetOr(0.0), y.value);
    }
  }

  /** Unscaling a scaled value gives the stored value. */
  lemma UnscaleScaled(s: real, o: real, x: real)
    requires s != 0.0
    ensures (x * s + o - o) / s == x
  {
    assert x * s + o - o == x * s;
  }

  /** Scaling the unscaled value back gives the physical value. */
  lemma ScaleBack(s: real, o: real, r: real)
    requires s != 0.0
    ensures (r - o) / s * s + o == r
  {
  }

  /** Round trip of a whole block whose elements are valid or the fill value. */
  lemma EncodeDecodeBlock(p: Params, xs: seq<Float>)
    requires p.scaleFactor.GetOr(1.0) != 0.0
    requires forall i :: 0 <= i < |xs| ==>
               (xs[i].Finite? && !Masked(p, xs[i])) || (p.fillValue.Some? && xs[i] == Finite(p.fillValue.value))
    ensures Encode(p, Decode(p, xs)) == xs
  {
    forall i | 0 <= i < |xs|
      ensures Encode(p, Decode(p, xs))[i] == xs[i]
    {
      if xs[i].Finite? && !Masked(p, xs[i]) {
        EncodeDecodeValue(p, xs[i]);
      } else {
        EncodeDecodeFill(p);
      }
    }
  }

  /** A variable without any of the five attributes is passed through by both directions. */
  lemma IdentityWithoutAttributes(a: Attrs, xs: seq<Float>)
    requires forall k :: k in Keys ==> k !in a
    ensures Decode(ParamsOf(a), xs) == xs
    ensures Encode(ParamsOf(a), xs) == xs
  {
  }

  /** When `valid_min` exceeds `valid_max`, every value that is not missing
      encodes to `valid_min`: the lower clamp is applied last. */
  lemma InvertedRangeEncodesToMin(p: Params, x: Float)
    requires p.validMin.Some? && p.validMax.Some? && p.validMax.value < p.validMin.value
    requires !x.NaN? && p.scaleFactor.GetOr(1.0) != 0.0
    ensures EncodeValue(p, x) == Finite(p.validMin.value)
  {
  }
}
