/** The derandomize operator: from an ensemble whose first member is the
    unperturbed dataset, it adds for each configured variable the standard
    deviation of the further members, with rewritten attributes. */
module DerandOp {
  import opened Wrappers
  import opened Floats
  import opened Values
  import Codec
  import Stats
  import opened Datasets
  import opened AttrEdits

  /** The configuration of one variable. */
  datatype Config = Config(uncertainty: Option<string>, attrsPop: seq<string>, attrs: Attrs)

  /** The configured attributes are usable: numeric codec attributes and a
      string standard name. */
  predicate ConfigOk(cfg: Config) {
    Codec.NumericCodecAttrs(cfg.attrs) && TextAttrs(cfg.attrs)
  }

  /** The spread of the realizations (all members but the first), decoded
      with `attrs`, element by element. */
  function Spread(sqrt: Float -> Float, members: seq<seq<Float>>, attrs: Attrs): (s: seq<Float>)
    requires Rectangular(members) && Codec.NumericCodecAttrs(attrs)
    ensures |s| == |members[0]|
    ensures forall j :: 0 <= j < |s| ==>
              s[j] == Stats.NanStd(sqrt, Column(DecodedMembers(members[1..], attrs), j))
  {
    var realizations := DecodedMembers(members[1..], attrs);
    seq(|members[0]|, j requires 0 <= j < |members[0]| => Stats.NanStd(sqrt, Column(realizations, j)))
  }

  /** Of finite or missing decoded realizations, the spread is missing
      exactly where all of them are missing, and a non-negative number
      elsewhere. */
  lemma SpreadMissingIffNoValidRealization(sqrt: Float -> Float, members: seq<seq<Float>>, attrs: Attrs, j: nat)
    requires Rectangular(members) && Codec.NumericCodecAttrs(attrs) && Stats.SqrtLike(sqrt)
    requires j < |members[0]|
    requires Stats.FiniteOrMissing(Column(DecodedMembers(members[1..], attrs), j))
    ensures var s := Spread(sqrt, members, attrs)[j];
            (s.NaN? <==> Stats.CountValid(Column(DecodedMembers(members[1..], attrs), j)) == 0)
            && (!s.NaN? ==> s.Finite? && s.value >= 0.0)
  {
    var col := Column(DecodedMembers(members[1..], attrs), j);
    Stats.NanVarOfFiniteOrMissing(col);
    var v := Stats.NanVar(col);
    if v.Finite? {
      assert sqrt(Finite(v.value)).Finite?;
    }
  }

  /** Of finite decoded realizations, the spread is the square root of their
      population variance. */
  lemma SpreadOfFiniteRealizations(sqrt: Float -> Float, members: seq<seq<Float>>, attrs: Attrs, j: nat)
    requires Rectangular(members) && Codec.NumericCodecAttrs(attrs) && |members| >= 2
    requires j < |members[0]|
    requires Stats.AllFinite(Column(DecodedMembers(members[1..], attrs), j))
    ensures Spread(sqrt, members, attrs)[j]
            == sqrt(Finite(Stats.Variance(Stats.ValuesOf(Column(DecodedMembers(members[1..], attrs), j)))))
  {
    Stats.NanVarOfFinite(Column(DecodedMembers(members[1..], attrs), j));
  }

  /** The attributes of the uncertainty variable for the spread `unc`:
      `attrs_pop` removed, then `attrs` applied, then `actual_range` replaced
      by the range of `unc` and " standard_error" appended to the standard
      name, whether inherited from `x` or configured. */
  function UncertaintyAttrs(x: Variable, cfg: Config, unc: seq<Float>): (r: Attrs)
    requires TextAttrs(x.attrs) && TextAttrs(cfg.attrs)
    ensures forall k :: k in cfg.attrs && k != StandardNameKey && k != ActualRangeKey ==> k in r && r[k] == cfg.attrs[k]
    ensures forall k :: k in cfg.attrsPop && k !in cfg.attrs ==> k !in r
    ensures forall k :: k in x.attrs && k != StandardNameKey && k != ActualRangeKey && k !in cfg.attrsPop && k !in cfg.attrs ==>
              k in r && r[k] == x.attrs[k]
    ensures forall k :: k in r ==> k in x.attrs || k in cfg.attrs
    ensures StandardNameKey in r <==>
              StandardNameKey in cfg.attrs || (StandardNameKey in x.attrs && StandardNameKey !in cfg.attrsPop)
    ensures StandardNameKey in x.attrs && StandardNameKey !in cfg.attrsPop && StandardNameKey !in cfg.attrs ==>
              r[StandardNameKey] == Str(x.attrs[StandardNameKey].s + StandardErrorSuffix)
    ensures ActualRangeKey in r <==>
              ActualRangeKey in cfg.attrs || (ActualRangeKey in x.attrs && ActualRangeKey !in cfg.attrsPop)
    ensures ActualRangeKey in r ==> r[ActualRangeKey] == RangeAttr(unc)
  {
    var a := PopThenUpdate(x.attrs, cfg.attrsPop, cfg.attrs);
    AppendToAttr(SetRange(a, unc), StandardNameKey, StandardErrorSuffix)
  }

  /** A standard name set by the configuration also gets the suffix. */
  lemma ConfiguredStandardNameGetsSuffix(x: Variable, cfg: Config, unc: seq<Float>)
    requires TextAttrs(x.attrs) && TextAttrs(cfg.attrs) && StandardNameKey in cfg.attrs
    ensures var r := UncertaintyAttrs(x, cfg, unc);
            StandardNameKey in r && r[StandardNameKey] == Str(cfg.attrs[StandardNameKey].s + StandardErrorSuffix)
  {
  }

  lemma UncertaintyAttrsNumeric(x: Variable, cfg: Config, unc: seq<Float>)
    requires TextAttrs(x.attrs) && Codec.NumericCodecAttrs(x.attrs) && ConfigOk(cfg)
    ensures Codec.NumericCodecAttrs(UncertaintyAttrs(x, cfg, unc))
  {
    var attrs := UncertaintyAttrs(x, cfg, unc);
    forall k | k in Codec.Keys && k in attrs
      ensures IsNumber(attrs[k]) || attrs[k].Null?
    {
      assert k != StandardNameKey && k != ActualRangeKey;
    }
  }

  /** One iteration of `run` for a configured variable `v` with first member `x`. */
  function AddUncertainty(sqrt: Float -> Float, target: Dataset, source: Ensemble, v: string, x: Variable,
                          cfg: Config): (r: Dataset)
    requires WellFormedEnsemble(source) && WellFormed(target) && v in source.vars
    requires Codec.NumericCodecAttrs(x.attrs) && TextAttrs(x.attrs) && ConfigOk(cfg)
    ensures WellFormed(r) && r.coords == target.coords && r.attrs == target.attrs
    ensures forall w :: w in target.vars ==> w in r.vars && r.vars[w] == target.vars[w]
    ensures Contains(r, UncBaseName(v, cfg.uncertainty))
    ensures !Contains(target, UncBaseName(v, cfg.uncertainty)) ==>
              r.vars == target.vars[UncBaseName(v, cfg.uncertainty) :=
                var spread := Spread(sqrt, source.vars[v].members, x.attrs);
                Variable(Codec.Encode(Codec.ParamsOf(x.attrs), spread), UncertaintyAttrs(x, cfg, spread), x.dims, x.coords)]
  {
    var name := UncBaseName(v, cfg.uncertainty);
    if Contains(target, name) then target
    else
      var spread := Spread(sqrt, source.vars[v].members, x.attrs);
      UncertaintyAttrsNumeric(x, cfg, spread);
      Put(target, name, Variable(Codec.Encode(Codec.ParamsOf(x.attrs), spread), UncertaintyAttrs(x, cfg, spread), x.dims, x.coords))
  }

  /** The loop of `run` over the variables of the first member. */
  function RunVars(sqrt: Float -> Float, cfgs: map<string, Config>, source: Ensemble, first: Dataset,
                   target: Dataset, names: seq<string>): (r: Dataset)
    requires WellFormedEnsemble(source) && WellFormed(target) && first == FirstMember(source)
    requires forall v :: v in source.vars ==> TextAttrs(source.vars[v].attrs)
    requires forall v :: v in cfgs ==> ConfigOk(cfgs[v])
    requires forall v :: v in names ==> v in source.vars
    ensures WellFormed(r) && r.coords == target.coords && r.attrs == target.attrs
    ensures forall w :: w in target.vars ==> w in r.vars && r.vars[w] == target.vars[w]
    decreases |names|
  {
    if names == [] then target
    else
      var v := names[0];
      assert forall w :: w in names[1..] ==> w in names;
      if v !in cfgs then RunVars(sqrt, cfgs, source, first, target, names[1..])
      else RunVars(sqrt, cfgs, source, first, AddUncertainty(sqrt, target, source, v, first.vars[v], cfgs[v]), names[1..])
  }

  /** After the loop, every configured variable has its uncertainty variable. */
  lemma {:induction false} RunVarsAddsUncertainties(sqrt: Float -> Float, cfgs: map<string, Config>, source: Ensemble,
                                                    first: Dataset, target: Dataset, names: seq<string>)
    requires WellFormedEnsemble(source) && WellFormed(target) && first == FirstMember(source)
    requires forall v :: v in source.vars ==> TextAttrs(source.vars[v].attrs)
    requires forall v :: v in cfgs ==> ConfigOk(cfgs[v])
    requires forall v :: v in names ==> v in source.vars
    ensures forall v :: v in names && v in cfgs ==>
              Contains(RunVars(sqrt, cfgs, source, first, target, names), UncBaseName(v, cfgs[v].uncertainty))
    decreases |names|
  {
    if names != [] {
      var v := names[0];
      assert forall w :: w in names[1..] ==> w in names;
      if v !in cfgs {
        RunVarsAddsUncertainties(sqrt, cfgs, source, first, target, names[1..]);
      } else {
        var t := AddUncertainty(sqrt, target, source, v, first.vars[v], cfgs[v]);
        RunVarsAddsUncertainties(sqrt, cfgs, source, first, t, names[1..]);
      }
    }
  }

  /** `DerandOp.run`: the first member with the uncertainty variables added. */
  function Run(sqrt: Float -> Float, cfgs: map<string, Config>, source: Ensemble): (r: Dataset)
    requires WellFormedEnsemble(source)
    requires forall v :: v in source.vars ==> TextAttrs(source.vars[v].attrs)
    requires forall v :: v in cfgs ==> ConfigOk(cfgs[v])
    ensures WellFormed(r)
    ensures forall v :: v in source.vars ==> v in r.vars && r.vars[v].data == source.vars[v].members[0]
    ensures forall v :: v in source.vars && v in cfgs ==> Contains(r, UncBaseName(v, cfgs[v].uncertainty))
  {
    var first := FirstMember(source);
    RunVarsAddsUncertainties(sqrt, cfgs, source, first, first, source.names);
    RunVars(sqrt, cfgs, source, first, first, source.names)
  }
}
