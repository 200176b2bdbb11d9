/** The collect operator: from an ensemble whose first member is the
    unperturbed dataset and whose further members are realizations, it adds
    for each configured variable the standard uncertainty (the root mean
    squared error of the realizations against the first member), optionally
    also a low-pass filtered variant, with rewritten attributes. */
module CollectOp {
  import opened Wrappers
  import opened Floats
  import opened Values
  import Strings
  import Codec
  import Stats
  import Filter
  import opened Datasets
  import opened AttrEdits

  /** The configuration of one variable. */
  datatype Config = Config(uncertainty: Option<string>, filter: bool, attrsPop: seq<string>, attrs: Attrs)

  /** What the model leaves abstract: the square root and the Gaussian kernel. */
  datatype Env = Env(sqrt: Float -> Float, kernel: Filter.Kernel)

  /** The full width at half maximum of the smoothing Gaussian (pixels). */
  const FilterFwhm: real := 4.0
  const FilteredSuffix: string := "_filtered"
  const CommentKey: string := "comment"
  const FilteredComment: string := "filtered variant of standard uncertainty"

  /** The realizations minus the first member. */
  function Errors(members: seq<seq<Float>>): (es: seq<seq<Float>>)
    requires Rectangular(members)
    ensures |es| == |members| - 1
    ensures forall k :: 0 <= k < |es| ==> |es[k]| == |members[0]|
    ensures forall k, j :: 0 <= k < |es| && 0 <= j < |members[0]| ==> es[k][j] == Sub(members[k + 1][j], members[0][j])
  {
    seq(|members| - 1, k requires 0 <= k < |members| - 1 =>
      seq(|members[0]|, j requires 0 <= j < |members[0]| => Sub(members[k + 1][j], members[0][j])))
  }

  function Squares(xs: seq<Float>): (ys: seq<Float>)
    ensures |ys| == |xs| && forall i :: 0 <= i < |xs| ==> ys[i] == Square(xs[i])
  {
    seq(|xs|, i requires 0 <= i < |xs| => Square(xs[i]))
  }

  /** `_mse` at one element: the mean of the squared non-missing errors when
      at least one error is finite, and missing otherwise. */
  function Mse(es: seq<Float>): Float {
    if Stats.CountFinite(es) > 0 then Stats.NanMean(Squares(es)) else NaN
  }

  /** The MSE is missing exactly when no error is finite, and is otherwise
      non-negative or infinite. */
  lemma MseMissingIffNoFiniteError(es: seq<Float>)
    ensures Mse(es).NaN? <==> Stats.CountFinite(es) == 0
    ensures Mse(es).NaN? || Mse(es).PosInf? || (Mse(es).Finite? && Mse(es).value >= 0.0)
  {
    if Stats.CountFinite(es) > 0 {
      Stats.SquaringKeepsValidCount(es);
      assert Squares(es) == seq(|es|, i requires 0 <= i < |es| => Square(es[i]));
      Stats.NanMeanOfNonNegative(Squares(es));
    }
  }

  /** Without missing or infinite errors, the MSE is the mean of the squares. */
  lemma MseOfFiniteErrors(es: seq<Float>)
    requires es != [] && Stats.AllFinite(es)
    ensures Mse(es) == Finite(Stats.Mean(Stats.ValuesOf(Squares(es))))
  {
    assert es[0].Finite?;
    assert Stats.CountFinite(es) > 0;
    forall i | 0 <= i < |es|
      ensures Squares(es)[i].Finite?
    {
      assert Square(es[i]) == Finite(es[i].value * es[i].value);
    }
    Stats.NanMeanOfFinite(Squares(es));
  }

  /** `_mse` of the errors of a variable, element by element. */
  function MseField(members: seq<seq<Float>>): (ms: seq<Float>)
    requires Rectangular(members)
    ensures |ms| == |members[0]|
    ensures forall j :: 0 <= j < |ms| ==> ms[j] == Mse(Column(Errors(members), j))
  {
    var es := Errors(members);
    seq(|members[0]|, j requires 0 <= j < |members[0]| => Mse(Column(es, j)))
  }

  /** `_std`: the square root of the MSE, optionally of the MSE filtered with
      a Gaussian of 4 pixels FWHM. */
  function Std(env: Env, members: seq<seq<Float>>, dims: seq<string>, filtered: bool): (s: seq<Float>)
    requires Rectangular(members) && Filter.ShapePreserving(env.kernel)
    ensures |s| == |members[0]|
    ensures !filtered ==> forall j :: 0 <= j < |s| ==> s[j] == env.sqrt(Mse(Column(Errors(members), j)))
    ensures filtered ==> forall j :: 0 <= j < |s| ==>
              s[j] == env.sqrt(Filter.Apply(env.kernel, Filter.Gaussian(FilterFwhm), dims, MseField(members))[j])
  {
    var m := MseField(members);
    var f := if filtered then Filter.Apply(env.kernel, Filter.Gaussian(FilterFwhm), dims, m) else m;
    seq(|f|, j requires 0 <= j < |f| => env.sqrt(f[j]))
  }

  /** The unfiltered uncertainty is missing exactly where no realization has
      a finite error, and is a non-negative number elsewhere. */
  lemma StdMissingExactlyWithoutFiniteErrors(env: Env, members: seq<seq<Float>>, dims: seq<string>, j: nat)
    requires Rectangular(members) && Filter.ShapePreserving(env.kernel) && Stats.SqrtLike(env.sqrt)
    requires j < |members[0]|
    ensures var s := Std(env, members, dims, false)[j];
            (s.NaN? <==> Stats.CountFinite(Column(Errors(members), j)) == 0)
            && (!s.NaN? && Mse(Column(Errors(members), j)).Finite? ==> s.Finite? && s.value >= 0.0)
  {
    var m := Mse(Column(Errors(members), j));
    assert Std(env, members, dims, false)[j] == env.sqrt(m);
    SqrtOfMse(env.sqrt, Column(Errors(members), j));
  }

  /** The `actual_range` of the unfiltered uncertainty never starts below
      zero: its lower end is missing, infinite or a non-negative number. */
  lemma UncertaintyRangeIsNonNegative(env: Env, members: seq<seq<Float>>, dims: seq<string>)
    requires Rectangular(members) && Filter.ShapePreserving(env.kernel) && Stats.SqrtLike(env.sqrt)
    ensures var lo := RangeAttr(Std(env, members, dims, false)).elems[0];
            lo.NaN? || lo.PosInf? || (lo.Finite? && lo.value >= 0.0)
  {
    var s := Std(env, members, dims, false);
    var lo := RangeAttr(s).elems[0];
    if !lo.NaN? {
      var j :| 0 <= j < |s| && s[j] == lo;
      var es := Column(Errors(members), j);
      SqrtOfMse(env.sqrt, es);
      MseMissingIffNoFiniteError(es);
    }
  }

  /** The square root of one element's MSE. */
  lemma SqrtOfMse(sqrt: Float -> Float, es: seq<Float>)
    requires Stats.SqrtLike(sqrt)
    ensures sqrt(Mse(es)).NaN? <==> Stats.CountFinite(es) == 0
    ensures Mse(es).Finite? ==> sqrt(Mse(es)).Finite? && sqrt(Mse(es)).value >= 0.0
  {
    MseMissingIffNoFiniteError(es);
    var m := Mse(es);
    if m.Finite? {
      assert m == Finite(m.value);
    }
  }

  /** The filtered variant keeps the missing elements of the MSE missing. */
  lemma FilteredStdKeepsGaps(env: Env, members: seq<seq<Float>>, dims: seq<string>, j: nat)
    requires Rectangular(members) && Filter.ShapePreserving(env.kernel) && Stats.SqrtLike(env.sqrt)
    requires j < |members[0]| && Stats.CountFinite(Column(Errors(members), j)) == 0
    ensures Std(env, members, dims, true)[j].NaN?
  {
    MseMissingIffNoFiniteError(Column(Errors(members), j));
    assert MseField(members)[j].NaN?;
  }

  /** The name of the uncertainty variable: configured or "{v}_unc", with
      "_filtered" appended for the filtered variant. */
  function UncName(v: string, cfg: Config, filtered: bool): (r: string)
    ensures !filtered ==> r == UncBaseName(v, cfg.uncertainty)
    ensures filtered ==> r == UncBaseName(v, cfg.uncertainty) + FilteredSuffix
  {
    var base := UncBaseName(v, cfg.uncertainty);
    if filtered then base + FilteredSuffix else base
  }

  /** The filtered and unfiltered names never coincide. */
  lemma UncNamesDiffer(v: string, cfg: Config)
    ensures UncName(v, cfg, true) != UncName(v, cfg, false)
  {
    assert |UncName(v, cfg, true)| == |UncName(v, cfg, false)| + |FilteredSuffix|;
  }

  /** An attribute the rewriting leaves to the variable and the configuration. */
  predicate Inherited(k: string, filtered: bool) {
    k != CoordinatesKey && k != StandardNameKey && k != TitleKey && k != ActualRangeKey && (filtered ==> k != CommentKey)
  }

  /** The first edits of `x`'s attributes for the uncertainty `unc`: an
      `actual_range` becomes the range of `unc`, the filtered variant gets its
      comment and the coordinates attribute lists `x`'s coordinates. */
  function Annotated(x: Variable, filtered: bool, unc: seq<Float>): (a: Attrs)
    ensures forall k :: k in a ==> k in x.attrs || k == CommentKey || k == CoordinatesKey
    ensures forall k :: k in x.attrs && k != CoordinatesKey && k != ActualRangeKey && (filtered ==> k != CommentKey) ==>
              k in a && a[k] == x.attrs[k]
    ensures ActualRangeKey in x.attrs ==> ActualRangeKey in a && a[ActualRangeKey] == RangeAttr(unc)
    ensures filtered ==> CommentKey in a && a[CommentKey] == Str(FilteredComment)
    ensures x.coords != [] && Unblanked(x.coords) ==>
              CoordinatesKey in a && a[CoordinatesKey].Str? && Strings.Split(a[CoordinatesKey].s, ' ') == x.coords
    ensures x.coords == [] && CoordinatesKey !in x.attrs ==> CoordinatesKey !in a
  {
    var ar := SetRange(x.attrs, unc);
    CoordinateAttr(if filtered then ar[CommentKey := Str(FilteredComment)] else ar, x.coords)
  }

  /** `x`'s attributes rewritten for the uncertainty `unc`, before the
      configured removals and updates: an `actual_range` becomes the range of
      `unc`, the filtered variant gets its comment, the coordinates attribute
      lists `x`'s coordinates, the standard name gets its suffix and the
      title its prefix. */
  function Rewritten(x: Variable, filtered: bool, unc: seq<Float>): (a: Attrs)
    requires TextAttrs(x.attrs)
    ensures forall k :: k in a ==> k in x.attrs || k == CommentKey || k == CoordinatesKey
    ensures forall k :: k in x.attrs && Inherited(k, filtered) ==> k in a && a[k] == x.attrs[k]
    ensures ActualRangeKey in x.attrs ==> ActualRangeKey in a && a[ActualRangeKey] == RangeAttr(unc)
    ensures StandardNameKey in x.attrs ==>
              StandardNameKey in a && a[StandardNameKey] == Str(x.attrs[StandardNameKey].s + StandardErrorSuffix)
    ensures TitleKey in x.attrs ==> TitleKey in a && a[TitleKey] == Str(TitlePrefix + x.attrs[TitleKey].s)
    ensures filtered ==> CommentKey in a && a[CommentKey] == Str(FilteredComment)
    ensures x.coords != [] && Unblanked(x.coords) ==>
              CoordinatesKey in a && a[CoordinatesKey].Str? && Strings.Split(a[CoordinatesKey].s, ' ') == x.coords
    ensures x.coords == [] && CoordinatesKey !in x.attrs ==> CoordinatesKey !in a
  {
    var a1 := Annotated(x, filtered, unc);
    var a2 := AppendToAttr(a1, StandardNameKey, StandardErrorSuffix);
    var a3 := PrependToAttr(a2, TitleKey, TitlePrefix);
    assert TitleKey in x.attrs ==> a3[TitleKey] == Str(TitlePrefix + x.attrs[TitleKey].s) by {
      if TitleKey in x.attrs {
        assert a2[TitleKey] == x.attrs[TitleKey];
        assert a3[TitleKey].s == TitlePrefix + a3[TitleKey].s[|TitlePrefix|..];
      }
    }
    a3
  }

  /** The attributes of an uncertainty variable derived from `x`'s, for the
      uncertainty `unc`: the configured attributes win and popped ones are
      gone; otherwise an inherited `actual_range` becomes the range of `unc`,
      the title gets its prefix, the filtered variant its comment, the
      coordinates attribute lists `x`'s coordinates, and every other
      attribute of `x` is kept. */
  function UncertaintyAttrs(x: Variable, cfg: Config, filtered: bool, unc: seq<Float>): (r: Attrs)
    requires TextAttrs(x.attrs)
    ensures forall k :: k in cfg.attrs ==> k in r && r[k] == cfg.attrs[k]
    ensures forall k :: k in cfg.attrsPop && k !in cfg.attrs ==> k !in r
    ensures forall k :: k in r ==> k in x.attrs || k in cfg.attrs || k == CommentKey || k == CoordinatesKey
    ensures forall k :: k in x.attrs && k !in cfg.attrsPop && k !in cfg.attrs && Inherited(k, filtered) ==>
              k in r && r[k] == x.attrs[k]
    ensures ActualRangeKey in x.attrs && ActualRangeKey !in cfg.attrsPop && ActualRangeKey !in cfg.attrs ==>
              ActualRangeKey in r && r[ActualRangeKey] == RangeAttr(unc)
    ensures TitleKey in x.attrs && TitleKey !in cfg.attrsPop && TitleKey !in cfg.attrs ==>
              TitleKey in r && r[TitleKey] == Str(TitlePrefix + x.attrs[TitleKey].s)
    ensures filtered && CommentKey !in cfg.attrsPop && CommentKey !in cfg.attrs ==>
              CommentKey in r && r[CommentKey] == Str(FilteredComment)
    ensures x.coords != [] && Unblanked(x.coords) && CoordinatesKey !in cfg.attrsPop && CoordinatesKey !in cfg.attrs ==>
              CoordinatesKey in r && r[CoordinatesKey].Str? && Strings.Split(r[CoordinatesKey].s, ' ') == x.coords
    ensures x.coords == [] && CoordinatesKey !in x.attrs && CoordinatesKey !in cfg.attrs ==> CoordinatesKey !in r
  {
    PopThenUpdate(Rewritten(x, filtered, unc), cfg.attrsPop, cfg.attrs)
  }

  /** A standard name kept from the variable gets the suffix; one set by the
      configuration is taken as configured. */
  lemma StandardNameOfUncertainty(x: Variable, cfg: Config, filtered: bool, unc: seq<Float>)
    requires TextAttrs(x.attrs)
    ensures StandardNameKey in x.attrs && StandardNameKey !in cfg.attrs && StandardNameKey !in cfg.attrsPop ==>
              var r := UncertaintyAttrs(x, cfg, filtered, unc);
              StandardNameKey in r && r[StandardNameKey] == Str(x.attrs[StandardNameKey].s + StandardErrorSuffix)
    ensures StandardNameKey in cfg.attrs ==> UncertaintyAttrs(x, cfg, filtered, unc)[StandardNameKey] == cfg.attrs[StandardNameKey]
  {
  }

  /** The variable pairs the collect operator works on. */
  predicate Compatible(source: Ensemble, target: Dataset) {
    && WellFormedEnsemble(source) && WellFormed(target)
    && (forall v :: v in source.vars ==> TextAttrs(source.vars[v].attrs))
  }

  /** The configured attributes and the rewritten ones keep the codec
      attributes numeric. */
  lemma UncertaintyAttrsNumeric(x: Variable, cfg: Config, filtered: bool, unc: seq<Float>)
    requires TextAttrs(x.attrs) && Codec.NumericCodecAttrs(x.attrs) && Codec.NumericCodecAttrs(cfg.attrs)
    ensures Codec.NumericCodecAttrs(UncertaintyAttrs(x, cfg, filtered, unc))
  {
    var attrs := UncertaintyAttrs(x, cfg, filtered, unc);
    forall k | k in Codec.Keys && k in attrs
      ensures IsNumber(attrs[k]) || attrs[k].Null?
    {
      if k !in cfg.attrs {
        CodecKeysInherited(k, filtered);
        assert k in x.attrs && k !in cfg.attrsPop;
      }
    }
  }

  /** The codec attributes are none of the attributes the rewriting touches. */
  lemma CodecKeysInherited(k: string, filtered: bool)
    requires k in Codec.Keys
    ensures Inherited(k, filtered) && k != CommentKey
  {
  }

  /** The (filtered) uncertainty of `v` in physical units, from the members
      decoded with `x`'s attributes. */
  function UncertaintyStd(env: Env, source: Ensemble, v: string, x: Variable, filtered: bool): (u: seq<Float>)
    requires WellFormedEnsemble(source) && Filter.ShapePreserving(env.kernel)
    requires v in source.vars && Codec.NumericCodecAttrs(x.attrs)
    ensures |u| == |source.vars[v].members[0]|
  {
    Std(env, DecodedMembers(source.vars[v].members, x.attrs), x.dims, filtered)
  }

  /** The encoded (filtered) uncertainty of `v`, encoded with `x`'s attributes. */
  function UncertaintyData(env: Env, source: Ensemble, v: string, x: Variable, filtered: bool): (d: seq<Float>)
    requires WellFormedEnsemble(source) && Filter.ShapePreserving(env.kernel)
    requires v in source.vars && Codec.NumericCodecAttrs(x.attrs)
    ensures |d| == |source.vars[v].members[0]|
  {
    Codec.Encode(Codec.ParamsOf(x.attrs), UncertaintyStd(env, source, v, x, filtered))
  }

  /** `add_uncertainty`: adds the (filtered) uncertainty of `v` unless a
      variable or coordinate of that name exists. */
  function AddUncertainty(env: Env, target: Dataset, source: Ensemble, v: string, x: Variable,
                          cfg: Config, filtered: bool): (r: Dataset)
    requires WellFormedEnsemble(source) && WellFormed(target) && Filter.ShapePreserving(env.kernel)
    requires v in source.vars && Codec.NumericCodecAttrs(x.attrs) && TextAttrs(x.attrs)
    requires Codec.NumericCodecAttrs(cfg.attrs)
    ensures WellFormed(r) && r.coords == target.coords && r.attrs == target.attrs
    ensures Contains(target, UncName(v, cfg, filtered)) ==> r == target
    ensures forall w :: w in target.vars ==> w in r.vars && r.vars[w] == target.vars[w]
    ensures Contains(r, UncName(v, cfg, filtered))
    ensures forall w :: w in r.vars ==> w in target.vars || w == UncName(v, cfg, filtered)
    ensures !Contains(target, UncName(v, cfg, filtered)) ==>
              && r.names == target.names + [UncName(v, cfg, filtered)]
              && r.vars == target.vars[UncName(v, cfg, filtered) :=
                   Variable(UncertaintyData(env, source, v, x, filtered),
                            UncertaintyAttrs(x, cfg, filtered, UncertaintyStd(env, source, v, x, filtered)), x.dims, x.coords)]
  {
    var name := UncName(v, cfg, filtered);
    if Contains(target, name) then target
    else
      var unc := UncertaintyStd(env, source, v, x, filtered);
      UncertaintyAttrsNumeric(x, cfg, filtered, unc);
      Put(target, name, Variable(UncertaintyData(env, source, v, x, filtered), UncertaintyAttrs(x, cfg, filtered, unc), x.dims, x.coords))
  }

  /** The names the loop may add for the given variables. */
  function Candidates(cfgs: map<string, Config>, names: seq<string>): (c: set<string>)
    ensures forall v :: v in names && v in cfgs ==> UncName(v, cfgs[v], false) in c
    ensures forall v :: v in names && v in cfgs && cfgs[v].filter ==> UncName(v, cfgs[v], true) in c
  {
    if names == [] then {}
    else
      var v := names[0];
      var here := if v !in cfgs then {}
                  else if cfgs[v].filter then {UncName(v, cfgs[v], false), UncName(v, cfgs[v], true)}
                  else {UncName(v, cfgs[v], false)};
      here + Candidates(cfgs, names[1..])
  }

  /** One iteration of the loop of `run` for a configured variable `v`:
      its uncertainty, then its filtered uncertainty if configured. */
  function AddUncertainties(env: Env, target: Dataset, source: Ensemble, v: string, x: Variable, cfg: Config)
    : (r: Dataset)
    requires WellFormedEnsemble(source) && WellFormed(target) && Filter.ShapePreserving(env.kernel)
    requires v in source.vars && Codec.NumericCodecAttrs(x.attrs) && TextAttrs(x.attrs)
    requires Codec.NumericCodecAttrs(cfg.attrs)
    ensures WellFormed(r) && r.coords == target.coords && r.attrs == target.attrs
    ensures forall w :: w in target.vars ==> w in r.vars && r.vars[w] == target.vars[w]
    ensures Contains(r, UncName(v, cfg, false))
    ensures cfg.filter ==> Contains(r, UncName(v, cfg, true))
    ensures forall w :: w in r.vars ==>
              w in target.vars || w == UncName(v, cfg, false) || (cfg.filter && w == UncName(v, cfg, true))
  {
    var t1 := AddUncertainty(env, target, source, v, x, cfg, false);
    if cfg.filter then AddUncertainty(env, t1, source, v, x, cfg, true) else t1
  }

  /** The loop of `run` over the variables of the first member. */
  function RunVars(env: Env, cfgs: map<string, Config>, source: Ensemble, first: Dataset, target: Dataset,
                   names: seq<string>): (r: Dataset)
    requires Compatible(source, target) && Filter.ShapePreserving(env.kernel)
    requires forall v :: v in cfgs ==> Codec.NumericCodecAttrs(cfgs[v].attrs)
    requires first == FirstMember(source)
    requires forall v :: v in names ==> v in source.vars
    ensures WellFormed(r) && r.coords == target.coords && r.attrs == target.attrs
    ensures forall w :: w in target.vars ==> w in r.vars && r.vars[w] == target.vars[w]
    decreases |names|
  {
    if names == [] then target
    else
      var v := names[0];
      assert forall w :: w in names[1..] ==> w in names;
      if v !in cfgs then RunVars(env, cfgs, source, first, target, names[1..])
      else RunVars(env, cfgs, source, first, AddUncertainties(env, target, source, v, first.vars[v], cfgs[v]), names[1..])
  }

  /** After the loop, every configured variable has its uncertainty
      variable, and its filtered one when the configuration asks for it. */
  lemma {:induction false} RunVarsAddsUncertainties(env: Env, cfgs: map<string, Config>, source: Ensemble,
                                                    first: Dataset, target: Dataset, names: seq<string>)
    requires Compatible(source, target) && Filter.ShapePreserving(env.kernel)
    requires forall v :: v in cfgs ==> Codec.NumericCodecAttrs(cfgs[v].attrs)
    requires first == FirstMember(source)
    requires forall v :: v in names ==> v in source.vars
    ensures var r := RunVars(env, cfgs, source, first, target, names);
            && (forall v :: v in names && v in cfgs ==> Contains(r, UncName(v, cfgs[v], false)))
            && (forall v :: v in names && v in cfgs && cfgs[v].filter ==> Contains(r, UncName(v, cfgs[v], true)))
    decreases |names|
  {
    if names != [] {
      var v := names[0];
      var tail := names[1..];
      assert forall w :: w in tail ==> w in names;
      assert forall w :: w in names ==> w == v || w in tail;
      var r := RunVars(env, cfgs, source, first, target, names);
      var t := if v in cfgs then AddUncertainties(env, target, source, v, first.vars[v], cfgs[v]) else target;
      assert r == RunVars(env, cfgs, source, first, t, tail);
      RunVarsAddsUncertainties(env, cfgs, source, first, t, tail);
      if v in cfgs {
        ContainsKept(t, r, UncName(v, cfgs[v], false));
        ContainsKept(t, r, UncName(v, cfgs[v], true));
      }
      forall w | w in names && w in cfgs
        ensures Contains(r, UncName(w, cfgs[w], false))
        ensures cfgs[w].filter ==> Contains(r, UncName(w, cfgs[w], true))
      {
        if w != v {
          assert w in tail;
        }
      }
    }
  }

  /** A dataset that keeps another's variables and coordinates contains
      every name the other contains. */
  lemma ContainsKept(a: Dataset, b: Dataset, name: string)
    requires b.coords == a.coords && forall w :: w in a.vars ==> w in b.vars
    ensures Contains(a, name) ==> Contains(b, name)
  {
  }

  /** The loop adds nothing but the uncertainty variables of configured variables. */
  lemma {:induction false} RunVarsAddsOnlyCandidates(env: Env, cfgs: map<string, Config>, source: Ensemble,
                                                     first: Dataset, target: Dataset, names: seq<string>)
    requires Compatible(source, target) && Filter.ShapePreserving(env.kernel)
    requires forall v :: v in cfgs ==> Codec.NumericCodecAttrs(cfgs[v].attrs)
    requires first == FirstMember(source)
    requires forall v :: v in names ==> v in source.vars
    ensures var r := RunVars(env, cfgs, source, first, target, names);
            forall w :: w in r.vars && w !in target.vars ==> w in Candidates(cfgs, names)
    decreases |names|
  {
    if names != [] {
      var v := names[0];
      assert forall w :: w in names[1..] ==> w in names;
      if v !in cfgs {
        RunVarsAddsOnlyCandidates(env, cfgs, source, first, target, names[1..]);
      } else {
        var t := AddUncertainties(env, target, source, v, first.vars[v], cfgs[v]);
        RunVarsAddsOnlyCandidates(env, cfgs, source, first, t, names[1..]);
        var rest := Candidates(cfgs, names[1..]);
        var all := Candidates(cfgs, names);
        assert rest <= all;
        assert UncName(v, cfgs[v], false) in all;
        assert cfgs[v].filter ==> UncName(v, cfgs[v], true) in all;
        assert forall w :: w in t.vars && w !in target.vars ==> w in all;
      }
    }
  }

  /** `CollectOp.run`: the first member with the uncertainty variables added. */
  function Run(env: Env, cfgs: map<string, Config>, source: Ensemble): (r: Dataset)
    requires WellFormedEnsemble(source) && Filter.ShapePreserving(env.kernel)
    requires forall v :: v in source.vars ==> TextAttrs(source.vars[v].attrs)
    requires forall v :: v in cfgs ==> Codec.NumericCodecAttrs(cfgs[v].attrs)
    ensures WellFormed(r)
    ensures forall v :: v in source.vars ==> v in r.vars && r.vars[v].data == source.vars[v].members[0]
    ensures forall v :: v in source.vars && v in cfgs ==> Contains(r, UncName(v, cfgs[v], false))
    ensures forall v :: v in source.vars && v in cfgs && cfgs[v].filter ==> Contains(r, UncName(v, cfgs[v], true))
    ensures forall w :: w in r.vars && w !in source.vars ==> w in Candidates(cfgs, source.names)
  {
    var first := FirstMember(source);
    RunVarsAddsUncertainties(env, cfgs, source, first, first, source.names);
    RunVarsAddsOnlyCandidates(env, cfgs, source, first, first, source.names);
    RunVars(env, cfgs, source, first, first, source.names)
  }
}
