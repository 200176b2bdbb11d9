/** The scatter operator: it draws one Monte Carlo realization of a dataset
    by randomizing every configured variable, either from its own
    uncertainty (a named variable or a constant), from an RMSD and a bias, or
    as the value plus the perturbations already applied to other variables
    ("total"). The dataset is modelled as a single block per variable, with
    the block coordinates given by the environment. */
module ScatterOp {
  import opened Wrappers
  import opened Floats
  import opened Values
  import Strings
  import Codec
  import Generators
  import Randomize
  import opened Datasets
  import AttrEdits

  /** The uncertainty entry of a variable's configuration: the name of
      another variable, or a constant. */
  datatype Uncertainty = Named(name: string) | Constant(value: real)

  /** The configuration of one variable; the optional JSON entries are
      `Option`s, and `coverage` and `relative` carry their defaults. */
  datatype VarConfig = VarConfig(
    total: Option<seq<string>>,
    uncertainty: Option<Uncertainty>,
    distribution: string,
    rmsd: string,
    bias: string,
    coverage: real,
    relative: bool,
    clip: Option<Randomize.ClipBounds>)

  /** The command-line arguments the operator reads. */
  datatype Args = Args(sourceType: string, sourceStem: string, selector: int, antithetic: bool)

  /** What the model leaves abstract: the elementary functions, the normal
      deviates and 64-bit words of the bit generators, the integer value of
      the name-based UUID, and the coordinates of the block. */
  datatype Env = Env(
    e: Randomize.Elementary,
    z: Generators.NormalStream,
    words: Generators.WordStream,
    uuid: string -> nat,
    blockId: seq<nat>)

  datatype ScatterError = MissingVariable(name: string) | ShapeMismatch(name: string)

  const SoftwareKey: string := "monte_carlo_software"
  const VersionKey: string := "monte_carlo_software_version"
  const SeedKey: string := "seed"
  const SoftwareName: string := "kaleidoscope"
  const SoftwareVersion: string := "2025.1.1"
  /** The default length of a root seed. */
  const SeedLength: nat := 4

  /** The three ways a variable can be randomized. */
  datatype Branch = TotalBranch(refs: seq<string>) | UncertaintyBranch(u: Uncertainty) | RmsdBiasBranch

  /** "total" takes priority over "uncertainty"; otherwise RMSD and bias are used. */
  function BranchOf(c: VarConfig): (b: Branch)
    ensures b.TotalBranch? <==> c.total.Some?
    ensures b.TotalBranch? ==> b.refs == c.total.value
    ensures b.UncertaintyBranch? <==> c.total.None? && c.uncertainty.Some?
    ensures b.UncertaintyBranch? ==> b.u == c.uncertainty.value
    ensures b.RmsdBiasBranch? <==> c.total.None? && c.uncertainty.None?
  {
    if c.total.Some? then TotalBranch(c.total.value)
    else if c.uncertainty.Some? then UncertaintyBranch(c.uncertainty.value)
    else RmsdBiasBranch
  }

  /** The name the variable's UUID is derived from: "{variable}-{file stem}". */
  function UuidName(v: string, stem: string): (r: string)
    ensures |r| == |v| + 1 + |stem|
    ensures Strings.StartsWith(r, v) && r[|v|] == '-' && r[|v| + 1..] == stem
  {
    v + "-" + stem
  }

  /** For one source file, distinct variables have distinct UUID names. */
  lemma UuidNamesDistinct(v: string, w: string, stem: string)
    requires v != w
    ensures UuidName(v, stem) != UuidName(w, stem)
  {
    if |v| == |w| {
      assert UuidName(v, stem)[..|v|] == v;
      assert UuidName(w, stem)[..|w|] == w;
    }
  }

  /** What the selector adds to the UUID: the selector itself, or with
      antithetic sampling the index of the pair it belongs to. */
  function SeedOffset(selector: int, antithetic: bool): (k: int)
    ensures !antithetic ==> k == selector
    ensures antithetic ==> 2 * k - 1 <= selector <= 2 * k
  {
    if antithetic then (selector + 1) / 2 else selector
  }

  /** With antithetic sampling, two selectors share their seed offset exactly
      when they are equal or form a pair 2k-1, 2k; without it, only when equal. */
  lemma SharedSeedOffsets(a: int, b: int)
    ensures SeedOffset(a, true) == SeedOffset(b, true) <==>
              a == b || (a % 2 == 1 && b == a + 1) || (b % 2 == 1 && a == b + 1)
    ensures SeedOffset(a, false) == SeedOffset(b, false) <==> a == b
  {
    if SeedOffset(a, true) == SeedOffset(b, true) {
      SameOffsetIsPair(a, b);
    }
    if a % 2 == 1 && b == a + 1 {
      PairSharesOffset(a);
    }
    if b % 2 == 1 && a == b + 1 {
      PairSharesOffset(b);
    }
  }

  lemma SameOffsetIsPair(a: int, b: int)
    requires SeedOffset(a, true) == SeedOffset(b, true)
    ensures a == b || (a % 2 == 1 && b == a + 1) || (b % 2 == 1 && a == b + 1)
  {
    var k := SeedOffset(a, true);
    if a < b {
      assert a == 2 * k - 1 && b == 2 * k;
    } else if b < a {
      assert b == 2 * k - 1 && a == 2 * k;
    }
  }

  lemma PairSharesOffset(j: int)
    requires j % 2 == 1
    ensures SeedOffset(j, true) == SeedOffset(j + 1, true)
  {
    assert j == 2 * (j / 2) + 1;
  }

  /** `seed`: `n` integers from a Philox generator seeded with the UUID plus
      the seed offset. */
  function SeedOf(words: Generators.WordStream, uuidInt: nat, selector: int, antithetic: bool, n: nat): (s: seq<int>)
    ensures |s| == n
    ensures forall i :: 0 <= i < n ==> 0 <= s[i] < Generators.NextBound
    ensures forall i :: 0 <= i < n ==>
              s[i] == Generators.Next(words, Generators.FromBitGenerator(
                        Generators.Philox(Generators.IntSeed(uuidInt + SeedOffset(selector, antithetic)))), i)
  {
    var g := Generators.FromBitGenerator(Generators.Philox(Generators.IntSeed(uuidInt + SeedOffset(selector, antithetic))));
    seq(n, i requires 0 <= i < n => Generators.Next(words, g, i))
  }

  /** The root seed of a variable under the given arguments. */
  function VariableSeed(env: Env, args: Args, v: string): (s: seq<int>)
    ensures |s| == SeedLength
  {
    SeedOf(env.words, env.uuid(UuidName(v, args.sourceStem)), args.selector, args.antithetic, SeedLength)
  }

  /** Under antithetic sampling, selectors 2k-1 and 2k give a variable the same root seed. */
  lemma AntitheticPairsShareSeed(env: Env, args: Args, v: string, k: int)
    requires args.antithetic
    ensures VariableSeed(env, args.(selector := 2 * k - 1), v) == VariableSeed(env, args.(selector := 2 * k), v)
  {
    SharedSeedOffsets(2 * k - 1, 2 * k);
    assert SeedOffset(2 * k - 1, true) == SeedOffset(2 * k, true);
  }

  /** The seed as an attribute value. */
  function SeedValue(s: seq<int>): (a: Value)
    ensures a.List? && |a.items| == |s|
    ensures forall i :: 0 <= i < |s| ==> a.items[i] == Int(s[i])
  {
    List(seq(|s|, i requires 0 <= i < |s| => Int(s[i])))
  }

  /** A constant uncertainty as a variable of `x`'s shape without attributes. */
  function ConstantVariable(x: Variable, c: real): (u: Variable)
    ensures |u.data| == |x.data| && u.attrs == map[] && u.dims == x.dims && u.coords == x.coords
    ensures forall i :: 0 <= i < |u.data| ==> u.data[i] == Finite(c)
  {
    x.(data := seq(|x.data|, i requires 0 <= i < |x.data| => Finite(c)), attrs := map[])
  }

  /** Decoding a constant uncertainty returns the constant. */
  lemma ConstantDecodesToItself(x: Variable, c: real)
    ensures Codec.NumericCodecAttrs(ConstantVariable(x, c).attrs)
    ensures Decoded(ConstantVariable(x, c)) == ConstantVariable(x, c).data
  {
    Codec.IdentityWithoutAttributes(map[], ConstantVariable(x, c).data);
  }

  /** `target[name]`, or a missing-variable error. */
  function Fetch(ds: Dataset, name: string): (r: Result<Variable, ScatterError>)
    ensures r.Success? <==> name in ds.vars
    ensures r.Success? ==> r.value == ds.vars[name]
    ensures r.Failure? ==> r.error == MissingVariable(name)
  {
    if name in ds.vars then Success(ds.vars[name]) else Failure(MissingVariable(name))
  }

  /** The loop of the "total" branch: adds, for each reference variable, its
      randomized (target) minus its original (source) decoded value. */
  function AddDifferences(z: seq<Float>, refs: seq<string>, source: Dataset, target: Dataset): (r: Result<seq<Float>, ScatterError>)
    requires WellFormed(source) && WellFormed(target)
    ensures r.Success? ==> |r.value| == |z|
    decreases |refs|
  {
    if refs == [] then Success(z)
    else
      var ref := refs[0];
      var a :- Fetch(target, ref);
      var b :- Fetch(source, ref);
      if |a.data| != |z| || |b.data| != |z| then Failure(ShapeMismatch(ref))
      else
        var da := Decoded(a);
        var db := Decoded(b);
        AddDifferences(seq(|z|, i requires 0 <= i < |z| => Add(z[i], Sub(da[i], db[i]))), refs[1..], source, target)
  }

  /** When no reference variable has been perturbed yet and all their decoded
      values are finite, the "total" branch returns the decoded value itself. */
  lemma {:induction false} UnperturbedTotalIsIdentity(z: seq<Float>, refs: seq<string>, source: Dataset, target: Dataset)
    requires WellFormed(source) && WellFormed(target)
    requires forall ref :: ref in refs ==> ref in source.vars && ref in target.vars
    requires forall ref :: ref in refs ==> target.vars[ref] == source.vars[ref] && |source.vars[ref].data| == |z|
    requires forall ref :: ref in refs ==> forall i :: 0 <= i < |z| ==> Decoded(source.vars[ref])[i].Finite?
    ensures AddDifferences(z, refs, source, target) == Success(z)
    decreases |refs|
  {
    if refs != [] {
      var ref := refs[0];
      var d := Decoded(source.vars[ref]);
      var z' := seq(|z|, i requires 0 <= i < |z| => Add(z[i], Sub(d[i], d[i])));
      forall i | 0 <= i < |z|
        ensures z'[i] == z[i]
      {
        assert Sub(d[i], d[i]) == Finite(0.0);
        if !z[i].NaN? {
          AddZero(z[i]);
        }
      }
      assert z' == z;
      assert forall r :: r in refs[1..] ==> r in refs;
      UnperturbedTotalIsIdentity(z, refs[1..], source, target);
    }
  }

  /** The common tail of `randomize`: the new values `z` encoded as `x` was,
      an `actual_range` attribute replaced by their range, and the seed
      recorded when there is one. */
  function Realized(x: Variable, z: seq<Float>, seed: Option<seq<int>>): (y: Variable)
    requires Codec.NumericCodecAttrs(x.attrs) && |z| == |x.data|
    ensures |y.data| == |x.data| && y.dims == x.dims && y.coords == x.coords
    ensures seed.None? ==> y.attrs.Keys == x.attrs.Keys
    ensures seed.Some? ==> y.attrs.Keys == x.attrs.Keys + {SeedKey} && y.attrs[SeedKey] == SeedValue(seed.value)
    ensures forall k :: k in x.attrs && k != AttrEdits.ActualRangeKey && (seed.Some? ==> k != SeedKey) ==>
              y.attrs[k] == x.attrs[k]
    ensures AttrEdits.ActualRangeKey in x.attrs ==> y.attrs[AttrEdits.ActualRangeKey] == AttrEdits.RangeAttr(z)
    ensures (forall k :: k in Codec.Keys ==> k !in x.attrs) ==> y.data == z
    ensures Codec.NumericCodecAttrs(y.attrs)
  {
    assert (forall k :: k in Codec.Keys ==> k !in x.attrs) ==> Codec.Encode(Codec.ParamsOf(x.attrs), z) == z by {
      if forall k :: k in Codec.Keys ==> k !in x.attrs {
        Codec.IdentityWithoutAttributes(x.attrs, z);
      }
    }
    var ranged := AttrEdits.SetRange(x.attrs, z);
    x.(data := Codec.Encode(Codec.ParamsOf(x.attrs), z),
       attrs := if seed.Some? then ranged[SeedKey := SeedValue(seed.value)] else ranged)
  }

  /** `randomize` for one variable `v` whose current data is `x`: the new
      variable, with the data encoded as `x` was, an `actual_range` attribute
      replaced by the range of the new values, and the seed recorded unless
      the branch was "total". */
  function RandomizeVariable(env: Env, args: Args, source: Dataset, target: Dataset,
                             v: string, x: Variable, c: VarConfig): (r: Result<Variable, ScatterError>)
    requires WellFormed(source) && WellFormed(target) && Codec.NumericCodecAttrs(x.attrs)
    ensures r.Success? ==> |r.value.data| == |x.data| && r.value.dims == x.dims && r.value.coords == x.coords
    ensures r.Success? && c.total.Some? ==> r.value.attrs.Keys == x.attrs.Keys
    ensures r.Success? && c.total.None? ==>
              r.value.attrs.Keys == x.attrs.Keys + {SeedKey}
              && r.value.attrs[SeedKey] == SeedValue(VariableSeed(env, args, v))
    ensures r.Success? ==> forall k :: k in x.attrs && k != AttrEdits.ActualRangeKey && (c.total.None? ==> k != SeedKey) ==>
              r.value.attrs[k] == x.attrs[k]
    ensures r.Success? && AttrEdits.ActualRangeKey in x.attrs ==>
              r.value.attrs[AttrEdits.ActualRangeKey].FloatArray? && |r.value.attrs[AttrEdits.ActualRangeKey].elems| == 2
    ensures r.Success? && AttrEdits.ActualRangeKey in x.attrs && (forall k :: k in Codec.Keys ==> k !in x.attrs) ==>
              r.value.attrs[AttrEdits.ActualRangeKey] == AttrEdits.RangeAttr(r.value.data)
    ensures r.Success? ==> Codec.NumericCodecAttrs(r.value.attrs)
    ensures c.total.None? && c.uncertainty.Some? && c.uncertainty.value.Constant? ==> r.Success?
  {
    var zx := Decoded(x);
    match BranchOf(c)
    case TotalBranch(refs) =>
      var z :- AddDifferences(zx, refs, source, target);
      var zc := if c.clip.Some? then seq(|z|, i requires 0 <= i < |z| => Clip(z[i], c.clip.value.lo, c.clip.value.hi)) else z;
      Success(Realized(x, zc, None))
    case UncertaintyBranch(unc) =>
      var s := VariableSeed(env, args, v);
      var alg := Randomize.Randomizer(c.distribution, s, args.antithetic);
      var u :- if unc.Named? then Fetch(target, unc.name) else Success(ConstantVariable(x, unc.value));
      if |u.data| != |x.data| then Failure(ShapeMismatch(v))
      else
        assert Codec.NumericCodecAttrs(u.attrs);
        var z := Randomize.RandomizeBlock(env.e, env.z, alg, [zx, Decoded(u)],
                                          Randomize.Options(c.coverage, c.relative, c.clip), env.blockId);
        Success(Realized(x, z, Some(s)))
    case RmsdBiasBranch =>
      var s := VariableSeed(env, args, v);
      var alg := Randomize.Randomizer(c.distribution, s, args.antithetic);
      var b :- Fetch(target, c.bias);
      var rm :- Fetch(target, c.rmsd);
      if |rm.data| != |x.data| || |b.data| != |x.data| then Failure(ShapeMismatch(v))
      else
        var z := Randomize.RandomizeBlock(env.e, env.z, alg, [zx, Decoded(rm), Decoded(b)],
                                          Randomize.Options(1.0, false, c.clip), env.blockId);
        Success(Realized(x, z, Some(s)))
  }

  /** An unknown distribution without clipping leaves a variable without
      codec attributes as it was, apart from the seed attribute, and its
      `actual_range` becomes the range of its own data. */
  lemma UnknownDistributionKeepsData(env: Env, args: Args, source: Dataset, target: Dataset,
                                     v: string, x: Variable, c: VarConfig)
    requires WellFormed(source) && WellFormed(target) && Codec.NumericCodecAttrs(x.attrs)
    requires forall k :: k in Codec.Keys ==> k !in x.attrs
    requires c.total.None? && Randomize.DistOf(c.distribution) == Randomize.Unknown && c.clip.None?
    ensures var r := RandomizeVariable(env, args, source, target, v, x, c);
            r.Success? ==> r.value.data == x.data
    ensures var r := RandomizeVariable(env, args, source, target, v, x, c);
            r.Success? && AttrEdits.ActualRangeKey in x.attrs ==>
              r.value.attrs[AttrEdits.ActualRangeKey] == AttrEdits.RangeAttr(x.data)
  {
    Codec.IdentityWithoutAttributes(x.attrs, x.data);
    var s := VariableSeed(env, args, v);
    var alg := Randomize.Randomizer(c.distribution, s, args.antithetic);
    var r := RandomizeVariable(env, args, source, target, v, x, c);
    if r.Success? {
      if c.uncertainty.Some? {
        var u := if c.uncertainty.value.Named? then target.vars[c.uncertainty.value.name]
                 else ConstantVariable(x, c.uncertainty.value.value);
        Randomize.UnknownDistributionIsNoOp(env.e, env.z, alg, [x.data, Decoded(u)], env.blockId,
                                            Randomize.Options(c.coverage, c.relative, c.clip));
      } else {
        Randomize.UnknownDistributionIsNoOp(env.e, env.z, alg,
                                            [x.data, Decoded(target.vars[c.rmsd]), Decoded(target.vars[c.bias])],
                                            env.blockId, Randomize.Options(1.0, false, c.clip));
      }
    }
  }

  /** Under antithetic sampling, selectors 2k-1 and 2k randomize a variable identically. */
  lemma AntitheticPairsCoincide(env: Env, args: Args, source: Dataset, target: Dataset,
                                v: string, x: Variable, c: VarConfig, k: int)
    requires WellFormed(source) && WellFormed(target) && Codec.NumericCodecAttrs(x.attrs)
    requires args.antithetic
    ensures RandomizeVariable(env, args.(selector := 2 * k - 1), source, target, v, x, c)
            == RandomizeVariable(env, args.(selector := 2 * k), source, target, v, x, c)
  {
    AntitheticPairsShareSeed(env, args, v, k);
  }

  /** The loop of `run` over the names still to visit. */
  function RunVars(env: Env, args: Args, cfg: map<string, VarConfig>, source: Dataset, target: Dataset,
                   names: seq<string>): (r: Result<Dataset, ScatterError>)
    requires WellFormed(source) && WellFormed(target)
    requires forall v :: v in names ==> v in target.vars
    ensures r.Success? ==> WellFormed(r.value)
    ensures r.Success? ==> r.value.names == target.names && r.value.attrs == target.attrs
    ensures r.Success? ==> r.value.vars.Keys == target.vars.Keys
    ensures r.Success? ==> forall w :: w in target.vars && !(w in names && w in cfg && args.selector != 0) ==>
                             r.value.vars[w] == target.vars[w]
    ensures args.selector == 0 ==> r == Success(target)
    decreases |names|
  {
    if names == [] then Success(target)
    else
      var v := names[0];
      assert forall w :: w in names[1..] ==> w in names;
      if v !in cfg || args.selector == 0 then RunVars(env, args, cfg, source, target, names[1..])
      else
        var y :- RandomizeVariable(env, args, source, target, v, target.vars[v], cfg[v]);
        ReplaceKeepsWellFormed(target, v, y);
        RunVars(env, args, cfg, source, target.(vars := target.vars[v := y]), names[1..])
  }

  /** `ScatterOp.run`: randomizes the configured variables of the source type
      in order and stamps the software name and version. */
  function Run(env: Env, args: Args, config: map<string, map<string, VarConfig>>, source: Dataset): (r: Result<Dataset, ScatterError>)
    requires WellFormed(source)
    ensures r.Success? ==> WellFormed(r.value) && r.value.names == source.names
    ensures r.Success? ==> r.value.vars.Keys == source.vars.Keys
    ensures r.Success? ==> SoftwareKey in r.value.attrs && VersionKey in r.value.attrs
    ensures r.Success? ==> r.value.attrs[SoftwareKey] == Str(SoftwareName) && r.value.attrs[VersionKey] == Str(SoftwareVersion)
    ensures r.Success? ==> forall k :: k in source.attrs && k != SoftwareKey && k != VersionKey ==>
                             k in r.value.attrs && r.value.attrs[k] == source.attrs[k]
    ensures r.Success? ==>
              forall v :: (v in source.vars &&
                           (args.sourceType !in config || v !in config[args.sourceType] || args.selector == 0)) ==>
                r.value.vars[v] == source.vars[v]
    ensures args.selector == 0 ==> r.Success? && r.value.vars == source.vars
  {
    var cfg := if args.sourceType in config then config[args.sourceType] else map[];
    var t :- RunVars(env, args, cfg, source, source, source.names);
    Success(t.(attrs := t.attrs[SoftwareKey := Str(SoftwareName)][VersionKey := Str(SoftwareVersion)]))
  }

  /** Under antithetic sampling, selectors 2k-1 and 2k (k >= 1) scatter a
      dataset identically. */
  lemma {:induction false} AntitheticRunsCoincide(env: Env, args: Args, cfg: map<string, VarConfig>,
                                                  source: Dataset, target: Dataset, names: seq<string>, k: int)
    requires WellFormed(source) && WellFormed(target)
    requires forall v :: v in names ==> v in target.vars
    requires args.antithetic && k >= 1
    ensures RunVars(env, args.(selector := 2 * k - 1), cfg, source, target, names)
            == RunVars(env, args.(selector := 2 * k), cfg, source, target, names)
    decreases |names|
  {
    if names != [] {
      var v := names[0];
      assert forall w :: w in names[1..] ==> w in names;
      if v in cfg {
        AntitheticPairsCoincide(env, args, source, target, v, target.vars[v], cfg[v], k);
        var r := RandomizeVariable(env, args.(selector := 2 * k), source, target, v, target.vars[v], cfg[v]);
        if r.Success? {
          AntitheticRunsCoincide(env, args, cfg, source, target.(vars := target.vars[v := r.value]), names[1..], k);
        }
      } else {
        AntitheticRunsCoincide(env, args, cfg, source, target, names[1..], k);
      }
    }
  }
}
