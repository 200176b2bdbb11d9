/** The algorithm that randomizes data: per block, a seed is derived from the
    block's position and the root seed, standard normal deviates are drawn
    from it, and the data are perturbed according to the configured
    measurement-error distribution. Randomization never introduces missing
    data: wherever the perturbed value is not finite, the original value is
    kept. */
module Randomize {
  import opened Wrappers
  import opened Floats
  import Generators

  /** NumPy's `exp`, `log` and `sqrt`, applied element by element. */
  datatype Elementary = Elementary(exp: Float -> Float, log: Float -> Float, sqrt: Float -> Float)

  /** The few laws of `exp`, `log` and `sqrt` the proofs below rely on. */
  ghost predicate Lawful(e: Elementary) {
    && e.exp(NaN) == NaN && e.log(NaN) == NaN && e.sqrt(NaN) == NaN
    && e.exp(Finite(0.0)) == Finite(1.0)
    && e.log(Finite(1.0)) == Finite(0.0)
    && e.log(Finite(10.0)).Finite?
    && e.sqrt(Finite(0.0)) == Finite(0.0)
    && (forall r: real :: r < 0.0 ==> e.sqrt(Finite(r)) == NaN)
    && (forall r: real :: r > 0.0 ==> e.exp(e.log(Finite(r))) == Finite(r))
  }

  /** The measurement-error distributions, chosen by name. */
  datatype Dist = Normal | Lognormal | Chlorophyll | Unknown

  function DistOf(name: string): (d: Dist)
    ensures d == Normal <==> name == "normal"
    ensures d == Lognormal <==> name == "lognormal"
    ensures d == Chlorophyll <==> name == "chlorophyll"
  {
    match name
    case "normal" => Normal
    case "lognormal" => Lognormal
    case "chlorophyll" => Chlorophyll
    case _ => Unknown
  }

  /** Where to clip randomized values; either bound may be absent. */
  datatype ClipBounds = ClipBounds(lo: Option<real>, hi: Option<real>)

  /** The keyword arguments of `randomize`. */
  datatype Options = Options(coverage: real, relative: bool, clip: Option<ClipBounds>)

  const DefaultOptions: Options := Options(1.0, false, None)

  /** A `Randomize` instance: distribution name, root seed and antithetic flag. */
  datatype Randomizer = Randomizer(dist: string, rootSeed: seq<int>, antithetic: bool)

  /** `block_seed`: the block coordinates followed by the root seed. */
  function BlockSeed(blockId: seq<nat>, rootSeed: seq<int>): (s: seq<int>)
    ensures |s| == |blockId| + |rootSeed|
    ensures s[..|blockId|] == blockId && s[|blockId|..] == rootSeed
  {
    blockId + rootSeed
  }

  /** Blocks at distinct positions of one array get distinct seeds. */
  lemma BlockSeedsDistinct(a: seq<nat>, b: seq<nat>, rootSeed: seq<int>)
    requires |a| == |b| && a != b
    ensures BlockSeed(a, rootSeed) != BlockSeed(b, rootSeed)
  {
    assert BlockSeed(a, rootSeed)[..|a|] == a;
    assert BlockSeed(b, rootSeed)[..|b|] == b;
  }

  /** The standard normal deviates of a block of `n` elements. */
  function Draws(z: Generators.NormalStream, alg: Randomizer, seed: seq<int>, n: nat): (ds: seq<real>)
    ensures |ds| == n
  {
    Generators.NormalRandoms(z, Generators.FromSeed(Generators.SeedSequence(seed)), alg.antithetic, n)
  }

  /** `_normal` on one element: `x + u * d`. */
  function NormalValue(x: Float, u: Float, d: real): Float {
    Add(x, Mul(u, Finite(d)))
  }

  /** `_lognormal` on one element. */
  function LognormalValue(e: Elementary, x: Float, u: Float, d: real): Float {
    var v := e.log(Add(Finite(1.0), Square(Div(u, x))));
    var m := Sub(e.log(x), Mul(Finite(0.5), v));
    e.exp(NormalValue(m, e.sqrt(v), d))
  }

  /** `_chlorophyll` on one element: a relative log10 uncertainty turned into
      an absolute one, then `_lognormal`. */
  function ChlorophyllValue(e: Elementary, x: Float, u: Float, d: real): Float {
    var ln10 := e.log(Finite(10.0));
    LognormalValue(e, x, Mul(x, e.sqrt(Sub(e.exp(Square(Mul(ln10, u))), Finite(1.0)))), d)
  }

  /** The dispatch on the distribution; an unknown name leaves `x` as it is. */
  function Sample(e: Elementary, dist: Dist, x: Float, u: Float, d: real): (y: Float)
    ensures dist == Unknown ==> y == x
  {
    match dist
    case Normal => NormalValue(x, u, d)
    case Lognormal => LognormalValue(e, x, u, d)
    case Chlorophyll => ChlorophyllValue(e, x, u, d)
    case Unknown => x
  }

  /** The inputs of one block: the values and either their uncertainty or
      their RMSD and bias (a fourth or later input is ignored). */
  predicate WellShaped(data: seq<seq<Float>>) {
    2 <= |data| && forall k :: 0 <= k < |data| ==> |data[k]| == |data[0]|
  }

  /** The uncertainty used at element `i`: the second input, or
      `sqrt(rmsd^2 - bias^2)`; then divided by the coverage factor unless that
      is 1, then multiplied by the value when it is relative. */
  function EffectiveUncertainty(e: Elementary, data: seq<seq<Float>>, i: nat, opts: Options): (u: Float)
    requires WellShaped(data) && i < |data[0]|
    ensures |data| == 2 && data[1][i].Finite? && data[0][i].Finite? && opts.coverage != 0.0 ==>
              u == Finite(if opts.relative then data[1][i].value / opts.coverage * data[0][i].value
                          else data[1][i].value / opts.coverage)
    ensures 3 <= |data| && data[1][i].Finite? && data[2][i].Finite? && opts.coverage != 0.0
            && (opts.relative ==> data[0][i].Finite?) ==>
              var s := e.sqrt(Finite(data[1][i].value * data[1][i].value - data[2][i].value * data[2][i].value));
              s.Finite? ==>
                u == Finite(if opts.relative then s.value / opts.coverage * data[0][i].value
                            else s.value / opts.coverage)
  {
    var u0 := if |data| == 2 then data[1][i] else e.sqrt(Sub(Square(data[1][i]), Square(data[2][i])));
    var u1 := if opts.coverage != 1.0 then Div(u0, Finite(opts.coverage)) else u0;
    if opts.relative then Mul(u1, data[0][i]) else u1
  }

  /** A square root that is exact on the non-negative reals. */
  ghost predicate ExactSqrt(sqrt: Float -> Float) {
    forall r: real :: r >= 0.0 ==>
      sqrt(Finite(r)).Finite? && sqrt(Finite(r)).value >= 0.0 && sqrt(Finite(r)).value * sqrt(Finite(r)).value == r
  }

  /** The uncertainty `u`, scaled back by the coverage factor `c`, and a bias
      whose square is `bias2` add up in quadrature to an RMSD whose square is
      `rmsd2`. */
  predicate InQuadrature(u: Float, c: real, rmsd2: real, bias2: real) {
    u.Finite? && u.value >= 0.0 && (u.value * c) * (u.value * c) + bias2 == rmsd2
  }

  /** With an RMSD and a bias, the uncertainty is the part of the RMSD the
      bias does not explain. */
  lemma RmsdBiasInQuadrature(e: Elementary, data: seq<seq<Float>>, i: nat, opts: Options)
    requires ExactSqrt(e.sqrt) && WellShaped(data) && 3 <= |data| && i < |data[0]|
    requires data[1][i].Finite? && data[2][i].Finite?
    requires data[2][i].value * data[2][i].value <= data[1][i].value * data[1][i].value
    requires opts.coverage > 0.0 && !opts.relative
    ensures InQuadrature(EffectiveUncertainty(e, data, i, opts), opts.coverage,
                         data[1][i].value * data[1][i].value, data[2][i].value * data[2][i].value)
  {
    var s := RmsdBiasValue(e, data, i, opts);
    ScaledQuadrature(s, opts.coverage, data[1][i].value * data[1][i].value, data[2][i].value * data[2][i].value);
  }

  lemma RmsdBiasValue(e: Elementary, data: seq<seq<Float>>, i: nat, opts: Options) returns (s: real)
    requires ExactSqrt(e.sqrt) && WellShaped(data) && 3 <= |data| && i < |data[0]|
    requires data[1][i].Finite? && data[2][i].Finite?
    requires data[2][i].value * data[2][i].value <= data[1][i].value * data[1][i].value
    requires opts.coverage > 0.0 && !opts.relative
    ensures s >= 0.0 && s * s == data[1][i].value * data[1][i].value - data[2][i].value * data[2][i].value
    ensures EffectiveUncertainty(e, data, i, opts) == Finite(s / opts.coverage)
  {
    s := SqrtFacts(e, data[1][i].value * data[1][i].value - data[2][i].value * data[2][i].value);
  }

  lemma SqrtFacts(e: Elementary, v: real) returns (s: real)
    requires ExactSqrt(e.sqrt) && v >= 0.0
    ensures e.sqrt(Finite(v)) == Finite(s) && s >= 0.0 && s * s == v
  {
    s := e.sqrt(Finite(v)).value;
  }

  lemma ScaledQuadrature(s: real, c: real, r2: real, b2: real)
    requires s >= 0.0 && c > 0.0 && s * s == r2 - b2
    ensures InQuadrature(Finite(s / c), c, r2, b2)
  {
    assert s / c * c == s;
  }

  /** Clipping and the fall-back to the original value. */
  function Finish(y: Float, x: Float, clip: Option<ClipBounds>): (r: Float)
    ensures r.Finite? || r == x
    ensures x.Finite? ==> r.Finite?
    ensures clip.Some? && clip.value.lo.Some? && clip.value.hi.Some? && clip.value.lo.value <= clip.value.hi.value ==>
              r == x || (r.Finite? && clip.value.lo.value <= r.value <= clip.value.hi.value)
  {
    var c := if clip.Some? then Clip(y, clip.value.lo, clip.value.hi) else y;
    if c.Finite? then c else x
  }

  /** `Randomize.randomize` on one block, given the block's coordinates. */
  function RandomizeBlock(e: Elementary, z: Generators.NormalStream, alg: Randomizer,
                          data: seq<seq<Float>>, opts: Options, blockId: seq<nat>): (ys: seq<Float>)
    requires WellShaped(data)
    ensures |ys| == |data[0]|
    ensures forall i :: 0 <= i < |ys| ==> ys[i].Finite? || ys[i] == data[0][i]
    ensures forall i :: 0 <= i < |ys| ==> data[0][i].Finite? ==> ys[i].Finite?
    ensures opts.clip.Some? && opts.clip.value.lo.Some? && opts.clip.value.hi.Some?
            && opts.clip.value.lo.value <= opts.clip.value.hi.value ==>
              forall i :: 0 <= i < |ys| ==>
                ys[i] == data[0][i] || opts.clip.value.lo.value <= ys[i].value <= opts.clip.value.hi.value
  {
    var n := |data[0]|;
    var ds := Draws(z, alg, BlockSeed(blockId, alg.rootSeed), n);
    seq(n, i requires 0 <= i < n =>
      Finish(Sample(e, DistOf(alg.dist), data[0][i], EffectiveUncertainty(e, data, i, opts), ds[i]),
             data[0][i], opts.clip))
  }

  /** The value a block element takes, spelled out through its deviate. */
  lemma RandomizeBlockAt(e: Elementary, z: Generators.NormalStream, alg: Randomizer,
                         data: seq<seq<Float>>, opts: Options, blockId: seq<nat>, i: nat)
    requires WellShaped(data) && i < |data[0]|
    ensures RandomizeBlock(e, z, alg, data, opts, blockId)[i]
            == Finish(Sample(e, DistOf(alg.dist), data[0][i], EffectiveUncertainty(e, data, i, opts),
                             Draws(z, alg, BlockSeed(blockId, alg.rootSeed), |data[0]|)[i]),
                      data[0][i], opts.clip)
  {
  }

  /** An unknown distribution name without clipping returns the values unchanged. */
  lemma UnknownDistributionIsNoOp(e: Elementary, z: Generators.NormalStream, alg: Randomizer,
                                  data: seq<seq<Float>>, blockId: seq<nat>, opts: Options)
    requires WellShaped(data) && DistOf(alg.dist) == Unknown && opts.clip.None?
    ensures RandomizeBlock(e, z, alg, data, opts, blockId) == data[0]
  {
  }

  /** Normal errors on finite inputs: `x + u * z` exactly, where `z` is the
      (possibly negated) deviate of the element. */
  lemma NormalPerturbation(e: Elementary, z: Generators.NormalStream, alg: Randomizer,
                           data: seq<seq<Float>>, blockId: seq<nat>, i: nat)
    requires WellShaped(data) && i < |data[0]| && alg.dist == "normal"
    requires data[0][i].Finite? && EffectiveUncertainty(e, data, i, DefaultOptions).Finite?
    ensures RandomizeBlock(e, z, alg, data, DefaultOptions, blockId)[i]
            == Finite(data[0][i].value + EffectiveUncertainty(e, data, i, DefaultOptions).value
                      * Generators.ConditionalNegate(z(Generators.Pcg64Dxsm(Generators.SeedSequence(BlockSeed(blockId, alg.rootSeed))), i),
                                                     alg.antithetic))
  {
    RandomizeBlockAt(e, z, alg, data, DefaultOptions, blockId, i);
    var seed := BlockSeed(blockId, alg.rootSeed);
    var d := Generators.ConditionalNegate(z(Generators.Pcg64Dxsm(Generators.SeedSequence(seed)), i), alg.antithetic);
    assert Draws(z, alg, seed, |data[0]|)[i] == d;
    var u := EffectiveUncertainty(e, data, i, DefaultOptions);
    assert Sample(e, Normal, data[0][i], u, d) == Finite(data[0][i].value + u.value * d);
  }

  /** Antithetic and plain normal realizations of the same seed mirror each
      other around the original value. */
  lemma AntitheticMirror(e: Elementary, z: Generators.NormalStream, dist: string, rootSeed: seq<int>,
                         data: seq<seq<Float>>, blockId: seq<nat>, i: nat)
    requires WellShaped(data) && i < |data[0]| && dist == "normal"
    requires data[0][i].Finite? && EffectiveUncertainty(e, data, i, DefaultOptions).Finite?
    ensures RandomizeBlock(e, z, Randomizer(dist, rootSeed, false), data, DefaultOptions, blockId)[i].value
            + RandomizeBlock(e, z, Randomizer(dist, rootSeed, true), data, DefaultOptions, blockId)[i].value
            == 2.0 * data[0][i].value
  {
    NormalPerturbation(e, z, Randomizer(dist, rootSeed, false), data, blockId, i);
    NormalPerturbation(e, z, Randomizer(dist, rootSeed, true), data, blockId, i);
  }

  /** With lawful elementary functions, a zero uncertainty leaves a positive
      finite value unchanged under every known distribution. */
  lemma ZeroUncertaintyIsIdentity(e: Elementary, dist: Dist, x: Float, d: real)
    requires Lawful(e) && dist != Unknown
    requires x.Finite? && x.value > 0.0
    ensures Sample(e, dist, x, Finite(0.0), d) == x
  {
    match dist
    case Normal =>
      assert Mul(Finite(0.0), Finite(d)) == Finite(0.0);
    case Lognormal =>
      LognormalZero(e, x, d);
    case Chlorophyll =>
      ChlorophyllZero(e, x, d);
      LognormalZero(e, x, d);
  }

  /** A zero uncertainty stays zero through the log10 conversion of `_chlorophyll`. */
  lemma ChlorophyllZero(e: Elementary, x: Float, d: real)
    requires Lawful(e) && x.Finite? && x.value > 0.0
    ensures ChlorophyllValue(e, x, Finite(0.0), d) == LognormalValue(e, x, Finite(0.0), d)
  {
    var ln10 := e.log(Finite(10.0));
    assert Mul(ln10, Finite(0.0)) == Finite(0.0);
    assert e.exp(Square(Finite(0.0))) == Finite(1.0);
    assert Mul(x, e.sqrt(Sub(Finite(1.0), Finite(1.0)))) == Finite(0.0);
  }

  lemma LognormalZero(e: Elementary, x: Float, d: real)
    requires Lawful(e) && x.Finite? && x.value > 0.0
    ensures LognormalValue(e, x, Finite(0.0), d) == x
  {
    var v := e.log(Add(Finite(1.0), Square(Div(Finite(0.0), x))));
    ZeroVariance(e, x);
    var lx := e.log(x);
    LogIsNotNaN(e, x);
    AddZero(lx);
    ZeroSpread(e, d);
    assert Sub(lx, Mul(Finite(0.5), v)) == lx;
    assert NormalValue(lx, e.sqrt(v), d) == lx;
  }

  lemma ZeroVariance(e: Elementary, x: Float)
    requires Lawful(e) && x.Finite? && x.value > 0.0
    ensures e.log(Add(Finite(1.0), Square(Div(Finite(0.0), x)))) == Finite(0.0)
    ensures Mul(Finite(0.5), Finite(0.0)) == Finite(0.0)
  {
    assert Div(Finite(0.0), x) == Finite(0.0);
    assert Add(Finite(1.0), Square(Finite(0.0))) == Finite(1.0);
  }

  lemma LogIsNotNaN(e: Elementary, x: Float)
    requires Lawful(e) && x.Finite? && x.value > 0.0
    ensures !e.log(x).NaN? && e.exp(e.log(x)) == x
  {
    assert x == Finite(x.value);
    assert e.exp(e.log(x)) == x;
    assert e.exp(NaN) == NaN;
  }

  lemma ZeroSpread(e: Elementary, d: real)
    requires Lawful(e)
    ensures Mul(e.sqrt(Finite(0.0)), Finite(d)) == Finite(0.0)
  {
  }

  /** A missing uncertainty makes every known distribution's value missing. */
  lemma MissingUncertaintyPropagates(e: Elementary, dist: Dist, x: Float, d: real)
    requires Lawful(e) && dist != Unknown
    ensures Sample(e, dist, x, NaN, d).NaN?
  {
    var ln10 := e.log(Finite(10.0));
    assert e.exp(Square(Mul(ln10, NaN))) == NaN;
    assert e.sqrt(Sub(NaN, Finite(1.0))) == NaN;
    assert e.log(Add(Finite(1.0), Square(Div(NaN, x)))) == NaN;
    assert e.sqrt(NaN) == NaN;
  }

  /** Where the RMSD is smaller than the bias in magnitude, the uncertainty is
      not a number and the element keeps its original value, clipped or not. */
  lemma DegenerateUncertaintyFallsBack(e: Elementary, z: Generators.NormalStream, alg: Randomizer,
                                       data: seq<seq<Float>>, opts: Options, blockId: seq<nat>, i: nat)
    requires Lawful(e) && WellShaped(data) && 3 <= |data| && i < |data[0]|
    requires DistOf(alg.dist) != Unknown
    requires data[1][i].Finite? && data[2][i].Finite?
    requires data[1][i].value * data[1][i].value < data[2][i].value * data[2][i].value
    ensures RandomizeBlock(e, z, alg, data, opts, blockId)[i] == data[0][i]
  {
    NegativeVarianceIsNaN(e, data[1][i], data[2][i]);
    var u := EffectiveUncertainty(e, data, i, opts);
    assert u.NaN?;
    var ds := Draws(z, alg, BlockSeed(blockId, alg.rootSeed), |data[0]|);
    MissingUncertaintyPropagates(e, DistOf(alg.dist), data[0][i], ds[i]);
    RandomizeBlockAt(e, z, alg, data, opts, blockId, i);
  }

  lemma NegativeVarianceIsNaN(e: Elementary, rmsd: Float, bias: Float)
    requires Lawful(e) && rmsd.Finite? && bias.Finite?
    requires rmsd.value * rmsd.value < bias.value * bias.value
    ensures e.sqrt(Sub(Square(rmsd), Square(bias))) == NaN
  {
    var v := SquareDifference(rmsd, bias);
    assert e.sqrt(Finite(v)) == NaN;
  }

  /** The difference of the squares of two finite values, as a real. */
  lemma SquareDifference(a: Float, b: Float) returns (v: real)
    requires a.Finite? && b.Finite?
    ensures Sub(Square(a), Square(b)) == Finite(v) && v == a.value * a.value - b.value * b.value
  {
    v := a.value * a.value - b.value * b.value;
  }

  /** Each output element depends only on the inputs at the same position. */
  lemma ElementwiseLocality(e: Elementary, z: Generators.NormalStream, alg: Randomizer,
                            data: seq<seq<Float>>, data': seq<seq<Float>>, opts: Options, blockId: seq<nat>, i: nat)
    requires WellShaped(data) && WellShaped(data') && |data| == |data'| && |data[0]| == |data'[0]|
    requires i < |data[0]| && forall k :: 0 <= k < |data| ==> data[k][i] == data'[k][i]
    ensures RandomizeBlock(e, z, alg, data, opts, blockId)[i] == RandomizeBlock(e, z, alg, data', opts, blockId)[i]
  {
    RandomizeBlockAt(e, z, alg, data, opts, blockId, i);
    RandomizeBlockAt(e, z, alg, data', opts, blockId, i);
    assert EffectiveUncertainty(e, data, i, opts) == EffectiveUncertainty(e, data', i, opts);
  }
}
