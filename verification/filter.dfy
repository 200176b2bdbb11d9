/** Lateral low-pass filters (Gaussian, median, uniform) that do not
    propagate missing values: the kernel is applied to the data with missing
    values set to zero and to the validity weights, the first result is
    divided by the second, and missing input positions are returned as they
    were. The kernels themselves are abstract. */
module Filter {
  import opened Floats
  import Strings
  import Stats

  /** How a kernel extends the data beyond the edges. */
  datatype Mode = ConstantMode | WrapMode

  /** The three filters with their keyword arguments. */
  datatype Kind = Gaussian(fwhm: real) | Median(size: int, mode: Mode) | Uniform(size: int)

  /** The per-dimension arguments handed to the kernel. */
  datatype KernelParams =
    | GaussianParams(sigma: seq<real>, modes: seq<Mode>)
    | MedianParams(sizes: seq<int>, mode: Mode)
    | UniformParams(sizes: seq<int>, modes: seq<Mode>)

  /** A kernel applied to a flattened block. */
  type Kernel = (KernelParams, seq<Float>) -> seq<Float>

  /** A kernel returns a block of the shape it was given. */
  ghost predicate ShapePreserving(k: Kernel) {
    forall p, xs :: |k(p, xs)| == |xs|
  }

  const GaussianDefaultFwhm: real := 1.0
  const DefaultSize: int := 3
  const DefaultMode: Mode := ConstantMode
  /** The ratio of the full width at half maximum to the standard deviation of a Gaussian. */
  const FwhmPerSigma: real := 2.35482

  /** Latitude and longitude dimensions are the lateral ones. */
  predicate IsLateral(dim: string) {
    Strings.StartsWith(dim, "lat") || Strings.StartsWith(dim, "lon")
  }

  predicate IsLongitude(dim: string) {
    Strings.StartsWith(dim, "lon")
  }

  /** The Gaussian's standard deviation per dimension. */
  function Sigma(dims: seq<string>, fwhm: real): (r: seq<real>)
    ensures |r| == |dims|
    ensures forall i :: 0 <= i < |dims| ==> IsLateral(dims[i]) ==> r[i] * FwhmPerSigma == fwhm
    ensures forall i :: 0 <= i < |dims| ==> !IsLateral(dims[i]) ==> r[i] == 0.0
  {
    seq(|dims|, i requires 0 <= i < |dims| => if IsLateral(dims[i]) then fwhm / FwhmPerSigma else 0.0)
  }

  /** The kernel size per dimension: `size` laterally, 1 elsewhere. */
  function Sizes(dims: seq<string>, size: int): (r: seq<int>)
    ensures |r| == |dims|
    ensures forall i :: 0 <= i < |dims| ==> r[i] == if IsLateral(dims[i]) then size else 1
  {
    seq(|dims|, i requires 0 <= i < |dims| => if IsLateral(dims[i]) then size else 1)
  }

  /** The edge mode per dimension: wrapping around in longitude. */
  function Modes(dims: seq<string>): (r: seq<Mode>)
    ensures |r| == |dims|
    ensures forall i :: 0 <= i < |dims| ==> (r[i] == WrapMode <==> IsLongitude(dims[i]))
  {
    seq(|dims|, i requires 0 <= i < |dims| => if IsLongitude(dims[i]) then WrapMode else ConstantMode)
  }

  /** The kernel arguments of a filter for the given dimensions. */
  function ParamsFor(kind: Kind, dims: seq<string>): (p: KernelParams)
    ensures kind.Gaussian? <==> p.GaussianParams?
    ensures kind.Median? <==> p.MedianParams?
    ensures kind.Median? ==> p.mode == kind.mode && p.sizes == Sizes(dims, kind.size)
    ensures kind.Uniform? ==> p.sizes == Sizes(dims, kind.size) && p.modes == Modes(dims)
    ensures kind.Gaussian? ==> p.sigma == Sigma(dims, kind.fwhm) && p.modes == Modes(dims)
  {
    match kind
    case Gaussian(fwhm) => GaussianParams(Sigma(dims, fwhm), Modes(dims))
    case Median(size, mode) => MedianParams(Sizes(dims, size), mode)
    case Uniform(size) => UniformParams(Sizes(dims, size), Modes(dims))
  }

  /** The name of a filter. */
  function Name(kind: Kind): string {
    match kind
    case Gaussian(_) => "gaussian_filter"
    case Median(_, _) => "median_filter"
    case Uniform(_) => "uniform_filter"
  }

  /** The validity weights: zero where the data are missing, one elsewhere. */
  function Weights(data: seq<Float>): (w: seq<Float>)
    ensures |w| == |data|
    ensures forall i :: 0 <= i < |data| ==> w[i] == Finite(if data[i].NaN? then 0.0 else 1.0)
  {
    seq(|data|, i requires 0 <= i < |data| => Finite(if data[i].NaN? then 0.0 else 1.0))
  }

  /** `apply_to` of a filter on a block with the given dimension names. */
  function Apply(k: Kernel, kind: Kind, dims: seq<string>, data: seq<Float>): (r: seq<Float>)
    requires ShapePreserving(k)
    ensures |r| == |data|
    ensures forall i :: 0 <= i < |data| ==> data[i].NaN? ==> r[i].NaN?
    ensures forall i :: 0 <= i < |data| ==> !data[i].NaN? ==>
              r[i] == Div(k(ParamsFor(kind, dims), Stats.ReplaceNaN(data))[i], k(ParamsFor(kind, dims), Weights(data))[i])
  {
    var p := ParamsFor(kind, dims);
    var v := k(p, Stats.ReplaceNaN(data));
    var w := k(p, Weights(data));
    seq(|data|, i requires 0 <= i < |data| => if data[i].NaN? then data[i] else Div(v[i], w[i]))
  }

  /** A kernel that changes nothing (a unit size or a zero sigma) returns the data. */
  lemma IdentityKernelKeepsData(k: Kernel, kind: Kind, dims: seq<string>, data: seq<Float>)
    requires ShapePreserving(k)
    requires forall xs :: k(ParamsFor(kind, dims), xs) == xs
    ensures Apply(k, kind, dims, data) == data
  {
    var p := ParamsFor(kind, dims);
    assert k(p, Stats.ReplaceNaN(data)) == Stats.ReplaceNaN(data);
    assert k(p, Weights(data)) == Weights(data);
    forall i | 0 <= i < |data|
      ensures Apply(k, kind, dims, data)[i] == data[i]
    {
      if !data[i].NaN? {
        assert Div(data[i], Finite(1.0)) == data[i];
      }
    }
  }

  /** On data without missing values, a kernel that maps constant ones to
      ones yields exactly the kernel applied to the data. */
  lemma NormalizedKernelWithoutGaps(k: Kernel, kind: Kind, dims: seq<string>, data: seq<Float>)
    requires ShapePreserving(k)
    requires forall i :: 0 <= i < |data| ==> !data[i].NaN?
    requires k(ParamsFor(kind, dims), Weights(data)) == Weights(data)
    ensures Apply(k, kind, dims, data) == k(ParamsFor(kind, dims), data)
  {
    var p := ParamsFor(kind, dims);
    assert Stats.ReplaceNaN(data) == data;
    forall i | 0 <= i < |data|
      ensures Apply(k, kind, dims, data)[i] == k(p, data)[i]
    {
      assert Weights(data)[i] == Finite(1.0);
      assert Div(k(p, data)[i], Finite(1.0)) == k(p, data)[i];
    }
  }

  /** Median and uniform filters do nothing along non-lateral dimensions, and
      the Gaussian does not smooth along them. */
  lemma NonLateralDimensionsAreUntouched(dims: seq<string>, fwhm: real, size: int, i: nat)
    requires i < |dims| && !IsLateral(dims[i])
    ensures Sigma(dims, fwhm)[i] == 0.0 && Sizes(dims, size)[i] == 1 && Modes(dims)[i] == ConstantMode
  {
  }
}
