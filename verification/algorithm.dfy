/** The block-algorithm contract shared by every algorithm: element types and
    their no-data sentinels, the scheme of dask task names used for monitoring, the
    defaults of the overlapping variant, and the rank check and cast applied to
    every computed block. */
module Algorithm {
  import opened Wrappers
  import Strings

  /** NumPy element types. */
  datatype DType =
    | Int8 | Int16 | Int32 | Int64
    | UInt8 | UInt16 | UInt32 | UInt64
    | Float32 | Float64
  {
    predicate IsSignedInt() {
      Int8? || Int16? || Int32? || Int64?
    }

    function Bits(): nat {
      match this
      case Int8 | UInt8 => 8
      case Int16 | UInt16 => 16
      case Int32 | UInt32 | Float32 => 32
      case Int64 | UInt64 | Float64 => 64
    }
  }

  function Pow2(k: nat): (r: nat)
    ensures r >= 1
  {
    if k == 0 then 1 else 2 * Pow2(k - 1)
  }

  lemma {:induction false} Pow2Add(a: nat, b: nat)
    ensures Pow2(a + b) == Pow2(a) * Pow2(b)
    decreases a
  {
    if a > 0 {
      Pow2Add(a - 1, b);
    }
  }

  lemma Pow2Widths()
    ensures Pow2(7) == 0x80 && Pow2(15) == 0x8000
    ensures Pow2(31) == 0x8000_0000 && Pow2(63) == 0x8000_0000_0000_0000
  {
    assert Pow2(8) == 0x100;
    Pow2Add(8, 8);
    Pow2Add(15, 16);
    Pow2Add(16, 16);
    Pow2Add(31, 32);
  }

  /** The least value of a signed integer type (two's complement). */
  function MinOf(t: DType): int
    requires t.IsSignedInt()
  {
    -(Pow2(t.Bits() - 1) as int)
  }

  /** The greatest value of a signed integer type. */
  function MaxOf(t: DType): int
    requires t.IsSignedInt()
  {
    Pow2(t.Bits() - 1) - 1
  }

  lemma SignedRanges(t: DType)
    requires t.IsSignedInt()
    ensures t == Int8 ==> MinOf(t) == -0x80 && MaxOf(t) == 0x7F
    ensures t == Int16 ==> MinOf(t) == -0x8000 && MaxOf(t) == 0x7FFF
    ensures t == Int32 ==> MinOf(t) == -0x8000_0000 && MaxOf(t) == 0x7FFF_FFFF
    ensures t == Int64 ==> MinOf(t) == -0x8000_0000_0000_0000 && MaxOf(t) == 0x7FFF_FFFF_FFFF_FFFF
  {
    Pow2Widths();
  }

  /** What an algorithm uses for "no data" in its result type. */
  datatype Sentinel =
    | IntValue(i: int)
      /** NaN converted to the given type; for floating types this is NaN,
          for unsigned integer types it is NumPy's conversion of NaN. */
    | NaNOf(t: DType)

  /** `Algorithm.nan`: one above the minimum for signed integer types, which
      have no NaN, and NaN otherwise. */
  function Nan(t: DType): (r: Sentinel)
    ensures r.IntValue? <==> t.IsSignedInt()
    ensures t.IsSignedInt() ==> r.i == MinOf(t) + 1 && r.i == -MaxOf(t)
    ensures !t.IsSignedInt() ==> r == NaNOf(t)
  {
    if t.IsSignedInt() then SignedRanges(t); NanLiteral(t) else NaNOf(t)
  }

  /** The literals `Algorithm.nan` returns for the signed integer types. */
  function NanLiteral(t: DType): Sentinel
    requires t.IsSignedInt()
  {
    match t
    case Int8 => IntValue(-127)
    case Int16 => IntValue(-32767)
    case Int32 => IntValue(-2147483647)
    case Int64 => IntValue(-9223372036854775807)
  }

  /** `Algorithm.category`. */
  const Category: string := "kaleidoscope"

  /** The dask task name of an algorithm, `f"{category}-{name}"`. */
  function TaskName(name: string): (r: string)
    ensures Strings.StartsWith(r, Category)
    ensures |r| == |Category| + 1 + |name|
    ensures r[|Category|] == '-' && r[|Category| + 1..] == name
  {
    Category + "-" + name
  }

  /** How `map_overlap` extends an array beyond its edges. */
  datatype Boundary =
    | Constant(value: real)
    | NoBoundary            // the string "none"
    | Fill(sentinel: Sentinel)

  /** The halo depth: one count for every axis, or one per axis. */
  datatype Overlaps = Uniform(depth: nat) | PerAxis(depths: map<nat, nat>)

  /** The configuration an `OverlapAlgorithm` hands to `map_overlap`. */
  datatype OverlapAlgorithm = OverlapAlgorithm(
    dtype: DType, m: nat, n: nat,
    overlaps: Overlaps,
    boundary: Boundary,
    trim: bool,
    alignArrays: bool,
    allowRechunk: bool)

  /** `OverlapAlgorithm.__init__`; `boundary == None` means the type's sentinel. */
  function NewOverlapAlgorithm(dtype: DType, m: nat, n: nat, overlaps: Overlaps,
                               boundary: Option<Boundary>, trim: bool): (a: OverlapAlgorithm)
    ensures a.dtype == dtype && a.m == m && a.n == n
    ensures a.overlaps == overlaps && a.trim == trim
    ensures boundary.None? ==> a.boundary == Fill(Nan(dtype))
    ensures boundary.Some? ==> a.boundary == boundary.value
    ensures a.alignArrays && !a.allowRechunk
  {
    OverlapAlgorithm(dtype, m, n, overlaps,
                     if boundary.None? then Fill(Nan(dtype)) else boundary.value,
                     trim, true, false)
  }

  /** The constructor with every optional argument left at its default. */
  function DefaultOverlapAlgorithm(dtype: DType): (a: OverlapAlgorithm)
    ensures a.m == 2 && a.n == 2
    ensures a.overlaps == Uniform(0)
    ensures a.boundary == Fill(Nan(dtype))
    ensures a.trim && a.alignArrays && !a.allowRechunk
  {
    NewOverlapAlgorithm(dtype, 2, 2, Uniform(0), None, true)
  }

  /** A block: its shape and its elements in row-major order. */
  datatype NdArray<T> = NdArray(shape: seq<nat>, data: seq<T>) {
    function Rank(): nat { |shape| }
  }

  /** The `AssertionError` raised on a block of the wrong rank. */
  datatype BlockError = InvalidDimension(name: string, actual: nat, expected: nat)

  /** `compute_block_typed` (of both `BlockAlgorithm` and `OverlapAlgorithm`):
      the block computed by `compute_block` must have rank `n`; it is then cast
      element by element to the result type. */
  function ComputeBlockTyped<T, U>(name: string, n: nat, cast: T -> U,
                                   result: NdArray<T>): (r: Result<NdArray<U>, BlockError>)
    ensures r.Success? <==> result.Rank() == n
    ensures r.Failure? ==> r.error == InvalidDimension(name, result.Rank(), n)
    ensures r.Success? ==>
              && r.value.shape == result.shape
              && |r.value.data| == |result.data|
              && forall i :: 0 <= i < |result.data| ==> r.value.data[i] == cast(result.data[i])
  {
    if result.Rank() != n then Failure(InvalidDimension(name, result.Rank(), n))
    else Success(NdArray(result.shape, seq(|result.data|, i requires 0 <= i < |result.data| => cast(result.data[i]))))
  }
}
