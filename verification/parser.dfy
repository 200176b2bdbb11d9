/** The integer argument converter of the command line parser. */
module Parser {
  import opened Wrappers
  import Strings

  /** `Parser.IntType` with its optional inclusive bounds. */
  datatype IntType = IntType(min: Option<int>, max: Option<int>)

  datatype ConversionError =
    | ValueError   // not an integer literal
    | TypeError    // outside the bounds

  predicate InBounds(t: IntType, i: int) {
    (t.min.None? || t.min.value <= i) && (t.max.None? || i <= t.max.value)
  }

  /** `IntType.__call__`. */
  function Convert(t: IntType, arg: string): (r: Result<int, ConversionError>)
    ensures r == Failure(ValueError) <==> Strings.ParseInt(arg).None?
    ensures r.Success? <==> Strings.ParseInt(arg).Some? && InBounds(t, Strings.ParseInt(arg).value)
    ensures r.Success? ==> Strings.ParseInt(arg) == Some(r.value)
  {
    match Strings.ParseInt(arg)
    case None => Failure(ValueError)
    case Some(i) =>
      if t.min.Some? && i < t.min.value then Failure(TypeError)
      else if t.max.Some? && i > t.max.value then Failure(TypeError)
      else Success(i)
  }

  /** Converting a formatted integer gives it back exactly when it is within
      the inclusive bounds, and a type error otherwise. */
  lemma ConvertFormatted(t: IntType, i: int)
    ensures Convert(t, Strings.IntToString(i)) == if InBounds(t, i) then Success(i) else Failure(TypeError)
  {
    Strings.ParseFormattedInt(i);
  }

  /** Both bounds are inclusive, and an absent bound does not constrain. */
  lemma BoundsAreInclusive(lo: int, hi: int, i: int)
    ensures Convert(IntType(Some(lo), Some(hi)), Strings.IntToString(lo)).Success? <==> lo <= hi
    ensures Convert(IntType(Some(lo), Some(hi)), Strings.IntToString(hi)).Success? <==> lo <= hi
    ensures Convert(IntType(None, None), Strings.IntToString(i)) == Success(i)
  {
    ConvertFormatted(IntType(Some(lo), Some(hi)), lo);
    ConvertFormatted(IntType(Some(lo), Some(hi)), hi);
    ConvertFormatted(IntType(None, None), i);
  }

  /** The converter of `--chunk-size-lat` and `--chunk-size-lon`. */
  const ChunkSizeType: IntType := IntType(Some(-1), None)

  /** The chunk size options accept -1 (the full size) and 0 (the stored
      chunks), and reject -2. */
  lemma ChunkSizeOptions()
    ensures Convert(ChunkSizeType, Strings.IntToString(-1)) == Success(-1)
    ensures Convert(ChunkSizeType, Strings.IntToString(0)) == Success(0)
    ensures Convert(ChunkSizeType, Strings.IntToString(-2)) == Failure(TypeError)
  {
    ConvertFormatted(ChunkSizeType, -1);
    ConvertFormatted(ChunkSizeType, 0);
    ConvertFormatted(ChunkSizeType, -2);
  }
}
