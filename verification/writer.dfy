/** The target dataset writer, without the file I/O: the merge of its
    configuration, the per-variable encoding (chunk sizes, compression)
    and the choice of the engine. */
module Writer {
  import opened Wrappers
  import opened Values
  import Engines
  import Algorithm

  const ChunksKey: string := "config.writer.chunks"
  const EngineKey: string := "config.writer.engine"
  const ZlibKey: string := "config.writer.zlib"
  const ComplevelKey: string := "config.writer.complevel"
  const ShuffleKey: string := "config.writer.shuffle"

  /** The configuration before any user setting. */
  const Defaults: Attrs := map[
    ChunksKey := Dict(map[]),
    EngineKey := Engines.H5netcdf,
    ZlibKey := Str("true"),
    ComplevelKey := Int(1),
    ShuffleKey := Str("true")]

  datatype WriterError =
    | AttributeError   // the chunks option is not a dictionary and cannot be updated
    | AssertionError   // a configured chunk size is not an integer

  /** Every option has a value. */
  predicate Configured(cfg: Attrs) {
    forall k :: k in Defaults ==> k in cfg
  }

  /** `Writer.__init__`: the defaults, updated by `config`, the chunks
      dictionary updated by `chunks`, then the engine replaced by `engine`. */
  function Configure(config: Attrs, chunks: Option<Attrs>, engine: Option<string>): (r: Result<Attrs, WriterError>)
    ensures r.Success? ==> Configured(r.value)
    ensures r.Success? ==> forall k :: k in r.value ==> k in Defaults || k in config
    ensures r.Failure? <==> chunks.Some? && !(Defaults + config)[ChunksKey].Dict?
  {
    var merged := Defaults + config;
    var withChunks :-
      if chunks.None? then Success(merged)
      else if merged[ChunksKey].Dict? then Success(merged[ChunksKey := Dict(merged[ChunksKey].entries + chunks.value)])
      else Failure(AttributeError);
    Success(if engine.Some? then withChunks[EngineKey := Str(engine.value)] else withChunks)
  }

  /** The value of option `k`: the engine argument, the configuration, the
      default, in that order; a dimension's chunk size from the chunks
      argument before the configured dictionary, which replaces the default
      empty one as a whole. */
  lemma ConfigurePrecedence(config: Attrs, chunks: Option<Attrs>, engine: Option<string>, k: string, dim: string)
    requires Configure(config, chunks, engine).Success? && k in Defaults
    ensures var cfg := Configure(config, chunks, engine).value;
            && (k == EngineKey && engine.Some? ==> cfg[k] == Str(engine.value))
            && (k != ChunksKey && !(k == EngineKey && engine.Some?) ==>
                  cfg[k] == if k in config then config[k] else Defaults[k])
            && (k == ChunksKey && chunks.None? ==> cfg[k] == if k in config then config[k] else Dict(map[]))
            && (k == ChunksKey && chunks.Some? ==>
                  && cfg[k].Dict?
                  && (dim in chunks.value ==> dim in cfg[k].entries && cfg[k].entries[dim] == chunks.value[dim])
                  && (dim !in chunks.value ==>
                        (dim in cfg[k].entries <==> k in config && dim in config[k].entries)))
  {
  }

  /** `Writer._zlib` and `_shuffle`: options that are true exactly for the string "true". */
  predicate Zlib(cfg: Attrs)
    requires Configured(cfg)
  {
    Engines.IsTrue(cfg[ZlibKey])
  }

  predicate Shuffle(cfg: Attrs)
    requires Configured(cfg)
  {
    Engines.IsTrue(cfg[ShuffleKey])
  }

  /** Without user settings the writer compresses with zlib at level 1 and
      shuffles, into netCDF files written by h5netcdf, without chunk sizes. */
  lemma DefaultWriter()
    ensures Configure(map[], None, None) == Success(Defaults)
    ensures Zlib(Defaults) && Shuffle(Defaults) && Defaults[ComplevelKey] == Int(1)
    ensures Defaults[EngineKey] == Engines.H5netcdf && Defaults[ChunksKey] == Dict(map[])
  {
    assert Defaults + map[] == Defaults;
  }

  /** A data variable as the encoding sees it. */
  datatype ArrayInfo = ArrayInfo(name: string, dims: seq<string>, shape: seq<nat>, chunksize: seq<nat>,
                                 dtype: Algorithm.DType)

  predicate WellShaped(a: ArrayInfo) {
    |a.shape| == |a.dims| && |a.chunksize| == |a.dims|
  }

  /** Variables that get an encoding: arrays that are not coordinate variables. */
  predicate Encodable(a: ArrayInfo) {
    |a.dims| > 0 && a.name !in a.dims
  }

  /** The chunk size of one dimension of length `size` stored in chunks of
      `chunk`: a configured -1 is the full length, then a 0 the stored
      chunk size; an unconfigured dimension keeps the stored chunk size. */
  function ChunkSize(chunks: Attrs, dim: string, size: nat, chunk: nat): (r: Result<int, WriterError>)
    ensures r.Failure? <==> dim in chunks && !IsInt(chunks[dim])
    ensures dim !in chunks ==> r == Success(chunk)
  {
    if dim !in chunks then Success(chunk)
    else if !IsInt(chunks[dim]) then Failure(AssertionError)
    else
      var c := IntOf(chunks[dim]);
      var c1 := if c == -1 then size else c;
      Success(if c1 == 0 then chunk else c1)
  }

  /** With stored chunks between 1 and the length, configured values from
      -1 up to the length always give a chunk size between 1 and the
      length; -1 gives the length and 0 the stored chunk size. */
  lemma ChunkSizeInRange(chunks: Attrs, dim: string, size: nat, chunk: nat)
    requires 1 <= chunk <= size
    requires dim in chunks ==> IsInt(chunks[dim]) && -1 <= IntOf(chunks[dim]) <= size
    ensures ChunkSize(chunks, dim, size, chunk).Success?
    ensures 1 <= ChunkSize(chunks, dim, size, chunk).value <= size
    ensures dim in chunks && IntOf(chunks[dim]) == -1 ==> ChunkSize(chunks, dim, size, chunk).value == size
    ensures dim in chunks && IntOf(chunks[dim]) == 0 ==> ChunkSize(chunks, dim, size, chunk).value == chunk
  {
  }

  /** The two tests run one after the other: -1 on an empty dimension
      ends at the stored chunk size. */
  lemma FullOfEmptyDimension(chunks: Attrs, dim: string, chunk: nat)
    requires dim in chunks && chunks[dim] == Int(-1)
    ensures ChunkSize(chunks, dim, 0, chunk) == Success(chunk)
  {
  }

  /** The chunk sizes of all dimensions of `a`. */
  function ChunkSizes(chunks: Attrs, dims: seq<string>, shape: seq<nat>, chunksize: seq<nat>): (r: Result<seq<int>, WriterError>)
    requires |shape| == |dims| && |chunksize| == |dims|
    ensures r.Success? ==> |r.value| == |dims|
    ensures r.Success? ==> forall i :: 0 <= i < |dims| ==>
              ChunkSize(chunks, dims[i], shape[i], chunksize[i]) == Success(r.value[i])
    ensures r.Failure? <==> exists i :: 0 <= i < |dims| && ChunkSize(chunks, dims[i], shape[i], chunksize[i]).Failure?
  {
    if dims == [] then Success([])
    else
      var c :- ChunkSize(chunks, dims[0], shape[0], chunksize[0]);
      var rest :- ChunkSizes(chunks, dims[1..], shape[1..], chunksize[1..]);
      assert forall i :: 1 <= i < |dims| ==> dims[1..][i - 1] == dims[i];
      Success([c] + rest)
  }

  /** An entry of an encoding dictionary. */
  datatype EncValue = DTypeOf(t: Algorithm.DType) | Sizes(sizes: seq<int>) | Flag(b: bool) | Setting(v: Value)

  type Encoding = map<string, EncValue>

  /** `Writer._encode_compress`. */
  function EncodeCompress(cfg: Attrs, dtype: Algorithm.DType, chunks: seq<int>, toZarr: bool): (r: Encoding)
    requires Configured(cfg)
    ensures "dtype" in r && r["dtype"] == DTypeOf(dtype)
    ensures "chunks" in r <==> toZarr && chunks != []
    ensures "chunksizes" in r <==> !toZarr && chunks != []
    ensures "chunks" in r ==> r["chunks"] == Sizes(chunks)
    ensures "chunksizes" in r ==> r["chunksizes"] == Sizes(chunks)
    ensures ("zlib" in r <==> !toZarr) && ("complevel" in r <==> !toZarr) && ("shuffle" in r <==> !toZarr)
    ensures !toZarr ==> r["zlib"] == Flag(Zlib(cfg)) && r["complevel"] == Setting(cfg[ComplevelKey])
                        && r["shuffle"] == Flag(Shuffle(cfg))
    ensures forall k :: k in r ==> k in {"dtype", "chunks", "chunksizes", "zlib", "complevel", "shuffle"}
  {
    var enc := map["dtype" := DTypeOf(dtype)];
    var withChunks := if chunks == [] then enc
                      else if toZarr then enc["chunks" := Sizes(chunks)]
                      else enc["chunksizes" := Sizes(chunks)];
    if toZarr then withChunks
    else withChunks["zlib" := Flag(Zlib(cfg))]["complevel" := Setting(cfg[ComplevelKey])]
                   ["shuffle" := Flag(Shuffle(cfg))]
  }

  /** The names of the variables that get an encoding. */
  function EncodedNames(vars: seq<ArrayInfo>): set<string> {
    set i | 0 <= i < |vars| && Encodable(vars[i]) :: vars[i].name
  }

  predicate DistinctNames(vars: seq<ArrayInfo>) {
    forall i, j :: 0 <= i < j < |vars| ==> vars[i].name != vars[j].name
  }

  /** The encoded names of a non-empty list: those of its tail, plus its head's if encodable. */
  lemma EncodedNamesCons(vars: seq<ArrayInfo>)
    requires vars != []
    ensures EncodedNames(vars) == EncodedNames(vars[1..]) + (if Encodable(vars[0]) then {vars[0].name} else {})
  {
    forall n | n in EncodedNames(vars)
      ensures n in EncodedNames(vars[1..]) + (if Encodable(vars[0]) then {vars[0].name} else {})
    {
      var i :| 0 <= i < |vars| && Encodable(vars[i]) && vars[i].name == n;
      if i > 0 {
        assert vars[1..][i - 1] == vars[i];
      }
    }
    forall n | n in EncodedNames(vars[1..])
      ensures n in EncodedNames(vars)
    {
      var i :| 0 <= i < |vars[1..]| && Encodable(vars[1..][i]) && vars[1..][i].name == n;
      assert vars[i + 1] == vars[1..][i];
    }
  }

  /** `m` holds exactly the encodings of the encodable variables of `vars`,
      each built from the variable's chunk sizes. */
  predicate Encodes(cfg: Attrs, vars: seq<ArrayInfo>, toZarr: bool, m: map<string, Encoding>)
    requires Configured(cfg) && cfg[ChunksKey].Dict?
  {
    && m.Keys == EncodedNames(vars)
    && forall i :: 0 <= i < |vars| && Encodable(vars[i]) && WellShaped(vars[i]) ==>
         var a := vars[i];
         var sizes := ChunkSizes(cfg[ChunksKey].entries, a.dims, a.shape, a.chunksize);
         sizes.Success? && a.name in m && m[a.name] == EncodeCompress(cfg, a.dtype, sizes.value, toZarr)
  }

  /** One step of `_encode`: the encodings of the tail, plus the head's when
      it is encodable, are the encodings of the whole list. */
  lemma EncodesCons(cfg: Attrs, vars: seq<ArrayInfo>, toZarr: bool, rest: map<string, Encoding>, m: map<string, Encoding>)
    requires Configured(cfg) && cfg[ChunksKey].Dict?
    requires vars != [] && WellShaped(vars[0]) && DistinctNames(vars)
    requires Encodes(cfg, vars[1..], toZarr, rest)
    requires !Encodable(vars[0]) ==> m == rest
    requires Encodable(vars[0]) ==>
               var sizes := ChunkSizes(cfg[ChunksKey].entries, vars[0].dims, vars[0].shape, vars[0].chunksize);
               sizes.Success? && m == rest[vars[0].name := EncodeCompress(cfg, vars[0].dtype, sizes.value, toZarr)]
    ensures Encodes(cfg, vars, toZarr, m)
  {
    EncodedNamesCons(vars);
    forall i | 1 <= i < |vars| && Encodable(vars[i]) && WellShaped(vars[i])
      ensures vars[i].name in m && m[vars[i].name] == rest[vars[i].name]
    {
      assert vars[1..][i - 1] == vars[i];
    }
  }

  /** `Writer._encode` of the data variables `vars`. */
  function Encode(cfg: Attrs, vars: seq<ArrayInfo>, toZarr: bool): (r: Result<map<string, Encoding>, WriterError>)
    requires Configured(cfg) && cfg[ChunksKey].Dict?
    requires forall i :: 0 <= i < |vars| ==> WellShaped(vars[i])
    requires DistinctNames(vars)
    ensures r.Success? ==> r.value.Keys == EncodedNames(vars)
    ensures r.Success? ==> forall i :: 0 <= i < |vars| && Encodable(vars[i]) && WellShaped(vars[i]) ==>
              var a := vars[i];
              var sizes := ChunkSizes(cfg[ChunksKey].entries, a.dims, a.shape, a.chunksize);
              sizes.Success? && a.name in r.value && r.value[a.name] == EncodeCompress(cfg, a.dtype, sizes.value, toZarr)
  {
    if vars == [] then Success(map[])
    else
      assert DistinctNames(vars[1..]) && forall i :: 0 <= i < |vars[1..]| ==> WellShaped(vars[1..][i]) by {
        assert forall i :: 0 <= i < |vars[1..]| ==> vars[1..][i] == vars[i + 1];
      }
      var rest :- Encode(cfg, vars[1..], toZarr);
      var a := vars[0];
      assert WellShaped(a);
      if !Encodable(a) then
        EncodesCons(cfg, vars, toZarr, rest, rest);
        Success(rest)
      else
        var sizes :- ChunkSizes(cfg[ChunksKey].entries, a.dims, a.shape, a.chunksize);
        var m := rest[a.name := EncodeCompress(cfg, a.dtype, sizes, toZarr)];
        EncodesCons(cfg, vars, toZarr, rest, m);
        Success(m)
  }

  /** Encoding fails exactly when an encoded variable has a dimension whose
      configured chunk size is not an integer. */
  lemma {:induction false} EncodeFailsOnNonIntChunks(cfg: Attrs, vars: seq<ArrayInfo>, toZarr: bool)
    requires Configured(cfg) && cfg[ChunksKey].Dict?
    requires forall i :: 0 <= i < |vars| ==> WellShaped(vars[i])
    requires DistinctNames(vars)
    ensures Encode(cfg, vars, toZarr).Failure? <==>
              exists i, j :: 0 <= i < |vars| && Encodable(vars[i]) && 0 <= j < |vars[i].dims| &&
                             vars[i].dims[j] in cfg[ChunksKey].entries && !IsInt(cfg[ChunksKey].entries[vars[i].dims[j]])
  {
    var chunks := cfg[ChunksKey].entries;
    if vars != [] {
      var tail := vars[1..];
      assert DistinctNames(tail) && forall i :: 0 <= i < |tail| ==> WellShaped(tail[i]) by {
        assert forall i :: 0 <= i < |tail| ==> tail[i] == vars[i + 1];
      }
      EncodeFailsOnNonIntChunks(cfg, tail, toZarr);
      var a := vars[0];
      assert WellShaped(a);
      if exists i, j :: 0 <= i < |vars| && Encodable(vars[i]) && 0 <= j < |vars[i].dims| &&
                        vars[i].dims[j] in chunks && !IsInt(chunks[vars[i].dims[j]]) {
        var i, j :| 0 <= i < |vars| && Encodable(vars[i]) && 0 <= j < |vars[i].dims| &&
                    vars[i].dims[j] in chunks && !IsInt(chunks[vars[i].dims[j]]);
        if i > 0 {
          assert tail[i - 1] == vars[i];
        } else {
          assert ChunkSize(chunks, a.dims[j], a.shape[j], a.chunksize[j]).Failure?;
        }
      } else {
        forall i, j | 0 <= i < |tail| && Encodable(tail[i]) && 0 <= j < |tail[i].dims| && tail[i].dims[j] in chunks
          ensures IsInt(chunks[tail[i].dims[j]])
        {
          assert tail[i] == vars[i + 1];
        }
        if Encodable(a) {
          assert ChunkSizes(chunks, a.dims, a.shape, a.chunksize).Success?;
        }
      }
    }
  }
}
