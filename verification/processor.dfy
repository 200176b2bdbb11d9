/** How the processor completes the reader and writer configurations from
    the command line: chunk sizes per product type with a "_" fallback,
    explicit chunk sizes, and the engine. */
module Processor {
  import opened Wrappers
  import opened Values
  import Reader
  import Writer

  const DimLat: string := "lat"
  const DimLon: string := "lon"
  /** The entry that applies to product types without an entry of their own. */
  const FallbackEntry: string := "_"

  /** The command line arguments the resolution reads. */
  datatype Args = Args(productType: string, chunkSizeLat: Option<int>, chunkSizeLon: Option<int>,
                       engineReader: Option<string>, engineWriter: Option<string>)

  datatype ConfigError =
    | KeyError        // a missing dictionary entry
    | TypeError       // a product type entry that is not a dictionary, indexed by a dimension
    | AttributeError  // a chunks value that is not a dictionary, so it has no `get`

  /** `chunks[dim] = chunks.get(product_type, chunks["_"])[dim]`; the
      fallback entry is looked up even when it is not used. */
  function Overlay(chunks: Attrs, productType: string, dim: string): (r: Result<Attrs, ConfigError>)
    ensures r.Success? ==> r.value.Keys == chunks.Keys + {dim}
    ensures r.Success? ==> forall k :: k in chunks && k != dim ==> r.value[k] == chunks[k]
  {
    if FallbackEntry !in chunks then Failure(KeyError)
    else
      var entry := if productType in chunks then chunks[productType] else chunks[FallbackEntry];
      if !entry.Dict? then Failure(TypeError)
      else if dim !in entry.entries then Failure(KeyError)
      else Success(chunks[dim := entry.entries[dim]])
  }

  /** The lat/lon chunk sizes of the configured `chunksKey` dictionary
      taken from the product type's entry or the fallback entry, then
      replaced by explicit sizes; the engine replaced by a non-empty
      `engine`. */
  function Resolve(config: Attrs, chunksKey: string, engineKey: string, args: Args, engine: Option<string>)
    : (r: Result<Attrs, ConfigError>)
    requires chunksKey != engineKey
    ensures chunksKey !in config ==> r == Failure(KeyError)
    ensures r == Failure(AttributeError) <==> chunksKey in config && !config[chunksKey].Dict?
    ensures r.Success? ==> chunksKey in r.value && r.value[chunksKey].Dict?
    ensures r.Success? ==> forall k :: k in config && k != chunksKey && k != engineKey ==> k in r.value && r.value[k] == config[k]
    ensures r.Success? && (engine.None? || engine == Some("")) && engineKey in config ==>
              engineKey in r.value && r.value[engineKey] == config[engineKey]
    ensures r.Success? && engine.Some? && engine != Some("") ==>
              engineKey in r.value && r.value[engineKey] == Str(engine.value)
  {
    if chunksKey !in config then Failure(KeyError)
    else if !config[chunksKey].Dict? then Failure(AttributeError)
    else
      var chunks0 := config[chunksKey].entries;
      var chunks1 :- Overlay(chunks0, args.productType, DimLat);
      var chunks2 :- Overlay(chunks1, args.productType, DimLon);
      var chunks3 := if args.chunkSizeLat.Some? then chunks2[DimLat := Int(args.chunkSizeLat.value)] else chunks2;
      var chunks4 := if args.chunkSizeLon.Some? then chunks3[DimLon := Int(args.chunkSizeLon.value)] else chunks3;
      var updated := config[chunksKey := Dict(chunks4)];
      Success(if engine.Some? && engine.value != "" then updated[engineKey := Str(engine.value)] else updated)
  }

  /** The configured entry a product type's chunk sizes come from. */
  function EntryFor(chunks: Attrs, productType: string): Value
    requires FallbackEntry in chunks
  {
    if productType in chunks then chunks[productType] else chunks[FallbackEntry]
  }

  /** The chunk size of `dim` after resolution: the explicit size, else the
      product type's entry, else the fallback entry. */
  lemma ChunkPrecedence(config: Attrs, chunksKey: string, engineKey: string, args: Args, engine: Option<string>)
    requires chunksKey != engineKey && Resolve(config, chunksKey, engineKey, args, engine).Success?
    requires args.productType != DimLat
    ensures var chunks := config[chunksKey].entries;
            var resolved := Resolve(config, chunksKey, engineKey, args, engine).value[chunksKey].entries;
            && FallbackEntry in chunks && EntryFor(chunks, args.productType).Dict?
            && DimLat in resolved && DimLon in resolved
            && resolved[DimLat] == (if args.chunkSizeLat.Some? then Int(args.chunkSizeLat.value)
                                    else EntryFor(chunks, args.productType).entries[DimLat])
            && resolved[DimLon] == (if args.chunkSizeLon.Some? then Int(args.chunkSizeLon.value)
                                    else EntryFor(chunks, args.productType).entries[DimLon])
  {
  }

  /** A missing fallback entry fails the resolution even for a product type
      that has an entry of its own. */
  lemma FallbackEntryIsRequired(config: Attrs, chunksKey: string, engineKey: string, args: Args, engine: Option<string>)
    requires chunksKey != engineKey
    requires chunksKey in config && config[chunksKey].Dict? && FallbackEntry !in config[chunksKey].entries
    ensures Resolve(config, chunksKey, engineKey, args, engine) == Failure(KeyError)
  {
  }

  /** `Processor._create_reader`, before the reader is built. */
  function ReaderConfig(config: Attrs, args: Args): (r: Result<Attrs, ConfigError>)
    ensures r.Success? ==> Reader.ChunksKey in r.value && r.value[Reader.ChunksKey].Dict?
  {
    Resolve(config, Reader.ChunksKey, Reader.EngineKey, args, args.engineReader)
  }

  /** `Processor._create_writer`, before the writer is built. */
  function WriterConfig(config: Attrs, args: Args): (r: Result<Attrs, ConfigError>)
    ensures r.Success? ==> Writer.ChunksKey in r.value && r.value[Writer.ChunksKey].Dict?
  {
    Resolve(config, Writer.ChunksKey, Writer.EngineKey, args, args.engineWriter)
  }

  /** The reader and the writer resolve chunk sizes by the same rules: from
      equal chunk configurations they get equal chunk sizes, or fail alike. */
  lemma ReaderAndWriterAgree(readerConfig: Attrs, writerConfig: Attrs, args: Args)
    requires Reader.ChunksKey in readerConfig && Writer.ChunksKey in writerConfig
    requires readerConfig[Reader.ChunksKey] == writerConfig[Writer.ChunksKey]
    ensures ReaderConfig(readerConfig, args).Success? <==> WriterConfig(writerConfig, args).Success?
    ensures ReaderConfig(readerConfig, args).Success? ==>
              ReaderConfig(readerConfig, args).value[Reader.ChunksKey]
              == WriterConfig(writerConfig, args).value[Writer.ChunksKey]
  {
  }
}
