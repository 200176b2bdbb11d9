/** The source dataset reader, without the file I/O: its configuration,
    the choice of the engine and the boolean decoding options. */
module Reader {
  import opened Wrappers
  import opened Values
  import Engines

  const ChunksKey: string := "config.reader.chunks"
  const EngineKey: string := "config.reader.engine"
  const DecodeCfKey: string := "config.reader.decode_cf"
  const DecodeCoordsKey: string := "config.reader.decode_coords"
  const DecodeTimesKey: string := "config.reader.decode_times"
  const DecodeTimedeltaKey: string := "config.reader.decode_timedelta"
  const UseCftimeKey: string := "config.reader.use_cftime"
  const ConcatCharactersKey: string := "config.reader.concat_characters"
  const InlineArrayKey: string := "config.reader.inline_array"

  /** The keys of the boolean options. */
  const FlagKeys: set<string> := {DecodeCfKey, DecodeCoordsKey, DecodeTimesKey, DecodeTimedeltaKey,
                                  UseCftimeKey, ConcatCharactersKey, InlineArrayKey}

  /** The boolean options that are on by default. */
  const OnByDefault: set<string> := {DecodeCfKey, DecodeCoordsKey, ConcatCharactersKey}

  /** The configuration before any user setting. */
  const Defaults: Attrs := map[
    ChunksKey := Dict(map[]),
    EngineKey := Engines.H5netcdf,
    DecodeCfKey := Str("true"),
    DecodeCoordsKey := Str("true"),
    DecodeTimesKey := Str("false"),
    DecodeTimedeltaKey := Str("false"),
    UseCftimeKey := Str("false"),
    ConcatCharactersKey := Str("true"),
    InlineArrayKey := Str("false")]

  /** Every option has a value. */
  predicate Configured(cfg: Attrs) {
    forall k :: k in Defaults ==> k in cfg
  }

  /** `Reader.__init__`: the defaults updated key by key by the configuration, if any. */
  function Configure(config: Option<Attrs>): (r: Attrs)
    ensures Configured(r)
    ensures forall k :: k in r ==> k in Defaults || (config.Some? && k in config.value)
  {
    if config.None? then Defaults else Defaults + config.value
  }

  /** A configured value wins over the default, and no configuration keeps
      every default. */
  lemma ConfigOverridesDefaults(config: Option<Attrs>, k: string)
    requires k in Defaults || (config.Some? && k in config.value)
    ensures Configure(config)[k] == if config.Some? && k in config.value then config.value[k] else Defaults[k]
  {
  }

  /** A boolean option of `Reader`: true exactly when its value is the string "true". */
  predicate Flag(cfg: Attrs, key: string)
    requires Configured(cfg) && key in FlagKeys
  {
    Engines.IsTrue(cfg[key])
  }

  /** An option is on exactly when it is configured as "true", or is left
      unconfigured and is on by default. */
  lemma FlagFollowsConfig(config: Option<Attrs>, key: string)
    requires key in FlagKeys
    ensures Flag(Configure(config), key) <==>
              if config.Some? && key in config.value then config.value[key] == Str("true") else key in OnByDefault
  {
  }

  /** Without a configuration, the reader decodes CF conventions and
      coordinates and concatenates characters, and nothing else, with
      h5netcdf and no chunks. */
  lemma DefaultReader()
    ensures var cfg := Configure(None);
            && Flag(cfg, DecodeCfKey) && Flag(cfg, DecodeCoordsKey) && Flag(cfg, ConcatCharactersKey)
            && !Flag(cfg, DecodeTimesKey) && !Flag(cfg, DecodeTimedeltaKey) && !Flag(cfg, UseCftimeKey)
            && !Flag(cfg, InlineArrayKey)
            && cfg[EngineKey] == Engines.H5netcdf && cfg[ChunksKey] == Dict(map[])
  {
  }
}
