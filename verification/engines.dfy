/** The rules the reader and the writer share: the engine chosen from the
    path suffix, and string-valued boolean options. */
module Engines {
  import opened Values
  import Strings

  const Zarr: Value := Str("zarr")
  const H5netcdf: Value := Str("h5netcdf")
  const Netcdf4: Value := Str("netcdf4")

  /** `_auto_engine` of a path with the configured engine `engine`; the reader
      and the writer each define it with this same rule. */
  function AutoEngine(path: string, engine: Value): (r: Value)
    ensures Strings.EndsWith(path, ".zarr") ==> r == Zarr
    ensures !Strings.EndsWith(path, ".zarr") && !Strings.EndsWith(path, ".nc") ==> r == engine
  {
    if Strings.EndsWith(path, ".zarr") then Zarr
    else if Strings.EndsWith(path, ".nc") then (if engine != Zarr then engine else H5netcdf)
    else engine
  }

  /** What `ZarrExactly` states of the engine `r` chosen for `path`. */
  predicate ZarrExactlyFor(path: string, engine: Value, r: Value) {
    && (r == Zarr <==> Strings.EndsWith(path, ".zarr") || (!Strings.EndsWith(path, ".nc") && engine == Zarr))
    && (Strings.EndsWith(path, ".nc") && engine != Zarr ==> r == engine)
    && (Strings.EndsWith(path, ".nc") && engine == Zarr ==> r == H5netcdf)
  }

  /** A path cannot end in both suffixes. */
  lemma SuffixesExclusive(path: string)
    ensures !(Strings.EndsWith(path, ".zarr") && Strings.EndsWith(path, ".nc"))
  {
    if Strings.EndsWith(path, ".zarr") {
      var tail := path[|path| - 5..];
      assert tail == ".zarr";
      assert path[|path| - 1] == tail[4] == 'r';
      assert path[|path| - 2..][1] == path[|path| - 1];
    }
  }

  /** Zarr is used exactly for ".zarr" paths and for paths with neither
      suffix when it is configured; a netCDF path never gets zarr and
      otherwise keeps the configured engine. */
  lemma ZarrExactly(path: string, engine: Value)
    ensures ZarrExactlyFor(path, engine, AutoEngine(path, engine))
  {
    SuffixesExclusive(path);
  }

  /** A boolean option: true exactly when its value is the string "true". */
  predicate IsTrue(v: Value) {
    v == Str("true")
  }

  /** Neither a JSON `true` nor another spelling switches an option on. */
  lemma OnlyTheStringTrue()
    ensures IsTrue(Str("true"))
    ensures !IsTrue(Bool(true)) && !IsTrue(Str("True")) && !IsTrue(Int(1))
  {
  }
}
