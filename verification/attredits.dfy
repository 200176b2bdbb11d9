/** The attribute rewriting shared by the collect and derandomize operators. */
module AttrEdits {
  import opened Wrappers
  import opened Values
  import opened Floats
  import Strings
  import Stats

  const UncSuffix: string := "_unc"
  const CoordinatesKey: string := "coordinates"
  const StandardNameKey: string := "standard_name"
  const TitleKey: string := "title"
  const StandardErrorSuffix: string := " standard_error"
  const TitlePrefix: string := "standard uncertainty of "
  const ActualRangeKey: string := "actual_range"

  /** The name of the uncertainty variable of `v`: the configured one, or "{v}_unc". */
  function UncBaseName(v: string, configured: Option<string>): (r: string)
    ensures configured.Some? ==> r == configured.value
    ensures configured.None? ==> Strings.StartsWith(r, v) && r[|v|..] == UncSuffix
  {
    if configured.Some? then configured.value else v + UncSuffix
  }

  /** Names none of which holds a blank, as variable and coordinate names are. */
  predicate Unblanked(names: seq<string>) {
    forall k :: 0 <= k < |names| ==> ' ' !in names[k]
  }

  /** `_set_coordinate_attr`: the space-joined coordinate names, if there are
      any; splitting the attribute at blanks gives the names back. */
  function CoordinateAttr(attrs: Attrs, coords: seq<string>): (r: Attrs)
    ensures forall k :: k != CoordinatesKey ==> (k in r <==> k in attrs)
    ensures forall k :: k in attrs && k != CoordinatesKey ==> r[k] == attrs[k]
    ensures CoordinatesKey in r <==> CoordinatesKey in attrs || coords != []
    ensures coords == [] && CoordinatesKey in attrs ==> r[CoordinatesKey] == attrs[CoordinatesKey]
    ensures coords != [] ==> r[CoordinatesKey].Str? && Strings.StartsWith(r[CoordinatesKey].s, coords[0])
    ensures coords != [] && Unblanked(coords) ==> Strings.Split(r[CoordinatesKey].s, ' ') == coords
  {
    if coords != [] then
      var joined := Strings.Join(" ", coords);
      assert Unblanked(coords) ==> Strings.Split(joined, ' ') == coords by {
        if Unblanked(coords) {
          Strings.SplitJoin(coords, ' ');
        }
      }
      attrs[CoordinatesKey := Str(joined)]
    else attrs
  }

  /** `np.array([nanmin(data), nanmax(data)])`: the least and the greatest
      element that is not missing, both NaN when every element is missing. */
  function RangeAttr(data: seq<Float>): (a: Value)
    ensures a.FloatArray? && |a.elems| == 2
    ensures a.elems[0].NaN? <==> forall i :: 0 <= i < |data| ==> data[i].NaN?
    ensures a.elems[1].NaN? <==> forall i :: 0 <= i < |data| ==> data[i].NaN?
    ensures forall i :: 0 <= i < |data| && !data[i].NaN? ==> !Less(data[i], a.elems[0]) && !Less(a.elems[1], data[i])
    ensures !a.elems[0].NaN? ==> a.elems[0] in data && a.elems[1] in data
  {
    FloatArray([Stats.NanMin(data), Stats.NanMax(data)])
  }

  /** The `actual_range` attribute, where present, replaced by the range of `data`. */
  function SetRange(attrs: Attrs, data: seq<Float>): (r: Attrs)
    ensures r.Keys == attrs.Keys
    ensures forall k :: k in attrs && k != ActualRangeKey ==> r[k] == attrs[k]
    ensures ActualRangeKey in attrs ==> r[ActualRangeKey] == RangeAttr(data)
  {
    if ActualRangeKey in attrs then attrs[ActualRangeKey := RangeAttr(data)] else attrs
  }

  /** Appends a suffix to a string attribute, if it is present. */
  function AppendToAttr(attrs: Attrs, key: string, suffix: string): (r: Attrs)
    requires key in attrs ==> attrs[key].Str?
    ensures r.Keys == attrs.Keys
    ensures forall k :: k in attrs && k != key ==> r[k] == attrs[k]
    ensures key in attrs ==> r[key].Str? && |r[key].s| == |attrs[key].s| + |suffix|
                             && Strings.EndsWith(r[key].s, suffix) && r[key].s[..|attrs[key].s|] == attrs[key].s
  {
    if key in attrs then attrs[key := Str(attrs[key].s + suffix)] else attrs
  }

  /** Prepends a prefix to a string attribute, if it is present. */
  function PrependToAttr(attrs: Attrs, key: string, prefix: string): (r: Attrs)
    requires key in attrs ==> attrs[key].Str?
    ensures r.Keys == attrs.Keys
    ensures forall k :: k in attrs && k != key ==> r[k] == attrs[k]
    ensures key in attrs ==> r[key].Str? && Strings.StartsWith(r[key].s, prefix)
                             && r[key].s[|prefix|..] == attrs[key].s
  {
    if key in attrs then attrs[key := Str(prefix + attrs[key].s)] else attrs
  }

  /** The removals of `attrs_pop`, then the update with `attrs`. */
  function PopThenUpdate(attrs: Attrs, pop: seq<string>, update: Attrs): (r: Attrs)
    ensures forall k :: k in update ==> k in r && r[k] == update[k]
    ensures forall k :: k in pop && k !in update ==> k !in r
    ensures forall k :: k in attrs && k !in pop && k !in update ==> k in r && r[k] == attrs[k]
    ensures forall k :: k in r ==> k in attrs || k in update
  {
    (attrs - set k | k in pop) + update
  }

  /** String-valued descriptive attributes, where present. */
  predicate TextAttrs(attrs: Attrs) {
    (StandardNameKey in attrs ==> attrs[StandardNameKey].Str?) && (TitleKey in attrs ==> attrs[TitleKey].Str?)
  }
}
