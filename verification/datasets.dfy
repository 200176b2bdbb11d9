/** Datasets as the operators see them: named variables in iteration order,
    each with flattened data, attributes, dimension names and coordinate
    names. */
module Datasets {
  import opened Floats
  import opened Values
  import Codec

  /** A variable: its flattened data, its attributes, its dimension names
      and the names of its coordinates. */
  datatype Variable = Variable(data: seq<Float>, attrs: Attrs, dims: seq<string>, coords: seq<string>)

  /** A dataset: its data variable names in iteration order, the data
      variables, the coordinate names and the global attributes. */
  datatype Dataset = Dataset(names: seq<string>, vars: map<string, Variable>, coords: set<string>, attrs: Attrs)

  /** Every listed name has a variable, every variable is listed once, and
      the codec attributes of every variable are numbers. */
  predicate WellFormed(ds: Dataset) {
    && (forall v :: v in ds.names ==> v in ds.vars)
    && (forall v :: v in ds.vars ==> v in ds.names)
    && (forall i, j :: 0 <= i < j < |ds.names| ==> ds.names[i] != ds.names[j])
    && (forall v :: v in ds.vars ==> Codec.NumericCodecAttrs(ds.vars[v].attrs))
  }

  /** `name in ds`: a data variable or a coordinate of that name exists. */
  predicate Contains(ds: Dataset, name: string) {
    name in ds.vars || name in ds.coords
  }

  /** `ds[name] = x`: replaces a variable in place or appends a new one. */
  function Put(ds: Dataset, name: string, x: Variable): (r: Dataset)
    requires WellFormed(ds) && Codec.NumericCodecAttrs(x.attrs)
    ensures WellFormed(r)
    ensures r.vars == ds.vars[name := x]
    ensures r.names == if name in ds.vars then ds.names else ds.names + [name]
    ensures r.coords == ds.coords && r.attrs == ds.attrs
  {
    if name in ds.vars then ds.(vars := ds.vars[name := x])
    else ds.(names := ds.names + [name], vars := ds.vars[name := x])
  }

  /** Replacing an existing variable keeps a dataset well formed. */
  lemma ReplaceKeepsWellFormed(ds: Dataset, name: string, x: Variable)
    requires WellFormed(ds) && name in ds.vars && Codec.NumericCodecAttrs(x.attrs)
    ensures WellFormed(ds.(vars := ds.vars[name := x]))
  {
  }

  /** The decoded data of a variable. */
  function Decoded(x: Variable): (ys: seq<Float>)
    requires Codec.NumericCodecAttrs(x.attrs)
    ensures |ys| == |x.data|
    ensures forall i :: 0 <= i < |ys| ==> ys[i] == Codec.DecodeValue(Codec.ParamsOf(x.attrs), x.data[i])
  {
    Codec.Decode(Codec.ParamsOf(x.attrs), x.data)
  }

  /** An ensemble variable: its members along the leading axis, each
      flattened, and the attributes, dimensions and coordinates of one member. */
  datatype EnsembleVar = EnsembleVar(members: seq<seq<Float>>, attrs: Attrs, dims: seq<string>, coords: seq<string>)

  /** A dataset whose variables carry an ensemble axis. */
  datatype Ensemble = Ensemble(names: seq<string>, vars: map<string, EnsembleVar>, coords: set<string>, attrs: Attrs)

  /** At least one member, all members of one length. */
  predicate Rectangular(members: seq<seq<Float>>) {
    |members| >= 1 && forall k :: 0 <= k < |members| ==> |members[k]| == |members[0]|
  }

  predicate WellFormedEnsemble(ens: Ensemble) {
    && (forall v :: v in ens.names ==> v in ens.vars)
    && (forall v :: v in ens.vars ==> v in ens.names)
    && (forall i, j :: 0 <= i < j < |ens.names| ==> ens.names[i] != ens.names[j])
    && (forall v :: v in ens.vars ==> Codec.NumericCodecAttrs(ens.vars[v].attrs) && Rectangular(ens.vars[v].members))
  }

  /** `isel(i=0)`: the first member of every variable. */
  function FirstMember(ens: Ensemble): (ds: Dataset)
    requires WellFormedEnsemble(ens)
    ensures WellFormed(ds) && ds.names == ens.names && ds.coords == ens.coords && ds.attrs == ens.attrs
    ensures ds.vars.Keys == ens.vars.Keys
    ensures forall v :: v in ens.vars ==>
              ds.vars[v] == Variable(ens.vars[v].members[0], ens.vars[v].attrs, ens.vars[v].dims, ens.vars[v].coords)
  {
    var vars := map v | v in ens.vars ::
      Variable(ens.vars[v].members[0], ens.vars[v].attrs, ens.vars[v].dims, ens.vars[v].coords);
    Dataset(ens.names, vars, ens.coords, ens.attrs)
  }

  /** The values of all members at one element. */
  function Column(members: seq<seq<Float>>, j: nat): (col: seq<Float>)
    requires forall k :: 0 <= k < |members| ==> j < |members[k]|
    ensures |col| == |members| && forall k :: 0 <= k < |members| ==> col[k] == members[k][j]
  {
    seq(|members|, k requires 0 <= k < |members| => members[k][j])
  }

  /** Every member decoded with the given attributes. */
  function DecodedMembers(members: seq<seq<Float>>, attrs: Attrs): (ds: seq<seq<Float>>)
    requires Codec.NumericCodecAttrs(attrs)
    ensures |ds| == |members|
    ensures forall k :: 0 <= k < |members| ==> ds[k] == Codec.Decode(Codec.ParamsOf(attrs), members[k])
  {
    seq(|members|, k requires 0 <= k < |members| => Codec.Decode(Codec.ParamsOf(attrs), members[k]))
  }
}
