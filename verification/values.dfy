/** Dynamically typed values as they occur in the JSON configuration files,
    in `argparse` namespaces and in netCDF attribute dictionaries. */
module Values {
  import opened Wrappers
  import Floats

  datatype Value =
    | Null
    | Bool(b: bool)
    | Int(i: int)
    | Num(r: real)
    | Str(s: string)
    | List(items: seq<Value>)
    | Dict(entries: map<string, Value>)
    | FloatArray(elems: seq<Floats.Float>)  // a NumPy floating-point array, as attributes may hold

  /** An attribute or configuration dictionary. */
  type Attrs = map<string, Value>

  /** Python's truth value of `v`. A NumPy array of one element has that
      element's truth value (NaN is true); an empty array is false, and a
      longer one raises a `ValueError`, which is folded into false here. */
  predicate Truthy(v: Value) {
    match v
    case Null => false
    case Bool(b) => b
    case Int(i) => i != 0
    case Num(r) => r != 0.0
    case Str(s) => s != ""
    case List(items) => items != []
    case Dict(entries) => entries != map[]
    case FloatArray(elems) => |elems| == 1 && elems[0] != Floats.Finite(0.0)
  }

  /** Values Python treats as numbers (`bool` is a subclass of `int`). */
  predicate IsNumber(v: Value) {
    v.Bool? || v.Int? || v.Num?
  }

  function NumberOf(v: Value): (r: real)
    requires IsNumber(v)
    ensures v.Int? ==> r == v.i as real
    ensures v.Num? ==> r == v.r
  {
    match v
    case Bool(b) => if b then 1.0 else 0.0
    case Int(i) => i as real
    case Num(r) => r
  }

  /** `isinstance(v, int)`, true also of booleans. */
  predicate IsInt(v: Value) {
    v.Bool? || v.Int?
  }

  function IntOf(v: Value): int
    requires IsInt(v)
  {
    if v.Bool? then (if v.b then 1 else 0) else v.i
  }

  /** `d.get(key, default)`. */
  function Get(d: Attrs, key: string, default: Value): (r: Value)
    ensures key in d ==> r == d[key]
    ensures key !in d ==> r == default
  {
    if key in d then d[key] else default
  }

  /** `d.get(key, None)`, with `None` as `Option.None`. */
  function Lookup(d: Attrs, key: string): (r: Option<Value>)
    ensures r.Some? <==> key in d
    ensures r.Some? ==> r.value == d[key]
  {
    if key in d then Some(d[key]) else None
  }
}
