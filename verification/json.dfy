/**
 * JavaScript values as the mock store keeps them: every table row is a plain
 * object, i.e. a map from field names to values. A field that is absent reads
 * as `undefined`. Numbers are exact reals.
 */
module Json {

  datatype Option<+T> = None | Some(value: T)

  datatype Value =
    | Undefined
    | Null
    | Bool(b: bool)
    | Num(n: real)
    | Str(s: string)
    | Arr(elems: seq<Value>)
    | Obj(fields: map<string, Value>)

  type Row = map<string, Value>

  /** `row[key]`: the stored value, or `undefined` when the key is absent. */
  function Get(row: Row, key: string): (v: Value)
    ensures key !in row ==> v == Undefined
    ensures key in row ==> v == row[key]
  {
    if key in row then row[key] else Undefined
  }

  /** JavaScript truthiness: `undefined`, `null`, `false`, `0` and `""` are falsy. */
  predicate Truthy(v: Value) {
    match v
    case Undefined => false
    case Null => false
    case Bool(b) => b
    case Num(n) => n != 0.0
    case Str(s) => s != ""
    case Arr(_) => true
    case Obj(_) => true
  }

  /**
   * `Number(v)`, with `None` standing for NaN. Strings, arrays and objects are
   * read as NaN: numeric-string parsing is not part of this model.
   */
  function ToNumber(v: Value): (r: Option<real>)
    ensures v.Num? ==> r == Some(v.n)
    ensures v == Undefined ==> r == None
  {
    match v
    case Undefined => None
    case Null => Some(0.0)
    case Bool(b) => Some(if b then 1.0 else 0.0)
    case Num(n) => Some(n)
    case Str(_) => None
    case Arr(_) => None
    case Obj(_) => None
  }

  /**
   * A number computed in JavaScript (`None` is NaN) as it reads back from the
   * store: the store keeps its tables as JSON text, and `JSON.stringify`
   * writes NaN as `null`.
   */
  function StoredNumber(r: Option<real>): (v: Value)
    ensures r.Some? ==> v == Num(r.value)
    ensures r.None? ==> v == Null && ToNumber(v) == Some(0.0)
  {
    if r.Some? then Num(r.value) else Null
  }

  /** `Number(v) || 0`: NaN becomes 0. */
  function NumberOr0(v: Value): (r: real)
    ensures v.Num? ==> r == v.n
    ensures ToNumber(v) == None ==> r == 0.0
  {
    match ToNumber(v)
    case Some(n) => n
    case None => 0.0
  }
}
