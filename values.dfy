/**
 * Dynamically typed values as the JavaScript client and the Python services handle them: records are
 * string-keyed maps of such values, and "truthy" follows each language's own rules.
 */
module Values {
  import opened Wrappers

  datatype Value =
    | Undefined                     // JavaScript `undefined`; also an absent property
    | Null                          // JavaScript `null`, Python `None`
    | NaN                           // the floating-point not-a-number
    | Bool(b: bool)
    | Num(x: real)
    | Str(s: string)
    | Arr(items: seq<Value>)
    | Obj(fields: map<string, Value>)

  /** A JavaScript object or a Python dict with string keys. */
  type Record = map<string, Value>

  /** `if (v)` in JavaScript: undefined, null, NaN, false, 0 and "" are falsy; every array and object is truthy. */
  predicate JsTruthy(v: Value) {
    match v
    case Undefined => false
    case Null => false
    case NaN => false
    case Bool(b) => b
    case Num(x) => x != 0.0
    case Str(s) => s != ""
    case Arr(_) => true
    case Obj(_) => true
  }

  /** `if v:` in Python: None, False, 0, "" and empty containers are falsy; NaN is truthy. */
  predicate PyTruthy(v: Value) {
    match v
    case Undefined => false
    case Null => false
    case NaN => true
    case Bool(b) => b
    case Num(x) => x != 0.0
    case Str(s) => s != ""
    case Arr(items) => items != []
    case Obj(fields) => fields != map[]
  }

  /** Property access `obj.key`: an absent key reads as `undefined`. */
  function Get(r: Record, k: string): (v: Value)
    ensures k !in r ==> v == Undefined
    ensures k in r ==> v == r[k]
  {
    if k in r then r[k] else Undefined
  }

  /** A nullable boolean written back into a record: `null` or `true`/`false`. */
  function OfOptionBool(o: Option<bool>): Value {
    match o
    case None => Null
    case Some(b) => Bool(b)
  }

  /** A nullable number written back into a record: `null` or the number. */
  function OfOptionNum(o: Option<real>): Value {
    match o
    case None => Null
    case Some(x) => Num(x)
  }

  /** A nullable string written back into a record: `null` or the string. */
  function OfOptionStr(o: Option<string>): Value {
    match o
    case None => Null
    case Some(s) => Str(s)
  }

  /** A string-valued field that may be missing (`null`, `undefined`) or empty, as the client's types allow. */
  predicate Present(o: Option<string>) {
    o.Some? && o.value != ""
  }
}
