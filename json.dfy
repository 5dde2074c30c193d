/**
 * The request body as Flask's `request.get_json()` hands it to the
 * handler: a parsed JSON value, seen through Python's eyes (its
 * truthiness and the name of its Python type).
 */
module Json {

  /** A parsed JSON value. Objects map their keys to values (`dict`);
      numbers keep Python's split into `int` and `float`. */
  datatype Value =
    | Null
    | Bool(b: bool)
    | Int(i: int)
    | Float(f: real)
    | Str(s: string)
    | Array(items: seq<Value>)
    | Object(fields: map<string, Value>)

  /** What `request.get_json()` produced: nothing (`None`), a value, or an
      exception it raised on a body it would not parse, with that
      exception's text. */
  datatype Body =
    | NoJson
    | Parsed(value: Value)
    | Rejected(message: string)

  /** Python's `bool(v)`: `None`, `False`, zero, and empty strings, lists
      and dicts are false; everything else is true. */
  predicate Truthy(v: Value)
  {
    match v
    case Null => false
    case Bool(b) => b
    case Int(i) => i != 0
    case Float(f) => f != 0.0
    case Str(s) => |s| > 0
    case Array(items) => |items| > 0
    case Object(fields) => |fields| > 0
  }

  /** The falsy JSON values are exactly these seven. */
  lemma FalsyExactly(v: Value)
    ensures !Truthy(v) <==> v in [Null, Bool(false), Int(0), Float(0.0), Str(""), Array([]), Object(map[])]
  {
  }

  /** `type(v).__name__` of the Python object `json` decodes `v` to. */
  function TypeName(v: Value): (name: string)
    ensures name in ["NoneType", "bool", "int", "float", "str", "list", "dict"]
    ensures '_' !in name
  {
    match v
    case Null => "NoneType"
    case Bool(_) => "bool"
    case Int(_) => "int"
    case Float(_) => "float"
    case Str(_) => "str"
    case Array(_) => "list"
    case Object(_) => "dict"
  }

  /** Python's `fields.get(key, default)`. */
  function Get(fields: map<string, Value>, key: string, default: Value): (v: Value)
    ensures key in fields ==> v == fields[key]
    ensures key !in fields ==> v == default
  {
    if key in fields then fields[key] else default
  }

  /** The text of the `AttributeError` Python raises when a `v` is asked for
      a method its type does not have. */
  function AttributeErrorMessage(v: Value, attribute: string): (m: string)
    requires '_' !in attribute
    ensures '_' !in m
  {
    var name := TypeName(v);
    var middle := "' object has no attribute '";
    assert '_' !in middle by {
      forall k | 0 <= k < |middle| ensures middle[k] != '_' {
      }
    }
    "'" + name + middle + attribute + "'"
  }
}
