/**
 * The JavaScript values the form core passes through without interpreting
 * them: component props, initial values, custom rule expressions.
 * Numbers are integers here; truthiness follows the language's `!!v`.
 */
module JsValues {
  import opened Wrappers

  datatype Value =
    | Undefined
    | Null
    | Bool(b: bool)
    | Num(n: int)
    | Str(s: string)
    | List(items: seq<Value>)
    | Record(fields: map<string, Value>)

  /** `!!v`: false exactly for undefined, null, false, 0 and "". */
  predicate Truthy(v: Value) {
    match v
    case Undefined => false
    case Null => false
    case Bool(b) => b
    case Num(n) => n != 0
    case Str(s) => s != ""
    case List(_) => true
    case Record(_) => true
  }

  /** Property read `obj[key]`: a missing key reads as undefined. */
  function Get(fields: map<string, Value>, key: string): Value {
    if key in fields then fields[key] else Undefined
  }

  /** An optional string field seen as a value (absent is undefined). */
  function OfString(o: Option<string>): Value {
    match o
    case Some(s) => Str(s)
    case None => Undefined
  }

  /** `o || d` for an optional number field. */
  function NumberOr(o: Option<int>, d: int): int {
    if o.Some? && o.value != 0 then o.value else d
  }

  /** Truthiness of an optional number field. */
  predicate TruthyNumber(o: Option<int>) {
    o.Some? && o.value != 0
  }

  /** Truthiness of an optional string field. */
  predicate TruthyString(o: Option<string>) {
    o.Some? && o.value != ""
  }

  /** Truthiness of an optional boolean flag. */
  predicate IsSet(o: Option<bool>) {
    o == Some(true)
  }

  /** `v?.length` for a value read out of props: arrays and strings have one. */
  function LengthOf(v: Value): Option<nat> {
    match v
    case List(items) => Some(|items|)
    case Str(s) => Some(|s|)
    case _ => None
  }
}
