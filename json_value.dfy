/**
 * JSON values as the tracker's code sees them after `JSON.parse`, together
 * with the few JavaScript coercions the core relies on: truthiness, a
 * property read, object spread and `Object.values`.
 */
module JsonValue {

  datatype Option<+T> = None | Some(value: T)

  /** A parsed JSON value. Object key order is not modelled. */
  datatype Json =
    | JNull
    | JBool(b: bool)
    | JNum(n: real)
    | JStr(s: string)
    | JArr(items: seq<Json>)
    | JObj(fields: map<string, Json>)

  /** JavaScript truthiness; JSON has neither `undefined` nor `NaN`. */
  predicate Truthy(v: Json) {
    match v
    case JNull => false
    case JBool(b) => b
    case JNum(n) => n != 0.0
    case JStr(s) => s != ""
    case _ => true
  }

  /**
   * A named property read `v?.k` for a key that is neither an array index
   * nor "length": only objects carry such properties, and a missing
   * property reads as null (every use modelled treats undefined and null
   * alike).
   */
  function Field(v: Json, k: string): Json {
    if v.JObj? && k in v.fields then v.fields[k] else JNull
  }

  /** `e.k` on an object given by its fields. */
  function Get(e: map<string, Json>, k: string): Json {
    if k in e then e[k] else JNull
  }

  /** `a ?? b`: null (or undefined) falls back to `b`. */
  function OrElse(a: Json, b: Json): Json {
    if a.JNull? then b else a
  }

  function Digit(d: nat): char
    requires d < 10
  {
    "0123456789"[d]
  }

  /** The property key of array index `i`: its decimal numeral. */
  function IndexKey(i: nat): (k: string)
    ensures |k| > 0
  {
    if i < 10 then [Digit(i)] else IndexKey(i / 10) + [Digit(i % 10)]
  }

  /** The own properties of an array (or of a string's characters), keyed by index. */
  function SpreadSeq(items: seq<Json>): map<string, Json> {
    if items == [] then map[]
    else SpreadSeq(items[..|items| - 1])[IndexKey(|items| - 1) := items[|items| - 1]]
  }

  /** A string's characters as one-character strings. */
  function Chars(s: string): (r: seq<Json>)
    ensures |r| == |s|
  {
    seq(|s|, i requires 0 <= i < |s| => JStr([s[i]]))
  }

  /**
   * The properties `{...v}` copies: an object's fields, an array's
   * elements or a string's characters by index, and nothing for null,
   * booleans and numbers.
   */
  function Spread(v: Json): map<string, Json> {
    match v
    case JObj(m) => m
    case JArr(items) => SpreadSeq(items)
    case JStr(s) => SpreadSeq(Chars(s))
    case _ => map[]
  }

  /** The values `Object.values(v)` lists, as a set (only membership is ever asked). */
  function ValueSet(v: Json): set<Json> {
    match v
    case JObj(m) => m.Values
    case JArr(items) => set i | 0 <= i < |items| :: items[i]
    case JStr(s) => set i | 0 <= i < |s| :: JStr([s[i]])
    case _ => {}
  }

  /** `typeof v === "number" ? v : null` */
  function NumberOrNull(v: Json): (r: Option<real>)
    ensures r.Some? <==> v.JNum?
  {
    if v.JNum? then Some(v.n) else None
  }
}
