/**
 * The JavaScript and Python values that travel over the control channel, as the client
 * and the server code inspect them: property reads that may yield `undefined`,
 * JavaScript truthiness, strict equality and the object spread `{...v}`.
 */
module Json {
  import opened Wrappers

  /** A parsed JSON value. Numbers are kept as reals; IEEE-754 details are not modelled. */
  datatype Json =
    | JNull
    | JBool(b: bool)
    | JNum(n: real)
    | JStr(s: string)
    | JArr(items: seq<Json>)
    | JObj(fields: map<string, Json>)

  /** Reading property `key` of an object; `None` stands for `undefined`. */
  function Field(fields: map<string, Json>, key: string): (r: Option<Json>)
    ensures r.Some? <==> key in fields
    ensures r.Some? ==> r.value == fields[key]
  {
    if key in fields then Some(fields[key]) else None
  }

  /** JavaScript truthiness of a value that may be `undefined` (`None`). */
  predicate Truthy(v: Option<Json>) {
    match v
    case None => false
    case Some(JNull) => false
    case Some(JBool(b)) => b
    case Some(JNum(n)) => n != 0.0
    case Some(JStr(s)) => s != []
    case Some(_) => true
  }

  /**
   * `a === b`. Primitives compare by value; two arrays or objects are never the same
   * reference here, because every value compared was produced by a separate parse.
   */
  predicate StrictEq(a: Option<Json>, b: Option<Json>) {
    match (a, b)
    case (None, None) => true
    case (Some(JNull), Some(JNull)) => true
    case (Some(JBool(x)), Some(JBool(y))) => x == y
    case (Some(JNum(x)), Some(JNum(y))) => x == y
    case (Some(JStr(x)), Some(JStr(y))) => x == y
    case _ => false
  }

  /** Decimal digits of a natural number, as JavaScript writes an array index. */
  function DecimalString(n: nat): (s: string)
    ensures |s| >= 1
    ensures forall k :: 0 <= k < |s| ==> '0' <= s[k] <= '9'
    decreases n
  {
    var d := [(48 + n % 10) as char];
    if n < 10 then d else DecimalString(n / 10) + d
  }

  /** The own enumerable properties of a sequence, keyed by index, as `{...xs}` copies them. */
  function IndexFields<T>(xs: seq<T>, wrap: T -> Json): (m: map<string, Json>)
    ensures |m.Keys| <= |xs|
    decreases |xs|
  {
    if xs == [] then map[]
    else IndexFields(xs[..|xs| - 1], wrap)[DecimalString(|xs| - 1) := wrap(xs[|xs| - 1])]
  }

  /** `{...v}`: the plain object a spread of `v` yields. `null`, booleans and numbers give `{}`. */
  function Spread(v: Json): (m: map<string, Json>)
    ensures v.JObj? ==> m == v.fields
    ensures v.JNull? || v.JBool? || v.JNum? ==> m == map[]
  {
    match v
    case JObj(fields) => fields
    case JArr(items) => IndexFields(items, (x: Json) => x)
    case JStr(s) => IndexFields(s, (c: char) => JStr([c]))
    case _ => map[]
  }
}
