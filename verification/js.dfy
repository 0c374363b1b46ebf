/**
 * The JavaScript value shapes the route handlers and pages branch on:
 * optional values, request-body fields that may be left out or sent as
 * null, numbers after JavaScript's numeric coercion, and handler outcomes.
 */
module Js {

  /** A value that may be missing (`null`/`undefined` on the JavaScript side). */
  datatype Option<+T> = None | Some(value: T) {
    function GetOr(default: T): T {
      match this
      case Some(v) => v
      case None => default
    }
  }

  /** A field of a JSON request body: left out, sent as `null`, or sent with a value. */
  datatype Field<+T> = Absent | Null | Given(value: T) {
    /** `field !== undefined` */
    predicate Defined() {
      !Absent?
    }
  }

  /** A numeric body field after JavaScript's coercion: `undefined`, a value
      that coerces to `NaN`, or a number. */
  datatype Numeric = Undefined | NaN | Num(value: real)

  /** The outcome of a route handler: a success value, or an HTTP status with
      the `error` string of the JSON body. */
  datatype Response<+T> = Ok(value: T) | Fail(status: int, error: string)

  const InternalError := "Internal server error"

  /** A JSON value as it arrives in a request body. */
  datatype Json =
    | JNull
    | JBool(b: bool)
    | JNumber(n: real)
    | JString(s: string)
    | JArray(items: seq<Json>)
    | JObject(entries: seq<(string, Json)>)

  /** JavaScript truthiness of a JSON body field: arrays and objects are
      truthy even when empty. */
  predicate TruthyJson(f: Field<Json>) {
    f.Given? &&
    match f.value
    case JNull => false
    case JBool(b) => b
    case JNumber(n) => n != 0.0
    case JString(s) => s != ""
    case _ => true
  }

  /** JavaScript truthiness of a string field: sent, and not the empty string. */
  predicate TruthyText(f: Field<string>) {
    f.Given? && f.value != ""
  }

  /** JavaScript truthiness of a numeric field: sent, and not zero. */
  predicate TruthyNumber(f: Field<real>) {
    f.Given? && f.value != 0.0
  }

  /** JavaScript truthiness of an integer field: sent, and not zero. */
  predicate TruthyInt(f: Field<int>) {
    f.Given? && f.value != 0
  }

  /** JavaScript truthiness of a stored optional number: present and not zero. */
  predicate IsSetReal(o: Option<real>) {
    o.Some? && o.value != 0.0
  }

  /** JavaScript truthiness of a stored optional integer: present and not zero. */
  predicate IsSetInt(o: Option<int>) {
    o.Some? && o.value != 0
  }

  /** `parseFloat(x) || 0`: a missing, non-numeric or zero value becomes 0. */
  function NumberOrZero(n: Numeric): (r: real)
    ensures n.Num? ==> r == n.value
    ensures !n.Num? ==> r == 0.0
  {
    if n.Num? then n.value else 0.0
  }

  /** `x ? f(x) : null` for a numeric field: a falsy value is stored as null. */
  function RealOrNull(f: Field<real>): (r: Option<real>)
    ensures r.Some? <==> TruthyNumber(f)
    ensures r.Some? ==> r.value == f.value && r.value != 0.0
  {
    if TruthyNumber(f) then Some(f.value) else None
  }

  /** `x ? parseInt(x) : null` for an integer field. */
  function IntOrNull(f: Field<int>): (r: Option<int>)
    ensures r.Some? <==> TruthyInt(f)
    ensures r.Some? ==> r.value == f.value && r.value != 0
  {
    if TruthyInt(f) then Some(f.value) else None
  }

  /** `x || null` for an optional text column on create. */
  function TextOrNull(f: Field<string>): (r: Option<string>)
    ensures r.Some? <==> TruthyText(f)
    ensures r.Some? ==> r.value == f.value
  {
    if TruthyText(f) then Some(f.value) else None
  }

  /** A field stored as sent, `undefined` and `null` both becoming null: a
      category's description or icon on create, and a promo date
      (`x ? new Date(x) : null`, where a date string that was sent is
      non-empty). */
  function ValueOrNull<T>(f: Field<T>): (r: Option<T>)
    ensures r.Some? <==> f.Given?
    ensures r.Some? ==> r.value == f.value
  {
    if f.Given? then Some(f.value) else None
  }

  /** `x !== undefined ? x : existing` for an optional text column on update:
      a sent `null` clears the column, a left-out field keeps it. */
  function TextOrKeep(f: Field<string>, existing: Option<string>): (r: Option<string>)
    ensures f.Absent? ==> r == existing
    ensures f.Null? ==> r == None
    ensures f.Given? ==> r == Some(f.value)
  {
    match f
    case Absent => existing
    case Null => None
    case Given(v) => Some(v)
  }

  /** `x || existing` for a required text column on update. */
  function TextOr(f: Field<string>, existing: string): (r: string)
    ensures TruthyText(f) ==> r == f.value
    ensures !TruthyText(f) ==> r == existing
  {
    if TruthyText(f) then f.value else existing
  }
}
