/**
 * The JavaScript values that flow between the SQLite driver, the stored
 * records and the catalog read model, with the two pieces of JavaScript
 * semantics the core relies on: truthiness (`Boolean(v)`, `v ? a : b`) and
 * template-literal interpolation (`${v}`), which builds all of the SQL text.
 */
module Js {

  datatype Option<+T> = None | Some(value: T)

  /** The three kinds of failure the core can raise or pass on. */
  datatype Error =
    | SqliteError(message: string)   // a driver failure, passed on unchanged
    | TypeError(property: string)    // reading `property` of null
    | UnknownField(name: string)     // the field whitelist of StoredFile refused `name`

  datatype Result<+T> = Success(value: T) | Failure(error: Error)

  /** The outcome of an operation that resolves with no value. */
  datatype Outcome = Pass | Fail(error: Error)

  /**
   * A JavaScript value as the core sees it. Numbers are integers (every
   * numeric column of the core is INTEGER); `Blob` is an opaque Buffer.
   */
  datatype JsValue =
    | Undefined
    | Null
    | Bool(b: bool)
    | Num(n: int)
    | Str(s: string)
    | Blob(handle: nat)

  /** `Boolean(v)`: the falsy values are undefined, null, false, 0 and "". */
  predicate Truthy(v: JsValue)
  {
    match v
    case Undefined => false
    case Null => false
    case Bool(b) => b
    case Num(n) => n != 0
    case Str(s) => s != ""
    case Blob(_) => true
  }

  function DigitChar(d: nat): (c: char)
    requires d < 10
    ensures '0' <= c <= '9'
  {
    "0123456789"[d]
  }

  /** The decimal numeral of a natural number, as `String(n)` writes it. */
  function Decimal(n: nat): (r: string)
    ensures |r| >= 1
    ensures forall i :: 0 <= i < |r| ==> '0' <= r[i] <= '9'
    decreases n
  {
    if n < 10 then [DigitChar(n)] else Decimal(n / 10) + [DigitChar(n % 10)]
  }

  /** `${v}` in a template literal. */
  function Interp(v: JsValue): string
  {
    match v
    case Undefined => "undefined"
    case Null => "null"
    case Bool(b) => if b then "true" else "false"
    case Num(n) => if n < 0 then "-" + Decimal(-n) else Decimal(n)
    case Str(s) => s
    case Blob(_) => ""
  }

  /** A number never renders with a comma, a slash or a dot, so it is safe inside a comma- or slash-separated list or a dotted name. */
  lemma NumberHasNoSeparator(n: int)
    ensures ',' !in Interp(Num(n)) && '/' !in Interp(Num(n)) && '.' !in Interp(Num(n))
  {
    var d := Decimal(if n < 0 then -n else n);
    assert forall i :: 0 <= i < |d| ==> d[i] != ',' && d[i] != '/' && d[i] != '.';
  }
}
