/** JavaScript values, as far as the client's helpers look at them: the
    `typeof` tests, truthiness, string conversion (template literals and
    `String(x)`), property reads, and the response object that the request
    pipeline hands to the response classifier. */
module Js {

  datatype Option<+T> = None | Some(value: T)

  /** A JavaScript value. Numbers are modelled as integers; `Obj` is a plain
      object with its own enumerable properties. */
  datatype JsValue =
    | Undefined
    | Null
    | Bool(b: bool)
    | Num(n: int)
    | Str(s: string)
    | Obj(fields: map<string, JsValue>)

  /** JavaScript truthiness: `undefined`, `null`, `false`, `0` and `""` are falsy. */
  predicate Truthy(v: JsValue)
  {
    match v
    case Undefined => false
    case Null => false
    case Bool(b) => b
    case Num(n) => n != 0
    case Str(s) => s != ""
    case Obj(_) => true
  }

  /** `typeof v === 'string' && v` : a string with at least one character. */
  predicate NonEmptyString(v: JsValue)
  {
    v.Str? && v.s != ""
  }

  function DigitChar(d: nat): (c: char)
    requires d < 10
    ensures '0' <= c <= '9'
  {
    "0123456789"[d]
  }

  /** Decimal digits of a natural number, as `String(n)` prints it. */
  function NatToString(n: nat): (r: string)
    ensures |r| > 0
    ensures forall i :: 0 <= i < |r| ==> '0' <= r[i] <= '9'
    decreases n
  {
    if n < 10 then [DigitChar(n)] else NatToString(n / 10) + [DigitChar(n % 10)]
  }

  function IntToString(n: int): (r: string)
    ensures |r| > 0
  {
    if n < 0 then "-" + NatToString(-n) else NatToString(n)
  }

  /** `String(v)`, which is also what a template literal `${v}` inserts. */
  function ToText(v: JsValue): string
  {
    match v
    case Undefined => "undefined"
    case Null => "null"
    case Bool(b) => if b then "true" else "false"
    case Num(n) => IntToString(n)
    case Str(s) => s
    case Obj(_) => "[object Object]"
  }

  /** The text of an optional string argument, as `new Error(v)` takes its
      message and `TextEncoder.encode(v)` its input: an absent argument is the
      empty string, anything else is converted by `String(v)`. */
  function ArgumentText(v: JsValue): (r: string)
    ensures v.Str? ==> r == v.s
  {
    if v == Undefined then "" else ToText(v)
  }

  /** `v[key]` on a value whose property read does not throw: only a plain
      object has the keys the helpers ask for. */
  function Get(v: JsValue, key: string): (r: JsValue)
    ensures r != Undefined ==> v.Obj? && key in v.fields
  {
    if v.Obj? && key in v.fields then v.fields[key] else Undefined
  }

  /** A property of a plain object, `o[key]`. */
  function Field(o: map<string, JsValue>, key: string): JsValue
  {
    if key in o then o[key] else Undefined
  }

  /** The response object of an HTTP exchange: its status, its headers (names
      in lower case, as `Headers.get` compares them case-insensitively) and
      the body cache `parsedBody` that the request pipeline fills. */
  datatype Response = Response(status: int, headers: map<string, string>, parsedBody: JsValue)

  /** `response.headers.get(name)`: the header value, or `null` when absent. */
  function HeaderGet(r: Response, name: string): (v: Option<string>)
    ensures v.Some? <==> name in r.headers
    ensures v.Some? ==> v.value == r.headers[name]
  {
    if name in r.headers then Some(r.headers[name]) else None
  }
}
