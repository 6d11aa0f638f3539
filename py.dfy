/** The small slice of Python's data model the handlers rely on: JSON-like
    payload values, the exceptions they raise, and `str()` on both. */
module Py {

  datatype Option<+T> = None | Some(value: T)

  /** A Python exception, by class and constructor argument. `ClientError`
      stands for an error raised by the AWS SDK, carrying its text;
      `Exception` is the base class raised with a message of one's own. */
  datatype PyError =
    | KeyError(key: string)
    | ValueError(text: string)
    | TypeError(text: string)
    | ClientError(text: string)
    | Exception(text: string)

  /** Either a value or the exception that aborted the computation. */
  datatype Result<+T> = Ok(value: T) | Err(error: PyError) {
    predicate IsFailure() { Err? }
    function PropagateFailure<U>(): Result<U> requires Err? { Err(error) }
    function Extract(): T requires Ok? { value }
  }

  /** `str(e)` for an exception: a KeyError shows its key quoted. */
  function Message(e: PyError): string {
    match e
    case KeyError(k) => "'" + k + "'"
    case ValueError(t) => t
    case TypeError(t) => t
    case ClientError(t) => t
    case Exception(t) => t
  }

  function DigitChar(d: nat): (c: char)
    requires d < 10
    ensures '0' <= c <= '9'
  {
    "0123456789"[d]
  }

  /** Decimal rendering of a natural number, most significant digit first. */
  function NatToString(n: nat): (s: string)
    ensures |s| >= 1
    ensures forall i | 0 <= i < |s| :: '0' <= s[i] <= '9'
    ensures s[|s| - 1] == DigitChar(n % 10)
  {
    if n < 10 then [DigitChar(n)] else NatToString(n / 10) + [DigitChar(n % 10)]
  }

  /** `str(i)` for a Python int. */
  function IntToString(i: int): string {
    if i < 0 then "-" + NatToString(-i) else NatToString(i)
  }

  /** A JSON scalar as the handlers receive it. */
  datatype Scalar = Str(s: string) | Int(i: int) | Bool(b: bool) | Null

  /** A payload value: a scalar or a list of scalars. */
  datatype Value = Scalar(x: Scalar) | List(items: seq<Scalar>)

  type Dict = map<string, Value>

  function S(s: string): Value { Scalar(Str(s)) }

  predicate IsStr(v: Value) { v.Scalar? && v.x.Str? }

  /** Values that support `len()` and slicing: strings and lists. */
  predicate Sized(v: Value) { IsStr(v) || v.List? }

  function Len(v: Value): nat
    requires Sized(v)
  {
    if v.List? then |v.items| else |v.x.s|
  }

  /** The name Python's error messages use for a scalar's type. */
  function TypeName(x: Scalar): string {
    match x
    case Str(_) => "str"
    case Int(_) => "int"
    case Bool(_) => "bool"
    case Null => "NoneType"
  }

  function Min(a: nat, b: nat): nat { if a <= b then a else b }

  /** `v[:n]`: the first `n` characters or items; other types are not subscriptable. */
  function Slice(v: Value, n: nat): (r: Result<Value>)
    ensures r.Ok? <==> Sized(v)
    ensures r.Ok? ==> Sized(r.value) && Len(r.value) == Min(Len(v), n)
    ensures r.Ok? && Len(v) <= n ==> r.value == v
    ensures r.Ok? && IsStr(v) ==> IsStr(r.value) && r.value.x.s == v.x.s[..Min(|v.x.s|, n)]
    ensures r.Ok? && v.List? ==> r.value.List? && r.value.items == v.items[..Min(|v.items|, n)]
    ensures !Sized(v) ==> r == Err(TypeError("'" + TypeName(v.x) + "' object is not subscriptable"))
  {
    match v
    case List(items) => Ok(List(items[..Min(|items|, n)]))
    case Scalar(Str(s)) => Ok(S(s[..Min(|s|, n)]))
    case Scalar(x) => Err(TypeError("'" + TypeName(x) + "' object is not subscriptable"))
  }

  /** `str(x)` for a scalar. */
  function ScalarStr(x: Scalar): string {
    match x
    case Str(s) => s
    case Int(i) => IntToString(i)
    case Bool(b) => if b then "True" else "False"
    case Null => "None"
  }

  /** `repr(x)` for a scalar inside a list; strings are single-quoted. */
  function ScalarRepr(x: Scalar): string {
    if x.Str? then "'" + x.s + "'" else ScalarStr(x)
  }

  function JoinReprs(items: seq<Scalar>): string
    decreases |items|
  {
    if |items| == 0 then ""
    else if |items| == 1 then ScalarRepr(items[0])
    else JoinReprs(items[..|items| - 1]) + ", " + ScalarRepr(items[|items| - 1])
  }

  /** `str(v)` (and the f-string rendering `f"{v}"`) for a payload value. */
  function ValueStr(v: Value): string {
    match v
    case Scalar(x) => ScalarStr(x)
    case List(items) => "[" + JoinReprs(items) + "]"
  }
}
