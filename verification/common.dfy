/**
  Shared vocabulary: optional values, results with an error, and the scalar
  values that travel between the browser and the API (query parameters,
  filter fields) together with JavaScript/Python truthiness.
 */
module Common {

  /** A value that may be absent: JavaScript `undefined`/`null`, Python `None`. */
  datatype Option<+T> = None | Some(value: T) {
    function GetOr(default: T): T {
      match this
      case Some(v) => v
      case None => default
    }
  }

  /** The outcome of an operation that may raise. */
  datatype Result<+T, +E> = Success(value: T) | Failure(error: E)

  /** A scalar field value: a string, an integer, or JavaScript's NaN. */
  datatype Value = Str(s: string) | Int(i: int) | NaN

  /** Truthiness shared by JavaScript and Python on these values. */
  predicate Truthy(v: Option<Value>) {
    match v
    case None => false
    case Some(Str(s)) => s != ""
    case Some(Int(i)) => i != 0
    case Some(NaN) => false
  }

  /** An optional string that is present and non-empty (`if s:` / `s && …`). */
  predicate Present(s: Option<string>) {
    s.Some? && s.value != ""
  }

  /** `a || b` on optional strings: the first if it is truthy, else the second. */
  function OrElse(a: Option<string>, b: Option<string>): Option<string> {
    if Present(a) then a else b
  }

  function Min(a: int, b: int): int { if a <= b then a else b }
  function Max(a: int, b: int): int { if a >= b then a else b }
}
