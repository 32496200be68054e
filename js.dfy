/**
 * JavaScript value shapes that the bot's code relies on: absent values,
 * the result of `parseInt` (which may be NaN) and the result of
 * `parseFloat` (which may be NaN).
 */
module Js {

  /** A value that may be absent (`undefined`/`null` in the source). */
  datatype Option<+T> = None | Some(value: T) {
    function GetOr(default: T): T {
      match this
      case Some(v) => v
      case None => default
    }
  }

  /** What `parseInt` returns: an integer, or NaN when no digits were found. */
  datatype IntOrNaN = NaN | Int(value: int) {
    /** JavaScript truthiness of a number: NaN and 0 are falsy. */
    predicate Truthy() {
      Int? && value != 0
    }
  }

  /** What `parseFloat` returns: a number, or NaN. */
  datatype RealOrNaN = RealNaN | Real(value: real)

  /** JavaScript truthiness of a string: only the empty string is falsy. */
  predicate TruthyText(s: string) {
    s != ""
  }

  /** Truthiness of an optional string (absent or empty is falsy). */
  predicate TruthyOpt(o: Option<string>) {
    o.Some? && o.value != ""
  }

  function Min(a: int, b: int): int {
    if a <= b then a else b
  }

  function Max(a: int, b: int): int {
    if a >= b then a else b
  }
}
