/** Values shared by every module of the model: an optional value, bytes,
    and the JavaScript notion of a "truthy" string that the source tests
    with `!x`, `x || d` and `x && y`. */
module Common {

  /** `null`/`undefined` versus a present value. */
  datatype Option<+T> = None | Some(value: T) {
    predicate IsFailure() {
      None?
    }

    function PropagateFailure<U>(): Option<U>
      requires None?
    {
      None
    }

    function Extract(): T
      requires Some?
    {
      value
    }

    function GetOr(default: T): T {
      match this
      case Some(v) => v
      case None => default
    }
  }

  /** One octet of a Node `Buffer`. */
  type byte = x: int | 0 <= x < 256

  /** A string operand is truthy in JavaScript exactly when it is present
      and non-empty. */
  predicate Truthy(s: Option<string>) {
    s.Some? && |s.value| > 0
  }

  /** `a || b` on an optional string operand: `a` when it is truthy,
      otherwise the fallback. */
  function OrElse(a: Option<string>, fallback: string): (r: string)
    ensures Truthy(a) ==> r == a.value
    ensures !Truthy(a) ==> r == fallback
  {
    if a.Some? && |a.value| > 0 then a.value else fallback
  }
}
