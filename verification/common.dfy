/** Small shared vocabulary: optional values, results, and integer clamping. */
module Common {

  /** A value that may be absent: JavaScript's `null`/`undefined` alternatives. */
  datatype Option<+T> = None | Some(value: T) {

    /** The carried value, or `default` when absent (JavaScript's `??`). */
    function GetOr(default: T): T {
      match this
      case Some(v) => v
      case None => default
    }
  }

  /** The outcome of an operation that can fail with an error of type `E`. */
  datatype Result<+T, +E> = Ok(value: T) | Err(error: E)

  function Min(a: int, b: int): int {
    if a <= b then a else b
  }

  function Max(a: int, b: int): int {
    if a <= b then b else a
  }

  /** `Math.min(Math.max(i, lo), hi)`: the point of `[lo, hi]` nearest to `i`. */
  function Clamp(i: int, lo: int, hi: int): (r: int)
    requires lo <= hi
    ensures lo <= r <= hi
    ensures lo <= i <= hi ==> r == i
    ensures i < lo ==> r == lo
    ensures hi < i ==> r == hi
  {
    Min(Max(i, lo), hi)
  }
}
