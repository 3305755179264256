/** JavaScript numbers and BigInt arithmetic. */
module JsNumbers {
  /** A number: a finite value, or anything `Number.isFinite` rejects. */
  datatype Num = NotFinite | Finite(value: real)

  /** `Number.MAX_SAFE_INTEGER`. */
  const MAX_SAFE: int := 9_007_199_254_740_991

  /** BigInt division truncates toward zero. */
  function TruncDiv(a: int, b: int): int
    requires b > 0
  {
    if a >= 0 then a / b else -(-a / b)
  }

  /** `Math.trunc`. */
  function Trunc(x: real): int {
    if x >= 0.0 then x.Floor else -(-x).Floor
  }

  predicate IsInteger(x: real) { x == x.Floor as real }

  /** `Number.isSafeInteger`. */
  predicate IsSafeInteger(n: Num) {
    n.Finite? && IsInteger(n.value) && -MAX_SAFE <= n.value.Floor <= MAX_SAFE
  }
}
