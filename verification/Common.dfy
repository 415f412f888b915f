/** Types and constants used by several components. */
module Common {
  datatype Option<+T> = None | Some(value: T)

  /** Times and durations are integer nanoseconds. */
  const SECOND := 1_000_000_000
  const MINUTE := 60 * SECOND

  function Min(a: int, b: int): int { if a <= b then a else b }

  /** Go's conversion of a float to an integer drops the fraction, towards zero. */
  function Trunc(x: real): int { if x >= 0.0 then x.Floor else -((-x).Floor) }

  lemma {:induction false} MulMono(a: int, b: int, r: int)
    requires a <= b && r >= 0
    ensures a * r <= b * r
  {}
}
