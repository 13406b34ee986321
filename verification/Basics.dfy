/** What several components share. */
module Basics {

  /** 0 is the zero time. */
  type Time = int

  datatype Option<+T> = None | Some(value: T)

  /** A stored value and the last instant at which it can be read. */
  datatype Timed<+T> = Timed(value: T, expiresAt: Time)

  /** How many entries a store looks at to remove expired ones while it stores another. */
  const SWEEP_BUDGET: nat := 64

  function Min(a: int, b: int): int { if a <= b then a else b }
}
