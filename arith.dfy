/** Integer helpers for the bounds that `Math.min`, `Math.max` and `slice`
    compute. */
module Arith {

  function Min(a: int, b: int): int { if a <= b then a else b }

  function Max(a: int, b: int): int { if a <= b then b else a }
}
