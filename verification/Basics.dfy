/** A value that may be absent, and a few small functions used throughout. */
module Basics {
  datatype Option<+T> = None | Some(value: T)

  /** Python's `a or b` on an optional number: zero counts as absent. */
  function Or(a: Option<real>, b: real): real { if a.None? || a.value == 0.0 then b else a.value }

  function Max(a: real, b: real): real { if a >= b then a else b }
  function Min(a: real, b: real): real { if a <= b then a else b }
  function IntMax(a: int, b: int): int { if a >= b then a else b }

  ghost predicate Distinct(names: seq<string>) { forall i, j :: 0 <= i < j < |names| ==> names[i] != names[j] }

  /** At most n elements from the front. */
  function First<T>(n: nat, xs: seq<T>): seq<T> { if |xs| <= n then xs else xs[..n] }
}
