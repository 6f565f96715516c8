/** JavaScript numbers as the model sees them.  A value produced by
    `parseFloat` is `Some(x)` for a finite real `x` and `None` for NaN; every
    ordering comparison with NaN is false, which is what the band tables of
    both risk scorers rely on. */
module JsNumber {
  import opened Wrappers

  type Parsed = Option<real>

  /** `x < c` evaluated by JavaScript. */
  predicate Lt(x: Parsed, c: real) {
    x.Some? && x.value < c
  }

  /** `x > c` evaluated by JavaScript. */
  predicate Gt(x: Parsed, c: real) {
    x.Some? && x.value > c
  }

  /** `Math.min(a, b)` on integers. */
  function Min(a: int, b: int): (m: int)
    ensures m <= a && m <= b
    ensures m == a || m == b
  {
    if a <= b then a else b
  }

  /** `Math.max(a, b)` on integers. */
  function Max(a: int, b: int): (m: int)
    ensures m >= a && m >= b
    ensures m == a || m == b
  {
    if a >= b then a else b
  }
}
