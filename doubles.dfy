/**
 * JavaScript numbers as this model sees them: either NaN or a finite real.
 * Rounding is not modelled, and an infinity (a division by zero) is folded
 * into NaN: every comparison with it is false, as it is with NaN, and every
 * arithmetic result that involves it is again NaN.
 */
module Doubles {
  datatype Num = NaN | Fin(r: real)

  function Add(a: Num, b: Num): Num {
    if a.Fin? && b.Fin? then Fin(a.r + b.r) else NaN
  }

  function Sub(a: Num, b: Num): Num {
    if a.Fin? && b.Fin? then Fin(a.r - b.r) else NaN
  }

  function Mul(a: Num, b: Num): Num {
    if a.Fin? && b.Fin? then Fin(a.r * b.r) else NaN
  }

  /** `a / b`; a zero divisor gives a non-finite value. */
  function Div(a: Num, b: Num): Num {
    if a.Fin? && b.Fin? && b.r != 0.0 then Fin(a.r / b.r) else NaN
  }

  /** `Math.abs`. */
  function Abs(a: Num): Num {
    if a.NaN? then NaN else if a.r < 0.0 then Fin(-a.r) else a
  }

  /** `v <= t` for a finite `t`: false when `v` is NaN. */
  predicate AtMost(v: Num, t: real) {
    v.Fin? && v.r <= t
  }

  /** `v < t` for a finite `t`: false when `v` is NaN. */
  predicate Below(v: Num, t: real) {
    v.Fin? && v.r < t
  }

  /** The quotient of `u` by a non-zero `d` is the one number that gives `u` back when multiplied by `d`. */
  lemma QuotientUnique(u: real, d: real, q: real)
    requires d != 0.0 && q * d == u
    ensures u / d == q
  {
    var p := u / d;
    assert p * d == u;
    assert (p - q) * d == 0.0;
  }

  /** `Math.ceil` on a finite number. */
  function Ceil(r: real): (n: int)
    ensures n as real - 1.0 < r <= n as real
  {
    -((-r).Floor)
  }
}
