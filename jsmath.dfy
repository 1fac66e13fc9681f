/** The parts of JavaScript's number semantics and `Math` object the
    projection engine relies on, over Dafny's exact reals.

    Results that JavaScript would report as NaN or an infinity (a division by
    zero, arithmetic on `undefined`) are represented by `None`. */
module JsMath {

  datatype Option<+T> = None | Some(value: T)

  /** `Math.max(a, b)` */
  function Max(a: real, b: real): (m: real)
    ensures m >= a && m >= b
    ensures m == a || m == b
  {
    if a >= b then a else b
  }

  /** `Math.min(a, b)` */
  function Min(a: real, b: real): (m: real)
    ensures m <= a && m <= b
    ensures m == a || m == b
  {
    if a <= b then a else b
  }

  /** `Math.floor(x)` */
  function Floor(x: real): (n: int)
    ensures n as real <= x < n as real + 1.0
  {
    x.Floor
  }

  /** `Math.ceil(x)` */
  function Ceil(x: real): (n: int)
    ensures x <= n as real < x + 1.0
  {
    -((-x).Floor)
  }

  /** What the engine needs of `Math.pow(base, exponent)` for a fractional
      exponent: a positive base gives a positive power, a base above 1 raised
      to a positive exponent gives more than 1, and for a base above 1 the
      power grows with the exponent. */
  ghost predicate PowLaws(pow: (real, real) -> real)
  {
    && (forall b, e :: b > 0.0 ==> pow(b, e) > 0.0)
    && (forall b, e :: b > 1.0 && e > 0.0 ==> pow(b, e) > 1.0)
    && (forall b, e1, e2 :: b > 1.0 && e1 <= e2 ==> pow(b, e1) <= pow(b, e2))
  }

  /** A step function that satisfies `PowLaws`; it only shows that `PowFn`
      is inhabited and is never used as a model of `Math.pow`. */
  function StepPow(b: real, e: real): real
  {
    if b > 1.0 && e > 0.0 then b else if b > 0.0 then 1.0 else 0.0
  }

  /** Every power function the engine may be given. */
  type PowFn = pow: (real, real) -> real | PowLaws(pow) witness StepPow
}
