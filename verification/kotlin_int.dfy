/**
  Kotlin's integer `/` and `%` on `Int`, which truncate toward zero, written
  out over Dafny's Euclidean operators. Only positive divisors occur in the
  model, so only those are defined.
 */
module KotlinInt {

  /** Kotlin `a / b` for `b > 0`: the quotient rounded toward zero. */
  function Div(a: int, b: int): (q: int)
    requires b > 0
    ensures 0 <= a ==> 0 <= a - b * q < b
    ensures a < 0 ==> -b < a - b * q <= 0
  {
    if a >= 0 then a / b else -((-a) / b)
  }

  /** Kotlin `a % b` for `b > 0`: the remainder takes the sign of `a`. */
  function Rem(a: int, b: int): (r: int)
    requires b > 0
    ensures a == b * Div(a, b) + r
    ensures -b < r < b
    ensures 0 <= a ==> 0 <= r
    ensures a <= 0 ==> r <= 0
  {
    a - b * Div(a, b)
  }

  /** On non-negative operands Kotlin and Dafny agree. */
  lemma {:induction false} AgreeOnNatural(a: int, b: int)
    requires 0 <= a && b > 0
    ensures Div(a, b) == a / b && Rem(a, b) == a % b
  {
    DivModUnique(a, b, Div(a, b), Rem(a, b));
  }

  /** Quotient and remainder are determined by `a == b * q + r` with `0 <= r < b`. */
  lemma {:induction false} DivModUnique(a: int, b: int, q: int, r: int)
    requires b > 0 && 0 <= r < b && a == b * q + r
    ensures a / b == q && a % b == r
  {
    var q0, r0 := a / b, a % b;
    assert b * (q - q0) == r0 - r;
    SmallMultiple(b, q - q0);
  }

  /** The only multiple of `b` strictly between `-b` and `b` is zero. */
  lemma SmallMultiple(b: int, k: int)
    requires b > 0 && -b < b * k < b
    ensures k == 0
  {
  }
}
