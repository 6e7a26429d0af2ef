/** Order facts about products and quotients of reals, and the C library's
    `round`. */
module Reals {

  lemma MulMono(a: real, b: real, c: real)
    requires a <= b && 0.0 <= c
    ensures a * c <= b * c && c * a <= c * b
  {
    assert 0.0 <= (b - a) * c;
  }

  lemma MulMonoStrict(a: real, b: real, c: real)
    requires a < b && 0.0 < c
    ensures a * c < b * c
  {
    assert 0.0 < (b - a) * c;
  }

  lemma ProductInUnit(a: real, b: real)
    requires 0.0 <= a <= 1.0 && 0.0 <= b <= 1.0
    ensures 0.0 <= a * b <= 1.0
  {
    MulMono(0.0, a, b);
    MulMono(a, 1.0, b);
    assert 0.0 == 0.0 * b <= a * b <= 1.0 * b == b;
  }

  lemma DivMono(a: real, b: real, c: real)
    requires a <= b && 0.0 < c
    ensures a / c <= b / c
  {
    var p, q := a / c, b / c;
    assert p * c == a && q * c == b;
    if p > q { MulMonoStrict(q, p, c); }
  }

  lemma RatioBounds(a: real, b: real)
    requires 0.0 < b
    ensures 0.0 <= a ==> 0.0 <= a / b
    ensures a / b >= 1.0 <==> a >= b
  {
    var q := a / b;
    assert q * b == a;
    if q >= 1.0 { MulMono(1.0, q, b); } else { MulMonoStrict(q, 1.0, b); }
    if 0.0 <= a { DivMono(0.0, a, b); }
  }

  function Clamp01(x: real): (r: real)
    ensures 0.0 <= r <= 1.0
  {
    if x < 0.0 then 0.0 else if x > 1.0 then 1.0 else x
  }

  /** Half away from zero, as the C library rounds. */
  function Round(x: real): (r: int)
    ensures -0.5 <= r as real - x <= 0.5
  {
    if x >= 0.0 then (x + 0.5).Floor else -((-x + 0.5).Floor)
  }

  /** A share of `n`, rounded. */
  function ScaledRound(x: real, n: nat): (k: nat)
    requires 0.0 <= x <= 1.0
    ensures k <= n
  {
    var share := x * n as real;
    ScaledWithin(x, n as real);
    RoundWithin(share, n);
    Round(share)
  }

  lemma ScaledNear(x: real, n: nat)
    requires 0.0 <= x <= 1.0
    ensures -0.5 <= ScaledRound(x, n) as real - x * n as real <= 0.5
  {
  }

  lemma ScaledWithin(x: real, span: real)
    requires 0.0 <= x <= 1.0 && 0.0 <= span
    ensures 0.0 <= x * span <= span
  {
    MulMono(0.0, x, span);
    MulMono(x, 1.0, span);
    assert 0.0 == 0.0 * span <= x * span <= 1.0 * span == span;
  }

  lemma RoundWithin(x: real, n: nat)
    requires 0.0 <= x <= n as real
    ensures 0 <= Round(x) <= n
  {
  }
}
