/** Exact rational arithmetic: the rounding functions the program uses, and the few
    product facts its proofs need by name. */
module Rationals {

  function Max(a: real, b: real): real { if a < b then b else a }

  function Min(a: real, b: real): real { if b < a then b else a }

  function Abs(a: real): real { if a < 0.0 then -a else a }

  function Ceil(x: real): int { -((-x).Floor) }

  /** The floor and the ceiling of a quotient. */
  function FloorDiv(x: real, w: real): int
    requires w > 0.0
  {
    (x / w).Floor
  }

  function CeilDiv(x: real, w: real): int
    requires w > 0.0
  {
    Ceil(x / w)
  }

  /** `a` times the share `b` is of `c`. */
  function ShareOf(a: real, b: real, c: real): real
    requires c > 0.0
  {
    a * b / c
  }

  /** A product by name, so that a proof can use the facts below without the solver
      multiplying out. */
  function Times(a: real, b: real): real { a * b }

  lemma MulStrict(a: real, b: real, c: real)
    requires a < b && c > 0.0
    ensures a * c < b * c
  {
  }

  lemma MulWeak(a: real, b: real, c: real)
    requires a <= b && c >= 0.0
    ensures a * c <= b * c
  {
  }

  lemma TimesStrict(a: real, b: real, c: real)
    requires a < b && c > 0.0
    ensures Times(a, c) < Times(b, c)
  {
    MulStrict(a, b, c);
  }

  lemma TimesWeak(a: real, b: real, c: real)
    requires a <= b && c >= 0.0
    ensures Times(a, c) <= Times(b, c)
  {
    MulWeak(a, b, c);
  }

  lemma TimesUnit(c: real)
    ensures Times(0.0, c) == 0.0 && Times(1.0, c) == c
  {
  }

  lemma TimesDistributes(a: real, b: real, c: real)
    ensures Times(a + b, c) == Times(a, c) + Times(b, c)
    ensures Times(a - b, c) == Times(a, c) - Times(b, c)
  {
  }

  lemma CancelFactor(a: real, b: real, c: real)
    requires c != 0.0 && Times(a, c) == Times(c, b)
    ensures a == b
  {
  }

  lemma ProductNonNegative(a: real, b: real)
    requires a >= 0.0 && b >= 0.0
    ensures a * b >= 0.0
  {
  }

  lemma QuotientNonNegative(a: real, b: real)
    requires a >= 0.0 && b > 0.0
    ensures a / b >= 0.0
  {
  }

  lemma DivThenMul(a: real, b: real)
    requires b != 0.0
    ensures a / b * b == a
  {
  }

  lemma Scaled(q: real, n: real, x: real, w: real)
    requires w > 0.0 && x == q * w
    ensures q < n <==> x < n * w
    ensures q <= n <==> x <= n * w
  {
    if q < n {
      MulStrict(q, n, w);
    } else if n < q {
      MulStrict(n, q, w);
    }
  }

  lemma DivCompare(a: real, b: real, c: real)
    requires b > 0.0
    ensures a / b < c <==> a < c * b
    ensures a / b <= c <==> a <= c * b
  {
    DivThenMul(a, b);
    Scaled(a / b, c, a, b);
  }

  lemma QuotientBelow(a: real, b: real, c: real)
    requires b > 0.0
    ensures a / b < c <==> a < Times(c, b)
    ensures a / b <= c <==> a <= Times(c, b)
  {
    DivCompare(a, b, c);
  }

  lemma FloorBounds(x: real, w: real)
    requires w > 0.0
    ensures Times(FloorDiv(x, w) as real, w) <= x < Times((FloorDiv(x, w) + 1) as real, w)
  {
    hide Times;
    QuotientBelow(x, w, (x / w).Floor as real);
    QuotientBelow(x, w, ((x / w).Floor + 1) as real);
  }

  lemma CeilBounds(x: real, w: real)
    requires w > 0.0
    ensures Times((CeilDiv(x, w) - 1) as real, w) < x <= Times(CeilDiv(x, w) as real, w)
  {
    hide Times;
    QuotientBelow(x, w, Ceil(x / w) as real);
    QuotientBelow(x, w, (Ceil(x / w) - 1) as real);
  }

  lemma ShareTimes(a: real, b: real, c: real)
    requires c > 0.0
    ensures Times(ShareOf(a, b, c), c) == Times(b, a)
  {
    DivThenMul(a * b, c);
  }

  lemma ShareNonNegative(a: real, b: real, c: real)
    requires a >= 0.0 && b >= 0.0 && c > 0.0
    ensures ShareOf(a, b, c) >= 0.0
  {
    ProductNonNegative(a, b);
    QuotientNonNegative(a * b, c);
  }
}
