/**
 * Money crosses the API as decimal dollars and is stored as integer cents.
 * Amounts are exact rationals here (`real`); the floating-point artefacts
 * of `Math.round(amount * 100)` are not modelled.
 */
module Money {

  /** `Math.round(x)`: the nearest integer, a half rounded up. */
  function Round(x: real): (r: int)
    ensures r as real - 0.5 <= x < r as real + 0.5
  {
    (x + 0.5).Floor
  }

  /** `toCents`: `Math.round(amount * 100)`. */
  function ToCents(amount: real): (c: int)
    ensures amount > 0.0 ==> c >= 0
  {
    Round(amount * 100.0)
  }

  /** `toDollars`: `cents / 100`. */
  function ToDollars(cents: int): (d: real)
    ensures d * 100.0 == cents as real
    ensures d >= 0.0 <==> cents >= 0
  {
    cents as real / 100.0
  }

  /** An amount with at most two decimals survives the trip through cents. */
  lemma DollarsOfCents(amount: real, cents: int)
    requires amount * 100.0 == cents as real
    ensures ToCents(amount) == cents && ToDollars(ToCents(amount)) == amount
  {
  }

  /** Cents survive the trip through dollars. */
  lemma CentsOfDollars(cents: int)
    ensures ToCents(ToDollars(cents)) == cents
  {
  }

  /** `Math.round(a / b)` on a non-negative integer and a positive one, in integer arithmetic. */
  function RoundDiv(a: int, b: int): (r: int)
    requires a >= 0 && b > 0
    ensures 0 <= r <= a
    ensures 2 * b * r <= 2 * a + b < 2 * b * (r + 1)
  {
    var r := (2 * a + b) / (2 * b);
    DivBounds(2 * a + b, 2 * b);
    assert r <= a by { QuotientAtMost(a, b, r); }
    r
  }

  lemma DivBounds(n: int, d: int)
    requires n >= 0 && d > 0
    ensures d * (n / d) <= n < d * (n / d + 1)
  {
  }

  lemma QuotientAtMost(a: int, b: int, r: int)
    requires a >= 0 && b > 0 && 2 * b * r <= 2 * a + b
    ensures r <= a
  {
    if r > a {
      assert 2 * b * r >= 2 * b * (a + 1) by {
        assert r >= a + 1;
        MulLe(2 * b, a + 1, r);
      }
      assert 2 * b * (a + 1) == 2 * a * b + 2 * b;
      MulLe(b, 1, a + 1);
    }
  }

  lemma MulLe(k: int, x: int, y: int)
    requires k >= 0 && x <= y
    ensures k * x <= k * y
  {
  }

  /** The integer formula is `Math.round` of the exact quotient. */
  lemma RoundDivIsRound(a: int, b: int)
    requires a >= 0 && b > 0
    ensures RoundDiv(a, b) == Round(a as real / b as real)
  {
    var r := RoundDiv(a, b);
    var x := a as real / b as real;
    ScaleBack(x, a as real, b as real, r as real);
    RoundUnique(x, r);
  }

  lemma ScaleBack(x: real, a: real, b: real, r: real)
    requires b > 0.0 && x == a / b
    requires 2.0 * b * r <= 2.0 * a + b < 2.0 * b * (r + 1.0)
    ensures r - 0.5 <= x < r + 0.5
  {
    var rb := r * b;
    assert a == x * b;
    assert 2.0 * rb <= 2.0 * a + b < 2.0 * rb + 2.0 * b;
    assert (r - 0.5) * b == rb - 0.5 * b;
    assert (r + 0.5) * b == rb + 0.5 * b;
    MulLeCancel(r - 0.5, x, b);
    MulLtCancel(x, r + 0.5, b);
  }

  lemma MulLeCancel(p: real, q: real, b: real)
    requires b > 0.0 && p * b <= q * b
    ensures p <= q
  {
  }

  lemma MulLtCancel(p: real, q: real, b: real)
    requires b > 0.0 && p * b < q * b
    ensures p < q
  {
  }

  /** Only one integer lies in `[x - 0.5, x + 0.5)`. */
  lemma RoundUnique(x: real, r: int)
    requires r as real - 0.5 <= x < r as real + 0.5
    ensures Round(x) == r
  {
  }
}
