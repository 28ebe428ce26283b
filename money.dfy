/** Java's BigDecimal as far as the shop uses it: a value and `setScale(2, RoundingMode.DOWN)`. */
module Money {

  /** The number `unscaled * 10^(-scale)`, as BigDecimal stores it. */
  datatype Decimal = Decimal(unscaled: int, scale: int)

  function Pow10(n: nat): (r: nat)
    ensures r >= 1
  {
    if n == 0 then 1 else 10 * Pow10(n - 1)
  }

  /** Integer quotient rounded toward zero (BigDecimal's DOWN); Dafny's own `/` floors instead. */
  function QuotDown(a: int, b: int): (q: int)
    requires b > 0
    ensures 0 <= a ==> 0 <= q * b <= a < q * b + b
    ensures a < 0 ==> q * b - b < a <= q * b <= 0
  {
    if a >= 0 then DivBounds(a, b); a / b
    else DivBounds(-a, b); -((-a) / b)
  }

  lemma DivBounds(n: nat, b: int)
    requires b > 0
    ensures 0 <= (n / b) * b <= n < (n / b) * b + b
  {
    assert n == (n / b) * b + n % b;
  }

  /** Both decimals denote the same number, whatever their scales. */
  predicate SameValue(a: Decimal, b: Decimal)
  {
    var m := if a.scale < b.scale then b.scale else a.scale;
    a.unscaled * Pow10(m - a.scale) == b.unscaled * Pow10(m - b.scale)
  }

  /**
   * `d.setScale(2, RoundingMode.DOWN)`: the same number when it has at most two decimals,
   * otherwise the extra digits are dropped, moving toward zero.
   */
  function SetScale2Down(d: Decimal): (r: Decimal)
    ensures r.scale == 2
    ensures d.scale <= 2 ==> SameValue(r, d)
    ensures d.scale > 2 && 0 <= d.unscaled ==>
      var unit := Pow10(d.scale - 2);
      0 <= r.unscaled * unit <= d.unscaled < r.unscaled * unit + unit
    ensures d.scale > 2 && d.unscaled < 0 ==>
      var unit := Pow10(d.scale - 2);
      r.unscaled * unit - unit < d.unscaled <= r.unscaled * unit <= 0
  {
    if d.scale <= 2 then Decimal(d.unscaled * Pow10(2 - d.scale), 2)
    else Decimal(QuotDown(d.unscaled, Pow10(d.scale - 2)), 2)
  }

  /** Truncating twice is truncating once. */
  lemma SetScale2DownIdempotent(d: Decimal)
    ensures SetScale2Down(SetScale2Down(d)) == SetScale2Down(d)
  {
  }

  /** `longValue()` or an `(int)` cast of a number: its integer part, truncated toward zero. */
  function IntegerPart(d: Decimal): (n: int)
    ensures d.scale <= 0 ==> n == d.unscaled * Pow10(-d.scale)
    ensures d.scale > 0 && 0 <= d.unscaled ==>
      var unit := Pow10(d.scale);
      0 <= n * unit <= d.unscaled < n * unit + unit
    ensures d.scale > 0 && d.unscaled < 0 ==>
      var unit := Pow10(d.scale);
      n * unit - unit < d.unscaled <= n * unit <= 0
  {
    if d.scale <= 0 then d.unscaled * Pow10(-d.scale) else QuotDown(d.unscaled, Pow10(d.scale))
  }

  /** A whole number, however it is scaled, reads back as itself. */
  lemma IntegerPartOfWhole(d: Decimal, n: int)
    requires SameValue(d, Decimal(n, 0))
    ensures IntegerPart(d) == n
  {
    if d.scale > 0 {
      var unit := Pow10(d.scale);
      assert Pow10(0) == 1;
      assert d.unscaled == n * unit;
      var q := IntegerPart(d);
      if q < n {
        StepApart(q, n, unit);
      } else if n < q {
        StepApart(n, q, unit);
      }
    }
  }

  /** Multiples of a positive unit by distinct integers lie at least one unit apart. */
  lemma StepApart(a: int, b: int, unit: int)
    requires a < b && unit > 0
    ensures a * unit + unit <= b * unit
  {
    var gap := b - a - 1;
    assert gap >= 0;
    assert gap * unit >= 0;
    assert b * unit == (a + 1 + gap) * unit == a * unit + unit + gap * unit;
  }
}
