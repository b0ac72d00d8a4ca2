/**
 Conversion between a user's currency and the base currency. Stored totals are in the base currency; both
 directions are `int64(float64(total) * or / rate)`, which truncates toward zero. Arithmetic is exact here.
 */
module Conversion {

  /** Units of a currency per unit of the base currency. A zero rate has no meaning in the Go conversions. */
  type Rate = r: real | r > 0.0 witness 1.0

  function Trunc(x: real): int {
    if x >= 0.0 then x.Floor else -((-x).Floor)
  }

  function ToBase(total: int, rate: Rate): int { Trunc(total as real / rate) }

  function FromBase(total: int, rate: Rate): int { Trunc(total as real * rate) }

  /** The whole part, and the same on both sides of zero. */
  lemma TruncTowardZero(x: real)
    ensures x >= 0.0 ==> 0.0 <= Trunc(x) as real <= x < Trunc(x) as real + 1.0
    ensures Trunc(-x) == -Trunc(x)
  {
  }

  lemma ProductSign(x: real, r: Rate)
    ensures x >= 0.0 <==> x * r >= 0.0
    ensures x > 0.0 <==> x * r > 0.0
  {
  }

  lemma MulMonotone(x: real, y: real, r: Rate)
    ensures x <= y <==> x * r <= y * r
    ensures x < y <==> x * r < y * r
  {
    ProductSign(y - x, r);
    assert (y - x) * r == y * r - x * r;
  }

  function Scale(x: real, unit: real): real { x * unit }

  lemma ScaleMonotone(x: real, y: real, ulp: real)
    requires ulp > 0.0
    ensures x <= y <==> Scale(x, ulp) <= Scale(y, ulp)
    ensures x < y <==> Scale(x, ulp) < Scale(y, ulp)
  {
    MulMonotone(x, y, ulp);
  }

  lemma ScaleLower(x: real, q: real, low: real, rate: Rate)
    requires x == q * rate && low <= q
    ensures x - low * rate >= 0.0
  {
    var over := (q - low) * rate;
    ProductSign(q - low, rate);
    assert over >= 0.0;
    assert over == q * rate - low * rate;
  }

  lemma ScaleUpper(x: real, q: real, high: real, rate: Rate)
    requires x == q * rate && q < high
    ensures high * rate - x > 0.0
  {
    var rest := (high - q) * rate;
    ProductSign(high - q, rate);
    assert rest > 0.0;
    assert rest == high * rate - q * rate;
  }

  /** A stored total is the number of whole base units in the entered amount. */
  lemma ToBaseBracket(total: int, rate: Rate)
    requires total >= 0
    ensures ToBase(total, rate) >= 0
    ensures ToBase(total, rate) as real * rate <= total as real < (ToBase(total, rate) as real + 1.0) * rate
  {
    var q := total as real / rate;
    ProductSign(q, rate);
    ScaleLower(total as real, q, q.Floor as real, rate);
    ScaleUpper(total as real, q, q.Floor as real + 1.0, rate);
  }

  /** A displayed total is the whole part of the stored total's worth. */
  lemma FromBaseBracket(total: int, rate: Rate)
    requires total >= 0
    ensures FromBase(total, rate) >= 0
    ensures FromBase(total, rate) as real <= total as real * rate < FromBase(total, rate) as real + 1.0
  {
    MulMonotone(0.0, total as real, rate);
  }

  /** Entering and showing at one rate never gives more than was entered, and loses less than one unit plus the rate. */
  lemma ConversionError(total: int, rate: Rate)
    requires total >= 0
    ensures var shown := FromBase(ToBase(total, rate), rate);
            0 <= shown <= total && shown as real > total as real - rate - 1.0
  {
    var stored := ToBase(total, rate);
    ToBaseBracket(total, rate);
    FromBaseBracket(stored, rate);
    assert (stored as real + 1.0) * rate == stored as real * rate + rate;
  }

  /** Any two different rates display some stored total differently. */
  lemma DifferentRatesShow(r: Rate, r': Rate) returns (total: nat)
    requires r != r'
    ensures FromBase(total, r) != FromBase(total, r')
    ensures FromBase(total, r) != 0
  {
    if r < r' {
      total := Telling(r, r');
    } else {
      total := Telling(r', r);
    }
  }

  /** Enough units to be worth at least one at the low rate, and to differ by at least one. */
  lemma Telling(low: Rate, high: Rate) returns (total: nat)
    requires low < high
    ensures 0 < FromBase(total, low) < FromBase(total, high)
  {
    var a := Multiple(low);
    var b := Multiple(high - low);
    total := a + b;
    var n := total as real;
    ProductSign(n - a as real, low);
    assert (n - a as real) * low == n * low - a as real * low;
    ProductSign(n - b as real, high - low);
    assert (n - b as real) * (high - low) == n * (high - low) - b as real * (high - low);
    assert n * (high - low) == n * high - n * low;
  }

  lemma Multiple(r: Rate) returns (n: nat)
    ensures n as real * r >= 1.0
  {
    var q := 1.0 / r;
    assert q * r == 1.0;
    ProductSign(q, r);
    n := q.Floor + 1;
    ProductSign(n as real - q, r);
    assert (n as real - q) * r == n as real * r - q * r;
  }
}
