/**
 The round trip of amounts in binary floating point, rounded as in section 4.3.1 of IEEE 754-2019. Ranges of
 exponents are not modelled: the amounts here are far inside them.
 */
module Binary64 {
  import opened Wrappers
  import opened Decimal
  import opened Conversion
  import opened Money

  const TWO_TO_51: int := 0x8_0000_0000_0000
  const TWO_TO_52: int := 0x10_0000_0000_0000
  const TWO_TO_59: int := 0x800_0000_0000_0000
  const EPSILON: real := 1.0 / 0x20_0000_0000_0000 as real

  function Abs(x: real): real { if x >= 0.0 then x else -x }

  // ----- any rounding with a small relative error -----

  /** `y` is a rounding of `x` with relative error at most 2^-53. */
  predicate RoundedTo(x: real, y: real) { Abs(y - x) <= EPSILON * Abs(x) }

  /** With rounding in the parse and in the multiplication, what comes back is at most one hundredth short. */
  lemma PrintParseRounded(sub: int, parsed: real, product: real)
    requires 10 <= sub < TWO_TO_51
    requires var printed := ParseDecimal(KeepNumeric(ConvertSubToAmount(sub)));
             printed.Some? && RoundedTo(printed.value, parsed)
    requires RoundedTo(parsed * 100.0, product)
    ensures Trunc(product) == sub || Trunc(product) == sub - 1
  {
    PrintedValue(sub);
    TwoRoundings(sub as real, parsed, product);
  }

  lemma TwoRoundings(n: real, parsed: real, product: real)
    requires 10.0 <= n < TWO_TO_51 as real
    requires RoundedTo(n / 100.0, parsed) && RoundedTo(parsed * 100.0, product)
    ensures n - 1.0 < product < n + 1.0
  {
    assert Abs(parsed * 100.0 - n) <= EPSILON * n;
    assert Abs(product - parsed * 100.0) <= EPSILON * (2.0 * n);
    assert EPSILON * n * 3.0 < 1.0;
  }

  function Times(m: int, unit: real): real { m as real * unit }

  lemma ScaleLinear(x: real, y: real, unit: real)
    ensures Scale(x + y, unit) == Scale(x, unit) + Scale(y, unit)
    ensures Scale(x - y, unit) == Scale(x, unit) - Scale(y, unit)
    ensures Scale(0.0, unit) == 0.0 && Scale(1.0, unit) == unit
    ensures Scale(EPSILON * x, unit) == EPSILON * Scale(x, unit)
  {
  }

  /**
   Converting an entered amount to the base currency and back at one rate, each operation rounded: the truncations
   still never give more than was entered, and lose less than the rate and two units.
   */
  lemma ConversionErrorRounded(total: int, rate: Rate, quotient: real, product: real)
    requires 0 <= total < TWO_TO_51
    requires RoundedTo(total as real / rate, quotient)
    requires RoundedTo(Times(Trunc(quotient), rate), product)
    ensures 0 <= Trunc(product) <= total && Trunc(product) as real > total as real - rate - 2.0
  {
    hide RoundedTo, Trunc, Scale, Times;
    var t, share := total as real, total as real / rate;
    ShareScaled(t, share, rate);
    TimesIsScale(Trunc(quotient), rate);
    QuotientRounded(t, rate, share, quotient);
    TruncBelow(quotient);
    WholeUnitsWorth(quotient, Trunc(quotient) as real, rate);
    ProductRounded(t, rate, Scale(quotient, rate), Scale(Trunc(quotient) as real, rate), product);
    TruncBelow(product);
  }

  lemma TruncBelow(x: real)
    requires x >= 0.0
    ensures 0 <= Trunc(x) && Trunc(x) as real <= x < Trunc(x) as real + 1.0
  {
  }

  lemma ShareScaled(t: real, share: real, rate: Rate)
    requires t >= 0.0 && share == t / rate
    ensures Scale(share, rate) == t && share >= 0.0
  {
    ProductSign(share, rate);
  }

  lemma TimesIsScale(m: int, unit: real)
    ensures Times(m, unit) == Scale(m as real, unit)
  {
  }

  /** The rounding error of the quotient, in the user's currency. */
  lemma QuotientRounded(t: real, rate: Rate, share: real, quotient: real)
    requires share >= 0.0 && Scale(share, rate) == t && RoundedTo(share, quotient)
    ensures quotient >= 0.0 && t - EPSILON * t <= Scale(quotient, rate) <= t + EPSILON * t
  {
    hide Scale;
    var slack := EPSILON * share;
    assert share - slack <= quotient <= share + slack;
    ScaleLinear(share, slack, rate);
    ScaleMonotone(share - slack, quotient, rate);
    ScaleMonotone(quotient, share + slack, rate);
  }

  lemma WholeUnitsWorth(quotient: real, stored: real, rate: Rate)
    requires 0.0 <= stored <= quotient < stored + 1.0
    ensures 0.0 <= Scale(stored, rate) <= Scale(quotient, rate) < Scale(stored, rate) + rate
  {
    hide Scale;
    ScaleLinear(stored, 1.0, rate);
    ScaleMonotone(0.0, stored, rate);
    ScaleMonotone(stored, quotient, rate);
    ScaleMonotone(quotient, stored + 1.0, rate);
  }

  lemma SmallError(x: real)
    requires 0.0 <= x <= 2.0 * TWO_TO_51 as real
    ensures 0.0 <= EPSILON * x <= 0.5 && EPSILON * x <= x
  {
  }

  lemma ProductRounded(t: real, rate: Rate, quotientWorth: real, storedWorth: real, product: real)
    requires 0.0 <= t < TWO_TO_51 as real && t - EPSILON * t <= quotientWorth <= t + EPSILON * t
    requires 0.0 <= storedWorth <= quotientWorth < storedWorth + rate
    requires RoundedTo(storedWorth, product)
    ensures 0.0 <= product < t + 1.0 && product > t - rate - 1.0
  {
    SmallError(t);
    SmallError(storedWorth);
    assert storedWorth - EPSILON * storedWorth <= product <= storedWorth + EPSILON * storedWorth;
    assert EPSILON * t < 0.5;
  }

  // ----- rounding to nearest, ties to even -----

  function Pow2(e: int): (p: real)
    ensures p > 0.0
    decreases if e < 0 then -e else e
  {
    if e == 0 then 1.0 else if e > 0 then 2.0 * Pow2(e - 1) else Pow2(e + 1) / 2.0
  }

  /** Numbers of a binade are spaced `Pow2(e)` apart. */
  predicate InBinade(x: real, e: int) { Times(TWO_TO_52, Pow2(e)) <= x < Times(2 * TWO_TO_52, Pow2(e)) }

  /** `m` units are nearest to `x`, and `m` is even on a tie. */
  predicate NearestMultiple(x: real, m: int, ulp: real) {
    var off := Abs(Times(m, ulp) - x);
    off <= ulp / 2.0 && (off == ulp / 2.0 ==> m % 2 == 0)
  }

  /** `y` is the binary64 number for the positive normal `x`. */
  ghost predicate NearestEven(x: real, y: real) {
    exists e: int, m: int :: InBinade(x, e) && NearestMultiple(x, m, Pow2(e)) && y == Times(m, Pow2(e))
  }

  lemma Pow2Next(e: int)
    ensures Pow2(e + 1) == 2.0 * Pow2(e)
  {
  }

  lemma {:induction false} Pow2Grows(e: int, f: int)
    requires e < f
    ensures 2.0 * Pow2(e) <= Pow2(f)
    decreases f - e
  {
    assert Pow2(e + 1) == 2.0 * Pow2(e);
    if e + 1 < f {
      Pow2Grows(e + 1, f);
    }
  }

  lemma DistinctBinades(x: real, e: int, f: int)
    requires e < f && InBinade(x, e)
    ensures !InBinade(x, f)
  {
    Pow2Grows(e, f);
  }

  lemma OneBinade(x: real, e: int, f: int)
    requires InBinade(x, e) && InBinade(x, f)
    ensures e == f
  {
    if e < f {
      DistinctBinades(x, e, f);
    } else if f < e {
      DistinctBinades(x, f, e);
    }
  }

  /** Rounding to nearest has relative error at most 2^-53. */
  lemma NearestIsRounded(x: real, y: real)
    requires NearestEven(x, y)
    ensures RoundedTo(x, y)
  {
    hide Pow2, RoundedTo;
    var e, m :| InBinade(x, e) && NearestMultiple(x, m, Pow2(e)) && y == Times(m, Pow2(e));
    HalfUlpIsSmall(x, y, Pow2(e));
  }

  lemma HalfUlpIsSmall(x: real, y: real, ulp: real)
    requires ulp > 0.0 && TWO_TO_52 as real * ulp <= x && Abs(y - x) <= ulp / 2.0
    ensures RoundedTo(x, y)
  {
    assert EPSILON * (TWO_TO_52 as real * ulp) == ulp / 2.0;
    var rest := x - TWO_TO_52 as real * ulp;
    assert EPSILON * rest >= 0.0;
    assert EPSILON * x == EPSILON * (TWO_TO_52 as real * ulp) + EPSILON * rest;
  }

  /** Every number of a binade has a nearest one on its grid. */
  lemma NearestExists(x: real, e: int) returns (y: real)
    requires InBinade(x, e)
    ensures NearestEven(x, y)
  {
    hide Pow2, Times, NearestMultiple, InBinade;
    var q := x / Pow2(e);
    assert q * Pow2(e) == x;
    var m := NearestWhole(q);
    OffInUlps(x, m, q, Pow2(e));
    y := Times(m, Pow2(e));
  }

  lemma NearestWhole(q: real) returns (m: int)
    ensures Abs(m as real - q) <= 0.5 && (Abs(m as real - q) == 0.5 ==> m % 2 == 0)
  {
    var f := q.Floor;
    m := if q - f as real > 0.5 || (q - f as real == 0.5 && f % 2 == 1) then f + 1 else f;
  }

  lemma OffInUlps(x: real, m: int, q: real, ulp: real)
    requires ulp > 0.0 && x == q * ulp && Abs(m as real - q) <= 0.5
    requires Abs(m as real - q) == 0.5 ==> m % 2 == 0
    ensures NearestMultiple(x, m, ulp)
  {
    hide Times, Scale;
    TimesOff(x, m, q, ulp);
    HalfBounds(m as real - q, ulp);
  }

  lemma TimesOff(x: real, m: int, q: real, ulp: real)
    requires x == q * ulp
    ensures Times(m, ulp) - x == Scale(m as real - q, ulp)
  {
  }

  lemma HalfBounds(off: real, ulp: real)
    requires ulp > 0.0
    ensures off <= 0.5 <==> Scale(off, ulp) <= ulp / 2.0
    ensures off < 0.5 <==> Scale(off, ulp) < ulp / 2.0
    ensures off >= -0.5 <==> Scale(off, ulp) >= -(ulp / 2.0)
    ensures off > -0.5 <==> Scale(off, ulp) > -(ulp / 2.0)
  {
    hide Scale;
    ScaleMonotone(off, 0.5, ulp);
    ScaleMonotone(-0.5, off, ulp);
    ScaleHalf(ulp);
  }

  lemma ScaleHalf(ulp: real)
    ensures Scale(0.5, ulp) == ulp / 2.0 && Scale(-0.5, ulp) == -(ulp / 2.0)
  {
  }

  // ----- which amounts come back short -----

  /**
   The amount doubled until its hundredth part has 53 bits: `Widened(sub) / 100` is the significand that the
   parser has to round to an integer.
   */
  function Widened(sub: nat): nat
    requires sub > 0
    decreases 100 * TWO_TO_52 - sub
  {
    if sub >= 100 * TWO_TO_52 then sub else Widened(2 * sub)
  }

  /**
   Short exactly when the parser rounds the significand down by more than 0.32, and the product then lies in a
   binade with spacing 64 (in units of the parsed value) rather than 128.
   */
  predicate ComesBackShort(sub: nat)
    requires sub > 0
  {
    Widened(sub) < TWO_TO_59 && 32 < Widened(sub) % 100 < 50
  }

  function Two(n: nat): (p: nat)
    ensures p >= 1
  {
    if n == 0 then 1 else 2 * Two(n - 1)
  }

  lemma {:induction false} Pow2Two(n: nat)
    ensures Times(Two(n), Pow2(0 - n)) == 1.0
  {
    if n > 0 {
      Pow2Two(n - 1);
    }
  }

  /** `m * c` is the multiple of `c` nearest to `a`. */
  predicate NearestInteger(a: int, m: int, c: int) {
    var off := 2 * (m * c - a);
    -c <= off <= c && (off == -c || off == c ==> m % 2 == 0)
  }

  lemma TimesOrder(a: int, b: int, v: real)
    requires v > 0.0
    ensures a <= b <==> Times(a, v) <= Times(b, v)
    ensures a < b <==> Times(a, v) < Times(b, v)
  {
    MulMonotone(a as real, b as real, v);
  }

  lemma TimesTwice(m: int, c: int, v: real)
    ensures Times(m, Times(c, v)) == Times(m * c, v)
  {
  }

  /** Rounding numbers that are multiples of `v` on a grid of `c * v` is rounding integers to multiples of `c`. */
  lemma NearestInUnits(a: int, m: int, c: int, v: real)
    requires c > 0 && v > 0.0 && NearestMultiple(Times(a, v), m, Times(c, v))
    ensures NearestInteger(a, m, c)
  {
    TimesTwice(m, c, v);
    var d := 2 * (m * c - a);
    assert Times(d, v) == 2.0 * (Times(m * c, v) - Times(a, v));
    assert Times(-c, v) == -Times(c, v);
    TimesOrder(d, c, v);
    TimesOrder(-c, d, v);
  }

  lemma BinadeInUnits(a: int, c: int, v: real, e: int)
    requires v > 0.0 && Pow2(e) == Times(c, v)
    ensures InBinade(Times(a, v), e) <==> TWO_TO_52 * c <= a < 2 * TWO_TO_52 * c
  {
    TimesTwice(TWO_TO_52, c, v);
    TimesTwice(2 * TWO_TO_52, c, v);
    TimesOrder(TWO_TO_52 * c, a, v);
    TimesOrder(a, 2 * TWO_TO_52 * c, v);
  }

  /** Rounding a number of units that is known to lie in the binade with spacing `c` units. */
  lemma RoundInUnits(a: int, y: real, c: int, v: real, e: int) returns (m: int)
    requires c > 0 && v > 0.0 && Pow2(e) == Times(c, v) && TWO_TO_52 * c <= a < 2 * TWO_TO_52 * c
    requires NearestEven(Times(a, v), y)
    ensures NearestInteger(a, m, c) && y == Times(m * c, v)
  {
    var f, k :| InBinade(Times(a, v), f) && NearestMultiple(Times(a, v), k, Pow2(f)) && y == Times(k, Pow2(f));
    BinadeInUnits(a, c, v, e);
    OneBinade(Times(a, v), e, f);
    NearestInUnits(a, k, c, v);
    TimesTwice(k, c, v);
    m := k;
  }

  lemma {:induction false} WidenedShift(sub: nat) returns (s: nat)
    requires 0 < sub < 200 * TWO_TO_52
    ensures Widened(sub) == sub * Two(s) && 100 * TWO_TO_52 <= Widened(sub) < 200 * TWO_TO_52
    decreases 100 * TWO_TO_52 - sub
  {
    if sub >= 100 * TWO_TO_52 {
      s := 0;
    } else {
      var rest := WidenedShift(2 * sub);
      s := rest + 1;
      assert 2 * sub * Two(rest) == sub * Two(s);
    }
  }

  /** Amounts below 2^51 are doubled at least eight times. */
  lemma ManyDoublings(sub: nat, s: nat)
    requires sub < TWO_TO_51 && sub * Two(s) >= 100 * TWO_TO_52
    ensures Two(s) >= 256 && Two(s) % 256 == 0
  {
    if s < 8 {
      FewDoublings(sub, s);
    } else {
      ManyTwos(s);
    }
  }

  lemma FewDoublings(sub: nat, s: nat)
    requires sub < TWO_TO_51 && s < 8
    ensures sub * Two(s) < 100 * TWO_TO_52
  {
    TwoGrows(s, 7);
    assert Two(7) == 128;
    assert sub * Two(s) <= sub * 128;
  }

  lemma {:induction false} TwoGrows(s: nat, t: nat)
    requires s <= t
    ensures Two(s) <= Two(t)
  {
    if s < t {
      TwoGrows(s, t - 1);
    }
  }

  lemma {:induction false} ManyTwos(s: nat)
    requires s >= 8
    ensures Two(s) >= 256 && Two(s) % 256 == 0
  {
    if s == 8 {
      assert Two(8) == 256;
    } else {
      ManyTwos(s - 1);
    }
  }

  /** The first rounding: down below one half, up above, and never across 2^59. */
  lemma FirstRounding(x: int, m: int)
    requires x % 256 == 0 && NearestInteger(x, m, 100)
    ensures x - 100 * m == (if x % 100 < 50 then x % 100 else x % 100 - 100)
    ensures -50 < x - 100 * m < 50
    ensures 100 * m < TWO_TO_59 <==> x < TWO_TO_59
  {
    hide NearestInteger;
    var z, q, r := x / 256, x / 100, x % 100;
    assert x == 256 * z && x == 100 * q + r;
    NearestHundred(z, q, r, m);
    BinadeStays(z, m);
  }

  lemma NearestHundred(z: int, q: int, r: int, m: int)
    requires 256 * z == 100 * q + r && 0 <= r < 100 && NearestInteger(100 * q + r, m, 100)
    ensures m == if r < 50 then q else q + 1
    ensures -50 < 256 * z - 100 * m < 50
  {
    assert r != 50 by {
      assert 2 * (64 * z - 25 * q) != 25;
    }
  }

  /** `TWO_TO_59` is twelve below a multiple of one hundred. */
  lemma BinadeStays(z: int, m: int)
    requires -50 < 256 * z - 100 * m < 50
    ensures 100 * m < TWO_TO_59 <==> 256 * z < TWO_TO_59
  {
  }

  /** The second rounding at spacing 64 brings a number near a multiple of 256 back unless it is more than 32 off. */
  lemma RoundBack64(z: int, a: int, k: int)
    requires -50 < 256 * z - a < 50 && NearestInteger(a, k, 64)
    ensures k == if 256 * z - a > 32 then 4 * z - 1 else if 256 * z - a < -32 then 4 * z + 1 else 4 * z
  {
    NearestOffset(k - 4 * z, 256 * z - a);
  }

  lemma NearestOffset(d: int, e: int)
    requires -50 < e < 50 && -32 <= 64 * d + e <= 32
    requires 64 * d + e == -32 || 64 * d + e == 32 ==> d % 2 == 0
    ensures d == if e > 32 then -1 else if e < -32 then 1 else 0
  {
    assert -1 <= d <= 1;
    if d == -1 {
      assert e >= 32;
    } else if d == 1 {
      assert e <= -32;
    }
  }

  /** At spacing 128 it always brings it back. */
  lemma RoundBack128(z: int, a: int, k: int)
    requires -50 < 256 * z - a < 50 && NearestInteger(a, k, 128)
    ensures k == 2 * z
  {
  }

  /** Both roundings in integers: `x` is the widened amount, `m` the significand of the parsed value. */
  lemma TwoRoundingsInUnits(x: int, m: int, k: int, c: int)
    requires x % 256 == 0 && NearestInteger(x, m, 100)
    requires c == if 100 * m < TWO_TO_59 then 64 else 128
    requires NearestInteger(100 * m, k, c)
    ensures if x < TWO_TO_59 && 32 < x % 100 < 50 then k * c == x - 64 else k * c == x || k * c == x + 64
  {
    hide NearestInteger;
    FirstRounding(x, m);
    if c == 64 {
      RoundBack64(x / 256, 100 * m, k);
    } else {
      RoundBack128(x / 256, 100 * m, k);
    }
  }

  /** The product in units of the parsed value's last place. */
  lemma RoundedInUnits(sub: nat, x: nat, s: nat, parsed: real, product: real) returns (n: int)
    requires 0 < sub < TWO_TO_51 && x == sub * Two(s) && 100 * TWO_TO_52 <= x < 200 * TWO_TO_52
    requires NearestEven(sub as real / 100.0, parsed) && NearestEven(parsed * 100.0, product)
    ensures product == Times(n, Pow2(0 - s))
    ensures if x < TWO_TO_59 && 32 < x % 100 < 50 then n == x - 64 else n == x || n == x + 64
  {
    hide NearestEven, NearestInteger, Two, Pow2, Times;
    var u := Pow2(0 - s);
    AmountInUnits(sub, s);
    ManyDoublings(sub, s);
    DividesProduct(sub, Two(s));
    var m := ParsedInUnits(x, u, 0 - s, parsed, sub as real);
    var k, c := ProductInUnits(m, u, 0 - s, parsed, product);
    TwoRoundingsInUnits(x, m, k, c);
    n := k * c;
  }

  lemma ParsedInUnits(x: int, u: real, e: int, parsed: real, amount: real) returns (m: int)
    requires u == Pow2(e) && amount == Times(x, u) && 100 * TWO_TO_52 <= x < 200 * TWO_TO_52
    requires NearestEven(amount / 100.0, parsed)
    ensures NearestInteger(x, m, 100) && parsed * 100.0 == Times(100 * m, u)
    ensures TWO_TO_52 <= m <= 2 * TWO_TO_52
  {
    hide NearestEven, Pow2;
    TimesPart(x, u, amount);
    m := RoundInUnits(x, parsed, 100, u / 100.0, e);
  }

  lemma ProductInUnits(m: int, u: real, e: int, parsed: real, product: real) returns (k: int, c: int)
    requires u == Pow2(e) && TWO_TO_52 <= m <= 2 * TWO_TO_52 && parsed * 100.0 == Times(100 * m, u)
    requires NearestEven(parsed * 100.0, product)
    ensures c == if 100 * m < TWO_TO_59 then 64 else 128
    ensures NearestInteger(100 * m, k, c) && product == Times(k * c, u)
  {
    hide NearestEven, NearestInteger, Pow2, Times;
    Pow2Shift(e);
    if 100 * m < TWO_TO_59 {
      c := 64;
      k := RoundInUnits(100 * m, product, 64, u, e + 6);
    } else {
      c := 128;
      k := RoundInUnits(100 * m, product, 128, u, e + 7);
    }
  }

  /** The two roundings have results: the printed value and the product lie in binades. */
  lemma RoundTripRuns(sub: nat) returns (parsed: real, product: real)
    requires 10 <= sub < TWO_TO_51
    ensures NearestEven(sub as real / 100.0, parsed) && NearestEven(parsed * 100.0, product)
  {
    hide NearestEven, InBinade, NearestInteger, Two, Pow2, Times;
    var s: int := WidenedShift(sub);
    var x, e := Widened(sub), -s;
    var u := Pow2(e);
    AmountInUnits(sub, s);
    TimesPart(x, u, sub as real);
    BinadeInUnits(x, 100, u / 100.0, e);
    parsed := NearestExists(sub as real / 100.0, e);
    var m := ParsedInUnits(x, u, e, parsed, sub as real);
    Pow2Shift(e);
    BinadeInUnits(100 * m, 64, u, e + 6);
    BinadeInUnits(100 * m, 128, u, e + 7);
    product := NearestExists(parsed * 100.0, if 100 * m < TWO_TO_59 then e + 6 else e + 7);
  }

  lemma TimesPart(x: int, u: real, amount: real)
    requires amount == Times(x, u)
    ensures amount / 100.0 == Times(x, u / 100.0) && u == Times(100, u / 100.0)
  {
  }

  lemma AmountInUnits(sub: nat, s: nat)
    ensures Times(sub * Two(s), Pow2(0 - s)) == sub as real
  {
    Pow2Two(s);
    TimesTwice(sub, Two(s), Pow2(0 - s));
  }

  lemma DividesProduct(a: nat, p: nat)
    requires p % 256 == 0
    ensures (a * p) % 256 == 0
  {
    assert a * p == a * (p / 256) * 256;
  }

  lemma Pow2Shift(e: int)
    ensures Pow2(e + 6) == Times(64, Pow2(e)) && Pow2(e + 7) == Times(128, Pow2(e))
  {
    Pow2Next(e);
    Pow2Next(e + 1);
    Pow2Next(e + 2);
    Pow2Next(e + 3);
    Pow2Next(e + 4);
    Pow2Next(e + 5);
    Pow2Next(e + 6);
  }

  lemma TruncInUnits(sub: nat, s: nat, n: int)
    requires 0 < sub && Two(s) >= 256
    ensures var p := Trunc(Times(n, Pow2(0 - s)));
            (sub * Two(s) <= n < (sub + 1) * Two(s) ==> p == sub) &&
            ((sub - 1) * Two(s) <= n < sub * Two(s) ==> p == sub - 1)
  {
    AmountInUnits(sub - 1, s);
    AmountInUnits(sub, s);
    AmountInUnits(sub + 1, s);
    TimesOrder((sub - 1) * Two(s), n, Pow2(0 - s));
    TimesOrder(n, sub * Two(s), Pow2(0 - s));
    TimesOrder(n, (sub + 1) * Two(s), Pow2(0 - s));
  }

  /**
   The whole round trip, parsing the printed text, multiplying by one hundred and truncating: which amounts come
   back one hundredth short, and that all others come back exact.
   */
  lemma RoundTripIff(sub: int, parsed: real, product: real)
    requires 10 <= sub < TWO_TO_51
    requires var printed := ParseDecimal(KeepNumeric(ConvertSubToAmount(sub)));
             printed.Some? && NearestEven(printed.value, parsed)
    requires NearestEven(parsed * 100.0, product)
    ensures Trunc(product) == if ComesBackShort(sub) then sub - 1 else sub
  {
    hide NearestEven, Trunc, ParseDecimal, Two;
    PrintedValue(sub);
    var s := WidenedShift(sub);
    var n := RoundedInUnits(sub, Widened(sub), s, parsed, product);
    ManyDoublings(sub, s);
    TruncInUnits(sub, s, n);
    assert (sub + 1) * Two(s) == sub * Two(s) + Two(s) && (sub - 1) * Two(s) == sub * Two(s) - Two(s);
  }

  /** Multiples of a quarter, whole amounts among them, never come back short. */
  lemma QuartersComeBack(sub: nat)
    requires 10 <= sub < TWO_TO_51 && sub % 25 == 0
    ensures !ComesBackShort(sub)
  {
    var s := WidenedShift(sub);
    ManyDoublings(sub, s);
    var q, p := sub / 25, Two(s) / 4;
    assert sub * Two(s) == (q * p) * 100;
  }

  lemma {:induction false} TwoSum(a: nat, b: nat)
    ensures Two(a + b) == Two(a) * Two(b)
  {
    if a > 0 {
      TwoSum(a - 1, b);
    }
  }

  lemma {:induction false} WidenedIs(sub: nat, s: nat)
    requires sub > 0 && 100 * TWO_TO_52 <= sub * Two(s) < 200 * TWO_TO_52
    ensures Widened(sub) == sub * Two(s)
    decreases s
  {
    if s > 0 {
      assert 2 * sub * Two(s - 1) == sub * Two(s);
      WidenedIs(2 * sub, s - 1);
    }
  }

  lemma TwoTo54()
    ensures Two(54) == 0x40_0000_0000_0000
  {
    assert Two(6) == 64;
    TwoSum(6, 6);
    TwoSum(12, 6);
    TwoSum(18, 18);
    TwoSum(36, 18);
  }

  lemma TwentyNineIsShort()
    ensures ComesBackShort(29)
  {
    hide Widened, Two;
    TwoTo54();
    WidenedIs(29, 54);
  }

  lemma TwentyNinePrints()
    ensures ConvertSubToAmount(29) == "0.29" && ParseDecimal(KeepNumeric("0.29")) == Some(0.29)
  {
    hide ParseDecimal;
    assert FormatNat(29) == FormatNat(2) + ['9'] && FormatNat(2) == ['2'];
    PrintedValue(29);
  }

  /** The missing hundredth is real: 29 prints as 0.29, which both roundings together read as 28. */
  lemma TwentyNineComesBackShort(parsed: real, product: real)
    requires NearestEven(0.29, parsed) && NearestEven(parsed * 100.0, product)
    ensures ConvertSubToAmount(29) == "0.29" && ParseDecimal(KeepNumeric("0.29")) == Some(0.29)
    ensures Trunc(product) == 28
  {
    hide NearestEven, Trunc, ParseDecimal, KeepNumeric, ConvertSubToAmount, ComesBackShort;
    TwentyNinePrints();
    TwentyNineIsShort();
    RoundTripIff(29, parsed, product);
  }
}
