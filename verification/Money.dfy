/** Amounts of money as text, and as integers in hundredths. */
module Money {
  import opened Wrappers
  import opened Decimal
  import opened Conversion

  datatype AmountError = InvalidAmount

  predicate IsNumeric(c: char) { IsDigit(c) || c == '.' }

  /** The regular expression keeps digits and dots and drops everything else, signs included. */
  function KeepNumeric(s: string): (kept: string)
    ensures forall i :: 0 <= i < |kept| ==> IsNumeric(kept[i])
  {
    if s == [] then [] else (if IsNumeric(s[0]) then [s[0]] else []) + KeepNumeric(s[1..])
  }

  function DropDots(s: string): (kept: string)
    requires forall i :: 0 <= i < |s| ==> IsNumeric(s[i])
    ensures AllDigits(kept) && |kept| <= |s|
  {
    if s == [] then []
    else if (assert IsNumeric(s[0]); s[0] == '.') then DropDots(s[1..])
    else [s[0]] + DropDots(s[1..])
  }

  /** Number of characters after the first dot. */
  function FractionDigits(s: string): nat {
    if s == [] then 0 else if s[0] == '.' then |s| - 1 else FractionDigits(s[1..])
  }

  function Scaled(n: nat, places: nat): real { n as real / Pow10(places) as real }

  /** `strconv.ParseFloat` on a text of digits and dots: at least one digit, at most one dot. */
  function ParseDecimal(s: string): Option<real>
    requires forall i :: 0 <= i < |s| ==> IsNumeric(s[i])
  {
    var digits := DropDots(s);
    if digits == [] || |s| - |digits| > 1 then None
    else Some(Scaled(NatValue(digits), FractionDigits(s)))
  }

  function ConvertFloat64AmountToSub(amount: real): int { Trunc(amount * 100.0) }

  function ConvertStringAmountToSub(amount: string): Result<int, AmountError> {
    match ParseDecimal(KeepNumeric(amount))
    case None => Failure(InvalidAmount)
    case Some(v) => Success(ConvertFloat64AmountToSub(v))
  }

  function ConvertSubToAmount(sub: int): string {
    var amount := FormatInt(sub);
    if |amount| < 3 then "0." + amount
    else amount[..|amount| - 2] + "." + amount[|amount| - 2..]
  }

  lemma {:induction false} KeepNumericConcat(a: string, b: string)
    ensures KeepNumeric(a + b) == KeepNumeric(a) + KeepNumeric(b)
  {
    if a == [] {
      assert a + b == b;
    } else {
      KeepNumericConcat(a[1..], b);
      assert (a + b)[1..] == a[1..] + b;
    }
  }

  lemma {:induction false} KeepNumericId(s: string)
    requires forall i :: 0 <= i < |s| ==> IsNumeric(s[i])
    ensures KeepNumeric(s) == s
  {
    if s != [] {
      KeepNumericId(s[1..]);
    }
  }

  lemma {:induction false} KeepNumericNone(s: string)
    requires forall i :: 0 <= i < |s| ==> !IsNumeric(s[i])
    ensures KeepNumeric(s) == []
  {
    if s != [] {
      KeepNumericNone(s[1..]);
    }
  }

  /** Group separators, blanks and signs anywhere in an amount change nothing. */
  lemma SeparatorsIgnored(a: string, separator: string, b: string)
    requires forall i :: 0 <= i < |separator| ==> !IsNumeric(separator[i])
    ensures ConvertStringAmountToSub(a + separator + b) == ConvertStringAmountToSub(a + b)
  {
    KeepNumericConcat(a + separator, b);
    KeepNumericConcat(a, separator);
    KeepNumericConcat(a, b);
    KeepNumericNone(separator);
    assert KeepNumeric(a) + [] == KeepNumeric(a);
  }

  /** No accepted amount is negative. */
  lemma AmountsNonNegative(amount: string)
    ensures match ConvertStringAmountToSub(amount)
            case Success(sub) => sub >= 0
            case Failure(_) => true
  {
    var s := KeepNumeric(amount);
    match ParseDecimal(s)
    case None =>
    case Some(v) => ScaledNonNegative(NatValue(DropDots(s)), FractionDigits(s));
  }

  lemma ScaledNonNegative(n: nat, places: nat)
    ensures Scaled(n, places) >= 0.0
  {
  }

  lemma {:induction false} DropDotsDigits(s: string)
    requires AllDigits(s)
    ensures DropDots(s) == s && FractionDigits(s) == 0
  {
    if s != [] {
      DropDotsDigits(s[1..]);
    }
  }

  lemma {:induction false} OneDot(whole: string, fraction: string)
    requires AllDigits(whole) && AllDigits(fraction)
    ensures var s := whole + "." + fraction;
            (forall i :: 0 <= i < |s| ==> IsNumeric(s[i])) &&
            DropDots(s) == whole + fraction && FractionDigits(s) == |fraction|
  {
    var s := whole + "." + fraction;
    if whole == [] {
      assert s[1..] == fraction;
      DropDotsDigits(fraction);
    } else {
      OneDot(whole[1..], fraction);
      assert s[1..] == whole[1..] + "." + fraction;
    }
  }

  /** What the parser makes of digits around one dot. */
  lemma ParseOneDot(whole: string, fraction: string)
    requires AllDigits(whole) && AllDigits(fraction) && whole + fraction != []
    ensures ParseDecimal(KeepNumeric(whole + "." + fraction)) ==
            Some(Scaled(NatValue(whole + fraction), |fraction|))
  {
    OneDot(whole, fraction);
    KeepNumericId(whole + "." + fraction);
  }

  // ----- what is typed -----

  function Digits(s: string): nat { if s == [] then 0 else (if IsDigit(s[0]) then 1 else 0) + Digits(s[1..]) }

  function Dots(s: string): nat { if s == [] then 0 else (if s[0] == '.' then 1 else 0) + Dots(s[1..]) }

  lemma {:induction false} KeptCounts(s: string)
    ensures |KeepNumeric(s)| == Digits(s) + Dots(s) && |DropDots(KeepNumeric(s))| == Digits(s)
  {
    if s != [] {
      KeptCounts(s[1..]);
      var rest := KeepNumeric(s[1..]);
      if IsNumeric(s[0]) {
        assert ([s[0]] + rest)[1..] == rest;
      } else {
        assert KeepNumeric(s) == rest;
      }
    }
  }

  /** An amount is accepted if and only if it holds a digit, and at most one dot, among whatever else. */
  lemma AcceptedIff(amount: string)
    ensures ConvertStringAmountToSub(amount).Success? <==> Digits(amount) >= 1 && Dots(amount) <= 1
  {
    KeptCounts(amount);
  }

  lemma WholeScaled(q: int, p: int)
    ensures Scale(q as real, p as real) == (q * p) as real
  {
  }

  lemma FloorOfQuotient(x: real, n: nat, q: nat, r: nat, p: nat)
    requires r < p && n == q * p + r && Scale(x, p as real) == n as real
    ensures Trunc(x) == q
  {
    hide Scale;
    WholeScaled(q, p);
    WholeScaled(q + 1, p);
    assert (q + 1) * p == q * p + p;
    ScaleMonotone(q as real, x, p as real);
    ScaleMonotone(x, (q + 1) as real, p as real);
  }

  lemma ScaledTimes(n: nat, p: nat)
    requires p >= 1
    ensures Scale(n as real / p as real * 100.0, p as real) == (100 * n) as real
  {
    assert n as real / p as real * p as real == n as real;
  }

  /** Hundredths beyond the second decimal are cut off. */
  lemma TruncScaled(n: nat, places: nat)
    ensures ConvertFloat64AmountToSub(Scaled(n, places)) == 100 * n / Pow10(places)
  {
    hide Trunc, Pow10, Scale;
    var p := Pow10(places);
    ScaledTimes(n, p);
    FloorOfQuotient(n as real / p as real * 100.0, 100 * n, 100 * n / p, 100 * n % p, p);
  }

  function Shifted(v: nat, places: nat): nat { v * Pow10(places) }

  lemma ShiftedNext(v: nat, places: nat)
    ensures Shifted(v, 0) == v && Shifted(v, places + 1) == 10 * Shifted(v, places)
  {
    var p := Pow10(places);
    assert v * (10 * p) == 10 * (v * p);
  }

  lemma {:induction false} NatValueConcat(a: string, b: string)
    requires AllDigits(a) && AllDigits(b)
    ensures NatValue(a + b) == Shifted(NatValue(a), |b|) + NatValue(b)
  {
    hide Shifted;
    if b == [] {
      assert a + b == a;
      ShiftedNext(NatValue(a), 0);
    } else {
      var front := b[..|b| - 1];
      NatValueConcat(a, front);
      assert (a + b)[..|a + b| - 1] == a + front;
      ShiftedNext(NatValue(a), |front|);
    }
  }

  lemma SplitHundredfold(a: nat, b: nat, p: nat)
    requires p >= 1
    ensures 100 * (a * p + b) / p == 100 * a + 100 * b / p
  {
    var q, r := 100 * b / p, 100 * b % p;
    SumOfMultiples(100 * a, q, p);
    HundredfoldProduct(a, p);
    QuotientIs(100 * (a * p + b), 100 * a + q, r, p);
  }

  lemma SumOfMultiples(k: nat, q: nat, p: nat)
    ensures (k + q) * p == k * p + q * p
  {
  }

  lemma HundredfoldProduct(a: nat, p: nat)
    ensures 100 * a * p == 100 * (a * p)
  {
  }

  lemma QuotientIs(n: nat, q: nat, r: nat, p: nat)
    requires p >= 1 && n == q * p + r && r < p
    ensures n / p == q
  {
    var d := n / p - q;
    assert d * p == r - n % p;
    MultipleBounds(d, p);
  }

  lemma MultipleBounds(d: int, p: int)
    requires p >= 1
    ensures d >= 1 ==> d * p >= p
    ensures d <= -1 ==> d * p <= -p
  {
  }

  function Hundredths(n: nat, p: nat): nat
    requires p >= 1
  {
    100 * n / p
  }

  lemma ConvertParsed(amount: string, n: nat, places: nat)
    requires ParseDecimal(KeepNumeric(amount)) == Some(Scaled(n, places))
    ensures ConvertStringAmountToSub(amount) == Success(Hundredths(n, Pow10(places)))
  {
    hide ParseDecimal, Scaled, ConvertFloat64AmountToSub, KeepNumeric, Pow10;
    TruncScaled(n, places);
  }

  /** Digits alone are whole units. */
  lemma TypedWhole(whole: string)
    requires AllDigits(whole) && whole != []
    ensures ConvertStringAmountToSub(whole) == Success(100 * NatValue(whole))
  {
    hide ConvertStringAmountToSub, Scaled, NatValue;
    KeepNumericId(whole);
    DropDotsDigits(whole);
    ConvertParsed(whole, NatValue(whole), 0);
  }

  /** Digits before and after one dot, either part possibly missing: units, and hundredths cut off after the second. */
  lemma TypedDecimal(whole: string, fraction: string)
    requires AllDigits(whole) && AllDigits(fraction) && whole + fraction != []
    ensures ConvertStringAmountToSub(whole + "." + fraction) ==
            Success(100 * NatValue(whole) + Hundredths(NatValue(fraction), Pow10(|fraction|)))
  {
    hide ConvertStringAmountToSub, NatValue, Pow10, Hundredths, AllDigits;
    TypedDigits(whole, fraction);
    JoinedHundredfold(whole, fraction);
  }

  lemma TypedDigits(whole: string, fraction: string)
    requires AllDigits(whole) && AllDigits(fraction) && whole + fraction != []
    ensures AllDigits(whole + fraction)
    ensures ConvertStringAmountToSub(whole + "." + fraction) ==
            Success(Hundredths(NatValue(whole + fraction), Pow10(|fraction|)))
  {
    hide ConvertStringAmountToSub, ParseDecimal, KeepNumeric, Scaled, NatValue, Pow10, Hundredths;
    ParseOneDot(whole, fraction);
    ConvertParsed(whole + "." + fraction, NatValue(whole + fraction), |fraction|);
  }

  lemma JoinedHundredfold(a: string, b: string)
    requires AllDigits(a) && AllDigits(b)
    ensures AllDigits(a + b)
    ensures Hundredths(NatValue(a + b), Pow10(|b|)) == 100 * NatValue(a) + Hundredths(NatValue(b), Pow10(|b|))
  {
    hide NatValue, Pow10;
    NatValueConcat(a, b);
    SplitHundredfold(NatValue(a), NatValue(b), Pow10(|b|));
  }

  function TwoDigits(n: nat): string { [DigitChar(n / 10 % 10), DigitChar(n % 10)] }

  /** Printed amounts have units before the point and two digits after it, except for those below ten hundredths. */
  lemma PrintedText(sub: nat)
    ensures ConvertSubToAmount(sub) ==
            (if sub < 10 then "0." + [DigitChar(sub)] else FormatNat(sub / 100) + "." + TwoDigits(sub))
  {
    hide AllDigits;
    if sub >= 100 {
      LastTwo(sub);
      assert FormatNat(sub) == FormatNat(sub / 100) + TwoDigits(sub);
    } else {
      assert FormatNat(0) == "0";
    }
  }

  lemma LastTwo(n: nat)
    requires n >= 100
    ensures FormatNat(n) == FormatNat(n / 100) + TwoDigits(n) && |FormatNat(n)| >= 3
  {
    assert n / 10 / 10 == n / 100;
    assert FormatNat(n) == FormatNat(n / 10) + [DigitChar(n % 10)];
    assert FormatNat(n / 10) == FormatNat(n / 10 / 10) + [DigitChar(n / 10 % 10)];
  }

  // ----- round trip -----

  lemma LeadingZero(digits: string)
    requires AllDigits(digits)
    ensures NatValue("0" + digits) == NatValue(digits)
    decreases |digits|
  {
    if digits != [] {
      var front := digits[..|digits| - 1];
      LeadingZero(front);
      assert ("0" + digits)[..|digits|] == "0" + front;
    } else {
      assert "0"[..0] == [] && "0" + digits == "0";
    }
  }

  /** Digits after the printed point: two, unless there is only one digit to print. */
  function PrintedPlaces(sub: nat): nat {
    if |FormatNat(sub)| < 3 then |FormatNat(sub)| else 2
  }

  lemma PrintedScaled(sub: nat)
    ensures ParseDecimal(KeepNumeric(ConvertSubToAmount(sub))) == Some(Scaled(sub, PrintedPlaces(sub)))
  {
    hide ParseDecimal, KeepNumeric, FormatNat, NatValue, Scaled;
    var s := FormatInt(sub);
    NatRoundTrip(sub);
    if |s| < 3 {
      assert "0" + "." + s == "0." + s;
      DigitsPoint("0", s, sub);
    } else {
      assert s[..|s| - 2] + s[|s| - 2..] == s;
      DigitsPoint(s[..|s| - 2], s[|s| - 2..], sub);
    }
  }

  /** The decimal value of a printed amount: hundredths, except that 1 to 9 hundredths print as tenths. */
  lemma PrintedValue(sub: nat)
    ensures ParseDecimal(KeepNumeric(ConvertSubToAmount(sub))) ==
            Some(if sub < 10 then sub as real / 10.0 else sub as real / 100.0)
  {
    hide *;
    PrintedScaled(sub);
    PlacesPrinted(sub);
    ScaledSub(sub);
  }

  lemma PlacesPrinted(n: nat)
    ensures PrintedPlaces(n) == if n < 10 then 1 else 2
  {
    hide AllDigits;
  }

  lemma DigitsPoint(whole: string, fraction: string, sub: nat)
    requires AllDigits(whole) && AllDigits(fraction) && 1 <= |fraction| <= 2
    requires whole + fraction == FormatNat(sub) || (whole == "0" && fraction == FormatNat(sub))
    ensures ParseDecimal(KeepNumeric(whole + "." + fraction)) == Some(Scaled(sub, |fraction|))
  {
    NatRoundTrip(sub);
    LeadingZero(fraction);
    ParseOneDot(whole, fraction);
  }

  lemma ScaledSub(n: nat)
    ensures Scaled(n, 1) == n as real / 10.0 && Scaled(n, 2) == n as real / 100.0
  {
    assert Pow10(1) == 10 * Pow10(0) && Pow10(2) == 10 * Pow10(1);
  }

  /**
   Printing an amount and reading it back, in exact arithmetic. Amounts from 1 to 9 hundredths print as
   tenths and come back ten times as large.
   */
  lemma PrintParse(sub: nat)
    ensures ConvertStringAmountToSub(ConvertSubToAmount(sub)) == Success(if sub < 10 then 10 * sub else sub)
  {
    hide ParseDecimal, KeepNumeric, ConvertSubToAmount;
    PrintedValue(sub);
    TruncHundredfold(sub);
  }

  lemma TruncHundredfold(sub: nat)
    ensures ConvertFloat64AmountToSub(sub as real / 100.0) == sub
    ensures ConvertFloat64AmountToSub(sub as real / 10.0) == 10 * sub
  {
    assert sub as real / 100.0 * 100.0 == sub as real;
    assert sub as real / 10.0 * 100.0 == (10 * sub) as real;
  }

  /** The round trip is exact for zero and from ten hundredths on, and for no other integer. */
  lemma PrintParseExactIff(sub: int)
    ensures ConvertStringAmountToSub(ConvertSubToAmount(sub)) == Success(sub) <==> sub == 0 || sub >= 10
  {
    if sub >= 0 {
      PrintParse(sub);
    } else {
      AmountsNonNegative(ConvertSubToAmount(sub));
    }
  }
}
