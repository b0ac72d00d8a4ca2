/**
 Base-10 text of integers, as `strconv.FormatInt(n, 10)`, `fmt.Sprintf("%d", n)` and
 `strconv.ParseInt(s, 10, 64)` produce and read it. The 64-bit range is not modelled.
 */
module Decimal {
  import opened Wrappers

  predicate IsDigit(c: char) { '0' <= c <= '9' }

  predicate AllDigits(s: string) { forall i :: 0 <= i < |s| ==> IsDigit(s[i]) }

  function DigitChar(d: int): (c: char)
    requires 0 <= d < 10
    ensures IsDigit(c) && DigitValue(c) == d
  {
    '0' + d as char
  }

  function DigitValue(c: char): (d: nat)
    requires IsDigit(c)
    ensures d < 10 && (d == 0 <==> c == '0')
  {
    (c - '0') as int
  }

  function FormatNat(n: nat): (s: string)
    ensures AllDigits(s) && s != []
  {
    if n < 10 then [DigitChar(n)] else FormatNat(n / 10) + [DigitChar(n % 10)]
  }

  function FormatInt(n: int): string {
    if n < 0 then "-" + FormatNat(-n) else FormatNat(n)
  }

  function NatValue(s: string): nat
    requires AllDigits(s)
  {
    if s == [] then 0 else 10 * NatValue(s[..|s| - 1]) + DigitValue(s[|s| - 1])
  }

  function Pow10(n: nat): (p: nat)
    ensures p >= 1
  {
    if n == 0 then 1 else 10 * Pow10(n - 1)
  }

  /** An optional sign, then at least one digit and nothing else; `None` is the syntax error. */
  function ParseInt(s: string): Option<int> {
    var negative := s != [] && s[0] == '-';
    var digits := if s != [] && s[0] in "+-" then s[1..] else s;
    if digits == [] || !AllDigits(digits) then None
    else
      var n: int := NatValue(digits);
      Some(if negative then -n else n)
  }

  /** Texts that are the decimal form of some natural number. */
  predicate Canonical(s: string) {
    AllDigits(s) && s != [] && (s[0] == '0' ==> |s| == 1)
  }

  lemma {:induction false} NatRoundTrip(n: nat)
    ensures Canonical(FormatNat(n)) && (n > 0 ==> FormatNat(n)[0] != '0')
    ensures NatValue(FormatNat(n)) == n
  {
    if n >= 10 {
      NatRoundTrip(n / 10);
      var s := FormatNat(n);
      assert s[..|s| - 1] == FormatNat(n / 10);
    } else {
      assert FormatNat(n)[..0] == [];
    }
  }

  lemma {:induction false} CanonicalIsFormat(s: string)
    requires Canonical(s)
    ensures FormatNat(NatValue(s)) == s
    ensures s[0] != '0' ==> NatValue(s) >= 1
  {
    var front, last := s[..|s| - 1], s[|s| - 1];
    assert s == front + [last] && DigitChar(DigitValue(last)) == last;
    if front == [] {
      assert NatValue(front) == 0;
    } else {
      assert front[0] == s[0] && Canonical(front);
      CanonicalIsFormat(front);
      SplitLastDigit(NatValue(front), DigitValue(last));
    }
  }

  lemma SplitLastDigit(front: nat, d: nat)
    requires d < 10
    ensures (10 * front + d) / 10 == front && (10 * front + d) % 10 == d
  {
  }

  lemma ParseFormat(n: int)
    ensures ParseInt(FormatInt(n)) == Some(n)
  {
    var digits := FormatNat(if n < 0 then -n else n);
    NatRoundTrip(if n < 0 then -n else n);
    if n < 0 {
      assert FormatInt(n)[1..] == digits;
    } else {
      assert IsDigit(digits[0]);
    }
  }

  function Signed(sign: string, n: int): int { if sign == "-" then -n else n }

  /** An optional sign and then digits, and the number they spell. */
  ghost predicate Spells(s: string, sign: string, digits: string, n: int) {
    && s == sign + digits && (sign == "" || sign == "+" || sign == "-")
    && digits != [] && AllDigits(digits)
    && n == Signed(sign, NatValue(digits))
  }

  lemma SpelledIsRead(s: string, sign: string, digits: string, n: int)
    requires Spells(s, sign, digits, n)
    ensures ParseInt(s) == Some(n)
  {
    hide NatValue;
    if sign == "" {
      assert s == digits && IsDigit(s[0]);
    } else {
      assert s[0] == sign[0] && s[1..] == digits;
    }
  }

  lemma ReadIsSpelled(s: string) returns (sign: string, digits: string)
    requires ParseInt(s).Some?
    ensures Spells(s, sign, digits, ParseInt(s).value)
  {
    hide NatValue;
    if s[0] == '-' || s[0] == '+' {
      sign, digits := [s[0]], s[1..];
    } else {
      sign, digits := "", s;
    }
    assert s == sign + digits;
  }

  /** Exactly the texts of an optional sign and digits are read, as the number they spell. */
  lemma ParseIntIff(s: string, n: int)
    ensures ParseInt(s) == Some(n) <==> exists sign, digits :: Spells(s, sign, digits, n)
  {
    hide ParseInt, Spells;
    if sign, digits :| Spells(s, sign, digits, n) {
      SpelledIsRead(s, sign, digits, n);
    }
    if ParseInt(s) == Some(n) {
      var sign, digits := ReadIsSpelled(s);
    }
  }

  lemma FormatIntInjective(m: int, n: int)
    requires FormatInt(m) == FormatInt(n)
    ensures m == n
  {
    ParseFormat(m);
    ParseFormat(n);
  }

  /** A minus sign can only be the first character of a formatted integer. */
  lemma FormatIntSign(n: int)
    ensures n < 0 <==> FormatInt(n)[0] == '-'
    ensures AllDigits(FormatInt(n)[1..])
    ensures n > 0 ==> FormatInt(n)[0] != '0'
  {
    if n < 0 {
      assert FormatInt(n)[1..] == FormatNat(-n);
    } else {
      NatRoundTrip(n);
    }
  }
}
