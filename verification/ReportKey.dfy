/**
 Keys of the Redis report cache. A report of user `u` from cut-off `t` (Unix seconds) lives under the
 decimal text of `u` directly followed by the decimal text of `t`, with nothing in between.
 */
module ReportKey {
  import opened Decimal

  function Key(user: int, cutoff: int): string { FormatInt(user) + FormatInt(cutoff) }

  /** `DeleteUserReports` asks Redis for the keys that match the user's decimal text and a star. */
  predicate HasUserPrefix(key: string, user: int) { FormatInt(user) <= key }

  predicate IsSuffix(suffix: string, s: string) {
    |suffix| <= |s| && s[|s| - |suffix|..] == suffix
  }

  /** The text of one non-negative cut-off ends in the text of another, smaller one. */
  predicate Clash(t: int, t': int) {
    0 <= t && 0 <= t' && t != t' &&
    (IsSuffix(FormatInt(t'), FormatInt(t)) || IsSuffix(FormatInt(t), FormatInt(t')))
  }

  ghost predicate SuffixFree(cutoffs: iset<int>) {
    forall t, t' :: t in cutoffs && t' in cutoffs ==> !Clash(t, t')
  }

  /** Telegram user ids are positive. */
  ghost predicate KeysInjective(cutoffs: iset<int>) {
    forall u, v, t, t' :: u >= 1 && v >= 1 && t in cutoffs && t' in cutoffs && Key(u, t) == Key(v, t') ==>
      u == v && t == t'
  }

  lemma OwnKeysDiffer(u: int, t: int, t': int)
    requires Key(u, t) == Key(u, t')
    ensures t == t'
  {
    assert Key(u, t)[|FormatInt(u)|..] == FormatInt(t);
    assert Key(u, t')[|FormatInt(u)|..] == FormatInt(t');
    FormatIntInjective(t, t');
  }

  /** Two users can only meet under one key when the longer user id swallows the front of the other's cut-off. */
  lemma LongerUserClash(u: int, t: int, v: int, t': int)
    requires u >= 1 && v >= 1 && Key(u, t) == Key(v, t')
    requires |FormatInt(u)| < |FormatInt(v)|
    ensures Clash(t, t')
  {
    var du, dv, dt, dt' := FormatInt(u), FormatInt(v), FormatInt(t), FormatInt(t');
    var key := du + dt;
    assert key == dv + dt';
    assert dt == key[|du|..] && dt' == key[|dv|..];
    assert dt[|dt| - |dt'|..] == dt';
    FormatIntSign(v);
    assert dt[0] == key[|du|] == dv[|du|];
    FormatIntSign(t);
    FormatIntSign(t');
    assert dt'[0] == dt[1..][|dt| - |dt'| - 1];
  }

  lemma EqualLengthPrefix(u: int, t: int, v: int, t': int)
    requires Key(u, t) == Key(v, t') && |FormatInt(u)| == |FormatInt(v)|
    ensures u == v && t == t'
  {
    assert Key(u, t)[..|FormatInt(u)|] == FormatInt(u);
    assert Key(v, t')[..|FormatInt(v)|] == FormatInt(v);
    FormatIntInjective(u, v);
    OwnKeysDiffer(u, t, t');
  }

  lemma SuffixFreeSeparates(cutoffs: iset<int>, u: int, t: int, v: int, t': int)
    requires SuffixFree(cutoffs) && t in cutoffs && t' in cutoffs
    requires u >= 1 && v >= 1 && Key(u, t) == Key(v, t')
    ensures u == v && t == t'
  {
    if |FormatInt(u)| == |FormatInt(v)| {
      EqualLengthPrefix(u, t, v, t');
    } else if |FormatInt(u)| < |FormatInt(v)| {
      LongerUserClash(u, t, v, t');
    } else {
      LongerUserClash(v, t', u, t);
    }
  }

  /** Any two clashing cut-offs do meet: user 1's report from `t` and another user's report from `t'` share a key. */
  lemma ClashCollides(t: int, t': int) returns (u: int, v: int)
    requires Clash(t, t')
    ensures u >= 1 && v >= 1 && u != v && Key(u, t) == Key(v, t')
    decreases |FormatInt(t')| > |FormatInt(t)|
  {
    var dt, dt' := FormatInt(t), FormatInt(t');
    if |dt| < |dt'| {
      v, u := ClashCollides(t', t);
    } else {
      if |dt| == |dt'| {
        assert dt == dt';
        FormatIntInjective(t, t');
        assert false;
      }
      u := 1;
      var front := dt[..|dt| - |dt'|];
      assert dt == front + dt';
      var text := "1" + front;
      assert AllDigits(front);
      CanonicalIsFormat(text);
      v := NatValue(text);
      assert Key(1, t) == "1" + (front + dt') == text + dt';
      assert |FormatInt(1)| < |text|;
    }
  }

  /** The concatenated key identifies user and cut-off exactly when no cut-off in use ends in another. */
  lemma InjectiveIffSuffixFree(cutoffs: iset<int>)
    ensures KeysInjective(cutoffs) <==> SuffixFree(cutoffs)
  {
    if SuffixFree(cutoffs) {
      forall u, v, t, t' | u >= 1 && v >= 1 && t in cutoffs && t' in cutoffs && Key(u, t) == Key(v, t')
        ensures u == v && t == t'
      {
        SuffixFreeSeparates(cutoffs, u, t, v, t');
      }
    } else {
      var t, t' :| t in cutoffs && t' in cutoffs && Clash(t, t');
      var u, v := ClashCollides(t, t');
    }
  }

  /** Cut-offs of one width (all non-negative day, month and year starts from 2001 to 2286) never clash. */
  lemma SameWidthIsSuffixFree(cutoffs: iset<int>, width: nat)
    requires forall t :: t in cutoffs && t >= 0 ==> |FormatInt(t)| == width
    ensures SuffixFree(cutoffs)
  {
    forall t, t' | t in cutoffs && t' in cutoffs ensures !Clash(t, t') {
      if Clash(t, t') {
        assert FormatInt(t) == FormatInt(t');
        FormatIntInjective(t, t');
      }
    }
  }

  /**
   In a zone with offset zero the all-time cut-off is 0, and it clashes with every day, month or year start:
   each of them is a positive multiple of 86400.
   */
  lemma AllTimeClashesWithMidnights(t: int)
    requires t > 0 && t % 86400 == 0
    ensures Clash(0, t)
  {
    var days := t / 86400;
    SplitLastDigit(8640 * days, 0);
    assert t == 10 * (8640 * days) + 0;
    assert FormatInt(t) == FormatNat(t / 10) + ['0'];
    assert FormatInt(0) == ['0'];
  }

  /** Whatever the cut-off, a user's own key always carries the prefix that `DeleteUserReports` removes. */
  lemma OwnKeyHasPrefix(user: int, cutoff: int)
    ensures HasUserPrefix(Key(user, cutoff), user)
  {
  }

  /**
   Which of another user's keys go with a deletion for `user`: all of them when that id extends the user's
   digits, and otherwise those where the cut-off's digits complete them.
   */
  lemma DeletionReach(user: int, other: int, cutoff: int)
    ensures var du, dv := FormatInt(user), FormatInt(other);
            HasUserPrefix(Key(other, cutoff), user) <==>
            user == other || du <= dv || (dv <= du && du[|dv|..] <= FormatInt(cutoff))
  {
    var du, dv, key := FormatInt(user), FormatInt(other), Key(other, cutoff);
    if |du| <= |dv| {
      assert key[..|du|] == dv[..|du|];
    } else {
      assert key[..|dv|] == dv && key[|dv|..] == FormatInt(cutoff);
      if du <= key {
        assert du[..|dv|] == dv && du[|dv|..] == key[|dv|..|du|];
      }
      if dv <= du && du[|dv|..] <= FormatInt(cutoff) {
        assert du == dv + du[|dv|..];
      }
    }
  }

  // ----- clashes in numbers -----

  lemma LastDigit(a: nat, d: nat, p: nat)
    requires d < 10 && p >= 1
    ensures (10 * a + d) % (10 * p) == 10 * (a % p) + d
  {
    var q := a / p;
    assert 10 * a + d == (10 * p) * q + (10 * (a % p) + d);
    assert 0 <= 10 * (a % p) + d < 10 * p;
    Remainder(10 * p, q, 10 * (a % p) + d);
  }

  lemma OnlyZeroFits(m: nat, k: int)
    requires -(m as int) < m * k < m
    ensures k == 0
  {
    assert k >= 1 ==> m * (k - 1) >= 0;
    assert k <= -1 ==> m * (-1 - k) >= 0;
  }

  lemma Remainder(m: nat, q: nat, r: nat)
    requires r < m
    ensures (m * q + r) % m == r
  {
    var x := m * q + r;
    assert x == m * (x / m) + x % m;
    assert m * (x / m - q) == r - x % m;
    OnlyZeroFits(m, x / m - q);
  }

  /** The last `k` digits of a text are its value modulo the `k`-th power of ten. */
  lemma {:induction false} SuffixValue(s: string, k: nat)
    requires AllDigits(s) && k <= |s|
    ensures NatValue(s[|s| - k..]) == NatValue(s) % Pow10(k)
    ensures NatValue(s[|s| - k..]) < Pow10(k)
  {
    if k > 0 {
      var front, tail := s[..|s| - 1], s[|s| - k..];
      SuffixValue(front, k - 1);
      assert tail[..k - 1] == front[|front| - (k - 1)..];
      LastDigit(NatValue(front), DigitValue(s[|s| - 1]), Pow10(k - 1));
    }
  }

  lemma NatValuePush(s: string, c: char)
    requires AllDigits(s) && IsDigit(c)
    ensures AllDigits(s + [c]) && NatValue(s + [c]) == 10 * NatValue(s) + DigitValue(c)
  {
    assert (s + [c])[..|s|] == s;
  }

  lemma SameLastDigit(m: nat, c: char, n: nat, d: char)
    requires IsDigit(c) && IsDigit(d) && 10 * m + DigitValue(c) == 10 * n + DigitValue(d)
    ensures m == n && c == d
  {
  }

  lemma {:induction false} SameWidthSameValue(a: string, b: string)
    requires AllDigits(a) && AllDigits(b) && |a| == |b| && NatValue(a) == NatValue(b)
    ensures a == b
  {
    hide NatValue, DigitValue;
    if a != [] {
      var x, y, c, d := a[..|a| - 1], b[..|b| - 1], a[|a| - 1], b[|b| - 1];
      assert a == x + [c] && b == y + [d];
      NatValuePush(x, c);
      NatValuePush(y, d);
      SameLastDigit(NatValue(x), c, NatValue(y), d);
      SameWidthSameValue(x, y);
    }
  }

  lemma {:induction false} WidthMonotone(m: nat, n: nat)
    requires m <= n
    ensures |FormatNat(m)| <= |FormatNat(n)|
  {
    if n >= 10 && m >= 10 {
      WidthMonotone(m / 10, n / 10);
    }
  }

  /** A test on two cut-offs before either is used: the larger one modulo a power of ten. */
  lemma ClashIsCongruence(t: nat, t': nat)
    requires t' < t
    ensures Clash(t, t') <==> t % Pow10(|FormatInt(t')|) == t'
  {
    hide Pow10, NatValue;
    var d, d' := FormatNat(t), FormatNat(t');
    WidthMonotone(t', t);
    NatRoundTrip(t);
    NatRoundTrip(t');
    var tail := d[|d| - |d'|..];
    SuffixValue(d, |d'|);
    if NatValue(tail) == t' {
      SameWidthSameValue(tail, d');
    }
  }
}
