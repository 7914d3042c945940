/**
 * County keys (five-character county FIPS codes: two state digits, three county
 * digits) and the three ways the preprocessing script derives them: concatenating
 * state and county codes, truncating a census block-group code, and left-padding
 * with zeros (Python's `str.zfill`). Also Python's `str()` of a non-negative
 * integer, which is how a key that was read back as a number is turned into text.
 */
module Keys {

  /** Width of a county key. */
  const CountyKeyWidth: nat := 5
  /** Width of a census block-group code. */
  const BlockGroupWidth: nat := 12

  function Min(a: int, b: int): int { if a <= b then a else b }
  function Max(a: int, b: int): int { if a >= b then a else b }

  predicate IsDigit(c: char) { '0' <= c <= '9' }

  predicate AllDigits(s: string) { forall i | 0 <= i < |s| :: IsDigit(s[i]) }

  function DigitValue(c: char): nat
    requires IsDigit(c)
  {
    c as int - '0' as int
  }

  function DigitChar(d: nat): (c: char)
    requires d < 10
    ensures IsDigit(c) && DigitValue(c) == d
  {
    ('0' as int + d) as char
  }

  /** The number a string of decimal digits spells (the empty string spells 0). */
  function DigitsValue(s: string): nat
    requires AllDigits(s)
    decreases |s|
  {
    if |s| == 0 then 0 else DigitsValue(s[..|s| - 1]) * 10 + DigitValue(s[|s| - 1])
  }

  /** A digit string with no superfluous leading zero: the form `str()` gives a number. */
  predicate Canonical(s: string)
  {
    AllDigits(s) && |s| >= 1 && (s[0] == '0' ==> |s| == 1)
  }

  /** Python's `str(n)` for a non-negative integer `n`. */
  function Decimal(n: nat): (s: string)
    ensures Canonical(s)
    ensures s[0] == '0' <==> n == 0
    decreases n
  {
    if n < 10 then [DigitChar(n)] else Decimal(n / 10) + [DigitChar(n % 10)]
  }

  /** `'0' * n` */
  function Zeros(n: nat): (z: string)
    ensures |z| == n && AllDigits(z)
    ensures forall i | 0 <= i < n :: z[i] == '0'
  {
    seq(n, _ => '0')
  }

  /** A string that `zfill` treats as signed: it keeps the sign in front of the padding. */
  predicate HasSign(s: string) { |s| > 0 && (s[0] == '+' || s[0] == '-') }

  /**
   * Python's `s.zfill(width)`: a string at least `width` long is returned as it is;
   * a shorter one is padded with '0' on the left, after a leading '+' or '-' if it has one.
   */
  function ZFill(s: string, width: nat): (r: string)
    ensures |r| == Max(|s|, width)
    ensures |s| >= width ==> r == s
    ensures !HasSign(s) ==> r[|r| - |s|..] == s && forall i | 0 <= i < |r| - |s| :: r[i] == '0'
    ensures HasSign(s) ==>
              && r[0] == s[0]
              && r[|r| - |s| + 1..] == s[1..]
              && forall i | 1 <= i < |r| - |s| + 1 :: r[i] == '0'
  {
    if |s| >= width then s
    else if HasSign(s) then [s[0]] + Zeros(width - |s|) + s[1..]
    else Zeros(width - |s|) + s
  }

  /** Python's `s[:n]`. */
  function Take(s: string, n: nat): (r: string)
    ensures |r| == Min(n, |s|)
    ensures r <= s
  {
    if |s| <= n then s else s[..n]
  }

  /** The census key: the state code followed by the county code, with no padding or check. */
  function CountyKey(stateFips: string, countyFips: string): (key: string)
    ensures |key| == |stateFips| + |countyFips|
    ensures stateFips <= key && key[|stateFips|..] == countyFips
  {
    stateFips + countyFips
  }

  /**
   * The county key of a block group as the script derives it: `str(code)[:5]`,
   * where the code has been read as an integer, so a leading zero is gone.
   */
  function BlockGroupCountyKeyAsWritten(blockGroup: nat): (key: string)
    ensures |key| == Min(CountyKeyWidth, |Decimal(blockGroup)|)
    ensures key <= Decimal(blockGroup)
  {
    Take(Decimal(blockGroup), CountyKeyWidth)
  }

  /**
   * The county key of a block group read as an integer, restoring the
   * twelve-digit width before taking the first five characters.
   */
  function BlockGroupCountyKey(blockGroup: nat): (key: string)
    ensures |key| == CountyKeyWidth && AllDigits(key)
    ensures key <= ZFill(Decimal(blockGroup), BlockGroupWidth)
  {
    var padded := ZFill(Decimal(blockGroup), BlockGroupWidth);
    assert AllDigits(padded) by {
      forall i | 0 <= i < |padded| ensures IsDigit(padded[i]) {
        if i >= |padded| - |Decimal(blockGroup)| {
          assert padded[i] == Decimal(blockGroup)[i - (|padded| - |Decimal(blockGroup)|)];
        }
      }
    }
    Take(padded, CountyKeyWidth)
  }

  // ---------------------------------------------------------------------------
  // Digit strings and their values

  lemma {:induction false} DecimalValue(n: nat)
    ensures DigitsValue(Decimal(n)) == n
    decreases n
  {
    if n >= 10 {
      var s := Decimal(n);
      assert s[..|s| - 1] == Decimal(n / 10);
      DecimalValue(n / 10);
    }
  }

  /** `10^w` */
  function Pow10(w: nat): nat
  {
    if w == 0 then 1 else 10 * Pow10(w - 1)
  }

  /** A number below `10^w` needs at most `w` digits (and always one). */
  lemma {:induction false} DecimalWithin(n: nat, w: nat)
    requires 1 <= w && n < Pow10(w)
    ensures |Decimal(n)| <= w
  {
    if n >= 10 {
      DecimalWithin(n / 10, w - 1);
    }
  }

  lemma DecimalWidth(n: nat)
    ensures n < 100000 ==> |Decimal(n)| <= CountyKeyWidth
  {
    if n < 100000 {
      DecimalWithin(n, CountyKeyWidth);
    }
  }

  lemma {:induction false} LeadingNonZeroPositive(s: string)
    requires AllDigits(s) && |s| >= 1 && s[0] != '0'
    ensures DigitsValue(s) >= 1
    decreases |s|
  {
    if |s| > 1 {
      LeadingNonZeroPositive(s[..|s| - 1]);
    }
  }

  /** `str()` gives back a canonical digit string from the number it spells. */
  lemma {:induction false} CanonicalDecimal(s: string)
    requires Canonical(s)
    ensures Decimal(DigitsValue(s)) == s
    decreases |s|
  {
    if |s| > 1 {
      var p := s[..|s| - 1];
      LeadingNonZeroPositive(p);
      CanonicalDecimal(p);
      var v := DigitsValue(s);
      assert v / 10 == DigitsValue(p) && v % 10 == DigitValue(s[|s| - 1]);
      assert s == p + [s[|s| - 1]];
    }
  }

  lemma {:induction false} ZerosValue(k: nat)
    ensures DigitsValue(Zeros(k)) == 0
  {
    if k > 0 {
      assert Zeros(k)[..k - 1] == Zeros(k - 1);
      ZerosValue(k - 1);
    }
  }

  /** Leading zeros do not change the value of a digit string. */
  lemma {:induction false} LeadingZerosValue(k: nat, t: string)
    requires AllDigits(t)
    ensures AllDigits(Zeros(k) + t)
    ensures DigitsValue(Zeros(k) + t) == DigitsValue(t)
    decreases |t|
  {
    var s := Zeros(k) + t;
    assert forall i | 0 <= i < |s| :: IsDigit(s[i]) by {
      forall i | 0 <= i < |s| ensures IsDigit(s[i]) {
        if i >= k { assert s[i] == t[i - k]; }
      }
    }
    if |t| == 0 {
      assert s == Zeros(k);
      ZerosValue(k);
    } else {
      assert s[..|s| - 1] == Zeros(k) + t[..|t| - 1];
      LeadingZerosValue(k, t[..|t| - 1]);
    }
  }

  /** One more leading zero in front of `z + r`, where `z` is all zeros. */
  lemma ZerosPrepend(s: string, t: string, z: string, r: string)
    requires |s| >= 1 && s[0] == '0' && t == s[1..]
    requires z == Zeros(|z|) && t == z + r
    ensures s == Zeros(|s| - |r|) + r
  {
    assert Zeros(|z| + 1) == ['0'] + z;
    assert s == [s[0]] + t;
  }

  /** Removes leading zeros, keeping at least one digit. */
  function StripZeros(s: string): (r: string)
    requires AllDigits(s) && |s| >= 1
    ensures Canonical(r) && |r| <= |s|
    ensures s == Zeros(|s| - |r|) + r
    decreases |s|
  {
    if |s| > 1 && s[0] == '0' then
      var t := s[1..];
      var r := StripZeros(t);
      ZerosPrepend(s, t, Zeros(|t| - |r|), r);
      r
    else s
  }

  /** Two digit strings of the same length spelling the same number are the same string. */
  lemma {:induction false} SameValueSameDigits(x: string, y: string)
    requires AllDigits(x) && AllDigits(y) && |x| == |y|
    requires DigitsValue(x) == DigitsValue(y)
    ensures x == y
    decreases |x|
  {
    if |x| > 0 {
      var n := |x|;
      assert DigitsValue(x) % 10 == DigitValue(x[n - 1]);
      assert DigitsValue(y) % 10 == DigitValue(y[n - 1]);
      assert DigitsValue(x) / 10 == DigitsValue(x[..n - 1]);
      assert DigitsValue(y) / 10 == DigitsValue(y[..n - 1]);
      SameValueSameDigits(x[..n - 1], y[..n - 1]);
      assert x == x[..n - 1] + [x[n - 1]];
      assert y == y[..n - 1] + [y[n - 1]];
    }
  }

  // ---------------------------------------------------------------------------
  // Zero-padding

  /** Padding a padded key changes nothing. */
  lemma ZFillIdempotent(s: string, width: nat)
    ensures ZFill(ZFill(s, width), width) == ZFill(s, width)
  {
  }

  /** An unsigned key no longer than the width comes out exactly `width` long: zeros, then the key. */
  lemma ZFillShortKey(s: string, width: nat)
    requires |s| <= width && !HasSign(s)
    ensures ZFill(s, width) == Zeros(width - |s|) + s
  {
    var r := ZFill(s, width);
    assert r[..width - |s|] == Zeros(width - |s|);
    assert r == r[..width - |s|] + r[width - |s|..];
  }

  /** Zero-padding a digit string keeps the number it spells. */
  lemma ZFillPreservesValue(s: string, width: nat)
    requires AllDigits(s)
    ensures AllDigits(ZFill(s, width))
    ensures DigitsValue(ZFill(s, width)) == DigitsValue(s)
  {
    if |s| < width {
      assert !HasSign(s);
      ZFillShortKey(s, width);
      LeadingZerosValue(width - |s|, s);
    }
  }

  /**
   * Two digit keys no longer than the width pad to the same key exactly when they
   * spell the same number: "1001" and "01001" are the same county.
   */
  lemma ZFillSameCounty(a: string, b: string, width: nat)
    requires AllDigits(a) && AllDigits(b) && |a| <= width && |b| <= width
    ensures ZFill(a, width) == ZFill(b, width) <==> DigitsValue(a) == DigitsValue(b)
  {
    ZFillPreservesValue(a, width);
    ZFillPreservesValue(b, width);
    if DigitsValue(a) == DigitsValue(b) {
      SameValueSameDigits(ZFill(a, width), ZFill(b, width));
    }
  }

  /**
   * A key written as digits, read back as a number (losing its leading zeros)
   * and turned back into text, is restored by padding to its original width.
   */
  lemma ZFillRestoresDigits(s: string)
    requires AllDigits(s) && |s| >= 1
    ensures ZFill(Decimal(DigitsValue(s)), |s|) == s
  {
    var r := StripZeros(s);
    LeadingZerosValue(|s| - |r|, r);
    CanonicalDecimal(r);
    ZFillStripped(s, r);
  }

  lemma ZFillStripped(s: string, r: string)
    requires Canonical(r) && |r| <= |s| && s == Zeros(|s| - |r|) + r
    ensures ZFill(r, |s|) == s
  {
    assert !HasSign(r) by { assert IsDigit(r[0]); }
    if |r| < |s| {
      ZFillShortKey(r, |s|);
    } else {
      assert Zeros(0) + r == r;
    }
  }

  // ---------------------------------------------------------------------------
  // County keys from state and county codes

  /** With state codes of one width, the concatenated key determines both codes. */
  lemma CountyKeyInjective(state1: string, county1: string, state2: string, county2: string)
    requires |state1| == |state2|
    ensures CountyKey(state1, county1) == CountyKey(state2, county2) <==> state1 == state2 && county1 == county2
  {
    var k1, k2 := CountyKey(state1, county1), CountyKey(state2, county2);
    if k1 == k2 {
      assert state1 == k1[..|state1|] == state2;
    }
  }

  /** Without the width check, different (state, county) pairs can share a key. */
  lemma CountyKeyAmbiguousWithoutWidths()
    ensures CountyKey("1", "0010") == CountyKey("10", "010") == "10010"
  {
  }

  // ---------------------------------------------------------------------------
  // County keys from block groups

  /**
   * For a block group in a state whose code starts with '0', the script's key is
   * the second to sixth digit of the code, not the first five.
   */
  lemma LeadingZeroStateMisKeyed(code: string)
    requires |code| == BlockGroupWidth && AllDigits(code)
    requires code[0] == '0' && code[1] != '0'
    ensures BlockGroupCountyKeyAsWritten(DigitsValue(code)) == code[1..6]
    ensures BlockGroupCountyKeyAsWritten(DigitsValue(code)) != code[..CountyKeyWidth]
  {
    var t := code[1..];
    assert code == Zeros(1) + t;
    LeadingZerosValue(1, t);
    CanonicalDecimal(t);
    assert BlockGroupCountyKeyAsWritten(DigitsValue(code)) == t[..5];
    assert t[..5][0] != code[..5][0];
  }

  /** Block group 010010001001 (Autauga County, Alabama, is 01001) is keyed "10010". */
  lemma AutaugaBlockGroupMisKeyed()
    ensures BlockGroupCountyKeyAsWritten(DigitsValue("010010001001")) == "10010"
  {
    var code := "010010001001";
    assert AllDigits(code) && code[0] == '0' && code[1] != '0';
    LeadingZeroStateMisKeyed(code);
    assert code[1..6] == "10010";
  }

  /** Restoring the width first gives the county prefix of every twelve-digit block-group code. */
  lemma BlockGroupCountyKeyIsCountyPrefix(code: string)
    requires |code| == BlockGroupWidth && AllDigits(code)
    ensures BlockGroupCountyKey(DigitsValue(code)) == code[..CountyKeyWidth]
  {
    ZFillRestoresDigits(code);
  }
}
