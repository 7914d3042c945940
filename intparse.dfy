/**
 * Python's `int(s)` on a string field of a CSV row: surrounding whitespace is
 * ignored, an optional '+' or '-' may precede one or more decimal digits, and
 * anything else raises `ValueError` (here: `None`).
 */
module IntParse {
  import opened Wrappers
  import opened Keys

  /** The ASCII characters Python counts as whitespace. */
  predicate IsSpace(c: char)
  {
    c == ' ' || (9 <= c as int <= 13) || (28 <= c as int <= 31)
  }

  function TrimStart(s: string): (r: string)
    ensures |r| <= |s| && r == s[|s| - |r|..]
    ensures |r| > 0 ==> !IsSpace(r[0])
    decreases |s|
  {
    if |s| > 0 && IsSpace(s[0]) then TrimStart(s[1..]) else s
  }

  function TrimEnd(s: string): (r: string)
    ensures r <= s
    ensures |r| > 0 ==> !IsSpace(r[|r| - 1])
    decreases |s|
  {
    if |s| > 0 && IsSpace(s[|s| - 1]) then TrimEnd(s[..|s| - 1]) else s
  }

  /** `s.strip()` */
  function Trim(s: string): string
  {
    TrimEnd(TrimStart(s))
  }

  /** Every character is whitespace. */
  predicate AllSpace(s: string)
  {
    forall i | 0 <= i < |s| :: IsSpace(s[i])
  }

  /**
   * Python's `int(s)`: `None` where Python raises `ValueError`. A number comes
   * only from a field whose stripped text ends in a digit, and a negative one
   * only from one that starts with '-'.
   */
  function ParseInt(s: string): (r: Option<int>)
    ensures r.Some? ==> |Trim(s)| >= 1 && IsDigit(Trim(s)[|Trim(s)| - 1])
    ensures r.Some? && r.value < 0 ==> Trim(s)[0] == '-'
  {
    ParseStripped(Trim(s))
  }

  /** `int` of a string without surrounding whitespace. */
  function ParseStripped(t: string): Option<int>
  {
    if |t| > 0 && (t[0] == '+' || t[0] == '-') then
      var digits := t[1..];
      if |digits| > 0 && AllDigits(digits) then
        var magnitude: int := DigitsValue(digits);
        Some(if t[0] == '-' then -magnitude else magnitude)
      else None
    else if |t| > 0 && AllDigits(t) then Some(DigitsValue(t))
    else None
  }

  /**
   * Python's `str(n)` for any integer: a '-' exactly for a negative number,
   * followed by the canonical digits of its magnitude.
   */
  function IntToString(n: int): (s: string)
    ensures |s| >= 1
    ensures n < 0 <==> s[0] == '-'
    ensures n >= 0 ==> Canonical(s) && DigitsValue(s) == n
    ensures n < 0 ==> Canonical(s[1..]) && DigitsValue(s[1..]) == -n
  {
    if n < 0 then
      DecimalValue(-n);
      "-" + Decimal(-n)
    else
      DecimalValue(n);
      Decimal(n)
  }

  lemma TrimUnpadded(s: string)
    requires |s| > 0 && !IsSpace(s[0]) && !IsSpace(s[|s| - 1])
    ensures Trim(s) == s
  {
    assert TrimStart(s) == s;
  }

  /** A plain digit string (leading zeros allowed) parses to the number it spells. */
  lemma ParseIntDigits(s: string)
    requires AllDigits(s) && |s| >= 1
    ensures ParseInt(s) == Some(DigitsValue(s))
  {
    assert IsDigit(s[0]) && IsDigit(s[|s| - 1]);
    TrimUnpadded(s);
  }

  /** A minus sign followed by digits parses to the negated number. */
  lemma ParseIntNegative(s: string, digits: string)
    requires |digits| >= 1 && AllDigits(digits)
    requires |s| >= 2 && s[0] == '-' && s[1..] == digits
    ensures ParseInt(s) == Some(-(DigitsValue(digits) as int))
  {
    assert IsDigit(digits[|digits| - 1]) && s[|s| - 1] == digits[|digits| - 1];
    TrimUnpadded(s);
  }

  /** Parsing what `str()` prints gives the integer back. */
  lemma ParseIntRoundTrip(n: int)
    ensures ParseInt(IntToString(n)) == Some(n)
  {
    if n < 0 {
      NegativeRoundTrip(n);
    } else {
      var d := Decimal(n);
      assert IntToString(n) == d;
      DecimalValue(n);
      ParseIntDigits(d);
    }
  }

  lemma NegativeRoundTrip(n: int)
    requires n < 0
    ensures ParseInt(IntToString(n)) == Some(n)
  {
    var d := Decimal(-n);
    var s := IntToString(n);
    assert s[1..] == d;
    ParseIntNegative(s, d);
    DecimalValue(-n);
    var m: int := DigitsValue(d);
    assert m == -n;
    assert ParseInt(s) == Some(-m);
  }

  /** Any whitespace before and after a field does not change what it parses to. */
  lemma ParseIntIgnoresSurroundingSpace(before: string, s: string, after: string)
    requires AllSpace(before) && AllSpace(after)
    ensures ParseInt(before + s + after) == ParseInt(s)
  {
    TrimIgnoresSurroundingSpace(before, s, after);
  }

  lemma TrimIgnoresSurroundingSpace(before: string, s: string, after: string)
    requires AllSpace(before) && AllSpace(after)
    ensures Trim(before + s + after) == Trim(s)
  {
    assert before + s + after == before + (s + after);
    TrimStartSkipsSpace(before, s + after);
    TrimStartAppendSpace(s, after);
    if TrimStart(s) != [] {
      TrimEndSkipsSpace(TrimStart(s), after);
    }
  }

  lemma {:induction false} TrimStartSkipsSpace(a: string, x: string)
    requires AllSpace(a)
    ensures TrimStart(a + x) == TrimStart(x)
    decreases |a|
  {
    if |a| == 0 {
      assert a + x == x;
    } else {
      assert (a + x)[0] == a[0] && (a + x)[1..] == a[1..] + x;
      TrimStartSkipsSpace(a[1..], x);
    }
  }

  lemma {:induction false} TrimStartAppendSpace(s: string, b: string)
    requires AllSpace(b)
    ensures TrimStart(s) == [] ==> TrimStart(s + b) == []
    ensures TrimStart(s) != [] ==> TrimStart(s + b) == TrimStart(s) + b
    decreases |s|
  {
    if |s| == 0 {
      assert s + b == b + [];
      TrimStartSkipsSpace(b, []);
    } else {
      assert (s + b)[0] == s[0] && (s + b)[1..] == s[1..] + b;
      if IsSpace(s[0]) {
        TrimStartAppendSpace(s[1..], b);
      }
    }
  }

  lemma {:induction false} TrimEndSkipsSpace(y: string, b: string)
    requires AllSpace(b)
    ensures TrimEnd(y + b) == TrimEnd(y)
    decreases |b|
  {
    if |b| == 0 {
      assert y + b == y;
    } else {
      var n := |y + b|;
      assert (y + b)[n - 1] == b[|b| - 1];
      assert (y + b)[..n - 1] == y + b[..|b| - 1];
      TrimEndSkipsSpace(y, b[..|b| - 1]);
    }
  }

  /** A field with no digit in it never parses. */
  lemma ParseIntNeedsDigit(s: string)
    requires forall i | 0 <= i < |s| :: !IsDigit(s[i])
    ensures ParseInt(s) == None
  {
    if |Trim(s)| >= 1 {
      var j := TrimLastIndex(s);
      assert !IsDigit(s[j]);
    }
  }

  /** Where the last character of the stripped field sits in the field. */
  lemma TrimLastIndex(s: string) returns (j: nat)
    requires |Trim(s)| >= 1
    ensures j < |s| && s[j] == Trim(s)[|Trim(s)| - 1]
  {
    var t, u := Trim(s), TrimStart(s);
    j := |s| - |u| + |t| - 1;
    assert t[|t| - 1] == u[|t| - 1];
  }
}
