/**
 The few string operations the analysis core relies on: decimal rendering of
 integers (Python's str(int)), rendering of a value rounded to two decimals
 (Python's str(float) for such a value), and str.join.
 */
module Text {

  predicate IsDigit(c: char) {
    '0' <= c <= '9'
  }

  predicate AllDigits(s: string) {
    forall i :: 0 <= i < |s| ==> IsDigit(s[i])
  }

  function DigitChar(d: nat): (c: char)
    requires d < 10
    ensures IsDigit(c)
    ensures (c as int) - ('0' as int) == d
  {
    "0123456789"[d]
  }

  function DigitValue(c: char): nat
    requires IsDigit(c)
  {
    (c as int) - ('0' as int)
  }

  /** Decimal value of a string of digits (the partner of NatToString). */
  function DigitsValue(s: string): nat
    requires AllDigits(s)
  {
    if s == [] then 0 else DigitsValue(s[..|s| - 1]) * 10 + DigitValue(s[|s| - 1])
  }

  /** Python's str(n) for a non-negative integer: shortest decimal, no leading zeros. */
  function NatToString(n: nat): (s: string)
    ensures |s| >= 1
    ensures AllDigits(s)
    ensures s[0] == '0' ==> n == 0
    decreases n
  {
    if n < 10 then [DigitChar(n)] else NatToString(n / 10) + [DigitChar(n % 10)]
  }

  lemma {:induction false} NatToStringRoundTrip(n: nat)
    ensures DigitsValue(NatToString(n)) == n
    decreases n
  {
    var s := NatToString(n);
    if n >= 10 {
      NatToStringRoundTrip(n / 10);
      assert s[..|s| - 1] == NatToString(n / 10);
      assert DigitValue(s[|s| - 1]) == n % 10;
    }
  }

  /** Python's str(i) for any integer. */
  function IntToString(i: int): (s: string)
    ensures |s| >= 1
    ensures i < 0 <==> s[0] == '-'
    ensures i >= 0 ==> AllDigits(s)
    ensures i < 0 ==> AllDigits(s[1..])
  {
    if i < 0 then "-" + NatToString(-i) else NatToString(i)
  }

  /** Python's sep.join(parts). */
  function Join(sep: string, parts: seq<string>): string
  {
    if |parts| == 0 then ""
    else if |parts| == 1 then parts[0]
    else parts[0] + sep + Join(sep, parts[1..])
  }

  lemma {:induction false} JoinSnoc(sep: string, parts: seq<string>, last: string)
    requires |parts| >= 1
    ensures Join(sep, parts + [last]) == Join(sep, parts) + sep + last
    decreases |parts|
  {
    if |parts| == 1 {
      assert parts + [last] == [parts[0], last];
      assert ([parts[0], last])[1..] == [last];
    } else {
      assert (parts + [last])[1..] == parts[1..] + [last];
      JoinSnoc(sep, parts[1..], last);
    }
  }

  lemma JoinTwo(sep: string, a: string, b: string)
    ensures Join(sep, [a, b]) == a + sep + b
  {
    assert [a, b][1..] == [b];
  }

  lemma JoinThree(sep: string, a: string, b: string, c: string)
    ensures Join(sep, [a, b, c]) == a + sep + b + sep + c
  {
    assert [a, b, c][1..] == [b, c];
    JoinTwo(sep, b, c);
  }

  /** Joining a first fragment, an optional middle one and a last one. */
  lemma JoinOptionalMiddle(sep: string, first: string, middle: string, hasMiddle: bool, last: string)
    ensures (if hasMiddle then Join(sep, [first, middle, last]) else Join(sep, [first, last])) ==
      first + (if hasMiddle then sep + middle else "") + sep + last
  {
    if hasMiddle {
      JoinThree(sep, first, middle, last);
      assert first + sep + middle + sep + last == first + (sep + middle) + sep + last;
    } else {
      JoinTwo(sep, first, last);
      assert first + "" == first;
    }
  }

  /**
   Python's str(x) for x == round(v, 2), given h == 100 * x as an integer:
   the whole part, a point, and the fractional digits with trailing zeros
   dropped but at least one kept ("62.5", "40.0", "33.33").
   */
  function FormatHundredths(h: nat): (s: string)
    ensures var w := NatToString(h / 100);
      && |w| + 2 <= |s| <= |w| + 3
      && s[..|w|] == w && s[|w|] == '.'
      && AllDigits(s[|w| + 1..])
      && (s[|s| - 1] == '0' ==> s[|w| + 1..] == "0")
  {
    var whole := NatToString(h / 100);
    var frac := h % 100;
    whole + "." +
    (if frac == 0 then "0"
     else if frac % 10 == 0 then [DigitChar(frac / 10)]
     else [DigitChar(frac / 10), DigitChar(frac % 10)])
  }

  /** Reads back a "W.F" or "W.FF" decimal as a count of hundredths. */
  function ParseHundredths(s: string): (h: nat)
  {
    if |s| >= 4 && s[|s| - 3] == '.' && AllDigits(s[..|s| - 3]) && AllDigits(s[|s| - 2..]) then
      DigitsValue(s[..|s| - 3]) * 100 + DigitsValue(s[|s| - 2..])
    else if |s| >= 3 && s[|s| - 2] == '.' && AllDigits(s[..|s| - 2]) && AllDigits(s[|s| - 1..]) then
      DigitsValue(s[..|s| - 2]) * 100 + DigitsValue(s[|s| - 1..]) * 10
    else 0
  }

  lemma FormatHundredthsRoundTrip(h: nat)
    ensures ParseHundredths(FormatHundredths(h)) == h
  {
    var whole := NatToString(h / 100);
    var frac := h % 100;
    NatToStringRoundTrip(h / 100);
    assert h == (h / 100) * 100 + frac;
    if frac != 0 && frac % 10 != 0 {
      assert FormatHundredths(h) == whole + "." + [DigitChar(frac / 10), DigitChar(frac % 10)];
      ParseTwoDecimals(whole, frac);
    } else {
      var d := if frac == 0 then 0 else frac / 10;
      assert d * 10 == frac;
      assert FormatHundredths(h) == whole + "." + [DigitChar(d)];
      ParseOneDecimal(whole, d);
    }
  }

  lemma ParseTwoDecimals(whole: string, frac: nat)
    requires |whole| >= 1 && AllDigits(whole)
    requires frac < 100
    ensures var tail := [DigitChar(frac / 10), DigitChar(frac % 10)];
      ParseHundredths(whole + "." + tail) == DigitsValue(whole) * 100 + frac
  {
    TwoDigitsValue(frac);
    ParseTwoDigitTail(whole, [DigitChar(frac / 10), DigitChar(frac % 10)]);
  }

  lemma ParseTwoDigitTail(whole: string, tail: string)
    requires |whole| >= 1 && AllDigits(whole)
    requires |tail| == 2 && AllDigits(tail)
    ensures ParseHundredths(whole + "." + tail) == DigitsValue(whole) * 100 + DigitsValue(tail)
  {
    var s := whole + "." + tail;
    assert s[..|s| - 3] == whole;
    assert s[|s| - 2..] == tail;
    assert s[|s| - 3] == '.';
  }

  /** Two digits read back as the number they render. */
  lemma TwoDigitsValue(frac: nat)
    requires frac < 100
    ensures AllDigits([DigitChar(frac / 10), DigitChar(frac % 10)])
    ensures DigitsValue([DigitChar(frac / 10), DigitChar(frac % 10)]) == frac
  {
    var tail := [DigitChar(frac / 10), DigitChar(frac % 10)];
    assert tail[..1] == [DigitChar(frac / 10)];
    assert tail[..1][..0] == [];
    assert DigitsValue(tail[..1]) == frac / 10;
  }

  lemma ParseOneDecimal(whole: string, d: nat)
    requires |whole| >= 1 && AllDigits(whole)
    requires d < 10
    ensures ParseHundredths(whole + "." + [DigitChar(d)]) == DigitsValue(whole) * 100 + d * 10
  {
    var s := whole + "." + [DigitChar(d)];
    var tail := [DigitChar(d)];
    assert s[..|s| - 2] == whole;
    assert s[|s| - 1..] == tail;
    assert tail[..0] == [];
    assert DigitsValue(tail) == d;
    assert s[|s| - 2] == '.';
    assert !(|s| >= 4 && s[|s| - 3] == '.') by {
      if |s| >= 4 {
        assert s[|s| - 3] == whole[|whole| - 1];
        assert IsDigit(whole[|whole| - 1]);
      }
    }
    assert AllDigits(s[|s| - 1..]);
  }
}
