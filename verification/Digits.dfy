/**
 * Decimal digit strings: Python's `str(n)` for integers, the zero-padded
 * fields of `strftime`/`isoformat`, and the parsing done by `int(text)`.
 */
module Digits {
  import opened Wrappers
  import Text

  function Pow10(w: nat): (p: nat)
    ensures p >= 1
  {
    if w == 0 then 1 else 10 * Pow10(w - 1)
  }

  predicate IsDigit(c: char) {
    '0' <= c <= '9'
  }

  predicate AllDigits(s: string) {
    forall k :: 0 <= k < |s| ==> IsDigit(s[k])
  }

  function DigitChar(d: nat): (c: char)
    requires d < 10
    ensures IsDigit(c)
  {
    (48 + d) as char
  }

  function DigitValue(c: char): nat
    requires IsDigit(c)
  {
    (c as int) - 48
  }

  /** The number a string of decimal digits denotes. */
  function Value(s: string): nat
    requires AllDigits(s)
  {
    if s == [] then 0 else 10 * Value(s[..|s| - 1]) + DigitValue(s[|s| - 1])
  }

  /** `n` written with exactly `w` digits, zero-padded on the left (`%0wd`). */
  function Pad(n: nat, w: nat): (s: string)
    requires n < Pow10(w)
    ensures |s| == w && AllDigits(s)
  {
    if w == 0 then [] else Pad(n / 10, w - 1) + [DigitChar(n % 10)]
  }

  /** Python's `str(n)` for a natural number: no leading zeros. */
  function Decimal(n: nat): (s: string)
    ensures |s| >= 1 && AllDigits(s)
    ensures |s| > 1 ==> s[0] != '0'
  {
    if n < 10 then [DigitChar(n)] else Decimal(n / 10) + [DigitChar(n % 10)]
  }

  /** Python's `str(i)` for any integer. */
  function IntText(i: int): (s: string)
    ensures |s| >= 1
    ensures ':' !in s
  {
    if i < 0 then "-" + Decimal(-i) else Decimal(i)
  }

  /** Digits-only text with at least one digit, as its number. */
  function ParseDigits(s: string): (r: Option<nat>)
    ensures r.Some? <==> s != [] && AllDigits(s)
  {
    if s != [] && AllDigits(s) then Some(Value(s)) else None
  }

  /**
   * Python's `int(text)`: surrounding whitespace is ignored, an optional
   * sign is followed by one or more digits; anything else is a ValueError.
   */
  function ParseInt(text: string): (r: Option<int>)
  {
    var t := Text.Strip(text);
    if t != [] && (t[0] == '-' || t[0] == '+') then
      match ParseDigits(t[1..])
      case Some(v) =>
        var n: int := v;
        var x: int := if t[0] == '-' then -n else n;
        Some(x)
      case None => None
    else
      match ParseDigits(t)
      case Some(v) =>
        var x: int := v;
        Some(x)
      case None => None
  }

  lemma {:induction false} PadValue(n: nat, w: nat)
    requires n < Pow10(w)
    ensures Value(Pad(n, w)) == n
  {
    if w > 0 {
      PadValue(n / 10, w - 1);
      var s := Pad(n, w);
      assert s[..|s| - 1] == Pad(n / 10, w - 1);
    }
  }

  /** Reading back a zero-padded field gives the number written. */
  lemma PadRoundTrip(n: nat, w: nat)
    requires n < Pow10(w) && w >= 1
    ensures ParseDigits(Pad(n, w)) == Some(n)
  {
    PadValue(n, w);
  }

  lemma {:induction false} DecimalValue(n: nat)
    ensures Value(Decimal(n)) == n
  {
    var s := Decimal(n);
    if n >= 10 {
      DecimalValue(n / 10);
      assert s[..|s| - 1] == Decimal(n / 10);
    } else {
      assert s[..|s| - 1] == [];
    }
  }

  /** The text of a natural number parses back to it. */
  lemma DecimalParse(n: nat)
    ensures ParseDigits(Decimal(n)) == Some(n)
  {
    DecimalValue(n);
  }

  /** A digit is not whitespace. */
  lemma DigitNotSpace(c: char)
    requires IsDigit(c)
    ensures !Text.IsSpace(c)
  {
  }

  /** `int(str(i)) == i`: the text of an integer parses back to it. */
  lemma IntTextRoundTrip(i: int)
    ensures ParseInt(IntText(i)) == Some(i)
  {
    var s := IntText(i);
    var d := Decimal(if i < 0 then -i else i);
    DigitNotSpace(d[|d| - 1]);
    assert s[|s| - 1] == d[|d| - 1];
    if i < 0 {
      assert s == "-" + d;
      Text.StripUnchanged(s);
      assert s[1..] == d;
      DecimalParse(-i);
    } else {
      DigitNotSpace(d[0]);
      Text.StripUnchanged(s);
      DecimalParse(i);
    }
  }

  /** Distinct integers have distinct texts. */
  lemma IntTextInjective(i: int, j: int)
    requires IntText(i) == IntText(j)
    ensures i == j
  {
    IntTextRoundTrip(i);
    IntTextRoundTrip(j);
  }
}
