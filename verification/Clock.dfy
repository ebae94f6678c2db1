/**
 * Naive calendar timestamps (Python's `datetime` without a time zone) and
 * the three text forms the bot uses: `isoformat()` when saving,
 * `fromisoformat()` when loading, and `strftime("%d.%m")` in approval
 * comments.
 */
module Clock {
  import opened Wrappers
  import opened Digits

  datatype DateTime = DateTime(
    year: nat, month: nat, day: nat,
    hour: nat, minute: nat, second: nat, microsecond: nat)

  predicate IsLeapYear(y: nat) {
    y % 4 == 0 && (y % 100 != 0 || y % 400 == 0)
  }

  function DaysInMonth(y: nat, m: nat): nat
    requires 1 <= m <= 12
  {
    if m == 2 then (if IsLeapYear(y) then 29 else 28)
    else if m == 4 || m == 6 || m == 9 || m == 11 then 30
    else 31
  }

  /** The values `datetime` accepts. */
  predicate Valid(dt: DateTime) {
    && 1 <= dt.year <= 9999
    && 1 <= dt.month <= 12
    && 1 <= dt.day <= DaysInMonth(dt.year, dt.month)
    && dt.hour < 24 && dt.minute < 60 && dt.second < 60
    && dt.microsecond < 1000000
  }

  /** `YYYY-MM-DD`, the date half of `isoformat()`. */
  function DatePart(dt: DateTime): (d: string)
    requires Valid(dt)
    ensures |d| == 10 && d[4] == '-' && d[7] == '-'
    ensures d[0..4] == Pad(dt.year, 4) && d[5..7] == Pad(dt.month, 2) && d[8..10] == Pad(dt.day, 2)
  {
    assert Pow10(4) == 10000 && Pow10(2) == 100;
    Pad(dt.year, 4) + "-" + Pad(dt.month, 2) + "-" + Pad(dt.day, 2)
  }

  /** `HH:MM:SS`, the time half of `isoformat()` without the fraction. */
  function TimePart(dt: DateTime): (t: string)
    requires Valid(dt)
    ensures |t| == 8 && t[2] == ':' && t[5] == ':'
    ensures t[0..2] == Pad(dt.hour, 2) && t[3..5] == Pad(dt.minute, 2) && t[6..8] == Pad(dt.second, 2)
  {
    assert Pow10(2) == 100;
    Pad(dt.hour, 2) + ":" + Pad(dt.minute, 2) + ":" + Pad(dt.second, 2)
  }

  /** `.ffffff` when the microsecond is not zero, otherwise nothing. */
  function FractionPart(dt: DateTime): (f: string)
    requires Valid(dt)
    ensures dt.microsecond == 0 ==> f == []
    ensures dt.microsecond != 0 ==> |f| == 7 && f[0] == '.' && f[1..] == Pad(dt.microsecond, 6)
  {
    assert Pow10(6) == 1000000;
    if dt.microsecond == 0 then "" else "." + Pad(dt.microsecond, 6)
  }

  /**
   * `dt.isoformat()`: `YYYY-MM-DDTHH:MM:SS`, followed by `.ffffff` only
   * when the microsecond is not zero.
   */
  function IsoFormat(dt: DateTime): (s: string)
    requires Valid(dt)
    ensures |s| == (if dt.microsecond == 0 then 19 else 26)
  {
    DatePart(dt) + "T" + TimePart(dt) + FractionPart(dt)
  }

  /** The number in `s[i..i + w]`, when that slice is all digits. */
  function Field(s: string, i: nat, w: nat): Option<nat>
    requires i + w <= |s|
  {
    ParseDigits(s[i..i + w])
  }

  /**
   * `datetime.fromisoformat(s)` restricted to the two shapes `isoformat()`
   * writes; any other text, or a field out of range, is a ValueError (None).
   */
  function FromIsoFormat(s: string): (r: Option<DateTime>)
    ensures r.Some? ==> Valid(r.value)
  {
    if |s| != 19 && |s| != 26 then None
    else if s[4] != '-' || s[7] != '-' || s[10] != 'T' || s[13] != ':' || s[16] != ':' then None
    else if |s| == 26 && s[19] != '.' then None
    else
      var y, mo, d := Field(s, 0, 4), Field(s, 5, 2), Field(s, 8, 2);
      var h, mi, se := Field(s, 11, 2), Field(s, 14, 2), Field(s, 17, 2);
      var us := if |s| == 26 then Field(s, 20, 6) else Some(0);
      if y.None? || mo.None? || d.None? || h.None? || mi.None? || se.None? || us.None? then None
      else
        var dt := DateTime(y.value, mo.value, d.value, h.value, mi.value, se.value, us.value);
        if Valid(dt) then Some(dt) else None
  }

  lemma FieldHolds(s: string, i: nat, w: nat, n: nat)
    requires 1 <= w && i + w <= |s| && n < Pow10(w)
    requires s[i..i + w] == Pad(n, w)
    ensures Field(s, i, w) == Some(n)
  {
    PadRoundTrip(n, w);
  }

  /** A field inside a piece of a larger text reads the same in both. */
  lemma FieldInside(s: string, off: nat, d: string, i: nat, w: nat)
    requires off + |d| <= |s| && s[off..off + |d|] == d && i + w <= |d|
    ensures Field(s, off + i, w) == Field(d, i, w)
  {
    var a, b := s[off + i..off + i + w], d[i..i + w];
    forall m | 0 <= m < w
      ensures a[m] == b[m]
    {
      assert s[off..off + |d|][i + m] == s[off + i + m];
    }
    assert a == b;
  }

  /** The date fields read back as the year, month and day. */
  lemma DateFieldValues(dt: DateTime)
    requires Valid(dt)
    ensures var d := DatePart(dt);
      Field(d, 0, 4) == Some(dt.year) && Field(d, 5, 2) == Some(dt.month) && Field(d, 8, 2) == Some(dt.day)
  {
    assert Pow10(4) == 10000 && Pow10(2) == 100;
    var d := DatePart(dt);
    FieldHolds(d, 0, 4, dt.year);
    FieldHolds(d, 5, 2, dt.month);
    FieldHolds(d, 8, 2, dt.day);
  }

  /** The time fields read back as the hour, minute and second. */
  lemma TimeFieldValues(dt: DateTime)
    requires Valid(dt)
    ensures var t := TimePart(dt);
      Field(t, 0, 2) == Some(dt.hour) && Field(t, 3, 2) == Some(dt.minute) && Field(t, 6, 2) == Some(dt.second)
  {
    assert Pow10(2) == 100;
    var t := TimePart(dt);
    FieldHolds(t, 0, 2, dt.hour);
    FieldHolds(t, 3, 2, dt.minute);
    FieldHolds(t, 6, 2, dt.second);
  }

  /** The separators of `isoformat()` sit at fixed positions. */
  lemma IsoSeparators(dt: DateTime)
    requires Valid(dt)
    ensures var s := IsoFormat(dt);
      && s[4] == '-' && s[7] == '-' && s[10] == 'T' && s[13] == ':' && s[16] == ':'
      && (|s| == 26 ==> s[19] == '.')
      && s[0..10] == DatePart(dt) && s[11..19] == TimePart(dt) && s[19..] == FractionPart(dt)
  {
    var d, t, f := DatePart(dt), TimePart(dt), FractionPart(dt);
    var s := IsoFormat(dt);
    assert s[0..10] == d;
    assert s[11..19] == t;
    assert s[19..] == f;
  }

  /** The date fields of `isoformat()` read back as the values written there. */
  lemma IsoDateValues(dt: DateTime)
    requires Valid(dt)
    ensures var s := IsoFormat(dt);
      Field(s, 0, 4) == Some(dt.year) && Field(s, 5, 2) == Some(dt.month) && Field(s, 8, 2) == Some(dt.day)
  {
    var s, d := IsoFormat(dt), DatePart(dt);
    IsoSeparators(dt);
    DateFieldValues(dt);
    FieldInside(s, 0, d, 0, 4);
    FieldInside(s, 0, d, 5, 2);
    FieldInside(s, 0, d, 8, 2);
  }

  /** The time fields of `isoformat()` read back as the values written there. */
  lemma IsoTimeValues(dt: DateTime)
    requires Valid(dt)
    ensures var s := IsoFormat(dt);
      && Field(s, 11, 2) == Some(dt.hour) && Field(s, 14, 2) == Some(dt.minute)
      && Field(s, 17, 2) == Some(dt.second)
  {
    var s, t := IsoFormat(dt), TimePart(dt);
    IsoSeparators(dt);
    TimeFieldValues(dt);
    FieldInside(s, 11, t, 0, 2);
    FieldInside(s, 11, t, 3, 2);
    FieldInside(s, 11, t, 6, 2);
  }

  /** The fraction of `isoformat()`, when written, reads back as the microsecond. */
  lemma IsoFractionValue(dt: DateTime)
    requires Valid(dt)
    ensures var s := IsoFormat(dt);
      |s| == 26 ==> Field(s, 20, 6) == Some(dt.microsecond)
  {
    var s, f := IsoFormat(dt), FractionPart(dt);
    if |s| == 26 {
      IsoSeparators(dt);
      assert Pow10(6) == 1000000;
      FieldInside(s, 19, f, 1, 6);
      FieldHolds(f, 1, 6, dt.microsecond);
    }
  }

  /** Loading what was saved gives back the same timestamp. */
  lemma IsoRoundTrip(dt: DateTime)
    requires Valid(dt)
    ensures FromIsoFormat(IsoFormat(dt)) == Some(dt)
  {
    IsoSeparators(dt);
    IsoDateValues(dt);
    IsoTimeValues(dt);
    IsoFractionValue(dt);
  }

  /**
   * `dt.strftime("%d.%m")`: two-digit day, a dot, two-digit month; both
   * numbers can be read back from their fixed positions.
   */
  function DayMonth(dt: DateTime): (s: string)
    requires Valid(dt)
    ensures |s| == 5 && s[2] == '.'
    ensures ParseDigits(s[..2]) == Some(dt.day) && ParseDigits(s[3..]) == Some(dt.month)
  {
    assert Pow10(2) == 100;
    var s := Pad(dt.day, 2) + "." + Pad(dt.month, 2);
    assert s[..2] == Pad(dt.day, 2) && s[3..] == Pad(dt.month, 2);
    PadRoundTrip(dt.day, 2);
    PadRoundTrip(dt.month, 2);
    s
  }
}
