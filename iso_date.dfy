/**
 * `Date.prototype.toISOString` (ECMA-262, section 21.4.4.36): a date as the Date Time String
 * Format `YYYY-MM-DDTHH:mm:ss.sssZ` on the UTC time scale, with a signed six-digit year outside
 * 0000..9999 (section 21.4.1.32.1 on expanded years), and a RangeError for an invalid date.
 */
module IsoDate {
  import opened Wrappers
  import opened Text

  /** The years a finite time value can fall in. */
  type Year = y: int | -271821 <= y <= 275760
  type Month = m: int | 1 <= m <= 12 witness 1
  type Day = d: int | 1 <= d <= 31 witness 1
  type Hour = h: int | 0 <= h < 24
  type Minute = m: int | 0 <= m < 60
  type Second = s: int | 0 <= s < 60
  type Millisecond = ms: int | 0 <= ms < 1000

  /**
   * A `Date` object: invalid (its time value is NaN), or the UTC calendar fields its time
   * value stands for.
   */
  datatype Date =
    | InvalidDate
    | UtcDate(year: Year, month: Month, day: Day, hour: Hour, minute: Minute, second: Second,
              millisecond: Millisecond)

  /** Four digits for a year in 0000..9999, otherwise a sign and six digits. */
  function YearText(y: Year): (s: string)
    ensures |s| == if 0 <= y <= 9999 then 4 else 7
  {
    if 0 <= y <= 9999 then Padded(y, 4)
    else if y > 9999 then "+" + Padded(y, 6)
    else "-" + Padded(-y, 6)
  }

  /** Everything after the year: `-MM-DDTHH:mm:ss.sssZ`. */
  function FieldsText(d: Date): (s: string)
    requires d.UtcDate?
    ensures |s| == 20
  {
    ['-', DigitChar(d.month / 10), DigitChar(d.month % 10),
     '-', DigitChar(d.day / 10), DigitChar(d.day % 10),
     'T', DigitChar(d.hour / 10), DigitChar(d.hour % 10),
     ':', DigitChar(d.minute / 10), DigitChar(d.minute % 10),
     ':', DigitChar(d.second / 10), DigitChar(d.second % 10),
     '.', DigitChar(d.millisecond / 100), DigitChar(d.millisecond / 10 % 10), DigitChar(d.millisecond % 10),
     'Z']
  }

  /** `d.toISOString()`, or None where it throws a RangeError. */
  function ToIsoString(d: Date): (r: Option<string>)
    ensures r.Some? <==> d.UtcDate?
    ensures r.Some? ==> |r.value| == if 0 <= d.year <= 9999 then 24 else 27
  {
    if d.InvalidDate? then None else Some(YearText(d.year) + FieldsText(d))
  }

  function TwoDigits(a: char, b: char): int
    requires IsDigit(a) && IsDigit(b)
  {
    DigitValue(a) * 10 + DigitValue(b)
  }

  /** The year a year text spells, if it has one of the two shapes `YearText` writes. */
  function ReadYear(s: string): Option<int> {
    if |s| == 4 && AllDigits(s) then Some(DecimalValue(s))
    else if |s| == 7 && s[0] == '+' && AllDigits(s[1..]) then Some(DecimalValue(s[1..]))
    else if |s| == 7 && s[0] == '-' && AllDigits(s[1..]) then Some(-(DecimalValue(s[1..]) as int))
    else None
  }

  /** The reference reader for the Date Time String Format as `ToIsoString` writes it. */
  function ReadIsoString(s: string): Option<Date> {
    if |s| < 20 then None
    else
      var t := s[|s| - 20..];
      if !(t[0] == '-' && t[3] == '-' && t[6] == 'T' && t[9] == ':' && t[12] == ':' && t[15] == '.' && t[19] == 'Z') then None
      else if !(forall k | k in {1, 2, 4, 5, 7, 8, 10, 11, 13, 14, 16, 17, 18} :: 0 <= k < |t| && IsDigit(t[k])) then None
      else
        var y := ReadYear(s[..|s| - 20]);
        var mo, d := TwoDigits(t[1], t[2]), TwoDigits(t[4], t[5]);
        var h, mi, sec := TwoDigits(t[7], t[8]), TwoDigits(t[10], t[11]), TwoDigits(t[13], t[14]);
        var ms := DigitValue(t[16]) * 100 + TwoDigits(t[17], t[18]);
        if y.Some? && -271821 <= y.value <= 275760 && 1 <= mo <= 12 && 1 <= d <= 31
           && h < 24 && mi < 60 && sec < 60 then
          Some(UtcDate(y.value, mo, d, h, mi, sec, ms))
        else None
  }

  lemma DigitCharValue(n: int)
    requires 0 <= n < 10
    ensures IsDigit(DigitChar(n)) && DigitValue(DigitChar(n)) == n
  {
  }

  lemma ReadYearText(y: Year)
    ensures ReadYear(YearText(y)) == Some(y as int)
  {
    var s := YearText(y);
    if 0 <= y <= 9999 {
      PaddedValue(y, 4);
    } else if y > 9999 {
      assert s[1..] == Padded(y, 6);
      PaddedValue(y, 6);
    } else {
      assert s[1..] == Padded(-y, 6);
      PaddedValue(-y, 6);
    }
  }

  /** The separators of the fields text are where the reader looks for them. */
  lemma FieldsSeparators(d: Date)
    requires d.UtcDate?
    ensures var t := FieldsText(d);
      t[0] == '-' && t[3] == '-' && t[6] == 'T' && t[9] == ':' && t[12] == ':' && t[15] == '.' && t[19] == 'Z'
  {
  }

  /** The digits of the fields text are digits and spell the fields. */
  lemma FieldsDigits(d: Date)
    requires d.UtcDate?
    ensures var t := FieldsText(d);
      (forall k | k in {1, 2, 4, 5, 7, 8, 10, 11, 13, 14, 16, 17, 18} :: 0 <= k < |t| && IsDigit(t[k]))
      && TwoDigits(t[1], t[2]) == d.month && TwoDigits(t[4], t[5]) == d.day
      && TwoDigits(t[7], t[8]) == d.hour && TwoDigits(t[10], t[11]) == d.minute
      && TwoDigits(t[13], t[14]) == d.second
      && DigitValue(t[16]) * 100 + TwoDigits(t[17], t[18]) == d.millisecond
  {
    var t := FieldsText(d);
    TwoDigitsOf(d.month, t[1], t[2]);
    TwoDigitsOf(d.day, t[4], t[5]);
    TwoDigitsOf(d.hour, t[7], t[8]);
    TwoDigitsOf(d.minute, t[10], t[11]);
    TwoDigitsOf(d.second, t[13], t[14]);
    ThreeDigitsOf(d.millisecond, t[16], t[17], t[18]);
  }

  lemma TwoDigitsOf(n: int, a: char, b: char)
    requires 0 <= n < 100 && a == DigitChar(n / 10) && b == DigitChar(n % 10)
    ensures IsDigit(a) && IsDigit(b) && TwoDigits(a, b) == n
  {
    DigitCharValue(n / 10);
    DigitCharValue(n % 10);
  }

  lemma ThreeDigitsOf(n: int, a: char, b: char, c: char)
    requires 0 <= n < 1000 && a == DigitChar(n / 100) && b == DigitChar(n / 10 % 10) && c == DigitChar(n % 10)
    ensures IsDigit(a) && IsDigit(b) && IsDigit(c) && DigitValue(a) * 100 + TwoDigits(b, c) == n
  {
    DigitCharValue(n / 100);
    DigitCharValue(n / 10 % 10);
    DigitCharValue(n % 10);
  }

  /** Reading a formatted date gives back the date. */
  lemma ReadToIsoString(d: Date)
    requires d.UtcDate?
    ensures ReadIsoString(ToIsoString(d).value) == Some(d)
  {
    var s := ToIsoString(d).value;
    var t := FieldsText(d);
    assert s[|s| - 20..] == t;
    assert s[..|s| - 20] == YearText(d.year);
    ReadYearText(d.year);
    FieldsSeparators(d);
    FieldsDigits(d);
  }
}
