/** Naive calendar datetimes, as Python's `datetime.datetime` without tzinfo:
    the field ranges it enforces, the order it compares by, and the rendering
    `strftime('%Y-%m-%d %H:%M:%S')` gives it. */
module DateTimes {

  /** The seven fields of a naive datetime, listed in the order they are compared. */
  datatype Moment = Moment(year: int, month: int, day: int,
                           hour: int, minute: int, second: int, microsecond: int)
  {
    /** The ranges `datetime(...)` accepts (MINYEAR 1, MAXYEAR 9999). */
    predicate Valid() {
      && 1 <= year <= 9999
      && 1 <= month <= 12
      && 1 <= day <= DaysInMonth(year, month)
      && 0 <= hour < 24
      && 0 <= minute < 60
      && 0 <= second < 60
      && 0 <= microsecond < 1000000
    }
  }

  /** A value of type `datetime.datetime`: every one satisfies the field ranges. */
  type DateTime = m: Moment | m.Valid() witness Moment(1, 1, 1, 0, 0, 0, 0)

  /** Proleptic Gregorian leap years, as the `datetime` module uses. */
  predicate IsLeapYear(y: int) {
    y % 4 == 0 && (y % 100 != 0 || y % 400 == 0)
  }

  function DaysInMonth(y: int, m: int): (n: int)
    requires 1 <= m <= 12
    ensures 28 <= n <= 31
    ensures n == 29 <==> m == 2 && IsLeapYear(y)
    ensures n == 31 <==> m in {1, 3, 5, 7, 8, 10, 12}
  {
    if m == 2 then (if IsLeapYear(y) then 29 else 28)
    else if m in {4, 6, 9, 11} then 30
    else 31
  }

  /** `a < b` on naive datetimes: lexicographic on (year, ..., microsecond). */
  predicate Before(a: DateTime, b: DateTime) {
    if a.year != b.year then a.year < b.year
    else if a.month != b.month then a.month < b.month
    else if a.day != b.day then a.day < b.day
    else if a.hour != b.hour then a.hour < b.hour
    else if a.minute != b.minute then a.minute < b.minute
    else if a.second != b.second then a.second < b.second
    else a.microsecond < b.microsecond
  }

  lemma BeforeIsStrictTotalOrder(a: DateTime, b: DateTime, c: DateTime)
    ensures !Before(a, a)
    ensures Before(a, b) && Before(b, c) ==> Before(a, c)
    ensures a != b ==> Before(a, b) || Before(b, a)
  {
  }

  // ---------------------------------------------------------------------------
  // Rendering with strftime('%Y-%m-%d %H:%M:%S')
  // ---------------------------------------------------------------------------

  predicate IsDigit(c: char) {
    '0' <= c <= '9'
  }

  function DigitValue(c: char): (d: int)
    requires IsDigit(c)
    ensures 0 <= d < 10
  {
    c as int - '0' as int
  }

  function DigitChar(d: int): (c: char)
    requires 0 <= d < 10
    ensures IsDigit(c) && DigitValue(c) == d
  {
    ('0' as int + d) as char
  }

  /** The `%m`, `%d`, `%H`, `%M` and `%S` conversions: two digits, zero-padded. */
  function Pad2(n: int): (s: string)
    requires 0 <= n < 100
    ensures |s| == 2 && IsDigit(s[0]) && IsDigit(s[1])
    ensures 10 * DigitValue(s[0]) + DigitValue(s[1]) == n
  {
    [DigitChar(n / 10), DigitChar(n % 10)]
  }

  /** The `%Y` conversion: four digits, zero-padded. */
  function Pad4(n: int): (s: string)
    requires 0 <= n < 10000
    ensures |s| == 4 && forall i | 0 <= i < 4 :: IsDigit(s[i])
    ensures 1000 * DigitValue(s[0]) + 100 * DigitValue(s[1]) + 10 * DigitValue(s[2]) + DigitValue(s[3]) == n
  {
    var hi, lo := Pad2(n / 100), Pad2(n % 100);
    assert n == 100 * (n / 100) + n % 100;
    hi + lo
  }

  /** The number the two digits `s[i]`, `s[i+1]` spell. */
  function Num2(s: string, i: nat): (n: int)
    requires i + 2 <= |s| && IsDigit(s[i]) && IsDigit(s[i + 1])
    ensures 0 <= n < 100
  {
    10 * DigitValue(s[i]) + DigitValue(s[i + 1])
  }

  /** `%Y-%m-%d`. */
  function FormatDate(dt: DateTime): (s: string)
    ensures |s| == 10 && s[4] == '-' && s[7] == '-'
    ensures IsDigit(s[0]) && IsDigit(s[1]) && IsDigit(s[2]) && IsDigit(s[3])
    ensures IsDigit(s[5]) && IsDigit(s[6]) && IsDigit(s[8]) && IsDigit(s[9])
    ensures 100 * Num2(s, 0) + Num2(s, 2) == dt.year
    ensures Num2(s, 5) == dt.month && Num2(s, 8) == dt.day
  {
    var y, mo, d := Pad4(dt.year), Pad2(dt.month), Pad2(dt.day);
    [y[0], y[1], y[2], y[3], '-', mo[0], mo[1], '-', d[0], d[1]]
  }

  /** `%H:%M:%S`. */
  function FormatTime(dt: DateTime): (s: string)
    ensures |s| == 8 && s[2] == ':' && s[5] == ':'
    ensures IsDigit(s[0]) && IsDigit(s[1]) && IsDigit(s[3]) && IsDigit(s[4])
    ensures IsDigit(s[6]) && IsDigit(s[7])
    ensures Num2(s, 0) == dt.hour && Num2(s, 3) == dt.minute && Num2(s, 6) == dt.second
  {
    var h, mi, sec := Pad2(dt.hour), Pad2(dt.minute), Pad2(dt.second);
    [h[0], h[1], ':', mi[0], mi[1], ':', sec[0], sec[1]]
  }

  /** `dt.strftime('%Y-%m-%d %H:%M:%S')`: nineteen characters, the fields
      zero-padded at fixed places; the microseconds are not shown. */
  function Format(dt: DateTime): (s: string)
    ensures |s| == 19 && s[..10] == FormatDate(dt) && s[10] == ' ' && s[11..] == FormatTime(dt)
  {
    FormatDate(dt) + [' '] + FormatTime(dt)
  }

  /** Rendering keeps everything down to the second and drops the rest: two
      datetimes render alike exactly when they agree on all fields above the
      microseconds. */
  lemma FormatDeterminesSeconds(a: DateTime, b: DateTime)
    ensures Format(a) == Format(b) <==>
      a.year == b.year && a.month == b.month && a.day == b.day
      && a.hour == b.hour && a.minute == b.minute && a.second == b.second
  {
    if Format(a) == Format(b) {
      assert FormatDate(a) == Format(a)[..10] == FormatDate(b);
      assert FormatTime(a) == Format(a)[11..] == FormatTime(b);
    }
  }
}
