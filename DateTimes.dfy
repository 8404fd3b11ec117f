/**
  Calendar date-times as Python's `datetime` holds them, and the zero-padded
  text forms the organizer produces: `strftime("%Y-%m-%d")` for folder names
  and the `%Y:%m:%d %H:%M:%S` form the metadata tool is asked to print.
*/
module DateTimes {

  import opened Chars

  datatype DateTime = DateTime(year: int, month: int, day: int, hour: int, minute: int, second: int)

  /** Gregorian leap years, as in Python's `calendar.isleap`. */
  predicate IsLeapYear(y: int) {
    y % 4 == 0 && (y % 100 != 0 || y % 400 == 0)
  }

  function DaysInMonth(y: int, m: int): (n: int)
    requires 1 <= m <= 12
    ensures 28 <= n <= 31
    ensures n == 29 <==> m == 2 && IsLeapYear(y)
  {
    if m == 2 then (if IsLeapYear(y) then 29 else 28)
    else if m == 4 || m == 6 || m == 9 || m == 11 then 30
    else 31
  }

  /** The values Python's `datetime` constructor accepts (MINYEAR 1, MAXYEAR 9999). */
  predicate Valid(dt: DateTime) {
    && 1 <= dt.year <= 9999
    && 1 <= dt.month <= 12
    && 1 <= dt.day <= DaysInMonth(dt.year, dt.month)
    && 0 <= dt.hour <= 23
    && 0 <= dt.minute <= 59
    && 0 <= dt.second <= 59
  }

  /** The leap-year rule with its century exceptions, and the ranges of every field. */
  lemma ValidInstances()
    ensures Valid(DateTime(2024, 2, 29, 0, 0, 0)) && Valid(DateTime(2000, 2, 29, 23, 59, 59))
    ensures !Valid(DateTime(2023, 2, 29, 0, 0, 0)) && !Valid(DateTime(1900, 2, 29, 0, 0, 0))
    ensures !Valid(DateTime(2023, 4, 31, 0, 0, 0)) && Valid(DateTime(2023, 12, 31, 0, 0, 0))
    ensures !Valid(DateTime(0, 1, 1, 0, 0, 0)) && Valid(DateTime(9999, 12, 31, 0, 0, 0))
    ensures !Valid(DateTime(2023, 1, 1, 24, 0, 0)) && !Valid(DateTime(2023, 1, 1, 0, 60, 0))
    ensures !Valid(DateTime(2023, 1, 1, 0, 0, 60)) && !Valid(DateTime(2023, 13, 1, 0, 0, 0))
  {
  }

  /** Same calendar day, whatever the time of day. */
  predicate SameDay(a: DateTime, b: DateTime) {
    a.year == b.year && a.month == b.month && a.day == b.day
  }

  /** Two zero-padded decimal digits (`%m`, `%d`, `%H`, `%M`, `%S`). */
  function Pad2(n: int): (r: string)
    requires 0 <= n <= 99
    ensures |r| == 2 && IsDigit(r[0]) && IsDigit(r[1])
    ensures 10 * DigitValue(r[0]) + DigitValue(r[1]) == n
  {
    [DigitChar(n / 10), DigitChar(n % 10)]
  }

  /** Four zero-padded decimal digits (`%Y`). */
  function Pad4(n: int): (r: string)
    requires 0 <= n <= 9999
    ensures |r| == 4 && IsDigit(r[0]) && IsDigit(r[1]) && IsDigit(r[2]) && IsDigit(r[3])
    ensures 1000 * DigitValue(r[0]) + 100 * DigitValue(r[1]) + 10 * DigitValue(r[2]) + DigitValue(r[3]) == n
  {
    var hi, lo := n / 100, n % 100;
    assert n == 100 * hi + lo;
    [DigitChar(hi / 10), DigitChar(hi % 10), DigitChar(lo / 10), DigitChar(lo % 10)]
  }

  /** `%Y` is the two-digit spellings of its hundreds and of the rest, side by side. */
  lemma Pad4Halves(hi: int, lo: int)
    requires 0 <= hi <= 99 && 0 <= lo <= 99
    ensures Pad4(100 * hi + lo) == Pad2(hi) + Pad2(lo)
  {
    var n := 100 * hi + lo;
    assert n / 100 == hi && n % 100 == lo;
  }

  lemma Pad2Injective(a: int, b: int)
    requires 0 <= a <= 99 && 0 <= b <= 99
    ensures Pad2(a) == Pad2(b) <==> a == b
  {
    if Pad2(a) == Pad2(b) {
      assert Pad2(a)[0] == Pad2(b)[0] && Pad2(a)[1] == Pad2(b)[1];
    }
  }

  lemma Pad4Injective(a: int, b: int)
    requires 0 <= a <= 9999 && 0 <= b <= 9999
    ensures Pad4(a) == Pad4(b) <==> a == b
  {
    if Pad4(a) == Pad4(b) {
      assert Pad4(a)[0] == Pad4(b)[0] && Pad4(a)[1] == Pad4(b)[1];
      assert Pad4(a)[2] == Pad4(b)[2] && Pad4(a)[3] == Pad4(b)[3];
    }
  }

  // ---------------------------------------------------------- folder names

  /** The shape `DDDD-DD-DD` of every folder name the organizer creates. */
  predicate IsDateShaped(s: string) {
    && |s| == 10
    && IsDigit(s[0]) && IsDigit(s[1]) && IsDigit(s[2]) && IsDigit(s[3])
    && s[4] == '-'
    && IsDigit(s[5]) && IsDigit(s[6])
    && s[7] == '-'
    && IsDigit(s[8]) && IsDigit(s[9])
  }

  /** `date_taken.strftime("%Y-%m-%d")`: the date part only, zero-padded. */
  function FormatDate(dt: DateTime): (r: string)
    requires Valid(dt)
    ensures |r| == 10 && IsDateShaped(r)
  {
    Pad4(dt.year) + "-" + Pad2(dt.month) + "-" + Pad2(dt.day)
  }

  /** Reading the folder name's digits back gives the year, then the month, then the day. */
  lemma FormatDateReadsBack(dt: DateTime)
    requires Valid(dt)
    ensures var r := FormatDate(dt);
      && 1000 * DigitValue(r[0]) + 100 * DigitValue(r[1]) + 10 * DigitValue(r[2]) + DigitValue(r[3]) == dt.year
      && 10 * DigitValue(r[5]) + DigitValue(r[6]) == dt.month
      && 10 * DigitValue(r[8]) + DigitValue(r[9]) == dt.day
  {
    var r := FormatDate(dt);
    assert r[0..4] == Pad4(dt.year) && r[5..7] == Pad2(dt.month) && r[8..10] == Pad2(dt.day);
  }

  /** A photo taken on 14 May 2023 at 10:22 goes into the folder `2023-05-14`. */
  lemma FormatDateExample()
    ensures FormatDate(DateTime(2023, 5, 14, 10, 22, 0)) == "2023-05-14"
  {
  }

  /** Two date-times share a folder name exactly when they fall on the same day. */
  lemma FormatDateSameDay(a: DateTime, b: DateTime)
    requires Valid(a) && Valid(b)
    ensures FormatDate(a) == FormatDate(b) <==> SameDay(a, b)
  {
    var fa, fb := FormatDate(a), FormatDate(b);
    if fa == fb {
      assert fa[0..4] == Pad4(a.year) && fb[0..4] == Pad4(b.year);
      assert fa[5..7] == Pad2(a.month) && fb[5..7] == Pad2(b.month);
      assert fa[8..10] == Pad2(a.day) && fb[8..10] == Pad2(b.day);
      Pad4Injective(a.year, b.year);
      Pad2Injective(a.month, b.month);
      Pad2Injective(a.day, b.day);
    }
  }
}
