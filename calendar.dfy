/** UTC calendar arithmetic on integer Unix seconds: the part of PHP's `DateTimeImmutable`
    that the application relies on (proleptic Gregorian calendar, timezone fixed to UTC),
    and the `format` codes it uses: 'Y-m-d', 'H:i', 'M-d H:i' and 'Y-m-d H:i:s'. */
module Calendar {
  import opened Strings
  import opened Digits

  const SecondsPerDay: int := 86400
  const EpochYear: int := 1970

  datatype Date = Date(year: int, month: int, day: int)

  predicate IsLeap(y: int) {
    (y % 4 == 0 && y % 100 != 0) || y % 400 == 0
  }

  function DaysInYear(y: int): int {
    if IsLeap(y) then 366 else 365
  }

  function DaysInMonth(y: int, m: int): int
    requires 1 <= m <= 12
  {
    if m == 2 then (if IsLeap(y) then 29 else 28)
    else if m == 4 || m == 6 || m == 9 || m == 11 then 30
    else 31
  }

  /** Days in the months of year y before month m. */
  function DaysBeforeMonth(y: int, m: int): int
    requires 1 <= m <= 12
  {
    [0, 31, 59, 90, 120, 151, 181, 212, 243, 273, 304, 334][m - 1]
      + (if m > 2 && IsLeap(y) then 1 else 0)
  }

  lemma DaysBeforeMonthStep(y: int, m: int)
    requires 1 <= m < 12
    ensures DaysBeforeMonth(y, m + 1) == DaysBeforeMonth(y, m) + DaysInMonth(y, m)
  {
  }

  lemma DaysBeforeMonthFits(y: int, m: int)
    requires 1 <= m <= 12
    ensures DaysBeforeMonth(y, m) + DaysInMonth(y, m) <= DaysInYear(y)
  {
  }

  /** Days from 1970-01-01 to 1 January of year y (negative before 1970). */
  function DaysBeforeYear(y: int): int
    decreases if y >= EpochYear then y - EpochYear else EpochYear - y
  {
    if y == EpochYear then 0
    else if y > EpochYear then DaysBeforeYear(y - 1) + DaysInYear(y - 1)
    else DaysBeforeYear(y + 1) - DaysInYear(y)
  }

  predicate ValidDate(d: Date) {
    1 <= d.month <= 12 && 1 <= d.day <= DaysInMonth(d.year, d.month)
  }

  /** Day number (days since 1970-01-01) of a calendar date. */
  function DaysFromCivil(d: Date): int
    requires 1 <= d.month <= 12
  {
    DaysBeforeYear(d.year) + DaysBeforeMonth(d.year, d.month) + d.day - 1
  }

  /** The year holding day `off` of the count that starts on 1 January of `y`,
      and the day's offset inside that year. */
  function YearFrom(off: int, y: int): (r: (int, int))
    ensures 0 <= r.1 < DaysInYear(r.0)
    decreases if off < 0 then 400 - off else off
  {
    if off < 0 then YearFrom(off + DaysInYear(y - 1), y - 1)
    else if off >= DaysInYear(y) then YearFrom(off - DaysInYear(y), y + 1)
    else (y, off)
  }

  /** The month of year y holding day `off` of the count that starts on the first of month m. */
  function MonthFrom(off: int, y: int, m: int): (r: (int, int))
    requires 1 <= m <= 12 && 0 <= off && DaysBeforeMonth(y, m) + off < DaysInYear(y)
    ensures 1 <= r.0 <= 12 && 0 <= r.1 < DaysInMonth(y, r.0)
    decreases 12 - m
  {
    if off < DaysInMonth(y, m) then (m, off)
    else
      DaysBeforeMonthStep(y, m);
      MonthFrom(off - DaysInMonth(y, m), y, m + 1)
  }

  /** The calendar date of a day number. */
  function CivilFromDays(n: int): (d: Date)
    ensures ValidDate(d)
  {
    var (y, off) := YearFrom(n, EpochYear);
    var (m, dayOff) := MonthFrom(off, y, 1);
    Date(y, m, dayOff + 1)
  }

  lemma {:induction false} YearShift(off: int, y: int)
    ensures YearFrom(off, y) == YearFrom(off - DaysInYear(y), y + 1)
  {
  }

  lemma {:induction false} YearFromEpoch(y: int, off: int)
    ensures YearFrom(DaysBeforeYear(y) + off, EpochYear) == YearFrom(off, y)
    decreases if y >= EpochYear then y - EpochYear else EpochYear - y
  {
    if y > EpochYear {
      YearFromEpoch(y - 1, DaysInYear(y - 1) + off);
      YearShift(DaysInYear(y - 1) + off, y - 1);
    } else if y < EpochYear {
      YearFromEpoch(y + 1, off - DaysInYear(y));
      YearShift(off, y);
    }
  }

  lemma {:induction false} MonthFromAt(y: int, k: int, m: int, dayOff: int)
    requires 1 <= k <= m <= 12 && 0 <= dayOff < DaysInMonth(y, m)
    ensures DaysBeforeMonth(y, k) + (DaysBeforeMonth(y, m) - DaysBeforeMonth(y, k) + dayOff) < DaysInYear(y)
    ensures MonthFrom(DaysBeforeMonth(y, m) - DaysBeforeMonth(y, k) + dayOff, y, k) == (m, dayOff)
    decreases m - k
  {
    DaysBeforeMonthFits(y, m);
    if k < m {
      DaysBeforeMonthStep(y, k);
      MonthsBeforeGrow(y, k + 1, m);
      MonthFromAt(y, k + 1, m, dayOff);
    }
  }

  lemma {:induction false} MonthsBeforeGrow(y: int, k: int, m: int)
    requires 1 <= k <= m <= 12
    ensures DaysBeforeMonth(y, k) <= DaysBeforeMonth(y, m)
    decreases m - k
  {
    if k < m {
      DaysBeforeMonthStep(y, k);
      MonthsBeforeGrow(y, k + 1, m);
    }
  }

  /** Day numbers and calendar dates are inverse: a valid date survives the round trip. */
  lemma CivilRoundTrip(d: Date)
    requires ValidDate(d)
    ensures CivilFromDays(DaysFromCivil(d)) == d
  {
    var off := DaysBeforeMonth(d.year, d.month) + d.day - 1;
    DaysBeforeMonthFits(d.year, d.month);
    YearFromEpoch(d.year, off);
    MonthFromAt(d.year, 1, d.month, d.day - 1);
  }

  // ---- time of day -------------------------------------------------------------

  /** The calendar date of a Unix timestamp (floor division: 1969-12-31 for -1). */
  function DateOf(t: int): Date {
    CivilFromDays(t / SecondsPerDay)
  }

  /** 00:00:00 of the day holding t: what `setTime(0, 0, 0)` yields. */
  function StartOfDay(t: int): (r: int)
    ensures r <= t < r + SecondsPerDay && r % SecondsPerDay == 0
    ensures DateOf(r) == DateOf(t)
  {
    t - t % SecondsPerDay
  }

  /** 23:59:59 of the day holding t: what `setTime(23, 59, 59)` yields. */
  function EndOfDay(t: int): (r: int)
    ensures r == StartOfDay(t) + SecondsPerDay - 1
    ensures DateOf(r) == DateOf(t)
  {
    StartOfDay(t) + 86399
  }

  function Hour(t: int): (h: int)
    ensures 0 <= h < 24
  {
    (t % SecondsPerDay) / 3600
  }

  function Minute(t: int): (m: int)
    ensures 0 <= m < 60
  {
    (t % 3600) / 60
  }

  function Second(t: int): (s: int)
    ensures 0 <= s < 60
  {
    t % 60
  }

  // ---- format codes ------------------------------------------------------------

  /** 'Y': at least four digits, with a leading '-' before year 0. */
  function FormatYear(y: int): string {
    var a := if y < 0 then -y else y;
    (if y < 0 then "-" else "") + (if a < 10000 then FixedDigits(a, 4) else DecimalDigits(a))
  }

  function MonthAbbrev(m: int): (r: string)
    requires 1 <= m <= 12
    ensures |r| == 3
  {
    ["Jan", "Feb", "Mar", "Apr", "May", "Jun", "Jul", "Aug", "Sep", "Oct", "Nov", "Dec"][m - 1]
  }

  /** `format('Y-m-d')` */
  function FormatYmd(t: int): string {
    var d := DateOf(t);
    FormatYear(d.year) + "-" + FixedDigits(d.month, 2) + "-" + FixedDigits(d.day, 2)
  }

  /** `format('H:i')` */
  function FormatHi(t: int): (r: string)
    ensures |r| == 5 && r[2] == ':'
  {
    FixedDigits(Hour(t), 2) + ":" + FixedDigits(Minute(t), 2)
  }

  /** `format('M-d H:i')` */
  function FormatMdHi(t: int): (r: string)
    ensures |r| == 12 && r[3] == '-' && r[6] == ' ' && r[9] == ':'
  {
    var d := DateOf(t);
    MonthAbbrev(d.month) + "-" + FixedDigits(d.day, 2) + " " + FormatHi(t)
  }

  /** The 'H:i' text carries the hour before the colon and the minute after it. */
  lemma FormatHiFields(t: int)
    ensures var r := FormatHi(t);
      ParseDigits(r[..2]) == Hour(t) && ParseDigits(r[3..]) == Minute(t)
  {
    var r, h, m := FormatHi(t), FixedDigits(Hour(t), 2), FixedDigits(Minute(t), 2);
    assert r[..2] == h && r[3..] == m;
    ParseFixedDigits(Hour(t), 2);
    ParseFixedDigits(Minute(t), 2);
  }

  /** The 'M-d H:i' text carries the month's abbreviation, the day of the month and then the
      'H:i' text. */
  lemma FormatMdHiFields(t: int)
    ensures var r, d := FormatMdHi(t), DateOf(t);
      1 <= d.month <= 12 && r[..3] == MonthAbbrev(d.month)
      && ParseDigits(r[4..6]) == d.day && r[7..] == FormatHi(t)
  {
    var r, d := FormatMdHi(t), DateOf(t);
    var dd := FixedDigits(d.day, 2);
    assert r[..3] == MonthAbbrev(d.month) && r[4..6] == dd && r[7..] == FormatHi(t);
    ParseFixedDigits(d.day, 2);
  }

  /** `format('Y-m-d H:i:s')` */
  function FormatYmdHis(t: int): string {
    FormatYmd(t) + " " + FormatHi(t) + ":" + FixedDigits(Second(t), 2)
  }

  // ---- the 'YYYY-MM-DD' shape --------------------------------------------------

  /** The text matches /^\d{4}-\d{2}-\d{2}$/. */
  predicate IsDateShape(s: string) {
    |s| == 10 && s[4] == '-' && s[7] == '-'
    && AllDigits(s[..4]) && AllDigits(s[5..7]) && AllDigits(s[8..])
  }

  /** The year, month and day fields of a date-shaped text, as numbers. */
  function DateFields(s: string): (d: Date)
    requires IsDateShape(s)
    ensures d.year >= 0 && d.month >= 0 && d.day >= 0
  {
    Date(ParseDigits(s[..4]), ParseDigits(s[5..7]), ParseDigits(s[8..]))
  }

  /** Unix seconds of 00:00:00 UTC on a valid date. */
  function MidnightOf(d: Date): (t: int)
    requires ValidDate(d)
    ensures DateOf(t) == d && StartOfDay(t) == t
  {
    CivilRoundTrip(d);
    DaysFromCivil(d) * SecondsPerDay
  }

  /** A valid date-shaped text with a four-digit year comes back unchanged from 'Y-m-d'. */
  lemma FormatParsedDate(s: string)
    requires IsDateShape(s) && ValidDate(DateFields(s))
    ensures FormatYmd(MidnightOf(DateFields(s))) == s
  {
    var d := DateFields(s);
    var t := MidnightOf(d);
    var y, m, dd := s[..4], s[5..7], s[8..];
    FormatOfDate(t, d);
    FormatYearOfParse(y);
    FixedDigitsOfParse(m);
    FixedDigitsOfParse(dd);
    DateShapeSplit(s);
  }

  lemma DateShapeSplit(s: string)
    requires IsDateShape(s)
    ensures s == s[..4] + "-" + s[5..7] + "-" + s[8..]
  {
  }

  lemma FormatOfDate(t: int, d: Date)
    requires DateOf(t) == d
    ensures FormatYmd(t) == FormatYear(d.year) + "-" + FixedDigits(d.month, 2) + "-" + FixedDigits(d.day, 2)
  {
  }

  lemma FormatYearOfParse(y: string)
    requires |y| == 4 && AllDigits(y)
    ensures FormatYear(ParseDigits(y)) == y
  {
    ParseDigitsBound(y);
    FixedDigitsOfParse(y);
  }
}
