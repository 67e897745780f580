/**
 * Python `datetime.datetime` values to the second: the proleptic Gregorian
 * calendar of years 1..9999, comparison, day arithmetic (`- timedelta(days=n)`)
 * and the two fixed text formats the program reads.
 */
module Dates {
  import opened Wrappers
  import opened Text

  datatype DateTime = DateTime(year: int, month: int, day: int, hour: int, minute: int, second: int)

  predicate IsLeapYear(y: int) { y % 4 == 0 && (y % 100 != 0 || y % 400 == 0) }

  /** `calendar.monthrange(y, m)[1]`. */
  function DaysInMonth(y: int, m: int): (n: int)
    requires 1 <= m <= 12
    ensures 28 <= n <= 31
    ensures m == 2 ==> (n == 29 <==> IsLeapYear(y))
  {
    if m == 2 then (if IsLeapYear(y) then 29 else 28)
    else if m == 4 || m == 6 || m == 9 || m == 11 then 30
    else 31
  }

  function DaysInYear(y: int): int { if IsLeapYear(y) then 366 else 365 }

  predicate ValidDate(y: int, m: int, d: int)
  {
    1 <= y <= 9999 && 1 <= m <= 12 && 1 <= d <= DaysInMonth(y, m)
  }

  /** What the `datetime` constructor accepts. */
  predicate Valid(t: DateTime)
  {
    ValidDate(t.year, t.month, t.day) && 0 <= t.hour < 24 && 0 <= t.minute < 60 && 0 <= t.second < 60
  }

  /** Python's `<=` on datetimes: field by field, most significant first. */
  predicate LessEq(a: DateTime, b: DateTime)
  {
    a.year < b.year || (a.year == b.year &&
    (a.month < b.month || (a.month == b.month &&
    (a.day < b.day || (a.day == b.day &&
    (a.hour < b.hour || (a.hour == b.hour &&
    (a.minute < b.minute || (a.minute == b.minute &&
    a.second <= b.second)))))))))
  }

  /** `datetime(t.year, t.month, 1)`. */
  function MonthStart(t: DateTime): DateTime
  {
    DateTime(t.year, t.month, 1, 0, 0, 0)
  }

  // ---- Day numbers (`date.toordinal()`): 0001-01-01 is day 1 ----

  /** Days in the years 1 .. y-1. */
  function DaysBeforeYear(y: int): int
    requires y >= 1
  {
    var p := y - 1;
    365 * p + p / 4 - p / 100 + p / 400
  }

  /** Days in the months before `m` of year `y`. */
  function DaysBeforeMonth(y: int, m: int): int
    requires 1 <= m <= 12
  {
    (if m == 1 then 0 else if m == 2 then 31 else if m == 3 then 59 else if m == 4 then 90
     else if m == 5 then 120 else if m == 6 then 151 else if m == 7 then 181 else if m == 8 then 212
     else if m == 9 then 243 else if m == 10 then 273 else if m == 11 then 304 else 334)
    + (if m > 2 && IsLeapYear(y) then 1 else 0)
  }

  function DayNumber(t: DateTime): int
    requires t.year >= 1 && 1 <= t.month <= 12
  {
    DaysBeforeYear(t.year) + DaysBeforeMonth(t.year, t.month) + t.day
  }

  function TimeOfDay(t: DateTime): int
  {
    t.hour * 3600 + t.minute * 60 + t.second
  }

  /** Seconds since 0001-01-01 00:00:00, plus one day. */
  function Seconds(t: DateTime): int
    requires t.year >= 1 && 1 <= t.month <= 12
  {
    DayNumber(t) * 86400 + TimeOfDay(t)
  }

  lemma DaysBeforeNextYear(y: int)
    requires y >= 1
    ensures DaysBeforeYear(y + 1) == DaysBeforeYear(y) + DaysInYear(y)
  {
    NextQuotient(y, 4);
    NextQuotient(y, 100);
    NextQuotient(y, 400);
    DivisibilityChain(y);
    assert DaysInYear(y) == 365 + (if y % 4 == 0 then 1 else 0) - (if y % 100 == 0 then 1 else 0)
                              + (if y % 400 == 0 then 1 else 0);
  }

  lemma DivisibilityChain(y: int)
    ensures y % 400 == 0 ==> y % 100 == 0
    ensures y % 100 == 0 ==> y % 4 == 0
  {
    CenturyOf400(y);
    LeapOf100(y);
  }

  lemma CenturyOf400(y: int)
    ensures y % 400 == 0 ==> y % 100 == 0
  {
    if y % 400 == 0 {
      var k := 4 * (y / 400);
      assert y == 100 * k;
    }
  }

  lemma LeapOf100(y: int)
    ensures y % 100 == 0 ==> y % 4 == 0
  {
    if y % 100 == 0 {
      var k := 25 * (y / 100);
      assert y == 4 * k;
    }
  }

  /** Going from y - 1 to y adds one to y / k exactly when k divides y. */
  lemma NextQuotient(y: int, k: int)
    requires y >= 1 && (k == 4 || k == 100 || k == 400)
    ensures y / k == (y - 1) / k + (if y % k == 0 then 1 else 0)
  {
    if k == 4 {
      assert y / 4 == (y - 1) / 4 + (if y % 4 == 0 then 1 else 0);
    } else if k == 100 {
      assert y / 100 == (y - 1) / 100 + (if y % 100 == 0 then 1 else 0);
    } else {
      assert y / 400 == (y - 1) / 400 + (if y % 400 == 0 then 1 else 0);
    }
  }

  lemma {:induction false} DaysBeforeYearGrows(y1: int, y2: int)
    requires 1 <= y1 <= y2
    ensures DaysBeforeYear(y1) + 365 * (y2 - y1) <= DaysBeforeYear(y2)
    decreases y2 - y1
  {
    if y1 < y2 {
      DaysBeforeNextYear(y1);
      DaysBeforeYearGrows(y1 + 1, y2);
    }
  }

  lemma MonthFitsInYear(y: int, m: int)
    requires 1 <= m <= 12
    ensures m < 12 ==> DaysBeforeMonth(y, m) + DaysInMonth(y, m) == DaysBeforeMonth(y, m + 1)
    ensures DaysBeforeMonth(y, m) + DaysInMonth(y, m) <= DaysInYear(y)
    ensures m > 1 ==> DaysBeforeMonth(y, m) >= 31
  {
  }

  lemma {:induction false} DaysBeforeMonthGrows(y: int, m1: int, m2: int)
    requires 1 <= m1 < m2 <= 12
    ensures DaysBeforeMonth(y, m1) + DaysInMonth(y, m1) <= DaysBeforeMonth(y, m2)
    decreases m2 - m1
  {
    MonthFitsInYear(y, m1);
    if m1 + 1 < m2 {
      MonthFitsInYear(y, m1 + 1);
      DaysBeforeMonthGrows(y, m1 + 1, m2);
    }
  }

  /** Day numbers follow calendar order: an earlier date has a smaller day number. */
  lemma DayNumberFollowsCalendar(a: DateTime, b: DateTime)
    requires ValidDate(a.year, a.month, a.day) && ValidDate(b.year, b.month, b.day)
    ensures DayNumber(a) >= 1
    ensures DayNumber(a) < DayNumber(b) <==>
      (a.year < b.year || (a.year == b.year && (a.month < b.month || (a.month == b.month && a.day < b.day))))
    ensures DayNumber(a) == DayNumber(b) <==> (a.year == b.year && a.month == b.month && a.day == b.day)
  {
    DaysBeforeYearGrows(1, a.year);
    if a.year < b.year || (a.year == b.year && (a.month < b.month || (a.month == b.month && a.day < b.day))) {
      EarlierDate(a, b);
    } else if b.year < a.year || (a.year == b.year && (b.month < a.month || (a.month == b.month && b.day < a.day))) {
      EarlierDate(b, a);
    }
  }

  lemma EarlierDate(a: DateTime, b: DateTime)
    requires ValidDate(a.year, a.month, a.day) && ValidDate(b.year, b.month, b.day)
    requires a.year < b.year || (a.year == b.year && (a.month < b.month || (a.month == b.month && a.day < b.day)))
    ensures DayNumber(a) < DayNumber(b)
  {
    MonthFitsInYear(a.year, a.month);
    if a.year < b.year {
      DaysBeforeNextYear(a.year);
      DaysBeforeYearGrows(a.year + 1, b.year);
    } else if a.month < b.month {
      DaysBeforeMonthGrows(a.year, a.month, b.month);
    }
  }

  /** Python's datetime comparison is the comparison of elapsed seconds. */
  lemma LessEqIsSecondsOrder(a: DateTime, b: DateTime)
    requires Valid(a) && Valid(b)
    ensures LessEq(a, b) <==> Seconds(a) <= Seconds(b)
  {
    DayNumberFollowsCalendar(a, b);
    DayNumberFollowsCalendar(b, a);
  }

  // ---- `datetime - timedelta(days=n)` ----

  /** The same time of day one calendar day earlier; None below 0001-01-01. */
  function PrevDay(t: DateTime): (r: Option<DateTime>)
    requires Valid(t)
    ensures r.None? <==> DayNumber(t) == 1
    ensures r.Some? ==> Valid(r.value) && DayNumber(r.value) == DayNumber(t) - 1
    ensures r.Some? ==> TimeOfDay(r.value) == TimeOfDay(t) && r.value.hour == t.hour
  {
    MonthFitsInYear(t.year, t.month);
    if t.day > 1 then Some(t.(day := t.day - 1))
    else if t.month > 1 then
      MonthFitsInYear(t.year, t.month - 1);
      Some(t.(month := t.month - 1, day := DaysInMonth(t.year, t.month - 1)))
    else if t.year > 1 then
      DaysBeforeNextYear(t.year - 1);
      MonthFitsInYear(t.year - 1, 12);
      DaysBeforeYearGrows(1, t.year - 1);
      Some(t.(year := t.year - 1, month := 12, day := 31))
    else None
  }

  /**
   * `t - timedelta(days=n)`: `n` whole days earlier at the same time of day,
   * or None where Python raises OverflowError (before 0001-01-01).
   */
  function MinusDays(t: DateTime, n: nat): (r: Option<DateTime>)
    requires Valid(t)
    ensures r.None? <==> DayNumber(t) <= n
    ensures r.Some? ==> Valid(r.value) && TimeOfDay(r.value) == TimeOfDay(t)
    ensures r.Some? ==> Seconds(r.value) == Seconds(t) - n * 86400
    decreases n
  {
    DayNumberFollowsCalendar(t, t);
    if n == 0 then Some(t)
    else
      match PrevDay(t)
      case None => None
      case Some(p) => MinusDays(p, n - 1)
  }

  // ---- Text formats ----

  /** "DD.MM.YYYY HH:MM:SS", the format of the operation-date column. */
  function FormatOperationDate(t: DateTime): (s: string)
    requires Valid(t)
    ensures |s| == 19
  {
    PadNat(t.day, 2) + "." + PadNat(t.month, 2) + "." + PadNat(t.year, 4) + " "
    + PadNat(t.hour, 2) + ":" + PadNat(t.minute, 2) + ":" + PadNat(t.second, 2)
  }

  predicate DigitsAt(s: string, i: int, j: int)
  {
    0 <= i <= j <= |s| && AllDigits(s[i..j])
  }

  function FieldAt(s: string, i: int, j: int): nat
    requires DigitsAt(s, i, j)
  {
    ParseNat(s[i..j])
  }

  predicate OperationDateShape(s: string)
  {
    |s| == 19 && s[2] == '.' && s[5] == '.' && s[10] == ' ' && s[13] == ':' && s[16] == ':'
    && DigitsAt(s, 0, 2) && DigitsAt(s, 3, 5) && DigitsAt(s, 6, 10)
    && DigitsAt(s, 11, 13) && DigitsAt(s, 14, 16) && DigitsAt(s, 17, 19)
  }

  /**
   * `datetime.strptime(s, "%d.%m.%Y %H:%M:%S")` with two-digit fields:
   * None where Python raises ValueError (wrong shape or no such date or time).
   */
  function ParseOperationDate(s: string): (r: Option<DateTime>)
    ensures r.Some? ==> Valid(r.value)
  {
    if OperationDateShape(s) then
      var t := DateTime(FieldAt(s, 6, 10), FieldAt(s, 3, 5), FieldAt(s, 0, 2),
                        FieldAt(s, 11, 13), FieldAt(s, 14, 16), FieldAt(s, 17, 19));
      if Valid(t) then Some(t) else None
    else None
  }

  lemma ParseFormatOperationDate(t: DateTime)
    requires Valid(t)
    ensures ParseOperationDate(FormatOperationDate(t)) == Some(t)
  {
    var s := FormatOperationDate(t);
    assert s[0..2] == PadNat(t.day, 2);
    assert s[3..5] == PadNat(t.month, 2);
    assert s[6..10] == PadNat(t.year, 4);
    assert s[11..13] == PadNat(t.hour, 2);
    assert s[14..16] == PadNat(t.minute, 2);
    assert s[17..19] == PadNat(t.second, 2);
    ParsePadNat(t.day, 2);
    ParsePadNat(t.month, 2);
    ParsePadNat(t.year, 4);
    ParsePadNat(t.hour, 2);
    ParsePadNat(t.minute, 2);
    ParsePadNat(t.second, 2);
  }

  lemma FormatParseOperationDate(s: string)
    requires ParseOperationDate(s).Some?
    ensures FormatOperationDate(ParseOperationDate(s).value) == s
  {
    PadParseNat(s[0..2]);
    PadParseNat(s[3..5]);
    PadParseNat(s[6..10]);
    PadParseNat(s[11..13]);
    PadParseNat(s[14..16]);
    PadParseNat(s[17..19]);
    assert s == s[0..2] + "." + s[3..5] + "." + s[6..10] + " " + s[11..13] + ":" + s[14..16] + ":" + s[17..19];
  }

  /** "YYYY-MM-DD HH:MM:SS". */
  function FormatIsoDateTime(t: DateTime): (s: string)
    requires Valid(t)
    ensures |s| == 19
  {
    PadNat(t.year, 4) + "-" + PadNat(t.month, 2) + "-" + PadNat(t.day, 2) + " "
    + PadNat(t.hour, 2) + ":" + PadNat(t.minute, 2) + ":" + PadNat(t.second, 2)
  }

  /** "YYYY-MM-DD". */
  function FormatIsoDate(t: DateTime): (s: string)
    requires Valid(t)
    ensures |s| == 10
  {
    PadNat(t.year, 4) + "-" + PadNat(t.month, 2) + "-" + PadNat(t.day, 2)
  }

  predicate IsoDateShape(s: string)
  {
    |s| >= 10 && s[4] == '-' && s[7] == '-' && DigitsAt(s, 0, 4) && DigitsAt(s, 5, 7) && DigitsAt(s, 8, 10)
  }

  predicate IsoDateTimeShape(s: string)
  {
    |s| == 19 && IsoDateShape(s) && s[10] == ' ' && s[13] == ':' && s[16] == ':'
    && DigitsAt(s, 11, 13) && DigitsAt(s, 14, 16) && DigitsAt(s, 17, 19)
  }

  /**
   * A report date given as "YYYY-MM-DD" (midnight) or "YYYY-MM-DD HH:MM:SS";
   * None for any other text or a date that does not exist.
   */
  function ParseIsoDate(s: string): (r: Option<DateTime>)
    ensures r.Some? ==> Valid(r.value)
    ensures r.Some? && |s| == 10 ==> TimeOfDay(r.value) == 0
  {
    var t :=
      if |s| == 10 && IsoDateShape(s) then
        Some(DateTime(FieldAt(s, 0, 4), FieldAt(s, 5, 7), FieldAt(s, 8, 10), 0, 0, 0))
      else if IsoDateTimeShape(s) then
        Some(DateTime(FieldAt(s, 0, 4), FieldAt(s, 5, 7), FieldAt(s, 8, 10),
                      FieldAt(s, 11, 13), FieldAt(s, 14, 16), FieldAt(s, 17, 19)))
      else None;
    if t.Some? && Valid(t.value) then t else None
  }

  lemma ParseFormatIsoDateTime(t: DateTime)
    requires Valid(t)
    ensures ParseIsoDate(FormatIsoDateTime(t)) == Some(t)
  {
    var s := FormatIsoDateTime(t);
    assert s[0..4] == PadNat(t.year, 4);
    assert s[5..7] == PadNat(t.month, 2);
    assert s[8..10] == PadNat(t.day, 2);
    assert s[11..13] == PadNat(t.hour, 2);
    assert s[14..16] == PadNat(t.minute, 2);
    assert s[17..19] == PadNat(t.second, 2);
    ParsePadNat(t.year, 4);
    ParsePadNat(t.month, 2);
    ParsePadNat(t.day, 2);
    ParsePadNat(t.hour, 2);
    ParsePadNat(t.minute, 2);
    ParsePadNat(t.second, 2);
  }

  /** A text that parses is its datetime written back in the short or the long form. */
  lemma FormatParseIsoDate(s: string)
    requires ParseIsoDate(s).Some?
    ensures |s| == 10 ==> s == FormatIsoDate(ParseIsoDate(s).value)
    ensures |s| != 10 ==> s == FormatIsoDateTime(ParseIsoDate(s).value)
  {
    if |s| == 10 {
      ShortIsoWrittenBack(s, ParseIsoDate(s).value);
    } else {
      LongIsoWrittenBack(s, ParseIsoDate(s).value);
    }
  }

  lemma ShortIsoWrittenBack(s: string, t: DateTime)
    requires |s| == 10 && IsoDateShape(s) && Valid(t)
    requires t.year == FieldAt(s, 0, 4) && t.month == FieldAt(s, 5, 7) && t.day == FieldAt(s, 8, 10)
    ensures s == FormatIsoDate(t)
  {
    PadParseNat(s[0..4]);
    PadParseNat(s[5..7]);
    PadParseNat(s[8..10]);
    assert s == s[0..4] + "-" + s[5..7] + "-" + s[8..10];
  }

  lemma LongIsoWrittenBack(s: string, t: DateTime)
    requires IsoDateTimeShape(s) && Valid(t)
    requires t.year == FieldAt(s, 0, 4) && t.month == FieldAt(s, 5, 7) && t.day == FieldAt(s, 8, 10)
    requires t.hour == FieldAt(s, 11, 13) && t.minute == FieldAt(s, 14, 16) && t.second == FieldAt(s, 17, 19)
    ensures s == FormatIsoDateTime(t)
  {
    PadParseNat(s[0..4]);
    PadParseNat(s[5..7]);
    PadParseNat(s[8..10]);
    PadParseNat(s[11..13]);
    PadParseNat(s[14..16]);
    PadParseNat(s[17..19]);
    assert s == s[0..4] + "-" + s[5..7] + "-" + s[8..10] + " " + s[11..13] + ":" + s[14..16] + ":" + s[17..19];
  }

  lemma ParseFormatIsoDate(t: DateTime)
    requires Valid(t)
    ensures ParseIsoDate(FormatIsoDate(t)) == Some(t.(hour := 0, minute := 0, second := 0))
  {
    var s := FormatIsoDate(t);
    assert s[0..4] == PadNat(t.year, 4);
    assert s[5..7] == PadNat(t.month, 2);
    assert s[8..10] == PadNat(t.day, 2);
    ParsePadNat(t.year, 4);
    ParsePadNat(t.month, 2);
    ParsePadNat(t.day, 2);
  }
}
