/**
 * The date helpers of `src/utils.js`. A calendar date is a day number
 * counted from Monday 1 January of year -399 in the proleptic Gregorian
 * calendar (400 years, a whole number of weeks, before 1 January of year 1,
 * itself a Monday); `getDate`, `getMonth`, `getFullYear` and `getDay` are
 * functions of that number.
 */
module Dates {
  import opened Wrappers
  import opened Text

  const EpochYear: int := -399

  /** A calendar date as a count of days since the epoch. */
  type Day = nat

  predicate IsLeap(y: int) {
    (y % 4 == 0 && y % 100 != 0) || y % 400 == 0
  }

  function YearLength(y: int): nat {
    if IsLeap(y) then 366 else 365
  }

  function MonthLength(y: int, m: int): nat
    requires 1 <= m <= 12
  {
    if m == 2 then (if IsLeap(y) then 29 else 28)
    else if m == 4 || m == 6 || m == 9 || m == 11 then 30
    else 31
  }

  /** Days of a common year before the first of each month (index m - 1), and the year's length. */
  const CommonDaysBefore: seq<nat> := [0, 31, 59, 90, 120, 151, 181, 212, 243, 273, 304, 334, 365]

  /** Days of year y before the first of month m; m = 13 gives the length of the year. */
  function DaysBeforeMonth(y: int, m: int): nat
    requires 1 <= m <= 13
  {
    CommonDaysBefore[m - 1] + (if m > 2 && IsLeap(y) then 1 else 0)
  }

  lemma DaysBeforeMonthStep(y: int, m: int)
    requires 1 <= m <= 12
    ensures DaysBeforeMonth(y, m + 1) == DaysBeforeMonth(y, m) + MonthLength(y, m)
    ensures DaysBeforeMonth(y, 13) == YearLength(y)
  {
  }

  lemma {:induction false} DaysBeforeMonthMono(y: int, a: int, b: int)
    requires 1 <= a <= b <= 13
    ensures DaysBeforeMonth(y, a) <= DaysBeforeMonth(y, b)
  {
    if a < b {
      DaysBeforeMonthMono(y, a, b - 1);
      DaysBeforeMonthStep(y, b - 1);
    }
  }

  /** Days from the epoch to 1 January of year y. */
  function DaysBeforeYear(y: int): nat
    requires y >= EpochYear
    decreases y - EpochYear
  {
    if y == EpochYear then 0 else DaysBeforeYear(y - 1) + YearLength(y - 1)
  }

  lemma {:induction false} DaysBeforeYearMono(a: int, b: int)
    requires EpochYear <= a < b
    ensures DaysBeforeYear(a) + YearLength(a) <= DaysBeforeYear(b)
    decreases b - a
  {
    if a < b - 1 {
      DaysBeforeYearMono(a, b - 1);
    }
  }

  datatype Date = Date(year: int, month: int, day: int)

  predicate ValidDate(d: Date) {
    d.year >= EpochYear && 1 <= d.month <= 12 && 1 <= d.day <= MonthLength(d.year, d.month)
  }

  /** The day number of a calendar date. */
  function DayNumber(d: Date): Day
    requires ValidDate(d)
  {
    DaysBeforeYear(d.year) + DaysBeforeMonth(d.year, d.month) + d.day - 1
  }

  /** The year holding the day `n` days after 1 January of `y`, and the day's index in it. */
  function YearSplit(y: int, n: nat): (r: (int, nat))
    requires y >= EpochYear
    ensures r.0 >= y && r.1 < YearLength(r.0)
    ensures DaysBeforeYear(r.0) + r.1 == DaysBeforeYear(y) + n
    decreases n
  {
    if n < YearLength(y) then (y, n) else YearSplit(y + 1, n - YearLength(y))
  }

  /** The month, from `m` on, holding day index `r` of year `y`. */
  function MonthFrom(y: int, m: int, r: nat): (month: int)
    requires 1 <= m <= 12 && DaysBeforeMonth(y, m) <= r < YearLength(y)
    ensures m <= month <= 12
    ensures DaysBeforeMonth(y, month) <= r < DaysBeforeMonth(y, month + 1)
    decreases 12 - m
  {
    DaysBeforeMonthStep(y, m);
    if m == 12 || r < DaysBeforeMonth(y, m + 1) then m else MonthFrom(y, m + 1, r)
  }

  /** The calendar date of a day number: `getFullYear`, `getMonth() + 1` and `getDate`. */
  function CivilOf(n: Day): (d: Date)
    ensures ValidDate(d) && DayNumber(d) == n
  {
    var (y, r) := YearSplit(EpochYear, n);
    DaysBeforeMonthStep(y, 1);
    var m := MonthFrom(y, 1, r);
    DaysBeforeMonthStep(y, m);
    Date(y, m, r - DaysBeforeMonth(y, m) + 1)
  }

  /** Two valid dates with the same day number are the same date. */
  lemma DayNumberInjective(a: Date, b: Date)
    requires ValidDate(a) && ValidDate(b) && DayNumber(a) == DayNumber(b)
    ensures a == b
  {
    DaysBeforeMonthStep(a.year, a.month);
    DaysBeforeMonthStep(b.year, b.month);
    DaysBeforeMonthMono(a.year, a.month + 1, 13);
    DaysBeforeMonthMono(b.year, b.month + 1, 13);
    if a.year < b.year {
      DaysBeforeYearMono(a.year, b.year);
      assert false;
    } else if b.year < a.year {
      DaysBeforeYearMono(b.year, a.year);
      assert false;
    }
    if a.month < b.month {
      DaysBeforeMonthMono(a.year, a.month + 1, b.month);
      assert false;
    } else if b.month < a.month {
      DaysBeforeMonthMono(a.year, b.month + 1, a.month);
      assert false;
    }
  }

  /** Reading the fields of a valid date's day number gives the date back. */
  lemma CivilOfDayNumber(d: Date)
    requires ValidDate(d)
    ensures CivilOf(DayNumber(d)) == d
  {
    DayNumberInjective(CivilOf(DayNumber(d)), d);
  }

  /** A day's index in its own year, counted from 0 for 1 January. */
  function DayOfYear(n: Day): (k: nat)
    ensures k < YearLength(CivilOf(n).year)
    ensures n == DaysBeforeYear(CivilOf(n).year) + k
  {
    var d := CivilOf(n);
    DaysBeforeMonthStep(d.year, d.month);
    DaysBeforeMonthMono(d.year, d.month + 1, 13);
    n - DaysBeforeYear(d.year)
  }

  /** A day lying in year `y` has that year. */
  lemma YearOfDay(n: Day, y: int)
    requires y >= EpochYear && DaysBeforeYear(y) <= n < DaysBeforeYear(y) + YearLength(y)
    ensures CivilOf(n).year == y && DayOfYear(n) == n - DaysBeforeYear(y)
  {
    var c := CivilOf(n).year;
    var k := DayOfYear(n);
    if c < y {
      DaysBeforeYearMono(c, y);
      assert false;
    } else if y < c {
      DaysBeforeYearMono(y, c);
      assert false;
    }
  }

  /** `getDay()`: 0 for Sunday, 1 for Monday, ..., 6 for Saturday. Day 0 is a Monday. */
  function JsWeekday(n: Day): (w: nat)
    ensures w < 7
  {
    (n + 1) % 7
  }

  /** The ISO 8601 weekday: 1 for Monday, ..., 7 for Sunday. */
  function IsoWeekday(n: Day): (w: nat)
    ensures 1 <= w <= 7
  {
    n % 7 + 1
  }

  /** The Thursday of the Monday-to-Sunday week holding `n`: `n + 4 - (getUTCDay() || 7)`. */
  function WeekThursday(n: Day): (t: Day)
    ensures IsoWeekday(t) == 4
    ensures t == n - n % 7 + 3
  {
    var dayNum := if JsWeekday(n) == 0 then 7 else JsWeekday(n);
    assert dayNum == IsoWeekday(n);
    n + 4 - dayNum
  }

  /**
   * `getWeekNumber`: `ceil((dayOfYear(thursday) + 1) / 7)` where dayOfYear
   * counts from 0, i.e. the number of Thursdays of that year up to and
   * including this week's (week 1 is the week holding the year's first Thursday).
   */
  function WeekNumber(n: Day): (w: int)
    ensures 1 <= w <= 53
    ensures w == 1 <==> DayOfYear(WeekThursday(n)) < 7
  {
    var ordinal := DayOfYear(WeekThursday(n)) + 1;
    (ordinal + 6) / 7
  }

  /** Two days of the same Monday-to-Sunday week have the same week number. */
  lemma SameWeekSameNumber(n: Day, m: Day)
    requires n / 7 == m / 7
    ensures WeekNumber(n) == WeekNumber(m)
  {
    assert WeekThursday(n) == WeekThursday(m);
  }

  /**
   * Consecutive weeks: the next week's number is one more when its Thursday
   * is in the same year, and 1 when that Thursday begins a new year.
   */
  lemma NextWeekNumber(n: Day)
    ensures var t := WeekThursday(n);
      if CivilOf(t + 7).year == CivilOf(t).year
      then WeekNumber(n + 7) == WeekNumber(n) + 1
      else WeekNumber(n + 7) == 1
  {
    var t := WeekThursday(n);
    assert WeekThursday(n + 7) == t + 7;
    if CivilOf(t + 7).year == CivilOf(t).year {
      SameYearWeekLater(t);
      OrdinalWeekStep(DayOfYear(t));
    } else {
      NewYearWeekLater(t);
    }
  }

  /** A week later in the same year is seven days further into it. */
  lemma SameYearWeekLater(t: Day)
    requires CivilOf(t + 7).year == CivilOf(t).year
    ensures DayOfYear(t + 7) == DayOfYear(t) + 7
  {
  }

  /** A week later in another year lies in the first seven days of the next one. */
  lemma NewYearWeekLater(t: Day)
    requires CivilOf(t + 7).year != CivilOf(t).year
    ensures DayOfYear(t + 7) < 7
  {
    YearChangeWithinWeek(t, CivilOf(t).year, DayOfYear(t), CivilOf(t + 7).year, DayOfYear(t + 7));
  }

  /**
   * Day `t`, at index `k` of year `y`, and day `t + 7`, at index `k2` of
   * another year `y2`: then `y2` is the next year and `t + 7` lies in its
   * first week.
   */
  lemma YearChangeWithinWeek(t: int, y: int, k: nat, y2: int, k2: nat)
    requires y >= EpochYear && y2 >= EpochYear && y2 != y
    requires t == DaysBeforeYear(y) + k && k < YearLength(y)
    requires t + 7 == DaysBeforeYear(y2) + k2 && k2 < YearLength(y2)
    ensures y2 == y + 1 && k2 < 7
  {
    if y2 < y {
      DaysBeforeYearMono(y2, y);
      assert false;
    } else if y2 > y + 1 {
      DaysBeforeYearMono(y, y + 1);
      DaysBeforeYearMono(y + 1, y2);
      assert false;
    } else {
      DaysBeforeYearMono(y, y2);
    }
  }

  /** Seven more days into the year is one more week. */
  lemma OrdinalWeekStep(k: nat)
    ensures (k + 7 + 1 + 6) / 7 == (k + 1 + 6) / 7 + 1
  {
  }

  /** ISO 8601: 4 January always lies in week 1. */
  lemma FourthOfJanuaryInWeekOne(y: int)
    requires y >= EpochYear
    ensures WeekNumber(DayNumber(Date(y, 1, 4))) == 1
  {
    var n := DayNumber(Date(y, 1, 4));
    var t := WeekThursday(n);
    YearOfDay(t, y);
  }

  /** `getWeekRange`'s Monday: `getDate() - day + (day === 0 ? -6 : 1)` as a day number. */
  function WeekMonday(n: Day): (m: Day)
    ensures m == n - n % 7
  {
    var day := JsWeekday(n);
    n - day + (if day == 0 then -6 else 1)
  }

  /** The Monday of the week is a Monday, on or before the date, and the date is at most its Sunday. */
  lemma WeekMondayBounds(n: Day)
    ensures IsoWeekday(WeekMonday(n)) == 1
    ensures WeekMonday(n) <= n <= WeekMonday(n) + 6
    ensures JsWeekday(n) == 0 ==> WeekMonday(n) == n - 6
    ensures WeekNumber(WeekMonday(n)) == WeekNumber(n) == WeekNumber(WeekMonday(n) + 6)
  {
    SameWeekSameNumber(WeekMonday(n), n);
    SameWeekSameNumber(WeekMonday(n) + 6, n);
  }

  /**
   * `formatDateISO`: year unpadded, month and day padded to two digits. A
   * date of a four-digit year gives ten characters that parse back to it.
   */
  function FormatDateISO(n: Day): (r: string)
    ensures 1000 <= CivilOf(n).year <= 9999 ==> |r| == 10 && ParseISODate(r) == Some(n)
  {
    var d := CivilOf(n);
    if 1000 <= d.year <= 9999 then
      IsoFieldsParse(d);
      IntToString(d.year) + "-" + Pad2(d.month) + "-" + Pad2(d.day)
    else IntToString(d.year) + "-" + Pad2(d.month) + "-" + Pad2(d.day)
  }

  /** The ISO text of a valid date of a four-digit year is ten characters that parse back to the date. */
  lemma IsoFieldsParse(d: Date)
    requires ValidDate(d) && 1000 <= d.year <= 9999
    ensures var r := IntToString(d.year) + "-" + Pad2(d.month) + "-" + Pad2(d.day);
      |r| == 10 && ParseISODate(r) == Some(DayNumber(d))
  {
    NatToStringFourDigits(d.year);
    Pad2Digits(d.month);
    Pad2Digits(d.day);
    DateStringFields(NatToString(d.year), Pad2(d.month), Pad2(d.day));
  }

  /** `formatDateCourt` on a date: `DD/MM/YYYY`, the fields of the ISO date reordered. */
  function FormatDateCourt(n: Day): (r: string)
    ensures 1000 <= CivilOf(n).year <= 9999 ==>
      var iso := FormatDateISO(n); r == iso[8..] + "/" + iso[5..7] + "/" + iso[..4]
  {
    var d := CivilOf(n);
    if 1000 <= d.year <= 9999 then
      CourtFields(d);
      Pad2(d.day) + "/" + Pad2(d.month) + "/" + IntToString(d.year)
    else Pad2(d.day) + "/" + Pad2(d.month) + "/" + IntToString(d.year)
  }

  /** The short text of a date of a four-digit year is its ISO text, fields reordered. */
  lemma CourtFields(d: Date)
    requires ValidDate(d) && 1000 <= d.year <= 9999
    ensures var iso := IntToString(d.year) + "-" + Pad2(d.month) + "-" + Pad2(d.day);
      Pad2(d.day) + "/" + Pad2(d.month) + "/" + IntToString(d.year) == iso[8..] + "/" + iso[5..7] + "/" + iso[..4]
  {
    NatToStringFourDigits(d.year);
    Pad2Digits(d.month);
    Pad2Digits(d.day);
    DateStringFields(NatToString(d.year), Pad2(d.month), Pad2(d.day));
  }

  datatype WeekRange = WeekRange(start: string, end: string)

  /**
   * `getWeekRange`: the ISO dates of the Monday and of the Sunday six days
   * later; within four-digit years both ends parse back to those days.
   */
  function GetWeekRange(n: Day): (r: WeekRange)
    ensures 1000 <= CivilOf(WeekMonday(n)).year && CivilOf(WeekMonday(n) + 6).year <= 9999 ==>
      ParseISODate(r.start) == Some(WeekMonday(n)) && ParseISODate(r.end) == Some(WeekMonday(n) + 6)
  {
    var monday := WeekMonday(n);
    YearMono(monday, monday + 6);
    WeekRange(FormatDateISO(monday), FormatDateISO(monday + 6))
  }

  /**
   * `new Date(s + 'T00:00:00')` for a `YYYY-MM-DD` string: the day it names,
   * `None` for the Invalid Date any other string gives.
   */
  function ParseISODate(s: string): (r: Option<Day>)
    ensures r.Some? ==>
      && |s| == 10 && s[4] == '-' && s[7] == '-' && IsDigits(s[..4]) && IsDigits(s[5..7]) && IsDigits(s[8..])
      && CivilOf(r.value) == Date(DigitsValue(s[..4]), DigitsValue(s[5..7]), DigitsValue(s[8..]))
  {
    if |s| == 10 && s[4] == '-' && s[7] == '-'
      && IsDigits(s[..4]) && IsDigits(s[5..7]) && IsDigits(s[8..])
    then
      var d := Date(DigitsValue(s[..4]), DigitsValue(s[5..7]), DigitsValue(s[8..]));
      if ValidDate(d) then CivilOfDayNumber(d); Some(DayNumber(d)) else None
    else None
  }

  /** `formatDateCourt` on a string; an Invalid Date renders every field as `NaN`. */
  function FormatDateCourtText(s: string): string {
    match ParseISODate(s)
    case Some(n) => FormatDateCourt(n)
    case None => "NaN/NaN/NaN"
  }

  lemma NatToStringFourDigits(n: nat)
    requires 1000 <= n <= 9999
    ensures |NatToString(n)| == 4
  {
    assert |NatToString(n)| == |NatToString(n / 10)| + 1;
    assert |NatToString(n / 10)| == |NatToString(n / 100)| + 1;
    assert |NatToString(n / 100)| == |NatToString(n / 1000)| + 1;
  }

  /** The fields of a `Y-M-D` string sit at fixed offsets once the year has four characters. */
  lemma DateStringFields(a: string, b: string, c: string)
    requires |a| == 4 && |b| == 2 && |c| == 2
    ensures var s := a + "-" + b + "-" + c;
      |s| == 10 && s[4] == '-' && s[7] == '-' && s[..4] == a && s[5..7] == b && s[8..] == c
  {
  }

  /** The date a well-formed string names, read field by field. */
  lemma ParsedDate(s: string) returns (d: Date)
    requires ParseISODate(s).Some?
    ensures ValidDate(d) && ParseISODate(s) == Some(DayNumber(d))
    ensures d == Date(DigitsValue(s[..4]), DigitsValue(s[5..7]), DigitsValue(s[8..]))
  {
    d := Date(DigitsValue(s[..4]), DigitsValue(s[5..7]), DigitsValue(s[8..]));
  }

  /** The formatting of a valid date of a non-negative year, field by field. */
  lemma FormatDateOf(d: Date)
    requires ValidDate(d) && d.year >= 0
    ensures FormatDateISO(DayNumber(d)) == NatToString(d.year) + "-" + Pad2(d.month) + "-" + Pad2(d.day)
    ensures FormatDateCourt(DayNumber(d)) == Pad2(d.day) + "/" + Pad2(d.month) + "/" + NatToString(d.year)
  {
    CivilOfDayNumber(d);
  }

  /** A well-formed date string with a four-digit year is the formatting of the day it names. */
  lemma FormatParseDateISO(s: string)
    requires ParseISODate(s).Some? && s[0] != '0'
    ensures FormatDateISO(ParseISODate(s).value) == s
  {
    var d := ParsedDate(s);
    FormatDateOf(d);
    var y, m, dd := s[..4], s[5..7], s[8..];
    assert y[0] == s[0];
    NatToStringOfDigits(y);
    Pad2OfDigits(m);
    Pad2OfDigits(dd);
    DateStringSplit(s);
  }

  lemma DateStringSplit(s: string)
    requires |s| == 10 && s[4] == '-' && s[7] == '-'
    ensures s == s[..4] + "-" + s[5..7] + "-" + s[8..]
  {
  }

  /** `formatDateCourt('YYYY-MM-DD')` is `'DD/MM/YYYY'`: the same three fields reordered. */
  lemma FormatDateCourtReorders(s: string)
    requires ParseISODate(s).Some? && s[0] != '0'
    ensures FormatDateCourtText(s) == s[8..] + "/" + s[5..7] + "/" + s[..4]
  {
    var d := ParsedDate(s);
    FormatDateOf(d);
    var y, m, dd := s[..4], s[5..7], s[8..];
    assert y[0] == s[0];
    NatToStringOfDigits(y);
    Pad2OfDigits(m);
    Pad2OfDigits(dd);
  }

  /** The range ends on a Sunday. */
  lemma WeekRangeEndsOnSunday(n: Day)
    ensures IsoWeekday(WeekMonday(n) + 6) == 7
  {
    var m := WeekMonday(n);
    WeekMondayBounds(n);
    assert m == (m / 7) * 7 && m + 6 == (m / 7) * 7 + 6;
  }

  /** Later days never have earlier years. */
  lemma YearMono(a: Day, b: Day)
    requires a <= b
    ensures CivilOf(a).year <= CivilOf(b).year
  {
    var ya := CivilOf(a).year;
    var yb := CivilOf(b).year;
    var ka := DayOfYear(a);
    var kb := DayOfYear(b);
    if yb < ya {
      DaysBeforeYearMono(yb, ya);
      assert false;
    }
  }
}
