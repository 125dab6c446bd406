/**
 * Calendar dates as Python's `datetime.date` treats them: the proleptic
 * Gregorian calendar, day numbers from `toordinal()`, `weekday()` with
 * Monday = 0, `timedelta` arithmetic and `isocalendar()` week numbers.
 */
module Dates {
  import opened Wrappers

  datatype Date = Date(year: int, month: int, day: int)

  predicate IsLeap(y: int)
  {
    y % 4 == 0 && (y % 100 != 0 || y % 400 == 0)
  }

  function DaysInMonth(y: int, m: int): (n: int)
    requires 1 <= m <= 12
    ensures 28 <= n <= 31
  {
    if m == 2 then (if IsLeap(y) then 29 else 28)
    else if m == 4 || m == 6 || m == 9 || m == 11 then 30
    else 31
  }

  /** A day that exists in the proleptic Gregorian calendar, in any year. */
  predicate ValidDate(d: Date)
  {
    1 <= d.month <= 12 && 1 <= d.day <= DaysInMonth(d.year, d.month)
  }

  /** A date `date(y, m, d)` builds without raising: a valid day in years 1 to 9999. */
  predicate Constructible(d: Date)
  {
    ValidDate(d) && 1 <= d.year <= 9999
  }

  function DaysInYear(y: int): int { if IsLeap(y) then 366 else 365 }

  /** Days before January 1 of year `y`, counting from year 1: each year adds its own length. */
  function DaysBeforeYear(y: int): int
    decreases if y < 1 then 1 - y else y - 1
  {
    if y == 1 then 0
    else if y > 1 then DaysBeforeYear(y - 1) + DaysInYear(y - 1)
    else DaysBeforeYear(y + 1) - DaysInYear(y)
  }

  /** `_days_before_year`'s closed formula. */
  function DaysBeforeYearClosed(y: int): int
  {
    365 * (y - 1) + (y - 1) / 4 - (y - 1) / 100 + (y - 1) / 400
  }

  /** The closed formula grows by one year's length from `y` to `y + 1`. */
  lemma ClosedStep(y: int)
    ensures DaysBeforeYearClosed(y + 1) == DaysBeforeYearClosed(y) + DaysInYear(y)
  {
    Step4(y);
    Step100(y);
    Step400(y);
  }

  /** The count agrees with the closed formula. */
  lemma {:induction false} DaysBeforeYearFormula(y: int)
    ensures DaysBeforeYear(y) == DaysBeforeYearClosed(y)
    decreases if y < 1 then 1 - y else y - 1
  {
    if y > 1 {
      DaysBeforeYearFormula(y - 1);
      ClosedStep(y - 1);
    } else if y < 1 {
      DaysBeforeYearFormula(y + 1);
      ClosedStep(y);
    }
  }

  /** Days in the months of year `y` before month `m`, Python's `_days_before_month`. */
  function DaysBeforeMonth(y: int, m: int): (n: int)
    requires 1 <= m <= 12
    ensures 0 <= n <= 335
  {
    var table := [0, 31, 59, 90, 120, 151, 181, 212, 243, 273, 304, 334];
    table[m - 1] + (if m > 2 && IsLeap(y) then 1 else 0)
  }

  /** Each month starts where the one before it ends. */
  lemma MonthStep(y: int, m: int)
    requires 1 < m <= 12
    ensures DaysBeforeMonth(y, m) == DaysBeforeMonth(y, m - 1) + DaysInMonth(y, m - 1)
  {
  }

  /** `date.toordinal()`. */
  function Ord(d: Date): int
    requires ValidDate(d)
  {
    DaysBeforeYear(d.year) + DaysBeforeMonth(d.year, d.month) + d.day
  }

  /** `date.weekday()`: Monday is 0, Sunday is 6. */
  function Weekday(d: Date): (w: int)
    requires ValidDate(d)
    ensures 0 <= w < 7
  {
    (Ord(d) + 6) % 7
  }

  /** One calendar year after another: the Jan 1 ordinals differ by that year's length. */
  lemma YearStep(y: int)
    ensures DaysBeforeYear(y + 1) == DaysBeforeYear(y) + DaysInYear(y)
  {
    if y < 0 {
      assert DaysBeforeYear(y) == DaysBeforeYear(y + 1) - DaysInYear(y);
    }
  }

  /** Going from `y - 1` to `y` raises `y / 4` by one exactly when 4 divides `y`; likewise for 100 and 400. */
  lemma Step4(y: int)
    ensures y / 4 - (y - 1) / 4 == (if y % 4 == 0 then 1 else 0)
  {
    var q, r := (y - 1) / 4, (y - 1) % 4;
    assert y == 4 * q + r + 1;
  }

  lemma Step100(y: int)
    ensures y / 100 - (y - 1) / 100 == (if y % 100 == 0 then 1 else 0)
  {
    var q, r := (y - 1) / 100, (y - 1) % 100;
    assert y == 100 * q + r + 1;
  }

  lemma Step400(y: int)
    ensures y / 400 - (y - 1) / 400 == (if y % 400 == 0 then 1 else 0)
  {
    var q, r := (y - 1) / 400, (y - 1) % 400;
    assert y == 400 * q + r + 1;
  }

  lemma DecemberEnd(y: int)
    ensures DaysBeforeMonth(y, 12) + 31 == DaysInYear(y)
  {
  }

  /** The day after `d`. */
  function NextDay(d: Date): (r: Date)
    requires ValidDate(d)
    ensures ValidDate(r) && Ord(r) == Ord(d) + 1
  {
    if d.day < DaysInMonth(d.year, d.month) then d.(day := d.day + 1)
    else if d.month < 12 then
      MonthBoundary(d.year, d.month);
      Date(d.year, d.month + 1, 1)
    else
      YearBoundary(d.year);
      Date(d.year + 1, 1, 1)
  }

  /** The day before `d`. */
  function PrevDay(d: Date): (r: Date)
    requires ValidDate(d)
    ensures ValidDate(r) && Ord(r) == Ord(d) - 1
  {
    if d.day > 1 then d.(day := d.day - 1)
    else if d.month > 1 then
      MonthBoundary(d.year, d.month - 1);
      Date(d.year, d.month - 1, DaysInMonth(d.year, d.month - 1))
    else
      YearBoundary(d.year - 1);
      Date(d.year - 1, 12, 31)
  }

  /** The first of the next month follows the last day of month `m`. */
  lemma MonthBoundary(y: int, m: int)
    requires 1 <= m < 12
    ensures Ord(Date(y, m + 1, 1)) == Ord(Date(y, m, DaysInMonth(y, m))) + 1
  {
    MonthStep(y, m + 1);
  }

  /** New Year's Day follows New Year's Eve. */
  lemma YearBoundary(y: int)
    ensures Ord(Date(y + 1, 1, 1)) == Ord(Date(y, 12, 31)) + 1
  {
    YearStep(y);
    DecemberEnd(y);
  }

  /** `d + timedelta(days=k)`: the date whose ordinal is `k` further on. */
  function AddDays(d: Date, k: int): (r: Date)
    requires ValidDate(d)
    ensures ValidDate(r) && Ord(r) == Ord(d) + k
    decreases if k < 0 then -k else k
  {
    if k == 0 then d
    else if k > 0 then AddDays(NextDay(d), k - 1)
    else AddDays(PrevDay(d), k + 1)
  }

  /** `date.min` and `date.max`. */
  const MinDate := Date(1, 1, 1)
  const MaxDate := Date(9999, 12, 31)

  /** `date.max.toordinal()`; `date.min.toordinal()` is 1. */
  const MaxOrdinal := 3652059

  /** `d + timedelta(days=k)` as Python computes it: `OverflowError` when the result leaves years 1 to 9999. */
  function Shifted(d: Date, k: int): Result<Date>
    requires ValidDate(d)
  {
    var r := AddDays(d, k);
    if Constructible(r) then Ok(r) else Raised
  }

  /** The shift succeeds exactly when the day number stays between those of `date.min` and `date.max`. */
  lemma ShiftedInRange(d: Date, k: int)
    requires ValidDate(d)
    ensures Shifted(d, k).Ok? <==> 1 <= Ord(d) + k <= MaxOrdinal
    ensures Shifted(d, k).Ok? ==> Shifted(d, k).value == AddDays(d, k) && Constructible(Shifted(d, k).value)
  {
    var r := AddDays(d, k);
    MaxDateFacts();
    BeforeIsOrd(r, MaxDate);
    BeforeIsOrd(MinDate, r);
    assert Ord(MinDate) == 1;
  }

  /** `date.min` is a Monday, so the Monday of any constructible date's week is constructible: going back to it never raises. */
  lemma MondayConstructible(d: Date)
    requires Constructible(d)
    ensures 1 <= Ord(d) - Weekday(d)
  {
    BeforeIsOrd(MinDate, d);
    assert Ord(MinDate) == 1;
    var q := (Ord(d) + 6) / 7;
    assert Ord(d) - Weekday(d) == 7 * q - 6;
  }

  /**
   * `today + timedelta(days=n - today.weekday())`: the day of today's
   * Monday-to-Sunday week that falls on weekday `n`. It raises exactly when
   * that day lies past `date.max`, which only the last week can reach.
   */
  function DayInWeek(today: Date, n: nat): (r: Result<Date>)
    requires Constructible(today) && n < 7
    ensures r.Ok? ==> Constructible(r.value) && Weekday(r.value) == n
    ensures r.Ok? ==> Ord(r.value) == Ord(today) - Weekday(today) + n
    ensures r.Raised? <==> Ord(today) - Weekday(today) + n > MaxOrdinal
  {
    var w := Weekday(today);
    MoveInWeek(today, n);
    MondayConstructible(today);
    ShiftedInRange(today, n - w);
    assert Ord(AddDays(today, n - w)) == Ord(today) - w + n;
    Shifted(today, n - w)
  }

  /** `date.max` is a Friday, 3652059 days from 0001-01-01 counted as day 1. */
  lemma MaxDateFacts()
    ensures ValidDate(MaxDate) && Ord(MaxDate) == MaxOrdinal && Weekday(MaxDate) == 4
  {
    DaysBeforeYearFormula(9999);
  }

  lemma ModShift(x: int, y: int, k: int)
    requires y == x + k
    ensures (y + 6) % 7 == ((x + 6) % 7 + k) % 7
  {
    var q := (x + 6) / 7;
    assert y + 6 == 7 * q + ((x + 6) % 7 + k);
  }

  /** Moving `k` days moves the weekday by `k` modulo 7. */
  lemma WeekdayShift(d: Date, k: int)
    requires ValidDate(d)
    ensures Weekday(AddDays(d, k)) == (Weekday(d) + k) % 7
  {
    WeekdayApart(d, AddDays(d, k), k);
  }

  /** A day `k` days after `d`, where `k` days from `d`'s weekday reach weekday `n` (a week on, at most), falls on weekday `n`. */
  lemma WeekdayLands(d: Date, r: Date, k: int, n: int)
    requires ValidDate(d) && ValidDate(r) && Ord(r) == Ord(d) + k
    requires 0 <= n < 7 && (Weekday(d) + k == n || Weekday(d) + k == n + 7)
    ensures Weekday(r) == n
  {
    WeekdayApart(d, r, k);
    if Weekday(d) + k == n + 7 {
      assert (n + 7) % 7 == n;
    }
  }

  /** Two dates `k` days apart have weekdays `k` apart modulo 7. */
  lemma WeekdayApart(d: Date, r: Date, k: int)
    requires ValidDate(d) && ValidDate(r) && Ord(r) == Ord(d) + k
    ensures Weekday(r) == (Weekday(d) + k) % 7
  {
    ModShift(Ord(d), Ord(r), k);
  }

  /** Python's date ordering, field by field. */
  predicate Before(a: Date, b: Date)
  {
    a.year < b.year || (a.year == b.year && (a.month < b.month || (a.month == b.month && a.day < b.day)))
  }

  predicate AtMost(a: Date, b: Date) { a == b || Before(a, b) }

  lemma {:induction false} MonthsMonotone(y: int, m1: int, m2: int)
    requires 1 <= m1 < m2 <= 12
    ensures DaysBeforeMonth(y, m2) >= DaysBeforeMonth(y, m1) + DaysInMonth(y, m1)
    decreases m2 - m1
  {
    MonthStep(y, m2);
    if m2 > m1 + 1 { MonthsMonotone(y, m1, m2 - 1); }
  }

  lemma {:induction false} YearsMonotone(y1: int, y2: int)
    requires y1 < y2
    ensures DaysBeforeYear(y2) >= DaysBeforeYear(y1) + DaysInYear(y1)
    decreases y2 - y1
  {
    YearStep(y1);
    if y2 > y1 + 1 {
      YearsMonotone(y1 + 1, y2);
    }
  }

  /** An earlier date in field order has a smaller ordinal. */
  lemma Earlier(a: Date, b: Date)
    requires ValidDate(a) && ValidDate(b) && Before(a, b)
    ensures Ord(a) < Ord(b)
  {
    if a.year < b.year {
      OrdInYear(a);
      OrdInYear(b);
      YearsMonotone(a.year, b.year);
    } else if a.month < b.month {
      MonthsMonotone(a.year, a.month, b.month);
    }
  }

  /** The field-by-field order agrees with the ordinal order. */
  lemma BeforeIsOrd(a: Date, b: Date)
    requires ValidDate(a) && ValidDate(b)
    ensures Before(a, b) <==> Ord(a) < Ord(b)
    ensures a == b <==> Ord(a) == Ord(b)
  {
    if Before(a, b) {
      Earlier(a, b);
    } else if Before(b, a) {
      Earlier(b, a);
    } else {
      assert a == b;
    }
  }

  /** The ordinal of the Monday that starts ISO week 1 of year `y`. */
  function Week1Monday(y: int): (r: int)
    ensures (r + 6) % 7 == 0
    ensures DaysBeforeYear(y) + 1 - 3 <= r <= DaysBeforeYear(y) + 1 + 3
  {
    MondayNear(DaysBeforeYear(y) + 1)
  }

  /** The Monday of the ISO week holding the day `first` when it is a Monday to Thursday, else the next Monday. */
  function MondayNear(first: int): (r: int)
    ensures (r + 6) % 7 == 0
    ensures first - 3 <= r <= first + 3
  {
    var wd := (first + 6) % 7;
    if wd > 3 then first - wd + 7 else first - wd
  }

  datatype IsoDate = IsoDate(isoYear: int, week: int, isoWeekday: int)

  /** `date.isocalendar()`. */
  function IsoCalendar(d: Date): IsoDate
    requires ValidDate(d)
  {
    IsoFrom(Ord(d), d.year, Week1Monday(d.year - 1), Week1Monday(d.year), Week1Monday(d.year + 1))
  }

  /**
   * The body of `isocalendar()` for day number `today` in calendar year `y`,
   * given the week-1 Mondays of the years before, of and after `y`.
   */
  function IsoFrom(today: int, y: int, w0: int, w1: int, w2: int): IsoDate
  {
    var week := (today - w1) / 7;
    if week < 0 then IsoDate(y - 1, (today - w0) / 7 + 1, (today - w0) % 7 + 1)
    else if week >= 52 && today >= w2 then IsoDate(y + 1, 1, (today - w1) % 7 + 1)
    else IsoDate(y, week + 1, (today - w1) % 7 + 1)
  }

  lemma Week1Spacing(y: int)
    ensures Week1Monday(y + 1) - Week1Monday(y) == 364 || Week1Monday(y + 1) - Week1Monday(y) == 371
  {
    YearStep(y);
    var a, b := Week1Monday(y), Week1Monday(y + 1);
    var p, q := (a + 6) / 7, (b + 6) / 7;
    assert a + 6 == 7 * p && b + 6 == 7 * q;
    assert 359 <= 7 * (q - p) <= 372;
    assert q - p == 52 || q - p == 53;
  }

  lemma DayOfWeekIn(today: int, w: int)
    requires (w + 6) % 7 == 0
    ensures (today - w) % 7 + 1 == (today + 6) % 7 + 1
  {
    var p := (w + 6) / 7;
    assert w == 7 * p - 6;
    assert today - w == (today + 6) - 7 * p;
  }

  lemma WeekArith(today: int, y: int, w0: int, w1: int, w2: int)
    requires w1 - w0 == 364 || w1 - w0 == 371
    requires w2 - w1 == 364 || w2 - w1 == 371
    requires (w0 + 6) % 7 == 0 && (w1 + 6) % 7 == 0
    requires w1 - 3 <= today <= w2 + 2
    ensures 1 <= IsoFrom(today, y, w0, w1, w2).week <= 53
  {
  }

  lemma OrdInYear(d: Date)
    requires ValidDate(d)
    ensures DaysBeforeYear(d.year) + 1 <= Ord(d) <= DaysBeforeYear(d.year) + DaysInYear(d.year)
  {
    DecemberEnd(d.year);
    if d.month < 12 { MonthsMonotone(d.year, d.month, 12); }
  }

  lemma Week1Bounds(y: int)
    ensures Week1Monday(y) - 3 <= DaysBeforeYear(y) + 1
    ensures DaysBeforeYear(y) + DaysInYear(y) <= Week1Monday(y + 1) + 2
  {
    YearStep(y);
  }

  /** A day lies between the week-1 Monday of its year, less three days, and two days after the next one. */
  lemma OrdInIsoYear(d: Date)
    requires ValidDate(d)
    ensures Week1Monday(d.year) - 3 <= Ord(d) <= Week1Monday(d.year + 1) + 2
  {
    OrdInYear(d);
    Week1Bounds(d.year);
  }

  /** ISO week numbers run from 1 to 53. */
  lemma IsoWeekRange(d: Date)
    requires ValidDate(d)
    ensures 1 <= IsoCalendar(d).week <= 53
  {
    var t, w0, w1, w2 := IsoSetup(d);
    WeekArith(t, d.year, w0, w1, w2);
  }

  /** The inputs of `isocalendar()` for `d`, with the spacing and bounds its arithmetic needs. */
  lemma IsoSetup(d: Date) returns (t: int, w0: int, w1: int, w2: int)
    requires ValidDate(d)
    ensures IsoCalendar(d) == IsoFrom(t, d.year, w0, w1, w2)
    ensures w1 - w0 == 364 || w1 - w0 == 371
    ensures w2 - w1 == 364 || w2 - w1 == 371
    ensures (w0 + 6) % 7 == 0 && (w1 + 6) % 7 == 0
    ensures w1 - 3 <= t <= w2 + 2
  {
    t, w0, w1, w2 := Ord(d), Week1Monday(d.year - 1), Week1Monday(d.year), Week1Monday(d.year + 1);
    Week1Spacing(d.year - 1);
    Week1Spacing(d.year);
    OrdInIsoYear(d);
  }

  /** The ISO weekday is `weekday() + 1`: Monday is 1, Sunday is 7. */
  lemma IsoWeekdayMatches(d: Date)
    requires ValidDate(d)
    ensures IsoCalendar(d).isoWeekday == Weekday(d) + 1
  {
    IsoFromWeekday(Ord(d), d.year, Week1Monday(d.year - 1), Week1Monday(d.year), Week1Monday(d.year + 1));
  }

  lemma IsoFromWeekday(today: int, y: int, w0: int, w1: int, w2: int)
    requires (w0 + 6) % 7 == 0 && (w1 + 6) % 7 == 0
    ensures IsoFrom(today, y, w0, w1, w2).isoWeekday == (today + 6) % 7 + 1
  {
    DayOfWeekIn(today, w0);
    DayOfWeekIn(today, w1);
  }

  /** Moving by `n` minus today's weekday lands on weekday `n` of the same week. */
  lemma MoveInWeek(today: Date, n: nat)
    requires ValidDate(today) && n < 7
    ensures var r := AddDays(today, n - Weekday(today));
      Weekday(r) == n && Ord(r) - n == Ord(today) - Weekday(today)
  {
    var k := n - Weekday(today);
    WeekdayLands(today, AddDays(today, k), k, n);
  }

  /** The lower-case English and German weekday names, Monday (0) first, as the Erste Campus scrapers list them. */
  const EnglishDayNames: seq<string> := ["monday", "tuesday", "wednesday", "thursday", "friday", "saturday", "sunday"]
  const GermanDayNames: seq<string> := ["montag", "dienstag", "mittwoch", "donnerstag", "freitag", "samstag", "sonntag"]
}
