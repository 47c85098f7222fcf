/**
 * Calendar increments: the week (ISO 8601), month, quarter and year buckets
 * that transactions are grouped and browsed by.
 */
module Increments {
  import opened Wrappers
  import opened Civil

  datatype Increment = Weekly | Monthly | Quarterly | Annually | AllTime

  /** The string value of each increment. */
  function Name(inc: Increment): string {
    match inc
    case Weekly => "Weekly"
    case Monthly => "Monthly"
    case Quarterly => "Quarterly"
    case Annually => "Yearly"
    case AllTime => "All time"
  }

  /** Distinct increments have distinct names. */
  lemma NameInjective(a: Increment, b: Increment)
    ensures Name(a) == Name(b) <==> a == b
  {
    if a != b {
      assert Name(a)[0] != Name(b)[0];
    }
  }

  /** The quarter (1-4) a date falls in. */
  function QuarterOfYear(d: Date): (q: int)
    ensures 1 <= q <= 4
    ensures 3 * q - 2 <= d.month <= 3 * q
  {
    (d.month - 1) / 3 + 1
  }

  /**
   * The Monday of d's ISO week, computed as the source does: take d's ISO
   * week-numbering year and week, go back from 4 January of that year (always
   * in week 1) to its Monday, then forward whole weeks.
   */
  function FirstDayOfWeek(d: Date): (r: Date)
    ensures DayNumber(r) == DayNumber(d) - IsoWeekday(d) + 1
  {
    var (year, week) := IsoWeek(d);
    var jan4: Date := CivilDate(year, 1, 4);
    var g := GoWeekday(jan4);
    var isoWeekday := if g == 0 then 7 else g;
    var monday := AddDays(jan4, -isoWeekday + 1);
    var r := AddDays(monday, (week - 1) * 7);
    WeekArithmetic(d, jan4, year, week, isoWeekday, monday, r);
    r
  }

  lemma WeekArithmetic(d: Date, jan4: Date, year: int, week: int, isoWeekday: int, monday: Date, r: Date)
    requires (year, week) == IsoWeek(d) && jan4 == CivilDate(year, 1, 4)
    requires isoWeekday == (if GoWeekday(jan4) == 0 then 7 else GoWeekday(jan4))
    requires monday == AddDays(jan4, -isoWeekday + 1) && r == AddDays(monday, (week - 1) * 7)
    ensures DayNumber(r) == DayNumber(d) - IsoWeekday(d) + 1
  {
    var th := AddDays(d, 4 - IsoWeekday(d));
    IsoWeekThursday(d);
    GoWeekdayIsIso(jan4);
    var b := DaysBeforeYear(year);
    var t := DayNumber(th);
    assert t == b + DayOfYear(th);
    assert DayNumber(jan4) == b + 3;
    assert isoWeekday == (b + 3) % 7 + 1;
    assert DayNumber(r) == (b + 3) - (b + 3) % 7 + 7 * ((t - b) / 7);
    MondayArithmetic(b, t);
  }

  /** The week arithmetic behind FirstDayOfWeek, on plain day numbers. */
  lemma MondayArithmetic(b: int, t: int)
    requires t % 7 == 3
    ensures (b + 3) - (b + 3) % 7 + 7 * ((t - b) / 7) == t - 3
  {
    var x := b + 3;
    var a, r1 := x / 7, x % 7;
    var c, r2 := (t - b) / 7, (t - b) % 7;
    assert x == 7 * a + r1 && t - b == 7 * c + r2;
    assert t == 7 * (a + c) + (r1 + r2 - 3);
    if r1 + r2 - 3 < 0 {
      Mod7(a + c - 1, r1 + r2 + 4);
    } else if r1 + r2 - 3 < 7 {
      Mod7(a + c, r1 + r2 - 3);
    } else {
      Mod7(a + c + 1, r1 + r2 - 10);
    }
  }

  function FirstDayOfMonth(d: Date): Date {
    CivilDate(d.year, d.month, 1)
  }

  function FirstDayOfQuarter(d: Date): Date {
    CivilDate(d.year, QuarterOfYear(d) * 3 - 2, 1)
  }

  function FirstDayOfYear(d: Date): Date {
    CivilDate(d.year, 1, 1)
  }

  /** The first day of the increment `d` falls in; all time buckets by year. */
  function FirstDayInIncrement(inc: Increment, d: Date): Date {
    match inc
    case Weekly => FirstDayOfWeek(d)
    case Monthly => FirstDayOfMonth(d)
    case Quarterly => FirstDayOfQuarter(d)
    case Annually | AllTime => FirstDayOfYear(d)
  }

  /**
   * The date one increment later: Go's AddDate by 7 days, 1 or 3 months or
   * 1 year (a year is 12 months for AddDate). All time has no increment
   * (the source panics).
   */
  function AddIncrement(inc: Increment, d: Date): Option<Date> {
    match inc
    case Weekly => Some(AddDays(d, 7))
    case Monthly => Some(AddMonths(d, 1))
    case Quarterly => Some(AddMonths(d, 3))
    case Annually => Some(AddMonths(d, 12))
    case AllTime => None
  }

  /** The date one increment earlier; all time has no increment (the source panics). */
  function SubtractIncrement(inc: Increment, d: Date): Option<Date> {
    match inc
    case Weekly => Some(AddDays(d, -7))
    case Monthly => Some(AddMonths(d, -1))
    case Quarterly => Some(AddMonths(d, -3))
    case Annually => Some(AddMonths(d, -12))
    case AllTime => None
  }

  /** Months in one increment (0 for the week and for all time). */
  function MonthsIn(inc: Increment): int {
    match inc
    case Monthly => 1
    case Quarterly => 3
    case Annually => 12
    case _ => 0
  }

  /** `d` is the start of its own bucket. */
  predicate Aligned(inc: Increment, d: Date) {
    FirstDayInIncrement(inc, d) == d
  }

  /** The Monday of d's week is a Monday, at most six days before d. */
  lemma WeekStart(d: Date)
    ensures var r := FirstDayOfWeek(d);
      IsoWeekday(r) == 1 && DayNumber(r) <= DayNumber(d) < DayNumber(r) + 7
  {
    MondayOf(DayNumber(d), DayNumber(FirstDayOfWeek(d)));
  }

  lemma MondayOf(n: int, m: int)
    requires m == n - (n % 7 + 1) + 1
    ensures m % 7 == 0 && m <= n < m + 7
  {
    Mod7(n / 7, 0);
  }

  /** Month, quarter and year buckets start on day 1 of d's year, never after d. */
  lemma CalendarBucketStart(inc: Increment, d: Date)
    requires inc != Weekly
    ensures var r := FirstDayInIncrement(inc, d);
      r.day == 1 && r.year == d.year && r.month <= d.month && !After(r, d)
  {
    CalendarOrder(d, FirstDayInIncrement(inc, d));
  }

  /** Quarters start in January, April, July or October, no later than the date's month. */
  lemma QuarterStart(d: Date)
    ensures var m := FirstDayOfQuarter(d).month;
      (m == 1 || m == 4 || m == 7 || m == 10) && m <= d.month < m + 3
  {
  }

  /** All time buckets exactly as the year does. */
  lemma AllTimeIsAnnual(d: Date)
    ensures FirstDayInIncrement(AllTime, d) == FirstDayInIncrement(Annually, d) == CivilDate(d.year, 1, 1)
  {
  }

  /** Which dates start a bucket. */
  lemma AlignedIff(inc: Increment, d: Date)
    ensures inc == Weekly ==> (Aligned(inc, d) <==> IsoWeekday(d) == 1)
    ensures inc == Monthly ==> (Aligned(inc, d) <==> d.day == 1)
    ensures inc == Quarterly ==> (Aligned(inc, d) <==> d.day == 1 && (d.month - 1) % 3 == 0)
    ensures inc == Annually || inc == AllTime ==> (Aligned(inc, d) <==> d.day == 1 && d.month == 1)
  {
    if inc == Weekly {
      DayNumberInjective(FirstDayOfWeek(d), d);
    }
  }

  /** Bucketing twice is bucketing once. */
  lemma FirstDayIdempotent(inc: Increment, d: Date)
    ensures Aligned(inc, FirstDayInIncrement(inc, d))
  {
    if inc == Weekly {
      WeekStart(d);
      AlignedIff(inc, FirstDayOfWeek(d));
    }
  }

  /** Only all time lacks an increment. */
  lemma IncrementDefined(inc: Increment, d: Date)
    ensures AddIncrement(inc, d).None? <==> inc == AllTime
    ensures SubtractIncrement(inc, d).None? <==> inc == AllTime
  {
  }

  /**
   * A week is 7 days; otherwise the result is day d.day of the month
   * `MonthsIn` months later (earlier), overflowing into the month after it
   * when that month is shorter.
   */
  lemma IncrementMoves(inc: Increment, d: Date)
    requires inc != AllTime
    ensures inc == Weekly ==> DayNumber(AddIncrement(inc, d).value) == DayNumber(d) + 7
    ensures inc == Weekly ==> DayNumber(SubtractIncrement(inc, d).value) == DayNumber(d) - 7
    ensures inc != Weekly ==> AddIncrement(inc, d).value == MonthDay(MonthIndex(d) + MonthsIn(inc), d.day)
    ensures inc != Weekly ==> SubtractIncrement(inc, d).value == MonthDay(MonthIndex(d) - MonthsIn(inc), d.day)
  {
    match inc
    case Weekly => WeekMoves(d);
    case Monthly => MonthMoves(d, 1, AddIncrement(inc, d).value, SubtractIncrement(inc, d).value);
    case Quarterly => MonthMoves(d, 3, AddIncrement(inc, d).value, SubtractIncrement(inc, d).value);
    case Annually => MonthMoves(d, 12, AddIncrement(inc, d).value, SubtractIncrement(inc, d).value);
  }

  lemma WeekMoves(d: Date)
    ensures DayNumber(AddIncrement(Weekly, d).value) == DayNumber(d) + 7
    ensures DayNumber(SubtractIncrement(Weekly, d).value) == DayNumber(d) - 7
  {
  }

  lemma MonthMoves(d: Date, k: int, up: Date, down: Date)
    requires up == AddMonths(d, k) && down == AddMonths(d, -k)
    ensures up == MonthDay(MonthIndex(d) + k, d.day) && down == MonthDay(MonthIndex(d) - k, d.day)
  {
  }

  /** On the first of a month a calendar increment lands on the first of the month `MonthsIn` away. */
  lemma IncrementMonthStart(inc: Increment, d: Date)
    requires inc != AllTime && inc != Weekly && d.day == 1
    ensures AddIncrement(inc, d) == Some(MonthStart(MonthIndex(d) + MonthsIn(inc)))
    ensures SubtractIncrement(inc, d) == Some(MonthStart(MonthIndex(d) - MonthsIn(inc)))
  {
    IncrementMoves(inc, d);
  }

  /** Moving a bucket start by one increment gives a bucket start, and moving back returns to it. */
  lemma IncrementRoundTrip(inc: Increment, d: Date)
    requires inc != AllTime && Aligned(inc, d)
    ensures var next := AddIncrement(inc, d).value;
      Aligned(inc, next) && SubtractIncrement(inc, next) == Some(d)
    ensures var prev := SubtractIncrement(inc, d).value;
      Aligned(inc, prev) && AddIncrement(inc, prev) == Some(d)
  {
    if inc == Weekly {
      WeekRoundTrip(d);
    } else {
      MonthRoundTrip(inc, d, AddIncrement(inc, d).value);
      MonthRoundTrip(inc, SubtractIncrement(inc, d).value, d);
    }
  }

  lemma WeekRoundTrip(d: Date)
    requires Aligned(Weekly, d)
    ensures var next := AddIncrement(Weekly, d).value;
      Aligned(Weekly, next) && SubtractIncrement(Weekly, next) == Some(d)
    ensures var prev := SubtractIncrement(Weekly, d).value;
      Aligned(Weekly, prev) && AddIncrement(Weekly, prev) == Some(d)
  {
    var next := AddIncrement(Weekly, d).value;
    var prev := SubtractIncrement(Weekly, d).value;
    AlignedIff(Weekly, d);
    AlignedIff(Weekly, next);
    AlignedIff(Weekly, prev);
    WeekMoves(d);
    WeekMoves(next);
    WeekMoves(prev);
    WeekdayShift(DayNumber(d), DayNumber(next), DayNumber(prev));
    DayNumberInjective(SubtractIncrement(Weekly, next).value, d);
    DayNumberInjective(AddIncrement(Weekly, prev).value, d);
  }

  /** Aligned month-increment steps, forward and back. */
  lemma MonthRoundTrip(inc: Increment, a: Date, b: Date)
    requires inc != AllTime && inc != Weekly
    requires (Aligned(inc, a) && b == AddIncrement(inc, a).value) || (Aligned(inc, b) && a == SubtractIncrement(inc, b).value)
    ensures Aligned(inc, a) && Aligned(inc, b)
    ensures AddIncrement(inc, a) == Some(b) && SubtractIncrement(inc, b) == Some(a)
  {
    if Aligned(inc, a) && b == AddIncrement(inc, a).value {
      MonthForward(inc, a, b);
    } else {
      MonthBackward(inc, a, b);
    }
  }

  lemma MonthForward(inc: Increment, a: Date, b: Date)
    requires inc != AllTime && inc != Weekly && Aligned(inc, a) && b == AddIncrement(inc, a).value
    ensures Aligned(inc, b) && SubtractIncrement(inc, b) == Some(a)
  {
    AlignedMonthly(inc, a);
    IncrementMonthStart(inc, a);
    MonthStepForward(MonthsIn(inc), a, b);
    IncrementMonthStart(inc, b);
    AlignedMonthly(inc, b);
  }

  lemma MonthBackward(inc: Increment, a: Date, b: Date)
    requires inc != AllTime && inc != Weekly && Aligned(inc, b) && a == SubtractIncrement(inc, b).value
    ensures Aligned(inc, a) && AddIncrement(inc, a) == Some(b)
  {
    AlignedMonthly(inc, b);
    IncrementMonthStart(inc, b);
    MonthStepBack(MonthsIn(inc), a, b);
    IncrementMonthStart(inc, a);
    AlignedMonthly(inc, a);
  }

  /** The start of a bucket of `k` months: the first of a month, of a quarter's month for 3, of January for 12. */
  predicate MonthAligned(k: int, d: Date) {
    d.day == 1 && (k == 3 ==> (d.month - 1) % 3 == 0) && (k == 12 ==> d.month == 1)
  }

  lemma AlignedMonthly(inc: Increment, d: Date)
    requires inc != AllTime && inc != Weekly
    ensures Aligned(inc, d) <==> MonthAligned(MonthsIn(inc), d)
  {
    AlignedIff(inc, d);
  }

  lemma MonthStepForward(k: int, a: Date, b: Date)
    requires (k == 1 || k == 3 || k == 12) && MonthAligned(k, a) && b == MonthStart(MonthIndex(a) + k)
    ensures MonthAligned(k, b) && MonthStart(MonthIndex(b) - k) == a
  {
    MonthShift(a, k, b);
  }

  lemma MonthStepBack(k: int, a: Date, b: Date)
    requires (k == 1 || k == 3 || k == 12) && MonthAligned(k, b) && a == MonthStart(MonthIndex(b) - k)
    ensures MonthAligned(k, a) && MonthStart(MonthIndex(a) + k) == b
  {
    MonthShift(b, -k, a);
  }

  /** The first of the month `k` months from a first of the month. */
  lemma MonthShift(d: Date, k: int, e: Date)
    requires d.day == 1 && (k == 1 || k == -1 || k == 3 || k == -3 || k == 12 || k == -12)
    requires e == MonthStart(MonthIndex(d) + k)
    ensures MonthStart(MonthIndex(e) - k) == d
    ensures (k == 3 || k == -3) && (d.month - 1) % 3 == 0 ==> (e.month - 1) % 3 == 0
    ensures (k == 12 || k == -12) ==> e.month == d.month
  {
    MonthStartOfIndex(d);
    var q, r := d.year, d.month - 1;
    assert MonthIndex(e) == 12 * q + r + k;
    if k > 0 { MonthAlignment(q, r, k); } else { MonthAlignment(q, r, -k); }
  }

  lemma WeekdayShift(n: int, next: int, prev: int)
    requires next == n + 7 && prev == n - 7
    ensures next % 7 == n % 7 && prev % 7 == n % 7
  {
    Mod7(n / 7 + 1, n % 7);
    Mod7(n / 7 - 1, n % 7);
  }

  /** Shifting a month index by 1, 3 or 12 keeps quarter and year alignment. */
  lemma MonthAlignment(q: int, r: int, k: int)
    requires 0 <= r < 12 && (k == 1 || k == 3 || k == 12)
    ensures k == 3 && r % 3 == 0 ==> (12 * q + r + k) % 12 % 3 == 0 && (12 * q + r - k) % 12 % 3 == 0
    ensures k == 12 ==> (12 * q + r + k) % 12 == r && (12 * q + r - k) % 12 == r
  {
    if r + k < 12 { Mod12(q, r + k); } else { Mod12(q + 1, r + k - 12); }
    if r - k >= 0 { Mod12(q, r - k); } else if r - k >= -12 { Mod12(q - 1, r - k + 12); }
  }

  /** An increment always moves forward, a subtraction backward. */
  lemma IncrementDirection(inc: Increment, d: Date)
    requires inc != AllTime
    ensures After(AddIncrement(inc, d).value, d)
    ensures Before(SubtractIncrement(inc, d).value, d)
  {
    IncrementMoves(inc, d);
    if inc != Weekly {
      var k := MonthsIn(inc);
      var up, down := AddIncrement(inc, d).value, SubtractIncrement(inc, d).value;
      MonthDayPlace(MonthIndex(d) + k, d.day);
      MonthDayPlace(MonthIndex(d) - k, d.day);
      MonthOrder(d, up);
      MonthOrder(down, d);
    }
  }
}
