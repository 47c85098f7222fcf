/**
 * Civil dates of the proleptic Gregorian calendar, with a day number for
 * arithmetic: 0001-01-01 is day 0 and a Monday. This is the part of Go's
 * `time.Time` the core uses (dates at midnight; the time of day and the time
 * zone are not modelled).
 */
module Civil {
  import opened Wrappers
  import opened Text
  import opened Numeric

  datatype CivilDate = CivilDate(year: int, month: int, day: int)

  predicate IsLeapYear(y: int) {
    y % 4 == 0 && (y % 100 != 0 || y % 400 == 0)
  }

  function DaysInMonth(y: int, m: int): (n: int)
    requires 1 <= m <= 12
    ensures 28 <= n <= 31
  {
    if m == 2 then (if IsLeapYear(y) then 29 else 28)
    else if m == 4 || m == 6 || m == 9 || m == 11 then 30
    else 31
  }

  predicate ValidDate(d: CivilDate) {
    1 <= d.month <= 12 && 1 <= d.day <= DaysInMonth(d.year, d.month)
  }

  /** A calendar day. */
  type Date = d: CivilDate | ValidDate(d) witness CivilDate(1, 1, 1)

  function YearLength(y: int): int {
    if IsLeapYear(y) then 366 else 365
  }

  /** Days from 0001-01-01 to 1 January of year `y` (negative before year 1). */
  function DaysBeforeYear(y: int): int
    decreases if y >= 1 then y - 1 else 1 - y
  {
    if y == 1 then 0
    else if y > 1 then DaysBeforeYear(y - 1) + YearLength(y - 1)
    else DaysBeforeYear(y + 1) - YearLength(y)
  }

  /** Days from 1 January to the first of month `m` of year `y`. */
  function DaysBeforeMonth(y: int, m: int): int
    requires 1 <= m <= 12
  {
    var c := [0, 31, 59, 90, 120, 151, 181, 212, 243, 273, 304, 334][m - 1];
    if m > 2 && IsLeapYear(y) then c + 1 else c
  }

  function DayNumber(d: Date): int {
    DaysBeforeYear(d.year) + DaysBeforeMonth(d.year, d.month) + d.day - 1
  }

  /** The zero-based position of a day within its year (Go's YearDay minus one). */
  function DayOfYear(d: Date): (r: int)
    ensures 0 <= r < YearLength(d.year)
  {
    DaysBeforeMonth(d.year, d.month) + d.day - 1
  }

  /** Successive months start where the previous one ends. */
  lemma MonthStep(y: int, m: int)
    requires 1 <= m <= 12
    ensures DaysBeforeMonth(y, m) + DaysInMonth(y, m) == if m < 12 then DaysBeforeMonth(y, m + 1) else YearLength(y)
  {
  }

  /** A year has 365 days, or 366 when it is a leap year. */
  lemma YearStep(y: int)
    ensures DaysBeforeYear(y + 1) == DaysBeforeYear(y) + YearLength(y)
  {
  }

  lemma {:induction false} DaysBeforeYearIncreasing(a: int, b: int)
    requires a < b
    ensures DaysBeforeYear(a) + YearLength(a) <= DaysBeforeYear(b)
    decreases b - a
  {
    YearStep(a);
    if a + 1 < b {
      DaysBeforeYearIncreasing(a + 1, b);
    }
  }

  lemma MonthsIncreasing(y: int, m1: int, m2: int)
    requires 1 <= m1 < m2 <= 12
    ensures DaysBeforeMonth(y, m1) + DaysInMonth(y, m1) <= DaysBeforeMonth(y, m2)
  {
  }

  /** Dates in calendar order: by year, then month, then day. */
  predicate CalendarLess(a: Date, b: Date) {
    a.year < b.year || (a.year == b.year && (a.month < b.month || (a.month == b.month && a.day < b.day)))
  }

  /** Go's Time.Before for two dates. */
  predicate Before(a: Date, b: Date) {
    DayNumber(a) < DayNumber(b)
  }

  /** Go's Time.After for two dates. */
  predicate After(a: Date, b: Date) {
    DayNumber(a) > DayNumber(b)
  }

  /** Day numbers follow calendar order. */
  lemma {:induction false} CalendarOrder(a: Date, b: Date)
    ensures CalendarLess(a, b) ==> DayNumber(a) < DayNumber(b)
  {
    if a.year < b.year {
      DaysBeforeYearIncreasing(a.year, b.year);
    } else if a.year == b.year && a.month < b.month {
      MonthsIncreasing(a.year, a.month, b.month);
    }
  }

  /** Two dates with the same day number are the same date; Before is calendar order. */
  lemma DayNumberInjective(a: Date, b: Date)
    ensures DayNumber(a) == DayNumber(b) <==> a == b
    ensures Before(a, b) <==> CalendarLess(a, b)
  {
    CalendarOrder(a, b);
    CalendarOrder(b, a);
  }

  /** The following day. */
  function NextDay(d: Date): (r: Date)
    ensures DayNumber(r) == DayNumber(d) + 1
  {
    MonthStep(d.year, d.month);
    if d.day < DaysInMonth(d.year, d.month) then CivilDate(d.year, d.month, d.day + 1)
    else if d.month < 12 then CivilDate(d.year, d.month + 1, 1)
    else
      YearStep(d.year);
      CivilDate(d.year + 1, 1, 1)
  }

  /** The preceding day. */
  function PrevDay(d: Date): (r: Date)
    ensures DayNumber(r) == DayNumber(d) - 1
  {
    if d.day > 1 then CivilDate(d.year, d.month, d.day - 1)
    else if d.month > 1 then
      MonthStep(d.year, d.month - 1);
      CivilDate(d.year, d.month - 1, DaysInMonth(d.year, d.month - 1))
    else
      YearStep(d.year - 1);
      MonthStep(d.year - 1, 12);
      CivilDate(d.year - 1, 12, 31)
  }

  /** The date `k` days after `d` (before it when `k` is negative). */
  function AddDays(d: Date, k: int): (r: Date)
    ensures DayNumber(r) == DayNumber(d) + k
    decreases if k >= 0 then k else -k
  {
    if k == 0 then d
    else if k > 0 then AddDays(NextDay(d), k - 1)
    else AddDays(PrevDay(d), k + 1)
  }

  /** Moving by `j` days and then by `k` days is moving by `j + k` days. */
  lemma AddDaysAdd(d: Date, j: int, k: int)
    ensures AddDays(AddDays(d, j), k) == AddDays(d, j + k)
  {
    DayNumberInjective(AddDays(AddDays(d, j), k), AddDays(d, j + k));
  }

  /** Months since January of year 0: a running month index. */
  function MonthIndex(d: Date): int {
    12 * d.year + d.month - 1
  }

  /** The first day of the month with running index `a`. */
  function MonthStart(a: int): (r: Date)
    ensures r.day == 1 && MonthIndex(r) == a
  {
    CivilDate(a / 12, a % 12 + 1, 1)
  }

  /** A first-of-month date is the start of its own month index. */
  lemma MonthStartOfIndex(d: Date)
    ensures MonthStart(MonthIndex(d)) == CivilDate(d.year, d.month, 1)
  {
    Mod12(d.year, d.month - 1);
  }

  /** The next month starts right after the last day of this one. */
  lemma MonthStartStep(a: int)
    ensures var t := MonthStart(a);
      DayNumber(MonthStart(a + 1)) == DayNumber(t) + DaysInMonth(t.year, t.month)
  {
    var q, r := a / 12, a % 12;
    var t := MonthStart(a);
    MonthStep(q, r + 1);
    if r < 11 {
      Mod12(q, r + 1);
      assert MonthStart(a + 1) == CivilDate(q, r + 2, 1);
    } else {
      Mod12(q + 1, 0);
      assert MonthStart(a + 1) == CivilDate(q + 1, 1, 1);
      YearStep(q);
    }
  }

  /**
   * Day `day` (1-31) of the month with running index `a`; a day past the end
   * of that month is the corresponding day of the next month.
   */
  function MonthDay(a: int, day: int): Date
    requires 1 <= day <= 31
  {
    var t := MonthStart(a);
    var len := DaysInMonth(t.year, t.month);
    if day <= len then CivilDate(t.year, t.month, day)
    else
      var n := MonthStart(a + 1);
      CivilDate(n.year, n.month, day - len)
  }

  /**
   * Go's Time.AddDate(0, k, 0), which is also AddDate(y, 0, 0) for k = 12 y:
   * the running month index moves by `k`, then the day of the month is
   * counted from the first of that month, so a day past the end of a
   * shorter month overflows into the next (31 January plus one month is
   * 2 or 3 March).
   */
  function AddMonths(d: Date, k: int): (r: Date)
    ensures r == MonthDay(MonthIndex(d) + k, d.day)
  {
    DayInMonth(MonthIndex(d) + k, d.day);
    AddDays(MonthStart(MonthIndex(d) + k), d.day - 1)
  }

  /** Counting `day - 1` days from the first of month `a` gives MonthDay. */
  lemma DayInMonth(a: int, day: int)
    requires 1 <= day <= 31
    ensures AddDays(MonthStart(a), day - 1) == MonthDay(a, day)
  {
    var t := MonthStart(a);
    var len := DaysInMonth(t.year, t.month);
    var r := AddDays(t, day - 1);
    var c := MonthDay(a, day);
    if day <= len {
      assert DayNumber(c) == DayNumber(t) + day - 1;
    } else {
      var n := MonthStart(a + 1);
      MonthStartStep(a);
      assert DayNumber(c) == DayNumber(n) + day - len - 1;
    }
    DayNumberInjective(r, c);
  }

  /** A date in an earlier month, or earlier in the same month, comes first. */
  lemma MonthOrder(a: Date, b: Date)
    requires MonthIndex(a) < MonthIndex(b) || (MonthIndex(a) == MonthIndex(b) && a.day < b.day)
    ensures Before(a, b)
  {
    CalendarOrder(a, b);
  }

  /** MonthDay lands in month `a` on day `day`, or early in month `a + 1`. */
  lemma MonthDayPlace(a: int, day: int)
    requires 1 <= day <= 31
    ensures var r := MonthDay(a, day);
      (MonthIndex(r) == a && r.day == day) || (MonthIndex(r) == a + 1 && r.day < day)
  {
  }

  /** On the first of a month, moving by `k` months gives the first of the month `k` later. */
  lemma AddMonthsMonthStart(d: Date, k: int)
    requires d.day == 1
    ensures AddMonths(d, k) == MonthStart(MonthIndex(d) + k)
  {
  }

  /** ISO 8601 day of the week: 1 is Monday, 7 is Sunday. */
  function IsoWeekday(d: Date): (w: int)
    ensures 1 <= w <= 7
  {
    DayNumber(d) % 7 + 1
  }

  /** Go's Time.Weekday: 0 is Sunday, 6 is Saturday. */
  function GoWeekday(d: Date): (w: int)
    ensures 0 <= w <= 6
  {
    (DayNumber(d) + 1) % 7
  }

  /** The two numberings agree: Sunday is 0 in Go and 7 in ISO 8601. */
  lemma GoWeekdayIsIso(d: Date)
    ensures IsoWeekday(d) == if GoWeekday(d) == 0 then 7 else GoWeekday(d)
  {
    var n := DayNumber(d);
    Mod7(n / 7, n % 7 + 1);
  }

  /** Division by 12 of `12q + r`. */
  lemma Mod12(q: int, r: int)
    requires 0 <= r < 12
    ensures (12 * q + r) / 12 == q && (12 * q + r) % 12 == r
  {
  }

  /** Division by 7 of `7q + r`. */
  lemma Mod7(q: int, r: int)
    ensures 0 <= r < 7 ==> (7 * q + r) / 7 == q && (7 * q + r) % 7 == r
    ensures r == 7 ==> (7 * q + r) % 7 == 0
  {
  }

  /**
   * Go's Time.ISOWeek: the ISO 8601 week-numbering year and week of `d`,
   * read off the Thursday of d's Monday-to-Sunday week.
   */
  function IsoWeek(d: Date): (r: (int, int))
    ensures r.1 >= 1
  {
    var th := AddDays(d, 4 - IsoWeekday(d));
    (th.year, DayOfYear(th) / 7 + 1)
  }

  /** The Thursday IsoWeek reads its year and week from. */
  lemma IsoWeekThursday(d: Date)
    ensures var th := AddDays(d, 4 - IsoWeekday(d));
      IsoWeekday(th) == 4 && -3 <= DayNumber(th) - DayNumber(d) <= 3
  {
    var n := DayNumber(d);
    var th := AddDays(d, 4 - IsoWeekday(d));
    ThursdayOfWeek(n, DayNumber(th));
  }

  lemma ThursdayOfWeek(n: int, t: int)
    requires t == n + 4 - (n % 7 + 1)
    ensures t % 7 == 3 && -3 <= t - n <= 3
  {
    Mod7(n / 7, 3);
  }

  // Date layouts of Go's time.Parse that the core uses.

  /** The value of `s[i..i+n]` when those are `n` decimal digits. */
  function DigitsAt(s: string, i: nat, n: nat): Option<nat> {
    if i + n <= |s| && AllDigits(s[i..i + n]) then Some(NatOf(s[i..i + n])) else None
  }

  /** Go's date validation: the month must be 1-12 and the day must exist in it. */
  function MakeDate(y: int, m: int, d: int): (r: Option<Date>)
    ensures r.Some? <==> ValidDate(CivilDate(y, m, d))
    ensures r.Some? ==> r.value == CivilDate(y, m, d)
  {
    if 1 <= m <= 12 && 1 <= d <= DaysInMonth(y, m) then Some(CivilDate(y, m, d)) else None
  }

  /** Layout "2006-01-02". */
  function ParseIsoDate(s: string): Option<Date> {
    if |s| == 10 && s[4] == '-' && s[7] == '-' then
      match (DigitsAt(s, 0, 4), DigitsAt(s, 5, 2), DigitsAt(s, 8, 2))
      case (Some(y), Some(m), Some(d)) => MakeDate(y, m, d)
      case _ => None
    else None
  }

  /** Layout "01/02/2006". */
  function ParseUsDate(s: string): Option<Date> {
    if |s| == 10 && s[2] == '/' && s[5] == '/' then
      match (DigitsAt(s, 0, 2), DigitsAt(s, 3, 2), DigitsAt(s, 6, 4))
      case (Some(m), Some(d), Some(y)) => MakeDate(y, m, d)
      case _ => None
    else None
  }

  /** Layout "2006-01": the first of the month. */
  function ParseYearMonth(s: string): Option<Date> {
    if |s| == 7 && s[4] == '-' then
      match (DigitsAt(s, 0, 4), DigitsAt(s, 5, 2))
      case (Some(y), Some(m)) => MakeDate(y, m, 1)
      case _ => None
    else None
  }

  /** Layout "2006": 1 January of the year. */
  function ParseYear(s: string): Option<Date> {
    match DigitsAt(s, 0, 4)
    case Some(y) => if |s| == 4 then MakeDate(y, 1, 1) else None
    case None => None
  }

  /**
   * The time-of-day part " 15:04:05" of a layout: an hour of one or two
   * digits below 24, two-digit minutes and seconds below 60, and then, as
   * Go accepts after seconds, an optional fraction ('.' or ',' and digits).
   */
  predicate ValidClock(t: string) {
    var h := if |t| >= 2 && IsAsciiDigit(t[1]) then 2 else 1;
    |t| >= h + 6 && DigitsAt(t, 0, h).Some? && DigitsAt(t, 0, h).value < 24 &&
    t[h] == ':' && DigitsAt(t, h + 1, 2).Some? && DigitsAt(t, h + 1, 2).value < 60 &&
    t[h + 3] == ':' && DigitsAt(t, h + 4, 2).Some? && DigitsAt(t, h + 4, 2).value < 60 &&
    (|t| == h + 6 || (|t| >= h + 8 && (t[h + 6] == '.' || t[h + 6] == ',') && AllDigits(t[h + 7..])))
  }

  /** A date layout followed by " 15:04:05"; the time of day is checked and dropped. */
  function ParseWithClock(s: string, date: string -> Option<Date>): Option<Date> {
    if |s| >= 11 && s[10] == ' ' && ValidClock(s[11..]) then date(s[..10]) else None
  }

  /** The date layouts the core passes to time.Parse. */
  datatype Layout = IsoDate | IsoDateTime | UsDate | UsDateTime | YearMonth | YearOnly

  /** The Go reference-time spelling of each layout. */
  function LayoutString(l: Layout): string {
    match l
    case IsoDate => "2006-01-02"
    case IsoDateTime => "2006-01-02 15:04:05"
    case UsDate => "01/02/2006"
    case UsDateTime => "01/02/2006 15:04:05"
    case YearMonth => "2006-01"
    case YearOnly => "2006"
  }

  /** time.Parse(LayoutString(l), s), keeping the date. */
  function ParseLayout(l: Layout, s: string): Option<Date> {
    match l
    case IsoDate => ParseIsoDate(s)
    case IsoDateTime => ParseWithClock(s, ParseIsoDate)
    case UsDate => ParseUsDate(s)
    case UsDateTime => ParseWithClock(s, ParseUsDate)
    case YearMonth => ParseYearMonth(s)
    case YearOnly => ParseYear(s)
  }

  /** The date of the first layout in `layouts` that parses `s`; none when every layout rejects it. */
  function ParseFirst(layouts: seq<Layout>, s: string): (r: Option<Date>)
    ensures r.Some? ==> exists i :: 0 <= i < |layouts| && ParseLayout(layouts[i], s) == r &&
                                    forall j :: 0 <= j < i ==> ParseLayout(layouts[j], s).None?
    ensures r.None? <==> forall i :: 0 <= i < |layouts| ==> ParseLayout(layouts[i], s).None?
  {
    if layouts == [] then None
    else
      var first := ParseLayout(layouts[0], s);
      if first.Some? then first
      else
        var r := ParseFirst(layouts[1..], s);
        if r.Some? then
          var i :| 0 <= i < |layouts[1..]| && ParseLayout(layouts[1..][i], s) == r &&
                   forall j :: 0 <= j < i ==> ParseLayout(layouts[1..][j], s).None?;
          assert ParseLayout(layouts[i + 1], s) == r;
          r
        else
          assert forall i :: 1 <= i < |layouts| ==> layouts[i] == layouts[1..][i - 1];
          r
  }

  /** Go's "2006-01-02" formatting: a four-digit zero-padded year, then month and day. */
  function FormatIsoDate(d: Date): (r: string)
    ensures 0 <= d.year <= 9999 ==> |r| == 10 && r[4] == '-' && r[7] == '-'
  {
    assert 0 <= d.year <= 9999 ==> |ZeroPad(d.year, 4)| == 4 by {
      if 0 <= d.year <= 9999 {
        YearPad(d.year);
      }
    }
    NatToStringShort(d.month);
    NatToStringShort(d.day);
    var y := if d.year < 0 then "-" + ZeroPad(-d.year, 4) else ZeroPad(d.year, 4);
    y + "-" + ZeroPad(d.month, 2) + "-" + ZeroPad(d.day, 2)
  }

  /** Formatting a date of years 0-9999 and parsing it back gives the date. */
  lemma FormatParseIsoDate(d: Date)
    requires 0 <= d.year <= 9999
    ensures ParseIsoDate(FormatIsoDate(d)) == Some(d)
  {
    var s := FormatIsoDate(d);
    var y, m, dd := ZeroPad(d.year, 4), ZeroPad(d.month, 2), ZeroPad(d.day, 2);
    YearPad(d.year);
    NatToStringShort(d.month);
    NatToStringShort(d.day);
    assert s == y + "-" + m + "-" + dd;
    DateFields(y, m, dd);
    assert DigitsAt(s, 0, 4) == Some(d.year);
    assert DigitsAt(s, 5, 2) == Some(d.month);
    assert DigitsAt(s, 8, 2) == Some(d.day);
  }

  lemma DateFields(y: string, m: string, dd: string)
    requires |y| == 4 && |m| == 2 && |dd| == 2
    ensures var s := y + "-" + m + "-" + dd;
      |s| == 10 && s[4] == '-' && s[7] == '-' && s[0..4] == y && s[5..7] == m && s[8..10] == dd
  {
  }

  /** Years 0-9999 are written with exactly four digits. */
  lemma YearPad(y: nat)
    requires y <= 9999
    ensures |ZeroPad(y, 4)| == 4
  {
    assert Pow10(4) == 10000;
    NatToStringLength(y, 4);
  }
}
