/**
 * The date-range picker: a selected range [start, end) one increment long,
 * moved forward and back by one increment and kept within the limits set
 * by the first and last transaction dates.
 */
module DatePicker {
  import opened Wrappers
  import opened Civil
  import opened Increments

  /** A selected range of dates: the start is included, the end is not. */
  datatype Span = Span(start: Date, end: Date)

  /** Outside all time, the range is one whole bucket: it starts a bucket and ends one increment later. */
  predicate Whole(inc: Increment, s: Span) {
    inc != AllTime ==> Aligned(inc, s.start) && AddIncrement(inc, s.start) == Some(s.end)
  }

  /** The bucket holding `d`: from its first day to one increment later. */
  function Bucket(inc: Increment, d: Date): Span
    requires inc != AllTime
  {
    var start := FirstDayInIncrement(inc, d);
    Span(start, AddIncrement(inc, start).value)
  }

  /** A bucket is a whole range. */
  lemma BucketWhole(inc: Increment, d: Date)
    requires inc != AllTime
    ensures Whole(inc, Bucket(inc, d))
  {
    FirstDayIdempotent(inc, d);
  }

  /** The earliest start: the bucket start of the lower limit. */
  function MinStart(inc: Increment, minDate: Date): Date {
    FirstDayInIncrement(inc, minDate)
  }

  /** The latest end: one increment after the bucket start of the upper limit; none for all time (the source panics). */
  function MaxEnd(inc: Increment, maxDate: Date): (r: Option<Date>)
    ensures r.Some? <==> inc != AllTime
  {
    AddIncrement(inc, FirstDayInIncrement(inc, maxDate))
  }

  /**
   * The range pulled back within the limits: a start before the earliest
   * start moves the range to begin there, an end after the latest end
   * moves it to finish there, and otherwise it stays. None for all time,
   * where the source panics computing an increment.
   */
  function Clamp(s: Span, inc: Increment, minDate: Date, maxDate: Date): (r: Option<Span>)
    ensures r.Some? <==> inc != AllTime
  {
    if inc == AllTime then None
    else if Before(s.start, MinStart(inc, minDate)) then
      var start := MinStart(inc, minDate);
      Some(Span(start, AddIncrement(inc, start).value))
    else if After(s.end, MaxEnd(inc, maxDate).value) then
      var end := MaxEnd(inc, maxDate).value;
      Some(Span(SubtractIncrement(inc, end).value, end))
    else Some(s)
  }

  /** The range one increment later, if its end stays within the latest end; none when nothing moves. */
  function NextSpan(s: Span, inc: Increment, maxDate: Date): (r: Option<Span>)
    ensures r.Some? ==> inc != AllTime && !After(r.value.end, MaxEnd(inc, maxDate).value)
  {
    if inc == AllTime then None
    else
      var end := AddIncrement(inc, s.end).value;
      if !After(end, MaxEnd(inc, maxDate).value) then Some(Span(AddIncrement(inc, s.start).value, end))
      else None
  }

  /** The range one increment earlier, if its start stays at or after the earliest start; none when nothing moves. */
  function PrevSpan(s: Span, inc: Increment, minDate: Date): (r: Option<Span>)
    ensures r.Some? ==> inc != AllTime && !Before(r.value.start, MinStart(inc, minDate))
  {
    if inc == AllTime then None
    else
      var start := SubtractIncrement(inc, s.start).value;
      if !Before(start, MinStart(inc, minDate)) then Some(Span(start, SubtractIncrement(inc, s.end).value))
      else None
  }

  /** The all-time range as written: it ends at the upper limit, which the range excludes. */
  function AllTimeSpanAsWritten(minDate: Date, maxDate: Date): (r: Span)
    ensures r.start == minDate && r.end == maxDate
  {
    Span(minDate, maxDate)
  }

  /** The all-time range: from the lower limit through the upper limit, so it ends the day after. */
  function AllTimeSpan(minDate: Date, maxDate: Date): (r: Span)
    ensures r.start == minDate && DayNumber(r.end) == DayNumber(maxDate) + 1
  {
    Span(minDate, NextDay(maxDate))
  }

  /** Clamping keeps a whole-bucket range whole. */
  lemma ClampWhole(s: Span, inc: Increment, minDate: Date, maxDate: Date)
    requires Whole(inc, s) && inc != AllTime
    ensures Whole(inc, Clamp(s, inc, minDate, maxDate).value)
  {
    if Before(s.start, MinStart(inc, minDate)) {
      FirstDayIdempotent(inc, minDate);
    } else if After(s.end, MaxEnd(inc, maxDate).value) {
      FirstDayIdempotent(inc, maxDate);
      IncrementRoundTrip(inc, FirstDayInIncrement(inc, maxDate));
    }
  }

  /** Clamping a range whose start and end are both within the limits changes nothing. */
  lemma ClampWithin(s: Span, inc: Increment, minDate: Date, maxDate: Date)
    requires inc != AllTime
    ensures !Before(s.start, MinStart(inc, minDate)) && !After(s.end, MaxEnd(inc, maxDate).value) <==>
              Clamp(s, inc, minDate, maxDate) == Some(s)
  {
    if Before(s.start, MinStart(inc, minDate)) {
      FirstDayIdempotent(inc, minDate);
      IncrementDirection(inc, MinStart(inc, minDate));
      assert Clamp(s, inc, minDate, maxDate).value.start == MinStart(inc, minDate) != s.start;
    } else if After(s.end, MaxEnd(inc, maxDate).value) {
      assert Clamp(s, inc, minDate, maxDate).value.end == MaxEnd(inc, maxDate).value != s.end;
    }
  }

  /** Moving forward keeps a whole-bucket range whole, and moves it later. */
  lemma NextWhole(s: Span, inc: Increment, maxDate: Date)
    requires Whole(inc, s) && NextSpan(s, inc, maxDate).Some?
    ensures Whole(inc, NextSpan(s, inc, maxDate).value)
    ensures After(NextSpan(s, inc, maxDate).value.start, s.start)
  {
    IncrementRoundTrip(inc, s.start);
    IncrementDirection(inc, s.start);
  }

  /** Moving back keeps a whole-bucket range whole, and moves it earlier. */
  lemma PrevWhole(s: Span, inc: Increment, minDate: Date)
    requires Whole(inc, s) && PrevSpan(s, inc, minDate).Some?
    ensures Whole(inc, PrevSpan(s, inc, minDate).value)
    ensures Before(PrevSpan(s, inc, minDate).value.start, s.start)
  {
    IncrementRoundTrip(inc, s.start);
    IncrementDirection(inc, s.start);
    var p := SubtractIncrement(inc, s.start).value;
    IncrementRoundTrip(inc, p);
  }

  /** From a whole range within the lower limit, moving forward then back returns to it. */
  lemma NextThenPrev(s: Span, inc: Increment, minDate: Date, maxDate: Date)
    requires Whole(inc, s) && !Before(s.start, MinStart(inc, minDate))
    requires NextSpan(s, inc, maxDate).Some?
    ensures PrevSpan(NextSpan(s, inc, maxDate).value, inc, minDate) == Some(s)
  {
    IncrementRoundTrip(inc, s.start);
    IncrementRoundTrip(inc, s.end);
  }

  /** From a whole range within the upper limit, moving back then forward returns to it. */
  lemma PrevThenNext(s: Span, inc: Increment, minDate: Date, maxDate: Date)
    requires Whole(inc, s) && inc != AllTime && !After(s.end, MaxEnd(inc, maxDate).value)
    requires PrevSpan(s, inc, minDate).Some?
    ensures NextSpan(PrevSpan(s, inc, minDate).value, inc, maxDate) == Some(s)
  {
    IncrementRoundTrip(inc, s.start);
    var p := SubtractIncrement(inc, s.start).value;
    IncrementRoundTrip(inc, p);
  }

  /** The picker's state: the selected range, the increment and the limits. */
  class Picker {
    var startDate: Date
    var endDate: Date
    var inc: Increment
    var minDate: Date
    var maxDate: Date

    /** The selected range. */
    function Range(): Span
      reads this
    {
      Span(startDate, endDate)
    }

    /** The selected range is one whole bucket (outside all time). */
    predicate Valid()
      reads this
    {
      Whole(inc, Range())
    }

    /** The current month, with no limits yet (both at the zero date). */
    constructor (today: Date)
      ensures startDate == FirstDayOfMonth(today) && endDate == AddMonths(startDate, 1)
      ensures inc == Monthly && minDate == maxDate == CivilDate(1, 1, 1)
      ensures Valid()
    {
      startDate := FirstDayOfMonth(today);
      endDate := AddMonths(FirstDayOfMonth(today), 1);
      inc := Monthly;
      minDate := CivilDate(1, 1, 1);
      maxDate := CivilDate(1, 1, 1);
      new;
      assert FirstDayOfMonth(startDate) == startDate;
    }

    /** Pulls the range back within the limits; false for all time, where the source panics. */
    method ClampToLimits() returns (ok: bool)
      modifies this`startDate, this`endDate
      ensures ok <==> inc != AllTime
      ensures ok ==> Range() == Clamp(old(Range()), inc, minDate, maxDate).value
      ensures !ok ==> Range() == old(Range())
      ensures old(Valid()) ==> Valid()
    {
      var minStart := FirstDayInIncrement(inc, minDate);
      if Before(startDate, minStart) {
        var end := AddIncrement(inc, minStart);
        if end.None? {
          return false;
        }
        startDate := minStart;
        endDate := end.value;
      } else {
        var maxEnd := AddIncrement(inc, FirstDayInIncrement(inc, maxDate));
        if maxEnd.None? {
          return false;
        }
        if After(endDate, maxEnd.value) {
          endDate := maxEnd.value;
          startDate := SubtractIncrement(inc, maxEnd.value).value;
        }
      }
      ok := true;
      if old(Valid()) {
        ClampWhole(old(Range()), inc, minDate, maxDate);
      }
    }

    /** Stores the limits, then clamps; false for all time, where the source panics. */
    method SetLimits(lo: Date, hi: Date) returns (ok: bool)
      modifies this`minDate, this`maxDate, this`startDate, this`endDate
      ensures minDate == lo && maxDate == hi
      ensures ok <==> inc != AllTime
      ensures ok ==> Range() == Clamp(old(Range()), inc, lo, hi).value
      ensures !ok ==> Range() == old(Range())
      ensures old(Valid()) ==> Valid()
    {
      minDate := lo;
      maxDate := hi;
      ok := ClampToLimits();
    }

    /** Moves the range one increment later, unless that passes the latest end; says whether it moved. */
    method Next() returns (moved: bool)
      modifies this`startDate, this`endDate
      ensures moved <==> NextSpan(old(Range()), inc, maxDate).Some?
      ensures moved ==> Range() == NextSpan(old(Range()), inc, maxDate).value
      ensures !moved ==> Range() == old(Range())
    {
      if inc == AllTime {
        return false;
      }
      var nextEnd := AddIncrement(inc, endDate).value;
      var maxEnd := MaxEnd(inc, maxDate).value;
      if !After(nextEnd, maxEnd) {
        var nextStart := AddIncrement(inc, startDate).value;
        assert NextSpan(Range(), inc, maxDate) == Some(Span(nextStart, nextEnd));
        startDate, endDate := nextStart, nextEnd;
        moved := true;
      } else {
        assert NextSpan(Range(), inc, maxDate) == None;
        moved := false;
      }
    }

    /** Moves the range one increment earlier, unless that passes the earliest start; says whether it moved. */
    method Prev() returns (moved: bool)
      modifies this`startDate, this`endDate
      ensures moved <==> PrevSpan(old(Range()), inc, minDate).Some?
      ensures moved ==> Range() == PrevSpan(old(Range()), inc, minDate).value
      ensures !moved ==> Range() == old(Range())
    {
      if inc == AllTime {
        return false;
      }
      var prevStart := SubtractIncrement(inc, startDate).value;
      var minStart := MinStart(inc, minDate);
      if !Before(prevStart, minStart) {
        var prevEnd := SubtractIncrement(inc, endDate).value;
        assert PrevSpan(Range(), inc, minDate) == Some(Span(prevStart, prevEnd));
        startDate, endDate := prevStart, prevEnd;
        moved := true;
      } else {
        assert PrevSpan(Range(), inc, minDate) == None;
        moved := false;
      }
    }

    /**
     * Switches the increment: all time selects every date from minDate
     * through maxDate; any other
     * snaps the start to its bucket, makes the range one increment long and
     * clamps it. The same increment changes nothing.
     * For all time this departs from the Go code, whose exclusive end is
     * maxDate itself and so drops the last day (AllTimeSpanAsWritten,
     * AppModel.AllTimeDropsLastDay); here the end is the day after maxDate.
     */
    method UpdateIncrement(newInc: Increment) returns (changed: bool)
      modifies this`inc, this`startDate, this`endDate
      ensures changed <==> newInc != old(inc)
      ensures inc == newInc
      ensures !changed ==> Range() == old(Range())
      ensures changed && newInc == AllTime ==> Range() == AllTimeSpan(minDate, maxDate)
      ensures changed && newInc != AllTime ==> Range() == Clamp(Bucket(newInc, old(startDate)), newInc, minDate, maxDate).value
      ensures changed ==> Valid()
    {
      if inc == newInc {
        return false;
      }
      inc := newInc;
      if inc == AllTime {
        startDate := minDate;
        endDate := NextDay(maxDate);
      } else {
        SelectBucket(startDate);
      }
      changed := true;
    }

    /** Selects the bucket of `d`, one increment long, then clamps it. */
    method SelectBucket(d: Date)
      requires inc != AllTime
      modifies this`startDate, this`endDate
      ensures Range() == Clamp(Bucket(inc, d), inc, minDate, maxDate).value
      ensures Valid()
    {
      StartBucket(d);
      var ok := ClampToLimits();
    }

    /** Selects the bucket of `d`, one increment long. */
    method StartBucket(d: Date)
      requires inc != AllTime
      modifies this`startDate, this`endDate
      ensures Range() == Bucket(inc, d)
      ensures Valid()
    {
      startDate := FirstDayInIncrement(inc, d);
      endDate := AddIncrement(inc, startDate).value;
      BucketWhole(inc, d);
    }

    /** Selects the bucket of `today` (the source reads the clock), clamped; all time changes nothing. */
    method Reset(today: Date) returns (changed: bool)
      modifies this`startDate, this`endDate
      ensures changed <==> inc != AllTime
      ensures !changed ==> Range() == old(Range())
      ensures changed ==> Range() == Clamp(Bucket(inc, today), inc, minDate, maxDate).value
      ensures changed ==> Valid()
    {
      if inc == AllTime {
        return false;
      }
      SelectBucket(today);
      changed := true;
    }
  }
}
