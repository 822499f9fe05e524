/**
 * Calendar days as integers: the weekday and year of a day, and the
 * Monday-to-Friday count that both the server and the browser use to
 * price a leave request.
 */
module Calendar {

  /** A calendar day, counted from 1970-01-01 (day 0). */
  type Day = int

  const Sunday := 0
  const Saturday := 6

  /** Day of the week as Go's time.Weekday and JavaScript's getDay number it
      (0 is Sunday, 6 is Saturday). 1970-01-01 was a Thursday. */
  function Weekday(d: Day): int
  {
    (d + 4) % 7
  }

  predicate IsWorkingDay(d: Day)
  {
    Weekday(d) != Saturday && Weekday(d) != Sunday
  }

  /** The number of Monday-to-Friday days in the inclusive range [start, end];
      0 when end is before start. */
  function WorkingDays(start: Day, end: Day): nat
    decreases end - start
  {
    if end < start then 0
    else WorkingDays(start, end - 1) + (if IsWorkingDay(end) then 1 else 0)
  }

  predicate IsLeapYear(y: int)
  {
    y % 4 == 0 && (y % 100 != 0 || y % 400 == 0)
  }

  function DaysInYear(y: int): int
  {
    if IsLeapYear(y) then 366 else 365
  }

  /** The year of the day that lies `offset` days after January 1 of year `y`. */
  function YearFrom(offset: int, y: int): int
    decreases if offset < 0 then 1 else 0, if offset < 0 then -offset else offset
  {
    if offset < 0 then YearFrom(offset + DaysInYear(y - 1), y - 1)
    else if offset < DaysInYear(y) then y
    else YearFrom(offset - DaysInYear(y), y + 1)
  }

  /** The (proleptic Gregorian) year that day d falls in. */
  function YearOf(d: Day): int
  {
    YearFrom(d, 1970)
  }

  /** A range never has more working days than calendar days. */
  lemma {:induction false} WorkingDaysAtMostCalendarDays(start: Day, end: Day)
    requires start <= end
    ensures WorkingDays(start, end) <= end - start + 1
    decreases end - start
  {
    if start < end {
      WorkingDaysAtMostCalendarDays(start, end - 1);
    }
  }

  /** Counting is additive over adjacent ranges. */
  lemma {:induction false} WorkingDaysSplit(start: Day, mid: Day, end: Day)
    requires start - 1 <= mid <= end
    ensures WorkingDays(start, end) == WorkingDays(start, mid) + WorkingDays(mid + 1, end)
    decreases end - mid
  {
    if mid < end {
      WorkingDaysSplit(start, mid, end - 1);
    }
  }

  /** The weekday advances by one each day, wrapping from Saturday to Sunday. */
  lemma NextWeekday(d: Day)
    ensures Weekday(d + 1) == if Weekday(d) == Saturday then Sunday else Weekday(d) + 1
  {
  }

  /** Any seven consecutive days hold exactly five working days. */
  lemma {:induction false} FullWeekHasFiveWorkingDays(start: Day)
    ensures WorkingDays(start, start + 6) == 5
  {
    NextWeekday(start);
    NextWeekday(start + 1);
    NextWeekday(start + 2);
    NextWeekday(start + 3);
    NextWeekday(start + 4);
    NextWeekday(start + 5);
    assert WorkingDays(start, start - 1) == 0;
    assert WorkingDays(start, start) == WorkingDays(start, start - 1) + (if IsWorkingDay(start) then 1 else 0);
    assert WorkingDays(start, start + 1) == WorkingDays(start, start) + (if IsWorkingDay(start + 1) then 1 else 0);
    assert WorkingDays(start, start + 2) == WorkingDays(start, start + 1) + (if IsWorkingDay(start + 2) then 1 else 0);
    assert WorkingDays(start, start + 3) == WorkingDays(start, start + 2) + (if IsWorkingDay(start + 3) then 1 else 0);
    assert WorkingDays(start, start + 4) == WorkingDays(start, start + 3) + (if IsWorkingDay(start + 4) then 1 else 0);
    assert WorkingDays(start, start + 5) == WorkingDays(start, start + 4) + (if IsWorkingDay(start + 5) then 1 else 0);
    assert WorkingDays(start, start + 6) == WorkingDays(start, start + 5) + (if IsWorkingDay(start + 6) then 1 else 0);
  }

  /** Any three consecutive days hold a working day: a weekend is two days long. */
  lemma {:induction false} ThreeDaysHoldAWorkingDay(start: Day)
    ensures WorkingDays(start, start + 2) >= 1
  {
    assert WorkingDays(start, start - 1) == 0;
    assert WorkingDays(start, start) == WorkingDays(start, start - 1) + (if IsWorkingDay(start) then 1 else 0);
    assert WorkingDays(start, start + 1) == WorkingDays(start, start) + (if IsWorkingDay(start + 1) then 1 else 0);
    assert WorkingDays(start, start + 2) == WorkingDays(start, start + 1) + (if IsWorkingDay(start + 2) then 1 else 0);
  }

  /** A non-empty range with no working day lies inside one weekend: it is at
      most two days long and its first and last days are not working days. */
  lemma {:induction false} NoWorkingDaysOnlyInsideAWeekend(start: Day, end: Day)
    requires start <= end && WorkingDays(start, end) == 0
    ensures end - start <= 1
    ensures !IsWorkingDay(start) && !IsWorkingDay(end)
  {
    if end - start >= 2 {
      WorkingDaysSplit(start, start + 2, end);
      ThreeDaysHoldAWorkingDay(start);
      assert false;
    }
    WorkingDaysSplit(start, start, end);
    assert WorkingDays(start, start) == WorkingDays(start, start - 1) + (if IsWorkingDay(start) then 1 else 0);
  }
}
