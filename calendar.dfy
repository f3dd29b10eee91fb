/**
 * Calendar arithmetic of the weekly timesheet: which Monday a date belongs to,
 * moving a week forwards or backwards, and the week range the server uses.
 *
 * A date is a day number: day 0 is 1970-01-01, a Thursday.  Dafny's `%` is
 * Euclidean, so the weekday formulas below also hold before 1970.
 */
module Calendar {
  import opened Basics

  const SecondsPerDay: int := 86400

  /** `Date.getDay()`: 0 is Sunday, 1 is Monday, ..., 6 is Saturday. */
  function JsWeekday(day: int): (w: nat)
    ensures w < 7
  {
    (day + 4) % 7
  }

  /** Python's `date.weekday()`: 0 is Monday, ..., 6 is Sunday. */
  function PyWeekday(day: int): (w: nat)
    ensures w < 7
  {
    (day + 3) % 7
  }

  /** The two weekday numberings name the same day of the week. */
  lemma WeekdaysAgree(day: int)
    ensures PyWeekday(day) == (JsWeekday(day) + 6) % 7
    ensures JsWeekday(day) == 1 <==> PyWeekday(day) == 0
  {
  }

  /**
   * The Monday of the week holding `day`, counting Sunday as the last day of
   * the week (moving back six days from a Sunday).
   */
  function GetWeekStart(day: int): (r: int)
    ensures JsWeekday(r) == 1
    ensures r <= day <= r + 6
  {
    var w := JsWeekday(day);
    day - w + (if w == 0 then -6 else 1)
  }

  /** There is exactly one Monday within six days before (or on) any date. */
  lemma WeekStartUnique(day: int, monday: int)
    requires JsWeekday(monday) == 1 && monday <= day <= monday + 6
    ensures monday == GetWeekStart(day)
  {
    var r := GetWeekStart(day);
    assert (monday - r) % 7 == 0;
  }

  /** Taking the week start of a Monday gives the same Monday. */
  lemma WeekStartOfMonday(day: int)
    requires JsWeekday(day) == 1
    ensures GetWeekStart(day) == day
  {
    WeekStartUnique(day, day);
  }

  lemma WeekStartIdempotent(day: int)
    ensures GetWeekStart(GetWeekStart(day)) == GetWeekStart(day)
  {
    WeekStartOfMonday(GetWeekStart(day));
  }

  /** The previous (direction -1) or next (direction 1) week from the shown start date. */
  function NavigateWeek(start: int, direction: int): (r: int)
    ensures JsWeekday(r) == 1
  {
    GetWeekStart(start + 7 * direction)
  }

  /** From a Monday, navigating moves exactly `7 * direction` days. */
  lemma NavigateFromMonday(start: int, direction: int)
    requires JsWeekday(start) == 1
    ensures NavigateWeek(start, direction) == start + 7 * direction
  {
    assert JsWeekday(start + 7 * direction) == 1;
    WeekStartOfMonday(start + 7 * direction);
  }

  /** Going forward one week and back again returns to the week start. */
  lemma NavigateThereAndBack(start: int)
    ensures NavigateWeek(NavigateWeek(start, 1), -1) == GetWeekStart(start)
  {
    var next := NavigateWeek(start, 1);
    NavigateFromMonday(next, -1);
    WeekStartUnique(start + 7, next);
    WeekStartUnique(start, next - 7);
  }

  /** The server's current week start: today minus its Python weekday. */
  function PyWeekStart(today: int): (r: int)
    ensures PyWeekday(r) == 0
    ensures r <= today <= r + 6
  {
    today - PyWeekday(today)
  }

  /** The browser and the server agree on the Monday of every date. */
  lemma SameWeekStart(day: int)
    ensures PyWeekStart(day) == GetWeekStart(day)
  {
    WeekdaysAgree(PyWeekStart(day));
    WeekStartUnique(day, PyWeekStart(day));
  }

  /**
   * The week the server reads: the given start date, or the current week's
   * Monday when none is given, through six days later.
   */
  function WeekRange(startDate: Option<int>, today: int): (r: (int, int))
    ensures r.1 == r.0 + 6
    ensures startDate.Some? ==> r.0 == startDate.value
    ensures startDate.None? ==> PyWeekday(r.0) == 0 && r.0 <= today <= r.1
  {
    var start := if startDate.Some? then startDate.value else PyWeekStart(today);
    (start, start + 6)
  }

  /** Without a start date the server's week is the one the browser shows for today. */
  lemma DefaultWeekIsBrowserWeek(today: int)
    ensures WeekRange(None, today).0 == GetWeekStart(today)
  {
    SameWeekStart(today);
  }
}
