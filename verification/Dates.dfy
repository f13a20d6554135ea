/** Calendar windows for relative dates (semantic/dates.py). */
module Dates {

  /** A date and time of the Gregorian calendar; `second` counts within the day. */
  datatype Moment = Moment(year: int, month: int, day: int, second: int)

  predicate Proper(m: Moment) {
    1 <= m.month <= 12 && 1 <= m.day <= 31 && 0 <= m.second < 86_400
  }

  predicate Earlier(a: Moment, b: Moment) {
    || a.year < b.year
    || (a.year == b.year &&
        (a.month < b.month ||
         (a.month == b.month && (a.day < b.day || (a.day == b.day && a.second < b.second)))))
  }

  predicate AtMost(a: Moment, b: Moment) {
    a == b || Earlier(a, b)
  }

  function MonthStart(m: Moment): Moment {
    Moment(m.year, m.month, 1, 0)
  }

  function AddMonth(year: int, month: int, delta: int): (int, int) {
    var index := year * 12 + (month - 1) + delta;
    (index / 12, index % 12 + 1)
  }

  function QuarterOf(month: int): int {
    (month - 1) / 3
  }

  /** Months since year 0. */
  function MonthIndex(m: Moment): int {
    m.year * 12 + (m.month - 1)
  }

  /** Adding months yields a proper month, counts months exactly, and composes. */
  lemma AddMonthComposes(year: int, month: int, a: int, b: int)
    requires 1 <= month <= 12
    ensures 1 <= AddMonth(year, month, a).1 <= 12
    ensures AddMonth(year, month, a).0 * 12 + AddMonth(year, month, a).1 - 1 == year * 12 + month - 1 + a
    ensures AddMonth(AddMonth(year, month, a).0, AddMonth(year, month, a).1, b) == AddMonth(year, month, a + b)
    ensures AddMonth(year, month, 0) == (year, month)
  {
  }

  // ----- completed months, quarters and years -----

  datatype Period = Month | Quarter | Year

  function Months(period: Period): int {
    match period
    case Month => 1
    case Quarter => 3
    case Year => 12
  }

  /** A window, its start included and its end not. */
  datatype Window = Window(start: Moment, end: Moment)

  function LastQuarter(now: Moment): Window {
    var current := Moment(now.year, QuarterOf(now.month) * 3 + 1, 1, 0);
    var (year, month) := AddMonth(current.year, current.month, -3);
    Window(Moment(year, month, 1, 0), current)
  }

  function LastMonth(now: Moment): Window {
    var (year, month) := AddMonth(now.year, now.month, -1);
    Window(Moment(year, month, 1, 0), MonthStart(now))
  }

  function LastYear(now: Moment): Window {
    Window(Moment(now.year - 1, 1, 1, 0), Moment(now.year, 1, 1, 0))
  }

  function LastCompleted(period: Period, now: Moment): Window {
    match period
    case Month => LastMonth(now)
    case Quarter => LastQuarter(now)
    case Year => LastYear(now)
  }

  /** A moment a period begins at. */
  predicate IsPeriodStart(period: Period, m: Moment) {
    && 1 <= m.month <= 12 && m.day == 1 && m.second == 0
    && match period
       case Month => true
       case Quarter => m.month in {1, 4, 7, 10}
       case Year => m.month == 1
  }

  /** The last completed period is one whole period: it begins and ends at period starts, is exactly
      one period long, ends at or before now, and less than one period before it. */
  lemma CompletedPeriod(period: Period, now: Moment)
    requires Proper(now)
    ensures var w := LastCompleted(period, now);
      && IsPeriodStart(period, w.start) && IsPeriodStart(period, w.end)
      && MonthIndex(w.end) == MonthIndex(w.start) + Months(period)
      && Earlier(w.start, w.end) && AtMost(w.end, now)
      && MonthIndex(now) < MonthIndex(w.end) + Months(period)
  {
    AddMonthComposes(now.year, now.month, -1, 0);
    AddMonthComposes(now.year, QuarterOf(now.month) * 3 + 1, -3, 0);
  }

  /** These properties leave only one window. */
  lemma CompletedUnique(period: Period, now: Moment, w: Window)
    requires Proper(now)
    requires IsPeriodStart(period, w.start) && IsPeriodStart(period, w.end)
    requires MonthIndex(w.end) == MonthIndex(w.start) + Months(period)
    requires AtMost(w.end, now) && MonthIndex(now) < MonthIndex(w.end) + Months(period)
    ensures w == LastCompleted(period, now)
  {
    CompletedPeriod(period, now);
    AtMostIndex(w.end, now);
    AtMostIndex(LastCompleted(period, now).end, now);
    SameStart(period, w.end, LastCompleted(period, now).end);
    SameStart(period, w.start, LastCompleted(period, now).start);
  }

  /** Two period starts less than a period apart are the same. */
  lemma SameStart(period: Period, a: Moment, b: Moment)
    requires IsPeriodStart(period, a) && IsPeriodStart(period, b)
    requires -Months(period) < MonthIndex(a) - MonthIndex(b) < Months(period)
    ensures a == b
  {
  }

  lemma AtMostIndex(a: Moment, b: Moment)
    requires AtMost(a, b) && 1 <= a.month <= 12 && 1 <= b.month <= 12
    ensures MonthIndex(a) <= MonthIndex(b)
  {
  }

  /** Windows chain: seen from its own start, the window before ends exactly there. */
  lemma WindowsChain(period: Period, now: Moment)
    requires Proper(now)
    ensures var w := LastCompleted(period, now);
      LastCompleted(period, w.start).end == w.start && LastCompleted(period, w.end) == w
  {
    var w := LastCompleted(period, now);
    CompletedPeriod(period, now);
    CompletedPeriod(period, w.start);
    CompletedPeriod(period, w.end);
    CompletedUnique(period, w.end, w);
    CompletedUnique(period, w.start, LastCompleted(period, w.start));
    match period
    case Month =>
    case Quarter =>
    case Year =>
  }

  /** The windows fit into each other: the last completed quarter is three months in a row, the last
      completed year four quarters. */
  lemma WindowsNest(now: Moment)
    requires Proper(now)
    ensures var q := LastQuarter(now);
      && LastMonth(q.end).end == q.end
      && LastMonth(LastMonth(LastMonth(q.end).start).start).start == q.start
    ensures var y := LastYear(now);
      && LastQuarter(y.end).end == y.end
      && LastQuarter(LastQuarter(LastQuarter(LastQuarter(y.end).start).start).start).start == y.start
  {
    var y := LastYear(now);
    var fourth := LastQuarter(y.end);
    assert fourth == Window(Moment(y.start.year, 10, 1, 0), y.end);
    var third := LastQuarter(fourth.start);
    assert third == Window(Moment(y.start.year, 7, 1, 0), fourth.start);
    var second := LastQuarter(third.start);
    assert second == Window(Moment(y.start.year, 4, 1, 0), third.start);
  }

  // ----- weeks, on day numbers -----

  /** Monday is 0; day 1 is a Monday. */
  function Weekday(day: int): int {
    (day + 6) % 7
  }

  function LastWeek(day: int): (int, int) {
    var current := day - Weekday(day);
    (current - 7, current)
  }

  /** The last completed week: Monday to Monday (a whole number of weeks from day 1), ended by today, begun
      less than two weeks ago, and chaining with the week before. */
  lemma CompletedWeek(day: int)
    ensures var (start, end) := LastWeek(day);
      && (start - 1) % 7 == 0 && (end - 1) % 7 == 0 && end == start + 7
      && end <= day < end + 7
      && LastWeek(start).1 == start
  {
  }
}
