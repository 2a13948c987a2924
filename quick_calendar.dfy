/**
 * The quick calendar: one row per month of the selected year, one coloured
 * cell per day of the month, and two totals (working days and activities)
 * counted by loops over the recorded days of each month.
 */
module QuickCalendar {
  import opened Wrappers
  import opened Text
  import opened Types
  import opened Calendar
  import opened DayRules
  import opened Views

  /** The four labels that keep a recorded day with entries out of the working-day total. */
  const WorkingExclusions: seq<string> := [SundayLabel, SaturdayLabel] + ShortHolidayKeys

  /**
   * The test inside `getWorkingDaysCount`: a day without entries counts when
   * its date is not a Saturday or Sunday (a date that does not parse is
   * neither); a day with entries counts when its first detail contains none
   * of the four labels.
   */
  predicate CountsAsWorking(d: Day) {
    if |d.entries| == 0 then !IsWeekend(WeekdayOf(d.date))
    else !ContainsAny(d.entries[0].detail, WorkingExclusions)
  }

  /** Containing one of the four labels is containing a weekend label or a holiday keyword. */
  lemma ExclusionsSplit(s: string)
    ensures ContainsAny(s, WorkingExclusions) <==> HasWeekendLabel(s) || ContainsAny(s, ShortHolidayKeys)
  {
    if ContainsAny(s, WorkingExclusions) {
      var k :| 0 <= k < |WorkingExclusions| && Contains(s, WorkingExclusions[k]);
      if k == 0 { assert WeekendLabels[1] == WorkingExclusions[k]; }
      else if k == 1 { assert WeekendLabels[0] == WorkingExclusions[k]; }
      else { assert ShortHolidayKeys[k - 2] == WorkingExclusions[k]; }
    }
    if HasWeekendLabel(s) {
      var k :| 0 <= k < |WeekendLabels| && Contains(s, WeekendLabels[k]);
      assert WorkingExclusions[1 - k] == WeekendLabels[k];
    }
    if ContainsAny(s, ShortHolidayKeys) {
      var k :| 0 <= k < |ShortHolidayKeys| && Contains(s, ShortHolidayKeys[k]);
      assert WorkingExclusions[k + 2] == ShortHolidayKeys[k];
    }
  }

  /**
   * A recorded day with entries counts as a working day exactly when its
   * cell is painted as an activity (not a holiday, no weekend label).
   */
  lemma WorkingWithEntriesIsActivityCell(d: Day, w: nat)
    requires |d.entries| > 0
    ensures CountsAsWorking(d) <==> CellStyleOf(Some(d), w, ShortHolidayKeys) == ActivityCell
  {
    ExclusionsSplit(d.entries[0].detail);
  }

  /**
   * A recorded day without entries counts exactly when its cell is painted
   * as a working day (its date is a Monday..Friday).
   */
  lemma WorkingWithoutEntriesIsWorkingCell(d: Day, w: nat)
    requires |d.entries| == 0 && WeekdayOf(d.date) == Some(w)
    ensures CountsAsWorking(d) <==> CellStyleOf(Some(d), w, ShortHolidayKeys) == WorkingCell
  {
  }

  /** The inner `monthDays.forEach`: adds the days of one month that satisfy `p`. */
  method CountMonth(monthDays: seq<Day>, p: Day -> bool, count0: nat) returns (count: nat)
    ensures count == count0 + Count(monthDays, p)
  {
    count := count0;
    for i := 0 to |monthDays|
      invariant count == count0 + Count(monthDays[..i], p)
    {
      assert monthDays[..i + 1][..i] == monthDays[..i];
      if p(monthDays[i]) {
        count := count + 1;
      }
    }
    assert monthDays[..|monthDays|] == monthDays;
  }

  /**
   * The loops of `getActivityCount` and `getWorkingDaysCount`: for each month
   * of the selected year, for each day recorded for it, count the days that
   * satisfy the rule.
   */
  method CountYear(months: seq<Month>, days: seq<Day>, selectedYear: string, p: Day -> bool) returns (count: nat)
    ensures count == YearCount(MonthsOfYear(months, selectedYear), days, p)
  {
    var yearMonths := MonthsOfYear(months, selectedYear);
    count := 0;
    for i := 0 to |yearMonths|
      invariant count == YearCount(yearMonths[..i], days, p)
    {
      assert yearMonths[..i + 1][..i] == yearMonths[..i];
      count := CountMonth(MonthDays(days, yearMonths[i].id), p, count);
    }
    assert yearMonths[..|yearMonths|] == yearMonths;
  }

  /** `getActivityCount`: never more than the recorded days of the selected year's months. */
  method ActivityCount(months: seq<Month>, days: seq<Day>, selectedYear: string) returns (count: nat)
    ensures count == YearCount(MonthsOfYear(months, selectedYear), days, IsActivityDay)
    ensures count <= RecordedDays(MonthsOfYear(months, selectedYear), days)
  {
    count := CountYear(months, days, selectedYear, IsActivityDay);
    YearCountBound(MonthsOfYear(months, selectedYear), days, IsActivityDay);
  }

  /** `getWorkingDaysCount`: dates without a record are never visited, so they never count. */
  method WorkingDaysCount(months: seq<Month>, days: seq<Day>, selectedYear: string) returns (count: nat)
    ensures count == YearCount(MonthsOfYear(months, selectedYear), days, CountsAsWorking)
    ensures count <= RecordedDays(MonthsOfYear(months, selectedYear), days)
  {
    count := CountYear(months, days, selectedYear, CountsAsWorking);
    YearCountBound(MonthsOfYear(months, selectedYear), days, CountsAsWorking);
  }

  /** `getDaysInMonth(month.month)`: `new Date(y, m, 0).getDate()` for a `yyyy-MM` value. */
  function DaysInMonthOf(monthValue: string): (r: Option<nat>)
    ensures r.Some? ==> 28 <= r.value <= 31
    ensures r.Some? <==> ParseYearMonth(monthValue).Some?
  {
    match ParseYearMonth(monthValue)
    case Some((y, m)) => Some(DaysInMonth(y, m))
    case None => None
  }

  /** The day handed to `onDayClick` for a date without a record. */
  function Placeholder(month: Month, date: string): (d: Day)
    ensures d.id == "temp-" + date && d.monthId == month.id && d.date == date
    ensures d.entries == [] && d.attachments == Some([])
  {
    Day("temp-" + date, month.id, date, [], Some([]))
  }

  /** What a quick-calendar cell shows, and the day its click passes on. */
  datatype QuickCellView = QuickCellView(style: CellStyle, title: string, badge: bool, clicked: Day)

  /** The cell for `dayNum` in the row of `month`; None is the empty grey cell. */
  function QuickCell(days: seq<Day>, month: Month, dayNum: nat): (r: Option<QuickCellView>)
    requires 1 <= dayNum <= 31
    ensures r.Some? <==> Cell(days, month, dayNum).Some?
    ensures r.Some? ==> var c := Cell(days, month, dayNum).value;
                        r.value.style == CellStyleOf(c.record, c.weekday, ShortHolidayKeys)
                        && r.value.title == CellTitle(c.record, c.weekday)
                        && r.value.badge == (HasFiles(c.record) || HasActivity(c.record))
  {
    match Cell(days, month, dayNum)
    case None => None
    case Some(c) =>
      Some(QuickCellView(CellStyleOf(c.record, c.weekday, ShortHolidayKeys),
                         CellTitle(c.record, c.weekday),
                         HasFiles(c.record) || HasActivity(c.record),
                         if c.record.Some? then c.record.value else Placeholder(month, c.date)))
  }

  /**
   * Only day numbers within the month's Gregorian length give a cell, and
   * every such day number gives one.
   */
  lemma CellIffDayOfMonth(days: seq<Day>, month: Month, dayNum: nat)
    requires 1 <= dayNum <= 31 && DaysInMonthOf(month.month).Some?
    ensures QuickCell(days, month, dayNum).Some? <==> dayNum <= DaysInMonthOf(month.month).value
  {
  }

  /**
   * A click passes the first record of the cell's date in this month, or,
   * when there is none, a placeholder dated to the cell with no entries and
   * no attachments; either way the day passed is dated to the cell.
   */
  lemma ClickedDay(days: seq<Day>, month: Month, dayNum: nat)
    requires 1 <= dayNum <= 31 && QuickCell(days, month, dayNum).Some?
    ensures var c := Cell(days, month, dayNum).value;
            var d := QuickCell(days, month, dayNum).value.clicked;
            d.monthId == month.id && d.date == CellDate(month.month, dayNum)
            && (c.record.Some? ==> d == c.record.value && d in days)
            && (c.record.None? ==> d == Placeholder(month, c.date) && |AttachmentsOf(d)| == 0)
  {
    var c := Cell(days, month, dayNum).value;
    if c.record.Some? {
      var i :| 0 <= i < |days| && days[i] == c.record.value;
    }
  }

  /** A placeholder is coloured, titled and badged like a date with no record. */
  lemma PlaceholderLooksUnrecorded(month: Month, date: string, w: nat)
    requires w < 7
    ensures var p := Some(Placeholder(month, date));
            CellStyleOf(p, w, ShortHolidayKeys) == CellStyleOf(None, w, ShortHolidayKeys)
            && CellTitle(p, w) == CellTitle(None, w) == DayTitle(w)
            && !HasFiles(p) && !HasActivity(p)
  {
  }
}
