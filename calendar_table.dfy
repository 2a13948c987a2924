/**
 * The full calendar table: the month grid with a working-day total per month
 * and a grand total row. This table uses three holiday keywords and counts a
 * recorded day by its date's weekday and its holiday test only.
 */
module CalendarTable {
  import opened Wrappers
  import opened Text
  import opened Types
  import opened Calendar
  import opened DayRules
  import opened Views

  /**
   * The test of the loop in `getWorkingDaysCount(monthId)`: skip Saturdays
   * and Sundays (a date that does not parse is neither), skip holidays,
   * count the rest.
   */
  predicate TableWorking(d: Day) {
    !IsWeekend(WeekdayOf(d.date)) && !IsHoliday(Some(d), HolidayKeys)
  }

  /** `getWorkingDaysCount(monthId)`: a `for` loop over the month's recorded days with two `continue`s. */
  method WorkingDaysOfMonth(days: seq<Day>, monthId: string) returns (count: nat)
    ensures count == Count(MonthDays(days, monthId), TableWorking)
    ensures count <= |MonthDays(days, monthId)|
  {
    var monthDays := MonthDays(days, monthId);
    count := 0;
    for i := 0 to |monthDays|
      invariant count == Count(monthDays[..i], TableWorking)
    {
      CountStep(monthDays, i, TableWorking);
      var day := monthDays[i];
      var dayOfWeek := WeekdayOf(day.date);
      if dayOfWeek == Some(0) || dayOfWeek == Some(6) {
        // a weekend date
      } else if IsHoliday(Some(day), HolidayKeys) {
        // a holiday
      } else {
        count := count + 1;
      }
    }
    assert monthDays[..|monthDays|] == monthDays;
  }

  /** `getWorkingDaysCount(month.id)` as a value: the count the method computes. */
  function MonthTotal(days: seq<Day>, month: Month): nat {
    Count(MonthDays(days, month.id), TableWorking)
  }

  /** `yearMonths.reduce((sum, month) => sum + getWorkingDaysCount(month.id), sum)`, a left fold. */
  function ReduceTotal(yearMonths: seq<Month>, days: seq<Day>, sum: nat): nat
    decreases |yearMonths|
  {
    if |yearMonths| == 0 then sum
    else ReduceTotal(yearMonths[1..], days, sum + MonthTotal(days, yearMonths[0]))
  }

  /** The grand total cell: the fold started at 0. */
  function GrandTotal(yearMonths: seq<Month>, days: seq<Day>): nat {
    ReduceTotal(yearMonths, days, 0)
  }

  lemma {:induction false} ReduceIsYearCount(yearMonths: seq<Month>, days: seq<Day>, sum: nat)
    ensures ReduceTotal(yearMonths, days, sum) == sum + YearCount(yearMonths, days, TableWorking)
    decreases |yearMonths|
  {
    if |yearMonths| > 0 {
      YearCountFront(yearMonths, days, TableWorking);
      ReduceIsYearCount(yearMonths[1..], days, sum + MonthTotal(days, yearMonths[0]));
    }
  }

  /**
   * The grand total is the sum, month by month, of the totals shown in the
   * last column, and so never more than the recorded days of those months.
   */
  lemma GrandTotalIsSumOfRows(yearMonths: seq<Month>, days: seq<Day>)
    ensures GrandTotal(yearMonths, days) == YearCount(yearMonths, days, TableWorking)
    ensures GrandTotal(yearMonths, days) <= RecordedDays(yearMonths, days)
  {
    ReduceIsYearCount(yearMonths, days, 0);
    YearCountBound(yearMonths, days, TableWorking);
  }

  /**
   * A counted day is painted as an activity or a working day, and a recorded
   * Monday..Friday painted so is counted.
   */
  lemma CountedIffWeekdayNotHolidayCell(d: Day, w: nat)
    requires WeekdayOf(d.date) == Some(w)
    ensures TableWorking(d) <==>
      w != 0 && w != 6 && CellStyleOf(Some(d), w, HolidayKeys) in {ActivityCell, WorkingCell}
  {
  }

  lemma SaturdayLabelIsNotAHoliday()
    ensures !ContainsAny(SaturdayLabel, HolidayKeys)
  {
    var s := SaturdayLabel;
    forall k | 0 <= k < |HolidayKeys|
      ensures !Contains(s, HolidayKeys[k])
    {
      var key := HolidayKeys[k];
      if k == 0 {
        forall i | 0 <= i <= |s| ensures !OccursAt(s, key, i) {
          if i == 0 { assert s[3] != key[3]; }
          else if i == 1 { assert s[1] != key[0]; }
        }
      } else {
        assert |key| > |s|;
      }
    }
  }

  /**
   * The table, unlike the quick calendar, counts a Monday..Friday whose
   * first entry is the Saturday label (the label is not a holiday keyword).
   */
  lemma WeekendLabelOnWeekdayCounts(d: Day, w: nat)
    requires WeekdayOf(d.date) == Some(w) && 1 <= w <= 5
    requires |d.entries| > 0 && d.entries[0].detail == SaturdayLabel
    ensures TableWorking(d) && !IsActivityDay(d)
  {
    SaturdayLabelIsNotAHoliday();
    WeekendLabelNotActivity(d, SaturdayLabel);
  }

  /** What a table cell shows; a click passes the record, and does nothing on a date without one. */
  datatype TableCellView = TableCellView(style: CellStyle, title: string, filesDot: bool, activityBadge: bool,
                                         clicked: Option<Day>)

  function TableCell(days: seq<Day>, month: Month, dayNum: nat): (r: Option<TableCellView>)
    requires 1 <= dayNum <= 31
    ensures r.Some? <==> Cell(days, month, dayNum).Some?
    ensures r.Some? ==> r.value.clicked == Cell(days, month, dayNum).value.record
    ensures r.Some? ==> var c := Cell(days, month, dayNum).value;
                        r.value.style == CellStyleOf(c.record, c.weekday, HolidayKeys)
                        && r.value.title == CellTitle(c.record, c.weekday)
                        && r.value.filesDot == HasFiles(c.record) && r.value.activityBadge == HasActivity(c.record)
    ensures r.Some? && r.value.clicked.Some? ==>
              r.value.clicked.value in days && r.value.clicked.value.monthId == month.id
              && r.value.clicked.value.date == CellDate(month.month, dayNum)
  {
    match Cell(days, month, dayNum)
    case None => None
    case Some(c) =>
      assert c.record.Some? ==> c.record.value in days by {
        if c.record.Some? { var i :| 0 <= i < |days| && days[i] == c.record.value; }
      }
      Some(TableCellView(CellStyleOf(c.record, c.weekday, HolidayKeys), CellTitle(c.record, c.weekday),
                         HasFiles(c.record), HasActivity(c.record), c.record))
  }
}
