/**
 * The activities list: one collapsible block per month of the selected year
 * with a badge counting its activities, and one row per recorded day. Its
 * expansion and editing state is `Editing.MonthEditor`.
 */
module ActivitiesDetail {
  import opened Wrappers
  import opened Types
  import opened Calendar
  import opened DayRules
  import opened Views
  import opened Editing

  /** `getActivityCount(monthDays)`: the days `hasRealActivity` accepts (the calendars' first-entry rule). */
  function ActivityCount(monthDays: seq<Day>): (n: nat)
    ensures n == Count(monthDays, IsActivityDay)
    ensures n <= |monthDays|
  {
    |Filter(monthDays, IsActivityDay)|
  }

  /**
   * The badge of a month counts the activities of the month's recorded days
   * whatever their order, so it agrees with the month row of the quick calendar.
   */
  lemma BadgeCountsMonthActivities(days: seq<Day>, monthId: string)
    ensures ActivityCount(SortedMonthDays(days, monthId)) == Count(MonthDays(days, monthId), IsActivityDay)
    ensures ActivityCount(SortedMonthDays(days, monthId)) <= |MonthDays(days, monthId)|
  {
    CountPermutation(SortedMonthDays(days, monthId), MonthDays(days, monthId), IsActivityDay);
  }

  /** What a day row shows besides its texts. */
  datatype RowView = RowView(weekend: bool, activity: bool, editing: bool, hasAttachments: bool)

  /**
   * One row: `isWeekend` is `dayOfWeek === 0 || dayOfWeek === 6` (a date
   * that does not parse is neither), and the row is in edit mode only for
   * an administrator editing that very day.
   */
  function Row(day: Day, editingDay: Option<string>, isAdmin: bool): (r: RowView)
    ensures r.weekend <==> WeekdayOf(day.date) == Some(0) || WeekdayOf(day.date) == Some(6)
    ensures r.activity <==> IsActivityDay(day)
    ensures r.editing <==> isAdmin && editingDay == Some(day.id)
    ensures r.hasAttachments <==> |AttachmentsOf(day)| > 0
  {
    var dayOfWeek := WeekdayOf(day.date);
    RowView(dayOfWeek == Some(0) || dayOfWeek == Some(6), IsActivityDay(day),
            editingDay == Some(day.id) && isAdmin, |AttachmentsOf(day)| > 0)
  }
}
