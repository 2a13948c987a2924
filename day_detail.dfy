/**
 * The day detail dialog: what it shows for the day a calendar cell passed
 * on (heading, Buddhist-era date, type of day), and what its edit button does.
 */
module DayDetailModal {
  import opened Wrappers
  import opened Text
  import opened Types
  import opened Calendar
  import opened ThaiDates
  import opened DayRules
  import opened Views

  /** The three types the dialog names, by priority holiday > weekend > working day. */
  datatype DayType = GovernmentHoliday | WeekendDay | WorkingDay

  function DayTypeText(t: DayType): (r: string)
    ensures r == "วันหยุดราชการ" <==> t == GovernmentHoliday
    ensures r == "วันหยุดสุดสัปดาห์" <==> t == WeekendDay
    ensures r == "วันทำงาน" <==> t == WorkingDay
  {
    match t
    case GovernmentHoliday => "วันหยุดราชการ"
    case WeekendDay => "วันหยุดสุดสัปดาห์"
    case WorkingDay => "วันทำงาน"
  }

  /**
   * `isHoliday() ? … : isWeekend ? … : …`, where `isHoliday` is the first-entry
   * test with the two short keywords and `isWeekend` is `dayOfWeek` 0 or 6.
   */
  function DayTypeOf(day: Day, dayOfWeek: Option<nat>): (t: DayType)
    ensures t == GovernmentHoliday <==> IsHoliday(Some(day), ShortHolidayKeys)
    ensures t == WeekendDay <==> !IsHoliday(Some(day), ShortHolidayKeys) && IsWeekend(dayOfWeek)
    ensures t == WorkingDay <==> !IsHoliday(Some(day), ShortHolidayKeys) && !IsWeekend(dayOfWeek)
  {
    if IsHoliday(Some(day), ShortHolidayKeys) then GovernmentHoliday
    else if IsWeekend(dayOfWeek) then WeekendDay
    else WorkingDay
  }

  /** `formatDate()`: day without a leading zero, full month name, `พ.ศ.` and the year plus 543. */
  function FormatDate(date: string): (r: Option<string>)
    ensures r.Some? <==> ParseDateParts(date).Some?
    ensures r.Some? ==> r.value == Label(ParseDateParts(date).value, FullMonthNames, EraMarker)
  {
    DateLabel(date, FullMonthNames, EraMarker)
  }

  /** A date the calendar writes is labelled with its own day, month and year. */
  lemma FormatWrittenDate(d: Date)
    requires ValidDate(d) && d.year < 10000
    ensures FormatDate(IsoString(d)) == Some(NatToString(d.day) + " " + FullMonthNames[d.month - 1] + " "
                                              + EraMarker + NatToString(d.year + BuddhistEraOffset))
  {
    PartsOfIso(d);
  }

  /** Two different written dates never get the same label. */
  lemma DifferentDatesDifferentLabels(d1: Date, d2: Date)
    requires ValidDate(d1) && d1.year < 10000 && ValidDate(d2) && d2.year < 10000 && d1 != d2
    ensures FormatDate(IsoString(d1)) != FormatDate(IsoString(d2))
  {
    PartsOfIso(d1);
    PartsOfIso(d2);
    MonthTablesGood();
    if Label(d1, FullMonthNames, EraMarker) == Label(d2, FullMonthNames, EraMarker) {
      LabelInjective(d1, d2, FullMonthNames, EraMarker);
    }
  }

  /** What the open dialog shows. `heading` is None when `dayOfWeek` names no weekday. */
  datatype DetailView = DetailView(heading: Option<string>, date: Option<string>, dayType: DayType,
                                   activity: bool, hasFiles: bool, editButton: bool)

  /**
   * The dialog renders nothing unless it is open and has both a day and a
   * month; the edit button is there only for an administrator with an
   * edit handler.
   */
  function Render(isOpen: bool, day: Option<Day>, month: Option<Month>, dayOfWeek: Option<nat>,
                  isAdmin: bool, hasOnEdit: bool): (r: Option<DetailView>)
    ensures r.Some? <==> isOpen && day.Some? && month.Some?
    ensures r.Some? ==> r.value.editButton == (isAdmin && hasOnEdit)
                        && r.value.dayType == DayTypeOf(day.value, dayOfWeek)
                        && r.value.date == FormatDate(day.value.date)
                        && r.value.activity == HasActivity(day)
                        && r.value.hasFiles == (|AttachmentsOf(day.value)| > 0)
    ensures r.Some? && dayOfWeek.Some? && dayOfWeek.value < 7 ==> r.value.heading == Some(DayTitle(dayOfWeek.value))
  {
    if !isOpen || day.None? || month.None? then None
    else
      var heading := if dayOfWeek.Some? && dayOfWeek.value < 7 then Some(DayTitle(dayOfWeek.value)) else None;
      Some(DetailView(heading, FormatDate(day.value.date), DayTypeOf(day.value, dayOfWeek),
                      HasActivity(day), |AttachmentsOf(day.value)| > 0, isAdmin && hasOnEdit))
  }

  /** The dialog and the calendars agree on holidays: the type is a holiday exactly when the cell is. */
  lemma HolidayAgreesWithCell(day: Day, w: nat)
    ensures DayTypeOf(day, Some(w)) == GovernmentHoliday <==> CellStyleOf(Some(day), w, ShortHolidayKeys) == HolidayCell
  {
  }

  /** A Saturday or Sunday that is not a holiday is a weekend day even when it carries an activity. */
  lemma WeekendOutranksActivity(day: Day, w: nat)
    requires w == 0 || w == 6
    requires !IsHoliday(Some(day), ShortHolidayKeys)
    ensures DayTypeOf(day, Some(w)) == WeekendDay
  {
  }

  /** The handlers the edit button calls, in order. */
  datatype Action = Close | Edit

  /** Pressing the edit button: `onClose()` and then `onEdit()`. */
  function EditPressed(): (r: seq<Action>)
    ensures |r| > 0 && r[|r| - 1] == Edit && Close in r[..|r| - 1]
  {
    assert [Close, Edit][..1] == [Close];
    [Close, Edit]
  }
}
