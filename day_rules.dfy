/**
 * The keyword rules the calendar views share: a day is classified by the
 * detail of its FIRST entry only, by substring tests against fixed Thai labels.
 */
module DayRules {
  import opened Wrappers
  import opened Text
  import opened Types

  const SaturdayLabel: string := "วันเสาร์"
  const SundayLabel: string := "วันอาทิตย์"
  const WeekendLabels: seq<string> := [SaturdayLabel, SundayLabel]

  /** Holiday keywords of QuickCalendar and DayDetailModal. */
  const ShortHolidayKeys: seq<string> := ["วันหยุด", "ปิดราชการ"]
  /** Holiday keywords of CalendarTable and Marquee (one more: substitute holidays). */
  const HolidayKeys: seq<string> := ShortHolidayKeys + ["หยุดชดเชย"]

  /** `day?.entries?.length ? day.entries[0].detail : (no detail)` */
  function FirstDetail(d: Option<Day>): (r: Option<string>)
    ensures r.Some? <==> d.Some? && |d.value.entries| > 0
    ensures r.Some? ==> r.value == d.value.entries[0].detail
  {
    match d
    case Some(day) => if |day.entries| > 0 then Some(day.entries[0].detail) else None
    case None => None
  }

  predicate HasWeekendLabel(detail: string) {
    ContainsAny(detail, WeekendLabels)
  }

  /** `hasActivity`: there is a first entry and it carries no weekend label. */
  function HasActivity(d: Option<Day>): (r: bool)
    ensures r <==> d.Some? && |d.value.entries| > 0
                   && forall k :: 0 <= k < |WeekendLabels| ==> !Contains(d.value.entries[0].detail, WeekendLabels[k])
  {
    match FirstDetail(d)
    case Some(detail) => !HasWeekendLabel(detail)
    case None => false
  }

  /** `hasActivity(day)` for a recorded day. */
  function IsActivityDay(d: Day): (r: bool)
    ensures r <==> |d.entries| > 0 && !HasWeekendLabel(d.entries[0].detail)
  {
    HasActivity(Some(d))
  }

  /** `isHoliday`: there is a first entry and it contains one of `keys`. */
  function IsHoliday(d: Option<Day>, keys: seq<string>): (r: bool)
    ensures r <==> d.Some? && |d.value.entries| > 0
                   && exists k :: 0 <= k < |keys| && Contains(d.value.entries[0].detail, keys[k])
  {
    match FirstDetail(d)
    case Some(detail) => ContainsAny(detail, keys)
    case None => false
  }

  /** Only the first entry matters: days that agree on it classify alike. */
  lemma FirstEntryDecides(d1: Day, d2: Day, keys: seq<string>)
    requires |d1.entries| > 0 && |d2.entries| > 0 && d1.entries[0].detail == d2.entries[0].detail
    ensures HasActivity(Some(d1)) == HasActivity(Some(d2))
    ensures IsHoliday(Some(d1), keys) == IsHoliday(Some(d2), keys)
  {
  }

  /** Any key list containing a key also matches what that key matches. */
  lemma ContainsAnyPrefix(s: string, keys: seq<string>, more: seq<string>)
    requires ContainsAny(s, keys)
    ensures ContainsAny(s, keys + more)
  {
    var k :| 0 <= k < |keys| && Contains(s, keys[k]);
    assert (keys + more)[k] == keys[k];
  }

  /** A day QuickCalendar calls a holiday is a holiday for CalendarTable too. */
  lemma ShortHolidayIsHoliday(d: Option<Day>)
    requires IsHoliday(d, ShortHolidayKeys)
    ensures IsHoliday(d, HolidayKeys)
  {
    ContainsAnyPrefix(FirstDetail(d).value, ShortHolidayKeys, ["หยุดชดเชย"]);
  }

  /** A first detail that is a weekend label is never an activity. */
  lemma WeekendLabelNotActivity(d: Day, tag: string)
    requires |d.entries| > 0 && tag in WeekendLabels && d.entries[0].detail == tag
    ensures !HasActivity(Some(d))
  {
    ContainsSelf(tag);
    assert WeekendLabels[if tag == SaturdayLabel then 0 else 1] == tag;
  }

  /** The five cell colours of the calendar grids. */
  datatype CellStyle = HolidayCell | ActivityCell | SundayCell | SaturdayCell | WorkingCell

  /**
   * `getCellStyle(day, dayOfWeek)`: exactly one style, by the priority
   * holiday > activity > Sunday > Saturday > working day.
   */
  function CellStyleOf(d: Option<Day>, dayOfWeek: nat, keys: seq<string>): (r: CellStyle)
    ensures r == HolidayCell <==> IsHoliday(d, keys)
    ensures r == ActivityCell <==> !IsHoliday(d, keys) && HasActivity(d)
    ensures r == SundayCell <==> !IsHoliday(d, keys) && !HasActivity(d) && dayOfWeek == 0
    ensures r == SaturdayCell <==> !IsHoliday(d, keys) && !HasActivity(d) && dayOfWeek == 6
    ensures r == WorkingCell <==> !IsHoliday(d, keys) && !HasActivity(d) && dayOfWeek != 0 && dayOfWeek != 6
  {
    if IsHoliday(d, keys) then HolidayCell
    else if HasActivity(d) then ActivityCell
    else if dayOfWeek == 0 then SundayCell
    else if dayOfWeek == 6 then SaturdayCell
    else WorkingCell
  }

  /** A date without a record is coloured by its weekday alone. */
  lemma UnrecordedCellIsWeekdayColour(dayOfWeek: nat, keys: seq<string>)
    ensures CellStyleOf(None, dayOfWeek, keys) ==
      (if dayOfWeek == 0 then SundayCell else if dayOfWeek == 6 then SaturdayCell else WorkingCell)
  {
  }
}
