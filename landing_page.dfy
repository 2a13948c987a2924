/**
 * The landing page statistics: the days of the selected year, how many carry
 * an activity or a holiday in ANY entry (not only the first), and the first
 * five recent activities with their dates.
 */
module LandingPage {
  import opened Wrappers
  import opened Text
  import opened Types
  import opened Calendar
  import opened ThaiDates
  import opened DayRules
  import opened Views

  /** `yearMonths.some((m) => m.id === d.monthId)` */
  predicate InYear(yearMonths: seq<Month>, d: Day) {
    exists i :: 0 <= i < |yearMonths| && yearMonths[i].id == d.monthId
  }

  /** `days.filter((d) => yearMonths.some(…))`, in the order of `days`. */
  function YearDays(days: seq<Day>, yearMonths: seq<Month>): (r: seq<Day>)
    ensures |r| <= |days|
    ensures forall d :: d in r <==> d in days && InYear(yearMonths, d)
  {
    if |days| == 0 then []
    else
      var init, last := days[..|days| - 1], days[|days| - 1];
      assert days == init + [last];
      YearDays(init, yearMonths) + (if InYear(yearMonths, last) then [last] else [])
  }

  /** Filtering two runs of days filters each run, so the year's days keep the order of `days`. */
  lemma {:induction false} YearDaysAppend(a: seq<Day>, b: seq<Day>, yearMonths: seq<Month>)
    ensures YearDays(a + b, yearMonths) == YearDays(a, yearMonths) + YearDays(b, yearMonths)
    decreases |b|
  {
    if |b| == 0 {
      assert a + b == a;
    } else {
      var b0, x := b[..|b| - 1], b[|b| - 1];
      assert (a + b)[..|a + b| - 1] == a + b0;
      assert (a + b)[|a + b| - 1] == x;
      YearDaysAppend(a, b0, yearMonths);
    }
  }

  /** An entry that counts as an activity: a non-empty detail with no weekend label. */
  predicate ActivityEntry(e: DayEntry) {
    e.detail != "" && !HasWeekendLabel(e.detail)
  }

  predicate HasActivityEntry(d: Day) {
    exists i :: 0 <= i < |d.entries| && ActivityEntry(d.entries[i])
  }

  /** The eight holiday words of the landing page. */
  const HolidayWords: seq<string> :=
    HolidayKeys + ["วันขึ้นปีใหม่", "วันสงกรานต์", "มาฆบูชา", "วิสาขบูชา", "อาสาฬหบูชา"]

  predicate HolidayEntry(e: DayEntry) {
    e.detail != "" && ContainsAny(e.detail, HolidayWords)
  }

  predicate HasHolidayEntry(d: Day) {
    exists i :: 0 <= i < |d.entries| && HolidayEntry(d.entries[i])
  }

  /** An entry that makes a day a recent activity: an activity entry without `วันหยุด`. */
  predicate RecentEntry(e: DayEntry) {
    ActivityEntry(e) && !Contains(e.detail, ShortHolidayKeys[0])
  }

  predicate HasRecentEntry(d: Day) {
    exists i :: 0 <= i < |d.entries| && RecentEntry(d.entries[i])
  }

  /** `totalActivities` */
  function TotalActivities(yearDays: seq<Day>): (r: nat)
    ensures r == Count(yearDays, HasActivityEntry) && r <= |yearDays|
    ensures r == 0 <==> forall i :: 0 <= i < |yearDays| ==> !HasActivityEntry(yearDays[i])
  {
    CountZeroIff(yearDays, HasActivityEntry);
    |Filter(yearDays, HasActivityEntry)|
  }

  /** `totalHolidays` */
  function TotalHolidays(yearDays: seq<Day>): (r: nat)
    ensures r == Count(yearDays, HasHolidayEntry) && r <= |yearDays|
    ensures r == 0 <==> forall i :: 0 <= i < |yearDays| ==> !HasHolidayEntry(yearDays[i])
  {
    CountZeroIff(yearDays, HasHolidayEntry);
    |Filter(yearDays, HasHolidayEntry)|
  }

  /** `entries.find(…)`: the first activity entry. */
  function FirstActivityEntry(entries: seq<DayEntry>): (r: Option<DayEntry>)
    ensures r.None? <==> forall i :: 0 <= i < |entries| ==> !ActivityEntry(entries[i])
    ensures r.Some? ==> ActivityEntry(r.value)
                        && exists i :: 0 <= i < |entries| && entries[i] == r.value
                                       && forall j :: 0 <= j < i ==> !ActivityEntry(entries[j])
  {
    if |entries| == 0 then None
    else if ActivityEntry(entries[0]) then Some(entries[0])
    else
      var r := FirstActivityEntry(entries[1..]);
      assert forall i :: 1 <= i < |entries| ==> entries[i] == entries[1..][i - 1];
      assert r.Some? ==> exists i :: 0 <= i < |entries| && entries[i] == r.value
                                     && forall j :: 0 <= j < i ==> !ActivityEntry(entries[j]) by {
        if r.Some? {
          var i :| 0 <= i < |entries[1..]| && entries[1..][i] == r.value
                   && forall j :: 0 <= j < i ==> !ActivityEntry(entries[1..][j]);
          assert entries[i + 1] == r.value;
        }
      }
      r
  }

  datatype RecentItem = RecentItem(date: string, detail: string, responsible: string)

  /** `{ date, detail: entry?.detail || '', responsible: entry?.responsible || '' }` */
  function RecentOf(d: Day): RecentItem {
    match FirstActivityEntry(d.entries)
    case Some(e) => RecentItem(d.date, e.detail, e.responsible)
    case None => RecentItem(d.date, "", "")
  }

  const MaxRecent: nat := 5

  /** `recentActivities`: the first five days with a recent entry, each shown by its first activity entry. */
  function RecentActivities(yearDays: seq<Day>): (r: seq<RecentItem>)
    ensures |r| <= MaxRecent
    ensures |r| == (if |Filter(yearDays, HasRecentEntry)| <= MaxRecent then |Filter(yearDays, HasRecentEntry)|
                    else MaxRecent)
    ensures forall i :: 0 <= i < |r| ==> r[i] == RecentOf(Filter(yearDays, HasRecentEntry)[i])
    ensures forall i :: 0 <= i < |r| ==> r[i].detail != "" && !HasWeekendLabel(r[i].detail)
  {
    var chosen := Take(Filter(yearDays, HasRecentEntry), MaxRecent);
    seq(|chosen|, i requires 0 <= i < |chosen| => RecentOf(chosen[i]))
  }

  /** There are never more recent activities than days counted as activities. */
  lemma RecentWithinActivities(yearDays: seq<Day>)
    ensures |RecentActivities(yearDays)| <= TotalActivities(yearDays)
  {
    forall i | 0 <= i < |yearDays| && HasRecentEntry(yearDays[i])
      ensures HasActivityEntry(yearDays[i])
    {
      var j :| 0 <= j < |yearDays[i].entries| && RecentEntry(yearDays[i].entries[j]);
    }
    CountMonotone(yearDays, HasRecentEntry, HasActivityEntry);
  }

  /** A day the calendar table paints as a holiday is counted among the holidays here. */
  lemma TableHolidayIsCounted(d: Day)
    requires IsHoliday(Some(d), HolidayKeys)
    ensures HasHolidayEntry(d)
  {
    var detail := d.entries[0].detail;
    ContainsAnyPrefix(detail, HolidayKeys, HolidayWords[|HolidayKeys|..]);
    assert HolidayKeys + HolidayWords[|HolidayKeys|..] == HolidayWords;
    var k :| 0 <= k < |HolidayKeys| && Contains(detail, HolidayKeys[k]);
    var i :| 0 <= i <= |detail| && OccursAt(detail, HolidayKeys[k], i);
    assert |HolidayKeys[k]| > 0;
    assert HolidayEntry(d.entries[0]);
  }

  /** `formatDate`: '' for a missing date, else day, abbreviated month and the year plus 543. */
  function FormatDate(date: string): Option<string> {
    if date == "" then Some("") else DateLabel(date, ShortMonthNames, "")
  }

  /** A missing date prints as nothing; a written date prints with its own day, month and year. */
  lemma FormatDates(d: Date)
    requires ValidDate(d) && d.year < 10000
    ensures FormatDate("") == Some("")
    ensures FormatDate(IsoString(d)) == Some(NatToString(d.day) + " " + ShortMonthNames[d.month - 1] + " "
                                              + NatToString(d.year + BuddhistEraOffset))
  {
    PartsOfIso(d);
    assert |IsoString(d)| == 10;
    var head := NatToString(d.day) + " " + ShortMonthNames[d.month - 1] + " ";
    assert head + "" == head;
    assert Label(d, ShortMonthNames, "") == head + NatToString(d.year + BuddhistEraOffset);
  }

  const MaxShownDetail: nat := 40

  /** The detail line of a recent activity: cut at 40 characters with `...`. */
  function ShownDetail(item: RecentItem): (r: string)
    ensures |item.detail| <= MaxShownDetail ==> r == item.detail
    ensures |item.detail| > MaxShownDetail ==> |r| == MaxShownDetail + 3 && StartsWith(r, item.detail[..MaxShownDetail])
                                               && r[MaxShownDetail..] == "..."
  {
    Truncate(item.detail, MaxShownDetail)
  }
}
