/**
 * The home page: the date labels of the selected year's range, and the
 * state its handlers change (the selected day, month and weekday, which of
 * the day dialogs is open, and the attachment gallery).
 */
module HomePage {
  import opened Wrappers
  import opened Text
  import opened Types
  import opened Calendar
  import opened ThaiDates
  import opened AttachmentGallery

  /** `formatDate`: '' for no date, else the day, the full month name and the year plus 543, with no era marker. */
  function FormatDate(date: string): (r: Option<string>)
    ensures date == "" ==> r == Some("")
    ensures date != "" ==> r == DateLabel(date, FullMonthNames, "")
  {
    if date == "" then Some("") else DateLabel(date, FullMonthNames, "")
  }

  /** A written date prints with its own day (no leading zero), full month name and Buddhist year. */
  lemma FormatDates(d: Date)
    requires ValidDate(d) && d.year < 10000
    ensures FormatDate(IsoString(d)) == Some(NatToString(d.day) + " " + FullMonthNames[d.month - 1] + " "
                                              + NatToString(d.year + BuddhistEraOffset))
  {
    PartsOfIso(d);
    assert |IsoString(d)| == 10;
    var head := NatToString(d.day) + " " + FullMonthNames[d.month - 1] + " ";
    assert head + "" == head;
    assert Label(d, FullMonthNames, "") == head + NatToString(d.year + BuddhistEraOffset);
  }

  /** `years.find((y) => y.id === selectedYear)` */
  function SelectedYearData(years: seq<Year>, selectedYear: string): (r: Option<Year>)
    ensures r.None? <==> forall i :: 0 <= i < |years| ==> years[i].id != selectedYear
    ensures r.Some? ==> r.value in years && r.value.id == selectedYear
    ensures r.Some? ==> exists i :: 0 <= i < |years| && years[i] == r.value
                                    && forall j :: 0 <= j < i ==> years[j].id != selectedYear
  {
    if |years| == 0 then None
    else if years[0].id == selectedYear then Some(years[0])
    else
      var r := SelectedYearData(years[1..], selectedYear);
      if r.Some? then
        ghost var i :| 0 <= i < |years[1..]| && years[1..][i] == r.value
                       && forall j :: 0 <= j < i ==> years[1..][j].id != selectedYear;
        assert years[i + 1] == r.value;
        assert forall j :: 0 <= j < i + 1 ==> years[j].id != selectedYear by {
          forall j | 0 < j < i + 1 ensures years[j].id != selectedYear {
            assert years[j] == years[1..][j - 1];
          }
        }
        r
      else None
  }

  /** The range under the title: the formatted start and end dates of the selected year, blank without one. */
  function YearRange(years: seq<Year>, selectedYear: string): (r: (Option<string>, Option<string>))
    ensures SelectedYearData(years, selectedYear).None? ==> r == (Some(""), Some(""))
    ensures SelectedYearData(years, selectedYear).Some? ==>
              r == (FormatDate(SelectedYearData(years, selectedYear).value.startDate),
                    FormatDate(SelectedYearData(years, selectedYear).value.endDate))
  {
    match SelectedYearData(years, selectedYear)
    case Some(y) => (FormatDate(y.startDate), FormatDate(y.endDate))
    case None => (FormatDate(""), FormatDate(""))
  }

  /** Clicking a day of a written date records that date's weekday (0 is Sunday). */
  lemma ClickedWeekday(d: Date)
    requires ValidDate(d) && d.year < 10000
    ensures WeekdayOf(IsoString(d)) == Some(Weekday(d))
  {
    IsoRoundTrip(d);
  }

  /**
   * The page's own state. `selectedDayOfWeek` is None for NaN (a date that
   * does not parse); the gallery is the one mounted gallery.
   */
  class Page {
    var selectedDay: Option<Day>
    var selectedMonth: Option<Month>
    var selectedDayOfWeek: Option<nat>
    var showDayDetail: bool
    var showDayEdit: bool
    const gallery: Gallery

    /** At most one of the two day dialogs is open. */
    predicate OneDayDialog()
      reads this
    {
      !(showDayDetail && showDayEdit)
    }

    /** The initial state: nothing selected, weekday 0, every dialog closed. */
    constructor ()
      ensures selectedDay == None && selectedMonth == None && selectedDayOfWeek == Some(0)
      ensures !showDayDetail && !showDayEdit && OneDayDialog()
      ensures fresh(gallery) && gallery.attachments == [] && !gallery.isOpen && gallery.selected == 0
    {
      selectedDay := None;
      selectedMonth := None;
      selectedDayOfWeek := Some(0);
      showDayDetail := false;
      showDayEdit := false;
      gallery := new Gallery();
    }

    /**
     * `handleDayClick(day, month)`: the day, its month and its weekday are
     * recorded and the detail dialog opens for everyone; the edit dialog is
     * not touched (it covers the calendar while open).
     */
    method DayClick(day: Day, month: Month)
      modifies this
      ensures selectedDay == Some(day) && selectedMonth == Some(month)
      ensures selectedDayOfWeek == WeekdayOf(day.date)
      ensures showDayDetail && showDayEdit == old(showDayEdit)
      ensures !old(showDayEdit) ==> OneDayDialog()
    {
      selectedDay := Some(day);
      selectedMonth := Some(month);
      selectedDayOfWeek := WeekdayOf(day.date);
      showDayDetail := true;
    }

    /** `handleEditDay`: the detail dialog gives way to the edit dialog for the same day. */
    method EditDay()
      modifies this
      ensures !showDayDetail && showDayEdit && OneDayDialog()
      ensures selectedDay == old(selectedDay) && selectedMonth == old(selectedMonth)
      ensures selectedDayOfWeek == old(selectedDayOfWeek)
    {
      showDayDetail := false;
      showDayEdit := true;
    }

    /** The detail dialog's `onClose`. */
    method CloseDayDetail()
      modifies this
      ensures !showDayDetail && showDayEdit == old(showDayEdit) && OneDayDialog()
      ensures selectedDay == old(selectedDay) && selectedMonth == old(selectedMonth)
      ensures selectedDayOfWeek == old(selectedDayOfWeek)
    {
      showDayDetail := false;
    }

    /** The edit dialog's `onClose`. */
    method CloseDayEdit()
      modifies this
      ensures !showDayEdit && showDayDetail == old(showDayDetail) && OneDayDialog()
      ensures selectedDay == old(selectedDay) && selectedMonth == old(selectedMonth)
      ensures selectedDayOfWeek == old(selectedDayOfWeek)
    {
      showDayEdit := false;
    }

    /**
     * The detail dialog's edit button: its handlers run in the order the
     * dialog calls them, `onClose` (here `CloseDayDetail`) and then `onEdit`
     * (`handleEditDay`), leaving only the edit dialog open.
     */
    method PressEditButton()
      modifies this
      ensures !showDayDetail && showDayEdit && OneDayDialog()
      ensures selectedDay == old(selectedDay) && selectedMonth == old(selectedMonth)
      ensures selectedDayOfWeek == old(selectedDayOfWeek)
    {
      CloseDayDetail();
      EditDay();
    }

    /** `handleViewAttachments(list)`, with the gallery starting at the first attachment. */
    method ViewAttachments(list: seq<Attachment>)
      modifies gallery
      ensures gallery.attachments == list && gallery.isOpen && gallery.selected == 0 && gallery.Valid()
      ensures |list| > 0 ==> gallery.Current() == Some(list[0])
    {
      gallery.Open(list);
    }
  }
}
