/**
 * The scrolling news line: for each month of the selected year and each day
 * recorded for it, the first entry's detail becomes an item unless it is a
 * weekend label; at most 20 items are kept and shown twice in a row.
 */
module Marquee {
  import opened Wrappers
  import opened Text
  import opened Types
  import opened Calendar
  import opened ThaiDates
  import opened DayRules
  import opened Views

  datatype ItemType = ActivityItem | HolidayItem | SpecialItem

  /** `date` is None where the source prints `NaN`/`undefined` for a date that does not split into numbers. */
  datatype MarqueeItem = MarqueeItem(date: Option<string>, text: string, itemType: ItemType)

  const SpecialKeys: seq<string> := ["พิเศษ", "สำคัญ"]
  const MaxItems: nat := 20
  const MaxText: nat := 50

  /** The type of an item: holiday keywords first, then the special keywords, else an activity. */
  function TypeOf(detail: string): (t: ItemType)
    ensures t == HolidayItem <==> ContainsAny(detail, HolidayKeys)
    ensures t == SpecialItem <==> !ContainsAny(detail, HolidayKeys) && ContainsAny(detail, SpecialKeys)
    ensures t == ActivityItem <==> !ContainsAny(detail, HolidayKeys) && !ContainsAny(detail, SpecialKeys)
  {
    if ContainsAny(detail, HolidayKeys) then HolidayItem
    else if ContainsAny(detail, SpecialKeys) then SpecialItem
    else ActivityItem
  }

  /** `${parseInt(dayNum)} ${abbreviation} ${year + 543}` */
  function DateText(date: string): (r: Option<string>)
    ensures r.Some? <==> ParseDateParts(date).Some?
    ensures r.Some? ==> r.value == Label(ParseDateParts(date).value, ShortMonthNames, "")
  {
    DateLabel(date, ShortMonthNames, "")
  }

  /** The item one recorded day contributes, if any. */
  function ItemOf(d: Day): (r: Option<MarqueeItem>)
    ensures r.Some? <==> IsActivityDay(d)
    ensures r.Some? ==> r.value.text == d.entries[0].detail && r.value.date == DateText(d.date)
  {
    if |d.entries| > 0 && !HasWeekendLabel(d.entries[0].detail) then
      var detail := d.entries[0].detail;
      Some(MarqueeItem(DateText(d.date), detail, TypeOf(detail)))
    else None
  }

  /** The items of one month's days, in day order. */
  function DayItems(ds: seq<Day>): seq<MarqueeItem> {
    if |ds| == 0 then []
    else
      var last := ItemOf(ds[|ds| - 1]);
      DayItems(ds[..|ds| - 1]) + (if last.Some? then [last.value] else [])
  }

  /** Every item before the cap: month order, then the order of the month's recorded days. */
  function AllItems(yearMonths: seq<Month>, days: seq<Day>): seq<MarqueeItem> {
    if |yearMonths| == 0 then []
    else AllItems(yearMonths[..|yearMonths| - 1], days) + DayItems(MonthDays(days, yearMonths[|yearMonths| - 1].id))
  }

  /** The inner `monthDays.forEach`: pushes the items of one month. */
  method PushMonth(monthDays: seq<Day>, items0: seq<MarqueeItem>) returns (items: seq<MarqueeItem>)
    ensures items == items0 + DayItems(monthDays)
  {
    items := items0;
    for i := 0 to |monthDays|
      invariant items == items0 + DayItems(monthDays[..i])
    {
      assert monthDays[..i + 1][..i] == monthDays[..i];
      var day := monthDays[i];
      if |day.entries| > 0 {
        var detail := day.entries[0].detail;
        var dateStr := DateText(day.date);
        var itemType := ActivityItem;
        if ContainsAny(detail, HolidayKeys) {
          itemType := HolidayItem;
        } else if ContainsAny(detail, SpecialKeys) {
          itemType := SpecialItem;
        }
        if !HasWeekendLabel(detail) {
          items := items + [MarqueeItem(dateStr, detail, itemType)];
        }
      }
    }
    assert monthDays[..|monthDays|] == monthDays;
  }

  /** The outer `forEach` over the months of the year: every item, before the cap. */
  method PushYear(yearMonths: seq<Month>, days: seq<Day>) returns (all: seq<MarqueeItem>)
    ensures all == AllItems(yearMonths, days)
  {
    all := [];
    for i := 0 to |yearMonths|
      invariant all == AllItems(yearMonths[..i], days)
    {
      assert yearMonths[..i + 1][..i] == yearMonths[..i];
      all := PushMonth(MonthDays(days, yearMonths[i].id), all);
    }
    assert yearMonths[..|yearMonths|] == yearMonths;
  }

  /** `getMarqueeItems()`: the items of the selected year's months, cut to the first 20. */
  method MarqueeItems(months: seq<Month>, days: seq<Day>, selectedYear: string) returns (items: seq<MarqueeItem>)
    ensures items == Take(AllItems(MonthsOfYear(months, selectedYear), days), MaxItems)
  {
    var all := PushYear(MonthsOfYear(months, selectedYear), days);
    items := Take(all, MaxItems);
  }

  /** A month contributes one item per day the calendars count as an activity. */
  lemma {:induction false} DayItemsCount(ds: seq<Day>)
    ensures |DayItems(ds)| == Count(ds, IsActivityDay)
  {
    if |ds| > 0 {
      DayItemsCount(ds[..|ds| - 1]);
    }
  }

  lemma {:induction false} AllItemsCount(yearMonths: seq<Month>, days: seq<Day>)
    ensures |AllItems(yearMonths, days)| == YearCount(yearMonths, days, IsActivityDay)
  {
    if |yearMonths| > 0 {
      AllItemsCount(yearMonths[..|yearMonths| - 1], days);
      DayItemsCount(MonthDays(days, yearMonths[|yearMonths| - 1].id));
    }
  }

  /**
   * The line shows as many items as the quick calendar counts activities,
   * up to 20.
   */
  lemma ShownItemsAreActivities(months: seq<Month>, days: seq<Day>, selectedYear: string)
    ensures var n := YearCount(MonthsOfYear(months, selectedYear), days, IsActivityDay);
            |Take(AllItems(MonthsOfYear(months, selectedYear), days), MaxItems)| == if n < MaxItems then n else MaxItems
  {
    AllItemsCount(MonthsOfYear(months, selectedYear), days);
  }

  /** An item of the line never carries a weekend label, and its type is the type of its text. */
  predicate WellTyped(item: MarqueeItem) {
    !HasWeekendLabel(item.text) && item.itemType == TypeOf(item.text)
  }

  lemma {:induction false} DayItemsWellTyped(ds: seq<Day>)
    ensures forall i :: 0 <= i < |DayItems(ds)| ==> WellTyped(DayItems(ds)[i])
  {
    if |ds| > 0 {
      DayItemsWellTyped(ds[..|ds| - 1]);
    }
  }

  lemma {:induction false} AllItemsWellTyped(yearMonths: seq<Month>, days: seq<Day>)
    ensures forall i :: 0 <= i < |AllItems(yearMonths, days)| ==> WellTyped(AllItems(yearMonths, days)[i])
  {
    if |yearMonths| > 0 {
      AllItemsWellTyped(yearMonths[..|yearMonths| - 1], days);
      DayItemsWellTyped(MonthDays(days, yearMonths[|yearMonths| - 1].id));
    }
  }

  datatype Icon = Beach | Star | Pin

  function IconOf(t: ItemType): (r: Icon)
    ensures r == Beach <==> t == HolidayItem
    ensures r == Star <==> t == SpecialItem
    ensures r == Pin <==> t == ActivityItem
  {
    match t
    case HolidayItem => Beach
    case SpecialItem => Star
    case ActivityItem => Pin
  }

  /** One rendered item: its icon, its date and its text cut at 50 characters. */
  datatype Shown = Shown(icon: Icon, date: Option<string>, text: string)

  function ShownOf(item: MarqueeItem): Shown {
    Shown(IconOf(item.itemType), item.date, Truncate(item.text, MaxText))
  }

  /**
   * Nothing is rendered without items; otherwise the items are rendered
   * twice in a row for seamless scrolling, texts cut at 50 characters.
   */
  function View(items: seq<MarqueeItem>): (r: Option<seq<Shown>>)
    ensures r.None? <==> |items| == 0
    ensures r.Some? ==> |r.value| == 2 * |items|
    ensures r.Some? ==> forall i :: 0 <= i < |items| ==>
                          r.value[i] == ShownOf(items[i]) && r.value[|items| + i] == ShownOf(items[i])
    ensures r.Some? ==> forall i :: 0 <= i < |r.value| ==> |r.value[i].text| <= MaxText + 3
  {
    if |items| == 0 then None
    else
      var once := seq(|items|, i requires 0 <= i < |items| => ShownOf(items[i]));
      Some(once + once)
  }
}
