/**
 * The side panel of the month list: the search over a month's days, the
 * request that deletes all entries of a day, and the two totals above the
 * list. Its expansion and editing state is `Editing.MonthEditor`.
 */
module SidePanel {
  import opened Wrappers
  import opened Text
  import opened Types
  import opened DayRules
  import opened Views
  import opened Editing

  /** `e.detail + ' ' + e.responsible` for every entry, in order. */
  function EntryTexts(entries: seq<DayEntry>): (r: seq<string>)
    ensures |r| == |entries|
    ensures forall i :: 0 <= i < |r| ==> r[i] == entries[i].detail + " " + entries[i].responsible
  {
    if |entries| == 0 then []
    else [entries[0].detail + " " + entries[0].responsible] + EntryTexts(entries[1..])
  }

  /** The text a search looks in: the entry texts joined by spaces (`''` without entries). */
  function SearchText(d: Day): string {
    Join(EntryTexts(d.entries), " ")
  }

  /** `detail.toLowerCase().includes(searchQuery.toLowerCase())` */
  function Matches(d: Day, query: string): (r: bool)
    ensures ToLower(query) == "" ==> r
    ensures SearchText(d) == "" ==> (r <==> query == "")
  {
    assert ToLower(query) == "" ==> OccursAt(ToLower(SearchText(d)), ToLower(query), 0);
    Contains(ToLower(SearchText(d)), ToLower(query))
  }

  /** The search test as a function of the day, for one query. */
  function MatchesQuery(query: string): Day -> bool {
    (d: Day) => Matches(d, query)
  }

  /** `filterDays(monthDays)`: a blank query keeps every day; otherwise the matching days, in order. */
  function FilterDays(monthDays: seq<Day>, query: string): (r: seq<Day>)
    ensures Trim(query) == "" ==> r == monthDays
    ensures Trim(query) != "" ==> r == Filter(monthDays, MatchesQuery(query))
    ensures Trim(query) != "" ==> forall d :: d in r <==> d in monthDays && Matches(d, query)
    ensures Trim(query) != "" ==> forall i :: 0 <= i < |r| ==> Matches(r[i], query)
    ensures |r| <= |monthDays|
  {
    if Trim(query) == "" then monthDays
    else
      var p := MatchesQuery(query);
      FilterMembers(monthDays, p);
      Filter(monthDays, p)
  }

  /** Searching two runs of days searches each run, so the matches keep their order. */
  lemma FilterDaysAppend(a: seq<Day>, b: seq<Day>, query: string)
    ensures FilterDays(a + b, query) == FilterDays(a, query) + FilterDays(b, query)
  {
    if Trim(query) != "" {
      FilterAppend(a, b, MatchesQuery(query));
    }
  }

  /** A join starts with its first part. */
  lemma JoinStartsWithHead(parts: seq<string>, sep: string)
    requires |parts| > 0
    ensures StartsWith(Join(parts, sep), parts[0])
  {
    if |parts| > 1 {
      assert Join(parts, sep) == parts[0] + (sep + Join(parts[1..], sep));
    }
  }

  /** Lower-casing keeps prefixes. */
  lemma ToLowerKeepsPrefix(s: string, prefix: string)
    requires StartsWith(s, prefix)
    ensures StartsWith(ToLower(s), ToLower(prefix))
  {
    assert ToLower(s)[..|prefix|] == ToLower(prefix);
  }

  /** Searching for the detail of a day's first entry finds that day. */
  lemma FirstDetailFindsDay(d: Day)
    requires |d.entries| > 0
    ensures Matches(d, d.entries[0].detail)
  {
    var detail := d.entries[0].detail;
    var texts := EntryTexts(d.entries);
    JoinStartsWithHead(texts, " ");
    var head := texts[0];
    assert StartsWith(head, detail) by {
      assert head == detail + (" " + d.entries[0].responsible);
    }
    var joined := SearchText(d);
    assert StartsWith(joined, detail) by {
      assert joined[..|head|] == head;
      assert joined[..|detail|] == head[..|detail|];
    }
    ToLowerKeepsPrefix(joined, detail);
    assert OccursAt(ToLower(joined), ToLower(detail), 0);
  }

  /** A day without entries matches no search that is not blank. */
  lemma NoEntriesNoMatch(d: Day, query: string)
    requires |d.entries| == 0 && Trim(query) != ""
    ensures !Matches(d, query)
  {
    assert SearchText(d) == "";
    assert |query| > 0;
  }

  /**
   * `deleteEntry(day)`: when the confirmation is accepted, the day is sent
   * with no entries and every other field kept; otherwise nothing is sent.
   */
  function DeleteRequest(day: Day, confirmed: bool): (r: Option<Day>)
    ensures r.Some? <==> confirmed
    ensures r.Some? ==> r.value.entries == [] && r.value.id == day.id && r.value.monthId == day.monthId
                        && r.value.date == day.date && r.value.attachments == day.attachments
  {
    if confirmed then Some(day.(entries := [])) else None
  }

  /** The two totals above the list. */
  datatype Stats = Stats(total: nat, withActivity: nat)

  /** One month of `getActivityStats`: its days go to the total, its activities to `withActivity`. */
  method TallyMonth(monthDays: seq<Day>, stats0: Stats) returns (stats: Stats)
    ensures stats.total == stats0.total + |monthDays|
    ensures stats.withActivity == stats0.withActivity + Count(monthDays, IsActivityDay)
  {
    var total := stats0.total + |monthDays|;
    var withActivity := stats0.withActivity;
    for i := 0 to |monthDays|
      invariant withActivity == stats0.withActivity + Count(monthDays[..i], IsActivityDay)
    {
      assert monthDays[..i + 1][..i] == monthDays[..i];
      if IsActivityDay(monthDays[i]) {
        withActivity := withActivity + 1;
      }
    }
    assert monthDays[..|monthDays|] == monthDays;
    stats := Stats(total, withActivity);
  }

  /** The body of the outer `forEach`: tallies the month's days as `getMonthDays` sorts them. */
  method AddMonth(days: seq<Day>, monthId: string, stats0: Stats) returns (stats: Stats)
    ensures stats.total == stats0.total + |MonthDays(days, monthId)|
    ensures stats.withActivity == stats0.withActivity + Count(MonthDays(days, monthId), IsActivityDay)
  {
    var monthDays := SortedMonthDays(days, monthId);
    CountPermutation(monthDays, MonthDays(days, monthId), IsActivityDay);
    stats := TallyMonth(monthDays, stats0);
  }

  /** The outer `forEach` of `getActivityStats()` over the months of the year. */
  method TallyYear(yearMonths: seq<Month>, days: seq<Day>) returns (stats: Stats)
    ensures stats == Stats(RecordedDays(yearMonths, days), YearCount(yearMonths, days, IsActivityDay))
  {
    stats := Stats(0, 0);
    for i := 0 to |yearMonths|
      invariant stats == Stats(RecordedDays(yearMonths[..i], days), YearCount(yearMonths[..i], days, IsActivityDay))
    {
      assert yearMonths[..i + 1][..i] == yearMonths[..i];
      stats := AddMonth(days, yearMonths[i].id, stats);
    }
    assert yearMonths[..|yearMonths|] == yearMonths;
  }

  /**
   * `getActivityStats()`: over the sorted days of each month of the selected
   * year, the number of days and the number of activities. Sorting changes
   * neither, so the activities are those the quick calendar counts.
   */
  method ActivityStats(months: seq<Month>, days: seq<Day>, selectedYear: string) returns (stats: Stats)
    ensures stats.total == RecordedDays(MonthsOfYear(months, selectedYear), days)
    ensures stats.withActivity == YearCount(MonthsOfYear(months, selectedYear), days, IsActivityDay)
    ensures stats.withActivity <= stats.total
  {
    stats := TallyYear(MonthsOfYear(months, selectedYear), days);
    YearCountBound(MonthsOfYear(months, selectedYear), days, IsActivityDay);
  }
}
