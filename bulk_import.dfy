/**
 * The bulk import dialog (`BulkImportModal`): it walks the days of the chosen
 * months, or of a date range, labels holidays and weekends, leaves out days
 * that already exist, and sends one request per labelled day.
 */
module BulkImport {
  import opened Wrappers
  import opened Text
  import opened Types
  import opened Calendar
  import opened Sheets
  import DaysRoute
  import Views

  /** One preset of the holiday table (its URL is display-only). */
  datatype HolidayPreset = HolidayPreset(date: string, name: string, source: string)

  /** `ALL_HOLIDAYS.find(h => h.date === dateStr)` */
  function FindHoliday(table: seq<HolidayPreset>, date: string): (r: Option<HolidayPreset>)
    ensures r.Some? ==> r.value in table && r.value.date == date
    ensures r.None? ==> forall i :: 0 <= i < |table| ==> table[i].date != date
    ensures r.Some? && |table| > 0 && table[0].date == date ==> r.value == table[0]
    ensures r.Some? ==> exists i :: 0 <= i < |table| && table[i] == r.value
                          && forall j :: 0 <= j < i ==> table[j].date != date
  {
    if table == [] then None
    else if table[0].date == date then Some(table[0])
    else
      var r := FindHoliday(table[1..], date);
      assert forall i :: 1 <= i < |table| ==> table[i] == table[1..][i - 1];
      r
  }

  datatype ImportType = Daily | Weekly | Monthly | MultiMonth | Yearly

  datatype Options = Options(includeWeekends: bool, includeHolidays: bool)

  /** `days.some(d => d.monthId === monthId && d.date === dateStr)` */
  predicate DayExists(days: seq<Day>, monthId: string, date: string) {
    exists i :: 0 <= i < |days| && days[i].monthId == monthId && days[i].date == date
  }

  // ---------------------------------------------------------------- month selection

  /** The ids other than `id`, in order. */
  function Without(s: seq<string>, id: string): (r: seq<string>)
    ensures id !in r && forall x :: x != id ==> (x in r <==> x in s)
    ensures |r| <= |s|
  {
    if s == [] then [] else (if s[0] == id then [] else [s[0]]) + Without(s[1..], id)
  }

  /** `handleMonthToggle`: a selected id is removed, an unselected one is appended. */
  function Toggle(selected: seq<string>, id: string): (r: seq<string>)
    ensures id in selected ==> r == Without(selected, id)
    ensures id !in selected ==> r == selected + [id]
    ensures (id in r <==> id !in selected) && forall x :: x != id ==> (x in r <==> x in selected)
  {
    if id in selected then Without(selected, id) else selected + [id]
  }

  lemma {:induction false} WithoutAbsent(s: seq<string>, id: string)
    requires id !in s
    ensures Without(s, id) == s
  {
    if s != [] {
      WithoutAbsent(s[1..], id);
    }
  }

  lemma {:induction false} WithoutAppended(s: seq<string>, id: string)
    ensures Without(s + [id], id) == Without(s, id)
  {
    if s == [] {
      assert Without([id], id) == [] + Without([], id);
    } else {
      assert (s + [id])[1..] == s[1..] + [id];
      WithoutAppended(s[1..], id);
    }
  }

  /** Toggling an unselected month twice gives back the same selection. */
  lemma ToggleTwice(selected: seq<string>, id: string)
    requires id !in selected
    ensures Toggle(Toggle(selected, id), id) == selected
  {
    WithoutAppended(selected, id);
    WithoutAbsent(selected, id);
  }

  // ---------------------------------------------------------------- labelling

  const SundayLabel := "วันอาทิตย์"
  const SaturdayLabel := "วันเสาร์"

  function WeekendLabel(weekday: nat): string {
    if weekday == 0 then SundayLabel else if weekday == 6 then SaturdayLabel else ""
  }

  /** A date the scan looks at: the month it is filed under, its `yyyy-MM-dd` text and its weekday. */
  datatype Candidate = Candidate(monthId: string, date: string, weekday: nat)

  function HolidayFor(table: seq<HolidayPreset>, opts: Options, date: string): Option<HolidayPreset> {
    if opts.includeHolidays then FindHoliday(table, date) else None
  }

  /**
   * The detail of a day: the holiday name (with ` (source)` when creating),
   * else, with weekends included and no holiday text, the weekend label.
   */
  function Detail(c: Candidate, table: seq<HolidayPreset>, opts: Options, withSource: bool): (r: string)
    ensures HolidayFor(table, opts, c.date).Some? && (withSource || HolidayFor(table, opts, c.date).value.name != "") ==>
              r == HolidayFor(table, opts, c.date).value.name
                   + (if withSource then " (" + HolidayFor(table, opts, c.date).value.source + ")" else "")
    ensures HolidayFor(table, opts, c.date).Some? && !withSource && HolidayFor(table, opts, c.date).value.name == "" ==>
              r == (if opts.includeWeekends then WeekendLabel(c.weekday) else "")
    ensures HolidayFor(table, opts, c.date).None? ==> r == (if opts.includeWeekends then WeekendLabel(c.weekday) else "")
  {
    var h := HolidayFor(table, opts, c.date);
    var base := if h.Some? then (if withSource then h.value.name + " (" + h.value.source + ")" else h.value.name) else "";
    if opts.includeWeekends && base == "" then WeekendLabel(c.weekday) else base
  }

  /** A day gets a label exactly when it is an (included) holiday, or an included weekend day. */
  lemma LabelRule(c: Candidate, table: seq<HolidayPreset>, opts: Options, withSource: bool)
    ensures Detail(c, table, opts, withSource) != "" <==>
              (HolidayFor(table, opts, c.date).Some? && (withSource || HolidayFor(table, opts, c.date).value.name != ""))
              || (opts.includeWeekends && (c.weekday == 0 || c.weekday == 6))
  {
    var h := HolidayFor(table, opts, c.date);
    if h.Some? && withSource {
      assert |h.value.name + " (" + h.value.source + ")"| > 0;
    }
  }

  /** What the scan keeps for one day: its month, its date, its detail and (for the preview) its source. */
  datatype Planned = Planned(monthId: string, date: string, detail: string, source: string)

  function Source(c: Candidate, table: seq<HolidayPreset>, opts: Options): string {
    var h := HolidayFor(table, opts, c.date);
    if h.Some? then h.value.source else ""
  }

  /** What one candidate adds to the plan: nothing when its Day exists or no label applies. */
  function PlanTail(c: Candidate, days: seq<Day>, table: seq<HolidayPreset>, opts: Options, withSource: bool): seq<Planned> {
    if DayExists(days, c.monthId, c.date) || Detail(c, table, opts, withSource) == "" then []
    else [Planned(c.monthId, c.date, Detail(c, table, opts, withSource), Source(c, table, opts))]
  }

  /** The labelled, not yet recorded candidates, in order. */
  function PlanOf(cs: seq<Candidate>, days: seq<Day>, table: seq<HolidayPreset>, opts: Options, withSource: bool): seq<Planned> {
    if cs == [] then []
    else PlanOf(cs[..|cs| - 1], days, table, opts, withSource) + PlanTail(cs[|cs| - 1], days, table, opts, withSource)
  }

  /** The candidates that already have a Day: counted as skipped whether or not they would be labelled. */
  function SkipCount(cs: seq<Candidate>, days: seq<Day>): nat {
    if cs == [] then 0
    else SkipCount(cs[..|cs| - 1], days) + (if DayExists(days, cs[|cs| - 1].monthId, cs[|cs| - 1].date) then 1 else 0)
  }

  /** Nothing planned already exists, everything planned has a label, and planned plus skipped never exceeds the days scanned. */
  lemma {:induction false} PlanProperties(cs: seq<Candidate>, days: seq<Day>, table: seq<HolidayPreset>, opts: Options, withSource: bool)
    ensures var p := PlanOf(cs, days, table, opts, withSource);
            (forall i :: 0 <= i < |p| ==> !DayExists(days, p[i].monthId, p[i].date) && p[i].detail != "")
            && |p| + SkipCount(cs, days) <= |cs|
  {
    if cs != [] {
      PlanProperties(cs[..|cs| - 1], days, table, opts, withSource);
    }
  }

  /** `days.some(…)` as a test on one candidate. */
  function Recorded(days: seq<Day>): Candidate -> bool {
    (c: Candidate) => DayExists(days, c.monthId, c.date)
  }

  /**
   * The skip counter counts exactly the candidates whose Day already exists:
   * it is the length of the sub-list of those candidates.
   */
  lemma {:induction false} SkipCountCountsRecorded(cs: seq<Candidate>, days: seq<Day>)
    ensures SkipCount(cs, days) == |Views.Filter(cs, Recorded(days))|
    ensures forall c :: c in Views.Filter(cs, Recorded(days)) <==> c in cs && DayExists(days, c.monthId, c.date)
  {
    if cs != [] {
      SkipCountCountsRecorded(cs[..|cs| - 1], days);
    }
    Views.FilterMembers(cs, Recorded(days));
  }

  /** With an empty table of Days no candidate is recorded, so nothing is skipped. */
  lemma NothingRecordedNothingSkipped(cs: seq<Candidate>)
    ensures SkipCount(cs, []) == 0
  {
    SkipCountCountsRecorded(cs, []);
    var r := Views.Filter(cs, Recorded([]));
    assert forall c :: c !in r;
    assert r == [];
  }

  // ---------------------------------------------------------------- monthly mode

  /** `yearMonths.find(m => m.id === monthId)` */
  function FindMonthById(ms: seq<Month>, id: string): (r: Option<Month>)
    ensures r.Some? ==> r.value in ms && r.value.id == id
    ensures r.None? ==> forall i :: 0 <= i < |ms| ==> ms[i].id != id
    ensures r.Some? ==> exists i :: 0 <= i < |ms| && ms[i] == r.value
                          && forall j :: 0 <= j < i ==> ms[j].id != id
  {
    if ms == [] then None
    else if ms[0].id == id then Some(ms[0])
    else
      var r := FindMonthById(ms[1..], id);
      assert forall i :: 1 <= i < |ms| ==> ms[i] == ms[1..][i - 1];
      r
  }

  /** Day 1 .. the month's length, dated `yyyy-MM-dd` with the day zero-padded; nothing for a malformed month value. */
  function MonthCandidates(m: Month): (r: seq<Candidate>)
    ensures ParseYearMonth(m.month).None? ==> r == []
    ensures ParseYearMonth(m.month).Some? ==> |r| == DaysInMonth(ParseYearMonth(m.month).value.0, ParseYearMonth(m.month).value.1)
  {
    match ParseYearMonth(m.month)
    case None => []
    case Some((y, mm)) =>
      seq(DaysInMonth(y, mm), i requires 0 <= i < DaysInMonth(y, mm) =>
        Candidate(m.id, m.month + "-" + Pad2(i + 1), Weekday(Date(y, mm, i + 1))))
  }

  /** Selected months in selection order, each one's days in ascending order. */
  function MonthlyCandidates(yearMonths: seq<Month>, selected: seq<string>): seq<Candidate> {
    if selected == [] then []
    else
      MonthlyCandidates(yearMonths, selected[..|selected| - 1])
      + (match FindMonthById(yearMonths, selected[|selected| - 1])
         case None => []
         case Some(m) => MonthCandidates(m))
  }

  lemma PlanSnoc(cs: seq<Candidate>, c: Candidate, days: seq<Day>, table: seq<HolidayPreset>, opts: Options, withSource: bool)
    ensures PlanOf(cs + [c], days, table, opts, withSource) == PlanOf(cs, days, table, opts, withSource) + PlanTail(c, days, table, opts, withSource)
    ensures SkipCount(cs + [c], days) == SkipCount(cs, days) + (if DayExists(days, c.monthId, c.date) then 1 else 0)
  {
    assert (cs + [c])[..|cs|] == cs;
  }

  lemma {:induction false} PlanAppend(a: seq<Candidate>, b: seq<Candidate>, days: seq<Day>, table: seq<HolidayPreset>, opts: Options, withSource: bool)
    ensures PlanOf(a + b, days, table, opts, withSource) == PlanOf(a, days, table, opts, withSource) + PlanOf(b, days, table, opts, withSource)
    ensures SkipCount(a + b, days) == SkipCount(a, days) + SkipCount(b, days)
    decreases |b|
  {
    if b == [] {
      assert a + b == a;
    } else {
      var b' := b[..|b| - 1];
      PlanAppend(a, b', days, table, opts, withSource);
      PlanLast(a, b, days, table, opts, withSource);
      ConcatAssociative(PlanOf(a, days, table, opts, withSource), PlanOf(b', days, table, opts, withSource),
                      PlanTail(b[|b| - 1], days, table, opts, withSource));
    }
  }

  /** The last candidate of `b` ends the plan and the count of both `b` and `a + b`. */
  lemma PlanLast(a: seq<Candidate>, b: seq<Candidate>, days: seq<Day>, table: seq<HolidayPreset>, opts: Options, withSource: bool)
    requires b != []
    ensures var b', c := b[..|b| - 1], b[|b| - 1];
            PlanOf(a + b, days, table, opts, withSource)
              == PlanOf(a + b', days, table, opts, withSource) + PlanTail(c, days, table, opts, withSource)
            && PlanOf(b, days, table, opts, withSource)
              == PlanOf(b', days, table, opts, withSource) + PlanTail(c, days, table, opts, withSource)
            && SkipCount(a + b, days) == SkipCount(a + b', days) + (if DayExists(days, c.monthId, c.date) then 1 else 0)
            && SkipCount(b, days) == SkipCount(b', days) + (if DayExists(days, c.monthId, c.date) then 1 else 0)
  {
    var b', c := b[..|b| - 1], b[|b| - 1];
    assert b == b' + [c];
    assert a + b == (a + b') + [c];
    PlanSnoc(a + b', c, days, table, opts, withSource);
    PlanSnoc(b', c, days, table, opts, withSource);
  }

  /** The body of both scans for one date: skip (and count) an existing Day, keep a labelled one. */
  method Visit(c: Candidate, days: seq<Day>, table: seq<HolidayPreset>, opts: Options, withSource: bool)
    returns (tail: seq<Planned>, skip: nat)
    ensures tail == PlanTail(c, days, table, opts, withSource)
    ensures skip == if DayExists(days, c.monthId, c.date) then 1 else 0
  {
    if DayExists(days, c.monthId, c.date) {
      return [], 1;
    }
    var detail := Detail(c, table, opts, withSource);
    tail, skip := if detail != "" then [Planned(c.monthId, c.date, detail, Source(c, table, opts))] else [], 0;
  }

  lemma MonthCandidateAt(m: Month, y: nat, mm: nat, day: nat)
    requires ParseYearMonth(m.month) == Some((y, mm)) && 1 <= day <= DaysInMonth(y, mm)
    ensures |MonthCandidates(m)| == DaysInMonth(y, mm)
    ensures MonthCandidates(m)[day - 1] == Candidate(m.id, m.month + "-" + Pad2(day), Weekday(Date(y, mm, day)))
  {
  }

  lemma TakeSnoc(s: seq<Candidate>, k: nat)
    requires 0 < k <= |s|
    ensures s[..k] == s[..k - 1] + [s[k - 1]]
  {
  }

  /** Scanning day `day` of a month extends the plan and the skip count of the days before it. */
  lemma ScanStep(m: Month, y: nat, mm: nat, day: nat, days: seq<Day>, table: seq<HolidayPreset>, opts: Options,
                 withSource: bool)
    requires ParseYearMonth(m.month) == Some((y, mm)) && 1 <= day <= DaysInMonth(y, mm)
    ensures var mc := MonthCandidates(m);
            var c := Candidate(m.id, m.month + "-" + Pad2(day), Weekday(Date(y, mm, day)));
            PlanOf(mc[..day], days, table, opts, withSource)
              == PlanOf(mc[..day - 1], days, table, opts, withSource) + PlanTail(c, days, table, opts, withSource)
            && SkipCount(mc[..day], days) == SkipCount(mc[..day - 1], days) + (if DayExists(days, c.monthId, c.date) then 1 else 0)
  {
    var mc := MonthCandidates(m);
    var c := Candidate(m.id, m.month + "-" + Pad2(day), Weekday(Date(y, mm, day)));
    MonthCandidateAt(m, y, mm, day);
    TakeSnoc(mc, day);
    PlanSnoc(mc[..day - 1], c, days, table, opts, withSource);
  }

  /** The `for (let day = 1; day <= daysInMonth; day++)` loop over one month. */
  method ScanMonth(m: Month, days: seq<Day>, table: seq<HolidayPreset>, opts: Options, withSource: bool)
    returns (planned: seq<Planned>, skipped: nat)
    ensures planned == PlanOf(MonthCandidates(m), days, table, opts, withSource)
    ensures skipped == SkipCount(MonthCandidates(m), days)
  {
    planned, skipped := [], 0;
    var ym := ParseYearMonth(m.month);
    if ym.None? {
      return;
    }
    var (y, mm) := ym.value;
    ghost var mc := MonthCandidates(m);
    for day := 1 to DaysInMonth(y, mm) + 1
      invariant planned == PlanOf(mc[..day - 1], days, table, opts, withSource)
      invariant skipped == SkipCount(mc[..day - 1], days)
    {
      var c := Candidate(m.id, m.month + "-" + Pad2(day), Weekday(Date(y, mm, day)));
      ScanStep(m, y, mm, day, days, table, opts, withSource);
      var tail, skip := Visit(c, days, table, opts, withSource);
      planned, skipped := planned + tail, skipped + skip;
    }
    assert mc[..DaysInMonth(y, mm)] == mc;
  }

  lemma MonthlySnoc(yearMonths: seq<Month>, selected: seq<string>, i: nat)
    requires i < |selected|
    ensures MonthlyCandidates(yearMonths, selected[..i + 1]) ==
              MonthlyCandidates(yearMonths, selected[..i])
              + (match FindMonthById(yearMonths, selected[i]) case None => [] case Some(m) => MonthCandidates(m))
  {
    assert selected[..i + 1][..i] == selected[..i];
  }

  /** The monthly loops of `handlePreview` / `generateDays`: selected months in selection order. */
  method ScanMonths(yearMonths: seq<Month>, selected: seq<string>, days: seq<Day>,
                    table: seq<HolidayPreset>, opts: Options, withSource: bool)
    returns (planned: seq<Planned>, skipped: nat)
    ensures var cs := MonthlyCandidates(yearMonths, selected);
            planned == PlanOf(cs, days, table, opts, withSource) && skipped == SkipCount(cs, days)
  {
    planned, skipped := [], 0;
    ghost var cs: seq<Candidate> := [];
    for i := 0 to |selected|
      invariant cs == MonthlyCandidates(yearMonths, selected[..i])
      invariant planned == PlanOf(cs, days, table, opts, withSource) && skipped == SkipCount(cs, days)
    {
      MonthlySnoc(yearMonths, selected, i);
      var month := FindMonthById(yearMonths, selected[i]);
      if month.Some? {
        var p, k := ScanMonth(month.value, days, table, opts, withSource);
        PlanAppend(cs, MonthCandidates(month.value), days, table, opts, withSource);
        planned, skipped := planned + p, skipped + k;
        cs := cs + MonthCandidates(month.value);
      } else {
        assert cs + [] == cs;
      }
    }
    assert selected[..|selected|] == selected;
  }

  // ---------------------------------------------------------------- range mode

  /** `yearMonths.find(m => m.month === monthValue)` */
  function FindMonthByValue(ms: seq<Month>, value: string): (r: Option<Month>)
    ensures r.Some? ==> r.value in ms && r.value.month == value
    ensures r.None? ==> forall i :: 0 <= i < |ms| ==> ms[i].month != value
    ensures r.Some? ==> exists i :: 0 <= i < |ms| && ms[i] == r.value
                          && forall j :: 0 <= j < i ==> ms[j].month != value
  {
    if ms == [] then None
    else if ms[0].month == value then Some(ms[0])
    else
      var r := FindMonthByValue(ms[1..], value);
      assert forall i :: 1 <= i < |ms| ==> ms[i] == ms[1..][i - 1];
      r
  }

  /** `${year}-${month}` from the first two parts of the date's `yyyy-MM-dd` text. */
  function MonthValue(d: Date): (r: string)
    ensures IsoString(d) == r + "-" + Pad2(d.day)
  {
    Pad4(d.year) + "-" + Pad2(d.month)
  }

  /** The candidate for one date of a range: none when no month of the year holds that month value. */
  function RangeCandidate(yearMonths: seq<Month>, d: Date): seq<Candidate>
    requires ValidDate(d)
  {
    match FindMonthByValue(yearMonths, MonthValue(d))
    case None => []
    case Some(m) => [Candidate(m.id, IsoString(d), Weekday(d))]
  }

  /** `d <= end` on two dates at the same time of day: chronological, that is lexicographic, order. */
  predicate DateLe(a: Date, b: Date) {
    a.year < b.year || (a.year == b.year && (a.month < b.month || (a.month == b.month && a.day <= b.day)))
  }

  /** The candidates of the dates from `d` to `end`, in order: one per day that falls in a month of the year. */
  function RangeFrom(yearMonths: seq<Month>, d: Date, end: Date): seq<Candidate>
    requires ValidDate(d)
    decreases end.year - d.year, 12 - d.month, 31 - d.day
  {
    if !DateLe(d, end) then [] else RangeCandidate(yearMonths, d) + RangeFrom(yearMonths, NextDate(d), end)
  }

  /** The loop body of the range scans for one date, extending the plan and count of the dates before it. */
  method VisitDate(yearMonths: seq<Month>, d: Date, days: seq<Day>, table: seq<HolidayPreset>, opts: Options, withSource: bool,
                   planned0: seq<Planned>, skipped0: nat, ghost cs: seq<Candidate>)
    returns (planned: seq<Planned>, skipped: nat)
    requires ValidDate(d) && planned0 == PlanOf(cs, days, table, opts, withSource) && skipped0 == SkipCount(cs, days)
    ensures planned == PlanOf(cs + RangeCandidate(yearMonths, d), days, table, opts, withSource)
    ensures skipped == SkipCount(cs + RangeCandidate(yearMonths, d), days)
  {
    var target := FindMonthByValue(yearMonths, MonthValue(d));
    if target.None? {
      assert cs + RangeCandidate(yearMonths, d) == cs;
      return planned0, skipped0;
    }
    var c := Candidate(target.value.id, IsoString(d), Weekday(d));
    PlanSnoc(cs, c, days, table, opts, withSource);
    var tail, skip := Visit(c, days, table, opts, withSource);
    planned, skipped := planned0 + tail, skipped0 + skip;
  }

  /** The `for (d = start; d <= end; d.setDate(d.getDate() + 1))` loops. */
  method ScanRange(yearMonths: seq<Month>, start: Date, end: Date, days: seq<Day>,
                   table: seq<HolidayPreset>, opts: Options, withSource: bool)
    returns (planned: seq<Planned>, skipped: nat)
    requires ValidDate(start)
    ensures var cs := RangeFrom(yearMonths, start, end);
            planned == PlanOf(cs, days, table, opts, withSource) && skipped == SkipCount(cs, days)
  {
    planned, skipped := [], 0;
    var d := start;
    ghost var cs: seq<Candidate> := [];
    while DateLe(d, end)
      invariant ValidDate(d) && cs + RangeFrom(yearMonths, d, end) == RangeFrom(yearMonths, start, end)
      invariant planned == PlanOf(cs, days, table, opts, withSource) && skipped == SkipCount(cs, days)
      decreases end.year - d.year, 12 - d.month, 31 - d.day
    {
      planned, skipped := VisitDate(yearMonths, d, days, table, opts, withSource, planned, skipped, cs);
      ghost var here, rest := RangeCandidate(yearMonths, d), RangeFrom(yearMonths, NextDate(d), end);
      assert RangeFrom(yearMonths, d, end) == here + rest;
      ConcatAssociative(cs, here, rest);
      cs := cs + here;
      d := NextDate(d);
    }
    assert cs + [] == cs;
  }

  /** A candidate is filed under a month of the year whose value its date text starts with. */
  predicate Filed(yearMonths: seq<Month>, c: Candidate) {
    exists m :: m in yearMonths && m.id == c.monthId && StartsWith(c.date, m.month + "-")
  }

  lemma RangeCandidateFiled(yearMonths: seq<Month>, d: Date)
    requires ValidDate(d)
    ensures |RangeCandidate(yearMonths, d)| <= 1
    ensures forall c :: c in RangeCandidate(yearMonths, d) ==> Filed(yearMonths, c)
  {
    var target := FindMonthByValue(yearMonths, MonthValue(d));
    if target.Some? {
      var m, v := target.value, MonthValue(d);
      assert (v + "-" + Pad2(d.day))[..|v + "-"|] == v + "-";
      assert StartsWith(IsoString(d), m.month + "-");
    }
  }

  /** Each candidate of a range is filed under the month its date text starts with. */
  lemma {:induction false} RangeFromFiled(yearMonths: seq<Month>, d: Date, end: Date)
    requires ValidDate(d)
    ensures forall c :: c in RangeFrom(yearMonths, d, end) ==> Filed(yearMonths, c)
    decreases end.year - d.year, 12 - d.month, 31 - d.day
  {
    if DateLe(d, end) {
      RangeCandidateFiled(yearMonths, d);
      RangeFromFiled(yearMonths, NextDate(d), end);
      var last, rest := RangeCandidate(yearMonths, d), RangeFrom(yearMonths, NextDate(d), end);
      assert forall c :: c in last + rest ==> c in last || c in rest;
    }
  }

  /** A range that ends before it starts yields nothing. */
  lemma EmptyRange(yearMonths: seq<Month>, start: Date, end: Date)
    requires ValidDate(start) && DateLe(end, start) && end != start
    ensures RangeFrom(yearMonths, start, end) == []
  {
  }

  // ---------------------------------------------------------------- the two handlers

  datatype PreviewItem = PreviewItem(date: string, detail: string, source: string)

  function PreviewItems(ps: seq<Planned>): (r: seq<PreviewItem>)
    ensures |r| == |ps| && forall i :: 0 <= i < |ps| ==> r[i] == PreviewItem(ps[i].date, ps[i].detail, ps[i].source)
  {
    if ps == [] then [] else [PreviewItem(ps[0].date, ps[0].detail, ps[0].source)] + PreviewItems(ps[1..])
  }

  /** The range inputs as the dialog holds them: empty, or a `yyyy-MM-dd` that may not name a date. */
  predicate RangeGiven(startDate: string, endDate: string) { startDate != "" && endDate != "" }

  /** The days a handler scans: the selected months, the given range, or nothing (yearly, or a date that does not parse). */
  function CandidatesFor(importType: ImportType, yearMonths: seq<Month>, selected: seq<string>,
                         startDate: string, endDate: string): seq<Candidate>
  {
    if importType == Monthly || importType == MultiMonth then MonthlyCandidates(yearMonths, selected)
    else if (importType == Daily || importType == Weekly)
            && ParseIsoDate(startDate).Some? && ParseIsoDate(endDate).Some? then
      RangeFrom(yearMonths, ParseIsoDate(startDate).value, ParseIsoDate(endDate).value)
    else []
  }

  /** A range mode with a start or end date missing does nothing: the preview is kept, generation alerts. */
  predicate Halts(importType: ImportType, startDate: string, endDate: string) {
    (importType == Daily || importType == Weekly) && !RangeGiven(startDate, endDate)
  }

  /** The yearly type matches no branch of either handler. */
  lemma YearlyScansNothing(yearMonths: seq<Month>, selected: seq<string>, startDate: string, endDate: string)
    ensures CandidatesFor(Yearly, yearMonths, selected, startDate, endDate) == []
  {
  }

  /** The scan both handlers share, in the monthly or range form. */
  method Scan(importType: ImportType, yearMonths: seq<Month>, selected: seq<string>,
              startDate: string, endDate: string, days: seq<Day>,
              table: seq<HolidayPreset>, opts: Options, withSource: bool)
    returns (planned: seq<Planned>, skipped: nat)
    ensures var cs := CandidatesFor(importType, yearMonths, selected, startDate, endDate);
            planned == PlanOf(cs, days, table, opts, withSource) && skipped == SkipCount(cs, days)
  {
    if importType == Monthly || importType == MultiMonth {
      planned, skipped := ScanMonths(yearMonths, selected, days, table, opts, withSource);
    } else if importType == Daily || importType == Weekly {
      var s, e := ParseIsoDate(startDate), ParseIsoDate(endDate);
      if s.Some? && e.Some? {
        planned, skipped := ScanRange(yearMonths, s.value, e.value, days, table, opts, withSource);
      } else {
        planned, skipped := [], 0;
      }
    } else {
      planned, skipped := [], 0;
    }
  }

  /** `handlePreview`. None: the preview is left as it was. */
  method HandlePreview(importType: ImportType, yearMonths: seq<Month>, selected: seq<string>,
                       startDate: string, endDate: string, days: seq<Day>,
                       table: seq<HolidayPreset>, opts: Options)
    returns (preview: Option<seq<PreviewItem>>)
    ensures preview.None? <==> Halts(importType, startDate, endDate)
    ensures preview.Some? ==>
              preview.value == PreviewItems(PlanOf(CandidatesFor(importType, yearMonths, selected, startDate, endDate),
                                                   days, table, opts, false))
  {
    if Halts(importType, startDate, endDate) {
      return None;
    }
    var planned, _ := Scan(importType, yearMonths, selected, startDate, endDate, days, table, opts, false);
    preview := Some(PreviewItems(planned));
  }

  /** The month and date of each planned day. */
  function Keys(ps: seq<Planned>): (r: seq<(string, string)>)
    ensures |r| == |ps|
  {
    if ps == [] then [] else Keys(ps[..|ps| - 1]) + [(ps[|ps| - 1].monthId, ps[|ps| - 1].date)]
  }

  /**
   * With no unnamed holiday in the table, generation creates exactly the days
   * the preview lists; only the details differ (the source is added).
   */
  lemma {:induction false} PreviewListsGeneratedDays(cs: seq<Candidate>, days: seq<Day>, table: seq<HolidayPreset>, opts: Options)
    requires forall i :: 0 <= i < |table| ==> table[i].name != ""
    ensures Keys(PlanOf(cs, days, table, opts, false)) == Keys(PlanOf(cs, days, table, opts, true))
  {
    if cs != [] {
      var c := cs[|cs| - 1];
      PreviewListsGeneratedDays(cs[..|cs| - 1], days, table, opts);
      var h := HolidayFor(table, opts, c.date);
      if h.Some? {
        assert h.value in table;
        assert Detail(c, table, opts, false) != "";
        assert |h.value.name + " (" + h.value.source + ")"| > 0;
      }
      KeysSnoc(PlanOf(cs[..|cs| - 1], days, table, opts, false), c, days, table, opts, false);
      KeysSnoc(PlanOf(cs[..|cs| - 1], days, table, opts, true), c, days, table, opts, true);
    }
  }

  lemma KeysSnoc(ps: seq<Planned>, c: Candidate, days: seq<Day>, table: seq<HolidayPreset>, opts: Options, withSource: bool)
    ensures var tail := PlanTail(c, days, table, opts, withSource);
            Keys(ps + tail) == Keys(ps) + (if tail == [] then [] else [(c.monthId, c.date)])
  {
    var tail := PlanTail(c, days, table, opts, withSource);
    if tail == [] {
      assert ps + tail == ps;
    } else {
      assert (ps + tail)[..|ps|] == ps;
    }
  }

  // ---------------------------------------------------------------- creating the days

  /** The Day a request of the dialog carries: one entry, no id, no attachments. */
  function RequestDay(p: Planned, entryId: string): Day {
    Day("", p.monthId, p.date, [DayEntry(entryId, p.detail, "")], None)
  }

  /** How many of the first `n` requests satisfy `ok`. */
  function CountOk(n: nat, ok: nat -> bool): (c: nat)
    ensures c <= n
  {
    if n == 0 then 0 else CountOk(n - 1, ok) + (if ok(n - 1) then 1 else 0)
  }

  datatype ImportResult = ImportResult(success: nat, failed: nat, skipped: nat)

  /**
   * The request loop as written: each day goes to the days POST as a single
   * object. The route clears the table and, finding no `length`, writes
   * nothing, yet answers success; so every counted success leaves the Days
   * table empty.
   */
  method PostEachDay(sheet: Sheet, toCreate: seq<Planned>, entryId: nat -> string, fault: nat -> WriteFault)
    returns (success: nat, failed: nat)
    modifies sheet
    ensures success + failed == |toCreate|
    ensures success == CountOk(|toCreate|, (i: nat) => fault(i) != ClearFails)
    ensures toCreate != [] && fault(|toCreate| - 1) != ClearFails ==> sheet.rows == []
  {
    success, failed := 0, 0;
    for i := 0 to |toCreate|
      invariant success + failed == i
      invariant success == CountOk(i, (j: nat) => fault(j) != ClearFails)
      invariant i > 0 && fault(i - 1) != ClearFails ==> sheet.rows == []
    {
      var body := DaysRoute.DayObject(RequestDay(toCreate[i], entryId(i)));
      var reply := DaysRoute.Post(sheet, body, fault(i));
      if reply.Saved? {
        success := success + 1;
      } else {
        failed := failed + 1;
      }
    }
  }

  /** A bulk import of one day into a table of existing days leaves the table empty and reports one success. */
  method BulkCreateWipesTable(existing: seq<Row>, p: Planned) returns (sheet: Sheet, success: nat)
    ensures success == 1 && sheet.rows == []
  {
    sheet := new Sheet(existing);
    var failed;
    success, failed := PostEachDay(sheet, [p], (i: nat) => "1", (i: nat) => NoFault);
  }

  /** No row of the table starts with the id. */
  predicate Absent(rows: seq<Row>, id: string) {
    forall r :: r in rows ==> !(|r| > 0 && r[0] == Text(id))
  }

  predicate AbsentFrom(rows: seq<Row>, ids: nat -> string, i: nat, n: nat) {
    forall j :: i <= j < n ==> Absent(rows, ids(j))
  }

  predicate Distinct(ids: nat -> string, n: nat) {
    forall j, k :: 0 <= j < k < n ==> ids(j) != ids(k)
  }

  /** No row of the table carries any of the ids `ids(0) .. ids(n-1)`, and those ids are distinct. */
  predicate FreshIds(rows: seq<Row>, ids: nat -> string, n: nat) {
    AbsentFrom(rows, ids, 0, n) && Distinct(ids, n)
  }

  /** The day the i-th request carries, with its id. */
  function CreatedDay(toCreate: seq<Planned>, dayId: nat -> string, entryId: nat -> string, i: nat): Day
    requires i < |toCreate|
  {
    RequestDay(toCreate[i], entryId(i)).(id := dayId(i))
  }

  /** The days that reached the table: those whose upsert did not fail, in order. */
  function Created(toCreate: seq<Planned>, dayId: nat -> string, entryId: nat -> string, fault: nat -> bool): seq<Day> {
    if toCreate == [] then []
    else
      var n := |toCreate| - 1;
      Created(toCreate[..n], dayId, entryId, fault)
      + (if fault(n) then [] else [CreatedDay(toCreate, dayId, entryId, n)])
  }

  lemma CreatedSnoc(toCreate: seq<Planned>, dayId: nat -> string, entryId: nat -> string, fault: nat -> bool, i: nat)
    requires i < |toCreate|
    ensures Created(toCreate[..i + 1], dayId, entryId, fault)
            == Created(toCreate[..i], dayId, entryId, fault) + (if fault(i) then [] else [CreatedDay(toCreate, dayId, entryId, i)])
  {
    assert toCreate[..i + 1][..i] == toCreate[..i];
    assert CreatedDay(toCreate[..i + 1], dayId, entryId, i) == CreatedDay(toCreate, dayId, entryId, i);
  }

  /** Upserting a day whose id no row has appends its row. */
  lemma UpsertFresh(rows: seq<Row>, d: Day)
    requires Absent(rows, d.id)
    ensures DaysRoute.Upserted(rows, d) == rows + [DaysRoute.DayToRow(d)]
  {
  }

  /** After appending the i-th day the later ids are still absent. */
  lemma StillAbsent(rows: seq<Row>, ids: nat -> string, i: nat, n: nat, d: Day)
    requires AbsentFrom(rows, ids, i, n) && Distinct(ids, n) && i < n && d.id == ids(i)
    ensures AbsentFrom(rows, ids, i + 1, n)
    ensures AbsentFrom(rows + [DaysRoute.DayToRow(d)], ids, i + 1, n)
  {
    forall j | i + 1 <= j < n
      ensures Absent(rows + [DaysRoute.DayToRow(d)], ids(j))
    {
      assert Absent(rows, ids(j));
      assert ids(j) != ids(i);
    }
  }

  /**
   * The evidently intended request loop: each day, given its own fresh id,
   * is upserted like the day editor does it. With fresh ids every created day
   * is appended after the existing rows, and nothing else changes.
   */
  method UpsertEachDay(sheet: Sheet, toCreate: seq<Planned>, dayId: nat -> string, entryId: nat -> string,
                       fault: nat -> bool)
    returns (success: nat, failed: nat)
    modifies sheet
    ensures success + failed == |toCreate|
    ensures success == CountOk(|toCreate|, (i: nat) => !fault(i))
    ensures FreshIds(old(sheet.rows), dayId, |toCreate|) ==>
              sheet.rows == old(sheet.rows) + DaysRoute.DayRows(Created(toCreate, dayId, entryId, fault))
  {
    success, failed := 0, 0;
    ghost var freshIds := FreshIds(sheet.rows, dayId, |toCreate|);
    ghost var created: seq<Day> := [];
    for i := 0 to |toCreate|
      invariant success + failed == i
      invariant success == CountOk(i, (j: nat) => !fault(j))
      invariant created == Created(toCreate[..i], dayId, entryId, fault)
      invariant freshIds ==> sheet.rows == old(sheet.rows) + DaysRoute.DayRows(created)
                             && AbsentFrom(sheet.rows, dayId, i, |toCreate|) && Distinct(dayId, |toCreate|)
    {
      var day := CreatedDay(toCreate, dayId, entryId, i);
      var saved := UpsertStep(sheet, day, fault(i), freshIds, old(sheet.rows), created, dayId, i, |toCreate|);
      if saved {
        success := success + 1;
      } else {
        failed := failed + 1;
      }
      CreatedSnoc(toCreate, dayId, entryId, fault, i);
      created := created + (if fault(i) then [] else [day]);
    }
    assert toCreate[..|toCreate|] == toCreate;
  }

  /** One request of the corrected loop: a PUT of the i-th day, which appends it while the ids stay fresh. */
  method UpsertStep(sheet: Sheet, day: Day, fault: bool, ghost isFresh: bool, ghost base: seq<Row>, ghost created: seq<Day>,
                    ghost ids: nat -> string, ghost i: nat, ghost n: nat)
    returns (saved: bool)
    modifies sheet
    requires isFresh ==> (sheet.rows == base + DaysRoute.DayRows(created) && AbsentFrom(sheet.rows, ids, i, n)
                          && Distinct(ids, n) && i < n && day.id == ids(i))
    ensures saved == !fault
    ensures isFresh ==> (sheet.rows == base + DaysRoute.DayRows(created + (if fault then [] else [day]))
                         && AbsentFrom(sheet.rows, ids, i + 1, n))
  {
    ghost var before := sheet.rows;
    var reply := DaysRoute.Put(sheet, day, fault);
    saved := reply.Saved?;
    if isFresh {
      FreshStep(base, created, before, sheet.rows, day, fault, ids, i, n);
    }
  }

  /** The table after one PUT of a fresh day: the day's row (unless the request failed) follows the earlier ones. */
  lemma FreshStep(base: seq<Row>, created: seq<Day>, before: seq<Row>, after: seq<Row>, day: Day, fault: bool,
                  ids: nat -> string, i: nat, n: nat)
    requires before == base + DaysRoute.DayRows(created) && AbsentFrom(before, ids, i, n)
             && Distinct(ids, n) && i < n && day.id == ids(i)
    requires after == if fault then before else DaysRoute.Upserted(before, day)
    ensures after == base + DaysRoute.DayRows(created + (if fault then [] else [day]))
    ensures AbsentFrom(after, ids, i + 1, n)
  {
    assert Absent(before, ids(i));
    FreshRows(base, created, before, after, day, fault);
    StillAbsentAfter(before, after, ids, i, n, day, fault);
  }

  lemma FreshRows(base: seq<Row>, created: seq<Day>, before: seq<Row>, after: seq<Row>, day: Day, fault: bool)
    requires before == base + DaysRoute.DayRows(created) && Absent(before, day.id)
    requires after == if fault then before else DaysRoute.Upserted(before, day)
    ensures after == base + DaysRoute.DayRows(created + (if fault then [] else [day]))
    ensures after == if fault then before else before + [DaysRoute.DayToRow(day)]
  {
    if fault {
      assert created + [] == created;
    } else {
      UpsertFresh(before, day);
      AppendedRow(base, created, day);
    }
  }

  lemma AppendedRow(base: seq<Row>, created: seq<Day>, day: Day)
    ensures (base + DaysRoute.DayRows(created)) + [DaysRoute.DayToRow(day)] == base + DaysRoute.DayRows(created + [day])
  {
    DayRowsAppend(created, [day]);
    ConcatAssociative(base, DaysRoute.DayRows(created), [DaysRoute.DayToRow(day)]);
  }

  lemma StillAbsentAfter(before: seq<Row>, after: seq<Row>, ids: nat -> string, i: nat, n: nat, day: Day, fault: bool)
    requires AbsentFrom(before, ids, i, n) && Distinct(ids, n) && i < n && day.id == ids(i)
    requires after == if fault then before else before + [DaysRoute.DayToRow(day)]
    ensures AbsentFrom(after, ids, i + 1, n)
  {
    StillAbsent(before, ids, i, n, day);
  }

  lemma ConcatAssociative<T>(a: seq<T>, b: seq<T>, c: seq<T>)
    ensures a + (b + c) == (a + b) + c
  {
  }

  lemma {:induction false} DayRowsAppend(a: seq<Day>, b: seq<Day>)
    ensures DaysRoute.DayRows(a + b) == DaysRoute.DayRows(a) + DaysRoute.DayRows(b)
  {
    if a == [] {
      assert a + b == b;
    } else {
      assert (a + b)[1..] == a[1..] + b;
      DayRowsAppend(a[1..], b);
    }
  }

  /**
   * `generateDays`, with the request loop corrected. None: a range mode with
   * a missing date (an alert, no result). `days` are the days the calendar
   * holds; `dayId(i)` and `entryId(i)` stand for the ids of the i-th request,
   * `fault(i)` for its request failing.
   */
  method GenerateDays(sheet: Sheet, importType: ImportType, yearMonths: seq<Month>, selected: seq<string>,
                      startDate: string, endDate: string, days: seq<Day>, table: seq<HolidayPreset>, opts: Options,
                      dayId: nat -> string, entryId: nat -> string, fault: nat -> bool)
    returns (result: Option<ImportResult>)
    modifies sheet
    ensures result.None? <==> Halts(importType, startDate, endDate)
    ensures result.None? ==> sheet.rows == old(sheet.rows)
    ensures var cs := CandidatesFor(importType, yearMonths, selected, startDate, endDate);
            var toCreate := PlanOf(cs, days, table, opts, true);
            result.Some? ==>
              result.value.success + result.value.failed == |toCreate|
              && result.value.success == CountOk(|toCreate|, (i: nat) => !fault(i))
              && result.value.skipped == SkipCount(cs, days)
              && (FreshIds(old(sheet.rows), dayId, |toCreate|) ==>
                    sheet.rows == old(sheet.rows) + DaysRoute.DayRows(Created(toCreate, dayId, entryId, fault)))
  {
    if Halts(importType, startDate, endDate) {
      return None;
    }
    var toCreate, skipped := Scan(importType, yearMonths, selected, startDate, endDate, days, table, opts, true);
    var success, failed := UpsertEachDay(sheet, toCreate, dayId, entryId, fault);
    result := Some(ImportResult(success, failed, skipped));
  }
}
