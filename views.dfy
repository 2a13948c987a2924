/**
 * What the calendar views share: the months of the selected year, the days
 * recorded for one month, counting and filtering by a rule, and the cell of
 * a month grid (one column per day number 1..31).
 */
module Views {
  import opened Wrappers
  import opened Text
  import opened Types
  import opened Calendar
  import opened ThaiDates
  import opened DayRules

  /** The rule `m.yearId === yearId`, as one value for every call. */
  function InYear(yearId: string): Month -> bool {
    (m: Month) => m.yearId == yearId
  }

  /** The rule `d.monthId === monthId`, as one value for every call. */
  function InMonth(monthId: string): Day -> bool {
    (d: Day) => d.monthId == monthId
  }

  /** `months.filter((m) => m.yearId === selectedYear)` */
  function MonthsOfYear(months: seq<Month>, yearId: string): (r: seq<Month>)
    ensures |r| <= |months|
    ensures forall m :: m in r <==> m in months && m.yearId == yearId
    ensures r == Filter(months, InYear(yearId))
  {
    if |months| == 0 then []
    else
      var init, last := months[..|months| - 1], months[|months| - 1];
      assert months == init + [last];
      MonthsOfYear(init, yearId) + (if last.yearId == yearId then [last] else [])
  }

  /** `days.filter((d) => d.monthId === monthId)`, in the order of `days`. */
  function MonthDays(days: seq<Day>, monthId: string): (r: seq<Day>)
    ensures |r| <= |days|
    ensures forall d :: d in r <==> d in days && d.monthId == monthId
    ensures r == Filter(days, InMonth(monthId))
  {
    if |days| == 0 then []
    else
      var init, last := days[..|days| - 1], days[|days| - 1];
      assert days == init + [last];
      MonthDays(init, monthId) + (if last.monthId == monthId then [last] else [])
  }

  /** The number of elements of `s` that satisfy `p` (`s.filter(p).length`, or a counting loop). */
  function Count<T>(s: seq<T>, p: T -> bool): (n: nat)
    ensures n <= |s|
  {
    if |s| == 0 then 0
    else Count(s[..|s| - 1], p) + (if p(s[|s| - 1]) then 1 else 0)
  }

  /** `s.filter(p)`: the elements satisfying `p`, in order. */
  function Filter<T>(s: seq<T>, p: T -> bool): (r: seq<T>)
    ensures |r| == Count(s, p)
    ensures forall i :: 0 <= i < |r| ==> p(r[i])
  {
    if |s| == 0 then []
    else Filter(s[..|s| - 1], p) + (if p(s[|s| - 1]) then [s[|s| - 1]] else [])
  }

  /** The filtered elements are exactly the elements satisfying `p`. */
  lemma {:induction false} FilterMembers<T>(s: seq<T>, p: T -> bool)
    ensures forall x :: x in Filter(s, p) <==> x in s && p(x)
  {
    if |s| > 0 {
      FilterMembers(s[..|s| - 1], p);
      assert s == s[..|s| - 1] + [s[|s| - 1]];
    }
  }

  /** Filtering a concatenation filters each part, so the order is kept. */
  lemma {:induction false} FilterAppend<T>(a: seq<T>, b: seq<T>, p: T -> bool)
    ensures Filter(a + b, p) == Filter(a, p) + Filter(b, p)
    decreases |b|
  {
    if |b| == 0 {
      assert a + b == a;
    } else {
      var b0, x := b[..|b| - 1], b[|b| - 1];
      assert (a + b)[..|a + b| - 1] == a + b0;
      assert (a + b)[|a + b| - 1] == x;
      FilterAppend(a, b0, p);
    }
  }

  /** A filter every element passes changes nothing. */
  lemma {:induction false} FilterAll<T>(s: seq<T>, p: T -> bool)
    requires forall i :: 0 <= i < |s| ==> p(s[i])
    ensures Filter(s, p) == s
  {
    if |s| > 0 {
      FilterAll(s[..|s| - 1], p);
    }
  }

  /** `s.slice(0, n)` */
  function Take<T>(s: seq<T>, n: nat): (r: seq<T>)
    ensures |r| <= n && |r| <= |s|
    ensures |s| <= n ==> r == s
    ensures |s| > n ==> |r| == n
    ensures forall i :: 0 <= i < |r| ==> r[i] == s[i]
  {
    if |s| <= n then s else s[..n]
  }

  /** Nothing is counted exactly when no element satisfies `p`. */
  lemma {:induction false} CountZeroIff<T>(s: seq<T>, p: T -> bool)
    ensures Count(s, p) == 0 <==> forall i :: 0 <= i < |s| ==> !p(s[i])
  {
    if |s| > 0 {
      CountZeroIff(s[..|s| - 1], p);
      assert forall i :: 0 <= i < |s| - 1 ==> s[..|s| - 1][i] == s[i];
    }
  }

  /** A weaker rule never counts more. */
  lemma {:induction false} CountMonotone<T>(s: seq<T>, p: T -> bool, q: T -> bool)
    requires forall i :: 0 <= i < |s| && p(s[i]) ==> q(s[i])
    ensures Count(s, p) <= Count(s, q)
  {
    if |s| > 0 {
      CountMonotone(s[..|s| - 1], p, q);
    }
  }

  /** Counting over a concatenation adds up. */
  lemma {:induction false} CountAppend<T>(a: seq<T>, b: seq<T>, p: T -> bool)
    ensures Count(a + b, p) == Count(a, p) + Count(b, p)
    decreases |b|
  {
    if |b| > 0 {
      var b0, x := b[..|b| - 1], b[|b| - 1];
      assert (a + b)[..|a + b| - 1] == a + b0;
      assert (a + b)[|a + b| - 1] == x;
      CountAppend(a, b0, p);
    } else {
      assert a + b == a;
    }
  }

  /** One more element adds one to the count exactly when it satisfies `p`. */
  lemma CountStep<T>(s: seq<T>, i: nat, p: T -> bool)
    requires i < |s|
    ensures Count(s[..i + 1], p) == Count(s[..i], p) + (if p(s[i]) then 1 else 0)
  {
    assert s[..i + 1][..i] == s[..i];
  }

  /** Taking one element out of a sequence takes its share out of the count. */
  lemma CountRemove<T>(b: seq<T>, k: nat, p: T -> bool)
    requires k < |b|
    ensures Count(b, p) == Count(b[..k] + b[k + 1..], p) + (if p(b[k]) then 1 else 0)
  {
    var front, x, back := b[..k], b[k], b[k + 1..];
    var one := if p(x) then 1 else 0;
    assert Count(b, p) == Count(front, p) + Count([x] + back, p) by {
      SplitAround(b, k);
      CountAppend(front, [x] + back, p);
    }
    assert Count([x] + back, p) == one + Count(back, p) by {
      assert [x][..0] == [];
      CountAppend([x], back, p);
    }
    CountAppend(front, back, p);
  }

  lemma SplitAround<T>(b: seq<T>, k: nat)
    requires k < |b|
    ensures b == b[..k] + ([b[k]] + b[k + 1..])
  {
    assert b[k..] == [b[k]] + b[k + 1..];
    assert b == b[..k] + b[k..];
  }

  /** Taking the last element of `a` and an equal element of `b` out of two permutations leaves permutations. */
  lemma MultisetRemove<T>(a: seq<T>, b: seq<T>, k: nat)
    requires multiset(a) == multiset(b) && |a| > 0 && k < |b| && b[k] == a[|a| - 1]
    ensures multiset(a[..|a| - 1]) == multiset(b[..k] + b[k + 1..])
  {
    var a0, x := a[..|a| - 1], a[|a| - 1];
    assert a == a0 + [x];
    var front, back := b[..k], b[k + 1..];
    assert b == front + [x] + back;
    calc {
      multiset(a0);
      multiset(a) - multiset{x};
      multiset(b) - multiset{x};
      multiset(front) + multiset(back);
      multiset(front + back);
    }
  }

  /** Counting does not depend on the order: a permutation has the same count. */
  lemma {:induction false} CountPermutation<T>(a: seq<T>, b: seq<T>, p: T -> bool)
    requires multiset(a) == multiset(b)
    ensures Count(a, p) == Count(b, p)
    decreases |a|
  {
    if |a| == 0 {
      assert |b| == |multiset(b)| == 0;
    } else {
      var a0, x := a[..|a| - 1], a[|a| - 1];
      assert x in multiset(b) by {
        assert a == a0 + [x];
      }
      var k :| 0 <= k < |b| && b[k] == x;
      MultisetRemove(a, b, k);
      CountPermutation(a0, b[..k] + b[k + 1..], p);
      CountRemove(b, k, p);
    }
  }

  /**
   * The per-month counting of the calendars: for each month of the year, in
   * order, the days recorded for it that satisfy `p`.
   */
  function YearCount(yearMonths: seq<Month>, days: seq<Day>, p: Day -> bool): nat {
    if |yearMonths| == 0 then 0
    else YearCount(yearMonths[..|yearMonths| - 1], days, p)
         + Count(MonthDays(days, yearMonths[|yearMonths| - 1].id), p)
  }

  /** The per-month count taken from the front: the first month's count plus the rest. */
  lemma {:induction false} YearCountFront(yearMonths: seq<Month>, days: seq<Day>, p: Day -> bool)
    requires |yearMonths| > 0
    ensures YearCount(yearMonths, days, p)
            == Count(MonthDays(days, yearMonths[0].id), p) + YearCount(yearMonths[1..], days, p)
  {
    if |yearMonths| > 1 {
      var init := yearMonths[..|yearMonths| - 1];
      assert init[1..] == yearMonths[1..][..|yearMonths[1..]| - 1];
      assert init[0] == yearMonths[0];
      YearCountFront(init, days, p);
    } else {
      assert yearMonths[..0] == [];
    }
  }

  /** The number of recorded days the per-month iteration visits. */
  function RecordedDays(yearMonths: seq<Month>, days: seq<Day>): nat {
    if |yearMonths| == 0 then 0
    else RecordedDays(yearMonths[..|yearMonths| - 1], days)
         + |MonthDays(days, yearMonths[|yearMonths| - 1].id)|
  }

  /** A per-month count never exceeds the recorded days it visits. */
  lemma {:induction false} YearCountBound(yearMonths: seq<Month>, days: seq<Day>, p: Day -> bool)
    ensures YearCount(yearMonths, days, p) <= RecordedDays(yearMonths, days)
  {
    if |yearMonths| > 0 {
      YearCountBound(yearMonths[..|yearMonths| - 1], days, p);
    }
  }

  /**
   * `days.find((d) => d.monthId === monthId && d.date === date)`: the first
   * record of that date in that month.
   */
  function FindDay(days: seq<Day>, monthId: string, date: string): (r: Option<Day>)
    ensures r.None? <==> forall i :: 0 <= i < |days| ==> !(days[i].monthId == monthId && days[i].date == date)
    ensures r.Some? ==> exists i :: 0 <= i < |days| && days[i] == r.value
                          && (forall j :: 0 <= j < i ==> !(days[j].monthId == monthId && days[j].date == date))
    ensures r.Some? ==> r.value.monthId == monthId && r.value.date == date
  {
    if |days| == 0 then None
    else if days[0].monthId == monthId && days[0].date == date then Some(days[0])
    else
      var r := FindDay(days[1..], monthId, date);
      assert forall i :: 1 <= i < |days| ==> days[i] == days[1..][i - 1];
      r
  }

  /** `${year}-${month}-${String(dayNum).padStart(2, '0')}` for the cell of a `yyyy-MM` month. */
  function CellDate(monthValue: string, dayNum: nat): string {
    monthValue + "-" + Pad2(dayNum)
  }

  /** `getDayTitle`: the Thai name of a weekday, `วัน` followed by the weekday name. */
  function DayTitle(w: nat): string
    requires w < 7
  {
    "วัน" + WeekdayNames[w]
  }

  /** The titles of Sunday and Saturday are exactly the weekend labels the rules look for. */
  lemma WeekendTitles()
    ensures DayTitle(0) == SundayLabel && DayTitle(6) == SaturdayLabel
  {
    assert "วัน" + "อาทิตย์" == "วันอาทิตย์";
    assert "วัน" + "เสาร์" == "วันเสาร์";
  }

  /** What a grid cell shows for a day number that the month has. */
  datatype GridCell = GridCell(date: string, weekday: nat, record: Option<Day>)

  /**
   * The cell for `dayNum` (1..31) in the row of `month`: None for a day
   * number past the month's end (`dayNum > getDaysInMonth(month.month)`),
   * else the cell's date, its weekday and the record found for it. A month
   * value that is not `yyyy-MM` gives no cells.
   */
  function Cell(days: seq<Day>, month: Month, dayNum: nat): (r: Option<GridCell>)
    requires 1 <= dayNum <= 31
    ensures r.Some? <==> ParseYearMonth(month.month).Some?
                         && ValidDate(Date(ParseYearMonth(month.month).value.0, ParseYearMonth(month.month).value.1, dayNum))
    ensures r.Some? ==> r.value.date == CellDate(month.month, dayNum)
                        && r.value.record == FindDay(days, month.id, r.value.date)
                        && r.value.weekday < 7
                        && r.value.weekday == Weekday(Date(ParseYearMonth(month.month).value.0,
                                                           ParseYearMonth(month.month).value.1, dayNum))
  {
    match ParseYearMonth(month.month)
    case None => None
    case Some((y, m)) =>
      if dayNum > DaysInMonth(y, m) then None
      else
        var date := CellDate(month.month, dayNum);
        Some(GridCell(date, Weekday(Date(y, m, dayNum)), FindDay(days, month.id, date)))
  }

  /** `dayData?.entries?.[0]?.detail || getDayTitle(dayOfWeek)`: the cell's tooltip. */
  function CellTitle(record: Option<Day>, w: nat): (r: string)
    requires w < 7
    ensures FirstDetail(record).Some? && FirstDetail(record).value != "" ==> r == FirstDetail(record).value
    ensures !(FirstDetail(record).Some? && FirstDetail(record).value != "") ==> r == DayTitle(w)
  {
    match FirstDetail(record)
    case Some(t) => if t != "" then t else DayTitle(w)
    case None => DayTitle(w)
  }

  /** `(day?.attachments?.length || 0) > 0` */
  predicate HasFiles(record: Option<Day>) {
    record.Some? && |AttachmentsOf(record.value)| > 0
  }
}
