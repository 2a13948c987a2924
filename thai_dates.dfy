/**
 * Thai month names and the Buddhist-era date labels the pages print
 * (`parseInt(day)`, a month name for `parseInt(month) - 1`, and the year plus 543).
 */
module ThaiDates {
  import opened Text
  import opened Wrappers
  import opened Calendar

  const BuddhistEraOffset: nat := 543

  const FullMonthNames: seq<string> := [
    "มกราคม", "กุมภาพันธ์", "มีนาคม", "เมษายน", "พฤษภาคม", "มิถุนายน",
    "กรกฎาคม", "สิงหาคม", "กันยายน", "ตุลาคม", "พฤศจิกายน", "ธันวาคม"
  ]

  const ShortMonthNames: seq<string> := [
    "ม.ค.", "ก.พ.", "มี.ค.", "เม.ย.", "พ.ค.", "มิ.ย.",
    "ก.ค.", "ส.ค.", "ก.ย.", "ต.ค.", "พ.ย.", "ธ.ค."
  ]

  predicate NoSpace(s: string) { forall i :: 0 <= i < |s| ==> s[i] != ' ' }

  /** The names of a table are pairwise different and contain no space. */
  predicate GoodNames(names: seq<string>) {
    |names| == 12
    && (forall i :: 0 <= i < 12 ==> NoSpace(names[i]))
    && (forall i, j :: 0 <= i < j < 12 ==> names[i] != names[j])
  }

  lemma MonthTablesGood()
    ensures GoodNames(FullMonthNames) && GoodNames(ShortMonthNames)
  {
    FullNamesGood();
    ShortNamesGood();
  }

  /** Two full month names have no space, and they are equal only for the same month. */
  lemma FullNameFacts(m1: nat, m2: nat)
    requires 1 <= m1 <= 12 && 1 <= m2 <= 12
    ensures NoSpace(FullMonthNames[m1 - 1]) && NoSpace(FullMonthNames[m2 - 1])
    ensures FullMonthNames[m1 - 1] == FullMonthNames[m2 - 1] ==> m1 == m2
  {
    FullNamesGood();
  }

  lemma FullNamesGood()
    ensures GoodNames(FullMonthNames)
  {
  }

  lemma ShortNamesGood()
    ensures GoodNames(ShortMonthNames)
  {
  }

  /** Weekday names indexed by `getDay()` (0 is Sunday). */
  const WeekdayNames: seq<string> := ["อาทิตย์", "จันทร์", "อังคาร", "พุธ", "พฤหัสบดี", "ศุกร์", "เสาร์"]

  /** The era marker DayDetailModal prints before the year. */
  const EraMarker: string := "พ.ศ. "

  /** `${day} ${names[month - 1]} ${era}${year + 543}`, with `era` either "" or `EraMarker`. */
  function Label(d: Date, names: seq<string>, era: string): string
    requires |names| == 12 && 1 <= d.month <= 12
  {
    NatToString(d.day) + " " + names[d.month - 1] + " " + era + NatToString(d.year + BuddhistEraOffset)
  }

  /**
   * The label of a stored date string; None stands for a string that `split('-')`
   * and `parseInt` do not turn into a day, a month 1..12 and a year.
   */
  function DateLabel(s: string, names: seq<string>, era: string): (r: Option<string>)
    requires |names| == 12
    ensures r.Some? <==> ParseDateParts(s).Some?
    ensures r.Some? ==> r.value == Label(ParseDateParts(s).value, names, era)
  {
    match ParseDateParts(s)
    case Some(d) => Some(Label(d, names, era))
    case None => None
  }

  /** `${monthsThai[month - 1]} ${year + 543}` for a `yyyy-MM` value. */
  function MonthLabel(year: nat, month: nat): string
    requires 1 <= month <= 12
  {
    FullMonthNames[month - 1] + " " + NatToString(year + BuddhistEraOffset)
  }

  lemma NatToStringNoSpace(n: nat)
    ensures NoSpace(NatToString(n))
  {
    NatToStringShape(n);
  }

  /** Index of the first space of `s`, or `|s|` when it has none. */
  function SpaceIndex(s: string): (r: nat)
    ensures r <= |s| && NoSpace(s[..r]) && (r < |s| ==> s[r] == ' ')
  {
    if |s| == 0 then 0
    else if s[0] == ' ' then 0
    else 1 + SpaceIndex(s[1..])
  }

  lemma {:induction false} SpaceIndexAfter(a: string, b: string)
    requires NoSpace(a)
    ensures SpaceIndex(a + " " + b) == |a|
  {
    if |a| > 0 {
      assert (a + " " + b)[1..] == a[1..] + " " + b;
      SpaceIndexAfter(a[1..], b);
    }
  }

  /** A space-free head before the first space is determined by the string. */
  lemma SplitAtSpace(a: string, b: string, c: string, d: string)
    requires NoSpace(a) && NoSpace(c) && a + " " + b == c + " " + d
    ensures a == c && b == d
  {
    var s := a + " " + b;
    SpaceIndexAfter(a, b);
    SpaceIndexAfter(c, d);
    assert a == s[..|a|] && c == (c + " " + d)[..|c|];
    assert b == s[|a| + 1..] && d == (c + " " + d)[|c| + 1..];
  }

  /** A label names one date only: two dates with the same label are the same date. */
  lemma LabelInjective(d1: Date, d2: Date, names: seq<string>, era: string)
    requires GoodNames(names) && 1 <= d1.month <= 12 && 1 <= d2.month <= 12
    requires Label(d1, names, era) == Label(d2, names, era)
    ensures d1 == d2
  {
    var y1 := NatToString(d1.year + BuddhistEraOffset);
    var y2 := NatToString(d2.year + BuddhistEraOffset);
    var t1 := names[d1.month - 1] + " " + (era + y1);
    var t2 := names[d2.month - 1] + " " + (era + y2);
    LabelDaySplit(d1, d2, names, era);
    SplitAtSpace(names[d1.month - 1], era + y1, names[d2.month - 1], era + y2);
    assert y1 == (era + y1)[|era|..] && y2 == (era + y2)[|era|..];
    NatToStringInjective(d1.year + BuddhistEraOffset, d2.year + BuddhistEraOffset);
  }

  /** Two equal labels have the same day, and the same text after the day's space. */
  lemma LabelDaySplit(d1: Date, d2: Date, names: seq<string>, era: string)
    requires |names| == 12 && 1 <= d1.month <= 12 && 1 <= d2.month <= 12
    requires Label(d1, names, era) == Label(d2, names, era)
    ensures d1.day == d2.day
    ensures names[d1.month - 1] + " " + (era + NatToString(d1.year + BuddhistEraOffset))
            == names[d2.month - 1] + " " + (era + NatToString(d2.year + BuddhistEraOffset))
  {
    var t1 := names[d1.month - 1] + " " + (era + NatToString(d1.year + BuddhistEraOffset));
    var t2 := names[d2.month - 1] + " " + (era + NatToString(d2.year + BuddhistEraOffset));
    NatToStringNoSpace(d1.day);
    NatToStringNoSpace(d2.day);
    assert Label(d1, names, era) == NatToString(d1.day) + " " + t1;
    assert Label(d2, names, era) == NatToString(d2.day) + " " + t2;
    SplitAtSpace(NatToString(d1.day), t1, NatToString(d2.day), t2);
    NatToStringInjective(d1.day, d2.day);
  }

  /** Different months (or years) get different generated month names. */
  lemma MonthLabelInjective(y1: nat, m1: nat, y2: nat, m2: nat)
    requires 1 <= m1 <= 12 && 1 <= m2 <= 12
    requires MonthLabel(y1, m1) == MonthLabel(y2, m2)
    ensures y1 == y2 && m1 == m2
  {
    FullNameFacts(m1, m2);
    SplitAtSpace(FullMonthNames[m1 - 1], NatToString(y1 + BuddhistEraOffset),
                 FullMonthNames[m2 - 1], NatToString(y2 + BuddhistEraOffset));
    NatToStringInjective(y1 + BuddhistEraOffset, y2 + BuddhistEraOffset);
  }

  /** A date the calendar writes as `yyyy-MM-dd` is read back by the label's split. */
  lemma PartsOfIso(d: Date)
    requires ValidDate(d) && d.year < 10000
    ensures ParseDateParts(IsoString(d)) == Some(d)
  {
    IsoRoundTrip(d);
  }

  /** The day is printed without a leading zero. */
  lemma LabelDayHasNoLeadingZero(d: Date, names: seq<string>, era: string)
    requires |names| == 12 && 1 <= d.month <= 12 && d.day >= 10
    ensures Label(d, names, era)[0] != '0'
  {
    NatToStringShape(d.day);
  }
}
