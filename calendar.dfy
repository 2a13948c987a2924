/**
 * Civil (proleptic Gregorian) calendar arithmetic. The source computes these with JavaScript
 * `Date` objects in a zone with a non-negative, constant UTC offset (Asia/Bangkok), where
 * `new Date(y, m - 1, d)` and `new Date("yyyy-MM-dd")` both fall on the civil date itself.
 */
module Calendar {
  import opened Text
  import opened Wrappers

  datatype Date = Date(year: nat, month: nat, day: nat)

  predicate IsLeap(y: nat) {
    (y % 4 == 0 && y % 100 != 0) || y % 400 == 0
  }

  /** `new Date(y, m, 0).getDate()` for a month number 1..12. */
  function DaysInMonth(y: nat, m: nat): (n: nat)
    ensures 1 <= m <= 12 ==> 28 <= n <= 31
    ensures m == 2 ==> (n == 29 <==> IsLeap(y))
  {
    if m == 2 then (if IsLeap(y) then 29 else 28)
    else if m == 4 || m == 6 || m == 9 || m == 11 then 30
    else if 1 <= m <= 12 then 31
    else 0
  }

  predicate ValidDate(d: Date) {
    1 <= d.month <= 12 && 1 <= d.day <= DaysInMonth(d.year, d.month)
  }

  function YearLength(y: nat): nat {
    if IsLeap(y) then 366 else 365
  }

  /** Days in the years 0 .. y-1 (the multiples of 4, 100 and 400 below y counted in closed form). */
  function DaysBeforeYear(y: nat): nat {
    365 * y + (y + 3) / 4 - (y + 99) / 100 + (y + 399) / 400
  }

  /** Days in the months 1 .. m-1 of year y. */
  function DaysBeforeMonth(y: nat, m: nat): nat
    requires 1 <= m <= 12
  {
    var cumulative := [0, 31, 59, 90, 120, 151, 181, 212, 243, 273, 304, 334];
    cumulative[m - 1] + (if m > 2 && IsLeap(y) then 1 else 0)
  }

  /** Days elapsed since 0000-01-01 (day 0). */
  function DayNumber(d: Date): nat
    requires ValidDate(d)
  {
    DaysBeforeYear(d.year) + DaysBeforeMonth(d.year, d.month) + d.day - 1
  }

  /** `getDay()`: 0 = Sunday .. 6 = Saturday. Day 0 (0000-01-01) was a Saturday. */
  function Weekday(d: Date): (w: nat)
    requires ValidDate(d)
    ensures w < 7
  {
    (DayNumber(d) + 6) % 7
  }

  /** The calendar is anchored correctly: 1 January 2025 was a Wednesday, 1 January 2000 a Saturday. */
  lemma WeekdayAnchors()
    ensures Weekday(Date(2025, 1, 1)) == 3
    ensures Weekday(Date(2000, 1, 1)) == 6
    ensures Weekday(Date(2026, 10, 14)) == 3
  {
  }

  lemma YearStep(y: nat)
    ensures DaysBeforeYear(y + 1) == DaysBeforeYear(y) + YearLength(y)
  {
    FoursStep(y);
    CenturiesStep(y);
    QuadCenturiesStep(y);
    DivisorsOfCenturies(y);
    var f, c, q := (if y % 4 == 0 then 1 else 0), (if y % 100 == 0 then 1 else 0), (if y % 400 == 0 then 1 else 0);
    assert DaysBeforeYear(y + 1) == DaysBeforeYear(y) + 365 + f - c + q;
    assert YearLength(y) == 365 + f - c + q;
  }

  lemma DivisorsOfCenturies(y: nat)
    ensures y % 400 == 0 ==> y % 100 == 0
    ensures y % 100 == 0 ==> y % 4 == 0
  {
    if y % 400 == 0 {
      var k := y / 400;
      assert y == 100 * (4 * k);
    }
    if y % 100 == 0 {
      var k := y / 100;
      assert y == 4 * (25 * k);
    }
  }

  /** Counting multiples of 4, 100 and 400: one more below `y + 1` than below `y` exactly when `y` is one. */
  lemma FoursStep(y: nat)
    ensures (y + 4) / 4 == (y + 3) / 4 + (if y % 4 == 0 then 1 else 0)
  {
    var a, r := y / 4, y % 4;
    assert y == 4 * a + r;
  }

  lemma CenturiesStep(y: nat)
    ensures (y + 100) / 100 == (y + 99) / 100 + (if y % 100 == 0 then 1 else 0)
  {
    var a, r := y / 100, y % 100;
    assert y == 100 * a + r;
  }

  lemma QuadCenturiesStep(y: nat)
    ensures (y + 400) / 400 == (y + 399) / 400 + (if y % 400 == 0 then 1 else 0)
  {
    var a, r := y / 400, y % 400;
    assert y == 400 * a + r;
  }

  /** `d.setDate(d.getDate() + 1)` on a civil date. */
  function NextDate(d: Date): (r: Date)
    requires ValidDate(d)
    ensures ValidDate(r)
  {
    if d.day < DaysInMonth(d.year, d.month) then Date(d.year, d.month, d.day + 1)
    else if d.month < 12 then Date(d.year, d.month + 1, 1)
    else Date(d.year + 1, 1, 1)
  }

  /** Stepping a date advances its day number by exactly one, so the weekday advances by one. */
  lemma NextDateStep(d: Date)
    requires ValidDate(d)
    ensures DayNumber(NextDate(d)) == DayNumber(d) + 1
    ensures Weekday(NextDate(d)) == (Weekday(d) + 1) % 7
  {
    var n := DayNumber(d);
    assert DayNumber(NextDate(d)) == n + 1 by {
      if d.day < DaysInMonth(d.year, d.month) {
      } else if d.month < 12 {
        MonthStep(d.year, d.month);
      } else {
        YearStep(d.year);
      }
    }
    ModSeven(n + 6);
  }

  /** The months before `m + 1` are those before `m` and `m` itself. */
  lemma MonthStep(y: nat, m: nat)
    requires 1 <= m < 12
    ensures DaysBeforeMonth(y, m + 1) == DaysBeforeMonth(y, m) + DaysInMonth(y, m)
  {
  }

  lemma ModSeven(a: nat)
    ensures (a + 1) % 7 == (a % 7 + 1) % 7
  {
    var q, r := a / 7, a % 7;
    assert a + 1 == 7 * q + (r + 1);
  }

  /** `toISOString().split('T')[0]`: `yyyy-MM-dd`. */
  function IsoString(d: Date): string {
    Pad4(d.year) + "-" + Pad2(d.month) + "-" + Pad2(d.day)
  }

  /** Reading a `yyyy-MM-dd` string (the form the calendar writes); None stands for an invalid date. */
  function ParseIsoDate(s: string): (r: Option<Date>)
    ensures r.Some? ==> ValidDate(r.value)
  {
    if |s| == 10 && s[4] == '-' && s[7] == '-' && AllDigits(s[..4]) && AllDigits(s[5..7]) && AllDigits(s[8..])
    then
      var d := Date(DigitsValue(s[..4]), DigitsValue(s[5..7]), DigitsValue(s[8..]));
      if ValidDate(d) then Some(d) else None
    else None
  }

  /** `new Date(s).getDay()`; None stands for NaN (a string that is not a date). */
  function WeekdayOf(s: string): (r: Option<nat>)
    ensures r.Some? ==> r.value < 7
  {
    match ParseIsoDate(s)
    case Some(d) => Some(Weekday(d))
    case None => None
  }

  /** `dayOfWeek === 0 || dayOfWeek === 6` (false for NaN). */
  predicate IsWeekend(w: Option<nat>) {
    w == Some(0) || w == Some(6)
  }

  /** Split of a `yyyy-MM` month value into its year and month numbers. */
  function ParseYearMonth(s: string): (r: Option<(nat, nat)>)
    ensures r.Some? ==> 1 <= r.value.1 <= 12
  {
    if |s| == 7 && s[4] == '-' && AllDigits(s[..4]) && AllDigits(s[5..]) && 1 <= DigitsValue(s[5..]) <= 12
    then Some((DigitsValue(s[..4]), DigitsValue(s[5..])))
    else None
  }

  /** `dateStr.split('-')` into year, month and day numbers, with a month that names a month. */
  function ParseDateParts(s: string): (r: Option<Date>)
    ensures r.Some? ==> 1 <= r.value.month <= 12
  {
    if |s| == 10 && s[4] == '-' && s[7] == '-' && AllDigits(s[..4]) && AllDigits(s[5..7]) && AllDigits(s[8..])
       && 1 <= DigitsValue(s[5..7]) <= 12
    then Some(Date(DigitsValue(s[..4]), DigitsValue(s[5..7]), DigitsValue(s[8..])))
    else None
  }

  lemma {:induction false} LeadingZero(ds: string)
    requires AllDigits(ds)
    ensures AllDigits("0" + ds) && DigitsValue("0" + ds) == DigitsValue(ds)
    decreases |ds|
  {
    if ds != [] {
      var t := "0" + ds;
      assert t[..|t| - 1] == "0" + ds[..|ds| - 1];
      LeadingZero(ds[..|ds| - 1]);
    }
  }

  lemma NatToStringLength(n: nat)
    ensures n < 10 ==> |NatToString(n)| == 1
    ensures 10 <= n < 100 ==> |NatToString(n)| == 2
    ensures 100 <= n < 1000 ==> |NatToString(n)| == 3
    ensures 1000 <= n < 10000 ==> |NatToString(n)| == 4
  {
    if n >= 10 {
      NatToStringLength(n / 10);
    }
  }

  lemma Pad2Shape(n: nat)
    requires n < 100
    ensures |Pad2(n)| == 2 && AllDigits(Pad2(n)) && DigitsValue(Pad2(n)) == n
  {
    NatToStringShape(n);
    NatToStringLength(n);
    if n < 10 { LeadingZero(NatToString(n)); }
  }

  lemma Pad4Shape(n: nat)
    requires n < 10000
    ensures |Pad4(n)| == 4 && AllDigits(Pad4(n)) && DigitsValue(Pad4(n)) == n
  {
    var s := NatToString(n);
    NatToStringShape(n);
    NatToStringLength(n);
    if n < 10 {
      LeadingZero(s); LeadingZero("0" + s); LeadingZero("0" + ("0" + s));
      assert "000" + s == "0" + ("0" + ("0" + s));
    } else if n < 100 {
      LeadingZero(s); LeadingZero("0" + s);
      assert "00" + s == "0" + ("0" + s);
    } else if n < 1000 {
      LeadingZero(s);
    }
  }

  /** Printing a date of a four-digit year and reading it back gives the same date. */
  lemma IsoRoundTrip(d: Date)
    requires ValidDate(d) && d.year < 10000
    ensures ParseIsoDate(IsoString(d)) == Some(d)
  {
    Pad4Shape(d.year);
    Pad2Shape(d.month);
    Pad2Shape(d.day);
    var s := IsoString(d);
    assert s[..4] == Pad4(d.year);
    assert s[5..7] == Pad2(d.month);
    assert s[8..] == Pad2(d.day);
  }
}
