/** `/api/months`: the Months table, one row per month: id, year id, `yyyy-MM`, name. */
module MonthsRoute {
  import opened Wrappers
  import opened Text
  import opened Types
  import opened Calendar
  import opened ThaiDates
  import opened Sheets
  import opened Sorting

  /**
   * `${monthsThai[parseInt(month) - 1]} ${parseInt(year) + 543}` for the
   * pieces of `value.split('-')`; an index outside the table prints
   * `undefined` and a year without digits prints `NaN`, as in JavaScript.
   */
  function GeneratedName(value: string): string {
    var year := ParseIntPrefix(Before(value, '-'));
    var month := match After(value, '-')
      case Some(rest) => ParseIntPrefix(Before(rest, '-'))
      case None => None;
    var monthText := if month.Some? && 1 <= month.value <= 12 then FullMonthNames[month.value - 1] else "undefined";
    var yearText := if year.Some? then NatToString(year.value + BuddhistEraOffset) else "NaN";
    monthText + " " + yearText
  }

  /** For a well-formed `yyyy-MM` value the generated name is the Thai month and the Buddhist year. */
  lemma GeneratedNameOfMonth(value: string)
    requires ParseYearMonth(value).Some?
    ensures GeneratedName(value) == MonthLabel(ParseYearMonth(value).value.0, ParseYearMonth(value).value.1)
  {
    var y, mm := value[..4], value[5..];
    assert Before(value, '-') == y by {
      var b := Before(value, '-');
      assert |b| == 4;
      assert b == value[..|b|];
    }
    assert After(value, '-') == Some(mm);
    assert Before(mm, '-') == mm by {
      var b := Before(mm, '-');
      assert |b| == |mm|;
    }
    ParseIntPrefixDigits(y);
    ParseIntPrefixDigits(mm);
  }

  /** A decoded month: the stored name, or a generated one when the name is empty and the month is not. */
  function DecodeRow(row: Row): (m: Month)
    ensures FieldOr(row, 3) != "" ==> m.name == FieldOr(row, 3)
    ensures FieldOr(row, 3) == "" && FieldOr(row, 2) != "" ==> m.name == GeneratedName(FieldOr(row, 2))
    ensures FieldOr(row, 3) == "" && FieldOr(row, 2) == "" ==> m.name == ""
    ensures m.id == Field(row, 0) && m.yearId == Field(row, 1) && m.month == FieldOr(row, 2)
  {
    var value := FieldOr(row, 2);
    var stored := FieldOr(row, 3);
    var name := if stored == "" && value != "" then GeneratedName(value) else stored;
    Month(Field(row, 0), Field(row, 1), value, name)
  }

  function MonthKey(m: Month): string { m.month }

  /**
   * GET: `[]` without a spreadsheet id or when the fetch throws; otherwise
   * the decoded rows, sorted by their `yyyy-MM` value (stably).
   */
  function Get(configured: bool, read: Option<seq<Row>>): (r: seq<Month>)
    ensures !configured || read.None? ==> r == []
    ensures configured && read.Some? ==>
      SortedBy(r, MonthKey) && multiset(r) == multiset(MapRows(read.value, DecodeRow))
  {
    if !configured then []
    else match read
      case None => []
      case Some(rows) =>
        SortBySorted(MapRows(rows, DecodeRow), MonthKey);
        SortBy(MapRows(rows, DecodeRow), MonthKey)
  }

  /** `[month.id, month.yearId, month.month, month.name]` */
  function MonthToRow(m: Month): Row {
    [Text(m.id), Text(m.yearId), Text(m.month), Text(m.name)]
  }

  function MonthRows(ms: seq<Month>): (rows: seq<Row>)
    ensures |rows| == |ms| && forall i :: 0 <= i < |ms| ==> rows[i] == MonthToRow(ms[i])
  {
    if ms == [] then [] else [MonthToRow(ms[0])] + MonthRows(ms[1..])
  }

  datatype SaveReply = Saved | SaveFailed(status: nat, error: string)

  /** POST: the table becomes one row per month, in input order; an empty list leaves it cleared. */
  method Post(sheet: Sheet, ms: seq<Month>, fault: WriteFault) returns (reply: SaveReply)
    modifies sheet
    ensures fault == NoFault ==> reply == Saved && sheet.rows == MonthRows(ms)
    ensures fault == ClearFails ==> reply == SaveFailed(500, "Failed to save months") && sheet.rows == old(sheet.rows)
    ensures fault == UpdateFails && |ms| > 0 ==> reply == SaveFailed(500, "Failed to save months") && sheet.rows == []
    ensures fault == UpdateFails && |ms| == 0 ==> reply == Saved && sheet.rows == []
    ensures reply.SaveFailed? ==> reply == SaveFailed(500, "Failed to save months")
  {
    var ok := ReplaceAll(sheet, MonthRows(ms), fault);
    reply := if ok then Saved else SaveFailed(500, "Failed to save months");
  }

  /** A month with a name reads back unchanged. */
  lemma RowRoundTrip(m: Month)
    requires m.name != ""
    ensures DecodeRow(MonthToRow(m)) == m
  {
  }

  /**
   * A GET after a POST of at most 999 named months that are already in
   * `yyyy-MM` order returns exactly those months.
   */
  lemma GetAfterPost(ms: seq<Month>)
    requires |ms| <= MonthsReadRows
    requires forall i :: 0 <= i < |ms| ==> ms[i].name != ""
    requires SortedBy(ms, MonthKey)
    ensures Get(true, Some(Window(MonthRows(ms), MonthsReadRows))) == ms
  {
    var rows := MonthRows(ms);
    assert Window(rows, MonthsReadRows) == rows;
    DecodeWrittenRows(ms);
    SortBySortedUnchanged(ms, MonthKey);
  }

  lemma {:induction false} DecodeWrittenRows(ms: seq<Month>)
    requires forall i :: 0 <= i < |ms| ==> ms[i].name != ""
    ensures MapRows(MonthRows(ms), DecodeRow) == ms
  {
    var ds := MapRows(MonthRows(ms), DecodeRow);
    forall i | 0 <= i < |ms| ensures ds[i] == ms[i] {
      RowRoundTrip(ms[i]);
    }
  }

  /** Months that share a `yyyy-MM` value keep their table order after the sort. */
  lemma GetKeepsTableOrderPerMonth(rows: seq<Row>, value: string)
    ensures WithKey(Get(true, Some(rows)), MonthKey, value) == WithKey(MapRows(rows, DecodeRow), MonthKey, value)
  {
    SortByStable(MapRows(rows, DecodeRow), MonthKey, value);
  }
}
