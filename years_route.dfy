/** `/api/years`: the Years table: id, name, start date, end date, current flag. */
module YearsRoute {
  import opened Wrappers
  import opened Types
  import opened Sheets

  /** `row[4] === true || row[4] === 'TRUE' || row[4] === 'true'` */
  predicate IsCurrentCell(row: Row) {
    |row| > 4 && (row[4] == Flag(true) || row[4] == Text("TRUE") || row[4] == Text("true"))
  }

  function DecodeRow(row: Row): (y: Year)
    ensures y.isCurrent <==> IsCurrentCell(row)
    ensures y.id == Field(row, 0) && y.name == Field(row, 1)
    ensures y.startDate == FieldOr(row, 2) && y.endDate == FieldOr(row, 3)
  {
    Year(Field(row, 0), Field(row, 1), FieldOr(row, 2), FieldOr(row, 3), IsCurrentCell(row))
  }

  /** Only three cell values mark the current year; the text `True` or `1` does not. */
  lemma CurrentFlagValues()
    ensures DecodeRow([Text(""), Text(""), Text(""), Text(""), Text("TRUE")]).isCurrent
    ensures DecodeRow([Text(""), Text(""), Text(""), Text(""), Text("true")]).isCurrent
    ensures DecodeRow([Text(""), Text(""), Text(""), Text(""), Flag(true)]).isCurrent
    ensures !DecodeRow([Text(""), Text(""), Text(""), Text(""), Text("True")]).isCurrent
    ensures !DecodeRow([Text(""), Text(""), Text(""), Text(""), Text("1")]).isCurrent
    ensures !DecodeRow([Text(""), Text(""), Text(""), Text("")]).isCurrent
  {
    assert Text("True") != Text("TRUE") && Text("True") != Text("true");
    assert Text("1") != Text("TRUE") && Text("1") != Text("true");
  }

  datatype YearsReply = YearList(years: seq<Year>) | YearsError(status: nat, error: string)

  /** GET: the decoded rows; a failed fetch (`read` None) is a 500, not an empty list. */
  function Get(read: Option<seq<Row>>): (r: YearsReply)
    ensures read.None? ==> r == YearsError(500, "Failed to fetch years")
    ensures read.Some? ==> r.YearList? && |r.years| == |read.value|
    ensures read.Some? ==> forall i :: 0 <= i < |read.value| ==> r.years[i] == DecodeRow(read.value[i])
  {
    match read
    case None => YearsError(500, "Failed to fetch years")
    case Some(rows) => YearList(MapRows(rows, DecodeRow))
  }

  /** `[year.id, year.name, year.startDate, year.endDate, year.isCurrent]`, the flag as a boolean cell. */
  function YearToRow(y: Year): Row {
    [Text(y.id), Text(y.name), Text(y.startDate), Text(y.endDate), Flag(y.isCurrent)]
  }

  function YearRows(ys: seq<Year>): (rows: seq<Row>)
    ensures |rows| == |ys| && forall i :: 0 <= i < |ys| ==> rows[i] == YearToRow(ys[i])
  {
    if ys == [] then [] else [YearToRow(ys[0])] + YearRows(ys[1..])
  }

  datatype SaveReply = Saved | SaveFailed(status: nat, error: string)

  /** POST: the table becomes one row per year, in input order; an empty list leaves it cleared. */
  method Post(sheet: Sheet, ys: seq<Year>, fault: WriteFault) returns (reply: SaveReply)
    modifies sheet
    ensures fault == NoFault ==> reply == Saved && sheet.rows == YearRows(ys)
    ensures fault == ClearFails ==> reply == SaveFailed(500, "Failed to save years") && sheet.rows == old(sheet.rows)
    ensures fault == UpdateFails && |ys| > 0 ==> reply == SaveFailed(500, "Failed to save years") && sheet.rows == []
    ensures fault == UpdateFails && |ys| == 0 ==> reply == Saved && sheet.rows == []
    ensures reply.SaveFailed? ==> reply == SaveFailed(500, "Failed to save years")
  {
    var ok := ReplaceAll(sheet, YearRows(ys), fault);
    reply := if ok then Saved else SaveFailed(500, "Failed to save years");
  }

  /**
   * A GET after a POST returns the posted years, in order, up to the 99 rows
   * the read range `A2:E100` holds; later years are not read back.
   */
  lemma {:induction false} GetAfterPost(ys: seq<Year>)
    ensures Get(Some(Window(YearRows(ys), YearsReadRows))) == YearList(ys[..Min(|ys|, YearsReadRows)])
  {
    var rows := Window(YearRows(ys), YearsReadRows);
    var ds := MapRows(rows, DecodeRow);
    forall i | 0 <= i < |rows| ensures ds[i] == ys[i] {
      assert rows[i] == YearToRow(ys[i]);
    }
  }
}
