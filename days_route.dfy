/** `/api/days`: the Days table, one row per day: id, month id, date, entries cell, attachments cell. */
module DaysRoute {
  import opened Wrappers
  import opened Types
  import opened Sheets
  import opened CellCodec

  /** `[day.id, day.monthId, day.date, JSON.stringify(day.entries), JSON.stringify(day.attachments || [])]` */
  function DayToRow(d: Day): Row {
    [Text(d.id), Text(d.monthId), Text(d.date),
     Text(EncodeEntries(d.entries)), Text(EncodeAttachments(AttachmentsOf(d)))]
  }

  /** A cell is truthy when it is non-empty text or the flag `true`. */
  predicate Truthy(row: Row, i: nat) {
    i < |row| && (row[i] == Flag(true) || (row[i].Text? && row[i].text != ""))
  }

  /**
   * The entries and attachments of a row. Both cells are parsed inside one
   * `try`: a malformed entries cell leaves both lists empty, a malformed
   * attachments cell keeps the entries already parsed; empty cells give `[]`.
   */
  function DecodeLists(row: Row): (r: (seq<DayEntry>, seq<Attachment>))
    ensures !Truthy(row, 3) && !Truthy(row, 4) ==> r == ([], [])
    ensures Truthy(row, 3) && DecodeEntries(CellString(row[3])).None? ==> r == ([], [])
    ensures Truthy(row, 3) && DecodeEntries(CellString(row[3])).Some? ==> r.0 == DecodeEntries(CellString(row[3])).value
    ensures ((!Truthy(row, 3) || DecodeEntries(CellString(row[3])).Some?) && Truthy(row, 4)
             && DecodeAttachments(CellString(row[4])).None?) ==> r.1 == []
  {
    var entries :=
      if Truthy(row, 3) then DecodeEntries(CellString(row[3])) else Some([]);
    match entries
    case None => ([], [])
    case Some(es) =>
      var attachments :=
        if Truthy(row, 4) then DecodeAttachments(CellString(row[4])) else Some([]);
      match attachments
      case None => (es, [])
      case Some(xs) => (es, xs)
  }

  /** The `values.map` of GET: missing id, month id or date read as `''`. */
  function DecodeRow(row: Row): (d: Day)
    ensures d.attachments.Some?
    ensures |row| < 3 ==> d.date == ""
    ensures d.id == Field(row, 0) && d.monthId == Field(row, 1) && d.date == FieldOr(row, 2)
    ensures d.entries == DecodeLists(row).0 && d.attachments == Some(DecodeLists(row).1)
  {
    var lists := DecodeLists(row);
    Day(Field(row, 0), Field(row, 1), FieldOr(row, 2), lists.0, Some(lists.1))
  }

  /** A row the sheet cut short: its missing cells read as `''` and its lists as `[]`. */
  lemma ShortRowDecodes(row: Row)
    requires |row| < 3
    ensures DecodeRow(row) == Day(Field(row, 0), Field(row, 1), "", [], Some([]))
    ensures |row| == 0 ==> DecodeRow(row) == Day("", "", "", [], Some([]))
  {
  }

  /**
   * GET: `[]` without a spreadsheet id and when the fetch throws (`read` is
   * None), otherwise every row of the range decoded, in table order.
   */
  function Get(configured: bool, read: Option<seq<Row>>): (r: seq<Day>)
    ensures !configured || read.None? ==> r == []
    ensures configured && read.Some? ==> |r| == |read.value|
    ensures configured && read.Some? ==> forall i :: 0 <= i < |r| ==> r[i] == DecodeRow(read.value[i])
  {
    if !configured then []
    else match read
      case None => []
      case Some(rows) => MapRows(rows, DecodeRow)
  }

  /** The day as GET reports it after a write: missing attachments become `[]`. */
  function Stored(d: Day): Day {
    d.(attachments := Some(AttachmentsOf(d)))
  }

  /** Decoding the row written for a day gives back the day. */
  lemma RowRoundTrip(d: Day)
    ensures DecodeRow(DayToRow(d)) == Stored(d)
  {
    EntriesRoundTrip(d.entries);
    AttachmentsRoundTrip(AttachmentsOf(d));
  }

  function DayRows(days: seq<Day>): (rows: seq<Row>)
    ensures |rows| == |days| && forall i :: 0 <= i < |days| ==> rows[i] == DayToRow(days[i])
  {
    if days == [] then [] else [DayToRow(days[0])] + DayRows(days[1..])
  }

  function StoredAll(days: seq<Day>): (r: seq<Day>)
    ensures |r| == |days| && forall i :: 0 <= i < |days| ==> r[i] == Stored(days[i])
  {
    if days == [] then [] else [Stored(days[0])] + StoredAll(days[1..])
  }

  /** A GET after a POST of at most 9998 days returns those days, in order. */
  lemma GetAfterPost(days: seq<Day>)
    requires |days| <= DaysReadRows
    ensures Get(true, Some(Window(DayRows(days), DaysReadRows))) == StoredAll(days)
  {
    assert Window(DayRows(days), DaysReadRows) == DayRows(days);
    RowsRoundTrip(days);
  }

  /** Decoding the rows written for some days gives those days as stored. */
  lemma RowsRoundTrip(days: seq<Day>)
    ensures MapRows(DayRows(days), DecodeRow) == StoredAll(days)
  {
    var rows := DayRows(days);
    forall i | 0 <= i < |days|
      ensures MapRows(rows, DecodeRow)[i] == StoredAll(days)[i]
    {
      RowRoundTrip(days[i]);
    }
  }

  /** The body a POST receives, as `request.json()` yields it. */
  datatype DaysBody = DayArray(days: seq<Day>) | DayObject(day: Day)

  datatype SaveReply = Saved | SaveFailed(status: nat, error: string)

  /**
   * POST: clear, then write one row per day in input order if the body has a
   * positive `length`. A single object has no `length`, so nothing is written.
   */
  method Post(sheet: Sheet, body: DaysBody, fault: WriteFault) returns (reply: SaveReply)
    modifies sheet
    ensures fault == NoFault ==> reply == Saved
    ensures fault == NoFault && body.DayArray? ==> sheet.rows == DayRows(body.days)
    ensures fault == NoFault && body.DayObject? ==> sheet.rows == []
    ensures reply.SaveFailed? ==> reply == SaveFailed(500, "Failed to save days")
    ensures fault == ClearFails ==> reply.SaveFailed? && sheet.rows == old(sheet.rows)
    ensures body.DayObject? && fault != ClearFails ==> reply == Saved && sheet.rows == []
    ensures fault == UpdateFails && body.DayArray? && |body.days| > 0 ==>
              reply == SaveFailed(500, "Failed to save days") && sheet.rows == []
    ensures fault == UpdateFails && body.DayArray? && |body.days| == 0 ==> reply == Saved && sheet.rows == []
  {
    var values := if body.DayArray? then DayRows(body.days) else [];
    var ok := ReplaceAll(sheet, values, fault);
    reply := if ok then Saved else SaveFailed(500, "Failed to save days");
  }

  /** `ids.findIndex(row => row[0] === id)` over the rows the `A2:A9999` range returns. */
  function FindRow(rows: seq<Row>, id: string): (r: Option<nat>)
    ensures r.Some? ==> r.value < Min(|rows|, DaysReadRows) && |rows[r.value]| > 0 && rows[r.value][0] == Text(id)
    ensures r.Some? ==> forall j :: 0 <= j < r.value ==> !(|rows[j]| > 0 && rows[j][0] == Text(id))
    ensures r.None? ==> forall j :: 0 <= j < Min(|rows|, DaysReadRows) ==> !(|rows[j]| > 0 && rows[j][0] == Text(id))
  {
    FirstFrom(Window(rows, DaysReadRows), id, 0)
  }

  function FirstFrom(rows: seq<Row>, id: string, k: nat): (r: Option<nat>)
    requires k <= |rows|
    ensures r.Some? ==> k <= r.value < |rows| && |rows[r.value]| > 0 && rows[r.value][0] == Text(id)
    ensures r.Some? ==> forall j :: k <= j < r.value ==> !(|rows[j]| > 0 && rows[j][0] == Text(id))
    ensures r.None? ==> forall j :: k <= j < |rows| ==> !(|rows[j]| > 0 && rows[j][0] == Text(id))
    decreases |rows| - k
  {
    if k == |rows| then None
    else if |rows[k]| > 0 && rows[k][0] == Text(id) then Some(k)
    else FirstFrom(rows, id, k + 1)
  }

  /** The table after an upsert of `d`. */
  function Upserted(rows: seq<Row>, d: Day): seq<Row> {
    match FindRow(rows, d.id)
    case Some(i) => rows[i := DayToRow(d)]
    case None => rows + [DayToRow(d)]
  }

  /**
   * PUT: the first row (among the first 9998) holding the day's id is
   * overwritten; without one, a single row is appended. A fault at the
   * lookup or the write leaves the table untouched.
   */
  method Put(sheet: Sheet, d: Day, fault: bool) returns (reply: SaveReply)
    modifies sheet
    ensures !fault ==> reply == Saved && sheet.rows == Upserted(old(sheet.rows), d)
    ensures fault ==> reply == SaveFailed(500, "Failed to update day") && sheet.rows == old(sheet.rows)
  {
    if fault {
      return SaveFailed(500, "Failed to update day");
    }
    var index := FindRow(sheet.rows, d.id);
    if index.Some? {
      sheet.UpdateRow(index.value, DayToRow(d));
    } else {
      sheet.Append(DayToRow(d));
    }
    reply := Saved;
  }

  /**
   * An upsert changes the first matching row and no other, or appends one
   * row and keeps all others; afterwards the day's row is the first match.
   */
  lemma UpsertedShape(rows: seq<Row>, d: Day)
    ensures FindRow(rows, d.id).Some? ==>
      |Upserted(rows, d)| == |rows|
      && Upserted(rows, d)[FindRow(rows, d.id).value] == DayToRow(d)
      && forall j :: 0 <= j < |rows| && j != FindRow(rows, d.id).value ==> Upserted(rows, d)[j] == rows[j]
    ensures FindRow(rows, d.id).None? ==> Upserted(rows, d) == rows + [DayToRow(d)]
    ensures |rows| < DaysReadRows ==> FindRow(Upserted(rows, d), d.id).Some?
  {
    var r := Upserted(rows, d);
    if |rows| < DaysReadRows {
      match FindRow(rows, d.id)
      case Some(i) =>
        assert |r[i]| > 0 && r[i][0] == Text(d.id);
        assert i < Min(|r|, DaysReadRows);
      case None =>
        var k := |rows|;
        assert |r[k]| > 0 && r[k][0] == Text(d.id);
        assert k < Min(|r|, DaysReadRows);
    }
  }
}
