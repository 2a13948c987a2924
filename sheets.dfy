/**
 * A table of a Google spreadsheet as the routes use it: rows of cells,
 * read through a bounded range (`A2:E9999` and the like), cleared, written
 * from the first data row, updated one row at a time, or appended to.
 */
module Sheets {
  /** A cell value: text, or a boolean written with `RAW` input. */
  datatype Cell = Text(text: string) | Flag(flag: bool)

  type Row = seq<Cell>

  /** `String(value)` */
  function CellString(c: Cell): string {
    match c
    case Text(s) => s
    case Flag(b) => if b then "true" else "false"
  }

  /** `row[i]?.toString() || ''` */
  function Field(row: Row, i: nat): (r: string)
    ensures i >= |row| ==> r == ""
    ensures i < |row| && row[i].Text? ==> r == row[i].text
  {
    if i < |row| then CellString(row[i]) else ""
  }

  /** `row[i] || ''`: a false flag is falsy and reads as the empty string. */
  function FieldOr(row: Row, i: nat): (r: string)
    ensures i >= |row| ==> r == ""
    ensures i < |row| && row[i].Text? ==> r == row[i].text
    ensures i < |row| && row[i] == Flag(false) ==> r == ""
  {
    if i < |row| then
      match row[i]
      case Text(s) => s
      case Flag(b) => if b then "true" else ""
    else ""
  }

  /** `values.map(decode)`: one decoded value per row, in row order. */
  function MapRows<T>(rows: seq<Row>, decode: Row -> T): (r: seq<T>)
    ensures |r| == |rows| && forall i :: 0 <= i < |rows| ==> r[i] == decode(rows[i])
  {
    if rows == [] then [] else [decode(rows[0])] + MapRows(rows[1..], decode)
  }

  function Min(a: nat, b: nat): nat { if a <= b then a else b }

  /** The rows a read range starting at the first data row returns: at most `cap` of them. */
  function Window(rows: seq<Row>, cap: nat): (r: seq<Row>)
    ensures |r| == Min(|rows|, cap) && r == rows[..|r|]
  {
    rows[..Min(|rows|, cap)]
  }

  /** Data rows each read range of the routes can return (the range's last row minus the header row). */
  const DaysReadRows: nat := 9998
  const MonthsReadRows: nat := 999
  const YearsReadRows: nat := 99
  const UsersReadRows: nat := 99
  const SettingsReadRows: nat := 99

  class Sheet {
    /** The data rows, from sheet row 2 on. */
    var rows: seq<Row>

    constructor (initial: seq<Row>)
      ensures rows == initial
    {
      rows := initial;
    }

    /** `values.get` over a range of `cap` data rows. */
    function Read(cap: nat): seq<Row>
      reads this
    {
      Window(rows, cap)
    }

    /** `values.clear` over the data rows. */
    method Clear()
      modifies this
      ensures rows == []
    {
      rows := [];
    }

    /** `values.update` at `A2`: overwrites the first `|values|` data rows. */
    method WriteFromTop(values: seq<Row>)
      modifies this
      ensures rows == values + old(rows)[Min(|values|, |old(rows)|)..]
    {
      rows := values + rows[Min(|values|, |rows|)..];
    }

    /** `values.update` of the single data row `i` (sheet row `i + 2`). */
    method UpdateRow(i: nat, r: Row)
      requires i < |rows|
      modifies this
      ensures rows == old(rows)[i := r]
    {
      rows := rows[i := r];
    }

    /** `values.append`: one row after the last data row. */
    method Append(r: Row)
      modifies this
      ensures rows == old(rows) + [r]
    {
      rows := rows + [r];
    }
  }

  /** Where a table replacement can throw: never, at the clear call, or at the update call. */
  datatype WriteFault = NoFault | ClearFails | UpdateFails

  /**
   * `clear` then, only for a non-empty list, `update` at `A2`. Without a fault
   * the table is exactly the list; a fault at the update leaves it cleared.
   */
  method ReplaceAll(sheet: Sheet, values: seq<Row>, fault: WriteFault) returns (ok: bool)
    modifies sheet
    ensures ok <==> fault == NoFault || (fault == UpdateFails && |values| == 0)
    ensures fault == NoFault ==> sheet.rows == values
    ensures fault == ClearFails ==> sheet.rows == old(sheet.rows)
    ensures fault == UpdateFails ==> sheet.rows == []
  {
    if fault == ClearFails {
      return false;
    }
    sheet.Clear();
    if |values| > 0 {
      if fault == UpdateFails {
        return false;
      }
      sheet.WriteFromTop(values);
    }
    ok := true;
  }
}
