/** `/api/settings`: the Settings table holds one `[key, value]` row per field. */
module SettingsRoute {
  import opened Wrappers
  import opened Types
  import opened Sheets

  const EmptySettings: Settings := Settings("", "", "")

  /** `key in settings` for the three declared fields. */
  predicate IsSettingsKey(key: string) {
    key == "schoolName" || key == "educationOffice" || key == "schoolLogo"
  }

  /** The key of a row: the text of its first cell, `''` when there is none. */
  function RowKey(row: Row): string {
    if |row| > 0 && row[0].Text? then row[0].text else ""
  }

  /** `settings[key] = value` */
  function SetField(s: Settings, key: string, value: string): (r: Settings)
    requires IsSettingsKey(key)
  {
    if key == "schoolName" then s.(schoolName := value)
    else if key == "educationOffice" then s.(educationOffice := value)
    else s.(schoolLogo := value)
  }

  /** `settings[key]` */
  function GetField(s: Settings, key: string): string
    requires IsSettingsKey(key)
  {
    if key == "schoolName" then s.schoolName
    else if key == "educationOffice" then s.educationOffice
    else s.schoolLogo
  }

  /** One step of the `forEach`: a row with a field name and a non-empty value sets that field. */
  function ApplyRow(s: Settings, row: Row): Settings {
    var key := RowKey(row);
    var value := FieldOr(row, 1);
    if key != "" && value != "" && IsSettingsKey(key) then SetField(s, key, value) else s
  }

  /** The settings after the rows up to the last one have been applied, in table order. */
  function Folded(rows: seq<Row>): Settings {
    if rows == [] then EmptySettings else ApplyRow(Folded(rows[..|rows| - 1]), rows[|rows| - 1])
  }

  /** GET's decoding loop: start from three empty fields and let every qualifying row overwrite one. */
  method DecodeRows(rows: seq<Row>) returns (s: Settings)
    ensures s == Folded(rows)
  {
    s := EmptySettings;
    var i := 0;
    while i < |rows|
      invariant 0 <= i <= |rows|
      invariant s == Folded(rows[..i])
    {
      assert rows[..i + 1][..i] == rows[..i];
      s := ApplyRow(s, rows[i]);
      i := i + 1;
    }
    assert rows[..|rows|] == rows;
  }

  /** The value the last row naming `key` with a non-empty value carries; `''` when none does. */
  function LastValue(rows: seq<Row>, key: string): string {
    if rows == [] then ""
    else
      var last := rows[|rows| - 1];
      if RowKey(last) == key && FieldOr(last, 1) != "" then FieldOr(last, 1)
      else LastValue(rows[..|rows| - 1], key)
  }

  /** Each field of the decoded settings is the value of the LAST qualifying row for it: later rows win. */
  lemma {:induction false} FoldedIsLastValue(rows: seq<Row>, key: string)
    requires IsSettingsKey(key)
    ensures GetField(Folded(rows), key) == LastValue(rows, key)
  {
    if rows != [] {
      FoldedIsLastValue(rows[..|rows| - 1], key);
    }
  }

  /** Rows whose key is not a field name change nothing. */
  lemma {:induction false} ForeignRowsIgnored(rows: seq<Row>, extra: seq<Row>)
    requires forall i :: 0 <= i < |extra| ==> !IsSettingsKey(RowKey(extra[i]))
    ensures Folded(rows + extra) == Folded(rows)
  {
    if extra == [] {
      assert rows + extra == rows;
    } else {
      var front := extra[..|extra| - 1];
      assert (rows + extra)[..|rows + extra| - 1] == rows + front;
      assert (rows + extra)[|rows + extra| - 1] == extra[|extra| - 1];
      ForeignRowsIgnored(rows, front);
    }
  }

  datatype SettingsReply = SettingsValue(settings: Settings) | SettingsError(status: nat, error: string, details: string)

  /** GET: the decoded settings, or 500 with the thrown message when the fetch fails (`read` is None). */
  method Get(read: Option<seq<Row>>, message: string) returns (reply: SettingsReply)
    ensures read.Some? ==> reply == SettingsValue(Folded(read.value))
    ensures read.None? ==> reply == SettingsError(500, "Failed to fetch settings", message)
  {
    if read.None? {
      return SettingsError(500, "Failed to fetch settings", message);
    }
    var s := DecodeRows(read.value);
    reply := SettingsValue(s);
  }

  /** `Object.entries(settings).map(([key, value]) => [key, value])` of the posted object. */
  function EntryRows(entries: seq<(string, string)>): (rows: seq<Row>)
    ensures |rows| == |entries|
    ensures forall i :: 0 <= i < |entries| ==> rows[i] == [Text(entries[i].0), Text(entries[i].1)]
  {
    if entries == [] then [] else [[Text(entries[0].0), Text(entries[0].1)]] + EntryRows(entries[1..])
  }

  /** The entries of a Settings value, in declaration order. */
  function SettingsEntries(s: Settings): seq<(string, string)> {
    [("schoolName", s.schoolName), ("educationOffice", s.educationOffice), ("schoolLogo", s.schoolLogo)]
  }

  datatype SaveReply = Saved | SaveFailed(status: nat, error: string, details: string)

  /**
   * POST: clear, then write every entry as a row, empty values included; the
   * update is called even for an empty object.
   */
  method Post(sheet: Sheet, entries: seq<(string, string)>, fault: WriteFault, message: string)
    returns (reply: SaveReply)
    modifies sheet
    ensures fault == NoFault ==> reply == Saved && sheet.rows == EntryRows(entries)
    ensures fault == ClearFails ==> sheet.rows == old(sheet.rows)
    ensures fault == UpdateFails ==> sheet.rows == []
    ensures fault != NoFault ==> reply == SaveFailed(500, "Failed to save settings", message)
  {
    if fault == ClearFails {
      return SaveFailed(500, "Failed to save settings", message);
    }
    sheet.Clear();
    if fault == UpdateFails {
      return SaveFailed(500, "Failed to save settings", message);
    }
    sheet.WriteFromTop(EntryRows(entries));
    reply := Saved;
  }

  /** Decoding the rows written for a Settings value gives back that value. */
  lemma RoundTrip(s: Settings)
    ensures Folded(Window(EntryRows(SettingsEntries(s)), SettingsReadRows)) == s
  {
    var rows := EntryRows(SettingsEntries(s));
    assert Window(rows, SettingsReadRows) == rows;
    assert rows[..1][..0] == [];
    assert Folded(rows[..1]) == Settings(s.schoolName, "", "");
    assert rows[..2][..1] == rows[..1];
    assert Folded(rows[..2]) == Settings(s.schoolName, s.educationOffice, "");
    assert rows[..3][..2] == rows[..2];
    assert rows[..3] == rows;
  }
}
