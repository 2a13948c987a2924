/** `/api/users`: the Users table: id, username, password, full name. */
module UsersRoute {
  import opened Wrappers
  import opened Types
  import opened Sheets

  function DecodeRow(row: Row): (u: User)
    ensures u.id == Field(row, 0) && u.username == FieldOr(row, 1)
    ensures u.password == FieldOr(row, 2) && u.fullname == FieldOr(row, 3)
  {
    User(Field(row, 0), FieldOr(row, 1), FieldOr(row, 2), FieldOr(row, 3))
  }

  datatype UsersReply = UserList(users: seq<User>) | UsersError(status: nat, error: string)

  /** GET: the decoded rows; a failed fetch is a 500. */
  function Get(read: Option<seq<Row>>): (r: UsersReply)
    ensures read.None? ==> r == UsersError(500, "Failed to fetch users")
    ensures read.Some? ==> r.UserList? && |r.users| == |read.value|
    ensures read.Some? ==> forall i :: 0 <= i < |read.value| ==> r.users[i] == DecodeRow(read.value[i])
  {
    match read
    case None => UsersError(500, "Failed to fetch users")
    case Some(rows) => UserList(MapRows(rows, DecodeRow))
  }

  /** `[user.id, user.username, user.password, user.fullname]` */
  function UserToRow(u: User): Row {
    [Text(u.id), Text(u.username), Text(u.password), Text(u.fullname)]
  }

  function UserRows(us: seq<User>): (rows: seq<Row>)
    ensures |rows| == |us| && forall i :: 0 <= i < |us| ==> rows[i] == UserToRow(us[i])
  {
    if us == [] then [] else [UserToRow(us[0])] + UserRows(us[1..])
  }

  datatype SaveReply = Saved | SaveFailed(status: nat, error: string)

  /** POST: the table becomes one row per user, in input order; an empty list leaves it cleared. */
  method Post(sheet: Sheet, us: seq<User>, fault: WriteFault) returns (reply: SaveReply)
    modifies sheet
    ensures fault == NoFault ==> reply == Saved && sheet.rows == UserRows(us)
    ensures fault == ClearFails ==> reply == SaveFailed(500, "Failed to save users") && sheet.rows == old(sheet.rows)
    ensures fault == UpdateFails && |us| > 0 ==> reply == SaveFailed(500, "Failed to save users") && sheet.rows == []
    ensures fault == UpdateFails && |us| == 0 ==> reply == Saved && sheet.rows == []
    ensures reply.SaveFailed? ==> reply == SaveFailed(500, "Failed to save users")
  {
    var ok := ReplaceAll(sheet, UserRows(us), fault);
    reply := if ok then Saved else SaveFailed(500, "Failed to save users");
  }

  /**
   * A GET after a POST returns the posted users, in order, up to the 99 rows
   * the read range `A2:D100` holds; a hundredth user is written but never read.
   */
  lemma {:induction false} GetAfterPost(us: seq<User>)
    ensures Get(Some(Window(UserRows(us), UsersReadRows))) == UserList(us[..Min(|us|, UsersReadRows)])
  {
    var rows := Window(UserRows(us), UsersReadRows);
    var ds := MapRows(rows, DecodeRow);
    forall i | 0 <= i < |rows| ensures ds[i] == us[i] {
      assert rows[i] == UserToRow(us[i]);
    }
  }
}
