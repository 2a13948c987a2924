/** `/api/auth/login`: the credential check against the Users table, with the development fallback. */
module LoginRoute {
  import opened Wrappers
  import opened Types
  import opened Sheets
  import UsersRoute

  /** The fields of the posted body; an absent field is `undefined`. */
  datatype LoginBody = LoginBody(username: Option<string>, password: Option<string>)

  /** The user as a reply shows it: no password. */
  datatype PublicUser = PublicUser(id: string, username: string, fullname: string)

  datatype LoginReply = LoggedIn(user: PublicUser) | Rejected(status: nat, error: string)

  const DevAdmin: PublicUser := PublicUser("local-admin", "admin", "Local Admin (Dev Mode)")

  predicate IsAdminAdmin(body: LoginBody) {
    body.username == Some("admin") && body.password == Some("admin")
  }

  predicate Matches(u: User, body: LoginBody) {
    body.username == Some(u.username) && body.password == Some(u.password)
  }

  /** `users.find(u => u.username === username && u.password === password)` */
  function FindUser(users: seq<User>, body: LoginBody): (r: Option<nat>)
    ensures r.Some? ==> r.value < |users| && Matches(users[r.value], body)
    ensures r.Some? ==> forall j :: 0 <= j < r.value ==> !Matches(users[j], body)
    ensures r.None? ==> forall j :: 0 <= j < |users| ==> !Matches(users[j], body)
  {
    if users == [] then None
    else if Matches(users[0], body) then Some(0)
    else match FindUser(users[1..], body)
      case Some(k) => Some(k + 1)
      case None => None
  }

  function Public(u: User): PublicUser {
    PublicUser(u.id, u.username, u.fullname)
  }

  /** The `catch` branch: `body || { username: '', password: '' }`, and admin/admin still gets in. */
  function AfterException(body: Option<LoginBody>): (r: LoginReply)
    ensures r.LoggedIn? <==> body.Some? && IsAdminAdmin(body.value)
    ensures r.LoggedIn? ==> r.user == DevAdmin
    ensures r.Rejected? ==> r == Rejected(500, "Login failed")
  {
    if body.Some? && IsAdminAdmin(body.value) then LoggedIn(DevAdmin) else Rejected(500, "Login failed")
  }

  /**
   * POST. `body` is None when `request.json()` throws; `read` is None when the
   * Users fetch throws, otherwise the rows of `Users!A2:D100`.
   */
  function Login(body: Option<LoginBody>, configured: bool, read: Option<seq<Row>>): (r: LoginReply)
    ensures body.Some? && !configured ==>
      (r.LoggedIn? <==> IsAdminAdmin(body.value))
      && (r.LoggedIn? ==> r.user == DevAdmin)
      && (r.Rejected? ==> r == Rejected(401, "Invalid credentials"))
    ensures body.Some? && configured && read.Some? ==>
      var users := MapRows(read.value, UsersRoute.DecodeRow);
      (r.LoggedIn? <==> exists j :: 0 <= j < |users| && Matches(users[j], body.value))
      && (r.Rejected? ==> r == Rejected(401, "Invalid credentials"))
    ensures body.None? || (configured && read.None?) ==> r == AfterException(body)
  {
    match body
    case None => AfterException(body)
    case Some(b) =>
      if !configured then
        (if IsAdminAdmin(b) then LoggedIn(DevAdmin) else Rejected(401, "Invalid credentials"))
      else
        match read
        case None => AfterException(body)
        case Some(rows) =>
          var users := MapRows(rows, UsersRoute.DecodeRow);
          match FindUser(users, b)
          case Some(i) => assert 0 <= i < |users| && Matches(users[i], b); LoggedIn(Public(users[i]))
          case None => Rejected(401, "Invalid credentials")
  }

  /** With a readable table, the reply names the FIRST matching user, without the password. */
  lemma FirstMatchWins(b: LoginBody, rows: seq<Row>, i: nat)
    requires i < |rows| && Matches(UsersRoute.DecodeRow(rows[i]), b)
    requires forall j :: 0 <= j < i ==> !Matches(UsersRoute.DecodeRow(rows[j]), b)
    ensures Login(Some(b), true, Some(rows)) == LoggedIn(Public(UsersRoute.DecodeRow(rows[i])))
  {
    var users := MapRows(rows, UsersRoute.DecodeRow);
    assert Matches(users[i], b);
  }

  /** The table is consulted only when a spreadsheet is configured: `admin` is not special there. */
  lemma AdminNeedsARow(rows: seq<Row>)
    requires forall j :: 0 <= j < |rows| ==> UsersRoute.DecodeRow(rows[j]).username != "admin"
    ensures Login(Some(LoginBody(Some("admin"), Some("admin"))), true, Some(rows)) == Rejected(401, "Invalid credentials")
  {
    var users := MapRows(rows, UsersRoute.DecodeRow);
    assert forall j :: 0 <= j < |users| ==> users[j].username != "admin";
  }
}
