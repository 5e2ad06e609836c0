/** Login, registration and logout (app/Controllers/AuthController.php) as
    transitions over the users table and the session. */
module Auth {
  import opened Common
  import opened Users
  import opened Sessions

  const InvalidCredentials: string := "Invalid email or password."
  const AccountSuspended: string := "Your account has been suspended."
  const EmailTaken: string := "Email already exists."
  const RegistrationFailed: string := "Registration failed."

  /** What `login` decides from the credentials alone. */
  datatype LoginDecision = Rejected | Suspended | Accepted(user: User)

  function DecideLogin(rows: seq<User>, email: string, password: string): (d: LoginDecision)
    ensures d.Accepted? ==> d.user in rows && d.user.email == email
                            && PasswordVerify(password, d.user.passwordHash) && d.user.status != "suspended"
    ensures d.Suspended? ==>
              exists u :: (u in rows && u.email == email && PasswordVerify(password, u.passwordHash) && u.status == "suspended")
    ensures d.Rejected? <==> FindByEmail(rows, email).None? || !PasswordVerify(password, FindByEmail(rows, email).value.passwordHash)
  {
    var found := FindByEmail(rows, email);
    if found.Some? && PasswordVerify(password, found.value.passwordHash) then
      if found.value.status == "suspended" then Suspended else Accepted(found.value)
    else Rejected
  }

  /** With unique emails, login accepts exactly the stored user with that
      email and password whose status is anything but `suspended` (so a
      `pending` account logs in), and rejects exactly when no stored user
      has both that email and that password. */
  lemma LoginAcceptsExactly(rows: seq<User>, email: string, password: string, u: User)
    requires UniqueEmails(rows)
    ensures DecideLogin(rows, email, password) == Accepted(u) <==>
              u in rows && u.email == email && PasswordVerify(password, u.passwordHash) && u.status != "suspended"
    ensures DecideLogin(rows, email, password).Rejected? <==>
              forall v :: v in rows && v.email == email ==> !PasswordVerify(password, v.passwordHash)
  {
    if u in rows && u.email == email {
      var i :| 0 <= i < |rows| && rows[i] == u;
      FindByEmailUnique(rows, email, i);
    }
    var found := FindByEmail(rows, email);
    if found.Some? {
      var i :| 0 <= i < |rows| && rows[i] == found.value;
      FindByEmailUnique(rows, email, i);
      forall v | v in rows && v.email == email ensures v == found.value {
        var j :| 0 <= j < |rows| && rows[j] == v;
        FindByEmailUnique(rows, email, j);
      }
    }
  }

  /** The data array `register` hands to `User::create`: the posted role
      verbatim (default `client`), the posted email, phone and password
      (default `''`), and status `active`. */
  function RegistrationData(role: Option<string>, email: Option<string>, phone: Option<string>, password: Option<string>): (d: NewUser)
    ensures d.role == if role.Some? then role.value else "client"
    ensures d.email == if email.Some? then email.value else ""
    ensures d.phone == if phone.Some? then phone.value else ""
    ensures d.password == if password.Some? then password.value else ""
    ensures d.status == Some("active")
  {
    NewUser(role.GetOr("client"), email.GetOr(""), phone.GetOr(""), password.GetOr(""), Some("active"))
  }

  /** Inserting a user whose email is not yet taken keeps emails unique. */
  lemma RegisterKeepsEmailsUnique(rows: seq<User>, id: nat, data: NewUser, salt: nat)
    requires UniqueEmails(rows)
    requires FindByEmail(rows, data.email).None?
    ensures UniqueEmails(rows + [NewRow(id, data, salt)])
  {
    var r := rows + [NewRow(id, data, salt)];
    forall i, j | 0 <= i < j < |r| ensures r[i].email != r[j].email {
      if j == |rows| {
        assert r[i] == rows[i];
      } else {
        assert r[i] == rows[i] && r[j] == rows[j];
      }
    }
  }

  /** A user registered with an email not yet taken can then log in with the
      same email and password, and is accepted as exactly that new row. */
  lemma RegisterThenLogin(rows: seq<User>, id: nat, role: Option<string>, email: Option<string>,
                          phone: Option<string>, password: Option<string>, salt: nat)
    requires FindByEmail(rows, email.GetOr("")).None?
    ensures DecideLogin(rows + [NewRow(id, RegistrationData(role, email, phone, password), salt)],
                        email.GetOr(""), password.GetOr("")) ==
            Accepted(NewRow(id, RegistrationData(role, email, phone, password), salt))
  {
    var u := NewRow(id, RegistrationData(role, email, phone, password), salt);
    var r := rows + [u];
    assert r[|rows|] == u;
    var found := FindByEmail(r, email.GetOr(""));
    assert found.Some?;
    var k :| 0 <= k < |r| && r[k] == found.value;
    assert k == |rows| by {
      assert forall i :: 0 <= i < |rows| ==> r[i] == rows[i];
    }
  }

  class AuthController {
    const users: UserTable
    const session: Session

    constructor (users: UserTable, session: Session)
      ensures this.users == users && this.session == session
    {
      this.users := users;
      this.session := session;
    }

    /** POST /login. */
    method Login(email: Option<string>, password: Option<string>, now: int) returns (resp: Response<Option<string>>)
      requires users.Valid()
      modifies users, session
      ensures users.Valid() && users.nextId == old(users.nextId)
      ensures match DecideLogin(old(users.rows), email.GetOr(""), password.GetOr(""))
        case Rejected =>
          resp == Render("auth/login", Some(InvalidCredentials))
          && session.data == old(session.data) && users.rows == old(users.rows)
        case Suspended =>
          resp == Render("auth/login", Some(AccountSuspended))
          && session.data == old(session.data) && users.rows == old(users.rows)
        case Accepted(u) =>
          resp == Redirect("/")
          && session.data == SessionData(Some(u.userId), Some(u.role))
          && users.rows == TouchLastLogin(old(users.rows), u.userId, now)
    {
      var e := email.GetOr("");
      var p := password.GetOr("");
      var user := FindByEmail(users.rows, e);
      if user.Some? && PasswordVerify(p, user.value.passwordHash) {
        if user.value.status == "suspended" {
          resp := Render("auth/login", Some(AccountSuspended));
          return;
        }
        session.data := SessionData(Some(user.value.userId), Some(user.value.role));
        users.UpdateLastLogin(user.value.userId, now);
        resp := Redirect("/");
      } else {
        resp := Render("auth/login", Some(InvalidCredentials));
      }
    }

    /** POST /register. */
    method Register(role: Option<string>, email: Option<string>, phone: Option<string>, password: Option<string>, salt: nat)
      returns (resp: Response<Option<string>>)
      requires users.Valid()
      modifies users, session
      ensures users.Valid()
      ensures FindByEmail(old(users.rows), email.GetOr("")).Some? ==>
                resp == Render("auth/register", Some(EmailTaken))
                && session.data == old(session.data)
                && users.rows == old(users.rows) && users.nextId == old(users.nextId)
      ensures FindByEmail(old(users.rows), email.GetOr("")).None? ==>
                var id := old(users.nextId);
                resp == Redirect("/")
                && users.rows == old(users.rows) + [NewRow(id, RegistrationData(role, email, phone, password), salt)]
                && users.nextId == id + 1
                && session.data == SessionData(Some(id), Some(role.GetOr("client")))
      ensures UniqueEmails(old(users.rows)) ==> UniqueEmails(users.rows)
      ensures FindByEmail(old(users.rows), email.GetOr("")).None? ==>
                DecideLogin(users.rows, email.GetOr(""), password.GetOr("")).Accepted?
    {
      var r := role.GetOr("client");
      var e := email.GetOr("");
      if FindByEmail(users.rows, e).Some? {
        resp := Render("auth/register", Some(EmailTaken));
        return;
      }
      var data := RegistrationData(role, email, phone, password);
      if UniqueEmails(users.rows) {
        RegisterKeepsEmailsUnique(users.rows, users.nextId, data, salt);
      }
      RegisterThenLogin(users.rows, users.nextId, role, email, phone, password, salt);
      var userId := users.Create(data, salt);
      if userId != 0 {
        session.data := SessionData(Some(userId), Some(r));
        resp := Redirect("/");
      } else {
        resp := Render("auth/register", Some(RegistrationFailed));
      }
    }

    /** GET /logout: the session is destroyed. */
    method Logout() returns (resp: Response<Option<string>>)
      modifies session
      ensures session.data == EmptySession
      ensures resp == Redirect("/login")
    {
      session.data := EmptySession;
      resp := Redirect("/login");
    }
  }
}
