/** The `users` table (app/Models/User.php) held in memory: rows in
    auto-increment order, looked up by email or by id, inserted with a
    password digest, and stamped with a last-login time. */
module Users {
  import opened Common

  /** `password_hash` modelled as an ideal, collision-free digest: the salt
      stands for the random salt PHP draws, and `PasswordVerify` accepts
      exactly the password that was hashed. */
  datatype Digest = Digest(salt: nat, secret: string)

  function PasswordHash(password: string, salt: nat): (d: Digest)
    ensures PasswordVerify(password, d)
    ensures forall other :: PasswordVerify(other, d) ==> other == password
  {
    Digest(salt, password)
  }

  predicate PasswordVerify(password: string, d: Digest) {
    d.secret == password
  }

  /** One row of `users`; `lastLoginAt` is NULL until the first login. */
  datatype User = User(
    userId: nat,
    role: string,
    email: string,
    phone: string,
    passwordHash: Digest,
    status: string,
    lastLoginAt: Option<int>)

  /** The data array handed to `create`; `status` may be absent. */
  datatype NewUser = NewUser(role: string, email: string, phone: string, password: string, status: Option<string>)

  /** Ids are the auto-increment values: strictly increasing in row order
      and all below the next value to hand out, which is at least 1. */
  ghost predicate WellFormed(rows: seq<User>, nextId: nat) {
    && nextId >= 1
    && (forall i :: 0 <= i < |rows| ==> rows[i].userId < nextId)
    && (forall i, j :: 0 <= i < j < |rows| ==> rows[i].userId < rows[j].userId)
  }

  ghost predicate UniqueEmails(rows: seq<User>) {
    forall i, j :: 0 <= i < j < |rows| ==> rows[i].email != rows[j].email
  }

  /** `SELECT * FROM users WHERE email = ?` followed by `fetch()`: the first
      matching row, or none. */
  function FindByEmail(rows: seq<User>, email: string): (r: Option<User>)
    ensures r.Some? ==> r.value in rows && r.value.email == email
    ensures r.None? <==> forall i :: 0 <= i < |rows| ==> rows[i].email != email
  {
    if rows == [] then None
    else if rows[0].email == email then Some(rows[0])
    else FindByEmail(rows[1..], email)
  }

  /** `SELECT * FROM users WHERE user_id = ?` followed by `fetch()`. */
  function FindById(rows: seq<User>, id: nat): (r: Option<User>)
    ensures r.Some? ==> r.value in rows && r.value.userId == id
    ensures r.None? <==> forall i :: 0 <= i < |rows| ==> rows[i].userId != id
  {
    if rows == [] then None
    else if rows[0].userId == id then Some(rows[0])
    else FindById(rows[1..], id)
  }

  /** With unique emails, the row found by email is the only row with it. */
  lemma {:induction false} FindByEmailUnique(rows: seq<User>, email: string, i: nat)
    requires UniqueEmails(rows)
    requires i < |rows| && rows[i].email == email
    ensures FindByEmail(rows, email) == Some(rows[i])
  {
    if i > 0 {
      assert rows[0].email != email;
      assert UniqueEmails(rows[1..]) by {
        forall a, b | 0 <= a < b < |rows| - 1 ensures rows[1..][a].email != rows[1..][b].email {
          assert rows[1..][a] == rows[a + 1] && rows[1..][b] == rows[b + 1];
        }
      }
      FindByEmailUnique(rows[1..], email, i - 1);
    }
  }

  /** With well-formed ids, the row found by id is the row at that position. */
  lemma {:induction false} FindByIdUnique(rows: seq<User>, nextId: nat, i: nat)
    requires WellFormed(rows, nextId)
    requires i < |rows|
    ensures FindById(rows, rows[i].userId) == Some(rows[i])
  {
    if i > 0 {
      assert rows[0].userId < rows[i].userId;
      assert WellFormed(rows[1..], nextId) by {
        forall a, b | 0 <= a < b < |rows| - 1 ensures rows[1..][a].userId < rows[1..][b].userId {
          assert rows[1..][a] == rows[a + 1] && rows[1..][b] == rows[b + 1];
        }
      }
      assert rows[1..][i - 1] == rows[i];
      FindByIdUnique(rows[1..], nextId, i - 1);
    }
  }

  /** The row `create` inserts: the password only as its digest, and status
      `pending` unless one is given. */
  function NewRow(id: nat, data: NewUser, salt: nat): (u: User)
    ensures u.userId == id && u.role == data.role && u.email == data.email && u.phone == data.phone
    ensures PasswordVerify(data.password, u.passwordHash)
    ensures u.status == if data.status.Some? then data.status.value else "pending"
    ensures u.lastLoginAt.None?
  {
    User(id, data.role, data.email, data.phone, PasswordHash(data.password, salt), data.status.GetOr("pending"), None)
  }

  /** An insert with the next auto-increment value keeps the ids well formed,
      and the new user is then found by its id. */
  lemma InsertKeepsIds(rows: seq<User>, nextId: nat, data: NewUser, salt: nat)
    requires WellFormed(rows, nextId)
    ensures WellFormed(rows + [NewRow(nextId, data, salt)], nextId + 1)
    ensures FindById(rows + [NewRow(nextId, data, salt)], nextId) == Some(NewRow(nextId, data, salt))
  {
    FindByIdUnique(rows + [NewRow(nextId, data, salt)], nextId + 1, |rows|);
  }

  /** `UPDATE users SET last_login_at = NOW() WHERE user_id = ?`. */
  function TouchLastLogin(rows: seq<User>, id: nat, now: int): (r: seq<User>)
    ensures |r| == |rows|
    ensures forall i :: 0 <= i < |rows| ==> r[i].(lastLoginAt := rows[i].lastLoginAt) == rows[i]
    ensures forall i :: 0 <= i < |rows| && rows[i].userId != id ==> r[i] == rows[i]
    ensures forall i :: 0 <= i < |rows| && rows[i].userId == id ==> r[i].lastLoginAt == Some(now)
  {
    seq(|rows|, i requires 0 <= i < |rows| =>
      if rows[i].userId == id then rows[i].(lastLoginAt := Some(now)) else rows[i])
  }

  /** Stamping a last login changes no id, email, role, status or digest:
      the table invariants survive it and every email lookup still finds a
      row exactly when it did before. */
  lemma TouchKeepsTable(rows: seq<User>, nextId: nat, id: nat, now: int)
    requires WellFormed(rows, nextId)
    ensures WellFormed(TouchLastLogin(rows, id, now), nextId)
    ensures UniqueEmails(rows) ==> UniqueEmails(TouchLastLogin(rows, id, now))
  {
  }

  lemma TouchKeepsEmails(rows: seq<User>, id: nat, now: int, email: string)
    ensures FindByEmail(TouchLastLogin(rows, id, now), email).None? <==> FindByEmail(rows, email).None?
  {
    var r := TouchLastLogin(rows, id, now);
    assert forall i :: 0 <= i < |rows| ==> r[i].email == rows[i].email;
  }

  /** After the stamp, the user is found by id with only `lastLoginAt` changed. */
  lemma TouchFoundById(rows: seq<User>, nextId: nat, id: nat, now: int)
    requires WellFormed(rows, nextId)
    requires FindById(rows, id).Some?
    ensures FindById(TouchLastLogin(rows, id, now), id) == Some(FindById(rows, id).value.(lastLoginAt := Some(now)))
  {
    var r := TouchLastLogin(rows, id, now);
    var i :| 0 <= i < |rows| && rows[i] == FindById(rows, id).value;
    TouchKeepsTable(rows, nextId, id, now);
    FindByIdUnique(r, nextId, i);
  }

  /** The `users` table with its auto-increment counter. */
  class UserTable {
    var rows: seq<User>
    var nextId: nat

    ghost predicate Valid()
      reads this
    {
      WellFormed(rows, nextId)
    }

    constructor ()
      ensures Valid() && rows == [] && nextId == 1
    {
      rows := [];
      nextId := 1;
    }

    /** Inserts one row and returns its new id (`lastInsertId`). */
    method Create(data: NewUser, salt: nat) returns (id: nat)
      requires Valid()
      modifies this
      ensures Valid()
      ensures id == old(nextId) && id >= 1 && nextId == id + 1
      ensures rows == old(rows) + [NewRow(id, data, salt)]
    {
      InsertKeepsIds(rows, nextId, data, salt);
      id := nextId;
      rows := rows + [NewRow(id, data, salt)];
      nextId := nextId + 1;
    }

    /** Sets `last_login_at` of user `id` to `now`; nothing else changes. */
    method UpdateLastLogin(id: nat, now: int)
      requires Valid()
      modifies this
      ensures Valid() && nextId == old(nextId)
      ensures rows == TouchLastLogin(old(rows), id, now)
    {
      TouchKeepsTable(rows, nextId, id, now);
      rows := TouchLastLogin(rows, id, now);
    }
  }
}
