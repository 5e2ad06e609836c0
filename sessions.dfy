/** The PHP session as this application uses it: the two keys `user_id` and
    `role`, and the role check that guards a controller's constructor. */
module Sessions {
  import opened Common

  /** `$_SESSION['user_id']` and `$_SESSION['role']`; an unset key is None. */
  datatype SessionData = SessionData(userId: Option<nat>, role: Option<string>)

  const EmptySession: SessionData := SessionData(None, None)

  /** The session store of the current request, written by the
      authentication actions. */
  class Session {
    var data: SessionData

    constructor (initial: SessionData)
      ensures data == initial
    {
      data := initial;
    }
  }

  /** `if (!isset($_SESSION['user_id']) || $_SESSION['role'] !== role)
      redirect('/login')`: the redirect target, or None when the guard lets
      the request through. */
  function RoleGuard(s: SessionData, role: string): (r: Option<string>)
    ensures r.None? <==> s.userId.Some? && s.role == Some(role)
    ensures r.Some? ==> r.value == "/login"
  {
    if s.userId.None? || s.role != Some(role) then Some("/login") else None
  }
}
