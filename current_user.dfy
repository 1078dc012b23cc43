/**
 * The parameter decorators: CurrentUser gives the session's user or null;
 * RequireAuth gives it or fails. Neither looks at the user's id.
 */
module CurrentUser {
  import opened Wrappers
  import opened SessionDto
  import opened ExpressRequest

  const NoSession: string := "Unauthorized: no session found"

  /** CurrentUser: the session user, or null without a session or a user. */
  function CurrentUser(session: Option<Session>): (u: Option<SessionUser>)
    ensures u.None? <==> session.None? || session.value.user.None?
    ensures u.Some? ==> u.value == session.value.user.value
  {
    if session.None? || session.value.user.None? then None else Some(session.value.user.value)
  }

  /** RequireAuth: the session user, or an error in the same cases where CurrentUser gives null. */
  function RequireAuth(session: Option<Session>): (r: Result<SessionUser, string>)
    ensures r.Err? <==> CurrentUser(session).None?
    ensures r.Err? ==> r.error == NoSession
    ensures r.Ok? ==> CurrentUser(session) == Some(r.value)
  {
    if session.None? || session.value.user.None? then Err(NoSession) else Ok(session.value.user.value)
  }

  /** A user with an empty id is still handed out by both decorators. */
  lemma EmptyIdIsNotChecked(u: SessionUser)
    requires u.id == ""
    ensures var s := Some(Session(Some(u), None, None, None, None));
            CurrentUser(s) == Some(u) && RequireAuth(s) == Ok(u)
  {
  }

  /** Both decorators agree with the session-user lookup the guards use. */
  lemma DecoratorsAgreeWithGuards(session: Option<Session>)
    ensures CurrentUser(session) == SessionUserOf(session)
  {
  }
}
