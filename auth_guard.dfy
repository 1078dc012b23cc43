/**
 * The route guards: AuthGuard admits a request whose session holds a user with
 * a non-empty id and publishes that user as request.user; RoleGuard admits any
 * request with a session user. Refusal is an Unauthorized error; neither guard
 * answers false.
 */
module AuthGuard {
  import opened Wrappers
  import opened SessionDto
  import opened ExpressRequest

  const NotAuthenticated: string := "Not authenticated"

  /** The requests AuthGuard lets through. */
  predicate Admits(session: Option<Session>) {
    SessionUserOf(session).Some? && SessionUserOf(session).value.id != ""
  }

  /** AuthGuard.canActivate: true with request.user set to the session user, or Unauthorized. */
  method CanActivate(request: Request) returns (r: Result<bool, string>)
    modifies request
    ensures request.session == old(request.session)
    ensures !Admits(old(request.session)) ==> r == Err(NotAuthenticated) && request.user == old(request.user)
    ensures Admits(old(request.session)) ==> r == Ok(true) && request.user == SessionUserOf(old(request.session))
  {
    var sessionUser := SessionUserOf(request.session);
    if sessionUser.None? || sessionUser.value.id == "" {
      return Err(NotAuthenticated);
    }
    request.user := sessionUser;
    r := Ok(true);
  }

  /** RoleGuard with its list of allowed roles. */
  datatype RoleGuard = RoleGuard(allowedRoles: seq<string>) {
    /** RoleGuard.canActivate: any session user is admitted. */
    function CanActivate(session: Option<Session>): (r: Result<bool, string>)
      ensures r.Err? <==> SessionUserOf(session).None?
      ensures r.Err? ==> r.error == NotAuthenticated
      ensures r.Ok? ==> r.value
    {
      var sessionUser := SessionUserOf(session);
      if sessionUser.None? then Err(NotAuthenticated) else Ok(true)
    }
  }

  /** The allowed roles play no part: every RoleGuard decides alike. */
  lemma RolesAreIgnored(g: RoleGuard, h: RoleGuard, session: Option<Session>)
    ensures g.CanActivate(session) == h.CanActivate(session)
  {
  }

  /** RoleGuard admits everything AuthGuard admits, and also a session user with an empty id. */
  lemma RoleGuardIsLaxer(g: RoleGuard, session: Option<Session>, u: SessionUser)
    ensures Admits(session) ==> g.CanActivate(session) == Ok(true)
    ensures u.id == "" ==> var s := Some(Session(Some(u), None, None, None, None));
                           !Admits(s) && g.CanActivate(s) == Ok(true)
  {
  }
}
