/** The parts of an Express request the guards and decorators use: the session and the authenticated user. */
module ExpressRequest {
  import opened Wrappers
  import opened SessionDto

  /** The session attached to a request. */
  datatype Session = Session(
    user: Option<SessionUser>,
    logtoAccessToken: Option<string>,
    logtoRefreshToken: Option<string>,
    issuedAt: Option<int>,
    expiresAt: Option<int>)

  /** A request: its session, if any, and request.user as handlers see it. */
  class Request {
    var session: Option<Session>
    var user: Option<SessionUser>

    constructor (session: Option<Session>, user: Option<SessionUser>)
      ensures this.session == session && this.user == user
    {
      this.session := session;
      this.user := user;
    }
  }

  /** The session's user, or nothing without a session or without a user in it. */
  function SessionUserOf(session: Option<Session>): (u: Option<SessionUser>)
    ensures u.Some? <==> session.Some? && session.value.user.Some?
    ensures u.Some? ==> u.value == session.value.user.value
  {
    if session.None? || session.value.user.None? then None else session.value.user
  }
}
