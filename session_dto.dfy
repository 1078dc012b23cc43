/**
 * The session transfer objects: the cookie settings, the signed-in user and the
 * session data, with the record form toJSON produces and fromJSON reads. Absent
 * (undefined) fields are None.
 */
module SessionDto {
  import opened Wrappers

  /** A Date: a millisecond time, or the Invalid Date (whose time is NaN). */
  datatype Instant = At(ms: int) | InvalidDate

  /**
   * cookie.expires as it may be found: unset (undefined or null), a Date object,
   * a non-empty text together with the instant the Date constructor parses it to,
   * or the empty text.
   */
  datatype Expires = Unset | DateObject(date: Instant) | DateText(parsed: Instant) | EmptyText

  /** sameSite: 'strict', 'lax', 'none', or a boolean. */
  datatype SameSite = Strict | Lax | NoSameSite | SameSiteFlag(on: bool)

  /** SessionCookieDto. */
  datatype SessionCookie = SessionCookie(
    expires: Expires,
    originalMaxAge: Option<int>,
    httpOnly: Option<bool>,
    secure: Option<bool>,
    sameSite: Option<SameSite>,
    path: Option<string>)

  /** A cookie with every field undefined. */
  const EmptyCookie: SessionCookie := SessionCookie(Unset, None, None, None, None, None)

  /** new SessionCookieDto(data?): the given fields, or all undefined without an argument. */
  function NewSessionCookie(data: Option<SessionCookie>): (c: SessionCookie)
    ensures data.None? ==> c == EmptyCookie
    ensures data.Some? ==> c == data.value
  {
    match data
    case None => EmptyCookie
    case Some(d) => SessionCookie(d.expires, d.originalMaxAge, d.httpOnly, d.secure, d.sameSite, d.path)
  }

  /** SessionUserDto (and the SessionUser kept in a session). */
  datatype SessionUser = SessionUser(
    id: string,
    logtoUserId: string,
    email: Option<string>,
    name: Option<string>,
    avatarUrl: Option<string>)

  /** new SessionUserDto(data): a field-by-field copy. */
  function NewSessionUser(data: SessionUser): (u: SessionUser)
    ensures u.id == data.id && u.logtoUserId == data.logtoUserId
    ensures u.email == data.email && u.name == data.name && u.avatarUrl == data.avatarUrl
  {
    SessionUser(data.id, data.logtoUserId, data.email, data.name, data.avatarUrl)
  }

  /** SessionDataDto: the cookie is always present. */
  datatype SessionData = SessionData(
    cookie: SessionCookie,
    user: Option<SessionUser>,
    logtoAccessToken: Option<string>,
    logtoRefreshToken: Option<string>,
    issuedAt: Option<int>,
    expiresAt: Option<int>)

  /** A record with the six session fields, each possibly absent: Partial<SessionDataDto> and what toJSON returns. */
  datatype SessionRecord = SessionRecord(
    cookie: Option<SessionCookie>,
    user: Option<SessionUser>,
    logtoAccessToken: Option<string>,
    logtoRefreshToken: Option<string>,
    issuedAt: Option<int>,
    expiresAt: Option<int>)

  /** new SessionDataDto(data): a missing (undefined or null) cookie becomes an empty one, the rest is copied. */
  function NewSessionData(data: SessionRecord): (d: SessionData)
    ensures d.cookie == data.cookie.GetOr(EmptyCookie)
    ensures d.user == data.user && d.logtoAccessToken == data.logtoAccessToken && d.logtoRefreshToken == data.logtoRefreshToken
    ensures d.issuedAt == data.issuedAt && d.expiresAt == data.expiresAt
  {
    var cookie := if data.cookie.Some? then data.cookie.value else NewSessionCookie(None);
    SessionData(cookie, data.user, data.logtoAccessToken, data.logtoRefreshToken, data.issuedAt, data.expiresAt)
  }

  /** toJSON: exactly the six fields. */
  function ToJSON(d: SessionData): (r: SessionRecord)
    ensures r.cookie == Some(d.cookie)
  {
    SessionRecord(Some(d.cookie), d.user, d.logtoAccessToken, d.logtoRefreshToken, d.issuedAt, d.expiresAt)
  }

  /** SessionDataDto.fromJSON: the constructor applied to the record's fields. */
  function FromJSON(r: SessionRecord): (d: SessionData)
    ensures r.cookie.None? ==> d.cookie == EmptyCookie
  {
    NewSessionData(SessionRecord(r.cookie, r.user, r.logtoAccessToken, r.logtoRefreshToken, r.issuedAt, r.expiresAt))
  }

  /** fromJSON(d.toJSON()) equals d field for field. */
  lemma FromJSONOfToJSON(d: SessionData)
    ensures FromJSON(ToJSON(d)) == d
  {
  }

  /** toJSON(fromJSON(r)) gives r back, with a missing cookie filled in. */
  lemma ToJSONOfFromJSON(r: SessionRecord)
    ensures ToJSON(FromJSON(r)) == r.(cookie := Some(r.cookie.GetOr(EmptyCookie)))
  {
  }

  /** Constructing session data twice is the same as constructing it once. */
  lemma NewSessionDataIdempotent(r: SessionRecord)
    ensures NewSessionData(ToJSON(NewSessionData(r))) == NewSessionData(r)
  {
  }
}
