/**
 * The Redis-backed session store over an abstract key/value store with
 * per-key time-to-live. Each session lives under "session:" + sid as the JSON
 * text of its toJSON record. Every operation is refused while the Redis client
 * has not been loaded. The clock is the `now` parameter (milliseconds).
 */
module RedisSessionStore {
  import opened Wrappers
  import opened SessionDto
  import opened JsValues

  const DefaultLifetimeMs: int := 24 * 60 * 60 * 1000
  const MinTtlSeconds: int := 60
  const NotInitialised: string := "Redis client not initialized. Install/configure ioredis"

  /** The key a session is stored under. */
  function Key(sid: string): (k: string)
    ensures |k| == |sid| + 8 && k[8..] == sid
  {
    "session:" + sid
  }

  /** Distinct sessions never share a key. */
  lemma KeysAreDistinct(a: string, b: string)
    requires a != b
    ensures Key(a) != Key(b)
  {
    assert Key(a)[8..] == a && Key(b)[8..] == b;
  }

  /** The expiry time calculateTTL starts from: a truthy cookie.expires through the Date constructor, else 24 hours from now. */
  function ExpiryTime(session: SessionData, now: int): (t: JsNumber)
    ensures session.cookie.expires.Unset? || session.cookie.expires.EmptyText? ==> t == Finite(now + DefaultLifetimeMs)
  {
    match session.cookie.expires
    case Unset => Finite(now + DefaultLifetimeMs)
    case EmptyText => Finite(now + DefaultLifetimeMs)
    case DateObject(d) => if d.At? then Finite(d.ms) else NaN
    case DateText(parsed) => if parsed.At? then Finite(parsed.ms) else NaN
  }

  /** calculateTTL as written: whole seconds until expiry, at least 60, or NaN for an invalid expiry Date. */
  function TtlAsWritten(session: SessionData, now: int): (ttl: JsNumber)
    ensures ttl.Finite? ==> ttl.n >= MinTtlSeconds
  {
    match ExpiryTime(session, now)
    case NaN => NaN
    case Finite(t) => JsMax(Finite((t - now) / 1000), MinTtlSeconds)
  }

  /** An invalid expiry Date makes the as-written TTL NaN, below no floor and not a valid EX argument. */
  lemma TtlAsWrittenIsNaNForInvalidDate(session: SessionData, now: int)
    requires session.cookie.expires == DateObject(InvalidDate)
    ensures TtlAsWritten(session, now) == NaN
  {
  }

  /** calculateTTL with the 60-second floor applied to every expiry: an invalid one counts as below the floor. */
  function CalculateTTL(session: SessionData, now: int): (ttl: int)
    ensures ttl >= MinTtlSeconds
    ensures TtlAsWritten(session, now).Finite? ==> TtlAsWritten(session, now) == Finite(ttl)
    ensures ExpiryTime(session, now).NaN? ==> ttl == MinTtlSeconds
  {
    match ExpiryTime(session, now)
    case NaN => MinTtlSeconds
    case Finite(t) => if (t - now) / 1000 > MinTtlSeconds then (t - now) / 1000 else MinTtlSeconds
  }

  /** Without a cookie expiry a session lives for a day. */
  lemma DefaultTtlIsADay(session: SessionData, now: int)
    requires session.cookie.expires.Unset?
    ensures CalculateTTL(session, now) == 86400
  {
  }

  /** An expiry at least a minute away gives the whole seconds remaining; anything nearer, or past, gives 60. */
  lemma TtlOfAnExpiryDate(session: SessionData, now: int, ms: int)
    requires session.cookie.expires == DateObject(At(ms))
    ensures ms - now >= 60000 ==> CalculateTTL(session, now) == (ms - now) / 1000
    ensures ms - now < 60000 ==> CalculateTTL(session, now) == MinTtlSeconds
  {
  }

  /** What JSON.stringify and JSON.parse make of cookie.expires: a Date becomes its ISO text (null when invalid). */
  function JsonExpires(e: Expires): (r: Expires)
    ensures !e.DateObject? ==> r == e
  {
    match e
    case DateObject(d) => if d.At? then DateText(d) else Unset
    case _ => e
  }

  /** A toJSON record after JSON.stringify and JSON.parse: only cookie.expires changes form. */
  function Stringified(r: SessionRecord): (s: SessionRecord)
    ensures s.cookie.None? <==> r.cookie.None?
    ensures s.(cookie := r.cookie) == r
  {
    match r.cookie
    case None => r
    case Some(c) => r.(cookie := Some(c.(expires := JsonExpires(c.expires))))
  }

  /** The JSON text round trip keeps the expiry instant (unless it was an invalid Date), so the TTL too. */
  lemma StringifyKeepsTtl(session: SessionData, now: int)
    requires session.cookie.expires != DateObject(InvalidDate)
    ensures var back := FromJSON(Stringified(ToJSON(session)));
            ExpiryTime(back, now) == ExpiryTime(session, now) && CalculateTTL(back, now) == CalculateTTL(session, now)
  {
  }

  /** An invalid Date is written as null, so the session read back has no expiry and the one-day TTL. */
  lemma InvalidExpiryReadsBackAsDefault(session: SessionData, now: int)
    requires session.cookie.expires == DateObject(InvalidDate)
    ensures var back := FromJSON(Stringified(ToJSON(session)));
            back.cookie.expires.Unset? && CalculateTTL(back, now) == 86400
  {
  }

  /** The text stored under a key: JSON of a session record, or text JSON.parse rejects. */
  datatype Stored = Document(record: SessionRecord) | Unreadable

  /** A stored value and its time-to-live in seconds. */
  datatype Entry = Entry(value: Stored, ttl: int)

  /** What get reads back from a key: null when absent or unreadable, else fromJSON of the parsed record. */
  function ReadBack(kv: map<string, Entry>, key: string): (r: Option<SessionData>)
    ensures key !in kv ==> r == None
    ensures key in kv && kv[key].value.Unreadable? ==> r == None
  {
    if key !in kv then None
    else match kv[key].value
      case Unreadable => None
      case Document(record) => Some(FromJSON(record))
  }

  /** Reading a session back after storing it gives it again, up to the ISO form of its expiry Date. */
  lemma ReadBackAfterSet(kv: map<string, Entry>, sid: string, session: SessionData, ttl: int)
    ensures ReadBack(kv[Key(sid) := Entry(Document(Stringified(ToJSON(session))), ttl)], Key(sid))
            == Some(session.(cookie := session.cookie.(expires := JsonExpires(session.cookie.expires))))
  {
  }

  /** Storing one session leaves what every other session reads back unchanged. */
  lemma SetIsolatesSessions(kv: map<string, Entry>, sid: string, other: string, e: Entry)
    requires sid != other
    ensures ReadBack(kv[Key(sid) := e], Key(other)) == ReadBack(kv, Key(other))
  {
    KeysAreDistinct(sid, other);
  }

  class Store {
    /** Whether the Redis client has been loaded. */
    var connected: bool
    /** The key/value store. */
    var kv: map<string, Entry>

    constructor (connected: bool, kv: map<string, Entry>)
      ensures this.connected == connected && this.kv == kv
    {
      this.connected := connected;
      this.kv := kv;
    }

    /** set: the session's JSON under its key with the computed TTL. */
    method Set(sid: string, session: SessionData, now: int) returns (r: Outcome<string>)
      modifies this
      ensures connected == old(connected)
      ensures !connected ==> r == Fail(NotInitialised) && kv == old(kv)
      ensures connected ==> r == Pass && kv == old(kv)[Key(sid) := Entry(Document(Stringified(ToJSON(session))), CalculateTTL(session, now))]
    {
      if !connected {
        return Fail(NotInitialised);
      }
      var ttl := CalculateTTL(session, now);
      var key := Key(sid);
      var value := Stringified(ToJSON(session));
      kv := kv[key := Entry(Document(value), ttl)];
      r := Pass;
    }

    /** get: the session stored under sid's key, or null. */
    method Get(sid: string) returns (r: Result<Option<SessionData>, string>)
      ensures !connected ==> r == Err(NotInitialised)
      ensures connected ==> r == Ok(ReadBack(kv, Key(sid)))
    {
      if !connected {
        return Err(NotInitialised);
      }
      var key := Key(sid);
      if key !in kv {
        return Ok(None);
      }
      match kv[key].value
      case Unreadable =>
        r := Ok(None);
      case Document(record) =>
        r := Ok(Some(FromJSON(record)));
    }

    /** destroy: deletes sid's key. */
    method Destroy(sid: string) returns (r: Outcome<string>)
      modifies this
      ensures connected == old(connected)
      ensures !connected ==> r == Fail(NotInitialised) && kv == old(kv)
      ensures connected ==> r == Pass && kv == old(kv) - {Key(sid)}
    {
      if !connected {
        return Fail(NotInitialised);
      }
      kv := kv - {Key(sid)};
      r := Pass;
    }

    /** touch: resets the TTL of sid's key, if it exists, leaving its value alone. */
    method Touch(sid: string, session: SessionData, now: int) returns (r: Outcome<string>)
      modifies this
      ensures connected == old(connected)
      ensures !connected ==> r == Fail(NotInitialised) && kv == old(kv)
      ensures connected && Key(sid) !in old(kv) ==> r == Pass && kv == old(kv)
      ensures connected && Key(sid) in old(kv) ==>
                r == Pass && kv == old(kv)[Key(sid) := old(kv)[Key(sid)].(ttl := CalculateTTL(session, now))]
    {
      if !connected {
        return Fail(NotInitialised);
      }
      var ttl := CalculateTTL(session, now);
      var key := Key(sid);
      if key in kv {
        kv := kv[key := kv[key].(ttl := ttl)];
      }
      r := Pass;
    }

    /** clearExpired: Redis expires keys itself, so nothing changes, connected or not. */
    method ClearExpired() returns (r: Outcome<string>)
      ensures r == Pass
      ensures kv == old(kv) && connected == old(connected)
    {
      r := Pass;
    }
  }
}
