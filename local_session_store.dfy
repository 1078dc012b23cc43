/**
 * The in-memory session store: a map from session id to the session data and
 * its expiry time. Expiry is lazy: a record past its time is removed when it is
 * read or swept. The clock is the `now` parameter (milliseconds).
 */
module LocalSessionStore {
  import opened Wrappers
  import opened SessionDto

  /** 24 hours in milliseconds. */
  const DefaultLifetimeMs: int := 24 * 60 * 60 * 1000

  /** A stored record: the session and the Date it expires at. */
  datatype SessionEntry = SessionEntry(data: SessionData, expireAt: Instant)

  /** calculateExpiry: the cookie's Date, the Date its text parses to, or 24 hours from now. */
  function CalculateExpiry(session: SessionData, now: int): (e: Instant)
    ensures session.cookie.expires.Unset? ==> e == At(now + DefaultLifetimeMs)
    ensures session.cookie.expires.DateObject? ==> e == session.cookie.expires.date
    ensures session.cookie.expires.DateText? ==> e == session.cookie.expires.parsed
    ensures session.cookie.expires.EmptyText? ==> e == InvalidDate
  {
    match session.cookie.expires
    case DateObject(d) => d
    case DateText(parsed) => parsed
    case EmptyText => InvalidDate
    case Unset => At(now + DefaultLifetimeMs)
  }

  /** `expireAt < now` on Dates: false whenever either time is NaN. */
  predicate Expired(e: SessionEntry, now: int) {
    e.expireAt.At? && e.expireAt.ms < now
  }

  /** The records a sweep at time now keeps. */
  function Live(m: map<string, SessionEntry>, now: int): (live: map<string, SessionEntry>)
    ensures forall sid :: sid in live <==> sid in m && !Expired(m[sid], now)
    ensures forall sid :: sid in live ==> live[sid] == m[sid]
  {
    map sid | sid in m && !Expired(m[sid], now) :: m[sid]
  }

  /** A record whose expiry is exactly now is still live: expiry is strict. */
  lemma ExpiryIsStrict(e: SessionEntry, now: int)
    requires e.expireAt == At(now)
    ensures !Expired(e, now) && Expired(e, now + 1)
  {
  }

  /** A record whose expiry Date is invalid is never removed. */
  lemma InvalidExpiryNeverExpires(e: SessionEntry, now: int)
    requires e.expireAt == InvalidDate
    ensures !Expired(e, now)
  {
  }

  /** A session stored with no cookie expiry stays live for the next 24 hours. */
  lemma DefaultExpiryLastsADay(session: SessionData, setAt: int, now: int)
    requires session.cookie.expires.Unset? && now <= setAt + DefaultLifetimeMs
    ensures !Expired(SessionEntry(session, CalculateExpiry(session, setAt)), now)
  {
  }

  /** Sweeping twice at the same time removes nothing more. */
  lemma LiveIdempotent(m: map<string, SessionEntry>, now: int)
    ensures Live(Live(m, now), now) == Live(m, now)
  {
  }

  /** A later sweep keeps no record that an earlier one removed. */
  lemma LiveShrinksOverTime(m: map<string, SessionEntry>, earlier: int, later: int)
    requires earlier <= later
    ensures Live(m, later).Keys <= Live(m, earlier).Keys
  {
  }

  /** Removing one more present key grows the set of removed keys by one. */
  lemma OneMoreRemoved<K>(all: set<K>, present: set<K>, k: K)
    requires k in present && present <= all
    ensures |all - (present - {k})| == |all - present| + 1
  {
    assert all - (present - {k}) == (all - present) + {k};
  }

  class Store {
    var sessions: map<string, SessionEntry>

    constructor ()
      ensures sessions == map[]
    {
      sessions := map[];
    }

    /** set: replaces any record for sid with the session and its computed expiry. */
    method Set(sid: string, session: SessionData, now: int)
      modifies this
      ensures sessions == old(sessions)[sid := SessionEntry(session, CalculateExpiry(session, now))]
    {
      var expiresAt := CalculateExpiry(session, now);
      sessions := sessions[sid := SessionEntry(session, expiresAt)];
    }

    /** get: the live record's data; an expired record is deleted and reads as null. */
    method Get(sid: string, now: int) returns (r: Option<SessionData>)
      modifies this
      ensures sid !in old(sessions) ==> r == None && sessions == old(sessions)
      ensures sid in old(sessions) && Expired(old(sessions)[sid], now) ==> r == None && sessions == old(sessions) - {sid}
      ensures sid in old(sessions) && !Expired(old(sessions)[sid], now) ==> r == Some(old(sessions)[sid].data) && sessions == old(sessions)
    {
      if sid !in sessions {
        return None;
      }
      var rec := sessions[sid];
      if rec.expireAt.At? && rec.expireAt.ms < now {
        sessions := sessions - {sid};
        return None;
      }
      r := Some(rec.data);
    }

    /** destroy: removes sid, if present, and nothing else. */
    method Destroy(sid: string)
      modifies this
      ensures sessions == old(sessions) - {sid}
    {
      sessions := sessions - {sid};
    }

    /** touch: renews the expiry of an existing record, keeping its data; an unknown sid stays unknown. */
    method Touch(sid: string, session: SessionData, now: int)
      modifies this
      ensures sid !in old(sessions) ==> sessions == old(sessions)
      ensures sid in old(sessions) ==>
                sessions == old(sessions)[sid := old(sessions)[sid].(expireAt := CalculateExpiry(session, now))]
    {
      if sid !in sessions {
        return;
      }
      var rec := sessions[sid];
      var expiresAt := CalculateExpiry(session, now);
      rec := rec.(expireAt := expiresAt);
      sessions := sessions[sid := rec];
    }

    /** clearExpired: deletes exactly the expired records and counts them. */
    method ClearExpired(now: int) returns (removed: nat)
      modifies this
      ensures sessions == Live(old(sessions), now)
      ensures removed == |old(sessions).Keys - sessions.Keys|
    {
      ghost var start := sessions;
      var pending := sessions.Keys;
      removed := 0;
      while pending != {}
        invariant pending <= start.Keys
        invariant forall sid :: sid in sessions <==> sid in start && (sid in pending || !Expired(start[sid], now))
        invariant forall sid :: sid in sessions ==> sessions[sid] == start[sid]
        invariant removed == |start.Keys - sessions.Keys|
        decreases pending
      {
        var sid :| sid in pending;
        var rec := sessions[sid];
        if rec.expireAt.At? && rec.expireAt.ms < now {
          ghost var before := sessions.Keys;
          sessions := sessions - {sid};
          assert sessions.Keys == before - {sid};
          OneMoreRemoved(start.Keys, before, sid);
          removed := removed + 1;
        }
        pending := pending - {sid};
      }
      assert sessions == Live(start, now);
    }
  }
}
