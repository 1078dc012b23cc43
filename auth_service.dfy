/**
 * The user records behind authentication: find-or-create from a Logto profile,
 * with profile fields copied over only when they carry a new non-empty value,
 * the session view of a user, and lookup by id. The user table is a sequence;
 * its availability is a flag, and any failure of it is reported as one error.
 */
module AuthService {
  import opened Wrappers
  import opened SessionDto
  import opened LogtoValidator

  /** A row of the user table; a null column is None. */
  datatype User = User(id: string, logtoUserId: string, email: Option<string>, name: Option<string>, avatarUrl: Option<string>)

  const ProcessingFailed: string := "Failed to process user data"

  /** toSessionUser: the identifying and profile fields, null read as undefined. */
  function ToSessionUser(u: User): (s: SessionUser)
    ensures s.id == u.id && s.logtoUserId == u.logtoUserId
    ensures s.email == u.email && s.name == u.name && s.avatarUrl == u.avatarUrl
  {
    SessionUser(u.id, u.logtoUserId, u.email, u.name, u.avatarUrl)
  }

  /** Distinct users have distinct session views. */
  lemma ToSessionUserInjective(u: User, v: User)
    requires ToSessionUser(u) == ToSessionUser(v)
    ensures u == v
  {
  }

  /** The row created for a new Logto user. */
  function Created(id: string, p: LogtoUserProfile): (u: User)
    ensures u.id == id && u.logtoUserId == p.id
    ensures u.email == p.email && u.name == p.name && u.avatarUrl == p.picture
  {
    User(id, p.id, p.email, p.name, p.picture)
  }

  /** The fields an update writes; None means the field is left out of the update. */
  datatype UpdateData = UpdateData(email: Option<string>, name: Option<string>, avatarUrl: Option<string>)

  predicate NoChanges(d: UpdateData) {
    d.email.None? && d.name.None? && d.avatarUrl.None?
  }

  /** A profile value replaces the stored one only when it is truthy (set and non-empty) and differs. */
  function Changed(stored: Option<string>, given: Option<string>): (c: Option<string>)
    ensures c.Some? <==> given.Some? && given.value != "" && stored != given
    ensures c.Some? ==> c == given
  {
    if given.Some? && given.value != "" && stored != given then given else None
  }

  /** The update findOrCreateUser builds for a stored user. */
  function Diff(u: User, p: LogtoUserProfile): UpdateData {
    UpdateData(Changed(u.email, p.email), Changed(u.name, p.name), Changed(u.avatarUrl, p.picture))
  }

  /** The row after an update. */
  function Apply(u: User, d: UpdateData): User {
    User(u.id, u.logtoUserId,
         if d.email.Some? then d.email else u.email,
         if d.name.Some? then d.name else u.name,
         if d.avatarUrl.Some? then d.avatarUrl else u.avatarUrl)
  }

  /** The stored user after signing in with profile p. */
  function Merged(u: User, p: LogtoUserProfile): User {
    Apply(u, Diff(u, p))
  }

  /** Signing in adopts every non-empty profile value and keeps the stored value wherever the profile has none. */
  lemma MergedFields(u: User, p: LogtoUserProfile)
    ensures var m := Merged(u, p);
            && m.id == u.id && m.logtoUserId == u.logtoUserId
            && m.email == (if p.email.Some? && p.email.value != "" then p.email else u.email)
            && m.name == (if p.name.Some? && p.name.value != "" then p.name else u.name)
            && m.avatarUrl == (if p.picture.Some? && p.picture.value != "" then p.picture else u.avatarUrl)
  {
  }

  /** No update is issued exactly when signing in would change nothing. */
  lemma {:induction false} NoUpdateIffUnchanged(u: User, p: LogtoUserProfile)
    ensures NoChanges(Diff(u, p)) <==> Merged(u, p) == u
  {
    var d := Diff(u, p);
    if !NoChanges(d) {
      if d.email.Some? {
        assert Merged(u, p).email == p.email != u.email;
      } else if d.name.Some? {
        assert Merged(u, p).name == p.name != u.name;
      } else {
        assert Merged(u, p).avatarUrl == p.picture != u.avatarUrl;
      }
    }
  }

  /** Signing in twice with the same profile changes nothing the second time. */
  lemma MergedIsStable(u: User, p: LogtoUserProfile)
    ensures NoChanges(Diff(Merged(u, p), p))
    ensures Merged(Merged(u, p), p) == Merged(u, p)
  {
  }

  /** No two rows share an id or a Logto user id. */
  predicate UsersUnique(users: seq<User>) {
    forall i, j :: 0 <= i < j < |users| ==> users[i].id != users[j].id && users[i].logtoUserId != users[j].logtoUserId
  }

  predicate IdTaken(users: seq<User>, id: string) {
    exists k :: 0 <= k < |users| && users[k].id == id
  }

  predicate LogtoIdTaken(users: seq<User>, logtoUserId: string) {
    exists k :: 0 <= k < |users| && users[k].logtoUserId == logtoUserId
  }

  /** The position of the row with this Logto user id, by linear search. */
  method FindByLogtoId(users: seq<User>, logtoUserId: string) returns (i: Option<nat>)
    ensures i.None? <==> !LogtoIdTaken(users, logtoUserId)
    ensures i.Some? ==> i.value < |users| && users[i.value].logtoUserId == logtoUserId
  {
    var k := 0;
    while k < |users|
      invariant 0 <= k <= |users|
      invariant forall m :: 0 <= m < k ==> users[m].logtoUserId != logtoUserId
    {
      if users[k].logtoUserId == logtoUserId {
        return Some(k);
      }
      k := k + 1;
    }
    i := None;
  }

  /** The position of the row with this id, by linear search. */
  method FindById(users: seq<User>, id: string) returns (i: Option<nat>)
    ensures i.None? <==> !IdTaken(users, id)
    ensures i.Some? ==> i.value < |users| && users[i.value].id == id
  {
    var k := 0;
    while k < |users|
      invariant 0 <= k <= |users|
      invariant forall m :: 0 <= m < k ==> users[m].id != id
    {
      if users[k].id == id {
        return Some(k);
      }
      k := k + 1;
    }
    i := None;
  }

  class AuthService {
    var users: seq<User>
    var online: bool

    ghost predicate Valid()
      reads this
    {
      UsersUnique(users)
    }

    constructor (users: seq<User>, online: bool)
      requires UsersUnique(users)
      ensures Valid() && this.users == users && this.online == online
    {
      this.users := users;
      this.online := online;
    }

    /**
     * findOrCreateUser: the user with the profile's Logto id, created when there
     * is none and otherwise brought up to date with the profile. `newId` is the id
     * the database generates for a new row.
     */
    method FindOrCreateUser(profile: LogtoUserProfile, newId: string) returns (r: Result<SessionUser, string>)
      requires Valid() && !IdTaken(users, newId)
      modifies this
      ensures Valid() && online == old(online)
      ensures !old(online) ==> r == Err(ProcessingFailed) && users == old(users)
      ensures old(online) && !LogtoIdTaken(old(users), profile.id) ==>
                users == old(users) + [Created(newId, profile)] && r == Ok(ToSessionUser(Created(newId, profile)))
      ensures old(online) ==>
                forall i :: 0 <= i < |old(users)| && old(users)[i].logtoUserId == profile.id ==>
                  users == old(users)[i := Merged(old(users)[i], profile)] && r == Ok(ToSessionUser(Merged(old(users)[i], profile)))
    {
      if !online {
        return Err(ProcessingFailed);
      }
      var found := FindByLogtoId(users, profile.id);
      var user: User;
      if found.None? {
        user := Created(newId, profile);
        users := users + [user];
      } else {
        var i := found.value;
        user := users[i];
        var update := UpdateData(None, None, None);
        if profile.email.Some? && profile.email.value != "" && user.email != profile.email {
          update := update.(email := profile.email);
        }
        if profile.name.Some? && profile.name.value != "" && user.name != profile.name {
          update := update.(name := profile.name);
        }
        if profile.picture.Some? && profile.picture.value != "" && user.avatarUrl != profile.picture {
          update := update.(avatarUrl := profile.picture);
        }
        assert update == Diff(user, profile);
        if !NoChanges(update) {
          user := Apply(user, update);
          users := users[i := user];
        } else {
          NoUpdateIffUnchanged(users[i], profile);
        }
      }
      r := Ok(ToSessionUser(user));
    }

    /** getUserById: the user's session view, or null when there is none or the table fails. */
    method GetUserById(userId: string) returns (r: Option<SessionUser>)
      requires Valid()
      ensures !online ==> r == None
      ensures online && !IdTaken(users, userId) ==> r == None
      ensures online ==> forall i :: 0 <= i < |users| && users[i].id == userId ==> r == Some(ToSessionUser(users[i]))
    {
      if !online {
        return None;
      }
      var found := FindById(users, userId);
      if found.None? {
        return None;
      }
      r := Some(ToSessionUser(users[found.value]));
    }

    /** logout: only logs; nothing is revoked or changed. */
    method Logout(userId: string)
      ensures users == old(users) && online == old(online)
    {
    }
  }
}
