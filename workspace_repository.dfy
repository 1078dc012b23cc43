/**
 * Data access for the workspaces table. The table is a sequence of rows in
 * insertion order; the database's availability is a flag, so every query can fail.
 * GORM's default scope (rows with a deletion time are invisible) is applied by
 * every read below.
 */
module WorkspaceRepository {
  import opened Wrappers
  import opened WorkspaceSchema

  /** Errors the database layer can return. Driver texts are stand-ins for PostgreSQL's. */
  datatype DbError = RecordNotFound | DuplicateKey | ValueTooLong | MissingWhereClause | Unavailable {
    function Message(): string {
      match this
      case RecordNotFound => "record not found"
      case DuplicateKey => PostgresError("duplicate key value " + "violates unique constraint " + "\"" + OwnerNameIndex + "\"", "23505")
      case ValueTooLong => PostgresError("value too long for type " + "character varying(255)", "22001")
      case MissingWhereClause => "WHERE conditions required"
      case Unavailable => "failed to connect to the database"
    }
  }

  /** The text the PostgreSQL driver gives an error raised by the server. */
  function PostgresError(detail: string, sqlState: string): string {
    "ERROR: " + detail + " (SQLSTATE " + sqlState + ")"
  }

  /** The elements of s that satisfy p, in their original order. */
  function Filter<T(!new)>(s: seq<T>, p: T -> bool): (r: seq<T>)
    ensures |r| <= |s|
    ensures forall x :: x in r <==> x in s && p(x)
  {
    if s == [] then []
    else (if p(s[0]) then [s[0]] else []) + Filter(s[1..], p)
  }

  /** The owner's live rows, as `WHERE owner_id = ?` under the soft-delete scope selects them. */
  function OwnedActive(rows: seq<Workspace>, ownerId: nat): (r: seq<Workspace>)
    ensures |r| <= |rows|
    ensures forall w :: w in r <==> w in rows && w.ownerId == ownerId && Active(w)
  {
    Filter(rows, (w: Workspace) => w.ownerId == ownerId && Active(w))
  }

  /** `ORDER BY created_at DESC`. */
  predicate NewestFirst(s: seq<Workspace>) {
    forall i, j :: 0 <= i < j < |s| ==> s[i].createdAt >= s[j].createdAt
  }

  lemma ConsNewestFirst(x: Workspace, s: seq<Workspace>)
    requires NewestFirst(s)
    requires forall y :: y in s ==> x.createdAt >= y.createdAt
    ensures NewestFirst([x] + s)
  {
    var t := [x] + s;
    forall i, j | 0 <= i < j < |t| ensures t[i].createdAt >= t[j].createdAt {
      assert t[j] == s[j - 1];
      if i > 0 {
        assert t[i] == s[i - 1];
      }
    }
  }

  lemma HeadIsNewest(s: seq<Workspace>)
    requires NewestFirst(s) && |s| > 0
    ensures forall y :: y in s[1..] ==> s[0].createdAt >= y.createdAt
  {
    forall y | y in s[1..] ensures s[0].createdAt >= y.createdAt {
      var k :| 0 <= k < |s[1..]| && s[1..][k] == y;
      assert s[k + 1] == y;
    }
  }

  lemma HeadStaysNewest(h: Workspace, w: Workspace, tail: seq<Workspace>, rest: seq<Workspace>)
    requires forall y :: y in tail ==> h.createdAt >= y.createdAt
    requires h.createdAt > w.createdAt
    requires multiset(rest) == multiset(tail) + multiset{w}
    ensures forall y :: y in rest ==> h.createdAt >= y.createdAt
  {
    forall y | y in rest ensures h.createdAt >= y.createdAt {
      assert y in multiset(rest);
      if y != w {
        assert y in multiset(tail);
      }
    }
  }

  function InsertByRecency(w: Workspace, s: seq<Workspace>): (r: seq<Workspace>)
    requires NewestFirst(s)
    ensures NewestFirst(r)
    ensures multiset(r) == multiset(s) + multiset{w}
  {
    if s == [] then [w]
    else if w.createdAt >= s[0].createdAt then
      ConsNewestFirst(w, s);
      [w] + s
    else
      var rest := InsertByRecency(w, s[1..]);
      assert s == [s[0]] + s[1..];
      HeadIsNewest(s);
      HeadStaysNewest(s[0], w, s[1..], rest);
      ConsNewestFirst(s[0], rest);
      assert multiset([s[0]] + rest) == multiset{s[0]} + multiset(rest);
      assert multiset(s) == multiset{s[0]} + multiset(s[1..]);
      [s[0]] + rest
  }

  /**
   * The rows in `ORDER BY created_at DESC` order. Rows with equal creation times
   * keep their insertion order; SQL leaves that order unspecified.
   */
  function ByRecency(s: seq<Workspace>): (r: seq<Workspace>)
    ensures NewestFirst(r)
    ensures multiset(r) == multiset(s)
  {
    if s == [] then []
    else
      assert s == [s[0]] + s[1..];
      InsertByRecency(s[0], ByRecency(s[1..]))
  }

  /** GORM skips an OFFSET that is not positive. */
  function Skipped(offset: int): nat {
    if offset > 0 then offset else 0
  }

  /** `LIMIT limit OFFSET offset`; GORM leaves LIMIT out when limit is negative. */
  function Window<T>(s: seq<T>, limit: int, offset: int): (r: seq<T>)
    ensures |r| <= |s|
    ensures limit >= 0 ==> |r| <= limit
    ensures Skipped(offset) <= |s| && (limit < 0 || Skipped(offset) + limit <= |s|) ==>
              |r| == (if limit < 0 then |s| - Skipped(offset) else limit)
    ensures forall k :: 0 <= k < |r| ==> Skipped(offset) + k < |s| && r[k] == s[Skipped(offset) + k]
  {
    var rest := if Skipped(offset) <= |s| then s[Skipped(offset)..] else [];
    if 0 <= limit < |rest| then rest[..limit] else rest
  }

  /** A window of a newest-first sequence is newest first, and holds only elements of it. */
  lemma WindowKeepsOrder(s: seq<Workspace>, limit: int, offset: int)
    requires NewestFirst(s)
    ensures NewestFirst(Window(s, limit, offset))
    ensures forall w :: w in Window(s, limit, offset) ==> w in s
  {
    var r := Window(s, limit, offset);
    forall i, j | 0 <= i < j < |r| ensures r[i].createdAt >= r[j].createdAt {
      assert r[i] == s[Skipped(offset) + i] && r[j] == s[Skipped(offset) + j];
    }
    forall w | w in r ensures w in s {
      var k :| 0 <= k < |r| && r[k] == w;
      assert s[Skipped(offset) + k] == w;
    }
  }

  function Min(a: int, b: int): int {
    if a <= b then a else b
  }

  /** With a non-negative limit, a window is the slice of the sequence between offset and offset + limit, clipped to its end. */
  lemma WindowIsSlice<T>(s: seq<T>, limit: int, offset: int)
    requires limit >= 0
    ensures Window(s, limit, offset) == s[Min(Skipped(offset), |s|)..Min(Skipped(offset) + limit, |s|)]
  {
  }

  /**
   * Two consecutive windows of the same size over one sequence are the window of
   * twice the size: the second starts where the first ends, so together they
   * neither repeat nor skip an element.
   */
  lemma ConsecutiveWindowsTile<T>(s: seq<T>, limit: int, offset: int)
    requires limit >= 0 && offset >= 0
    ensures Window(s, limit, offset) + Window(s, limit, offset + limit) == Window(s, 2 * limit, offset)
  {
    WindowIsSlice(s, limit, offset);
    WindowIsSlice(s, limit, offset + limit);
    WindowIsSlice(s, 2 * limit, offset);
    var a, b, c := Min(offset, |s|), Min(offset + limit, |s|), Min(offset + 2 * limit, |s|);
    assert Skipped(offset) == offset && Skipped(offset + limit) == offset + limit;
    assert s[a..b] + s[b..c] == s[a..c];
  }

  /** The position of the live row with this id, as `WHERE id = ? ... First` finds it. */
  function ActiveIndex(rows: seq<Workspace>, id: nat): (r: Option<nat>)
    ensures r.Some? ==> r.value < |rows| && rows[r.value].id == id && Active(rows[r.value])
    ensures r.None? ==> forall w :: w in rows && w.id == id ==> !Active(w)
  {
    if rows == [] then None
    else if rows[0].id == id && Active(rows[0]) then Some(0)
    else
      var rest := ActiveIndex(rows[1..], id);
      assert forall w :: w in rows && w != rows[0] ==> w in rows[1..];
      if rest.Some? then Some(rest.value + 1) else None
  }

  /** An active row with the same name and owner exists, other than excludeId when excludeId > 0. */
  predicate NameHeld(rows: seq<Workspace>, name: string, ownerId: nat, excludeId: nat) {
    exists w :: w in rows && Active(w) && w.name == name && w.ownerId == ownerId && (excludeId > 0 ==> w.id != excludeId)
  }

  /**
   * GORM `Updates` with a struct, as the repository calls it: only fields whose
   * value is not Go's zero value are written, so a false IsPublic, an empty name,
   * a nil description or a zero owner never reach the row.
   */
  function GormUpdates(stored: Workspace, w: Workspace): (r: Workspace)
    ensures r.id == stored.id && r.deletedAt == stored.deletedAt
    ensures r.name == (if w.name == "" then stored.name else w.name)
    ensures r.description == (if w.description.None? then stored.description else w.description)
    ensures r.ownerId == (if w.ownerId == 0 then stored.ownerId else w.ownerId)
    ensures r.isPublic == (w.isPublic || stored.isPublic)
    ensures r.createdAt == (if w.createdAt == 0 then stored.createdAt else w.createdAt)
    ensures r.updatedAt == (if w.updatedAt == 0 then stored.updatedAt else w.updatedAt)
  {
    stored.(
      name := if w.name != "" then w.name else stored.name,
      description := if w.description.Some? then w.description else stored.description,
      ownerId := if w.ownerId != 0 then w.ownerId else stored.ownerId,
      isPublic := if w.isPublic then true else stored.isPublic,
      createdAt := if w.createdAt != 0 then w.createdAt else stored.createdAt,
      updatedAt := if w.updatedAt != 0 then w.updatedAt else stored.updatedAt)
  }

  /** Every zero-valued field of the record already holds that zero value in the stored row. */
  predicate ZerosAgree(stored: Workspace, w: Workspace) {
    && (w.name == "" ==> stored.name == "")
    && (w.description.None? ==> stored.description.None?)
    && (w.ownerId == 0 ==> stored.ownerId == 0)
    && (!w.isPublic ==> !stored.isPublic)
    && (w.createdAt == 0 ==> stored.createdAt == 0)
    && (w.updatedAt == 0 ==> stored.updatedAt == 0)
  }

  /** The written row as Update evidently intends it: every column of the record, the key and deletion time kept. */
  function WriteAll(stored: Workspace, w: Workspace): (r: Workspace)
    ensures r.id == stored.id && r.deletedAt == stored.deletedAt
    ensures r.(id := w.id, deletedAt := w.deletedAt) == w
  {
    stored.(name := w.name, description := w.description, ownerId := w.ownerId,
            isPublic := w.isPublic, createdAt := w.createdAt, updatedAt := w.updatedAt)
  }

  /**
   * Updates(struct) writes what a full write would exactly when no zero-valued
   * field of the record is meant to overwrite a non-zero stored value.
   */
  lemma GormUpdatesIsWriteAllExactly(stored: Workspace, w: Workspace)
    ensures GormUpdates(stored, w) == WriteAll(stored, w) <==> ZerosAgree(stored, w)
  {
    var g := GormUpdates(stored, w);
    var a := WriteAll(stored, w);
    if g == a {
      assert g.name == a.name && g.description == a.description && g.ownerId == a.ownerId;
      assert g.isPublic == a.isPublic && g.createdAt == a.createdAt && g.updatedAt == a.updatedAt;
    }
  }

  /** The written row reflects every field of the caller's record, including a false IsPublic. */
  lemma WriteAllStoresRecord(stored: Workspace, w: Workspace)
    requires w.id == stored.id && Active(stored) && Active(w)
    ensures WriteAll(stored, w) == w
  {
  }

  /** The table after `Delete(id)`: the live row with that id gets a deletion time. */
  function SoftDeleted(rows: seq<Workspace>, id: nat, now: int): (r: seq<Workspace>)
    ensures |r| == |rows|
    ensures forall k :: 0 <= k < |rows| ==> r[k].(deletedAt := rows[k].deletedAt) == rows[k]
    ensures forall k :: 0 <= k < |rows| && r[k] != rows[k] ==>
              rows[k].id == id && Active(rows[k]) && r[k].deletedAt == Some(now)
    ensures ActiveIndex(rows, id).Some? ==> r[ActiveIndex(rows, id).value].deletedAt == Some(now)
    ensures ActiveIndex(rows, id).None? ==> r == rows
  {
    match ActiveIndex(rows, id)
    case None => rows
    case Some(i) => rows[i := rows[i].(deletedAt := Some(now))]
  }

  /** After a soft delete the row is no longer found, listed, counted or treated as holding its name; every other row is as it was. */
  lemma SoftDeleteHides(rows: seq<Workspace>, id: nat, now: int)
    requires TableValid(rows)
    ensures ActiveIndex(SoftDeleted(rows, id, now), id).None?
    ensures forall k :: 0 <= k < |rows| && rows[k].id != id ==> SoftDeleted(rows, id, now)[k] == rows[k]
    ensures forall w, o :: w in OwnedActive(SoftDeleted(rows, id, now), o) ==> w.id != id && w in OwnedActive(rows, o)
    ensures forall name, o, x :: NameHeld(SoftDeleted(rows, id, now), name, o, x) ==> NameHeld(rows, name, o, x)
    ensures TableValid(SoftDeleted(rows, id, now))
  {
    var r := SoftDeleted(rows, id, now);
    match ActiveIndex(rows, id)
    case None =>
    case Some(i) =>
      assert forall k :: 0 <= k < |r| && k != i ==> r[k] == rows[k] && rows[k].id != rows[i].id;
      forall w | w in r && w.id == id ensures !Active(w) {
        var k :| 0 <= k < |r| && r[k] == w;
      }
      forall w | w in r && Active(w) ensures w in rows && w.id != id {
        var k :| 0 <= k < |r| && r[k] == w;
      }
  }

  /**
   * The unique index also covers deleted rows: once a workspace is soft-deleted,
   * its name is no longer held among live rows, yet the pair is still taken, so a
   * new workspace with that name and owner is refused by the database.
   */
  lemma RecreateAfterDeleteIsRefused(rows: seq<Workspace>, id: nat, now: int)
    requires TableValid(rows)
    requires ActiveIndex(rows, id).Some?
    ensures var w := rows[ActiveIndex(rows, id).value];
            && !NameHeld(SoftDeleted(rows, id, now), w.name, w.ownerId, 0)
            && OwnerNameTaken(SoftDeleted(rows, id, now), w.ownerId, w.name)
  {
    var i := ActiveIndex(rows, id).value;
    var w := rows[i];
    var r := SoftDeleted(rows, id, now);
    assert r[i].ownerId == w.ownerId && r[i].name == w.name;
    forall v | v in r && Active(v) ensures v.name != w.name || v.ownerId != w.ownerId {
      var k :| 0 <= k < |r| && r[k] == v;
      assert k != i;
      assert rows[k] == v;
    }
  }

  /** Every page of the owner's listing is no longer than the owner's count. */
  lemma PageWithinCount(rows: seq<Workspace>, ownerId: nat, limit: int, offset: int)
    ensures |Window(ByRecency(OwnedActive(rows, ownerId)), limit, offset)| <= |OwnedActive(rows, ownerId)|
  {
    var owned := OwnedActive(rows, ownerId);
    assert |ByRecency(owned)| == |multiset(ByRecency(owned))| == |multiset(owned)| == |owned|;
  }

  class Repository {
    /** The workspaces table, soft-deleted rows included, in insertion order. */
    var rows: seq<Workspace>
    /** The next value of the id sequence. */
    var nextId: nat
    /** Whether the database answers queries. */
    var online: bool

    ghost predicate Valid()
      reads this
    {
      && TableValid(rows)
      && nextId > 0
      && (forall i :: 0 <= i < |rows| ==> rows[i].id < nextId)
    }

    constructor (online: bool)
      ensures Valid()
      ensures rows == [] && nextId == 1 && this.online == online
    {
      rows := [];
      nextId := 1;
      this.online := online;
    }

    /** The id the database gives a record on insert: the next sequence value unless the record carries one. */
    function IdFor(w: Workspace): nat
      reads this
    {
      if w.id == 0 then nextId else w.id
    }

    /** `db.Create(workspace)`: inserts the record with its generated id, or returns the database's error and inserts nothing. */
    method Create(w: Workspace) returns (r: Result<Workspace, DbError>)
      requires Valid()
      modifies this
      ensures Valid() && online == old(online)
      ensures !old(online) ==> r == Err(Unavailable)
      ensures old(online) && |w.name| > NameMaxLength ==> r == Err(ValueTooLong)
      ensures (old(online) && |w.name| <= NameMaxLength
               && (IdTaken(old(rows), old(IdFor(w))) || OwnerNameTaken(old(rows), w.ownerId, w.name))) ==> r == Err(DuplicateKey)
      ensures (old(online) && |w.name| <= NameMaxLength
               && !IdTaken(old(rows), old(IdFor(w))) && !OwnerNameTaken(old(rows), w.ownerId, w.name)) ==> r.Ok?
      ensures r.Err? ==> rows == old(rows)
      ensures r.Ok? ==> r.value == w.(id := old(IdFor(w))) && rows == old(rows) + [r.value]
    {
      if !online {
        return Err(Unavailable);
      }
      if |w.name| > NameMaxLength {
        return Err(ValueTooLong);
      }
      var row := w.(id := IdFor(w));
      if IdTaken(rows, row.id) || OwnerNameTaken(rows, w.ownerId, w.name) {
        return Err(DuplicateKey);
      }
      forall i | 0 <= i < |rows| ensures rows[i].id != row.id {
        assert !(rows[i].id == row.id);
      }
      AppendKeepsValid(rows, row);
      rows := rows + [row];
      nextId := if row.id >= nextId then row.id + 1 else nextId;
      r := Ok(row);
    }

    /** `WHERE id = ? ... First`: the live row with this id, or record-not-found. */
    method FindByID(id: nat) returns (r: Result<Workspace, DbError>)
      requires Valid()
      ensures !online ==> r == Err(Unavailable)
      ensures online && r.Err? ==> r.error == RecordNotFound
      ensures online ==> (r.Ok? <==> exists w :: w in rows && w.id == id && Active(w))
      ensures r.Ok? ==> r.value in rows && r.value.id == id && Active(r.value)
      ensures online && ActiveIndex(rows, id).Some? ==> r == Ok(rows[ActiveIndex(rows, id).value])
    {
      if !online {
        return Err(Unavailable);
      }
      var i := ActiveIndex(rows, id);
      if i.None? {
        return Err(RecordNotFound);
      }
      r := Ok(rows[i.value]);
    }

    /** The owner's live rows, newest first, skipping offset rows and returning at most limit. */
    method FindByOwnerID(ownerId: nat, limit: int, offset: int) returns (r: Result<seq<Workspace>, DbError>)
      requires Valid()
      ensures !online ==> r == Err(Unavailable)
      ensures online ==> r == Ok(Window(ByRecency(OwnedActive(rows, ownerId)), limit, offset))
      ensures r.Ok? ==> NewestFirst(r.value)
      ensures r.Ok? ==> forall w :: w in r.value ==> w in rows && w.ownerId == ownerId && Active(w)
      ensures r.Ok? ==> |r.value| <= |OwnedActive(rows, ownerId)|
      ensures r.Ok? && limit >= 0 ==> |r.value| <= limit
    {
      if !online {
        return Err(Unavailable);
      }
      var sorted := ByRecency(OwnedActive(rows, ownerId));
      assert forall w :: w in sorted <==> w in multiset(sorted);
      WindowKeepsOrder(sorted, limit, offset);
      PageWithinCount(rows, ownerId, limit, offset);
      r := Ok(Window(sorted, limit, offset));
    }

    /** How many live rows the owner has, regardless of pagination. */
    method CountByOwnerID(ownerId: nat) returns (r: Result<nat, DbError>)
      requires Valid()
      ensures !online ==> r == Err(Unavailable)
      ensures online ==> r == Ok(|OwnedActive(rows, ownerId)|)
    {
      if !online {
        return Err(Unavailable);
      }
      r := Ok(|OwnedActive(rows, ownerId)|);
    }

    /**
     * `Model(workspace).Updates(workspace)`: writes the record to the live row with
     * its primary key; no other row changes, and no row changes when none matches.
     * The row is written with WriteAll, the full write evidently intended; GormUpdates
     * is what the call as written stores.
     */
    method Update(w: Workspace) returns (r: Outcome<DbError>)
      requires Valid()
      modifies this
      ensures Valid() && online == old(online) && nextId == old(nextId)
      ensures !old(online) ==> r == Fail(Unavailable) && rows == old(rows)
      ensures old(online) && w.id == 0 ==> r == Fail(MissingWhereClause) && rows == old(rows)
      ensures old(online) && w.id > 0 && ActiveIndex(old(rows), w.id).None? ==> r == Pass && rows == old(rows)
      ensures old(online) && w.id > 0 && ActiveIndex(old(rows), w.id).Some? ==>
                var i := ActiveIndex(old(rows), w.id).value;
                var written := WriteAll(old(rows)[i], w);
                if |w.name| > NameMaxLength then r == Fail(ValueTooLong) && rows == old(rows)
                else if exists j :: 0 <= j < |old(rows)| && j != i && old(rows)[j].ownerId == w.ownerId && old(rows)[j].name == w.name
                then r == Fail(DuplicateKey) && rows == old(rows)
                else r == Pass && rows == old(rows)[i := written]
    {
      if !online {
        return Fail(Unavailable);
      }
      if w.id == 0 {
        return Fail(MissingWhereClause);
      }
      var found := ActiveIndex(rows, w.id);
      if found.None? {
        return Pass;
      }
      var i := found.value;
      var written := WriteAll(rows[i], w);
      if |w.name| > NameMaxLength {
        return Fail(ValueTooLong);
      }
      if exists j :: 0 <= j < |rows| && j != i && rows[j].ownerId == w.ownerId && rows[j].name == w.name {
        return Fail(DuplicateKey);
      }
      var updated := rows[i := written];
      forall a, b | 0 <= a < b < |updated| ensures updated[a].ownerId != updated[b].ownerId || updated[a].name != updated[b].name {
        if a != i && b != i {
          assert updated[a] == rows[a] && updated[b] == rows[b];
        }
      }
      forall a, b | 0 <= a < b < |updated| ensures updated[a].id != updated[b].id {
        if a != i && b != i {
          assert updated[a] == rows[a] && updated[b] == rows[b];
        } else if a == i {
          assert updated[a].id == rows[a].id && updated[b] == rows[b];
        } else {
          assert updated[b].id == rows[b].id && updated[a] == rows[a];
        }
      }
      rows := updated;
      r := Pass;
    }

    /** `Delete(&Workspace{})` under the soft-delete scope: stamps the live row with this id as deleted at now. */
    method Delete(id: nat, now: int) returns (r: Outcome<DbError>)
      requires Valid()
      modifies this
      ensures Valid() && online == old(online) && nextId == old(nextId)
      ensures !old(online) ==> r == Fail(Unavailable) && rows == old(rows)
      ensures old(online) ==> r == Pass && rows == SoftDeleted(old(rows), id, now)
    {
      if !online {
        return Fail(Unavailable);
      }
      SoftDeleteHides(rows, id, now);
      forall i | 0 <= i < |rows| ensures SoftDeleted(rows, id, now)[i].id < nextId {
      }
      rows := SoftDeleted(rows, id, now);
      r := Pass;
    }

    /**
     * `SELECT count(*) ... WHERE name = ? AND owner_id = ? [AND id != ?]`. The
     * count's error is discarded, so an unavailable database reports false.
     */
    method CheckNameExists(name: string, ownerId: nat, excludeId: nat) returns (exists_: bool)
      requires Valid()
      ensures exists_ <==> online && NameHeld(rows, name, ownerId, excludeId)
    {
      var matches := Filter(rows, (w: Workspace) => Active(w) && w.name == name && w.ownerId == ownerId);
      if excludeId > 0 {
        matches := Filter(matches, (w: Workspace) => w.id != excludeId);
      }
      if online && NameHeld(rows, name, ownerId, excludeId) {
        var w :| w in rows && Active(w) && w.name == name && w.ownerId == ownerId && (excludeId > 0 ==> w.id != excludeId);
        assert w in matches;
      }
      var count := 0;
      if online {
        count := |matches|;
      }
      exists_ := count > 0;
      if exists_ {
        assert matches[0] in matches;
      }
    }
  }
}
