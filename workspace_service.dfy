/**
 * The workspace business rules: per-owner unique names on create and rename,
 * read access for the owner or for public workspaces, owner-only update and
 * delete, and pagination normalisation for listings.
 */
module WorkspaceService {
  import opened Wrappers
  import opened GoNumbers
  import opened WorkspaceSchema
  import opened WorkspaceRepository
  import opened WorkspaceRequest

  /** The text of a refused access, for the action "access", "update" or "delete". */
  function Refusal(action: string): string {
    "you don't have permission to " + action + " this workspace"
  }

  /** Errors the service returns; Message is the error text the controller matches on. */
  datatype ServiceError =
    | NameRequired
    | NameExists(name: string)
    | NotFound
    | AccessDenied
    | UpdateDenied
    | DeleteDenied
    | Store(cause: DbError)
  {
    function Message(): string {
      match this
      case NameRequired => "workspace name is required"
      case NameExists(name) => "workspace with name '" + name + "' already exists"
      case NotFound => "workspace not found"
      case AccessDenied => Refusal("access")
      case UpdateDenied => Refusal("update")
      case DeleteDenied => Refusal("delete")
      case Store(cause) => cause.Message()
    }
  }

  /** The workspace as the API returns it: the row without its deletion time. */
  datatype WorkspaceResponse = WorkspaceResponse(
    id: nat,
    name: string,
    description: Option<string>,
    ownerId: nat,
    isPublic: bool,
    createdAt: int,
    updatedAt: int)

  /** One page of an owner's workspaces with the owner's total count. */
  datatype WorkspaceList = WorkspaceList(data: seq<WorkspaceResponse>, total: nat, page: int, limit: int)

  function ToResponse(w: Workspace): WorkspaceResponse {
    WorkspaceResponse(w.id, w.name, w.description, w.ownerId, w.isPublic, w.createdAt, w.updatedAt)
  }

  /** The live row a response describes. */
  function RowOf(r: WorkspaceResponse): (w: Workspace)
    ensures Active(w)
  {
    Workspace(r.id, r.name, r.description, r.ownerId, r.isPublic, r.createdAt, r.updatedAt, None)
  }

  /** A response keeps every column of a live row: converting back gives the row, and every response arises this way. */
  lemma ResponseRoundTrip(w: Workspace, r: WorkspaceResponse)
    ensures Active(w) ==> RowOf(ToResponse(w)) == w
    ensures ToResponse(RowOf(r)) == r
  {
  }

  /** Page numbers below 1 become 1. */
  function NormalPage(page: int): (p: int)
    ensures p >= 1
    ensures page >= 1 ==> p == page
    ensures page < 1 ==> p == 1
  {
    if page < 1 then 1 else page
  }

  /** Limits outside 1..100 become 10 (they are not clamped to 100). */
  function NormalLimit(limit: int): (l: int)
    ensures 1 <= l <= 100
    ensures 1 <= limit <= 100 ==> l == limit
    ensures !(1 <= limit <= 100) ==> l == 10
  {
    if limit < 1 || limit > 100 then 10 else limit
  }

  /** `(page - 1) * limit` in Go's int64 arithmetic. */
  function PageOffset(page: int, limit: int): (o: int)
    ensures InInt64(o)
    ensures InInt64((page - 1) * limit) ==> o == (page - 1) * limit
  {
    WrapInt64((page - 1) * limit)
  }

  /** Normalising twice changes nothing more than normalising once. */
  lemma NormalisationIdempotent(page: int, limit: int)
    ensures NormalPage(NormalPage(page)) == NormalPage(page)
    ensures NormalLimit(NormalLimit(limit)) == NormalLimit(limit)
  {
  }

  /** Consecutive pages of the same size start one page apart, while the product stays in range. */
  lemma {:induction false} OffsetsAdvanceByLimit(page: int, limit: int)
    requires page >= 1 && 1 <= limit <= 100 && page <= MaxInt64 / 100
    ensures PageOffset(page, limit) == (page - 1) * limit >= 0
    ensures PageOffset(page + 1, limit) == PageOffset(page, limit) + limit
  {
    var before := (page - 1) * limit;
    var after := page * limit;
    assert after == before + limit;
    MulMonotone(page - 1, limit);
    MulMonotone(page, limit);
    assert page * 100 <= MaxInt64;
    assert (page + 1 - 1) * limit == after;
  }

  lemma MulMonotone(x: int, y: int)
    requires x >= 0 && 0 <= y <= 100
    ensures 0 <= x * y <= x * 100
  {
  }

  /**
   * Over one ordering of the owner's rows, page p and page p + 1 together are the
   * window of two pages from page p's offset: no row is repeated and none skipped.
   */
  lemma ConsecutivePagesTile<T>(s: seq<T>, page: int, limit: int)
    requires page >= 1 && 1 <= limit <= 100 && page <= MaxInt64 / 100
    ensures Window(s, limit, PageOffset(page, limit)) + Window(s, limit, PageOffset(page + 1, limit))
            == Window(s, 2 * limit, PageOffset(page, limit))
  {
    OffsetsAdvanceByLimit(page, limit);
    ConsecutiveWindowsTile(s, limit, PageOffset(page, limit));
  }

  /** The name an update body asks for: supplied and non-empty. */
  predicate Renames(req: UpdateWorkspaceRequest) {
    req.name.Some? && req.name.value != ""
  }

  /** The record UpdateWorkspace writes back: requested fields replaced, the update time stamped. */
  function Edited(stored: Workspace, req: UpdateWorkspaceRequest, now: int): Workspace {
    stored.(
      name := if Renames(req) then req.name.value else stored.name,
      description := if req.description.Some? then req.description else stored.description,
      isPublic := if req.isPublic.Some? then req.isPublic.value else stored.isPublic,
      updatedAt := now)
  }

  /**
   * An edit keeps the key, owner, creation and deletion times; each field
   * changes only when the body supplies it, and then takes the supplied value.
   */
  lemma EditedChangesOnlyRequested(stored: Workspace, req: UpdateWorkspaceRequest, now: int)
    ensures var e := Edited(stored, req, now);
            && e.id == stored.id && e.ownerId == stored.ownerId
            && e.createdAt == stored.createdAt && e.deletedAt == stored.deletedAt
            && e.updatedAt == now
            && (e.name == stored.name || Renames(req))
            && (Renames(req) ==> e.name == req.name.value)
            && (req.description.None? ==> e.description == stored.description)
            && (req.description.Some? ==> e.description == req.description)
            && (req.isPublic.None? ==> e.isPublic == stored.isPublic)
            && (req.isPublic.Some? ==> e.isPublic == req.isPublic.value)
  {
  }

  /**
   * What the repository's Updates(struct) call, as written, stores for an edit:
   * the edited record, except that is_public cannot go from true to false. It
   * stores the edit exactly when the body does not make a public workspace private.
   * The clock never reads Go's zero time, so now is not 0.
   */
  lemma UpdateAsWrittenKeepsPublic(stored: Workspace, req: UpdateWorkspaceRequest, now: int)
    requires now != 0
    ensures var e := Edited(stored, req, now);
            GormUpdates(stored, e) == e.(isPublic := e.isPublic || stored.isPublic)
    ensures var e := Edited(stored, req, now);
            GormUpdates(stored, e) == e <==> !(stored.isPublic && req.isPublic == Some(false))
  {
    var e := Edited(stored, req, now);
    var g := GormUpdates(stored, e);
    assert g.name == e.name && g.description == e.description && g.updatedAt == e.updatedAt;
  }

  /** Applying the same body twice at the same time gives the same record as applying it once. */
  lemma EditedIdempotent(stored: Workspace, req: UpdateWorkspaceRequest, now: int)
    ensures Edited(Edited(stored, req, now), req, now) == Edited(stored, req, now)
  {
  }

  /** Two distinct rows of a valid table differ in id and in (owner, name). */
  lemma UniquePairs(rows: seq<Workspace>, i: nat, j: nat)
    requires TableValid(rows) && i < |rows| && j < |rows| && i != j
    ensures rows[i].id != rows[j].id
    ensures rows[i].ownerId != rows[j].ownerId || rows[i].name != rows[j].name
  {
    if j < i {
      assert rows[j].id != rows[i].id;
      assert rows[j].ownerId != rows[i].ownerId || rows[j].name != rows[i].name;
    }
  }

  /**
   * When the live-name check lets a rename through and the database still refuses
   * it, the row holding the name is soft-deleted.
   */
  lemma RenameConflictIsDeletedRow(rows: seq<Workspace>, i: nat, req: UpdateWorkspaceRequest, now: int, j: nat)
    requires TableValid(rows) && i < |rows| && j < |rows| && j != i && Active(rows[i])
    requires Renames(req) ==> !NameHeld(rows, req.name.value, rows[i].ownerId, rows[i].id)
    requires rows[j].ownerId == rows[i].ownerId && rows[j].name == Edited(rows[i], req, now).name
    ensures !Active(rows[j])
  {
    UniquePairs(rows, i, j);
  }

  /** The responses for a list of rows, built by appending one at a time. */
  method Responses(ws: seq<Workspace>) returns (rs: seq<WorkspaceResponse>)
    ensures |rs| == |ws|
    ensures forall k :: 0 <= k < |ws| ==> rs[k] == ToResponse(ws[k])
  {
    rs := [];
    for k := 0 to |ws|
      invariant |rs| == k
      invariant forall j :: 0 <= j < k ==> rs[j] == ToResponse(ws[j])
    {
      rs := rs + [ToResponse(ws[k])];
    }
  }

  class Service {
    const repo: Repository

    ghost predicate Valid()
      reads repo
    {
      repo.Valid()
    }

    constructor (repo: Repository)
      requires repo.Valid()
      ensures Valid() && this.repo == repo
    {
      this.repo := repo;
    }

    /**
     * Creates a private workspace for the caller. An empty name and a name the
     * caller already uses are refused before anything is written.
     */
    method CreateWorkspace(userId: nat, req: CreateWorkspaceRequest, now: int) returns (r: Result<WorkspaceResponse, ServiceError>)
      requires Valid()
      modifies repo
      ensures Valid() && repo.online == old(repo.online)
      ensures r.Err? ==> repo.rows == old(repo.rows)
      ensures req.name == "" ==> r == Err(NameRequired)
      ensures req.name != "" && old(repo.online) && NameHeld(old(repo.rows), req.name, userId, 0) ==> r == Err(NameExists(req.name))
      ensures req.name != "" && !old(repo.online) ==> r == Err(Store(Unavailable))
      ensures (req.name != "" && old(repo.online) && |req.name| > WorkspaceSchema.NameMaxLength
               && !NameHeld(old(repo.rows), req.name, userId, 0)) ==> r == Err(Store(ValueTooLong))
      ensures (req.name != "" && old(repo.online) && |req.name| <= WorkspaceSchema.NameMaxLength
               && !NameHeld(old(repo.rows), req.name, userId, 0) && OwnerNameTaken(old(repo.rows), userId, req.name))
              ==> r == Err(Store(DuplicateKey))
      ensures (req.name != "" && old(repo.online) && |req.name| <= WorkspaceSchema.NameMaxLength
               && !OwnerNameTaken(old(repo.rows), userId, req.name)) ==> r.Ok?
      ensures r.Ok? ==>
                var row := NewWorkspace(userId, req.name, req.description, now).(id := old(repo.nextId));
                r.value == ToResponse(row) && repo.rows == old(repo.rows) + [row]
    {
      if req.name == "" {
        return Err(NameRequired);
      }
      var taken := repo.CheckNameExists(req.name, userId, 0);
      if taken {
        return Err(NameExists(req.name));
      }
      var workspace := NewWorkspace(userId, req.name, req.description, now);
      assert !IdTaken(repo.rows, repo.nextId) by {
        forall k | 0 <= k < |repo.rows| ensures repo.rows[k].id != repo.nextId {
          assert repo.rows[k].id < repo.nextId;
        }
      }
      var created := repo.Create(workspace);
      if created.Err? {
        return Err(Store(created.error));
      }
      r := Ok(ToResponse(created.value));
    }

    /** The workspace with this id when the caller owns it or it is public. Not-found is decided first. */
    method GetWorkspace(id: nat, userId: nat) returns (r: Result<WorkspaceResponse, ServiceError>)
      requires Valid()
      ensures !repo.online ==> r == Err(Store(Unavailable))
      ensures repo.online && ActiveIndex(repo.rows, id).None? ==> r == Err(NotFound)
      ensures repo.online && ActiveIndex(repo.rows, id).Some? ==>
                var w := repo.rows[ActiveIndex(repo.rows, id).value];
                if w.ownerId == userId || w.isPublic then r == Ok(ToResponse(w)) else r == Err(AccessDenied)
    {
      var found := repo.FindByID(id);
      if found.Err? {
        if found.error == RecordNotFound {
          return Err(NotFound);
        }
        return Err(Store(found.error));
      }
      var workspace := found.value;
      if workspace.ownerId != userId && !workspace.isPublic {
        return Err(AccessDenied);
      }
      r := Ok(ToResponse(workspace));
    }

    /**
     * One page of the caller's workspaces, newest first, with the normalised page
     * and limit and the caller's total count.
     */
    method ListWorkspaces(userId: nat, page: int, limit: int) returns (r: Result<WorkspaceList, ServiceError>)
      requires Valid()
      requires InInt64(page) && InInt64(limit)
      ensures !repo.online ==> r == Err(Store(Unavailable))
      ensures repo.online ==> r.Ok?
      ensures r.Ok? ==>
                && r.value.page == NormalPage(page)
                && r.value.limit == NormalLimit(limit)
                && r.value.total == |OwnedActive(repo.rows, userId)|
      ensures r.Ok? ==>
                var ws := Window(ByRecency(OwnedActive(repo.rows, userId)), NormalLimit(limit), PageOffset(NormalPage(page), NormalLimit(limit)));
                |r.value.data| == |ws| && forall k :: 0 <= k < |ws| ==> r.value.data[k] == ToResponse(ws[k])
      ensures r.Ok? ==> |r.value.data| <= r.value.limit && |r.value.data| <= r.value.total
      ensures r.Ok? ==> forall k :: 0 <= k < |r.value.data| ==> r.value.data[k].ownerId == userId
    {
      var p := page;
      var l := limit;
      if p < 1 {
        p := 1;
      }
      if l < 1 || l > 100 {
        l := 10;
      }
      var offset := WrapInt64((p - 1) * l);
      var found := repo.FindByOwnerID(userId, l, offset);
      if found.Err? {
        return Err(Store(found.error));
      }
      var total := repo.CountByOwnerID(userId);
      if total.Err? {
        assert false;
        return Err(Store(Unavailable));
      }
      var workspaces := found.value;
      assert p == NormalPage(page) && l == NormalLimit(limit) && offset == PageOffset(p, l);
      ghost var ws := Window(ByRecency(OwnedActive(repo.rows, userId)), NormalLimit(limit), PageOffset(NormalPage(page), NormalLimit(limit)));
      assert workspaces == ws;
      var responses := Responses(workspaces);
      r := Ok(WorkspaceList(responses, total.value, p, l));
    }

    /**
     * Applies an update body to the caller's own workspace. Not-found precedes the
     * ownership check, IsPublic never grants write access, and a rename onto a
     * name the caller holds elsewhere is refused before anything is written.
     */
    method UpdateWorkspace(id: nat, userId: nat, req: UpdateWorkspaceRequest, now: int) returns (r: Result<WorkspaceResponse, ServiceError>)
      requires Valid()
      modifies repo
      ensures Valid() && repo.online == old(repo.online) && repo.nextId == old(repo.nextId)
      ensures r.Err? ==> repo.rows == old(repo.rows)
      ensures !old(repo.online) ==> r == Err(Store(Unavailable))
      ensures old(repo.online) && ActiveIndex(old(repo.rows), id).None? ==> r == Err(NotFound)
      ensures old(repo.online) && ActiveIndex(old(repo.rows), id).Some? ==>
                var i := ActiveIndex(old(repo.rows), id).value;
                var stored := old(repo.rows)[i];
                var edited := Edited(stored, req, now);
                if stored.ownerId != userId then r == Err(UpdateDenied)
                else if Renames(req) && NameHeld(old(repo.rows), req.name.value, userId, id) then r == Err(NameExists(req.name.value))
                else if |edited.name| > WorkspaceSchema.NameMaxLength then r == Err(Store(ValueTooLong))
                else if exists j :: 0 <= j < |old(repo.rows)| && j != i && old(repo.rows)[j].ownerId == userId && old(repo.rows)[j].name == edited.name
                then r == Err(Store(DuplicateKey))
                else r == Ok(ToResponse(edited)) && repo.rows == old(repo.rows)[i := edited]
    {
      ghost var rows0 := repo.rows;
      var found := repo.FindByID(id);
      if found.Err? {
        if found.error == RecordNotFound {
          return Err(NotFound);
        }
        return Err(Store(found.error));
      }
      ghost var i := ActiveIndex(rows0, id).value;
      var workspace := found.value;
      assert workspace == rows0[i] && workspace.id > 0;
      if workspace.ownerId != userId {
        return Err(UpdateDenied);
      }
      if req.name.Some? && req.name.value != "" {
        var taken := repo.CheckNameExists(req.name.value, userId, id);
        if taken {
          return Err(NameExists(req.name.value));
        }
        workspace := workspace.(name := req.name.value);
      }
      if req.description.Some? {
        workspace := workspace.(description := req.description);
      }
      if req.isPublic.Some? {
        workspace := workspace.(isPublic := req.isPublic.value);
      }
      workspace := workspace.(updatedAt := now);
      assert workspace == Edited(rows0[i], req, now);
      WriteAllStoresRecord(rows0[i], workspace);
      var outcome := repo.Update(workspace);
      if outcome.Fail? {
        return Err(Store(outcome.error));
      }
      r := Ok(ToResponse(workspace));
    }

    /** Soft-deletes the caller's own workspace. Not-found precedes the ownership check. */
    method DeleteWorkspace(id: nat, userId: nat, now: int) returns (r: Outcome<ServiceError>)
      requires Valid()
      modifies repo
      ensures Valid() && repo.online == old(repo.online) && repo.nextId == old(repo.nextId)
      ensures r.Fail? ==> repo.rows == old(repo.rows)
      ensures !old(repo.online) ==> r == Fail(Store(Unavailable))
      ensures old(repo.online) && ActiveIndex(old(repo.rows), id).None? ==> r == Fail(NotFound)
      ensures old(repo.online) && ActiveIndex(old(repo.rows), id).Some? ==>
                if old(repo.rows)[ActiveIndex(old(repo.rows), id).value].ownerId != userId then r == Fail(DeleteDenied)
                else r == Pass && repo.rows == SoftDeleted(old(repo.rows), id, now)
    {
      var found := repo.FindByID(id);
      if found.Err? {
        if found.error == RecordNotFound {
          return Fail(NotFound);
        }
        return Fail(Store(found.error));
      }
      if found.value.ownerId != userId {
        return Fail(DeleteDenied);
      }
      var outcome := repo.Delete(id, now);
      if outcome.Fail? {
        assert false;
        return Fail(Store(Unavailable));
      }
      r := Pass;
    }
  }
}
