/**
 * The HTTP handlers of the workspace endpoints: the authentication gate, the
 * parsing of path ids, query parameters and bodies, and the mapping of service
 * errors to status codes. A request is given by its locals (set by the session
 * middleware), its path id, its query values and its parsed body; None stands for
 * a body that does not parse.
 */
module WorkspaceController {
  import opened Wrappers
  import opened GoNumbers
  import opened WorkspaceSchema
  import opened WorkspaceRepository
  import opened WorkspaceRequest
  import opened WorkspaceService
  import opened AuthMiddleware

  /** What a reply carries besides its status and message. */
  datatype Payload = NoData | Item(workspace: WorkspaceResponse) | Page(list: WorkspaceList)

  /**
   * A handler's answer: a response with one message, or a body that fails
   * validation (turned into a reply by the application's error handler).
   */
  datatype Reply = Reply(code: nat, message: string, data: Payload) | ValidationFailed

  const Unauthenticated: Reply := Reply(401, "user not authenticated", NoData)
  const InvalidBody: Reply := Reply(400, "invalid request body", NoData)
  const InvalidId: Reply := Reply(400, "invalid workspace id", NoData)

  /** The status GetWorkspace answers an error message with. */
  function GetErrorStatus(message: string): nat {
    if message == "workspace not found" then 404
    else if message == Refusal("access") then 403
    else 500
  }

  /** The status UpdateWorkspace answers an error message with: anything unrecognised is a bad request. */
  function UpdateErrorStatus(message: string): nat {
    if message == "workspace not found" then 404
    else if message == Refusal("update") then 403
    else 400
  }

  /** The status DeleteWorkspace answers an error message with. */
  function DeleteErrorStatus(message: string): nat {
    if message == "workspace not found" then 404
    else if message == Refusal("delete") then 403
    else 500
  }

  /** A name-conflict message never reads as "workspace not found" nor as a permission message. */
  lemma NameExistsMessageIsDistinct(name: string)
    ensures var m := NameExists(name).Message();
            && m != "workspace not found"
            && m != Refusal("access")
            && m != Refusal("update")
            && m != Refusal("delete")
  {
    var prefix := "workspace with name '";
    var m := NameExists(name).Message();
    assert m == prefix + (name + "' already exists");
    assert m[0] == prefix[0] == 'w' && m[10] == prefix[10] == 'w';
    assert "workspace not found"[10] == 'n';
    assert Refusal("access")[0] == Refusal("update")[0] == Refusal("delete")[0] == 'y';
  }

  /** The three refusal messages differ from each other and from "workspace not found". */
  lemma RefusalsAreDistinct()
    ensures Refusal("access") != Refusal("update") && Refusal("update") != Refusal("delete") && Refusal("delete") != Refusal("access")
    ensures "workspace not found" !in {Refusal("access"), Refusal("update"), Refusal("delete")}
  {
    assert Refusal("access")[29] == 'a';
    assert Refusal("update")[29] == 'u';
    assert Refusal("delete")[29] == 'd';
    assert Refusal("access")[0] == Refusal("update")[0] == Refusal("delete")[0] == 'y';
  }

  /** A database error's message is neither "workspace not found" nor a refusal. */
  lemma StoreMessageIsDistinct(cause: DbError)
    ensures var m := Store(cause).Message();
            m != "workspace not found" && m !in {Refusal("access"), Refusal("update"), Refusal("delete")}
  {
    var m := Store(cause).Message();
    assert m[0] != 'w' && m[0] != 'y' by {
      match cause
      case DuplicateKey =>
        assert m[0] == "ERROR: "[0];
      case ValueTooLong =>
        assert m[0] == "ERROR: "[0];
      case _ =>
    }
    assert "workspace not found"[0] == 'w';
    assert Refusal("access")[0] == Refusal("update")[0] == Refusal("delete")[0] == 'y';
  }

  /** Only a missing workspace is 404 and only a refused read is 403 on GET; every other error is 500. */
  lemma GetStatusOfError(e: ServiceError)
    ensures GetErrorStatus(e.Message()) == (if e == NotFound then 404 else if e == AccessDenied then 403 else 500)
  {
    RefusalsAreDistinct();
    match e
    case NameExists(name) => NameExistsMessageIsDistinct(name);
    case Store(cause) => StoreMessageIsDistinct(cause);
    case _ =>
  }

  /** Only a missing workspace is 404 and only a refused update is 403 on PUT; every other error is 400, database failures included. */
  lemma UpdateStatusOfError(e: ServiceError)
    ensures UpdateErrorStatus(e.Message()) == (if e == NotFound then 404 else if e == UpdateDenied then 403 else 400)
  {
    RefusalsAreDistinct();
    match e
    case NameExists(name) => NameExistsMessageIsDistinct(name);
    case Store(cause) => StoreMessageIsDistinct(cause);
    case _ =>
  }

  /** Only a missing workspace is 404 and only a refused delete is 403 on DELETE; every other error is 500. */
  lemma DeleteStatusOfError(e: ServiceError)
    ensures DeleteErrorStatus(e.Message()) == (if e == NotFound then 404 else if e == DeleteDenied then 403 else 500)
  {
    RefusalsAreDistinct();
    match e
    case NameExists(name) => NameExistsMessageIsDistinct(name);
    case Store(cause) => StoreMessageIsDistinct(cause);
    case _ =>
  }

  /** The page query parameter: a positive integer, else 1. */
  function PageParam(query: string): (p: int)
    ensures 1 <= p <= MaxInt64
    ensures Atoi(query).Some? && Atoi(query).value > 0 ==> p == Atoi(query).value
    ensures !(Atoi(query).Some? && Atoi(query).value > 0) ==> p == 1
  {
    if query != "" && Atoi(query).Some? && Atoi(query).value > 0 then Atoi(query).value else 1
  }

  /** The limit query parameter: an integer from 1 to 100, else 10. */
  function LimitParam(query: string): (l: int)
    ensures 1 <= l <= 100
    ensures Atoi(query).Some? && 1 <= Atoi(query).value <= 100 ==> l == Atoi(query).value
    ensures !(Atoi(query).Some? && 1 <= Atoi(query).value <= 100) ==> l == 10
  {
    if query != "" && Atoi(query).Some? && Atoi(query).value > 0 && Atoi(query).value <= 100 then Atoi(query).value else 10
  }

  /** The service's own normalisation leaves the handler's page and limit unchanged. */
  lemma ParamsAreAlreadyNormal(pageQuery: string, limitQuery: string)
    ensures NormalPage(PageParam(pageQuery)) == PageParam(pageQuery)
    ensures NormalLimit(LimitParam(limitQuery)) == LimitParam(limitQuery)
  {
  }

  /** Every page parameter the handler writes back as a query is read again as the same page. */
  lemma PageParamReadsFormat(p: int)
    requires 1 <= p <= MaxInt64
    ensures PageParam(IntToString(p)) == p
  {
    AtoiReadsFormat(p);
  }

  /** An out-of-range limit falls back to the default of 10 instead of being clamped to 100. */
  lemma OversizedLimitFallsBack(l: int)
    requires 100 < l <= MaxInt64
    ensures LimitParam(IntToString(l)) == 10
  {
    AtoiReadsFormat(l);
  }

  /** GET on a parsed id: the service's answer as a reply. */
  function GetReply(r: Result<WorkspaceResponse, ServiceError>): Reply {
    match r
    case Ok(w) => Reply(200, "workspace retrieved successfully", Item(w))
    case Err(e) => Reply(GetErrorStatus(e.Message()), e.Message(), NoData)
  }

  class Controller {
    const service: Service

    ghost predicate Valid()
      reads service, service.repo
    {
      service.Valid()
    }

    constructor (service: Service)
      requires service.Valid()
      ensures Valid() && this.service == service
    {
      this.service := service;
    }

    /** POST /workspaces. */
    method CreateWorkspace(locals: map<string, LocalValue>, body: Option<CreateWorkspaceRequest>, now: int) returns (reply: Reply)
      requires Valid()
      requires UserIdKey in locals ==> WellTyped(locals[UserIdKey])
      modifies service.repo
      ensures Valid() && service.repo.online == old(service.repo.online)
      ensures !(reply.Reply? && reply.code == 201) ==> service.repo.rows == old(service.repo.rows)
      ensures reply.Reply? ==> reply.code in {201, 400, 401}
      ensures GetUserID(locals) == 0 ==> reply == Unauthenticated
      ensures GetUserID(locals) != 0 && body.None? ==> reply == InvalidBody
      ensures GetUserID(locals) != 0 && body.Some? && !CreateValid(body.value) ==> reply == ValidationFailed
      ensures (GetUserID(locals) != 0 && body.Some? && CreateValid(body.value) && !old(service.repo.online))
              ==> reply == Reply(400, Store(Unavailable).Message(), NoData)
      ensures (GetUserID(locals) != 0 && body.Some? && CreateValid(body.value) && old(service.repo.online)
               && NameHeld(old(service.repo.rows), body.value.name, GetUserID(locals), 0))
              ==> reply == Reply(400, NameExists(body.value.name).Message(), NoData)
      ensures (GetUserID(locals) != 0 && body.Some? && CreateValid(body.value) && old(service.repo.online)
               && !NameHeld(old(service.repo.rows), body.value.name, GetUserID(locals), 0)
               && OwnerNameTaken(old(service.repo.rows), GetUserID(locals), body.value.name))
              ==> reply == Reply(400, Store(DuplicateKey).Message(), NoData)
      ensures (GetUserID(locals) != 0 && body.Some? && CreateValid(body.value) && old(service.repo.online)
               && !OwnerNameTaken(old(service.repo.rows), GetUserID(locals), body.value.name))
              ==> var row := NewWorkspace(GetUserID(locals), body.value.name, body.value.description, now).(id := old(service.repo.nextId));
                  reply == Reply(201, "workspace created successfully", Item(ToResponse(row)))
                  && service.repo.rows == old(service.repo.rows) + [row]
    {
      var userId := GetUserID(locals);
      if userId == 0 {
        return Unauthenticated;
      }
      if body.None? {
        return InvalidBody;
      }
      var req := body.value;
      if !CreateValid(req) {
        return ValidationFailed;
      }
      CreateValidFitsTable(req);
      var result := service.CreateWorkspace(userId, req, now);
      if result.Err? {
        return Reply(400, result.error.Message(), NoData);
      }
      reply := Reply(201, "workspace created successfully", Item(result.value));
    }

    /** GET /workspaces/:id. */
    method GetWorkspace(locals: map<string, LocalValue>, idParam: string) returns (reply: Reply)
      requires Valid()
      requires UserIdKey in locals ==> WellTyped(locals[UserIdKey])
      ensures GetUserID(locals) == 0 ==> reply == Unauthenticated
      ensures GetUserID(locals) != 0 && ParseUint(idParam).None? ==> reply == InvalidId
      ensures GetUserID(locals) != 0 && !service.repo.online && ParseUint(idParam).Some?
              ==> reply == Reply(500, Store(Unavailable).Message(), NoData)
      ensures (GetUserID(locals) != 0 && service.repo.online && ParseUint(idParam).Some?
               && ActiveIndex(service.repo.rows, ParseUint(idParam).value).None?)
              ==> reply == Reply(404, "workspace not found", NoData)
      ensures (GetUserID(locals) != 0 && service.repo.online && ParseUint(idParam).Some?
               && ActiveIndex(service.repo.rows, ParseUint(idParam).value).Some?)
              ==> var w := service.repo.rows[ActiveIndex(service.repo.rows, ParseUint(idParam).value).value];
                  if w.ownerId == GetUserID(locals) || w.isPublic
                  then reply == Reply(200, "workspace retrieved successfully", Item(ToResponse(w)))
                  else reply == Reply(403, AccessDenied.Message(), NoData)
    {
      var userId := GetUserID(locals);
      if userId == 0 {
        return Unauthenticated;
      }
      var id := ParseUint(idParam);
      if id.None? {
        return InvalidId;
      }
      var result := service.GetWorkspace(id.value, userId);
      if result.Err? {
        GetStatusOfError(result.error);
      }
      reply := GetReply(result);
    }

    /** GET /workspaces?page=&limit=; an empty query value is an absent one. */
    method ListWorkspaces(locals: map<string, LocalValue>, pageQuery: string, limitQuery: string) returns (reply: Reply)
      requires Valid()
      requires UserIdKey in locals ==> WellTyped(locals[UserIdKey])
      ensures GetUserID(locals) == 0 ==> reply == Unauthenticated
      ensures GetUserID(locals) != 0 && !service.repo.online ==> reply == Reply(500, Store(Unavailable).Message(), NoData)
      ensures GetUserID(locals) != 0 && service.repo.online ==>
                && reply.Reply? && reply.code == 200 && reply.message == "workspaces retrieved successfully"
                && reply.data.Page?
                && reply.data.list.page == PageParam(pageQuery)
                && reply.data.list.limit == LimitParam(limitQuery)
                && reply.data.list.total == |OwnedActive(service.repo.rows, GetUserID(locals))|
                && var ws := Window(ByRecency(OwnedActive(service.repo.rows, GetUserID(locals))),
                                    LimitParam(limitQuery), PageOffset(PageParam(pageQuery), LimitParam(limitQuery)));
                   |reply.data.list.data| == |ws|
                   && forall k :: 0 <= k < |ws| ==> reply.data.list.data[k] == ToResponse(ws[k])
    {
      var userId := GetUserID(locals);
      if userId == 0 {
        return Unauthenticated;
      }
      var page := PageParam(pageQuery);
      var limit := LimitParam(limitQuery);
      ParamsAreAlreadyNormal(pageQuery, limitQuery);
      var result := service.ListWorkspaces(userId, page, limit);
      if result.Err? {
        return Reply(500, result.error.Message(), NoData);
      }
      reply := Reply(200, "workspaces retrieved successfully", Page(result.value));
    }

    /** PUT /workspaces/:id. */
    method UpdateWorkspace(locals: map<string, LocalValue>, idParam: string, body: Option<UpdateWorkspaceRequest>, now: int)
      returns (reply: Reply)
      requires Valid()
      requires UserIdKey in locals ==> WellTyped(locals[UserIdKey])
      modifies service.repo
      ensures Valid() && service.repo.online == old(service.repo.online) && service.repo.nextId == old(service.repo.nextId)
      ensures !(reply.Reply? && reply.code == 200) ==> service.repo.rows == old(service.repo.rows)
      ensures GetUserID(locals) == 0 ==> reply == Unauthenticated
      ensures GetUserID(locals) != 0 && ParseUint(idParam).None? ==> reply == InvalidId
      ensures GetUserID(locals) != 0 && ParseUint(idParam).Some? && body.None? ==> reply == InvalidBody
      ensures GetUserID(locals) != 0 && ParseUint(idParam).Some? && body.Some? && !UpdateValid(body.value) ==> reply == ValidationFailed
      ensures (GetUserID(locals) != 0 && ParseUint(idParam).Some? && body.Some? && UpdateValid(body.value)
               && !old(service.repo.online))
              ==> reply == Reply(400, Store(Unavailable).Message(), NoData)
      ensures (GetUserID(locals) != 0 && ParseUint(idParam).Some? && body.Some? && UpdateValid(body.value)
               && old(service.repo.online) && ActiveIndex(old(service.repo.rows), ParseUint(idParam).value).None?)
              ==> reply == Reply(404, "workspace not found", NoData)
      ensures (GetUserID(locals) != 0 && ParseUint(idParam).Some? && body.Some? && UpdateValid(body.value)
               && old(service.repo.online) && ActiveIndex(old(service.repo.rows), ParseUint(idParam).value).Some?)
              ==> var i := ActiveIndex(old(service.repo.rows), ParseUint(idParam).value).value;
                  var stored := old(service.repo.rows)[i];
                  var edited := Edited(stored, body.value, now);
                  if stored.ownerId != GetUserID(locals) then reply == Reply(403, UpdateDenied.Message(), NoData)
                  else if Renames(body.value) && NameHeld(old(service.repo.rows), body.value.name.value, GetUserID(locals), stored.id)
                  then reply == Reply(400, NameExists(body.value.name.value).Message(), NoData)
                  else if exists j :: 0 <= j < |old(service.repo.rows)| && j != i
                                      && old(service.repo.rows)[j].ownerId == GetUserID(locals) && old(service.repo.rows)[j].name == edited.name
                  then reply == Reply(400, Store(DuplicateKey).Message(), NoData)
                  else reply == Reply(200, "workspace updated successfully", Item(ToResponse(edited)))
                       && service.repo.rows == old(service.repo.rows)[i := edited]
    {
      var userId := GetUserID(locals);
      if userId == 0 {
        return Unauthenticated;
      }
      var id := ParseUint(idParam);
      if id.None? {
        return InvalidId;
      }
      if body.None? {
        return InvalidBody;
      }
      var req := body.value;
      if !UpdateValid(req) {
        return ValidationFailed;
      }
      ghost var rows := service.repo.rows;
      var result := service.UpdateWorkspace(id.value, userId, req, now);
      if ActiveIndex(rows, id.value).Some? {
        ghost var i := ActiveIndex(rows, id.value).value;
        assert rows[i].id == id.value;
        UpdateValidFitsTable(req);
        assert |Edited(rows[i], req, now).name| <= WorkspaceSchema.NameMaxLength;
      }
      if result.Err? {
        UpdateStatusOfError(result.error);
        return Reply(UpdateErrorStatus(result.error.Message()), result.error.Message(), NoData);
      }
      reply := Reply(200, "workspace updated successfully", Item(result.value));
    }

    /** DELETE /workspaces/:id. */
    method DeleteWorkspace(locals: map<string, LocalValue>, idParam: string, now: int) returns (reply: Reply)
      requires Valid()
      requires UserIdKey in locals ==> WellTyped(locals[UserIdKey])
      modifies service.repo
      ensures Valid() && service.repo.online == old(service.repo.online) && service.repo.nextId == old(service.repo.nextId)
      ensures reply.Reply? && reply.code != 200 ==> service.repo.rows == old(service.repo.rows)
      ensures GetUserID(locals) == 0 ==> reply == Unauthenticated
      ensures GetUserID(locals) != 0 && ParseUint(idParam).None? ==> reply == InvalidId
      ensures GetUserID(locals) != 0 && ParseUint(idParam).Some? && !old(service.repo.online)
              ==> reply == Reply(500, Store(Unavailable).Message(), NoData)
      ensures (GetUserID(locals) != 0 && ParseUint(idParam).Some? && old(service.repo.online)
               && ActiveIndex(old(service.repo.rows), ParseUint(idParam).value).None?)
              ==> reply == Reply(404, "workspace not found", NoData)
      ensures (GetUserID(locals) != 0 && ParseUint(idParam).Some? && old(service.repo.online)
               && ActiveIndex(old(service.repo.rows), ParseUint(idParam).value).Some?)
              ==> if old(service.repo.rows)[ActiveIndex(old(service.repo.rows), ParseUint(idParam).value).value].ownerId != GetUserID(locals)
                  then reply == Reply(403, DeleteDenied.Message(), NoData)
                  else reply == Reply(200, "workspace deleted successfully", NoData)
                       && service.repo.rows == SoftDeleted(old(service.repo.rows), ParseUint(idParam).value, now)
    {
      var userId := GetUserID(locals);
      if userId == 0 {
        return Unauthenticated;
      }
      var id := ParseUint(idParam);
      if id.None? {
        return InvalidId;
      }
      var outcome := service.DeleteWorkspace(id.value, userId, now);
      if outcome.Fail? {
        DeleteStatusOfError(outcome.error);
        return Reply(DeleteErrorStatus(outcome.error.Message()), outcome.error.Message(), NoData);
      }
      reply := Reply(200, "workspace deleted successfully", NoData);
    }
  }
}
