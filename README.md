# Collaborative diagram backend — a verified model of its core

The backend has two halves.

- **The Go service** (Fiber + GORM) has these parts:
  - the workspace module: a controller over a service over a repository on the `workspaces` table;
  - the authentication middleware: session-based `RequireAuth`, `GetUserID`, JWT settings and token generation;
  - configuration validation and address parsing;
  - the session-store set-up;
  - the SFTP storage driver.
- **The NestJS service (TypeScript)** covers authentication:
  - session DTOs and their JSON form;
  - the in-memory and the Redis session stores;
  - the session configuration;
  - the Logto profile validator and the OAuth settings;
  - the user service (find-or-create by Logto id);
  - the CSRF middleware, the guards and the parameter decorators.

Each core source file is one Dafny module, in one `.dfy` file under this directory. Five support modules hold the language semantics the core relies on:

- `wrappers.dfy`: `Option`, `Result` and `Outcome`.
- `go_numbers.dfy`: int64 wrap-around; `strconv.Atoi` and `ParseUint`; `%d`; the UTF-8 `len`.
- `go_strings.dfy`: `strings.Index`, `LastIndex`, `Split`, `Join` and `TrimPrefix`.
- `go_path.dfy`: `path.Clean`, `Join` and `Dir`.
- `js_values.dfy`: JavaScript values, `typeof`, truthiness, `Number()`, `NaN` and `Math.max`.

## How the source is modelled

- **In-place state becomes classes.** Objects whose state a call changes are classes with `modifies` clauses and postconditions that give the whole new state in terms of the old. These are:
  - the repository's table;
  - the services and the controller that hold a repository;
  - the two session stores;
  - the auth service's user table;
  - the Express request.
- **Some classes keep an invariant.** The repository, the services, the controller and the auth service keep a ghost `Valid()` invariant: the table's constraints, or unique user ids. The session stores and the request have none, because their operations need no invariant.
- **Pure code becomes functions and lemmas.** This covers the DTOs, the configuration getters, the validator, the CSRF and guard decisions, the path computations and the config checks.
- **Loops stay loops.** The searches in the user table, the expired-session sweep and the response mapping are methods with loops. Each is proved against a specification function.
- **Sequential checks stay sequential.** `Validate` runs four checking methods in turn, each appending its failures. Each method is proved against a failure-list function.
- **Times are parameters.**
  - Go times are int64 nanosecond counts (`time.Duration` included).
  - JavaScript dates are millisecond counts.
  - A `Date` that does not denote a time is `InvalidDate`, and its arithmetic gives `NaN`.
- **Unseen code becomes parameters.** Databases, Redis, SSH and the JWT signer are abstract maps, flags or function parameters.
  - A store that "fails" is modelled by an `online`/`connected` flag.

## Model

| member | source | states |
|---|---|---|
| GoNumbers.WrapInt64 | backend/app/module/workspace/service/workspace_service.go:89 | the result is in int64 range, congruent to the exact value modulo 2^64, and equal to it when no overflow happens |
| GoNumbers.ToUint64 | backend/app/middleware/auth.go:67-68 | uint64(v) keeps non-negative values and maps negative ones above MaxInt64, congruent modulo 2^64 |
| GoNumbers.NatToStringDigits | backend/utils/session/session.go:32 | the %d text of a natural number is a non-empty string of digits that denotes it |
| GoNumbers.ParseUintReadsFormat | backend/app/module/workspace/controller/workspace_controller.go:79-85 | ParseUint(s, 10, 64) reads back every uint64 that %d writes |
| GoNumbers.AtoiReadsFormat | backend/utils/config/config.go:180-182 | strconv.Atoi reads back every int64 that %d writes, sign included |
| GoNumbers.IntToStringHasNoColon | backend/utils/session/session.go:32 | a formatted integer never contains the host:port separator |
| GoNumbers.Utf8Len | backend/utils/config/config.go:195 | len(s) counts UTF-8 bytes: between one and four per character |
| GoStrings.IndexOf | backend/utils/config/config.go:177-178 | the index of the first occurrence, or -1 exactly when the character is absent |
| GoStrings.LastIndexOf | backend/utils/config/config.go:319 | the index of the last occurrence, or -1 exactly when the character is absent; no later position holds it |
| GoStrings.Split | backend/utils/config/config.go:178 | strings.Split yields at least one part, at least two when the separator occurs, and [s] when it does not |
| GoStrings.SplitPartsAreFree | backend/utils/config/config.go:178 | no part of a split contains the separator |
| GoStrings.JoinSplit | backend/utils/config/config.go:178 | joining the parts of a split with the separator gives back the string |
| GoStrings.SplitJoin | backend/utils/config/config.go:178 | splitting a join of separator-free parts gives back the parts |
| GoStrings.IndexAfterFreePrefix | backend/utils/config/config.go:177-178 | the first separator after a separator-free prefix is at the prefix's length |
| GoStrings.LastIndexSkipsFree | backend/utils/config/config.go:319 | appending separator-free text leaves the last index unchanged |
| GoStrings.TrimPrefix | backend/utils/storage/ftp.go:138 | strings.TrimPrefix removes the prefix exactly when the string starts with it, and otherwise returns the string unchanged |
| GoPath.Clean | backend/utils/storage/ftp.go:75 | path.Clean never returns the empty string |
| GoPath.Join2 | backend/utils/storage/ftp.go:137 | path.Join of two elements is empty exactly when both are empty |
| GoPath.Dir | backend/utils/storage/ftp.go:78-79 | path.Dir never returns the empty string |
| GoPath.ResolvePlain | backend/utils/storage/ftp.go:75 | resolving plain segments (no dot, dot-dot or slash) appends them unchanged |
| GoPath.CleanPlain | backend/utils/storage/ftp.go:75-78 | a plain segment is already clean, and its directory is "." |
| GoPath.JoinPlain | backend/utils/storage/ftp.go:137 | joining two plain segments puts exactly one slash between them |
| GoPath.LastSlashOfJoin | backend/utils/storage/ftp.go:78-79 | in a+"/"+b with no slash in b, the last slash is the one added |
| GoPath.CleanTrailingSlash | backend/utils/storage/ftp.go:75 | Clean drops a trailing slash after a plain segment |
| GoPath.DirOfPlainJoin | backend/utils/storage/ftp.go:78-79 | Dir of base/file is the base for plain segments |
| GoPath.CleanRootParent | backend/utils/storage/ftp.go:75 | ".." cannot climb above the root: "/.." cleans to "/", and "/../a" to "/a" for any plain segment a |
| GoPath.CleanParentOfPlain | backend/utils/storage/ftp.go:75 | a ".." removes the plain segment before it: "a/.." cleans to "." for any plain segment a |
| GoPath.CleanLeadingParent | backend/utils/storage/ftp.go:75 | a leading ".." of a relative path is kept: "../a" is already clean for any plain segment a |
| JsValues.TypeOf | backend/src/auth/validators/logto.validator.ts:31-35 | typeof answers "object" exactly for null, objects and arrays |
| JsValues.ObjectsAreTruthy | backend/src/auth/validators/logto.validator.ts:31-35 | of the values whose typeof is "object" or "function", null is the only falsy one |
| JsValues.Member | backend/src/auth/validators/logto.validator.ts:37-44 | reading a missing property, or a property of a non-object, gives undefined |
| JsValues.StringOrUndefined | backend/src/auth/validators/logto.validator.ts:42-44 | a field typed as a string is kept exactly when its value is a string |
| JsValues.JsMax | backend/src/auth/session/redis-session.store.ts:131 | Math.max(x, floor) is NaN exactly when x is; otherwise it is the larger of the two: at least both, and equal to one of them |
| JsValues.NumberOfText | backend/src/auth/session/session.config.ts:51-52 | Number("") is 0, and a string of digits denotes its decimal value |
| JsValues.Times | backend/src/auth/session/session.config.ts:52 | multiplication keeps NaN and multiplies finite numbers |
| WorkspaceSchema.NewWorkspace | backend/app/module/workspace/service/workspace_service.go:46-52 | a new record has no id yet, is private and live, and has both times set to now |
| WorkspaceSchema.AppendKeepsValid | backend/app/database/schema/workspace.go:10-23 | appending a row keeps every table constraint exactly when the row has a generated id, a name within varchar(255), a fresh id and a fresh (owner, name) pair |
| WorkspaceRequest.CreateValidFitsTable | backend/app/module/workspace/request/json.go:3-6 | a valid create request has a non-empty name that fits the column |
| WorkspaceRequest.UpdateValidFitsTable | backend/app/module/workspace/request/json.go:8-12 | a valid update request's name, when given, is non-empty and fits the column |
| WorkspaceRequest.UpdateValidIgnoresIsPublic | backend/app/module/workspace/request/json.go:10-11 | validation never looks at is_public |
| WorkspaceRepository.Filter | backend/app/module/workspace/repository/workspace_repository.go:47-49 | a filter keeps exactly the elements that satisfy the predicate |
| WorkspaceRepository.OwnedActive | backend/app/module/workspace/repository/workspace_repository.go:47-49 | the owner's rows are exactly the live rows with that owner_id |
| WorkspaceRepository.InsertByRecency | backend/app/module/workspace/repository/workspace_repository.go:50 | inserting into a newest-first list keeps it newest-first and adds exactly that row |
| WorkspaceRepository.ByRecency | backend/app/module/workspace/repository/workspace_repository.go:50 | ORDER BY created_at DESC is newest-first and a permutation of its input |
| WorkspaceRepository.Window | backend/app/module/workspace/repository/workspace_repository.go:51-52 | LIMIT/OFFSET returns at most limit rows (none is a limit of -1), each equal to the row at offset+k |
| WorkspaceRepository.WindowKeepsOrder | backend/app/module/workspace/repository/workspace_repository.go:50-52 | a window of a newest-first list is newest-first and drawn from it |
| WorkspaceRepository.WindowIsSlice | backend/app/module/workspace/repository/workspace_repository.go:51-52 | with a non-negative limit, LIMIT/OFFSET is the slice from offset to offset+limit, clipped to the end |
| WorkspaceRepository.ConsecutiveWindowsTile | backend/app/module/workspace/repository/workspace_repository.go:51-52 | two adjacent windows of one size over one sequence concatenate to the window of twice the size |
| WorkspaceRepository.PageWithinCount | backend/app/module/workspace/repository/workspace_repository.go:45-67 | a page never holds more rows than the owner's count |
| WorkspaceRepository.ActiveIndex | backend/app/module/workspace/repository/workspace_repository.go:36-43 | finding by id yields a live row with that id, and nothing only when every row with that id is deleted |
| WorkspaceRepository.WriteAll | backend/app/module/workspace/repository/workspace_repository.go:69-72 | a full update writes every field of the record, but not the id or deleted_at |
| WorkspaceRepository.GormUpdates | backend/app/module/workspace/repository/workspace_repository.go:69-72 | Updates(struct) as written: each non-zero field of the record is written, and each zero-valued one keeps the stored value; is_public can therefore only become true |
| WorkspaceRepository.GormUpdatesIsWriteAllExactly | backend/app/module/workspace/repository/workspace_repository.go:69-72 | Updates(struct) stores what a full write would exactly when no zero-valued field of the record should overwrite a non-zero stored value |
| WorkspaceRepository.WriteAllStoresRecord | backend/app/module/workspace/repository/workspace_repository.go:69-72 | after a full update of a live row, the stored row is the record |
| WorkspaceRepository.SoftDeleted | backend/app/module/workspace/repository/workspace_repository.go:74-78 | only deletion times change: the live row with the id, if any, gets deleted_at = now and keeps every other field; every other row is as it was, and nothing changes when no live row has the id |
| WorkspaceRepository.SoftDeleteHides | backend/app/module/workspace/repository/workspace_repository.go:74-78 | after a soft delete the id is not found, no other row changes, no listing or name check sees the row, and the table stays valid |
| WorkspaceRepository.RecreateAfterDeleteIsRefused | backend/app/module/workspace/repository/workspace_repository.go:29-34 | the unique index still holds a deleted row's (owner, name): re-inserting that pair fails with a duplicate key |
| WorkspaceRepository.Repository.Create | backend/app/module/workspace/repository/workspace_repository.go:29-34 | INSERT fails on an offline store, an over-long name or a taken (owner, name) pair and changes nothing; otherwise it appends the record with a fresh id |
| WorkspaceRepository.Repository.FindByID | backend/app/module/workspace/repository/workspace_repository.go:36-43 | a live row with that id is found, and record-not-found is returned exactly when there is none |
| WorkspaceRepository.Repository.FindByOwnerID | backend/app/module/workspace/repository/workspace_repository.go:45-56 | the result is the window of the owner's live rows, newest-first, bounded by limit and by the count |
| WorkspaceRepository.Repository.CountByOwnerID | backend/app/module/workspace/repository/workspace_repository.go:58-67 | the count is the number of the owner's live rows |
| WorkspaceRepository.Repository.Update | backend/app/module/workspace/repository/workspace_repository.go:69-72 | a zero id is refused; an unknown or deleted id changes nothing; otherwise exactly that row takes the record |
| WorkspaceRepository.Repository.Delete | backend/app/module/workspace/repository/workspace_repository.go:74-78 | the new table is the soft-deleted old table |
| WorkspaceRepository.Repository.CheckNameExists | backend/app/module/workspace/repository/workspace_repository.go:80-92 | true exactly when a live row of the owner, other than the excluded id, has the name |
| WorkspaceService.RowOf | backend/app/module/workspace/service/workspace_service.go:176-186 | the row a response describes is live |
| WorkspaceService.ResponseRoundTrip | backend/app/module/workspace/service/workspace_service.go:176-186 | toResponse loses nothing of a live row, and the response of its row is the response |
| WorkspaceService.NormalPage | backend/app/module/workspace/service/workspace_service.go:82-84 | a page below 1 becomes 1, and other pages are kept |
| WorkspaceService.NormalLimit | backend/app/module/workspace/service/workspace_service.go:85-87 | a limit outside 1..100 becomes 10, and other limits are kept |
| WorkspaceService.PageOffset | backend/app/module/workspace/service/workspace_service.go:89 | the offset is (page-1)*limit in int64 arithmetic, and exact when that fits |
| WorkspaceService.NormalisationIdempotent | backend/app/module/workspace/service/workspace_service.go:82-87 | normalising a page or a limit twice changes nothing |
| WorkspaceService.OffsetsAdvanceByLimit | backend/app/module/workspace/service/workspace_service.go:89 | when the product fits in int64, page 1 starts at offset 0 and each page starts exactly limit rows after the previous one |
| WorkspaceService.ConsecutivePagesTile | backend/app/module/workspace/service/workspace_service.go:82-91 | over one fixed ordering of the rows, pages p and p+1 together are the two-page window from page p's offset, so no row is repeated or skipped |
| WorkspaceService.EditedChangesOnlyRequested | backend/app/module/workspace/service/workspace_service.go:128-147 | an update changes the requested name, description and is_public and nothing else except updated_at |
| WorkspaceService.EditedIdempotent | backend/app/module/workspace/service/workspace_service.go:128-147 | applying the same update twice equals applying it once |
| WorkspaceService.UpdateAsWrittenKeepsPublic | backend/app/module/workspace/service/workspace_service.go:128-151 | as written, the update stores the edited record except that is_public stays true once true; it stores the edit exactly when the body does not make a public workspace private |
| WorkspaceService.UniquePairs | backend/app/database/schema/workspace.go:10-18 | distinct rows of a valid table differ in id and in (owner, name) |
| WorkspaceService.RenameConflictIsDeletedRow | backend/app/module/workspace/service/workspace_service.go:128-147 | when a rename passes the name check, any clash at the unique index is with a deleted row |
| WorkspaceService.Responses | backend/app/module/workspace/service/workspace_service.go:101-104 | the list holds the response of each row, in order |
| WorkspaceService.Service.CreateWorkspace | backend/app/module/workspace/service/workspace_service.go:35-61 | an empty name, a taken name or a store failure is reported and changes nothing; otherwise a private live workspace is appended and returned |
| WorkspaceService.Service.GetWorkspace | backend/app/module/workspace/service/workspace_service.go:63-78 | not found for an unknown or deleted id, access denied when the caller neither owns the row nor it is public, else the row's response |
| WorkspaceService.Service.ListWorkspaces | backend/app/module/workspace/service/workspace_service.go:80-112 | the owner's page, newest-first, with the normalised page and limit and the owner's total; every item is the caller's |
| WorkspaceService.Service.UpdateWorkspace | backend/app/module/workspace/service/workspace_service.go:114-152 | not found, update denied to a non-owner, name-exists on a clash; otherwise exactly that row becomes the edited row |
| WorkspaceService.Service.DeleteWorkspace | backend/app/module/workspace/service/workspace_service.go:154-173 | not found, delete denied to a non-owner; otherwise the row is soft-deleted |
| WorkspaceController.NameExistsMessageIsDistinct | backend/app/module/workspace/controller/workspace_controller.go:88-93 | the name-exists message is neither the not-found nor a permission message |
| WorkspaceController.RefusalsAreDistinct | backend/app/module/workspace/controller/workspace_controller.go:88-93 | the three permission messages differ from each other and from "workspace not found" |
| WorkspaceController.StoreMessageIsDistinct | backend/app/module/workspace/controller/workspace_controller.go:88-93 | no store error message is a not-found or permission message |
| WorkspaceController.GetStatusOfError | backend/app/module/workspace/controller/workspace_controller.go:86-99 | the message of a service error maps to 404 for not-found, 403 for access denied, and 500 otherwise |
| WorkspaceController.UpdateStatusOfError | backend/app/module/workspace/controller/workspace_controller.go:179-193 | the message of a service error maps to 404 for not-found, 403 for update denied, and 400 otherwise |
| WorkspaceController.DeleteStatusOfError | backend/app/module/workspace/controller/workspace_controller.go:221-232 | the message of a service error maps to 404 for not-found, 403 for delete denied, and 500 otherwise |
| WorkspaceController.PageParam | backend/app/module/workspace/controller/workspace_controller.go:118-124 | a query that parses to a positive integer is the page as given; an empty, non-numeric or non-positive query gives 1 |
| WorkspaceController.LimitParam | backend/app/module/workspace/controller/workspace_controller.go:125-131 | a query that parses to an integer in 1..100 is the limit as given; an empty, non-numeric or out-of-range query gives 10 |
| WorkspaceController.ParamsAreAlreadyNormal | backend/app/module/workspace/controller/workspace_controller.go:118-131 | the service's normalisation never changes the controller's page and limit |
| WorkspaceController.PageParamReadsFormat | backend/app/module/workspace/controller/workspace_controller.go:121-124 | every positive int64 written in decimal is read as that page |
| WorkspaceController.OversizedLimitFallsBack | backend/app/module/workspace/controller/workspace_controller.go:127-130 | a limit above 100 falls back to 10 |
| WorkspaceController.Controller.CreateWorkspace | backend/app/module/workspace/controller/workspace_controller.go:32-67 | 401 without a user, 400 for a bad or invalid body, a service error as 400 (a live name clash, an unavailable store, or a duplicate key when only a deleted row holds the name), else 201 with the created workspace; only 201 changes the table |
| WorkspaceController.Controller.GetWorkspace | backend/app/module/workspace/controller/workspace_controller.go:70-106 | 401, 400 for a bad id, the mapped service error status, else 200 with the workspace |
| WorkspaceController.Controller.ListWorkspaces | backend/app/module/workspace/controller/workspace_controller.go:109-146 | 401, a store error as 500, else 200 with the service's page for the parsed page and limit |
| WorkspaceController.Controller.UpdateWorkspace | backend/app/module/workspace/controller/workspace_controller.go:149-200 | 401, 400 for a bad id, body or request, the mapped service error status, else 200 with the updated workspace; only 200 changes the table |
| WorkspaceController.Controller.DeleteWorkspace | backend/app/module/workspace/controller/workspace_controller.go:203-238 | 401, 400 for a bad id, the mapped service error status, else 200 and the row soft-deleted |
| Config.CheckApp | backend/utils/config/config.go:169-183 | the app checks append exactly the app failures |
| Config.CheckSecrets | backend/utils/config/config.go:186-198 | the database and JWT checks append exactly those failures |
| Config.CheckTlsAndSession | backend/utils/config/config.go:201-213 | the TLS and session checks append exactly those failures |
| Config.CheckStorage | backend/utils/config/config.go:216-237 | the storage checks append exactly the storage failures |
| Config.Validate | backend/utils/config/config.go:165-251 | nil exactly when no check fails, else one error listing every failure in order; the CORS warning is raised exactly for a wildcard in production |
| Config.ValidateAcceptsExactly | backend/utils/config/config.go:166-250 | a configuration passes exactly when it is acceptable, stated field by field |
| Config.EmptySecretFailsTwice | backend/utils/config/config.go:191-198 | with sessions off, an empty JWT secret is reported both as missing and as too short |
| Config.LongSecretPasses | backend/utils/config/config.go:191-198 | a secret of at least 32 bytes raises neither secret error |
| Config.OnlyJwtChecksSecret | backend/utils/config/config.go:165-251 | no check other than the JWT one reports a secret error |
| Config.CorsNeverFails | backend/utils/config/config.go:240-244 | CORS settings and the production flag never cause a failure, only a warning |
| Config.PortRangeIsNotChecked | backend/utils/config/config.go:176-182 | "-1" and "99999" pass as ports, "http" does not |
| Config.HostPortIsJudgedByPort | backend/utils/config/config.go:176-182 | host:port is judged by its port alone |
| Config.ParseAddress | backend/utils/config/config.go:318-324 | a colon after the first character splits the address at the last colon, and otherwise the whole address is the host |
| Config.ParseAddressOfHostPort | backend/utils/config/config.go:318-324 | ParseAddress inverts host + ":" + port for a non-empty host and a colon-free port |
| Config.ParseAddressLeadingColon | backend/utils/config/config.go:319 | ":8080" is all host, because a colon at index 0 does not count |
| GoSession.StorageFor | backend/utils/session/session.go:20-46 | Redis storage exactly when the driver is "redis" and a host is set |
| GoSession.SessionExpiration | backend/utils/session/session.go:49-55 | 0 means the default; values below the threshold are seconds; larger values are kept as nanoseconds |
| GoSession.NewStore | backend/utils/session/session.go:16-71 | the store has the chosen storage, the expiration, the cookie:name lookup, path "/" and the cookie flags |
| GoSession.MemoryIsTheFallback | backend/utils/session/session.go:21-46 | any other driver, or a missing host, gives memory storage |
| GoSession.RedisAddressParses | backend/utils/session/session.go:32 | the Redis address splits back into the configured host and port |
| GoSession.SessionExpirationIdempotent | backend/utils/session/session.go:49-55 | converting an expiration twice changes nothing |
| GoSession.NegativeExpirationStaysNegative | backend/utils/session/session.go:50-53 | a negative expiration is scaled as seconds and stays negative |
| AuthMiddleware.RequestContext.constructor | backend/app/middleware/auth.go:50-51 | a request starts with the given locals |
| AuthMiddleware.UserIdOf | backend/app/middleware/auth.go:64-73 | a uint64 value is the id as it is, an int is converted to uint64 (a non-negative one keeps its value), any other type gives 0; the id fits uint64 |
| AuthMiddleware.GetUserID | backend/app/middleware/auth.go:57-74 | the id stored under "user_id": a uint64 as it is, an int converted to uint64, another type 0; 0 when no user id is stored |
| AuthMiddleware.GetUserIDZero | backend/app/middleware/auth.go:59-73 | the id is 0 exactly when it is missing, of another type, or a stored zero |
| AuthMiddleware.NegativeIntIdIsNonZero | backend/app/middleware/auth.go:67-68 | a negative int id wraps to a large non-zero id |
| AuthMiddleware.RequireAuth | backend/app/middleware/auth.go:28-55 | 500 without a store, 401 without a session or user id, else the request continues with that id in its locals |
| AuthMiddleware.PassedRequestCarriesSessionUser | backend/app/middleware/auth.go:43-51 | after RequireAuth passes, GetUserID returns the session's user |
| AuthMiddleware.Protected | backend/app/middleware/auth.go:77-88 | panics, modelled as an error, exactly when the secret is empty; otherwise it signs with the secret and looks up header then cookie |
| AuthMiddleware.JwtError | backend/app/middleware/auth.go:90-98 | 400 exactly for a missing or malformed token, else 401 |
| AuthMiddleware.JwtErrorsOtherwiseAlike | backend/app/middleware/auth.go:90-98 | every other JWT error gets the same 401 reply |
| AuthMiddleware.TokenExpiration | backend/app/middleware/auth.go:111-114 | small values are seconds, large ones nanoseconds, in int64 |
| AuthMiddleware.GenerateTokenAccess | backend/app/middleware/auth.go:107-138 | a signing error is passed on; otherwise a Bearer token for the user and issuer, issued now and expiring after the configured lifetime |
| AuthMiddleware.ExpiryIsSecondsAfterIssue | backend/app/middleware/auth.go:111-125 | for a lifetime in seconds, expiry is issue time plus that many seconds |
| AuthMiddleware.ZeroLifetimeExpiresAtIssue | backend/app/middleware/auth.go:111-125 | a zero lifetime expires at the issue time |
| FtpStorage.FullPath | backend/utils/storage/ftp.go:73-76 | without a base the name is used as given; otherwise the cleaned base/name |
| FtpStorage.FullPathUnderPlainBase | backend/utils/storage/ftp.go:73-76 | for plain segments the path is base/name |
| FtpStorage.GetURL | backend/utils/storage/ftp.go:136-140 | every URL starts with the public URL and a slash; with the base "upload" a plain file name is served right under it; any other plain base stays in the URL as base/name |
| FtpStorage.URLWithoutBase | backend/utils/storage/ftp.go:136-140 | without a base the cleaned name is used, minus an "upload/" prefix |
| FtpStorage.MkdirTarget | backend/utils/storage/ftp.go:78-84 | a directory is created exactly when the path's directory is not "." |
| FtpStorage.MkdirForPlainFiles | backend/utils/storage/ftp.go:78-84 | a plain file needs no directory without a base, and the base directory with one |
| FtpStorage.Upload | backend/utils/storage/ftp.go:65-119 | success, with the file name, exactly when connect, mkdir, create and copy all succeed; any failure gives an empty name |
| FtpStorage.CancelledUploadFails | backend/utils/storage/ftp.go:105-109 | a cancelled context fails the upload even when every SFTP call succeeds |
| FtpStorage.Delete | backend/utils/storage/ftp.go:121-134 | a connection error, or the result of removing the full path |
| FtpStorage.Open | backend/utils/storage/ftp.go:155-178 | a connection error, or the result of opening the full path |
| FtpStorage.Stat | backend/utils/storage/ftp.go:180-200 | a size exactly when connect and stat succeed, and 0 with any error |
| FtpStorage.OperationsShareOnePath | backend/utils/storage/ftp.go:73-76 | Upload, Delete, Open and Stat address the same full path for a file |
| ConfigService.Get | backend/src/auth/session/session.config.ts:41-44 | the environment's value, or the default when the key is absent |
| ConfigService.Lookup | backend/src/auth/session/session.config.ts:59 | a value exactly when the key is present |
| ConfigService.GetOrThrow | backend/src/auth/config/logto.config.ts:12-15 | the value when present, otherwise an error naming the key |
| SessionDto.NewSessionCookie | backend/src/auth/dto/session.dto.ts:49-56 | the given cookie fields, or the empty cookie |
| SessionDto.NewSessionUser | backend/src/auth/dto/session.dto.ts:66-72 | every user field is copied |
| SessionDto.NewSessionData | backend/src/auth/dto/session.dto.ts:9-16 | a missing cookie becomes the empty cookie, and every other field is copied |
| SessionDto.ToJSON | backend/src/auth/dto/session.dto.ts:18-27 | the JSON form always carries the cookie |
| SessionDto.FromJSON | backend/src/auth/dto/session.dto.ts:29-38 | a record without a cookie gets the empty cookie |
| SessionDto.FromJSONOfToJSON | backend/src/auth/dto/session.dto.ts:18-38 | fromJSON(toJSON(d)) is d |
| SessionDto.ToJSONOfFromJSON | backend/src/auth/dto/session.dto.ts:18-38 | toJSON(fromJSON(r)) is r with the cookie filled in |
| SessionDto.NewSessionDataIdempotent | backend/src/auth/dto/session.dto.ts:9-27 | rebuilding a DTO from its JSON changes nothing |
| LocalSessionStore.CalculateExpiry | backend/src/auth/session/local-session.store.ts:58-70 | no expiry means now plus a day; a Date is kept; text is parsed; an empty string gives an invalid date |
| LocalSessionStore.Live | backend/src/auth/session/local-session.store.ts:45-56 | exactly the unexpired entries survive, unchanged |
| LocalSessionStore.ExpiryIsStrict | backend/src/auth/session/local-session.store.ts:24-27 | an entry is still live at its expiry instant and expired one millisecond later |
| LocalSessionStore.InvalidExpiryNeverExpires | backend/src/auth/session/local-session.store.ts:24-27 | an invalid-date expiry never expires, since a comparison with NaN is false |
| LocalSessionStore.DefaultExpiryLastsADay | backend/src/auth/session/local-session.store.ts:58-70 | a session without an expiry is live for a day |
| LocalSessionStore.LiveIdempotent | backend/src/auth/session/local-session.store.ts:45-56 | sweeping twice at the same time removes nothing more |
| LocalSessionStore.LiveShrinksOverTime | backend/src/auth/session/local-session.store.ts:45-56 | a later sweep keeps no more sessions than an earlier one |
| LocalSessionStore.Store.constructor | backend/src/auth/session/local-session.store.ts:13 | a store starts empty |
| LocalSessionStore.Store.Set | backend/src/auth/session/local-session.store.ts:15-19 | the session is stored under its id with its expiry, and nothing else changes |
| LocalSessionStore.Store.Get | backend/src/auth/session/local-session.store.ts:21-29 | a missing id gives null; an expired entry is removed and gives null; otherwise the data |
| LocalSessionStore.Store.Destroy | backend/src/auth/session/local-session.store.ts:31-34 | the id is removed |
| LocalSessionStore.Store.Touch | backend/src/auth/session/local-session.store.ts:36-43 | an existing entry keeps its data and takes the expiry computed from the new session; an unknown id is left alone |
| LocalSessionStore.Store.ClearExpired | backend/src/auth/session/local-session.store.ts:45-56 | the store keeps exactly the live sessions, and the count is how many were removed |
| RedisSessionStore.Key | backend/src/auth/session/redis-session.store.ts:70 | the key is "session:" followed by the id |
| RedisSessionStore.KeysAreDistinct | backend/src/auth/session/redis-session.store.ts:83 | different ids have different keys |
| RedisSessionStore.ExpiryTime | backend/src/auth/session/redis-session.store.ts:125-128 | a missing or empty expiry means now plus a day |
| RedisSessionStore.TtlAsWritten | backend/src/auth/session/redis-session.store.ts:124-132 | the TTL as written, when it is a number, is at least 60 |
| RedisSessionStore.TtlAsWrittenIsNaNForInvalidDate | backend/src/auth/session/redis-session.store.ts:124-132 | an invalid expiry date gives a NaN TTL, so the floor fails |
| RedisSessionStore.CalculateTTL | backend/src/auth/session/redis-session.store.ts:124-132 | the TTL is at least 60 seconds, agrees with the code whenever that is a number, and is 60 for an invalid date |
| RedisSessionStore.DefaultTtlIsADay | backend/src/auth/session/redis-session.store.ts:126-131 | without an expiry the TTL is 86400 seconds |
| RedisSessionStore.TtlOfAnExpiryDate | backend/src/auth/session/redis-session.store.ts:126-131 | for an expiry date the TTL is the whole seconds left, floored at 60 |
| RedisSessionStore.JsonExpires | backend/src/auth/session/redis-session.store.ts:71 | JSON leaves every expiry other than a Date unchanged |
| RedisSessionStore.Stringified | backend/src/auth/session/redis-session.store.ts:71 | JSON.stringify changes nothing but the cookie's Date |
| RedisSessionStore.StringifyKeepsTtl | backend/src/auth/session/redis-session.store.ts:71 | a stored session read back has the expiry and the TTL it was stored with, unless its expiry is an invalid Date |
| RedisSessionStore.InvalidExpiryReadsBackAsDefault | backend/src/auth/session/redis-session.store.ts:71 | an invalid expiry Date is stored as null, so the session read back has no expiry and the one-day TTL |
| RedisSessionStore.ReadBack | backend/src/auth/session/redis-session.store.ts:84-93 | a missing key or unparsable text gives null |
| RedisSessionStore.ReadBackAfterSet | backend/src/auth/session/redis-session.store.ts:62-93 | get after set returns the session as JSON stores it |
| RedisSessionStore.SetIsolatesSessions | backend/src/auth/session/redis-session.store.ts:62-93 | setting one session leaves every other session's read unchanged |
| RedisSessionStore.Store.constructor | backend/src/auth/session/redis-session.store.ts:22-60 | a store over the given client state |
| RedisSessionStore.Store.Set | backend/src/auth/session/redis-session.store.ts:62-74 | throws without a client; otherwise the key holds the JSON with the computed TTL |
| RedisSessionStore.Store.Get | backend/src/auth/session/redis-session.store.ts:76-94 | throws without a client; otherwise the read-back of the key |
| RedisSessionStore.Store.Destroy | backend/src/auth/session/redis-session.store.ts:96-105 | throws without a client; otherwise the key is deleted |
| RedisSessionStore.Store.Touch | backend/src/auth/session/redis-session.store.ts:107-117 | throws without a client; an existing key gets the new TTL and keeps its value |
| RedisSessionStore.Store.ClearExpired | backend/src/auth/session/redis-session.store.ts:119-122 | resolves and changes nothing |
| SessionConfig.GetStoreType | backend/src/auth/session/session.config.ts:14-28 | redis exactly when SESSION_STORE_TYPE is "redis" |
| SessionConfig.LocalIsTheFallback | backend/src/auth/session/session.config.ts:20-25 | anything else, or nothing, gives local |
| SessionConfig.GetSecret | backend/src/auth/session/session.config.ts:33-35 | the secret, or an error exactly when it is unset |
| SessionConfig.GetCookieName | backend/src/auth/session/session.config.ts:40-45 | the configured name, or "diagram_session" |
| SessionConfig.GetMaxAge | backend/src/auth/session/session.config.ts:50-53 | 24 hours by default in ms, otherwise the environment text times an hour |
| SessionConfig.MaxAgeOfHours | backend/src/auth/session/session.config.ts:51-52 | digit text gives that many hours, "" gives 0, and "24h" gives NaN |
| SessionConfig.IsProduction | backend/src/auth/session/session.config.ts:58-60 | true exactly when NODE_ENV is "production" |
| SessionConfig.GetRedisUrl | backend/src/auth/session/session.config.ts:65-70 | the configured URL, or redis://localhost:6379 |
| LogtoConfig.LogtoConfigService.GetOAuthConfig | backend/src/auth/config/logto.config.ts:34-44 | client id, secret and callback from the settings; scope openid, profile and email; the three OIDC URLs under the endpoint |
| LogtoConfig.NewLogtoConfigService | backend/src/auth/config/logto.config.ts:11-16 | built exactly when all four variables are set, and a missing app id is reported |
| LogtoConfig.GettersReturnEnvironment | backend/src/auth/config/logto.config.ts:18-32 | each getter returns its environment variable |
| LogtoConfig.FirstMissingIsReported | backend/src/auth/config/logto.config.ts:12-15 | for each of the four variables, when the earlier ones are set and it is not, the constructor fails naming it |
| LogtoConfig.OidcEndpointsAreDistinct | backend/src/auth/config/logto.config.ts:38-40 | the authorisation, token and user-info URLs differ |
| LogtoValidator.IdentitiesOf | backend/src/auth/validators/logto.validator.ts:45-48 | identities are kept exactly when they are an object |
| LogtoValidator.ValidateLogtoProfile | backend/src/auth/validators/logto.validator.ts:31-57 | non-objects and null are refused; a missing or empty sub is refused; otherwise the profile holds sub and the correctly typed fields |
| LogtoValidator.ValidateReadsRawProfile | backend/src/auth/validators/logto.validator.ts:31-57 | validating the raw form of a profile gives back that profile |
| LogtoValidator.WrongTypedFieldsAreDropped | backend/src/auth/validators/logto.validator.ts:42-44 | a non-string email is dropped and the profile is still accepted |
| AuthService.ToSessionUser | backend/src/auth/auth.service.ts:91-105 | the session user carries every field of the user |
| AuthService.ToSessionUserInjective | backend/src/auth/auth.service.ts:91-105 | different users give different session users |
| AuthService.Created | backend/src/auth/auth.service.ts:37-48 | a new user takes the Logto id, email, name and picture |
| AuthService.Changed | backend/src/auth/auth.service.ts:57-68 | a field is updated exactly when the profile gives a non-empty, different value |
| AuthService.MergedFields | backend/src/auth/auth.service.ts:57-77 | after the update, id and Logto id are kept, and each field has the profile's non-empty value or the stored one |
| AuthService.NoUpdateIffUnchanged | backend/src/auth/auth.service.ts:70-77 | the database is written exactly when the merged user differs from the stored one |
| AuthService.MergedIsStable | backend/src/auth/auth.service.ts:57-77 | logging in again with the same profile writes nothing |
| AuthService.FindByLogtoId | backend/src/auth/auth.service.ts:33-35 | finds a user with that Logto id, or none exactly when there is none |
| AuthService.FindById | backend/src/auth/auth.service.ts:113-115 | finds a user with that id, or none exactly when there is none |
| AuthService.AuthService.constructor | backend/src/auth/auth.service.ts:17 | a service over a table with unique ids |
| AuthService.AuthService.FindOrCreateUser | backend/src/auth/auth.service.ts:29-85 | a store failure gives "Failed to process user data"; an unknown Logto id appends a created user; a known one updates that row to the merged user; both return its session user |
| AuthService.AuthService.GetUserById | backend/src/auth/auth.service.ts:111-122 | the user's session form, or null when unknown or on a store failure |
| AuthService.AuthService.Logout | backend/src/auth/auth.service.ts:129-137 | logout changes nothing |
| Csrf.Token | backend/src/auth/middleware/csrf.middleware.ts:23-27 | the header token when non-empty, otherwise the body's _csrf |
| Csrf.Next | backend/src/auth/middleware/csrf.middleware.ts:41-43 | passes exactly when the next handler raises no error |
| Csrf.Use | backend/src/auth/middleware/csrf.middleware.ts:13-44 | passes exactly for safe methods, the callback or a truthy token with no downstream error; forbidden with the validation message exactly for an unsafe request without a token or with a downstream error |
| Csrf.MissingTokenIsReportedAsValidationFailure | backend/src/auth/middleware/csrf.middleware.ts:29-43 | an unsafe request without a token is forbidden |
| Csrf.DownstreamErrorsAreMasked | backend/src/auth/middleware/csrf.middleware.ts:29-43 | a downstream error after a token check becomes 403, but on a safe method it propagates |
| Csrf.GenerateCsrfToken | backend/src/auth/middleware/csrf.middleware.ts:47-50 | the stub token |
| Csrf.AnyTokenPasses | backend/src/auth/middleware/csrf.middleware.ts:36-39 | any non-empty token passes, the generated one included |
| Csrf.BodyTokenIsTheFallback | backend/src/auth/middleware/csrf.middleware.ts:23-27 | with an empty header the body's _csrf decides |
| ExpressRequest.Request.constructor | backend/src/auth/types/express.d.ts:29-39 | a request with the given session and user |
| ExpressRequest.SessionUserOf | backend/src/auth/types/express.d.ts:29-39 | the session's user, if there is a session with one |
| AuthGuard.CanActivate | backend/src/auth/guards/auth.guard.ts:13-34 | refuses a request whose session has no user or whose user has an empty id, and otherwise admits it and sets request.user to that user |
| AuthGuard.RoleGuard.CanActivate | backend/src/auth/guards/auth.guard.ts:41-52 | refuses exactly when there is no session user |
| AuthGuard.RolesAreIgnored | backend/src/auth/guards/auth.guard.ts:41-52 | the allowed roles never change the decision |
| AuthGuard.RoleGuardIsLaxer | backend/src/auth/guards/auth.guard.ts:23-52 | the role guard admits whatever the auth guard admits, and also a user with an empty id |
| CurrentUser.CurrentUser | backend/src/auth/decorators/current-user.decorator.ts:6-17 | the session's user, or null (None) without a session or a user |
| CurrentUser.RequireAuth | backend/src/auth/decorators/current-user.decorator.ts:19-30 | the session's user, or an error exactly when there is none |
| CurrentUser.EmptyIdIsNotChecked | backend/src/auth/decorators/current-user.decorator.ts:19-30 | a user with an empty id is accepted |
| CurrentUser.DecoratorsAgreeWithGuards | backend/src/auth/decorators/current-user.decorator.ts:6-17 | the decorator reads the same user the guards read |

## Left out

- **I/O and the network are not modelled.** This covers SSH/SFTP connection and transfer, Redis commands, Prisma and GORM SQL. Each backend is an abstract table, map or function parameter, and its availability is a flag.
- **Logging is not modelled.** The CORS warning is a returned flag.
- **Concurrency is not modelled.**
  - The upload goroutine and its `select` on the context become a `Transfer` value: cancelled, copied or failed.
  - Parallel requests are not modelled.
- **Clocks are parameters.** Each call uses a single `now`.
- AuthMiddleware.GetUserID: the float64 case of the type switch is not modelled. Fiber locals holding float64 ids are not produced in the core.
- **JWT signing is a parameter.** `SignedString`'s result is passed in, and the HMAC is not modelled.
- **The zod branch of the Logto validator is not modelled.** It is a runtime library check; the hand-written branch is modelled.
- **Parsing date strings is not modelled.** A textual cookie expiry carries the instant it parses to, or an invalid date.
- JsValues.NumberOfText: only decimal digit strings and the empty string are modelled. Fractions, hex, exponents and whitespace are not.
- RedisSessionStore.Store: the failure of a command on a connected client is not modelled; only a missing client throws.
- **ValidateStruct's error handler is not modelled.** The controller's reply to an invalid body is the single `ValidationFailed` reply.
- WorkspaceRepository.Repository.Update: stores the corrected full write (WriteAll), not what `Updates(struct)` as written stores. As written, a false is_public, an empty name or a nil description is never written. GormUpdates and GormUpdatesIsWriteAllExactly describe the as-written store.
- WorkspaceService.Service.UpdateWorkspace: its stored row is the edited record through the corrected full write. As written, the table keeps is_public true when the body sets it false, while the reply says false (UpdateAsWrittenKeepsPublic).
- WorkspaceController.Controller.UpdateWorkspace: it inherits the corrected full write from the service. As written, a workspace made private stays public in the table, so a later GET by a non-owner still succeeds.
- RedisSessionStore.Store.Set: it uses the corrected TTL (CalculateTTL), which is 60 for an invalid expiry Date. As written, the TTL is NaN, Redis refuses `SET … EX NaN`, and set rejects.
- RedisSessionStore.Store.Touch: it uses the corrected TTL in the same way. As written, `EXPIRE key NaN` is refused and touch rejects.
- WorkspaceRepository.ByRecency: it fixes one order for rows with equal created_at. `ORDER BY created_at DESC` leaves that order open, and it may differ between two queries.
- WorkspaceService.OffsetsAdvanceByLimit: that pages neither overlap nor skip rows (ConsecutivePagesTile) holds only over one fixed ordering. With ties in created_at, or with rows written between two requests, two page queries can overlap or skip.
- **Only the PostgreSQL dialect is modelled**: its error texts (DbError), and name comparison by exact equality. The MySQL connection the bootstrap can also open has other messages and a case-insensitive default collation.
- **A single `online` flag stands for the database's availability.** Two source error paths therefore cannot occur in the model: a count failing after the list query succeeded (workspace_service.go:96-99), and a delete failing after the find succeeded (workspace_service.go:168-170).
- GoSession.NewStore: the session id generator (a random UUID per session) is not modelled. Randomness is outside the model.
- **TOML loading, `ParseConfig` and `NewConfig` are not modelled.** Configuration fields that `Validate`, the session set-up, the auth middleware and the SFTP driver never read are left out of the model's `Config`.
- AuthMiddleware.GenerateTokenAccess: overflow of `time.Add` on the Go clock is not modelled. Times are unbounded integers.
- **The `documents` foreign key's ON DELETE CASCADE is not modelled.** Only a hard delete would cascade, and the repository only soft-deletes.
- AuthService.AuthService.FindOrCreateUser: the database-generated user id is a parameter required to be fresh. Prisma failures other than the store being unavailable are not modelled.
- **Some files are not part of this model:**
  - declaration-only files: the response package, the controller interface, the session-store interface and session types;
  - wiring files: modules, router, bootstrap and main;
  - the database bootstrap;
  - the local storage driver;
  - the session middleware, the Logto strategy and the auth controller.

## Findings

| source | as written | input that shows it | evidently intended | confidence | as-written member | corrected member |
|---|---|---|---|---|---|---|
| backend/app/module/workspace/repository/workspace_repository.go:69-72 | `Updates(workspace)` with a struct skips zero-valued fields, so `is_public = false` is never written | a public workspace updated with `is_public: false` stays public | every field of the edited record is written | not executed | WorkspaceService.UpdateAsWrittenKeepsPublic | WorkspaceRepository.WriteAllStoresRecord |
| backend/src/auth/session/redis-session.store.ts:124-132 | `Math.max(Math.floor(ttlMs / 1000), 60)` is NaN when the cookie's expiry is an invalid Date | a session whose `cookie.expires` is `new Date("x")` | a TTL of at least 60 seconds | not executed | RedisSessionStore.TtlAsWrittenIsNaNForInvalidDate | RedisSessionStore.CalculateTTL |
