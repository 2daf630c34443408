# Persistence gateway and error envelope of a construction cost-management API

This project models in Dafny the layer that every route of the API goes through:

- the generic CRUD gateway over one entity table: `create`, `read`, `update`, `delete`;
- the filtered-list query `db_filter`, with its limit/offset checks and its ALL, FIRST and LAST modes;
- the audit logger `log` and the create-payload cleaner `prep_create`;
- the response envelopes `SingleSuccessResponse`, `GroupSuccessResponse`, `ErrorResponse` and `ErrorDescription`;
- the error envelope builder `error_response`, and the exception translator `error_handler` with its audit write.

Files, one module each:

- `wrappers.dfy` (`Wrappers`): Option and Result.
- `models.dfy` (`Models`): UUIDs, column values with Python truthiness, stored records, request payloads with `model_dump(exclude_unset=True)`, and the `ActivityLog` row.
- `exceptions.dfy` (`Exceptions`): the exception kinds the handler distinguishes, and the abstract outcome of a store commit.
- `strings.dfy` (`Strings`): `sep.join` and `str(n)`.
- `response.dfy` (`Response`): the envelope datatypes, with their defaults.
- `common.dfy` (`Common`): the audit store and `log`, and `prep_create`.
- `helper.dfy` (`Helper`): the `Table` class (create/read/update/delete), the patch loop, and `db_filter`.
- `errors.dfy` (`Errors`): `error_response`, the classification, and `error_handler`.

How the store is modelled:

- A table is a class `Table` whose `rows` field maps primary keys to records. `create`, `update` and `delete` change it.
- A table knows the attributes its entity class declares besides the key (`columns`). `update` refuses a set field outside them, as pydantic's `setattr` does.
- What a commit reports is a parameter: `Committed`, `IntegrityError`, `ValidationError` or `OtherError`.
- Two constraint checks are computed, not passed in, and they override the reported outcome as an integrity failure:
  - a new object whose key is already stored;
  - a non-`None` value of a unique column that another row already holds.
- A failed commit is rolled back, so the table is unchanged.
- `create` gets an `attached` flag. It is true when the object was loaded from the session, which is the `update` path. It decides whether an existing key is a conflict or an update in place.
- A store lookup that raises is a parameter `lookupError` of `read`, `update` and `delete`.
- `db_filter` is a function over a scan of the table: its rows, as entities with their keys, in the store's natural order. `Helper.Table.IsScan` says when a scan lists exactly the stored rows. The `indexer` column is given as an ordering key `orderKey: Entity -> int`.
- A table keeps the store's uniqueness guarantee `Helper.Table.Valid`: no two rows hold the same non-`None` value in a unique column.
- The audit table is a class `ActivityStore` holding its rows in insertion order.
- Fresh UUIDs, clock readings and the audit commit's outcome are parameters.
- The diagnostic that `log` prints on a failed commit is returned as an out-parameter.

Behaviour worth knowing:

- The catch-all branch of `error_handler` sends `str(exc)` to the client (api/src/utils/errors.py:83). The fixed text "An unhandled critical error occurred." appears only in the audit message (api/src/utils/errors.py:81).
- `read(..., raise_empty=False)` on a missing key does not return an empty result. It fails the `assert obj is not None` at api/src/utils/helper.py:41. The handler turns that into a 500 whose detail is empty (`Errors.ReadWithoutRaiseEmptyIsServerError`). So an error envelope can carry an empty detail.
- A request-validation error that reports no errors gives an envelope with zero entries, since there is one entry per reported error.
- A `ValueError` always gives 404 (api/src/utils/errors.py:64-77). So a PATCH whose payload sets a field the entity class does not declare answers 404: `ProjectUpdate` allows `total_budget` (api/src/routes/project.py:68), `Project` has no such column, and the `setattr` in `update` raises (`Helper.UndeclaredFieldScenario`).
- The handler tests for FastAPI's `HTTPException` (api/src/utils/errors.py:4). Starlette's base `HTTPException`, which the router raises for an unknown path or a wrong method and which api/main.py:38 also sends to the handler, is not an instance of it. It falls to the catch-all: 500 "Internal Server Error" with detail "404: Not Found", audited with error class "HTTPException" (`Errors.RouterNotFoundIsServerError`).

## Model

| member | source | states |
|---|---|---|
| `Models.SetFields` | api/src/utils/helper.py:48 | `model_dump(exclude_unset=True)` keeps exactly the fields the caller set, with their values |
| `Response.DefaultsHold` | api/src/models/response.py:16-38 | success envelopes default to result "ok" with response "entity" (one `data`) or "collection" (a list); the error envelope defaults to "error"; an error description's context defaults to none and it keeps the id it is given |
| `Common.Truncate` | api/src/utils/common.py:23 | the stored description has length min(255, len(message)), is a prefix of the message, and is the whole message when that fits |
| `Common.LogRow` | api/src/utils/common.py:19-26 | the audit row's description is exactly the truncated message, so a prefix of it of at most 255 characters; action, code, user, project and details are copied unchanged |
| `Common.ActivityStore.Log` | api/src/utils/common.py:10-33 | on a successful commit exactly one row is appended; on a failed commit nothing is stored, nothing is raised, and the "CRITICAL LOGGING ERROR" diagnostic is produced; code defaults to 200 and details to "" |
| `Common.Cleaned` | api/src/utils/common.py:38-41 | a field is kept exactly when it is not a named primary key whose value is `None`; kept values are unchanged |
| `Common.CleanedIdempotent` | api/src/utils/common.py:36-41 | cleaning twice gives the same dict as cleaning once |
| `Common.PrepCreate` | api/src/utils/common.py:36-41 | the result holds only set fields, drops a primary key only when it is `None`, keeps non-`None` keys and non-key `None` fields, and equals the cleaned dump |
| `Helper.Merge` | api/src/utils/helper.py:48-49 | every patched field takes the patch's value; every other field keeps its old value; no field is lost |
| `Helper.MergeEmptyIsIdentity` | api/src/utils/helper.py:45-51 | an empty patch leaves the record as it was |
| `Helper.ApplyPatch` | api/src/utils/helper.py:48-49 | when every patched field is a declared attribute, the `setattr` loop yields exactly the merged record; otherwise it raises the `ValueError` "\"<Type>\" object has no field \"<f>\"" for an undeclared patched field |
| `Helper.Table.FirstTaken` | api/src/utils/helper.py:17-23 | the reported column is a unique column whose value another row holds; when none is reported, no unique column clashes |
| `Helper.Table.Clash` | api/src/utils/helper.py:17-23 | a commit clashes exactly when a new object reuses a stored key or a unique column clashes; a reused key is reported as the primary-key column |
| `Helper.Table.CreateOutcome` | api/src/utils/helper.py:14-29 | success exactly when nothing clashes and the commit succeeds, returning the object; any detected clash (a reused key or a taken unique value) gives 409 with the store's conflict message for that column, whatever the commit reports; integrity, validation and other failures give 409, 422 and 500 with their messages |
| `Helper.Table.Read` | api/src/utils/helper.py:32-42 | success exactly when the lookup works and the key is stored, returning the stored record; a lookup failure gives 500 "Database read error: …"; a missing key gives 404 "<Type> with id <id> not found", or an assertion failure when `raise_empty` is false, never an absent value |
| `Helper.Table.Create` | api/src/utils/helper.py:14-29 | returns the classified outcome; on success the object is stored under its key and reads back unchanged; on failure the table is unchanged; the uniqueness invariant `Valid` is kept |
| `Helper.Table.Update` | api/src/utils/helper.py:45-51 | a failed read propagates unchanged and changes nothing; a set field the entity class does not declare gives that field's `ValueError` and changes nothing; otherwise the merged record is committed through `create`, so exactly the set fields change, or nothing does on failure; `Valid` is kept |
| `Helper.Table.EmptyPatchUpdateSucceeds` | api/src/utils/helper.py:45-51 | under the uniqueness invariant, an update that sets no field commits the stored row unchanged |
| `Helper.Table.Delete` | api/src/utils/helper.py:54-64 | a failed read propagates unchanged; a committed delete returns true and removes the key, so a later read gives 404; a failed commit gives 500 with `str(e)` and changes nothing; `Valid` is kept |
| `Helper.Filtered` | api/src/utils/helper.py:105-106 | a row is in the result exactly when it is in the scan and its field equals the value; never longer than the scan |
| `Helper.FilteredAppend` | api/src/utils/helper.py:105-106 | the filter keeps scan order: extending the scan by a row extends the result by that row exactly when it matches |
| `Helper.FilteredHeadIsEarliest` | api/src/utils/helper.py:105-106 | the first filtered row is the earliest matching row of the scan, and no earlier row matches |
| `Helper.Window` | api/src/utils/helper.py:109-111 | the result is positions [offset, offset+limit) of the rows, cut at the end: at most `limit` rows, and none when offset is past the end |
| `Helper.Greatest` | api/src/utils/helper.py:116-118 | none exactly for no rows; otherwise a row of the input whose ordering key is at least every other row's |
| `Helper.BoundsViolations` | api/src/utils/helper.py:86-94 | no violation exactly when limit and offset are both non-negative |
| `Helper.DbFilter` | api/src/utils/helper.py:76-121 | negative limit and/or offset raise with the messages joined by " \| ", limit first; then limit > 100 raises; then limit 0 returns [] before the pairing check; exactly one of value and field given raises; every failure is a ValueError and every success had 0 ≤ limit ≤ 100 and offset ≥ 0 |
| `Helper.FilterAllIsWindow` | api/src/utils/helper.py:101-111 | mode ALL returns positions [offset, offset+limit) of the candidates: at most `limit` rows of the scan, each matching the filter when one is given, and none when the offset is past the end |
| `Helper.FilterFirstIsFirstMatch` | api/src/utils/helper.py:113-114 | mode FIRST returns the earliest row of the scan the query asks for, with no earlier row asked for; none exactly when no row of the scan is asked for |
| `Helper.FilterLastIsGreatest` | api/src/utils/helper.py:116-118 | mode LAST returns a row of the scan the query asks for whose ordering key is at least that of every row asked for; none exactly when no row of the scan is asked for |
| `Helper.Table.FilterReturnsStoredRows` | api/src/utils/helper.py:101-118 | over a scan of the table, every row `db_filter` returns in any mode is a stored row with its stored columns |
| `Helper.LimitBoundary` | api/src/utils/helper.py:96-99 | limit 101 is refused and limit 100 is not refused for being too large |
| `Errors.MakeErrorResponse` | api/src/utils/errors.py:14-26 | HTTP status is the `status` argument (default 500); result is "error"; one description per dict, in order, each missing key filled with the status, "Error" or "An error occurred"; context none |
| `Errors.ValidationDetailExtends` | api/src/utils/errors.py:36-47 | the audit detail accumulates in report order: the detail for the first k errors is a prefix of the whole |
| `Errors.Translate` | api/src/utils/errors.py:29-89 | validation errors give 422 "Validation Error" with one entry per error whose detail is "loc.parts: msg"; FastAPI's HTTPException keeps its status and detail with title "Error"; a ValueError gives 404 "Error" with its message; anything else gives 500 "Internal Server Error" with `str(exc)` to the client and the fixed text only in the audit message; only that branch fills the path/method/error_class details |
| `Errors.ErrorHandler` | api/src/utils/errors.py:29-102 | returns the classified response whatever the audit write does; for status ≥ 400 with a successful audit commit, exactly one API_CALL_FAIL row with code = status and message "<title>: <detail>" is appended; otherwise the audit table is unchanged |
| `Errors.RouterNotFoundIsServerError` | api/src/utils/errors.py:78-89 | Starlette's router `HTTPException` is not FastAPI's class: it gives 500 "Internal Server Error" with client detail "404: Not Found" and is audited with error class "HTTPException" |
| `Errors.ReadWithoutRaiseEmptyIsServerError` | api/src/utils/helper.py:37-42 | reading a missing key with `raise_empty` false fails, and the handler turns it into a 500 with an empty detail |

## Left out

- The ORM session machinery, the SQLite engine, `init_db` and `get_session` are I/O. A table is a map of rows, and what a commit reports is a parameter.
- Relationship attributes and cascade rules are not modelled. Entity columns are a generic record, not the per-entity classes.
- The route handlers, the auth utilities, the configuration loader, the application wiring and the divergent user routes are not part of this model.
- `error_handler` is `async`, but it has no concurrency, so it is an ordinary method. The concurrency between requests is not modelled.
- Helper.DbFilter: the `case _` branch ("Invalid filter mode", api/src/utils/helper.py:120-121) cannot be reached, because the mode parameter is typed as `FilterMode`.
- Helper.DbFilter: the `indexer` column is abstracted as an integer ordering key. SQL's ordering of `NULL` and of non-integer columns is not modelled.
- Helper.DbFilter: a given `field_comp` column is taken as truthy.
- Helper.Table.Update: the patch is applied to non-key columns only. A patch that changes the primary key is not modelled.
- Helper.Table.Clash: the store's conflict message is assumed to have SQLite's form "UNIQUE constraint failed: <table>.<column>". Other store constraints are covered by the commit outcome parameter.
- Helper.Table.Create: a failure of `session.refresh` after a successful commit (api/src/utils/helper.py:18) is not modelled. The source then answers 500 although the row is already committed.
- Common.ActivityStore.Log: a failure of `session.refresh` after a successful audit commit (api/src/utils/common.py:30) is not modelled. The source then prints the diagnostic although the row is already committed.
- Helper.Table.Update: which undeclared field the `ValueError` names depends on the order of the payload's fields, which is not modelled; the contract says it names one of them.
- Helper.Table.Update: the fields set before the `setattr` that raises stay changed on the session's object until the session ends. Nothing is committed in that request, and that leftover state is not modelled.
- Helper.Merge: a patch field the record lacks is added to it. `update` reaches `Merge` only for declared attributes; a declared attribute not yet in the record is a column the model had not filled.
- Helper.DbFilter: a filter on the primary-key column is not modelled. Matching is on the non-key columns of a scan row; the call sites filter on foreign-key columns.
- Errors.Translate: `str(log_details)` is rendered without Python's string escaping. An HTTPException detail is taken to be a string. The JSON round trip of the envelope is taken as the identity, with UUIDs as strings.
- Response: the per-entity response shapes (`UserSummary`, `ProjectAttribute`, `ProjectResponse`, `TaskResponse`, `MaterialResponse`, `UserResponse`) are not part of this model.
