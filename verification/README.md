# ekrp achievements core in Dafny

This project models the achievement core of ekrp, a student-achievement back end. An achievement lives in two stores that share no transaction:

- a **reference row** in the relational table `achievement_references`, holding the student, the workflow status and its timestamps, and the link to a document;
- a **document** in the `achievements` collection, holding free-form content and attachment metadata, keyed by an ObjectID.

The coordinator (`Service.AchievementService`) handles these requests:

- it creates the two records together, and deletes the document again when the reference insert fails;
- it runs the status workflow (submit, verify, reject), which overwrites the workflow columns whatever the current status;
- it appends best-effort rows to the `achievement_reference_history` ledger;
- it merges a reference with its document for reading;
- it appends upload metadata to a document's `files`.

Bearer-token middleware stores the validated principal in the request locals. A permission gate checks membership in the token's permission list. The token helpers build the claims from two environment values: the secret, and the lifetime in minutes.

Layout, one module per file:

| file | module | models |
|---|---|---|
| wrappers.dfy | Wrappers | `Option`, `Result` |
| models.dfy | Models | records, status constants, time units, store errors |
| ordering.dfy | Ordering | the "newest first" order and order-preserving insertion |
| achievement_repository.dfy | ReferenceStore | the reference table as a class over `map<id, row>` |
| mongo_achievement_repository.dfy | DocumentStore | the document collection as a class over `map<hex, doc>` |
| achievement_history.dfy | HistoryLedger | the ledger as a class over `seq<entry>`, plus the history utility |
| achievement_service.dfy | Service | the coordinator's handlers as methods over the three stores |
| workflow.dfy | Workflow | lemmas about sequences of handler effects |
| jwt.dfy | Jwt | secret, expiry parsing, claim construction |
| request_context.dfy | RequestContext | the request's Authorization header and locals |
| auth_middleware.dfy | AuthMiddleware | `middleware/auth.go` |
| mideleware_auth.dfy | MidelewareAuth | `mideleware/auth.go` (the second copy) |
| permission_middleware.dfy | PermissionMiddleware | `middleware/permission_middleware.go` |

Conventions used throughout:

- Every store call takes a `fault: Option<string>`. `None` means the call succeeds; `Some(m)` means it fails with message `m` and changes nothing.
- Ids that a store generates are parameters. For reference rows (`gen_random_uuid()`) and documents (the new ObjectID), freshness is a precondition. Ledger row ids are unconstrained, because the ledger is a sequence that nothing looks up by id.
- The current time is a parameter `now`, in nanoseconds.
- Request locals that are not strings are modelled as absent (`None`).

## Model

| member | source | states |
|---|---|---|
| ReferenceStore.AchievementRepository.Create | app/repository/achievement_repository.go:18-28 | On success exactly one row is added under the fresh id, with the given student, link, status, note and timestamps. `submitted_at`, `verified_at` and `verified_by` are always NULL. On failure nothing changes and the error is returned. |
| ReferenceStore.AchievementRepository.FindByID | app/repository/achievement_repository.go:30-61 | Succeeds iff the statement succeeds and a row has the id. It then returns that row unchanged: NULL columns stay absent, present ones are kept. A missing row is `NoRows`. |
| ReferenceStore.AchievementRepository.Query | app/repository/achievement_repository.go:63-139 | The result lists exactly the selected rows, each once (a multiset equal to the selection), ordered by `created_at`, newest first. |
| ReferenceStore.AchievementRepository.ListAll | app/repository/achievement_repository.go:63-100 | Fails iff the query fails. Otherwise it returns every row, each once, newest first. A failure part-way through the rows is not modelled (see Left out). |
| ReferenceStore.AchievementRepository.ListByStudent | app/repository/achievement_repository.go:102-139 | Fails iff the query fails. Otherwise it returns exactly the rows whose `student_id` equals the argument, each once, newest first. A failure part-way through the rows is not modelled (see Left out). |
| ReferenceStore.AchievementRepository.UpdateStatus | app/repository/achievement_repository.go:141-145 | Overwrites status, `submitted_at`, `verified_at`, `verified_by` and `rejection_note` with the arguments (absent means NULL) and sets `updated_at`. All other columns and rows are untouched. An unknown id changes nothing and is not an error. |
| ReferenceStore.AchievementRepository.UpdateMongoID | app/repository/achievement_repository.go:147-151 | Changes only the link and `updated_at` of the matching row. An unknown id changes nothing and is not an error. |
| ReferenceStore.AchievementRepository.Delete | app/repository/achievement_repository.go:153-156 | Removes only the row with that id. An unknown id is not an error. |
| ReferenceStore.SelectedStep | app/repository/achievement_repository.go:70-97 | Scanning one more row adds it to the selection iff it matches the filter, and it was not selected before. This is the step the listing loop's multiset invariant needs. |
| ReferenceStore.ScanStep | app/repository/achievement_repository.go:70-97 | Scanning one more row keeps the listing ordered newest first, and its multiset equal to the selection of the scanned rows. |
| ReferenceStore.ListingMembers | app/repository/achievement_repository.go:102-139 | A row is in a listing iff it is a stored row that matches the filter, and no row is listed twice. |
| Ordering.InsertNewestFirst | app/repository/achievement_repository.go:64 | Insertion adds exactly the new element to the multiset of the list. |
| Ordering.InsertKeepsNewestFirst | app/repository/achievement_repository.go:64 | Inserting into a list ordered newest first keeps it ordered newest first. |
| DocumentStore.ObjectIdKey | app/repository/mongo_achievement_repository.go:34 | Decoding a hex id maps each hex digit to its lower-case form, keeping the length. |
| DocumentStore.ObjectIdKeyCanonical | app/repository/mongo_achievement_repository.go:29-30 | A decoded id is canonical hex, and the hex that Insert returns decodes to itself. |
| DocumentStore.Apply | app/service/achievement_service.go:331-332 | `$push` onto `files` appends exactly one record at the end. Earlier records and every other field are unchanged. |
| DocumentStore.MongoAchievementRepository.Insert | app/repository/mongo_achievement_repository.go:19-31 | On success exactly one document is added under the fresh id, with `created_at` overwritten by the current time, and that id is returned. On failure nothing changes. |
| DocumentStore.MongoAchievementRepository.FindByIDHex | app/repository/mongo_achievement_repository.go:33-46 | A malformed id fails before the collection is read. Otherwise the call succeeds iff it does not fail and a document has the id, and it returns that document, whose id is the decoded id. A missing document is `NoDocuments`. |
| DocumentStore.MongoAchievementRepository.UpdateByHex | app/repository/mongo_achievement_repository.go:48-60 | A malformed id fails and changes nothing. Otherwise only the document with that id changes, by the update. Matching no document is not an error. |
| DocumentStore.MongoAchievementRepository.DeleteByHex | app/repository/mongo_achievement_repository.go:62-72 | A malformed id fails and changes nothing. Otherwise only the document with that id is removed. |
| HistoryLedger.ForAchievement | app/service/achievement_service.go:269-271 | An entry is selected iff it is in the ledger and belongs to the achievement. |
| HistoryLedger.Ledger.Insert | app/service/achievement_service.go:342-349 | A successful insert appends exactly the one entry. A failed one changes nothing and returns the error. |
| HistoryLedger.Ledger.ByAchievement | app/service/achievement_service.go:269-292 | The query returns exactly the achievement's entries (as a multiset), ordered by `changed_at`, newest first. A failure is returned as such. |
| HistoryLedger.NormalizeChangedBy | utils/achievement_history.go:13-16 | `changed_by` is present iff the actor is a non-empty string, and then equals it. |
| HistoryLedger.WrapHistoryError | utils/achievement_history.go:21-24 | The error is the prefix "history insert: " followed by the cause, unchanged. |
| HistoryLedger.InsertAchievementHistory | utils/achievement_history.go:12-26 | On success exactly one entry is appended, with the given id, old and new status, the normalised actor, a NULL note and the current time. On failure nothing is appended and the wrapped error is returned. |
| Service.ListScope | app/service/achievement_service.go:27-54 | The request is refused iff the role is not exactly "Admin" and no `student_id` is given. Admin without a filter lists everything. Every other case filters by exactly the given `student_id`. |
| Service.AchievementService.List | app/service/achievement_service.go:26-55 | 400 "student_id required", 500 with the store error, or 200 with the listing of the chosen scope. For a non-admin, every listed reference belongs to the requested student. |
| Service.Merge | app/service/achievement_service.go:68-96 | The response carries the reference's fields unchanged. It has a document iff one was read, and then shows that document's fields. |
| Service.LinkedDocument | app/service/achievement_service.go:82-84 | A document is attached iff the link is non-empty and well-formed, the fetch succeeds, and the document exists. The attached document is then the one stored under the decoded link. |
| Service.AchievementService.FetchLinked | app/service/achievement_service.go:122-135 | The fetch yields exactly `LinkedDocument`. A failed fetch is not an error. |
| Service.AchievementService.BuildResponses | app/service/achievement_service.go:65-101 | One response per reference, in input order. Each is the merge of the reference with its linked document when that can be read. |
| Service.AchievementService.GetByID | app/service/achievement_service.go:104-137 | 404 "not found" iff the lookup fails. Otherwise 200 with the merged response. |
| Service.AchievementService.Create | app/service/achievement_service.go:141-175 | Body and `student_id` errors are 400 and change nothing. A failed document insert is 500 and writes no reference. A failed reference insert is 500 and deletes the new document (unless that delete fails). On success there is one new document with the student and `extra` = doc, and one new draft reference linking it, so the link resolves to a document of the same student. |
| Service.AchievementService.Update | app/service/achievement_service.go:178-200 | A bad body is 400, an unknown id is 404, and neither changes anything. Only a non-empty new link changes a row, and only its link and `updated_at`; the document's existence is not checked. |
| Service.AchievementService.Delete | app/service/achievement_service.go:203-218 | An unknown id is 404 and changes nothing. Otherwise the linked document is deleted first, with errors ignored, and then the reference; a failure there is 500. |
| Service.SubmitEffect | app/service/achievement_service.go:224 | Status becomes "submitted" with `submitted_at` = now. The verify and reject columns are cleared. Identity columns are kept. |
| Service.VerifyEffect | app/service/achievement_service.go:240 | Status becomes "verified" with the verifier and the time. `submitted_at` and the note are cleared. |
| Service.RejectEffect | app/service/achievement_service.go:258 | Status becomes "rejected" with the rejecter as `verified_by` and the note exactly as given. `submitted_at` and `verified_at` are cleared. |
| Service.AchievementService.Submit | app/service/achievement_service.go:221-230 | A failed update is 500, with no change and no ledger entry. Otherwise, whatever the current status, the row gets the submit effect and the result is 200. A "draft"→"submitted" ledger entry with the raw actor is attempted only after a successful update, and its failure never changes the result. |
| Service.AchievementService.Verify | app/service/achievement_service.go:233-245 | An absent or empty `user_id` is 403 with no change and no ledger entry. A failed update is 500, with no change and no ledger entry. Otherwise the result is 200, the row gets the verify effect, and a "submitted"→"verified" entry is attempted, whose failure never changes the result. |
| Service.AchievementService.Reject | app/service/achievement_service.go:248-263 | A bad body is 400, and an absent or empty `user_id` is 403, each with no change. A failed update is 500, with no change and no ledger entry. Otherwise the result is 200, the row gets the reject effect, and a "submitted"→"rejected" entry is attempted, whose failure never changes the result. |
| Service.AchievementService.History | app/service/achievement_service.go:266-294 | The ledger rows of the reference, newest first. If the ledger query fails, the current reference alone, or 500 when that lookup fails too. A failure part-way through the rows is not modelled (see Left out). |
| Service.AchievementService.UploadAttachment | app/service/achievement_service.go:298-337 | An unknown reference is 404, no link is 400 and no file is 400, each with no change. A file that cannot be opened, a malformed link or a failed update is 500 with no change. Otherwise the result is 200: when the linked document exists, exactly one {name, size, type, time} record is appended to the end of its `files`; a link to no document changes nothing. |
| Service.AchievementService.InsertHistoryIfTableExists | app/service/achievement_service.go:340-350 | Appends one entry with the actor as given and a NULL note, or nothing on failure, and returns the error. |
| Workflow.TransitionIgnoresCurrentState | app/service/achievement_service.go:221-263 | The result of each transition does not depend on the current status or the workflow columns. |
| Workflow.CreateSubmitVerify | app/service/achievement_service.go:221-245 | Draft, then submit, then verify: verified by the actor, and `submitted_at` is cleared. |
| Workflow.CreateReject | app/service/achievement_service.go:248-263 | Draft, then reject: the note and the rejecter are stored, and nothing is verified. |
| Workflow.AppendForAchievement | app/service/achievement_service.go:340-344 | Appending a ledger row adds it at the end of its own achievement's rows only. |
| Workflow.HistoryAfterSubmitVerify | app/service/achievement_service.go:266-292 | For a reference with no earlier ledger rows, after a submit and then a verify that are both recorded, with the verify's time strictly later, the history is exactly [verify row, submit row]. |
| Workflow.TwoNewestFirst | app/service/achievement_service.go:271 | Two rows with distinct times, listed newest first, come in one order only. |
| Jwt.JwtSecret | utils/jwt.go:19-25 | An error iff JWT_SECRET is empty; otherwise the value itself. |
| Jwt.Atoi | utils/jwt.go:32 | After an optional sign, an empty rest is a syntax error. A run of leading digits whose value reaches 2^64 is a range error even if a non-digit follows, because digits are read left to right. Otherwise any non-digit is a syntax error. A well-formed string gives its signed value (leading zeros and a '+' allowed) when it fits in 64 bits, and a range error when it does not. |
| Jwt.DigitPrefix | utils/jwt.go:32 | The longest run of leading digits: everything before the first non-digit, and the whole string iff it is all digits. |
| Jwt.OverflowBeforeJunk | utils/jwt.go:32 | Any run of digits worth 2^64 or more, followed by a non-digit, is a range error, not a syntax error. |
| Jwt.AtoiOverflowBeforeJunk | utils/jwt.go:32 | Twenty nines followed by 'x' is a range error, not a syntax error. |
| Jwt.AtoiDecimal | utils/jwt.go:32 | Parsing inverts decimal printing for every 64-bit integer. |
| Jwt.DecimalValue | utils/jwt.go:32 | The digits printed for n have value n. |
| Jwt.WrapInt64 | utils/jwt.go:36 | The result is within 64 bits, congruent to the input modulo 2^64, and equal to it when it is already in range. |
| Jwt.JwtExpiry | utils/jwt.go:27-37 | Empty gives 24 hours. Otherwise it succeeds iff the value parses, and then it is that many minutes, wrapped to 64 bits. |
| Jwt.ExpiryOfMinutes | utils/jwt.go:32-36 | A decimal n with \|n\| ≤ 153722867 gives exactly n minutes. |
| Jwt.ExpiryWrapsBeyondMaxMinutes | utils/jwt.go:36 | One minute more is accepted and wraps to a negative lifetime, because there is no range check. |
| Jwt.NumericDate | utils/jwt.go:55-56 | The time truncated to whole seconds. |
| Jwt.TokenClaims | utils/jwt.go:50-59 | The claims carry the user, role and permissions unchanged and issuer "ekrp". `issued_at` is exactly now truncated to whole seconds, and `expires_at` is exactly now plus the lifetime truncated to whole seconds. |
| Jwt.GenerateTokenWithPermissions | utils/jwt.go:39-62 | The secret error is checked before the expiry error. It succeeds iff neither occurs, and then it signs those claims with the secret. |
| AuthMiddleware.FirstSpace | middleware/auth.go:15 | The index of the first space, and None iff there is no space. |
| AuthMiddleware.SplitN2 | middleware/auth.go:15 | Splitting at the first space into at most two parts. Two parts exactly when there is a space, joining back to the input. |
| AuthMiddleware.BearerToken | middleware/auth.go:10-18 | An empty header gives "missing authorization". Every other refusal is "invalid authorization". |
| AuthMiddleware.BearerTokenIsSuffix | middleware/auth.go:15-20 | A header is accepted iff it starts with "Bearer " (case-sensitive). The token is everything after it, further spaces included. |
| AuthMiddleware.Authenticate | middleware/auth.go:10-23 | Succeeds iff the header is accepted and the token validates, returning the validated claims. Otherwise the header error, or "invalid token". |
| AuthMiddleware.JWTAuth | middleware/auth.go:9-33 | On failure: 401 with the message, locals unchanged, Next not called. On success: `claims`, `user_id` and `role_id` are stored, then Next. |
| MidelewareAuth.JWTAuth | mideleware/auth.go:9-26 | The same checks and messages. On success only `user_id` and `role_id` are stored, with no `claims`, then Next. |
| PermissionMiddleware.HasPermission | middleware/permission_middleware.go:26-32 | True iff the permission is in the list. The scan stops at the first match and looks at no element after it. |
| PermissionMiddleware.RequirePermission | middleware/permission_middleware.go:9-40 | No claims gives 401 "Unauthorized". No permissions gives 403 "No permissions in token". Next is called iff the permission is listed; otherwise 403 "Forbidden: insufficient permissions". |
| PermissionMiddleware.OrderIrrelevant | middleware/permission_middleware.go:26-32 | Whether a permission is granted does not depend on the order of the list. |

## Left out

- HTTP and JSON rendering, the web framework's context, body parsing and multipart handling are abstracted. A handler returns a status and a body datatype. A body that does not parse is `None`. Opening the uploaded file is a boolean input, and reading and discarding its bytes is not modelled.
- Store I/O, connection set-up, per-call timeouts and concurrency between requests are not modelled. Each store call succeeds or fails according to an input, and requests run one at a time.
- The real clock is not modelled. The source reads the clock several times per request (for example once for the document and once for the reference in Create); the model uses one `now` per request.
- Token signing and `ValidateToken` are library cryptography. Signing is a function parameter `sign`, and validation is a function parameter from token to optional claims.
- ObjectID generation and `gen_random_uuid()` are not modelled; fresh ids are parameters. The text of a malformed-ObjectID error is the single value `InvalidObjectId`.
- Stored times are kept at nanosecond precision. The real stores round them: the relational store to microseconds and the document store to milliseconds. So `created_at`, `updated_at`, `submitted_at`, `verified_at`, `changed_at` and an attachment's upload time come back rounded down. Rows whose times differ only below that precision also tie under `ORDER BY`, which the model does not capture.
- JSON values in `extra` are modelled with integer numbers only; floating point is not modelled.
- Service.AchievementService.List: on success the source calls a placeholder that writes no body. The model returns the selected references as the 200 body.
- ListAll: the source never checks the row iterator's error after its loop, so a failure part-way through returns the rows read so far (the newest ones) as a success. The model's store fault is all or nothing, and a successful listing always holds every selected row.
- ListByStudent: the same unchecked iterator error applies. A failure part-way through returns the newest rows read so far as a success, which the model does not capture.
- History: the same unchecked iterator error applies, and each row's scan error is ignored too, so the row is still appended. The model returns either every ledger row of the reference or the fallback, never a cut-off or partly scanned list.
- Service.AchievementService.History: the model returns the ledger rows themselves. It does not model the rendering of each row as a map without `achievement_ref_id`, nor the `null` body for an empty result.
- PermissionMiddleware.RequirePermission: the source type-asserts the `claims` local to a generic map, and the claims struct stored by `middleware/auth.go` is not one, so that request would panic. The model takes "claims present" and the permission list as inputs instead.
- Go `time.Time.Add` saturation for times near the end of the representable range is not modelled; now plus the lifetime is plain integer addition.
- The model follows the code where it is more permissive than one might expect:
  - Verify clears `submitted_at`.
  - Create's 201 body carries only the document id.
  - Reject accepts an empty note.
  - Transitions are not guarded by the current status.
  - Submit, Verify and Reject on an unknown id return 200.
  - The compensating delete in Create may itself fail, which leaves an orphaned document.
  - An upload whose link names a missing document returns 200 and changes nothing.
  - The role is compared with the literal "Admin".
