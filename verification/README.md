# Task engine: verified model

A Dafny model of the task engine of a multi-tenant task-management service: creating tasks
under an idempotency key, editing them under optimistic locking with an audit log, listing
them page by page, and reporting errors through two layers.

`dafny verify dfyconfig.toml` checks everything.

## How it is built

* `AppErrors` holds error chains and wrapping, `Tasks` the entities and trimming,
  `Validations` the request checks, `Paging` the 64-bit page arithmetic.
* `TaskDb` and `IdempotencyStore` are the two stores: a value, functions on it, and a
  repository class whose methods run the statements and are proved against the functions.
* `Planning` holds the phases of the service operations (load, prepare, write; draft, insert)
  and the loaded task that `UpdateTask` mutates. `TaskService` is the service as imperative
  code, proved against these phases with nothing in between; `Solo` shows that such a solo
  execution, begun in a reachable state, is a run of the engine and ends in a reachable state,
  so that everything proved of those states holds after it.
* `Engine` is the whole system as one state machine. A run is any sequence of events, so any
  number of requests interleave in every way, and a state is reachable if some run ends in it.
  Every visit to the database or to Redis is one step. The environment may lose a Redis command
  or only its reply, fail a transaction at either statement or after its commit, expire locks
  and cache entries, crash a create request, and register users at any time.
* `Audit`, `Concurrency`, `Serializability`, `RealTime`, `CommitOrder`, `Winners` and
  `Isolation` prove what holds of the rows, the log and the answers of edits over every run;
  `OnceOnly`, `FaultEvents`, `Tightness`, `Replay` and `KeySharing` what holds of the create
  protocol; `Accountability` that the audit log is the history of commits; `DeleteRace` the
  runs in which a delete breaks a promise.
* `Effects`, `Answers`, `CreateAnswers` and `Gate` say in the requests' own terms what the
  operations write, what they answer in which case, and what is let through to them.

## What the proofs found

* "Only exactly one database record is created" (README of the service, lines 657-661) does
  not hold unconditionally. The number of records under a key is bounded by
  (1 + E)(1 + X) + F + M, where E counts lock expiries while a request is between acquire and
  release, X cache expiries, F commits whose response was not reported cached (a failed save, a
  crash before it, an unacknowledged commit) and M second lookups that failed although the
  response was cached. The bound is reached for every E, X, F and M, so one record is guaranteed
  exactly when all four are zero.
* A DELETE audit entry is written from a snapshot without a version check. Its from-values are
  right exactly when status and assignee have not changed since the read; a run in which they
  are wrong is given. The rows affected are not looked at either: a delete reports success
  whenever its transaction succeeds, although run alone it would find no task if the row is
  gone. In one run two deletes of one task both report success and both write an entry.
* Every answer to an edit that reports no fault is the one the operation gives when run alone
  at some moment between its submission and its answer, with exactly one exception: a 409 when
  the task was deleted at the version the request names and that is the version it had at the
  submission, or was created with later. A run with such a 409 is given.
* The cached response of a key is returned before the caller is looked at. Two callers sharing
  a key always see tasks of their own team if and only if they are of one team (or one user);
  the row itself stays in the team of the request that created it.
* The page offset is computed in 64-bit arithmetic without a bound on the page number. A
  page is served rightly exactly if its offset does not overflow or overflows to a place past
  the end of the list. At page 2^62 + 1 with limit 4 it wraps to zero and the first page is
  served again. The counted pages partition the list exactly if the count does not overflow.

## Assumptions

* A transaction is atomic; soft-deleted rows are invisible to reads, updates and deletes; a
  repeated primary key fails an insert. A non-positive OFFSET and a negative LIMIT are not
  emitted.
* Identifiers and keys are opaque, 0 being the nil UUID. A header is blank, malformed or parsed.
* Users are registered but never moved or removed. Team isolation assumes callers whose claimed
  team is that of the user table.
* LIKE is an arbitrary predicate, ORDER BY an arbitrary total order, and a listing sees one
  fixed store: count and slice are two queries in the service.
* Time is abstract: TTLs and the five-second wait are events that may happen at any moment.
* Foreign keys and the 32-bit width of the version column are not constraints of the model; a
  transaction they would reject is one of the failures the environment may choose. The runs
  given as witnesses are of honest callers, registered users in their own team, so by
  TeamsNeverMix every creator, assignee and actor in them is a registered user.

## Model

| member | source | states |
|---|---|---|
| AppErrors.OutermostWins | internal/pkg/apperror/apperror.go:76-79 | however many annotating or wrapping layers follow, the outermost AppError of a chain stays the outermost |
| AppErrors.FirstWrapDecides | internal/pkg/apperror/apperror.go:69-92 | a chain without an AppError gets the one its first wrapping layer makes from it (client templates expose the text, server templates keep their message), whatever layers come before and after |
| AppErrors.WrappingComposes | internal/controllers/controllers.go:36-54 | service wrapping followed by controller wrapping shows the same status, code and message as wrapping once: the outermost AppError, else 500 with the fixed safe message |
| AppErrors.IdentityKept | internal/pkg/apperror/apperror.go:38-49 | `errors.Is` still recognises the outermost AppError after any layers |
| AppErrors.ChainDecides | internal/pkg/apperror/apperror.go:30-49 | `errors.As` finds the first AppError of a chain; `errors.Is` holds iff some AppError of the chain has the target's status, code and message |
| AppErrors.AnnotatedText | internal/pkg/apperror/apperror.go:16-27 | the text of an annotated error is the annotations, outermost first, then the error's own text |
| AppErrors.ClientsAreShown | internal/constants/error.go:31-50 | status, code and message that clients see of the service's own errors, through any layers |
| AppErrors.PointersWrap | internal/pkg/apperror/apperror.go:69-106 | nil template and nil error; an AppError below takes precedence and keeps its message; around any other error a server template (500 and up) shows the message it was given, a client template the error's text |
| Concurrency.StaleSurfaces | internal/services/services.go:53-58 | a stale version raised inside the transaction, annotated and wrapped by two layers, reaches the client as 409 |
| Tasks.TrimIsProjection | internal/services/task_service.go:92-103 | trimming gives a trimmed text and fixes exactly the trimmed texts |
| Tasks.TrimStrips | internal/services/task_service.go:92-103 | every text is white space, its trimmed form, and white space |
| Validations.WorkflowCodesAreTrimmed | internal/validations/task_validation.go:13-19 | workflow codes survive trimming unchanged |
| Gate.CreateGateExactly | internal/controllers/task_controller.go:16-38 | a create request is let through iff its key is a non-nil UUID, its title passes, its status is empty or one of the five codes and its assignee is not nil; else 400, with which complaint first |
| Gate.EditGateExactly | internal/validations/task_validation.go:46-95 | which updates, assignments and deletes are let through, condition by condition; every other one is answered with 400 |
| Gate.QueryGateExactly | internal/validations/task_validation.go:98-134 | which list queries pass after normalisation, and that the other fields are kept |
| Validations.NormalisingTwice | internal/validations/task_validation.go:98-116 | normalising a list query is idempotent and lands in page >= 1, 1 <= limit <= 100 |
| Validations.ListTasksQuery.Validate | internal/validations/task_validation.go:98-134 | rewrites page, limit, title and status in place, also when it returns an error, and reports the first complaint in the order of the checks |
| Paging.NormalisationSettles | internal/validations/task_validation.go:99-109 | limit and page normalisation is idempotent, in range, the identity on values in range, and gives 10, 100 and 1 outside |
| Paging.OffsetExact | internal/services/task_service.go:209 | in signed 64-bit arithmetic the offset is the exact product if and only if the product fits, and differs from it by full turns otherwise; (page-1)*100 <= 2^63-1 suffices |
| Paging.SliceIsExact | internal/repositories/task_repository.go:182 | OFFSET and LIMIT element by element, also for a non-positive offset or a negative limit |
| Paging.TotalPagesIsCeiling | internal/services/task_service.go:234-237 | TotalPages is the exact ceiling if and only if total + limit - 1 fits in 64 bits, so for every total up to 2^63-100 |
| Paging.PageNonEmptyExactly | internal/services/task_service.go:208-237 | over all page numbers: a page is non-empty iff it is one of the TotalPages, exactly if the list is empty, the offset does not overflow, or it overflows past the end |
| Paging.PagesPartition | internal/repositories/task_repository.go:181-184 | pages 1..TotalPages concatenate to the whole list, each element once and in order, if and only if total + limit - 1 fits in 64 bits |
| Paging.OverflowingPageRepeatsTheFirst | internal/services/task_service.go:209 | the bound is needed: page 2^62+1 with limit 4 lies beyond TotalPages and serves page 1 |
| TaskDb.MatchingIsExact | internal/repositories/task_repository.go:139-165 | the filtered list holds each live row satisfying every filter exactly once and nothing else |
| TaskDb.MatchingInOrder | internal/repositories/task_repository.go:181-184 | the filtered list is in the order of the sorted table |
| TaskDb.OrderClauseExactly | internal/repositories/task_repository.go:167-179 | which order_by value sorts by which column, and the default |
| TaskDb.TaskRepository.CreateTaskWithLog | internal/repositories/task_repository.go:15-28 | row and entry are both written or, on failure, neither |
| TaskDb.TaskRepository.UpdateTaskWithLog | internal/repositories/task_repository.go:78-99 | compare-and-swap on id and version of a live row; stale when nothing matched; a failed statement rolls everything back |
| TaskDb.TaskRepository.AssignTaskWithLog | internal/repositories/task_repository.go:102-124 | the same, writing only assignee and version |
| TaskDb.TaskRepository.DeleteTaskWithLog | internal/repositories/task_repository.go:62-75 | soft delete whose entry is written whether or not a row was affected |
| TaskDb.TaskRepository.FindTasks | internal/repositories/task_repository.go:139-187 | the WHERE clauses added one by one select exactly the rows that pass all of them; count and slice are of that list; an error of either query is returned with nothing else |
| IdempotencyStore.IdempotencyRepository.AcquireIdempotencyLock | internal/repositories/idempotency_repository.go:19-21 | acquired only if the key was absent; a refusal changes nothing; the reply may be lost either way |
| IdempotencyStore.IdempotencyRepository.ReleaseIdempotencyLock | internal/repositories/idempotency_repository.go:24-26 | removes the lock key whoever holds it |
| IdempotencyStore.IdempotencyRepository.GetIdempotencyResponse | internal/repositories/idempotency_repository.go:30-40 | the cached response, a miss, or an error |
| IdempotencyStore.IdempotencyRepository.SaveIdempotencyResponse | internal/repositories/idempotency_repository.go:43-45 | overwrites the cache entry of the key |
| Planning.LoadedTask.ApplyUpdate | internal/services/task_service.go:286-354 | the in-place change tracking and its flags yield the plan of the request, which UpdateCommitsExactly spells out field by field |
| Planning.LoadedTask.ApplyAssignment | internal/services/task_service.go:393-410 | the in-place assignment and its entry yield the plan that AssignCommitsExactly spells out |
| Planning.PlansRecordTheirChange | internal/services/task_service.go:323-358 | every planned edit keeps id, creator and team, moves to the next version, and its entry chains from the old state and advances to the new one |
| Effects.CreateCommitsExactly | internal/services/task_service.go:91-129 | over every run, a create transaction takes effect iff the id is new and no statement failed; it writes exactly the trimmed texts, the status or "todo", the assignee, creator, team and version 1, one CREATE entry by the caller, and the response shows the same |
| Effects.UpdateCommitsExactly | internal/services/task_service.go:286-361 | over every run, an update transaction takes effect iff the row is alive at the named version and no statement failed; title, description, status and assignee become what was requested (a title or status that trims to nothing is skipped), with one entry by the caller saying exactly what changed; reply likewise |
| Effects.AssignCommitsExactly | internal/services/task_service.go:393-423 | over every run, an assign transaction takes effect iff the row is alive at the named version and no statement failed; it sets exactly the requested assignee and the next version, with an ASSIGN entry by the caller from the old to the new assignee |
| Effects.DeleteCommitsExactly | internal/services/task_service.go:180-199 | over every run, a delete transaction that does not fail marks the row deleted and adds a DELETE entry by the caller with the status and assignee read |
| Effects.CreateAloneWrites | internal/services/task_service.go:21-145 | an undisturbed create leaves exactly the requested row, its entry, its cached response and that reply, field by field |
| Effects.UpdateAloneWrites | internal/services/task_service.go:256-361 | UpdateTask run alone, under every fault: whatever it changes is the requested change of the live row |
| Effects.AssignAloneWrites | internal/services/task_service.go:365-424 | AssignTask likewise |
| Effects.DeleteAloneWrites | internal/services/task_service.go:166-199 | DeleteTask likewise |
| Accountability.AuditLogIsTheHistory | internal/repositories/task_repository.go:14-124 | in every reachable state the audit entries match the committed operations one to one, in order, each naming its task, kind and caller |
| Accountability.EntriesNameTheirRequest | internal/services/task_service.go:111-415 | every audit entry belongs to a request whose caller is its actor; a DELETE entry to a delete of that task |
| Answers.EditAnswersExactly | internal/services/task_service.go:166-424 | 401, 500, 404, 409, 400 and success are each answered exactly in their case, in that precedence, under every fault; a refusal changes nothing unless a commit's acknowledgement was lost |
| Answers.OtherTeamsTasksAreInvisible | internal/services/task_service.go:172-178 | another team's task gives the same answer as no task, and is not changed |
| Answers.DraftExactly | internal/services/task_service.go:74-111 | a create passes exactly if the caller is authenticated and the assignee is found in the team, else 401, 500 or 400 in its case; the draft is at version 1, in the caller's team, with trimmed non-empty status |
| CreateAnswers.CallsAnswerExactly | internal/services/task_service.go:28-66 | a create call run alone, up to holding the lock or waiting for it: which fault or cache content gives which answer, and when the lock key is left behind |
| CreateAnswers.HoldersAnswerExactly | internal/services/task_service.go:66-145 | a lock holder, under every fault: 401, 400, 500 and success exactly in their case, when the task exists, when its response is cached, and the lock released on every path |
| CreateAnswers.WaitersAnswerExactly | internal/services/task_service.go:45-63 | a waiting request answers at the first wake-up that decides; a tick that misses or fails does not |
| Answers.RepeatIsRefused | internal/services/task_service.go:256-273 | the same successful update or assignment sent again is refused as stale, the same delete finds no task, and neither changes anything |
| Answers.UpdatesSettle | internal/services/task_service.go:290-321 | of the field changes alone, apart from the version check that refuses a repeat: applying them twice changes content once; they never clear an assignee or empty title or status |
| Audit.Extend | internal/repositories/task_repository.go:91-96 | one row written with one entry that follows its trail keeps the whole database explained by its log |
| Concurrency.SwapHitsSnapshot | internal/repositories/task_repository.go:80-89 | a version match implies that the row is still the snapshot that was read |
| Concurrency.NoLostUpdate | internal/repositories/task_repository.go:78-124 | over every interleaving: if an update or assignment affects a row, that row equals the snapshot read in every field, the committed row is the planned one, and a success reply shows exactly the committed row |
| Concurrency.LosersLeaveNoTrace | internal/services/task_service.go:356-358 | over every interleaving: a failed transaction changes neither rows nor log; losing the version race shows as 409 |
| Concurrency.HistoryOnlyGrows | internal/models/task_model.go:16-28 | over every run and continuation: id, team and creator never change, versions never decrease, deleted rows never change, the log is append-only |
| Concurrency.AuditReplays | internal/services/task_service.go:286-354 | in every reachable state, folding a task's entries gives its current status and assignee, and version = 1 + number of edit entries |
| Concurrency.AuditChains | internal/services/task_service.go:347-354 | in every reachable state, each edit entry's from-values equal the state replayed from all earlier entries for the parts it changes, and are absent for the others |
| Concurrency.DeleteIsFinal | internal/repositories/task_repository.go:62-75 | soft-deleted iff a DELETE entry exists; after the first only DELETE entries follow |
| Concurrency.CommittedLabels | internal/services/task_service.go:328-354 | over every interleaving, the entry an UpdateTask commit appends is STATUS_UPDATE iff only the status differs from the predecessor row, ASSIGN iff only the assignee, UPDATE otherwise, with from/to fields present exactly for what changed and equal to the old and new values |
| Serializability.SwapIsAlone | internal/services/task_service.go:256-361 | when a prepared edit's transaction takes effect it does what the whole operation, started only then, would do, reply included |
| Serializability.RowsAreSerial | internal/repositories/task_repository.go:14-124 | every interleaved run has the rows and users, and the log up to DELETE entries, of running its committed operations one after another |
| Serializability.RepliesAreSerial | internal/services/task_service.go:360-423 | every success reply of an update or assignment is the reply at its place in the serial run |
| Serializability.DeleteEntryExact | internal/services/task_service.go:180-194 | a DELETE entry's from-values equal the replayed state iff status and assignee are still those read; so whenever no edit committed in between |
| Serializability.DeleteSerialExactly | internal/services/task_service.go:166-199 | a delete leaves the database it would leave alone, log included, iff the row is still alive with the status and assignee read |
| Serializability.DeleteReplyExact | internal/services/task_service.go:186-199 | a prepared delete reports success iff its transaction succeeds; the operation run alone would report success iff the task is still alive, and 404 otherwise |
| DeleteRace.ADeleteEntryCanBeWrong | internal/services/task_service.go:172-194 | a concrete run of registered users whose DELETE entry has a wrong from-status |
| DeleteRace.TwoDeletesSucceed | internal/repositories/task_repository.go:62-75 | a concrete run of registered users in which two deletes of one task both answer success and leave two DELETE entries |
| DeleteRace.ARefusalCanBeOutOfTime | internal/services/task_service.go:356-358 | a concrete run of registered users with a 409 that the operation run alone gives at no place between its submission and its answer |
| RealTime.AnswersAreTimely | internal/services/task_service.go:166-424 | over every interleaving, an answer to a valid edit that reports no fault, refusals included, is the one the operation gives alone at some place of the serial run between submission and answer, if and only if it is not a 409 for a task deleted at the named version, being also its version at submission (or at its later creation) |
| RealTime.StaleExactly | internal/services/task_service.go:356-358 | counted from the read instead: a 409 from the compare-and-swap is the serial answer at some place since the read iff the task is not deleted at the version read, and the serial answer right then iff it is alive |
| RealTime.CommitsInTime | internal/services/task_service.go:256-424 | a successful update or assignment has its place in the serial run between its submission and its answer |
| RealTime.RealTimeOrder | internal/services/task_service.go:256-424 | an update or assignment answered with success before another was submitted comes first in the serial run, each with its serial reply |
| CommitOrder.CommitsOnce | internal/services/task_service.go:21-424 | in every reachable state each create, update, assign or delete request has committed at most once |
| CommitOrder.SuccessesHaveCommitted | internal/services/task_service.go:166-424 | every update, assignment or delete that reports success has committed, exactly once |
| CommitOrder.CommitsKeepRealTime | internal/services/task_service.go:21-424 | of all commits, creates and deletes included: what a request committed that was settled before another was submitted comes first in the serial run |
| Winners.EachVersionWonOnce | internal/services/task_service.go:270-273 | in every reachable state the versions below a task's current one, and no others, were each claimed by exactly one committed request naming them |
| Winners.SingleWinner | internal/services/task_service.go:270-273 | two successful update or assign requests naming the same task and version are the same request |
| Isolation.TeamsNeverMix | internal/services/task_service.go:80-111 | for callers with their real team: creator, assignee, and every actor and assignee in the log belong to the task's team, in every reachable state |
| Isolation.StatusesAreWorkflowCodes | internal/validations/task_validation.go:22-81 | behind the validators every row status and every from/to status is a workflow code, in every reachable state |
| Isolation.StatusesStayCoded | internal/services/task_service.go:91-95 | trimming, the default on create and the skip of an empty status stay within the workflow codes |
| OnceOnly.RecordsPerKey | internal/services/task_service.go:38-145 | over every interleaving and fault pattern, records under a key <= (1 + lock expiries)(1 + cache expiries) + lost saves + masked second lookups |
| FaultEvents.RecordsPerKeyByEvents | internal/services/task_service.go:38-145 | the same bound read off the run's events: lock expiries and evictions of the key, lost commits and saves and crashes, failed second lookups |
| FaultEvents.SmoothRunsLeaveOneRecord | internal/services/task_service.go:38-145 | a run with none of these events leaves at most one record under the key |
| OnceOnly.DegradedMutualExclusion | internal/repositories/idempotency_repository.go:18-26 | requests between acquire and their own release <= lock expiries + (1 if the lock key is present) |
| OnceOnly.AtMostOneRecord | internal/services/task_service.go:38-145 | without these faults at most one record and at most one request inside |
| OnceOnly.WithinKept | internal/services/task_service.go:38-145 | every move of a key's counters keeps the bound |
| Tightness.BoundIsReached | internal/services/task_service.go:38-145 | for every key and every fault count some run of honest callers has exactly those faults and exactly as many records as the bound |
| Tightness.OneRecordExactlyWithoutFaults | internal/services/task_service.go:38-145 | all runs with given fault counts, or all those of honest callers, leave at most one record per key if and only if the counts are all zero |
| Replay.RowsBelongToOneKey | internal/services/task_service.go:97-129 | every row was committed under exactly one key, once; a key's commits are as many as its rows |
| Replay.RepliesAreRecords | internal/services/task_service.go:29-72 | every success reply is the version-1 response of a record committed under its key, whatever faults and edits occurred |
| Replay.RepliesAreStable | internal/services/task_service.go:29-72 | without faults all success replies for a key (holder, second-lookup hit, waiter) are equal and the key has exactly one record |
| Replay.RepliesArePermanent | internal/services/task_service.go:144 | a reply given is never changed by later events |
| KeySharing.RepliesHaveAnOrigin | internal/services/task_service.go:28-36 | every success reply shows a task made by an authenticated request under the same key, in that request's team |
| KeySharing.OneKeyTwoCallers | internal/services/task_service.go:28-36 | for every key and every two users, registered in the teams they claim, a run in which the second is shown the first one's task |
| KeySharing.RepliesStayInTeamExactly | internal/services/task_service.go:28-72 | over all runs of honest callers, however two of them use a key, every success reply is in its own caller's team iff they are of one team or one user |
| Solo.SoloCreateIsARun | internal/services/task_service.go:21-145 | one create request run alone is a run of the engine |
| Solo.SerialIsARun | internal/services/task_service.go:166-424 | one edit run alone is a run of the engine |
| Solo.CreateTaskReaches | internal/controllers/task_controller.go:16-42 | a whole create call begun in a reachable state ends in a reachable state, on every path and fault, and keeps the run honest if its caller is |
| Solo.EditReaches | internal/services/task_service.go:166-424 | so does a whole edit, doing exactly what the serial operation does behind the controllers' validation |
| Solo.FreshCreateSucceeds | internal/services/task_service.go:38-145 | an undisturbed call with a new key leaves one row, its CREATE entry, the cached response and a free lock |
| Solo.CreateThenDuplicate | internal/services/task_service.go:29-36 | any later call with the key, whatever its body, changes nothing and answers the same |
| TaskService.Service.CreateTask | internal/services/task_service.go:21-145 | the imperative method does exactly what its moves do in the engine with nothing in between, on every path and fault; CallsAnswerExactly, HoldersAnswerExactly and CreateAloneWrites spell that out |
| TaskService.Service.AwaitReply | internal/services/task_service.go:45-63 | the polling loop answers at the first decisive wake-up |
| TaskService.Service.UpdateTask | internal/services/task_service.go:256-361 | the imperative method is the serial operation that EditAnswersExactly and UpdateAloneWrites spell out |
| TaskService.Service.AssignTask | internal/services/task_service.go:365-424 | likewise, with AssignAloneWrites |
| TaskService.Service.DeleteTask | internal/services/task_service.go:166-199 | likewise, with DeleteAloneWrites |
| TaskService.Service.ListTasks | internal/services/task_service.go:202-253 | the requested page of the caller's team's matching tasks with its metadata, or the right refusal; PagesShowTheTeamsTasks, PageShows and ListIsSorted spell that out |
| TaskService.PagesShowTheTeamsTasks | internal/services/task_service.go:202-253 | for a validated query on a consistent store the pages together show exactly the caller's team's live tasks with the given creator, assignee, status and title pattern, each once, and exactly which page numbers are served rightly |
| TaskService.PageShows | internal/services/task_service.go:239-252 | count, limit, page and page count of a page, and its items one by one and field by field |
| TaskService.ListIsSorted | internal/repositories/task_repository.go:167-184 | the list is in the order of the column that order_by names |

## Left out

- GetTaskByID: a read with the same team check as the edits, adding preloaded relations.
- Notification after AssignTask: fire-and-forget, after the commit although the method's comment places it inside the transaction; it does not touch the stores.
- Timestamps, notes and metadata of tasks and entries, and preloaded relations in responses.
- The title rule of ValidateCreateTaskRequest: the verdict of the library's Required and Length rules is a parameter; a non-empty title is therefore not claimed as an invariant.
- Texts of library errors (database, Redis, validation): one fixed text each; which validation message comes first is not modelled.
- A typed nil AppError inside an error chain; nil receivers and nil arguments of Wrap are covered by PointersWrap only.
- HTTP, routing, middlewares, JWT, password hashing, JSON and UUID parsing, sessions, team and user listing, S3, configuration and migrations.
- TaskDb.TaskRepository.FindTasks: takes the sorted table as a parameter, because ORDER BY on one column leaves ties to the database.
- RealTime.AnswersAreTimely: says nothing of 500 answers; a failed user check or transaction reports its fault whatever the order of the operations.
- Engine: a crash of an edit request is not an event; it is a request that makes no further move.
