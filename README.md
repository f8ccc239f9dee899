# Support-bot backend: chat retention, scheduling and CRUD, in Dafny

This project models the core of the support-bot backend: an Express server over a
MongoDB store of chat sessions and messages.

- **Retention.** A cleanup engine previews what it would remove, then removes it in two phases.
  - Phase 1 bulk-deletes every message created before a cutoff.
  - Phase 2 deletes each session that was last updated before the cutoff and no longer owns any message.
- **Scheduling.** An Agenda job runs the cleanup. At start-up a daily job is seeded unless one already exists.
- **Control.** Five API-key-protected routes preview the cleanup, report the job's status, run it now,
  reschedule it and cancel it.
- **CRUD.** The session and message controllers. A session id is 32 hex characters drawn from
  16 random bytes, and a session is fetched or created by that id.
- **Small helpers.** A duplicate-message check, the decoder for n8n webhook replies, the response
  envelopes, the CORS origin list and the memoised database connection.

The two collections are one class, `Tables.Database`. Its fields `messages` and `sessions` are
sequences that the operations reassign. `Database.Valid()` states the table invariant:

- session `_id`s are unique;
- `sessionID`s are unique;
- every record satisfies its schema;
- message ids are fresh.

The job collection is the class `Scheduler.JobTable`. The connection slot of `mongoose.js` is the
class `Connection.ConnectionCache`.

Things outside the program are parameters:

- the clock (`now`) and the configured age;
- the random bytes;
- environment variables;
- the outcome of `mongoose.connect`;
- every store failure, as a `Fault` (`NoFault` or `Throws(message)`).

Each module lists what its operations take.

The cleanup run is an imperative method, `Cleanup.CleanupOldChats`, and its session loop is
`Cleanup.SweepIdleSessions`. Both are proved against a specification function:
`Retention.Purged` for the messages and `Retention.Swept` for the sessions. The lemmas about those
functions carry the policy:

- what is deleted and what survives;
- the counts reported;
- idempotence (`Cleanup.SecondRunDeletesNothing`);
- the preview's under-count, with a concrete case.

Three behaviours of the code that the model keeps as written:

- **A failing call in the session loop aborts the run.** `cleanupOldChats` has a single
  try/catch, so the first `Message.countDocuments` or `Session.deleteOne` inside the loop that
  throws abandons the whole run. The count runs for every idle session, so a throwing count aborts
  the run even at a session that still owns messages (`Cleanup.CountFailureAborts`). The sessions
  deleted before it stay deleted, the session where it stopped and every later one stay, and no
  counts are returned (`Cleanup.RunOutcome`, `Cleanup.StoppedSweepKeepsTheRest`).
- **`POST /schedule` does not check the expression.** Only a falsy `schedule` is refused with 400.
  Any other value is passed to `agenda.every` after `agenda.cancel` has already removed the
  existing job, so an add that fails leaves no cleanup job at all (`Control.HandleSchedule`).
- **Storing a message leaves its session untouched.** `createMessage` neither advances the
  session's `updatedAt` nor checks that the session exists (`Messages.CreateMessage`).

`backend/src/controllers/cleanupController.js` holds the same five handlers as
`backend/src/routes/cleanupRoutes.js`, line for line, without the API-key gate; it is not mounted
by any router. One set of `Control.Handle*` methods models both files. `Control.Dispatch` models
the router, which runs the gate first.

## Model

| member | source | states |
|---|---|---|
| Records.MessageViolations | backend/src/models/Message.js:3-21 | A missing `content`, `role` or `sessionId` and a role outside `user`/`assistant` are each reported; no violation iff all three are present and the role is in the enum |
| Records.NewMessage | backend/src/models/Message.js:3-24 | Creating a message succeeds iff it passes the schema; the record then carries the given fields and `createdAt` = now |
| Records.SessionViolations | backend/src/models/Session.js:3-13 | A missing `_id` and a missing `sessionID` are each reported; no violation iff both are present |
| Records.NewSession | backend/src/models/Session.js:3-16 | Creating a session succeeds iff both keys are non-empty; both timestamps are then the creation time |
| Records.UniqueKeysById | backend/src/models/Session.js:4-11 | With `_id` as primary key, a stored session is determined by its `_id` |
| Tables.CountOwned | backend/src/lib/cleanup.js:69 | `countDocuments({sessionId})` is 0 iff no message belongs to the session, and never more than the table size |
| Tables.FindById | backend/src/controllers/sessionController.js:28 | `findById` finds a session iff one has that `_id`, and the one found is stored and has it |
| Tables.InsertByCreatedAt | backend/src/controllers/sessionController.js:67 | Inserting into a list sorted by `createdAt` keeps it sorted and adds exactly that message |
| Tables.SortByCreatedAt | backend/src/controllers/sessionController.js:67 | `.sort({ createdAt: 1 })` gives an ascending permutation of its input |
| Tables.InSession | backend/src/controllers/messageController.js:36-38 | The selector `{ sessionId }` holds exactly for the messages of that session |
| Tables.SessionMessages | backend/src/controllers/sessionController.js:67 | `Message.find({sessionId}).sort({createdAt: 1})` lists exactly the session's messages, each as often as stored, in ascending `createdAt` |
| Retention.Cutoff | backend/src/lib/cleanup.js:54 | The cutoff lies exactly the configured age before now, so a positive age puts it in the past |
| Retention.Expired | backend/src/lib/cleanup.js:56-58 | The message selector holds exactly for messages created strictly before the cutoff |
| Retention.Idle | backend/src/lib/cleanup.js:60-62 | The session selector holds exactly for sessions last updated strictly before the cutoff |
| Retention.Unowned | backend/src/lib/cleanup.js:69-71 | The `messageCount === 0` test holds exactly when the session owns no message |
| Retention.Eligible | backend/src/lib/cleanup.js:60-74 | A session is deleted by the sweep exactly when it is idle and owns no message |
| Retention.NotIdIn | backend/src/lib/cleanup.js:72 | After `deleteOne({_id})` for each id of a set, a session remains exactly when its `_id` is not in the set |
| Retention.CutoffMonotone | backend/src/lib/cleanup.js:54 | For a fixed age, a later run has a strictly later cutoff |
| Retention.Purged | backend/src/lib/cleanup.js:56-58 | The bulk delete keeps exactly the messages created at or after the cutoff and adds none |
| Retention.SweepKeepsOwnedSessions | backend/src/lib/cleanup.js:68-74 | A session that still owns a message is never deleted, whatever its `updatedAt` |
| Retention.SweepKeepsRecentSessions | backend/src/lib/cleanup.js:60-62 | A session updated at or after the cutoff is never deleted |
| Retention.Swept | backend/src/lib/cleanup.js:60-75 | A session stays iff it was updated at or after the cutoff or still owns a message; none is added |
| Retention.SweptCount | backend/src/lib/cleanup.js:66-74 | The number of sessions removed equals the run's count of idle, unowned sessions, at most the idle ones |
| Retention.PurgedCount | backend/src/lib/cleanup.js:15-17 | The bulk delete removes as many messages as the preview counts |
| Retention.PurgeIdempotent | backend/src/lib/cleanup.js:56-58 | Purging twice with the same cutoff is purging once |
| Retention.SweepIdempotent | backend/src/lib/cleanup.js:60-75 | Sweeping twice with the same cutoff and messages is sweeping once |
| Retention.PreviewUndercountsSessions | backend/src/lib/cleanup.js:26-32 | The preview, which counts against the messages before the purge, never counts more sessions than the run deletes |
| Retention.PreviewCanUndercount | backend/src/lib/cleanup.js:26-32 | An idle session whose only message has expired is deleted by the run but not counted by the preview |
| Retention.Oldest | backend/src/lib/cleanup.js:23-24 | The oldest timestamp is absent iff the table is empty, and otherwise is stored and at most every other |
| Retention.DeletedById | backend/src/lib/cleanup.js:64-72 | Under unique `_id`s, deleting the sessions of a list by `_id` removes exactly the sessions of that list |
| Retention.DeleteOneMore | backend/src/lib/cleanup.js:72 | One more `deleteOne({_id})` after a set of them is deleting the enlarged set |
| Retention.FilterKeepsUniqueKeys | backend/src/models/Session.js:4-11 | Deleting sessions keeps both keys unique |
| Cleanup.PreviewCleanup | backend/src/lib/cleanup.js:11-46 | The preview counts the expired messages and the idle sessions owning no message now, reports both oldest timestamps, the cutoff and the age; a store error is rethrown; nothing changes |
| Cleanup.CountUnowned | backend/src/lib/cleanup.js:26-32 | The preview loop counts exactly the idle sessions whose message count is 0 |
| Cleanup.CleanupOldChats | backend/src/lib/cleanup.js:52-87 | A failing bulk delete changes nothing; otherwise the expired messages go, then each eligible session in table order; the run succeeds iff the bulk delete, the idle-session query, every idle session's count and every eligible session's delete succeed, and then returns both removal counts; the first count or delete that throws aborts it with that error, and exactly the eligible sessions before that session are gone; validity is preserved |
| Cleanup.PurgeKeepsValid | backend/src/lib/cleanup.js:56-58 | Deleting messages keeps the tables valid |
| Cleanup.SweepKeepsValid | backend/src/lib/cleanup.js:68-75 | The sweep keeps the tables valid |
| Cleanup.SweepIdleSessions | backend/src/lib/cleanup.js:64-75 | The session loop counts the messages of each idle session in table order and deletes and counts each one owning none; it stops at the first count or delete that throws, with that call's error, having deleted exactly the eligible sessions before that session; it deletes no other session |
| Cleanup.SweepStart | backend/src/lib/cleanup.js:64-66 | Before the loop nothing is deleted and the count is 0 |
| Cleanup.SweepDelete | backend/src/lib/cleanup.js:69-74 | A session with count 0 is deleted by `_id` and counted |
| Cleanup.SweepSkip | backend/src/lib/cleanup.js:69-71 | A session that owns a message is kept and not counted |
| Cleanup.SweepExit | backend/src/lib/cleanup.js:68-87 | Where the loop stops, by finishing or by a failing delete, the sweep's contract holds |
| Cleanup.RunSoFarStep | backend/src/lib/cleanup.js:68-75 | Part-way through, the sessions left are a subset of the old ones and include every ineligible one |
| Cleanup.SweepDone | backend/src/lib/cleanup.js:64-75 | Deleting by `_id` every idle session owning nothing is the sweep |
| Cleanup.StoppedSweepKeepsTheRest | backend/src/lib/cleanup.js:68-75 | A sweep stopped by a throwing call has removed the idle sessions owning nothing before that session, and kept it and every idle session after it |
| Cleanup.StoppedAtOnly | backend/src/lib/cleanup.js:68-75 | In a table of one idle session, a stopped sweep stopped at that session with its error and kept it |
| Cleanup.CountFailureAborts | backend/src/lib/cleanup.js:68-71 | A throwing count aborts the run with its error at an idle session whatever messages it owns, so also where no delete would be reached, and that session stays |
| Cleanup.SecondRunDeletesNothing | backend/src/lib/cleanup.js:52-82 | A second fault-free run with the same cutoff deletes nothing and reports zero for both counts |
| Cleanup.FaultFreeRun | backend/src/lib/cleanup.js:79-82 | A fault-free run deletes what the policy selects and reports the expired-message count and the idle-unowned-session count |
| Scheduler.HasName | backend/src/lib/agenda.js:34 | The selector `{ name }` holds exactly for the jobs of that name |
| Scheduler.Named | backend/src/lib/agenda.js:34 | `agenda.jobs({name})` lists exactly the stored jobs of that name |
| Scheduler.Cancelled | backend/src/routes/cleanupRoutes.js:90 | `agenda.cancel({name})` keeps exactly the jobs of other names |
| Scheduler.CancelLeavesNone | backend/src/routes/cleanupRoutes.js:112 | After a cancel no job of the name is left |
| Scheduler.CancelThenAdd | backend/src/routes/cleanupRoutes.js:89-93 | Cancelling and then adding one job leaves exactly that job under the name |
| Scheduler.CancelKeepsOthers | backend/src/routes/cleanupRoutes.js:90 | A cancel leaves the jobs of every other name as they were |
| Scheduler.Seeded | backend/src/lib/agenda.js:34-38 | Start-up adds the daily job exactly when no job of the name exists |
| Scheduler.SeedTwice | backend/src/lib/agenda.js:34-38 | Seeding a second time changes nothing: repeated start-ups create no duplicate |
| Scheduler.SeedLeavesOne | backend/src/lib/agenda.js:34-38 | From no cleanup job, seeding leaves exactly one |
| Scheduler.SeedKeepsExisting | backend/src/lib/agenda.js:34-38 | An existing cleanup job, with its interval, is left untouched |
| Scheduler.JobTable.Jobs | backend/src/lib/agenda.js:34 | The job query returns the named jobs, or the store's error; nothing changes |
| Scheduler.JobTable.Every | backend/src/lib/agenda.js:36 | `every` appends one recurring job with a fresh id, or throws and stores nothing |
| Scheduler.JobTable.Now | backend/src/routes/cleanupRoutes.js:61 | `now` appends one one-off job due now with a fresh id, or throws and stores nothing |
| Scheduler.JobTable.Cancel | backend/src/routes/cleanupRoutes.js:112 | `cancel` removes every job of the name and reports how many, or throws and removes none |
| Scheduler.StartAgenda | backend/src/lib/agenda.js:8-39 | A missing `DATABASE_URL` fails with its message before anything else; a failing job query changes nothing; otherwise the daily job is seeded iff none exists, and a seed failure is reported |
| Scheduler.CleanupJob | backend/src/lib/agenda.js:19-29 | The job handler runs the cleanup and passes its result or error through unchanged |
| Control.StatusOf | backend/src/routes/cleanupRoutes.js:36-46 | The intended status: scheduled iff there is a job, with the first job's stored run times, and all `null` otherwise |
| Control.StatusAsWritten | backend/src/routes/cleanupRoutes.js:36-46 | The status as written: scheduled iff there is a job; with one, all three run times are `undefined` and left out of the reply; without one, all `null` |
| Control.StatusAsWrittenLosesTimes | backend/src/routes/cleanupRoutes.js:43-45 | As written, the reply agrees with the intended status exactly when no cleanup job exists |
| Control.StatusAsWrittenDropsNextRun | backend/src/routes/cleanupRoutes.js:43 | A job with a stored next run: the intended status reports it, the route as written leaves it out |
| Control.HandlePreview | backend/src/routes/cleanupRoutes.js:12-31 | 200 with the preview, or 500 "Failed to get cleanup preview" with the error |
| Control.HandleStatus | backend/src/routes/cleanupRoutes.js:34-56 | 200 with a status that is scheduled iff a cleanup job exists, or 500 "Failed to get cleanup status" |
| Control.HandleRun | backend/src/routes/cleanupRoutes.js:59-75 | 202 with the id of one new one-off job, the other jobs kept; or 500 "Failed to schedule cleanup" with nothing stored |
| Control.HandleSchedule | backend/src/routes/cleanupRoutes.js:78-107 | A falsy schedule gives 400 and changes nothing; otherwise the cleanup jobs are cancelled, then one recurring job is added (200); a failing add leaves them cancelled (500) |
| Control.HandleCancel | backend/src/routes/cleanupRoutes.js:110-125 | 200 with every cleanup job removed, or 500 "Failed to cancel cleanup schedule" with none removed |
| Control.ScheduleLeavesOne | backend/src/routes/cleanupRoutes.js:89-93 | After a successful reschedule exactly one cleanup job exists, and the status reports it |
| Control.CancelThenStatus | backend/src/routes/cleanupRoutes.js:36-46 | After a cancel the status reports nothing scheduled and no run times |
| Control.Dispatch | backend/src/routes/cleanupRoutes.js:9-125 | Every route is gated: a rejected key gives 401 and touches no job; a request that passes gets exactly the reply and job table of its route's handler; the read routes never change the jobs |
| Auth.RequireApiKey | backend/src/middleware/auth.js:1-13 | The request passes iff the header is present, non-empty and equal to the configured key; otherwise the one 401 body |
| Auth.UnsetKeyRejectsAll | backend/src/middleware/auth.js:3-5 | With no configured key, every request is rejected |
| Auth.SameRejection | backend/src/middleware/auth.js:5-10 | A missing, an empty and a wrong header get the same rejection |
| MessageUtils.IsDuplicateMessage | backend/src/lib/messageUtils.js:1-29 | Missing arguments and a draft without content or role throw before any query; a failing query answers false; otherwise true iff a message with the same content, role and session exists with `createdAt` at or after now minus the window |
| MessageUtils.SameRecent | backend/src/lib/messageUtils.js:13-20 | The duplicate query matches exactly the messages with the same content, role and session created at or after the window's start |
| MessageUtils.JustStoredIsDuplicate | backend/src/lib/messageUtils.js:13-23 | A message just stored is found as a duplicate of itself |
| MessageUtils.WindowIsInclusive | backend/src/lib/messageUtils.js:17-19 | A message exactly one window old counts; one millisecond later it does not |
| MessageUtils.WiderWindowFindsMore | backend/src/lib/messageUtils.js:17-19 | Widening the window keeps every duplicate a duplicate |
| MessageUtils.Field | backend/src/lib/messageUtils.js:40-43 | A property read on a value that is not an object gives nothing |
| MessageUtils.FirstTruthy | backend/src/lib/messageUtils.js:40-44 | The `||` chain gives the first truthy field, or the default text when none is truthy |
| MessageUtils.FormatN8nResponse | backend/src/lib/messageUtils.js:31-58 | Falsy data gives the default text; a non-empty array is read through its first element, which throws when it is `null`; an object or an empty array through its fields; a truthy scalar is itself |
| MessageUtils.OnlyFirstElementCounts | backend/src/lib/messageUtils.js:38-44 | Only the first element of an array is read |
| MessageUtils.FieldPriority | backend/src/lib/messageUtils.js:47-51 | `output` wins over the other fields, `response` over `message` and `content` |
| MessageUtils.NoFieldGivesDefault | backend/src/lib/messageUtils.js:45-51 | With none of the four fields truthy the default text is returned |
| Responses.SuccessResponse | backend/src/lib/responseUtils.js:12-17 | The envelope has `success` true and carries the data, message and status it was given |
| Responses.ErrorField | backend/src/lib/responseUtils.js:30 | `error?.message` or else `error`: an error with a non-empty message gives the message, else the argument itself |
| Responses.ErrorResponse | backend/src/lib/responseUtils.js:26-31 | The envelope has `success` false, the message and status given, and the error field above |
| Responses.EnvelopeDefaults | backend/src/lib/responseUtils.js:12-26 | The defaults are 200 and 'Success' on success, 500 and `null` on error |
| Responses.Decimal | backend/src/lib/responseUtils.js:41 | The decimal form of a time is digits only and reads back to the time |
| Responses.ChatResponse | backend/src/lib/responseUtils.js:40-46 | The chat message carries its content, role, session and the second clock reading as `createdAt`, with id `chat_` and the first clock reading in decimal |
| Responses.ChatIdDecodes | backend/src/lib/responseUtils.js:41 | The time of the id can be read back from it |
| Responses.ChatIdsDiffer | backend/src/lib/responseUtils.js:41 | Chat messages built at different milliseconds get different ids |
| Responses.ChatDefaults | backend/src/lib/responseUtils.js:40 | The default role is 'assistant' and the default session `null` |
| Connection.ConnectStep | backend/src/lib/mongoose.js:11-33 | A cached connection is returned without connecting; a missing URI throws and caches nothing; otherwise one connect, cached on success, rethrown on failure |
| Connection.ConnectOnce | backend/src/lib/mongoose.js:13-16 | After one successful connect every later call returns that connection without connecting |
| Connection.FailureRetries | backend/src/lib/mongoose.js:29-32 | A failed connect leaves the slot empty, so the next call connects again |
| Connection.ConnectionCache.ConnectDB | backend/src/lib/mongoose.js:11-33 | The method's result, slot and connect count are those of the step above |
| Sessions.HexEncode | backend/src/controllers/sessionController.js:11 | Hex encoding writes two lower-case hex digits per byte |
| Sessions.HexRoundTrip | backend/src/controllers/sessionController.js:11 | Decoding the hex encoding gives the bytes back |
| Sessions.HexCanonical | backend/src/controllers/sessionController.js:11 | Every decodable string is the encoding of what it decodes to |
| Sessions.GenerateSessionId | backend/src/controllers/sessionController.js:10-12 | A session id is 32 lower-case hex digits and decodes to the 16 random bytes |
| Sessions.DistinctBytesDistinctIds | backend/src/controllers/sessionController.js:10-12 | Different random bytes give different ids |
| Sessions.InsertSessionKeepsValid | backend/src/models/Session.js:3-13 | A valid session with two new keys can be added without breaking the table invariant |
| Sessions.CreateSession | backend/src/controllers/sessionController.js:20-45 | A failing connect or lookup gives 500; an existing session with the id is returned (200) with nothing inserted; otherwise one session keyed twice by the id is inserted and returned (201), unless the insert fails or clashes on `sessionID` (500, nothing stored) |
| Sessions.CreatedIsFound | backend/src/controllers/sessionController.js:28-37 | Once created, a session is what a lookup of its id finds, so a second create returns it |
| Sessions.GetSessionById | backend/src/controllers/sessionController.js:53-80 | 404 "Session not found" when no session has the id; otherwise 200 with the session and exactly its messages in ascending `createdAt`; 500 "Failed to fetch session" on any failure |
| Sessions.Entries | backend/src/controllers/sessionController.js:95-103 | One entry per session, in table order, each with exactly its own messages, each as often as stored, sorted by `createdAt` |
| Sessions.EntriesPartition | backend/src/controllers/sessionController.js:95-103 | Under unique `_id`s no message is listed under two sessions, and every message of a listed session is listed under it |
| Sessions.GetAllSessions | backend/src/controllers/sessionController.js:88-110 | 200 with every session and its messages, or 500 "Failed to fetch sessions" when the connect, the session query or any message query fails |
| Messages.AppendMessageKeepsValid | backend/src/models/Message.js:3-24 | A valid message with the next id can be added without breaking the table invariant |
| Messages.CreateMessage | backend/src/controllers/messageController.js:8-27 | A falsy field gives 400 and stores nothing; a bad role or a failing insert gives 500 and stores nothing; otherwise exactly one message with those fields is stored and echoed (200), with no check that the session exists |
| Messages.GetSessionMessages | backend/src/controllers/messageController.js:34-45 | 200 with exactly the session's messages, each as often as stored, in ascending `createdAt`; or 500 "Failed to fetch messages" |
| Messages.CreatedIsListed | backend/src/controllers/messageController.js:16-22 | A stored message is listed under its session afterwards |
| Messages.OtherSessionsUnchanged | backend/src/controllers/messageController.js:36-40 | Storing a message leaves every other session's listing as it was |
| Messages.OwnListingGrowsByOne | backend/src/controllers/messageController.js:16-22 | Storing a message lengthens its session's listing by exactly one |
| Cors.WithScheme | backend/src/server.js:33-35 | A URL starting with `http` is kept; any other gets `http://` in front |
| Cors.WithSchemeIdempotent | backend/src/server.js:33-35 | Adding the scheme twice adds it once |
| Cors.DomainHasScheme | backend/src/server.js:26 | The frontend domain is kept as it is |
| Cors.GetAllowedOrigins | backend/src/server.js:21-49 | Outside production any origin is allowed. In production the list starts with the frontend domain, has 1 or 2 entries without duplicates, and holds exactly the domain and the configured URL; with no URL, or the domain itself configured, it is the domain alone |

## Findings

| source | as written | input that shows it | evidently intended | confidence | as-written member | corrected member |
|---|---|---|---|---|---|---|
| backend/src/routes/cleanupRoutes.js:43-45 | `GET /status` reads `job.nextRunAt`, `job.lastRunAt` and `job.lastFinishedAt` off the Agenda `Job` object. Its stored fields live under `job.attrs`, as the `/run` route of the same file reads `job.attrs._id` (line 65). So with a job the three times are `undefined` and `res.json` leaves them out. The copy in backend/src/controllers/cleanupController.js:40-42 does the same. | one cleanup job with a stored next run time `t` | `nextRun: t` and the job's stored last run times, read from `job.attrs` | not executed; medium, since it rests on Agenda's `Job` keeping its fields under `attrs` | Control.StatusAsWritten | Control.StatusOf |

## Left out

- Logging (`console.log`, `console.error`) and the HTTP and Express plumbing are not modelled: `res.status().json()` becomes a reply value and `req` becomes parameters.
- The server's start-up, listening, the Swagger set-up and the middleware other than the API-key gate are not modelled.
- Time is a parameter (`now`, in milliseconds). The `ms('30d')` parsing of `CHAT_CLEANUP_AGE` is not modelled; the age is a parameter.
- Randomness is a parameter: `crypto.randomBytes(16)` is supplied as the bytes it returned.
- Connecting is a parameter: `mongoose.connect` is supplied as its outcome.
- Every store failure is injected as a parameter rather than arising from the database.
- Cleanup.CleanupOldChats: a failing `deleteMany` is modelled as deleting nothing. MongoDB's `deleteMany` is not atomic and may have removed some expired messages before it throws; that partial outcome is not modelled.
- Cleanup.PreviewCleanup: the preview's five store reads share one fault, because any of them failing rethrows the same way.
- Control.HandlePreview: the reply keeps the age in milliseconds and the cutoff as a number. The `"N days"` floating-point text and the ISO date formatting of the routes are not modelled.
- Control.HandleSchedule: the cron expression is an opaque string and the next run time a parameter. Cron parsing and Agenda's computation of `nextRunAt` are not modelled.
- Scheduler.JobTable.Every: modelled as plain insertion. Agenda's `every` updates a job of the same name and type 'single' in place. At both call sites no job of the name exists beforehand (start-up checks first, `/schedule` cancels first), so insertion gives the same result.
- Scheduler.JobTable.Cancel: a failing `cancel` is modelled as removing no job. Agenda's `cancel` is a `deleteMany` underneath and may have removed some of the jobs before it fails; that partial outcome is not modelled.
- Scheduler.StartAgenda: the `await agenda.start()` that precedes the job query has no fault of its own. A throwing `start()` ends the call with its error before anything is stored, which is the outcome the model gives a failing job query.
- Control.StatusOf: `Control.HandleStatus` and `Control.Dispatch` report the intended run times read from the job's stored fields. The route as written loses them, which `Control.StatusAsWritten` models (see "## Findings").
- Agenda's polling loop, its locking and its updates of `lastRunAt` and `lastFinishedAt` after a run are not modelled. The concurrency between jobs and requests is not modelled either.
- Messages.CreateMessage: message `_id`s are a counter standing for MongoDB ObjectIds. The fields are strings; request bodies with non-string values, and the casts Mongoose applies to them, are not modelled.
- Records.NewMessage: `updatedAt` of messages is not kept, since nothing reads it; `createdAt` is.
- MessageUtils.FormatN8nResponse: JSON numbers are integers and `undefined` is `null`; floating-point values are not modelled.
- Tables.FindById: `findById` returns the first session with the `_id`; under the unique-`_id` invariant, which the primary key guarantees, it is the only one.
- backend/src/middleware/db.js, backend/src/config/env.js and the AI proxy routes are not part of this model.
