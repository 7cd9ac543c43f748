# Birthday notification service: a Dafny model

This project models the core of a birthday notification service. Users are stored with a
birthday and an IANA timezone. For every user the service keeps one
`birthday_notifications` row per upcoming birthday, scheduled at 09:00 in the user's zone.
A per-minute cron tick dispatches rows whose time has come. A second cron job, the
recovery tick, re-dispatches rows that are still `pending` over an hour after their time;
rows left `retrying` are never picked up again. The recovery job is described as hourly,
but with the default interval of 60 minutes its expression is `0 */1 * * * *`, which in the
six-field syntax (seconds first) fires every minute. Each row is handed to a webhook
sender that retries with linear back-off. A rate limiter and a circuit breaker sit beside
them as performance utilities.

The model has these modules:

- `Models` (`models.dfy`): the notification row, the user, and the notifications table as a map
  from id to row. It also states the `(userId, scheduledDate)` unique index and a `Database`
  object that holds both tables and an id counter.
- `Notifications` (`notifications.dfy`): `NotificationService`. It covers the birthday message
  and payload, the retry loop over a transport given as a function from attempt number to
  outcome, the recorded back-off waits, and the webhook self-test.
- `PerformanceUtils` (`performance_utils.dfy`): the sliding-window `RateLimiter` and the
  three-state `CircuitBreaker`. The breaker is a class whose state is tied to a pure
  transition function, and the lemmas are proved about that function.
- `Occurrences` (`occurrences.dfy`): the pure meaning of `processNotification`. This is one
  transactional step on the table: lock, compare-and-set claim to `retrying`, user lookup,
  send, verdict, and the catch handler. A tick is a sweep of such steps. The module also
  holds the dispatch and recovery selection predicates and the properties of sweeps:
  a row is claimed at most once, unnamed rows are untouched, retry counts never fall, and
  no selected row is left pending. `sent` is not final in one case: when reading a row under
  its lock throws, the catch handler marks the row `failed` whatever its status, a `sent` row
  included, although its message was delivered.
- `Scheduler` (`scheduler.dfy`): `BirthdaySchedulerService`. It covers start/stop of the two
  jobs, the two ticks (chunks of ten for dispatch, sequential for recovery),
  `processNotification` as a method on the database object, `chunkArray`, and `getStatus`.
- `Users` (`users.dfy`): `UserController.createUser`, `updateUser`, and
  `scheduleBirthdayNotifications`. That last one plans up to five future birthdays, skips
  dates already booked, and re-plans after a birthday or timezone change.

Timezone arithmetic is a `Calendar` value: the year of an instant, the projection of a date
onto a year, the 09:00 local instant, and zone validity. Clock readings, database
faults and webhook replies are parameters of the operations. Ids come from a counter in
place of random UUIDs.

## Model

| member | source | states |
|---|---|---|
| Models.ReplaceKeepsIndex | src/models/index.ts:186-188 | replacing a row by one with the same id, user and scheduled date keeps every key equal to its row's id and keeps `(userId, scheduledDate)` unique |
| Models.SameIdentityKeepsIndex | src/models/index.ts:186-188 | a rewrite that keeps every row's id, user and date and adds no row keeps the unique index |
| Models.CountStatus | src/services/BirthdaySchedulerService.ts:228-234 | the number of rows with a given status is at most the table size |
| Models.Database.constructor | src/models/index.ts:126-188 | a fresh database has no users and no notifications and satisfies its invariant |
| Notifications.NameRoundTrip | src/services/NotificationService.ts:16-20 | the message is "Hey, " + name + " it's your birthday", and the name can be read back from it |
| Notifications.BirthdayMessageInjective | src/services/NotificationService.ts:17 | different names give different messages |
| Notifications.JohnDoeMessage | src/tests/simple.test.ts:36-51 | the payload for John Doe carries exactly the message the test expects |
| Notifications.FirstSuccess | src/services/NotificationService.ts:22-37 | the attempt number returned is the first attempt at or after the start that succeeds, or one past the last if none does |
| Notifications.Backoff | src/services/NotificationService.ts:46-47 | the waits for n failed attempts are n in number, the k-th being k times the retry delay |
| Notifications.VerdictIffSomeSuccess | src/services/NotificationService.ts:22-51 | the sender reports success iff some attempt in 1..maxRetries gets a 2xx reply |
| Notifications.CallCountIsFirstSuccess | src/services/NotificationService.ts:22-51 | the transport is called at most maxRetries times, never after a success, and on success the last call is the successful one |
| Notifications.PersistentErrorTwoRetries | src/tests/simple.test.ts:54-67 | with two retries and a transport that always fails, the result is false after exactly two posts |
| Notifications.DefaultScheduleAgainstDeadWebhook | src/services/NotificationService.ts:9-52 | with the default budget of 3 and delay of 5000 ms, a webhook that never answers 2xx gets three posts, with waits of 5000 and 10000 ms, and the verdict is false |
| Notifications.NotificationService.constructor | src/services/NotificationService.ts:9-13 | the service keeps the webhook URL, the retry budget and the delay it is given |
| Notifications.NotificationService.SendBirthdayNotification | src/services/NotificationService.ts:15-52 | returns true iff an attempt in 1..maxRetries succeeds; posts the same birthday payload once per attempt up to the first success; waits k times the delay after each failed non-final attempt k |
| Notifications.NotificationService.TestWebhook | src/services/NotificationService.ts:54-75 | posts the fixed test payload once and returns true iff the reply is 2xx |
| PerformanceUtils.InWindow | src/utils/PerformanceUtils.ts:44 | keeps every occurrence of each timestamp newer than `now - windowMs` and nothing else, as a subsequence of the input, so its length is the in-window count |
| PerformanceUtils.RateLimiter.constructor | src/utils/PerformanceUtils.ts:31-34 | a new limiter has no recorded requests |
| PerformanceUtils.RateLimiter.IsAllowed | src/utils/PerformanceUtils.ts:39-55 | admits iff fewer than maxRequests in-window requests are recorded for the key; an admitted call stores the in-window list plus `now`; a refused call changes nothing |
| PerformanceUtils.RateLimiter.GetRemainingRequests | src/utils/PerformanceUtils.ts:60-66 | the remaining count lies between 0 and the maximum, is positive iff the next call would be admitted, and adds up with the in-window count to the maximum when positive |
| PerformanceUtils.RateLimiter.Reset | src/utils/PerformanceUtils.ts:71-73 | forgets exactly the given key |
| PerformanceUtils.RateLimiter.Clear | src/utils/PerformanceUtils.ts:78-80 | forgets every key |
| PerformanceUtils.ExecuteKeepsTripped | src/utils/PerformanceUtils.ts:97-128 | a breaker that is open or half-open only after reaching the failure threshold stays that way after any call |
| PerformanceUtils.OpenRefusesWithinTimeout | src/utils/PerformanceUtils.ts:98-104 | an open breaker refuses calls, and leaves its state unchanged, until the reset timeout has passed since the last failure |
| PerformanceUtils.HalfOpenFailureReopens | src/utils/PerformanceUtils.ts:97-128 | a failing trial call of a half-open breaker opens it again and records the failure time, because half-open keeps the failure count |
| PerformanceUtils.OpensAtThreshold | src/utils/PerformanceUtils.ts:121-128 | from a closed breaker, k consecutive failures count to k and open it exactly when k reaches the threshold |
| PerformanceUtils.OpenAfterThresholdRefuses | src/utils/PerformanceUtils.ts:97-128 | after threshold failures at one instant, the next call at that instant is refused without invoking the operation |
| PerformanceUtils.DefaultBreakerOpensOnFifthFailure | src/utils/PerformanceUtils.ts:88-128 | with the default threshold of 5, four failures in a row leave the breaker closed and the fifth opens it |
| PerformanceUtils.CircuitBreaker.constructor | src/utils/PerformanceUtils.ts:84-92 | a new breaker is closed with no failures and keeps its threshold and timeouts |
| PerformanceUtils.CircuitBreaker.Execute | src/utils/PerformanceUtils.ts:97-114 | the new state is the transition function applied to the old state; a refused call returns the open-circuit error; an invoked call returns the operation's value or error |
| PerformanceUtils.CircuitBreaker.OnSuccess | src/utils/PerformanceUtils.ts:116-119 | success resets the failure count and closes the breaker |
| PerformanceUtils.CircuitBreaker.OnFailure | src/utils/PerformanceUtils.ts:121-128 | failure increments the count, records the time, and opens the breaker at the threshold |
| PerformanceUtils.CircuitBreaker.GetState | src/utils/PerformanceUtils.ts:133-135 | returns "CLOSED", "OPEN" or "HALF_OPEN" exactly for the corresponding state |
| PerformanceUtils.CircuitBreaker.Reset | src/utils/PerformanceUtils.ts:140-144 | the breaker is closed with no failures and last failure time 0 |
| Occurrences.MarkFailedKeepsIndex | src/services/BirthdaySchedulerService.ts:204-210 | marking a row failed keeps the table's keys and the unique index |
| Occurrences.StepKeepsFrame | src/services/BirthdaySchedulerService.ts:146-212 | one processing step touches only the named row and adds or removes no row; a claim happens only on a pending row, leaves it non-pending and adds one retry; no claim leaves the retry count alone; delivery implies a claim; no row becomes pending |
| Occurrences.NonPendingUntouched | src/services/BirthdaySchedulerService.ts:156-164 | a row that is absent or not pending when locked is not claimed, not delivered and not changed, unless the lock itself throws |
| Occurrences.ClaimIsCompareAndSet | src/services/BirthdaySchedulerService.ts:156-172 | a step claims the row iff it is pending, the transaction opens, and neither the lock, the claim update nor its commit throws |
| Occurrences.VerdictApplied | src/services/BirthdaySchedulerService.ts:175-195 | for a pending row with its user present and no fault, the step claims and delivers; it adds one retry; on success the row is `sent` with sentAt set and the error kept; on failure it is `failed` with the send-failure message and sentAt kept |
| Occurrences.ExceptionMarksFailed | src/services/BirthdaySchedulerService.ts:198-211 | an exception at any stage the row reaches leaves it `failed` with the exception's message, or "Unknown error" for a non-Error |
| Occurrences.ProcessedRowLeavesPending | src/services/BirthdaySchedulerService.ts:146-211 | once its transaction opens, an existing row is never `pending` after its step |
| Occurrences.MissingUserLeavesRetrying | src/services/BirthdaySchedulerService.ts:175-179 | a claimed row whose user is gone stays `retrying` and nothing is sent |
| Occurrences.SentIsStableUnlessLockThrows | src/services/BirthdaySchedulerService.ts:156-211 | a `sent` row is left exactly as it is by any step unless reading it under its lock throws; then the catch handler overwrites it as `failed` with the error text, keeping its `sentAt` |
| Occurrences.FailedCommitEscapes | src/services/BirthdaySchedulerService.ts:172-211 | as written, a failed commit of the claim leaves the table unchanged and escapes the step; the intended handler marks the row `failed` with the error text |
| Occurrences.CommittedFailureStrandsRow | src/services/BirthdaySchedulerService.ts:172-211 | as written, an exception at the user lookup or verdict update after the committed claim leaves the row `retrying`, where neither loop selects it again, and escapes the step; the intended handler marks it `failed` with the error text |
| Occurrences.SecondCallIsNoOp | src/services/BirthdaySchedulerService.ts:161-172 | processing the same row twice claims it at most once, since the first claim moves it off `pending` |
| Occurrences.EffectKeepsRowBooked | src/services/BirthdaySchedulerService.ts:166-172 | a step that keeps its frame keeps each row's ledger: claimed at most once and only while pending, delivered no more often than claimed, retry count raised by exactly its claims |
| Occurrences.StepKeepsBookkeeping | src/services/BirthdaySchedulerService.ts:146-212 | one step preserves the ledger that ties each row's retry count to the number of times the sweep claimed it |
| Occurrences.SweepClaimsAtMostOnce | src/services/BirthdaySchedulerService.ts:97-140 | over any sequence of steps, even one naming a row twice, each row is claimed at most once and only if it was pending; it is delivered no more often than claimed; its retry count rises by exactly its claims; a row still pending is unchanged; absent rows are never claimed |
| Occurrences.SweepKeepsIndex | src/models/index.ts:186-188 | a tick keeps every row under its own id and the `(userId, scheduledDate)` index unique |
| Occurrences.StepKeepsOtherRow | src/services/BirthdaySchedulerService.ts:146-212 | a step on one row leaves every other row unchanged |
| Occurrences.SweepKeepsUnnamedRow | src/services/BirthdaySchedulerService.ts:97-140 | a row no selected notification names is unchanged by the tick |
| Occurrences.SweepRetryCountMonotone | src/services/BirthdaySchedulerService.ts:166-172 | no row's retry count decreases over a tick, and none rises by more than one |
| Occurrences.DispatchAndRecoveryDisjoint | src/services/BirthdaySchedulerService.ts:74-123 | a pending row is due for dispatch (within the last minute) and due for recovery (over an hour old) never at the same time |
| Occurrences.RecoverySelectsOnlyPendingUnderBudget | src/services/BirthdaySchedulerService.ts:111-124 | recovery never selects a row that is not pending or whose retry count has reached the budget |
| Occurrences.FiltersSelectPending | src/services/BirthdaySchedulerService.ts:74-133 | every row the dispatch filter or the recovery filter selects is pending |
| Occurrences.SweepDrainsSelection | src/services/BirthdaySchedulerService.ts:97-140 | when every transaction opens, every selected row is present and not pending after the tick |
| Occurrences.TickLeavesNothingDue | src/services/BirthdaySchedulerService.ts:72-144 | when every transaction opens and the query returned exactly the due rows, for a filter that selects only pending rows, no row of the table after the tick is due |
| Occurrences.StatusCountsPartition | src/services/BirthdaySchedulerService.ts:228-234 | pending, sent, failed and retrying counts add up to the table size |
| Occurrences.ClaimLowersPendingCount | src/services/BirthdaySchedulerService.ts:166-172 | a claim lowers the number of pending rows by one |
| Scheduler.FullName | src/services/BirthdaySchedulerService.ts:183 | the full name is the first name, then one space, then the last name, and its length is theirs plus one |
| Scheduler.ChunkArray | src/services/BirthdaySchedulerService.ts:214-220 | the chunks concatenate back to the input; each is non-empty and at most the chunk size; all but the last are full; there are ceil(n / size) of them |
| Scheduler.BirthdaySchedulerService.constructor | src/services/BirthdaySchedulerService.ts:14-17 | a new scheduler is stopped, with no jobs, and keeps its sender and configuration |
| Scheduler.BirthdaySchedulerService.Start | src/services/BirthdaySchedulerService.ts:19-48 | starting registers the dispatch job in the configured zone and the recovery job with the configured interval; starting twice changes nothing |
| Scheduler.BirthdaySchedulerService.Stop | src/services/BirthdaySchedulerService.ts:50-70 | stopping drops both jobs and marks the scheduler stopped |
| Scheduler.BirthdaySchedulerService.ProcessNotification | src/services/BirthdaySchedulerService.ts:146-212 | the notifications table becomes the step function's result; users and the id counter are untouched; the message handed to the sender is the user's full name, user id and scheduled date exactly when the step delivers |
| Scheduler.BirthdaySchedulerService.ClaimRow | src/services/BirthdaySchedulerService.ts:147-172 | the lock-and-claim transaction claims iff the step does; a claim rewrites only the named row, to `retrying` with one more retry; without a claim the table is the step's result |
| Scheduler.BirthdaySchedulerService.Complete | src/services/BirthdaySchedulerService.ts:174-211 | after a claim, user lookup, send, verdict and catch handler leave the table as the step function says |
| Scheduler.BirthdaySchedulerService.ProcessInChunks | src/services/BirthdaySchedulerService.ts:97-103 | processing the chunks one after another leaves the table as the sweep over the whole selection |
| Scheduler.BirthdaySchedulerService.ProcessChunk | src/services/BirthdaySchedulerService.ts:102 | processing one chunk continues the sweep by exactly its rows |
| Scheduler.BirthdaySchedulerService.ProcessInOrder | src/services/BirthdaySchedulerService.ts:137-140 | processing the selection in order leaves the table as the sweep |
| Scheduler.BirthdaySchedulerService.ProcessScheduledNotifications | src/services/BirthdaySchedulerService.ts:72-107 | the dispatch tick leaves the table as the sweep over the rows due for dispatch, and when every transaction opens no due row is left |
| Scheduler.BirthdaySchedulerService.ProcessMissedNotifications | src/services/BirthdaySchedulerService.ts:109-144 | the recovery tick leaves the table as the sweep over the rows due for recovery, and when every transaction opens no due pending row is left |
| Scheduler.BirthdaySchedulerService.GetStatus | src/services/BirthdaySchedulerService.ts:222-242 | reports whether the scheduler runs and the exact numbers of pending and failed rows, which together are at most the table size |
| Users.Plan | src/controllers/UserController.ts:217-260 | planning allocates at most one id per year it looks at, and every row id stays below the counter |
| Users.PlanExtends | src/controllers/UserController.ts:241-257 | planning never removes or changes a row and adds at most one per year |
| Users.PlanAddsPlanned | src/controllers/UserController.ts:226-257 | every added row has an id between the old and new counter and is a fresh pending row with no retries at the planned instant of one of the next five birthdays after now |
| Users.PlanCovers | src/controllers/UserController.ts:227-257 | after planning, every birthday in the horizon that is after now has a row of the user at its planned instant |
| Users.InsertKeepsIndex | src/models/index.ts:186-188 | inserting a row under a new id whose (user, date) is not yet booked keeps the unique index |
| Users.PlanKeepsIndex | src/controllers/UserController.ts:241-257 | planning keeps the `(userId, scheduledDate)` index unique |
| Users.PlanNoOpWhenCovered | src/controllers/UserController.ts:241-257 | when every candidate instant already has a row of the user, planning changes neither the table nor the counter |
| Users.PlanIdempotent | src/controllers/UserController.ts:241-257 | planning a second time right after the first changes neither the table nor the counter |
| Users.OnlyFutureYearsPlanned | src/controllers/UserController.ts:228-239 | each added row's date is the 09:00 local instant of a birthday later than now |
| Users.DropPending | src/controllers/UserController.ts:105-110 | removes exactly the user's pending rows and keeps every other row unchanged |
| Users.ReplanKeepsOthers | src/controllers/UserController.ts:103-116 | re-planning a user leaves other users' rows and the user's non-pending rows unchanged |
| Users.ReplanLeavesOnlyPlannedPending | src/controllers/UserController.ts:103-116 | after re-planning, every pending row of the user is new and is a planned row for the new birthday and zone |
| Users.Apply | src/controllers/UserController.ts:93-100 | the update changes each field that is given and keeps the rest and the id |
| Users.ScheduleBirthdayNotifications | src/controllers/UserController.ts:217-260 | the table and counter become the plan over the five-year horizon |
| Users.CreateUser | src/controllers/UserController.ts:8-45 | an unknown zone is refused, a same-name same-birthday user is a conflict, and both change nothing; otherwise a user is added under a new id and its birthdays are planned |
| Users.UpdateUser | src/controllers/UserController.ts:69-116 | replies not-found exactly for an unknown user and invalid-timezone exactly for a known user with a given invalid zone, both without change; replies updated exactly otherwise, with the fields applied, and a new birthday or zone drops the user's pending rows and re-plans |

## Left out

- Cron registration and cron expressions are not modelled. A job is a value naming its zone and interval, and each tick is an operation called with the current instant.
- Sequelize transactions, row locks, commits and rollbacks are modelled as one atomic step per notification.
- Occurrences.ExceptionMarksFailed: the step the ticks use marks a row `failed` when the commit of the claim (line 172), the user lookup or the verdict update throws. That is the intended handler, not the code as written (see Findings). As written, the commit finishes the transaction even when it fails, and the rollback of a finished transaction throws first. Three things follow. After a failed commit the row stays `pending`; after a failure past the commit it stays `retrying`, and recovery, which selects only `pending` rows, never retries it. The failed mark is never written. The error escapes `processNotification`, so the rest of the recovery loop, or the remaining chunks of the dispatch tick, are abandoned. `Occurrences.StepAsWritten` captures the first two for one step; the abandoned rest of the tick is not modelled.
- A rejected `sequelize.transaction()` (line 147, outside the `try`) is not modelled: it escapes `processNotification` and abandons the rest of the tick. `NoTransaction` models only the case where no transaction is returned, which leaves the row alone.
- A failure of the catch handler's own update, and a rejected `Promise.all` that abandons the remaining chunks, are not modelled.
- PerformanceUtils.CircuitBreaker.Execute: calls are modelled one at a time, with admission and outcome in one step. In the source, other calls can run between the admission check and the `await` of the wrapped function. Then more calls than the threshold can be admitted while the breaker is closed, and every concurrent call is let through while it is half-open, not a single trial call. The model does not capture these interleavings.
- The `Promise.all` concurrency within a chunk is modelled as processing its rows one after another. Interleavings are not captured.
- moment-timezone is a `Calendar` value of functions. The model does not compute the projection of a birthday to a year, nor the conversion to 09:00 in a zone; it relies on them as given.
- axios, the HTTP timeout and `setTimeout` are a transport function and a list of recorded waits. No time passes in the model.
- Logging, the `nextScheduledCheck` status string, Express request and response shaping, HTTP 500 replies, `getUser`, `deleteUser`, Joi validation, database connection and env parsing are left out as I/O and framework code.
- Ids are drawn from a counter in place of UUIDs.
- Scheduler.BirthdaySchedulerService.ProcessNotification: `sentAt` is the instant of the tick rather than a fresh clock reading at the moment of sending.
- Scheduler.ChunkArray: requires a positive chunk size. The source's `chunkArray` never ends for a non-empty array and a size of 0 or less, because its index grows by the size; its only caller passes 10.
- Users.UpdateUser: the birthday is a date value, so the falsy empty-string birthday of the request is not modelled. A present birthday always triggers a re-plan.
- The constructors take every setting explicitly. The source's default arguments are used only in the lemmas about the deployed sender (3 retries, 5000 ms) and the default breaker (5 failures, 30000 ms reset); the rate limiter's defaults (60000 ms, 100 requests) are not stated.
- The circuit breaker's `timeout` setting, and the scheduler configuration's `notificationHour` and `notificationMinute`, are stored but never read by the source, so the model reads them nowhere either.
- TimezoneUtils (thin wrappers over moment-timezone), IdGenerator (random UUIDs) and the sample webhook server are left out.

## Findings

| source | as written | input that shows it | evidently intended | confidence | as-written member | corrected member |
|---|---|---|---|---|---|---|
| src/services/BirthdaySchedulerService.ts:198-211 | the catch handler rolls back a transaction that the commit at line 172 has already finished, whether that commit succeeded or failed; Sequelize refuses to roll back a finished transaction and throws, so the failed mark at lines 205-210 never runs and the error escapes | a pending row whose user lookup (line 175) or verdict update (line 189) throws; a failed claim commit (line 172) escapes the same way, see `Occurrences.FailedCommitEscapes` | the row is marked `failed` with the error text, and the tick goes on | medium; not executed; relies on Sequelize's refusal to roll back a committed transaction | Occurrences.CommittedFailureStrandsRow, Occurrences.FailedCommitEscapes | Occurrences.ExceptionMarksFailed |
