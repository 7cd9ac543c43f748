/**
 * The life of one notification row under the scheduler, as a pure function
 * of the store: the claim (an atomic compare-and-set from `Pending` to
 * `Retrying` that bumps `retryCount`), the user lookup, the delivery and the
 * verdict, with every place where the processing can throw. A tick of the
 * dispatch or the recovery loop is a sequence of such steps (`Sweep`).
 */
module Occurrences {
  import opened Wrappers
  import opened Models
  import opened Notifications

  /** Width of the dispatch window and age past which recovery picks a row up. */
  const DispatchWindowMs := 60000
  const RecoveryAgeMs := 3600000
  const SendFailedMessage := "Failed to send notification after retries"
  const UnknownErrorMessage := "Unknown error"

  /** Where processing one row throws: reading the row under its lock; the
      claim update (rolled back); the commit of the claim; the user lookup
      after the commit; or the verdict update after delivery. */
  datatype Stage = AtLock | AtClaim | AtCommit | AtUserLookup | AtVerdict

  /** `NoTransaction`: no transaction could be opened, so the row is left alone.
      `Raised`: an exception, with its message when it is an `Error`. */
  datatype Fault = NoFault | NoTransaction | Raised(stage: Stage, message: Option<string>)

  /** What the environment does during one row's processing. */
  datatype Attempt = Attempt(fault: Fault, transport: nat -> TransportOutcome)

  /** The store after one step; whether this step claimed the row and whether
      it invoked the delivery gateway. */
  datatype Effect = Effect(rows: Table, claimed: bool, delivered: bool)

  function ErrorText(message: Option<string>): string {
    match message
    case Some(m) => m
    case None => UnknownErrorMessage
  }

  predicate ThrowsAt(f: Fault, s: Stage) {
    f.Raised? && f.stage == s
  }

  /** The handler's `update({status: 'failed', errorMessage}, where id)`. */
  function MarkFailed(rows: Table, id: NotificationId, text: string): Table {
    if id in rows then rows[id := rows[id].(status := Failed, errorMessage := Some(text))] else rows
  }

  lemma MarkFailedKeepsIndex(rows: Table, id: NotificationId, text: string)
    requires Keyed(rows) && Unique(rows)
    ensures Keyed(MarkFailed(rows, id, text)) && Unique(MarkFailed(rows, id, text))
    ensures MarkFailed(rows, id, text).Keys == rows.Keys
  {
    if id in rows {
      ReplaceKeepsIndex(rows, id, rows[id].(status := Failed, errorMessage := Some(text)));
    }
  }

  function Claim(r: Notification): Notification {
    r.(status := Retrying, retryCount := r.retryCount + 1)
  }

  /** The verdict update; keys whose value is undefined are not written. */
  function Settle(r: Notification, success: bool, now: Instant): Notification {
    if success then r.(status := Sent, sentAt := Some(now))
    else r.(status := Failed, errorMessage := Some(SendFailedMessage))
  }

  /** Processing the row named by snapshot `n` once. */
  function Step(rows: Table, users: map<UserId, User>, n: Notification, attempt: Attempt, maxRetries: int, now: Instant): Effect {
    var id := n.id;
    var fault := attempt.fault;
    if fault == NoTransaction then Effect(rows, false, false)
    else if ThrowsAt(fault, AtLock) then Effect(MarkFailed(rows, id, ErrorText(fault.message)), false, false)
    else if id !in rows || rows[id].status != Pending then Effect(rows, false, false)
    else if ThrowsAt(fault, AtClaim) || ThrowsAt(fault, AtCommit) then Effect(MarkFailed(rows, id, ErrorText(fault.message)), false, false)
    else AfterClaim(rows[id := Claim(rows[id])], users, n, attempt, maxRetries, now)
  }

  /** What follows a committed claim: the user lookup, the delivery and the
      verdict update, each of which may throw. */
  function AfterClaim(rows: Table, users: map<UserId, User>, n: Notification, attempt: Attempt, maxRetries: int, now: Instant): Effect
    requires n.id in rows
  {
    var id := n.id;
    var fault := attempt.fault;
    if ThrowsAt(fault, AtUserLookup) then Effect(MarkFailed(rows, id, ErrorText(fault.message)), true, false)
    else if n.userId !in users then Effect(rows, true, false)
    else if ThrowsAt(fault, AtVerdict) then Effect(MarkFailed(rows, id, ErrorText(fault.message)), true, true)
    else Effect(rows[id := Settle(rows[id], Verdict(attempt.transport, maxRetries), now)], true, true)
  }

  /** The frame of one step on the row named `id`. */
  ghost predicate StepFrame(rows: Table, id: NotificationId, e: Effect) {
    // only the named row changes, and no row changes identity
    && SameIdentity(rows, e.rows)
    && (forall k :: k in rows && k != id ==> e.rows[k] == rows[k])
    // a claim takes a pending row out of `Pending` and adds one retry; nothing else adds one
    && (e.claimed ==> && id in rows && rows[id].status == Pending && e.rows[id].status != Pending
                      && e.rows[id].retryCount == rows[id].retryCount + 1)
    && (!e.claimed && id in rows ==> e.rows[id].retryCount == rows[id].retryCount)
    // the gateway is invoked only after a claim
    && (e.delivered ==> e.claimed)
    // no row is ever put (back) into `Pending`
    && (forall k :: k in e.rows && e.rows[k].status == Pending ==> e.rows[k] == rows[k])
  }

  /** Every step keeps its frame: it touches only its own row, claims only
      a pending row, raises the retry count only by its claim, delivers
      only after a claim and never makes a row pending. */
  lemma StepKeepsFrame(rows: Table, users: map<UserId, User>, n: Notification, attempt: Attempt, maxRetries: int, now: Instant)
    ensures StepFrame(rows, n.id, Step(rows, users, n, attempt, maxRetries, now))
  {
  }

  // ---------------------------------------------------------------------
  // Facts about one step

  /** A row that is absent or not pending is left alone, unless reading it
      under its lock throws, in which case it is marked failed whatever its status. */
  lemma NonPendingUntouched(rows: Table, users: map<UserId, User>, n: Notification, attempt: Attempt, maxRetries: int, now: Instant)
    requires n.id !in rows || rows[n.id].status != Pending
    ensures var e := Step(rows, users, n, attempt, maxRetries, now);
      && !e.claimed && !e.delivered
      && (!ThrowsAt(attempt.fault, AtLock) ==> e.rows == rows)
      && (ThrowsAt(attempt.fault, AtLock) && n.id in rows ==>
            e.rows == rows[n.id := rows[n.id].(status := Failed, errorMessage := Some(ErrorText(attempt.fault.message)))])
  {
  }

  /** The claim happens exactly when the row is still pending and neither
      the transaction, the locked read nor the claim update fails. */
  lemma ClaimIsCompareAndSet(rows: Table, users: map<UserId, User>, n: Notification, attempt: Attempt, maxRetries: int, now: Instant)
    ensures var e := Step(rows, users, n, attempt, maxRetries, now);
      && (e.claimed <==> n.id in rows && rows[n.id].status == Pending && attempt.fault != NoTransaction
                         && !ThrowsAt(attempt.fault, AtLock) && !ThrowsAt(attempt.fault, AtClaim)
                         && !ThrowsAt(attempt.fault, AtCommit))
  {
  }

  /** The verdict of a delivered, fault-free step. */
  lemma VerdictApplied(rows: Table, users: map<UserId, User>, n: Notification, attempt: Attempt, maxRetries: int, now: Instant)
    requires n.id in rows && rows[n.id].status == Pending && n.userId in users && attempt.fault == NoFault
    ensures var e := Step(rows, users, n, attempt, maxRetries, now);
      && e.claimed && e.delivered
      && e.rows[n.id].retryCount == rows[n.id].retryCount + 1
      && (Verdict(attempt.transport, maxRetries) ==>
            e.rows[n.id].status == Sent && e.rows[n.id].sentAt == Some(now) && e.rows[n.id].errorMessage == rows[n.id].errorMessage)
      && (!Verdict(attempt.transport, maxRetries) ==>
            e.rows[n.id].status == Failed && e.rows[n.id].errorMessage == Some(SendFailedMessage) && e.rows[n.id].sentAt == rows[n.id].sentAt)
  {
  }

  /** An exception anywhere in the processing of an existing row leaves it
      `Failed` with the exception's message. */
  lemma ExceptionMarksFailed(rows: Table, users: map<UserId, User>, n: Notification, attempt: Attempt, maxRetries: int, now: Instant)
    requires n.id in rows && attempt.fault.Raised?
    requires attempt.fault.stage != AtLock ==> rows[n.id].status == Pending
    requires attempt.fault.stage == AtVerdict ==> n.userId in users
    ensures var e := Step(rows, users, n, attempt, maxRetries, now);
      e.rows[n.id].status == Failed && e.rows[n.id].errorMessage == Some(ErrorText(attempt.fault.message))
  {
  }

  /** Once a transaction opens, an existing row is never left pending. */
  lemma ProcessedRowLeavesPending(rows: Table, users: map<UserId, User>, n: Notification, attempt: Attempt, maxRetries: int, now: Instant)
    requires n.id in rows && attempt.fault != NoTransaction
    ensures Step(rows, users, n, attempt, maxRetries, now).rows[n.id].status != Pending
  {
  }

  /** A user that vanished after the claim leaves the row `Retrying`, undelivered. */
  lemma MissingUserLeavesRetrying(rows: Table, users: map<UserId, User>, n: Notification, attempt: Attempt, maxRetries: int, now: Instant)
    requires n.id in rows && rows[n.id].status == Pending && n.userId !in users
    requires attempt.fault == NoFault || ThrowsAt(attempt.fault, AtVerdict)
    ensures var e := Step(rows, users, n, attempt, maxRetries, now);
      e.claimed && !e.delivered && e.rows[n.id].status == Retrying
  {
  }

  /** A sent row stays exactly as it is, except that an exception while
      reading it under its lock overwrites it as failed. */
  lemma SentIsStableUnlessLockThrows(rows: Table, users: map<UserId, User>, n: Notification, attempt: Attempt, maxRetries: int, now: Instant, k: NotificationId)
    requires k in rows && rows[k].status == Sent
    ensures var e := Step(rows, users, n, attempt, maxRetries, now);
      (e.rows[k] == rows[k]) <==> (k != n.id || !ThrowsAt(attempt.fault, AtLock))
  ensures var e := Step(rows, users, n, attempt, maxRetries, now);
      k == n.id && ThrowsAt(attempt.fault, AtLock) ==>
        && e.rows[k].status == Failed
        && e.rows[k].sentAt == rows[k].sentAt
        && e.rows[k].errorMessage == Some(ErrorText(attempt.fault.message))
  {
  }

  /** Two calls in a row on the same row: the second sees a non-pending
      status and does nothing, so the row is claimed and delivered at most once. */
  lemma SecondCallIsNoOp(rows: Table, users: map<UserId, User>, n: Notification, a1: Attempt, a2: Attempt, maxRetries: int, now1: Instant, now2: Instant)
    requires a1.fault != NoTransaction && !ThrowsAt(a2.fault, AtLock)
    ensures var e1 := Step(rows, users, n, a1, maxRetries, now1);
      var e2 := Step(e1.rows, users, n, a2, maxRetries, now2);
      && e2.rows == e1.rows && !e2.claimed && !e2.delivered
  {
  }

  // ---------------------------------------------------------------------
  // The handler once the transaction has finished, as written

  /** One step as the handler is written, and whether an error leaves it. */
  datatype Outcome = Outcome(effect: Effect, escaped: bool)

  /** Processing as written: a commit, failed or not, finishes the
      transaction, and the handler's rollback of a finished transaction
      throws before the failed mark is written. So a failed commit leaves
      the row as it was, and an exception at the user lookup or at the
      verdict update leaves it as claimed; either way the error escapes the
      step. Every other path is `Step`. */
  function StepAsWritten(rows: Table, users: map<UserId, User>, n: Notification, attempt: Attempt, maxRetries: int, now: Instant): Outcome {
    var fault := attempt.fault;
    if ThrowsAt(fault, AtCommit) && n.id in rows && rows[n.id].status == Pending
    then Outcome(Effect(rows, false, false), true)
    else if && fault != NoTransaction && !ThrowsAt(fault, AtLock) && !ThrowsAt(fault, AtClaim)
       && n.id in rows && rows[n.id].status == Pending
       && (ThrowsAt(fault, AtUserLookup) || (ThrowsAt(fault, AtVerdict) && n.userId in users))
    then Outcome(Effect(rows[n.id := Claim(rows[n.id])], true, ThrowsAt(fault, AtVerdict)), true)
    else Outcome(Step(rows, users, n, attempt, maxRetries, now), false)
  }

  /** As written, a failed commit of the claim leaves the row pending and
      escapes the step, abandoning the rest of the tick; the intended
      handler (`Step`) marks the row `Failed` instead. */
  lemma FailedCommitEscapes(rows: Table, users: map<UserId, User>, n: Notification, attempt: Attempt, maxRetries: int, now: Instant)
    requires n.id in rows && rows[n.id].status == Pending && ThrowsAt(attempt.fault, AtCommit)
    ensures var o := StepAsWritten(rows, users, n, attempt, maxRetries, now);
      o.escaped && o.effect.rows == rows && !o.effect.claimed && !o.effect.delivered
    ensures var e := Step(rows, users, n, attempt, maxRetries, now);
      n.id in e.rows && e.rows[n.id].status == Failed && e.rows[n.id].errorMessage == Some(ErrorText(attempt.fault.message))
  {
  }

  /** As written, an exception after the committed claim strands the row in
      `Retrying`, where neither loop ever selects it again, and the error
      escapes; the intended handler (`Step`) marks it `Failed` instead. */
  lemma CommittedFailureStrandsRow(rows: Table, users: map<UserId, User>, n: Notification, attempt: Attempt, maxRetries: int, now: Instant)
    requires n.id in rows && rows[n.id].status == Pending
    requires ThrowsAt(attempt.fault, AtUserLookup) || (ThrowsAt(attempt.fault, AtVerdict) && n.userId in users)
    ensures var o := StepAsWritten(rows, users, n, attempt, maxRetries, now);
      && o.escaped && n.id in o.effect.rows && o.effect.rows[n.id].status == Retrying
      && (forall later, budget :: !DueForRecovery(o.effect.rows[n.id], users, later, budget))
      && (forall later :: !DueForDispatch(o.effect.rows[n.id], users, later))
    ensures var e := Step(rows, users, n, attempt, maxRetries, now);
      n.id in e.rows && e.rows[n.id].status == Failed && e.rows[n.id].errorMessage == Some(ErrorText(attempt.fault.message))
  {
  }

  // ---------------------------------------------------------------------
  // A tick: the rows selected, processed one after another

  /** Processing the snapshots `found[..k]` in order; `world(i)` is what the
      environment does while `found[i]` is processed. Records which rows
      were claimed and which were handed to the gateway. */
  datatype Trace = Trace(rows: Table, claims: seq<NotificationId>, deliveries: seq<NotificationId>)

  /** Some snapshot among `found[..k]` names row `id`. */
  predicate Named(found: seq<Notification>, k: nat, id: NotificationId)
    requires k <= |found|
  {
    exists i :: 0 <= i < k && found[i].id == id
  }

  function Extend(t: Trace, id: NotificationId, e: Effect): Trace {
    Trace(e.rows, t.claims + (if e.claimed then [id] else []), t.deliveries + (if e.delivered then [id] else []))
  }

  function Sweep(rows: Table, users: map<UserId, User>, found: seq<Notification>, world: nat -> Attempt,
                 maxRetries: int, now: Instant, k: nat): (t: Trace)
    requires k <= |found|
    ensures SameIdentity(rows, t.rows)
    decreases k
  {
    if k == 0 then Trace(rows, [], [])
    else
      var t := Sweep(rows, users, found, world, maxRetries, now, k - 1);
      StepKeepsFrame(t.rows, users, found[k - 1], world(k - 1), maxRetries, now);
      Extend(t, found[k - 1].id, Step(t.rows, users, found[k - 1], world(k - 1), maxRetries, now))
  }

  /** A sweep keeps the table keyed and the `(userId, scheduledDate)` index unique. */
  lemma SweepKeepsIndex(rows: Table, users: map<UserId, User>, found: seq<Notification>,
                        world: nat -> Attempt, maxRetries: int, now: Instant, k: nat)
    requires k <= |found| && Keyed(rows) && Unique(rows)
    ensures Keyed(Sweep(rows, users, found, world, maxRetries, now, k).rows)
    ensures Unique(Sweep(rows, users, found, world, maxRetries, now, k).rows)
  {
    SameIdentityKeepsIndex(rows, Sweep(rows, users, found, world, maxRetries, now, k).rows);
  }

  function Count(ids: seq<NotificationId>, id: NotificationId): nat {
    multiset(ids)[id]
  }

  /** What a trace promises about row `id`: claimed at most once, and only
      if it was pending at the start (after which it is pending no more);
      delivered at most as often as claimed; its retry count raised by
      exactly the number of claims. */
  ghost predicate RowBooked(rows: Table, t: Trace, id: NotificationId)
    requires id in rows && id in t.rows
  {
    && Count(t.claims, id) <= 1
    && Count(t.deliveries, id) <= Count(t.claims, id)
    && t.rows[id].retryCount == rows[id].retryCount + Count(t.claims, id)
    && (Count(t.claims, id) == 1 ==> rows[id].status == Pending && t.rows[id].status != Pending)
    && (t.rows[id].status == Pending ==> t.rows[id] == rows[id])
  }

  /** `RowBooked` for every row, and no claim or delivery of an absent row. */
  ghost predicate Bookkeeping(rows: Table, t: Trace) {
    && SameIdentity(rows, t.rows)
    && (forall id :: id !in rows ==> Count(t.claims, id) == 0 && Count(t.deliveries, id) == 0)
    && (forall id :: id in rows ==> RowBooked(rows, t, id))
  }

  /** One step whose effect keeps its frame keeps the promise about each row. */
  lemma EffectKeepsRowBooked(rows: Table, t: Trace, n: Notification, e: Effect, id: NotificationId)
    requires id in rows && rows.Keys == t.rows.Keys && RowBooked(rows, t, id)
    requires StepFrame(t.rows, n.id, e)
    ensures RowBooked(rows, Extend(t, n.id, e), id)
  {
    if id == n.id && e.claimed {
      // the claim needs a pending row, so no earlier step claimed this one
      assert Count(t.claims, id) == 0;
    }
  }

  lemma StepKeepsBookkeeping(rows: Table, t: Trace, users: map<UserId, User>, n: Notification, attempt: Attempt, maxRetries: int, now: Instant)
    requires Bookkeeping(rows, t)
    ensures Bookkeeping(rows, Extend(t, n.id, Step(t.rows, users, n, attempt, maxRetries, now)))
  {
    var e := Step(t.rows, users, n, attempt, maxRetries, now);
    StepKeepsFrame(t.rows, users, n, attempt, maxRetries, now);
    forall id | id in rows
      ensures RowBooked(rows, Extend(t, n.id, e), id)
    {
      EffectKeepsRowBooked(rows, t, n, e, id);
    }
  }

  /** At-most-once claims across any sequence of steps in one sweep,
      duplicates included: each row is claimed at most once, and delivered
      at most once and only after its claim. */
  lemma {:induction false} SweepClaimsAtMostOnce(rows: Table, users: map<UserId, User>, found: seq<Notification>,
                                                world: nat -> Attempt, maxRetries: int, now: Instant, k: nat)
    requires k <= |found|
    ensures Bookkeeping(rows, Sweep(rows, users, found, world, maxRetries, now, k))
  {
    if k > 0 {
      SweepClaimsAtMostOnce(rows, users, found, world, maxRetries, now, k - 1);
      var t := Sweep(rows, users, found, world, maxRetries, now, k - 1);
      StepKeepsBookkeeping(rows, t, users, found[k - 1], world(k - 1), maxRetries, now);
    }
  }

  /** A step leaves every row but its own as it was. */
  lemma StepKeepsOtherRow(rows: Table, users: map<UserId, User>, n: Notification, attempt: Attempt, maxRetries: int, now: Instant, id: NotificationId)
    requires id in rows && id != n.id
    ensures var e := Step(rows, users, n, attempt, maxRetries, now);
      id in e.rows && e.rows[id] == rows[id]
  {
  }

  /** A sweep leaves a row that none of its snapshots names exactly as it was. */
  lemma {:induction false} SweepKeepsUnnamedRow(rows: Table, users: map<UserId, User>, found: seq<Notification>,
                                               world: nat -> Attempt, maxRetries: int, now: Instant, k: nat, id: NotificationId)
    requires k <= |found| && id in rows && !Named(found, k, id)
    ensures var t := Sweep(rows, users, found, world, maxRetries, now, k);
      id in t.rows && t.rows[id] == rows[id]
  {
    if k > 0 {
      assert !Named(found, k - 1, id) && found[k - 1].id != id;
      SweepKeepsUnnamedRow(rows, users, found, world, maxRetries, now, k - 1, id);
      var t := Sweep(rows, users, found, world, maxRetries, now, k - 1);
      StepKeepsOtherRow(t.rows, users, found[k - 1], world(k - 1), maxRetries, now, id);
    }
  }

  /** `retryCount` never decreases over a sweep and rises by at most one. */
  lemma SweepRetryCountMonotone(rows: Table, users: map<UserId, User>, found: seq<Notification>,
                                world: nat -> Attempt, maxRetries: int, now: Instant, k: nat)
    requires k <= |found|
    ensures var t := Sweep(rows, users, found, world, maxRetries, now, k);
      forall id :: id in rows ==> id in t.rows && rows[id].retryCount <= t.rows[id].retryCount <= rows[id].retryCount + 1
  {
    SweepClaimsAtMostOnce(rows, users, found, world, maxRetries, now, k);
  }

  // ---------------------------------------------------------------------
  // Selection

  /** The dispatch query: pending, scheduled in [now - 1 min, now] (both ends
      included), with an existing user. */
  predicate DueForDispatch(n: Notification, users: map<UserId, User>, now: Instant) {
    n.status == Pending && now - DispatchWindowMs <= n.scheduledDate <= now && n.userId in users
  }

  /** The recovery query: pending, scheduled more than an hour ago (strictly),
      under the retry budget, with an existing user. */
  predicate DueForRecovery(n: Notification, users: map<UserId, User>, now: Instant, maxRetryAttempts: int) {
    n.status == Pending && n.scheduledDate < now - RecoveryAgeMs && n.retryCount < maxRetryAttempts && n.userId in users
  }

  /** What the store returns for a query: the current rows satisfying `due`,
      each once, all of them, in ascending `scheduledDate` order. */
  ghost predicate IsQueryResult(found: seq<Notification>, rows: Table, due: Notification -> bool) {
    && (forall i :: 0 <= i < |found| ==> found[i].id in rows && rows[found[i].id] == found[i] && due(found[i]))
    && (forall i, j :: 0 <= i < j < |found| ==> found[i].id != found[j].id && found[i].scheduledDate <= found[j].scheduledDate)
    && (forall id :: id in rows && due(rows[id]) ==> exists i :: 0 <= i < |found| && found[i].id == id)
  }

  /** The two loops never select the same row at the same instant: the
      dispatch window lies entirely inside the last hour. */
  lemma DispatchAndRecoveryDisjoint(n: Notification, users: map<UserId, User>, now: Instant, maxRetryAttempts: int)
    ensures !(DueForDispatch(n, users, now) && DueForRecovery(n, users, now, maxRetryAttempts))
  {
  }

  /** Recovery never selects a row whose budget is spent, nor a failed or
      in-flight row: failed rows are never retried. */
  lemma RecoverySelectsOnlyPendingUnderBudget(n: Notification, users: map<UserId, User>, now: Instant, maxRetryAttempts: int)
    requires n.retryCount >= maxRetryAttempts || n.status != Pending
    ensures !DueForRecovery(n, users, now, maxRetryAttempts)
  {
  }

  ghost predicate Selects(found: seq<Notification>, rows: Table) {
    forall i :: 0 <= i < |found| ==> found[i].id in rows
  }

  ghost predicate TransactionsOpen(world: nat -> Attempt, n: nat) {
    forall i :: 0 <= i < n ==> world(i).fault != NoTransaction
  }

  /** Every row named by `found[..k]` is in `rows` and not pending. */
  ghost predicate Drained(found: seq<Notification>, k: nat, rows: Table)
    requires k <= |found|
  {
    forall i :: 0 <= i < k ==> found[i].id in rows && rows[found[i].id].status != Pending
  }

  /** One step from `before` to `after` that left row `id` non-pending and
      put no row back into `Pending`. */
  ghost predicate LeftPending(before: Table, after: Table, id: NotificationId) {
    && before.Keys == after.Keys
    && (forall k :: k in after && after[k].status == Pending ==> after[k] == before[k])
    && id in after && after[id].status != Pending
  }

  lemma DrainedGrows(found: seq<Notification>, k: nat, before: Table, after: Table)
    requires 0 < k <= |found| && Drained(found, k - 1, before)
    requires LeftPending(before, after, found[k - 1].id)
    ensures Drained(found, k, after)
  {
  }

  lemma LastStepLeavesPending(rows: Table, users: map<UserId, User>, found: seq<Notification>,
                              world: nat -> Attempt, maxRetries: int, now: Instant, k: nat)
    requires 0 < k <= |found| && found[k - 1].id in rows && world(k - 1).fault != NoTransaction
    ensures LeftPending(Sweep(rows, users, found, world, maxRetries, now, k - 1).rows,
                        Sweep(rows, users, found, world, maxRetries, now, k).rows, found[k - 1].id)
  {
    var t := Sweep(rows, users, found, world, maxRetries, now, k - 1);
    ProcessedRowLeavesPending(t.rows, users, found[k - 1], world(k - 1), maxRetries, now);
    StepKeepsFrame(t.rows, users, found[k - 1], world(k - 1), maxRetries, now);
  }

  /** After a sweep in which every transaction opens, no row it named is
      still pending. */
  lemma {:induction false} SweepDrainsSelection(rows: Table, users: map<UserId, User>, found: seq<Notification>,
                                               world: nat -> Attempt, maxRetries: int, now: Instant, k: nat)
    requires k <= |found|
    requires Selects(found, rows) && TransactionsOpen(world, |found|)
    ensures Drained(found, k, Sweep(rows, users, found, world, maxRetries, now, k).rows)
  {
    if k > 0 {
      SweepDrainsSelection(rows, users, found, world, maxRetries, now, k - 1);
      assert found[k - 1].id in rows && world(k - 1).fault != NoTransaction;
      LastStepLeavesPending(rows, users, found, world, maxRetries, now, k);
      DrainedGrows(found, k, Sweep(rows, users, found, world, maxRetries, now, k - 1).rows,
                   Sweep(rows, users, found, world, maxRetries, now, k).rows);
    }
  }

  /** The dispatch query as a row filter. */
  function DispatchFilter(users: map<UserId, User>, now: Instant): Notification -> bool {
    n => DueForDispatch(n, users, now)
  }

  /** The recovery query as a row filter. */
  function RecoveryFilter(users: map<UserId, User>, now: Instant, maxRetryAttempts: int): Notification -> bool {
    n => DueForRecovery(n, users, now, maxRetryAttempts)
  }

  /** After a tick over a complete query result for pending rows in which
      every transaction opens, no row the query would select is left: each
      selected row was processed, and every other row was not due and is untouched. */
  lemma TickLeavesNothingDue(rows: Table, users: map<UserId, User>, found: seq<Notification>,
                             world: nat -> Attempt, maxRetries: int, now: Instant, due: Notification -> bool)
    requires IsQueryResult(found, rows, due)
    requires forall n :: due(n) ==> n.status == Pending
    requires TransactionsOpen(world, |found|)
    ensures var t := Sweep(rows, users, found, world, maxRetries, now, |found|);
      forall id :: id in t.rows ==> !due(t.rows[id])
  {
    var t := Sweep(rows, users, found, world, maxRetries, now, |found|);
    SweepDrainsSelection(rows, users, found, world, maxRetries, now, |found|);
    forall id | id in t.rows
      ensures !due(t.rows[id])
    {
      if Named(found, |found|, id) {
        // selected, hence processed, hence no longer pending
        var i :| 0 <= i < |found| && found[i].id == id;
        assert Drained(found, |found|, t.rows);
      } else {
        // not selected, hence not due before the tick, and untouched by it
        SweepKeepsUnnamedRow(rows, users, found, world, maxRetries, now, |found|, id);
      }
    }
  }

  /** Both loops select pending rows only. */
  lemma FiltersSelectPending(users: map<UserId, User>, now: Instant, maxRetryAttempts: int)
    ensures forall n :: DispatchFilter(users, now)(n) ==> n.status == Pending
    ensures forall n :: RecoveryFilter(users, now, maxRetryAttempts)(n) ==> n.status == Pending
  {
  }

  // ---------------------------------------------------------------------
  // Status counts

  /** The four status counts partition the table. */
  lemma StatusCountsPartition(rows: Table)
    ensures CountStatus(rows, Pending) + CountStatus(rows, Sent) + CountStatus(rows, Failed) + CountStatus(rows, Retrying) == |rows|
  {
    var p, s, f, r := WithStatus(rows, Pending), WithStatus(rows, Sent), WithStatus(rows, Failed), WithStatus(rows, Retrying);
    assert rows.Keys == p + s + f + r;
    assert |p + s| == |p| + |s|;
    assert |p + s + f| == |p + s| + |f|;
    assert |p + s + f + r| == |p + s + f| + |r|;
  }

  /** A claim takes exactly one row out of the pending count. */
  lemma ClaimLowersPendingCount(rows: Table, users: map<UserId, User>, n: Notification, attempt: Attempt, maxRetries: int, now: Instant)
    ensures var e := Step(rows, users, n, attempt, maxRetries, now);
      e.claimed ==> CountStatus(e.rows, Pending) + 1 == CountStatus(rows, Pending)
  {
    var e := Step(rows, users, n, attempt, maxRetries, now);
    StepKeepsFrame(rows, users, n, attempt, maxRetries, now);
    if e.claimed {
      var before, after := WithStatus(rows, Pending), WithStatus(e.rows, Pending);
      assert after == before - {n.id};
      assert n.id in before;
    }
  }
}
