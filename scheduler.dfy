/**
 * The birthday scheduler service: its running flag and job handles, the
 * processing of one notification row (claim, lookup, delivery, verdict),
 * the dispatch tick (in chunks of ten) and the recovery tick, and the
 * status counts. Each row operation is proved to be exactly the pure
 * `Step` of the Occurrences module, and each tick exactly a `Sweep`.
 */
module Scheduler {
  import opened Wrappers
  import opened Models
  import opened Notifications
  import opened Occurrences

  /** Number of rows of one dispatch tick handed to the gateway together. */
  const ConcurrencyLimit := 10

  datatype SchedulerConfig = SchedulerConfig(
    timezone: string,
    notificationHour: int,
    notificationMinute: int,
    recoveryCheckIntervalMinutes: int,
    maxRetryAttempts: int)

  /** A registered periodic job: the every-minute dispatch job or the
      recovery job, both evaluated in the configured zone. */
  datatype Job = DispatchJob(timezone: string) | RecoveryJob(timezone: string, intervalMinutes: int)

  /** The name the gateway greets: first and last name joined by one space. */
  function FullName(u: User): (name: string)
    ensures |name| == |u.firstName| + 1 + |u.lastName|
    ensures name[..|u.firstName|] == u.firstName && name[|u.firstName|] == ' ' && name[|u.firstName| + 1..] == u.lastName
  {
    u.firstName + " " + u.lastName
  }

  // ---------------------------------------------------------------------
  // Batching

  /** The concatenation of a sequence of chunks. */
  function Flatten<T>(chunks: seq<seq<T>>): seq<T> {
    if chunks == [] then [] else chunks[0] + Flatten(chunks[1..])
  }

  lemma {:induction false} FlattenAppend<T>(chunks: seq<seq<T>>, last: seq<T>)
    ensures Flatten(chunks + [last]) == Flatten(chunks) + last
  {
    if chunks != [] {
      assert (chunks + [last])[1..] == chunks[1..] + [last];
      FlattenAppend(chunks[1..], last);
    }
  }

  /** `m` chunks of size `c` cover `n` items exactly when `m` is the ceiling of `n / c`. */
  lemma CeilingDivision(n: nat, c: nat, m: nat)
    requires c > 0
    requires (m - 1) * c < n <= m * c || (m == 0 && n == 0)
    ensures m == (n + c - 1) / c
  {
    assert m * c == (m - 1) * c + c;
    QuotientUnique(n + c - 1, c, m);
  }

  /** Euclidean division has a single quotient. */
  lemma QuotientUnique(x: int, c: nat, m: int)
    requires c > 0 && m * c <= x < m * c + c
    ensures x / c == m
  {
    var q := x / c;
    assert x == q * c + x % c;
    if q < m {
      MultiplyMonotone(q + 1, m, c);
    } else if q > m {
      MultiplyMonotone(m + 1, q, c);
    }
  }

  lemma MultiplyMonotone(a: int, b: int, c: nat)
    requires a <= b
    ensures a * c <= b * c
  {
    assert b * c - a * c == (b - a) * c;
  }

  /** Splits `items` into consecutive chunks of `chunkSize` (the last may be shorter). */
  method ChunkArray<T>(items: seq<T>, chunkSize: nat) returns (chunks: seq<seq<T>>)
    requires chunkSize > 0
    ensures Flatten(chunks) == items
    ensures forall k :: 0 <= k < |chunks| ==> 0 < |chunks[k]| <= chunkSize
    ensures forall k :: 0 <= k < |chunks| - 1 ==> |chunks[k]| == chunkSize
    ensures |chunks| == (|items| + chunkSize - 1) / chunkSize
  {
    chunks := [];
    var i := 0;
    while i < |items|
      invariant i == |chunks| * chunkSize
      invariant Flatten(chunks) == items[..if i < |items| then i else |items|]
      invariant forall k :: 0 <= k < |chunks| ==> 0 < |chunks[k]| <= chunkSize
      invariant forall k :: 0 <= k < |chunks| - 1 ==> |chunks[k]| == chunkSize
      invariant i < |items| ==> forall k :: 0 <= k < |chunks| ==> |chunks[k]| == chunkSize
      invariant |chunks| > 0 ==> (|chunks| - 1) * chunkSize < |items|
      decreases |items| - i
    {
      var end := if i + chunkSize < |items| then i + chunkSize else |items|;
      FlattenAppend(chunks, items[i..end]);
      assert items[..i] + items[i..end] == items[..end];
      chunks := chunks + [items[i..end]];
      i := i + chunkSize;
    }
    assert items[..|items|] == items;
    CeilingDivision(|items|, chunkSize, |chunks|);
  }

  // ---------------------------------------------------------------------
  // The service

  /** The facts a tick's result keeps: its store is the sweep's, and the
      sweep's bookkeeping (claims at most once, retry counts) holds. */
  ghost predicate SweptTo(rows: Table, after: Table, delivered: seq<NotificationId>, t: Trace) {
    after == t.rows && delivered == t.deliveries && Bookkeeping(rows, t)
  }

  class BirthdaySchedulerService {
    const notificationService: NotificationService
    const config: SchedulerConfig
    var cronJob: Option<Job>
    var recoveryJob: Option<Job>
    var isRunning: bool

    /** Both job handles are held exactly while the scheduler runs. */
    ghost predicate Valid()
      reads this
    {
      && (isRunning ==> cronJob == Some(DispatchJob(config.timezone))
                        && recoveryJob == Some(RecoveryJob(config.timezone, config.recoveryCheckIntervalMinutes)))
      && (!isRunning ==> cronJob == None && recoveryJob == None)
    }

    constructor (notificationService: NotificationService, config: SchedulerConfig)
      ensures Valid() && !isRunning
      ensures this.notificationService == notificationService && this.config == config
    {
      this.notificationService := notificationService;
      this.config := config;
      cronJob := None;
      recoveryJob := None;
      isRunning := false;
    }

    /** Registers and starts both jobs, unless already running. */
    method Start()
      requires Valid()
      modifies this
      ensures Valid() && isRunning
      ensures old(isRunning) ==> cronJob == old(cronJob) && recoveryJob == old(recoveryJob)
    {
      if isRunning {
        return;
      }
      cronJob := Some(DispatchJob(config.timezone));
      recoveryJob := Some(RecoveryJob(config.timezone, config.recoveryCheckIntervalMinutes));
      isRunning := true;
    }

    /** Stops and drops both jobs, unless already stopped. */
    method Stop()
      requires Valid()
      modifies this
      ensures Valid() && !isRunning
      ensures cronJob == None && recoveryJob == None
    {
      if !isRunning {
        return;
      }
      if cronJob.Some? {
        cronJob := None;
      }
      if recoveryJob.Some? {
        recoveryJob := None;
      }
      isRunning := false;
    }

    /** Processes the row named by snapshot `n`: the claim under the row
        lock, then (once it committed) the delivery. Returns the message
        handed to the gateway, if any. */
    method ProcessNotification(db: Database, n: Notification, attempt: Attempt, now: Instant, timestamp: string)
      returns (handed: Option<NotificationMessage>)
      requires db.Valid()
      modifies db
      ensures db.Valid()
      ensures db.users == old(db.users) && db.nextId == old(db.nextId)
      ensures var e := Step(old(db.notifications), old(db.users), n, attempt, notificationService.maxRetries, now);
        db.notifications == e.rows && (handed.Some? <==> e.delivered)
      ensures handed.Some? ==>
        n.userId in db.users && handed.value == NotificationMessage(FullName(db.users[n.userId]), n.userId, n.scheduledDate)
    {
      if attempt.fault == NoTransaction {
        return None;
      }
      var claimed := ClaimRow(db, n, attempt, now);
      if claimed {
        handed := Complete(db, n, attempt, now, timestamp);
      } else {
        handed := None;
      }
    }

    /** Inside a transaction: reads the row under its lock and, if it is
        still pending, marks it `Retrying` with one more retry and commits.
        An exception while reading, claiming or committing rolls back and
        marks the row failed (the intended handler). */
    method ClaimRow(db: Database, n: Notification, attempt: Attempt, now: Instant) returns (claimed: bool)
      requires db.Valid() && attempt.fault != NoTransaction
      modifies db
      ensures db.Valid()
      ensures db.users == old(db.users) && db.nextId == old(db.nextId)
      ensures var e := Step(old(db.notifications), old(db.users), n, attempt, notificationService.maxRetries, now);
        && claimed == e.claimed
        && (!claimed ==> db.notifications == e.rows)
        && (claimed ==> n.id in db.notifications
                        && e == AfterClaim(db.notifications, old(db.users), n, attempt, notificationService.maxRetries, now))
      ensures claimed ==>
        && n.id in old(db.notifications)
        && db.notifications == old(db.notifications)[n.id := Claim(old(db.notifications)[n.id])]
    {
      var fault := attempt.fault;
      if ThrowsAt(fault, AtLock) {
        MarkFailedKeepsIndex(db.notifications, n.id, ErrorText(fault.message));
        db.notifications := MarkFailed(db.notifications, n.id, ErrorText(fault.message));
        return false;
      }
      if n.id !in db.notifications || db.notifications[n.id].status != Pending {
        return false;
      }
      if ThrowsAt(fault, AtClaim) || ThrowsAt(fault, AtCommit) {
        // the claim is rolled back; the handler marks the row failed
        MarkFailedKeepsIndex(db.notifications, n.id, ErrorText(fault.message));
        db.notifications := MarkFailed(db.notifications, n.id, ErrorText(fault.message));
        return false;
      }
      var locked := db.notifications[n.id];
      ReplaceKeepsIndex(db.notifications, n.id, locked.(status := Retrying, retryCount := locked.retryCount + 1));
      db.notifications := db.notifications[n.id := locked.(status := Retrying, retryCount := locked.retryCount + 1)];
      claimed := true;
    }

    /** After the claim has committed: looks the user up, hands the
        birthday message to the gateway and records its verdict. */
    method Complete(db: Database, n: Notification, attempt: Attempt, now: Instant, timestamp: string)
      returns (handed: Option<NotificationMessage>)
      requires db.Valid() && n.id in db.notifications
      modifies db
      ensures db.Valid()
      ensures db.users == old(db.users) && db.nextId == old(db.nextId)
      ensures var e := AfterClaim(old(db.notifications), old(db.users), n, attempt, notificationService.maxRetries, now);
        db.notifications == e.rows && (handed.Some? <==> e.delivered)
      ensures handed.Some? ==>
        n.userId in db.users && handed.value == NotificationMessage(FullName(db.users[n.userId]), n.userId, n.scheduledDate)
    {
      var fault := attempt.fault;
      if ThrowsAt(fault, AtUserLookup) {
        MarkFailedKeepsIndex(db.notifications, n.id, ErrorText(fault.message));
        db.notifications := MarkFailed(db.notifications, n.id, ErrorText(fault.message));
        return None;
      }
      if n.userId !in db.users {
        return None;
      }
      var user := db.users[n.userId];
      var message := NotificationMessage(FullName(user), n.userId, n.scheduledDate);
      var success, _, _ := notificationService.SendBirthdayNotification(message, attempt.transport, timestamp);
      handed := Some(message);
      var row := db.notifications[n.id];
      if ThrowsAt(fault, AtVerdict) {
        MarkFailedKeepsIndex(db.notifications, n.id, ErrorText(fault.message));
        db.notifications := MarkFailed(db.notifications, n.id, ErrorText(fault.message));
      } else if success {
        ReplaceKeepsIndex(db.notifications, n.id, row.(status := Sent, sentAt := Some(now)));
        db.notifications := db.notifications[n.id := row.(status := Sent, sentAt := Some(now))];
      } else {
        ReplaceKeepsIndex(db.notifications, n.id, row.(status := Failed, errorMessage := Some(SendFailedMessage)));
        db.notifications := db.notifications[n.id := row.(status := Failed, errorMessage := Some(SendFailedMessage))];
      }
    }

    /** Processes `found` chunk by chunk and returns the ids of the rows
        handed to the gateway. */
    method ProcessInChunks(db: Database, found: seq<Notification>, world: nat -> Attempt, now: Instant, timestamp: string)
      returns (delivered: seq<NotificationId>)
      requires db.Valid()
      modifies db
      ensures db.Valid()
      ensures db.users == old(db.users) && db.nextId == old(db.nextId)
      ensures var t := Sweep(old(db.notifications), old(db.users), found, world, notificationService.maxRetries, now, |found|);
        db.notifications == t.rows && delivered == t.deliveries
    {
      ghost var rows, users := db.notifications, db.users;
      var chunks := ChunkArray(found, ConcurrencyLimit);
      var done: nat := 0;
      delivered := [];
      for c := 0 to |chunks|
        invariant done <= |found| && Flatten(chunks[c..]) == found[done..]
        invariant db.Valid() && db.users == users && db.nextId == old(db.nextId)
        invariant db.notifications == Sweep(rows, users, found, world, notificationService.maxRetries, now, done).rows
        invariant delivered == Sweep(rows, users, found, world, notificationService.maxRetries, now, done).deliveries
      {
        assert chunks[c..][1..] == chunks[c + 1..];
        assert found[done..][..|chunks[c]|] == chunks[c];
        var handed := ProcessChunk(db, found, world, done, chunks[c], rows, now, timestamp);
        delivered := delivered + handed;
        assert found[done + |chunks[c]|..] == found[done..][|chunks[c]|..];
        done := done + |chunks[c]|;
      }
      assert chunks[|chunks|..] == [];
    }

    /** Processes one chunk, the snapshots `found[from..from + |chunk|]`,
        each row in turn, and returns the ids of the rows it handed to the gateway. */
    method ProcessChunk(db: Database, found: seq<Notification>, world: nat -> Attempt, from: nat, chunk: seq<Notification>,
                        ghost rows: Table, now: Instant, timestamp: string)
      returns (handedIds: seq<NotificationId>)
      requires db.Valid() && from + |chunk| <= |found| && found[from..][..|chunk|] == chunk
      requires db.notifications == Sweep(rows, db.users, found, world, notificationService.maxRetries, now, from).rows
      modifies db
      ensures db.Valid()
      ensures db.users == old(db.users) && db.nextId == old(db.nextId)
      ensures var before := Sweep(rows, db.users, found, world, notificationService.maxRetries, now, from);
        var after := Sweep(rows, db.users, found, world, notificationService.maxRetries, now, from + |chunk|);
        db.notifications == after.rows && before.deliveries + handedIds == after.deliveries
    {
      ghost var users := db.users;
      ghost var before := Sweep(rows, users, found, world, notificationService.maxRetries, now, from);
      handedIds := [];
      for j := 0 to |chunk|
        invariant db.Valid() && db.users == users && db.nextId == old(db.nextId)
        invariant db.notifications == Sweep(rows, users, found, world, notificationService.maxRetries, now, from + j).rows
        invariant before.deliveries + handedIds == Sweep(rows, users, found, world, notificationService.maxRetries, now, from + j).deliveries
      {
        assert chunk[j] == found[from + j];
        var handed := ProcessNotification(db, chunk[j], world(from + j), now, timestamp);
        if handed.Some? {
          handedIds := handedIds + [chunk[j].id];
        }
      }
    }

    /** Processes `found` one row after another and returns the ids of the
        rows handed to the gateway. */
    method ProcessInOrder(db: Database, found: seq<Notification>, world: nat -> Attempt, now: Instant, timestamp: string)
      returns (delivered: seq<NotificationId>)
      requires db.Valid()
      modifies db
      ensures db.Valid()
      ensures db.users == old(db.users) && db.nextId == old(db.nextId)
      ensures var t := Sweep(old(db.notifications), old(db.users), found, world, notificationService.maxRetries, now, |found|);
        db.notifications == t.rows && delivered == t.deliveries
    {
      ghost var rows, users := db.notifications, db.users;
      var maxRetries := notificationService.maxRetries;
      delivered := [];
      for i := 0 to |found|
        invariant db.Valid() && db.users == users && db.nextId == old(db.nextId)
        invariant db.notifications == Sweep(rows, users, found, world, maxRetries, now, i).rows
        invariant delivered == Sweep(rows, users, found, world, maxRetries, now, i).deliveries
      {
        var handed := ProcessNotification(db, found[i], world(i), now, timestamp);
        if handed.Some? {
          delivered := delivered + [found[i].id];
        }
      }
    }

    /** The dispatch tick over the rows `found` that the dispatch query
        returned, processed in chunks of `ConcurrencyLimit`. */
    method ProcessScheduledNotifications(db: Database, found: seq<Notification>, world: nat -> Attempt, now: Instant, timestamp: string)
      returns (delivered: seq<NotificationId>)
      requires db.Valid()
      requires IsQueryResult(found, db.notifications, DispatchFilter(db.users, now))
      modifies db
      ensures db.Valid()
      ensures db.users == old(db.users) && db.nextId == old(db.nextId)
      ensures SweptTo(old(db.notifications), db.notifications, delivered,
                      Sweep(old(db.notifications), old(db.users), found, world, notificationService.maxRetries, now, |found|))
      ensures TransactionsOpen(world, |found|) ==>
        forall id :: id in db.notifications ==> !DueForDispatch(db.notifications[id], db.users, now)
    {
      ghost var rows, users := db.notifications, db.users;
      delivered := ProcessInChunks(db, found, world, now, timestamp);
      SweepClaimsAtMostOnce(rows, users, found, world, notificationService.maxRetries, now, |found|);
      FiltersSelectPending(users, now, config.maxRetryAttempts);
      if TransactionsOpen(world, |found|) {
        TickLeavesNothingDue(rows, users, found, world, notificationService.maxRetries, now, DispatchFilter(users, now));
      }
    }

    /** The recovery tick over the rows `found` that the recovery query
        returned, one after another. */
    method ProcessMissedNotifications(db: Database, found: seq<Notification>, world: nat -> Attempt, now: Instant, timestamp: string)
      returns (delivered: seq<NotificationId>)
      requires db.Valid()
      requires IsQueryResult(found, db.notifications, RecoveryFilter(db.users, now, config.maxRetryAttempts))
      modifies db
      ensures db.Valid()
      ensures db.users == old(db.users) && db.nextId == old(db.nextId)
      ensures SweptTo(old(db.notifications), db.notifications, delivered,
                      Sweep(old(db.notifications), old(db.users), found, world, notificationService.maxRetries, now, |found|))
      ensures TransactionsOpen(world, |found|) ==>
        forall id :: id in db.notifications ==> !DueForRecovery(db.notifications[id], db.users, now, config.maxRetryAttempts)
    {
      ghost var rows, users := db.notifications, db.users;
      delivered := ProcessInOrder(db, found, world, now, timestamp);
      SweepClaimsAtMostOnce(rows, users, found, world, notificationService.maxRetries, now, |found|);
      FiltersSelectPending(users, now, config.maxRetryAttempts);
      if TransactionsOpen(world, |found|) {
        TickLeavesNothingDue(rows, users, found, world, notificationService.maxRetries, now, RecoveryFilter(users, now, config.maxRetryAttempts));
      }
    }

    /** The running flag and the pending and failed counts. */
    method GetStatus(db: Database) returns (running: bool, pendingNotifications: nat, failedNotifications: nat)
      ensures running == isRunning
      ensures pendingNotifications == |WithStatus(db.notifications, Pending)|
      ensures failedNotifications == |WithStatus(db.notifications, Failed)|
      ensures pendingNotifications + failedNotifications <= |db.notifications|
    {
      running := isRunning;
      pendingNotifications := CountStatus(db.notifications, Pending);
      failedNotifications := CountStatus(db.notifications, Failed);
      StatusCountsPartition(db.notifications);
    }
  }
}
