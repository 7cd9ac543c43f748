/**
 * The two tables of the notification system (users and birthday
 * notifications) and the store that holds them.
 *
 * Identifiers are natural numbers drawn from a counter (the system draws
 * random v4 UUIDs; only their freshness matters here) and instants are
 * integer milliseconds since the epoch.
 */
module Models {
  import opened Wrappers

  type Instant = int
  type UserId = nat
  type NotificationId = nat

  /** The status enum of the notification table. `Retrying` is the in-flight
      state a row holds between its claim and its verdict. */
  datatype Status = Pending | Sent | Failed | Retrying

  /** One row of the notification table; `retryCount` is never negative. */
  datatype Notification = Notification(
    id: NotificationId,
    userId: UserId,
    scheduledDate: Instant,
    sentAt: Option<Instant>,
    status: Status,
    retryCount: nat,
    errorMessage: Option<string>)

  /** A calendar date without time of day (the DATEONLY birthday column). */
  datatype Date = Date(year: int, month: int, day: int)

  datatype User = User(
    id: UserId,
    firstName: string,
    lastName: string,
    birthday: Date,
    location: string,
    timezone: string)

  type Table = map<NotificationId, Notification>

  /** Every row is stored under its own id. */
  ghost predicate Keyed(rows: Table) {
    forall k :: k in rows ==> rows[k].id == k
  }

  /** The unique index on (userId, scheduledDate). */
  ghost predicate Unique(rows: Table) {
    forall a, b :: a in rows && b in rows && a != b ==>
      rows[a].userId != rows[b].userId || rows[a].scheduledDate != rows[b].scheduledDate
  }

  /** `after` has the same rows as `before`, each with the same identity
      (id, owner and scheduled instant); only status fields may differ. */
  ghost predicate SameIdentity(before: Table, after: Table) {
    && before.Keys == after.Keys
    && forall k :: k in after ==>
         && after[k].id == before[k].id
         && after[k].userId == before[k].userId
         && after[k].scheduledDate == before[k].scheduledDate
  }

  lemma SameIdentityKeepsIndex(before: Table, after: Table)
    requires Keyed(before) && Unique(before) && SameIdentity(before, after)
    ensures Keyed(after) && Unique(after)
  {
  }

  /** Rewriting one row in place, with its identity kept, keeps the index
      and the key set. */
  lemma ReplaceKeepsIndex(rows: Table, id: NotificationId, r: Notification)
    requires Keyed(rows) && Unique(rows) && id in rows
    requires r.id == rows[id].id && r.userId == rows[id].userId && r.scheduledDate == rows[id].scheduledDate
    ensures Keyed(rows[id := r]) && Unique(rows[id := r]) && rows[id := r].Keys == rows.Keys
  {
  }

  /** The ids of the rows with status `s`. */
  function WithStatus(rows: Table, s: Status): set<NotificationId> {
    set k | k in rows && rows[k].status == s
  }

  /** `count(where: { status: s })`. */
  function CountStatus(rows: Table, s: Status): (n: nat)
    ensures n <= |rows|
  {
    var ids := WithStatus(rows, s);
    assert ids <= rows.Keys;
    SubsetCard(ids, rows.Keys);
    |ids|
  }

  lemma SubsetCard<K>(a: set<K>, b: set<K>)
    requires a <= b
    ensures |a| <= |b|
  {
    assert b == a + (b - a);
  }

  /** The relational store: both tables and the id counter. */
  class Database {
    var notifications: Table
    var users: map<UserId, User>
    var nextId: nat

    ghost predicate Valid()
      reads this
    {
      && Keyed(notifications)
      && Unique(notifications)
      && (forall k :: k in notifications ==> k < nextId)
      && (forall u :: u in users ==> u < nextId && users[u].id == u)
    }

    constructor ()
      ensures Valid()
      ensures notifications == map[] && users == map[] && nextId == 0
    {
      notifications := map[];
      users := map[];
      nextId := 0;
    }
  }
}
