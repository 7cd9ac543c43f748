/**
 * The user side of the notification system: the occurrence planner that
 * inserts a user's birthday notifications for the current year and the
 * four following ones, the guards of user creation, and the re-plan that
 * an update of the birthday or the time zone triggers.
 *
 * Calendar arithmetic (the server-local year of an instant, a birthday
 * moved to a given year, 09:00 of a day in a named zone, and which zone
 * names exist) is taken as uninterpreted functions in a `Calendar`.
 */
module Users {
  import opened Wrappers
  import opened Models

  /** Number of consecutive years the planner covers, the current one included. */
  const Horizon := 5

  /** The calendar operations the planner relies on. `onYear(b, y)` is the
      birthday `b` moved to year `y` (server-local midnight); `nineLocal(d, z)`
      is 09:00:00.000 of instant `d`'s day in zone `z`, as an instant. */
  datatype Calendar = Calendar(
    yearOf: Instant -> int,
    onYear: (Date, int) -> Instant,
    nineLocal: (Instant, string) -> Instant,
    isZone: string -> bool)

  /** The instant planned for year `currentYear + offset`, if the birthday
      moved to that year is strictly after `now`. */
  function Candidate(cal: Calendar, birthday: Date, zone: string, now: Instant, offset: nat): Option<Instant> {
    var day := BirthdayIn(cal, birthday, now, offset);
    if day > now then Some(cal.nineLocal(day, zone)) else None
  }

  /** The birthday moved to year `currentYear + offset`. */
  function BirthdayIn(cal: Calendar, birthday: Date, now: Instant, offset: nat): Instant {
    cal.onYear(birthday, cal.yearOf(now) + offset)
  }

  /** Some row of `userId` is scheduled at `at` (the duplicate lookup). */
  predicate HasRow(rows: Table, userId: UserId, at: Instant) {
    exists id | id in rows :: rows[id].userId == userId && rows[id].scheduledDate == at
  }

  /** A freshly planned row. */
  function Fresh(id: NotificationId, userId: UserId, at: Instant): Notification {
    Notification(id, userId, at, None, Pending, 0, None)
  }

  /** Row `r` is one the planner creates for `userId` with id `id`: pending,
      no retries, nothing sent and no error, at the planned instant of one
      of the `Horizon` years. */
  predicate Planned(r: Notification, id: NotificationId, userId: UserId, cal: Calendar, birthday: Date, zone: string, now: Instant) {
    && r == Fresh(id, userId, r.scheduledDate)
    && exists offset: nat :: offset < Horizon && Candidate(cal, birthday, zone, now, offset) == Some(r.scheduledDate)
  }

  /** Every id in `rows` is below the counter, so the counter is fresh. */
  ghost predicate Below(rows: Table, nextId: nat) {
    forall id :: id in rows ==> id < nextId
  }

  /** `after` holds every row of `before`, unchanged. */
  ghost predicate Extends(before: Table, after: Table) {
    before.Keys <= after.Keys && forall id :: id in before ==> after[id] == before[id]
  }

  datatype PlanState = PlanState(rows: Table, nextId: nat)

  /** The table and id counter after planning the years `offset < k`. */
  function Plan(rows: Table, nextId: nat, userId: UserId, cal: Calendar, birthday: Date, zone: string, now: Instant, k: nat): (p: PlanState)
    requires Below(rows, nextId)
    ensures nextId <= p.nextId <= nextId + k
    ensures Below(p.rows, p.nextId)
  {
    if k == 0 then PlanState(rows, nextId)
    else
      var s := Plan(rows, nextId, userId, cal, birthday, zone, now, k - 1);
      var c := Candidate(cal, birthday, zone, now, k - 1);
      if c.Some? && !HasRow(s.rows, userId, c.value) then
        PlanState(s.rows[s.nextId := Fresh(s.nextId, userId, c.value)], s.nextId + 1)
      else s
  }

  /** Planning keeps every existing row as it is and adds at most one row per year. */
  lemma {:induction false} PlanExtends(rows: Table, nextId: nat, userId: UserId, cal: Calendar, birthday: Date, zone: string, now: Instant, k: nat)
    requires Below(rows, nextId)
    ensures var p := Plan(rows, nextId, userId, cal, birthday, zone, now, k);
      Extends(rows, p.rows) && |p.rows| <= |rows| + k
  {
    if k > 0 {
      PlanExtends(rows, nextId, userId, cal, birthday, zone, now, k - 1);
      var s := Plan(rows, nextId, userId, cal, birthday, zone, now, k - 1);
      assert s.nextId !in s.rows;
    }
  }

  /** Every row that planning adds has a fresh id and is a planned row. */
  lemma {:induction false} PlanAddsPlanned(rows: Table, nextId: nat, userId: UserId, cal: Calendar, birthday: Date, zone: string, now: Instant, k: nat)
    requires Below(rows, nextId) && k <= Horizon
    ensures var p := Plan(rows, nextId, userId, cal, birthday, zone, now, k);
      forall id :: id in p.rows && id !in rows ==>
        nextId <= id < p.nextId && Planned(p.rows[id], id, userId, cal, birthday, zone, now)
  {
    if k > 0 {
      PlanAddsPlanned(rows, nextId, userId, cal, birthday, zone, now, k - 1);
      var s := Plan(rows, nextId, userId, cal, birthday, zone, now, k - 1);
      var c := Candidate(cal, birthday, zone, now, k - 1);
      if c.Some? && !HasRow(s.rows, userId, c.value) {
        var p := Plan(rows, nextId, userId, cal, birthday, zone, now, k);
        assert Planned(p.rows[s.nextId], s.nextId, userId, cal, birthday, zone, now);
      }
    }
  }

  /** After planning, every year whose birthday is still ahead has a row of
      this user at its planned instant. */
  lemma {:induction false} PlanCovers(rows: Table, nextId: nat, userId: UserId, cal: Calendar, birthday: Date, zone: string, now: Instant, k: nat)
    requires Below(rows, nextId)
    ensures var p := Plan(rows, nextId, userId, cal, birthday, zone, now, k);
      forall offset: nat :: offset < k && Candidate(cal, birthday, zone, now, offset).Some? ==>
        HasRow(p.rows, userId, Candidate(cal, birthday, zone, now, offset).value)
  {
    if k > 0 {
      PlanCovers(rows, nextId, userId, cal, birthday, zone, now, k - 1);
      var s := Plan(rows, nextId, userId, cal, birthday, zone, now, k - 1);
      var p := Plan(rows, nextId, userId, cal, birthday, zone, now, k);
      assert Extends(s.rows, p.rows) by {
        assert s.nextId !in s.rows;
      }
      forall offset: nat | offset < k && Candidate(cal, birthday, zone, now, offset).Some?
        ensures HasRow(p.rows, userId, Candidate(cal, birthday, zone, now, offset).value)
      {
        var at := Candidate(cal, birthday, zone, now, offset).value;
        if offset < k - 1 {
          var id :| id in s.rows && s.rows[id].userId == userId && s.rows[id].scheduledDate == at;
          assert p.rows[id] == s.rows[id];
        } else if !HasRow(s.rows, userId, at) {
          assert p.rows[s.nextId].scheduledDate == at;
        }
      }
    }
  }

  /** Inserting a row under a fresh id, at an instant its user has no row
      at yet, keeps the rows keyed and the index unique. */
  lemma InsertKeepsIndex(rows: Table, r: Notification)
    requires Keyed(rows) && Unique(rows) && r.id !in rows && !HasRow(rows, r.userId, r.scheduledDate)
    ensures Keyed(rows[r.id := r]) && Unique(rows[r.id := r])
  {
  }

  /** Planning keeps the rows keyed by their ids and the unique index on
      (userId, scheduledDate). */
  lemma {:induction false} PlanKeepsIndex(rows: Table, nextId: nat, userId: UserId, cal: Calendar, birthday: Date, zone: string, now: Instant, k: nat)
    requires Keyed(rows) && Unique(rows) && Below(rows, nextId)
    ensures Keyed(Plan(rows, nextId, userId, cal, birthday, zone, now, k).rows)
    ensures Unique(Plan(rows, nextId, userId, cal, birthday, zone, now, k).rows)
  {
    if k > 0 {
      PlanKeepsIndex(rows, nextId, userId, cal, birthday, zone, now, k - 1);
      var s := Plan(rows, nextId, userId, cal, birthday, zone, now, k - 1);
      var c := Candidate(cal, birthday, zone, now, k - 1);
      if c.Some? && !HasRow(s.rows, userId, c.value) {
        InsertKeepsIndex(s.rows, Fresh(s.nextId, userId, c.value));
      }
    }
  }

  /** When every year still ahead already has its row, planning adds nothing. */
  lemma {:induction false} PlanNoOpWhenCovered(rows: Table, nextId: nat, userId: UserId, cal: Calendar, birthday: Date, zone: string, now: Instant, k: nat)
    requires Below(rows, nextId)
    requires forall offset: nat :: offset < k && Candidate(cal, birthday, zone, now, offset).Some? ==>
               HasRow(rows, userId, Candidate(cal, birthday, zone, now, offset).value)
    ensures Plan(rows, nextId, userId, cal, birthday, zone, now, k) == PlanState(rows, nextId)
  {
    if k > 0 {
      PlanNoOpWhenCovered(rows, nextId, userId, cal, birthday, zone, now, k - 1);
    }
  }

  /** Running the planner twice with the same inputs and clock: the second
      run adds nothing. */
  lemma PlanIdempotent(rows: Table, nextId: nat, userId: UserId, cal: Calendar, birthday: Date, zone: string, now: Instant)
    requires Below(rows, nextId)
    ensures var p := Plan(rows, nextId, userId, cal, birthday, zone, now, Horizon);
      Plan(p.rows, p.nextId, userId, cal, birthday, zone, now, Horizon) == p
  {
    var p := Plan(rows, nextId, userId, cal, birthday, zone, now, Horizon);
    PlanCovers(rows, nextId, userId, cal, birthday, zone, now, Horizon);
    PlanNoOpWhenCovered(p.rows, p.nextId, userId, cal, birthday, zone, now, Horizon);
  }

  /** Only years whose birthday is strictly after `now` get a row, at 09:00
      of that day in the user's zone. */
  lemma OnlyFutureYearsPlanned(rows: Table, nextId: nat, userId: UserId, cal: Calendar, birthday: Date, zone: string, now: Instant, id: NotificationId)
    requires Below(rows, nextId)
    requires id in Plan(rows, nextId, userId, cal, birthday, zone, now, Horizon).rows && id !in rows
    ensures var r := Plan(rows, nextId, userId, cal, birthday, zone, now, Horizon).rows[id];
      exists offset: nat :: offset < Horizon
        && BirthdayIn(cal, birthday, now, offset) > now
        && r.scheduledDate == cal.nineLocal(BirthdayIn(cal, birthday, now, offset), zone)
  {
    PlanAddsPlanned(rows, nextId, userId, cal, birthday, zone, now, Horizon);
    var r := Plan(rows, nextId, userId, cal, birthday, zone, now, Horizon).rows[id];
    var offset: nat :| offset < Horizon && Candidate(cal, birthday, zone, now, offset) == Some(r.scheduledDate);
  }

  /** The rows that the re-plan deletes are the user's pending ones. */
  function DropPending(rows: Table, userId: UserId): (kept: Table)
    ensures forall id :: id in kept <==> id in rows && (rows[id].userId != userId || rows[id].status != Pending)
    ensures forall id :: id in kept ==> kept[id] == rows[id]
  {
    map id | id in rows && (rows[id].userId != userId || rows[id].status != Pending) :: rows[id]
  }

  /** A re-plan keeps every row of other users and every non-pending row of
      this user as it was. */
  lemma ReplanKeepsOthers(rows: Table, nextId: nat, userId: UserId, cal: Calendar, birthday: Date, zone: string, now: Instant, id: NotificationId)
    requires Below(rows, nextId)
    requires id in rows && (rows[id].userId != userId || rows[id].status != Pending)
    ensures var p := Plan(DropPending(rows, userId), nextId, userId, cal, birthday, zone, now, Horizon);
      id in p.rows && p.rows[id] == rows[id]
  {
    PlanExtends(DropPending(rows, userId), nextId, userId, cal, birthday, zone, now, Horizon);
  }

  /** After a re-plan, every pending row of the user is one the planner created. */
  lemma ReplanLeavesOnlyPlannedPending(rows: Table, nextId: nat, userId: UserId, cal: Calendar, birthday: Date, zone: string, now: Instant, id: NotificationId)
    requires Below(rows, nextId)
    requires var p := Plan(DropPending(rows, userId), nextId, userId, cal, birthday, zone, now, Horizon);
      id in p.rows && p.rows[id].userId == userId && p.rows[id].status == Pending
    ensures var p := Plan(DropPending(rows, userId), nextId, userId, cal, birthday, zone, now, Horizon);
      id !in rows || rows[id].status != Pending || rows[id].userId != userId
    ensures var p := Plan(DropPending(rows, userId), nextId, userId, cal, birthday, zone, now, Horizon);
      Planned(p.rows[id], id, userId, cal, birthday, zone, now)
  {
    PlanExtends(DropPending(rows, userId), nextId, userId, cal, birthday, zone, now, Horizon);
    PlanAddsPlanned(DropPending(rows, userId), nextId, userId, cal, birthday, zone, now, Horizon);
  }

  // ---------------------------------------------------------------------
  // Requests

  datatype CreateUserRequest = CreateUserRequest(firstName: string, lastName: string, birthday: Date, location: string, timezone: string)

  /** The optional fields of an update; `None` is an absent field. */
  datatype UpdateUserRequest = UpdateUserRequest(
    firstName: Option<string>,
    lastName: Option<string>,
    birthday: Option<Date>,
    location: Option<string>,
    timezone: Option<string>)

  datatype Reply = Created(id: UserId) | Updated | NotFound | InvalidTimezone | Conflict

  /** A field counts as given when it is present and not the empty string. */
  predicate Given(field: Option<string>) {
    field.Some? && field.value != ""
  }

  function Pick(field: Option<string>, stored: string): string {
    if Given(field) then field.value else stored
  }

  /** The stored user after an update: given fields replace stored ones. */
  function Apply(u: User, req: UpdateUserRequest): (v: User)
    ensures v.id == u.id
    ensures v.firstName == (if Given(req.firstName) then req.firstName.value else u.firstName)
    ensures v.lastName == (if Given(req.lastName) then req.lastName.value else u.lastName)
    ensures v.location == (if Given(req.location) then req.location.value else u.location)
    ensures v.timezone == (if Given(req.timezone) then req.timezone.value else u.timezone)
    ensures v.birthday == (if req.birthday.Some? then req.birthday.value else u.birthday)
  {
    User(u.id, Pick(req.firstName, u.firstName), Pick(req.lastName, u.lastName),
         if req.birthday.Some? then req.birthday.value else u.birthday,
         Pick(req.location, u.location), Pick(req.timezone, u.timezone))
  }

  /** Some stored user has this first name, last name and birthday. */
  predicate Duplicate(users: map<UserId, User>, req: CreateUserRequest) {
    exists id | id in users :: users[id].firstName == req.firstName && users[id].lastName == req.lastName && users[id].birthday == req.birthday
  }

  /** Inserts a pending row for each of the next `Horizon` years whose
      birthday is still ahead and which has no row at that instant yet. */
  method ScheduleBirthdayNotifications(db: Database, userId: UserId, birthday: Date, zone: string, now: Instant, cal: Calendar)
    requires db.Valid()
    modifies db
    ensures db.Valid()
    ensures db.users == old(db.users)
    ensures PlanState(db.notifications, db.nextId) == Plan(old(db.notifications), old(db.nextId), userId, cal, birthday, zone, now, Horizon)
  {
    ghost var rows, first := db.notifications, db.nextId;
    PlanKeepsIndex(rows, first, userId, cal, birthday, zone, now, Horizon);
    for offset := 0 to Horizon
      invariant PlanState(db.notifications, db.nextId) == Plan(rows, first, userId, cal, birthday, zone, now, offset)
      invariant db.users == old(db.users) && db.nextId >= first
    {
      var day := cal.onYear(birthday, cal.yearOf(now) + offset);
      if day > now {
        var at := cal.nineLocal(day, zone);
        var existing := HasRow(db.notifications, userId, at);
        if !existing {
          db.notifications := db.notifications[db.nextId := Fresh(db.nextId, userId, at)];
          db.nextId := db.nextId + 1;
        }
      }
    }
    PlanKeepsIndex(rows, first, userId, cal, birthday, zone, now, Horizon);
  }

  /** Creates a user and plans their notifications, unless the zone is
      unknown or a user with the same names and birthday exists. */
  method CreateUser(db: Database, req: CreateUserRequest, now: Instant, cal: Calendar) returns (reply: Reply)
    requires db.Valid()
    modifies db
    ensures db.Valid()
    ensures !cal.isZone(req.timezone) ==> reply == InvalidTimezone
    ensures cal.isZone(req.timezone) && Duplicate(old(db.users), req) ==> reply == Conflict
    ensures reply == InvalidTimezone || reply == Conflict ==>
      db.users == old(db.users) && db.notifications == old(db.notifications) && db.nextId == old(db.nextId)
    ensures cal.isZone(req.timezone) && !Duplicate(old(db.users), req) ==>
      && reply == Created(old(db.nextId))
      && db.users == old(db.users)[reply.id := User(reply.id, req.firstName, req.lastName, req.birthday, req.location, req.timezone)]
      && PlanState(db.notifications, db.nextId)
           == Plan(old(db.notifications), old(db.nextId) + 1, reply.id, cal, req.birthday, req.timezone, now, Horizon)
  {
    if !cal.isZone(req.timezone) {
      return InvalidTimezone;
    }
    if Duplicate(db.users, req) {
      return Conflict;
    }
    var id := db.nextId;
    db.users := db.users[id := User(id, req.firstName, req.lastName, req.birthday, req.location, req.timezone)];
    db.nextId := db.nextId + 1;
    ScheduleBirthdayNotifications(db, id, req.birthday, req.timezone, now, cal);
    reply := Created(id);
  }

  /** Updates the given fields of a user; when the birthday or the zone is
      given, deletes the user's pending rows and plans again from the
      updated values. */
  method UpdateUser(db: Database, id: UserId, req: UpdateUserRequest, now: Instant, cal: Calendar) returns (reply: Reply)
    requires db.Valid()
    modifies db
    ensures db.Valid()
    ensures reply == NotFound <==> id !in old(db.users)
    ensures reply == InvalidTimezone <==> id in old(db.users) && Given(req.timezone) && !cal.isZone(req.timezone.value)
    ensures reply == Updated <==> id in old(db.users) && !(Given(req.timezone) && !cal.isZone(req.timezone.value))
    ensures reply == NotFound || reply == InvalidTimezone ==>
      db.users == old(db.users) && db.notifications == old(db.notifications) && db.nextId == old(db.nextId)
    ensures reply == Updated ==>
      && id in old(db.users)
      && db.users == old(db.users)[id := Apply(old(db.users)[id], req)]
      && (req.birthday.Some? || Given(req.timezone) ==>
            PlanState(db.notifications, db.nextId)
              == Plan(DropPending(old(db.notifications), id), old(db.nextId), id, cal,
                      db.users[id].birthday, db.users[id].timezone, now, Horizon))
      && (!(req.birthday.Some? || Given(req.timezone)) ==>
            db.notifications == old(db.notifications) && db.nextId == old(db.nextId))
    ensures reply in {NotFound, InvalidTimezone, Updated}
  {
    if id !in db.users {
      return NotFound;
    }
    if Given(req.timezone) && !cal.isZone(req.timezone.value) {
      return InvalidTimezone;
    }
    var user := Apply(db.users[id], req);
    db.users := db.users[id := user];
    if req.birthday.Some? || Given(req.timezone) {
      db.notifications := DropPending(db.notifications, id);
      ScheduleBirthdayNotifications(db, id, user.birthday, user.timezone, now, cal);
    }
    reply := Updated;
  }
}
