/**
 * The schedule service (`ScheduleService`): create, read, list, update,
 * status writes and deletion over the `schedules` collection.
 */
module Schedules {
  import opened Common
  import opened ScheduleSchema
  import Store

  /** Every stored schedule carries its own document id in its `id` field. */
  predicate Keyed(m: map<string, Schedule>) {
    forall k :: k in m ==> m[k].id == k
  }

  /** The ordering key of `get_schedules_by_user`: the start time. */
  function StartKey(s: Schedule): real {
    s.startTime as real
  }

  /** The filter of `get_schedules_by_user`: the user's schedules, with the given status if one is given. */
  predicate OwnedWith(userId: string, status: Option<ScheduleStatus>, s: Schedule) {
    s.userId == userId && (status.Some? ==> s.status == status.value)
  }

  /** The supplied value of an optional update field, or the stored one. */
  function Pick<T>(supplied: Option<T>, stored: T): T {
    if supplied.Some? then supplied.value else stored
  }

  // ---------------------------------------------------------------------
  // Pure decisions
  // ---------------------------------------------------------------------

  /** `update_schedule`'s merge: only supplied fields change, and `updated_at` is stamped. */
  function ApplyUpdate(s: Schedule, u: ScheduleUpdate, now: Time): (r: Schedule)
    ensures r.id == s.id && r.userId == s.userId && r.createdAt == s.createdAt && r.favorite == s.favorite
    ensures r.status == s.status && r.arrivedAt == s.arrivedAt && r.departedAt == s.departedAt
    ensures r.updatedAt == now
    ensures r.startTime == Pick(u.startTime, s.startTime) && r.endTime == Pick(u.endTime, s.endTime)
    ensures u == EmptyUpdate ==> r == s.(updatedAt := now)
    ensures ValidSchedule(s) && ValidUpdate(u) ==> ValidSchedule(r)
  {
    s.(destinationName := Pick(u.destinationName, s.destinationName),
       destinationAddress := Pick(u.destinationAddress, s.destinationAddress),
       destination := Pick(u.destination, s.destination),
       geofenceRadius := Pick(u.geofenceRadius, s.geofenceRadius),
       notifyTo := Pick(u.notifyTo, s.notifyTo),
       startTime := Pick(u.startTime, s.startTime),
       endTime := Pick(u.endTime, s.endTime),
       recurrence := if u.recurrence.Some? then u.recurrence else s.recurrence,
       notifyOnArrival := Pick(u.notifyOnArrival, s.notifyOnArrival),
       notifyAfterMinutes := Pick(u.notifyAfterMinutes, s.notifyAfterMinutes),
       notifyOnDeparture := Pick(u.notifyOnDeparture, s.notifyOnDeparture),
       updatedAt := now)
  }

  /** Applying the same update twice at the same instant is the same as applying it once. */
  lemma ApplyUpdateIdempotent(s: Schedule, u: ScheduleUpdate, now: Time)
    ensures ApplyUpdate(ApplyUpdate(s, u, now), u, now) == ApplyUpdate(s, u, now)
  {
  }

  /**
   * The outcome of `update_schedule`: missing, foreign, or a merged window
   * that is not ordered are refused; otherwise the merged document.
   */
  function UpdateResult(m: map<string, Schedule>, id: string, userId: string, u: ScheduleUpdate, now: Time)
    : (r: Result<Schedule>)
    ensures id !in m <==> r == Err(NotFound)
    ensures id in m && m[id].userId != userId <==> r == Err(Forbidden)
    ensures r == Err(InvalidTimeWindow) <==>
      id in m && m[id].userId == userId && Pick(u.startTime, m[id].startTime) >= Pick(u.endTime, m[id].endTime)
    ensures r.Ok? ==> id in m && r.value == ApplyUpdate(m[id], u, now) && r.value.startTime < r.value.endTime
  {
    if id !in m then Err(NotFound)
    else if m[id].userId != userId then Err(Forbidden)
    else if Pick(u.startTime, m[id].startTime) >= Pick(u.endTime, m[id].endTime) then Err(InvalidTimeWindow)
    else Ok(ApplyUpdate(m[id], u, now))
  }

  /**
   * `update_schedule_status`'s write: the requested status and `updated_at`
   * always, each timestamp only when one is passed, nothing else.
   */
  function StatusUpdate(s: Schedule, status: ScheduleStatus, arrivedAt: Option<Time>, departedAt: Option<Time>, now: Time)
    : (r: Schedule)
    ensures r.status == status && r.updatedAt == now
    ensures r.arrivedAt == (if arrivedAt.Some? then arrivedAt else s.arrivedAt)
    ensures r.departedAt == (if departedAt.Some? then departedAt else s.departedAt)
    ensures r.(status := s.status, updatedAt := s.updatedAt, arrivedAt := s.arrivedAt, departedAt := s.departedAt) == s
  {
    s.(status := status, updatedAt := now,
       arrivedAt := if arrivedAt.Some? then arrivedAt else s.arrivedAt,
       departedAt := if departedAt.Some? then departedAt else s.departedAt)
  }

  /** The write does not look at the stored status: any status can be written over any other. */
  lemma StatusUpdateIgnoresStored(s: Schedule, t: Schedule, status: ScheduleStatus, now: Time)
    requires s == t.(status := s.status)
    ensures StatusUpdate(s, status, None, None, now) == StatusUpdate(t, status, None, None, now)
  {
  }

  // ---------------------------------------------------------------------
  // The service methods
  // ---------------------------------------------------------------------

  /**
   * `create_schedule`: refuses an unordered window; otherwise stores and
   * returns a new ACTIVE schedule under a fresh id.
   */
  method CreateSchedule(db: Store.Db, userId: string, c: ScheduleCreate, now: Time) returns (r: Result<Schedule>)
    modifies db`schedules
    ensures c.startTime >= c.endTime ==> r == Err(InvalidTimeWindow) && db.schedules == old(db.schedules)
    ensures c.startTime < c.endTime ==>
      && r.Ok? && r.value.id !in old(db.schedules)
      && r.value == NewSchedule(r.value.id, userId, c, now)
      && db.schedules == old(db.schedules)[r.value.id := r.value]
  {
    if c.startTime >= c.endTime {
      return Err(InvalidTimeWindow);
    }
    var id := FreshKey(db.schedules.Keys);
    var s := NewSchedule(id, userId, c, now);
    db.schedules := db.schedules[id := s];
    r := Ok(s);
  }

  /** `get_schedule_by_id`: None when absent, refused for another user's schedule. */
  method GetScheduleById(db: Store.Db, id: string, userId: string) returns (r: Result<Option<Schedule>>)
    ensures id !in db.schedules ==> r == Ok(None)
    ensures id in db.schedules && db.schedules[id].userId != userId ==> r == Err(Forbidden)
    ensures id in db.schedules && db.schedules[id].userId == userId ==> r == Ok(Some(db.schedules[id]))
  {
    if id !in db.schedules {
      return Ok(None);
    }
    var s := db.schedules[id];
    if s.userId != userId {
      return Err(Forbidden);
    }
    r := Ok(Some(s));
  }

  /**
   * `get_schedules_by_user`: exactly the user's schedules (with the given
   * status, if any), latest start first.
   */
  method GetSchedulesByUser(db: Store.Db, userId: string, status: Option<ScheduleStatus>) returns (r: seq<Schedule>)
    ensures forall s :: s in r <==> s in db.schedules.Values && OwnedWith(userId, status, s)
    ensures |r| == |KeysWhere(db.schedules, s => OwnedWith(userId, status, s))|
    ensures SortedBy(r, StartKey, true)
    ensures Keyed(db.schedules) ==> Distinct(r)
  {
    r := SelectSorted(db.schedules, s => OwnedWith(userId, status, s), StartKey, true);
    if Keyed(db.schedules) {
      assert Injective(db.schedules);
    }
  }

  /**
   * `xs` is a listing `get_schedules_by_user(userId, status)` can return
   * for the store `m`: each matching document once, latest start first.
   */
  ghost predicate Listed(m: map<string, Schedule>, userId: string, status: ScheduleStatus, xs: seq<Schedule>) {
    && (forall s :: s in xs <==> s in m.Values && s.userId == userId && s.status == status)
    && Distinct(xs)
    && SortedBy(xs, StartKey, true)
  }

  /** `get_active_schedules`: exactly the user's ACTIVE schedules, latest start first. */
  method GetActiveSchedules(db: Store.Db, userId: string) returns (r: seq<Schedule>)
    ensures forall s :: s in r <==> s in db.schedules.Values && s.userId == userId && s.status == Active
    ensures SortedBy(r, StartKey, true)
    ensures Keyed(db.schedules) ==> Distinct(r)
  {
    r := GetSchedulesByUser(db, userId, Some(Active));
  }

  /** `update_schedule`: writes the merged document when `UpdateResult` accepts it. */
  method UpdateSchedule(db: Store.Db, id: string, userId: string, u: ScheduleUpdate, now: Time) returns (r: Result<Schedule>)
    modifies db`schedules
    ensures r == UpdateResult(old(db.schedules), id, userId, u, now)
    ensures r.Ok? ==> db.schedules == old(db.schedules)[id := r.value]
    ensures r.Err? ==> db.schedules == old(db.schedules)
  {
    if id !in db.schedules {
      return Err(NotFound);
    }
    var s := db.schedules[id];
    if s.userId != userId {
      return Err(Forbidden);
    }
    var start := if u.startTime.Some? then u.startTime.value else s.startTime;
    var end := if u.endTime.Some? then u.endTime.value else s.endTime;
    if start >= end {
      return Err(InvalidTimeWindow);
    }
    var updated := ApplyUpdate(s, u, now);
    db.schedules := db.schedules[id := updated];
    r := Ok(updated);
  }

  /** `update_schedule_status`: refused for a missing id, otherwise the unconditional write. */
  method UpdateScheduleStatus(
    db: Store.Db, id: string, status: ScheduleStatus, arrivedAt: Option<Time>, departedAt: Option<Time>, now: Time)
    returns (r: Result<Schedule>)
    modifies db`schedules
    ensures id !in old(db.schedules) <==> r.Err?
    ensures r.Err? ==> r.error == NotFound && db.schedules == old(db.schedules)
    ensures r.Ok? ==>
      && r.value == StatusUpdate(old(db.schedules)[id], status, arrivedAt, departedAt, now)
      && db.schedules == old(db.schedules)[id := r.value]
  {
    if id !in db.schedules {
      return Err(NotFound);
    }
    var s := StatusUpdate(db.schedules[id], status, arrivedAt, departedAt, now);
    db.schedules := db.schedules[id := s];
    r := Ok(s);
  }

  /** `delete_schedule`: refused for a missing or foreign schedule, otherwise removed. */
  method DeleteSchedule(db: Store.Db, id: string, userId: string) returns (r: Outcome)
    modifies db`schedules
    ensures id !in old(db.schedules) ==> r == Fail(NotFound)
    ensures id in old(db.schedules) && old(db.schedules)[id].userId != userId ==> r == Fail(Forbidden)
    ensures r.Pass? <==> id in old(db.schedules) && old(db.schedules)[id].userId == userId
    ensures r.Pass? ==> db.schedules == old(db.schedules) - {id}
    ensures r.Fail? ==> db.schedules == old(db.schedules)
  {
    if id !in db.schedules {
      return Fail(NotFound);
    }
    if db.schedules[id].userId != userId {
      return Fail(Forbidden);
    }
    db.schedules := db.schedules - {id};
    r := Pass;
  }
}
