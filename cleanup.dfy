/**
 * The retention service of the backend (`CleanupService`): the batch that
 * purges expired location samples and notification history rows, deletes
 * schedules that ended a day ago together with their samples and history,
 * the sweep that marks forgotten schedules EXPIRED, and the read-only
 * preview of what a purge would delete.
 */
module Cleanup {
  import opened Common
  import opened ScheduleSchema
  import opened LocationSchema
  import opened NotificationSchema
  import Locations
  import AutoNotification
  import Store

  // ---------------------------------------------------------------------
  // Deleting ended schedules with their samples and history
  // ---------------------------------------------------------------------

  /**
   * The test of `cleanup_expired_schedules`: at least 24 hours have passed
   * since the end time, whatever the status.  (The query's `end_time < now`
   * is implied.)
   */
  predicate Purgeable(s: Schedule, now: Time) {
    now - s.endTime >= RETENTION
  }

  /** The schedule ids whose samples and history rows the purge cascades to (an empty id cascades nowhere). */
  function PurgedIds(m: map<string, Schedule>, now: Time): set<string> {
    set k | k in m && Purgeable(m[k], now) && m[k].id != "" :: m[k].id
  }

  /** A sample recorded for one of `ids`. */
  predicate SampleOf(ids: set<string>, x: LocationSample) {
    x.scheduleId.Some? && x.scheduleId.value in ids
  }

  /** A history row written for one of `ids`. */
  predicate RowOf(ids: set<string>, r: HistoryRow) {
    r.scheduleId in ids
  }

  /** `_delete_related_location_history`: deletes the samples of one schedule; nothing for an empty id. */
  method DeleteRelatedLocationHistory(db: Store.Db, scheduleId: string) returns (count: nat)
    modifies db`locationHistory
    ensures scheduleId == "" ==> count == 0 && db.locationHistory == old(db.locationHistory)
    ensures scheduleId != "" ==>
      db.locationHistory == Without(old(db.locationHistory), x => SampleOf({scheduleId}, x))
    ensures scheduleId != "" ==>
      count == |KeysWhere(old(db.locationHistory), x => SampleOf({scheduleId}, x))|
  {
    if scheduleId == "" {
      return 0;
    }
    var kept, n := DeleteWhere(db.locationHistory, x => SampleOf({scheduleId}, x));
    db.locationHistory := kept;
    count := n;
  }

  /** `_delete_related_notification_history`: deletes the history rows of one schedule; nothing for an empty id. */
  method DeleteRelatedNotificationHistory(db: Store.Db, scheduleId: string) returns (count: nat)
    modifies db`notificationHistory
    ensures scheduleId == "" ==> count == 0 && db.notificationHistory == old(db.notificationHistory)
    ensures scheduleId != "" ==>
      db.notificationHistory == Without(old(db.notificationHistory), r => RowOf({scheduleId}, r))
    ensures scheduleId != "" ==>
      count == |KeysWhere(old(db.notificationHistory), r => RowOf({scheduleId}, r))|
  {
    if scheduleId == "" {
      return 0;
    }
    var kept, n := DeleteWhere(db.notificationHistory, r => RowOf({scheduleId}, r));
    db.notificationHistory := kept;
    count := n;
  }

  /** The samples left after cascading to the schedules `ids`. */
  ghost predicate SamplesCascaded(l0: map<string, LocationSample>, l: map<string, LocationSample>, ids: set<string>) {
    (forall k :: k in l <==> k in l0 && !SampleOf(ids, l0[k])) &&
    (forall k :: k in l ==> l[k] == l0[k])
  }

  /** The history rows left after cascading to the schedules `ids`. */
  ghost predicate RowsCascaded(h0: map<string, HistoryRow>, h: map<string, HistoryRow>, ids: set<string>) {
    (forall k :: k in h <==> k in h0 && !RowOf(ids, h0[k])) &&
    (forall k :: k in h ==> h[k] == h0[k])
  }

  /** The non-empty ids of the schedules stored under `done`. */
  function IdsOf(s0: map<string, Schedule>, done: set<string>): set<string> {
    set k | k in done && k in s0 && s0[k].id != "" :: s0[k].id
  }

  lemma {:induction false} IdsOfStep(s0: map<string, Schedule>, done: set<string>, k: string)
    requires k in s0
    ensures IdsOf(s0, done + {k}) == if s0[k].id != "" then IdsOf(s0, done) + {s0[k].id} else IdsOf(s0, done)
  {
    var ids' := if s0[k].id != "" then IdsOf(s0, done) + {s0[k].id} else IdsOf(s0, done);
    forall i | i in ids'
      ensures i in IdsOf(s0, done + {k})
    {
      if i !in IdsOf(s0, done) {
        assert s0[k].id == i;
      }
    }
  }

  lemma {:induction false} SamplesStep(l0: map<string, LocationSample>, l: map<string, LocationSample>, ids: set<string>,
                                       id: string, l1: map<string, LocationSample>)
    requires SamplesCascaded(l0, l, ids)
    requires l1 == Without(l, x => SampleOf({id}, x))
    ensures SamplesCascaded(l0, l1, ids + {id})
  {
  }

  lemma {:induction false} RowsStep(h0: map<string, HistoryRow>, h: map<string, HistoryRow>, ids: set<string>,
                                    id: string, h1: map<string, HistoryRow>)
    requires RowsCascaded(h0, h, ids)
    requires h1 == Without(h, r => RowOf({id}, r))
    ensures RowsCascaded(h0, h1, ids + {id})
  {
  }

  lemma {:induction false} SamplesDone(l0: map<string, LocationSample>, l: map<string, LocationSample>, ids: set<string>)
    requires SamplesCascaded(l0, l, ids)
    ensures l == Without(l0, x => SampleOf(ids, x))
  {
  }

  lemma {:induction false} RowsDone(h0: map<string, HistoryRow>, h: map<string, HistoryRow>, ids: set<string>)
    requires RowsCascaded(h0, h, ids)
    ensures h == Without(h0, r => RowOf(ids, r))
  {
  }

  /** What the purge loop has achieved after handling the schedules stored under `done`. */
  ghost predicate PurgeInv(s0: map<string, Schedule>, l0: map<string, LocationSample>, h0: map<string, HistoryRow>,
                           db: Store.Db, done: set<string>)
    reads db
  {
    (forall k :: k in db.schedules <==> k in s0 && k !in done) &&
    (forall k :: k in db.schedules ==> db.schedules[k] == s0[k]) &&
    SamplesCascaded(l0, db.locationHistory, IdsOf(s0, done)) &&
    RowsCascaded(h0, db.notificationHistory, IdsOf(s0, done))
  }

  /** One pass of the purge loop: the schedule under `k`, its samples and its history rows. */
  method PurgeOne(db: Store.Db, k: string, ghost s0: map<string, Schedule>, ghost l0: map<string, LocationSample>,
                  ghost h0: map<string, HistoryRow>, ghost done: set<string>)
    requires PurgeInv(s0, l0, h0, db, done)
    requires k in s0 && k !in done
    modifies db`schedules, db`locationHistory, db`notificationHistory
    ensures PurgeInv(s0, l0, h0, db, done + {k})
  {
    var s := db.schedules[k];
    ghost var ids := IdsOf(s0, done);
    IdsOfStep(s0, done, k);
    ghost var l, h := db.locationHistory, db.notificationHistory;
    var n1 := DeleteRelatedLocationHistory(db, s.id);
    var n2 := DeleteRelatedNotificationHistory(db, s.id);
    if s.id != "" {
      SamplesStep(l0, l, ids, s.id, db.locationHistory);
      RowsStep(h0, h, ids, s.id, db.notificationHistory);
    }
    db.schedules := db.schedules - {k};
  }

  lemma PurgeInit(db: Store.Db)
    ensures PurgeInv(db.schedules, db.locationHistory, db.notificationHistory, db, {})
  {
    assert IdsOf(db.schedules, {}) == {};
  }

  /** Once every purgeable schedule is handled, the store is the purge's result. */
  lemma {:induction false} PurgeDone(s0: map<string, Schedule>, l0: map<string, LocationSample>,
                                     h0: map<string, HistoryRow>, db: Store.Db, done: set<string>, now: Time)
    requires PurgeInv(s0, l0, h0, db, done)
    requires done == KeysWhere(s0, s => Purgeable(s, now))
    ensures db.schedules == Without(s0, s => Purgeable(s, now))
    ensures db.locationHistory == Without(l0, x => SampleOf(PurgedIds(s0, now), x))
    ensures db.notificationHistory == Without(h0, r => RowOf(PurgedIds(s0, now), r))
  {
    assert IdsOf(s0, done) == PurgedIds(s0, now);
    SamplesDone(l0, db.locationHistory, IdsOf(s0, done));
    RowsDone(h0, db.notificationHistory, IdsOf(s0, done));
  }

  /** One pass of the loop: schedule `k` and its related rows are deleted. */
  method PurgeNext(db: Store.Db, k: string, ghost s0: map<string, Schedule>, ghost l0: map<string, LocationSample>,
                   ghost h0: map<string, HistoryRow>, ghost matching: set<string>, todo: set<string>, count: nat)
    returns (todo': set<string>, count': nat)
    requires matching <= s0.Keys && todo <= matching && count + |todo| == |matching| && k in todo
    requires PurgeInv(s0, l0, h0, db, matching - todo)
    modifies db`schedules, db`locationHistory, db`notificationHistory
    ensures todo' == todo - {k} && todo' <= matching && count' + |todo'| == |matching|
    ensures PurgeInv(s0, l0, h0, db, matching - todo')
  {
    PurgeOne(db, k, s0, l0, h0, matching - todo);
    assert matching - (todo - {k}) == (matching - todo) + {k};
    todo', count' := todo - {k}, count + 1;
  }

  /**
   * `cleanup_expired_schedules`: deletes every schedule whose end time lies
   * 24 hours or more in the past, and with each one (when it has an id)
   * every location sample and notification history row recorded for it;
   * returns the number of schedules deleted.
   */
  method CleanupExpiredSchedules(db: Store.Db, now: Time) returns (count: nat)
    modifies db`schedules, db`locationHistory, db`notificationHistory
    ensures db.schedules == Without(old(db.schedules), s => Purgeable(s, now))
    ensures count == |KeysWhere(old(db.schedules), s => Purgeable(s, now))|
    ensures db.locationHistory == Without(old(db.locationHistory), x => SampleOf(PurgedIds(old(db.schedules), now), x))
    ensures db.notificationHistory == Without(old(db.notificationHistory), r => RowOf(PurgedIds(old(db.schedules), now), r))
  {
    ghost var s0, l0, h0 := db.schedules, db.locationHistory, db.notificationHistory;
    var matching := KeysWhere(db.schedules, s => Purgeable(s, now));
    var todo := matching;
    assert matching <= s0.Keys;
    PurgeInit(db);
    count := 0;
    while todo != {}
      invariant todo <= matching
      invariant count + |todo| == |matching|
      invariant PurgeInv(s0, l0, h0, db, matching - todo)
      decreases todo
    {
      var k :| k in todo;
      todo, count := PurgeNext(db, k, s0, l0, h0, matching, todo, count);
    }
    assert matching - todo == matching;
    PurgeDone(s0, l0, h0, db, matching, now);
  }

  // ---------------------------------------------------------------------
  // Marking forgotten schedules EXPIRED
  // ---------------------------------------------------------------------

  /** One query of `update_expired_schedules_status`: the given status and an end time before `now - 24h`. */
  predicate Overdue(s: Schedule, status: ScheduleStatus, now: Time) {
    s.status == status && s.endTime < now - RETENTION
  }

  /** What the sweep marks: an ACTIVE or ARRIVED schedule whose end time lies more than 24 hours back. */
  predicate Expirable(s: Schedule, now: Time) {
    Overdue(s, Active, now) || Overdue(s, Arrived, now)
  }

  /** The update the sweep writes to one schedule. */
  function Expire(s: Schedule, now: Time): (r: Schedule)
    ensures r.status == Expired && r.updatedAt == now
    ensures r.(status := s.status, updatedAt := s.updatedAt) == s
  {
    s.(status := Expired, updatedAt := now)
  }

  /** The schedules after one query's documents are updated. */
  function ExpireWith(m: map<string, Schedule>, status: ScheduleStatus, now: Time): map<string, Schedule> {
    map k | k in m :: if Overdue(m[k], status, now) then Expire(m[k], now) else m[k]
  }

  /** The schedules after the whole sweep. */
  function ExpireAll(m: map<string, Schedule>, now: Time): map<string, Schedule> {
    map k | k in m :: if Expirable(m[k], now) then Expire(m[k], now) else m[k]
  }

  /** The sweep's two passes together mark exactly the expirable schedules. */
  lemma {:induction false} ExpirePasses(m: map<string, Schedule>, now: Time)
    ensures ExpireWith(ExpireWith(m, Active, now), Arrived, now) == ExpireAll(m, now)
  {
    var m1 := ExpireWith(m, Active, now);
    var m2 := ExpireWith(m1, Arrived, now);
    forall k | k in m
      ensures m2[k] == ExpireAll(m, now)[k]
    {
      if Overdue(m[k], Active, now) {
        assert m1[k].status == Expired;
      } else {
        assert m1[k] == m[k];
      }
    }
  }

  /** ... and count each of them once. */
  lemma {:induction false} ExpirePassesCount(m: map<string, Schedule>, now: Time)
    ensures |KeysWhere(m, s => Overdue(s, Active, now))| + |KeysWhere(ExpireWith(m, Active, now), s => Overdue(s, Arrived, now))|
         == |KeysWhere(m, s => Expirable(s, now))|
  {
    var m1 := ExpireWith(m, Active, now);
    var a := KeysWhere(m, s => Overdue(s, Active, now));
    var b := KeysWhere(m1, s => Overdue(s, Arrived, now));
    forall k | k in m
      ensures k in b <==> Overdue(m[k], Arrived, now)
    {
      if Overdue(m[k], Active, now) {
        assert m1[k].status == Expired;
      } else {
        assert m1[k] == m[k];
      }
    }
    assert b == KeysWhere(m, s => Overdue(s, Arrived, now));
    assert a * b == {};
    assert a + b == KeysWhere(m, s => Expirable(s, now));
  }

  /** After the sweep nothing is left to expire, so a second sweep changes nothing and counts 0. */
  lemma {:induction false} ExpireAllIdempotent(m: map<string, Schedule>, now: Time)
    ensures KeysWhere(ExpireAll(m, now), s => Expirable(s, now)) == {}
    ensures ExpireAll(ExpireAll(m, now), now) == ExpireAll(m, now)
  {
    var m1 := ExpireAll(m, now);
    forall k | k in m1
      ensures !Expirable(m1[k], now)
    {
    }
  }

  /** The sweep leaves COMPLETED and EXPIRED schedules, and schedules ended within the last day, as they were. */
  lemma {:induction false} ExpireAllKeepsOthers(m: map<string, Schedule>, now: Time, k: string)
    requires k in m
    requires m[k].status == Completed || m[k].status == Expired || m[k].endTime >= now - RETENTION
    ensures k in ExpireAll(m, now) && ExpireAll(m, now)[k] == m[k]
  {
  }

  /** What one pass has done after handling the keys `done`. */
  ghost predicate ExpireInv(m0: map<string, Schedule>, m: map<string, Schedule>, status: ScheduleStatus, now: Time,
                            done: set<string>)
  {
    m.Keys == m0.Keys &&
    forall k :: k in m ==> m[k] == if k in done then Expire(m0[k], now) else m0[k]
  }

  lemma {:induction false} ExpireStep(m0: map<string, Schedule>, m: map<string, Schedule>, status: ScheduleStatus,
                                      now: Time, done: set<string>, k: string)
    requires ExpireInv(m0, m, status, now, done)
    requires k in m0 && k !in done
    ensures ExpireInv(m0, m[k := Expire(m[k], now)], status, now, done + {k})
  {
  }

  lemma {:induction false} ExpireDone(m0: map<string, Schedule>, m: map<string, Schedule>, status: ScheduleStatus, now: Time)
    requires ExpireInv(m0, m, status, now, KeysWhere(m0, s => Overdue(s, status, now)))
    ensures m == ExpireWith(m0, status, now)
  {
  }

  /** One query of `update_expired_schedules_status` and the loop over its documents. */
  method ExpireWithStatus(db: Store.Db, status: ScheduleStatus, now: Time) returns (count: nat)
    modifies db`schedules
    ensures db.schedules == ExpireWith(old(db.schedules), status, now)
    ensures count == |KeysWhere(old(db.schedules), s => Overdue(s, status, now))|
  {
    ghost var m0 := db.schedules;
    var matching := KeysWhere(db.schedules, s => Overdue(s, status, now));
    var todo := matching;
    count := 0;
    while todo != {}
      invariant todo <= matching
      invariant count + |todo| == |matching|
      invariant ExpireInv(m0, db.schedules, status, now, matching - todo)
      decreases todo
    {
      var k :| k in todo;
      ExpireStep(m0, db.schedules, status, now, matching - todo, k);
      db.schedules := db.schedules[k := Expire(db.schedules[k], now)];
      assert matching - (todo - {k}) == (matching - todo) + {k};
      count := count + 1;
      todo := todo - {k};
    }
    assert matching - todo == matching;
    ExpireDone(m0, db.schedules, status, now);
  }

  /**
   * `update_expired_schedules_status`: the ACTIVE pass, then the ARRIVED
   * pass; every expirable schedule becomes EXPIRED stamped `now`, and the
   * count is the number of schedules changed.
   */
  method UpdateExpiredSchedulesStatus(db: Store.Db, now: Time) returns (count: nat)
    modifies db`schedules
    ensures db.schedules == ExpireAll(old(db.schedules), now)
    ensures count == |KeysWhere(old(db.schedules), s => Expirable(s, now))|
  {
    ExpirePasses(db.schedules, now);
    ExpirePassesCount(db.schedules, now);
    var active := ExpireWithStatus(db, Active, now);
    var arrived := ExpireWithStatus(db, Arrived, now);
    count := active + arrived;
  }

  // ---------------------------------------------------------------------
  // The whole batch and its preview
  // ---------------------------------------------------------------------

  /** The three counts `cleanup_expired_data` reports. */
  datatype CleanupResults = CleanupResults(locationHistory: nat, notificationHistory: nat, expiredSchedules: nat)

  /** The figures `get_cleanup_stats` reports. */
  datatype CleanupStats = CleanupStats(locationHistoryCount: nat, notificationHistoryCount: nat,
                                       expiredSchedulesCount: nat, totalCleanupItems: nat)

  /**
   * `cleanup_expired_data`: the expired samples, then the expired history
   * rows, then the ended schedules with what is left of their samples and
   * rows; each count is the size of what its step's filter matched.
   */
  method CleanupExpiredData(db: Store.Db, now: Time) returns (r: CleanupResults)
    modifies db`schedules, db`locationHistory, db`notificationHistory
    ensures r.locationHistory == |KeysWhere(old(db.locationHistory), x => Locations.Expired(x, now))|
    ensures r.notificationHistory == |KeysWhere(old(db.notificationHistory), h => AutoNotification.RowExpired(h, now))|
    ensures r.expiredSchedules == |KeysWhere(old(db.schedules), s => Purgeable(s, now))|
    ensures db.schedules == Without(old(db.schedules), s => Purgeable(s, now))
    ensures db.locationHistory ==
      Without(Without(old(db.locationHistory), x => Locations.Expired(x, now)), x => SampleOf(PurgedIds(old(db.schedules), now), x))
    ensures db.notificationHistory ==
      Without(Without(old(db.notificationHistory), h => AutoNotification.RowExpired(h, now)), h => RowOf(PurgedIds(old(db.schedules), now), h))
  {
    var locations := Locations.CleanupOldLocations(db, now);
    var rows := AutoNotification.CleanupOldNotificationHistory(db, now);
    var schedules := CleanupExpiredSchedules(db, now);
    r := CleanupResults(locations, rows, schedules);
  }

  /**
   * `get_cleanup_stats`: counts, without deleting, what the three steps of
   * `cleanup_expired_data` would delete, and their total.
   */
  method GetCleanupStats(db: Store.Db, now: Time) returns (r: CleanupStats)
    ensures r.locationHistoryCount == |KeysWhere(db.locationHistory, x => Locations.Expired(x, now))|
    ensures r.notificationHistoryCount == |KeysWhere(db.notificationHistory, h => AutoNotification.RowExpired(h, now))|
    ensures r.expiredSchedulesCount == |KeysWhere(db.schedules, s => Purgeable(s, now))|
    ensures r.totalCleanupItems == r.locationHistoryCount + r.notificationHistoryCount + r.expiredSchedulesCount
  {
    var locations := Select(db.locationHistory, x => Locations.Expired(x, now));
    var rows := Select(db.notificationHistory, h => AutoNotification.RowExpired(h, now));
    var schedules := Select(db.schedules, s => Purgeable(s, now));
    r := CleanupStats(|locations|, |rows|, |schedules|, |locations| + |rows| + |schedules|);
  }

  /** The preview and the batch agree: run at the same moment, the batch deletes what the preview counted. */
  method PreviewThenCleanup(db: Store.Db, now: Time) returns (stats: CleanupStats, results: CleanupResults)
    modifies db`schedules, db`locationHistory, db`notificationHistory
    ensures results.locationHistory == stats.locationHistoryCount
    ensures results.notificationHistory == stats.notificationHistoryCount
    ensures results.expiredSchedules == stats.expiredSchedulesCount
  {
    stats := GetCleanupStats(db, now);
    results := CleanupExpiredData(db, now);
  }
}
