/**
 * The retention Cloud Function of the backend: an hourly job and a
 * bearer-token HTTP endpoint that both run one cleanup, which deletes
 * expired location samples, expired notification history rows and EXPIRED
 * schedules that ended a day ago, in write batches of at most 500
 * documents, collecting a message for each step that fails.
 */
module CloudCleanup {
  import opened Common
  import opened ScheduleSchema
  import opened LocationSchema
  import opened NotificationSchema
  import Locations
  import AutoNotification
  import Store

  // ---------------------------------------------------------------------
  // Deleting in batches
  // ---------------------------------------------------------------------

  /** One `limit(BATCH_SIZE)` query: as many matching documents as the limit allows. */
  method TakeBatch<V>(m: map<string, V>, p: V -> bool, limit: nat) returns (batch: set<string>)
    ensures batch <= KeysWhere(m, p)
    ensures |batch| == if |KeysWhere(m, p)| < limit then |KeysWhere(m, p)| else limit
  {
    batch := {};
    var rest := KeysWhere(m, p);
    while rest != {} && |batch| < limit
      invariant batch !! rest && batch + rest == KeysWhere(m, p)
      invariant |batch| <= limit
      decreases rest
    {
      var k :| k in rest;
      batch := batch + {k};
      rest := rest - {k};
    }
  }

  /** Deleting a batch of matching documents removes exactly those from the matches. */
  lemma {:induction false} BatchShrinks<V>(m: map<string, V>, p: V -> bool, batch: set<string>)
    requires batch <= KeysWhere(m, p)
    ensures KeysWhere(m - batch, p) == KeysWhere(m, p) - batch
    ensures |KeysWhere(m - batch, p)| == |KeysWhere(m, p)| - |batch|
  {
    assert KeysWhere(m - batch, p) == KeysWhere(m, p) - batch;
  }

  /** What the batch loop keeps: only matching documents are gone, each counted once. */
  ghost predicate BatchInv<V>(m: map<string, V>, p: V -> bool, r: map<string, V>, total: nat, rounds: seq<nat>) {
    r.Keys <= m.Keys &&
    (forall k :: k in r ==> r[k] == m[k]) &&
    (forall k :: k in m && k !in r ==> p(m[k])) &&
    total + |KeysWhere(r, p)| == |KeysWhere(m, p)| &&
    total == Sum(rounds)
  }

  /** When no match is left, the loop's collection is the collection without the matches. */
  lemma {:induction false} BatchDone<V>(m: map<string, V>, p: V -> bool, r: map<string, V>, total: nat, rounds: seq<nat>)
    requires BatchInv(m, p, r, total, rounds)
    requires KeysWhere(r, p) == {}
    ensures r == Without(m, p)
  {
    forall k | k in m
      ensures k in r <==> !p(m[k])
    {
      if k in r {
        assert k !in KeysWhere(r, p);
      }
    }
  }

  /**
   * `cleanupCollection` (and the loop of `cleanupExpiredSchedules`): query
   * at most 500 matching documents, delete them in one batch, and go on
   * until a query comes back empty or short.  Every matching document is
   * deleted and counted; `rounds` are the committed batch sizes, all full
   * but the last.
   */
  method DeleteInBatches<V>(m: map<string, V>, p: V -> bool) returns (r: map<string, V>, total: nat, ghost rounds: seq<nat>)
    ensures r == Without(m, p)
    ensures total == |KeysWhere(m, p)|
    ensures total == Sum(rounds)
    ensures forall i :: 0 <= i < |rounds| ==> 0 < rounds[i] <= BATCH_SIZE
    ensures forall i :: 0 <= i < |rounds| - 1 ==> rounds[i] == BATCH_SIZE
  {
    r := m;
    total := 0;
    rounds := [];
    while true
      invariant BatchInv(m, p, r, total, rounds)
      invariant forall i :: 0 <= i < |rounds| ==> rounds[i] == BATCH_SIZE
      decreases |KeysWhere(r, p)|
    {
      var batch := TakeBatch(r, p, BATCH_SIZE);
      if batch == {} {
        break;
      }
      BatchShrinks(r, p, batch);
      SumSnoc(rounds, |batch|);
      r := r - batch;
      total := total + |batch|;
      rounds := rounds + [|batch|];
      if |batch| < BATCH_SIZE {
        break;
      }
    }
    BatchDone(m, p, r, total, rounds);
  }

  // ---------------------------------------------------------------------
  // One cleanup run
  // ---------------------------------------------------------------------

  /** The filter of `cleanupExpiredSchedules`: EXPIRED and ended at or before the threshold. */
  predicate ExpiredBy(s: Schedule, threshold: Time) {
    s.status == Expired && s.endTime <= threshold
  }

  /** The three steps of `performCleanup`, in order. */
  datatype Step = LocationHistoryStep | NotificationHistoryStep | SchedulesStep

  function StepLabel(s: Step): string {
    match s
    case LocationHistoryStep => "location_history"
    case NotificationHistoryStep => "notification_history"
    case SchedulesStep => "schedules"
  }

  const FAILURE_PREFIX := "Failed to cleanup "

  /** The message collected for a step that threw `error`. */
  function FailureMessage(s: Step, error: string): (r: string)
    ensures FAILURE_PREFIX <= r
  {
    FAILURE_PREFIX + StepLabel(s) + ": " + error
  }

  /** The step's label can be read back from its message, so messages of different steps differ. */
  lemma FailureMessageNamesStep(s: Step, t: Step, e: string, f: string)
    requires FailureMessage(s, e) == FailureMessage(t, f)
    ensures s == t
  {
    var n := |FAILURE_PREFIX|;
    assert FailureMessage(s, e)[n] == StepLabel(s)[0];
    assert FailureMessage(t, f)[n] == StepLabel(t)[0];
  }

  /** Which steps throw, and the text of what they throw: the store's failures, which the model takes as given. */
  type Faults = Step -> Option<string>

  /** The messages `performCleanup` collects, in step order. */
  function Failures(fault: Faults): (r: seq<string>)
    ensures |r| <= 3
    ensures r == [] <==> fault(LocationHistoryStep).None? && fault(NotificationHistoryStep).None? && fault(SchedulesStep).None?
    ensures forall i :: 0 <= i < |r| ==> FAILURE_PREFIX <= r[i]
  {
    (if fault(LocationHistoryStep).Some? then [FailureMessage(LocationHistoryStep, fault(LocationHistoryStep).value)] else []) +
    (if fault(NotificationHistoryStep).Some? then [FailureMessage(NotificationHistoryStep, fault(NotificationHistoryStep).value)] else []) +
    (if fault(SchedulesStep).Some? then [FailureMessage(SchedulesStep, fault(SchedulesStep).value)] else [])
  }

  datatype Deleted = Deleted(locationHistory: nat, notificationHistory: nat, schedules: nat)

  /** `CleanupResult`; `errors` is absent when no step failed. */
  datatype CleanupResult = CleanupResult(success: bool, deleted: Deleted, timestamp: Time, errors: Option<seq<string>>)

  /**
   * What one `performCleanup` run does to the three collections, from the
   * stored `loc0`, `rows0`, `sched0` to `loc`, `rows`, `sched`, and what it
   * reports: each step on its own; a step that throws deletes nothing,
   * reports 0 and adds its message; the run succeeds exactly when no step
   * threw.
   */
  ghost predicate Performed(loc0: map<string, LocationSample>, rows0: map<string, HistoryRow>, sched0: map<string, Schedule>,
                            loc: map<string, LocationSample>, rows: map<string, HistoryRow>, sched: map<string, Schedule>,
                            fault: Faults, now: Time, r: CleanupResult)
  {
    && (r.success <==> Failures(fault) == [])
    && (r.errors.None? <==> r.success)
    && (r.errors.Some? ==> r.errors.value == Failures(fault))
    && r.timestamp == now
    && (fault(LocationHistoryStep).None? ==>
          loc == Without(loc0, x => Locations.Expired(x, now)) &&
          r.deleted.locationHistory == |KeysWhere(loc0, x => Locations.Expired(x, now))|)
    && (fault(LocationHistoryStep).Some? ==> loc == loc0 && r.deleted.locationHistory == 0)
    && (fault(NotificationHistoryStep).None? ==>
          rows == Without(rows0, h => AutoNotification.RowExpired(h, now)) &&
          r.deleted.notificationHistory == |KeysWhere(rows0, h => AutoNotification.RowExpired(h, now))|)
    && (fault(NotificationHistoryStep).Some? ==> rows == rows0 && r.deleted.notificationHistory == 0)
    && (fault(SchedulesStep).None? ==>
          sched == Without(sched0, s => ExpiredBy(s, now - RETENTION)) &&
          r.deleted.schedules == |KeysWhere(sched0, s => ExpiredBy(s, now - RETENTION))|)
    && (fault(SchedulesStep).Some? ==> sched == sched0 && r.deleted.schedules == 0)
  }

  /** `performCleanup`: one cleanup run over the three collections, as `Performed` describes it. */
  method PerformCleanup(db: Store.Db, fault: Faults, now: Time) returns (r: CleanupResult)
    modifies db`locationHistory, db`notificationHistory, db`schedules
    ensures Performed(old(db.locationHistory), old(db.notificationHistory), old(db.schedules),
                      db.locationHistory, db.notificationHistory, db.schedules, fault, now, r)
  {
    var errors: seq<string> := [];
    var locations, rows, schedules := 0, 0, 0;
    if fault(LocationHistoryStep).None? {
      var kept, n, _ := DeleteInBatches(db.locationHistory, x => Locations.Expired(x, now));
      db.locationHistory := kept;
      locations := n;
    } else {
      errors := errors + [FailureMessage(LocationHistoryStep, fault(LocationHistoryStep).value)];
    }
    if fault(NotificationHistoryStep).None? {
      var kept, n, _ := DeleteInBatches(db.notificationHistory, h => AutoNotification.RowExpired(h, now));
      db.notificationHistory := kept;
      rows := n;
    } else {
      errors := errors + [FailureMessage(NotificationHistoryStep, fault(NotificationHistoryStep).value)];
    }
    if fault(SchedulesStep).None? {
      var kept, n, _ := DeleteInBatches(db.schedules, s => ExpiredBy(s, now - RETENTION));
      db.schedules := kept;
      schedules := n;
    } else {
      errors := errors + [FailureMessage(SchedulesStep, fault(SchedulesStep).value)];
    }
    assert errors == Failures(fault);
    r := CleanupResult(errors == [], Deleted(locations, rows, schedules), now, if errors == [] then None else Some(errors));
  }

  // ---------------------------------------------------------------------
  // The manual endpoint
  // ---------------------------------------------------------------------

  const BEARER := "Bearer "
  const MISSING_TOKEN := "Unauthorized: Missing bearer token"
  const INVALID_TOKEN := "Unauthorized: Invalid token"

  /** The expected token: the function configuration's unless it is absent or empty, else the environment's. */
  function ExpectedToken(config: Option<string>, env: Option<string>): (r: Option<string>)
    ensures config.Some? && config.value != "" ==> r == config
    ensures config.None? || config.value == "" ==> r == env
  {
    if config.Some? && config.value != "" then config else env
  }

  datatype Auth = Authorized | Rejected(error: string)

  /** The header check of `manualCleanup`. */
  function Authorize(header: Option<string>, expected: Option<string>): Auth {
    if header.None? || header.value == "" || !(BEARER <= header.value) then Rejected(MISSING_TOKEN)
    else if expected.None? || header.value[|BEARER|..] != expected.value then Rejected(INVALID_TOKEN)
    else Authorized
  }

  /**
   * The endpoint admits exactly the header "Bearer " followed by the
   * expected token, and nothing when no token is configured.
   */
  lemma AuthorizeExactly(header: Option<string>, expected: Option<string>)
    ensures Authorize(header, expected) == Authorized <==> expected.Some? && header == Some(BEARER + expected.value)
  {
    if expected.Some? && header == Some(BEARER + expected.value) {
      assert (BEARER + expected.value)[|BEARER|..] == expected.value;
    }
    if Authorize(header, expected) == Authorized {
      var h := header.value;
      assert h[..|BEARER|] == BEARER;
      assert h == h[..|BEARER|] + h[|BEARER|..];
    }
  }

  /** The HTTP reply: a status and either the error or the cleanup result. */
  datatype Reply = Reply(status: int, error: Option<string>, result: Option<CleanupResult>)

  /**
   * `manualCleanup`: 401 with the reason and no cleanup unless the header
   * passes; otherwise one cleanup run, answered with 200 and its result.
   */
  method ManualCleanup(db: Store.Db, header: Option<string>, config: Option<string>, env: Option<string>,
                       fault: Faults, now: Time) returns (reply: Reply)
    modifies db`locationHistory, db`notificationHistory, db`schedules
    ensures reply.status == 200 <==> Authorize(header, ExpectedToken(config, env)) == Authorized
    ensures reply.status != 200 ==> reply.status == 401 && reply.result.None?
    ensures reply.status != 200 ==> reply.error == Some(Authorize(header, ExpectedToken(config, env)).error)
    ensures reply.status != 200 ==>
      db.locationHistory == old(db.locationHistory) && db.notificationHistory == old(db.notificationHistory) &&
      db.schedules == old(db.schedules)
    ensures reply.status == 200 ==>
      reply.result.Some? &&
      Performed(old(db.locationHistory), old(db.notificationHistory), old(db.schedules),
                db.locationHistory, db.notificationHistory, db.schedules, fault, now, reply.result.value)
  {
    var auth := Authorize(header, ExpectedToken(config, env));
    if auth.Rejected? {
      return Reply(401, Some(auth.error), None);
    }
    var result := PerformCleanup(db, fault, now);
    reply := Reply(200, None, Some(result));
  }
}
