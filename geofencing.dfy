/**
 * The geofence engine (`GeofencingService`): the entry and exit decisions
 * for one schedule, the per-sample pass over a user's live schedules that
 * turns decisions into events and status writes, and the nearby query.
 *
 * Distance is the parameter `dist` (the service's Haversine formula); the
 * decisions depend only on how it compares with the radius.
 */
module Geofencing {
  import opened Common
  import opened ScheduleSchema
  import Schedules
  import Store

  /** `settings.GEOFENCE_RADIUS_METERS`, the fallback radius. */
  const GEOFENCE_RADIUS_METERS: int := 50

  datatype EventType = Entry | Exit

  /** `GeofenceEvent`: the schedule as loaded, the kind, the sample and its distance. */
  datatype GeofenceEvent = GeofenceEvent(
    schedule: Schedule,
    eventType: EventType,
    currentCoords: Coords,
    distanceToDestination: real)

  type Distance = (Coords, Coords) -> real

  /** `schedule.geofence_radius or GEOFENCE_RADIUS_METERS`: a zero radius falls back. */
  function EffectiveRadius(s: Schedule): (r: int)
    ensures r > 0 || (s.geofenceRadius == r && r < 0)
    ensures ValidRadius(s.geofenceRadius) ==> r == s.geofenceRadius
  {
    if s.geofenceRadius != 0 then s.geofenceRadius else GEOFENCE_RADIUS_METERS
  }

  predicate Inside(dist: Distance, s: Schedule, c: Coords) {
    dist(c, s.destination) <= EffectiveRadius(s) as real
  }

  /** `check_geofence_entry`: the decision and the current distance. */
  function CheckEntry(dist: Distance, s: Schedule, cur: Coords, prev: Option<Coords>): (r: (bool, real))
    ensures r.1 == dist(cur, s.destination)
    ensures r.0 <==> s.status != Arrived && Inside(dist, s, cur) && (prev.None? || !Inside(dist, s, prev.value))
  {
    var distance := dist(cur, s.destination);
    var radius := EffectiveRadius(s) as real;
    var isInside := distance <= radius;
    if s.status == Arrived then (false, distance)
    else if isInside then
      if prev.None? then (true, distance)
      else if dist(prev.value, s.destination) > radius then (true, distance)
      else (false, distance)
    else (false, distance)
  }

  /** `check_geofence_exit`: the decision and the current distance. */
  function CheckExit(dist: Distance, s: Schedule, cur: Coords, prev: Option<Coords>): (r: (bool, real))
    ensures r.1 == dist(cur, s.destination)
    ensures r.0 <==> s.status == Arrived && !Inside(dist, s, cur) && prev.Some? && Inside(dist, s, prev.value)
  {
    var distance := dist(cur, s.destination);
    var radius := EffectiveRadius(s) as real;
    var isOutside := distance > radius;
    if s.status != Arrived then (false, distance)
    else if isOutside then
      if prev.None? then (false, distance)
      else if dist(prev.value, s.destination) <= radius then (true, distance)
      else (false, distance)
    else (false, distance)
  }

  /** An ARRIVED schedule never yields an entry, wherever the samples are. */
  lemma ArrivedNeverEnters(dist: Distance, s: Schedule, cur: Coords, prev: Option<Coords>)
    requires s.status == Arrived
    ensures !CheckEntry(dist, s, cur, prev).0
  {
  }

  /** Without a previous sample there is never an exit, and entry and exit never fire together. */
  lemma EntryExitExclusive(dist: Distance, s: Schedule, cur: Coords, prev: Option<Coords>)
    ensures prev.None? ==> !CheckExit(dist, s, cur, prev).0
    ensures !(CheckEntry(dist, s, cur, prev).0 && CheckExit(dist, s, cur, prev).0)
  {
  }

  /** Standing still (the same sample twice) never crosses the boundary. */
  lemma NoEventWithoutMovement(dist: Distance, s: Schedule, c: Coords)
    ensures !CheckEntry(dist, s, c, Some(c)).0 && !CheckExit(dist, s, c, Some(c)).0
  {
  }

  // ---------------------------------------------------------------------
  // One pass over the loaded schedules
  // ---------------------------------------------------------------------

  /** The schedule's window contains `now` (the loop skips it otherwise). */
  predicate InWindow(s: Schedule, now: Time) {
    !(s.startTime > now || s.endTime < now)
  }

  /**
   * The events one loaded schedule yields: an entry, then an exit check
   * only when the loaded status is ARRIVED; nothing outside the window.
   */
  function StepEvents(dist: Distance, s: Schedule, cur: Coords, prev: Option<Coords>, now: Time)
    : (r: seq<GeofenceEvent>)
    ensures |r| <= 1
    ensures forall e :: e in r ==> e.schedule == s && e.currentCoords == cur && e.distanceToDestination == dist(cur, s.destination)
    ensures r != [] ==> InWindow(s, now)
    ensures r != [] && r[0].eventType == Entry <==> InWindow(s, now) && CheckEntry(dist, s, cur, prev).0
    ensures r != [] && r[0].eventType == Exit <==> InWindow(s, now) && CheckExit(dist, s, cur, prev).0
  {
    if !InWindow(s, now) then []
    else
      var (isEntry, d) := CheckEntry(dist, s, cur, prev);
      var entries := if isEntry then [GeofenceEvent(s, Entry, cur, d)] else [];
      var exits :=
        if s.status == Arrived then
          var (isExit, d2) := CheckExit(dist, s, cur, prev);
          if isExit then [GeofenceEvent(s, Exit, cur, d2)] else []
        else [];
      entries + exits
  }

  /** The status write that follows an event: ARRIVED at `now` for an entry, COMPLETED at `now` for an exit. */
  function Written(stored: Schedule, e: EventType, now: Time): (r: Schedule)
    ensures e == Entry ==> r.status == Arrived && r.arrivedAt == Some(now) && r.departedAt == stored.departedAt
    ensures e == Exit ==> r.status == Completed && r.departedAt == Some(now) && r.arrivedAt == stored.arrivedAt
    ensures r.id == stored.id && r.updatedAt == now
  {
    if e == Entry then Schedules.StatusUpdate(stored, Arrived, Some(now), None, now)
    else Schedules.StatusUpdate(stored, Completed, None, Some(now), now)
  }

  /** The store after one loaded schedule has been handled (writes go to the stored document). */
  function ApplyStep(dist: Distance, m: map<string, Schedule>, s: Schedule, cur: Coords, prev: Option<Coords>, now: Time)
    : map<string, Schedule>
  {
    var ev := StepEvents(dist, s, cur, prev, now);
    if ev == [] || s.id !in m then m else m[s.id := Written(m[s.id], ev[0].eventType, now)]
  }

  /** The events of a whole pass, in loop order. */
  function Events(dist: Distance, loaded: seq<Schedule>, cur: Coords, prev: Option<Coords>, now: Time)
    : seq<GeofenceEvent>
  {
    if loaded == [] then []
    else Events(dist, loaded[..|loaded| - 1], cur, prev, now) + StepEvents(dist, loaded[|loaded| - 1], cur, prev, now)
  }

  /** The store after a whole pass. */
  function Apply(dist: Distance, m: map<string, Schedule>, loaded: seq<Schedule>, cur: Coords, prev: Option<Coords>, now: Time)
    : map<string, Schedule>
  {
    if loaded == [] then m
    else ApplyStep(dist, Apply(dist, m, loaded[..|loaded| - 1], cur, prev, now), loaded[|loaded| - 1], cur, prev, now)
  }

  /** What a loaded schedule becomes after the pass: unchanged, or written after its one event. */
  function Outcome(dist: Distance, s: Schedule, cur: Coords, prev: Option<Coords>, now: Time): Schedule {
    var ev := StepEvents(dist, s, cur, prev, now);
    if ev == [] then s else Written(s, ev[0].eventType, now)
  }

  /** The ids of the loaded schedules. */
  function Ids(loaded: seq<Schedule>): set<string> {
    set s | s in loaded :: s.id
  }

  /** The schedules `process_location_update` loads: ACTIVE or ARRIVED. */
  predicate Live(s: Schedule) {
    s.status == Active || s.status == Arrived
  }

  /** Each loaded schedule is a copy of the stored document under its id. */
  predicate LoadedFrom(m: map<string, Schedule>, loaded: seq<Schedule>) {
    forall s :: s in loaded ==> s.id in m && m[s.id] == s
  }

  /** `cur` is what the store `m` becomes once the schedules with ids in `ids` have been handled. */
  predicate HandledAs(dist: Distance, m: map<string, Schedule>, cur: map<string, Schedule>, ids: set<string>,
                      pos: Coords, prev: Option<Coords>, now: Time) {
    && cur.Keys == m.Keys
    && forall k :: k in m ==> cur[k] == if k in ids then Outcome(dist, m[k], pos, prev, now) else m[k]
  }

  /** Writing the same event twice leaves the document as one write does. */
  lemma WrittenTwice(s: Schedule, e: EventType, now: Time)
    ensures Written(Written(s, e, now), e, now) == Written(s, e, now)
  {
  }

  /** Handling one more loaded schedule extends the handled set by its id (the write is idempotent). */
  lemma {:induction false} ApplyStepHandled(dist: Distance, m: map<string, Schedule>, mid: map<string, Schedule>,
                                            ids: set<string>, s: Schedule, pos: Coords, prev: Option<Coords>, now: Time)
    requires HandledAs(dist, m, mid, ids, pos, prev, now)
    requires s.id in m && m[s.id] == s
    ensures HandledAs(dist, m, ApplyStep(dist, mid, s, pos, prev, now), ids + {s.id}, pos, prev, now)
  {
    var ev := StepEvents(dist, s, pos, prev, now);
    var o := Outcome(dist, s, pos, prev, now);
    var after := ApplyStep(dist, mid, s, pos, prev, now);
    if ev == [] {
      assert after == mid && o == s;
    } else {
      var e := ev[0].eventType;
      assert o == Written(s, e, now);
      assert mid[s.id] == s || mid[s.id] == o;
      WrittenTwice(s, e, now);
      assert after == mid[s.id := o];
    }
    forall k | k in m
      ensures after[k] == if k in ids + {s.id} then Outcome(dist, m[k], pos, prev, now) else m[k]
    {
      if k != s.id {
        assert after[k] == mid[k];
      }
    }
  }

  /**
   * The effect of a pass on the store, document by document: every loaded
   * schedule (each a copy of what the store held) ends as its `Outcome`;
   * every other document is untouched. No distinctness of the loaded list
   * is needed, because handling the same schedule twice writes the same
   * document twice.
   */
  lemma {:induction false} ApplyExact(
    dist: Distance, m: map<string, Schedule>, loaded: seq<Schedule>, pos: Coords, prev: Option<Coords>, now: Time)
    requires LoadedFrom(m, loaded)
    ensures HandledAs(dist, m, Apply(dist, m, loaded, pos, prev, now), Ids(loaded), pos, prev, now)
  {
    if loaded != [] {
      var init := loaded[..|loaded| - 1];
      var s := loaded[|loaded| - 1];
      assert loaded == init + [s];
      assert forall x :: x in init ==> x in loaded;
      ApplyExact(dist, m, init, pos, prev, now);
      assert Ids(loaded) == Ids(init) + {s.id};
      ApplyStepHandled(dist, m, Apply(dist, m, init, pos, prev, now), Ids(init), s, pos, prev, now);
    }
  }

  /**
   * A schedule only ever moves forward in one pass: it stays as it was,
   * goes from ACTIVE to ARRIVED at `now`, or from ARRIVED to COMPLETED at
   * `now`. In particular ACTIVE never becomes COMPLETED in a single pass.
   */
  predicate Advanced(o: Schedule, c: Schedule, now: Time) {
    || c == o
    || (o.status == Active && c == o.(status := Arrived, arrivedAt := Some(now), updatedAt := now))
    || (o.status == Arrived && c == o.(status := Completed, departedAt := Some(now), updatedAt := now))
  }

  lemma OutcomeAdvances(dist: Distance, s: Schedule, pos: Coords, prev: Option<Coords>, now: Time)
    requires Live(s)
    ensures Advanced(s, Outcome(dist, s, pos, prev, now), now)
  {
  }

  /**
   * Over a whole pass whose loaded schedules are live copies of the store:
   * the store keeps its documents, every document advances at most one
   * step, and documents that were not loaded (other users', COMPLETED,
   * EXPIRED) are untouched.
   */
  lemma ProcessOnlyAdvances(
    dist: Distance, m: map<string, Schedule>, loaded: seq<Schedule>, pos: Coords, prev: Option<Coords>, now: Time)
    requires LoadedFrom(m, loaded)
    requires forall s :: s in loaded ==> Live(s)
    ensures Apply(dist, m, loaded, pos, prev, now).Keys == m.Keys
    ensures forall k :: k in m ==> Advanced(m[k], Apply(dist, m, loaded, pos, prev, now)[k], now)
    ensures forall k :: k in m && k !in Ids(loaded) ==> Apply(dist, m, loaded, pos, prev, now)[k] == m[k]
  {
    ApplyExact(dist, m, loaded, pos, prev, now);
    forall k | k in m
      ensures Advanced(m[k], Apply(dist, m, loaded, pos, prev, now)[k], now)
    {
      if k in Ids(loaded) {
        var s :| s in loaded && s.id == k;
        OutcomeAdvances(dist, m[k], pos, prev, now);
      }
    }
  }

  /** Every event of a pass is the single event of one loaded schedule. */
  lemma {:induction false} EventsFromLoaded(dist: Distance, loaded: seq<Schedule>, pos: Coords, prev: Option<Coords>, now: Time)
    ensures forall e :: e in Events(dist, loaded, pos, prev, now) ==>
      e.schedule in loaded && StepEvents(dist, e.schedule, pos, prev, now) == [e]
  {
    if loaded != [] {
      var init := loaded[..|loaded| - 1];
      EventsFromLoaded(dist, init, pos, prev, now);
      assert forall x :: x in init ==> x in loaded;
    }
  }

  /**
   * Every event of a pass comes with its status write: after the pass the
   * schedule of an entry is ARRIVED with `arrived_at = now`, that of an exit
   * COMPLETED with `departed_at = now`; and every event's schedule was
   * inside its window, ACTIVE for an entry and ARRIVED for an exit.
   */
  lemma EventsComeWithWrites(
    dist: Distance, m: map<string, Schedule>, loaded: seq<Schedule>, pos: Coords, prev: Option<Coords>, now: Time)
    requires LoadedFrom(m, loaded)
    requires forall s :: s in loaded ==> Live(s)
    ensures Apply(dist, m, loaded, pos, prev, now).Keys == m.Keys
    ensures forall e :: e in Events(dist, loaded, pos, prev, now) ==>
      && e.schedule in loaded
      && InWindow(e.schedule, now)
      && (e.eventType == Entry ==> e.schedule.status == Active)
      && (e.eventType == Exit ==> e.schedule.status == Arrived)
    ensures forall e :: e in Events(dist, loaded, pos, prev, now) && e.eventType == Entry ==>
      var c := Apply(dist, m, loaded, pos, prev, now)[e.schedule.id];
      c.status == Arrived && c.arrivedAt == Some(now)
    ensures forall e :: e in Events(dist, loaded, pos, prev, now) && e.eventType == Exit ==>
      var c := Apply(dist, m, loaded, pos, prev, now)[e.schedule.id];
      c.status == Completed && c.departedAt == Some(now)
  {
    EventsFromLoaded(dist, loaded, pos, prev, now);
    ApplyExact(dist, m, loaded, pos, prev, now);
    forall e | e in Events(dist, loaded, pos, prev, now)
      ensures e.schedule.id in Ids(loaded)
    {
    }
  }

  /** A pass yields at most one event per loaded schedule. */
  lemma {:induction false} EventsBound(dist: Distance, loaded: seq<Schedule>, pos: Coords, prev: Option<Coords>, now: Time)
    ensures |Events(dist, loaded, pos, prev, now)| <= |loaded|
  {
    if loaded != [] {
      EventsBound(dist, loaded[..|loaded| - 1], pos, prev, now);
    }
  }

  /** Over a loaded list that names each schedule once, no schedule yields two events in one pass. */
  lemma {:induction false} EventsDistinct(dist: Distance, loaded: seq<Schedule>, pos: Coords, prev: Option<Coords>, now: Time)
    requires forall i, j :: 0 <= i < j < |loaded| ==> loaded[i].id != loaded[j].id
    ensures forall i, j :: 0 <= i < j < |Events(dist, loaded, pos, prev, now)| ==>
      Events(dist, loaded, pos, prev, now)[i].schedule.id != Events(dist, loaded, pos, prev, now)[j].schedule.id
  {
    if loaded != [] {
      var init := loaded[..|loaded| - 1];
      var last := loaded[|loaded| - 1];
      EventsDistinct(dist, init, pos, prev, now);
      EventsFromLoaded(dist, init, pos, prev, now);
      var front := Events(dist, init, pos, prev, now);
      var step := StepEvents(dist, last, pos, prev, now);
      var all := Events(dist, loaded, pos, prev, now);
      assert all == front + step;
      forall e | e in front
        ensures e.schedule.id != last.id
      {
        var k :| 0 <= k < |init| && init[k] == e.schedule;
        assert loaded[k] == e.schedule;
      }
      forall i, j | 0 <= i < j < |all|
        ensures all[i].schedule.id != all[j].schedule.id
      {
        if j < |front| {
          assert all[i] == front[i] && all[j] == front[j];
        } else if i < |front| {
          assert all[i] in front && all[j] in step;
        }
      }
    }
  }

  /**
   * One iteration of the loop: the window check, the entry check with its
   * ARRIVED write, and, for a schedule loaded as ARRIVED, the exit check
   * with its COMPLETED write.
   */
  method HandleSchedule(db: Store.Db, dist: Distance, s: Schedule, pos: Coords, prev: Option<Coords>, now: Time)
    returns (events: seq<GeofenceEvent>)
    requires s.id in db.schedules
    modifies db`schedules
    ensures events == StepEvents(dist, s, pos, prev, now)
    ensures db.schedules == ApplyStep(dist, old(db.schedules), s, pos, prev, now)
  {
    events := [];
    if s.startTime > now || s.endTime < now {
      return;
    }
    var (isEntry, d) := CheckEntry(dist, s, pos, prev);
    if isEntry {
      events := events + [GeofenceEvent(s, Entry, pos, d)];
      var _ := Schedules.UpdateScheduleStatus(db, s.id, Arrived, Some(now), None, now);
    }
    if s.status == Arrived {
      var (isExit, d2) := CheckExit(dist, s, pos, prev);
      if isExit {
        events := events + [GeofenceEvent(s, Exit, pos, d2)];
        var _ := Schedules.UpdateScheduleStatus(db, s.id, Completed, None, Some(now), now);
      }
    }
  }

  /** A status write keeps every document under its own id. */
  lemma ApplyStepKeyed(dist: Distance, m: map<string, Schedule>, s: Schedule, pos: Coords, prev: Option<Coords>, now: Time)
    requires Schedules.Keyed(m)
    ensures ApplyStep(dist, m, s, pos, prev, now).Keys == m.Keys
    ensures Schedules.Keyed(ApplyStep(dist, m, s, pos, prev, now))
  {
  }

  /** The user's live schedules: the documents the two status queries match together. */
  function LiveKeys(m: map<string, Schedule>, userId: string): set<string> {
    set k | k in m && m[k].userId == userId && Live(m[k])
  }

  /**
   * `all` is what the two status queries return one after the other: the
   * user's ACTIVE schedules, latest start first, then the ARRIVED ones,
   * latest start first; every live document of the user exactly once.
   */
  ghost predicate LiveListing(m: map<string, Schedule>, userId: string, all: seq<Schedule>) {
    && (forall s :: s in all <==> s in m.Values && s.userId == userId && Live(s))
    && LoadedFrom(m, all)
    && (forall i, j :: 0 <= i < j < |all| ==> all[i].id != all[j].id)
    && |all| == |LiveKeys(m, userId)|
    && exists n :: 0 <= n <= |all| && Schedules.Listed(m, userId, Active, all[..n]) && Schedules.Listed(m, userId, Arrived, all[n..])
  }

  /** The user's schedules with one status: the documents one status query matches. */
  function StatusKeys(m: map<string, Schedule>, userId: string, st: ScheduleStatus): set<string> {
    set k | k in m && m[k].userId == userId && m[k].status == st
  }

  /** Two listings of distinct statuses, one after the other, never repeat a document. */
  lemma {:induction false} ConcatIdsDistinct(m: map<string, Schedule>, userId: string, active: seq<Schedule>, arrived: seq<Schedule>)
    requires Schedules.Keyed(m)
    requires Schedules.Listed(m, userId, Active, active) && Schedules.Listed(m, userId, Arrived, arrived)
    ensures LoadedFrom(m, active + arrived)
    ensures forall i, j :: 0 <= i < j < |active + arrived| ==> (active + arrived)[i].id != (active + arrived)[j].id
  {
    var all := active + arrived;
    forall s | s in all
      ensures s.id in m && m[s.id] == s
    {
      var k :| k in m && m[k] == s;
    }
    forall i, j | 0 <= i < j < |all|
      ensures all[i].id != all[j].id
    {
      if j < |active| {
        assert all[i] == active[i] && all[j] == active[j];
      } else if |active| <= i {
        assert all[i] == arrived[i - |active|] && all[j] == arrived[j - |active|];
      } else {
        assert all[i] in active && all[j] in arrived;
      }
    }
  }

  /** The user's live schedules are the ACTIVE ones and the ARRIVED ones, which are disjoint. */
  lemma LiveKeysSplit(m: map<string, Schedule>, userId: string)
    ensures |LiveKeys(m, userId)| == |StatusKeys(m, userId, Active)| + |StatusKeys(m, userId, Arrived)|
  {
    var a := StatusKeys(m, userId, Active);
    var b := StatusKeys(m, userId, Arrived);
    assert a * b == {};
    assert LiveKeys(m, userId) == a + b;
  }

  /** The ACTIVE listing followed by the ARRIVED listing is a listing of the live schedules. */
  lemma LiveListingOfParts(m: map<string, Schedule>, userId: string, active: seq<Schedule>, arrived: seq<Schedule>)
    requires Schedules.Keyed(m)
    requires Schedules.Listed(m, userId, Active, active) && Schedules.Listed(m, userId, Arrived, arrived)
    requires |active| == |StatusKeys(m, userId, Active)| && |arrived| == |StatusKeys(m, userId, Arrived)|
    ensures LiveListing(m, userId, active + arrived)
  {
    var all := active + arrived;
    ConcatIdsDistinct(m, userId, active, arrived);
    LiveKeysSplit(m, userId);
    assert all[..|active|] == active && all[|active|..] == arrived;
  }

  /** The two status queries of `process_location_update`: the user's ACTIVE schedules, then the ARRIVED ones. */
  method LoadLive(db: Store.Db, userId: string) returns (all: seq<Schedule>)
    requires Schedules.Keyed(db.schedules)
    ensures LiveListing(db.schedules, userId, all)
  {
    var active := Schedules.GetSchedulesByUser(db, userId, Some(Active));
    var arrived := Schedules.GetSchedulesByUser(db, userId, Some(Arrived));
    all := active + arrived;
    var m := db.schedules;
    assert KeysWhere(m, s => Schedules.OwnedWith(userId, Some(Active), s)) == StatusKeys(m, userId, Active);
    assert KeysWhere(m, s => Schedules.OwnedWith(userId, Some(Arrived), s)) == StatusKeys(m, userId, Arrived);
    LiveListingOfParts(m, userId, active, arrived);
  }

  /**
   * The loop of `process_location_update`: handles the loaded schedules in
   * order, appending their events and writing their statuses.
   */
  method HandleAll(db: Store.Db, dist: Distance, all: seq<Schedule>, pos: Coords, prev: Option<Coords>, now: Time)
    returns (events: seq<GeofenceEvent>)
    requires Schedules.Keyed(db.schedules) && LoadedFrom(db.schedules, all)
    modifies db`schedules
    ensures events == Events(dist, all, pos, prev, now)
    ensures db.schedules == Apply(dist, old(db.schedules), all, pos, prev, now)
    ensures Schedules.Keyed(db.schedules)
  {
    ghost var m0 := db.schedules;
    events := [];
    var i := 0;
    while i < |all|
      invariant 0 <= i <= |all|
      invariant events == Events(dist, all[..i], pos, prev, now)
      invariant db.schedules == Apply(dist, m0, all[..i], pos, prev, now)
      invariant db.schedules.Keys == m0.Keys && Schedules.Keyed(db.schedules)
    {
      assert all[..i + 1][..i] == all[..i];
      assert all[i] in all;
      ghost var before := db.schedules;
      var step := HandleSchedule(db, dist, all[i], pos, prev, now);
      ApplyStepKeyed(dist, before, all[i], pos, prev, now);
      events := events + step;
      i := i + 1;
    }
    assert all[..i] == all;
  }

  /**
   * `process_location_update`: loads the user's ACTIVE schedules, then the
   * ARRIVED ones, and handles each in that order, appending events and
   * writing statuses through `update_schedule_status`.
   */
  method ProcessLocationUpdate(db: Store.Db, dist: Distance, userId: string, pos: Coords, prev: Option<Coords>, now: Time)
    returns (events: seq<GeofenceEvent>, ghost loaded: seq<Schedule>)
    requires Schedules.Keyed(db.schedules)
    modifies db`schedules
    ensures LiveListing(old(db.schedules), userId, loaded)
    ensures events == Events(dist, loaded, pos, prev, now)
    ensures forall i, j :: 0 <= i < j < |events| ==> events[i].schedule.id != events[j].schedule.id
    ensures db.schedules == Apply(dist, old(db.schedules), loaded, pos, prev, now)
    ensures Schedules.Keyed(db.schedules)
  {
    var all := LoadLive(db, userId);
    loaded := all;
    events := HandleAll(db, dist, all, pos, prev, now);
    EventsDistinct(dist, all, pos, prev, now);
  }

  // ---------------------------------------------------------------------
  // Nearby schedules
  // ---------------------------------------------------------------------

  /** The default search radius: five times the geofence radius. */
  const NEARBY_RADIUS_FACTOR: int := 5

  function DistanceKey(p: (Schedule, real)): real {
    p.1
  }

  /** A schedule `get_nearby_schedules` reports: the user's, ACTIVE, and within the radius of `cur`. */
  predicate Nearby(dist: Distance, userId: string, cur: Coords, radius: Option<int>, s: Schedule) {
    && s.userId == userId && s.status == Active
    && dist(cur, s.destination) <= (if radius.Some? then radius.value else GEOFENCE_RADIUS_METERS * NEARBY_RADIUS_FACTOR) as real
  }

  /**
   * `get_nearby_schedules`: the user's ACTIVE schedules within the radius,
   * each with its distance, nearest first.
   */
  method GetNearbySchedules(db: Store.Db, dist: Distance, userId: string, cur: Coords, radius: Option<int>)
    returns (r: seq<(Schedule, real)>)
    requires Schedules.Keyed(db.schedules)
    ensures forall s, d :: (s, d) in r <==>
      && s in db.schedules.Values && s.userId == userId && s.status == Active
      && d == dist(cur, s.destination)
      && d <= (if radius.Some? then radius.value else GEOFENCE_RADIUS_METERS * NEARBY_RADIUS_FACTOR) as real
    ensures |r| == |KeysWhere(db.schedules, s => Nearby(dist, userId, cur, radius, s))|
    ensures SortedBy(r, DistanceKey, false)
  {
    var limit := if radius.Some? then radius.value else GEOFENCE_RADIUS_METERS * NEARBY_RADIUS_FACTOR;
    var schedules := Schedules.GetSchedulesByUser(db, userId, Some(Active));
    var nearby: seq<(Schedule, real)> := [];
    var i := 0;
    while i < |schedules|
      invariant 0 <= i <= |schedules|
      invariant forall s, d :: (s, d) in nearby <==>
        s in schedules[..i] && d == dist(cur, s.destination) && d <= limit as real
      invariant Distinct(nearby)
    {
      var s := schedules[i];
      var d := dist(cur, s.destination);
      assert schedules[..i + 1] == schedules[..i] + [s];
      if d <= limit as real {
        assert s !in schedules[..i];
        nearby := nearby + [(s, d)];
      }
      i := i + 1;
    }
    assert schedules[..i] == schedules;
    r := SortBy(nearby, DistanceKey, false);
    SortBySorted(nearby, DistanceKey, false);
    SortByDistinct(nearby, DistanceKey, false);
    forall p
      ensures p in r <==> p in nearby
    {
      SortByMembers(nearby, DistanceKey, false, p);
    }
    forall n | 0 <= n < |r|
      ensures r[n].0 in db.schedules.Values && Nearby(dist, userId, cur, radius, r[n].0)
      ensures r[n].1 == dist(cur, r[n].0.destination)
    {
      var (sc, d) := r[n];
      assert r[n] in nearby && (sc, d) in nearby;
    }
    NearbyCount(db.schedules, dist, userId, cur, radius, r);
  }

  /** One listed pair per nearby document: the distance is fixed by the schedule, so the schedules do not repeat. */
  lemma NearbyCount(m: map<string, Schedule>, dist: Distance, userId: string, cur: Coords, radius: Option<int>,
                    r: seq<(Schedule, real)>)
    requires Schedules.Keyed(m) && Distinct(r)
    requires forall i :: 0 <= i < |r| ==>
      r[i].0 in m.Values && Nearby(dist, userId, cur, radius, r[i].0) && r[i].1 == dist(cur, r[i].0.destination)
    requires forall s :: s in m.Values && Nearby(dist, userId, cur, radius, s) ==> (s, dist(cur, s.destination)) in r
    ensures |r| == |KeysWhere(m, s => Nearby(dist, userId, cur, radius, s))|
  {
    var ss := seq(|r|, i requires 0 <= i < |r| => r[i].0);
    forall i, j | 0 <= i < j < |r|
      ensures ss[i] != ss[j]
    {
    }
    forall s
      ensures s in ss <==> s in m.Values && Nearby(dist, userId, cur, radius, s)
    {
      if s in m.Values && Nearby(dist, userId, cur, radius, s) {
        var i :| 0 <= i < |r| && r[i] == (s, dist(cur, s.destination));
        assert ss[i] == s;
      }
    }
    assert Injective(m);
    DistinctListingSize(m, s => Nearby(dist, userId, cur, radius, s), ss);
  }
}
