/**
 * The location service (`LocationService`): recording samples with their
 * 24-hour expiry, the latest sample and the recent history of a user, the
 * status summary of a user's live schedules, and the expiry purge.
 */
module Locations {
  import opened Common
  import opened ScheduleSchema
  import opened LocationSchema
  import Schedules
  import Geofencing
  import Store

  /** The sample `record_location` stores: stamped with the given time or `now`, expiring 24 hours later. */
  function NewSample(id: string, userId: string, req: LocationUpdateRequest, scheduleId: Option<string>, now: Time)
    : (r: LocationSample)
    ensures r.id == id && r.userId == userId && r.coords == req.coords && r.scheduleId == scheduleId
    ensures req.recordedAt.None? ==> r.recordedAt == now
    ensures req.recordedAt.Some? ==> r.recordedAt == req.recordedAt.value
    ensures r.autoDeleteAt - r.recordedAt == RETENTION
  {
    var recordedAt := if req.recordedAt.Some? then req.recordedAt.value else now;
    LocationSample(id, userId, scheduleId, req.coords, req.accuracy, recordedAt, recordedAt + RETENTION)
  }

  /** The filter of the expiry purge. */
  predicate Expired(x: LocationSample, now: Time) {
    x.autoDeleteAt <= now
  }

  /** A recorded sample survives the purge for exactly 24 hours after its recording time. */
  lemma SampleLifetime(id: string, userId: string, req: LocationUpdateRequest, scheduleId: Option<string>, now: Time, t: Time)
    ensures Expired(NewSample(id, userId, req, scheduleId, now), t) <==>
      t - NewSample(id, userId, req, scheduleId, now).recordedAt >= RETENTION_HOURS * HOUR
  {
  }

  /** `record_location`: stores a new sample under a fresh id. */
  method RecordLocation(db: Store.Db, userId: string, req: LocationUpdateRequest, scheduleId: Option<string>, now: Time)
    returns (r: LocationSample)
    modifies db`locationHistory
    ensures r.id !in old(db.locationHistory)
    ensures r == NewSample(r.id, userId, req, scheduleId, now)
    ensures db.locationHistory == old(db.locationHistory)[r.id := r]
  {
    var id := FreshKey(db.locationHistory.Keys);
    r := NewSample(id, userId, req, scheduleId, now);
    db.locationHistory := db.locationHistory[id := r];
  }

  function RecordedKey(x: LocationSample): real {
    x.recordedAt as real
  }

  predicate OfUser(userId: string, x: LocationSample) {
    x.userId == userId
  }

  /**
   * `get_location_history`: the user's samples, newest first, at most
   * `limit` of them; `all` is the full ordered listing it is cut from.
   */
  method GetLocationHistory(db: Store.Db, userId: string, limit: nat)
    returns (r: seq<LocationSample>, ghost all: seq<LocationSample>)
    ensures forall x :: x in all <==> x in db.locationHistory.Values && x.userId == userId
    ensures |all| == |KeysWhere(db.locationHistory, x => OfUser(userId, x))|
    ensures SortedBy(all, RecordedKey, true)
    ensures r == Take(all, limit)
    ensures |r| <= limit
    ensures forall x :: x in r ==> x in db.locationHistory.Values && x.userId == userId
  {
    var found := SelectSorted(db.locationHistory, x => OfUser(userId, x), RecordedKey, true);
    all := found;
    r := Take(found, limit);
    forall x | x in r
      ensures x in found
    {
      var i :| 0 <= i < |r| && r[i] == x;
      assert found[i] == x;
    }
  }

  /**
   * `latest` is an answer `get_latest_location` can give for the samples
   * `m`: None for a user with no sample, otherwise one of the user's
   * samples with the latest recording time.
   */
  ghost predicate LatestOf(m: map<string, LocationSample>, userId: string, latest: Option<LocationSample>) {
    && (latest.None? <==> forall k :: k in m ==> m[k].userId != userId)
    && (latest.Some? ==> latest.value in m.Values && latest.value.userId == userId)
    && (latest.Some? ==> forall k :: k in m && m[k].userId == userId ==> m[k].recordedAt <= latest.value.recordedAt)
  }

  /** `get_latest_location`: None for a user with no sample, otherwise a sample with the latest recording time. */
  method GetLatestLocation(db: Store.Db, userId: string) returns (r: Option<LocationSample>)
    ensures LatestOf(db.locationHistory, userId, r)
  {
    var latest, all := GetLocationHistory(db, userId, 1);
    if latest == [] {
      forall k | k in db.locationHistory
        ensures db.locationHistory[k].userId != userId
      {
        var x := db.locationHistory[k];
        assert x in db.locationHistory.Values;
        assert x !in all;
      }
      return None;
    }
    r := Some(latest[0]);
    forall k | k in db.locationHistory && db.locationHistory[k].userId == userId
      ensures db.locationHistory[k].recordedAt <= latest[0].recordedAt
    {
      var x := db.locationHistory[k];
      assert x in db.locationHistory.Values;
      assert x in all;
      var j :| 0 <= j < |all| && all[j] == x;
      assert all[0] == latest[0];
      if j != 0 {
        assert Before(RecordedKey, true, all[0], all[j]);
      }
    }
  }

  /** One row of `get_active_schedule_status` for a loaded schedule, with the distance from the latest sample if any. */
  function StatusRow(dist: Geofencing.Distance, s: Schedule, latest: Option<LocationSample>): (r: ScheduleStatusInfo)
    ensures r.scheduleId == s.id && r.status == StatusValue(s.status)
    ensures r.arrivedAt == s.arrivedAt && r.departedAt == s.departedAt
    ensures r.distanceToDestination.Some? <==> latest.Some?
    ensures latest.Some? ==> r.distanceToDestination == Some(dist(latest.value.coords, s.destination))
  {
    ScheduleStatusInfo(s.id, s.destinationName, s.destination, StatusValue(s.status),
                       if latest.Some? then Some(dist(latest.value.coords, s.destination)) else None,
                       s.arrivedAt, s.departedAt)
  }

  /**
   * `get_active_schedule_status`: one row per ACTIVE or ARRIVED schedule of
   * the user, in loading order; distances only when a latest sample exists.
   */
  method GetActiveScheduleStatus(db: Store.Db, dist: Geofencing.Distance, userId: string)
    returns (r: seq<ScheduleStatusInfo>, ghost loaded: seq<Schedule>, ghost latest: Option<LocationSample>)
    requires Schedules.Keyed(db.schedules)
    ensures Geofencing.LiveListing(db.schedules, userId, loaded)
    ensures LatestOf(db.locationHistory, userId, latest)
    ensures |r| == |loaded|
    ensures forall i :: 0 <= i < |r| ==> r[i] == StatusRow(dist, loaded[i], latest)
    ensures forall i :: 0 <= i < |r| ==>
      (r[i].distanceToDestination.Some? <==> exists k :: k in db.locationHistory && db.locationHistory[k].userId == userId)
  {
    var all := Geofencing.LoadLive(db, userId);
    loaded := all;
    var last := GetLatestLocation(db, userId);
    latest := last;
    r := StatusRows(dist, all, last);
  }

  /** The loop of `get_active_schedule_status`: one row per loaded schedule, in order. */
  method StatusRows(dist: Geofencing.Distance, all: seq<Schedule>, latest: Option<LocationSample>)
    returns (r: seq<ScheduleStatusInfo>)
    ensures |r| == |all|
    ensures forall i :: 0 <= i < |r| ==> r[i] == StatusRow(dist, all[i], latest)
  {
    r := [];
    var i := 0;
    while i < |all|
      invariant 0 <= i <= |all|
      invariant |r| == i
      invariant forall j :: 0 <= j < i ==> r[j] == StatusRow(dist, all[j], latest)
    {
      r := r + [StatusRow(dist, all[i], latest)];
      i := i + 1;
    }
  }

  /** `cleanup_old_locations`: deletes exactly the expired samples and counts them. */
  method CleanupOldLocations(db: Store.Db, now: Time) returns (count: nat)
    modifies db`locationHistory
    ensures db.locationHistory == Without(old(db.locationHistory), x => Expired(x, now))
    ensures count == |KeysWhere(old(db.locationHistory), x => Expired(x, now))|
  {
    var kept, n := DeleteWhere(db.locationHistory, x => Expired(x, now));
    db.locationHistory := kept;
    count := n;
  }
}
