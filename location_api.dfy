/**
 * The ingest endpoint `POST /location/update`: record the sample, take the
 * second-newest sample as the previous position, run the geofence checks,
 * dispatch arrival and departure notices per event and report.
 */
module LocationApi {
  import opened Common
  import opened ScheduleSchema
  import opened LocationSchema
  import opened NotificationSchema
  import opened UserSchema
  import Schedules
  import Geofencing
  import Locations
  import Notifications
  import AutoNotification
  import Store

  /** One entry of `triggered_notifications`. */
  datatype Triggered = Triggered(kind: string, scheduleId: string)

  /** One entry of `schedule_updates` (a `schedule_update` dict). */
  datatype ScheduleReport = ScheduleReport(
    scheduleId: string,
    destinationName: string,
    eventType: Geofencing.EventType,
    distance: real,
    status: string,
    notificationIds: seq<string>)

  /** `LocationUpdateResponse`. */
  datatype LocationUpdateResponse = LocationUpdateResponse(
    message: string,
    locationRecorded: bool,
    triggered: seq<Triggered>,
    scheduleUpdates: seq<ScheduleReport>)

  /** The status an event reports: the one the geofence step writes for it. */
  function EventStatus(e: Geofencing.EventType): string {
    match e
    case Entry => "arrived"
    case Exit => "completed"
  }

  /** The history kind of the notices an event triggers. */
  function EventKind(e: Geofencing.EventType): string {
    match e
    case Entry => AutoNotification.ARRIVAL_KIND
    case Exit => AutoNotification.DEPARTURE_KIND
  }

  /** The reported status is the stored form of the status the geofence step writes. */
  lemma EventStatusMatchesWrite(e: Geofencing.EventType)
    ensures e.Entry? ==> EventStatus(e) == StatusValue(Arrived)
    ensures e.Exit? ==> EventStatus(e) == StatusValue(Completed)
    ensures ParseStatus(EventStatus(e)) == Some(if e.Entry? then Arrived else Completed)
  {
    StatusValueRoundTrip(Arrived);
    StatusValueRoundTrip(Completed);
  }

  /** The previous position: the second entry of the two-sample history, if there is one. */
  function Previous(history: seq<LocationSample>): (r: Option<Coords>)
    ensures r.Some? <==> |history| >= 2
    ensures r.Some? ==> r.value == history[1].coords
  {
    if |history| >= 2 then Some(history[1].coords) else None
  }

  const MESSAGE_HEAD: string := "位置情報を記録しました。"
  const MESSAGE_TAIL: string := "件のジオフェンスイベントを処理しました。"

  /** The response message, reporting the number of events. */
  function ResponseMessage(count: nat): string {
    MESSAGE_HEAD + NatToString(count) + MESSAGE_TAIL
  }

  /** The event count reads back out of the message. */
  lemma ResponseMessageCount(count: nat)
    ensures MESSAGE_HEAD <= ResponseMessage(count)
    ensures ParseLeadingNat(ResponseMessage(count)[|MESSAGE_HEAD|..]) == Some((count, MESSAGE_TAIL))
  {
    assert ResponseMessage(count)[|MESSAGE_HEAD|..] == NatToString(count) + MESSAGE_TAIL;
    ParseRenderedNat(count, MESSAGE_TAIL);
  }

  /** The `triggered_notifications` entries of the updates: one per notification id, in order. */
  function TriggeredOf(updates: seq<ScheduleReport>): (r: seq<Triggered>)
    ensures |r| == TotalIds(updates)
    ensures forall t :: t in r ==> exists u :: u in updates && t == Triggered(EventKind(u.eventType), u.scheduleId)
  {
    if updates == [] then []
    else
      var u := updates[|updates| - 1];
      var front := updates[..|updates| - 1];
      var r := TriggeredOf(front) + seq(|u.notificationIds|, _ => Triggered(EventKind(u.eventType), u.scheduleId));
      assert forall t :: t in TriggeredOf(front) ==> exists v :: v in updates && t == Triggered(EventKind(v.eventType), v.scheduleId) by {
        forall t | t in TriggeredOf(front)
          ensures exists v :: v in updates && t == Triggered(EventKind(v.eventType), v.scheduleId)
        {
          var v :| v in front && t == Triggered(EventKind(v.eventType), v.scheduleId);
          assert v in updates;
        }
      }
      r
  }

  /** The number of notification ids across the updates. */
  function TotalIds(updates: seq<ScheduleReport>): nat {
    if updates == [] then 0 else TotalIds(updates[..|updates| - 1]) + |updates[|updates| - 1].notificationIds|
  }

  /** Every id of `ids` is a new row of `h` for the schedule, of the given kind. */
  ghost predicate RowsFor(h0: map<string, HistoryRow>, h: map<string, HistoryRow>, ids: seq<string>, scheduleId: string, kind: string) {
    forall i :: 0 <= i < |ids| ==> ids[i] in h && ids[i] !in h0 && h[ids[i]].scheduleId == scheduleId && h[ids[i]].kind == kind
  }

  /**
   * One event of the loop: an entry dispatches the arrival notice and
   * reports "arrived", an exit the departure notice and "completed"; each
   * returned id is a new history row of the event's schedule and kind.
   */
  method HandleEvent(
    db: Store.Db, e: Geofencing.GeofenceEvent, cur: Coords, render: AutoNotification.Render,
    net: string -> Notifications.Transport, now: Time)
    returns (u: ScheduleReport)
    modifies db`users, db`notifications, db`notificationHistory
    ensures u.scheduleId == e.schedule.id && u.destinationName == e.schedule.destinationName
    ensures u.eventType == e.eventType && u.distance == e.distanceToDestination && u.status == EventStatus(e.eventType)
    ensures AutoNotification.TokensPruned(old(db.users), db.users)
    ensures AutoNotification.Grows(old(db.notificationHistory), db.notificationHistory)
    ensures |db.notificationHistory| == |old(db.notificationHistory)| + |u.notificationIds|
    ensures RowsFor(old(db.notificationHistory), db.notificationHistory, u.notificationIds, e.schedule.id, EventKind(e.eventType))
  {
    var s := e.schedule;
    ghost var h, us := db.notificationHistory, db.users;
    var ids;
    if e.eventType.Entry? {
      ids := AutoNotification.SendArrivalNotification(db, s, cur, render, net, now);
      if s.notifyOnArrival && s.userId in us {
        var name := SenderName(us[s.userId]);
        var message := AutoNotification.ArrivalMessage(name, s.destinationName, now);
        AutoNotification.LoggedRows(h, db.notificationHistory, ids, AutoNotification.Delivered(s.notifyTo, us.Keys),
          AutoNotification.Letter(s.userId, s.id, AutoNotification.ARRIVAL_KIND, message, AutoNotification.MapLink(render, cur), now));
      }
    } else {
      ids := AutoNotification.SendDepartureNotification(db, s, cur, render, net, now);
      if s.notifyOnDeparture && s.userId in us {
        var name := SenderName(us[s.userId]);
        var message := AutoNotification.DepartureMessage(name, s.destinationName, now);
        AutoNotification.LoggedRows(h, db.notificationHistory, ids, AutoNotification.Delivered(s.notifyTo, us.Keys),
          AutoNotification.Letter(s.userId, s.id, AutoNotification.DEPARTURE_KIND, message, AutoNotification.MapLink(render, s.destination), now));
      }
    }
    u := ScheduleReport(s.id, s.destinationName, e.eventType, e.distanceToDestination, EventStatus(e.eventType), ids);
  }

  /**
   * The event loop of `update_location`: one schedule update per event, in
   * event order, and the triggered entries of each update's ids.
   */
  method HandleEvents(
    db: Store.Db, events: seq<Geofencing.GeofenceEvent>, cur: Coords, render: AutoNotification.Render,
    net: string -> Notifications.Transport, now: Time)
    returns (updates: seq<ScheduleReport>, triggered: seq<Triggered>)
    modifies db`users, db`notifications, db`notificationHistory
    ensures |updates| == |events|
    ensures forall i :: 0 <= i < |events| ==>
      && updates[i].scheduleId == events[i].schedule.id
      && updates[i].destinationName == events[i].schedule.destinationName
      && updates[i].eventType == events[i].eventType
      && updates[i].distance == events[i].distanceToDestination
      && updates[i].status == EventStatus(events[i].eventType)
      && RowsFor(old(db.notificationHistory), db.notificationHistory, updates[i].notificationIds,
                 events[i].schedule.id, EventKind(events[i].eventType))
    ensures triggered == TriggeredOf(updates)
    ensures AutoNotification.TokensPruned(old(db.users), db.users)
    ensures AutoNotification.Grows(old(db.notificationHistory), db.notificationHistory)
    ensures |db.notificationHistory| == |old(db.notificationHistory)| + |triggered|
  {
    ghost var h0, u0 := db.notificationHistory, db.users;
    updates, triggered := [], [];
    var i := 0;
    while i < |events|
      invariant 0 <= i <= |events| && |updates| == i
      invariant Reported(h0, db.notificationHistory, events, updates)
      invariant triggered == TriggeredOf(updates)
      invariant AutoNotification.TokensPruned(u0, db.users)
      invariant AutoNotification.Grows(h0, db.notificationHistory)
      invariant |db.notificationHistory| == |h0| + |triggered|
    {
      ghost var hb, ub := db.notificationHistory, db.users;
      var u := HandleEvent(db, events[i], cur, render, net, now);
      AutoNotification.TokensPrunedTrans(u0, ub, db.users);
      ReportedStep(h0, hb, db.notificationHistory, events, updates, u);
      TriggeredAppend(updates, u);
      updates := updates + [u];
      triggered := triggered + seq(|u.notificationIds|, _ => Triggered(EventKind(u.eventType), u.scheduleId));
      i := i + 1;
    }
  }

  /** The first `|updates|` events are reported by `updates`, their ids being new rows of `h`. */
  ghost predicate Reported(
    h0: map<string, HistoryRow>, h: map<string, HistoryRow>, events: seq<Geofencing.GeofenceEvent>, updates: seq<ScheduleReport>)
  {
    && |updates| <= |events|
    && forall j :: 0 <= j < |updates| ==>
      && updates[j].scheduleId == events[j].schedule.id
      && updates[j].destinationName == events[j].schedule.destinationName
      && updates[j].eventType == events[j].eventType
      && updates[j].distance == events[j].distanceToDestination
      && updates[j].status == EventStatus(events[j].eventType)
      && RowsFor(h0, h, updates[j].notificationIds, events[j].schedule.id, EventKind(events[j].eventType))
  }

  lemma {:induction false} ReportedStep(
    h0: map<string, HistoryRow>, hb: map<string, HistoryRow>, ha: map<string, HistoryRow>,
    events: seq<Geofencing.GeofenceEvent>, updates: seq<ScheduleReport>, u: ScheduleReport)
    requires |updates| < |events|
    requires Reported(h0, hb, events, updates)
    requires AutoNotification.Grows(h0, hb) && AutoNotification.Grows(hb, ha)
    requires var e := events[|updates|];
      && u.scheduleId == e.schedule.id && u.destinationName == e.schedule.destinationName && u.eventType == e.eventType
      && u.distance == e.distanceToDestination && u.status == EventStatus(e.eventType)
      && RowsFor(hb, ha, u.notificationIds, e.schedule.id, EventKind(e.eventType))
    ensures Reported(h0, ha, events, updates + [u])
    ensures AutoNotification.Grows(h0, ha)
  {
    var n := |updates|;
    forall j | 0 <= j < n + 1
      ensures RowsFor(h0, ha, (updates + [u])[j].notificationIds, events[j].schedule.id, EventKind(events[j].eventType))
    {
      if j < n {
        assert (updates + [u])[j] == updates[j];
      } else {
        assert (updates + [u])[j] == u;
        forall i | 0 <= i < |u.notificationIds|
          ensures u.notificationIds[i] !in h0
        {
          assert u.notificationIds[i] !in hb;
        }
      }
    }
  }

  lemma TriggeredAppend(updates: seq<ScheduleReport>, u: ScheduleReport)
    ensures TriggeredOf(updates + [u]) ==
      TriggeredOf(updates) + seq(|u.notificationIds|, _ => Triggered(EventKind(u.eventType), u.scheduleId))
  {
    assert (updates + [u])[..|updates|] == updates;
  }

  /**
   * `update_location`: records the sample, reads the user's two newest
   * samples (the new one included) to find the previous position, runs the
   * geofence update and handles its events. `history` is the user's full
   * newest-first listing after recording, `loaded` the schedules the
   * geofence update evaluated.
   */
  method UpdateLocation(
    db: Store.Db, dist: Geofencing.Distance, render: AutoNotification.Render, net: string -> Notifications.Transport,
    uid: string, req: LocationUpdateRequest, now: Time)
    returns (resp: LocationUpdateResponse, ghost sample: LocationSample, ghost history: seq<LocationSample>,
             ghost events: seq<Geofencing.GeofenceEvent>, ghost loaded: seq<Schedule>)
    requires Schedules.Keyed(db.schedules)
    modifies db`locationHistory, db`schedules, db`users, db`notifications, db`notificationHistory
    ensures sample.id !in old(db.locationHistory) && sample == Locations.NewSample(sample.id, uid, req, None, now)
    ensures db.locationHistory == old(db.locationHistory)[sample.id := sample]
    ensures forall x :: x in history <==> x in db.locationHistory.Values && x.userId == uid
    ensures SortedBy(history, Locations.RecordedKey, true)
    ensures |history| == |KeysWhere(db.locationHistory, x => Locations.OfUser(uid, x))|
    ensures (forall k :: k in old(db.locationHistory) && old(db.locationHistory)[k].userId == uid ==>
               old(db.locationHistory)[k].recordedAt < sample.recordedAt)
            ==> history != [] && history[0] == sample
    ensures Geofencing.LiveListing(old(db.schedules), uid, loaded)
    ensures events == Geofencing.Events(dist, loaded, req.coords, Previous(history), now)
    ensures forall i, j :: 0 <= i < j < |events| ==> events[i].schedule.id != events[j].schedule.id
    ensures db.schedules == Geofencing.Apply(dist, old(db.schedules), loaded, req.coords, Previous(history), now)
    ensures resp.locationRecorded && resp.message == ResponseMessage(|events|)
    ensures |resp.scheduleUpdates| == |events|
    ensures forall i :: 0 <= i < |events| ==>
      && resp.scheduleUpdates[i].scheduleId == events[i].schedule.id
      && resp.scheduleUpdates[i].destinationName == events[i].schedule.destinationName
      && resp.scheduleUpdates[i].eventType == events[i].eventType
      && resp.scheduleUpdates[i].distance == events[i].distanceToDestination
      && resp.scheduleUpdates[i].status == EventStatus(events[i].eventType)
      && RowsFor(old(db.notificationHistory), db.notificationHistory, resp.scheduleUpdates[i].notificationIds,
                 events[i].schedule.id, EventKind(events[i].eventType))
    ensures resp.triggered == TriggeredOf(resp.scheduleUpdates)
    ensures |db.notificationHistory| == |old(db.notificationHistory)| + |resp.triggered|
    ensures AutoNotification.TokensPruned(old(db.users), db.users)
  {
    var recorded := Locations.RecordLocation(db, uid, req, None, now);
    sample := recorded;
    var recent, all := Locations.GetLocationHistory(db, uid, 2);
    history := all;
    NewestFirst(db.locationHistory, old(db.locationHistory), sample, uid, history);
    var prev: Option<Coords> := None;
    if |recent| >= 2 {
      prev := Some(recent[1].coords);
    }
    assert prev == Previous(history);
    var evs, ld := Geofencing.ProcessLocationUpdate(db, dist, uid, req.coords, prev, now);
    events, loaded := evs, ld;
    var updates, triggered := HandleEvents(db, evs, req.coords, render, net, now);
    resp := LocationUpdateResponse(ResponseMessage(|evs|), true, triggered, updates);
  }

  /** A sample newer than all of the user's earlier ones heads the newest-first listing. */
  lemma NewestFirst(
    m: map<string, LocationSample>, m0: map<string, LocationSample>, sample: LocationSample, uid: string, history: seq<LocationSample>)
    requires sample.userId == uid && m == m0[sample.id := sample] && sample.id !in m0
    requires forall x :: x in history <==> x in m.Values && x.userId == uid
    requires SortedBy(history, Locations.RecordedKey, true)
    ensures (forall k :: k in m0 && m0[k].userId == uid ==> m0[k].recordedAt < sample.recordedAt)
            ==> history != [] && history[0] == sample
  {
    if forall k :: k in m0 && m0[k].userId == uid ==> m0[k].recordedAt < sample.recordedAt {
      assert sample in m.Values by {
        assert m[sample.id] == sample;
      }
      var j :| 0 <= j < |history| && history[j] == sample;
      var first := history[0];
      assert first in m.Values;
      var k :| k in m && m[k] == first;
      assert first.recordedAt >= sample.recordedAt by {
        if j != 0 {
          assert Before(Locations.RecordedKey, true, history[0], history[j]);
        }
      }
      assert k == sample.id;
    }
  }

  /** `LocationStatusResponse`. */
  datatype LocationStatusResponse = LocationStatusResponse(
    currentLocation: Option<Coords>,
    lastUpdated: Option<Time>,
    activeSchedules: seq<ScheduleStatusInfo>)

  /**
   * `GET /location/status`: the newest sample's position and time, if the
   * user has any sample, and one status row per ACTIVE or ARRIVED schedule,
   * in loading order. `loaded` is the schedule listing the rows follow and
   * `rowsLatest` the sample the service's own latest-location query found;
   * it was recorded at the reported `last_updated`.
   */
  method GetLocationStatus(db: Store.Db, dist: Geofencing.Distance, uid: string)
    returns (resp: LocationStatusResponse, ghost loaded: seq<Schedule>, ghost rowsLatest: Option<LocationSample>)
    requires Schedules.Keyed(db.schedules)
    ensures resp.currentLocation.None? <==> forall k :: k in db.locationHistory ==> db.locationHistory[k].userId != uid
    ensures resp.currentLocation.Some? <==> resp.lastUpdated.Some?
    ensures resp.currentLocation.Some? ==>
      exists x :: x in db.locationHistory.Values && x.userId == uid && resp.currentLocation == Some(x.coords) && resp.lastUpdated == Some(x.recordedAt)
    ensures resp.lastUpdated.Some? ==>
      forall k :: k in db.locationHistory && db.locationHistory[k].userId == uid ==>
        db.locationHistory[k].recordedAt <= resp.lastUpdated.value
    ensures Geofencing.LiveListing(db.schedules, uid, loaded)
    ensures |resp.activeSchedules| == |loaded|
    ensures Locations.LatestOf(db.locationHistory, uid, rowsLatest)
    ensures rowsLatest.Some? <==> resp.lastUpdated.Some?
    ensures rowsLatest.Some? ==> resp.lastUpdated == Some(rowsLatest.value.recordedAt)
    ensures forall i :: 0 <= i < |resp.activeSchedules| ==> resp.activeSchedules[i] == Locations.StatusRow(dist, loaded[i], rowsLatest)
  {
    var latest := Locations.GetLatestLocation(db, uid);
    var rows, ld, rl := Locations.GetActiveScheduleStatus(db, dist, uid);
    loaded, rowsLatest := ld, rl;
    if latest.Some? && rl.Some? {
      var a := latest.value;
      var b := rl.value;
      var ka :| ka in db.locationHistory && db.locationHistory[ka] == a;
      var kb :| kb in db.locationHistory && db.locationHistory[kb] == b;
      assert a.recordedAt <= b.recordedAt && b.recordedAt <= a.recordedAt;
    }
    if latest.Some? {
      resp := LocationStatusResponse(Some(latest.value.coords), Some(latest.value.recordedAt), rows);
    } else {
      resp := LocationStatusResponse(None, None, rows);
    }
  }
}
