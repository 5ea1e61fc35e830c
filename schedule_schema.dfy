/**
 * A planned visit (`schedules` collection): its status enumeration, the
 * stored document, the create and partial-update payloads and their field
 * bounds.
 */
module ScheduleSchema {
  import opened Common

  datatype ScheduleStatus = Active | Arrived | Completed | Expired

  datatype Recurrence = Daily | Weekdays | Weekends

  const DEFAULT_GEOFENCE_RADIUS: int := 50
  const MIN_GEOFENCE_RADIUS: int := 10
  const MAX_GEOFENCE_RADIUS: int := 500
  const DEFAULT_NOTIFY_AFTER_MINUTES: int := 60
  const MIN_NOTIFY_AFTER_MINUTES: int := 1
  const MAX_NOTIFY_AFTER_MINUTES: int := 1440

  /** The string stored in the `status` field. */
  function StatusValue(s: ScheduleStatus): string {
    match s
    case Active => "active"
    case Arrived => "arrived"
    case Completed => "completed"
    case Expired => "expired"
  }

  /** Reading the `status` field back: any other string is refused. */
  function ParseStatus(v: string): (r: Option<ScheduleStatus>)
    ensures r.Some? ==> StatusValue(r.value) == v
  {
    if v == "active" then Some(Active)
    else if v == "arrived" then Some(Arrived)
    else if v == "completed" then Some(Completed)
    else if v == "expired" then Some(Expired)
    else None
  }

  lemma StatusValueRoundTrip(s: ScheduleStatus)
    ensures ParseStatus(StatusValue(s)) == Some(s)
  {
  }

  /** A stored schedule (`LocationScheduleInDB`). */
  datatype Schedule = Schedule(
    id: string,
    userId: string,
    destinationName: string,
    destinationAddress: string,
    destination: Coords,
    geofenceRadius: int,
    notifyTo: seq<string>,
    startTime: Time,
    endTime: Time,
    recurrence: Option<Recurrence>,
    notifyOnArrival: bool,
    notifyAfterMinutes: int,
    notifyOnDeparture: bool,
    status: ScheduleStatus,
    arrivedAt: Option<Time>,
    departedAt: Option<Time>,
    favorite: bool,
    createdAt: Time,
    updatedAt: Time)

  /** The creation payload (`LocationScheduleCreate`). */
  datatype ScheduleCreate = ScheduleCreate(
    destinationName: string,
    destinationAddress: string,
    destination: Coords,
    geofenceRadius: int,
    notifyTo: seq<string>,
    startTime: Time,
    endTime: Time,
    recurrence: Option<Recurrence>,
    notifyOnArrival: bool,
    notifyAfterMinutes: int,
    notifyOnDeparture: bool,
    favorite: bool)

  /** The partial update (`LocationScheduleUpdate`): every field optional. */
  datatype ScheduleUpdate = ScheduleUpdate(
    destinationName: Option<string>,
    destinationAddress: Option<string>,
    destination: Option<Coords>,
    geofenceRadius: Option<int>,
    notifyTo: Option<seq<string>>,
    startTime: Option<Time>,
    endTime: Option<Time>,
    recurrence: Option<Recurrence>,
    notifyOnArrival: Option<bool>,
    notifyAfterMinutes: Option<int>,
    notifyOnDeparture: Option<bool>)

  predicate ValidName(s: string) { 1 <= |s| <= 100 }
  predicate ValidAddress(s: string) { 1 <= |s| <= 200 }
  predicate ValidRadius(r: int) { MIN_GEOFENCE_RADIUS <= r <= MAX_GEOFENCE_RADIUS }
  predicate ValidNotifyAfter(m: int) { MIN_NOTIFY_AFTER_MINUTES <= m <= MAX_NOTIFY_AFTER_MINUTES }
  predicate ValidRecipients(ids: seq<string>) { |ids| >= 1 }

  /** The field bounds of `LocationScheduleBase`, which every create payload and stored document meets. */
  predicate ValidCreate(c: ScheduleCreate) {
    && ValidName(c.destinationName)
    && ValidAddress(c.destinationAddress)
    && ValidCoords(c.destination)
    && ValidRadius(c.geofenceRadius)
    && ValidRecipients(c.notifyTo)
    && ValidNotifyAfter(c.notifyAfterMinutes)
  }

  predicate ValidSchedule(s: Schedule) {
    && ValidName(s.destinationName)
    && ValidAddress(s.destinationAddress)
    && ValidCoords(s.destination)
    && ValidRadius(s.geofenceRadius)
    && ValidRecipients(s.notifyTo)
    && ValidNotifyAfter(s.notifyAfterMinutes)
  }

  /** An update keeps the bounds of each field it supplies. */
  predicate ValidUpdate(u: ScheduleUpdate) {
    && (u.destinationName.Some? ==> ValidName(u.destinationName.value))
    && (u.destinationAddress.Some? ==> ValidAddress(u.destinationAddress.value))
    && (u.destination.Some? ==> ValidCoords(u.destination.value))
    && (u.geofenceRadius.Some? ==> ValidRadius(u.geofenceRadius.value))
    && (u.notifyTo.Some? ==> ValidRecipients(u.notifyTo.value))
    && (u.notifyAfterMinutes.Some? ==> ValidNotifyAfter(u.notifyAfterMinutes.value))
  }

  /**
   * A creation payload with only the required fields given: the schema's
   * defaults fill in the rest.
   */
  function CreateWithDefaults(
    name: string, address: string, destination: Coords, notifyTo: seq<string>,
    startTime: Time, endTime: Time): (c: ScheduleCreate)
    ensures c.geofenceRadius == DEFAULT_GEOFENCE_RADIUS
    ensures c.notifyAfterMinutes == DEFAULT_NOTIFY_AFTER_MINUTES
    ensures c.notifyOnArrival && c.notifyOnDeparture && !c.favorite && c.recurrence.None?
    ensures ValidName(name) && ValidAddress(address) && ValidCoords(destination) && ValidRecipients(notifyTo)
      ==> ValidCreate(c)
  {
    ScheduleCreate(name, address, destination, DEFAULT_GEOFENCE_RADIUS, notifyTo, startTime, endTime,
                   None, true, DEFAULT_NOTIFY_AFTER_MINUTES, true, false)
  }

  /** The update that changes nothing (every field left unset). */
  const EmptyUpdate: ScheduleUpdate :=
    ScheduleUpdate(None, None, None, None, None, None, None, None, None, None, None)

  /**
   * The stored document `create_schedule` writes: the payload plus id,
   * owner, status ACTIVE, no arrival or departure, and equal creation and
   * update stamps.
   */
  function NewSchedule(id: string, userId: string, c: ScheduleCreate, now: Time): (s: Schedule)
    ensures s.id == id && s.userId == userId
    ensures s.status == Active && s.arrivedAt.None? && s.departedAt.None?
    ensures s.createdAt == now && s.updatedAt == now
    ensures s.startTime == c.startTime && s.endTime == c.endTime
    ensures ValidCreate(c) ==> ValidSchedule(s)
  {
    Schedule(id, userId, c.destinationName, c.destinationAddress, c.destination, c.geofenceRadius,
             c.notifyTo, c.startTime, c.endTime, c.recurrence, c.notifyOnArrival,
             c.notifyAfterMinutes, c.notifyOnDeparture, Active, None, None, c.favorite, now, now)
  }
}
