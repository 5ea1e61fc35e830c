/** Location samples (`location_history` collection) and the status summary built from them. */
module LocationSchema {
  import opened Common

  /** A stored sample (`LocationHistoryInDB`). */
  datatype LocationSample = LocationSample(
    id: string,
    userId: string,
    scheduleId: Option<string>,
    coords: Coords,
    accuracy: Option<real>,
    recordedAt: Time,
    autoDeleteAt: Time)

  /** The ingest payload (`LocationUpdateRequest`). */
  datatype LocationUpdateRequest = LocationUpdateRequest(
    coords: Coords,
    accuracy: Option<real>,
    recordedAt: Option<Time>)

  /** One row of the status summary (`ScheduleStatusInfo`). */
  datatype ScheduleStatusInfo = ScheduleStatusInfo(
    scheduleId: string,
    destinationName: string,
    destinationCoords: Coords,
    status: string,
    distanceToDestination: Option<real>,
    arrivedAt: Option<Time>,
    departedAt: Option<Time>)
}
