/**
 * A short-lived post (`pops` collection): its enumerations, the stored
 * document, the create and update payloads, and the time-dimming
 * arithmetic the schema computes from the clock.
 */
module PopSchema {
  import opened Common

  datatype PopCategory = Food | Hobby | Sports | Study | Event | Business | Game | Other

  datatype PopStatus = Active | Expired | Deleted

  datatype PopVisibility = Public | FriendsOnly

  const MIN_DURATION_MINUTES: int := 15
  const MAX_DURATION_MINUTES: int := 60
  const DEFAULT_DURATION_MINUTES: int := 30

  /**
   * A stored pop (`PopInDB`). `activeFlag`, `deletedAt` and `autoDeleted`
   * are the `is_active`, `deleted_at` and `auto_deleted` fields that only
   * the scheduled clean-up functions read and write; `create_pop` does not
   * write them, so a freshly created pop has none of them.
   */
  datatype Pop = Pop(
    popId: string,
    userId: string,
    content: string,
    category: PopCategory,
    location: Coords,
    createdAt: Time,
    expiresAt: Time,
    durationMinutes: int,
    reactionCount: int,
    isPremium: bool,
    status: PopStatus,
    visibility: PopVisibility,
    activeFlag: Option<bool>,
    deletedAt: Option<Time>,
    autoDeleted: Option<bool>)

  /** The creation payload (`PopCreate`). */
  datatype PopCreate = PopCreate(
    content: string,
    category: PopCategory,
    location: Coords,
    durationMinutes: int,
    visibility: PopVisibility,
    isPremium: bool)

  /** The partial update (`PopUpdate`). */
  datatype PopUpdate = PopUpdate(content: Option<string>, category: Option<PopCategory>)

  /** The field bounds of `PopCreate`: content length, location, and a duration in 15..60. */
  predicate ValidCreate(c: PopCreate) {
    && 1 <= |c.content| <= 500
    && ValidCoords(c.location)
    && MIN_DURATION_MINUTES <= c.durationMinutes <= MAX_DURATION_MINUTES
  }

  /** A payload with only the required fields given: duration 30, public, not premium. */
  function CreateWithDefaults(content: string, category: PopCategory, location: Coords): (c: PopCreate)
    ensures c.durationMinutes == DEFAULT_DURATION_MINUTES
    ensures c.visibility == Public && !c.isPremium
    ensures 1 <= |content| <= 500 && ValidCoords(location) ==> ValidCreate(c)
  {
    PopCreate(content, category, location, DEFAULT_DURATION_MINUTES, Public, false)
  }

  /** `PopCreate.validate_duration`: the duration must be one of the four offered values. */
  predicate ValidateDuration(minutes: int) {
    minutes == 15 || minutes == 30 || minutes == 45 || minutes == 60
  }

  /** The offered durations are exactly the whole quarter-hours from 15 to 60 minutes. */
  lemma ValidateDurationQuarterHours(minutes: int)
    ensures ValidateDuration(minutes) <==>
      MIN_DURATION_MINUTES <= minutes <= MAX_DURATION_MINUTES && minutes % 15 == 0
  {
    if MIN_DURATION_MINUTES <= minutes <= MAX_DURATION_MINUTES && minutes % 15 == 0 {
      assert minutes == 15 * (minutes / 15);
      assert 1 <= minutes / 15 <= 4;
    }
  }

  /** `PopInDB.is_active`: still ACTIVE and not yet past its expiry. */
  predicate IsActive(p: Pop, now: Time) {
    p.status == Active && p.expiresAt > now
  }

  /** `PopInDB.remaining_minutes`: whole minutes left, 0 for an inactive pop. */
  function RemainingMinutes(p: Pop, now: Time): (r: int)
    ensures r >= 0
    ensures !IsActive(p, now) ==> r == 0
    ensures IsActive(p, now) ==> r * MINUTE <= p.expiresAt - now < (r + 1) * MINUTE
  {
    if !IsActive(p, now) then 0
    else
      var m := TruncDiv(p.expiresAt - now, MINUTE);
      if m > 0 then m else 0
  }

  /**
   * The display-size ratio for `remaining` of `total` minutes: 1.0 from
   * half the duration up, 0.8 from 33 %, 0.6 from 17 %, 0.4 below. The
   * thresholds are compared exactly (`remaining * 100 >= total * 33`).
   */
  function ShrinkFor(remaining: int, total: int): real {
    if remaining * 100 >= total * 50 then 1.0
    else if remaining * 100 >= total * 33 then 0.8
    else if remaining * 100 >= total * 17 then 0.6
    else 0.4
  }

  /** `PopInDB.shrink_ratio`. */
  function ShrinkRatio(p: Pop, now: Time): (r: real)
    ensures r == 1.0 || r == 0.8 || r == 0.6 || r == 0.4
    ensures !IsActive(p, now) && p.durationMinutes > 0 ==> r == 0.4
  {
    ShrinkFor(RemainingMinutes(p, now), p.durationMinutes)
  }

  /** More time left never makes a pop smaller. */
  lemma ShrinkMonotone(r1: int, r2: int, total: int)
    requires r1 <= r2
    ensures ShrinkFor(r1, total) <= ShrinkFor(r2, total)
  {
  }

  /** The ratio lies in [0.4, 1.0], and a pop with its whole duration left is shown at full size. */
  lemma ShrinkBounds(remaining: int, total: int)
    requires total >= 0
    ensures 0.4 <= ShrinkFor(remaining, total) <= 1.0
    ensures remaining >= total ==> ShrinkFor(remaining, total) == 1.0
    ensures remaining < 0 ==> total > 0 ==> ShrinkFor(remaining, total) == 0.4
  {
  }

  /**
   * The stored document `create_pop` writes: expiry `duration` minutes
   * after creation, no reactions yet, status ACTIVE.
   */
  function NewPop(id: string, userId: string, c: PopCreate, now: Time): (p: Pop)
    ensures p.popId == id && p.userId == userId
    ensures p.expiresAt == now + c.durationMinutes * MINUTE && p.createdAt == now
    ensures p.reactionCount == 0 && p.status == Active
    ensures p.activeFlag.None? && p.deletedAt.None?
    ensures c.durationMinutes > 0 ==> IsActive(p, now) && RemainingMinutes(p, now) == c.durationMinutes
  {
    Pop(id, userId, c.content, c.category, c.location, now, now + c.durationMinutes * MINUTE,
        c.durationMinutes, 0, c.isPremium, Active, c.visibility, None, None, None)
  }
}
