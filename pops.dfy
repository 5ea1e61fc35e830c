/**
 * The pop service (`PopService`): posting a pop with its expiry, reading and
 * listing pops, owner-only edits and logical deletion, the reaction counter
 * and the sweep that marks elapsed pops EXPIRED.
 */
module Pops {
  import opened Common
  import opened PopSchema
  import Store

  /**
   * `create_pop`: refused unless the duration is 15, 30, 45 or 60 minutes;
   * otherwise a new ACTIVE pop under a fresh id that expires `duration`
   * minutes from now and has no reactions.
   */
  method CreatePop(db: Store.Db, userId: string, c: PopCreate, now: Time) returns (r: Result<Pop>)
    modifies db`pops
    ensures r.Err? <==> !ValidateDuration(c.durationMinutes)
    ensures r.Err? ==> r.error == InvalidDuration && db.pops == old(db.pops)
    ensures r.Ok? ==> r.value.popId !in old(db.pops) && db.pops == old(db.pops)[r.value.popId := r.value]
    ensures r.Ok? ==> r.value == NewPop(r.value.popId, userId, c, now)
    ensures r.Ok? ==> IsActive(r.value, now) && RemainingMinutes(r.value, now) == c.durationMinutes &&
                      r.value.reactionCount == 0
  {
    if !ValidateDuration(c.durationMinutes) {
      return Err(InvalidDuration);
    }
    var id := FreshKey(db.pops.Keys);
    var p := NewPop(id, userId, c, now);
    db.pops := db.pops[id := p];
    r := Ok(p);
  }

  /** `get_pop_by_id`. */
  method GetPopById(db: Store.Db, id: string) returns (r: Option<Pop>)
    ensures id in db.pops ==> r == Some(db.pops[id])
    ensures id !in db.pops ==> r == None
  {
    if id in db.pops {
      return Some(db.pops[id]);
    }
    r := None;
  }

  /** The filters of the `search_nearby_pops` query: live pops only when asked, the categories when some are given. */
  predicate SearchMatch(p: Pop, onlyActive: bool, categories: seq<PopCategory>, now: Time) {
    (onlyActive ==> p.status == Active && p.expiresAt > now) &&
    (categories != [] ==> p.category in categories)
  }

  /** A distance in kilometres between two positions (the service's Haversine formula). */
  type DistanceKm = (Coords, Coords) -> real

  /**
   * `search_nearby_pops`: the query returns at most `limit` matching pops
   * (in the store's order), of which those within `radiusKm` of the centre
   * are kept.  When no more than `limit` pops match, every nearby match is
   * found.
   */
  method SearchNearbyPops(db: Store.Db, dist: DistanceKm, center: Coords, radiusKm: real,
                          categories: seq<PopCategory>, limit: nat, onlyActive: bool, now: Time)
    returns (r: seq<Pop>)
    ensures |r| <= limit
    ensures forall p :: p in r ==> p in db.pops.Values && SearchMatch(p, onlyActive, categories, now) &&
                                   dist(center, p.location) <= radiusKm
    ensures |KeysWhere(db.pops, p => SearchMatch(p, onlyActive, categories, now))| <= limit ==>
      forall k ::
        (k in db.pops && SearchMatch(db.pops[k], onlyActive, categories, now) &&
         dist(center, db.pops[k].location) <= radiusKm) ==> db.pops[k] in r
  {
    var found := Select(db.pops, p => SearchMatch(p, onlyActive, categories, now));
    var docs := Take(found, limit);
    r := [];
    var i := 0;
    while i < |docs|
      invariant 0 <= i <= |docs|
      invariant |r| <= i
      invariant forall p :: p in r ==> p in docs[..i] && dist(center, p.location) <= radiusKm
      invariant forall j :: 0 <= j < i && dist(center, docs[j].location) <= radiusKm ==> docs[j] in r
    {
      if dist(center, docs[i].location) <= radiusKm {
        r := r + [docs[i]];
      }
      i := i + 1;
    }
    forall p | p in r
      ensures p in found
    {
      var j :| 0 <= j < |docs| && docs[j] == p;
      assert found[j] == p;
    }
    if |found| <= limit {
      assert docs == found;
    }
  }

  function CreatedKey(p: Pop): real {
    p.createdAt as real
  }

  /** The filter of `get_user_pops`: the user's pops, only the live ones unless expired ones are asked for. */
  predicate UserPop(p: Pop, userId: string, includeExpired: bool, now: Time) {
    p.userId == userId && (!includeExpired ==> p.status == Active && p.expiresAt > now)
  }

  /** `get_user_pops`: newest first. */
  method GetUserPops(db: Store.Db, userId: string, includeExpired: bool, now: Time) returns (r: seq<Pop>)
    ensures forall p :: p in r <==> p in db.pops.Values && UserPop(p, userId, includeExpired, now)
    ensures |r| == |KeysWhere(db.pops, p => UserPop(p, userId, includeExpired, now))|
    ensures SortedBy(r, CreatedKey, true)
    ensures !includeExpired ==> forall p :: p in r ==> IsActive(p, now)
  {
    r := SelectSorted(db.pops, p => UserPop(p, userId, includeExpired, now), CreatedKey, true);
  }

  /** The fields `update_pop` writes: the given content and category, nothing else. */
  function ApplyPopUpdate(p: Pop, u: PopUpdate): (q: Pop)
    ensures q.content == (if u.content.Some? then u.content.value else p.content)
    ensures q.category == (if u.category.Some? then u.category.value else p.category)
    ensures q.(content := p.content, category := p.category) == p
    ensures u.content.None? && u.category.None? ==> q == p
  {
    p.(content := if u.content.Some? then u.content.value else p.content,
       category := if u.category.Some? then u.category.value else p.category)
  }

  /** The owner checks of `update_pop` and `delete_pop`. */
  function OwnerCheck(pops: map<string, Pop>, id: string, userId: string): (r: Outcome)
    ensures r.Pass? <==> id in pops && pops[id].userId == userId
    ensures id !in pops ==> r == Fail(NotFound)
    ensures id in pops && pops[id].userId != userId ==> r == Fail(Forbidden)
  {
    if id !in pops then Fail(NotFound)
    else if pops[id].userId != userId then Fail(Forbidden)
    else Pass
  }

  /** `update_pop`: owner only; writes nothing when neither field is given. */
  method UpdatePop(db: Store.Db, id: string, userId: string, u: PopUpdate) returns (r: Outcome)
    modifies db`pops
    ensures r == OwnerCheck(old(db.pops), id, userId)
    ensures r.Pass? ==> db.pops == old(db.pops)[id := ApplyPopUpdate(old(db.pops)[id], u)]
    ensures r.Fail? || (u.content.None? && u.category.None?) ==> db.pops == old(db.pops)
  {
    r := OwnerCheck(db.pops, id, userId);
    if r.Fail? {
      return;
    }
    if u.content.Some? || u.category.Some? {
      db.pops := db.pops[id := ApplyPopUpdate(db.pops[id], u)];
    }
  }

  /** `delete_pop`: owner only; the pop stays stored with status DELETED. */
  method DeletePop(db: Store.Db, id: string, userId: string) returns (r: Outcome)
    modifies db`pops
    ensures r == OwnerCheck(old(db.pops), id, userId)
    ensures r.Pass? ==> db.pops == old(db.pops)[id := old(db.pops)[id].(status := Deleted)]
    ensures r.Pass? ==> id in db.pops && forall t :: !IsActive(db.pops[id], t)
    ensures r.Fail? ==> db.pops == old(db.pops)
  {
    r := OwnerCheck(db.pops, id, userId);
    if r.Fail? {
      return;
    }
    db.pops := db.pops[id := db.pops[id].(status := Deleted)];
  }

  /** The pop with `delta` added to its reaction counter. */
  function Bumped(p: Pop, delta: int): (q: Pop)
    ensures q.reactionCount == p.reactionCount + delta
    ensures q.(reactionCount := p.reactionCount) == p
  {
    p.(reactionCount := p.reactionCount + delta)
  }

  /**
   * `increment_reaction_count`: an atomic +1 on the counter; the store
   * refuses the update of a missing pop.
   */
  method IncrementReactionCount(db: Store.Db, id: string) returns (r: Outcome)
    modifies db`pops
    ensures r.Fail? <==> id !in old(db.pops)
    ensures r.Fail? ==> r.error == NotFound && db.pops == old(db.pops)
    ensures r.Pass? ==> db.pops == old(db.pops)[id := Bumped(old(db.pops)[id], 1)]
  {
    if id !in db.pops {
      return Fail(NotFound);
    }
    db.pops := db.pops[id := Bumped(db.pops[id], 1)];
    r := Pass;
  }

  /** `decrement_reaction_count`: an atomic -1, with no lower bound. */
  method DecrementReactionCount(db: Store.Db, id: string) returns (r: Outcome)
    modifies db`pops
    ensures r.Fail? <==> id !in old(db.pops)
    ensures r.Fail? ==> r.error == NotFound && db.pops == old(db.pops)
    ensures r.Pass? ==> db.pops == old(db.pops)[id := Bumped(old(db.pops)[id], -1)]
  {
    if id !in db.pops {
      return Fail(NotFound);
    }
    db.pops := db.pops[id := Bumped(db.pops[id], -1)];
    r := Pass;
  }

  /** An increment followed by a decrement leaves the pop as it was. */
  lemma {:induction false} BumpedCancels(p: Pop)
    ensures Bumped(Bumped(p, 1), -1) == p
  {
  }

  /** The filter of `expire_old_pops`: ACTIVE and at or past its expiry. */
  predicate Elapsed(p: Pop, now: Time) {
    p.status == Active && p.expiresAt <= now
  }

  /** The pops after the sweep. */
  function ExpirePops(m: map<string, Pop>, now: Time): map<string, Pop> {
    map k | k in m :: if Elapsed(m[k], now) then m[k].(status := Expired) else m[k]
  }

  /**
   * What the sweep changes is exactly what `is_active` already reports:
   * no pop changes whether it is active at `now`, every elapsed pop is
   * EXPIRED, and a second sweep changes nothing.
   */
  lemma {:induction false} ExpirePopsSound(m: map<string, Pop>, now: Time)
    ensures ExpirePops(m, now).Keys == m.Keys
    ensures forall k :: k in m ==> (IsActive(ExpirePops(m, now)[k], now) <==> IsActive(m[k], now))
    ensures forall k :: k in m && Elapsed(m[k], now) ==> ExpirePops(m, now)[k].status == Expired
    ensures KeysWhere(ExpirePops(m, now), p => Elapsed(p, now)) == {}
    ensures ExpirePops(ExpirePops(m, now), now) == ExpirePops(m, now)
  {
    var m1 := ExpirePops(m, now);
    forall k | k in m1
      ensures !Elapsed(m1[k], now)
    {
    }
  }

  ghost predicate ExpireInv(m0: map<string, Pop>, m: map<string, Pop>, done: set<string>) {
    m.Keys == m0.Keys &&
    forall k :: k in m ==> m[k] == if k in done then m0[k].(status := Expired) else m0[k]
  }

  lemma {:induction false} ExpireStep(m0: map<string, Pop>, m: map<string, Pop>, done: set<string>, k: string)
    requires ExpireInv(m0, m, done)
    requires k in m0 && k !in done
    ensures ExpireInv(m0, m[k := m[k].(status := Expired)], done + {k})
  {
  }

  lemma {:induction false} ExpireDone(m0: map<string, Pop>, m: map<string, Pop>, now: Time)
    requires ExpireInv(m0, m, KeysWhere(m0, p => Elapsed(p, now)))
    ensures m == ExpirePops(m0, now)
  {
  }

  /** `expire_old_pops`: every elapsed ACTIVE pop becomes EXPIRED; returns how many. */
  method ExpireOldPops(db: Store.Db, now: Time) returns (count: nat)
    modifies db`pops
    ensures db.pops == ExpirePops(old(db.pops), now)
    ensures count == |KeysWhere(old(db.pops), p => Elapsed(p, now))|
  {
    ghost var m0 := db.pops;
    var matching := KeysWhere(db.pops, p => Elapsed(p, now));
    var todo := matching;
    count := 0;
    while todo != {}
      invariant todo <= matching
      invariant count + |todo| == |matching|
      invariant ExpireInv(m0, db.pops, matching - todo)
      decreases todo
    {
      var k :| k in todo;
      ExpireStep(m0, db.pops, matching - todo, k);
      db.pops := db.pops[k := db.pops[k].(status := Expired)];
      assert matching - (todo - {k}) == (matching - todo) + {k};
      count := count + 1;
      todo := todo - {k};
    }
    assert matching - todo == matching;
    ExpireDone(m0, db.pops, now);
  }
}
