/**
 * The friend service (`FriendService`): friend requests and their answers,
 * the two directed friendship rows an accepted request creates, removal and
 * blocking, and the location-share requests that switch on one direction's
 * `can_see_friend_location`.
 */
module Friends {
  import opened Common
  import opened FriendSchema
  import opened UserSchema
  import Store

  // ---------------------------------------------------------------------
  // Store shape and queries
  // ---------------------------------------------------------------------

  /** Every stored document is filed under its own id (the id is the document reference's id). */
  predicate Keyed(db: Store.Db)
    reads db
  {
    && (forall k :: k in db.friendRequests ==> db.friendRequests[k].requestId == k)
    && (forall k :: k in db.friendships ==> db.friendships[k].friendshipId == k)
    && (forall k :: k in db.shareRequests ==> db.shareRequests[k].requestId == k)
  }

  /** An ACTIVE friendship row from `u` to `f`. */
  predicate Link(x: Friendship, u: string, f: string) {
    x.userId == u && x.friendId == f && x.status == Active
  }

  /** `is_friend`: some ACTIVE row from `u` to `f` exists. */
  predicate IsFriend(fs: map<string, Friendship>, u: string, f: string) {
    exists k :: k in fs && Link(fs[k], u, f)
  }

  /** `u` may see `f`'s location through some ACTIVE row. */
  predicate SomeLinkSees(fs: map<string, Friendship>, u: string, f: string) {
    exists k :: k in fs && Link(fs[k], u, f) && fs[k].canSeeFriendLocation
  }

  predicate PendingRequest(x: FriendRequest, from: string, to: string) {
    x.fromUserId == from && x.toUserId == to && x.status == Pending
  }

  predicate HasPendingRequest(reqs: map<string, FriendRequest>, from: string, to: string) {
    exists k :: k in reqs && PendingRequest(reqs[k], from, to)
  }

  predicate PendingShare(x: ShareRequest, requester: string, target: string) {
    x.requesterId == requester && x.targetId == target && x.status == Pending
  }

  predicate HasPendingShare(reqs: map<string, ShareRequest>, requester: string, target: string) {
    exists k :: k in reqs && PendingShare(reqs[k], requester, target)
  }

  /** At most one PENDING friend request per ordered pair of users. */
  predicate PendingUnique(reqs: map<string, FriendRequest>) {
    forall k1, k2 ::
      (k1 in reqs && k2 in reqs && reqs[k1].status == Pending && reqs[k2].status == Pending &&
       reqs[k1].fromUserId == reqs[k2].fromUserId && reqs[k1].toUserId == reqs[k2].toUserId) ==> k1 == k2
  }

  /** At most one PENDING location-share request per ordered pair of users. */
  predicate SharePendingUnique(reqs: map<string, ShareRequest>) {
    forall k1, k2 ::
      (k1 in reqs && k2 in reqs && reqs[k1].status == Pending && reqs[k2].status == Pending &&
       reqs[k1].requesterId == reqs[k2].requesterId && reqs[k1].targetId == reqs[k2].targetId) ==> k1 == k2
  }

  /**
   * `get_friendship`: one ACTIVE row from `u` to `f` (the query's
   * `limit(1)` picks any), or None when there is none.
   */
  method GetFriendship(db: Store.Db, u: string, f: string) returns (r: Option<Friendship>)
    requires Keyed(db)
    ensures r.None? <==> !IsFriend(db.friendships, u, f)
    ensures r.Some? ==>
      r.value.friendshipId in db.friendships &&
      db.friendships[r.value.friendshipId] == r.value && Link(r.value, u, f)
  {
    if IsFriend(db.friendships, u, f) {
      var k :| k in db.friendships && Link(db.friendships[k], u, f);
      r := Some(db.friendships[k]);
    } else {
      r := None;
    }
  }

  /** `is_friend`. */
  method IsFriendNow(db: Store.Db, u: string, f: string) returns (b: bool)
    requires Keyed(db)
    ensures b <==> IsFriend(db.friendships, u, f)
  {
    var link := GetFriendship(db, u, f);
    b := link.Some?;
  }

  /**
   * `can_see_location`: false without a friendship; otherwise the flag of
   * the row `get_friendship` picks.  With one row per direction that is
   * exactly that row's flag.
   */
  method CanSeeLocation(db: Store.Db, viewer: string, target: string) returns (b: bool)
    requires Keyed(db)
    ensures !IsFriend(db.friendships, viewer, target) ==> !b
    ensures b ==> SomeLinkSees(db.friendships, viewer, target)
    ensures IsFriend(db.friendships, viewer, target) && !b ==>
      exists k :: k in db.friendships && Link(db.friendships[k], viewer, target) && !db.friendships[k].canSeeFriendLocation
  {
    var link := GetFriendship(db, viewer, target);
    if link.None? {
      return false;
    }
    b := link.value.canSeeFriendLocation;
  }

  /** `get_trust_level`: None without a friendship; otherwise the stored level, FRIEND when absent. */
  method GetTrustLevel(db: Store.Db, u: string, f: string) returns (r: Option<int>)
    requires Keyed(db)
    ensures r.None? <==> !IsFriend(db.friendships, u, f)
    ensures r.Some? ==>
      exists k ::
        k in db.friendships && Link(db.friendships[k], u, f) &&
        r.value == (if db.friendships[k].trustLevel.Some? then db.friendships[k].trustLevel.value else TRUST_LEVEL_FRIEND)
  {
    var link := GetFriendship(db, u, f);
    if link.None? {
      return None;
    }
    var x := link.value;
    r := Some(if x.trustLevel.Some? then x.trustLevel.value else TRUST_LEVEL_FRIEND);
  }

  /** `get_friends`: the user's ACTIVE rows, in the store's order. */
  method GetFriends(db: Store.Db, userId: string) returns (r: seq<Friendship>)
    ensures forall x :: x in r <==> x in db.friendships.Values && x.userId == userId && x.status == Active
    ensures |r| == |KeysWhere(db.friendships, (x: Friendship) => x.userId == userId && x.status == Active)|
  {
    r := Select(db.friendships, (x: Friendship) => x.userId == userId && x.status == Active);
    forall x | x in db.friendships.Values && x.userId == userId && x.status == Active
      ensures x in r
    {
      var k :| k in db.friendships && db.friendships[k] == x;
    }
  }

  // ---------------------------------------------------------------------
  // Friend requests
  // ---------------------------------------------------------------------

  /** The checks `send_friend_request` makes, in its order. */
  function SendCheck(users: set<string>, fs: map<string, Friendship>, reqs: map<string, FriendRequest>,
                     from: string, to: string): (r: Outcome)
    ensures r.Pass? <==> from != to && to in users && !IsFriend(fs, from, to) && !HasPendingRequest(reqs, from, to)
  {
    if from == to then Fail(SelfRequest)
    else if to !in users then Fail(UserNotFound)
    else if IsFriend(fs, from, to) then Fail(AlreadyFriends)
    else if HasPendingRequest(reqs, from, to) then Fail(DuplicateRequest)
    else Pass
  }

  /**
   * `send_friend_request`: refused for oneself, an unknown user, an existing
   * friend or a pending duplicate; otherwise a new PENDING request.
   */
  method SendFriendRequest(db: Store.Db, from: string, to: string, message: Option<string>, now: Time)
    returns (r: Result<FriendRequest>)
    requires Keyed(db)
    modifies db`friendRequests
    ensures r.Err? <==> SendCheck(db.users.Keys, db.friendships, old(db.friendRequests), from, to).Fail?
    ensures r.Err? ==> r.error == SendCheck(db.users.Keys, db.friendships, old(db.friendRequests), from, to).error && db.friendRequests == old(db.friendRequests)
    ensures r.Ok? ==>
      r.value.requestId !in old(db.friendRequests) &&
      db.friendRequests == old(db.friendRequests)[r.value.requestId := r.value]
    ensures r.Ok? ==> r.value == FriendRequest(r.value.requestId, from, to, message, Pending, now, None)
    ensures Keyed(db)
    ensures PendingUnique(old(db.friendRequests)) ==> PendingUnique(db.friendRequests)
  {
    var check := SendCheck(db.users.Keys, db.friendships, db.friendRequests, from, to);
    if check.Fail? {
      return Err(check.error);
    }
    var id := FreshKey(db.friendRequests.Keys);
    var req := FriendRequest(id, from, to, message, Pending, now, None);
    db.friendRequests := db.friendRequests[id := req];
    r := Ok(req);
  }

  function CreatedKey(x: FriendRequest): real {
    x.createdAt as real
  }

  /** `get_received_requests`: the PENDING requests to the user, newest first. */
  method GetReceivedRequests(db: Store.Db, userId: string) returns (r: seq<FriendRequest>)
    ensures forall x :: x in r <==> x in db.friendRequests.Values && x.toUserId == userId && x.status == Pending
    ensures |r| == |KeysWhere(db.friendRequests, (x: FriendRequest) => x.toUserId == userId && x.status == Pending)|
    ensures SortedBy(r, CreatedKey, true)
  {
    r := SelectSorted(db.friendRequests, (x: FriendRequest) => x.toUserId == userId && x.status == Pending, CreatedKey, true);
  }

  /** `get_sent_requests`: the PENDING requests from the user, newest first. */
  method GetSentRequests(db: Store.Db, userId: string) returns (r: seq<FriendRequest>)
    ensures forall x :: x in r <==> x in db.friendRequests.Values && x.fromUserId == userId && x.status == Pending
    ensures |r| == |KeysWhere(db.friendRequests, (x: FriendRequest) => x.fromUserId == userId && x.status == Pending)|
    ensures SortedBy(r, CreatedKey, true)
  {
    r := SelectSorted(db.friendRequests, (x: FriendRequest) => x.fromUserId == userId && x.status == Pending, CreatedKey, true);
  }

  /** The checks of `accept_friend_request` and `reject_friend_request`: it exists, is addressed to the caller, is PENDING. */
  function AnswerCheck(reqs: map<string, FriendRequest>, userId: string, id: string): (r: Outcome)
    ensures r.Pass? <==> id in reqs && reqs[id].toUserId == userId && reqs[id].status == Pending
    ensures id !in reqs ==> r == Fail(NotFound)
  {
    if id !in reqs then Fail(NotFound)
    else if reqs[id].toUserId != userId then Fail(Forbidden)
    else if reqs[id].status != Pending then Fail(AlreadyProcessed)
    else Pass
  }

  /** Answering a PENDING request keeps at most one PENDING request per pair. */
  lemma {:induction false} AnswerKeepsPendingUnique(reqs: map<string, FriendRequest>, id: string, s: RequestStatus, t: Time)
    requires PendingUnique(reqs) && id in reqs && s != Pending
    ensures PendingUnique(reqs[id := reqs[id].(status := s, respondedAt := Some(t))])
  {
    var reqs' := reqs[id := reqs[id].(status := s, respondedAt := Some(t))];
    forall k1, k2 | k1 in reqs' && k2 in reqs' && reqs'[k1].status == Pending && reqs'[k2].status == Pending &&
      reqs'[k1].fromUserId == reqs'[k2].fromUserId && reqs'[k1].toUserId == reqs'[k2].toUserId
      ensures k1 == k2
    {
      assert k1 != id && k2 != id;
    }
  }

  /** `_create_friendship`: a new ACTIVE row under a fresh id, trust level FRIEND. */
  method CreateFriendship(db: Store.Db, u: string, f: string, canSee: bool, nickname: Option<string>, now: Time)
    returns (x: Friendship)
    requires Keyed(db)
    modifies db`friendships
    ensures x.friendshipId !in old(db.friendships)
    ensures x == Friendship(x.friendshipId, u, f, canSee, nickname, Active, now, now, Some(TRUST_LEVEL_FRIEND))
    ensures db.friendships == old(db.friendships)[x.friendshipId := x]
    ensures Keyed(db)
  {
    var id := FreshKey(db.friendships.Keys);
    x := Friendship(id, u, f, canSee, nickname, Active, now, now, Some(TRUST_LEVEL_FRIEND));
    db.friendships := db.friendships[id := x];
  }

  /**
   * `accept_friend_request`: after the checks, the request becomes ACCEPTED
   * and two new ACTIVE rows link the users both ways, neither seeing the
   * other's location; the recipient's row is returned.
   */
  method AcceptFriendRequest(db: Store.Db, userId: string, id: string, now: Time)
    returns (r: Result<Friendship>, ghost other: Friendship)
    requires Keyed(db)
    modifies db`friendRequests, db`friendships
    ensures r.Err? <==> AnswerCheck(old(db.friendRequests), userId, id).Fail?
    ensures r.Err? ==>
      r.error == AnswerCheck(old(db.friendRequests), userId, id).error &&
      db.friendRequests == old(db.friendRequests) && db.friendships == old(db.friendships)
    ensures r.Ok? ==> db.friendRequests == old(db.friendRequests)[id := old(db.friendRequests)[id].(status := Accepted, respondedAt := Some(now))]
    ensures r.Ok? ==>
      r.value.friendshipId !in old(db.friendships) && other.friendshipId !in old(db.friendships) &&
      other.friendshipId != r.value.friendshipId &&
      db.friendships == old(db.friendships)[r.value.friendshipId := r.value][other.friendshipId := other]
    ensures r.Ok? ==>
      other == Friendship(other.friendshipId, old(db.friendRequests)[id].fromUserId, userId, false, None, Active, now, now,
                          Some(TRUST_LEVEL_FRIEND))
    ensures r.Ok? ==> r.value == Friendship(r.value.friendshipId, userId, old(db.friendRequests)[id].fromUserId,
                                            false, None, Active, now, now, Some(TRUST_LEVEL_FRIEND))
    ensures r.Ok? ==> IsFriend(db.friendships, userId, old(db.friendRequests)[id].fromUserId) &&
                      IsFriend(db.friendships, old(db.friendRequests)[id].fromUserId, userId)
    ensures Keyed(db)
    ensures PendingUnique(old(db.friendRequests)) ==> PendingUnique(db.friendRequests)
  {
    other := Friendship("", "", "", false, None, Active, now, now, None);
    var check := AnswerCheck(db.friendRequests, userId, id);
    if check.Fail? {
      return Err(check.error), other;
    }
    var req := db.friendRequests[id];
    ghost var reqs0 := db.friendRequests;
    db.friendRequests := db.friendRequests[id := req.(status := Accepted, respondedAt := Some(now))];
    if PendingUnique(reqs0) {
      AnswerKeepsPendingUnique(reqs0, id, Accepted, now);
    }
    var mine := CreateFriendship(db, req.toUserId, req.fromUserId, false, None, now);
    var theirs := CreateFriendship(db, req.fromUserId, req.toUserId, false, None, now);
    other := theirs;
    assert Link(db.friendships[mine.friendshipId], userId, req.fromUserId);
    assert Link(db.friendships[theirs.friendshipId], req.fromUserId, userId);
    r := Ok(mine);
  }

  /** `reject_friend_request`: after the same checks, the request becomes REJECTED. */
  method RejectFriendRequest(db: Store.Db, userId: string, id: string, now: Time) returns (r: Outcome)
    modifies db`friendRequests
    ensures r == AnswerCheck(old(db.friendRequests), userId, id)
    ensures r.Pass? ==> db.friendRequests == old(db.friendRequests)[id := old(db.friendRequests)[id].(status := Rejected, respondedAt := Some(now))]
    ensures r.Fail? ==> db.friendRequests == old(db.friendRequests)
    ensures PendingUnique(old(db.friendRequests)) ==> PendingUnique(db.friendRequests)
  {
    r := AnswerCheck(db.friendRequests, userId, id);
    if r.Fail? {
      return;
    }
    ghost var reqs0 := db.friendRequests;
    db.friendRequests := db.friendRequests[id := db.friendRequests[id].(status := Rejected, respondedAt := Some(now))];
    if PendingUnique(reqs0) {
      AnswerKeepsPendingUnique(reqs0, id, Rejected, now);
    }
  }

  // ---------------------------------------------------------------------
  // Friendships
  // ---------------------------------------------------------------------

  /** The fields a `FriendshipUpdate` writes: the given ones, plus the update time. */
  function ApplyFriendshipUpdate(x: Friendship, u: FriendshipUpdate, now: Time): (y: Friendship)
    ensures y.friendshipId == x.friendshipId && y.userId == x.userId && y.friendId == x.friendId
    ensures y.status == x.status && y.createdAt == x.createdAt && y.updatedAt == now
    ensures y.canSeeFriendLocation == if u.canSeeFriendLocation.Some? then u.canSeeFriendLocation.value else x.canSeeFriendLocation
    ensures y.nickname == if u.nickname.Some? then u.nickname else x.nickname
    ensures y.trustLevel == if u.trustLevel.Some? then u.trustLevel else x.trustLevel
  {
    x.(canSeeFriendLocation := if u.canSeeFriendLocation.Some? then u.canSeeFriendLocation.value else x.canSeeFriendLocation,
       nickname := if u.nickname.Some? then u.nickname else x.nickname,
       trustLevel := if u.trustLevel.Some? then u.trustLevel else x.trustLevel,
       updatedAt := now)
  }

  /** Applying the same update twice at the same time is applying it once. */
  lemma ApplyFriendshipUpdateIdempotent(x: Friendship, u: FriendshipUpdate, now: Time)
    ensures ApplyFriendshipUpdate(ApplyFriendshipUpdate(x, u, now), u, now) == ApplyFriendshipUpdate(x, u, now)
  {
  }

  /** `update_friendship`: NotFound without a friendship; otherwise the picked row gets the update. */
  method UpdateFriendship(db: Store.Db, u: string, f: string, upd: FriendshipUpdate, now: Time) returns (r: Result<Friendship>)
    requires Keyed(db)
    modifies db`friendships
    ensures r.Err? <==> !IsFriend(old(db.friendships), u, f)
    ensures r.Err? ==> r.error == NotFound && db.friendships == old(db.friendships)
    ensures r.Ok? ==> r.value.friendshipId in old(db.friendships) && Link(old(db.friendships)[r.value.friendshipId], u, f)
    ensures r.Ok? ==> r.value == ApplyFriendshipUpdate(old(db.friendships)[r.value.friendshipId], upd, now)
    ensures r.Ok? ==> db.friendships == old(db.friendships)[r.value.friendshipId := r.value]
    ensures Keyed(db)
  {
    var link := GetFriendship(db, u, f);
    if link.None? {
      return Err(NotFound);
    }
    var y := ApplyFriendshipUpdate(link.value, upd, now);
    db.friendships := db.friendships[y.friendshipId := y];
    r := Ok(y);
  }

  /** One half of `remove_friend`: deletes the row `get_friendship` picks from `u` to `f`, if any. */
  method DropLink(db: Store.Db, u: string, f: string) returns (dropped: bool, ghost k: string)
    requires Keyed(db)
    modifies db`friendships
    ensures dropped <==> IsFriend(old(db.friendships), u, f)
    ensures !dropped ==> db.friendships == old(db.friendships)
    ensures dropped ==> k in old(db.friendships) && Link(old(db.friendships)[k], u, f) && db.friendships == old(db.friendships) - {k}
    ensures Keyed(db)
  {
    k := "";
    var link := GetFriendship(db, u, f);
    dropped := link.Some?;
    if dropped {
      k := link.value.friendshipId;
      db.friendships := db.friendships - {link.value.friendshipId};
    }
  }

  /**
   * `remove_friend`: deletes the row `get_friendship` picks in each
   * direction (one row each, however many there are); NotFound only when
   * neither direction had one.
   */
  method RemoveFriend(db: Store.Db, u: string, f: string) returns (r: Outcome, ghost removed: set<string>)
    requires Keyed(db)
    modifies db`friendships
    ensures r.Fail? <==> !IsFriend(old(db.friendships), u, f) && !IsFriend(old(db.friendships), f, u)
    ensures r.Fail? ==> r.error == NotFound
    ensures db.friendships == old(db.friendships) - removed && removed <= old(db.friendships).Keys
    ensures |removed| <= 2
    ensures forall k :: k in removed ==> Link(old(db.friendships)[k], u, f) || Link(old(db.friendships)[k], f, u)
    ensures IsFriend(old(db.friendships), u, f) ==> exists k :: k in removed && Link(old(db.friendships)[k], u, f)
    ensures u != f ==> forall k1, k2 ::
      (k1 in removed && k2 in removed && Link(old(db.friendships)[k1], u, f) && Link(old(db.friendships)[k2], u, f)) ==> k1 == k2
    ensures IsFriend(old(db.friendships), f, u) ==> exists k :: k in removed && Link(old(db.friendships)[k], f, u)
    ensures u != f ==> forall k1, k2 ::
      (k1 in removed && k2 in removed && Link(old(db.friendships)[k1], f, u) && Link(old(db.friendships)[k2], f, u)) ==> k1 == k2
    ensures Keyed(db)
  {
    ghost var fs0 := db.friendships;
    var one, k1 := DropLink(db, u, f);
    ghost var fs1 := db.friendships;
    if IsFriend(fs0, f, u) && u != f {
      // the row dropped towards f is not one from f, so f's row towards u is still there
      var k :| k in fs0 && Link(fs0[k], f, u);
      assert k in fs1 && Link(fs1[k], f, u);
    }
    var two, k2 := DropLink(db, f, u);
    removed := (if one then {k1} else {}) + (if two then {k2} else {});
    assert |removed| <= 2 by {
      assert removed <= {k1, k2};
    }
    if !one && !two {
      return Fail(NotFound), removed;
    }
    r := Pass;
  }

  /**
   * Two users who send each other a request before either answers, and who
   * then both accept, end up with two rows in each direction; `remove_friend`
   * then deletes one per direction and leaves them friends.  Runs that
   * sequence on an empty store.
   */
  method CrossedRequestsSurviveRemoval() returns (stillFriends: bool)
    ensures stillFriends
  {
    var db, id1, id2 := CrossedRequests();
    ghost var k1, k2 := AcceptBoth(db, id1, id2);
    var _, removed := RemoveFriend(db, "a", "b");
    assert k1 in db.friendships || k2 in db.friendships;
    stillFriends := IsFriendNow(db, "a", "b");
  }

  /** Users `a` and `b` with no friendship, each having sent the other a request. */
  method CrossedRequests() returns (db: Store.Db, id1: string, id2: string)
    ensures fresh(db) && Keyed(db) && db.friendships == map[]
    ensures id1 in db.friendRequests && PendingRequest(db.friendRequests[id1], "a", "b")
    ensures id2 in db.friendRequests && PendingRequest(db.friendRequests[id2], "b", "a")
  {
    db := new Store.Db();
    var alice := User("a", None, "", "A", None, [], 0, 0);
    var bob := User("b", None, "", "B", None, [], 0, 0);
    db.users := map["a" := alice, "b" := bob];
    assert !IsFriend(db.friendships, "a", "b") && !HasPendingRequest(db.friendRequests, "a", "b");
    var toBob := SendFriendRequest(db, "a", "b", None, 0);
    assert !IsFriend(db.friendships, "b", "a");
    assert !HasPendingRequest(db.friendRequests, "b", "a") by {
      forall k | k in db.friendRequests
        ensures !PendingRequest(db.friendRequests[k], "b", "a")
      {
      }
    }
    var toAlice := SendFriendRequest(db, "b", "a", None, 1);
    id1, id2 := toBob.value.requestId, toAlice.value.requestId;
  }

  /** `b` accepts the first request, then `a` the second: two distinct ACTIVE rows from `a` to `b`. */
  method AcceptBoth(db: Store.Db, id1: string, id2: string) returns (ghost k1: string, ghost k2: string)
    requires Keyed(db)
    requires id1 in db.friendRequests && PendingRequest(db.friendRequests[id1], "a", "b")
    requires id2 in db.friendRequests && PendingRequest(db.friendRequests[id2], "b", "a")
    modifies db`friendRequests, db`friendships
    ensures Keyed(db) && k1 != k2
    ensures k1 in db.friendships && Link(db.friendships[k1], "a", "b")
    ensures k2 in db.friendships && Link(db.friendships[k2], "a", "b")
  {
    var first, other1 := AcceptFriendRequest(db, "b", id1, 2);
    assert id2 in db.friendRequests && db.friendRequests[id2].status == Pending;
    k1 := other1.friendshipId;
    var second, _ := AcceptFriendRequest(db, "a", id2, 3);
    k2 := second.value.friendshipId;
  }

  /**
   * `remove_friend` as its description intends ("delete the friendship in
   * both directions"): every ACTIVE row between the two users goes, so
   * afterwards neither is the other's friend.
   */
  method RemoveFriendship(db: Store.Db, u: string, f: string) returns (r: Outcome)
    modifies db`friendships
    ensures r.Fail? <==> !IsFriend(old(db.friendships), u, f) && !IsFriend(old(db.friendships), f, u)
    ensures r.Fail? ==> r.error == NotFound
    ensures db.friendships == Without(old(db.friendships), x => Link(x, u, f) || Link(x, f, u))
    ensures !IsFriend(db.friendships, u, f) && !IsFriend(db.friendships, f, u)
  {
    var any := IsFriend(db.friendships, u, f) || IsFriend(db.friendships, f, u);
    var kept, _ := DeleteWhere(db.friendships, x => Link(x, u, f) || Link(x, f, u));
    db.friendships := kept;
    r := if any then Pass else Fail(NotFound);
  }

  /** `block_user`: the picked row becomes BLOCKED; nothing happens without a friendship. */
  method BlockUser(db: Store.Db, u: string, f: string, now: Time)
    requires Keyed(db)
    modifies db`friendships
    ensures !IsFriend(old(db.friendships), u, f) ==> db.friendships == old(db.friendships)
    ensures IsFriend(old(db.friendships), u, f) ==>
      exists k ::
        k in old(db.friendships) && Link(old(db.friendships)[k], u, f) &&
        db.friendships == old(db.friendships)[k := old(db.friendships)[k].(status := Blocked, updatedAt := now)]
    ensures Keyed(db)
  {
    var link := GetFriendship(db, u, f);
    if link.Some? {
      var k := link.value.friendshipId;
      db.friendships := db.friendships[k := db.friendships[k].(status := Blocked, updatedAt := now)];
    }
  }

  // ---------------------------------------------------------------------
  // Location-share requests
  // ---------------------------------------------------------------------

  /**
   * `send_location_share_request`: refused for oneself, for a non-friend,
   * when the location is already visible through the picked row, or for a
   * pending duplicate; otherwise a new PENDING request.
   */
  method SendLocationShareRequest(db: Store.Db, requester: string, target: string, now: Time) returns (r: Result<ShareRequest>)
    requires Keyed(db)
    modifies db`shareRequests
    ensures requester == target ==> r == Err(SelfRequest)
    ensures requester != target && !IsFriend(db.friendships, requester, target) ==> r == Err(NotFriends)
    ensures r == Err(NotFriends) ==> requester != target && !IsFriend(db.friendships, requester, target)
    ensures (requester != target && IsFriend(db.friendships, requester, target) &&
             !SomeLinkSees(db.friendships, requester, target) && !HasPendingShare(old(db.shareRequests), requester, target)) ==> r.Ok?
    ensures r == Err(AlreadyVisible) ==> SomeLinkSees(db.friendships, requester, target)
    ensures r.Err? && r.error !in {SelfRequest, NotFriends, AlreadyVisible} ==>
      r.error == DuplicateRequest && HasPendingShare(old(db.shareRequests), requester, target)
    ensures r.Err? ==> db.shareRequests == old(db.shareRequests)
    ensures r.Ok? ==>
      requester != target && IsFriend(db.friendships, requester, target) &&
      !HasPendingShare(old(db.shareRequests), requester, target)
    ensures r.Ok? ==>
      r.value.requestId !in old(db.shareRequests) &&
      r.value == ShareRequest(r.value.requestId, requester, target, Pending, now, None) &&
      db.shareRequests == old(db.shareRequests)[r.value.requestId := r.value]
    ensures Keyed(db)
    ensures SharePendingUnique(old(db.shareRequests)) ==> SharePendingUnique(db.shareRequests)
  {
    if requester == target {
      return Err(SelfRequest);
    }
    var friends := IsFriendNow(db, requester, target);
    if !friends {
      return Err(NotFriends);
    }
    var visible := CanSeeLocation(db, requester, target);
    if visible {
      return Err(AlreadyVisible);
    }
    if HasPendingShare(db.shareRequests, requester, target) {
      return Err(DuplicateRequest);
    }
    var id := FreshKey(db.shareRequests.Keys);
    var req := ShareRequest(id, requester, target, Pending, now, None);
    db.shareRequests := db.shareRequests[id := req];
    r := Ok(req);
  }

  function ShareCreatedKey(x: ShareRequest): real {
    x.createdAt as real
  }

  /** `get_received_location_share_requests`: PENDING requests for the user's location, newest first. */
  method GetReceivedLocationShareRequests(db: Store.Db, userId: string) returns (r: seq<ShareRequest>)
    ensures forall x :: x in r <==> x in db.shareRequests.Values && x.targetId == userId && x.status == Pending
    ensures |r| == |KeysWhere(db.shareRequests, (x: ShareRequest) => x.targetId == userId && x.status == Pending)|
    ensures SortedBy(r, ShareCreatedKey, true)
  {
    r := SelectSorted(db.shareRequests, (x: ShareRequest) => x.targetId == userId && x.status == Pending, ShareCreatedKey, true);
  }

  /** `get_sent_location_share_requests`: the user's PENDING requests, newest first. */
  method GetSentLocationShareRequests(db: Store.Db, userId: string) returns (r: seq<ShareRequest>)
    ensures forall x :: x in r <==> x in db.shareRequests.Values && x.requesterId == userId && x.status == Pending
    ensures |r| == |KeysWhere(db.shareRequests, (x: ShareRequest) => x.requesterId == userId && x.status == Pending)|
    ensures SortedBy(r, ShareCreatedKey, true)
  {
    r := SelectSorted(db.shareRequests, (x: ShareRequest) => x.requesterId == userId && x.status == Pending, ShareCreatedKey, true);
  }

  /** The checks of answering a share request: it exists, targets the caller, is PENDING. */
  function ShareAnswerCheck(reqs: map<string, ShareRequest>, userId: string, id: string): (r: Outcome)
    ensures r.Pass? <==> id in reqs && reqs[id].targetId == userId && reqs[id].status == Pending
    ensures id !in reqs ==> r == Fail(NotFound)
  {
    if id !in reqs then Fail(NotFound)
    else if reqs[id].targetId != userId then Fail(Forbidden)
    else if reqs[id].status != Pending then Fail(AlreadyProcessed)
    else Pass
  }

  /** Answering a PENDING share request keeps at most one PENDING share request per pair. */
  lemma {:induction false} ShareAnswerKeepsUnique(reqs: map<string, ShareRequest>, id: string, s: RequestStatus, t: Time)
    requires SharePendingUnique(reqs) && id in reqs && s != Pending
    ensures SharePendingUnique(reqs[id := reqs[id].(status := s, respondedAt := Some(t))])
  {
    var reqs' := reqs[id := reqs[id].(status := s, respondedAt := Some(t))];
    forall k1, k2 | k1 in reqs' && k2 in reqs' && reqs'[k1].status == Pending && reqs'[k2].status == Pending &&
      reqs'[k1].requesterId == reqs'[k2].requesterId && reqs'[k1].targetId == reqs'[k2].targetId
      ensures k1 == k2
    {
      assert k1 != id && k2 != id;
    }
  }

  /**
   * `accept_location_share_request`: after the checks the request becomes
   * ACCEPTED; then the requester's row towards the target (if any) gets
   * `can_see_friend_location` set.  Without that row the answer is NotFound
   * but the request stays ACCEPTED.  The target's own row is not touched.
   */
  method AcceptLocationShareRequest(db: Store.Db, userId: string, id: string, now: Time) returns (r: Result<Friendship>)
    requires Keyed(db)
    modifies db`shareRequests, db`friendships
    ensures ShareAnswerCheck(old(db.shareRequests), userId, id).Fail? ==>
      r == Err(ShareAnswerCheck(old(db.shareRequests), userId, id).error) &&
      db.shareRequests == old(db.shareRequests) && db.friendships == old(db.friendships)
    ensures ShareAnswerCheck(old(db.shareRequests), userId, id).Pass? ==>
      db.shareRequests == old(db.shareRequests)[id := old(db.shareRequests)[id].(status := Accepted, respondedAt := Some(now))]
    ensures (ShareAnswerCheck(old(db.shareRequests), userId, id).Pass? &&
             !IsFriend(old(db.friendships), old(db.shareRequests)[id].requesterId, userId)) ==>
      r == Err(NotFound) && db.friendships == old(db.friendships)
    ensures (ShareAnswerCheck(old(db.shareRequests), userId, id).Pass? &&
             IsFriend(old(db.friendships), old(db.shareRequests)[id].requesterId, userId)) ==> r.Ok?
    ensures r.Ok? ==>
      r.value.friendshipId in old(db.friendships) &&
      Link(old(db.friendships)[r.value.friendshipId], old(db.shareRequests)[id].requesterId, userId) &&
      r.value == old(db.friendships)[r.value.friendshipId].(canSeeFriendLocation := true, updatedAt := now) &&
      db.friendships == old(db.friendships)[r.value.friendshipId := r.value]
    ensures r.Ok? ==> SomeLinkSees(db.friendships, old(db.shareRequests)[id].requesterId, userId)
    ensures Keyed(db)
    ensures SharePendingUnique(old(db.shareRequests)) ==> SharePendingUnique(db.shareRequests)
  {
    var check := ShareAnswerCheck(db.shareRequests, userId, id);
    if check.Fail? {
      return Err(check.error);
    }
    var req := db.shareRequests[id];
    ghost var reqs0 := db.shareRequests;
    db.shareRequests := db.shareRequests[id := req.(status := Accepted, respondedAt := Some(now))];
    if SharePendingUnique(reqs0) {
      ShareAnswerKeepsUnique(reqs0, id, Accepted, now);
    }
    var link := GetFriendship(db, req.requesterId, req.targetId);
    if link.None? {
      return Err(NotFound);
    }
    var y := link.value.(canSeeFriendLocation := true, updatedAt := now);
    db.friendships := db.friendships[y.friendshipId := y];
    assert Link(db.friendships[y.friendshipId], req.requesterId, userId);
    r := Ok(y);
  }

  /** `reject_location_share_request`: after the checks the request becomes REJECTED. */
  method RejectLocationShareRequest(db: Store.Db, userId: string, id: string, now: Time) returns (r: Outcome)
    modifies db`shareRequests
    ensures r == ShareAnswerCheck(old(db.shareRequests), userId, id)
    ensures r.Pass? ==> db.shareRequests == old(db.shareRequests)[id := old(db.shareRequests)[id].(status := Rejected, respondedAt := Some(now))]
    ensures r.Fail? ==> db.shareRequests == old(db.shareRequests)
    ensures SharePendingUnique(old(db.shareRequests)) ==> SharePendingUnique(db.shareRequests)
  {
    r := ShareAnswerCheck(db.shareRequests, userId, id);
    if r.Fail? {
      return;
    }
    ghost var reqs0 := db.shareRequests;
    db.shareRequests := db.shareRequests[id := db.shareRequests[id].(status := Rejected, respondedAt := Some(now))];
    if SharePendingUnique(reqs0) {
      ShareAnswerKeepsUnique(reqs0, id, Rejected, now);
    }
  }

  /**
   * `revoke_location_share`: the viewer's row towards the user loses
   * `can_see_friend_location`; NotFound without a row, AlreadyRevoked when
   * the picked row's flag is already off.
   */
  method RevokeLocationShare(db: Store.Db, userId: string, viewerId: string, now: Time) returns (r: Outcome)
    requires Keyed(db)
    modifies db`friendships
    ensures r == Fail(NotFound) <==> !IsFriend(old(db.friendships), viewerId, userId)
    ensures (IsFriend(old(db.friendships), viewerId, userId) &&
             forall k :: k in old(db.friendships) && Link(old(db.friendships)[k], viewerId, userId) ==>
               old(db.friendships)[k].canSeeFriendLocation) ==> r.Pass?
    ensures r.Fail? ==> db.friendships == old(db.friendships)
    ensures r == Fail(AlreadyRevoked) ==>
      exists k ::
        k in old(db.friendships) &&
        Link(old(db.friendships)[k], viewerId, userId) && !old(db.friendships)[k].canSeeFriendLocation
    ensures r.Pass? ==>
      exists k ::
        k in old(db.friendships) && Link(old(db.friendships)[k], viewerId, userId) &&
        old(db.friendships)[k].canSeeFriendLocation &&
        db.friendships == old(db.friendships)[k := old(db.friendships)[k].(canSeeFriendLocation := false, updatedAt := now)]
    ensures r.Fail? ==> r.error == NotFound || r.error == AlreadyRevoked
    ensures Keyed(db)
  {
    var link := GetFriendship(db, viewerId, userId);
    if link.None? {
      return Fail(NotFound);
    }
    if !link.value.canSeeFriendLocation {
      return Fail(AlreadyRevoked);
    }
    var k := link.value.friendshipId;
    db.friendships := db.friendships[k := db.friendships[k].(canSeeFriendLocation := false, updatedAt := now)];
    r := Pass;
  }
}
