/**
 * The notification service (`NotificationService`): push delivery with
 * clean-up of rejected tokens, the token list of a user, the in-app
 * notification records and marking them read.
 *
 * FCM is a parameter: a `Transport` says which tokens a multicast accepts,
 * or that the whole call raises.
 */
module Notifications {
  import opened Common
  import opened UserSchema
  import opened NotificationSchema
  import Store

  /** One multicast as FCM answers it: per-token acceptance, or an exception for the whole call. */
  datatype Transport = Transport(accepted: string -> bool, raises: bool)

  // ---------------------------------------------------------------------
  // Token lists
  // ---------------------------------------------------------------------

  /** The tokens a multicast rejected, in token order (`failed_tokens`). */
  function FailedTokens(tokens: seq<string>, accepted: string -> bool): (r: seq<string>)
    ensures forall t :: t in r <==> t in tokens && !accepted(t)
    ensures |r| <= |tokens|
  {
    if tokens == [] then []
    else (if accepted(tokens[0]) then [] else [tokens[0]]) + FailedTokens(tokens[1..], accepted)
  }

  /** `_remove_invalid_fcm_tokens`'s filter: the current tokens not in `invalid`, in their order. */
  function RemoveTokens(current: seq<string>, invalid: seq<string>): (r: seq<string>)
    ensures forall t :: t in r <==> t in current && t !in invalid
    ensures |r| <= |current|
  {
    if current == [] then []
    else (if current[0] in invalid then [] else [current[0]]) + RemoveTokens(current[1..], invalid)
  }

  /** The filter works piecewise, so the kept tokens stay in their original order. */
  lemma {:induction false} RemoveTokensKeepsOrder(a: seq<string>, b: seq<string>, invalid: seq<string>)
    ensures RemoveTokens(a + b, invalid) == RemoveTokens(a, invalid) + RemoveTokens(b, invalid)
  {
    if a == [] {
      assert a + b == b;
    } else {
      var head := if a[0] in invalid then [] else [a[0]];
      var ab := a + b;
      assert ab != [] && ab[0] == a[0];
      assert ab[1..] == a[1..] + b;
      calc {
        RemoveTokens(ab, invalid);
        head + RemoveTokens(a[1..] + b, invalid);
        { RemoveTokensKeepsOrder(a[1..], b, invalid); }
        head + (RemoveTokens(a[1..], invalid) + RemoveTokens(b, invalid));
        { ConcatAssoc(head, RemoveTokens(a[1..], invalid), RemoveTokens(b, invalid)); }
        (head + RemoveTokens(a[1..], invalid)) + RemoveTokens(b, invalid);
        RemoveTokens(a, invalid) + RemoveTokens(b, invalid);
      }
    }
  }

  /** Nothing to remove leaves the list exactly as it was. */
  lemma {:induction false} RemoveTokensIdentity(current: seq<string>, invalid: seq<string>)
    requires forall t :: t in current ==> t !in invalid
    ensures RemoveTokens(current, invalid) == current
  {
    if current != [] {
      RemoveTokensIdentity(current[1..], invalid);
    }
  }

  /** Removing the same tokens twice is removing them once. */
  lemma RemoveTokensIdempotent(current: seq<string>, invalid: seq<string>)
    ensures RemoveTokens(RemoveTokens(current, invalid), invalid) == RemoveTokens(current, invalid)
  {
    RemoveTokensIdentity(RemoveTokens(current, invalid), invalid);
  }

  /** `register_fcm_token`'s list: the token appended unless already present. */
  function Registered(tokens: seq<string>, t: string): (r: seq<string>)
    ensures t in r
    ensures t in tokens ==> r == tokens
    ensures t !in tokens ==> r == tokens + [t]
  {
    if t in tokens then tokens else tokens + [t]
  }

  /** `list.remove`: drops the first occurrence, if any. */
  function RemoveFirst(tokens: seq<string>, t: string): (r: seq<string>)
    ensures t !in tokens ==> r == tokens
    ensures t in tokens ==> |r| == |tokens| - 1 && multiset(r) == multiset(tokens) - multiset{t}
  {
    if tokens == [] then []
    else
      assert tokens == [tokens[0]] + tokens[1..];
      if tokens[0] == t then tokens[1..]
      else [tokens[0]] + RemoveFirst(tokens[1..], t)
  }

  /** Registering a new token and then removing it gives back the original list. */
  lemma {:induction false} RemoveUndoesRegister(tokens: seq<string>, t: string)
    requires t !in tokens
    ensures RemoveFirst(Registered(tokens, t), t) == tokens
  {
    var r := tokens + [t];
    assert Registered(tokens, t) == r;
    if tokens == [] {
      assert RemoveFirst(r, t) == r[1..];
    } else {
      assert r[0] == tokens[0] && r[0] != t;
      assert r[1..] == tokens[1..] + [t];
      assert RemoveFirst(r, t) == [tokens[0]] + RemoveFirst(tokens[1..] + [t], t);
      RemoveUndoesRegister(tokens[1..], t);
      assert [tokens[0]] + tokens[1..] == tokens;
    }
  }

  /** Registering is idempotent. */
  lemma RegisterIdempotent(tokens: seq<string>, t: string)
    ensures Registered(Registered(tokens, t), t) == Registered(tokens, t)
  {
  }

  // ---------------------------------------------------------------------
  // Push delivery
  // ---------------------------------------------------------------------

  /** The record `_save_notification_to_db` writes: unread, never read. */
  function NewNotification(id: string, userId: string, kind: NotificationType, title: string, body: string, now: Time)
    : (n: Notification)
    ensures n.notificationId == id && n.userId == userId && n.kind == kind
    ensures !n.isRead && n.readAt.None? && n.createdAt == now
  {
    Notification(id, userId, kind, title, body, false, now, None)
  }

  /**
   * The recipient's document after one multicast: when the call returned
   * and some tokens failed, those tokens are removed (with `updated_at`);
   * otherwise nothing changes.
   */
  function AfterMulticast(u: User, t: Transport, now: Time): (r: User)
    ensures forall x :: x in r.fcmTokens ==> x in u.fcmTokens
    ensures r.(fcmTokens := u.fcmTokens, updatedAt := u.updatedAt) == u
    ensures u.fcmTokens == [] || t.raises ==> r == u
    ensures !t.raises ==> forall x :: x in r.fcmTokens <==> x in u.fcmTokens && t.accepted(x)
  {
    if u.fcmTokens == [] || t.raises then u
    else
      var failed := FailedTokens(u.fcmTokens, t.accepted);
      if |failed| > 0 then u.(fcmTokens := RemoveTokens(u.fcmTokens, failed), updatedAt := now)
      else u
  }

  /** `_remove_invalid_fcm_tokens`: re-reads the user and writes back the filtered list; a missing user is left alone. */
  method RemoveInvalidFcmTokens(db: Store.Db, userId: string, invalid: seq<string>, now: Time)
    modifies db`users
    ensures userId !in old(db.users) ==> db.users == old(db.users)
    ensures userId in old(db.users) ==>
      var u := old(db.users)[userId];
      db.users == old(db.users)[userId := u.(fcmTokens := RemoveTokens(u.fcmTokens, invalid), updatedAt := now)]
  {
    if userId !in db.users {
      return;
    }
    var u := db.users[userId];
    db.users := db.users[userId := u.(fcmTokens := RemoveTokens(u.fcmTokens, invalid), updatedAt := now)];
  }

  /** `_save_notification_to_db`: a new record under a fresh auto-id. */
  method SaveNotification(db: Store.Db, userId: string, kind: NotificationType, title: string, body: string, now: Time)
    returns (n: Notification)
    modifies db`notifications
    ensures n.notificationId !in old(db.notifications)
    ensures n == NewNotification(n.notificationId, userId, kind, title, body, now)
    ensures db.notifications == old(db.notifications)[n.notificationId := n]
  {
    var id := FreshKey(db.notifications.Keys);
    n := NewNotification(id, userId, kind, title, body, now);
    db.notifications := db.notifications[id := n];
  }

  /**
   * `send_push_notification`: refused for an unknown user; with no tokens,
   * no transport call; otherwise one multicast whose rejected tokens are
   * removed. A transport exception is swallowed. The record is saved (and
   * returned) exactly when `saveToDb`.
   */
  method SendPushNotification(
    db: Store.Db, userId: string, title: string, body: string, kind: NotificationType,
    saveToDb: bool, transport: Transport, now: Time)
    returns (r: Result<Option<Notification>>)
    modifies db`users, db`notifications
    ensures userId !in old(db.users) <==> r.Err?
    ensures r.Err? ==> r.error == UserNotFound && db.users == old(db.users) && db.notifications == old(db.notifications)
    ensures r.Ok? ==> db.users == old(db.users)[userId := AfterMulticast(old(db.users)[userId], transport, now)]
    ensures r.Ok? ==> (r.value.Some? <==> saveToDb)
    ensures r.Ok? && !saveToDb ==> db.notifications == old(db.notifications)
    ensures r.Ok? && saveToDb ==>
      var n := r.value.value;
      && n.notificationId !in old(db.notifications)
      && n == NewNotification(n.notificationId, userId, kind, title, body, now)
      && db.notifications == old(db.notifications)[n.notificationId := n]
  {
    if userId !in db.users {
      return Err(UserNotFound);
    }
    var user := db.users[userId];
    if user.fcmTokens == [] {
      if saveToDb {
        var n := SaveNotification(db, userId, kind, title, body, now);
        return Ok(Some(n));
      }
      return Ok(None);
    }
    if !transport.raises {
      var failed := FailedTokens(user.fcmTokens, transport.accepted);
      if |failed| > 0 {
        RemoveInvalidFcmTokens(db, userId, failed, now);
      }
    }
    if saveToDb {
      var n := SaveNotification(db, userId, kind, title, body, now);
      return Ok(Some(n));
    }
    r := Ok(None);
  }

  /** `register_fcm_token`: refused for an unknown user; appends the token only when it is new. */
  method RegisterFcmToken(db: Store.Db, userId: string, token: string, now: Time) returns (r: Outcome)
    modifies db`users
    ensures userId !in old(db.users) <==> r == Fail(UserNotFound)
    ensures r.Fail? || token in old(db.users)[userId].fcmTokens ==> db.users == old(db.users)
    ensures r.Pass? && token !in old(db.users)[userId].fcmTokens ==>
      var u := old(db.users)[userId];
      db.users == old(db.users)[userId := u.(fcmTokens := Registered(u.fcmTokens, token), updatedAt := now)]
  {
    if userId !in db.users {
      return Fail(UserNotFound);
    }
    var u := db.users[userId];
    if token in u.fcmTokens {
      return Pass;
    }
    db.users := db.users[userId := u.(fcmTokens := u.fcmTokens + [token], updatedAt := now)];
    r := Pass;
  }

  /** `remove_fcm_token`: refused for an unknown user; drops one occurrence, and writes nothing when absent. */
  method RemoveFcmToken(db: Store.Db, userId: string, token: string, now: Time) returns (r: Outcome)
    modifies db`users
    ensures userId !in old(db.users) <==> r == Fail(UserNotFound)
    ensures r.Fail? || token !in old(db.users)[userId].fcmTokens ==> db.users == old(db.users)
    ensures r.Pass? && token in old(db.users)[userId].fcmTokens ==>
      var u := old(db.users)[userId];
      db.users == old(db.users)[userId := u.(fcmTokens := RemoveFirst(u.fcmTokens, token), updatedAt := now)]
  {
    if userId !in db.users {
      return Fail(UserNotFound);
    }
    var u := db.users[userId];
    if token in u.fcmTokens {
      db.users := db.users[userId := u.(fcmTokens := RemoveFirst(u.fcmTokens, token), updatedAt := now)];
    }
    r := Pass;
  }

  // ---------------------------------------------------------------------
  // Listing, counting, marking read, deleting
  // ---------------------------------------------------------------------

  function CreatedKey(n: Notification): real {
    n.createdAt as real
  }

  predicate Listed(userId: string, unreadOnly: bool, n: Notification) {
    n.userId == userId && (unreadOnly ==> !n.isRead)
  }

  /**
   * `get_user_notifications`: the user's notifications (unread ones only
   * when asked), newest first, at most `limit` of them.
   */
  method GetUserNotifications(db: Store.Db, userId: string, limit: nat, unreadOnly: bool)
    returns (r: seq<Notification>, ghost all: seq<Notification>)
    ensures forall n :: n in all <==> n in db.notifications.Values && Listed(userId, unreadOnly, n)
    ensures |all| == |KeysWhere(db.notifications, n => Listed(userId, unreadOnly, n))|
    ensures SortedBy(all, CreatedKey, true)
    ensures r == Take(all, limit)
    ensures forall n :: n in r ==> n in db.notifications.Values && Listed(userId, unreadOnly, n)
  {
    var found := SelectSorted(db.notifications, n => Listed(userId, unreadOnly, n), CreatedKey, true);
    all := found;
    r := Take(found, limit);
    forall n | n in r
      ensures n in found
    {
      var i :| 0 <= i < |r| && r[i] == n;
      assert found[i] == n;
    }
  }

  /** `get_unread_count`: the number of the user's unread notifications. */
  method GetUnreadCount(db: Store.Db, userId: string) returns (n: nat)
    ensures n == |KeysWhere(db.notifications, x => Listed(userId, true, x))|
  {
    var found := Select(db.notifications, x => Listed(userId, true, x));
    n := |found|;
  }

  /** The state of one `mark_notifications_as_read` run after some of its ids. */
  datatype MarkState = MarkState(store: map<string, Notification>, count: nat, refused: bool)

  /**
   * One id of the loop: a missing id is skipped, a foreign one stops the
   * run with an error (earlier updates stay), a read one is skipped, an
   * unread one is marked read at `now` and counted.
   */
  function MarkOne(st: MarkState, userId: string, id: string, now: Time): MarkState {
    if st.refused || id !in st.store then st
    else if st.store[id].userId != userId then st.(refused := true)
    else if st.store[id].isRead then st
    else MarkState(st.store[id := st.store[id].(isRead := true, readAt := Some(now))], st.count + 1, false)
  }

  function MarkAll(m: map<string, Notification>, userId: string, ids: seq<string>, now: Time): MarkState {
    if ids == [] then MarkState(m, 0, false)
    else MarkOne(MarkAll(m, userId, ids[..|ids| - 1], now), userId, ids[|ids| - 1], now)
  }

  /** The notifications a run turned from unread to read. */
  function Flipped(before: map<string, Notification>, after: map<string, Notification>): set<string>
    requires before.Keys == after.Keys
  {
    set k | k in before && !before[k].isRead && after[k].isRead
  }

  /**
   * What a run does: the count is exactly the number of notifications it
   * turned read; only the caller's notifications change, and only their
   * `is_read`/`read_at`; nothing is added or removed.
   */
  lemma {:induction false} MarkAllCounts(m: map<string, Notification>, userId: string, ids: seq<string>, now: Time)
    ensures MarkAll(m, userId, ids, now).store.Keys == m.Keys
    ensures MarkAll(m, userId, ids, now).count == |Flipped(m, MarkAll(m, userId, ids, now).store)|
    ensures forall k :: k in m ==>
      var a := MarkAll(m, userId, ids, now).store[k];
      a == m[k] || (m[k].userId == userId && k in ids && !m[k].isRead && a == m[k].(isRead := true, readAt := Some(now)))
  {
    if ids != [] {
      var init := ids[..|ids| - 1];
      var id := ids[|ids| - 1];
      MarkAllCounts(m, userId, init, now);
      var st := MarkAll(m, userId, init, now);
      assert forall x :: x in init ==> x in ids;
      if !st.refused && id in st.store && st.store[id].userId == userId && !st.store[id].isRead {
        var after := MarkAll(m, userId, ids, now).store;
        assert Flipped(m, after) == Flipped(m, st.store) + {id};
        assert id !in Flipped(m, st.store);
      }
    }
  }

  /**
   * A run that went through without refusal met only the caller's
   * notifications among the ids, and left every one of them read.
   */
  lemma {:induction false} MarkAllFacts(m: map<string, Notification>, userId: string, ids: seq<string>, now: Time)
    requires !MarkAll(m, userId, ids, now).refused
    ensures MarkAll(m, userId, ids, now).store.Keys == m.Keys
    ensures forall k :: k in ids && k in m ==>
      var a := MarkAll(m, userId, ids, now).store[k];
      a.userId == userId && a.isRead
  {
    if ids != [] {
      var init := ids[..|ids| - 1];
      var st := MarkAll(m, userId, init, now);
      assert !st.refused;
      MarkAllFacts(m, userId, init, now);
      assert forall x :: x in ids ==> x in init || x == ids[|ids| - 1];
    }
  }

  /** Running the same ids over a store where all of them are the caller's and read changes nothing. */
  lemma {:induction false} MarkAllSettled(done: map<string, Notification>, userId: string, ids: seq<string>, now: Time)
    requires forall k :: k in ids && k in done ==> done[k].userId == userId && done[k].isRead
    ensures MarkAll(done, userId, ids, now) == MarkState(done, 0, false)
  {
    if ids != [] {
      var init := ids[..|ids| - 1];
      assert forall x :: x in init ==> x in ids;
      MarkAllSettled(done, userId, init, now);
    }
  }

  /** Once a run has gone through without refusal, running it again changes nothing and counts 0. */
  lemma MarkAllAgain(m: map<string, Notification>, userId: string, ids: seq<string>, now: Time)
    requires !MarkAll(m, userId, ids, now).refused
    ensures MarkAll(MarkAll(m, userId, ids, now).store, userId, ids, now) == MarkState(MarkAll(m, userId, ids, now).store, 0, false)
  {
    MarkAllFacts(m, userId, ids, now);
    MarkAllSettled(MarkAll(m, userId, ids, now).store, userId, ids, now);
  }

  /**
   * `mark_notifications_as_read`: the loop over the ids, stopping with an
   * error at the first foreign notification.
   */
  method MarkNotificationsAsRead(db: Store.Db, userId: string, ids: seq<string>, now: Time) returns (r: Result<nat>)
    modifies db`notifications
    ensures db.notifications == MarkAll(old(db.notifications), userId, ids, now).store
    ensures r == if MarkAll(old(db.notifications), userId, ids, now).refused then Err(Forbidden)
                 else Ok(MarkAll(old(db.notifications), userId, ids, now).count)
  {
    ghost var m0 := db.notifications;
    var count := 0;
    var i := 0;
    while i < |ids|
      invariant 0 <= i <= |ids|
      invariant MarkAll(m0, userId, ids[..i], now) == MarkState(db.notifications, count, false)
    {
      assert ids[..i + 1][..i] == ids[..i];
      var id := ids[i];
      if id in db.notifications {
        var n := db.notifications[id];
        if n.userId != userId {
          assert MarkAll(m0, userId, ids[..i + 1], now).refused;
          RefusalSticks(m0, userId, ids, i + 1, now);
          assert ids[..|ids|] == ids;
          return Err(Forbidden);
        }
        if !n.isRead {
          db.notifications := db.notifications[id := n.(isRead := true, readAt := Some(now))];
          count := count + 1;
        }
      }
      i := i + 1;
    }
    assert ids[..i] == ids;
    r := Ok(count);
  }

  /** Once refused, a run stays refused whatever ids follow, and the store no longer changes. */
  lemma {:induction false} RefusalSticks(m: map<string, Notification>, userId: string, ids: seq<string>, j: nat, now: Time)
    requires j <= |ids|
    requires MarkAll(m, userId, ids[..j], now).refused
    ensures MarkAll(m, userId, ids, now) == MarkAll(m, userId, ids[..j], now)
    decreases |ids| - j
  {
    if j < |ids| {
      assert ids[..j + 1][..j] == ids[..j];
      RefusalSticks(m, userId, ids, j + 1, now);
    } else {
      assert ids[..j] == ids;
    }
  }

  /** `delete_notification`: refused for a missing or foreign notification, otherwise removed. */
  method DeleteNotification(db: Store.Db, userId: string, id: string) returns (r: Outcome)
    modifies db`notifications
    ensures id !in old(db.notifications) ==> r == Fail(NotFound)
    ensures id in old(db.notifications) && old(db.notifications)[id].userId != userId ==> r == Fail(Forbidden)
    ensures r.Pass? <==> id in old(db.notifications) && old(db.notifications)[id].userId == userId
    ensures r.Pass? ==> db.notifications == old(db.notifications) - {id}
    ensures r.Fail? ==> db.notifications == old(db.notifications)
  {
    if id !in db.notifications {
      return Fail(NotFound);
    }
    if db.notifications[id].userId != userId {
      return Fail(Forbidden);
    }
    db.notifications := db.notifications - {id};
    r := Pass;
  }
}
