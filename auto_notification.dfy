/**
 * The automatic notifications (`AutoNotificationService`): the map link and
 * the message texts, the per-recipient dispatch of arrival, stay and
 * departure notices with their 24-hour history rows, the periodic stay
 * sweep and the history purge.
 */
module AutoNotification {
  import opened Common
  import opened ScheduleSchema
  import opened UserSchema
  import opened NotificationSchema
  import opened LocationSchema
  import Schedules
  import Notifications
  import Locations
  import Users
  import Store

  // ---------------------------------------------------------------------
  // The map link
  // ---------------------------------------------------------------------

  const MAPS_PREFIX: string := "https://www.google.com/maps?q="

  /** How a coordinate prints inside an f-string (Python's float `repr`); left abstract. */
  type Render = real -> string

  predicate CommaFree(s: string) {
    forall i :: 0 <= i < |s| ==> s[i] != ','
  }

  /** `_generate_map_link`: the maps URL with `lat,lng` as its query. */
  function MapLink(render: Render, c: Coords): (r: string)
    ensures |MAPS_PREFIX| < |r| && r[..|MAPS_PREFIX|] == MAPS_PREFIX
  {
    MAPS_PREFIX + render(c.lat) + "," + render(c.lng)
  }

  /** Splits `s` at its first comma. */
  function SplitAtComma(s: string): (r: Option<(string, string)>)
    ensures r.None? <==> CommaFree(s)
    ensures r.Some? ==> CommaFree(r.value.0) && s == r.value.0 + "," + r.value.1
  {
    if s == [] then None
    else if s[0] == ',' then
      assert s == [] + "," + s[1..];
      Some(([], s[1..]))
    else
      match SplitAtComma(s[1..])
      case None => None
      case Some((a, b)) =>
        assert s == [s[0]] + s[1..];
        Some(([s[0]] + a, b))
  }

  lemma {:induction false} SplitJoin(a: string, b: string)
    requires CommaFree(a)
    ensures SplitAtComma(a + "," + b) == Some((a, b))
  {
    if a == [] {
      assert a + "," + b == [','] + b;
    } else {
      assert (a + "," + b)[1..] == a[1..] + "," + b;
      SplitJoin(a[1..], b);
      assert [a[0]] + a[1..] == a;
    }
  }

  /** Reads the two rendered coordinates back out of a map link. */
  function ParseMapLink(s: string): Option<(string, string)> {
    if |s| >= |MAPS_PREFIX| && s[..|MAPS_PREFIX|] == MAPS_PREFIX then SplitAtComma(s[|MAPS_PREFIX|..])
    else None
  }

  /** A link reads back as the two rendered coordinates, given a latitude rendering without commas. */
  lemma MapLinkRoundTrip(render: Render, c: Coords)
    requires CommaFree(render(c.lat))
    ensures ParseMapLink(MapLink(render, c)) == Some((render(c.lat), render(c.lng)))
  {
    var r := MapLink(render, c);
    assert r[|MAPS_PREFIX|..] == render(c.lat) + "," + render(c.lng);
    SplitJoin(render(c.lat), render(c.lng));
  }

  /** With an injective, comma-free rendering, different coordinates give different links. */
  lemma MapLinkInjective(render: Render, a: Coords, b: Coords)
    requires forall x, y :: render(x) == render(y) ==> x == y
    requires forall x :: CommaFree(render(x))
    requires MapLink(render, a) == MapLink(render, b)
    ensures a == b
  {
    MapLinkRoundTrip(render, a);
    MapLinkRoundTrip(render, b);
  }

  // ---------------------------------------------------------------------
  // Message texts
  // ---------------------------------------------------------------------

  /** `strftime("%H:%M")` of a UTC instant given in seconds. */
  function Clock(t: Time): (r: string)
    ensures |r| == 5 && r[2] == ':' && AllDigits(r[..2]) && AllDigits(r[3..])
    ensures DigitsValue(r[..2]) == (t / HOUR) % 24 && DigitsValue(r[3..]) == (t / MINUTE) % 60
  {
    var r := Pad2((t / HOUR) % 24) + ":" + Pad2((t / MINUTE) % 60);
    assert r[..2] == Pad2((t / HOUR) % 24);
    assert r[3..] == Pad2((t / MINUTE) % 60);
    r
  }

  const HOURS_UNIT: string := "時間"
  const MINUTES_UNIT: string := "分"

  /** The duration text of `_format_stay_message`: hours and minutes, a zero part omitted. */
  function DurationText(m: int): (r: string)
    ensures r != [] && IsDigit(r[0])
  {
    HoursMinutesText(m / 60, m % 60)
  }

  /** `h` hours and `rem` minutes, either part left out when it is zero. */
  function HoursMinutesText(h: int, rem: nat): (r: string)
    ensures r != [] && IsDigit(r[0])
  {
    if h > 0 && rem > 0 then NatToString(h) + HOURS_UNIT + NatToString(rem) + MINUTES_UNIT
    else if h > 0 then NatToString(h) + HOURS_UNIT
    else NatToString(rem) + MINUTES_UNIT
  }

  /** Reads a duration text back into minutes. */
  function ParseDuration(s: string): Option<nat> {
    match ParseLeadingNat(s)
    case None => None
    case Some((a, rest)) =>
      if rest == MINUTES_UNIT then Some(a)
      else if rest == HOURS_UNIT then Some(a * 60)
      else if |rest| > 2 && rest[..2] == HOURS_UNIT then
        match ParseLeadingNat(rest[2..])
        case Some((b, tail)) => if tail == MINUTES_UNIT then Some(a * 60 + b) else None
        case None => None
      else None
  }

  /** The parse of a text with both parts, from what the two number reads give. */
  lemma {:induction false} ParseBothParts(s: string, h: nat, rem: nat, tail: string)
    requires ParseLeadingNat(s) == Some((h, HOURS_UNIT + tail))
    requires ParseLeadingNat(tail) == Some((rem, MINUTES_UNIT))
    ensures ParseDuration(s) == Some(h * 60 + rem)
  {
    var rest := HOURS_UNIT + tail;
    assert |tail| >= 1;
    assert |rest| > 2 && rest != MINUTES_UNIT && rest != HOURS_UNIT;
    assert rest[..2] == HOURS_UNIT;
    assert rest[2..] == tail;
  }

  lemma {:induction false} HoursAndMinutesRoundTrip(h: nat, rem: nat)
    ensures ParseDuration(NatToString(h) + HOURS_UNIT + NatToString(rem) + MINUTES_UNIT) == Some(h * 60 + rem)
  {
    var tail := NatToString(rem) + MINUTES_UNIT;
    var s := NatToString(h) + HOURS_UNIT + NatToString(rem) + MINUTES_UNIT;
    assert s == NatToString(h) + (HOURS_UNIT + tail);
    ParseRenderedNat(h, HOURS_UNIT + tail);
    ParseRenderedNat(rem, MINUTES_UNIT);
    ParseBothParts(s, h, rem, tail);
  }

  /** Hours and minutes read back as their total, whichever parts are written. */
  lemma {:induction false} HoursMinutesRoundTrip(h: nat, rem: nat)
    ensures ParseDuration(HoursMinutesText(h, rem)) == Some(h * 60 + rem)
  {
    if h > 0 && rem > 0 {
      HoursAndMinutesRoundTrip(h, rem);
    } else if h > 0 {
      ParseRenderedNat(h, HOURS_UNIT);
      assert HOURS_UNIT != MINUTES_UNIT;
    } else {
      ParseRenderedNat(rem, MINUTES_UNIT);
    }
  }

  /** The duration text of a non-negative number of minutes reads back as that number. */
  lemma {:induction false} DurationRoundTrip(m: nat)
    ensures ParseDuration(DurationText(m)) == Some(m)
  {
    HoursMinutesRoundTrip(m / 60, m % 60);
  }

  /** The three durations the service's tests spell out. */
  lemma DurationExamples()
    ensures DurationText(90) == "1時間30分"
    ensures DurationText(45) == "45分"
    ensures DurationText(120) == "2時間"
  {
    assert NatToString(30) == "30";
    assert NatToString(45) == "45";
  }

  const GREETING: string := "今ね、"

  /** `_format_arrival_message`, stamped with the clock reading of `now`. */
  function ArrivalMessage(name: string, destination: string, now: Time): (r: string)
    ensures GREETING <= r && |r| >= 5 && r[|r| - 5..] == Clock(now)
  {
    var r := GREETING + name + "さんが" + destination + "へ到着したよ\n到着時刻: " + Clock(now);
    assert r == (GREETING + name + "さんが" + destination + "へ到着したよ\n到着時刻: ") + Clock(now);
    r
  }

  /** `_format_stay_message`. */
  function StayMessage(name: string, destination: string, minutes: int): (r: string)
    ensures GREETING <= r
  {
    GREETING + name + "さんは" + destination + "に" + DurationText(minutes) + "滞在しているよ"
  }

  /** `_format_departure_message`, stamped with the clock reading of `now`. */
  function DepartureMessage(name: string, destination: string, now: Time): (r: string)
    ensures GREETING <= r && |r| >= 5 && r[|r| - 5..] == Clock(now)
  {
    var r := GREETING + name + "さんが" + destination + "から出発したよ\n出発時刻: " + Clock(now);
    assert r == (GREETING + name + "さんが" + destination + "から出発したよ\n出発時刻: ") + Clock(now);
    r
  }

  // ---------------------------------------------------------------------
  // History rows
  // ---------------------------------------------------------------------

  const ARRIVAL_KIND: string := "arrival"
  const STAY_KIND: string := "stay"
  const DEPARTURE_KIND: string := "departure"

  /** What every history row of one dispatch shares: sender, schedule, kind, text, link and send time. */
  datatype Letter = Letter(fromUserId: string, scheduleId: string, kind: string, message: string, mapLink: string, sentAt: Time)

  /** The row `_save_notification_history` writes for one recipient, expiring 24 hours after sending. */
  function RowFor(l: Letter, id: string, to: string): (r: HistoryRow)
    ensures r.id == id && r.toUserId == to && r.fromUserId == l.fromUserId && r.scheduleId == l.scheduleId
    ensures r.kind == l.kind && r.message == l.message && r.mapLink == l.mapLink && r.sentAt == l.sentAt
    ensures r.autoDeleteAt - r.sentAt == RETENTION
  {
    HistoryRow(id, l.fromUserId, to, l.scheduleId, l.kind, l.message, l.mapLink, l.sentAt, l.sentAt + RETENTION)
  }

  /** The filter of the history purge. */
  predicate RowExpired(r: HistoryRow, now: Time) {
    r.autoDeleteAt <= now
  }

  /** A written row survives the purge for exactly 24 hours after it was sent. */
  lemma RowLifetime(l: Letter, id: string, to: string, t: Time)
    ensures RowExpired(RowFor(l, id, to), t) <==> t - l.sentAt >= RETENTION_HOURS * HOUR
  {
  }

  /** `_save_notification_history`: stores the row under a fresh id. */
  method SaveNotificationHistory(db: Store.Db, l: Letter, to: string) returns (row: HistoryRow)
    modifies db`notificationHistory
    ensures row.id !in old(db.notificationHistory)
    ensures row == RowFor(l, row.id, to)
    ensures db.notificationHistory == old(db.notificationHistory)[row.id := row]
  {
    var id := FreshKey(db.notificationHistory.Keys);
    row := RowFor(l, id, to);
    db.notificationHistory := db.notificationHistory[id := row];
  }

  // ---------------------------------------------------------------------
  // Dispatch to the recipients
  // ---------------------------------------------------------------------

  /** The recipients a push reaches, in `notify_to_user_ids` order: those with a user document. */
  function Delivered(recipients: seq<string>, known: set<string>): (r: seq<string>)
    ensures |r| <= |recipients|
    ensures forall x :: x in r <==> x in recipients && x in known
    ensures (forall x :: x in recipients ==> x in known) ==> r == recipients
  {
    if recipients == [] then []
    else
      var last := recipients[|recipients| - 1];
      assert recipients == recipients[..|recipients| - 1] + [last];
      Delivered(recipients[..|recipients| - 1], known) + (if last in known then [last] else [])
  }

  /** `before` with one row per id, the `i`-th addressed to `tos[i]`. */
  function AddRows(before: map<string, HistoryRow>, ids: seq<string>, tos: seq<string>, l: Letter): map<string, HistoryRow>
    requires |ids| == |tos|
    decreases |ids|
  {
    if ids == [] then before
    else
      var n := |ids| - 1;
      AddRows(before, ids[..n], tos[..n], l)[ids[n] := RowFor(l, ids[n], tos[n])]
  }

  /** The ids are distinct and none is a key of `before`. */
  predicate FreshIds(before: map<string, HistoryRow>, ids: seq<string>) {
    && (forall i, j :: 0 <= i < j < |ids| ==> ids[i] != ids[j])
    && (forall i :: 0 <= i < |ids| ==> ids[i] !in before)
  }

  /** `after` is `before` plus one row per id, the ids being distinct and new. */
  ghost predicate Logged(before: map<string, HistoryRow>, after: map<string, HistoryRow>, ids: seq<string>, tos: seq<string>, l: Letter) {
    |ids| == |tos| && FreshIds(before, ids) && after == AddRows(before, ids, tos, l)
  }

  /** The keys after the rows are added: the old ones and the ids. */
  lemma {:induction false} AddRowsKeys(before: map<string, HistoryRow>, ids: seq<string>, tos: seq<string>, l: Letter)
    requires |ids| == |tos|
    ensures forall k :: k in AddRows(before, ids, tos, l) <==> k in before || k in ids
    decreases |ids|
  {
    if ids != [] {
      var n := |ids| - 1;
      AddRowsKeys(before, ids[..n], tos[..n], l);
      assert ids == ids[..n] + [ids[n]];
    }
  }

  /** Rows under keys that are not among the ids are left as they were. */
  lemma {:induction false} AddRowsOld(before: map<string, HistoryRow>, ids: seq<string>, tos: seq<string>, l: Letter)
    requires |ids| == |tos|
    ensures forall k :: k in before && k !in ids ==>
      k in AddRows(before, ids, tos, l) && AddRows(before, ids, tos, l)[k] == before[k]
    decreases |ids|
  {
    if ids != [] {
      var n := |ids| - 1;
      AddRowsKeys(before, ids[..n], tos[..n], l);
      AddRowsOld(before, ids[..n], tos[..n], l);
      assert ids == ids[..n] + [ids[n]];
    }
  }

  /** Each distinct id holds the letter's row for its recipient. */
  lemma {:induction false} AddRowsNew(before: map<string, HistoryRow>, ids: seq<string>, tos: seq<string>, l: Letter)
    requires |ids| == |tos| && FreshIds(before, ids)
    ensures forall i :: 0 <= i < |ids| ==>
      ids[i] in AddRows(before, ids, tos, l) && AddRows(before, ids, tos, l)[ids[i]] == RowFor(l, ids[i], tos[i])
    decreases |ids|
  {
    if ids != [] {
      var n := |ids| - 1;
      assert FreshIds(before, ids[..n]);
      AddRowsNew(before, ids[..n], tos[..n], l);
      var mid := AddRows(before, ids[..n], tos[..n], l);
      var after := mid[ids[n] := RowFor(l, ids[n], tos[n])];
      assert after == AddRows(before, ids, tos, l);
      forall i | 0 <= i < n
        ensures ids[i] in after && after[ids[i]] == RowFor(l, ids[i], tos[i])
      {
        assert ids[..n][i] == ids[i] && tos[..n][i] == tos[i];
        assert ids[i] != ids[n];
      }
    }
  }

  /** Distinct new ids add exactly one row each. */
  lemma {:induction false} AddRowsCard(before: map<string, HistoryRow>, ids: seq<string>, tos: seq<string>, l: Letter)
    requires |ids| == |tos| && FreshIds(before, ids)
    ensures |AddRows(before, ids, tos, l)| == |before| + |ids|
    decreases |ids|
  {
    if ids != [] {
      var n := |ids| - 1;
      assert FreshIds(before, ids[..n]);
      AddRowsKeys(before, ids[..n], tos[..n], l);
      AddRowsCard(before, ids[..n], tos[..n], l);
      assert ids[n] !in AddRows(before, ids[..n], tos[..n], l) by {
        forall i | 0 <= i < n
          ensures ids[..n][i] != ids[n]
        {
          assert ids[..n][i] == ids[i];
        }
      }
    }
  }

  /** What `Logged` means row by row: the old rows kept, the new ones the letter's, one per id. */
  lemma {:induction false} AddRowsSpec(before: map<string, HistoryRow>, ids: seq<string>, tos: seq<string>, l: Letter)
    requires |ids| == |tos| && FreshIds(before, ids)
    ensures var after := AddRows(before, ids, tos, l);
      && (forall k :: k in after <==> k in before || k in ids)
      && (forall k :: k in before ==> after[k] == before[k])
      && (forall i :: 0 <= i < |ids| ==> after[ids[i]] == RowFor(l, ids[i], tos[i]))
      && |after| == |before| + |ids|
  {
    AddRowsKeys(before, ids, tos, l);
    AddRowsOld(before, ids, tos, l);
    AddRowsNew(before, ids, tos, l);
    AddRowsCard(before, ids, tos, l);
  }

  /** A failed-token cleanup at most drops tokens and stamps `updated_at`; no user appears or disappears. */
  ghost predicate TokensPruned(before: map<string, User>, after: map<string, User>) {
    && after.Keys == before.Keys
    && forall k :: k in before ==>
      && after[k].(fcmTokens := before[k].fcmTokens, updatedAt := before[k].updatedAt) == before[k]
      && (forall t :: t in after[k].fcmTokens ==> t in before[k].fcmTokens)
  }

  /** `after` is `before` plus one unread notification per recipient in `tos`. */
  ghost predicate Inboxed(
    before: map<string, Notification>, after: map<string, Notification>, tos: seq<string>,
    kind: NotificationType, title: string, body: string, now: Time)
  {
    && (forall k :: k in before ==> k in after && after[k] == before[k])
    && |after| == |before| + |tos|
    && (forall k :: k in after && k !in before ==>
          after[k].userId in tos && after[k] == NewNotificationFor(k, after[k].userId, kind, title, body, now))
  }

  function NewNotificationFor(id: string, userId: string, kind: NotificationType, title: string, body: string, now: Time)
    : Notification
  {
    Notifications.NewNotification(id, userId, kind, title, body, now)
  }

  lemma {:induction false} LoggedStep(
    before: map<string, HistoryRow>, mid: map<string, HistoryRow>, ids: seq<string>, tos: seq<string>,
    l: Letter, row: HistoryRow, to: string)
    requires Logged(before, mid, ids, tos, l)
    requires row.id !in mid && row == RowFor(l, row.id, to)
    ensures Logged(before, mid[row.id := row], ids + [row.id], tos + [to], l)
  {
    var ids' := ids + [row.id];
    var tos' := tos + [to];
    AddRowsKeys(before, ids, tos, l);
    forall i, j | 0 <= i < j < |ids'|
      ensures ids'[i] != ids'[j]
    {
      if j == |ids| {
        assert ids'[i] == ids[i] && ids[i] in mid;
      }
    }
    assert ids'[..|ids|] == ids && tos'[..|ids|] == tos;
  }

  lemma {:induction false} InboxedStep(
    before: map<string, Notification>, mid: map<string, Notification>, tos: seq<string>,
    kind: NotificationType, title: string, body: string, now: Time, note: Notification, to: string)
    requires Inboxed(before, mid, tos, kind, title, body, now)
    requires note.notificationId !in mid
    requires note == NewNotificationFor(note.notificationId, to, kind, title, body, now)
    ensures Inboxed(before, mid[note.notificationId := note], tos + [to], kind, title, body, now)
  {
    var after := mid[note.notificationId := note];
    forall k | k in after && k !in before
      ensures after[k].userId in tos + [to]
      ensures after[k] == NewNotificationFor(k, after[k].userId, kind, title, body, now)
    {
      if k != note.notificationId {
        assert after[k] == mid[k];
      }
    }
  }

  lemma {:induction false} TokensPrunedTrans(a: map<string, User>, b: map<string, User>, c: map<string, User>)
    requires TokensPruned(a, b) && TokensPruned(b, c)
    ensures TokensPruned(a, c)
  {
  }

  lemma {:induction false} PushPrunes(users: map<string, User>, to: string, t: Notifications.Transport, now: Time)
    requires to in users
    ensures TokensPruned(users, users[to := Notifications.AfterMulticast(users[to], t, now)])
  {
  }

  /** Whether a dispatch's state change is exactly the one `Dispatch` promises. */
  ghost predicate Sent(
    u0: map<string, User>, n0: map<string, Notification>, h0: map<string, HistoryRow>,
    u1: map<string, User>, n1: map<string, Notification>, h1: map<string, HistoryRow>,
    ids: seq<string>, recipients: seq<string>, l: Letter, kind: NotificationType, title: string, body: string)
  {
    var tos := Delivered(recipients, u0.Keys);
    && Logged(h0, h1, ids, tos, l)
    && TokensPruned(u0, u1)
    && Inboxed(n0, n1, tos, kind, title, body, l.sentAt)
  }

  /**
   * One recipient of the dispatch loop: the push, and when it does not
   * raise (the recipient has a user document), the history row.
   */
  method DispatchOne(
    db: Store.Db, l: Letter, to: string, kind: NotificationType, title: string, body: string,
    t: Notifications.Transport, ids: seq<string>,
    ghost u0: map<string, User>, ghost n0: map<string, Notification>, ghost h0: map<string, HistoryRow>, ghost tos: seq<string>)
    returns (ids': seq<string>)
    modifies db`users, db`notifications, db`notificationHistory
    requires Logged(h0, db.notificationHistory, ids, tos, l)
    requires TokensPruned(u0, db.users)
    requires Inboxed(n0, db.notifications, tos, kind, title, body, l.sentAt)
    ensures Logged(h0, db.notificationHistory, ids', tos + (if to in u0.Keys then [to] else []), l)
    ensures TokensPruned(u0, db.users)
    ensures Inboxed(n0, db.notifications, tos + (if to in u0.Keys then [to] else []), kind, title, body, l.sentAt)
  {
    ghost var u := db.users;
    ghost var n := db.notifications;
    assert u.Keys == u0.Keys;
    var sent := Notifications.SendPushNotification(db, to, title, body, kind, true, t, l.sentAt);
    if sent.Err? {
      assert to !in u0.Keys;
      assert tos + (if to in u0.Keys then [to] else []) == tos;
      return ids;
    }
    assert to in u0.Keys;
    PushPrunes(u, to, t, l.sentAt);
    TokensPrunedTrans(u0, u, db.users);
    var note := sent.value.value;
    InboxedStep(n0, n, tos, kind, title, body, l.sentAt, note, to);
    ghost var h := db.notificationHistory;
    var row := SaveNotificationHistory(db, l, to);
    LoggedStep(h0, h, ids, tos, l, row, to);
    ids' := ids + [row.id];
  }

  /** One more recipient: the delivered list grows by that recipient when it has a user document. */
  lemma {:induction false} DeliveredSnoc(rs: seq<string>, x: string, known: set<string>)
    ensures Delivered(rs + [x], known) == Delivered(rs, known) + (if x in known then [x] else [])
  {
    assert (rs + [x])[..|rs|] == rs;
  }

  /** The dispatch state after one more recipient, from the three facts `DispatchOne` establishes. */
  lemma {:induction false} SentSnoc(
    u0: map<string, User>, n0: map<string, Notification>, h0: map<string, HistoryRow>,
    u1: map<string, User>, n1: map<string, Notification>, h1: map<string, HistoryRow>,
    ids: seq<string>, rs: seq<string>, x: string, l: Letter, kind: NotificationType, title: string, body: string)
    requires Logged(h0, h1, ids, Delivered(rs, u0.Keys) + (if x in u0.Keys then [x] else []), l)
    requires TokensPruned(u0, u1)
    requires Inboxed(n0, n1, Delivered(rs, u0.Keys) + (if x in u0.Keys then [x] else []), kind, title, body, l.sentAt)
    ensures Sent(u0, n0, h0, u1, n1, h1, ids, rs + [x], l, kind, title, body)
  {
    DeliveredSnoc(rs, x, u0.Keys);
  }

  /** Before the first recipient nothing has been sent. */
  lemma {:induction false} SentNothing(
    u: map<string, User>, n: map<string, Notification>, h: map<string, HistoryRow>,
    l: Letter, kind: NotificationType, title: string, body: string)
    ensures Sent(u, n, h, u, n, h, [], [], l, kind, title, body)
  {
    assert Delivered([], u.Keys) == [];
  }

  /** A dispatch returns at most one id per recipient. */
  lemma {:induction false} SentIds(
    u0: map<string, User>, n0: map<string, Notification>, h0: map<string, HistoryRow>,
    u1: map<string, User>, n1: map<string, Notification>, h1: map<string, HistoryRow>,
    ids: seq<string>, rs: seq<string>, l: Letter, kind: NotificationType, title: string, body: string)
    requires Sent(u0, n0, h0, u1, n1, h1, ids, rs, l, kind, title, body)
    ensures |ids| <= |rs|
  {
    assert |ids| == |Delivered(rs, u0.Keys)|;
  }

  /** One pass of the recipient loop: the dispatch so far grows by recipient `x`. */
  method DispatchNext(
    db: Store.Db, l: Letter, x: string, kind: NotificationType, title: string, body: string,
    t: Notifications.Transport, ids: seq<string>,
    ghost u0: map<string, User>, ghost n0: map<string, Notification>, ghost h0: map<string, HistoryRow>,
    ghost done: seq<string>)
    returns (ids': seq<string>)
    modifies db`users, db`notifications, db`notificationHistory
    requires Sent(u0, n0, h0, db.users, db.notifications, db.notificationHistory, ids, done, l, kind, title, body)
    ensures Sent(u0, n0, h0, db.users, db.notifications, db.notificationHistory, ids', done + [x], l, kind, title, body)
  {
    ids' := DispatchOne(db, l, x, kind, title, body, t, ids, u0, n0, h0, Delivered(done, u0.Keys));
    SentSnoc(u0, n0, h0, db.users, db.notifications, db.notificationHistory, ids', done, x, l, kind, title, body);
  }

  /**
   * The recipient loop of the `send_*_notification` methods: a push to each
   * recipient in order; a recipient without a user document makes the push
   * raise, which is caught, and gets no history row; every other recipient
   * gets a saved notification and a history row whose id is returned.
   */
  method Dispatch(
    db: Store.Db, l: Letter, recipients: seq<string>, kind: NotificationType, title: string, body: string,
    net: string -> Notifications.Transport)
    returns (ids: seq<string>)
    modifies db`users, db`notifications, db`notificationHistory
    ensures Sent(old(db.users), old(db.notifications), old(db.notificationHistory),
                 db.users, db.notifications, db.notificationHistory, ids, recipients, l, kind, title, body)
    ensures |ids| <= |recipients|
  {
    ghost var u0, n0, h0 := db.users, db.notifications, db.notificationHistory;
    ids := [];
    var i := 0;
    ghost var done: seq<string> := [];
    SentNothing(u0, n0, h0, l, kind, title, body);
    while i < |recipients|
      invariant 0 <= i <= |recipients| && done == recipients[..i]
      invariant Sent(u0, n0, h0, db.users, db.notifications, db.notificationHistory, ids, done, l, kind, title, body)
    {
      ids := DispatchNext(db, l, recipients[i], kind, title, body, net(recipients[i]), ids, u0, n0, h0, done);
      done := done + [recipients[i]];
      i := i + 1;
    }
    assert done == recipients;
    SentIds(u0, n0, h0, db.users, db.notifications, db.notificationHistory, ids, recipients, l, kind, title, body);
  }

  // ---------------------------------------------------------------------
  // Arrival, stay and departure
  // ---------------------------------------------------------------------

  /** Nothing was sent and nothing was written. */
  ghost predicate Quiet(
    u0: map<string, User>, n0: map<string, Notification>, h0: map<string, HistoryRow>,
    u1: map<string, User>, n1: map<string, Notification>, h1: map<string, HistoryRow>, ids: seq<string>)
  {
    ids == [] && u1 == u0 && n1 == n0 && h1 == h0
  }

  /** The push body of arrival and stay notices: the message followed by the link. */
  function LinkedBody(message: string, link: string): string {
    message + "\nここにいるよ → " + link
  }

  /**
   * `send_arrival_notification`: nothing when arrival notices are off or the
   * sender has no user document; otherwise the dispatch of the arrival text
   * with a link to the current position.
   */
  method SendArrivalNotification(
    db: Store.Db, s: Schedule, cur: Coords, render: Render, net: string -> Notifications.Transport, now: Time)
    returns (ids: seq<string>)
    modifies db`users, db`notifications, db`notificationHistory
    ensures !s.notifyOnArrival || s.userId !in old(db.users) ==>
      Quiet(old(db.users), old(db.notifications), old(db.notificationHistory),
            db.users, db.notifications, db.notificationHistory, ids)
    ensures s.notifyOnArrival && s.userId in old(db.users) ==>
      var name := SenderName(old(db.users)[s.userId]);
      var message := ArrivalMessage(name, s.destinationName, now);
      var link := MapLink(render, cur);
      Sent(old(db.users), old(db.notifications), old(db.notificationHistory),
           db.users, db.notifications, db.notificationHistory, ids, s.notifyTo,
           Letter(s.userId, s.id, ARRIVAL_KIND, message, link, now), Arrival, name + "さんが到着", LinkedBody(message, link))
  {
    if !s.notifyOnArrival {
      return [];
    }
    var user := Users.GetUserByUid(db, s.userId);
    if user.None? {
      return [];
    }
    var name := SenderName(user.value);
    var message := ArrivalMessage(name, s.destinationName, now);
    var link := MapLink(render, cur);
    ids := Dispatch(db, Letter(s.userId, s.id, ARRIVAL_KIND, message, link, now), s.notifyTo,
                    Arrival, name + "さんが到着", LinkedBody(message, link), net);
  }

  /** `int(elapsed.total_seconds() / 60)`: whole minutes since arrival, truncated toward zero. */
  function StayMinutes(arrivedAt: Time, now: Time): (m: int)
    ensures now >= arrivedAt ==> 0 <= m && m * MINUTE <= now - arrivedAt < (m + 1) * MINUTE
  {
    TruncDiv(now - arrivedAt, MINUTE)
  }

  /** The guards of `send_stay_notification` on the schedule alone: arrived, and long enough. */
  predicate StayLongEnough(s: Schedule, now: Time) {
    s.arrivedAt.Some? && StayMinutes(s.arrivedAt.value, now) >= s.notifyAfterMinutes
  }

  /**
   * `send_stay_notification`: nothing without an arrival time, before the
   * threshold, or without a sender document; otherwise the dispatch of the
   * stay text (with the elapsed minutes) and a link to `cur`.
   */
  method SendStayNotification(
    db: Store.Db, s: Schedule, cur: Coords, render: Render, net: string -> Notifications.Transport, now: Time)
    returns (ids: seq<string>)
    modifies db`users, db`notifications, db`notificationHistory
    ensures !StayLongEnough(s, now) || s.userId !in old(db.users) ==>
      Quiet(old(db.users), old(db.notifications), old(db.notificationHistory),
            db.users, db.notifications, db.notificationHistory, ids)
    ensures StayLongEnough(s, now) && s.userId in old(db.users) ==>
      var name := SenderName(old(db.users)[s.userId]);
      var message := StayMessage(name, s.destinationName, StayMinutes(s.arrivedAt.value, now));
      var link := MapLink(render, cur);
      Sent(old(db.users), old(db.notifications), old(db.notificationHistory),
           db.users, db.notifications, db.notificationHistory, ids, s.notifyTo,
           Letter(s.userId, s.id, STAY_KIND, message, link, now), Stay, name + "さんが滞在中", LinkedBody(message, link))
  {
    if s.arrivedAt.None? {
      return [];
    }
    var minutes := StayMinutes(s.arrivedAt.value, now);
    if minutes < s.notifyAfterMinutes {
      return [];
    }
    var user := Users.GetUserByUid(db, s.userId);
    if user.None? {
      return [];
    }
    var name := SenderName(user.value);
    var message := StayMessage(name, s.destinationName, minutes);
    var link := MapLink(render, cur);
    ids := Dispatch(db, Letter(s.userId, s.id, STAY_KIND, message, link, now), s.notifyTo,
                    Stay, name + "さんが滞在中", LinkedBody(message, link), net);
  }

  /**
   * `send_departure_notification`: nothing when departure notices are off or
   * the sender has no user document; otherwise the dispatch of the departure
   * text, whose link points at the destination rather than the position.
   */
  method SendDepartureNotification(
    db: Store.Db, s: Schedule, cur: Coords, render: Render, net: string -> Notifications.Transport, now: Time)
    returns (ids: seq<string>)
    modifies db`users, db`notifications, db`notificationHistory
    ensures !s.notifyOnDeparture || s.userId !in old(db.users) ==>
      Quiet(old(db.users), old(db.notifications), old(db.notificationHistory),
            db.users, db.notifications, db.notificationHistory, ids)
    ensures s.notifyOnDeparture && s.userId in old(db.users) ==>
      var name := SenderName(old(db.users)[s.userId]);
      var message := DepartureMessage(name, s.destinationName, now);
      Sent(old(db.users), old(db.notifications), old(db.notificationHistory),
           db.users, db.notifications, db.notificationHistory, ids, s.notifyTo,
           Letter(s.userId, s.id, DEPARTURE_KIND, message, MapLink(render, s.destination), now),
           Departure, name + "さんが出発", message)
  {
    if !s.notifyOnDeparture {
      return [];
    }
    var user := Users.GetUserByUid(db, s.userId);
    if user.None? {
      return [];
    }
    var name := SenderName(user.value);
    var message := DepartureMessage(name, s.destinationName, now);
    var link := MapLink(render, s.destination);
    ids := Dispatch(db, Letter(s.userId, s.id, DEPARTURE_KIND, message, link, now), s.notifyTo,
                    Departure, name + "さんが出発", message, net);
  }

  // ---------------------------------------------------------------------
  // The stay sweep and the history purge
  // ---------------------------------------------------------------------

  predicate IsStayRow(r: HistoryRow, scheduleId: string) {
    r.scheduleId == scheduleId && r.kind == STAY_KIND
  }

  /** A `stay` history row exists for the schedule. */
  ghost predicate HasStayRow(h: map<string, HistoryRow>, scheduleId: string) {
    exists k :: k in h && IsStayRow(h[k], scheduleId)
  }

  /** The user has at least one location sample. */
  ghost predicate HasSample(locs: map<string, LocationSample>, userId: string) {
    exists k :: k in locs && locs[k].userId == userId
  }

  /** The time guards of the sweep: ARRIVED, stayed long enough, and the window has not ended. */
  predicate StayDue(s: Schedule, now: Time) {
    s.status == Arrived && StayLongEnough(s, now) && !(s.endTime < now)
  }

  /**
   * A schedule the sweep sends a stay notice for, and that notice reaches
   * somebody: due, no `stay` row yet, a latest sample, a sender document,
   * and at least one recipient with a user document.
   */
  ghost predicate StayPending(s: Schedule, h: map<string, HistoryRow>, locs: map<string, LocationSample>, known: set<string>, now: Time) {
    && StayDue(s, now)
    && !HasStayRow(h, s.id)
    && HasSample(locs, s.userId)
    && s.userId in known
    && Delivered(s.notifyTo, known) != []
  }

  /** `after` keeps every row of `before`. */
  ghost predicate Grows(before: map<string, HistoryRow>, after: map<string, HistoryRow>) {
    forall k :: k in before ==> k in after && after[k] == before[k]
  }

  lemma HasStayRowGrows(h1: map<string, HistoryRow>, h2: map<string, HistoryRow>, id: string)
    requires Grows(h1, h2) && HasStayRow(h1, id)
    ensures HasStayRow(h2, id)
  {
    var k :| k in h1 && IsStayRow(h1[k], id);
    assert k in h2 && IsStayRow(h2[k], id);
  }

  /**
   * One schedule of the sweep: the guards in the order the sweep checks
   * them, then the stay dispatch with the latest sample's position. Rows
   * are written exactly when the schedule is pending.
   */
  method StayStep(db: Store.Db, s: Schedule, render: Render, net: string -> Notifications.Transport, now: Time)
    returns (sent: nat)
    modifies db`users, db`notifications, db`notificationHistory
    ensures TokensPruned(old(db.users), db.users)
    ensures Grows(old(db.notificationHistory), db.notificationHistory)
    ensures |db.notificationHistory| == |old(db.notificationHistory)| + sent
    ensures forall k :: k in db.notificationHistory && k !in old(db.notificationHistory) ==>
      IsStayRow(db.notificationHistory[k], s.id)
    ensures StayPending(s, old(db.notificationHistory), db.locationHistory, old(db.users).Keys, now) ==>
      sent > 0 && HasStayRow(db.notificationHistory, s.id)
    ensures !StayPending(s, old(db.notificationHistory), db.locationHistory, old(db.users).Keys, now) ==>
      sent == 0 && db.notificationHistory == old(db.notificationHistory)
  {
    if s.status != Arrived || s.arrivedAt.None? {
      return 0;
    }
    var minutes := StayMinutes(s.arrivedAt.value, now);
    if minutes < s.notifyAfterMinutes || s.endTime < now {
      return 0;
    }
    var existing := KeysWhere(db.notificationHistory, r => IsStayRow(r, s.id));
    if existing != {} {
      var k :| k in existing;
      assert IsStayRow(db.notificationHistory[k], s.id);
      return 0;
    }
    assert !HasStayRow(db.notificationHistory, s.id) by {
      forall k | k in db.notificationHistory
        ensures !IsStayRow(db.notificationHistory[k], s.id)
      {
        assert k !in existing;
      }
    }
    var latest := Locations.GetLatestLocation(db, s.userId);
    if latest.None? {
      return 0;
    }
    assert HasSample(db.locationHistory, s.userId);
    sent := StaySend(db, s, latest.value.coords, render, net, now);
  }

  /** The rows a dispatch wrote are the letter's rows, and one was written for each recipient reached. */
  lemma {:induction false} LoggedRows(h: map<string, HistoryRow>, h1: map<string, HistoryRow>, ids: seq<string>, tos: seq<string>, l: Letter)
    requires Logged(h, h1, ids, tos, l)
    ensures Grows(h, h1)
    ensures |h1| == |h| + |ids| && |ids| == |tos|
    ensures forall k :: k in h1 && k !in h ==> h1[k].scheduleId == l.scheduleId && h1[k].kind == l.kind
    ensures forall i :: 0 <= i < |ids| ==> ids[i] in h1 && ids[i] !in h && h1[ids[i]].scheduleId == l.scheduleId && h1[ids[i]].kind == l.kind
  {
    AddRowsSpec(h, ids, tos, l);
    forall k | k in h1 && k !in h
      ensures h1[k].scheduleId == l.scheduleId && h1[k].kind == l.kind
    {
      var i :| 0 <= i < |ids| && ids[i] == k;
    }
  }

  /** The stay dispatch of a due schedule, as the sweep makes it. */
  method StaySend(db: Store.Db, s: Schedule, cur: Coords, render: Render, net: string -> Notifications.Transport, now: Time)
    returns (sent: nat)
    requires StayDue(s, now)
    modifies db`users, db`notifications, db`notificationHistory
    ensures TokensPruned(old(db.users), db.users)
    ensures Grows(old(db.notificationHistory), db.notificationHistory)
    ensures |db.notificationHistory| == |old(db.notificationHistory)| + sent
    ensures forall k :: k in db.notificationHistory && k !in old(db.notificationHistory) ==>
      IsStayRow(db.notificationHistory[k], s.id)
    ensures s.userId in old(db.users) && Delivered(s.notifyTo, old(db.users).Keys) != [] ==>
      sent > 0 && HasStayRow(db.notificationHistory, s.id)
    ensures !(s.userId in old(db.users) && Delivered(s.notifyTo, old(db.users).Keys) != []) ==>
      sent == 0 && db.notificationHistory == old(db.notificationHistory)
  {
    ghost var h, u := db.notificationHistory, db.users;
    var ids := SendStayNotification(db, s, cur, render, net, now);
    sent := |ids|;
    if s.userId in u {
      var name := SenderName(u[s.userId]);
      var message := StayMessage(name, s.destinationName, StayMinutes(s.arrivedAt.value, now));
      var l := Letter(s.userId, s.id, STAY_KIND, message, MapLink(render, cur), now);
      LoggedRows(h, db.notificationHistory, ids, Delivered(s.notifyTo, u.Keys), l);
      if Delivered(s.notifyTo, u.Keys) != [] {
        assert ids[0] in db.notificationHistory;
        assert IsStayRow(db.notificationHistory[ids[0]], s.id);
      } else {
        assert db.notificationHistory.Keys == h.Keys;
      }
    }
  }

  /** One pass of the sweep: schedule `id` is checked and, when pending, sent its stay notice. */
  method StayNext(db: Store.Db, id: string, render: Render, net: string -> Notifications.Transport, now: Time,
                  ghost h0: map<string, HistoryRow>, ghost u0: map<string, User>, ghost arrived: set<string>,
                  todo: set<string>, total: nat)
    returns (todo': set<string>, total': nat)
    requires Schedules.Keyed(db.schedules) && id in todo && todo <= arrived && arrived <= db.schedules.Keys
    requires TokensPruned(u0, db.users) && |db.notificationHistory| == |h0| + total
    requires SweepInv(h0, db.notificationHistory, db.schedules, db.locationHistory, u0.Keys, arrived, todo, now)
    modifies db`users, db`notifications, db`notificationHistory
    ensures todo' == todo - {id} && todo' <= arrived
    ensures TokensPruned(u0, db.users) && |db.notificationHistory| == |h0| + total'
    ensures SweepInv(h0, db.notificationHistory, db.schedules, db.locationHistory, u0.Keys, arrived, todo', now)
  {
    var s := db.schedules[id];
    ghost var hb, ub := db.notificationHistory, db.users;
    var sent := StayStep(db, s, render, net, now);
    TokensPrunedTrans(u0, ub, db.users);
    SweepStep(h0, hb, db.notificationHistory, db.schedules, db.locationHistory, u0.Keys, arrived, todo, id, now);
    todo', total' := todo - {id}, total + sent;
  }

  /**
   * `check_and_send_stay_notifications`: every ARRIVED schedule in turn
   * (in the store's order, left open). `total` is the number of history
   * rows written; each is a `stay` row of a schedule that was pending when
   * the sweep began; afterwards no schedule is pending, so an immediate
   * re-run sends nothing.
   */
  method CheckAndSendStayNotifications(db: Store.Db, render: Render, net: string -> Notifications.Transport, now: Time)
    returns (total: nat)
    requires Schedules.Keyed(db.schedules)
    modifies db`users, db`notifications, db`notificationHistory
    ensures TokensPruned(old(db.users), db.users)
    ensures Grows(old(db.notificationHistory), db.notificationHistory)
    ensures |db.notificationHistory| == |old(db.notificationHistory)| + total
    ensures forall k :: k in db.notificationHistory && k !in old(db.notificationHistory) ==>
      && db.notificationHistory[k].kind == STAY_KIND
      && db.notificationHistory[k].scheduleId in db.schedules
      && StayPending(db.schedules[db.notificationHistory[k].scheduleId], old(db.notificationHistory),
                     db.locationHistory, old(db.users).Keys, now)
    ensures forall k :: k in db.schedules ==>
      !StayPending(db.schedules[k], db.notificationHistory, db.locationHistory, db.users.Keys, now)
    ensures (forall k :: k in db.schedules ==>
              !StayPending(db.schedules[k], old(db.notificationHistory), db.locationHistory, old(db.users).Keys, now))
            ==> total == 0
  {
    ghost var h0, u0 := db.notificationHistory, db.users;
    var arrived := KeysWhere(db.schedules, (s: Schedule) => s.status == Arrived);
    var todo := arrived;
    total := 0;
    assert arrived <= db.schedules.Keys;
    while todo != {}
      invariant todo <= arrived
      invariant TokensPruned(u0, db.users)
      invariant |db.notificationHistory| == |h0| + total
      invariant SweepInv(h0, db.notificationHistory, db.schedules, db.locationHistory, u0.Keys, arrived, todo, now)
      decreases |todo|
    {
      var id :| id in todo;
      todo, total := StayNext(db, id, render, net, now, h0, u0, arrived, todo, total);
    }
    SweepDone(h0, db.notificationHistory, db.schedules, db.locationHistory, u0.Keys, arrived, now);
  }

  /**
   * The sweep's invariant: old rows kept; every new row is a `stay` row of
   * an already visited schedule that was pending at the start; no visited
   * schedule is pending any more.
   */
  ghost predicate SweepInv(
    h0: map<string, HistoryRow>, h: map<string, HistoryRow>,
    schedules: map<string, Schedule>, locs: map<string, LocationSample>, known: set<string>,
    arrived: set<string>, todo: set<string>, now: Time)
  {
    && Grows(h0, h)
    && (forall k :: k in h && k !in h0 ==>
          && h[k].kind == STAY_KIND
          && h[k].scheduleId in arrived - todo
          && h[k].scheduleId in schedules
          && StayPending(schedules[h[k].scheduleId], h0, locs, known, now))
    && (forall k :: k in arrived - todo ==> k in schedules && !StayPending(schedules[k], h, locs, known, now))
  }

  /** What the finished sweep guarantees. */
  lemma {:induction false} SweepDone(
    h0: map<string, HistoryRow>, h: map<string, HistoryRow>,
    schedules: map<string, Schedule>, locs: map<string, LocationSample>, known: set<string>,
    arrived: set<string>, now: Time)
    requires arrived == KeysWhere(schedules, (s: Schedule) => s.status == Arrived)
    requires SweepInv(h0, h, schedules, locs, known, arrived, {}, now)
    ensures forall k :: k in schedules ==> !StayPending(schedules[k], h, locs, known, now)
    ensures (forall k :: k in schedules ==> !StayPending(schedules[k], h0, locs, known, now)) ==> |h| == |h0|
  {
    forall k | k in schedules
      ensures !StayPending(schedules[k], h, locs, known, now)
    {
      if k !in arrived {
        assert schedules[k].status != Arrived;
      }
    }
    if forall k :: k in schedules ==> !StayPending(schedules[k], h0, locs, known, now) {
      forall k | k in h
        ensures k in h0
      {
      }
      assert h.Keys == h0.Keys;
    }
  }

  /** The invariant of the sweep survives one step (`id` leaves `todo`). */
  lemma {:induction false} SweepStep(
    h0: map<string, HistoryRow>, hb: map<string, HistoryRow>, ha: map<string, HistoryRow>,
    schedules: map<string, Schedule>, locs: map<string, LocationSample>, known: set<string>,
    arrived: set<string>, todo: set<string>, id: string, now: Time)
    requires Schedules.Keyed(schedules) && id in todo && todo <= arrived && arrived <= schedules.Keys
    requires SweepInv(h0, hb, schedules, locs, known, arrived, todo, now)
    requires Grows(hb, ha)
    requires forall k :: k in ha && k !in hb ==> IsStayRow(ha[k], schedules[id].id)
    requires StayPending(schedules[id], hb, locs, known, now) ==> HasStayRow(ha, schedules[id].id)
    requires !StayPending(schedules[id], hb, locs, known, now) ==> ha == hb
    ensures SweepInv(h0, ha, schedules, locs, known, arrived, todo - {id}, now)
  {
    assert schedules[id].id == id;
    forall k | k in h0
      ensures k in ha && ha[k] == h0[k]
    {
    }
    forall k | k in ha && k !in h0
      ensures ha[k].kind == STAY_KIND
      ensures ha[k].scheduleId in arrived - (todo - {id})
      ensures ha[k].scheduleId in schedules
      ensures StayPending(schedules[ha[k].scheduleId], h0, locs, known, now)
    {
      if k !in hb {
        assert IsStayRow(ha[k], id);
        assert StayPending(schedules[id], hb, locs, known, now);
        if HasStayRow(h0, id) {
          HasStayRowGrows(h0, hb, id);
        }
      }
    }
    forall k | k in arrived - (todo - {id})
      ensures k in schedules && !StayPending(schedules[k], ha, locs, known, now)
    {
      if k != id && HasStayRow(hb, schedules[k].id) {
        HasStayRowGrows(hb, ha, schedules[k].id);
      }
    }
  }

  /** Two sweeps at the same instant: the second sends nothing. */
  method StaySweepTwice(db: Store.Db, render: Render, net: string -> Notifications.Transport, now: Time)
    returns (first: nat, second: nat)
    requires Schedules.Keyed(db.schedules)
    modifies db`users, db`notifications, db`notificationHistory
    ensures second == 0
  {
    first := CheckAndSendStayNotifications(db, render, net, now);
    second := CheckAndSendStayNotifications(db, render, net, now);
  }

  /** `cleanup_old_notification_history`: deletes exactly the expired rows and counts them. */
  method CleanupOldNotificationHistory(db: Store.Db, now: Time) returns (count: nat)
    modifies db`notificationHistory
    ensures db.notificationHistory == Without(old(db.notificationHistory), r => RowExpired(r, now))
    ensures count == |KeysWhere(old(db.notificationHistory), r => RowExpired(r, now))|
  {
    var kept, n := DeleteWhere(db.notificationHistory, r => RowExpired(r, now));
    db.notificationHistory := kept;
    count := n;
  }
}
