/**
 * The user service (`UserService`): username availability, the username
 * search, lookup by uid and profile updates over the `users` collection.
 */
module Users {
  import opened Common
  import opened UserSchema
  import Store

  // ---------------------------------------------------------------------
  // Text helpers for the search (`str.strip()` and `str.lower()`)
  // ---------------------------------------------------------------------

  /**
   * The characters `str.strip()` removes when called without arguments:
   * the ASCII controls \t \n \v \f \r and U+001C..U+001F, the space, and
   * Unicode's other white space (U+0085, U+00A0, U+1680, U+2000..U+200A,
   * U+2028, U+2029, U+202F, U+205F and the ideographic space U+3000).
   */
  predicate IsSpace(c: char) {
    || c == ' ' || ('\t' <= c <= '\r') || ('\U{001C}' <= c <= '\U{001F}')
    || c == '\U{0085}' || c == '\U{00A0}' || c == '\U{1680}' || ('\U{2000}' <= c <= '\U{200A}')
    || c == '\U{2028}' || c == '\U{2029}' || c == '\U{202F}' || c == '\U{205F}' || c == '\U{3000}'
  }

  /**
   * The capitals whose `str.lower()` mapping is modelled: ASCII, Latin-1
   * (U+00C0..U+00DE except the multiplication sign), basic Cyrillic
   * (U+0400..U+042F) and the full-width Latin capitals U+FF21..U+FF3A.
   */
  predicate IsUpper(c: char) {
    || ('A' <= c <= 'Z')
    || ('\U{00C0}' <= c <= '\U{00DE}' && c != '\U{00D7}')
    || ('\U{0400}' <= c <= '\U{042F}')
    || ('\U{FF21}' <= c <= '\U{FF3A}')
  }

  /** The lower-case form of one character: each modelled capital maps to its small letter, anything else to itself. */
  function LowerChar(c: char): (d: char)
    ensures !IsUpper(d)
    ensures !IsUpper(c) ==> d == c
    ensures IsUpper(c) ==> d != c
  {
    if '\U{0400}' <= c <= '\U{040F}' then (c as int + 80) as char
    else if IsUpper(c) then (c as int + 32) as char
    else c
  }

  /** `str.lower()`, character by character, on the modelled capitals. */
  function Lower(s: string): (r: string)
    ensures |r| == |s|
    ensures forall i :: 0 <= i < |s| ==> r[i] == LowerChar(s[i])
  {
    seq(|s|, i requires 0 <= i < |s| => LowerChar(s[i]))
  }

  lemma LowerIdempotent(s: string)
    ensures Lower(Lower(s)) == Lower(s)
  {
  }

  /** Index of the first non-space character (|s| if none). */
  function FirstNonSpace(s: string): (i: nat)
    ensures i <= |s|
    ensures forall j :: 0 <= j < i ==> IsSpace(s[j])
    ensures i < |s| ==> !IsSpace(s[i])
  {
    if s == [] || !IsSpace(s[0]) then 0 else 1 + FirstNonSpace(s[1..])
  }

  /** One past the last non-space character (0 if none). */
  function EndNonSpace(s: string): (e: nat)
    ensures e <= |s|
    ensures forall j :: e <= j < |s| ==> IsSpace(s[j])
    ensures e > 0 ==> !IsSpace(s[e - 1])
  {
    if s == [] || !IsSpace(s[|s| - 1]) then |s| else EndNonSpace(s[..|s| - 1])
  }

  /** `str.strip()`: the slice between the leading and the trailing white space. */
  function Strip(s: string): (r: string)
    ensures r == [] <==> forall j :: 0 <= j < |s| ==> IsSpace(s[j])
    ensures r != [] ==> !IsSpace(r[0]) && !IsSpace(r[|r| - 1])
    ensures exists i, e :: 0 <= i <= e <= |s| && r == s[i..e]
    ensures r != [] ==> r == s[FirstNonSpace(s)..EndNonSpace(s)]
  {
    var i := FirstNonSpace(s);
    var e := EndNonSpace(s);
    if i < e then s[i..e] else s[0..0]
  }

  /** `q` occurs in `s` starting at index `i`. */
  predicate OccursAt(s: string, q: string, i: int) {
    0 <= i <= |s| - |q| && s[i..i + |q|] == q
  }

  /** Python's `q in s` on strings: `q` occurs in `s` as a contiguous piece. */
  function Contains(s: string, q: string): (b: bool)
    ensures b <==> exists i :: OccursAt(s, q, i)
    decreases |s|
  {
    if |q| > |s| then false
    else if s[..|q|] == q then
      assert OccursAt(s, q, 0);
      true
    else
      var b := Contains(s[1..], q);
      assert b ==> exists i :: OccursAt(s, q, i) by {
        if b {
          var i :| OccursAt(s[1..], q, i);
          assert s[i + 1..i + 1 + |q|] == s[1..][i..i + |q|];
          assert OccursAt(s, q, i + 1);
        }
      }
      assert (exists i :: OccursAt(s, q, i)) ==> b by {
        if exists i :: OccursAt(s, q, i) {
          var i :| OccursAt(s, q, i);
          assert i != 0;
          assert s[1..][i - 1..i - 1 + |q|] == s[i..i + |q|];
          assert OccursAt(s[1..], q, i - 1);
        }
      }
      b
  }

  // ---------------------------------------------------------------------
  // Search
  // ---------------------------------------------------------------------

  /** The number of users `search_users` reads (`limit(100)`). */
  const SEARCH_SCAN_LIMIT: nat := 100

  /** A scanned user the search reports: not the caller, with a username containing the query. */
  predicate SearchHit(u: User, self: string, q: string) {
    u.uid != self && u.username.Some? && Contains(Lower(u.username.value), q)
  }

  /** The hits among the scanned users, in scan order: the reference the search is checked against. */
  function Hits(users: seq<User>, self: string, q: string): (r: seq<User>)
    ensures |r| <= |users|
    ensures forall u :: u in r <==> u in users && SearchHit(u, self, q)
  {
    if users == [] then []
    else (if SearchHit(users[0], self, q) then [users[0]] else []) + Hits(users[1..], self, q)
  }

  lemma {:induction false} HitsAppend(users: seq<User>, u: User, self: string, q: string)
    ensures Hits(users + [u], self, q) == Hits(users, self, q) + (if SearchHit(u, self, q) then [u] else [])
  {
    var t := if SearchHit(u, self, q) then [u] else [];
    if users == [] {
      assert [u][1..] == [];
      assert Hits([u], self, q) == t + Hits([], self, q);
    } else {
      var h := if SearchHit(users[0], self, q) then [users[0]] else [];
      assert (users + [u])[0] == users[0];
      assert (users + [u])[1..] == users[1..] + [u];
      calc {
        Hits(users + [u], self, q);
        h + Hits(users[1..] + [u], self, q);
        { HitsAppend(users[1..], u, self, q); }
        h + (Hits(users[1..], self, q) + t);
        (h + Hits(users[1..], self, q)) + t;
        Hits(users, self, q) + t;
      }
    }
  }

  /** `collection("users").limit(100).get()`: the first 100 users in the store's listing order. */
  method ListUsers(db: Store.Db) returns (listed: seq<User>)
    ensures forall u :: u in listed ==> u in db.users.Values
    ensures |listed| == if |db.users| < SEARCH_SCAN_LIMIT then |db.users| else SEARCH_SCAN_LIMIT
  {
    var all := Select(db.users, (u: User) => true);
    assert KeysWhere(db.users, (u: User) => true) == db.users.Keys;
    listed := Take(all, SEARCH_SCAN_LIMIT);
    forall u | u in listed
      ensures u in db.users.Values
    {
      var j :| 0 <= j < |listed| && listed[j] == u;
      assert all[j] == u;
    }
  }

  /**
   * The loop of `search_users` over the listed users: the caller is
   * skipped (before the limit check), hits are appended, and the loop
   * stops once `limit` results are collected.
   */
  method ScanForHits(listed: seq<User>, self: string, q: string, limit: int) returns (r: seq<User>)
    ensures forall u :: u in r ==> u in listed && SearchHit(u, self, q)
    ensures limit >= 1 ==> r == Take(Hits(listed, self, q), limit)
    ensures limit >= 1 ==> |r| <= limit
  {
    r := [];
    var i := 0;
    while i < |listed|
      invariant 0 <= i <= |listed|
      invariant r == Hits(listed[..i], self, q)
      invariant limit >= 1 ==> |r| < limit
    {
      var u := listed[i];
      assert listed[..i + 1] == listed[..i] + [u];
      HitsAppend(listed[..i], u, self, q);
      if u.uid == self {
        i := i + 1;
        continue;
      }
      var matched := if u.username.Some? then Contains(Lower(u.username.value), q) else false;
      if matched {
        r := r + [u];
      }
      i := i + 1;
      if |r| >= limit {
        if limit >= 1 {
          TakeOfLonger(listed, i, self, q, limit);
        }
        assert forall u :: u in r ==> u in listed[..i];
        return;
      }
    }
    assert listed[..i] == listed;
  }

  /**
   * `search_users` as intended: nothing for an empty or blank query;
   * otherwise the first `limit` hits among the first 100 users the store
   * lists, the caller excluded, matching against the stored `username`
   * field. `scanned` is that listing.
   */
  method SearchUsers(db: Store.Db, query: string, self: string, limit: int)
    returns (r: seq<User>, ghost scanned: seq<User>)
    ensures Strip(query) == [] ==> r == []
    ensures forall u :: u in scanned ==> u in db.users.Values
    ensures |scanned| == if |db.users| < SEARCH_SCAN_LIMIT then |db.users| else SEARCH_SCAN_LIMIT
    ensures forall u :: u in r ==> u in scanned && SearchHit(u, self, Lower(Strip(query)))
    ensures Strip(query) != [] && limit >= 1 ==> r == Take(Hits(scanned, self, Lower(Strip(query))), limit)
    ensures limit >= 1 ==> |r| <= limit
  {
    var listed := ListUsers(db);
    scanned := listed;
    if query == [] || |Strip(query)| == 0 {
      return [], scanned;
    }
    r := ScanForHits(listed, self, Lower(Strip(query)), limit);
  }

  /** A query typed with a leading ideographic space (the Japanese input method's space) is stripped to the name itself. */
  lemma StripIdeographicSpace()
    ensures Strip("\U{3000}taro") == "taro"
  {
    var s := "\U{3000}taro";
    assert FirstNonSpace(s[1..]) == 0;
    assert FirstNonSpace(s) == 1;
    assert EndNonSpace(s) == 5;
    assert s[1..5] == "taro";
  }

  /**
   * `search_users` as written: the loop reads `user.username` off a
   * `UserInDB`, a pydantic model that declares no `username` field, so the
   * first scanned user other than the caller raises `AttributeError`
   * (before any hit is appended and before the limit is checked). A blank
   * query, or a scan that holds nobody but the caller, returns no hits.
   */
  method SearchUsersAsWritten(db: Store.Db, query: string, self: string, limit: int)
    returns (r: Result<seq<User>>, ghost scanned: seq<User>)
    ensures forall u :: u in scanned ==> u in db.users.Values
    ensures |scanned| == if |db.users| < SEARCH_SCAN_LIMIT then |db.users| else SEARCH_SCAN_LIMIT
    ensures Strip(query) == [] ==> r == Ok([])
    ensures Strip(query) != [] ==> (r.Err? <==> exists u :: u in scanned && u.uid != self)
    ensures r.Err? ==> r.error == MissingAttribute
    ensures r.Ok? ==> r.value == []
  {
    var listed := ListUsers(db);
    scanned := listed;
    if query == [] || |Strip(query)| == 0 {
      return Ok([]), scanned;
    }
    var i := 0;
    while i < |listed|
      invariant 0 <= i <= |listed|
      invariant forall j :: 0 <= j < i ==> listed[j].uid == self
    {
      if listed[i].uid == self {
        i := i + 1;
        continue;
      }
      return Err(MissingAttribute), scanned;
    }
    r := Ok([]);
  }

  /**
   * The discrepancy: with the caller and one other user `taro` scanned,
   * the query "taro" has a hit, which the intended search returns, while
   * the search as written raises on `taro` before matching it.
   */
  lemma SearchAsWrittenMissesHit(me: User, taro: User)
    requires me.uid == "me" && taro.uid == "taro" && taro.username == Some("taro")
    ensures Hits([me, taro], "me", "taro") == [taro]
    ensures exists u :: u in [me, taro] && u.uid != "me"
  {
    assert "taro"[..4] == "taro";
    assert Lower("taro") == "taro";
    assert SearchHit(taro, "me", "taro");
    assert [me, taro][1..] == [taro];
    assert [taro][1..] == [];
  }

  /** Once the hits of a prefix number `limit`, the first `limit` hits of the whole listing are those. */
  lemma {:induction false} TakeOfLonger(users: seq<User>, i: nat, self: string, q: string, limit: int)
    requires i <= |users| && limit >= 1
    requires |Hits(users[..i], self, q)| == limit
    ensures Take(Hits(users, self, q), limit) == Hits(users[..i], self, q)
  {
    HitsSplit(users[..i], users[i..], self, q);
    assert users[..i] + users[i..] == users;
  }

  lemma {:induction false} HitsSplit(a: seq<User>, b: seq<User>, self: string, q: string)
    ensures Hits(a + b, self, q) == Hits(a, self, q) + Hits(b, self, q)
  {
    if a == [] {
      assert a + b == b;
    } else {
      assert (a + b)[0] == a[0];
      assert (a + b)[1..] == a[1..] + b;
      HitsSplit(a[1..], b, self, q);
    }
  }

  // ---------------------------------------------------------------------
  // Availability, lookup, profile update
  // ---------------------------------------------------------------------

  /** `check_username_availability`: free iff no stored user has exactly that username. */
  method CheckUsernameAvailability(db: Store.Db, username: string) returns (available: bool)
    ensures available <==> forall k :: k in db.users ==> db.users[k].username != Some(username)
  {
    var found := Select(db.users, (u: User) => u.username == Some(username));
    available := |found| == 0;
    if !available {
      assert found[0] in db.users.Values;
    }
  }

  /** `get_user_by_uid`. */
  method GetUserByUid(db: Store.Db, uid: string) returns (r: Option<User>)
    ensures uid in db.users ==> r == Some(db.users[uid])
    ensures uid !in db.users ==> r == None
  {
    if uid in db.users {
      return Some(db.users[uid]);
    }
    r := None;
  }

  /** `update_profile`'s merge: only the supplied fields, plus `updated_at`. */
  function ApplyProfileUpdate(u: User, upd: UserUpdate, now: Time): (r: User)
    ensures r.uid == u.uid && r.username == u.username && r.email == u.email && r.fcmTokens == u.fcmTokens
    ensures r.createdAt == u.createdAt && r.updatedAt == now
    ensures upd.displayName.None? ==> r.displayName == u.displayName
    ensures upd.profileImageUrl.None? ==> r.profileImageUrl == u.profileImageUrl
    ensures upd == UserUpdate(None, None) ==> r == u.(updatedAt := now)
  {
    u.(displayName := if upd.displayName.Some? then upd.displayName.value else u.displayName,
       profileImageUrl := if upd.profileImageUrl.Some? then upd.profileImageUrl else u.profileImageUrl,
       updatedAt := now)
  }

  /**
   * `update_profile` as written: for an existing user it reads
   * `update_data.username`, which the `UserUpdate` model does not declare,
   * so every update of an existing user raises `AttributeError` before any
   * write; a missing user is refused first.
   */
  method UpdateProfileAsWritten(db: Store.Db, uid: string, upd: UserUpdate, now: Time) returns (r: Result<User>)
    ensures r.Err?
    ensures r.error == if uid in db.users then MissingAttribute else UserNotFound
  {
    if uid !in db.users {
      return Err(UserNotFound);
    }
    r := Err(MissingAttribute);
  }

  /**
   * `update_profile` as intended: `UserUpdate` carries no username, so the
   * username-conflict check has nothing to check; a missing user is
   * refused, otherwise the merge is written.
   */
  method UpdateProfile(db: Store.Db, uid: string, upd: UserUpdate, now: Time) returns (r: Result<User>)
    modifies db`users
    ensures uid !in old(db.users) <==> r.Err?
    ensures r.Err? ==> r.error == UserNotFound && db.users == old(db.users)
    ensures r.Ok? ==>
      && r.value == ApplyProfileUpdate(old(db.users)[uid], upd, now)
      && db.users == old(db.users)[uid := r.value]
  {
    if uid !in db.users {
      return Err(UserNotFound);
    }
    var u := ApplyProfileUpdate(db.users[uid], upd, now);
    db.users := db.users[uid := u];
    r := Ok(u);
  }
}
