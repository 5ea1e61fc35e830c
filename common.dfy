/**
 * Shared vocabulary of the model: optional values and errors, instants and
 * durations, coordinates, decimal rendering of numbers, fresh document ids
 * and the sort used by every query that the service orders in memory.
 */
module Common {

  datatype Option<T> = None | Some(value: T)

  /** The `ValueError`s the services raise, one constructor per distinct cause. */
  datatype Error =
    | NotFound          // the addressed document does not exist
    | Forbidden         // the caller does not own / is not the addressee of the document
    | InvalidTimeWindow // start_time >= end_time
    | InvalidDuration   // pop duration outside {15, 30, 45, 60}
    | SelfRequest       // a request addressed to oneself
    | UserNotFound      // the target user does not exist
    | AlreadyFriends
    | DuplicateRequest  // a PENDING request for the same pair already exists
    | AlreadyProcessed  // the request / reaction is no longer PENDING
    | NotFriends
    | AlreadyVisible    // location already shared
    | AlreadyRevoked    // location sharing already off
    | OwnPop            // reacting to one's own pop
    | DuplicateReaction
    | MissingAttribute  // Python's AttributeError: a field the pydantic model does not declare is read

  datatype Result<T> = Ok(value: T) | Err(error: Error)

  datatype Outcome = Pass | Fail(error: Error)

  /** An instant, in whole seconds since the Unix epoch (UTC). */
  type Time = int

  const MINUTE: int := 60
  const HOUR: int := 60 * MINUTE
  /** The 24-hour retention window used by every TTL in the system. */
  const RETENTION_HOURS: int := 24
  const RETENTION: int := RETENTION_HOURS * HOUR

  /** A WGS84 position as the API receives it. */
  datatype Coords = Coords(lat: real, lng: real)

  predicate ValidCoords(c: Coords) {
    -90.0 <= c.lat <= 90.0 && -180.0 <= c.lng <= 180.0
  }

  /**
   * Python's `int(x / y)` on a non-negative divisor: division that truncates
   * toward zero (unlike Dafny's Euclidean `/` on negative dividends).
   */
  function TruncDiv(a: int, b: int): (q: int)
    requires b > 0
    ensures 0 <= a ==> 0 <= q && q * b <= a < q * b + b
    ensures a < 0 ==> q <= 0 && q * b - b < a <= q * b
  {
    if a >= 0 then a / b else -((-a) / b)
  }

  // ---------------------------------------------------------------------
  // Decimal rendering of naturals (Python's `str(int)` / f-string `{n}`)
  // ---------------------------------------------------------------------

  predicate IsDigit(c: char) {
    '0' <= c <= '9'
  }

  predicate AllDigits(s: string) {
    forall i :: 0 <= i < |s| ==> IsDigit(s[i])
  }

  function DigitChar(d: nat): (c: char)
    requires d < 10
    ensures IsDigit(c) && (c as int) - ('0' as int) == d
  {
    "0123456789"[d]
  }

  function NatToString(n: nat): (s: string)
    ensures 1 <= |s| && AllDigits(s)
    ensures n >= 10 ==> s[0] != '0'
  {
    if n < 10 then [DigitChar(n)] else NatToString(n / 10) + [DigitChar(n % 10)]
  }

  /** The value of a string of decimal digits. */
  function DigitsValue(s: string): nat
    requires AllDigits(s)
  {
    if s == [] then 0
    else DigitsValue(s[..|s| - 1]) * 10 + ((s[|s| - 1] as int) - ('0' as int))
  }

  lemma {:induction false} NatToStringRoundTrip(n: nat)
    ensures DigitsValue(NatToString(n)) == n
  {
    if n >= 10 {
      var s := NatToString(n);
      assert s[..|s| - 1] == NatToString(n / 10);
      NatToStringRoundTrip(n / 10);
    }
  }

  /** Length of the longest all-digit prefix of `s`. */
  function DigitPrefix(s: string): (k: nat)
    ensures k <= |s| && AllDigits(s[..k])
    ensures k < |s| ==> !IsDigit(s[k])
  {
    if s == [] || !IsDigit(s[0]) then 0
    else
      var k := 1 + DigitPrefix(s[1..]);
      assert s[..k] == [s[0]] + s[1..][..k - 1];
      k
  }

  /** Reads the leading decimal number of `s` (if any) and returns it with the rest of `s`. */
  function ParseLeadingNat(s: string): Option<(nat, string)>
  {
    var k := DigitPrefix(s);
    if k == 0 then None else Some((DigitsValue(s[..k]), s[k..]))
  }

  lemma {:induction false} DigitPrefixOfDigits(d: string, rest: string)
    requires AllDigits(d)
    requires rest == [] || !IsDigit(rest[0])
    ensures DigitPrefix(d + rest) == |d|
  {
    if d != [] {
      assert (d + rest)[1..] == d[1..] + rest;
      DigitPrefixOfDigits(d[1..], rest);
    }
  }

  /** A rendered number followed by text that does not start with a digit reads back unchanged. */
  lemma ParseRenderedNat(n: nat, rest: string)
    requires rest == [] || !IsDigit(rest[0])
    ensures ParseLeadingNat(NatToString(n) + rest) == Some((n, rest))
  {
    var d := NatToString(n);
    DigitPrefixOfDigits(d, rest);
    assert (d + rest)[..|d|] == d;
    assert (d + rest)[|d|..] == rest;
    NatToStringRoundTrip(n);
  }

  /** Two-digit zero-padded rendering, as `strftime("%H")` / `"%M"` print. */
  function Pad2(n: nat): (s: string)
    requires n < 100
    ensures |s| == 2 && AllDigits(s) && DigitsValue(s) == n
  {
    var s := [DigitChar(n / 10), DigitChar(n % 10)];
    assert s[..1][..0] == [];
    assert DigitsValue(s[..1]) == n / 10;
    s
  }

  // ---------------------------------------------------------------------
  // Fresh document ids (uuid4 / Firestore auto-ids)
  // ---------------------------------------------------------------------

  /**
   * Chooses an id outside `used`; stands for `uuid4()` and for Firestore's
   * `document()` auto-id, which the services assume never collide with an
   * id already in use.
   */
  method FreshKey(used: set<string>) returns (k: string)
    ensures k !in used
  {
    var longest: nat := 0;
    var rest := used;
    while rest != {}
      invariant rest <= used
      invariant forall x :: x in used - rest ==> |x| <= longest
      decreases rest
    {
      var x :| x in rest;
      if |x| > longest {
        longest := |x|;
      }
      rest := rest - {x};
    }
    k := seq(longest + 1, _ => '#');
    assert forall x :: x in used ==> |x| < |k|;
  }

  /** Concatenation regroups freely. */
  lemma {:induction false} ConcatAssoc<T>(x: seq<T>, y: seq<T>, z: seq<T>)
    ensures x + (y + z) == (x + y) + z
  {
    forall i | 0 <= i < |x| + |y| + |z|
      ensures (x + (y + z))[i] == ((x + y) + z)[i]
    {
    }
  }

  // ---------------------------------------------------------------------
  // Write batches
  // ---------------------------------------------------------------------

  /** The most writes one Firestore batch may hold, also used as a query limit. */
  const BATCH_SIZE: nat := 500

  /** The total of the committed batch sizes. */
  function Sum(xs: seq<nat>): nat {
    if xs == [] then 0 else Sum(xs[..|xs| - 1]) + xs[|xs| - 1]
  }

  /** Appending one batch adds its size to the total. */
  lemma SumSnoc(xs: seq<nat>, x: nat)
    ensures Sum(xs + [x]) == Sum(xs) + x
  {
    assert (xs + [x])[..|xs|] == xs;
  }

  // ---------------------------------------------------------------------
  // Collection queries (`where(...).stream()` and the loops over it)
  // ---------------------------------------------------------------------

  /** The ids of the documents of a collection that a query's filter matches. */
  function KeysWhere<V>(m: map<string, V>, p: V -> bool): set<string> {
    set k | k in m && p(m[k])
  }

  /** Different documents of the collection hold different values (as when each stores its own id). */
  predicate Injective<V(==)>(m: map<string, V>) {
    forall k1, k2 :: k1 in m && k2 in m && m[k1] == m[k2] ==> k1 == k2
  }

  /** No element occurs twice. */
  predicate Distinct<T(==)>(s: seq<T>) {
    forall i, j :: 0 <= i < j < |s| ==> s[i] != s[j]
  }

  /**
   * A repeat-free list holding exactly the matching documents of a
   * collection whose documents differ has one entry per matching key.
   */
  lemma {:induction false} DistinctListingSize<V>(m: map<string, V>, p: V -> bool, s: seq<V>)
    requires Injective(m) && Distinct(s)
    requires forall x :: x in s <==> x in m.Values && p(x)
    ensures |s| == |KeysWhere(m, p)|
    decreases |s|
  {
    if s == [] {
      forall k | k in m
        ensures !p(m[k])
      {
        assert m[k] in m.Values && m[k] !in s;
      }
      assert KeysWhere(m, p) == {};
    } else {
      var x := s[|s| - 1];
      var init := s[..|s| - 1];
      assert x in s;
      var k :| k in m && m[k] == x;
      var m' := m - {k};
      forall y
        ensures y in init <==> y in m'.Values && p(y)
      {
        if y in init {
          var i :| 0 <= i < |init| && init[i] == y;
          assert s[i] == y && y != x;
          assert y in s;
          var j :| j in m && m[j] == y;
          assert j in m' && m'[j] == y;
        }
        if y in m'.Values && p(y) {
          var j :| j in m' && m'[j] == y;
          assert y in m.Values && y in s;
          var i :| 0 <= i < |s| && s[i] == y;
          assert i != |s| - 1;
          assert init[i] == y;
        }
      }
      assert Distinct(init);
      DistinctListingSize(m', p, init);
      assert KeysWhere(m, p) == KeysWhere(m', p) + {k};
    }
  }

  /** The collection after every matching document has been deleted. */
  function Without<V>(m: map<string, V>, p: V -> bool): (r: map<string, V>)
    ensures r.Keys == m.Keys - KeysWhere(m, p)
    ensures forall k :: k in r ==> r[k] == m[k] && !p(m[k])
  {
    map k | k in m && !p(m[k]) :: m[k]
  }

  /**
   * The state of the stream after the keys outside `rest` have been read:
   * `done` are the matching ones, `r` holds their documents once each,
   * in the order of `ks`.
   */
  ghost predicate Streamed<V>(m: map<string, V>, p: V -> bool, rest: set<string>, done: set<string>, r: seq<V>, ks: seq<string>) {
    && rest <= m.Keys
    && (forall k :: k in done <==> k in m && k !in rest && p(m[k]))
    && |r| == |done|
    && (forall k :: k in done ==> m[k] in r)
    && |ks| == |r|
    && (forall i :: 0 <= i < |r| ==> ks[i] in done && ks[i] in m && r[i] == m[ks[i]])
    && (Injective(m) ==> Distinct(r))
  }

  /** One step of the stream: the document under `k` is emitted when it matches. */
  method StreamOne<V(==)>(m: map<string, V>, p: V -> bool, k: string, r: seq<V>,
                          ghost rest: set<string>, ghost done: set<string>, ghost ks: seq<string>)
    returns (r': seq<V>, ghost done': set<string>, ghost ks': seq<string>)
    requires k in rest && Streamed(m, p, rest, done, r, ks)
    ensures Streamed(m, p, rest - {k}, done', r', ks')
  {
    r', done', ks' := r, done, ks;
    if p(m[k]) {
      if Injective(m) {
        FreshValue(m, r, ks, done, k);
      }
      r' := r + [m[k]];
      ks' := ks + [k];
      done' := done + {k};
    }
  }

  /** Once every key has been read, the stream holds exactly the matching documents. */
  lemma StreamDone<V>(m: map<string, V>, p: V -> bool, done: set<string>, r: seq<V>, ks: seq<string>)
    requires Streamed(m, p, {}, done, r, ks)
    ensures forall x :: x in r ==> x in m.Values && p(x)
    ensures forall k :: k in m && p(m[k]) ==> m[k] in r
    ensures |r| == |KeysWhere(m, p)|
  {
    assert done == KeysWhere(m, p);
    forall x | x in r
      ensures x in m.Values && p(x)
    {
      var i :| 0 <= i < |r| && r[i] == x;
      assert ks[i] in done;
    }
  }

  /**
   * Streams the documents a filter matches, in the store's (unspecified)
   * order: every matching document exactly once.
   */
  method Select<V(==)>(m: map<string, V>, p: V -> bool) returns (r: seq<V>)
    ensures forall x :: x in r ==> x in m.Values && p(x)
    ensures forall k :: k in m && p(m[k]) ==> m[k] in r
    ensures |r| == |KeysWhere(m, p)|
    ensures Injective(m) ==> Distinct(r)
  {
    r := [];
    var rest := m.Keys;
    ghost var done: set<string> := {};
    ghost var ks: seq<string> := [];
    while rest != {}
      invariant Streamed(m, p, rest, done, r, ks)
      decreases rest
    {
      var k :| k in rest;
      r, done, ks := StreamOne(m, p, k, r, rest, done, ks);
      rest := rest - {k};
    }
    StreamDone(m, p, done, r, ks);
  }

  /** In a collection of distinct documents, the document of a key not yet streamed is not among those streamed. */
  lemma FreshValue<V>(m: map<string, V>, r: seq<V>, ks: seq<string>, done: set<string>, k: string)
    requires Injective(m) && k in m && k !in done
    requires |ks| == |r| && forall i :: 0 <= i < |r| ==> ks[i] in done && ks[i] in m && r[i] == m[ks[i]]
    ensures m[k] !in r
  {
    forall i | 0 <= i < |r|
      ensures r[i] != m[k]
    {
      assert ks[i] != k;
    }
  }

  /**
   * A query whose results the service then sorts in memory: every matching
   * document, ordered by `key` (descending when `desc`).
   */
  method SelectSorted<V(==)>(m: map<string, V>, p: V -> bool, key: V -> real, desc: bool) returns (r: seq<V>)
    ensures forall x :: x in r <==> x in m.Values && p(x)
    ensures |r| == |KeysWhere(m, p)|
    ensures SortedBy(r, key, desc)
    ensures Injective(m) ==> Distinct(r)
  {
    var found := Select(m, p);
    r := SortBy(found, key, desc);
    SortBySorted(found, key, desc);
    if Injective(m) {
      SortByDistinct(found, key, desc);
    }
    forall x
      ensures x in r <==> x in found
    {
      SortByMembers(found, key, desc, x);
    }
    forall x | x in m.Values && p(x)
      ensures x in found
    {
      var k :| k in m && m[k] == x;
    }
  }

  /**
   * Deletes, one document at a time, every document a filter matches and
   * counts the deletions.
   */
  method DeleteWhere<V>(m: map<string, V>, p: V -> bool) returns (r: map<string, V>, count: nat)
    ensures r == Without(m, p)
    ensures count == |KeysWhere(m, p)|
  {
    r := m;
    count := 0;
    var rest := m.Keys;
    ghost var done: set<string> := {};
    while rest != {}
      invariant rest <= m.Keys
      invariant forall k :: k in done <==> k in m && k !in rest && p(m[k])
      invariant count == |done|
      invariant r.Keys == m.Keys - done
      invariant forall k :: k in r ==> r[k] == m[k]
      decreases rest
    {
      var k :| k in rest;
      if p(m[k]) {
        r := r - {k};
        count := count + 1;
        done := done + {k};
      }
      rest := rest - {k};
    }
    assert done == KeysWhere(m, p);
  }

  /**
   * Counting the matches of a filter: the deleted documents plus the kept
   * ones make up the whole collection.
   */
  lemma WithoutSize<V>(m: map<string, V>, p: V -> bool)
    ensures |Without(m, p).Keys| + |KeysWhere(m, p)| == |m.Keys|
  {
    var w := Without(m, p).Keys;
    var d := KeysWhere(m, p);
    assert w * d == {};
    assert w + d == m.Keys;
  }

  // ---------------------------------------------------------------------
  // In-memory ordering (`list.sort(key=..., reverse=...)`, `order_by`)
  // ---------------------------------------------------------------------

  /** `a` may stand before `b` in a list ordered by `key`, descending when `desc`. */
  predicate Before<T>(key: T -> real, desc: bool, a: T, b: T) {
    if desc then key(a) >= key(b) else key(a) <= key(b)
  }

  predicate SortedBy<T>(s: seq<T>, key: T -> real, desc: bool) {
    forall i, j :: 0 <= i < j < |s| ==> Before(key, desc, s[i], s[j])
  }

  function InsertBy<T>(x: T, s: seq<T>, key: T -> real, desc: bool): (r: seq<T>)
    ensures multiset(r) == multiset(s) + multiset{x}
    ensures |r| == |s| + 1
  {
    if s == [] then [x]
    else if Before(key, desc, x, s[0]) then [x] + s
    else
      assert s == [s[0]] + s[1..];
      [s[0]] + InsertBy(x, s[1..], key, desc)
  }

  /** Insertion sort: the model of Python's `sort` and of a query's `order_by`. */
  function SortBy<T>(s: seq<T>, key: T -> real, desc: bool): (r: seq<T>)
    ensures multiset(r) == multiset(s)
    ensures |r| == |s|
  {
    if s == [] then []
    else
      assert s == [s[0]] + s[1..];
      InsertBy(s[0], SortBy(s[1..], key, desc), key, desc)
  }

  lemma {:induction false} InsertBySorted<T>(x: T, s: seq<T>, key: T -> real, desc: bool)
    requires SortedBy(s, key, desc)
    ensures SortedBy(InsertBy(x, s, key, desc), key, desc)
  {
    if s != [] && !Before(key, desc, x, s[0]) {
      InsertBySorted(x, s[1..], key, desc);
      var r := InsertBy(x, s, key, desc);
      var t := InsertBy(x, s[1..], key, desc);
      assert r == [s[0]] + t;
      forall j | 0 < j < |r|
        ensures Before(key, desc, s[0], r[j])
      {
        assert r[j] in multiset(t);
        assert r[j] in multiset(s[1..]) + multiset{x};
        if r[j] in multiset(s[1..]) {
          var k :| 0 <= k < |s[1..]| && s[1..][k] == r[j];
          assert s[k + 1] == r[j];
        }
      }
    }
  }

  lemma {:induction false} SortBySorted<T>(s: seq<T>, key: T -> real, desc: bool)
    ensures SortedBy(SortBy(s, key, desc), key, desc)
  {
    if s != [] {
      SortBySorted(s[1..], key, desc);
      InsertBySorted(s[0], SortBy(s[1..], key, desc), key, desc);
    }
  }

  /** Inserting an element not yet present keeps a list free of repeats. */
  lemma {:induction false} InsertByDistinct<T>(x: T, s: seq<T>, key: T -> real, desc: bool)
    requires Distinct(s) && x !in s
    ensures Distinct(InsertBy(x, s, key, desc))
  {
    if s != [] && !Before(key, desc, x, s[0]) {
      var t := InsertBy(x, s[1..], key, desc);
      InsertByDistinct(x, s[1..], key, desc);
      assert s[0] !in s[1..];
      assert s[0] !in t by {
        assert s[0] !in multiset(s[1..]) + multiset{x};
      }
      assert InsertBy(x, s, key, desc) == [s[0]] + t;
    }
  }

  /** Sorting a list free of repeats gives a list free of repeats. */
  lemma {:induction false} SortByDistinct<T>(s: seq<T>, key: T -> real, desc: bool)
    requires Distinct(s)
    ensures Distinct(SortBy(s, key, desc))
  {
    if s != [] {
      SortByDistinct(s[1..], key, desc);
      var t := SortBy(s[1..], key, desc);
      assert s[0] !in s[1..];
      assert s[0] !in t by {
        assert s[0] !in multiset(s[1..]);
      }
      InsertByDistinct(s[0], t, key, desc);
    }
  }

  /** Sorting keeps exactly the elements it was given, each as often. */
  lemma SortByMembers<T>(s: seq<T>, key: T -> real, desc: bool, x: T)
    ensures x in SortBy(s, key, desc) <==> x in s
  {
    var r := SortBy(s, key, desc);
    assert x in r <==> x in multiset(r);
    assert x in s <==> x in multiset(s);
  }

  /** The first `n` elements (all of them when there are fewer): a query's `.limit(n)`. */
  function Take<T>(s: seq<T>, n: nat): (r: seq<T>)
    ensures |r| <= n && |r| <= |s|
    ensures |r| == if n < |s| then n else |s|
    ensures r == s[..|r|]
  {
    if n < |s| then s[..n] else s
  }
}
