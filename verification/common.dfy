/** Shared vocabulary of the model: optional values, HTTP replies, JSON request
    values, JavaScript truthiness, and the sequence helpers that stand for the
    query builder's `where(...).first()` and `where(...)` scans. */
module Common {

  datatype Option<T> = None | Some(value: T)

  /** A row identifier. Every id column of the schema is a uuid; a uuid is
      modelled as the 128-bit number Postgres orders uuids by. */
  type Id = nat

  /** Milliseconds since the epoch, as `new Date()` and the database's
      `now()` report them. */
  type Time = int

  /** Milliseconds in a day, `1000 * 60 * 60 * 24`. */
  const DAY_MS: int := 86_400_000

  const OK: int := 200
  const CREATED: int := 201
  const BAD_REQUEST: int := 400
  const UNAUTHORIZED: int := 401
  const FORBIDDEN: int := 403
  const NOT_FOUND: int := 404
  const CONFLICT: int := 409
  const SERVER_ERROR: int := 500

  /** What a route handler sends: `res.status(s).json({message, data})` or
      `res.status(s).json({error})`. */
  datatype Reply<T> =
    | Success(status: int, message: string, data: T)
    | Failure(status: int, error: string)

  /** A JSON value as it arrives in a request body, before validation.
      Numbers are exact rationals (every double is one). */
  datatype Json = JNull | JBool(b: bool) | JNum(n: real) | JStr(s: string) | JArray | JObject

  predicate IsInteger(n: real) {
    n.Floor as real == n
  }

  /** JavaScript truthiness of an optional string: absent, null and "" are falsy. */
  predicate TruthyStr(f: Option<string>) {
    f.Some? && |f.value| > 0
  }

  /** JavaScript truthiness of an optional integer: absent, null and 0 are falsy. */
  predicate TruthyInt(f: Option<int>) {
    f.Some? && f.value != 0
  }

  /** `x || 0` for a nullable number. */
  function OrZero(f: Option<int>): int {
    if f.Some? then f.value else 0
  }

  function LowerChar(c: char): char {
    if 'A' <= c <= 'Z' then (c as int + 32) as char else c
  }

  /** Lower-casing of the ASCII letters; other characters are kept. */
  function ToLower(s: string): (r: string)
    ensures |r| == |s|
    ensures forall i :: 0 <= i < |s| ==> r[i] == LowerChar(s[i])
  {
    seq(|s|, i requires 0 <= i < |s| => LowerChar(s[i]))
  }

  /** `s.includes(part)`. */
  predicate HasInfix(s: string, part: string) {
    exists i :: 0 <= i <= |s| - |part| && InfixAt(s, part, i)
  }

  predicate InfixAt(s: string, part: string, i: int)
    requires 0 <= i <= |s| - |part|
  {
    s[i..i + |part|] == part
  }

  /** Index of the first element satisfying `p`: what `where(p).first()`
      returns when the table is scanned in sequence order. */
  function FindFirst<T>(s: seq<T>, p: T -> bool): (r: Option<nat>)
    ensures r.Some? ==> r.value < |s| && p(s[r.value])
    ensures r.Some? ==> forall j :: 0 <= j < r.value ==> !p(s[j])
    ensures r.None? ==> forall j :: 0 <= j < |s| ==> !p(s[j])
  {
    if |s| == 0 then None
    else if p(s[0]) then Some(0)
    else match FindFirst(s[1..], p)
      case None => None
      case Some(k) => Some(k + 1)
  }

  /** Two tables whose rows agree on `p` position by position give the same
      first match. */
  lemma {:induction false} FindFirstAgree<T>(s: seq<T>, u: seq<T>, p: T -> bool)
    requires |s| == |u|
    requires forall i :: 0 <= i < |s| ==> p(s[i]) == p(u[i])
    ensures FindFirst(s, p) == FindFirst(u, p)
  {
    if |s| > 0 {
      FindFirstAgree(s[1..], u[1..], p);
    }
  }

  /** The rows a `where(p)` scan returns, in table order. */
  function Filter<T>(s: seq<T>, p: T -> bool): (r: seq<T>)
    ensures |r| <= |s|
    ensures forall i :: 0 <= i < |r| ==> r[i] in s && p(r[i])
    ensures forall i :: 0 <= i < |s| && p(s[i]) ==> s[i] in r
  {
    if |s| == 0 then []
    else (if p(s[0]) then [s[0]] else []) + Filter(s[1..], p)
  }

  /** A value is kept by a filter exactly when it is in the table and passes. */
  lemma FilterMember<T>(s: seq<T>, p: T -> bool, x: T)
    ensures x in Filter(s, p) <==> x in s && p(x)
  {
    if x in Filter(s, p) {
      var j :| 0 <= j < |Filter(s, p)| && Filter(s, p)[j] == x;
    }
    if x in s && p(x) {
      var i :| 0 <= i < |s| && s[i] == x;
    }
  }

  /** A filter every row passes keeps the table as it is. */
  lemma {:induction false} FilterAllKept<T>(t: seq<T>, p: T -> bool)
    requires forall i :: 0 <= i < |t| ==> p(t[i])
    ensures Filter(t, p) == t
  {
    if |t| > 0 {
      FilterAllKept(t[1..], p);
      assert t == [t[0]] + t[1..];
    }
  }

  /** A filter no row passes keeps nothing. */
  lemma {:induction false} FilterNone<T>(t: seq<T>, p: T -> bool)
    requires forall i :: 0 <= i < |t| ==> !p(t[i])
    ensures Filter(t, p) == []
  {
    if |t| > 0 {
      FilterNone(t[1..], p);
    }
  }

  /** One failing row makes the filter strictly shorter. */
  lemma {:induction false} FilterDropsOne<T>(t: seq<T>, p: T -> bool, k: nat)
    requires k < |t| && !p(t[k])
    ensures |Filter(t, p)| < |t|
  {
    if k > 0 {
      assert t[1..][k - 1] == t[k];
      FilterDropsOne(t[1..], p, k - 1);
    }
  }

  lemma FilterAppend<T>(a: seq<T>, b: seq<T>, p: T -> bool)
    ensures Filter(a + b, p) == Filter(a, p) + Filter(b, p)
  {
    if |a| == 0 {
      assert a + b == b;
    } else {
      assert (a + b)[1..] == a[1..] + b;
      FilterAppend(a[1..], b, p);
    }
  }

  /** The values of `key` over the rows of a table. */
  function KeySet<T, K>(s: seq<T>, key: T -> K): set<K> {
    set i | 0 <= i < |s| :: key(s[i])
  }

  /** A unique constraint on `key` holds for the table. */
  ghost predicate UniqueBy<T, K>(s: seq<T>, key: T -> K) {
    forall i, j :: 0 <= i < j < |s| ==> key(s[i]) != key(s[j])
  }

  lemma UniqueAppend<T, K>(s: seq<T>, x: T, key: T -> K)
    requires UniqueBy(s, key)
    requires key(x) !in KeySet(s, key)
    ensures UniqueBy(s + [x], key)
  {
    var t := s + [x];
    forall i, j | 0 <= i < j < |t|
      ensures key(t[i]) != key(t[j])
    {
      if j == |s| {
        assert key(t[i]) in KeySet(s, key);
      }
    }
  }

  lemma UniqueUpdate<T, K>(s: seq<T>, k: nat, x: T, key: T -> K)
    requires k < |s|
    requires UniqueBy(s, key)
    requires key(x) == key(s[k])
    ensures UniqueBy(s[k := x], key)
    ensures KeySet(s[k := x], key) == KeySet(s, key)
  {
    var t := s[k := x];
    assert forall i :: 0 <= i < |s| ==> key(t[i]) == key(s[i]);
    assert KeySet(t, key) == KeySet(s, key) by {
      forall y | y in KeySet(s, key) ensures y in KeySet(t, key) {
        var i :| 0 <= i < |s| && key(s[i]) == y;
        assert key(t[i]) == y;
      }
    }
  }

  lemma KeySetUpdate<T, K>(s: seq<T>, k: nat, x: T, key: T -> K)
    requires k < |s|
    requires key(x) == key(s[k])
    ensures KeySet(s[k := x], key) == KeySet(s, key)
  {
    var t := s[k := x];
    assert forall i :: 0 <= i < |s| ==> key(t[i]) == key(s[i]);
    forall y | y in KeySet(s, key) ensures y in KeySet(t, key) {
      var i :| 0 <= i < |s| && key(s[i]) == y;
      assert key(t[i]) == y;
    }
  }

  /** The keys of a table are the key of its first row and the keys of the rest. */
  lemma KeySetCons<T, K>(x: T, s: seq<T>, key: T -> K)
    ensures KeySet([x] + s, key) == {key(x)} + KeySet(s, key)
  {
    var t := [x] + s;
    assert key(t[0]) == key(x);
    forall y | y in KeySet(t, key) ensures y in {key(x)} + KeySet(s, key) {
      var j :| 0 <= j < |t| && key(t[j]) == y;
      if j > 0 {
        assert key(s[j - 1]) == y;
      }
    }
    forall y | y in KeySet(s, key) ensures y in KeySet(t, key) {
      var j :| 0 <= j < |s| && key(s[j]) == y;
      assert key(t[j + 1]) == y;
    }
  }

  /** Rows kept by a filter refer only to what the table referred to. */
  lemma FilterKeys<T, K>(t: seq<T>, p: T -> bool, ref: T -> K)
    ensures KeySet(Filter(t, p), ref) <= KeySet(t, ref)
  {
    var r := Filter(t, p);
    forall y | y in KeySet(r, ref) ensures y in KeySet(t, ref) {
      var j :| 0 <= j < |r| && ref(r[j]) == y;
      assert r[j] in t;
      var i :| 0 <= i < |t| && t[i] == r[j];
      assert ref(t[i]) == y;
    }
  }

  /** Rows kept by a filter that drops every row referring to `bad` refer
      only to what the table referred to, and not to `bad`. */
  lemma FilterRefs<T, K>(t: seq<T>, p: T -> bool, ref: T -> K, bad: K)
    requires forall i :: 0 <= i < |t| && p(t[i]) ==> ref(t[i]) != bad
    ensures KeySet(Filter(t, p), ref) <= KeySet(t, ref) - {bad}
  {
    var r := Filter(t, p);
    forall y | y in KeySet(r, ref) ensures y in KeySet(t, ref) - {bad} {
      var j :| 0 <= j < |r| && ref(r[j]) == y;
      assert r[j] in t;
      var i :| 0 <= i < |t| && t[i] == r[j];
      assert ref(t[i]) == y;
    }
  }

  /** Every row a filter keeps satisfies `ok` when every row of the table did. */
  lemma FilterAll<T>(t: seq<T>, p: T -> bool, ok: T -> bool)
    requires forall i :: 0 <= i < |t| ==> ok(t[i])
    ensures forall i :: 0 <= i < |Filter(t, p)| ==> ok(Filter(t, p)[i])
  {
    var r := Filter(t, p);
    forall j | 0 <= j < |r| ensures ok(r[j]) {
      assert r[j] in t;
    }
  }

  lemma UniqueFilter<T, K>(s: seq<T>, p: T -> bool, key: T -> K)
    requires UniqueBy(s, key)
    ensures UniqueBy(Filter(s, p), key)
    ensures KeySet(Filter(s, p), key) <= KeySet(s, key)
  {
    if |s| > 0 {
      UniqueBy1(s, key);
      UniqueFilter(s[1..], p, key);
      var r := Filter(s[1..], p);
      var h := if p(s[0]) then [s[0]] else [];
      assert Filter(s, p) == h + r;
      forall i, j | 0 <= i < j < |h + r| ensures key((h + r)[i]) != key((h + r)[j]) {
        if i < |h| {
          assert key((h + r)[j]) in KeySet(r, key);
        }
      }
      forall y | y in KeySet(h + r, key) ensures y in KeySet(s, key) {
        var i :| 0 <= i < |h + r| && key((h + r)[i]) == y;
        if i < |h| {
          assert key(s[0]) == y;
        } else {
          assert y in KeySet(r, key);
          var m :| 0 <= m < |s[1..]| && key(s[1..][m]) == y;
          assert key(s[m + 1]) == y;
        }
      }
    }
  }

  lemma UniqueBy1<T, K>(s: seq<T>, key: T -> K)
    requires |s| > 0 && UniqueBy(s, key)
    ensures UniqueBy(s[1..], key)
  {
    forall i, j | 0 <= i < j < |s[1..]| ensures key(s[1..][i]) != key(s[1..][j]) {
      assert s[1..][i] == s[i + 1] && s[1..][j] == s[j + 1];
    }
  }

  lemma KeySetMember<T, K>(s: seq<T>, i: nat, key: T -> K)
    requires i < |s|
    ensures key(s[i]) in KeySet(s, key)
  {
  }

  /** In a table unique on `key`, the row a key lookup finds is the only one. */
  lemma UniqueLookup<T, K>(s: seq<T>, key: T -> K, i: nat, j: nat)
    requires UniqueBy(s, key)
    requires i < |s| && j < |s| && key(s[i]) == key(s[j])
    ensures i == j
  {
  }
}
