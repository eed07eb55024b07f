/** The client-side dedupe of a tour listing: an array is filtered so that an
    element survives exactly when it is the first element whose `id`, turned
    into a string, equals its own. Anything that is not an array passes
    through untouched. */
module ListDedupe {
  import opened Common

  /** The `id` of a listing element as JSON delivers it. Numbers are the
      integers ids are made of. */
  datatype IdValue = Text(s: string) | Number(n: int) | Bool(b: bool) | Null | Undefined

  /** An element of the list: an object with an `id` property (possibly
      undefined), or a null or undefined hole, for which `v?.id` is undefined. */
  datatype Elem = Item(id: IdValue) | Hole

  /** What the dedupe is applied to. */
  datatype Listing = Array(items: seq<Elem>) | NotArray(json: Json)

  function DigitChar(d: nat): char
    requires d < 10
  {
    ('0' as int + d) as char
  }

  /** `String(n)` for a non-negative integer: its decimal digits. */
  function Digits(n: nat): (r: string)
    ensures |r| > 0
    ensures forall i :: 0 <= i < |r| ==> '0' <= r[i] <= '9'
    decreases n
  {
    if n < 10 then [DigitChar(n)] else Digits(n / 10) + [DigitChar(n % 10)]
  }

  /** `String(n)` for an integer. */
  function NumberText(n: int): string {
    if n < 0 then "-" + Digits(-n) else Digits(n)
  }

  /** `String(v?.id)`: the text elements are compared by. */
  function Key(v: Elem): string {
    match v
    case Hole => "undefined"
    case Item(id) =>
      match id
      case Text(s) => s
      case Number(n) => NumberText(n)
      case Bool(b) => if b then "true" else "false"
      case Null => "null"
      case Undefined => "undefined"
  }

  /** `a.findIndex(t => String(t?.id) === k)`, with -1 as `None`. */
  function FirstWith(a: seq<Elem>, k: string): (r: Option<nat>)
    ensures r.Some? ==> r.value < |a| && Key(a[r.value]) == k
    ensures r.Some? ==> forall j :: 0 <= j < r.value ==> Key(a[j]) != k
    ensures r.None? <==> k !in KeySet(a, Key)
  {
    if |a| == 0 then None
    else if Key(a[0]) == k then Some(0)
    else
      match FirstWith(a[1..], k)
      case None =>
        assert forall j :: 1 <= j < |a| ==> Key(a[j]) == Key(a[1..][j - 1]);
        None
      case Some(i) =>
        assert Key(a[1..][i]) == Key(a[i + 1]);
        Some(i + 1)
  }

  /** The filter callback `(v, i, a) => a.findIndex(...) === i`. */
  predicate KeptAt(a: seq<Elem>, i: nat)
    requires i < |a|
  {
    FirstWith(a, Key(a[i])) == Some(i)
  }

  /** `a.filter(callback)` from position `i` on. */
  function KeptFrom(a: seq<Elem>, i: nat): seq<Elem>
    requires i <= |a|
    decreases |a| - i
  {
    if i == |a| then [] else (if KeptAt(a, i) then [a[i]] else []) + KeptFrom(a, i + 1)
  }

  /** `Array.isArray(list) ? list.filter(...) : list`. */
  function Dedupe(list: Listing): (r: Listing)
    ensures list.NotArray? ==> r == list
    ensures list.Array? ==> r.Array?
  {
    match list
    case Array(a) => Array(KeptFrom(a, 0))
    case NotArray(_) => list
  }

  // ------------------------------------------------------------ reference

  /** A one-pass dedupe that remembers the keys it has already emitted. It
      is the independent definition the filter is checked against. */
  function Seen(a: seq<Elem>, seen: set<string>): seq<Elem>
    decreases |a|
  {
    if |a| == 0 then []
    else if Key(a[0]) in seen then Seen(a[1..], seen)
    else [a[0]] + Seen(a[1..], seen + {Key(a[0])})
  }

  /** `b` can be obtained from `a` by deleting elements. */
  predicate Subsequence(b: seq<Elem>, a: seq<Elem>)
    decreases |a|
  {
    if |b| == 0 then true
    else if |a| == 0 then false
    else (b[0] == a[0] && Subsequence(b[1..], a[1..])) || Subsequence(b, a[1..])
  }

  lemma KeySetPrefix(a: seq<Elem>, i: nat)
    requires i < |a|
    ensures KeySet(a[..i + 1], Key) == KeySet(a[..i], Key) + {Key(a[i])}
  {
    var p, q := a[..i + 1], a[..i];
    assert forall j :: 0 <= j < i ==> p[j] == q[j];
    assert p[i] == a[i];
    forall k | k in KeySet(p, Key) ensures k in KeySet(q, Key) + {Key(a[i])} {
      var j :| 0 <= j < |p| && Key(p[j]) == k;
      if j < i {
        assert Key(q[j]) == k;
      }
    }
  }

  /** An element is kept exactly when no earlier element has its key. */
  lemma KeptAtIff(a: seq<Elem>, i: nat)
    requires i < |a|
    ensures KeptAt(a, i) <==> Key(a[i]) !in KeySet(a[..i], Key)
  {
    var f := FirstWith(a, Key(a[i]));
    KeySetMember(a, i, Key);
    if !KeptAt(a, i) {
      assert f.value < i;
      assert Key(a[..i][f.value]) == Key(a[i]);
    }
  }

  /** The filter and the one-pass reference agree on every suffix. */
  lemma {:induction false} KeptFromSeen(a: seq<Elem>, i: nat)
    requires i <= |a|
    ensures KeptFrom(a, i) == Seen(a[i..], KeySet(a[..i], Key))
    decreases |a| - i
  {
    if i < |a| {
      var seen := KeySet(a[..i], Key);
      KeptFromSeen(a, i + 1);
      KeptAtIff(a, i);
      KeySetPrefix(a, i);
      assert a[i..][1..] == a[i + 1..];
      assert a[i..][0] == a[i];
      if Key(a[i]) in seen {
        assert KeptFrom(a, i) == KeptFrom(a, i + 1);
        assert Seen(a[i..], seen) == Seen(a[i + 1..], seen);
        assert KeySet(a[..i + 1], Key) == seen;
      } else {
        assert KeptFrom(a, i) == [a[i]] + KeptFrom(a, i + 1);
        assert Seen(a[i..], seen) == [a[i]] + Seen(a[i + 1..], seen + {Key(a[i])});
      }
    }
  }

  /** The filter is the one-pass dedupe started with nothing seen. */
  lemma DedupeIsSeen(a: seq<Elem>)
    ensures Dedupe(Array(a)) == Array(Seen(a, {}))
  {
    KeptFromSeen(a, 0);
    assert a[0..] == a;
    assert KeySet(a[..0], Key) == {};
  }

  // ------------------------------------------------------------ properties of the reference

  lemma {:induction false} SeenSubsequence(a: seq<Elem>, seen: set<string>)
    ensures Subsequence(Seen(a, seen), a)
    decreases |a|
  {
    if |a| > 0 {
      var k := Key(a[0]);
      if k in seen {
        SeenSubsequence(a[1..], seen);
        SubsequenceSkip(Seen(a[1..], seen), a);
      } else {
        SeenSubsequence(a[1..], seen + {k});
        var r := [a[0]] + Seen(a[1..], seen + {k});
        assert r[1..] == Seen(a[1..], seen + {k});
      }
    }
  }

  lemma SubsequenceSkip(b: seq<Elem>, a: seq<Elem>)
    requires |a| > 0 && Subsequence(b, a[1..])
    ensures Subsequence(b, a)
  {
  }

  /** The reference emits no key twice and none it has already seen. */
  lemma {:induction false} SeenUnique(a: seq<Elem>, seen: set<string>)
    ensures UniqueBy(Seen(a, seen), Key)
    ensures KeySet(Seen(a, seen), Key) == KeySet(a, Key) - seen
    decreases |a|
  {
    if |a| > 0 {
      var k := Key(a[0]);
      assert a == [a[0]] + a[1..];
      KeySetCons(a[0], a[1..], Key);
      if k in seen {
        SeenUnique(a[1..], seen);
      } else {
        var rest := Seen(a[1..], seen + {k});
        SeenUnique(a[1..], seen + {k});
        var r := [a[0]] + rest;
        KeySetCons(a[0], rest, Key);
        forall i, j | 0 <= i < j < |r| ensures Key(r[i]) != Key(r[j]) {
          assert r[j] == rest[j - 1];
          KeySetMember(rest, j - 1, Key);
          if i > 0 {
            assert r[i] == rest[i - 1];
          }
        }
      }
    }
  }

  /** On a list whose keys are already distinct and unseen, the reference
      keeps everything. */
  lemma {:induction false} SeenKeepsUnique(a: seq<Elem>, seen: set<string>)
    requires UniqueBy(a, Key)
    requires KeySet(a, Key) !! seen
    ensures Seen(a, seen) == a
    decreases |a|
  {
    if |a| > 0 {
      KeySetMember(a, 0, Key);
      UniqueBy1(a, Key);
      assert a == [a[0]] + a[1..];
      KeySetCons(a[0], a[1..], Key);
      SeenKeepsUnique(a[1..], seen + {Key(a[0])});
    }
  }

  /** Each element the reference keeps is the first of the list with its key. */
  lemma {:induction false} SeenFirst(a: seq<Elem>, seen: set<string>, k: nat)
    requires k < |Seen(a, seen)|
    ensures FirstWith(a, Key(Seen(a, seen)[k])).Some?
    ensures a[FirstWith(a, Key(Seen(a, seen)[k])).value] == Seen(a, seen)[k]
    decreases |a|
  {
    var r := Seen(a, seen);
    var key0 := Key(a[0]);
    if key0 in seen {
      SeenFirst(a[1..], seen, k);
      SeenUnique(a[1..], seen);
      KeySetMember(r, k, Key);
      FirstWithTail(a, Key(r[k]));
    } else if k == 0 {
    } else {
      var rest := Seen(a[1..], seen + {key0});
      assert r[k] == rest[k - 1];
      SeenFirst(a[1..], seen + {key0}, k - 1);
      SeenUnique(a[1..], seen + {key0});
      KeySetMember(rest, k - 1, Key);
      FirstWithTail(a, Key(r[k]));
    }
  }

  /** Past a first element whose key differs, the search continues in the tail. */
  lemma FirstWithTail(a: seq<Elem>, k: string)
    requires |a| > 0 && Key(a[0]) != k
    requires FirstWith(a[1..], k).Some?
    ensures FirstWith(a, k) == Some(FirstWith(a[1..], k).value + 1)
  {
  }

  // ------------------------------------------------------------ properties of the dedupe

  /** The output keeps the input's order and invents nothing. */
  lemma DedupeSubsequence(a: seq<Elem>)
    ensures Subsequence(Dedupe(Array(a)).items, a)
  {
    DedupeIsSeen(a);
    SeenSubsequence(a, {});
  }

  /** No two output elements share a key, and every key of the input is
      still present. */
  lemma DedupeKeys(a: seq<Elem>)
    ensures UniqueBy(Dedupe(Array(a)).items, Key)
    ensures KeySet(Dedupe(Array(a)).items, Key) == KeySet(a, Key)
  {
    DedupeIsSeen(a);
    SeenUnique(a, {});
  }

  /** Each output element is the first element of the input with its key. */
  lemma DedupeFirstOccurrence(a: seq<Elem>)
    ensures var r := Dedupe(Array(a)).items;
      forall k :: 0 <= k < |r| ==>
        FirstWith(a, Key(r[k])).Some? && a[FirstWith(a, Key(r[k])).value] == r[k]
  {
    DedupeIsSeen(a);
    forall k | 0 <= k < |Seen(a, {})|
      ensures FirstWith(a, Key(Seen(a, {})[k])).Some?
      ensures a[FirstWith(a, Key(Seen(a, {})[k])).value] == Seen(a, {})[k]
    {
      SeenFirst(a, {}, k);
    }
  }

  /** A list with distinct keys comes back unchanged. */
  lemma DedupeKeepsUnique(a: seq<Elem>)
    requires UniqueBy(a, Key)
    ensures Dedupe(Array(a)) == Array(a)
  {
    DedupeIsSeen(a);
    SeenKeepsUnique(a, {});
  }

  /** Deduping twice is deduping once, for arrays and for anything else. */
  lemma DedupeIdempotent(list: Listing)
    ensures Dedupe(Dedupe(list)) == Dedupe(list)
  {
    if list.Array? {
      DedupeKeys(list.items);
      DedupeKeepsUnique(Dedupe(list).items);
    }
  }

  /** Ids compare by their string form: the number 1 and the text "1" are the
      same id, so only the first of the two survives. */
  lemma NumberAndTextCollide()
    ensures Dedupe(Array([Item(Number(1)), Item(Text("1"))])) == Array([Item(Number(1))])
  {
    var a := [Item(Number(1)), Item(Text("1"))];
    assert Key(a[0]) == "1";
    assert KeptAt(a, 0);
    assert !KeptAt(a, 1);
  }

  /** A hole, an element whose id is undefined and one whose id is the text
      "undefined" are all the same id. */
  lemma HoleAndUndefinedCollide()
    ensures Dedupe(Array([Hole, Item(Undefined), Item(Text("undefined"))])) == Array([Hole])
  {
    var a := [Hole, Item(Undefined), Item(Text("undefined"))];
    assert KeptAt(a, 0);
    assert !KeptAt(a, 1);
    assert !KeptAt(a, 2);
  }
}
