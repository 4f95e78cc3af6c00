/** Python's `sorted(xs, key=..., reverse=True)`: a stable sort, best key
    first, where elements with equal keys keep their input order (Python
    keeps sorts stable under `reverse=True`). The key of every element is
    looked up in a map; keys compare lexicographically, as Python compares
    the tuples `(points, nrr)`. */
module Ranking {

  /** A sort key: a pair compared lexicographically. A one-component key
      (`points` alone, `win_pct` alone) uses a constant second component. */
  datatype Key = Key(primary: real, secondary: real)

  /** `x >= y` in the lexicographic order. */
  predicate AtLeast(x: Key, y: Key) {
    x.primary > y.primary || (x.primary == y.primary && x.secondary >= y.secondary)
  }

  predicate HasKeys<T(==)>(s: seq<T>, key: map<T, Key>) {
    forall x <- s :: x in key
  }

  predicate SortedDesc<T(==)>(s: seq<T>, key: map<T, Key>)
    requires HasKeys(s, key)
  {
    forall i, j :: 0 <= i < j < |s| ==> AtLeast(key[s[i]], key[s[j]])
  }

  /** The elements of `s` whose key is `k`, in their order in `s`. */
  function WithKey<T(==)>(s: seq<T>, key: map<T, Key>, k: Key): seq<T>
    requires HasKeys(s, key)
  {
    if s == [] then []
    else (if key[s[0]] == k then [s[0]] else []) + WithKey(s[1..], key, k)
  }

  /** Puts `x` in front of the first element whose key it is at least. */
  function Insert<T(==)>(x: T, s: seq<T>, key: map<T, Key>): (r: seq<T>)
    requires x in key && HasKeys(s, key)
    ensures multiset(r) == multiset(s) + multiset{x}
    ensures forall y <- r :: y == x || y in s
    ensures HasKeys(r, key)
  {
    if s == [] || AtLeast(key[x], key[s[0]]) then
      [x] + s
    else
      assert s == [s[0]] + s[1..];
      [s[0]] + Insert(x, s[1..], key)
  }

  lemma {:induction false} InsertSorted<T>(x: T, s: seq<T>, key: map<T, Key>)
    requires x in key && HasKeys(s, key)
    requires SortedDesc(s, key)
    ensures SortedDesc(Insert(x, s, key), key)
  {
    if s == [] || AtLeast(key[x], key[s[0]]) {
    } else {
      var r' := Insert(x, s[1..], key);
      InsertSorted(x, s[1..], key);
      forall y | y in r' ensures AtLeast(key[s[0]], key[y]) {
        if y != x {
          var m :| 0 <= m < |s[1..]| && s[1..][m] == y;
          assert s[m + 1] == y;
        }
      }
    }
  }

  /** Inserting `x` puts it AHEAD of every element with its key. */
  lemma {:induction false} InsertStable<T>(x: T, s: seq<T>, key: map<T, Key>, k: Key)
    requires x in key && HasKeys(s, key)
    ensures WithKey(Insert(x, s, key), key, k) == (if key[x] == k then [x] else []) + WithKey(s, key, k)
  {
    if s == [] || AtLeast(key[x], key[s[0]]) {
      assert ([x] + s)[1..] == s;
    } else {
      var r' := Insert(x, s[1..], key);
      assert ([s[0]] + r')[1..] == r';
      InsertStable(x, s[1..], key, k);
    }
  }

  /** Insertion sort from the back: `s[0]` is inserted ahead of every later
      element with an equal key, which is what makes the sort stable. */
  function SortDesc<T(==)>(s: seq<T>, key: map<T, Key>): (r: seq<T>)
    requires HasKeys(s, key)
    ensures multiset(r) == multiset(s)
    ensures |r| == |s|
    ensures forall y <- r :: y in s
    ensures HasKeys(r, key)
  {
    if s == [] then []
    else
      assert s == [s[0]] + s[1..];
      Insert(s[0], SortDesc(s[1..], key), key)
  }

  /** The sorted list is non-increasing in the key. */
  lemma {:induction false} SortDescSorted<T>(s: seq<T>, key: map<T, Key>)
    requires HasKeys(s, key)
    ensures SortedDesc(SortDesc(s, key), key)
  {
    if s != [] {
      SortDescSorted(s[1..], key);
      InsertSorted(s[0], SortDesc(s[1..], key), key);
    }
  }

  /** Stability: the elements with any one key appear in the sorted list in
      exactly their input order. */
  lemma {:induction false} SortDescStable<T>(s: seq<T>, key: map<T, Key>, k: Key)
    requires HasKeys(s, key)
    ensures WithKey(SortDesc(s, key), key, k) == WithKey(s, key, k)
  {
    if s != [] {
      SortDescStable(s[1..], key, k);
      InsertStable(s[0], SortDesc(s[1..], key), key, k);
    }
  }

  /** `[f(x) for x in s]`. */
  function MapSeq<T, U>(f: T -> U, s: seq<T>): (r: seq<U>)
    ensures |r| == |s|
  {
    if s == [] then [] else [f(s[0])] + MapSeq(f, s[1..])
  }

  /** `f` carries every element of `s` to one with the same key. */
  predicate KeysAgree<T, U>(s: seq<T>, f: T -> U, key: map<T, Key>, fkey: map<U, Key>) {
    forall t <- s :: t in key && f(t) in fkey && fkey[f(t)] == key[t]
  }

  lemma {:induction false} MapSeqKeys<T, U>(s: seq<T>, f: T -> U, key: map<T, Key>, fkey: map<U, Key>)
    requires KeysAgree(s, f, key, fkey)
    ensures HasKeys(s, key) && HasKeys(MapSeq(f, s), fkey)
  {
    if s != [] {
      assert forall t <- s[1..] :: t in s;
      MapSeqKeys(s[1..], f, key, fkey);
    }
  }

  /** Inserting and then mapping is inserting the image into the map. */
  lemma {:induction false} InsertMap<T, U>(x: T, s: seq<T>, f: T -> U, key: map<T, Key>, fkey: map<U, Key>)
    requires KeysAgree([x] + s, f, key, fkey)
    ensures HasKeys(s, key) && HasKeys(MapSeq(f, s), fkey)
    ensures Insert(f(x), MapSeq(f, s), fkey) == MapSeq(f, Insert(x, s, key))
  {
    assert x in [x] + s && forall t <- s :: t in [x] + s;
    MapSeqKeys(s, f, key, fkey);
    var ins := Insert(x, s, key);
    if s == [] || AtLeast(key[x], key[s[0]]) {
      assert ins == [x] + s;
      assert ins[0] == x && ins[1..] == s;
    } else {
      assert s[0] in [x] + s;
      assert forall t <- [x] + s[1..] :: t in [x] + s;
      InsertMap(x, s[1..], f, key, fkey);
      assert ins == [s[0]] + Insert(x, s[1..], key);
      assert ins[0] == s[0] && ins[1..] == Insert(x, s[1..], key);
    }
  }

  /** Sorting and then mapping is sorting the images by their keys. */
  lemma {:induction false} SortDescMap<T, U>(s: seq<T>, f: T -> U, key: map<T, Key>, fkey: map<U, Key>)
    requires KeysAgree(s, f, key, fkey)
    ensures HasKeys(s, key) && HasKeys(MapSeq(f, s), fkey)
    ensures SortDesc(MapSeq(f, s), fkey) == MapSeq(f, SortDesc(s, key))
  {
    MapSeqKeys(s, f, key, fkey);
    if s != [] {
      assert forall t <- s[1..] :: t in s;
      SortDescMap(s[1..], f, key, fkey);
      var sorted := SortDesc(s[1..], key);
      assert forall t <- [s[0]] + sorted :: t in s;
      InsertMap(s[0], sorted, f, key, fkey);
    }
  }
}
