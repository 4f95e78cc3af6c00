/** Sequence helpers shared by the models: duplicate-free sequences, the
    first-occurrence key order of a Python dict built from a list, and sums
    of a map's values over an ordered list of its keys. */
module Seqs {

  predicate IsDistinct<T(==)>(s: seq<T>) {
    forall i, j :: 0 <= i < j < |s| ==> s[i] != s[j]
  }

  /** The keys, in insertion order, of a dict built as `{t: ... for t in s}`:
      every element once, at the place of its first occurrence. */
  function Distinct<T(==)>(s: seq<T>): (r: seq<T>)
    ensures IsDistinct(r)
    ensures forall x <- r :: x in s
    ensures forall x <- s :: x in r
    ensures |r| <= |s|
    ensures IsDistinct(s) ==> r == s
  {
    if s == [] then []
    else
      var p := Distinct(s[..|s| - 1]);
      var last := s[|s| - 1];
      assert s == s[..|s| - 1] + [last];
      if last in s[..|s| - 1] then p else p + [last]
  }

  lemma DistinctTail<T>(s: seq<T>)
    requires IsDistinct(s) && |s| > 0
    ensures IsDistinct(s[1..]) && s[0] !in s[1..]
  {
  }

  /** Sum of `m[k]` over the keys listed in `keys`. */
  function SumInt<K>(keys: seq<K>, m: map<K, int>): int
    requires forall k <- keys :: k in m
  {
    if keys == [] then 0 else m[keys[0]] + SumInt(keys[1..], m)
  }

  function SumReal<K>(keys: seq<K>, m: map<K, real>): real
    requires forall k <- keys :: k in m
  {
    if keys == [] then 0.0 else m[keys[0]] + SumReal(keys[1..], m)
  }

  lemma {:induction false} SumIntOther<K>(keys: seq<K>, m: map<K, int>, k: K, v: int)
    requires forall x <- keys :: x in m
    requires k !in keys
    ensures SumInt(keys, m[k := v]) == SumInt(keys, m)
  {
    if keys != [] {
      SumIntOther(keys[1..], m, k, v);
    }
  }

  /** Adding `d` to the value of one listed key adds `d` to the sum. */
  lemma {:induction false} SumIntUpdate<K>(keys: seq<K>, m: map<K, int>, k: K, d: int)
    requires IsDistinct(keys) && k in keys
    requires forall x <- keys :: x in m
    ensures SumInt(keys, m[k := m[k] + d]) == SumInt(keys, m) + d
  {
    DistinctTail(keys);
    if keys[0] == k {
      SumIntOther(keys[1..], m, k, m[k] + d);
    } else {
      SumIntUpdate(keys[1..], m, k, d);
    }
  }

  lemma {:induction false} SumRealOther<K>(keys: seq<K>, m: map<K, real>, k: K, v: real)
    requires forall x <- keys :: x in m
    requires k !in keys
    ensures SumReal(keys, m[k := v]) == SumReal(keys, m)
  {
    if keys != [] {
      SumRealOther(keys[1..], m, k, v);
    }
  }

  lemma {:induction false} SumRealUpdate<K>(keys: seq<K>, m: map<K, real>, k: K, d: real)
    requires IsDistinct(keys) && k in keys
    requires forall x <- keys :: x in m
    ensures SumReal(keys, m[k := m[k] + d]) == SumReal(keys, m) + d
  {
    DistinctTail(keys);
    if keys[0] == k {
      SumRealOther(keys[1..], m, k, m[k] + d);
    } else {
      SumRealUpdate(keys[1..], m, k, d);
    }
  }

  /** Listing one more key, with value `v`, adds `v` to the sum. */
  lemma {:induction false} SumRealAppend<K>(keys: seq<K>, m: map<K, real>, k: K, v: real)
    requires forall x <- keys :: x in m
    requires k !in keys
    ensures SumReal(keys + [k], m[k := v]) == SumReal(keys, m) + v
  {
    if keys == [] {
      assert [k][1..] == [];
    } else {
      assert (keys + [k])[1..] == keys[1..] + [k];
      SumRealAppend(keys[1..], m, k, v);
    }
  }

  lemma {:induction false} SumIntZero<K>(keys: seq<K>, m: map<K, int>)
    requires forall x <- keys :: x in m && m[x] == 0
    ensures SumInt(keys, m) == 0
  {
    if keys != [] {
      SumIntZero(keys[1..], m);
    }
  }

  /** With no negative entry, each entry is at most the sum. */
  lemma {:induction false} SumIntBound<K>(keys: seq<K>, m: map<K, int>, k: K)
    requires forall x <- keys :: x in m && m[x] >= 0
    requires k in keys
    ensures 0 <= m[k] <= SumInt(keys, m)
  {
    assert forall x <- keys[1..] :: x in keys;
    if keys[0] == k {
      SumIntNonNegative(keys[1..], m);
    } else {
      SumIntBound(keys[1..], m, k);
    }
  }

  lemma {:induction false} SumIntNonNegative<K>(keys: seq<K>, m: map<K, int>)
    requires forall x <- keys :: x in m && m[x] >= 0
    ensures SumInt(keys, m) >= 0
  {
    if keys != [] {
      assert forall x <- keys[1..] :: x in keys;
      SumIntNonNegative(keys[1..], m);
    }
  }

  lemma {:induction false} SumRealZero<K>(keys: seq<K>, m: map<K, real>)
    requires forall x <- keys :: x in m && m[x] == 0.0
    ensures SumReal(keys, m) == 0.0
  {
    if keys != [] {
      SumRealZero(keys[1..], m);
    }
  }

  lemma DistinctConcat<T>(a: seq<T>, b: seq<T>)
    requires IsDistinct(a) && IsDistinct(b)
    requires forall x <- a :: x !in b
    ensures IsDistinct(a + b)
  {
    forall i, j | 0 <= i < j < |a + b| ensures (a + b)[i] != (a + b)[j] {
      if j < |a| {
        assert (a + b)[i] == a[i] && (a + b)[j] == a[j];
      } else if i < |a| {
        assert (a + b)[i] == a[i] && a[i] in a;
        assert (a + b)[j] == b[j - |a|];
      } else {
        assert (a + b)[i] == b[i - |a|] && (a + b)[j] == b[j - |a|];
      }
    }
  }
}
