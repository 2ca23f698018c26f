/**
 * JavaScript's `Array.prototype.sort` with a numeric comparator `(a, b) => key(a) - key(b)`.
 * The engine guarantees a stable sort (ECMAScript 2019 onwards), so the model is a stable
 * insertion sort: ties keep their input order. The callers in the source sort in place;
 * their models assign `SortBy(old contents)` back to the array they sort.
 */
module Sorting {

  /** Ascending by `key`. */
  predicate SortedBy<T>(s: seq<T>, key: T -> real) {
    forall i, j :: 0 <= i < j < |s| ==> key(s[i]) <= key(s[j])
  }

  ghost predicate Injective<T(!new)>(key: T -> real) {
    forall a, b :: key(a) == key(b) ==> a == b
  }

  /** Puts `x` after every element whose key is at most `key(x)`. */
  function Insert<T>(x: T, s: seq<T>, key: T -> real): (r: seq<T>)
    ensures |r| == |s| + 1
    ensures multiset(r) == multiset(s) + multiset{x}
    ensures r[0] == x || (s != [] && r[0] == s[0])
  {
    if s == [] then [x]
    else if key(x) < key(s[0]) then [x] + s
    else
      assert s == [s[0]] + s[1..];
      [s[0]] + Insert(x, s[1..], key)
  }

  /** Every element inserted after the head of a sorted list keys at least as high as the head. */
  lemma InsertTailAbove<T>(x: T, s: seq<T>, key: T -> real)
    requires s != [] && SortedBy(s, key) && key(x) >= key(s[0])
    ensures forall k :: 0 <= k < |Insert(x, s[1..], key)| ==> key(s[0]) <= key(Insert(x, s[1..], key)[k])
  {
    var tail := s[1..];
    var rest := Insert(x, tail, key);
    forall k | 0 <= k < |rest|
      ensures key(s[0]) <= key(rest[k])
    {
      assert rest[k] in multiset(rest);
      if rest[k] != x {
        assert rest[k] in tail;
        var m :| 0 <= m < |tail| && tail[m] == rest[k];
        assert s[m + 1] == rest[k];
      }
    }
  }

  /** A sorted list stays sorted behind a head that keys no higher than any of its elements. */
  lemma SortedCons<T>(h: T, rest: seq<T>, key: T -> real)
    requires SortedBy(rest, key)
    requires forall k :: 0 <= k < |rest| ==> key(h) <= key(rest[k])
    ensures SortedBy([h] + rest, key)
  {
    var r := [h] + rest;
    forall i, j | 0 <= i < j < |r|
      ensures key(r[i]) <= key(r[j])
    {
      assert r[j] == rest[j - 1];
      if i > 0 {
        assert r[i] == rest[i - 1];
      }
    }
  }

  lemma {:induction false} InsertSorted<T>(x: T, s: seq<T>, key: T -> real)
    requires SortedBy(s, key)
    ensures SortedBy(Insert(x, s, key), key)
    decreases |s|
  {
    if s != [] && key(x) >= key(s[0]) {
      InsertSorted(x, s[1..], key);
      InsertTailAbove(x, s, key);
      SortedCons(s[0], Insert(x, s[1..], key), key);
    }
  }

  /** The stable sort: insert the last element into the sorted prefix. */
  function SortBy<T>(s: seq<T>, key: T -> real): (r: seq<T>)
    ensures |r| == |s|
    ensures multiset(r) == multiset(s)
    ensures SortedBy(r, key)
    decreases |s|
  {
    if s == [] then []
    else
      var n := |s| - 1;
      assert s == s[..n] + [s[n]];
      InsertSorted(s[n], SortBy(s[..n], key), key);
      Insert(s[n], SortBy(s[..n], key), key)
  }

  /** The elements whose key is exactly `k`, in order. */
  function WithKey<T>(s: seq<T>, key: T -> real, k: real): seq<T>
    decreases |s|
  {
    if s == [] then [] else (if key(s[0]) == k then [s[0]] else []) + WithKey(s[1..], key, k)
  }

  lemma {:induction false} WithKeyAppend<T>(a: seq<T>, b: seq<T>, key: T -> real, k: real)
    ensures WithKey(a + b, key, k) == WithKey(a, key, k) + WithKey(b, key, k)
    decreases |a|
  {
    if a == [] {
      assert a + b == b;
    } else {
      var head := if key(a[0]) == k then [a[0]] else [];
      assert (a + b)[0] == a[0];
      assert (a + b)[1..] == a[1..] + b;
      WithKeyAppend(a[1..], b, key, k);
      calc {
        WithKey(a + b, key, k);
        head + WithKey(a[1..] + b, key, k);
        head + (WithKey(a[1..], key, k) + WithKey(b, key, k));
        (head + WithKey(a[1..], key, k)) + WithKey(b, key, k);
        WithKey(a, key, k) + WithKey(b, key, k);
      }
    }
  }

  lemma {:induction false} WithKeyNone<T>(s: seq<T>, key: T -> real, k: real)
    requires forall i :: 0 <= i < |s| ==> key(s[i]) > k
    ensures WithKey(s, key, k) == []
    decreases |s|
  {
    if s != [] {
      WithKeyNone(s[1..], key, k);
    }
  }

  /** Inserting below the head of a sorted list adds `x` at the front of its key class, which is otherwise empty. */
  lemma InsertFrontWithKey<T>(x: T, s: seq<T>, key: T -> real, k: real)
    requires SortedBy(s, key) && s != [] && key(x) < key(s[0])
    ensures WithKey(Insert(x, s, key), key, k)
         == WithKey(s, key, k) + (if key(x) == k then [x] else [])
  {
    var hx: seq<T> := if key(x) == k then [x] else [];
    var r := Insert(x, s, key);
    assert r == [x] + s;
    assert r[0] == x && r[1..] == s;
    assert WithKey(r, key, k) == hx + WithKey(s, key, k);
    if key(x) == k {
      forall i | 0 <= i < |s| ensures key(s[i]) > k {
        if i > 0 { assert key(s[0]) <= key(s[i]); }
      }
      WithKeyNone(s, key, k);
    }
  }

  lemma {:induction false} InsertWithKey<T>(x: T, s: seq<T>, key: T -> real, k: real)
    requires SortedBy(s, key)
    ensures WithKey(Insert(x, s, key), key, k)
         == WithKey(s, key, k) + (if key(x) == k then [x] else [])
    decreases |s|
  {
    var hx: seq<T> := if key(x) == k then [x] else [];
    if s == [] {
      assert Insert(x, s, key) == [x];
      assert WithKey([x], key, k) == hx + WithKey([], key, k);
    } else if key(x) < key(s[0]) {
      InsertFrontWithKey(x, s, key, k);
    } else {
      assert SortedBy(s[1..], key);
      InsertWithKey(x, s[1..], key, k);
      InsertBehindWithKey(x, s, key, k);
    }
  }

  /** Inserting behind the head leaves the head's contribution in front. */
  lemma InsertBehindWithKey<T>(x: T, s: seq<T>, key: T -> real, k: real)
    requires s != [] && key(x) >= key(s[0])
    requires WithKey(Insert(x, s[1..], key), key, k)
          == WithKey(s[1..], key, k) + (if key(x) == k then [x] else [])
    ensures WithKey(Insert(x, s, key), key, k)
         == WithKey(s, key, k) + (if key(x) == k then [x] else [])
  {
    var hx: seq<T> := if key(x) == k then [x] else [];
    var h0: seq<T> := if key(s[0]) == k then [s[0]] else [];
    var rest := Insert(x, s[1..], key);
    var r := Insert(x, s, key);
    assert r == [s[0]] + rest;
    assert r[0] == s[0] && r[1..] == rest;
    var tail := WithKey(s[1..], key, k);
    assert WithKey(r, key, k) == h0 + (tail + hx);
    ConcatAssoc(h0, tail, hx);
  }

  lemma ConcatAssoc<T>(a: seq<T>, b: seq<T>, c: seq<T>)
    ensures a + (b + c) == (a + b) + c
  {
  }

  /** Stability: for every key value, the elements carrying it keep their relative order. */
  lemma {:induction false} SortByStable<T>(s: seq<T>, key: T -> real, k: real)
    ensures WithKey(SortBy(s, key), key, k) == WithKey(s, key, k)
    decreases |s|
  {
    if s != [] {
      var n := |s| - 1;
      assert s == s[..n] + [s[n]];
      SortByStable(s[..n], key, k);
      InsertWithKey(s[n], SortBy(s[..n], key), key, k);
      WithKeyAppend(s[..n], [s[n]], key, k);
    }
  }

  /** The first element of a sorted sequence has the least key. */
  lemma SortedHeadLeast<T>(s: seq<T>, key: T -> real, y: T)
    requires SortedBy(s, key) && y in multiset(s)
    ensures key(s[0]) <= key(y)
  {
    var i :| 0 <= i < |s| && s[i] == y;
    if i > 0 {
      assert key(s[0]) <= key(s[i]);
    }
  }

  /** With an injective key, sortedness and the multiset determine the sequence. */
  lemma MultisetTail<T>(s: seq<T>)
    requires s != []
    ensures multiset(s[1..]) == multiset(s) - multiset{s[0]}
  {
    assert s == [s[0]] + s[1..];
  }

  lemma {:induction false} SortedUnique<T(!new)>(s: seq<T>, t: seq<T>, key: T -> real)
    requires Injective(key)
    requires SortedBy(s, key) && SortedBy(t, key)
    requires multiset(s) == multiset(t)
    ensures s == t
    decreases |s|
  {
    assert |t| == |s| by { assert |multiset(s)| == |s| && |multiset(t)| == |t|; }
    if s != [] {
      assert s[0] in multiset(s) && t[0] in multiset(t);
      SortedHeadLeast(t, key, s[0]);
      SortedHeadLeast(s, key, t[0]);
      assert s[0] == t[0];
      var s', t' := s[1..], t[1..];
      MultisetTail(s);
      MultisetTail(t);
      assert SortedBy(s', key) && SortedBy(t', key);
      SortedUnique(s', t', key);
      assert s == [s[0]] + s' && t == [t[0]] + t';
    }
  }

  /** Hence any sorted permutation of `s` is `SortBy(s)`. */
  lemma SortByUnique<T(!new)>(s: seq<T>, t: seq<T>, key: T -> real)
    requires Injective(key)
    requires SortedBy(t, key) && multiset(t) == multiset(s)
    ensures t == SortBy(s, key)
  {
    SortedUnique(t, SortBy(s, key), key);
  }

  /** A sorted sequence is its own sort (for any key). */
  lemma {:induction false} SortBySorted<T>(s: seq<T>, key: T -> real)
    requires SortedBy(s, key)
    ensures SortBy(s, key) == s
    decreases |s|
  {
    if s != [] {
      var n := |s| - 1;
      assert s == s[..n] + [s[n]];
      SortBySorted(s[..n], key);
      InsertLast(s[n], s[..n], key);
    }
  }

  lemma {:induction false} InsertLast<T>(x: T, s: seq<T>, key: T -> real)
    requires forall i :: 0 <= i < |s| ==> key(s[i]) <= key(x)
    ensures Insert(x, s, key) == s + [x]
    decreases |s|
  {
    if s != [] {
      InsertLast(x, s[1..], key);
      assert s == [s[0]] + s[1..];
    }
  }

  /** Keys used by the numeric sorts of the source. */
  function Ascending(x: real): real { x }
  function Descending(x: real): real { -x }

  lemma AscendingInjective()
    ensures Injective(Ascending)
  {
  }

  lemma DescendingInjective()
    ensures Injective(Descending)
  {
  }

  /** `values.sort((a, b) => a - b)`. */
  function SortAscending(s: seq<real>): (r: seq<real>)
    ensures multiset(r) == multiset(s) && |r| == |s|
    ensures forall i, j :: 0 <= i < j < |r| ==> r[i] <= r[j]
  {
    var r := SortBy(s, Ascending);
    assert forall i, j :: 0 <= i < j < |r| ==> Ascending(r[i]) <= Ascending(r[j]);
    r
  }

  /** `values.sort((a, b) => b - a)`. */
  function SortDescending(s: seq<real>): (r: seq<real>)
    ensures multiset(r) == multiset(s) && |r| == |s|
    ensures forall i, j :: 0 <= i < j < |r| ==> r[i] >= r[j]
  {
    var r := SortBy(s, Descending);
    assert forall i, j :: 0 <= i < j < |r| ==> Descending(r[i]) <= Descending(r[j]);
    r
  }

  /** The numeric sorts depend only on the multiset of their input. */
  lemma SortAscendingPermutation(s: seq<real>, t: seq<real>)
    requires multiset(s) == multiset(t)
    ensures SortAscending(s) == SortAscending(t)
  {
    AscendingInjective();
    SortedUnique(SortBy(s, Ascending), SortBy(t, Ascending), Ascending);
  }

  lemma SortDescendingPermutation(s: seq<real>, t: seq<real>)
    requires multiset(s) == multiset(t)
    ensures SortDescending(s) == SortDescending(t)
  {
    DescendingInjective();
    SortedUnique(SortBy(s, Descending), SortBy(t, Descending), Descending);
  }

  /** Any ascending permutation of `s` is `SortAscending(s)`. */
  lemma SortAscendingUnique(s: seq<real>, t: seq<real>)
    requires multiset(t) == multiset(s)
    requires forall i, j :: 0 <= i < j < |t| ==> t[i] <= t[j]
    ensures t == SortAscending(s)
  {
    AscendingInjective();
    assert SortedBy(t, Ascending);
    SortedUnique(t, SortBy(s, Ascending), Ascending);
  }

  /** Any descending permutation of `s` is `SortDescending(s)`. */
  lemma SortDescendingUnique(s: seq<real>, t: seq<real>)
    requires multiset(t) == multiset(s)
    requires forall i, j :: 0 <= i < j < |t| ==> t[i] >= t[j]
    ensures t == SortDescending(s)
  {
    DescendingInjective();
    assert SortedBy(t, Descending);
    SortedUnique(t, SortBy(s, Descending), Descending);
  }
}
