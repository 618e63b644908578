/** `sorted(xs, key=f)`: a stable sort by a key computed for every element,
    whatever the elements are. */
module StableSort {
  import opened Keys

  /** Non-decreasing under `key`. */
  predicate Ordered<T>(s: seq<T>, key: T -> Key) {
    forall i, j | 0 <= i < j < |s| :: KeyLe(key(s[i]), key(s[j]))
  }

  /** Insert `x` before the first element whose key is not smaller than its
      own, so that it precedes every element with an equal key. */
  function Insert<T(==)>(x: T, s: seq<T>, key: T -> Key): (r: seq<T>)
    ensures multiset(r) == multiset(s) + multiset{x}
  {
    if s == [] || !KeyLess(key(s[0]), key(x)) then [x] + s
    else
      assert s == [s[0]] + s[1..];
      [s[0]] + Insert(x, s[1..], key)
  }

  /** A stable sort by key, as `sorted` (Timsort) is: the result is an ordered
      permutation of the input. */
  function SortByKey<T(==)>(s: seq<T>, key: T -> Key): (r: seq<T>)
    ensures multiset(r) == multiset(s)
    ensures Ordered(r, key)
  {
    if s == [] then []
    else
      assert s == [s[0]] + s[1..];
      var rest := SortByKey(s[1..], key);
      InsertKeepsOrdered(s[0], rest, key);
      Insert(s[0], rest, key)
  }

  lemma {:induction false} InsertKeepsOrdered<T>(x: T, s: seq<T>, key: T -> Key)
    requires Ordered(s, key)
    ensures Ordered(Insert(x, s, key), key)
  {
    var r := Insert(x, s, key);
    if s == [] || !KeyLess(key(s[0]), key(x)) {
      forall i, j | 0 <= i < j < |r| ensures KeyLe(key(r[i]), key(r[j])) {
        if i == 0 {
          KeyLeIsTotalOrder(key(x), key(s[0]), key(s[j - 1]));
        }
      }
    } else {
      var t := Insert(x, s[1..], key);
      InsertKeepsOrdered(x, s[1..], key);
      forall i, j | 0 <= i < j < |r| ensures KeyLe(key(r[i]), key(r[j])) {
        if i == 0 {
          var y := r[j];
          assert y in multiset(t);
          if y == x {
            KeyLeIsTotalOrder(key(s[0]), key(x), key(x));
          } else {
            assert y in multiset(s[1..]);
            var k :| 0 <= k < |s[1..]| && s[1..][k] == y;
            assert s[k + 1] == y;
          }
        }
      }
    }
  }

  /** The elements of `s` whose key is `k`, in their order in `s`. */
  function WithKey<T>(s: seq<T>, key: T -> Key, k: Key): seq<T> {
    if s == [] then []
    else (if key(s[0]) == k then [s[0]] else []) + WithKey(s[1..], key, k)
  }

  lemma {:induction false} InsertIsStable<T>(x: T, s: seq<T>, key: T -> Key, k: Key)
    ensures WithKey(Insert(x, s, key), key, k) == WithKey([x] + s, key, k)
  {
    var hx := if key(x) == k then [x] else [];
    assert ([x] + s)[1..] == s;
    if s != [] && KeyLess(key(s[0]), key(x)) {
      var t := Insert(x, s[1..], key);
      var h0 := if key(s[0]) == k then [s[0]] else [];
      InsertIsStable(x, s[1..], key, k);
      assert ([x] + s[1..])[1..] == s[1..];
      assert ([s[0]] + t)[1..] == t;
      // at most one of h0 and hx is non-empty, since key(s[0]) < key(x)
      KeyLessIsStrictTotalOrder(key(x), key(x), key(x));
      assert h0 == [] || hx == [];
      assert WithKey([s[0]] + t, key, k) == h0 + (hx + WithKey(s[1..], key, k));
      assert WithKey([x] + s, key, k) == hx + (h0 + WithKey(s[1..], key, k));
    }
  }

  /** Elements with equal keys keep their relative order: for every key, the
      elements carrying it appear in the result in their input order. */
  lemma {:induction false} SortByKeyIsStable<T>(s: seq<T>, key: T -> Key, k: Key)
    ensures WithKey(SortByKey(s, key), key, k) == WithKey(s, key, k)
  {
    if s != [] {
      SortByKeyIsStable(s[1..], key, k);
      InsertIsStable(s[0], SortByKey(s[1..], key), key, k);
      assert ([s[0]] + SortByKey(s[1..], key))[1..] == SortByKey(s[1..], key);
    }
  }

  lemma {:induction false} WithKeyMember<T>(s: seq<T>, key: T -> Key, k: Key, x: T)
    ensures x in WithKey(s, key, k) <==> x in s && key(x) == k
  {
    if s != [] {
      WithKeyMember(s[1..], key, k, x);
      assert s == [s[0]] + s[1..];
    }
  }

  /** A stable sort has only one possible result: two lists that are both
      ordered by key and hold, for every key, the same elements in the same
      order, are equal. So this insertion sort and CPython's Timsort, both
      stable, put any list in the same order. */
  lemma {:induction false} StableOrderIsUnique<T>(a: seq<T>, b: seq<T>, key: T -> Key)
    requires Ordered(a, key) && Ordered(b, key)
    requires forall k :: WithKey(a, key, k) == WithKey(b, key, k)
    ensures a == b
  {
    if a == [] || b == [] {
      // the non-empty one, if any, holds its first element under that element's key
      if a != [] {
        WithKeyMember(a, key, key(a[0]), a[0]);
        assert false;
      } else if b != [] {
        WithKeyMember(b, key, key(b[0]), b[0]);
        assert false;
      }
    } else {
      var ka, kb := key(a[0]), key(b[0]);
      assert WithKey(a, key, ka) == [a[0]] + WithKey(a[1..], key, ka);
      assert WithKey(b, key, kb) == [b[0]] + WithKey(b[1..], key, kb);
      WithKeyMember(b, key, ka, a[0]);
      WithKeyMember(a, key, kb, b[0]);
      assert KeyLe(kb, ka) by {
        var j :| 0 <= j < |b| && b[j] == a[0];
        KeyLeIsTotalOrder(kb, ka, ka);
      }
      assert KeyLe(ka, kb) by {
        var j :| 0 <= j < |a| && a[j] == b[0];
        KeyLeIsTotalOrder(ka, kb, kb);
      }
      KeyLeIsTotalOrder(ka, kb, kb);
      assert a[0] == WithKey(b, key, ka)[0] == b[0];
      forall k ensures WithKey(a[1..], key, k) == WithKey(b[1..], key, k) {
        var head := if key(a[0]) == k then [a[0]] else [];
        assert WithKey(a, key, k) == head + WithKey(a[1..], key, k);
        assert WithKey(b, key, k) == head + WithKey(b[1..], key, k);
        assert (head + WithKey(a[1..], key, k))[|head|..] == WithKey(a[1..], key, k);
        assert (head + WithKey(b[1..], key, k))[|head|..] == WithKey(b[1..], key, k);
      }
      StableOrderIsUnique(a[1..], b[1..], key);
      assert a == [a[0]] + a[1..] && b == [b[0]] + b[1..];
    }
  }
}
