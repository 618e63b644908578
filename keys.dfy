/** The values `sort_key` returns and Python's `<` on them. */
module Keys {
  import opened DateTimes

  /** The tuple `sort_key` returns: `(0, filename_dt, name)` or
      `(1, mtime_dt, name)`. */
  datatype Key = Key(priority: nat, dt: DateTime, name: string)

  /** Python's `<` on `str`: code point by code point, a proper prefix first. */
  predicate StrLess(a: string, b: string) {
    if a == [] then b != []
    else if b == [] then false
    else if a[0] != b[0] then a[0] < b[0]
    else StrLess(a[1..], b[1..])
  }

  /** Python's `<` on the key tuples: compare the first components that differ. */
  predicate KeyLess(a: Key, b: Key) {
    if a.priority != b.priority then a.priority < b.priority
    else if a.dt != b.dt then Before(a.dt, b.dt)
    else StrLess(a.name, b.name)
  }

  /** `a` may come before `b` in a sorted list. */
  predicate KeyLe(a: Key, b: Key) {
    !KeyLess(b, a)
  }

  lemma {:induction false} StrLessIsStrictTotalOrder(a: string, b: string, c: string)
    ensures !StrLess(a, a)
    ensures StrLess(a, b) && StrLess(b, c) ==> StrLess(a, c)
    ensures a != b ==> StrLess(a, b) || StrLess(b, a)
  {
    if a != [] {
      StrLessIsStrictTotalOrder(a[1..], a[1..], a[1..]);
    }
    if a != [] && b != [] && c != [] {
      StrLessIsStrictTotalOrder(a[1..], b[1..], c[1..]);
    }
    if a != b && a != [] && b != [] && a[0] == b[0] {
      assert a == [a[0]] + a[1..] && b == [b[0]] + b[1..];
      StrLessIsStrictTotalOrder(a[1..], b[1..], b[1..]);
    }
  }

  lemma KeyLessIsStrictTotalOrder(a: Key, b: Key, c: Key)
    ensures !KeyLess(a, a)
    ensures KeyLess(a, b) && KeyLess(b, c) ==> KeyLess(a, c)
    ensures a != b ==> KeyLess(a, b) || KeyLess(b, a)
  {
    StrLessIsStrictTotalOrder(a.name, b.name, c.name);
    StrLessIsStrictTotalOrder(a.name, a.name, a.name);
    BeforeIsStrictTotalOrder(a.dt, b.dt, c.dt);
    BeforeIsStrictTotalOrder(a.dt, a.dt, a.dt);
  }

  lemma KeyLeIsTotalOrder(a: Key, b: Key, c: Key)
    ensures KeyLe(a, a)
    ensures KeyLe(a, b) && KeyLe(b, c) ==> KeyLe(a, c)
    ensures KeyLe(a, b) && KeyLe(b, a) ==> a == b
    ensures KeyLe(a, b) || KeyLe(b, a)
    ensures KeyLess(a, b) ==> KeyLe(a, b)
  {
    KeyLessIsStrictTotalOrder(a, b, c);
    KeyLessIsStrictTotalOrder(c, b, a);
    KeyLessIsStrictTotalOrder(b, a, c);
    KeyLessIsStrictTotalOrder(a, c, b);
    KeyLessIsStrictTotalOrder(b, c, a);
    KeyLessIsStrictTotalOrder(c, a, b);
    KeyLessIsStrictTotalOrder(b, b, b);
    KeyLessIsStrictTotalOrder(c, c, c);
    KeyLessIsStrictTotalOrder(a, b, a);
  }
}
