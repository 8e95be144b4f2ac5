/** Python's `sorted(xs, key=...)` for keys that are pairs of numbers compared
    lexicographically. `sorted` is stable, and a stable sort's output is fixed
    by the keys alone, so a stable insertion sort computes exactly what
    Python's Timsort returns. */
module Sorting {

  /** A two-component sort key, compared like a Python tuple. */
  datatype Key = Key(major: real, minor: real)

  predicate KeyLess(a: Key, b: Key) {
    a.major < b.major || (a.major == b.major && a.minor < b.minor)
  }

  predicate KeyLeq(a: Key, b: Key) {
    !KeyLess(b, a)
  }

  /** An element together with the key `sorted` computed for it. */
  datatype Tagged<T> = Tagged(key: Key, item: T)

  ghost predicate Sorted<T>(s: seq<Tagged<T>>) {
    forall i, j :: 0 <= i < j < |s| ==> KeyLeq(s[i].key, s[j].key)
  }

  /** The elements of `s` whose key is `k`, in their order in `s`. */
  function WithKey<T>(s: seq<Tagged<T>>, k: Key): seq<Tagged<T>> {
    if s == [] then []
    else (if s[0].key == k then [s[0]] else []) + WithKey(s[1..], k)
  }

  /** Puts `x` in front of the first element whose key is not below its own. */
  function Insert<T>(x: Tagged<T>, s: seq<Tagged<T>>): (r: seq<Tagged<T>>)
    requires Sorted(s)
    ensures multiset(r) == multiset(s) + multiset{x}
    ensures Sorted(r)
    ensures r != [] && (r[0] == x || (s != [] && r[0] == s[0]))
  {
    if s == [] || KeyLeq(x.key, s[0].key) then
      [x] + s
    else
      var t := Insert(x, s[1..]);
      assert s == [s[0]] + s[1..];
      assert forall j :: 0 <= j < |t| ==> KeyLeq(s[0].key, t[j].key) by {
        forall j | 0 <= j < |t| ensures KeyLeq(s[0].key, t[j].key) {
          assert t[j] in multiset(s[1..]) + multiset{x};
        }
      }
      [s[0]] + t
  }

  /** Stable sort: the later elements are sorted first and each earlier
      element is placed in front of its equals. */
  function Sort<T>(s: seq<Tagged<T>>): (r: seq<Tagged<T>>)
    ensures multiset(r) == multiset(s)
    ensures Sorted(r)
  {
    if s == [] then []
    else
      assert s == [s[0]] + s[1..];
      Insert(s[0], Sort(s[1..]))
  }

  lemma {:induction false} WithKeyInsert<T>(x: Tagged<T>, s: seq<Tagged<T>>, k: Key)
    requires Sorted(s)
    ensures WithKey(Insert(x, s), k) == (if x.key == k then [x] else []) + WithKey(s, k)
  {
    if s == [] || KeyLeq(x.key, s[0].key) {
      assert ([x] + s)[1..] == s;
    } else {
      var t := Insert(x, s[1..]);
      assert ([s[0]] + t)[1..] == t;
      WithKeyInsert(x, s[1..], k);
      // s[0] is strictly below x, so at most one of them has key k
      assert s[0].key == k ==> x.key != k;
    }
  }

  /** Stability: among elements with equal keys, `Sort` keeps input order. */
  lemma {:induction false} SortIsStable<T>(s: seq<Tagged<T>>, k: Key)
    ensures WithKey(Sort(s), k) == WithKey(s, k)
  {
    if s != [] {
      SortIsStable(s[1..], k);
      WithKeyInsert(s[0], Sort(s[1..]), k);
    }
  }

  /** The items of a tagged sequence, in order. */
  function Items<T>(s: seq<Tagged<T>>): (r: seq<T>)
    ensures |r| == |s| && forall i :: 0 <= i < |s| ==> r[i] == s[i].item
  {
    if s == [] then [] else [s[0].item] + Items(s[1..])
  }
}
