/** Small building blocks shared by the whole model: Python's `None`, the
    exceptions the scheduling core can raise, `list.remove`, and folding a
    sequence into a multiset. */
module Common {

  /** Python's `Optional[T]`. */
  datatype Option<+T> = None | Some(value: T)

  /** Python truthiness of an `Optional[float]`: `None` and `0.0` are false. */
  predicate Truthy(o: Option<real>) {
    o.Some? && o.value != 0.0
  }

  /** The exceptions that can escape from the scheduling core. */
  datatype PyError =
    | ValueError      // node.allocate on a full node, list.remove of a missing element
    | TypeError       // arithmetic on None
    | AttributeError  // attribute access on a None payload
    | StopIteration   // next() over a generator that yields nothing

  /** Completion of a Python call: it returned normally or raised. */
  datatype Outcome = Ok | Raised(error: PyError)

  /** Position of the first occurrence of `x` in `s`. */
  function FirstIndex<T(==)>(s: seq<T>, x: T): (i: nat)
    requires x in s
    ensures i < |s| && s[i] == x && x !in s[..i]
  {
    if s[0] == x then 0 else 1 + FirstIndex(s[1..], x)
  }

  /** Python's `list.remove(x)` after the membership test succeeded:
      the first occurrence of `x` is dropped. */
  function RemoveFirst<T(==)>(s: seq<T>, x: T): (r: seq<T>)
    requires x in s
    ensures |r| == |s| - 1
    ensures multiset(r) + multiset{x} == multiset(s)
  {
    var i := FirstIndex(s, x);
    assert s == s[..i] + [x] + s[i + 1..];
    s[..i] + s[i + 1..]
  }

  /** `RemoveFirst` drops the first occurrence of `x`, and the elements
      before and after it keep their order. */
  lemma RemoveFirstDropsFirst<T>(s: seq<T>, x: T)
    requires x in s
    ensures exists i | 0 <= i < |s| :: s[i] == x && x !in s[..i] && RemoveFirst(s, x) == s[..i] + s[i + 1..]
  {
    var i := FirstIndex(s, x);
    assert s[i] == x && x !in s[..i];
  }

  /** The multiset obtained by adding up `f` over the elements of `s`. */
  function Bag<A, B>(s: seq<A>, f: A -> multiset<B>): multiset<B>
  {
    if s == [] then multiset{} else f(s[0]) + Bag(s[1..], f)
  }

  lemma {:induction false} BagAppend<A, B>(s: seq<A>, t: seq<A>, f: A -> multiset<B>)
    ensures Bag(s + t, f) == Bag(s, f) + Bag(t, f)
  {
    if s == [] {
      assert s + t == t;
    } else {
      assert (s + t)[1..] == s[1..] + t;
      BagAppend(s[1..], t, f);
    }
  }

  /** Taking one element out of a sequence takes its contribution out of the bag. */
  lemma BagSplit<A, B>(t: seq<A>, i: nat, f: A -> multiset<B>)
    requires i < |t|
    ensures Bag(t, f) == Bag(t[..i] + t[i + 1..], f) + f(t[i])
  {
    assert t == t[..i] + ([t[i]] + t[i + 1..]);
    BagAppend(t[..i], [t[i]] + t[i + 1..], f);
    assert ([t[i]] + t[i + 1..])[1..] == t[i + 1..];
    BagAppend(t[..i], t[i + 1..], f);
  }

  /** `Bag` depends only on the multiset of elements, not on their order. */
  lemma {:induction false} BagPermutation<A, B>(s: seq<A>, t: seq<A>, f: A -> multiset<B>)
    requires multiset(s) == multiset(t)
    ensures Bag(s, f) == Bag(t, f)
    decreases |s|
  {
    if s == [] {
      assert t == [] by { assert |multiset(t)| == 0; }
    } else {
      var a := s[0];
      assert a in multiset(t) by { assert a in multiset(s); }
      var i :| 0 <= i < |t| && t[i] == a;
      var rest := t[..i] + t[i + 1..];
      DropMatching(s, t, i);
      BagPermutation(s[1..], rest, f);
      BagSplit(t, i, f);
    }
  }

  /** Dropping the head of `s` and an equal element of `t` keeps the two
      multisets equal. */
  lemma DropMatching<A>(s: seq<A>, t: seq<A>, i: nat)
    requires multiset(s) == multiset(t) && s != [] && i < |t| && t[i] == s[0]
    ensures multiset(s[1..]) == multiset(t[..i] + t[i + 1..])
  {
    assert t == t[..i] + [t[i]] + t[i + 1..];
    assert s == [s[0]] + s[1..];
    assert multiset(s[1..]) == multiset(s) - multiset{s[0]};
    assert multiset(t[..i] + t[i + 1..]) == multiset(t) - multiset{t[i]};
  }

  /** Two bags agree when one multiset of elements is the other plus one element. */
  lemma BagAddOne<A, B>(s: seq<A>, t: seq<A>, x: A, f: A -> multiset<B>)
    requires multiset(t) == multiset(s) + multiset{x}
    ensures Bag(t, f) == Bag(s, f) + f(x)
  {
    assert multiset(t) == multiset(s + [x]);
    BagPermutation(t, s + [x], f);
    BagAppend(s, [x], f);
    assert Bag([x], f) == f(x) by { assert [x][1..] == []; }
  }

  /** Two pools that trade `v` for `e` keep their combined contents, and the
      first loses at most `e`. */
  lemma MovedBetween<T>(a: multiset<T>, a': multiset<T>, b: multiset<T>, b': multiset<T>, v: T, e: T)
    requires a' + multiset{e} == a + multiset{v}
    requires b' + multiset{v} == b + multiset{e}
    ensures a' + b' == a + b
    ensures a <= a' + multiset{e}
  {
    forall x ensures (a' + b')[x] == (a + b)[x] {
      assert (a' + multiset{e})[x] == (a + multiset{v})[x];
      assert (b' + multiset{v})[x] == (b + multiset{e})[x];
    }
  }
}
