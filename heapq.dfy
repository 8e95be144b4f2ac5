/** CPython's `heapq` module as the scheduling core uses it: `heappush`,
    `heappop` and `heapify` on a list of tuples `(key, tie, item)` compared
    lexicographically. The list is a `seq` value; each operation returns the
    new list. The moves are the ones CPython makes: `SiftDown` is CPython's
    `_siftdown` (the new item climbs towards the root) and `SiftUp` is its
    `_siftup` (the hole sinks to a leaf along the smaller children, then the
    item climbs back). Swapping instead of moving a hole ends in the same list. */
module HeapQ {

  /** One heap element; Python compares the tuple `(key, tie, item)` and
      the model compares `(key, tie)` only. */
  datatype Entry<T> = Entry(key: real, tie: int, item: T)

  /** Tuple `<` on the first two components. */
  predicate Below<T>(a: Entry<T>, b: Entry<T>) {
    a.key < b.key || (a.key == b.key && a.tie < b.tie)
  }

  function Parent(i: nat): nat
    requires 0 < i
  {
    (i - 1) / 2
  }

  /** Every edge whose parent index is at least `start` is ordered. */
  ghost predicate HeapFrom<T>(h: seq<Entry<T>>, start: nat) {
    forall c :: 0 < c < |h| && start <= Parent(c) ==> !Below(h[c], h[Parent(c)])
  }

  /** The heap invariant of `heapq`: no child is below its parent. */
  ghost predicate IsHeap<T>(h: seq<Entry<T>>) {
    HeapFrom(h, 0)
  }

  /** `k` lies in the subtree rooted at `s`. */
  ghost predicate Descendant(k: nat, s: nat)
    decreases k
  {
    k == s || (s < k && Descendant(Parent(k), s))
  }

  lemma {:induction false} DescendantOfRoot(k: nat)
    ensures Descendant(k, 0)
    decreases k
  {
    if 0 < k {
      DescendantOfRoot(Parent(k));
    }
  }

  /** The root of a heap is a least element. */
  lemma {:induction false} HeapRootIsLeast<T>(h: seq<Entry<T>>, i: nat)
    requires IsHeap(h) && i < |h|
    ensures !Below(h[i], h[0])
    decreases i
  {
    if 0 < i {
      HeapRootIsLeast(h, Parent(i));
    }
  }

  /** Invariant of `SiftDown` with the climbing item at `k`: every edge below
      `start` is ordered except the one from `k` to its parent, and the parent
      of `k` is not above the children of `k`. */
  ghost predicate ClimbInv<T>(h: seq<Entry<T>>, start: nat, k: nat) {
    && (forall c :: 0 < c < |h| && start <= Parent(c) && c != k ==> !Below(h[c], h[Parent(c)]))
    && (start < k && 2 * k + 1 < |h| ==> !Below(h[2 * k + 1], h[Parent(k)]))
    && (start < k && 2 * k + 2 < |h| ==> !Below(h[2 * k + 2], h[Parent(k)]))
  }

  function Swap<T>(h: seq<T>, i: nat, j: nat): (r: seq<T>)
    requires i < |h| && j < |h|
    ensures |r| == |h| && r[i] == h[j] && r[j] == h[i]
    ensures forall k :: 0 <= k < |h| && k != i && k != j ==> r[k] == h[k]
    ensures multiset(r) == multiset(h)
  {
    h[i := h[j]][j := h[i]]
  }

  /** One climbing move keeps `ClimbInv`. */
  lemma ClimbStep<T>(h: seq<Entry<T>>, start: nat, k: nat)
    requires start < k < |h| && Descendant(k, start)
    requires ClimbInv(h, start, k) && Below(h[k], h[Parent(k)])
    ensures Descendant(Parent(k), start)
    ensures ClimbInv(Swap(h, k, Parent(k)), start, Parent(k))
  {
    var p := Parent(k);
    var r := Swap(h, k, p);
    if start < p {
      assert Descendant(Parent(p), start);
      assert !Below(h[p], h[Parent(p)]);
      var sib := if k == 2 * p + 1 then 2 * p + 2 else 2 * p + 1;
      if sib < |r| {
        assert Parent(sib) == p;
        assert !Below(h[sib], h[p]);
      }
    }
    forall c | 0 < c < |r| && start <= Parent(c) && c != p
      ensures !Below(r[c], r[Parent(c)])
    {
      if c == k {
      } else if Parent(c) == k {
      } else if Parent(c) == p {
        assert !Below(h[c], h[p]);
      } else {
      }
    }
  }

  /** CPython `_siftdown(heap, startpos, pos)`: the item at `pos` climbs
      while it is strictly below its parent, never above `start`. */
  method SiftDown<T>(h: seq<Entry<T>>, start: nat, pos: nat) returns (r: seq<Entry<T>>)
    requires start <= pos < |h| && Descendant(pos, start)
    ensures |r| == |h| && multiset(r) == multiset(h)
    ensures ClimbInv(h, start, pos) ==> HeapFrom(r, start)
  {
    ghost var pre := ClimbInv(h, start, pos);
    r := h;
    var k := pos;
    while start < k
      invariant start <= k < |r| && Descendant(k, start)
      invariant |r| == |h| && multiset(r) == multiset(h)
      invariant pre ==> ClimbInv(r, start, k)
      decreases k
    {
      var p := Parent(k);
      if Below(r[k], r[p]) {
        if pre {
          ClimbStep(r, start, k);
        }
        r := Swap(r, k, p);
        k := p;
      } else {
        break;
      }
    }
  }

  /** Invariant of the sinking phase of `SiftUp` with the hole at `k`: every
      edge below `start` that does not touch `k` is ordered, and the parent of
      `k` is not above the children of `k`. */
  ghost predicate SinkInv<T>(h: seq<Entry<T>>, start: nat, k: nat) {
    && (forall c :: 0 < c < |h| && start <= Parent(c) && c != k && Parent(c) != k ==> !Below(h[c], h[Parent(c)]))
    && (start < k && 2 * k + 1 < |h| ==> !Below(h[2 * k + 1], h[Parent(k)]))
    && (start < k && 2 * k + 2 < |h| ==> !Below(h[2 * k + 2], h[Parent(k)]))
  }

  /** One sinking move keeps `SinkInv`. */
  lemma SinkStep<T>(h: seq<Entry<T>>, start: nat, k: nat, child: nat)
    requires start <= k && child < |h| && Descendant(k, start) && SinkInv(h, start, k)
    requires child == 2 * k + 1 || child == 2 * k + 2
    requires child == 2 * k + 1 ==> 2 * k + 2 >= |h| || Below(h[child], h[2 * k + 2])
    requires child == 2 * k + 2 ==> !Below(h[2 * k + 1], h[child])
    ensures Descendant(child, start)
    ensures SinkInv(Swap(h, k, child), start, child)
  {
    assert Parent(child) == k;
    var r := Swap(h, k, child);
    var g1, g2 := 2 * child + 1, 2 * child + 2;
    if g1 < |r| {
      assert Parent(g1) == child;
      assert !Below(h[g1], h[child]);
    }
    if g2 < |r| {
      assert Parent(g2) == child;
      assert !Below(h[g2], h[child]);
    }
    forall c | 0 < c < |r| && start <= Parent(c) && c != child && Parent(c) != child
      ensures !Below(r[c], r[Parent(c)])
    {
      if c == k {
      } else if Parent(c) == k {
      } else {
      }
    }
  }

  /** When the hole has reached a leaf, the climbing invariant holds there. */
  lemma SinkDone<T>(h: seq<Entry<T>>, start: nat, k: nat)
    requires start <= k < |h| && |h| <= 2 * k + 1 && SinkInv(h, start, k)
    ensures ClimbInv(h, start, k)
  {
  }

  /** CPython `_siftup(heap, pos)`: the subtrees below `pos` are heaps; the
      item at `pos` sinks to a leaf along the smaller children (the right one
      on ties) and then climbs back with `SiftDown`. */
  method SiftUp<T>(h: seq<Entry<T>>, pos: nat) returns (r: seq<Entry<T>>)
    requires pos < |h|
    ensures |r| == |h| && multiset(r) == multiset(h)
    ensures HeapFrom(h, pos + 1) ==> HeapFrom(r, pos)
  {
    ghost var pre := HeapFrom(h, pos + 1);
    r := h;
    var k := pos;
    var child := 2 * k + 1;
    while child < |r|
      invariant pos <= k < |r| && Descendant(k, pos) && child == 2 * k + 1
      invariant |r| == |h| && multiset(r) == multiset(h)
      invariant pre ==> SinkInv(r, pos, k)
      decreases |r| - k
    {
      var right := child + 1;
      if right < |r| && !Below(r[child], r[right]) {
        child := right;
      }
      assert Parent(child) == k;
      if pre {
        SinkStep(r, pos, k, child);
      }
      r := Swap(r, k, child);
      k := child;
      child := 2 * k + 1;
    }
    if pre {
      SinkDone(r, pos, k);
    }
    r := SiftDown(r, pos, k);
  }

  /** CPython `heappush`: append, then let the new item climb. */
  method HeapPush<T>(h: seq<Entry<T>>, x: Entry<T>) returns (r: seq<Entry<T>>)
    ensures |r| == |h| + 1 && multiset(r) == multiset(h) + multiset{x}
    ensures IsHeap(h) ==> IsHeap(r)
  {
    r := h + [x];
    DescendantOfRoot(|h|);
    r := SiftDown(r, 0, |h|);
  }

  /** CPython `heappop`: the last item replaces the root and sinks; the old
      root is returned. */
  method HeapPop<T>(h: seq<Entry<T>>) returns (r: seq<Entry<T>>, x: Entry<T>)
    requires h != []
    ensures x == h[0]
    ensures |r| == |h| - 1 && multiset(r) + multiset{x} == multiset(h)
    ensures IsHeap(h) ==> IsHeap(r) && forall y :: y in r ==> !Below(y, x)
  {
    var last := h[|h| - 1];
    r := h[..|h| - 1];
    assert h == r + [last];
    if r == [] {
      x := last;
    } else {
      x := r[0];
      r := r[0 := last];
      r := SiftUp(r, 0);
    }
    assert multiset(r) + multiset{x} == multiset(h);
    if IsHeap(h) {
      forall y | y in r ensures !Below(y, x) {
        assert y in multiset(r);
        assert y in multiset(h);
        var i :| 0 <= i < |h| && h[i] == y;
        HeapRootIsLeast(h, i);
      }
    }
  }

  /** CPython `heapify`: sink every inner node, last one first. */
  method Heapify<T>(h: seq<Entry<T>>) returns (r: seq<Entry<T>>)
    ensures |r| == |h| && multiset(r) == multiset(h)
    ensures IsHeap(r)
  {
    r := h;
    var i: nat := |h| / 2;
    while 0 < i
      invariant i <= |h| / 2
      invariant |r| == |h| && multiset(r) == multiset(h)
      invariant HeapFrom(r, i)
    {
      i := i - 1;
      r := SiftUp(r, i);
    }
  }
}
