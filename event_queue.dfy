/** The simulation's event queue: a binary heap of `(time, counter, event)`
    entries, so events come out by time and, at equal times, in the order
    they were made. */
module EventQueues {
  import opened Common
  import opened HeapQ
  import opened Events

  class EventQueue {
    var queue: seq<EventEntry>

    ghost predicate Valid()
      reads this
    {
      IsHeap(queue)
    }

    constructor ()
      ensures Valid() && queue == [] && IsEmpty()
    {
      queue := [];
    }

    /** `heappush` of an entry: the queue gains exactly that entry. */
    method Push(e: EventEntry)
      requires Valid()
      modifies this
      ensures Valid()
      ensures multiset(queue) == multiset(old(queue)) + multiset{e}
      ensures !IsEmpty()
    {
      queue := HeapPush(queue, e);
    }

    /** `pop`: `None` on an empty queue (which stays empty); otherwise the
        event of an entry no other entry is below, which leaves the queue.
        It is the event `Peek` showed. */
    method Pop() returns (ev: Option<Event>)
      requires Valid()
      modifies this
      ensures Valid()
      ensures ev == old(Peek())
      ensures old(queue) == [] ==> queue == []
      ensures old(queue) != [] ==>
        && multiset(queue) + multiset{old(queue)[0]} == multiset(old(queue))
        && forall y | y in old(queue) :: !Below(y, old(queue)[0])
    {
      if queue == [] {
        return None;
      }
      var first;
      ghost var before := queue;
      queue, first := HeapPop(queue);
      forall y | y in before ensures !Below(y, before[0]) {
        if y != first {
          assert y in multiset(queue) by { assert y in multiset(before); }
        }
      }
      ev := Some(first.item);
    }

    /** `peek`: `None` exactly when the queue is empty, otherwise the event
        of a least entry, left in place. */
    function Peek(): (ev: Option<Event>)
      reads this
      requires Valid()
      ensures ev.None? <==> queue == []
      ensures ev.Some? ==> exists e | e in queue :: e.item == ev.value && forall y | y in queue :: !Below(y, e)
    {
      if queue == [] then None
      else
        assert forall i | 0 <= i < |queue| :: !Below(queue[i], queue[0]) by {
          forall i | 0 <= i < |queue| ensures !Below(queue[i], queue[0]) {
            HeapRootIsLeast(queue, i);
          }
        }
        Some(queue[0].item)
    }

    /** `is_empty`. */
    function IsEmpty(): (b: bool)
      reads this
      ensures b <==> |queue| == 0
    {
      queue == []
    }
  }

  /** Events with equal times leave the queue in the order the counter
      numbered them: an entry is never the least while an entry with the
      same time and a smaller counter is still queued. */
  lemma EqualTimesInCreationOrder(q: seq<EventEntry>, a: EventEntry, b: EventEntry)
    requires IsHeap(q) && a in q && b in q
    requires a.key == b.key && a.tie < b.tie
    ensures q[0] != b
  {
    var i :| 0 <= i < |q| && q[i] == a;
    HeapRootIsLeast(q, i);
  }
}
