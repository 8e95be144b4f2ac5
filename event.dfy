/** Simulation events and `make_event`, which pairs each event with its time
    and a number from a process-wide counter so that heap entries with equal
    times are ordered by creation. */
module Events {
  import opened Common
  import opened Schemas
  import opened HeapQ

  /** The four kinds of event. */
  datatype EventType = Arrival | Completion | Preemption | Scheduling {
    /** The enum member's string value. */
    function Value(): string {
      match this
      case Arrival => "arrival"
      case Completion => "completion"
      case Preemption => "preemption"
      case Scheduling => "scheduling"
    }
  }

  /** Enum lookup by value, `EventType(s)`: only the four values name a member. */
  function EventTypeOf(s: string): (t: Option<EventType>)
    ensures t.Some? ==> t.value.Value() == s
    ensures t.None? <==> s !in {"arrival", "completion", "preemption", "scheduling"}
  {
    if s == "arrival" then Some(Arrival)
    else if s == "completion" then Some(Completion)
    else if s == "preemption" then Some(Preemption)
    else if s == "scheduling" then Some(Scheduling)
    else None
  }

  /** Every member is found again from its value. */
  lemma EventTypeValueRoundTrip(t: EventType)
    ensures EventTypeOf(t.Value()) == Some(t)
  {
  }

  /** An event's payload: a job, or `None`. */
  datatype Payload = NoPayload | JobPayload(job: Job)

  datatype Event = Event(time: real, eventType: EventType, payload: Payload)

  /** The tuple `(time, counter, event)` that goes into the event heap. */
  type EventEntry = Entry<Event>

  /** The module-level `itertools.count()` that numbers events. */
  class EventCounter {
    var next: nat

    constructor ()
      ensures next == 0
    {
      next := 0;
    }

    /** `make_event`: the entry's first component and the event's time are
        `time`; the counter component is the next number, and the counter
        moves past it. */
    method MakeEvent(time: real, eventType: EventType, payload: Payload) returns (e: EventEntry)
      modifies this
      ensures e.key == time && e.item == Event(time, eventType, payload)
      ensures e.tie == old(next) && next == old(next) + 1
    {
      e := Entry(time, next, Event(time, eventType, payload));
      next := next + 1;
    }
  }

  /** Entries whose counters are all below `bound`, where two entries with
      the same counter are the same entry. */
  ghost predicate CountersBelow(q: seq<EventEntry>, bound: nat) {
    && (forall e | e in q :: 0 <= e.tie < bound)
    && (forall a, b | a in q && b in q && a.tie == b.tie :: a == b)
  }

  /** Adding an entry freshly numbered by the counter keeps the numbering
      consistent; hence two entries of the heap that agree on `(time,
      counter)` are one and the same entry, and the heap's tuple comparison
      never has to order two different `Event`s (which Python cannot do). */
  lemma FreshCounterKeepsKeysDistinct(q: seq<EventEntry>, r: seq<EventEntry>, bound: nat, e: EventEntry)
    requires CountersBelow(q, bound) && e.tie == bound
    requires multiset(r) == multiset(q) + multiset{e}
    ensures CountersBelow(r, bound + 1)
    ensures forall a, b | a in r && b in r && a.key == b.key && a.tie == b.tie :: a == b
  {
    forall x | x in r ensures x == e || x in q {
      assert x in multiset(r);
    }
  }

  /** Taking entries out keeps the numbering consistent. */
  lemma CountersBelowSub(q: seq<EventEntry>, r: seq<EventEntry>, bound: nat)
    requires CountersBelow(q, bound) && multiset(r) <= multiset(q)
    ensures CountersBelow(r, bound)
  {
    forall x | x in r ensures x in q {
      assert x in multiset(r);
    }
  }
}
