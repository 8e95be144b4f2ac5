/** Job helpers shared by the schedulers: the numeric rank of a priority
    name and the ordering of the global ready queue. */
module JobUtils {
  import opened Schemas
  import opened Sorting
  import opened Common

  /** `priority_value`: low, med and high rank 1, 2 and 3; any other string
      ranks 0. The schedulers' own `priority_value` is the same table. */
  function PriorityValue(p: string): (v: nat)
    ensures p == "low" ==> v == 1
    ensures p == "med" ==> v == 2
    ensures p == "high" ==> v == 3
    ensures !IsPriorityName(p) ==> v == 0
  {
    if p == "low" then 1 else if p == "med" then 2 else if p == "high" then 3 else 0
  }

  /** The key `sort_ready_queue` gives a job: negated priority rank, then
      negated time waited since arrival. */
  function ReadyKey(job: Job, now: real): Key
    reads job
  {
    Key(-(PriorityValue(job.priority) as real), -(now - job.arrivalTime))
  }

  /** Each job paired with its sort key. */
  function TagReady(jobs: seq<Job>, now: real): (r: seq<Tagged<Job>>)
    reads jobs
    ensures |r| == |jobs|
    ensures forall i :: 0 <= i < |jobs| ==> r[i] == Tagged(ReadyKey(jobs[i], now), jobs[i])
  {
    if jobs == [] then [] else [Tagged(ReadyKey(jobs[0], now), jobs[0])] + TagReady(jobs[1..], now)
  }

  /** Every element carries the sort key of its own job. */
  ghost predicate KeyedByReady(s: seq<Tagged<Job>>, now: real)
    reads set t | t in s :: t.item
  {
    forall i :: 0 <= i < |s| ==> s[i].key == ReadyKey(s[i].item, now)
  }

  /** `sort_ready_queue(jobs, current_time)`: a new list (the input is a
      value here, so it cannot change) that is a permutation of the input,
      with priority ranks non-increasing and, within one rank, arrival
      times non-decreasing. */
  function SortReadyQueue(jobs: seq<Job>, now: real): (r: seq<Job>)
    reads jobs
    ensures multiset(r) == multiset(jobs)
    ensures forall i, j :: 0 <= i < j < |r| ==> PriorityValue(r[i].priority) >= PriorityValue(r[j].priority)
    ensures forall i, j :: 0 <= i < j < |r| && PriorityValue(r[i].priority) == PriorityValue(r[j].priority) ==>
      r[i].arrivalTime <= r[j].arrivalTime
  {
    var tagged := TagReady(jobs, now);
    var sorted := Sort(tagged);
    ItemsOfTagReady(jobs, now);
    ItemsPermutation(tagged, sorted);
    SortedKeepsKeys(tagged, sorted, now);
    ReadyOrder(sorted, now);
    Items(sorted)
  }

  lemma SortedKeepsKeys(tagged: seq<Tagged<Job>>, sorted: seq<Tagged<Job>>, now: real)
    requires KeyedByReady(tagged, now) && multiset(sorted) == multiset(tagged)
    ensures KeyedByReady(sorted, now)
  {
    forall i | 0 <= i < |sorted| ensures sorted[i].key == ReadyKey(sorted[i].item, now) {
      assert sorted[i] in multiset(tagged);
    }
  }

  /** Ascending ready keys mean descending rank, then ascending arrival. */
  lemma ReadyOrder(s: seq<Tagged<Job>>, now: real)
    requires Sorted(s) && KeyedByReady(s, now)
    ensures forall i, j :: 0 <= i < j < |s| ==>
      PriorityValue(s[i].item.priority) >= PriorityValue(s[j].item.priority)
    ensures forall i, j :: 0 <= i < j < |s| && PriorityValue(s[i].item.priority) == PriorityValue(s[j].item.priority) ==>
      s[i].item.arrivalTime <= s[j].item.arrivalTime
  {
    forall i, j | 0 <= i < j < |s|
      ensures PriorityValue(s[i].item.priority) >= PriorityValue(s[j].item.priority)
      ensures PriorityValue(s[i].item.priority) == PriorityValue(s[j].item.priority) ==>
        s[i].item.arrivalTime <= s[j].item.arrivalTime
    {
      assert KeyLeq(s[i].key, s[j].key);
    }
  }

  lemma {:induction false} ItemsOfTagReady(jobs: seq<Job>, now: real)
    ensures Items(TagReady(jobs, now)) == jobs
  {
    if jobs != [] {
      ItemsOfTagReady(jobs[1..], now);
    }
  }

  lemma {:induction false} ItemsAppend<T>(s: seq<Tagged<T>>, t: seq<Tagged<T>>)
    ensures Items(s + t) == Items(s) + Items(t)
  {
    if s != [] {
      assert (s + t)[1..] == s[1..] + t;
      ItemsAppend(s[1..], t);
    }
  }

  function ItemOf<T>(x: Tagged<T>): multiset<T> {
    multiset{x.item}
  }

  lemma {:induction false} ItemsBag<T>(s: seq<Tagged<T>>)
    ensures multiset(Items(s)) == Bag(s, ItemOf)
  {
    if s != [] {
      ItemsBag(s[1..]);
      assert Items(s) == [s[0].item] + Items(s[1..]);
    }
  }

  /** Permuting tagged elements permutes their items. */
  lemma ItemsPermutation<T>(s: seq<Tagged<T>>, t: seq<Tagged<T>>)
    requires multiset(s) == multiset(t)
    ensures multiset(Items(s)) == multiset(Items(t))
  {
    ItemsBag(s);
    ItemsBag(t);
    BagPermutation(s, t, ItemOf);
  }

  /** The jobs of rank `v` that arrived at `t`, in their order in `jobs`. */
  function SameRank(jobs: seq<Job>, v: nat, t: real): seq<Job>
    reads jobs
  {
    if jobs == [] then []
    else
      (if PriorityValue(jobs[0].priority) == v && jobs[0].arrivalTime == t then [jobs[0]] else [])
      + SameRank(jobs[1..], v, t)
  }

  lemma {:induction false} SameRankIsWithKey(s: seq<Tagged<Job>>, now: real, v: nat, t: real)
    requires KeyedByReady(s, now)
    ensures SameRank(Items(s), v, t) == Items(WithKey(s, Key(-(v as real), -(now - t))))
  {
    if s != [] {
      assert KeyedByReady(s[1..], now) by {
        forall i | 0 <= i < |s[1..]| ensures s[1..][i].key == ReadyKey(s[1..][i].item, now) {
          assert s[1..][i] == s[i + 1];
        }
      }
      SameRankIsWithKey(s[1..], now, v, t);
      assert Items(s)[1..] == Items(s[1..]);
      var hd := if s[0].key == Key(-(v as real), -(now - t)) then [s[0]] else [];
      ItemsAppend(hd, WithKey(s[1..], Key(-(v as real), -(now - t))));
    }
  }

  /** Stability: jobs of equal priority rank and equal arrival time keep
      their input order. */
  lemma SortReadyQueueIsStable(jobs: seq<Job>, now: real, v: nat, t: real)
    ensures SameRank(SortReadyQueue(jobs, now), v, t) == SameRank(jobs, v, t)
  {
    var tagged := TagReady(jobs, now);
    var sorted := Sort(tagged);
    var k := Key(-(v as real), -(now - t));
    ItemsOfTagReady(jobs, now);
    SortedKeepsKeys(tagged, sorted, now);
    SameRankIsWithKey(sorted, now, v, t);
    SameRankIsWithKey(tagged, now, v, t);
    SortIsStable(tagged, k);
  }
}
