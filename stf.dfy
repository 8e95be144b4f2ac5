/** The shortest-remaining-time-first scheduler: the jobs are re-sorted by
    remaining time (higher priority first on ties), each is placed on the
    first node that can hold it, or else in place of a running job that has
    more remaining time, or as much remaining time and a lower priority, and
    whose node would then hold it. */
module Stf {
  import opened Common
  import opened Schemas
  import opened HeapQ
  import opened Sorting
  import opened JobUtils
  import opened Scheduling
  import opened Passes

  // ---------------------------------------------------------------------------
  // The re-sort at the start of `schedule`
  // ---------------------------------------------------------------------------

  /** The key `(remaining_time, -priority_value)` of the re-sort. */
  function RemainingKey(job: Job): Key
    reads job
  {
    Key(job.remainingTime, -(PriorityValue(job.priority) as real))
  }

  function TagRemaining(jobs: seq<Job>): (r: seq<Tagged<Job>>)
    reads jobs
    ensures |r| == |jobs|
    ensures forall i :: 0 <= i < |jobs| ==> r[i] == Tagged(RemainingKey(jobs[i]), jobs[i])
  {
    if jobs == [] then [] else [Tagged(RemainingKey(jobs[0]), jobs[0])] + TagRemaining(jobs[1..])
  }

  ghost predicate KeyedByRemaining(s: seq<Tagged<Job>>)
    reads set t | t in s :: t.item
  {
    forall i :: 0 <= i < |s| ==> s[i].key == RemainingKey(s[i].item)
  }

  /** `sorted(sorted_jobs, key=lambda job: (job.remaining_time,
      -priority_value(job.priority)))`: a permutation of the input with
      remaining times non-decreasing and, among equal remaining times,
      priority ranks non-increasing. */
  function ShortestFirst(jobs: seq<Job>): (r: seq<Job>)
    reads jobs
    ensures multiset(r) == multiset(jobs)
    ensures forall i, j :: 0 <= i < j < |r| ==> r[i].remainingTime <= r[j].remainingTime
    ensures forall i, j :: 0 <= i < j < |r| && r[i].remainingTime == r[j].remainingTime ==>
      PriorityValue(r[i].priority) >= PriorityValue(r[j].priority)
  {
    var tagged := TagRemaining(jobs);
    var sorted := Sort(tagged);
    ItemsOfTagRemaining(jobs);
    ItemsPermutation(tagged, sorted);
    SortedKeepsRemaining(tagged, sorted);
    RemainingOrder(sorted);
    Items(sorted)
  }

  lemma {:induction false} ItemsOfTagRemaining(jobs: seq<Job>)
    ensures Items(TagRemaining(jobs)) == jobs
  {
    if jobs != [] {
      ItemsOfTagRemaining(jobs[1..]);
    }
  }

  lemma SortedKeepsRemaining(tagged: seq<Tagged<Job>>, sorted: seq<Tagged<Job>>)
    requires KeyedByRemaining(tagged) && multiset(sorted) == multiset(tagged)
    ensures KeyedByRemaining(sorted)
  {
    forall i | 0 <= i < |sorted| ensures sorted[i].key == RemainingKey(sorted[i].item) {
      assert sorted[i] in multiset(tagged);
    }
  }

  /** Ascending keys mean ascending remaining time, then descending rank. */
  lemma RemainingOrder(s: seq<Tagged<Job>>)
    requires Sorted(s) && KeyedByRemaining(s)
    ensures forall i, j :: 0 <= i < j < |s| ==> s[i].item.remainingTime <= s[j].item.remainingTime
    ensures forall i, j :: 0 <= i < j < |s| && s[i].item.remainingTime == s[j].item.remainingTime ==>
      PriorityValue(s[i].item.priority) >= PriorityValue(s[j].item.priority)
  {
    forall i, j | 0 <= i < j < |s|
      ensures s[i].item.remainingTime <= s[j].item.remainingTime
      ensures s[i].item.remainingTime == s[j].item.remainingTime ==>
        PriorityValue(s[i].item.priority) >= PriorityValue(s[j].item.priority)
    {
      assert KeyLeq(s[i].key, s[j].key);
    }
  }

  /** The jobs with remaining time `t` and rank `v`, in their order in `jobs`. */
  function SameRemaining(jobs: seq<Job>, t: real, v: nat): seq<Job>
    reads jobs
  {
    if jobs == [] then []
    else
      (if jobs[0].remainingTime == t && PriorityValue(jobs[0].priority) == v then [jobs[0]] else [])
      + SameRemaining(jobs[1..], t, v)
  }

  lemma {:induction false} SameRemainingIsWithKey(s: seq<Tagged<Job>>, t: real, v: nat)
    requires KeyedByRemaining(s)
    ensures SameRemaining(Items(s), t, v) == Items(WithKey(s, Key(t, -(v as real))))
  {
    if s != [] {
      assert KeyedByRemaining(s[1..]) by {
        forall i | 0 <= i < |s[1..]| ensures s[1..][i].key == RemainingKey(s[1..][i].item) {
          assert s[1..][i] == s[i + 1];
        }
      }
      SameRemainingIsWithKey(s[1..], t, v);
      assert Items(s)[1..] == Items(s[1..]);
      var hd := if s[0].key == Key(t, -(v as real)) then [s[0]] else [];
      ItemsAppend(hd, WithKey(s[1..], Key(t, -(v as real))));
    }
  }

  /** Stability: jobs with equal remaining time and equal rank keep their
      input order. */
  lemma ShortestFirstIsStable(jobs: seq<Job>, t: real, v: nat)
    ensures SameRemaining(ShortestFirst(jobs), t, v) == SameRemaining(jobs, t, v)
  {
    var tagged := TagRemaining(jobs);
    var sorted := Sort(tagged);
    ItemsOfTagRemaining(jobs);
    SortedKeepsRemaining(tagged, sorted);
    SameRemainingIsWithKey(sorted, t, v);
    SameRemainingIsWithKey(tagged, t, v);
    SortIsStable(tagged, Key(t, -(v as real)));
  }

  // ---------------------------------------------------------------------------
  // Victims
  // ---------------------------------------------------------------------------

  /** `find_victim`'s test of one running entry: the incoming job has less
      remaining time than the victim, or as much and a strictly higher
      priority rank; and the node fits the incoming job once the victim is
      taken off. */
  predicate Qualifies(e: RunEntry, incoming: Job)
    reads e.item.node, e.item.job, incoming
  {
    && (|| incoming.remainingTime < e.item.job.remainingTime
        || (&& incoming.remainingTime == e.item.job.remainingTime
            && PriorityValue(incoming.priority) > PriorityValue(e.item.job.priority)))
    && FitsAfterRemoval(e, incoming)
  }

  /** A job never qualifies as its own victim. */
  lemma NeverOwnVictim(e: RunEntry, incoming: Job)
    requires Qualifies(e, incoming)
    ensures e.item.job != incoming
  {
  }

  /** None of the first `k` running entries qualifies. */
  ghost predicate NoneQualifiesBefore(running: seq<RunEntry>, incoming: Job, k: nat)
    reads RunNodes(running), JobsOf(running), incoming
  {
    forall m | 0 <= m < k && m < |running| :: !Qualifies(running[m], incoming)
  }

  /** `find_victim`: the first entry, in heap-list order, that qualifies;
      `None` when none does. */
  method FindVictim(incoming: Job, running: seq<RunEntry>) returns (idx: Option<nat>)
    ensures idx.Some? ==> idx.value < |running| && Qualifies(running[idx.value], incoming)
    ensures idx.Some? ==> NoneQualifiesBefore(running, incoming, idx.value)
    ensures idx.None? ==> NoneQualifiesBefore(running, incoming, |running|)
  {
    var k := 0;
    while k < |running|
      invariant 0 <= k <= |running|
      invariant NoneQualifiesBefore(running, incoming, k)
    {
      var node, victim := running[k].item.node, running[k].item.job;
      if || incoming.remainingTime < victim.remainingTime
         || (&& incoming.remainingTime == victim.remainingTime
             && PriorityValue(incoming.priority) > PriorityValue(victim.priority))
      {
        if && node.usedCpu - victim.cpu + incoming.cpu <= node.totalCpu
           && node.usedRam - victim.ram + incoming.ram <= node.totalRam
           && node.usedGpus - victim.gpus + incoming.gpus <= node.totalGpus
        {
          return Some(k);
        }
      }
      k := k + 1;
    }
    return None;
  }

  // ---------------------------------------------------------------------------
  // Allocation and preemption
  // ---------------------------------------------------------------------------

  /** `_allocate_job`: `node.allocate` (which raises `ValueError`, changing
      nothing, when the job does not fit), the start bookkeeping, the removal
      from the ready queue only when the job is there, and the push of
      `(now + remaining, job, node)` onto the running-jobs heap. Once the node
      fits the job, nothing raises. */
  method AllocateJob(node: Node, job: Job, ready: seq<Job>, running: seq<RunEntry>, now: real)
    returns (r: Outcome, ready': seq<Job>, running': seq<RunEntry>)
    modifies node, job
    ensures !old(node.CanAllocate(job)) ==>
      && r == Raised(ValueError) && ready' == ready && running' == running
      && node.UsageNow() == old(node.UsageNow()) && job.Fields() == old(job.Fields())
    ensures old(node.CanAllocate(job)) ==>
      && r == Ok
      && node.UsageNow() == Allocated(old(node.UsageNow()), job)
      && job.Fields() == Started(old(job.Fields()), now)
      && multiset(running') == multiset(running) + multiset{RunEntryOf(now + old(job.remainingTime), job, node)}
    ensures old(node.CanAllocate(job)) && job in ready ==> ready' == RemoveFirst(ready, job)
    ensures job !in ready ==> ready' == ready
    ensures IsHeap(running) ==> IsHeap(running')
    ensures old(node.Valid()) ==> node.Valid()
  {
    r := node.Allocate(job);
    if r.Raised? {
      return r, ready, running;
    }
    StartRunning(job, now);
    if job in ready {
      ready' := RemoveFirst(ready, job);
    } else {
      ready' := ready;
    }
    var finish := now + job.remainingTime;
    running' := HeapPush(running, RunEntryOf(finish, job, node));
  }

  /** `preempt_and_allocate` with a victim `find_victim` chose: the victim is
      evicted (its entry removed, its node released, its remaining time cut by
      the time it ran and floored at 0, its state and preemption time set, and
      it is appended to the ready queue), then the new job is allocated on the
      victim's node. When the victim's id was on its node, the node fits the
      new job after the release, so nothing raises. */
  method PreemptAndAllocate(victim: RunEntry, newJob: Job, ready: seq<Job>, running: seq<RunEntry>, now: real)
    returns (r: Outcome, ready': seq<Job>, running': seq<RunEntry>)
    requires victim in running && Qualifies(victim, newJob)
    modifies victim.item.node, victim.item.job, newJob
    ensures IsHeap(running')
    ensures old(victim.item.node.Valid()) ==> victim.item.node.Valid()
    ensures multiset(running') + multiset{victim} ==
      multiset(running) + (if r.Ok? then multiset{RunEntryOf(now + old(newJob.remainingTime), newJob, victim.item.node)} else multiset{})
    ensures Preempting(victim, newJob, false, now, ready, old(TouchedOf(victim, newJob)), r, ready', TouchedOf(victim, newJob))
    ensures multiset(running') <= multiset(running) + multiset{RunEntryOf(now + old(newJob.remainingTime), newJob, victim.item.node)}
    ensures old(SnapshotOf(victim)).Evictable(now) ==> r.Ok?
  {
    var node, vjob := victim.item.node, victim.item.job;
    NeverOwnVictim(victim, newJob);
    ghost var e := RunEntryOf(now + newJob.remainingTime, newJob, node);
    ghost var u0 := node.UsageNow();
    ghost var fits := vjob.id in node.runningJobs;
    if fits {
      FitAfterRemovalIsFitAfterRelease(node.totalCpu, node.totalRam, node.totalGpus, u0, vjob, newJob);
    }
    var running1;
    r, ready', running1 := Evict(victim, ready, running, now);
    if r.Raised? {
      assert multiset(running1) <= multiset(running);
      return r, ready', running1;
    }
    assert fits ==> node.CanAllocate(newJob);
    assert e == RunEntryOf(now + newJob.remainingTime, newJob, node);
    r, ready', running' := AllocateJob(node, newJob, ready', running1, now);
    if r.Ok? {
      EntryReplaced(running, running1, running', victim, e);
    } else {
      assert running' == running1;
    }
  }

  // ---------------------------------------------------------------------------
  // Scheduling
  // ---------------------------------------------------------------------------

  /** `_allocate_job` on node `k` of the cluster, which fits the job, as a
      step between views. */
  method Place(k: nat, job: Job, cluster: seq<Node>, ghost jobs: set<Job>, ready: seq<Job>, running: seq<RunEntry>, now: real)
    returns (r: Outcome, ready': seq<Job>, running': seq<RunEntry>)
    requires k < |cluster| && cluster[k].CanAllocate(job)
    requires Within(running, cluster, jobs) && job in jobs
    modifies cluster[k], job
    ensures Within(running', cluster, jobs)
    ensures IsHeap(running) ==> IsHeap(running')
    ensures old(cluster[k].Valid()) ==> cluster[k].Valid()
    ensures AllocatedIn(old(ViewOf(ready, running, cluster, jobs)), cluster[k], job, false, r, ViewOf(ready', running', cluster, jobs), now)
  {
    ghost var v := ViewOf(ready, running, cluster, jobs);
    var node := cluster[k];
    ghost var entry := RunEntryOf(now + job.remainingTime, job, node);
    r, ready', running' := AllocateJob(node, job, ready, running, now);
    ghost var v' := ViewOf(ready', running', cluster, jobs);
    assert v'.usage == v.usage[node := node.UsageNow()];
    assert v'.fields == v.fields[job := job.Fields()];
    WithinGrows(running, running', entry, cluster, jobs);
  }

  /** `preempt_and_allocate` of the running entry at heap index `i`, which
      qualifies, as a step between views. */
  method Preempt(i: nat, job: Job, cluster: seq<Node>, ghost jobs: set<Job>, ready: seq<Job>, running: seq<RunEntry>, now: real)
    returns (r: Outcome, ready': seq<Job>, running': seq<RunEntry>)
    requires i < |running| && Qualifies(running[i], job)
    requires Within(running, cluster, jobs) && job in jobs
    modifies running[i].item.node, running[i].item.job, job
    ensures Within(running', cluster, jobs)
    ensures IsHeap(running')
    ensures old(running[i].item.node.Valid()) ==> running[i].item.node.Valid()
    ensures PreemptedIn(old(ViewOf(ready, running, cluster, jobs)), running[i], job, false, r, ViewOf(ready', running', cluster, jobs), now)
  {
    ghost var v := ViewOf(ready, running, cluster, jobs);
    var e := running[i];
    var node, vjob := e.item.node, e.item.job;
    assert node in cluster && vjob in jobs;
    ghost var entry := EntryIn(v, job, node, now);
    assert v.usage[node] == node.UsageNow() && v.fields[vjob] == vjob.Fields() && v.fields[job] == job.Fields();
    r, ready', running' := PreemptAndAllocate(e, job, ready, running, now);
    ghost var v' := ViewOf(ready', running', cluster, jobs);
    assert v'.usage == v.usage[node := node.UsageNow()];
    assert v'.fields == v.fields[vjob := vjob.Fields()][job := job.Fields()];
    WithinGrows(running, running', entry, cluster, jobs);
  }

  /** The fallback of one pass of `schedule` when no node fits the job:
      preempt the first qualifying victim `find_victim` returns, or else
      leave everything as it is (the job waits in the ready queue). */
  method PreemptOrWait(job: Job, cluster: seq<Node>, ghost jobs: set<Job>, ready: seq<Job>, running: seq<RunEntry>, now: real)
    returns (r: Outcome, p: Placement, ready': seq<Job>, running': seq<RunEntry>)
    requires Within(running, cluster, jobs) && job in jobs
    modifies cluster, jobs
    ensures Within(running', cluster, jobs)
    ensures IsHeap(running) ==> IsHeap(running')
    ensures forall n | n in cluster :: old(n.Valid()) ==> n.Valid()
    ensures PreemptOrWaitIn(StfPolicy, old(ViewOf(ready, running, cluster, jobs)), job, p, r, ViewOf(ready', running', cluster, jobs), now)
  {
    ghost var v := ViewOf(ready, running, cluster, jobs);
    var victim := FindVictim(job, running);
    var k := if victim.Some? then victim.value else |running|;
    assert FirstVictimIn(StfPolicy, v, job, k) by {
      forall m | 0 <= m < k ensures !QualifiesIn(StfPolicy, running[m], v, job) {
        assert running[m] in running;
      }
      if k < |running| {
        assert running[k] in running;
      }
    }
    if victim.None? {
      return Ok, Waiting, ready, running;
    }
    assert running[k].item.node in cluster && running[k].item.job in jobs;
    r, ready', running' := Preempt(k, job, cluster, jobs, ready, running, now);
    p := PreemptedFor(k);
  }

  /** One pass of the outer loop of `schedule`: first-fit placement, else
      preemption of the first qualifying victim, else the job waits and
      nothing changes. */
  method ScheduleOne(job: Job, cluster: seq<Node>, ghost jobs: set<Job>, ready: seq<Job>, running: seq<RunEntry>, now: real)
    returns (r: Outcome, p: Placement, ready': seq<Job>, running': seq<RunEntry>)
    requires Within(running, cluster, jobs) && job in jobs
    modifies cluster, jobs
    ensures Within(running', cluster, jobs)
    ensures IsHeap(running) ==> IsHeap(running')
    ensures forall n | n in cluster :: old(n.Valid()) ==> n.Valid()
    ensures Step(StfPolicy, cluster, old(ViewOf(ready, running, cluster, jobs)), job, p, r, ViewOf(ready', running', cluster, jobs), now)
  {
    ghost var v := ViewOf(ready, running, cluster, jobs);
    var fit := FirstFit(cluster, job);
    var k := if fit.Some? then fit.value else |cluster|;
    assert FirstFitIn(cluster, v.usage, job, k) by {
      forall m | 0 <= m < k ensures !FitsIn(cluster[m], v.usage, job) {
        assert !cluster[m].CanAllocate(job);
      }
    }
    if fit.Some? {
      r, ready', running' := Place(k, job, cluster, jobs, ready, running, now);
      p := Placed(k);
    } else {
      r, p, ready', running' := PreemptOrWait(job, cluster, jobs, ready, running, now);
    }
  }

  /** A pass as the loop of `schedule` runs it: the run so far grows by the
      pass's `Step`. */
  method SchedulePass(job: Job, cluster: seq<Node>, ghost jobs: set<Job>, ready: seq<Job>, running: seq<RunEntry>, now: real,
                      ghost order: seq<Job>, ghost views: seq<View>, ghost trace: seq<Placement>)
    returns (r: Outcome, ready': seq<Job>, running': seq<RunEntry>, ghost views': seq<View>, ghost trace': seq<Placement>)
    requires Within(running, cluster, jobs) && job in jobs
    requires Run(StfPolicy, cluster, order, views, trace, Ok, now) && views[|views| - 1] == ViewOf(ready, running, cluster, jobs)
    modifies cluster, jobs
    ensures Within(running', cluster, jobs)
    ensures IsHeap(running) ==> IsHeap(running')
    ensures forall n | n in cluster :: old(n.Valid()) ==> n.Valid()
    ensures Run(StfPolicy, cluster, order + [job], views', trace', r, now) && |trace'| == |trace| + 1
    ensures views'[0] == views[0] && views'[|views'| - 1] == ViewOf(ready', running', cluster, jobs)
  {
    var p;
    r, p, ready', running' := ScheduleOne(job, cluster, jobs, ready, running, now);
    ghost var v' := ViewOf(ready', running', cluster, jobs);
    RunGrows(StfPolicy, cluster, order, views, trace, job, p, r, v', now);
    views', trace' := views + [v'], trace + [p];
  }

  /** The outer loop of `schedule` over the re-sorted jobs `order`: each
      is taken once, in order, as the run of `Step`s from the state before
      to the state after says; an exception ends the loop. */
  method SchedulePasses(cluster: seq<Node>, ghost jobs: set<Job>, order: seq<Job>, ready: seq<Job>, running: seq<RunEntry>, now: real)
    returns (r: Outcome, ready': seq<Job>, running': seq<RunEntry>, ghost blame: Option<Snapshot>,
             ghost views: seq<View>, ghost trace: seq<Placement>)
    requires Within(running, cluster, jobs) && forall j | j in order :: j in jobs
    modifies cluster, jobs
    ensures Within(running', cluster, jobs)
    ensures IsHeap(running) ==> IsHeap(running')
    ensures forall n | n in cluster :: old(n.Valid()) ==> n.Valid()
    ensures Run(StfPolicy, cluster, order, views, trace, r, now)
    ensures views[0] == old(ViewOf(ready, running, cluster, jobs))
    ensures views[|views| - 1] == ViewOf(ready', running', cluster, jobs)
    ensures r.Raised? ==> Blamed(views, trace, blame, now)
    ensures r.Ok? && multiset(order) <= multiset(ready) ==>
      multiset(ready') + RunJobs(running') == multiset(ready) + RunJobs(running)
  {
    r, ready', running' := Ok, ready, running;
    views, trace := [ViewOf(ready, running, cluster, jobs)], [];
    var i := 0;
    while i < |order|
      invariant 0 <= i <= |order| && r == Ok
      invariant Within(running', cluster, jobs)
      invariant IsHeap(running) ==> IsHeap(running')
      invariant forall n | n in cluster :: old(n.Valid()) ==> n.Valid()
      invariant Run(StfPolicy, cluster, order[..i], views, trace, Ok, now)
      invariant views[0] == old(ViewOf(ready, running, cluster, jobs))
      invariant views[|views| - 1] == ViewOf(ready', running', cluster, jobs)
    {
      r, ready', running', views, trace :=
        SchedulePass(order[i], cluster, jobs, ready', running', now, order[..i], views, trace);
      assert order[..i] + [order[i]] == order[..i + 1];
      if r.Raised? {
        break;
      }
      i := i + 1;
    }
    blame := RunFinished(StfPolicy, cluster, order, views, trace, r, now);
  }

  /** `schedule`: the jobs of `sorted` are re-sorted by `ShortestFirst` into
      `order` and taken once each in that order, each placed first-fit,
      placed by preemption, or left waiting, as the run of `Step`s from the
      state before to the state after says; an exception ends the pass. The
      pass raises only in a last step that preempted a victim with no last
      start time or not listed on its node, and `blame` is that victim as it
      was when chosen. When every job of `sorted` is in the ready queue, a
      pass that does not raise only moves jobs between the ready queue and
      the running-jobs heap. */
  method Schedule(cluster: seq<Node>, ghost jobs: set<Job>, sorted: seq<Job>, ready: seq<Job>, running: seq<RunEntry>, now: real)
    returns (r: Outcome, ready': seq<Job>, running': seq<RunEntry>, ghost blame: Option<Snapshot>,
             ghost order: seq<Job>, ghost views: seq<View>, ghost trace: seq<Placement>)
    requires Within(running, cluster, jobs) && forall j | j in sorted :: j in jobs
    modifies cluster, jobs
    ensures Within(running', cluster, jobs)
    ensures IsHeap(running) ==> IsHeap(running')
    ensures forall n | n in cluster :: old(n.Valid()) ==> n.Valid()
    ensures order == old(ShortestFirst(sorted))
    ensures Run(StfPolicy, cluster, order, views, trace, r, now)
    ensures views[0] == old(ViewOf(ready, running, cluster, jobs))
    ensures views[|views| - 1] == ViewOf(ready', running', cluster, jobs)
    ensures r.Raised? ==> Blamed(views, trace, blame, now)
    ensures r.Ok? && multiset(sorted) <= multiset(ready) ==>
      multiset(ready') + RunJobs(running') == multiset(ready) + RunJobs(running)
  {
    var queue := ShortestFirst(sorted);
    order := queue;
    forall j | j in queue ensures j in jobs {
      assert j in multiset(sorted);
    }
    r, ready', running', blame, views, trace := SchedulePasses(cluster, jobs, queue, ready, running, now);
  }
}
