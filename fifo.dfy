/** The FIFO scheduler: jobs are taken in ready-queue order, each placed on
    the first node that can hold it, or else in place of a running job of
    strictly lower priority whose node would then hold it. */
module Fifo {
  import opened Common
  import opened Schemas
  import opened HeapQ
  import opened JobUtils
  import opened Scheduling
  import opened Passes

  /** `find_victim`'s test of one running entry: the victim's priority rank
      is strictly below the incoming job's and the node fits the incoming job
      once the victim is taken off. */
  predicate Qualifies(e: RunEntry, incoming: Job)
    reads e.item.node
  {
    PriorityValue(e.item.job.priority) < PriorityValue(incoming.priority) && FitsAfterRemoval(e, incoming)
  }

  /** None of the first `k` running entries qualifies. */
  ghost predicate NoneQualifiesBefore(running: seq<RunEntry>, incoming: Job, k: nat)
    reads RunNodes(running)
  {
    forall m | 0 <= m < k && m < |running| :: !Qualifies(running[m], incoming)
  }

  /** `find_victim`: the first entry, in heap-list order, that qualifies;
      `None` when none does. */
  method FindVictim(incoming: Job, running: seq<RunEntry>) returns (idx: Option<nat>)
    ensures idx.Some? ==> idx.value < |running| && Qualifies(running[idx.value], incoming)
    ensures idx.Some? ==> NoneQualifiesBefore(running, incoming, idx.value)
    ensures idx.None? ==> NoneQualifiesBefore(running, incoming, |running|)
  {
    var k := 0;
    while k < |running|
      invariant 0 <= k <= |running|
      invariant NoneQualifiesBefore(running, incoming, k)
    {
      var node, victim := running[k].item.node, running[k].item.job;
      if PriorityValue(victim.priority) < PriorityValue(incoming.priority) {
        if && node.usedCpu - victim.cpu + incoming.cpu <= node.totalCpu
           && node.usedRam - victim.ram + incoming.ram <= node.totalRam
           && node.usedGpus - victim.gpus + incoming.gpus <= node.totalGpus
        {
          return Some(k);
        }
      }
      k := k + 1;
    }
    return None;
  }

  /** `_allocate_job`: `node.allocate` (which raises `ValueError`, changing
      nothing, when the job does not fit), the start bookkeeping, the
      unconditional `remove` from the ready queue (which raises `ValueError`
      when the job is not there), and the push of `(now + remaining, job,
      node)` onto the running-jobs heap. */
  method AllocateJob(node: Node, job: Job, ready: seq<Job>, running: seq<RunEntry>, now: real)
    returns (r: Outcome, ready': seq<Job>, running': seq<RunEntry>)
    modifies node, job
    ensures !old(node.CanAllocate(job)) ==>
      && r == Raised(ValueError) && ready' == ready && running' == running
      && node.UsageNow() == old(node.UsageNow()) && job.Fields() == old(job.Fields())
    ensures old(node.CanAllocate(job)) ==>
      && node.UsageNow() == Allocated(old(node.UsageNow()), job)
      && job.Fields() == Started(old(job.Fields()), now)
    ensures old(node.CanAllocate(job)) && job !in ready ==>
      r == Raised(ValueError) && ready' == ready && running' == running
    ensures old(node.CanAllocate(job)) && job in ready ==>
      && r == Ok && ready' == RemoveFirst(ready, job)
      && multiset(running') == multiset(running) + multiset{RunEntryOf(now + old(job.remainingTime), job, node)}
    ensures IsHeap(running) ==> IsHeap(running')
    ensures old(node.Valid()) ==> node.Valid()
  {
    r := node.Allocate(job);
    if r.Raised? {
      return r, ready, running;
    }
    StartRunning(job, now);
    if job !in ready {
      return Raised(ValueError), ready, running;
    }
    ready' := RemoveFirst(ready, job);
    var finish := now + job.remainingTime;
    running' := HeapPush(running, RunEntryOf(finish, job, node));
  }

  /** `preempt_and_allocate` with a victim `find_victim` chose: the victim is
      evicted (its entry removed, its node released, its bookkeeping updated,
      and it is appended to the ready queue), then the new job is allocated
      on the victim's node. When the victim's id was on its node, the node
      fits the new job after the release, so the allocation cannot raise;
      the unconditional `remove` then raises exactly when the new job is not
      in the ready queue. */
  method PreemptAndAllocate(victim: RunEntry, newJob: Job, ready: seq<Job>, running: seq<RunEntry>, now: real)
    returns (r: Outcome, ready': seq<Job>, running': seq<RunEntry>)
    requires victim in running && Qualifies(victim, newJob)
    modifies victim.item.node, victim.item.job, newJob
    ensures IsHeap(running')
    ensures old(victim.item.node.Valid()) ==> victim.item.node.Valid()
    ensures multiset(running') + multiset{victim} ==
      multiset(running) + (if r.Ok? then multiset{RunEntryOf(now + old(newJob.remainingTime), newJob, victim.item.node)} else multiset{})
    ensures Preempting(victim, newJob, true, now, ready, old(TouchedOf(victim, newJob)), r, ready', TouchedOf(victim, newJob))
    ensures multiset(running') <= multiset(running) + multiset{RunEntryOf(now + old(newJob.remainingTime), newJob, victim.item.node)}
    ensures newJob !in ready ==> r.Raised?
    ensures old(SnapshotOf(victim)).Evictable(now) ==> (r.Ok? <==> newJob in ready)
  {
    var node, vjob := victim.item.node, victim.item.job;
    assert vjob != newJob;
    ghost var e := RunEntryOf(now + newJob.remainingTime, newJob, node);
    ghost var u0 := node.UsageNow();
    ghost var fits := vjob.id in node.runningJobs;
    if fits {
      FitAfterRemovalIsFitAfterRelease(node.totalCpu, node.totalRam, node.totalGpus, u0, vjob, newJob);
    }
    var running1;
    r, ready', running1 := Evict(victim, ready, running, now);
    if r.Raised? {
      assert multiset(running1) <= multiset(running);
      return r, ready', running1;
    }
    assert fits ==> node.CanAllocate(newJob);
    assert newJob in ready' <==> newJob in ready;
    assert e == RunEntryOf(now + newJob.remainingTime, newJob, node);
    r, ready', running' := AllocateJob(node, newJob, ready', running1, now);
    if r.Ok? {
      EntryReplaced(running, running1, running', victim, e);
    } else {
      assert running' == running1;
    }
  }

  /** `_allocate_job` on node `k` of the cluster, which fits the job, as a
      step between views. */
  method Place(k: nat, job: Job, cluster: seq<Node>, ghost jobs: set<Job>, ready: seq<Job>, running: seq<RunEntry>, now: real)
    returns (r: Outcome, ready': seq<Job>, running': seq<RunEntry>)
    requires k < |cluster| && cluster[k].CanAllocate(job)
    requires Within(running, cluster, jobs) && job in jobs
    modifies cluster[k], job
    ensures Within(running', cluster, jobs)
    ensures IsHeap(running) ==> IsHeap(running')
    ensures old(cluster[k].Valid()) ==> cluster[k].Valid()
    ensures AllocatedIn(old(ViewOf(ready, running, cluster, jobs)), cluster[k], job, true, r, ViewOf(ready', running', cluster, jobs), now)
  {
    ghost var v := ViewOf(ready, running, cluster, jobs);
    var node := cluster[k];
    ghost var entry := RunEntryOf(now + job.remainingTime, job, node);
    r, ready', running' := AllocateJob(node, job, ready, running, now);
    ghost var v' := ViewOf(ready', running', cluster, jobs);
    assert v'.usage == v.usage[node := node.UsageNow()];
    assert v'.fields == v.fields[job := job.Fields()];
    WithinGrows(running, running', entry, cluster, jobs);
  }

  /** `preempt_and_allocate` of the running entry at heap index `i`, which
      qualifies, as a step between views. */
  method Preempt(i: nat, job: Job, cluster: seq<Node>, ghost jobs: set<Job>, ready: seq<Job>, running: seq<RunEntry>, now: real)
    returns (r: Outcome, ready': seq<Job>, running': seq<RunEntry>)
    requires i < |running| && Qualifies(running[i], job)
    requires Within(running, cluster, jobs) && job in jobs
    modifies running[i].item.node, running[i].item.job, job
    ensures Within(running', cluster, jobs)
    ensures IsHeap(running')
    ensures old(running[i].item.node.Valid()) ==> running[i].item.node.Valid()
    ensures PreemptedIn(old(ViewOf(ready, running, cluster, jobs)), running[i], job, true, r, ViewOf(ready', running', cluster, jobs), now)
  {
    ghost var v := ViewOf(ready, running, cluster, jobs);
    var e := running[i];
    var node, vjob := e.item.node, e.item.job;
    assert node in cluster && vjob in jobs;
    ghost var entry := EntryIn(v, job, node, now);
    assert v.usage[node] == node.UsageNow() && v.fields[vjob] == vjob.Fields() && v.fields[job] == job.Fields();
    r, ready', running' := PreemptAndAllocate(e, job, ready, running, now);
    ghost var v' := ViewOf(ready', running', cluster, jobs);
    assert v'.usage == v.usage[node := node.UsageNow()];
    assert v'.fields == v.fields[vjob := vjob.Fields()][job := job.Fields()];
    WithinGrows(running, running', entry, cluster, jobs);
  }

  /** The fallback of one pass of `schedule` when no node fits the job:
      preempt the first qualifying victim `find_victim` returns, or else
      leave everything as it is (the job waits in the ready queue). */
  method PreemptOrWait(job: Job, cluster: seq<Node>, ghost jobs: set<Job>, ready: seq<Job>, running: seq<RunEntry>, now: real)
    returns (r: Outcome, p: Placement, ready': seq<Job>, running': seq<RunEntry>)
    requires Within(running, cluster, jobs) && job in jobs
    modifies cluster, jobs
    ensures Within(running', cluster, jobs)
    ensures IsHeap(running) ==> IsHeap(running')
    ensures forall n | n in cluster :: old(n.Valid()) ==> n.Valid()
    ensures PreemptOrWaitIn(FifoPolicy, old(ViewOf(ready, running, cluster, jobs)), job, p, r, ViewOf(ready', running', cluster, jobs), now)
  {
    ghost var v := ViewOf(ready, running, cluster, jobs);
    var victim := FindVictim(job, running);
    var k := if victim.Some? then victim.value else |running|;
    assert FirstVictimIn(FifoPolicy, v, job, k) by {
      forall m | 0 <= m < k ensures !QualifiesIn(FifoPolicy, running[m], v, job) {
        assert running[m] in running;
      }
      if k < |running| {
        assert running[k] in running;
      }
    }
    if victim.None? {
      return Ok, Waiting, ready, running;
    }
    assert running[k].item.node in cluster && running[k].item.job in jobs;
    r, ready', running' := Preempt(k, job, cluster, jobs, ready, running, now);
    p := PreemptedFor(k);
  }

  /** One pass of the outer loop of `schedule`: first-fit placement, else
      preemption of the first qualifying victim, else the job waits and
      nothing changes. */
  method ScheduleOne(job: Job, cluster: seq<Node>, ghost jobs: set<Job>, ready: seq<Job>, running: seq<RunEntry>, now: real)
    returns (r: Outcome, p: Placement, ready': seq<Job>, running': seq<RunEntry>)
    requires Within(running, cluster, jobs) && job in jobs
    modifies cluster, jobs
    ensures Within(running', cluster, jobs)
    ensures IsHeap(running) ==> IsHeap(running')
    ensures forall n | n in cluster :: old(n.Valid()) ==> n.Valid()
    ensures Step(FifoPolicy, cluster, old(ViewOf(ready, running, cluster, jobs)), job, p, r, ViewOf(ready', running', cluster, jobs), now)
  {
    ghost var v := ViewOf(ready, running, cluster, jobs);
    var fit := FirstFit(cluster, job);
    var k := if fit.Some? then fit.value else |cluster|;
    assert FirstFitIn(cluster, v.usage, job, k) by {
      forall m | 0 <= m < k ensures !FitsIn(cluster[m], v.usage, job) {
        assert !cluster[m].CanAllocate(job);
      }
    }
    if fit.Some? {
      r, ready', running' := Place(k, job, cluster, jobs, ready, running, now);
      p := Placed(k);
    } else {
      r, p, ready', running' := PreemptOrWait(job, cluster, jobs, ready, running, now);
    }
  }

  /** A pass as the loop of `schedule` runs it: the run so far grows by the
      pass's `Step`. */
  method SchedulePass(job: Job, cluster: seq<Node>, ghost jobs: set<Job>, ready: seq<Job>, running: seq<RunEntry>, now: real,
                      ghost order: seq<Job>, ghost views: seq<View>, ghost trace: seq<Placement>)
    returns (r: Outcome, ready': seq<Job>, running': seq<RunEntry>, ghost views': seq<View>, ghost trace': seq<Placement>)
    requires Within(running, cluster, jobs) && job in jobs
    requires Run(FifoPolicy, cluster, order, views, trace, Ok, now) && views[|views| - 1] == ViewOf(ready, running, cluster, jobs)
    modifies cluster, jobs
    ensures Within(running', cluster, jobs)
    ensures IsHeap(running) ==> IsHeap(running')
    ensures forall n | n in cluster :: old(n.Valid()) ==> n.Valid()
    ensures Run(FifoPolicy, cluster, order + [job], views', trace', r, now) && |trace'| == |trace| + 1
    ensures views'[0] == views[0] && views'[|views'| - 1] == ViewOf(ready', running', cluster, jobs)
  {
    var p;
    r, p, ready', running' := ScheduleOne(job, cluster, jobs, ready, running, now);
    ghost var v' := ViewOf(ready', running', cluster, jobs);
    RunGrows(FifoPolicy, cluster, order, views, trace, job, p, r, v', now);
    views', trace' := views + [v'], trace + [p];
  }

  /** `schedule`: the jobs of `sorted` are taken once each, in order, each
      placed first-fit, placed by preemption, or left waiting, as the run of
      `Step`s from the state before to the state after says; an exception
      ends the pass. A pass that does not raise only moves jobs between the
      ready queue and the running-jobs heap. When every job of `sorted` is in
      the ready queue, the unconditional `remove` never raises: the pass
      raises only in a last step that preempted a victim with no last start
      time or not listed on its node, and `blame` is that victim as it was
      when chosen. */
  method Schedule(cluster: seq<Node>, ghost jobs: set<Job>, sorted: seq<Job>, ready: seq<Job>, running: seq<RunEntry>, now: real)
    returns (r: Outcome, ready': seq<Job>, running': seq<RunEntry>, ghost blame: Option<Snapshot>,
             ghost views: seq<View>, ghost trace: seq<Placement>)
    requires Within(running, cluster, jobs) && forall j | j in sorted :: j in jobs
    modifies cluster, jobs
    ensures Within(running', cluster, jobs)
    ensures IsHeap(running) ==> IsHeap(running')
    ensures forall n | n in cluster :: old(n.Valid()) ==> n.Valid()
    ensures Run(FifoPolicy, cluster, sorted, views, trace, r, now)
    ensures views[0] == old(ViewOf(ready, running, cluster, jobs))
    ensures views[|views| - 1] == ViewOf(ready', running', cluster, jobs)
    ensures r.Ok? ==> multiset(ready') + RunJobs(running') == multiset(ready) + RunJobs(running)
    ensures multiset(sorted) <= multiset(ready) && r.Raised? ==> Blamed(views, trace, blame, now)
  {
    r, ready', running' := Ok, ready, running;
    views, trace := [ViewOf(ready, running, cluster, jobs)], [];
    var i := 0;
    while i < |sorted|
      invariant 0 <= i <= |sorted| && r == Ok
      invariant Within(running', cluster, jobs)
      invariant IsHeap(running) ==> IsHeap(running')
      invariant forall n | n in cluster :: old(n.Valid()) ==> n.Valid()
      invariant Run(FifoPolicy, cluster, sorted[..i], views, trace, Ok, now)
      invariant views[0] == old(ViewOf(ready, running, cluster, jobs))
      invariant views[|views| - 1] == ViewOf(ready', running', cluster, jobs)
    {
      r, ready', running', views, trace :=
        SchedulePass(sorted[i], cluster, jobs, ready', running', now, sorted[..i], views, trace);
      assert sorted[..i] + [sorted[i]] == sorted[..i + 1];
      if r.Raised? {
        break;
      }
      i := i + 1;
    }
    blame := RunFinished(FifoPolicy, cluster, sorted, views, trace, r, now);
  }
}
