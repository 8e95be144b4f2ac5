/** What the FIFO and shortest-remaining-time-first schedulers share: the
    running-jobs heap of `(finish_time, job, node)` entries, first-fit
    placement, the wait-time accounting of a start, and taking a victim off
    its node. */
module Scheduling {
  import opened Common
  import opened Schemas
  import opened HeapQ

  /** What one pass of the outer `schedule` loop did with a job: placed it
      on the node at this cluster index, preempted the running-jobs entry at
      this heap index for it, or left it waiting. */
  datatype Placement = Placed(node: nat) | PreemptedFor(victim: nat) | Waiting

  /** The job and node of a running-jobs entry. */
  datatype RunItem = RunItem(job: Job, node: Node)

  /** A running-jobs heap entry, keyed by finish time. */
  type RunEntry = Entry<RunItem>

  /** The entry `(finish_time, job, node)` that `_allocate_job` pushes. */
  function RunEntryOf(finish: real, job: Job, node: Node): RunEntry {
    Entry(finish, 0, RunItem(job, node))
  }

  function RunJob(e: RunEntry): multiset<Job> {
    multiset{e.item.job}
  }

  /** The jobs of the running-jobs entries, with multiplicity. */
  function RunJobs(running: seq<RunEntry>): multiset<Job> {
    if running == [] then multiset{} else RunJob(running[0]) + RunJobs(running[1..])
  }

  lemma {:induction false} RunJobsIsBag(running: seq<RunEntry>)
    ensures RunJobs(running) == Bag(running, RunJob)
  {
    if running != [] {
      RunJobsIsBag(running[1..]);
    }
  }

  /** One more running entry, one more running job. */
  lemma RunJobsAddOne(s: seq<RunEntry>, t: seq<RunEntry>, x: RunEntry)
    requires multiset(t) == multiset(s) + multiset{x}
    ensures RunJobs(t) == RunJobs(s) + multiset{x.item.job}
  {
    RunJobsIsBag(s);
    RunJobsIsBag(t);
    BagAddOne(s, t, x, RunJob);
  }

  function JobsOf(running: seq<RunEntry>): set<Job> {
    set e | e in running :: e.item.job
  }

  function NodesOf(cluster: seq<Node>): set<Node> {
    set n | n in cluster
  }

  function RunNodes(running: seq<RunEntry>): set<Node> {
    set e | e in running :: e.item.node
  }

  /** Every running entry is on a node of the cluster and runs one of
      `jobs`. */
  ghost predicate Within(running: seq<RunEntry>, cluster: seq<Node>, jobs: set<Job>) {
    forall e | e in running :: e.item.node in cluster && e.item.job in jobs
  }

  /** Entries taken from a heap within the cluster, plus one entry within
      it, are within it. */
  lemma WithinGrows(running: seq<RunEntry>, running': seq<RunEntry>, e: RunEntry, cluster: seq<Node>, jobs: set<Job>)
    requires Within(running, cluster, jobs) && e.item.node in cluster && e.item.job in jobs
    requires multiset(running') <= multiset(running) + multiset{e}
    ensures Within(running', cluster, jobs)
  {
    forall x | x in running' ensures x.item.node in cluster && x.item.job in jobs {
      assert x in multiset(running');
    }
  }

  ghost predicate NodesValid(nodes: set<Node>)
    reads nodes
  {
    forall n | n in nodes :: n.Valid()
  }

  /** The bookkeeping of one start (`_allocate_job` after `node.allocate`):
      a first start records the start time and the wait since arrival; a
      resume with a (truthy) preemption time adds the wait since preemption
      and clears it; in every case the job is running from `now`. */
  function Started(f: JobFields, now: real): JobFields {
    var f1 :=
      if f.startTime.None? then
        f.(startTime := Some(now), waitTime := now - f.arrivalTime)
      else if Truthy(f.preemptionTime) then
        f.(waitTime := f.waitTime + (now - f.preemptionTime.value), preemptionTime := None)
      else
        f;
    f1.(lastStartTime := Some(now), state := Running)
  }

  function Max0(x: real): real {
    if x < 0.0 then 0.0 else x
  }

  /** The victim's bookkeeping in `preempt_and_allocate`: `None` when it has
      no last start time (the subtraction raises `TypeError`); otherwise the
      time run since then comes off the remaining time, floored at 0, and it
      is preempted as of `now`. */
  function Evicted(f: JobFields, now: real): Option<JobFields> {
    if f.lastStartTime.None? then None
    else
      Some(f.(remainingTime := Max0(f.remainingTime - (now - f.lastStartTime.value)),
              state := Preempted, preemptionTime := Some(now)))
  }

  /** A preempted victim never has a negative remaining time, never more
      than before when the clock has not gone back, and a later resume counts
      the time it waited since the preemption. */
  lemma EvictedAccounting(f: JobFields, now: real, later: real)
    requires Evicted(f, now).Some?
    ensures 0.0 <= Evicted(f, now).value.remainingTime
    ensures now >= f.lastStartTime.value ==> Evicted(f, now).value.remainingTime <= Max0(f.remainingTime)
    ensures f.startTime.Some? && now != 0.0 ==>
      Started(Evicted(f, now).value, later).waitTime == f.waitTime + (later - now)
  {
  }

  /** A job that starts at `t1`, is preempted at `p` and resumes at `t2`
      has waited `(t1 - arrival) + (t2 - p)` and keeps its first start time;
      its remaining time lost exactly the `p - t1` it ran, floored at 0. */
  lemma WaitAccountingOverPreemption(f: JobFields, t1: real, p: real, t2: real)
    requires f.startTime.None? && p != 0.0
    ensures Evicted(Started(f, t1), p).Some?
    ensures var g := Evicted(Started(f, t1), p).value;
      && g.remainingTime == Max0(f.remainingTime - (p - t1))
      && Started(g, t2).waitTime == (t1 - f.arrivalTime) + (t2 - p)
      && Started(g, t2).startTime == Some(t1)
      && Started(g, t2).preemptionTime == None
  {
    var s := Started(f, t1);
    assert s.lastStartTime == Some(t1) && s.startTime == Some(t1);
    assert s.waitTime == t1 - f.arrivalTime;
  }

  /** The start bookkeeping applied to a job object. */
  method StartRunning(job: Job, now: real)
    modifies job
    ensures job.Fields() == Started(old(job.Fields()), now)
  {
    if job.startTime.None? {
      job.startTime := Some(now);
      job.waitTime := now - job.arrivalTime;
    } else if Truthy(job.preemptionTime) {
      job.waitTime := job.waitTime + (now - job.preemptionTime.value);
      job.preemptionTime := None;
    }
    job.lastStartTime := Some(now);
    job.state := Running;
  }

  /** None of the first `k` nodes of the cluster can allocate the job. */
  ghost predicate NoneFitsBefore(cluster: seq<Node>, job: Job, k: nat)
    reads cluster
  {
    forall m | 0 <= m < k && m < |cluster| :: !cluster[m].CanAllocate(job)
  }

  /** The inner placement loop of `schedule`: the first node, in cluster
      order, that `can_allocate` the job; `None` when no node can. */
  method FirstFit(cluster: seq<Node>, job: Job) returns (idx: Option<nat>)
    ensures idx.Some? ==> idx.value < |cluster| && cluster[idx.value].CanAllocate(job)
    ensures idx.Some? ==> NoneFitsBefore(cluster, job, idx.value)
    ensures idx.None? ==> NoneFitsBefore(cluster, job, |cluster|)
  {
    var k := 0;
    while k < |cluster|
      invariant 0 <= k <= |cluster|
      invariant NoneFitsBefore(cluster, job, k)
    {
      if cluster[k].CanAllocate(job) {
        return Some(k);
      }
      k := k + 1;
    }
    return None;
  }

  /** The victim-search fit test: with the victim's requests taken off, the
      node's totals cover the incoming job in cpu, ram and gpus. */
  predicate FitsAfterRemoval(e: RunEntry, incoming: Job)
    reads e.item.node
  {
    RoomAfterRemoval(e, e.item.node.UsageNow(), incoming)
  }

  /** The victim-search fit test against a given usage of the victim's
      node. */
  predicate RoomAfterRemoval(e: RunEntry, u: Usage, incoming: Job) {
    var node, victim := e.item.node, e.item.job;
    && u.cpu - victim.cpu + incoming.cpu <= node.totalCpu
    && u.ram - victim.ram + incoming.ram <= node.totalRam
    && u.gpus - victim.gpus + incoming.gpus <= node.totalGpus
  }

  /** A running entry as it is at one moment: the entry, its job's fields
      and the ids listed on its node. */
  datatype Snapshot = Snapshot(entry: RunEntry, fields: JobFields, listed: seq<string>) {
    /** Evicting it goes through: the job has a last start time and its id
        is listed on its node, so the release frees its requests. */
    predicate Evictable(now: real) {
      Evicted(fields, now).Some? && entry.item.job.id in listed
    }
  }

  function SnapshotOf(e: RunEntry): Snapshot
    reads e.item.job, e.item.node
  {
    Snapshot(e, e.item.job.Fields(), e.item.node.runningJobs)
  }

  /** The first half of `preempt_and_allocate`: the victim's entry leaves the
      heap (first equal entry removed, then `heapify`), its node releases it,
      and then its remaining time, state and preemption time are updated and
      it joins the ready queue; a victim without a last start time raises
      `TypeError` after the heap and the node have changed. */
  method Evict(victim: RunEntry, ready: seq<Job>, running: seq<RunEntry>, now: real)
    returns (r: Outcome, ready': seq<Job>, running': seq<RunEntry>)
    requires victim in running
    modifies victim.item.node, victim.item.job
    ensures IsHeap(running') && multiset(running') + multiset{victim} == multiset(running)
    ensures victim.item.node.UsageNow() == Released(old(victim.item.node.UsageNow()), victim.item.job)
    ensures old(victim.item.node.Valid()) ==> victim.item.node.Valid()
    ensures Evicted(old(victim.item.job.Fields()), now).None? ==>
      && r == Raised(TypeError) && ready' == ready
      && victim.item.job.Fields() == old(victim.item.job.Fields())
    ensures Evicted(old(victim.item.job.Fields()), now).Some? ==>
      && r == Ok && ready' == ready + [victim.item.job]
      && victim.item.job.Fields() == Evicted(old(victim.item.job.Fields()), now).value
  {
    var job, node := victim.item.job, victim.item.node;
    running' := TakeOff(running, victim);
    node.Release(job);
    if job.lastStartTime.None? {
      return Raised(TypeError), ready, running';
    }
    MarkPreempted(job, now);
    ready' := ready + [job];
    r := Ok;
  }

  /** `running_jobs.remove(victim_tuple)` followed by `heapify`. */
  method TakeOff(running: seq<RunEntry>, victim: RunEntry) returns (running': seq<RunEntry>)
    requires victim in running
    ensures IsHeap(running') && multiset(running') + multiset{victim} == multiset(running)
  {
    running' := Heapify(RemoveFirst(running, victim));
  }

  /** The victim's bookkeeping applied to a job that has a last start time. */
  method MarkPreempted(job: Job, now: real)
    requires job.lastStartTime.Some?
    modifies job
    ensures Evicted(old(job.Fields()), now).Some?
    ensures job.Fields() == Evicted(old(job.Fields()), now).value
  {
    var elapsed := now - job.lastStartTime.value;
    job.remainingTime := Max0(job.remainingTime - elapsed);
    job.state := Preempted;
    job.preemptionTime := Some(now);
  }

  // ---------------------------------------------------------------------------
  // A pass of `schedule` as a step between values
  // ---------------------------------------------------------------------------

  /** What a pass of `schedule` reads and changes, as values: the ready
      queue, the running-jobs heap, the usage of every node of the cluster
      and the fields of every known job. */
  datatype View = View(ready: seq<Job>, running: seq<RunEntry>, usage: map<Node, Usage>, fields: map<Job, JobFields>)

  function UsageMap(cluster: seq<Node>): map<Node, Usage>
    reads cluster
  {
    map n | n in cluster :: n.UsageNow()
  }

  function FieldsMap(jobs: set<Job>): map<Job, JobFields>
    reads jobs
  {
    map j | j in jobs :: j.Fields()
  }

  /** The view of the state as it is now. */
  function ViewOf(ready: seq<Job>, running: seq<RunEntry>, cluster: seq<Node>, jobs: set<Job>): View
    reads cluster, jobs
  {
    View(ready, running, UsageMap(cluster), FieldsMap(jobs))
  }

  /** `can_allocate` against the usage a view records. */
  predicate FitsIn(n: Node, usage: map<Node, Usage>, job: Job) {
    n in usage && Fits(n.totalCpu, n.totalRam, n.totalGpus, usage[n], job)
  }

  /** Node `k` is the first, in cluster order, whose recorded usage fits the
      job; `k == |cluster|` says that none does. */
  ghost predicate FirstFitIn(cluster: seq<Node>, usage: map<Node, Usage>, job: Job, k: nat) {
    && k <= |cluster|
    && (k < |cluster| ==> FitsIn(cluster[k], usage, job))
    && forall m | 0 <= m < k :: !FitsIn(cluster[m], usage, job)
  }

  /** How `_allocate_job` ends once the job is on its node: the outcome and
      the new ready queue. A job in the ready queue is removed from it; a job
      that is not there makes the unconditional `remove` of the FIFO
      scheduler (`strict`) raise `ValueError`, while the STF scheduler
      leaves the queue alone. The job's entry is pushed unless it raised. */
  function Dequeue(ready: seq<Job>, job: Job, strict: bool): (Outcome, seq<Job>) {
    if job in ready then (Ok, RemoveFirst(ready, job))
    else if strict then (Raised(ValueError), ready)
    else (Ok, ready)
  }

  /** The entry pushed for `job` on node `n`, keyed by `now` plus the
      remaining time the view records. */
  function EntryIn(v: View, job: Job, n: Node, now: real): RunEntry
    requires job in v.fields
  {
    RunEntryOf(now + v.fields[job].remainingTime, job, n)
  }

  /** `_allocate_job` of `job` on node `n`, which fits it, from view `v` to
      view `v'`: the node holds the job's requests, the job has started as
      of `now`, nothing else changes, and the job moves from the ready queue
      to the running-jobs heap as `Dequeue` says. */
  ghost predicate AllocatedIn(v: View, n: Node, job: Job, strict: bool, r: Outcome, v': View, now: real) {
    && n in v.usage && job in v.fields
    && v'.usage == v.usage[n := Allocated(v.usage[n], job)]
    && v'.fields == v.fields[job := Started(v.fields[job], now)]
    && (r, v'.ready) == Dequeue(v.ready, job, strict)
    && multiset(v'.running) == multiset(v.running) + (if r.Ok? then multiset{EntryIn(v, job, n, now)} else multiset{})
  }

  /** The three objects a preemption touches, as values: the usage of the
      victim's node, the victim's fields and the new job's fields. */
  datatype Touched = Touched(usage: Usage, victim: JobFields, job: JobFields)

  function TouchedOf(e: RunEntry, job: Job): Touched
    reads e.item.node, e.item.job, job
  {
    Touched(e.item.node.UsageNow(), e.item.job.Fields(), job.Fields())
  }

  /** `preempt_and_allocate` of running entry `e` for `job`, taking the
      touched objects from `t` to `t'` and the ready queue from `ready` to
      `ready'`: the victim's node releases it, and a victim without a last
      start time raises `TypeError` there. Otherwise the victim is marked
      preempted and appended to the ready queue; a node that then does not
      fit the job raises `ValueError`, and one that does is allocated to it,
      the job starts, and it leaves the ready queue as `Dequeue` says. */
  ghost predicate Preempting(e: RunEntry, job: Job, strict: bool, now: real,
                             ready: seq<Job>, t: Touched, r: Outcome, ready': seq<Job>, t': Touched) {
    var victim, n := e.item.job, e.item.node;
    var released := Released(t.usage, victim);
    match Evicted(t.victim, now)
    case None =>
      r == Raised(TypeError) && ready' == ready && t' == t.(usage := released)
    case Some(f) =>
      if !Fits(n.totalCpu, n.totalRam, n.totalGpus, released, job) then
        && r == Raised(ValueError) && ready' == ready + [victim]
        && t' == t.(usage := released, victim := f)
      else
        && (r, ready') == Dequeue(ready + [victim], job, strict)
        && t' == Touched(Allocated(released, job), f, Started(t.job, now))
  }

  /** `Preempting` between two views, where nothing but the victim's node,
      the victim and the new job changes, the victim's entry leaves the
      running heap and the new job's entry joins it unless the preemption
      raised. */
  ghost predicate PreemptedIn(v: View, e: RunEntry, job: Job, strict: bool, r: Outcome, v': View, now: real) {
    var victim, n := e.item.job, e.item.node;
    && n in v.usage && victim in v.fields && job in v.fields
    && n in v'.usage && victim in v'.fields && job in v'.fields
    && v'.usage == v.usage[n := v'.usage[n]]
    && v'.fields == v.fields[victim := v'.fields[victim]][job := v'.fields[job]]
    && multiset(v'.running) + multiset{e} ==
       multiset(v.running) + (if r.Ok? then multiset{EntryIn(v, job, n, now)} else multiset{})
    && Preempting(e, job, strict, now, v.ready, Touched(v.usage[n], v.fields[victim], v.fields[job]),
                  r, v'.ready, Touched(v'.usage[n], v'.fields[victim], v'.fields[job]))
  }

  /** The running entry at heap index `i` of a view, as `Snapshot` sees it. */
  function SnapshotIn(v: View, i: nat): Snapshot
    requires i < |v.running| && v.running[i].item.job in v.fields && v.running[i].item.node in v.usage
  {
    var e := v.running[i];
    Snapshot(e, v.fields[e.item.job], v.usage[e.item.node].jobIds)
  }

  // ---------------------------------------------------------------------------
  // How the bags of the running-jobs heap change
  // ---------------------------------------------------------------------------

  /** Taking the victim's entry off the heap and pushing the new job's entry
      swaps one for the other. */
  lemma EntryReplaced(running: seq<RunEntry>, running1: seq<RunEntry>, running': seq<RunEntry>,
                      victim: RunEntry, e: RunEntry)
    requires multiset(running1) + multiset{victim} == multiset(running)
    requires multiset(running') == multiset(running1) + multiset{e}
    ensures multiset(running') + multiset{victim} == multiset(running) + multiset{e}
    ensures multiset(running') <= multiset(running) + multiset{e}
  {
  }

  /** Same entries, same running jobs. */
  lemma {:induction false} RunJobsPermutation(s: seq<RunEntry>, t: seq<RunEntry>)
    requires multiset(s) == multiset(t)
    ensures RunJobs(s) == RunJobs(t)
  {
    RunJobsIsBag(s);
    RunJobsIsBag(t);
    BagPermutation(s, t, RunJob);
  }

  /** A preemption swaps the victim's entry on the heap for the new job's,
      and the new job in the ready queue for the victim: jobs only move
      between the two, none is lost or duplicated, and every job that was
      ready other than the new job still is. */
  lemma PreemptionMovesJobs(ready: seq<Job>, ready': seq<Job>, running: seq<RunEntry>,
                            running': seq<RunEntry>, victim: RunEntry, e: RunEntry)
    requires multiset(running') + multiset{victim} == multiset(running) + multiset{e}
    requires multiset(ready') + multiset{e.item.job} == multiset(ready) + multiset{victim.item.job}
    ensures multiset(ready') + RunJobs(running') == multiset(ready) + RunJobs(running)
    ensures multiset(ready) <= multiset(ready') + multiset{e.item.job}
  {
    assert multiset(running' + [victim]) == multiset(running + [e]);
    RunJobsAddOne(running', running' + [victim], victim);
    RunJobsAddOne(running, running + [e], e);
    RunJobsPermutation(running' + [victim], running + [e]);
    MovedBetween(multiset(ready), multiset(ready'), RunJobs(running), RunJobs(running'), victim.item.job, e.item.job);
  }
}
