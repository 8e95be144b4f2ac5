/** The simulation engine: the cluster and tenants it sets up, the event
    handlers, the sweep over the running-jobs heap that completes finished
    jobs, the results it reports, and the live loop's rule of emitting a
    state only when it changed. Every clock read is the `now` parameter of
    the handler that reads it. */
module Engine {
  import opened Common
  import opened Schemas
  import opened HeapQ
  import opened Events
  import opened EventQueues
  import opened JobUtils
  import opened Tenants
  import opened Scheduling
  import opened Passes
  import Fifo
  import Stf

  // ---------------------------------------------------------------------------
  // Names of tenants and nodes
  // ---------------------------------------------------------------------------

  function DigitChar(d: nat): char
    requires d < 10
  {
    ('0' as int + d) as char
  }

  predicate IsDigit(c: char) {
    '0' <= c <= '9'
  }

  function DigitValue(c: char): nat
    requires IsDigit(c)
  {
    c as int - '0' as int
  }

  /** `str(n)` of a natural number: its decimal digits, most significant first. */
  function Decimal(n: nat): (s: string)
    ensures s != [] && forall c | c in s :: IsDigit(c)
  {
    if n < 10 then [DigitChar(n)] else Decimal(n / 10) + [DigitChar(n % 10)]
  }

  /** The number a string of decimal digits denotes. */
  function ParseDecimal(s: string): nat
    requires forall c | c in s :: IsDigit(c)
  {
    if s == [] then 0
    else
      assert IsDigit(s[|s| - 1]);
      10 * ParseDecimal(s[..|s| - 1]) + DigitValue(s[|s| - 1])
  }

  lemma {:induction false} ParseDecimalRoundTrip(n: nat)
    ensures ParseDecimal(Decimal(n)) == n
  {
    if n >= 10 {
      var s := Decimal(n);
      assert s[..|s| - 1] == Decimal(n / 10);
      ParseDecimalRoundTrip(n / 10);
    }
  }

  /** The name `f"{prefix}{n}"`. */
  function Name(prefix: string, n: nat): string {
    prefix + Decimal(n)
  }

  /** Different numbers give different names. */
  lemma NamesDiffer(prefix: string, a: nat, b: nat)
    requires a != b
    ensures Name(prefix, a) != Name(prefix, b)
  {
    if Name(prefix, a) == Name(prefix, b) {
      assert Decimal(a) == Name(prefix, a)[|prefix|..];
      assert Decimal(b) == Name(prefix, b)[|prefix|..];
      ParseDecimalRoundTrip(a);
      ParseDecimalRoundTrip(b);
    }
  }

  ghost predicate TenantIdsDistinct(ts: seq<Tenant>) {
    forall i, j | 0 <= i < j < |ts| :: ts[i].id != ts[j].id
  }

  /** `tenant-1 .. tenant-n`, each without jobs. */
  method NewTenants(n: nat) returns (ts: seq<Tenant>)
    ensures |ts| == n && TenantIdsDistinct(ts)
    ensures forall i | 0 <= i < n :: fresh(ts[i]) && ts[i].id == Name("tenant-", i + 1)
    ensures forall t | t in ts ::
      t.submittedJobs == [] && t.completedJobs == [] && t.preemptedJobs == []
  {
    ts := [];
    while |ts| < n
      invariant |ts| <= n
      invariant forall i | 0 <= i < |ts| :: fresh(ts[i]) && ts[i].id == Name("tenant-", i + 1)
      invariant forall t | t in ts ::
        t.submittedJobs == [] && t.completedJobs == [] && t.preemptedJobs == []
    {
      var t := new Tenant(Name("tenant-", |ts| + 1));
      ts := ts + [t];
    }
    forall i, j | 0 <= i < j < |ts| ensures ts[i].id != ts[j].id {
      NamesDiffer("tenant-", i + 1, j + 1);
    }
  }

  /** `node-1 .. node-n`, each with the given totals and nothing used. */
  method NewNodes(n: nat, cpu: nat, ram: nat, gpus: nat) returns (ns: seq<Node>)
    ensures |ns| == n
    ensures forall i | 0 <= i < n :: fresh(ns[i]) && ns[i].id == Name("node-", i + 1)
    ensures forall m | m in ns ::
      && m.totalCpu == cpu && m.totalRam == ram && m.totalGpus == gpus
      && m.UsageNow() == Usage(0, 0, 0, []) && m.Valid()
  {
    ns := [];
    while |ns| < n
      invariant |ns| <= n
      invariant forall i | 0 <= i < |ns| :: fresh(ns[i]) && ns[i].id == Name("node-", i + 1)
      invariant forall m | m in ns ::
        && m.totalCpu == cpu && m.totalRam == ram && m.totalGpus == gpus
        && m.UsageNow() == Usage(0, 0, 0, []) && m.Valid()
    {
      var m := new Node(Name("node-", |ns| + 1), cpu, ram, gpus);
      ns := ns + [m];
    }
  }

  // ---------------------------------------------------------------------------
  // Completion and the running-jobs sweep
  // ---------------------------------------------------------------------------

  /** `next(t for t in tenants if t.id == tenant_id)`: the position of the
      first tenant with that id, or `None` (where `next` raises). */
  function TenantIndex(ts: seq<Tenant>, id: string): (i: Option<nat>)
    ensures i.Some? ==> i.value < |ts| && ts[i.value].id == id
    ensures i.Some? ==> forall k | 0 <= k < i.value :: ts[k].id != id
    ensures i.None? <==> forall t | t in ts :: t.id != id
  {
    if ts == [] then None
    else if ts[0].id == id then Some(0)
    else
      var r := TenantIndex(ts[1..], id);
      assert forall t | t in ts[1..] :: t in ts;
      if r.None? then None else Some(r.value + 1)
  }

  /** The bookkeeping of `_handle_completion`: completed at `finish`, with
      nothing left to run. */
  function Finished(f: JobFields, finish: real): JobFields {
    f.(state := Completed, endTime := Some(finish), remainingTime := 0.0)
  }

  /** The sweep's update of a popped job: a running job with a truthy last
      start time has the time since that start taken off its remaining time,
      floored at 0. The last start time itself is left as it is. */
  function Refreshed(f: JobFields, now: real): JobFields {
    if f.state == Running && Truthy(f.lastStartTime) then
      f.(remainingTime := Max0(f.remainingTime - (now - f.lastStartTime.value)))
    else f
  }

  /** A popped job after the sweep: refreshed, and completed at `now` when
      nothing is left to run. */
  function Swept(f: JobFields, now: real): JobFields {
    var g := Refreshed(f, now);
    if g.remainingTime <= 0.0 then Finished(g, now) else g
  }

  /** The sweep never leaves a negative remaining time; a job with nothing
      left is completed at `now`; a job with time left keeps its state and
      end time, and its remaining time either stays or loses the time since
      its last start; the start, wait and preemption bookkeeping is never
      touched. */
  lemma SweptAccounting(f: JobFields, now: real)
    ensures var g := Swept(f, now);
      && 0.0 <= g.remainingTime
      && (g.remainingTime == 0.0 ==> g.state == Completed && g.endTime == Some(now))
      && (g.remainingTime > 0.0 ==> g.state == f.state && g.endTime == f.endTime)
      && (g.remainingTime > 0.0 ==>
            || g.remainingTime == f.remainingTime
            || (f.state == Running && Truthy(f.lastStartTime) &&
                g.remainingTime == f.remainingTime - (now - f.lastStartTime.value)))
      && (g.remainingTime > 0.0 ==> f.remainingTime > 0.0 || f.state == Running)
      && g.arrivalTime == f.arrivalTime && g.startTime == f.startTime
      && g.waitTime == f.waitTime && g.preemptionTime == f.preemptionTime
      && g.lastStartTime == f.lastStartTime
  {
  }

  /** Two sweeps at `t1` and then `t2` of a job that started running at `s`
      take off `(t1 - s) + (t2 - s)`, more than the `t2 - s` it has run,
      because the last start time is never moved forward. */
  lemma SweepCountsElapsedTwice(f: JobFields, s: real, t1: real, t2: real)
    requires f.state == Running && f.lastStartTime == Some(s) && s != 0.0
    requires s <= t1 <= t2 && f.remainingTime > (t1 - s) + (t2 - s)
    ensures Swept(Swept(f, t1), t2).remainingTime == f.remainingTime - (t1 - s) - (t2 - s)
    ensures t1 > s ==> Swept(Swept(f, t1), t2).remainingTime < f.remainingTime - (t2 - s)
  {
    var g := Swept(f, t1);
    assert g.remainingTime == f.remainingTime - (t1 - s);
    assert g.state == Running && g.lastStartTime == Some(s);
  }

  /** A tenant's submitted, completed and preempted jobs. */
  type JobLists = (seq<Job>, seq<Job>, seq<Job>)

  function ListsOf(t: Tenant): JobLists
    reads t
  {
    (t.submittedJobs, t.completedJobs, t.preemptedJobs)
  }

  /** What the sweep pushes back for one popped entry `e` whose job has the
      fields `f` after the sweep: the entry keyed by its new finish time
      when time is left, nothing otherwise. */
  function PushedBack(e: RunEntry, f: JobFields, now: real): seq<RunEntry> {
    if f.remainingTime > 0.0 then [RunEntryOf(now + f.remainingTime, e.item.job, e.item.node)] else []
  }

  /** The job of `e`, when the sweep completed it and it belongs to tenant `id`. */
  function CompletedFor(e: RunEntry, f: JobFields, id: string): seq<Job> {
    if f.remainingTime <= 0.0 && e.item.job.tenantId == id then [e.item.job] else []
  }

  /** The job of `e`, when the sweep completed it and it ran on `node`. */
  function CompletedAt(e: RunEntry, f: JobFields, node: Node): seq<Job> {
    if f.remainingTime <= 0.0 && e.item.node == node then [e.item.job] else []
  }

  /** The entries the sweep pushes back for the popped entries `s`, whose
      jobs have the fields `fs` after the sweep, in pop order: each job with
      time left, keyed `now + remaining_time`, hence after `now`. */
  function Requeued(s: seq<RunEntry>, fs: seq<JobFields>, now: real): (r: seq<RunEntry>)
    requires |fs| == |s|
    ensures |r| <= |s|
    ensures forall x | x in r :: x.key > now && x.tie == 0
    ensures forall x | x in r :: exists i | 0 <= i < |s| ::
      && x == RunEntryOf(now + fs[i].remainingTime, s[i].item.job, s[i].item.node)
      && fs[i].remainingTime > 0.0
  {
    if s == [] then []
    else
      var n := |s| - 1;
      Requeued(s[..n], fs[..n], now) + PushedBack(s[n], fs[n], now)
  }

  /** The jobs among the popped entries `s` that the sweep completed, in
      pop order. */
  function FinishedIn(s: seq<RunEntry>, fs: seq<JobFields>): (r: seq<Job>)
    requires |fs| == |s|
    ensures |r| <= |s|
  {
    if s == [] then []
    else
      var n := |s| - 1;
      FinishedIn(s[..n], fs[..n]) + (if fs[n].remainingTime <= 0.0 then [s[n].item.job] else [])
  }

  /** Every popped entry is either pushed back or completed, never both and
      never dropped. */
  lemma {:induction false} RequeuedOrFinished(s: seq<RunEntry>, fs: seq<JobFields>, now: real)
    requires |fs| == |s|
    ensures |Requeued(s, fs, now)| + |FinishedIn(s, fs)| == |s|
  {
    if s != [] {
      var n := |s| - 1;
      RequeuedOrFinished(s[..n], fs[..n], now);
    }
  }

  /** The completed jobs of the tenant with this id, in pop order. */
  function CompletedOf(s: seq<RunEntry>, fs: seq<JobFields>, id: string): (r: seq<Job>)
    requires |fs| == |s|
    ensures forall j | j in r :: j.tenantId == id
  {
    if s == [] then []
    else
      var n := |s| - 1;
      CompletedOf(s[..n], fs[..n], id) + CompletedFor(s[n], fs[n], id)
  }

  /** The completed jobs that ran on node `node`, in pop order. */
  function CompletedOn(s: seq<RunEntry>, fs: seq<JobFields>, node: Node): (r: seq<Job>)
    requires |fs| == |s|
    ensures |r| <= |s|
  {
    if s == [] then []
    else
      var n := |s| - 1;
      CompletedOn(s[..n], fs[..n], node) + CompletedAt(s[n], fs[n], node)
  }

  /** A node's usage after releasing `js` one after the other. */
  function ReleasedAll(u: Usage, js: seq<Job>): Usage {
    if js == [] then u else Released(ReleasedAll(u, js[..|js| - 1]), js[|js| - 1])
  }

  /** No job is in two entries of the running-jobs heap. */
  ghost predicate Unshared(running: seq<RunEntry>) {
    forall j | j in RunJobs(running) :: RunJobs(running)[j] <= 1
  }

  lemma {:induction false} RunJobsAppend(s: seq<RunEntry>, t: seq<RunEntry>)
    ensures RunJobs(s + t) == RunJobs(s) + RunJobs(t)
  {
    RunJobsIsBag(s);
    RunJobsIsBag(t);
    RunJobsIsBag(s + t);
    BagAppend(s, t, RunJob);
  }

  lemma RunJobsMember(s: seq<RunEntry>, x: RunEntry)
    requires x in s
    ensures x.item.job in RunJobs(s)
  {
    RunJobsAddOne(RemoveFirst(s, x), s, x);
  }

  /** The jobs of the running entries are among `jobs`. */
  lemma RunJobsWithin(running: seq<RunEntry>, cluster: seq<Node>, jobs: set<Job>)
    requires Within(running, cluster, jobs)
    ensures forall j | j in RunJobs(running) :: j in jobs
  {
    forall j | j in RunJobs(running) ensures j in jobs {
      RunJobsIsBag(running);
      var i := BagWitness(running, j);
    }
  }

  /** An element of a `RunJobs` bag comes from some entry. */
  lemma {:induction false} BagWitness(running: seq<RunEntry>, j: Job) returns (i: nat)
    requires j in RunJobs(running)
    ensures i < |running| && running[i].item.job == j
  {
    if running[0].item.job == j {
      i := 0;
    } else {
      i := BagWitness(running[1..], j);
      i := i + 1;
    }
  }

  /** In a heap without shared jobs, the entry just popped shares its job
      with no entry popped before and with no entry still in the heap. */
  lemma PoppedIsFresh(all: seq<RunEntry>, done: seq<RunEntry>, heap: seq<RunEntry>,
                      heap': seq<RunEntry>, e: RunEntry)
    requires Unshared(all)
    requires multiset(done) + multiset(heap) == multiset(all)
    requires multiset(heap') + multiset{e} == multiset(heap)
    ensures multiset(done + [e]) + multiset(heap') == multiset(all)
    ensures forall i | 0 <= i < |done| :: done[i].item.job != e.item.job
    ensures forall x | x in heap' :: x in heap && x.item.job != e.item.job
  {
    var whole := done + [e] + heap';
    assert multiset(whole) == multiset(done) + multiset{e} + multiset(heap');
    var j := e.item.job;
    JobsOfThree(all, done, e, heap');
    assert RunJobs(all)[j] == RunJobs(done)[j] + 1 + RunJobs(heap')[j];
    assert j in RunJobs(all);
    forall i | 0 <= i < |done| ensures done[i].item.job != j {
      RunJobsMember(done, done[i]);
    }
    forall x | x in heap' ensures x in heap && x.item.job != j {
      assert x in multiset(heap');
      assert x in multiset(heap);
      RunJobsMember(heap', x);
    }
  }

  /** The jobs of a permutation of `done + [e] + rest`. */
  lemma JobsOfThree(all: seq<RunEntry>, done: seq<RunEntry>, e: RunEntry, rest: seq<RunEntry>)
    requires multiset(done + [e] + rest) == multiset(all)
    ensures RunJobs(all) == RunJobs(done) + multiset{e.item.job} + RunJobs(rest)
  {
    RunJobsPermutation(done + [e] + rest, all);
    RunJobsAppend(done + [e], rest);
    RunJobsAppend(done, [e]);
    assert RunJobs([e]) == multiset{e.item.job} by { assert [e][1..] == []; }
  }

  // ---------------------------------------------------------------------------
  // Results and the live loop's change detection
  // ---------------------------------------------------------------------------

  /** What `_collect_results` reports. `utilization` is always empty. */
  datatype Results = Results(
    utilization: map<string, real>,
    throughput: map<string, nat>,
    avgWait: map<string, real>,
    fairness: real)

  /** The map a dict comprehension builds from `(key, value)` pairs taken in
      order: every key is present (`LastWinsPicksLast`: the last pair with a
      key wins). */
  function LastWins<V>(ps: seq<(string, V)>): (m: map<string, V>)
    ensures m.Keys == set p | p in ps :: p.0
  {
    if ps == [] then map[]
    else
      var n := |ps| - 1;
      assert ps == ps[..n] + [ps[n]];
      LastWins(ps[..n])[ps[n].0 := ps[n].1]
  }

  /** A pair whose key no later pair repeats gives the map its value. */
  lemma {:induction false} LastWinsPicksLast<V>(ps: seq<(string, V)>, i: nat)
    requires i < |ps| && forall k | i < k < |ps| :: ps[k].0 != ps[i].0
    ensures ps[i].0 in LastWins(ps) && LastWins(ps)[ps[i].0] == ps[i].1
  {
    var n := |ps| - 1;
    assert LastWins(ps) == LastWins(ps[..n])[ps[n].0 := ps[n].1];
    if i < n {
      var init := ps[..n];
      assert init[i] == ps[i];
      forall k | i < k < n ensures init[k].0 != init[i].0 {
        assert init[k] == ps[k];
      }
      LastWinsPicksLast(init, i);
      assert ps[n].0 != ps[i].0;
    }
  }

  /** `(t.id, t.throughput())` for each tenant, in order. */
  function ThroughputPairs(ts: seq<Tenant>): (ps: seq<(string, nat)>)
    reads ts
    ensures |ps| == |ts| && forall i | 0 <= i < |ts| :: ps[i] == (ts[i].id, ts[i].Throughput())
  {
    if ts == [] then [] else [(ts[0].id, ts[0].Throughput())] + ThroughputPairs(ts[1..])
  }

  function CompletedJobsOf(ts: seq<Tenant>): set<Job>
    reads ts
  {
    set t, j | t in ts && j in t.completedJobs :: j
  }

  /** `(t.id, t.avg_wait_time())` for each tenant, in order. */
  function AvgWaitPairs(ts: seq<Tenant>): (ps: seq<(string, real)>)
    reads ts, CompletedJobsOf(ts)
    ensures |ps| == |ts| && forall i | 0 <= i < |ts| :: ps[i] == (ts[i].id, ts[i].AvgWaitTime())
  {
    if ts == [] then []
    else
      assert CompletedJobsOf(ts[1..]) <= CompletedJobsOf(ts);
      assert ts[0] in ts;
      assert forall j | j in ts[0].completedJobs :: j in CompletedJobsOf(ts);
      [(ts[0].id, ts[0].AvgWaitTime())] + AvgWaitPairs(ts[1..])
  }

  function IdsOf(ts: seq<Tenant>): set<string> {
    set t | t in ts :: t.id
  }

  /** Pairs keyed by the tenants' ids, in tenant order, have exactly the
      tenants' ids as keys. */
  lemma PairsKeyedByIds<V>(ts: seq<Tenant>, ps: seq<(string, V)>)
    requires |ps| == |ts| && forall i | 0 <= i < |ts| :: ps[i].0 == ts[i].id
    ensures (set p | p in ps :: p.0) == IdsOf(ts)
  {
    forall t | t in ts ensures t.id in (set p | p in ps :: p.0) {
      var i :| 0 <= i < |ts| && ts[i] == t;
      assert ps[i] in ps;
    }
  }

  /** With distinct tenant ids, each tenant's pair is the last with its key. */
  lemma DistinctIdsWin<V>(ts: seq<Tenant>, ps: seq<(string, V)>)
    requires |ps| == |ts| && forall k | 0 <= k < |ts| :: ps[k].0 == ts[k].id
    requires TenantIdsDistinct(ts)
    ensures forall i | 0 <= i < |ts| :: ts[i].id in LastWins(ps) && LastWins(ps)[ts[i].id] == ps[i].1
  {
    forall i | 0 <= i < |ts| ensures ts[i].id in LastWins(ps) && LastWins(ps)[ts[i].id] == ps[i].1 {
      assert forall k | i < k < |ps| :: ps[k].0 != ps[i].0;
      LastWinsPicksLast(ps, i);
    }
  }

  /** The state the live loop compares between iterations: the ready-queue
      length, the `(id, tenant)` of each running entry, and the number of
      completed jobs over all tenants. */
  datatype LiveState = LiveState(queueLen: nat, running: seq<(string, string)>, completedJobs: nat)

  function RunningIds(running: seq<RunEntry>): (r: seq<(string, string)>)
    ensures |r| == |running|
    ensures forall i | 0 <= i < |r| :: r[i] == (running[i].item.job.id, running[i].item.job.tenantId)
  {
    if running == [] then []
    else [(running[0].item.job.id, running[0].item.job.tenantId)] + RunningIds(running[1..])
  }

  /** `sum(len(t.completed_jobs) for t in ts)`. */
  function CompletedCount(ts: seq<Tenant>): nat
    reads ts
  {
    if ts == [] then 0 else |ts[0].completedJobs| + CompletedCount(ts[1..])
  }

  /** The states a run of the live loop yields, given the state each
      iteration computes: a state is yielded when it differs from the last
      yielded one (none at the start). */
  function Changes(last: Option<LiveState>, states: seq<LiveState>): seq<LiveState>
    decreases |states|
  {
    if states == [] then []
    else if Some(states[0]) != last then [states[0]] + Changes(Some(states[0]), states[1..])
    else Changes(last, states[1..])
  }

  /** No two consecutive yields carry the same state, and the first differs
      from the last state yielded before. */
  lemma {:induction false} ChangesNeverRepeat(last: Option<LiveState>, states: seq<LiveState>)
    ensures var ys := Changes(last, states);
      && (forall i | 0 <= i < |ys| - 1 :: ys[i] != ys[i + 1])
      && (ys != [] ==> Some(ys[0]) != last)
    decreases |states|
  {
    if states != [] {
      if Some(states[0]) != last {
        ChangesNeverRepeat(Some(states[0]), states[1..]);
      } else {
        ChangesNeverRepeat(last, states[1..]);
      }
    }
  }

  /** Each computed state is yielded exactly when it differs from the state
      computed just before it (or, for the first, from the last one yielded
      before), since the last yielded state is always the latest computed
      one. */
  function ChangedAt(last: Option<LiveState>, states: seq<LiveState>, i: nat): bool
    requires i < |states|
  {
    Some(states[i]) != (if i == 0 then last else Some(states[i - 1]))
  }

  function Filtered(last: Option<LiveState>, states: seq<LiveState>, n: nat): seq<LiveState>
    requires n <= |states|
  {
    if n == 0 then []
    else Filtered(last, states, n - 1) + (if ChangedAt(last, states, n - 1) then [states[n - 1]] else [])
  }

  lemma {:induction false} ChangesAreTheChangedStates(last: Option<LiveState>, states: seq<LiveState>)
    ensures Changes(last, states) == Filtered(last, states, |states|)
    decreases |states|
  {
    if states != [] {
      var next := Some(states[0]);
      ChangesAreTheChangedStates(next, states[1..]);
      FilteredShift(last, states, |states|);
    }
  }

  /** Filtering from the second state on, with the first as the previous
      one, is filtering all states without the first's own contribution. */
  lemma {:induction false} FilteredShift(last: Option<LiveState>, states: seq<LiveState>, n: nat)
    requires 1 <= n <= |states|
    ensures Filtered(last, states, n) ==
      (if ChangedAt(last, states, 0) then [states[0]] else []) + Filtered(Some(states[0]), states[1..], n - 1)
  {
    if n > 1 {
      FilteredShift(last, states, n - 1);
      assert ChangedAt(last, states, n - 1) == ChangedAt(Some(states[0]), states[1..], n - 2);
    }
  }

  // ---------------------------------------------------------------------------
  // The engine
  // ---------------------------------------------------------------------------

  /** The job an event carries, if any. */
  function PayloadJobs(p: Payload): set<Job> {
    if p.JobPayload? then {p.job} else {}
  }

  class SimulationEngine {
    const config: SimulationConfig
    const policy: Policy
    var clock: real
    const eventQueue: EventQueue
    /** The process-wide counter that `make_event` numbers events with. */
    const counter: EventCounter
    var globalReadyQueue: seq<Job>
    var runningJobs: seq<RunEntry>
    const tenants: seq<Tenant>
    const cluster: seq<Node>
    /** Every job the engine has been handed so far. */
    ghost var jobs: set<Job>

    /** The event queue is a heap whose entries the counter numbered; the
        running-jobs list is a heap of entries on the cluster's nodes; every
        queued or running job is one the engine was handed; no node hands
        out more than it has; tenant ids are distinct. */
    ghost predicate Valid()
      reads this, eventQueue, counter, cluster
    {
      && eventQueue.Valid()
      && CountersBelow(eventQueue.queue, counter.next)
      && IsHeap(runningJobs)
      && Within(runningJobs, cluster, jobs)
      && (forall j | j in globalReadyQueue :: j in jobs)
      && (forall n | n in cluster :: n.Valid())
      && TenantIdsDistinct(tenants)
    }

    /** `__init__`: the clock at 0, an empty event queue, no queued or
        running jobs, tenants `tenant-1 .. tenant-n` and nodes `node-1 ..
        node-k` with the configured capacities and nothing used. */
    constructor (config: SimulationConfig, policy: Policy, counter: EventCounter)
      requires ValidConfig(config)
      ensures this.config == config && this.policy == policy && this.counter == counter
      ensures clock == 0.0 && globalReadyQueue == [] && runningJobs == [] && eventQueue.queue == []
      ensures |tenants| == config.numTenants
      ensures forall i | 0 <= i < |tenants| :: tenants[i].id == Name("tenant-", i + 1)
      ensures forall t | t in tenants :: t.TotalJobs() == 0 && t.Throughput() == 0 && t.preemptedJobs == []
      ensures |cluster| == config.clusterNodes
      ensures forall i | 0 <= i < |cluster| :: cluster[i].id == Name("node-", i + 1)
      ensures forall n | n in cluster ::
        && n.totalCpu == config.perNodeCpu && n.totalRam == config.perNodeRam
        && n.totalGpus == config.perNodeGpus && n.UsageNow() == Usage(0, 0, 0, [])
      ensures Valid()
    {
      this.config := config;
      this.policy := policy;
      this.counter := counter;
      clock := 0.0;
      eventQueue := new EventQueue();
      globalReadyQueue := [];
      runningJobs := [];
      var ts := NewTenants(config.numTenants);
      tenants := ts;
      var ns := NewNodes(config.clusterNodes, config.perNodeCpu, config.perNodeRam, config.perNodeGpus);
      cluster := ns;
      jobs := {};
    }

    /** The `(id, tenant)` state the live loop compares. */
    function CurrentState(): (s: LiveState)
      reads this, tenants
      ensures s.queueLen == |globalReadyQueue| && |s.running| == |runningJobs|
      ensures forall i | 0 <= i < |runningJobs| ::
        s.running[i] == (runningJobs[i].item.job.id, runningJobs[i].item.job.tenantId)
      ensures s.completedJobs == CompletedCount(tenants)
    {
      LiveState(|globalReadyQueue|, RunningIds(runningJobs), CompletedCount(tenants))
    }

    /** `_collect_results` with the fairness index given as a function of
        the average waits. With the engine's distinct tenant ids, every
        tenant's throughput and average wait appear under its id. */
    method CollectResults(fairness: map<string, real> -> real) returns (res: Results)
      ensures res.utilization == map[]
      ensures res.throughput.Keys == res.avgWait.Keys == IdsOf(tenants)
      ensures TenantIdsDistinct(tenants) ==> forall i | 0 <= i < |tenants| ::
        && res.throughput[tenants[i].id] == tenants[i].Throughput()
        && res.avgWait[tenants[i].id] == tenants[i].AvgWaitTime()
      ensures res.fairness == fairness(res.avgWait)
    {
      var throughput := ThroughputByTenant();
      var avgWait := AvgWaitByTenant();
      res := Results(map[], throughput, avgWait, fairness(avgWait));
    }

    /** `{t.id: t.throughput() for t in self.tenants}`. */
    method ThroughputByTenant() returns (m: map<string, nat>)
      ensures m.Keys == IdsOf(tenants)
      ensures TenantIdsDistinct(tenants) ==> forall i | 0 <= i < |tenants| ::
        m[tenants[i].id] == tenants[i].Throughput()
    {
      var tp := ThroughputPairs(tenants);
      m := LastWins(tp);
      PairsKeyedByIds(tenants, tp);
      if TenantIdsDistinct(tenants) {
        DistinctIdsWin(tenants, tp);
      }
    }

    /** `{t.id: t.avg_wait_time() for t in self.tenants}`. */
    method AvgWaitByTenant() returns (m: map<string, real>)
      ensures m.Keys == IdsOf(tenants)
      ensures TenantIdsDistinct(tenants) ==> forall i | 0 <= i < |tenants| ::
        m[tenants[i].id] == tenants[i].AvgWaitTime()
    {
      var aw := AvgWaitPairs(tenants);
      m := LastWins(aw);
      PairsKeyedByIds(tenants, aw);
      if TenantIdsDistinct(tenants) {
        DistinctIdsWin(tenants, aw);
      }
    }

    /** `_handle_completion`. Its first test compares the job with the node's
        list of id strings and never holds, so the job's id leaves the node
        only through `release`. The job is completed at `finishTime`; the
        first tenant with the job's tenant id gets it appended to its
        completed jobs, and when there is none `next` raises
        `StopIteration` after the node and the job have changed. */
    method HandleCompletion(job: Job, node: Node, finishTime: real) returns (r: Outcome)
      requires TenantIdsDistinct(tenants)
      modifies node, job, tenants
      ensures node.UsageNow() == Released(old(node.UsageNow()), job)
      ensures old(node.Valid()) ==> node.Valid()
      ensures job.Fields() == Finished(old(job.Fields()), finishTime)
      ensures r.Ok? <==> TenantIndex(tenants, job.tenantId).Some?
      ensures r.Raised? ==> r.error == StopIteration
      ensures forall t | t in tenants ::
        && t.submittedJobs == old(t.submittedJobs) && t.preemptedJobs == old(t.preemptedJobs)
        && t.completedJobs == old(t.completedJobs) + (if t.id == job.tenantId then [job] else [])
    {
      node.Release(job);
      job.state := Completed;
      job.endTime := Some(finishTime);
      job.remainingTime := 0.0;
      var i := TenantIndex(tenants, job.tenantId);
      if i.None? {
        return Raised(StopIteration);
      }
      var tenant := tenants[i.value];
      tenant.completedJobs := tenant.completedJobs + [job];
      r := Ok;
    }

    /** `event_queue.push(make_event(now, t, p))`: one event, numbered by
        the counter, joins the queue, and the queue stays a heap whose
        entries all carry distinct counters. */
    method PushEvent(now: real, t: EventType, p: Payload)
      requires eventQueue.Valid() && CountersBelow(eventQueue.queue, counter.next)
      modifies eventQueue, counter
      ensures eventQueue.Valid() && CountersBelow(eventQueue.queue, counter.next)
      ensures multiset(eventQueue.queue) ==
        multiset(old(eventQueue.queue)) + multiset{Entry(now, old(counter.next), Event(now, t, p))}
      ensures counter.next == old(counter.next) + 1
    {
      ghost var q0 := eventQueue.queue;
      var e := counter.MakeEvent(now, t, p);
      eventQueue.Push(e);
      FreshCounterKeepsKeysDistinct(q0, eventQueue.queue, counter.next - 1, e);
    }

    /** What `_handle_arrival` does at time `now`. A `None` payload raises
        `AttributeError` and nothing changes. Otherwise the job arrives at
        `now` with no last start or preemption time and its other fields
        as they were, joins the end of the ready queue and the known jobs,
        and one scheduling event at `now`, numbered by the counter, joins
        the event queue; the running heap and the clock are untouched. */
    twostate predicate Arrived(payload: Payload, now: real, r: Outcome)
      reads this, eventQueue, counter, PayloadJobs(payload)
    {
      match payload
      case NoPayload => r == Raised(AttributeError) && unchanged(this, eventQueue, counter)
      case JobPayload(job) =>
        && r == Ok
        && job.Fields() == old(job.Fields()).(arrivalTime := now, lastStartTime := None, preemptionTime := None)
        && globalReadyQueue == old(globalReadyQueue) + [job]
        && runningJobs == old(runningJobs) && clock == old(clock)
        && jobs == old(jobs) + {job}
        && multiset(eventQueue.queue) == multiset(old(eventQueue.queue)) +
             multiset{Entry(now, old(counter.next), Event(now, Scheduling, NoPayload))}
        && counter.next == old(counter.next) + 1
    }

    /** What `_handle_preemption` does at time `now`. A `None` payload
        raises `AttributeError` and nothing changes. Otherwise the job,
        untouched, joins the end of the ready queue and the known jobs, and
        one scheduling event at `now`, numbered by the counter, joins the
        event queue; the running heap and the clock are untouched. */
    twostate predicate Resubmitted(payload: Payload, now: real, r: Outcome)
      reads this, eventQueue, counter, PayloadJobs(payload)
    {
      match payload
      case NoPayload => r == Raised(AttributeError) && unchanged(this, eventQueue, counter)
      case JobPayload(job) =>
        && r == Ok && unchanged(job)
        && globalReadyQueue == old(globalReadyQueue) + [job]
        && runningJobs == old(runningJobs) && clock == old(clock)
        && jobs == old(jobs) + {job}
        && multiset(eventQueue.queue) == multiset(old(eventQueue.queue)) +
             multiset{Entry(now, old(counter.next), Event(now, Scheduling, NoPayload))}
        && counter.next == old(counter.next) + 1
    }

    /** `_handle_arrival` at time `now`. A `None` payload raises
        `AttributeError` in the log line before anything changes; otherwise
        the job arrives at `now`, with no last start or preemption time,
        joins the end of the ready queue, and one scheduling event at `now`
        is pushed. */
    method HandleArrival(payload: Payload, now: real) returns (r: Outcome)
      requires Valid()
      modifies this, eventQueue, counter, PayloadJobs(payload)
      ensures Arrived(payload, now, r)
      ensures payload.JobPayload? ==> Valid()
    {
      if payload.NoPayload? {
        return Raised(AttributeError);
      }
      var job := payload.job;
      job.arrivalTime := now;
      job.lastStartTime := None;
      job.preemptionTime := None;
      globalReadyQueue := globalReadyQueue + [job];
      jobs := jobs + {job};
      PushEvent(now, Scheduling, NoPayload);
      r := Ok;
    }

    /** `_handle_preemption` at time `now`. A `None` payload raises
        `AttributeError` in the log line before anything changes; otherwise
        the job, untouched, joins the end of the ready queue and one
        scheduling event at `now` is pushed. */
    method HandlePreemption(payload: Payload, now: real) returns (r: Outcome)
      requires Valid()
      modifies this, eventQueue, counter
      ensures Resubmitted(payload, now, r)
      ensures payload.JobPayload? ==> Valid()
    {
      if payload.NoPayload? {
        return Raised(AttributeError);
      }
      globalReadyQueue := globalReadyQueue + [payload.job];
      jobs := jobs + {payload.job};
      PushEvent(now, Scheduling, NoPayload);
      r := Ok;
    }

    /** The event queue, the event counter, the clock and the set of known
        jobs are as they were: scheduling pushes no event and moves no time. */
    twostate predicate QueueAndClockKept()
      reads this, eventQueue, counter
    {
      unchanged(eventQueue, counter) && clock == old(clock) && jobs == old(jobs)
    }

    /** What a call of the scheduler did: `sorted` is the ready queue as
        `sort_ready_queue` ordered it, `order` the jobs in the order the
        engine's scheduler took them, and its passes over `order` are a run
        from the state before to the state after; a run that raised is
        blamed on the victim of its last pass. */
    twostate predicate Scheduled(now: real, r: Outcome, new blame: Option<Snapshot>, new sorted: seq<Job>,
                                 new order: seq<Job>, new views: seq<View>, trace: seq<Placement>)
      reads this, cluster, jobs
    {
      && sorted == old(SortReadyQueue(globalReadyQueue, now))
      && order == (if policy.FifoPolicy? then sorted else old(Stf.ShortestFirst(sorted)))
      && Run(policy, cluster, order, views, trace, r, now)
      && views[0] == old(ViewOf(globalReadyQueue, runningJobs, cluster, jobs))
      && views[|views| - 1] == ViewOf(globalReadyQueue, runningJobs, cluster, jobs)
      && (r.Raised? ==> Blamed(views, trace, blame, now))
    }

    /** `_handle_scheduling` at time `now`. With an empty ready queue nothing
        happens. Otherwise the ready queue is sorted and handed, with the
        ready queue and the running heap themselves, to the engine's
        scheduler, whose passes over `order` are the run from the state
        before to the state after. When the scheduler returns, no job has
        been lost or duplicated between the ready queue and the running heap
        and the engine is consistent again; when it raises, the victim of
        its last pass, which could not be evicted, is to blame. */
    method HandleScheduling(now: real)
      returns (r: Outcome, ghost blame: Option<Snapshot>, ghost sorted: seq<Job>, ghost order: seq<Job>,
               ghost views: seq<View>, ghost trace: seq<Placement>)
      requires Valid()
      modifies this, cluster, jobs
      ensures old(globalReadyQueue) == [] ==> r == Ok && unchanged(this) && unchanged(cluster, jobs) && trace == []
      ensures jobs == old(jobs) && clock == old(clock)
      ensures QueueAndClockKept()
      ensures r.Ok? ==> Valid()
      ensures Scheduled(now, r, blame, sorted, order, views, trace)
      ensures r.Ok? ==>
        multiset(globalReadyQueue) + RunJobs(runningJobs) == old(multiset(globalReadyQueue) + RunJobs(runningJobs))
    {
      if globalReadyQueue == [] {
        ghost var v := ViewOf(globalReadyQueue, runningJobs, cluster, jobs);
        NothingToSchedule(policy, cluster, v, now);
        return Ok, None, [], [], [v], [];
      }
      r, blame, sorted, order, views, trace := ScheduleReady(now);
    }

    /** The work of `_handle_scheduling` once the ready queue is not empty:
        the sort, the scheduler, and the ready queue and running heap it
        leaves handed back to the engine. */
    method ScheduleReady(now: real)
      returns (r: Outcome, ghost blame: Option<Snapshot>, ghost sorted: seq<Job>, ghost order: seq<Job>,
               ghost views: seq<View>, ghost trace: seq<Placement>)
      requires Valid()
      modifies this, cluster, jobs
      ensures jobs == old(jobs) && clock == old(clock)
      ensures QueueAndClockKept()
      ensures r.Ok? ==> Valid()
      ensures Scheduled(now, r, blame, sorted, order, views, trace)
      ensures r.Ok? ==>
        multiset(globalReadyQueue) + RunJobs(runningJobs) == old(multiset(globalReadyQueue) + RunJobs(runningJobs))
    {
      ghost var ready0, running0 := globalReadyQueue, runningJobs;
      var ready', running';
      r, ready', running', blame, sorted, order, views, trace := SortAndSchedule(globalReadyQueue, runningJobs, now);
      if r.Ok? {
        ConservedJobsStayKnown(ready0, ready', running0, running', cluster, jobs);
      }
      Install(ready', running', r.Ok?);
    }

    /** Hands the ready queue and running heap the scheduler left back to
        the engine; the engine is consistent again when they are. */
    method Install(ready': seq<Job>, running': seq<RunEntry>, ghost consistent: bool)
      requires consistent ==> && eventQueue.Valid() && CountersBelow(eventQueue.queue, counter.next) && TenantIdsDistinct(tenants)
                              && IsHeap(running') && Within(running', cluster, jobs) && (forall j | j in ready' :: j in jobs)
                              && (forall n | n in cluster :: n.Valid())
      modifies this
      ensures globalReadyQueue == ready' && runningJobs == running' && jobs == old(jobs) && clock == old(clock)
      ensures consistent ==> Valid()
      ensures UsageMap(cluster) == old(UsageMap(cluster)) && FieldsMap(jobs) == old(FieldsMap(jobs))
    {
      globalReadyQueue, runningJobs := ready', running';
    }

    /** `sort_ready_queue` at `now`, then the engine's scheduler on the
        sorted copy, the ready queue and the running heap. */
    method SortAndSchedule(ready: seq<Job>, running: seq<RunEntry>, now: real)
      returns (r: Outcome, ready': seq<Job>, running': seq<RunEntry>, ghost blame: Option<Snapshot>,
               ghost sorted: seq<Job>, ghost order: seq<Job>, ghost views: seq<View>, ghost trace: seq<Placement>)
      requires Within(running, cluster, jobs) && forall j | j in ready :: j in jobs
      modifies cluster, jobs
      ensures Within(running', cluster, jobs)
      ensures IsHeap(running) ==> IsHeap(running')
      ensures forall n | n in cluster :: old(n.Valid()) ==> n.Valid()
      ensures sorted == old(SortReadyQueue(ready, now))
      ensures order == if policy.FifoPolicy? then sorted else old(Stf.ShortestFirst(sorted))
      ensures Run(policy, cluster, order, views, trace, r, now)
      ensures views[0] == old(ViewOf(ready, running, cluster, jobs))
      ensures views[|views| - 1] == ViewOf(ready', running', cluster, jobs)
      ensures r.Ok? ==> multiset(ready') + RunJobs(running') == multiset(ready) + RunJobs(running)
      ensures r.Raised? ==> Blamed(views, trace, blame, now)
    {
      var s := SortReadyQueue(ready, now);
      sorted := s;
      PermutedStaysKnown(ready, s, jobs);
      r, ready', running', blame, order, views, trace := RunScheduler(s, ready, running, now);
    }

    /** `self.scheduler.schedule(sorted, ready, running, now)` with the
        engine's policy: the FIFO scheduler runs its passes over `sorted`,
        the STF scheduler over `sorted` re-sorted by remaining time. */
    method RunScheduler(sorted: seq<Job>, ready: seq<Job>, running: seq<RunEntry>, now: real)
      returns (r: Outcome, ready': seq<Job>, running': seq<RunEntry>, ghost blame: Option<Snapshot>,
               ghost order: seq<Job>, ghost views: seq<View>, ghost trace: seq<Placement>)
      requires Within(running, cluster, jobs) && forall j | j in sorted :: j in jobs
      requires multiset(sorted) == multiset(ready)
      modifies cluster, jobs
      ensures Within(running', cluster, jobs)
      ensures IsHeap(running) ==> IsHeap(running')
      ensures forall n | n in cluster :: old(n.Valid()) ==> n.Valid()
      ensures order == if policy.FifoPolicy? then sorted else old(Stf.ShortestFirst(sorted))
      ensures Run(policy, cluster, order, views, trace, r, now)
      ensures views[0] == old(ViewOf(ready, running, cluster, jobs))
      ensures views[|views| - 1] == ViewOf(ready', running', cluster, jobs)
      ensures r.Ok? ==> multiset(ready') + RunJobs(running') == multiset(ready) + RunJobs(running)
      ensures r.Raised? ==> Blamed(views, trace, blame, now)
    {
      match policy
      case FifoPolicy =>
        r, ready', running', blame, views, trace := Fifo.Schedule(cluster, jobs, sorted, ready, running, now);
        order := sorted;
      case StfPolicy =>
        r, ready', running', blame, order, views, trace := Stf.Schedule(cluster, jobs, sorted, ready, running, now);
    }

    /** `_handle_event` at time `now`: arrivals, scheduling and preemptions
        go to their handlers; a completion event is ignored. */
    method HandleEvent(ev: Event, now: real)
      returns (r: Outcome, ghost blame: Option<Snapshot>, ghost sorted: seq<Job>, ghost order: seq<Job>,
               ghost views: seq<View>, ghost trace: seq<Placement>)
      requires Valid()
      modifies this, eventQueue, counter, cluster, jobs, PayloadJobs(ev.payload)
      ensures ev.eventType == Completion ==>
        r == Ok && unchanged(this, eventQueue, counter) && unchanged(cluster, jobs) && unchanged(PayloadJobs(ev.payload))
      ensures r.Ok? ==> Valid()
      ensures ev.eventType == Arrival ==> Arrived(ev.payload, now, r)
      ensures ev.eventType == Preemption ==> Resubmitted(ev.payload, now, r)
      ensures ev.eventType != Scheduling ==> unchanged(cluster) && unchanged(old(jobs) - PayloadJobs(ev.payload))
      ensures ev.eventType == Scheduling && r.Ok? ==>
        multiset(globalReadyQueue) + RunJobs(runningJobs) == old(multiset(globalReadyQueue) + RunJobs(runningJobs))
      ensures ev.eventType == Scheduling ==> Scheduled(now, r, blame, sorted, order, views, trace)
      ensures ev.eventType == Scheduling ==> QueueAndClockKept()
    {
      blame, sorted, order, views, trace := None, [], [], [], [];
      match ev.eventType
      case Arrival =>
        r := HandleArrival(ev.payload, now);
      case Scheduling =>
        r, blame, sorted, order, views, trace := HandleScheduling(now);
      case Preemption =>
        r := HandlePreemption(ev.payload, now);
      case Completion =>
        r := Ok;
    }

    /** The sweep of one popped entry `e`: the job is refreshed; with
        nothing left to run it is completed at `now` on its node (raising
        `StopIteration` when no tenant has its tenant id), otherwise the
        entry to push back, keyed by its new finish time, is returned. */
    method SweepEntry(e: RunEntry, now: real) returns (r: Outcome, back: seq<RunEntry>)
      requires TenantIdsDistinct(tenants)
      modifies e.item.job, e.item.node, tenants
      ensures e.item.job.Fields() == Swept(old(e.item.job.Fields()), now)
      ensures back == PushedBack(e, e.item.job.Fields(), now)
      ensures e.item.node.UsageNow() ==
        ReleasedAll(old(e.item.node.UsageNow()), CompletedAt(e, e.item.job.Fields(), e.item.node))
      ensures old(e.item.node.Valid()) ==> e.item.node.Valid()
      ensures forall t | t in tenants ::
        && t.submittedJobs == old(t.submittedJobs) && t.preemptedJobs == old(t.preemptedJobs)
        && t.completedJobs == old(t.completedJobs) + CompletedFor(e, e.item.job.Fields(), t.id)
      ensures r.Raised? <==>
        e.item.job.remainingTime <= 0.0 && TenantIndex(tenants, e.item.job.tenantId).None?
      ensures r.Raised? ==> r.error == StopIteration
    {
      var job, node := e.item.job, e.item.node;
      RefreshPopped(job, now);
      if job.remainingTime <= 0.0 {
        r := HandleCompletion(job, node, now);
        back := [];
      } else {
        r := Ok;
        back := [RunEntryOf(now + job.remainingTime, job, node)];
      }
    }

    /** `_handle_running_jobs` at time `now`: the running heap is swept
        and replaced by the heap of entries pushed back. The engine stays
        consistent. The popped entries (`order`) leave their jobs with the
        fields `swept`: the new heap holds exactly the requeued entries;
        each tenant's completed jobs gain exactly its completed jobs in pop
        order; each node has released exactly the completed jobs that ran
        on it; and when no job is in two entries, each job's fields are
        the `Swept` form of its old fields. A completed job whose tenant id
        matches no tenant raises `StopIteration`, which leaves the running
        heap with the entries not yet popped. Entries are popped least
        first, and no job other than a popped one changes. */
    method HandleRunningJobs(now: real) returns (r: Outcome, ghost order: seq<RunEntry>, ghost swept: seq<JobFields>)
      requires Valid()
      modifies this, cluster, jobs, tenants
      ensures Valid()
      ensures globalReadyQueue == old(globalReadyQueue) && jobs == old(jobs) && clock == old(clock)
      ensures SweepDone(tenants, cluster, jobs, old(runningJobs), r, runningJobs, order, swept, now)
    {
      var next;
      r, next, order, swept := SweepHeap(runningJobs, now);
      runningJobs := next;
    }

    /** The sweep of `heap` and the heap it leaves behind: the pushed-back
        entries, heapified, when the loop ends normally; the entries not yet
        popped when a completion raises. Each popped job's fields are stated
        against the fields it had on entry. */
    method SweepHeap(heap: seq<RunEntry>, now: real)
      returns (r: Outcome, next: seq<RunEntry>, ghost order: seq<RunEntry>, ghost swept: seq<JobFields>)
      requires IsHeap(heap) && Within(heap, cluster, jobs) && TenantIdsDistinct(tenants)
      requires forall n | n in cluster :: n.Valid()
      modifies jobs, cluster, tenants
      ensures IsHeap(next) && Within(next, cluster, jobs)
      ensures forall n | n in cluster :: n.Valid()
      ensures SweepDone(tenants, cluster, jobs, heap, r, next, order, swept, now)
    {
      ghost var fields0 := map j | j in jobs :: j.Fields();
      var rest, updated;
      r, rest, updated, order, swept := Sweep(heap, now, fields0);
      if r.Raised? {
        next := rest;
      } else {
        next := Heapify(updated);
        WithinShrinks(updated, next, cluster, jobs);
      }
    }

    /** The loop of `_handle_running_jobs` over the heap `heap`: entries are
        popped in order (`order`) and swept, leaving their jobs with the
        fields `swept`; the ones with time left are pushed on `updated`.
        When a completion raises, `rest` holds the entries not yet popped.
        `fields0` holds the fields of the heap's jobs on entry. */
    method Sweep(heap: seq<RunEntry>, now: real, ghost fields0: map<Job, JobFields>)
      returns (r: Outcome, rest: seq<RunEntry>, updated: seq<RunEntry>,
               ghost order: seq<RunEntry>, ghost swept: seq<JobFields>)
      requires IsHeap(heap) && Within(heap, cluster, jobs) && TenantIdsDistinct(tenants)
      requires forall n | n in cluster :: n.Valid()
      requires FieldsTracked(heap, heap, [], [], now, fields0) && Untouched(fields0, [])
      modifies jobs, cluster, tenants
      ensures IsHeap(rest) && IsHeap(updated)
      ensures Within(rest, cluster, jobs) && Within(updated, cluster, jobs)
      ensures forall n | n in cluster :: n.Valid()
      ensures multiset(order) + multiset(rest) == multiset(heap) && |swept| == |order|
      ensures r.Ok? ==> rest == []
      ensures r.Raised? ==>
        && r.error == StopIteration && order != []
        && var last := order[|order| - 1].item.job;
           last.remainingTime <= 0.0 && forall t | t in tenants :: t.id != last.tenantId
      ensures multiset(updated) == multiset(Requeued(order, swept, now))
      ensures TenantsCompleted(tenants, order, swept) && NodesReleased(cluster, order, swept)
      ensures FieldsTracked(heap, rest, order, swept, now, fields0)
      ensures Untouched(fields0, order) && PoppedLeastFirst(order, rest)
    {
      ghost var lists0 := map t | t in tenants :: ListsOf(t);
      ghost var usage0 := map n | n in cluster :: n.UsageNow();
      r, rest, updated, order, swept := SweepLoop(heap, now, fields0, lists0, usage0);
    }

    /** The loop of `_handle_running_jobs` itself, keeping its invariant
        relative to the snapshots taken before it. */
    method SweepLoop(heap: seq<RunEntry>, now: real, ghost fields0: map<Job, JobFields>,
                     ghost lists0: map<Tenant, JobLists>, ghost usage0: map<Node, Usage>)
      returns (r: Outcome, rest: seq<RunEntry>, updated: seq<RunEntry>,
               ghost order: seq<RunEntry>, ghost swept: seq<JobFields>)
      requires SweepInvariant(heap, heap, [], [], [], now, fields0, lists0, usage0)
      modifies jobs, cluster, tenants
      ensures SweepInvariant(heap, rest, updated, order, swept, now, fields0, lists0, usage0)
      ensures r.Ok? ==> rest == []
      ensures r.Raised? ==>
        && r.error == StopIteration && order != []
        && var last := order[|order| - 1].item.job;
           last.remainingTime <= 0.0 && forall t | t in tenants :: t.id != last.tenantId
    {
      rest, updated, order, swept := heap, [], [], [];
      r := Ok;
      while rest != []
        invariant r == Ok
        invariant SweepInvariant(heap, rest, updated, order, swept, now, fields0, lists0, usage0)
        decreases |rest|
      {
        r, rest, updated, order, swept := SweepPass(heap, rest, updated, now, order, swept, fields0, lists0, usage0);
        if r.Raised? {
          return;
        }
      }
    }

    /** What holds after each pass of the sweep's loop: `order` and `rest`
        split `heap`; both heaps stay within the cluster; the pushed-back
        entries are the requeued ones; each tenant has gained exactly its
        completed jobs and each node has released exactly the completed jobs
        that ran on it, counted from the snapshots `lists0` and `usage0`;
        and, when no job is in two entries, each popped job has the `Swept`
        form of its snapshot fields while the jobs not yet popped keep
        theirs; every known job that was not popped keeps its snapshot
        fields; and the entries were popped least first. */
    ghost predicate SweepInvariant(heap: seq<RunEntry>, rest: seq<RunEntry>, updated: seq<RunEntry>,
                                   order: seq<RunEntry>, swept: seq<JobFields>, now: real,
                                   fields0: map<Job, JobFields>, lists0: map<Tenant, JobLists>,
                                   usage0: map<Node, Usage>)
      reads this, tenants, cluster, JobsOf(rest), JobsOf(order), fields0.Keys
    {
      && |swept| == |order|
      && multiset(order) + multiset(rest) == multiset(heap)
      && IsHeap(rest) && IsHeap(updated)
      && Within(rest, cluster, jobs) && Within(updated, cluster, jobs)
      && (forall n | n in cluster :: n.Valid())
      && TenantIdsDistinct(tenants)
      && multiset(updated) == multiset(Requeued(order, swept, now))
      && (forall t | t in tenants ::
            && t in lists0 && t.submittedJobs == lists0[t].0 && t.preemptedJobs == lists0[t].2
            && t.completedJobs == lists0[t].1 + CompletedOf(order, swept, t.id))
      && (forall n | n in cluster ::
            n in usage0 && n.UsageNow() == ReleasedAll(usage0[n], CompletedOn(order, swept, n)))
      && FieldsTracked(heap, rest, order, swept, now, fields0)
      && Untouched(fields0, order)
      && PoppedLeastFirst(order, rest)
    }

    /** One pass of the loop of `_handle_running_jobs`, kept as the
        loop's invariant: the least entry of `rest` is popped, swept and
        recorded in `order` and `swept`. */
    method SweepPass(ghost heap: seq<RunEntry>, rest: seq<RunEntry>, updated: seq<RunEntry>, now: real,
                     ghost order: seq<RunEntry>, ghost swept: seq<JobFields>,
                     ghost fields0: map<Job, JobFields>, ghost lists0: map<Tenant, JobLists>,
                     ghost usage0: map<Node, Usage>)
      returns (r: Outcome, rest': seq<RunEntry>, updated': seq<RunEntry>,
               ghost order': seq<RunEntry>, ghost swept': seq<JobFields>)
      requires rest != [] && SweepInvariant(heap, rest, updated, order, swept, now, fields0, lists0, usage0)
      modifies rest[0].item.job, rest[0].item.node, tenants
      ensures SweepInvariant(heap, rest', updated', order', swept', now, fields0, lists0, usage0)
      ensures |rest'| == |rest| - 1 && order' == order + [rest[0]]
      ensures r.Raised? <==>
        rest[0].item.job.remainingTime <= 0.0 && TenantIndex(tenants, rest[0].item.job.tenantId).None?
      ensures r.Raised? ==> r.error == StopIteration
    {
      var e;
      r, rest', updated', e := SweepStep(heap, order, swept, fields0, rest, updated, now);
      ghost var f := e.item.job.Fields();
      order', swept' := order + [e], swept + [f];
      PopKeepsOrder(order, rest, rest', e);
      SweepAppend(order, swept, e, f, now);
      forall t | t in tenants
        ensures t.completedJobs == lists0[t].1 + CompletedOf(order', swept', t.id)
      {
        ConcatAssoc(lists0[t].1, CompletedOf(order, swept, t.id), CompletedFor(e, f, t.id));
      }
      forall n | n in cluster
        ensures n.UsageNow() == ReleasedAll(usage0[n], CompletedOn(order', swept', n))
      {
        ReleasedAllAppend(usage0[n], CompletedOn(order, swept, n), CompletedAt(e, f, n));
      }
    }

    /** The pop, sweep and push of one entry, keeping the record of job
        fields: the least entry `e` of `rest` is popped and swept, and what
        it pushes back goes on `updated`. */
    method SweepStep(ghost heap: seq<RunEntry>, ghost order: seq<RunEntry>, ghost swept: seq<JobFields>,
                     ghost fields0: map<Job, JobFields>, rest: seq<RunEntry>, updated: seq<RunEntry>, now: real)
      returns (r: Outcome, rest': seq<RunEntry>, updated': seq<RunEntry>, e: RunEntry)
      requires rest != [] && IsHeap(rest) && IsHeap(updated) && TenantIdsDistinct(tenants)
      requires Within(rest, cluster, jobs) && Within(updated, cluster, jobs)
      requires forall n | n in cluster :: n.Valid()
      requires multiset(order) + multiset(rest) == multiset(heap)
      requires FieldsTracked(heap, rest, order, swept, now, fields0)
      requires Untouched(fields0, order)
      modifies rest[0].item.job, rest[0].item.node, tenants
      ensures e == rest[0] && |rest'| == |rest| - 1 && multiset(rest') + multiset{e} == multiset(rest)
      ensures forall y | y in rest' :: !Below(y, e)
      ensures Untouched(fields0, order + [e])
      ensures IsHeap(rest') && IsHeap(updated')
      ensures Within(rest', cluster, jobs) && Within(updated', cluster, jobs)
      ensures forall n | n in cluster :: n.Valid()
      ensures FieldsTracked(heap, rest', order + [e], swept + [e.item.job.Fields()], now, fields0)
      ensures multiset(updated') == multiset(updated) + multiset(PushedBack(e, e.item.job.Fields(), now))
      ensures forall n | n in cluster ::
        n.UsageNow() == ReleasedAll(old(n.UsageNow()), CompletedAt(e, e.item.job.Fields(), n))
      ensures forall t | t in tenants ::
        && t.submittedJobs == old(t.submittedJobs) && t.preemptedJobs == old(t.preemptedJobs)
        && t.completedJobs == old(t.completedJobs) + CompletedFor(e, e.item.job.Fields(), t.id)
      ensures r.Raised? <==>
        e.item.job.remainingTime <= 0.0 && TenantIndex(tenants, e.item.job.tenantId).None?
      ensures r.Raised? ==> r.error == StopIteration
    {
      r, rest', updated', e := PopSweepPush(order, fields0, rest, updated, now);
      if Unshared(heap) {
        PoppedIsFresh(heap, order, rest, rest', e);
        forall x | x in rest' ensures x.item.job.Fields() == fields0[x.item.job] {
          assert x in rest && x.item.job != e.item.job;
        }
        ghost var order', swept' := order + [e], swept + [e.item.job.Fields()];
        forall i | 0 <= i < |order'|
          ensures order'[i].item.job in fields0
          ensures order'[i].item.job.Fields() == swept'[i]
          ensures swept'[i] == Swept(fields0[order'[i].item.job], now)
        {
          if i < |order| {
            assert order'[i] == order[i] && swept'[i] == swept[i];
            assert order[i].item.job != e.item.job;
          } else {
            assert order'[i] == e;
          }
        }
      }
    }

    /** The pop, sweep and push of one entry: the least entry `e` of `rest`
        is popped and swept, and what it pushes back goes on `updated`;
        no other job of `rest` or `done` changes, and every job of `fields0`
        that is not popped keeps the fields recorded for it. */
    method PopSweepPush(ghost done: seq<RunEntry>, ghost fields0: map<Job, JobFields>,
                        rest: seq<RunEntry>, updated: seq<RunEntry>, now: real)
      returns (r: Outcome, rest': seq<RunEntry>, updated': seq<RunEntry>, e: RunEntry)
      requires rest != [] && IsHeap(rest) && IsHeap(updated) && TenantIdsDistinct(tenants)
      requires Within(rest, cluster, jobs) && Within(updated, cluster, jobs)
      requires forall n | n in cluster :: n.Valid()
      requires Untouched(fields0, done)
      modifies rest[0].item.job, rest[0].item.node, tenants
      ensures e == rest[0] && |rest'| == |rest| - 1 && multiset(rest') + multiset{e} == multiset(rest)
      ensures forall y | y in rest' :: !Below(y, e)
      ensures Untouched(fields0, done + [e])
      ensures IsHeap(rest') && IsHeap(updated')
      ensures Within(rest', cluster, jobs) && Within(updated', cluster, jobs)
      ensures forall n | n in cluster :: n.Valid()
      ensures e.item.job.Fields() == Swept(old(e.item.job.Fields()), now)
      ensures forall x | x in rest' && x.item.job != e.item.job :: x.item.job.Fields() == old(x.item.job.Fields())
      ensures forall i | 0 <= i < |done| && done[i].item.job != e.item.job ::
        done[i].item.job.Fields() == old(done[i].item.job.Fields())
      ensures multiset(updated') == multiset(updated) + multiset(PushedBack(e, e.item.job.Fields(), now))
      ensures forall n | n in cluster ::
        n.UsageNow() == ReleasedAll(old(n.UsageNow()), CompletedAt(e, e.item.job.Fields(), n))
      ensures forall t | t in tenants ::
        && t.submittedJobs == old(t.submittedJobs) && t.preemptedJobs == old(t.preemptedJobs)
        && t.completedJobs == old(t.completedJobs) + CompletedFor(e, e.item.job.Fields(), t.id)
      ensures r.Raised? <==>
        e.item.job.remainingTime <= 0.0 && TenantIndex(tenants, e.item.job.tenantId).None?
      ensures r.Raised? ==> r.error == StopIteration
    {
      rest', e := HeapPop(rest);
      WithinShrinks(rest, rest', cluster, jobs);
      JobsOfAppend(done, e);
      var back;
      r, back := SweepEntry(e, now);
      updated' := updated;
      if back != [] {
        updated' := HeapPush(updated, back[0]);
        WithinGrows(updated, updated', back[0], cluster, jobs);
      }
      forall j | j in fields0 && j !in JobsOf(done + [e]) ensures j.Fields() == fields0[j] {
        assert j != e.item.job && j !in JobsOf(done);
      }
      forall n | n in cluster
        ensures n.UsageNow() == ReleasedAll(old(n.UsageNow()), CompletedAt(e, e.item.job.Fields(), n))
      {
        if n != e.item.node {
          assert n.UsageNow() == old(n.UsageNow());
        }
      }
    }
  }

  /** What a sweep of the running heap `heap` did, popping the entries
      `order` and leaving their jobs with the fields `swept`, with outcome
      `r` and the heap `next` left behind:
      - a sweep that returns popped every entry, and `next` holds exactly
        the requeued ones;
      - a sweep that raised did so with `StopIteration` on a completed job
        whose tenant id matches no tenant, and `next` holds the entries not
        yet popped;
      - each tenant gained exactly its completed jobs and each node released
        exactly the completed jobs that ran on it;
      - when no job is in two entries, each popped job holds the `Swept`
        form of its old fields, and no job other than a popped one changed;
      - the entries were popped least first, and none left after a raise is
        below the last one popped. */
  twostate predicate SweepDone(tenants: seq<Tenant>, cluster: seq<Node>, jobs: set<Job>, heap: seq<RunEntry>, r: Outcome,
                               new next: seq<RunEntry>, new order: seq<RunEntry>, swept: seq<JobFields>, now: real)
    reads tenants, cluster, jobs, JobsOf(order)
  {
    && |swept| == |order|
    && (r.Ok? ==> multiset(order) == multiset(heap) && multiset(next) == multiset(Requeued(order, swept, now)))
    && (r.Raised? ==> multiset(order) + multiset(next) == multiset(heap))
    && (r.Raised? ==>
          && r.error == StopIteration && order != []
          && var last := order[|order| - 1].item.job;
             last.remainingTime <= 0.0 && forall t | t in tenants :: t.id != last.tenantId)
    && TenantsCompleted(tenants, order, swept) && NodesReleased(cluster, order, swept)
    && (Unshared(heap) ==> SweptFromOld(heap, order, swept, now))
    && PoppedOnly(jobs, order)
    && PoppedLeastFirst(order, []) && (r.Raised? ==> PoppedLeastFirst(order, next))
  }

  /** Each tenant has gained, as completed jobs, exactly its jobs completed
      among the popped entries `order`, in pop order, and its other lists
      are as they were. */
  twostate predicate TenantsCompleted(tenants: seq<Tenant>, new order: seq<RunEntry>, swept: seq<JobFields>)
    reads tenants
  {
    && |swept| == |order|
    && forall t | t in tenants ::
         && t.submittedJobs == old(t.submittedJobs) && t.preemptedJobs == old(t.preemptedJobs)
         && t.completedJobs == old(t.completedJobs) + CompletedOf(order, swept, t.id)
  }

  /** Each node has released exactly the jobs completed among the popped
      entries `order` that ran on it, in pop order. */
  twostate predicate NodesReleased(cluster: seq<Node>, new order: seq<RunEntry>, swept: seq<JobFields>)
    reads cluster
  {
    && |swept| == |order|
    && forall n | n in cluster ::
         n.UsageNow() == ReleasedAll(old(n.UsageNow()), CompletedOn(order, swept, n))
  }

  /** Each popped entry of `heap` leaves its job with the fields recorded
      in `swept`, the `Swept` form of the fields it had before the sweep. */
  twostate predicate SweptFromOld(heap: seq<RunEntry>, new order: seq<RunEntry>, swept: seq<JobFields>, now: real)
    reads JobsOf(order)
  {
    forall i | 0 <= i < |order| && order[i] in heap ::
      && i < |swept| && order[i].item.job.Fields() == swept[i]
      && swept[i] == Swept(old(order[i].item.job.Fields()), now)
  }

  /** The sweep's record of job fields: one entry of `swept` per popped
      entry and, when no job of `heap` is in two entries, each job not yet
      popped keeps its snapshot fields while each popped job holds the
      `Swept` form of them. */
  ghost predicate FieldsTracked(heap: seq<RunEntry>, rest: seq<RunEntry>, order: seq<RunEntry>,
                                swept: seq<JobFields>, now: real, fields0: map<Job, JobFields>)
    reads JobsOf(rest), JobsOf(order)
  {
    && |swept| == |order|
    && (Unshared(heap) ==>
          && (forall x | x in rest ::
                x.item.job in fields0 && x.item.job.Fields() == fields0[x.item.job])
          && (forall i | 0 <= i < |order| ::
                && order[i].item.job in fields0 && order[i].item.job.Fields() == swept[i]
                && swept[i] == Swept(fields0[order[i].item.job], now)))
  }

  /** Every job recorded in `fields0` that no popped entry of `order`
      holds still has the fields recorded for it. */
  ghost predicate Untouched(fields0: map<Job, JobFields>, order: seq<RunEntry>)
    reads fields0.Keys
  {
    forall j | j in fields0 && j !in JobsOf(order) :: j.Fields() == fields0[j]
  }

  /** Of `jobs`, only those the popped entries `order` hold have changed
      their fields. */
  twostate predicate PoppedOnly(jobs: set<Job>, new order: seq<RunEntry>)
    reads jobs
  {
    forall j | j in jobs && j !in JobsOf(order) :: j.Fields() == old(j.Fields())
  }

  /** The entries were popped least first: no popped entry is below the one
      popped before it, and none of the entries `rest` still on the heap is
      below the last one popped. */
  ghost predicate PoppedLeastFirst(order: seq<RunEntry>, rest: seq<RunEntry>) {
    && (forall i | 0 < i < |order| :: !Below(order[i], order[i - 1]))
    && (order != [] ==> forall x | x in rest :: !Below(x, order[|order| - 1]))
  }

  lemma JobsOfAppend(s: seq<RunEntry>, e: RunEntry)
    ensures JobsOf(s + [e]) == JobsOf(s) + {e.item.job}
  {
    assert e in s + [e];
    forall x | x in s ensures x in s + [e] { }
  }

  /** Popping the least entry of the heap keeps the pops least first. */
  lemma PopKeepsOrder(order: seq<RunEntry>, rest: seq<RunEntry>, rest': seq<RunEntry>, e: RunEntry)
    requires PoppedLeastFirst(order, rest) && rest != [] && e == rest[0]
    requires multiset(rest') + multiset{e} == multiset(rest)
    requires forall y | y in rest' :: !Below(y, e)
    ensures PoppedLeastFirst(order + [e], rest')
  {
    var order' := order + [e];
    forall i | 0 < i < |order'| ensures !Below(order'[i], order'[i - 1]) {
      if i < |order| {
        assert order'[i] == order[i] && order'[i - 1] == order[i - 1];
      } else {
        assert order'[i - 1] == order[|order| - 1];
        assert e in rest;
      }
    }
  }

  /** Fewer entries stay on the cluster and among the known jobs. */
  lemma WithinShrinks(running: seq<RunEntry>, running': seq<RunEntry>, cluster: seq<Node>, jobs: set<Job>)
    requires Within(running, cluster, jobs) && multiset(running') <= multiset(running)
    ensures Within(running', cluster, jobs)
  {
    forall x | x in running' ensures x in running {
      assert x in multiset(running');
    }
  }

  /** The sweep's summaries of popped entries extend one entry at a time. */
  lemma SweepAppend(s: seq<RunEntry>, fs: seq<JobFields>, e: RunEntry, f: JobFields, now: real)
    requires |fs| == |s|
    ensures Requeued(s + [e], fs + [f], now) == Requeued(s, fs, now) + PushedBack(e, f, now)
    ensures forall id :: CompletedOf(s + [e], fs + [f], id) == CompletedOf(s, fs, id) + CompletedFor(e, f, id)
    ensures forall n :: CompletedOn(s + [e], fs + [f], n) == CompletedOn(s, fs, n) + CompletedAt(e, f, n)
  {
    assert (s + [e])[..|s|] == s;
    assert (fs + [f])[..|fs|] == fs;
  }

  /** Lines 205-207 of the sweep: a running job with a truthy last start
      time loses the time since that start, floored at 0. */
  method RefreshPopped(job: Job, now: real)
    modifies job
    ensures job.Fields() == Refreshed(old(job.Fields()), now)
  {
    if job.state == Running && Truthy(job.lastStartTime) {
      job.remainingTime := Max0(job.remainingTime - (now - job.lastStartTime.value));
    }
  }

  /** Associativity of concatenation, as a lemma of its own so that the
      proof of `SweepPass` does not have to rediscover it in its large
      context. */
  lemma ConcatAssoc<T>(a: seq<T>, b: seq<T>, c: seq<T>)
    ensures (a + b) + c == a + (b + c)
  {
  }

  /** Releasing `a` and then `b` is releasing `a + b`. */
  lemma {:induction false} ReleasedAllAppend(u: Usage, a: seq<Job>, b: seq<Job>)
    ensures ReleasedAll(ReleasedAll(u, a), b) == ReleasedAll(u, a + b)
    decreases |b|
  {
    if b == [] {
      assert a + b == a;
    } else {
      var k := |b| - 1;
      ReleasedAllAppend(u, a, b[..k]);
      assert (a + b)[..|a + b| - 1] == a + b[..k];
    }
  }

  /** A reordering of known jobs holds only known jobs. */
  lemma PermutedStaysKnown(s: seq<Job>, t: seq<Job>, jobs: set<Job>)
    requires (forall j | j in s :: j in jobs) && multiset(t) == multiset(s)
    ensures forall j | j in t :: j in jobs
  {
    forall j | j in t ensures j in jobs {
      assert j in multiset(s);
    }
  }

  /** With nothing in the ready queue there is nothing to sort and no pass
      to run. */
  lemma NothingToSchedule(policy: Policy, cluster: seq<Node>, v: View, now: real)
    ensures SortReadyQueue([], now) == [] && Stf.ShortestFirst([]) == []
    ensures Run(policy, cluster, [], [v], [], Ok, now)
  {
    assert |SortReadyQueue([], now)| == |multiset(SortReadyQueue([], now))| == 0;
    assert |Stf.ShortestFirst([])| == |multiset(Stf.ShortestFirst([]))| == 0;
  }

  /** A scheduler call that returns conserves the jobs between the ready
      queue and the running heap, so every ready job is still a known one. */
  lemma ConservedJobsStayKnown(ready: seq<Job>, ready': seq<Job>, running: seq<RunEntry>,
                               running': seq<RunEntry>, cluster: seq<Node>, jobs: set<Job>)
    requires (forall j | j in ready :: j in jobs) && Within(running, cluster, jobs)
    requires multiset(ready') + RunJobs(running') == multiset(ready) + RunJobs(running)
    ensures forall j | j in ready' :: j in jobs
  {
    RunJobsWithin(running, cluster, jobs);
    forall j | j in ready' ensures j in jobs {
      assert j in multiset(ready');
      assert j in multiset(ready) + RunJobs(running);
    }
  }
}
