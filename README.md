# NeuroSched scheduling core in Dafny

This project models the cluster-scheduling core of the NeuroSched backend, a
simulator of a multi-tenant compute cluster. Tenants submit jobs. Each job
has cpu, ram and gpu requests, a priority (low, med or high) and a duration.
The engine places jobs on nodes, preempts them and completes them. It
reports each tenant's throughput and average wait.

The model covers these parts:

- **Records** (`schemas.dfy`):
  - the run configuration and the constraints its field types declare;
  - jobs, whose mutable fields live in a `class`;
  - nodes with `can_allocate`, `allocate` and `release`, which update the
    used amounts and the list of job ids in place.
- **Events** (`event.dfy`, `event_queue.dfy`):
  - the four event types;
  - `make_event` with its process-wide counter;
  - the event queue, a binary heap of `(time, counter, event)` entries.
- **The heap** (`heapq.dfy`): CPython's `heapq` (`heappush`, `heappop`,
  `heapify`). Each operation makes the same moves as CPython's `_siftdown`
  and `_siftup`, on a `seq` value.
- **Ordering the ready queue**:
  - `job_utils.dfy`: `priority_value` and `sort_ready_queue`;
  - `sorting.dfy`: a stable sort. A stable sort's output is fixed by the
    keys, so this sort returns what Python's `sorted` returns.
- **The schedulers** (`fifo.dfy`, `stf.dfy`, with `scheduling.dfy` holding
  what they share):
  - first-fit placement;
  - each policy's victim search;
  - `_allocate_job` with its wait-time accounting;
  - `preempt_and_allocate`;
  - the `schedule` loop.

  `passes.dfy` states what the loop does, for either policy, over values. A
  `View` holds the ready queue, the running heap, each node's usage and each
  job's fields. A `Step` says what one pass on one job does between two
  views: first-fit placement, else preemption of the first qualifying
  victim, else waiting with nothing changed. A `Run` is the sequence of
  steps over the jobs in the order the scheduler takes them, ending early
  only at a raise. Each scheduler's `Schedule` returns its run as ghost
  values, and the engine's `HandleScheduling` passes it on together with
  the sorted ready queue.
- **Tenants** (`tenant.dfy`): throughput, total jobs and average wait.
- **The engine** (`engine.dfy`):
  - construction of tenants `tenant-1..n` and nodes `node-1..k`;
  - the arrival, preemption, scheduling and completion handlers, and
    event dispatch;
  - the sweep over the running-jobs heap;
  - results collection;
  - the live loop's rule of emitting a state only when it changed.

How the Python is rendered:

- Every clock read becomes a `now` parameter.
- An exception becomes `Raised(error)` in an `Outcome`. Any mutation made
  before the raise is kept.
- `list.remove` becomes `RemoveFirst`.

The model keeps three quirks of the code rather than fixing them:

- **The sweep counts elapsed time twice.** The sweep takes the time since
  `last_start_time` off `remaining_time` on every pass and never moves
  `last_start_time`. `SweepCountsElapsedTwice` shows the effect.
- **A dead test in `_handle_completion`.** It compares a `Job` with the
  node's list of id strings, so the test never holds. The id leaves the
  node only through `release`.
- **`preemption_enabled` is never read.** Both schedulers always attempt
  preemption.

No run of the engine is proved never to raise. Two weaker facts are proved:

- When the jobs handed to a scheduler are all in the ready queue, FIFO's
  unconditional `remove` cannot raise. A scheduling pass then raises only
  when the victim it chose had no last start time, or its id was not on its
  node. The ghost `blame` snapshot records that victim as it was when
  chosen.
- The sweep raises only when a completed job's tenant id matches no tenant.

## Model

| member | source | states |
|---|---|---|
| Common.RemoveFirst | backend/schedulers/fifo_scheduler.py:65 | `list.remove` of a present element: the list has one element fewer and its multiset loses exactly one copy of it |
| Common.RemoveFirstDropsFirst | backend/schedulers/fifo_scheduler.py:65 | `list.remove` takes out the first occurrence of the element: the result is the list with the element at index i cut out, where i is the first index holding it, so the other elements keep their order |
| Schemas.ConfigErrors | backend/api/schemas.py:11-35 | the validator's list of failing fields is empty exactly when every declared constraint holds: the positive counts, `per_node_gpus >= 0`, the two literals, `arrival_rate > 0`, positive duration/cpu/ram range ends and non-negative gpu range ends, priority names among low/med/high |
| Schemas.WithDefaults | backend/api/schemas.py:21-35 | a configuration given only the fields without defaults (arrival model "poisson", request ranges (1, 4), (512, 8192) and (0, 1), scheduler "fifo", preemption off) is accepted exactly when the given fields meet their constraints |
| Schemas.ReversedRangesAreAccepted | backend/api/schemas.py:24-28 | every accepted configuration is still accepted with the two ends of each of its four ranges swapped: no range compares its ends |
| Schemas.Job.constructor | backend/api/schemas.py:48-63 | a new job is queued and has no start, end, preemption or last start time; it has zero wait and, as the job generator sets it, its whole duration to run |
| Schemas.Released | backend/api/schemas.py:96-101 | `release` of a job whose id is not listed changes nothing; otherwise the job's cpu, ram and gpus come off the used amounts and one copy of its id leaves the list |
| Schemas.ReleaseUndoesAllocate | backend/api/schemas.py:88-101 | `allocate` then `release` of the same job restores the used cpu, ram and gpus and the multiset of listed ids |
| Schemas.FitAfterRemovalIsFitAfterRelease | backend/schedulers/fifo_scheduler.py:78-82 | when the victim's id is on the node, the victim search's test "used − victim + incoming ≤ total" on all three resources is exactly `can_allocate` of the incoming job after releasing the victim |
| Schemas.Node.constructor | backend/api/schemas.py:69-79 | a new node has the given totals, uses nothing and lists no jobs; with totals that are not negative it is not over-committed |
| Schemas.Node.Allocate | backend/api/schemas.py:81-94 | raises `ValueError` exactly when `can_allocate` (free cpu, ram and gpus each cover the request) fails, and then changes nothing; otherwise adds the job's requests and appends its id; totals never change and `used ≤ total` is preserved |
| Schemas.Node.Release | backend/api/schemas.py:96-101 | the node's usage becomes `Released` of the old usage; `used ≤ total` is preserved |
| Events.EventTypeOf | backend/simulation/event.py:9-13 | exactly the four strings arrival, completion, preemption and scheduling name an event type, each naming the member with that value |
| Events.EventTypeValueRoundTrip | backend/simulation/event.py:9-13 | every event type is found again from its value |
| Events.EventCounter.constructor | backend/simulation/event.py:23-24 | the counter starts at 0 |
| Events.EventCounter.MakeEvent | backend/simulation/event.py:26-27 | the triple's first component and the event's time are `time`, the event carries the given type and payload, and the counter component is the current count, which then moves up by one |
| Events.FreshCounterKeepsKeysDistinct | backend/simulation/event.py:20-27 | adding a freshly numbered entry to entries numbered below the counter keeps the counters distinct, so any two entries that agree on `(time, counter)` are the same entry and no two events are ever compared |
| EventQueues.EventQueue.constructor | backend/simulation/event_queue.py:9-10 | a new queue is empty and a heap |
| EventQueues.EventQueue.Push | backend/simulation/event_queue.py:12-13 | the queue gains exactly the pushed entry, stays a heap and is not empty |
| EventQueues.EventQueue.Pop | backend/simulation/event_queue.py:15-18 | an empty queue gives `None` and stays empty; otherwise it gives the event of an entry no other entry is below, that entry alone leaves, and the queue stays a heap; the result is what `Peek` showed |
| EventQueues.EventQueue.Peek | backend/simulation/event_queue.py:20-21 | `None` exactly when the queue is empty, otherwise the event of a least entry, which stays in the queue |
| EventQueues.EventQueue.IsEmpty | backend/simulation/event_queue.py:23-24 | true exactly when the queue has no entries |
| EventQueues.EqualTimesInCreationOrder | backend/simulation/event_queue.py:12-18 | of two queued events with equal times, the one made later is never at the front while the earlier one is queued |
| HeapQ.HeapRootIsLeast | backend/simulation/event_queue.py:20-21 | no entry of a heap is below its first entry |
| HeapQ.HeapPush | backend/simulation/event_queue.py:13 | `heappush` adds exactly one entry and keeps the heap order |
| HeapQ.HeapPop | backend/simulation/event_queue.py:18 | `heappop` returns the first entry and removes exactly that entry; on a heap the rest stays a heap and nothing in it is below the returned entry |
| HeapQ.Heapify | backend/simulation/engine.py:218 | `heapify` permutes the list into heap order |
| Sorting.Sort | backend/utils/job_utils.py:20-26 | `sorted`: a permutation of the input in non-decreasing key order |
| Sorting.SortIsStable | backend/utils/job_utils.py:20-26 | elements with equal keys keep their input order |
| JobUtils.PriorityValue | backend/utils/job_utils.py:9-11 | low, med and high rank 1, 2 and 3; every other string ranks 0 |
| JobUtils.SortReadyQueue | backend/utils/job_utils.py:14-26 | the sorted ready queue is a permutation of the input (the input itself is a value and cannot change); priority ranks never increase, and within one rank arrival times never decrease |
| JobUtils.ReadyOrder | backend/utils/job_utils.py:22-25 | ascending `(-priority, -(now - arrival))` keys mean descending rank, then ascending arrival |
| JobUtils.SortReadyQueueIsStable | backend/utils/job_utils.py:20-26 | jobs of equal rank and equal arrival time keep their input order |
| Scheduling.StartRunning | backend/schedulers/fifo_scheduler.py:52-64 | a first start records `start_time = now` and `wait_time = now - arrival_time`; a resume with a truthy preemption time adds `now - preemption_time` to the wait and clears the preemption time; the job then runs from `now` |
| Scheduling.WaitAccountingOverPreemption | backend/schedulers/fifo_scheduler.py:52-99 | a job started at t1, preempted at p and resumed at t2 has waited `(t1 - arrival) + (t2 - p)`; it keeps its first start time, has no preemption time left, and has lost exactly the `p - t1` it ran, floored at 0 |
| Scheduling.EvictedAccounting | backend/schedulers/stf_scheduler.py:109-114 | a preempted victim's remaining time is never negative, and never grows when the clock has not gone back; a later resume counts its wait since the preemption |
| Scheduling.FirstFit | backend/schedulers/fifo_scheduler.py:23-27 | the index of the first node in cluster order that `can_allocate` the job; `None` exactly when no node can |
| Scheduling.Evict | backend/schedulers/fifo_scheduler.py:87-100 | the victim's entry leaves the heap, which stays a heap, and its node releases it; with a last start time the victim is marked preempted and appended to the ready queue; without one `TypeError` is raised after the heap and node changed |
| Scheduling.TakeOff | backend/schedulers/fifo_scheduler.py:89-90 | removing the victim's entry and heapifying leaves a heap with exactly that entry gone |
| Scheduling.MarkPreempted | backend/schedulers/fifo_scheduler.py:94-99 | remaining time becomes `max(0, remaining - (now - last_start_time))`, the state becomes preempted and the preemption time becomes `now` |
| Scheduling.PreemptionMovesJobs | backend/schedulers/fifo_scheduler.py:86-107 | a preemption only trades jobs between the ready queue and the running heap, losing or duplicating none; every ready job other than the new one is still ready |
| Passes.StepConserves | backend/schedulers/fifo_scheduler.py:21-38 | a pass of either scheduler that returns only moves jobs between the ready queue and the running heap, taking at most the scheduled job out of the ready queue (for STF, when that job is ready) |
| Passes.StepBlame | backend/schedulers/fifo_scheduler.py:86-107 | a pass that raises preempted an entry that was not evictable: no last start time, or its id not on its node (for FIFO, when the scheduled job is ready) |
| Passes.RunStep | backend/schedulers/fifo_scheduler.py:21 | pass `i` of a run is a `Step` on `order[i]` from view `i` to view `i + 1` |
| Passes.RunGrows | backend/schedulers/fifo_scheduler.py:21-38 | a run that returned so far, extended by one `Step` from its last view, is a run over one more job |
| Passes.RunOfPrefix | backend/schedulers/fifo_scheduler.py:21 | a run over a prefix that raised, or that covers everything, is a run over the whole order: the loop stops early only at a raise |
| Passes.HeadStillReady | backend/schedulers/fifo_scheduler.py:21 | when the unprocessed jobs are all ready, the next one is ready |
| Passes.TailStillReady | backend/schedulers/fifo_scheduler.py:21 | after a pass that took at most its own job out of the ready queue, the jobs still to come are still ready |
| Passes.RunMovesJobs | backend/schedulers/fifo_scheduler.py:21-38 | after any number of returning passes, the jobs held in ready queue and running heap are those held at the start, and the jobs still to come are still ready when all started out ready |
| Passes.RunFinished | backend/schedulers/stf_scheduler.py:24-42 | a stopped run is a run over the whole order; a returning run conserves the jobs; a raising run is `Blamed` on its last pass's victim, as it was then (FIFO: when all jobs started out ready) |
| Fifo.FindVictim | backend/schedulers/fifo_scheduler.py:75-84 | the first entry in list order whose priority is strictly below the incoming job's and whose node fits the incoming job once the victim is taken off; `None` exactly when no entry qualifies |
| Fifo.AllocateJob | backend/schedulers/fifo_scheduler.py:49-68 | a full node raises `ValueError` and nothing changes; otherwise the node allocates the job and the start bookkeeping runs; the unconditional `remove` raises when the job is not ready, and otherwise the job's first copy leaves the ready queue and `(now + remaining, job, node)` is pushed, keeping the heap order |
| Fifo.PreemptAndAllocate | backend/schedulers/fifo_scheduler.py:86-107 | the victim is evicted and the new job is allocated on its node; when the victim was evictable (it had a last start time and its id was on its node), the allocation cannot fail, and the call succeeds exactly when the new job is in the ready queue |
| Fifo.Place | backend/schedulers/fifo_scheduler.py:23-26 | `_allocate_job` on a cluster node that fits the job, between views of the state: that node's usage gains the job's requests and no other node's changes, the job has started as of `now` and no other job changes, the job leaves the ready queue or the unconditional `remove` raises, and its entry is pushed unless it raised; the heap order and `used ≤ total` are kept |
| Fifo.Preempt | backend/schedulers/fifo_scheduler.py:31-34 | `preempt_and_allocate` of a qualifying heap entry, between views: only the victim's node, the victim and the new job change, as `Preempting` says (release, then `TypeError`, or requeue and then `ValueError` or allocation), and the victim's entry is swapped for the new job's unless it raised |
| Fifo.PreemptOrWait | backend/schedulers/fifo_scheduler.py:29-35 | when no node fits: the first heap entry in list order that qualifies against the state is preempted as `Preempt` says; when none qualifies the job waits and the state is exactly as before |
| Fifo.ScheduleOne | backend/schedulers/fifo_scheduler.py:21-38 | one iteration of the outer loop is a `Step`: the first node in cluster order that fits gets the job (`Place`); with no fit, `PreemptOrWait`; the placement chosen is returned |
| Fifo.SchedulePass | backend/schedulers/fifo_scheduler.py:21-38 | a run that has so far returned grows by exactly one pass on the next job, ending in the new state |
| Fifo.Schedule | backend/schedulers/fifo_scheduler.py:11-38 | the passes form a `Run` over `sorted` from the state before to the state after: job `i` is taken in pass `i`, each pass is a `Step`, and the loop stops early only at a raise; a returning call loses or duplicates no job between ready queue and running heap; when every sorted job is ready, a raise is `Blamed` on the last pass's victim, which was not evictable; heap order and `used ≤ total` are kept |
| Stf.ShortestFirst | backend/schedulers/stf_scheduler.py:18-22 | the re-sort is a permutation with remaining times non-decreasing and, at equal remaining times, priority ranks non-increasing |
| Stf.ShortestFirstIsStable | backend/schedulers/stf_scheduler.py:18-22 | jobs with equal remaining time and equal rank keep their input order |
| Stf.NeverOwnVictim | backend/schedulers/stf_scheduler.py:85-92 | a job never qualifies as its own victim |
| Stf.FindVictim | backend/schedulers/stf_scheduler.py:82-99 | the first entry whose job has more remaining time than the incoming job, or as much and a strictly lower rank, and whose node fits the incoming job once it is taken off; `None` exactly when no entry qualifies |
| Stf.AllocateJob | backend/schedulers/stf_scheduler.py:53-73 | a full node raises `ValueError` and nothing changes; otherwise it never raises: the start bookkeeping runs, the job leaves the ready queue only if it is there, and its entry is pushed keeping the heap order |
| Stf.PreemptAndAllocate | backend/schedulers/stf_scheduler.py:101-123 | the victim's remaining time is cut by the time it ran and floored at 0, it is marked preempted and requeued, and the new job is allocated on its node; the call succeeds whenever the victim was evictable |
| Stf.Place | backend/schedulers/stf_scheduler.py:26-29 | `_allocate_job` on a cluster node that fits the job, between views: only that node and that job change, the job has started as of `now`, it leaves the ready queue only if it is there, and its entry is pushed; the heap order and `used ≤ total` are kept |
| Stf.Preempt | backend/schedulers/stf_scheduler.py:34-38 | `preempt_and_allocate` of a qualifying heap entry, between views: only the victim's node, the victim and the new job change, as `Preempting` says, and the victim's entry is swapped for the new job's unless it raised |
| Stf.PreemptOrWait | backend/schedulers/stf_scheduler.py:32-39 | when no node fits: the first heap entry in list order that qualifies against the state (by remaining time, then rank) is preempted as `Preempt` says; when none qualifies the job waits and the state is exactly as before |
| Stf.ScheduleOne | backend/schedulers/stf_scheduler.py:24-42 | one iteration of the outer loop is a `Step`: first-fit placement (`Place`), else `PreemptOrWait`; the placement chosen is returned |
| Stf.SchedulePass | backend/schedulers/stf_scheduler.py:24-42 | a run that has so far returned grows by exactly one pass on the next job, ending in the new state |
| Stf.SchedulePasses | backend/schedulers/stf_scheduler.py:24-42 | the loop's passes form a `Run` over `order` from the state before to the state after; a raise is `Blamed` on a non-evictable victim; when every job of `order` is ready, a returning loop conserves the jobs of ready queue and running heap |
| Stf.Schedule | backend/schedulers/stf_scheduler.py:8-42 | the jobs are re-sorted into `order == ShortestFirst(sorted)` and the passes form a `Run` over `order` from the state before to the state after; a raise is always `Blamed` on the last pass's victim, which was not evictable; when every job handed in is ready, a returning call conserves the jobs; heap order and `used ≤ total` are kept |
| Tenants.Tenant.constructor | backend/models/tenant.py:8-12 | a new tenant has no jobs, so zero throughput, zero total jobs and a zero average wait |
| Tenants.Tenant.Throughput | backend/models/tenant.py:23-24 | the number of completed jobs |
| Tenants.Tenant.TotalJobs | backend/models/tenant.py:20-21 | the number of submitted jobs |
| Tenants.Tenant.AvgWaitTime | backend/models/tenant.py:14-16 | 0.0 when no job has completed |
| Tenants.AvgWaitTimeIsMean | backend/models/tenant.py:17-18 | with completed jobs, the average times their number is the sum of `start_time - arrival_time` over those with a truthy start time |
| Tenants.TotalWaitBounds | backend/models/tenant.py:17 | when every counted wait lies in `[0, bound]`, the sum lies in `[0, bound * n]` |
| Tenants.AvgWaitTimeBounds | backend/models/tenant.py:14-18 | when every counted wait lies in `[0, bound]`, so does the average |
| Tenants.TotalWaitAppend | backend/models/tenant.py:17-18 | one more completed job adds its own wait to the sum; a job without a truthy start time adds nothing but still counts in the divisor |
| Engine.NamesDiffer | backend/simulation/engine.py:26-35 | `f"{prefix}{i}"` names differ for different numbers |
| Engine.NewTenants | backend/simulation/engine.py:26 | `tenant-1 .. tenant-n`, all fresh, all without jobs, with distinct ids |
| Engine.NewNodes | backend/simulation/engine.py:27-35 | `node-1 .. node-k`, all fresh, each with the configured totals and nothing used |
| Engine.TenantIndex | backend/simulation/engine.py:143 | the position of the first tenant with the id; `None` (where `next` raises) exactly when no tenant has it |
| Engine.SweptAccounting | backend/simulation/engine.py:205-215 | a swept job never has a negative remaining time; with nothing left it is completed at `now`; with time left its state and end time are unchanged, and its remaining time is either unchanged or less by the time since its last start; its start, wait, preemption and last start times are untouched |
| Engine.SweepCountsElapsedTwice | backend/simulation/engine.py:205-207 | two sweeps at t1 and t2 of a job started at s take off `(t1 - s) + (t2 - s)`, more than the `t2 - s` it ran |
| Engine.Requeued | backend/simulation/engine.py:213-215 | the pushed-back entries are keyed after `now`, and each is `(now + remaining, job, node)` for a popped job with time left |
| Engine.RequeuedOrFinished | backend/simulation/engine.py:209-215 | every popped entry is either pushed back or completed, never both and never dropped |
| Engine.LastWins | backend/simulation/engine.py:223-224 | a dict comprehension's keys are exactly the keys of its pairs |
| Engine.LastWinsPicksLast | backend/simulation/engine.py:223-224 | a pair whose key no later pair repeats gives the dict its value |
| Engine.ChangesNeverRepeat | backend/simulation/engine.py:170-191 | no two consecutive yielded states are equal, and the first differs from the state yielded before |
| Engine.ChangesAreTheChangedStates | backend/simulation/engine.py:176-191 | a computed state is yielded exactly when it differs from the state computed just before it |
| Engine.SimulationEngine.constructor | backend/simulation/engine.py:19-38 | clock at 0, an empty event queue, no ready or running jobs; `num_tenants` tenants `tenant-i` without jobs; `cluster_nodes` nodes `node-i` with the configured totals and nothing used; the engine's invariant holds |
| Engine.SimulationEngine.CurrentState | backend/simulation/engine.py:170-174 | the compared state: ready-queue length, one `(id, tenant)` per running entry, total completed jobs |
| Engine.SimulationEngine.CollectResults | backend/simulation/engine.py:222-232 | empty utilization; throughput and average-wait maps keyed by exactly the tenant ids, each tenant's own value under its id; fairness computed from the average waits |
| Engine.SimulationEngine.ThroughputByTenant | backend/simulation/engine.py:223 | keys are the tenant ids and each maps to that tenant's throughput |
| Engine.SimulationEngine.AvgWaitByTenant | backend/simulation/engine.py:224 | keys are the tenant ids and each maps to that tenant's average wait |
| Engine.SimulationEngine.HandleCompletion | backend/simulation/engine.py:133-144 | the node releases the job; the job is completed at `finish_time` with no time left; exactly the tenant with its tenant id gains it as a completed job (its throughput rises by one); `StopIteration` exactly when no tenant has that id |
| Engine.SimulationEngine.PushEvent | backend/simulation/engine.py:113 | exactly one event `(now, counter, Event(now, type, payload))` joins the queue, the counter moves up by one, and all counters stay distinct |
| Engine.SimulationEngine.HandleArrival | backend/simulation/engine.py:102-113 | `Arrived`: a `None` payload raises `AttributeError` and changes nothing; otherwise the job arrives at `now` without last start or preemption time and with its other fields kept, joins the end of the ready queue, and exactly one counter-numbered scheduling event at `now` is pushed; the running heap and clock are untouched |
| Engine.SimulationEngine.HandlePreemption | backend/simulation/engine.py:124-131 | `Resubmitted`: a `None` payload raises `AttributeError` and changes nothing; otherwise the job, untouched, joins the end of the ready queue and exactly one counter-numbered scheduling event at `now` is pushed; the running heap and clock are untouched |
| Engine.SimulationEngine.HandleScheduling | backend/simulation/engine.py:115-122 | an empty ready queue changes nothing and runs no pass; otherwise `Scheduled`: `sorted` is `sort_ready_queue` of the ready queue at `now`, `order` is `sorted` (FIFO) or `ShortestFirst(sorted)` (STF), the policy's passes over `order` are a `Run` from the engine's state before to its state after, and a raise is `Blamed` on a non-evictable victim; a returning call conserves the jobs and restores the engine's invariant; in every case the event queue, the counter, the clock and the known jobs are kept (`QueueAndClockKept`) |
| Engine.SimulationEngine.ScheduleReady | backend/simulation/engine.py:119-122 | with a non-empty ready queue: `Scheduled` holds, the event queue, counter, clock and known jobs are kept (`QueueAndClockKept`), and a returning call conserves the jobs and restores the engine's invariant |
| Engine.SimulationEngine.Install | backend/simulation/engine.py:120-122 | the engine takes the scheduler's ready queue and running heap as its own; node usage and job fields are untouched |
| Engine.SimulationEngine.SortAndSchedule | backend/simulation/engine.py:119-122 | `sorted` is `SortReadyQueue(ready, now)` and is what goes to the policy; the passes over the policy's `order` are a `Run` between the views before and after; jobs are conserved when it returns and a raise is `Blamed` |
| Engine.SimulationEngine.RunScheduler | backend/simulation/engine.py:120-122 | `self.scheduler.schedule` dispatched on the engine's policy: FIFO runs its passes over `sorted`, STF over `ShortestFirst(sorted)`, with the same `Run`, conservation and blame |
| Engine.SimulationEngine.HandleEvent | backend/simulation/engine.py:93-100 | an arrival event is handled as `Arrived` says, a preemption event as `Resubmitted`, a scheduling event as `Scheduled`, with the event queue, the counter, the clock and the known jobs kept (`QueueAndClockKept`); outside scheduling no node and no known job other than the payload's changes; a completion event changes nothing at all, not the engine, the event queue, the nodes, the known jobs nor its payload |
| Engine.SimulationEngine.HandleRunningJobs | backend/simulation/engine.py:197-218 | `SweepDone`: the whole heap is popped; the new heap holds exactly the popped entries with time left, keyed `now + remaining`; each tenant gains exactly its completed jobs in pop order; each node releases exactly the completed jobs that ran on it; with no job in two entries each job's fields are the `Swept` form of its old ones; `StopIteration` only for a completed job whose tenant id matches no tenant, leaving the unpopped entries; entries are popped least first, and after a raise no entry left on the heap is below the last one popped; no job other than a popped one changes |
| Engine.SimulationEngine.SweepHeap | backend/simulation/engine.py:200-218 | the sweep followed by `heapify` of the pushed-back entries: `SweepDone`, the same accounting as `HandleRunningJobs` on a given heap, and the result is a heap within the cluster; popped least first, and only popped jobs change |
| Engine.SimulationEngine.Sweep | backend/simulation/engine.py:200-216 | popped and unpopped entries split the heap; the pushed-back heap holds the requeued entries; tenants and nodes change exactly by the completed jobs; job fields follow `Swept`; entries are popped least first and none left is below the last one popped; every job not popped keeps its fields |
| Engine.SimulationEngine.SweepLoop | backend/simulation/engine.py:202-216 | the `while running_jobs` loop keeps the sweep invariant (including least-first pops and unpopped jobs keeping their fields) until the heap is empty or a completion raises |
| Engine.SimulationEngine.SweepPass | backend/simulation/engine.py:203-215 | one iteration pops the least entry, records it, and keeps the sweep invariant; it raises exactly when that job is done and no tenant has its id |
| Engine.SimulationEngine.SweepStep | backend/simulation/engine.py:203-215 | one pop, sweep and push, with the popped job's fields recorded as the `Swept` form of its fields on entry; nothing left on the heap is below the popped entry, and every job not popped so far keeps its recorded fields |
| Engine.SimulationEngine.PopSweepPush | backend/simulation/engine.py:203-215 | the least entry is popped and swept, what it pushes back goes on the new heap, and no other job changes; nothing left is below the popped entry, and every recorded job not popped keeps its recorded fields |
| Engine.SimulationEngine.SweepEntry | backend/simulation/engine.py:205-215 | the popped job is refreshed; with nothing left it is completed on its node and credited to its tenant, else its entry keyed by the new finish time is returned |
| Engine.RefreshPopped | backend/simulation/engine.py:205-207 | a running job with a truthy last start time loses the time since that start, floored at 0; any other job is unchanged |
| Engine.NothingToSchedule | backend/simulation/engine.py:116-117 | with an empty ready queue both sorts give the empty list and the empty run from the current state is a `Run` that returns |
| Engine.PopKeepsOrder | backend/simulation/engine.py:203 | popping the least entry of the heap keeps the sequence of popped entries in non-decreasing `(finish_time, tie)` order, with nothing left below the last one |

## Left out

- Clock reads: the source calls `time.time()` again in each `_allocate_job` and preemption. The model gives one `now` to a whole handler call, so all allocations in one scheduling pass see the same time.
- Job equality: pydantic compares jobs field by field. The model compares job references. Job ids are uuids, so two distinct jobs with equal fields do not occur.
- Running-heap ties: `(finish_time, job, node)` tuples with equal finish times make Python compare two `Job`s, which raises `TypeError`. The model gives every running entry the same tie component and lets such entries compare equal.
- `Event._counter`: the field is never set or read.
- Payloads: the model has only `Job` and `None`; the core never sends any other payload.
- `fairness_from_wait_times` is a floating-point formula in a file that is not part of this model. `CollectResults` takes it as a function parameter.
- Floating point: times are exact reals, so rounding is not modelled.
- The RL scheduler: its source is not part of this model. The engine's policy is FIFO or shortest-remaining-time-first.
- `run` and `run_live` outer loops: their wall-clock bounds, sleeps and stop flag. This includes `run`'s step 3 (`engine.py:60-64`, refreshing remaining times from `duration`), which only feeds the loops. `run_live`'s change rule is modelled as `Changes` over the sequence of computed states. The snapshot's `round()`ed times and per-job dictionaries are not modelled.
- `_ingest_new_jobs`: it drains a queue filled by the job generator's thread. Threads and that generator are not part of this model.
- Modules not modelled: the job generator, the web server, the Redis store, `main.py` and logging. They are I/O, randomness and concurrency.
- `Job.remaining_time` and `Job.wait_time` are declared `Optional`. The model keeps them as numbers: the job generator sets `remaining_time` to the duration, and `wait_time` keeps its default 0.0.
- No engine-wide proof that the schedulers and the sweep never raise. That needs a consistency invariant tying each running entry to its node's id list and to its job's last start time; it is not proved. What is proved instead: a scheduling raise is blamed on a non-evictable victim, and a sweep raise on an unknown tenant id.
- Engine.SimulationEngine.HandleRunningJobs: the per-job field contract is stated only when no job is in two entries of the running heap. A job in two entries is swept twice, and the model does not track that double update.
- Engine.SimulationEngine.SweepHeap: the same restriction applies to its per-job field contract.
- Engine.SimulationEngine.Sweep: the same restriction applies; its per-job `Swept` fields are stated only when no job is in two entries of the heap.
- Engine.SimulationEngine.SweepStep: the same restriction applies; the popped job's recorded `Swept` fields are stated only when no job is in two entries of the heap.
- Engine.SimulationEngine.HandleCompletion: stated for tenants with distinct ids, which the engine's constructor guarantees. With duplicate ids only the first matching tenant would gain the job.
- Stf.Schedule and Stf.SchedulePasses: conservation of jobs is stated only when every job handed in is in the ready queue. That is always true from `_handle_scheduling`, which passes a sorted copy of the ready queue.
- Fifo.Schedule: the blame on a victim is stated only when every job handed in is in the ready queue. Otherwise FIFO's `remove` itself can raise `ValueError`.
- Fifo.PreemptAndAllocate and Stf.PreemptAndAllocate: stated only for a victim that is in the heap and qualifies, which is the only kind `find_victim` returns.
