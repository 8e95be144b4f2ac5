/** The records of the scheduler: the run configuration with its declared
    field constraints, jobs, and cluster nodes with their resource
    accounting. */
module Schemas {
  import opened Common

  // ---------------------------------------------------------------------------
  // Simulation configuration
  // ---------------------------------------------------------------------------

  /** A `SimulationConfig` as submitted, before validation. Ranges are
      `(min, max)` pairs; the priority distribution maps priority names to
      weights. */
  datatype SimulationConfig = SimulationConfig(
    runtimeSeconds: int,
    numTenants: int,
    clusterNodes: int,
    perNodeCpu: int,
    perNodeRam: int,
    perNodeGpus: int,
    arrivalModel: string,
    arrivalRate: real,
    durationRange: (int, int),
    cpuRequestRange: (int, int),
    ramRequestRange: (int, int),
    gpuRequestRange: (int, int),
    priorityDistribution: map<string, real>,
    schedulerChoice: string,
    preemptionEnabled: bool)

  predicate IsPriorityName(p: string) {
    p == "low" || p == "med" || p == "high"
  }

  /** The constraints the configuration's field types declare: `conint(gt=0)`,
      `conint(ge=0)`, `confloat(gt=0)` and the `Literal` choices. No range is
      required to have `min <= max`. */
  predicate ValidConfig(c: SimulationConfig) {
    && c.runtimeSeconds > 0
    && c.numTenants > 0
    && c.clusterNodes > 0
    && c.perNodeCpu > 0
    && c.perNodeRam > 0
    && c.perNodeGpus >= 0
    && (c.arrivalModel == "poisson" || c.arrivalModel == "fixed")
    && c.arrivalRate > 0.0
    && c.durationRange.0 > 0 && c.durationRange.1 > 0
    && c.cpuRequestRange.0 > 0 && c.cpuRequestRange.1 > 0
    && c.ramRequestRange.0 > 0 && c.ramRequestRange.1 > 0
    && c.gpuRequestRange.0 >= 0 && c.gpuRequestRange.1 >= 0
    && (forall p :: p in c.priorityDistribution ==> IsPriorityName(p))
    && (c.schedulerChoice == "fifo" || c.schedulerChoice == "stf" || c.schedulerChoice == "rl")
  }

  /** Each field's constraint, paired with the field's name. */
  function FieldChecks(c: SimulationConfig): seq<(string, bool)> {
    [ ("runtime_seconds", c.runtimeSeconds > 0),
      ("num_tenants", c.numTenants > 0),
      ("cluster_nodes", c.clusterNodes > 0),
      ("per_node_cpu", c.perNodeCpu > 0),
      ("per_node_ram", c.perNodeRam > 0),
      ("per_node_gpus", c.perNodeGpus >= 0),
      ("arrival_model", c.arrivalModel == "poisson" || c.arrivalModel == "fixed"),
      ("arrival_rate", c.arrivalRate > 0.0),
      ("duration_range", c.durationRange.0 > 0 && c.durationRange.1 > 0),
      ("cpu_request_range", c.cpuRequestRange.0 > 0 && c.cpuRequestRange.1 > 0),
      ("ram_request_range", c.ramRequestRange.0 > 0 && c.ramRequestRange.1 > 0),
      ("gpu_request_range", c.gpuRequestRange.0 >= 0 && c.gpuRequestRange.1 >= 0),
      ("priority_distribution", forall p :: p in c.priorityDistribution ==> IsPriorityName(p)),
      ("scheduler_choice", c.schedulerChoice == "fifo" || c.schedulerChoice == "stf" || c.schedulerChoice == "rl") ]
  }

  /** The names of the failing checks, in order. */
  function FailedNames(checks: seq<(string, bool)>): (r: seq<string>)
    ensures r == [] <==> forall i :: 0 <= i < |checks| ==> checks[i].1
    ensures forall i :: 0 <= i < |checks| && !checks[i].1 ==> checks[i].0 in r
    ensures forall e :: e in r ==> exists i :: 0 <= i < |checks| && !checks[i].1 && checks[i].0 == e
  {
    if checks == [] then []
    else
      var rest := FailedNames(checks[1..]);
      assert forall e :: e in rest ==> exists i :: 0 <= i < |checks| && !checks[i].1 && checks[i].0 == e by {
        forall e | e in rest ensures exists i :: 0 <= i < |checks| && !checks[i].1 && checks[i].0 == e {
          var k :| 0 <= k < |checks[1..]| && !checks[1..][k].1 && checks[1..][k].0 == e;
          assert checks[k + 1] == checks[1..][k];
        }
      }
      (if checks[0].1 then [] else [checks[0].0]) + rest
  }

  /** The validator's report: the names of the fields that fail their
      constraint, in declaration order. The configuration is accepted exactly
      when the report is empty. */
  function ConfigErrors(c: SimulationConfig): (errs: seq<string>)
    ensures errs == [] <==> ValidConfig(c)
  {
    var checks := FieldChecks(c);
    assert ValidConfig(c) <==> forall i :: 0 <= i < |checks| ==> checks[i].1 by {
      if forall i :: 0 <= i < |checks| ==> checks[i].1 {
        assert checks[0].1 && checks[1].1 && checks[2].1 && checks[3].1 && checks[4].1;
        assert checks[5].1 && checks[6].1 && checks[7].1 && checks[8].1 && checks[9].1;
        assert checks[10].1 && checks[11].1 && checks[12].1 && checks[13].1;
      }
    }
    FailedNames(checks)
  }

  /** A configuration submitted with only the fields that have no default;
      the others take theirs: arrival model "poisson", request ranges
      (1, 4) cpus, (512, 8192) MB of ram and (0, 1) gpus, scheduler "fifo"
      and preemption off. The defaults meet their own constraints, so such
      a configuration is accepted exactly when the fields given are. */
  function WithDefaults(runtimeSeconds: int, numTenants: int, clusterNodes: int, perNodeCpu: int, perNodeRam: int,
                        perNodeGpus: int, arrivalRate: real, durationRange: (int, int),
                        priorityDistribution: map<string, real>): (c: SimulationConfig)
    ensures ValidConfig(c) <==>
      && runtimeSeconds > 0 && numTenants > 0 && clusterNodes > 0
      && perNodeCpu > 0 && perNodeRam > 0 && perNodeGpus >= 0
      && arrivalRate > 0.0 && durationRange.0 > 0 && durationRange.1 > 0
      && (forall p :: p in priorityDistribution ==> IsPriorityName(p))
  {
    SimulationConfig(runtimeSeconds, numTenants, clusterNodes, perNodeCpu, perNodeRam, perNodeGpus,
                     "poisson", arrivalRate, durationRange, (1, 4), (512, 8192), (0, 1),
                     priorityDistribution, "fifo", false)
  }

  /** A range's two ends are checked separately and never against each
      other: swapping the ends of every range keeps a valid configuration
      valid, so `min > max` is accepted. */
  lemma ReversedRangesAreAccepted(c: SimulationConfig)
    requires ValidConfig(c)
    ensures ValidConfig(c.(durationRange := (c.durationRange.1, c.durationRange.0),
                           cpuRequestRange := (c.cpuRequestRange.1, c.cpuRequestRange.0),
                           ramRequestRange := (c.ramRequestRange.1, c.ramRequestRange.0),
                           gpuRequestRange := (c.gpuRequestRange.1, c.gpuRequestRange.0)))
  {
  }

  // ---------------------------------------------------------------------------
  // Jobs
  // ---------------------------------------------------------------------------

  datatype JobState = Queued | Running | Completed | Preempted

  type Positive = x: int | x > 0 witness 1

  /** The fields of a job that the scheduling core updates. */
  datatype JobFields = JobFields(
    arrivalTime: real,
    startTime: Option<real>,
    endTime: Option<real>,
    preemptionTime: Option<real>,
    lastStartTime: Option<real>,
    remainingTime: real,
    waitTime: real,
    state: JobState)

  /** A job. The fields the scheduling core never assigns are constants. */
  class Job {
    const id: string
    const tenantId: string
    const cpu: Positive
    const ram: Positive
    const gpus: nat
    const priority: string
    var arrivalTime: real
    var startTime: Option<real>
    var endTime: Option<real>
    var preemptionTime: Option<real>
    var lastStartTime: Option<real>
    var remainingTime: real
    const duration: real
    var waitTime: real
    var state: JobState

    function Fields(): JobFields
      reads this
    {
      JobFields(arrivalTime, startTime, endTime, preemptionTime, lastStartTime, remainingTime, waitTime, state)
    }

    /** A job as the job generator creates it: queued, never started, with the whole
        duration still to run and no wait accounted yet. */
    constructor (id: string, tenantId: string, cpu: Positive, ram: Positive, gpus: nat,
                 priority: string, arrivalTime: real, duration: real)
      requires IsPriorityName(priority)
      ensures this.id == id && this.tenantId == tenantId
      ensures this.cpu == cpu && this.ram == ram && this.gpus == gpus
      ensures this.priority == priority && this.arrivalTime == arrivalTime
      ensures this.duration == duration && remainingTime == duration
      ensures startTime == None && endTime == None
      ensures preemptionTime == None && lastStartTime == None
      ensures waitTime == 0.0 && state == Queued
    {
      this.id := id;
      this.tenantId := tenantId;
      this.cpu := cpu;
      this.ram := ram;
      this.gpus := gpus;
      this.priority := priority;
      this.arrivalTime := arrivalTime;
      this.duration := duration;
      remainingTime := duration;
      startTime := None;
      endTime := None;
      preemptionTime := None;
      lastStartTime := None;
      waitTime := 0.0;
      state := Queued;
    }
  }

  // ---------------------------------------------------------------------------
  // Nodes
  // ---------------------------------------------------------------------------

  /** What a node has handed out: used cpu, ram, gpus and the ids of the jobs
      placed on it, in placement order. */
  datatype Usage = Usage(cpu: int, ram: int, gpus: int, jobIds: seq<string>)

  /** The node's free capacity covers every request of the job. */
  predicate Fits(totalCpu: int, totalRam: int, totalGpus: int, u: Usage, job: Job) {
    && totalCpu - u.cpu >= job.cpu
    && totalRam - u.ram >= job.ram
    && totalGpus - u.gpus >= job.gpus
  }

  /** Usage after a successful `allocate`. */
  function Allocated(u: Usage, job: Job): Usage
  {
    Usage(u.cpu + job.cpu, u.ram + job.ram, u.gpus + job.gpus, u.jobIds + [job.id])
  }

  /** Usage after `release`: unchanged unless the job's id is listed, then
      its requests are given back and one occurrence of its id is dropped. */
  function Released(u: Usage, job: Job): (r: Usage)
    ensures job.id !in u.jobIds ==> r == u
    ensures job.id in u.jobIds ==>
      && u.cpu - r.cpu == job.cpu && u.ram - r.ram == job.ram && u.gpus - r.gpus == job.gpus
      && multiset(r.jobIds) + multiset{job.id} == multiset(u.jobIds)
  {
    if job.id in u.jobIds then
      Usage(u.cpu - job.cpu, u.ram - job.ram, u.gpus - job.gpus, RemoveFirst(u.jobIds, job.id))
    else
      u
  }

  /** Releasing a job right after allocating it restores the used amounts and
      the multiset of running ids. */
  lemma ReleaseUndoesAllocate(u: Usage, job: Job)
    ensures Released(Allocated(u, job), job).cpu == u.cpu
    ensures Released(Allocated(u, job), job).ram == u.ram
    ensures Released(Allocated(u, job), job).gpus == u.gpus
    ensures multiset(Released(Allocated(u, job), job).jobIds) == multiset(u.jobIds)
  {
    var a := Allocated(u, job);
    assert job.id in a.jobIds;
    var r := Released(a, job);
    assert multiset(a.jobIds) == multiset(u.jobIds) + multiset{job.id};
    assert multiset(r.jobIds) + multiset{job.id} == multiset(u.jobIds) + multiset{job.id};
    assert multiset(r.jobIds) == multiset(r.jobIds) + multiset{job.id} - multiset{job.id};
  }

  /** The fit test of the schedulers' victim search: with the victim's
      requests taken off, the node's totals cover the incoming job. It is
      `Fits` on the usage after releasing the victim, provided the victim's id
      is on the node. */
  lemma FitAfterRemovalIsFitAfterRelease(totalCpu: int, totalRam: int, totalGpus: int,
                                         u: Usage, victim: Job, incoming: Job)
    requires victim.id in u.jobIds
    ensures (&& u.cpu - victim.cpu + incoming.cpu <= totalCpu
             && u.ram - victim.ram + incoming.ram <= totalRam
             && u.gpus - victim.gpus + incoming.gpus <= totalGpus)
            <==> Fits(totalCpu, totalRam, totalGpus, Released(u, victim), incoming)
  {
  }

  /** A cluster node. The totals never change; the used amounts and the list
      of job ids are updated in place by `Allocate` and `Release`. */
  class Node {
    const id: string
    const totalCpu: int
    const totalRam: int
    const totalGpus: int
    var usedCpu: int
    var usedRam: int
    var usedGpus: int
    var runningJobs: seq<string>

    /** Nothing is handed out beyond the node's totals. */
    ghost predicate Valid()
      reads this
    {
      usedCpu <= totalCpu && usedRam <= totalRam && usedGpus <= totalGpus
    }

    function UsageNow(): Usage
      reads this
    {
      Usage(usedCpu, usedRam, usedGpus, runningJobs)
    }

    /** A node as the engine creates it: the given totals and nothing used;
        with totals that are not negative nothing is over-committed. */
    constructor (id: string, totalCpu: int, totalRam: int, totalGpus: int)
      ensures this.id == id && this.totalCpu == totalCpu
      ensures this.totalRam == totalRam && this.totalGpus == totalGpus
      ensures UsageNow() == Usage(0, 0, 0, [])
      ensures totalCpu >= 0 && totalRam >= 0 && totalGpus >= 0 ==> Valid()
    {
      this.id := id;
      this.totalCpu := totalCpu;
      this.totalRam := totalRam;
      this.totalGpus := totalGpus;
      usedCpu, usedRam, usedGpus := 0, 0, 0;
      runningJobs := [];
    }

    /** `can_allocate`: the free cpu, ram and gpus each cover the job. */
    predicate CanAllocate(job: Job)
      reads this
    {
      Fits(totalCpu, totalRam, totalGpus, UsageNow(), job)
    }

    /** `allocate`: raises `ValueError` and changes nothing when the job does
        not fit; otherwise adds its requests and appends its id. */
    method Allocate(job: Job) returns (r: Outcome)
      modifies this
      ensures r == (if old(CanAllocate(job)) then Ok else Raised(ValueError))
      ensures r.Ok? ==> UsageNow() == Allocated(old(UsageNow()), job)
      ensures r.Raised? ==> UsageNow() == old(UsageNow())
      ensures old(Valid()) ==> Valid()
    {
      if !CanAllocate(job) {
        return Raised(ValueError);
      }
      usedCpu := usedCpu + job.cpu;
      usedRam := usedRam + job.ram;
      usedGpus := usedGpus + job.gpus;
      runningJobs := runningJobs + [job.id];
      r := Ok;
    }

    /** `release`: a no-op unless the job's id is listed; then its requests
        are subtracted and the first occurrence of its id is removed. */
    method Release(job: Job)
      modifies this
      ensures UsageNow() == Released(old(UsageNow()), job)
      ensures old(Valid()) ==> Valid()
    {
      if job.id in runningJobs {
        usedCpu := usedCpu - job.cpu;
        usedRam := usedRam - job.ram;
        usedGpus := usedGpus - job.gpus;
        runningJobs := RemoveFirst(runningJobs, job.id);
      }
    }
  }
}
