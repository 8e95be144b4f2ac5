/** A tenant and the statistics reported for it. */
module Tenants {
  import opened Common
  import opened Schemas

  class Tenant {
    const id: string
    var submittedJobs: seq<Job>
    var completedJobs: seq<Job>
    var preemptedJobs: seq<Job>

    /** A tenant as the engine creates it: no jobs yet. */
    constructor (id: string)
      ensures this.id == id
      ensures submittedJobs == [] && completedJobs == [] && preemptedJobs == []
      ensures TotalJobs() == 0 && Throughput() == 0 && AvgWaitTime() == 0.0
    {
      this.id := id;
      submittedJobs := [];
      completedJobs := [];
      preemptedJobs := [];
    }

    /** `throughput`: the number of completed jobs. */
    function Throughput(): (n: nat)
      reads this
      ensures n == |completedJobs|
    {
      |completedJobs|
    }

    /** `total_jobs`: the number of submitted jobs. */
    function TotalJobs(): (n: nat)
      reads this
      ensures n == |submittedJobs|
    {
      |submittedJobs|
    }

    /** `avg_wait_time`: 0.0 without completed jobs; otherwise the waits of
        the completed jobs that have a (truthy) start time, summed and
        divided by the number of all completed jobs (see `AvgWaitTimeIsMean`). */
    function AvgWaitTime(): (avg: real)
      reads this, completedJobs
      ensures completedJobs == [] ==> avg == 0.0
    {
      if completedJobs == [] then 0.0
      else TotalWait(completedJobs) / (|completedJobs| as real)
    }
  }

  /** With completed jobs, the average times their number is the sum of the
      counted waits. */
  lemma AvgWaitTimeIsMean(t: Tenant)
    requires t.completedJobs != []
    ensures t.AvgWaitTime() * (|t.completedJobs| as real) == TotalWait(t.completedJobs)
  {
  }

  /** The wait `start_time - arrival_time` of a job, counted only when its
      start time is truthy. */
  function Wait(job: Job): real
    reads job
  {
    if Truthy(job.startTime) then job.startTime.value - job.arrivalTime else 0.0
  }

  /** `sum(start_time - arrival_time for job in jobs if job.start_time)`. */
  function TotalWait(jobs: seq<Job>): real
    reads jobs
  {
    if jobs == [] then 0.0 else Wait(jobs[0]) + TotalWait(jobs[1..])
  }

  /** When every counted wait lies between 0 and `bound`, so does their sum
      divided by the number of jobs. */
  lemma {:induction false} TotalWaitBounds(jobs: seq<Job>, bound: real)
    requires forall j | j in jobs :: 0.0 <= Wait(j) <= bound
    ensures 0.0 <= TotalWait(jobs) <= bound * (|jobs| as real)
  {
    if jobs != [] {
      assert jobs[0] in jobs;
      TotalWaitBounds(jobs[1..], bound);
      assert bound * (|jobs| as real) == bound * (|jobs[1..]| as real) + bound;
    }
  }

  /** The average wait of a tenant whose completed jobs each waited between
      0 and `bound` lies between 0 and `bound`. */
  lemma AvgWaitTimeBounds(t: Tenant, bound: real)
    requires forall j | j in t.completedJobs :: 0.0 <= Wait(j) <= bound
    requires 0.0 <= bound
    ensures 0.0 <= t.AvgWaitTime() <= bound
  {
    TotalWaitBounds(t.completedJobs, bound);
    if t.completedJobs != [] {
      QuotientBounds(TotalWait(t.completedJobs), |t.completedJobs| as real, bound);
    }
  }

  /** A total between 0 and `bound * n`, divided by a positive `n`, lies
      between 0 and `bound`. */
  lemma QuotientBounds(total: real, n: real, bound: real)
    requires n > 0.0 && 0.0 <= total <= bound * n
    ensures 0.0 <= total / n <= bound
  {
    var q := total / n;
    assert q * n == total;
    if q > bound {
      assert (q - bound) * n > 0.0;
    }
  }

  /** A completed job without a truthy start time adds nothing to the sum
      but still counts in the divisor. */
  lemma {:induction false} TotalWaitAppend(jobs: seq<Job>, job: Job)
    ensures TotalWait(jobs + [job]) == TotalWait(jobs) + Wait(job)
  {
    if jobs == [] {
      assert [job][1..] == [];
    } else {
      assert (jobs + [job])[1..] == jobs[1..] + [job];
      TotalWaitAppend(jobs[1..], job);
    }
  }
}
