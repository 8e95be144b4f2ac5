/** The outer loop of `schedule`, for either scheduler, as a run of passes
    over values: each pass takes one job from one view of the state to the
    next, and what the whole loop does is the sequence of those passes. */
module Passes {
  import opened Common
  import opened Schemas
  import opened HeapQ
  import opened JobUtils
  import opened Scheduling

  /** The scheduler an engine is built with: FIFO or
      shortest-remaining-time-first. */
  datatype Policy = FifoPolicy | StfPolicy

  // ---------------------------------------------------------------------------
  // One pass
  // ---------------------------------------------------------------------------

  /** `find_victim`'s test of one running entry against the view. FIFO: the
      victim's priority rank is strictly below the incoming job's. STF: the
      incoming job has less remaining time than the victim, or as much and a
      strictly higher priority rank. Both: the victim's node fits the
      incoming job once the victim's requests are taken off. */
  predicate QualifiesIn(policy: Policy, e: RunEntry, v: View, incoming: Job) {
    var victim := e.item.job;
    && (match policy
        case FifoPolicy => PriorityValue(victim.priority) < PriorityValue(incoming.priority)
        case StfPolicy =>
          && victim in v.fields && incoming in v.fields
          && (|| v.fields[incoming].remainingTime < v.fields[victim].remainingTime
              || (&& v.fields[incoming].remainingTime == v.fields[victim].remainingTime
                  && PriorityValue(incoming.priority) > PriorityValue(victim.priority))))
    && e.item.node in v.usage && RoomAfterRemoval(e, v.usage[e.item.node], incoming)
  }

  /** Entry `k` is the first, in heap-list order, that qualifies against the
      view; `k == |v.running|` says that none does. */
  ghost predicate FirstVictimIn(policy: Policy, v: View, incoming: Job, k: nat) {
    && k <= |v.running|
    && (k < |v.running| ==> QualifiesIn(policy, v.running[k], v, incoming))
    && forall m | 0 <= m < k :: !QualifiesIn(policy, v.running[m], v, incoming)
  }

  /** What a pass does once no node fits the job: it preempts the first
      qualifying entry, or, when none qualifies, the job waits and nothing
      changes. */
  ghost predicate PreemptOrWaitIn(policy: Policy, v: View, job: Job, p: Placement, r: Outcome, v': View, now: real) {
    match p
    case Placed(_) => false
    case PreemptedFor(i) =>
      && i < |v.running| && FirstVictimIn(policy, v, job, i)
      && PreemptedIn(v, v.running[i], job, policy.FifoPolicy?, r, v', now)
    case Waiting =>
      && FirstVictimIn(policy, v, job, |v.running|)
      && r == Ok && v' == v
  }

  /** One pass of the outer loop of `schedule` on `job`, from view `v` to
      view `v'` with outcome `r`: the job is allocated on the first node that
      fits it; if none does, it preempts or waits as `PreemptOrWaitIn`
      says. Only the FIFO scheduler's removal from the ready queue is
      unconditional. */
  ghost predicate Step(policy: Policy, cluster: seq<Node>, v: View, job: Job, p: Placement, r: Outcome, v': View, now: real) {
    match p
    case Placed(k) =>
      && k < |cluster| && FirstFitIn(cluster, v.usage, job, k)
      && AllocatedIn(v, cluster[k], job, policy.FifoPolicy?, r, v', now)
    case _ =>
      && FirstFitIn(cluster, v.usage, job, |cluster|)
      && PreemptOrWaitIn(policy, v, job, p, r, v', now)
  }

  /** The jobs a view holds, in the ready queue or on the running heap. */
  function Held(v: View): multiset<Job> {
    multiset(v.ready) + RunJobs(v.running)
  }

  /** A pass that does not raise only moves jobs between the ready queue and
      the running-jobs heap, and takes at most `job` out of the ready queue.
      For the STF scheduler this needs `job` in the ready queue: a job placed
      from outside it joins the heap without leaving the queue. */
  lemma StepConserves(policy: Policy, cluster: seq<Node>, v: View, job: Job, p: Placement, r: Outcome, v': View, now: real)
    requires Step(policy, cluster, v, job, p, r, v', now) && r.Ok?
    requires policy.FifoPolicy? || job in v.ready
    ensures Held(v') == Held(v)
    ensures multiset(v.ready) <= multiset(v'.ready) + multiset{job}
  {
    match p
    case Placed(k) =>
      RunJobsAddOne(v.running, v'.running, EntryIn(v, job, cluster[k], now));
    case PreemptedFor(i) =>
      var e := v.running[i];
      var victim := e.item.job;
      assert job != victim;
      assert multiset(v'.ready) + multiset{job} == multiset(v.ready) + multiset{victim} by {
        assert multiset(v.ready + [victim]) == multiset(v.ready) + multiset{victim};
      }
      PreemptionMovesJobs(v.ready, v'.ready, v.running, v'.running, e, EntryIn(v, job, e.item.node, now));
    case Waiting =>
  }

  /** A pass raises only after preempting an entry that could not be
      evicted cleanly: its job had no last start time, or its id was not on
      its node. For the FIFO scheduler this needs `job` in the ready queue,
      whose unconditional removal raises otherwise. */
  lemma StepBlame(policy: Policy, cluster: seq<Node>, v: View, job: Job, p: Placement, r: Outcome, v': View, now: real)
    requires Step(policy, cluster, v, job, p, r, v', now) && r.Raised?
    requires policy.StfPolicy? || job in v.ready
    ensures p.PreemptedFor? && p.victim < |v.running|
    ensures v.running[p.victim].item.job in v.fields && v.running[p.victim].item.node in v.usage
    ensures !SnapshotIn(v, p.victim).Evictable(now)
  {
    var e := v.running[p.victim];
    var n, victim := e.item.node, e.item.job;
    if SnapshotIn(v, p.victim).Evictable(now) {
      FitAfterRemovalIsFitAfterRelease(n.totalCpu, n.totalRam, n.totalGpus, v.usage[n], victim, job);
    }
  }

  // ---------------------------------------------------------------------------
  // A run of passes
  // ---------------------------------------------------------------------------

  /** `schedule` as a run of passes: pass `i` takes `order[i]` from
      `views[i]` to `views[i + 1]` and records its choice in `trace[i]`.
      Every pass but the last returns normally; the last one's outcome is
      the run's, and the run stops early only when it raises. */
  ghost predicate Run(policy: Policy, cluster: seq<Node>, order: seq<Job>, views: seq<View>, trace: seq<Placement>,
                      r: Outcome, now: real) {
    && |views| == |trace| + 1 && |trace| <= |order|
    && (r.Ok? ==> |trace| == |order|)
    && (r.Raised? ==> |trace| > 0)
    && forall i | 0 <= i < |trace| :: Pass(policy, cluster, order, views, trace, r, now, i)
  }

  /** Pass `i` of a run is a `Step` that returns normally unless it is the
      last one. */
  ghost predicate Pass(policy: Policy, cluster: seq<Node>, order: seq<Job>, views: seq<View>, trace: seq<Placement>,
                       r: Outcome, now: real, i: nat) {
    && i < |trace| && i < |order| && i + 1 < |views|
    && Step(policy, cluster, views[i], order[i], trace[i], if i == |trace| - 1 then r else Ok, views[i + 1], now)
  }

  /** The `i`-th pass of a run is a `Step`. */
  lemma RunStep(policy: Policy, cluster: seq<Node>, order: seq<Job>, views: seq<View>, trace: seq<Placement>,
                r: Outcome, now: real, i: nat)
    requires Run(policy, cluster, order, views, trace, r, now) && i < |trace|
    ensures Step(policy, cluster, views[i], order[i], trace[i], if i == |trace| - 1 then r else Ok, views[i + 1], now)
  {
    assert Pass(policy, cluster, order, views, trace, r, now, i);
  }

  /** A run that has returned normally so far grows by one pass. */
  lemma RunGrows(policy: Policy, cluster: seq<Node>, order: seq<Job>, views: seq<View>, trace: seq<Placement>,
                 job: Job, p: Placement, r: Outcome, v': View, now: real)
    requires Run(policy, cluster, order, views, trace, Ok, now)
    requires Step(policy, cluster, views[|views| - 1], job, p, r, v', now)
    ensures Run(policy, cluster, order + [job], views + [v'], trace + [p], r, now)
  {
    var views', trace', order' := views + [v'], trace + [p], order + [job];
    forall i | 0 <= i < |trace'| ensures Pass(policy, cluster, order', views', trace', r, now, i) {
      if i < |trace| {
        assert Pass(policy, cluster, order, views, trace, Ok, now, i);
        assert views'[i] == views[i] && views'[i + 1] == views[i + 1];
        assert order'[i] == order[i] && trace'[i] == trace[i];
      }
    }
  }

  /** A run over a prefix of `order` that raised, or that covers all of
      `order`, is a run over `order`. */
  lemma RunOfPrefix(policy: Policy, cluster: seq<Node>, order: seq<Job>, n: nat, views: seq<View>, trace: seq<Placement>,
                    r: Outcome, now: real)
    requires n <= |order| && Run(policy, cluster, order[..n], views, trace, r, now)
    requires r.Raised? || n == |order|
    ensures Run(policy, cluster, order, views, trace, r, now)
  {
    forall i | 0 <= i < |trace| ensures Pass(policy, cluster, order, views, trace, r, now, i) {
      assert Pass(policy, cluster, order[..n], views, trace, r, now, i);
      assert order[..n][i] == order[i];
    }
  }

  /** The job at the head of the unprocessed jobs is in the ready queue. */
  lemma HeadStillReady(s: seq<Job>, i: nat, ready: seq<Job>)
    requires i < |s| && multiset(s[i..]) <= multiset(ready)
    ensures s[i] in ready
  {
    assert s[i..][0] == s[i];
    assert s[i] in multiset(s[i..]);
  }

  /** After a pass that took at most the head job out of the ready queue,
      the remaining jobs are still in it. */
  lemma TailStillReady(s: seq<Job>, i: nat, ready: seq<Job>, ready': seq<Job>)
    requires i < |s| && multiset(s[i..]) <= multiset(ready)
    requires multiset(ready) <= multiset(ready') + multiset{s[i]}
    ensures multiset(s[i + 1..]) <= multiset(ready')
  {
    assert s[i..] == [s[i]] + s[i + 1..];
    forall y ensures multiset(s[i + 1..])[y] <= multiset(ready')[y] {
      assert multiset(s[i..])[y] == multiset(s[i + 1..])[y] + multiset{s[i]}[y];
    }
  }

  /** Over the first `n` passes of a run, all of which returned normally,
      jobs only moved between the ready queue and the running-jobs heap; and
      when every job of `order` started out in the ready queue, those not
      yet taken are still in it. The STF scheduler conserves jobs only when
      every job of `order` started out in the ready queue. */
  lemma {:induction false} RunMovesJobs(policy: Policy, cluster: seq<Node>, order: seq<Job>, views: seq<View>,
                                        trace: seq<Placement>, r: Outcome, now: real, n: nat)
    requires Run(policy, cluster, order, views, trace, r, now) && n <= |trace| && (n == |trace| ==> r.Ok?)
    requires policy.FifoPolicy? || multiset(order) <= multiset(views[0].ready)
    ensures Held(views[n]) == Held(views[0])
    ensures multiset(order) <= multiset(views[0].ready) ==> multiset(order[n..]) <= multiset(views[n].ready)
  {
    if n > 0 {
      var k := n - 1;
      RunMovesJobs(policy, cluster, order, views, trace, r, now, k);
      RunStep(policy, cluster, order, views, trace, r, now, k);
      var inReady := multiset(order) <= multiset(views[0].ready);
      if inReady {
        HeadStillReady(order, k, views[k].ready);
      }
      StepConserves(policy, cluster, views[k], order[k], trace[k], Ok, views[n], now);
      if inReady {
        TailStillReady(order, k, views[k].ready, views[n].ready);
      }
    }
  }

  /** The last pass of a run preempted an entry that could not be evicted
      cleanly, and `blame` is that entry as it was then. */
  ghost predicate Blamed(views: seq<View>, trace: seq<Placement>, blame: Option<Snapshot>, now: real) {
    && 0 < |trace| < |views|
    && var k := |trace| - 1;
    && trace[k].PreemptedFor? && trace[k].victim < |views[k].running|
    && views[k].running[trace[k].victim].item.job in views[k].fields
    && views[k].running[trace[k].victim].item.node in views[k].usage
    && blame == Some(SnapshotIn(views[k], trace[k].victim))
    && !blame.value.Evictable(now)
  }

  /** A run over a prefix of `order` that has stopped, by an exception or at
      its end, is a run over `order`. If it returned normally (and, for the
      STF scheduler, every job of `order` started out in the ready queue),
      jobs only moved between the ready queue and the running-jobs heap. If
      it raised (and, for the FIFO scheduler, every job of `order` started
      out in the ready queue), the last pass preempted an entry that could
      not be evicted cleanly, and `blame` is that entry as it was then. */
  lemma RunFinished(policy: Policy, cluster: seq<Node>, order: seq<Job>, views: seq<View>, trace: seq<Placement>,
                    r: Outcome, now: real)
    returns (blame: Option<Snapshot>)
    requires |trace| <= |order| && Run(policy, cluster, order[..|trace|], views, trace, r, now)
    requires r.Raised? || |trace| == |order|
    ensures Run(policy, cluster, order, views, trace, r, now)
    ensures r.Ok? && (policy.FifoPolicy? || multiset(order) <= multiset(views[0].ready)) ==>
      Held(views[|trace|]) == Held(views[0])
    ensures r.Raised? && (policy.StfPolicy? || multiset(order) <= multiset(views[0].ready)) ==>
      Blamed(views, trace, blame, now)
  {
    blame := None;
    RunOfPrefix(policy, cluster, order, |trace|, views, trace, r, now);
    var inReady := multiset(order) <= multiset(views[0].ready);
    if r.Ok? {
      if policy.FifoPolicy? || inReady {
        RunMovesJobs(policy, cluster, order, views, trace, r, now, |trace|);
      }
    } else if policy.StfPolicy? || inReady {
      var k := |trace| - 1;
      if inReady {
        RunMovesJobs(policy, cluster, order, views, trace, r, now, k);
        HeadStillReady(order, k, views[k].ready);
      }
      RunStep(policy, cluster, order, views, trace, r, now, k);
      StepBlame(policy, cluster, views[k], order[k], trace[k], r, views[k + 1], now);
      blame := Some(SnapshotIn(views[k], trace[k].victim));
    }
  }
}
