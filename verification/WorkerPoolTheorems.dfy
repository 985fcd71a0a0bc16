/**
 What holds of every schedule of the worker pool: no schedule is stuck, every
 schedule ends, and its answer is that of the plain sequential loop.
 */
module WorkerPoolTheorems {
  import opened AgentEvents
  import opened ToolOutcomes
  import opened WorkerPool
  import opened WorkerPoolProofs

  predicate AllConsistent(jobs: seq<Job>)
  {
    forall i :: 0 <= i < |jobs| ==> jobs[i].Consistent()
  }

  /** A schedule: the steps taken and the states passed through. */
  predicate IsSchedule(jobs: seq<Job>, states: seq<Pool>, steps: seq<Step>)
  {
    && |states| == |steps| + 1
    && forall k :: 0 <= k < |steps| ==>
         Fits(jobs, states[k]) && Enabled(jobs, states[k], steps[k])
         && states[k + 1] == Apply(jobs, states[k], steps[k])
  }

  lemma {:induction false} ScheduleKeepsInv(jobs: seq<Job>, states: seq<Pool>, steps: seq<Step>, k: nat)
    requires IsSchedule(jobs, states, steps) && Inv(jobs, states[0]) && k <= |steps|
    ensures Inv(jobs, states[k])
  {
    if k > 0 {
      ScheduleKeepsInv(jobs, states, steps, k - 1);
      StepKeepsInv(jobs, states[k - 1], steps[k - 1]);
    }
  }

  /** The outcomes that the loop gathers: the filled slots of the scheduled calls. */
  function Gathered(p: Pool): (fs: seq<Finalized>)
    requires p.scheduled <= |p.stages|
  {
    Filled(p.stages[..p.scheduled])
  }

  function Filled(stages: seq<Stage>): seq<Finalized>
  {
    if stages == [] then []
    else (if stages[0].Stored? then [stages[0].finalized] else []) + Filled(stages[1..])
  }

  lemma {:induction false} FilledWhenAllStored(stages: seq<Stage>)
    requires forall i :: 0 <= i < |stages| ==> stages[i].Stored?
    ensures |Filled(stages)| == |stages|
    ensures forall i :: 0 <= i < |stages| ==> Filled(stages)[i] == stages[i].finalized
  {
    if stages != [] {
      FilledWhenAllStored(stages[1..]);
    }
  }

  lemma DoneQueueIsEmpty(jobs: seq<Job>, p: Pool)
    requires ScheduleInv(jobs, p) && QueueInv(jobs, p) && p.scheduler.Done? && AllStopped(p) && p.width > 0
    ensures p.queue == []
  {
    CountStoppedBounds(p.workers);
    if p.queue != [] {
      assert false;
    }
  }

  /** When the pool is done every worker has taken its one end marker, no
      scheduled slot is empty, and nothing is left open. */
  lemma DoneMeansStored(jobs: seq<Job>, p: Pool)
    requires Inv(jobs, p) && p.scheduler.Done? && AllStopped(p)
    requires p.width > 0
    ensures p.queue == []
    ensures forall w :: 0 <= w < |p.workers| ==> p.marks[w] == 1
    ensures forall i :: 0 <= i < |jobs| ==> if i < p.scheduled then p.stages[i].Stored? else p.stages[i].Unscheduled?
    ensures p.open == map[]
  {
    DoneQueueIsEmpty(jobs, p);
    forall i | 0 <= i < |jobs| ensures if i < p.scheduled then p.stages[i].Stored? else p.stages[i].Unscheduled? {
    }
  }

  /** What a finished pool has gathered. */
  lemma DoneGathers(jobs: seq<Job>, p: Pool)
    requires Inv(jobs, p) && p.scheduler.Done? && AllStopped(p) && p.width > 0
    ensures |Gathered(p)| == p.scheduled && IsBatch(jobs, p.aborted, Gathered(p))
    ensures ToolsOnly(p.trace, map[], p.scheduled)
  {
    DoneMeansStored(jobs, p);
    FilledWhenAllStored(p.stages[..p.scheduled]);
  }

  predicate AllStopped(p: Pool)
  {
    forall w :: 0 <= w < |p.workers| ==> p.workers[w].Stopped?
  }

  lemma StepKeepsDone(jobs: seq<Job>, p: Pool, s: Step)
    requires Fits(jobs, p) && WorkerInv(jobs, p) && Enabled(jobs, p, s)
    requires p.scheduler.Done? ==> AllStopped(p)
    ensures Apply(jobs, p, s).scheduler.Done? ==> AllStopped(Apply(jobs, p, s))
  {
    if s.Store? {
      assert p.workers[p.holder[s.i]] == Busy(s.i);
    }
  }

  lemma StepKeepsWidth(jobs: seq<Job>, p: Pool, s: Step)
    requires Fits(jobs, p) && Enabled(jobs, p, s)
    ensures Apply(jobs, p, s).width == p.width
    ensures p.aborted ==> Apply(jobs, p, s).aborted && Apply(jobs, p, s).bodies == p.bodies
  {
  }

  lemma {:induction false} ScheduleFacts(jobs: seq<Job>, states: seq<Pool>, steps: seq<Step>, k: nat)
    requires IsSchedule(jobs, states, steps) && k <= |steps|
    requires Inv(jobs, states[0]) && !states[0].scheduler.Done?
    ensures states[k].scheduler.Done? ==> AllStopped(states[k])
    ensures states[k].width == states[0].width
  {
    if k > 0 {
      ScheduleFacts(jobs, states, steps, k - 1);
      ScheduleKeepsInv(jobs, states, steps, k - 1);
      StepKeepsDone(jobs, states[k - 1], steps[k - 1]);
      StepKeepsWidth(jobs, states[k - 1], steps[k - 1]);
    }
  }

  /** The main safety theorem.  Whatever the interleaving of the scheduling loop
      and the workers, a finished pool returns one outcome per call for a
      source-order prefix of the calls, in source order; and when no abort became
      visible it returns exactly what the sequential loop returns, with the same
      verdict on termination. */
  lemma EveryScheduleMatchesSequential(jobs: seq<Job>, width: nat, aborted: bool, states: seq<Pool>, steps: seq<Step>)
    requires AllConsistent(jobs) && width > 0
    requires IsSchedule(jobs, states, steps) && states[0] == Init(jobs, width, aborted)
    requires states[|steps|].scheduler.Done?
    ensures states[|steps|].scheduled <= |states[|steps|].stages|
    ensures var p := states[|steps|];
            && |Gathered(p)| == p.scheduled
            && IsBatch(jobs, p.aborted, Gathered(p))
            && |p.marks| == |p.workers| && (forall w :: 0 <= w < |p.marks| ==> p.marks[w] == 1)
            && |p.bodies| == |jobs|
            && (!p.aborted ==>
                  && Gathered(p) == seq(|jobs|, i requires 0 <= i < |jobs| => jobs[i].clean)
                  && forall i :: 0 <= i < |jobs| ==> p.bodies[i] == if jobs[i].ready then 1 else 0)
            && ToolsOnly(p.trace, map[], p.scheduled)
  {
    InitInv(jobs, width, aborted);
    ScheduleKeepsInv(jobs, states, steps, |steps|);
    ScheduleFacts(jobs, states, steps, |steps|);
    var p := states[|steps|];
    DoneMeansStored(jobs, p);
    DoneGathers(jobs, p);
  }

  /** At every step of every schedule at most `width` tool bodies run, on at most
      `width` workers, and no body has been started twice. */
  lemma BodiesAreBounded(jobs: seq<Job>, width: nat, aborted: bool, states: seq<Pool>, steps: seq<Step>, k: nat)
    requires AllConsistent(jobs) && IsSchedule(jobs, states, steps) && states[0] == Init(jobs, width, aborted)
    requires k <= |steps|
    ensures CountRunning(states[k].stages) <= width && |states[k].workers| <= width
    ensures |states[k].bodies| == |jobs| && forall i :: 0 <= i < |jobs| ==> states[k].bodies[i] <= 1
  {
    InitInv(jobs, width, aborted);
    ScheduleKeepsInv(jobs, states, steps, k);
    ScheduleFacts(jobs, states, steps, k);
  }

  /** Once the abort bit is set no further body starts. */
  lemma {:induction false} NoBodyStartsAfterAbort(jobs: seq<Job>, states: seq<Pool>, steps: seq<Step>, j: nat, k: nat)
    requires IsSchedule(jobs, states, steps) && j <= k <= |steps| && states[j].aborted
    ensures states[k].aborted && states[k].bodies == states[j].bodies
  {
    if j < k {
      NoBodyStartsAfterAbort(jobs, states, steps, j, k - 1);
      StepKeepsWidth(jobs, states[k - 1], steps[k - 1]);
    }
  }

  // ------------------------------------------------------------------- liveness

  /** A pool that is not done has a step other than an abort to take. */
  lemma NeverStuck(jobs: seq<Job>, p: Pool) returns (s: Step)
    requires Inv(jobs, p) && !p.scheduler.Done? && p.width > 0
    ensures Enabled(jobs, p, s) && !s.Abort?
  {
    if !p.scheduler.Gathering? || forall w :: 0 <= w < |p.workers| ==> p.workers[w].Stopped? {
      return Schedule;
    }
    var w :| 0 <= w < |p.workers| && !p.workers[w].Stopped?;
    if p.workers[w].Busy? {
      var i := p.workers[w].slot;
      match p.stages[i]
      case Acquiring =>
        if p.permits > 0 { return Acquire(i); }
        var r := SomeRunning(p.stages);
        return Finish(r);
      case Running(_) => return Finish(i);
      case Draining(progress, _) => return if progress == [] then Report(i) else Progress(i);
      case Reported(_) => return Store(i);
    } else {
      CountStoppedBounds(p.workers);
      assert CountStopped(p.workers) < |p.workers|;
      assert p.queue != [];
      return Take(w);
    }
  }

  // ---------------------------------------------------------------- termination

  /** The steps that a call still has to take once it is in the queue. */
  function WorkCost(job: Job): nat
  {
    5 + |job.progress|
  }

  function StageCost(s: Stage, job: Job): nat
  {
    match s
    case Unscheduled => 4 + WorkCost(job)   // start, place, abort check, and the loop's own advance
    case Queued => WorkCost(job)
    case Acquiring => 4 + |job.progress|
    case Running(progress) => 3 + |progress|
    case Draining(progress, _) => 2 + |progress|
    case Reported(_) => 1
    case Stored(_) => 0
  }

  function StagesCost(stages: seq<Stage>, jobs: seq<Job>): nat
    requires |stages| == |jobs|
  {
    if stages == [] then 0 else StageCost(stages[0], jobs[0]) + StagesCost(stages[1..], jobs[1..])
  }

  lemma {:induction false} StagesCostUpdate(stages: seq<Stage>, jobs: seq<Job>, i: nat, s: Stage)
    requires |stages| == |jobs| && i < |stages|
    ensures StagesCost(stages[i := s], jobs)
         == StagesCost(stages, jobs) - StageCost(stages[i], jobs[i]) + StageCost(s, jobs[i])
  {
    if i == 0 {
      assert stages[i := s][1..] == stages[1..];
    } else {
      assert stages[i := s][1..] == stages[1..][i - 1 := s];
      StagesCostUpdate(stages[1..], jobs[1..], i - 1, s);
    }
  }

  /** What the scheduling loop has still to do besides the calls themselves. */
  function SchedulerCost(p: Pool): nat
  {
    var n := |p.workers|;
    match p.scheduler
    case AtCall(_) => 2 * n + 5
    case Announced(_) => 2 * n + 4
    case Placed(_) => 2 * n + 6
    case Ending(k) => 2 + if k < n then 2 * (n - k) else 0
    case Gathering => 1
    case Done => 0
  }

  /** A bound on the number of steps that a pool can still take. */
  function Measure(jobs: seq<Job>, p: Pool): nat
    requires Fits(jobs, p)
  {
    StagesCost(p.stages, jobs) + CountEnds(p.queue) + SchedulerCost(p) + if p.aborted then 0 else 1
  }

  lemma ScheduleStepCosts(jobs: seq<Job>, p: Pool)
    requires ScheduleInv(jobs, p) && Enabled(jobs, p, Schedule)
    requires Fits(jobs, Apply(jobs, p, Schedule))
    ensures Measure(jobs, Apply(jobs, p, Schedule)) < Measure(jobs, p)
  {
    var q := Apply(jobs, p, Schedule);
    if p.scheduler.Announced? {
      StagesCostUpdate(p.stages, jobs, p.scheduler.next, q.stages[p.scheduler.next]);
    }
    if |q.queue| > |p.queue| {
      CountEndsSnoc(p.queue, q.queue[|p.queue|]);
    }
  }

  lemma TakeStepCosts(jobs: seq<Job>, p: Pool, w: nat)
    requires Fits(jobs, p) && Enabled(jobs, p, Take(w)) && HeadQueued(jobs, p, Take(w))
    requires Fits(jobs, Apply(jobs, p, Take(w)))
    ensures Measure(jobs, Apply(jobs, p, Take(w))) < Measure(jobs, p)
  {
    if p.queue[0].Work? {
      StagesCostUpdate(p.stages, jobs, p.queue[0].slot, Acquiring);
    }
  }

  lemma CallStepCosts(jobs: seq<Job>, p: Pool, s: Step)
    requires Fits(jobs, p) && Enabled(jobs, p, s) && (IsCallStep(s) || s.Store?) && Fits(jobs, Apply(jobs, p, s))
    ensures Measure(jobs, Apply(jobs, p, s)) < Measure(jobs, p)
  {
    StagesCostUpdate(p.stages, jobs, s.i, Apply(jobs, p, s).stages[s.i]);
  }

  lemma EveryStepCosts(jobs: seq<Job>, p: Pool, s: Step)
    requires ScheduleInv(jobs, p) && Enabled(jobs, p, s) && HeadQueued(jobs, p, s)
    requires Fits(jobs, Apply(jobs, p, s))
    ensures Measure(jobs, Apply(jobs, p, s)) < Measure(jobs, p)
  {
    match s
    case Schedule => ScheduleStepCosts(jobs, p);
    case Take(w) => TakeStepCosts(jobs, p, w);
    case Abort =>
    case _ => CallStepCosts(jobs, p, s);
  }

  /** Every schedule ends: its length is bounded before it starts. */
  lemma {:induction false} EveryScheduleEnds(jobs: seq<Job>, states: seq<Pool>, steps: seq<Step>, k: nat)
    requires IsSchedule(jobs, states, steps) && Inv(jobs, states[0]) && k <= |steps|
    ensures Inv(jobs, states[k]) && k + Measure(jobs, states[k]) <= Measure(jobs, states[0])
  {
    if k > 0 {
      EveryScheduleEnds(jobs, states, steps, k - 1);
      StepKeepsInv(jobs, states[k - 1], steps[k - 1]);
      EveryStepCosts(jobs, states[k - 1], steps[k - 1]);
    }
  }
}
