/** Every step of the worker pool keeps its invariant. */
module WorkerPoolProofs {
  import opened AgentEvents
  import opened ToolOutcomes
  import opened WorkerPool

  lemma InitInv(jobs: seq<Job>, width: nat, aborted: bool)
    requires forall i :: 0 <= i < |jobs| ==> jobs[i].Consistent()
    ensures Inv(jobs, Init(jobs, width, aborted))
  {
    var p := Init(jobs, width, aborted);
    CountsInit(|p.workers|);
    CountsInit(|p.stages|);
    assert p.workers == seq(|p.workers|, _ => Idle);
  }

  /** The head of the queue, when it is an item, names a queued call. */
  predicate HeadQueued(jobs: seq<Job>, p: Pool, s: Step)
    requires Fits(jobs, p)
  {
    s.Take? && p.queue != [] && p.queue[0].Work? ==> p.stages[p.queue[0].slot].Queued?
  }

  lemma ScheduleKeptBySchedule(jobs: seq<Job>, p: Pool)
    requires ScheduleInv(jobs, p) && Enabled(jobs, p, Schedule)
    ensures ScheduleInv(jobs, Apply(jobs, p, Schedule))
  {
  }

  lemma ScheduleKeptByTake(jobs: seq<Job>, p: Pool, w: nat)
    requires ScheduleInv(jobs, p) && Enabled(jobs, p, Take(w)) && HeadQueued(jobs, p, Take(w))
    ensures ScheduleInv(jobs, Apply(jobs, p, Take(w)))
  {
  }

  lemma ScheduleKept(jobs: seq<Job>, p: Pool, s: Step)
    requires ScheduleInv(jobs, p) && Enabled(jobs, p, s) && HeadQueued(jobs, p, s)
    ensures ScheduleInv(jobs, Apply(jobs, p, s))
  {
    if s.Schedule? {
      ScheduleKeptBySchedule(jobs, p);
    } else if s.Take? {
      ScheduleKeptByTake(jobs, p, s.w);
    }
  }

  /** Acquire, Progress, Finish and Report concern one call that a worker holds. */
  predicate IsCallStep(s: Step)
  {
    s.Acquire? || s.Progress? || s.Finish? || s.Report?
  }

  /** A newly scheduled call goes behind all the calls in the queue. */
  lemma AppendedWork(queue: seq<Item>, stages: seq<Stage>, i: nat)
    requires Ordered(queue) && HoldsQueued(queue, stages) && i < |stages| && CountEnds(queue) == 0
    requires forall k :: i <= k < |stages| ==> !stages[k].Queued?
    ensures Ordered(queue + [Work(i)]) && HoldsQueued(queue + [Work(i)], stages[i := Queued])
  {
    var longer := queue + [Work(i)];
    forall k | 0 <= k < |queue| ensures queue[k].Work? && queue[k].slot < i {
      NoEnds(queue, k);
    }
    forall k | 0 <= k < |stages| && stages[i := Queued][k].Queued? ensures Work(k) in longer {
      assert k == i || Work(k) in queue;
      assert longer[|queue|] == Work(i);
    }
  }

  lemma AppendedMark(queue: seq<Item>, stages: seq<Stage>)
    requires Ordered(queue) && HoldsQueued(queue, stages)
    ensures Ordered(queue + [EndMark]) && HoldsQueued(queue + [EndMark], stages)
  {
    forall i | 0 <= i < |stages| && stages[i].Queued? ensures Work(i) in queue + [EndMark] {
      assert Work(i) in queue;
    }
  }

  lemma TakenWork(queue: seq<Item>, stages: seq<Stage>, s: Stage)
    requires Ordered(queue) && HoldsQueued(queue, stages) && queue != [] && queue[0].Work? && !s.Queued?
    ensures Ordered(queue[1..]) && HoldsQueued(queue[1..], stages[queue[0].slot := s])
  {
    forall i | 0 <= i < |stages| && stages[i].Queued? && i != queue[0].slot ensures Work(i) in queue[1..] {
      assert Work(i) in queue;
    }
  }

  lemma TakenMark(queue: seq<Item>, stages: seq<Stage>)
    requires Ordered(queue) && HoldsQueued(queue, stages) && queue != [] && queue[0].EndMark?
    ensures Ordered(queue[1..]) && HoldsQueued(queue[1..], stages)
  {
    forall i | 0 <= i < |stages| && stages[i].Queued? ensures Work(i) in queue[1..] {
      assert Work(i) in queue;
    }
  }

  /** A stage that is not queued, before or after. */
  lemma OtherStage(queue: seq<Item>, stages: seq<Stage>, i: nat, s: Stage)
    requires HoldsQueued(queue, stages) && i < |stages| && !stages[i].Queued? && !s.Queued?
    ensures HoldsQueued(queue, stages[i := s])
  {
  }

  lemma QueueKeptByWork(jobs: seq<Job>, p: Pool)
    requires ScheduleInv(jobs, p) && QueueInv(jobs, p) && Enabled(jobs, p, Schedule) && p.scheduler.Announced?
    ensures Fits(jobs, Apply(jobs, p, Schedule)) && QueueInv(jobs, Apply(jobs, p, Schedule))
  {
    var q, i := Apply(jobs, p, Schedule), p.scheduler.next;
    ScheduleKeptBySchedule(jobs, p);
    if |q.queue| > |p.queue| {
      CountEndsSnoc(p.queue, Work(i));
      AppendedWork(p.queue, p.stages, i);
    } else {
      OtherStage(p.queue, p.stages, i, q.stages[i]);
    }
  }

  lemma QueueKeptByEndMark(jobs: seq<Job>, p: Pool)
    requires Fits(jobs, p) && QueueInv(jobs, p) && Enabled(jobs, p, Schedule)
    requires p.scheduler.Ending? && p.scheduler.put <= |p.workers|
    ensures Fits(jobs, Apply(jobs, p, Schedule)) && QueueInv(jobs, Apply(jobs, p, Schedule))
  {
    CountEndsSnoc(p.queue, EndMark);
    AppendedMark(p.queue, p.stages);
  }

  lemma QueueKeptByTake(jobs: seq<Job>, p: Pool, w: nat)
    requires ScheduleInv(jobs, p) && QueueInv(jobs, p) && Enabled(jobs, p, Take(w))
    ensures Fits(jobs, Apply(jobs, p, Take(w))) && QueueInv(jobs, Apply(jobs, p, Take(w)))
  {
    ScheduleKept(jobs, p, Take(w));
    CountStoppedUpdate(p.workers, w, Apply(jobs, p, Take(w)).workers[w]);
    if p.queue[0].Work? {
      TakenWork(p.queue, p.stages, Acquiring);
    } else {
      TakenMark(p.queue, p.stages);
    }
  }

  lemma QueueKeptByCall(jobs: seq<Job>, p: Pool, s: Step)
    requires Fits(jobs, p) && QueueInv(jobs, p) && Enabled(jobs, p, s) && (IsCallStep(s) || s.Store?)
    requires s.Store? ==> p.workers[p.holder[s.i]].Busy?
    ensures Fits(jobs, Apply(jobs, p, s)) && QueueInv(jobs, Apply(jobs, p, s))
  {
    OtherStage(p.queue, p.stages, s.i, Apply(jobs, p, s).stages[s.i]);
    if s.Store? {
      CountStoppedUpdate(p.workers, p.holder[s.i], Idle);
    }
  }

  lemma QueueKept(jobs: seq<Job>, p: Pool, s: Step)
    requires ScheduleInv(jobs, p) && QueueInv(jobs, p) && Enabled(jobs, p, s)
    requires s.Store? ==> p.workers[p.holder[s.i]].Busy?
    ensures Fits(jobs, Apply(jobs, p, s)) && QueueInv(jobs, Apply(jobs, p, s))
  {
    if s.Schedule? && p.scheduler.Announced? {
      QueueKeptByWork(jobs, p);
    } else if s.Schedule? && p.scheduler.Ending? {
      QueueKeptByEndMark(jobs, p);
    } else if s.Take? {
      QueueKeptByTake(jobs, p, s.w);
    } else if IsCallStep(s) || s.Store? {
      QueueKeptByCall(jobs, p, s);
    }
  }

  lemma WorkersKeptByTake(jobs: seq<Job>, p: Pool, w: nat)
    requires Fits(jobs, p) && WorkerInv(jobs, p) && Enabled(jobs, p, Take(w))
    requires p.queue[0].Work? ==> p.stages[p.queue[0].slot].Queued?
    requires Fits(jobs, Apply(jobs, p, Take(w)))
    ensures WorkerInv(jobs, Apply(jobs, p, Take(w)))
  {
  }

  lemma WorkersKeptByCall(jobs: seq<Job>, p: Pool, s: Step)
    requires Fits(jobs, p) && WorkerInv(jobs, p) && Enabled(jobs, p, s) && IsCallStep(s)
    ensures Fits(jobs, Apply(jobs, p, s)) && WorkerInv(jobs, Apply(jobs, p, s))
  {
  }

  lemma WorkersKeptByStore(jobs: seq<Job>, p: Pool, i: nat)
    requires Fits(jobs, p) && WorkerInv(jobs, p) && Enabled(jobs, p, Store(i))
    ensures Fits(jobs, Apply(jobs, p, Store(i))) && WorkerInv(jobs, Apply(jobs, p, Store(i)))
  {
  }

  lemma WorkersKeptBySchedule(jobs: seq<Job>, p: Pool)
    requires ScheduleInv(jobs, p) && WorkerInv(jobs, p) && Enabled(jobs, p, Schedule)
    requires Fits(jobs, Apply(jobs, p, Schedule))
    ensures WorkerInv(jobs, Apply(jobs, p, Schedule))
  {
  }

  lemma WorkersKept(jobs: seq<Job>, p: Pool, s: Step)
    requires ScheduleInv(jobs, p) && WorkerInv(jobs, p) && Enabled(jobs, p, s)
    requires HeadQueued(jobs, p, s)
    requires Fits(jobs, Apply(jobs, p, s))
    ensures WorkerInv(jobs, Apply(jobs, p, s))
  {
    if s.Schedule? {
      WorkersKeptBySchedule(jobs, p);
    } else if s.Take? {
      WorkersKeptByTake(jobs, p, s.w);
    } else if IsCallStep(s) {
      WorkersKeptByCall(jobs, p, s);
    } else if s.Store? {
      WorkersKeptByStore(jobs, p, s.i);
    }
  }

  lemma PermitsKept(jobs: seq<Job>, p: Pool, s: Step)
    requires Fits(jobs, p) && PermitInv(p) && Enabled(jobs, p, s)
    requires p.scheduler.Announced? ==> p.stages[p.scheduler.next].Unscheduled?
    requires HeadQueued(jobs, p, s)
    ensures PermitInv(Apply(jobs, p, s))
  {
    var q := Apply(jobs, p, s);
    match s
    case Schedule =>
      if p.scheduler.Announced? {
        CountRunningUpdate(p.stages, p.scheduler.next, q.stages[p.scheduler.next]);
      }
    case Take(w) =>
      if p.queue[0].Work? {
        CountRunningUpdate(p.stages, p.queue[0].slot, Acquiring);
      }
    case Abort =>
    case _ => CountRunningUpdate(p.stages, s.i, q.stages[s.i]);
  }

  lemma StagesKeptBySchedule(jobs: seq<Job>, p: Pool)
    requires Fits(jobs, p) && StageInv(jobs, p) && Enabled(jobs, p, Schedule)
    requires p.scheduler.Announced? ==> p.stages[p.scheduler.next].Unscheduled?
    requires Fits(jobs, Apply(jobs, p, Schedule))
    ensures StageInv(jobs, Apply(jobs, p, Schedule))
  {
  }

  lemma StagesKeptByCall(jobs: seq<Job>, p: Pool, s: Step)
    requires Fits(jobs, p) && StageInv(jobs, p) && Enabled(jobs, p, s)
    requires IsCallStep(s) || s.Store?
    requires Fits(jobs, Apply(jobs, p, s))
    ensures StageInv(jobs, Apply(jobs, p, s))
  {
  }

  lemma StagesKept(jobs: seq<Job>, p: Pool, s: Step)
    requires Fits(jobs, p) && StageInv(jobs, p) && Enabled(jobs, p, s)
    requires p.scheduler.Announced? ==> p.stages[p.scheduler.next].Unscheduled?
    requires HeadQueued(jobs, p, s)
    requires Fits(jobs, Apply(jobs, p, s))
    ensures StageInv(jobs, Apply(jobs, p, s))
  {
    if s.Schedule? {
      StagesKeptBySchedule(jobs, p);
    } else if !s.Take? && !s.Abort? {
      StagesKeptByCall(jobs, p, s);
    }
  }

  lemma OpenKeptBySchedule(jobs: seq<Job>, p: Pool)
    requires ScheduleInv(jobs, p) && OpenInv(jobs, p) && Enabled(jobs, p, Schedule)
    requires Fits(jobs, Apply(jobs, p, Schedule))
    ensures OpenInv(jobs, Apply(jobs, p, Schedule))
  {
  }

  lemma OpenKept(jobs: seq<Job>, p: Pool, s: Step)
    requires ScheduleInv(jobs, p) && OpenInv(jobs, p) && Enabled(jobs, p, s) && HeadQueued(jobs, p, s)
    requires Fits(jobs, Apply(jobs, p, s))
    ensures OpenInv(jobs, Apply(jobs, p, s))
  {
    if s.Schedule? {
      OpenKeptBySchedule(jobs, p);
    }
  }

  lemma TraceKeptBySchedule(jobs: seq<Job>, p: Pool)
    requires ScheduleInv(jobs, p) && StageInv(jobs, p) && OpenInv(jobs, p) && TraceInv(p) && Enabled(jobs, p, Schedule)
    ensures TraceInv(Apply(jobs, p, Schedule))
  {
    match p.scheduler
    case AtCall(i) =>
      if i < |jobs| {
        ToolStarts(p.trace, p.open, i, jobs[i].call);
      }
    case Announced(i) =>
      var f := if p.aborted then jobs[i].atPreparation else jobs[i].clean;
      ToolEnds(p.trace, p.open, i + 1, i, f.output, f.isError);
    case _ =>
  }

  lemma TraceKeptByCall(jobs: seq<Job>, p: Pool, s: Step)
    requires Fits(jobs, p) && TraceInv(p) && Enabled(jobs, p, s) && (s.Progress? || s.Report?)
    requires s.i in p.open && p.open[s.i] == jobs[s.i].call.id
    requires s.Report? ==> p.stages[s.i].finalized.call.id == jobs[s.i].call.id
    ensures TraceInv(Apply(jobs, p, s))
  {
    var n := p.scheduled + if p.scheduler.Announced? then 1 else 0;
    if s.Progress? {
      ToolUpdates(p.trace, p.open, n, s.i, p.stages[s.i].progress[0]);
    } else {
      var f := p.stages[s.i].finalized;
      ToolEnds(p.trace, p.open, n, s.i, f.output, f.isError);
    }
  }

  lemma TraceKept(jobs: seq<Job>, p: Pool, s: Step)
    requires ScheduleInv(jobs, p) && StageInv(jobs, p) && OpenInv(jobs, p) && TraceInv(p) && Enabled(jobs, p, s)
    ensures TraceInv(Apply(jobs, p, s))
  {
    if s.Schedule? {
      TraceKeptBySchedule(jobs, p);
    } else if s.Progress? || s.Report? {
      TraceKeptByCall(jobs, p, s);
    }
  }

  lemma StepKeepsInv(jobs: seq<Job>, p: Pool, s: Step)
    requires Inv(jobs, p) && Enabled(jobs, p, s)
    ensures Inv(jobs, Apply(jobs, p, s))
  {
    ScheduleKept(jobs, p, s);
    QueueKept(jobs, p, s);
    WorkersKept(jobs, p, s);
    PermitsKept(jobs, p, s);
    StagesKept(jobs, p, s);
    OpenKept(jobs, p, s);
    TraceKept(jobs, p, s);
  }
}
