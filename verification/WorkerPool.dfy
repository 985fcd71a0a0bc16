/**
 The parallel tool executor as a step system: one scheduling loop, a shared FIFO
 work queue, W workers and a semaphore.  A step is what runs between two points
 at which the program may switch tasks; the abort bit may be set between any two
 steps.  The local variables of the worker that handles a call, and the slot its
 outcome is stored in, appear as the stage of that call.
 */
module WorkerPool {
  import opened AgentEvents
  import opened ToolOutcomes

  datatype Stage =
    | Unscheduled
    | Queued
    | Acquiring                                              // taken, wants a permit
    | Running(progress: seq<string>)                         // inside the tool body
    | Draining(progress: seq<string>, finalized: Finalized)  // body over, relay closing
    | Reported(finalized: Finalized)                         // end event emitted
    | Stored(finalized: Finalized)                           // in its ordered slot

  datatype Worker = Idle | Busy(slot: nat) | Stopped

  datatype Scheduler =
    | AtCall(next: nat)      // top of the scheduling loop
    | Announced(next: nat)   // start event emitted
    | Placed(next: nat)      // outcome stored or item queued; abort check next
    | Ending(put: nat)       // queueing one end marker per worker
    | Gathering
    | Done

  datatype Item = Work(slot: nat) | EndMark

  datatype Pool = Pool(
    scheduler: Scheduler,
    queue: seq<Item>,
    workers: seq<Worker>,
    stages: seq<Stage>,
    scheduled: nat,
    width: nat,
    permits: nat,
    aborted: bool,
    trace: seq<AgentEvent>,
    open: map<nat, string>, // auxiliary: calls whose start event is out and whose end event is not
    holder: seq<nat>,       // auxiliary: the worker that took each call
    bodies: seq<nat>,       // auxiliary: how often the body of each call was started
    marks: seq<nat>)        // auxiliary: end markers taken by each worker

  datatype Step =
    | Schedule | Take(w: nat) | Acquire(i: nat) | Progress(i: nat) | Finish(i: nat)
    | Report(i: nat) | Store(i: nat) | Abort

  function Init(jobs: seq<Job>, width: nat, aborted: bool): Pool
  {
    var n := |jobs|;
    var w := Min(width, n);
    Pool(AtCall(0), [], seq(w, _ => Idle), seq(n, _ => Unscheduled), 0, width, width, aborted, [],
         map[], seq(n, _ => 0), seq(n, _ => 0), seq(w, _ => 0))
  }

  predicate InHand(s: Stage)
  {
    s.Acquiring? || s.Running? || s.Draining? || s.Reported?
  }

  predicate Fits(jobs: seq<Job>, p: Pool)
  {
    && |p.stages| == |p.holder| == |p.bodies| == |jobs|
    && |p.marks| == |p.workers|
    && (p.scheduler.AtCall? ==> p.scheduler.next <= |jobs|)
    && (p.scheduler.Announced? || p.scheduler.Placed? ==> p.scheduler.next < |jobs|)
    && (forall k :: 0 <= k < |p.queue| && p.queue[k].Work? ==> p.queue[k].slot < |jobs|)
    && (forall i :: 0 <= i < |jobs| && InHand(p.stages[i]) ==> p.holder[i] < |p.workers|)
  }

  predicate Enabled(jobs: seq<Job>, p: Pool, s: Step)
    requires Fits(jobs, p)
  {
    match s
    case Schedule =>
      !p.scheduler.Done?
      && (p.scheduler.Gathering? ==> forall w :: 0 <= w < |p.workers| ==> p.workers[w].Stopped?)
    case Take(w) => w < |p.workers| && p.workers[w].Idle? && p.queue != []
    case Acquire(i) => i < |jobs| && p.stages[i].Acquiring? && p.permits > 0
    case Progress(i) =>
      i < |jobs| && (p.stages[i].Running? || p.stages[i].Draining?) && p.stages[i].progress != []
    case Finish(i) => i < |jobs| && p.stages[i].Running?
    case Report(i) => i < |jobs| && p.stages[i].Draining? && p.stages[i].progress == []
    case Store(i) => i < |jobs| && p.stages[i].Reported?
    case Abort => !p.aborted
  }

  function ScheduleStep(jobs: seq<Job>, p: Pool): Pool
    requires Fits(jobs, p)
  {
    match p.scheduler
    case AtCall(i) =>
      if i < |jobs| then
        p.(scheduler := Announced(i), trace := p.trace + [ToolStart(i, jobs[i].call)],
           open := p.open[i := jobs[i].call.id])
      else p.(scheduler := Ending(0))
    case Announced(i) =>
      var q := p.(scheduler := Placed(i), scheduled := i + 1);
      if p.aborted || !jobs[i].ready then
        var f := if p.aborted then jobs[i].atPreparation else jobs[i].clean;
        q.(trace := p.trace + [ToolEndOf(i, f)], open := p.open - {i}, stages := p.stages[i := Stored(f)])
      else q.(queue := p.queue + [Work(i)], stages := p.stages[i := Queued])
    case Placed(i) =>
      if p.aborted then p.(scheduler := Ending(0)) else p.(scheduler := AtCall(i + 1))
    case Ending(k) =>
      if k < |p.workers| then p.(scheduler := Ending(k + 1), queue := p.queue + [EndMark])
      else p.(scheduler := Gathering)
    case Gathering => p.(scheduler := Done)
    case Done => p
  }

  function TakeStep(jobs: seq<Job>, p: Pool, w: nat): Pool
    requires Fits(jobs, p) && Enabled(jobs, p, Take(w))
  {
    var rest := p.(queue := p.queue[1..]);
    match p.queue[0]
    case Work(i) =>
      rest.(workers := p.workers[w := Busy(i)], stages := p.stages[i := Acquiring], holder := p.holder[i := w])
    case EndMark => rest.(workers := p.workers[w := Stopped], marks := p.marks[w := p.marks[w] + 1])
  }

  function Apply(jobs: seq<Job>, p: Pool, s: Step): Pool
    requires Fits(jobs, p) && Enabled(jobs, p, s)
  {
    match s
    case Schedule => ScheduleStep(jobs, p)
    case Take(w) => TakeStep(jobs, p, w)
    case Acquire(i) =>
      if p.aborted then p.(stages := p.stages[i := Draining([], jobs[i].atBoundary)])
      else p.(stages := p.stages[i := Running(jobs[i].progress)], permits := p.permits - 1,
              bodies := p.bodies[i := p.bodies[i] + 1])
    case Progress(i) =>
      var k := p.stages[i];
      p.(stages := p.stages[i := k.(progress := k.progress[1..])],
         trace := p.trace + [ToolUpdate(i, jobs[i].call.id, k.progress[0])])
    case Finish(i) =>
      p.(stages := p.stages[i := Draining(p.stages[i].progress, jobs[i].clean)], permits := p.permits + 1)
    case Report(i) =>
      var f := p.stages[i].finalized;
      p.(stages := p.stages[i := Reported(f)], trace := p.trace + [ToolEndOf(i, f)], open := p.open - {i})
    case Store(i) =>
      p.(stages := p.stages[i := Stored(p.stages[i].finalized)], workers := p.workers[p.holder[i] := Idle])
    case Abort => p.(aborted := true)
  }

  // ------------------------------------------------------------------ counting

  function CountEnds(queue: seq<Item>): nat
  {
    if queue == [] then 0 else (if queue[0].EndMark? then 1 else 0) + CountEnds(queue[1..])
  }

  function CountStopped(workers: seq<Worker>): nat
  {
    if workers == [] then 0 else (if workers[0].Stopped? then 1 else 0) + CountStopped(workers[1..])
  }

  /** The tool bodies running at this moment. */
  function CountRunning(stages: seq<Stage>): nat
  {
    if stages == [] then 0 else (if stages[0].Running? then 1 else 0) + CountRunning(stages[1..])
  }

  lemma {:induction false} CountEndsSnoc(queue: seq<Item>, x: Item)
    ensures CountEnds(queue + [x]) == CountEnds(queue) + (if x.EndMark? then 1 else 0)
  {
    if queue == [] {
      assert [] + [x] == [x];
    } else {
      assert (queue + [x])[1..] == queue[1..] + [x];
      CountEndsSnoc(queue[1..], x);
    }
  }

  lemma {:induction false} NoEnds(queue: seq<Item>, k: nat)
    requires k < |queue| && CountEnds(queue) == 0
    ensures queue[k].Work?
  {
    if k > 0 {
      NoEnds(queue[1..], k - 1);
    }
  }

  lemma {:induction false} CountStoppedUpdate(workers: seq<Worker>, w: nat, k: Worker)
    requires w < |workers|
    ensures CountStopped(workers[w := k])
         == CountStopped(workers) - (if workers[w].Stopped? then 1 else 0) + (if k.Stopped? then 1 else 0)
  {
    if w == 0 {
      assert workers[w := k][1..] == workers[1..];
    } else {
      assert workers[w := k][1..] == workers[1..][w - 1 := k];
      CountStoppedUpdate(workers[1..], w - 1, k);
    }
  }

  lemma {:induction false} CountRunningUpdate(stages: seq<Stage>, i: nat, s: Stage)
    requires i < |stages|
    ensures CountRunning(stages[i := s])
         == CountRunning(stages) - (if stages[i].Running? then 1 else 0) + (if s.Running? then 1 else 0)
  {
    if i == 0 {
      assert stages[i := s][1..] == stages[1..];
    } else {
      assert stages[i := s][1..] == stages[1..][i - 1 := s];
      CountRunningUpdate(stages[1..], i - 1, s);
    }
  }

  lemma {:induction false} CountStoppedBounds(workers: seq<Worker>)
    ensures CountStopped(workers) <= |workers|
    ensures CountStopped(workers) == |workers| <==> forall w :: 0 <= w < |workers| ==> workers[w].Stopped?
    ensures CountStopped(workers) == 0 <==> forall w :: 0 <= w < |workers| ==> !workers[w].Stopped?
  {
    if workers != [] {
      CountStoppedBounds(workers[1..]);
      assert forall w :: 0 < w < |workers| ==> workers[w] == workers[1..][w - 1];
      assert forall w :: 0 <= w < |workers| - 1 ==> workers[1..][w] == workers[w + 1];
    }
  }

  lemma {:induction false} CountsInit(n: nat)
    ensures CountRunning(seq(n, _ => Unscheduled)) == 0
    ensures CountStopped(seq(n, _ => Idle)) == 0
  {
    if n > 0 {
      assert seq(n, _ => Idle)[1..] == seq(n - 1, _ => Idle);
      assert seq(n, _ => Unscheduled)[1..] == seq(n - 1, _ => Unscheduled);
      CountsInit(n - 1);
    }
  }

  lemma {:induction false} SomeRunning(stages: seq<Stage>) returns (i: nat)
    requires CountRunning(stages) > 0
    ensures i < |stages| && stages[i].Running?
  {
    if stages[0].Running? {
      i := 0;
    } else {
      i := SomeRunning(stages[1..]);
      i := i + 1;
    }
  }

  // ----------------------------------------------------------------- invariant

  function EndsPut(p: Pool): nat
  {
    match p.scheduler
    case Ending(k) => k
    case Gathering => |p.workers|
    case Done => |p.workers|
    case _ => 0
  }

  predicate ScheduleInv(jobs: seq<Job>, p: Pool)
  {
    && Fits(jobs, p)
    && p.scheduled <= |jobs|
    && |p.workers| == Min(p.width, |jobs|)
    && (match p.scheduler
        case AtCall(i) => p.scheduled == i
        case Announced(i) => p.scheduled == i
        case Placed(i) => p.scheduled == i + 1
        case Ending(k) => k <= |p.workers|
        case _ => true)
    && (p.scheduler.Ending? || p.scheduler.Gathering? || p.scheduler.Done? ==>
          (!p.aborted ==> p.scheduled == |jobs|) && (jobs != [] ==> p.scheduled > 0))
    && (forall i :: 0 <= i < |jobs| ==> (i < p.scheduled <==> !p.stages[i].Unscheduled?))
  }

  /** The queue holds calls in source order, then end markers. */
  predicate Ordered(queue: seq<Item>)
  {
    forall a, b :: 0 <= a < b < |queue| && queue[b].Work? ==> queue[a].Work? && queue[a].slot < queue[b].slot
  }

  /** The queue holds exactly the queued calls. */
  predicate HoldsQueued(queue: seq<Item>, stages: seq<Stage>)
  {
    && (forall k :: 0 <= k < |queue| && queue[k].Work? ==> queue[k].slot < |stages| && stages[queue[k].slot].Queued?)
    && (forall i :: 0 <= i < |stages| && stages[i].Queued? ==> Work(i) in queue)
  }

  predicate QueueInv(jobs: seq<Job>, p: Pool)
    requires Fits(jobs, p)
  {
    && Ordered(p.queue)
    && HoldsQueued(p.queue, p.stages)
    && CountEnds(p.queue) + CountStopped(p.workers) == EndsPut(p)
    && (p.queue != [] && p.queue[0].Work? ==> CountStopped(p.workers) == 0)
  }

  predicate WorkerInv(jobs: seq<Job>, p: Pool)
    requires Fits(jobs, p)
  {
    && (forall w :: 0 <= w < |p.workers| && p.workers[w].Busy? ==>
          var i := p.workers[w].slot;
          i < |jobs| && InHand(p.stages[i]) && p.holder[i] == w)
    && (forall i :: 0 <= i < |jobs| && InHand(p.stages[i]) ==> p.workers[p.holder[i]] == Busy(i))
    && (forall w :: 0 <= w < |p.workers| ==> p.marks[w] == if p.workers[w].Stopped? then 1 else 0)
  }

  predicate PermitInv(p: Pool)
  {
    p.permits + CountRunning(p.stages) == p.width
  }

  /** What a call's stage says of its outcome and of the runs of its body. */
  predicate StageOk(job: Job, s: Stage, bodies: nat, aborted: bool)
  {
    && bodies <= (if job.ready then 1 else 0)
    && (s.Unscheduled? || s.Queued? || s.Acquiring? ==> bodies == 0)
    && (s.Queued? || InHand(s) ==> job.ready)
    && (!aborted && (s.Running? || s.Draining? || s.Reported?) ==> bodies == 1)
    && (!aborted && s.Stored? ==> bodies == if job.ready then 1 else 0)
    && (s.Draining? || s.Reported? || s.Stored? ==> IsOutcome(job, aborted, s.finalized))
  }

  predicate StageInv(jobs: seq<Job>, p: Pool)
    requires Fits(jobs, p)
  {
    forall i :: 0 <= i < |jobs| ==> jobs[i].Consistent() && StageOk(jobs[i], p.stages[i], p.bodies[i], p.aborted)
  }

  predicate OpenInv(jobs: seq<Job>, p: Pool)
    requires Fits(jobs, p)
  {
    && (forall i :: 0 <= i < |jobs| ==>
          (i in p.open <==> p.scheduler == Announced(i) || p.stages[i].Queued?
                            || (InHand(p.stages[i]) && !p.stages[i].Reported?)))
    && (forall i :: i in p.open ==> i < |jobs| && p.open[i] == jobs[i].call.id)
  }

  predicate TraceInv(p: Pool)
  {
    ToolsOnly(p.trace, p.open, p.scheduled + if p.scheduler.Announced? then 1 else 0)
  }

  predicate Inv(jobs: seq<Job>, p: Pool)
  {
    && ScheduleInv(jobs, p)
    && QueueInv(jobs, p)
    && WorkerInv(jobs, p)
    && PermitInv(p)
    && StageInv(jobs, p)
    && OpenInv(jobs, p)
    && TraceInv(p)
  }
}
