/** Executing the tool calls of one assistant message. */
module ToolBatches {
  import opened Options
  import opened AgentEvents
  import opened ToolOutcomes
  import opened LoopRuns
  import opened WorkerPool
  import opened WorkerPoolProofs
  import opened WorkerPoolTheorems

  datatype ExecutedBatch = ExecutedBatch(messages: seq<Message>, terminate: bool)

  /** The events of result message `f`, start and end. */
  method EmitResult(run: LoopRun, f: Finalized)
    requires run.Valid() && run.phase.InTurn? && run.phase.message.None? && run.phase.open == map[]
    modifies run`trace, run`moments, run`phase, run`mostOpen, run`ended, run.sink
    ensures run.Valid() && run.phase == old(run.phase) && run.ended == old(run.ended) + [ResultMessage(f)]
    ensures run.mostOpen == old(run.mostOpen)
  {
    run.Emit(MessageStart(ResultMessage(f)));
    run.Emit(MessageEnd(ResultMessage(f)));
  }

  function TruncatedOutcome(call: ToolCall): Finalized
  {
    Finalized(
      call,
      ErrorOutput("Tool call \"" + call.name + "\" was not executed: the response hit the output token limit, "
                  + "so its arguments may be truncated. Re-issue the tool call with complete arguments."),
      true)
  }

  /** One call that no body runs for: announced, ended and answered. */
  method AnswerOne(run: LoopRun, position: nat, call: ToolCall, outcome: Finalized)
    requires run.Valid() && run.phase == InTurn(None, map[], position) && outcome.call == call
    modifies run`trace, run`moments, run`phase, run`mostOpen, run`ended, run.sink
    ensures run.Valid() && run.phase == InTurn(None, map[], position + 1)
    ensures run.ended == old(run.ended) + [ResultMessage(outcome)]
  {
    run.Emit(ToolStart(position, call));
    run.Emit(ToolEndOf(position, outcome));
    assert run.phase.open == map[];
    EmitResult(run, outcome);
  }

  /** Answers every call by `outcomeOf`, in source order. */
  method AnswerEach(run: LoopRun, calls: seq<ToolCall>, outcomeOf: ToolCall -> Finalized)
    returns (messages: seq<Message>)
    requires run.Valid() && run.phase == QUIET_TURN && forall call :: outcomeOf(call).call == call
    modifies run`trace, run`moments, run`phase, run`mostOpen, run`ended, run.sink
    ensures run.Valid() && run.phase == InTurn(None, map[], |calls|)
    ensures |messages| == |calls| && forall i :: 0 <= i < |calls| ==> messages[i] == ResultMessage(outcomeOf(calls[i]))
    ensures run.ended == old(run.ended) + messages
  {
    messages := [];
    for i := 0 to |calls|
      invariant run.Valid() && run.phase == InTurn(None, map[], i)
      invariant |messages| == i && run.ended == old(run.ended) + messages
      invariant forall k :: 0 <= k < i ==> messages[k] == ResultMessage(outcomeOf(calls[k]))
    {
      AnswerOne(run, i, calls[i], outcomeOf(calls[i]));
      messages := messages + [ResultMessage(outcomeOf(calls[i]))];
    }
  }

  /** Answers every call of a message cut off by the length limit with an error;
      no body runs, since `run.bodies` is not in the frame. */
  method FailTruncated(run: LoopRun, calls: seq<ToolCall>) returns (batch: ExecutedBatch)
    requires run.Valid() && run.phase == QUIET_TURN
    modifies run`trace, run`moments, run`phase, run`mostOpen, run`ended, run.sink
    ensures run.Valid() && run.phase == InTurn(None, map[], |calls|)
    ensures |batch.messages| == |calls| && !batch.terminate
    ensures forall i :: 0 <= i < |calls| ==> batch.messages[i] == ResultMessage(TruncatedOutcome(calls[i]))
    ensures run.ended == old(run.ended) + batch.messages
  {
    var messages := AnswerEach(run, calls, TruncatedOutcome);
    return ExecutedBatch(messages, false);
  }

  /** The body of a prepared call, unless an abort is visible at the capacity
      boundary; its progress is delivered before it is over. */
  method ExecutePrepared(run: LoopRun, box: Toolbox, position: nat, call: ToolCall) returns (executed: Executed)
    requires run.Valid() && run.phase.InTurn? && run.phase.message.None?
    requires position in run.phase.open && run.phase.open[position] == call.id
    modifies run`trace, run`moments, run`phase, run`mostOpen, run`ended, run`bodies, run.sink, run.Shared()
    ensures run.Valid() && run.phase == old(run.phase) && run.ended == old(run.ended)
    ensures run.mostOpen <= Max(old(run.mostOpen), OpenCount(run.phase)) && run.bodies <= old(run.bodies) + 1
    ensures executed == Run(box, call) || (run.signal.aborted && executed == ABORTED_EXECUTION)
    ensures old(run.signal.aborted) ==> run.signal.aborted && run.bodies == old(run.bodies)
    ensures run.steering.delivered == old(run.steering.delivered)
    ensures run.followUp.delivered == old(run.followUp.delivered)
  {
    run.Interference();
    if run.signal.aborted {
      return ABORTED_EXECUTION;
    }
    run.bodies := run.bodies + 1;
    var progress := box.progress(call);
    for k := 0 to |progress|
      modifies run`trace, run`moments, run`phase, run`mostOpen, run`ended, run.sink
      invariant run.Valid() && run.phase == old(run.phase) && run.ended == old(run.ended)
      invariant run.mostOpen <= Max(old(run.mostOpen), OpenCount(run.phase))
    {
      run.Emit(ToolUpdate(position, call.id, progress[k]));
    }
    return Run(box, call);
  }

  /** The preparation, the body and the after-hook of an announced call. */
  method SettleCall(run: LoopRun, box: Toolbox, position: nat, call: ToolCall) returns (f: Finalized)
    requires run.Valid() && run.phase.InTurn? && run.phase.message.None?
    requires position in run.phase.open && run.phase.open[position] == call.id
    modifies run`trace, run`moments, run`phase, run`mostOpen, run`ended, run`bodies, run.sink, run.Shared()
    ensures run.Valid() && run.phase == old(run.phase) && run.ended == old(run.ended)
    ensures IsOutcome(JobOf(box, call), run.signal.aborted, f)
    ensures run.mostOpen <= Max(old(run.mostOpen), OpenCount(run.phase)) && run.bodies <= old(run.bodies) + 1
    ensures old(run.signal.aborted) ==> run.signal.aborted
    ensures run.steering.delivered == old(run.steering.delivered)
    ensures run.followUp.delivered == old(run.followUp.delivered)
  {
    run.Interference();
    match Prepare(box, call, run.signal.aborted) {
      case Immediate(outcome) =>
        f := outcome;
      case Prepared(prepared) =>
        var executed := ExecutePrepared(run, box, position, prepared);
        f := ToolOutcomes.Finalize(box, prepared, executed);
    }
  }

  /** One call of the sequential loop, from its start event to its end event. */
  method ExecuteOne(run: LoopRun, box: Toolbox, position: nat, call: ToolCall) returns (f: Finalized)
    requires run.Valid() && run.phase == InTurn(None, map[], position)
    modifies run`trace, run`moments, run`phase, run`mostOpen, run`ended, run`bodies, run.sink, run.Shared()
    ensures run.Valid() && run.phase == InTurn(None, map[], position + 1)
    ensures IsOutcome(JobOf(box, call), run.signal.aborted, f)
    ensures run.mostOpen <= Max(old(run.mostOpen), 1) && run.bodies <= old(run.bodies) + 1
    ensures run.ended == old(run.ended) + [ResultMessage(f)]
    ensures old(run.signal.aborted) ==> run.signal.aborted
    ensures run.steering.delivered == old(run.steering.delivered)
    ensures run.followUp.delivered == old(run.followUp.delivered)
  {
    run.Emit(ToolStart(position, call));
    assert run.phase.open == map[position := call.id];
    f := SettleCall(run, box, position, call);
    run.Emit(ToolEndOf(position, f));
    assert run.phase.open == map[];
    EmitResult(run, f);
  }

  /** How far the sequential loop has come: `fs` answers the calls before the next. */
  ghost predicate Progress(run: LoopRun, jobs: seq<Job>, fs: seq<Finalized>)
    reads run, run.signal
  {
    && |fs| <= |jobs| && run.phase == InTurn(None, map[], |fs|)
    && forall k :: 0 <= k < |fs| ==> IsOutcome(jobs[k], run.signal.aborted, fs[k])
  }

  /** One pass of the sequential loop. */
  method ExecuteNext(run: LoopRun, box: Toolbox, calls: seq<ToolCall>, finalized: seq<Finalized>)
    returns (f: Finalized)
    requires run.Valid() && |finalized| < |calls| && Progress(run, JobsOf(box, calls), finalized)
    modifies run`trace, run`moments, run`phase, run`mostOpen, run`ended, run`bodies, run.sink, run.Shared()
    ensures run.Valid() && Progress(run, JobsOf(box, calls), finalized + [f])
    ensures run.mostOpen <= Max(old(run.mostOpen), 1) && run.bodies <= old(run.bodies) + 1
    ensures run.ended == old(run.ended) + [ResultMessage(f)]
    ensures old(run.signal.aborted) ==> run.signal.aborted
    ensures run.steering.delivered == old(run.steering.delivered)
    ensures run.followUp.delivered == old(run.followUp.delivered)
  {
    ghost var aborted := run.signal.aborted;
    f := ExecuteOne(run, box, |finalized|, calls[|finalized|]);
    run.Interference();
    LongerBatch(JobsOf(box, calls), aborted, run.signal.aborted, finalized, f);
  }

  lemma LongerBatch(jobs: seq<Job>, aborted: bool, aborted': bool, fs: seq<Finalized>, f: Finalized)
    requires |fs| < |jobs| && (aborted ==> aborted')
    requires forall i :: 0 <= i < |fs| ==> IsOutcome(jobs[i], aborted, fs[i])
    requires IsOutcome(jobs[|fs|], aborted', f)
    ensures forall i :: 0 <= i <= |fs| ==> IsOutcome(jobs[i], aborted', (fs + [f])[i])
  {
  }

  method ExecuteSequential(run: LoopRun, box: Toolbox, calls: seq<ToolCall>)
    returns (batch: ExecutedBatch, ghost fs: seq<Finalized>)
    requires run.Valid() && run.phase == QUIET_TURN
    modifies run`trace, run`moments, run`phase, run`mostOpen, run`ended, run`bodies, run.sink, run.Shared()
    ensures run.Valid() && run.phase == InTurn(None, map[], |fs|)
    ensures IsBatch(JobsOf(box, calls), run.signal.aborted, fs)
    ensures batch == ExecutedBatch(ResultMessages(fs), ShouldTerminate(fs))
    ensures run.mostOpen <= Max(old(run.mostOpen), 1) && run.bodies <= old(run.bodies) + |fs|
    ensures run.ended == old(run.ended) + batch.messages
    ensures old(run.signal.aborted) ==> run.signal.aborted
    ensures run.steering.delivered == old(run.steering.delivered)
    ensures run.followUp.delivered == old(run.followUp.delivered)
  {
    var finalized: seq<Finalized> := [];
    while |finalized| < |calls|
      invariant run.Valid() && |finalized| <= |calls| && Progress(run, JobsOf(box, calls), finalized)
      invariant run.ended == old(run.ended) + ResultMessages(finalized)
      invariant run.mostOpen <= Max(old(run.mostOpen), 1) && run.bodies <= old(run.bodies) + |finalized|
      invariant old(run.signal.aborted) ==> run.signal.aborted
      invariant run.steering.delivered == old(run.steering.delivered)
      invariant run.followUp.delivered == old(run.followUp.delivered)
      decreases |calls| - |finalized|
    {
      var f := ExecuteNext(run, box, calls, finalized);
      assert ResultMessages(finalized + [f]) == ResultMessages(finalized) + [ResultMessage(f)];
      finalized := finalized + [f];
      if run.signal.aborted {
        break;
      }
    }
    fs := finalized;
    batch := ExecutedBatch(ResultMessages(finalized), ShouldTerminate(finalized));
  }

  /** Emits the event, if any, that a pool step has added to the pool's trace. */
  method EmitStep(run: LoopRun, p: Pool, next: Pool)
    requires run.Valid() && run.phase == Scan(QUIET_TURN, p.trace)
    requires next.trace == p.trace || (|next.trace| == |p.trace| + 1 && next.trace[..|p.trace|] == p.trace)
    requires MessageEnds(next.trace) == MessageEnds(p.trace) == []
    modifies run`trace, run`moments, run`phase, run`mostOpen, run`ended, run.sink
    ensures run.Valid() && run.phase == Scan(QUIET_TURN, next.trace) && run.ended == old(run.ended)
  {
    if |p.trace| < |next.trace| {
      var e := next.trace[|p.trace|];
      assert next.trace == p.trace + [e];
      ScanSnoc(QUIET_TURN, p.trace, e);
      run.Emit(e);
    }
  }

  lemma StepEmitsAtMostOne(jobs: seq<Job>, p: Pool, s: Step)
    requires Fits(jobs, p) && Enabled(jobs, p, s)
    ensures var trace := Apply(jobs, p, s).trace;
            trace == p.trace || (|trace| == |p.trace| + 1 && trace[..|p.trace|] == p.trace)
  {
  }

  /** The facts about one step that the run needs, gathered. */
  lemma StepMoves(jobs: seq<Job>, p: Pool, s: Step)
    requires Inv(jobs, p) && !p.scheduler.Done? && Enabled(jobs, p, s)
    ensures Moves(jobs, p, Apply(jobs, p, s))
  {
    StepKeepsInv(jobs, p, s);
    StepKeepsDone(jobs, p, s);
    StepKeepsWidth(jobs, p, s);
    EveryStepCosts(jobs, p, s);
    StepEmitsAtMostOne(jobs, p, s);
  }

  predicate Moves(jobs: seq<Job>, p: Pool, next: Pool)
    requires Fits(jobs, p)
  {
    && Inv(jobs, next) && (next.scheduler.Done? ==> AllStopped(next))
    && next.width == p.width && Measure(jobs, next) < Measure(jobs, p)
    && (next.trace == p.trace || (|next.trace| == |p.trace| + 1 && next.trace[..|p.trace|] == p.trace))
  }

  /** A step that the scheduler takes, whichever it likes of those enabled. */
  method PickStep(jobs: seq<Job>, p: Pool) returns (step: Step)
    requires Inv(jobs, p) && !p.scheduler.Done? && p.width > 0
    ensures Enabled(jobs, p, step) && !step.Abort?
  {
    ghost var some := NeverStuck(jobs, p);
    step :| Enabled(jobs, p, step) && !step.Abort?;
  }

  /** The next state of the pool: the abort arrives, or the scheduler takes
      whichever enabled step it likes. */
  method ChooseStep(jobs: seq<Job>, p: Pool, abortVisible: bool) returns (next: Pool, bodyStarted: bool)
    requires Inv(jobs, p) && !p.scheduler.Done? && p.width > 0
    ensures Moves(jobs, p, next)
    ensures next.aborted == (p.aborted || abortVisible)
    ensures p.aborted || abortVisible ==> !bodyStarted
  {
    var step := Abort;
    if p.aborted || !abortVisible {
      step := PickStep(jobs, p);
    }
    StepMoves(jobs, p, step);
    return Apply(jobs, p, step), step.Acquire? && !p.aborted;
  }

  /** One step of the pool, with the event it emits. */
  method PoolStep(run: LoopRun, jobs: seq<Job>, p: Pool) returns (next: Pool)
    requires run.Valid() && run.phase == Scan(QUIET_TURN, p.trace) && Inv(jobs, p) && !p.scheduler.Done? && p.width > 0
    modifies run`trace, run`moments, run`phase, run`mostOpen, run`ended, run`bodies, run.sink
    ensures run.Valid() && run.phase == Scan(QUIET_TURN, next.trace) && Moves(jobs, p, next)
    ensures next.aborted == (p.aborted || run.signal.aborted)
    ensures run.ended == old(run.ended)
  {
    var started;
    next, started := ChooseStep(jobs, p, run.signal.aborted);
    if started {
      run.bodies := run.bodies + 1;
    }
    EmitStep(run, p, next);
  }

  /** Lets the pool run from state `p` to its end, whatever its schedule. */
  method DrivePool(run: LoopRun, jobs: seq<Job>, p: Pool) returns (end: Pool)
    requires run.Valid() && run.phase == Scan(QUIET_TURN, p.trace)
    requires Inv(jobs, p) && p.width > 0 && (p.scheduler.Done? ==> AllStopped(p))
    requires p.aborted ==> run.signal.aborted
    modifies run`trace, run`moments, run`phase, run`mostOpen, run`ended, run`bodies, run.sink, run.Shared()
    ensures run.Valid() && run.phase == Scan(QUIET_TURN, end.trace) && run.ended == old(run.ended)
    ensures Inv(jobs, end) && end.scheduler.Done? && AllStopped(end) && end.width > 0
    ensures end.aborted ==> run.signal.aborted
    ensures old(run.signal.aborted) ==> run.signal.aborted
    ensures run.steering.delivered == old(run.steering.delivered)
    ensures run.followUp.delivered == old(run.followUp.delivered)
    decreases Measure(jobs, p)
  {
    if p.scheduler.Done? {
      return p;
    }
    run.Interference();
    var next := PoolStep(run, jobs, p);
    end := DrivePool(run, jobs, next);
  }

  /** The parallel executor's pool, and what it gathers. */
  method RunPool(run: LoopRun, jobs: seq<Job>, width: nat) returns (fs: seq<Finalized>)
    requires run.Valid() && run.phase == QUIET_TURN
    requires AllConsistent(jobs) && width > 0
    modifies run`trace, run`moments, run`phase, run`mostOpen, run`ended, run`bodies, run.sink, run.Shared()
    ensures run.Valid() && run.phase == InTurn(None, map[], |fs|) && run.ended == old(run.ended)
    ensures IsBatch(jobs, run.signal.aborted, fs)
    ensures old(run.signal.aborted) ==> run.signal.aborted
    ensures run.steering.delivered == old(run.steering.delivered)
    ensures run.followUp.delivered == old(run.followUp.delivered)
  {
    var start := Init(jobs, width, run.signal.aborted);
    InitInv(jobs, width, run.signal.aborted);
    var p := DrivePool(run, jobs, start);
    DoneGathers(jobs, p);
    fs := Gathered(p);
  }

  /** The result messages of a batch, emitted in source order. */
  method EmitResults(run: LoopRun, fs: seq<Finalized>) returns (messages: seq<Message>)
    requires run.Valid() && run.phase.InTurn? && run.phase.message.None? && run.phase.open == map[]
    modifies run`trace, run`moments, run`phase, run`mostOpen, run`ended, run.sink
    ensures run.Valid() && run.phase == old(run.phase)
    ensures messages == ResultMessages(fs) && run.ended == old(run.ended) + messages
  {
    messages := [];
    for i := 0 to |fs|
      invariant run.Valid() && run.phase == old(run.phase)
      invariant messages == ResultMessages(fs[..i]) && run.ended == old(run.ended) + messages
    {
      EmitResult(run, fs[i]);
      assert ResultMessages(fs[..i + 1]) == ResultMessages(fs[..i]) + [ResultMessage(fs[i])];
      messages := messages + [ResultMessage(fs[i])];
    }
    assert fs[..|fs|] == fs;
  }

  method ExecuteParallel(run: LoopRun, box: Toolbox, calls: seq<ToolCall>)
    returns (batch: ExecutedBatch, ghost fs: seq<Finalized>)
    requires run.Valid() && run.phase == QUIET_TURN
    modifies run`trace, run`moments, run`phase, run`mostOpen, run`ended, run`bodies, run.sink, run.Shared()
    ensures run.Valid() && run.phase == InTurn(None, map[], |fs|)
    ensures IsBatch(JobsOf(box, calls), run.signal.aborted, fs)
    ensures batch == ExecutedBatch(ResultMessages(fs), ShouldTerminate(fs))
    ensures run.ended == old(run.ended) + batch.messages
    ensures old(run.signal.aborted) ==> run.signal.aborted
    ensures run.steering.delivered == old(run.steering.delivered)
    ensures run.followUp.delivered == old(run.followUp.delivered)
  {
    var gathered := RunPool(run, JobsOf(box, calls), Max(1, box.maxParallelTools));
    var messages := EmitResults(run, gathered);
    fs := gathered;
    batch := ExecutedBatch(messages, ShouldTerminate(gathered));
  }

  /** Whether the configuration or any tool of the batch asks for one call at a time. */
  predicate OneAtATime(box: Toolbox, calls: seq<ToolCall>)
  {
    box.sequentialMode || exists i :: 0 <= i < |calls| && box.known(calls[i].name) && box.sequentialTool(calls[i].name)
  }

  /** Picks the executor.  When one call at a time is asked for, no execution is open
      beside another, so no two bodies run at once. */
  method ExecuteToolCalls(run: LoopRun, box: Toolbox, calls: seq<ToolCall>)
    returns (batch: ExecutedBatch, ghost fs: seq<Finalized>)
    requires run.Valid() && run.phase == QUIET_TURN
    modifies run`trace, run`moments, run`phase, run`mostOpen, run`ended, run`bodies, run.sink, run.Shared()
    ensures run.Valid() && run.phase == InTurn(None, map[], |fs|)
    ensures IsBatch(JobsOf(box, calls), run.signal.aborted, fs)
    ensures batch == ExecutedBatch(ResultMessages(fs), ShouldTerminate(fs))
    ensures OneAtATime(box, calls) ==>
              run.mostOpen <= Max(old(run.mostOpen), 1) && run.bodies <= old(run.bodies) + |fs|
    ensures run.ended == old(run.ended) + batch.messages
    ensures old(run.signal.aborted) ==> run.signal.aborted
    ensures run.steering.delivered == old(run.steering.delivered)
    ensures run.followUp.delivered == old(run.followUp.delivered)
  {
    if OneAtATime(box, calls) {
      batch, fs := ExecuteSequential(run, box, calls);
    } else {
      batch, fs := ExecuteParallel(run, box, calls);
    }
  }
}
