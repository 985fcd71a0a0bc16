/**
 Starting, finishing, resetting and aborting an agent from many threads.

 `begin` and `finish` each hold the run-state lock; `reset` and
 `reset_abort_signal` take no lock and look before they write, so any step may
 fall between their look and their write.  A step is one field access.
 */
module RunControl {
  import opened Options

  type Thread = nat

  datatype Lock =
    | Free
    | Beginning(thread: Thread, stage: nat)   // 0: lease, 1: signal, 2: idle event, 3: streaming flag
    | Finishing(thread: Thread, stage: nat)   // 0: streaming flag, 1: idle event, 2: lease

  datatype Control = Control(
    lease: Option<nat>,           // the token that holds the run lease
    held: Option<nat>,            // the token the agent keeps for its run
    streaming: bool,
    idle: bool,
    signal: nat,                  // the agent's current abort signal
    runSignal: nat,               // the signal that the last run was started with
    aborted: set<nat>,
    issued: nat,                  // tokens and signals below this one exist
    lock: Lock,
    running: set<Thread>,         // threads between a begin that succeeded and their finish
    resetting: set<Thread>,       // threads that saw no active lease and will write
    renewing: set<Thread>,        // threads that saw the agent not streaming
    swapping: set<Thread>)        // ... and then saw its signal aborted

  datatype Step =
    | Begin(thread: Thread)
    | BeginStep
    | Finish(thread: Thread)
    | FinishStep
    | Abort
    | ResetLook(thread: Thread)
    | ResetWrite(thread: Thread)
    | RenewLook(thread: Thread)
    | RenewCheck(thread: Thread)
    | RenewSwap(thread: Thread)
    | StaleRelease(token: nat)    // a token of an earlier run is released again

  const INITIAL := Control(None, None, false, true, 0, 0, {}, 1, Free, {}, {}, {}, {})

  predicate Enabled(s: Control, step: Step)
  {
    match step
    case Begin(t) => s.lock.Free? && t !in s.running
    case BeginStep => s.lock.Beginning?
    case Finish(t) => s.lock.Free? && t in s.running
    case FinishStep => s.lock.Finishing?
    case Abort => true
    case ResetLook(t) => t !in s.resetting
    case ResetWrite(t) => t in s.resetting
    case RenewLook(t) => t !in s.renewing && t !in s.swapping
    case RenewCheck(t) => t in s.renewing
    case RenewSwap(t) => t in s.swapping
    case StaleRelease(token) => token < s.issued && s.held != Some(token)
  }

  function Release(lease: Option<nat>, token: Option<nat>): Option<nat>
  {
    if token.Some? && lease == token then None else lease
  }

  function ApplyBegin(s: Control): Control
    requires s.lock.Beginning?
  {
    var t := s.lock.thread;
    match s.lock.stage
    case 0 =>
      if s.lease.Some? then s.(lock := Free)
      else s.(lease := Some(s.issued), held := Some(s.issued), issued := s.issued + 1, lock := Beginning(t, 1))
    case 1 => s.(signal := s.issued, runSignal := s.issued, issued := s.issued + 1, lock := Beginning(t, 2))
    case 2 => s.(idle := false, lock := Beginning(t, 3))
    case _ => s.(streaming := true, running := s.running + {t}, lock := Free)
  }

  function ApplyFinish(s: Control): Control
    requires s.lock.Finishing?
  {
    var t := s.lock.thread;
    match s.lock.stage
    case 0 => s.(streaming := false, lock := Finishing(t, 1))
    case 1 => s.(idle := true, lock := Finishing(t, 2))
    case _ => s.(lease := Release(s.lease, s.held), held := None, running := s.running - {t}, lock := Free)
  }

  function Apply(s: Control, step: Step): Control
    requires Enabled(s, step)
  {
    match step
    case Begin(t) => s.(lock := Beginning(t, 0))
    case BeginStep => ApplyBegin(s)
    case Finish(t) => s.(lock := Finishing(t, 0))
    case FinishStep => ApplyFinish(s)
    case Abort => s.(aborted := s.aborted + {s.signal})
    case ResetLook(t) => if s.lease.Some? then s else s.(resetting := s.resetting + {t})
    case ResetWrite(t) => s.(streaming := false, resetting := s.resetting - {t})
    case RenewLook(t) => if s.streaming then s else s.(renewing := s.renewing + {t})
    case RenewCheck(t) =>
      var seen := s.(renewing := s.renewing - {t});
      if s.signal in s.aborted then seen.(swapping := s.swapping + {t}) else seen
    case RenewSwap(t) => s.(signal := s.issued, issued := s.issued + 1, swapping := s.swapping - {t})
    case StaleRelease(token) => s.(lease := Release(s.lease, Some(token)))
  }

  /** A run of the machine from a fresh agent. */
  ghost predicate IsRun(states: seq<Control>, steps: seq<Step>)
  {
    && |states| == |steps| + 1
    && states[0] == INITIAL
    && forall k :: 0 <= k < |steps| ==> Enabled(states[k], steps[k]) && states[k + 1] == Apply(states[k], steps[k])
  }

  /** What no interleaving breaks: the lease, the agent's token and the running
      thread agree, and the flags do up to an early reset. */
  predicate Inv(s: Control)
  {
    && s.lease == s.held
    && (s.lease.Some? ==> s.lease.value < s.issued)
    && s.signal < s.issued && s.runSignal < s.issued
    && (forall a :: a in s.aborted ==> a < s.issued)
    && match s.lock
       case Free => s.idle == s.lease.None? && (s.streaming ==> s.lease.Some?) && Owns(s)
       case Beginning(t, 0) => t !in s.running && s.idle == s.lease.None? && (s.streaming ==> s.lease.Some?) && Owns(s)
       case Beginning(t, stage) => s.lease.Some? && s.running == {} && !s.streaming && (s.idle <==> stage < 3)
       case Finishing(t, 0) => s.lease.Some? && s.running == {t} && !s.idle
       case Finishing(t, stage) => s.lease.Some? && s.running == {t} && !s.streaming && (s.idle <==> stage > 1)
  }

  predicate Owns(s: Control)
  {
    if s.lease.None? then s.running == {} else exists t :: t in s.running && s.running == {t}
  }

  lemma StepKeepsInv(s: Control, step: Step)
    requires Inv(s) && Enabled(s, step)
    ensures Inv(Apply(s, step))
  {
    var n := Apply(s, step);
    match step
    case BeginStep =>
      if s.lock.stage > 2 {
        assert n.running == {s.lock.thread} && s.lock.thread in n.running;
      }
    case FinishStep =>
      if s.lock.stage > 1 {
        assert n.running == {};
      }
    case Finish(t) =>
      assert s.running == {t};
    case _ =>
  }

  lemma {:induction false} RunKeepsInv(states: seq<Control>, steps: seq<Step>, k: nat)
    requires IsRun(states, steps) && k <= |steps|
    ensures Inv(states[k])
  {
    if k > 0 {
      RunKeepsInv(states, steps, k - 1);
      StepKeepsInv(states[k - 1], steps[k - 1]);
    }
  }

  /** At most one thread runs the agent, whatever resets, aborts and stale releases
      come between. */
  lemma RunsAreExclusive(states: seq<Control>, steps: seq<Step>, k: nat, t: Thread, u: Thread)
    requires IsRun(states, steps) && k <= |steps|
    requires t in states[k].running && u in states[k].running
    ensures t == u && states[k].lease.Some?
  {
    RunKeepsInv(states, steps, k);
  }

  /** Releasing a token of an earlier run changes nothing. */
  lemma StaleReleaseChangesNothing(states: seq<Control>, steps: seq<Step>, k: nat)
    requires IsRun(states, steps) && k < |steps| && steps[k].StaleRelease?
    ensures states[k + 1] == states[k]
  {
    RunKeepsInv(states, steps, k);
  }

  /** A begin that finds a run active gives up without a trace. */
  lemma RejectedBeginChangesNothing(states: seq<Control>, steps: seq<Step>, k: nat)
    requires IsRun(states, steps) && k + 1 < |steps|
    requires steps[k].Begin? && steps[k + 1].BeginStep? && states[k].lease.Some?
    ensures states[k + 2] == states[k]
  {
    assert states[k].lock.Free?;
    assert states[k + 1] == states[k].(lock := Beginning(steps[k].thread, 0));
    assert states[k + 2] == states[k + 1].(lock := Free);
  }

  // ---------------------------------------------------------- the reset race

  /** Lease active, streaming flag set and idle event clear, all or none. */
  predicate Coherent(s: Control)
  {
    s.lease.Some? == s.streaming == !s.idle
  }

  /** No reset writes while a run is active, though it may have looked before. */
  predicate NoLateReset(states: seq<Control>, steps: seq<Step>)
    requires |states| == |steps| + 1
  {
    forall k :: 0 <= k < |steps| && steps[k].ResetWrite? ==> states[k].lease.None?
  }

  predicate Steady(s: Control)
  {
    match s.lock
    case Free => Coherent(s)
    case Beginning(_, 0) => Coherent(s)
    case Finishing(_, 0) => s.streaming
    case _ => true
  }

  lemma {:induction false} SteadyThroughout(states: seq<Control>, steps: seq<Step>, k: nat)
    requires IsRun(states, steps) && NoLateReset(states, steps) && k <= |steps|
    ensures Steady(states[k])
  {
    if k > 0 {
      SteadyThroughout(states, steps, k - 1);
      RunKeepsInv(states, steps, k - 1);
      var s, step := states[k - 1], steps[k - 1];
      assert states[k] == Apply(s, step);
    }
  }

  /** While no reset writes into an active run, the lease, the streaming flag and
      the idle event agree whenever the run-state lock is free. */
  lemma FlagsAgree(states: seq<Control>, steps: seq<Step>, k: nat)
    requires IsRun(states, steps) && NoLateReset(states, steps) && k <= |steps|
    requires states[k].lock.Free?
    ensures Coherent(states[k])
  {
    SteadyThroughout(states, steps, k);
  }

  /** A reset's write keeps the flags in agreement exactly when no run is active. */
  lemma ResetWriteKeepsAgreementIff(s: Control, t: Thread)
    requires Inv(s) && s.lock.Free? && Coherent(s) && Enabled(s, ResetWrite(t))
    ensures Coherent(Apply(s, ResetWrite(t))) <==> s.lease.None?
  {
  }

  /** A run that no finish has begun to take down. */
  predicate Live(s: Control)
  {
    s.running != {} && !(s.lock.Finishing? && s.lock.stage > 0)
  }

  /** Step `e` sets the streaming flag of a run, and no other does until `k`. */
  predicate StreamingSetAt(states: seq<Control>, steps: seq<Step>, e: nat, k: nat)
    requires |states| == |steps| + 1 && k <= |steps|
  {
    && e < k && SetsStreaming(states[e], steps[e])
    && forall j :: e < j < k ==> !SetsStreaming(states[j], steps[j])
  }

  predicate SetsStreaming(s: Control, step: Step)
  {
    step.BeginStep? && s.lock.Beginning? && s.lock.stage > 2
  }

  /** A live run's streaming flag, and with it the agreement of lease, flag and idle
      event, holds exactly as long as no reset writes after the run set it. */
  lemma {:induction false} FlagsAgreeIff(states: seq<Control>, steps: seq<Step>, e: nat, k: nat)
    requires IsRun(states, steps) && k <= |steps| && StreamingSetAt(states, steps, e, k) && Live(states[k])
    ensures Coherent(states[k]) <==> forall j :: e < j < k ==> !steps[j].ResetWrite?
  {
    RunKeepsInv(states, steps, k - 1);
    RunKeepsInv(states, steps, k);
    assert states[k] == Apply(states[k - 1], steps[k - 1]);
    if k > e + 1 {
      FlagsAgreeIff(states, steps, e, k - 1);
    }
  }

  /** A reset that looks just before a run begins and writes just after leaves the
      run active but not streaming. */
  lemma ResetCanRaceABegin() returns (states: seq<Control>, steps: seq<Step>)
    ensures IsRun(states, steps)
    ensures var end := states[|steps|]; end.lock.Free? && end.running == {1} && end.lease.Some? && !end.streaming
  {
    states, steps := [INITIAL], [];
    states, steps := Extend(states, steps, ResetLook(2));
    states, steps := Extend(states, steps, Begin(1));
    states, steps := Extend(states, steps, BeginStep);
    states, steps := Extend(states, steps, BeginStep);
    states, steps := Extend(states, steps, BeginStep);
    states, steps := Extend(states, steps, BeginStep);
    states, steps := Extend(states, steps, ResetWrite(2));
  }

  // ---------------------------------------------------------- the signal race

  /** The agent's signal is the one its run was started with. */
  predicate OwnSignal(s: Control)
  {
    s.signal == s.runSignal
  }

  /** A swap outside the lock takes the run's signal away exactly when a run is active. */
  lemma SwapKeepsSignalIff(s: Control, t: Thread)
    requires Inv(s) && s.lock.Free? && Enabled(s, RenewSwap(t)) && (s.lease.Some? ==> OwnSignal(s))
    ensures var n := Apply(s, RenewSwap(t)); (n.lease.Some? ==> OwnSignal(n)) <==> s.lease.None?
  {
  }

  /** Step `b` gives a run its signal, and no other does until `k`. */
  predicate SignalGivenAt(states: seq<Control>, steps: seq<Step>, b: nat, k: nat)
    requires |states| == |steps| + 1 && k <= |steps|
  {
    && b < k && GivesSignal(states[b], steps[b])
    && forall j :: b < j < k ==> !GivesSignal(states[j], steps[j])
  }

  predicate GivesSignal(s: Control, step: Step)
  {
    step.BeginStep? && s.lock.Beginning? && s.lock.stage == 1
  }

  predicate NoSwapBetween(steps: seq<Step>, b: nat, k: nat)
    requires k <= |steps|
  {
    forall j :: b < j < k ==> !steps[j].RenewSwap?
  }

  /** The agent's signal is its run's own exactly as long as no thread swaps it after
      the run was given its signal; once taken away it never comes back. */
  lemma {:induction false} SignalIsOwnIff(states: seq<Control>, steps: seq<Step>, b: nat, k: nat)
    requires IsRun(states, steps) && k <= |steps| && SignalGivenAt(states, steps, b, k)
    ensures OwnSignal(states[k]) <==> NoSwapBetween(steps, b, k)
    ensures states[k].runSignal == states[b + 1].runSignal
  {
    RunKeepsInv(states, steps, k - 1);
    assert states[k] == Apply(states[k - 1], steps[k - 1]);
    if k > b + 1 {
      SignalIsOwnIff(states, steps, b, k - 1);
    }
  }

  /** An abort during a run reaches that run exactly when no thread swapped the
      signal since the run was given it, or the run had been aborted before. */
  lemma AbortReachesTheRunIff(states: seq<Control>, steps: seq<Step>, b: nat, k: nat)
    requires IsRun(states, steps) && k < |steps| && SignalGivenAt(states, steps, b, k)
    requires states[k].running != {} && steps[k].Abort?
    ensures states[k + 1].runSignal in states[k + 1].aborted
       <==> NoSwapBetween(steps, b, k) || states[k].runSignal in states[k].aborted
  {
    SignalIsOwnIff(states, steps, b, k);
  }

  /** A run that is under way was given its signal at some step. */
  lemma {:induction false} RunHasSignal(states: seq<Control>, steps: seq<Step>, k: nat) returns (b: nat)
    requires IsRun(states, steps) && k <= |steps| && (states[k].running != {} || Given(states[k]))
    ensures SignalGivenAt(states, steps, b, k)
  {
    RunKeepsInv(states, steps, k - 1);
    var s, step := states[k - 1], steps[k - 1];
    assert states[k] == Apply(s, step);
    if GivesSignal(s, step) {
      b := k - 1;
    } else {
      b := RunHasSignal(states, steps, k - 1);
    }
  }

  /** A begin that is past giving its signal. */
  predicate Given(s: Control)
  {
    s.lock.Beginning? && s.lock.stage > 1
  }

  /** Every run starts with a signal that was never aborted. */
  lemma RunsStartUnaborted(states: seq<Control>, steps: seq<Step>, k: nat)
    requires IsRun(states, steps) && k < |steps|
    requires steps[k].BeginStep? && states[k].lock.stage == 1
    ensures states[k + 1].runSignal == states[k + 1].signal && states[k + 1].signal !in states[k + 1].aborted
    ensures forall j :: 0 <= j <= k ==> states[j].signal != states[k + 1].signal
  {
    RunKeepsInv(states, steps, k);
    forall j | 0 <= j <= k ensures states[j].signal != states[k + 1].signal {
      RunKeepsInv(states, steps, j);
      IssuedGrows(states, steps, j, k);
    }
  }

  lemma {:induction false} IssuedGrows(states: seq<Control>, steps: seq<Step>, j: nat, k: nat)
    requires IsRun(states, steps) && j <= k <= |steps|
    ensures states[j].issued <= states[k].issued
  {
    if j < k {
      IssuedGrows(states, steps, j, k - 1);
      assert states[k] == Apply(states[k - 1], steps[k - 1]);
    }
  }

  /** A renewal that looks before a run begins, and finds the old signal aborted, can
      swap the run's signal away; an abort then misses the run, which goes on. */
  lemma RenewalCanHideAnAbort() returns (states: seq<Control>, steps: seq<Step>)
    ensures IsRun(states, steps) && |steps| > 0 && steps[|steps| - 1].Abort?
    ensures var end := states[|steps|];
            end.lock.Free? && end.running == {1} && end.signal in end.aborted && end.runSignal !in end.aborted
  {
    states, steps := [INITIAL], [];
    states, steps := Extend(states, steps, Abort);
    states, steps := Extend(states, steps, RenewLook(2));
    states, steps := Extend(states, steps, RenewCheck(2));
    states, steps := Extend(states, steps, Begin(1));
    states, steps := Extend(states, steps, BeginStep);
    states, steps := Extend(states, steps, BeginStep);
    states, steps := Extend(states, steps, BeginStep);
    states, steps := Extend(states, steps, BeginStep);
    states, steps := Extend(states, steps, RenewSwap(2));
    states, steps := Extend(states, steps, Abort);
  }

  lemma Extend(states: seq<Control>, steps: seq<Step>, step: Step) returns (states': seq<Control>, steps': seq<Step>)
    requires IsRun(states, steps) && Enabled(states[|steps|], step)
    ensures steps' == steps + [step] && states' == states + [Apply(states[|steps|], step)]
    ensures IsRun(states', steps')
  {
    steps' := steps + [step];
    states' := states + [Apply(states[|steps|], step)];
  }
}
