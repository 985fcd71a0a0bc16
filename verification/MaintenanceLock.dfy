/**
 The store's maintenance lock: a mutex that one thread may take again, and a file
 lock that is taken at the first entry and dropped at the last exit.  Processes
 share only the file lock; the threads of a process share its mutex.
 */
module MaintenanceLock {
  import opened Options

  type Process = nat
  type Thread = nat

  /** The lock state of one process. */
  datatype Local = Local(
    owner: Option<Thread>,         // the thread that holds the mutex
    holds: nat,                    // how often it holds it
    depth: nat,
    descriptor: bool,              // whether the descriptor field is set
    pc: Pc)

  /** Where the owner of the mutex stands. */
  datatype Pc = Outside | Opening | Counting | Unlocking | Releasing

  datatype State = State(locals: map<Process, Local>, file: Option<Process>)

  datatype Step =
    | Acquire(p: Process, t: Thread)      // enter: takes the mutex
    | Lock(p: Process)                    // enter, at depth 0: locks the file and keeps the descriptor
    | OpenFails(p: Process)               // enter, at depth 0: the lock file cannot be opened
    | Count(p: Process)                   // enter: counts the entry
    | Leave(p: Process, t: Thread)        // exit: counts the entry off
    | Unlock(p: Process)                  // exit, at depth 0: drops the descriptor and the file lock
    | Release(p: Process)                 // exit: gives the mutex back

  const IDLE := Local(None, 0, 0, false, Outside)

  predicate Enabled(s: State, step: Step)
  {
    step.p in s.locals &&
    var l := s.locals[step.p];
    match step
    case Acquire(_, t) => l.owner.None? || (l.owner == Some(t) && l.pc.Outside?)
    case Lock(p) => l.pc.Opening? && s.file.None?
    case OpenFails(_) => l.pc.Opening?
    case Count(_) => l.pc.Counting?
    case Leave(_, t) => l.owner == Some(t) && l.pc.Outside?
    case Unlock(_) => l.pc.Unlocking?
    case Release(_) => l.pc.Releasing?
  }

  function GiveBack(l: Local): Local
  {
    if l.holds <= 1 then l.(owner := None, holds := 0, pc := Outside) else l.(holds := l.holds - 1, pc := Outside)
  }

  function ApplyLocal(l: Local, step: Step): Local
  {
    match step
    case Acquire(_, t) => l.(owner := Some(t), holds := l.holds + 1, pc := if l.depth == 0 then Opening else Counting)
    case Lock(_) => l.(descriptor := true, pc := Counting)
    case OpenFails(_) => GiveBack(l)
    case Count(_) => l.(depth := l.depth + 1, pc := Outside)
    case Leave(_, _) =>
      var depth := if l.depth > 0 then l.depth - 1 else 0;
      l.(depth := depth, pc := if depth == 0 then Unlocking else Releasing)
    case Unlock(_) => l.(descriptor := false, pc := Releasing)
    case Release(_) => GiveBack(l)
  }

  function Apply(s: State, step: Step): State
    requires Enabled(s, step)
  {
    State(s.locals[step.p := ApplyLocal(s.locals[step.p], step)],
          if step.Lock? then Some(step.p)
          else if step.Unlock? && s.locals[step.p].descriptor then None
          else s.file)
  }

  ghost predicate IsRun(states: seq<State>, steps: seq<Step>)
  {
    && |states| == |steps| + 1
    && states[0].file.None? && (forall p :: p in states[0].locals ==> states[0].locals[p] == IDLE)
    && forall k :: 0 <= k < |steps| ==> Enabled(states[k], steps[k]) && states[k + 1] == Apply(states[k], steps[k])
  }

  predicate LocalInv(l: Local)
  {
    && (l.owner.Some? <==> l.holds > 0)
    && (l.owner.None? ==> l.pc.Outside?)
    && match l.pc
       case Outside => l.depth == l.holds && (l.descriptor <==> l.depth > 0)
       case Opening => l.depth == 0 && l.holds == 1 && !l.descriptor
       case Counting => l.depth + 1 == l.holds && l.descriptor
       case Unlocking => l.depth == 0 && l.holds == 1 && l.descriptor
       case Releasing => l.depth + 1 == l.holds && (l.descriptor <==> l.depth > 0)
  }

  /** The descriptor is the file lock, and one process has it at most. */
  predicate Inv(s: State)
  {
    && (forall p :: p in s.locals ==> LocalInv(s.locals[p]) && (s.locals[p].descriptor <==> s.file == Some(p)))
    && (s.file.Some? ==> s.file.value in s.locals)
  }

  lemma StepKeepsInv(s: State, step: Step)
    requires Inv(s) && Enabled(s, step)
    ensures Inv(Apply(s, step))
  {
    var n := Apply(s, step);
    forall p | p in n.locals ensures LocalInv(n.locals[p]) && (n.locals[p].descriptor <==> n.file == Some(p)) {
      assert LocalInv(s.locals[p]) && LocalInv(s.locals[step.p]);
    }
  }

  lemma {:induction false} RunKeepsInv(states: seq<State>, steps: seq<Step>, k: nat)
    requires IsRun(states, steps) && k <= |steps|
    ensures Inv(states[k])
  {
    if k > 0 {
      RunKeepsInv(states, steps, k - 1);
      StepKeepsInv(states[k - 1], steps[k - 1]);
    }
  }

  /** Whether a thread is inside the lock. */
  predicate Inside(s: State, p: Process, t: Thread)
  {
    p in s.locals && s.locals[p].owner == Some(t) && s.locals[p].depth > 0
  }

  /** For any nesting and any interleaving, one thread of one process is inside at
      most, and it keeps the file locked from its first entry to its last exit. */
  lemma OneThreadInside(states: seq<State>, steps: seq<Step>, k: nat, p: Process, t: Thread, q: Process, u: Thread)
    requires IsRun(states, steps) && k <= |steps|
    requires Inside(states[k], p, t) && Inside(states[k], q, u)
    ensures p == q && t == u && states[k].file == Some(p)
  {
    RunKeepsInv(states, steps, k);
  }

  /** Between entries and exits, a process holds the descriptor exactly while its
      depth is positive. */
  lemma DescriptorMeansDepth(states: seq<State>, steps: seq<Step>, k: nat, p: Process)
    requires IsRun(states, steps) && k <= |steps| && p in states[k].locals && states[k].locals[p].pc.Outside?
    ensures states[k].locals[p].descriptor <==> states[k].locals[p].depth > 0
    ensures states[k].locals[p].descriptor <==> states[k].file == Some(p)
    ensures states[k].locals[p].depth == states[k].locals[p].holds
  {
    RunKeepsInv(states, steps, k);
  }
}
