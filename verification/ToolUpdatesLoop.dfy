/**
 The relay on an event loop that runs what is ready first in, first out, as asyncio
 does.  A task runs until it suspends, so a turn is one move of the running task, the
 dispatch of the next one, or something that happens between two tasks.  Only the
 relay's own tasks are listed as ready; others may stand anywhere among them, so what
 these do to the relay may come before any dispatch.
 */
module ToolUpdatesLoop {
  import opened Options
  import opened ToolUpdates
  import opened ToolUpdatesEdges

  datatype Task = ConsumerTask | CloserTask | ProducerTask

  datatype Loop = Loop(
    relay: Relay,
    ready: seq<Task>,          // what has been woken, in the order in which it was
    running: Option<Task>)

  datatype Turn =
    | Dispatch                 // the task that has been ready longest runs
    | Arrives(step: Step)      // another task offers or publishes an update
    | Begins                   // ... or begins to close the relay
    | SinkReturns(task: Task)  // what a suspended emission waits for has happened
    | GoesOn(step: Step)       // the running task takes a step of the relay
    | Suspends                 // the running task has to wait

  /** A new relay: its consumer task has been created and not yet run. */
  function Created(maxPending: int): Loop
  {
    Loop(Initial(maxPending), [ConsumerTask], None)
  }

  function Producers(ts: seq<Task>): nat
  {
    if ts == [] then 0 else (if ts[0].ProducerTask? then 1 else 0) + Producers(ts[1..])
  }

  /** Producers that run before task `t` does. */
  function Ahead(ts: seq<Task>, t: Task): nat
  {
    if ts == [] || ts[0] == t then 0 else (if ts[0].ProducerTask? then 1 else 0) + Ahead(ts[1..], t)
  }

  /** Waiting producers that have been woken and have not gone on since.  Which of the
      waiting producers they are is left open. */
  function Woken(l: Loop): nat
  {
    Producers(l.ready) + if l.running == Some(ProducerTask) then 1 else 0
  }

  /** Whether the consumer waits for an item. */
  predicate Idle(l: Loop)
  {
    l.relay.consumer.Getting? && ConsumerTask !in l.ready && l.running != Some(ConsumerTask)
  }

  predicate Owns(t: Task, step: Step)
  {
    match step
    case Get => t.ConsumerTask?
    case Emitted(_) => t.ConsumerTask?
    case PutterWakes(_) => t.ProducerTask?
    case Offer(_) => false
    case Publish(_) => false
    case Close => false
    case _ => t.CloserTask?
  }

  /** Where a task suspends: an emission may or may not, a wait that is over does not. */
  predicate MaySuspend(r: Relay, t: Task)
  {
    match t
    case ConsumerTask => r.consumer.Emitting? || (r.consumer.Getting? && r.queue == [])
    case ProducerTask => |r.queue| >= r.capacity
    case CloserTask =>
      || r.closer.EmittingLatest?
      || (r.closer.Joining? && r.unfinished > 0)
      || (r.closer.Awaiting? && !r.consumer.Stopped?)
  }

  predicate CanTake(l: Loop, turn: Turn)
  {
    match turn
    case Dispatch => l.running.None? && l.ready != []
    case Arrives(step) => l.running.None? && (step.Offer? || step.Publish?)
    case Begins => l.running.None? && Enabled(l.relay, Close)
    case SinkReturns(t) =>
      && l.running.None? && t !in l.ready
      && ((t.ConsumerTask? && l.relay.consumer.Emitting?) || (t.CloserTask? && l.relay.closer.EmittingLatest?))
    case GoesOn(step) => l.running.Some? && Owns(l.running.value, step) && Enabled(l.relay, step)
    case Suspends => l.running.Some? && MaySuspend(l.relay, l.running.value)
  }

  /** Whether the step marks the last unfinished item as done for a closer that waits. */
  predicate EndsJoin(step: Step, r: Relay)
  {
    (step.Get? || step.Emitted?) && r.closer.Joining? && r.unfinished == 0
  }

  function With(ts: seq<Task>, woken: bool, t: Task): seq<Task>
  {
    if woken then ts + [t] else ts
  }

  /** What is ready after a step that leads to `r`: taking an item wakes a producer,
      putting one the consumer, and the last item done, or the end of the consumer,
      the closer. */
  function ReadyAfter(l: Loop, step: Step, r: Relay): seq<Task>
  {
    var producer := step.Get? && Woken(l) < |l.relay.putters|;
    var consumer := |r.queue| > |l.relay.queue| && Idle(l);
    var closer := EndsJoin(step, r) || (step.Get? && r.consumer.Stopped? && r.closer.Awaiting?);
    With(With(With(l.ready, producer, ProducerTask), consumer, ConsumerTask), closer, CloserTask)
  }

  /** Whether the running task is over, or suspended again, with the step. */
  predicate Leaves(step: Step, r: Relay)
  {
    || step.PutterWakes? || step.ConsumerJoined?
    || (step.Get? && r.consumer.Stopped?) || (step.PutSentinel? && r.closer.QueueFull?)
  }

  function Stepped(l: Loop, step: Step): Loop
    requires Enabled(l.relay, step)
  {
    var r := Apply(l.relay, step);
    Loop(if EndsJoin(step, r) then Apply(r, JoinWakes) else r,
         ReadyAfter(l, step, r),
         if Leaves(step, r) then None else l.running)
  }

  function After(l: Loop, turn: Turn): Loop
    requires CanTake(l, turn)
  {
    match turn
    case Dispatch => l.(ready := l.ready[1..], running := Some(l.ready[0]))
    case Arrives(step) => Stepped(l, step)
    case Begins => l.(relay := Apply(l.relay, Close), running := Some(CloserTask))
    case SinkReturns(t) => l.(ready := l.ready + [t])
    case GoesOn(step) => Stepped(l, step)
    case Suspends => l.(running := None)
  }

  /** Turns lead from one loop to another. */
  ghost predicate Runs(l: Loop, turns: seq<Turn>, m: Loop)
    decreases |turns|
  {
    if turns == [] then l == m
    else CanTake(l, turns[0]) && Runs(After(l, turns[0]), turns[1..], m)
  }

  lemma {:induction false} RunsOn(l: Loop, a: seq<Turn>, m: Loop, b: seq<Turn>, n: Loop)
    requires Runs(l, a, m) && Runs(m, b, n)
    ensures Runs(l, a + b, n)
    decreases |a|
  {
    if a == [] {
      assert a + b == b;
    } else {
      var c := a + b;
      assert c[0] == a[0] && c[1..] == a[1..] + b;
      RunsOn(After(l, a[0]), a[1..], m, b, n);
    }
  }

  /** One turn more. */
  lemma Next(l: Loop, turns: seq<Turn>, m: Loop, turn: Turn) returns (longer: seq<Turn>, n: Loop)
    requires Runs(l, turns, m) && CanTake(m, turn)
    ensures n == After(m, turn) && Runs(l, longer, n)
  {
    n := After(m, turn);
    assert [turn][1..] == [];
    RunsOn(l, turns, m, [turn], n);
    longer := turns + [turn];
  }

  // ------------------------------------------- the loop is one schedule of the relay

  /** Every turn is a few steps of the relay, so that what holds of all schedules of
      the relay holds on the loop. */
  lemma TurnIsSteps(l: Loop, turn: Turn) returns (steps: seq<Step>)
    requires CanTake(l, turn)
    ensures Leads(l.relay, steps, After(l, turn).relay)
  {
    match turn
    case Begins =>
      var r;
      steps, r := Then(l.relay, [], l.relay, Close);
    case Arrives(step) =>
      var r;
      steps, r := Then(l.relay, [], l.relay, step);
    case GoesOn(step) =>
      var r;
      steps, r := Then(l.relay, [], l.relay, step);
      if EndsJoin(step, r) {
        steps, r := Then(l.relay, steps, r, JoinWakes);
      }
    case _ => steps := [];
  }

  lemma {:induction false} RunsAreSteps(l: Loop, turns: seq<Turn>, m: Loop) returns (steps: seq<Step>)
    requires Runs(l, turns, m)
    ensures Leads(l.relay, steps, m.relay)
    decreases |turns|
  {
    steps := [];
    if turns != [] {
      var next := After(l, turns[0]);
      var first := TurnIsSteps(l, turns[0]);
      var rest := RunsAreSteps(next, turns[1..], m);
      LeadsOn(l.relay, first, next.relay, rest, m.relay);
      steps := first + rest;
    }
  }

  // ------------------------------------------------------------------ invariant

  predicate Once(ts: seq<Task>, t: Task)
  {
    ts == [] || (if ts[0] == t then t !in ts[1..] else Once(ts[1..], t))
  }

  /** Whether the closer runs before the consumer does. */
  predicate CloserFirst(ts: seq<Task>)
  {
    ts == [] || ts[0].CloserTask? || (ts[0].ProducerTask? && CloserFirst(ts[1..]))
  }

  lemma {:induction false} Appended(ts: seq<Task>, x: Task)
    ensures Producers(ts + [x]) == Producers(ts) + if x.ProducerTask? then 1 else 0
    ensures forall t ::
              Ahead(ts + [x], t) == Ahead(ts, t) + if t !in ts && x.ProducerTask? && t != x then 1 else 0
    ensures forall t :: Once(ts + [x], t) <==> Once(ts, t) && (t == x ==> t !in ts)
    ensures CloserTask in ts ==> (CloserFirst(ts + [x]) <==> CloserFirst(ts))
    ensures CloserTask !in ts ==> (CloserFirst(ts + [x]) <==> ConsumerTask !in ts && !x.ConsumerTask?)
  {
    var more := ts + [x];
    if ts == [] {
      assert more == [x] && more[1..] == [];
    } else {
      assert more[0] == ts[0] && more[1..] == ts[1..] + [x];
      Appended(ts[1..], x);
    }
  }

  lemma {:induction false} AheadAtMost(ts: seq<Task>, t: Task)
    ensures Ahead(ts, t) <= Producers(ts)
    ensures t !in ts && !t.ProducerTask? ==> Ahead(ts, t) == Producers(ts)
  {
    if ts != [] {
      AheadAtMost(ts[1..], t);
    }
  }

  lemma {:induction false} NoProducers(ts: seq<Task>)
    requires Producers(ts) == 0 && CloserTask !in ts && Once(ts, ConsumerTask)
    ensures ts == if ConsumerTask in ts then [ConsumerTask] else []
  {
    if ts != [] {
      NoProducers(ts[1..]);
    }
  }

  lemma {:induction false} AbsentIsOnce(ts: seq<Task>, t: Task)
    requires t !in ts
    ensures Once(ts, t)
  {
    if ts != [] {
      AbsentIsOnce(ts[1..], t);
    }
  }

  /** Where the consumer is: it is ready or running at most once, not when it has
      stopped, and always when there is something to take. */
  predicate ConsumerPlaced(l: Loop)
  {
    && Once(l.ready, ConsumerTask) && (l.running == Some(ConsumerTask) ==> ConsumerTask !in l.ready)
    && (ConsumerTask in l.ready || l.running == Some(ConsumerTask) ==> !l.relay.consumer.Stopped?)
    && (l.relay.queue != [] ==> !Idle(l))
    && (ConsumerTask in l.ready && l.relay.consumer.Getting? && l.relay.queue == [] ==> l.relay.putters == [])
  }

  predicate CloserPlaced(l: Loop)
  {
    && Once(l.ready, CloserTask) && (l.running == Some(CloserTask) ==> CloserTask !in l.ready)
    && match l.relay.closer
       case NotClosing => CloserTask !in l.ready && l.running != Some(CloserTask)
       case Joining => CloserTask !in l.ready && (l.running != Some(CloserTask) ==> l.relay.unfinished > 0)
       case Joined => CloserTask in l.ready || l.running == Some(CloserTask)
       case EmittingLatest(_) => true
       case Enqueuing => l.running == Some(CloserTask)
       case Awaiting => CloserTask in l.ready ==> l.relay.consumer.Stopped?
       case _ => CloserTask !in l.ready && l.running != Some(CloserTask)
  }

  /** A producer waits without having been woken only while the queue is full, or will
      be when those have run that were woken. */
  predicate ProducersPlaced(l: Loop)
  {
    && Woken(l) <= |l.relay.putters|
    && (Woken(l) < |l.relay.putters| ==> |l.relay.queue| + Woken(l) >= l.relay.capacity)
  }

  predicate Inv(l: Loop)
  {
    Counts(l.relay) && Delivery(l.relay) && ConsumerPlaced(l) && CloserPlaced(l) && ProducersPlaced(l)
  }

  /** What one task more does to all that is said of a list of ready tasks. */
  lemma Woke(ts: seq<Task>, woken: bool, x: Task)
    ensures var us := With(ts, woken, x);
            && (forall t :: t in us <==> t in ts || (woken && t == x))
            && Producers(us) == Producers(ts) + (if woken && x.ProducerTask? then 1 else 0)
            && (forall t :: t in ts ==> Ahead(us, t) == Ahead(ts, t))
            && (forall t :: Once(us, t) <==> Once(ts, t) && (woken && t == x ==> t !in ts))
            && (CloserTask in ts ==> (CloserFirst(us) <==> CloserFirst(ts)))
  {
    Appended(ts, x);
  }

  // ---------------------------------------------------- every turn keeps the invariant

  lemma DispatchKeepsInv(l: Loop)
    requires Inv(l) && CanTake(l, Dispatch)
    ensures Inv(After(l, Dispatch))
  {
    if !l.ready[0].ProducerTask? {
      AbsentIsOnce(l.ready[1..], l.ready[0]);
    }
  }

  lemma SinkReturnsKeepsInv(l: Loop, t: Task)
    requires Inv(l) && CanTake(l, SinkReturns(t))
    ensures Inv(After(l, SinkReturns(t)))
  {
    Woke(l.ready, true, t);
  }

  lemma SuspendsKeepsInv(l: Loop)
    requires Inv(l) && CanTake(l, Suspends)
    ensures Inv(After(l, Suspends))
  {
  }

  lemma BeginsKeepsInv(l: Loop)
    requires Inv(l) && CanTake(l, Begins)
    ensures Inv(After(l, Begins))
  {
    StepKeepsCounts(l.relay, Close);
    StepKeepsDelivery(l.relay, Close);
  }

  lemma ReadyMeans(l: Loop, step: Step, r: Relay)
    ensures var ts, us := l.ready, ReadyAfter(l, step, r);
            var producer := step.Get? && Woken(l) < |l.relay.putters|;
            var consumer := |r.queue| > |l.relay.queue| && Idle(l);
            var closer := EndsJoin(step, r) || (step.Get? && r.consumer.Stopped? && r.closer.Awaiting?);
            && (CloserTask in us <==> CloserTask in ts || closer)
            && (ConsumerTask in us <==> ConsumerTask in ts || consumer)
            && Producers(us) == Producers(ts) + (if producer then 1 else 0)
            && (Once(us, CloserTask) <==> Once(ts, CloserTask) && (closer ==> CloserTask !in ts))
            && (Once(us, ConsumerTask) <==> Once(ts, ConsumerTask) && (consumer ==> ConsumerTask !in ts))
            && (CloserTask in ts ==> (CloserFirst(us) <==> CloserFirst(ts)))
            && (forall t :: t in ts ==> Ahead(us, t) == Ahead(ts, t))
  {
    var producer := step.Get? && Woken(l) < |l.relay.putters|;
    var consumer := |r.queue| > |l.relay.queue| && Idle(l);
    var closer := EndsJoin(step, r) || (step.Get? && r.consumer.Stopped? && r.closer.Awaiting?);
    Woke(l.ready, producer, ProducerTask);
    var us := With(l.ready, producer, ProducerTask);
    Woke(us, consumer, ConsumerTask);
    Woke(With(us, consumer, ConsumerTask), closer, CloserTask);
  }

  lemma SteppedKeepsRelay(l: Loop, step: Step)
    requires Counts(l.relay) && Delivery(l.relay) && Enabled(l.relay, step)
    ensures Counts(Stepped(l, step).relay) && Delivery(Stepped(l, step).relay)
  {
    var r := Apply(l.relay, step);
    StepKeepsCounts(l.relay, step);
    StepKeepsDelivery(l.relay, step);
    if EndsJoin(step, r) {
      StepKeepsCounts(r, JoinWakes);
      StepKeepsDelivery(r, JoinWakes);
    }
  }

  /** A step that the loop lets the running task, or another task in between, take. */
  predicate Due(l: Loop, step: Step)
  {
    CanTake(l, GoesOn(step)) || CanTake(l, Arrives(step))
  }

  lemma SteppedKeepsConsumerPlaced(l: Loop, step: Step)
    requires Counts(l.relay) && ConsumerPlaced(l) && Due(l, step) && Enabled(l.relay, step)
    ensures ConsumerPlaced(Stepped(l, step))
  {
    ReadyMeans(l, step, Apply(l.relay, step));
  }

  lemma SteppedKeepsCloserPlaced(l: Loop, step: Step)
    requires Counts(l.relay) && CloserPlaced(l) && Due(l, step) && Enabled(l.relay, step)
    ensures CloserPlaced(Stepped(l, step))
  {
    ReadyMeans(l, step, Apply(l.relay, step));
  }

  lemma SteppedKeepsProducersPlaced(l: Loop, step: Step)
    requires Counts(l.relay) && ProducersPlaced(l) && Due(l, step) && Enabled(l.relay, step)
    ensures ProducersPlaced(Stepped(l, step))
  {
    ReadyMeans(l, step, Apply(l.relay, step));
  }

  lemma TurnKeepsInv(l: Loop, turn: Turn)
    requires Inv(l) && CanTake(l, turn)
    ensures Inv(After(l, turn))
  {
    match turn
    case Dispatch => DispatchKeepsInv(l);
    case Begins => BeginsKeepsInv(l);
    case SinkReturns(t) => SinkReturnsKeepsInv(l, t);
    case Suspends => SuspendsKeepsInv(l);
    case Arrives(step) => SteppedKeepsInv(l, step);
    case GoesOn(step) => SteppedKeepsInv(l, step);
  }

  lemma SteppedKeepsInv(l: Loop, step: Step)
    requires Inv(l) && Due(l, step) && Enabled(l.relay, step)
    ensures Inv(Stepped(l, step))
  {
    SteppedKeepsRelay(l, step);
    SteppedKeepsConsumerPlaced(l, step);
    SteppedKeepsCloserPlaced(l, step);
    SteppedKeepsProducersPlaced(l, step);
  }

  lemma {:induction false} RunsKeepInv(l: Loop, turns: seq<Turn>, m: Loop)
    requires Inv(l) && Runs(l, turns, m)
    ensures Inv(m)
    decreases |turns|
  {
    if turns != [] {
      TurnKeepsInv(l, turns[0]);
      RunsKeepInv(After(l, turns[0]), turns[1..], m);
    }
  }

  lemma CreatedInv(maxPending: int)
    ensures Inv(Created(maxPending))
  {
    assert [ConsumerTask][1..] == [];
    assert Producers([ConsumerTask]) == 0;
  }

  // --------------------------------------------------- while the closer waits in join

  function Min(a: int, b: int): int
  {
    if a < b then a else b
  }

  /** Woken producers that go on before the consumer does. */
  function AheadOfConsumer(l: Loop): nat
  {
    match l.running
    case Some(ConsumerTask) => 0
    case Some(ProducerTask) => 1 + Ahead(l.ready, ConsumerTask)
    case _ => Ahead(l.ready, ConsumerTask)
  }

  /** How many producers still wait when the queue has been worked off, if the consumer
      does so in one go the next time it runs: all but those that find room before. */
  function Left(l: Loop): int
  {
    |l.relay.putters| - Min(AheadOfConsumer(l), l.relay.capacity - |l.relay.queue|)
  }

  /** What first in, first out gives the closer that was woken from its wait: when it
      runs, every producer has run that was woken before it, and the consumer has not. */
  predicate InOrder(l: Loop)
  {
    && l.relay.consumer.Getting?
    && if l.running == Some(CloserTask) then Producers(l.ready) == 0
       else
         && CloserFirst(l.ready) && Ahead(l.ready, CloserTask) == Producers(l.ready)
         && (l.running == Some(ConsumerTask) ==> l.relay.queue == [])
  }

  /** A close that found something unfinished, until its wait is over: at most `n`
      producers are left over for the time when the queue has been worked off. */
  predicate Waits(l: Loop, n: int)
  {
    match l.relay.closer
    case NotClosing => false
    case Joining => l.relay.unfinished > 0 && Left(l) <= n
    case Joined => |l.relay.queue| + |l.relay.putters| <= n && InOrder(l)
    case _ => true
  }

  lemma LastItemDone(l: Loop, step: Step)
    requires Inv(l) && CanTake(l, GoesOn(step)) && l.relay.closer.Joining? && EndsJoin(step, Apply(l.relay, step))
    ensures InOrder(Stepped(l, step)) && Stepped(l, step).relay.queue == []
    ensures |Stepped(l, step).relay.putters| == Left(l)
  {
    var producer := step.Get? && Woken(l) < |l.relay.putters|;
    var ts := With(l.ready, producer, ProducerTask);
    Woke(l.ready, producer, ProducerTask);
    Appended(ts, CloserTask);
    AheadAtMost(ts, CloserTask);
  }

  lemma JoiningKeepsWaits(l: Loop, turn: Turn, n: int)
    requires Inv(l) && CanTake(l, turn) && l.relay.closer.Joining? && Waits(l, n)
    ensures Waits(After(l, turn), n)
  {
    match turn
    case GoesOn(step) =>
      if EndsJoin(step, Apply(l.relay, step)) {
        LastItemDone(l, step);
      } else {
        ReadyMeans(l, step, Apply(l.relay, step));
      }
    case SinkReturns(t) => Appended(l.ready, t);
    case _ =>
  }

  lemma JoinedKeepsWaits(l: Loop, turn: Turn, n: int)
    requires Inv(l) && CanTake(l, turn) && l.relay.closer.Joined? && Waits(l, n)
    ensures Waits(After(l, turn), n)
  {
    match turn
    case GoesOn(step) => ReadyMeans(l, step, Apply(l.relay, step));
    case _ =>
  }

  lemma TurnKeepsWaits(l: Loop, turn: Turn, n: int)
    requires Inv(l) && CanTake(l, turn) && Waits(l, n)
    ensures Waits(After(l, turn), n)
  {
    if l.relay.closer.Joining? {
      JoiningKeepsWaits(l, turn, n);
    } else if l.relay.closer.Joined? {
      JoinedKeepsWaits(l, turn, n);
    }
  }

  /** When the closer goes on, the queue is full or nobody waits. */
  lemma ClosersTurn(l: Loop, n: int)
    requires Inv(l) && Waits(l, n) && l.relay.closer.Joined? && l.running == Some(CloserTask)
    ensures l.relay.putters == [] || |l.relay.queue| == l.relay.capacity
  {
  }

  // ----------------------------------------------------------- what cannot go wrong

  /** Nothing comes in any more, and the sentinel is the last item. */
  predicate LastCall(r: Relay)
  {
    && r.putters == []
    && (forall i :: 0 <= i < |r.queue| - 1 ==> r.queue[i].Item?)
    && (r.consumer.Stopped? ==> r.queue == [])
  }

  /** What a close keeps to that leaves nobody behind. */
  predicate ServesAll(r: Relay, n: int)
  {
    match r.closer
    case EmittingLatest(_) => r.putters == []
    case Enqueuing => r.putters == [] || |r.queue| >= r.capacity
    case Awaiting => LastCall(r)
    case Closed(error) => LastCall(r) && r.consumer.Stopped? && error == r.error
    case QueueFull => true
    case _ => n <= r.capacity || r.overflow.None?
  }

  lemma TurnServesAll(l: Loop, turn: Turn, n: int)
    requires Inv(l) && CanTake(l, turn) && Waits(l, n) && ServesAll(l.relay, n)
    ensures ServesAll(After(l, turn).relay, n)
  {
    if turn.GoesOn? && turn.step.JoinResumes? {
      ClosersTurn(l, n);
    }
  }

  lemma {:induction false} RunsServeAll(l: Loop, turns: seq<Turn>, m: Loop, n: int)
    requires Inv(l) && Waits(l, n) && ServesAll(l.relay, n) && Runs(l, turns, m)
    ensures ServesAll(m.relay, n)
    decreases |turns|
  {
    if turns != [] {
      TurnServesAll(l, turns[0], n);
      TurnKeepsWaits(l, turns[0], n);
      TurnKeepsInv(l, turns[0]);
      RunsServeAll(After(l, turns[0]), turns[1..], m, n);
    }
  }

  /** What a close keeps to that finds room for its sentinel. */
  predicate Fits(r: Relay, n: int)
  {
    match r.closer
    case EmittingLatest(_) => |r.queue| + |r.putters| <= n
    case Enqueuing => |r.queue| + |r.putters| <= n
    case QueueFull => false
    case _ => n < r.capacity
  }

  lemma {:induction false} RunsFit(l: Loop, turns: seq<Turn>, m: Loop, n: int)
    requires Inv(l) && Waits(l, n) && n < l.relay.capacity && Fits(l.relay, n) && Runs(l, turns, m)
    ensures Fits(m.relay, n)
    decreases |turns|
  {
    if turns != [] {
      TurnFits(l, turns[0], n);
      TurnKeepsWaits(l, turns[0], n);
      TurnKeepsInv(l, turns[0]);
      RunsFit(After(l, turns[0]), turns[1..], m, n);
    }
  }

  lemma TurnFits(l: Loop, turn: Turn, n: int)
    requires Inv(l) && CanTake(l, turn) && Waits(l, n) && n < l.relay.capacity && Fits(l.relay, n)
    ensures Fits(After(l, turn).relay, n) && After(l, turn).relay.capacity == l.relay.capacity
  {
  }

  /** A close that finds nothing unfinished and has nothing to emit goes through to its
      sentinel without suspending. */
  predicate GoesThrough(l: Loop)
  {
    match l.relay.closer
    case NotClosing => false
    case EmittingLatest(_) => false
    case QueueFull => false
    case Awaiting => true
    case Closed(_) => true
    case _ => l.running == Some(CloserTask) && l.relay.queue == [] && l.relay.unfinished == 0
              && (l.relay.overflow.None? || l.relay.error.Some?)
  }

  lemma {:induction false} RunsGoThrough(l: Loop, turns: seq<Turn>, m: Loop)
    requires Counts(l.relay) && GoesThrough(l) && Runs(l, turns, m)
    ensures GoesThrough(m)
    decreases |turns|
  {
    if turns != [] {
      TurnGoesThrough(l, turns[0]);
      RunsGoThrough(After(l, turns[0]), turns[1..], m);
    }
  }

  lemma TurnGoesThrough(l: Loop, turn: Turn)
    requires Counts(l.relay) && CanTake(l, turn) && GoesThrough(l)
    ensures Counts(After(l, turn).relay) && GoesThrough(After(l, turn))
  {
    match turn
    case GoesOn(step) => StepKeepsCounts(l.relay, step);
    case Arrives(step) => StepKeepsCounts(l.relay, step);
    case _ =>
  }
}
