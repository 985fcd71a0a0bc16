/**
 The relay that delivers a tool's progress updates: a bounded queue, one consumer
 task, a single overflow slot, and a closing protocol.  A step runs from one
 suspension point of the event loop to the next, and tasks that are ready may be
 woken in any order.
 */
module ToolUpdates {
  import opened Options

  /** An update, numbered in the order in which the relay took or overflowed it. */
  datatype Update = Update(text: string, at: nat)

  type Error = string

  datatype Item = Item(update: Update) | Sentinel

  datatype Consumer = Getting | Emitting(update: Update) | Stopped

  datatype Closer =
    | NotClosing
    | Joining                      // waiting for the queue to be worked off
    | Joined                       // woken, not yet running
    | EmittingLatest(update: Update)
    | Enqueuing                    // about to put the sentinel
    | Awaiting                     // waiting for the consumer task
    | Closed(error: Option<Error>)
    | QueueFull                    // the sentinel did not fit

  datatype Relay = Relay(
    capacity: nat,
    queue: seq<Item>,
    unfinished: nat,               // items put and not yet marked done
    accepting: bool,
    overflow: Option<Update>,
    error: Option<Error>,
    putters: seq<string>,          // updates of producer threads that wait for room
    consumer: Consumer,
    closer: Closer,
    history: History)

  /** What has happened so far; no step looks at it. */
  datatype History = History(
    clock: nat,
    accepted: seq<Update>,         // updates put in the queue, in order
    emitted: seq<Update>,          // updates handed to the sink, in order
    lastOverflow: Option<Update>,  // the last update that found the queue full
    delivered: nat,                // how many accepted updates were handed over
    latestAt: Option<nat>,         // how many had been when the overflowed one was
    closedAt: nat,                 // how many had been accepted when close began
    waiting: nat)                  // how many producers waited for room then

  datatype Step =
    | Offer(text: string)          // published on the owner loop
    | Publish(text: string)        // published from another thread
    | PutterWakes(index: nat)
    | Get
    | Emitted(failure: Option<Error>)
    | Close
    | JoinWakes
    | JoinResumes
    | LatestEmitted(failure: Option<Error>)
    | PutSentinel
    | ConsumerJoined

  function Initial(maxPending: int): Relay
  {
    Relay(if maxPending > 1 then maxPending else 1, [], 0, true, None, None, [], Getting, NotClosing,
          History(0, [], [], None, 0, None, 0, 0))
  }

  predicate Enabled(s: Relay, step: Step)
  {
    match step
    case Offer(_) => true
    case Publish(_) => true
    case PutterWakes(i) => i < |s.putters| && |s.queue| < s.capacity
    case Get => s.consumer.Getting? && s.queue != []
    case Emitted(_) => s.consumer.Emitting? && s.unfinished > 0
    case Close => s.accepting && s.closer.NotClosing?
    case JoinWakes => s.closer.Joining? && s.unfinished == 0
    case JoinResumes => s.closer.Joined?
    case LatestEmitted(_) => s.closer.EmittingLatest?
    case PutSentinel => s.closer.Enqueuing?
    case ConsumerJoined => s.closer.Awaiting? && s.consumer.Stopped?
  }

  function Put(s: Relay, text: string): Relay
  {
    var h := s.history;
    var u := Update(text, h.clock);
    s.(queue := s.queue + [Item(u)], unfinished := s.unfinished + 1,
       history := h.(accepted := h.accepted + [u], clock := h.clock + 1))
  }

  function Overflow(s: Relay, text: string): Relay
  {
    var h := s.history;
    var u := Update(text, h.clock);
    s.(overflow := Some(u), history := h.(lastOverflow := Some(u), clock := h.clock + 1))
  }

  function FirstError(s: Relay, failure: Option<Error>): Option<Error>
  {
    if s.error.Some? then s.error else failure
  }

  /** The consumer's next item: the sentinel, an update to emit, or, after a
      failure, one to drop. */
  function Take(s: Relay): Relay
    requires s.queue != []
  {
    var h, item := s.history, s.queue[0];
    var rest := s.(queue := s.queue[1..]);
    var done := rest.(unfinished := if s.unfinished > 0 then s.unfinished - 1 else 0);
    if item.Sentinel? then done.(consumer := Stopped)
    else if s.error.None? then
      rest.(consumer := Emitting(item.update),
            history := h.(emitted := h.emitted + [item.update], delivered := h.delivered + 1))
    else done
  }

  function Resume(s: Relay): Relay
  {
    var h := s.history;
    var taken := s.(overflow := None);
    if s.overflow.Some? && s.error.None? then
      taken.(closer := EmittingLatest(s.overflow.value),
             history := h.(emitted := h.emitted + [s.overflow.value], latestAt := Some(h.delivered)))
    else taken.(closer := Enqueuing)
  }

  function Apply(s: Relay, step: Step): Relay
    requires Enabled(s, step)
  {
    match step
    case Offer(u) =>
      if !s.accepting then s else if |s.queue| < s.capacity then Put(s, u) else Overflow(s, u)
    case Publish(u) =>
      if !s.accepting then s else if |s.queue| < s.capacity then Put(s, u) else s.(putters := s.putters + [u])
    case PutterWakes(i) => Put(s, s.putters[i]).(putters := s.putters[..i] + s.putters[i + 1..])
    case Get => Take(s)
    case Emitted(failure) => s.(consumer := Getting, unfinished := s.unfinished - 1, error := FirstError(s, failure))
    case Close =>
      s.(accepting := false, closer := Joining,
         history := s.history.(closedAt := |s.history.accepted|, waiting := |s.putters|))
    case JoinWakes => s.(closer := Joined)
    case JoinResumes => Resume(s)
    case LatestEmitted(failure) =>
      s.(closer := Enqueuing, error := if failure.Some? then failure else s.error)
    case PutSentinel =>
      if |s.queue| >= s.capacity then s.(closer := QueueFull)
      else s.(queue := s.queue + [Sentinel], unfinished := s.unfinished + 1, closer := Awaiting)
    case ConsumerJoined => s.(closer := Closed(s.error))
  }

  ghost predicate IsRun(maxPending: int, states: seq<Relay>, steps: seq<Step>)
  {
    && |states| == |steps| + 1
    && states[0] == Initial(maxPending)
    && forall k :: 0 <= k < |steps| ==> Enabled(states[k], steps[k]) && states[k + 1] == Apply(states[k], steps[k])
  }

  // ------------------------------------------------------------------- invariant

  function Updates(queue: seq<Item>): seq<Update>
  {
    if queue == [] then []
    else (if queue[0].Item? then [queue[0].update] else []) + Updates(queue[1..])
  }

  lemma {:induction false} UpdatesMore(queue: seq<Item>, item: Item)
    ensures Updates(queue + [item]) == Updates(queue) + if item.Item? then [item.update] else []
  {
    if queue != [] {
      assert (queue + [item])[1..] == queue[1..] + [item];
      UpdatesMore(queue[1..], item);
    } else {
      assert queue + [item] == [item];
    }
  }

  predicate NoSentinel(queue: seq<Item>)
  {
    forall i :: 0 <= i < |queue| ==> queue[i].Item?
  }

  /** Whether the closer has taken the overflow slot. */
  predicate PastJoin(closer: Closer)
  {
    closer.EmittingLatest? || closer.Enqueuing? || closer.Awaiting? || closer.Closed? || closer.QueueFull?
  }

  predicate Counts(s: Relay)
  {
    && s.capacity > 0 && |s.queue| <= s.capacity
    && s.unfinished == |s.queue| + (if s.consumer.Emitting? then 1 else 0)
    && (s.accepting <==> s.closer.NotClosing?)
    && (s.accepting || s.closer.Joining? || s.closer.Joined? || s.closer.EmittingLatest? || s.closer.Enqueuing? ==>
          NoSentinel(s.queue) && !s.consumer.Stopped?)
    && (!s.accepting ==> s.history.closedAt <= |s.history.accepted|
                         && |s.putters| + |s.history.accepted| == s.history.closedAt + s.history.waiting)
  }

  /** How many updates have left the queue. */
  function Taken(s: Relay): int
  {
    |s.history.accepted| - |Updates(s.queue)|
  }

  /** The first `n` accepted updates with the overflowed one put in at its place. */
  predicate Interleaved(h: History)
  {
    && h.delivered <= |h.accepted|
    && match h.latestAt
       case None => h.emitted == h.accepted[..h.delivered]
       case Some(a) =>
         && a <= h.delivered && h.lastOverflow.Some?
         && h.emitted == h.accepted[..a] + [h.lastOverflow.value] + h.accepted[a..h.delivered]
  }

  /** What has been emitted, in every state of every run. */
  predicate Delivery(s: Relay)
  {
    var h := s.history;
    && Taken(s) >= 0 && Updates(s.queue) == h.accepted[Taken(s)..]
    && Interleaved(h)
    && h.delivered <= Taken(s) && (s.error.None? ==> h.delivered == Taken(s))
    && (h.latestAt.Some? ==> PastJoin(s.closer) && h.closedAt <= h.latestAt.value)
    && (!PastJoin(s.closer) ==> s.overflow == h.lastOverflow)
    && (PastJoin(s.closer) && s.error.None? ==> (h.latestAt.Some? <==> h.lastOverflow.Some?))
    && (PastJoin(s.closer) || s.closer.Joined? ==> h.closedAt <= Taken(s))
  }

  lemma StepKeepsCounts(s: Relay, step: Step)
    requires Counts(s) && Enabled(s, step)
    ensures Counts(Apply(s, step))
  {
  }

  lemma PutKeepsDelivery(s: Relay, text: string)
    requires Delivery(s)
    ensures Delivery(Put(s, text)) && Taken(Put(s, text)) == Taken(s)
  {
    var t := Put(s, text);
    var u := Update(text, s.history.clock);
    UpdatesMore(s.queue, Item(u));
    assert t.history.accepted[Taken(s)..] == s.history.accepted[Taken(s)..] + [u];
    var h, g := s.history, t.history;
    assert g.accepted[..h.delivered] == h.accepted[..h.delivered];
    if h.latestAt.Some? {
      var a := h.latestAt.value;
      assert g.accepted[..a] == h.accepted[..a] && g.accepted[a..h.delivered] == h.accepted[a..h.delivered];
    }
  }

  lemma TakeKeepsDelivery(s: Relay)
    requires Counts(s) && Delivery(s) && s.queue != []
    ensures Delivery(Take(s))
  {
    var t, h := Take(s), s.history;
    var item := s.queue[0];
    assert Updates(s.queue) == (if item.Item? then [item.update] else []) + Updates(s.queue[1..]);
    if item.Item? {
      var n := Taken(s);
      assert h.accepted[n] == h.accepted[n..][0] == item.update;
      assert h.accepted[n + 1..] == h.accepted[n..][1..];
      assert h.accepted[..n + 1] == h.accepted[..n] + [h.accepted[n]];
      if h.latestAt.Some? && s.error.None? {
        var a := h.latestAt.value;
        assert h.accepted[a..n + 1] == h.accepted[a..n] + [h.accepted[n]];
      }
    }
  }

  lemma ResumeKeepsDelivery(s: Relay)
    requires Counts(s) && Delivery(s) && s.closer.Joined?
    ensures Delivery(Resume(s))
  {
    var h := s.history;
    assert h.accepted[h.delivered..h.delivered] == [];
  }

  lemma StepKeepsDelivery(s: Relay, step: Step)
    requires Counts(s) && Delivery(s) && Enabled(s, step)
    ensures Delivery(Apply(s, step))
  {
    match step
    case Offer(u) => if s.accepting && |s.queue| < s.capacity { PutKeepsDelivery(s, u); }
    case Publish(u) => if s.accepting && |s.queue| < s.capacity { PutKeepsDelivery(s, u); }
    case PutterWakes(i) => PutKeepsDelivery(s, s.putters[i]);
    case Get => TakeKeepsDelivery(s);
    case JoinResumes => ResumeKeepsDelivery(s);
    case PutSentinel => UpdatesMore(s.queue, Sentinel);
    case _ =>
  }

  lemma {:induction false} RunKeepsDelivery(maxPending: int, states: seq<Relay>, steps: seq<Step>, k: nat)
    requires IsRun(maxPending, states, steps) && k <= |steps|
    ensures Counts(states[k]) && Delivery(states[k])
  {
    if k > 0 {
      RunKeepsDelivery(maxPending, states, steps, k - 1);
      StepKeepsCounts(states[k - 1], steps[k - 1]);
      StepKeepsDelivery(states[k - 1], steps[k - 1]);
    }
  }

  // -------------------------------------------------------------------- delivery

  /** The queue never exceeds its bound, in any run. */
  lemma {:induction false} QueueIsBounded(maxPending: int, states: seq<Relay>, steps: seq<Step>, k: nat)
    requires IsRun(maxPending, states, steps) && k <= |steps|
    ensures |states[k].queue| <= states[k].capacity == states[0].capacity
  {
    if k > 0 {
      QueueIsBounded(maxPending, states, steps, k - 1);
      assert states[k] == Apply(states[k - 1], steps[k - 1]);
    }
  }

  /** Whatever the schedule, a relay that was closed has handed over accepted updates
      in acceptance order with at most the last overflowed one among them.  Without a
      failure it has handed over all that had been accepted when close began, and
      after those the overflowed one; only updates of producers that were still
      waiting then can have been left behind. */
  lemma CloseDelivers(maxPending: int, states: seq<Relay>, steps: seq<Step>, k: nat)
    requires IsRun(maxPending, states, steps) && k <= |steps| && states[k].closer.Closed?
    ensures var s, h := states[k], states[k].history;
            && s.closer.error == s.error
            && Interleaved(h)
            && |h.accepted| <= h.closedAt + h.waiting
            && (s.error.None? ==>
                  && h.closedAt <= h.delivered
                  && (h.latestAt.Some? <==> h.lastOverflow.Some?)
                  && (h.latestAt.Some? ==> h.closedAt <= h.latestAt.value))
  {
    ClosedWithItsError(maxPending, states, steps, k);
    RunKeepsDelivery(maxPending, states, steps, k);
  }

  lemma {:induction false} ClosedWithItsError(maxPending: int, states: seq<Relay>, steps: seq<Step>, k: nat)
    requires IsRun(maxPending, states, steps) && k <= |steps|
    ensures states[k].closer.Closed? ==> states[k].consumer.Stopped? && states[k].closer.error == states[k].error
  {
    if k > 0 {
      ClosedWithItsError(maxPending, states, steps, k - 1);
      RunKeepsDelivery(maxPending, states, steps, k - 1);
      assert states[k] == Apply(states[k - 1], steps[k - 1]);
    }
  }

  /** No producer thread is waiting for room when the relay is closed. */
  predicate ProducersDone(states: seq<Relay>, steps: seq<Step>)
    requires |states| == |steps| + 1
  {
    forall k :: 0 <= k < |steps| && steps[k].Close? ==> states[k].putters == []
  }

  lemma {:induction false} NobodyWaits(maxPending: int, states: seq<Relay>, steps: seq<Step>, k: nat)
    requires IsRun(maxPending, states, steps) && ProducersDone(states, steps) && k <= |steps|
    ensures states[k].history.waiting == 0
  {
    if k > 0 {
      NobodyWaits(maxPending, states, steps, k - 1);
      assert states[k] == Apply(states[k - 1], steps[k - 1]);
    }
  }

  /** Once producers have finished, close delivers exactly the accepted updates in the
      order they were accepted, and then the last one that overflowed, if any. */
  lemma CloseDeliversAll(maxPending: int, states: seq<Relay>, steps: seq<Step>, k: nat)
    requires IsRun(maxPending, states, steps) && ProducersDone(states, steps) && k <= |steps|
    requires states[k].closer == Closed(None)
    ensures var h := states[k].history;
            h.emitted == h.accepted + if h.lastOverflow.Some? then [h.lastOverflow.value] else []
  {
    CloseDelivers(maxPending, states, steps, k);
    NobodyWaits(maxPending, states, steps, k);
    RunKeepsDelivery(maxPending, states, steps, k);
    var h := states[k].history;
    assert h.accepted[..|h.accepted|] == h.accepted && h.accepted[|h.accepted|..|h.accepted|] == [];
  }

  /** After a sink failure nothing more is emitted, in any run, and close will raise. */
  lemma {:induction false} FailureEndsDelivery(maxPending: int, states: seq<Relay>, steps: seq<Step>, j: nat, k: nat)
    requires IsRun(maxPending, states, steps) && j <= k <= |steps| && states[j].error.Some?
    ensures states[k].history.emitted == states[j].history.emitted && states[k].error.Some?
  {
    if j < k {
      FailureEndsDelivery(maxPending, states, steps, j, k - 1);
      StepKeepsFailure(states[k - 1], steps[k - 1]);
    }
  }

  lemma StepKeepsFailure(s: Relay, step: Step)
    requires Enabled(s, step) && s.error.Some?
    ensures Apply(s, step).history.emitted == s.history.emitted && Apply(s, step).error.Some?
  {
  }

  /** While the overflowed update is being emitted, and after a failure, nothing else
      is in flight, so no failure hides an earlier one. */
  predicate OneInFlight(s: Relay)
  {
    && (!s.accepting ==> s.putters == [])
    && (s.closer.Joined? || s.closer.EmittingLatest? || s.closer.Enqueuing? ==> s.queue == [] && s.consumer.Getting?)
    && (s.error.Some? ==> !s.consumer.Emitting? && !s.closer.EmittingLatest?)
  }

  lemma StepKeepsOneInFlight(s: Relay, step: Step)
    requires Counts(s) && OneInFlight(s) && Enabled(s, step) && (step.Close? ==> s.putters == [])
    ensures OneInFlight(Apply(s, step))
    ensures s.error.Some? ==> Apply(s, step).error == s.error
  {
  }

  /** Once producers have finished, close raises the first failure of the sink. */
  lemma {:induction false} FirstFailureStays(maxPending: int, states: seq<Relay>, steps: seq<Step>, j: nat, k: nat)
    requires IsRun(maxPending, states, steps) && ProducersDone(states, steps) && j <= k <= |steps|
    ensures OneInFlight(states[k])
    ensures states[j].error.Some? ==> states[k].error == states[j].error
  {
    if k > 0 {
      FirstFailureStays(maxPending, states, steps, if j < k then j else k - 1, k - 1);
      RunKeepsDelivery(maxPending, states, steps, k - 1);
      StepKeepsOneInFlight(states[k - 1], steps[k - 1]);
    }
  }

  // ----------------------------------------------------------------- progress

  /** Steps left to the producers, the consumer and the closer once closing has begun. */
  function Work(s: Relay): nat
  {
    4 * |s.putters| + 3 * |s.queue| + (if s.consumer.Emitting? then 1 else 0) +
    match s.closer
    case NotClosing => 10
    case Joining => 9
    case Joined => 8
    case EmittingLatest(_) => 7
    case Enqueuing => 6
    case Awaiting => 1
    case _ => 0
  }

  /** Closing comes to its end: until it is closed or fails, the consumer, the closer
      or a waiting producer has a step, and every such step leaves less to do. */
  lemma CloseProgresses(maxPending: int, states: seq<Relay>, steps: seq<Step>, k: nat) returns (next: Step)
    requires IsRun(maxPending, states, steps) && k <= |steps|
    requires var s := states[k]; !s.accepting && !s.closer.Closed? && !s.closer.QueueFull?
    ensures Enabled(states[k], next) && !next.Offer? && !next.Publish?
    ensures forall step :: Enabled(states[k], step) && !step.Offer? && !step.Publish? ==>
              Work(Apply(states[k], step)) < Work(states[k])
  {
    RunKeepsDelivery(maxPending, states, steps, k);
    AwaitsASentinel(maxPending, states, steps, k);
    var s := states[k];
    match s.closer
    case Joining =>
      next := if s.consumer.Emitting? then Emitted(None) else if s.queue != [] then Get else JoinWakes;
    case Joined => next := JoinResumes;
    case EmittingLatest(_) => next := LatestEmitted(None);
    case Enqueuing => next := PutSentinel;
    case Awaiting =>
      next := if s.consumer.Stopped? then ConsumerJoined else if s.consumer.Emitting? then Emitted(None) else Get;
  }

  /** While the closer waits for the consumer, the sentinel is in the queue or taken. */
  lemma {:induction false} AwaitsASentinel(maxPending: int, states: seq<Relay>, steps: seq<Step>, k: nat)
    requires IsRun(maxPending, states, steps) && k <= |steps|
    ensures states[k].closer.Awaiting? ==> states[k].consumer.Stopped? || Sentinel in states[k].queue
  {
    if k > 0 {
      AwaitsASentinel(maxPending, states, steps, k - 1);
      var s, step := states[k - 1], steps[k - 1];
      assert states[k] == Apply(s, step);
      if step.Get? && s.closer.Awaiting? && !s.queue[0].Sentinel? {
        var i :| 0 <= i < |s.queue| && s.queue[i].Sentinel?;
        assert s.queue[1..][i - 1] == Sentinel;
      }
    }
  }
}
