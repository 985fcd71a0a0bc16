/**
 On a first in, first out loop: exactly when a close can fail for want of room, and
 exactly when one that ends well can leave an accepted update behind.
 */
module ToolUpdatesLoopEdges {
  import opened Options
  import opened ToolUpdates
  import opened ToolUpdatesEdges
  import opened ToolUpdatesLoop

  // ------------------------------------------------------------- stretches of a run

  /** Whether only producers run before task `t` does. */
  predicate Reached(ts: seq<Task>, t: Task)
  {
    ts != [] && (ts[0] == t || (ts[0].ProducerTask? && Reached(ts[1..], t)))
  }

  lemma {:induction false} IsReached(ts: seq<Task>, t: Task)
    requires t in ts && forall x :: x in ts ==> x == t || x.ProducerTask?
    ensures Reached(ts, t)
  {
    if ts[0] != t {
      IsReached(ts[1..], t);
    }
  }

  lemma {:induction false} FirstIsReached(ts: seq<Task>)
    requires CloserTask in ts && CloserFirst(ts)
    ensures Reached(ts, CloserTask)
  {
    if ts[0] != CloserTask {
      FirstIsReached(ts[1..]);
    }
  }

  /** `n` producers have gone on, as far as there was room. */
  predicate Puts(r: Relay, q: Relay, n: nat)
  {
    && |q.queue| == Min(r.capacity, |r.queue| + n)
    && q == r.(queue := q.queue, unfinished := q.unfinished, putters := q.putters, history := q.history)
    && r.queue <= q.queue && (forall i :: |r.queue| <= i < |q.queue| ==> q.queue[i].Item?)
    && |q.queue| + |q.putters| == |r.queue| + |r.putters|
  }

  /** A woken producer puts its update, or waits again when there is no room. */
  lemma ProducerRuns(l: Loop) returns (turns: seq<Turn>, m: Loop)
    requires Inv(l) && l.running.None? && l.ready != [] && l.ready[0].ProducerTask?
    ensures Runs(l, turns, m) && Inv(m) && m.running.None? && Puts(l.relay, m.relay, 1)
    ensures m.ready == l.ready[1..] || m.ready == l.ready[1..] + [ConsumerTask]
  {
    turns, m := Next(l, [], l, Dispatch);
    if |l.relay.queue| < l.relay.capacity {
      turns, m := Next(l, turns, m, GoesOn(PutterWakes(0)));
    } else {
      turns, m := Next(l, turns, m, Suspends);
    }
    RunsKeepInv(l, turns, m);
  }

  lemma PutsMore(r: Relay, q: Relay, n: nat, u: Relay, k: nat)
    requires Puts(r, q, n) && Puts(q, u, k)
    ensures Puts(r, u, n + k)
  {
  }

  lemma TaskRuns(l: Loop, t: Task) returns (turns: seq<Turn>, m: Loop)
    requires Inv(l) && l.running.None? && l.ready != [] && l.ready[0] == t
    ensures Runs(l, turns, m) && Inv(m) && m.running == Some(t) && m.relay == l.relay
  {
    turns, m := Next(l, [], l, Dispatch);
    TurnKeepsInv(l, Dispatch);
  }

  /** The producers ahead of task `t` run, and `t` is the next. */
  lemma {:induction false} ProducersRun(l: Loop, t: Task) returns (turns: seq<Turn>, m: Loop)
    requires Inv(l) && l.running.None? && !t.ProducerTask? && Reached(l.ready, t)
    ensures Runs(l, turns, m) && Inv(m) && m.running.None? && m.ready != [] && m.ready[0] == t
    ensures Puts(l.relay, m.relay, Ahead(l.ready, t))
    decreases Ahead(l.ready, t)
  {
    turns, m := [], l;
    if l.ready[0] != t {
      var first, s := ProducerRuns(l);
      HeadGone(l.ready, t, s.ready);
      turns, m := ProducersRun(s, t);
      RunsOn(l, first, s, turns, m);
      PutsMore(l.relay, s.relay, 1, m.relay, Ahead(s.ready, t));
      turns := first + turns;
    }
  }

  /** The loop works off the producers ahead of task `t`, and `t` runs. */
  lemma RunUpTo(l: Loop, t: Task) returns (turns: seq<Turn>, m: Loop)
    requires Inv(l) && l.running.None? && !t.ProducerTask? && Reached(l.ready, t)
    ensures Runs(l, turns, m) && Inv(m) && m.running == Some(t)
    ensures Puts(l.relay, m.relay, Ahead(l.ready, t))
  {
    var s, more;
    turns, s := ProducersRun(l, t);
    more, m := TaskRuns(s, t);
    RunsOn(l, turns, s, more, m);
    turns := turns + more;
  }

  lemma HeadGone(ts: seq<Task>, t: Task, us: seq<Task>)
    requires Reached(ts, t) && ts[0] != t && (us == ts[1..] || us == ts[1..] + [ConsumerTask])
    ensures Reached(us, t) && Ahead(us, t) == Ahead(ts, t) - 1
  {
    StillReached(ts[1..], t, us);
  }

  lemma {:induction false} StillReached(ts: seq<Task>, t: Task, us: seq<Task>)
    requires Reached(ts, t) && (us == ts || us == ts + [ConsumerTask])
    ensures Reached(us, t) && Ahead(us, t) == Ahead(ts, t)
  {
    if ts[0] != t && us != ts {
      assert us[1..] == ts[1..] + [ConsumerTask];
      StillReached(ts[1..], t, us[1..]);
    }
  }

  /** What the running consumer leaves as it is when it works off the queue in one go
      and no emission fails. */
  predicate WorkedOff(l: Loop, m: Loop)
  {
    && m.running == Some(ConsumerTask) && l.ready <= m.ready
    && m.relay.queue == [] && m.relay.consumer.Getting?
    && m.relay.closer == (if l.relay.closer.Joining? then Joined else l.relay.closer)
    && m.relay.putters == l.relay.putters && m.relay.capacity == l.relay.capacity
    && m.relay.overflow == l.relay.overflow && m.relay.error == l.relay.error
  }

  /** The consumer's next step, when the emission neither suspends nor fails. */
  function NextStep(r: Relay): Step
  {
    if r.consumer.Emitting? then Emitted(None) else Get
  }

  lemma ConsumerStep(l: Loop) returns (s: Loop)
    requires Inv(l) && l.running == Some(ConsumerTask) && NoSentinel(l.relay.queue)
    requires l.relay.accepting || l.relay.closer.EmittingLatest? || l.relay.closer.Joining?
    requires l.relay.queue != [] || l.relay.consumer.Emitting?
    ensures CanTake(l, GoesOn(NextStep(l.relay))) && s == After(l, GoesOn(NextStep(l.relay))) && Inv(s)
    ensures s.running == l.running && l.ready <= s.ready && NoSentinel(s.relay.queue)
    ensures s.relay.putters == l.relay.putters && s.relay.capacity == l.relay.capacity
    ensures s.relay.overflow == l.relay.overflow && s.relay.error == l.relay.error
    ensures s.relay.closer == l.relay.closer
         || (l.relay.closer.Joining? && s.relay.closer.Joined? && s.relay.queue == [] && s.relay.consumer.Getting?)
    ensures |s.relay.queue| < |l.relay.queue| || (s.relay.queue == l.relay.queue && !s.relay.consumer.Emitting?)
  {
    s := After(l, GoesOn(NextStep(l.relay)));
    TurnKeepsInv(l, GoesOn(NextStep(l.relay)));
  }

  lemma {:induction false} WorksOff(l: Loop) returns (turns: seq<Turn>, m: Loop)
    requires Inv(l) && l.running == Some(ConsumerTask) && NoSentinel(l.relay.queue)
    requires l.relay.accepting || l.relay.closer.EmittingLatest? || l.relay.closer.Joining?
    ensures Runs(l, turns, m) && Inv(m) && WorkedOff(l, m)
    decreases |l.relay.queue|, l.relay.consumer.Emitting?
  {
    turns, m := [], l;
    if l.relay.queue != [] || l.relay.consumer.Emitting? {
      m := ConsumerStep(l);
      var s := m;
      if !s.relay.closer.Joined? {
        turns, m := WorksOff(s);
      }
      turns := [GoesOn(NextStep(l.relay))] + turns;
    }
  }

  // ------------------------------------------------------------- the closer's own way

  /** From a closer that waits in join to the moment when it goes on, if the consumer
      works the queue off in one go. */
  lemma ToTheCloser(l: Loop) returns (turns: seq<Turn>, m: Loop)
    requires Inv(l) && l.running.None? && l.relay.closer.Joining?
    ensures Runs(l, turns, m) && Inv(m) && m.running == Some(CloserTask) && m.relay.closer.Joined? && InOrder(m)
    ensures |m.relay.queue| + |m.relay.putters| == Left(l) && m.relay.capacity == l.relay.capacity
    ensures m.relay.overflow == l.relay.overflow && m.relay.error == l.relay.error
    ensures m.relay.putters == [] || |m.relay.queue| == m.relay.capacity
  {
    var more, s;
    turns, s := ToTheConsumer(l);
    more, m := WorksOff(s);
    RunsOn(l, turns, s, more, m);
    turns, s := Next(l, turns + more, m, Suspends);
    RunsKeepInv(l, turns, s);
    RunsKeepWaits(l, turns, s, Left(l));
    FirstIsReached(s.ready);
    more, m := RunUpTo(s, CloserTask);
    RunsOn(l, turns, s, more, m);
    turns := turns + more;
    RunsKeepWaits(l, turns, m, Left(l));
    ClosersTurn(m, Left(l));
  }

  lemma ToTheConsumer(l: Loop) returns (turns: seq<Turn>, m: Loop)
    requires Inv(l) && l.running.None? && l.relay.closer.Joining?
    ensures Runs(l, turns, m) && Inv(m) && m.running == Some(ConsumerTask) && m.relay.closer.Joining?
    ensures |m.relay.putters| == Left(l) && m.relay.capacity == l.relay.capacity && NoSentinel(m.relay.queue)
    ensures m.relay.overflow == l.relay.overflow && m.relay.error == l.relay.error
  {
    var s := l;
    turns := [];
    if ConsumerTask !in l.ready {
      turns, s := Next(l, [], l, SinkReturns(ConsumerTask));
      RunsKeepInv(l, turns, s);
      Appended(l.ready, ConsumerTask);
    }
    IsReached(s.ready, ConsumerTask);
    var more;
    more, m := RunUpTo(s, ConsumerTask);
    RunsOn(l, turns, s, more, m);
    turns := turns + more;
  }

  lemma {:induction false} RunsKeepWaits(l: Loop, turns: seq<Turn>, m: Loop, n: int)
    requires Inv(l) && Waits(l, n) && Runs(l, turns, m)
    ensures Waits(m, n)
    decreases |turns|
  {
    if turns != [] {
      TurnKeepsWaits(l, turns[0], n);
      TurnKeepsInv(l, turns[0]);
      RunsKeepWaits(After(l, turns[0]), turns[1..], m, n);
    }
  }

  /** A closer that goes on and finds the queue full. */
  lemma FindsItFull(l: Loop) returns (turns: seq<Turn>, m: Loop)
    requires l.running == Some(CloserTask) && |l.relay.queue| >= l.relay.capacity
    requires l.relay.closer.Joined? || l.relay.closer.EmittingLatest?
    ensures Runs(l, turns, m) && m.relay.closer.QueueFull? && m.relay.error == l.relay.error
  {
    turns, m := [], l;
    if l.relay.closer.Joined? {
      turns, m := Next(l, turns, m, GoesOn(JoinResumes));
    }
    if m.relay.closer.EmittingLatest? {
      turns, m := Next(l, turns, m, GoesOn(LatestEmitted(None)));
    }
    turns, m := Next(l, turns, m, GoesOn(PutSentinel));
  }

  /** The sentinel is in the queue, and somebody still waits to put an update behind it. */
  predicate Overtaken(l: Loop)
  {
    && l.running.None? && l.relay.closer.Awaiting? && l.relay.queue == [Sentinel] && l.relay.consumer.Getting?
    && l.relay.putters != [] && l.relay.error.None?
  }

  ghost predicate LeavesBehind(l: Loop)
  {
    l.relay.closer == Closed(None) && l.relay.history.delivered < |l.relay.history.accepted|
  }

  lemma OvertakenIsLeftBehind(l: Loop) returns (turns: seq<Turn>, m: Loop)
    requires Inv(l) && Overtaken(l)
    ensures Runs(l, turns, m) && LeavesBehind(m)
  {
    var s, more, n;
    IsReached(l.ready, ConsumerTask);
    turns, s := RunUpTo(l, ConsumerTask);
    turns, n := Next(l, turns, s, GoesOn(Get));
    RunsKeepInv(l, turns, n);
    AfterTheSentinel(s);
    more, m := StoppedLeavesBehind(n);
    RunsOn(l, turns, n, more, m);
    turns := turns + more;
  }

  /** What the loop is like when the consumer has taken the sentinel. */
  predicate LeftAlone(l: Loop)
  {
    && l.running.None? && l.relay.closer.Awaiting? && l.relay.consumer.Stopped? && l.relay.error.None?
    && NoSentinel(l.relay.queue) && Reached(l.ready, CloserTask)
    && (l.relay.queue != [] || Ahead(l.ready, CloserTask) > 0)
  }

  lemma AfterTheSentinel(l: Loop)
    requires Inv(l) && l.running == Some(ConsumerTask) && l.relay.closer.Awaiting? && l.relay.consumer.Getting?
    requires [Sentinel] <= l.relay.queue && (forall i :: 1 <= i < |l.relay.queue| ==> l.relay.queue[i].Item?)
    requires l.relay.error.None? && |l.relay.queue| + |l.relay.putters| > 1
    ensures LeftAlone(After(l, GoesOn(Get)))
  {
    var m := After(l, GoesOn(Get));
    TurnKeepsInv(l, GoesOn(Get));
    var producer := Woken(l) < |l.relay.putters|;
    var ts := With(l.ready, producer, ProducerTask);
    Woke(l.ready, producer, ProducerTask);
    Appended(ts, CloserTask);
    AheadAtMost(ts, CloserTask);
    FirstIsReached(m.ready);
  }

  lemma StoppedLeavesBehind(l: Loop) returns (turns: seq<Turn>, m: Loop)
    requires Inv(l) && LeftAlone(l)
    ensures Runs(l, turns, m) && LeavesBehind(m)
  {
    var s;
    turns, s := RunUpTo(l, CloserTask);
    assert s.relay.queue != [] && s.relay.queue[0].Item?;
    assert Updates(s.relay.queue) != [];
    turns, m := Next(l, turns, s, GoesOn(ConsumerJoined));
  }

  /** A closer that goes on and finds the queue empty, to the wait for the consumer. */
  lemma ReachesItsSentinel(l: Loop) returns (turns: seq<Turn>, m: Loop)
    requires Inv(l) && l.running == Some(CloserTask) && l.relay.queue == [] && l.relay.consumer.Getting?
    requires l.relay.closer.Joined? || l.relay.closer.EmittingLatest?
    requires l.relay.error.None?
    ensures Runs(l, turns, m) && Inv(m) && m.running.None? && m.relay.closer.Awaiting? && m.relay.consumer.Getting?
    ensures m.relay.queue == [Sentinel] && m.relay.putters == l.relay.putters && m.relay.error.None?
  {
    var s := l;
    turns := [];
    if l.relay.closer.Joined? {
      turns, s := Next(l, turns, s, GoesOn(JoinResumes));
    }
    if s.relay.closer.EmittingLatest? {
      turns, s := Next(l, turns, s, GoesOn(LatestEmitted(None)));
    }
    RunsKeepInv(l, turns, s);
    var more;
    more, m := PutsItsSentinel(s);
    RunsOn(l, turns, s, more, m);
    turns := turns + more;
  }

  lemma PutsItsSentinel(l: Loop) returns (turns: seq<Turn>, m: Loop)
    requires Inv(l) && l.relay.closer.Enqueuing? && l.relay.queue == [] && l.relay.consumer.Getting?
    ensures Runs(l, turns, m) && Inv(m) && m.running.None? && m.relay.closer.Awaiting? && m.relay.consumer.Getting?
    ensures m.relay.queue == [Sentinel] && m.relay.putters == l.relay.putters && m.relay.error == l.relay.error
  {
    turns, m := Next(l, [], l, GoesOn(PutSentinel));
    turns, m := Next(l, turns, m, Suspends);
    RunsKeepInv(l, turns, m);
  }

  /** A closer that goes on to its sentinel while somebody waits and the queue is empty. */
  lemma Overtakes(l: Loop) returns (turns: seq<Turn>, m: Loop)
    requires Inv(l) && l.running == Some(CloserTask) && l.relay.queue == [] && l.relay.consumer.Getting?
    requires l.relay.closer.Joined? || l.relay.closer.EmittingLatest?
    requires l.relay.putters != [] && l.relay.error.None?
    ensures Runs(l, turns, m) && LeavesBehind(m)
  {
    var s, more;
    turns, s := ReachesItsSentinel(l);
    more, m := OvertakenIsLeftBehind(s);
    RunsOn(l, turns, s, more, m);
    turns := turns + more;
  }

  /** A closer that finds the queue full, but emits the overflowed update first: that
      may take as long as the consumer needs to work the queue off once more. */
  lemma EmitsMeanwhile(l: Loop) returns (turns: seq<Turn>, m: Loop)
    requires Inv(l) && l.running == Some(CloserTask) && l.relay.closer.Joined? && InOrder(l)
    requires l.relay.overflow.Some? && l.relay.error.None? && l.relay.putters != [] && l.relay.queue != []
    ensures Runs(l, turns, m) && LeavesBehind(m)
  {
    var s, more;
    turns, s := Next(l, [], l, GoesOn(JoinResumes));
    turns, s := Next(l, turns, s, Suspends);
    NoProducers(s.ready);
    turns, s := Next(l, turns, s, SinkReturns(CloserTask));
    assert s.ready == [ConsumerTask, CloserTask];
    turns, s := Next(l, turns, s, Dispatch);
    RunsKeepInv(l, turns, s);
    more, m := WorksOff(s);
    RunsOn(l, turns, s, more, m);
    turns, s := Next(l, turns + more, m, Suspends);
    turns, s := Next(l, turns, s, Dispatch);
    RunsKeepInv(l, turns, s);
    more, m := Overtakes(s);
    RunsOn(l, turns, s, more, m);
    turns := turns + more;
  }

  /** A close that finds nothing unfinished does not suspend in join. */
  lemma FindsNothing(l: Loop) returns (turns: seq<Turn>, m: Loop)
    requires Inv(l) && CanTake(l, Begins) && l.relay.unfinished == 0
    ensures Runs(After(l, Begins), turns, m) && Inv(m) && m.running == Some(CloserTask) && m.ready == l.ready
    ensures m.relay == Apply(Apply(l.relay, Close), JoinWakes)
  {
    TurnKeepsInv(l, Begins);
    turns, m := Next(After(l, Begins), [], After(l, Begins), GoesOn(JoinWakes));
    RunsKeepInv(After(l, Begins), turns, m);
  }

  // -------------------------------------------------------------- exact conditions

  /** A loop between two tasks, with a relay that can be closed. */
  predicate AtRest(l: Loop)
  {
    Inv(l) && CanTake(l, Begins)
  }

  ghost predicate CanFindItFull(l: Loop)
    requires AtRest(l)
  {
    exists turns, m :: Runs(After(l, Begins), turns, m) && m.relay.closer.QueueFull?
  }

  ghost predicate CanLeaveSomeBehind(l: Loop)
    requires AtRest(l)
  {
    exists turns, m :: Runs(After(l, Begins), turns, m) && LeavesBehind(m)
  }

  /** The producers that wait can fill the queue before the sentinel comes. */
  predicate FillsUp(l: Loop)
  {
    if l.relay.unfinished == 0
    then l.relay.overflow.Some? && l.relay.error.None? && |l.relay.putters| >= l.relay.capacity
    else Left(l) >= l.relay.capacity
  }

  /** Somebody waits whom the sentinel overtakes. */
  predicate Overtaking(l: Loop)
  {
    l.relay.error.None?
    && if l.relay.unfinished == 0 then l.relay.putters != []
       else l.relay.overflow.Some? && Left(l) > l.relay.capacity
  }

  /** The closer emits the overflowed update, and the emission suspends. */
  lemma SuspendsEmitting(l: Loop) returns (turns: seq<Turn>, m: Loop)
    requires AtRest(l) && l.relay.unfinished == 0 && l.relay.overflow.Some? && l.relay.error.None?
    ensures Runs(After(l, Begins), turns, m) && Inv(m) && m.running.None? && m.ready == l.ready + [CloserTask]
    ensures m.relay.closer.EmittingLatest? && m.relay.error.None? && m.relay.queue == []
    ensures m.relay.capacity == l.relay.capacity
  {
    var b := After(l, Begins);
    TurnKeepsInv(l, Begins);
    turns, m := FindsNothing(l);
    turns, m := Next(b, turns, m, GoesOn(JoinResumes));
    turns, m := Next(b, turns, m, Suspends);
    turns, m := Next(b, turns, m, SinkReturns(CloserTask));
    RunsKeepInv(b, turns, m);
  }

  lemma FillsUpEmitting(l: Loop) returns (turns: seq<Turn>, m: Loop)
    requires AtRest(l) && l.relay.unfinished == 0 && FillsUp(l)
    ensures Runs(After(l, Begins), turns, m) && m.relay.closer.QueueFull? && m.relay.error == l.relay.error
  {
    var b, s, n, more := After(l, Begins), l, l, [];
    turns, s := SuspendsEmitting(l);
    Appended(l.ready, CloserTask);
    AheadAtMost(l.ready, CloserTask);
    IsReached(s.ready, CloserTask);
    more, n := RunUpTo(s, CloserTask);
    RunsOn(b, turns, s, more, n);
    turns := turns + more;
    more, m := FindsItFull(n);
    RunsOn(b, turns, n, more, m);
    turns := turns + more;
  }

  lemma FillsUpWaiting(l: Loop) returns (turns: seq<Turn>, m: Loop)
    requires AtRest(l) && l.relay.unfinished > 0 && FillsUp(l)
    ensures Runs(After(l, Begins), turns, m) && m.relay.closer.QueueFull? && m.relay.error == l.relay.error
  {
    var b, n, more := After(l, Begins), l, [];
    turns, n := WaitsItsTurn(l);
    more, m := FindsItFull(n);
    RunsOn(b, turns, n, more, m);
    turns := turns + more;
  }

  /** A close that finds something unfinished, to the moment when it goes on. */
  lemma WaitsItsTurn(l: Loop) returns (turns: seq<Turn>, m: Loop)
    requires AtRest(l) && l.relay.unfinished > 0
    ensures Runs(After(l, Begins), turns, m) && Inv(m)
    ensures m.running == Some(CloserTask) && m.relay.closer.Joined? && InOrder(m)
    ensures |m.relay.queue| + |m.relay.putters| == Left(l) && m.relay.capacity == l.relay.capacity
    ensures m.relay.overflow == l.relay.overflow && m.relay.error == l.relay.error
    ensures m.relay.putters == [] || |m.relay.queue| == m.relay.capacity
  {
    var b, s, more := After(l, Begins), l, [];
    TurnKeepsInv(l, Begins);
    turns, s := Next(b, [], b, Suspends);
    RunsKeepInv(b, turns, s);
    more, m := ToTheCloser(s);
    RunsOn(b, turns, s, more, m);
    turns := turns + more;
  }

  lemma OvertakingLoses(l: Loop) returns (turns: seq<Turn>, m: Loop)
    requires AtRest(l) && Overtaking(l)
    ensures Runs(After(l, Begins), turns, m) && LeavesBehind(m)
  {
    var n, more := l, [];
    if l.relay.unfinished == 0 {
      turns, n := FindsNothing(l);
      more, m := Overtakes(n);
    } else {
      turns, n := WaitsItsTurn(l);
      more, m := EmitsMeanwhile(n);
    }
    RunsOn(After(l, Begins), turns, n, more, m);
    turns := turns + more;
  }

  /** On a first in, first out loop a close can fail for want of room exactly in two
      cases: something is unfinished and at least `capacity` producers are left over
      when the queue has been worked off; or nothing is unfinished, that many wait, and
      there is an overflowed update to emit first. */
  lemma InOrderQueueFullIff(l: Loop)
    requires AtRest(l)
    ensures CanFindItFull(l) <==> FillsUp(l)
  {
    var b := After(l, Begins);
    TurnKeepsInv(l, Begins);
    if FillsUp(l) {
      if l.relay.unfinished == 0 {
        var turns, m := FillsUpEmitting(l);
      } else {
        var turns, m := FillsUpWaiting(l);
      }
    } else if CanFindItFull(l) {
      var turns, m :| Runs(b, turns, m) && m.relay.closer.QueueFull?;
      if l.relay.unfinished > 0 {
        RunsFit(b, turns, m, Left(l));
      } else if |l.relay.putters| < l.relay.capacity {
        var steps := RunsAreSteps(b, turns, m);
        QueueFullIff(l.relay);
      } else {
        RunsGoThrough(b, turns, m);
      }
    }
  }

  /** And one that ends well can leave an accepted update behind exactly when no emission
      has failed and either nothing is unfinished and a producer waits, or there is an
      overflowed update to emit and more than `capacity` producers are left over when
      the queue has been worked off. */
  lemma InOrderLeavesBehindIff(l: Loop)
    requires AtRest(l)
    ensures CanLeaveSomeBehind(l) <==> Overtaking(l)
  {
    var b := After(l, Begins);
    TurnKeepsInv(l, Begins);
    if Overtaking(l) {
      var turns, m := OvertakingLoses(l);
    } else if CanLeaveSomeBehind(l) {
      var turns, m :| Runs(b, turns, m) && LeavesBehind(m);
      if l.relay.error.Some? || l.relay.putters == [] {
        var steps := RunsAreSteps(b, turns, m);
        AnyOrderLeavesBehindIff(l.relay);
      } else {
        RunsServeAll(b, turns, m, Left(l));
        RunsKeepInv(b, turns, m);
      }
    }
  }

  /** A close that ends as its caller expects: not for want of room, and without an
      error only when every accepted update has been handed over. */
  predicate EndsWell(r: Relay)
  {
    && !r.closer.QueueFull?
    && (r.closer == Closed(None) ==> r.history.delivered == |r.history.accepted| && Interleaved(r.history))
  }

  ghost predicate AlwaysEndsWell(l: Loop)
    requires AtRest(l)
  {
    forall turns, m :: Runs(After(l, Begins), turns, m) ==> EndsWell(m.relay)
  }

  /** While fewer producers wait than the queue has places and no emission has failed,
      a close is sure to end well exactly when nobody waits or something is unfinished. */
  lemma FewWaitersAreServedIff(l: Loop)
    requires AtRest(l) && |l.relay.putters| < l.relay.capacity && l.relay.error.None?
    ensures AlwaysEndsWell(l) <==> l.relay.putters == [] || l.relay.unfinished > 0
  {
    InOrderQueueFullIff(l);
    InOrderLeavesBehindIff(l);
    if Overtaking(l) {
      var turns, m :| Runs(After(l, Begins), turns, m) && LeavesBehind(m);
      assert !EndsWell(m.relay);
    } else {
      forall turns, m | Runs(After(l, Begins), turns, m) ensures EndsWell(m.relay) {
        assert !m.relay.closer.QueueFull? && !LeavesBehind(m);
        TurnKeepsInv(l, Begins);
        RunsKeepInv(After(l, Begins), turns, m);
      }
    }
  }

  // ----------------------------------------------------------------- whole runs

  /** `n` updates published from other threads before the consumer first runs. */
  lemma {:induction false} PublishAtFirst(l: Loop, n: nat) returns (turns: seq<Turn>, m: Loop)
    requires Counts(l.relay) && l.running.None? && l.ready == [ConsumerTask] && l.relay.accepting && l.relay.error.None?
    requires l.relay.consumer.Getting? && (l.relay.putters != [] ==> |l.relay.queue| == l.relay.capacity)
    ensures Runs(l, turns, m) && m.running.None? && m.ready == [ConsumerTask] && m.relay.accepting
    ensures m.relay.capacity == l.relay.capacity && m.relay.error.None? && m.relay.consumer.Getting?
    ensures |m.relay.queue| == Min(l.relay.capacity, |l.relay.queue| + |l.relay.putters| + n)
    ensures |m.relay.queue| + |m.relay.putters| == |l.relay.queue| + |l.relay.putters| + n
    decreases n
  {
    turns, m := [], l;
    if n > 0 {
      var turn := Arrives(Publish(""));
      var s := After(l, turn);
      StepKeepsCounts(l.relay, Publish(""));
      turns, m := PublishAtFirst(s, n - 1);
      turns := [turn] + turns;
    }
  }

  lemma CreatedThenPublished(maxPending: int, n: nat) returns (turns: seq<Turn>, m: Loop)
    ensures Runs(Created(maxPending), turns, m) && AtRest(m) && m.ready == [ConsumerTask]
    ensures m.relay.error.None? && m.relay.consumer.Getting? && m.relay.capacity == Initial(maxPending).capacity
    ensures |m.relay.queue| == Min(m.relay.capacity, n) && |m.relay.queue| + |m.relay.putters| == n
  {
    CreatedInv(maxPending);
    turns, m := PublishAtFirst(Created(maxPending), n);
    RunsKeepInv(Created(maxPending), turns, m);
  }

  /** At every capacity, enough producers waiting at close make it fail though no
      emission did. */
  lemma StragglersCanBreakClose(maxPending: int) returns (turns: seq<Turn>, m: Loop)
    ensures Runs(Created(maxPending), turns, m) && m.relay.closer.QueueFull? && m.relay.error.None?
  {
    var start, l, more := Created(maxPending), Created(maxPending), [];
    turns, l := CreatedThenPublished(maxPending, 2 * start.relay.capacity);
    assert Ahead([ConsumerTask], ConsumerTask) == 0;
    more, m := FillsUpWaiting(l);
    turns, l := Next(start, turns, l, Begins);
    RunsOn(start, turns, l, more, m);
    turns := turns + more;
  }

  /** At every capacity, a close that ends well and leaves the accepted update of the
      one producer that waits behind: the consumer has worked the queue off without
      suspending, and the closer comes to its sentinel before the producer runs. */
  lemma StragglerIsOvertaken(maxPending: int) returns (turns: seq<Turn>, l: Loop, more: seq<Turn>, m: Loop)
    ensures Runs(Created(maxPending), turns, l) && AtRest(l) && |l.relay.putters| == 1
    ensures Runs(After(l, Begins), more, m) && LeavesBehind(m)
  {
    var start, s := Created(maxPending), Created(maxPending);
    turns, s := CreatedThenPublished(maxPending, start.relay.capacity + 1);
    turns, l := Next(start, turns, s, Dispatch);
    CreatedInv(maxPending);
    RunsKeepInv(start, turns, l);
    more, s := WorksOff(l);
    RunsOn(start, turns, l, more, s);
    turns, l := Next(start, turns + more, s, Suspends);
    RunsKeepInv(start, turns, l);
    more, m := OvertakingLoses(l);
  }

  // -------------------------------------------------- the age of the overflowed update

  /** What a close that nobody waits for leaves as it is. */
  predicate Settled(r: Relay, h: History)
  {
    && Counts(r) && !r.accepting && r.history.waiting == 0
    && r.history.accepted == h.accepted && r.history.lastOverflow == h.lastOverflow
  }

  lemma {:induction false} LeadsKeepsSettled(r: Relay, steps: seq<Step>, q: Relay, h: History)
    requires Settled(r, h) && Leads(r, steps, q)
    ensures Settled(q, h)
    decreases |steps|
  {
    if steps != [] {
      StepKeepsCounts(r, steps[0]);
      LeadsKeepsSettled(Apply(r, steps[0]), steps[1..], q, h);
    }
  }

  /** The end of a close with an empty queue that nobody waits for. */
  lemma EndsQuietly(l: Loop) returns (turns: seq<Turn>, m: Loop)
    requires Inv(l) && l.running == Some(CloserTask) && l.relay.closer.Joined? && l.relay.consumer.Getting?
    requires l.relay.queue == [] && l.relay.putters == [] && l.relay.error.None?
    ensures Runs(l, turns, m) && m.relay.closer == Closed(None) && m.relay.error.None? && m.relay.queue == []
  {
    var s, n, more;
    turns, s := ReachesItsSentinel(l);
    more, n := TakesItsSentinel(s);
    RunsOn(l, turns, s, more, n);
    turns := turns + more;
    IsReached(n.ready, CloserTask);
    more, m := RunUpTo(n, CloserTask);
    RunsOn(l, turns, n, more, m);
    turns, m := Next(l, turns + more, m, GoesOn(ConsumerJoined));
  }

  lemma TakesItsSentinel(l: Loop) returns (turns: seq<Turn>, m: Loop)
    requires Inv(l) && l.running.None? && l.relay.closer.Awaiting? && l.relay.consumer.Getting?
    requires l.relay.queue == [Sentinel] && l.relay.putters == []
    ensures Runs(l, turns, m) && Inv(m) && m.running.None? && CloserTask in m.ready
    ensures m.relay.closer.Awaiting? && m.relay.consumer.Stopped? && m.relay.error == l.relay.error
    ensures m.relay.queue == [] && m.relay.putters == []
  {
    IsReached(l.ready, ConsumerTask);
    turns, m := RunUpTo(l, ConsumerTask);
    turns, m := Next(l, turns, m, GoesOn(Get));
    RunsKeepInv(l, turns, m);
  }

  /** Closes a relay that nobody waits for, with a sink that does not fail. */
  lemma ClosesQuietly(l: Loop) returns (turns: seq<Turn>, m: Loop)
    requires AtRest(l) && l.relay.unfinished > 0 && l.relay.putters == [] && l.relay.error.None?
    requires l.relay.history.lastOverflow.Some?
    ensures Runs(After(l, Begins), turns, m) && m.relay.closer == Closed(None)
    ensures m.relay.history.accepted == l.relay.history.accepted
    ensures m.relay.history.emitted == l.relay.history.accepted + [l.relay.history.lastOverflow.value]
  {
    var b, s, more := After(l, Begins), l, [];
    TurnKeepsInv(l, Begins);
    AheadAtMost(l.ready, ConsumerTask);
    turns, s := WaitsItsTurn(l);
    more, m := EndsQuietly(s);
    RunsOn(b, turns, s, more, m);
    turns := turns + more;
    RunsKeepInv(b, turns, m);
    var steps := RunsAreSteps(b, turns, m);
    LeadsKeepsSettled(b.relay, steps, m.relay, l.relay.history);
    var h := m.relay.history;
    assert h.accepted[..|h.accepted|] == h.accepted;
  }

  /** At every capacity, a close that hands the overflowed update over after newer ones. */
  lemma OverflowCanBeStale(maxPending: int) returns (turns: seq<Turn>, m: Loop)
    ensures Runs(Created(maxPending), turns, m) && m.relay.closer == Closed(None) && m.relay.history.waiting == 0
    ensures OutOfOrder(m.relay.history.emitted)
  {
    var start, l, more := Created(maxPending), Created(maxPending), [];
    turns, l := OffersOldThenNew(maxPending);
    more, m := ClosesQuietly(l);
    var h, g := m.relay.history, l.relay.history;
    assert h.emitted[|g.accepted| - 1].at > h.emitted[|g.accepted|].at;
    turns, l := Next(start, turns, l, Begins);
    var steps := RunsAreSteps(l, more, m);
    LeadsKeepsSettled(l.relay, steps, m.relay, l.relay.history);
    RunsOn(start, turns, l, more, m);
    turns := turns + more;
  }

  /** An update overflows, the consumer takes one, and a newer update finds room. */
  lemma OffersOldThenNew(maxPending: int) returns (turns: seq<Turn>, l: Loop)
    ensures Runs(Created(maxPending), turns, l) && AtRest(l)
    ensures l.relay.unfinished > 0 && l.relay.putters == [] && l.relay.error.None? && Stale(l.relay.history)
  {
    var start, s := Created(maxPending), Created(maxPending);
    CreatedInv(maxPending);
    turns, s := CreatedThenPublished(maxPending, start.relay.capacity);
    var more;
    more, l := OldThenNew(s);
    RunsOn(start, turns, s, more, l);
    turns := turns + more;
    RunsKeepInv(start, turns, l);
  }

  lemma OldThenNew(l: Loop) returns (turns: seq<Turn>, m: Loop)
    requires AtRest(l) && l.ready == [ConsumerTask] && l.relay.putters == [] && l.relay.error.None?
    requires l.relay.consumer.Getting? && |l.relay.queue| == l.relay.capacity
    ensures Runs(l, turns, m) && m.running.None? && m.relay.accepting && m.relay.closer.NotClosing?
    ensures m.relay.unfinished > 0 && m.relay.putters == [] && m.relay.error.None? && Stale(m.relay.history)
  {
    turns, m := Next(l, [], l, Arrives(Offer("old")));
    turns, m := Next(l, turns, m, Dispatch);
    turns, m := Next(l, turns, m, GoesOn(Get));
    turns, m := Next(l, turns, m, Suspends);
    turns, m := Next(l, turns, m, Arrives(Offer("new")));
  }
}
