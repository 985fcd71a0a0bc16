/**
 What producers still waiting at close can do to it when ready tasks may run in any
 order, and when the overflowed update is older than what was delivered before it.
 */
module ToolUpdatesEdges {
  import opened Options
  import opened ToolUpdates

  /** Steps lead from one relay to another. */
  ghost predicate Leads(s: Relay, steps: seq<Step>, t: Relay)
    decreases |steps|
  {
    if steps == [] then s == t
    else Enabled(s, steps[0]) && Leads(Apply(s, steps[0]), steps[1..], t)
  }

  lemma {:induction false} LeadsOn(s: Relay, a: seq<Step>, t: Relay, b: seq<Step>, u: Relay)
    requires Leads(s, a, t) && Leads(t, b, u)
    ensures Leads(s, a + b, u)
    decreases |a|
  {
    if a == [] {
      assert a + b == b;
    } else {
      assert (a + b)[1..] == a[1..] + b;
      LeadsOn(Apply(s, a[0]), a[1..], t, b, u);
    }
  }

  /** One step more. */
  lemma Then(s: Relay, steps: seq<Step>, t: Relay, step: Step) returns (longer: seq<Step>, u: Relay)
    requires Leads(s, steps, t) && Enabled(t, step)
    ensures u == Apply(t, step) && Leads(s, longer, u)
  {
    u := Apply(t, step);
    assert [step][1..] == [];
    LeadsOn(s, steps, t, [step], u);
    longer := steps + [step];
  }

  // ------------------------------------------------------ stragglers and the sentinel

  /** A relay that can be closed. */
  predicate Open(s: Relay)
  {
    Counts(s) && s.accepting
  }

  /** Whether some way of going on after close begins ends with no room for the sentinel. */
  ghost predicate CanFill(s: Relay)
    requires Open(s)
  {
    exists steps, t :: Leads(Apply(s, Close), steps, t) && t.closer.QueueFull?
  }

  /** What keeps room for the sentinel when fewer than `capacity` producers wait. */
  predicate Roomy(s: Relay, waiting: nat)
  {
    && Counts(s) && !s.accepting && waiting < s.capacity && !s.closer.QueueFull?
    && |s.putters| <= waiting
    && (s.closer.Joined? || s.closer.EmittingLatest? || s.closer.Enqueuing? ==> |s.queue| + |s.putters| <= waiting)
  }

  lemma {:induction false} LeadsKeepsRoom(s: Relay, steps: seq<Step>, t: Relay, waiting: nat)
    requires Roomy(s, waiting) && Leads(s, steps, t)
    ensures Roomy(t, waiting)
    decreases |steps|
  {
    if steps != [] {
      LeadsKeepsRoom(Apply(s, steps[0]), steps[1..], t, waiting);
    }
  }

  /** The consumer works the queue off while every producer goes on waiting. */
  lemma {:induction false} WorkOff(s: Relay) returns (steps: seq<Step>, t: Relay)
    requires Counts(s) && s.closer.Joining?
    ensures Leads(s, steps, t) && Counts(t)
    ensures t == s.(queue := [], unfinished := 0, consumer := Getting, history := t.history)
    ensures s.error.None? ==> t.history.delivered - s.history.delivered == |Updates(s.queue)|
    ensures t.history == s.history.(emitted := t.history.emitted, delivered := t.history.delivered)
    decreases |s.queue|, s.consumer.Emitting?
  {
    if s.consumer.Emitting? {
      var s1 := Apply(s, Emitted(None));
      StepKeepsCounts(s, Emitted(None));
      steps, t := WorkOff(s1);
      steps := [Emitted(None)] + steps;
    } else if s.queue != [] {
      var s1 := Apply(s, Get);
      StepKeepsCounts(s, Get);
      assert s.queue[0].Item?;
      steps, t := WorkOff(s1);
      steps := [Get] + steps;
    } else {
      steps, t := [], s;
    }
  }

  /** `n` producers find room, one after the other. */
  lemma {:induction false} FillUp(s: Relay, n: nat) returns (steps: seq<Step>, t: Relay)
    requires n <= |s.putters| && |s.queue| + n <= s.capacity
    ensures Leads(s, steps, t) && |t.queue| == |s.queue| + n && t.capacity == s.capacity
    ensures t.closer == s.closer && t.error == s.error
    decreases n
  {
    if n == 0 {
      steps, t := [], s;
    } else {
      var s1 := Apply(s, PutterWakes(0));
      steps, t := FillUp(s1, n - 1);
      steps := [PutterWakes(0)] + steps;
    }
  }

  /** From a woken closer with a full queue to the failing close. */
  lemma NoRoom(s: Relay) returns (steps: seq<Step>, t: Relay)
    requires s.closer.Joined? && |s.queue| >= s.capacity
    ensures Leads(s, steps, t) && t.closer.QueueFull? && t.error == s.error
  {
    steps, t := Then(s, [], s, JoinResumes);
    if t.closer.EmittingLatest? {
      steps, t := Then(s, steps, t, LatestEmitted(None));
    }
    steps, t := Then(s, steps, t, PutSentinel);
  }

  lemma FillsTheQueue(s: Relay) returns (steps: seq<Step>, t: Relay)
    requires Open(s) && |s.putters| >= s.capacity
    ensures Leads(Apply(s, Close), steps, t) && t.closer.QueueFull? && t.error == s.error
  {
    var closing := Apply(s, Close);
    StepKeepsCounts(s, Close);
    var s1, more, s2;
    steps, s1 := WorkOff(closing);
    steps, s1 := Then(closing, steps, s1, JoinWakes);
    more, s2 := FillUp(s1, s1.capacity);
    LeadsOn(closing, steps, s1, more, s2);
    steps := steps + more;
    more, t := NoRoom(s2);
    LeadsOn(closing, steps, s2, more, t);
    steps := steps + more;
  }

  /** Closing can fail for want of room exactly when at least as many producers are
      waiting as the queue has places. */
  lemma QueueFullIff(s: Relay)
    requires Open(s)
    ensures CanFill(s) <==> |s.putters| >= s.capacity
  {
    if |s.putters| >= s.capacity {
      var steps, t := FillsTheQueue(s);
    } else if CanFill(s) {
      var steps, t :| Leads(Apply(s, Close), steps, t) && t.closer.QueueFull?;
      StepKeepsCounts(s, Close);
      LeadsKeepsRoom(Apply(s, Close), steps, t, |s.putters|);
    }
  }

  // ------------------------------------------------- stragglers behind the sentinel

  /** Whether some way of going on after close begins ends well with an accepted
      update that was never handed over. */
  ghost predicate CanLeaveBehind(s: Relay)
    requires Open(s)
  {
    exists steps, t ::
      Leads(Apply(s, Close), steps, t) && t.closer == Closed(None) && t.history.delivered < |t.history.accepted|
  }

  /** What keeps an error, and a close that failed with it. */
  predicate Erred(s: Relay)
  {
    s.error.Some? && (s.closer.Closed? ==> s.closer.error.Some?)
  }

  lemma {:induction false} LeadsKeepsError(s: Relay, steps: seq<Step>, t: Relay)
    requires Erred(s) && Leads(s, steps, t)
    ensures Erred(t)
    decreases |steps|
  {
    if steps != [] {
      LeadsKeepsError(Apply(s, steps[0]), steps[1..], t);
    }
  }

  /** With nobody waiting, nothing is accepted after close has begun. */
  predicate Complete(s: Relay)
  {
    s.history.waiting == 0 && !s.accepting && (s.closer.Closed? ==> s.closer.error == s.error && s.consumer.Stopped?)
  }

  lemma {:induction false} LeadsKeepsComplete(s: Relay, steps: seq<Step>, t: Relay)
    requires Complete(s) && Leads(s, steps, t)
    ensures Complete(t)
    decreases |steps|
  {
    if steps != [] {
      LeadsKeepsComplete(Apply(s, steps[0]), steps[1..], t);
    }
  }

  /** A worked-off relay whose closer has been woken: to the end of its consumer. */
  lemma StopConsumer(s: Relay) returns (steps: seq<Step>, t: Relay)
    requires Counts(s) && s.closer.Joined? && s.queue == [] && s.consumer.Getting? && s.error.None?
    ensures Leads(s, steps, t) && t.closer.Awaiting? && t.consumer.Stopped? && t.queue == [] && t.error.None?
    ensures t.putters == s.putters && t.capacity == s.capacity
    ensures t.history == s.history.(emitted := t.history.emitted, latestAt := t.history.latestAt)
    ensures t.history.emitted == s.history.emitted + if s.overflow.Some? then [s.overflow.value] else []
  {
    steps, t := Then(s, [], s, JoinResumes);
    if t.closer.EmittingLatest? {
      steps, t := Then(s, steps, t, LatestEmitted(None));
    }
    steps, t := Then(s, steps, t, PutSentinel);
    steps, t := Then(s, steps, t, Get);
  }

  lemma LeavesBehind(s: Relay) returns (steps: seq<Step>, t: Relay)
    requires Open(s) && Delivery(s) && s.putters != [] && s.error.None?
    ensures Leads(Apply(s, Close), steps, t) && t.closer == Closed(None) && t.history.delivered < |t.history.accepted|
  {
    var closing := Apply(s, Close);
    StepKeepsCounts(s, Close);
    StepKeepsDelivery(s, Close);
    var s1, more, s2;
    steps, s1 := WorkOff(closing);
    LeadsKeepsDelivery(closing, steps, s1);
    steps, s1 := Then(closing, steps, s1, JoinWakes);
    more, s2 := StopConsumer(s1);
    LeadsOn(closing, steps, s1, more, s2);
    steps := steps + more;
    steps, t := Then(closing, steps, s2, PutterWakes(0));
    steps, t := Then(closing, steps, t, ConsumerJoined);
  }

  /** If ready tasks may run in any order, a close that ends well can leave an accepted
      update behind exactly when a producer was waiting and the sink had not failed. */
  lemma AnyOrderLeavesBehindIff(s: Relay)
    requires Open(s) && Delivery(s)
    ensures CanLeaveBehind(s) <==> s.putters != [] && s.error.None?
  {
    if s.putters != [] && s.error.None? {
      var steps, t := LeavesBehind(s);
    } else if CanLeaveBehind(s) {
      var steps, t :|
        Leads(Apply(s, Close), steps, t) && t.closer == Closed(None) && t.history.delivered < |t.history.accepted|;
      var closing := Apply(s, Close);
      if s.error.Some? {
        LeadsKeepsError(closing, steps, t);
      } else {
        StepKeepsCounts(s, Close);
        StepKeepsDelivery(s, Close);
        LeadsKeepsDelivery(closing, steps, t);
        LeadsKeepsComplete(closing, steps, t);
      }
    }
  }

  lemma {:induction false} LeadsKeepsDelivery(s: Relay, steps: seq<Step>, t: Relay)
    requires Counts(s) && Delivery(s) && Leads(s, steps, t)
    ensures Counts(t) && Delivery(t)
    decreases |steps|
  {
    if steps != [] {
      StepKeepsCounts(s, steps[0]);
      StepKeepsDelivery(s, steps[0]);
      LeadsKeepsDelivery(Apply(s, steps[0]), steps[1..], t);
    }
  }

  // --------------------------------------------------------- the age of the overflow

  predicate Overflows(s: Relay, step: Step)
  {
    step.Offer? && s.accepting && |s.queue| >= s.capacity
  }

  predicate Accepts(s: Relay, step: Step)
  {
    step.PutterWakes? || ((step.Offer? || step.Publish?) && s.accepting && |s.queue| < s.capacity)
  }

  /** An update was accepted after the last one that overflowed. */
  predicate AcceptsAfterOverflow(states: seq<Relay>, steps: seq<Step>, k: nat)
    requires |states| == |steps| + 1 && k <= |steps|
  {
    exists j, i :: 0 <= j < i < k && LastOverflow(states, steps, j, k) && Accepts(states[i], steps[i])
  }

  predicate LastOverflow(states: seq<Relay>, steps: seq<Step>, j: nat, k: nat)
    requires |states| == |steps| + 1 && k <= |steps|
  {
    j < k && Overflows(states[j], steps[j]) && forall l :: j < l < k ==> !Overflows(states[l], steps[l])
  }

  predicate HasOverflowed(states: seq<Relay>, steps: seq<Step>, k: nat)
    requires |states| == |steps| + 1 && k <= |steps|
  {
    exists j :: 0 <= j < k && LastOverflow(states, steps, j, k)
  }

  /** Something was handed to the sink before an older update. */
  predicate OutOfOrder(emitted: seq<Update>)
  {
    exists i, j :: 0 <= i < j < |emitted| && emitted[i].at > emitted[j].at
  }

  predicate Numbered(h: History)
  {
    && (forall i, j :: 0 <= i < j < |h.accepted| ==> h.accepted[i].at < h.accepted[j].at)
    && (forall i :: 0 <= i < |h.accepted| ==> h.accepted[i].at < h.clock)
    && (h.lastOverflow.Some? ==> h.lastOverflow.value.at < h.clock)
  }

  /** Whether the last accepted update is younger than the last overflowed one. */
  predicate Stale(h: History)
  {
    h.lastOverflow.Some? && h.accepted != [] && h.accepted[|h.accepted| - 1].at > h.lastOverflow.value.at
  }

  lemma StepNumbers(s: Relay, step: Step)
    requires Numbered(s.history) && Enabled(s, step)
    ensures var g, h := s.history, Apply(s, step).history;
            && Numbered(h)
            && (Accepts(s, step) ==> h.lastOverflow == g.lastOverflow && (Stale(h) <==> g.lastOverflow.Some?))
            && (Overflows(s, step) ==> h.lastOverflow.Some? && !Stale(h))
            && (!Accepts(s, step) && !Overflows(s, step) ==>
                  h.lastOverflow == g.lastOverflow && (Stale(h) <==> Stale(g)))
  {
  }

  lemma {:induction false} RunNumbers(maxPending: int, states: seq<Relay>, steps: seq<Step>, k: nat)
    requires IsRun(maxPending, states, steps) && k <= |steps|
    ensures Numbered(states[k].history)
    ensures states[k].history.lastOverflow.Some? <==> HasOverflowed(states, steps, k)
    ensures Stale(states[k].history) <==> AcceptsAfterOverflow(states, steps, k)
  {
    if k > 0 {
      RunNumbers(maxPending, states, steps, k - 1);
      var s, step := states[k - 1], steps[k - 1];
      assert states[k] == Apply(s, step);
      StepNumbers(s, step);
      if Overflows(s, step) {
        assert LastOverflow(states, steps, k - 1, k);
      } else {
        SameOverflow(states, steps, k - 1, k);
      }
    }
  }

  lemma SameOverflow(states: seq<Relay>, steps: seq<Step>, m: nat, k: nat)
    requires |states| == |steps| + 1 && k == m + 1 <= |steps| && !Overflows(states[m], steps[m])
    ensures HasOverflowed(states, steps, k) <==> HasOverflowed(states, steps, m)
    ensures AcceptsAfterOverflow(states, steps, k)
       <==> AcceptsAfterOverflow(states, steps, m) || (Accepts(states[m], steps[m]) && HasOverflowed(states, steps, m))
  {
    forall j | 0 <= j < m ensures LastOverflow(states, steps, j, k) <==> LastOverflow(states, steps, j, m) {
    }
    assert !LastOverflow(states, steps, m, k);
    if AcceptsAfterOverflow(states, steps, k) {
      var j, i :| 0 <= j < i < k && LastOverflow(states, steps, j, k) && Accepts(states[i], steps[i]);
      assert LastOverflow(states, steps, j, m);
    }
    if AcceptsAfterOverflow(states, steps, m) {
      var j, i :| 0 <= j < i < m && LastOverflow(states, steps, j, m) && Accepts(states[i], steps[i]);
      assert LastOverflow(states, steps, j, k);
    }
    if HasOverflowed(states, steps, m) {
      var j :| 0 <= j < m && LastOverflow(states, steps, j, m);
      assert LastOverflow(states, steps, j, k);
    }
  }

  /** Once producers have finished, a successful close has handed something over before
      an older update exactly when an update was accepted after the last overflow. */
  lemma DeliveryIsOutOfOrderIff(maxPending: int, states: seq<Relay>, steps: seq<Step>, k: nat)
    requires IsRun(maxPending, states, steps) && ProducersDone(states, steps) && k <= |steps|
    requires states[k].closer == Closed(None)
    ensures OutOfOrder(states[k].history.emitted) <==> AcceptsAfterOverflow(states, steps, k)
  {
    CloseDeliversAll(maxPending, states, steps, k);
    RunNumbers(maxPending, states, steps, k);
    var h := states[k].history;
    var n := |h.accepted|;
    if Stale(h) {
      assert h.emitted[n - 1].at > h.emitted[n].at;
    }
    if OutOfOrder(h.emitted) {
      var i, j :| 0 <= i < j < |h.emitted| && h.emitted[i].at > h.emitted[j].at;
      assert j == n;
      assert i == n - 1 || h.accepted[i].at < h.accepted[n - 1].at;
    }
  }
}
