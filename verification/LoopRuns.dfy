/**
 What one run of the agent loop works on: the conversation in its three places,
 the sink that every event goes to, and the things other threads may touch while
 the run goes on.
 */
module LoopRuns {
  import opened AgentEvents
  import opened AgentState
  import opened PendingQueues
  import opened AbortSignals

  /** What has come of a trace up to some point: its phase, the messages ended and
      the agent's state. */
  datatype Moment = Moment(phase: Phase, ended: seq<Message>, view: View)

  function Observe(m: Moment, e: AgentEvent): Moment
  {
    Moment(Advance(m.phase, e), m.ended + (if e.MessageEnd? then [e.ended] else []), Reduce(m.view, e))
  }

  /** `moments` records what comes of `trace` event by event, from state `start`. */
  ghost predicate Records(start: View, trace: seq<AgentEvent>, moments: seq<Moment>)
  {
    && |moments| == |trace| + 1
    && moments[0] == Moment(NotStarted, [], start)
    && forall k {:trigger trace[k]} :: 0 <= k < |trace| ==> moments[k + 1] == Observe(moments[k], trace[k])
  }

  /** The record agrees with reading the whole trace at once. */
  lemma {:induction false} RecordIsReplay(start: View, trace: seq<AgentEvent>, moments: seq<Moment>)
    requires Records(start, trace, moments)
    ensures moments[|trace|] == Moment(Scan(NotStarted, trace), MessageEnds(trace), Replay(start, trace))
  {
    if trace != [] {
      var n := |trace| - 1;
      RecordIsReplay(start, trace[..n], moments[..n + 1]);
      assert trace[n] == trace[|trace| - 1];
    }
  }

  class LoopRun {
    const signal: AbortSignal
    const steering: PendingMessageQueue
    const followUp: PendingMessageQueue
    const sink: State
    var context: seq<Message>        // current_context.messages
    var newMessages: seq<Message>    // the list the run returns
    ghost const sinkStart: View      // the sink's state when the run began
    ghost var trace: seq<AgentEvent> // every event emitted
    ghost var moments: seq<Moment>   // what came of them, one by one
    ghost var phase: Phase           // the trace as its reader sees it now
    ghost var ended: seq<Message>    // the messages of the message_end events so far
    ghost var bodies: nat            // tool bodies started
    ghost var mostOpen: nat          // the most tool executions open at once

    ghost function Shared(): set<object>
    {
      {signal, steering, followUp}
    }

    ghost function Repr(): set<object>
    {
      {this, sink} + Shared()
    }

    ghost predicate Valid()
      reads Repr()
    {
      && steering != followUp
      && signal.Valid()
      && steering.Conserving() && followUp.Conserving()
      && Records(sinkStart, trace, moments)
      && moments[|trace|] == Moment(phase, ended, sink.CurrentView())
    }

    constructor (signal: AbortSignal, steering: PendingMessageQueue, followUp: PendingMessageQueue, sink: State,
                 context: seq<Message>, newMessages: seq<Message>)
      requires steering != followUp && signal.Valid() && steering.Conserving() && followUp.Conserving()
      ensures Valid() && fresh(this)
      ensures this.signal == signal && this.steering == steering && this.followUp == followUp && this.sink == sink
      ensures this.context == context && this.newMessages == newMessages
      ensures sinkStart == sink.CurrentView() && trace == [] && phase == NotStarted && ended == []
      ensures bodies == 0 && mostOpen == 0
    {
      this.signal, this.steering, this.followUp, this.sink := signal, steering, followUp, sink;
      this.context, this.newMessages := context, newMessages;
      this.sinkStart := sink.CurrentView();
      this.trace, this.phase, this.ended, this.bodies, this.mostOpen := [], NotStarted, [], 0, 0;
      this.moments := [Moment(NotStarted, [], sink.CurrentView())];
    }

    method Emit(e: AgentEvent)
      requires Valid()
      modifies this`trace, this`moments, this`phase, this`mostOpen, this`ended, sink
      ensures Valid()
      ensures trace == old(trace) + [e] && phase == Advance(old(phase), e)
      ensures mostOpen == if old(mostOpen) < OpenCount(phase) then OpenCount(phase) else old(mostOpen)
      ensures ended == old(ended) + if e.MessageEnd? then [e.ended] else []
    {
      ghost var next := Observe(Moment(phase, ended, sink.CurrentView()), e);
      trace, moments := trace + [e], moments + [next];
      phase, ended := next.phase, next.ended;
      if mostOpen < OpenCount(phase) {
        mostOpen := OpenCount(phase);
      }
      sink.ProcessEvent(e);
    }

    /** What other threads may do between two steps of the run: abort it, and add
        to its queues.  They neither drain the queues nor take an abort back. */
    method Interference()
      requires Valid()
      modifies Shared()
      ensures Valid()
      ensures old(signal.aborted) ==> signal.aborted
      ensures steering.delivered == old(steering.delivered) && followUp.delivered == old(followUp.delivered)
    {
      var abort: bool := *;
      if abort {
        signal.Abort();
      }
      steering.OthersEnqueue();
      followUp.OthersEnqueue();
    }
  }
}
