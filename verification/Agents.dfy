/** The stateful agent: prompting, continuing, and what a whole run leaves behind. */
module Agents {
  import opened Options
  import opened AgentEvents
  import opened AgentState
  import opened PendingQueues
  import opened AbortSignals
  import opened LoopRuns
  import opened AgentLoop

  datatype Failure = AlreadyActive | NothingToContinue | CannotContinueFromAssistant

  /** `Running` is a run watched up to its horizon that has not ended by then. */
  datatype RunResult =
    | Rejected(why: Failure)
    | Running(carried: seq<Message>)
    | Returned(messages: seq<Message>)

  /** What a finished run says of itself: `returned` is the list it hands back. */
  ghost predicate WholeRun(start: View, trace: seq<AgentEvent>, returned: seq<Message>)
  {
    && Scan(NotStarted, trace) == Finished
    && MessageEnds(trace) == returned
    && trace != [] && trace[|trace| - 1] == AgentEnd(returned)
    && Replay(start, trace).messages == start.messages + returned
  }

  class Agent {
    const state: State
    const steering: PendingMessageQueue
    const followUp: PendingMessageQueue
    var signal: AbortSignal
    var active: bool                      // the run lease is held
    ghost var lastTrace: seq<AgentEvent>  // the events of the run begun last
    ghost var lastTurns: seq<Turn>        // its turns

    ghost function Repr(): set<object>
      reads this
    {
      {this, state, steering, followUp, signal}
    }

    /** Between runs: nothing streams, nothing is pending, nothing is lost. */
    ghost predicate Idle()
      reads Repr()
    {
      && steering != followUp && signal.Valid()
      && steering.Conserving() && followUp.Conserving()
      && !active && !state.isStreaming
      && state.streamingMessage.None? && state.pendingToolCalls == {}
    }

    constructor (steeringMode: QueueMode, followUpMode: QueueMode)
      ensures Idle() && state.messages == [] && fresh(Repr())
    {
      state := new State();
      steering := new PendingMessageQueue(steeringMode);
      followUp := new PendingMessageQueue(followUpMode);
      signal := new AbortSignal();
      active, lastTrace, lastTurns := false, [], [];
    }

    method BeginRun() returns (ok: bool)
      requires active || Idle()
      modifies this, state
      ensures ok <==> !old(active)
      ensures !ok ==> unchanged(this) && unchanged(state)
      ensures ok ==> active && state.isStreaming && fresh(signal) && signal.Valid() && !signal.aborted
      ensures ok ==> state.CurrentView() == View(old(state.messages), None, {}, None)
    {
      if active {
        return false;
      }
      active := true;
      signal := new AbortSignal();
      state.isStreaming, state.streamingMessage, state.errorMessage := true, None, None;
      return true;
    }

    method FinishRun()
      requires steering != followUp && signal.Valid() && steering.Conserving() && followUp.Conserving()
      modifies this`active, state
      ensures Idle() && state.messages == old(state.messages) && state.errorMessage == old(state.errorMessage)
    {
      state.isStreaming, state.streamingMessage, state.pendingToolCalls := false, None, {};
      active := false;
    }
  }

  /** The start of a run: its two opening events and its prompts. */
  method OpenRun(run: LoopRun, prompts: seq<Message>)
    requires run.Valid() && run.phase == NotStarted
    modifies run`trace, run`moments, run`phase, run`mostOpen, run`ended, run.sink
    ensures run.Valid() && run.phase == QUIET_TURN && run.ended == old(run.ended) + prompts
  {
    run.Emit(AgentStart);
    run.Emit(TurnStart);
    for k := 0 to |prompts|
      invariant run.Valid() && run.phase == QUIET_TURN && run.ended == old(run.ended) + prompts[..k]
    {
      run.Emit(MessageStart(prompts[k]));
      run.Emit(MessageEnd(prompts[k]));
      assert prompts[..k + 1] == prompts[..k] + [prompts[k]];
    }
    assert prompts[..|prompts|] == prompts;
  }

  /** A run's loop to its horizon, from a fresh run object. */
  method DriveRun(run: LoopRun, prompts: seq<Message>, inputs: nat -> TurnInput, horizon: nat, skipInitialPoll: bool)
    returns (finished: bool, carried: seq<Message>, ghost carriedFrom: Source, ghost turns: seq<Turn>)
    requires run.Valid() && run.phase == NotStarted && run.trace == [] && run.newMessages == prompts
    requires run.context == run.sinkStart.messages + prompts
    modifies run, run.sink, run.Shared()
    ensures run.Valid()
    ensures Ledger(run, Origin(run.sinkStart.messages + prompts, prompts, prompts,
                               old(run.steering.delivered), old(run.followUp.delivered)),
                   Tally(turns), carriedFrom, carried)
    ensures SettledButLast(turns, run.signal.aborted)
    ensures finished ==> carried == [] && turns != [] && WholeRun(run.sinkStart, run.trace, run.newMessages)
    ensures finished ==> run.sink.messages == run.context == run.sinkStart.messages + run.newMessages
    ensures !finished ==>
              && |turns| == horizon
              && MessageEnds(run.trace) == prompts + Tally(turns).messages
              && Scan(NotStarted, run.trace) == (if turns == [] then QUIET_TURN else BetweenTurns)
              && run.sink.messages == run.sinkStart.messages + prompts + Tally(turns).messages
  {
    OpenRun(run, prompts);
    finished, carried, carriedFrom, turns := RunLoop(run, inputs, horizon, skipInitialPoll);
    RecordIsReplay(run.sinkStart, run.trace, run.moments);
    HistoryGrowsByEnds(run.sinkStart, run.trace);
  }

  /** What a run that began with history `history` and with these prompts has come
      to.  `steered` and `followed` are the messages drained before it began. */
  ghost predicate RunAccount(agent: Agent, history: seq<Message>, prompts: seq<Message>,
                             steered: seq<Message>, followed: seq<Message>, result: RunResult)
    reads agent, agent.Repr()
  {
    var tally := Tally(agent.lastTurns);
    && agent.steering.Conserving() && agent.followUp.Conserving()
    && SettledButLast(agent.lastTurns, agent.signal.aborted)
    && match result
       case Rejected(_) => false
       case Returned(messages) =>
         && agent.Idle() && agent.lastTurns != []
         && messages == prompts + tally.messages
         && WholeRun(View(history, None, {}, None), agent.lastTrace, messages)
         && agent.state.messages == history + messages
         && agent.steering.delivered == steered + tally.steered
         && agent.followUp.delivered == followed + tally.followed
       case Running(carried) =>
         && agent.active
         && MessageEnds(agent.lastTrace) == prompts + tally.messages
         && Scan(NotStarted, agent.lastTrace) == (if agent.lastTurns == [] then QUIET_TURN else BetweenTurns)
         && agent.state.messages == history + prompts + tally.messages
         && (|| (agent.steering.delivered == steered + tally.steered + carried
                 && agent.followUp.delivered == followed + tally.followed)
             || (agent.steering.delivered == steered + tally.steered
                 && agent.followUp.delivered == followed + tally.followed + carried))
  }

  /** The part of a run that prompting and continuing share. */
  method Execute(agent: Agent, prompts: seq<Message>, inputs: nat -> TurnInput, horizon: nat, skipInitialPoll: bool)
    returns (result: RunResult)
    requires agent.active && agent.steering != agent.followUp && agent.signal.Valid()
    requires agent.steering.Conserving() && agent.followUp.Conserving()
    requires agent.state.CurrentView() == View(agent.state.messages, None, {}, None)
    modifies agent, agent.Repr()
    ensures agent.signal == old(agent.signal)
    ensures RunAccount(agent, old(agent.state.messages), prompts,
                       old(agent.steering.delivered), old(agent.followUp.delivered), result)
  {
    var run := new LoopRun(agent.signal, agent.steering, agent.followUp, agent.state,
                           agent.state.messages + prompts, prompts);
    ghost var carriedFrom, turns;
    var finished, carried;
    finished, carried, carriedFrom, turns := DriveRun(run, prompts, inputs, horizon, skipInitialPoll);
    agent.lastTrace, agent.lastTurns := run.trace, turns;
    if finished {
      agent.FinishRun();
      result := Returned(run.newMessages);
    } else {
      result := Running(carried);
    }
  }

  /** Runs a list of prompts. */
  method Prompt(agent: Agent, prompts: seq<Message>, inputs: nat -> TurnInput, horizon: nat)
    returns (result: RunResult)
    requires agent.active || agent.Idle()
    modifies agent, agent.Repr()
    ensures old(agent.active) ==>
              result == Rejected(AlreadyActive) && unchanged(agent) && unchanged(old(agent.Repr()))
    ensures !old(agent.active) ==>
              RunAccount(agent, old(agent.state.messages), prompts,
                         old(agent.steering.delivered), old(agent.followUp.delivered), result)
  {
    var ok := agent.BeginRun();
    if !ok {
      return Rejected(AlreadyActive);
    }
    result := Execute(agent, prompts, inputs, horizon, false);
  }

  /** The messages a continuation begins with, drained from the queues when the
      conversation ends in an assistant message. */
  datatype Start = Start(prompts: seq<Message>, skipInitialPoll: bool)

  method ChooseStart(agent: Agent) returns (start: Option<Start>)
    requires agent.state.messages != [] && agent.steering != agent.followUp
    requires agent.steering.Conserving() && agent.followUp.Conserving()
    modifies agent.steering, agent.followUp
    ensures agent.steering.Conserving() && agent.followUp.Conserving()
    ensures start.None? ==>
              && old(agent.steering.messages) == old(agent.followUp.messages) == []
              && agent.steering.delivered == old(agent.steering.delivered)
              && agent.followUp.delivered == old(agent.followUp.delivered)
    ensures start.Some? ==>
              var prompts := start.value.prompts;
              && (prompts == [] <==> !agent.state.messages[|agent.state.messages| - 1].AssistantMessage?)
              && (start.value.skipInitialPoll <==> prompts != [] && old(agent.steering.messages) != [])
              && agent.steering.delivered == old(agent.steering.delivered)
                                           + (if start.value.skipInitialPoll then prompts else [])
              && agent.followUp.delivered == old(agent.followUp.delivered)
                                           + (if start.value.skipInitialPoll then [] else prompts)
  {
    if !agent.state.messages[|agent.state.messages| - 1].AssistantMessage? {
      return Some(Start([], false));
    }
    var steered := agent.steering.Drain();
    agent.steering.OthersEnqueue();
    agent.followUp.OthersEnqueue();
    if steered != [] {
      return Some(Start(steered, true));
    }
    var followed := agent.followUp.Drain();
    if followed == [] {
      return None;
    }
    return Some(Start(followed, false));
  }

  /** Continues the conversation, from a queue when it ends in an assistant message. */
  method Continue(agent: Agent, inputs: nat -> TurnInput, horizon: nat)
    returns (result: RunResult, ghost prompts: seq<Message>, ghost fromSteering: bool)
    requires agent.active || agent.Idle()
    modifies agent, agent.Repr()
    ensures old(agent.active) ==>
              result == Rejected(AlreadyActive) && unchanged(agent) && unchanged(old(agent.Repr()))
    ensures !old(agent.active) && result.Rejected? ==>
              && agent.Idle() && agent.state.messages == old(agent.state.messages)
              && agent.steering.delivered == old(agent.steering.delivered)
              && agent.followUp.delivered == old(agent.followUp.delivered)
              && (agent.state.messages == [] || (old(agent.steering.messages) == old(agent.followUp.messages) == []))
    ensures !old(agent.active) && !result.Rejected? ==>
              RunAccount(agent, old(agent.state.messages), prompts,
                         old(agent.steering.delivered) + (if fromSteering then prompts else []),
                         old(agent.followUp.delivered) + (if fromSteering then [] else prompts), result)
  {
    prompts, fromSteering := [], false;
    var ok := agent.BeginRun();
    if !ok {
      return Rejected(AlreadyActive), [], false;
    }
    if agent.state.messages == [] {
      agent.FinishRun();
      return Rejected(NothingToContinue), [], false;
    }
    var start := ChooseStart(agent);
    if start.None? {
      agent.FinishRun();
      return Rejected(CannotContinueFromAssistant), [], false;
    }
    prompts, fromSteering := start.value.prompts, start.value.skipInitialPoll;
    result := Execute(agent, start.value.prompts, inputs, horizon, start.value.skipInitialPoll);
  }
}
