/** Streaming one assistant response into the conversation. */
module AssistantResponse {
  import opened Options
  import opened AgentEvents
  import opened StreamProtocol
  import opened LoopRuns

  /** The events of one response: a start, updates, an end. */
  predicate IsResponse(events: seq<AgentEvent>, answer: Assistant)
  {
    && |events| >= 2
    && events[0].MessageStart? && events[0].started.AssistantMessage?
    && (forall k :: 0 < k < |events| - 1 ==> events[k].MessageUpdate? && events[k].partial.AssistantMessage?)
    && events[|events| - 1] == MessageEnd(AssistantMessage(answer))
  }

  /** A response that has been opened and not closed. */
  predicate IsPartial(events: seq<AgentEvent>)
  {
    && |events| >= 1
    && events[0].MessageStart? && events[0].started.AssistantMessage?
    && forall k :: 0 < k < |events| ==> events[k].MessageUpdate? && events[k].partial.AssistantMessage?
  }

  /** The run in the middle of a response: `last` is the partial message it has
      put in the conversation, which stood at `context` and `trace` before. */
  ghost predicate Midway(run: LoopRun, context: seq<Message>, trace: seq<AgentEvent>, announced: nat,
                         last: Option<Assistant>)
    reads run.Repr()
  {
    && run.Valid()
    && run.phase.InTurn? && run.phase.open == map[] && run.phase.announced == announced
    && trace <= run.trace
    && match last
       case None => run.phase.message.None? && run.context == context && run.trace == trace
       case Some(partial) =>
         && run.phase.message.Some? && run.phase.message.value.AssistantMessage?
         && run.context == context + [AssistantMessage(partial)]
         && IsPartial(run.trace[|trace|..])
  }

  /** The run right after a response. */
  ghost predicate Answered(run: LoopRun, context: seq<Message>, trace: seq<AgentEvent>, announced: nat,
                           answer: Assistant)
    reads run.Repr()
  {
    && run.Valid()
    && run.phase == InTurn(None, map[], announced)
    && run.context == context + [AssistantMessage(answer)]
    && trace <= run.trace && IsResponse(run.trace[|trace|..], answer)
  }

  /** Puts the final message in the conversation, in the place of the partial one
      when there is one, and closes the message in the trace. */
  method Finalize(run: LoopRun, answer: Assistant, last: Option<Assistant>,
                  ghost context: seq<Message>, ghost trace: seq<AgentEvent>, ghost announced: nat)
    requires Midway(run, context, trace, announced, last)
    modifies run`context, run`trace, run`moments, run`phase, run`mostOpen, run`ended, run.sink
    ensures Answered(run, context, trace, announced, answer)
    ensures run.ended == old(run.ended) + [AssistantMessage(answer)]
  {
    if last.Some? {
      run.context := run.context[|run.context| - 1 := AssistantMessage(answer)];
    } else {
      run.context := run.context + [AssistantMessage(answer)];
      run.Emit(MessageStart(AssistantMessage(answer)));
    }
    run.Emit(MessageEnd(AssistantMessage(answer)));
  }

  /** A start or update event that the guard let pass. */
  method Advances(run: LoopRun, event: ProviderEvent, last: Option<Assistant>,
                  ghost context: seq<Message>, ghost trace: seq<AgentEvent>, ghost announced: nat)
    requires Midway(run, context, trace, announced, last)
    requires (event.Start? && last.None?) || (event.Update? && last.Some?)
    modifies run`context, run`trace, run`moments, run`phase, run`mostOpen, run`ended, run.sink
    ensures Midway(run, context, trace, announced, Some(event.partial))
    ensures run.ended == old(run.ended)
  {
    if event.Start? {
      run.context := run.context + [AssistantMessage(event.partial)];
      run.Emit(MessageStart(AssistantMessage(event.partial)));
    } else {
      run.context := run.context[|run.context| - 1 := AssistantMessage(event.partial)];
      run.Emit(MessageUpdate(AssistantMessage(event.partial)));
    }
  }

  /** How one event settles the response that the events before it left open. */
  predicate Settles(event: ProviderEvent, result: StreamResult, last: Option<Assistant>, next: Option<Assistant>,
                    aborted: bool, answer: Assistant)
  {
    || (!Consume(Open(last), event).Open? && answer == Settled(Consume(Open(last), event), result))
    || (aborted && answer == ClosedByAbort(last))
    || (aborted && Consume(Open(last), event) == Open(next) && answer == ClosedByAbort(next))
  }

  /** One event of the response, past the abort check: it moves the partial message
      on or settles the response. */
  method HandleEvent(run: LoopRun, protocol: AssistantStreamProtocol, event: ProviderEvent, result: StreamResult,
                     last: Option<Assistant>,
                     ghost context: seq<Message>, ghost trace: seq<AgentEvent>, ghost announced: nat)
    returns (next: Option<Assistant>, answer: Option<Assistant>)
    requires Midway(run, context, trace, announced, last)
    requires protocol.started == last.Some? && !protocol.terminal
    modifies run`context, run`trace, run`moments, run`phase, run`mostOpen, run`ended, run.sink, protocol
    ensures Midway(run, context, trace, announced, next) && run.ended == old(run.ended)
    ensures answer.None? ==>
              Consume(Open(last), event) == Open(next) && protocol.started == next.Some? && !protocol.terminal
    ensures answer.Some? ==>
              !Consume(Open(last), event).Open? && answer.value == Settled(Consume(Open(last), event), result)
  {
    next, answer := last, None;
    var violation := protocol.Accept(event);
    if violation.Some? {
      answer := Some(Closed(last, Error, ERROR_PREFIX + ViolationText(violation.value)));
    } else if event.Start? || event.Update? {
      Advances(run, event, last, context, trace, announced);
      next := Some(event.partial);
    } else if event.Terminal? {
      answer := Some(Resolved(last, result));
    }
  }

  /** One event of the response, with the abort checks before and after it. */
  method ConsumeEvent(run: LoopRun, protocol: AssistantStreamProtocol, event: ProviderEvent, result: StreamResult,
                      last: Option<Assistant>,
                      ghost context: seq<Message>, ghost trace: seq<AgentEvent>, ghost announced: nat)
    returns (next: Option<Assistant>, answer: Option<Assistant>)
    requires Midway(run, context, trace, announced, last)
    requires protocol.started == last.Some? && !protocol.terminal
    modifies run`context, run`trace, run`moments, run`phase, run`mostOpen, run`ended, run.sink, run.Shared(), protocol
    ensures answer.None? ==>
              && Midway(run, context, trace, announced, next) && run.ended == old(run.ended)
              && Consume(Open(last), event) == Open(next)
              && protocol.started == next.Some? && !protocol.terminal
    ensures answer.Some? ==>
              && Answered(run, context, trace, announced, answer.value)
              && run.ended == old(run.ended) + [AssistantMessage(answer.value)]
              && Settles(event, result, last, next, run.signal.aborted, answer.value)
    ensures old(run.signal.aborted) ==> run.signal.aborted
    ensures run.steering.delivered == old(run.steering.delivered)
    ensures run.followUp.delivered == old(run.followUp.delivered)
  {
    next, answer := last, None;
    run.Interference();
    if run.signal.aborted {
      answer := Some(ClosedByAbort(last));
    } else {
      next, answer := HandleEvent(run, protocol, event, result, last, context, trace, announced);
    }
    if answer.None? {
      run.Interference();
      if run.signal.aborted {
        answer := Some(ClosedByAbort(next));
      }
    }
    if answer.Some? {
      Finalize(run, answer.value, next, context, trace, announced);
    }
  }

  /** The messages that a response to `events` may end in: the provider's answer,
      or the message of an abort seen after some open prefix of the events. */
  ghost predicate IsAnswer(events: seq<ProviderEvent>, result: StreamResult, aborted: bool, answer: Assistant)
  {
    || answer == Answer(events, result)
    || (aborted && exists k :: 0 <= k <= |events| && Follow(events[..k]).Open? && answer == Cut(events, k))
  }

  lemma SettledIsAnswer(events: seq<ProviderEvent>, result: StreamResult, k: nat, last: Option<Assistant>,
                        next: Option<Assistant>, aborted: bool, answer: Assistant)
    requires k < |events| && Follow(events[..k]) == Open(last)
    requires Settles(events[k], result, last, next, aborted, answer)
    ensures IsAnswer(events, result, aborted, answer)
  {
    FollowSnoc(events, k);
    if !Follow(events[..k + 1]).Open? {
      FollowStays(events, k + 1);
    }
  }

  /** The response to one provider call.  `events` is whatever the provider sends,
      malformed or not; the abort bit may be set at any moment. */
  method StreamAssistantResponse(run: LoopRun, events: seq<ProviderEvent>, result: StreamResult)
    returns (answer: Assistant)
    requires run.Valid() && run.phase.InTurn? && run.phase.message.None? && run.phase.open == map[]
    modifies run`context, run`trace, run`moments, run`phase, run`mostOpen, run`ended, run.sink, run.Shared()
    ensures Answered(run, old(run.context), old(run.trace), old(run.phase).announced, answer)
    ensures run.ended == old(run.ended) + [AssistantMessage(answer)]
    ensures IsAnswer(events, result, run.signal.aborted, answer)
    ensures old(run.signal.aborted) ==> run.signal.aborted
    ensures run.steering.delivered == old(run.steering.delivered)
    ensures run.followUp.delivered == old(run.followUp.delivered)
  {
    var protocol := new AssistantStreamProtocol();
    var last: Option<Assistant> := None;
    ghost var context, trace, announced := run.context, run.trace, run.phase.announced;
    for k := 0 to |events|
      invariant Midway(run, context, trace, announced, last) && Follow(events[..k]) == Open(last)
      invariant protocol.started == last.Some? && !protocol.terminal && fresh(protocol)
      invariant run.ended == old(run.ended)
      invariant old(run.signal.aborted) ==> run.signal.aborted
      invariant run.steering.delivered == old(run.steering.delivered)
      invariant run.followUp.delivered == old(run.followUp.delivered)
    {
      FollowSnoc(events, k);
      var next, settled := ConsumeEvent(run, protocol, events[k], result, last, context, trace, announced);
      if settled.Some? {
        SettledIsAnswer(events, result, k, last, next, run.signal.aborted, settled.value);
        return settled.value;
      }
      last := next;
    }
    assert events[..|events|] == events;
    run.Interference();
    answer := if run.signal.aborted then ClosedByAbort(last) else Resolved(last, result);
    Finalize(run, answer, last, context, trace, announced);
  }
}
