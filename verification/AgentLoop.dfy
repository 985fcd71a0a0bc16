/**
 The turn loop of an agent run: injected messages, one assistant response, the
 tool calls it asks for, and the two queues that keep the run alive.

 A run need not end, so the loop is watched for `horizon` turns, for any number
 of them; what it guarantees at the horizon holds at the end of every turn.
 */
module AgentLoop {
  import opened AgentEvents
  import opened StreamProtocol
  import opened ToolOutcomes
  import opened LoopRuns
  import opened AssistantResponse
  import opened ToolBatches

  /** What the world answers in one turn: the provider, the tools, the stop hook. */
  datatype TurnInput = TurnInput(events: seq<ProviderEvent>, result: StreamResult, box: Toolbox, stop: bool)

  datatype Source = Steering | FollowUp

  /** What a turn added to the conversation. */
  datatype Turn = Turn(
    source: Source, injected: seq<Message>, assistant: Assistant, results: seq<Message>, bodies: int)

  function TurnMessages(t: Turn): seq<Message>
  {
    t.injected + [AssistantMessage(t.assistant)] + t.results
  }

  /** What a sequence of turns adds up to: the messages it adds to the conversation,
      and those among them that it took from each queue. */
  datatype Account = Account(messages: seq<Message>, steered: seq<Message>, followed: seq<Message>)

  function Credit(a: Account, t: Turn): Account
  {
    Account(a.messages + TurnMessages(t),
            a.steered + (if t.source == Steering then t.injected else []),
            a.followed + (if t.source == FollowUp then t.injected else []))
  }

  function Tally(turns: seq<Turn>): Account
  {
    if turns == [] then Account([], [], []) else Credit(Tally(turns[..|turns| - 1]), turns[|turns| - 1])
  }

  // ------------------------------------------------------------------- ledger

  predicate Answers(call: ToolCall, m: Message)
  {
    m.ToolResultMessage? && m.callId == call.id && m.toolName == call.name
  }

  /** Results for the first calls of a message, in source order. */
  predicate AnswersPrefix(calls: seq<ToolCall>, results: seq<Message>)
  {
    |results| <= |calls| && forall i :: 0 <= i < |results| ==> Answers(calls[i], results[i])
  }

  /** A message cut off by the length limit runs no tool and gets errors only. */
  predicate TruncationKept(t: Turn)
  {
    t.assistant.stopReason == Length ==>
      t.bodies == 0 && |t.results| == |ToolCalls(t.assistant.content)|
      && forall i :: 0 <= i < |t.results| ==> t.results[i].ToolResultMessage? && t.results[i].isError
  }

  /** Every call of the turn's message has exactly its one result, in source order. */
  predicate IsSettled(t: Turn)
  {
    && !EndsBadly(t.assistant)
    && |t.results| == |ToolCalls(t.assistant.content)|
    && AnswersPrefix(ToolCalls(t.assistant.content), t.results)
    && TruncationKept(t)
  }

  /** What the last turn of a run may look like. */
  predicate IsLast(t: Turn, aborted: bool)
  {
    || IsSettled(t)
    || (EndsBadly(t.assistant) && t.results == [] && t.bodies == 0)
    || (aborted && !EndsBadly(t.assistant) && AnswersPrefix(ToolCalls(t.assistant.content), t.results)
        && TruncationKept(t))
  }

  lemma BatchAnswers(box: Toolbox, calls: seq<ToolCall>, aborted: bool, fs: seq<Finalized>)
    requires IsBatch(JobsOf(box, calls), aborted, fs)
    ensures AnswersPrefix(calls, ResultMessages(fs)) && (!aborted ==> |fs| == |calls|)
  {
    forall i | 0 <= i < |fs| ensures Answers(calls[i], ResultMessages(fs)[i]) {
      assert JobsOf(box, calls)[i] == JobOf(box, calls[i]);
    }
  }

  // -------------------------------------------------------------------- a turn

  datatype Outcome = Failed | AbortedAfter | Next(hasMore: bool)

  /** Puts the pending messages in the conversation, each with its two events. */
  method Inject(run: LoopRun, pending: seq<Message>)
    requires run.Valid() && run.phase == QUIET_TURN
    modifies run`context, run`newMessages, run`trace, run`moments, run`phase, run`mostOpen, run`ended, run.sink
    ensures run.Valid() && run.phase == QUIET_TURN
    ensures run.context == old(run.context) + pending && run.newMessages == old(run.newMessages) + pending
    ensures run.ended == old(run.ended) + pending
  {
    for k := 0 to |pending|
      invariant run.Valid() && run.phase == QUIET_TURN
      invariant run.context == old(run.context) + pending[..k]
      invariant run.newMessages == old(run.newMessages) + pending[..k]
      invariant run.ended == old(run.ended) + pending[..k]
    {
      run.Emit(MessageStart(pending[k]));
      run.Emit(MessageEnd(pending[k]));
      run.context, run.newMessages := run.context + [pending[k]], run.newMessages + [pending[k]];
      assert pending[..k + 1] == pending[..k] + [pending[k]];
    }
    assert pending[..|pending|] == pending;
  }

  /** The tool calls of a message that arrived whole or truncated. */
  method AnswerCalls(run: LoopRun, assistant: Assistant, box: Toolbox)
    returns (results: seq<Message>, hasMore: bool)
    requires run.Valid() && run.phase == QUIET_TURN && !EndsBadly(assistant)
    modifies run`trace, run`moments, run`phase, run`mostOpen, run`ended, run`bodies, run.sink, run.Shared()
    ensures run.Valid() && run.phase.InTurn? && run.phase.message.None? && run.phase.open == map[]
    ensures run.ended == old(run.ended) + results
    ensures AnswersPrefix(ToolCalls(assistant.content), results)
    ensures !run.signal.aborted ==> |results| == |ToolCalls(assistant.content)|
    ensures assistant.stopReason == Length ==>
              && run.bodies == old(run.bodies) && |results| == |ToolCalls(assistant.content)|
              && forall i :: 0 <= i < |results| ==> results[i].ToolResultMessage? && results[i].isError
    ensures hasMore ==> results != []
    ensures old(run.signal.aborted) ==> run.signal.aborted
    ensures run.steering.delivered == old(run.steering.delivered)
    ensures run.followUp.delivered == old(run.followUp.delivered)
  {
    var calls := ToolCalls(assistant.content);
    results, hasMore := [], false;
    if calls != [] {
      var batch: ExecutedBatch;
      if assistant.stopReason == Length {
        batch := FailTruncated(run, calls);
      } else {
        ghost var fs;
        batch, fs := ExecuteToolCalls(run, box, calls);
        BatchAnswers(box, calls, run.signal.aborted, fs);
      }
      results, hasMore := batch.messages, !batch.terminate;
    }
  }

  /** The rest of a turn whose message neither failed nor was aborted. */
  method CloseTurn(run: LoopRun, assistant: Assistant, box: Toolbox)
    returns (outcome: Outcome, results: seq<Message>)
    requires run.Valid() && run.phase == QUIET_TURN && !EndsBadly(assistant)
    modifies run, run.sink, run.Shared()
    ensures run.Valid() && run.phase == BetweenTurns
    ensures run.context == old(run.context) + results && run.newMessages == old(run.newMessages) + results
    ensures run.ended == old(run.ended) + results
    ensures outcome.Next? || outcome.AbortedAfter?
    ensures AnswersPrefix(ToolCalls(assistant.content), results)
    ensures if outcome.AbortedAfter? then run.signal.aborted else |results| == |ToolCalls(assistant.content)|
    ensures assistant.stopReason == Length ==>
              && run.bodies == old(run.bodies) && |results| == |ToolCalls(assistant.content)|
              && forall i :: 0 <= i < |results| ==> results[i].ToolResultMessage? && results[i].isError
    ensures old(run.signal.aborted) ==> run.signal.aborted
    ensures run.steering.delivered == old(run.steering.delivered)
    ensures run.followUp.delivered == old(run.followUp.delivered)
  {
    var hasMore;
    results, hasMore := AnswerCalls(run, assistant, box);
    run.context, run.newMessages := run.context + results, run.newMessages + results;
    run.Emit(TurnEnd(assistant, results));
    run.Interference();
    outcome := if run.signal.aborted then AbortedAfter else Next(hasMore);
  }

  /** The turn's start event and its injected messages. */
  method OpenTurn(run: LoopRun, firstTurn: bool, pending: seq<Message>)
    requires run.Valid() && run.phase == if firstTurn then QUIET_TURN else BetweenTurns
    modifies run`context, run`newMessages, run`trace, run`moments, run`phase, run`mostOpen, run`ended, run.sink
    ensures run.Valid() && run.phase == QUIET_TURN
    ensures run.context == old(run.context) + pending && run.newMessages == old(run.newMessages) + pending
    ensures run.ended == old(run.ended) + pending
  {
    if !firstTurn {
      run.Emit(TurnStart);
    }
    Inject(run, pending);
  }

  /** A turn up to its assistant message. */
  method BeginTurn(run: LoopRun, input: TurnInput, firstTurn: bool, pending: seq<Message>)
    returns (assistant: Assistant)
    requires run.Valid() && run.phase == if firstTurn then QUIET_TURN else BetweenTurns
    modifies run, run.sink, run.Shared()
    ensures run.Valid() && run.phase == QUIET_TURN
    ensures run.context == old(run.context) + pending + [AssistantMessage(assistant)]
    ensures run.newMessages == old(run.newMessages) + pending + [AssistantMessage(assistant)]
    ensures run.ended == old(run.ended) + pending + [AssistantMessage(assistant)]
    ensures IsAnswer(input.events, input.result, run.signal.aborted, assistant)
    ensures run.bodies == old(run.bodies)
    ensures old(run.signal.aborted) ==> run.signal.aborted
    ensures run.steering.delivered == old(run.steering.delivered)
    ensures run.followUp.delivered == old(run.followUp.delivered)
  {
    OpenTurn(run, firstTurn, pending);
    assistant := StreamAssistantResponse(run, input.events, input.result);
    run.newMessages := run.newMessages + [AssistantMessage(assistant)];
  }

  /** A turn behind its assistant message: the turn ends at once when the message
      failed or was aborted, and when its calls are answered otherwise. */
  method FinishTurn(run: LoopRun, assistant: Assistant, box: Toolbox, pending: seq<Message>, ghost source: Source)
    returns (outcome: Outcome, ghost turn: Turn)
    requires run.Valid() && run.phase == QUIET_TURN
    modifies run, run.sink, run.Shared()
    ensures run.Valid() && run.phase == BetweenTurns
    ensures run.context == old(run.context) + turn.results && run.newMessages == old(run.newMessages) + turn.results
    ensures run.ended == old(run.ended) + turn.results
    ensures turn.assistant == assistant && turn.injected == pending && turn.source == source
    ensures turn.bodies == run.bodies - old(run.bodies)
    ensures IsLast(turn, run.signal.aborted) && (outcome.Next? ==> IsSettled(turn))
    ensures outcome.Failed? <==> EndsBadly(assistant)
    ensures old(run.signal.aborted) ==> run.signal.aborted
    ensures run.steering.delivered == old(run.steering.delivered)
    ensures run.followUp.delivered == old(run.followUp.delivered)
  {
    if EndsBadly(assistant) {
      run.Emit(TurnEnd(assistant, []));
      outcome, turn := Failed, Turn(source, pending, assistant, [], 0);
    } else {
      var results;
      outcome, results := CloseTurn(run, assistant, box);
      turn := Turn(source, pending, assistant, results, run.bodies - old(run.bodies));
    }
  }

  /** One pass of the inner loop, up to its abort check. */
  method RunTurn(run: LoopRun, input: TurnInput, firstTurn: bool, pending: seq<Message>, ghost source: Source)
    returns (outcome: Outcome, ghost turn: Turn)
    requires run.Valid() && run.phase == if firstTurn then QUIET_TURN else BetweenTurns
    modifies run, run.sink, run.Shared()
    ensures run.Valid() && run.phase == BetweenTurns
    ensures run.context == old(run.context) + TurnMessages(turn)
    ensures run.newMessages == old(run.newMessages) + TurnMessages(turn)
    ensures run.ended == old(run.ended) + TurnMessages(turn)
    ensures turn.injected == pending && turn.source == source && turn.bodies == run.bodies - old(run.bodies)
    ensures IsAnswer(input.events, input.result, run.signal.aborted, turn.assistant)
    ensures IsLast(turn, run.signal.aborted)
    ensures outcome.Next? ==> IsSettled(turn)
    ensures outcome.Failed? <==> EndsBadly(turn.assistant)
    ensures old(run.signal.aborted) ==> run.signal.aborted
    ensures run.steering.delivered == old(run.steering.delivered)
    ensures run.followUp.delivered == old(run.followUp.delivered)
  {
    var assistant := BeginTurn(run, input, firstTurn, pending);
    outcome, turn := FinishTurn(run, assistant, input.box, pending, source);
  }

  // ------------------------------------------------------------------ the loop

  /** Where a run stood when its loop began. */
  datatype Origin = Origin(
    context: seq<Message>, newMessages: seq<Message>, ended: seq<Message>,
    steering: seq<Message>, followUp: seq<Message>)

  ghost function OriginOf(run: LoopRun): Origin
    reads run.Repr()
  {
    Origin(run.context, run.newMessages, run.ended, run.steering.delivered, run.followUp.delivered)
  }

  /** The three histories have grown by the same messages, and what was drained
      from each queue is what the turns injected, in order, and what is carried
      to the next turn. */
  ghost predicate Ledger(run: LoopRun, from: Origin, account: Account, carriedFrom: Source, carried: seq<Message>)
    reads run.Repr()
  {
    && run.Valid()
    && run.context == from.context + account.messages
    && run.newMessages == from.newMessages + account.messages
    && run.ended == from.ended + account.messages
    && run.steering.delivered == from.steering + account.steered + (if carriedFrom == Steering then carried else [])
    && run.followUp.delivered == from.followUp + account.followed + (if carriedFrom == FollowUp then carried else [])
  }

  lemma OpensLedger(run: LoopRun)
    requires run.Valid()
    ensures Ledger(run, OriginOf(run), Tally([]), Steering, [])
  {
  }

  predicate AllSettled(turns: seq<Turn>)
  {
    forall i :: 0 <= i < |turns| ==> IsSettled(turns[i])
  }

  /** Every turn but the last is settled, and the last may be cut short. */
  predicate SettledButLast(turns: seq<Turn>, aborted: bool)
  {
    turns != [] ==> AllSettled(turns[..|turns| - 1]) && IsLast(turns[|turns| - 1], aborted)
  }

  lemma OneMoreTurn(turns: seq<Turn>, turn: Turn, aborted: bool)
    requires AllSettled(turns) && IsLast(turn, aborted)
    ensures SettledButLast(turns + [turn], aborted)
    ensures IsSettled(turn) ==> AllSettled(turns + [turn])
    ensures Tally(turns + [turn]) == Credit(Tally(turns), turn)
  {
    assert (turns + [turn])[..|turns|] == turns;
  }

  lemma SettledTurns(turns: seq<Turn>, aborted: bool)
    requires AllSettled(turns)
    ensures SettledButLast(turns, aborted)
  {
  }

  /** The assistant messages and tool results of the turns: what the loop itself
      adds, besides what it takes from the queues. */
  function Produced(turns: seq<Turn>): seq<Message>
  {
    if turns == [] then []
    else
      var last := turns[|turns| - 1];
      Produced(turns[..|turns| - 1]) + Own(last)
  }

  function Own(t: Turn): seq<Message>
  {
    [AssistantMessage(t.assistant)] + t.results
  }

  lemma Regroup(all: seq<Message>, a: seq<Message>, b: seq<Message>, c: seq<Message>, x: seq<Message>, y: seq<Message>)
    requires multiset(all) == multiset(a) + multiset(b) + multiset(c)
    ensures multiset((all + x) + y) == multiset(a + x) + multiset(b) + multiset(c + y)
    ensures multiset((all + x) + y) == multiset(a) + multiset(b + x) + multiset(c + y)
  {
  }

  predicate Balanced(a: Account, produced: seq<Message>)
  {
    multiset(a.messages) == multiset(a.steered) + multiset(a.followed) + multiset(produced)
  }

  lemma CreditBalances(a: Account, produced: seq<Message>, t: Turn)
    requires Balanced(a, produced)
    ensures Balanced(Credit(a, t), produced + Own(t))
  {
    assert Credit(a, t).messages == (a.messages + t.injected) + Own(t);
    assert a.followed + [] == a.followed && a.steered + [] == a.steered;
    Regroup(a.messages, a.steered, a.followed, produced, t.injected, Own(t));
  }

  /** Every drained message stands in the conversation exactly as often as it was
      drained: none is lost and none is delivered twice. */
  lemma {:induction false} DrainedOnceEach(turns: seq<Turn>)
    ensures Balanced(Tally(turns), Produced(turns))
  {
    if turns != [] {
      DrainedOnceEach(turns[..|turns| - 1]);
      CreditBalances(Tally(turns[..|turns| - 1]), Produced(turns[..|turns| - 1]), turns[|turns| - 1]);
    }
  }

  lemma {:induction false} TallyPrefix(turns: seq<Turn>, k: nat)
    requires k <= |turns|
    ensures Tally(turns[..k]).messages <= Tally(turns).messages
    decreases |turns|
  {
    if k == |turns| {
      assert turns[..k] == turns;
    } else {
      assert turns[..|turns| - 1][..k] == turns[..k];
      TallyPrefix(turns[..|turns| - 1], k);
    }
  }

  /** The place of turn `k`'s assistant message among the messages of the turns. */
  function Place(turns: seq<Turn>, k: nat): nat
    requires k < |turns|
  {
    |Tally(turns[..k]).messages| + |turns[k].injected|
  }

  lemma TurnStands(turns: seq<Turn>, k: nat)
    requires k < |turns|
    ensures var ms, at, n := Tally(turns).messages, Place(turns, k), |turns[k].results|;
            && at + n < |ms| && ms[at] == AssistantMessage(turns[k].assistant)
            && ms[at + 1..at + 1 + n] == turns[k].results
            && (if k == |turns| - 1 then at + 1 + n == |ms|
                else at + 1 + n + |turns[k + 1].injected| == Place(turns, k + 1))
  {
    var ms, at, t := Tally(turns).messages, Place(turns, k), turns[k];
    TallyPrefix(turns, k + 1);
    assert turns[..k + 1][..k] == turns[..k];
    var before, through := Tally(turns[..k]).messages, Tally(turns[..k + 1]).messages;
    assert through == (before + t.injected) + [AssistantMessage(t.assistant)] + t.results;
    assert through[at + 1..] == t.results;
    assert ms[..|through|] == through;
    assert ms[at + 1..at + 1 + |t.results|] == through[at + 1..];
    if k == |turns| - 1 {
      assert turns[..k + 1] == turns;
    }
  }

  /** In the conversation itself: the assistant message of every turn is followed at
      once by its results, one per tool call in source order, except that the last
      turn of an aborted run may lack some and a failed last message has none; and
      what comes next is no further result of the same message. */
  lemma EveryCallAnswered(turns: seq<Turn>, aborted: bool, k: nat)
    requires SettledButLast(turns, aborted) && k < |turns|
    ensures var ms, at, calls := Tally(turns).messages, Place(turns, k), ToolCalls(turns[k].assistant.content);
            var n := |turns[k].results|;
            && at + n < |ms| && ms[at] == AssistantMessage(turns[k].assistant)
            && AnswersPrefix(calls, ms[at + 1..at + 1 + n])
            && (n < |calls| ==> k == |turns| - 1 && (aborted || EndsBadly(turns[k].assistant)))
            && (if k == |turns| - 1 then at + 1 + n == |ms|
                else at + 1 + n + |turns[k + 1].injected| == Place(turns, k + 1))
  {
    TurnStands(turns, k);
    if k < |turns| - 1 {
      assert turns[..|turns| - 1][k] == turns[k];
    }
  }

  /** A turn within the ledger. */
  method LedgerTurn(run: LoopRun, input: TurnInput, firstTurn: bool, pending: seq<Message>,
                    ghost source: Source, ghost from: Origin, ghost account: Account)
    returns (outcome: Outcome, ghost turn: Turn)
    requires run.phase == if firstTurn then QUIET_TURN else BetweenTurns
    requires Ledger(run, from, account, source, pending)
    modifies run, run.sink, run.Shared()
    ensures Ledger(run, from, Credit(account, turn), Steering, []) && run.phase == BetweenTurns
    ensures IsLast(turn, run.signal.aborted) && (outcome.Next? ==> IsSettled(turn))
    ensures outcome.Failed? <==> EndsBadly(turn.assistant)
    ensures old(run.signal.aborted) ==> run.signal.aborted
  {
    outcome, turn := RunTurn(run, input, firstTurn, pending, source);
  }

  /** Runs one more turn and books it. */
  method BookTurn(run: LoopRun, input: TurnInput, pending: seq<Message>,
                  ghost source: Source, ghost from: Origin, turnCount: nat, ghost before: seq<Turn>)
    returns (outcome: Outcome, ghost turns: seq<Turn>)
    requires run.phase == if turnCount == 0 then QUIET_TURN else BetweenTurns
    requires turnCount == |before| && AllSettled(before) && Ledger(run, from, Tally(before), source, pending)
    modifies run, run.sink, run.Shared()
    ensures Ledger(run, from, Tally(turns), Steering, []) && run.phase == BetweenTurns
    ensures |turns| == |before| + 1 && SettledButLast(turns, run.signal.aborted)
    ensures outcome.Next? ==> AllSettled(turns)
  {
    ghost var turn;
    outcome, turn := LedgerTurn(run, input, turnCount == 0, pending, source, from, Tally(before));
    OneMoreTurn(before, turn, run.signal.aborted);
    turns := before + [turn];
  }

  /** Polls the steering queue, unless this poll is the one to be skipped. */
  method PollSteering(run: LoopRun, skip: bool, ghost from: Origin, ghost account: Account)
    returns (pending: seq<Message>)
    requires Ledger(run, from, account, Steering, [])
    modifies run.Shared()
    ensures Ledger(run, from, account, Steering, pending)
    ensures skip ==> pending == []
    ensures old(run.signal.aborted) ==> run.signal.aborted
  {
    run.Interference();
    pending := [];
    if !skip {
      pending := run.steering.Drain();
    }
  }

  method PollFollowUp(run: LoopRun, ghost from: Origin, ghost account: Account) returns (pending: seq<Message>)
    requires Ledger(run, from, account, Steering, [])
    modifies run.Shared()
    ensures Ledger(run, from, account, FollowUp, pending)
    ensures pending == [] ==> Ledger(run, from, account, Steering, [])
    ensures old(run.signal.aborted) ==> run.signal.aborted
  {
    run.Interference();
    pending := run.followUp.Drain();
  }

  method EndRun(run: LoopRun, ghost from: Origin, ghost account: Account)
    requires Ledger(run, from, account, Steering, []) && run.phase == BetweenTurns
    modifies run`trace, run`moments, run`phase, run`mostOpen, run`ended, run.sink
    ensures Ledger(run, from, account, Steering, []) && run.phase == Finished
    ensures run.trace != [] && run.trace[|run.trace| - 1] == AgentEnd(run.newMessages)
  {
    run.Emit(AgentEnd(run.newMessages));
  }

  /** One pass of the inner loop: a turn, and then either the end of the run or the
      next poll of the steering queue. */
  method PassTurn(run: LoopRun, input: TurnInput, pending: seq<Message>,
                  ghost source: Source, ghost from: Origin, turnCount: nat, ghost before: seq<Turn>)
    returns (ended: bool, hasMore: bool, next: seq<Message>, ghost turns: seq<Turn>)
    requires run.phase == if turnCount == 0 then QUIET_TURN else BetweenTurns
    requires turnCount == |before| && AllSettled(before) && Ledger(run, from, Tally(before), source, pending)
    modifies run, run.sink, run.Shared()
    ensures Ledger(run, from, Tally(turns), Steering, next) && |turns| == |before| + 1
    ensures SettledButLast(turns, run.signal.aborted)
    ensures ended ==> run.phase == Finished && next == [] && run.trace != []
                      && run.trace[|run.trace| - 1] == AgentEnd(run.newMessages)
    ensures !ended ==> run.phase == BetweenTurns && AllSettled(turns)
  {
    var outcome;
    outcome, turns := BookTurn(run, input, pending, source, from, turnCount, before);
    ended := !outcome.Next? || input.stop;
    if ended {
      EndRun(run, from, Tally(turns));
      hasMore, next := false, [];
    } else {
      hasMore := outcome.hasMore;
      next := PollSteering(run, false, from, Tally(turns));
      SettledTurns(turns, run.signal.aborted);
    }
  }

  /** How the inner loop is left: the run has ended, the horizon is reached, or
      there is neither a call nor a steering message to go on with. */
  datatype Exit = RunEnded | OutOfTurns | Exhausted

  /** The inner loop, with the messages to be injected in its first pass. */
  method RunInner(run: LoopRun, inputs: nat -> TurnInput, horizon: nat, pending: seq<Message>,
                  ghost source: Source, ghost from: Origin, turnCount: nat, ghost before: seq<Turn>)
    returns (exit: Exit, t: nat, carried: seq<Message>, ghost carriedFrom: Source, ghost turns: seq<Turn>)
    requires run.phase == if turnCount == 0 then QUIET_TURN else BetweenTurns
    requires turnCount == |before| <= horizon && AllSettled(before)
    requires Ledger(run, from, Tally(before), source, pending)
    modifies run, run.sink, run.Shared()
    ensures Ledger(run, from, Tally(turns), carriedFrom, carried)
    ensures t == |turns| <= horizon && SettledButLast(turns, run.signal.aborted)
    ensures exit.RunEnded? ==>
              && run.phase == Finished && carried == [] && turns != []
              && run.trace != [] && run.trace[|run.trace| - 1] == AgentEnd(run.newMessages)
    ensures !exit.RunEnded? ==> AllSettled(turns) && run.phase == if t == 0 then QUIET_TURN else BetweenTurns
    ensures exit.OutOfTurns? ==> t == horizon
    ensures exit.Exhausted? ==> t > turnCount && carriedFrom == Steering && carried == []
  {
    var hasMore := true;
    t, carried, carriedFrom, turns := turnCount, pending, source, before;
    while hasMore || carried != []
      invariant t == |turns| <= horizon && AllSettled(turns)
      invariant Ledger(run, from, Tally(turns), carriedFrom, carried)
      invariant run.phase == if t == 0 then QUIET_TURN else BetweenTurns
      invariant if hasMore then t >= turnCount else t > turnCount && carriedFrom == Steering
      decreases horizon - t
    {
      if t == horizon {
        SettledTurns(turns, run.signal.aborted);
        exit := OutOfTurns;
        return;
      }
      var ended;
      ended, hasMore, carried, turns := PassTurn(run, inputs(t), carried, carriedFrom, from, t, turns);
      t, carriedFrom := t + 1, Steering;
      if ended {
        exit := RunEnded;
        return;
      }
    }
    SettledTurns(turns, run.signal.aborted);
    exit := Exhausted;
  }

  /** The loop.  `finished` tells whether the run ended within `horizon` turns;
      `carried` is what it had drained and not yet injected when it had not. */
  method RunLoop(run: LoopRun, inputs: nat -> TurnInput, horizon: nat, skipInitialPoll: bool)
    returns (finished: bool, carried: seq<Message>, ghost carriedFrom: Source, ghost turns: seq<Turn>)
    requires run.Valid() && run.phase == QUIET_TURN
    modifies run, run.sink, run.Shared()
    ensures Ledger(run, old(OriginOf(run)), Tally(turns), carriedFrom, carried)
    ensures SettledButLast(turns, run.signal.aborted) && |turns| <= horizon
    ensures finished ==>
              && run.phase == Finished && carried == [] && turns != []
              && run.trace != [] && run.trace[|run.trace| - 1] == AgentEnd(run.newMessages)
    ensures !finished ==> |turns| == horizon && AllSettled(turns)
    ensures !finished ==> run.phase == if horizon == 0 then QUIET_TURN else BetweenTurns
  {
    ghost var from := OriginOf(run);
    turns := [];
    OpensLedger(run);
    var t := 0;
    carriedFrom := Steering;
    carried := PollSteering(run, skipInitialPoll, from, Tally(turns));
    while true
      invariant t == |turns| <= horizon && AllSettled(turns)
      invariant Ledger(run, from, Tally(turns), carriedFrom, carried)
      invariant run.phase == if t == 0 then QUIET_TURN else BetweenTurns
      decreases horizon - t
    {
      var exit;
      exit, t, carried, carriedFrom, turns := RunInner(run, inputs, horizon, carried, carriedFrom, from, t, turns);
      if !exit.Exhausted? {
        finished := exit.RunEnded?;
        return;
      }
      carriedFrom := FollowUp;
      carried := PollFollowUp(run, from, Tally(turns));
      if carried == [] {
        break;
      }
    }
    carriedFrom := Steering;
    EndRun(run, from, Tally(turns));
    SettledTurns(turns, run.signal.aborted);
    finished := true;
  }
}
