/**
 Messages and lifecycle events of an agent run, and what it means for a trace of
 such events to be well bracketed.

 Tool-call ids may repeat inside one message, so the tool events of the model
 carry the position of their call in its message next to the id.  The position
 is a label of the model: the program's events carry the id alone.
 */
module AgentEvents {
  import opened Options

  datatype StopReason = Stop | Length | ToolUse | Error | Aborted

  datatype ToolCall = ToolCall(id: string, name: string, arguments: string)

  datatype Block = Text(text: string) | Thinking(text: string) | Image(data: string) | Call(call: ToolCall)

  datatype Assistant = Assistant(content: seq<Block>, stopReason: StopReason, errorMessage: Option<string>)

  /** A message that ended in an error or an abort. */
  predicate EndsBadly(a: Assistant)
  {
    a.stopReason == Error || a.stopReason == Aborted
  }

  datatype ToolOutput = ToolOutput(
    content: string, details: string, terminate: Option<bool>, addedToolNames: Option<seq<string>>)

  /** `UserMessage` also stands for the custom messages an application defines. */
  datatype Message =
    | UserMessage(text: string)
    | AssistantMessage(assistant: Assistant)
    | ToolResultMessage(callId: string, toolName: string, content: string, details: string,
                        addedToolNames: Option<seq<string>>, isError: bool)

  datatype AgentEvent =
    | AgentStart
    | AgentEnd(messages: seq<Message>)
    | TurnStart
    | TurnEnd(message: Assistant, toolResults: seq<Message>)
    | MessageStart(started: Message)
    | MessageUpdate(partial: Message)
    | MessageEnd(ended: Message)
    | ToolStart(position: nat, call: ToolCall)
    | ToolUpdate(position: nat, callId: string, progress: string)
    | ToolEnd(position: nat, callId: string, output: ToolOutput, isError: bool)

  /** The tool calls of a message, in source order. */
  function ToolCalls(content: seq<Block>): (calls: seq<ToolCall>)
  {
    if content == [] then []
    else (if content[0].Call? then [content[0].call] else []) + ToolCalls(content[1..])
  }

  // ---------------------------------------------------------------- bracketing

  /** Where a reader of the trace stands.  `open` maps the position of every tool
      execution that has started and not ended to the id of its call. */
  datatype Phase =
    | NotStarted
    | BetweenTurns
    | InTurn(message: Option<Message>, open: map<nat, string>, announced: nat)
    | Finished
    | Broken

  /** How many tool executions are open. */
  function OpenCount(p: Phase): nat
  {
    if p.InTurn? then |p.open| else 0
  }

  const QUIET_TURN := InTurn(None, map[], 0)

  predicate SameSpeaker(a: Message, b: Message)
  {
    (a.AssistantMessage? && b.AssistantMessage?) || a == b
  }

  /** One event read; `Broken` when the event does not belong here. */
  function Advance(p: Phase, e: AgentEvent): Phase
  {
    match e
    case AgentStart => if p.NotStarted? then BetweenTurns else Broken
    case AgentEnd(_) => if p.BetweenTurns? then Finished else Broken
    case TurnStart => if p.BetweenTurns? then QUIET_TURN else Broken
    case TurnEnd(_, _) => if p.InTurn? && p.message.None? && p.open == map[] then BetweenTurns else Broken
    case MessageStart(m) =>
      if p.InTurn? && p.message.None? && p.open == map[] then p.(message := Some(m)) else Broken
    case MessageUpdate(m) =>
      if p.InTurn? && p.message.Some? && p.message.value.AssistantMessage? && m.AssistantMessage? then p else Broken
    case MessageEnd(m) =>
      if p.InTurn? && p.message.Some? && SameSpeaker(p.message.value, m) then p.(message := None) else Broken
    case ToolStart(i, call) =>
      if p.InTurn? && p.message.None? && i == p.announced
      then p.(open := p.open[i := call.id], announced := i + 1) else Broken
    case ToolUpdate(i, id, _) =>
      if p.InTurn? && p.message.None? && i in p.open && p.open[i] == id then p else Broken
    case ToolEnd(i, id, _, _) =>
      if p.InTurn? && p.message.None? && i in p.open && p.open[i] == id
      then p.(open := p.open - {i}) else Broken
  }

  /** A whole trace read from phase `from`. */
  function Scan(from: Phase, trace: seq<AgentEvent>): Phase
  {
    if trace == [] then from
    else Advance(Scan(from, trace[..|trace| - 1]), trace[|trace| - 1])
  }

  /** The messages of the `message_end` events, in order. */
  function MessageEnds(trace: seq<AgentEvent>): seq<Message>
  {
    if trace == [] then []
    else
      var last := trace[|trace| - 1];
      MessageEnds(trace[..|trace| - 1]) + (if last.MessageEnd? then [last.ended] else [])
  }

  lemma ScanSnoc(from: Phase, trace: seq<AgentEvent>, e: AgentEvent)
    ensures Scan(from, trace + [e]) == Advance(Scan(from, trace), e)
    ensures MessageEnds(trace + [e]) == MessageEnds(trace) + (if e.MessageEnd? then [e.ended] else [])
  {
    assert (trace + [e])[..|trace|] == trace;
  }

  lemma {:induction false} ScanAppend(from: Phase, a: seq<AgentEvent>, b: seq<AgentEvent>)
    ensures Scan(from, a + b) == Scan(Scan(from, a), b)
    ensures MessageEnds(a + b) == MessageEnds(a) + MessageEnds(b)
    decreases |b|
  {
    if b == [] {
      assert a + b == a;
    } else {
      var front, last := b[..|b| - 1], b[|b| - 1];
      ScanAppend(from, a, front);
      assert a + b == (a + front) + [last];
      ScanSnoc(from, a + front, last);
    }
  }

  lemma {:induction false} BrokenForever(trace: seq<AgentEvent>)
    ensures Scan(Broken, trace) == Broken
  {
    if trace != [] {
      BrokenForever(trace[..|trace| - 1]);
    }
  }

  /** A trace that is not broken has no broken prefix. */
  lemma PrefixUnbroken(from: Phase, trace: seq<AgentEvent>, k: nat)
    requires k <= |trace|
    requires Scan(from, trace) != Broken
    ensures Scan(from, trace[..k]) != Broken
  {
    assert trace == trace[..k] + trace[k..];
    ScanAppend(from, trace[..k], trace[k..]);
    if Scan(from, trace[..k]) == Broken {
      BrokenForever(trace[k..]);
    }
  }

  /** A well-bracketed trace opens with its one agent_start and, once finished,
      closes with its one agent_end. */
  lemma {:induction false} OneStartOneEnd(trace: seq<AgentEvent>)
    requires Scan(NotStarted, trace) != Broken && trace != []
    ensures trace[0].AgentStart? && forall k :: 0 < k < |trace| ==> !trace[k].AgentStart?
    ensures forall k :: 0 <= k < |trace| - 1 ==> !trace[k].AgentEnd?
    ensures Scan(NotStarted, trace) == Finished <==> trace[|trace| - 1].AgentEnd?
    ensures !Scan(NotStarted, trace).NotStarted?
  {
    var n := |trace| - 1;
    if n > 0 {
      PrefixUnbroken(NotStarted, trace, n);
      OneStartOneEnd(trace[..n]);
      assert forall k :: 0 <= k < n ==> trace[..n][k] == trace[k];
    } else {
      assert trace[..0] == [];
    }
  }

  /** A stretch of a turn in which only tools were at work: `open` of them are
      still open and `announced` have been started. */
  predicate ToolsOnly(trace: seq<AgentEvent>, open: map<nat, string>, announced: nat)
  {
    && Scan(QUIET_TURN, trace) == InTurn(None, open, announced)
    && MessageEnds(trace) == []
    && forall k :: 0 <= k < |trace| ==> !trace[k].TurnStart?
  }

  lemma ToolStarts(trace: seq<AgentEvent>, open: map<nat, string>, announced: nat, call: ToolCall)
    requires ToolsOnly(trace, open, announced)
    ensures ToolsOnly(trace + [ToolStart(announced, call)], open[announced := call.id], announced + 1)
  {
    ScanSnoc(QUIET_TURN, trace, ToolStart(announced, call));
  }

  lemma ToolUpdates(trace: seq<AgentEvent>, open: map<nat, string>, announced: nat, i: nat, progress: string)
    requires ToolsOnly(trace, open, announced) && i in open
    ensures ToolsOnly(trace + [ToolUpdate(i, open[i], progress)], open, announced)
  {
    ScanSnoc(QUIET_TURN, trace, ToolUpdate(i, open[i], progress));
  }

  lemma ToolEnds(trace: seq<AgentEvent>, open: map<nat, string>, announced: nat, i: nat, output: ToolOutput,
                 isError: bool)
    requires ToolsOnly(trace, open, announced) && i in open
    ensures ToolsOnly(trace + [ToolEnd(i, open[i], output, isError)], open - {i}, announced)
  {
    ScanSnoc(QUIET_TURN, trace, ToolEnd(i, open[i], output, isError));
  }

  // -------------------------------------- what a bracketed trace says of positions

  predicate StartedIn(trace: seq<AgentEvent>, i: nat)
  {
    exists k :: 0 <= k < |trace| && trace[k].ToolStart? && trace[k].position == i
  }

  predicate EndedIn(trace: seq<AgentEvent>, i: nat)
  {
    exists k :: 0 <= k < |trace| && trace[k].ToolEnd? && trace[k].position == i
  }

  /** Inside one turn, an execution is open exactly from its start to its end. */
  lemma {:induction false} OpenIffStartedNotEnded(trace: seq<AgentEvent>, i: nat)
    requires Scan(QUIET_TURN, trace).InTurn?
    requires forall k :: 0 <= k < |trace| ==> !trace[k].TurnStart?
    ensures i < Scan(QUIET_TURN, trace).announced <==> StartedIn(trace, i)
    ensures i in Scan(QUIET_TURN, trace).open <==> (StartedIn(trace, i) && !EndedIn(trace, i))
    ensures EndedIn(trace, i) ==> StartedIn(trace, i)
    decreases |trace|
  {
    if trace != [] {
      var n := |trace| - 1;
      var front, last := trace[..n], trace[n];
      PrefixUnbroken(QUIET_TURN, trace, n);
      assert Scan(QUIET_TURN, trace) == Advance(Scan(QUIET_TURN, front), last);
      assert forall k :: 0 <= k < |front| ==> front[k] == trace[k];
      OpenIffStartedNotEnded(front, i);
      assert forall k :: 0 <= k < |trace| ==> k == n || trace[k] == front[k];
    }
  }

  /** Every progress update and every end lies after the start of its own call
      and before any end of it, and a call starts and ends at most once. */
  lemma ToolEventsLieInside(trace: seq<AgentEvent>, k: nat)
    requires k < |trace|
    requires Scan(QUIET_TURN, trace).InTurn?
    requires forall j :: 0 <= j < |trace| ==> !trace[j].TurnStart?
    ensures trace[k].ToolUpdate? || trace[k].ToolEnd? ==>
              StartedIn(trace[..k], trace[k].position) && !EndedIn(trace[..k], trace[k].position)
    ensures trace[k].ToolStart? ==> !StartedIn(trace[..k], trace[k].position)
  {
    PrefixUnbroken(QUIET_TURN, trace, k + 1);
    assert trace[..k + 1][..k] == trace[..k];
    PrefixUnbroken(QUIET_TURN, trace, k);
    if trace[k].ToolUpdate? || trace[k].ToolEnd? || trace[k].ToolStart? {
      OpenIffStartedNotEnded(trace[..k], trace[k].position);
    }
  }

  // ------------------------------------------------------------- in a whole trace

  /** Event `b` starts the turn that event `k` belongs to. */
  predicate StartsTurnOf(trace: seq<AgentEvent>, b: nat, k: nat)
    requires k <= |trace|
  {
    b < k && trace[b].TurnStart? && forall j :: b < j < k ==> !trace[j].TurnStart?
  }

  /** Inside a turn, reading the whole trace and reading the turn alone are the same. */
  lemma {:induction false} TurnAlone(trace: seq<AgentEvent>, k: nat) returns (b: nat)
    requires k <= |trace| && Scan(NotStarted, trace[..k]).InTurn?
    ensures StartsTurnOf(trace, b, k)
    ensures Scan(QUIET_TURN, trace[b + 1..k]) == Scan(NotStarted, trace[..k])
  {
    var n := k - 1;
    assert trace[..k][..n] == trace[..n];
    if trace[n].TurnStart? {
      b := n;
      assert trace[b + 1..k] == [];
    } else {
      b := TurnAlone(trace, n);
      assert trace[b + 1..k][..n - b - 1] == trace[b + 1..n];
    }
  }

  /** In a whole well-bracketed trace, every progress update and every end of a tool
      execution lies after the start of its own call in the same turn and before any
      end of it, and in one turn a call starts at most once. */
  lemma ToolEventsLieInTheirTurn(trace: seq<AgentEvent>, k: nat) returns (b: nat)
    requires Scan(NotStarted, trace) != Broken && k < |trace|
    requires trace[k].ToolStart? || trace[k].ToolUpdate? || trace[k].ToolEnd?
    ensures StartsTurnOf(trace, b, k)
    ensures var turn, i := trace[b + 1..k], trace[k].position;
            if trace[k].ToolStart? then !StartedIn(turn, i) else StartedIn(turn, i) && !EndedIn(turn, i)
  {
    PrefixUnbroken(NotStarted, trace, k + 1);
    assert trace[..k + 1][..k] == trace[..k];
    b := TurnAlone(trace, k);
    OpenIffStartedNotEnded(trace[b + 1..k], trace[k].position);
  }

  ghost predicate EndsWhatItStarts(turn: seq<AgentEvent>)
  {
    forall i: nat :: StartedIn(turn, i) ==> EndedIn(turn, i)
  }

  /** Every tool execution that a turn of a well-bracketed trace starts, it ends. */
  lemma TurnsEndTheirTools(trace: seq<AgentEvent>, k: nat) returns (b: nat)
    requires Scan(NotStarted, trace) != Broken && k < |trace| && trace[k].TurnEnd?
    ensures StartsTurnOf(trace, b, k)
    ensures EndsWhatItStarts(trace[b + 1..k])
  {
    PrefixUnbroken(NotStarted, trace, k + 1);
    assert trace[..k + 1][..k] == trace[..k];
    b := TurnAlone(trace, k);
    var turn := trace[b + 1..k];
    forall i: nat | StartedIn(turn, i) ensures EndedIn(turn, i) {
      OpenIffStartedNotEnded(turn, i);
    }
  }
}
