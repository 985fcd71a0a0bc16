/**
 The conversation state of an agent, reduced from the events of its runs, and
 what a well-bracketed trace guarantees of it.
 */
module AgentState {
  import opened Options
  import opened AgentEvents

  datatype View = View(
    messages: seq<Message>,
    streaming: Option<Message>,
    pending: set<string>,
    error: Option<string>)

  function Reduce(v: View, e: AgentEvent): View
  {
    match e
    case MessageStart(m) => if m.AssistantMessage? then v.(streaming := Some(m)) else v
    case MessageUpdate(m) => v.(streaming := Some(m))
    case MessageEnd(m) =>
      v.(messages := v.messages + [m],
         streaming := if m.AssistantMessage? then None else v.streaming,
         error := if m.AssistantMessage? && EndsBadly(m.assistant) then m.assistant.errorMessage else v.error)
    case ToolStart(_, call) => v.(pending := v.pending + {call.id})
    case ToolEnd(_, id, _, _) => v.(pending := v.pending - {id})
    case _ => v
  }

  function Replay(v: View, trace: seq<AgentEvent>): View
  {
    if trace == [] then v else Reduce(Replay(v, trace[..|trace| - 1]), trace[|trace| - 1])
  }

  /** The state a reader in phase `p` finds: nothing streams but an open
      assistant message, and only calls of open executions are pending. */
  predicate Coherent(p: Phase, v: View)
  {
    && (v.streaming.Some? ==> p.InTurn? && p.message.Some? && p.message.value.AssistantMessage?)
    && (v.pending != {} ==> p.InTurn?)
    && (p.InTurn? ==> v.pending <= p.open.Values && forall j :: j in p.open ==> j < p.announced)
  }

  lemma AdvanceKeepsCoherent(p: Phase, v: View, e: AgentEvent)
    requires Coherent(p, v) && Advance(p, e) != Broken
    ensures Coherent(Advance(p, e), Reduce(v, e))
  {
    var q, w := Advance(p, e), Reduce(v, e);
    match e
    case ToolStart(i, call) =>
      forall id | id in w.pending ensures id in q.open.Values {
        if id == call.id {
          assert q.open[i] == id;
        } else {
          var j :| j in p.open && p.open[j] == id;
          assert q.open[j] == id;
        }
      }
    case ToolEnd(i, id, _, _) =>
      forall x | x in w.pending ensures x in q.open.Values {
        var j :| j in p.open && p.open[j] == x;
        assert j != i && q.open[j] == x;
      }
    case _ =>
  }

  /** The agent's history grows by exactly the ended messages, whatever the trace. */
  lemma {:induction false} HistoryGrowsByEnds(v: View, trace: seq<AgentEvent>)
    ensures Replay(v, trace).messages == v.messages + MessageEnds(trace)
  {
    if trace != [] {
      HistoryGrowsByEnds(v, trace[..|trace| - 1]);
    }
  }

  lemma {:induction false} ReplayCoherent(from: Phase, v: View, trace: seq<AgentEvent>)
    requires Coherent(from, v) && Scan(from, trace) != Broken
    ensures Coherent(Scan(from, trace), Replay(v, trace))
  {
    if trace != [] {
      var n := |trace| - 1;
      PrefixUnbroken(from, trace, n);
      ReplayCoherent(from, v, trace[..n]);
      AdvanceKeepsCoherent(Scan(from, trace[..n]), Replay(v, trace[..n]), trace[n]);
    }
  }

  /** At every turn_end of every well-bracketed trace the agent has no pending
      tool call and no streaming message. */
  lemma QuietAtTurnEnd(v: View, trace: seq<AgentEvent>, k: nat)
    requires v.streaming.None? && v.pending == {}
    requires Scan(NotStarted, trace) != Broken && k < |trace| && trace[k].TurnEnd?
    ensures Replay(v, trace[..k]).pending == {} && Replay(v, trace[..k]).streaming.None?
    ensures Replay(v, trace[..k + 1]).pending == {} && Replay(v, trace[..k + 1]).streaming.None?
  {
    PrefixUnbroken(NotStarted, trace, k);
    PrefixUnbroken(NotStarted, trace, k + 1);
    assert trace[..k + 1][..k] == trace[..k];
    ReplayCoherent(NotStarted, v, trace[..k]);
    ReplayCoherent(NotStarted, v, trace[..k + 1]);
  }

  /** What a reset writes. */
  const CLEARED := View([], None, {}, None)

  /** The messages of a run end in the same order whichever view they are read from. */
  lemma LateResetKeepsTheRest(v: View, before: seq<AgentEvent>, rest: seq<AgentEvent>)
    ensures Replay(CLEARED, rest).messages == MessageEnds(rest)
    ensures Replay(v, before + rest).messages == Replay(v, before).messages + Replay(CLEARED, rest).messages
  {
    ScanAppend(NotStarted, before, rest);
    HistoryGrowsByEnds(CLEARED, rest);
    HistoryGrowsByEnds(v, before);
    HistoryGrowsByEnds(v, before + rest);
  }

  lemma LateResetStaysCoherent(v: View, before: seq<AgentEvent>, rest: seq<AgentEvent>)
    requires v.streaming.None? && v.pending == {} && Scan(NotStarted, before + rest) != Broken
    ensures Coherent(Scan(NotStarted, before + rest), Replay(CLEARED, rest))
  {
    assert (before + rest)[..|before|] == before;
    PrefixUnbroken(NotStarted, before + rest, |before|);
    ReplayCoherent(NotStarted, v, before);
    ScanAppend(NotStarted, before, rest);
    ReplayCoherent(Scan(NotStarted, before), CLEARED, rest);
  }

  /** A reset that looks while no run is active and writes into one, behind its first
      `k` events: the agent's history keeps the messages ended after the write and no
      others, nothing streams or is pending that is not open, and the history is whole
      exactly when there was none before the write. */
  lemma LateResetLosesHistoryIff(v: View, trace: seq<AgentEvent>, k: nat)
    requires v.streaming.None? && v.pending == {}
    requires Scan(NotStarted, trace) != Broken && k <= |trace|
    ensures var after := Replay(CLEARED, trace[k..]);
            && Coherent(Scan(NotStarted, trace), after)
            && after.messages == MessageEnds(trace[k..])
            && (after.messages == Replay(v, trace).messages <==> Replay(v, trace[..k]).messages == [])
  {
    assert trace == trace[..k] + trace[k..];
    LateResetKeepsTheRest(v, trace[..k], trace[k..]);
    LateResetStaysCoherent(v, trace[..k], trace[k..]);
    assert |Replay(v, trace).messages| == |Replay(v, trace[..k]).messages| + |Replay(CLEARED, trace[k..]).messages|;
  }

  /** It loses some as soon as there was any: here the reset writes right after the
      first event of a run that an agent with one message begins. */
  lemma LateResetCanLoseHistory(m: Message) returns (v: View, trace: seq<AgentEvent>)
    ensures v.streaming.None? && v.pending == {} && Scan(NotStarted, trace) != Broken
    ensures m in Replay(v, trace).messages && |trace| == 1 && Replay(CLEARED, trace[1..]).messages == []
  {
    v, trace := View([m], None, {}, None), [AgentStart];
    assert trace[..0] == [] && trace[1..] == [];
  }

  class State {
    var messages: seq<Message>
    var streamingMessage: Option<Message>
    var pendingToolCalls: set<string>
    var errorMessage: Option<string>
    var isStreaming: bool

    constructor ()
      ensures CurrentView() == View([], None, {}, None) && !isStreaming
    {
      messages, streamingMessage, pendingToolCalls, errorMessage, isStreaming := [], None, {}, None, false;
    }

    ghost function CurrentView(): View
      reads this
    {
      View(messages, streamingMessage, pendingToolCalls, errorMessage)
    }

    method ProcessEvent(e: AgentEvent)
      modifies this
      ensures CurrentView() == Reduce(old(CurrentView()), e)
      ensures isStreaming == old(isStreaming)
    {
      match e
      case MessageStart(m) =>
        if m.AssistantMessage? {
          streamingMessage := Some(m);
        }
      case MessageUpdate(m) =>
        streamingMessage := Some(m);
      case MessageEnd(m) =>
        messages := messages + [m];
        if m.AssistantMessage? {
          streamingMessage := None;
          if EndsBadly(m.assistant) {
            errorMessage := m.assistant.errorMessage;
          }
        }
      case ToolStart(_, call) =>
        pendingToolCalls := pendingToolCalls + {call.id};
      case ToolEnd(_, id, _, _) =>
        pendingToolCalls := pendingToolCalls - {id};
      case _ =>
    }
  }
}
