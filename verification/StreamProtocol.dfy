/**
 The sequencing guard of a provider's assistant stream, and the response that a
 whole provider event sequence amounts to.
 */
module StreamProtocol {
  import opened Options
  import opened AgentEvents

  datatype UpdateKind =
    | TextStart | TextDelta | TextEnd
    | ThinkingStart | ThinkingDelta | ThinkingEnd
    | ToolcallStart | ToolcallDelta | ToolcallEnd

  /** A provider event; `Unknown` stands for every type name not listed here,
      which the guard lets pass and the loop ignores. */
  datatype ProviderEvent =
    | Start(partial: Assistant)
    | Update(kind: UpdateKind, partial: Assistant)
    | Terminal
    | Unknown

  datatype Violation = AfterTerminal | DuplicateStart | UpdateBeforeStart(kind: UpdateKind)

  /** What the response object resolves to. */
  datatype StreamResult = Message(assistant: Assistant) | WrongType(typeName: string)

  class AssistantStreamProtocol {
    var started: bool
    var terminal: bool

    constructor ()
      ensures !started && !terminal
    {
      started, terminal := false, false;
    }

    /** Accepts an event or says why not; a rejected event changes nothing. */
    method Accept(e: ProviderEvent) returns (violation: Option<Violation>)
      modifies this
      ensures violation == Verdict(old(started), old(terminal), e)
      ensures violation.Some? ==> started == old(started) && terminal == old(terminal)
      ensures violation.None? ==> started == (old(started) || e.Start?) && terminal == e.Terminal?
    {
      if terminal {
        return Some(AfterTerminal);
      }
      match e {
        case Start(_) =>
          if started {
            return Some(DuplicateStart);
          }
          started := true;
        case Update(kind, _) =>
          if !started {
            return Some(UpdateBeforeStart(kind));
          }
        case Terminal =>
          terminal := true;
        case Unknown =>
      }
      return None;
    }
  }

  function Verdict(started: bool, terminal: bool, e: ProviderEvent): Option<Violation>
  {
    if terminal then Some(AfterTerminal)
    else if e.Start? && started then Some(DuplicateStart)
    else if e.Update? && !started then Some(UpdateBeforeStart(e.kind))
    else None
  }

  /** How far a consumer gets with an event sequence, and the last partial
      message it has seen.  It reads nothing after a terminal event or a violation. */
  datatype Progress =
    | Open(last: Option<Assistant>)
    | Violated(why: Violation, last: Option<Assistant>)
    | Ended(last: Option<Assistant>)

  function Consume(p: Progress, e: ProviderEvent): Progress
  {
    if !p.Open? then p
    else
      match e
      case Start(partial) => if p.last.Some? then Violated(DuplicateStart, p.last) else Open(Some(partial))
      case Update(kind, partial) =>
        if p.last.None? then Violated(UpdateBeforeStart(kind), p.last) else Open(Some(partial))
      case Terminal => Ended(p.last)
      case Unknown => p
  }

  function Follow(events: seq<ProviderEvent>): Progress
  {
    if events == [] then Open(None) else Consume(Follow(events[..|events| - 1]), events[|events| - 1])
  }

  lemma FollowSnoc(events: seq<ProviderEvent>, k: nat)
    requires k < |events|
    ensures Follow(events[..k + 1]) == Consume(Follow(events[..k]), events[k])
  {
    assert events[..k + 1][..k] == events[..k];
  }

  lemma {:induction false} FollowStays(events: seq<ProviderEvent>, k: nat)
    requires k <= |events| && !Follow(events[..k]).Open?
    ensures Follow(events) == Follow(events[..k])
    decreases |events|
  {
    if k == |events| {
      assert events[..k] == events;
    } else {
      var front := events[..|events| - 1];
      assert front[..k] == events[..k];
      FollowStays(front, k);
    }
  }

  predicate HasStart(events: seq<ProviderEvent>)
  {
    exists j :: 0 <= j < |events| && events[j].Start?
  }

  /** Event `k` is a start after a start, or an update with no start before it. */
  predicate Misplaced(events: seq<ProviderEvent>, k: nat)
    requires k < |events|
  {
    (events[k].Start? && HasStart(events[..k])) || (events[k].Update? && !HasStart(events[..k]))
  }

  /** Neither a terminal nor a misplaced event among the first `k`. */
  predicate CleanUpTo(events: seq<ProviderEvent>, k: nat)
    requires k <= |events|
  {
    forall j :: 0 <= j < k ==> !events[j].Terminal? && !Misplaced(events, j)
  }

  /** The sequence breaks the protocol at event `k`, said without the guard. */
  predicate FaultAt(events: seq<ProviderEvent>, k: nat)
  {
    k < |events| && CleanUpTo(events, k) && Misplaced(events, k)
  }

  lemma CleanOfPrefix(events: seq<ProviderEvent>, k: nat)
    requires k <= |events|
    ensures CleanUpTo(events, k) <==> CleanUpTo(events[..k], k)
  {
    assert forall j :: 0 <= j < k ==> events[..k][j] == events[j] && events[..k][..j] == events[..j];
  }

  lemma {:induction false} OpenCharacterised(events: seq<ProviderEvent>)
    ensures Follow(events).Open? <==> CleanUpTo(events, |events|)
    ensures Follow(events).Open? ==> (Follow(events).last.Some? <==> HasStart(events))
  {
    if events != [] {
      var n := |events| - 1;
      OpenCharacterised(events[..n]);
      CleanOfPrefix(events, n);
      assert forall j :: 0 <= j < n ==> events[..n][j] == events[j];
    }
  }

  /** The guard reports a violation exactly for the sequences that hold a fault. */
  lemma {:induction false} ViolationCharacterised(events: seq<ProviderEvent>)
    ensures Follow(events).Violated? <==> exists k :: FaultAt(events, k)
  {
    if Follow(events).Violated? {
      var k := FindFault(events);
    }
    if k: nat :| FaultAt(events, k) {
      CleanOfPrefix(events, k);
      OpenCharacterised(events[..k]);
      FollowSnoc(events, k);
      FollowStays(events, k + 1);
    }
  }

  lemma {:induction false} FindFault(events: seq<ProviderEvent>) returns (k: nat)
    requires Follow(events).Violated?
    ensures FaultAt(events, k)
  {
    var n := |events| - 1;
    CleanOfPrefix(events, n);
    if Follow(events[..n]).Open? {
      OpenCharacterised(events[..n]);
      k := n;
    } else {
      k := FindFault(events[..n]);
      CleanOfPrefix(events[..n], k);
      CleanOfPrefix(events, k);
      assert events[..n][..k] == events[..k];
    }
  }

  // ------------------------------------------------------------------- messages

  function KindName(kind: UpdateKind): string
  {
    match kind
    case TextStart => "text_start"
    case TextDelta => "text_delta"
    case TextEnd => "text_end"
    case ThinkingStart => "thinking_start"
    case ThinkingDelta => "thinking_delta"
    case ThinkingEnd => "thinking_end"
    case ToolcallStart => "toolcall_start"
    case ToolcallDelta => "toolcall_delta"
    case ToolcallEnd => "toolcall_end"
  }

  function ViolationText(v: Violation): string
  {
    match v
    case AfterTerminal => "event emitted after terminal event"
    case DuplicateStart => "duplicate start event"
    case UpdateBeforeStart(kind) => KindName(kind) + " event emitted before start event"
  }

  const ERROR_PREFIX := "Provider stream protocol error: "

  /** The message that closes a response early: the last partial one, if any, with
      its stop reason and error text replaced. */
  function Closed(last: Option<Assistant>, reason: StopReason, text: string): Assistant
  {
    if last.Some? then last.value.(stopReason := reason, errorMessage := Some(text))
    else Assistant([Text("")], reason, Some(text))
  }

  function Resolved(last: Option<Assistant>, result: StreamResult): Assistant
  {
    match result
    case Message(a) => a
    case WrongType(name) =>
      Closed(last, Error, ERROR_PREFIX + "invalid result type " + name + "; expected AssistantMessage")
  }

  /** The message of a response whose consumption has come to an end at `p`. */
  function Settled(p: Progress, result: StreamResult): Assistant
  {
    match p
    case Violated(why, last) => Closed(last, Error, ERROR_PREFIX + ViolationText(why))
    case Open(last) => Resolved(last, result)
    case Ended(last) => Resolved(last, result)
  }

  /** The message of a response that no abort cuts. */
  function Answer(events: seq<ProviderEvent>, result: StreamResult): Assistant
  {
    Settled(Follow(events), result)
  }

  function ClosedByAbort(last: Option<Assistant>): Assistant
  {
    Closed(last, Aborted, "Operation aborted")
  }

  /** The message of a response cut by an abort seen after `k` events. */
  function Cut(events: seq<ProviderEvent>, k: nat): Assistant
    requires k <= |events|
  {
    ClosedByAbort(Follow(events[..k]).last)
  }

  /** Every protocol fault and every wrongly typed result makes an error message;
      a faultless response is the provider's own. */
  lemma FaultsBecomeErrors(events: seq<ProviderEvent>, result: StreamResult)
    ensures (exists k :: FaultAt(events, k)) || result.WrongType? ==>
              Answer(events, result).stopReason == Error && Answer(events, result).errorMessage.Some?
    ensures !(exists k :: FaultAt(events, k)) && result.Message? ==> Answer(events, result) == result.assistant
  {
    ViolationCharacterised(events);
  }
}
