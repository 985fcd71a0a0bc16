/**
 What becomes of one tool call: its preparation, the judgement of what the tool
 body returned, and the effect of the after-hook.  The tools and the hooks are
 parameters; each answers as a function of the call it is given.
 */
module ToolOutcomes {
  import opened Options
  import opened AgentEvents

  /** What a tool body hands back. */
  datatype ToolReturn =
    | Returned(output: ToolOutput)
    | WrongType(typeName: string)
    | BadContent
    | BadMetadata
    | Raised(text: string)

  datatype Executed = Executed(output: ToolOutput, isError: bool)

  /** The finalized record of a call: what its result message is made of. */
  datatype Finalized = Finalized(call: ToolCall, output: ToolOutput, isError: bool)

  datatype HookAnswer =
    | Keep
    | Override(content: Option<string>, details: Option<string>, terminate: Option<bool>, isError: Option<bool>)
    | HookRaised(text: string)

  datatype BeforeAnswer = Allow | Block(reason: string) | BeforeRaised(text: string)

  /** What argument preparation and schema validation say of a call. */
  datatype Arguments = Accepted(arguments: string) | Rejected(arguments: string, text: string)

  /** Tools and hooks as the loop sees them. */
  datatype Toolbox = Toolbox(
    known: string -> bool,
    unknownText: string -> string,
    sequentialTool: string -> bool,
    arguments: ToolCall -> Arguments,
    before: ToolCall -> BeforeAnswer,
    execute: ToolCall -> ToolReturn,
    progress: ToolCall -> seq<string>,
    after: (ToolCall, Executed) -> HookAnswer,
    sequentialMode: bool,
    maxParallelTools: int)

  datatype Preparation = Immediate(outcome: Finalized) | Prepared(call: ToolCall)

  function ErrorOutput(text: string): ToolOutput
  {
    ToolOutput(text, "", None, None)
  }

  const ABORTED_TEXT := "Operation aborted"
  const ABORTED_EXECUTION := Executed(ErrorOutput(ABORTED_TEXT), true)

  /** Preparation under the abort state that it observes. */
  function Prepare(box: Toolbox, call: ToolCall, aborted: bool): (p: Preparation)
    ensures aborted ==> p.Immediate?
    ensures p.Immediate? ==> p.outcome.call.id == call.id && p.outcome.call.name == call.name && p.outcome.isError
    ensures p.Prepared? ==> p.call.id == call.id && p.call.name == call.name && !aborted
  {
    if !box.known(call.name) then Immediate(Finalized(call, ErrorOutput(box.unknownText(call.name)), true))
    else
      match box.arguments(call)
      case Rejected(args, text) => Immediate(Finalized(call.(arguments := args), ErrorOutput(text), true))
      case Accepted(args) =>
        var prepared := call.(arguments := args);
        var answer := box.before(prepared);
        if answer.BeforeRaised? then Immediate(Finalized(prepared, ErrorOutput(answer.text), true))
        else if aborted then Immediate(Finalized(prepared, ErrorOutput(ABORTED_TEXT), true))
        else if answer.Block? then Immediate(Finalized(prepared, ErrorOutput(answer.reason), true))
        else Prepared(prepared)
  }

  /** The executed record of a body that ran. */
  function Judge(call: ToolCall, r: ToolReturn): Executed
  {
    match r
    case Returned(output) => Executed(output, false)
    case WrongType(name) => Executed(
      ErrorOutput("Tool " + call.name + " returned invalid result type " + name + "; expected AgentToolResult"), true)
    case BadContent => Executed(
      ErrorOutput("Tool " + call.name
                  + " returned AgentToolResult with invalid content; expected TextContent or ImageContent items"), true)
    case BadMetadata => Executed(
      ErrorOutput("Tool " + call.name + " returned AgentToolResult with invalid metadata"), true)
    case Raised(text) => Executed(ErrorOutput(text), true)
  }

  function Run(box: Toolbox, call: ToolCall): Executed
  {
    Judge(call, box.execute(call))
  }

  /** The after-hook, which sees every executed call, the failed ones included. */
  function Finalize(box: Toolbox, call: ToolCall, executed: Executed): (f: Finalized)
    ensures f.call == call
  {
    match box.after(call, executed)
    case Keep => Finalized(call, executed.output, executed.isError)
    case HookRaised(text) => Finalized(call, ErrorOutput(text), true)
    case Override(content, details, terminate, isError) =>
      var out := executed.output;
      Finalized(
        call,
        ToolOutput(
          if content.Some? then content.value else out.content,
          if details.Some? then details.value else out.details,
          if terminate.Some? then terminate else out.terminate,
          out.addedToolNames),
        if isError.Some? then isError.value else executed.isError)
  }

  /** The outcome of a call that no abort touches. */
  function Clean(box: Toolbox, call: ToolCall): (f: Finalized)
    ensures f.call.id == call.id && f.call.name == call.name
  {
    match Prepare(box, call, false)
    case Immediate(outcome) => outcome
    case Prepared(prepared) => Finalize(box, prepared, Run(box, prepared))
  }

  /** All that a batch executor can make of one call: the clean outcome, the
      outcome when preparation sees an abort, and the outcome when the capacity
      boundary does. */
  datatype Job = Job(
    call: ToolCall, ready: bool, clean: Finalized, atPreparation: Finalized, atBoundary: Finalized,
    progress: seq<string>)
  {
    predicate Consistent()
    {
      clean.call.id == atPreparation.call.id == atBoundary.call.id == call.id
    }
  }

  function JobOf(box: Toolbox, call: ToolCall): (j: Job)
    ensures j.Consistent() && j.call == call && j.clean == Clean(box, call)
    ensures j.clean.call.name == j.atPreparation.call.name == j.atBoundary.call.name == call.name
  {
    var p := Prepare(box, call, false);
    var prepared := if p.Prepared? then p.call else call;
    Job(call, p.Prepared?, Clean(box, call), Prepare(box, call, true).outcome,
        Finalize(box, prepared, ABORTED_EXECUTION), box.progress(prepared))
  }

  function JobsOf(box: Toolbox, calls: seq<ToolCall>): (jobs: seq<Job>)
    ensures |jobs| == |calls|
    ensures forall i {:trigger JobOf(box, calls[i])} :: 0 <= i < |calls| ==> jobs[i] == JobOf(box, calls[i])
    ensures forall i :: 0 <= i < |calls| ==> jobs[i].Consistent()
  {
    seq(|calls|, i requires 0 <= i < |calls| => JobOf(box, calls[i]))
  }

  /** The outcomes a call may have, given whether an abort has become visible. */
  predicate IsOutcome(job: Job, aborted: bool, f: Finalized)
  {
    || f == job.clean
    || (aborted && (f == job.atPreparation || (job.ready && f == job.atBoundary)))
  }

  function ResultMessage(f: Finalized): Message
  {
    ToolResultMessage(f.call.id, f.call.name, f.output.content, f.output.details, f.output.addedToolNames, f.isError)
  }

  function ResultMessages(fs: seq<Finalized>): (ms: seq<Message>)
    ensures |ms| == |fs|
    ensures forall i :: 0 <= i < |fs| ==> ms[i] == ResultMessage(fs[i])
  {
    seq(|fs|, i requires 0 <= i < |fs| => ResultMessage(fs[i]))
  }

  /** A batch ends the run only when it is not empty and every result asks for it. */
  predicate ShouldTerminate(fs: seq<Finalized>)
  {
    |fs| > 0 && forall i :: 0 <= i < |fs| ==> fs[i].output.terminate == Some(true)
  }

  /** A batch answer: one outcome per call for a source-order prefix of the calls,
      the whole of them, each clean, unless an abort became visible. */
  predicate IsBatch(jobs: seq<Job>, aborted: bool, fs: seq<Finalized>)
  {
    && |fs| <= |jobs|
    && (!aborted ==> |fs| == |jobs|)
    && (jobs != [] ==> fs != [])
    && forall i :: 0 <= i < |fs| ==> IsOutcome(jobs[i], aborted, fs[i])
  }

  /** Without an abort there is one batch answer only: what the plain sequential
      loop returns. */
  lemma BatchIsUnique(jobs: seq<Job>, fs: seq<Finalized>, gs: seq<Finalized>)
    requires IsBatch(jobs, false, fs) && IsBatch(jobs, false, gs)
    ensures fs == gs
  {
    assert forall i :: 0 <= i < |fs| ==> fs[i] == jobs[i].clean == gs[i];
  }

  function Max(a: int, b: int): int
  {
    if a < b then b else a
  }

  function Min(a: int, b: int): int
  {
    if a < b then a else b
  }

  function ToolEndOf(i: nat, f: Finalized): AgentEvent
  {
    ToolEnd(i, f.call.id, f.output, f.isError)
  }
}
