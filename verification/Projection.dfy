/**
 * Progress frames to native events (adapters/ag-ui/src/platform-authority.ts):
 * one frame at a time, and whole runs as a fold over the frames.
 */
module Projection {
  import opened Basics
  import opened Cursor

  datatype FrameKind =
    | TurnStarted | AssistantDelta | AssistantCompleted | TurnCompleted
    | ToolStarted | ToolUpdated | ToolCompleted | SubagentStarted | SubagentCompleted
    | ApprovalRequested | ProviderFault | OtherKind

  datatype Frame = Frame(sequence: nat, kind: FrameKind, text: Option<string>)

  datatype Approval = Approval(id: string, revision: nat, summary: string)

  datatype RefusalCode = InternalFailure | PolicyRefused

  datatype Body =
    | RunStarted(parent: Option<string>, carried: seq<string> := [])
    | Preview(message: string, text: string, replace: bool)
    | MessageCompleted(message: string, text: string)
    | ToolStart(tool: string, name: string)
    | ToolArgs(tool: string, progress: string)
    | ToolEnd(tool: string)
    | ToolResult(tool: string, message: string, content: string)
    | StepStarted(step: string)
    | StepFinished(step: string)
    | StateSnapshot(approval: string)
    | MessagesSnapshot(prompt: Option<string>, assistant: Option<string>)
    | ApprovalAsked(approval: string, revision: nat, message: string, proposed: Option<string>)
    | RunFinished
    | RunRefused(code: RefusalCode)

  datatype Native = Native(sequence: nat, cursor: string, body: Body)

  datatype DeltaMode = UnknownMode | SnapshotMode | FragmentMode

  datatype Tool = Tool(id: string, name: string)

  datatype State = State(started: bool, assistant: string, completed: bool, mode: DeltaMode,
                         tool: Option<Tool>, refusal: Option<RefusalCode>)

  const FRESH: State := State(false, "", false, UnknownMode, None, None)

  /**
   * One run's fixed surroundings: its identifiers and input, the approvals it is
   * resumed from, and the lookups the projection makes, each an arbitrary function.
   */
  datatype Setting = Setting(
    run: string, public: string, prompt: Option<string>, parent: Option<string>, resume: set<string>,
    approvalNamed: string -> Option<string>, approval: string -> Option<Approval>, toolId: string -> string)

  datatype Receipt = Receipt(outcome: string, explanation: Option<string>)

  /** How the frames end: retired with the receipt polled for, or an exception from any of the calls made. */
  datatype Ending = Retired(receipt: Option<Receipt>) | Broken

  // ------------------------------------------------------------ one frame

  datatype Projected = Projected(bodies: seq<Body>, state: State, interrupted: bool)

  function MessageId(setting: Setting): string {
    "assistant-" + setting.public
  }

  function Delta(setting: Setting, st: State, text: string): Projected {
    var mode := if st.mode.UnknownMode? && st.assistant != ""
                then (if st.assistant <= text then SnapshotMode else FragmentMode) else st.mode;
    var assistant := if mode.FragmentMode? then st.assistant + text else text;
    Projected([Preview(MessageId(setting), if mode.FragmentMode? then text else assistant, !mode.FragmentMode?)],
              st.(mode := mode, assistant := assistant), false)
  }

  function ToolDone(st: State, tool: Tool, text: Option<string>): Projected {
    Projected([ToolEnd(tool.id)] + (if text.Some? then [ToolResult(tool.id, "result-" + tool.id, text.value)] else []),
              st.(tool := None), false)
  }

  function Interrupt(setting: Setting, st: State, approval: Approval, text: Option<string>): Projected {
    var said := if st.assistant != "" then Some(st.assistant) else None;
    var proposed := if st.tool.Some? then Some(st.tool.value.id) else None;
    Projected((if proposed.Some? then [ToolEnd(proposed.value)] else [])
              + [StateSnapshot(approval.id), MessagesSnapshot(setting.prompt, said),
                 ApprovalAsked(approval.id, approval.revision,
                               if text.Some? then text.value else approval.summary, proposed)],
              st.(tool := None), true)
  }

  function Project(setting: Setting, frame: Frame, st: State, approval: Option<Approval>): Projected {
    var text := frame.text;
    match frame.kind
    case TurnStarted => Projected([RunStarted(setting.parent)], st.(started := true), false)
    case AssistantDelta => if text.Some? then Delta(setting, st, text.value) else Projected([], st, false)
    case AssistantCompleted =>
      if text.Some? then
        Projected([MessageCompleted(MessageId(setting), text.value)],
                  st.(assistant := text.value, completed := true), false)
      else Projected([], st, false)
    case TurnCompleted =>
      if st.assistant != "" && !st.completed then
        Projected([MessageCompleted(MessageId(setting), st.assistant)], st.(completed := true), false)
      else Projected([], st, false)
    case ToolStarted =>
      var name := if text.Some? then text.value else "tool";
      var tool := Tool(setting.toolId(name), name);
      Projected([ToolStart(tool.id, name)], st.(tool := Some(tool)), false)
    case ToolUpdated =>
      if st.tool.Some? && text.Some? then Projected([ToolArgs(st.tool.value.id, text.value)], st, false)
      else Projected([], st, false)
    case ToolCompleted => if st.tool.Some? then ToolDone(st, st.tool.value, text) else Projected([], st, false)
    case SubagentStarted => Projected(if text.Some? then [StepStarted(text.value)] else [], st, false)
    case SubagentCompleted => Projected(if text.Some? then [StepFinished(text.value)] else [], st, false)
    case ApprovalRequested =>
      if approval.Some? then Interrupt(setting, st, approval.value, text) else Projected([], st, false)
    case ProviderFault => Projected([], st.(refusal := Some(InternalFailure)), false)
    case OtherKind => Projected([], st, false)
  }

  /** The approval a frame names, when it names one. */
  function Marker(setting: Setting, frame: Frame): Option<string> {
    if frame.kind.ApprovalRequested? && frame.text.Some? then setting.approvalNamed(frame.text.value) else None
  }

  // ------------------------------------------------------------ numbering

  function Event(run: string, progress: nat, ordinal: nat, body: Body): Option<Native> {
    var sequence := NativeSequence(progress, ordinal);
    if sequence.None? then None else Some(Native(sequence.value, NativeCursor(run, progress, ordinal), body))
  }

  predicate Numberable(progress: nat) {
    progress * STRIDE + STRIDE - 1 <= MAX_SAFE_INTEGER
  }

  /** A frame has room for all seven ordinals or for none. */
  lemma AllOrdinalsOrNone(progress: nat, ordinal: int)
    ensures NativeSequence(progress, ordinal).Some? <==> Numberable(progress) && 1 <= ordinal < STRIDE
  {
  }

  function At(run: string, progress: nat, ordinal: nat, body: Body): Native {
    Native(progress * STRIDE + ordinal, NativeCursor(run, progress, ordinal), body)
  }

  /** The events of one frame, numbered from ordinal 1. */
  function Numbered(run: string, progress: nat, bodies: seq<Body>): seq<Native> {
    seq(|bodies|, i requires 0 <= i < |bodies| => At(run, progress, i + 1, bodies[i]))
  }

  // ------------------------------------------------------------ whole runs

  datatype Status = Going | Interrupted | Failed

  datatype Progress = Progress(state: State, waiting: set<string>, resumed: bool, last: nat,
                               events: seq<Native>, status: Status)

  function Begin(setting: Setting): Progress {
    Progress(FRESH, setting.resume, setting.resume == {}, 0, [], Going)
  }

  /** A frame while the run is still looking for the approvals it resumes from. */
  function Skip(setting: Setting, g: Progress, frame: Frame): Progress {
    var marker := Marker(setting, frame);
    var waiting := if marker.Some? then g.waiting - {marker.value} else g.waiting;
    var g' := g.(waiting := waiting, last := frame.sequence);
    if waiting != {} then g'
    else if !Numberable(frame.sequence) then g'.(status := Failed)
    else g'.(resumed := true, state := g.state.(started := true),
             events := g.events + Numbered(setting.run, frame.sequence, [RunStarted(setting.parent)]))
  }

  /** What a frame adds to a run that has not announced itself yet includes the announcement. */
  function Announced(setting: Setting, st: State, frame: Frame, bodies: seq<Body>): seq<Body> {
    if !st.started && bodies != [] && !frame.kind.TurnStarted? then [RunStarted(setting.parent)] + bodies else bodies
  }

  /** A run after a frame projected as given. */
  function Added(setting: Setting, g: Progress, frame: Frame, p: Projected): Progress {
    var bodies := Announced(setting, g.state, frame, p.bodies);
    var g' := g.(last := frame.sequence);
    if bodies != [] && !Numberable(frame.sequence) then g'.(status := Failed)
    else g'.(state := p.state.(started := g.state.started || bodies != []),
             events := g.events + Numbered(setting.run, frame.sequence, bodies),
             status := if p.interrupted then Interrupted else Going)
  }

  function Absorb(setting: Setting, g: Progress, frame: Frame, approval: Option<Approval>): Progress {
    Added(setting, g, frame, Project(setting, frame, g.state, approval))
  }

  function Step(setting: Setting, g: Progress, frame: Frame): Progress {
    if !g.status.Going? then g
    else if !g.resumed then Skip(setting, g, frame)
    else
      var marker := Marker(setting, frame);
      if marker.None? then Absorb(setting, g, frame, None)
      else if setting.approval(marker.value).None? then g.(last := frame.sequence, status := Failed)
      else Absorb(setting, g, frame, setting.approval(marker.value))
  }

  function Ran(setting: Setting, frames: seq<Frame>): Progress {
    if frames == [] then Begin(setting) else Step(setting, Ran(setting, frames[..|frames| - 1]), frames[|frames| - 1])
  }

  function Terminal(st: State, receipt: Option<Receipt>): Body {
    if st.refusal.Some? then RunRefused(st.refusal.value)
    else if receipt.None? || receipt.value.outcome == "completed" then RunFinished
    else RunRefused(if receipt.value.explanation == Some("policy_refused") then PolicyRefused else InternalFailure)
  }

  datatype Outcome = Outcome(events: seq<Native>, faulted: bool)

  /** The last events of a run: the announcement if none was made, then the terminal at ordinal 7. */
  function Closing(setting: Setting, g: Progress, receipt: Option<Receipt>): seq<Native> {
    (if g.state.started then [] else Numbered(setting.run, g.last, [RunStarted(setting.parent)]))
    + [At(setting.run, g.last, 7, Terminal(g.state, receipt))]
  }

  /** Every native event of a run, and whether it ended in an exception. */
  function Whole(setting: Setting, frames: seq<Frame>, ending: Ending): Outcome {
    var g := Ran(setting, frames);
    if g.status.Failed? then Outcome(g.events, true)
    else if g.status.Interrupted? then Outcome(g.events, false)
    else if ending.Broken? || !Numberable(g.last) then Outcome(g.events, true)
    else Outcome(g.events + Closing(setting, g, ending.receipt), false)
  }
}
