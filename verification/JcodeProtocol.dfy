/** The JCode harness events this model speaks of (rust/crates/automonique-agents/src/jcode.rs). */
module JcodeProtocol {
  import opened Basics

  datatype JEvent =
    | HelloOk(replyTo: nat, server: string, capabilities: seq<string>)
    | Acknowledged(replyTo: nat)
    | Fault(inReplyTo: Option<nat>, code: string)
    | Attached(replyTo: nat, attachedSession: string, status: string)
    | MessageAccepted(session: string)
    | TextDelta(session: string, text: string)
    | ReasoningDelta(session: string, text: string)
    | ReasoningDone(session: string)
    | ToolStart(session: string, call: string, name: string)
    | ToolInputDelta(session: string, maybeCall: Option<string>)
    | ToolExec(session: string, call: string, name: string)
    | ToolDone(session: string, call: string, name: string, failed: bool)
    | TokenUsage(session: string, input: nat, output: nat, cacheRead: Option<nat>)
    | PermissionRequest(session: string, request: string, tool: string, description: string)
    | StdinRequest(session: string, request: string, prompt: string, isPassword: bool, toolCall: string)
    | SessionStatus(session: string, status: string)
    | ConnectionPhase(session: string, phase: string)
    | ModelInfo(session: string, provider: Option<string>, model: Option<string>, effort: Option<string>)
    | TurnDone(session: string)
    | Pong(replyTo: nat)
    | Unknown(kind: string)

  datatype JError =
    | InvalidFrame | InvalidField(field: string) | FrameTooLarge | StreamTooLarge | TooManyEvents
    | UnsupportedVersion | MissingCapability | HandshakeRequired | IdentityMismatch | ReplyMismatch
    | SessionMismatch | EventOrder

  /** The session an event belongs to; an `Attached` reply and correlation replies belong to none. */
  function EventSession(e: JEvent): Option<string> {
    match e
    case MessageAccepted(s) => Some(s)
    case TextDelta(s, _) => Some(s)
    case ReasoningDelta(s, _) => Some(s)
    case ReasoningDone(s) => Some(s)
    case ToolStart(s, _, _) => Some(s)
    case ToolInputDelta(s, _) => Some(s)
    case ToolExec(s, _, _) => Some(s)
    case ToolDone(s, _, _, _) => Some(s)
    case TokenUsage(s, _, _, _) => Some(s)
    case PermissionRequest(s, _, _, _) => Some(s)
    case StdinRequest(s, _, _, _, _) => Some(s)
    case SessionStatus(s, _) => Some(s)
    case ConnectionPhase(s, _) => Some(s)
    case ModelInfo(s, _, _, _) => Some(s)
    case TurnDone(s) => Some(s)
    case _ => None
  }
}
