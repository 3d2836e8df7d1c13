/**
 * The provider event normalizer (rust/crates/automonique-agents/src/normalize.rs):
 * one JSON line at a time, checked against the order a turn must follow.
 */
module Normalize {
  import opened Basics
  import opened Text

  const MAX_COORDINATE_BYTES: nat := 160
  const MAX_EVENT_KIND_BYTES: nat := 64
  const MAX_EVENT_TEXT_BYTES: nat := 65536

  datatype AdapterError =
    | Coordinate(field: string)
    | OutputTooLarge
    | InvalidUtf8
    | InvalidJson
    | UnknownEvent(kind: string)
    | UnknownSchema
    | EventOrder
    | SessionMismatch
    | TooManyEvents
    | IncompleteFinalLine

  datatype Scope = Scope(tenant: string, account: string, ns: string)
  datatype Coordinates = Coordinates(runId: string, turnId: string, scope: Scope)
  datatype Binding = Binding(scope: Scope, session: string)
  datatype Mode = NewSession | Resume(binding: Binding)

  datatype ItemKind = AgentMessage | CommandExecution

  datatype RecordedKind =
    | SessionCreated | SessionLoaded | ProviderWarning | TurnStarted | AssistantMessageCompleted
    | ToolCallStarted | ToolCallCompleted | ToolCallFailed | UsageUpdated | ProviderFault | TurnCompleted

  datatype Event =
    | Preview(sequence: nat, runId: string, turnId: string, session: string, text: string)
    | Recorded(sequence: nat, runId: string, turnId: string, session: string, kind: RecordedKind, note: Option<string>)

  datatype Disposition = Succeeded | Failed
  datatype Usage = Usage(cached: nat, input: nat, output: nat)

  /** What a normalizer holds between lines. */
  datatype Turn = Turn(
    coordinates: Coordinates,
    mode: Mode,
    session: Option<string>,
    turnStarted: bool,
    activeItem: Option<(string, ItemKind)>,
    assistantSeen: bool,
    disposition: Option<Disposition>,
    usage: Option<Usage>,
    events: seq<Event>)

  datatype Finished = Finished(binding: Binding, events: seq<Event>, disposition: Disposition, usage: Option<Usage>)

  type Fields = map<string, Json>

  function NewTurn(c: Coordinates, m: Mode): Turn {
    Turn(c, m, None, false, None, false, None, None, [])
  }

  // ------------------------------------------------------------ field validators

  function StringField(o: Fields, field: string): Result<string, AdapterError> {
    if field in o && o[field].JString? then Ok(o[field].s) else Err(UnknownSchema)
  }

  function Exact(o: Fields, fields: set<string>): Result<(), AdapterError> {
    Need(o.Keys == fields, UnknownSchema)
  }

  function ObjectField(o: Fields, field: string): Result<Fields, AdapterError> {
    if field in o && o[field].JObject? then Ok(o[field].fields) else Err(UnknownSchema)
  }

  function BoundedText(o: Fields, field: string): Result<string, AdapterError> {
    var value :- StringField(o, field);
    if Utf8Length(value) > MAX_EVENT_TEXT_BYTES || '\0' in value then Err(UnknownSchema) else Ok(value)
  }

  function CountField(o: Fields, field: string): Result<nat, AdapterError> {
    if field in o && o[field].JInt? && 0 <= o[field].n <= U64_MAX then Ok(o[field].n) else Err(UnknownSchema)
  }

  function ValidCoordinate(value: string, field: string): Result<(), AdapterError> {
    Need(value != "" && Utf8Length(value) <= MAX_COORDINATE_BYTES && forall c | c in value :: !IsControl(c),
         Coordinate(field))
  }

  function ValidSession(value: string): Result<(), AdapterError> {
    var _ :- ValidCoordinate(value, "provider_session_id");
    Need(value[0] != '-' && forall c | c in value :: IsAlphanumeric(c) || c in "-_.:",
         Coordinate("provider_session_id"))
  }

  function SanitizedKind(raw: string): string {
    if raw == "" then "<empty>"
    else if Utf8Length(raw) > MAX_EVENT_KIND_BYTES then "<oversized>"
    else if forall c | c in raw :: IsAlphanumeric(c) || c in "._-" then raw
    else "<unprintable>"
  }

  function KindName(kind: ItemKind): string {
    match kind
    case AgentMessage => "agent_message"
    case CommandExecution => "command_execution"
  }

  function ItemKindOf(item: Fields): Result<ItemKind, AdapterError> {
    var name :- StringField(item, "type");
    if name == KindName(AgentMessage) then Ok(AgentMessage)
    else if name == KindName(CommandExecution) then Ok(CommandExecution)
    else Err(UnknownEvent("item:" + SanitizedKind(name)))
  }

  function ValidCommand(item: Fields, status: string, terminal: bool): Result<(), AdapterError> {
    var _ :- Exact(item, {"aggregated_output", "command", "exit_code", "id", "status", "type"});
    var _ :- BoundedText(item, "command");
    var _ :- BoundedText(item, "aggregated_output");
    var actual :- StringField(item, "status");
    var _ :- Need(actual == status, UnknownSchema);
    var code := item["exit_code"];
    Need(if terminal then code.JInt? && -0x8000_0000_0000_0000 <= code.n < 0x8000_0000_0000_0000 else code.JNull?,
         UnknownSchema)
  }

  // ------------------------------------------------------------ the automaton

  function Record(t: Turn, kind: RecordedKind, note: Option<string>): Result<Turn, AdapterError> {
    if t.session.None? then Err(EventOrder)
    else
      var e := Recorded(|t.events| + 1, t.coordinates.runId, t.coordinates.turnId, t.session.value, kind, note);
      Ok(t.(events := t.events + [e]))
  }

  function RequireActive(t: Turn): Result<(), AdapterError> {
    Need(t.session.Some? && t.turnStarted, EventOrder)
  }

  function OnThreadStarted(t: Turn, o: Fields): Result<Turn, AdapterError> {
    var _ :- Exact(o, {"thread_id", "type"});
    var _ :- Need(t.session.None? && !t.turnStarted, EventOrder);
    var session :- StringField(o, "thread_id");
    var _ :- ValidSession(session);
    if t.mode.NewSession? then Record(t.(session := Some(session)), SessionCreated, None)
    else if t.mode.binding.session != session then Err(SessionMismatch)
    else Record(t.(session := Some(session)), SessionLoaded, None)
  }

  function OnTurnStarted(t: Turn, o: Fields): Result<Turn, AdapterError> {
    var _ :- Exact(o, {"type"});
    var _ :- Need(t.session.Some? && !t.turnStarted, EventOrder);
    Record(t.(turnStarted := true), TurnStarted, None)
  }

  function OnItemStarted(t: Turn, o: Fields): Result<Turn, AdapterError> {
    var _ :- Exact(o, {"item", "type"});
    var _ :- RequireActive(t);
    var _ :- Need(t.activeItem.None?, EventOrder);
    var item :- ObjectField(o, "item");
    var id :- StringField(item, "id");
    var _ :- ValidCoordinate(id, "provider_item_id");
    var kind :- ItemKindOf(item);
    match kind
    case AgentMessage =>
      var _ :- Exact(item, {"id", "type"});
      Ok(t.(activeItem := Some((id, kind))))
    case CommandExecution =>
      var _ :- ValidCommand(item, "in_progress", false);
      var t' :- Record(t, ToolCallStarted, Some(KindName(kind)));
      Ok(t'.(activeItem := Some((id, kind))))
  }

  function OnItemUpdated(t: Turn, o: Fields): Result<Turn, AdapterError> {
    var _ :- Exact(o, {"item", "type"});
    var _ :- RequireActive(t);
    var item :- ObjectField(o, "item");
    var _ :- Exact(item, {"id", "text", "type"});
    var id :- StringField(item, "id");
    var _ :- ValidCoordinate(id, "provider_item_id");
    var _ :- Need(t.activeItem.Some? && t.activeItem.value.0 == id, EventOrder);
    var kind :- ItemKindOf(item);
    var _ :- Need(kind.AgentMessage?, UnknownSchema);
    var text :- BoundedText(item, "text");
    var e := Preview(|t.events| + 1, t.coordinates.runId, t.coordinates.turnId, t.session.value, text);
    Ok(t.(events := t.events + [e]))
  }

  function OnItemCompleted(t: Turn, o: Fields): Result<Turn, AdapterError> {
    var _ :- Exact(o, {"item", "type"});
    var item :- ObjectField(o, "item");
    var name :- StringField(item, "type");
    if name == "error" then OnNotice(t, item) else
    var _ :- RequireActive(t);
    var id :- StringField(item, "id");
    var _ :- ValidCoordinate(id, "provider_item_id");
    var _ :- Need(t.activeItem.Some? ==> t.activeItem.value.0 == id, EventOrder);
    var kind :- ItemKindOf(item);
    var _ :- Need(t.activeItem.Some? ==> t.activeItem.value.1 == kind, EventOrder);
    match kind
    case AgentMessage =>
      var _ :- Exact(item, {"id", "text", "type"});
      var text :- BoundedText(item, "text");
      var t' :- Record(t, AssistantMessageCompleted, Some(text));
      Ok(t'.(assistantSeen := true, activeItem := None))
    case CommandExecution =>
      var status :- StringField(item, "status");
      var _ :- Need(status == "completed" || status == "failed", UnknownSchema);
      var _ :- ValidCommand(item, status, true);
      var t' :- Record(t, if status == "completed" then ToolCallCompleted else ToolCallFailed, Some(KindName(kind)));
      Ok(t'.(activeItem := None))
  }

  function OnNotice(t: Turn, item: Fields): Result<Turn, AdapterError> {
    var _ :- Need(t.session.Some? && t.activeItem.None?, EventOrder);
    var _ :- Exact(item, {"id", "message", "type"});
    var id :- StringField(item, "id");
    var _ :- ValidCoordinate(id, "provider_item_id");
    var _ :- BoundedText(item, "message");
    Record(t, ProviderWarning, Some("provider startup notice"))
  }

  const LEGACY_USAGE: set<string> := {"cached_input_tokens", "input_tokens", "output_tokens"}
  const SUPPLEMENTAL_USAGE: set<string> := {"cache_write_input_tokens", "reasoning_output_tokens"}

  function UsageOf(o: Fields): Result<Usage, AdapterError> {
    var u :- ObjectField(o, "usage");
    var _ :- Need(u.Keys == LEGACY_USAGE || u.Keys == LEGACY_USAGE + SUPPLEMENTAL_USAGE, UnknownSchema);
    var cached :- CountField(u, "cached_input_tokens");
    var input :- CountField(u, "input_tokens");
    var output :- CountField(u, "output_tokens");
    var _ :- Need(forall f | f in SUPPLEMENTAL_USAGE && f in u :: CountField(u, f).Ok?, UnknownSchema);
    Ok(Usage(cached, input, output))
  }

  function OnTurnCompleted(t: Turn, o: Fields): Result<Turn, AdapterError> {
    var _ :- Exact(o, {"type", "usage"});
    var _ :- RequireActive(t);
    var _ :- Need(t.assistantSeen && t.activeItem.None?, EventOrder);
    var usage :- UsageOf(o);
    var t1 :- Record(t.(usage := Some(usage)), UsageUpdated, None);
    var t2 :- Record(t1, TurnCompleted, None);
    Ok(t2.(disposition := Some(Succeeded)))
  }

  /** A turn ended by a fault: the item in progress is given up. */
  function Fault(t: Turn, message: Option<string>): Result<Turn, AdapterError> {
    var t1 :- Record(t.(activeItem := None), ProviderFault, message);
    var t2 :- Record(t1, TurnCompleted, None);
    Ok(t2.(disposition := Some(Failed)))
  }

  function OnTurnFailed(t: Turn, o: Fields): Result<Turn, AdapterError> {
    var _ :- Exact(o, {"error", "type"});
    var _ :- RequireActive(t);
    var error :- ObjectField(o, "error");
    var _ :- Exact(error, {"message"});
    var message :- BoundedText(error, "message");
    Fault(t, Some(message))
  }

  /** One line of provider output. */
  function Push(t: Turn, json: string -> Option<Json>, line: string): Result<Turn, AdapterError> {
    var _ :- Need(t.disposition.None?, EventOrder);
    var value :- (if json(line).Some? then Ok(json(line).value) else Err(InvalidJson));
    var o :- (if value.JObject? then Ok(value.fields) else Err(UnknownSchema));
    var kind :- StringField(o, "type");
    Dispatch(t, kind, o)
  }

  function Dispatch(t: Turn, kind: string, o: Fields): Result<Turn, AdapterError> {
    if kind == "thread.started" then OnThreadStarted(t, o)
    else if kind == "turn.started" then OnTurnStarted(t, o)
    else if kind == "item.started" then OnItemStarted(t, o)
    else if kind == "item.updated" then OnItemUpdated(t, o)
    else if kind == "item.completed" then OnItemCompleted(t, o)
    else if kind == "turn.completed" then OnTurnCompleted(t, o)
    else if kind == "turn.failed" then OnTurnFailed(t, o)
    else Err(UnknownEvent(SanitizedKind(kind)))
  }

  function Finish(t: Turn): Result<Finished, AdapterError> {
    var _ :- Need(t.session.Some? && t.disposition.Some?, EventOrder);
    var _ :- ValidSession(t.session.value);
    Ok(Finished(Binding(t.coordinates.scope, t.session.value), t.events, t.disposition.value, t.usage))
  }

  /** An interrupted turn, completed as a provider failure; a turn that already ended keeps its own end. */
  function FinishFailed(t: Turn): Result<Finished, AdapterError> {
    if t.disposition.Some? then Finish(t) else
      var t' :- Fault(t, None);
      Finish(t')
  }

  // ------------------------------------------------------------ the object

  /** The normalizer as the source keeps it: fields updated by one handler per event. */
  class Normalizer {
    const coordinates: Coordinates
    const mode: Mode
    var session: Option<string>
    var turnStarted: bool
    var activeItem: Option<(string, ItemKind)>
    var assistantSeen: bool
    var disposition: Option<Disposition>
    var usage: Option<Usage>
    var events: seq<Event>

    constructor (c: Coordinates, m: Mode)
      ensures View() == NewTurn(c, m)
    {
      coordinates, mode := c, m;
      session, turnStarted, activeItem, assistantSeen := None, false, None, false;
      disposition, usage, events := None, None, [];
    }

    function View(): Turn
      reads this
    {
      Turn(coordinates, mode, session, turnStarted, activeItem, assistantSeen, disposition, usage, events)
    }

    /** The object moved as `step` says; a rejected event left it as it was. */
    ghost predicate Moved(before: Turn, step: Result<Turn, AdapterError>, r: Result<(), AdapterError>)
      reads this
    {
      if step.Ok? then r.Ok? && View() == step.value else r == Err(step.error) && View() == before
    }

    method RecordEvent(kind: RecordedKind, note: Option<string>) returns (r: Result<(), AdapterError>)
      modifies this`events
      ensures Moved(old(View()), Record(old(View()), kind, note), r)
    {
      if session.None? {
        return Err(EventOrder);
      }
      var sequence := |events| + 1;
      events := events + [Recorded(sequence, coordinates.runId, coordinates.turnId, session.value, kind, note)];
      return Ok(());
    }

    method ThreadStarted(o: Fields) returns (r: Result<(), AdapterError>)
      modifies this
      ensures Moved(old(View()), OnThreadStarted(old(View()), o), r)
    {
      var _ :- Exact(o, {"thread_id", "type"});
      if session.Some? || turnStarted {
        return Err(EventOrder);
      }
      var id :- StringField(o, "thread_id");
      var _ :- ValidSession(id);
      var kind := SessionCreated;
      if mode.Resume? {
        if mode.binding.session != id {
          return Err(SessionMismatch);
        }
        kind := SessionLoaded;
      }
      session := Some(id);
      r := RecordEvent(kind, None);
    }

    method StartTurn(o: Fields) returns (r: Result<(), AdapterError>)
      modifies this
      ensures Moved(old(View()), OnTurnStarted(old(View()), o), r)
    {
      var _ :- Exact(o, {"type"});
      if session.None? || turnStarted {
        return Err(EventOrder);
      }
      turnStarted := true;
      r := RecordEvent(TurnStarted, None);
    }

    method ItemStarted(o: Fields) returns (r: Result<(), AdapterError>)
      modifies this
      ensures Moved(old(View()), OnItemStarted(old(View()), o), r)
    {
      var _ :- Exact(o, {"item", "type"});
      var _ :- RequireActive(View());
      if activeItem.Some? {
        return Err(EventOrder);
      }
      var item :- ObjectField(o, "item");
      var id :- StringField(item, "id");
      var _ :- ValidCoordinate(id, "provider_item_id");
      var kind :- ItemKindOf(item);
      if kind.AgentMessage? {
        var _ :- Exact(item, {"id", "type"});
      } else {
        var _ :- ValidCommand(item, "in_progress", false);
        r := RecordEvent(ToolCallStarted, Some(KindName(kind)));
      }
      activeItem := Some((id, kind));
      return Ok(());
    }

    method ItemUpdated(o: Fields) returns (r: Result<(), AdapterError>)
      modifies this
      ensures Moved(old(View()), OnItemUpdated(old(View()), o), r)
    {
      var _ :- Exact(o, {"item", "type"});
      var _ :- RequireActive(View());
      var item :- ObjectField(o, "item");
      var _ :- Exact(item, {"id", "text", "type"});
      var id :- StringField(item, "id");
      var _ :- ValidCoordinate(id, "provider_item_id");
      if activeItem.None? || activeItem.value.0 != id {
        return Err(EventOrder);
      }
      var kind :- ItemKindOf(item);
      if kind != AgentMessage {
        return Err(UnknownSchema);
      }
      var text :- BoundedText(item, "text");
      var sequence := |events| + 1;
      events := events + [Preview(sequence, coordinates.runId, coordinates.turnId, session.value, text)];
      return Ok(());
    }

    method ItemCompleted(o: Fields) returns (r: Result<(), AdapterError>)
      modifies this
      ensures Moved(old(View()), OnItemCompleted(old(View()), o), r)
    {
      var _ :- Exact(o, {"item", "type"});
      var item :- ObjectField(o, "item");
      var name :- StringField(item, "type");
      if name == "error" {
        r := Notice(item);
        return;
      }
      var _ :- RequireActive(View());
      var id :- StringField(item, "id");
      var _ :- ValidCoordinate(id, "provider_item_id");
      if activeItem.Some? && activeItem.value.0 != id {
        return Err(EventOrder);
      }
      var kind :- ItemKindOf(item);
      if activeItem.Some? && activeItem.value.1 != kind {
        return Err(EventOrder);
      }
      if kind.AgentMessage? {
        var _ :- Exact(item, {"id", "text", "type"});
        var text :- BoundedText(item, "text");
        r := RecordEvent(AssistantMessageCompleted, Some(text));
        assistantSeen := true;
      } else {
        var status :- StringField(item, "status");
        var recorded := ToolCallFailed;
        if status == "completed" {
          recorded := ToolCallCompleted;
        } else if status != "failed" {
          return Err(UnknownSchema);
        }
        var _ :- ValidCommand(item, status, true);
        r := RecordEvent(recorded, Some(KindName(kind)));
      }
      activeItem := None;
      return Ok(());
    }

    method Notice(item: Fields) returns (r: Result<(), AdapterError>)
      modifies this
      ensures Moved(old(View()), OnNotice(old(View()), item), r)
    {
      if session.None? || activeItem.Some? {
        return Err(EventOrder);
      }
      var _ :- Exact(item, {"id", "message", "type"});
      var id :- StringField(item, "id");
      var _ :- ValidCoordinate(id, "provider_item_id");
      var _ :- BoundedText(item, "message");
      r := RecordEvent(ProviderWarning, Some("provider startup notice"));
    }

    method CompleteTurn(o: Fields) returns (r: Result<(), AdapterError>)
      modifies this
      ensures Moved(old(View()), OnTurnCompleted(old(View()), o), r)
    {
      var _ :- Exact(o, {"type", "usage"});
      var _ :- RequireActive(View());
      if !assistantSeen || activeItem.Some? {
        return Err(EventOrder);
      }
      var reported :- UsageOf(o);
      usage := Some(reported);
      r := RecordEvent(UsageUpdated, None);
      r := RecordEvent(TurnCompleted, None);
      disposition := Some(Succeeded);
      return Ok(());
    }

    method FailTurn(o: Fields) returns (r: Result<(), AdapterError>)
      modifies this
      ensures Moved(old(View()), OnTurnFailed(old(View()), o), r)
    {
      var _ :- Exact(o, {"error", "type"});
      var _ :- RequireActive(View());
      var error :- ObjectField(o, "error");
      var _ :- Exact(error, {"message"});
      var message :- BoundedText(error, "message");
      activeItem := None;
      r := RecordEvent(ProviderFault, Some(message));
      r := RecordEvent(TurnCompleted, None);
      disposition := Some(Failed);
      return Ok(());
    }

    method PushLine(json: string -> Option<Json>, line: string) returns (r: Result<(), AdapterError>)
      modifies this
      ensures Moved(old(View()), Push(old(View()), json, line), r)
    {
      if disposition.Some? {
        return Err(EventOrder);
      }
      var parsed := json(line);
      if parsed.None? {
        return Err(InvalidJson);
      }
      if !parsed.value.JObject? {
        return Err(UnknownSchema);
      }
      var o := parsed.value.fields;
      var kind :- StringField(o, "type");
      match kind
      case "thread.started" => r := ThreadStarted(o);
      case "turn.started" => r := StartTurn(o);
      case "item.started" => r := ItemStarted(o);
      case "item.updated" => r := ItemUpdated(o);
      case "item.completed" => r := ItemCompleted(o);
      case "turn.completed" => r := CompleteTurn(o);
      case "turn.failed" => r := FailTurn(o);
      case other => r := Err(UnknownEvent(SanitizedKind(other)));
    }
  }
}
