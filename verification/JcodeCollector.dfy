/**
 * The JCode turn collector (rust/crates/automonique-agents/src/jcode.rs): what a
 * serialized turn is allowed to do, and what its result says it did.
 */
module JcodeCollector {
  import opened Basics
  import opened Text
  import opened JcodeProtocol

  const MAX_TEXT_BYTES: nat := 262144

  datatype Collector = Collector(
    session: string,
    accepted: bool,
    done: bool,
    text: string,
    input: nat,
    output: nat,
    cacheRead: nat,
    activeTools: set<string>,
    permissions: set<string>,
    inputs: set<string>)

  datatype TurnResult = TurnResult(session: string, text: string, input: nat, output: nat, cacheRead: nat)

  function NewCollector(session: string): Collector {
    Collector(session, false, false, "", 0, 0, 0, {}, {}, {})
  }

  function Ordered(legal: bool, after: Collector): Result<Collector, JError> {
    if legal then Ok(after) else Err(EventOrder)
  }

  function Observe(c: Collector, e: JEvent): Result<Collector, JError> {
    if EventSession(e).None? then Ok(c)
    else if EventSession(e) != Some(c.session) then Err(SessionMismatch)
    else if c.done then Err(EventOrder)
    else if e.ToolStart? || e.ToolInputDelta? || e.ToolExec? || e.ToolDone? then ObserveTool(c, e)
    else ObserveTurn(c, e)
  }

  function ObserveTurn(c: Collector, e: JEvent): Result<Collector, JError> {
    match e
    case MessageAccepted(_) => Ok(c.(accepted := true))
    case TextDelta(_, text) =>
      if !c.accepted then Err(EventOrder)
      else if Utf8Length(c.text) + Utf8Length(text) > MAX_TEXT_BYTES then Err(StreamTooLarge)
      else Ok(c.(text := c.text + text))
    case TokenUsage(_, input, output, cached) =>
      Ok(c.(input := input, output := output, cacheRead := if cached.Some? then cached.value else 0))
    case PermissionRequest(_, id, _, _) =>
      Ordered(id !in c.permissions, c.(permissions := c.permissions + {id}))
    case StdinRequest(_, id, _, _, _) => Ordered(id !in c.inputs, c.(inputs := c.inputs + {id}))
    case TurnDone(_) =>
      Ordered(c.accepted && c.activeTools == {} && c.permissions == {} && c.inputs == {}, c.(done := true))
    case _ => Ok(c)
  }

  function ObserveTool(c: Collector, e: JEvent): Result<Collector, JError> {
    match e
    case ToolStart(_, id, _) =>
      Ordered(c.accepted && id !in c.activeTools, c.(activeTools := c.activeTools + {id}))
    case ToolInputDelta(_, id) =>
      Ordered(c.accepted && c.activeTools != {} && (id.Some? ==> id.value in c.activeTools), c)
    case ToolExec(_, id, _) => Ordered(id in c.activeTools, c)
    case ToolDone(_, id, _, _) => Ordered(id in c.activeTools, c.(activeTools := c.activeTools - {id}))
    case _ => Ok(c)
  }

  function ResolvePermission(c: Collector, id: string): Result<Collector, JError> {
    Ordered(id in c.permissions, c.(permissions := c.permissions - {id}))
  }

  function ResolveInput(c: Collector, id: string): Result<Collector, JError> {
    Ordered(id in c.inputs, c.(inputs := c.inputs - {id}))
  }

  function FinishTurn(c: Collector): Result<TurnResult, JError> {
    if c.done then Ok(TurnResult(c.session, c.text, c.input, c.output, c.cacheRead)) else Err(EventOrder)
  }

  // ------------------------------------------------------------ the object

  class JcodeTurnCollector {
    const session: string
    var accepted: bool
    var done: bool
    var text: string
    var input: nat
    var output: nat
    var cacheRead: nat
    var activeTools: set<string>
    var permissions: set<string>
    var inputs: set<string>

    constructor (session: string)
      ensures View() == NewCollector(session)
    {
      this.session := session;
      accepted, done, text, input, output, cacheRead := false, false, "", 0, 0, 0;
      activeTools, permissions, inputs := {}, {}, {};
    }

    function View(): Collector
      reads this
    {
      Collector(session, accepted, done, text, input, output, cacheRead, activeTools, permissions, inputs)
    }

    /** The object moved as `step` says; what is rejected leaves it unchanged. */
    ghost predicate Moved(before: Collector, step: Result<Collector, JError>, r: Result<(), JError>)
      reads this
    {
      if step.Ok? then r.Ok? && View() == step.value else r == Err(step.error) && View() == before
    }

    method ObserveEvent(e: JEvent) returns (r: Result<(), JError>)
      modifies this
      ensures Moved(old(View()), Observe(old(View()), e), r)
    {
      var named := EventSession(e);
      if named.None? {
        return Ok(());
      }
      if named.value != session {
        return Err(SessionMismatch);
      }
      if done {
        return Err(EventOrder);
      }
      if e.ToolStart? || e.ToolInputDelta? || e.ToolExec? || e.ToolDone? {
        r := ObserveToolEvent(e);
      } else {
        r := ObserveTurnEvent(e);
      }
    }

    method ObserveTurnEvent(e: JEvent) returns (r: Result<(), JError>)
      modifies this
      ensures Moved(old(View()), ObserveTurn(old(View()), e), r)
    {
      match e {
      case MessageAccepted(_) => accepted := true;
      case TextDelta(_, delta) =>
        if !accepted {
          return Err(EventOrder);
        }
        if Utf8Length(text) + Utf8Length(delta) > MAX_TEXT_BYTES {
          return Err(StreamTooLarge);
        }
        text := text + delta;
      case TokenUsage(_, reportedInput, reportedOutput, cached) =>
        input, output, cacheRead := reportedInput, reportedOutput, if cached.Some? then cached.value else 0;
      case PermissionRequest(_, _, _, _) =>
        r := ObserveRequest(e);
        return;
      case StdinRequest(_, _, _, _, _) =>
        r := ObserveRequest(e);
        return;
      case TurnDone(_) =>
        r := ObserveEnd(e);
        return;
      case _ =>
      }
      return Ok(());
    }

    method ObserveEnd(e: JEvent) returns (r: Result<(), JError>)
      requires e.TurnDone?
      modifies this
      ensures Moved(old(View()), ObserveTurn(old(View()), e), r)
    {
      if !accepted || activeTools != {} || permissions != {} || inputs != {} {
        return Err(EventOrder);
      }
      done := true;
      return Ok(());
    }

    method ObserveRequest(e: JEvent) returns (r: Result<(), JError>)
      requires e.PermissionRequest? || e.StdinRequest?
      modifies this
      ensures Moved(old(View()), ObserveTurn(old(View()), e), r)
    {
      match e {
      case PermissionRequest(_, id, _, _) =>
        if id in permissions {
          return Err(EventOrder);
        }
        permissions := permissions + {id};
      case StdinRequest(_, id, _, _, _) =>
        if id in inputs {
          return Err(EventOrder);
        }
        inputs := inputs + {id};
      }
      return Ok(());
    }

    method ObserveToolEvent(e: JEvent) returns (r: Result<(), JError>)
      modifies this
      ensures Moved(old(View()), ObserveTool(old(View()), e), r)
    {
      match e {
      case ToolStart(_, id, _) =>
        if !accepted || id in activeTools {
          return Err(EventOrder);
        }
        activeTools := activeTools + {id};
      case ToolInputDelta(_, id) =>
        if !accepted || activeTools == {} || (id.Some? && id.value !in activeTools) {
          return Err(EventOrder);
        }
      case ToolExec(_, id, _) =>
        if id !in activeTools {
          return Err(EventOrder);
        }
      case ToolDone(_, id, _, _) =>
        if id !in activeTools {
          return Err(EventOrder);
        }
        activeTools := activeTools - {id};
      case _ =>
      }
      return Ok(());
    }

    method PermissionResolved(id: string) returns (r: Result<(), JError>)
      modifies this
      ensures Moved(old(View()), ResolvePermission(old(View()), id), r)
    {
      if id !in permissions {
        return Err(EventOrder);
      }
      permissions := permissions - {id};
      return Ok(());
    }

    method InputResolved(id: string) returns (r: Result<(), JError>)
      modifies this
      ensures Moved(old(View()), ResolveInput(old(View()), id), r)
    {
      if id !in inputs {
        return Err(EventOrder);
      }
      inputs := inputs - {id};
      return Ok(());
    }
  }

  // ------------------------------------------------------------ traces

  /** One thing that happens to a turn: an event it observes, or an answer to a request it made. */
  datatype Act = Seen(e: JEvent) | PermissionAnswered(id: string) | InputAnswered(id: string)

  function Apply(c: Collector, act: Act): Result<Collector, JError> {
    match act
    case Seen(e) => Observe(c, e)
    case PermissionAnswered(id) => ResolvePermission(c, id)
    case InputAnswered(id) => ResolveInput(c, id)
  }

  /** The collector after acts of which the rejected ones left it alone. */
  function After(session: string, acts: seq<Act>): Collector {
    if acts == [] then NewCollector(session) else
      var before := After(session, acts[..|acts| - 1]);
      var step := Apply(before, acts[|acts| - 1]);
      if step.Ok? then step.value else before
  }

  /** The acts that were accepted, in order. */
  function Accepted(session: string, acts: seq<Act>): seq<Act> {
    if acts == [] then [] else
      var front, last := acts[..|acts| - 1], acts[|acts| - 1];
      if Apply(After(session, front), last).Ok? then Accepted(session, front) + [last] else Accepted(session, front)
  }

  datatype Mark =
    | Started(call: string) | Finished(call: string)
    | Asked(permission: string) | Answered(permission: string)
    | Wanted(line: string) | Given(line: string)

  /** What an act says about one call, permission or input, if anything. */
  function MarkOf(act: Act): Option<Mark> {
    match act
    case Seen(ToolStart(_, id, _)) => Some(Started(id))
    case Seen(ToolDone(_, id, _, _)) => Some(Finished(id))
    case Seen(PermissionRequest(_, id, _, _)) => Some(Asked(id))
    case PermissionAnswered(id) => Some(Answered(id))
    case Seen(StdinRequest(_, id, _, _, _)) => Some(Wanted(id))
    case InputAnswered(id) => Some(Given(id))
    case _ => None
  }

  function Count(acts: seq<Act>, mark: Mark): nat {
    if acts == [] then 0
    else Count(acts[..|acts| - 1], mark) + (if MarkOf(acts[|acts| - 1]) == Some(mark) then 1 else 0)
  }

  function TextOf(acts: seq<Act>): string {
    if acts == [] then "" else
      var last := acts[|acts| - 1];
      TextOf(acts[..|acts| - 1]) + (if last.Seen? && last.e.TextDelta? then last.e.text else "")
  }

  /** The last usage reported, or none. */
  function UsageOf(acts: seq<Act>): (nat, nat, nat) {
    if acts == [] then (0, 0, 0) else
      var last := acts[|acts| - 1];
      if last.Seen? && last.e.TokenUsage?
      then (last.e.input, last.e.output, if last.e.cacheRead.Some? then last.e.cacheRead.value else 0)
      else UsageOf(acts[..|acts| - 1])
  }

  predicate InSession(act: Act) {
    act.Seen? && EventSession(act.e).Some?
  }

  predicate EndsTurn(act: Act) {
    act.Seen? && act.e.TurnDone?
  }

  /** Nothing of the session follows the end of the turn. */
  ghost predicate NothingAfterEnd(acts: seq<Act>) {
    forall i, j | 0 <= i < j < |acts| && EndsTurn(acts[i]) :: !InSession(acts[j])
  }

  ghost predicate HasEnd(acts: seq<Act>) {
    exists i :: 0 <= i < |acts| && EndsTurn(acts[i])
  }

  /** What is open is what was started, asked or wanted and not yet finished, answered or given. */
  ghost predicate ToolsBalance(c: Collector, acts: seq<Act>) {
    forall id :: Count(acts, Started(id)) == Count(acts, Finished(id)) + (if id in c.activeTools then 1 else 0)
  }

  ghost predicate PermissionsBalance(c: Collector, acts: seq<Act>) {
    forall id :: Count(acts, Asked(id)) == Count(acts, Answered(id)) + (if id in c.permissions then 1 else 0)
  }

  ghost predicate InputsBalance(c: Collector, acts: seq<Act>) {
    forall id :: Count(acts, Wanted(id)) == Count(acts, Given(id)) + (if id in c.inputs then 1 else 0)
  }

  ghost predicate Balanced(c: Collector, acts: seq<Act>) {
    ToolsBalance(c, acts) && PermissionsBalance(c, acts) && InputsBalance(c, acts)
  }

  ghost predicate Reported(c: Collector, acts: seq<Act>) {
    && c.text == TextOf(acts) && Utf8Length(c.text) <= MAX_TEXT_BYTES
    && (c.input, c.output, c.cacheRead) == UsageOf(acts)
  }

  ghost predicate Ended(c: Collector, acts: seq<Act>) {
    && (c.done <==> HasEnd(acts)) && NothingAfterEnd(acts)
    && (c.done ==> c.activeTools == {} && c.permissions == {} && c.inputs == {})
  }

  /** What a collector knows is what its accepted acts say. */
  ghost predicate Faithful(c: Collector, acts: seq<Act>) {
    Balanced(c, acts) && Reported(c, acts) && Ended(c, acts)
  }

  lemma CountLast(acts: seq<Act>, act: Act, mark: Mark)
    ensures Count(acts + [act], mark) == Count(acts, mark) + (if MarkOf(act) == Some(mark) then 1 else 0)
  {
    assert (acts + [act])[..|acts|] == acts;
  }

  lemma ReportLast(acts: seq<Act>, act: Act)
    ensures TextOf(acts + [act]) == TextOf(acts) + (if act.Seen? && act.e.TextDelta? then act.e.text else "")
    ensures UsageOf(acts + [act]) ==
            if act.Seen? && act.e.TokenUsage?
            then (act.e.input, act.e.output, if act.e.cacheRead.Some? then act.e.cacheRead.value else 0)
            else UsageOf(acts)
  {
    assert (acts + [act])[..|acts|] == acts;
  }

  lemma AppendEnds(acts: seq<Act>, act: Act)
    requires NothingAfterEnd(acts) && (InSession(act) ==> !HasEnd(acts))
    ensures NothingAfterEnd(acts + [act])
    ensures HasEnd(acts + [act]) <==> HasEnd(acts) || EndsTurn(act)
  {
    var acts' := acts + [act];
    assert acts'[|acts|] == act;
    if HasEnd(acts) {
      var i :| 0 <= i < |acts| && EndsTurn(acts[i]);
      assert EndsTurn(acts'[i]);
    }
    forall i, j | 0 <= i < j < |acts'| && EndsTurn(acts'[i]) ensures !InSession(acts'[j]) {
      assert EndsTurn(acts[i]);
    }
  }

  lemma ApplyBalances(c: Collector, acts: seq<Act>, act: Act)
    requires Balanced(c, acts) && Apply(c, act).Ok?
    ensures Balanced(Apply(c, act).value, acts + [act])
  {
    ApplyBalancesTools(c, acts, act);
    ApplyBalancesPermissions(c, acts, act);
    ApplyBalancesInputs(c, acts, act);
  }

  /** An act opens what was not open, closes what was, or leaves it. */
  predicate Shifts(mark: Option<Mark>, opening: Mark, closing: Mark, before: bool, after: bool) {
    if mark == Some(opening) then !before && after
    else if mark == Some(closing) then before && !after
    else before == after
  }

  lemma ApplyBalancesTools(c: Collector, acts: seq<Act>, act: Act)
    requires ToolsBalance(c, acts) && Apply(c, act).Ok?
    ensures ToolsBalance(Apply(c, act).value, acts + [act])
  {
    var c' := Apply(c, act).value;
    forall id
      ensures Count(acts + [act], Started(id))
           == Count(acts + [act], Finished(id)) + (if id in c'.activeTools then 1 else 0)
    {
      CountLast(acts, act, Started(id));
      CountLast(acts, act, Finished(id));
      ToolsMoves(c, act, id);
    }
  }

  lemma ToolsMoves(c: Collector, act: Act, id: string)
    requires Apply(c, act).Ok?
    ensures Shifts(MarkOf(act), Started(id), Finished(id), id in c.activeTools, id in Apply(c, act).value.activeTools)
  {
  }

  lemma ApplyBalancesPermissions(c: Collector, acts: seq<Act>, act: Act)
    requires PermissionsBalance(c, acts) && Apply(c, act).Ok?
    ensures PermissionsBalance(Apply(c, act).value, acts + [act])
  {
    var c' := Apply(c, act).value;
    forall id
      ensures Count(acts + [act], Asked(id))
           == Count(acts + [act], Answered(id)) + (if id in c'.permissions then 1 else 0)
    {
      CountLast(acts, act, Asked(id));
      CountLast(acts, act, Answered(id));
      PermissionsMoves(c, act, id);
    }
  }

  lemma PermissionsMoves(c: Collector, act: Act, id: string)
    requires Apply(c, act).Ok?
    ensures Shifts(MarkOf(act), Asked(id), Answered(id), id in c.permissions, id in Apply(c, act).value.permissions)
  {
  }

  lemma ApplyBalancesInputs(c: Collector, acts: seq<Act>, act: Act)
    requires InputsBalance(c, acts) && Apply(c, act).Ok?
    ensures InputsBalance(Apply(c, act).value, acts + [act])
  {
    var c' := Apply(c, act).value;
    forall id
      ensures Count(acts + [act], Wanted(id))
           == Count(acts + [act], Given(id)) + (if id in c'.inputs then 1 else 0)
    {
      CountLast(acts, act, Wanted(id));
      CountLast(acts, act, Given(id));
      InputsMoves(c, act, id);
    }
  }

  lemma InputsMoves(c: Collector, act: Act, id: string)
    requires Apply(c, act).Ok?
    ensures Shifts(MarkOf(act), Wanted(id), Given(id), id in c.inputs, id in Apply(c, act).value.inputs)
  {
  }

  /** Only a delta of the turn's own session changes the text, and by exactly its text. */
  lemma ApplyText(c: Collector, act: Act)
    requires Utf8Length(c.text) <= MAX_TEXT_BYTES && Apply(c, act).Ok?
    ensures Apply(c, act).value.text == if act.Seen? && act.e.TextDelta? then c.text + act.e.text else c.text
    ensures Utf8Length(Apply(c, act).value.text) <= MAX_TEXT_BYTES
  {
    if act.Seen? && act.e.TextDelta? {
      Utf8LengthAdds(c.text, act.e.text);
    }
  }

  lemma ApplyUsage(c: Collector, act: Act)
    requires Apply(c, act).Ok?
    ensures var c' := Apply(c, act).value;
            (c'.input, c'.output, c'.cacheRead) ==
              if act.Seen? && act.e.TokenUsage?
              then (act.e.input, act.e.output, if act.e.cacheRead.Some? then act.e.cacheRead.value else 0)
              else (c.input, c.output, c.cacheRead)
  {
  }

  lemma ApplyReports(c: Collector, acts: seq<Act>, act: Act)
    requires Reported(c, acts) && Apply(c, act).Ok?
    ensures Reported(Apply(c, act).value, acts + [act])
  {
    ReportLast(acts, act);
    ApplyText(c, act);
    ApplyUsage(c, act);
    assert c.text + "" == c.text;
  }

  lemma ApplyEnds(c: Collector, acts: seq<Act>, act: Act)
    requires Ended(c, acts) && Apply(c, act).Ok?
    ensures Ended(Apply(c, act).value, acts + [act])
  {
    AppendEnds(acts, act);
  }

  /** Whatever was tried, the collector is faithful to exactly what it accepted. */
  lemma CollectorsAreFaithful(session: string, acts: seq<Act>)
    ensures Faithful(After(session, acts), Accepted(session, acts)) && After(session, acts).session == session
  {
    RunsBalance(session, acts);
    RunsReport(session, acts);
    RunsEnd(session, acts);
    SessionStays(session, acts);
  }

  lemma {:induction false} RunsBalance(session: string, acts: seq<Act>)
    ensures Balanced(After(session, acts), Accepted(session, acts))
  {
    if acts != [] {
      var front, last := acts[..|acts| - 1], acts[|acts| - 1];
      RunsBalance(session, front);
      if Apply(After(session, front), last).Ok? {
        ApplyBalances(After(session, front), Accepted(session, front), last);
      }
    }
  }

  lemma {:induction false} RunsReport(session: string, acts: seq<Act>)
    ensures Reported(After(session, acts), Accepted(session, acts))
  {
    if acts != [] {
      var front, last := acts[..|acts| - 1], acts[|acts| - 1];
      RunsReport(session, front);
      if Apply(After(session, front), last).Ok? {
        ApplyReports(After(session, front), Accepted(session, front), last);
      }
    }
  }

  lemma {:induction false} RunsEnd(session: string, acts: seq<Act>)
    ensures Ended(After(session, acts), Accepted(session, acts))
  {
    if acts != [] {
      var front, last := acts[..|acts| - 1], acts[|acts| - 1];
      RunsEnd(session, front);
      if Apply(After(session, front), last).Ok? {
        ApplyEnds(After(session, front), Accepted(session, front), last);
      }
    }
  }

  lemma {:induction false} SessionStays(session: string, acts: seq<Act>)
    ensures After(session, acts).session == session
  {
    if acts != [] {
      var front, last := acts[..|acts| - 1], acts[|acts| - 1];
      SessionStays(session, front);
      if Apply(After(session, front), last).Ok? {
        SessionIsKept(After(session, front), last);
      }
    }
  }

  lemma SessionIsKept(c: Collector, act: Act)
    requires Apply(c, act).Ok?
    ensures Apply(c, act).value.session == c.session
  {
  }

  /**
   * A turn that finishes has balanced tool calls, permissions and inputs; its text
   * is its deltas in order and within bounds; its usage is the last report; and
   * nothing of its session came after its end.
   */
  lemma FinishedTurnsAreBalanced(session: string, acts: seq<Act>)
    requires FinishTurn(After(session, acts)).Ok?
    ensures var r, seen := FinishTurn(After(session, acts)).value, Accepted(session, acts);
            && r.session == session && r.text == TextOf(seen) && Utf8Length(r.text) <= MAX_TEXT_BYTES
            && (r.input, r.output, r.cacheRead) == UsageOf(seen)
            && (forall id :: Count(seen, Started(id)) == Count(seen, Finished(id)))
            && (forall id :: Count(seen, Asked(id)) == Count(seen, Answered(id)))
            && (forall id :: Count(seen, Wanted(id)) == Count(seen, Given(id)))
            && HasEnd(seen) && NothingAfterEnd(seen)
  {
    CollectorsAreFaithful(session, acts);
  }

  /** At every moment of any turn a call id is open at most once: starts and ends alternate. */
  lemma ToolsAlternate(session: string, acts: seq<Act>, id: string)
    ensures var seen := Accepted(session, acts);
            Count(seen, Finished(id)) <= Count(seen, Started(id)) <= Count(seen, Finished(id)) + 1
  {
    CollectorsAreFaithful(session, acts);
  }
}
