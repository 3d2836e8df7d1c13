/**
 * The ordering guard that turns native events into AG-UI events
 * (adapters/ag-ui/src/translator.ts), and exactly which streams it accepts.
 */
module StreamTranslator {
  import opened Basics
  import opened Projection
  import opened GeneratorRuns
  import opened GeneratorContents
  import opened Delivery

  const MAX_EVENTS: nat := 4096

  datatype AgEvent =
    | RunStart(parent: Option<string>)
    | CustomPreview(message: string, text: string, replace: bool)
    | TextStart(message: string)
    | TextContent(message: string, delta: string)
    | TextEnd(message: string)
    | ToolCallStart(tool: string, name: string)
    | ToolCallArgs(tool: string, delta: string)
    | ToolCallEnd(tool: string)
    | ToolCallResult(tool: string, message: string, content: string)
    | StateSnap(approval: string)
    | MessagesSnap(prompt: Option<string>, assistant: Option<string>)
    | StepStart(step: string)
    | StepFinish(step: string)
    | RunInterrupted(approval: string, revision: nat, message: string, proposed: Option<string>)
    | RunSucceeded
    | RunError(code: RefusalCode)

  function Translate(body: Body): (r: seq<AgEvent>)
    ensures 1 <= |r| <= 3
  {
    match body
    case RunStarted(parent, _) => [RunStart(parent)]
    case Preview(message, text, replace) => [CustomPreview(message, text, replace)]
    case MessageCompleted(message, text) => [TextStart(message), TextContent(message, text), TextEnd(message)]
    case ToolStart(tool, name) => [ToolCallStart(tool, name)]
    case ToolArgs(tool, progress) => [ToolCallArgs(tool, progress)]
    case ToolEnd(tool) => [ToolCallEnd(tool)]
    case ToolResult(tool, message, content) => [ToolCallResult(tool, message, content)]
    case StepStarted(step) => [StepStart(step)]
    case StepFinished(step) => [StepFinish(step)]
    case StateSnapshot(approval) => [StateSnap(approval)]
    case MessagesSnapshot(prompt, assistant) => [MessagesSnap(prompt, assistant)]
    case ApprovalAsked(approval, revision, message, proposed) => [RunInterrupted(approval, revision, message, proposed)]
    case RunFinished => [RunSucceeded]
    case RunRefused(code) => [RunError(code)]
  }

  predicate IsTerminal(e: AgEvent) {
    e.RunInterrupted? || e.RunSucceeded? || e.RunError?
  }

  // ------------------------------------------------------------ the guard

  datatype Guard = Guard(open: set<string>, awaiting: set<string>, started: bool, last: nat, count: nat,
                         terminal: bool, stated: bool, messaged: bool, cursor: Option<string>)

  const UNSTARTED: Guard := Guard({}, {}, false, 0, 0, false, false, false, None)

  function Awaited(proposed: Option<string>): set<string> {
    if proposed.Some? then {proposed.value} else {}
  }

  /** The tool calls of an earlier run that this one may answer. */
  function Carried(tools: seq<string>): set<string> {
    set tool | tool in tools
  }

  /** What an event asks of the tools and the checkpoints, and does to them; none where the guard throws. */
  function ToolStep(g: Guard, body: Body): Option<Guard> {
    match body
    case RunStarted(_, carried) => Some(g.(awaiting := g.awaiting + Carried(carried)))
    case ToolStart(tool, _) => if tool in g.open then None else Some(g.(open := g.open + {tool}))
    case ToolArgs(tool, _) => if tool in g.open then Some(g) else None
    case ToolEnd(tool) =>
      if tool in g.open then Some(g.(open := g.open - {tool}, awaiting := g.awaiting + {tool})) else None
    case ToolResult(tool, _, _) => if tool in g.awaiting then Some(g.(awaiting := g.awaiting - {tool})) else None
    case StateSnapshot(_) => Some(g.(stated := true))
    case MessagesSnapshot(_, _) => Some(g.(messaged := true))
    case ApprovalAsked(_, _, _, proposed) =>
      if g.stated && g.messaged && g.open == {} && g.awaiting == Awaited(proposed)
      then Some(g.(terminal := true)) else None
    case RunFinished => if g.open == {} && g.awaiting == {} then Some(g.(terminal := true)) else None
    case RunRefused(_) => if g.open == {} && g.awaiting == {} then Some(g.(terminal := true)) else None
    case _ => Some(g)
  }

  /** The tests of one event's own fields, whichever they are. */
  type Validity = Native -> bool

  /** One event; none where the guard throws. */
  function Guarded(valid: Validity, g: Guard, e: Native): Option<Guard> {
    if g.count >= MAX_EVENTS || !valid(e) then None
    else if e.body.RunStarted? == g.started then None
    else if e.sequence <= g.last || g.terminal then None
    else
      var g' := ToolStep(g, e.body);
      if g'.None? then None
      else Some(g'.value.(started := true, last := e.sequence, count := g.count + 1, cursor := Some(e.cursor)))
  }

  function GuardAfter(valid: Validity, history: seq<Native>): Option<Guard> {
    if history == [] then Some(UNSTARTED)
    else
      var g := GuardAfter(valid, history[..|history| - 1]);
      if g.None? then None else Guarded(valid, g.value, history[|history| - 1])
  }

  class NativeStreamTranslator {
    const valid: Validity
    var open: set<string>
    var awaiting: set<string>
    var started: bool
    var last: nat
    var count: nat
    var terminal: bool
    var stated: bool
    var messaged: bool
    var cursor: Option<string>

    constructor (valid: Validity)
      ensures View() == UNSTARTED && this.valid == valid
    {
      this.valid := valid;
      open, awaiting, started, last, count := {}, {}, false, 0, 0;
      terminal, stated, messaged, cursor := false, false, false, None;
    }

    function View(): Guard
      reads this
    {
      Guard(open, awaiting, started, last, count, terminal, stated, messaged, cursor)
    }

    /** The switch over the kinds; false where it throws. */
    method TakeTool(body: Body) returns (ok: bool)
      modifies this
      ensures ok <==> ToolStep(old(View()), body).Some?
      ensures ok ==> View() == ToolStep(old(View()), body).value
    {
      match body {
        case RunStarted(_, carried) => awaiting := awaiting + Carried(carried);
        case ToolStart(tool, _) =>
          if tool in open {
            return false;
          }
          open := open + {tool};
        case ToolArgs(tool, _) =>
          if tool !in open {
            return false;
          }
        case ToolEnd(tool) =>
          if tool !in open {
            return false;
          }
          open := open - {tool};
          awaiting := awaiting + {tool};
        case ToolResult(tool, _, _) =>
          if tool !in awaiting {
            return false;
          }
          awaiting := awaiting - {tool};
        case StateSnapshot(_) => stated := true;
        case MessagesSnapshot(_, _) => messaged := true;
        case ApprovalAsked(_, _, _, proposed) =>
          if !stated || !messaged || open != {} || awaiting != Awaited(proposed) {
            return false;
          }
          terminal := true;
        case RunFinished =>
          if open != {} || awaiting != {} {
            return false;
          }
          terminal := true;
        case RunRefused(_) =>
          if open != {} || awaiting != {} {
            return false;
          }
          terminal := true;
        case _ =>
      }
      return true;
    }

    method Push(e: Native) returns (r: Option<seq<AgEvent>>)
      modifies this
      ensures r.Some? <==> Guarded(valid, old(View()), e).Some?
      ensures r.Some? ==> View() == Guarded(valid, old(View()), e).value && r.value == Translate(e.body)
    {
      if count >= MAX_EVENTS || !valid(e) {
        return None;
      }
      if e.body.RunStarted? == started || e.sequence <= last || terminal {
        return None;
      }
      var ok := TakeTool(e.body);
      if !ok {
        return None;
      }
      started, count, last, cursor := true, count + 1, e.sequence, Some(e.cursor);
      return Some(Translate(e.body));
    }
  }

  // ------------------------------------------------------------ the law it enforces

  /** A tool call was started and not ended since. */
  ghost predicate IsOpen(bs: seq<Body>, tool: string) {
    exists i :: 0 <= i < |bs| && bs[i].ToolStart? && bs[i].tool == tool
                && forall j | i < j < |bs| :: bs[j] != ToolEnd(tool)
  }

  /** A result is owed after the event: it ended the call, or took it over from an earlier run. */
  predicate Owes(b: Body, tool: string) {
    b == ToolEnd(tool) || (b.RunStarted? && tool in b.carried)
  }

  /** A result was owed and not given since. */
  ghost predicate IsAwaited(bs: seq<Body>, tool: string) {
    exists i :: 0 <= i < |bs| && Owes(bs[i], tool)
                && forall j | i < j < |bs| :: !(bs[j].ToolResult? && bs[j].tool == tool)
  }

  predicate HasState(bs: seq<Body>) {
    exists i :: 0 <= i < |bs| && bs[i].StateSnapshot?
  }

  predicate HasMessages(bs: seq<Body>) {
    exists i :: 0 <= i < |bs| && bs[i].MessagesSnapshot?
  }

  ghost predicate NoneOpen(bs: seq<Body>) {
    forall tool :: !IsOpen(bs, tool)
  }

  /** The calls left without a result are exactly those given. */
  ghost predicate AwaitsOnly(bs: seq<Body>, tools: set<string>) {
    forall tool :: IsAwaited(bs, tool) <==> tool in tools
  }

  /** What an event may follow. */
  ghost predicate MayFollow(bs: seq<Body>, body: Body) {
    match body
    case ToolStart(tool, _) => !IsOpen(bs, tool)
    case ToolArgs(tool, _) => IsOpen(bs, tool)
    case ToolEnd(tool) => IsOpen(bs, tool)
    case ToolResult(tool, _, _) => IsAwaited(bs, tool)
    case ApprovalAsked(_, _, _, proposed) =>
      HasState(bs) && HasMessages(bs) && NoneOpen(bs) && AwaitsOnly(bs, Awaited(proposed))
    case RunFinished => NoneOpen(bs) && AwaitsOnly(bs, {})
    case RunRefused(_) => NoneOpen(bs) && AwaitsOnly(bs, {})
    case _ => true
  }

  /** Few enough, each valid, in order, announced first and once, ended last or not at all. */
  ghost predicate WellFramed(valid: Validity, events: seq<Native>) {
    && |events| <= MAX_EVENTS
    && (forall i | 0 <= i < |events| :: valid(events[i]) && 1 <= events[i].sequence)
    && Ordered(events)
    && (forall i | 0 <= i < |events| :: events[i].body.RunStarted? <==> i == 0)
    && (forall i | 0 <= i < |events| - 1 :: !EndsRun(events[i].body))
  }

  ghost predicate EachMayFollow(events: seq<Native>) {
    forall i | 0 <= i < |events| :: MayFollow(BodiesOf(events[..i]), events[i].body)
  }

  /** A stream the law allows: every condition is on the list of events alone. */
  ghost predicate LawfulStream(valid: Validity, events: seq<Native>) {
    WellFramed(valid, events) && EachMayFollow(events)
  }

  // ------------------------------------------------------------ one more event

  lemma OpenLast(bs: seq<Body>, b: Body, tool: string)
    ensures IsOpen(bs + [b], tool) <==> (b.ToolStart? && b.tool == tool) || (IsOpen(bs, tool) && b != ToolEnd(tool))
  {
    var bs' := bs + [b];
    assert bs'[|bs|] == b;
    if IsOpen(bs, tool) && b != ToolEnd(tool) {
      var i :| && 0 <= i < |bs| && bs[i].ToolStart? && bs[i].tool == tool
               && forall j | i < j < |bs| :: bs[j] != ToolEnd(tool);
      assert bs'[i] == bs[i] && forall j | i < j < |bs'| :: bs'[j] != ToolEnd(tool);
    }
    if IsOpen(bs', tool) && !(b.ToolStart? && b.tool == tool) {
      var i :| && 0 <= i < |bs'| && bs'[i].ToolStart? && bs'[i].tool == tool
               && forall j | i < j < |bs'| :: bs'[j] != ToolEnd(tool);
      assert i < |bs| && bs[i] == bs'[i] && forall j | i < j < |bs| :: bs[j] == bs'[j];
    }
  }

  lemma AwaitedLast(bs: seq<Body>, b: Body, tool: string)
    ensures IsAwaited(bs + [b], tool) <==>
            Owes(b, tool) || (IsAwaited(bs, tool) && !(b.ToolResult? && b.tool == tool))
  {
    var bs' := bs + [b];
    assert bs'[|bs|] == b;
    if IsAwaited(bs, tool) && !(b.ToolResult? && b.tool == tool) {
      var i :| 0 <= i < |bs| && Owes(bs[i], tool)
               && forall j | i < j < |bs| :: !(bs[j].ToolResult? && bs[j].tool == tool);
      assert bs'[i] == bs[i] && forall j | i < j < |bs'| :: !(bs'[j].ToolResult? && bs'[j].tool == tool);
    }
    if IsAwaited(bs', tool) && !Owes(b, tool) {
      var i :| 0 <= i < |bs'| && Owes(bs'[i], tool)
               && forall j | i < j < |bs'| :: !(bs'[j].ToolResult? && bs'[j].tool == tool);
      assert i < |bs| && bs[i] == bs'[i] && forall j | i < j < |bs| :: bs[j] == bs'[j];
    }
  }

  lemma SnapshotsLast(bs: seq<Body>, b: Body)
    ensures HasState(bs + [b]) <==> HasState(bs) || b.StateSnapshot?
    ensures HasMessages(bs + [b]) <==> HasMessages(bs) || b.MessagesSnapshot?
  {
    var bs' := bs + [b];
    assert bs'[|bs|] == b;
    assert forall i | 0 <= i < |bs| :: bs'[i] == bs[i];
  }

  /** The guard's sets and flags are what the events so far say. */
  ghost predicate Tracks(g: Guard, bs: seq<Body>) {
    && (forall tool :: tool in g.open <==> IsOpen(bs, tool))
    && AwaitsOnly(bs, g.awaiting)
    && (g.stated <==> HasState(bs))
    && (g.messaged <==> HasMessages(bs))
  }

  lemma StepAllows(g: Guard, bs: seq<Body>, b: Body)
    requires Tracks(g, bs)
    ensures ToolStep(g, b).Some? <==> MayFollow(bs, b)
  {
    assert NoneOpen(bs) <==> g.open == {};
    if b.ApprovalAsked? {
      SameSets(bs, g.awaiting, Awaited(b.proposed));
    } else if b.RunFinished? || b.RunRefused? {
      SameSets(bs, g.awaiting, {});
    }
  }

  lemma SameSets(bs: seq<Body>, a: set<string>, b: set<string>)
    requires AwaitsOnly(bs, a)
    ensures AwaitsOnly(bs, b) <==> a == b
  {
  }

  lemma StepTracks(g: Guard, bs: seq<Body>, b: Body)
    requires Tracks(g, bs) && ToolStep(g, b).Some?
    ensures Tracks(ToolStep(g, b).value, bs + [b])
  {
    SnapshotsLast(bs, b);
    forall tool ensures tool in ToolStep(g, b).value.open <==> IsOpen(bs + [b], tool) {
      OpenLast(bs, b, tool);
    }
    forall tool ensures IsAwaited(bs + [b], tool) <==> tool in ToolStep(g, b).value.awaiting {
      AwaitedLast(bs, b, tool);
    }
  }

  // ------------------------------------------------------------ whole streams

  ghost predicate NextLawful(valid: Validity, events: seq<Native>, e: Native) {
    && |events| < MAX_EVENTS && valid(e)
    && (events == [] ==> 1 <= e.sequence)
    && (events != [] ==> events[|events| - 1].sequence < e.sequence && !EndsRun(events[|events| - 1].body))
    && (e.body.RunStarted? <==> events == [])
    && MayFollow(BodiesOf(events), e.body)
  }

  lemma LawfulPrefix(valid: Validity, events: seq<Native>, e: Native)
    requires LawfulStream(valid, events + [e])
    ensures LawfulStream(valid, events) && NextLawful(valid, events, e)
  {
    var all := events + [e];
    assert forall i | 0 <= i < |events| :: all[i] == events[i] && all[..i] == events[..i];
    assert all[|events|] == e && all[..|events|] == events;
  }

  lemma LawfulExtends(valid: Validity, events: seq<Native>, e: Native)
    requires LawfulStream(valid, events) && NextLawful(valid, events, e)
    ensures LawfulStream(valid, events + [e])
  {
    FramedExtends(valid, events, e);
    FollowExtends(events, e);
  }

  lemma FollowExtends(events: seq<Native>, e: Native)
    requires EachMayFollow(events) && MayFollow(BodiesOf(events), e.body)
    ensures EachMayFollow(events + [e])
  {
    var all := events + [e];
    forall i | 0 <= i < |all| ensures MayFollow(BodiesOf(all[..i]), all[i].body) {
      if i < |events| {
        assert all[..i] == events[..i];
      } else {
        assert all[..i] == events;
      }
    }
  }

  lemma FramedExtends(valid: Validity, events: seq<Native>, e: Native)
    requires WellFramed(valid, events) && |events| < MAX_EVENTS && valid(e)
    requires events == [] ==> 1 <= e.sequence
    requires events != [] ==> events[|events| - 1].sequence < e.sequence && !EndsRun(events[|events| - 1].body)
    requires e.body.RunStarted? <==> events == []
    ensures WellFramed(valid, events + [e])
  {
    OrderedExtends(events, e);
    if events != [] {
      assert 1 <= events[|events| - 1].sequence;
    }
  }

  lemma OrderedExtends(events: seq<Native>, e: Native)
    requires Ordered(events) && (events != [] ==> events[|events| - 1].sequence < e.sequence)
    ensures Ordered(events + [e])
  {
    var all := events + [e];
    forall i, j | 0 <= i < j < |all| ensures all[i].sequence < all[j].sequence {
      if j == |events| && i < |events| - 1 {
        assert events[i].sequence < events[|events| - 1].sequence;
      }
    }
  }

  /** What the guard remembers of an accepted stream. */
  ghost predicate Remembers(g: Guard, events: seq<Native>) {
    && Tracks(g, BodiesOf(events))
    && g.count == |events| && (g.started <==> events != [])
    && g.last == (if events == [] then 0 else events[|events| - 1].sequence)
    && g.cursor == (if events == [] then None else Some(events[|events| - 1].cursor))
    && (g.terminal <==> events != [] && EndsRun(events[|events| - 1].body))
  }

  lemma GuardedIsLawful(valid: Validity, g: Guard, events: seq<Native>, e: Native)
    requires Remembers(g, events) && (events != [] ==> 1 <= events[|events| - 1].sequence)
    ensures Guarded(valid, g, e).Some? <==> NextLawful(valid, events, e)
    ensures Guarded(valid, g, e).Some? ==> Remembers(Guarded(valid, g, e).value, events + [e])
  {
    var bs := BodiesOf(events);
    StepAllows(g, bs, e.body);
    if Guarded(valid, g, e).Some? {
      StepTracks(g, bs, e.body);
      assert BodiesOf(events + [e]) == bs + [e.body];
    }
  }

  /** The guard accepts a stream exactly when the law allows it, and then remembers it rightly. */
  lemma {:induction false} GuardEnforcesTheLaw(valid: Validity, events: seq<Native>)
    ensures GuardAfter(valid, events).Some? <==> LawfulStream(valid, events)
    ensures GuardAfter(valid, events).Some? ==> Remembers(GuardAfter(valid, events).value, events)
  {
    if events != [] {
      var front, e := events[..|events| - 1], events[|events| - 1];
      assert events == front + [e];
      GuardEnforcesTheLaw(valid, front);
      if GuardAfter(valid, front).Some? {
        GuardedIsLawful(valid, GuardAfter(valid, front).value, front, e);
        if NextLawful(valid, front, e) {
          LawfulExtends(valid, front, e);
        }
      }
      if LawfulStream(valid, events) {
        LawfulPrefix(valid, front, e);
      }
    }
  }

  // ------------------------------------------------------------ as a translator of deliveries

  function Projections(valid: Validity, history: seq<Native>): Option<seq<AgEvent>> {
    if history == [] || GuardAfter(valid, history).None? then None else Some(Translate(history[|history| - 1].body))
  }

  predicate MayFinish(valid: Validity, history: seq<Native>) {
    var g := GuardAfter(valid, history);
    g.Some? && g.value.started && g.value.terminal
  }

  function TheTranslator(valid: Validity): Translator<AgEvent> {
    Translator(history => Projections(valid, history), history => MayFinish(valid, history), IsTerminal)
  }

  lemma {:induction false} AcceptsAsGuarded(valid: Validity, history: seq<Native>)
    ensures Accepts(TheTranslator(valid), history) <==> GuardAfter(valid, history).Some?
  {
    if history != [] {
      AcceptsAsGuarded(valid, history[..|history| - 1]);
    }
  }
}
