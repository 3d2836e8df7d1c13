/** What the events of a run say: the message, the tools, and how the run ended. */
module GeneratorContents {
  import opened Basics
  import opened Projection

  // ------------------------------------------------------------ the message

  /** The assistant's message as a reader of the events rebuilds it. */
  function Shown(events: seq<Native>): string {
    if events == [] then ""
    else ShownBy(Shown(events[..|events| - 1]), events[|events| - 1].body)
  }

  function ShownBy(before: string, body: Body): string {
    match body
    case Preview(_, text, replace) => if replace then text else before + text
    case MessageCompleted(_, text) => text
    case _ => before
  }

  lemma {:induction false} ShownAfter(events: seq<Native>, run: string, progress: nat, bodies: seq<Body>)
    ensures Shown(events + Numbered(run, progress, bodies)) == ShownOver(Shown(events), bodies)
    decreases |bodies|
  {
    var es := Numbered(run, progress, bodies);
    if bodies == [] {
      assert events + es == events;
    } else {
      var front := bodies[..|bodies| - 1];
      ShownAfter(events, run, progress, front);
      assert (events + es)[..|events + es| - 1] == events + Numbered(run, progress, front);
    }
  }

  function ShownOver(before: string, bodies: seq<Body>): string {
    if bodies == [] then before
    else ShownBy(ShownOver(before, bodies[..|bodies| - 1]), bodies[|bodies| - 1])
  }

  predicate Silent(bodies: seq<Body>) {
    forall i | 0 <= i < |bodies| :: !bodies[i].Preview? && !bodies[i].MessageCompleted?
  }

  lemma {:induction false} SilentShowsNothing(before: string, bodies: seq<Body>)
    requires Silent(bodies)
    ensures ShownOver(before, bodies) == before
  {
    if bodies != [] {
      SilentShowsNothing(before, bodies[..|bodies| - 1]);
    }
  }

  lemma ProjectedMessage(setting: Setting, frame: Frame, st: State, approval: Option<Approval>)
    ensures var p := Project(setting, frame, st, approval);
            || (Silent(p.bodies) && p.state.assistant == st.assistant)
            || (|p.bodies| == 1 && p.state.assistant == ShownBy(st.assistant, p.bodies[0]))
  {
    if frame.kind.AssistantDelta? && frame.text.Some? {
      DeltaMessage(setting, st, frame.text.value);
    } else if frame.kind.ApprovalRequested? && approval.Some? {
      InterruptIsSilent(setting, st, approval.value, frame.text);
    } else if frame.kind.ToolCompleted? && st.tool.Some? {
      ToolDoneIsSilent(st, st.tool.value, frame.text);
    } else if frame.kind.AssistantCompleted? || frame.kind.TurnCompleted? {
      CompletionMessage(setting, frame, st, approval);
    } else {
      OthersAreSilent(setting, frame, st, approval);
    }
  }

  lemma CompletionMessage(setting: Setting, frame: Frame, st: State, approval: Option<Approval>)
    requires frame.kind.AssistantCompleted? || frame.kind.TurnCompleted?
    ensures var p := Project(setting, frame, st, approval);
            || (p.bodies == [] && p.state.assistant == st.assistant)
            || (|p.bodies| == 1 && p.state.assistant == ShownBy(st.assistant, p.bodies[0]))
  {
  }

  lemma OthersAreSilent(setting: Setting, frame: Frame, st: State, approval: Option<Approval>)
    requires !frame.kind.AssistantCompleted? && !frame.kind.TurnCompleted?
    requires !(frame.kind.AssistantDelta? && frame.text.Some?) && !(frame.kind.ApprovalRequested? && approval.Some?)
    requires !(frame.kind.ToolCompleted? && st.tool.Some?)
    ensures var p := Project(setting, frame, st, approval); Silent(p.bodies) && p.state.assistant == st.assistant
  {
  }

  lemma InterruptIsSilent(setting: Setting, st: State, approval: Approval, text: Option<string>)
    ensures var p := Interrupt(setting, st, approval, text); Silent(p.bodies) && p.state.assistant == st.assistant
  {
  }

  lemma ToolDoneIsSilent(st: State, tool: Tool, text: Option<string>)
    ensures var p := ToolDone(st, tool, text); Silent(p.bodies) && p.state.assistant == st.assistant
  {
  }

  lemma DeltaMessage(setting: Setting, st: State, text: string)
    ensures var p := Delta(setting, st, text);
            |p.bodies| == 1 && p.state.assistant == ShownBy(st.assistant, p.bodies[0])
  {
  }

  lemma OneShown(before: string, body: Body)
    ensures ShownOver(before, [body]) == ShownBy(before, body)
  {
    assert [body][..0] == [];
  }

  lemma AnnouncedMessage(setting: Setting, frame: Frame, st: State, bodies: seq<Body>)
    requires Silent(bodies) || |bodies| == 1
    ensures ShownOver(st.assistant, Announced(setting, st, frame, bodies)) == ShownOver(st.assistant, bodies)
  {
    var all := Announced(setting, st, frame, bodies);
    if Silent(bodies) {
      SilentShowsNothing(st.assistant, bodies);
      SilentShowsNothing(st.assistant, all);
    } else if all != bodies {
      var first := RunStarted(setting.parent);
      assert all[..1] == [first] && all[1] == bodies[0] && bodies == [bodies[0]];
      OneShown(st.assistant, first);
      OneShown(st.assistant, bodies[0]);
      assert ShownOver(st.assistant, all) == ShownBy(ShownOver(st.assistant, all[..1]), all[1]);
    }
  }

  /** Replacing and appending the previews as told gives exactly the message the server holds. */
  lemma {:induction false} PreviewsRebuildTheMessage(setting: Setting, frames: seq<Frame>)
    ensures var g := Ran(setting, frames);
            g.status.Going? ==> Shown(g.events) == g.state.assistant
  {
    if frames != [] {
      var front, frame := frames[..|frames| - 1], frames[|frames| - 1];
      PreviewsRebuildTheMessage(setting, front);
      var g := Ran(setting, front);
      if g.status.Going? && !g.resumed {
        ShownAfter(g.events, setting.run, frame.sequence, [RunStarted(setting.parent)]);
        SilentShowsNothing(Shown(g.events), [RunStarted(setting.parent)]);
      } else if g.status.Going? {
        var marker := Marker(setting, frame);
        var approval := if marker.Some? then setting.approval(marker.value) else None;
        ProjectedMessage(setting, frame, g.state, approval);
        MessageStep(setting, g, frame, Project(setting, frame, g.state, approval));
      }
    }
  }

  lemma MessageStep(setting: Setting, g: Progress, frame: Frame, p: Projected)
    requires g.status.Going? && Shown(g.events) == g.state.assistant
    requires || (Silent(p.bodies) && p.state.assistant == g.state.assistant)
             || (|p.bodies| == 1 && p.state.assistant == ShownBy(g.state.assistant, p.bodies[0]))
    ensures var g' := Added(setting, g, frame, p);
            g'.status.Going? ==> Shown(g'.events) == g'.state.assistant
  {
    AnnouncedMessage(setting, frame, g.state, p.bodies);
    ShownAfter(g.events, setting.run, frame.sequence, Announced(setting, g.state, frame, p.bodies));
    if Silent(p.bodies) {
      SilentShowsNothing(g.state.assistant, p.bodies);
    } else {
      OneShown(g.state.assistant, p.bodies[0]);
      assert p.bodies == [p.bodies[0]];
    }
  }

  // ------------------------------------------------------------ the tools

  function BodiesOf(events: seq<Native>): seq<Body> {
    seq(|events|, i requires 0 <= i < |events| => events[i].body)
  }

  lemma BodiesAppend(events: seq<Native>, run: string, progress: nat, bodies: seq<Body>)
    ensures BodiesOf(events + Numbered(run, progress, bodies)) == BodiesOf(events) + bodies
  {
  }

  /** The tool call a reader of the events takes to be open. */
  function OpenTool(bs: seq<Body>): Option<string> {
    if bs == [] then None
    else
      match bs[|bs| - 1]
      case ToolStart(tool, _) => Some(tool)
      case ToolEnd(_) => None
      case _ => OpenTool(bs[..|bs| - 1])
  }

  /** An event about a tool is about the open one; an approval comes right after its snapshots and its tool's end. */
  predicate Sensible(bs: seq<Body>, i: nat)
    requires i < |bs|
  {
    match bs[i]
    case ToolArgs(tool, _) => OpenTool(bs[..i]) == Some(tool)
    case ToolEnd(tool) => OpenTool(bs[..i]) == Some(tool)
    case ToolResult(tool, message, _) => i >= 1 && bs[i - 1] == ToolEnd(tool) && message == "result-" + tool
    case ApprovalAsked(id, _, _, proposed) =>
      && i >= 2 && bs[i - 2] == StateSnapshot(id) && bs[i - 1].MessagesSnapshot?
      && (proposed.Some? ==> i >= 3 && bs[i - 3] == ToolEnd(proposed.value))
    case _ => true
  }

  predicate AllSensible(bs: seq<Body>) {
    forall i | 0 <= i < |bs| :: Sensible(bs, i)
  }

  lemma SensibleAppend(bs: seq<Body>, b: Body)
    requires AllSensible(bs) && Sensible(bs + [b], |bs|)
    ensures AllSensible(bs + [b])
    ensures OpenTool(bs + [b])
         == match b { case ToolStart(tool, _) => Some(tool) case ToolEnd(_) => None case _ => OpenTool(bs) }
  {
    var bs' := bs + [b];
    assert bs'[..|bs|] == bs;
    forall i | 0 <= i < |bs| ensures Sensible(bs', i) {
      StillSensible(bs, b, i);
    }
  }

  lemma StillSensible(bs: seq<Body>, b: Body, i: nat)
    requires i < |bs| && Sensible(bs, i)
    ensures Sensible(bs + [b], i)
  {
    assert (bs + [b])[..i] == bs[..i] && (bs + [b])[i] == bs[i];
  }

  function ToolOf(st: State): Option<string> {
    if st.tool.Some? then Some(st.tool.value.id) else None
  }

  /** One event that is about no tool, or about the open one, or that opens one. */
  lemma OneSensible(bs: seq<Body>, b: Body)
    requires AllSensible(bs) && !b.ToolResult? && !b.ApprovalAsked?
    requires b.ToolArgs? || b.ToolEnd? ==> OpenTool(bs) == Some(b.tool)
    ensures AllSensible(bs + [b])
    ensures OpenTool(bs + [b])
         == match b { case ToolStart(tool, _) => Some(tool) case ToolEnd(_) => None case _ => OpenTool(bs) }
  {
    assert (bs + [b])[..|bs|] == bs;
    SensibleAppend(bs, b);
  }

  lemma ToolDoneIsSensible(bs: seq<Body>, st: State, tool: Tool, text: Option<string>)
    requires AllSensible(bs) && OpenTool(bs) == Some(tool.id)
    ensures var p := ToolDone(st, tool, text);
            AllSensible(bs + p.bodies) && OpenTool(bs + p.bodies) == ToolOf(p.state)
  {
    OneSensible(bs, ToolEnd(tool.id));
    var ended := bs + [ToolEnd(tool.id)];
    if text.Some? {
      var result := ToolResult(tool.id, "result-" + tool.id, text.value);
      assert (ended + [result])[|ended| - 1] == ToolEnd(tool.id);
      SensibleAppend(ended, result);
      assert bs + ToolDone(st, tool, text).bodies == ended + [result];
    } else {
      assert bs + ToolDone(st, tool, text).bodies == ended;
    }
  }

  lemma InterruptIsSensible(bs: seq<Body>, setting: Setting, st: State, approval: Approval, text: Option<string>)
    requires AllSensible(bs) && OpenTool(bs) == ToolOf(st)
    ensures var p := Interrupt(setting, st, approval, text);
            AllSensible(bs + p.bodies) && OpenTool(bs + p.bodies) == ToolOf(p.state)
  {
    var p := Interrupt(setting, st, approval, text);
    var ended := bs;
    if st.tool.Some? {
      OneSensible(bs, ToolEnd(st.tool.value.id));
      ended := bs + [ToolEnd(st.tool.value.id)];
    }
    var n := |p.bodies|;
    AskIsSensible(ended, p.bodies[n - 3], p.bodies[n - 2], p.bodies[n - 1]);
    assert bs + p.bodies == ended + [p.bodies[n - 3]] + [p.bodies[n - 2]] + [p.bodies[n - 1]];
  }

  lemma AskIsSensible(bs: seq<Body>, a: Body, b: Body, c: Body)
    requires AllSensible(bs) && a.StateSnapshot? && b.MessagesSnapshot? && c.ApprovalAsked? && c.approval == a.approval
    requires c.proposed.Some? ==> bs != [] && bs[|bs| - 1] == ToolEnd(c.proposed.value)
    ensures AllSensible(bs + [a] + [b] + [c]) && OpenTool(bs + [a] + [b] + [c]) == OpenTool(bs)
  {
    OneSensible(bs, a);
    OneSensible(bs + [a], b);
    AskIsInPlace(bs, a, b, c);
    SensibleAppend(bs + [a] + [b], c);
  }

  lemma AskIsInPlace(bs: seq<Body>, a: Body, b: Body, c: Body)
    requires a.StateSnapshot? && b.MessagesSnapshot? && c.ApprovalAsked? && c.approval == a.approval
    requires c.proposed.Some? ==> bs != [] && bs[|bs| - 1] == ToolEnd(c.proposed.value)
    ensures Sensible(bs + [a] + [b] + [c], |bs| + 2)
  {
    var all, n := bs + [a] + [b] + [c], |bs|;
    assert all[n] == a && all[n + 1] == b && all[n + 2] == c;
    assert bs != [] ==> all[n - 1] == bs[n - 1];
  }

  lemma ProjectionIsSensible(bs: seq<Body>, setting: Setting, frame: Frame, st: State, approval: Option<Approval>)
    requires AllSensible(bs) && OpenTool(bs) == ToolOf(st)
    ensures var p := Project(setting, frame, st, approval);
            AllSensible(bs + p.bodies) && OpenTool(bs + p.bodies) == ToolOf(p.state)
  {
    var p := Project(setting, frame, st, approval);
    if frame.kind.ToolCompleted? && st.tool.Some? {
      ToolDoneIsSensible(bs, st, st.tool.value, frame.text);
    } else if frame.kind.ApprovalRequested? && approval.Some? {
      InterruptIsSensible(bs, setting, st, approval.value, frame.text);
    } else if p.bodies == [] {
      EmptySuffix(bs);
    } else {
      OnlyOne(setting, frame, st, approval);
      OneSensible(bs, p.bodies[0]);
    }
  }

  lemma OnlyOne(setting: Setting, frame: Frame, st: State, approval: Option<Approval>)
    requires !(frame.kind.ToolCompleted? && st.tool.Some?) && !(frame.kind.ApprovalRequested? && approval.Some?)
    ensures var p := Project(setting, frame, st, approval);
            p.bodies != [] ==>
              && p.bodies == [p.bodies[0]] && !p.bodies[0].ToolResult? && !p.bodies[0].ApprovalAsked?
              && !p.bodies[0].ToolEnd?
              && (p.bodies[0].ToolArgs? ==> ToolOf(st) == Some(p.bodies[0].tool))
              && ToolOf(p.state) == if p.bodies[0].ToolStart? then Some(p.bodies[0].tool) else ToolOf(st)
    ensures var p := Project(setting, frame, st, approval); p.bodies == [] ==> ToolOf(p.state) == ToolOf(st)
  {
  }

  ghost predicate Telling(g: Progress) {
    AllSensible(BodiesOf(g.events)) && OpenTool(BodiesOf(g.events)) == ToolOf(g.state)
  }

  lemma AbsorbTells(setting: Setting, g: Progress, frame: Frame, approval: Option<Approval>)
    requires Telling(g)
    ensures Telling(Absorb(setting, g, frame, approval))
  {
    var p := Project(setting, frame, g.state, approval);
    var bs, bodies := BodiesOf(g.events), Announced(setting, g.state, frame, p.bodies);
    if bodies == p.bodies {
      ProjectionIsSensible(bs, setting, frame, g.state, approval);
    } else {
      var first := RunStarted(setting.parent);
      OneSensible(bs, first);
      ProjectionIsSensible(bs + [first], setting, frame, g.state, approval);
      Associates(bs, [first], p.bodies);
    }
    BodiesAppend(g.events, setting.run, frame.sequence, bodies);
  }

  lemma SkipTells(setting: Setting, g: Progress, frame: Frame)
    requires Telling(g)
    ensures Telling(Skip(setting, g, frame))
  {
    BodiesAppend(g.events, setting.run, frame.sequence, [RunStarted(setting.parent)]);
    OneSensible(BodiesOf(g.events), RunStarted(setting.parent));
  }

  lemma {:induction false} RunsTell(setting: Setting, frames: seq<Frame>)
    ensures Telling(Ran(setting, frames))
  {
    if frames != [] {
      var front, frame := frames[..|frames| - 1], frames[|frames| - 1];
      RunsTell(setting, front);
      var g := Ran(setting, front);
      if g.status.Going? && !g.resumed {
        SkipTells(setting, g, frame);
      } else if g.status.Going? {
        var marker := Marker(setting, frame);
        AbsorbTells(setting, g, frame, if marker.Some? then setting.approval(marker.value) else None);
      }
    }
  }

  /** Over any run, whatever the frames: every event about a tool is about the one open at that point. */
  lemma EventsAreAboutTheOpenTool(setting: Setting, frames: seq<Frame>, ending: Ending)
    ensures AllSensible(BodiesOf(Whole(setting, frames, ending).events))
  {
    RunsTell(setting, frames);
    var g := Ran(setting, frames);
    if g.status.Going? && !ending.Broken? && Numberable(g.last) {
      ClosingTells(setting, g, ending.receipt);
    }
  }

  lemma ClosingTells(setting: Setting, g: Progress, receipt: Option<Receipt>)
    requires AllSensible(BodiesOf(g.events))
    ensures AllSensible(BodiesOf(g.events + Closing(setting, g, receipt)))
  {
    var bs, first, end := BodiesOf(g.events), RunStarted(setting.parent), Terminal(g.state, receipt);
    ClosingBodies(setting, g, receipt);
    if g.state.started {
      OneSensible(bs, end);
    } else {
      OneSensible(bs, first);
      OneSensible(bs + [first], end);
    }
  }

  lemma ClosingBodies(setting: Setting, g: Progress, receipt: Option<Receipt>)
    ensures var bs, end := BodiesOf(g.events), Terminal(g.state, receipt);
            BodiesOf(g.events + Closing(setting, g, receipt))
            == if g.state.started then bs + [end] else bs + [RunStarted(setting.parent)] + [end]
  {
  }

  // ------------------------------------------------------------ the outcome

  /** A provider fault among the frames the run took in. */
  ghost predicate FaultSeen(setting: Setting, frames: seq<Frame>) {
    exists i :: 0 <= i < |frames| && frames[i].kind.ProviderFault? && Ran(setting, frames[..i]).resumed
  }

  lemma {:induction false} FaultsAreKept(setting: Setting, frames: seq<Frame>)
    requires Ran(setting, frames).status.Going?
    ensures Ran(setting, frames).state.refusal == if FaultSeen(setting, frames) then Some(InternalFailure) else None
  {
    if frames != [] {
      var front, frame := frames[..|frames| - 1], frames[|frames| - 1];
      FaultsAreKept(setting, front);
      FaultSeenLast(setting, frames);
      RefusalAfter(setting, Ran(setting, front), frame);
    }
  }

  lemma FaultSeenLast(setting: Setting, frames: seq<Frame>)
    requires frames != []
    ensures var front, frame := frames[..|frames| - 1], frames[|frames| - 1];
            FaultSeen(setting, frames) <==>
              FaultSeen(setting, front) || (frame.kind.ProviderFault? && Ran(setting, front).resumed)
  {
    var front := frames[..|frames| - 1];
    assert forall i | 0 <= i < |front| :: front[i] == frames[i] && front[..i] == frames[..i];
    if FaultSeen(setting, front) {
      var i :| 0 <= i < |front| && front[i].kind.ProviderFault? && Ran(setting, front[..i]).resumed;
      assert frames[i].kind.ProviderFault? && Ran(setting, frames[..i]).resumed;
    }
    if FaultSeen(setting, frames) {
      var i :| 0 <= i < |frames| && frames[i].kind.ProviderFault? && Ran(setting, frames[..i]).resumed;
      if i < |front| {
        assert front[i].kind.ProviderFault? && Ran(setting, front[..i]).resumed;
      }
    }
  }

  lemma RefusalAfter(setting: Setting, g: Progress, frame: Frame)
    requires Step(setting, g, frame).status.Going?
    ensures g.status.Going?
    ensures Step(setting, g, frame).state.refusal
         == if frame.kind.ProviderFault? && g.resumed then Some(InternalFailure) else g.state.refusal
  {
  }

  /**
   * A run that ends without an interruption is finished exactly when no fault was seen and
   * its receipt, if any, completed.
   */
  lemma RunsEndAsTheyWent(setting: Setting, frames: seq<Frame>, ending: Ending)
    requires Ran(setting, frames).status.Going? && ending.Retired? && Numberable(Ran(setting, frames).last)
    ensures var events := Whole(setting, frames, ending).events;
            && events != []
            && events[|events| - 1].body ==
                 if FaultSeen(setting, frames) then RunRefused(InternalFailure)
                 else if ending.receipt.None? || ending.receipt.value.outcome == "completed" then RunFinished
                 else if ending.receipt.value.explanation == Some("policy_refused") then RunRefused(PolicyRefused)
                 else RunRefused(InternalFailure)
  {
    FaultsAreKept(setting, frames);
  }
}
