/** Which progress frames make a run the translator lets through: a condition on the frames. */
module FrameLaw {
  import opened Basics
  import opened Projection
  import opened GeneratorRuns
  import opened GeneratorContents
  import opened Delivery
  import opened StreamTranslator
  import opened TranslatorRuns

  // ------------------------------------------------------------ what the frames say

  /** The frames the run takes in: since it found the approvals it resumes from, until it ended. */
  function Intake(setting: Setting, frames: seq<Frame>): seq<Frame> {
    if frames == [] then []
    else
      var front := frames[..|frames| - 1];
      var g := Ran(setting, front);
      Intake(setting, front) + if g.status.Going? && g.resumed then [frames[|frames| - 1]] else []
  }

  function ToolNamed(setting: Setting, frame: Frame): string {
    setting.toolId(if frame.text.Some? then frame.text.value else "tool")
  }

  /** The tool that was started last and has not completed. */
  function Held(setting: Setting, fs: seq<Frame>): Option<string> {
    if fs == [] then None
    else
      var front, frame := fs[..|fs| - 1], fs[|fs| - 1];
      if frame.kind.ToolStarted? then Some(ToolNamed(setting, frame))
      else if frame.kind.ToolCompleted? then None
      else Held(setting, front)
  }

  /** The last completion of the tool had no text. */
  predicate Silenced(setting: Setting, fs: seq<Frame>, tool: string) {
    fs != [] &&
    var front, frame := fs[..|fs| - 1], fs[|fs| - 1];
    if frame.kind.ToolCompleted? && Held(setting, front) == Some(tool) then frame.text.None?
    else Silenced(setting, front, tool)
  }

  /** No tool starts while another is held. */
  predicate OneAtATime(setting: Setting, fs: seq<Frame>) {
    forall j | 0 <= j < |fs| :: fs[j].kind.ToolStarted? ==> Held(setting, fs[..j]) == None
  }

  /** The frame gives no event unless something was said before it. */
  predicate Mute(frame: Frame) {
    match frame.kind
    case TurnStarted => false
    case ToolStarted => false
    case AssistantDelta => frame.text.None?
    case AssistantCompleted => frame.text.None?
    case SubagentStarted => frame.text.None?
    case SubagentCompleted => frame.text.None?
    case _ => true
  }

  /** Nothing was said yet: the run was not resumed and every frame was mute. */
  predicate Quiet(setting: Setting, fs: seq<Frame>) {
    setting.resume == {} && forall i | 0 <= i < |fs| :: Mute(fs[i])
  }

  /** A turn starts only before anything was said. */
  predicate StartsFirst(setting: Setting, fs: seq<Frame>) {
    forall j | 0 <= j < |fs| :: fs[j].kind.TurnStarted? ==> Quiet(setting, fs[..j])
  }

  /** At the end no tool is held and none was silenced, but the one an approval asks about. */
  ghost predicate Settled(setting: Setting, fs: seq<Frame>, interrupted: bool) {
    if interrupted then forall tool | Silenced(setting, fs, tool) :: Held(setting, fs) == Some(tool)
    else Held(setting, fs) == None && NoneSilenced(setting, fs)
  }

  ghost predicate NoneSilenced(setting: Setting, fs: seq<Frame>) {
    forall tool :: !Silenced(setting, fs, tool)
  }

  ghost predicate InOrder(setting: Setting, frames: seq<Frame>) {
    var fs := Intake(setting, frames);
    && StartsFirst(setting, fs) && OneAtATime(setting, fs)
    && Settled(setting, fs, Ran(setting, frames).status.Interrupted?)
  }

  // ------------------------------------------------------------ what the events say

  datatype Tally = Tally(held: Option<string>, owed: iset<string>, single: bool, once: bool)

  ghost function Told(bs: seq<Body>): Tally {
    Tally(OpenTool(bs), (iset tool | IsAwaited(bs, tool)), OneToolAtATime(bs), AnnouncedOnce(bs))
  }

  /** What one more event does to the tally. */
  ghost function Next(t: Tally, first: bool, b: Body): Tally {
    match b
    case RunStarted(_, carried) => t.(owed := t.owed + (iset tool | tool in carried), once := t.once && first)
    case ToolStart(tool, _) => t.(held := Some(tool), single := t.single && t.held == None)
    case ToolEnd(tool) => t.(held := None, owed := t.owed + iset{tool})
    case ToolResult(tool, _, _) => t.(owed := t.owed - iset{tool})
    case _ => t
  }

  lemma OneToolLast(bs: seq<Body>, b: Body)
    ensures OneToolAtATime(bs + [b]) <==> OneToolAtATime(bs) && (b.ToolStart? ==> OpenTool(bs) == None)
  {
    var bs' := bs + [b];
    assert bs'[|bs|] == b && bs'[..|bs|] == bs;
    assert forall i | 0 <= i < |bs| :: bs'[i] == bs[i] && bs'[..i] == bs[..i];
  }

  lemma AnnouncedLast(bs: seq<Body>, b: Body)
    ensures AnnouncedOnce(bs + [b]) <==> AnnouncedOnce(bs) && (bs != [] ==> !b.RunStarted?)
  {
    var bs' := bs + [b];
    assert bs'[|bs|] == b && forall i | 0 <= i < |bs| :: bs'[i] == bs[i];
  }

  lemma OwedLast(bs: seq<Body>, b: Body)
    ensures Told(bs + [b]).owed == Next(Told(bs), bs == [], b).owed
  {
    forall tool ensures tool in Told(bs + [b]).owed <==> tool in Next(Told(bs), bs == [], b).owed {
      AwaitedLast(bs, b, tool);
    }
  }

  lemma ToldLast(bs: seq<Body>, b: Body)
    ensures Told(bs + [b]) == Next(Told(bs), bs == [], b)
  {
    OpenToolLast(bs, b);
    OneToolLast(bs, b);
    AnnouncedLast(bs, b);
    OwedLast(bs, b);
  }

  ghost function NextAll(t: Tally, first: bool, bodies: seq<Body>): Tally {
    if bodies == [] then t
    else Next(NextAll(t, first, bodies[..|bodies| - 1]), first && |bodies| == 1, bodies[|bodies| - 1])
  }

  lemma {:induction false} ToldAll(bs: seq<Body>, bodies: seq<Body>)
    ensures Told(bs + bodies) == NextAll(Told(bs), bs == [], bodies)
    decreases |bodies|
  {
    if bodies == [] {
      EmptySuffix(bs);
    } else {
      var front, last := bodies[..|bodies| - 1], bodies[|bodies| - 1];
      ToldAll(bs, front);
      FrontAndLast(bodies);
      Associates(bs, front, [last]);
      ToldLast(bs + front, last);
    }
  }

  // ------------------------------------------------------------ they say the same

  ghost function TallyOf(setting: Setting, fs: seq<Frame>): Tally {
    Tally(Held(setting, fs), (iset tool | Silenced(setting, fs, tool)), OneAtATime(setting, fs),
          StartsFirst(setting, fs))
  }

  /** What one more frame does to the tally. */
  ghost function After(setting: Setting, t: Tally, silent: bool, frame: Frame): Tally {
    match frame.kind
    case TurnStarted => t.(once := t.once && silent)
    case ToolStarted => t.(held := Some(ToolNamed(setting, frame)), single := t.single && t.held == None)
    case ToolCompleted =>
      if t.held == None then t
      else if frame.text.None? then t.(held := None, owed := t.owed + iset{t.held.value})
      else t.(held := None, owed := t.owed - iset{t.held.value})
    case _ => t
  }

  lemma OneAtATimeLast(setting: Setting, fs: seq<Frame>, frame: Frame)
    ensures OneAtATime(setting, fs + [frame]) <==>
            OneAtATime(setting, fs) && (frame.kind.ToolStarted? ==> Held(setting, fs) == None)
  {
    var fs' := fs + [frame];
    assert fs'[|fs|] == frame && fs'[..|fs|] == fs;
    assert forall j | 0 <= j < |fs| :: fs'[j] == fs[j] && fs'[..j] == fs[..j];
  }

  lemma StartsFirstLast(setting: Setting, fs: seq<Frame>, frame: Frame)
    ensures StartsFirst(setting, fs + [frame]) <==>
            StartsFirst(setting, fs) && (frame.kind.TurnStarted? ==> Quiet(setting, fs))
  {
    var fs' := fs + [frame];
    assert fs'[|fs|] == frame && fs'[..|fs|] == fs;
    assert forall j | 0 <= j < |fs| :: fs'[j] == fs[j] && fs'[..j] == fs[..j];
  }

  lemma QuietLast(setting: Setting, fs: seq<Frame>, frame: Frame)
    ensures Quiet(setting, fs + [frame]) <==> Quiet(setting, fs) && Mute(frame)
  {
    var fs' := fs + [frame];
    assert fs'[|fs|] == frame && forall j | 0 <= j < |fs| :: fs'[j] == fs[j];
  }

  lemma ToolsLast(setting: Setting, fs: seq<Frame>, frame: Frame, tool: string)
    ensures Held(setting, fs + [frame])
         == if frame.kind.ToolStarted? then Some(ToolNamed(setting, frame))
            else if frame.kind.ToolCompleted? then None else Held(setting, fs)
    ensures Silenced(setting, fs + [frame], tool) <==>
            if frame.kind.ToolCompleted? && Held(setting, fs) == Some(tool) then frame.text.None?
            else Silenced(setting, fs, tool)
  {
    assert (fs + [frame])[..|fs|] == fs;
  }

  lemma TallyLast(setting: Setting, fs: seq<Frame>, frame: Frame)
    ensures TallyOf(setting, fs + [frame]) == After(setting, TallyOf(setting, fs), Quiet(setting, fs), frame)
  {
    OneAtATimeLast(setting, fs, frame);
    StartsFirstLast(setting, fs, frame);
    ToolsLast(setting, fs, frame, "");
    var t, t' := TallyOf(setting, fs + [frame]), After(setting, TallyOf(setting, fs), Quiet(setting, fs), frame);
    forall tool ensures tool in t.owed <==> tool in t'.owed {
      ToolsLast(setting, fs, frame, tool);
    }
    assert t.owed == t'.owed;
  }

  lemma NextOne(t: Tally, first: bool, b: Body)
    ensures NextAll(t, first, [b]) == Next(t, first, b)
  {
    assert [b][..0] == [];
  }

  lemma NextTwo(t: Tally, first: bool, a: Body, b: Body)
    ensures NextAll(t, first, [a, b]) == Next(Next(t, first, a), false, b)
  {
    assert [a, b][..1] == [a];
    NextOne(t, first, a);
  }

  predicate Unannounced(bodies: seq<Body>) {
    forall i | 0 <= i < |bodies| :: !bodies[i].RunStarted?
  }

  /** The announcement adds nothing to the tally. */
  lemma {:induction false} NextAnnounced(t: Tally, parent: Option<string>, bodies: seq<Body>)
    requires Unannounced(bodies)
    ensures NextAll(t, true, [RunStarted(parent)] + bodies) == NextAll(t, false, bodies)
    decreases |bodies|
  {
    var first := RunStarted(parent);
    if bodies == [] {
      EmptySuffix([first]);
      NextOne(t, true, first);
      NextIsSame(t, parent);
    } else {
      var front := bodies[..|bodies| - 1];
      NextAnnounced(t, parent, front);
      assert ([first] + bodies)[..|bodies|] == [first] + front;
    }
  }

  lemma {:induction false} FirstDoesNotMatter(t: Tally, first: bool, bodies: seq<Body>)
    requires Unannounced(bodies)
    ensures NextAll(t, first, bodies) == NextAll(t, false, bodies)
    decreases |bodies|
  {
    if bodies != [] {
      FirstDoesNotMatter(t, first, bodies[..|bodies| - 1]);
    }
  }

  /** With or without the announcement before them, bodies do the same. */
  lemma AnnouncedTallies(setting: Setting, t: Tally, st: State, frame: Frame, bodies: seq<Body>)
    requires Unannounced(bodies)
    ensures NextAll(t, !st.started, Announced(setting, st, frame, bodies)) == NextAll(t, false, bodies)
  {
    if Announced(setting, st, frame, bodies) == bodies {
      FirstDoesNotMatter(t, !st.started, bodies);
    } else {
      NextAnnounced(t, setting.parent, bodies);
    }
  }

  /** A body that is about no tool and announces nothing. */
  predicate Neutral(b: Body) {
    !b.RunStarted? && !b.ToolStart? && !b.ToolEnd? && !b.ToolResult?
  }

  lemma ToolDoneTallies(setting: Setting, frame: Frame, st: State, t: Tally)
    requires frame.kind.ToolCompleted? && st.tool.Some? && t.held == ToolOf(st)
    ensures var p := ToolDone(st, st.tool.value, frame.text);
            Unannounced(p.bodies) && NextAll(t, false, p.bodies) == After(setting, t, !st.started, frame)
  {
    var id := st.tool.value.id;
    if frame.text.Some? {
      AnsweredTallies(t, id, ToolResult(id, "result-" + id, frame.text.value));
      assert ToolDone(st, st.tool.value, frame.text).bodies
          == [ToolEnd(id), ToolResult(id, "result-" + id, frame.text.value)];
    } else {
      assert ToolDone(st, st.tool.value, frame.text).bodies == [ToolEnd(id)];
      NextOne(t, false, ToolEnd(id));
    }
  }

  lemma AnsweredTallies(t: Tally, id: string, result: Body)
    requires result.ToolResult? && result.tool == id
    ensures NextAll(t, false, [ToolEnd(id), result]) == t.(held := None, owed := t.owed - iset{id})
  {
    NextTwo(t, false, ToolEnd(id), result);
    assert t.owed + iset{id} - iset{id} == t.owed - iset{id};
  }

  lemma OtherTallies(setting: Setting, frame: Frame, st: State, approval: Option<Approval>, t: Tally)
    requires !frame.kind.TurnStarted? && !frame.kind.ToolStarted? && t.held == ToolOf(st)
    requires !(frame.kind.ToolCompleted? && st.tool.Some?) && !(frame.kind.ApprovalRequested? && approval.Some?)
    ensures var p := Project(setting, frame, st, approval);
            Unannounced(p.bodies) && NextAll(t, false, p.bodies) == After(setting, t, !st.started, frame)
  {
    var p := Project(setting, frame, st, approval);
    OthersAreNeutral(setting, frame, st, approval);
    if p.bodies != [] {
      NextOne(t, false, p.bodies[0]);
    }
  }

  lemma OthersAreNeutral(setting: Setting, frame: Frame, st: State, approval: Option<Approval>)
    requires !frame.kind.TurnStarted? && !frame.kind.ToolStarted?
    requires !(frame.kind.ToolCompleted? && st.tool.Some?) && !(frame.kind.ApprovalRequested? && approval.Some?)
    ensures var bodies := Project(setting, frame, st, approval).bodies;
            bodies == [] || (bodies == [bodies[0]] && Neutral(bodies[0]))
  {
  }

  /** A frame that does not interrupt does to the tally of the events what it does to that of the frames. */
  lemma ProjectTallies(setting: Setting, frame: Frame, st: State, approval: Option<Approval>, t: Tally)
    requires t.held == ToolOf(st) && !(frame.kind.ApprovalRequested? && approval.Some?)
    ensures var p := Project(setting, frame, st, approval);
            NextAll(t, !st.started, Announced(setting, st, frame, p.bodies)) == After(setting, t, !st.started, frame)
  {
    var p := Project(setting, frame, st, approval);
    if frame.kind.TurnStarted? {
      NextOne(t, !st.started, RunStarted(setting.parent));
      assert t.owed + (iset tool: string | tool in RunStarted(setting.parent).carried) == t.owed;
    } else {
      if frame.kind.ToolStarted? {
        NextOne(t, false, p.bodies[0]);
      } else if frame.kind.ToolCompleted? && st.tool.Some? {
        ToolDoneTallies(setting, frame, st, t);
      } else {
        OtherTallies(setting, frame, st, approval, t);
      }
      AnnouncedTallies(setting, t, st, frame, p.bodies);
    }
  }

  /** The run's events and the frames it took in tell the same, and the run is quiet when it has said nothing. */
  ghost predicate Tallied(setting: Setting, g: Progress, fs: seq<Frame>) {
    && Told(BodiesOf(g.events)) == TallyOf(setting, fs)
    && (g.resumed ==> (g.events == [] <==> Quiet(setting, fs)))
    && (g.events == [] ==> g.state.tool == None && g.state.assistant == "")
    && (!g.resumed ==> g.events == [] && setting.resume != {})
  }

  lemma AbsorbTallies(setting: Setting, g: Progress, frame: Frame, approval: Option<Approval>, t: Tally)
    requires Telling(g) && Told(BodiesOf(g.events)) == t && (g.state.started <==> g.events != [])
    requires !(frame.kind.ApprovalRequested? && approval.Some?)
    requires Absorb(setting, g, frame, approval).status.Going?
    ensures Told(BodiesOf(Absorb(setting, g, frame, approval).events)) == After(setting, t, g.events == [], frame)
  {
    var p := Project(setting, frame, g.state, approval);
    var bodies := Announced(setting, g.state, frame, p.bodies);
    ProjectTallies(setting, frame, g.state, approval, t);
    ToldAll(BodiesOf(g.events), bodies);
    BodiesAppend(g.events, setting.run, frame.sequence, bodies);
  }

  /** A run that has said nothing says nothing more exactly on a mute frame. */
  lemma AbsorbSpeaks(setting: Setting, g: Progress, frame: Frame, approval: Option<Approval>)
    requires !(frame.kind.ApprovalRequested? && approval.Some?)
    requires g.events == [] ==> g.state.tool == None && g.state.assistant == ""
    requires Absorb(setting, g, frame, approval).status.Going?
    ensures var g' := Absorb(setting, g, frame, approval);
            && (g'.events == [] <==> g.events == [] && Mute(frame))
            && (g'.events == [] ==> g'.state.tool == None && g'.state.assistant == "")
  {
  }

  /** The announcement, before anything was said, changes nothing. */
  lemma AnnouncementTallies(bs: seq<Body>, parent: Option<string>)
    requires bs == []
    ensures Told(bs + [RunStarted(parent)]) == Told(bs)
  {
    ToldLast(bs, RunStarted(parent));
    NextIsSame(Told(bs), parent);
  }

  lemma NextIsSame(t: Tally, parent: Option<string>)
    ensures Next(t, true, RunStarted(parent)) == t
  {
    assert t.owed + (iset tool: string | tool in RunStarted(parent).carried) == t.owed;
  }

  lemma SkipTallies(setting: Setting, g: Progress, frame: Frame, fs: seq<Frame>)
    requires Tallied(setting, g, fs) && !g.resumed && Skip(setting, g, frame).status.Going?
    ensures Tallied(setting, Skip(setting, g, frame), fs)
  {
    var g' := Skip(setting, g, frame);
    BodiesAppend(g.events, setting.run, frame.sequence, [RunStarted(setting.parent)]);
    AnnouncementTallies(BodiesOf(g.events), setting.parent);
  }

  lemma TakeTallies(setting: Setting, g: Progress, frame: Frame, approval: Option<Approval>, fs: seq<Frame>)
    requires Tallied(setting, g, fs) && Telling(g) && (g.state.started <==> g.events != []) && g.resumed
    requires Absorb(setting, g, frame, approval).status.Going?
    ensures Tallied(setting, Absorb(setting, g, frame, approval), fs + [frame])
  {
    TallyLast(setting, fs, frame);
    QuietLast(setting, fs, frame);
    AbsorbTallies(setting, g, frame, approval, TallyOf(setting, fs));
    AbsorbSpeaks(setting, g, frame, approval);
  }

  /** What is looked up for a frame. */
  function Lookup(setting: Setting, frame: Frame): Option<Approval> {
    var marker := Marker(setting, frame);
    if marker.Some? then setting.approval(marker.value) else None
  }

  lemma StepIs(setting: Setting, g: Progress, frame: Frame)
    requires g.status.Going? && !Step(setting, g, frame).status.Failed?
    ensures Step(setting, g, frame)
         == if g.resumed then Absorb(setting, g, frame, Lookup(setting, frame)) else Skip(setting, g, frame)
  {
  }

  lemma {:induction false} RunsTally(setting: Setting, frames: seq<Frame>)
    requires Increasing(frames) && Ran(setting, frames).status.Going?
    ensures Tallied(setting, Ran(setting, frames), Intake(setting, frames))
  {
    if frames == [] {
      NothingTallies(setting);
    } else {
      var front, frame := frames[..|frames| - 1], frames[|frames| - 1];
      var g, fs := Ran(setting, front), Intake(setting, front);
      RunsTally(setting, front);
      RunsTell(setting, front);
      RunKeeps(setting, front);
      StepTallies(setting, g, frame, fs);
      EmptySuffix(fs);
    }
  }

  lemma StepTallies(setting: Setting, g: Progress, frame: Frame, fs: seq<Frame>)
    requires Tallied(setting, g, fs) && Telling(g) && (g.state.started <==> g.events != []) && g.status.Going?
    requires Step(setting, g, frame).status.Going?
    ensures Tallied(setting, Step(setting, g, frame), if g.resumed then fs + [frame] else fs)
  {
    StepIs(setting, g, frame);
    if g.resumed {
      TakeTallies(setting, g, frame, Lookup(setting, frame), fs);
    } else {
      SkipTallies(setting, g, frame, fs);
    }
  }

  lemma NothingTallies(setting: Setting)
    ensures Tallied(setting, Begin(setting), [])
  {
    assert BodiesOf([]) == [];
    assert Told([]).owed == iset{};
    assert TallyOf(setting, []).owed == iset{};
  }

  // ------------------------------------------------------------ whole runs

  /** The results that may be outstanding when the run ends so. */
  ghost function Asked(end: Body): iset<string> {
    iset tool | end.ApprovalAsked? && tool in Awaited(end.proposed)
  }

  /** A list of events is disciplined exactly when its tally, and that of all but the last, says so. */
  lemma DisciplineOf(bs: seq<Body>, end: Body)
    ensures Disciplined(bs + [end]) <==>
            && Told(bs + [end]).once && Told(bs + [end]).single && Told(bs).held == None
            && Told(bs).owed == Asked(end)
  {
    var awaited := if end.ApprovalAsked? then Awaited(end.proposed) else {};
    assert (bs + [end])[..|bs|] == bs;
    if Told(bs).owed == Asked(end) {
      forall tool ensures IsAwaited(bs, tool) <==> tool in awaited {
        assert tool in Told(bs).owed <==> tool in Asked(end);
      }
    }
    if AwaitsOnly(bs, awaited) {
      assert Told(bs).owed == Asked(end);
    }
  }

  /** Nothing happens to the tally at an end. */
  lemma EndTallies(bs: seq<Body>, end: Body)
    requires EndsRun(end)
    ensures Told(bs + [end]) == Told(bs)
  {
    ToldLast(bs, end);
  }

  lemma NothingOwed(setting: Setting, fs: seq<Frame>)
    ensures TallyOf(setting, fs).owed == iset{} <==> NoneSilenced(setting, fs)
  {
    var owed := TallyOf(setting, fs).owed;
    if NoneSilenced(setting, fs) {
      assert forall tool :: tool !in owed;
      assert owed == iset{};
    } else {
      var tool :| Silenced(setting, fs, tool);
      assert tool in owed;
    }
  }

  lemma EndedInOrder(setting: Setting, bs: seq<Body>, end: Body, fs: seq<Frame>)
    requires EndsRun(end) && !end.ApprovalAsked? && Told(bs) == TallyOf(setting, fs)
    ensures Disciplined(bs + [end]) <==>
            StartsFirst(setting, fs) && OneAtATime(setting, fs) && Settled(setting, fs, false)
  {
    DisciplineOf(bs, end);
    EndTallies(bs, end);
    NothingOwed(setting, fs);
    assert Asked(end) == iset{};
  }

  /** A run that was not interrupted. */
  lemma FinishedInOrder(setting: Setting, g: Progress, receipt: Option<Receipt>, fs: seq<Frame>)
    requires Tallied(setting, g, fs) && (g.state.started <==> g.events != [])
    ensures Disciplined(BodiesOf(g.events + Projection.Closing(setting, g, receipt))) <==>
            StartsFirst(setting, fs) && OneAtATime(setting, fs) && Settled(setting, fs, false)
  {
    var bs, first, end := BodiesOf(g.events), RunStarted(setting.parent), Terminal(g.state, receipt);
    ClosingBodies(setting, g, receipt);
    if g.state.started {
      EndedInOrder(setting, bs, end, fs);
    } else {
      AnnouncementTallies(bs, setting.parent);
      EndedInOrder(setting, bs + [first], end, fs);
    }
  }

  /** What comes before the question of an interruption. */
  function Leading(setting: Setting, st: State, approval: Approval): seq<Body> {
    (if st.tool.Some? then [ToolEnd(st.tool.value.id)] else [])
    + [StateSnapshot(approval.id),
       MessagesSnapshot(setting.prompt, if st.assistant != "" then Some(st.assistant) else None)]
  }

  lemma LeadingTallies(setting: Setting, st: State, approval: Approval, t: Tally)
    requires t.held == ToolOf(st)
    ensures Unannounced(Leading(setting, st, approval))
    ensures NextAll(t, false, Leading(setting, st, approval))
         == t.(held := None, owed := t.owed + (iset tool | tool in Awaited(ToolOf(st))))
  {
    var bodies := Leading(setting, st, approval);
    var a, b := bodies[|bodies| - 2], bodies[|bodies| - 1];
    if st.tool.Some? {
      var e := ToolEnd(st.tool.value.id);
      assert bodies == [e, a, b] && [e, a, b][..2] == [e, a];
      NextTwo(t, false, e, a);
      assert (iset tool | tool in Awaited(ToolOf(st))) == iset{st.tool.value.id};
    } else {
      assert bodies == [a, b];
      NextTwo(t, false, a, b);
      assert t.owed + (iset tool | tool in Awaited(ToolOf(st))) == t.owed;
    }
  }

  lemma InterruptIs(setting: Setting, st: State, frame: Frame, approval: Approval)
    ensures var p := Interrupt(setting, st, approval, frame.text);
            var ask := p.bodies[|p.bodies| - 1];
            && ask.ApprovalAsked? && ask.proposed == ToolOf(st) && p.bodies == Leading(setting, st, approval) + [ask]
            && Announced(setting, st, frame, p.bodies)
               == Announced(setting, st, frame, Leading(setting, st, approval)) + [ask]
  {
    var p := Interrupt(setting, st, approval, frame.text);
    var lead, ask := Leading(setting, st, approval), p.bodies[|p.bodies| - 1];
    assert p.bodies == lead + [ask];
    Associates([RunStarted(setting.parent)], lead, [ask]);
  }

  lemma AskedInOrder(setting: Setting, fs: seq<Frame>, ask: Body)
    requires ask.ApprovalAsked? && ask.proposed == Held(setting, fs)
    ensures TallyOf(setting, fs).owed + Asked(ask) == Asked(ask) <==> Settled(setting, fs, true)
  {
    var owed := TallyOf(setting, fs).owed;
    if owed + Asked(ask) == Asked(ask) {
      forall tool | Silenced(setting, fs, tool) ensures Held(setting, fs) == Some(tool) {
        assert tool in owed + Asked(ask);
      }
    }
  }

  lemma InterruptInOrder(setting: Setting, g: Progress, frame: Frame, approval: Approval, fs: seq<Frame>)
    requires Tallied(setting, g, fs) && Telling(g) && (g.state.started <==> g.events != [])
    requires frame.kind.ApprovalRequested?
    ensures var bs, p := BodiesOf(g.events), Interrupt(setting, g.state, approval, frame.text);
            Disciplined(bs + Announced(setting, g.state, frame, p.bodies)) <==>
            && StartsFirst(setting, fs + [frame]) && OneAtATime(setting, fs + [frame])
            && Settled(setting, fs + [frame], true)
  {
    var bs, st, t := BodiesOf(g.events), g.state, TallyOf(setting, fs);
    var p := Interrupt(setting, st, approval, frame.text);
    var lead, ask := Leading(setting, st, approval), p.bodies[|p.bodies| - 1];
    var before := Announced(setting, st, frame, lead);
    InterruptIs(setting, st, frame, approval);
    LeadingTallies(setting, st, approval, t);
    AnnouncedTallies(setting, t, st, frame, lead);
    ToldAll(bs, before);
    Associates(bs, before, [ask]);
    DisciplineOf(bs + before, ask);
    EndTallies(bs + before, ask);
    TallyLast(setting, fs, frame);
    assert Asked(ask) == (iset tool | tool in Awaited(ToolOf(st)));
    AskedInOrder(setting, fs + [frame], ask);
  }

  lemma {:induction false} InterruptedInOrder(setting: Setting, frames: seq<Frame>)
    requires Increasing(frames) && Ran(setting, frames).status.Interrupted?
    ensures var fs := Intake(setting, frames);
            Ran(setting, frames).events != [] &&
            (Disciplined(BodiesOf(Ran(setting, frames).events)) <==>
               StartsFirst(setting, fs) && OneAtATime(setting, fs) && Settled(setting, fs, true))
  {
    var front, frame := frames[..|frames| - 1], frames[|frames| - 1];
    var g, fs := Ran(setting, front), Intake(setting, front);
    if g.status.Interrupted? {
      InterruptedInOrder(setting, front);
      EmptySuffix(fs);
    } else {
      RunsTally(setting, front);
      RunsTell(setting, front);
      RunKeeps(setting, front);
      InterruptingStep(setting, g, frame, fs);
    }
  }

  lemma InterruptingStep(setting: Setting, g: Progress, frame: Frame, fs: seq<Frame>)
    requires Tallied(setting, g, fs) && Telling(g) && (g.state.started <==> g.events != [])
    requires g.status.Going? && Step(setting, g, frame).status.Interrupted?
    ensures g.resumed && Step(setting, g, frame).events != []
    ensures Disciplined(BodiesOf(Step(setting, g, frame).events)) <==>
            && StartsFirst(setting, fs + [frame]) && OneAtATime(setting, fs + [frame])
            && Settled(setting, fs + [frame], true)
  {
    StepIs(setting, g, frame);
    var approval := Lookup(setting, frame);
    var p := Project(setting, frame, g.state, approval);
    BodiesAppend(g.events, setting.run, frame.sequence, Announced(setting, g.state, frame, p.bodies));
    OnlyAsksInterrupt(setting, frame, g.state, approval);
    InterruptInOrder(setting, g, frame, approval.value, fs);
  }

  lemma OnlyAsksInterrupt(setting: Setting, frame: Frame, st: State, approval: Option<Approval>)
    requires Project(setting, frame, st, approval).interrupted
    ensures frame.kind.ApprovalRequested? && approval.Some?
    ensures Project(setting, frame, st, approval) == Interrupt(setting, st, approval.value, frame.text)
    ensures Announced(setting, st, frame, Project(setting, frame, st, approval).bodies) != []
  {
  }

  /** The events of a run that ends are disciplined exactly when the frames it took in were in order. */
  lemma RunsInOrder(setting: Setting, frames: seq<Frame>, ending: Ending)
    requires Increasing(frames) && !Whole(setting, frames, ending).faulted
    ensures Whole(setting, frames, ending).events != []
    ensures Disciplined(BodiesOf(Whole(setting, frames, ending).events)) <==> InOrder(setting, frames)
  {
    var g := Ran(setting, frames);
    if g.status.Interrupted? {
      InterruptedInOrder(setting, frames);
    } else {
      RunsTally(setting, frames);
      RunKeeps(setting, frames);
      FinishedInOrder(setting, g, ending.receipt, Intake(setting, frames));
    }
  }

  /**
   * A delivery closes without an error exactly when the run did not throw, its events are valid
   * and few enough, and the frames it took in were in order.
   */
  lemma FramesThatFinish(valid: Validity, setting: Setting, frames: seq<Frame>, ending: Ending)
    requires Increasing(frames)
    ensures var whole := Whole(setting, frames, ending);
            LiveFailure(TheTranslator(valid), whole.events, whole.faulted) == None <==>
            && !whole.faulted && |whole.events| <= MAX_EVENTS
            && (forall i | 0 <= i < |whole.events| :: valid(whole.events[i]))
            && InOrder(setting, frames)
  {
    DeliveriesThatFinish(valid, setting, frames, ending);
    if !Whole(setting, frames, ending).faulted {
      RunsInOrder(setting, frames, ending);
    }
  }
}
