/** What holds of every run the generator streams. */
module GeneratorRuns {
  import opened Basics
  import opened Cursor
  import opened Projection
  import opened Generator

  /** Frames as the daemon numbers them: from 1, strictly increasing. */
  predicate Increasing(frames: seq<Frame>) {
    && (forall i | 0 <= i < |frames| :: 1 <= frames[i].sequence)
    && (forall i, j | 0 <= i < j < |frames| :: frames[i].sequence < frames[j].sequence)
  }

  predicate Ordered(events: seq<Native>) {
    forall i, j | 0 <= i < j < |events| :: events[i].sequence < events[j].sequence
  }

  /** An event whose cursor and sequence name the same place, a frame and an ordinal in it. */
  predicate Placed(run: string, e: Native) {
    && 1 <= e.sequence % STRIDE && e.sequence <= MAX_SAFE_INTEGER
    && e.cursor == NativeCursor(run, e.sequence / STRIDE, e.sequence % STRIDE)
  }

  predicate EndsRun(body: Body) {
    body.RunFinished? || body.RunRefused? || body.ApprovalAsked?
  }

  /** Placed events below a sequence, in order. */
  ghost predicate Laid(run: string, events: seq<Native>, bound: int) {
    && Ordered(events)
    && (forall i | 0 <= i < |events| :: Placed(run, events[i]) && events[i].sequence % STRIDE <= 5)
    && (forall i | 0 <= i < |events| :: events[i].sequence <= bound)
  }

  /** The first event announces the run and only the last may end it. */
  predicate Framed(events: seq<Native>, ends: bool) {
    && (events != [] ==> events[0].body.RunStarted?)
    && (forall i | 0 <= i < |events| - 1 :: !EndsRun(events[i].body))
    && (ends ==> events != [])
    && (events != [] ==> (EndsRun(events[|events| - 1].body) <==> ends))
  }

  ghost predicate Kept(setting: Setting, g: Progress) {
    && Laid(setting.run, g.events, g.last * STRIDE + 5)
    && (g.state.started <==> g.events != [])
    && Framed(g.events, g.status.Interrupted?)
  }

  // ------------------------------------------------------------ one frame's events

  lemma NumberedIsPlaced(run: string, progress: nat, bodies: seq<Body>)
    requires Numberable(progress) && |bodies| <= 5
    ensures var es := Numbered(run, progress, bodies);
            Laid(run, es, progress * STRIDE + 5) && forall i | 0 <= i < |es| :: progress * STRIDE < es[i].sequence
  {
    var es := Numbered(run, progress, bodies);
    forall i | 0 <= i < |es| ensures Placed(run, es[i]) && es[i].sequence % STRIDE == i + 1 {
      Split(progress, i + 1);
    }
  }

  lemma Split(progress: nat, ordinal: nat)
    requires ordinal < STRIDE
    ensures (progress * STRIDE + ordinal) / STRIDE == progress && (progress * STRIDE + ordinal) % STRIDE == ordinal
  {
  }

  lemma LaidExtends(run: string, a: seq<Native>, b: seq<Native>, low: int, high: int)
    requires Laid(run, a, low) && Laid(run, b, high) && low <= high
    requires forall i | 0 <= i < |b| :: low < b[i].sequence
    ensures Laid(run, a + b, high)
  {
    var all := a + b;
    forall i, j | 0 <= i < j < |all| ensures all[i].sequence < all[j].sequence {
      if i < |a| && |a| <= j {
        assert all[i] == a[i] && all[j] == b[j - |a|];
      } else if |a| <= i {
        assert all[i] == b[i - |a|] && all[j] == b[j - |a|];
      } else {
        assert all[i] == a[i] && all[j] == a[j];
      }
    }
  }

  predicate FramedBodies(bodies: seq<Body>, ends: bool) {
    && (forall i | 0 <= i < |bodies| - 1 :: !EndsRun(bodies[i]))
    && (ends ==> bodies != [])
    && (bodies != [] ==> (EndsRun(bodies[|bodies| - 1]) <==> ends))
  }

  lemma ProjectedBodies(setting: Setting, frame: Frame, st: State, approval: Option<Approval>)
    ensures var p := Project(setting, frame, st, approval);
            && FramedBodies(p.bodies, p.interrupted)
            && (frame.kind.TurnStarted? ==> p.bodies == [RunStarted(setting.parent)])
  {
    if frame.kind.ToolCompleted? && st.tool.Some? {
      assert FramedBodies(ToolDone(st, st.tool.value, frame.text).bodies, false);
    } else if frame.kind.ApprovalRequested? && approval.Some? {
      InterruptIsFramed(setting, st, approval.value, frame.text);
    }
  }

  lemma InterruptIsFramed(setting: Setting, st: State, approval: Approval, text: Option<string>)
    ensures FramedBodies(Interrupt(setting, st, approval, text).bodies, true)
  {
  }

  lemma FramedExtends(run: string, events: seq<Native>, progress: nat, bodies: seq<Body>, ends: bool)
    requires Framed(events, false) && FramedBodies(bodies, ends)
    requires events == [] && bodies != [] ==> bodies[0].RunStarted?
    ensures Framed(events + Numbered(run, progress, bodies), ends)
  {
    var es := Numbered(run, progress, bodies);
    var all := events + es;
    forall i | 0 <= i < |all| - 1 ensures !EndsRun(all[i].body) {
      if i < |events| {
        assert all[i] == events[i];
      } else {
        assert all[i] == es[i - |events|];
      }
    }
    if bodies != [] {
      assert all[|all| - 1] == es[|es| - 1];
    } else {
      assert all == events;
    }
  }

  lemma AddedKeeps(setting: Setting, g: Progress, frame: Frame, p: Projected)
    requires Kept(setting, g) && g.status.Going? && g.last < frame.sequence
    requires Modest(frame, g.state, p) && FramedBodies(p.bodies, p.interrupted)
    requires frame.kind.TurnStarted? ==> p.bodies[0].RunStarted?
    ensures Kept(setting, Added(setting, g, frame, p))
  {
    var bodies := Announced(setting, g.state, frame, p.bodies);
    var g' := Added(setting, g, frame, p);
    if bodies != [] && !Numberable(frame.sequence) {
      assert g'.events == g.events && g'.state == g.state && g'.status.Failed?;
    } else {
      AnnouncedIsFramed(setting, g, frame, p);
      AddedIsLaid(setting.run, g.events, g.last, frame.sequence, bodies);
      FramedExtends(setting.run, g.events, frame.sequence, bodies, p.interrupted);
      assert g'.events == g.events + Numbered(setting.run, frame.sequence, bodies);
    }
  }

  lemma AnnouncedIsFramed(setting: Setting, g: Progress, frame: Frame, p: Projected)
    requires Modest(frame, g.state, p) && FramedBodies(p.bodies, p.interrupted) && (g.state.started <==> g.events != [])
    requires frame.kind.TurnStarted? ==> p.bodies[0].RunStarted?
    ensures var bodies := Announced(setting, g.state, frame, p.bodies);
            && |bodies| <= 5 && FramedBodies(bodies, p.interrupted)
            && (g.events == [] && bodies != [] ==> bodies[0].RunStarted?)
  {
  }

  lemma AddedIsLaid(run: string, events: seq<Native>, last: nat, progress: nat, bodies: seq<Body>)
    requires Laid(run, events, last * STRIDE + 5) && last < progress && |bodies| <= 5
    requires bodies == [] || Numberable(progress)
    ensures Laid(run, events + Numbered(run, progress, bodies), progress * STRIDE + 5)
  {
    if bodies != [] {
      NumberedIsPlaced(run, progress, bodies);
    }
    LaidExtends(run, events, Numbered(run, progress, bodies), last * STRIDE + 5, progress * STRIDE + 5);
  }

  lemma SkipKeeps(setting: Setting, g: Progress, frame: Frame)
    requires Kept(setting, g) && g.status.Going? && g.last < frame.sequence && !g.resumed && g.events == []
    ensures Kept(setting, Skip(setting, g, frame))
    ensures Skip(setting, g, frame).resumed || Skip(setting, g, frame).events == []
  {
    var g' := Skip(setting, g, frame);
    var es := Numbered(setting.run, frame.sequence, [RunStarted(setting.parent)]);
    EmptyPrefix(es);
    if g'.resumed {
      AnnouncementIsKept(setting, frame.sequence);
      assert g'.events == es && g'.state.started && !g'.status.Interrupted? && g'.last == frame.sequence;
    } else {
      assert g'.events == [] && g'.state == g.state && !g'.status.Interrupted?;
      NothingIsKept(setting, g');
    }
  }

  lemma NothingIsKept(setting: Setting, g: Progress)
    requires g.events == [] && !g.state.started && !g.status.Interrupted?
    ensures Kept(setting, g)
  {
  }

  lemma AnnouncementIsKept(setting: Setting, progress: nat)
    requires Numberable(progress)
    ensures var es := Numbered(setting.run, progress, [RunStarted(setting.parent)]);
            es != [] && Laid(setting.run, es, progress * STRIDE + 5) && Framed(es, false)
  {
    NumberedIsPlaced(setting.run, progress, [RunStarted(setting.parent)]);
  }

  lemma StepKeeps(setting: Setting, g: Progress, frame: Frame)
    requires Kept(setting, g) && g.last < frame.sequence && (g.resumed || g.events == [])
    ensures Kept(setting, Step(setting, g, frame))
    ensures var g' := Step(setting, g, frame); g'.resumed || g'.events == []
  {
    if g.status.Going? && !g.resumed {
      SkipKeeps(setting, g, frame);
    } else if g.status.Going? {
      var marker := Marker(setting, frame);
      var approval := if marker.Some? then setting.approval(marker.value) else None;
      ProjectionsAreModest(setting, frame, g.state, approval);
      ProjectedBodies(setting, frame, g.state, approval);
      AddedKeeps(setting, g, frame, Project(setting, frame, g.state, approval));
    }
  }

  lemma {:induction false} RunKeeps(setting: Setting, frames: seq<Frame>)
    requires Increasing(frames)
    ensures var g := Ran(setting, frames);
            && Kept(setting, g) && (g.resumed || g.events == [])
            && g.last <= (if frames == [] then 0 else frames[|frames| - 1].sequence)
  {
    if frames != [] {
      var front := frames[..|frames| - 1];
      RunKeeps(setting, front);
      if front != [] {
        assert front[|front| - 1] == frames[|frames| - 2];
      }
      StepKeeps(setting, Ran(setting, front), frames[|frames| - 1]);
    }
  }

  // ------------------------------------------------------------ whole runs

  /**
   * Over a whole run: sequences strictly increase; each event's cursor prints its own
   * sequence; the ordinal is 1 to 5, or 7 for the terminal alone; the run is announced
   * first; and it is ended once, by its last event, exactly when nothing was thrown.
   */
  ghost predicate Orderly(setting: Setting, whole: Outcome) {
    && Ordered(whole.events)
    && (forall i | 0 <= i < |whole.events| :: Placed(setting.run, whole.events[i]))
    && (forall i | 0 <= i < |whole.events| ::
          whole.events[i].sequence % STRIDE <= 5
          || (whole.events[i].sequence % STRIDE == 7 && i == |whole.events| - 1))
    && Framed(whole.events, !whole.faulted)
  }

  lemma ClosingKeeps(setting: Setting, g: Progress, receipt: Option<Receipt>)
    requires Kept(setting, g) && g.status.Going? && Numberable(g.last)
    ensures Orderly(setting, Outcome(g.events + Closing(setting, g, receipt), false))
  {
    var end := At(setting.run, g.last, 7, Terminal(g.state, receipt));
    Split(g.last, 7);
    if g.state.started {
      Ends(setting, g.events, end, g.last * STRIDE + 5);
      assert Closing(setting, g, receipt) == [end];
    } else {
      var opening := Numbered(setting.run, g.last, [RunStarted(setting.parent)]);
      AnnouncementIsKept(setting, g.last);
      Ends(setting, opening, end, g.last * STRIDE + 5);
      EmptyPrefix(opening + [end]);
    }
  }

  lemma Ends(setting: Setting, before: seq<Native>, end: Native, bound: int)
    requires Laid(setting.run, before, bound) && Framed(before, false) && before != []
    requires Placed(setting.run, end) && end.sequence % STRIDE == 7 && bound < end.sequence && EndsRun(end.body)
    ensures Orderly(setting, Outcome(before + [end], false))
  {
    var all := before + [end];
    assert forall i | 0 <= i < |before| :: all[i] == before[i];
  }

  lemma RunsAreOrderly(setting: Setting, frames: seq<Frame>, ending: Ending)
    requires Increasing(frames)
    ensures Orderly(setting, Whole(setting, frames, ending))
  {
    RunKeeps(setting, frames);
    var g := Ran(setting, frames);
    if g.status.Going? && !ending.Broken? && Numberable(g.last) {
      ClosingKeeps(setting, g, ending.receipt);
    }
  }

  // ------------------------------------------------------------ the split

  lemma {:induction false} AllBelow(events: seq<Native>, cursor: nat)
    requires forall i | 0 <= i < |events| :: events[i].sequence <= cursor
    ensures AtOrBelow(events, cursor) == events && Above(events, cursor) == []
  {
    if events != [] {
      var front := events[..|events| - 1];
      AllBelow(front, cursor);
      FrontAndLast(events);
    }
  }

  lemma AroundLast<T>(s: seq<T>, m: nat)
    requires m < |s|
    ensures var front := s[..|s| - 1]; s[..m] == front[..m] && s[m..] == front[m..] + [s[|s| - 1]]
  {
  }

  /** In order, the events at or below a cursor are a first part and the others the rest. */
  lemma {:induction false} SplitsAt(events: seq<Native>, cursor: nat, m: nat)
    requires m <= |events|
    requires forall i | 0 <= i < m :: events[i].sequence <= cursor
    requires forall i | m <= i < |events| :: cursor < events[i].sequence
    ensures AtOrBelow(events, cursor) == events[..m] && Above(events, cursor) == events[m..]
  {
    if m == |events| {
      AllBelow(events, cursor);
      assert events[..m] == events;
    } else {
      var front, last := events[..|events| - 1], events[|events| - 1];
      assert cursor < last.sequence;
      SplitsAt(front, cursor, m);
      assert AtOrBelow(events, cursor) == AtOrBelow(front, cursor)
             && Above(events, cursor) == Above(front, cursor) + [last];
      AroundLast(events, m);
    }
  }

  lemma {:induction false} HandsOverAt(events: seq<Native>, cursor: nat, m: nat)
    requires m <= |events|
    requires forall i | 0 <= i < m :: events[i].sequence <= cursor
    requires forall i | m <= i < |events| :: cursor < events[i].sequence
    ensures HandedOver(events, cursor) == events[..m]
  {
    if events != [] {
      var front := events[..|events| - 1];
      SplitsAt(events, cursor, m);
      if m == |events| {
        SplitsAt(front, cursor, m - 1);
        assert Above(front, cursor) == [];
      } else {
        SplitsAt(front, cursor, m);
        HandsOverAt(front, cursor, m);
        assert events[..m] == front[..m];
        assert m == |front| ==> front[m..] == [];
      }
    }
  }

  lemma {:induction false} SplitExists(events: seq<Native>, cursor: nat) returns (m: nat)
    requires Ordered(events)
    ensures m <= |events|
    ensures forall i | 0 <= i < m :: events[i].sequence <= cursor
    ensures forall i | m <= i < |events| :: cursor < events[i].sequence
  {
    if events == [] {
      m := 0;
    } else {
      var front, last := events[..|events| - 1], events[|events| - 1];
      m := SplitExists(front, cursor);
      assert forall i | 0 <= i < |front| :: front[i] == events[i];
      if last.sequence <= cursor {
        assert forall i | 0 <= i < |front| :: events[i].sequence < last.sequence;
        m := |events|;
      }
    }
  }

  /** When the stream is handed over, the replay already holds everything at or below the cursor. */
  lemma HandOverIsComplete(setting: Setting, frames: seq<Frame>, ending: Ending, cursor: nat)
    requires Increasing(frames)
    ensures var events := Whole(setting, frames, ending).events;
            && HandedOver(events, cursor) == AtOrBelow(events, cursor)
            && AtOrBelow(events, cursor) + Above(events, cursor) == events
  {
    RunsAreOrderly(setting, frames, ending);
    var events := Whole(setting, frames, ending).events;
    var m := SplitExists(events, cursor);
    SplitsAt(events, cursor, m);
    HandsOverAt(events, cursor, m);
  }
}
