/**
 * The generator that streams a run (adapters/ag-ui/src/platform-authority.ts): events at
 * or below the requested cursor go to the replay, the others are yielded, and the replay
 * is handed over when the first of them is.
 */
module Generator {
  import opened Basics
  import opened Cursor
  import opened Projection

  function AtOrBelow(events: seq<Native>, cursor: nat): seq<Native> {
    if events == [] then [] else
      var last := events[|events| - 1];
      AtOrBelow(events[..|events| - 1], cursor) + (if last.sequence <= cursor then [last] else [])
  }

  function Above(events: seq<Native>, cursor: nat): seq<Native> {
    if events == [] then [] else
      var last := events[|events| - 1];
      Above(events[..|events| - 1], cursor) + (if last.sequence <= cursor then [] else [last])
  }

  /** What the replay holds when the first event is yielded, or at the end when none is. */
  function HandedOver(events: seq<Native>, cursor: nat): seq<Native> {
    if events == [] then []
    else
      var front := events[..|events| - 1];
      if Above(front, cursor) != [] then HandedOver(front, cursor)
      else if Above(events, cursor) != [] then AtOrBelow(front, cursor)
      else AtOrBelow(events, cursor)
  }

  /** The pair a cursor splits events into, and the primed hand-over between them. */
  class Emitter {
    const requested: nat
    var replay: seq<Native>
    var live: seq<Native>
    var handed: seq<Native>
    ghost var all: seq<Native>

    ghost predicate Valid()
      reads this
    {
      && replay == AtOrBelow(all, requested)
      && live == Above(all, requested)
      && handed == HandedOver(all, requested)
    }

    constructor (cursor: nat)
      ensures Valid() && requested == cursor && all == []
    {
      requested := cursor;
      replay, live, handed, all := [], [], [], [];
    }

    method Emit(event: Native)
      requires Valid()
      modifies this
      ensures Valid() && all == old(all) + [event]
    {
      assert (all + [event])[..|all|] == all;
      if event.sequence <= requested {
        replay := replay + [event];
      } else {
        live := live + [event];
      }
      all := all + [event];
      if live == [] {
        handed := replay;
      }
    }

    method EmitEach(events: seq<Native>)
      requires Valid()
      modifies this
      ensures Valid() && all == old(all) + events
    {
      for k := 0 to |events|
        invariant Valid() && all == old(all) + events[..k]
      {
        Emit(events[k]);
        assert events[..k + 1] == events[..k] + [events[k]];
      }
      assert events[..|events|] == events;
    }
  }

  // ------------------------------------------------------------ numbering one frame

  function NumberedFrom(run: string, progress: nat, offset: nat, bodies: seq<Body>): seq<Native> {
    seq(|bodies|, i requires 0 <= i < |bodies| => At(run, progress, offset + i + 1, bodies[i]))
  }

  predicate Modest(frame: Frame, st: State, p: Projected) {
    && |p.bodies| <= 4
    && (frame.kind.TurnStarted? ==> p.bodies != [])
    && p.state.started == (st.started || frame.kind.TurnStarted?)
  }

  /** A frame is projected to at most four events, and only a turn's start announces the run itself. */
  lemma ProjectionsAreModest(setting: Setting, frame: Frame, st: State, approval: Option<Approval>)
    ensures Modest(frame, st, Project(setting, frame, st, approval))
  {
  }

  /** Make each event of a frame in turn; the first that is out of bounds refuses the frame. */
  method Make(run: string, progress: nat, offset: nat, bodies: seq<Body>) returns (events: Option<seq<Native>>)
    requires offset + |bodies| < STRIDE
    ensures events
         == (if bodies == [] || Numberable(progress) then Some(NumberedFrom(run, progress, offset, bodies)) else None)
  {
    var made: seq<Native> := [];
    for k := 0 to |bodies|
      invariant made == NumberedFrom(run, progress, offset, bodies[..k])
      invariant k > 0 ==> Numberable(progress)
    {
      AllOrdinalsOrNone(progress, offset + k + 1);
      var event := Event(run, progress, |made| + offset + 1, bodies[k]);
      if event.None? {
        return None;
      }
      made := made + [event.value];
    }
    assert bodies[..|bodies|] == bodies;
    return Some(made);
  }

  lemma AnnouncedNumbers(run: string, progress: nat, first: Body, bodies: seq<Body>)
    ensures Numbered(run, progress, bodies) == NumberedFrom(run, progress, 0, bodies)
    ensures Numbered(run, progress, [first] + bodies)
         == [At(run, progress, 1, first)] + NumberedFrom(run, progress, 1, bodies)
  {
  }

  function Offset(st: State, frame: Frame): nat {
    if !st.started && !frame.kind.TurnStarted? then 1 else 0
  }

  /** Announcing separately and counting on from there numbers the events as one list. */
  lemma AnnouncedEvents(setting: Setting, st: State, frame: Frame, bodies: seq<Body>)
    ensures Numbered(setting.run, frame.sequence, Announced(setting, st, frame, bodies))
         == (if Offset(st, frame) == 1 && bodies != []
             then [At(setting.run, frame.sequence, 1, RunStarted(setting.parent))] else [])
            + NumberedFrom(setting.run, frame.sequence, Offset(st, frame), bodies)
  {
    AnnouncedNumbers(setting.run, frame.sequence, RunStarted(setting.parent), bodies);
  }

  lemma {:induction false} StopIsLasting(setting: Setting, frames: seq<Frame>, k: nat)
    requires k <= |frames| && !Ran(setting, frames[..k]).status.Going?
    ensures Ran(setting, frames) == Ran(setting, frames[..k])
    decreases |frames| - k
  {
    if k == |frames| {
      assert frames[..k] == frames;
    } else {
      assert frames[..k + 1][..k] == frames[..k];
      StopIsLasting(setting, frames, k + 1);
    }
  }

  // ------------------------------------------------------------ the loop

  /** One frame of a run under way; the flags say whether the run goes on, stops, or throws. */
  method TakeFrame(setting: Setting, out: Emitter, st: State, frame: Frame, ghost g: Progress)
    returns (st': State, status: Status)
    requires out.Valid() && g.status.Going? && g.resumed && g.state == st && g.events == out.all
    modifies out
    ensures out.Valid()
    ensures var g' := Step(setting, g, frame);
            && g'.status == status && g'.events == out.all && (status.Going? ==> g'.state == st')
            && g'.resumed && g'.waiting == g.waiting && g'.last == frame.sequence
  {
    st', status := st, Failed;
    var marker := Marker(setting, frame);
    var record: Option<Approval> := None;
    if marker.Some? {
      record := setting.approval(marker.value);
      if record.None? {
        return;
      }
    }
    var p := Project(setting, frame, st, record);
    ProjectionsAreModest(setting, frame, st, record);
    assert Step(setting, g, frame) == Added(setting, g, frame, p);
    st', status := EmitProjected(setting, out, st, frame, p, g);
  }

  method EmitProjected(setting: Setting, out: Emitter, st: State, frame: Frame, p: Projected, ghost g: Progress)
    returns (st': State, status: Status)
    requires out.Valid() && g.status.Going? && g.state == st && g.events == out.all && Modest(frame, st, p)
    modifies out
    ensures out.Valid()
    ensures var g' := Added(setting, g, frame, p);
            g'.status == status && g'.events == out.all && (status.Going? ==> g'.state == st')
  {
    st', status := st, Failed;
    AnnouncedEvents(setting, st, frame, p.bodies);
    var made := Make(setting.run, frame.sequence, Offset(st, frame), p.bodies);
    if made.None? {
      return;
    }
    var started := st.started;
    if !started && |made.value| != 0 && !frame.kind.TurnStarted? {
      out.Emit(At(setting.run, frame.sequence, 1, RunStarted(setting.parent)));
      started := true;
    }
    started := p.state.started || started;
    out.EmitEach(made.value);
    st' := p.state.(started := started);
    status := if p.interrupted then Interrupted else Going;
    assert out.all == g.events + Numbered(setting.run, frame.sequence, Announced(setting, st, frame, p.bodies));
  }

  /** One frame while the approvals resumed from are still being looked for. */
  method SkipFrame(setting: Setting, out: Emitter, st: State, waiting: set<string>, frame: Frame, ghost g: Progress)
    returns (st': State, waiting': set<string>, resumed: bool, status: Status)
    requires out.Valid() && g == Progress(st, waiting, false, g.last, out.all, Going)
    modifies out
    ensures out.Valid()
    ensures Step(setting, g, frame) == Progress(st', waiting', resumed, frame.sequence, out.all, status)
  {
    st', waiting', resumed, status := st, waiting, false, Going;
    var marker := Marker(setting, frame);
    if marker.Some? {
      waiting' := waiting' - {marker.value};
    }
    if waiting' == {} {
      AllOrdinalsOrNone(frame.sequence, 1);
      var event := Event(setting.run, frame.sequence, 1, RunStarted(setting.parent));
      if event.None? {
        status := Failed;
        return;
      }
      resumed, st' := true, st.(started := true);
      out.Emit(event.value);
      assert Numbered(setting.run, frame.sequence, [RunStarted(setting.parent)]) == [event.value];
    }
  }

  /** The end of the frames: the announcement if none was made, then the terminal event. */
  method Conclude(setting: Setting, out: Emitter, st: State, last: nat, ending: Ending, ghost g: Progress)
    returns (faulted: bool)
    requires out.Valid() && g.status.Going? && g.state == st && g.last == last && g.events == out.all
    modifies out
    ensures out.Valid() && faulted == (ending.Broken? || !Numberable(last))
    ensures out.all == if faulted then g.events else g.events + Closing(setting, g, ending.receipt)
  {
    AllOrdinalsOrNone(last, 1);
    AllOrdinalsOrNone(last, 7);
    if ending.Broken? {
      return true;
    }
    if !st.started {
      var event := Event(setting.run, last, 1, RunStarted(setting.parent));
      if event.None? {
        return true;
      }
      out.Emit(event.value);
      assert Numbered(setting.run, last, [RunStarted(setting.parent)]) == [event.value];
    }
    var event := Event(setting.run, last, 7, Terminal(st, ending.receipt));
    if event.None? {
      return true;
    }
    out.Emit(event.value);
    assert out.all == g.events + Closing(setting, g, ending.receipt);
    return false;
  }

  /** The whole generator, to its end. */
  method Generate(setting: Setting, frames: seq<Frame>, ending: Ending, requested: nat)
    returns (replay: seq<Native>, live: seq<Native>, faulted: bool)
    ensures var whole := Whole(setting, frames, ending);
            && replay == HandedOver(whole.events, requested)
            && live == Above(whole.events, requested)
            && faulted == whole.faulted
  {
    var out := new Emitter(requested);
    var st, waiting, resumed, last := FRESH, setting.resume, setting.resume == {}, 0;
    for k := 0 to |frames|
      invariant out.Valid() && out.requested == requested && fresh(out)
      invariant Ran(setting, frames[..k]) == Progress(st, waiting, resumed, last, out.all, Going)
    {
      ghost var g := Ran(setting, frames[..k]);
      assert frames[..k + 1][..k] == frames[..k];
      assert Ran(setting, frames[..k + 1]) == Step(setting, g, frames[k]);
      last := frames[k].sequence;
      var status;
      if !resumed {
        st, waiting, resumed, status := SkipFrame(setting, out, st, waiting, frames[k], g);
      } else {
        st, status := TakeFrame(setting, out, st, frames[k], g);
      }
      if !status.Going? {
        StopIsLasting(setting, frames, k + 1);
        return out.handed, out.live, status.Failed?;
      }
    }
    assert frames[..|frames|] == frames;
    faulted := Conclude(setting, out, st, last, ending, Ran(setting, frames));
    return out.handed, out.live, faulted;
  }
}
