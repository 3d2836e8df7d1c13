/** Exactly which runs of the generator the translator lets through to the end. */
module TranslatorRuns {
  import opened Basics
  import opened Projection
  import opened GeneratorRuns
  import opened GeneratorContents
  import opened Delivery
  import opened StreamTranslator

  /** No tool starts while another is open. */
  predicate OneToolAtATime(bs: seq<Body>) {
    forall i | 0 <= i < |bs| :: bs[i].ToolStart? ==> OpenTool(bs[..i]) == None
  }

  predicate AnnouncedOnce(bs: seq<Body>) {
    forall i | 0 < i < |bs| :: !bs[i].RunStarted?
  }

  /** When the run ends no tool is open, and every ended tool has its result but the one an approval asks about. */
  ghost predicate NothingStranded(bs: seq<Body>)
    requires bs != []
  {
    var before, end := bs[..|bs| - 1], bs[|bs| - 1];
    OpenTool(before) == None && AwaitsOnly(before, if end.ApprovalAsked? then Awaited(end.proposed) else {})
  }

  ghost predicate Disciplined(bs: seq<Body>)
    requires bs != []
  {
    AnnouncedOnce(bs) && OneToolAtATime(bs) && NothingStranded(bs)
  }

  // ------------------------------------------------------------ the open tool and the open tools

  lemma OpenToolLast(bs: seq<Body>, b: Body)
    ensures OpenTool(bs + [b])
         == match b { case ToolStart(tool, _) => Some(tool) case ToolEnd(_) => None case _ => OpenTool(bs) }
  {
    assert (bs + [b])[..|bs|] == bs;
  }

  lemma Stretch(bs: seq<Body>, n: nat)
    requires n < |bs|
    ensures bs[..n + 1] == bs[..n] + [bs[n]]
  {
  }

  /** The tool taken to be open is one of those that are. */
  lemma {:induction false} OpenToolIsOpen(bs: seq<Body>)
    ensures OpenTool(bs).Some? ==> IsOpen(bs, OpenTool(bs).value)
  {
    if bs != [] {
      var front, b := bs[..|bs| - 1], bs[|bs| - 1];
      OpenToolIsOpen(front);
      FrontAndLast(bs);
      OpenToolLast(front, b);
      if OpenTool(bs).Some? {
        OpenLast(front, b, OpenTool(bs).value);
      }
    }
  }

  /** One tool at a time, it is the only one. */
  lemma {:induction false} OnlyOneOpen(bs: seq<Body>, n: nat, tool: string)
    requires AllSensible(bs) && OneToolAtATime(bs) && n <= |bs|
    ensures IsOpen(bs[..n], tool) <==> OpenTool(bs[..n]) == Some(tool)
    decreases n
  {
    if n > 0 {
      Stretch(bs, n - 1);
      OnlyOneOpen(bs, n - 1, tool);
      OpenToolLast(bs[..n - 1], bs[n - 1]);
      OpenLast(bs[..n - 1], bs[n - 1], tool);
      assert Sensible(bs, n - 1);
    }
  }

  /** Everything but a tool's start and the run's end may stand where the generator puts it. */
  lemma GeneratedMayFollow(bs: seq<Body>, i: nat)
    requires i < |bs| && Sensible(bs, i) && !bs[i].ToolStart? && !EndsRun(bs[i])
    ensures MayFollow(bs[..i], bs[i])
  {
    OpenToolIsOpen(bs[..i]);
    if bs[i].ToolResult? {
      assert bs[..i][i - 1] == ToolEnd(bs[i].tool);
    }
  }

  lemma ApprovalIsCheckpointed(bs: seq<Body>, i: nat)
    requires i < |bs| && Sensible(bs, i) && bs[i].ApprovalAsked?
    ensures HasState(bs[..i]) && HasMessages(bs[..i])
  {
    assert bs[..i][i - 2].StateSnapshot? && bs[..i][i - 1].MessagesSnapshot?;
  }

  ghost predicate AllMayFollow(bs: seq<Body>) {
    forall i | 0 <= i < |bs| :: MayFollow(bs[..i], bs[i])
  }

  /** An ended list: only the last body ends the run. */
  predicate Ended(bs: seq<Body>) {
    bs != [] && EndsRun(bs[|bs| - 1]) && forall i | 0 <= i < |bs| - 1 :: !EndsRun(bs[i])
  }

  lemma DisciplineSuffices(bs: seq<Body>)
    requires AllSensible(bs) && Ended(bs) && OneToolAtATime(bs) && NothingStranded(bs)
    ensures AllMayFollow(bs)
  {
    forall i | 0 <= i < |bs| ensures MayFollow(bs[..i], bs[i]) {
      assert Sensible(bs, i);
      if bs[i].ToolStart? {
        OnlyOneOpen(bs, i, bs[i].tool);
      } else if i < |bs| - 1 {
        GeneratedMayFollow(bs, i);
      } else {
        forall tool ensures !IsOpen(bs[..i], tool) {
          OnlyOneOpen(bs, i, tool);
        }
        if bs[i].ApprovalAsked? {
          ApprovalIsCheckpointed(bs, i);
        }
      }
    }
  }

  /** An end is of the tool taken to be open, and a start of one that is not. */
  ghost predicate InTurn(bs: seq<Body>, k: nat)
    requires k < |bs|
  {
    && (bs[k].ToolEnd? ==> OpenTool(bs[..k]) == Some(bs[k].tool))
    && (bs[k].ToolStart? ==> !IsOpen(bs[..k], bs[k].tool))
  }

  lemma FollowsInTurn(bs: seq<Body>, k: nat)
    requires k < |bs| && Sensible(bs, k) && MayFollow(bs[..k], bs[k])
    ensures InTurn(bs, k)
  {
  }

  /** A tool left open behind another is open for good. */
  lemma {:induction false} LeftOpen(bs: seq<Body>, i: nat, n: nat, tool: string)
    requires i <= n < |bs| && forall k | 0 <= k < |bs| :: InTurn(bs, k)
    requires IsOpen(bs[..i], tool) && OpenTool(bs[..i]) != Some(tool)
    ensures IsOpen(bs[..n], tool) && OpenTool(bs[..n]) != Some(tool)
    decreases n - i
  {
    if i < n {
      LeftOpen(bs, i, n - 1, tool);
      Stretch(bs, n - 1);
      assert InTurn(bs, n - 1);
      LeftOpenStep(bs[..n - 1], bs[n - 1], tool);
    }
  }

  lemma LeftOpenStep(bs: seq<Body>, b: Body, tool: string)
    requires IsOpen(bs, tool) && OpenTool(bs) != Some(tool)
    requires b.ToolEnd? ==> OpenTool(bs) == Some(b.tool)
    requires b.ToolStart? ==> !IsOpen(bs, b.tool)
    ensures IsOpen(bs + [b], tool) && OpenTool(bs + [b]) != Some(tool)
  {
    OpenToolLast(bs, b);
    OpenLast(bs, b, tool);
  }

  lemma DisciplineIsNeeded(bs: seq<Body>)
    requires AllSensible(bs) && Ended(bs) && AllMayFollow(bs)
    ensures OneToolAtATime(bs) && NothingStranded(bs)
  {
    var n := |bs| - 1;
    assert MayFollow(bs[..n], bs[n]);
    forall k | 0 <= k < |bs| ensures InTurn(bs, k) {
      assert Sensible(bs, k) && MayFollow(bs[..k], bs[k]);
      FollowsInTurn(bs, k);
    }
    forall i | 0 <= i < |bs| && bs[i].ToolStart? ensures OpenTool(bs[..i]) == None {
      if OpenTool(bs[..i]).Some? {
        var tool := OpenTool(bs[..i]).value;
        OpenToolIsOpen(bs[..i]);
        assert InTurn(bs, i);
        Stretch(bs, i);
        OpenToolLast(bs[..i], bs[i]);
        OpenLast(bs[..i], bs[i], tool);
        LeftOpen(bs, i + 1, n, tool);
      }
    }
    OpenToolIsOpen(bs[..n]);
  }

  // ------------------------------------------------------------ runs

  lemma LawOfBodies(valid: Validity, events: seq<Native>)
    requires Ordered(events) && forall i | 0 <= i < |events| :: 1 <= events[i].sequence
    requires Ended(BodiesOf(events)) && events[0].body.RunStarted?
    ensures LawfulStream(valid, events) <==>
            && |events| <= MAX_EVENTS && (forall i | 0 <= i < |events| :: valid(events[i]))
            && AnnouncedOnce(BodiesOf(events)) && AllMayFollow(BodiesOf(events))
  {
    var bs := BodiesOf(events);
    assert forall i | 0 <= i < |events| :: bs[i] == events[i].body && BodiesOf(events[..i]) == bs[..i];
  }

  /**
   * A run that ends is let through exactly when its events are valid, few enough,
   * announced once and strand no tool.
   */
  lemma RunsLetThrough(valid: Validity, setting: Setting, frames: seq<Frame>, ending: Ending)
    requires Increasing(frames) && !Whole(setting, frames, ending).faulted
    ensures var events := Whole(setting, frames, ending).events;
            && events != []
            && (LawfulStream(valid, events) <==>
                  && |events| <= MAX_EVENTS && (forall i | 0 <= i < |events| :: valid(events[i]))
                  && Disciplined(BodiesOf(events)))
  {
    var events := Whole(setting, frames, ending).events;
    var bs := BodiesOf(events);
    RunsAreOrderly(setting, frames, ending);
    EventsAreAboutTheOpenTool(setting, frames, ending);
    forall i | 0 <= i < |events| ensures 1 <= events[i].sequence {
      assert Placed(setting.run, events[i]);
    }
    assert Ended(bs);
    LawOfBodies(valid, events);
    if AllMayFollow(bs) {
      DisciplineIsNeeded(bs);
    } else if OneToolAtATime(bs) && NothingStranded(bs) {
      DisciplineSuffices(bs);
    }
  }

  /** An uninterrupted delivery of a run closes without an error exactly then, and when the run did not throw. */
  lemma DeliveriesThatFinish(valid: Validity, setting: Setting, frames: seq<Frame>, ending: Ending)
    requires Increasing(frames)
    ensures var whole := Whole(setting, frames, ending);
            LiveFailure(TheTranslator(valid), whole.events, whole.faulted) == None <==>
            && !whole.faulted && whole.events != [] && |whole.events| <= MAX_EVENTS
            && (forall i | 0 <= i < |whole.events| :: valid(whole.events[i]))
            && Disciplined(BodiesOf(whole.events))
  {
    var whole := Whole(setting, frames, ending);
    AcceptsAsGuarded(valid, whole.events);
    if !whole.faulted {
      RunsLetThrough(valid, setting, frames, ending);
      GuardEnforcesTheLaw(valid, whole.events);
      RunsAreOrderly(setting, frames, ending);
    }
  }

  // ------------------------------------------------------------ a run that is not

  function SilentTool(): seq<Frame> {
    [Frame(1, ToolStarted, None), Frame(2, ToolCompleted, None)]
  }

  lemma SilentToolRuns(setting: Setting)
    requires setting.resume == {}
    ensures !Whole(setting, SilentTool(), Retired(None)).faulted
    ensures BodiesOf(Whole(setting, SilentTool(), Retired(None)).events)
         == [RunStarted(setting.parent), ToolStart(setting.toolId("tool"), "tool"), ToolEnd(setting.toolId("tool")),
             RunFinished]
  {
    var frames := SilentTool();
    assert frames[..1] == [frames[0]] && [frames[0]][..0] == [];
    var g1 := Step(setting, Begin(setting), frames[0]);
    assert Ran(setting, [frames[0]]) == g1;
    assert Ran(setting, frames) == Step(setting, g1, frames[1]);
  }

  /**
   * A tool that completes without text leaves its result awaited: the run finishes, and
   * its delivery ends in an error.
   */
  lemma AToolWithoutAResult(valid: Validity, setting: Setting)
    requires setting.resume == {}
    ensures var whole := Whole(setting, SilentTool(), Retired(None));
            && !whole.faulted
            && LiveFailure(TheTranslator(valid), whole.events, whole.faulted) == Some(InvalidEvent)
  {
    SilentToolRuns(setting);
    var whole := Whole(setting, SilentTool(), Retired(None));
    var bs, id := BodiesOf(whole.events), setting.toolId("tool");
    assert bs[..3][2] == ToolEnd(id);
    assert IsAwaited(bs[..3], id);
    DeliveriesThatFinish(valid, setting, SilentTool(), Retired(None));
  }
}
