/** What every transcript the normalizer produces looks like, whatever the provider wrote. */
module Grammar {
  import opened Basics
  import opened Text
  import opened Normalize

  predicate Is(e: Event, kind: RecordedKind) {
    e.Recorded? && e.kind == kind
  }

  predicate IsSession(e: Event) {
    Is(e, SessionCreated) || Is(e, SessionLoaded)
  }

  predicate IsToolEnd(e: Event) {
    Is(e, ToolCallCompleted) || Is(e, ToolCallFailed)
  }

  /** Kinds that may stand outside a started turn. */
  predicate OutsideTurn(e: Event) {
    IsSession(e) || Is(e, ProviderWarning) || Is(e, ProviderFault) || Is(e, TurnCompleted)
  }

  /** Sequences run 1, 2, 3, … under the caller's run and turn and one provider session. */
  ghost predicate Numbered(es: seq<Event>, c: Coordinates, session: string) {
    forall i | 0 <= i < |es| ::
      es[i].sequence == i + 1 && es[i].runId == c.runId && es[i].turnId == c.turnId && es[i].session == session
  }

  /** The session event comes first, says how the session came about, and comes once. */
  ghost predicate SessionFirst(es: seq<Event>, m: Mode) {
    && (es != [] ==> Is(es[0], if m.NewSession? then SessionCreated else SessionLoaded))
    && (forall i | 0 < i < |es| :: !IsSession(es[i]))
  }

  /** A turn starts at most once, and nothing that belongs to a turn precedes its start. */
  ghost predicate TurnStartsOnce(es: seq<Event>) {
    && (forall i, j | 0 <= i < j < |es| :: !(Is(es[i], TurnStarted) && Is(es[j], TurnStarted)))
    && (forall j | 0 <= j < |es| && !OutsideTurn(es[j]) ::
          exists i :: 0 <= i <= j && Is(es[i], TurnStarted))
  }

  /** Two tool starts always have a tool end between them. */
  ghost predicate ToolsAlternate(es: seq<Event>) {
    forall i, j | 0 <= i < j < |es| && Is(es[i], ToolCallStarted) && Is(es[j], ToolCallStarted) ::
      exists k :: i < k < j && IsToolEnd(es[k])
  }

  ghost predicate ToolsClosed(es: seq<Event>) {
    forall i | 0 <= i < |es| && Is(es[i], ToolCallStarted) :: exists k :: i < k < |es| && IsToolEnd(es[k])
  }

  /** No event that ends a turn: neither usage, nor a fault, nor completion. */
  ghost predicate Unended(es: seq<Event>) {
    forall i | 0 <= i < |es| :: !Is(es[i], UsageUpdated) && !Is(es[i], ProviderFault) && !Is(es[i], TurnCompleted)
  }

  /** The one ending a transcript has, and only at its end: usage or a fault, then completion. */
  ghost predicate EndsAs(es: seq<Event>, d: Disposition) {
    && |es| >= 2
    && Is(es[|es| - 1], TurnCompleted)
    && Is(es[|es| - 2], if d.Succeeded? then UsageUpdated else ProviderFault)
    && Unended(es[..|es| - 2])
  }

  ghost predicate HasAssistant(es: seq<Event>) {
    exists i :: 0 <= i < |es| && Is(es[i], AssistantMessageCompleted)
  }

  ghost predicate HasTurnStart(es: seq<Event>) {
    exists i :: 0 <= i < |es| && Is(es[i], TurnStarted)
  }

  /** The shape of every finished transcript. */
  ghost predicate Grammatical(c: Coordinates, m: Mode, f: Finished) {
    && f.binding.scope == c.scope
    && Numbered(f.events, c, f.binding.session)
    && (m.Resume? ==> f.binding.session == m.binding.session)
    && SessionFirst(f.events, m) && TurnStartsOnce(f.events) && ToolsAlternate(f.events)
    && EndsAs(f.events, f.disposition)
    && (f.usage.Some? <==> f.disposition.Succeeded?)
    && (f.disposition.Succeeded? ==> HasAssistant(f.events) && ToolsClosed(f.events))
  }

  /** What the automaton keeps between lines. */
  ghost predicate Kept(t: Turn) {
    && (t.session.None? <==> t.events == [])
    && (t.session.Some? ==>
          && Numbered(t.events, t.coordinates, t.session.value)
          && ValidSession(t.session.value).Ok?
          && (t.mode.Resume? ==> t.session.value == t.mode.binding.session))
    && SessionFirst(t.events, t.mode) && TurnStartsOnce(t.events) && ToolsAlternate(t.events)
    && (t.turnStarted <==> HasTurnStart(t.events))
    && (t.assistantSeen ==> HasAssistant(t.events))
    && (t.usage.Some? <==> t.disposition == Some(Succeeded))
    && match t.disposition
       case None =>
         && Unended(t.events)
         && (ToolsClosed(t.events) || (t.activeItem.Some? && t.activeItem.value.1.CommandExecution?))
       case Some(d) => EndsAs(t.events, d) && (d.Succeeded? ==> HasAssistant(t.events) && ToolsClosed(t.events))
  }

  // ------------------------------------------------------------ appending

  lemma Existing(es: seq<Event>, e: Event)
    ensures HasAssistant(es + [e]) <==> HasAssistant(es) || Is(e, AssistantMessageCompleted)
    ensures HasTurnStart(es + [e]) <==> HasTurnStart(es) || Is(e, TurnStarted)
  {
    var es' := es + [e];
    assert es'[|es|] == e;
    if HasAssistant(es) {
      var i :| 0 <= i < |es| && Is(es[i], AssistantMessageCompleted);
      assert Is(es'[i], AssistantMessageCompleted);
    }
    if HasTurnStart(es) {
      var i :| 0 <= i < |es| && Is(es[i], TurnStarted);
      assert Is(es'[i], TurnStarted);
    }
  }

  lemma TurnStartsOnceExtends(es: seq<Event>, e: Event)
    requires TurnStartsOnce(es)
    requires Is(e, TurnStarted) ==> !HasTurnStart(es)
    requires !OutsideTurn(e) && !Is(e, TurnStarted) ==> HasTurnStart(es)
    ensures TurnStartsOnce(es + [e])
  {
    var es' := es + [e];
    forall j | 0 <= j < |es'| && !OutsideTurn(es'[j])
      ensures exists i :: 0 <= i <= j && Is(es'[i], TurnStarted)
    {
      if j < |es| {
        var i :| 0 <= i <= j && Is(es[i], TurnStarted);
        assert Is(es'[i], TurnStarted);
      } else if Is(e, TurnStarted) {
        assert Is(es'[j], TurnStarted);
      } else {
        var i :| 0 <= i < |es| && Is(es[i], TurnStarted);
        assert Is(es'[i], TurnStarted);
      }
    }
  }

  lemma ToolsExtend(es: seq<Event>, e: Event)
    requires ToolsAlternate(es)
    requires Is(e, ToolCallStarted) ==> ToolsClosed(es)
    ensures ToolsAlternate(es + [e])
    ensures ToolsClosed(es) && !Is(e, ToolCallStarted) ==> ToolsClosed(es + [e])
    ensures IsToolEnd(e) ==> ToolsClosed(es + [e])
  {
    var es' := es + [e];
    forall i, j | 0 <= i < j < |es'| && Is(es'[i], ToolCallStarted) && Is(es'[j], ToolCallStarted)
      ensures exists k :: i < k < j && IsToolEnd(es'[k])
    {
      assert Is(es[i], ToolCallStarted);
      if j < |es| {
        var k :| i < k < j && IsToolEnd(es[k]);
        assert IsToolEnd(es'[k]);
      } else {
        var k :| i < k < |es| && IsToolEnd(es[k]);
        assert IsToolEnd(es'[k]);
      }
    }
    forall i | 0 <= i < |es| && Is(es'[i], ToolCallStarted) && (ToolsClosed(es) || IsToolEnd(e))
      ensures exists k :: i < k < |es'| && IsToolEnd(es'[k])
    {
      if IsToolEnd(e) {
        assert IsToolEnd(es'[|es|]);
      } else {
        assert Is(es[i], ToolCallStarted);
        var k :| i < k < |es| && IsToolEnd(es[k]);
        assert IsToolEnd(es'[k]);
      }
    }
  }

  /** Appending one event that is neither a session event nor a repetition keeps the ordering facts. */
  lemma OrderExtends(t: Turn, e: Event)
    requires Kept(t) && t.session.Some? && !IsSession(e)
    requires e.sequence == |t.events| + 1 && e.runId == t.coordinates.runId
    requires e.turnId == t.coordinates.turnId && e.session == t.session.value
    requires Is(e, TurnStarted) ==> !t.turnStarted
    requires !OutsideTurn(e) && !Is(e, TurnStarted) ==> t.turnStarted
    requires Is(e, ToolCallStarted) ==> ToolsClosed(t.events)
    ensures var es := t.events + [e];
            && Numbered(es, t.coordinates, t.session.value) && SessionFirst(es, t.mode)
            && TurnStartsOnce(es) && ToolsAlternate(es)
            && (HasTurnStart(es) <==> t.turnStarted || Is(e, TurnStarted))
            && (t.assistantSeen || Is(e, AssistantMessageCompleted) ==> HasAssistant(es))
  {
    NumbersExtend(t, e);
    TurnStartsOnceExtends(t.events, e);
    ToolsExtend(t.events, e);
    Existing(t.events, e);
  }

  lemma NumbersExtend(t: Turn, e: Event)
    requires t.events != [] && t.session.Some? && !IsSession(e)
    requires Numbered(t.events, t.coordinates, t.session.value) && SessionFirst(t.events, t.mode)
    requires e.sequence == |t.events| + 1 && e.runId == t.coordinates.runId
    requires e.turnId == t.coordinates.turnId && e.session == t.session.value
    ensures Numbered(t.events + [e], t.coordinates, t.session.value) && SessionFirst(t.events + [e], t.mode)
  {
  }

  predicate RunsCommand(t: Turn) {
    t.activeItem.Some? && t.activeItem.value.1.CommandExecution?
  }

  /** `t'` is `t` with one event recorded in the middle of a turn. */
  predicate Advances(t: Turn, t': Turn) {
    && t.session.Some? && t.disposition.None?
    && |t'.events| == |t.events| + 1
    && var e := t'.events[|t.events|];
       && t' == t.(events := t.events + [e], turnStarted := t.turnStarted || Is(e, TurnStarted),
                   assistantSeen := t.assistantSeen || Is(e, AssistantMessageCompleted), activeItem := t'.activeItem)
       && e.sequence == |t.events| + 1 && e.runId == t.coordinates.runId
       && e.turnId == t.coordinates.turnId && e.session == t.session.value
       && !IsSession(e) && !Is(e, UsageUpdated) && !Is(e, ProviderFault) && !Is(e, TurnCompleted)
       && (Is(e, TurnStarted) ==> !t.turnStarted)
       && (!OutsideTurn(e) && !Is(e, TurnStarted) ==> t.turnStarted)
       && (Is(e, ToolCallStarted) ==> !RunsCommand(t) && RunsCommand(t'))
       && (!Is(e, ToolCallStarted) && !IsToolEnd(e) ==> !RunsCommand(t) || t'.activeItem == t.activeItem)
  }

  lemma AdvanceKeeps(t: Turn, t': Turn)
    requires Kept(t) && Advances(t, t')
    ensures Kept(t')
  {
    var e := t'.events[|t.events|];
    OrderExtends(t, e);
    ToolsExtend(t.events, e);
  }

  lemma EndsExtend(es: seq<Event>, a: Event, b: Event, d: Disposition)
    requires Unended(es) && Is(b, TurnCompleted)
    requires Is(a, if d.Succeeded? then UsageUpdated else ProviderFault)
    ensures EndsAs(es + [a] + [b], d)
  {
    assert (es + [a] + [b])[..|es|] == es;
  }

  /** The two events that end a turn, recorded after whatever the turn held. */
  lemma EndKeeps(t: Turn, a: Event, b: Event, d: Disposition, t': Turn)
    requires Kept(t) && t.session.Some? && t.disposition.None?
    requires Is(a, if d.Succeeded? then UsageUpdated else ProviderFault) && Is(b, TurnCompleted)
    requires Numbered(t.events + [a] + [b], t.coordinates, t.session.value)
    requires d.Succeeded? ==> t.turnStarted && t.assistantSeen && !RunsCommand(t)
    requires t' == t.(events := t.events + [a] + [b], activeItem := None, usage := t'.usage, disposition := Some(d))
    requires t'.usage.Some? <==> d.Succeeded?
    ensures Kept(t')
  {
    EndsExtend(t.events, a, b, d);
    EndOrder(t, a, b);
  }

  lemma EndOrder(t: Turn, a: Event, b: Event)
    requires t.events != [] && SessionFirst(t.events, t.mode) && TurnStartsOnce(t.events) && ToolsAlternate(t.events)
    requires (Is(a, ProviderFault) || (Is(a, UsageUpdated) && HasTurnStart(t.events))) && Is(b, TurnCompleted)
    ensures var es := t.events + [a] + [b];
            && SessionFirst(es, t.mode) && TurnStartsOnce(es) && ToolsAlternate(es)
            && (ToolsClosed(t.events) ==> ToolsClosed(es))
            && (HasTurnStart(es) <==> HasTurnStart(t.events))
            && (HasAssistant(es) <==> HasAssistant(t.events))
  {
    EndStep(t.events, t.mode, a);
    EndStep(t.events + [a], t.mode, b);
  }

  lemma EndStep(es: seq<Event>, mode: Mode, e: Event)
    requires es != [] && SessionFirst(es, mode) && TurnStartsOnce(es) && ToolsAlternate(es)
    requires Is(e, ProviderFault) || (Is(e, UsageUpdated) && HasTurnStart(es)) || Is(e, TurnCompleted)
    ensures SessionFirst(es + [e], mode) && TurnStartsOnce(es + [e]) && ToolsAlternate(es + [e])
    ensures ToolsClosed(es) ==> ToolsClosed(es + [e])
    ensures HasTurnStart(es + [e]) <==> HasTurnStart(es)
    ensures HasAssistant(es + [e]) <==> HasAssistant(es)
  {
    TurnStartsOnceExtends(es, e);
    Existing(es, e);
    ToolsExtend(es, e);
  }

  // ------------------------------------------------------------ handlers

  lemma ThreadStartedKeeps(t: Turn, o: Fields)
    requires Kept(t) && t.disposition.None? && OnThreadStarted(t, o).Ok?
    ensures Kept(OnThreadStarted(t, o).value)
  {
    var t' := OnThreadStarted(t, o).value;
    assert t'.events[0] == t'.events[|t.events|];
    assert !HasTurnStart(t'.events);
  }

  lemma TurnStartedAdvances(t: Turn, o: Fields)
    requires t.disposition.None? && OnTurnStarted(t, o).Ok?
    ensures Advances(t, OnTurnStarted(t, o).value)
  {
  }

  /** Starting an assistant message records nothing; starting a command records its start. */
  lemma ItemStartedAdvances(t: Turn, o: Fields)
    requires t.disposition.None? && OnItemStarted(t, o).Ok?
    ensures var t' := OnItemStarted(t, o).value;
            t.activeItem.None? && (Advances(t, t') || t' == t.(activeItem := t'.activeItem))
  {
  }

  lemma ItemUpdatedAdvances(t: Turn, o: Fields)
    requires t.disposition.None? && OnItemUpdated(t, o).Ok?
    ensures Advances(t, OnItemUpdated(t, o).value)
  {
  }

  lemma NoticeAdvances(t: Turn, item: Fields)
    requires t.disposition.None? && OnNotice(t, item).Ok?
    ensures Advances(t, OnNotice(t, item).value)
  {
  }

  lemma ItemCompletedAdvances(t: Turn, o: Fields)
    requires t.disposition.None? && OnItemCompleted(t, o).Ok?
    ensures Advances(t, OnItemCompleted(t, o).value)
  {
    var item := ObjectField(o, "item").value;
    if item["type"].s == "error" {
      NoticeAdvances(t, item);
    }
  }

  lemma TurnCompletedKeeps(t: Turn, o: Fields)
    requires Kept(t) && t.disposition.None? && OnTurnCompleted(t, o).Ok?
    ensures Kept(OnTurnCompleted(t, o).value)
  {
    CompletedRecords(t, o);
    SucceededKeeps(t, OnTurnCompleted(t, o).value);
  }

  /** An event the turn records with the number given. */
  function Recording(t: Turn, sequence: nat, kind: RecordedKind, note: Option<string>): Event
    requires t.session.Some?
  {
    Recorded(sequence, t.coordinates.runId, t.coordinates.turnId, t.session.value, kind, note)
  }

  /** `t'` is `t` after the two events that complete it. */
  predicate Completes(t: Turn, t': Turn) {
    && t.session.Some? && t.turnStarted && t.assistantSeen && t.activeItem.None? && t'.usage.Some?
    && var n := |t.events|;
       var more := [Recording(t, n + 1, UsageUpdated, None)] + [Recording(t, n + 2, TurnCompleted, None)];
       t' == t.(events := t.events + more, usage := t'.usage, disposition := Some(Succeeded))
  }

  lemma CompletedRecords(t: Turn, o: Fields)
    requires OnTurnCompleted(t, o).Ok?
    ensures Completes(t, OnTurnCompleted(t, o).value)
  {
    var n := |t.events|;
    Associates(t.events, [Recording(t, n + 1, UsageUpdated, None)], [Recording(t, n + 2, TurnCompleted, None)]);
  }

  lemma SucceededKeeps(t: Turn, t': Turn)
    requires Kept(t) && t.disposition.None? && Completes(t, t')
    ensures Kept(t')
  {
    var n := |t.events|;
    var a, b := Recording(t, n + 1, UsageUpdated, None), Recording(t, n + 2, TurnCompleted, None);
    Associates(t.events, [a], [b]);
    TwoMoreNumbered(t, a, b);
    EndKeeps(t, a, b, Succeeded, t');
  }

  lemma FaultKeeps(t: Turn, message: Option<string>)
    requires Kept(t) && t.disposition.None? && t.session.Some?
    ensures Fault(t, message).Ok? && Kept(Fault(t, message).value)
    ensures t.events <= Fault(t, message).value.events
  {
    var a, b := FaultRecords(t, message);
    TwoMoreNumbered(t, a, b);
    EndKeeps(t, a, b, Failed, Fault(t, message).value);
  }

  lemma FaultRecords(t: Turn, message: Option<string>) returns (a: Event, b: Event)
    requires t.session.Some?
    ensures a == Recording(t, |t.events| + 1, ProviderFault, message)
    ensures b == Recording(t, |t.events| + 2, TurnCompleted, None)
    ensures Fault(t, message)
         == Ok(t.(events := t.events + [a] + [b], activeItem := None, disposition := Some(Failed)))
  {
    a := Recording(t, |t.events| + 1, ProviderFault, message);
    b := Recording(t, |t.events| + 2, TurnCompleted, None);
  }

  /** Two events of the turn's own, numbered on. */
  lemma TwoMoreNumbered(t: Turn, a: Event, b: Event)
    requires t.session.Some? && Numbered(t.events, t.coordinates, t.session.value)
    requires a.sequence == |t.events| + 1 && b.sequence == |t.events| + 2
    requires a.runId == t.coordinates.runId && a.turnId == t.coordinates.turnId && a.session == t.session.value
    requires b.runId == t.coordinates.runId && b.turnId == t.coordinates.turnId && b.session == t.session.value
    ensures Numbered(t.events + [a] + [b], t.coordinates, t.session.value)
  {
  }

  lemma TurnFailedKeeps(t: Turn, o: Fields)
    requires Kept(t) && t.disposition.None? && OnTurnFailed(t, o).Ok?
    ensures Kept(OnTurnFailed(t, o).value)
  {
    var message := BoundedText(ObjectField(o, "error").value, "message").value;
    FaultKeeps(t, Some(message));
  }

  /** Every accepted event keeps the invariant. */
  lemma DispatchKeeps(t: Turn, kind: string, o: Fields)
    requires Kept(t) && t.disposition.None? && Dispatch(t, kind, o).Ok?
    ensures Kept(Dispatch(t, kind, o).value)
  {
    var t' := Dispatch(t, kind, o).value;
    if kind == "thread.started" {
      ThreadStartedKeeps(t, o);
    } else if kind == "turn.completed" {
      TurnCompletedKeeps(t, o);
    } else if kind == "turn.failed" {
      TurnFailedKeeps(t, o);
    } else {
      if kind == "turn.started" {
        TurnStartedAdvances(t, o);
      } else if kind == "item.started" {
        ItemStartedAdvances(t, o);
      } else if kind == "item.updated" {
        ItemUpdatedAdvances(t, o);
      } else {
        ItemCompletedAdvances(t, o);
      }
      if Advances(t, t') {
        AdvanceKeeps(t, t');
      }
    }
  }

  /** Events only accumulate, and every accepted line of a turn in progress keeps the invariant. */
  lemma PushKeeps(t: Turn, json: string -> Option<Json>, line: string)
    requires Kept(t) && Push(t, json, line).Ok?
    ensures Kept(Push(t, json, line).value)
  {
    var o := json(line).value.fields;
    DispatchKeeps(t, o["type"].s, o);
  }

  lemma PushExtends(t: Turn, json: string -> Option<Json>, line: string)
    requires Push(t, json, line).Ok?
    ensures t.events <= Push(t, json, line).value.events
    ensures Push(t, json, line).value.coordinates == t.coordinates && Push(t, json, line).value.mode == t.mode
    ensures Push(t, json, line).value.disposition.Some? <==>
              json(line).value.fields["type"].s in {"turn.completed", "turn.failed"}
  {
    var o := json(line).value.fields;
    DispatchExtends(t, o["type"].s, o);
  }

  lemma DispatchExtends(t: Turn, kind: string, o: Fields)
    requires t.disposition.None? && Dispatch(t, kind, o).Ok?
    ensures var t' := Dispatch(t, kind, o).value;
            && t.events <= t'.events && t'.coordinates == t.coordinates && t'.mode == t.mode
            && (t'.disposition.Some? <==> kind in {"turn.completed", "turn.failed"})
  {
    if kind == "turn.started" {
      TurnStartedAdvances(t, o);
    } else if kind == "item.started" {
      ItemStartedAdvances(t, o);
    } else if kind == "item.updated" {
      ItemUpdatedAdvances(t, o);
    } else if kind == "item.completed" {
      ItemCompletedAdvances(t, o);
    }
  }

  // ------------------------------------------------------------ errors

  predicate Unparsed(e: AdapterError) {
    e.InvalidJson? || e.InvalidUtf8?
  }

  /** A step that fails, fails for another reason than being unparsed. */
  predicate Parsed<T>(r: Result<T, AdapterError>) {
    r.Err? ==> !Unparsed(r.error)
  }

  lemma SessionErrors(t: Turn, o: Fields)
    ensures Parsed(OnThreadStarted(t, o))
  {
  }

  lemma TurnErrors(t: Turn, o: Fields)
    ensures Parsed(OnTurnStarted(t, o)) && Parsed(OnTurnFailed(t, o))
  {
  }

  lemma UsageErrors(t: Turn, o: Fields)
    ensures Parsed(UsageOf(o)) && Parsed(OnTurnCompleted(t, o))
  {
  }

  lemma ItemStartErrors(t: Turn, o: Fields)
    ensures Parsed(OnItemStarted(t, o))
  {
  }

  lemma ItemUpdateErrors(t: Turn, o: Fields)
    ensures Parsed(OnItemUpdated(t, o))
  {
  }

  lemma ItemCompletedErrors(t: Turn, o: Fields)
    ensures Parsed(OnItemCompleted(t, o))
  {
  }

  /** A line that parsed is never refused as unparsable. */
  lemma DispatchErrors(t: Turn, kind: string, o: Fields)
    ensures Dispatch(t, kind, o).Err? ==> !Unparsed(Dispatch(t, kind, o).error)
  {
    var r := Dispatch(t, kind, o);
    if kind == "thread.started" {
      SessionErrors(t, o);
    } else if kind == "turn.started" || kind == "turn.failed" {
      TurnErrors(t, o);
    } else if kind == "item.started" {
      ItemStartErrors(t, o);
    } else if kind == "item.updated" {
      ItemUpdateErrors(t, o);
    } else if kind == "item.completed" {
      ItemCompletedErrors(t, o);
    } else if kind == "turn.completed" {
      UsageErrors(t, o);
    } else {
      assert r.error.UnknownEvent?;
    }
    assert Parsed(r);
  }

  // ------------------------------------------------------------ whole turns

  /** A turn after any lines, rejected ones leaving it as it was. */
  function After(t: Turn, json: string -> Option<Json>, lines: seq<string>): Turn {
    if lines == [] then t else
      var before := After(t, json, lines[..|lines| - 1]);
      var step := Push(before, json, lines[|lines| - 1]);
      if step.Ok? then step.value else before
  }

  lemma {:induction false} AfterKeeps(c: Coordinates, m: Mode, json: string -> Option<Json>, lines: seq<string>)
    ensures var t := After(NewTurn(c, m), json, lines);
            Kept(t) && t.coordinates == c && t.mode == m
  {
    if lines != [] {
      AfterKeeps(c, m, json, lines[..|lines| - 1]);
      var before := After(NewTurn(c, m), json, lines[..|lines| - 1]);
      if Push(before, json, lines[|lines| - 1]).Ok? {
        PushKeeps(before, json, lines[|lines| - 1]);
        PushExtends(before, json, lines[|lines| - 1]);
      }
    }
  }

  lemma FinishIsGrammatical(t: Turn)
    requires Kept(t)
    ensures Finish(t).Ok? <==> t.disposition.Some?
    ensures Finish(t).Ok? ==> Grammatical(t.coordinates, t.mode, Finish(t).value)
    ensures FinishFailed(t).Ok? <==> t.session.Some?
    ensures FinishFailed(t).Ok? ==> Grammatical(t.coordinates, t.mode, FinishFailed(t).value)
    ensures FinishFailed(t).Ok? ==>
              FinishFailed(t).value.disposition == if t.disposition.Some? then t.disposition.value else Failed
  {
    if t.session.Some? && t.disposition.None? {
      FaultKeeps(t, None);
    }
  }

  /**
   * Whatever a provider writes, a finished transcript is grammatical: numbered 1
   * to n under one session, one session event first, one start, tools
   * alternating, one ending last, and usage exactly on success.
   */
  lemma EveryTranscriptIsGrammatical(c: Coordinates, m: Mode, json: string -> Option<Json>, lines: seq<string>)
    ensures var t := After(NewTurn(c, m), json, lines);
            && (Finish(t).Ok? ==> Grammatical(c, m, Finish(t).value))
            && (FinishFailed(t).Ok? ==> Grammatical(c, m, FinishFailed(t).value))
            && (Finish(t).Ok? <==> t.disposition.Some?)
            && (FinishFailed(t).Ok? <==> t.events != [])
  {
    AfterKeeps(c, m, json, lines);
    FinishIsGrammatical(After(NewTurn(c, m), json, lines));
  }
}
