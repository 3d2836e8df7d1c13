/**
 * Two provider outputs on which the stream does less than its documentation says: the lines are
 * any the parsers read as the six events below.
 */
module StreamExamples {
  import opened Basics
  import opened Text
  import opened Lines
  import opened Normalize
  import opened ProviderStream
  import opened StreamRuns
  import opened WholeBuffer
  import Grammar

  const SESSION: Json := JObject(map["type" := JString("thread.started"), "thread_id" := JString("a")])
  const TURN: Json := JObject(map["type" := JString("turn.started")])
  const MESSAGE: Json := JObject(map["type" := JString("item.completed"), "item" := JObject(
    map["id" := JString("a"), "type" := JString("agent_message"), "text" := JString("")])])
  const NOTICE: Json := JObject(map["type" := JString("item.completed"), "item" := JObject(
    map["id" := JString("a"), "type" := JString("error"), "message" := JString("")])])
  const DONE: Json := JObject(map["type" := JString("turn.completed"), "usage" := JObject(
    map["cached_input_tokens" := JInt(0), "input_tokens" := JInt(0), "output_tokens" := JInt(0)])])
  const FAULT: Json := JObject(map["type" := JString("turn.failed"), "error" := JObject(map["message" := JString("")])])

  /** A line for each of these events. */
  datatype Script =
    Script(session: Bytes, turn: Bytes, message: Bytes, notice: Bytes, done: Bytes, fault: Bytes)

  /** The parsers read the line as the event, and it is a line the stream takes whole. */
  predicate Spells(p: Parsers, line: Bytes, event: Json) {
    && p.utf8(line).Some? && p.json(p.utf8(line).value) == Some(event)
    && 1 <= |line| <= MAX_LINE_BYTES && OneLine(line)
  }

  predicate Scripted(p: Parsers, s: Script) {
    && Spells(p, s.session, SESSION) && Spells(p, s.turn, TURN) && Spells(p, s.message, MESSAGE)
    && Spells(p, s.notice, NOTICE) && Spells(p, s.done, DONE) && Spells(p, s.fault, FAULT)
  }

  // ------------------------------------------------------------ one event at a time

  type Reader = string -> Option<Json>

  /** A turn under way, with so many events and nothing active. */
  predicate Running(t: Turn, count: nat) {
    t.session == Some("a") && t.turnStarted && t.activeItem.None? && t.disposition.None? && |t.events| == count
  }

  lemma ShortName()
    ensures ValidSession("a").Ok? && ValidCoordinate("a", "provider_item_id").Ok?
    ensures Utf8Length("") == 0
  {
    assert "a"[..0] == "";
  }

  lemma OnSession(c: Coordinates, json: Reader, text: string)
    requires json(text) == Some(SESSION)
    ensures Push(NewTurn(c, NewSession), json, text).Ok?
    ensures var t := Push(NewTurn(c, NewSession), json, text).value;
            t.session == Some("a") && !t.turnStarted && t.activeItem.None? && t.disposition.None? && |t.events| == 1
  {
    ShortName();
    assert SESSION.fields.Keys == {"thread_id", "type"};
  }

  lemma OnTurn(t: Turn, json: Reader, text: string)
    requires json(text) == Some(TURN)
    requires t.session == Some("a") && !t.turnStarted && t.activeItem.None? && t.disposition.None?
    ensures Push(t, json, text).Ok? && Running(Push(t, json, text).value, |t.events| + 1)
  {
    assert TURN.fields.Keys == {"type"};
  }

  lemma OnNotice(t: Turn, json: Reader, text: string)
    requires json(text) == Some(NOTICE) && Running(t, |t.events|)
    ensures Push(t, json, text).Ok? && Running(Push(t, json, text).value, |t.events| + 1)
  {
    ShortName();
    assert NOTICE.fields.Keys == {"item", "type"};
    assert NOTICE.fields["item"].fields.Keys == {"id", "message", "type"};
  }

  lemma OnMessage(t: Turn, json: Reader, text: string)
    requires json(text) == Some(MESSAGE) && Running(t, |t.events|)
    ensures Push(t, json, text).Ok?
    ensures Running(Push(t, json, text).value, |t.events| + 1) && Push(t, json, text).value.assistantSeen
  {
    ShortName();
    assert MESSAGE.fields.Keys == {"item", "type"};
    assert MESSAGE.fields["item"].fields.Keys == {"id", "text", "type"};
  }

  lemma OnDone(t: Turn, json: Reader, text: string)
    requires json(text) == Some(DONE) && Running(t, |t.events|) && t.assistantSeen
    ensures Push(t, json, text).Ok?
    ensures var t' := Push(t, json, text).value;
            t'.session == Some("a") && t'.disposition == Some(Succeeded) && |t'.events| == |t.events| + 2
  {
    assert DONE.fields.Keys == {"type", "usage"};
    assert DONE.fields["usage"].fields.Keys == LEGACY_USAGE;
  }

  lemma OnFault(t: Turn, json: Reader, text: string)
    requires json(text) == Some(FAULT) && Running(t, |t.events|)
    ensures Push(t, json, text).Ok?
    ensures var t' := Push(t, json, text).value;
            t'.session == Some("a") && t'.disposition == Some(Failed) && |t'.events| == |t.events| + 2
  {
    ShortName();
    assert FAULT.fields.Keys == {"error", "type"};
    assert FAULT.fields["error"].fields.Keys == {"message"};
  }

  lemma ReadOneMore(p: Parsers, t: Turn, lines: seq<Bytes>, line: Bytes, event: Json)
    requires ReadLines(t, p, lines).Ok? && Spells(p, line, event)
    ensures ReadLines(t, p, lines + [line]) == Push(ReadLines(t, p, lines).value, p.json, p.utf8(line).value)
  {
    assert (lines + [line])[..|lines|] == lines;
  }

  // ------------------------------------------------------------ too many events

  /** Lines followed by so many notices. */
  function Noticed(lines: seq<Bytes>, notice: Bytes, n: nat): seq<Bytes> {
    if n == 0 then lines else Noticed(lines, notice, n - 1) + [notice]
  }

  function Opening(s: Script): seq<Bytes> {
    [s.session, s.turn]
  }

  lemma SessionIsRead(p: Parsers, s: Script, c: Coordinates)
    requires Scripted(p, s)
    ensures ReadLines(NewTurn(c, NewSession), p, [s.session])
         == Push(NewTurn(c, NewSession), p.json, p.utf8(s.session).value)
  {
    ReadOneMore(p, NewTurn(c, NewSession), [], s.session, SESSION);
    EmptyPrefix([s.session]);
  }

  lemma StartIsRead(p: Parsers, s: Script, c: Coordinates)
    requires Scripted(p, s)
    ensures var r := ReadLines(NewTurn(c, NewSession), p, Opening(s)); r.Ok? && Running(r.value, 2)
  {
    var start := NewTurn(c, NewSession);
    SessionIsRead(p, s, c);
    OnSession(c, p.json, p.utf8(s.session).value);
    OnTurn(ReadLines(start, p, [s.session]).value, p.json, p.utf8(s.turn).value);
    ReadOneMore(p, start, [s.session], s.turn, TURN);
    assert [s.session] + [s.turn] == Opening(s);
  }

  /** A notice is read at any time of a running turn. */
  ghost predicate TakesNotices(p: Parsers, notice: Bytes) {
    forall t: Turn {:trigger ReadLine(t, p, notice)} | Running(t, |t.events|) ::
      ReadLine(t, p, notice).Ok? && Running(ReadLine(t, p, notice).value, |t.events| + 1)
  }

  lemma NoticesAreTaken(p: Parsers, notice: Bytes)
    requires Spells(p, notice, NOTICE)
    ensures TakesNotices(p, notice)
  {
    forall t: Turn | Running(t, |t.events|)
      ensures ReadLine(t, p, notice).Ok? && Running(ReadLine(t, p, notice).value, |t.events| + 1)
    {
      OnNotice(t, p.json, p.utf8(notice).value);
    }
  }

  /** How many events a running turn has after the lines; none when it is not running. */
  function Progress(p: Parsers, t: Turn, lines: seq<Bytes>): Option<nat> {
    var r := ReadLines(t, p, lines);
    if r.Ok? && Running(r.value, |r.value.events|) then Some(|r.value.events|) else None
  }

  /** One more for every notice, of anything that counts one more for a notice. */
  lemma {:induction false} NoticedCounts(count: seq<Bytes> -> Option<nat>, lines: seq<Bytes>, notice: Bytes, k: nat,
                                         n: nat)
    requires count(lines) == Some(k)
    requires forall ls, j | count(ls) == Some(j) :: count(ls + [notice]) == Some(j + 1)
    ensures count(Noticed(lines, notice, n)) == Some(k + n)
  {
    if n > 0 {
      NoticedCounts(count, lines, notice, k, n - 1);
    }
  }

  lemma NoticedIsRead(p: Parsers, t: Turn, lines: seq<Bytes>, notice: Bytes, k: nat, n: nat)
    requires TakesNotices(p, notice) && Progress(p, t, lines) == Some(k)
    ensures Progress(p, t, Noticed(lines, notice, n)) == Some(k + n)
  {
    var count := (ls: seq<Bytes>) => Progress(p, t, ls);
    forall ls, j | count(ls) == Some(j) ensures count(ls + [notice]) == Some(j + 1) {
      NoticedOnce(p, t, ls, notice, j);
    }
    NoticedCounts(count, lines, notice, k, n);
    assert count(Noticed(lines, notice, n)) == Some(k + n);
  }

  lemma NoticedOnce(p: Parsers, t: Turn, lines: seq<Bytes>, notice: Bytes, count: nat)
    requires TakesNotices(p, notice) && Progress(p, t, lines) == Some(count)
    ensures Progress(p, t, lines + [notice]) == Some(count + 1)
  {
    assert (lines + [notice])[..|lines|] == lines;
  }

  lemma {:induction false} NoticedIsUnbroken(lines: seq<Bytes>, notice: Bytes, n: nat)
    requires Unbroken(lines) && OneLine(notice)
    ensures Unbroken(Noticed(lines, notice, n))
  {
    if n > 0 {
      NoticedIsUnbroken(lines, notice, n - 1);
    }
  }

  lemma JoinedIsRead(lines: seq<Bytes>)
    requires Unbroken(lines)
    ensures Complete(Joined(lines)) == lines && Tail(Joined(lines)) == []
  {
    SplitOfJoin(lines, []);
    EmptySuffix(Joined(lines));
  }

  /** The lines of a provider output of 4100 events. */
  function Long(s: Script): seq<Bytes> {
    Noticed(Opening(s), s.notice, 4096) + [s.fault]
  }

  lemma LongIsRead(p: Parsers, s: Script, c: Coordinates)
    requires Scripted(p, s)
    ensures var r := ReadLines(NewTurn(c, NewSession), p, Long(s));
            r.Ok? && r.value.session == Some("a") && r.value.disposition == Some(Failed) && |r.value.events| == 4100
  {
    var start, noticed := NewTurn(c, NewSession), Noticed(Opening(s), s.notice, 4096);
    StartIsRead(p, s, c);
    NoticesAreTaken(p, s.notice);
    NoticedIsRead(p, start, Opening(s), s.notice, 2, 4096);
    OnFault(ReadLines(start, p, noticed).value, p.json, p.utf8(s.fault).value);
    ReadOneMore(p, start, noticed, s.fault, FAULT);
  }

  lemma LongIsUnbroken(p: Parsers, s: Script)
    requires Scripted(p, s)
    ensures Unbroken(Long(s))
  {
    assert Unbroken(Opening(s));
    NoticedIsUnbroken(Opening(s), s.notice, 4096);
  }

  /** Lines that read to an end normalize, and a stream of them finishes only within its ceiling. */
  lemma ReadToAnEnd(p: Parsers, c: Coordinates, m: Mode, lines: seq<Bytes>, chunks: seq<Bytes>)
    requires Unbroken(lines) && |Joined(lines)| <= MAX_TOTAL_BYTES && Flatten(chunks) == Joined(lines)
    requires ReadLines(NewTurn(c, m), p, lines).Ok? && Finish(ReadLines(NewTurn(c, m), p, lines).value).Ok?
    ensures Normalized(p, c, m, Joined(lines)).Ok?
    ensures FinishStream(Streamed(Strict, p, c, m, chunks)).Ok? <==>
            |ReadLines(NewTurn(c, m), p, lines).value.events| <= MAX_STREAM_EVENTS
  {
    JoinedIsRead(lines);
    NormalizedIsRead(p, c, m, Joined(lines));
    FinishKeepsEvents(ReadLines(NewTurn(c, m), p, lines).value);
    var r := FinishStream(Streamed(Strict, p, c, m, chunks));
    StreamRefinesWholeBuffer(p, c, m, chunks, Normalized(p, c, m, Joined(lines)).value);
    if r.Ok? {
      StreamRefinesWholeBuffer(p, c, m, chunks, r.value);
    }
  }

  /** The whole buffer normalizes; no stream of the same bytes finishes, however it is cut. */
  lemma ABufferTheStreamRefuses(p: Parsers, s: Script, c: Coordinates, chunks: seq<Bytes>)
    requires Scripted(p, s) && |Joined(Long(s))| <= MAX_TOTAL_BYTES && Flatten(chunks) == Joined(Long(s))
    ensures Normalized(p, c, NewSession, Joined(Long(s))).Ok?
    ensures FinishStream(Streamed(Strict, p, c, NewSession, chunks)).Err?
  {
    LongIsRead(p, s, c);
    LongIsUnbroken(p, s);
    ShortName();
    ReadToAnEnd(p, c, NewSession, Long(s), chunks);
  }

  // ------------------------------------------------------------ a failed process

  function Calm(s: Script): seq<Bytes> {
    [s.session, s.turn, s.message, s.done]
  }

  lemma CalmIsRead(p: Parsers, s: Script, c: Coordinates)
    requires Scripted(p, s)
    ensures var r := ReadLines(NewTurn(c, NewSession), p, Calm(s));
            r.Ok? && r.value.session == Some("a") && r.value.disposition == Some(Succeeded) && |r.value.events| == 5
  {
    var start, two := NewTurn(c, NewSession), Opening(s);
    StartIsRead(p, s, c);
    OnMessage(ReadLines(start, p, two).value, p.json, p.utf8(s.message).value);
    ReadOneMore(p, start, two, s.message, MESSAGE);
    OnDone(ReadLines(start, p, two + [s.message]).value, p.json, p.utf8(s.done).value);
    ReadOneMore(p, start, two + [s.message], s.done, DONE);
    assert two + [s.message] + [s.done] == Calm(s);
  }

  /** Lines that read without an error, and few enough events, are taken alike by both policies. */
  lemma {:induction false} BothTake(policy: Policy, p: Parsers, c: Coordinates, m: Mode, lines: seq<Bytes>)
    requires ReadLines(NewTurn(c, m), p, lines).Ok?
    requires |ReadLines(NewTurn(c, m), p, lines).value.events| <= MAX_STREAM_EVENTS
    ensures TakeLines(Rule(policy, p), Taken(NewTurn(c, m), 0, None), lines)
         == Taken(ReadLines(NewTurn(c, m), p, lines).value, 0, None)
    decreases |lines|
  {
    if lines != [] {
      var front, last := lines[..|lines| - 1], lines[|lines| - 1];
      FrontAndLast(lines);
      Grammar.PushExtends(ReadLines(NewTurn(c, m), p, front).value, p.json, p.utf8(last).value);
      BothTake(policy, p, c, m, front);
      TakeLinesAppends(Rule(policy, p), Taken(NewTurn(c, m), 0, None), front, [last]);
    }
  }

  lemma TakenWhole(policy: Policy, p: Parsers, c: Coordinates, m: Mode, lines: seq<Bytes>, chunks: seq<Bytes>)
    requires Unbroken(lines) && |Joined(lines)| <= MAX_TOTAL_BYTES && Flatten(chunks) == Joined(lines)
    requires ReadLines(NewTurn(c, m), p, lines).Ok?
    requires |ReadLines(NewTurn(c, m), p, lines).value.events| <= MAX_STREAM_EVENTS
    ensures Streamed(policy, p, c, m, chunks).taken == Taken(ReadLines(NewTurn(c, m), p, lines).value, 0, None)
  {
    var bytes := Joined(lines);
    JoinedIsRead(lines);
    ChunkingIsIrrelevant(policy, p, c, m, chunks);
    var rule, a := Rule(policy, p), Taken(NewTurn(c, m), 0, None);
    assert Streamed(policy, p, c, m, chunks).taken == Whole(rule, a, bytes);
    BothTake(policy, p, c, m, lines);
    WholeOfLines(rule, a, bytes, lines);
  }

  lemma WholeOfLines(rule: LineRule, a: Taken, bytes: Bytes, lines: seq<Bytes>)
    requires Complete(bytes) == lines && Tail(bytes) == []
    ensures Whole(rule, a, bytes) == TakeLines(rule, a, lines)
  {
  }

  /** A session whose process exits with a failure keeps the success the provider reported. */
  lemma AFailedProcessThatSucceeded(p: Parsers, s: Script, c: Coordinates, chunks: seq<Bytes>)
    requires Scripted(p, s) && |Joined(Calm(s))| <= MAX_TOTAL_BYTES && Flatten(chunks) == Joined(Calm(s))
    ensures var r := FinishSession(Streamed(Session, p, c, NewSession, chunks), false);
            r.Ok? && r.value.finished.disposition == Succeeded
  {
    CalmIsRead(p, s, c);
    assert Unbroken(Calm(s));
    TakenWhole(Session, p, c, NewSession, Calm(s), chunks);
    SucceededIsKept(p, c, chunks);
  }

  /** Whatever the exit status, a session that succeeded stays so. */
  lemma SucceededIsKept(p: Parsers, c: Coordinates, chunks: seq<Bytes>)
    requires var a := Streamed(Session, p, c, NewSession, chunks).taken;
             a.refusal.None? && a.turn.events != [] && a.turn.disposition == Some(Succeeded)
    ensures var r := FinishSession(Streamed(Session, p, c, NewSession, chunks), false);
            r.Ok? && r.value.finished.disposition == Succeeded
  {
    SessionEnding(p, c, NewSession, chunks, false);
  }
}
