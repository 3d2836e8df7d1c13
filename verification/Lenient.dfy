/**
 * The lenient session policy against the strict one: skipping what does not
 * parse is the same as never having been sent it, up to the one place where the
 * source looks at the turn before it looks at the line.
 */
module Lenient {
  import opened Basics
  import opened Text
  import opened Lines
  import opened Normalize
  import opened ProviderStream
  import opened StreamRuns
  import Grammar

  /** Text that is not JSON. */
  predicate NotJson(p: Parsers, line: Bytes) {
    line != [] && p.utf8(line).Some? && p.json(p.utf8(line).value).None?
  }

  /** A blank line, bytes that are not UTF-8, or text that is not JSON. */
  predicate Junk(p: Parsers, line: Bytes) {
    line == [] || p.utf8(line).None? || NotJson(p, line)
  }

  /** The lines that parse, in order. */
  function Parsed(p: Parsers, lines: seq<Bytes>): seq<Bytes> {
    if lines == [] then [] else
      var front, last := Parsed(p, lines[..|lines| - 1]), lines[|lines| - 1];
      if Junk(p, last) then front else front + [last]
  }

  /** A line that says the turn is over. */
  predicate EndsTurn(p: Parsers, line: Bytes) {
    !Junk(p, line) &&
    var value := p.json(p.utf8(line).value).value;
    value.JObject? && "type" in value.fields &&
    (value.fields["type"] == JString("turn.completed") || value.fields["type"] == JString("turn.failed"))
  }

  ghost predicate HasEnd(p: Parsers, lines: seq<Bytes>) {
    exists i :: 0 <= i < |lines| && EndsTurn(p, lines[i])
  }

  /** Text that is not JSON somewhere after a line that ends the turn. */
  ghost predicate JunkAfterEnd(p: Parsers, lines: seq<Bytes>) {
    exists i, j :: 0 <= i < j < |lines| && EndsTurn(p, lines[i]) && NotJson(p, lines[j])
  }

  predicate AllShort(lines: seq<Bytes>) {
    forall l | l in lines :: |l| <= MAX_LINE_BYTES
  }

  lemma TakeLast(policy: Policy, p: Parsers, a: Taken, lines: seq<Bytes>)
    requires lines != []
    ensures TakeLines(Rule(policy, p), a, lines) ==
            TakeLine(policy, p, TakeLines(Rule(policy, p), a, lines[..|lines| - 1]), lines[|lines| - 1])
  {
    var front, last := lines[..|lines| - 1], lines[|lines| - 1];
    assert lines == front + [last];
    TakeLinesAppends(Rule(policy, p), a, front, [last]);
  }

  /** A line that parses: an accepted one ends the turn exactly when it says so, a refused one is never forgiven. */
  lemma PushParsed(t: Turn, p: Parsers, line: Bytes)
    requires !Junk(p, line)
    ensures var step := Push(t, p.json, p.utf8(line).value);
            && (step.Ok? ==> t.disposition.None? && (step.value.disposition.Some? <==> EndsTurn(p, line)))
            && (step.Err? ==> !Forgiven(Session, step.error))
  {
    var text := p.utf8(line).value;
    var value := p.json(text).value;
    if value.JObject? && StringField(value.fields, "type").Ok? {
      Grammar.DispatchErrors(t, value.fields["type"].s, value.fields);
    }
    if Push(t, p.json, text).Ok? {
      Grammar.PushExtends(t, p.json, text);
    }
  }

  lemma EndsExtend(p: Parsers, front: seq<Bytes>, last: Bytes)
    ensures HasEnd(p, front + [last]) <==> HasEnd(p, front) || EndsTurn(p, last)
    ensures JunkAfterEnd(p, front + [last]) <==> JunkAfterEnd(p, front) || (HasEnd(p, front) && NotJson(p, last))
  {
    var lines := front + [last];
    assert lines[|front|] == last;
    if HasEnd(p, front) {
      var i :| 0 <= i < |front| && EndsTurn(p, front[i]);
      assert EndsTurn(p, lines[i]);
    }
    if JunkAfterEnd(p, front) {
      var i, j :| 0 <= i < j < |front| && EndsTurn(p, front[i]) && NotJson(p, front[j]);
      assert EndsTurn(p, lines[i]) && NotJson(p, lines[j]);
    }
    if JunkAfterEnd(p, lines) {
      var i, j :| 0 <= i < j < |lines| && EndsTurn(p, lines[i]) && NotJson(p, lines[j]);
      assert EndsTurn(p, front[i]);
      assert j < |front| ==> NotJson(p, front[j]);
    }
  }

  /** A line that does not parse is skipped, unless it is text after the end of the turn, or too long. */
  lemma SkipJunk(p: Parsers, a: Taken, line: Bytes)
    requires a.refusal.None? && Junk(p, line)
    ensures var a' := TakeLine(Session, p, a, line);
            && (a'.refusal.None? <==> |line| <= MAX_LINE_BYTES && !(a.turn.disposition.Some? && NotJson(p, line)))
            && (a'.refusal.None? ==> a' == a.(warnings := a.warnings + 1))
  {
  }

  /** On a line that parses the policies do the same. */
  lemma TakeParsed(p: Parsers, lenient: Taken, strict: Taken, line: Bytes)
    requires lenient.refusal.None? && strict.refusal.None? && lenient.turn == strict.turn && !Junk(p, line)
    ensures var lenient', strict' := TakeLine(Session, p, lenient, line), TakeLine(Strict, p, strict, line);
            && lenient' == lenient.(turn := strict'.turn, refusal := strict'.refusal)
            && strict'.warnings == strict.warnings
            && (strict'.refusal.None? ==>
                  && |line| <= MAX_LINE_BYTES && lenient.turn.disposition.None?
                  && (strict'.turn.disposition.Some? <==> EndsTurn(p, line)))
  {
    PushParsed(lenient.turn, p, line);
  }

  ghost predicate SameTurn(p: Parsers, lenient: Taken, strict: Taken, lines: seq<Bytes>) {
    && lenient.turn == strict.turn && strict.warnings == 0
    && lenient.warnings == |lines| - |Parsed(p, lines)|
    && (lenient.turn.disposition.Some? <==> HasEnd(p, lines))
  }

  /**
   * A session stream accepts lines exactly when they are short, a strict stream
   * accepts those that parse, and no unparsable text follows the end of the
   * turn; then the events are the same and the warnings count what was skipped.
   */
  lemma {:induction false} LenientIsStrictOnParsed(p: Parsers, c: Coordinates, m: Mode, lines: seq<Bytes>)
    ensures var a := Taken(NewTurn(c, m), 0, None);
            var lenient := TakeLines(Rule(Session, p), a, lines);
            var strict := TakeLines(Rule(Strict, p), a, Parsed(p, lines));
            && (lenient.refusal.None? <==> AllShort(lines) && strict.refusal.None? && !JunkAfterEnd(p, lines))
            && (lenient.refusal.None? ==> SameTurn(p, lenient, strict, lines))
    decreases |lines|
  {
    var a := Taken(NewTurn(c, m), 0, None);
    if lines != [] {
      var front, last := lines[..|lines| - 1], lines[|lines| - 1];
      assert lines == front + [last];
      LenientIsStrictOnParsed(p, c, m, front);
      var lenient, strict := TakeLines(Rule(Session, p), a, front), TakeLines(Rule(Strict, p), a, Parsed(p, front));
      TakeLast(Session, p, a, lines);
      if !Junk(p, last) {
        TakeLinesAppends(Rule(Strict, p), a, Parsed(p, front), [last]);
      }
      EndsExtend(p, front, last);
      assert AllShort(lines) <==> AllShort(front) && |last| <= MAX_LINE_BYTES;
      if lenient.refusal.None? {
        if Junk(p, last) {
          SkipJunk(p, lenient, last);
        } else {
          TakeParsed(p, lenient, strict, last);
        }
      }
    }
  }

  // ------------------------------------------------------------ bytes

  /** The stream with the lines that do not parse taken out. */
  function Filtered(p: Parsers, bytes: Bytes): Bytes {
    Joined(Parsed(p, Complete(bytes))) + Tail(bytes)
  }

  lemma {:induction false} ParsedIsUnbroken(p: Parsers, lines: seq<Bytes>)
    requires Unbroken(lines)
    ensures Unbroken(Parsed(p, lines)) && |Joined(Parsed(p, lines))| <= |Joined(lines)|
  {
    if lines != [] {
      var front, last := lines[..|lines| - 1], lines[|lines| - 1];
      ParsedIsUnbroken(p, front);
      var parsed := Parsed(p, front);
      assert (parsed + [last])[..|parsed|] == parsed;
    }
  }

  /**
   * The same over bytes in any chunks: a session stream fed `bytes` against a
   * strict stream fed the filtered bytes, however each was cut.
   */
  lemma LenientStreamIsStrictOnFiltered(
    p: Parsers, c: Coordinates, m: Mode, chunks: seq<Bytes>, filteredChunks: seq<Bytes>)
    requires |Flatten(chunks)| <= MAX_TOTAL_BYTES
    requires Flatten(filteredChunks) == Filtered(p, Flatten(chunks))
    ensures var bytes := Flatten(chunks);
            var lenient := Streamed(Session, p, c, m, chunks).taken;
            var strict := Streamed(Strict, p, c, m, filteredChunks).taken;
            && (lenient.refusal.None? <==>
                  AllShort(Complete(bytes)) && strict.refusal.None? && !JunkAfterEnd(p, Complete(bytes)))
            && (lenient.refusal.None? ==> SameTurn(p, lenient, strict, Complete(bytes)))
  {
    var bytes := Flatten(chunks);
    ChunkingIsIrrelevant(Session, p, c, m, chunks);
    ChunkingIsIrrelevant(Strict, p, c, m, filteredChunks);
    CompleteIsUnbroken(bytes);
    TailIsOneLine(bytes);
    JoinOfSplit(bytes);
    ParsedIsUnbroken(p, Complete(bytes));
    SplitOfJoin(Parsed(p, Complete(bytes)), Tail(bytes));
    LenientIsStrictOnParsed(p, c, m, Complete(bytes));
  }
}
