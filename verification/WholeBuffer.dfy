/**
 * The whole-buffer normalizer (rust/crates/automonique-agents/src/codex.rs),
 * and the incremental stream as a refinement of it.
 */
module WholeBuffer {
  import opened Basics
  import opened Text
  import opened Lines
  import opened Normalize
  import opened ProviderStream
  import opened StreamRuns
  import Grammar

  /** One line of a whole buffer: the same checks as a stream's, in the buffer's order, and no event ceiling. */
  function ReadLine(t: Turn, p: Parsers, line: Bytes): Result<Turn, AdapterError> {
    if line == [] then Err(InvalidJson)
    else if |line| > MAX_LINE_BYTES then Err(OutputTooLarge)
    else if p.utf8(line).None? then Err(InvalidUtf8)
    else Push(t, p.json, p.utf8(line).value)
  }

  function ReadLines(t: Turn, p: Parsers, lines: seq<Bytes>): Result<Turn, AdapterError> {
    if lines == [] then Ok(t) else
      var before :- ReadLines(t, p, lines[..|lines| - 1]);
      ReadLine(before, p, lines[|lines| - 1])
  }

  /** The pieces between newlines: one more than there are newlines. */
  function Pieces(b: Bytes): seq<Bytes> {
    Complete(b) + [Tail(b)]
  }

  function Normalized(p: Parsers, c: Coordinates, m: Mode, output: Bytes): Result<Transcript, AdapterError> {
    if |output| > MAX_TOTAL_BYTES then Err(OutputTooLarge)
    else if output == [] || output[|output| - 1] != NEWLINE then Err(InvalidJson)
    else
      var t :- ReadLines(NewTurn(c, m), p, Pieces(output[..|output| - 1]));
      var f :- Finish(t);
      Ok(Transcript(f, 0))
  }

  method PushPiece(normalizer: Normalizer, p: Parsers, line: Bytes) returns (step: Result<(), AdapterError>)
    modifies normalizer
    ensures var read := ReadLine(old(normalizer.View()), p, line);
            if step.Ok? then read == Ok(normalizer.View()) else read == Err(step.error)
  {
    if line == [] {
      return Err(InvalidJson);
    }
    if |line| > MAX_LINE_BYTES {
      return Err(OutputTooLarge);
    }
    var text := p.utf8(line);
    if text.None? {
      return Err(InvalidUtf8);
    }
    step := normalizer.PushLine(p.json, text.value);
  }

  method NormalizeJsonl(p: Parsers, c: Coordinates, m: Mode, output: Bytes)
    returns (r: Result<Transcript, AdapterError>)
    ensures r == Normalized(p, c, m, output)
  {
    if |output| > MAX_TOTAL_BYTES {
      return Err(OutputTooLarge);
    }
    if output == [] || output[|output| - 1] != NEWLINE {
      return Err(InvalidJson);
    }
    var normalizer := new Normalizer(c, m);
    var lines := Pieces(output[..|output| - 1]);
    for k := 0 to |lines|
      invariant ReadLines(NewTurn(c, m), p, lines[..k]) == Ok(normalizer.View())
    {
      assert lines[..k + 1][..k] == lines[..k];
      var step := PushPiece(normalizer, p, lines[k]);
      if step.Err? {
        ReadStops(NewTurn(c, m), p, lines, k + 1);
        return Err(step.error);
      }
    }
    assert lines[..|lines|] == lines;
    var f :- Finish(normalizer.View());
    return Ok(Transcript(f, 0));
  }

  /** An error in a prefix is the error of the whole. */
  lemma {:induction false} ReadStops(t: Turn, p: Parsers, lines: seq<Bytes>, k: nat)
    requires k <= |lines| && ReadLines(t, p, lines[..k]).Err?
    ensures ReadLines(t, p, lines) == Err(ReadLines(t, p, lines[..k]).error)
    decreases |lines| - k
  {
    if k == |lines| {
      assert lines[..k] == lines;
    } else {
      assert lines[..k + 1][..k] == lines[..k];
      ReadStops(t, p, lines, k + 1);
    }
  }

  // ------------------------------------------------------------ refinement

  /** Line by line: a strict stream is the whole-buffer reader with a ceiling on events. */
  lemma {:induction false} StrictIsCappedRead(p: Parsers, c: Coordinates, m: Mode, lines: seq<Bytes>)
    ensures var strict := TakeLines(Rule(Strict, p), Taken(NewTurn(c, m), 0, None), lines);
            var read := ReadLines(NewTurn(c, m), p, lines);
            && (strict.refusal.None? <==> read.Ok? && |read.value.events| <= MAX_STREAM_EVENTS)
            && (strict.refusal.None? ==> strict == Taken(read.value, 0, None))
    decreases |lines|
  {
    var a := Taken(NewTurn(c, m), 0, None);
    if lines != [] {
      var front, last := lines[..|lines| - 1], lines[|lines| - 1];
      StrictIsCappedRead(p, c, m, front);
      assert lines == front + [last];
      TakeLinesAppends(Rule(Strict, p), a, front, [last]);
      var before := ReadLines(NewTurn(c, m), p, front);
      if before.Ok? && ReadLine(before.value, p, last).Ok? {
        Grammar.PushExtends(before.value, p.json, p.utf8(last).value);
      }
    }
  }

  /** A buffer that ends in a newline, as one read of its lines. */
  lemma NormalizedIsRead(p: Parsers, c: Coordinates, m: Mode, output: Bytes)
    requires |output| <= MAX_TOTAL_BYTES
    ensures var read := ReadLines(NewTurn(c, m), p, Complete(output));
            Normalized(p, c, m, output).Ok? ==>
              Tail(output) == [] && read.Ok? && Finish(read.value) == Ok(Normalized(p, c, m, output).value.finished)
    ensures var read := ReadLines(NewTurn(c, m), p, Complete(output));
            Tail(output) == [] && read.Ok? && Finish(read.value).Ok? ==>
              Normalized(p, c, m, output) == Ok(Transcript(Finish(read.value).value, 0))
  {
  }

  /** Finishing keeps every event. */
  lemma FinishKeepsEvents(t: Turn)
    requires Finish(t).Ok?
    ensures Finish(t).value.events == t.events
  {
  }

  /**
   * A strict stream, in any chunks, finishes with a transcript exactly when the
   * whole buffer normalizes to that transcript and it has at most 4096 events.
   */
  lemma StreamRefinesWholeBuffer(p: Parsers, c: Coordinates, m: Mode, chunks: seq<Bytes>, transcript: Transcript)
    ensures FinishStream(Streamed(Strict, p, c, m, chunks)) == Ok(transcript)
       <==> Normalized(p, c, m, Flatten(chunks)) == Ok(transcript) && |transcript.finished.events| <= MAX_STREAM_EVENTS
  {
    var output := Flatten(chunks);
    var s := Streamed(Strict, p, c, m, chunks);
    ChunkingIsIrrelevant(Strict, p, c, m, chunks);
    if |output| <= MAX_TOTAL_BYTES {
      StrictIsCappedRead(p, c, m, Complete(output));
      NormalizedIsRead(p, c, m, output);
      var read := ReadLines(NewTurn(c, m), p, Complete(output));
      if read.Ok? && Finish(read.value).Ok? {
        FinishKeepsEvents(read.value);
      }
    }
  }
}
