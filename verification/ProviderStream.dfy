/**
 * The incremental parser over one provider's stdout
 * (rust/crates/automonique-agents/src/stream.rs): bytes in any chunks, one
 * normalized event stream out, every bound a lasting refusal.
 */
module ProviderStream {
  import opened Basics
  import opened Text
  import opened Lines
  import opened Normalize
  import Grammar

  const MAX_LINE_BYTES: nat := 65536
  const MAX_TOTAL_BYTES: nat := 4194304
  const MAX_STREAM_EVENTS: nat := 4096

  datatype Policy = Strict | Session

  /** What a caller can observe of the lines taken so far. */
  datatype Taken = Taken(turn: Turn, warnings: nat, refusal: Option<AdapterError>)

  datatype Stream = Stream(policy: Policy, taken: Taken, pending: Bytes, total: nat)

  datatype Transcript = Transcript(finished: Finished, warnings: nat)

  function NewStream(policy: Policy, c: Coordinates, m: Mode): Stream {
    Stream(policy, Taken(NewTurn(c, m), 0, None), [], 0)
  }

  // ------------------------------------------------------------ lines

  /** The turn after one complete line, and the error it met, if any. */
  function AcceptLine(t: Turn, p: Parsers, line: Bytes): (Turn, Option<AdapterError>) {
    if |line| > MAX_LINE_BYTES then (t, Some(OutputTooLarge))
    else if line == [] then (t, Some(InvalidJson))
    else if p.utf8(line).None? then (t, Some(InvalidUtf8))
    else
      var step := Push(t, p.json, p.utf8(line).value);
      if step.Err? then (t, Some(step.error))
      else (step.value, if |step.value.events| > MAX_STREAM_EVENTS then Some(TooManyEvents) else None)
  }

  predicate Forgiven(policy: Policy, e: AdapterError) {
    policy.Session? && (e.InvalidJson? || e.InvalidUtf8?)
  }

  function TakeLine(policy: Policy, p: Parsers, a: Taken, line: Bytes): Taken {
    if a.refusal.Some? then a else
      var (t, e) := AcceptLine(a.turn, p, line);
      if e.None? then a.(turn := t)
      else if Forgiven(policy, e.value) then a.(turn := t, warnings := a.warnings + 1)
      else a.(turn := t, refusal := e)
  }

  /** What happens to the lines taken so far when one more completes. */
  type LineRule = (Taken, Bytes) -> Taken

  function Rule(policy: Policy, p: Parsers): LineRule {
    (a: Taken, line: Bytes) => TakeLine(policy, p, a, line)
  }

  function TakeLines(rule: LineRule, a: Taken, lines: seq<Bytes>): Taken
    decreases |lines|
  {
    if lines == [] then a else TakeLines(rule, rule(a, lines[0]), lines[1..])
  }

  // ------------------------------------------------------------ chunks

  function Refuse(a: Taken, e: AdapterError): Taken {
    a.(refusal := Some(e))
  }

  /** One chunk, once the total was found within bounds. */
  function Consume(rule: LineRule, s: Stream, rest: Bytes): Stream
    decreases |rest|
  {
    var i := FirstNewline(rest);
    if i.None? then
      var pending := s.pending + rest;
      if |pending| > MAX_LINE_BYTES then s.(pending := pending, taken := Refuse(s.taken, OutputTooLarge))
      else s.(pending := pending)
    else
      var s' := s.(pending := [], taken := rule(s.taken, s.pending + rest[..i.value]));
      if s'.taken.refusal.Some? then s' else Consume(rule, s', rest[i.value + 1..])
  }

  function Feed(rule: LineRule, s: Stream, chunk: Bytes): Stream {
    if s.taken.refusal.Some? then s
    else if s.total + |chunk| > MAX_TOTAL_BYTES then
      s.(total := s.total + |chunk|, taken := Refuse(s.taken, OutputTooLarge))
    else Consume(rule, s.(total := s.total + |chunk|), chunk)
  }

  function FeedAll(rule: LineRule, s: Stream, chunks: seq<Bytes>): Stream {
    if chunks == [] then s else Feed(rule, FeedAll(rule, s, chunks[..|chunks| - 1]), chunks[|chunks| - 1])
  }

  /** A provider stream after chunks of stdout. */
  function Streamed(policy: Policy, p: Parsers, c: Coordinates, m: Mode, chunks: seq<Bytes>): Stream {
    FeedAll(Rule(policy, p), NewStream(policy, c, m), chunks)
  }

  function FinishStream(s: Stream): Result<Transcript, AdapterError> {
    if s.taken.refusal.Some? then Err(s.taken.refusal.value)
    else if s.pending != [] then Err(IncompleteFinalLine)
    else
      var f :- Finish(s.taken.turn);
      Ok(Transcript(f, s.taken.warnings))
  }

  /** End of a session process: an unfinished line is one more warning, a turn without an end becomes a failure. */
  function FinishSession(s: Stream, exitSuccess: bool): Result<Transcript, AdapterError> {
    if s.policy.Strict? then FinishStream(s)
    else if s.taken.refusal.Some? then Err(s.taken.refusal.value)
    else
      var warnings := if s.pending != [] then s.taken.warnings + 1 else s.taken.warnings;
      var ended := exitSuccess && s.taken.turn.disposition.Some?;
      var f :- if ended then Finish(s.taken.turn) else FinishFailed(s.taken.turn);
      Ok(Transcript(f, warnings))
  }

  // ------------------------------------------------------------ the object

  class ProviderEventStream {
    const normalizer: Normalizer
    const parsers: Parsers
    const policy: Policy
    var pending: Bytes
    var totalBytes: nat
    var refusal: Option<AdapterError>
    var warningCount: nat

    constructor (p: Parsers, policy: Policy, c: Coordinates, m: Mode)
      ensures View() == NewStream(policy, c, m) && parsers == p && fresh(normalizer)
    {
      parsers, this.policy := p, policy;
      normalizer := new Normalizer(c, m);
      pending, totalBytes, refusal, warningCount := [], 0, None, 0;
    }

    function View(): Stream
      reads this, normalizer
    {
      Stream(policy, Taken(normalizer.View(), warningCount, refusal), pending, totalBytes)
    }

    method AcceptNext(line: Bytes) returns (e: Option<AdapterError>)
      modifies normalizer
      ensures (normalizer.View(), e) == AcceptLine(old(normalizer.View()), parsers, line)
    {
      if |line| > MAX_LINE_BYTES {
        return Some(OutputTooLarge);
      }
      if line == [] {
        return Some(InvalidJson);
      }
      var text := parsers.utf8(line);
      if text.None? {
        return Some(InvalidUtf8);
      }
      var r := normalizer.PushLine(parsers.json, text.value);
      if r.Err? {
        return Some(r.error);
      }
      return if |normalizer.events| > MAX_STREAM_EVENTS then Some(TooManyEvents) else None;
    }

    /** One complete line under the stream's policy: a forgiven error is a warning, any other is returned. */
    method TakeNext(line: Bytes) returns (e: Option<AdapterError>)
      requires refusal.None?
      modifies this`warningCount, normalizer
      ensures View().taken.(refusal := e) == Rule(policy, parsers)(old(View()).taken, line)
    {
      e := AcceptNext(line);
      if e.Some? && policy.Session? && (e.value.InvalidJson? || e.value.InvalidUtf8?) {
        warningCount := warningCount + 1;
        return None;
      }
    }

    method ConsumeChunk(chunk: Bytes) returns (e: Option<AdapterError>)
      requires refusal.None?
      modifies this`pending, this`totalBytes, this`warningCount, normalizer
      ensures refusal.None?
      ensures Feed(Rule(policy, parsers), old(View()), chunk) == View().(taken := View().taken.(refusal := e))
    {
      totalBytes := totalBytes + |chunk|;
      if totalBytes > MAX_TOTAL_BYTES {
        return Some(OutputTooLarge);
      }
      var rest := chunk;
      while FirstNewline(rest).Some?
        invariant refusal.None?
        invariant Feed(Rule(policy, parsers), old(View()), chunk) == Consume(Rule(policy, parsers), View(), rest)
        decreases |rest|
      {
        var index := FirstNewline(rest).value;
        pending := pending + rest[..index];
        rest := rest[index + 1..];
        var line := pending;
        pending := [];
        e := TakeNext(line);
        if e.Some? {
          return;
        }
      }
      pending := pending + rest;
      return if |pending| > MAX_LINE_BYTES then Some(OutputTooLarge) else None;
    }

    method PushBytes(chunk: Bytes) returns (r: Result<nat, AdapterError>)
      modifies this, normalizer
      ensures View() == Feed(Rule(policy, parsers), old(View()), chunk)
      ensures refusal.Some? ==> r == Err(refusal.value)
      ensures refusal.None? ==> r.Ok? && r.value == |normalizer.events| - |old(normalizer.events)|
    {
      if refusal.Some? {
        return Err(refusal.value);
      }
      var before := |normalizer.events|;
      var e := ConsumeChunk(chunk);
      if e.Some? {
        refusal := e;
        return Err(e.value);
      }
      EventsGrow(parsers, old(View()), chunk);
      return Ok(|normalizer.events| - before);
    }
  }

  // ------------------------------------------------------------ events accumulate

  lemma AcceptExtends(t: Turn, p: Parsers, line: Bytes)
    ensures |t.events| <= |AcceptLine(t, p, line).0.events|
  {
    var text := p.utf8(line);
    if text.Some? && Push(t, p.json, text.value).Ok? {
      Grammar.PushExtends(t, p.json, text.value);
    }
  }

  lemma {:induction false} ConsumeExtends(p: Parsers, s: Stream, rest: Bytes)
    ensures |s.taken.turn.events| <= |Consume(Rule(s.policy, p), s, rest).taken.turn.events|
    decreases |rest|
  {
    var i := FirstNewline(rest);
    if i.Some? {
      var line := s.pending + rest[..i.value];
      AcceptExtends(s.taken.turn, p, line);
      var taken := Rule(s.policy, p)(s.taken, line);
      if taken.refusal.None? {
        ConsumeExtends(p, s.(pending := [], taken := taken), rest[i.value + 1..]);
      }
    }
  }

  lemma EventsGrow(p: Parsers, s: Stream, chunk: Bytes)
    ensures |s.taken.turn.events| <= |Feed(Rule(s.policy, p), s, chunk).taken.turn.events|
  {
    ConsumeExtends(p, s.(total := s.total + |chunk|), chunk);
  }
}
