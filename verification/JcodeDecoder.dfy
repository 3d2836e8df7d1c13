/**
 * The JCode frame decoder (rust/crates/automonique-agents/src/jcode.rs): bytes in
 * any chunks, one event per line, three bounds. Decoding one frame is whatever
 * function `decode` is.
 */
module JcodeDecoder {
  import opened Basics
  import opened Lines
  import opened JcodeProtocol

  const MAX_FRAME_BYTES: nat := 1048576
  const MAX_STREAM_BYTES: nat := 33554432
  const MAX_EVENTS: nat := 16384

  type Decode = Bytes -> Result<JEvent, JError>

  datatype Decoder = Decoder(pending: Bytes, total: nat, events: nat)

  function NewDecoder(): Decoder {
    Decoder([], 0, 0)
  }

  /** Take the first complete line off the held bytes and decode it. */
  function NextFrame(decode: Decode, d: Decoder): (r: (Decoder, Result<JEvent, JError>))
    requires FirstNewline(d.pending).Some?
    ensures |r.0.pending| < |d.pending|
  {
    var i := FirstNewline(d.pending).value;
    var line, rest := d.pending[..i], d.pending[i + 1..];
    if |line| + 1 > MAX_FRAME_BYTES then (d.(pending := rest), Err(FrameTooLarge)) else
    var counted := Decoder(rest, d.total, d.events + 1);
    (counted, if counted.events > MAX_EVENTS then Err(TooManyEvents) else decode(line))
  }

  /** Decode the frames held complete, in order and after `decoded`, until one is refused. */
  function Drain(decode: Decode, d: Decoder, decoded: seq<JEvent>): (Decoder, Result<seq<JEvent>, JError>)
    decreases |d.pending|
  {
    if FirstNewline(d.pending).None? then (d, Ok(decoded)) else
      var (d', event) := NextFrame(decode, d);
      if event.Err? then (d', Err(event.error)) else Drain(decode, d', decoded + [event.value])
  }

  function Push(decode: Decode, d: Decoder, bytes: Bytes): (Decoder, Result<seq<JEvent>, JError>) {
    var d1 := d.(total := d.total + |bytes|);
    if d1.total > MAX_STREAM_BYTES then (d1, Err(StreamTooLarge)) else
    var d2 := d1.(pending := d.pending + bytes);
    if |d2.pending| > MAX_FRAME_BYTES && OneLine(d2.pending) then (d2, Err(FrameTooLarge))
    else Drain(decode, d2, [])
  }

  class JcodeFrameDecoder {
    const decode: Decode
    var pending: Bytes
    var totalBytes: nat
    var events: nat

    constructor (decode: Decode)
      ensures View() == NewDecoder() && this.decode == decode
    {
      this.decode := decode;
      pending, totalBytes, events := [], 0, 0;
    }

    function View(): Decoder
      reads this
    {
      Decoder(pending, totalBytes, events)
    }

    method PushBytes(bytes: Bytes) returns (r: Result<seq<JEvent>, JError>)
      modifies this
      ensures (View(), r) == Push(decode, old(View()), bytes)
    {
      totalBytes := totalBytes + |bytes|;
      if totalBytes > MAX_STREAM_BYTES {
        return Err(StreamTooLarge);
      }
      pending := pending + bytes;
      if |pending| > MAX_FRAME_BYTES && OneLine(pending) {
        return Err(FrameTooLarge);
      }
      r := DrainPending();
    }

    method DrainPending() returns (r: Result<seq<JEvent>, JError>)
      modifies this
      ensures (View(), r) == Drain(decode, old(View()), [])
    {
      var decoded := [];
      while FirstNewline(pending).Some?
        invariant Drain(decode, old(View()), []) == Drain(decode, View(), decoded)
        decreases |pending|
      {
        var event := TakeFrame();
        if event.Err? {
          return Err(event.error);
        }
        decoded := decoded + [event.value];
      }
      return Ok(decoded);
    }

    method TakeFrame() returns (event: Result<JEvent, JError>)
      requires FirstNewline(pending).Some?
      modifies this
      ensures (View(), event) == NextFrame(decode, old(View()))
    {
      var newline := FirstNewline(pending).value;
      var line := pending[..newline + 1];
      assert line[..|line| - 1] == pending[..newline];
      pending := pending[newline + 1..];
      if |line| > MAX_FRAME_BYTES {
        return Err(FrameTooLarge);
      }
      events := events + 1;
      if events > MAX_EVENTS {
        return Err(TooManyEvents);
      }
      event := decode(line[..|line| - 1]);
    }
  }

  // ------------------------------------------------------------ reference

  predicate IsFrame(decode: Decode, line: Bytes) {
    |line| + 1 <= MAX_FRAME_BYTES && decode(line).Ok?
  }

  /** Every line fits a frame and decodes. */
  predicate Decodable(decode: Decode, lines: seq<Bytes>) {
    lines == [] || (IsFrame(decode, lines[0]) && Decodable(decode, lines[1..]))
  }

  /** The events of the lines that decode, in order. */
  function DecodeAll(decode: Decode, lines: seq<Bytes>): seq<JEvent> {
    if lines == [] then []
    else (if decode(lines[0]).Ok? then [decode(lines[0]).value] else []) + DecodeAll(decode, lines[1..])
  }

  /** The stream as a whole is within its bounds and every complete line decodes. */
  predicate Acceptable(decode: Decode, stream: Bytes) {
    |stream| <= MAX_STREAM_BYTES && |Complete(stream)| <= MAX_EVENTS && Decodable(decode, Complete(stream))
  }

  /** The decoder after chunks that were all accepted, with every event they gave; nothing when one was refused. */
  function PushAll(decode: Decode, chunks: seq<Bytes>): Option<(Decoder, seq<JEvent>)> {
    if chunks == [] then Some((NewDecoder(), [])) else
      match PushAll(decode, chunks[..|chunks| - 1])
      case None => None
      case Some((d, events)) =>
        var (d', more) := Push(decode, d, chunks[|chunks| - 1]);
        if more.Ok? then Some((d', events + more.value)) else None
  }

  lemma {:induction false} LinesAppend(decode: Decode, xs: seq<Bytes>, ys: seq<Bytes>)
    ensures Decodable(decode, xs + ys) <==> Decodable(decode, xs) && Decodable(decode, ys)
    ensures DecodeAll(decode, xs + ys) == DecodeAll(decode, xs) + DecodeAll(decode, ys)
    decreases |xs|
  {
    if xs == [] {
      assert xs + ys == ys;
    } else {
      LinesAppend(decode, xs[1..], ys);
      HeadOfAppend(xs, ys);
      var first := if decode(xs[0]).Ok? then [decode(xs[0]).value] else [];
      Associates(first, DecodeAll(decode, xs[1..]), DecodeAll(decode, ys));
    }
  }

  lemma HeadOfAppend<T>(xs: seq<T>, ys: seq<T>)
    requires xs != []
    ensures xs + ys != [] && (xs + ys)[0] == xs[0] && (xs + ys)[1..] == xs[1..] + ys
  {
  }

  /** Draining succeeds exactly when every held line is a frame that decodes and the count allows them. */
  lemma {:induction false} DrainDecodes(decode: Decode, d: Decoder, decoded: seq<JEvent>)
    ensures var lines, r := Complete(d.pending), Drain(decode, d, decoded).1;
            && (r.Ok? <==> Decodable(decode, lines) && (lines == [] || d.events + |lines| <= MAX_EVENTS))
            && (r.Ok? ==>
                  && r.value == decoded + DecodeAll(decode, lines)
                  && Drain(decode, d, decoded).0 == Decoder(Tail(d.pending), d.total, d.events + |lines|))
    decreases |d.pending|
  {
    if FirstNewline(d.pending).None? {
      OneLineIsTail(d.pending);
      assert decoded + [] == decoded;
    } else {
      var (d1, event) := NextFrame(decode, d);
      NextFrameTakesALine(decode, d);
      var lines := Complete(d1.pending);
      if event.Ok? {
        DrainDecodes(decode, d1, decoded + [event.value]);
        Associates(decoded, [event.value], DecodeAll(decode, lines));
      }
    }
  }

  lemma NextFrameTakesALine(decode: Decode, d: Decoder)
    requires FirstNewline(d.pending).Some?
    ensures var (d1, event) := NextFrame(decode, d);
            var lines, rest := Complete(d.pending), Complete(d1.pending);
            && |lines| == |rest| + 1 && Tail(d.pending) == Tail(d1.pending)
            && (event.Ok? ==> d1 == Decoder(d1.pending, d.total, d.events + 1) && d1.events <= MAX_EVENTS)
            && (event.Ok? ==> DecodeAll(decode, lines) == [event.value] + DecodeAll(decode, rest))
            && (event.Ok? ==> (Decodable(decode, lines) <==> Decodable(decode, rest)))
            && (event.Err? ==> !Decodable(decode, lines) || d.events + |lines| > MAX_EVENTS)
  {
    var i := FirstNewline(d.pending).value;
    var line, rest := d.pending[..i], Complete(d.pending[i + 1..]);
    SplitsFirst(d.pending);
    FirstLine(decode, line, rest);
    var (d1, event) := NextFrame(decode, d);
    assert d1.pending == d.pending[i + 1..];
    assert event.Ok? ==> event == decode(line) && IsFrame(decode, line);
  }

  lemma FirstLine(decode: Decode, line: Bytes, rest: seq<Bytes>)
    ensures Decodable(decode, [line] + rest) <==> IsFrame(decode, line) && Decodable(decode, rest)
    ensures decode(line).Ok? ==> DecodeAll(decode, [line] + rest) == [decode(line).value] + DecodeAll(decode, rest)
  {
    assert ([line] + rest)[1..] == rest;
  }

  ghost predicate Follows(decode: Decode, stream: Bytes, outcome: (Decoder, seq<JEvent>)) {
    && Acceptable(decode, stream)
    && outcome == (Decoder(Tail(stream), |stream|, |Complete(stream)|), DecodeAll(decode, Complete(stream)))
  }

  /** One more chunk after an accepted stream. */
  lemma PushFollows(decode: Decode, stream: Bytes, d: Decoder, chunk: Bytes)
    requires Acceptable(decode, stream) && d == Decoder(Tail(stream), |stream|, |Complete(stream)|)
    ensures var (d', r) := Push(decode, d, chunk);
            && (r.Ok? <==> Acceptable(decode, stream + chunk)
                           && !(|Tail(stream) + chunk| > MAX_FRAME_BYTES && OneLine(Tail(stream) + chunk)))
            && (r.Ok? ==> Follows(decode, stream + chunk, (d', DecodeAll(decode, Complete(stream)) + r.value)))
  {
    PushDecodes(decode, d, chunk);
    var (d', r) := Push(decode, d, chunk);
    AcceptedThen(decode, stream, chunk, d', r);
  }

  lemma AcceptedThen(decode: Decode, stream: Bytes, chunk: Bytes, d: Decoder, r: Result<seq<JEvent>, JError>)
    requires Acceptable(decode, stream)
    requires var held := Tail(stream) + chunk; var lines := Complete(held);
             && (r.Ok? <==>
                   && |stream| + |chunk| <= MAX_STREAM_BYTES
                   && !(|held| > MAX_FRAME_BYTES && OneLine(held))
                   && Decodable(decode, lines) && (lines == [] || |Complete(stream)| + |lines| <= MAX_EVENTS))
             && (r.Ok? ==>
                   && r.value == DecodeAll(decode, lines)
                   && d == Decoder(Tail(held), |stream| + |chunk|, |Complete(stream)| + |lines|))
    ensures r.Ok? <==> Acceptable(decode, stream + chunk)
                       && !(|Tail(stream) + chunk| > MAX_FRAME_BYTES && OneLine(Tail(stream) + chunk))
    ensures r.Ok? ==> Follows(decode, stream + chunk, (d, DecodeAll(decode, Complete(stream)) + r.value))
  {
    AcceptableThen(decode, stream, chunk);
    assert |stream + chunk| == |stream| + |chunk|;
    var held := Tail(stream) + chunk;
    if r.Ok? {
      assert d == Decoder(Tail(stream + chunk), |stream + chunk|, |Complete(stream + chunk)|);
      assert DecodeAll(decode, Complete(stream)) + r.value == DecodeAll(decode, Complete(stream + chunk));
    } else {
      assert Complete(held) == [] ==> |Complete(stream)| + |Complete(held)| <= MAX_EVENTS;
    }
  }

  lemma PushDecodes(decode: Decode, d: Decoder, chunk: Bytes)
    ensures var lines, r := Complete(d.pending + chunk), Push(decode, d, chunk).1;
            && (r.Ok? <==>
                  && d.total + |chunk| <= MAX_STREAM_BYTES
                  && !(|d.pending + chunk| > MAX_FRAME_BYTES && OneLine(d.pending + chunk))
                  && Decodable(decode, lines) && (lines == [] || d.events + |lines| <= MAX_EVENTS))
            && (r.Ok? ==>
                  && r.value == DecodeAll(decode, lines)
                  && Push(decode, d, chunk).0
                    == Decoder(Tail(d.pending + chunk), d.total + |chunk|, d.events + |lines|))
  {
    var d2 := Decoder(d.pending + chunk, d.total + |chunk|, d.events);
    PushIsDrain(decode, d, chunk, d2);
    DrainDecodes(decode, d2, []);
    EmptyPrefix(DecodeAll(decode, Complete(d2.pending)));
  }

  lemma PushIsDrain(decode: Decode, d: Decoder, chunk: Bytes, held: Decoder)
    requires held == Decoder(d.pending + chunk, d.total + |chunk|, d.events)
    ensures var overlong := |held.pending| > MAX_FRAME_BYTES && OneLine(held.pending);
            var within := held.total <= MAX_STREAM_BYTES && !overlong;
            && (within ==> Push(decode, d, chunk) == Drain(decode, held, []))
            && (!within ==> Push(decode, d, chunk).1.Err?)
  {
  }

  lemma AcceptableThen(decode: Decode, stream: Bytes, chunk: Bytes)
    requires Acceptable(decode, stream)
    ensures var held := Tail(stream) + chunk;
            && Tail(stream + chunk) == Tail(held)
            && |Complete(stream + chunk)| == |Complete(stream)| + |Complete(held)|
            && DecodeAll(decode, Complete(stream + chunk))
              == DecodeAll(decode, Complete(stream)) + DecodeAll(decode, Complete(held))
            && (Acceptable(decode, stream + chunk) <==>
                  && |stream| + |chunk| <= MAX_STREAM_BYTES && Decodable(decode, Complete(held))
                  && |Complete(stream)| + |Complete(held)| <= MAX_EVENTS)
  {
    Concatenates(stream, chunk);
    LinesAppend(decode, Complete(stream), Complete(Tail(stream) + chunk));
  }

  /** Whatever was accepted, in any chunks, was acceptable as a whole and gave its lines' events in order. */
  lemma {:induction false} AcceptedIsAcceptable(decode: Decode, chunks: seq<Bytes>)
    ensures PushAll(decode, chunks).Some? ==> Follows(decode, Flatten(chunks), PushAll(decode, chunks).value)
    decreases |chunks|
  {
    if chunks != [] {
      var front := chunks[..|chunks| - 1];
      AcceptedIsAcceptable(decode, front);
      if PushAll(decode, front).Some? {
        PushFollows(decode, Flatten(front), PushAll(decode, front).value.0, chunks[|chunks| - 1]);
      }
    }
  }

  /** A prefix of an acceptable stream with a short tail is acceptable and has a short tail. */
  lemma PrefixIsAcceptable(decode: Decode, a: Bytes, b: Bytes)
    requires Acceptable(decode, a + b) && |Tail(a + b)| <= MAX_FRAME_BYTES
    ensures Acceptable(decode, a) && |Tail(a)| <= MAX_FRAME_BYTES
    ensures |Tail(a) + b| > MAX_FRAME_BYTES ==> !OneLine(Tail(a) + b)
  {
    Concatenates(a, b);
    TailIsOneLine(a);
    LinesAppend(decode, Complete(a), Complete(Tail(a) + b));
    if FirstNewline(Tail(a) + b).Some? {
      FirstNewlineAfter(Tail(a), b);
      SplitsFirst(Tail(a) + b);
      assert IsFrame(decode, Complete(Tail(a) + b)[0]);
    } else {
      OneLineIsTail(Tail(a) + b);
    }
  }

  lemma FirstNewlineAfter(a: Bytes, b: Bytes)
    requires OneLine(a) && FirstNewline(a + b).Some?
    ensures |a| <= FirstNewline(a + b).value
  {
    var i := FirstNewline(a + b).value;
    assert forall j | 0 <= j < |a| :: (a + b)[j] == a[j];
  }

  /**
   * With an unfinished tail no longer than a frame, every chunking of a stream is
   * accepted or none is, and an accepted one gives the stream's lines in order.
   */
  lemma {:induction false} DecodingIgnoresChunks(decode: Decode, chunks: seq<Bytes>)
    requires |Tail(Flatten(chunks))| <= MAX_FRAME_BYTES
    ensures PushAll(decode, chunks).Some? <==> Acceptable(decode, Flatten(chunks))
    ensures PushAll(decode, chunks).Some? ==> Follows(decode, Flatten(chunks), PushAll(decode, chunks).value)
    decreases |chunks|
  {
    AcceptedIsAcceptable(decode, chunks);
    if chunks != [] && Acceptable(decode, Flatten(chunks)) {
      var front, chunk := chunks[..|chunks| - 1], chunks[|chunks| - 1];
      PrefixIsAcceptable(decode, Flatten(front), chunk);
      DecodingIgnoresChunks(decode, front);
      PushFollows(decode, Flatten(front), PushAll(decode, front).value.0, chunk);
    }
  }

  /** One push of a whole stream: only a single frame that is too long for its tail is refused beyond the reference. */
  lemma OnePiece(decode: Decode, stream: Bytes)
    ensures PushAll(decode, [stream]).Some? <==>
              Acceptable(decode, stream) && !(|stream| > MAX_FRAME_BYTES && OneLine(stream))
  {
    assert [stream][..0] == [];
    assert [] + stream == stream;
    PushFollows(decode, [], NewDecoder(), stream);
  }

  /**
   * With a longer tail it does depend: a stream that has some complete line is
   * accepted in one piece and refused when cut just before its tail.
   */
  lemma LongTailDependsOnChunks(decode: Decode, head: Bytes, tail: Bytes)
    requires Acceptable(decode, head + tail) && !OneLine(head) && Tail(head) == []
    requires OneLine(tail) && |tail| > MAX_FRAME_BYTES
    ensures PushAll(decode, [head + tail]).Some?
    ensures PushAll(decode, [head, tail]).None?
  {
    OnePiece(decode, head + tail);
    LineWithin(head, tail);
    CutBeforeTail(decode, head, tail);
  }

  lemma LineWithin(head: Bytes, tail: Bytes)
    requires !OneLine(head)
    ensures !OneLine(head + tail)
  {
    var j :| 0 <= j < |head| && head[j] == NEWLINE;
    assert (head + tail)[j] == NEWLINE;
  }

  /** A chunk that leaves more than a frame held without a newline is refused. */
  lemma OverlongIsRefused(decode: Decode, chunks: seq<Bytes>, chunk: Bytes)
    requires var held := Tail(Flatten(chunks)) + chunk; |held| > MAX_FRAME_BYTES && OneLine(held)
    ensures PushAll(decode, chunks + [chunk]).None?
  {
    assert (chunks + [chunk])[..|chunks|] == chunks;
    AcceptedIsAcceptable(decode, chunks);
    if PushAll(decode, chunks).Some? {
      PushFollows(decode, Flatten(chunks), PushAll(decode, chunks).value.0, chunk);
    }
  }

  /** Cut where a line ends, a tail longer than a frame is refused. */
  lemma CutBeforeTail(decode: Decode, head: Bytes, tail: Bytes)
    requires Tail(head) == [] && OneLine(tail) && |tail| > MAX_FRAME_BYTES
    ensures PushAll(decode, [head, tail]).None?
  {
    assert [head][..0] == [] && [head] + [tail] == [head, tail];
    EmptyPrefix(head);
    EmptyPrefix(tail);
    OverlongIsRefused(decode, [head], tail);
  }

  /** A stream without any newline and longer than a frame is refused however it is cut. */
  lemma {:induction false} NoNewlineIsRefused(decode: Decode, chunks: seq<Bytes>)
    requires OneLine(Flatten(chunks)) && |Flatten(chunks)| > MAX_FRAME_BYTES
    ensures PushAll(decode, chunks).None?
  {
    var front, chunk := chunks[..|chunks| - 1], chunks[|chunks| - 1];
    var held := Flatten(front);
    assert forall j | 0 <= j < |held| :: (held + chunk)[j] == held[j];
    OneLineIsTail(held);
    assert front + [chunk] == chunks;
    OverlongIsRefused(decode, front, chunk);
  }

  // ------------------------------------------------------------ what is handed over before a refusal

  /** The events of the chunks before the first that was refused. */
  function Handed(decode: Decode, chunks: seq<Bytes>): seq<JEvent> {
    if PushAll(decode, chunks).Some? then PushAll(decode, chunks).value.1
    else if chunks == [] then [] else Handed(decode, chunks[..|chunks| - 1])
  }

  /** The lines before the first that is no frame. */
  function Readable(decode: Decode, lines: seq<Bytes>): seq<Bytes> {
    if lines == [] || !IsFrame(decode, lines[0]) then [] else [lines[0]] + Readable(decode, lines[1..])
  }

  lemma {:induction false} DecodableIsReadable(decode: Decode, lines: seq<Bytes>)
    requires Decodable(decode, lines)
    ensures Readable(decode, lines) == lines
  {
    if lines != [] {
      DecodableIsReadable(decode, lines[1..]);
    }
  }

  /** More lines only add to what is readable. */
  lemma {:induction false} ReadableGrows(decode: Decode, xs: seq<Bytes>, ys: seq<Bytes>)
    ensures DecodeAll(decode, Readable(decode, xs)) <= DecodeAll(decode, Readable(decode, xs + ys))
    decreases |xs|
  {
    if xs != [] && IsFrame(decode, xs[0]) {
      HeadOfAppend(xs, ys);
      ReadableGrows(decode, xs[1..], ys);
      FirstLine(decode, xs[0], Readable(decode, xs[1..]));
      FirstLine(decode, xs[0], Readable(decode, (xs + ys)[1..]));
      PrefixAfter([decode(xs[0]).value], DecodeAll(decode, Readable(decode, xs[1..])),
                  DecodeAll(decode, Readable(decode, (xs + ys)[1..])));
    }
  }

  lemma PrefixAfter<T>(x: seq<T>, a: seq<T>, b: seq<T>)
    requires a <= b
    ensures x + a <= x + b
  {
  }

  /** However it is cut, what was handed over is a first part of the events of the readable lines. */
  lemma {:induction false} HandedIsReadable(decode: Decode, chunks: seq<Bytes>)
    ensures Handed(decode, chunks) <= DecodeAll(decode, Readable(decode, Complete(Flatten(chunks))))
    decreases |chunks|
  {
    var lines := Complete(Flatten(chunks));
    if PushAll(decode, chunks).Some? {
      AcceptedIsAcceptable(decode, chunks);
      DecodableIsReadable(decode, lines);
    } else if chunks != [] {
      var front, chunk := chunks[..|chunks| - 1], chunks[|chunks| - 1];
      HandedIsReadable(decode, front);
      Concatenates(Flatten(front), chunk);
      ReadableGrows(decode, Complete(Flatten(front)), Complete(Tail(Flatten(front)) + chunk));
    }
  }

  /** So of two cuts of the same bytes one hands over a first part of what the other does. */
  lemma HandedAgree(decode: Decode, xs: seq<Bytes>, ys: seq<Bytes>)
    requires Flatten(xs) == Flatten(ys)
    ensures Handed(decode, xs) <= Handed(decode, ys) || Handed(decode, ys) <= Handed(decode, xs)
  {
    HandedIsReadable(decode, xs);
    HandedIsReadable(decode, ys);
  }

  // ------------------------------------------------------------ exactly when the cut matters

  /** Every way of cutting the stream into chunks ends the same: refused, or with the same decoder and events. */
  ghost predicate SameHoweverCut(decode: Decode, stream: Bytes) {
    forall xs, ys | Flatten(xs) == stream && Flatten(ys) == stream :: PushAll(decode, xs) == PushAll(decode, ys)
  }

  /** Acceptable as a whole, some line complete, and the unfinished tail longer than a frame. */
  predicate LongTailed(decode: Decode, stream: Bytes) {
    Acceptable(decode, stream) && Complete(stream) != [] && |Tail(stream)| > MAX_FRAME_BYTES
  }

  lemma OneEnding(decode: Decode, xs: seq<Bytes>, ys: seq<Bytes>)
    requires Flatten(xs) == Flatten(ys) && !LongTailed(decode, Flatten(xs))
    ensures PushAll(decode, xs) == PushAll(decode, ys)
  {
    var stream := Flatten(xs);
    AcceptedIsAcceptable(decode, xs);
    AcceptedIsAcceptable(decode, ys);
    if |Tail(stream)| <= MAX_FRAME_BYTES {
      DecodingIgnoresChunks(decode, xs);
      DecodingIgnoresChunks(decode, ys);
    } else if Complete(stream) == [] {
      UnbrokenIsOneLine(stream);
      NoNewlineIsRefused(decode, xs);
      NoNewlineIsRefused(decode, ys);
    }
  }

  lemma UnbrokenIsOneLine(stream: Bytes)
    requires Complete(stream) == []
    ensures OneLine(stream) && Tail(stream) == stream
  {
    JoinOfSplit(stream);
    EmptyPrefix(Tail(stream));
    TailIsOneLine(stream);
  }

  /** A long-tailed stream ends differently in one piece and cut before its tail. */
  lemma TwoEndings(decode: Decode, stream: Bytes)
    requires LongTailed(decode, stream)
    ensures !SameHoweverCut(decode, stream)
  {
    var head, tail := Joined(Complete(stream)), Tail(stream);
    HeadAndTail(stream);
    LongTailDependsOnChunks(decode, head, tail);
    FlattenTwo(head, tail);
    CutsDiffer(decode, stream, [head + tail], [head, tail]);
  }

  lemma CutsDiffer(decode: Decode, stream: Bytes, xs: seq<Bytes>, ys: seq<Bytes>)
    requires Flatten(xs) == stream && Flatten(ys) == stream && PushAll(decode, xs) != PushAll(decode, ys)
    ensures !SameHoweverCut(decode, stream)
  {
  }

  /** A stream with a complete line is its joined lines, which end in a newline, and its tail. */
  lemma HeadAndTail(stream: Bytes)
    requires Complete(stream) != []
    ensures var head, tail := Joined(Complete(stream)), Tail(stream);
            stream == head + tail && Tail(head) == [] && OneLine(tail) && !OneLine(head)
  {
    var head := Joined(Complete(stream));
    JoinOfSplit(stream);
    CompleteIsUnbroken(stream);
    TailIsOneLine(stream);
    SplitOfJoin(Complete(stream), []);
    EmptySuffix(head);
    if OneLine(head) {
      OneLineIsTail(head);
    }
  }

  lemma FlattenTwo(a: Bytes, b: Bytes)
    ensures Flatten([a + b]) == a + b && Flatten([a, b]) == a + b
  {
    assert [a + b][..0] == [] && [a, b][..1] == [a] && [a][..0] == [];
    EmptyPrefix(a + b);
    EmptyPrefix(a);
  }

  /** Decoding depends on how a stream is cut exactly when the stream is long-tailed. */
  lemma CutMattersExactly(decode: Decode, stream: Bytes)
    ensures SameHoweverCut(decode, stream) <==> !LongTailed(decode, stream)
  {
    if LongTailed(decode, stream) {
      TwoEndings(decode, stream);
    } else {
      forall xs, ys | Flatten(xs) == stream && Flatten(ys) == stream
        ensures PushAll(decode, xs) == PushAll(decode, ys)
      {
        OneEnding(decode, xs, ys);
      }
    }
  }
}
