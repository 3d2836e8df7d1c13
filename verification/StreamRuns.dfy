/**
 * What a provider stream makes of its bytes depends on the bytes alone: not on
 * how they were cut into chunks, and under the lenient policy only on the lines
 * that parse.
 */
module StreamRuns {
  import opened Basics
  import opened Text
  import opened Lines
  import opened Normalize
  import opened ProviderStream
  import Grammar

  // ------------------------------------------------------------ reference

  /** The line bound applied to bytes no newline has ended yet. */
  function Held(a: Taken, tail: Bytes): Taken {
    if a.refusal.None? && |tail| > MAX_LINE_BYTES then Refuse(a, OutputTooLarge) else a
  }

  /** The whole stream at once: its complete lines in order, then the bound on what is left. */
  function Whole(rule: LineRule, a: Taken, bytes: Bytes): Taken {
    Held(TakeLines(rule, a, Complete(bytes)), Tail(bytes))
  }

  /** What chunking needs of a line rule: a refusal stays, and an overlong line is refused as an overlong tail is. */
  ghost predicate Lawful(rule: LineRule) {
    && (forall a: Taken, line: Bytes | a.refusal.Some? :: rule(a, line) == a)
    && (forall a: Taken, line: Bytes | a.refusal.None? && |line| > MAX_LINE_BYTES
        :: rule(a, line) == Refuse(a, OutputTooLarge))
  }

  lemma RulesAreLawful(policy: Policy, p: Parsers)
    ensures Lawful(Rule(policy, p))
  {
  }

  // ------------------------------------------------------------ chunking

  lemma {:induction false} TakeLinesAppends(rule: LineRule, a: Taken, xs: seq<Bytes>, ys: seq<Bytes>)
    ensures TakeLines(rule, a, xs + ys) == TakeLines(rule, TakeLines(rule, a, xs), ys)
    decreases |xs|
  {
    if xs == [] {
      assert xs + ys == ys;
    } else {
      assert (xs + ys)[0] == xs[0] && (xs + ys)[1..] == xs[1..] + ys;
      TakeLinesAppends(rule, rule(a, xs[0]), xs[1..], ys);
    }
  }

  lemma {:induction false} RefusedTakesNothing(rule: LineRule, a: Taken, lines: seq<Bytes>)
    requires Lawful(rule) && a.refusal.Some?
    ensures TakeLines(rule, a, lines) == a
    decreases |lines|
  {
    if lines != [] {
      RefusedTakesNothing(rule, a, lines[1..]);
    }
  }

  lemma TakeFirst(rule: LineRule, a: Taken, line: Bytes, lines: seq<Bytes>)
    ensures TakeLines(rule, a, [line] + lines) == TakeLines(rule, rule(a, line), lines)
  {
    assert ([line] + lines)[1..] == lines;
  }

  /** One chunk takes exactly the lines it completes and holds the rest. */
  lemma {:induction false} ConsumeIsWhole(rule: LineRule, s: Stream, rest: Bytes)
    requires Lawful(rule) && s.taken.refusal.None? && OneLine(s.pending)
    ensures var s', bytes := Consume(rule, s, rest), s.pending + rest;
            && s'.taken == Whole(rule, s.taken, bytes)
            && s'.policy == s.policy && s'.total == s.total
            && (s'.taken.refusal.None? ==> s'.pending == Tail(bytes))
    decreases |rest|
  {
    var bytes := s.pending + rest;
    if FirstNewline(rest).None? {
      OneLineIsTail(bytes);
    } else {
      var i := FirstNewline(rest).value;
      var line, more := s.pending + rest[..i], rest[i + 1..];
      assert bytes == line + [NEWLINE] + more;
      SplitsAt(line, more);
      TakeFirst(rule, s.taken, line, Complete(more));
      var taken := rule(s.taken, line);
      if taken.refusal.Some? {
        RefusedTakesNothing(rule, taken, Complete(more));
      } else {
        EmptyPrefix(more);
        ConsumeIsWhole(rule, s.(pending := [], taken := taken), more);
      }
    }
  }

  /** A refusal stays, whatever bytes follow, even when it was for a line still unfinished. */
  lemma RefusalStays(rule: LineRule, a: Taken, b: Bytes, more: Bytes)
    requires Lawful(rule) && Whole(rule, a, b).refusal.Some?
    ensures Whole(rule, a, b + more) == Whole(rule, a, b)
  {
    Concatenates(b, more);
    var rest := Tail(b) + more;
    TakeLinesAppends(rule, a, Complete(b), Complete(rest));
    var taken := TakeLines(rule, a, Complete(b));
    if taken.refusal.Some? {
      RefusedTakesNothing(rule, taken, Complete(rest));
    } else {
      TailIsOneLine(b);
      LongLineRefused(rule, taken, Tail(b), more);
    }
  }

  lemma LongLineRefused(rule: LineRule, a: Taken, tail: Bytes, more: Bytes)
    requires Lawful(rule) && a.refusal.None? && OneLine(tail) && |tail| > MAX_LINE_BYTES
    ensures Whole(rule, a, tail + more) == Refuse(a, OutputTooLarge)
  {
    var bytes := tail + more;
    if FirstNewline(more).None? {
      OneLineIsTail(bytes);
    } else {
      var i := FirstNewline(more).value;
      var line, rest := tail + more[..i], more[i + 1..];
      assert bytes == line + [NEWLINE] + rest;
      SplitsAt(line, rest);
      TakeFirst(rule, a, line, Complete(rest));
      RefusedTakesNothing(rule, rule(a, line), Complete(rest));
    }
  }

  lemma WholeThen(rule: LineRule, a: Taken, b: Bytes, more: Bytes)
    requires Whole(rule, a, b).refusal.None?
    ensures Whole(rule, a, b + more) == Whole(rule, Whole(rule, a, b), Tail(b) + more)
    ensures Tail(b + more) == Tail(Tail(b) + more)
  {
    Concatenates(b, more);
    TakeLinesAppends(rule, a, Complete(b), Complete(Tail(b) + more));
  }

  /** The stream `s` is what `bytes` make of a new one, within the total bound; beyond it, it is refused. */
  ghost predicate IsWhole(s: Stream, policy: Policy, rule: LineRule, a: Taken, bytes: Bytes) {
    && s.policy == policy
    && (|bytes| <= MAX_TOTAL_BYTES ==> s.taken == Whole(rule, a, bytes))
    && (|bytes| > MAX_TOTAL_BYTES ==> s.taken.refusal.Some?)
    && (s.taken.refusal.None? ==> s.pending == Tail(bytes) && s.total == |bytes|)
  }

  lemma FeedContinues(s: Stream, rule: LineRule, a: Taken, bytes: Bytes, chunk: Bytes)
    requires Lawful(rule) && s.taken.refusal.None? && s.taken == Whole(rule, a, bytes) && s.pending == Tail(bytes)
    ensures var s' := Consume(rule, s, chunk);
            && s'.taken == Whole(rule, a, bytes + chunk) && s'.policy == s.policy && s'.total == s.total
            && (s'.taken.refusal.None? ==> s'.pending == Tail(bytes + chunk))
  {
    TailIsOneLine(bytes);
    WholeThen(rule, a, bytes, chunk);
    ConsumeIsWhole(rule, s, chunk);
  }

  lemma FeedIsWhole(s: Stream, policy: Policy, rule: LineRule, a: Taken, bytes: Bytes, chunk: Bytes)
    requires Lawful(rule) && IsWhole(s, policy, rule, a, bytes)
    ensures IsWhole(Feed(rule, s, chunk), policy, rule, a, bytes + chunk)
  {
    assert |bytes + chunk| == |bytes| + |chunk|;
    if |bytes + chunk| <= MAX_TOTAL_BYTES {
      if s.taken.refusal.Some? {
        RefusalStays(rule, a, bytes, chunk);
      } else {
        FeedContinues(s.(total := s.total + |chunk|), rule, a, bytes, chunk);
      }
    }
  }

  lemma {:induction false} FeedAllIsWhole(s: Stream, policy: Policy, rule: LineRule, chunks: seq<Bytes>)
    requires Lawful(rule) && s == Stream(policy, s.taken, [], 0) && s.taken.refusal.None?
    ensures IsWhole(FeedAll(rule, s, chunks), policy, rule, s.taken, Flatten(chunks))
    decreases |chunks|
  {
    if chunks != [] {
      var front := chunks[..|chunks| - 1];
      FeedAllIsWhole(s, policy, rule, front);
      FeedIsWhole(FeedAll(rule, s, front), policy, rule, s.taken, Flatten(front), chunks[|chunks| - 1]);
    }
  }

  /**
   * Within the total bound the events, the refusal and the warnings are those of
   * the bytes as a whole, however they were cut; beyond it every cut is refused.
   */
  lemma ChunkingIsIrrelevant(policy: Policy, p: Parsers, c: Coordinates, m: Mode, chunks: seq<Bytes>)
    ensures IsWhole(Streamed(policy, p, c, m, chunks), policy, Rule(policy, p), Taken(NewTurn(c, m), 0, None),
                    Flatten(chunks))
  {
    RulesAreLawful(policy, p);
    FeedAllIsWhole(NewStream(policy, c, m), policy, Rule(policy, p), chunks);
  }

  /** Two ways of cutting the same bytes give the same events, refusal and warnings. */
  lemma AnyTwoChunkings(policy: Policy, p: Parsers, c: Coordinates, m: Mode, xs: seq<Bytes>, ys: seq<Bytes>)
    requires Flatten(xs) == Flatten(ys) && |Flatten(xs)| <= MAX_TOTAL_BYTES
    ensures Streamed(policy, p, c, m, xs).taken == Streamed(policy, p, c, m, ys).taken
  {
    ChunkingIsIrrelevant(policy, p, c, m, xs);
    ChunkingIsIrrelevant(policy, p, c, m, ys);
  }

  /** A refusal once raised is returned by every later push. */
  lemma {:induction false} RefusalIsLasting(rule: LineRule, s: Stream, chunks: seq<Bytes>)
    requires s.taken.refusal.Some?
    ensures FeedAll(rule, s, chunks) == s
    decreases |chunks|
  {
    if chunks != [] {
      RefusalIsLasting(rule, s, chunks[..|chunks| - 1]);
    }
  }

  // ------------------------------------------------------------ endings

  lemma {:induction false} TakenTurnsAreKept(policy: Policy, p: Parsers, a: Taken, lines: seq<Bytes>)
    requires Grammar.Kept(a.turn)
    ensures var t := TakeLines(Rule(policy, p), a, lines).turn;
            Grammar.Kept(t) && t.coordinates == a.turn.coordinates && t.mode == a.turn.mode
    decreases |lines|
  {
    if lines != [] {
      TakenLineIsKept(policy, p, a, lines[0]);
      TakenTurnsAreKept(policy, p, Rule(policy, p)(a, lines[0]), lines[1..]);
    }
  }

  lemma TakenLineIsKept(policy: Policy, p: Parsers, a: Taken, line: Bytes)
    requires Grammar.Kept(a.turn)
    ensures var t := Rule(policy, p)(a, line).turn;
            Grammar.Kept(t) && t.coordinates == a.turn.coordinates && t.mode == a.turn.mode
  {
    TakenTurn(policy, p, a, line);
    if Rule(policy, p)(a, line).turn != a.turn {
      Grammar.PushKeeps(a.turn, p.json, p.utf8(line).value);
      Grammar.PushExtends(a.turn, p.json, p.utf8(line).value);
    }
  }

  /** A line leaves the turn as it was or as one successful push makes it. */
  lemma TakenTurn(policy: Policy, p: Parsers, a: Taken, line: Bytes)
    ensures var t := Rule(policy, p)(a, line).turn;
            t == a.turn || (p.utf8(line).Some? && Push(a.turn, p.json, p.utf8(line).value) == Ok(t))
  {
  }

  /** A stream that was not refused holds a turn the grammar keeps, of its own coordinates. */
  lemma StreamedIsKept(policy: Policy, p: Parsers, c: Coordinates, m: Mode, chunks: seq<Bytes>)
    ensures var s := Streamed(policy, p, c, m, chunks);
            && s.policy == policy
            && (s.taken.refusal.None? ==>
                  Grammar.Kept(s.taken.turn) && s.taken.turn.coordinates == c && s.taken.turn.mode == m)
  {
    ChunkingIsIrrelevant(policy, p, c, m, chunks);
    if Streamed(policy, p, c, m, chunks).taken.refusal.None? {
      TakenTurnsAreKept(policy, p, Taken(NewTurn(c, m), 0, None), Complete(Flatten(chunks)));
    }
  }

  lemma FinishedIsGrammatical(s: Stream)
    requires s.taken.refusal.None? ==> Grammar.Kept(s.taken.turn)
    ensures FinishStream(s).Ok? ==>
              Grammar.Grammatical(s.taken.turn.coordinates, s.taken.turn.mode, FinishStream(s).value.finished)
  {
    if s.taken.refusal.None? {
      Grammar.FinishIsGrammatical(s.taken.turn);
    }
  }

  lemma SessionIsGrammatical(s: Stream, exitSuccess: bool)
    requires s.taken.refusal.None? ==> Grammar.Kept(s.taken.turn)
    ensures FinishSession(s, exitSuccess).Ok? ==>
              Grammar.Grammatical(s.taken.turn.coordinates, s.taken.turn.mode,
                                  FinishSession(s, exitSuccess).value.finished)
  {
    FinishedIsGrammatical(s);
    if s.taken.refusal.None? {
      Grammar.FinishIsGrammatical(s.taken.turn);
    }
  }

  /** Every transcript a stream ends with is grammatical, under either policy and either way of ending. */
  lemma StreamTranscriptsAreGrammatical(
    policy: Policy, p: Parsers, c: Coordinates, m: Mode, chunks: seq<Bytes>, exitSuccess: bool)
    ensures var s := Streamed(policy, p, c, m, chunks);
            && (FinishStream(s).Ok? ==> Grammar.Grammatical(c, m, FinishStream(s).value.finished))
            && (FinishSession(s, exitSuccess).Ok?
                ==> Grammar.Grammatical(c, m, FinishSession(s, exitSuccess).value.finished))
  {
    StreamedIsKept(policy, p, c, m, chunks);
    FinishedIsGrammatical(Streamed(policy, p, c, m, chunks));
    SessionIsGrammatical(Streamed(policy, p, c, m, chunks), exitSuccess);
  }

  /**
   * How a session ends: it has a transcript exactly when it was not refused and
   * saw its session event; an end the provider reached stands whatever the exit
   * status, and only a turn without one becomes a failure; a partial last line
   * is one warning.
   */
  lemma SessionEnding(p: Parsers, c: Coordinates, m: Mode, chunks: seq<Bytes>, exitSuccess: bool)
    ensures var s := Streamed(Session, p, c, m, chunks);
            var r := FinishSession(s, exitSuccess);
            && (r.Ok? <==> s.taken.refusal.None? && s.taken.turn.events != [])
            && (r.Ok? ==>
                  && s.taken.turn.events <= r.value.finished.events
                  && r.value.warnings == s.taken.warnings + (if s.pending != [] then 1 else 0)
                  && r.value.finished.disposition ==
                       if s.taken.turn.disposition.Some? then s.taken.turn.disposition.value else Failed)
  {
    StreamedIsKept(Session, p, c, m, chunks);
    SessionEnds(Streamed(Session, p, c, m, chunks), exitSuccess);
  }

  lemma SessionEnds(s: Stream, exitSuccess: bool)
    requires s.policy.Session? && (s.taken.refusal.None? ==> Grammar.Kept(s.taken.turn))
    ensures var r := FinishSession(s, exitSuccess);
            && (r.Ok? <==> s.taken.refusal.None? && s.taken.turn.events != [])
            && (r.Ok? ==>
                  && s.taken.turn.events <= r.value.finished.events
                  && r.value.warnings == s.taken.warnings + (if s.pending != [] then 1 else 0)
                  && r.value.finished.disposition ==
                       if s.taken.turn.disposition.Some? then s.taken.turn.disposition.value else Failed)
  {
    var t := s.taken.turn;
    if s.taken.refusal.None? {
      Grammar.FinishIsGrammatical(t);
      if t.session.Some? && t.disposition.None? {
        Grammar.FaultKeeps(t, None);
      }
    }
  }
}
