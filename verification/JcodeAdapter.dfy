/**
 * The per-turn JCode adapter (rust/crates/automonique-agents/src/jcode.rs):
 * handshake, session binding, acceptance, and one terminal outcome.
 */
module JcodeAdapter {
  import opened Basics
  import opened JcodeProtocol
  import D = JcodeDecoder

  datatype InterruptedReason = ProviderEof | IncompleteFrame
  datatype Outcome = Completed | Cancelled | ProviderFailed | InterruptedUnknown(reason: InterruptedReason)
  datatype Native = Provider(event: JEvent) | Terminal(outcome: Outcome, code: Option<string>)
  datatype Envelope = Envelope(sequence: nat, runId: string, turnId: string, session: Option<string>, native: Native)

  datatype Adapter = Adapter(
    server: string,
    runId: string,
    turnId: string,
    turnRequest: nat,
    hello: Option<nat>,
    session: Option<string>,
    negotiated: bool,
    accepted: bool,
    cancelling: bool,
    terminal: Option<Outcome>,
    next: nat)

  function Fresh(server: string, runId: string, turnId: string, hello: nat, turnRequest: nat): Adapter {
    Adapter(server, runId, turnId, turnRequest, Some(hello), None, false, false, false, None, 1)
  }

  function Negotiated(server: string, runId: string, turnId: string, turnRequest: nat, session: string): Adapter {
    Adapter(server, runId, turnId, turnRequest, None, Some(session), true, false, false, None, 1)
  }

  // ------------------------------------------------------------ steps

  /** Number the next envelope; the sequence counter must not wrap. */
  function Enveloped(a: Adapter, native: Native): (Adapter, Result<Envelope, JError>) {
    if a.next >= U64_MAX then (a, Err(TooManyEvents))
    else (a.(next := a.next + 1), Ok(Envelope(a.next, a.runId, a.turnId, a.session, native)))
  }

  function OnHello(a: Adapter, e: JEvent): (Adapter, Result<Envelope, JError>) {
    if !e.HelloOk? then (a, Err(HandshakeRequired))
    else if a.hello != Some(e.replyTo) then (a, Err(ReplyMismatch))
    else if e.server != a.server then (a, Err(IdentityMismatch))
    else Enveloped(a.(negotiated := true, hello := None), Provider(e))
  }

  /** The adapter with the event's session bound, if the event has one and none was bound yet. */
  function Bound(a: Adapter, e: JEvent): Adapter {
    if a.session.None? && EventSession(e).Some? then a.(session := EventSession(e)) else a
  }

  function OnEvent(a: Adapter, e: JEvent): (Adapter, Result<Envelope, JError>) {
    match e
    case MessageAccepted(_) =>
      if a.accepted then (a, Err(EventOrder)) else Enveloped(a.(accepted := true), Provider(e))
    case TurnDone(_) =>
      if !a.accepted then (a, Err(EventOrder)) else
        var outcome := if a.cancelling then Cancelled else Completed;
        Enveloped(a.(terminal := Some(outcome)), Terminal(outcome, None))
    case Fault(inReplyTo, code) =>
      if inReplyTo == Some(a.turnRequest)
      then Enveloped(a.(terminal := Some(ProviderFailed)), Terminal(ProviderFailed, Some(code)))
      else Enveloped(a, Provider(e))
    case _ => Enveloped(a, Provider(e))
  }

  function Observe(a: Adapter, e: JEvent): (Adapter, Result<Envelope, JError>) {
    if a.terminal.Some? then (a, Err(EventOrder))
    else if !a.negotiated then OnHello(a, e)
    else if e.HelloOk? then (a, Err(EventOrder))
    else if a.session.Some? && EventSession(e).Some? && EventSession(e) != a.session then (a, Err(SessionMismatch))
    else OnEvent(Bound(a, e), e)
  }

  function FinishEof(a: Adapter, pendingFrame: bool): (Adapter, Result<Option<Envelope>, JError>) {
    if a.terminal.Some? then (a, Ok(None)) else
      var outcome := InterruptedUnknown(if pendingFrame then IncompleteFrame else ProviderEof);
      var (a', r) := Enveloped(a.(terminal := Some(outcome)), Terminal(outcome, None));
      (a', if r.Ok? then Ok(Some(r.value)) else Err(r.error))
  }

  function MarkCancellation(a: Adapter): (Adapter, Result<(), JError>) {
    if a.terminal.Some? || a.cancelling then (a, Err(EventOrder)) else (a.(cancelling := true), Ok(()))
  }

  function ObserveAll(a: Adapter, events: seq<JEvent>): (Adapter, Result<seq<Envelope>, JError>) {
    if events == [] then (a, Ok([])) else
      var (a1, before) := ObserveAll(a, events[..|events| - 1]);
      if before.Err? then (a1, before) else
      var (a2, r) := Observe(a1, events[|events| - 1]);
      (a2, if r.Ok? then Ok(before.value + [r.value]) else Err(r.error))
  }

  // ------------------------------------------------------------ the object

  class JcodeNativeAdapter {
    const decoder: D.JcodeFrameDecoder
    const server: string
    const runId: string
    const turnId: string
    const turnRequest: nat
    var hello: Option<nat>
    var session: Option<string>
    var negotiated: bool
    var accepted: bool
    var cancelling: bool
    var terminal: Option<Outcome>
    var next: nat

    constructor (decode: D.Decode, server: string, runId: string, turnId: string, hello: nat, turnRequest: nat)
      ensures View() == Fresh(server, runId, turnId, hello, turnRequest)
      ensures fresh(decoder) && decoder.View() == D.NewDecoder() && decoder.decode == decode
    {
      decoder := new D.JcodeFrameDecoder(decode);
      this.server, this.runId, this.turnId, this.turnRequest := server, runId, turnId, turnRequest;
      this.hello, session, negotiated, accepted := Some(hello), None, false, false;
      cancelling, terminal, next := false, None, 1;
    }

    /** A turn on a server that was negotiated with before, in a session already known. */
    constructor AfterNegotiation(
      decode: D.Decode, server: string, runId: string, turnId: string, turnRequest: nat, session: string)
      ensures View() == Negotiated(server, runId, turnId, turnRequest, session)
      ensures fresh(decoder) && decoder.View() == D.NewDecoder() && decoder.decode == decode
    {
      decoder := new D.JcodeFrameDecoder(decode);
      this.server, this.runId, this.turnId, this.turnRequest := server, runId, turnId, turnRequest;
      hello, this.session, negotiated, accepted := None, Some(session), true, false;
      cancelling, terminal, next := false, None, 1;
    }

    function View(): Adapter
      reads this
    {
      Adapter(server, runId, turnId, turnRequest, hello, session, negotiated, accepted, cancelling, terminal, next)
    }

    method Number(native: Native) returns (r: Result<Envelope, JError>)
      modifies this`next
      ensures (View(), r) == Enveloped(old(View()), native)
    {
      var sequence := next;
      if next >= U64_MAX {
        return Err(TooManyEvents);
      }
      next := next + 1;
      return Ok(Envelope(sequence, runId, turnId, session, native));
    }

    method ObserveDecoded(e: JEvent) returns (r: Result<Envelope, JError>)
      modifies this
      ensures (View(), r) == Observe(old(View()), e)
    {
      if terminal.Some? {
        return Err(EventOrder);
      }
      if !negotiated {
        if !e.HelloOk? {
          return Err(HandshakeRequired);
        }
        if hello != Some(e.replyTo) {
          return Err(ReplyMismatch);
        }
        if e.server != server {
          return Err(IdentityMismatch);
        }
        negotiated := true;
        hello := None;
        r := Number(Provider(e));
        return;
      }
      if e.HelloOk? {
        return Err(EventOrder);
      }
      var named := EventSession(e);
      if named.Some? {
        if session.Some? && session != named {
          return Err(SessionMismatch);
        }
        if session.None? {
          session := named;
        }
      }
      var native := Provider(e);
      if e.MessageAccepted? {
        if accepted {
          return Err(EventOrder);
        }
        accepted := true;
      } else if e.TurnDone? {
        if !accepted {
          return Err(EventOrder);
        }
        var outcome := if cancelling then Cancelled else Completed;
        terminal := Some(outcome);
        native := Terminal(outcome, None);
      } else if e.Fault? && e.inReplyTo == Some(turnRequest) {
        terminal := Some(ProviderFailed);
        native := Terminal(ProviderFailed, Some(e.code));
      }
      r := Number(native);
    }

    method Push(bytes: Bytes) returns (r: Result<seq<Envelope>, JError>)
      modifies this, decoder
      ensures var (d, events) := D.Push(decoder.decode, old(decoder.View()), bytes);
              && decoder.View() == d
              && (events.Err? ==> View() == old(View()) && r == Err(events.error))
              && (events.Ok? ==> (View(), r) == ObserveAll(old(View()), events.value))
    {
      var events := decoder.PushBytes(bytes);
      if events.Err? {
        return Err(events.error);
      }
      var envelopes := [];
      for k := 0 to |events.value|
        invariant decoder.View() == D.Push(decoder.decode, old(decoder.View()), bytes).0
        invariant ObserveAll(old(View()), events.value[..k]) == (View(), Ok(envelopes))
      {
        assert events.value[..k + 1][..k] == events.value[..k];
        var envelope := ObserveDecoded(events.value[k]);
        if envelope.Err? {
          ObserveStops(old(View()), events.value, k + 1);
          return Err(envelope.error);
        }
        envelopes := envelopes + [envelope.value];
      }
      assert events.value[..|events.value|] == events.value;
      return Ok(envelopes);
    }

    method SettleEof(upstreamPending: bool) returns (r: Result<Option<Envelope>, JError>)
      modifies this
      ensures (View(), r) == FinishEof(old(View()), upstreamPending || decoder.pending != [])
    {
      if terminal.Some? {
        return Ok(None);
      }
      var cut := upstreamPending || decoder.pending != [];
      var outcome := InterruptedUnknown(if cut then IncompleteFrame else ProviderEof);
      terminal := Some(outcome);
      var envelope := Number(Terminal(outcome, None));
      return if envelope.Ok? then Ok(Some(envelope.value)) else Err(envelope.error);
    }

    method MarkCancellationRequested() returns (r: Result<(), JError>)
      modifies this
      ensures (View(), r) == MarkCancellation(old(View()))
    {
      if terminal.Some? || cancelling {
        return Err(EventOrder);
      }
      cancelling := true;
      return Ok(());
    }
  }

  lemma {:induction false} ObserveStops(a: Adapter, events: seq<JEvent>, k: nat)
    requires k <= |events| && ObserveAll(a, events[..k]).1.Err?
    ensures ObserveAll(a, events) == ObserveAll(a, events[..k])
    decreases |events| - k
  {
    if k == |events| {
      assert events[..k] == events;
    } else {
      assert events[..k + 1][..k] == events[..k];
      ObserveStops(a, events, k + 1);
    }
  }

  // ------------------------------------------------------------ runs

  /** Everything a supervisor can ask of an adapter. */
  datatype Call = Event(e: JEvent) | Eof(pendingFrame: bool) | Cancel

  /** One call: the adapter after it, whether it was refused, and the envelope it gave, if any. */
  function Step(a: Adapter, call: Call): (Adapter, Result<Option<Envelope>, JError>) {
    match call
    case Event(e) =>
      var (a', r) := Observe(a, e);
      (a', if r.Ok? then Ok(Some(r.value)) else Err(r.error))
    case Eof(pendingFrame) => FinishEof(a, pendingFrame)
    case Cancel =>
      var (a', r) := MarkCancellation(a);
      (a', if r.Ok? then Ok(None) else Err(r.error))
  }

  function Run(a: Adapter, calls: seq<Call>): Adapter {
    if calls == [] then a else Step(Run(a, calls[..|calls| - 1]), calls[|calls| - 1]).0
  }

  /** The envelopes a run gave, in order. */
  function Envelopes(a: Adapter, calls: seq<Call>): seq<Envelope> {
    if calls == [] then [] else
      var front := calls[..|calls| - 1];
      match Step(Run(a, front), calls[|calls| - 1]).1
      case Ok(Some(envelope)) => Envelopes(a, front) + [envelope]
      case _ => Envelopes(a, front)
  }

  predicate ErrorFree(a: Adapter, calls: seq<Call>) {
    calls == [] || (ErrorFree(a, calls[..|calls| - 1]) && Step(Run(a, calls[..|calls| - 1]), calls[|calls| - 1]).1.Ok?)
  }

  datatype CallKind = Acceptance | TurnEnd | CancelMark | InputEnd | Other

  function KindOf(call: Call): CallKind {
    match call
    case Event(e) => if e.MessageAccepted? then Acceptance else if e.TurnDone? then TurnEnd else Other
    case Eof(_) => InputEnd
    case Cancel => CancelMark
  }

  function Count(calls: seq<Call>, kind: CallKind): nat {
    if calls == [] then 0 else Count(calls[..|calls| - 1], kind) + (if KindOf(calls[|calls| - 1]) == kind then 1 else 0)
  }

  predicate Starting(a: Adapter) {
    a.next == 1 && !a.accepted && !a.cancelling && a.terminal.None?
  }

  /** Both ways of making an adapter start a turn. */
  lemma BothStart(server: string, runId: string, turnId: string, hello: nat, turnRequest: nat, session: string)
    ensures Starting(Fresh(server, runId, turnId, hello, turnRequest))
    ensures Starting(Negotiated(server, runId, turnId, turnRequest, session))
  {
  }

  /** Contiguous sequences from one; at most one terminal envelope, and it last; its outcome is the adapter's. */
  ghost predicate Sequenced(a: Adapter, out: seq<Envelope>) {
    && a.next == |out| + 1
    && (forall i | 0 <= i < |out| :: out[i].sequence == i + 1)
    && (forall i | 0 <= i < |out| - 1 :: !out[i].native.Terminal?)
    && (a.terminal.Some? <==> out != [] && out[|out| - 1].native.Terminal?)
    && (a.terminal.Some? ==> out[|out| - 1].native.outcome == a.terminal.value)
  }

  predicate Ended(a: Adapter) {
    a.terminal == Some(Completed) || a.terminal == Some(Cancelled)
  }

  /**
   * Completion exactly on a turn's end after one acceptance and no mark;
   * cancellation exactly on a turn's end after one acceptance and one mark; an
   * end of input always finds or leaves the turn over, and never completes it.
   */
  ghost predicate Accounted(a: Adapter, calls: seq<Call>) {
    && Count(calls, Acceptance) == (if a.accepted then 1 else 0)
    && Count(calls, CancelMark) == (if a.cancelling then 1 else 0)
    && Count(calls, TurnEnd) == (if Ended(a) then 1 else 0)
    && (Ended(a) ==> a.accepted && (a.terminal == Some(Cancelled) <==> a.cancelling))
    && (Count(calls, InputEnd) > 0 ==> a.terminal.Some?)
    && (a.terminal.Some? && a.terminal.value.InterruptedUnknown? ==> Count(calls, InputEnd) > 0)
  }

  lemma StepIsSequenced(a: Adapter, out: seq<Envelope>, call: Call)
    requires Sequenced(a, out) && Step(a, call).1.Ok?
    ensures Sequenced(Step(a, call).0, if Step(a, call).1.value.Some? then out + [Step(a, call).1.value.value] else out)
  {
    StepNumbers(a, call);
    var (a', r) := Step(a, call);
    if r.value.Some? {
      assert a.terminal.None?;
      AppendIsSequenced(a, a', out, r.value.value);
    }
  }

  /** What one successful call does to the counter and the outcome. */
  lemma StepNumbers(a: Adapter, call: Call)
    requires Step(a, call).1.Ok?
    ensures var (a', r) := Step(a, call);
            if r.value.None? then a'.next == a.next && a'.terminal == a.terminal
            else && a.terminal.None? && r.value.value.sequence == a.next && a'.next == a.next + 1
                 && a'.terminal == (if r.value.value.native.Terminal? then Some(r.value.value.native.outcome) else None)
  {
  }

  lemma AppendIsSequenced(a: Adapter, a': Adapter, out: seq<Envelope>, e: Envelope)
    requires Sequenced(a, out) && a.terminal.None? && e.sequence == a.next && a'.next == a.next + 1
    requires a'.terminal == if e.native.Terminal? then Some(e.native.outcome) else None
    ensures Sequenced(a', out + [e])
  {
  }

  lemma CountLast(calls: seq<Call>, call: Call, kind: CallKind)
    ensures Count(calls + [call], kind) == Count(calls, kind) + (if KindOf(call) == kind then 1 else 0)
  {
    assert (calls + [call])[..|calls|] == calls;
  }

  /** What one successful call does to what is counted, by its kind. */
  lemma StepFlags(a: Adapter, call: Call)
    requires Step(a, call).1.Ok?
    ensures var a' := Step(a, call).0; var kind := KindOf(call);
            && (if kind.Acceptance? then !a.accepted && a'.accepted else a'.accepted == a.accepted)
            && (if kind.CancelMark? then !a.cancelling && a'.cancelling else a'.cancelling == a.cancelling)
  {
  }

  lemma StepEnds(a: Adapter, call: Call)
    requires Step(a, call).1.Ok?
    ensures var a' := Step(a, call).0; var kind := KindOf(call);
            && (kind.TurnEnd? ==>
                  && a.terminal.None? && a.accepted
                  && a'.terminal == Some(if a.cancelling then Cancelled else Completed))
            && (kind.InputEnd? ==>
                  && a'.terminal.Some?
                  && (a.terminal.Some? ==> a'.terminal == a.terminal)
                  && (a.terminal.None? ==> a'.terminal.value.InterruptedUnknown?))
            && (!kind.TurnEnd? && !kind.InputEnd? ==>
                  a'.terminal == a.terminal || (a.terminal.None? && a'.terminal == Some(ProviderFailed)))
  {
  }

  lemma TerminalIsFinal(a: Adapter, call: Call)
    requires Step(a, call).1.Ok? && a.terminal.Some?
    ensures Step(a, call).0 == a && KindOf(call).InputEnd?
  {
  }

  lemma StepIsAccounted(a: Adapter, calls: seq<Call>, call: Call)
    requires Accounted(a, calls) && Step(a, call).1.Ok?
    ensures Accounted(Step(a, call).0, calls + [call])
  {
    forall kind ensures Count(calls + [call], kind) == Count(calls, kind) + (if KindOf(call) == kind then 1 else 0) {
      CountLast(calls, call, kind);
    }
    StepFlags(a, call);
    StepEnds(a, call);
    if a.terminal.Some? {
      TerminalIsFinal(a, call);
    }
    FlagsAccount(a, calls, call, Step(a, call).0);
  }

  /** Counting by kinds alone, from what the call did to the flags. */
  lemma FlagsAccount(a: Adapter, calls: seq<Call>, call: Call, a': Adapter)
    requires Accounted(a, calls)
    requires forall kind :: Count(calls + [call], kind) == Count(calls, kind) + (if KindOf(call) == kind then 1 else 0)
    requires if KindOf(call).Acceptance? then !a.accepted && a'.accepted else a'.accepted == a.accepted
    requires if KindOf(call).CancelMark? then !a.cancelling && a'.cancelling else a'.cancelling == a.cancelling
    requires a.terminal.Some? ==> a' == a && KindOf(call).InputEnd?
    requires KindOf(call).TurnEnd? ==> a.accepted && a'.terminal == Some(if a.cancelling then Cancelled else Completed)
    requires KindOf(call).InputEnd? && a.terminal.None? ==> a'.terminal.Some? && a'.terminal.value.InterruptedUnknown?
    requires !KindOf(call).TurnEnd? && !KindOf(call).InputEnd? ==>
             a'.terminal == a.terminal || a'.terminal == Some(ProviderFailed)
    ensures Accounted(a', calls + [call])
  {
  }

  /** Every error-free run from a fresh adapter, or from one that negotiated before, is orderly. */
  lemma {:induction false} ErrorFreeRunsAreOrderly(a: Adapter, calls: seq<Call>)
    requires Starting(a) && ErrorFree(a, calls)
    ensures Sequenced(Run(a, calls), Envelopes(a, calls)) && Accounted(Run(a, calls), calls)
  {
    if calls != [] {
      var front, last := calls[..|calls| - 1], calls[|calls| - 1];
      ErrorFreeRunsAreOrderly(a, front);
      FrontAndLast(calls);
      var before, out := Run(a, front), Envelopes(a, front);
      StepIsSequenced(before, out, last);
      StepIsAccounted(before, front, last);
      var r := Step(before, last).1;
      assert Envelopes(a, calls) == if r.value.Some? then out + [r.value.value] else out;
    }
  }

  /** A bound session never changes, whether calls succeed or fail. */
  lemma {:induction false} SessionsNeverChange(a: Adapter, calls: seq<Call>, k: nat)
    requires k <= |calls| && Run(a, calls[..k]).session.Some?
    ensures Run(a, calls).session == Run(a, calls[..k]).session
    decreases |calls| - k
  {
    if k == |calls| {
      assert calls[..k] == calls;
    } else {
      assert calls[..k + 1][..k] == calls[..k];
      assert Run(a, calls[..k + 1]) == Step(Run(a, calls[..k]), calls[k]).0;
      StepCarries(Run(a, calls[..k]), calls[k]);
      SessionsNeverChange(a, calls, k + 1);
    }
  }

  ghost predicate Carries(out: seq<Envelope>, session: Option<string>) {
    forall i | 0 <= i < |out| :: out[i].session.Some? ==> out[i].session == session
  }

  lemma StepCarries(a: Adapter, call: Call)
    ensures a.session.Some? ==> Step(a, call).0.session == a.session
    ensures var (a', r) := Step(a, call); r.Ok? && r.value.Some? ==> r.value.value.session == a'.session
  {
  }

  lemma {:induction false} EnvelopesCarryTheSession(a: Adapter, calls: seq<Call>)
    ensures Carries(Envelopes(a, calls), Run(a, calls).session)
  {
    if calls != [] {
      EnvelopesCarryTheSession(a, calls[..|calls| - 1]);
      StepCarries(Run(a, calls[..|calls| - 1]), calls[|calls| - 1]);
      NoneBeforeBinding(a, calls[..|calls| - 1]);
    }
  }

  /** Before a session is bound no envelope carries one. */
  lemma {:induction false} NoneBeforeBinding(a: Adapter, calls: seq<Call>)
    ensures Run(a, calls).session.None? ==> Carries(Envelopes(a, calls), None)
  {
    if calls != [] {
      NoneBeforeBinding(a, calls[..|calls| - 1]);
      StepCarries(Run(a, calls[..|calls| - 1]), calls[|calls| - 1]);
    }
  }

  /** A turn that has ended takes nothing more: no call gives another envelope or changes the outcome. */
  lemma {:induction false} EndedStaysEnded(a: Adapter, calls: seq<Call>)
    requires a.terminal.Some?
    ensures Run(a, calls) == a && Envelopes(a, calls) == []
  {
    if calls != [] {
      EndedStaysEnded(a, calls[..|calls| - 1]);
    }
  }
}
