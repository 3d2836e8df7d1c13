/** The loop that serves one connection, proved to send a first part of what it means to. */
module Pump {
  import opened Basics
  import opened Cursor
  import opened Projection
  import opened Delivery

  datatype Write = Sent | TooLong | Gone

  /** Of all that was to be written, the next did not go through, for the reason given. */
  ghost predicate Blocked<E>(w: Wire<E>, all: seq<Delivery<E>>, sent: seq<Delivery<E>>, r: Write) {
    && !r.Sent? && |sent| < |all| && sent == all[..|sent|]
    && (r.TooLong? <==> Total(w, all[..|sent| + 1]) > w.limit)
    && (r.Gone? ==> |sent| == w.survives)
  }

  lemma BlockedAt<E>(w: Wire<E>, before: seq<Delivery<E>>, ds: seq<Delivery<E>>, k: nat)
    requires k < |ds|
    ensures var all, sent := before + ds, before + ds[..k];
            && sent + [ds[k]] == before + ds[..k + 1] == all[..|sent| + 1] && sent == all[..|sent|]
  {
  }

  lemma DropPrefix<T>(a: seq<T>, b: seq<T>, n: nat)
    requires a <= b && n <= |a|
    ensures a[n..] <= b[n..]
  {
  }

  lemma PrefixUnder<T>(x: seq<T>, a: seq<T>, b: seq<T>)
    requires a <= b
    ensures x + a <= x + b
  {
  }

  /** What a connection keeps as it writes. */
  class Writer<E> {
    const t: Translator<E>
    const w: Wire<E>
    const cursor: Option<DeliveryCursor>
    var sent: seq<Delivery<E>>
    var written: nat
    var emitted: nat
    var lastId: Option<string>
    var terminal: bool

    ghost predicate Valid()
      reads this
    {
      && written == Total(w, sent) && written <= w.limit
      && emitted == |sent| && emitted <= w.survives
      && lastId == LastId(cursor, sent)
      && (terminal <==> exists i | 0 <= i < |sent| :: t.ends(sent[i].event))
    }

    constructor (t: Translator<E>, w: Wire<E>, cursor: Option<DeliveryCursor>)
      ensures Valid() && sent == [] && this.t == t && this.w == w && this.cursor == cursor
    {
      this.t, this.w, this.cursor := t, w, cursor;
      sent, written, emitted, terminal := [], 0, 0, false;
      lastId := if cursor.None? then None else Some(Format(cursor.value));
    }

    method Put(d: Delivery<E>) returns (r: Write)
      requires Valid()
      modifies this
      ensures Valid() && sent == (if r.Sent? then old(sent) + [d] else old(sent))
      ensures r.TooLong? <==> Total(w, old(sent) + [d]) > w.limit
      ensures r.Gone? <==> Total(w, old(sent) + [d]) <= w.limit && |old(sent)| == w.survives
    {
      assert (sent + [d])[..|sent|] == sent;
      if written + w.size(d) > w.limit {
        return TooLong;
      }
      if emitted == w.survives {
        return Gone;
      }
      ghost var before := sent;
      written, emitted, sent, lastId := written + w.size(d), emitted + 1, sent + [d], Some(d.id);
      if t.ends(d.event) {
        terminal := true;
        assert sent[|before|] == d;
      }
      assert forall i | 0 <= i < |before| :: sent[i] == before[i];
      return Sent;
    }

    /** Write each in turn, stopping at the first that does not go through. */
    method PutEach(ds: seq<Delivery<E>>) returns (r: Write)
      requires Valid()
      modifies this
      ensures Valid()
      ensures if r.Sent? then sent == old(sent) + ds else Blocked(w, old(sent) + ds, sent, r)
    {
      ghost var before := sent;
      for k := 0 to |ds|
        invariant Valid() && sent == before + ds[..k]
      {
        BlockedAt(w, before, ds, k);
        r := Put(ds[k]);
        if !r.Sent? {
          return;
        }
      }
      assert ds[..|ds|] == ds;
      return Sent;
    }

    /** The end of a connection that failed: what is written, if anything still can be. */
    method Fail(failure: Failure) returns (closing: Closing)
      requires Valid()
      ensures closing == Closed(t, w, cursor, sent, Some(failure))
    {
      if terminal {
        return Quiet(failure);
      }
      var announce := emitted == 0 && cursor.None?;
      if emitted + (if announce then 2 else 1) <= w.survives {
        return Told(failure, announce);
      }
      return Lost(lastId);
    }
  }

  // ------------------------------------------------------------ the specification, piece by piece

  /** What is owed of the event named, before any live event. */
  function Owed<E>(t: Translator<E>, replay: seq<Native>, cursor: Option<DeliveryCursor>): seq<Delivery<E>>
    requires cursor.Some? ==> Matches(t, replay, cursor.value)
  {
    if cursor.None? then [] else Tail(t, replay, cursor.value)
  }

  predicate Opens<E>(t: Translator<E>, replay: seq<Native>, cursor: Option<DeliveryCursor>) {
    if cursor.None? then replay == [] else Matches(t, replay, cursor.value)
  }

  lemma IntendedParts<E>(t: Translator<E>, replay: seq<Native>, live: seq<Native>, faulted: bool,
                         cursor: Option<DeliveryCursor>)
    requires Opens(t, replay, cursor)
    ensures Intended(t, replay, live, faulted, cursor)
         == Intent(Owed(t, replay, cursor) + After(t, replay, live), LiveFailure(t, replay + live, faulted))
  {
    if cursor.None? {
      EmptyPrefix(live);
      EmptyPrefix(After(t, replay, live));
      EmptyPrefix(Full(t, live));
    }
  }

  lemma AfterStep<E>(t: Translator<E>, replay: seq<Native>, live: seq<Native>, k: nat)
    requires k < |live| && Accepts(t, replay + live[..k])
    ensures replay + live[..k + 1] == replay + live[..k] + [live[k]]
    ensures After(t, replay, live[..k + 1]) == After(t, replay, live[..k]) + Pushed(t, replay + live[..k + 1])
  {
    var h := replay + live[..k];
    OneFurther(replay, live, k);
    PushedLast(t, h, live[k]);
    FullGrows(t, h, |replay|);
    DropOfAppend(Full(t, h), Pushed(t, h + [live[k]]), |Full(t, replay)|);
  }

  lemma OneFurther<T>(a: seq<T>, b: seq<T>, k: nat)
    requires k < |b|
    ensures a + b[..k + 1] == a + b[..k] + [b[k]] && (a + b[..k])[..|a|] == a
  {
  }

  lemma DropOfAppend<T>(a: seq<T>, b: seq<T>, n: nat)
    requires n <= |a|
    ensures (a + b)[n..] == a[n..] + b
  {
  }

  /** What a live event adds to the deliveries owed, and that they stay within what is intended. */
  lemma LiveStep<E>(t: Translator<E>, replay: seq<Native>, live: seq<Native>, k: nat, owed: seq<Delivery<E>>)
    requires k < |live| && Accepts(t, replay + live[..k])
    ensures var r := t.push(replay + live[..k + 1]);
            var before, after := owed + After(t, replay, live[..k]), owed + After(t, replay, live[..k + 1]);
            && after <= owed + After(t, replay, live)
            && (r.Some? ==> Accepts(t, replay + live[..k + 1]) && before + Named(live[k].cursor, r.value) == after)
            && (r.None? ==> !Accepts(t, replay + live) && before == owed + After(t, replay, live))
  {
    AfterStep(t, replay, live, k);
    AfterGrows(t, replay, live, k + 1);
    PushedLast(t, replay + live[..k], live[k]);
    Associates(owed, After(t, replay, live[..k]), Pushed(t, replay + live[..k + 1]));
    PrefixUnder(owed, After(t, replay, live[..k + 1]), After(t, replay, live));
  }

  lemma AfterGrows<E>(t: Translator<E>, replay: seq<Native>, live: seq<Native>, k: nat)
    requires k <= |live|
    ensures After(t, replay, live[..k]) <= After(t, replay, live)
    ensures !Accepts(t, replay + live[..k]) ==>
            After(t, replay, live[..k]) == After(t, replay, live) && !Accepts(t, replay + live)
  {
    var h, h' := replay + live[..k], replay + live;
    assert h'[..|h|] == h && h[..|replay|] == replay;
    FullGrows(t, h', |h|);
    FullGrows(t, h, |replay|);
    DropPrefix(Full(t, h), Full(t, h'), |Full(t, replay)|);
  }

  /** The result promised of a connection. */
  ghost predicate Serves<E>(t: Translator<E>, w: Wire<E>, cursor: Option<DeliveryCursor>, intent: Intent<E>,
                            sent: seq<Delivery<E>>, closing: Closing)
  {
    && sent <= intent.deliveries
    && Fits(w, intent.deliveries, |sent|)
    && (|sent| < |intent.deliveries| ==> !Fits(w, intent.deliveries, |sent| + 1))
    && closing == Ended(t, w, cursor, intent, |sent|)
  }

  /** A write that does not go through ends the connection as promised. */
  lemma CutShort<E>(t: Translator<E>, w: Wire<E>, cursor: Option<DeliveryCursor>, intent: Intent<E>,
                    sent: seq<Delivery<E>>, all: seq<Delivery<E>>, r: Write)
    requires all <= intent.deliveries && Blocked(w, all, sent, r)
    requires |sent| <= w.survives && Total(w, sent) <= w.limit
    ensures Serves(t, w, cursor, intent, sent,
                   if r.TooLong? then Closed(t, w, cursor, sent, Some(StreamLimit)) else Lost(LastId(cursor, sent)))
  {
    assert intent.deliveries[..|sent| + 1] == all[..|sent| + 1];
    assert intent.deliveries[..|sent|] == sent;
  }

  /** A connection that sends everything ends as its intent does. */
  lemma RunsOut<E>(t: Translator<E>, w: Wire<E>, cursor: Option<DeliveryCursor>, intent: Intent<E>,
                   sent: seq<Delivery<E>>)
    requires sent == intent.deliveries && |sent| <= w.survives && Total(w, sent) <= w.limit
    ensures Serves(t, w, cursor, intent, sent, Closed(t, w, cursor, sent, intent.failure))
  {
    assert intent.deliveries[..|sent|] == sent;
  }

  // ------------------------------------------------------------ the loop

  /** Push the retained prefix, keeping only the projections of its last event. */
  method PushReplay<E>(t: Translator<E>, replay: seq<Native>) returns (tail: Option<seq<E>>)
    ensures tail.Some? <==> Accepts(t, replay)
    ensures tail.Some? && replay != [] ==> tail == t.push(replay)
  {
    tail := Some([]);
    for k := 0 to |replay|
      invariant tail.Some? && Accepts(t, replay[..k])
      invariant k > 0 ==> tail == t.push(replay[..k])
    {
      assert replay[..k + 1][..k] == replay[..k];
      tail := t.push(replay[..k + 1]);
      if tail.None? {
        FullGrows(t, replay, k + 1);
        return None;
      }
    }
    assert replay[..|replay|] == replay;
  }

  method Stop<E>(out: Writer<E>, r: Write, ghost intent: Intent<E>, ghost all: seq<Delivery<E>>)
    returns (closing: Closing)
    requires out.Valid() && all <= intent.deliveries && Blocked(out.w, all, out.sent, r)
    ensures Serves(out.t, out.w, out.cursor, intent, out.sent, closing)
  {
    CutShort(out.t, out.w, out.cursor, intent, out.sent, all, r);
    if r.TooLong? {
      closing := out.Fail(StreamLimit);
    } else {
      closing := Lost(out.lastId);
    }
  }

  lemma NothingAfter<E>(t: Translator<E>, replay: seq<Native>, live: seq<Native>)
    ensures replay + live[..0] == replay && After(t, replay, live[..0]) == []
  {
    assert replay + live[..0] == replay;
  }

  /** One live event; the result is how the connection ended, if it did. */
  method ServeOne<E>(out: Writer<E>, replay: seq<Native>, live: seq<Native>, k: nat,
                     ghost owed: seq<Delivery<E>>, ghost intent: Intent<E>)
    returns (ended: Option<Closing>)
    requires k < |live| && out.Valid() && Accepts(out.t, replay + live[..k])
    requires out.sent == owed + After(out.t, replay, live[..k])
    requires intent.deliveries == owed + After(out.t, replay, live)
    requires !Accepts(out.t, replay + live) ==> intent.failure == Some(InvalidEvent)
    modifies out
    ensures out.Valid()
    ensures ended.Some? ==> Serves(out.t, out.w, out.cursor, intent, out.sent, ended.value)
    ensures ended.None? ==> Accepts(out.t, replay + live[..k + 1])
    ensures ended.None? ==> out.sent == owed + After(out.t, replay, live[..k + 1])
  {
    var history := replay + live[..k + 1];
    LiveStep(out.t, replay, live, k, owed);
    var translated := out.t.push(history);
    if translated.None? {
      assert out.sent == intent.deliveries;
      RunsOut(out.t, out.w, out.cursor, intent, out.sent);
      var closing := out.Fail(InvalidEvent);
      return Some(closing);
    }
    var ds := Named(live[k].cursor, translated.value);
    ghost var all := out.sent + ds;
    var r := out.PutEach(ds);
    if !r.Sent? {
      var closing := Stop(out, r, intent, all);
      return Some(closing);
    }
    return None;
  }

  /** The live events, after whatever the reader was owed. */
  method ServeLive<E>(out: Writer<E>, replay: seq<Native>, live: seq<Native>, faulted: bool) returns (closing: Closing)
    requires out.Valid() && Opens(out.t, replay, out.cursor) && out.sent == Owed(out.t, replay, out.cursor)
    requires Accepts(out.t, replay)
    modifies out
    ensures Serves(out.t, out.w, out.cursor, Intended(out.t, replay, live, faulted, out.cursor), out.sent, closing)
  {
    ghost var intent := Intended(out.t, replay, live, faulted, out.cursor);
    ghost var owed := out.sent;
    IntendedParts(out.t, replay, live, faulted, out.cursor);
    NothingAfter(out.t, replay, live);
    assert owed == owed + [];
    for k := 0 to |live|
      invariant out.Valid() && out.sent == owed + After(out.t, replay, live[..k])
      invariant Accepts(out.t, replay + live[..k])
    {
      var ended := ServeOne(out, replay, live, k, owed, intent);
      if ended.Some? {
        return ended.value;
      }
    }
    assert live[..|live|] == live;
    RunsOut(out.t, out.w, out.cursor, intent, out.sent);
    if faulted {
      closing := out.Fail(PlatformFailed);
    } else if !out.t.complete(replay + live) {
      closing := out.Fail(InvalidEvent);
    } else {
      closing := Finished;
    }
  }

  /** What is owed of the event the reader names; the result is how the connection ended, if it did. */
  method ServeOwed<E>(out: Writer<E>, replay: seq<Native>, tail: seq<E>, cursor: DeliveryCursor,
                      ghost intent: Intent<E>)
    returns (ended: Option<Closing>)
    requires out.Valid() && out.sent == [] && out.cursor == Some(cursor)
    requires Matches(out.t, replay, cursor) && out.t.push(replay) == Some(tail)
    requires Tail(out.t, replay, cursor) <= intent.deliveries
    modifies out
    ensures out.Valid()
    ensures ended.Some? ==> Serves(out.t, out.w, out.cursor, intent, out.sent, ended.value)
    ensures ended.None? ==> out.sent == Tail(out.t, replay, cursor)
  {
    var ds := Named(cursor.native, tail)[cursor.index + 1..];
    EmptyPrefix(ds);
    var r := out.PutEach(ds);
    if !r.Sent? {
      var closing := Stop(out, r, intent, ds);
      return Some(closing);
    }
    return None;
  }

  /** One connection from its open result to its close. */
  method Serve<E>(t: Translator<E>, replay: seq<Native>, live: seq<Native>, faulted: bool,
                  cursor: Option<DeliveryCursor>, w: Wire<E>)
    returns (sent: seq<Delivery<E>>, closing: Closing)
    ensures Serves(t, w, cursor, Intended(t, replay, live, faulted, cursor), sent, closing)
  {
    var out := new Writer(t, w, cursor);
    ghost var intent := Intended(t, replay, live, faulted, cursor);
    if cursor.None? && replay != [] {
      RunsOut(t, w, cursor, intent, []);
      closing := out.Fail(InvalidReplay);
      return [], closing;
    }
    var tail := PushReplay(t, replay);
    if tail.None? || (cursor.Some? && !Found(replay, tail.value, cursor.value)) {
      RunsOut(t, w, cursor, intent, []);
      closing := out.Fail(if tail.None? then InvalidEvent else InvalidReplay);
      return [], closing;
    }
    IntendedParts(t, replay, live, faulted, cursor);
    if cursor.Some? {
      var ended := ServeOwed(out, replay, tail.value, cursor.value, intent);
      if ended.Some? {
        return out.sent, ended.value;
      }
    }
    closing := ServeLive(out, replay, live, faulted);
    return out.sent, closing;
  }

  predicate Found<E>(replay: seq<Native>, tail: seq<E>, cursor: DeliveryCursor) {
    replay != [] && replay[|replay| - 1].cursor == cursor.native && cursor.index < |tail|
  }
}
