/**
 * One connection (adapters/ag-ui/src/runtime.ts): the replay is pushed through the
 * translator unseen, what the reader lacks of its last event is sent, then the live events.
 */
module Delivery {
  import opened Basics
  import opened Cursor
  import opened Projection

  /**
   * Any deterministic translator: the events it gives for the last native event of a
   * history, or none where it throws; whether a history may end; which events end a run.
   */
  datatype Translator<!E> = Translator(push: seq<Native> -> Option<seq<E>>, complete: seq<Native> -> bool,
                                       ends: E -> bool)

  datatype Delivery<E> = Delivery(id: string, event: E)

  /** The projections of one native event under their ids. */
  function Named<E>(cursor: string, events: seq<E>): seq<Delivery<E>> {
    seq(|events|, j requires 0 <= j < |events| => Delivery(Format(DeliveryCursor(cursor, j)), events[j]))
  }

  /** Whether every push of a history is accepted. */
  predicate Accepts<E>(t: Translator<E>, history: seq<Native>) {
    history == [] || (Accepts(t, history[..|history| - 1]) && t.push(history).Some?)
  }

  /** What pushing the last event of a history delivers. */
  function Pushed<E>(t: Translator<E>, history: seq<Native>): seq<Delivery<E>>
    requires history != []
  {
    if Accepts(t, history) then Named(history[|history| - 1].cursor, t.push(history).value) else []
  }

  /** Everything an uninterrupted reader of a history is sent. */
  function Full<E>(t: Translator<E>, history: seq<Native>): seq<Delivery<E>> {
    if history == [] then [] else Full(t, history[..|history| - 1]) + Pushed(t, history)
  }

  lemma {:induction false} FullGrows<E>(t: Translator<E>, history: seq<Native>, k: nat)
    requires k <= |history|
    ensures Full(t, history[..k]) <= Full(t, history)
    ensures !Accepts(t, history[..k]) ==> Full(t, history[..k]) == Full(t, history) && !Accepts(t, history)
    decreases |history|
  {
    if k == |history| {
      assert history[..k] == history;
    } else {
      var front := history[..|history| - 1];
      assert front[..k] == history[..k];
      FullGrows(t, front, k);
    }
  }

  // ------------------------------------------------------------ what a connection means to send

  datatype Failure = InvalidReplay | InvalidEvent | PlatformFailed | StreamLimit

  datatype Intent<E> = Intent(deliveries: seq<Delivery<E>>, failure: Option<Failure>)

  /** The replay ends at the event the reader names, and that event has the projection it names. */
  predicate Matches<E>(t: Translator<E>, replay: seq<Native>, cursor: DeliveryCursor) {
    && replay != [] && Accepts(t, replay)
    && replay[|replay| - 1].cursor == cursor.native
    && cursor.index < |t.push(replay).value|
  }

  /** What the reader lacks of the event it names. */
  function Tail<E>(t: Translator<E>, replay: seq<Native>, cursor: DeliveryCursor): seq<Delivery<E>>
    requires Matches(t, replay, cursor)
  {
    Named(cursor.native, t.push(replay).value)[cursor.index + 1..]
  }

  /** What live events are sent as, after a history. */
  function After<E>(t: Translator<E>, history: seq<Native>, live: seq<Native>): seq<Delivery<E>> {
    FullGrows(t, history + live, |history|);
    assert (history + live)[..|history|] == history;
    Full(t, history + live)[|Full(t, history)|..]
  }

  lemma PushedLast<E>(t: Translator<E>, history: seq<Native>, next: Native)
    requires Accepts(t, history)
    ensures var r := t.push(history + [next]);
            && (Accepts(t, history + [next]) <==> r.Some?)
            && Pushed(t, history + [next]) == (if r.Some? then Named(next.cursor, r.value) else [])
            && Full(t, history + [next]) == Full(t, history) + Pushed(t, history + [next])
  {
    assert (history + [next])[..|history|] == history;
  }

  function LiveFailure<E>(t: Translator<E>, history: seq<Native>, faulted: bool): Option<Failure> {
    if !Accepts(t, history) then Some(InvalidEvent)
    else if faulted then Some(PlatformFailed)
    else if !t.complete(history) then Some(InvalidEvent)
    else None
  }

  /** Everything a connection would send if nothing cut it. */
  function Intended<E>(t: Translator<E>, replay: seq<Native>, live: seq<Native>, faulted: bool,
                       cursor: Option<DeliveryCursor>): Intent<E>
  {
    if cursor.None? then
      if replay != [] then Intent([], Some(InvalidReplay))
      else Intent(Full(t, live), LiveFailure(t, live, faulted))
    else if !Accepts(t, replay) then Intent([], Some(InvalidEvent))
    else if !Matches(t, replay, cursor.value) then Intent([], Some(InvalidReplay))
    else Intent(Tail(t, replay, cursor.value) + After(t, replay, live), LiveFailure(t, replay + live, faulted))
  }

  // ------------------------------------------------------------ what it does send

  /** The reader's side: the size each delivery is written as, the bound on them, and how many writes get through. */
  datatype Wire<!E> = Wire(size: Delivery<E> -> nat, limit: nat, survives: nat)

  function Total<E>(w: Wire<E>, sent: seq<Delivery<E>>): nat {
    if sent == [] then 0 else Total(w, sent[..|sent| - 1]) + w.size(sent[|sent| - 1])
  }

  /** The first `n` deliveries can be written. */
  predicate Fits<E>(w: Wire<E>, deliveries: seq<Delivery<E>>, n: nat) {
    n <= |deliveries| && n <= w.survives && Total(w, deliveries[..n]) <= w.limit
  }

  datatype Closing =
    | Finished
    | Quiet(failure: Failure)
    | Told(failure: Failure, announced: bool)
    | Lost(last: Option<string>)

  function LastId<E>(cursor: Option<DeliveryCursor>, sent: seq<Delivery<E>>): Option<string> {
    if sent != [] then Some(sent[|sent| - 1].id)
    else if cursor.Some? then Some(Format(cursor.value)) else None
  }

  /** The end of a connection that failed, or did not, after sending what it sent. */
  function Closed<E>(t: Translator<E>, w: Wire<E>, cursor: Option<DeliveryCursor>, sent: seq<Delivery<E>>,
                     failure: Option<Failure>): Closing
  {
    if failure.None? then Finished
    else if exists i | 0 <= i < |sent| :: t.ends(sent[i].event) then Quiet(failure.value)
    else
      var announce := sent == [] && cursor.None?;
      if |sent| + (if announce then 2 else 1) <= w.survives then Told(failure.value, announce)
      else Lost(LastId(cursor, sent))
  }

  /** How a connection that means to send `intent` ends, having sent its first `n`. */
  function Ended<E>(t: Translator<E>, w: Wire<E>, cursor: Option<DeliveryCursor>, intent: Intent<E>, n: nat): Closing
    requires n <= |intent.deliveries|
  {
    var sent := intent.deliveries[..n];
    if n == |intent.deliveries| then Closed(t, w, cursor, sent, intent.failure)
    else if Total(w, intent.deliveries[..n + 1]) > w.limit then Closed(t, w, cursor, sent, Some(StreamLimit))
    else Lost(LastId(cursor, sent))
  }
}
