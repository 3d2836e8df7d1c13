/** Delivery exactly once, over any number of cuts. */
module ExactlyOnce {
  import opened Basics
  import opened Cursor
  import opened Projection
  import opened Generator
  import opened GeneratorRuns
  import opened Delivery
  import opened Resume
  import opened Sessions

  // ------------------------------------------------------------ one native event list

  /** What is left to send to a reader that has received the first `i` deliveries. */
  function Rest<E>(t: Translator<E>, whole: Outcome, i: nat): Intent<E>
    requires i <= |Full(t, whole.events)|
  {
    Intent(Full(t, whole.events)[i..], LiveFailure(t, whole.events, whole.faulted))
  }

  function Before(events: seq<Native>): seq<Native> {
    if events == [] then [] else events[..|events| - 1]
  }

  /** The run threw, and the reader already has a projection of the last native event it gave. */
  predicate LeftBehind<E>(t: Translator<E>, whole: Outcome, i: nat) {
    whole.faulted && (whole.events == [] || i > |Full(t, Before(whole.events))|)
  }

  lemma {:induction false} NothingBelow(events: seq<Native>)
    requires forall i | 0 <= i < |events| :: 1 <= events[i].sequence
    ensures AtOrBelow(events, 0) == [] && Above(events, 0) == events && HandedOver(events, 0) == []
  {
    SplitsAt(events, 0, 0);
    HandsOverAt(events, 0, 0);
  }

  lemma OpensFresh<E>(t: Translator<E>, whole: Outcome)
    requires forall i | 0 <= i < |whole.events| :: 1 <= whole.events[i].sequence
    ensures OpenAt(t, whole, None, 0) == if LeftBehind(t, whole, 0) then Unavailable else Streaming(Rest(t, whole, 0))
  {
    NothingBelow(whole.events);
    assert Full(t, whole.events)[0..] == Full(t, whole.events);
  }

  lemma SplitsAfter(events: seq<Native>, m: nat)
    requires Ordered(events) && m < |events|
    ensures HandedOver(events, events[m].sequence) == events[..m + 1]
    ensures Above(events, events[m].sequence) == events[m + 1..]
  {
    var cursor := events[m].sequence;
    assert forall i | 0 <= i < m + 1 :: events[i].sequence <= cursor;
    assert forall i | m + 1 <= i < |events| :: cursor < events[i].sequence;
    SplitsAt(events, cursor, m + 1);
    HandsOverAt(events, cursor, m + 1);
  }

  lemma LastHolds<E>(t: Translator<E>, history: seq<Native>, i: nat, m: nat, j: nat)
    requires Located(t, history, i, m, j)
    ensures m == |history| - 1 <==> i >= |Full(t, Before(history))|
  {
    var front := Before(history);
    if m < |front| {
      assert front[..m + 1] == history[..m + 1];
      FullGrows(t, front, m + 1);
    } else {
      assert history[..m] == front;
    }
  }

  /** A reader that names the delivery at a place is sent the rest from there. */
  lemma OpensAfter<E>(t: Translator<E>, whole: Outcome, i: nat, m: nat, j: nat)
    requires Ordered(whole.events) && Located(t, whole.events, i, m, j)
    ensures i < |Full(t, whole.events)|
    ensures OpenAt(t, whole, Some(DeliveryCursor(whole.events[m].cursor, j)), whole.events[m].sequence)
         == if LeftBehind(t, whole, i + 1) then Unavailable else Streaming(Rest(t, whole, i + 1))
  {
    var events := whole.events;
    SplitsAfter(events, m);
    LastHolds(t, events, i, m, j);
    IntentAfter(t, events, whole.faulted, i, m, j);
  }

  lemma IntentAfter<E>(t: Translator<E>, events: seq<Native>, faulted: bool, i: nat, m: nat, j: nat)
    requires Located(t, events, i, m, j)
    ensures i < |Full(t, events)|
    ensures Intended(t, events[..m + 1], events[m + 1..], faulted, Some(DeliveryCursor(events[m].cursor, j)))
         == Rest(t, Outcome(events, faulted), i + 1)
  {
    RestIsTailAndAfter(t, events, i, m, j);
    assert events[..m + 1] + events[m + 1..] == events;
    ResumedIntent(t, events[..m + 1], events[m + 1..], faulted, DeliveryCursor(events[m].cursor, j));
  }

  lemma ResumedIntent<E>(t: Translator<E>, replay: seq<Native>, live: seq<Native>, faulted: bool,
                         cursor: DeliveryCursor)
    requires Matches(t, replay, cursor)
    ensures Intended(t, replay, live, faulted, Some(cursor))
         == Intent(Tail(t, replay, cursor) + After(t, replay, live), LiveFailure(t, replay + live, faulted))
  {
  }

  // ------------------------------------------------------------ whole runs

  lemma ConnectsAt<E>(world: World<E>, header: string, cursor: DeliveryCursor, sequence: nat)
    requires Admit(header) == Some(cursor)
    requires CoordinateOf(world.number, Some(cursor.native), world.setting.run)
          == Some(Coordinate(sequence, sequence / STRIDE))
    ensures Connect(world, Some(header))
         == if world.frames == [] then ResyncRequired else OpenAt(world.t, WholeOf(world), Some(cursor), sequence)
  {
  }

  lemma ConnectsFresh<E>(world: World<E>)
    ensures Connect(world, None) == OpenAt(world.t, WholeOf(world), None, 0)
  {
  }

  lemma WholeIsPlaced<E>(world: World<E>)
    requires Regular(world)
    ensures var events := WholeOf(world).events;
            && Ordered(events)
            && (forall i | 0 <= i < |events| :: Placed(world.setting.run, events[i]))
            && (forall i | 0 <= i < |events| :: 1 <= events[i].sequence)
  {
    RunsAreOrderly(world.setting, world.frames, world.ending);
    var events := WholeOf(world).events;
    forall i | 0 <= i < |events| ensures 1 <= events[i].sequence {
      assert Placed(world.setting.run, events[i]);
    }
  }

  /**
   * Every id delivered resumes exactly after it. The exceptions are told apart, in this order: an
   * index too high to be admitted is refused, a run with no frame is answered with a resync, and
   * one that threw right after the event named fails.
   */
  lemma EveryIdResumes<E>(world: World<E>, i: nat)
    requires Regular(world) && i < |FullOf(world)|
    ensures Connect(world, Some(FullOf(world)[i].id))
         == if IndexAt(world.t, WholeOf(world).events, i) > MAX_PROJECTION_INDEX then Refused
            else if world.frames == [] then ResyncRequired
            else if LeftBehind(world.t, WholeOf(world), i + 1) then Unavailable
            else Streaming(Rest(world.t, WholeOf(world), i + 1))
  {
    WholeIsPlaced(world);
    var whole := WholeOf(world);
    var m, j := Locate(world.t, whole.events, i);
    IdsComeBack(world.setting.run, whole.events[m], j);
    PlacesComeBack(world.number, world.setting.run, whole.events[m]);
    var cursor := DeliveryCursor(whole.events[m].cursor, j);
    assert FullOf(world)[i].id == Format(cursor);
    if j <= MAX_PROJECTION_INDEX {
      ConnectsAt(world, Format(cursor), cursor, whole.events[m].sequence);
      OpensAfter(world.t, whole, i, m, j);
    }
  }

  lemma FreshIsFull<E>(world: World<E>)
    requires Regular(world)
    ensures Connect(world, None)
         == if LeftBehind(world.t, WholeOf(world), 0) then Unavailable else Streaming(Rest(world.t, WholeOf(world), 0))
  {
    WholeIsPlaced(world);
    ConnectsFresh(world);
    OpensFresh(world.t, WholeOf(world));
  }

  /** No id is used twice. */
  lemma IdsAreUnique<E>(world: World<E>, i: nat, i': nat)
    requires Regular(world) && i < |FullOf(world)| && i' < |FullOf(world)|
             && FullOf(world)[i].id == FullOf(world)[i'].id
    ensures i == i'
  {
    WholeIsPlaced(world);
    var events := WholeOf(world).events;
    PlacesAreUnique(world.t, world.setting.run, events, i, i');
  }

  lemma PlacesAreUnique<E>(t: Translator<E>, run: string, events: seq<Native>, i: nat, i': nat)
    requires Ordered(events) && (forall k | 0 <= k < |events| :: Placed(run, events[k]))
    requires i < |Full(t, events)| && i' < |Full(t, events)| && Full(t, events)[i].id == Full(t, events)[i'].id
    ensures i == i'
  {
    var m, j := Locate(t, events, i);
    var m', j' := Locate(t, events, i');
    IdsAreDistinct(DeliveryCursor(events[m].cursor, j), DeliveryCursor(events[m'].cursor, j'));
    SamePlace(run, events, m, m');
  }

  lemma SamePlace(run: string, events: seq<Native>, m: nat, m': nat)
    requires Ordered(events) && m < |events| && m' < |events|
    requires Placed(run, events[m]) && Placed(run, events[m']) && events[m].cursor == events[m'].cursor
    ensures m == m'
  {
    var s, s' := events[m].sequence, events[m'].sequence;
    CursorsAreDistinct(run, s / STRIDE, s % STRIDE, s' / STRIDE, s' % STRIDE);
    assert s == s';
  }

  // ------------------------------------------------------------ any number of cuts

  function Offered<E>(connection: Opened<E>): seq<Delivery<E>> {
    if connection.Streaming? then connection.intent.deliveries else []
  }

  function AnswersOf<E>(world: World<E>): Answers<Delivery<E>> {
    header => Offered(Connect(world, header))
  }

  function IdOf<E>(d: Delivery<E>): string {
    d.id
  }

  /** A reader that has received the first `i` deliveries can go on. */
  predicate GoesOn<E>(world: World<E>, i: nat)
    requires i <= |FullOf(world)|
  {
    && !LeftBehind(world.t, WholeOf(world), i)
    && (i > 0 ==> world.frames != [] && IndexAt(world.t, WholeOf(world).events, i - 1) <= MAX_PROJECTION_INDEX)
  }

  lemma OfferedAt<E>(t: Translator<E>, whole: Outcome, i: nat, connection: Opened<E>, goes: bool)
    requires i <= |Full(t, whole.events)|
    requires if goes then connection == Streaming(Rest(t, whole, i)) else !connection.Streaming?
    ensures Offered(connection) == if goes then Full(t, whole.events)[i..] else []
  {
  }

  /** The header of a reader that has received the first `i` deliveries of a run. */
  function HeaderOf<E>(world: World<E>, i: nat): Option<string>
    requires i <= |FullOf(world)|
  {
    if i == 0 then None else Some(FullOf(world)[i - 1].id)
  }

  lemma ConnectsFrom<E>(world: World<E>, i: nat)
    requires Regular(world) && i <= |FullOf(world)|
    ensures var connection := Connect(world, HeaderOf(world, i));
            if GoesOn(world, i) then connection == Streaming(Rest(world.t, WholeOf(world), i))
            else !connection.Streaming?
  {
    var left, rest := LeftBehind(world.t, WholeOf(world), i), Streaming(Rest(world.t, WholeOf(world), i));
    if i == 0 {
      FreshIsFull(world);
      OneAnswer(Connect(world, None), false, false, left, rest);
    } else {
      EveryIdResumes(world, i - 1);
      OneAnswer(Connect(world, Some(FullOf(world)[i - 1].id)),
        IndexAt(world.t, WholeOf(world).events, i - 1) > MAX_PROJECTION_INDEX, world.frames == [], left, rest);
    }
  }

  lemma OneAnswer<E>(connection: Opened<E>, refused: bool, resync: bool, left: bool, rest: Opened<E>)
    requires connection ==
             if refused then Refused else if resync then ResyncRequired else if left then Unavailable else rest
    ensures if refused || resync || left then !connection.Streaming? else connection == rest
  {
  }

  /** A reader is offered everything it has not received, or nothing. */
  lemma AnswerAt<E>(world: World<E>, i: nat)
    requires Regular(world) && i <= |FullOf(world)|
    ensures Offered(Connect(world, HeaderOf(world, i))) == if GoesOn(world, i) then FullOf(world)[i..] else []
  {
    ConnectsFrom(world, i);
    OfferedAt(world.t, WholeOf(world), i, Connect(world, HeaderOf(world, i)), GoesOn(world, i));
  }

  lemma HeadersAre<E>(world: World<E>, i: nat)
    requires i <= |FullOf(world)|
    ensures HeaderAt(FullOf(world), IdOf, i) == HeaderOf(world, i)
  {
  }

  lemma AnswersAreFaithful<E>(world: World<E>)
    requires Regular(world)
    ensures Faithful(AnswersOf(world), IdOf, FullOf(world))
    ensures Complete(AnswersOf(world), IdOf, FullOf(world)) <==> forall i: nat | i < |FullOf(world)| :: GoesOn(world, i)
  {
    var full := FullOf(world);
    forall i: nat | i <= |full|
      ensures AnswersOf(world)(HeaderAt(full, IdOf, i)) in {[], full[i..]}
      ensures i < |full| ==> (AnswersOf(world)(HeaderAt(full, IdOf, i)) == full[i..] <==> GoesOn(world, i))
    {
      AnswerAt(world, i);
      HeadersAre(world, i);
    }
  }

  /**
   * However it is cut, a reader receives the stream's deliveries each once and in order; and it
   * receives as much as its cuts leave room for, whatever they are, exactly when it can go on from
   * every place before the end.
   */
  lemma NothingIsLostOrRepeated<E>(world: World<E>, cuts: seq<nat>)
    requires Regular(world)
    ensures Session(AnswersOf(world), IdOf, None, cuts) <= FullOf(world)
    ensures AlwaysWhole(AnswersOf(world), IdOf, FullOf(world))
            <==> forall i: nat | i < |FullOf(world)| :: GoesOn(world, i)
  {
    AnswersAreFaithful(world);
    SessionFrom(AnswersOf(world), IdOf, FullOf(world), 0, cuts);
    assert FullOf(world)[0..] == FullOf(world);
    WholeExactly(AnswersOf(world), IdOf, FullOf(world));
  }
}
