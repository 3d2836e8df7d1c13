/**
 * A reader of a run, end to end: it connects over one wire after another, each time naming the
 * last event it received, and holds a first part of the run's deliveries that grows whenever it can.
 */
module Reader {
  import opened Basics
  import opened Cursor
  import opened Projection
  import opened Delivery
  import opened Pump
  import opened Resume
  import opened Sessions
  import opened ExactlyOnce
  import opened StreamTranslator

  // ------------------------------------------------------------ what a wire lets through

  /** The most of the deliveries, at least `n` of them, that a wire lets through. */
  ghost function MostFrom<E>(w: Wire<E>, ds: seq<Delivery<E>>, n: nat): nat
    requires n <= |ds|
    decreases |ds| - n
  {
    if n < |ds| && Fits(w, ds, n + 1) then MostFrom(w, ds, n + 1) else n
  }

  ghost function Most<E>(w: Wire<E>, ds: seq<Delivery<E>>): nat {
    MostFrom(w, ds, 0)
  }

  lemma FitsOneLess<E>(w: Wire<E>, ds: seq<Delivery<E>>, n: nat)
    requires n < |ds| && Fits(w, ds, n + 1)
    ensures Fits(w, ds, n)
  {
    assert ds[..n + 1][..n] == ds[..n];
  }

  lemma {:induction false} FitsLess<E>(w: Wire<E>, ds: seq<Delivery<E>>, n: nat, m: nat)
    requires m <= n <= |ds| && Fits(w, ds, n)
    ensures Fits(w, ds, m)
    decreases n
  {
    if m < n {
      FitsOneLess(w, ds, n - 1);
      FitsLess(w, ds, n - 1, m);
    }
  }

  /** Where a wire stops is where it must. */
  lemma {:induction false} MostIs<E>(w: Wire<E>, ds: seq<Delivery<E>>, n: nat, m: nat)
    requires m <= n <= |ds| && Fits(w, ds, n) && (n < |ds| ==> !Fits(w, ds, n + 1))
    ensures MostFrom(w, ds, m) == n
    decreases n - m
  {
    if m < n {
      FitsLess(w, ds, n, m + 1);
      MostIs(w, ds, n, m + 1);
    }
  }

  // ------------------------------------------------------------ the reader

  /** How many deliveries a reader holds after the given wires. */
  ghost function Held<E>(world: World<E>, wires: seq<Wire<E>>): (n: nat)
    ensures n <= |FullOf(world)|
  {
    if wires == [] then 0
    else
      var i := Held(world, wires[..|wires| - 1]);
      if GoesOn(world, i) then i + Gained(wires[|wires| - 1], FullOf(world)[i..]) else i
  }

  ghost function Gained<E>(w: Wire<E>, ds: seq<Delivery<E>>): (n: nat)
    ensures n <= |ds|
  {
    MostIsWithin(w, ds, 0);
    Most(w, ds)
  }

  lemma {:induction false} MostIsWithin<E>(w: Wire<E>, ds: seq<Delivery<E>>, n: nat)
    requires n <= |ds|
    ensures n <= MostFrom(w, ds, n) <= |ds|
    decreases |ds| - n
  {
    if n < |ds| && Fits(w, ds, n + 1) {
      MostIsWithin(w, ds, n + 1);
    }
  }

  /** A wire that lets one through gains one at least, and one that lets all through gains all. */
  lemma GainedAtLeast<E>(w: Wire<E>, ds: seq<Delivery<E>>)
    ensures Fits(w, ds, 1) ==> Gained(w, ds) >= 1
    ensures Fits(w, ds, |ds|) ==> Gained(w, ds) == |ds|
  {
    if Fits(w, ds, 1) {
      MostIsWithin(w, ds, 1);
    }
    if Fits(w, ds, |ds|) {
      MostIs(w, ds, |ds|, 0);
    }
  }

  lemma HeldAfter<E>(world: World<E>, wires: seq<Wire<E>>, w: Wire<E>)
    ensures var i := Held(world, wires);
            Held(world, wires + [w]) == if GoesOn(world, i) then i + Gained(w, FullOf(world)[i..]) else i
  {
    assert (wires + [w])[..|wires|] == wires;
  }

  /** The reader never goes back, and goes forward over every wire that lets its next delivery through. */
  lemma HeldGrows<E>(world: World<E>, wires: seq<Wire<E>>, w: Wire<E>)
    ensures Held(world, wires) <= Held(world, wires + [w])
    ensures GoesOn(world, Held(world, wires)) && Fits(w, FullOf(world)[Held(world, wires)..], 1) ==>
            Held(world, wires) < Held(world, wires + [w])
  {
    HeldAfter(world, wires, w);
    GainedAtLeast(w, FullOf(world)[Held(world, wires)..]);
  }

  /** A wire that lets everything through that is left brings the reader to the end. */
  lemma HeldToTheEnd<E>(world: World<E>, wires: seq<Wire<E>>, w: Wire<E>)
    requires var i := Held(world, wires); GoesOn(world, i) && Fits(w, FullOf(world)[i..], |FullOf(world)[i..]|)
    ensures Held(world, wires + [w]) == |FullOf(world)|
  {
    HeldAfter(world, wires, w);
    GainedAtLeast(w, FullOf(world)[Held(world, wires)..]);
  }

  /** One connection of a reader that holds the first `i` deliveries. */
  lemma ServedFrom<E>(world: World<E>, w: Wire<E>, cursor: Option<DeliveryCursor>, i: nat,
                      sent: seq<Delivery<E>>, closing: Closing)
    requires i <= |FullOf(world)|
    requires Serves(world.t, w, cursor, Rest(world.t, WholeOf(world), i), sent, closing)
    ensures sent == FullOf(world)[i..][..Gained(w, FullOf(world)[i..])]
  {
    var rest := FullOf(world)[i..];
    MostIs(w, rest, |sent|, 0);
    assert sent == rest[..|sent|];
  }

  /** What a reader gains over one wire. */
  ghost function Next<E>(world: World<E>, i: nat, w: Wire<E>): seq<Delivery<E>>
    requires i <= |FullOf(world)|
  {
    if GoesOn(world, i) then FullOf(world)[i..][..Gained(w, FullOf(world)[i..])] else []
  }

  lemma NextIsFirstPart<E>(world: World<E>, i: nat, w: Wire<E>)
    requires i <= |FullOf(world)|
    ensures Next(world, i, w) <= FullOf(world)[i..]
    ensures i + |Next(world, i, w)| == if GoesOn(world, i) then i + Gained(w, FullOf(world)[i..]) else i
  {
  }

  lemma Advances<E>(full: seq<Delivery<E>>, i: nat, sent: seq<Delivery<E>>)
    requires i <= |full| && sent <= full[i..]
    ensures i + |sent| <= |full| && full[..i] + sent == full[..i + |sent|]
    ensures sent != [] ==> sent[|sent| - 1] == full[i + |sent| - 1]
  {
  }

  method ReadOnce<E>(world: World<E>, header: Option<string>, w: Wire<E>, ghost i: nat) returns (sent: seq<Delivery<E>>)
    requires Regular(world) && i <= |FullOf(world)| && header == HeaderOf(world, i)
    ensures sent == Next(world, i, w)
  {
    ConnectsFrom(world, i);
    var streamed, closing;
    streamed, sent, closing := Handle(world, header, w);
    if streamed {
      ServedFrom(world, w, if header.None? then None else Admit(header.value), i, sent, closing);
    }
  }

  /** One connection more: what the reader then holds, and the header it comes back with. */
  method ReadOn<E>(world: World<E>, got: seq<Delivery<E>>, header: Option<string>, w: Wire<E>)
    returns (got': seq<Delivery<E>>, header': Option<string>)
    requires Regular(world) && got <= FullOf(world) && header == HeaderOf(world, |got|)
    ensures got' <= FullOf(world) && |got'| == |got| + |Next(world, |got|, w)|
    ensures header' == HeaderOf(world, |got'|)
  {
    var sent := ReadOnce(world, header, w, |got|);
    NextIsFirstPart(world, |got|, w);
    Advances(FullOf(world), |got|, sent);
    got', header' := got + sent, header;
    if sent != [] {
      header' := Some(sent[|sent| - 1].id);
    }
  }

  lemma HeldNext<E>(world: World<E>, wires: seq<Wire<E>>, k: nat)
    requires k < |wires|
    ensures var i := Held(world, wires[..k]); Held(world, wires[..k + 1]) == i + |Next(world, i, wires[k])|
  {
    assert wires[..k + 1] == wires[..k] + [wires[k]];
    HeldAfter(world, wires[..k], wires[k]);
    NextIsFirstPart(world, Held(world, wires[..k]), wires[k]);
  }

  /** Connect over each wire in turn with the last id received. */
  method Read<E>(world: World<E>, wires: seq<Wire<E>>) returns (got: seq<Delivery<E>>)
    requires Regular(world)
    ensures got <= FullOf(world) && |got| == Held(world, wires)
  {
    got := [];
    var header: Option<string> := None;
    for k := 0 to |wires|
      invariant got <= FullOf(world) && |got| == Held(world, wires[..k])
      invariant header == HeaderOf(world, |got|)
    {
      HeldNext(world, wires, k);
      got, header := ReadOn(world, got, header, wires[k]);
    }
    assert wires[..|wires|] == wires;
  }

  // ------------------------------------------------------------ with the adapter's own translator

  lemma {:induction false} IndexIsSmall(valid: Validity, history: seq<Native>, i: nat)
    requires i < |Full(TheTranslator(valid), history)|
    ensures IndexAt(TheTranslator(valid), history, i) <= 2
  {
    var t, front := TheTranslator(valid), history[..|history| - 1];
    if i < |Full(t, front)| {
      IndexIsSmall(valid, front, i);
    }
  }

  /** With the adapter's own translator a run that has frames and does not throw is always received whole. */
  lemma TheAdapterLosesNothing(world: World<AgEvent>, valid: Validity)
    requires Regular(world) && world.t == TheTranslator(valid)
    requires world.frames != [] && !WholeOf(world).faulted
    ensures AlwaysWhole(AnswersOf(world), IdOf, FullOf(world))
  {
    forall i: nat | i < |FullOf(world)| ensures GoesOn(world, i) {
      if i > 0 {
        IndexIsSmall(valid, WholeOf(world).events, i - 1);
      }
    }
    NothingIsLostOrRepeated(world, []);
  }

  // ------------------------------------------------------------ where it does lose

  const ANY: Validity := _ => true

  /** A run that is never given a frame: it is announced and finished. */
  function Frameless(setting: Setting, number: Numbers): World<AgEvent> {
    World(setting, [], Retired(None), number, TheTranslator(ANY))
  }

  lemma FramelessIsDelivered(setting: Setting, number: Numbers)
    ensures var world := Frameless(setting, number);
            && !WholeOf(world).faulted && |FullOf(world)| == 2
            && FullOf(world)[0].event == RunStart(setting.parent) && FullOf(world)[1].event == RunSucceeded
  {
    var world := Frameless(setting, number);
    var events := WholeOf(world).events;
    assert |events| == 2 && events[0].body == RunStarted(setting.parent) && events[1].body == RunFinished;
    TwoPushed(events);
  }

  /** An accepted event adds its translation. */
  lemma OneMore(history: seq<Native>, e: Native)
    requires GuardAfter(ANY, history + [e]).Some?
    ensures Full(TheTranslator(ANY), history + [e])
         == Full(TheTranslator(ANY), history) + Named(e.cursor, Translate(e.body))
  {
    assert (history + [e])[..|history|] == history;
    AcceptsAsGuarded(ANY, history);
    AcceptsAsGuarded(ANY, history + [e]);
    PushedLast(TheTranslator(ANY), history, e);
  }

  lemma Started(e: Native)
    requires e.body.RunStarted? && e.body.carried == [] && 1 <= e.sequence
    ensures GuardAfter(ANY, [e])
         == Some(UNSTARTED.(started := true, last := e.sequence, count := 1, cursor := Some(e.cursor)))
    ensures Full(TheTranslator(ANY), [e]) == Named(e.cursor, Translate(e.body))
  {
    assert [e][..0] == [] && [] + [e] == [e];
    assert UNSTARTED.awaiting + Carried(e.body.carried) == {};
    OneMore([], e);
    EmptyPrefix(Named(e.cursor, Translate(e.body)));
  }

  lemma TwoPushed(events: seq<Native>)
    requires |events| == 2 && events[0].body.RunStarted? && events[1].body.RunFinished?
    requires events[0].body.carried == [] && 1 <= events[0].sequence < events[1].sequence
    ensures var full := Full(TheTranslator(ANY), events);
            |full| == 2 && full[0].event == RunStart(events[0].body.parent) && full[1].event == RunSucceeded
  {
    Started(events[0]);
    assert events == [events[0]] + [events[1]] && events[..1] == [events[0]];
    OneMore([events[0]], events[1]);
  }

  /** A run without a frame is streamed and cannot be resumed: the id of its first event is answered with a resync. */
  lemma ARunWithoutAFrame(setting: Setting, number: Numbers)
    requires CleanRun(setting.run) && ReadsDecimals(number)
    ensures var world := Frameless(setting, number);
            && Connect(world, None) == Streaming(Rest(world.t, WholeOf(world), 0)) && |FullOf(world)| == 2
            && Connect(world, Some(FullOf(world)[0].id)) == ResyncRequired
  {
    var world := Frameless(setting, number);
    FramelessIsDelivered(setting, number);
    FreshIsFull(world);
    EveryIdResumes(world, 0);
    IndexIsSmall(ANY, WholeOf(world).events, 0);
  }

  /** A run that gives one message and then throws. */
  function Thrown(setting: Setting, number: Numbers): World<AgEvent> {
    World(setting, [Frame(1, AssistantCompleted, Some("x"))], Broken, number, TheTranslator(ANY))
  }

  lemma ThrownIsDelivered(setting: Setting, number: Numbers)
    requires setting.resume == {}
    ensures var world := Thrown(setting, number); var whole := WholeOf(world);
            && whole.faulted && |whole.events| == 2
            && whole.events[0].body == RunStarted(setting.parent)
            && whole.events[1].body == MessageCompleted(MessageId(setting), "x")
            && 1 <= whole.events[0].sequence < whole.events[1].sequence
  {
    var world := Thrown(setting, number);
    assert world.frames[..0] == [];
    assert Ran(setting, world.frames) == Projection.Step(setting, Begin(setting), world.frames[0]);
  }

  lemma FourPushed(first: Native, second: Native)
    requires first.body.RunStarted? && first.body.carried == [] && second.body.MessageCompleted?
    requires 1 <= first.sequence < second.sequence
    ensures |Full(TheTranslator(ANY), [first])| == 1 && |Full(TheTranslator(ANY), [first] + [second])| == 4
  {
    Started(first);
    AdmitsNext(first, second);
    OneMore([first], second);
  }

  lemma AdmitsNext(first: Native, second: Native)
    requires first.body.RunStarted? && first.body.carried == [] && second.body.MessageCompleted?
    requires 1 <= first.sequence < second.sequence
    ensures GuardAfter(ANY, [first] + [second]).Some?
  {
    assert ([first] + [second])[..1] == [first];
    Started(first);
  }

  /** A reader cut off inside the last event of a run that threw never gets the rest of that event. */
  lemma AReaderLeftBehind(setting: Setting, number: Numbers)
    requires setting.resume == {} && CleanRun(setting.run) && ReadsDecimals(number)
    ensures var world := Thrown(setting, number);
            && Connect(world, None) == Streaming(Rest(world.t, WholeOf(world), 0)) && |FullOf(world)| == 4
            && Connect(world, Some(FullOf(world)[1].id)) == Unavailable
  {
    var world := Thrown(setting, number);
    ThrownIsDelivered(setting, number);
    var events := WholeOf(world).events;
    FourPushed(events[0], events[1]);
    assert events == [events[0]] + [events[1]] && events[..1] == [events[0]];
    FreshIsFull(world);
    EveryIdResumes(world, 1);
    IndexIsSmall(ANY, events, 1);
  }

  /** A translator that gives 66 projections for every event. */
  const WIDE: Translator<nat> := Translator(_ => Some(seq(66, j => j)), _ => true, _ => false)

  function Widened(setting: Setting, number: Numbers): World<nat> {
    World(setting, [Frame(1, TurnStarted, None)], Retired(None), number, WIDE)
  }

  lemma FirstIsWide(e: Native, e': Native)
    ensures |Full(WIDE, [e, e'])| == 132 && IndexAt(WIDE, [e, e'], 65) == 65
  {
    assert [] + [e] == [e] && [e] + [e'] == [e, e'];
    assert WIDE.push([e]).Some? && |WIDE.push([e]).value| == 66;
    assert WIDE.push([e, e']).Some? && |WIDE.push([e, e']).value| == 66;
    PushedLast(WIDE, [], e);
    PushedLast(WIDE, [e], e');
    assert [e, e'][..1] == [e] && [e][..0] == [];
  }

  lemma WidenedRuns(setting: Setting, number: Numbers)
    requires setting.resume == {}
    ensures !WholeOf(Widened(setting, number)).faulted && |WholeOf(Widened(setting, number)).events| == 2
  {
    var world := Widened(setting, number);
    assert world.frames[..0] == [];
    assert Ran(setting, world.frames) == Projection.Step(setting, Begin(setting), world.frames[0]);
  }

  /** The bound on the index matters: with 66 projections the id of the last of them is refused, half way. */
  lemma AProjectionTooFar(setting: Setting, number: Numbers)
    requires setting.resume == {} && CleanRun(setting.run) && ReadsDecimals(number)
    ensures var world := Widened(setting, number);
            |FullOf(world)| == 132 && Connect(world, Some(FullOf(world)[65].id)) == Refused
  {
    var world := Widened(setting, number);
    WidenedRuns(setting, number);
    var events := WholeOf(world).events;
    assert events == [events[0], events[1]];
    FirstIsWide(events[0], events[1]);
    EveryIdResumes(world, 65);
  }
}
