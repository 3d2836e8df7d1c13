/**
 * Reconnecting (adapters/ag-ui/src/platform-authority.ts and runtime.ts): a reader who
 * names the last event received is sent exactly the events after it, however often it is cut off.
 */
module Resume {
  import opened Basics
  import opened Text
  import opened Decimal
  import opened Cursor
  import opened Projection
  import opened Generator
  import opened GeneratorRuns
  import opened Delivery
  import opened Pump

  /** Everything a run's deliveries depend on. */
  datatype World<!E> = World(setting: Setting, frames: seq<Frame>, ending: Ending, number: Numbers, t: Translator<E>)

  datatype Opened<E> = Refused | Unavailable | ResyncRequired | Streaming(intent: Intent<E>)

  function WholeOf<E>(world: World<E>): Outcome {
    Whole(world.setting, world.frames, world.ending)
  }

  /** What a request with the given Last-Event-ID is answered with. */
  function Connect<E>(world: World<E>, header: Option<string>): Opened<E> {
    var cursor := if header.None? then None else Admit(header.value);
    if header.Some? && cursor.None? then Refused
    else
      var named := if cursor.None? then None else Some(cursor.value.native);
      var place := CoordinateOf(world.number, named, world.setting.run);
      if place.None? then Unavailable
      else if world.frames == [] && cursor.Some? then ResyncRequired
      else OpenAt(world.t, WholeOf(world), cursor, place.value.sequence)
  }

  /** The stream from a place; an exception before the first event to yield fails the request. */
  function OpenAt<E>(t: Translator<E>, whole: Outcome, cursor: Option<DeliveryCursor>, sequence: nat): Opened<E> {
    var live := Above(whole.events, sequence);
    if whole.faulted && live == [] then Unavailable
    else Streaming(Intended(t, HandedOver(whole.events, sequence), live, whole.faulted, cursor))
  }

  /** One request, from its header to the close of its stream. */
  method Handle<E>(world: World<E>, header: Option<string>, w: Wire<E>)
    returns (streamed: bool, sent: seq<Delivery<E>>, closing: Closing)
    ensures streamed <==> Connect(world, header).Streaming?
    ensures streamed ==> Serves(world.t, w, if header.None? then None else Admit(header.value),
                                Connect(world, header).intent, sent, closing)
    ensures !streamed ==> sent == []
  {
    streamed, sent, closing := false, [], Finished;
    var cursor := if header.None? then None else Admit(header.value);
    if header.Some? && cursor.None? {
      return;
    }
    var native := if cursor.None? then None else Some(cursor.value.native);
    var place := CoordinateOf(world.number, native, world.setting.run);
    if place.None? || (world.frames == [] && cursor.Some?) {
      return;
    }
    var replay, live, faulted := Generate(world.setting, world.frames, world.ending, place.value.sequence);
    if faulted && live == [] {
      return;
    }
    streamed := true;
    sent, closing := Serve(world.t, replay, live, faulted, cursor, w);
  }

  // ------------------------------------------------------------ places in the full stream

  function FullOf<E>(world: World<E>): seq<Delivery<E>> {
    Full(world.t, WholeOf(world).events)
  }

  /** The delivery at a position is the `j`-th projection of the `m`-th native event. */
  ghost predicate Located<E>(t: Translator<E>, history: seq<Native>, i: nat, m: nat, j: nat) {
    && m < |history| && Accepts(t, history[..m + 1]) && j < |t.push(history[..m + 1]).value|
    && i == |Full(t, history[..m])| + j
    && |Full(t, history[..m + 1])| == |Full(t, history[..m])| + |t.push(history[..m + 1]).value|
  }

  /** Which projection of its native event the delivery at a position is. */
  function IndexAt<E>(t: Translator<E>, history: seq<Native>, i: nat): nat
    requires i < |Full(t, history)|
  {
    var front := history[..|history| - 1];
    if i < |Full(t, front)| then IndexAt(t, front, i) else i - |Full(t, front)|
  }

  /** Everything about where a delivery comes from. */
  ghost predicate Comes<E>(t: Translator<E>, history: seq<Native>, i: nat, m: nat, j: nat) {
    && Located(t, history, i, m, j)
    && i < |Full(t, history)| && j == IndexAt(t, history, i)
    && Full(t, history)[i] == Named(history[m].cursor, t.push(history[..m + 1]).value)[j]
  }

  lemma {:induction false} Locate<E>(t: Translator<E>, history: seq<Native>, i: nat) returns (m: nat, j: nat)
    requires i < |Full(t, history)|
    ensures Comes(t, history, i, m, j)
    decreases |history|
  {
    var n := |history| - 1;
    if i < |Full(t, history[..n])| {
      m, j := Locate(t, history[..n], i);
      InTheFront(t, history, i, m, j);
    } else {
      m, j := n, i - |Full(t, history[..n])|;
      InTheLast(t, history, i);
    }
  }

  lemma InTheFront<E>(t: Translator<E>, history: seq<Native>, i: nat, m: nat, j: nat)
    requires history != [] && Comes(t, history[..|history| - 1], i, m, j)
    ensures Comes(t, history, i, m, j)
  {
    var front := history[..|history| - 1];
    PrefixesOf(history, m);
    assert Full(t, history) == Full(t, front) + Pushed(t, history);
    assert IndexAt(t, history, i) == IndexAt(t, front, i);
  }

  lemma InTheLast<E>(t: Translator<E>, history: seq<Native>, i: nat)
    requires history != [] && |Full(t, history[..|history| - 1])| <= i < |Full(t, history)|
    ensures var m := |history| - 1; Comes(t, history, i, m, i - |Full(t, history[..m])|)
  {
    var m := |history| - 1;
    assert history[..m + 1] == history;
    assert Full(t, history) == Full(t, history[..m]) + Pushed(t, history);
  }

  lemma PrefixesOf<T>(s: seq<T>, m: nat)
    requires m + 1 < |s|
    ensures var front := s[..|s| - 1]; front[..m + 1] == s[..m + 1] && front[..m] == s[..m] && front[m] == s[m]
  {
  }

  /** From there, the rest of that event's projections and everything after make up the rest. */
  lemma RestIsTailAndAfter<E>(t: Translator<E>, history: seq<Native>, i: nat, m: nat, j: nat)
    requires Located(t, history, i, m, j)
    ensures Matches(t, history[..m + 1], DeliveryCursor(history[m].cursor, j))
    ensures i < |Full(t, history)|
    ensures Tail(t, history[..m + 1], DeliveryCursor(history[m].cursor, j))
            + After(t, history[..m + 1], history[m + 1..])
         == Full(t, history)[i + 1..]
  {
    var replay, live := history[..m + 1], history[m + 1..];
    var out := Named(history[m].cursor, t.push(replay).value);
    assert replay[|replay| - 1] == history[m] && replay + live == history && replay[..m] == history[..m];
    FullGrows(t, history, m + 1);
    assert Full(t, replay) == Full(t, history[..m]) + out;
    Suffixes(Full(t, history[..m]), out, Full(t, history), j);
  }

  lemma Suffixes<T>(a: seq<T>, b: seq<T>, all: seq<T>, j: nat)
    requires a + b <= all && j < |b|
    ensures |a| + j < |all| && b[j + 1..] + all[|a + b|..] == all[|a| + j + 1..]
  {
    assert all == a + b + all[|a + b|..];
  }

  // ------------------------------------------------------------ ids that come back

  function PowerOfTen(k: nat): nat {
    if k == 0 then 1 else 10 * PowerOfTen(k - 1)
  }

  lemma {:induction false} DigitsBound(n: nat, k: nat)
    requires k >= 1 && n < PowerOfTen(k)
    ensures |Digits(n)| <= k
  {
    if n >= 10 {
      assert PowerOfTen(k) == 10 * PowerOfTen(k - 1);
      DigitsBound(n / 10, k - 1);
    }
  }

  lemma SafeDigits(n: nat)
    requires n <= MAX_SAFE_INTEGER
    ensures |Digits(n)| <= 16
  {
    assert PowerOfTen(4) == 10000;
    assert PowerOfTen(8) == 10000 * PowerOfTen(4);
    assert PowerOfTen(12) == 10000 * PowerOfTen(8);
    assert PowerOfTen(16) == 10000 * PowerOfTen(12);
    DigitsBound(n, 16);
  }

  /** A run identifier short and clean enough for its cursors to be admitted. */
  predicate CleanRun(run: string) {
    NoneForbidden(run) && Utf8Length(run) <= MAX_NATIVE_CURSOR_BYTES - 34
  }

  lemma CursorsAreAdmissible(run: string, progress: nat, ordinal: nat)
    requires CleanRun(run) && progress <= MAX_SAFE_INTEGER && ordinal <= MAX_SAFE_INTEGER
    ensures AdmissibleCursor(NativeCursor(run, progress, ordinal))
  {
    var a, b := Digits(progress), Digits(ordinal);
    SafeDigits(progress);
    SafeDigits(ordinal);
    DigitsRoundTrip(progress);
    DigitsRoundTrip(ordinal);
    DigitsArePrintable(a, b);
    AssembledIsAdmissible(run, ":" + a + ":" + b);
    Regrouped(run, ":", a, ":", b);
  }

  lemma Regrouped<T>(a: seq<T>, b: seq<T>, c: seq<T>, d: seq<T>, e: seq<T>)
    ensures a + b + c + d + e == a + (b + c + d + e)
  {
  }

  lemma AssembledIsAdmissible(run: string, text: string)
    requires CleanRun(run) && Printable(text) && 0 < |text| <= 34
    ensures AdmissibleCursor(run + text)
  {
    PrintableIsAscii(text);
    Utf8LengthAdds(run, text);
  }

  lemma DigitsArePrintable(a: string, b: string)
    requires AllDigits(a) && AllDigits(b)
    ensures Printable(":" + a + ":" + b)
  {
  }

  /** What the theorems ask of a run: frames in order, a clean name, a faithful number reader. */
  ghost predicate Regular<E>(world: World<E>) {
    Increasing(world.frames) && CleanRun(world.setting.run) && ReadsDecimals(world.number)
  }

  /**
   * The id of a projection is admitted as what it was printed from, up to the bound on its
   * index, and refused beyond.
   */
  lemma IdsComeBack(run: string, e: Native, j: nat)
    requires CleanRun(run) && Placed(run, e)
    ensures Admit(Format(DeliveryCursor(e.cursor, j)))
         == if j <= MAX_PROJECTION_INDEX then Some(DeliveryCursor(e.cursor, j)) else None
  {
    CursorsAreAdmissible(run, e.sequence / STRIDE, e.sequence % STRIDE);
    AdmitsFormatted(DeliveryCursor(e.cursor, j));
  }

  /** The place a delivered cursor names is its event's own. */
  lemma PlacesComeBack(number: Numbers, run: string, e: Native)
    requires ReadsDecimals(number) && Placed(run, e)
    ensures CoordinateOf(number, Some(e.cursor), run) == Some(Coordinate(e.sequence, e.sequence / STRIDE))
  {
    CursorRoundTrip(number, run, e.sequence / STRIDE, e.sequence % STRIDE);
  }
}
