/**
 * Names for places in a run: native cursors (adapters/ag-ui/src/platform-authority.ts)
 * and the Last-Event-ID that wraps one with a projection index (runtime.ts).
 */
module Cursor {
  import opened Basics
  import opened Text
  import opened Decimal
  import opened PercentCoding

  const MAX_SAFE_INTEGER: nat := 9_007_199_254_740_991
  const STRIDE: nat := 8
  const MAX_NATIVE_CURSOR_BYTES: nat := 512
  const MAX_LAST_EVENT_ID_BYTES: nat := 2048
  const MAX_PROJECTION_INDEX: nat := 64

  // ------------------------------------------------------------ native cursors

  /** The sequence of the `ordinal`-th event of a progress frame, or none outside the bounds. */
  function NativeSequence(progress: int, ordinal: int): Option<nat> {
    var sequence := progress * STRIDE + ordinal;
    if 1 <= sequence <= MAX_SAFE_INTEGER && 1 <= ordinal < STRIDE then Some(sequence) else None
  }

  function NativeCursor(run: string, progress: nat, ordinal: nat): string {
    run + ":" + Digits(progress) + ":" + Digits(ordinal)
  }

  /** Text to a safe integer, as the host's own conversion reads it. */
  type Numbers = string -> Option<int>

  /** The one thing used of that conversion: it reads printed integers back. */
  ghost predicate ReadsDecimals(number: Numbers) {
    forall n: nat | n <= MAX_SAFE_INTEGER :: number(Digits(n)) == Some(n)
  }

  datatype Coordinate = Coordinate(sequence: nat, progress: nat)

  /** The place named by what follows the run in a cursor. */
  function Place(number: Numbers, text: string): Option<Coordinate> {
    var k := FirstColon(text);
    if k == |text| || !NoColon(text[k + 1..]) then None
    else
      var progress, ordinal := number(text[..k]), number(text[k + 1..]);
      if progress.None? || ordinal.None? || progress.value < 0 then None
      else
        var sequence := NativeSequence(progress.value, ordinal.value);
        if sequence.None? then None else Some(Coordinate(sequence.value, progress.value))
  }

  /** The place a cursor names in a run; the start when there is no cursor. */
  function CoordinateOf(number: Numbers, cursor: Option<string>, run: string): Option<Coordinate> {
    if cursor.None? then Some(Coordinate(0, 0))
    else
      var prefix := run + ":";
      if prefix <= cursor.value then Place(number, cursor.value[|prefix|..]) else None
  }

  lemma PlaceRoundTrip(number: Numbers, progress: nat, ordinal: nat)
    requires ReadsDecimals(number) && NativeSequence(progress, ordinal).Some?
    ensures Place(number, Digits(progress) + ":" + Digits(ordinal))
         == Some(Coordinate(progress * STRIDE + ordinal, progress))
  {
    var a, b := Digits(progress), Digits(ordinal);
    PrintedHasNoColon(progress);
    PrintedHasNoColon(ordinal);
    FirstColonAfter(a, b);
    var text := a + ":" + b;
    assert text[..|a|] == a && text[|a| + 1..] == b;
    assert number(a) == Some(progress) && number(b) == Some(ordinal);
  }

  /** A printed cursor is read back as its coordinates. */
  lemma CursorRoundTrip(number: Numbers, run: string, progress: nat, ordinal: nat)
    requires ReadsDecimals(number) && NativeSequence(progress, ordinal).Some?
    ensures CoordinateOf(number, Some(NativeCursor(run, progress, ordinal)), run)
         == Some(Coordinate(progress * STRIDE + ordinal, progress))
  {
    var prefix, text := run + ":", Digits(progress) + ":" + Digits(ordinal);
    assert NativeCursor(run, progress, ordinal) == prefix + text;
    StripsPrefix(prefix, text);
    PlaceRoundTrip(number, progress, ordinal);
  }

  /** Two cursors of a run are the same text only for the same place. */
  lemma CursorsAreDistinct(run: string, p: nat, o: nat, p': nat, o': nat)
    requires NativeCursor(run, p, o) == NativeCursor(run, p', o')
    ensures p == p' && o == o'
  {
    var s, s' := Digits(p) + ":" + Digits(o), Digits(p') + ":" + Digits(o');
    assert NativeCursor(run, p, o)[|run| + 1..] == s;
    assert NativeCursor(run, p', o')[|run| + 1..] == s';
    PrintedHasNoColon(p);
    PrintedHasNoColon(p');
    ColonSplits(Digits(p), Digits(o), Digits(p'), Digits(o'));
    PrintedOnce(p, p');
    PrintedOnce(o, o');
  }

  // ------------------------------------------------------------ Last-Event-ID

  const VERSION: string := "v1:"

  datatype DeliveryCursor = DeliveryCursor(native: string, index: nat)

  function Format(c: DeliveryCursor): string {
    VERSION + Encode(c.native) + ":" + Digits(c.index)
  }

  predicate Forbidden(c: char) {
    c as int < 0x20 || c as int == 0x7F
  }

  predicate NoneForbidden(s: string) {
    forall i | 0 <= i < |s| :: !Forbidden(s[i])
  }

  /** Text one line of a regular expression's dot may cover. */
  predicate OneLine(s: string) {
    forall i | 0 <= i < |s| :: s[i] as int !in {0xA, 0xD, 0x2028, 0x2029}
  }

  predicate AdmissibleCursor(s: string) {
    0 < Utf8Length(s) <= MAX_NATIVE_CURSOR_BYTES && NoneForbidden(s)
  }

  /** The delivery a Last-Event-ID names, or none when it is refused. */
  function Admit(value: string): Option<DeliveryCursor> {
    if !(0 < Utf8Length(value) <= MAX_LAST_EVENT_ID_BYTES) || !NoneForbidden(value) then None
    else
      var colon := LastColon(value);
      if colon.None? || colon.value < 3 || !(VERSION <= value) then None
      else AdmitParts(value[3..colon.value], value[colon.value + 1..])
  }

  function AdmitParts(encoded: string, index: string): Option<DeliveryCursor> {
    if !OneLine(encoded) || !Canonical(index) then None
    else
      var native := Decode(encoded);
      if native.None? || Encode(native.value) != encoded then None
      else if Value(index) > MAX_PROJECTION_INDEX || !AdmissibleCursor(native.value) then None
      else Some(DeliveryCursor(native.value, Value(index)))
  }

  lemma AdmittedParts(encoded: string, index: string)
    requires AdmitParts(encoded, index).Some?
    ensures var c := AdmitParts(encoded, index).value; Encode(c.native) == encoded && Digits(c.index) == index
  {
    ValueRoundTrip(index);
  }

  lemma PartsOf(version: string, encoded: string, index: string)
    requires NoColon(index)
    ensures var s := version + encoded + ":" + index; var k := |version| + |encoded|;
            && LastColon(s) == Some(k) && version <= s && s[|version|..k] == encoded && s[k + 1..] == index
  {
    LastColonBefore(version + encoded, index);
  }

  lemma FormatParts(c: DeliveryCursor)
    ensures var s := Format(c); var k := 3 + |Encode(c.native)|;
            && LastColon(s) == Some(k) && VERSION <= s && s[3..k] == Encode(c.native) && s[k + 1..] == Digits(c.index)
  {
    var version, encoded, index := VERSION, Encode(c.native), Digits(c.index);
    PrintedHasNoColon(c.index);
    assert |version| == 3;
    assert Format(c) == version + encoded + ":" + index;
    PartsOf(version, encoded, index);
  }

  predicate Printable(s: string) {
    forall i | 0 <= i < |s| :: 0x20 <= s[i] as int < 0x7F
  }

  lemma PrintableParts(version: string, encoded: string, index: string)
    requires Printable(version) && Printable(encoded) && Printable(index)
    ensures Printable(version + encoded + ":" + index)
  {
  }

  lemma PrintableIsAscii(s: string)
    requires Printable(s)
    ensures Utf8Length(s) == |s| && NoneForbidden(s) && OneLine(s)
  {
    AsciiLength(s);
  }

  lemma FormatIsShort(c: DeliveryCursor)
    requires Utf8Length(c.native) <= MAX_NATIVE_CURSOR_BYTES && c.index <= MAX_PROJECTION_INDEX
    ensures 0 < Utf8Length(Format(c)) <= MAX_LAST_EVENT_ID_BYTES
    ensures NoneForbidden(Format(c)) && OneLine(Encode(c.native))
  {
    EncodedIsPlain(c.native);
    PlainIsPrintable(Encode(c.native));
    DigitsRoundTrip(c.index);
    SmallDigits(c.index);
    PrintableParts(VERSION, Encode(c.native), Digits(c.index));
    PrintableIsAscii(Format(c));
    PrintableIsAscii(Encode(c.native));
  }

  lemma PlainIsPrintable(s: string)
    requires forall i | 0 <= i < |s| :: Plain(s[i])
    ensures Printable(s)
  {
    forall i | 0 <= i < |s| ensures 0x20 <= s[i] as int < 0x7F {
      assert Plain(s[i]);
    }
  }

  lemma AdmitsWithinBounds(c: DeliveryCursor)
    ensures Admit(Format(c)) == Some(c) <==> AdmissibleCursor(c.native) && c.index <= MAX_PROJECTION_INDEX
  {
    FormatParts(c);
    DigitsRoundTrip(c.index);
    DecodeRoundTrip(c.native);
    if AdmissibleCursor(c.native) && c.index <= MAX_PROJECTION_INDEX {
      FormatIsShort(c);
    }
  }

  /** Everything admitted is spelled the one way this side prints it. */
  lemma AdmittedIsFormatted(value: string)
    requires Admit(value).Some?
    ensures Format(Admit(value).value) == value
  {
    var k := LastColon(value).value;
    AdmittedParts(value[3..k], value[k + 1..]);
    Rejoined(value, 3, k);
    assert value[..3] == VERSION;
  }

  lemma IdsAreDistinct(c: DeliveryCursor, c': DeliveryCursor)
    requires Format(c) == Format(c')
    ensures c == c'
  {
    FormatParts(c);
    FormatParts(c');
    DigitsRoundTrip(c.index);
    DigitsRoundTrip(c'.index);
    DecodeRoundTrip(c.native);
    DecodeRoundTrip(c'.native);
  }

  /**
   * An id this side printed is admitted as what it was printed from when that is within
   * the bounds, and refused otherwise.
   */
  lemma AdmitsFormatted(c: DeliveryCursor)
    ensures Admit(Format(c)) == if AdmissibleCursor(c.native) && c.index <= MAX_PROJECTION_INDEX then Some(c) else None
  {
    AdmitsWithinBounds(c);
    if Admit(Format(c)).Some? {
      AdmittedIsFormatted(Format(c));
      IdsAreDistinct(c, Admit(Format(c)).value);
    }
  }
}
