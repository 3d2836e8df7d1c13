/** Percent-encoding of URI components (encodeURIComponent and decodeURIComponent of ECMAScript). */
module PercentCoding {
  import opened Basics
  import opened Text

  /** Characters left as they are. */
  predicate Unreserved(c: char) {
    IsAlphanumeric(c) || c in "-_.!~*'()"
  }

  function HexDigit(v: nat): char
    requires v < 16
  {
    if v < 10 then ('0' as int + v) as char else ('A' as int + v - 10) as char
  }

  function HexValue(c: char): Option<nat> {
    if '0' <= c <= '9' then Some(c as int - '0' as int)
    else if 'A' <= c <= 'F' then Some(c as int - 'A' as int + 10)
    else if 'a' <= c <= 'f' then Some(c as int - 'a' as int + 10)
    else None
  }

  function Escaped(b: byte): string {
    ['%', HexDigit(b / 16), HexDigit(b % 16)]
  }

  function EncodeChar(c: char): string {
    var n := c as int;
    if Unreserved(c) then [c]
    else if n < 0x80 then Escaped(n)
    else if n < 0x800 then Escaped(0xC0 + n / 64) + Escaped(0x80 + n % 64)
    else if n < 0x1_0000 then Escaped(0xE0 + n / 4096) + Escaped(0x80 + n / 64 % 64) + Escaped(0x80 + n % 64)
    else
      Escaped(0xF0 + n / 0x4_0000) + Escaped(0x80 + n / 4096 % 64)
      + Escaped(0x80 + n / 64 % 64) + Escaped(0x80 + n % 64)
  }

  function Encode(s: string): string {
    if s == "" then "" else EncodeChar(s[0]) + Encode(s[1..])
  }

  // ------------------------------------------------------------ decoding

  /** The byte escaped at a position. */
  function EscapedAt(s: string, i: nat): Option<byte> {
    if i + 3 <= |s| && s[i] == '%' && HexValue(s[i + 1]).Some? && HexValue(s[i + 2]).Some?
    then Some(16 * HexValue(s[i + 1]).value + HexValue(s[i + 2]).value)
    else None
  }

  /** The low six bits of the continuation byte escaped at a position. */
  function Continuation(s: string, i: nat): Option<nat> {
    var b := EscapedAt(s, i);
    if b.Some? && 0x80 <= b.value < 0xC0 then Some(b.value - 0x80) else None
  }

  predicate Scalar(n: int) {
    0 <= n < 0xD800 || 0xE000 <= n < 0x11_0000
  }

  function Decoded(n: nat, least: nat, width: nat): Option<(char, nat)> {
    if least <= n && Scalar(n) then Some((n as char, width)) else None
  }

  function Multibyte(s: string, lead: byte): Option<(char, nat)> {
    var a, b, c := Continuation(s, 3), Continuation(s, 6), Continuation(s, 9);
    if a.None? then None
    else if 0xC0 <= lead < 0xE0 then Decoded((lead - 0xC0) * 64 + a.value, 0x80, 6)
    else if b.None? then None
    else if 0xE0 <= lead < 0xF0 then Decoded((lead - 0xE0) * 4096 + a.value * 64 + b.value, 0x800, 9)
    else if c.None? then None
    else if 0xF0 <= lead < 0xF8
    then Decoded((lead - 0xF0) * 0x4_0000 + a.value * 4096 + b.value * 64 + c.value, 0x1_0000, 12)
    else None
  }

  /** The next character and how much text spells it, or none where the text is malformed. */
  function Next(s: string): (r: Option<(char, nat)>)
    requires s != ""
    ensures r.Some? ==> 1 <= r.value.1 <= |s|
  {
    if s[0] != '%' then Some((s[0], 1))
    else
      var lead := EscapedAt(s, 0);
      if lead.None? then None
      else if lead.value < 0x80 then Some((lead.value as char, 3))
      else Multibyte(s, lead.value)
  }

  function Decode(s: string): Option<string>
    decreases |s|
  {
    if s == "" then Some("")
    else
      var next := Next(s);
      if next.None? then None
      else
        var rest := Decode(s[next.value.1..]);
        if rest.None? then None else Some([next.value.0] + rest.value)
  }

  // ------------------------------------------------------------ round trip

  lemma HexRoundTrip(v: nat)
    requires v < 16
    ensures HexValue(HexDigit(v)) == Some(v)
  {
  }

  lemma EscapedRoundTrip(b: byte, s: string, i: nat)
    requires i + 3 <= |s| && s[i..i + 3] == Escaped(b)
    ensures EscapedAt(s, i) == Some(b)
  {
    HexRoundTrip(b / 16);
    HexRoundTrip(b % 16);
    assert s[i] == s[i..i + 3][0] && s[i + 1] == s[i..i + 3][1] && s[i + 2] == s[i..i + 3][2];
  }

  lemma SixBits(n: nat)
    ensures n / 4096 == n / 64 / 64 && n / 0x4_0000 == n / 64 / 64 / 64
    ensures n == n / 0x4_0000 * 0x4_0000 + n / 4096 % 64 * 4096 + n / 64 % 64 * 64 + n % 64
  {
    var q := n / 64;
    var r := q / 64;
    assert n == 64 * q + n % 64 && q == 64 * r + q % 64 && r == 64 * (r / 64) + r % 64;
    assert n / 4096 == r;
    assert n / 0x4_0000 == r / 64;
  }

  lemma TwoBytes(x: char, n: nat, a: byte, b: byte, s: string)
    requires x as int == n && 0x80 <= n < 0x800 && a == 0xC0 + n / 64 && b == 0x80 + n % 64
    requires EscapedAt(s, 0) == Some(a) && EscapedAt(s, 3) == Some(b)
    ensures Next(s) == Some((x, 6))
  {
    assert (a - 0xC0) * 64 + (b - 0x80) == n;
  }

  lemma ThreeBytes(x: char, n: nat, a: byte, b: byte, c: byte, s: string)
    requires x as int == n && 0x800 <= n < 0x1_0000
    requires a == 0xE0 + n / 4096 && b == 0x80 + n / 64 % 64 && c == 0x80 + n % 64
    requires EscapedAt(s, 0) == Some(a) && EscapedAt(s, 3) == Some(b) && EscapedAt(s, 6) == Some(c)
    ensures Next(s) == Some((x, 9))
  {
    SixBits(n);
    assert n / 0x4_0000 == 0 && n / 4096 % 64 == n / 4096;
    assert (a - 0xE0) * 4096 + (b - 0x80) * 64 + (c - 0x80) == n;
    assert Continuation(s, 3) == Some(b - 0x80) && Continuation(s, 6) == Some(c - 0x80);
  }

  lemma FourBytes(x: char, n: nat, a: byte, b: byte, c: byte, d: byte, s: string)
    requires x as int == n && 0x1_0000 <= n < 0x11_0000
    requires a == 0xF0 + n / 0x4_0000 && b == 0x80 + n / 4096 % 64 && c == 0x80 + n / 64 % 64 && d == 0x80 + n % 64
    requires EscapedAt(s, 0) == Some(a) && EscapedAt(s, 3) == Some(b) && EscapedAt(s, 6) == Some(c)
             && EscapedAt(s, 9) == Some(d)
    ensures Next(s) == Some((x, 12))
  {
    SixBits(n);
    assert (a - 0xF0) * 0x4_0000 + (b - 0x80) * 4096 + (c - 0x80) * 64 + (d - 0x80) == n;
    assert Continuation(s, 3) == Some(b - 0x80) && Continuation(s, 6) == Some(c - 0x80)
           && Continuation(s, 9) == Some(d - 0x80);
  }

  lemma NextOfOne(x: char, rest: string)
    requires !Unreserved(x) && x as int < 0x80
    ensures Next(EncodeChar(x) + rest) == Some((x, |EncodeChar(x)|))
  {
    var s := EncodeChar(x) + rest;
    assert s[0..3] == Escaped(x as int);
    EscapedRoundTrip(x as int, s, 0);
  }

  lemma NextOfTwo(x: char, rest: string)
    requires !Unreserved(x) && 0x80 <= x as int < 0x800
    ensures Next(EncodeChar(x) + rest) == Some((x, |EncodeChar(x)|))
  {
    var n, s := x as int, EncodeChar(x) + rest;
    var a, b: byte := 0xC0 + n / 64, 0x80 + n % 64;
    assert s[0..3] == Escaped(a) && s[3..6] == Escaped(b);
    EscapedRoundTrip(a, s, 0);
    EscapedRoundTrip(b, s, 3);
    TwoBytes(x, n, a, b, s);
  }

  lemma NextOfThree(x: char, rest: string)
    requires !Unreserved(x) && 0x800 <= x as int < 0x1_0000
    ensures Next(EncodeChar(x) + rest) == Some((x, |EncodeChar(x)|))
  {
    var n, s := x as int, EncodeChar(x) + rest;
    var a, b, c: byte := 0xE0 + n / 4096, 0x80 + n / 64 % 64, 0x80 + n % 64;
    assert s[0..3] == Escaped(a) && s[3..6] == Escaped(b) && s[6..9] == Escaped(c);
    EscapedRoundTrip(a, s, 0);
    EscapedRoundTrip(b, s, 3);
    EscapedRoundTrip(c, s, 6);
    ThreeBytes(x, n, a, b, c, s);
  }

  lemma NextOfFour(x: char, rest: string)
    requires !Unreserved(x) && 0x1_0000 <= x as int
    ensures Next(EncodeChar(x) + rest) == Some((x, |EncodeChar(x)|))
  {
    var n, s := x as int, EncodeChar(x) + rest;
    var a, b, c, d: byte := 0xF0 + n / 0x4_0000, 0x80 + n / 4096 % 64, 0x80 + n / 64 % 64, 0x80 + n % 64;
    assert s[0..3] == Escaped(a) && s[3..6] == Escaped(b) && s[6..9] == Escaped(c) && s[9..12] == Escaped(d);
    EscapedRoundTrip(a, s, 0);
    EscapedRoundTrip(b, s, 3);
    EscapedRoundTrip(c, s, 6);
    EscapedRoundTrip(d, s, 9);
    FourBytes(x, n, a, b, c, d, s);
  }

  lemma NextRoundTrip(x: char, rest: string)
    ensures Next(EncodeChar(x) + rest) == Some((x, |EncodeChar(x)|))
  {
    if Unreserved(x) {
      assert EncodeChar(x) == [x];
    } else if x as int < 0x80 {
      NextOfOne(x, rest);
    } else if x as int < 0x800 {
      NextOfTwo(x, rest);
    } else if x as int < 0x1_0000 {
      NextOfThree(x, rest);
    } else {
      NextOfFour(x, rest);
    }
  }

  lemma {:induction false} DecodeRoundTrip(s: string)
    ensures Decode(Encode(s)) == Some(s)
  {
    if s != "" {
      var head, rest := EncodeChar(s[0]), Encode(s[1..]);
      NextRoundTrip(s[0], rest);
      assert (head + rest)[|head|..] == rest;
      DecodeRoundTrip(s[1..]);
      assert s == [s[0]] + s[1..];
    }
  }

  // ------------------------------------------------------------ what encoded text looks like

  predicate Plain(c: char) {
    Unreserved(c) || c == '%'
  }

  lemma EncodedChars(c: char)
    ensures forall i | 0 <= i < |EncodeChar(c)| :: Plain(EncodeChar(c)[i])
    ensures 1 <= |EncodeChar(c)| <= 3 * CharBytes(c)
  {
  }

  /** Encoded text is plain ASCII, at most three times its UTF-8 size. */
  lemma {:induction false} EncodedIsPlain(s: string)
    ensures forall i | 0 <= i < |Encode(s)| :: Plain(Encode(s)[i])
    ensures |s| <= |Encode(s)| <= 3 * Utf8Length(s)
  {
    if s != "" {
      EncodedChars(s[0]);
      EncodedIsPlain(s[1..]);
      assert s == [s[0]] + s[1..];
      Utf8LengthAdds([s[0]], s[1..]);
      assert Utf8Length([s[0]]) == CharBytes(s[0]) by {
        assert [s[0]][..0] == "";
      }
    }
  }

  lemma {:induction false} AsciiLength(s: string)
    requires forall i | 0 <= i < |s| :: s[i] as int < 0x80
    ensures Utf8Length(s) == |s|
  {
    if s != "" {
      AsciiLength(s[..|s| - 1]);
    }
  }
}
