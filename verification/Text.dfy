/** Text as the providers send it: characters, their UTF-8 size, and parsed JSON values. */
module Text {
  import opened Basics

  /** Bytes one character takes in UTF-8. */
  function CharBytes(c: char): nat {
    var n := c as int;
    if n < 0x80 then 1 else if n < 0x800 then 2 else if n < 0x1_0000 then 3 else 4
  }

  /** Bytes a string takes in UTF-8. */
  function Utf8Length(s: string): nat {
    if s == "" then 0 else Utf8Length(s[..|s| - 1]) + CharBytes(s[|s| - 1])
  }

  lemma {:induction false} Utf8LengthAdds(a: string, b: string)
    ensures Utf8Length(a + b) == Utf8Length(a) + Utf8Length(b)
    decreases |b|
  {
    if b == "" {
      assert a + b == a;
    } else {
      assert (a + b)[..|a + b| - 1] == a + b[..|b| - 1];
      Utf8LengthAdds(a, b[..|b| - 1]);
    }
  }

  /** A Unicode control character (general category Cc). */
  predicate IsControl(c: char) {
    var n := c as int;
    n < 0x20 || 0x7F <= n < 0xA0
  }

  predicate IsAlphanumeric(c: char) {
    'a' <= c <= 'z' || 'A' <= c <= 'Z' || '0' <= c <= '9'
  }

  /** A parsed JSON value; numbers that are not integers are told apart from those that are. */
  datatype Json =
    | JNull
    | JBool(b: bool)
    | JInt(n: int)
    | JFloat
    | JString(s: string)
    | JArray(items: seq<Json>)
    | JObject(fields: map<string, Json>)

  /**
   * The two parsers the stream code calls and does not define: bytes to text, and
   * text to one JSON value. Everything proved holds whichever functions they are.
   */
  datatype Parsers = Parsers(utf8: Bytes -> Option<string>, json: string -> Option<Json>)
}
