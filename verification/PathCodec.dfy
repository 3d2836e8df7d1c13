/**
 * The length-prefixed list of workspace paths a session row stores
 * (rust/crates/automonique-acp/src/session_store.rs): a printer and a parser
 * over bytes, and the exact sense in which they are inverse.
 */
module PathCodec {
  import opened Basics

  type Path = Bytes

  datatype CodecError = PathTooLong | InvalidQuery

  /** Four bytes, most significant first. */
  function BigEndian(n: nat): Bytes
    requires n < U32_LIMIT
  {
    [n / 0x100_0000, n / 0x1_0000 % 0x100, n / 0x100 % 0x100, n % 0x100]
  }

  function FromBigEndian(b: Bytes): nat
    requires |b| == 4
  {
    (b[0] as int) * 0x100_0000 + (b[1] as int) * 0x1_0000 + (b[2] as int) * 0x100 + b[3] as int
  }

  lemma BigEndianRoundTrip(n: nat)
    requires n < U32_LIMIT
    ensures FromBigEndian(BigEndian(n)) == n
  {
    var q := n / 0x100;
    var r := q / 0x100;
    assert n == 0x100 * q + n % 0x100 && q == 0x100 * r + q % 0x100 && r == 0x100 * (r / 0x100) + r % 0x100;
    assert n / 0x1_0000 == r && n / 0x100_0000 == r / 0x100;
  }

  lemma BigEndianCanonical(b: Bytes)
    requires |b| == 4
    ensures FromBigEndian(b) < U32_LIMIT && BigEndian(FromBigEndian(b)) == b
  {
    var n := FromBigEndian(b);
    assert n / 0x100 == (b[0] as int) * 0x1_0000 + (b[1] as int) * 0x100 + b[2] as int;
    assert n / 0x1_0000 == (b[0] as int) * 0x100 + b[1] as int;
  }

  /** What the parser hands back as a path: non-empty and free of NUL. */
  predicate Storable(p: Path) {
    p != [] && 0 !in p
  }

  function Encoded(paths: seq<Path>): Result<Bytes, CodecError> {
    if paths == [] then Ok([]) else
      var last := paths[|paths| - 1];
      var front :- Encoded(paths[..|paths| - 1]);
      if |last| < U32_LIMIT then Ok(front + BigEndian(|last|) + last) else Err(PathTooLong)
  }

  function Decoded(bytes: Bytes): Result<seq<Path>, CodecError> {
    if bytes == [] then Ok([])
    else if |bytes| < 4 then Err(InvalidQuery)
    else
      var length, rest := FromBigEndian(bytes[..4]), bytes[4..];
      if length > |rest| then Err(InvalidQuery)
      else if !Storable(rest[..length]) then Err(InvalidQuery)
      else
        var paths :- Decoded(rest[length..]);
        Ok([rest[..length]] + paths)
  }

  predicate AllStorable(paths: seq<Path>) {
    forall p | p in paths :: Storable(p)
  }

  /** `paths` followed by what a parse of the rest gave. */
  function Then(paths: seq<Path>, rest: Result<seq<Path>, CodecError>): Result<seq<Path>, CodecError> {
    if rest.Ok? then Ok(paths + rest.value) else rest
  }

  method EncodePaths(paths: seq<Path>) returns (r: Result<Bytes, CodecError>)
    ensures r == Encoded(paths)
  {
    var encoded: Bytes := [];
    for k := 0 to |paths|
      invariant Encoded(paths[..k]) == Ok(encoded)
    {
      assert paths[..k + 1][..k] == paths[..k];
      if |paths[k]| >= U32_LIMIT {
        EncodeFails(paths, k);
        return Err(PathTooLong);
      }
      encoded := encoded + BigEndian(|paths[k]|);
      encoded := encoded + paths[k];
    }
    assert paths[..|paths|] == paths;
    return Ok(encoded);
  }

  lemma {:induction false} EncodeFails(paths: seq<Path>, k: nat)
    requires k < |paths| && |paths[k]| >= U32_LIMIT
    ensures Encoded(paths) == Err(PathTooLong)
  {
    if k < |paths| - 1 {
      EncodeFails(paths[..|paths| - 1], k);
    } else {
      EncodeErrs(paths[..|paths| - 1]);
    }
  }

  lemma {:induction false} EncodeErrs(paths: seq<Path>)
    ensures Encoded(paths).Err? ==> Encoded(paths) == Err(PathTooLong)
  {
    if paths != [] {
      EncodeErrs(paths[..|paths| - 1]);
    }
  }

  method DecodePaths(input: Bytes) returns (r: Result<seq<Path>, CodecError>)
    ensures r == Decoded(input)
  {
    var bytes, paths := input, [];
    assert Decoded(input).Ok? ==> [] + Decoded(input).value == Decoded(input).value;
    while bytes != []
      invariant Decoded(input) == Then(paths, Decoded(bytes))
      decreases |bytes|
    {
      ghost var before := paths;
      if |bytes| < 4 {
        return Err(InvalidQuery);
      }
      var length := FromBigEndian(bytes[..4]);
      bytes := bytes[4..];
      if length > |bytes| {
        return Err(InvalidQuery);
      }
      var path := bytes[..length];
      if path == [] || 0 in path {
        return Err(InvalidQuery);
      }
      paths := paths + [path];
      bytes := bytes[length..];
      if Decoded(bytes).Ok? {
        assert before + ([path] + Decoded(bytes).value) == paths + Decoded(bytes).value;
      }
    }
    assert paths + [] == paths;
    return Ok(paths);
  }

  // ------------------------------------------------------------ inverse

  /** The parser reads a frame the printer wrote, whatever follows it. */
  lemma DecodeFrame(p: Path, more: Bytes)
    requires |p| < U32_LIMIT
    ensures Decoded(BigEndian(|p|) + p + more) == if Storable(p) then Then([p], Decoded(more)) else Err(InvalidQuery)
  {
    var bytes := BigEndian(|p|) + p + more;
    BigEndianRoundTrip(|p|);
    assert bytes[..4] == BigEndian(|p|);
    assert bytes[4..] == p + more;
    assert (p + more)[..|p|] == p && (p + more)[|p|..] == more;
  }

  lemma FrameFollows(a: Bytes, b: Bytes, c: Bytes, d: Bytes)
    ensures a + b + c + d == a + (b + c + d)
  {
  }

  /** Decoding what was encoded, with more bytes after it. */
  lemma {:induction false} DecodeEncodedThen(paths: seq<Path>, more: Bytes)
    requires Encoded(paths).Ok?
    ensures Decoded(Encoded(paths).value + more) ==
            if AllStorable(paths) then Then(paths, Decoded(more)) else Err(InvalidQuery)
    decreases |paths|
  {
    if paths == [] {
      assert Encoded(paths).value + more == more;
      assert Decoded(more).Ok? ==> paths + Decoded(more).value == Decoded(more).value;
    } else {
      var front, last := paths[..|paths| - 1], paths[|paths| - 1];
      var frame := BigEndian(|last|) + last + more;
      FrameFollows(Encoded(front).value, BigEndian(|last|), last, more);
      DecodeEncodedThen(front, frame);
      DecodeFrame(last, more);
      StorableLast(front, last);
      FrontAndLast(paths);
      if Decoded(more).Ok? {
        Associates(front, [last], Decoded(more).value);
      }
    }
  }

  lemma StorableLast(front: seq<Path>, last: Path)
    ensures AllStorable(front + [last]) <==> AllStorable(front) && Storable(last)
  {
    assert (front + [last])[|front|] == last && forall i | 0 <= i < |front| :: (front + [last])[i] == front[i];
  }

  /**
   * A list survives the round trip exactly when every path is non-empty and
   * NUL-free; otherwise the stored bytes are refused on the way back.
   */
  lemma DecodeInvertsEncode(paths: seq<Path>)
    requires Encoded(paths).Ok?
    ensures Decoded(Encoded(paths).value) == if AllStorable(paths) then Ok(paths) else Err(InvalidQuery)
  {
    DecodeEncodedThen(paths, []);
    assert Encoded(paths).value + [] == Encoded(paths).value;
    assert paths + [] == paths;
  }

  lemma {:induction false} EncodedPrepends(p: Path, paths: seq<Path>)
    requires |p| < U32_LIMIT && Encoded(paths).Ok?
    ensures Encoded([p] + paths) == Ok(BigEndian(|p|) + p + Encoded(paths).value)
    decreases |paths|
  {
    if paths == [] {
      assert ([p] + paths)[..0] == [];
      assert [p] + paths == [p];
      assert [] + BigEndian(|p|) + p == BigEndian(|p|) + p + [];
    } else {
      var front, last := paths[..|paths| - 1], paths[|paths| - 1];
      EncodedPrepends(p, front);
      assert ([p] + paths)[..|paths|] == [p] + front;
      assert ([p] + paths)[|paths|] == last;
      var head := BigEndian(|p|) + p;
      assert head + Encoded(front).value + BigEndian(|last|) + last
          == head + (Encoded(front).value + BigEndian(|last|) + last);
    }
  }

  /** Whatever the parser accepts, printing it again gives the same bytes. */
  lemma {:induction false} EncodeInvertsDecode(bytes: Bytes)
    requires Decoded(bytes).Ok?
    ensures Encoded(Decoded(bytes).value) == Ok(bytes)
    ensures AllStorable(Decoded(bytes).value)
    decreases |bytes|
  {
    if bytes != [] {
      var length, rest := FromBigEndian(bytes[..4]), bytes[4..];
      var path, more := rest[..length], rest[length..];
      EncodeInvertsDecode(more);
      BigEndianCanonical(bytes[..4]);
      EncodedPrepends(path, Decoded(more).value);
      FrameOf(bytes, length);
    }
  }

  lemma FrameOf(bytes: Bytes, length: nat)
    requires 4 + length <= |bytes|
    ensures bytes == bytes[..4] + bytes[4..][..length] + bytes[4..][length..]
  {
  }

  /** Each list has one accepted spelling, and distinct storable lists have distinct encodings. */
  lemma OneSpelling(a: Bytes, b: Bytes)
    requires Decoded(a).Ok? && Decoded(a) == Decoded(b)
    ensures a == b
  {
    EncodeInvertsDecode(a);
    EncodeInvertsDecode(b);
  }
}
