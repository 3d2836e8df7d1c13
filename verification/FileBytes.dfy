/**
 * What a file's bytes become under resizing and overwriting
 * (spikes/tempfs-quota/src/filesystem.rs), against a per-byte reference that
 * never builds a buffer: the last edit to touch a byte decides it.
 */
module FileBytes {
  import opened Basics

  function Zeros(n: nat): Bytes {
    seq(n, _ => 0)
  }

  /** A vector cut to `n` bytes, or grown to `n` with zeros. */
  function Resized(data: Bytes, n: nat): Bytes {
    if n <= |data| then data[..n] else data + Zeros(n - |data|)
  }

  /** A vector with `bytes` copied in at `offset`, grown first when it is too short. */
  function Overwritten(data: Bytes, offset: nat, bytes: Bytes): Bytes {
    var end := offset + |bytes|;
    var grown := if |data| < end then Resized(data, end) else data;
    grown[..offset] + bytes + grown[end..]
  }

  /** The part of `data` a read of `size` bytes at `offset` returns. */
  function Slice(data: Bytes, offset: nat, size: nat): Bytes {
    var start := Min(offset, |data|);
    data[start..Min(start + size, |data|)]
  }

  datatype Edit = Overwrite(offset: nat, bytes: Bytes) | Truncate(size: nat) | Preallocate(end: nat)

  function Edited(data: Bytes, e: Edit): Bytes {
    match e
    case Overwrite(offset, bytes) => Overwritten(data, offset, bytes)
    case Truncate(size) => Resized(data, size)
    case Preallocate(end) => if end > |data| then Resized(data, end) else data
  }

  function Replay(edits: seq<Edit>): Bytes {
    if edits == [] then [] else Edited(Replay(edits[..|edits| - 1]), edits[|edits| - 1])
  }

  // ------------------------------------------------------------ reference

  function LengthAfter(edits: seq<Edit>): nat {
    if edits == [] then 0 else
      var before := LengthAfter(edits[..|edits| - 1]);
      match edits[|edits| - 1]
      case Overwrite(offset, bytes) => Max(before, offset + |bytes|)
      case Truncate(size) => size
      case Preallocate(end) => Max(before, end)
  }

  /** The value of byte `i`: the newest edit covering it decides, and a byte nothing covers is zero. */
  function ByteAfter(edits: seq<Edit>, i: nat): byte {
    if edits == [] then 0 else
      var before := edits[..|edits| - 1];
      match edits[|edits| - 1]
      case Overwrite(offset, bytes) =>
        if offset <= i < offset + |bytes| then bytes[i - offset] else ByteAfter(before, i)
      case Truncate(size) => if i < size then ByteAfter(before, i) else 0
      case Preallocate(_) => ByteAfter(before, i)
  }

  lemma {:induction false} ReplayMatchesReference(edits: seq<Edit>)
    ensures |Replay(edits)| == LengthAfter(edits)
    ensures forall i: nat :: ByteAfter(edits, i) == if i < |Replay(edits)| then Replay(edits)[i] else 0
  {
    if edits != [] {
      ReplayMatchesReference(edits[..|edits| - 1]);
    }
  }

  /**
   * After any history of writes, truncations and preallocations, a read returns
   * the reference bytes, clamped to the reference length.
   */
  lemma ReadReturnsReferenceBytes(edits: seq<Edit>, offset: nat, size: nat)
    ensures var got := Slice(Replay(edits), offset, size);
            && |got| == Max(0, Min(size, LengthAfter(edits) - offset))
            && forall k | 0 <= k < |got| :: got[k] == ByteAfter(edits, offset + k)
  {
    ReplayMatchesReference(edits);
  }

  /** Shrinking and growing again reads zeros: nothing cut off ever comes back. */
  lemma ShrinkThenGrowReadsZeros(edits: seq<Edit>, small: nat, large: nat, i: nat)
    requires small <= i < large
    ensures var data := Replay(edits + [Truncate(small), Truncate(large)]);
            |data| == large && data[i] == 0
  {
    var once := edits + [Truncate(small)];
    var twice := edits + [Truncate(small), Truncate(large)];
    assert twice[..|twice| - 1] == once;
    assert once[..|once| - 1] == edits;
    ReplayMatchesReference(twice);
  }
}
