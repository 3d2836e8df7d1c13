/**
 * Exact byte and object accounting (spikes/tempfs-quota/src/ledger.rs) and the
 * arithmetic a supervisor applies to what `statfs` reports (readback.rs).
 */
module Ledger {
  import opened Basics

  const STATFS_BLOCK_BYTES: nat := 4096
  const MAX_NAME_BYTES: nat := 255
  const MAX_RECORDED_EXCEEDANCES: nat := 64

  datatype Ceilings = Ceilings(bytes: u64, objects: u64)

  datatype CeilingError = BytesZero | BytesNotBlockAligned(bytes: u64) | ObjectsZero

  /** The only way the source lets a pair of ceilings come into being. */
  function NewCeilings(bytes: u64, objects: u64): Result<Ceilings, CeilingError> {
    if bytes == 0 then Err(BytesZero)
    else if bytes % STATFS_BLOCK_BYTES != 0 then Err(BytesNotBlockAligned(bytes))
    else if objects == 0 then Err(ObjectsZero)
    else Ok(Ceilings(bytes, objects))
  }

  /** A pair the constructor admits. */
  predicate Admitted(c: Ceilings) {
    NewCeilings(c.bytes, c.objects).Ok?
  }

  datatype Resource = OfBytes | OfObjects

  datatype Exceedance = Exceedance(resource: Resource, requested: int, used: int, ceiling: int)

  datatype Snapshot = Snapshot(
    ceilings: Ceilings,
    usedBytes: int,
    usedObjects: int,
    peakBytes: int,
    peakObjects: int,
    refusedBytes: nat,
    refusedObjects: nat,
    recorded: seq<Exceedance>)

  datatype Call = ReserveBytes(delta: nat) | ReleaseBytes(delta: nat) | ReserveObject | ReleaseObject

  function Empty(c: Ceilings): Snapshot {
    Snapshot(c, 0, 0, 0, 0, 0, 0, [])
  }

  /** The refusal a call meets, if it meets one. */
  function Refusal(s: Snapshot, call: Call): Option<Exceedance> {
    match call
    case ReserveBytes(delta) =>
      if s.usedBytes + delta <= s.ceilings.bytes then None
      else Some(Exceedance(OfBytes, delta, s.usedBytes, s.ceilings.bytes))
    case ReserveObject =>
      if s.usedObjects < s.ceilings.objects then None
      else Some(Exceedance(OfObjects, 1, s.usedObjects, s.ceilings.objects))
    case _ => None
  }

  /** The ledger after one call. */
  function After(s: Snapshot, call: Call): Snapshot {
    match Refusal(s, call)
    case Some(e) =>
      var kept := if |s.recorded| < MAX_RECORDED_EXCEEDANCES then s.recorded + [e] else s.recorded;
      if e.resource.OfBytes?
      then s.(refusedBytes := s.refusedBytes + 1, recorded := kept)
      else s.(refusedObjects := s.refusedObjects + 1, recorded := kept)
    case None =>
      match call
      case ReserveBytes(delta) =>
        var next := s.usedBytes + delta;
        s.(usedBytes := next, peakBytes := Max(s.peakBytes, next))
      case ReleaseBytes(delta) => s.(usedBytes := Max(0, s.usedBytes - delta))
      case ReserveObject =>
        var next := s.usedObjects + 1;
        s.(usedObjects := next, peakObjects := Max(s.peakObjects, next))
      case ReleaseObject => s.(usedObjects := Max(0, s.usedObjects - 1))
  }

  function RunCalls(s: Snapshot, calls: seq<Call>): Snapshot {
    if calls == [] then s else After(RunCalls(s, calls[..|calls| - 1]), calls[|calls| - 1])
  }

  /** The ledger object: counters, peaks and the verbatim refusals, updated in place. */
  class Ledger {
    const ceilings: Ceilings
    var usedBytes: u64
    var usedObjects: u64
    var peakBytes: u64
    var peakObjects: u64
    var refusedBytes: nat
    var refusedObjects: nat
    var recorded: seq<Exceedance>

    constructor (c: Ceilings)
      ensures View() == Empty(c)
    {
      ceilings := c;
      usedBytes, usedObjects, peakBytes, peakObjects := 0, 0, 0, 0;
      refusedBytes, refusedObjects, recorded := 0, 0, [];
    }

    function View(): Snapshot
      reads this
    {
      Snapshot(ceilings, usedBytes, usedObjects, peakBytes, peakObjects, refusedBytes, refusedObjects, recorded)
    }

    method ReserveBytes(delta: nat) returns (refusal: Option<Exceedance>)
      modifies this
      ensures View() == After(old(View()), Call.ReserveBytes(delta))
      ensures refusal == Refusal(old(View()), Call.ReserveBytes(delta))
    {
      var ceiling := ceilings.bytes;
      if usedBytes + delta <= U64_MAX && usedBytes + delta <= ceiling {
        usedBytes := usedBytes + delta;
        peakBytes := Max(peakBytes, usedBytes);
        return None;
      }
      var exceedance := Exceedance(OfBytes, delta, usedBytes, ceiling);
      refusedBytes := refusedBytes + 1;
      Record(exceedance);
      return Some(exceedance);
    }

    method ReleaseBytes(delta: nat)
      modifies this
      ensures View() == After(old(View()), Call.ReleaseBytes(delta))
    {
      usedBytes := if delta <= usedBytes then usedBytes - delta else 0;
    }

    method ReserveObject() returns (refusal: Option<Exceedance>)
      modifies this
      ensures View() == After(old(View()), Call.ReserveObject)
      ensures refusal == Refusal(old(View()), Call.ReserveObject)
    {
      var ceiling := ceilings.objects;
      if usedObjects < ceiling {
        usedObjects := usedObjects + 1;
        peakObjects := Max(peakObjects, usedObjects);
        return None;
      }
      var exceedance := Exceedance(OfObjects, 1, usedObjects, ceiling);
      refusedObjects := refusedObjects + 1;
      Record(exceedance);
      return Some(exceedance);
    }

    method ReleaseObject()
      modifies this
      ensures View() == After(old(View()), Call.ReleaseObject)
    {
      usedObjects := if 1 <= usedObjects then usedObjects - 1 else 0;
    }

    method Record(exceedance: Exceedance)
      modifies this`recorded
      ensures recorded ==
              if |old(recorded)| < MAX_RECORDED_EXCEEDANCES then old(recorded) + [exceedance] else old(recorded)
    {
      if |recorded| < MAX_RECORDED_EXCEEDANCES {
        recorded := recorded + [exceedance];
      }
    }
  }

  // ------------------------------------------------------------ history

  /** Usage alone, with no peaks and no log: the reference the counters are measured against. */
  datatype Usage = Usage(bytes: int, objects: int)

  function UsageAfter(c: Ceilings, calls: seq<Call>): (u: Usage)
    ensures 0 <= u.bytes <= c.bytes && 0 <= u.objects <= c.objects
  {
    if calls == [] then Usage(0, 0) else
      var u := UsageAfter(c, calls[..|calls| - 1]);
      match calls[|calls| - 1]
      case ReserveBytes(d) => if u.bytes + d <= c.bytes then u.(bytes := u.bytes + d) else u
      case ReleaseBytes(d) => u.(bytes := if d <= u.bytes then u.bytes - d else 0)
      case ReserveObject => if u.objects + 1 <= c.objects then u.(objects := u.objects + 1) else u
      case ReleaseObject => u.(objects := if 1 <= u.objects then u.objects - 1 else 0)
  }

  /** Every refusal of the history, in order, with the usage at that moment. */
  function Refusals(c: Ceilings, calls: seq<Call>): seq<Exceedance> {
    if calls == [] then [] else
      var front := calls[..|calls| - 1];
      var u := UsageAfter(c, front);
      match calls[|calls| - 1]
      case ReserveBytes(d) =>
        if u.bytes + d <= c.bytes then Refusals(c, front)
        else Refusals(c, front) + [Exceedance(OfBytes, d, u.bytes, c.bytes)]
      case ReserveObject =>
        if u.objects + 1 <= c.objects then Refusals(c, front)
        else Refusals(c, front) + [Exceedance(OfObjects, 1, u.objects, c.objects)]
      case _ => Refusals(c, front)
  }

  function Tally(r: Resource, log: seq<Exceedance>): nat {
    if log == [] then 0 else Tally(r, log[..|log| - 1]) + (if log[|log| - 1].resource == r then 1 else 0)
  }

  /** `peak` is the largest byte usage over the prefixes of the history, and it was held. */
  ghost predicate IsPeakBytes(c: Ceilings, calls: seq<Call>, peak: int) {
    && (forall k | 0 <= k <= |calls| :: UsageAfter(c, calls[..k]).bytes <= peak)
    && (exists k :: 0 <= k <= |calls| && UsageAfter(c, calls[..k]).bytes == peak)
  }

  /** The same for objects. */
  ghost predicate IsPeakObjects(c: Ceilings, calls: seq<Call>, peak: int) {
    && (forall k | 0 <= k <= |calls| :: UsageAfter(c, calls[..k]).objects <= peak)
    && (exists k :: 0 <= k <= |calls| && UsageAfter(c, calls[..k]).objects == peak)
  }

  /** The ledger's current usage is the reference usage, after any history of calls. */
  lemma {:induction false} CountersTrackUsage(c: Ceilings, calls: seq<Call>)
    ensures var s := RunCalls(Empty(c), calls);
            s.ceilings == c && Usage(s.usedBytes, s.usedObjects) == UsageAfter(c, calls)
  {
    if calls != [] {
      CountersTrackUsage(c, calls[..|calls| - 1]);
    }
  }

  /** After any history the recorded peaks are the largest usage that was ever held. */
  lemma {:induction false} PeaksAreMaxima(c: Ceilings, calls: seq<Call>)
    ensures IsPeakBytes(c, calls, RunCalls(Empty(c), calls).peakBytes)
    ensures IsPeakObjects(c, calls, RunCalls(Empty(c), calls).peakObjects)
  {
    assert calls[..|calls|] == calls;
    if calls == [] {
      assert UsageAfter(c, calls[..0]) == Usage(0, 0);
    } else {
      var front := calls[..|calls| - 1];
      PeaksAreMaxima(c, front);
      CountersTrackUsage(c, front);
      CountersTrackUsage(c, calls);
      assert front[..|front|] == front;
      assert UsageAfter(c, front[..|front|]).bytes <= RunCalls(Empty(c), front).peakBytes;
      assert UsageAfter(c, front[..|front|]).objects <= RunCalls(Empty(c), front).peakObjects;
      PeakStep(c, calls, RunCalls(Empty(c), front), RunCalls(Empty(c), calls));
    }
  }

  lemma PeakStep(c: Ceilings, calls: seq<Call>, before: Snapshot, after: Snapshot)
    requires calls != []
    requires IsPeakBytes(c, calls[..|calls| - 1], before.peakBytes)
    requires IsPeakObjects(c, calls[..|calls| - 1], before.peakObjects)
    requires after.peakBytes == Max(before.peakBytes, UsageAfter(c, calls).bytes)
    requires after.peakObjects == Max(before.peakObjects, UsageAfter(c, calls).objects)
    ensures IsPeakBytes(c, calls, after.peakBytes)
    ensures IsPeakObjects(c, calls, after.peakObjects)
  {
    var front := calls[..|calls| - 1];
    assert calls[..|calls|] == calls;
    assert forall k | 0 <= k < |calls| :: front[..k] == calls[..k];
    var kb :| 0 <= kb <= |front| && UsageAfter(c, front[..kb]).bytes == before.peakBytes;
    assert UsageAfter(c, calls[..kb]).bytes == before.peakBytes;
    var ko :| 0 <= ko <= |front| && UsageAfter(c, front[..ko]).objects == before.peakObjects;
    assert UsageAfter(c, calls[..ko]).objects == before.peakObjects;
    forall k | 0 <= k <= |calls|
      ensures UsageAfter(c, calls[..k]).bytes <= after.peakBytes
      ensures UsageAfter(c, calls[..k]).objects <= after.peakObjects
    {
      if k < |calls| {
        assert UsageAfter(c, front[..k]).bytes <= before.peakBytes;
        assert UsageAfter(c, front[..k]).objects <= before.peakObjects;
      }
    }
  }

  /** After any history the refusal totals count every refusal and the log holds the first of them. */
  lemma {:induction false} RefusalsAreRecorded(c: Ceilings, calls: seq<Call>)
    ensures var s, log := RunCalls(Empty(c), calls), Refusals(c, calls);
            && s.refusedBytes == Tally(OfBytes, log)
            && s.refusedObjects == Tally(OfObjects, log)
            && s.recorded == log[..Min(|log|, MAX_RECORDED_EXCEEDANCES)]
  {
    if calls != [] {
      var front := calls[..|calls| - 1];
      RefusalsAreRecorded(c, front);
      CountersTrackUsage(c, front);
      var log, log' := Refusals(c, front), Refusals(c, calls);
      assert log' != log ==> log'[..|log'| - 1] == log;
    }
  }

  // ------------------------------------------------------------ statfs

  datatype StatfsView = StatfsView(
    blockBytes: nat, blocks: u64, blocksFree: u64, files: u64, filesFree: u64, nameMax: nat)

  function Statfs(s: Snapshot): StatfsView
    requires 0 <= s.usedBytes <= s.ceilings.bytes && 0 <= s.usedObjects <= s.ceilings.objects
  {
    StatfsView(STATFS_BLOCK_BYTES,
               s.ceilings.bytes / STATFS_BLOCK_BYTES,
               (s.ceilings.bytes - s.usedBytes) / STATFS_BLOCK_BYTES,
               s.ceilings.objects,
               s.ceilings.objects - s.usedObjects,
               MAX_NAME_BYTES)
  }

  /** The supervisor's three derived numbers, over the view the kernel hands back. */
  function ReadbackCeiling(v: StatfsView): int { v.blocks * v.blockBytes }
  function ReadbackBytes(v: StatfsView): int { (v.blocks - v.blocksFree) * v.blockBytes }
  function ReadbackObjects(v: StatfsView): int { v.files - v.filesFree }

  /** `n` rounded up to a whole number of blocks. */
  ghost predicate RoundedUp(n: int, r: int) {
    r % STATFS_BLOCK_BYTES == 0 && n <= r < n + STATFS_BLOCK_BYTES
  }

  /** Readback after any history: the byte ceiling exactly, bytes in use rounded up, objects exactly. */
  lemma StatfsReadback(c: Ceilings, calls: seq<Call>)
    requires Admitted(c)
    ensures var s := RunCalls(Empty(c), calls);
            && 0 <= s.usedBytes <= s.ceilings.bytes && 0 <= s.usedObjects <= s.ceilings.objects
            && var v := Statfs(s);
               && v.blocksFree <= v.blocks && v.filesFree <= v.files
               && ReadbackCeiling(v) == c.bytes
               && RoundedUp(UsageAfter(c, calls).bytes, ReadbackBytes(v))
               && ReadbackObjects(v) == UsageAfter(c, calls).objects
  {
    CountersTrackUsage(c, calls);
    var s := RunCalls(Empty(c), calls);
    var v := Statfs(s);
    BlockRounding(v.blocks, s.usedBytes);
  }

  lemma BlockRounding(blocks: nat, used: nat)
    requires used <= blocks * 4096
    ensures (blocks * 4096 - used) / 4096 <= blocks
    ensures RoundedUp(used, (blocks - (blocks * 4096 - used) / 4096) * 4096)
  {
  }
}
