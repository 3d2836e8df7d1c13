/**
 * What the ledger must say beside a filesystem, worked out from recounts of the
 * reference tree alone: usage, peaks, refusal totals and the refusal log.
 */
module FsAudit {
  import opened Basics
  import opened Ledger
  import opened ReferenceFs
  import opened FsRuns

  /** How many bytes the request would add to the tree. */
  function Asked(t: Tree, q: Request): int {
    match q
    case Symlink(_, _, target) => |target|
    case Write(i, offset, data) => if i in t.objects then offset + |data| - SizeOf(t.objects[i]) else 0
    case SetAttr(i, size) => if i in t.objects && size.Some? then size.value - SizeOf(t.objects[i]) else 0
    case Fallocate(i, offset, length, _) => if i in t.objects then offset + length - SizeOf(t.objects[i]) else 0
    case _ => 0
  }

  /** The refusal an answer reports, with the recounted usage at that moment. */
  ghost function RefusalIn(t: Tree, answer: Response, asked: int): Option<Exceedance> {
    match answer
    case Err(ENOSPC) => Some(Exceedance(OfBytes, asked, UsedBytes(t), t.ceilings.bytes))
    case Err(EDQUOT) => Some(Exceedance(OfObjects, 1, UsedObjects(t), t.ceilings.objects))
    case _ => None
  }

  /**
   * Objects the ledger holds at its fullest while serving: a symbolic link whose
   * target does not fit has its object reserved first and then given back.
   */
  ghost function ObjectsHeld(t: Tree, outcome: (Tree, Response), link: bool): int {
    if link && outcome.1 == Err(ENOSPC) then UsedObjects(t) + 1 else UsedObjects(outcome.0)
  }

  /** The ledger after an outcome, from the ledger before it and recounts alone. */
  ghost function ChargedFor(s: Snapshot, t: Tree, outcome: (Tree, Response), asked: int, link: bool): Snapshot {
    var refusal := RefusalIn(t, outcome.1, asked);
    s.(usedBytes := UsedBytes(outcome.0),
       usedObjects := UsedObjects(outcome.0),
       peakBytes := Max(s.peakBytes, UsedBytes(outcome.0)),
       peakObjects := Max(s.peakObjects, ObjectsHeld(t, outcome, link)),
       refusedBytes := s.refusedBytes + (if refusal.Some? && refusal.value.resource.OfBytes? then 1 else 0),
       refusedObjects := s.refusedObjects + (if refusal.Some? && refusal.value.resource.OfObjects? then 1 else 0),
       recorded := if refusal.Some? && |s.recorded| < MAX_RECORDED_EXCEEDANCES
                   then s.recorded + [refusal.value] else s.recorded)
  }

  ghost function Charged(s: Snapshot, t: Tree, q: Request): Snapshot {
    ChargedFor(s, t, Serve(t, q), Asked(t, q), q.Symlink?)
  }

  // ------------------------------------------------------------ whole runs

  /** The ledger beside a run from an empty tree. */
  ghost function Audit(c: Ceilings, qs: seq<Request>): Snapshot {
    if qs == [] then Empty(c) else
      var front := qs[..|qs| - 1];
      Charged(Audit(c, front), Run(Fresh(c), front), qs[|qs| - 1])
  }

  ghost function LogOf(c: Ceilings, qs: seq<Request>): seq<Exceedance> {
    if qs == [] then [] else
      var front := qs[..|qs| - 1];
      var t, q := Run(Fresh(c), front), qs[|qs| - 1];
      var refusal := RefusalIn(t, Serve(t, q).1, Asked(t, q));
      if refusal.Some? then LogOf(c, front) + [refusal.value] else LogOf(c, front)
  }

  /** The recounted byte usage after each prefix of a run, the empty one first. */
  ghost function BytesOverTime(c: Ceilings, qs: seq<Request>): seq<int> {
    if qs == [] then [UsedBytes(Fresh(c))] else BytesOverTime(c, qs[..|qs| - 1]) + [UsedBytes(Run(Fresh(c), qs))]
  }

  /** The objects held while serving each request of a run, none before the first. */
  ghost function ObjectsOverTime(c: Ceilings, qs: seq<Request>): seq<int> {
    if qs == [] then [UsedObjects(Fresh(c))] else
      var front := qs[..|qs| - 1];
      var t, q := Run(Fresh(c), front), qs[|qs| - 1];
      ObjectsOverTime(c, front) + [ObjectsHeld(t, Serve(t, q), q.Symlink?)]
  }

  ghost predicate IsMaximum(series: seq<int>, peak: int) {
    peak in series && forall x | x in series :: x <= peak
  }

  /**
   * Beside any run, the ledger's usage is the recount, its byte peak the most the
   * tree ever held, and its object peak the most the ledger ever held — which
   * counts an object that was rolled back.
   */
  lemma {:induction false} AuditCounts(c: Ceilings, qs: seq<Request>)
    ensures var s, t := Audit(c, qs), Run(Fresh(c), qs);
            s.ceilings == c && s.usedBytes == UsedBytes(t) && s.usedObjects == UsedObjects(t)
    ensures IsMaximum(BytesOverTime(c, qs), Audit(c, qs).peakBytes)
    ensures IsMaximum(ObjectsOverTime(c, qs), Audit(c, qs).peakObjects)
  {
    if qs == [] {
      FreshCounts(c);
    } else {
      var front := qs[..|qs| - 1];
      AuditCounts(c, front);
      RunsAreWellFormed(c, front);
      ServeFrame(Run(Fresh(c), front), qs[|qs| - 1]);
    }
  }

  lemma FreshCounts(c: Ceilings)
    ensures UsedBytes(Fresh(c)) == 0 && UsedObjects(Fresh(c)) == 0
  {
    BytesWith(map[], ROOT, Object(DirBody, 0));
    assert map[][ROOT := Object(DirBody, 0)] == Fresh(c).objects;
    assert Fresh(c).objects.Keys == {ROOT};
  }

  /** A rolled-back link alone raises the object peak above anything the tree ever held. */
  lemma APeakNeverHeld(target: Payload)
    requires |target| == STATFS_BLOCK_BYTES + 1
    ensures var c, q := Ceilings(STATFS_BLOCK_BYTES, 1), Symlink(ROOT, [97], target);
            Audit(c, [q]).peakObjects == 1 && Run(Fresh(c), [q]) == Fresh(c)
  {
    var c, q := Ceilings(STATFS_BLOCK_BYTES, 1), Symlink(ROOT, [97], target);
    var linked := Object(LinkBody(target), 0);
    FreshCounts(c);
    RunsAreWellFormed(c, []);
    BytesWith(Fresh(c).objects, 2, linked);
    assert Fresh(c).objects[2 := linked].Keys == {ROOT, 2};
    assert [q][..0] == [];
  }

  /** Refusal totals count every refusal of the run; the log holds the first sixty-four of them. */
  lemma {:induction false} AuditRefusals(c: Ceilings, qs: seq<Request>)
    ensures var s, log := Audit(c, qs), LogOf(c, qs);
            && s.refusedBytes == Tally(OfBytes, log)
            && s.refusedObjects == Tally(OfObjects, log)
            && s.recorded == log[..Min(|log|, MAX_RECORDED_EXCEEDANCES)]
  {
    if qs != [] {
      var front := qs[..|qs| - 1];
      AuditRefusals(c, front);
      RunsAreWellFormed(c, front);
      var log, log' := LogOf(c, front), LogOf(c, qs);
      assert log' != log ==> log'[..|log'| - 1] == log;
    }
  }
}
