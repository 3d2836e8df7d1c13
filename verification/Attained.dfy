/**
 * Which verdicts of the alphabet a comparison does end with, given how many bytes a record may
 * take and a reader of JSON, and how many they are against the number the source claims.
 */
module Attained {
  import opened Basics
  import opened Text
  import opened JsonSize
  import opened Vocabulary
  import opened Release
  import opened VerdictOrder
  import opened Counting
  import opened Capacity
  import opened Accepting
  import opened RecordSize
  import opened Refusing
  import opened Alphabet

  /**
   * What the proofs ask of the reader, which reads JSON: shallow values can be written as short as
   * JSON allows, nothing is written shorter, and some byte is not UTF-8 and some is not JSON.
   */
  ghost predicate ReadsJson(read: Bytes -> Reading) {
    && (forall j | Shallow(j, 3) :: Written(read, j))
    && (forall b :: read(b).Document? ==> Size(read(b).json) <= |b|)
    && (exists x: byte :: read([x]) == BadUtf8)
    && (exists x: byte :: read([x]) == BadJson)
  }

  ghost predicate Written(read: Bytes -> Reading, j: Json) {
    exists b :: read(b) == Document(j) && |b| == Size(j)
  }

  /** Some comparison ends with the verdict. */
  ghost predicate Ends(registry: Registry, policy: Policy, limit: int, read: Bytes -> Reading, v: Verdict) {
    exists request: Request, run: Custody ::
      request.Valid() && Compare(registry, policy, request, limit, read, run) == v
  }

  /** Every verdict some comparison ends with. */
  ghost function Attainable(registry: Registry, policy: Policy, limit: int, read: Bytes -> Reading): set<Verdict> {
    set v | v in Verdicts(registry, policy) && Ends(registry, policy, limit, read, v)
  }

  lemma ReleasedAreAll(registry: Registry, policy: Policy, limit: int, read: Bytes -> Reading, v: Verdict)
    requires Declared(registry)
    ensures v in Attainable(registry, policy, limit, read) <==> Ends(registry, policy, limit, read, v)
  {
    if Ends(registry, policy, limit, read, v) {
      var request: Request, run: Custody :|
        request.Valid() && Compare(registry, policy, request, limit, read, run) == v;
      NothingElseIsReleased(registry, policy, request, limit, read, run);
    }
  }

  // ------------------------------------------------------------ written records

  /** A record that fits is compared as the document it is. */
  lemma FittingEnds(registry: Registry, policy: Policy, request: Request, limit: int, read: Bytes -> Reading,
                    document: Json)
    requires Declared(registry) && request.Valid() && request.Known(registry) && ReadsJson(read)
    requires Shallow(document, 3) && Size(document) <= limit
    ensures Ends(registry, policy, limit, read, FromDocument(registry, policy, request.Requested(), document))
  {
    assert Written(read, document);
    var b :| read(b) == Document(document) && |b| == Size(document);
    DocumentVerdicts(registry, policy, request.Requested(), document);
    WrittenIsCompared(registry, policy, request, limit, read, b);
    EndsBy(registry, policy, limit, read, request, Wrote(Some(b)));
  }

  lemma EndsBy(registry: Registry, policy: Policy, limit: int, read: Bytes -> Reading, request: Request, run: Custody)
    requires request.Valid()
    ensures Ends(registry, policy, limit, read, Compare(registry, policy, request, limit, read, run))
  {
  }

  lemma WrittenIsCompared(registry: Registry, policy: Policy, request: Request, limit: int, read: Bytes -> Reading,
                          b: Bytes)
    requires request.Known(registry) && b != [] && |b| <= limit && read(b).Document?
    requires Scans(registry, FromDocument(registry, policy, request.Requested(), read(b).json))
    ensures Compare(registry, policy, request, limit, read, Wrote(Some(b)))
         == FromDocument(registry, policy, request.Requested(), read(b).json)
  {
  }

  /** A comparison that ends with something only a record gives had such a record, and it fitted. */
  lemma EndedFits(registry: Registry, policy: Policy, limit: int, read: Bytes -> Reading, v: Verdict)
    returns (request: Request, document: Json)
    requires Declared(registry) && ReadsJson(read) && Ends(registry, policy, limit, read, v)
    requires v != TIMED_OUT && (v.refusal.Some? ==> v.refusal.value !in BEFORE && v.refusal.value != ScanRejected)
    ensures FromDocument(registry, policy, request.Requested(), document) == v && Size(document) <= limit
  {
    var run: Custody;
    request, run :| request.Valid() && Compare(registry, policy, request, limit, read, run) == v;
    WasWritten(registry, policy, request, limit, read, run, v);
    document := read(run.raw.value).json;
  }

  lemma WasWritten(registry: Registry, policy: Policy, request: Request, limit: int, read: Bytes -> Reading,
                   run: Custody, v: Verdict)
    requires Compare(registry, policy, request, limit, read, run) == v
    requires v != TIMED_OUT && (v.refusal.Some? ==> v.refusal.value !in BEFORE && v.refusal.value != ScanRejected)
    ensures run.Wrote? && run.raw.Some? && |run.raw.value| <= limit && read(run.raw.value).Document?
    ensures FromDocument(registry, policy, request.Requested(), read(run.raw.value).json) == v
  {
  }

  // ------------------------------------------------------------ exactly which

  lemma {:induction false} EntriesAreShallow(ds: seq<Difference>)
    ensures forall i | 0 <= i < |ds| :: Shallow(EntriesFor(ds)[i], 1)
  {
    forall i | 0 <= i < |ds| ensures Shallow(EntryFor(ds[i]), 1) {
      assert EntryFor(ds[i]).fields.Keys == {"field", "relation", "magnitude"};
    }
  }

  lemma RecordForIsShallow(outcome: Outcome, ds: seq<Difference>)
    ensures Shallow(RecordFor(outcome, ds), 3)
  {
    EntriesAreShallow(ds);
    RecordForIsRecord(outcome, ds);
    RecordIsShallow(RecordFor(outcome, ds), OutcomeName(outcome), EntriesFor(ds));
  }

  lemma RecordFits(registry: Registry, policy: Policy, limit: int, read: Bytes -> Reading, outcome: Outcome,
                   ds: seq<Difference>)
    requires Declared(registry) && ReadsJson(read) && Size(RecordFor(outcome, ds)) <= limit
    requires outcome !in CLEAN_SIDE_ONLY && |ds| <= |registry| && (outcome in EMPTY_REQUIRED <==> ds == [])
    requires Sorted(registry, ds) && AllPermitted(registry, None, ds)
    ensures Ends(registry, policy, limit, read, Verdict(outcome, if policy.OutcomeOnly? then [] else ds, None))
  {
    FirstIsKnown(registry, false);
    RecordRoundTrip(registry, policy, None, outcome, ds);
    RecordForIsShallow(outcome, ds);
    FittingEnds(registry, policy, First(registry, false), limit, read, RecordFor(outcome, ds));
  }

  lemma DetailedIsLawful(registry: Registry, v: Verdict)
    requires Declared(registry) && v in Accepted(registry, FieldRelations, None)
    ensures v == Verdict(v.outcome, v.differences, None) && v.outcome !in CLEAN_SIDE_ONLY
    ensures v.differences in Lists(registry, None) && (v.outcome in EMPTY_REQUIRED <==> v.differences == [])
    ensures Sorted(registry, v.differences) && AllPermitted(registry, None, v.differences)
    ensures |v.differences| <= |registry|
  {
    DetailedIsListed(registry, v);
    assert registry[0..] == registry;
    ListsAreSorted(registry, None, 0, v.differences);
    FullestIs(registry, v.differences);
    FullestIsListed(registry);
  }

  lemma DetailedIsListed(registry: Registry, v: Verdict)
    requires v in Accepted(registry, FieldRelations, None)
    ensures v == Verdict(v.outcome, v.differences, None) && v.outcome !in CLEAN_SIDE_ONLY
    ensures v.differences in Lists(registry, None) && (v.outcome in EMPTY_REQUIRED <==> v.differences == [])
  {
    if v in Plain(EMPTY_REQUIRED) {
      NothingIsListed(registry);
    }
  }

  lemma {:induction false} NothingIsListed(fields: Registry)
    ensures [] in Lists(fields, None)
  {
    if fields != [] {
      NothingIsListed(fields[1..]);
    }
  }

  /** A verdict with its differences is released exactly when its own record fits. */
  lemma DetailedExactly(registry: Registry, limit: int, read: Bytes -> Reading, v: Verdict)
    requires Declared(registry) && ReadsJson(read) && v in Accepted(registry, FieldRelations, None)
    ensures Ends(registry, FieldRelations, limit, read, v) <==> Size(RecordFor(v.outcome, v.differences)) <= limit
  {
    DetailedIsLawful(registry, v);
    if Ends(registry, FieldRelations, limit, read, v) {
      var request, document := EndedFits(registry, FieldRelations, limit, read, v);
      AcceptedRecordSize(registry, request.Requested(), document);
    }
    if Size(RecordFor(v.outcome, v.differences)) <= limit {
      RecordFits(registry, FieldRelations, limit, read, v.outcome, v.differences);
    }
  }

  lemma CrowdIsShallow(registry: Registry)
    ensures Shallow(Crowd(registry), 3)
  {
    CrowdIsRecord(registry);
    RecordIsShallow(Crowd(registry), "exact", seq(|registry| + 1, _ => JInt(0)));
  }

  lemma CrowdIsOnly(registry: Registry, policy: Policy, requested: Option<seq<string>>, document: Json)
    requires Distinct(registry)
    requires FromDocument(registry, policy, requested, document) == RefusedFor(TooManyDifferences)
    ensures Shape(registry, document) == Err(TooManyDifferences)
  {
    if Shape(registry, document).Ok? {
      var entries := Shape(registry, document).value.1;
      if Claims(registry, requested, entries).Err? {
        ClaimsNeverCount(registry, requested, entries);
      }
    }
  }

  lemma {:induction false} ClaimsNeverCount(registry: Registry, requested: Option<seq<string>>, entries: seq<Json>)
    requires Claims(registry, requested, entries).Err?
    ensures Claims(registry, requested, entries).error != TooManyDifferences
  {
    var front := entries[..|entries| - 1];
    if Claims(registry, requested, front).Err? {
      ClaimsNeverCount(registry, requested, front);
    }
  }

  /** Too many differences are told exactly when a record of that many bytes is let in. */
  lemma CrowdExactly(registry: Registry, policy: Policy, limit: int, read: Bytes -> Reading)
    requires Declared(registry) && ReadsJson(read)
    ensures Ends(registry, policy, limit, read, RefusedFor(TooManyDifferences)) <==> CrowdSize(registry) <= limit
  {
    var v := RefusedFor(TooManyDifferences);
    if Ends(registry, policy, limit, read, v) {
      var request, document := EndedFits(registry, policy, limit, read, v);
      CrowdIsOnly(registry, policy, request.Requested(), document);
      CrowdIsShortest(registry, document);
    }
    if CrowdSize(registry) <= limit {
      CrowdFits(registry, policy, limit, read);
    }
  }

  lemma CrowdFits(registry: Registry, policy: Policy, limit: int, read: Bytes -> Reading)
    requires Declared(registry) && ReadsJson(read) && CrowdSize(registry) <= limit
    ensures Ends(registry, policy, limit, read, RefusedFor(TooManyDifferences))
  {
    SizeOfCrowd(registry);
    CrowdIsShallow(registry);
    FirstIsKnown(registry, false);
    FittingEnds(registry, policy, First(registry, false), limit, read, Crowd(registry));
    CrowdIsRefused(registry, policy);
  }

  lemma CrowdIsRefused(registry: Registry, policy: Policy)
    ensures FromDocument(registry, policy, None, Crowd(registry)) == RefusedFor(TooManyDifferences)
  {
    SizeOfCrowd(registry);
  }

  // ------------------------------------------------------------ when everything is

  /** The longest record that is needed for some verdict. */
  ghost function Longest(registry: Registry, policy: Policy): nat {
    match policy
    case FieldRelations => Size(RecordFor(IntentionallyChanged, Fullest(registry)))
    case OutcomeOnly => CrowdSize(registry)
  }

  lemma LongestIs(registry: Registry, v: Verdict)
    requires Declared(registry) && v in Accepted(registry, FieldRelations, None)
    ensures Size(RecordFor(v.outcome, v.differences)) <= Longest(registry, FieldRelations)
  {
    DetailedIsLawful(registry, v);
    FullestIs(registry, v.differences);
    SizeOfRecord(v.outcome, v.differences);
    SizeOfRecord(IntentionallyChanged, Fullest(registry));
    NamesArePlain(v.outcome, ValueDiffers, Minor);
  }

  lemma LongestIsNeeded(registry: Registry)
    requires Declared(registry)
    ensures Verdict(IntentionallyChanged, Fullest(registry), None) in Accepted(registry, FieldRelations, None)
    ensures CrowdSize(registry) <= Longest(registry, FieldRelations)
  {
    var ds := Fullest(registry);
    FullestIsListed(registry);
    FullestWeighs(registry);
    SizeOfRecord(IntentionallyChanged, ds);
    assert (IntentionallyChanged, ds) in Pairs(DIFFERENCES_REQUIRED, Lists(registry, None) - {[]});
    assert Verdict(IntentionallyChanged, ds, None) in Detailed(registry, None);
  }

  /** With outcomes alone a short record is behind every accepted verdict. */
  lemma PlainEnds(registry: Registry, limit: int, read: Bytes -> Reading, v: Verdict)
    requires Declared(registry) && LegalIds(registry) && ReadsJson(read) && ROOM <= limit
    requires v in Accepted(registry, OutcomeOnly, None)
    ensures Ends(registry, OutcomeOnly, limit, read, v)
  {
    var d := Difference(registry[0].id, ValueDiffers, Minor);
    var ds := if v.outcome in EMPTY_REQUIRED then [] else [d];
    OneIsShort(v.outcome, d, ds);
    OneIsPermitted(registry, d, ds);
    PlainOutcomes(registry, v);
    RecordFits(registry, OutcomeOnly, limit, read, v.outcome, ds);
  }

  lemma OneIsPermitted(registry: Registry, d: Difference, ds: seq<Difference>)
    requires registry != [] && d == Difference(registry[0].id, ValueDiffers, Minor) && (ds == [] || ds == [d])
    ensures Sorted(registry, ds) && AllPermitted(registry, None, ds)
  {
    assert Index(registry, d.field) == 0;
  }

  lemma PlainOutcomes(registry: Registry, v: Verdict)
    requires v in Accepted(registry, OutcomeOnly, None)
    ensures v == Verdict(v.outcome, [], None) && v.outcome !in CLEAN_SIDE_ONLY
  {
  }

  lemma OneIsShort(outcome: Outcome, d: Difference, ds: seq<Difference>)
    requires LegalId(d.field) && (ds == [] || ds == [d])
    ensures Size(RecordFor(outcome, ds)) <= ROOM
  {
    SizeOfRecord(outcome, ds);
    NamesArePlain(outcome, d.relation, d.magnitude);
    EntrySize(d);
    LegalIsShort(d.field);
    assert Weight([]) == 0;
    WeightOfCons(d, []);
    assert [d] == [d] + [];
  }

  lemma AcceptedEnds(registry: Registry, policy: Policy, limit: int, read: Bytes -> Reading, v: Verdict)
    requires Declared(registry) && LegalIds(registry) && ReadsJson(read)
    requires ROOM <= limit && Longest(registry, policy) <= limit && v in Accepted(registry, policy, None)
    ensures Ends(registry, policy, limit, read, v)
  {
    match policy
    case OutcomeOnly => PlainEnds(registry, limit, read, v);
    case FieldRelations =>
      LongestIs(registry, v);
      DetailedExactly(registry, limit, read, v);
  }

  /** The refusals given before any record is looked at need no room. */
  lemma BeforeEnds(registry: Registry, policy: Policy, limit: int, read: Bytes -> Reading, r: Refusal)
    requires Declared(registry) && ReadsJson(read) && 1 <= limit && r in BEFORE
    ensures Ends(registry, policy, limit, read, RefusedFor(r))
  {
    FirstIsKnown(registry, false);
    var run := Wrote(None);
    match r {
      case NoRecord =>
      case EmptyRecord => run := Wrote(Some([]));
      case Oversize => run := TooLong;
      case InsideFailed => run := Crashed;
      case CustodyRejected => run := NotStarted;
      case NotUtf8 =>
        var x: byte :| read([x]) == BadUtf8;
        run := Wrote(Some([x]));
      case NotJson =>
        var x: byte :| read([x]) == BadJson;
        run := Wrote(Some([x]));
    }
    assert Compare(registry, policy, First(registry, false), limit, read, run) == RefusedFor(r);
  }

  lemma RefusedEnds(registry: Registry, policy: Policy, limit: int, read: Bytes -> Reading, r: Refusal)
    requires Declared(registry) && LegalIds(registry) && ReadsJson(read)
    requires ROOM <= limit && CrowdSize(registry) <= limit && r !in Unused(registry)
    ensures Ends(registry, policy, limit, read, RefusedFor(r))
  {
    if r in BEFORE {
      BeforeEnds(registry, policy, limit, read, r);
    } else if r == TooManyDifferences {
      CrowdExactly(registry, policy, limit, read);
    } else {
      var request := UsedIsProvoked(registry, r);
      var document := EachRefusalHappens(registry, policy, request.Requested(), r);
      FittingEnds(registry, policy, request, limit, read, document);
    }
  }

  lemma LateEnds(registry: Registry, policy: Policy, limit: int, read: Bytes -> Reading)
    requires Declared(registry)
    ensures Ends(registry, policy, limit, read, TIMED_OUT)
  {
    FirstIsKnown(registry, false);
    assert Compare(registry, policy, First(registry, false), limit, read, TooLate) == TIMED_OUT;
  }

  /** From so many bytes on, the whole alphabet is released exactly when the longest record fits. */
  lemma EverythingIsReleased(registry: Registry, policy: Policy, limit: int, read: Bytes -> Reading)
    requires Declared(registry) && LegalIds(registry) && ReadsJson(read) && ROOM <= limit
    ensures Attainable(registry, policy, limit, read) == Verdicts(registry, policy) <==>
            Longest(registry, policy) <= limit
  {
    if Longest(registry, policy) <= limit {
      LongestIsNeeded(registry);
      forall v | v in Verdicts(registry, policy) ensures Ends(registry, policy, limit, read, v) {
        ListedEnds(registry, policy, limit, read, v);
      }
    } else {
      LongestIsMissed(registry, policy, limit, read);
    }
  }

  lemma ListedEnds(registry: Registry, policy: Policy, limit: int, read: Bytes -> Reading, v: Verdict)
    requires Declared(registry) && LegalIds(registry) && ReadsJson(read)
    requires ROOM <= limit && Longest(registry, policy) <= limit && CrowdSize(registry) <= limit
    requires v in Verdicts(registry, policy)
    ensures Ends(registry, policy, limit, read, v)
  {
    if v in Accepted(registry, policy, None) {
      AcceptedEnds(registry, policy, limit, read, v);
    } else if v == TIMED_OUT {
      LateEnds(registry, policy, limit, read);
    } else {
      RefusalIsListed(registry, v.refusal.value);
      RefusedEnds(registry, policy, limit, read, v.refusal.value);
    }
  }

  /** Beyond the limit, the verdict that needs the longest record is never released. */
  lemma LongestIsMissed(registry: Registry, policy: Policy, limit: int, read: Bytes -> Reading)
    requires Declared(registry) && ReadsJson(read) && limit < Longest(registry, policy)
    ensures Attainable(registry, policy, limit, read) != Verdicts(registry, policy)
  {
    match policy
    case OutcomeOnly =>
      var v := RefusedFor(TooManyDifferences);
      CrowdExactly(registry, policy, limit, read);
      RefusalIsListed(registry, TooManyDifferences);
      assert v in Verdicts(registry, policy) && v !in Attainable(registry, policy, limit, read);
    case FieldRelations =>
      var v := Verdict(IntentionallyChanged, Fullest(registry), None);
      LongestIsNeeded(registry);
      DetailedExactly(registry, limit, read, v);
      assert v in Verdicts(registry, policy) && v !in Attainable(registry, policy, limit, read);
  }

  /** A registry of 59 fields or more is too wide for the limit the source sets. */
  lemma ARegistryTooWide(registry: Registry, read: Bytes -> Reading)
    requires Declared(registry) && ReadsJson(read) && |registry| >= 59
    ensures !Ends(registry, FieldRelations, RECORD_LIMIT, read,
                  Verdict(IntentionallyChanged, Fullest(registry), None))
  {
    FullestIsListed(registry);
    FullestWeighs(registry);
    SizeOfRecord(IntentionallyChanged, Fullest(registry));
    LongestIsNeeded(registry);
    DetailedExactly(registry, RECORD_LIMIT, read, Verdict(IntentionallyChanged, Fullest(registry), None));
  }

  // ------------------------------------------------------------ how many

  lemma Fewer<T>(some: set<T>, all: set<T>)
    requires some <= all
    ensures |some| <= |all| && (|some| == |all| <==> some == all)
  {
    var rest := all - some;
    assert all == some + rest;
    assert |all| == |some| + |rest|;
    assert rest == {} ==> some == all;
  }

  /** Whatever the reader and the limit, the number the source claims is not reached. */
  lemma ClaimedSizeIsNeverReached(registry: Registry, policy: Policy, limit: int, read: Bytes -> Reading)
    requires Declared(registry)
    ensures |Attainable(registry, policy, limit, read)|
         <= ReleasedValueCount(registry, policy) - (if policy.FieldRelations? then 2 else 1)
  {
    Fewer(Attainable(registry, policy, limit, read), Verdicts(registry, policy));
    ListedAgainstClaim(registry, policy);
  }

  /**
   * How near it comes: two short with field relations exactly when there are two fields or more,
   * all masked; one short with outcomes alone exactly when there are two or more, not all masked;
   * and in both only when the longest record fits.
   */
  lemma ClaimedSizeIsMissedBy(registry: Registry, policy: Policy, limit: int, read: Bytes -> Reading)
    requires Declared(registry) && LegalIds(registry) && ReadsJson(read) && ROOM <= limit
    ensures var spare := if policy.FieldRelations? then 2 else 1;
            |Attainable(registry, policy, limit, read)| == ReleasedValueCount(registry, policy) - spare <==>
              && |registry| >= 2 && (AllMasked(registry) <==> policy.FieldRelations?)
              && Longest(registry, policy) <= limit
  {
    Fewer(Attainable(registry, policy, limit, read), Verdicts(registry, policy));
    ListedAgainstClaim(registry, policy);
    EverythingIsReleased(registry, policy, limit, read);
  }
}
