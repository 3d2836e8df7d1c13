/**
 * The alphabet of the release channel (tools/oracle/channel.py and release.py): the verdicts a
 * registry leaves room for, that no comparison ends with any other, and how many they are.
 */
module Alphabet {
  import opened Basics
  import opened Text
  import opened Vocabulary
  import opened Release
  import opened Counting
  import opened Capacity
  import opened Accepting
  import opened Refusing

  // ------------------------------------------------------------ the whole boundary

  /** What reading the bytes can come to. */
  datatype Reading = BadUtf8 | BadJson | Document(json: Json)

  /** The document in the bytes received, or why there is none. */
  function Admitted(limit: int, read: Bytes -> Reading, raw: Option<Bytes>): (r: Result<Json, Refusal>)
    ensures r.Err? ==> r.error in {NoRecord, EmptyRecord, Oversize, NotUtf8, NotJson}
  {
    if raw.None? then Err(NoRecord)
    else if raw.value == [] then Err(EmptyRecord)
    else if |raw.value| > limit then Err(Oversize)
    else match read(raw.value)
      case BadUtf8 => Err(NotUtf8)
      case BadJson => Err(NotJson)
      case Document(json) => Ok(json)
  }

  function Parse(registry: Registry, policy: Policy, requested: Option<seq<string>>, limit: int,
                 read: Bytes -> Reading, raw: Option<Bytes>): Verdict
  {
    match Admitted(limit, read, raw)
    case Err(reason) => RefusedFor(reason)
    case Ok(json) =>
      var v := FromDocument(registry, policy, requested, json);
      if Scans(registry, v) then v else RefusedFor(ScanRejected)
  }

  /** What the custody side comes to. */
  datatype Custody = NotStarted | TooLate | TooLong | Crashed | Wrote(raw: Option<Bytes>)

  /** A registry as the source lets one be built. */
  predicate Declared(registry: Registry) {
    registry != [] && Distinct(registry)
  }

  /** The fields of a request as the source lets one be built, and whether records are held to them. */
  datatype Request = Request(fields: seq<string>, restrict: bool) {
    predicate Valid() {
      fields != [] && NoRepeats(fields)
    }

    predicate Known(registry: Registry) {
      forall i | 0 <= i < |fields| :: Registered(registry, fields[i])
    }

    function Requested(): Option<seq<string>> {
      if restrict then Some(fields) else None
    }
  }

  /** One comparison. */
  function Compare(registry: Registry, policy: Policy, request: Request, limit: int, read: Bytes -> Reading,
                   run: Custody): Verdict {
    if !request.Known(registry) then RefusedFor(CustodyRejected)
    else match run
      case NotStarted => RefusedFor(CustodyRejected)
      case TooLate => TIMED_OUT
      case TooLong => RefusedFor(Oversize)
      case Crashed => RefusedFor(InsideFailed)
      case Wrote(raw) => Parse(registry, policy, request.Requested(), limit, read, raw)
  }

  // ------------------------------------------------------------ the list

  /** The refusals given before a record is looked at. */
  const BEFORE: set<Refusal> := {NoRecord, EmptyRecord, Oversize, NotUtf8, NotJson, InsideFailed, CustodyRejected}

  predicate AllMasked(registry: Registry) {
    forall i | 0 <= i < |registry| :: registry[i].masked
  }

  /** The refusals a registry leaves without a use, whatever is requested. */
  function Unused(registry: Registry): set<Refusal> {
    {ScanRejected}
    + (if |registry| < 2 then {DuplicateField, FieldNotRequested} else {})
    + (if AllMasked(registry) then {MaskNotRegistered} else {})
  }

  /** A request under which a record can be refused for the reason. */
  ghost predicate Provokes(registry: Registry, request: Request, r: Refusal) {
    request.Valid() && request.Known(registry) && CanRefuse(registry, request.Requested(), r)
  }

  /** The request that names the first field alone. */
  function First(registry: Registry, restrict: bool): Request
    requires registry != []
  {
    Request([registry[0].id], restrict)
  }

  lemma FirstIsKnown(registry: Registry, restrict: bool)
    requires Declared(registry)
    ensures First(registry, restrict).Valid() && First(registry, restrict).Known(registry)
    ensures IsRequested(registry[0], First(registry, restrict).Requested())
    ensures |registry| >= 2 ==> !IsRequested(registry[1], First(registry, true).Requested())
  {
    assert Index(registry, registry[0].id) == 0;
  }

  lemma UnusedIsNeverProvoked(registry: Registry, request: Request, r: Refusal)
    requires Declared(registry) && Provokes(registry, request, r)
    ensures r !in Unused(registry)
  {
    if |registry| < 2 {
      TheOnlyField(registry, request);
    }
  }

  /** A request to a registry of one field names that field. */
  lemma TheOnlyField(registry: Registry, request: Request)
    requires |registry| == 1 && request.Valid() && request.Known(registry)
    ensures IsRequested(registry[0], request.Requested())
  {
    assert Registered(registry, request.fields[0]);
  }

  lemma UsedIsProvoked(registry: Registry, r: Refusal) returns (request: Request)
    requires Declared(registry) && r !in Unused(registry) && r !in BEFORE
    ensures Provokes(registry, request, r)
  {
    request := First(registry, r.FieldNotRequested?);
    FirstIsKnown(registry, r.FieldNotRequested?);
    if r.MaskNotRegistered? {
      var k :| 0 <= k < |registry| && !registry[k].masked;
      assert IsRequested(registry[k], None);
    }
  }

  ghost function Refusals(registry: Registry): set<Verdict> {
    Image(REFUSALS - Unused(registry), (r: Refusal) => RefusedFor(r))
  }

  /** Every verdict the registry leaves room for. */
  ghost function Verdicts(registry: Registry, policy: Policy): set<Verdict> {
    Refusals(registry) + {TIMED_OUT} + Accepted(registry, policy, None)
  }

  // ------------------------------------------------------------ nothing else is released

  lemma RefusalIsListed(registry: Registry, r: Refusal)
    ensures RefusedFor(r) in Refusals(registry) <==> r !in Unused(registry)
  {
    RefusalSizes();
    var f := (r: Refusal) => RefusedFor(r);
    assert r in REFUSALS;
    assert r !in Unused(registry) ==> f(r) in Image(REFUSALS - Unused(registry), f);
  }

  /** A request only narrows what can be accepted. */
  lemma RequestsNarrow(registry: Registry, policy: Policy, requested: Option<seq<string>>, v: Verdict)
    requires Distinct(registry) && v in Accepted(registry, policy, requested)
    ensures v in Accepted(registry, policy, None)
  {
    if v !in Plain(EMPTY_REQUIRED) {
      match policy
      case OutcomeOnly =>
        var k :| 0 <= k < |registry| && IsRequested(registry[k], requested);
        assert IsRequested(registry[k], None);
      case FieldRelations =>
        assert registry[0..] == registry;
        ListsAreSorted(registry, requested, 0, v.differences);
        ListsAreSorted(registry, None, 0, v.differences);
        assert AllPermitted(registry, None, v.differences);
        assert (v.outcome, v.differences) in Pairs(DIFFERENCES_REQUIRED, Lists(registry, None) - {[]});
        assert Verdict(v.outcome, v.differences, None) in Detailed(registry, None);
    }
  }

  lemma RecordIsListed(registry: Registry, policy: Policy, request: Request, document: Json)
    requires Declared(registry) && request.Valid() && request.Known(registry)
    ensures var v := FromDocument(registry, policy, request.Requested(), document);
            v in Verdicts(registry, policy) && Scans(registry, v)
  {
    var requested := request.Requested();
    var v := FromDocument(registry, policy, requested, document);
    DocumentVerdicts(registry, policy, requested, document);
    if v in Accepted(registry, policy, requested) {
      RequestsNarrow(registry, policy, requested, v);
    } else {
      UnusedIsNeverProvoked(registry, request, v.refusal.value);
      RefusalIsListed(registry, v.refusal.value);
    }
  }

  lemma BeforeIsListed(registry: Registry, r: Refusal)
    requires r in BEFORE
    ensures RefusedFor(r) in Refusals(registry)
  {
    RefusalIsListed(registry, r);
  }

  /**
   * Whatever the custody side does and whatever bytes arrive, the verdict is in the
   * alphabet; the scan rejects none.
   */
  lemma NothingElseIsReleased(registry: Registry, policy: Policy, request: Request, limit: int,
                              read: Bytes -> Reading, run: Custody)
    requires Declared(registry) && request.Valid()
    ensures Compare(registry, policy, request, limit, read, run) in Verdicts(registry, policy)
    ensures Compare(registry, policy, request, limit, read, run) != RefusedFor(ScanRejected)
  {
    ScanIsUnlisted(registry, policy);
    if !request.Known(registry) {
      BeforeIsListed(registry, CustodyRejected);
    } else {
      match run
      case NotStarted => BeforeIsListed(registry, CustodyRejected);
      case TooLate =>
      case TooLong => BeforeIsListed(registry, Oversize);
      case Crashed => BeforeIsListed(registry, InsideFailed);
      case Wrote(raw) => WrittenIsListed(registry, policy, request, limit, read, raw);
    }
  }

  lemma WrittenIsListed(registry: Registry, policy: Policy, request: Request, limit: int,
                        read: Bytes -> Reading, raw: Option<Bytes>)
    requires Declared(registry) && request.Valid() && request.Known(registry)
    ensures Parse(registry, policy, request.Requested(), limit, read, raw) in Verdicts(registry, policy)
  {
    match Admitted(limit, read, raw)
    case Err(reason) => BeforeIsListed(registry, reason);
    case Ok(json) => RecordIsListed(registry, policy, request, json);
  }

  lemma ScanIsUnlisted(registry: Registry, policy: Policy)
    ensures RefusedFor(ScanRejected) !in Verdicts(registry, policy)
  {
    RefusalIsListed(registry, ScanRejected);
    AcceptedIsNotRefused(registry, policy, None, RefusedFor(ScanRejected));
  }

  // ------------------------------------------------------------ how many

  lemma UnusedSize(registry: Registry)
    ensures |Unused(registry)| == 1 + (if |registry| < 2 then 2 else 0) + (if AllMasked(registry) then 1 else 0)
  {
  }

  lemma AlphabetSize(registry: Registry, policy: Policy)
    requires Distinct(registry)
    ensures |Verdicts(registry, policy)| == 25 - |Unused(registry)| + |Accepted(registry, policy, None)|
  {
    RefusalSizes();
    assert Unused(registry) <= REFUSALS;
    assert |REFUSALS - Unused(registry)| == 24 - |Unused(registry)|;
    ImageSize(REFUSALS - Unused(registry), (r: Refusal) => RefusedFor(r));
    UnionSize(Refusals(registry), {TIMED_OUT});
    Apart(registry, policy);
    UnionSize(Refusals(registry) + {TIMED_OUT}, Accepted(registry, policy, None));
  }

  lemma Apart(registry: Registry, policy: Policy)
    ensures Refusals(registry) + {TIMED_OUT} !! Accepted(registry, policy, None)
  {
    forall v | v in Refusals(registry) + {TIMED_OUT} ensures v !in Accepted(registry, policy, None) {
      AcceptedIsNotRefused(registry, policy, None, v);
    }
  }

  /** How far the list stays below the number the source claims. */
  lemma ListedAgainstClaim(registry: Registry, policy: Policy)
    requires Declared(registry)
    ensures var spare := if policy.FieldRelations? then 2 else 1;
            && |Verdicts(registry, policy)| <= ReleasedValueCount(registry, policy) - spare
            && (|Verdicts(registry, policy)| == ReleasedValueCount(registry, policy) - spare <==>
                  |registry| >= 2 && (AllMasked(registry) <==> policy.FieldRelations?))
  {
    AlphabetSize(registry, policy);
    UnusedSize(registry);
    AcceptedAgainstClaim(registry, policy);
  }

  /** What is missing among the accepted: nothing, or three verdicts at least. */
  lemma AcceptedAgainstClaim(registry: Registry, policy: Policy)
    requires Declared(registry)
    ensures var missing := ReleasedValueCount(registry, policy) - 25 - |Accepted(registry, policy, None)|;
            if policy.OutcomeOnly? || AllMasked(registry) then missing == 0 else missing >= 3
  {
    match policy
    case FieldRelations => DetailAgainstClaim(registry);
    case OutcomeOnly =>
      AcceptedSizeIsABound(registry, OutcomeOnly, None);
      assert IsRequested(registry[0], None);
  }

  lemma DetailAgainstClaim(registry: Registry)
    requires Distinct(registry)
    ensures var claimed := ReleasedValueCount(registry, FieldRelations) - 25;
            var missing := claimed - |Accepted(registry, FieldRelations, None)|;
            if AllMasked(registry) then missing == 0 else missing >= 3
  {
    AcceptedSizeIsABound(registry, FieldRelations, None);
    OpenIsMasked(registry);
    DetailIsInThrees(registry);
    InThrees(Power(25, |registry|), Choices(registry, None));
  }

  lemma OpenIsMasked(registry: Registry)
    ensures FullyOpen(registry, None) <==> AllMasked(registry)
  {
  }

  lemma InThrees(a: int, b: int)
    requires 3 * b <= 3 * a
    ensures 3 * a - 3 * b == 0 || 3 * a - 3 * b >= 3
  {
  }

  lemma DetailIsInThrees(registry: Registry)
    requires Distinct(registry)
    ensures |Accepted(registry, FieldRelations, None)| == 3 * Choices(registry, None)
    ensures ReleasedValueCount(registry, FieldRelations) - 25 == 3 * Power(25, |registry|)
  {
    AcceptedSize(registry, FieldRelations, None);
    DetailedSize(registry, None);
  }
}
