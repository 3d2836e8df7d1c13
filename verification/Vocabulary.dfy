/** The closed vocabulary a parity verdict is made of (tools/oracle/vocabulary.py). */
module Vocabulary {
  import opened Basics

  const RELEASE_SCHEMA: string := "automonique.oracle-release/v1"
  const RECORD_LIMIT: nat := 4096

  datatype Outcome =
    | Exact | Equivalent | IntentionallyChanged | Unexplained | OracleError | InputRejected | Refused | Timeout

  datatype Relation =
    ValueDiffers | AbsentInCandidate | AbsentInReference | TypeDiffers | OrderDiffers | MaskedNondeterministic

  datatype Magnitude = NoMagnitude | Minor | Moderate | Major

  datatype Refusal =
    | NoRecord | EmptyRecord | Oversize | NotUtf8 | NotJson | NotObject | UnknownKey | MissingKey | BadSchema
    | UnknownOutcome | ReservedOutcome | DifferencesNotList | TooManyDifferences | DifferenceNotObject
    | UnknownField | UnknownRelation | UnknownMagnitude | DuplicateField | MaskNotRegistered
    | OutcomeDifferencesDisagree | FieldNotRequested | ScanRejected | InsideFailed | CustodyRejected

  datatype Policy = OutcomeOnly | FieldRelations

  datatype Field = Field(id: string, masked: bool)

  type Registry = seq<Field>

  function OutcomeName(o: Outcome): string {
    match o
    case Exact => "exact"
    case Equivalent => "equivalent"
    case IntentionallyChanged => "intentionally_changed"
    case Unexplained => "unexplained"
    case OracleError => "oracle_error"
    case InputRejected => "input_rejected"
    case Refused => "refused"
    case Timeout => "timeout"
  }

  function RelationName(r: Relation): string {
    match r
    case ValueDiffers => "value_differs"
    case AbsentInCandidate => "absent_in_candidate"
    case AbsentInReference => "absent_in_reference"
    case TypeDiffers => "type_differs"
    case OrderDiffers => "order_differs"
    case MaskedNondeterministic => "masked_nondeterministic"
  }

  function MagnitudeName(m: Magnitude): string {
    match m
    case NoMagnitude => "none"
    case Minor => "minor"
    case Moderate => "moderate"
    case Major => "major"
  }

  const CLEAN_SIDE_ONLY: set<Outcome> := {Refused, Timeout}
  const EMPTY_REQUIRED: set<Outcome> := {Exact, OracleError, InputRejected}
  const DIFFERENCES_REQUIRED: set<Outcome> := {Equivalent, IntentionallyChanged, Unexplained}
  const RELATIONS: set<Relation> :=
    {ValueDiffers, AbsentInCandidate, AbsentInReference, TypeDiffers, OrderDiffers, MaskedNondeterministic}
  const MAGNITUDES: set<Magnitude> := {NoMagnitude, Minor, Moderate, Major}
  /** Every refusal, in declaration order. */
  const ALL_REFUSALS: seq<Refusal> :=
    [NoRecord, EmptyRecord, Oversize, NotUtf8, NotJson, NotObject, UnknownKey, MissingKey, BadSchema,
     UnknownOutcome, ReservedOutcome, DifferencesNotList, TooManyDifferences, DifferenceNotObject,
     UnknownField, UnknownRelation, UnknownMagnitude, DuplicateField, MaskNotRegistered,
     OutcomeDifferencesDisagree, FieldNotRequested, ScanRejected, InsideFailed, CustodyRejected]
  const REFUSALS: set<Refusal> := Elements(ALL_REFUSALS)

  /** The outcomes a record may claim, in declaration order. */
  const WIRE_OUTCOMES: seq<Outcome> :=
    [Exact, Equivalent, IntentionallyChanged, Unexplained, OracleError, InputRejected]

  /** The members of the vocabularies that a spelling names. */
  function WireOutcome(name: string): Option<Outcome> {
    if name == "exact" then Some(Exact)
    else if name == "equivalent" then Some(Equivalent)
    else if name == "intentionally_changed" then Some(IntentionallyChanged)
    else if name == "unexplained" then Some(Unexplained)
    else if name == "oracle_error" then Some(OracleError)
    else if name == "input_rejected" then Some(InputRejected)
    else None
  }

  function RelationOf(name: string): Option<Relation> {
    if name == "value_differs" then Some(ValueDiffers)
    else if name == "absent_in_candidate" then Some(AbsentInCandidate)
    else if name == "absent_in_reference" then Some(AbsentInReference)
    else if name == "type_differs" then Some(TypeDiffers)
    else if name == "order_differs" then Some(OrderDiffers)
    else if name == "masked_nondeterministic" then Some(MaskedNondeterministic)
    else None
  }

  function MagnitudeOf(name: string): Option<Magnitude> {
    if name == "none" then Some(NoMagnitude)
    else if name == "minor" then Some(Minor)
    else if name == "moderate" then Some(Moderate)
    else if name == "major" then Some(Major)
    else None
  }

  lemma SpellingsRoundTrip(o: Outcome, r: Relation, m: Magnitude)
    ensures o !in CLEAN_SIDE_ONLY ==> WireOutcome(OutcomeName(o)) == Some(o)
    ensures o in CLEAN_SIDE_ONLY ==> WireOutcome(OutcomeName(o)) == None
    ensures RelationOf(RelationName(r)) == Some(r)
    ensures MagnitudeOf(MagnitudeName(m)) == Some(m)
  {
  }

  /** The position of a field in the registry, or its length when the field is not registered. */
  function Index(registry: Registry, id: string): (i: nat)
    ensures i <= |registry|
    ensures i < |registry| ==> registry[i].id == id
    ensures forall j | 0 <= j < i :: registry[j].id != id
  {
    if registry == [] || registry[0].id == id then 0 else 1 + Index(registry[1..], id)
  }

  predicate Registered(registry: Registry, id: string) {
    Index(registry, id) < |registry|
  }

  predicate Distinct(registry: Registry) {
    forall i, j | 0 <= i < j < |registry| :: registry[i].id != registry[j].id
  }

  // ------------------------------------------------------------ capacity

  function Power(base: nat, n: nat): nat {
    if n == 0 then 1 else base * Power(base, n - 1)
  }

  /** The alphabet size the source claims. */
  function ReleasedValueCount(registry: Registry, policy: Policy): int {
    match policy
    case OutcomeOnly => 6 + 25
    case FieldRelations => 25 + 3 + 3 * (Power(25, |registry|) - 1)
  }

  /** The source's own computation: an accumulation over the outcomes a record may claim. */
  method CountReleasedValues(registry: Registry, policy: Policy) returns (total: int)
    ensures total == ReleasedValueCount(registry, policy)
  {
    Sizes();
    var refusals := |REFUSALS| + 1;
    if policy.OutcomeOnly? {
      return |WIRE_OUTCOMES| + refusals;
    }
    var perField := 1 + |RELATIONS| * |MAGNITUDES|;
    var withDifferences := Power(perField, |registry|) - 1;
    total := refusals;
    for k := 0 to |WIRE_OUTCOMES|
      invariant total == refusals + Min(k, 1) + Max(0, k - 4) + Max(0, Min(k, 4) - 1) * withDifferences
    {
      total := total + (if WIRE_OUTCOMES[k] in EMPTY_REQUIRED then 1 else withDifferences);
    }
  }

  lemma Sizes()
    ensures |REFUSALS| == 24 && |RELATIONS| == 6 && |MAGNITUDES| == 4 && |WIRE_OUTCOMES| == 6
    ensures |EMPTY_REQUIRED| == 3 && |DIFFERENCES_REQUIRED| == 3
  {
    RefusalSizes();
  }

  lemma EveryMember(r: Relation, m: Magnitude)
    ensures r in RELATIONS && m in MAGNITUDES
  {
    match r { case ValueDiffers => case AbsentInCandidate => case AbsentInReference =>
              case TypeDiffers => case OrderDiffers => case MaskedNondeterministic => }
    match m { case NoMagnitude => case Minor => case Moderate => case Major => }
  }

  function Ordinal(r: Refusal): nat {
    match r
    case NoRecord => 0 case EmptyRecord => 1 case Oversize => 2 case NotUtf8 => 3 case NotJson => 4
    case NotObject => 5 case UnknownKey => 6 case MissingKey => 7 case BadSchema => 8 case UnknownOutcome => 9
    case ReservedOutcome => 10 case DifferencesNotList => 11 case TooManyDifferences => 12
    case DifferenceNotObject => 13 case UnknownField => 14 case UnknownRelation => 15 case UnknownMagnitude => 16
    case DuplicateField => 17 case MaskNotRegistered => 18 case OutcomeDifferencesDisagree => 19
    case FieldNotRequested => 20 case ScanRejected => 21 case InsideFailed => 22 case CustodyRejected => 23
  }

  lemma RefusalSizes()
    ensures |REFUSALS| == 24 && forall r: Refusal :: r in REFUSALS
  {
    assert forall i | 0 <= i < 24 :: Ordinal(ALL_REFUSALS[i]) == i;
    NoRepeatsCounts(ALL_REFUSALS);
    forall r: Refusal ensures r in REFUSALS {
      assert ALL_REFUSALS[Ordinal(r)] == r;
    }
  }
}
