/** Every accepted verdict: which ones, how many, and a record behind each. */
module Accepting {
  import opened Basics
  import opened Text
  import opened Vocabulary
  import opened Release
  import opened VerdictOrder
  import opened Counting
  import opened Capacity

  /** The second line of defence, on values: no more differences than fields, all of them registered. */
  predicate Scans(registry: Registry, v: Verdict) {
    |v.differences| <= |registry| && forall d | d in v.differences :: Registered(registry, d.field)
  }

  // ------------------------------------------------------------ the list

  ghost function Plain(outcomes: set<Outcome>): set<Verdict> {
    Image(outcomes, (o: Outcome) => Verdict(o, [], None))
  }

  ghost function Detailed(registry: Registry, requested: Option<seq<string>>): set<Verdict> {
    Image(Pairs(DIFFERENCES_REQUIRED, Lists(registry, requested) - {[]}),
          (p: (Outcome, seq<Difference>)) => Verdict(p.0, p.1, None))
  }

  ghost predicate Reportable(registry: Registry, requested: Option<seq<string>>) {
    exists i | 0 <= i < |registry| :: IsRequested(registry[i], requested)
  }

  ghost function WithDetail(registry: Registry, policy: Policy, requested: Option<seq<string>>): set<Verdict> {
    match policy
    case FieldRelations => Detailed(registry, requested)
    case OutcomeOnly => if Reportable(registry, requested) then Plain(DIFFERENCES_REQUIRED) else {}
  }

  ghost function Accepted(registry: Registry, policy: Policy, requested: Option<seq<string>>): set<Verdict> {
    Plain(EMPTY_REQUIRED) + WithDetail(registry, policy, requested)
  }

  // ------------------------------------------------------------ nothing else is accepted

  lemma ShapeOutcome(registry: Registry, document: Json)
    requires Shape(registry, document).Ok?
    ensures Shape(registry, document).value.0 !in CLEAN_SIDE_ONLY
    ensures |Shape(registry, document).value.1| <= |registry|
  {
  }

  /** A record that is not refused gives an accepted verdict of the list, and one the scan passes. */
  lemma ReleasedIsListed(registry: Registry, policy: Policy, requested: Option<seq<string>>, outcome: Outcome,
                         entries: seq<Json>)
    requires Distinct(registry) && outcome !in CLEAN_SIDE_ONLY && |entries| <= |registry|
    requires Claims(registry, requested, entries).Ok?
    requires !Disagrees(outcome, Claims(registry, requested, entries).value)
    ensures var v := Released(registry, policy, outcome, Claims(registry, requested, entries).value);
            v in Accepted(registry, policy, requested) && Scans(registry, v)
  {
    var ds := Claims(registry, requested, entries).value;
    match policy {
      case OutcomeOnly =>
        ClaimsArePermitted(registry, requested, entries);
        PlainIsListed(registry, requested, outcome, ds);
      case FieldRelations =>
        ReleasedVerdicts(registry, requested, outcome, entries);
        LawfulIsListed(registry, requested, Released(registry, policy, outcome, ds));
    }
  }

  lemma PlainIsListed(registry: Registry, requested: Option<seq<string>>, outcome: Outcome, ds: seq<Difference>)
    requires outcome !in CLEAN_SIDE_ONLY && !Disagrees(outcome, ds)
    requires forall d | d in Elements(ds) :: Permitted(registry, requested, d)
    ensures Verdict(outcome, [], None) in Accepted(registry, OutcomeOnly, requested)
  {
    if outcome in EMPTY_REQUIRED {
      assert Verdict(outcome, [], None) in Plain(EMPTY_REQUIRED);
    } else {
      assert ds[0] in Elements(ds);
      assert IsRequested(registry[Index(registry, ds[0].field)], requested);
      assert Verdict(outcome, [], None) in Plain(DIFFERENCES_REQUIRED);
    }
  }

  lemma LawfulIsListed(registry: Registry, requested: Option<seq<string>>, v: Verdict)
    requires Distinct(registry) && IsAccepted(v) && Lawful(registry, requested, v)
    ensures v in Accepted(registry, FieldRelations, requested) && Scans(registry, v)
  {
    assert forall i | 0 <= i < |v.differences| :: v.differences[i] in Elements(v.differences);
    if v.outcome in EMPTY_REQUIRED {
      assert Verdict(v.outcome, [], None) in Plain(EMPTY_REQUIRED);
    } else {
      assert registry[0..] == registry;
      ListsAreSorted(registry, requested, 0, v.differences);
      assert (v.outcome, v.differences) in Pairs(DIFFERENCES_REQUIRED, Lists(registry, requested) - {[]});
      assert v in Detailed(registry, requested);
    }
  }

  // ------------------------------------------------------------ everything listed is released

  function EntryFor(d: Difference): Json {
    JObject(map["field" := JString(d.field), "relation" := JString(RelationName(d.relation)),
                "magnitude" := JString(MagnitudeName(d.magnitude))])
  }

  function EntriesFor(ds: seq<Difference>): seq<Json> {
    seq(|ds|, i requires 0 <= i < |ds| => EntryFor(ds[i]))
  }

  /** A record that claims the outcome and the differences given. */
  function RecordFor(outcome: Outcome, ds: seq<Difference>): Json {
    JObject(map["schema" := JString(RELEASE_SCHEMA), "outcome" := JString(OutcomeName(outcome)),
                "differences" := JArray(EntriesFor(ds))])
  }

  lemma EntryRoundTrip(registry: Registry, requested: Option<seq<string>>, d: Difference)
    requires Permitted(registry, requested, d)
    ensures Alone(registry, requested, EntryFor(d)) == Ok(d)
  {
    SpellingsRoundTrip(Exact, d.relation, d.magnitude);
    var o := EntryFor(d).fields;
    assert o.Keys == {"field", "relation", "magnitude"};
    assert RelationIn(o["relation"]) == Some(d.relation) && MagnitudeIn(o["magnitude"]) == Some(d.magnitude);
  }

  lemma SortedFields(registry: Registry, ds: seq<Difference>)
    requires Sorted(registry, ds)
    ensures NoRepeats(FieldsOf(ds))
  {
    FieldsAt(ds);
    forall i, j | 0 <= i < j < |ds| ensures FieldsOf(ds)[i] != FieldsOf(ds)[j] {
      assert Index(registry, ds[i].field) < Index(registry, ds[j].field);
    }
  }

  lemma ClaimsRoundTrip(registry: Registry, requested: Option<seq<string>>, ds: seq<Difference>)
    requires Sorted(registry, ds) && AllPermitted(registry, requested, ds)
    ensures Claims(registry, requested, EntriesFor(ds)) == Ok(ds)
    ensures InRegistryOrder(registry, ds) == ds
  {
    var entries := EntriesFor(ds);
    forall i | 0 <= i < |ds| ensures Alone(registry, requested, entries[i]) == Ok(ds[i]) {
      EntryRoundTrip(registry, requested, ds[i]);
    }
    assert AllAlone(registry, requested, entries);
    assert AloneOnes(registry, requested, entries) == ds;
    SortedFields(registry, ds);
    ClaimsAreIndependent(registry, requested, entries);
    OrderIsSorted(registry, ds);
    SortedIsUnique(registry, ds, InRegistryOrder(registry, ds));
  }

  lemma ShapeRoundTrip(registry: Registry, outcome: Outcome, ds: seq<Difference>)
    requires outcome !in CLEAN_SIDE_ONLY && |ds| <= |registry|
    ensures Shape(registry, RecordFor(outcome, ds)) == Ok((outcome, EntriesFor(ds)))
  {
    SpellingsRoundTrip(outcome, ValueDiffers, Minor);
    var o := RecordFor(outcome, ds).fields;
    assert o.Keys == {"schema", "outcome", "differences"};
  }

  /** The record for a permitted choice is released as exactly that choice. */
  lemma RecordRoundTrip(registry: Registry, policy: Policy, requested: Option<seq<string>>, outcome: Outcome,
                        ds: seq<Difference>)
    requires outcome !in CLEAN_SIDE_ONLY && |ds| <= |registry| && (outcome in EMPTY_REQUIRED <==> ds == [])
    requires Sorted(registry, ds) && AllPermitted(registry, requested, ds)
    ensures FromDocument(registry, policy, requested, RecordFor(outcome, ds))
         == Verdict(outcome, if policy.OutcomeOnly? then [] else ds, None)
  {
    ShapeRoundTrip(registry, outcome, ds);
    ClaimsRoundTrip(registry, requested, ds);
  }

  /** Every accepted verdict of the list has a record that is released as it. */
  lemma EveryAcceptedIsReleased(registry: Registry, policy: Policy, requested: Option<seq<string>>, v: Verdict)
    requires Distinct(registry) && v in Accepted(registry, policy, requested)
    ensures exists document :: FromDocument(registry, policy, requested, document) == v
  {
    if v in Plain(EMPTY_REQUIRED) {
      RecordRoundTrip(registry, policy, requested, v.outcome, []);
    } else if policy.OutcomeOnly? {
      var k :| 0 <= k < |registry| && IsRequested(registry[k], requested);
      var ds := [Difference(registry[k].id, ValueDiffers, Minor)];
      RecordRoundTrip(registry, policy, requested, v.outcome, ds);
    } else {
      assert registry[0..] == registry;
      ListsAreSorted(registry, requested, 0, v.differences);
      RecordRoundTrip(registry, policy, requested, v.outcome, v.differences);
    }
  }

  // ------------------------------------------------------------ how many

  lemma PlainSize(outcomes: set<Outcome>)
    ensures |Plain(outcomes)| == |outcomes|
  {
    ImageSize(outcomes, (o: Outcome) => Verdict(o, [], None));
  }

  lemma DetailedSize(registry: Registry, requested: Option<seq<string>>)
    requires Distinct(registry)
    ensures |Detailed(registry, requested)| == 3 * (Choices(registry, requested) - 1)
  {
    Sizes();
    assert registry[0..] == registry;
    ListsSize(registry, requested, 0);
    ListsAreSorted(registry, requested, 0, []);
    var some := Lists(registry, requested) - {[]};
    PairsSize(DIFFERENCES_REQUIRED, some);
    ImageSize(Pairs(DIFFERENCES_REQUIRED, some), (p: (Outcome, seq<Difference>)) => Verdict(p.0, p.1, None));
  }

  lemma AcceptedSize(registry: Registry, policy: Policy, requested: Option<seq<string>>)
    requires Distinct(registry)
    ensures |Accepted(registry, policy, requested)| == 3 + |WithDetail(registry, policy, requested)|
  {
    Sizes();
    PlainSize(EMPTY_REQUIRED);
    UnionSize(Plain(EMPTY_REQUIRED), WithDetail(registry, policy, requested));
  }

  /**
   * The accepted verdicts number at most what the source counts for them, and exactly that
   * when every field is masked and requested, or, with outcomes alone, when some field can be reported.
   */
  lemma AcceptedSizeIsABound(registry: Registry, policy: Policy, requested: Option<seq<string>>)
    requires Distinct(registry)
    ensures |Accepted(registry, policy, requested)| <= ReleasedValueCount(registry, policy) - 25
    ensures |Accepted(registry, policy, requested)| == ReleasedValueCount(registry, policy) - 25 <==>
            match policy
            case FieldRelations => FullyOpen(registry, requested)
            case OutcomeOnly => Reportable(registry, requested)
  {
    Sizes();
    AcceptedSize(registry, policy, requested);
    match policy
    case FieldRelations =>
      DetailedSize(registry, requested);
      ChoicesBound(registry, requested);
    case OutcomeOnly =>
      PlainSize(DIFFERENCES_REQUIRED);
  }
}
