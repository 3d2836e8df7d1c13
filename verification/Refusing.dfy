/** Every refusal a record can be answered with: exactly which, for each registry and request. */
module Refusing {
  import opened Basics
  import opened Text
  import opened Vocabulary
  import opened Release
  import opened Capacity
  import opened Accepting
  import opened JsonSize
  import opened RecordSize

  /** Some field may be reported and is not registered as masked. */
  ghost predicate UnmaskedReportable(registry: Registry, requested: Option<seq<string>>) {
    exists i | 0 <= i < |registry| :: IsRequested(registry[i], requested) && !registry[i].masked
  }

  ghost predicate SomeUnrequested(registry: Registry, requested: Option<seq<string>>) {
    exists i | 0 <= i < |registry| :: !IsRequested(registry[i], requested)
  }

  /** The refusals some record can be answered with, given the registry and the request. */
  ghost predicate CanRefuse(registry: Registry, requested: Option<seq<string>>, r: Refusal) {
    match r
    case NotObject => true
    case UnknownKey => true
    case MissingKey => true
    case BadSchema => true
    case UnknownOutcome => true
    case ReservedOutcome => true
    case DifferencesNotList => true
    case TooManyDifferences => true
    case OutcomeDifferencesDisagree => true
    case DifferenceNotObject => registry != []
    case UnknownField => registry != []
    case FieldNotRequested => SomeUnrequested(registry, requested)
    case UnknownRelation => Reportable(registry, requested)
    case UnknownMagnitude => Reportable(registry, requested)
    case DuplicateField => |registry| >= 2 && Reportable(registry, requested)
    case MaskNotRegistered => UnmaskedReportable(registry, requested)
    case _ => false
  }

  // ------------------------------------------------------------ no other refusal

  lemma ClaimRefuses(registry: Registry, requested: Option<seq<string>>, claimed: set<string>, entry: Json)
    requires registry != [] && Claim(registry, requested, claimed, entry).Err?
    ensures var r := Claim(registry, requested, claimed, entry).error;
            if r.DuplicateField? then claimed != {} && Reportable(registry, requested)
            else CanRefuse(registry, requested, r)
  {
    var r := Claim(registry, requested, claimed, entry).error;
    if !(r in {DifferenceNotObject, UnknownKey, UnknownField}) {
      var k := Index(registry, entry.fields["field"].s);
      assert r.FieldNotRequested? ==> !IsRequested(registry[k], requested);
      assert !r.FieldNotRequested? ==> IsRequested(registry[k], requested);
    }
  }

  lemma {:induction false} ClaimsRefuse(registry: Registry, requested: Option<seq<string>>, entries: seq<Json>)
    requires |entries| <= |registry| && Claims(registry, requested, entries).Err?
    ensures CanRefuse(registry, requested, Claims(registry, requested, entries).error)
  {
    var front, last := entries[..|entries| - 1], entries[|entries| - 1];
    var before := Claims(registry, requested, front);
    if before.Err? {
      ClaimsRefuse(registry, requested, front);
    } else {
      ClaimsAreIndependent(registry, requested, front);
      FieldsAt(before.value);
      ClaimRefuses(registry, requested, Elements(FieldsOf(before.value)), last);
      if front == [] {
        assert FieldsOf(before.value) == [];
      }
    }
  }

  lemma ShapeRefuses(registry: Registry, requested: Option<seq<string>>, document: Json)
    requires Shape(registry, document).Err?
    ensures CanRefuse(registry, requested, Shape(registry, document).error)
  {
  }

  /** A record's verdict is an accepted one of the list or one of these refusals; the scan passes it either way. */
  lemma DocumentVerdicts(registry: Registry, policy: Policy, requested: Option<seq<string>>, document: Json)
    requires Distinct(registry)
    ensures var v := FromDocument(registry, policy, requested, document);
            && Scans(registry, v)
            && (|| v in Accepted(registry, policy, requested)
                || (v.refusal.Some? && v == RefusedFor(v.refusal.value)
                    && CanRefuse(registry, requested, v.refusal.value)))
  {
    match Shape(registry, document)
    case Err(reason) => ShapeRefuses(registry, requested, document);
    case Ok((outcome, entries)) =>
      ShapeOutcome(registry, document);
      match Claims(registry, requested, entries)
      case Err(reason) => ClaimsRefuse(registry, requested, entries);
      case Ok(ds) =>
        if !Disagrees(outcome, ds) {
          ReleasedIsListed(registry, policy, requested, outcome, entries);
        }
  }

  // ------------------------------------------------------------ a record behind each

  function Record(schema: Json, outcome: Json, differences: Json): Json {
    JObject(map["schema" := schema, "outcome" := outcome, "differences" := differences])
  }

  const GOOD_SCHEMA: Json := JString(RELEASE_SCHEMA)

  function Listing(items: seq<Json>): Json {
    Record(GOOD_SCHEMA, JString("equivalent"), JArray(items))
  }

  function Entry(field: Json, relation: Json, magnitude: Json): Json {
    JObject(map["field" := field, "relation" := relation, "magnitude" := magnitude])
  }

  function GoodEntry(field: string): Json {
    Entry(JString(field), GOOD_RELATION, GOOD_MAGNITUDE)
  }

  lemma RecordShape(registry: Registry, schema: Json, outcome: Json, differences: Json)
    ensures var shape := Shape(registry, Record(schema, outcome, differences));
            && (schema != GOOD_SCHEMA ==> shape == Err(BadSchema))
            && (schema == GOOD_SCHEMA && outcome == JNull ==> shape == Err(UnknownOutcome))
            && (schema == GOOD_SCHEMA && outcome == JString("refused") ==> shape == Err(ReservedOutcome))
            && (schema == GOOD_SCHEMA && outcome == JString("equivalent") ==>
                  shape == if !differences.JArray? then Err(DifferencesNotList)
                           else if |differences.items| > |registry| then Err(TooManyDifferences)
                           else Ok((Equivalent, differences.items)))
  {
    assert Record(schema, outcome, differences).fields.Keys == {"schema", "outcome", "differences"};
  }

  /** The refusals the shape of a record decides. */
  predicate OfShape(r: Refusal) {
    r in {NotObject, UnknownKey, MissingKey, BadSchema, UnknownOutcome, ReservedOutcome, DifferencesNotList,
          TooManyDifferences}
  }

  function ShapelessRecord(registry: Registry, r: Refusal): Json {
    match r
    case NotObject => JNull
    case UnknownKey => JObject(map["extra" := JNull])
    case MissingKey => JObject(map[])
    case TooManyDifferences => Crowd(registry)
    case _ => Record(SchemaIn(r), OutcomeIn(r), JNull)
  }

  function SchemaIn(r: Refusal): Json {
    if r.BadSchema? then JNull else GOOD_SCHEMA
  }

  function OutcomeIn(r: Refusal): Json {
    match r
    case ReservedOutcome => JString(OutcomeName(Refused))
    case DifferencesNotList => JString(OutcomeName(Equivalent))
    case _ => JNull
  }

  lemma ShapelessIsRefused(registry: Registry, r: Refusal)
    requires OfShape(r)
    ensures Shape(registry, ShapelessRecord(registry, r)) == Err(r)
  {
    match r
    case NotObject =>
    case UnknownKey => assert "extra" in map["extra" := JNull].Keys;
    case MissingKey => assert "schema" !in JObject(map[]).fields.Keys;
    case BadSchema => RecordShape(registry, JNull, JNull, JNull);
    case UnknownOutcome => RecordShape(registry, GOOD_SCHEMA, JNull, JNull);
    case ReservedOutcome => RecordShape(registry, GOOD_SCHEMA, JString("refused"), JNull);
    case DifferencesNotList => RecordShape(registry, GOOD_SCHEMA, JString("equivalent"), JNull);
    case TooManyDifferences => CrowdIsRecord(registry);
  }

  lemma ThreeIsHandy(registry: Registry, j: Json)
    requires j.JObject? && j.fields.Keys == {"schema", "outcome", "differences"}
    requires forall k | k in j.fields :: Shallow(j.fields[k], 0) && Size(j.fields[k]) <= 31
    ensures Handy(registry, j)
  {
    ThreeKeyedRecord(j);
    forall k | k in j.fields ensures Shallow(j.fields[k], 2) {
      Deeper(j.fields[k]);
    }
  }

  lemma Deeper(j: Json)
    requires Shallow(j, 0)
    ensures Shallow(j, 2)
  {
  }

  lemma PartsAreHandy(registry: Registry, schema: Json, outcome: Json, differences: Json)
    requires Shallow(schema, 0) && Shallow(outcome, 0) && Shallow(differences, 0)
    requires Size(schema) <= 31 && Size(outcome) <= 31 && Size(differences) <= 31
    ensures Handy(registry, Record(schema, outcome, differences))
  {
    var j := Record(schema, outcome, differences);
    assert j.fields.Keys == {"schema", "outcome", "differences"};
    ThreeIsHandy(registry, j);
  }

  lemma ShapelessIsHandy(registry: Registry, r: Refusal)
    requires OfShape(r) && r != TooManyDifferences
    ensures Handy(registry, ShapelessRecord(registry, r))
  {
    if r in {NotObject, UnknownKey, MissingKey} {
      UnkeyedIsHandy(registry, r);
    } else {
      KeyedIsHandy(registry, r);
    }
  }

  lemma UnkeyedIsHandy(registry: Registry, r: Refusal)
    requires r in {NotObject, UnknownKey, MissingKey}
    ensures Handy(registry, ShapelessRecord(registry, r))
  {
    match r
    case NotObject =>
    case UnknownKey => ExtraIsHandy(registry);
    case MissingKey => assert JObject(map[]).fields.Keys == {};
  }

  lemma KeyedIsHandy(registry: Registry, r: Refusal)
    requires r in {BadSchema, UnknownOutcome, ReservedOutcome, DifferencesNotList}
    ensures Handy(registry, ShapelessRecord(registry, r))
  {
    PartsAreShort(r);
    PartsAreHandy(registry, SchemaIn(r), OutcomeIn(r), JNull);
  }

  lemma PartsAreShort(r: Refusal)
    ensures Shallow(SchemaIn(r), 0) && Size(SchemaIn(r)) <= 31
    ensures Shallow(OutcomeIn(r), 0) && Size(OutcomeIn(r)) <= 31
  {
    SizeOfSchema();
    NamesArePlain(Refused, ValueDiffers, Minor);
    NamesArePlain(Equivalent, ValueDiffers, Minor);
  }

  lemma ExtraIsHandy(registry: Registry)
    ensures Handy(registry, JObject(map["extra" := JNull]))
  {
    PlainText("extra");
    OneMember(JObject(map["extra" := JNull]), "extra");
  }

  predicate Naming(registry: Registry, field: Json) {
    field == JNull || (field.JString? && exists k :: 0 <= k < |registry| && field.s == registry[k].id)
  }

  /** Entries that are short whatever the registry. */
  ghost predicate Brief(registry: Registry, items: seq<Json>) {
    && |items| <= 2
    && forall i | 0 <= i < |items| :: Shallow(items[i], 1) && (LegalIds(registry) ==> Size(items[i]) <= 135)
  }

  lemma ValuesAreBrief(relation: Json, magnitude: Json)
    requires relation in {JNull, GOOD_RELATION, MASKED_RELATION} && magnitude in {JNull, GOOD_MAGNITUDE}
    ensures Shallow(relation, 0) && Size(relation) <= 25
    ensures Shallow(magnitude, 0) && Size(magnitude) <= 10
  {
    NamesArePlain(Exact, ValueDiffers, Minor);
    NamesArePlain(Exact, MaskedNondeterministic, Minor);
  }

  lemma FieldIsBrief(registry: Registry, field: Json)
    requires Naming(registry, field)
    ensures Shallow(field, 0) && (LegalIds(registry) ==> Size(field) <= 65)
  {
    if LegalIds(registry) && field.JString? {
      LegalIsShort(field.s);
    }
  }

  lemma EntryOf(field: Json, relation: Json, magnitude: Json)
    requires Shallow(field, 0) && Shallow(relation, 0) && Shallow(magnitude, 0)
    ensures Shallow(Entry(field, relation, magnitude), 1)
    ensures Size(Entry(field, relation, magnitude)) == 35 + Size(field) + Size(relation) + Size(magnitude)
  {
    EntryKeys(field, relation, magnitude);
    ThreeKeyedEntry(Entry(field, relation, magnitude));
  }

  lemma EntryIsBrief(registry: Registry, field: Json, relation: Json, magnitude: Json)
    requires Naming(registry, field) && relation in {JNull, GOOD_RELATION, MASKED_RELATION}
    requires magnitude in {JNull, GOOD_MAGNITUDE}
    ensures var e := Entry(field, relation, magnitude);
            Shallow(e, 1) && (LegalIds(registry) ==> Size(e) <= 135)
  {
    FieldIsBrief(registry, field);
    ValuesAreBrief(relation, magnitude);
    EntryOf(field, relation, magnitude);
  }

  lemma ListingIsHandy(registry: Registry, items: seq<Json>)
    requires Brief(registry, items)
    ensures Handy(registry, Listing(items))
  {
    NamesArePlain(Equivalent, ValueDiffers, Minor);
    assert Listing(items).fields.Keys == {"schema", "outcome", "differences"};
    FewIsHandy(registry, Listing(items), "equivalent", items);
  }

  lemma ListingClaims(registry: Registry, policy: Policy, requested: Option<seq<string>>, items: seq<Json>, r: Refusal)
    requires |items| <= |registry|
    requires Claims(registry, requested, items) == Err(r) || (items == [] && r == OutcomeDifferencesDisagree)
    ensures FromDocument(registry, policy, requested, Listing(items)) == RefusedFor(r)
  {
    RecordShape(registry, GOOD_SCHEMA, JString("equivalent"), JArray(items));
  }

  lemma OneClaim(registry: Registry, requested: Option<seq<string>>, entry: Json)
    ensures Claims(registry, requested, [entry]).Err? <==> Claim(registry, requested, {}, entry).Err?
    ensures Claim(registry, requested, {}, entry).Err? ==>
            Claims(registry, requested, [entry]) == Err(Claim(registry, requested, {}, entry).error)
    ensures Claim(registry, requested, {}, entry).Ok? ==>
            Claims(registry, requested, [entry]) == Ok([Claim(registry, requested, {}, entry).value])
  {
    assert [entry][..0] == [];
    assert Elements(FieldsOf([])) == {};
    if Claim(registry, requested, {}, entry).Ok? {
      EmptyPrefix([Claim(registry, requested, {}, entry).value]);
    }
  }

  lemma EntryKeys(field: Json, relation: Json, magnitude: Json)
    ensures Entry(field, relation, magnitude).fields.Keys == {"field", "relation", "magnitude"}
  {
  }

  /** What becomes of a claim about a registered field. */
  lemma FieldClaim(registry: Registry, requested: Option<seq<string>>, claimed: set<string>, k: nat,
                   relation: Json, magnitude: Json)
    requires Distinct(registry) && k < |registry|
    ensures var field := registry[k];
            Claim(registry, requested, claimed, Entry(JString(field.id), relation, magnitude)) ==
            if !IsRequested(field, requested) then Err(FieldNotRequested)
            else if field.id in claimed then Err(DuplicateField)
            else if RelationIn(relation).None? then Err(UnknownRelation)
            else if MagnitudeIn(magnitude).None? then Err(UnknownMagnitude)
            else if RelationIn(relation).value.MaskedNondeterministic? && !field.masked then Err(MaskNotRegistered)
            else Ok(Difference(field.id, RelationIn(relation).value, MagnitudeIn(magnitude).value))
  {
    EntryKeys(JString(registry[k].id), relation, magnitude);
    assert Index(registry, registry[k].id) == k;
  }

  const GOOD_RELATION: Json := JString("value_differs")
  const MASKED_RELATION: Json := JString("masked_nondeterministic")
  const GOOD_MAGNITUDE: Json := JString("minor")

  lemma GoodSpellings()
    ensures RelationIn(GOOD_RELATION) == Some(ValueDiffers) && RelationIn(JNull) == None
    ensures RelationIn(MASKED_RELATION) == Some(MaskedNondeterministic)
    ensures MagnitudeIn(GOOD_MAGNITUDE) == Some(Minor) && MagnitudeIn(JNull) == None
  {
  }

  lemma TwoClaims(registry: Registry, requested: Option<seq<string>>, k: nat)
    requires Distinct(registry) && k < |registry| && IsRequested(registry[k], requested)
    ensures var e := GoodEntry(registry[k].id); Claims(registry, requested, [e, e]) == Err(DuplicateField)
  {
    var e := GoodEntry(registry[k].id);
    GoodSpellings();
    FieldClaim(registry, requested, {}, k, GOOD_RELATION, GOOD_MAGNITUDE);
    FieldClaim(registry, requested, {registry[k].id}, k, GOOD_RELATION, GOOD_MAGNITUDE);
    OneClaim(registry, requested, e);
    var d := Difference(registry[k].id, ValueDiffers, Minor);
    TheFieldOf(d);
    ThenRefused(registry, requested, [e], e, [d]);
    assert [e] + [e] == [e, e];
  }

  lemma TheFieldOf(d: Difference)
    ensures Elements(FieldsOf([d])) == {d.field}
  {
    assert [d][..0] == [];
    assert FieldsOf([d]) == [d.field];
  }

  lemma ThenRefused(registry: Registry, requested: Option<seq<string>>, entries: seq<Json>, entry: Json,
                    ds: seq<Difference>)
    requires Claims(registry, requested, entries) == Ok(ds)
    requires Claim(registry, requested, Elements(FieldsOf(ds)), entry).Err?
    ensures Claims(registry, requested, entries + [entry])
         == Err(Claim(registry, requested, Elements(FieldsOf(ds)), entry).error)
  {
    assert (entries + [entry])[..|entries|] == entries;
  }

  /** The refusals one claim in an otherwise good record decides. */
  lemma ClaimRefusalHappens(registry: Registry, requested: Option<seq<string>>, r: Refusal) returns (items: seq<Json>)
    requires Distinct(registry) && CanRefuse(registry, requested, r) && !OfShape(r) && r != OutcomeDifferencesDisagree
    ensures |items| <= |registry| && Claims(registry, requested, items) == Err(r)
    ensures Brief(registry, items)
  {
    GoodSpellings();
    match r {
      case DifferenceNotObject => items := [JNull];
      case UnknownField =>
        EntryKeys(JNull, GOOD_RELATION, GOOD_MAGNITUDE);
        EntryIsBrief(registry, JNull, GOOD_RELATION, GOOD_MAGNITUDE);
        items := [Entry(JNull, GOOD_RELATION, GOOD_MAGNITUDE)];
      case FieldNotRequested =>
        var k :| 0 <= k < |registry| && !IsRequested(registry[k], requested);
        FieldClaim(registry, requested, {}, k, JNull, JNull);
        EntryIsBrief(registry, JString(registry[k].id), JNull, JNull);
        items := [Entry(JString(registry[k].id), JNull, JNull)];
      case UnknownRelation =>
        var k :| 0 <= k < |registry| && IsRequested(registry[k], requested);
        FieldClaim(registry, requested, {}, k, JNull, JNull);
        EntryIsBrief(registry, JString(registry[k].id), JNull, JNull);
        items := [Entry(JString(registry[k].id), JNull, JNull)];
      case UnknownMagnitude =>
        var k :| 0 <= k < |registry| && IsRequested(registry[k], requested);
        FieldClaim(registry, requested, {}, k, GOOD_RELATION, JNull);
        EntryIsBrief(registry, JString(registry[k].id), GOOD_RELATION, JNull);
        items := [Entry(JString(registry[k].id), GOOD_RELATION, JNull)];
      case MaskNotRegistered =>
        var k :| 0 <= k < |registry| && IsRequested(registry[k], requested) && !registry[k].masked;
        FieldClaim(registry, requested, {}, k, MASKED_RELATION, GOOD_MAGNITUDE);
        EntryIsBrief(registry, JString(registry[k].id), MASKED_RELATION, GOOD_MAGNITUDE);
        items := [Entry(JString(registry[k].id), MASKED_RELATION, GOOD_MAGNITUDE)];
      case DuplicateField =>
        var k :| 0 <= k < |registry| && IsRequested(registry[k], requested);
        TwoClaims(registry, requested, k);
        EntryIsBrief(registry, JString(registry[k].id), GOOD_RELATION, GOOD_MAGNITUDE);
        items := [GoodEntry(registry[k].id), GoodEntry(registry[k].id)];
        return;
    }
    OneClaim(registry, requested, items[0]);
  }

  /** Each of these refusals is some record's answer. */
  lemma EachRefusalHappens(registry: Registry, policy: Policy, requested: Option<seq<string>>, r: Refusal)
    returns (document: Json)
    requires Distinct(registry) && CanRefuse(registry, requested, r)
    ensures FromDocument(registry, policy, requested, document) == RefusedFor(r)
    ensures r != TooManyDifferences ==> Handy(registry, document)
  {
    if OfShape(r) {
      document := ShapelessRecord(registry, r);
      ShapelessIsRefused(registry, r);
      if r != TooManyDifferences {
        ShapelessIsHandy(registry, r);
      }
    } else {
      var items := [];
      if r != OutcomeDifferencesDisagree {
        items := ClaimRefusalHappens(registry, requested, r);
      }
      document := Listing(items);
      ListingIsHandy(registry, items);
      ListingClaims(registry, policy, requested, items, r);
    }
  }

  /** A record is refused for a reason exactly when the registry and the request allow that reason. */
  lemma RefusalsExactly(registry: Registry, policy: Policy, requested: Option<seq<string>>, r: Refusal)
    requires Distinct(registry)
    ensures (exists document :: FromDocument(registry, policy, requested, document) == RefusedFor(r))
            <==> CanRefuse(registry, requested, r)
  {
    if CanRefuse(registry, requested, r) {
      var document := EachRefusalHappens(registry, policy, requested, r);
    }
    forall document | FromDocument(registry, policy, requested, document) == RefusedFor(r)
      ensures CanRefuse(registry, requested, r)
    {
      DocumentVerdicts(registry, policy, requested, document);
      AcceptedIsNotRefused(registry, policy, requested, RefusedFor(r));
    }
  }

  lemma AcceptedIsNotRefused(registry: Registry, policy: Policy, requested: Option<seq<string>>, v: Verdict)
    ensures v in Accepted(registry, policy, requested) ==> v.refusal.None? && v.outcome !in CLEAN_SIDE_ONLY
  {
  }
}
