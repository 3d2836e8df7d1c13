/** How many bytes the records behind the verdicts take, and which record is the longest. */
module RecordSize {
  import opened Basics
  import opened Text
  import opened JsonSize
  import opened Vocabulary
  import opened Release
  import opened VerdictOrder
  import opened Counting
  import opened Capacity
  import opened Accepting

  /** A field identifier as the source lets one be declared. */
  predicate LegalId(id: string) {
    1 <= |id| <= 63 && 'a' <= id[0] <= 'z' && forall i | 0 <= i < |id|
        :: 'a' <= id[i] <= 'z' || '0' <= id[i] <= '9' || id[i] == '_'
  }

  predicate LegalIds(registry: Registry) {
    forall i | 0 <= i < |registry| :: LegalId(registry[i].id)
  }

  lemma LegalIsShort(id: string)
    requires LegalId(id)
    ensures TextSize(id) <= 63
  {
    assert AllBare(id);
    PlainText(id);
  }

  /** Bytes in which every refusal but one can be had, whatever the registry. */
  const ROOM: nat := 512

  /** A record any reader takes, within that room. */
  ghost predicate Handy(registry: Registry, document: Json) {
    Shallow(document, 3) && (LegalIds(registry) ==> Size(document) <= ROOM)
  }

  // ------------------------------------------------------------ what an accepted record looks like

  lemma SpelledAs(value: Json)
    ensures RelationIn(value).Some? ==> value == JString(RelationName(RelationIn(value).value))
    ensures MagnitudeIn(value).Some? ==> value == JString(MagnitudeName(MagnitudeIn(value).value))
  {
  }

  /** An entry that is accepted is spelled the one way. */
  lemma ClaimIsSpelled(registry: Registry, requested: Option<seq<string>>, claimed: set<string>, entry: Json)
    requires Claim(registry, requested, claimed, entry).Ok?
    ensures entry == EntryFor(Claim(registry, requested, claimed, entry).value)
  {
    var o := entry.fields;
    SpelledAs(o["relation"]);
    SpelledAs(o["magnitude"]);
    assert o == EntryFor(Claim(registry, requested, claimed, entry).value).fields;
  }

  lemma {:induction false} ClaimsAreSpelled(registry: Registry, requested: Option<seq<string>>, entries: seq<Json>)
    requires Claims(registry, requested, entries).Ok?
    ensures entries == EntriesFor(Claims(registry, requested, entries).value)
  {
    if entries != [] {
      var front, last := entries[..|entries| - 1], entries[|entries| - 1];
      var ds := Claims(registry, requested, front).value;
      ClaimsAreSpelled(registry, requested, front);
      ClaimIsSpelled(registry, requested, Elements(FieldsOf(ds)), last);
      FrontAndLast(entries);
      EntriesAppend(ds, Claim(registry, requested, Elements(FieldsOf(ds)), last).value);
    }
  }

  lemma EntriesAppend(ds: seq<Difference>, d: Difference)
    ensures EntriesFor(ds + [d]) == EntriesFor(ds) + [EntryFor(d)]
  {
  }

  lemma OutcomeIsSpelled(name: string)
    requires WireOutcome(name).Some?
    ensures name == OutcomeName(WireOutcome(name).value)
  {
  }

  lemma ShapeIsSpelled(registry: Registry, document: Json)
    requires Shape(registry, document).Ok?
    ensures document.JObject? && document.fields.Keys == {"schema", "outcome", "differences"}
    ensures document.fields["schema"] == JString(RELEASE_SCHEMA)
    ensures document.fields["outcome"] == JString(OutcomeName(Shape(registry, document).value.0))
    ensures document.fields["differences"] == JArray(Shape(registry, document).value.1)
  {
    OutcomeIsSpelled(document.fields["outcome"].s);
  }

  /** A record that is not refused is the record for what it claims. */
  lemma RecordIsSpelled(registry: Registry, requested: Option<seq<string>>, document: Json)
    requires Shape(registry, document).Ok? && Claims(registry, requested, Shape(registry, document).value.1).Ok?
    ensures var (outcome, entries) := Shape(registry, document).value;
            document == RecordFor(outcome, Claims(registry, requested, entries).value)
  {
    var (outcome, entries) := Shape(registry, document).value;
    ShapeIsSpelled(registry, document);
    ClaimsAreSpelled(registry, requested, entries);
    assert document.fields == RecordFor(outcome, Claims(registry, requested, entries).value).fields;
  }

  // ------------------------------------------------------------ sizes

  lemma KeysArePlain()
    ensures TextSize("schema") == 6 && TextSize("outcome") == 7 && TextSize("differences") == 11
    ensures TextSize("field") == 5 && TextSize("relation") == 8 && TextSize("magnitude") == 9
  {
    PlainText("schema");
    PlainText("outcome");
    PlainText("differences");
    PlainText("field");
    PlainText("relation");
    PlainText("magnitude");
  }

  lemma NamesArePlain(o: Outcome, r: Relation, m: Magnitude)
    ensures TextSize(OutcomeName(o)) == |OutcomeName(o)| && 5 <= |OutcomeName(o)| <= 21
    ensures TextSize(RelationName(r)) == |RelationName(r)| && 12 <= |RelationName(r)| <= 23
    ensures TextSize(MagnitudeName(m)) == |MagnitudeName(m)| && 4 <= |MagnitudeName(m)| <= 8
  {
    OutcomesArePlain(o);
    RelationsArePlain(r);
    MagnitudesArePlain(m);
    PlainText(OutcomeName(o));
    PlainText(RelationName(r));
    PlainText(MagnitudeName(m));
  }

  lemma OutcomesArePlain(o: Outcome)
    ensures AllBare(OutcomeName(o)) && 5 <= |OutcomeName(o)| <= 21
  {
  }

  lemma RelationsArePlain(r: Relation)
    ensures AllBare(RelationName(r)) && 12 <= |RelationName(r)| <= 23
  {
    match r
    case ValueDiffers => assert AllBare("value_differs");
    case AbsentInCandidate => assert AllBare("absent_in_candidate");
    case AbsentInReference => assert AllBare("absent_in_reference");
    case TypeDiffers => assert AllBare("type_differs");
    case OrderDiffers => assert AllBare("order_differs");
    case MaskedNondeterministic => assert AllBare("masked_nondeterministic");
  }

  lemma MagnitudesArePlain(m: Magnitude)
    ensures AllBare(MagnitudeName(m)) && 4 <= |MagnitudeName(m)| <= 8
  {
  }

  /** An object with a record's three keys. */
  lemma ThreeKeyedRecord(j: Json)
    requires j.JObject? && j.fields.Keys == {"schema", "outcome", "differences"}
    ensures Size(j) == 37 + Size(j.fields["schema"]) + Size(j.fields["outcome"]) + Size(j.fields["differences"])
  {
    KeysArePlain();
    ThreeMembers(j, "schema", "outcome", "differences");
  }

  /** An object with an entry's three keys. */
  lemma ThreeKeyedEntry(j: Json)
    requires j.JObject? && j.fields.Keys == {"field", "relation", "magnitude"}
    ensures Size(j) == 35 + Size(j.fields["field"]) + Size(j.fields["relation"]) + Size(j.fields["magnitude"])
  {
    KeysArePlain();
    ThreeMembers(j, "field", "relation", "magnitude");
  }

  /** What an entry takes, in plain terms. */
  lemma EntrySize(d: Difference)
    ensures Size(EntryFor(d)) == 41 + TextSize(d.field) + |RelationName(d.relation)| + |MagnitudeName(d.magnitude)|
  {
    var j := EntryFor(d);
    assert j.fields.Keys == {"field", "relation", "magnitude"};
    ThreeKeyedEntry(j);
    NamesArePlain(Exact, d.relation, d.magnitude);
  }

  /** What the entries take together. */
  ghost function Weight(ds: seq<Difference>): nat {
    if ds == [] then 0 else Size(EntryFor(ds[0])) + Weight(ds[1..])
  }

  lemma {:induction false} EntriesWeigh(ds: seq<Difference>)
    ensures Total(EntriesFor(ds)) == Weight(ds)
  {
    if ds != [] {
      EntriesWeigh(ds[1..]);
      assert EntriesFor(ds)[1..] == EntriesFor(ds[1..]);
    }
  }

  lemma SizeOfSchema()
    ensures Size(JString(RELEASE_SCHEMA)) == 31
  {
    SchemaIsPlain();
    PlainText(RELEASE_SCHEMA);
  }

  lemma SchemaIsPlain()
    ensures AllBare(RELEASE_SCHEMA) && |RELEASE_SCHEMA| == 29
  {
    var a, b := "automonique.", "oracle-release/v1";
    assert AllBare(a);
    assert AllBare(b);
    PlainJoin(a, b);
    assert RELEASE_SCHEMA == a + b;
  }

  lemma PlainJoin(a: string, b: string)
    requires AllBare(a) && AllBare(b)
    ensures AllBare(a + b)
  {
  }

  predicate IsRecord(j: Json, name: string, items: seq<Json>) {
    && j.JObject? && j.fields.Keys == {"schema", "outcome", "differences"}
    && j.fields["schema"] == JString(RELEASE_SCHEMA)
    && j.fields["outcome"] == JString(name)
    && j.fields["differences"] == JArray(items)
  }

  lemma SizeOfParts(j: Json, name: string, items: seq<Json>)
    requires IsRecord(j, name, items)
    ensures Size(j) == 72 + TextSize(name) + Total(items) + Max(0, |items| - 1)
  {
    ThreeKeyedRecord(j);
    SizeOfSchema();
    ArraySize(items);
  }

  /** A record of few short entries is handy. */
  lemma FewIsHandy(registry: Registry, j: Json, name: string, items: seq<Json>)
    requires IsRecord(j, name, items) && TextSize(name) <= 21 && |items| <= 2
    requires forall i | 0 <= i < |items| :: Shallow(items[i], 1) && (LegalIds(registry) ==> Size(items[i]) <= 135)
    ensures Handy(registry, j)
  {
    SizeOfParts(j, name, items);
    if LegalIds(registry) {
      FewWeigh(items, 135);
    }
    RecordIsShallow(j, name, items);
  }

  lemma {:induction false} FewWeigh(items: seq<Json>, most: nat)
    requires |items| <= 2 && forall i | 0 <= i < |items| :: Size(items[i]) <= most
    ensures Total(items) <= 2 * most
  {
    if items != [] {
      assert Total(items) == Size(items[0]) + Total(items[1..]);
      if |items| == 2 {
        assert items[1..][0] == items[1] && items[1..][1..] == [];
      }
    }
  }

  lemma RecordIsShallow(j: Json, name: string, items: seq<Json>)
    requires IsRecord(j, name, items) && forall i | 0 <= i < |items| :: Shallow(items[i], 1)
    ensures Shallow(j, 3)
  {
    assert Shallow(JArray(items), 2);
    forall k | k in j.fields ensures Shallow(j.fields[k], 2) {
      assert k in {"schema", "outcome", "differences"};
    }
  }

  lemma RecordForIsRecord(outcome: Outcome, ds: seq<Difference>)
    ensures IsRecord(RecordFor(outcome, ds), OutcomeName(outcome), EntriesFor(ds))
  {
    assert RecordFor(outcome, ds).fields.Keys == {"schema", "outcome", "differences"};
  }

  /** What a record takes, in plain terms. */
  lemma SizeOfRecord(outcome: Outcome, ds: seq<Difference>)
    ensures Size(RecordFor(outcome, ds)) == 72 + |OutcomeName(outcome)| + Weight(ds) + Max(0, |ds| - 1)
  {
    var j, name := RecordFor(outcome, ds), OutcomeName(outcome);
    RecordForIsRecord(outcome, ds);
    SizeOfParts(j, name, EntriesFor(ds));
    NamesArePlain(outcome, ValueDiffers, Minor);
    EntriesWeigh(ds);
  }

  // ------------------------------------------------------------ order does not matter

  lemma WeightOfCons(d: Difference, ds: seq<Difference>)
    ensures Weight([d] + ds) == Size(EntryFor(d)) + Weight(ds)
  {
    assert ([d] + ds)[1..] == ds;
  }

  lemma {:induction false} WeightOfLast(ds: seq<Difference>, d: Difference)
    ensures Weight(ds + [d]) == Weight(ds) + Size(EntryFor(d))
  {
    if ds == [] {
      assert ds + [d] == [d] + [];
      WeightOfCons(d, []);
    } else {
      WeightOfLast(ds[1..], d);
      assert ds + [d] == [ds[0]] + (ds[1..] + [d]);
      WeightOfCons(ds[0], ds[1..] + [d]);
    }
  }

  lemma {:induction false} InsertedWeighs(registry: Registry, d: Difference, ds: seq<Difference>)
    ensures Weight(Inserted(registry, d, ds)) == Size(EntryFor(d)) + Weight(ds)
    ensures |Inserted(registry, d, ds)| == |ds| + 1
  {
    if ds == [] {
      assert [d] == [d] + [];
      WeightOfCons(d, []);
    } else if Index(registry, d.field) < Index(registry, ds[0].field) {
      WeightOfCons(d, ds);
    } else {
      InsertedWeighs(registry, d, ds[1..]);
      WeightOfCons(ds[0], Inserted(registry, d, ds[1..]));
    }
  }

  lemma {:induction false} OrderKeepsWeight(registry: Registry, ds: seq<Difference>)
    ensures Weight(InRegistryOrder(registry, ds)) == Weight(ds) && |InRegistryOrder(registry, ds)| == |ds|
  {
    if ds != [] {
      var front, last := ds[..|ds| - 1], ds[|ds| - 1];
      OrderKeepsWeight(registry, front);
      InsertedWeighs(registry, last, InRegistryOrder(registry, front));
      WeightOfLast(front, last);
      FrontAndLast(ds);
    }
  }

  /** Every record released as a detailed verdict takes what the verdict's own record takes. */
  lemma AcceptedRecordSize(registry: Registry, requested: Option<seq<string>>, document: Json)
    requires IsAccepted(FromDocument(registry, FieldRelations, requested, document))
    ensures var v := FromDocument(registry, FieldRelations, requested, document);
            Size(document) == Size(RecordFor(v.outcome, v.differences))
  {
    var (outcome, entries) := Shape(registry, document).value;
    var ds := Claims(registry, requested, entries).value;
    RecordIsSpelled(registry, requested, document);
    OrderKeepsWeight(registry, ds);
    SizeOfRecord(outcome, ds);
    SizeOfRecord(outcome, InRegistryOrder(registry, ds));
  }

  // ------------------------------------------------------------ the longest record

  /** The longest a field can be reported. */
  function Heaviest(field: Field): Difference {
    Difference(field.id, if field.masked then MaskedNondeterministic else AbsentInCandidate, Moderate)
  }

  function Fullest(fields: Registry): seq<Difference> {
    if fields == [] then [] else [Heaviest(fields[0])] + Fullest(fields[1..])
  }

  lemma HeaviestIs(field: Field, d: Difference)
    requires d in Options(field, None)
    ensures Size(EntryFor(d)) <= Size(EntryFor(Heaviest(field)))
  {
    EntrySize(d);
    EntrySize(Heaviest(field));
    NamesArePlain(Exact, d.relation, d.magnitude);
    UnmaskedIsShorter(d.relation);
  }

  lemma UnmaskedIsShorter(r: Relation)
    ensures !r.MaskedNondeterministic? ==> |RelationName(r)| <= |RelationName(AbsentInCandidate)|
  {
  }

  lemma HeaviestIsAnOption(field: Field)
    ensures Heaviest(field) in Options(field, None)
  {
    var d := Heaviest(field);
    EveryMember(d.relation, d.magnitude);
    assert (d.relation, d.magnitude) in Pairs(AllowedRelations(field), MAGNITUDES);
  }

  /** No list of differences over the fields is longer, and this one is among them. */
  lemma {:induction false} FullestIs(fields: Registry, ds: seq<Difference>)
    requires ds in Lists(fields, None)
    ensures Weight(ds) <= Weight(Fullest(fields)) && |ds| <= |Fullest(fields)|
    decreases |fields|
  {
    if fields != [] {
      var rest := Fullest(fields[1..]);
      WeightOfCons(Heaviest(fields[0]), rest);
      if ds in Lists(fields[1..], None) {
        FullestIs(fields[1..], ds);
      } else {
        var d, r :| d in Options(fields[0], None) && r in Lists(fields[1..], None) && ds == [d] + r;
        HeaviestIs(fields[0], d);
        FullestIs(fields[1..], r);
        WeightOfCons(d, r);
      }
    }
  }

  lemma {:induction false} FullestIsListed(fields: Registry)
    ensures Fullest(fields) in Lists(fields, None) && |Fullest(fields)| == |fields|
  {
    if fields != [] {
      FullestIsListed(fields[1..]);
      HeaviestIsAnOption(fields[0]);
      assert (Heaviest(fields[0]), Fullest(fields[1..])) in Pairs(Options(fields[0], None), Lists(fields[1..], None));
    }
  }

  lemma {:induction false} FullestWeighs(fields: Registry)
    ensures Weight(Fullest(fields)) >= 68 * |fields|
  {
    if fields != [] {
      FullestWeighs(fields[1..]);
      WeightOfCons(Heaviest(fields[0]), Fullest(fields[1..]));
      HeaviestWeighs(fields[0]);
    }
  }

  lemma HeaviestWeighs(field: Field)
    ensures Size(EntryFor(Heaviest(field))) >= 68
  {
    EntrySize(Heaviest(field));
  }

  // ------------------------------------------------------------ too many differences

  /** The shortest record with more differences than there are fields. */
  function Crowd(registry: Registry): Json {
    JObject(map["schema" := JString(RELEASE_SCHEMA), "outcome" := JString("exact"),
                "differences" := JArray(seq(|registry| + 1, _ => JInt(0)))])
  }

  function CrowdSize(registry: Registry): nat {
    78 + 2 * |registry|
  }

  lemma {:induction false} TotalAtLeast(items: seq<Json>)
    ensures Total(items) >= |items|
    ensures (forall i | 0 <= i < |items| :: items[i] == JInt(0)) ==> Total(items) == |items|
  {
    if items != [] {
      TotalAtLeast(items[1..]);
    }
  }

  lemma CrowdIsRecord(registry: Registry)
    ensures IsRecord(Crowd(registry), "exact", seq(|registry| + 1, _ => JInt(0)))
    ensures Shape(registry, Crowd(registry)) == Err(TooManyDifferences)
  {
    assert Crowd(registry).fields.Keys == {"schema", "outcome", "differences"};
  }

  lemma SizeOfCrowd(registry: Registry)
    ensures Size(Crowd(registry)) == CrowdSize(registry)
    ensures Shape(registry, Crowd(registry)) == Err(TooManyDifferences)
  {
    var items := seq(|registry| + 1, _ => JInt(0));
    CrowdIsRecord(registry);
    SizeOfParts(Crowd(registry), "exact", items);
    NamesArePlain(Exact, ValueDiffers, Minor);
    TotalAtLeast(items);
  }

  lemma CrowdIsRead(registry: Registry, document: Json) returns (name: string, items: seq<Json>)
    requires Shape(registry, document) == Err(TooManyDifferences)
    ensures IsRecord(document, name, items) && WireOutcome(name).Some? && |items| > |registry|
  {
    name, items := document.fields["outcome"].s, document.fields["differences"].items;
  }

  lemma CrowdIsShortest(registry: Registry, document: Json)
    requires Shape(registry, document) == Err(TooManyDifferences)
    ensures Size(document) >= CrowdSize(registry)
  {
    var name, items := CrowdIsRead(registry, document);
    SizeOfParts(document, name, items);
    OutcomeIsSpelled(name);
    NamesArePlain(WireOutcome(name).value, ValueDiffers, Minor);
    TotalAtLeast(items);
  }
}
