/** Exactly how many verdicts are released, and the registry the repository declares (tools/oracle/fields.json). */
module ExactSize {
  import opened Basics
  import opened JsonSize
  import opened Vocabulary
  import opened Release
  import opened Counting
  import opened Capacity
  import opened Accepting
  import opened RecordSize
  import opened Alphabet
  import opened Attained

  /** How many fields are masked. */
  function Masked(fields: Registry): (n: nat)
    ensures n <= |fields|
  {
    if fields == [] then 0 else (if fields[0].masked then 1 else 0) + Masked(fields[1..])
  }

  /** The refusals the registry leaves without a use. */
  function Spare(registry: Registry): nat {
    1 + (if |registry| < 2 then 2 else 0) + (if Masked(registry) == |registry| then 1 else 0)
  }

  /** The accepted verdicts: every field allows 24 reports when it is masked and 20 when it is not. */
  function AcceptedCount(registry: Registry, policy: Policy): nat {
    match policy
    case OutcomeOnly => 6
    case FieldRelations => 3 * (Power(25, Masked(registry)) * Power(21, |registry| - Masked(registry)))
  }

  /** What the source's count should be. */
  function ExactCount(registry: Registry, policy: Policy): int {
    25 - Spare(registry) + AcceptedCount(registry, policy)
  }

  lemma OptionsExactly(field: Field)
    ensures |Options(field, None)| == if field.masked then 24 else 20
  {
    Sizes();
    assert |RELATIONS - {MaskedNondeterministic}| == 5;
    PairsSize(AllowedRelations(field), MAGNITUDES);
    ImageSize(Pairs(AllowedRelations(field), MAGNITUDES), (p: (Relation, Magnitude)) => Difference(field.id, p.0, p.1));
  }

  lemma {:induction false} ChoicesExactly(fields: Registry)
    ensures Choices(fields, None) == Power(25, Masked(fields)) * Power(21, |fields| - Masked(fields))
  {
    if fields != [] {
      var rest := fields[1..];
      ChoicesExactly(rest);
      OptionsExactly(fields[0]);
      Factored(fields[0].masked, Masked(rest), |rest| - Masked(rest));
    }
  }

  lemma Factored(masked: bool, m: nat, u: nat)
    ensures (if masked then 25 else 21) * (Power(25, m) * Power(21, u))
         == Power(25, m + (if masked then 1 else 0)) * Power(21, u + (if masked then 0 else 1))
  {
    var a, b := Power(25, m), Power(21, u);
    if masked {
      assert 25 * (a * b) == (25 * a) * b;
    } else {
      assert 21 * (a * b) == a * (21 * b);
    }
  }

  lemma {:induction false} MaskedIsAll(fields: Registry)
    ensures Masked(fields) == |fields| <==> AllMasked(fields)
  {
    if fields != [] {
      MaskedIsAll(fields[1..]);
      assert forall i | 0 < i < |fields| :: fields[i] == fields[1..][i - 1];
    }
  }

  lemma {:induction false} AcceptedExactly(registry: Registry, policy: Policy)
    requires Declared(registry)
    ensures |Accepted(registry, policy, None)| == AcceptedCount(registry, policy)
  {
    match policy
    case FieldRelations =>
      DetailIsInThrees(registry);
      ChoicesExactly(registry);
    case OutcomeOnly =>
      AcceptedSizeIsABound(registry, OutcomeOnly, None);
      assert IsRequested(registry[0], None);
  }

  lemma {:induction false} ListedExactly(registry: Registry, policy: Policy)
    requires Declared(registry)
    ensures |Verdicts(registry, policy)| == ExactCount(registry, policy)
  {
    AlphabetSize(registry, policy);
    SpareIsUnused(registry);
    AcceptedExactly(registry, policy);
    var listed, spare, accepted := |Verdicts(registry, policy)|, Spare(registry), AcceptedCount(registry, policy);
    assert listed == 25 - spare + accepted;
  }

  lemma SpareIsUnused(registry: Registry)
    ensures |Unused(registry)| == Spare(registry)
  {
    UnusedSize(registry);
    MaskedIsAll(registry);
  }

  /** The verdicts released are never more than this many, and this many exactly when the longest record fits. */
  lemma {:induction false} ReleasedExactly(registry: Registry, policy: Policy, limit: int, read: Bytes -> Reading)
    requires Declared(registry)
    ensures |Attainable(registry, policy, limit, read)| <= ExactCount(registry, policy)
    ensures LegalIds(registry) && ReadsJson(read) && ROOM <= limit ==>
              (|Attainable(registry, policy, limit, read)| == ExactCount(registry, policy) <==>
                 Longest(registry, policy) <= limit)
  {
    ListedExactly(registry, policy);
    Fewer(Attainable(registry, policy, limit, read), Verdicts(registry, policy));
    if LegalIds(registry) && ReadsJson(read) && ROOM <= limit {
      EverythingIsReleased(registry, policy, limit, read);
    }
  }

  // ------------------------------------------------------------ the longest record, in plain terms

  lemma LegalIsExact(id: string)
    requires LegalId(id)
    ensures TextSize(id) == |id|
  {
    assert AllBare(id);
    PlainText(id);
  }

  /** What the fullest list takes, from the identifiers alone. */
  function Letters(fields: Registry): nat {
    if fields == [] then 0
    else 68 + |fields[0].id| + (if fields[0].masked then 4 else 0) + Letters(fields[1..])
  }

  lemma {:induction false} WeightOfFields(fields: Registry)
    requires LegalIds(fields)
    ensures Weight(Fullest(fields)) == Letters(fields)
  {
    if fields != [] {
      WeightOfFields(fields[1..]);
      WeightOfCons(Heaviest(fields[0]), Fullest(fields[1..]));
      HeaviestInLetters(fields[0]);
    }
  }

  lemma HeaviestInLetters(field: Field)
    requires LegalId(field.id)
    ensures Size(EntryFor(Heaviest(field))) == 68 + |field.id| + (if field.masked then 4 else 0)
  {
    EntrySize(Heaviest(field));
    LegalIsExact(field.id);
  }

  /** The longest record needed, from the registry alone. */
  lemma {:induction false} LongestInLetters(registry: Registry)
    requires registry != [] && LegalIds(registry)
    ensures Longest(registry, FieldRelations) == 92 + Letters(registry) + |registry|
  {
    var ds := Fullest(registry);
    WeightOfFields(registry);
    FullestIsListed(registry);
    SizeOfRecord(IntentionallyChanged, ds);
  }

  // ------------------------------------------------------------ the repository's registry

  const DECLARED: Registry := [
    Field("state_transition", false), Field("action_effect", false), Field("receipt", false),
    Field("receipt_timestamp", true), Field("rendered_message", false), Field("provider_event", false),
    Field("provider_event_id", true), Field("resource_class", false)]

  lemma LegalFields()
    ensures LegalIds(DECLARED)
  {
    LegalNames();
    MoreLegalNames();
  }

  lemma LegalNames()
    ensures LegalId("state_transition") && LegalId("action_effect") && LegalId("receipt")
    ensures LegalId("receipt_timestamp")
  {
  }

  lemma MoreLegalNames()
    ensures LegalId("rendered_message") && LegalId("provider_event") && LegalId("provider_event_id")
    ensures LegalId("resource_class")
  {
  }

  lemma DistinctFields()
    ensures Declared(DECLARED)
  {
  }

  lemma DeclaredNumbers()
    ensures |DECLARED| == 8 && Masked(DECLARED) == 2 && Letters(DECLARED) == 666
  {
  }

  lemma {:induction false} AlphabetOf(registry: Registry, read: Bytes -> Reading)
    requires Declared(registry) && LegalIds(registry) && ReadsJson(read)
    requires |registry| == 8 && Masked(registry) == 2 && Letters(registry) == 666
    ensures Longest(registry, FieldRelations) == 766
    ensures |Attainable(registry, FieldRelations, RECORD_LIMIT, read)| == 24 + 3 * (Power(25, 2) * Power(21, 6))
    ensures |Attainable(registry, OutcomeOnly, RECORD_LIMIT, read)| == 30
  {
    LongestInLetters(registry);
    ReleasedExactly(registry, FieldRelations, RECORD_LIMIT, read);
    ReleasedExactly(registry, OutcomeOnly, RECORD_LIMIT, read);
  }

  /**
   * Under its own limit the repository's registry releases its whole alphabet: its longest record
   * takes 766 bytes.
   */
  lemma TheRepositorysAlphabet(read: Bytes -> Reading)
    requires ReadsJson(read)
    ensures Longest(DECLARED, FieldRelations) == 766
    ensures |Attainable(DECLARED, FieldRelations, RECORD_LIMIT, read)| == 24 + 3 * (Power(25, 2) * Power(21, 6))
    ensures |Attainable(DECLARED, OutcomeOnly, RECORD_LIMIT, read)| == 30
  {
    LegalFields();
    DistinctFields();
    DeclaredNumbers();
    AlphabetOf(DECLARED, read);
  }
}
