/**
 * The trust transition (tools/oracle/release.py): one record from the custody
 * side becomes a verdict made only of clean-side constants, or a refusal.
 */
module Release {
  import opened Basics
  import opened Text
  import opened Vocabulary

  datatype Difference = Difference(field: string, relation: Relation, magnitude: Magnitude)

  datatype Verdict = Verdict(outcome: Outcome, differences: seq<Difference>, refusal: Option<Refusal>)

  const TIMED_OUT: Verdict := Verdict(Timeout, [], None)

  function RefusedFor(reason: Refusal): Verdict {
    Verdict(Refused, [], Some(reason))
  }

  // ------------------------------------------------------------ one difference

  function Named(value: Json): Option<string> {
    if value.JString? then Some(value.s) else None
  }

  function RelationIn(value: Json): Option<Relation> {
    if value.JString? then RelationOf(value.s) else None
  }

  function MagnitudeIn(value: Json): Option<Magnitude> {
    if value.JString? then MagnitudeOf(value.s) else None
  }

  /** One claimed difference, against the registry, the request and the fields already claimed. */
  function Claim(registry: Registry, requested: Option<seq<string>>, claimed: set<string>,
                 entry: Json): Result<Difference, Refusal> {
    var o :- (if entry.JObject? then Ok(entry.fields) else Err(DifferenceNotObject));
    var _ :- Need(o.Keys == {"field", "relation", "magnitude"}, UnknownKey);
    var _ :- Need(o["field"].JString? && Registered(registry, o["field"].s), UnknownField);
    var field := registry[Index(registry, o["field"].s)];
    var _ :- Need(requested.Some? ==> field.id in requested.value, FieldNotRequested);
    var _ :- Need(field.id !in claimed, DuplicateField);
    var _ :- Need(RelationIn(o["relation"]).Some?, UnknownRelation);
    var relation := RelationIn(o["relation"]).value;
    var _ :- Need(MagnitudeIn(o["magnitude"]).Some?, UnknownMagnitude);
    var _ :- Need(relation.MaskedNondeterministic? ==> field.masked, MaskNotRegistered);
    Ok(Difference(field.id, relation, MagnitudeIn(o["magnitude"]).value))
  }

  function FieldsOf(ds: seq<Difference>): seq<string> {
    if ds == [] then [] else FieldsOf(ds[..|ds| - 1]) + [ds[|ds| - 1].field]
  }

  /** Every claimed difference in the order given, or the first refusal met. */
  function Claims(registry: Registry, requested: Option<seq<string>>,
                  entries: seq<Json>): Result<seq<Difference>, Refusal> {
    if entries == [] then Ok([]) else
      var ds :- Claims(registry, requested, entries[..|entries| - 1]);
      var d :- Claim(registry, requested, Elements(FieldsOf(ds)), entries[|entries| - 1]);
      Ok(ds + [d])
  }

  // ------------------------------------------------------------ canonical order

  /** Insert by registry position, before the first later one. */
  function Inserted(registry: Registry, d: Difference, ds: seq<Difference>): seq<Difference> {
    if ds == [] then [d]
    else if Index(registry, d.field) < Index(registry, ds[0].field) then [d] + ds
    else [ds[0]] + Inserted(registry, d, ds[1..])
  }

  function InRegistryOrder(registry: Registry, ds: seq<Difference>): seq<Difference> {
    if ds == [] then [] else Inserted(registry, ds[|ds| - 1], InRegistryOrder(registry, ds[..|ds| - 1]))
  }

  // ------------------------------------------------------------ documents

  /** The parts of a well-shaped record: an outcome it may claim and its list of differences. */
  function Shape(registry: Registry, document: Json): Result<(Outcome, seq<Json>), Refusal> {
    var o :- (if document.JObject? then Ok(document.fields) else Err(NotObject));
    var keys := {"schema", "outcome", "differences"};
    var _ :- Need(o.Keys <= keys, UnknownKey);
    var _ :- Need(keys <= o.Keys, MissingKey);
    var _ :- Need(o["schema"] == JString(RELEASE_SCHEMA), BadSchema);
    var _ :- Need(o["outcome"].JString?, UnknownOutcome);
    var name := o["outcome"].s;
    var _ :- Need(name != "refused" && name != "timeout", ReservedOutcome);
    var _ :- Need(WireOutcome(name).Some?, UnknownOutcome);
    var _ :- Need(o["differences"].JArray?, DifferencesNotList);
    var _ :- Need(|o["differences"].items| <= |registry|, TooManyDifferences);
    Ok((WireOutcome(name).value, o["differences"].items))
  }

  predicate Disagrees(outcome: Outcome, ds: seq<Difference>) {
    (outcome in EMPTY_REQUIRED && ds != []) || (outcome in DIFFERENCES_REQUIRED && ds == [])
  }

  function Released(registry: Registry, policy: Policy, outcome: Outcome, ds: seq<Difference>): Verdict {
    if Disagrees(outcome, ds) then RefusedFor(OutcomeDifferencesDisagree)
    else if policy.OutcomeOnly? then Verdict(outcome, [], None)
    else Verdict(outcome, InRegistryOrder(registry, ds), None)
  }

  function FromDocument(registry: Registry, policy: Policy, requested: Option<seq<string>>, document: Json): Verdict {
    match Shape(registry, document)
    case Err(reason) => RefusedFor(reason)
    case Ok((outcome, entries)) =>
      match Claims(registry, requested, entries)
      case Err(reason) => RefusedFor(reason)
      case Ok(ds) => Released(registry, policy, outcome, ds)
  }

  /** The source's loop: differences gathered, fields claimed, then sorted. */
  method ReadDocument(registry: Registry, policy: Policy, requested: Option<seq<string>>, document: Json)
    returns (v: Verdict)
    ensures v == FromDocument(registry, policy, requested, document)
  {
    var shape := Shape(registry, document);
    if shape.Err? {
      return RefusedFor(shape.error);
    }
    var (outcome, entries) := shape.value;
    var differences: seq<Difference> := [];
    var claimed: set<string> := {};
    for k := 0 to |entries|
      invariant Claims(registry, requested, entries[..k]) == Ok(differences)
      invariant claimed == Elements(FieldsOf(differences))
    {
      assert entries[..k + 1][..k] == entries[..k];
      var claim := Claim(registry, requested, claimed, entries[k]);
      if claim.Err? {
        ClaimsStop(registry, requested, entries, k + 1);
        return RefusedFor(claim.error);
      }
      claimed := claimed + {claim.value.field};
      assert FieldsOf(differences + [claim.value]) == FieldsOf(differences) + [claim.value.field] by {
        assert (differences + [claim.value])[..|differences|] == differences;
      }
      differences := differences + [claim.value];
    }
    assert entries[..|entries|] == entries;
    if outcome in EMPTY_REQUIRED && differences != [] {
      return RefusedFor(OutcomeDifferencesDisagree);
    }
    if outcome in DIFFERENCES_REQUIRED && differences == [] {
      return RefusedFor(OutcomeDifferencesDisagree);
    }
    if policy.OutcomeOnly? {
      return Verdict(outcome, [], None);
    }
    differences := InRegistryOrder(registry, differences);
    return Verdict(outcome, differences, None);
  }

  lemma {:induction false} ClaimsStop(registry: Registry, requested: Option<seq<string>>, entries: seq<Json>, k: nat)
    requires k <= |entries| && Claims(registry, requested, entries[..k]).Err?
    ensures Claims(registry, requested, entries) == Err(Claims(registry, requested, entries[..k]).error)
    decreases |entries| - k
  {
    if k == |entries| {
      assert entries[..k] == entries;
    } else {
      assert entries[..k + 1][..k] == entries[..k];
      ClaimsStop(registry, requested, entries, k + 1);
    }
  }

  // ------------------------------------------------------------ claims

  /** A claim judged on its own, before any other. */
  function Alone(registry: Registry, requested: Option<seq<string>>, entry: Json): Result<Difference, Refusal> {
    Claim(registry, requested, {}, entry)
  }

  /** A difference a verdict may carry: registered, requested, and masked only where the registry says so. */
  predicate Permitted(registry: Registry, requested: Option<seq<string>>, d: Difference) {
    && Registered(registry, d.field)
    && (requested.Some? ==> d.field in requested.value)
    && (d.relation.MaskedNondeterministic? ==> registry[Index(registry, d.field)].masked)
  }

  lemma ClaimIsPermitted(registry: Registry, requested: Option<seq<string>>, claimed: set<string>, entry: Json)
    ensures var claim, alone := Claim(registry, requested, claimed, entry), Alone(registry, requested, entry);
            && (claim.Ok? <==> alone.Ok? && alone.value.field !in claimed)
            && (claim.Ok? ==> claim == alone && Permitted(registry, requested, claim.value))
  {
  }

  predicate AllAlone(registry: Registry, requested: Option<seq<string>>, entries: seq<Json>) {
    forall e | e in entries :: Alone(registry, requested, e).Ok?
  }

  function AloneOnes(registry: Registry, requested: Option<seq<string>>, entries: seq<Json>): seq<Difference>
    requires AllAlone(registry, requested, entries)
  {
    seq(|entries|, i requires 0 <= i < |entries| => Alone(registry, requested, entries[i]).value)
  }

  lemma {:induction false} FieldsAt(ds: seq<Difference>)
    ensures |FieldsOf(ds)| == |ds| && forall i | 0 <= i < |ds| :: FieldsOf(ds)[i] == ds[i].field
  {
    if ds != [] {
      FieldsAt(ds[..|ds| - 1]);
    }
  }

  /** A list of claims is accepted exactly when each is good on its own and no field is claimed twice. */
  lemma {:induction false} ClaimsAreIndependent(registry: Registry, requested: Option<seq<string>>, entries: seq<Json>)
    ensures var claims := Claims(registry, requested, entries);
            && (claims.Ok? <==> AllAlone(registry, requested, entries)
                                && NoRepeats(FieldsOf(AloneOnes(registry, requested, entries))))
            && (claims.Ok? ==> claims.value == AloneOnes(registry, requested, entries))
    decreases |entries|
  {
    if entries != [] {
      var front, last := entries[..|entries| - 1], entries[|entries| - 1];
      ClaimsAreIndependent(registry, requested, front);
      assert entries == front + [last];
      assert AllAlone(registry, requested, entries)
             <==> AllAlone(registry, requested, front) && Alone(registry, requested, last).Ok?;
      if AllAlone(registry, requested, entries) {
        var ds, d := AloneOnes(registry, requested, front), Alone(registry, requested, last).value;
        var all := AloneOnes(registry, requested, entries);
        assert all == ds + [d];
        assert all[..|all| - 1] == ds;
        FieldsExtend(ds, d);
        ClaimIsPermitted(registry, requested, Elements(FieldsOf(ds)), last);
      } else if Claims(registry, requested, front).Ok? {
        ClaimIsPermitted(registry, requested, Elements(FieldsOf(Claims(registry, requested, front).value)), last);
      }
    }
  }

  lemma FieldsExtend(ds: seq<Difference>, d: Difference)
    ensures FieldsOf(ds + [d]) == FieldsOf(ds) + [d.field]
    ensures NoRepeats(FieldsOf(ds + [d])) <==> NoRepeats(FieldsOf(ds)) && d.field !in Elements(FieldsOf(ds))
  {
    assert (ds + [d])[..|ds|] == ds;
    var fs, fs' := FieldsOf(ds), FieldsOf(ds + [d]);
    assert fs'[|fs|] == d.field;
    if d.field in fs {
      var i :| 0 <= i < |fs| && fs[i] == d.field;
      assert fs'[i] == fs'[|fs|];
    }
    if NoRepeats(fs') {
      assert forall i, j | 0 <= i < j < |fs| :: fs[i] == fs'[i] && fs[j] == fs'[j];
    }
  }
}
