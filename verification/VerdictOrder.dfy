/**
 * The order the inside chose carries nothing: a verdict depends on which differences
 * were claimed, not on their order.
 */
module VerdictOrder {
  import opened Basics
  import opened Text
  import opened Vocabulary
  import opened Release

  /** Strictly increasing registry positions. */
  ghost predicate Sorted(registry: Registry, ds: seq<Difference>) {
    forall i, j | 0 <= i < j < |ds| :: Index(registry, ds[i].field) < Index(registry, ds[j].field)
  }

  predicate AllRegistered(registry: Registry, ds: seq<Difference>) {
    forall i | 0 <= i < |ds| :: Registered(registry, ds[i].field)
  }

  // ------------------------------------------------------------ sorting

  lemma {:induction false} InsertedElements(registry: Registry, d: Difference, ds: seq<Difference>)
    ensures Elements(Inserted(registry, d, ds)) == Elements(ds) + {d}
    ensures |Inserted(registry, d, ds)| == |ds| + 1
  {
    if ds != [] {
      assert Elements(ds) == {ds[0]} + Elements(ds[1..]);
      InsertedElements(registry, d, ds[1..]);
      var rest := Inserted(registry, d, ds[1..]);
      assert Elements([ds[0]] + rest) == {ds[0]} + Elements(rest);
      assert Elements([d] + ds) == {d} + Elements(ds);
    }
  }

  lemma PrependIsSorted(registry: Registry, d: Difference, rest: seq<Difference>)
    requires Sorted(registry, rest) && AllRegistered(registry, rest) && Registered(registry, d.field)
    requires rest != [] ==> Index(registry, d.field) < Index(registry, rest[0].field)
    ensures Sorted(registry, [d] + rest) && AllRegistered(registry, [d] + rest)
  {
    forall j | 0 <= j < |rest| ensures Index(registry, d.field) < Index(registry, rest[j].field) {
      assert j > 0 ==> Index(registry, rest[0].field) < Index(registry, rest[j].field);
    }
  }

  lemma {:induction false} InsertedIsSorted(registry: Registry, d: Difference, ds: seq<Difference>)
    requires Sorted(registry, ds) && AllRegistered(registry, ds) && Registered(registry, d.field)
    requires forall i | 0 <= i < |ds| :: ds[i].field != d.field
    ensures Sorted(registry, Inserted(registry, d, ds)) && AllRegistered(registry, Inserted(registry, d, ds))
    ensures var r := Inserted(registry, d, ds);
            r != [] && (r[0] == d || (ds != [] && r[0] == ds[0]))
  {
    if ds == [] {
      PrependIsSorted(registry, d, []);
    } else if Index(registry, d.field) < Index(registry, ds[0].field) {
      PrependIsSorted(registry, d, ds);
    } else {
      assert Index(registry, d.field) != Index(registry, ds[0].field);
      InsertedIsSorted(registry, d, ds[1..]);
      PrependIsSorted(registry, ds[0], Inserted(registry, d, ds[1..]));
    }
  }

  lemma {:induction false} OrderIsSorted(registry: Registry, ds: seq<Difference>)
    requires AllRegistered(registry, ds) && NoRepeats(FieldsOf(ds))
    ensures var r := InRegistryOrder(registry, ds);
            Sorted(registry, r) && AllRegistered(registry, r) && Elements(r) == Elements(ds) && |r| == |ds|
  {
    if ds != [] {
      var front, last := ds[..|ds| - 1], ds[|ds| - 1];
      assert ds == front + [last];
      FieldsExtend(front, last);
      OrderIsSorted(registry, front);
      var r := InRegistryOrder(registry, front);
      FieldsAt(front);
      forall i | 0 <= i < |r| ensures r[i].field != last.field {
        assert r[i] in Elements(front);
        var k :| 0 <= k < |front| && front[k] == r[i];
        assert FieldsOf(front)[k] in Elements(FieldsOf(front));
      }
      InsertedIsSorted(registry, last, r);
      InsertedElements(registry, last, r);
      assert Elements(ds) == Elements(front) + {last};
    }
  }

  /** A sorted list is determined by what it contains. */
  lemma {:induction false} SortedIsUnique(registry: Registry, xs: seq<Difference>, ys: seq<Difference>)
    requires Sorted(registry, xs) && Sorted(registry, ys) && Elements(xs) == Elements(ys)
    ensures xs == ys
    decreases |xs|
  {
    if xs == [] {
      if ys != [] {
        HasElements(ys);
      }
    } else {
      assert xs[0] in Elements(ys) && ys != [];
      assert ys[0] in Elements(xs);
      SameHead(registry, xs, ys);
      RestOf(registry, xs);
      RestOf(registry, ys);
      SortedIsUnique(registry, xs[1..], ys[1..]);
      assert xs == [xs[0]] + xs[1..] && ys == [ys[0]] + ys[1..];
    }
  }

  lemma SameHead(registry: Registry, xs: seq<Difference>, ys: seq<Difference>)
    requires Sorted(registry, xs) && Sorted(registry, ys) && xs != [] && ys != []
    requires xs[0] in ys && ys[0] in xs
    ensures xs[0] == ys[0]
  {
    var i :| 0 <= i < |xs| && xs[i] == ys[0];
    var j :| 0 <= j < |ys| && ys[j] == xs[0];
  }

  lemma RestOf(registry: Registry, xs: seq<Difference>)
    requires Sorted(registry, xs) && xs != []
    ensures Sorted(registry, xs[1..]) && Elements(xs[1..]) == Elements(xs) - {xs[0]}
  {
    assert forall i | 0 < i < |xs| :: xs[i] != xs[0];
    forall d | d in Elements(xs) && d != xs[0] ensures d in xs[1..] {
      var i :| 0 <= i < |xs| && xs[i] == d;
      assert xs[1..][i - 1] == d;
    }
  }

  // ------------------------------------------------------------ verdicts

  predicate IsAccepted(v: Verdict) {
    v.refusal.None? && v.outcome !in CLEAN_SIDE_ONLY
  }

  lemma ClaimsArePermitted(registry: Registry, requested: Option<seq<string>>, entries: seq<Json>)
    requires Claims(registry, requested, entries).Ok?
    ensures var ds := Claims(registry, requested, entries).value;
            && |ds| == |entries| && AllRegistered(registry, ds) && NoRepeats(FieldsOf(ds))
            && forall d | d in Elements(ds) :: Permitted(registry, requested, d)
  {
    ClaimsAreIndependent(registry, requested, entries);
    var ds := Claims(registry, requested, entries).value;
    forall i | 0 <= i < |ds| ensures Permitted(registry, requested, ds[i]) {
      ClaimIsPermitted(registry, requested, {}, entries[i]);
    }
  }

  /**
   * What an accepted verdict holds: permitted differences in registry order, present
   * exactly when the outcome has any.
   */
  ghost predicate Lawful(registry: Registry, requested: Option<seq<string>>, v: Verdict) {
    && Sorted(registry, v.differences)
    && (forall d | d in Elements(v.differences) :: Permitted(registry, requested, d))
    && |v.differences| <= |registry|
    && (v.outcome in EMPTY_REQUIRED <==> v.differences == [])
    && (v.outcome in DIFFERENCES_REQUIRED <==> v.differences != [])
  }

  lemma AcceptedVerdicts(registry: Registry, requested: Option<seq<string>>, document: Json)
    requires IsAccepted(FromDocument(registry, FieldRelations, requested, document))
    ensures Lawful(registry, requested, FromDocument(registry, FieldRelations, requested, document))
  {
    var (outcome, entries) := Shape(registry, document).value;
    FewEntries(registry, document);
    ReleasedVerdicts(registry, requested, outcome, entries);
  }

  lemma FewEntries(registry: Registry, document: Json)
    requires Shape(registry, document).Ok?
    ensures |Shape(registry, document).value.1| <= |registry|
  {
  }

  lemma ReleasedVerdicts(registry: Registry, requested: Option<seq<string>>, outcome: Outcome, entries: seq<Json>)
    requires Claims(registry, requested, entries).Ok? && |entries| <= |registry|
    requires IsAccepted(Released(registry, FieldRelations, outcome, Claims(registry, requested, entries).value))
    ensures Lawful(registry, requested,
                   Released(registry, FieldRelations, outcome, Claims(registry, requested, entries).value))
  {
    var ds := Claims(registry, requested, entries).value;
    ClaimsArePermitted(registry, requested, entries);
    OrderIsSorted(registry, ds);
    ReleasedAgrees(registry, outcome, ds);
  }

  lemma ReleasedAgrees(registry: Registry, outcome: Outcome, ds: seq<Difference>)
    requires IsAccepted(Released(registry, FieldRelations, outcome, ds)) && |InRegistryOrder(registry, ds)| == |ds|
    ensures Released(registry, FieldRelations, outcome, ds) == Verdict(outcome, InRegistryOrder(registry, ds), None)
    ensures outcome in EMPTY_REQUIRED <==> ds == []
    ensures outcome in DIFFERENCES_REQUIRED <==> ds != []
  {
  }

  /** The same record with its list of differences replaced. */
  function WithDifferences(document: Json, items: seq<Json>): Json
    requires document.JObject?
  {
    JObject(document.fields["differences" := JArray(items)])
  }

  lemma SameElements(xs: seq<Json>, ys: seq<Json>)
    requires multiset(xs) == multiset(ys)
    ensures |xs| == |ys| && forall e :: e in xs <==> e in ys
  {
    assert |xs| == |multiset(xs)| && |ys| == |multiset(ys)|;
    assert forall e :: e in xs <==> e in multiset(xs);
    assert forall e :: e in ys <==> e in multiset(ys);
  }

  lemma AloneElements(registry: Registry, requested: Option<seq<string>>, xs: seq<Json>, ys: seq<Json>)
    requires |xs| == |ys| && (forall e :: e in xs <==> e in ys) && AllAlone(registry, requested, xs)
    ensures AllAlone(registry, requested, ys)
    ensures Elements(AloneOnes(registry, requested, xs)) == Elements(AloneOnes(registry, requested, ys))
  {
    assert forall e | e in ys :: e in xs;
    AloneIncludes(registry, requested, xs, ys);
    AloneIncludes(registry, requested, ys, xs);
  }

  lemma AloneIncludes(registry: Registry, requested: Option<seq<string>>, xs: seq<Json>, ys: seq<Json>)
    requires (forall e | e in xs :: e in ys) && AllAlone(registry, requested, xs) && AllAlone(registry, requested, ys)
    ensures Elements(AloneOnes(registry, requested, xs)) <= Elements(AloneOnes(registry, requested, ys))
  {
    var ds, ds' := AloneOnes(registry, requested, xs), AloneOnes(registry, requested, ys);
    forall d | d in Elements(ds) ensures d in Elements(ds') {
      var i :| 0 <= i < |ds| && ds[i] == d;
      assert xs[i] in ys;
      var j :| 0 <= j < |ys| && ys[j] == xs[i];
      assert ds'[j] == d;
    }
  }

  lemma FieldSets(ds: seq<Difference>)
    ensures Elements(FieldsOf(ds)) == set d | d in Elements(ds) :: d.field
  {
    FieldsAt(ds);
    forall f | f in Elements(FieldsOf(ds)) ensures f in (set d | d in Elements(ds) :: d.field) {
      var i :| 0 <= i < |ds| && FieldsOf(ds)[i] == f;
      assert ds[i] in Elements(ds) && ds[i].field == f;
    }
    forall d | d in Elements(ds) ensures d.field in Elements(FieldsOf(ds)) {
      var i :| 0 <= i < |ds| && ds[i] == d;
      assert FieldsOf(ds)[i] == d.field;
    }
  }

  lemma ClaimsPermute(registry: Registry, requested: Option<seq<string>>, xs: seq<Json>, ys: seq<Json>)
    requires multiset(xs) == multiset(ys) && Claims(registry, requested, xs).Ok?
    ensures Claims(registry, requested, ys).Ok?
    ensures Elements(Claims(registry, requested, xs).value) == Elements(Claims(registry, requested, ys).value)
  {
    SameElements(xs, ys);
    ClaimsAreIndependent(registry, requested, xs);
    AloneElements(registry, requested, xs, ys);
    var ds, ds' := AloneOnes(registry, requested, xs), AloneOnes(registry, requested, ys);
    FieldSets(ds);
    FieldSets(ds');
    FieldsAt(ds);
    FieldsAt(ds');
    NoRepeatsCounts(FieldsOf(ds));
    NoRepeatsCounts(FieldsOf(ds'));
    ClaimsAreIndependent(registry, requested, ys);
  }

  /** Every permutation of an accepted record's differences is accepted, with the identical verdict. */
  lemma VerdictsIgnoreOrder(
    registry: Registry, policy: Policy, requested: Option<seq<string>>, document: Json, items: seq<Json>)
    requires IsAccepted(FromDocument(registry, policy, requested, document))
    requires multiset(items) == multiset(Shape(registry, document).value.1)
    ensures document.JObject?
    ensures FromDocument(registry, policy, requested, WithDifferences(document, items))
         == FromDocument(registry, policy, requested, document)
  {
    var (outcome, entries) := Shape(registry, document).value;
    ShapeIgnoresOrder(registry, document, items);
    ClaimsIgnoreOrder(registry, requested, entries, items);
    var ds, ds' := Claims(registry, requested, entries).value, Claims(registry, requested, items).value;
    assert Released(registry, policy, outcome, ds) == Released(registry, policy, outcome, ds');
  }

  lemma ShapeIgnoresOrder(registry: Registry, document: Json, items: seq<Json>)
    requires Shape(registry, document).Ok? && multiset(items) == multiset(Shape(registry, document).value.1)
    ensures document.JObject?
    ensures Shape(registry, WithDifferences(document, items)) == Ok((Shape(registry, document).value.0, items))
  {
    SameElements(items, Shape(registry, document).value.1);
    assert WithDifferences(document, items).fields.Keys == document.fields.Keys;
  }

  lemma ClaimsIgnoreOrder(registry: Registry, requested: Option<seq<string>>, xs: seq<Json>, ys: seq<Json>)
    requires multiset(xs) == multiset(ys) && Claims(registry, requested, xs).Ok?
    ensures Claims(registry, requested, ys).Ok?
    ensures var ds, ds' := Claims(registry, requested, xs).value, Claims(registry, requested, ys).value;
            InRegistryOrder(registry, ds) == InRegistryOrder(registry, ds') && |ds| == |ds'|
  {
    ClaimsPermute(registry, requested, xs, ys);
    ClaimsArePermitted(registry, requested, xs);
    ClaimsArePermitted(registry, requested, ys);
    var ds, ds' := Claims(registry, requested, xs).value, Claims(registry, requested, ys).value;
    OrderIsSorted(registry, ds);
    OrderIsSorted(registry, ds');
    SortedIsUnique(registry, InRegistryOrder(registry, ds), InRegistryOrder(registry, ds'));
  }
}
