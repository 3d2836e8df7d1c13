/** The lists of differences a verdict can carry: which ones, and how many. */
module Capacity {
  import opened Basics
  import opened Vocabulary
  import opened Release
  import opened VerdictOrder
  import opened Counting

  // ------------------------------------------------------------ one field

  predicate IsRequested(field: Field, requested: Option<seq<string>>) {
    requested.Some? ==> field.id in requested.value
  }

  ghost function AllowedRelations(field: Field): set<Relation> {
    if field.masked then RELATIONS else RELATIONS - {MaskedNondeterministic}
  }

  /** Every difference one field may be reported with. */
  ghost function Options(field: Field, requested: Option<seq<string>>): set<Difference> {
    if IsRequested(field, requested)
    then Image(Pairs(AllowedRelations(field), MAGNITUDES), (p: (Relation, Magnitude)) => Difference(field.id, p.0, p.1))
    else {}
  }

  lemma OptionsSize(field: Field, requested: Option<seq<string>>)
    ensures |Options(field, requested)| <= 24
    ensures |Options(field, requested)| == 24 <==> field.masked && IsRequested(field, requested)
    ensures |Options(field, requested)| == 0 <==> !IsRequested(field, requested)
  {
    Sizes();
    var f := (p: (Relation, Magnitude)) => Difference(field.id, p.0, p.1);
    assert |RELATIONS - {MaskedNondeterministic}| == 5;
    PairsSize(AllowedRelations(field), MAGNITUDES);
    ImageSize(Pairs(AllowedRelations(field), MAGNITUDES), f);
  }

  lemma OptionsArePermitted(registry: Registry, requested: Option<seq<string>>, k: nat, d: Difference)
    requires k < |registry| && Distinct(registry)
    ensures d in Options(registry[k], requested) <==>
            Index(registry, d.field) == k && Permitted(registry, requested, d)
  {
    var field := registry[k];
    if Index(registry, d.field) == k && Permitted(registry, requested, d) {
      EveryMember(d.relation, d.magnitude);
      assert (d.relation, d.magnitude) in Pairs(AllowedRelations(field), MAGNITUDES);
    }
  }

  // ------------------------------------------------------------ lists of differences

  /** Every list of differences, in registry order, over the fields given. */
  ghost function Lists(fields: Registry, requested: Option<seq<string>>): set<seq<Difference>> {
    if fields == [] then {[]} else
      var rest := Lists(fields[1..], requested);
      rest + Image(Pairs(Options(fields[0], requested), rest), (p: (Difference, seq<Difference>)) => [p.0] + p.1)
  }

  predicate From(registry: Registry, k: nat, ds: seq<Difference>) {
    forall i | 0 <= i < |ds| :: k <= Index(registry, ds[i].field)
  }

  ghost predicate AllPermitted(registry: Registry, requested: Option<seq<string>>, ds: seq<Difference>) {
    forall i | 0 <= i < |ds| :: Permitted(registry, requested, ds[i])
  }

  /** The listed lists are exactly the sorted, permitted ones. */
  lemma {:induction false} ListsAreSorted(registry: Registry, requested: Option<seq<string>>, k: nat,
                                          ds: seq<Difference>)
    requires k <= |registry| && Distinct(registry)
    ensures ds in Lists(registry[k..], requested) <==>
            Sorted(registry, ds) && AllPermitted(registry, requested, ds) && From(registry, k, ds)
    ensures ds in Lists(registry[k..], requested) ==> |ds| <= |registry| - k
    decreases |registry| - k
  {
    if k == |registry| {
      if ds != [] {
        assert Permitted(registry, requested, ds[0]) ==> Index(registry, ds[0].field) < k;
      }
    } else {
      var fields := registry[k..];
      assert fields[1..] == registry[k + 1..];
      ListsAreSorted(registry, requested, k + 1, ds);
      if ds != [] {
        ListsAreSorted(registry, requested, k + 1, ds[1..]);
        OptionsArePermitted(registry, requested, k, ds[0]);
        HeadAndRest(registry, requested, k, ds);
        Prefixed(fields, requested, ds);
      }
    }
  }

  lemma Prefixed(fields: Registry, requested: Option<seq<string>>, ds: seq<Difference>)
    requires fields != [] && ds != []
    ensures ds in Lists(fields, requested) <==>
            || ds in Lists(fields[1..], requested)
            || (ds[0] in Options(fields[0], requested) && ds[1..] in Lists(fields[1..], requested))
  {
    var rest := Lists(fields[1..], requested);
    var f := (p: (Difference, seq<Difference>)) => [p.0] + p.1;
    var pairs := Pairs(Options(fields[0], requested), rest);
    if ds[0] in Options(fields[0], requested) && ds[1..] in rest {
      assert (ds[0], ds[1..]) in pairs;
      assert f((ds[0], ds[1..])) == ds;
    }
    if ds in Image(pairs, f) {
      var p :| p in pairs && f(p) == ds;
      assert ds[1..] == p.1;
    }
  }

  lemma SortedHead(registry: Registry, ds: seq<Difference>)
    requires ds != []
    ensures Sorted(registry, ds) <==>
            && Sorted(registry, ds[1..])
            && From(registry, Index(registry, ds[0].field) + 1, ds[1..])
  {
    var rest := ds[1..];
    if Sorted(registry, ds) {
      assert forall i | 0 <= i < |rest| :: rest[i] == ds[i + 1];
    }
    if Sorted(registry, rest) && From(registry, Index(registry, ds[0].field) + 1, rest) {
      SortedAfterHead(registry, ds);
    }
  }

  lemma SortedAfterHead(registry: Registry, ds: seq<Difference>)
    requires ds != [] && Sorted(registry, ds[1..]) && From(registry, Index(registry, ds[0].field) + 1, ds[1..])
    ensures Sorted(registry, ds)
  {
    var rest := ds[1..];
    forall i, j | 0 <= i < j < |ds| ensures Index(registry, ds[i].field) < Index(registry, ds[j].field) {
      assert ds[j] == rest[j - 1];
      assert i > 0 ==> ds[i] == rest[i - 1];
    }
  }

  lemma EachHead(registry: Registry, requested: Option<seq<string>>, k: nat, ds: seq<Difference>)
    requires ds != []
    ensures AllPermitted(registry, requested, ds) <==>
            Permitted(registry, requested, ds[0]) && AllPermitted(registry, requested, ds[1..])
    ensures From(registry, k, ds) <==> k <= Index(registry, ds[0].field) && From(registry, k, ds[1..])
  {
    assert forall i | 0 < i < |ds| :: ds[i] == ds[1..][i - 1];
  }

  lemma HeadAndRest(registry: Registry, requested: Option<seq<string>>, k: nat, ds: seq<Difference>)
    requires k < |registry| && ds != []
    ensures Sorted(registry, ds) && AllPermitted(registry, requested, ds) && From(registry, k, ds) <==>
            || (Sorted(registry, ds) && AllPermitted(registry, requested, ds) && From(registry, k + 1, ds))
            || (&& Index(registry, ds[0].field) == k && Permitted(registry, requested, ds[0])
                && Sorted(registry, ds[1..]) && AllPermitted(registry, requested, ds[1..])
                && From(registry, k + 1, ds[1..]))
  {
    SortedHead(registry, ds);
    EachHead(registry, requested, k, ds);
    EachHead(registry, requested, k + 1, ds);
  }

  /** The number of lists: one choice per field, of nothing or one of its options. */
  ghost function Choices(fields: Registry, requested: Option<seq<string>>): nat {
    if fields == [] then 1 else (1 + |Options(fields[0], requested)|) * Choices(fields[1..], requested)
  }

  lemma {:induction false} ListsSize(registry: Registry, requested: Option<seq<string>>, k: nat)
    requires k <= |registry| && Distinct(registry)
    ensures |Lists(registry[k..], requested)| == Choices(registry[k..], requested)
    decreases |registry| - k
  {
    if k < |registry| {
      var fields := registry[k..];
      assert fields[1..] == registry[k + 1..];
      ListsSize(registry, requested, k + 1);
      var rest, options := Lists(fields[1..], requested), Options(fields[0], requested);
      var f := (p: (Difference, seq<Difference>)) => [p.0] + p.1;
      assert Injective(f) by { ConsIsInjective(); }
      PairsSize(options, rest);
      ImageSize(Pairs(options, rest), f);
      HeadsAreNew(registry, requested, k);
      UnionSize(rest, Image(Pairs(options, rest), f));
      Expanded(|options|, |rest|);
    }
  }

  lemma HeadsAreNew(registry: Registry, requested: Option<seq<string>>, k: nat)
    requires k < |registry| && Distinct(registry)
    ensures var rest := Lists(registry[k + 1..], requested);
            rest !! Image(Pairs(Options(registry[k], requested), rest),
                          (p: (Difference, seq<Difference>)) => [p.0] + p.1)
  {
    var rest := Lists(registry[k + 1..], requested);
    forall p | p in Pairs(Options(registry[k], requested), rest) ensures [p.0] + p.1 !in rest {
      OptionsArePermitted(registry, requested, k, p.0);
      ListsAreSorted(registry, requested, k + 1, [p.0] + p.1);
      assert ([p.0] + p.1)[0] == p.0;
    }
  }

  lemma ConsIsInjective()
    ensures Injective((p: (Difference, seq<Difference>)) => [p.0] + p.1)
  {
    var f := (p: (Difference, seq<Difference>)) => [p.0] + p.1;
    forall p, q | f(p) == f(q) ensures p == q {
      assert p.0 == f(p)[0] && q.0 == f(q)[0];
      assert p.1 == f(p)[1..] && q.1 == f(q)[1..];
    }
  }

  // ------------------------------------------------------------ the bound

  predicate FullyOpen(fields: Registry, requested: Option<seq<string>>) {
    forall i | 0 <= i < |fields| :: fields[i].masked && IsRequested(fields[i], requested)
  }

  lemma {:induction false} ChoicesBound(fields: Registry, requested: Option<seq<string>>)
    ensures 1 <= Choices(fields, requested) <= Power(25, |fields|)
    ensures Choices(fields, requested) == Power(25, |fields|) <==> FullyOpen(fields, requested)
  {
    if fields != [] {
      var rest := fields[1..];
      ChoicesBound(rest, requested);
      OptionsSize(fields[0], requested);
      assert fields == [fields[0]] + rest;
      assert FullyOpen(fields, requested) <==>
             fields[0].masked && IsRequested(fields[0], requested) && FullyOpen(rest, requested);
      Products(|Options(fields[0], requested)|, Choices(rest, requested), Power(25, |rest|));
    }
  }

  lemma Products(n: nat, c: nat, p: nat)
    requires n <= 24 && 1 <= c <= p
    ensures 1 <= (1 + n) * c <= 25 * p
    ensures (1 + n) * c == 25 * p <==> n == 24 && c == p
  {
    assert (1 + n) * c == c + n * c;
    assert n * c <= 24 * c by { assert (24 - n) * c >= 0; }
    if n < 24 {
      assert n * c <= 23 * c by { assert (23 - n) * c >= 0; }
    }
  }

  lemma {:induction false} SomeChoice(fields: Registry, requested: Option<seq<string>>)
    ensures 1 <= Choices(fields, requested)
    ensures Choices(fields, requested) == 1 <==> forall i | 0 <= i < |fields| :: !IsRequested(fields[i], requested)
  {
    if fields != [] {
      var rest := fields[1..];
      SomeChoice(rest, requested);
      OptionsSize(fields[0], requested);
      assert forall i | 0 < i < |fields| :: fields[i] == rest[i - 1];
      assert forall i | 0 <= i < |rest| :: rest[i] == fields[i + 1];
      OneOfProduct(|Options(fields[0], requested)|, Choices(rest, requested));
    }
  }

  lemma OneOfProduct(n: nat, c: nat)
    requires 1 <= c
    ensures 1 <= (1 + n) * c && ((1 + n) * c == 1 <==> n == 0 && c == 1)
  {
    assert (1 + n) * c == c + n * c;
    if n > 0 {
      assert n * c >= 1;
    }
  }
}
