/** The fewest bytes a JSON value can be written in (RFC 8259, UTF-8, no white space). */
module JsonSize {
  import opened Basics
  import opened Text
  import opened Decimal

  /** A character that stands for itself in one byte. */
  predicate Bare(c: char) {
    ' ' <= c <= '~' && c != '"' && c != '\\'
  }

  predicate AllBare(s: string) {
    forall i | 0 <= i < |s| :: Bare(s[i])
  }

  function CharSize(c: char): (n: nat)
    ensures n >= 1
    ensures Bare(c) ==> n == 1
  {
    if c == '"' || c == '\\' || 8 <= c as int <= 10 || 12 <= c as int <= 13 then 2
    else if (c as int) < 0x20 then 6
    else CharBytes(c)
  }

  function Sum(ns: seq<nat>): nat {
    if ns == [] then 0 else Sum(ns[..|ns| - 1]) + ns[|ns| - 1]
  }

  /** The characters of a string between their quotes. */
  function TextSize(s: string): nat {
    Sum(seq(|s|, i requires 0 <= i < |s| => CharSize(s[i])))
  }

  ghost function Size(j: Json): (n: nat)
    ensures n >= 1
    decreases j, 1, 0
  {
    match j
    case JNull => 4
    case JBool(b) => if b then 4 else 5
    case JInt(n) => if n < 0 then 1 + |Digits(-n)| else |Digits(n)|
    case JFloat => 3
    case JString(s) => 2 + TextSize(s)
    case JArray(items) => 2 + ItemsFrom(j, 0) + Max(0, |items| - 1)
    case JObject(fields) => 2 + MembersSize(j, fields.Keys) + Max(0, |fields| - 1)
  }

  /** The items from the `k`-th on, without the commas. */
  ghost function ItemsFrom(j: Json, k: nat): nat
    requires j.JArray? && k <= |j.items|
    decreases j, 0, |j.items| - k
  {
    if k == |j.items| then 0 else Size(j.items[k]) + ItemsFrom(j, k + 1)
  }

  /** The members with the keys given, without the commas. */
  ghost function MembersSize(j: Json, keys: set<string>): nat
    requires j.JObject? && keys <= j.fields.Keys
    decreases j, 0, |keys|
  {
    if keys == {} then 0 else
      var k :| k in keys;
      MembersSize(j, keys - {k}) + MemberSize(j, k)
  }

  /** One member: its key, a colon and its value. */
  ghost function MemberSize(j: Json, k: string): nat
    requires j.JObject? && k in j.fields
    decreases j, 0, 0
  {
    2 + TextSize(k) + 1 + Size(j.fields[k])
  }

  // ------------------------------------------------------------ laws

  lemma PlainText(s: string)
    ensures |s| <= TextSize(s)
    ensures AllBare(s) ==> TextSize(s) == |s|
  {
    SumOfOnes(seq(|s|, i requires 0 <= i < |s| => CharSize(s[i])));
  }

  lemma {:induction false} SumOfOnes(ns: seq<nat>)
    requires forall i | 0 <= i < |ns| :: ns[i] >= 1
    ensures Sum(ns) >= |ns|
    ensures (forall i | 0 <= i < |ns| :: ns[i] == 1) ==> Sum(ns) == |ns|
  {
    if ns != [] {
      SumOfOnes(ns[..|ns| - 1]);
    }
  }

  ghost function Total(items: seq<Json>): nat {
    if items == [] then 0 else Size(items[0]) + Total(items[1..])
  }

  lemma {:induction false} ItemsAreTotalled(j: Json, k: nat)
    requires j.JArray? && k <= |j.items|
    ensures ItemsFrom(j, k) == Total(j.items[k..])
    decreases |j.items| - k
  {
    if k < |j.items| {
      ItemsAreTotalled(j, k + 1);
      assert j.items[k..][1..] == j.items[k + 1..];
    }
  }

  lemma ArraySize(items: seq<Json>)
    ensures Size(JArray(items)) == 2 + Total(items) + Max(0, |items| - 1)
  {
    ItemsAreTotalled(JArray(items), 0);
    assert items[0..] == items;
  }

  /** The order in which members are added up does not matter. */
  lemma {:induction false} MembersWithout(j: Json, keys: set<string>, k: string)
    requires j.JObject? && keys <= j.fields.Keys && k in keys
    ensures MembersSize(j, keys) == MembersSize(j, keys - {k}) + MemberSize(j, k)
    decreases |keys|
  {
    var l :| l in keys && MembersSize(j, keys) == MembersSize(j, keys - {l}) + MemberSize(j, l);
    if l != k {
      MembersWithout(j, keys - {l}, k);
      MembersWithout(j, keys - {k}, l);
      assert keys - {l} - {k} == keys - {k} - {l};
    }
  }

  lemma OneMember(j: Json, a: string)
    requires j.JObject? && j.fields.Keys == {a}
    ensures Size(j) == 2 + MemberSize(j, a)
  {
    MembersWithout(j, {a}, a);
    assert |j.fields| == |j.fields.Keys|;
  }

  lemma ThreeMembers(j: Json, a: string, b: string, c: string)
    requires j.JObject? && j.fields.Keys == {a, b, c} && a != b && b != c && a != c
    ensures Size(j) == 4 + MemberSize(j, a) + MemberSize(j, b) + MemberSize(j, c)
  {
    var keys := {a, b, c};
    MembersWithout(j, keys, a);
    assert keys - {a} == {b, c};
    TwoOf(j, b, c);
    assert |keys| == 3 && |j.fields| == |j.fields.Keys|;
  }

  lemma TwoOf(j: Json, b: string, c: string)
    requires j.JObject? && b in j.fields && c in j.fields && b != c
    ensures MembersSize(j, {b, c}) == MemberSize(j, b) + MemberSize(j, c)
  {
    MembersWithout(j, {b, c}, b);
    assert {b, c} - {b} == {c};
    MembersWithout(j, {c}, c);
    assert {c} - {c} == {};
  }

  // ------------------------------------------------------------ readers

  /** A value of strings, digits and nulls, nested no deeper than given: any JSON reader takes it. */
  predicate Shallow(j: Json, depth: nat) {
    match j
    case JNull => true
    case JString(_) => true
    case JInt(n) => 0 <= n < 10
    case JArray(items) => depth > 0 && forall i | 0 <= i < |items| :: Shallow(items[i], depth - 1)
    case JObject(fields) => depth > 0 && forall k | k in fields :: Shallow(fields[k], depth - 1)
    case _ => false
  }
}
