/** Non-negative integers in decimal, and text split at a colon. */
module Decimal {
  import opened Basics

  function Digit(d: nat): char
    requires d < 10
  {
    ('0' as int + d) as char
  }

  function Digits(n: nat): string {
    if n < 10 then [Digit(n)] else Digits(n / 10) + [Digit(n % 10)]
  }

  predicate AllDigits(s: string) {
    forall i | 0 <= i < |s| :: '0' <= s[i] <= '9'
  }

  /** The text a decimal integer is printed as: no leading zero unless it is zero. */
  predicate Canonical(s: string) {
    s != "" && AllDigits(s) && (|s| > 1 ==> s[0] != '0')
  }

  function Value(s: string): nat
    requires AllDigits(s)
  {
    if s == "" then 0 else 10 * Value(s[..|s| - 1]) + (s[|s| - 1] as int - '0' as int)
  }

  lemma {:induction false} DigitsRoundTrip(n: nat)
    ensures Canonical(Digits(n)) && Value(Digits(n)) == n
    ensures n > 0 ==> Digits(n)[0] != '0'
  {
    if n >= 10 {
      DigitsRoundTrip(n / 10);
      assert Digits(n)[..|Digits(n)| - 1] == Digits(n / 10);
    } else {
      assert Value([]) == 0;
      assert Digits(n)[..0] == [];
    }
  }

  lemma {:induction false} ValueRoundTrip(s: string)
    requires Canonical(s)
    ensures Digits(Value(s)) == s
    ensures |s| > 1 ==> Value(s) > 0
    ensures s[0] != '0' ==> Value(s) > 0
  {
    var front, last := s[..|s| - 1], s[|s| - 1] as int - '0' as int;
    if |s| == 1 {
      assert Value(front) == 0;
    } else {
      ValueRoundTrip(front);
      assert Value(s) == 10 * Value(front) + last;
      assert Value(s) / 10 == Value(front) && Value(s) % 10 == last;
      assert s == front + [s[|s| - 1]];
    }
  }

  /** Decimal lengths grow with the value. */
  lemma SmallDigits(n: nat)
    requires n < 100
    ensures |Digits(n)| <= 2
  {
  }

  // ------------------------------------------------------------ colons

  predicate NoColon(s: string) {
    ':' !in s
  }

  lemma DigitsHaveNoColon(s: string)
    requires AllDigits(s)
    ensures NoColon(s)
  {
  }

  /** The position of the first colon, or the length when there is none. */
  function FirstColon(s: string): (k: nat)
    ensures k <= |s| && NoColon(s[..k])
    ensures k < |s| ==> s[k] == ':'
  {
    if s == "" then 0
    else if s[0] == ':' then 0
    else
      var k := 1 + FirstColon(s[1..]);
      assert s[..k] == [s[0]] + s[1..][..k - 1];
      k
  }

  /** The position of the last colon, or none. */
  function LastColon(s: string): (k: Option<nat>)
    ensures k.None? ==> NoColon(s)
    ensures k.Some? ==> k.value < |s| && s[k.value] == ':' && NoColon(s[k.value + 1..])
  {
    if s == "" then None
    else if s[|s| - 1] == ':' then Some(|s| - 1)
    else
      var front := s[..|s| - 1];
      assert s == front + [s[|s| - 1]];
      var k := LastColon(front);
      assert k.Some? ==> s[k.value + 1..] == front[k.value + 1..] + [s[|s| - 1]];
      k
  }

  lemma FirstColonAfter(a: string, b: string)
    requires NoColon(a)
    ensures FirstColon(a + ":" + b) == |a|
  {
    var s := a + ":" + b;
    assert s[|a|] == ':';
    assert forall k | 0 <= k < |a| :: s[k] == a[k];
  }

  lemma {:induction false} LastColonIs(s: string, k: nat)
    requires k < |s| && s[k] == ':' && NoColon(s[k + 1..])
    ensures LastColon(s) == Some(k)
  {
    if k < |s| - 1 {
      var front := s[..|s| - 1];
      assert s[k + 1..] == front[k + 1..] + [s[|s| - 1]];
      assert s[|s| - 1] in s[k + 1..];
      LastColonIs(front, k);
    }
  }

  lemma LastColonBefore(a: string, b: string)
    requires NoColon(b)
    ensures LastColon(a + ":" + b) == Some(|a|)
  {
    var s := a + ":" + b;
    assert s[|a|] == ':';
    assert s[|a| + 1..] == b;
    LastColonIs(s, |a|);
  }

  /** Text with no colon of its own before one is determined by the whole. */
  lemma ColonSplits(a: string, b: string, a': string, b': string)
    requires NoColon(a) && NoColon(a') && a + ":" + b == a' + ":" + b'
    ensures a == a' && b == b'
  {
    FirstColonAfter(a, b);
    FirstColonAfter(a', b');
    var s := a + ":" + b;
    assert a == s[..|a|] && b == s[|a| + 1..];
    assert a' == s[..|a'|] && b' == s[|a'| + 1..];
  }

  lemma PrintedHasNoColon(n: nat)
    ensures NoColon(Digits(n))
  {
    DigitsRoundTrip(n);
    DigitsHaveNoColon(Digits(n));
  }

  lemma PrintedOnce(n: nat, n': nat)
    requires Digits(n) == Digits(n')
    ensures n == n'
  {
    DigitsRoundTrip(n);
    DigitsRoundTrip(n');
  }

  lemma StripsPrefix(a: string, b: string)
    ensures a <= a + b && (a + b)[|a|..] == b
  {
  }

  lemma Rejoined(s: string, i: nat, k: nat)
    requires i <= k < |s| && s[k] == ':'
    ensures s == s[..i] + s[i..k] + ":" + s[k + 1..]
  {
  }
}
