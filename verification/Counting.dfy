/** Sizes of finite sets built from smaller ones. */
module Counting {

  ghost function Image<A, B>(s: set<A>, f: A -> B): set<B> {
    set x | x in s :: f(x)
  }

  ghost predicate Injective<A(!new), B>(f: A -> B) {
    forall x, y :: f(x) == f(y) ==> x == y
  }

  lemma {:induction false} ImageSize<A(!new), B>(s: set<A>, f: A -> B)
    requires Injective(f)
    ensures |Image(s, f)| == |s|
    decreases |s|
  {
    if s == {} {
      assert Image(s, f) == {};
    } else {
      var x :| x in s;
      ImageSize(s - {x}, f);
      assert f(x) !in Image(s - {x}, f);
      assert Image(s, f) == Image(s - {x}, f) + {f(x)};
    }
  }

  ghost function Pairs<A, B>(s: set<A>, t: set<B>): set<(A, B)> {
    set x, y | x in s && y in t :: (x, y)
  }

  lemma {:induction false} PairsSize<A(!new), B(!new)>(s: set<A>, t: set<B>)
    ensures |Pairs(s, t)| == |s| * |t|
    decreases |s|
  {
    if s == {} {
      assert Pairs(s, t) == {};
    } else {
      var x :| x in s;
      var row := Image(t, y => (x, y));
      ImageSize(t, y => (x, y));
      PairsSize(s - {x}, t);
      assert Pairs(s, t) == Pairs(s - {x}, t) + row;
      assert Pairs(s - {x}, t) !! row;
      Expanded(|s| - 1, |t|);
    }
  }

  lemma Expanded(m: nat, n: nat)
    ensures (m + 1) * n == m * n + n
  {
  }

  lemma UnionSize<A>(s: set<A>, t: set<A>)
    requires s !! t
    ensures |s + t| == |s| + |t|
  {
  }
}
