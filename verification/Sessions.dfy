/** A reader that is cut off again and again, and comes back each time with the last id it received. */
module Sessions {
  import opened Basics

  /** What a request carrying the given id would be sent if nothing cut it. */
  type Answers<!D> = Option<string> -> seq<D>

  /** What a request is sent before it is cut at the given number of deliveries. */
  function Received<D>(answers: Answers<D>, header: Option<string>, cut: nat): seq<D> {
    answers(header)[..Min(cut, |answers(header)|)]
  }

  /** The id to come back with: the last one received, or the one asked with. */
  function NextHeader<D>(id: D -> string, header: Option<string>, got: seq<D>): Option<string> {
    if got == [] then header else Some(id(got[|got| - 1]))
  }

  /** What a reader holds after requests cut at the given numbers of deliveries. */
  function Session<D>(answers: Answers<D>, id: D -> string, header: Option<string>, cuts: seq<nat>): seq<D>
    decreases |cuts|
  {
    if cuts == [] then []
    else
      var got := Received(answers, header, cuts[0]);
      got + Session(answers, id, NextHeader(id, header, got), cuts[1..])
  }

  function Sum(cuts: seq<nat>): nat {
    if cuts == [] then 0 else cuts[0] + Sum(cuts[1..])
  }

  /** The header of a reader that has received the first `i` deliveries. */
  function HeaderAt<D>(full: seq<D>, id: D -> string, i: nat): Option<string>
    requires i <= |full|
  {
    if i == 0 then None else Some(id(full[i - 1]))
  }

  /** Every request from a place is answered with nothing or with the rest. */
  ghost predicate Faithful<D>(answers: Answers<D>, id: D -> string, full: seq<D>) {
    forall i: nat | i <= |full| :: answers(HeaderAt(full, id, i)) in {[], full[i..]}
  }

  /** Every request from a place before the end is answered with the rest. */
  ghost predicate Complete<D>(answers: Answers<D>, id: D -> string, full: seq<D>) {
    forall i: nat | i < |full| :: answers(HeaderAt(full, id, i)) == full[i..]
  }

  lemma {:induction false} SessionFrom<D>(answers: Answers<D>, id: D -> string, full: seq<D>, i: nat, cuts: seq<nat>)
    requires Faithful(answers, id, full) && i <= |full|
    ensures Session(answers, id, HeaderAt(full, id, i), cuts) <= full[i..]
    ensures Complete(answers, id, full) ==>
            |Session(answers, id, HeaderAt(full, id, i), cuts)| == Min(Sum(cuts), |full| - i)
    decreases |cuts|
  {
    if cuts != [] {
      var got := Received(answers, HeaderAt(full, id, i), cuts[0]);
      OneRequest(answers, id, full, i, cuts[0]);
      var next := HeaderAt(full, id, i + |got|);
      SessionFrom(answers, id, full, i + |got|, cuts[1..]);
      Joins(full, i, got, Session(answers, id, next, cuts[1..]));
      assert Session(answers, id, HeaderAt(full, id, i), cuts) == got + Session(answers, id, next, cuts[1..]);
    }
  }

  /** One request: what is received is the next part, and its last id names the place reached. */
  lemma OneRequest<D>(answers: Answers<D>, id: D -> string, full: seq<D>, i: nat, cut: nat)
    requires Faithful(answers, id, full) && i <= |full|
    ensures var got := Received(answers, HeaderAt(full, id, i), cut);
            && i + |got| <= |full| && got <= full[i..]
            && NextHeader(id, HeaderAt(full, id, i), got) == HeaderAt(full, id, i + |got|)
            && (Complete(answers, id, full) ==> |got| == Min(cut, |full| - i))
  {
    var got := Received(answers, HeaderAt(full, id, i), cut);
    assert answers(HeaderAt(full, id, i)) in {[], full[i..]};
    if got != [] {
      assert got[|got| - 1] == full[i + |got| - 1];
    }
  }

  /** However a session is cut, it holds as much of the stream as its cuts leave room for. */
  ghost predicate AlwaysWhole<D>(answers: Answers<D>, id: D -> string, full: seq<D>) {
    forall cuts :: Session(answers, id, None, cuts) == full[..Min(Sum(cuts), |full|)]
  }

  /** A place that is not answered shows in a session cut there. */
  lemma StuckSession<D>(answers: Answers<D>, id: D -> string, full: seq<D>, i: nat)
    requires i < |full| && answers(HeaderAt(full, id, i)) == [] && (i > 0 ==> answers(None) == full)
    ensures !AlwaysWhole(answers, id, full)
  {
    if i == 0 {
      assert [1][1..] == [];
      assert Sum([1]) == 1;
      assert Session(answers, id, None, [1]) == [];
    } else {
      var cuts := [i, 1];
      assert cuts[1..] == [1] && [1][1..] == [];
      assert Sum([1]) == 1 && Sum(cuts) == i + 1;
      assert Session(answers, id, Some(id(full[i - 1])), [1]) == [];
      assert Session(answers, id, None, cuts) == full[..i];
    }
  }

  /** Sessions are always whole exactly when every place before the end is answered. */
  lemma WholeExactly<D>(answers: Answers<D>, id: D -> string, full: seq<D>)
    requires Faithful(answers, id, full)
    ensures AlwaysWhole(answers, id, full) <==> Complete(answers, id, full)
  {
    if Complete(answers, id, full) {
      forall cuts ensures Session(answers, id, None, cuts) == full[..Min(Sum(cuts), |full|)] {
        SessionFrom(answers, id, full, 0, cuts);
        assert full[0..] == full;
      }
    } else {
      var i: nat :| i < |full| && answers(HeaderAt(full, id, i)) != full[i..];
      assert full[0..] == full;
      if answers(HeaderAt(full, id, 0)) == [] {
        StuckSession(answers, id, full, 0);
      } else {
        assert answers(None) == full;
        StuckSession(answers, id, full, i);
      }
    }
  }

  lemma Joins<T>(full: seq<T>, i: nat, got: seq<T>, more: seq<T>)
    requires i <= |full| && got <= full[i..] && more <= full[i + |got|..]
    ensures got + more <= full[i..]
  {
    assert full[i..] == got + full[i + |got|..];
  }
}
