/** Newline-delimited bytes: complete lines, the unfinished tail, and how they compose. */
module Lines {
  import opened Basics

  const NEWLINE: byte := 10

  predicate OneLine(b: Bytes) {
    forall j | 0 <= j < |b| :: b[j] != NEWLINE
  }

  /** The lines a newline has ended. */
  function Complete(b: Bytes): seq<Bytes> {
    if b == [] then [] else
      var front := b[..|b| - 1];
      if b[|b| - 1] == NEWLINE then Complete(front) + [Tail(front)] else Complete(front)
  }

  /** The bytes after the last newline. */
  function Tail(b: Bytes): Bytes {
    if b == [] || b[|b| - 1] == NEWLINE then [] else Tail(b[..|b| - 1]) + [b[|b| - 1]]
  }

  /** The bytes of complete lines, newlines included. */
  function Joined(lines: seq<Bytes>): Bytes {
    if lines == [] then [] else Joined(lines[..|lines| - 1]) + lines[|lines| - 1] + [NEWLINE]
  }

  function Flatten(chunks: seq<Bytes>): Bytes {
    if chunks == [] then [] else Flatten(chunks[..|chunks| - 1]) + chunks[|chunks| - 1]
  }

  predicate Unbroken(lines: seq<Bytes>) {
    forall k | 0 <= k < |lines| :: OneLine(lines[k])
  }

  // ------------------------------------------------------------ searching

  /** The first newline at or after position `k`. */
  function NewlineFrom(b: Bytes, k: nat): (i: Option<nat>)
    requires k <= |b|
    ensures i.None? ==> forall j | k <= j < |b| :: b[j] != NEWLINE
    ensures i.Some? ==> k <= i.value < |b| && b[i.value] == NEWLINE
    ensures i.Some? ==> forall j | k <= j < i.value :: b[j] != NEWLINE
    decreases |b| - k
  {
    if k == |b| then None else if b[k] == NEWLINE then Some(k) else NewlineFrom(b, k + 1)
  }

  function FirstNewline(b: Bytes): (i: Option<nat>)
    ensures i.None? <==> OneLine(b)
    ensures i.Some? ==> i.value < |b| && b[i.value] == NEWLINE && OneLine(b[..i.value])
  {
    NewlineFrom(b, 0)
  }

  // ------------------------------------------------------------ composition

  /** Lines of a concatenation: those of the first part, then those its tail begins. */
  lemma {:induction false} Concatenates(a: Bytes, b: Bytes)
    ensures Complete(a + b) == Complete(a) + Complete(Tail(a) + b)
    ensures Tail(a + b) == Tail(Tail(a) + b)
    decreases |b|
  {
    if b == [] {
      assert a + b == a && Tail(a) + b == Tail(a);
      TailIsOneLine(a);
      OneLineIsTail(Tail(a));
      assert Complete(a) + [] == Complete(a);
    } else {
      var front, last := b[..|b| - 1], b[|b| - 1];
      Concatenates(a, front);
      assert (a + b)[..|a + b| - 1] == a + front;
      assert (Tail(a) + b)[..|Tail(a) + b| - 1] == Tail(a) + front;
      if last == NEWLINE {
        Associates(Complete(a), Complete(Tail(a) + front), [Tail(Tail(a) + front)]);
      }
    }
  }

  lemma {:induction false} OneLineIsTail(b: Bytes)
    requires OneLine(b)
    ensures Complete(b) == [] && Tail(b) == b
  {
    if b != [] {
      OneLineIsTail(b[..|b| - 1]);
    }
  }

  lemma {:induction false} TailIsOneLine(b: Bytes)
    ensures OneLine(Tail(b))
  {
    if b != [] && b[|b| - 1] != NEWLINE {
      TailIsOneLine(b[..|b| - 1]);
    }
  }

  /** A first line, its newline, and what follows. */
  lemma SplitsAt(line: Bytes, rest: Bytes)
    requires OneLine(line)
    ensures Complete(line + [NEWLINE] + rest) == [line] + Complete(rest)
    ensures Tail(line + [NEWLINE] + rest) == Tail(rest)
  {
    var ended := line + [NEWLINE];
    OneLineIsTail(line);
    assert ended[..|ended| - 1] == line;
    assert Complete(ended) == [line] && Tail(ended) == [];
    Concatenates(ended, rest);
    EmptyPrefix(rest);
  }

  /** The same at the first newline found. */
  lemma SplitsFirst(b: Bytes)
    requires FirstNewline(b).Some?
    ensures var i := FirstNewline(b).value;
            Complete(b) == [b[..i]] + Complete(b[i + 1..]) && Tail(b) == Tail(b[i + 1..])
  {
    var i := FirstNewline(b).value;
    assert b == b[..i] + [NEWLINE] + b[i + 1..];
    SplitsAt(b[..i], b[i + 1..]);
  }

  // ------------------------------------------------------------ joining

  lemma {:induction false} CompleteIsUnbroken(b: Bytes)
    ensures Unbroken(Complete(b))
  {
    if b != [] {
      CompleteIsUnbroken(b[..|b| - 1]);
      TailIsOneLine(b[..|b| - 1]);
    }
  }

  lemma JoinedLast(lines: seq<Bytes>, line: Bytes)
    ensures Joined(lines + [line]) == Joined(lines) + line + [NEWLINE]
  {
    assert (lines + [line])[..|lines|] == lines;
  }

  /** Splitting loses nothing. */
  lemma {:induction false} JoinOfSplit(b: Bytes)
    ensures Joined(Complete(b)) + Tail(b) == b
  {
    if b != [] {
      var front, last := b[..|b| - 1], b[|b| - 1];
      JoinOfSplit(front);
      assert b == front + [last];
      if last == NEWLINE {
        JoinedLast(Complete(front), Tail(front));
        assert Tail(b) == [];
        EmptySuffix(b);
      } else {
        Associates(Joined(Complete(front)), Tail(front), [last]);
      }
    }
  }

  /** Splitting what was joined gives the lines back. */
  lemma {:induction false} SplitOfJoin(lines: seq<Bytes>, tail: Bytes)
    requires Unbroken(lines) && OneLine(tail)
    ensures Complete(Joined(lines) + tail) == lines && Tail(Joined(lines) + tail) == tail
    decreases |lines|
  {
    if lines == [] {
      EmptyPrefix(tail);
      OneLineIsTail(tail);
    } else {
      var front, last := lines[..|lines| - 1], lines[|lines| - 1];
      SplitOfJoin(front, last);
      var ended := Joined(lines);
      assert ended[..|ended| - 1] == Joined(front) + last;
      assert Complete(ended) == lines && Tail(ended) == [];
      Concatenates(ended, tail);
      EmptyPrefix(tail);
      OneLineIsTail(tail);
    }
  }
}
