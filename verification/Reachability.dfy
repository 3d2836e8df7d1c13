/**
 * Whether every name can be reached from the root. Moving a directory beneath itself is
 * the one request that breaks it; everything else keeps it.
 */
module Reachability {
  import opened Basics
  import opened Ledger
  import opened ReferenceFs
  import opened FsRuns

  type Names = map<(Ino, Name), Ino>

  /** Where a path of names leads from a directory. */
  function Walk(names: Names, start: Ino, path: seq<Name>): Option<Ino> {
    if path == [] then Some(start)
    else
      var d := Walk(names, start, path[..|path| - 1]);
      if d.Some? && (d.value, path[|path| - 1]) in names then Some(names[(d.value, path[|path| - 1])]) else None
  }

  /** `i` is `start` or lies beneath it. */
  ghost predicate Under(names: Names, start: Ino, i: Ino) {
    exists path :: Walk(names, start, path) == Some(i)
  }

  /** Every named object can be reached from the root. */
  ghost predicate Rooted(names: Names) {
    forall k | k in names :: Under(names, ROOT, names[k])
  }

  /** One name each, and none for the root. */
  ghost predicate Single(names: Names) {
    && (forall k | k in names :: names[k] != ROOT)
    && (forall j, k | j in names && k in names && names[j] == names[k] :: j == k)
  }

  // ------------------------------------------------------------ walks

  lemma WalkLast(names: Names, start: Ino, path: seq<Name>, name: Name)
    ensures Walk(names, start, path + [name]) ==
            var d := Walk(names, start, path);
            if d.Some? && (d.value, name) in names then Some(names[(d.value, name)]) else None
  {
    assert (path + [name])[..|path|] == path;
  }

  lemma {:induction false} WalkOn(names: Names, start: Ino, a: seq<Name>, b: seq<Name>, mid: Ino)
    requires Walk(names, start, a) == Some(mid)
    ensures Walk(names, start, a + b) == Walk(names, mid, b)
    decreases |b|
  {
    if b == [] {
      assert a + b == a;
    } else {
      var front := b[..|b| - 1];
      WalkOn(names, start, a, front, mid);
      assert (a + b)[..|a + b| - 1] == a + front && (a + b)[|a + b| - 1] == b[|b| - 1];
    }
  }

  lemma UnderStep(names: Names, start: Ino, k: (Ino, Name))
    requires k in names && Under(names, start, k.0)
    ensures Under(names, start, names[k])
  {
    var path :| Walk(names, start, path) == Some(k.0);
    WalkLast(names, start, path, k.1);
  }

  /** An object beneath `start`, other than `start`, has its one name beneath `start`. */
  lemma UnderParent(names: Names, start: Ino, k: (Ino, Name))
    requires Single(names) && k in names && Under(names, start, names[k]) && names[k] != start
    ensures Under(names, start, k.0)
  {
    var path :| Walk(names, start, path) == Some(names[k]);
    var front := path[..|path| - 1];
    var d := Walk(names, start, front).value;
    assert names[(d, path[|path| - 1])] == names[k];
    assert Walk(names, start, front) == Some(k.0);
  }

  /** Every path from the root to what lies beneath `start` ends with a path from `start`. */
  lemma {:induction false} Backtrack(names: Names, r: seq<Name>, start: Ino, c: seq<Name>)
    requires Single(names) && Walk(names, ROOT, r).Some? && Walk(names, start, c) == Walk(names, ROOT, r)
    ensures |c| <= |r| && Walk(names, ROOT, r[..|r| - |c|]) == Some(start)
    decreases |c|
  {
    if c == [] {
      assert r[..|r|] == r;
    } else {
      var d := Walk(names, start, c[..|c| - 1]).value;
      var k := (d, c[|c| - 1]);
      assert r != [];
      var e := Walk(names, ROOT, r[..|r| - 1]).value;
      assert names[(e, r[|r| - 1])] == names[k];
      Backtrack(names, r[..|r| - 1], start, c[..|c| - 1]);
      assert r[..|r| - 1][..|r| - |c|] == r[..|r| - |c|];
    }
  }

  /** Nothing reachable lies beneath itself. */
  lemma {:induction false} NoCycles(names: Names, r: seq<Name>, i: Ino, c: seq<Name>)
    requires Single(names) && Walk(names, ROOT, r) == Some(i) && Walk(names, i, c) == Some(i)
    ensures c == []
    decreases |r|
  {
    Backtrack(names, r, i, c);
    if c != [] {
      NoCycles(names, r[..|r| - |c|], i, c);
    }
  }

  // ------------------------------------------------------------ keeping walks

  /** Some step of the walk goes through the entry `k`. */
  ghost predicate Through(names: Names, start: Ino, path: seq<Name>, k: (Ino, Name)) {
    exists j :: 0 <= j < |path| && Walk(names, start, path[..j]) == Some(k.0) && path[j] == k.1
  }

  ghost predicate SameBut(names: Names, names': Names, gone: set<(Ino, Name)>) {
    forall k | k in names && k !in gone :: k in names' && names'[k] == names[k]
  }

  lemma ThroughLonger(names: Names, start: Ino, path: seq<Name>, k: (Ino, Name))
    requires path != [] && Through(names, start, path[..|path| - 1], k)
    ensures Through(names, start, path, k)
  {
    var front := path[..|path| - 1];
    var j :| 0 <= j < |front| && Walk(names, start, front[..j]) == Some(k.0) && front[j] == k.1;
    assert path[..j] == front[..j] && path[j] == front[j];
  }

  /** A walk that avoids the entries that changed leads to the same place. */
  lemma {:induction false} WalkKept(names: Names, names': Names, gone: set<(Ino, Name)>, start: Ino, path: seq<Name>)
    requires SameBut(names, names', gone) && Walk(names, start, path).Some?
    requires forall k | k in gone :: !Through(names, start, path, k)
    ensures Walk(names', start, path) == Walk(names, start, path)
    decreases |path|
  {
    if path != [] {
      var front, n := path[..|path| - 1], |path| - 1;
      forall k | k in gone ensures !Through(names, start, front, k) {
        if Through(names, start, front, k) {
          ThroughLonger(names, start, path, k);
        }
      }
      WalkKept(names, names', gone, start, front);
      var k := (Walk(names, start, front).value, path[n]);
      assert path[..n] == front;
      assert k in gone ==> Through(names, start, path, k);
    }
  }

  lemma {:induction false} WalkPrefix(names: Names, start: Ino, path: seq<Name>, n: nat)
    requires n <= |path| && Walk(names, start, path).Some?
    ensures Walk(names, start, path[..n]).Some?
    decreases |path|
  {
    if n == |path| {
      assert path[..n] == path;
    } else {
      WalkPrefix(names, start, path[..|path| - 1], n);
      assert path[..|path| - 1][..n] == path[..n];
    }
  }

  lemma UnderVia(names: Names, start: Ino, a: seq<Name>, b: seq<Name>, mid: Ino)
    requires Walk(names, start, a) == Some(mid) && Walk(names, start, a + b).Some?
    ensures Under(names, mid, Walk(names, start, a + b).value)
  {
    WalkOn(names, start, a, b, mid);
  }

  /** A walk through an entry ends beneath what the entry names. */
  lemma ThroughIsUnder(names: Names, start: Ino, path: seq<Name>, k: (Ino, Name))
    requires Through(names, start, path, k) && Walk(names, start, path).Some?
    ensures k in names && Under(names, names[k], Walk(names, start, path).value) && Under(names, start, k.0)
  {
    var j :| 0 <= j < |path| && Walk(names, start, path[..j]) == Some(k.0) && path[j] == k.1;
    SplitAround(path, j);
    ThroughAt(names, start, path[..j], path[j + 1..], k);
  }

  lemma SplitAround<T>(s: seq<T>, j: nat)
    requires j < |s|
    ensures s == s[..j] + [s[j]] + s[j + 1..]
  {
  }

  lemma ThroughAt(names: Names, start: Ino, a: seq<Name>, b: seq<Name>, k: (Ino, Name))
    requires Walk(names, start, a) == Some(k.0) && Walk(names, start, a + [k.1] + b).Some?
    ensures k in names && Under(names, names[k], Walk(names, start, a + [k.1] + b).value) && Under(names, start, k.0)
  {
    var path := a + [k.1] + b;
    assert path[..|a| + 1] == a + [k.1];
    WalkPrefix(names, start, path, |a| + 1);
    WalkLast(names, start, a, k.1);
    UnderVia(names, start, a + [k.1], b, names[k]);
  }

  /** A walk from `start` through the entry that names `start` would be a cycle. */
  lemma ThroughOwnName(names: Names, path: seq<Name>, k: (Ino, Name))
    requires Single(names) && k in names && Under(names, ROOT, names[k]) && Walk(names, names[k], path).Some?
    ensures !Through(names, names[k], path, k)
  {
    var r :| Walk(names, ROOT, r) == Some(names[k]);
    forall j | 0 <= j < |path| && Walk(names, names[k], path[..j]) == Some(k.0) ensures path[j] != k.1 {
      if path[j] == k.1 {
        WalkLast(names, names[k], path[..j], path[j]);
        NoCycles(names, r, names[k], path[..j] + [path[j]]);
      }
    }
  }

  /** A leaf: nothing is named beneath it. */
  predicate Leaf(names: Names, i: Ino) {
    forall k | k in names :: k.0 != i
  }

  lemma OnlyItselfUnderALeaf(names: Names, i: Ino, x: Ino)
    requires Leaf(names, i) && Under(names, i, x)
    ensures x == i
  {
    var path :| Walk(names, i, path) == Some(x);
    LeafWalk(names, i, path);
  }

  lemma {:induction false} LeafWalk(names: Names, i: Ino, path: seq<Name>)
    requires Leaf(names, i) && Walk(names, i, path).Some?
    ensures path == []
  {
    if path != [] {
      LeafWalk(names, i, path[..|path| - 1]);
    }
  }

  // ------------------------------------------------------------ names that change

  lemma AddingKeepsRoot(names: Names, k: (Ino, Name), i: Ino)
    requires Rooted(names) && k !in names && Under(names, ROOT, k.0)
    ensures Rooted(names[k := i])
  {
    var names' := names[k := i];
    UnderKept(names, names', {}, ROOT, k.0);
    UnderStep(names', ROOT, k);
    forall j | j in names' && j != k ensures Under(names', ROOT, names'[j]) {
      UnderKept(names, names', {}, ROOT, names[j]);
    }
  }

  /** What can be reached without the entries that changed still can. */
  lemma UnderKept(names: Names, names': Names, gone: set<(Ino, Name)>, start: Ino, x: Ino)
    requires SameBut(names, names', gone) && Under(names, start, x)
    requires forall k | k in gone && k in names && Under(names, start, k.0) :: !Under(names, names[k], x)
    ensures Under(names', start, x)
  {
    var path :| Walk(names, start, path) == Some(x);
    forall k | k in gone ensures !Through(names, start, path, k) {
      if Through(names, start, path, k) {
        ThroughIsUnder(names, start, path, k);
      }
    }
    WalkKept(names, names', gone, start, path);
  }

  lemma RemovingKeepsRoot(names: Names, k: (Ino, Name))
    requires Single(names) && Rooted(names) && k in names && Leaf(names, names[k])
    ensures Rooted(names - {k})
  {
    var names' := names - {k};
    forall j | j in names' ensures Under(names', ROOT, names'[j]) {
      if Under(names, names[k], names[j]) {
        OnlyItselfUnderALeaf(names, names[k], names[j]);
      }
      UnderKept(names, names', {k}, ROOT, names[j]);
    }
  }

  /** A name moves to a free place, or over a leaf, that is not beneath what it names. */
  ghost predicate MovesAside(names: Names, from: (Ino, Name), to: (Ino, Name)) {
    && from in names && to != from && Under(names, ROOT, to.0) && !Under(names, names[from], to.0)
    && (to in names ==> Leaf(names, names[to]))
  }

  function Moved(names: Names, from: (Ino, Name), to: (Ino, Name)): Names
    requires from in names
  {
    (names - {from})[to := names[from]]
  }

  lemma SourceIsRooted(names: Names, from: (Ino, Name), to: (Ino, Name))
    requires Single(names) && MovesAside(names, from, to)
    ensures Under(Moved(names, from, to), ROOT, names[from])
  {
    var names' := Moved(names, from, to);
    if to in names && Under(names, names[to], to.0) {
      OnlyItselfUnderALeaf(names, names[to], to.0);
    }
    UnderKept(names, names', {from, to}, ROOT, to.0);
    UnderStep(names', ROOT, to);
  }

  /** What lay beneath the moved directory still does. */
  lemma SubtreeIsKept(names: Names, from: (Ino, Name), to: (Ino, Name), x: Ino)
    requires Single(names) && Rooted(names) && MovesAside(names, from, to) && Under(names, names[from], x)
    ensures Under(Moved(names, from, to), names[from], x)
  {
    var path :| Walk(names, names[from], path) == Some(x);
    forall k | k in {from, to} ensures !Through(names, names[from], path, k) {
      if k == from {
        ThroughOwnName(names, path, from);
      } else if Through(names, names[from], path, to) {
        ThroughIsUnder(names, names[from], path, to);
      }
    }
    WalkKept(names, Moved(names, from, to), {from, to}, names[from], path);
  }

  lemma UnderJoins(names: Names, a: Ino, b: Ino, c: Ino)
    requires Under(names, a, b) && Under(names, b, c)
    ensures Under(names, a, c)
  {
    var p :| Walk(names, a, p) == Some(b);
    var q :| Walk(names, b, q) == Some(c);
    WalkOn(names, a, p, q, b);
  }

  lemma MovingKeepsRoot(names: Names, from: (Ino, Name), to: (Ino, Name))
    requires Single(names) && Rooted(names) && MovesAside(names, from, to)
    ensures Rooted(Moved(names, from, to))
  {
    var names', source := Moved(names, from, to), names[from];
    SourceIsRooted(names, from, to);
    forall k | k in names' && k != to ensures Under(names', ROOT, names'[k]) {
      var x := names[k];
      if Under(names, source, x) {
        SubtreeIsKept(names, from, to, x);
        UnderJoins(names', ROOT, source, x);
      } else {
        if to in names && Under(names, names[to], x) {
          OnlyItselfUnderALeaf(names, names[to], x);
        }
        UnderKept(names, names', {from, to}, ROOT, x);
      }
    }
  }

  /** Moved beneath itself, a directory and all beneath it are cut off. */
  lemma {:induction false} CutOff(names: Names, from: (Ino, Name), to: (Ino, Name), path: seq<Name>)
    requires Single(names) && from in names && to != from && Under(names, names[from], to.0)
    requires Walk(Moved(names, from, to), ROOT, path).Some?
    ensures !Under(names, names[from], Walk(Moved(names, from, to), ROOT, path).value)
  {
    var names', source := Moved(names, from, to), names[from];
    if path == [] {
      RootIsNotUnder(names, source);
    } else {
      var front := path[..|path| - 1];
      CutOff(names, from, to, front);
      var k := (Walk(names', ROOT, front).value, path[|path| - 1]);
      assert k != to;
      if Under(names, source, names[k]) {
        UnderParent(names, source, k);
      }
    }
  }

  lemma RootIsNotUnder(names: Names, i: Ino)
    requires Single(names) && i != ROOT
    ensures !Under(names, i, ROOT)
  {
    forall path ensures Walk(names, i, path) != Some(ROOT) {
      if path != [] {
        var d := Walk(names, i, path[..|path| - 1]);
      }
    }
  }

  // ------------------------------------------------------------ requests

  /** What a caller can check before a rename: plain flags, legal name, both ends there, and a target that gives way. */
  ghost predicate MayRename(t: Tree, q: Request)
    requires q.Rename?
  {
    && !q.flags.exchange && !q.flags.whiteout && LegalName(q.newName)
    && (q.parent, q.name) in t.names && IsDir(t, q.newParent)
    && CheckReplace(t, t.names[(q.parent, q.name)], q.newParent, q.newName, q.flags.noReplace) == None
  }

  /** A rename succeeds exactly when that check passes. */
  lemma RenameGuard(t: Tree, q: Request)
    requires WellFormed(t) && q.Rename?
    ensures Renamed(t, q).1.Ok? <==> MayRename(t, q)
  {
    assert (q.parent, q.name) in t.names ==> IsDir(t, q.parent);
  }

  /** A rename that passes the check and puts a directory at or beneath itself. */
  ghost predicate MovesUnderItself(t: Tree, q: Request) {
    q.Rename? && MayRename(t, q) && Under(t.names, t.names[(q.parent, q.name)], q.newParent)
  }

  lemma DirectoriesAreRooted(t: Tree, d: Ino)
    requires WellFormed(t) && Rooted(t.names) && IsDir(t, d)
    ensures Under(t.names, ROOT, d)
  {
    assert Walk(t.names, ROOT, []) == Some(ROOT);
    assert Named(t.names, d) || !Named(t.names, d);
    if d != ROOT {
      var k :| k in t.names && t.names[k] == d;
    }
  }

  lemma RenameRoots(t: Tree, q: Request)
    requires WellFormed(t) && Rooted(t.names) && q.Rename? && MayRename(t, q)
    ensures Rooted(Renamed(t, q).0.names) <==> !MovesUnderItself(t, q)
  {
    var names, from, to := t.names, (q.parent, q.name), (q.newParent, q.newName);
    var source := names[from];
    DirectoriesAreRooted(t, to.0);
    if to == from {
      assert Moved(names, from, to) == names;
      var r :| Walk(names, ROOT, r) == Some(source);
      if Under(names, source, to.0) {
        UnderStep(names, source, from);
        var c :| Walk(names, source, c) == Some(to.0);
        WalkLast(names, source, c, from.1);
        NoCycles(names, r, source, c + [from.1]);
      }
    } else if Under(names, source, to.0) {
      var names' := Moved(names, from, to);
      assert to in names' && names'[to] == source;
      forall path ensures Walk(names', ROOT, path) != Some(source) {
        if Walk(names', ROOT, path).Some? {
          CutOff(names, from, to, path);
          assert Walk(names, source, []) == Some(source);
        }
      }
    } else {
      assert to in names ==> Leaf(names, names[to]);
      MovingKeepsRoot(names, from, to);
    }
  }

  /**
   * From a tree whose names all start at the root, a request leaves one exactly when it
   * does not move a directory beneath itself.
   */
  lemma ServeKeepsRoot(t: Tree, q: Request)
    requires WellFormed(t) && Rooted(t.names)
    ensures Rooted(Serve(t, q).0.names) <==> !MovesUnderItself(t, q)
  {
    if q.Rename? {
      RenameGuard(t, q);
    }
    if q.Rename? && MayRename(t, q) {
      RenameRoots(t, q);
    } else if Removes(q) && Serve(t, q).1.Ok? {
      NamesRemoved(t, q);
      RemovingKeepsRoot(t.names, (q.parent, q.name));
    } else if Makes(q) && Serve(t, q).1.Ok? {
      NamesMade(t, q);
      DirectoriesAreRooted(t, q.parent);
      AddingKeepsRoot(t.names, (q.parent, q.name), t.next);
    } else {
      NamesKept(t, q);
    }
  }

  predicate Removes(q: Request) {
    q.Unlink? || q.Rmdir?
  }

  predicate Makes(q: Request) {
    q.Mknod? || q.Mkdir? || q.Symlink? || q.Create?
  }

  lemma NamesMade(t: Tree, q: Request)
    requires Makes(q) && Serve(t, q).1.Ok?
    ensures IsDir(t, q.parent) && (q.parent, q.name) !in t.names
    ensures Serve(t, q).0.names == t.names[(q.parent, q.name) := t.next]
  {
  }

  lemma NamesRemoved(t: Tree, q: Request)
    requires WellFormed(t) && Removes(q) && Serve(t, q).1.Ok?
    ensures (q.parent, q.name) in t.names && Leaf(t.names, t.names[(q.parent, q.name)])
    ensures Serve(t, q).0.names == t.names - {(q.parent, q.name)}
  {
    assert Serve(t, q) == Remove(t, q.parent, q.name, q.Rmdir?);
  }

  lemma NamesKept(t: Tree, q: Request)
    requires Serve(t, q).1.Err? || !(Makes(q) || Removes(q) || q.Rename?)
    ensures Serve(t, q).0.names == t.names
  {
    if q.Write? {
      assert Serve(t, q) == WriteFile(t, q.ino, q.offset, q.data);
    } else if Serve(t, q).1.Err? {
      OtherErrors(t, q);
    }
  }

  /** In a run no request of which moves a directory beneath itself, every name can be reached from the root. */
  lemma {:induction false} RunsAreRooted(c: Ceilings, qs: seq<Request>)
    requires forall i | 0 <= i < |qs| :: !MovesUnderItself(Run(Fresh(c), qs[..i]), qs[i])
    ensures Rooted(Run(Fresh(c), qs).names)
  {
    if qs != [] {
      var front := qs[..|qs| - 1];
      forall i | 0 <= i < |front| ensures !MovesUnderItself(Run(Fresh(c), front[..i]), front[i]) {
        assert front[..i] == qs[..i];
      }
      RunsAreRooted(c, front);
      RunsAreWellFormed(c, front);
      ServeKeepsRoot(Run(Fresh(c), front), qs[|qs| - 1]);
    }
  }

  lemma OneDirectory(c: Ceilings)
    requires Admitted(c)
    ensures var t := Serve(Fresh(c), Mkdir(ROOT, [97])).0;
            WellFormed(t) && t.names == map[(ROOT, [97]) := 2] && IsDir(t, ROOT) && IsDir(t, 2)
  {
    FreshIsWellFormed(c);
    ServeKeeps(Fresh(c), Mkdir(ROOT, [97]));
    DirectoryFits(c);
  }

  lemma DirectoryFits(c: Ceilings)
    requires Admitted(c)
    ensures Serve(Fresh(c), Mkdir(ROOT, [97])).0
         == Tree(map[(ROOT, [97]) := 2], Fresh(c).objects[2 := Object(DirBody, 0)], 3, c)
  {
    MadeFirst(c, [97], Object(DirBody, 0));
    var grown := Grown(Fresh(c), ROOT, [97], Object(DirBody, 0));
    assert grown.names == map[(ROOT, [97]) := 2];
    assert Serve(Fresh(c), Mkdir(ROOT, [97])).0 == grown;
  }

  lemma RenamedIntoItself(t: Tree, q: Request)
    requires WellFormed(t) && t.names == map[(ROOT, [97]) := 2] && IsDir(t, ROOT) && IsDir(t, 2)
    requires q == Rename(ROOT, [97], 2, [98], RenameFlags(false, false, false))
    ensures Rooted(t.names) && Serve(t, q).1 == Ok(Done) && MovesUnderItself(t, q)
  {
    assert Walk(t.names, ROOT, []) == Some(ROOT) && Walk(t.names, 2, []) == Some(2);
    UnderStep(t.names, ROOT, (ROOT, [97]));
    assert (2, [98]) !in t.names;
  }

  /**
   * The exception is real: a directory made at the root and renamed into itself is
   * answered with success and cut off.
   */
  lemma ADirectoryMovedIntoItself(c: Ceilings)
    requires Admitted(c)
    ensures var t := Serve(Fresh(c), Mkdir(ROOT, [97])).0;
            var q := Rename(ROOT, [97], 2, [98], RenameFlags(false, false, false));
            && Rooted(t.names) && Serve(t, q).1 == Ok(Done) && !Rooted(Serve(t, q).0.names)
  {
    var t := Serve(Fresh(c), Mkdir(ROOT, [97])).0;
    var q := Rename(ROOT, [97], 2, [98], RenameFlags(false, false, false));
    OneDirectory(c);
    RenamedIntoItself(t, q);
    ServeKeepsRoot(t, q);
  }
}
