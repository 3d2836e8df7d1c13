/**
 * The inodes refine the reference filesystem: every request is answered as the
 * reference answers it, leaves inodes that stand for the reference tree, and
 * leaves a ledger equal to a recount of that tree.
 */
module InodeRefinement {
  import opened Basics
  import opened FileBytes
  import opened Ledger
  import opened ReferenceFs
  import opened FsRuns
  import opened FsAudit
  import opened Inodes

  // ------------------------------------------------------------ representation

  predicate HasEntry(nodes: Nodes, k: (Ino, Name)) {
    k.0 in nodes && nodes[k.0].content.Directory? && k.1 in nodes[k.0].content.children
  }

  function ObjectOf(n: Node): Object {
    match n.content
    case File(data) => Object(FileBody(data), n.openHandles)
    case Directory(_) => Object(DirBody, n.openHandles)
    case Symlink(target) => Object(LinkBody(target), n.openHandles)
  }

  /** The entries inside directories are the tree's names, and the nodes are its objects. */
  ghost predicate Represents(nodes: Nodes, t: Tree) {
    && (forall k :: k in t.names <==> HasEntry(nodes, k))
    && (forall k | HasEntry(nodes, k) :: t.names[k] == nodes[k.0].content.children[k.1])
    && t.objects.Keys == nodes.Keys
    && (forall i | i in nodes :: t.objects[i] == ObjectOf(nodes[i]))
  }

  /** Each entry's node records that directory as its parent. */
  ghost predicate ParentsAgree(nodes: Nodes, names: map<(Ino, Name), Ino>) {
    forall k | k in names :: names[k] in nodes && nodes[names[k]].parent == k.0
  }

  /** A node is flagged as unlinked exactly when nothing names it. */
  ghost predicate FlagsAgree(nodes: Nodes, names: map<(Ino, Name), Ino>) {
    forall i {:trigger Named(names, i)} | i in nodes :: nodes[i].unlinked <==> i != ROOT && !Named(names, i)
  }

  ghost predicate Linked(nodes: Nodes, names: map<(Ino, Name), Ino>) {
    ParentsAgree(nodes, names) && FlagsAgree(nodes, names)
  }

  lemma Unnaming(nodes: Nodes, t: Tree, d: Ino, n: Name)
    requires Represents(nodes, t) && d in nodes && nodes[d].content.Directory?
    ensures Represents(WithoutEntry(nodes, d, n), t.(names := t.names - {(d, n)}))
  {
  }

  lemma Naming(nodes: Nodes, t: Tree, d: Ino, n: Name, i: Ino)
    requires Represents(nodes, t) && d in nodes && nodes[d].content.Directory?
    ensures Represents(WithEntry(nodes, d, n, i), t.(names := t.names[(d, n) := i]))
  {
  }

  lemma Relabelling(nodes: Nodes, t: Tree, i: Ino, n: Node)
    requires Represents(nodes, t) && i in nodes
    requires n.content == nodes[i].content || (!n.content.Directory? && !nodes[i].content.Directory?)
    ensures Represents(nodes[i := n], t.(objects := t.objects[i := ObjectOf(n)]))
  {
  }

  lemma Adding(nodes: Nodes, t: Tree, i: Ino, n: Node)
    requires Represents(nodes, t) && i !in nodes
    requires n.content.Directory? ==> n.content.children == map[]
    ensures Represents(nodes[i := n], t.(objects := t.objects[i := ObjectOf(n)]))
  {
  }

  lemma Dropping(nodes: Nodes, t: Tree, i: Ino)
    requires Represents(nodes, t) && i in nodes
    requires nodes[i].content.Directory? ==> nodes[i].content.children == map[]
    ensures Represents(nodes - {i}, t.(objects := t.objects - {i}))
  {
  }

  lemma GrownCounts(t: Tree, parent: Ino, name: Name, made: Object)
    requires WellFormed(t)
    ensures UsedBytes(Grown(t, parent, name, made)) == UsedBytes(t) + SizeOf(made)
    ensures UsedObjects(Grown(t, parent, name, made)) == UsedObjects(t) + 1
  {
    BytesWith(t.objects, t.next, made);
    assert t.objects[t.next := made].Keys == t.objects.Keys + {t.next};
  }

  lemma GrownIsStored(nodes: Nodes, t: Tree, parent: Ino, name: Name, n: Node)
    requires WellFormed(t) && Represents(nodes, t) && Linked(nodes, t.names)
    requires IsDir(t, parent) && (parent, name) !in t.names
    requires n.content.Directory? ==> n.content.children == map[]
    requires n.parent == parent && !n.unlinked
    ensures var nodes' := WithEntry(nodes[t.next := n], parent, name, t.next);
            var t' := Grown(t, parent, name, ObjectOf(n));
            Represents(nodes', t') && Linked(nodes', t'.names)
  {
    var t1 := t.(objects := t.objects[t.next := ObjectOf(n)]);
    Adding(nodes, t, t.next, n);
    Naming(nodes[t.next := n], t1, parent, name, t.next);
    GrownIsLinked(nodes, t, parent, name, n);
  }

  lemma GrownIsLinked(nodes: Nodes, t: Tree, parent: Ino, name: Name, n: Node)
    requires WellNamed(t) && Linked(nodes, t.names) && t.next !in nodes && parent in nodes
             && nodes[parent].content.Directory?
    requires (parent, name) !in t.names && n.parent == parent && !n.unlinked && parent != t.next && t.next != ROOT
    requires !Named(t.names, t.next)
    ensures Linked(WithEntry(nodes[t.next := n], parent, name, t.next), t.names[(parent, name) := t.next])
  {
    var names' := t.names[(parent, name) := t.next];
    var nodes' := WithEntry(nodes[t.next := n], parent, name, t.next);
    NamedMeanwhile(t.names, (parent, name), t.next);
    forall i | i in nodes' ensures nodes'[i].unlinked <==> i != ROOT && !Named(names', i) {
      assert i != t.next ==> (Named(names', i) <==> Named(t.names, i));
    }
  }

  /** Giving a new name to `i` names `i` and leaves every other object named or unnamed as it was. */
  lemma NamedMeanwhile(names: map<(Ino, Name), Ino>, k: (Ino, Name), i: Ino)
    requires k !in names
    ensures Named(names[k := i], i)
    ensures forall j | j != i :: Named(names[k := i], j) <==> Named(names, j)
  {
    assert names[k := i][k] == i;
    forall j | j != i && Named(names, j) ensures Named(names[k := i], j) {
      var l :| l in names && names[l] == j;
      assert names[k := i][l] == j;
    }
  }

  // ------------------------------------------------------------ refinement

  /** The inodes stand for `t`, which is well formed, and the ledger holds exactly what a recount of `t` gives. */
  ghost predicate Sound(s: Store, t: Tree) {
    match s
    case Store(nodes, next, view) =>
      && WellFormed(t)
      && Represents(nodes, t) && Linked(nodes, t.names)
      && t.next == next && t.ceilings == view.ceilings
      && view.usedBytes == UsedBytes(t) <= view.peakBytes
      && view.usedObjects == UsedObjects(t) <= view.peakObjects
  }

  /** An outcome agrees with the reference's: same answer, same tree, and the ledger its recounts give. */
  ghost predicate Agrees(s: Store, t: Tree, theirs: (Tree, Response), asked: int, link: bool, ours: (Store, Response)) {
    match ours
    case (s', answer) =>
      && answer == theirs.1
      && Sound(s', theirs.0)
      && s'.view == ChargedFor(s.view, t, theirs, asked, link)
  }

  lemma NothingChanged(s: Store, t: Tree, answer: Response, asked: int, link: bool)
    requires Sound(s, t) && answer != Err(ENOSPC) && answer != Err(EDQUOT)
    ensures Agrees(s, t, (t, answer), asked, link, (s, answer))
  {
  }

  /** The ledger and the tree are judged apart: a sound tree with recounted charges agrees. */
  lemma Recounted(s: Store, t: Tree, theirs: (Tree, Response), asked: int, link: bool, s': Store)
    requires Sound(s, t)
    requires WellFormed(theirs.0) && Represents(s'.nodes, theirs.0) && Linked(s'.nodes, theirs.0.names)
    requires theirs.0.next == s'.next && theirs.0.ceilings == t.ceilings
    requires theirs.1 == Err(ENOSPC) ==> theirs.0 == t
    requires s'.view == ChargedFor(s.view, t, theirs, asked, link)
    ensures Agrees(s, t, theirs, asked, link, (s', theirs.1))
  {
  }

  // ------------------------------------------------------------ making

  ghost predicate Fits(t: Tree, parent: Ino, name: Name) {
    CheckName(name).None? && CheckDir(t, parent).None? && (parent, name) !in t.names
  }

  /** What a new node may hold, and how much of it is charged. */
  predicate Makeable(n: Node, parent: Ino) {
    && n.parent == parent && !n.unlinked
    && (n.content.File? ==> n.content.data == [])
    && (n.content.Directory? ==> n.content.children == map[])
  }

  function Makes(s: Store, parent: Ino, name: Name, n: Node): (Store, Response) {
    CreateObject(s, parent, name, n.content, n.openHandles)
  }

  lemma MakeUnfit(s: Store, t: Tree, parent: Ino, name: Name, n: Node)
    requires Sound(s, t) && !Fits(t, parent, name)
    ensures Agrees(s, t, Make(t, parent, name, ObjectOf(n)), NodeSize(n), n.content.Symlink?, Makes(s, parent, name, n))
  {
    assert (parent, name) in t.names <==> HasEntry(s.nodes, (parent, name));
    NothingChanged(s, t, Make(t, parent, name, ObjectOf(n)).1, NodeSize(n), n.content.Symlink?);
  }

  lemma MakeRefused(s: Store, t: Tree, parent: Ino, name: Name, n: Node)
    requires Sound(s, t) && Fits(t, parent, name) && Makeable(n, parent)
    requires UsedObjects(t) + 1 > t.ceilings.objects || UsedBytes(t) + NodeSize(n) > t.ceilings.bytes
    ensures Agrees(s, t, Make(t, parent, name, ObjectOf(n)), NodeSize(n), n.content.Symlink?, Makes(s, parent, name, n))
  {
    var answer := if UsedObjects(t) + 1 > t.ceilings.objects then Err(EDQUOT) else Err(ENOSPC);
    GrownCounts(t, parent, name, ObjectOf(n));
    assert Make(t, parent, name, ObjectOf(n)) == (t, answer);
    RefusedIsCharged(s, t, parent, name, n);
    assert Makes(s, parent, name, n).1 == answer;
  }

  lemma RefusedIsCharged(s: Store, t: Tree, parent: Ino, name: Name, n: Node)
    requires Sound(s, t) && Fits(t, parent, name) && Makeable(n, parent)
    requires UsedObjects(t) + 1 > t.ceilings.objects || UsedBytes(t) + NodeSize(n) > t.ceilings.bytes
    ensures var answer: Response := if UsedObjects(t) + 1 > t.ceilings.objects then Err(EDQUOT) else Err(ENOSPC);
            Makes(s, parent, name, n)
              == (s.(view := ChargedFor(s.view, t, (t, answer), NodeSize(n), n.content.Symlink?)), answer)
  {
    assert (parent, name) in t.names <==> HasEntry(s.nodes, (parent, name));
  }

  lemma MakeStored(s: Store, t: Tree, parent: Ino, name: Name, n: Node)
    requires Sound(s, t) && Fits(t, parent, name) && Makeable(n, parent)
    requires UsedObjects(t) + 1 <= t.ceilings.objects && UsedBytes(t) + NodeSize(n) <= t.ceilings.bytes
    requires n.content.Directory? ==> n.openHandles == 0
    ensures Agrees(s, t, Make(t, parent, name, ObjectOf(n)), NodeSize(n), n.content.Symlink?, Makes(s, parent, name, n))
  {
    var t' := Grown(t, parent, name, ObjectOf(n));
    GrownCounts(t, parent, name, ObjectOf(n));
    assert Make(t, parent, name, ObjectOf(n)) == (t', Ok(Entry(t.next)));
    assert WellFormed(t') by {
      MakeKeeps(t, parent, name, ObjectOf(n));
    }
    GrownIsStored(s.nodes, t, parent, name, n);
    var ours := Makes(s, parent, name, n);
    MakeCharges(s, t, parent, name, n);
    Recounted(s, t, (t', Ok(Entry(t.next))), NodeSize(n), n.content.Symlink?, ours.0);
  }

  lemma MakeCharges(s: Store, t: Tree, parent: Ino, name: Name, n: Node)
    requires Sound(s, t) && Fits(t, parent, name) && Makeable(n, parent)
    requires UsedObjects(t) + 1 <= t.ceilings.objects && UsedBytes(t) + NodeSize(n) <= t.ceilings.bytes
    ensures var t' := Grown(t, parent, name, ObjectOf(n));
            var view := ChargedFor(s.view, t, (t', Ok(Entry(t.next))), NodeSize(n), n.content.Symlink?);
            Makes(s, parent, name, n) ==
            (Store(WithEntry(s.nodes[t.next := n], parent, name, t.next), t.next + 1, view), Ok(Entry(t.next)))
  {
    assert (parent, name) in t.names <==> HasEntry(s.nodes, (parent, name));
    GrownCounts(t, parent, name, ObjectOf(n));
  }

  lemma MakeAgrees(s: Store, t: Tree, parent: Ino, name: Name, n: Node)
    requires Sound(s, t) && Makeable(n, parent) && (n.content.Directory? ==> n.openHandles == 0)
    ensures Agrees(s, t, Make(t, parent, name, ObjectOf(n)), NodeSize(n), n.content.Symlink?, Makes(s, parent, name, n))
  {
    if !Fits(t, parent, name) {
      MakeUnfit(s, t, parent, name, n);
    } else if UsedObjects(t) + 1 > t.ceilings.objects || UsedBytes(t) + NodeSize(n) > t.ceilings.bytes {
      MakeRefused(s, t, parent, name, n);
    } else {
      MakeStored(s, t, parent, name, n);
    }
  }

  // ------------------------------------------------------------ removing

  /** Taking one name away unnames what it named and nothing else. */
  lemma UnnamedMeanwhile(names: map<(Ino, Name), Ino>, k: (Ino, Name))
    requires k in names
    requires forall j, l | j in names && l in names && names[j] == names[l] :: j == l
    ensures !Named(names - {k}, names[k])
    ensures forall j | j != names[k] :: Named(names - {k}, j) <==> Named(names, j)
  {
    forall j | j != names[k] && Named(names, j) ensures Named(names - {k}, j) {
      var l :| l in names && names[l] == j;
      assert (names - {k})[l] == j;
    }
  }

  /** The object an entry names, once the entry is gone: kept while a handle holds it, dropped otherwise. */
  ghost function Unlinked(t: Tree, k: (Ino, Name)): Tree
    requires k in t.names && t.names[k] in t.objects
  {
    var i := t.names[k];
    t.(names := t.names - {k}, objects := if t.objects[i].handles == 0 then t.objects - {i} else t.objects)
  }

  lemma CollectIsUnlinked(t: Tree, k: (Ino, Name))
    requires WellNamed(t) && WellPopulated(t) && k in t.names
    ensures Collect(t.(names := t.names - {k})) == Unlinked(t, k)
  {
    UnnamedMeanwhile(t.names, k);
    var ours, theirs := Collect(t.(names := t.names - {k})).objects, Unlinked(t, k).objects;
    forall j | j in t.objects ensures j in ours <==> j in theirs {
      assert j != t.names[k] ==> (Named(t.names - {k}, j) <==> Named(t.names, j));
    }
    assert ours == theirs;
  }

  lemma UnlinkedCounts(t: Tree, k: (Ino, Name))
    requires WellFormed(t) && k in t.names
    ensures var i := t.names[k];
            var dropped := t.objects[i].handles == 0;
            && UsedBytes(Unlinked(t, k)) == UsedBytes(t) - (if dropped then SizeOf(t.objects[i]) else 0)
            && UsedObjects(Unlinked(t, k)) == UsedObjects(t) - (if dropped then 1 else 0)
            && SizeOf(t.objects[i]) <= UsedBytes(t) && 1 <= UsedObjects(t)
  {
    var i := t.names[k];
    BytesWithout(t.objects, i);
    assert (t.objects - {i}).Keys == t.objects.Keys - {i};
    assert {ROOT, i} <= t.objects.Keys;
    assert |{ROOT, i}| <= |t.objects.Keys| by {
      assert t.objects.Keys == {ROOT, i} + (t.objects.Keys - {ROOT, i});
    }
  }

  ghost predicate Removable(t: Tree, k: (Ino, Name)) {
    k in t.names && (IsDir(t, t.names[k]) ==> IsEmptyDir(t, t.names[k]))
  }

  function Removed(s: Store, k: (Ino, Name), i: Ino): Store
    requires k.0 in s.nodes && s.nodes[k.0].content.Directory? && i in s.nodes
  {
    Detach(s.(nodes := WithoutEntry(s.nodes, k.0, k.1)), i)
  }

  lemma RemovedIsStored(s: Store, t: Tree, k: (Ino, Name))
    requires Sound(s, t) && Removable(t, k)
    ensures HasEntry(s.nodes, k) && t.names[k] in s.nodes
    ensures Represents(Removed(s, k, t.names[k]).nodes, Unlinked(t, k))
  {
    var i, nodes1 := t.names[k], WithoutEntry(s.nodes, k.0, k.1);
    var t1 := t.(names := t.names - {k});
    if IsDir(t, i) {
      EmptyDirs(s, t, i);
    }
    Unnaming(s.nodes, t, k.0, k.1);
    if t.objects[i].handles == 0 {
      Dropping(nodes1, t1, i);
    } else {
      Relabelling(nodes1, t1, i, nodes1[i].(unlinked := true));
      assert t1.objects[i := ObjectOf(nodes1[i])] == t1.objects;
    }
  }

  lemma RemovedIsLinked(s: Store, t: Tree, k: (Ino, Name))
    requires WellNamed(t) && Linked(s.nodes, t.names) && k in t.names && HasEntry(s.nodes, k)
    requires t.names[k] in s.nodes && t.names[k] in t.objects
    ensures Linked(Removed(s, k, t.names[k]).nodes, t.names - {k})
  {
    var i, nodes2 := t.names[k], Removed(s, k, t.names[k]).nodes;
    UnnamedMeanwhile(t.names, k);
    forall j | j in nodes2 ensures nodes2[j].unlinked <==> j != ROOT && !Named(t.names - {k}, j) {
      assert j != i ==> (Named(t.names - {k}, j) <==> Named(t.names, j));
    }
  }

  lemma RemovedAgrees(s: Store, t: Tree, k: (Ino, Name))
    requires Sound(s, t) && Removable(t, k)
    requires WellFormed(Unlinked(t, k))
    ensures HasEntry(s.nodes, k) && t.names[k] in s.nodes
    ensures Agrees(s, t, (Unlinked(t, k), Ok(Done)), 0, false, (Removed(s, k, t.names[k]), Ok(Done)))
  {
    RemovedIsStored(s, t, k);
    RemovedIsLinked(s, t, k);
    RemovedIsCharged(s, t, k);
    Recounted(s, t, (Unlinked(t, k), Ok(Done)), 0, false, Removed(s, k, t.names[k]));
  }

  /** The ledger holds the recounted usage, and never more than its peaks. */
  ghost predicate Counted(view: Snapshot, t: Tree) {
    view.usedBytes == UsedBytes(t) <= view.peakBytes && view.usedObjects == UsedObjects(t) <= view.peakObjects
  }

  /** What releasing an object and its bytes makes of the ledger. */
  lemma ReleasedView(view: Snapshot, t: Tree, t': Tree, bytes: nat)
    requires Counted(view, t) && UsedBytes(t') == UsedBytes(t) - bytes && UsedObjects(t') == UsedObjects(t) - 1
    requires bytes <= UsedBytes(t) && 1 <= UsedObjects(t)
    ensures After(After(view, Call.ReleaseBytes(bytes)), Call.ReleaseObject)
         == ChargedFor(view, t, (t', Ok(Done)), 0, false)
  {
  }

  lemma SameView(view: Snapshot, t: Tree, t': Tree)
    requires Counted(view, t) && UsedBytes(t') == UsedBytes(t) && UsedObjects(t') == UsedObjects(t)
    ensures view == ChargedFor(view, t, (t', Ok(Done)), 0, false)
  {
  }

  lemma RemovedIsCharged(s: Store, t: Tree, k: (Ino, Name))
    requires WellFormed(t) && Counted(s.view, t) && k in t.names && HasEntry(s.nodes, k) && t.names[k] in s.nodes
    requires t.objects[t.names[k]] == ObjectOf(s.nodes[t.names[k]])
    ensures Removed(s, k, t.names[k]).view == ChargedFor(s.view, t, (Unlinked(t, k), Ok(Done)), 0, false)
    ensures Removed(s, k, t.names[k]).next == s.next
  {
    var i := t.names[k];
    UnlinkedCounts(t, k);
    if t.objects[i].handles == 0 {
      ReleasedView(s.view, t, Unlinked(t, k), SizeOf(t.objects[i]));
      DetachIsDropped(s.(nodes := WithoutEntry(s.nodes, k.0, k.1)), i);
    } else {
      SameView(s.view, t, Unlinked(t, k));
    }
  }

  /** Detaching a node nobody holds open releases its bytes and its object. */
  lemma DetachIsDropped(s: Store, i: Ino)
    requires i in s.nodes && s.nodes[i].openHandles == 0
    ensures Detach(s, i).view == After(After(s.view, Call.ReleaseBytes(NodeSize(s.nodes[i]))), Call.ReleaseObject)
    ensures Detach(s, i).next == s.next
  {
  }

  lemma RemoveEntryIsRemoved(s: Store, t: Tree, parent: Ino, name: Name, directory: bool)
    requires Sound(s, t) && Remove(t, parent, name, directory).1.Ok?
    ensures var k := (parent, name);
            && HasEntry(s.nodes, k) && t.names[k] in s.nodes && Removable(t, k)
            && RemoveEntry(s, parent, name, directory) == (Removed(s, k, t.names[k]), Ok(Done))
            && Remove(t, parent, name, directory) == (Unlinked(t, k), Ok(Done))
  {
    var k := (parent, name);
    assert k in t.names <==> HasEntry(s.nodes, k);
    CollectIsUnlinked(t, k);
    if directory {
      EmptyDirs(s, t, t.names[k]);
    }
  }

  lemma RemoveAgrees(s: Store, t: Tree, parent: Ino, name: Name, directory: bool)
    requires Sound(s, t)
    ensures Agrees(s, t, Remove(t, parent, name, directory), 0, false, RemoveEntry(s, parent, name, directory))
  {
    if Remove(t, parent, name, directory).1.Err? {
      RemoveErrors(s, t, parent, name, directory);
    } else {
      RemoveEntryIsRemoved(s, t, parent, name, directory);
      RemoveKeeps(t, parent, name, directory);
      RemovedAgrees(s, t, (parent, name));
    }
  }

  lemma EmptyDirs(s: Store, t: Tree, d: Ino)
    requires Sound(s, t) && IsDir(t, d)
    ensures s.nodes[d].content.Directory?
    ensures IsEmptyDir(t, d) <==> s.nodes[d].content.children == map[]
  {
    assert forall n :: (d, n) in t.names <==> HasEntry(s.nodes, (d, n));
    if s.nodes[d].content.children != map[] {
      var n :| n in s.nodes[d].content.children;
      assert (d, n) in t.names;
    }
  }

  lemma RemoveErrors(s: Store, t: Tree, parent: Ino, name: Name, directory: bool)
    requires Sound(s, t) && Remove(t, parent, name, directory).1.Err?
    ensures Agrees(s, t, Remove(t, parent, name, directory), 0, false, RemoveEntry(s, parent, name, directory))
  {
    var k := (parent, name);
    assert k in t.names <==> HasEntry(s.nodes, k);
    if k in t.names && IsDir(t, t.names[k]) {
      EmptyDirs(s, t, t.names[k]);
    }
    NothingChanged(s, t, Remove(t, parent, name, directory).1, 0, false);
  }

  // ------------------------------------------------------------ renaming

  /** Moving a name to a free place, with nothing to displace. */
  ghost function Moved(t: Tree, from: (Ino, Name), to: (Ino, Name)): Tree
    requires from in t.names
  {
    t.(names := (t.names - {from})[to := t.names[from]])
  }

  function MovedNodes(nodes: Nodes, from: (Ino, Name), to: (Ino, Name), source: Ino): Nodes
    requires from.0 in nodes && nodes[from.0].content.Directory?
    requires to.0 in nodes && nodes[to.0].content.Directory? && source in nodes
  {
    var moved := WithEntry(WithoutEntry(nodes, from.0, from.1), to.0, to.1, source);
    moved[source := moved[source].(parent := to.0)]
  }

  ghost predicate Movable(t: Tree, from: (Ino, Name), to: (Ino, Name)) {
    from in t.names && to !in t.names && IsDir(t, to.0)
  }

  lemma MovedIsStored(nodes: Nodes, t: Tree, from: (Ino, Name), to: (Ino, Name))
    requires Represents(nodes, t) && WellNamed(t) && Movable(t, from, to)
    ensures HasEntry(nodes, from) && nodes[to.0].content.Directory? && t.names[from] in nodes
    ensures Represents(MovedNodes(nodes, from, to, t.names[from]), Moved(t, from, to))
  {
    var source := t.names[from];
    var gone := WithoutEntry(nodes, from.0, from.1);
    var t1 := t.(names := t.names - {from});
    Unnaming(nodes, t, from.0, from.1);
    Naming(gone, t1, to.0, to.1, source);
    var moved := WithEntry(gone, to.0, to.1, source);
    Reparenting(moved, Moved(t, from, to), source, to.0);
  }

  lemma Reparenting(nodes: Nodes, t: Tree, i: Ino, parent: Ino)
    requires Represents(nodes, t) && i in nodes
    ensures Represents(nodes[i := nodes[i].(parent := parent)], t)
  {
    Relabelling(nodes, t, i, nodes[i].(parent := parent));
    assert t.objects[i := ObjectOf(nodes[i])] == t.objects;
  }

  lemma MovedIsLinked(nodes: Nodes, t: Tree, from: (Ino, Name), to: (Ino, Name))
    requires WellNamed(t) && Linked(nodes, t.names) && Movable(t, from, to) && HasEntry(nodes, from)
    requires to.0 in nodes && nodes[to.0].content.Directory? && t.names[from] in nodes
    ensures Linked(MovedNodes(nodes, from, to, t.names[from]), Moved(t, from, to).names)
  {
    var source, names1 := t.names[from], t.names - {from};
    var nodes' := MovedNodes(nodes, from, to, source);
    UnnamedMeanwhile(t.names, from);
    NamedMeanwhile(names1, to, source);
    assert Named(t.names, source);
    forall j | j in nodes' ensures nodes'[j].unlinked <==> j != ROOT && !Named(names1[to := source], j) {
      assert j != source ==> (Named(names1[to := source], j) <==> Named(names1, j));
      assert j != source ==> (Named(names1, j) <==> Named(t.names, j));
    }
  }

  /** Which objects are named once a name has moved: the source is, what it displaced is not, the rest are as before. */
  lemma NamedAfterMove(names: map<(Ino, Name), Ino>, from: (Ino, Name), to: (Ino, Name), j: Ino)
    requires from in names && (forall k, l | k in names && l in names && names[k] == names[l] :: k == l)
    requires to in names ==> names[to] != names[from]
    ensures var moved := (names - {from})[to := names[from]];
            Named(moved, j) <==> Named(names, j) && !(to in names && j == names[to])
  {
    var moved := (names - {from})[to := names[from]];
    assert moved[to] == names[from];
    if Named(names, j) && !(to in names && j == names[to]) && j != names[from] {
      var l :| l in names && names[l] == j;
      assert moved[l] == j;
    }
  }

  /** Renaming over nothing, or over an object freed first, is collecting the renamed tree. */
  lemma CollectIsMoved(t: Tree, from: (Ino, Name), to: (Ino, Name))
    requires WellNamed(t) && WellPopulated(t) && from in t.names
    requires to in t.names ==> t.names[to] != t.names[from]
    ensures var free := if to in t.names then Unlinked(t, to) else t;
            from in free.names && Collect(Moved(t, from, to)) == Moved(free, from, to)
  {
    var free := if to in t.names then Unlinked(t, to) else t;
    var names := Moved(t, from, to).names;
    assert Moved(free, from, to).names == names;
    var ours := Collect(Moved(t, from, to)).objects;
    forall j | j in t.objects ensures j in ours <==> j in free.objects {
      NamedAfterMove(t.names, from, to, j);
      assert Named(t.names, j) || !Named(t.names, j);
    }
    assert ours == free.objects;
  }

  ghost function From(q: Request): (Ino, Name)
    requires q.Rename?
  {
    (q.parent, q.name)
  }

  ghost function To(q: Request): (Ino, Name)
    requires q.Rename?
  {
    (q.newParent, q.newName)
  }

  lemma RenameErrors(s: Store, t: Tree, q: Request)
    requires Sound(s, t) && q.Rename? && Renamed(t, q).1.Err?
    ensures Agrees(s, t, Renamed(t, q), 0, false, RenameEntry(s, q))
  {
    assert From(q) in t.names <==> HasEntry(s.nodes, From(q));
    assert To(q) in t.names <==> HasEntry(s.nodes, To(q));
    if To(q) in t.names && IsDir(t, t.names[To(q)]) {
      EmptyDirs(s, t, t.names[To(q)]);
    }
    NothingChanged(s, t, Renamed(t, q).1, 0, false);
  }

  lemma CollectNothing(t: Tree)
    requires WellPopulated(t)
    ensures Collect(t) == t
  {
    forall j | j in t.objects ensures j == ROOT || Named(t.names, j) || t.objects[j].handles > 0 {
      assert Named(t.names, j) || !Named(t.names, j);
    }
  }

  lemma RenameToItself(s: Store, t: Tree, q: Request)
    requires Sound(s, t) && q.Rename? && Renamed(t, q).1.Ok?
    requires To(q) in t.names && t.names[To(q)] == t.names[From(q)]
    ensures Agrees(s, t, Renamed(t, q), 0, false, RenameEntry(s, q))
  {
    assert From(q) in t.names <==> HasEntry(s.nodes, From(q));
    assert To(q) in t.names <==> HasEntry(s.nodes, To(q));
    assert (t.names - {From(q)})[To(q) := t.names[From(q)]] == t.names;
    CollectNothing(t);
    NothingChanged(s, t, Ok(Done), 0, false);
  }

  /** The tree once the target of a rename was displaced. */
  ghost function Freed(t: Tree, to: (Ino, Name)): Tree
    requires to in t.names ==> t.names[to] in t.objects
  {
    if to in t.names then Unlinked(t, to) else t
  }

  lemma FreedIsSound(s: Store, t: Tree, to: (Ino, Name))
    requires Sound(s, t) && (to in t.names ==> Removable(t, to))
    ensures to in t.names ==> HasEntry(s.nodes, to) && t.names[to] in s.nodes
    ensures var free := if to in t.names then Removed(s, to, t.names[to]) else s;
            && Sound(free, Freed(t, to))
            && free.view == ChargedFor(s.view, t, (Freed(t, to), Ok(Done)), 0, false)
  {
    if to in t.names {
      RemoveKeeps(t, to.0, to.1, IsDir(t, t.names[to]));
      CollectIsUnlinked(t, to);
      RemovedAgrees(s, t, to);
    }
  }

  /** The inodes once the target of a rename was displaced. */
  ghost function FreedStore(s: Store, t: Tree, to: (Ino, Name)): Store
    requires to in t.names ==> HasEntry(s.nodes, to) && t.names[to] in s.nodes
  {
    if to in t.names then Removed(s, to, t.names[to]) else s
  }

  lemma DisplaceFrees(s: Store, t: Tree, q: Request)
    requires Sound(s, t) && q.Rename? && Renamed(t, q).1.Ok?
    requires To(q) in t.names ==> t.names[To(q)] != t.names[From(q)]
    ensures From(q) in t.names && (To(q) in t.names ==> Removable(t, To(q)))
    ensures To(q) in t.names ==> HasEntry(s.nodes, To(q)) && t.names[To(q)] in s.nodes
    ensures Child(s.nodes, q.parent, q.name) == Ok(t.names[From(q)]) && t.names[From(q)] in s.nodes
    ensures Children(s.nodes, q.newParent).Ok?
    ensures Displace(s, t.names[From(q)], q.newParent, q.newName, q.flags.noReplace)
         == Ok(Some(FreedStore(s, t, To(q))))
  {
    assert From(q) in t.names <==> HasEntry(s.nodes, From(q));
    assert To(q) in t.names <==> HasEntry(s.nodes, To(q));
    if To(q) in t.names && IsDir(t, t.names[To(q)]) {
      EmptyDirs(s, t, t.names[To(q)]);
    }
  }

  lemma RenameEntryIsMoved(s: Store, q: Request, source: Ino, free: Store)
    requires q.Rename? && !q.flags.exchange && !q.flags.whiteout && LegalName(q.newName)
    requires Child(s.nodes, q.parent, q.name) == Ok(source) && source in s.nodes
    requires Children(s.nodes, q.newParent).Ok?
    requires Displace(s, source, q.newParent, q.newName, q.flags.noReplace) == Ok(Some(free))
    requires Children(free.nodes, q.parent).Ok? && Children(free.nodes, q.newParent).Ok? && source in free.nodes
    ensures RenameEntry(s, q) == (free.(nodes := MovedNodes(free.nodes, From(q), To(q), source)), Ok(Done))
  {
  }

  lemma FreedIsMovable(t: Tree, q: Request)
    requires WellFormed(t) && q.Rename? && Renamed(t, q).1.Ok?
    requires To(q) in t.names ==> t.names[To(q)] != t.names[From(q)]
    ensures Movable(Freed(t, To(q)), From(q), To(q))
    ensures Renamed(t, q) == (Moved(Freed(t, To(q)), From(q), To(q)), Ok(Done))
  {
    CollectIsMoved(t, From(q), To(q));
  }

  lemma RenameAgrees(s: Store, t: Tree, q: Request)
    requires Sound(s, t) && q.Rename?
    ensures Agrees(s, t, Renamed(t, q), 0, false, RenameEntry(s, q))
  {
    if Renamed(t, q).1.Err? {
      RenameErrors(s, t, q);
    } else if To(q) in t.names && t.names[To(q)] == t.names[From(q)] {
      RenameToItself(s, t, q);
    } else {
      RenameMoves(s, t, q);
    }
  }

  lemma RenameMoves(s: Store, t: Tree, q: Request)
    requires Sound(s, t) && q.Rename? && Renamed(t, q).1.Ok?
    requires To(q) in t.names ==> t.names[To(q)] != t.names[From(q)]
    ensures Agrees(s, t, Renamed(t, q), 0, false, RenameEntry(s, q))
  {
    var t1 := Freed(t, To(q));
    DisplaceFrees(s, t, q);
    var free := FreedStore(s, t, To(q));
    FreedIsSound(s, t, To(q));
    FreedIsMovable(t, q);
    MovedIsStored(free.nodes, t1, From(q), To(q));
    RenameEntryIsMoved(s, q, t.names[From(q)], free);
    RenameKeeps(t, q);
    MovedAgrees(s, t, free, t1, From(q), To(q));
  }

  /** Moving an entry in a sound store keeps it sound, and charges nothing more. */
  lemma MovedAgrees(s: Store, t: Tree, free: Store, t1: Tree, from: (Ino, Name), to: (Ino, Name))
    requires Sound(s, t) && Sound(free, t1) && t1.ceilings == t.ceilings && Movable(t1, from, to)
    requires WellFormed(Moved(t1, from, to)) && from in t1.names && t1.names[from] in free.nodes
    requires HasEntry(free.nodes, from) && to.0 in free.nodes && free.nodes[to.0].content.Directory?
    requires free.view == ChargedFor(s.view, t, (t1, Ok(Done)), 0, false)
    ensures Agrees(s, t, (Moved(t1, from, to), Ok(Done)), 0, false,
                   (free.(nodes := MovedNodes(free.nodes, from, to, t1.names[from])), Ok(Done)))
  {
    MovedIsStored(free.nodes, t1, from, to);
    MovedIsLinked(free.nodes, t1, from, to);
    Recounted(s, t, (Moved(t1, from, to), Ok(Done)), 0, false,
              free.(nodes := MovedNodes(free.nodes, from, to, t1.names[from])));
  }

  // ------------------------------------------------------------ handles

  lemma SetIsLinked(nodes: Nodes, names: map<(Ino, Name), Ino>, i: Ino, n: Node)
    requires Linked(nodes, names) && i in nodes && n.parent == nodes[i].parent && n.unlinked == nodes[i].unlinked
    ensures Linked(nodes[i := n], names)
  {
    var nodes' := nodes[i := n];
    forall j | j in nodes' ensures nodes'[j].unlinked <==> j != ROOT && !Named(names, j) {
      assert Named(names, j) || !Named(names, j);
    }
  }

  /** A node's handle count changes and nothing else does. */
  function WithOpen(s: Store, i: Ino, handles: nat): Store
    requires i in s.nodes
  {
    s.(nodes := s.nodes[i := s.nodes[i].(openHandles := handles)])
  }

  lemma HandlesAreStored(s: Store, t: Tree, i: Ino, handles: nat)
    requires Represents(s.nodes, t) && Linked(s.nodes, t.names) && i in t.objects
    ensures Represents(WithOpen(s, i, handles).nodes, WithHandles(t, i, handles))
    ensures Linked(WithOpen(s, i, handles).nodes, t.names)
  {
    var n := s.nodes[i].(openHandles := handles);
    Relabelling(s.nodes, t, i, n);
    SetIsLinked(s.nodes, t.names, i, n);
  }

  lemma HandlesAgree(s: Store, t: Tree, i: Ino, handles: nat)
    requires Sound(s, t) && i in t.objects && WellFormed(WithHandles(t, i, handles))
    ensures Agrees(s, t, (WithHandles(t, i, handles), Ok(Done)), 0, false, (WithOpen(s, i, handles), Ok(Done)))
  {
    HandlesAreStored(s, t, i, handles);
    SameCounts(t, i, handles);
    Recounted(s, t, (WithHandles(t, i, handles), Ok(Done)), 0, false, WithOpen(s, i, handles));
  }

  lemma OpenAgrees(s: Store, t: Tree, i: Ino)
    requires Sound(s, t)
    ensures Agrees(s, t, OpenFile(t, i), 0, false, OpenNode(s, i))
  {
    if OpenFile(t, i).1.Err? {
      NothingChanged(s, t, OpenFile(t, i).1, 0, false);
    } else {
      var handles := t.objects[i].handles + 1;
      assert OpenFile(t, i) == (WithHandles(t, i, handles), Ok(Done));
      assert OpenNode(s, i) == (WithOpen(s, i, handles), Ok(Done));
      assert WellFormed(WithHandles(t, i, handles)) by {
        OpenKeeps(t, i);
      }
      HandlesAgree(s, t, i, handles);
    }
  }

  lemma SameCounts(t: Tree, i: Ino, handles: nat)
    requires i in t.objects
    ensures UsedBytes(WithHandles(t, i, handles)) == UsedBytes(t)
    ensures UsedObjects(WithHandles(t, i, handles)) == UsedObjects(t)
  {
    BytesWith(t.objects, i, t.objects[i].(handles := handles));
    assert WithHandles(t, i, handles).objects.Keys == t.objects.Keys;
  }

  /** Closing a handle that others share, or of an object that still has its name, keeps the object. */
  lemma ClosedIsKept(t: Tree, i: Ino)
    requires WellPopulated(t) && i in t.objects && t.objects[i].handles > 0
    requires Named(t.names, i) || t.objects[i].handles > 1
    ensures ReleaseFile(t, i) == (WithHandles(t, i, t.objects[i].handles - 1), Ok(Done))
  {
    var t1 := WithHandles(t, i, t.objects[i].handles - 1);
    forall j | j in t1.objects ensures j == ROOT || Named(t.names, j) || t1.objects[j].handles > 0 {
      assert Named(t.names, j) || !Named(t.names, j);
    }
    assert Collect(t1).objects == t1.objects;
  }

  lemma NodeIsKept(s: Store, t: Tree, i: Ino)
    requires Represents(s.nodes, t) && Linked(s.nodes, t.names)
    requires i in t.objects && t.objects[i].handles > 0 && (Named(t.names, i) || t.objects[i].handles > 1)
    ensures i in s.nodes && ReleaseNode(s, i) == (WithOpen(s, i, t.objects[i].handles - 1), Ok(Done))
  {
    var n := s.nodes[i];
    assert t.objects[i] == ObjectOf(n);
    var named := Named(t.names, i);
    assert n.unlinked == (i != ROOT && !named);
  }

  lemma CloseKept(s: Store, t: Tree, i: Ino)
    requires Sound(s, t) && i in t.objects && t.objects[i].handles > 0
    requires Named(t.names, i) || t.objects[i].handles > 1
    ensures Agrees(s, t, ReleaseFile(t, i), 0, false, ReleaseNode(s, i))
  {
    var handles := t.objects[i].handles - 1;
    ClosedIsKept(t, i);
    NodeIsKept(s, t, i);
    assert WellFormed(WithHandles(t, i, handles)) by {
      ReleaseKeeps(t, i);
    }
    HandlesAgree(s, t, i, handles);
  }

  /** Closing the last handle of an object without a name drops it. */
  ghost function Without(t: Tree, i: Ino): Tree {
    t.(objects := t.objects - {i})
  }

  lemma ClosedIsDropped(t: Tree, i: Ino)
    requires WellPopulated(t) && i in t.objects && t.objects[i].handles == 1 && !Named(t.names, i)
    ensures i != ROOT && !IsDir(t, i)
    ensures ReleaseFile(t, i) == (Without(t, i), Ok(Done))
  {
    forall j | j in t.objects ensures j == ROOT || Named(t.names, j) || t.objects[j].handles > 0 {
      assert Named(t.names, j) || !Named(t.names, j);
    }
    assert Collect(WithHandles(t, i, 0)).objects == t.objects - {i};
  }

  lemma DroppedIsStored(s: Store, t: Tree, i: Ino)
    requires Represents(s.nodes, t) && Linked(s.nodes, t.names) && i in t.objects
    requires !IsDir(t, i) && !Named(t.names, i)
    ensures Represents(DropNode(s, i).nodes, Without(t, i)) && Linked(DropNode(s, i).nodes, t.names)
  {
    Dropping(s.nodes, t, i);
    forall k | k in t.names ensures t.names[k] != i {
      assert t.names[k] == i ==> Named(t.names, i);
    }
    var nodes' := DropNode(s, i).nodes;
    forall j | j in nodes' ensures nodes'[j].unlinked <==> j != ROOT && !Named(t.names, j) {
      assert Named(t.names, j) || !Named(t.names, j);
    }
  }

  lemma CloseDropped(s: Store, t: Tree, i: Ino)
    requires Sound(s, t) && i in t.objects && t.objects[i].handles == 1 && !Named(t.names, i)
    ensures Agrees(s, t, ReleaseFile(t, i), 0, false, ReleaseNode(s, i))
  {
    ClosedIsDropped(t, i);
    DroppedIsStored(s, t, i);
    DroppedCounts(t, i);
    ReleaseKeeps(t, i);
    ReleaseDrops(s, i);
    ReleasedView(s.view, t, Without(t, i), SizeOf(t.objects[i]));
    Recounted(s, t, (Without(t, i), Ok(Done)), 0, false, DropNode(s, i));
  }

  lemma ReleaseDrops(s: Store, i: Ino)
    requires i in s.nodes && s.nodes[i].unlinked && s.nodes[i].openHandles == 1
    ensures ReleaseNode(s, i) == (DropNode(s, i), Ok(Done))
    ensures DropNode(s, i).view == After(After(s.view, Call.ReleaseBytes(NodeSize(s.nodes[i]))), Call.ReleaseObject)
  {
    assert s.nodes[i := s.nodes[i].(openHandles := 0)] - {i} == s.nodes - {i};
  }

  lemma DroppedCounts(t: Tree, i: Ino)
    requires WellPopulated(t) && i in t.objects && i != ROOT
    ensures BytesIn(t.objects - {i}) == UsedBytes(t) - SizeOf(t.objects[i])
    ensures |t.objects - {i}| == |t.objects| - 1 && 1 <= UsedObjects(t)
  {
    BytesWithout(t.objects, i);
    assert (t.objects - {i}).Keys == t.objects.Keys - {i};
    assert ROOT in (t.objects - {i}).Keys;
  }

  lemma CloseNothing(s: Store, t: Tree, i: Ino)
    requires Sound(s, t) && (i in t.objects ==> t.objects[i].handles == 0)
    ensures ReleaseFile(t, i) == (t, Ok(Done)) && ReleaseNode(s, i) == (s, Ok(Done))
  {
    if i in t.objects {
      assert Named(t.names, i) || i == ROOT;
      assert s.nodes[i := s.nodes[i]] == s.nodes;
    }
  }

  lemma ReleaseAgrees(s: Store, t: Tree, i: Ino)
    requires Sound(s, t)
    ensures Agrees(s, t, ReleaseFile(t, i), 0, false, ReleaseNode(s, i))
  {
    if i !in t.objects || t.objects[i].handles == 0 {
      CloseNothing(s, t, i);
      NothingChanged(s, t, Ok(Done), 0, false);
    } else if Named(t.names, i) || t.objects[i].handles > 1 {
      CloseKept(s, t, i);
    } else {
      CloseDropped(s, t, i);
    }
  }

  // ------------------------------------------------------------ contents

  lemma DataCounts(t: Tree, i: Ino, data: Bytes)
    requires CheckFile(t, i).None?
    ensures UsedBytes(WithData(t, i, data)) == UsedBytes(t) - |t.objects[i].body.data| + |data|
    ensures UsedObjects(WithData(t, i, data)) == UsedObjects(t)
    ensures |t.objects[i].body.data| <= UsedBytes(t)
  {
    BytesWith(t.objects, i, t.objects[i].(body := FileBody(data)));
    BytesWithout(t.objects, i);
    assert WithData(t, i, data).objects.Keys == t.objects.Keys;
  }

  lemma DataIsStored(s: Store, t: Tree, i: Ino, data: Bytes)
    requires Sound(s, t) && CheckFile(t, i).None?
    ensures Represents(StoreData(s, i, data).nodes, WithData(t, i, data))
    ensures Linked(StoreData(s, i, data).nodes, t.names)
  {
    var n := s.nodes[i].(content := File(data));
    Relabelling(s.nodes, t, i, n);
    SetIsLinked(s.nodes, t.names, i, n);
  }

  /** The one ledger call the server makes for a change of size. */
  function SizeCall(before: nat, after: nat): Call {
    if after > before then Call.ReserveBytes(after - before) else Call.ReleaseBytes(before - after)
  }

  lemma EditRefused(s: Store, t: Tree, i: Ino, e: FileBytes.Edit, answer: Response)
    requires Sound(s, t) && CheckFile(t, i).None?
    requires var before, after := |t.objects[i].body.data|, |Edited(t.objects[i].body.data, e)|;
             Refusal(s.view, SizeCall(before, after)).Some?
    ensures var before, after := |t.objects[i].body.data|, |Edited(t.objects[i].body.data, e)|;
            && EditFile(t, i, e, answer) == (t, Err(ENOSPC))
            && Agrees(s, t, (t, Err(ENOSPC)), after - before, false, (Charge(s, SizeCall(before, after)), Err(ENOSPC)))
  {
    var before, after := |t.objects[i].body.data|, |Edited(t.objects[i].body.data, e)|;
    DataCounts(t, i, Edited(t.objects[i].body.data, e));
    Recounted(s, t, (t, Err(ENOSPC)), after - before, false, Charge(s, SizeCall(before, after)));
  }

  lemma EditAdmitted(s: Store, t: Tree, i: Ino, data: Bytes, answer: Response)
    requires Sound(s, t) && CheckFile(t, i).None? && WellFormed(WithData(t, i, data))
    requires Refusal(s.view, SizeCall(|t.objects[i].body.data|, |data|)).None?
    requires answer != Err(ENOSPC) && answer != Err(EDQUOT)
    ensures var before := |t.objects[i].body.data|;
            Agrees(s, t, (WithData(t, i, data), answer), |data| - before, false,
              (StoreData(Charge(s, SizeCall(before, |data|)), i, data), answer))
  {
    var before := |t.objects[i].body.data|;
    DataCounts(t, i, data);
    DataIsStored(s, t, i, data);
    Recounted(s, t, (WithData(t, i, data), answer), |data| - before, false,
      StoreData(Charge(s, SizeCall(before, |data|)), i, data));
  }

  /** What the server does once it has the new bytes of a file: charge the change of size, then store or refuse. */
  function EditOutcome(s: Store, i: Ino, before: Bytes, after: Bytes, answer: Response): (Store, Response)
    requires i in s.nodes
  {
    var call := SizeCall(|before|, |after|);
    if Refusal(s.view, call).Some? then (Charge(s, call), Err(ENOSPC))
    else (StoreData(Charge(s, call), i, after), answer)
  }

  lemma EditAgrees(s: Store, t: Tree, i: Ino, e: FileBytes.Edit, answer: Response)
    requires Sound(s, t) && CheckFile(t, i).None?
    requires answer != Err(ENOSPC) && answer != Err(EDQUOT)
    ensures i in s.nodes && FileData(s.nodes, i) == Ok(t.objects[i].body.data)
    ensures var before := t.objects[i].body.data;
            Agrees(s, t, EditFile(t, i, e, answer), |Edited(before, e)| - |before|, false,
              EditOutcome(s, i, before, Edited(before, e), answer))
  {
    var before, data := |t.objects[i].body.data|, Edited(t.objects[i].body.data, e);
    if Refusal(s.view, SizeCall(before, |data|)).Some? {
      EditRefused(s, t, i, e, answer);
    } else {
      EditIsData(s, t, i, e, answer);
      EditAdmitted(s, t, i, data, answer);
    }
  }

  lemma EditIsData(s: Store, t: Tree, i: Ino, e: FileBytes.Edit, answer: Response)
    requires Sound(s, t) && CheckFile(t, i).None?
    requires Refusal(s.view, SizeCall(|t.objects[i].body.data|, |Edited(t.objects[i].body.data, e)|)).None?
    ensures var data := Edited(t.objects[i].body.data, e);
            EditFile(t, i, e, answer) == (WithData(t, i, data), answer) && WellFormed(WithData(t, i, data))
  {
    DataCounts(t, i, Edited(t.objects[i].body.data, e));
    EditKeeps(t, i, e, answer);
  }

  lemma EditErrors(s: Store, t: Tree, i: Ino, e: FileBytes.Edit, answer: Response, asked: int)
    requires Sound(s, t) && CheckFile(t, i).Some?
    ensures FileData(s.nodes, i) == Err(CheckFile(t, i).value)
    ensures Agrees(s, t, EditFile(t, i, e, answer), asked, false, (s, Err(CheckFile(t, i).value)))
  {
    NothingChanged(s, t, Err(CheckFile(t, i).value), asked, false);
  }

  /** The bytes a refusal reports are the bytes the edit would have added. */
  lemma AskedIsGrowth(s: Store, t: Tree, theirs: (Tree, Response), asked: int, growth: int, ours: (Store, Response))
    requires Agrees(s, t, theirs, growth, false, ours)
    requires theirs.1 == Err(ENOSPC) ==> asked == growth
    ensures Agrees(s, t, theirs, asked, false, ours)
  {
  }

  lemma ResizeIsEdit(s: Store, i: Ino, size: nat)
    requires FileData(s.nodes, i).Ok?
    ensures var data := FileData(s.nodes, i).value;
            Resize(s, i, size) == EditOutcome(s, i, data, Resized(data, size), Ok(Done))
  {
  }

  lemma ResizeAgrees(s: Store, t: Tree, i: Ino, size: nat, e: FileBytes.Edit, asked: int)
    requires Sound(s, t)
    requires CheckFile(t, i).None? ==>
               Edited(t.objects[i].body.data, e) == Resized(t.objects[i].body.data, size)
               && asked == size - |t.objects[i].body.data|
    ensures Agrees(s, t, EditFile(t, i, e, Ok(Done)), asked, false, Resize(s, i, size))
  {
    if CheckFile(t, i).Some? {
      EditErrors(s, t, i, e, Ok(Done), asked);
    } else {
      EditAgrees(s, t, i, e, Ok(Done));
      ResizeIsEdit(s, i, size);
    }
  }

  lemma WriteIsEdit(s: Store, i: Ino, offset: u64, data: Payload)
    requires FileData(s.nodes, i).Ok? && offset + |data| <= U64_MAX && s.view.usedBytes >= 0
    ensures var before := FileData(s.nodes, i).value;
            WriteAt(s, i, offset, data) ==
              EditOutcome(s, i, before, Overwritten(before, offset, data),
                if |data| < U32_LIMIT then Ok(Written(|data|)) else Err(EFBIG))
  {
    assert After(s.view, Call.ReleaseBytes(0)) == s.view;
  }

  lemma WriteAdmissible(s: Store, t: Tree, i: Ino, offset: u64, data: Payload)
    requires Sound(s, t) && CheckFile(t, i).None? && offset + |data| <= U64_MAX
    ensures Agrees(s, t, WriteFile(t, i, offset, data), Asked(t, Write(i, offset, data)), false,
                   WriteAt(s, i, offset, data))
  {
    var e, answer := Overwrite(offset, data), if |data| < U32_LIMIT then Ok(Written(|data|)) else Err(EFBIG);
    var before := t.objects[i].body.data;
    var after := Overwritten(before, offset, data);
    EditAgrees(s, t, i, e, answer);
    WriteIsEdit(s, i, offset, data);
    assert EditOutcome(s, i, before, after, answer).1 == Err(ENOSPC) ==> |after| > |before|;
    AskedIsGrowth(s, t, EditFile(t, i, e, answer), Asked(t, Write(i, offset, data)), |after| - |before|,
      EditOutcome(s, i, before, after, answer));
  }

  lemma WriteAgrees(s: Store, t: Tree, i: Ino, offset: u64, data: Payload)
    requires Sound(s, t)
    ensures Agrees(s, t, WriteFile(t, i, offset, data), Asked(t, Write(i, offset, data)), false,
                   WriteAt(s, i, offset, data))
  {
    var asked := Asked(t, Write(i, offset, data));
    if offset + |data| > U64_MAX {
      NothingChanged(s, t, Err(EFBIG), asked, false);
    } else if CheckFile(t, i).Some? {
      EditErrors(s, t, i, Overwrite(offset, data), Ok(Done), asked);
    } else {
      WriteAdmissible(s, t, i, offset, data);
    }
  }

  lemma SetSizeAgrees(s: Store, t: Tree, i: Ino, size: Option<u64>)
    requires Sound(s, t)
    ensures Agrees(s, t, SetSize(t, i, size), Asked(t, SetAttr(i, size)), false, SetNodeSize(s, i, size))
  {
    var asked := Asked(t, SetAttr(i, size));
    if size.Some? {
      ResizeAgrees(s, t, i, size.value, Truncate(size.value), asked);
    } else {
      NothingChanged(s, t, SetSize(t, i, size).1, asked, false);
    }
  }

  lemma ReserveAgrees(s: Store, t: Tree, i: Ino, offset: u64, length: u64, mode: int)
    requires Sound(s, t)
    ensures Agrees(s, t, Reserve(t, i, offset, length, mode), Asked(t, Fallocate(i, offset, length, mode)), false,
              ReserveRange(s, i, offset, length, mode))
  {
    var size := offset + length;
    if mode == 0 && size <= U64_MAX && i in t.objects && size > SizeOf(t.objects[i]) {
      GrowingAgrees(s, t, i, offset, length);
    } else {
      StayingAgrees(s, t, i, offset, length, mode);
    }
  }

  lemma GrowingAgrees(s: Store, t: Tree, i: Ino, offset: u64, length: u64)
    requires Sound(s, t) && i in t.objects && SizeOf(t.objects[i]) < offset + length <= U64_MAX
    ensures Agrees(s, t, Reserve(t, i, offset, length, 0), Asked(t, Fallocate(i, offset, length, 0)), false,
              ReserveRange(s, i, offset, length, 0))
  {
    var size, asked := offset + length, Asked(t, Fallocate(i, offset, length, 0));
    ReserveGrows(s, t, i, size, asked);
    ReserveIsResize(s, t, i, offset, length);
    AgreesAlike(s, t, EditFile(t, i, Preallocate(size), Ok(Done)), asked, Resize(s, i, size),
                Reserve(t, i, offset, length, 0), ReserveRange(s, i, offset, length, 0));
  }

  lemma AgreesAlike(s: Store, t: Tree, theirs: (Tree, Response), asked: int, ours: (Store, Response),
                    theirs': (Tree, Response), ours': (Store, Response))
    requires Agrees(s, t, theirs, asked, false, ours) && theirs == theirs' && ours == ours'
    ensures Agrees(s, t, theirs', asked, false, ours')
  {
  }

  lemma StayingAgrees(s: Store, t: Tree, i: Ino, offset: u64, length: u64, mode: int)
    requires Sound(s, t)
    requires !(mode == 0 && offset + length <= U64_MAX && i in t.objects && offset + length > SizeOf(t.objects[i]))
    ensures Agrees(s, t, Reserve(t, i, offset, length, mode), Asked(t, Fallocate(i, offset, length, mode)), false,
              ReserveRange(s, i, offset, length, mode))
  {
    ReserveStays(s, t, i, offset, length, mode);
    var answer := Reserve(t, i, offset, length, mode).1;
    NothingChanged(s, t, answer, Asked(t, Fallocate(i, offset, length, mode)), false);
    assert Reserve(t, i, offset, length, mode) == (t, answer);
  }

  lemma ReserveIsResize(s: Store, t: Tree, i: Ino, offset: u64, length: u64)
    requires i in t.objects && i in s.nodes && NodeSize(s.nodes[i]) == SizeOf(t.objects[i])
    requires SizeOf(t.objects[i]) < offset + length <= U64_MAX
    ensures Reserve(t, i, offset, length, 0) == EditFile(t, i, Preallocate(offset + length), Ok(Done))
    ensures ReserveRange(s, i, offset, length, 0) == Resize(s, i, offset + length)
  {
  }

  lemma ReserveGrows(s: Store, t: Tree, i: Ino, size: nat, asked: int)
    requires Sound(s, t) && i in t.objects && size > SizeOf(t.objects[i])
    requires t.objects[i].body.FileBody? ==> asked == size - SizeOf(t.objects[i])
    ensures i in s.nodes && NodeSize(s.nodes[i]) == SizeOf(t.objects[i])
    ensures Agrees(s, t, EditFile(t, i, Preallocate(size), Ok(Done)), asked, false, Resize(s, i, size))
  {
    ResizeAgrees(s, t, i, size, Preallocate(size), asked);
  }

  lemma ReserveStays(s: Store, t: Tree, i: Ino, offset: u64, length: u64, mode: int)
    requires Sound(s, t)
    requires !(mode == 0 && offset + length <= U64_MAX && i in t.objects && offset + length > SizeOf(t.objects[i]))
    ensures Reserve(t, i, offset, length, mode).0 == t
    ensures ReserveRange(s, i, offset, length, mode) == (s, Reserve(t, i, offset, length, mode).1)
    ensures Reserve(t, i, offset, length, mode).1 != Err(ENOSPC) && Reserve(t, i, offset, length, mode).1 != Err(EDQUOT)
  {
    assert i in t.objects ==> NodeSize(s.nodes[i]) == SizeOf(t.objects[i]);
  }

  // ------------------------------------------------------------ every request

  lemma MakingAgrees(s: Store, t: Tree, q: Request)
    requires Sound(s, t) && (q.Mknod? || q.Mkdir? || q.Symlink? || q.Create?)
    ensures Agrees(s, t, Serve(t, q), Asked(t, q), q.Symlink?, Step(s, q))
  {
    match q
    case Mknod(parent, name, regular) =>
      if regular {
        MakeAgrees(s, t, parent, name, NewNode(File([]), parent));
      } else {
        NothingChanged(s, t, Err(EPERM), 0, false);
      }
    case Mkdir(parent, name) => MakeAgrees(s, t, parent, name, NewNode(Directory(map[]), parent));
    case Symlink(parent, name, target) => MakeAgrees(s, t, parent, name, NewNode(Content.Symlink(target), parent));
    case Create(parent, name) => MakeAgrees(s, t, parent, name, Node(File([]), parent, 1, false));
  }

  lemma WritingAgrees(s: Store, t: Tree, i: Ino, offset: u64, data: Payload)
    requires Sound(s, t)
    ensures var q := Request.Write(i, offset, data); Agrees(s, t, Serve(t, q), Asked(t, q), false, Step(s, q))
  {
    var q := Request.Write(i, offset, data);
    WriteAgrees(s, t, i, offset, data);
    assert Serve(t, q) == WriteFile(t, i, offset, data) && Step(s, q) == WriteAt(s, i, offset, data);
  }

  lemma SettingAgrees(s: Store, t: Tree, i: Ino, size: Option<u64>)
    requires Sound(s, t)
    ensures var q := Request.SetAttr(i, size); Agrees(s, t, Serve(t, q), Asked(t, q), false, Step(s, q))
  {
    var q := Request.SetAttr(i, size);
    SetSizeAgrees(s, t, i, size);
    assert Serve(t, q) == SetSize(t, i, size) && Step(s, q) == SetNodeSize(s, i, size);
  }

  lemma ReservingAgrees(s: Store, t: Tree, i: Ino, offset: u64, length: u64, mode: int)
    requires Sound(s, t)
    ensures var q := Request.Fallocate(i, offset, length, mode);
            Agrees(s, t, Serve(t, q), Asked(t, q), false, Step(s, q))
  {
    var q := Request.Fallocate(i, offset, length, mode);
    ReserveAgrees(s, t, i, offset, length, mode);
    assert Serve(t, q) == Reserve(t, i, offset, length, mode) && Step(s, q) == ReserveRange(s, i, offset, length, mode);
  }

  lemma ReadingAgrees(s: Store, t: Tree, i: Ino, offset: u64, length: u64)
    requires Sound(s, t)
    ensures var q := Request.Read(i, offset, length); Agrees(s, t, Serve(t, q), Asked(t, q), false, Step(s, q))
  {
    var q := Request.Read(i, offset, length);
    NothingChanged(s, t, ReadFile(t, i, offset, length), 0, false);
    assert Serve(t, q) == (t, ReadFile(t, i, offset, length)) && Step(s, q) == (s, ReadAt(s, i, offset, length));
  }

  /** Every request served from the inodes agrees with the reference. */
  lemma StepAgrees(s: Store, t: Tree, q: Request)
    requires Sound(s, t)
    ensures Agrees(s, t, Serve(t, q), Asked(t, q), q.Symlink?, Step(s, q))
  {
    match q
    case Unlink(parent, name) => RemoveAgrees(s, t, parent, name, false);
    case Rmdir(parent, name) => RemoveAgrees(s, t, parent, name, true);
    case Rename(_, _, _, _, _) => RenameAgrees(s, t, q);
    case Open(i) => OpenAgrees(s, t, i);
    case Release(i) => ReleaseAgrees(s, t, i);
    case Mknod(_, _, _) => MakingAgrees(s, t, q);
    case Mkdir(_, _) => MakingAgrees(s, t, q);
    case Symlink(_, _, _) => MakingAgrees(s, t, q);
    case Create(_, _) => MakingAgrees(s, t, q);
    case Write(i, offset, data) => WritingAgrees(s, t, i, offset, data);
    case SetAttr(i, size) => SettingAgrees(s, t, i, size);
    case Fallocate(i, offset, length, mode) => ReservingAgrees(s, t, i, offset, length, mode);
    case Read(i, offset, length) => ReadingAgrees(s, t, i, offset, length);
  }

  lemma FreshIsSound(c: Ceilings)
    ensures Sound(FreshStore(c), Fresh(c))
  {
    FreshIsWellFormed(c);
    FreshCounts(c);
  }

  /**
   * In every run the inodes stand for the reference tree, every answer is the
   * reference's answer, and the ledger is the audit of the run.
   */
  lemma {:induction false} RunsAgree(c: Ceilings, qs: seq<Request>)
    ensures Sound(RunSteps(FreshStore(c), qs), Run(Fresh(c), qs))
    ensures Replies(FreshStore(c), qs) == Answers(Fresh(c), qs)
    ensures RunSteps(FreshStore(c), qs).view == Audit(c, qs)
  {
    if qs == [] {
      FreshIsSound(c);
    } else {
      RunsAgree(c, qs[..|qs| - 1]);
      StepAgrees(RunSteps(FreshStore(c), qs[..|qs| - 1]), Run(Fresh(c), qs[..|qs| - 1]), qs[|qs| - 1]);
    }
  }
}
