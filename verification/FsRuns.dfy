/** What every run of the reference filesystem keeps, and what its files hold. */
module FsRuns {
  import opened Basics
  import opened FileBytes
  import opened Ledger
  import opened ReferenceFs

  // ------------------------------------------------------------ well-formedness

  lemma {:induction false} SubmapBytes(part: map<Ino, Object>, whole: map<Ino, Object>)
    requires forall i | i in part :: i in whole && whole[i] == part[i]
    ensures BytesIn(part) <= BytesIn(whole) && |part| <= |whole|
  {
    if part != map[] {
      var i :| i in part;
      SubmapBytes(part - {i}, whole - {i});
      BytesWithout(part, i);
      BytesWithout(whole, i);
      assert (part - {i}).Keys == part.Keys - {i};
      assert (whole - {i}).Keys == whole.Keys - {i};
    }
  }

  lemma CollectKeeps(t: Tree, names: map<(Ino, Name), Ino>)
    requires WellFormed(t)
    requires forall k | k in names :: LegalName(k.1) && IsDir(t, k.0)
    requires forall k | k in names :: Named(t.names, names[k])
    requires forall j, k | j in names && k in names && names[j] == names[k] :: j == k
    requires forall k | k in names && k.0 != ROOT :: exists j :: j in names && names[j] == k.0
    ensures WellFormed(Collect(t.(names := names)))
  {
    var t' := Collect(t.(names := names));
    SubmapBytes(t'.objects, t.objects);
    CollectNames(t, names);
  }

  lemma CollectNames(t: Tree, names: map<(Ino, Name), Ino>)
    requires WellNamed(t) && IsDir(t, ROOT)
    requires forall k | k in names :: LegalName(k.1) && IsDir(t, k.0)
    requires forall k | k in names :: Named(t.names, names[k])
    requires forall j, k | j in names && k in names && names[j] == names[k] :: j == k
    requires forall k | k in names && k.0 != ROOT :: exists j :: j in names && names[j] == k.0
    ensures WellNamed(Collect(t.(names := names)))
  {
    var t' := Collect(t.(names := names));
    forall k | k in t'.names ensures IsDir(t', k.0) && t'.names[k] in t'.objects {
      assert Named(names, names[k]);
      assert k.0 == ROOT || Named(names, k.0);
    }
  }

  lemma MakeKeeps(t: Tree, parent: Ino, name: Name, made: Object)
    requires WellFormed(t)
    requires made.body.DirBody? ==> made.handles == 0
    ensures WellFormed(Make(t, parent, name, made).0)
  {
    var t' := Make(t, parent, name, made).0;
    if t' != t {
      MadeIsNamed(t, parent, name, made);
      MadeIsPopulated(t, parent, name, made);
    }
  }

  ghost function Grown(t: Tree, parent: Ino, name: Name, made: Object): Tree {
    t.(names := t.names[(parent, name) := t.next], objects := t.objects[t.next := made], next := t.next + 1)
  }

  lemma MadeIsNamed(t: Tree, parent: Ino, name: Name, made: Object)
    requires WellNamed(t) && WellPopulated(t) && IsDir(t, parent) && LegalName(name) && (parent, name) !in t.names
    ensures WellNamed(Grown(t, parent, name, made))
  {
  }

  lemma MadeIsPopulated(t: Tree, parent: Ino, name: Name, made: Object)
    requires WellNamed(t) && WellPopulated(t) && (parent, name) !in t.names
    requires made.body.DirBody? ==> made.handles == 0
    ensures WellPopulated(Grown(t, parent, name, made))
  {
    var t' := Grown(t, parent, name, made);
    forall i | i in t'.objects ensures i == ROOT || Named(t'.names, i) || t'.objects[i].handles > 0 {
      if i == t.next {
        assert t'.names[(parent, name)] == i;
      } else if Named(t.names, i) {
        var k :| k in t.names && t.names[k] == i;
        assert t'.names[k] == i;
      }
    }
  }

  lemma RemoveKeeps(t: Tree, parent: Ino, name: Name, directory: bool)
    requires WellFormed(t)
    ensures WellFormed(Remove(t, parent, name, directory).0)
  {
    if Remove(t, parent, name, directory).1.Ok? {
      var i := t.names[(parent, name)];
      var names := t.names - {(parent, name)};
      forall k | k in names && k.0 != ROOT ensures exists j :: j in names && names[j] == k.0 {
        assert k.0 != i;
        assert Named(t.names, k.0);
        var j :| j in t.names && t.names[j] == k.0;
        assert j in names;
      }
      forall k | k in names ensures Named(t.names, names[k]) {
        assert t.names[k] == names[k];
      }
      CollectKeeps(t, names);
    }
  }

  lemma RenameKeeps(t: Tree, q: Request)
    requires WellFormed(t) && q.Rename?
    ensures WellFormed(Renamed(t, q).0)
  {
    if Renamed(t, q).1.Ok? {
      var from, to := (q.parent, q.name), (q.newParent, q.newName);
      var source := t.names[from];
      var names := (t.names - {from})[to := source];
      forall k | k in names && k.0 != ROOT ensures exists j :: j in names && names[j] == k.0 {
        ParentStaysNamed(t, q, k.0);
      }
      forall k | k in names ensures Named(t.names, names[k]) {
        assert t.names[from] == source;
        assert k != to ==> t.names[k] == names[k];
      }
      CollectKeeps(t, names);
    }
  }

  /** A rename leaves a directory that holds names with a name of its own. */
  lemma ParentStaysNamed(t: Tree, q: Request, d: Ino)
    requires WellFormed(t) && q.Rename? && Renamed(t, q).1.Ok? && d != ROOT && IsDir(t, d)
    requires d == q.newParent || exists k :: k in t.names && k != (q.parent, q.name) && k.0 == d
    ensures var from, to := (q.parent, q.name), (q.newParent, q.newName);
            var names := (t.names - {from})[to := t.names[from]];
            exists j :: j in names && names[j] == d
  {
    var from, to := (q.parent, q.name), (q.newParent, q.newName);
    var source := t.names[from];
    var names := (t.names - {from})[to := source];
    assert Named(t.names, d);
    var j :| j in t.names && t.names[j] == d;
    if j == from {
      assert names[to] == d;
    } else {
      assert to in t.names && t.names[to] != source ==> d != t.names[to];
      assert names[j] == d;
    }
  }

  lemma HandlesKeep(t: Tree, i: Ino, handles: nat)
    requires WellFormed(t) && i in t.objects && !IsDir(t, i)
    ensures var t' := WithHandles(t, i, handles);
            && WellNamed(t') && WithinCeilings(t') && IsDir(t', ROOT)
            && (forall j | j in t'.objects :: IsDir(t', j) ==> t'.objects[j].handles == 0)
  {
    BytesWith(t.objects, i, t.objects[i].(handles := handles));
    assert WithHandles(t, i, handles).objects.Keys == t.objects.Keys;
  }

  lemma OpenKeeps(t: Tree, i: Ino)
    requires WellFormed(t)
    ensures WellFormed(OpenFile(t, i).0)
  {
    if i in t.objects && !IsDir(t, i) {
      HandlesKeep(t, i, t.objects[i].handles + 1);
      SameNamesKeep(t, i, OpenFile(t, i).0.objects[i]);
    }
  }

  lemma ReleaseKeeps(t: Tree, i: Ino)
    requires WellFormed(t)
    ensures WellFormed(ReleaseFile(t, i).0)
  {
    if i in t.objects && t.objects[i].handles > 0 {
      var loose := WithHandles(t, i, t.objects[i].handles - 1);
      HandlesKeep(t, i, t.objects[i].handles - 1);
      CollectKeepsNamed(t, loose);
      assert ReleaseFile(t, i).0 == Collect(loose);
    }
  }

  /** Collecting after a handle count fell drops at most the object that was released. */
  lemma CollectKeepsNamed(t: Tree, loose: Tree)
    requires WellFormed(t)
    requires loose.names == t.names && loose.objects.Keys == t.objects.Keys && loose.next == t.next
    requires WellNamed(loose) && WithinCeilings(loose) && IsDir(loose, ROOT)
    requires forall j | j in loose.objects :: IsDir(loose, j) ==> loose.objects[j].handles == 0
    requires forall j | j in t.objects :: IsDir(loose, j) <==> IsDir(t, j)
    ensures WellFormed(Collect(loose))
  {
    var t' := Collect(loose);
    SubmapBytes(t'.objects, loose.objects);
    forall k | k in t'.names ensures IsDir(t', k.0) && t'.names[k] in t'.objects {
      assert Named(loose.names, loose.names[k]);
      assert Named(t.names, k.0) || k.0 == ROOT;
      assert Named(loose.names, k.0) || k.0 == ROOT;
    }
    forall j | j in t'.objects ensures j == ROOT || Named(t'.names, j) || t'.objects[j].handles > 0 {
      assert Named(loose.names, j) <==> Named(t'.names, j);
    }
  }

  lemma SameNamesKeep(t: Tree, i: Ino, o: Object)
    requires WellFormed(t) && i in t.objects
    requires o.body.DirBody? <==> t.objects[i].body.DirBody?
    requires o.handles >= t.objects[i].handles && (o.body.DirBody? ==> o.handles == 0)
    requires WithinCeilings(t.(objects := t.objects[i := o]))
    ensures WellFormed(t.(objects := t.objects[i := o]))
  {
    var t' := t.(objects := t.objects[i := o]);
    forall j | j in t'.objects ensures j == ROOT || Named(t'.names, j) || t'.objects[j].handles > 0 {
      assert Named(t.names, j) <==> Named(t'.names, j);
    }
  }

  lemma EditKeeps(t: Tree, i: Ino, e: FileBytes.Edit, response: Response)
    requires WellFormed(t)
    ensures WellFormed(EditFile(t, i, e, response).0)
  {
    var t' := EditFile(t, i, e, response).0;
    if t' != t {
      assert t'.objects.Keys == t.objects.Keys;
      SameNamesKeep(t, i, t'.objects[i]);
    }
  }

  lemma MakesKeep(t: Tree, q: Request)
    requires WellFormed(t) && (q.Mknod? || q.Mkdir? || q.Symlink? || q.Create?)
    ensures WellFormed(Serve(t, q).0)
  {
    match q
    case Mknod(parent, name, _) => MakeKeeps(t, parent, name, Object(FileBody([]), 0));
    case Mkdir(parent, name) => MakeKeeps(t, parent, name, Object(DirBody, 0));
    case Symlink(parent, name, target) => MakeKeeps(t, parent, name, Object(LinkBody(target), 0));
    case Create(parent, name) => MakeKeeps(t, parent, name, Object(FileBody([]), 1));
  }

  lemma EditsKeep(t: Tree, q: Request)
    requires WellFormed(t) && (q.Write? || q.SetAttr? || q.Fallocate?)
    ensures WellFormed(Serve(t, q).0)
  {
    match q
    case Write(i, offset, data) =>
      WriteKeeps(t, i, offset, data);
      assert Serve(t, q) == WriteFile(t, i, offset, data);
    case SetAttr(i, size) =>
      SetSizeKeeps(t, i, size);
      assert Serve(t, q) == SetSize(t, i, size);
    case Fallocate(i, offset, length, mode) =>
      ReserveKeeps(t, i, offset, length, mode);
      assert Serve(t, q) == Reserve(t, i, offset, length, mode);
  }

  lemma WriteKeeps(t: Tree, i: Ino, offset: u64, data: Payload)
    requires WellFormed(t)
    ensures WellFormed(WriteFile(t, i, offset, data).0)
  {
    EditKeeps(t, i, Overwrite(offset, data), if |data| < U32_LIMIT then Ok(Written(|data|)) else Err(EFBIG));
  }

  lemma SetSizeKeeps(t: Tree, i: Ino, size: Option<u64>)
    requires WellFormed(t)
    ensures WellFormed(SetSize(t, i, size).0)
  {
    if size.Some? {
      EditKeeps(t, i, Truncate(size.value), Ok(Done));
    }
  }

  lemma ReserveKeeps(t: Tree, i: Ino, offset: u64, length: u64, mode: int)
    requires WellFormed(t)
    ensures WellFormed(Reserve(t, i, offset, length, mode).0)
  {
    EditKeeps(t, i, Preallocate(offset + length), Ok(Done));
  }

  /** Every request keeps the tree well formed, whatever it asks and however it is answered. */
  lemma ServeKeeps(t: Tree, q: Request)
    requires WellFormed(t)
    ensures WellFormed(Serve(t, q).0)
  {
    if q.Mknod? || q.Mkdir? || q.Symlink? || q.Create? {
      MakesKeep(t, q);
    } else if q.Write? || q.SetAttr? || q.Fallocate? {
      EditsKeep(t, q);
    } else if q.Unlink? || q.Rmdir? {
      RemoveKeeps(t, q.parent, q.name, q.Rmdir?);
    } else if q.Rename? {
      RenameKeeps(t, q);
    } else if q.Open? {
      OpenKeeps(t, q.ino);
    } else if q.Release? {
      ReleaseKeeps(t, q.ino);
    }
  }

  lemma ServeFrame(t: Tree, q: Request)
    ensures Serve(t, q).0.ceilings == t.ceilings && t.next <= Serve(t, q).0.next
  {
  }

  lemma FreshIsWellFormed(c: Ceilings)
    ensures WellFormed(Fresh(c))
  {
    var objects := Fresh(c).objects;
    BytesWith(map[], ROOT, Object(DirBody, 0));
    assert map[][ROOT := Object(DirBody, 0)] == objects;
    assert objects.Keys == {ROOT};
  }

  /** The invariant of every run from an empty tree. */
  lemma {:induction false} RunsAreWellFormed(c: Ceilings, qs: seq<Request>)
    ensures WellFormed(Run(Fresh(c), qs)) && Run(Fresh(c), qs).ceilings == c
  {
    if qs == [] {
      FreshIsWellFormed(c);
    } else {
      RunsAreWellFormed(c, qs[..|qs| - 1]);
      ServeKeeps(Run(Fresh(c), qs[..|qs| - 1]), qs[|qs| - 1]);
      ServeFrame(Run(Fresh(c), qs[..|qs| - 1]), qs[|qs| - 1]);
    }
  }

  // ------------------------------------------------------------ errors

  /** A write the tree admits and whose length the reply cannot express: it is stored, then reported as an error. */
  ghost predicate StoredThenRefused(t: Tree, q: Request) {
    && q.Write? && |q.data| >= U32_LIMIT && q.offset + |q.data| <= U64_MAX
    && CheckFile(t, q.ino).None?
    && WithinCeilings(WithData(t, q.ino, Overwritten(t.objects[q.ino].body.data, q.offset, q.data)))
  }

  /**
   * An error leaves the whole tree as it was, except a write of four gibibytes or
   * more that fits: exactly those are stored and then answered with an error.
   */
  lemma ErrorsChangeNothing(t: Tree, q: Request)
    requires WellFormed(t)
    ensures StoredThenRefused(t, q) ==> Serve(t, q).1 == Err(EFBIG)
    ensures (Serve(t, q).1.Err? ==> Serve(t, q).0 == t)
            <==> !(StoredThenRefused(t, q)
                   && Overwritten(t.objects[q.ino].body.data, q.offset, q.data) != t.objects[q.ino].body.data)
  {
    if q.Write? {
      WriteErrors(t, q);
    } else {
      OtherErrors(t, q);
    }
  }

  lemma OtherErrors(t: Tree, q: Request)
    requires !q.Write?
    ensures Serve(t, q).1.Err? ==> Serve(t, q).0 == t
  {
  }

  lemma WriteErrors(t: Tree, q: Request)
    requires WellFormed(t) && q.Write?
    ensures StoredThenRefused(t, q) ==> Serve(t, q).1 == Err(EFBIG)
    ensures (Serve(t, q).1.Err? ==> Serve(t, q).0 == t)
            <==> !(StoredThenRefused(t, q)
                   && Overwritten(t.objects[q.ino].body.data, q.offset, q.data) != t.objects[q.ino].body.data)
  {
    assert Serve(t, q) == WriteFile(t, q.ino, q.offset, q.data);
    if CheckFile(t, q.ino).None? {
      var data := Overwritten(t.objects[q.ino].body.data, q.offset, q.data);
      var t' := WithData(t, q.ino, data);
      assert t'.objects.Keys == t.objects.Keys;
      assert t' == t <==> t'.objects[q.ino] == t.objects[q.ino];
    }
  }

  /** A tree holding one empty open file, as creating it in an empty tree leaves it. */
  lemma OneFile(c: Ceilings, name: Name)
    requires Admitted(c) && LegalName(name)
    ensures var t := Serve(Fresh(c), Create(ROOT, name)).0;
            && WellFormed(t) && t.ceilings == c
            && 2 in t.objects && t.objects[2] == Object(FileBody([]), 1)
            && UsedBytes(t) == 0 && UsedObjects(t) == 1
  {
    FreshIsWellFormed(c);
    ServeKeeps(Fresh(c), Create(ROOT, name));
    MadeFirst(c, name, Object(FileBody([]), 1));
    assert Serve(Fresh(c), Create(ROOT, name)).0 == Grown(Fresh(c), ROOT, name, Object(FileBody([]), 1));
  }

  /** The first object made in an empty tree, when it needs no bytes. */
  lemma MadeFirst(c: Ceilings, name: Name, made: Object)
    requires SizeOf(made) == 0
    ensures UsedBytes(Grown(Fresh(c), ROOT, name, made)) == 0 && UsedObjects(Grown(Fresh(c), ROOT, name, made)) == 1
  {
    BytesWith(map[], ROOT, Object(DirBody, 0));
    assert map[][ROOT := Object(DirBody, 0)] == Fresh(c).objects;
    BytesWith(Fresh(c).objects, 2, made);
    assert Fresh(c).objects[2 := made].Keys == {ROOT, 2};
  }

  /** The exception is real: an empty file, a write of exactly four gibibytes, and room for it. */
  lemma AnErrorThatChangedTheTree(data: Payload)
    requires |data| == U32_LIMIT
    ensures var c := Ceilings(U32_LIMIT, 1);
            var t := Serve(Fresh(c), Create(ROOT, [97])).0;
            Admitted(c) && Serve(t, Write(2, 0, data)).1 == Err(EFBIG) && Serve(t, Write(2, 0, data)).0 != t
  {
    var c := Ceilings(U32_LIMIT, 1);
    OneFile(c, [97]);
    var t := Serve(Fresh(c), Create(ROOT, [97])).0;
    var stored := Overwritten([], 0, data);
    BytesWith(t.objects, 2, Object(FileBody(stored), 1));
    assert WithData(t, 2, stored).objects.Keys == t.objects.Keys;
    ErrorsChangeNothing(t, Write(2, 0, data));
  }

  // ------------------------------------------------------------ contents

  /** The edit a request asks of file `i`, if it asks one. */
  function EditAsked(q: Request, i: Ino): Option<FileBytes.Edit> {
    match q
    case Write(j, offset, data) => if j == i then Some(Overwrite(offset, data)) else None
    case SetAttr(j, size) => if j == i && size.Some? then Some(Truncate(size.value)) else None
    case Fallocate(j, offset, length, _) => if j == i then Some(Preallocate(offset + length)) else None
    case _ => None
  }

  /** The edits of file `i` that a run carried out, in order. */
  ghost function EditsOf(t: Tree, qs: seq<Request>, i: Ino): seq<FileBytes.Edit> {
    if qs == [] then [] else
      var front, q := qs[..|qs| - 1], qs[|qs| - 1];
      var before := Run(t, front);
      if EditAsked(q, i).Some? && CarriedOut(before, q)
      then EditsOf(t, front, i) + [EditAsked(q, i).value]
      else EditsOf(t, front, i)
  }

  /** Whether a run of requests standing at `t` carries out the edit `q` asks for. */
  ghost predicate CarriedOut(t: Tree, q: Request) {
    Serve(t, q).1.Ok? || StoredThenRefused(t, q)
  }

  lemma EditsReachOneFile(t: Tree, q: Request, i: Ino)
    requires WellFormed(t) && (q.Write? || q.SetAttr? || q.Fallocate?)
    requires i in Serve(t, q).0.objects && Serve(t, q).0.objects[i].body.FileBody?
    ensures i in t.objects && t.objects[i].body.FileBody?
    ensures Serve(t, q).0.objects[i].body.data ==
            if EditAsked(q, i).Some? && CarriedOut(t, q)
            then Edited(t.objects[i].body.data, EditAsked(q, i).value)
            else t.objects[i].body.data
  {
    ErrorsChangeNothing(t, q);
  }

  lemma OthersReachNoFile(t: Tree, q: Request, i: Ino)
    requires WellFormed(t) && !(q.Write? || q.SetAttr? || q.Fallocate?)
    requires i in Serve(t, q).0.objects && Serve(t, q).0.objects[i].body.FileBody?
    ensures if i in t.objects then t.objects[i].body == Serve(t, q).0.objects[i].body
            else i == t.next && Serve(t, q).0.objects[i].body == FileBody([])
  {
    if q.Mknod? || q.Mkdir? || q.Symlink? || q.Create? {
      MakesReachNoFile(t, q, i);
    } else if q.Unlink? || q.Rmdir? || q.Rename? {
      NamingReachesNoFile(t, q, i);
    }
  }

  lemma MakesReachNoFile(t: Tree, q: Request, i: Ino)
    requires WellFormed(t) && (q.Mknod? || q.Mkdir? || q.Symlink? || q.Create?)
    requires i in Serve(t, q).0.objects && Serve(t, q).0.objects[i].body.FileBody?
    ensures if i in t.objects then t.objects[i].body == Serve(t, q).0.objects[i].body
            else i == t.next && Serve(t, q).0.objects[i].body == FileBody([])
  {
  }

  lemma NamingReachesNoFile(t: Tree, q: Request, i: Ino)
    requires q.Unlink? || q.Rmdir? || q.Rename?
    requires i in Serve(t, q).0.objects
    ensures i in t.objects && t.objects[i] == Serve(t, q).0.objects[i]
  {
  }

  /**
   * In every run from an empty tree a file's bytes are what its own accepted
   * edits make of an empty file; nothing else ever reaches them.
   */
  lemma {:induction false} FilesHoldTheirEdits(c: Ceilings, qs: seq<Request>, i: Ino)
    ensures var t := Run(Fresh(c), qs);
            && (i in t.objects && t.objects[i].body.FileBody?
                ==> t.objects[i].body.data == Replay(EditsOf(Fresh(c), qs, i)))
            && (i >= t.next ==> EditsOf(Fresh(c), qs, i) == [])
  {
    if qs != [] {
      var front, q := qs[..|qs| - 1], qs[|qs| - 1];
      var before := Run(Fresh(c), front);
      FilesHoldTheirEdits(c, front, i);
      RunsAreWellFormed(c, front);
      EditsAfter(Fresh(c), qs, i);
      ContentsAfter(before, q, i, EditsOf(Fresh(c), front, i));
    }
  }

  /** The edits of a file once one more request is served. */
  ghost function Extended(t: Tree, q: Request, i: Ino, edits: seq<FileBytes.Edit>): seq<FileBytes.Edit> {
    if EditAsked(q, i).Some? && CarriedOut(t, q) then edits + [EditAsked(q, i).value] else edits
  }

  lemma EditsAfter(t: Tree, qs: seq<Request>, i: Ino)
    requires qs != []
    ensures var front := qs[..|qs| - 1];
            EditsOf(t, qs, i) == Extended(Run(t, front), qs[|qs| - 1], i, EditsOf(t, front, i))
  {
  }

  lemma ContentsAfter(t: Tree, q: Request, i: Ino, edits: seq<FileBytes.Edit>)
    requires WellFormed(t)
    requires i in t.objects && t.objects[i].body.FileBody? ==> t.objects[i].body.data == Replay(edits)
    requires i >= t.next ==> edits == []
    ensures var t' := Serve(t, q).0; var edits' := Extended(t, q, i, edits);
            && (i in t'.objects && t'.objects[i].body.FileBody? ==> t'.objects[i].body.data == Replay(edits'))
            && (i >= t'.next ==> edits' == [])
  {
    ServeKeeps(t, q);
    ServeFrame(t, q);
    var t' := Serve(t, q).0;
    if EditAsked(q, i).Some? {
      assert (edits + [EditAsked(q, i).value])[..|edits|] == edits;
    }
    if i in t'.objects && t'.objects[i].body.FileBody? {
      if q.Write? || q.SetAttr? || q.Fallocate? {
        EditsReachOneFile(t, q, i);
      } else {
        OthersReachNoFile(t, q, i);
      }
    }
  }

  /** What a read of file `i` answers when the file holds the result of `edits`. */
  ghost predicate AnswersWith(response: Response, edits: seq<FileBytes.Edit>, offset: nat, length: nat) {
    && response.Ok? && response.value.Data?
    && |response.value.bytes| == Max(0, Min(length, LengthAfter(edits) - offset))
    && forall k | 0 <= k < |response.value.bytes| :: response.value.bytes[k] == ByteAfter(edits, offset + k)
  }

  lemma ReadAnswers(t: Tree, i: Ino, edits: seq<FileBytes.Edit>, offset: u64, length: u64)
    requires i in t.objects && t.objects[i].body == FileBody(Replay(edits))
    ensures AnswersWith(ReadFile(t, i, offset, length), edits, offset, length)
  {
    ReadReturnsReferenceBytes(edits, offset, length);
  }

  /** A read at any point of any run answers with the per-byte reference. */
  lemma ReadsAreExact(c: Ceilings, qs: seq<Request>, i: Ino, offset: u64, length: u64)
    requires var t := Run(Fresh(c), qs); i in t.objects && t.objects[i].body.FileBody?
    ensures AnswersWith(ReadFile(Run(Fresh(c), qs), i, offset, length), EditsOf(Fresh(c), qs, i), offset, length)
  {
    FilesHoldTheirEdits(c, qs, i);
    ReadAnswers(Run(Fresh(c), qs), i, EditsOf(Fresh(c), qs, i), offset, length);
  }
}
