/**
 * The server object: inodes and a ledger changed in place, one method per
 * request (spikes/tempfs-quota/src/filesystem.rs).
 */
module Filesystem {
  import opened Basics
  import opened FileBytes
  import opened Ledger
  import opened ReferenceFs
  import I = Inodes
  import opened InodeRefinement
  import opened FsAudit

  class State {
    var nodes: I.Nodes
    var nextIno: Ino
    const ledger: Ledger

    constructor (c: Ceilings)
      ensures Kept() == I.FreshStore(c) && fresh(ledger)
    {
      nodes := map[ROOT := I.NewNode(I.Directory(map[]), ROOT)];
      nextIno := ROOT + 1;
      ledger := new Ledger(c);
    }

    function Kept(): I.Store
      reads this, ledger
    {
      I.Store(nodes, nextIno, ledger.View())
    }

    method CreateObject(parent: Ino, name: Name, content: I.Content) returns (r: Response)
      modifies this, ledger
      ensures (Kept(), r) == I.CreateObject(old(Kept()), parent, name, content, 0)
    {
      if |name| == 0 {
        return Err(EINVAL);
      }
      if |name| > MAX_NAME_BYTES {
        return Err(ENAMETOOLONG);
      }
      if parent !in nodes {
        return Err(ENOENT);
      }
      if !nodes[parent].content.Directory? {
        return Err(ENOTDIR);
      }
      if name in nodes[parent].content.children {
        return Err(EEXIST);
      }
      var refusal := ledger.ReserveObject();
      if refusal.Some? {
        return Err(EDQUOT);
      }
      var bytes := if content.Symlink? then |content.target| else 0;
      if bytes > 0 {
        refusal := ledger.ReserveBytes(bytes);
        if refusal.Some? {
          ledger.ReleaseObject();
          return Err(ENOSPC);
        }
      }
      var ino := nextIno;
      nextIno := nextIno + 1;
      nodes := nodes[ino := I.NewNode(content, parent)];
      if !nodes[parent].content.Directory? {
        return Err(ENOTDIR);
      }
      nodes := I.WithEntry(nodes, parent, name, ino);
      return Ok(Entry(ino));
    }

    method DropNode(i: Ino)
      modifies this`nodes, ledger
      ensures Kept() == I.DropNode(old(Kept()), i)
    {
      if i in nodes {
        var size := I.NodeSize(nodes[i]);
        nodes := nodes - {i};
        ledger.ReleaseBytes(size);
        ledger.ReleaseObject();
      }
    }

    method Mknod(parent: Ino, name: Name, regular: bool) returns (r: Response)
      modifies this, ledger
      ensures (Kept(), r) == I.Step(old(Kept()), Request.Mknod(parent, name, regular))
    {
      if !regular {
        return Err(EPERM);
      }
      r := CreateObject(parent, name, I.File([]));
    }

    method Mkdir(parent: Ino, name: Name) returns (r: Response)
      modifies this, ledger
      ensures (Kept(), r) == I.Step(old(Kept()), Request.Mkdir(parent, name))
    {
      r := CreateObject(parent, name, I.Directory(map[]));
    }

    method Symlink(parent: Ino, name: Name, target: Payload) returns (r: Response)
      modifies this, ledger
      ensures (Kept(), r) == I.Step(old(Kept()), Request.Symlink(parent, name, target))
    {
      r := CreateObject(parent, name, I.Content.Symlink(target));
    }

    method Create(parent: Ino, name: Name) returns (r: Response)
      modifies this, ledger
      ensures (Kept(), r) == I.Step(old(Kept()), Request.Create(parent, name))
    {
      r := CreateObject(parent, name, I.File([]));
      if r.Ok? {
        var ino := r.value.ino;
        nodes := nodes[ino := nodes[ino].(openHandles := nodes[ino].openHandles + 1)];
        assert nodes == I.CreateObject(old(Kept()), parent, name, I.File([]), 1).0.nodes;
      }
    }

    method Unlink(parent: Ino, name: Name) returns (r: Response)
      modifies this, ledger
      ensures (Kept(), r) == I.Step(old(Kept()), Request.Unlink(parent, name))
    {
      var child := I.Child(nodes, parent, name);
      if child.Err? {
        return Err(child.error);
      }
      var i := child.value;
      if i !in nodes {
        return Err(ENOENT);
      }
      if nodes[i].content.Directory? {
        return Err(EISDIR);
      }
      var open := nodes[i].openHandles > 0;
      nodes := I.WithoutEntry(nodes, parent, name);
      if open {
        nodes := nodes[i := nodes[i].(unlinked := true)];
      } else {
        DropNode(i);
      }
      return Ok(Done);
    }

    method Rmdir(parent: Ino, name: Name) returns (r: Response)
      modifies this, ledger
      ensures (Kept(), r) == I.Step(old(Kept()), Request.Rmdir(parent, name))
    {
      var child := I.Child(nodes, parent, name);
      if child.Err? {
        return Err(child.error);
      }
      var children := I.Children(nodes, child.value);
      if children.Err? {
        return Err(children.error);
      }
      if children.value != map[] {
        return Err(ENOTEMPTY);
      }
      nodes := I.WithoutEntry(nodes, parent, name);
      DropNode(child.value);
      return Ok(Done);
    }

    /** Free the name `(d, n)` for `source`; `moving` is false when it already is `source`. */
    method Displace(source: Ino, d: Ino, n: Name, noReplace: bool) returns (r: Response, moving: bool)
      requires source in nodes && d in nodes && nodes[d].content.Directory?
      modifies this`nodes, ledger
      ensures match I.Displace(old(Kept()), source, d, n, noReplace)
              case Err(e) => r == Err(e) && Kept() == old(Kept())
              case Ok(None) => r == Ok(Done) && !moving && Kept() == old(Kept())
              case Ok(Some(s)) => r == Ok(Done) && moving && Kept() == s
    {
      moving := true;
      if n in nodes[d].content.children {
        var existing := nodes[d].content.children[n];
        if noReplace {
          return Err(EEXIST), moving;
        }
        if existing == source {
          return Ok(Done), false;
        }
        if existing !in nodes {
          return Err(ENOENT), moving;
        }
        var sourceIsDir, targetIsDir := nodes[source].content.Directory?, nodes[existing].content.Directory?;
        if sourceIsDir && !targetIsDir {
          return Err(ENOTDIR), moving;
        }
        if !sourceIsDir && targetIsDir {
          return Err(EISDIR), moving;
        }
        if targetIsDir && nodes[existing].content.children != map[] {
          return Err(ENOTEMPTY), moving;
        }
        nodes := I.WithoutEntry(nodes, d, n);
        if nodes[existing].openHandles > 0 {
          nodes := nodes[existing := nodes[existing].(unlinked := true)];
        } else {
          DropNode(existing);
        }
      }
      return Ok(Done), moving;
    }

    method Rename(parent: Ino, name: Name, newParent: Ino, newName: Name, flags: RenameFlags) returns (r: Response)
      modifies this, ledger
      ensures (Kept(), r) == I.Step(old(Kept()), Request.Rename(parent, name, newParent, newName, flags))
    {
      if flags.exchange || flags.whiteout {
        return Err(EINVAL);
      }
      var illegal := CheckName(newName);
      if illegal.Some? {
        return Err(illegal.value);
      }
      var child := I.Child(nodes, parent, name);
      if child.Err? {
        return Err(child.error);
      }
      var source := child.value;
      if source !in nodes {
        return Err(ENOENT);
      }
      var into := I.Children(nodes, newParent);
      if into.Err? {
        return Err(into.error);
      }
      var moving;
      r, moving := Displace(source, newParent, newName, flags.noReplace);
      if r.Err? || !moving {
        return;
      }
      var from := I.Children(nodes, parent);
      if from.Err? {
        return Err(from.error);
      }
      nodes := I.WithoutEntry(nodes, parent, name);
      into := I.Children(nodes, newParent);
      if into.Err? {
        return Err(into.error);
      }
      nodes := I.WithEntry(nodes, newParent, newName, source);
      if source !in nodes {
        return Err(ENOENT);
      }
      nodes := nodes[source := nodes[source].(parent := newParent)];
      return Ok(Done);
    }

    method Open(i: Ino) returns (r: Response)
      modifies this
      ensures (Kept(), r) == I.Step(old(Kept()), Request.Open(i))
    {
      if i !in nodes {
        return Err(ENOENT);
      }
      if nodes[i].content.Directory? {
        return Err(EISDIR);
      }
      nodes := nodes[i := nodes[i].(openHandles := nodes[i].openHandles + 1)];
      return Ok(Done);
    }

    method Release(i: Ino) returns (r: Response)
      modifies this, ledger
      ensures (Kept(), r) == I.Step(old(Kept()), Request.Release(i))
    {
      var free := false;
      if i in nodes {
        var held := nodes[i].openHandles;
        nodes := nodes[i := nodes[i].(openHandles := if held == 0 then 0 else held - 1)];
        free := nodes[i].unlinked && nodes[i].openHandles == 0;
      }
      if free {
        DropNode(i);
      }
      return Ok(Done);
    }

    method Resize(i: Ino, size: nat) returns (r: Response)
      modifies this, ledger
      ensures (Kept(), r) == I.Resize(old(Kept()), i, size)
    {
      var current := I.FileData(nodes, i);
      if current.Err? {
        return Err(current.error);
      }
      if size > |current.value| {
        var refusal := ledger.ReserveBytes(size - |current.value|);
        if refusal.Some? {
          return Err(ENOSPC);
        }
      } else {
        ledger.ReleaseBytes(|current.value| - size);
      }
      nodes := nodes[i := nodes[i].(content := I.File(Resized(current.value, size)))];
      return Ok(Done);
    }

    method Write(i: Ino, offset: u64, data: Payload) returns (r: Response)
      modifies this, ledger
      ensures (Kept(), r) == I.Step(old(Kept()), Request.Write(i, offset, data))
    {
      var end := offset + |data|;
      if end > U64_MAX {
        return Err(EFBIG);
      }
      var current := I.FileData(nodes, i);
      if current.Err? {
        return Err(current.error);
      }
      if end > |current.value| {
        var refusal := ledger.ReserveBytes(end - |current.value|);
        if refusal.Some? {
          return Err(ENOSPC);
        }
      }
      nodes := nodes[i := nodes[i].(content := I.File(Overwritten(current.value, offset, data)))];
      return if |data| < U32_LIMIT then Ok(Written(|data|)) else Err(EFBIG);
    }

    method SetAttr(i: Ino, size: Option<u64>) returns (r: Response)
      modifies this, ledger
      ensures (Kept(), r) == I.Step(old(Kept()), Request.SetAttr(i, size))
    {
      if size.Some? {
        r := Resize(i, size.value);
        if r.Err? {
          return;
        }
      }
      if i !in nodes {
        return Err(ENOENT);
      }
      return Ok(Done);
    }

    method Fallocate(i: Ino, offset: u64, length: u64, mode: int) returns (r: Response)
      modifies this, ledger
      ensures (Kept(), r) == I.Step(old(Kept()), Request.Fallocate(i, offset, length, mode))
    {
      if mode != 0 {
        return Err(EOPNOTSUPP);
      }
      var end := offset + length;
      if end > U64_MAX {
        return Err(EFBIG);
      }
      if i !in nodes {
        return Err(ENOENT);
      }
      if end > I.NodeSize(nodes[i]) {
        r := Resize(i, end);
      } else {
        r := Ok(Done);
      }
    }

    method Read(i: Ino, offset: u64, length: u64) returns (r: Response)
      ensures r == I.Step(Kept(), Request.Read(i, offset, length)).1
    {
      if i !in nodes {
        return Err(ENOENT);
      }
      if !nodes[i].content.File? {
        return Err(EINVAL);
      }
      var data := nodes[i].content.data;
      var start := Min(offset, |data|);
      var end := Min(start + length, |data|);
      return Ok(Data(data[start..end]));
    }

    /** One request, whichever it is. */
    method Serve(q: Request) returns (r: Response)
      modifies this, ledger
      ensures (Kept(), r) == I.Step(old(Kept()), q)
    {
      match q
      case Mknod(parent, name, regular) => r := Mknod(parent, name, regular);
      case Mkdir(parent, name) => r := Mkdir(parent, name);
      case Symlink(parent, name, target) => r := Symlink(parent, name, target);
      case Create(parent, name) => r := Create(parent, name);
      case Unlink(parent, name) => r := Unlink(parent, name);
      case Rmdir(parent, name) => r := Rmdir(parent, name);
      case Rename(parent, name, newParent, newName, flags) => r := Rename(parent, name, newParent, newName, flags);
      case Open(i) => r := Open(i);
      case Release(i) => r := Release(i);
      case Write(i, offset, data) => r := Write(i, offset, data);
      case SetAttr(i, size) => r := SetAttr(i, size);
      case Fallocate(i, offset, length, mode) => r := Fallocate(i, offset, length, mode);
      case Read(i, offset, length) => r := Read(i, offset, length);
    }
  }

  /**
   * A server driven through any requests from an empty tree: it answers each one
   * as the reference does, ends standing for the reference tree, and its ledger
   * is the audit of the run.
   */
  method ServeAll(c: Ceilings, qs: seq<Request>) returns (state: State, answers: seq<Response>)
    ensures fresh(state) && fresh(state.ledger)
    ensures Sound(state.Kept(), Run(Fresh(c), qs)) && state.ledger.View() == Audit(c, qs)
    ensures answers == Answers(Fresh(c), qs)
  {
    state := new State(c);
    answers := [];
    for k := 0 to |qs|
      invariant fresh(state) && fresh(state.ledger)
      invariant state.Kept() == I.RunSteps(I.FreshStore(c), qs[..k])
      invariant answers == I.Replies(I.FreshStore(c), qs[..k])
    {
      assert qs[..k + 1][..k] == qs[..k];
      var r := state.Serve(qs[k]);
      answers := answers + [r];
    }
    assert qs[..|qs|] == qs;
    RunsAgree(c, qs);
  }
}
