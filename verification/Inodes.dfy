/**
 * The server's inodes as values and what each request does to them, step by
 * step as the source does it: entries inside directories, parent numbers,
 * unlinked flags, and a ledger reserved before and released after
 * (spikes/tempfs-quota/src/filesystem.rs).
 */
module Inodes {
  import opened Basics
  import opened FileBytes
  import opened Ledger
  import opened ReferenceFs

  datatype Content = File(data: Bytes) | Directory(children: map<Name, Ino>) | Symlink(target: Bytes)

  datatype Node = Node(content: Content, parent: Ino, openHandles: nat, unlinked: bool)

  type Nodes = map<Ino, Node>

  function NewNode(content: Content, parent: Ino): Node {
    Node(content, parent, 0, false)
  }

  function NodeSize(n: Node): nat {
    match n.content
    case File(data) => |data|
    case Symlink(target) => |target|
    case Directory(_) => 0
  }

  /** Everything the server keeps. */
  datatype Store = Store(nodes: Nodes, next: Ino, view: Snapshot)

  function FreshStore(c: Ceilings): Store {
    Store(map[ROOT := NewNode(Directory(map[]), ROOT)], ROOT + 1, Empty(c))
  }

  // ------------------------------------------------------------ pieces

  function WithoutEntry(nodes: Nodes, d: Ino, n: Name): Nodes
    requires d in nodes && nodes[d].content.Directory?
  {
    nodes[d := nodes[d].(content := Directory(nodes[d].content.children - {n}))]
  }

  function WithEntry(nodes: Nodes, d: Ino, n: Name, i: Ino): Nodes
    requires d in nodes && nodes[d].content.Directory?
  {
    nodes[d := nodes[d].(content := Directory(nodes[d].content.children[n := i]))]
  }

  function Charge(s: Store, call: Call): Store {
    s.(view := After(s.view, call))
  }

  function DropNode(s: Store, i: Ino): Store {
    if i !in s.nodes then s
    else Charge(Charge(s.(nodes := s.nodes - {i}), Call.ReleaseBytes(NodeSize(s.nodes[i]))), Call.ReleaseObject)
  }

  /** An unnamed node is flagged while a handle holds it and dropped when none does. */
  function Detach(s: Store, i: Ino): Store
    requires i in s.nodes
  {
    if s.nodes[i].openHandles > 0 then s.(nodes := s.nodes[i := s.nodes[i].(unlinked := true)]) else DropNode(s, i)
  }

  function Children(nodes: Nodes, d: Ino): Result<map<Name, Ino>, Errno> {
    if d !in nodes then Err(ENOENT)
    else if !nodes[d].content.Directory? then Err(ENOTDIR)
    else Ok(nodes[d].content.children)
  }

  function Child(nodes: Nodes, d: Ino, n: Name): Result<Ino, Errno> {
    var children :- Children(nodes, d);
    if n in children then Ok(children[n]) else Err(ENOENT)
  }

  function FileData(nodes: Nodes, i: Ino): Result<Bytes, Errno> {
    if i !in nodes then Err(ENOENT)
    else match nodes[i].content
      case File(data) => Ok(data)
      case Directory(_) => Err(EISDIR)
      case Symlink(_) => Err(EINVAL)
  }

  // ------------------------------------------------------------ requests

  function CreateObject(s: Store, parent: Ino, name: Name, content: Content, handles: nat): (Store, Response) {
    var children := Children(s.nodes, parent);
    if CheckName(name).Some? then (s, Err(CheckName(name).value))
    else if children.Err? then (s, Err(children.error))
    else if name in children.value then (s, Err(EEXIST))
    else
      var held := Charge(s, Call.ReserveObject);
      if Refusal(s.view, Call.ReserveObject).Some? then (held, Err(EDQUOT)) else
      var bytes := if content.Symlink? then |content.target| else 0;
      var paid := if bytes > 0 then Charge(held, Call.ReserveBytes(bytes)) else held;
      if bytes > 0 && Refusal(held.view, Call.ReserveBytes(bytes)).Some?
      then (Charge(paid, Call.ReleaseObject), Err(ENOSPC)) else
      var grown := Store(s.nodes[s.next := NewNode(content, parent)], s.next + 1, paid.view);
      if Children(grown.nodes, parent).Err? then (grown, Err(Children(grown.nodes, parent).error)) else
      var made := NewNode(content, parent).(openHandles := handles);
      (grown.(nodes := WithEntry(s.nodes[s.next := made], parent, name, s.next)), Ok(Entry(s.next)))
  }

  function RemoveEntry(s: Store, parent: Ino, name: Name, directory: bool): (Store, Response) {
    var child := Child(s.nodes, parent, name);
    if child.Err? then (s, Err(child.error)) else
    var i := child.value;
    if i !in s.nodes then (s, Err(ENOENT))
    else if !directory && s.nodes[i].content.Directory? then (s, Err(EISDIR))
    else if directory && !s.nodes[i].content.Directory? then (s, Err(ENOTDIR))
    else if directory && s.nodes[i].content.children != map[] then (s, Err(ENOTEMPTY))
    else
      var unnamed := s.(nodes := WithoutEntry(s.nodes, parent, name));
      (if directory then DropNode(unnamed, i) else Detach(unnamed, i), Ok(Done))
  }

  /**
   * The state after the name `(d, n)` was freed for `source`, or why it cannot be; nothing
   * when it already is `source`.
   */
  function Displace(s: Store, source: Ino, d: Ino, n: Name, noReplace: bool): Result<Option<Store>, Errno>
    requires source in s.nodes && d in s.nodes && s.nodes[d].content.Directory?
  {
    var children := s.nodes[d].content.children;
    if n !in children then Ok(Some(s))
    else if noReplace then Err(EEXIST)
    else if children[n] == source then Ok(None)
    else if children[n] !in s.nodes then Err(ENOENT)
    else
      var target := children[n];
      var sourceIsDir, targetIsDir := s.nodes[source].content.Directory?, s.nodes[target].content.Directory?;
      if sourceIsDir && !targetIsDir then Err(ENOTDIR)
      else if !sourceIsDir && targetIsDir then Err(EISDIR)
      else if targetIsDir && s.nodes[target].content.children != map[] then Err(ENOTEMPTY)
      else Ok(Some(Detach(s.(nodes := WithoutEntry(s.nodes, d, n)), target)))
  }

  function RenameEntry(s: Store, q: Request): (Store, Response)
    requires q.Rename?
  {
    if q.flags.exchange || q.flags.whiteout then (s, Err(EINVAL))
    else if CheckName(q.newName).Some? then (s, Err(CheckName(q.newName).value)) else
    var child, into := Child(s.nodes, q.parent, q.name), Children(s.nodes, q.newParent);
    if child.Err? then (s, Err(child.error))
    else if child.value !in s.nodes then (s, Err(ENOENT))
    else if into.Err? then (s, Err(into.error)) else
    var source := child.value;
    var displaced := Displace(s, source, q.newParent, q.newName, q.flags.noReplace);
    if displaced.Err? then (s, Err(displaced.error))
    else if displaced.value.None? then (s, Ok(Done)) else
    var free := displaced.value.value;
    if Children(free.nodes, q.parent).Err? then (free, Err(Children(free.nodes, q.parent).error)) else
    var gone := WithoutEntry(free.nodes, q.parent, q.name);
    if Children(gone, q.newParent).Err? then (free.(nodes := gone), Err(Children(gone, q.newParent).error)) else
    var moved := WithEntry(gone, q.newParent, q.newName, source);
    if source !in moved then (free.(nodes := moved), Err(ENOENT)) else
    (free.(nodes := moved[source := moved[source].(parent := q.newParent)]), Ok(Done))
  }

  function OpenNode(s: Store, i: Ino): (Store, Response) {
    if i !in s.nodes then (s, Err(ENOENT))
    else if s.nodes[i].content.Directory? then (s, Err(EISDIR))
    else (s.(nodes := s.nodes[i := s.nodes[i].(openHandles := s.nodes[i].openHandles + 1)]), Ok(Done))
  }

  function ReleaseNode(s: Store, i: Ino): (Store, Response) {
    if i !in s.nodes then (s, Ok(Done)) else
    var n := s.nodes[i];
    var closed := n.(openHandles := if n.openHandles == 0 then 0 else n.openHandles - 1);
    var s' := s.(nodes := s.nodes[i := closed]);
    (if closed.unlinked && closed.openHandles == 0 then DropNode(s', i) else s', Ok(Done))
  }

  function StoreData(s: Store, i: Ino, data: Bytes): Store
    requires i in s.nodes
  {
    s.(nodes := s.nodes[i := s.nodes[i].(content := File(data))])
  }

  function Resize(s: Store, i: Ino, size: nat): (Store, Response) {
    var current := FileData(s.nodes, i);
    if current.Err? then (s, Err(current.error)) else
    var before := |current.value|;
    var call := if size > before then Call.ReserveBytes(size - before) else Call.ReleaseBytes(before - size);
    if Refusal(s.view, call).Some? then (Charge(s, call), Err(ENOSPC))
    else (StoreData(Charge(s, call), i, Resized(current.value, size)), Ok(Done))
  }

  function WriteAt(s: Store, i: Ino, offset: u64, data: Payload): (Store, Response) {
    var end := offset + |data|;
    var current := FileData(s.nodes, i);
    if end > U64_MAX then (s, Err(EFBIG))
    else if current.Err? then (s, Err(current.error)) else
    var grows := end > |current.value|;
    var paid := if grows then Charge(s, Call.ReserveBytes(end - |current.value|)) else s;
    if grows && Refusal(s.view, Call.ReserveBytes(end - |current.value|)).Some? then (paid, Err(ENOSPC))
    else (StoreData(paid, i, Overwritten(current.value, offset, data)),
          if |data| < U32_LIMIT then Ok(Written(|data|)) else Err(EFBIG))
  }

  function SetNodeSize(s: Store, i: Ino, size: Option<u64>): (Store, Response) {
    if size.Some? then Resize(s, i, size.value)
    else if i !in s.nodes then (s, Err(ENOENT))
    else (s, Ok(Done))
  }

  function ReserveRange(s: Store, i: Ino, offset: u64, length: u64, mode: int): (Store, Response) {
    if mode != 0 then (s, Err(EOPNOTSUPP))
    else if offset + length > U64_MAX then (s, Err(EFBIG))
    else if i !in s.nodes then (s, Err(ENOENT))
    else if offset + length > NodeSize(s.nodes[i]) then Resize(s, i, offset + length)
    else (s, Ok(Done))
  }

  function ReadAt(s: Store, i: Ino, offset: u64, length: u64): Response {
    if i !in s.nodes then Err(ENOENT)
    else if !s.nodes[i].content.File? then Err(EINVAL)
    else Ok(Data(Slice(s.nodes[i].content.data, offset, length)))
  }

  /** One request served from the inodes. */
  function Step(s: Store, q: Request): (Store, Response) {
    match q
    case Mknod(parent, name, regular) =>
      if !regular then (s, Err(EPERM)) else CreateObject(s, parent, name, File([]), 0)
    case Mkdir(parent, name) => CreateObject(s, parent, name, Directory(map[]), 0)
    case Symlink(parent, name, target) => CreateObject(s, parent, name, Content.Symlink(target), 0)
    case Create(parent, name) => CreateObject(s, parent, name, File([]), 1)
    case Unlink(parent, name) => RemoveEntry(s, parent, name, false)
    case Rmdir(parent, name) => RemoveEntry(s, parent, name, true)
    case Rename(_, _, _, _, _) => RenameEntry(s, q)
    case Open(i) => OpenNode(s, i)
    case Release(i) => ReleaseNode(s, i)
    case Write(i, offset, data) => WriteAt(s, i, offset, data)
    case SetAttr(i, size) => SetNodeSize(s, i, size)
    case Fallocate(i, offset, length, mode) => ReserveRange(s, i, offset, length, mode)
    case Read(i, offset, length) => (s, ReadAt(s, i, offset, length))
  }

  function RunSteps(s: Store, qs: seq<Request>): Store {
    if qs == [] then s else Step(RunSteps(s, qs[..|qs| - 1]), qs[|qs| - 1]).0
  }

  function Replies(s: Store, qs: seq<Request>): seq<Response> {
    if qs == [] then [] else
      var front := qs[..|qs| - 1];
      Replies(s, front) + [Step(RunSteps(s, front), qs[|qs| - 1]).1]
  }
}
