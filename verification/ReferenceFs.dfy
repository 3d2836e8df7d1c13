/**
 * A reference filesystem, simpler than the one it judges: one flat relation of
 * names, one map of objects, and no ledger, no parent pointers and no unlinked
 * flags. An object exists exactly while it is the root, is named, or is held
 * open; every request changes names or handles and lets the rest follow. A
 * growth is refused exactly when a recount of the grown tree exceeds a ceiling.
 */
module ReferenceFs {
  import opened Basics
  import opened FileBytes
  import opened Ledger

  type Ino = nat
  type Name = Bytes
  /** Bytes one request can carry: their length fits the machine word. */
  type Payload = b: Bytes | |b| <= U64_MAX

  const ROOT: Ino := 1

  datatype Errno =
    | ENOENT | ENOTDIR | EISDIR | EINVAL | ENAMETOOLONG | EEXIST | ENOTEMPTY
    | EFBIG | ENOSPC | EDQUOT | EPERM | EOPNOTSUPP

  datatype Body = FileBody(data: Bytes) | DirBody | LinkBody(target: Bytes)

  datatype Object = Object(body: Body, handles: nat)

  datatype Tree = Tree(names: map<(Ino, Name), Ino>, objects: map<Ino, Object>, next: Ino, ceilings: Ceilings)

  datatype RenameFlags = RenameFlags(noReplace: bool, exchange: bool, whiteout: bool)

  datatype Request =
    | Mknod(parent: Ino, name: Name, regular: bool)
    | Mkdir(parent: Ino, name: Name)
    | Symlink(parent: Ino, name: Name, target: Payload)
    | Create(parent: Ino, name: Name)
    | Unlink(parent: Ino, name: Name)
    | Rmdir(parent: Ino, name: Name)
    | Rename(parent: Ino, name: Name, newParent: Ino, newName: Name, flags: RenameFlags)
    | Open(ino: Ino)
    | Release(ino: Ino)
    | Write(ino: Ino, offset: u64, data: Payload)
    | SetAttr(ino: Ino, size: Option<u64>)
    | Fallocate(ino: Ino, offset: u64, length: u64, mode: int)
    | Read(ino: Ino, offset: u64, length: u64)

  datatype Reply = Done | Entry(ino: Ino) | Written(count: nat) | Data(bytes: Bytes)

  type Response = Result<Reply, Errno>

  // ------------------------------------------------------------ recounting

  function SizeOf(o: Object): nat {
    match o.body
    case FileBody(data) => |data|
    case LinkBody(target) => |target|
    case DirBody => 0
  }

  ghost function BytesIn(objects: map<Ino, Object>): nat {
    if objects == map[] then 0 else
      var i :| i in objects;
      SizeOf(objects[i]) + BytesIn(objects - {i})
  }

  ghost function UsedBytes(t: Tree): nat {
    BytesIn(t.objects)
  }

  /** Every object but the root. */
  ghost function UsedObjects(t: Tree): int {
    |t.objects| - 1
  }

  lemma {:induction false} BytesWithout(objects: map<Ino, Object>, i: Ino)
    requires i in objects
    ensures BytesIn(objects) == SizeOf(objects[i]) + BytesIn(objects - {i})
  {
    var j :| j in objects && BytesIn(objects) == SizeOf(objects[j]) + BytesIn(objects - {j});
    if i != j {
      BytesWithout(objects - {j}, i);
      BytesWithout(objects - {i}, j);
      assert objects - {i} - {j} == objects - {j} - {i};
    }
  }

  lemma BytesWith(objects: map<Ino, Object>, i: Ino, o: Object)
    ensures BytesIn(objects[i := o]) == BytesIn(objects - {i}) + SizeOf(o)
    ensures i in objects ==> BytesIn(objects[i := o]) == BytesIn(objects) - SizeOf(objects[i]) + SizeOf(o)
    ensures i !in objects ==> BytesIn(objects[i := o]) == BytesIn(objects) + SizeOf(o)
  {
    BytesWithout(objects[i := o], i);
    assert objects[i := o] - {i} == objects - {i};
    if i in objects {
      BytesWithout(objects, i);
    } else {
      assert objects - {i} == objects;
    }
  }

  // ------------------------------------------------------------ shape

  predicate IsDir(t: Tree, i: Ino) {
    i in t.objects && t.objects[i].body.DirBody?
  }

  predicate IsEmptyDir(t: Tree, d: Ino) {
    forall k | k in t.names :: k.0 != d
  }

  predicate Named(names: map<(Ino, Name), Ino>, i: Ino) {
    exists k :: k in names && names[k] == i
  }

  predicate LegalName(name: Name) {
    1 <= |name| <= MAX_NAME_BYTES
  }

  ghost predicate WellNamed(t: Tree) {
    && (forall k | k in t.names :: LegalName(k.1) && IsDir(t, k.0))
    && (forall k | k in t.names :: t.names[k] in t.objects && t.names[k] != ROOT)
    && (forall j, k | j in t.names && k in t.names && t.names[j] == t.names[k] :: j == k)
  }

  ghost predicate WellPopulated(t: Tree) {
    && IsDir(t, ROOT)
    && (forall i | i in t.objects :: i < t.next)
    && (forall i | i in t.objects :: IsDir(t, i) ==> t.objects[i].handles == 0)
    && (forall i {:trigger Named(t.names, i)} | i in t.objects
        :: i == ROOT || Named(t.names, i) || t.objects[i].handles > 0)
  }

  ghost predicate WithinCeilings(t: Tree) {
    UsedBytes(t) <= t.ceilings.bytes && UsedObjects(t) <= t.ceilings.objects
  }

  /**
   * No entry dangles; every object but the root has exactly one name, or none
   * and an open handle; usage is within both ceilings.
   */
  ghost predicate WellFormed(t: Tree) {
    WellNamed(t) && WellPopulated(t) && WithinCeilings(t)
  }

  /** An object exists while it is the root, is named, or is held open. */
  ghost function Collect(t: Tree): Tree {
    t.(objects := map i | i in t.objects && (i == ROOT || Named(t.names, i) || t.objects[i].handles > 0)
       :: t.objects[i])
  }

  function CheckName(name: Name): Option<Errno> {
    if |name| == 0 then Some(EINVAL) else if |name| > MAX_NAME_BYTES then Some(ENAMETOOLONG) else None
  }

  function CheckDir(t: Tree, d: Ino): Option<Errno> {
    if d !in t.objects then Some(ENOENT) else if !t.objects[d].body.DirBody? then Some(ENOTDIR) else None
  }

  function CheckFile(t: Tree, i: Ino): Option<Errno> {
    if i !in t.objects then Some(ENOENT) else
      match t.objects[i].body
      case FileBody(_) => None
      case DirBody => Some(EISDIR)
      case LinkBody(_) => Some(EINVAL)
  }

  function CheckEntry(t: Tree, d: Ino, name: Name): Option<Errno> {
    if CheckDir(t, d).Some? then CheckDir(t, d) else if (d, name) !in t.names then Some(ENOENT) else None
  }

  // ------------------------------------------------------------ requests

  /** The grown tree, or a refusal when a recount of it is over a ceiling. */
  ghost function Admit(t: Tree, grown: Tree, response: Response): (Tree, Response) {
    if UsedObjects(grown) > t.ceilings.objects then (t, Err(EDQUOT))
    else if UsedBytes(grown) > t.ceilings.bytes then (t, Err(ENOSPC))
    else (grown, response)
  }

  ghost function Make(t: Tree, parent: Ino, name: Name, made: Object): (Tree, Response) {
    if CheckName(name).Some? then (t, Err(CheckName(name).value))
    else if CheckDir(t, parent).Some? then (t, Err(CheckDir(t, parent).value))
    else if (parent, name) in t.names then (t, Err(EEXIST))
    else
      var grown := t.(names := t.names[(parent, name) := t.next],
                      objects := t.objects[t.next := made],
                      next := t.next + 1);
      Admit(t, grown, Ok(Entry(t.next)))
  }

  ghost function Remove(t: Tree, parent: Ino, name: Name, directory: bool): (Tree, Response) {
    if CheckEntry(t, parent, name).Some? then (t, Err(CheckEntry(t, parent, name).value)) else
      var i := t.names[(parent, name)];
      if !directory && IsDir(t, i) then (t, Err(EISDIR))
      else if directory && !IsDir(t, i) then (t, Err(ENOTDIR))
      else if directory && !IsEmptyDir(t, i) then (t, Err(ENOTEMPTY))
      else (Collect(t.(names := t.names - {(parent, name)})), Ok(Done))
  }

  /** Why the name `(d, name)` cannot be taken over by `source`, if it cannot. */
  ghost function CheckReplace(t: Tree, source: Ino, d: Ino, name: Name, noReplace: bool): Option<Errno> {
    if (d, name) !in t.names then None
    else if noReplace then Some(EEXIST)
    else
      var target := t.names[(d, name)];
      if target == source then None
      else if IsDir(t, source) && !IsDir(t, target) then Some(ENOTDIR)
      else if !IsDir(t, source) && IsDir(t, target) then Some(EISDIR)
      else if IsDir(t, target) && !IsEmptyDir(t, target) then Some(ENOTEMPTY)
      else None
  }

  ghost function Renamed(t: Tree, q: Request): (Tree, Response)
    requires q.Rename?
  {
    if q.flags.exchange || q.flags.whiteout then (t, Err(EINVAL))
    else if CheckName(q.newName).Some? then (t, Err(CheckName(q.newName).value))
    else if CheckEntry(t, q.parent, q.name).Some? then (t, Err(CheckEntry(t, q.parent, q.name).value))
    else if CheckDir(t, q.newParent).Some? then (t, Err(CheckDir(t, q.newParent).value))
    else
      var source := t.names[(q.parent, q.name)];
      var refused := CheckReplace(t, source, q.newParent, q.newName, q.flags.noReplace);
      if refused.Some? then (t, Err(refused.value))
      else (Collect(t.(names := (t.names - {(q.parent, q.name)})[(q.newParent, q.newName) := source])), Ok(Done))
  }

  /** The tree with file `i` holding `data` instead. */
  ghost function WithData(t: Tree, i: Ino, data: Bytes): Tree
    requires i in t.objects
  {
    t.(objects := t.objects[i := t.objects[i].(body := FileBody(data))])
  }

  ghost function EditFile(t: Tree, i: Ino, e: FileBytes.Edit, response: Response): (Tree, Response) {
    if CheckFile(t, i).Some? then (t, Err(CheckFile(t, i).value))
    else Admit(t, WithData(t, i, Edited(t.objects[i].body.data, e)), response)
  }

  ghost function WithHandles(t: Tree, i: Ino, handles: nat): Tree
    requires i in t.objects
  {
    t.(objects := t.objects[i := t.objects[i].(handles := handles)])
  }

  ghost function OpenFile(t: Tree, i: Ino): (Tree, Response) {
    if i !in t.objects then (t, Err(ENOENT))
    else if IsDir(t, i) then (t, Err(EISDIR))
    else (WithHandles(t, i, t.objects[i].handles + 1), Ok(Done))
  }

  ghost function ReleaseFile(t: Tree, i: Ino): (Tree, Response) {
    if i !in t.objects || t.objects[i].handles == 0 then (t, Ok(Done))
    else (Collect(WithHandles(t, i, t.objects[i].handles - 1)), Ok(Done))
  }

  ghost function WriteFile(t: Tree, i: Ino, offset: u64, data: Payload): (Tree, Response) {
    if offset + |data| > U64_MAX then (t, Err(EFBIG))
    else EditFile(t, i, Overwrite(offset, data), if |data| < U32_LIMIT then Ok(Written(|data|)) else Err(EFBIG))
  }

  ghost function SetSize(t: Tree, i: Ino, size: Option<u64>): (Tree, Response) {
    if size.Some? then EditFile(t, i, Truncate(size.value), Ok(Done))
    else if i !in t.objects then (t, Err(ENOENT))
    else (t, Ok(Done))
  }

  ghost function Reserve(t: Tree, i: Ino, offset: u64, length: u64, mode: int): (Tree, Response) {
    if mode != 0 then (t, Err(EOPNOTSUPP))
    else if offset + length > U64_MAX then (t, Err(EFBIG))
    else if i !in t.objects then (t, Err(ENOENT))
    else if offset + length <= SizeOf(t.objects[i]) then (t, Ok(Done))
    else EditFile(t, i, Preallocate(offset + length), Ok(Done))
  }

  function ReadFile(t: Tree, i: Ino, offset: u64, length: u64): Response {
    if i !in t.objects then Err(ENOENT)
    else if !t.objects[i].body.FileBody? then Err(EINVAL)
    else Ok(Data(Slice(t.objects[i].body.data, offset, length)))
  }

  ghost function Serve(t: Tree, q: Request): (Tree, Response) {
    match q
    case Mknod(parent, name, regular) =>
      if !regular then (t, Err(EPERM)) else Make(t, parent, name, Object(FileBody([]), 0))
    case Mkdir(parent, name) => Make(t, parent, name, Object(DirBody, 0))
    case Symlink(parent, name, target) => Make(t, parent, name, Object(LinkBody(target), 0))
    case Create(parent, name) => Make(t, parent, name, Object(FileBody([]), 1))
    case Unlink(parent, name) => Remove(t, parent, name, false)
    case Rmdir(parent, name) => Remove(t, parent, name, true)
    case Rename(_, _, _, _, _) => Renamed(t, q)
    case Open(i) => OpenFile(t, i)
    case Release(i) => ReleaseFile(t, i)
    case Write(i, offset, data) => WriteFile(t, i, offset, data)
    case SetAttr(i, size) => SetSize(t, i, size)
    case Fallocate(i, offset, length, mode) => Reserve(t, i, offset, length, mode)
    case Read(i, offset, length) => (t, ReadFile(t, i, offset, length))
  }

  function Fresh(c: Ceilings): Tree {
    Tree(map[], map[ROOT := Object(DirBody, 0)], ROOT + 1, c)
  }

  /** The tree after a run of requests. */
  ghost function Run(t: Tree, qs: seq<Request>): Tree {
    if qs == [] then t else Serve(Run(t, qs[..|qs| - 1]), qs[|qs| - 1]).0
  }

  /** The answers a run of requests receives, in order. */
  ghost function Answers(t: Tree, qs: seq<Request>): seq<Response> {
    if qs == [] then [] else
      var front := qs[..|qs| - 1];
      Answers(t, front) + [Serve(Run(t, front), qs[|qs| - 1]).1]
  }
}
