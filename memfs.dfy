/** The part of a Linux filesystem that the directory replicator touches, held in memory: a map
    from absolute paths to nodes, with the kernel's path walk (symbolic links followed or not,
    `.` and `..`, the 40-link limit and the `PATH_MAX` limit) and the system calls behind
    `os.Stat`, `os.Lstat`, `ioutil.ReadDir`, `os.MkdirAll`, `os.Create`, `os.Open`, `os.Readlink`,
    `os.Symlink`, `os.Lchown` and `os.Chmod`. */
module MemFs {
  import opened Wrappers

  newtype byte = x: int | 0 <= x < 256

  /** One component of a path; a directory entry's name. */
  type Name = string

  /** An absolute path, its components from the root; `[]` is the root `/`. */
  type Path = seq<Name>

  /** Linux's limit on the length of a path name, terminating zero included. */
  const PATH_MAX := 4096

  /** Linux's limit on the symbolic links followed in one path walk. */
  const MAX_SYMLINKS := 40

  /** The owner of the running process, who owns what it creates. */
  datatype Owner = Owner(uid: nat, gid: nat)

  /** Owner, group and permission bits of a node. */
  datatype Meta = Meta(uid: nat, gid: nat, mode: nat)

  /** The text of a symbolic link, already split at its slashes. */
  datatype Target = Target(absolute: bool, parts: seq<Name>)

  datatype Node =
    | Dir(meta: Meta, entries: seq<Name>)
    | File(meta: Meta, data: seq<byte>)
    | Symlink(meta: Meta, target: Target)

  datatype Errno = ENOENT | ENOTDIR | ELOOP | ENAMETOOLONG | EISDIR | EEXIST | EINVAL

  type Nodes = map<Path, Node>

  /** The length of the text `/c1/c2/…/cn` of a path. */
  function PathLength(p: Path): nat {
    if p == [] then 0 else PathLength(p[..|p| - 1]) + 1 + |p[|p| - 1]|
  }

  lemma PathLengthAppend(p: Path, name: Name)
    ensures PathLength(p + [name]) == PathLength(p) + 1 + |name|
  {
    assert (p + [name])[..|p|] == p;
  }

  function Parent(p: Path): Path {
    if p == [] then [] else p[..|p| - 1]
  }

  /** The filesystem is a tree: the root is a directory and so is the parent of every node. */
  ghost predicate Tree(fs: Nodes) {
    && [] in fs && fs[[]].Dir?
    && forall p :: p in fs && p != [] ==> Parent(p) in fs && fs[Parent(p)].Dir?
  }

  /** Where a path walk ends: at an existing node, or at a missing last component. */
  datatype Found = At(path: Path) | Absent(parent: Path, name: Name)

  /** The path a walk designates, whether or not a node is there. */
  function Location(f: Found): Path {
    match f
    case At(p) => p
    case Absent(parent, name) => parent + [name]
  }

  /** The kernel's path walk of `rest` from the directory `cur`, with `hops` links left to
      follow; a link in the last position is followed only when `follow` is set. */
  function Res(fs: Nodes, cur: Path, rest: seq<Name>, follow: bool, hops: nat): (r: Result<Found, Errno>)
    ensures r.Success? && r.value.Absent? ==> r.value.parent + [r.value.name] !in fs
    decreases hops, |rest|
  {
    if rest == [] then Success(At(cur))
    else if rest[0] == "." then Res(fs, cur, rest[1..], follow, hops)
    else if rest[0] == ".." then Res(fs, Parent(cur), rest[1..], follow, hops)
    else
      var next := cur + [rest[0]];
      if next !in fs then
        if |rest| == 1 then Success(Absent(cur, rest[0])) else Failure(ENOENT)
      else
        match fs[next]
        case Dir(_, _) => Res(fs, next, rest[1..], follow, hops)
        case File(_, _) => if |rest| == 1 then Success(At(next)) else Failure(ENOTDIR)
        case Symlink(_, t) =>
          if |rest| == 1 && !follow then Success(At(next))
          else if hops == 0 then Failure(ELOOP)
          else if !t.absolute && t.parts == [] then Failure(ENOENT)
          else Res(fs, if t.absolute then [] else cur, t.parts + rest[1..], follow, hops - 1)
  }

  /** The walk of an absolute path. */
  function Lookup(fs: Nodes, p: Path, follow: bool): (r: Result<Found, Errno>)
    ensures r.Success? ==> PathLength(p) < PATH_MAX
    ensures r.Success? && r.value.Absent? ==> Location(r.value) !in fs
  {
    if PathLength(p) >= PATH_MAX then Failure(ENAMETOOLONG) else Res(fs, [], p, follow, MAX_SYMLINKS)
  }

  /** The node a walk ends at. */
  function NodeAt(fs: Nodes, r: Result<Found, Errno>): Result<Node, Errno> {
    match r
    case Failure(e) => Failure(e)
    case Success(At(q)) => if q in fs then Success(fs[q]) else Failure(ENOENT)
    case Success(Absent(_, _)) => Failure(ENOENT)
  }

  /** `stat(2)`: the node, links followed. */
  function Stat(fs: Nodes, p: Path): (r: Result<Node, Errno>)
    ensures r.Success? ==> PathLength(p) < PATH_MAX
  {
    NodeAt(fs, Lookup(fs, p, true))
  }

  /** `lstat(2)`: the node, a link in the last position not followed. */
  function Lstat(fs: Nodes, p: Path): (r: Result<Node, Errno>)
    ensures r.Success? ==> PathLength(p) < PATH_MAX
  {
    NodeAt(fs, Lookup(fs, p, false))
  }

  /** One entry of `ioutil.ReadDir`: its name and its `lstat` information. */
  datatype DirEntry = DirEntry(name: Name, info: Node)

  /** Go's `<` on strings: lexicographic order of the characters. */
  predicate NameLess(a: Name, b: Name) {
    if a == [] then b != []
    else b != [] && (a[0] < b[0] || (a[0] == b[0] && NameLess(a[1..], b[1..])))
  }

  predicate SortedByName(es: seq<DirEntry>) {
    forall i :: 0 <= i < |es| - 1 ==> !NameLess(es[i + 1].name, es[i].name)
  }

  function InsertByName(e: DirEntry, es: seq<DirEntry>): (r: seq<DirEntry>)
    ensures multiset(r) == multiset(es) + multiset{e}
    ensures r != [] && (r[0] == e || (es != [] && r[0] == es[0]))
  {
    if es == [] || NameLess(e.name, es[0].name) then [e] + es
    else
      assert es == [es[0]] + es[1..];
      [es[0]] + InsertByName(e, es[1..])
  }

  /** `sort.Slice(list, func(i, j) { return list[i].Name() < list[j].Name() })`, as an insertion sort. */
  function SortByName(es: seq<DirEntry>): (r: seq<DirEntry>)
    ensures multiset(r) == multiset(es)
  {
    if es == [] then []
    else
      assert es == [es[0]] + es[1..];
      InsertByName(es[0], SortByName(es[1..]))
  }

  lemma {:induction false} NameLessAsymmetric(a: Name, b: Name)
    requires NameLess(a, b)
    ensures !NameLess(b, a)
  {
    if a != [] && a[0] == b[0] {
      NameLessAsymmetric(a[1..], b[1..]);
    }
  }

  lemma {:induction false} InsertSorted(e: DirEntry, es: seq<DirEntry>)
    requires SortedByName(es)
    ensures SortedByName(InsertByName(e, es))
  {
    if es != [] && NameLess(e.name, es[0].name) {
      NameLessAsymmetric(e.name, es[0].name);
    } else if es != [] {
      InsertSorted(e, es[1..]);
      var r := InsertByName(e, es[1..]);
      assert InsertByName(e, es) == [es[0]] + r;
      forall i | 0 <= i < |r| ensures !NameLess(([es[0]] + r)[i + 1].name, ([es[0]] + r)[i].name) {
        if i > 0 {
          assert ([es[0]] + r)[i + 1] == r[i] && ([es[0]] + r)[i] == r[i - 1];
        } else if r[0] != e {
          assert es[1] == r[0];
        }
      }
    }
  }

  lemma {:induction false} SortSorted(es: seq<DirEntry>)
    ensures SortedByName(SortByName(es))
  {
    if es != [] {
      SortSorted(es[1..]);
      InsertSorted(es[0], SortByName(es[1..]));
    }
  }

  /** The recorded entries of the directory `q` whose nodes exist, with their `lstat` information. */
  function Children(fs: Nodes, q: Path, names: seq<Name>): (r: seq<DirEntry>)
    ensures forall e :: e in r <==> e.name in names && q + [e.name] in fs && e.info == fs[q + [e.name]]
  {
    if names == [] then []
    else
      var rest := Children(fs, q, names[1..]);
      assert forall n :: n in names <==> n == names[0] || n in names[1..];
      if q + [names[0]] in fs then [DirEntry(names[0], fs[q + [names[0]]])] + rest else rest
  }

  /** `ioutil.ReadDir`: open the directory, `lstat` each entry and sort by name. */
  function ReadDir(fs: Nodes, p: Path): Result<seq<DirEntry>, Errno> {
    match Stat(fs, p)
    case Failure(e) => Failure(e)
    case Success(n) =>
      if n.Dir? then
        var q := Location(Lookup(fs, p, true).value);
        Success(SortByName(Children(fs, q, n.entries)))
      else Failure(ENOTDIR)
  }

  /** `ReadDir` lists, in name order, exactly the existing nodes recorded in the directory. */
  lemma ReadDirListing(fs: Nodes, p: Path)
    requires ReadDir(fs, p).Success?
    ensures var q := Location(Lookup(fs, p, true).value); var es := ReadDir(fs, p).value;
      && SortedByName(es)
      && forall e :: e in es <==> (e.name in fs[q].entries && q + [e.name] in fs && e.info == fs[q + [e.name]])
  {
    var q := Location(Lookup(fs, p, true).value);
    var cs := Children(fs, q, fs[q].entries);
    SortSorted(cs);
    assert forall e :: e in SortByName(cs) <==> e in multiset(SortByName(cs));
    assert forall e :: e in cs <==> e in multiset(cs);
  }

  /** `fs` with a new node `name` in the directory `parent`, recorded among its entries. */
  function AddChild(fs: Nodes, parent: Path, name: Name, n: Node): Nodes
    requires parent in fs && fs[parent].Dir?
  {
    var d := fs[parent];
    var names := if name in d.entries then d.entries else d.entries + [name];
    fs[parent := Dir(d.meta, names)][parent + [name] := n]
  }

  /** The permission bits `os.Create` asks for (0666). */
  const CREATE_PERM := 438

  /** The permission bits `os.Symlink` gives a link (0777). */
  const LINK_PERM := 511

  /** `mkdir(2)`: a new directory owned by the process, unless something is there already. */
  function AfterMkdir(fs: Nodes, proc: Owner, p: Path, perm: nat): Result<Nodes, Errno> {
    match Lookup(fs, p, false)
    case Failure(e) => Failure(e)
    case Success(At(_)) => Failure(EEXIST)
    case Success(Absent(parent, name)) =>
      if parent in fs && fs[parent].Dir? then Success(AddChild(fs, parent, name, Dir(Meta(proc.uid, proc.gid, perm), [])))
      else Failure(ENOENT)
  }

  /** `os.MkdirAll`: nothing when a directory is there, otherwise the parents first, then the
      directory; a creation that fails because a directory appeared meanwhile is a success. */
  function AfterMkdirAll(fs: Nodes, proc: Owner, p: Path, perm: nat): (Nodes, Option<Errno>)
    decreases |p|
  {
    match Stat(fs, p)
    case Success(n) => if n.Dir? then (fs, None) else (fs, Some(ENOTDIR))
    case Failure(_) =>
      var (fs1, err1) := if |p| > 1 then AfterMkdirAll(fs, proc, p[..|p| - 1], perm) else (fs, None);
      if err1.Some? then (fs1, err1)
      else
        match AfterMkdir(fs1, proc, p, perm)
        case Success(fs2) => (fs2, None)
        case Failure(e) =>
          match Lstat(fs1, p)
          case Success(Dir(_, _)) => (fs1, None)
          case _ => (fs1, Some(e))
  }

  /** `open(2)` with `O_CREAT|O_TRUNC`, links followed: an existing file is emptied, a missing one
      created with the process as owner; the result is where the file is. */
  function AfterCreate(fs: Nodes, proc: Owner, p: Path): (r: Result<(Nodes, Path), Errno>)
    ensures r.Success? ==> r.value.1 in r.value.0 && r.value.0[r.value.1].File? && r.value.0[r.value.1].data == []
  {
    match Lookup(fs, p, true)
    case Failure(e) => Failure(e)
    case Success(At(q)) =>
      if q !in fs then Failure(ENOENT)
      else if fs[q].Dir? then Failure(EISDIR)
      else Success((fs[q := File(fs[q].meta, [])], q))
    case Success(Absent(parent, name)) =>
      if parent in fs && fs[parent].Dir? then
        Success((AddChild(fs, parent, name, File(Meta(proc.uid, proc.gid, CREATE_PERM), [])), parent + [name]))
      else Failure(ENOENT)
  }

  /** `open(2)` for reading: the path of the node opened. */
  function Open(fs: Nodes, p: Path): (r: Result<Path, Errno>)
    ensures r.Success? ==> r.value in fs
  {
    match Lookup(fs, p, true)
    case Failure(e) => Failure(e)
    case Success(At(q)) => if q in fs then Success(q) else Failure(ENOENT)
    case Success(Absent(_, _)) => Failure(ENOENT)
  }

  /** Reading an opened node to its end. */
  function ReadAll(fs: Nodes, q: Path): Result<seq<byte>, Errno>
    requires q in fs
  {
    match fs[q]
    case File(_, data) => Success(data)
    case _ => Failure(EISDIR)
  }

  /** The bytes read from a path, as `ioutil.ReadFile` would give them. */
  function Contents(fs: Nodes, p: Path): Result<seq<byte>, Errno> {
    match Open(fs, p)
    case Failure(e) => Failure(e)
    case Success(q) => ReadAll(fs, q)
  }

  function WithMeta(n: Node, m: Meta): Node {
    match n
    case Dir(_, es) => Dir(m, es)
    case File(_, data) => File(m, data)
    case Symlink(_, t) => Symlink(m, t)
  }

  /** `lchown(2)`: new owner and group, a link in the last position not followed. */
  function AfterLchown(fs: Nodes, p: Path, uid: nat, gid: nat): Result<Nodes, Errno> {
    match Lookup(fs, p, false)
    case Failure(e) => Failure(e)
    case Success(At(q)) =>
      if q in fs then Success(fs[q := WithMeta(fs[q], Meta(uid, gid, fs[q].meta.mode))]) else Failure(ENOENT)
    case Success(Absent(_, _)) => Failure(ENOENT)
  }

  /** `chmod(2)`: new permission bits, links followed. */
  function AfterChmod(fs: Nodes, p: Path, mode: nat): Result<Nodes, Errno> {
    match Lookup(fs, p, true)
    case Failure(e) => Failure(e)
    case Success(At(q)) =>
      if q in fs then Success(fs[q := WithMeta(fs[q], Meta(fs[q].meta.uid, fs[q].meta.gid, mode))]) else Failure(ENOENT)
    case Success(Absent(_, _)) => Failure(ENOENT)
  }

  /** `symlink(2)`: a new link with the given text, unless something is there already. */
  function AfterSymlink(fs: Nodes, proc: Owner, target: Target, p: Path): Result<Nodes, Errno> {
    match Lookup(fs, p, false)
    case Failure(e) => Failure(e)
    case Success(At(_)) => Failure(EEXIST)
    case Success(Absent(parent, name)) =>
      if parent in fs && fs[parent].Dir? then Success(AddChild(fs, parent, name, Symlink(Meta(proc.uid, proc.gid, LINK_PERM), target)))
      else Failure(ENOENT)
  }

  /** `readlink(2)`: the text of a link. */
  function Readlink(fs: Nodes, p: Path): Result<Target, Errno> {
    match Lstat(fs, p)
    case Failure(e) => Failure(e)
    case Success(n) => if n.Symlink? then Success(n.target) else Failure(EINVAL)
  }

  /** The new state and error of a system call. */
  function Apply(fs: Nodes, r: Result<Nodes, Errno>): (Nodes, Option<Errno>) {
    match r
    case Success(fs1) => (fs1, None)
    case Failure(e) => (fs, Some(e))
  }

  // ---------------------------------------------------------------------------------------
  // Properties of the path walk

  /** The kind of a node, and the text of a link: all a path walk looks at. */
  function Shape(n: Node): (bool, bool, Target) {
    (n.Dir?, n.File?, if n.Symlink? then n.target else Target(false, []))
  }

  /** `fs2` keeps every node of `fs` with the same shape, and may have more. */
  ghost predicate Grows(fs: Nodes, fs2: Nodes) {
    forall p :: p in fs ==> p in fs2 && Shape(fs2[p]) == Shape(fs[p])
  }

  /** A walk that reaches a node still reaches it once the tree has grown; a walk that ends at
      a missing name reaches the node that fills it, unless that is a link to follow. */
  lemma {:induction false} ResGrows(fs: Nodes, fs2: Nodes, cur: Path, rest: seq<Name>, follow: bool, follow2: bool, hops: nat)
    requires Grows(fs, fs2) && (follow ==> follow2)
    requires Res(fs, cur, rest, follow, hops).Success?
    ensures var r := Res(fs, cur, rest, follow, hops).value;
      && (r.At? && follow2 == follow ==> Res(fs, cur, rest, follow, hops) == Res(fs2, cur, rest, follow2, hops))
      && (r.Absent? && Location(r) !in fs2 ==> Res(fs2, cur, rest, follow2, hops) == Success(r))
      && (r.Absent? && Location(r) in fs2 && (!follow2 || !fs2[Location(r)].Symlink?) ==>
            Res(fs2, cur, rest, follow2, hops) == Success(At(Location(r))))
    decreases hops, |rest|
  {
    if rest == [] {
    } else if rest[0] == "." {
      ResGrows(fs, fs2, cur, rest[1..], follow, follow2, hops);
    } else if rest[0] == ".." {
      ResGrows(fs, fs2, Parent(cur), rest[1..], follow, follow2, hops);
    } else {
      var next := cur + [rest[0]];
      if next in fs {
        assert Shape(fs2[next]) == Shape(fs[next]);
        match fs[next]
        case Dir(_, _) =>
          ResGrows(fs, fs2, next, rest[1..], follow, follow2, hops);
        case File(_, _) =>
        case Symlink(_, t) =>
          if !(|rest| == 1 && !follow) {
            ResGrows(fs, fs2, if t.absolute then [] else cur, t.parts + rest[1..], follow, follow2, hops - 1);
          }
      } else if |rest| == 1 {
        assert rest[1..] == [];
      }
    }
  }

  /** A walk that ends at a node other than a link does not depend on following the last link. */
  lemma {:induction false} ResFollowIrrelevant(fs: Nodes, cur: Path, rest: seq<Name>, hops: nat)
    requires Res(fs, cur, rest, false, hops).Success?
    requires var r := Res(fs, cur, rest, false, hops).value;
      r.Absent? || (r.path in fs && !fs[r.path].Symlink?) || rest == []
    ensures Res(fs, cur, rest, true, hops) == Res(fs, cur, rest, false, hops)
    decreases hops, |rest|
  {
    if rest == [] {
    } else if rest[0] == "." {
      ResFollowIrrelevant(fs, cur, rest[1..], hops);
    } else if rest[0] == ".." {
      ResFollowIrrelevant(fs, Parent(cur), rest[1..], hops);
    } else {
      var next := cur + [rest[0]];
      if next in fs {
        match fs[next]
        case Dir(_, _) =>
          ResFollowIrrelevant(fs, next, rest[1..], hops);
        case File(_, _) =>
        case Symlink(_, t) =>
          if |rest| != 1 {
            ResFollowIrrelevant(fs, if t.absolute then [] else cur, t.parts + rest[1..], hops - 1);
          }
      }
    }
  }

  /** In a tree, a walk that follows links never ends at a link. */
  lemma {:induction false} ResFollowedNoLink(fs: Nodes, cur: Path, rest: seq<Name>, hops: nat)
    requires Tree(fs)
    requires cur in fs && fs[cur].Dir?
    requires Res(fs, cur, rest, true, hops).Success? && Res(fs, cur, rest, true, hops).value.At?
    ensures var q := Res(fs, cur, rest, true, hops).value.path; q in fs && !fs[q].Symlink?
    decreases hops, |rest|
  {
    if rest == [] {
    } else if rest[0] == "." {
      ResFollowedNoLink(fs, cur, rest[1..], hops);
    } else if rest[0] == ".." {
      ResFollowedNoLink(fs, Parent(cur), rest[1..], hops);
    } else {
      var next := cur + [rest[0]];
      match fs[next]
      case Dir(_, _) =>
        ResFollowedNoLink(fs, next, rest[1..], hops);
      case File(_, _) =>
      case Symlink(_, t) =>
        ResFollowedNoLink(fs, if t.absolute then [] else cur, t.parts + rest[1..], hops - 1);
    }
  }

  /** `stat` never reports a link: it is followed to what it designates. */
  lemma StatNeverSymlink(fs: Nodes, p: Path)
    requires Tree(fs)
    requires Stat(fs, p).Success?
    ensures !Stat(fs, p).value.Symlink?
  {
    ResFollowedNoLink(fs, [], p, MAX_SYMLINKS);
  }

  /** What `stat` reports keeps its kind once the tree has grown. */
  lemma StatGrows(fs: Nodes, fs2: Nodes, p: Path)
    requires Grows(fs, fs2) && Stat(fs, p).Success?
    ensures Stat(fs2, p).Success? && Shape(Stat(fs2, p).value) == Shape(Stat(fs, p).value)
  {
    ResGrows(fs, fs2, [], p, true, true, MAX_SYMLINKS);
  }

  /** A state change that keeps the tree shape, by replacing one node with one of the same kind. */
  lemma ReplaceGrows(fs: Nodes, q: Path, n: Node)
    requires q in fs && Shape(n) == Shape(fs[q])
    ensures Grows(fs, fs[q := n])
  {
  }

  /** Adding a node under a directory keeps the tree shape. */
  lemma AddChildGrows(fs: Nodes, parent: Path, name: Name, n: Node)
    requires parent in fs && fs[parent].Dir? && parent + [name] !in fs
    ensures Grows(fs, AddChild(fs, parent, name, n))
  {
  }

  lemma AddChildTree(fs: Nodes, parent: Path, name: Name, n: Node)
    requires Tree(fs) && parent in fs && fs[parent].Dir? && parent + [name] !in fs
    ensures Tree(AddChild(fs, parent, name, n))
  {
    var fs2 := AddChild(fs, parent, name, n);
    forall p | p in fs2 && p != [] ensures Parent(p) in fs2 && fs2[Parent(p)].Dir? {
      if p == parent + [name] {
        assert Parent(p) == parent;
      }
    }
  }

  lemma ReplaceTree(fs: Nodes, q: Path, n: Node)
    requires Tree(fs) && q in fs && n.Dir? == fs[q].Dir?
    ensures Tree(fs[q := n])
  {
  }

  // ---------------------------------------------------------------------------------------
  // The filesystem as a mutable object

  /** The filesystem the process sees; each method is one system call. */
  class FileSystem {
    var nodes: Nodes
    const proc: Owner

    ghost predicate Valid()
      reads this
    {
      Tree(nodes)
    }

    constructor (proc: Owner, nodes: Nodes)
      requires Tree(nodes)
      ensures Valid() && this.nodes == nodes && this.proc == proc
    {
      this.nodes := nodes;
      this.proc := proc;
    }

    method Mkdir(p: Path, perm: nat) returns (err: Option<Errno>)
      requires Valid()
      modifies this
      ensures Valid()
      ensures (nodes, err) == Apply(old(nodes), AfterMkdir(old(nodes), proc, p, perm))
    {
      var r := AfterMkdir(nodes, proc, p, perm);
      if r.Success? {
        var l := Lookup(nodes, p, false).value;
        AddChildTree(nodes, l.parent, l.name, Dir(Meta(proc.uid, proc.gid, perm), []));
        nodes := r.value;
        return None;
      }
      return Some(r.error);
    }

    /** `os.MkdirAll`, recursing on the parent as Go does. */
    method MkdirAll(p: Path, perm: nat) returns (err: Option<Errno>)
      requires Valid()
      modifies this
      ensures Valid()
      ensures (nodes, err) == AfterMkdirAll(old(nodes), proc, p, perm)
      decreases |p|
    {
      var dir := Stat(nodes, p);
      if dir.Success? {
        if dir.value.Dir? {
          return None;
        }
        return Some(ENOTDIR);
      }
      if |p| > 1 {
        err := MkdirAll(p[..|p| - 1], perm);
        if err.Some? {
          return err;
        }
      }
      err := Mkdir(p, perm);
      if err.Some? {
        var dir1 := Lstat(nodes, p);
        if dir1.Success? && dir1.value.Dir? {
          return None;
        }
      }
    }

    /** `open(2)` with `O_CREAT|O_TRUNC`. */
    method Create(p: Path) returns (r: Result<Path, Errno>)
      requires Valid()
      modifies this
      ensures Valid()
      ensures match AfterCreate(old(nodes), proc, p)
        case Success((fs1, q)) => nodes == fs1 && r == Success(q)
        case Failure(e) => nodes == old(nodes) && r == Failure(e)
    {
      var c := AfterCreate(nodes, proc, p);
      if c.Failure? {
        return Failure(c.error);
      }
      var l := Lookup(nodes, p, true).value;
      if l.Absent? {
        AddChildTree(nodes, l.parent, l.name, File(Meta(proc.uid, proc.gid, CREATE_PERM), []));
      } else {
        ReplaceTree(nodes, l.path, File(nodes[l.path].meta, []));
      }
      nodes := c.value.0;
      return Success(c.value.1);
    }

    /** Writing `data` to the opened, empty file `q`. */
    method Write(q: Path, data: seq<byte>)
      requires Valid() && q in nodes && nodes[q].File?
      modifies this
      ensures Valid()
      ensures nodes == old(nodes)[q := File(old(nodes)[q].meta, old(nodes)[q].data + data)]
    {
      ReplaceTree(nodes, q, File(nodes[q].meta, nodes[q].data + data));
      nodes := nodes[q := File(nodes[q].meta, nodes[q].data + data)];
    }

    method Lchown(p: Path, uid: nat, gid: nat) returns (err: Option<Errno>)
      requires Valid()
      modifies this
      ensures Valid()
      ensures (nodes, err) == Apply(old(nodes), AfterLchown(old(nodes), p, uid, gid))
    {
      var r := AfterLchown(nodes, p, uid, gid);
      if r.Failure? {
        return Some(r.error);
      }
      var q := Lookup(nodes, p, false).value.path;
      ReplaceTree(nodes, q, WithMeta(nodes[q], Meta(uid, gid, nodes[q].meta.mode)));
      nodes := r.value;
      return None;
    }

    method Chmod(p: Path, mode: nat) returns (err: Option<Errno>)
      requires Valid()
      modifies this
      ensures Valid()
      ensures (nodes, err) == Apply(old(nodes), AfterChmod(old(nodes), p, mode))
    {
      var r := AfterChmod(nodes, p, mode);
      if r.Failure? {
        return Some(r.error);
      }
      var q := Lookup(nodes, p, true).value.path;
      ReplaceTree(nodes, q, WithMeta(nodes[q], Meta(nodes[q].meta.uid, nodes[q].meta.gid, mode)));
      nodes := r.value;
      return None;
    }

    method Symlink(target: Target, p: Path) returns (err: Option<Errno>)
      requires Valid()
      modifies this
      ensures Valid()
      ensures (nodes, err) == Apply(old(nodes), AfterSymlink(old(nodes), proc, target, p))
    {
      var r := AfterSymlink(nodes, proc, target, p);
      if r.Failure? {
        return Some(r.error);
      }
      var l := Lookup(nodes, p, false).value;
      AddChildTree(nodes, l.parent, l.name, Node.Symlink(Meta(proc.uid, proc.gid, LINK_PERM), target));
      nodes := r.value;
      return None;
    }
  }
}
