/** The recursive directory copy of `pkg/dirutil`, over the in-memory filesystem: what each
    function does to the filesystem and which error it returns. */
module DirUtil {
  import opened Wrappers
  import opened MemFs

  /** The permission bits `CopyDirectory` asks `CreateIfNotExists` for (0755). */
  const DIR_PERM := 493

  /** The errors of `Copy`, by the step that failed. */
  datatype FileCopyError = CreateFailed(errno: Errno) | OpenFailed(errno: Errno) | ContentFailed(errno: Errno)

  /** The errors of `CopySymLink`: the `readlink` of the source, or the bare `symlink` error. */
  datatype LinkError = ReadlinkFailed(source: Path, errno: Errno) | SymlinkFailed(errno: Errno)

  /** The errors of `CopyDirectory`, one per `fmt.Errorf` of the Go code. */
  datatype CopyError =
    | ListFailed(dir: Path, errno: Errno)
    | StatFailed(path: Path, errno: Errno)
    | CreateDirFailed(dir: Path, errno: Errno)
    | CopyDirFailed(inner: CopyError)
    | CopySymlinkFailed(link: LinkError)
    | CopyContentFailed(src: Path, dst: Path, file: FileCopyError)
    | LchownFailed(path: Path, errno: Errno)
    | ChmodFailed(name: Name, path: Path, errno: Errno)

  /** The filesystem after a copy, and its error. */
  datatype Copied = Copied(nodes: Nodes, err: Option<CopyError>)

  /** `Exists`: only a `stat` that reports a missing node makes a path not exist. */
  predicate Exists(fs: Nodes, filePath: Path) {
    Stat(fs, filePath) != Failure(ENOENT)
  }

  /** `CreateIfNotExists`. */
  function CreateIfNotExistsF(fs: Nodes, proc: Owner, dir: Path, perm: nat): (Nodes, Option<Errno>) {
    if Exists(fs, dir) then (fs, None) else AfterMkdirAll(fs, proc, dir, perm)
  }

  /** `Copy`: create or truncate the destination, open the source, copy its bytes. */
  function CopyF(fs: Nodes, proc: Owner, srcFile: Path, dstFile: Path): (Nodes, Option<FileCopyError>) {
    match AfterCreate(fs, proc, dstFile)
    case Failure(e) => (fs, Some(CreateFailed(e)))
    case Success((fs1, q)) =>
      match Open(fs1, srcFile)
      case Failure(e) => (fs1, Some(OpenFailed(e)))
      case Success(r) =>
        match ReadAll(fs1, r)
        case Failure(e) => (fs1, Some(ContentFailed(e)))
        case Success(data) => (fs1[q := File(fs1[q].meta, fs1[q].data + data)], None)
  }

  /** `CopySymLink`: a new link at `dest` with the text of the link `source`. */
  function CopySymLinkF(fs: Nodes, proc: Owner, source: Path, dest: Path): (Nodes, Option<LinkError>) {
    match Readlink(fs, source)
    case Failure(e) => (fs, Some(ReadlinkFailed(source, e)))
    case Success(link) =>
      match AfterSymlink(fs, proc, link, dest)
      case Failure(e) => (fs, Some(SymlinkFailed(e)))
      case Success(fs1) => (fs1, None)
  }

  /** What bounds the recursion: a directory path grows with each level until `stat` refuses it. */
  function Measure(p: Path): nat {
    if PathLength(p) < PATH_MAX then PATH_MAX - PathLength(p) else 0
  }

  /** `CopyDirectory`: list the source directory, then copy its entries in order. */
  function CopyDirectoryF(fs: Nodes, proc: Owner, srcDir: Path, dest: Path): Copied
    decreases Measure(srcDir), 2, 0
  {
    match ReadDir(fs, srcDir)
    case Failure(e) => Copied(fs, Some(ListFailed(srcDir, e)))
    case Success(entries) => CopyEntriesF(fs, proc, srcDir, dest, entries)
  }

  /** The loop over the entries: the first failure ends it. */
  function CopyEntriesF(fs: Nodes, proc: Owner, srcDir: Path, dest: Path, entries: seq<DirEntry>): Copied
    decreases Measure(srcDir), 1, |entries|
  {
    if entries == [] then Copied(fs, None)
    else
      var c := CopyEntryF(fs, proc, srcDir, dest, entries[0]);
      if c.err.Some? then c else CopyEntriesF(c.nodes, proc, srcDir, dest, entries[1..])
  }

  /** One entry: dispatch on what `stat` (links followed) reports, then give the copy the owner
      reported by `stat` and, unless the entry itself is a link, the entry's own mode. */
  function CopyEntryF(fs: Nodes, proc: Owner, srcDir: Path, dest: Path, entry: DirEntry): Copied
    decreases Measure(srcDir), 0, 1
  {
    var sourcePath := srcDir + [entry.name];
    match Stat(fs, sourcePath)
    case Failure(e) => Copied(fs, Some(StatFailed(sourcePath, e)))
    case Success(n) =>
      var c := CopyKindF(fs, proc, srcDir, dest, entry, n);
      if c.err.Some? then c else SetOwnerAndMode(c.nodes, entry, dest + [entry.name], n.meta)
  }

  /** The copy by kind of what `stat` reported: recursion for a directory, `CopySymLink` for a
      link, `Copy` for a file. */
  function CopyKindF(fs: Nodes, proc: Owner, srcDir: Path, dest: Path, entry: DirEntry, n: Node): Copied
    requires Stat(fs, srcDir + [entry.name]) == Success(n)
    decreases Measure(srcDir), 0, 0
  {
    var sourcePath := srcDir + [entry.name];
    var destPath := dest + [entry.name];
    match n
    case Dir(_, _) =>
      var (fs1, e1) := CreateIfNotExistsF(fs, proc, destPath, DIR_PERM);
      if e1.Some? then Copied(fs1, Some(CreateDirFailed(destPath, e1.value)))
      else
        PathLengthAppend(srcDir, entry.name);
        var r := CopyDirectoryF(fs1, proc, sourcePath, destPath);
        if r.err.Some? then Copied(r.nodes, Some(CopyDirFailed(r.err.value))) else r
    case Symlink(_, _) =>
      var (fs1, e1) := CopySymLinkF(fs, proc, sourcePath, destPath);
      if e1.Some? then Copied(fs1, Some(CopySymlinkFailed(e1.value))) else Copied(fs1, None)
    case File(_, _) =>
      var (fs1, e1) := CopyF(fs, proc, sourcePath, destPath);
      if e1.Some? then Copied(fs1, Some(CopyContentFailed(sourcePath, destPath, e1.value))) else Copied(fs1, None)
  }

  /** `os.Lchown` with the owner `stat` reported, then `os.Chmod` with the entry's mode unless
      the entry is a link. */
  function SetOwnerAndMode(fs: Nodes, entry: DirEntry, destPath: Path, stat: Meta): Copied {
    match AfterLchown(fs, destPath, stat.uid, stat.gid)
    case Failure(e) => Copied(fs, Some(LchownFailed(destPath, e)))
    case Success(fs1) =>
      if entry.info.Symlink? then Copied(fs1, None)
      else
        match AfterChmod(fs1, destPath, entry.info.meta.mode)
        case Failure(e) => Copied(fs1, Some(ChmodFailed(entry.name, destPath, e)))
        case Success(fs2) => Copied(fs2, None)
  }

  // ---------------------------------------------------------------------------------------
  // Properties

  /** The entries are copied in order and the first failure stops the loop: copying `es + more`
      is copying `es`, then, if that succeeded, `more` from where it left the filesystem. */
  lemma {:induction false} CopyEntriesThen(fs: Nodes, proc: Owner, srcDir: Path, dest: Path, es: seq<DirEntry>, more: seq<DirEntry>)
    ensures CopyEntriesF(fs, proc, srcDir, dest, es + more)
         == var r := CopyEntriesF(fs, proc, srcDir, dest, es);
            if r.err.Some? then r else CopyEntriesF(r.nodes, proc, srcDir, dest, more)
    decreases |es|
  {
    if es == [] {
      assert es + more == more;
    } else {
      assert (es + more)[0] == es[0] && (es + more)[1..] == es[1..] + more;
      var c := CopyEntryF(fs, proc, srcDir, dest, es[0]);
      if c.err.None? {
        CopyEntriesThen(c.nodes, proc, srcDir, dest, es[1..], more);
      }
    }
  }

  /** In a tree the `CopySymLink` branch is never taken: `stat` follows links, so an entry that
      is a link is copied as what it designates. */
  lemma SymlinkBranchUnreachable(fs: Nodes, proc: Owner, srcDir: Path, dest: Path, entry: DirEntry)
    requires Tree(fs)
    ensures var c := CopyEntryF(fs, proc, srcDir, dest, entry); !(c.err.Some? && c.err.value.CopySymlinkFailed?)
    ensures Stat(fs, srcDir + [entry.name]).Success? ==> !Stat(fs, srcDir + [entry.name]).value.Symlink?
  {
    if Stat(fs, srcDir + [entry.name]).Success? {
      StatNeverSymlink(fs, srcDir + [entry.name]);
    }
  }

  /** A link that designates itself makes `stat` fail with `ELOOP`, and so it exists. */
  lemma {:induction false} SelfLinkLoops(fs: Nodes, name: Name, m: Meta, hops: nat)
    requires name != "." && name != ".."
    requires [name] in fs && fs[[name]] == Node.Symlink(m, Target(true, [name]))
    ensures Res(fs, [], [name], true, hops) == Failure(ELOOP)
  {
    assert [] + [name] == [name];
    if hops > 0 {
      assert [name] + [name][1..] == [name];
      SelfLinkLoops(fs, name, m, hops - 1);
    }
  }

  lemma SelfLinkExists(fs: Nodes, name: Name, m: Meta)
    requires name != "." && name != ".." && 1 + |name| < PATH_MAX
    requires [name] in fs && fs[[name]] == Node.Symlink(m, Target(true, [name]))
    ensures Stat(fs, [name]) == Failure(ELOOP) && Exists(fs, [name])
  {
    assert [name][..0] == [];
    assert PathLength([name]) == 1 + |name|;
    SelfLinkLoops(fs, name, m, MAX_SYMLINKS);
    assert Lookup(fs, [name], true) == Failure(ELOOP);
  }

  lemma GrowsTransitive(fs1: Nodes, fs2: Nodes, fs3: Nodes)
    requires Grows(fs1, fs2) && Grows(fs2, fs3)
    ensures Grows(fs1, fs3)
  {
  }

  /** After a successful `MkdirAll` the path is a directory. */
  lemma MkdirAllMakesDir(fs: Nodes, proc: Owner, p: Path, perm: nat)
    requires AfterMkdirAll(fs, proc, p, perm).1 == None
    ensures var fs1 := AfterMkdirAll(fs, proc, p, perm).0; Stat(fs1, p).Success? && Stat(fs1, p).value.Dir?
  {
    if Stat(fs, p).Failure? {
      var (fs1, err1) := if |p| > 1 then AfterMkdirAll(fs, proc, p[..|p| - 1], perm) else (fs, None);
      match AfterMkdir(fs1, proc, p, perm)
      case Success(fs2) =>
        var l := Lookup(fs1, p, false).value;
        var n := Dir(Meta(proc.uid, proc.gid, perm), []);
        AddChildGrows(fs1, l.parent, l.name, n);
        ResGrows(fs1, fs2, [], p, false, true, MAX_SYMLINKS);
      case Failure(_) =>
        ResFollowIrrelevant(fs1, [], p, MAX_SYMLINKS);
    }
  }

  /** `CreateIfNotExists` is idempotent: once it has succeeded, calling it again changes nothing. */
  lemma CreateIfNotExistsIdempotent(fs: Nodes, proc: Owner, dir: Path, perm: nat)
    requires CreateIfNotExistsF(fs, proc, dir, perm).1 == None
    ensures var fs1 := CreateIfNotExistsF(fs, proc, dir, perm).0;
      CreateIfNotExistsF(fs1, proc, dir, perm) == (fs1, None)
  {
    if !Exists(fs, dir) {
      MkdirAllMakesDir(fs, proc, dir, perm);
    }
  }

  /** Where `Copy`'s destination resolves to once created, and the state after creation. */
  lemma CreateResolves(fs: Nodes, proc: Owner, dstFile: Path)
    requires Tree(fs)
    requires AfterCreate(fs, proc, dstFile).Success?
    ensures var (fs1, q) := AfterCreate(fs, proc, dstFile).value;
      && Grows(fs, fs1)
      && q == Location(Lookup(fs, dstFile, true).value)
  {
    var l := Lookup(fs, dstFile, true).value;
    if l.Absent? {
      AddChildGrows(fs, l.parent, l.name, File(Meta(proc.uid, proc.gid, CREATE_PERM), []));
    } else {
      ResFollowedNoLink(fs, [], dstFile, MAX_SYMLINKS);
      ReplaceGrows(fs, l.path, File(fs[l.path].meta, []));
    }
  }

  /** After a successful `Copy` the destination holds exactly the bytes read from the source;
      these are the source's original bytes unless source and destination are the same file,
      which the truncation has then emptied. */
  lemma CopyByteIdentical(fs: Nodes, proc: Owner, srcFile: Path, dstFile: Path)
    requires Tree(fs)
    requires CopyF(fs, proc, srcFile, dstFile).1 == None
    ensures var fs1 := AfterCreate(fs, proc, dstFile).value.0;
      Contents(CopyF(fs, proc, srcFile, dstFile).0, dstFile) == Contents(fs1, srcFile)
    ensures var q := Location(Lookup(fs, dstFile, true).value);
      Open(fs, srcFile).Success? && Open(fs, srcFile).value != q ==>
        Contents(CopyF(fs, proc, srcFile, dstFile).0, dstFile) == Contents(fs, srcFile)
    ensures var q := Location(Lookup(fs, dstFile, true).value);
      Open(fs, srcFile) == Success(q) ==> Contents(CopyF(fs, proc, srcFile, dstFile).0, dstFile) == Success([])
  {
    var (fs1, q) := AfterCreate(fs, proc, dstFile).value;
    CreateResolves(fs, proc, dstFile);
    var r := Open(fs1, srcFile).value;
    var data := ReadAll(fs1, r).value;
    var fs2 := fs1[q := File(fs1[q].meta, fs1[q].data + data)];
    ReplaceGrows(fs1, q, fs2[q]);
    GrowsTransitive(fs, fs1, fs2);
    ResGrows(fs, fs2, [], dstFile, true, true, MAX_SYMLINKS);
    assert Open(fs2, dstFile) == Success(q);
    assert fs2[q].data == data;
    if Open(fs, srcFile).Success? {
      ResGrows(fs, fs1, [], srcFile, true, true, MAX_SYMLINKS);
      assert Open(fs1, srcFile) == Open(fs, srcFile);
    }
  }

  /** `CopySymLink` makes a link whose text is that of the source link. */
  lemma CopySymLinkSameTarget(fs: Nodes, proc: Owner, source: Path, dest: Path)
    requires CopySymLinkF(fs, proc, source, dest).1 == None
    ensures Readlink(CopySymLinkF(fs, proc, source, dest).0, dest) == Readlink(fs, source)
  {
    var link := Readlink(fs, source).value;
    var l := Lookup(fs, dest, false).value;
    var fs1 := AfterSymlink(fs, proc, link, dest).value;
    AddChildGrows(fs, l.parent, l.name, Node.Symlink(Meta(proc.uid, proc.gid, LINK_PERM), link));
    ResGrows(fs, fs1, [], dest, false, false, MAX_SYMLINKS);
  }

  /** `Copy` of a regular file to a missing destination: a new file owned by the process, mode
      0666, holding the source's bytes. */
  lemma CopyIntoFresh(fs: Nodes, proc: Owner, srcFile: Path, dstFile: Path, m: Meta, data: seq<byte>)
    requires Stat(fs, srcFile) == Success(File(m, data))
    requires Lookup(fs, dstFile, false).Success? && Lookup(fs, dstFile, false).value.Absent?
    requires var l := Lookup(fs, dstFile, false).value; l.parent in fs && fs[l.parent].Dir?
    ensures var q := Location(Lookup(fs, dstFile, false).value); var (fs2, err) := CopyF(fs, proc, srcFile, dstFile);
      && err == None && Grows(fs, fs2)
      && q in fs2 && fs2[q] == File(Meta(proc.uid, proc.gid, CREATE_PERM), data)
  {
    var l := Lookup(fs, dstFile, false).value;
    ResFollowIrrelevant(fs, [], dstFile, MAX_SYMLINKS);
    var q := Location(l);
    var n := File(Meta(proc.uid, proc.gid, CREATE_PERM), []);
    var fs1 := AddChild(fs, l.parent, l.name, n);
    AddChildGrows(fs, l.parent, l.name, n);
    assert AfterCreate(fs, proc, dstFile) == Success((fs1, q));
    ResGrows(fs, fs1, [], srcFile, true, true, MAX_SYMLINKS);
    var r := Lookup(fs, srcFile, true).value.path;
    assert Open(fs1, srcFile) == Success(r);
    assert fs1[r] == fs[r] == File(m, data);
    assert ReadAll(fs1, r) == Success(data);
    assert fs1[q] == n && n.data + data == data;
    var fs2 := fs1[q := File(n.meta, data)];
    assert CopyF(fs, proc, srcFile, dstFile) == (fs2, None);
    ReplaceGrows(fs1, q, File(n.meta, data));
    GrowsTransitive(fs, fs1, fs2);
  }

  /** After a grown tree has filled a missing destination with a regular file, `Lchown` and
      `Chmod` set the owner reported by `stat` and the entry's own mode, except that a link
      entry keeps the file's mode. */
  lemma OwnerAndModeFresh(fs: Nodes, fs2: Nodes, entry: DirEntry, destPath: Path, stat: Meta, mode: nat, data: seq<byte>)
    requires Lookup(fs, destPath, false).Success? && Lookup(fs, destPath, false).value.Absent?
    requires Grows(fs, fs2)
    requires var q := Location(Lookup(fs, destPath, false).value); q in fs2 && fs2[q] == File(Meta(fs2[q].meta.uid, fs2[q].meta.gid, mode), data)
    ensures var q := Location(Lookup(fs, destPath, false).value); var c := SetOwnerAndMode(fs2, entry, destPath, stat);
      && c.err == None && q in c.nodes
      && c.nodes[q] == File(Meta(stat.uid, stat.gid, if entry.info.Symlink? then mode else entry.info.meta.mode), data)
  {
    var q := Location(Lookup(fs, destPath, false).value);
    ResGrows(fs, fs2, [], destPath, false, false, MAX_SYMLINKS);
    var fs3 := fs2[q := File(Meta(stat.uid, stat.gid, mode), data)];
    assert AfterLchown(fs2, destPath, stat.uid, stat.gid) == Success(fs3);
    if !entry.info.Symlink? {
      ReplaceGrows(fs2, q, fs3[q]);
      GrowsTransitive(fs, fs2, fs3);
      ResGrows(fs, fs3, [], destPath, false, true, MAX_SYMLINKS);
    }
  }

  /** A source entry that `stat` cannot resolve, such as a dangling link or a link loop, stops
      the copy with the filesystem unchanged. */
  lemma StatFailureStops(fs: Nodes, proc: Owner, srcDir: Path, dest: Path, entry: DirEntry)
    requires Stat(fs, srcDir + [entry.name]).Failure?
    ensures CopyEntryF(fs, proc, srcDir, dest, entry)
         == Copied(fs, Some(StatFailed(srcDir + [entry.name], Stat(fs, srcDir + [entry.name]).error)))
  {
  }

  /** An entry that `stat` reports as a directory, a link to one included, copied without error
      into a destination that was missing or a directory: the destination is a directory in the
      resulting tree, which has lost no node of the original. */
  lemma DirectoryEntryRecurses(fs: Nodes, proc: Owner, srcDir: Path, dest: Path, entry: DirEntry)
    requires Tree(fs)
    requires Stat(fs, srcDir + [entry.name]).Success? && Stat(fs, srcDir + [entry.name]).value.Dir?
    requires CopyEntryF(fs, proc, srcDir, dest, entry).err == None
    ensures var c := CopyEntryF(fs, proc, srcDir, dest, entry).nodes;
      && Tree(c) && Grows(fs, c)
      && (!Exists(fs, dest + [entry.name]) || (Stat(fs, dest + [entry.name]).Success? && Stat(fs, dest + [entry.name]).value.Dir?) ==>
            Stat(c, dest + [entry.name]).Success? && Stat(c, dest + [entry.name]).value.Dir?)
  {
    var sourcePath := srcDir + [entry.name];
    var destPath := dest + [entry.name];
    var n := Stat(fs, sourcePath).value;
    CopyEntryKeeps(fs, proc, srcDir, dest, entry);
    var (fs1, e1) := CreateIfNotExistsF(fs, proc, destPath, DIR_PERM);
    if !Exists(fs, destPath) {
      MkdirAllMakesDir(fs, proc, destPath, DIR_PERM);
      MkdirAllKeeps(fs, proc, destPath, DIR_PERM);
    }
    if Stat(fs1, destPath).Success? && Stat(fs1, destPath).value.Dir? {
      PathLengthAppend(srcDir, entry.name);
      var r := CopyDirectoryF(fs1, proc, sourcePath, destPath);
      CopyDirectoryKeeps(fs1, proc, sourcePath, destPath);
      StatGrows(fs1, r.nodes, destPath);
      SetOwnerAndModeKeeps(r.nodes, entry, destPath, n.meta);
      StatGrows(r.nodes, SetOwnerAndMode(r.nodes, entry, destPath, n.meta).nodes, destPath);
    }
  }

  /** A regular file, or a link to one, copied to a missing destination: the copy holds the
      bytes of the file, the owner and group `stat` reports, and the entry's mode, or, for a
      link, the mode 0666 it was created with, since links are not chmod-ed. */
  lemma CopyEntryFreshFile(fs: Nodes, proc: Owner, srcDir: Path, dest: Path, entry: DirEntry, m: Meta, data: seq<byte>)
    requires Stat(fs, srcDir + [entry.name]) == Success(File(m, data))
    requires var l := Lookup(fs, dest + [entry.name], false);
      l.Success? && l.value.Absent? && l.value.parent in fs && fs[l.value.parent].Dir?
    ensures var q := Location(Lookup(fs, dest + [entry.name], false).value); var c := CopyEntryF(fs, proc, srcDir, dest, entry);
      && c.err == None && q in c.nodes
      && c.nodes[q] == File(Meta(m.uid, m.gid, if entry.info.Symlink? then CREATE_PERM else entry.info.meta.mode), data)
  {
    var sourcePath := srcDir + [entry.name];
    var destPath := dest + [entry.name];
    CopyIntoFresh(fs, proc, sourcePath, destPath, m, data);
    var fs2 := CopyF(fs, proc, sourcePath, destPath).0;
    OwnerAndModeFresh(fs, fs2, entry, destPath, m, CREATE_PERM, data);
  }

  /** The owner and mode of any entry copied without error: the copy, seen without following a
      final link, has the owner and group `stat` reported for the source; unless the entry is a
      link, what it designates has the entry's mode. */
  lemma CopyEntrySetsOwnerAndMode(fs: Nodes, proc: Owner, srcDir: Path, dest: Path, entry: DirEntry)
    requires CopyEntryF(fs, proc, srcDir, dest, entry).err == None
    ensures Stat(fs, srcDir + [entry.name]).Success?
    ensures var m := Stat(fs, srcDir + [entry.name]).value.meta;
      var c := CopyEntryF(fs, proc, srcDir, dest, entry).nodes; var d := dest + [entry.name];
      && Lstat(c, d).Success? && Lstat(c, d).value.meta.uid == m.uid && Lstat(c, d).value.meta.gid == m.gid
      && (!entry.info.Symlink? ==> Stat(c, d).Success? && Stat(c, d).value.meta.mode == entry.info.meta.mode)
  {
    var n := Stat(fs, srcDir + [entry.name]).value;
    var c := CopyKindF(fs, proc, srcDir, dest, entry, n);
    SetOwnerAndModeSets(c.nodes, entry, dest + [entry.name], n.meta);
  }

  /** `Lchown` then `Chmod`, when both succeed, on any tree: the node the destination names has the
      owner and group given, and, unless the entry is a link, the node it designates has the
      entry's mode; no node changes kind. */
  lemma SetOwnerAndModeSets(fs: Nodes, entry: DirEntry, destPath: Path, stat: Meta)
    requires SetOwnerAndMode(fs, entry, destPath, stat).err == None
    ensures var c := SetOwnerAndMode(fs, entry, destPath, stat).nodes;
      && Grows(fs, c)
      && Lstat(c, destPath).Success?
      && Lstat(c, destPath).value.meta.uid == stat.uid && Lstat(c, destPath).value.meta.gid == stat.gid
      && (!entry.info.Symlink? ==> Stat(c, destPath).Success? && Stat(c, destPath).value.meta.mode == entry.info.meta.mode)
  {
    var q1 := Lookup(fs, destPath, false).value.path;
    var fs1 := AfterLchown(fs, destPath, stat.uid, stat.gid).value;
    ReplaceGrows(fs, q1, fs1[q1]);
    ResGrows(fs, fs1, [], destPath, false, false, MAX_SYMLINKS);
    if !entry.info.Symlink? {
      var q2 := Lookup(fs1, destPath, true).value.path;
      var fs2 := AfterChmod(fs1, destPath, entry.info.meta.mode).value;
      ReplaceGrows(fs1, q2, fs2[q2]);
      ResGrows(fs1, fs2, [], destPath, false, false, MAX_SYMLINKS);
      ResGrows(fs1, fs2, [], destPath, true, true, MAX_SYMLINKS);
      GrowsTransitive(fs, fs1, fs2);
    }
  }

  /** `Lchown` and `Chmod`, whatever their outcome, keep the tree well formed and change no kind. */
  lemma SetOwnerAndModeKeeps(fs: Nodes, entry: DirEntry, destPath: Path, stat: Meta)
    requires Tree(fs)
    ensures var c := SetOwnerAndMode(fs, entry, destPath, stat).nodes; Tree(c) && Grows(fs, c)
  {
    match AfterLchown(fs, destPath, stat.uid, stat.gid)
    case Failure(_) =>
    case Success(fs1) =>
      var q1 := Lookup(fs, destPath, false).value.path;
      ReplaceGrows(fs, q1, fs1[q1]);
      ReplaceTree(fs, q1, fs1[q1]);
      if !entry.info.Symlink? {
        match AfterChmod(fs1, destPath, entry.info.meta.mode)
        case Failure(_) =>
        case Success(fs2) =>
          var q2 := Lookup(fs1, destPath, true).value.path;
          ReplaceGrows(fs1, q2, fs2[q2]);
          ReplaceTree(fs1, q2, fs2[q2]);
          GrowsTransitive(fs, fs1, fs2);
      }
  }

  /** `os.MkdirAll`, whatever its outcome, only adds directories to a well-formed tree. */
  lemma MkdirAllKeeps(fs: Nodes, proc: Owner, p: Path, perm: nat)
    requires Tree(fs)
    ensures var fs2 := AfterMkdirAll(fs, proc, p, perm).0; Tree(fs2) && Grows(fs, fs2)
    decreases |p|
  {
    if Stat(fs, p).Failure? {
      if |p| > 1 {
        MkdirAllKeeps(fs, proc, p[..|p| - 1], perm);
      }
      var (fs1, err1) := if |p| > 1 then AfterMkdirAll(fs, proc, p[..|p| - 1], perm) else (fs, None);
      if err1.None? {
        match AfterMkdir(fs1, proc, p, perm)
        case Success(fs2) =>
          var l := Lookup(fs1, p, false).value;
          var n := Dir(Meta(proc.uid, proc.gid, perm), []);
          AddChildGrows(fs1, l.parent, l.name, n);
          AddChildTree(fs1, l.parent, l.name, n);
          GrowsTransitive(fs, fs1, fs2);
        case Failure(_) =>
      }
    }
  }

  /** `Copy`, whatever its outcome, keeps a well-formed tree and changes no kind. */
  lemma CopyKeeps(fs: Nodes, proc: Owner, srcFile: Path, dstFile: Path)
    requires Tree(fs)
    ensures var fs2 := CopyF(fs, proc, srcFile, dstFile).0; Tree(fs2) && Grows(fs, fs2)
  {
    match AfterCreate(fs, proc, dstFile)
    case Failure(_) =>
    case Success((fs1, q)) =>
      CreateResolves(fs, proc, dstFile);
      var l := Lookup(fs, dstFile, true).value;
      if l.Absent? {
        AddChildTree(fs, l.parent, l.name, File(Meta(proc.uid, proc.gid, CREATE_PERM), []));
      } else {
        ReplaceTree(fs, l.path, File(fs[l.path].meta, []));
      }
      match Open(fs1, srcFile)
      case Failure(_) =>
      case Success(r) =>
        match ReadAll(fs1, r)
        case Failure(_) =>
        case Success(data) =>
          var n := File(fs1[q].meta, fs1[q].data + data);
          ReplaceGrows(fs1, q, n);
          ReplaceTree(fs1, q, n);
          GrowsTransitive(fs, fs1, fs1[q := n]);
  }

  /** `CopySymLink`, whatever its outcome, keeps a well-formed tree and changes no kind. */
  lemma CopySymLinkKeeps(fs: Nodes, proc: Owner, source: Path, dest: Path)
    requires Tree(fs)
    ensures var fs2 := CopySymLinkF(fs, proc, source, dest).0; Tree(fs2) && Grows(fs, fs2)
  {
    match Readlink(fs, source)
    case Failure(_) =>
    case Success(link) =>
      match AfterSymlink(fs, proc, link, dest)
      case Failure(_) =>
      case Success(fs1) =>
        var l := Lookup(fs, dest, false).value;
        var n := Node.Symlink(Meta(proc.uid, proc.gid, LINK_PERM), link);
        AddChildGrows(fs, l.parent, l.name, n);
        AddChildTree(fs, l.parent, l.name, n);
  }

  /** `CopyDirectory`, whatever its outcome, keeps a well-formed tree and removes no node, changes
      no node's kind and no link's text: a copy only adds nodes and rewrites contents, owners and
      modes. */
  lemma CopyDirectoryKeeps(fs: Nodes, proc: Owner, srcDir: Path, dest: Path)
    requires Tree(fs)
    ensures var c := CopyDirectoryF(fs, proc, srcDir, dest).nodes; Tree(c) && Grows(fs, c)
    decreases Measure(srcDir), 2, 0
  {
    match ReadDir(fs, srcDir)
    case Failure(_) =>
    case Success(entries) => CopyEntriesKeeps(fs, proc, srcDir, dest, entries);
  }

  lemma CopyEntriesKeeps(fs: Nodes, proc: Owner, srcDir: Path, dest: Path, entries: seq<DirEntry>)
    requires Tree(fs)
    ensures var c := CopyEntriesF(fs, proc, srcDir, dest, entries).nodes; Tree(c) && Grows(fs, c)
    decreases Measure(srcDir), 1, |entries|
  {
    if entries != [] {
      CopyEntryKeeps(fs, proc, srcDir, dest, entries[0]);
      var c := CopyEntryF(fs, proc, srcDir, dest, entries[0]);
      if c.err.None? {
        CopyEntriesKeeps(c.nodes, proc, srcDir, dest, entries[1..]);
        GrowsTransitive(fs, c.nodes, CopyEntriesF(c.nodes, proc, srcDir, dest, entries[1..]).nodes);
      }
    }
  }

  lemma CopyEntryKeeps(fs: Nodes, proc: Owner, srcDir: Path, dest: Path, entry: DirEntry)
    requires Tree(fs)
    ensures var c := CopyEntryF(fs, proc, srcDir, dest, entry).nodes; Tree(c) && Grows(fs, c)
    decreases Measure(srcDir), 0, 1
  {
    match Stat(fs, srcDir + [entry.name])
    case Failure(_) =>
    case Success(n) =>
      CopyKindKeeps(fs, proc, srcDir, dest, entry, n);
      var c := CopyKindF(fs, proc, srcDir, dest, entry, n);
      if c.err.None? {
        SetOwnerAndModeKeeps(c.nodes, entry, dest + [entry.name], n.meta);
        GrowsTransitive(fs, c.nodes, SetOwnerAndMode(c.nodes, entry, dest + [entry.name], n.meta).nodes);
      }
  }

  lemma CopyKindKeeps(fs: Nodes, proc: Owner, srcDir: Path, dest: Path, entry: DirEntry, n: Node)
    requires Tree(fs)
    requires Stat(fs, srcDir + [entry.name]) == Success(n)
    ensures var c := CopyKindF(fs, proc, srcDir, dest, entry, n).nodes; Tree(c) && Grows(fs, c)
    decreases Measure(srcDir), 0, 0
  {
    var sourcePath := srcDir + [entry.name];
    var destPath := dest + [entry.name];
    match n
    case Dir(_, _) =>
      if !Exists(fs, destPath) {
        MkdirAllKeeps(fs, proc, destPath, DIR_PERM);
      }
      var (fs1, e1) := CreateIfNotExistsF(fs, proc, destPath, DIR_PERM);
      if e1.None? {
        PathLengthAppend(srcDir, entry.name);
        CopyDirectoryKeeps(fs1, proc, sourcePath, destPath);
        GrowsTransitive(fs, fs1, CopyDirectoryF(fs1, proc, sourcePath, destPath).nodes);
      }
    case Symlink(_, _) => CopySymLinkKeeps(fs, proc, sourcePath, destPath);
    case File(_, _) => CopyKeeps(fs, proc, sourcePath, destPath);
  }

  // ---------------------------------------------------------------------------------------
  // The Go functions, over the mutable filesystem

  method CreateIfNotExists(fs: FileSystem, dir: Path, perm: nat) returns (err: Option<Errno>)
    requires fs.Valid()
    modifies fs
    ensures fs.Valid()
    ensures (fs.nodes, err) == CreateIfNotExistsF(old(fs.nodes), fs.proc, dir, perm)
  {
    if Exists(fs.nodes, dir) {
      return None;
    }
    err := fs.MkdirAll(dir, perm);
  }

  method Copy(fs: FileSystem, srcFile: Path, dstFile: Path) returns (err: Option<FileCopyError>)
    requires fs.Valid()
    modifies fs
    ensures fs.Valid()
    ensures (fs.nodes, err) == CopyF(old(fs.nodes), fs.proc, srcFile, dstFile)
  {
    var out := fs.Create(dstFile);
    if out.Failure? {
      return Some(CreateFailed(out.error));
    }
    var source := Open(fs.nodes, srcFile);
    if source.Failure? {
      return Some(OpenFailed(source.error));
    }
    var data := ReadAll(fs.nodes, source.value);
    if data.Failure? {
      return Some(ContentFailed(data.error));
    }
    fs.Write(out.value, data.value);
    return None;
  }

  method CopySymLink(fs: FileSystem, source: Path, dest: Path) returns (err: Option<LinkError>)
    requires fs.Valid()
    modifies fs
    ensures fs.Valid()
    ensures (fs.nodes, err) == CopySymLinkF(old(fs.nodes), fs.proc, source, dest)
  {
    var link := Readlink(fs.nodes, source);
    if link.Failure? {
      return Some(ReadlinkFailed(source, link.error));
    }
    var e := fs.Symlink(link.value, dest);
    if e.Some? {
      return Some(SymlinkFailed(e.value));
    }
    return None;
  }

  method CopyDirectory(fs: FileSystem, srcDir: Path, dest: Path) returns (err: Option<CopyError>)
    requires fs.Valid()
    modifies fs
    ensures fs.Valid()
    ensures Copied(fs.nodes, err) == CopyDirectoryF(old(fs.nodes), fs.proc, srcDir, dest)
    decreases Measure(srcDir), 1
  {
    var entries := ReadDir(fs.nodes, srcDir);
    if entries.Failure? {
      return Some(ListFailed(srcDir, entries.error));
    }
    var es := entries.value;
    var i := 0;
    assert es[0..] == es;
    while i < |es|
      invariant 0 <= i <= |es|
      invariant fs.Valid()
      invariant CopyDirectoryF(old(fs.nodes), fs.proc, srcDir, dest) == CopyEntriesF(fs.nodes, fs.proc, srcDir, dest, es[i..])
    {
      assert es[i..][0] == es[i] && es[i..][1..] == es[i + 1..];
      err := CopyEntry(fs, srcDir, dest, es[i]);
      if err.Some? {
        return;
      }
      i := i + 1;
    }
    return None;
  }

  /** The body of the loop over the entries. */
  method CopyEntry(fs: FileSystem, srcDir: Path, dest: Path, entry: DirEntry) returns (err: Option<CopyError>)
    requires fs.Valid()
    modifies fs
    ensures fs.Valid()
    ensures Copied(fs.nodes, err) == CopyEntryF(old(fs.nodes), fs.proc, srcDir, dest, entry)
    decreases Measure(srcDir), 0
  {
    var sourcePath := srcDir + [entry.name];
    var destPath := dest + [entry.name];
    var fileInfo := Stat(fs.nodes, sourcePath);
    if fileInfo.Failure? {
      return Some(StatFailed(sourcePath, fileInfo.error));
    }
    var stat := fileInfo.value.meta;
    match fileInfo.value {
      case Dir(_, _) =>
        var e := CreateIfNotExists(fs, destPath, DIR_PERM);
        if e.Some? {
          return Some(CreateDirFailed(destPath, e.value));
        }
        PathLengthAppend(srcDir, entry.name);
        var e2 := CopyDirectory(fs, sourcePath, destPath);
        if e2.Some? {
          return Some(CopyDirFailed(e2.value));
        }
      case Symlink(_, _) =>
        var e := CopySymLink(fs, sourcePath, destPath);
        if e.Some? {
          return Some(CopySymlinkFailed(e.value));
        }
      case File(_, _) =>
        var e := Copy(fs, sourcePath, destPath);
        if e.Some? {
          return Some(CopyContentFailed(sourcePath, destPath, e.value));
        }
    }
    err := ChownAndChmod(fs, entry, destPath, stat);
  }

  /** The end of the loop body: owner from `stat`, then the entry's mode unless it is a link. */
  method ChownAndChmod(fs: FileSystem, entry: DirEntry, destPath: Path, stat: Meta) returns (err: Option<CopyError>)
    requires fs.Valid()
    modifies fs
    ensures fs.Valid()
    ensures Copied(fs.nodes, err) == SetOwnerAndMode(old(fs.nodes), entry, destPath, stat)
  {
    var e := fs.Lchown(destPath, stat.uid, stat.gid);
    if e.Some? {
      return Some(LchownFailed(destPath, e.value));
    }
    if !entry.info.Symlink? {
      e := fs.Chmod(destPath, entry.info.meta.mode);
      if e.Some? {
        return Some(ChmodFailed(entry.name, destPath, e.value));
      }
    }
    return None;
  }
}
