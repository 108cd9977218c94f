/** The directory tree: create_file_or_directory and delete_file_or_directory (fs/inode.c). */
module FsTree {
  import opened Basics
  import Bitmaps
  import opened FsFormat
  import opened FsVolume
  import opened FsStore
  import opened FsInode
  import opened FsEntries
  import opened FsDirectory
  import opened FsPaths

  // ---- volumes ----

  /** What the operations on a store start from and end in. */
  datatype Vol = Vol(d: Disk, files: Files, open: seq<InCore>)

  ghost function Now(fs: FileStore): Vol
    reads fs`disk, fs`files, fs`open
  {
    Vol(fs.disk, fs.files, fs.open)
  }

  ghost predicate IsDirectory(v: Vol, no: nat) {
    no in v.files && v.files[no].ftype == FT_DIRECTORY
  }

  ghost function EntriesOf(v: Vol, no: nat): seq<Entry> {
    if no in v.files then DirEntries(v.d, v.files[no]) else []
  }

  /** Entry `i` of directory `dir` refers to inode `n`. */
  ghost predicate Refers(v: Vol, dir: nat, i: nat, n: nat) {
    && IsDirectory(v, dir) && i < |EntriesOf(v, dir)|
    && Live(EntriesOf(v, dir)[i]) && EntriesOf(v, dir)[i].ino == n
  }

  /** No inode but the root has two names. */
  ghost predicate OneName(v: Vol) {
    forall a, i, b, j, n :: n != 0 && Refers(v, a, i, n) && Refers(v, b, j, n) ==> a == b && i == j
  }

  /** All directories are finite maps, every name in them refers to a file that exists, and no file but the root
      has two names. */
  ghost predicate TreeOk(v: Vol) {
    AllDirsOk(v.d, v.files) && OneName(v) && IsDirectory(v, 0)
  }

  // ---- what stays ----

  ghost predicate DirShape(d: Disk, m: Meta) {
    ShapeOk(m) && Whole(Content(d, m))
  }

  /** A directory keeps its entries, any other file its size and bytes. */
  ghost predicate SameItem(d0: Disk, m0: Meta, d: Disk, m: Meta) {
    && m.ftype == m0.ftype
    && if m0.ftype == FT_DIRECTORY
       then DirShape(d0, m0) ==> DirShape(d, m) && DirEntries(d, m) == DirEntries(d0, m0)
       else m.size == m0.size && (ShapeOk(m0) ==> ShapeOk(m) && Content(d, m) == Content(d0, m0))
  }

  ghost predicate Kept(a: Vol, b: Vol, ns: set<nat>) {
    forall n :: n in ns ==> n in a.files && n in b.files && SameItem(a.d, a.files[n], b.d, b.files[n])
  }

  lemma ItemFromBytes(d0: Disk, m0: Meta, d: Disk, m: Meta)
    requires SameBytes(d0, m0, d, m)
    ensures SameItem(d0, m0, d, m)
  {
    hide ShapeOk, Content, Entries;
  }

  lemma KeptTrans(a: Vol, b: Vol, c: Vol, ns: set<nat>, ms: set<nat>)
    requires Kept(a, b, ns) && Kept(b, c, ms) && ns <= ms
    ensures Kept(a, c, ns)
  {
    hide DirShape, DirEntries, ShapeOk, Content;
    forall n | n in ns ensures SameItem(a.d, a.files[n], c.d, c.files[n]) {
      assert SameItem(a.d, a.files[n], b.d, b.files[n]) && SameItem(b.d, b.files[n], c.d, c.files[n]);
    }
  }

  lemma KeptLess(a: Vol, b: Vol, ns: set<nat>, ms: set<nat>)
    requires Kept(a, b, ns) && ms <= ns
    ensures Kept(a, b, ms)
  {
    hide SameItem;
  }

  lemma KeptAlloc(a: Vol, b: Vol, no: nat, m: Meta)
    requires BytesKept(a.d, b.d, a.files) && no !in a.files && b.files == a.files[no := m]
    ensures Kept(a, b, a.files.Keys)
  {
    hide ShapeOk, Content, SameItem;
    forall n | n in a.files ensures SameItem(a.d, a.files[n], b.d, b.files[n]) {
      ItemFromBytes(a.d, a.files[n], b.d, b.files[n]);
    }
  }

  lemma KeptSame(a: Vol, b: Vol)
    requires a.d == b.d && SameFiles(a.d, a.files, b.files)
    ensures Kept(a, b, a.files.Keys) && b.files.Keys == a.files.Keys
  {
    hide ShapeOk, Content, SameItem;
    forall n | n in a.files ensures SameItem(a.d, a.files[n], b.d, b.files[n]) {
      assert SameFile(a.d, a.files[n], b.files[n]);
      ItemFromBytes(a.d, a.files[n], b.d, b.files[n]);
    }
  }

  lemma KeptElsewhere(a: Vol, b: Vol, p: nat)
    requires Elsewhere(p, a.d, a.files, a.open, b.d, b.files, b.open)
    ensures Kept(a, b, a.files.Keys - {p}) && b.files.Keys == a.files.Keys
  {
    hide ShapeOk, Content, SameItem, Count;
    forall n | n in a.files && n != p ensures SameItem(a.d, a.files[n], b.d, b.files[n]) {
      ItemFromBytes(a.d, a.files[n], b.d, b.files[n]);
    }
  }

  lemma KeptFree(a: Vol, b: Vol, no: nat)
    requires b.files == a.files - {no} && BytesKept(a.d, b.d, b.files)
    ensures Kept(a, b, a.files.Keys - {no}) && b.files.Keys == a.files.Keys - {no}
  {
    hide ShapeOk, Content, SameItem;
    forall n | n in b.files ensures SameItem(a.d, a.files[n], b.d, b.files[n]) {
      ItemFromBytes(a.d, a.files[n], b.d, b.files[n]);
    }
  }

  /** A directory that is kept is the same map, and its entries refer to what they referred to. */
  lemma KeptDir(a: Vol, b: Vol, ns: set<nat>, n: nat)
    requires Kept(a, b, ns) && n in ns && n in a.files && IsDir(a.d, a.files, n)
    ensures IsDir(b.d, b.files, n) && EntriesOf(b, n) == EntriesOf(a, n) && IsDirectory(b, n)
  {
    hide Content, Tidy, Entries;
    assert SameItem(a.d, a.files[n], b.d, b.files[n]);
  }

  lemma KeptRefers(a: Vol, b: Vol, ns: set<nat>, dir: nat, i: nat, n: nat)
    requires Kept(a, b, ns) && dir in ns && dir in a.files && AllDirsOk(a.d, a.files)
    ensures Refers(b, dir, i, n) <==> Refers(a, dir, i, n)
  {
    hide ShapeOk, Content, EntriesOf, IsDir, NoDangling;
    assert SameItem(a.d, a.files[dir], b.d, b.files[dir]);
    if IsDirectory(a, dir) {
      assert DirOk(a.d, a.files, dir);
      KeptDir(a, b, ns, dir);
    }
  }

  lemma KeptIsDirectory(a: Vol, b: Vol, ns: set<nat>, n: nat)
    requires Kept(a, b, ns) && n in ns
    ensures IsDirectory(b, n) <==> IsDirectory(a, n)
  {
    hide DirShape, DirEntries, ShapeOk, Content;
  }

  lemma DirOkIs(v: Vol, n: nat)
    requires AllDirsOk(v.d, v.files) && IsDirectory(v, n)
    ensures DirOk(v.d, v.files, n) && IsDir(v.d, v.files, n) && Tidy(EntriesOf(v, n)) && NoDangling(EntriesOf(v, n), v.files)
    ensures EntriesOf(v, n) == DirEntries(v.d, v.files[n])
  {
    hide Content, Tidy, Entries;
  }

  lemma IsDirOk(v: Vol, n: nat)
    requires IsDir(v.d, v.files, n) && NoDangling(EntriesOf(v, n), v.files)
    ensures DirOk(v.d, v.files, n)
  {
    hide Content, Tidy, Entries;
  }

  /** Entries of a good directory refer to files. */
  lemma RefersToFile(v: Vol, dir: nat, i: nat, n: nat)
    requires AllDirsOk(v.d, v.files) && Refers(v, dir, i, n)
    ensures n in v.files
  {
    DirOkIs(v, dir);
    hide AllDirsOk, DirOk, IsDir, Tidy, EntriesOf;
  }

  /** With all files kept and none added, directories stay good. */
  lemma AllDirsKept(a: Vol, b: Vol)
    requires AllDirsOk(a.d, a.files) && Kept(a, b, a.files.Keys) && b.files.Keys == a.files.Keys
    ensures AllDirsOk(b.d, b.files)
  {
    forall n | n in b.files && b.files[n].ftype == FT_DIRECTORY ensures DirOk(b.d, b.files, n) {
      KeptIsDirectory(a, b, a.files.Keys, n);
      OneDirKept(a, b, a.files.Keys, n);
    }
  }

  lemma OneDirKept(a: Vol, b: Vol, ns: set<nat>, n: nat)
    requires AllDirsOk(a.d, a.files) && IsDirectory(a, n) && Kept(a, b, ns) && n in ns && a.files.Keys <= b.files.Keys
    ensures DirOk(b.d, b.files, n)
  {
    DirOkIs(a, n);
    KeptDir(a, b, ns, n);
    hide Kept, AllDirsOk, DirOk, IsDir, Tidy, EntriesOf;
    IsDirOk(b, n);
  }

  lemma TreeKept(a: Vol, b: Vol)
    requires TreeOk(a) && Kept(a, b, a.files.Keys) && b.files.Keys == a.files.Keys
    ensures TreeOk(b)
  {
    AllDirsKept(a, b);
    KeptIsDirectory(a, b, a.files.Keys, 0);
    hide AllDirsOk, Kept;
    forall x, i, y, j, n | n != 0 && Refers(b, x, i, n) && Refers(b, y, j, n) ensures x == y && i == j {
      KeptRefers(a, b, a.files.Keys, x, i, n);
      KeptRefers(a, b, a.files.Keys, y, j, n);
    }
  }

  // ---- paths ----

  /** What follows the last slash (strrchr). */
  function LastName(path: seq<bv8>): Name {
    if SLASH in path then LastName(path[1..]) else path
  }

  lemma {:induction false} LastBehind(p: seq<bv8>, k: nat)
    requires k < |p| && p[k] == SLASH
    ensures LastName(p) == LastName(p[k..])
  {
    if k > 0 {
      assert p[1..][k - 1] == p[k] && p[1..][k - 1..] == p[k..];
      LastBehind(p[1..], k - 1);
    }
  }

  lemma {:induction false} LastSkips(p: seq<bv8>)
    ensures LastName(SkipSlashes(p)) == LastName(p)
  {
    if p != [] && p[0] == SLASH { LastSkips(p[1..]); }
  }

  lemma LastOfTail(q: seq<bv8>)
    ensures |TakeName(q)| <= |q| && if |TakeName(q)| == |q| then TakeName(q) == LastName(q) else LastName(q) == LastName(q[|TakeName(q)|..])
  {
    var n := TakeName(q);
    if |n| < |q| {
      LastBehind(q, |n|);
    } else {
      assert q == n;
      assert SLASH !in q;
    }
  }

  /** The name that create_file_or_directory cuts off with strrchr is the one path_parse ends with. */
  lemma {:induction false} LastIsSplit(p: seq<bv8>)
    ensures Split(p).last == LastName(p)
    decreases |p|
  {
    LastSkips(p);
    SplitStep(p);
    var q := SkipSlashes(p);
    LastOfTail(q);
    hide Split, LastName, TakeName;
    if |TakeName(q)| < |q| { LastIsSplit(q[|TakeName(q)|..]); }
  }

  ghost function Start(path: seq<bv8>, cwd: nat): nat {
    if path != [] && path[0] == SLASH then 0 else cwd
  }

  /** The directory that is to hold the last name of a path. */
  ghost function Parent(v: Vol, path: seq<bv8>, cwd: nat): Option<nat> {
    Resolve(v.d, v.files, Start(path, cwd), Split(path).dirs)
  }

  /** The inode a path names. */
  ghost function Lookup(v: Vol, path: seq<bv8>, cwd: nat): Option<nat> {
    Target(v.d, v.files, Start(path, cwd), Split(path), false)
  }

  ghost function Child(v: Vol, no: nat, name: Name): Option<nat> {
    ChildOf(v.d, v.files, no, name)
  }

  lemma LookupIs(v: Vol, path: seq<bv8>, cwd: nat)
    requires LastName(path) != []
    ensures Lookup(v, path, cwd) == match Parent(v, path, cwd) case None => None case Some(p) => Child(v, p, LastName(path))
  {
    LastIsSplit(path);
    TargetIs(v.d, v.files, Start(path, cwd), Split(path), false);
  }

  lemma ParentIs(v: Vol, path: seq<bv8>, cwd: nat)
    ensures Target(v.d, v.files, Start(path, cwd), Split(path), true) == Parent(v, path, cwd)
  {
    TargetIs(v.d, v.files, Start(path, cwd), Split(path), true);
  }

  lemma ChildFacts(v: Vol, no: nat, name: Name)
    requires AllDirsOk(v.d, v.files) && IsDirectory(v, no)
    ensures Child(v, no, name) == if name in View(EntriesOf(v, no)) then Some(View(EntriesOf(v, no))[name].0) else None
    ensures Child(v, no, name).Some? ==> Child(v, no, name).value in v.files
  {
    DirOkIs(v, no);
    hide AllDirsOk, DirOk, IsDir, Tidy;
    if name in View(EntriesOf(v, no)) {
      var i := ViewHas(EntriesOf(v, no), name);
      ViewAt(EntriesOf(v, no), name, i);
    }
  }

  lemma ResolveTurn(v: Vol, no: nat, dirs: seq<Name>)
    requires dirs != []
    ensures Resolve(v.d, v.files, no, dirs) ==
            match Child(v, no, dirs[0])
            case None => None
            case Some(c) => if IsDirectory(v, c) then Resolve(v.d, v.files, c, dirs[1..]) else None
  {
    hide ChildOf;
    assert [dirs[0]] + dirs[1..] == dirs;
    ResolveStep(v.d, v.files, no, dirs[0], dirs[1..]);
  }

  lemma {:induction false} ResolveDir(v: Vol, no: nat, dirs: seq<Name>)
    requires AllDirsOk(v.d, v.files) && IsDirectory(v, no)
    ensures Resolve(v.d, v.files, no, dirs).Some? ==> IsDirectory(v, Resolve(v.d, v.files, no, dirs).value)
    decreases |dirs|
  {
    hide AllDirsOk, Child;
    if dirs == [] {
      ResolveStep(v.d, v.files, no, [], []);
    } else {
      ResolveTurn(v, no, dirs);
      var c := Child(v, no, dirs[0]);
      if c.Some? && IsDirectory(v, c.value) { ResolveDir(v, c.value, dirs[1..]); }
    }
  }

  /** Every directory still has the names it had, for the same inodes. */
  ghost predicate Grown(a: Vol, b: Vol) {
    && (forall n :: IsDirectory(a, n) ==> IsDirectory(b, n))
    && (forall n, name :: IsDirectory(a, n) && Child(a, n, name).Some? ==> Child(b, n, name) == Child(a, n, name))
  }

  /** Paths that lead somewhere still lead there. */
  lemma {:induction false} ResolveGrown(a: Vol, b: Vol, no: nat, dirs: seq<Name>)
    requires Grown(a, b) && IsDirectory(a, no)
    ensures Resolve(a.d, a.files, no, dirs).Some? ==> Resolve(b.d, b.files, no, dirs) == Resolve(a.d, a.files, no, dirs)
    decreases |dirs|
  {
    hide Child, IsDirectory;
    if dirs == [] {
      ResolveStep(a.d, a.files, no, [], []);
      ResolveStep(b.d, b.files, no, [], []);
    } else {
      ResolveTurn(a, no, dirs);
      ResolveTurn(b, no, dirs);
      var c := Child(a, no, dirs[0]);
      if c.Some? && IsDirectory(a, c.value) { ResolveGrown(a, b, c.value, dirs[1..]); }
    }
  }

  /** Where all files are kept, paths lead where they led. */
  lemma {:induction false} ResolveKept(a: Vol, b: Vol, no: nat, dirs: seq<Name>)
    requires AllDirsOk(a.d, a.files) && Kept(a, b, a.files.Keys) && IsDirectory(a, no)
    ensures Resolve(b.d, b.files, no, dirs) == Resolve(a.d, a.files, no, dirs)
    decreases |dirs|
  {
    hide Child, AllDirsOk, Kept;
    if dirs == [] {
      ResolveStep(a.d, a.files, no, [], []);
      ResolveStep(b.d, b.files, no, [], []);
    } else {
      ResolveTurn(a, no, dirs);
      ResolveTurn(b, no, dirs);
      ChildKept(a, b, a.files.Keys, no, dirs[0]);
      var c := Child(a, no, dirs[0]);
      if c.Some? {
        ChildIsFile(a, no, dirs[0]);
        KeptIsDirectory(a, b, a.files.Keys, c.value);
        if IsDirectory(a, c.value) { ResolveKept(a, b, c.value, dirs[1..]); }
      }
    }
  }

  lemma ChildIsFile(v: Vol, no: nat, name: Name)
    requires AllDirsOk(v.d, v.files) && IsDirectory(v, no) && Child(v, no, name).Some?
    ensures Child(v, no, name).value in v.files.Keys
  {
    ChildFacts(v, no, name);
    hide AllDirsOk, Child;
  }

  lemma ChildKept(a: Vol, b: Vol, ns: set<nat>, no: nat, name: Name)
    requires AllDirsOk(a.d, a.files) && Kept(a, b, ns) && no in ns && IsDirectory(a, no)
    ensures Child(b, no, name) == Child(a, no, name)
  {
    DirOkIs(a, no);
    KeptDir(a, b, ns, no);
    hide AllDirsOk, DirOk, IsDir, Tidy, Kept, View, DirEntries;
  }

  // ---- a tree with one entry more or less ----

  ghost predicate EmptyFile(v: Vol, no: nat, ftype: nat) {
    no in v.files && ShapeOk(v.files[no]) && v.files[no].size == 0 && v.files[no].ftype == ftype
  }

  lemma EmptyDir(v: Vol, no: nat, ftype: nat)
    requires EmptyFile(v, no, ftype)
    ensures EntriesOf(v, no) == [] && (ftype == FT_DIRECTORY ==> DirOk(v.d, v.files, no))
  {
  }

  /** `b` is `a` with a new empty file `e.ino` and an entry for it in slot `i` of directory `p`. */
  ghost predicate OneMoreEntry(a: Vol, b: Vol, p: nat, i: nat, e: Entry) {
    && AllDirsOk(a.d, a.files) && IsDirectory(a, p) && e.ino !in a.files && b.files.Keys == a.files.Keys + {e.ino}
    && Kept(a, b, a.files.Keys - {p}) && EmptyFile(b, e.ino, e.ftype)
    && DirOk(b.d, b.files, p) && IsDirectory(b, p)
    && i <= |EntriesOf(a, p)| && (i < |EntriesOf(a, p)| ==> !Live(EntriesOf(a, p)[i]))
    && EntriesOf(b, p) == Put(EntriesOf(a, p), i, e)
  }

  lemma PutRefers(a: Vol, b: Vol, p: nat, i: nat, e: Entry, j: nat, n: nat)
    requires IsDirectory(a, p) && i <= |EntriesOf(a, p)| && EntriesOf(b, p) == Put(EntriesOf(a, p), i, e) && Refers(b, p, j, n)
    ensures if j == i then n == e.ino else Refers(a, p, j, n)
  {
    hide EntriesOf;
  }

  /** Only the new entry refers to the new file; the others refer to what they referred to. */
  lemma LinkRefers(a: Vol, b: Vol, p: nat, i: nat, e: Entry, x: nat, j: nat, n: nat)
    requires OneMoreEntry(a, b, p, i, e) && Refers(b, x, j, n)
    ensures if n == e.ino then x == p && j == i else Refers(a, x, j, n)
  {
    EmptyDir(b, e.ino, e.ftype);
    hide AllDirsOk, Kept, EntriesOf, EmptyFile, DirOk, Put;
    if x == p {
      PutRefers(a, b, p, i, e, j, n);
      hide Refers;
      if j != i { RefersToFile(a, p, j, n); }
    } else {
      assert x != e.ino;
      KeptRefers(a, b, a.files.Keys - {p}, x, j, n);
      RefersToFile(a, x, j, n);
    }
  }

  lemma LinkTree(a: Vol, b: Vol, p: nat, i: nat, e: Entry)
    requires TreeOk(a) && OneMoreEntry(a, b, p, i, e)
    ensures TreeOk(b)
  {
    hide Refers, EntriesOf, Put, DirOk;
    forall n | n in b.files && b.files[n].ftype == FT_DIRECTORY ensures DirOk(b.d, b.files, n) {
      LinkDir(a, b, p, i, e, n);
    }
    assert IsDirectory(b, 0) by {
      if p != 0 { KeptIsDirectory(a, b, a.files.Keys - {p}, 0); }
    }
    forall x, k, y, j, n | n != 0 && Refers(b, x, k, n) && Refers(b, y, j, n) ensures x == y && k == j {
      hide OneMoreEntry;
      LinkRefers(a, b, p, i, e, x, k, n);
      LinkRefers(a, b, p, i, e, y, j, n);
    }
  }

  lemma LinkDir(a: Vol, b: Vol, p: nat, i: nat, e: Entry, n: nat)
    requires OneMoreEntry(a, b, p, i, e) && IsDirectory(b, n)
    ensures DirOk(b.d, b.files, n)
  {
    hide AllDirsOk, Kept, EntriesOf, DirOk, ShapeOk, Put;
    if n == e.ino {
      EmptyDir(b, n, e.ftype);
    } else if n != p {
      KeptIsDirectory(a, b, a.files.Keys - {p}, n);
      OneDirKept(a, b, a.files.Keys - {p}, n);
    }
  }

  /** `b` is `a` without file `c`, which entry `i` of directory `p` referred to; `es` is what `p` holds now. */
  ghost predicate OneFileLess(a: Vol, b: Vol, p: nat, i: nat, c: nat, es: seq<Entry>) {
    && Refers(a, p, i, c) && c != 0 && c != p && b.files.Keys == a.files.Keys - {c}
    && Kept(a, b, a.files.Keys - {p, c}) && IsDir(b.d, b.files, p) && IsDirectory(b, p) && EntriesOf(b, p) == es
  }

  lemma UnlinkRefers(a: Vol, b: Vol, p: nat, i: nat, c: nat, es: seq<Entry>, x: nat, j: nat, n: nat)
    requires AllDirsOk(a.d, a.files) && OneFileLess(a, b, p, i, c, es) && es == EntriesOf(a, p)[i := FreeEntry()] && Refers(b, x, j, n)
    ensures Refers(a, x, j, n) && (x != p || j != i)
  {
    hide AllDirsOk, Kept, EntriesOf, IsDir;
    if x != p { KeptRefers(a, b, a.files.Keys - {p, c}, x, j, n); }
  }

  lemma UnlinkDir(a: Vol, b: Vol, p: nat, i: nat, c: nat, es: seq<Entry>, x: nat)
    requires TreeOk(a) && OneFileLess(a, b, p, i, c, es) && es == EntriesOf(a, p)[i := FreeEntry()] && IsDirectory(b, x)
    ensures DirOk(b.d, b.files, x)
  {
    if x != p {
      KeptIsDirectory(a, b, a.files.Keys - {p, c}, x);
      DirOkIs(a, x);
      KeptDir(a, b, a.files.Keys - {p, c}, x);
    }
    hide AllDirsOk, Kept, EntriesOf, IsDir, DirOk, Tidy;
    forall j | 0 <= j < |EntriesOf(b, x)| && Live(EntriesOf(b, x)[j]) ensures EntriesOf(b, x)[j].ino in b.files {
      var n := EntriesOf(b, x)[j].ino;
      assert Refers(b, x, j, n);
      UnlinkRefers(a, b, p, i, c, es, x, j, n);
      RefersToFile(a, x, j, n);
    }
    IsDirOk(b, x);
  }

  lemma UnlinkTree(a: Vol, b: Vol, p: nat, i: nat, c: nat, es: seq<Entry>)
    requires TreeOk(a) && OneFileLess(a, b, p, i, c, es) && es == EntriesOf(a, p)[i := FreeEntry()]
    ensures TreeOk(b)
  {
    hide Refers, EntriesOf, DirOk, IsDir;
    assert IsDirectory(b, 0) by {
      if p != 0 { KeptIsDirectory(a, b, a.files.Keys - {p, c}, 0); }
    }
    forall n | n in b.files && b.files[n].ftype == FT_DIRECTORY ensures DirOk(b.d, b.files, n) {
      UnlinkDir(a, b, p, i, c, es, n);
    }
    forall x, k, y, j, n | n != 0 && Refers(b, x, k, n) && Refers(b, y, j, n) ensures x == y && k == j {
      hide OneFileLess;
      UnlinkRefers(a, b, p, i, c, es, x, k, n);
      UnlinkRefers(a, b, p, i, c, es, y, j, n);
    }
  }

  /** If the entry stays, it refers to a file that is gone. */
  lemma StaleTree(a: Vol, b: Vol, p: nat, i: nat, c: nat, es: seq<Entry>)
    requires OneFileLess(a, b, p, i, c, es) && es == EntriesOf(a, p)
    ensures !TreeOk(b)
  {
    hide AllDirsOk, Kept, EntriesOf, IsDir, OneName;
    if TreeOk(b) {
      assert Refers(b, p, i, c);
      RefersToFile(b, p, i, c);
    }
  }

  // ---- references ----

  /** From one list of open inodes to the other `k` and `l` have one reference more each; 0 stands for none, as
      the root's count only grows and is not told. */
  ghost predicate Extra(open0: seq<InCore>, open: seq<InCore>, k: nat, l: nat) {
    forall n :: n != 0 ==> Count(open, n) == Count(open0, n) + (if n == k then 1 else 0) + (if n == l then 1 else 0)
  }

  lemma ExtraAlloc(open0: seq<InCore>, open: seq<InCore>, no: nat, m: Meta)
    requires UniqueOpen(open0) && UniqueOpen(open) && !IsOpen(open0, no) && open == [InCore(no, 1, m)] + open0
    ensures Extra(open0, open, no, 0)
  {
    FindOpenIs(open0, no, |open0|);
    assert Opened(open0, no, m) == open;
    hide Count, Opened, UniqueOpen, IsOpen;
    OpenedCounts(open0, no, m);
  }

  lemma ExtraMore(open0: seq<InCore>, open1: seq<InCore>, open2: seq<InCore>, no: nat, p: nat)
    requires Extra(open0, open1, no, 0) && OneMore(open1, open2, p)
    ensures Extra(open0, open2, no, p)
  {
    hide Count;
  }

  lemma ExtraNone(open0: seq<InCore>, open1: seq<InCore>, open2: seq<InCore>, no: nat)
    requires Extra(open0, open1, no, 0) && NoneMore(open1, open2)
    ensures Extra(open0, open2, no, 0)
  {
    hide Count;
  }

  lemma ExtraSame(open0: seq<InCore>, open1: seq<InCore>, open2: seq<InCore>, no: nat, p: nat)
    requires Extra(open0, open1, no, p) && forall n :: n != 0 ==> Count(open2, n) == Count(open1, n)
    ensures Extra(open0, open2, no, p)
  {
    hide Count;
  }

  lemma ExtraLess(open0: seq<InCore>, open1: seq<InCore>, open2: seq<InCore>, no: nat, p: nat)
    requires Extra(open0, open1, no, p) && forall n :: n != 0 ==> Count(open2, n) + (if n == no then 1 else 0) == Count(open1, n)
    ensures Extra(open0, open2, p, 0)
  {
    hide Count;
  }

  lemma ExtraIs(open0: seq<InCore>, open: seq<InCore>, k: nat, l: nat, n: nat)
    requires Extra(open0, open, k, l) && n != 0
    ensures Count(open, n) == Count(open0, n) + (if n == k then 1 else 0) + (if n == l then 1 else 0)
  {
    hide Count;
  }

  lemma ExtraSelf(open: seq<InCore>)
    ensures Extra(open, open, 0, 0)
  {
    hide Count;
  }

  lemma ExtraRefl(open0: seq<InCore>, open: seq<InCore>)
    requires open == open0
    ensures Extra(open0, open, 0, 0)
  {
    ExtraSelf(open);
  }

  // ---- create_file_or_directory ----

  /** Nothing that a user of the files could see has changed. */
  ghost predicate Untouched(a: Vol, b: Vol) {
    b.files.Keys == a.files.Keys && Kept(a, b, a.files.Keys) && Extra(a.open, b.open, 0, 0) && TreeOk(b)
  }

  lemma IsUntouched(a: Vol, b: Vol)
    requires TreeOk(a) && b.files.Keys == a.files.Keys && Kept(a, b, a.files.Keys) && Extra(a.open, b.open, 0, 0)
    ensures Untouched(a, b)
  {
    hide TreeOk, Kept, Extra;
    TreeKept(a, b);
  }

  /** The file `no` is new and empty, its name is in directory `p`, and all other files and names are what they
      were.  Both the file and its directory have one reference more. */
  ghost predicate Created(a: Vol, b: Vol, p: nat, no: nat, name: Name, ftype: nat) {
    && no !in a.files && b.files.Keys == a.files.Keys + {no} && EmptyFile(b, no, ftype)
    && IsDirectory(a, p) && IsDirectory(b, p) && Kept(a, b, a.files.Keys - {p})
    && name !in View(EntriesOf(a, p))
    && View(EntriesOf(b, p)) == View(EntriesOf(a, p))[name := (no, ftype)]
    && EntriesOf(b, p) == Put(EntriesOf(a, p), FirstFree(EntriesOf(a, p)), Entry(name, no, ftype))
    && TreeOk(b) && Extra(a.open, b.open, no, p)
  }

  lemma NumberRange(fs: FileStore, no: nat)
    requires fs.Valid() && no in fs.files
    ensures no < MAX_FILES_PER_PART
  {
    fs.ValidFacts();
    hide *;
    OpenedConsistent(fs.geo, fs.disk, fs.blockBitmap.Value(), fs.inodeBitmap.Value(), fs.files, fs.open, no, FindOpen(fs.open, no));
  }

  /** Giving a file back that nobody else holds. */
  method Abandon(fs: FileStore, no: nat, ftype: nat, ghost b: Vol)
    requires fs.Valid() && b == Now(fs) && no != 0 && Count(b.open, no) == 1
    requires ftype < 0x1_0000_0000 && no in b.files && b.files[no] == EmptyMeta(ftype)
    modifies fs`disk, fs`open, fs`files, fs.blockBitmap.bits, fs.inodeBitmap.bits
    ensures fs.Valid() && fs.files == b.files - {no} && BytesKept(b.d, fs.disk, fs.files) && SameTable(fs.geo, b.d, fs.disk)
    ensures forall n :: n != 0 ==> Count(fs.open, n) + (if n == no then 1 else 0) == Count(b.open, n)
    ensures fs.blockBitmap.Value() == old(fs.blockBitmap.Value())
    ensures no < |old(fs.inodeBitmap.Value())| && fs.inodeBitmap.Value() == old(fs.inodeBitmap.Value())[no := false]
  {
    hide *;
    NowIs(fs, b);
    ListIsUnique(fs);
    OpenMeansCounted(b.open, no);
    OpenHere(fs, no);
    var k := fs.FindInode(no);
    CountAt(b.open, k);
    fs.ValidFacts();
    WfFacts(fs.geo);
    EmptyFrees(fs.geo, fs.blockBitmap.Value(), b.d, ftype);
    ghost var blocks := fs.InodeFree(k, b.d, fs.blockBitmap.Value(), b.files, b.open);
    ListIsUnique(fs);
    ClosedCounts(b.open, k);
  }

  lemma NowIs(fs: FileStore, v: Vol)
    requires v == Now(fs)
    ensures v.d == fs.disk && v.files == fs.files && v.open == fs.open
  {
  }

  /** The state once the file is there and its directory is held. */
  ghost predicate Pending(a: Vol, c: Vol, no: nat, ftype: nat, p: nat) {
    && no != 0 && no !in a.files && c.files.Keys == a.files.Keys + {no} && Kept(a, c, a.files.Keys) && EmptyFile(c, no, ftype)
    && AllDirsOk(c.d, c.files) && Extra(a.open, c.open, no, p)
  }

  lemma AllDirsMore(a: Vol, b: Vol, no: nat, ftype: nat)
    requires AllDirsOk(a.d, a.files) && Kept(a, b, a.files.Keys) && b.files.Keys == a.files.Keys + {no} && EmptyFile(b, no, ftype)
    ensures AllDirsOk(b.d, b.files)
  {
    hide DirOk, ShapeOk;
    forall n | n in b.files && b.files[n].ftype == FT_DIRECTORY ensures DirOk(b.d, b.files, n) {
      if n == no {
        EmptyDir(b, no, ftype);
      } else {
        KeptIsDirectory(a, b, a.files.Keys, n);
        OneDirKept(a, b, a.files.Keys, n);
      }
    }
  }

  lemma IsPending(a: Vol, b: Vol, ftype: nat)
    requires TreeOk(a) && Allocated(ftype, a.files, a.open, b.files, b.open) && BytesKept(a.d, b.d, a.files) && ftype < 0x1_0000_0000
    requires UniqueOpen(a.open) && UniqueOpen(b.open) && OpenOk(a.open, a.files)
    ensures Pending(a, b, b.open[0].no, ftype, 0)
  {
    var no := b.open[0].no;
    EmptyPtrs(b.d, ftype);
    KeptAlloc(a, b, no, EmptyMeta(ftype));
    assert !IsOpen(a.open, no);
    ExtraAlloc(a.open, b.open, no, EmptyMeta(ftype));
    hide Extra, Kept, ShapeOk, UniqueOpen, AllDirsOk, BytesKept;
    AllDirsMore(a, b, no, ftype);
  }

  lemma StillPending(a: Vol, b: Vol, c: Vol, no: nat, ftype: nat, p: nat)
    requires Pending(a, b, no, ftype, 0) && b.d == c.d && b.files == c.files && OneMore(b.open, c.open, p)
    ensures Pending(a, c, no, ftype, p)
  {
    SelfSame(b.d, b.files, no);
    KeptSame(b, c);
    AllDirsKept(b, c);
    ExtraMore(a.open, b.open, c.open, no, p);
    hide Kept, AllDirsOk, Extra, Content, OneMore, ShapeOk;
    KeptTrans(a, b, c, a.files.Keys, b.files.Keys);
    assert SameFile(b.d, b.files[no], c.files[no]);
  }

  /** After dir_link. */
  lemma IsCreated(a: Vol, c: Vol, d: Vol, p: nat, e: Entry)
    requires TreeOk(a) && Pending(a, c, e.ino, e.ftype, p) && IsDirectory(a, p) && p in c.files && p in d.files && e.name != []
    requires Elsewhere(p, c.d, c.files, c.open, d.d, d.files, d.open)
    requires LinkedTo(Linked, DirEntries(c.d, c.files[p]), e, d.d, d.files, p)
    ensures Created(a, d, p, e.ino, e.name, e.ftype)
  {
    LinkStep(a, c, d, p, e);
    PendingFacts(a, c, e.ino, e.ftype, p);
    ExtraSame(a.open, c.open, d.open, e.ino, p);
    hide LinkedTo, Pending, Kept, TreeOk, Extra, View, Put, FirstFree, Elsewhere, EmptyFile, AllDirsOk, IsDir, NoDangling, OneMoreEntry;
    LinkTree(a, d, p, FirstFree(EntriesOf(a, p)), e);
  }

  lemma SameDirEntries(a: Vol, c: Vol, p: nat)
    requires TreeOk(a) && Kept(a, c, a.files.Keys) && IsDirectory(a, p)
    ensures EntriesOf(c, p) == EntriesOf(a, p) && IsDirectory(c, p)
  {
    DirOkIs(a, p);
    KeptDir(a, c, a.files.Keys, p);
  }

  lemma EmptyStays(c: Vol, d: Vol, p: nat, no: nat, ftype: nat)
    requires Elsewhere(p, c.d, c.files, c.open, d.d, d.files, d.open) && no != p && EmptyFile(c, no, ftype)
    ensures EmptyFile(d, no, ftype)
  {
    hide Content, ShapeOk, Count;
    assert SameBytes(c.d, c.files[no], d.d, d.files[no]);
  }

  lemma KeptButDir(a: Vol, c: Vol, d: Vol, p: nat, no: nat, ftype: nat, q: nat)
    requires Pending(a, c, no, ftype, q) && Elsewhere(p, c.d, c.files, c.open, d.d, d.files, d.open)
    ensures Kept(a, d, a.files.Keys - {p}) && d.files.Keys == a.files.Keys + {no} && no !in a.files
  {
    KeptElsewhere(c, d, p);
    hide Kept, Extra, Elsewhere, AllDirsOk, EmptyFile;
    KeptLess(a, c, a.files.Keys, a.files.Keys - {p});
    KeptTrans(a, c, d, a.files.Keys - {p}, c.files.Keys - {p});
  }

  lemma LinkedFacts(es: seq<Entry>, e: Entry, d: Vol, p: nat)
    requires LinkedTo(Linked, es, e, d.d, d.files, p) && e.name != []
    ensures p in d.files && DirOk(d.d, d.files, p) && IsDirectory(d, p)
    ensures EntriesOf(d, p) == Put(es, FirstFree(es), e) && e.name !in View(es)
    ensures View(EntriesOf(d, p)) == View(es)[e.name := (e.ino, e.ftype)]
    ensures FirstFree(es) <= |es| && (FirstFree(es) < |es| ==> !Live(es[FirstFree(es)]))
  {
    hide View, NoDangling, Tidy, Content, DirEntries;
  }

  /** The file `no` is new and empty and has an entry in `p`, but no name: the tree is no longer in order. */
  ghost predicate Nameless(a: Vol, b: Vol, p: nat, no: nat, ftype: nat) {
    && no !in a.files && b.files.Keys == a.files.Keys + {no} && EmptyFile(b, no, ftype)
    && IsDirectory(a, p) && IsDirectory(b, p) && Kept(a, b, a.files.Keys - {p})
    && FirstFree(EntriesOf(a, p)) == |EntriesOf(a, p)| && EntriesOf(b, p) == EntriesOf(a, p) + [Entry([], no, ftype)]
    && !TreeOk(b) && Extra(a.open, b.open, no, p)
  }

  lemma IsNameless(a: Vol, c: Vol, d: Vol, p: nat, e: Entry)
    requires TreeOk(a) && Pending(a, c, e.ino, e.ftype, p) && IsDirectory(a, p) && p in c.files && p in d.files && e.name == []
    requires Elsewhere(p, c.d, c.files, c.open, d.d, d.files, d.open)
    requires LinkedTo(Linked, DirEntries(c.d, c.files[p]), e, d.d, d.files, p)
    ensures Nameless(a, d, p, e.ino, e.ftype)
  {
    SameDirEntries(a, c, p);
    PendingFacts(a, c, e.ino, e.ftype, p);
    EmptyStays(c, d, p, e.ino, e.ftype);
    KeptButDir(a, c, d, p, e.ino, e.ftype, p);
    ExtraSame(a.open, c.open, d.open, e.ino, p);
    EndsHere(DirEntries(c.d, c.files[p]), e, d, p);
    NotInOrder(d, p);
    hide Kept, AllDirsOk, Extra, View, FirstFree, DirEntries, OneName, Elsewhere, LinkedTo, DirOk, IsDir, EmptyFile, Pending, TreeOk;
  }

  lemma EndsHere(es: seq<Entry>, e: Entry, d: Vol, p: nat)
    requires LinkedTo(Linked, es, e, d.d, d.files, p) && e.name == []
    ensures IsDirectory(d, p) && !IsDir(d.d, d.files, p) && EntriesOf(d, p) == es + [Entry([], e.ino, e.ftype)] && FirstFree(es) == |es|
  {
    hide View, DirEntries, IsDir, FirstFree;
  }

  lemma NotInOrder(v: Vol, p: nat)
    requires IsDirectory(v, p) && !IsDir(v.d, v.files, p)
    ensures !TreeOk(v)
  {
    hide IsDir, OneName, NoDangling;
    if TreeOk(v) { DirOkIs(v, p); }
  }

  lemma PendingFacts(a: Vol, c: Vol, no: nat, ftype: nat, p: nat)
    requires Pending(a, c, no, ftype, p)
    ensures no != 0 && no !in a.files && no in c.files && c.files.Keys == a.files.Keys + {no} && Kept(a, c, a.files.Keys)
    ensures EmptyFile(c, no, ftype) && AllDirsOk(c.d, c.files) && Extra(a.open, c.open, no, p)
  {
    hide Kept, Extra, AllDirsOk, EmptyFile;
  }

  lemma LinkStep(a: Vol, c: Vol, d: Vol, p: nat, e: Entry)
    requires TreeOk(a) && Pending(a, c, e.ino, e.ftype, p) && IsDirectory(a, p) && p in c.files && p in d.files && e.name != []
    requires Elsewhere(p, c.d, c.files, c.open, d.d, d.files, d.open)
    requires LinkedTo(Linked, DirEntries(c.d, c.files[p]), e, d.d, d.files, p)
    ensures OneMoreEntry(a, d, p, FirstFree(EntriesOf(a, p)), e) && EmptyFile(d, e.ino, e.ftype) && Kept(a, d, a.files.Keys - {p})
    ensures EntriesOf(d, p) == Put(EntriesOf(a, p), FirstFree(EntriesOf(a, p)), e) && e.name !in View(EntriesOf(a, p))
    ensures View(EntriesOf(d, p)) == View(EntriesOf(a, p))[e.name := (e.ino, e.ftype)] && IsDirectory(d, p)
  {
    SameDirEntries(a, c, p);
    PendingFacts(a, c, e.ino, e.ftype, p);
    EmptyStays(c, d, p, e.ino, e.ftype);
    KeptButDir(a, c, d, p, e.ino, e.ftype, p);
    LinkedFacts(DirEntries(c.d, c.files[p]), e, d, p);
    hide Kept, AllDirsOk, Extra, View, Put, FirstFree, DirEntries, OneName, Elsewhere, LinkedTo, DirOk, EmptyFile, Pending;
  }

  lemma NotLinkedKept(a: Vol, c: Vol, d: Vol, p: nat, no: nat, ftype: nat, r: LinkResult, e: Entry)
    requires TreeOk(a) && Pending(a, c, no, ftype, p) && IsDirectory(a, p) && p in c.files
    requires Elsewhere(p, c.d, c.files, c.open, d.d, d.files, d.open) && r != Linked
    requires LinkedTo(r, DirEntries(c.d, c.files[p]), e, d.d, d.files, p)
    ensures Kept(a, d, a.files.Keys) && d.files.Keys == a.files.Keys + {no} && Extra(a.open, d.open, no, p)
  {
    SameDirEntries(a, c, p);
    PendingFacts(a, c, no, ftype, p);
    ExtraSame(a.open, c.open, d.open, no, p);
    KeptButDir(a, c, d, p, no, ftype, p);
    hide AllDirsOk, Extra, DirEntries, OneName, Elsewhere, EmptyFile, Pending, View, Tidy, NoDangling, ShapeOk, Content, Put, FirstFree;
    assert SameItem(a.d, a.files[p], d.d, d.files[p]);
  }

  /** After inode_free of the new file. */
  lemma Abandoned(a: Vol, d: Vol, f: Vol, no: nat, p: nat)
    requires Kept(a, d, a.files.Keys) && d.files.Keys == a.files.Keys + {no} && no !in a.files && Extra(a.open, d.open, no, p)
    requires f.files == d.files - {no} && BytesKept(d.d, f.d, f.files)
    requires forall n :: n != 0 ==> Count(f.open, n) + (if n == no then 1 else 0) == Count(d.open, n)
    ensures Kept(a, f, a.files.Keys) && f.files.Keys == a.files.Keys && Extra(a.open, f.open, p, 0)
  {
    KeptFree(d, f, no);
    ExtraLess(a.open, d.open, f.open, no, p);
    hide Kept, Extra, BytesKept, Count;
    KeptTrans(a, d, f, a.files.Keys, d.files.Keys - {no});
  }

  /** After inode_close of the directory as well. */
  lemma GivenBack(a: Vol, f: Vol, g: Vol, p: nat)
    requires TreeOk(a) && Kept(a, f, a.files.Keys) && f.files.Keys == a.files.Keys && Extra(a.open, f.open, p, 0)
    requires f.d == g.d && SameFiles(f.d, f.files, g.files)
    requires forall n :: n != 0 ==> Count(g.open, n) + (if n == p then 1 else 0) == Count(f.open, n)
    ensures Untouched(a, g)
  {
    KeptSame(f, g);
    ExtraLess(a.open, f.open, g.open, p, 0);
    hide Kept, Extra, SameFiles, Count, TreeOk;
    KeptTrans(a, f, g, a.files.Keys, f.files.Keys);
    IsUntouched(a, g);
  }

  lemma NewIsOpenOnce(a: Vol, c: Vol, no: nat, p: nat)
    requires UniqueOpen(a.open) && OpenOk(a.open, a.files) && no !in a.files && no != 0 && no != p && Extra(a.open, c.open, no, p)
    ensures Count(c.open, no) == 1
  {
    CountNone(a.open, no);
    ExtraIs(a.open, c.open, no, p, no);
  }

  lemma TreeFacts(v: Vol)
    requires TreeOk(v)
    ensures AllDirsOk(v.d, v.files) && OneName(v) && IsDirectory(v, 0)
  {
  }

  lemma NumberLost(a: Vol, b: Vol)
    requires TreeOk(a) && b.files == a.files && b.open == a.open && BytesKept(a.d, b.d, a.files)
    ensures Untouched(a, b)
  {
    ExtraRefl(a.open, b.open);
    hide Extra, TreeOk, SameItem, ShapeOk, Content;
    forall n | n in a.files ensures SameItem(a.d, a.files[n], b.d, b.files[n]) {
      ItemFromBytes(a.d, a.files[n], b.d, b.files[n]);
    }
    IsUntouched(a, b);
  }

  lemma CwdStays(a: Vol, b: Vol, cwd: nat, path: seq<bv8>)
    requires AllDirsOk(a.d, a.files) && Kept(a, b, a.files.Keys) && IsDirectory(a, cwd) && IsDirectory(a, 0)
    ensures cwd in b.files && b.files[cwd].ftype == FT_DIRECTORY && 0 in b.files && b.files[0].ftype == FT_DIRECTORY
    ensures Parent(b, path, cwd) == Parent(a, path, cwd)
    ensures Start(path, cwd) in b.files && DirEntries(b.d, b.files[Start(path, cwd)]) == EntriesOf(a, Start(path, cwd))
  {
    SameDirEntriesAt(a, b, Start(path, cwd));
    KeptIsDirectory(a, b, a.files.Keys, cwd);
    KeptIsDirectory(a, b, a.files.Keys, 0);
    ResolveKept(a, b, Start(path, cwd), Split(path).dirs);
  }

  lemma SameDirEntriesAt(a: Vol, b: Vol, p: nat)
    requires AllDirsOk(a.d, a.files) && Kept(a, b, a.files.Keys) && IsDirectory(a, p)
    ensures p in b.files && DirEntries(b.d, b.files[p]) == EntriesOf(a, p)
  {
    DirOkIs(a, p);
    KeptDir(a, b, a.files.Keys, p);
    hide AllDirsOk, Kept, DirOk, IsDir, DirEntries;
  }

  /** Without directories in the path the name is looked up where the search starts. */
  lemma ParentHere(a: Vol, path: seq<bv8>, cwd: nat)
    ensures Split(path).dirs == [] ==> Parent(a, path, cwd) == Some(Start(path, cwd))
  {
    ResolveStep(a.d, a.files, Start(path, cwd), [], []);
    hide Resolve, Split;
  }

  lemma StartIs(path: seq<bv8>, cwd: nat)
    ensures Start(path, cwd) == if path != [] && path[0] == SLASH then 0 else cwd
  {
  }

  lemma ParentDir(a: Vol, path: seq<bv8>, cwd: nat)
    requires AllDirsOk(a.d, a.files) && IsDirectory(a, cwd) && IsDirectory(a, 0)
    ensures Parent(a, path, cwd).Some? ==> IsDirectory(a, Parent(a, path, cwd).value)
  {
    ResolveDir(a, Start(path, cwd), Split(path).dirs);
  }

  // ---- when creating succeeds, and what it takes ----

  /** Whether the memory is there that a call asks for: for an inode, for reading and searching, for writing. */
  datatype Room = Room(inode: bool, read: bool, write: bool)

  /** Looking the name up in directory `p` finds nothing (an empty name finds a free slot), and there is room for its entry: a free slot, or a free block where the
      directory has to grow (two where it also needs its indirect block) and is not as large as a file can be. */
  ghost predicate CanHold(a: Vol, p: nat, name: Name, room: Room, bits: seq<bool>) {
    && (room.read || EntriesOf(a, p) == []) && Miss(EntriesOf(a, p), name) && room.write
    && p in a.files && EntryFits(a.files[p], FirstFree(EntriesOf(a, p)), bits)
  }

  /** An inode is to be had. */
  ghost predicate GetsInode(room: Room, ibits: seq<bool>) { room.inode && !AllSet(ibits) }

  ghost predicate CanCreate(a: Vol, path: seq<bv8>, cwd: nat, room: Room, bits: seq<bool>, ibits: seq<bool>) {
    && GetsInode(room, ibits) && (room.read || EntriesOf(a, Start(path, cwd)) == [])
    && Parent(a, path, cwd).Some? && CanHold(a, Parent(a, path, cwd).value, LastName(path), room, bits)
  }

  /** Exactly when the call gives an inode, and when it does not return. */
  ghost predicate CreateEnds(r: Made, a: Vol, path: seq<bv8>, cwd: nat, room: Room, bits: seq<bool>, ibits: seq<bool>) {
    && (r.Made? <==> CanCreate(a, path, cwd, room, bits, ibits))
    && (r == Stop <==> GetsInode(room, ibits) && !room.read && EntriesOf(a, Start(path, cwd)) != [])
  }

  /** The block bitmap afterwards: what dir_link takes, if it comes to that. */
  ghost function CreateBits(a: Vol, path: seq<bv8>, cwd: nat, room: Room, bits: seq<bool>, ibits: seq<bool>): seq<bool> {
    var p := Parent(a, path, cwd);
    if GetsInode(room, ibits) && p.Some? && p.value in a.files
    then LinkBits(a.files[p.value], EntriesOf(a, p.value), LastName(path), room.read, room.write, bits)
    else bits
  }

  /** The inode bitmap afterwards: the first free number is taken, and given back if an inode was there but nothing came
      of it.  Without memory for the inode the number is lost. */
  ghost function CreateNumbers(a: Vol, path: seq<bv8>, cwd: nat, room: Room, bits: seq<bool>, ibits: seq<bool>): seq<bool> {
    if GetsInode(room, ibits) && !CanCreate(a, path, cwd, room, bits, ibits) then ibits else Bitmaps.TakeFirst(ibits, 1)
  }

  ghost predicate SameBut(a: Files, b: Files, p: nat) {
    forall n :: n in a && n != p ==> n in b && b[n] == a[n]
  }

  /** The new file is empty, all others but the directory are the same versions. */
  ghost predicate MadeFiles(a: Vol, b: Vol, p: nat, no: nat, name: Name, ftype: nat, room: Room, bits: seq<bool>) {
    && p in a.files && p in b.files && SameBut(a.files, b.files, p) && no in b.files && b.files[no] == EmptyMeta(ftype)
    && (HasIndirect(b.files[p]) <==> LinkIndirect(a.files[p], EntriesOf(a, p), name, room.read, room.write, bits))
  }

  /** All files are the same versions, except that a directory that is held keeps an indirect block it got in vain. */
  ghost predicate FailedFiles(a: Vol, b: Vol, p: nat, name: Name, room: Room, bits: seq<bool>) {
    && p in a.files && p in b.files && SameBut(a.files, b.files, p)
    && if p == 0 || Count(a.open, p) > 0
       then OnlyIndirect(a.files[p], b.files[p])
            && (HasIndirect(b.files[p]) <==> LinkIndirect(a.files[p], EntriesOf(a, p), name, room.read, room.write, bits))
       else b.files[p] == a.files[p]
  }

  ghost predicate CreateFiles(r: Made, a: Vol, b: Vol, path: seq<bv8>, cwd: nat, ftype: nat, room: Room, bits: seq<bool>, ibits: seq<bool>) {
    var p := Parent(a, path, cwd);
    match r
    case Made(no) => p.Some? && MadeFiles(a, b, p.value, no, LastName(path), ftype, room, bits)
    case Failed => if GetsInode(room, ibits) && p.Some? then FailedFiles(a, b, p.value, LastName(path), room, bits) else b.files == a.files
    case Stop => true
  }

  lemma NoInode(a: Vol, b: Vol, path: seq<bv8>, cwd: nat, ftype: nat, room: Room, bits: seq<bool>, ibits: seq<bool>)
    requires !GetsInode(room, ibits) && b.files == a.files
    ensures CreateEnds(Failed, a, path, cwd, room, bits, ibits) && CreateBits(a, path, cwd, room, bits, ibits) == bits
    ensures CreateNumbers(a, path, cwd, room, bits, ibits) == Bitmaps.TakeFirst(ibits, 1)
    ensures CreateFiles(Failed, a, b, path, cwd, ftype, room, bits, ibits)
  {
    hide Parent, CanHold, FailedFiles, Bitmaps.TakeFirst, EntriesOf;
  }

  lemma NoParent(a: Vol, b: Vol, path: seq<bv8>, cwd: nat, ftype: nat, room: Room, bits: seq<bool>, ibits: seq<bool>)
    requires GetsInode(room, ibits) && (room.read || EntriesOf(a, Start(path, cwd)) == []) && Parent(a, path, cwd) == None && b.files == a.files
    ensures CreateEnds(Failed, a, path, cwd, room, bits, ibits) && CreateBits(a, path, cwd, room, bits, ibits) == bits
    ensures CreateNumbers(a, path, cwd, room, bits, ibits) == ibits
    ensures CreateFiles(Failed, a, b, path, cwd, ftype, room, bits, ibits)
  {
    hide Parent, CanHold, FailedFiles, Bitmaps.TakeFirst, EntriesOf, GetsInode;
  }

  lemma AtParent(r: Made, a: Vol, b: Vol, path: seq<bv8>, cwd: nat, ftype: nat, room: Room, bits: seq<bool>, ibits: seq<bool>, p: nat)
    requires GetsInode(room, ibits) && Parent(a, path, cwd) == Some(p) && p in a.files && (room.read || p == Start(path, cwd))
    requires (r.Made? <==> CanHold(a, p, LastName(path), room, bits)) && (r == Stop <==> !room.read && EntriesOf(a, p) != [])
    requires r.Made? ==> MadeFiles(a, b, p, r.no, LastName(path), ftype, room, bits)
    requires r == Failed ==> FailedFiles(a, b, p, LastName(path), room, bits)
    ensures CreateEnds(r, a, path, cwd, room, bits, ibits) && CreateFiles(r, a, b, path, cwd, ftype, room, bits, ibits)
    ensures CreateBits(a, path, cwd, room, bits, ibits) == LinkBits(a.files[p], EntriesOf(a, p), LastName(path), room.read, room.write, bits)
    ensures r != Stop ==> CreateNumbers(a, path, cwd, room, bits, ibits) == if r.Made? then Bitmaps.TakeFirst(ibits, 1) else ibits
  {
    CanHoldReads(a, p, LastName(path), room, bits);
    hide Parent, CanHold, FailedFiles, MadeFiles, Bitmaps.TakeFirst, EntriesOf, GetsInode, LinkBits, LastName;
  }

  lemma CanHoldReads(a: Vol, p: nat, name: Name, room: Room, bits: seq<bool>)
    ensures CanHold(a, p, name, room, bits) ==> room.read || EntriesOf(a, p) == []
  {
    hide EntriesOf, EntryFits, Miss;
  }

  lemma GoneSearch(a: Vol, b: Vol, c: Vol, no: nat, ftype: nat)
    requires Pending(a, b, no, ftype, 0) && b.d == c.d && b.files == c.files && NoneMore(b.open, c.open)
    ensures Kept(a, c, a.files.Keys) && c.files.Keys == a.files.Keys + {no} && no in c.files && no !in a.files && no != 0
    ensures Extra(a.open, c.open, no, 0)
  {
    SelfSame(b.d, b.files, no);
    KeptSame(b, c);
    ExtraNone(a.open, b.open, c.open, no);
    hide Kept, AllDirsOk, Extra, SameFiles, NoneMore, EmptyFile;
    KeptTrans(a, b, c, a.files.Keys, b.files.Keys);
  }

  lemma HoldsDir(a: Vol, c: Vol, p: nat)
    requires TreeOk(a) && Kept(a, c, a.files.Keys) && AllDirsOk(c.d, c.files) && IsDirectory(a, p)
    ensures p in a.files && p in c.files && DirOk(c.d, c.files, p) && DirEntries(c.d, c.files[p]) == EntriesOf(a, p)
  {
    SameDirEntries(a, c, p);
    hide TreeOk, Kept, DirOk, DirEntries;
  }

  lemma IsEntry(e: Entry)
    requires NameOk(e.name) && 0 < e.ftype < 0x1_0000_0000 && e.ino < MAX_FILES_PER_PART
    ensures CanGive(e)
  {
  }

  lemma HeldStill(fs: FileStore, a: Vol, f: Vol, p: nat)
    requires fs.Valid() && f.open == fs.open && Extra(a.open, f.open, p, 0)
    ensures IsOpen(fs.open, p)
  {
    hide *;
    ListIsUnique(fs);
    if p != 0 {
      ExtraIs(a.open, f.open, p, 0, p);
      OpenMeansCounted(fs.open, p);
    }
  }

  /** Once inode_close has taken the last reference of directory `p`, it is what it was: its slot holds that version. */
  ghost predicate Backed(g: Geometry, a: Vol, c: Vol, p: nat) {
    p in c.files && (p == 0 || Count(a.open, p) > 0 || DecodeInode(Slot(c.d, g, p)) == c.files[p])
  }

  lemma IsBacked(g: Geometry, a: Vol, c: Vol, no: nat, p: nat)
    requires Settled(g, c.d, c.files, c.open) && Extra(a.open, c.open, no, 0) && p in c.files && p != no
    ensures Backed(g, a, c, p)
  {
    if p != 0 {
      ExtraIs(a.open, c.open, no, 0, p);
      OpenMeansCounted(c.open, p);
    }
    hide DecodeInode, Slot, Count, IsOpen, UniqueOpen;
  }

  lemma CarryBacked(g: Geometry, a: Vol, b: Vol, c: Vol, p: nat)
    requires Backed(g, a, b, p) && c.d == b.d && c.files == b.files
    ensures Backed(g, a, c, p)
  {
    hide DecodeInode, Slot, Count;
  }

  lemma SlotBack(g: Geometry, a: Vol, c: Vol, d1: Disk, d2: Disk, p: nat)
    requires Backed(g, a, c, p) && g.Wf() && p < MAX_FILES_PER_PART && SameTable(g, c.d, d1) && SameTable(g, d1, d2)
    ensures p in c.files && (p == 0 || Count(a.open, p) > 0 || DecodeInode(Slot(d2, g, p)) == c.files[p])
  {
    SameTableTrans(g, c.d, d1, d2);
    SlotSame(g, c.d, d2, p);
    hide DecodeInode, Slot, Count, SameTable;
  }

  /** The versions once the file and the reference to its directory are given back. */
  lemma IsFailedFiles(g: Geometry, a: Vol, c: Vol, d: Vol, f: Vol, h: Vol, p: nat, no: nat, m: Meta, name: Name, room: Room, bits: seq<bool>)
    requires Backed(g, a, c, p) && p in a.files && no !in a.files && c.files == a.files[no := m] && p in d.files && g.Wf() && p < MAX_FILES_PER_PART
    requires SameBut(c.files, d.files, p) && OnlyIndirect(c.files[p], d.files[p]) && SameTable(g, c.d, d.d)
    requires HasIndirect(d.files[p]) <==> LinkIndirect(a.files[p], EntriesOf(a, p), name, room.read, room.write, bits)
    requires f.files == d.files - {no} && SameTable(g, d.d, f.d) && Extra(a.open, f.open, p, 0)
    requires h.files == if p == 0 || Count(f.open, p) > 1 then f.files else f.files[p := DecodeInode(Slot(f.d, g, p))]
    ensures FailedFiles(a, h, p, name, room, bits)
  {
    SlotBack(g, a, c, d.d, f.d, p);
    if p != 0 { ExtraIs(a.open, f.open, p, 0, p); }
    hide *;
    ButNew(a.files, c.files, d.files, p, no, m);
    ButAt(a.files, f.files, h.files, p);
    IsFailed(a, h, p, name, room, bits);
  }

  lemma ButNew(a: Files, c: Files, d: Files, p: nat, no: nat, m: Meta)
    requires p in a && no !in a && c == a[no := m] && SameBut(c, d, p) && p in d
    ensures SameBut(a, d - {no}, p) && p in d - {no} && (d - {no})[p] == d[p] && p in c && c[p] == a[p]
  {
  }

  lemma ButAt(a: Files, f: Files, h: Files, p: nat)
    requires SameBut(a, f, p) && p in f && (h == f || (p in h && h == f[p := h[p]]))
    ensures SameBut(a, h, p) && p in h
  {
  }

  lemma IsFailed(a: Vol, b: Vol, p: nat, name: Name, room: Room, bits: seq<bool>)
    requires p in a.files && p in b.files && SameBut(a.files, b.files, p)
    requires p == 0 || Count(a.open, p) > 0 ==> OnlyIndirect(a.files[p], b.files[p])
    requires p == 0 || Count(a.open, p) > 0 ==>
               (HasIndirect(b.files[p]) <==> LinkIndirect(a.files[p], EntriesOf(a, p), name, room.read, room.write, bits))
    requires p != 0 && Count(a.open, p) == 0 ==> b.files[p] == a.files[p]
    ensures FailedFiles(a, b, p, name, room, bits)
  {
    hide Count, OnlyIndirect, HasIndirect, LinkIndirect, EntriesOf, SameBut;
  }

  lemma LinkIs(r: LinkResult, a: Vol, p: nat, es: seq<Entry>, name: Name, room: Room, bits: seq<bool>)
    requires p in a.files && es == EntriesOf(a, p) && LinkEnds(r, a.files[p], es, name, room.read, room.write, bits)
    ensures r == Linked <==> CanHold(a, p, name, room, bits)
    ensures r == ReadFailed <==> !room.read && es != []
  {
    hide EntryFits, Miss, EntriesOf, FirstFree;
  }

  lemma IsMadeFiles(a: Vol, c: Vol, d: Vol, p: nat, no: nat, name: Name, ftype: nat, room: Room, bits: seq<bool>)
    requires p in a.files && no !in a.files && c.files == a.files[no := EmptyMeta(ftype)] && p in d.files && SameBut(c.files, d.files, p)
    requires HasIndirect(d.files[p]) <==> LinkIndirect(a.files[p], EntriesOf(a, p), name, room.read, room.write, bits)
    ensures MadeFiles(a, d, p, no, name, ftype, room, bits)
  {
    hide HasIndirect, LinkIndirect, EntriesOf, EmptyMeta;
    assert no in c.files && no != p;
  }

  lemma IsSameBut(a: Files, b: Files, p: nat)
    requires forall n :: n in a && n != p ==> n in b && b[n] == a[n]
    ensures SameBut(a, b, p)
  {
  }

  lemma NewStaysEmpty(a: Vol, c: Vol, d: Vol, p: nat, no: nat, ftype: nat)
    requires p in a.files && no !in a.files && c.files == a.files[no := EmptyMeta(ftype)] && SameBut(c.files, d.files, p)
    ensures no in d.files && d.files[no] == EmptyMeta(ftype) && p in c.files && c.files[p] == a.files[p]
  {
    hide EmptyMeta;
    assert no in c.files && no != p;
  }

  /** The second half: dir_link, and the file given back if that fails. */
  method LinkNew(fs: FileStore, p: nat, e: Entry, pad: seq<bv8>, room: Room, rest: InodeImage, ghost a: Vol, ghost c: Vol,
                 ghost bits: seq<bool>, ghost ibits: seq<bool>) returns (r: Made)
    requires fs.Valid() && c == Now(fs) && TreeOk(a) && Pending(a, c, e.ino, e.ftype, p) && IsDirectory(a, p) && IsOpen(c.open, p)
    requires UniqueOpen(a.open) && OpenOk(a.open, a.files) && c.files == a.files[e.ino := EmptyMeta(e.ftype)] && Backed(fs.geo, a, c, p)
    requires 0 < e.ftype < 0x1_0000_0000 && |pad| == 4 && NameOk(e.name)
    requires bits == fs.blockBitmap.Value() && ibits == fs.inodeBitmap.Value()
    modifies fs`disk, fs`open, fs`files, fs.blockBitmap.bits, fs.inodeBitmap.bits
    ensures fs.Valid() && r in {Made(e.ino), Failed, Stop}
    ensures r.Made? ==> MadeFiles(a, Now(fs), p, e.ino, e.name, e.ftype, room, bits)
    ensures r.Made? ==> if e.name != [] then Created(a, Now(fs), p, e.ino, e.name, e.ftype) else Nameless(a, Now(fs), p, e.ino, e.ftype)
    ensures r == Failed ==> Untouched(a, Now(fs)) && FailedFiles(a, Now(fs), p, e.name, room, bits)
    ensures r.Made? <==> CanHold(a, p, e.name, room, bits)
    ensures r == Stop <==> !room.read && EntriesOf(a, p) != []
    ensures p in a.files && fs.blockBitmap.Value() == LinkBits(a.files[p], EntriesOf(a, p), e.name, room.read, room.write, bits)
    ensures r == Failed ==> e.ino < |ibits| && fs.inodeBitmap.Value() == ibits[e.ino := false]
    ensures r.Made? ==> fs.inodeBitmap.Value() == ibits
  {
    hide *;
    NowIs(fs, c);
    PendingFacts(a, c, e.ino, e.ftype, p);
    HoldsDir(a, c, p);
    NumberRange(fs, e.ino);
    NumberRange(fs, p);
    fs.ValidFacts();
    fs.FrameFacts();
    IsEntry(e);
    ghost var es := DirEntries(c.d, c.files[p]);
    var l := DirLink(fs, p, e, pad, room.read, room.write, rest, es, c.d, c.files, c.open);
    ghost var d := Now(fs);
    NowIs(fs, d);
    LinkIs(l, a, p, es, e.name, room, bits);
    if l == ReadFailed { return Stop; }
    IsSameBut(c.files, d.files, p);
    if l == Linked {
      if e.name != [] { IsCreated(a, c, d, p, e); } else { IsNameless(a, c, d, p, e); }
      IsMadeFiles(a, c, d, p, e.ino, e.name, e.ftype, room, bits);
      return Made(e.ino);
    }
    NotLinkedKept(a, c, d, p, e.ino, e.ftype, l, e);
    NewIsOpenOnce(a, d, e.ino, p);
    NewStaysEmpty(a, c, d, p, e.ino, e.ftype);
    Abandon(fs, e.ino, e.ftype, d);
    ghost var f := Now(fs);
    NowIs(fs, f);
    Abandoned(a, d, f, e.ino, p);
    HeldStill(fs, a, f, p);
    CloseNumber(fs, p, f.d, f.files, f.open);
    NowIs(fs, Now(fs));
    GivenBack(a, f, Now(fs), p);
    IsFailedFiles(fs.geo, a, c, d, f, Now(fs), p, e.ino, EmptyMeta(e.ftype), e.name, room, bits);
    r := Failed;
  }

  /** What create_file_or_directory returns: the new inode, NULL, or not at all because a directory cannot be read. */
  datatype Made = Made(no: nat) | Failed | Stop

  method CreateFileOrDirectory(fs: FileStore, path: seq<bv8>, cwd: nat, ftype: nat, room: Room, pad: seq<bv8>, rest: InodeImage, ghost a: Vol,
                               ghost bits: seq<bool>, ghost ibits: seq<bool>)
    returns (r: Made)
    requires fs.Valid() && a == Now(fs) && TreeOk(a) && IsDirectory(a, cwd)
    requires 0 < ftype < 0x1_0000_0000 && |pad| == 4 && NameOk(LastName(path))
    requires bits == fs.blockBitmap.Value() && ibits == fs.inodeBitmap.Value()
    modifies fs`disk, fs`open, fs`files, fs.blockBitmap.bits, fs.inodeBitmap.bits
    ensures fs.Valid()
    ensures r.Made? ==> Parent(a, path, cwd).Some?
    ensures r.Made? && LastName(path) != [] ==> Created(a, Now(fs), Parent(a, path, cwd).value, r.no, LastName(path), ftype)
    ensures r.Made? && LastName(path) == [] ==> Nameless(a, Now(fs), Parent(a, path, cwd).value, r.no, ftype)
    ensures r == Failed ==> Untouched(a, Now(fs))
    ensures CreateEnds(r, a, path, cwd, room, bits, ibits) && CreateFiles(r, a, Now(fs), path, cwd, ftype, room, bits, ibits)
    ensures r != Stop ==> fs.blockBitmap.Value() == CreateBits(a, path, cwd, room, bits, ibits)
    ensures r != Stop ==> fs.inodeBitmap.Value() == CreateNumbers(a, path, cwd, room, bits, ibits)
    ensures r.Made? ==> r.no < |ibits| && !ibits[r.no]
  {
    hide *;
    ListIsUnique(fs);
    NowIs(fs, a);
    TreeFacts(a);
    fs.ValidFacts();
    fs.FrameFacts();
    GetsIs(room, ibits);
    var got := fs.InodeAlloc(ftype, room.inode, rest);
    ghost var b := Now(fs);
    NowIs(fs, b);
    if got == -1 {
      NumberLost(a, b);
      NoInode(a, b, path, cwd, ftype, room, bits, ibits);
      return Failed;
    }
    r := CreateLinked(fs, path, cwd, ftype, room, pad, rest, a, b, bits, ibits);
  }

  lemma GetsIs(room: Room, ibits: seq<bool>)
    ensures GetsInode(room, ibits) <==> room.inode && !AllSet(ibits)
  {
    hide AllSet;
  }

  lemma NumberBack(ibits: seq<bool>, no: nat)
    requires no < |ibits| && !ibits[no]
    ensures ibits[no := true][no := false] == ibits
  {
  }

  lemma NewVersion(ftype: nat, a: Vol, b: Vol)
    requires Allocated(ftype, a.files, a.open, b.files, b.open)
    ensures |b.open| > 0 && b.open[0].no in b.files && b.open[0].no !in a.files && b.files == a.files[b.open[0].no := EmptyMeta(ftype)]
    ensures b.files[b.open[0].no] == EmptyMeta(ftype) && b.files - {b.open[0].no} == a.files
  {
    hide EmptyMeta;
  }

  /** The inode is there: the search for the directory, and dir_link. */
  method CreateLinked(fs: FileStore, path: seq<bv8>, cwd: nat, ftype: nat, room: Room, pad: seq<bv8>, rest: InodeImage, ghost a: Vol, ghost b: Vol,
                      ghost bits: seq<bool>, ghost ibits: seq<bool>)
    returns (r: Made)
    requires fs.Valid() && b == Now(fs) && TreeOk(a) && IsDirectory(a, cwd) && UniqueOpen(a.open) && OpenOk(a.open, a.files)
    requires 0 < ftype < 0x1_0000_0000 && |pad| == 4 && NameOk(LastName(path))
    requires Allocated(ftype, a.files, a.open, b.files, b.open) && BytesKept(a.d, b.d, a.files) && GetsInode(room, ibits)
    requires |b.open| > 0 && b.open[0].no < |ibits| && !ibits[b.open[0].no]
    requires bits == fs.blockBitmap.Value() && fs.inodeBitmap.Value() == ibits[b.open[0].no := true] == Bitmaps.TakeFirst(ibits, 1)
    modifies fs`disk, fs`open, fs`files, fs.blockBitmap.bits, fs.inodeBitmap.bits
    ensures fs.Valid()
    ensures r.Made? ==> Parent(a, path, cwd).Some?
    ensures r.Made? && LastName(path) != [] ==> Created(a, Now(fs), Parent(a, path, cwd).value, r.no, LastName(path), ftype)
    ensures r.Made? && LastName(path) == [] ==> Nameless(a, Now(fs), Parent(a, path, cwd).value, r.no, ftype)
    ensures r == Failed ==> Untouched(a, Now(fs))
    ensures CreateEnds(r, a, path, cwd, room, bits, ibits) && CreateFiles(r, a, Now(fs), path, cwd, ftype, room, bits, ibits)
    ensures r != Stop ==> fs.blockBitmap.Value() == CreateBits(a, path, cwd, room, bits, ibits)
    ensures r != Stop ==> fs.inodeBitmap.Value() == CreateNumbers(a, path, cwd, room, bits, ibits)
    ensures r.Made? ==> r.no == b.open[0].no
  {
    hide *;
    NowIs(fs, b);
    TreeFacts(a);
    ListIsUnique(fs);
    IsPending(a, b, ftype);
    NewVersion(ftype, a, b);
    var no := fs.open[0].no;
    PendingFacts(a, b, no, ftype, 0);
    NumberBack(ibits, no);
    ValidSettled(fs);
    CwdStays(a, b, cwd, path);
    ParentHere(a, path, cwd);
    var s := SearchFile(fs, path, cwd, true, room.read, b.d, b.files, b.open);
    ParentIs(b, path, cwd);
    StartIs(path, cwd);
    ghost var c := Now(fs);
    NowIs(fs, c);
    if s == Panicked {
      Unreadable(a, c, path, cwd, ftype, room, bits, ibits);
      return Stop;
    }
    if s == NotFound {
      GoneSearch(a, b, c, no, ftype);
      NewIsOpenOnce(a, c, no, 0);
      Abandon(fs, no, ftype, c);
      NowIs(fs, Now(fs));
      Abandoned(a, c, Now(fs), no, 0);
      IsUntouched(a, Now(fs));
      NoParent(a, Now(fs), path, cwd, ftype, room, bits, ibits);
      return Failed;
    }
    StillPending(a, b, c, no, ftype, s.no);
    ParentDir(a, path, cwd);
    DirFiles(a, s.no);
    IsBacked(fs.geo, a, b, no, s.no);
    CarryBacked(fs.geo, a, b, c, s.no);
    r := LinkNew(fs, s.no, Entry(LastName(path), no, ftype), pad, room, rest, a, c, bits, ibits[no := true]);
    AtParent(r, a, Now(fs), path, cwd, ftype, room, bits, ibits, s.no);
  }

  lemma Unreadable(a: Vol, b: Vol, path: seq<bv8>, cwd: nat, ftype: nat, room: Room, bits: seq<bool>, ibits: seq<bool>)
    requires GetsInode(room, ibits) && !room.read && EntriesOf(a, Start(path, cwd)) != []
    ensures CreateEnds(Stop, a, path, cwd, room, bits, ibits) && CreateFiles(Stop, a, b, path, cwd, ftype, room, bits, ibits)
  {
    hide Parent, EntriesOf, CanHold, GetsInode;
  }

  lemma CreatedGrows(a: Vol, b: Vol, p: nat, no: nat, name: Name, ftype: nat)
    requires TreeOk(a) && Created(a, b, p, no, name, ftype)
    ensures Grown(a, b) && Child(b, p, name) == Some(no)
  {
    DirOkIs(a, p);
    hide TreeOk, Kept, EntriesOf, View, Put, FirstFree, Extra, DirOk, IsDir, Tidy;
    TreeFacts(a);
    TreeFacts(b);
    ChildFacts(b, p, name);
    forall n | IsDirectory(a, n) ensures IsDirectory(b, n) {
      if n != p { KeptIsDirectory(a, b, a.files.Keys - {p}, n); }
    }
    forall n, nm | IsDirectory(a, n) && Child(a, n, nm).Some? ensures Child(b, n, nm) == Child(a, n, nm) {
      if n != p {
        ChildKept(a, b, a.files.Keys - {p}, n, nm);
      } else {
        ChildFacts(a, p, nm);
        ChildFacts(b, p, nm);
      }
    }
  }

  /** After creating a file its path leads to it, and every path that led somewhere still leads there. */
  lemma CreatedIsFound(a: Vol, b: Vol, path: seq<bv8>, cwd: nat, p: nat, no: nat, ftype: nat)
    requires TreeOk(a) && IsDirectory(a, cwd) && Parent(a, path, cwd) == Some(p) && LastName(path) != []
    requires Created(a, b, p, no, LastName(path), ftype)
    ensures Lookup(b, path, cwd) == Some(no)
    ensures forall q, dir :: IsDirectory(a, dir) && Lookup(a, q, dir).Some? ==> Lookup(b, q, dir) == Lookup(a, q, dir)
  {
    CreatedGrows(a, b, p, no, LastName(path), ftype);
    hide *;
    TreeFacts(a);
    StartIs(path, cwd);
    ParentGrown(a, b, path, cwd);
    LookupIs(b, path, cwd);
    forall q, dir | IsDirectory(a, dir) && Lookup(a, q, dir).Some? ensures Lookup(b, q, dir) == Lookup(a, q, dir) {
      LookupGrown(a, b, q, dir);
    }
  }

  lemma ParentGrown(a: Vol, b: Vol, path: seq<bv8>, cwd: nat)
    requires Grown(a, b) && IsDirectory(a, cwd) && IsDirectory(a, 0)
    ensures Parent(a, path, cwd).Some? ==> Parent(b, path, cwd) == Parent(a, path, cwd)
  {
    ResolveGrown(a, b, Start(path, cwd), Split(path).dirs);
  }

  lemma LookupGrown(a: Vol, b: Vol, path: seq<bv8>, cwd: nat)
    requires AllDirsOk(a.d, a.files) && Grown(a, b) && IsDirectory(a, cwd) && IsDirectory(a, 0) && Lookup(a, path, cwd).Some?
    ensures Lookup(b, path, cwd) == Lookup(a, path, cwd)
  {
    hide *;
    ParentGrown(a, b, path, cwd);
    ParentDir(a, path, cwd);
    LookupOf(a, path, cwd);
    LookupOf(b, path, cwd);
    var p := Parent(a, path, cwd);
    if p.Some? { ChildGrown(a, b, p.value, Split(path).last); }
  }

  lemma LookupOf(v: Vol, path: seq<bv8>, cwd: nat)
    ensures Lookup(v, path, cwd) ==
            match Parent(v, path, cwd)
            case None => None
            case Some(p) => if Split(path).last == [] then Some(p) else Child(v, p, Split(path).last)
  {
    TargetIs(v.d, v.files, Start(path, cwd), Split(path), false);
    hide Resolve, ChildOf, Split;
  }

  lemma ChildGrown(a: Vol, b: Vol, p: nat, name: Name)
    requires Grown(a, b) && IsDirectory(a, p)
    ensures Child(a, p, name).Some? ==> Child(b, p, name) == Child(a, p, name)
  {
    hide Child;
  }

  // ---- delete_file_or_directory ----

  /** File `c` is gone, and all others and their names are what they were.  Its entry in directory `p` is gone iff
      dir_unlink could write; only then is the tree in order.  The directory has one reference more. */
  ghost predicate Removed(a: Vol, b: Vol, p: nat, c: nat, name: Name, wrote: bool) {
    && b.files.Keys == a.files.Keys - {c} && IsDirectory(a, p) && IsDirectory(b, p) && Kept(a, b, a.files.Keys - {p, c})
    && (wrote ==> View(EntriesOf(b, p)) == View(EntriesOf(a, p)) - {name}
                  && exists i: nat :: IsAt(EntriesOf(a, p), name, i) && EntriesOf(b, p) == EntriesOf(a, p)[i := FreeEntry()])
    && (!wrote ==> EntriesOf(b, p) == EntriesOf(a, p))
    && (TreeOk(b) <==> wrote)
    && Extra(a.open, b.open, p, 0)
  }

  /** dir_unlink of a name whose file inode_free has just given back. */
  method UnlinkFreed(fs: FileStore, p: nat, name: Name, pad: seq<bv8>, writeOk: bool, rest: InodeImage, ghost es: seq<Entry>,
                     ghost i0: nat, ghost b: Vol)
    requires fs.Valid() && b == Now(fs) && IsOpen(b.open, p) && IsDir(b.d, b.files, p) && p in b.files && es == DirEntries(b.d, b.files[p])
    requires name != [] && |pad| == 4 && IsAt(es, name, i0) && es[i0].ino !in b.files && es[i0].ino < MAX_FILES_PER_PART
    modifies fs`disk, fs`open, fs`files, fs.blockBitmap.bits
    ensures fs.Valid() && OnlyDir(p, b.d, b.files, b.open, fs.disk, fs.files, fs.open)
    ensures p in fs.files && Stored1(writeOk, es, i0, FreeEntry(), fs.disk, b.files[p], fs.files[p])
    ensures fs.blockBitmap.Value() == old(fs.blockBitmap.Value()) && (HasIndirect(fs.files[p]) <==> HasIndirect(b.files[p]))
  {
    hide *;
    NowIs(fs, b);
    TidyDir(b.d, b.files, p);
    HitIs(es, name, i0);
    AtFacts(es, name, i0);
    SmallDir(b.d, b.files, p, i0);
    SlotTakesNone(b.files[p], i0, writeOk, fs.blockBitmap.Value());
    var found := FindEntry(fs, p, name, true, es);
    if found.Found? { HitIs(es, name, found.i); }
    HitIs(es, name, 0);
    OnlyThere(es, name, i0, found);
    fs.TouchFreed(found.child);
    FreeFits();
    var ok := StoreEntry(fs, p, found.i, FreeEntry(), pad, writeOk, rest, b.d, b.files, b.open);
  }

  /** The search finds the one entry of that name. */
  lemma OnlyThere(es: seq<Entry>, name: Name, i: nat, r: LookUp)
    requires Tidy(es) && IsAt(es, name, i) && (r.Found? ==> IsAt(es, name, r.i) && r.child == es[r.i].ino) && (r.Absent? ==> name !in View(es))
    requires !r.Panic?
    ensures r == Found(i, es[i].ino)
  {
    ViewAt(es, name, i);
    hide View;
  }

  /** Nobody holds the file, and it is neither the root nor the directory itself. */
  ghost predicate Unheld(a: Vol, p: nat, c: nat) {
    c != 0 && c != p && Count(a.open, c) == 0
  }

  /** What dir_look_up finds in directory `p`: for an empty name the root, to whose number free entries are set. */
  ghost function Named(v: Vol, p: nat, name: Name): Option<nat> {
    if name != [] then Child(v, p, name) else if FirstFree(EntriesOf(v, p)) < |EntriesOf(v, p)| then Some(0) else None
  }

  /** The inode that delete_file_or_directory is about. */
  ghost function Victim(v: Vol, path: seq<bv8>, cwd: nat): Option<nat> {
    match Parent(v, path, cwd) case None => None case Some(p) => Named(v, p, LastName(path))
  }

  /** That is the one the path names, unless the path ends with a slash. */
  lemma VictimIsLookup(v: Vol, path: seq<bv8>, cwd: nat)
    requires LastName(path) != []
    ensures Victim(v, path, cwd) == Lookup(v, path, cwd)
  {
    LookupIs(v, path, cwd);
    hide Parent, Lookup, Child, LastName;
  }

  ghost predicate Deletable(a: Vol, path: seq<bv8>, cwd: nat) {
    && Parent(a, path, cwd).Some? && Victim(a, path, cwd).Some?
    && Unheld(a, Parent(a, path, cwd).value, Victim(a, path, cwd).value)
  }

  lemma IsDeletable(a: Vol, path: seq<bv8>, cwd: nat, p: nat)
    requires Parent(a, path, cwd) == Some(p)
    ensures Victim(a, path, cwd) == Named(a, p, LastName(path))
    ensures Deletable(a, path, cwd) <==> Victim(a, path, cwd).Some? && Unheld(a, p, Victim(a, path, cwd).value)
  {
    hide Parent, Named, Unheld, LastName;
  }

  lemma NoVictim(a: Vol, path: seq<bv8>, cwd: nat)
    requires Parent(a, path, cwd) == None
    ensures Victim(a, path, cwd) == None
  {
    hide Parent;
  }

  lemma EntriesThere(a: Vol, n: nat)
    ensures n in a.files ==> EntriesOf(a, n) == DirEntries(a.d, a.files[n])
  {
    hide DirEntries;
  }

  lemma DirFiles(a: Vol, n: nat)
    requires IsDirectory(a, n)
    ensures n in a.files && a.files[n].ftype == FT_DIRECTORY
  {
  }

  lemma ExtraHeld(open0: seq<InCore>, open: seq<InCore>, p: nat)
    requires OneMore(open0, open, p)
    ensures Extra(open0, open, p, 0)
  {
    hide Count;
  }

  lemma ExtraNobody(open0: seq<InCore>, open: seq<InCore>)
    requires NoneMore(open0, open)
    ensures Extra(open0, open, 0, 0)
  {
    hide Count;
  }

  lemma FoundNothing(a: Vol, b: Vol)
    requires TreeOk(a) && a.d == b.d && a.files == b.files && NoneMore(a.open, b.open)
    ensures Untouched(a, b)
  {
    SelfSame(a.d, a.files, 0);
    KeptSame(a, b);
    ExtraNobody(a.open, b.open);
    hide TreeOk, SameFiles, NoneMore, Extra, Kept;
    IsUntouched(a, b);
  }

  /** The state once the directory is held. */
  ghost predicate Holding(a: Vol, b: Vol, p: nat) {
    && Kept(a, b, a.files.Keys) && b.files.Keys == a.files.Keys && AllDirsOk(b.d, b.files)
    && IsDirectory(a, p) && IsOpen(b.open, p) && Extra(a.open, b.open, p, 0)
  }

  lemma IsHolding(a: Vol, b: Vol, p: nat)
    requires a.d == b.d && a.files == b.files && OneMore(a.open, b.open, p)
    requires AllDirsOk(b.d, b.files) && IsDirectory(a, p) && IsOpen(b.open, p)
    ensures Holding(a, b, p)
  {
    SelfSame(a.d, a.files, p);
    KeptSame(a, b);
    ExtraHeld(a.open, b.open, p);
    hide SameFiles, OneMore, Extra, Kept, AllDirsOk;
  }

  lemma HoldingFacts(a: Vol, b: Vol, p: nat)
    requires Holding(a, b, p)
    ensures Kept(a, b, a.files.Keys) && b.files.Keys == a.files.Keys && AllDirsOk(b.d, b.files)
    ensures IsDirectory(a, p) && IsOpen(b.open, p) && Extra(a.open, b.open, p, 0)
  {
    hide Extra, Kept, AllDirsOk;
  }

  /** The count that inode_free looks at is 1 iff nobody but the look-up holds the file. */
  lemma HeldTimes(a: Vol, b: Vol, open: seq<InCore>, p: nat, c: nat)
    requires Extra(a.open, b.open, p, 0) && UniqueOpen(b.open) && IsOpen(b.open, 0)
    requires forall n :: Count(open, n) == Count(b.open, n) + (if n == c then 1 else 0)
    ensures Count(open, c) == 1 <==> Unheld(a, p, c)
  {
    OpenMeansCounted(b.open, 0);
    if c != 0 { ExtraIs(a.open, b.open, p, 0, c); }
    hide Count, UniqueOpen, IsOpen;
  }

  lemma FreedFile(a: Vol, b: Vol, f: Vol, c: nat, p: nat)
    requires Kept(a, b, a.files.Keys) && b.files.Keys == a.files.Keys && f.files == b.files - {c} && BytesKept(b.d, f.d, f.files)
    requires AllDirsOk(b.d, b.files) && IsDirectory(b, p) && p != c
    ensures Kept(a, f, a.files.Keys - {c}) && f.files.Keys == a.files.Keys - {c}
    ensures IsDir(f.d, f.files, p) && IsDirectory(f, p) && p in f.files && p in b.files && DirEntries(f.d, f.files[p]) == DirEntries(b.d, b.files[p])
  {
    KeptFree(b, f, c);
    DirOkIs(b, p);
    KeptDir(b, f, b.files.Keys - {c}, p);
    hide Kept, BytesKept, IsDir, DirOk, AllDirsOk, Tidy, NoDangling, DirEntries;
    KeptLess(a, b, a.files.Keys, a.files.Keys - {c});
    KeptTrans(a, b, f, a.files.Keys - {c}, b.files.Keys - {c});
  }

  lemma KeptDown(a: Vol, f: Vol, g: Vol, p: nat, c: nat)
    requires Kept(a, f, a.files.Keys - {c}) && f.files.Keys == a.files.Keys - {c} && Extra(a.open, f.open, p, 0)
    requires OnlyDir(p, f.d, f.files, f.open, g.d, g.files, g.open)
    ensures Kept(a, g, a.files.Keys - {p, c}) && g.files.Keys == a.files.Keys - {c} && Extra(a.open, g.open, p, 0)
  {
    OnlyDirElsewhere(p, f.d, f.files, f.open, g.d, g.files, g.open);
    ExtraSame(a.open, f.open, g.open, p, 0);
    KeptElsewhere(f, g, p);
    hide Kept, OnlyDir, Elsewhere, Extra;
    KeptLess(a, f, a.files.Keys - {c}, a.files.Keys - {p, c});
    KeptTrans(a, f, g, a.files.Keys - {p, c}, f.files.Keys - {p});
  }

  /** What dir_unlink left in the directory. */
  lemma UnlinkedEntries(g: Vol, p: nat, es: seq<Entry>, name: Name, i: nat, m0: Meta, wrote: bool)
    requires Tidy(es) && IsAt(es, name, i) && p in g.files && m0.ftype == FT_DIRECTORY
    requires Stored1(wrote, es, i, FreeEntry(), g.d, m0, g.files[p])
    ensures IsDir(g.d, g.files, p) && IsDirectory(g, p)
    ensures EntriesOf(g, p) == if wrote then es[i := FreeEntry()] else es
    ensures wrote ==> View(EntriesOf(g, p)) == View(es) - {name}
  {
    ClearTidy(es, i);
    ClearView(es, name, i);
    hide Tidy, View, Content, Entries;
  }

  lemma IsRemoved(a: Vol, f: Vol, g: Vol, p: nat, c: nat, i: nat, name: Name, wrote: bool)
    requires TreeOk(a) && IsDirectory(a, p) && IsAt(EntriesOf(a, p), name, i) && EntriesOf(a, p)[i].ino == c && c != 0 && c != p
    requires Kept(a, f, a.files.Keys - {c}) && f.files.Keys == a.files.Keys - {c} && Extra(a.open, f.open, p, 0)
    requires OnlyDir(p, f.d, f.files, f.open, g.d, g.files, g.open) && p in g.files && IsDirectory(f, p)
    requires Stored1(wrote, EntriesOf(a, p), i, FreeEntry(), g.d, f.files[p], g.files[p])
    ensures Removed(a, g, p, c, name, wrote)
  {
    KeptDown(a, f, g, p, c);
    DirOkIs(a, p);
    UnlinkedEntries(g, p, EntriesOf(a, p), name, i, f.files[p], wrote);
    hide Kept, OnlyDir, Extra, TreeOk, AllDirsOk, DirOk, IsDir, EntriesOf, View, Tidy, NoDangling, Stored1;
    assert Refers(a, p, i, c);
    assert OneFileLess(a, g, p, i, c, EntriesOf(g, p));
    if wrote {
      UnlinkTree(a, g, p, i, c, EntriesOf(g, p));
    } else {
      StaleTree(a, g, p, i, c, EntriesOf(g, p));
    }
  }

  /** delete_file_or_directory once the directory is found. */
  method DeleteIn(fs: FileStore, p: nat, name: Name, memOk: bool, writeOk: bool, pad: seq<bv8>, rest: InodeImage, ghost a: Vol, ghost b: Vol,
                  ghost bits: seq<bool>, ghost ibits: seq<bool>)
    returns (r: Gone)
    requires fs.Valid() && b == Now(fs) && TreeOk(a) && Holding(a, b, p) && |pad| == 4
    requires b.d == a.d && b.files == a.files && Settled(fs.geo, a.d, a.files, a.open)
    requires bits == fs.blockBitmap.Value() && ibits == fs.inodeBitmap.Value()
    modifies fs`disk, fs`open, fs`files, fs.blockBitmap.bits, fs.inodeBitmap.bits
    ensures fs.Valid()
    ensures r == Missing ==> Named(a, p, name) == None && Untouched(a, Now(fs))
    ensures r == Missing ==> fs.files == a.files && fs.blockBitmap.Value() == bits && fs.inodeBitmap.Value() == ibits
    ensures r.Deleted? ==> GivenUp(fs.geo, a, Now(fs), p, r.no, bits, ibits, fs.blockBitmap.Value(), fs.inodeBitmap.Value())
    ensures r.Deleted? ==> memOk && Named(a, p, name) == Some(r.no) && Unheld(a, p, r.no) && Removed(a, Now(fs), p, r.no, name, writeOk)
    ensures r == Halt <==> if memOk then Named(a, p, name).Some? && !Unheld(a, p, Named(a, p, name).value) else EntriesOf(a, p) != []
  {
    hide *;
    NowIs(fs, b);
    TreeFacts(a);
    ListIsUnique(fs);
    HoldingFacts(a, b, p);
    HoldsDir(a, b, p);
    DirFacts(b.d, b.files, p);
    ghost var es := EntriesOf(a, p);
    var found := DirLookUp(fs, p, name, memOk, es, b.open);
    FindsNamed(found, a, p, es, name, b.files, b.open, fs.open);
    if found.Panic? { return Halt; }
    if found.Absent? {
      ExtraCount(a.open, b.open, p);
      OpenedAndClosed(fs.geo, a.d, a.files, a.open, b.open, p);
      CloseNumber(fs, p, b.d, b.files, b.open);
      NowIs(fs, Now(fs));
      GivenBack(a, b, Now(fs), p);
      return Missing;
    }
    var c := found.child;
    LookUpCounts(fs, found, es, name, b.open);
    HeldTimes(a, b, fs.open, p, c);
    r := DeleteChild(fs, p, c, found.i, name, writeOk, pad, rest, a, b, bits, ibits);
  }

  lemma FindsNamed(r: LookUp, a: Vol, p: nat, es: seq<Entry>, name: Name, files: Files, open0: seq<InCore>, open: seq<InCore>)
    requires LookedUp(r, es, name, files, open0, open) && Tidy(es) && es == EntriesOf(a, p) && IsDirectory(a, p)
    requires r.Found? ==> name == [] ==> r.child == 0
    ensures r.Absent? ==> Named(a, p, name) == None
    ensures r.Found? ==> Named(a, p, name) == Some(r.child) && r.child in files && open == Opened(open0, r.child, files[r.child])
    ensures r.Found? ==> r.i < |es| && es[r.i].ino == r.child && (r.child == 0 || IsAt(es, name, r.i))
    ensures !r.Found? ==> open == open0
  {
    if name != [] {
      LookUpFacts(r, es, name, files, open0, open);
      FoundInView(r, es, name, files, open0, open);
    }
    hide Opened, Tidy, View, EntriesOf;
  }

  method DeleteChild(fs: FileStore, p: nat, c: nat, i: nat, name: Name, writeOk: bool, pad: seq<bv8>, rest: InodeImage, ghost a: Vol, ghost b: Vol,
                     ghost bits: seq<bool>, ghost ibits: seq<bool>)
    returns (r: Gone)
    requires b.d == a.d && b.files == a.files && bits == fs.blockBitmap.Value() && ibits == fs.inodeBitmap.Value()
    requires fs.Valid() && fs.disk == b.d && fs.files == b.files && TreeOk(a) && Holding(a, b, p) && |pad| == 4
    requires (c == 0 || (IsAt(EntriesOf(a, p), name, i) && name != [])) && i < |EntriesOf(a, p)| && EntriesOf(a, p)[i].ino == c && IsOpen(fs.open, c)
    requires forall n :: Count(fs.open, n) == Count(b.open, n) + (if n == c then 1 else 0)
    requires IsOpen(fs.open, p) && (Count(fs.open, c) == 1 <==> Unheld(a, p, c))
    modifies fs`disk, fs`open, fs`files, fs.blockBitmap.bits, fs.inodeBitmap.bits
    ensures fs.Valid() && r in {Deleted(c), Halt} && (r.Deleted? <==> Unheld(a, p, c))
    ensures r.Deleted? ==> Removed(a, Now(fs), p, c, name, writeOk)
    ensures r.Deleted? ==> GivenUp(fs.geo, a, Now(fs), p, c, bits, ibits, fs.blockBitmap.Value(), fs.inodeBitmap.Value())
  {
    hide *;
    fs.ValidFacts();
    fs.FrameFacts();
    ListIsUnique(fs);
    OpenHere(fs, c);
    NumberRange(fs, c);
    var k := fs.FindInode(c);
    CountAt(fs.open, k);
    if fs.open[k].opens != 1 { return Halt; }
    UnheldIs(a, p, c);
    ghost var open1 := fs.open;
    HoldingFacts(a, b, p);
    HoldsDir(a, b, p);
    SameDirEntries(a, b, p);
    ghost var blocks := fs.InodeFree(k, b.d, fs.blockBitmap.Value(), b.files, open1);
    ghost var f := Now(fs);
    NowIs(fs, f);
    ListIsUnique(fs);
    ClosedCounts(open1, k);
    StillOpen(open1, fs.open, c);
    FreedFile(a, b, f, c, p);
    ExtraBack(a.open, b.open, open1, f.open, p, c);
    UnlinkFreed(fs, p, name, pad, writeOk, rest, EntriesOf(a, p), i, f);
    NowIs(fs, Now(fs));
    IsRemoved(a, f, Now(fs), p, c, i, name, writeOk);
    OnlyDirMetas(p, f.d, f.files, f.open, fs.disk, fs.files, fs.open);
    IsGivenUp(fs.geo, a, f, Now(fs), p, c, bits, ibits, fs.blockBitmap.Value(), fs.inodeBitmap.Value());
    r := Deleted(c);
  }

  /** File `c` gave back its number and the blocks it lists; the other files are the same versions. */
  ghost predicate GivenUp(g: Geometry, a: Vol, b: Vol, p: nat, c: nat, bits: seq<bool>, ibits: seq<bool>, bits': seq<bool>, ibits': seq<bool>) {
    && p in a.files && p in b.files && c in a.files && c < |ibits|
    && bits' == BitsWithout(g, bits, a.d, a.files[c]) && ibits' == ibits[c := false]
    && (forall n :: n in a.files && n != p && n != c ==> n in b.files && b.files[n] == a.files[n])
    && (HasIndirect(b.files[p]) <==> HasIndirect(a.files[p]))
  }

  lemma IsGivenUp(g: Geometry, a: Vol, f: Vol, b: Vol, p: nat, c: nat, bits: seq<bool>, ibits: seq<bool>, bits': seq<bool>, ibits': seq<bool>)
    requires p in a.files && p in b.files && c in a.files && c < |ibits| && p != c
    requires bits' == BitsWithout(g, bits, a.d, a.files[c]) && ibits' == ibits[c := false]
    requires f.files == a.files - {c} && (forall n :: n in f.files && n != p ==> n in b.files && b.files[n] == f.files[n])
    requires HasIndirect(b.files[p]) <==> HasIndirect(f.files[p])
    ensures GivenUp(g, a, b, p, c, bits, ibits, bits', ibits')
  {
    hide BitsWithout, HasIndirect;
  }

  lemma ExtraCount(open0: seq<InCore>, open: seq<InCore>, p: nat)
    requires Extra(open0, open, p, 0)
    ensures p != 0 ==> Count(open, p) > Count(open0, p)
  {
    hide Count;
  }

  lemma UnheldIs(a: Vol, p: nat, c: nat)
    requires Unheld(a, p, c)
    ensures c != 0 && c != p && Count(a.open, c) == 0
  {
  }

  lemma ExtraBack(open0: seq<InCore>, open1: seq<InCore>, open2: seq<InCore>, open3: seq<InCore>, p: nat, c: nat)
    requires Extra(open0, open1, p, 0) && c != 0
    requires forall n :: Count(open2, n) == Count(open1, n) + (if n == c then 1 else 0)
    requires forall n :: Count(open3, n) + (if n == c && n != 0 then 1 else 0) == Count(open2, n)
    ensures Extra(open0, open3, p, 0)
  {
    hide Count;
  }

  /** What delete_file_or_directory returns: true (with the number that is gone), false, or not at all. */
  datatype Gone = Deleted(no: nat) | Missing | Halt

  method DeleteFileOrDirectory(fs: FileStore, path: seq<bv8>, cwd: nat, memOk: bool, writeOk: bool, pad: seq<bv8>, rest: InodeImage,
                               ghost a: Vol, ghost bits: seq<bool>, ghost ibits: seq<bool>)
    returns (r: Gone)
    requires fs.Valid() && a == Now(fs) && TreeOk(a) && IsDirectory(a, cwd)
    requires bits == fs.blockBitmap.Value() && ibits == fs.inodeBitmap.Value()
    requires |pad| == 4
    modifies fs`disk, fs`open, fs`files, fs.blockBitmap.bits, fs.inodeBitmap.bits
    ensures fs.Valid()
    ensures r == Missing ==> Victim(a, path, cwd) == None && Untouched(a, Now(fs))
    ensures r == Missing ==> fs.files == a.files && fs.blockBitmap.Value() == bits && fs.inodeBitmap.Value() == ibits
    ensures r.Deleted? ==> Parent(a, path, cwd).Some?
                             && GivenUp(fs.geo, a, Now(fs), Parent(a, path, cwd).value, r.no, bits, ibits, fs.blockBitmap.Value(), fs.inodeBitmap.Value())
    ensures r.Deleted? ==> memOk && Deletable(a, path, cwd) && Victim(a, path, cwd) == Some(r.no)
                             && Removed(a, Now(fs), Parent(a, path, cwd).value, r.no, LastName(path), writeOk)
    ensures r == Halt <==> if memOk then Victim(a, path, cwd).Some? && !Deletable(a, path, cwd) else EntriesOf(a, Start(path, cwd)) != []
  {
    hide *;
    NowIs(fs, a);
    TreeFacts(a);
    ListIsUnique(fs);
    ValidSettled(fs);
    DirFiles(a, cwd);
    DirFiles(a, 0);
    ParentHere(a, path, cwd);
    EntriesThere(a, Start(path, cwd));
    var s := SearchFile(fs, path, cwd, true, memOk, a.d, a.files, a.open);
    ParentIs(a, path, cwd);
    if Parent(a, path, cwd) == None { NoVictim(a, path, cwd); }
    StartIs(path, cwd);
    ParentDir(a, path, cwd);
    if s == Panicked { return Halt; }
    ghost var b := Now(fs);
    NowIs(fs, b);
    if s == NotFound {
      FoundNothing(a, b);
      return Missing;
    }
    var p := s.no;
    IsHolding(a, b, p);
    r := DeleteIn(fs, p, LastName(path), memOk, writeOk, pad, rest, a, b, bits, ibits);
    IsDeletable(a, path, cwd, p);
  }

  /** After deleting a file its name is gone, and the other names of the directory are what they were. */
  lemma DeletedIsGone(a: Vol, b: Vol, p: nat, c: nat, name: Name, other: Name)
    requires Removed(a, b, p, c, name, true)
    ensures Child(b, p, name) == None && (other != name ==> Child(b, p, other) == Child(a, p, other))
  {
    hide View, Kept, TreeOk, Extra;
  }

  /** Creating a file and deleting it gives back the files there were, with the names they had. */
  lemma DeleteUndoesCreate(a: Vol, b: Vol, c: Vol, p: nat, no: nat, name: Name, ftype: nat)
    requires Created(a, b, p, no, name, ftype) && Removed(b, c, p, no, name, true)
    ensures c.files.Keys == a.files.Keys && Kept(a, c, a.files.Keys - {p}) && View(EntriesOf(c, p)) == View(EntriesOf(a, p)) && TreeOk(c)
  {
    hide View, Kept, TreeOk, Extra, EntriesOf, Put, FirstFree, EmptyFile;
    KeptTrans(a, b, c, a.files.Keys - {p}, b.files.Keys - {p, no});
    var m := View(EntriesOf(a, p));
    assert m[name := (no, ftype)] - {name} == m;
  }

  // ---- other changes ----

  /** Changing the bytes of a file that is no directory leaves the tree as it is. */
  lemma TreeWritten(a: Vol, b: Vol, no: nat)
    requires TreeOk(a) && b.files.Keys == a.files.Keys && Kept(a, b, a.files.Keys - {no}) && !IsDirectory(a, no) && !IsDirectory(b, no)
    ensures TreeOk(b)
  {
    hide EntriesOf, DirOk;
    forall n | n in b.files && b.files[n].ftype == FT_DIRECTORY ensures DirOk(b.d, b.files, n) {
      KeptIsDirectory(a, b, a.files.Keys - {no}, n);
      OneDirKept(a, b, a.files.Keys - {no}, n);
    }
    KeptIsDirectory(a, b, a.files.Keys - {no}, 0);
    hide AllDirsOk, Kept;
    forall x, i, y, j, n | n != 0 && Refers(b, x, i, n) && Refers(b, y, j, n) ensures x == y && i == j {
      KeptRefers(a, b, a.files.Keys - {no}, x, i, n);
      KeptRefers(a, b, a.files.Keys - {no}, y, j, n);
    }
  }

  lemma TreeAfterWrite(a: Vol, b: Vol, w: WriteReq, k: nat, r: int, m2: Meta, last: Sector)
    requires TreeOk(a) && Wrote(w, k, a.d, a.files, a.open, b.d, b.files, b.open, r, m2, last) && k < |a.open|
    requires a.open[k].no in a.files && a.files[a.open[k].no] == a.open[k].meta && a.open[k].meta.ftype != FT_DIRECTORY
    ensures TreeOk(b)
  {
    WroteFacts(w, k, a.d, a.files, a.open, b.d, b.files, b.open, r, m2, last);
    var no := a.open[k].no;
    IsOnlyDir(no, a.d, a.files, a.open, b.d, b.files, b.open, k, m2);
    OnlyDirElsewhere(no, a.d, a.files, a.open, b.d, b.files, b.open);
    KeptElsewhere(a, b, no);
    assert m2.ftype == a.open[k].meta.ftype;
    hide Wrote, WriteOutcome, OnlyDir, Elsewhere, Kept, TreeOk, Content, ShapeOk;
    TreeWritten(a, b, no);
  }

  lemma TreeSame(a: Vol, b: Vol)
    requires TreeOk(a) && a.d == b.d && SameFiles(a.d, a.files, b.files)
    ensures TreeOk(b)
  {
    KeptSame(a, b);
    TreeKept(a, b);
  }

  // ---- what the source does not prevent ----

  /** Deleting a directory leaves its files behind: they exist, and nothing refers to them any more. */
  lemma OrphansLeft(a: Vol, b: Vol, p: nat, c: nat, name: Name, i: nat, n: nat, x: nat, j: nat)
    requires TreeOk(a) && Removed(a, b, p, c, name, true) && Refers(a, c, i, n) && n != 0 && n != c && c != p && c != 0
    ensures n in b.files && !Refers(b, x, j, n)
  {
    TreeFacts(a);
    RefersToFile(a, c, i, n);
    hide AllDirsOk, Kept, EntriesOf, View, TreeOk, Extra, Tidy;
    if Refers(b, x, j, n) {
      RefersBefore(a, b, p, c, name, x, j, n);
      assert x == c;
      NoFileNoDir(b, c);
    }
  }

  lemma NoFileNoDir(v: Vol, n: nat)
    requires IsDirectory(v, n)
    ensures n in v.files
  {
  }

  lemma RefersBefore(a: Vol, b: Vol, p: nat, c: nat, name: Name, x: nat, j: nat, n: nat)
    requires AllDirsOk(a.d, a.files) && Removed(a, b, p, c, name, true) && Refers(b, x, j, n)
    ensures Refers(a, x, j, n)
  {
    hide AllDirsOk, Kept, EntriesOf, View, TreeOk, Extra;
    if x != p {
      KeptRefers(a, b, a.files.Keys - {p, c}, x, j, n);
    } else {
      var i: nat :| IsAt(EntriesOf(a, p), name, i) && EntriesOf(b, p) == EntriesOf(a, p)[i := FreeEntry()];
    }
  }

  /** Since creating by path keeps a reference to the parent, that directory cannot be deleted as long as nobody gives
      the reference back. */
  lemma CreatedPinsParent(a: Vol, b: Vol, p: nat, no: nat, name: Name, ftype: nat, path: seq<bv8>, cwd: nat)
    requires Created(a, b, p, no, name, ftype) && p != 0 && Victim(b, path, cwd) == Some(p)
    ensures !Deletable(b, path, cwd)
  {
    hide Kept, TreeOk, EntriesOf, View, Put, FirstFree, EmptyFile, Parent, Victim, Count;
    ExtraIs(a.open, b.open, no, p, p);
  }

  // ---- a formatted partition ----

  /** strcpy of a name and the two assignments to an entry, on a block that held something before. */
  function WithEntry(block: Sector, o: nat, e: Entry): Sector
    requires o + 32 <= 512 && NameOk(e.name)
  {
    seq(512, i requires 0 <= i < 512 =>
      if o <= i < o + |e.name| then e.name[i - o]
      else if i == o + |e.name| then 0
      else if o + 16 <= i < o + 24 then ByteOf(e.ino, i - o - 16)
      else if o + 24 <= i < o + 28 then ByteOf(e.ftype, i - o - 24)
      else block[i])
  }

  lemma WithEntryBytes(block: Sector, o: nat, e: Entry)
    requires o + 32 <= 512 && NameOk(e.name)
    ensures var s := WithEntry(block, o, e)[o..o + 32];
            && |s| == 32 && (forall k :: 0 <= k < |e.name| ==> s[k] == e.name[k]) && s[|e.name|] == 0
            && (forall k :: 0 <= k < 8 ==> s[16 + k] == ByteOf(e.ino, k)) && (forall k :: 0 <= k < 4 ==> s[24 + k] == ByteOf(e.ftype, k))
  {
    hide ByteOf;
  }

  /** Whatever else the block holds, the entry is read back. */
  lemma WithEntryReads(block: Sector, o: nat, e: Entry)
    requires o + 32 <= 512 && NameOk(e.name) && e.ino < 0x1_0000_0000 && e.ftype < 0x1_0000_0000
    ensures DecodeEntry(WithEntry(block, o, e)[o..o + 32]) == e
  {
    var s := WithEntry(block, o, e)[o..o + 32];
    WithEntryBytes(block, o, e);
    hide U32, WithEntry, ByteOf, CString;
    CStringOf(e.name, s[..16]);
    Le32RoundTrip(s, 16, e.ino);
    HighBytesZero(e.ino);
    forall k | 0 <= k < 4 ensures s[20 + k] == ByteOf(0, k) {
      assert s[20 + k] == s[16 + (4 + k)];
    }
    Le32RoundTrip(s, 20, 0);
    Le32RoundTrip(s, 24, e.ftype);
  }

  function Dot(): Entry { Entry([0x2e], 0, FT_DIRECTORY) }
  function DotDot(): Entry { Entry([0x2e, 0x2e], 0, FT_DIRECTORY) }

  /** The block partition_format writes for the root: the entries . and .. over what its buffer held. */
  function RootBlock(block: Sector): Sector {
    WithEntry(WithEntry(block, 0, Dot()), 32, DotDot())
  }

  lemma TwoEntries(x: EntryBytes, y: EntryBytes)
    ensures Entries(x + y) == [DecodeEntry(x), DecodeEntry(y)]
  {
    hide DecodeEntry;
    assert (x + y)[0..32] == x && (x + y)[32..64] == y;
  }

  lemma RootTidy()
    ensures Tidy([Dot(), DotDot()])
  {
  }

  lemma FirstHalf(block: Sector, e: Entry)
    requires NameOk(e.name)
    ensures WithEntry(block, 32, e)[0..32] == block[0..32]
  {
    hide ByteOf;
  }

  lemma Dots()
    ensures NameOk(Dot().name) && Dot().ino == 0 && Dot().ftype < 0x1_0000_0000
    ensures NameOk(DotDot().name) && DotDot().ino == 0 && DotDot().ftype < 0x1_0000_0000
  {
  }

  lemma RootIsTwo(block: Sector)
    requires NameOk(Dot().name) && NameOk(DotDot().name)
    ensures RootBlock(block) == WithEntry(WithEntry(block, 0, Dot()), 32, DotDot())
  {
  }

  lemma RootEntries(block: Sector)
    ensures Entries(RootBlock(block)[..64]) == [Dot(), DotDot()]
  {
    hide *;
    Dots();
    var b1 := WithEntry(block, 0, Dot());
    var b2 := RootBlock(block);
    RootIsTwo(block);
    FirstHalf(b1, DotDot());
    WithEntryReads(block, 0, Dot());
    WithEntryReads(b1, 32, DotDot());
    TwoEntries(b2[0..32], b2[32..64]);
    assert b2[..64] == b2[0..32] + b2[32..64];
  }

  /** A volume with these two entries alone is a tree. */
  lemma FormattedTree(v: Vol, m: Meta, block: Sector)
    requires v.files == map[0 := m] && m.ftype == FT_DIRECTORY && ShapeOk(m) && Content(v.d, m) == RootBlock(block)[..64]
    ensures TreeOk(v)
  {
    RootEntries(block);
    RootTidy();
    hide Content, Entries, RootBlock, Tidy;
    assert EntriesOf(v, 0) == [Dot(), DotDot()];
    assert IsDir(v.d, v.files, 0);
  }

  /** A fresh root has room for any other name, whatever blocks are free. */
  lemma FreshHolds(v: Vol, m: Meta, block: Sector, name: Name, room: Room, bits: seq<bool>)
    requires v.files == map[0 := m] && m.size == 64 && ShapeOk(m) && Content(v.d, m) == RootBlock(block)[..64]
    requires room.read && room.write && name != Dot().name && name != DotDot().name
    ensures CanHold(v, 0, name, room, bits)
  {
    RootEntries(block);
    hide Content, Entries, RootBlock, Bitmaps.ClearBits;
    var es := EntriesOf(v, 0);
    assert es == [Dot(), DotDot()];
    RootTidy();
    if name in View(es) { var i := ViewHas(es, name); }
    FirstFreeIs(es, 2);
  }

  /** The first block of the buffer in partition_format, when it has held the inode table. */
  function TableBlock(g: Geometry): Sector {
    EncodeInode(RootMeta(g, 64), seq(INODE_SIZE, _ => 0)) + seq(512 - INODE_SIZE, _ => 0)
  }

  /** partition_format, mount_partition and the opening of the root: an empty tree, on a disk that held anything. */
  method MakeVolume(secCnt: nat, startLba: nat, d0: Disk) returns (fs: FileStore)
    requires SbInit(secCnt, startLba).Wf()
    requires SbInit(secCnt, startLba).dataLba + BITS_PER_SECTOR * SbInit(secCnt, startLba).bitmapSects <= |d0|
    ensures fs.Valid() && TreeOk(Now(fs)) && fs.files.Keys == {0}
    ensures LaidOut(secCnt, startLba, fs.geo) && secCnt <= |fs.blockBitmap.Value()| == 4096 * fs.geo.bitmapSects
    ensures fs.blockBitmap.Value() == seq(|fs.blockBitmap.Value()|, _ => false)[0 := true]
    ensures fs.inodeBitmap.Value() == seq(MAX_FILES_PER_PART, _ => false)[0 := true]
    ensures forall name, room: Room, bits :: room.read && room.write && name != Dot().name && name != DotDot().name
                                             ==> CanHold(Now(fs), 0, name, room, bits)
  {
    hide *;
    var block := TableBlock(SbInit(secCnt, startLba));
    var root := RootBlock(block);
    fs := new FileStore.Format(secCnt, startLba, d0, root, 64);
    RootIs(fs.geo);
    NowIs(fs, Now(fs));
    FormattedTree(Now(fs), fs.files[0], block);
    forall name, room: Room, bits | room.read && room.write && name != Dot().name && name != DotDot().name
      ensures CanHold(Now(fs), 0, name, room, bits)
    {
      FreshHolds(Now(fs), fs.files[0], block, name, room, bits);
    }
  }

  lemma RootIs(g: Geometry)
    ensures RootMeta(g, 64).ftype == FT_DIRECTORY && RootMeta(g, 64).size == 64
  {
  }
}
