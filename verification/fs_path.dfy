/** Paths (fs/fs.c): path_parse, search_file and sys_readdir. */
module FsPaths {
  import opened Basics
  import opened FsFormat
  import opened FsVolume
  import opened FsStore
  import opened FsInode
  import opened FsEntries
  import opened FsDirectory

  const SLASH: bv8 := 0x2f

  // ---- splitting a path ----

  function SkipSlashes(p: seq<bv8>): (q: seq<bv8>)
    ensures |q| <= |p| && q == p[|p| - |q|..] && (q != [] ==> q[0] != SLASH)
    ensures forall i :: 0 <= i < |p| - |q| ==> p[i] == SLASH
  {
    if p != [] && p[0] == SLASH then SkipSlashes(p[1..]) else p
  }

  function TakeName(p: seq<bv8>): (n: Name)
    ensures |n| <= |p| && n == p[..|n|] && (|n| < |p| ==> p[|n|] == SLASH)
    ensures forall i :: 0 <= i < |n| ==> n[i] != SLASH
  {
    if p == [] || p[0] == SLASH then [] else [p[0]] + TakeName(p[1..])
  }

  /** The directories a path goes through and the name behind its last slash. */
  datatype Parts = Parts(dirs: seq<Name>, last: Name)

  function Split(p: seq<bv8>): Parts
    decreases |p|
  {
    var q := SkipSlashes(p);
    var n := TakeName(q);
    if |n| == |q| then Parts([], n)
    else
      var rest := Split(q[|n|..]);
      Parts([n] + rest.dirs, rest.last)
  }

  /** Names joined with `n` slashes behind each. */
  ghost function Joined(dirs: seq<Name>, last: Name, n: nat): seq<bv8> {
    if dirs == [] then last else dirs[0] + Slashes(n) + Joined(dirs[1..], last, n)
  }

  function Slashes(n: nat): (s: seq<bv8>)
    ensures |s| == n && forall i :: 0 <= i < n ==> s[i] == SLASH
  {
    seq(n, _ => SLASH)
  }

  /** A name as it can stand in a path. */
  ghost predicate PlainName(name: Name) { SLASH !in name }

  lemma {:induction false} SkipsAll(n: nat, p: seq<bv8>)
    requires p == [] || p[0] != SLASH
    ensures SkipSlashes(Slashes(n) + p) == p
  {
    if n == 0 {
      assert Slashes(0) + p == p;
    } else {
      assert (Slashes(n) + p)[1..] == Slashes(n - 1) + p;
      SkipsAll(n - 1, p);
    }
  }

  lemma {:induction false} TakesAll(name: Name, p: seq<bv8>)
    requires PlainName(name) && (p == [] || p[0] == SLASH)
    ensures TakeName(name + p) == name
  {
    if name == [] {
      assert name + p == p;
    } else {
      assert (name + p)[1..] == name[1..] + p && PlainName(name[1..]);
      TakesAll(name[1..], p);
    }
  }

  /** Splitting undoes joining: whatever the number of slashes before the first name and between two of them, the names
      come back, and a slash at the end makes the last name empty. */
  lemma {:induction false} SplitJoined(dirs: seq<Name>, last: Name, m: nat, n: nat)
    requires n > 0 && PlainName(last) && forall i :: 0 <= i < |dirs| ==> PlainName(dirs[i]) && dirs[i] != []
    ensures Split(Slashes(m) + Joined(dirs, last, n)) == Parts(dirs, last)
    decreases |dirs|
  {
    hide *;
    JoinedIs(dirs, last, n);
    var p := Joined(dirs, last, n);
    if dirs == [] {
      SkipsAll(m, last);
      assert last + [] == last;
      TakesAll(last, []);
      SplitStep(Slashes(m) + p);
      assert Parts(dirs, last) == Parts([], last);
    } else {
      var rest := Slashes(n) + Joined(dirs[1..], last, n);
      SkipsAll(m, p);
      TakesAll(dirs[0], rest);
      SplitFirst(Slashes(m) + p, dirs[0], rest);
      SplitJoined(dirs[1..], last, n, n);
      assert [dirs[0]] + dirs[1..] == dirs;
    }
  }

  lemma JoinedIs(dirs: seq<Name>, last: Name, n: nat)
    requires n > 0 && PlainName(last) && forall i :: 0 <= i < |dirs| ==> PlainName(dirs[i]) && dirs[i] != []
    ensures var p := Joined(dirs, last, n);
            && (p == [] || p[0] != SLASH)
            && (dirs == [] ==> p == last)
            && (dirs != [] ==> var rest := Slashes(n) + Joined(dirs[1..], last, n);
                               p == dirs[0] + rest && rest != [] && rest[0] == SLASH)
  {
    var p := Joined(dirs, last, n);
    if dirs != [] {
      var rest := Slashes(n) + Joined(dirs[1..], last, n);
      assert p == dirs[0] + rest;
      assert p[0] == dirs[0][0] && dirs[0][0] in dirs[0];
      assert rest[0] == SLASH;
    }
  }

  lemma SplitFirst(p: seq<bv8>, name: Name, rest: seq<bv8>)
    requires SkipSlashes(p) == name + rest && TakeName(name + rest) == name && rest != []
    ensures Split(p) == Parts([name] + Split(rest).dirs, Split(rest).last)
  {
    SplitStep(p);
    hide *;
    assert (name + rest)[|name|..] == rest;
  }

  lemma SkipStep(p: seq<bv8>, i: nat)
    requires i < |p|
    ensures SkipSlashes(p[i..]) == if p[i] == SLASH then SkipSlashes(p[i + 1..]) else p[i..]
  {
    assert p[i..][1..] == p[i + 1..];
  }

  lemma TakeStep(name: Name, p: seq<bv8>, i: nat)
    requires i < |p|
    ensures p[i] == SLASH ==> TakeName(p[i..]) == []
    ensures p[i] != SLASH ==> name + TakeName(p[i..]) == (name + [p[i]]) + TakeName(p[i + 1..])
  {
    assert p[i..][1..] == p[i + 1..];
  }

  /** The slashes that path_parse skips. */
  method Skip(path: seq<bv8>, from: nat) returns (i: nat)
    requires from <= |path|
    ensures from <= i <= |path| && path[i..] == SkipSlashes(path[from..])
  {
    hide *;
    i := from;
    if i < |path| && path[i] == SLASH {
      SkipStep(path, i);
      i := i + 1;
      while i < |path| && path[i] == SLASH
        invariant from <= i <= |path| && SkipSlashes(path[from..]) == SkipSlashes(path[i..])
      {
        SkipStep(path, i);
        i := i + 1;
      }
    }
    SkipEnds(path, i);
  }

  lemma SkipEnds(p: seq<bv8>, i: nat)
    requires i <= |p| && (i < |p| ==> p[i] != SLASH)
    ensures SkipSlashes(p[i..]) == p[i..]
  {
  }

  lemma TakeEnds(name: Name, p: seq<bv8>, i: nat)
    requires i <= |p| && (i < |p| ==> p[i] == SLASH)
    ensures name + TakeName(p[i..]) == name
  {
  }

  /** path_parse from index `from`: the next name, and where the slash behind it stands, or -1. */
  method PathParse(path: seq<bv8>, from: nat) returns (name: Name, next: int)
    requires from <= |path|
    ensures var q := SkipSlashes(path[from..]);
            name == TakeName(q) && (next == -1 <==> |name| == |q|)
            && (next != -1 ==> from <= next <= |path| && path[next..] == q[|name|..])
  {
    hide *;
    var i := Skip(path, from);
    name, i := Take(path, i);
    next := if i == |path| then -1 else i;
  }

  /** The loop of path_parse that copies the name. */
  method Take(path: seq<bv8>, start: nat) returns (name: Name, i: nat)
    requires start <= |path|
    ensures start <= i <= |path| && name == TakeName(path[start..]) && i == start + |name|
    ensures |name| <= |path[start..]| && path[i..] == path[start..][|name|..]
  {
    hide *;
    i := start;
    ghost var q := path[start..];
    name := [];
    assert name + TakeName(q) == TakeName(q);
    while i < |path| && path[i] != SLASH
      invariant i == start + |name| <= |path|
      invariant name + TakeName(path[i..]) == TakeName(q)
    {
      TakeStep(name, path, i);
      name := name + [path[i]];
      i := i + 1;
    }
    TakeEnds(name, path, i);
    Tails(path, start, |name|);
  }

  lemma Tails(p: seq<bv8>, i: nat, k: nat)
    requires i + k <= |p|
    ensures p[i + k..] == p[i..][k..]
  {
  }

  // ---- what a path names ----

  /** Following names through the maps of the directories. */
  ghost function Resolve(d: Disk, files: Files, no: nat, dirs: seq<Name>): Option<nat>
    decreases |dirs|
  {
    hide *;
    if dirs == [] then Some(no)
    else
      match ChildOf(d, files, no, dirs[0])
      case None => None
      case Some(c) => if c in files && files[c].ftype == FT_DIRECTORY then Resolve(d, files, c, dirs[1..]) else None
  }

  ghost function ChildOf(d: Disk, files: Files, no: nat, name: Name): Option<nat> {
    if no in files && name in View(DirEntries(d, files[no])) then Some(View(DirEntries(d, files[no]))[name].0) else None
  }

  /** What search_file is to find. */
  ghost function Target(d: Disk, files: Files, start: nat, parts: Parts, isParent: bool): Option<nat> {
    match Resolve(d, files, start, parts.dirs)
    case None => None
    case Some(p) => if isParent || parts.last == [] then Some(p) else ChildOf(d, files, p, parts.last)
  }

  lemma SplitStep(p: seq<bv8>)
    ensures var q := SkipSlashes(p); var n := TakeName(q);
            if |n| == |q| then Split(p) == Parts([], n)
            else n != [] && |n| <= |q| && Split(p) == Parts([n] + Split(q[|n|..]).dirs, Split(q[|n|..]).last)
  {
  }

  lemma ResolveStep(d: Disk, files: Files, no: nat, name: Name, dirs: seq<Name>)
    ensures Resolve(d, files, no, []) == Some(no)
    ensures Resolve(d, files, no, [name] + dirs) ==
            match ChildOf(d, files, no, name)
            case None => None
            case Some(c) => if c in files && files[c].ftype == FT_DIRECTORY then Resolve(d, files, c, dirs) else None
  {
    hide ChildOf;
    assert ([name] + dirs)[1..] == dirs;
  }

  // ---- search_file ----

  datatype Search = At(no: nat) | NotFound | Panicked

  /** Compared with the start, only inode `p` has one reference more; the root's count is not told. */
  ghost predicate OneMore(open0: seq<InCore>, open: seq<InCore>, p: nat) {
    forall n :: n != 0 ==> Count(open, n) == Count(open0, n) + (if n == p then 1 else 0)
  }

  ghost predicate NoneMore(open0: seq<InCore>, open: seq<InCore>) {
    forall n :: n != 0 ==> Count(open, n) == Count(open0, n)
  }

  /** The directory that search_file holds is in the list. */
  lemma HeldIsOpen(fs: FileStore, open0: seq<InCore>, p: nat)
    requires fs.Valid() && OneMore(open0, fs.open, p)
    ensures IsOpen(fs.open, p)
  {
    hide Count, IsOpen;
    ListIsUnique(fs);
    OpenMeansCounted(fs.open, p);
  }

  lemma MoreAfterOpen(open0: seq<InCore>, open1: seq<InCore>, open2: seq<InCore>, p: nat, c: nat)
    requires OneMore(open0, open1, p)
    requires forall n :: Count(open2, n) == Count(open1, n) + (if n == c then 1 else 0)
    ensures forall n :: n != 0 ==> Count(open2, n) == Count(open0, n) + (if n == p then 1 else 0) + (if n == c then 1 else 0)
  {
    hide Count;
  }

  lemma MoreAfterClose(open0: seq<InCore>, open2: seq<InCore>, open3: seq<InCore>, p: nat, c: nat)
    requires forall n :: n != 0 ==> Count(open2, n) == Count(open0, n) + (if n == p then 1 else 0) + (if n == c then 1 else 0)
    requires forall n :: n != 0 ==> Count(open3, n) + (if n == p then 1 else 0) == Count(open2, n)
    ensures OneMore(open0, open3, c)
  {
    hide Count;
  }

  lemma NoneAfterClose(open0: seq<InCore>, open1: seq<InCore>, open2: seq<InCore>, p: nat)
    requires OneMore(open0, open1, p)
    requires forall n :: n != 0 ==> Count(open2, n) + (if n == p then 1 else 0) == Count(open1, n)
    ensures NoneMore(open0, open2)
  {
    hide Count;
  }

  lemma FirstMore(open0: seq<InCore>, open: seq<InCore>, p: nat)
    requires forall n :: Count(open, n) == Count(open0, n) + (if n == p then 1 else 0)
    ensures OneMore(open0, open, p)
  {
    hide Count;
  }

  lemma ChildIs(d: Disk, files: Files, no: nat, name: Name)
    requires no in files
    ensures ChildOf(d, files, no, name) ==
            if name in View(DirEntries(d, files[no])) then Some(View(DirEntries(d, files[no]))[name].0) else None
  {
    hide View, DirEntries;
  }

  /** Looking a name up in the directory that is held: the result is what the map says, and afterwards the
      child, if there is one, is held too. */
  method Step(fs: FileStore, p: nat, name: Name, memOk: bool, ghost files0: Files, ghost open0: seq<InCore>)
    returns (r: LookUp)
    requires fs.Valid() && OneMore(open0, fs.open, p) && fs.files == files0 && DirOk(fs.disk, files0, p) && name != []
    modifies fs`open
    ensures fs.Valid() && IsOpen(fs.open, p)
    ensures r == Panic <==> !memOk && p in files0 && DirEntries(fs.disk, files0[p]) != []
    ensures r.Absent? ==> ChildOf(fs.disk, files0, p, name) == None
    ensures r.Found? ==> ChildOf(fs.disk, files0, p, name) == Some(r.child) && r.child in files0 && IsOpen(fs.open, r.child)
    ensures !r.Found? ==> OneMore(open0, fs.open, p)
    ensures r.Found? ==> memOk
    ensures r.Found? ==> forall n :: n != 0 ==> Count(fs.open, n) == Count(open0, n) + (if n == p then 1 else 0) + (if n == r.child then 1 else 0)
  {
    hide *;
    HeldIsOpen(fs, open0, p);
    ListIsUnique(fs);
    DirFacts(fs.disk, files0, p);
    ChildIs(fs.disk, files0, p, name);
    ghost var es, open1 := DirEntries(fs.disk, fs.files[p]), fs.open;
    r := DirLookUp(fs, p, name, memOk, es, open1);
    LookUpFacts(r, es, name, fs.files, open1, fs.open);
    FoundInView(r, es, name, fs.files, open1, fs.open);
    if r.Found? {
      LookUpCounts(fs, r, es, name, open1);
      MoreAfterOpen(open0, open1, fs.open, p, r.child);
    }
  }

  /** Giving up: the directory that is held is closed. */
  method GiveUp(fs: FileStore, p: nat, ghost d0: Disk, ghost files0: Files, ghost open0: seq<InCore>)
    requires fs.Valid() && IsOpen(fs.open, p) && OneMore(open0, fs.open, p) && d0 == fs.disk && fs.files == files0
    requires Settled(fs.geo, d0, files0, open0)
    modifies fs`open, fs`files
    ensures fs.Valid() && NoneMore(open0, fs.open) && fs.files == files0
  {
    hide *;
    ghost var open1 := fs.open;
    OpenHere(fs, p);
    OneMoreCount(open0, open1, p);
    OpenedAndClosed(fs.geo, d0, files0, open0, open1, p);
    CloseNumber(fs, p, d0, files0, open1);
    NoneAfterClose(open0, open1, fs.open, p);
  }

  lemma OneMoreCount(open0: seq<InCore>, open: seq<InCore>, p: nat)
    requires OneMore(open0, open, p)
    ensures p != 0 ==> Count(open, p) > Count(open0, p)
  {
    hide Count;
  }

  /** Going on: the parent is closed, the child is held. */
  method Descend(fs: FileStore, p: nat, c: nat, ghost d0: Disk, ghost files0: Files, ghost open0: seq<InCore>)
    requires fs.Valid() && IsOpen(fs.open, p) && d0 == fs.disk && fs.files == files0 && Settled(fs.geo, d0, files0, open0)
    requires forall n :: n != 0 ==> Count(fs.open, n) == Count(open0, n) + (if n == p then 1 else 0) + (if n == c then 1 else 0)
    modifies fs`open, fs`files
    ensures fs.Valid() && OneMore(open0, fs.open, c) && fs.files == files0
  {
    hide *;
    ghost var open1 := fs.open;
    OpenHere(fs, p);
    OpenedAndClosed(fs.geo, d0, files0, open0, open1, p);
    CloseNumber(fs, p, d0, files0, open1);
    MoreAfterClose(open0, open1, fs.open, p, c);
  }

  lemma AnyDir(d: Disk, files: Files, no: nat)
    requires AllDirsOk(d, files) && no in files && files[no].ftype == FT_DIRECTORY
    ensures DirOk(d, files, no)
  {
    hide DirOk;
  }

  lemma TargetIs(d: Disk, files: Files, start: nat, parts: Parts, isParent: bool)
    ensures Target(d, files, start, parts, isParent) ==
            match Resolve(d, files, start, parts.dirs)
            case None => None
            case Some(p) => if isParent || parts.last == [] then Some(p) else ChildOf(d, files, p, parts.last)
  {
    hide Resolve, ChildOf;
  }

  /** search_file finds exactly what following the names through the directories' maps gives, and afterwards
      the inode it returns has one reference more, every other inode but the root as many as before. */
  method SearchFile(fs: FileStore, path: seq<bv8>, cwd: nat, isParent: bool, memOk: bool,
                    ghost d0: Disk, ghost files0: Files, ghost open0: seq<InCore>)
    returns (r: Search)
    requires fs.Valid() && d0 == fs.disk && files0 == fs.files && open0 == fs.open && AllDirsOk(d0, files0)
    requires cwd in files0 && files0[cwd].ftype == FT_DIRECTORY && 0 in files0 && files0[0].ftype == FT_DIRECTORY
    modifies fs`open, fs`files
    ensures fs.Valid()
    ensures var start := if path != [] && path[0] == SLASH then 0 else cwd;
            r == Panicked <==> !memOk && DirEntries(d0, files0[start]) != [] && (Split(path).dirs != [] || !(isParent || Split(path).last == []))
    ensures var start := if path != [] && path[0] == SLASH then 0 else cwd;
            r != Panicked ==> (r == match Target(d0, files0, start, Split(path), isParent) case None => NotFound case Some(no) => At(no))
    ensures fs.files == files0
    ensures r == NotFound ==> NoneMore(open0, fs.open)
    ensures r.At? ==> OneMore(open0, fs.open, r.no) && IsOpen(fs.open, r.no)
    ensures r.At? && !memOk ==> Split(path).dirs == [] && r.no == if path != [] && path[0] == SLASH then 0 else cwd
  {
    hide *;
    var start := if path != [] && path[0] == SLASH then 0 else cwd;
    ListIsUnique(fs);
    ValidSettled(fs);
    AnyDir(d0, files0, start);
    var _ := fs.InodeOpen(start);
    OpenedHere(fs, open0, start);
    var walk, name;
    walk, name := Walk(fs, path, start, memOk, d0, files0, open0);
    TargetIs(d0, files0, start, Split(path), isParent);
    if walk.Panicked? { return Panicked; }
    if walk.NotFound? { return NotFound; }
    var p := walk.no;
    HeldIsOpen(fs, open0, p);
    if isParent || name == [] { return At(p); }
    r := Last(fs, p, name, memOk, d0, files0, open0);
  }

  lemma OpenedHere(fs: FileStore, open0: seq<InCore>, no: nat)
    requires fs.Valid() && no in fs.files && UniqueOpen(open0) && fs.open == Opened(open0, no, fs.files[no])
    ensures OneMore(open0, fs.open, no)
  {
    hide *;
    ListIsUnique(fs);
    OpenedCounts(open0, no, fs.files[no]);
    FirstMore(open0, fs.open, no);
  }

  /** The last name. */
  method Last(fs: FileStore, p: nat, name: Name, memOk: bool, ghost d0: Disk, ghost files0: Files, ghost open0: seq<InCore>)
    returns (r: Search)
    requires fs.Valid() && d0 == fs.disk && OneMore(open0, fs.open, p) && fs.files == files0 && DirOk(d0, files0, p) && name != []
    requires Settled(fs.geo, d0, files0, open0)
    modifies fs`open, fs`files
    ensures fs.Valid()
    ensures r == Panicked <==> !memOk && p in files0 && DirEntries(d0, files0[p]) != []
    ensures r != Panicked ==> r == match ChildOf(d0, files0, p, name) case None => NotFound case Some(no) => At(no)
    ensures fs.files == files0
    ensures r == NotFound ==> NoneMore(open0, fs.open)
    ensures r.At? ==> OneMore(open0, fs.open, r.no) && IsOpen(fs.open, r.no) && memOk
  {
    hide *;
    var found := Step(fs, p, name, memOk, files0, open0);
    if found.Panic? { return Panicked; }
    if found.Absent? {
      GiveUp(fs, p, d0, files0, open0);
      return NotFound;
    }
    Descend(fs, p, found.child, d0, files0, open0);
    HeldIsOpen(fs, open0, found.child);
    r := At(found.child);
  }

  /** The loop of search_file: the directory reached and the last name. */
  method Walk(fs: FileStore, path: seq<bv8>, start: nat, memOk: bool, ghost d0: Disk, ghost files0: Files, ghost open0: seq<InCore>)
    returns (r: Search, name: Name)
    requires fs.Valid() && d0 == fs.disk && fs.files == files0 && AllDirsOk(d0, files0) && Settled(fs.geo, d0, files0, open0)
    requires OneMore(open0, fs.open, start) && DirOk(d0, files0, start)
    modifies fs`open, fs`files
    ensures fs.Valid() && fs.files == files0
    ensures r == Panicked <==> !memOk && start in files0 && DirEntries(d0, files0[start]) != [] && Split(path).dirs != []
    ensures r == NotFound ==> Resolve(d0, files0, start, Split(path).dirs) == None && NoneMore(open0, fs.open) && Split(path).dirs != []
    ensures r.At? ==> Resolve(d0, files0, start, Split(path).dirs) == Some(r.no) && name == Split(path).last
    ensures r.At? ==> OneMore(open0, fs.open, r.no) && DirOk(d0, files0, r.no) && (memOk || (Split(path).dirs == [] && r.no == start))
  {
    hide *;
    var p, from: int := start, 0;
    assert path[0..] == path;
    var next;
    SplitStep(path[from..]);
    name, next := PathParse(path, from);
    while next != -1
      invariant 0 <= from <= |path| && fs.Valid() && fs.files == files0 && OneMore(open0, fs.open, p) && DirOk(d0, files0, p)
      invariant Resolve(d0, files0, start, Split(path).dirs) == Resolve(d0, files0, p, Split(path[from..]).dirs)
      invariant Split(path).last == Split(path[from..]).last
      invariant (from == 0 && p == start) || (memOk && Split(path).dirs != [])
      invariant next == -1 && from == 0 ==> Split(path).dirs == []
      invariant next != -1 && from == 0 ==> Split(path).dirs != []
      invariant if next == -1 then Split(path[from..]) == Parts([], name)
                else 0 <= next <= |path| && from < |path| && name != [] && |path[next..]| < |path[from..]|
                     && Split(path[from..]) == Parts([name] + Split(path[next..]).dirs, Split(path[next..]).last)
      decreases |path| - from
    {
      ResolveStep(d0, files0, p, name, Split(path[next..]).dirs);
      var more;
      r, more := Enter(fs, p, name, memOk, d0, files0, open0);
      if !more { return; }
      p, from := r.no, next;
      SplitStep(path[from..]);
      name, next := PathParse(path, from);
    }
    ResolveStep(d0, files0, p, name, []);
    r := At(p);
  }

  /** One turn of the loop: into the directory of that name. */
  method Enter(fs: FileStore, p: nat, name: Name, memOk: bool, ghost d0: Disk, ghost files0: Files, ghost open0: seq<InCore>)
    returns (r: Search, more: bool)
    requires fs.Valid() && d0 == fs.disk && fs.files == files0 && AllDirsOk(d0, files0) && Settled(fs.geo, d0, files0, open0)
    requires OneMore(open0, fs.open, p) && DirOk(d0, files0, p) && name != []
    modifies fs`open, fs`files
    ensures fs.Valid() && fs.files == files0 && (more <==> r.At?) && (more ==> memOk)
    ensures r == Panicked <==> !memOk && p in files0 && DirEntries(d0, files0[p]) != []
    ensures r == NotFound ==> NoneMore(open0, fs.open)
    ensures r == NotFound ==> match ChildOf(d0, files0, p, name) case None => true case Some(c) => c in files0 && files0[c].ftype != FT_DIRECTORY
    ensures r.At? ==> ChildOf(d0, files0, p, name) == Some(r.no) && r.no in files0 && files0[r.no].ftype == FT_DIRECTORY
    ensures r.At? ==> OneMore(open0, fs.open, r.no) && DirOk(d0, files0, r.no)
  {
    hide *;
    more := false;
    var found := Step(fs, p, name, memOk, files0, open0);
    if found.Panic? { return Panicked, false; }
    if found.Absent? {
      GiveUp(fs, p, d0, files0, open0);
      return NotFound, false;
    }
    var c := found.child;
    var k := fs.FindInode(c);
    OpenHere(fs, c);
    if fs.open[k].meta.ftype != FT_DIRECTORY {
      Descend(fs, p, c, d0, files0, open0);
      HeldIsOpen(fs, open0, c);
      GiveUp(fs, c, d0, files0, open0);
      return NotFound, false;
    }
    AnyDir(d0, files0, c);
    Descend(fs, p, c, d0, files0, open0);
    return At(c), true;
  }

  // ---- sys_readdir ----

  lemma NextLive(es: seq<Entry>, i: nat)
    requires i < |es|
    ensures LiveFrom(es, i) == if Live(es[i]) then [es[i]] + LiveFrom(es, i + 1) else LiveFrom(es, i + 1)
  {
  }

  lemma NoneLive(es: seq<Entry>)
    ensures LiveFrom(es, |es|) == []
  {
  }

  /** sys_readdir from position `i` (in entries): the next live entry and the position behind it, or NULL.  It does not
      look at the result of inode_read: without a buffer it returns whatever dir_buf held, or runs to the end. */
  method SysReadDir(fs: FileStore, no: nat, i: nat, buf: Entry, memOk: bool, ghost es: seq<Entry>) returns (r: Option<Entry>, i': nat, buf': Entry)
    requires fs.Valid() && IsOpen(fs.open, no) && DirOk(fs.disk, fs.files, no)
    requires no in fs.files && es == DirEntries(fs.disk, fs.files[no]) && i <= |es|
    ensures memOk ==> LiveFrom(es, i) == match r case None => [] case Some(e) => [e] + LiveFrom(es, i')
    ensures i <= i' && (r.Some? ==> i < i' <= |es| && buf' == r.value && Live(buf'))
    ensures !memOk ==> buf' == buf && (if i < |es| && Live(buf) then r == Some(buf) && i' == i + 1 else r == None && i' == |es| + 1)
  {
    hide *;
    DirFacts(fs.disk, fs.files, no);
    OpenHere(fs, no);
    var k := fs.FindInode(no);
    var size := fs.open[k].meta.size;
    i', buf' := i, buf;
    while true
      invariant i <= i' <= |es| && (memOk ==> LiveFrom(es, i) == LiveFrom(es, i'))
      invariant !memOk ==> buf' == buf && (i' > i ==> !Live(buf))
      decreases |es| - i'
    {
      i' := i' + 1;
      if 32 * i' > size {
        NoneLive(es);
        return None, i', buf';
      }
      NextLive(es, i' - 1);
      var ok, de := ReadEntry(fs, no, i' - 1, memOk);
      if ok { buf' := de; }
      if Live(buf') { return Some(buf'), i', buf'; }
    }
  }

  /** Calling sys_readdir from the start until it gives NULL lists the live entries, in order. */
  method ListDir(fs: FileStore, no: nat, ghost es: seq<Entry>) returns (names: seq<Entry>)
    requires fs.Valid() && IsOpen(fs.open, no) && DirOk(fs.disk, fs.files, no)
    requires no in fs.files && es == DirEntries(fs.disk, fs.files[no])
    ensures names == LiveFrom(es, 0) && NamesApart(names)
    ensures forall e :: e in names <==> Live(e) && e.name in View(es) && View(es)[e.name] == (e.ino, e.ftype)
  {
    hide *;
    DirFacts(fs.disk, fs.files, no);
    names := [];
    var i, buf := 0, FreeEntry();
    while true
      invariant i <= |es| && names + LiveFrom(es, i) == LiveFrom(es, 0)
      decreases |es| - i
    {
      var r, next;
      r, next, buf := SysReadDir(fs, no, i, buf, true, es);
      if r.None? { break; }
      Regroup(names, r.value, LiveFrom(es, next));
      names := names + [r.value];
      i := next;
    }
    ListedOnce(es, 0);
    forall e ensures e in names <==> Live(e) && e.name in View(es) && View(es)[e.name] == (e.ino, e.ftype) {
      ListingIsView(es, e);
    }
  }

  lemma Regroup(a: seq<Entry>, e: Entry, b: seq<Entry>)
    ensures a + ([e] + b) == (a + [e]) + b
  {
  }
}
