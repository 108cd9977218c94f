/** fs/dir.c and the path search of fs/fs.c over the file store.  An inode that a caller holds is named by its
    number; its place in the list of open inodes changes as others come and go. */
module FsDirectory {
  import opened Basics
  import Bitmaps
  import opened FsFormat
  import opened FsVolume
  import opened FsStore
  import opened FsInode
  import opened FsEntries

  const FT_DIRECTORY := 2

  // ---- directories of a volume ----

  ghost function DirEntries(d: Disk, m: Meta): seq<Entry> {
    if ShapeOk(m) then Entries(Content(d, m)) else []
  }

  ghost predicate IsDir(d: Disk, files: Files, no: nat) {
    && no in files && ShapeOk(files[no]) && files[no].ftype == FT_DIRECTORY
    && Whole(Content(d, files[no])) && Tidy(DirEntries(d, files[no]))
  }

  /** Live entries refer to files that exist. */
  ghost predicate NoDangling(es: seq<Entry>, files: Files) {
    forall i :: 0 <= i < |es| && Live(es[i]) ==> es[i].ino in files
  }

  ghost predicate DirOk(d: Disk, files: Files, no: nat) {
    IsDir(d, files, no) && NoDangling(DirEntries(d, files[no]), files)
  }

  ghost predicate AllDirsOk(d: Disk, files: Files) {
    forall no :: no in files && files[no].ftype == FT_DIRECTORY ==> DirOk(d, files, no)
  }

  // ---- counting references ----

  ghost function Count(open: seq<InCore>, no: nat): nat {
    var k := FindOpen(open, no);
    if k < |open| then open[k].opens else 0
  }

  ghost predicate UniqueOpen(open: seq<InCore>) {
    && (forall i, j :: 0 <= i < j < |open| ==> open[i].no != open[j].no)
    && (forall k :: 0 <= k < |open| ==> open[k].opens >= 1)
  }

  lemma CountAt(open: seq<InCore>, k: nat)
    requires UniqueOpen(open) && k < |open|
    ensures Count(open, open[k].no) == open[k].opens && FindOpen(open, open[k].no) == k
  {
    FindOpenIs(open, open[k].no, k);
  }

  lemma CountNone(open: seq<InCore>, no: nat)
    requires forall k :: 0 <= k < |open| ==> open[k].no != no
    ensures Count(open, no) == 0
  {
    FindOpenIs(open, no, |open|);
  }

  /** An inode is in the list iff its count is positive. */
  lemma OpenMeansCounted(open: seq<InCore>, no: nat)
    requires UniqueOpen(open)
    ensures IsOpen(open, no) <==> Count(open, no) > 0
  {
    hide FindOpen;
    if IsOpen(open, no) {
      var k :| 0 <= k < |open| && open[k].no == no;
      CountAt(open, k);
    } else {
      CountNone(open, no);
    }
  }

  /** inode_open adds one reference to its inode and none to others. */
  lemma OpenedCount(open: seq<InCore>, no: nat, m: Meta, n: nat)
    requires UniqueOpen(open) && UniqueOpen(Opened(open, no, m))
    ensures Count(Opened(open, no, m), n) == Count(open, n) + (if n == no then 1 else 0)
  {
    var open' := Opened(open, no, m);
    FindOpenFinds(open, no);
    var k := FindOpen(open, no);
    hide FindOpen;
    if j :| 0 <= j < |open| && open[j].no == n {
      CountAt(open, j);
      CountAt(open', if k < |open| then j else j + 1);
    } else {
      CountNone(open, n);
      if n == no { CountAt(open', 0); } else { CountNone(open', n); }
    }
  }

  /** inode_close takes one away, except from the root. */
  lemma ClosedCount(open: seq<InCore>, k: nat, n: nat)
    requires k < |open| && UniqueOpen(open) && UniqueOpen(Closed(open, k))
    ensures Count(Closed(open, k), n) + (if n == open[k].no && n != 0 then 1 else 0) == Count(open, n)
  {
    var open' := Closed(open, k);
    hide FindOpen;
    if j :| 0 <= j < |open| && open[j].no == n {
      CountAt(open, j);
      if j == k && n != 0 && open[k].opens <= 1 {
        CountNone(open', n);
      } else if open[k].no != 0 && open[k].opens <= 1 {
        var i := if j < k then j else j - 1;
        assert open'[i] == open[j];
        CountAt(open', i);
      } else {
        CountAt(open', j);
      }
    } else {
      CountNone(open, n);
      CountNone(open', n);
    }
  }

  // ---- one entry ----

  /** What the list of open inodes says about an inode that is open. */
  lemma OpenHere(fs: FileStore, no: nat)
    requires fs.Valid() && IsOpen(fs.open, no)
    ensures var k := FindOpen(fs.open, no);
            k < |fs.open| && fs.open[k].no == no && no in fs.files && fs.open[k].meta == fs.files[no] && ShapeOk(fs.files[no])
  {
    fs.ValidFacts();
    hide *;
    FindOpenFinds(fs.open, no);
    OpenFacts(fs.geo, fs.disk, fs.blockBitmap.Value(), fs.inodeBitmap.Value(), fs.files, fs.open, FindOpen(fs.open, no));
  }

  lemma ListIsUnique(fs: FileStore)
    requires fs.Valid()
    ensures UniqueOpen(fs.open) && OpenOk(fs.open, fs.files) && IsOpen(fs.open, 0) && 0 in fs.files
  {
    fs.ValidFacts();
    ConsistentParts(fs.geo, fs.disk, fs.blockBitmap.Value(), fs.inodeBitmap.Value(), fs.files, fs.open);
    hide Consistent, PtrsOk, SlotsOk;
  }

  method ReadEntry(fs: FileStore, no: nat, i: nat, memOk: bool) returns (ok: bool, e: Entry)
    requires fs.Valid() && IsOpen(fs.open, no) && IsDir(fs.disk, fs.files, no)
    requires no in fs.files && i < |DirEntries(fs.disk, fs.files[no])|
    ensures ok <==> memOk
    ensures ok ==> e == DirEntries(fs.disk, fs.files[no])[i]
  {
    hide *;
    OpenHere(fs, no);
    var k := fs.FindInode(no);
    InFile(fs.disk, fs.files[no], i);
    var r, buf := fs.InodeRead(k, 32, 32 * i, memOk);
    ok, e := r != -1, FreeEntry();
    if ok {
      e := DecodeEntry(buf);
      EntryIs(fs.disk, fs.files[no], i);
    }
  }

  lemma InFile(d: Disk, m: Meta, i: nat)
    requires ShapeOk(m) && i < |DirEntries(d, m)|
    ensures 32 * i + 32 <= m.size && |Content(d, m)| == m.size
  {
    hide Content;
  }

  lemma EntryIs(d: Disk, m: Meta, i: nat)
    requires ShapeOk(m) && i < |DirEntries(d, m)|
    ensures 32 * i + 32 <= |Content(d, m)| && DirEntries(d, m)[i] == DecodeEntry(Content(d, m)[32 * i..32 * i + 32])
  {
    hide Content, DecodeEntry;
  }

  // ---- dir_look_up ----

  /** The slot of the name, its absence, or the panic of a read that fails. */
  datatype LookUp = Found(i: nat, child: nat) | Absent | Panic

  /** The entry that the comparison of names finds.  An empty name, which dir_look_up accepts, is that of a free entry. */
  ghost predicate Hit(es: seq<Entry>, name: Name, i: nat) {
    if name == [] then i == FirstFree(es) < |es| else IsAt(es, name, i)
  }

  ghost predicate Miss(es: seq<Entry>, name: Name) {
    if name == [] then FirstFree(es) == |es| else name !in View(es)
  }

  ghost predicate LookedUp(r: LookUp, es: seq<Entry>, name: Name, files: Files, open0: seq<InCore>, open: seq<InCore>) {
    match r
    case Found(i, child) =>
      Hit(es, name, i) && child == es[i].ino && child in files && open == Opened(open0, child, files[child])
    case Absent => Miss(es, name) && open == open0
    case Panic => open == open0
  }

  lemma DirFacts(d: Disk, files: Files, no: nat)
    requires DirOk(d, files, no)
    ensures no in files && IsDir(d, files, no) && ShapeOk(files[no]) && Tidy(DirEntries(d, files[no]))
    ensures files[no].size == 32 * |DirEntries(d, files[no])| && files[no].ftype == FT_DIRECTORY
    ensures NoDangling(DirEntries(d, files[no]), files)
  {
    hide Content, Tidy;
  }

  lemma TidyDir(d: Disk, files: Files, no: nat)
    requires IsDir(d, files, no)
    ensures no in files && ShapeOk(files[no]) && Tidy(DirEntries(d, files[no])) && files[no].ftype == FT_DIRECTORY
    ensures files[no].size == 32 * |DirEntries(d, files[no])|
  {
    hide Content, Tidy;
  }

  /** Finding a name: the map has it, with the number of the inode that is opened. */
  lemma FoundInView(r: LookUp, es: seq<Entry>, name: Name, files: Files, open0: seq<InCore>, open: seq<InCore>)
    requires Tidy(es) && LookedUp(r, es, name, files, open0, open) && name != []
    ensures r.Found? ==> name in View(es) && View(es)[name].0 == r.child
    ensures r.Absent? ==> name !in View(es)
  {
    hide Tidy, Opened;
    if r.Found? { ViewAt(es, name, r.i); }
  }

  lemma AbsentName(es: seq<Entry>, name: Name)
    requires Tidy(es) && name != [] && forall j :: 0 <= j < |es| ==> es[j].name != name
    ensures name !in View(es)
  {
    hide Tidy;
    if name in View(es) { var i := ViewHas(es, name); }
  }

  lemma FoundHere(es: seq<Entry>, name: Name, files: Files, i: nat)
    requires Tidy(es) && NoDangling(es, files) && Hit(es, name, i) && 0 in files
    ensures i < |es| && es[i].ino in files && (name == [] ==> es[i].ino == 0)
  {
    assert EntryOk(es[i]);
    hide NoDangling, UniqueNames;
    if Live(es[i]) { assert es[i].ino in files by { LiveHere(es, files, i); } }
  }

  lemma LiveHere(es: seq<Entry>, files: Files, i: nat)
    requires NoDangling(es, files) && i < |es| && Live(es[i])
    ensures es[i].ino in files
  {
  }

  lemma IsLookedUp(r: LookUp, es: seq<Entry>, name: Name, files: Files, open0: seq<InCore>, open: seq<InCore>)
    requires r.Found? ==> Hit(es, name, r.i) && r.child == es[r.i].ino && r.child in files && open == Opened(open0, r.child, files[r.child])
    requires r.Absent? ==> Miss(es, name) && open == open0
    requires r.Panic? ==> open == open0
    ensures LookedUp(r, es, name, files, open0, open)
  {
    hide Hit, Miss;
  }

  lemma HitIs(es: seq<Entry>, name: Name, i: nat)
    ensures Hit(es, name, i) ==> i < |es|
    ensures name != [] ==> (Hit(es, name, i) <==> IsAt(es, name, i)) && (Miss(es, name) <==> name !in View(es))
  {
    hide View, FirstFree;
  }

  lemma IsHit(es: seq<Entry>, name: Name, i: nat)
    requires Tidy(es) && i < |es| && (forall j :: 0 <= j < i ==> es[j].name != name) && es[i].name == name
    ensures Hit(es, name, i)
  {
    if name == [] {
      forall j | 0 <= j <= i ensures Live(es[j]) <==> es[j].name != [] { assert EntryOk(es[j]); }
      hide Tidy;
      FirstFreeIs(es, i);
    } else {
      NameMeansLive(es, name, i);
    }
  }

  lemma IsMiss(es: seq<Entry>, name: Name)
    requires Tidy(es) && forall j :: 0 <= j < |es| ==> es[j].name != name
    ensures Miss(es, name)
  {
    if name == [] {
      forall j | 0 <= j < |es| ensures Live(es[j]) { assert EntryOk(es[j]); }
      hide Tidy;
      FirstFreeIs(es, |es|);
    } else {
      AbsentName(es, name);
    }
  }

  /** The loop of dir_look_up: the slot of the name. */
  method FindEntry(fs: FileStore, no: nat, name: Name, memOk: bool, ghost es: seq<Entry>) returns (r: LookUp)
    requires fs.Valid() && IsOpen(fs.open, no) && IsDir(fs.disk, fs.files, no)
    requires no in fs.files && es == DirEntries(fs.disk, fs.files[no])
    ensures r.Found? ==> memOk && r.i < |es| && Hit(es, name, r.i) && r.child == es[r.i].ino
    ensures r.Absent? ==> Miss(es, name)
    ensures r == Panic <==> !memOk && es != []
  {
    hide *;
    TidyDir(fs.disk, fs.files, no);
    OpenHere(fs, no);
    var k := fs.FindInode(no);
    assert fs.open[k].meta.ftype == FT_DIRECTORY;
    var size := fs.open[k].meta.size;
    var i := 0;
    while 32 * i != size
      invariant i <= |es| && (forall j :: 0 <= j < i ==> es[j].name != name) && (i > 0 ==> memOk)
      decreases |es| - i
    {
      var ok, de := ReadEntry(fs, no, i, memOk);
      if !ok { return Panic; }
      if de.name == name {
        IsHit(es, name, i);
        return Found(i, de.ino);
      }
      i := i + 1;
    }
    IsMiss(es, name);
    r := Absent;
  }

  method DirLookUp(fs: FileStore, no: nat, name: Name, memOk: bool, ghost es: seq<Entry>, ghost open0: seq<InCore>)
    returns (r: LookUp)
    requires fs.Valid() && IsOpen(fs.open, no) && DirOk(fs.disk, fs.files, no)
    requires no in fs.files && es == DirEntries(fs.disk, fs.files[no]) && open0 == fs.open
    modifies fs`open
    ensures fs.Valid() && LookedUp(r, es, name, fs.files, open0, fs.open)
    ensures r == Panic <==> !memOk && es != []
    ensures r.Found? ==> memOk && (name == [] ==> r.child == 0)
  {
    hide *;
    DirFacts(fs.disk, fs.files, no);
    ListIsUnique(fs);
    r := FindEntry(fs, no, name, memOk, es);
    if r.Found? {
      FoundHere(es, name, fs.files, r.i);
      var _ := fs.InodeOpen(r.child);
    }
    IsLookedUp(r, es, name, fs.files, open0, fs.open);
  }

  // ---- closing by number ----

  /** The files are the same to a reader; a version may have lost an empty indirect block. */
  ghost predicate SameFiles(d: Disk, files0: Files, files: Files) {
    files.Keys == files0.Keys && forall n :: n in files0 ==> SameFile(d, files0[n], files[n])
  }

  lemma SameDir(d: Disk, files0: Files, files: Files, no: nat)
    requires SameFiles(d, files0, files) && DirOk(d, files0, no)
    ensures DirOk(d, files, no) && no in files && no in files0 && DirEntries(d, files[no]) == DirEntries(d, files0[no])
  {
    hide Content, Tidy, Entries;
    assert SameFile(d, files0[no], files[no]);
  }

  /** An inode that nobody holds is the one in its slot. */
  ghost predicate Settled(g: Geometry, d: Disk, files: Files, open: seq<InCore>) {
    UniqueOpen(open) && forall n :: n in files && !IsOpen(open, n) ==> DecodeInode(Slot(d, g, n)) == files[n]
  }

  lemma ValidSettled(fs: FileStore)
    requires fs.Valid()
    ensures Settled(fs.geo, fs.disk, fs.files, fs.open)
  {
    ListIsUnique(fs);
    fs.ValidFacts();
    hide Slot, DecodeInode, PtrsOk, OpenOk, Ptr, IsOpen, UniqueOpen;
    forall n | n in fs.files && !IsOpen(fs.open, n) ensures DecodeInode(Slot(fs.disk, fs.geo, n)) == fs.files[n] {
      assert SlotAgrees(fs.geo, fs.disk, n, fs.files[n], IsOpen(fs.open, n));
    }
  }

  /** Closing what was opened leaves the version of the inode as it was. */
  lemma OpenedAndClosed(g: Geometry, d: Disk, files: Files, open0: seq<InCore>, open1: seq<InCore>, no: nat)
    requires Settled(g, d, files, open0) && no in files
    requires no != 0 ==> Count(open1, no) > Count(open0, no)
    ensures no == 0 || Count(open1, no) > 1 || DecodeInode(Slot(d, g, no)) == files[no]
  {
    OpenMeansCounted(open0, no);
    hide Slot, DecodeInode, Count, IsOpen, UniqueOpen;
  }

  method CloseNumber(fs: FileStore, no: nat, ghost d0: Disk, ghost files0: Files, ghost open0: seq<InCore>)
    requires fs.Valid() && IsOpen(fs.open, no) && d0 == fs.disk && files0 == fs.files && open0 == fs.open
    modifies fs`open, fs`files
    ensures fs.Valid() && SameFiles(d0, files0, fs.files)
    ensures forall n :: n != 0 ==> Count(fs.open, n) + (if n == no then 1 else 0) == Count(open0, n)
    ensures forall n :: IsOpen(open0, n) && n != no ==> IsOpen(fs.open, n)
    ensures fs.files == if no == 0 || Count(open0, no) > 1 then files0 else files0[no := DecodeInode(Slot(d0, fs.geo, no))]
    ensures no in files0 && (no == 0 || Count(open0, no) > 1 || DecodeInode(Slot(d0, fs.geo, no)) == files0[no]) ==> fs.files == files0
  {
    hide *;
    OpenHere(fs, no);
    ListIsUnique(fs);
    var k := fs.FindInode(no);
    CountAt(open0, k);
    fs.InodeClose(k);
    CloseFiles(fs.geo, d0, files0, open0, k);
    ListIsUnique(fs);
    ClosedCounts(open0, k);
    AreSameFiles(d0, files0, fs.files);
    StillOpen(open0, fs.open, no);
  }

  lemma CloseFiles(g: Geometry, d: Disk, files: Files, open: seq<InCore>, k: nat)
    requires k < |open| && open[k].no in files
    ensures var no := open[k].no;
            FilesAfterClose(g, d, files, open, k) == if no == 0 || open[k].opens > 1 then files else files[no := DecodeInode(Slot(d, g, no))]
    ensures DecodeInode(Slot(d, g, open[k].no)) == files[open[k].no] ==> FilesAfterClose(g, d, files, open, k) == files
  {
    hide Slot, DecodeInode;
  }

  lemma ClosedCounts(open: seq<InCore>, k: nat)
    requires k < |open| && UniqueOpen(open) && UniqueOpen(Closed(open, k))
    ensures forall n :: Count(Closed(open, k), n) + (if n == open[k].no && n != 0 then 1 else 0) == Count(open, n)
  {
    hide Count, Closed, UniqueOpen;
    forall n ensures Count(Closed(open, k), n) + (if n == open[k].no && n != 0 then 1 else 0) == Count(open, n) {
      ClosedCount(open, k, n);
    }
  }

  lemma AreSameFiles(d: Disk, files0: Files, files: Files)
    requires files.Keys == files0.Keys && forall n :: n in files0 ==> SameFile(d, files0[n], files[n])
    ensures SameFiles(d, files0, files)
  {
  }

  lemma StillOpen(open0: seq<InCore>, open: seq<InCore>, no: nat)
    requires UniqueOpen(open0) && UniqueOpen(open)
    requires forall n :: n != no ==> Count(open, n) == Count(open0, n)
    ensures forall n :: IsOpen(open0, n) && n != no ==> IsOpen(open, n)
  {
    hide Count, UniqueOpen, IsOpen;
    forall n | IsOpen(open0, n) && n != no ensures IsOpen(open, n) {
      OpenMeansCounted(open0, n);
      OpenMeansCounted(open, n);
    }
  }

  // ---- writing one entry ----

  lemma OneBlock(i: nat, data: EntryBytes)
    ensures !WriteReq(32 * i, data).SkipsLast()
  {
    EndBounds(WriteReq(32 * i, data));
  }

  /** What a write of one entry did to a directory: the entry is stored, or nothing changed. */
  ghost predicate Stored1(ok: bool, es: seq<Entry>, i: nat, e: Entry, d: Disk, m0: Meta, m: Meta) {
    && ShapeOk(m) && m.ftype == m0.ftype && Whole(Content(d, m)) && i <= |es|
    && DirEntries(d, m) == if ok then Put(es, i, e) else es
  }

  lemma SplicedEntry(c: seq<bv8>, i: nat, bytes: EntryBytes)
    requires Whole(c) && 32 * i <= |c|
    ensures i <= |Entries(c)| && Whole(Spliced(c, 32 * i, bytes)) && Entries(Spliced(c, 32 * i, bytes)) == Put(Entries(c), i, DecodeEntry(bytes))
  {
    var c' := Spliced(c, 32 * i, bytes);
    forall o | 0 <= o < |c'| ensures c'[o] == if 32 * i <= o < 32 * i + 32 then bytes[o - 32 * i] else if o < |c| then c[o] else 0 {
      SplicedAt(c, 32 * i, bytes, o);
    }
    EntriesAfterStore(c, c', i, bytes);
  }

  lemma StoreSucceeded(w: WriteReq, m0: Meta, c0: seq<bv8>, m2: Meta, d: Disk, r: int, last: Sector, i: nat, e: Entry, bytes: EntryBytes)
    requires ShapeOk(m2) && r != -1 && w == WriteReq(32 * i, bytes) && DecodeEntry(bytes) == e && Whole(c0)
    requires WriteOutcome(w, m0, c0, m2, Content(d, m2), r, last)
    ensures Stored1(true, Entries(c0), i, e, d, m0, m2)
  {
    OneBlock(i, bytes);
    hide Content, Entries, Spliced, Put, WriteReq.SkipsLast;
    SplicedEntry(c0, i, bytes);
  }

  lemma StoreFailed(w: WriteReq, m0: Meta, c0: seq<bv8>, m2: Meta, d: Disk, last: Sector, i: nat, e: Entry, bytes: EntryBytes)
    requires ShapeOk(m2) && w == WriteReq(32 * i, bytes) && Whole(c0)
    requires WriteOutcome(w, m0, c0, m2, Content(d, m2), -1, last)
    requires Content(d, m2) == c0 || 32 * i == |c0|
    ensures Stored1(false, Entries(c0), i, e, d, m0, m2)
  {
    if 32 * i == |c0| { assert Spliced(c0, |c0|, w.data[..0]) == c0; }
    hide Content, Entries, Spliced;
  }

  lemma WroteFacts(w: WriteReq, k: nat, d0: Disk, files0: Files, open0: seq<InCore>,
                   d: Disk, files: Files, open: seq<InCore>, r: int, m2: Meta, last: Sector)
    requires Wrote(w, k, d0, files0, open0, d, files, open, r, m2, last)
    ensures k < |open0| && ShapeOk(open0[k].meta) && ShapeOk(m2) && open == WithMeta(open0, k, m2)
    ensures files == files0[open0[k].no := m2] && OthersSame(d0, files0, d, open0[k].no)
    ensures WriteOutcome(w, open0[k].meta, Content(d0, open0[k].meta), m2, Content(d, m2), r, last)
  {
  }

  lemma SameCounts(open0: seq<InCore>, k: nat, m: Meta)
    requires k < |open0|
    ensures forall n :: Count(WithMeta(open0, k, m), n) == Count(open0, n) && (IsOpen(open0, n) <==> IsOpen(WithMeta(open0, k, m), n))
  {
    forall n ensures Count(WithMeta(open0, k, m), n) == Count(open0, n) && (IsOpen(open0, n) <==> IsOpen(WithMeta(open0, k, m), n)) {
      SameCount(open0, WithMeta(open0, k, m), n);
      assert IsOpen(open0, n) ==> IsOpen(WithMeta(open0, k, m), n) by {
        if j :| 0 <= j < |open0| && open0[j].no == n { assert WithMeta(open0, k, m)[j].no == n; }
      }
      assert IsOpen(WithMeta(open0, k, m), n) ==> IsOpen(open0, n) by {
        if j :| 0 <= j < |open0| && WithMeta(open0, k, m)[j].no == n { assert open0[j].no == n; }
      }
    }
  }

  lemma {:induction false} SameFind(open0: seq<InCore>, open: seq<InCore>, n: nat)
    requires |open| == |open0| && forall j :: 0 <= j < |open0| ==> open[j].no == open0[j].no
    ensures FindOpen(open, n) == FindOpen(open0, n)
  {
    if |open0| > 0 && open0[0].no != n { SameFind(open0[1..], open[1..], n); }
  }

  lemma SameCount(open0: seq<InCore>, open: seq<InCore>, n: nat)
    requires |open| == |open0| && forall j :: 0 <= j < |open0| ==> open[j].no == open0[j].no && open[j].opens == open0[j].opens
    ensures Count(open, n) == Count(open0, n)
  {
    SameFind(open0, open, n);
  }

  /** The rest of the volume after a change to directory `no`. */
  ghost predicate OnlyDir(no: nat, d0: Disk, files0: Files, open0: seq<InCore>, d: Disk, files: Files, open: seq<InCore>) {
    && files.Keys == files0.Keys && (forall n :: n in files0 && n != no ==> files[n] == files0[n])
    && OthersSame(d0, files0, d, no)
    && (forall n :: Count(open, n) == Count(open0, n)) && (forall n :: IsOpen(open0, n) ==> IsOpen(open, n))
  }

  lemma IsOnlyDir(no: nat, d0: Disk, files0: Files, open0: seq<InCore>, d: Disk, files: Files, open: seq<InCore>, k: nat, m2: Meta)
    requires k < |open0| && open == WithMeta(open0, k, m2) && no in files0 && files == files0[no := m2] && OthersSame(d0, files0, d, no)
    ensures OnlyDir(no, d0, files0, open0, d, files, open)
  {
    SameCounts(open0, k, m2);
    hide OthersSame, Count, IsOpen;
  }

  /** The free blocks that an entry in slot `i` takes: none, or at a block boundary behind the last entry one, and one more
      where the file needs its indirect block. */
  function EntryBlocks(m: Meta, i: nat): nat {
    if 32 * i < m.size || 32 * i % 512 != 0 then 0 else if !HasIndirect(m) && 32 * i >= 512 * NDIRECT then 2 else 1
  }

  lemma EntryNeed(d: Disk, m: Meta, i: nat, bytes: seq<bv8>)
    requires ShapeOk(m) && NoHoles(d, m) && |bytes| == 32 && 32 * i <= m.size && m.size % 32 == 0 && 32 * i + 32 <= MAX_FILE_SIZE
    ensures Need(m, WriteReq(32 * i, bytes)) == EntryBlocks(m, i)
  {
    if m.size > 512 * NDIRECT { assert Ptr(d, m.sectors, NDIRECT) != 0; }
    hide Ptr;
    var w := WriteReq(32 * i, bytes);
    EntryEnd(i, m.size);
    assert w.End() == i / 16 + 1;
  }

  lemma EntryEnd(i: nat, size: nat)
    requires 32 * i <= size && size % 32 == 0
    ensures DivRoundUp(32 * i + 32, 512) == i / 16 + 1
    ensures 32 * i % 512 != 0 || 32 * i < size ==> DivRoundUp(size, 512) >= i / 16 + 1
    ensures 32 * i % 512 == 0 && 32 * i == size ==> DivRoundUp(size, 512) == i / 16
  {
    var j := size / 32;
    assert size == 32 * j;
    assert DivRoundUp(size, 512) == (j + 15) / 16 by { RoundUpEntries(j); }
    RoundUpEntries(i + 1);
  }

  lemma RoundUpEntries(j: nat)
    ensures DivRoundUp(32 * j, 512) == (j + 15) / 16
  {
  }

  /** The block bitmap after the write of an entry. */
  function EntryBits(m: Meta, i: nat, memOk: bool, bits: seq<bool>): seq<bool> {
    if memOk && 32 * i + 32 <= MAX_FILE_SIZE then Bitmaps.TakeFirst(bits, EntryBlocks(m, i)) else bits
  }

  /** There is room for an entry in slot `i`. */
  predicate EntryFits(m: Meta, i: nat, bits: seq<bool>) {
    32 * i + 32 <= MAX_FILE_SIZE && EntryBlocks(m, i) <= Bitmaps.ClearBits(bits)
  }

  /** Whether the directory has an indirect block afterwards. */
  predicate EntryIndirect(m: Meta, i: nat, memOk: bool, bits: seq<bool>) {
    HasIndirect(m) || (memOk && 32 * i + 32 <= MAX_FILE_SIZE && EntryBlocks(m, i) == 2 && Bitmaps.ClearBits(bits) > 0)
  }

  lemma EntryWrite(d: Disk, m: Meta, i: nat, bytes: seq<bv8>, memOk: bool, bits: seq<bool>)
    requires ShapeOk(m) && NoHoles(d, m) && |bytes| == 32 && 32 * i <= m.size && m.size % 32 == 0
    ensures var w := WriteReq(32 * i, bytes);
            && (WriteFails(m, w, memOk, bits) <==> !(memOk && EntryFits(m, i, bits)))
            && WriteBits(m, w, memOk, bits) == EntryBits(m, i, memOk, bits)
            && (IndirectAfter(m, w, memOk, bits) <==> EntryIndirect(m, i, memOk, bits))
  {
    if 32 * i + 32 <= MAX_FILE_SIZE {
      EntryNeed(d, m, i, bytes);
      EntryNeedsIndirect(d, m, i, bytes);
    }
    hide Bitmaps.ClearBits, Bitmaps.TakeFirst, Need, NoHoles, NeedsIndirect, HasIndirect, EntryBlocks;
  }

  lemma EntryNeedsIndirect(d: Disk, m: Meta, i: nat, bytes: seq<bv8>)
    requires ShapeOk(m) && NoHoles(d, m) && |bytes| == 32 && 32 * i <= m.size && m.size % 32 == 0 && 32 * i + 32 <= MAX_FILE_SIZE
    ensures NeedsIndirect(m, WriteReq(32 * i, bytes)) <==> EntryBlocks(m, i) == 2
  {
    if m.size > 512 * NDIRECT { assert Ptr(d, m.sectors, NDIRECT) != 0; }
    hide Ptr;
  }

  lemma DirBlocks(fs: FileStore, no: nat)
    requires fs.Valid() && no in fs.files
    ensures ShapeOk(fs.files[no]) && NoHoles(fs.disk, fs.files[no])
  {
    fs.ValidFacts();
    ConsistentParts(fs.geo, fs.disk, fs.blockBitmap.Value(), fs.inodeBitmap.Value(), fs.files, fs.open);
    hide Consistent, OpenOk, SlotsOk, Distinct, AllUsed, NoHoles, ShapeOk;
  }

  /** inode_write of one entry at slot `i`, or behind the last. */
  method StoreEntry(fs: FileStore, no: nat, i: nat, e: Entry, pad: seq<bv8>, memOk: bool, rest: InodeImage,
                    ghost d0: Disk, ghost files0: Files, ghost open0: seq<InCore>)
    returns (ok: bool)
    requires fs.Valid() && IsOpen(fs.open, no) && IsDir(fs.disk, fs.files, no) && no in fs.files
    requires i <= |DirEntries(fs.disk, fs.files[no])| && NameOk(e.name) && |pad| == 4 && e.ino < 0x1_0000_0000 && e.ftype < 0x1_0000_0000
    requires d0 == fs.disk && files0 == fs.files && open0 == fs.open
    modifies fs`disk, fs`open, fs`files, fs.blockBitmap.bits
    ensures fs.Valid() && OnlyDir(no, d0, files0, open0, fs.disk, fs.files, fs.open)
    ensures no in fs.files && no in files0 && Stored1(ok, DirEntries(d0, files0[no]), i, e, fs.disk, files0[no], fs.files[no])
    ensures i < |DirEntries(d0, files0[no])| && memOk ==> ok
    ensures no in files0 && (ok <==> memOk && EntryFits(files0[no], i, old(fs.blockBitmap.Value())))
    ensures no in files0 && fs.blockBitmap.Value() == EntryBits(files0[no], i, memOk, old(fs.blockBitmap.Value()))
    ensures no in files0 && no in fs.files && (!ok ==> OnlyIndirect(files0[no], fs.files[no]) && SameTable(fs.geo, d0, fs.disk))
    ensures no in files0 && no in fs.files && (HasIndirect(fs.files[no]) <==> EntryIndirect(files0[no], i, memOk, old(fs.blockBitmap.Value())))
  {
    hide *;
    ghost var bits0 := fs.blockBitmap.Value();
    DirBlocks(fs, no);
    OpenHere(fs, no);
    DirSize(d0, files0[no]);
    EntryRoundTrip(e, pad);
    NameFits(e.name);
    var k := fs.FindInode(no);
    var bytes := EncodeEntry(e, pad);
    ghost var m2, last;
    var r;
    r, m2, last := fs.InodeWrite(k, bytes, 32 * i, memOk, rest);
    WroteFacts(WriteReq(32 * i, bytes), k, d0, files0, open0, fs.disk, fs.files, fs.open, r, m2, last);
    IsOnlyDir(no, d0, files0, open0, fs.disk, fs.files, fs.open, k, m2);
    DirWhole(d0, files0, no);
    SmallDir(d0, files0, no, i);
    EntryWrite(d0, files0[no], i, bytes, memOk, bits0);
    ok := r != -1;
    if ok {
      StoreSucceeded(WriteReq(32 * i, bytes), files0[no], Content(d0, files0[no]), m2, fs.disk, r, last, i, e, bytes);
    } else {
      if !memOk { SameMeta(open0, k, m2); }
      StoreFailed(WriteReq(32 * i, bytes), files0[no], Content(d0, files0[no]), m2, fs.disk, last, i, e, bytes);
    }
  }

  /** A slot that exists has room. */
  lemma SmallDir(d: Disk, files: Files, no: nat, i: nat)
    requires IsDir(d, files, no) && i <= |DirEntries(d, files[no])|
    ensures 32 * i <= files[no].size && files[no].size % 32 == 0
    ensures i < |DirEntries(d, files[no])| ==> EntryBlocks(files[no], i) == 0 && forall bits :: EntryFits(files[no], i, bits)
  {
    hide Content, Tidy;
  }

  lemma DirSize(d: Disk, m: Meta)
    requires ShapeOk(m)
    ensures |DirEntries(d, m)| == m.size / 32 && m.size <= MAX_FILE_SIZE && |m.sectors| == NDIRECT + 1 && |Content(d, m)| == m.size
  {
    hide Content;
  }

  lemma DirWhole(d: Disk, files: Files, no: nat)
    requires IsDir(d, files, no)
    ensures Whole(Content(d, files[no])) && files[no].size % 32 == 0 && DirEntries(d, files[no]) == Entries(Content(d, files[no]))
  {
    hide Content, Tidy;
  }

  lemma SameMeta(open0: seq<InCore>, k: nat, m: Meta)
    requires k < |open0| && WithMeta(open0, k, m) == open0
    ensures m == open0[k].meta
  {
    assert WithMeta(open0, k, m)[k].meta == m;
  }

  lemma NameFits(name: Name)
    requires NameOk(name)
    ensures |name| < MAX_FILE_NAME_LEN
  {
  }

  // ---- dir_link and dir_unlink ----

  /** Away from directory `no` every file has the size, type and bytes it had, and all reference counts but the
      root's are what they were. */
  ghost predicate Elsewhere(no: nat, d0: Disk, files0: Files, open0: seq<InCore>, d: Disk, files: Files, open: seq<InCore>) {
    && files.Keys == files0.Keys
    && (forall n :: n in files0 && n != no ==> SameBytes(d0, files0[n], d, files[n]))
    && (forall n :: n != 0 ==> Count(open, n) == Count(open0, n))
  }

  ghost predicate SameBytes(d0: Disk, m0: Meta, d: Disk, m: Meta) {
    m.size == m0.size && m.ftype == m0.ftype && (ShapeOk(m0) ==> ShapeOk(m) && Content(d, m) == Content(d0, m0))
  }

  lemma OnlyDirElsewhere(no: nat, d0: Disk, files0: Files, open0: seq<InCore>, d: Disk, files: Files, open: seq<InCore>)
    requires OnlyDir(no, d0, files0, open0, d, files, open)
    ensures Elsewhere(no, d0, files0, open0, d, files, open) && files.Keys == files0.Keys
  {
    hide Content, ShapeOk, Count, IsOpen;
  }

  lemma SameElsewhere(no: nat, d: Disk, files0: Files, open0: seq<InCore>, files: Files, open: seq<InCore>)
    requires SameFiles(d, files0, files) && forall n :: n != 0 ==> Count(open, n) == Count(open0, n)
    ensures Elsewhere(no, d, files0, open0, d, files, open)
  {
    hide Content, ShapeOk, Count;
    forall n | n in files0 && n != no ensures SameBytes(d, files0[n], d, files[n]) {
      assert SameFile(d, files0[n], files[n]);
    }
  }

  lemma LinkedDir(es: seq<Entry>, i: nat, e: Entry, d: Disk, m0: Meta, files: Files, no: nat)
    requires Tidy(es) && NoDangling(es, files) && no in files && m0.ftype == FT_DIRECTORY
    requires i <= |es| && (i < |es| ==> !Live(es[i])) && EntryOk(e) && Live(e) && e.name !in View(es) && e.ino in files
    requires Stored1(true, es, i, e, d, m0, files[no])
    ensures DirOk(d, files, no) && View(DirEntries(d, files[no])) == View(es)[e.name := (e.ino, e.ftype)]
  {
    hide Content, View, EntryOk, Entries, UniqueNames;
    PutTidy(es, i, e);
    PutView(es, i, e);
    hide Tidy;
  }

  lemma SameDirAfter(es: seq<Entry>, i: nat, e: Entry, d: Disk, m0: Meta, files: Files, no: nat)
    requires Tidy(es) && NoDangling(es, files) && no in files && m0.ftype == FT_DIRECTORY
    requires Stored1(false, es, i, e, d, m0, files[no])
    ensures DirOk(d, files, no) && DirEntries(d, files[no]) == es
  {
    hide Content, Tidy, Entries;
  }

  lemma ClearedDir(es: seq<Entry>, name: Name, i: nat, d: Disk, m0: Meta, files: Files, no: nat)
    requires Tidy(es) && NoDangling(es, files) && no in files && m0.ftype == FT_DIRECTORY && IsAt(es, name, i)
    requires Stored1(true, es, i, FreeEntry(), d, m0, files[no])
    ensures DirOk(d, files, no) && View(DirEntries(d, files[no])) == View(es) - {name}
  {
    ClearTidy(es, i);
    ClearView(es, name, i);
    hide Content, Tidy, View, EntryOk, Entries;
  }

  datatype LinkResult = Linked | Exists | NoRoom | ReadFailed

  /** What dir_link did: exactly one name more in the map, in the first free slot, or the map as it was.  An empty name
      that is linked leaves a live entry without a name. */
  ghost predicate LinkedTo(r: LinkResult, es: seq<Entry>, e: Entry, d: Disk, files: Files, no: nat) {
    && (r == Linked ==> no in files && ShapeOk(files[no]) && files[no].ftype == FT_DIRECTORY && Miss(es, e.name)
                        && DirEntries(d, files[no]) == Put(es, FirstFree(es), e))
    && (r == Linked && e.name != [] ==> DirOk(d, files, no) && View(DirEntries(d, files[no])) == View(es)[e.name := (e.ino, e.ftype)])
    && (r == Linked && e.name == [] ==> !IsDir(d, files, no))
    && (r != Linked ==> DirOk(d, files, no) && DirEntries(d, files[no]) == es)
    && (r == Exists ==> !Miss(es, e.name))
  }

  /** What dir_link can be given: a live entry whose name fits. */
  ghost predicate CanGive(e: Entry) {
    NameOk(e.name) && Live(e) && e.ino < 0x1_0000_0000 && e.ftype < 0x1_0000_0000
  }

  lemma IsLinked(es: seq<Entry>, e: Entry, d: Disk, m0: Meta, files: Files, no: nat, i: nat)
    requires Tidy(es) && NoDangling(es, files) && no in files && m0.ftype == FT_DIRECTORY && i == FirstFree(es)
    requires CanGive(e) && Miss(es, e.name) && e.ino in files && Stored1(true, es, i, e, d, m0, files[no])
    ensures LinkedTo(Linked, es, e, d, files, no)
  {
    if e.name != [] {
      LinkedDir(es, i, e, d, m0, files, no);
      hide Content, Tidy, View, EntryOk, Entries, FirstFree;
    } else {
      NamelessLink(es, e);
      hide Content, View, Entries, FirstFree, Put, Tidy;
    }
  }

  /** A live entry without a name is no entry of a directory in order. */
  lemma NamelessLink(es: seq<Entry>, e: Entry)
    requires Live(e) && e.name == []
    ensures !Tidy(Put(es, FirstFree(es), e))
  {
    assert !EntryOk(Put(es, FirstFree(es), e)[FirstFree(es)]);
  }

  lemma IsNotLinked(r: LinkResult, es: seq<Entry>, e: Entry, d: Disk, files: Files, no: nat)
    requires r != Linked && DirOk(d, files, no) && DirEntries(d, files[no]) == es && (r == Exists ==> !Miss(es, e.name))
    ensures LinkedTo(r, es, e, d, files, no)
  {
    hide Miss;
  }

  lemma {:induction false} FirstFreeIs(es: seq<Entry>, i: nat)
    requires i <= |es| && (i < |es| ==> !Live(es[i])) && forall k :: 0 <= k < i ==> Live(es[k])
    ensures FirstFree(es) == i
  {
    if i > 0 { FirstFreeIs(es[1..], i - 1); }
  }

  /** The scan of dir_link for a free slot. */
  method FindFree(fs: FileStore, no: nat, memOk: bool, ghost es: seq<Entry>) returns (ok: bool, i: nat)
    requires fs.Valid() && IsOpen(fs.open, no) && DirOk(fs.disk, fs.files, no)
    requires no in fs.files && es == DirEntries(fs.disk, fs.files[no])
    ensures i <= |es| && (ok ==> i == FirstFree(es)) && (!ok <==> !memOk && es != [])
  {
    hide *;
    DirFacts(fs.disk, fs.files, no);
    OpenHere(fs, no);
    var k := fs.FindInode(no);
    var size := fs.open[k].meta.size;
    i := 0;
    while 32 * i != size
      invariant i <= |es| && (forall j :: 0 <= j < i ==> Live(es[j])) && (i > 0 ==> memOk)
      decreases |es| - i
    {
      var de;
      ok, de := ReadEntry(fs, no, i, memOk);
      if !ok { return; }
      if !Live(de) {
        FirstFreeIs(es, i);
        return;
      }
      i := i + 1;
    }
    FirstFreeIs(es, i);
    ok := true;
  }

  /** What dir_link does, in terms of the directory, its entries and the free blocks before the call. */
  ghost predicate LinkEnds(r: LinkResult, m: Meta, es: seq<Entry>, name: Name, memOk: bool, writeOk: bool, bits: seq<bool>) {
    && (r == ReadFailed <==> !memOk && es != [])
    && (r == Exists <==> memOk && !Miss(es, name))
    && (r == Linked <==> (memOk || es == []) && Miss(es, name) && writeOk && EntryFits(m, FirstFree(es), bits))
  }

  /** The block bitmap after dir_link. */
  ghost function LinkBits(m: Meta, es: seq<Entry>, name: Name, memOk: bool, writeOk: bool, bits: seq<bool>): seq<bool> {
    if (memOk || es == []) && Miss(es, name) then EntryBits(m, FirstFree(es), writeOk, bits) else bits
  }

  ghost predicate LinkIndirect(m: Meta, es: seq<Entry>, name: Name, memOk: bool, writeOk: bool, bits: seq<bool>) {
    if (memOk || es == []) && Miss(es, name) then EntryIndirect(m, FirstFree(es), writeOk, bits) else HasIndirect(m)
  }

  method DirLink(fs: FileStore, no: nat, e: Entry, pad: seq<bv8>, memOk: bool, writeOk: bool, rest: InodeImage, ghost es: seq<Entry>,
                 ghost d0: Disk, ghost files0: Files, ghost open0: seq<InCore>)
    returns (r: LinkResult)
    requires fs.Valid() && IsOpen(fs.open, no) && DirOk(fs.disk, fs.files, no) && no in fs.files
    requires CanGive(e) && |pad| == 4 && e.ino in fs.files && es == DirEntries(fs.disk, fs.files[no])
    requires d0 == fs.disk && files0 == fs.files && open0 == fs.open
    modifies fs`disk, fs`open, fs`files, fs.blockBitmap.bits
    ensures fs.Valid() && LinkedTo(r, es, e, fs.disk, fs.files, no) && Elsewhere(no, d0, files0, open0, fs.disk, fs.files, fs.open)
    ensures no in files0 && LinkEnds(r, files0[no], es, e.name, memOk, writeOk, old(fs.blockBitmap.Value()))
    ensures no in files0 && fs.blockBitmap.Value() == LinkBits(files0[no], es, e.name, memOk, writeOk, old(fs.blockBitmap.Value()))
    ensures no in files0 && no in fs.files
            && (HasIndirect(fs.files[no]) <==> LinkIndirect(files0[no], es, e.name, memOk, writeOk, old(fs.blockBitmap.Value())))
    ensures no in files0 && no in fs.files && (r != Linked ==> OnlyIndirect(files0[no], fs.files[no]) && SameTable(fs.geo, d0, fs.disk))
    ensures forall n :: n in files0 && n != no ==> n in fs.files && fs.files[n] == files0[n]
  {
    hide *;
    ghost var bits0 := fs.blockBitmap.Value();
    ValidSettled(fs);
    EntryFacts(e);
    DirFacts(d0, files0, no);
    ListIsUnique(fs);
    SelfSame(d0, files0, no);
    SameVersion(fs.geo, d0, files0[no]);
    var found := DirLookUp(fs, no, e.name, memOk, es, open0);
    LookUpParts(found, es, e.name, files0, open0, fs.open);
    if found.Found? {
      LookUpCounts(fs, found, es, e.name, open0);
      ghost var open1 := fs.open;
      OpenedAndClosed(fs.geo, d0, files0, open0, open1, found.child);
      CloseNumber(fs, found.child, d0, files0, open1);
      BackAgain(open0, open1, fs.open, found.child);
      SameElsewhere(no, d0, files0, open0, fs.files, fs.open);
      SameDir(d0, files0, fs.files, no);
      IsNotLinked(Exists, es, e, fs.disk, fs.files, no);
      LinkFound(files0[no], es, e.name, memOk, writeOk, bits0);
      return Exists;
    }
    SameElsewhere(no, d0, files0, open0, fs.files, fs.open);
    LinkAbsent(files0[no], es, e.name, memOk, writeOk, bits0);
    if found.Panic? {
      IsNotLinked(ReadFailed, es, e, fs.disk, fs.files, no);
      return ReadFailed;
    }
    var ok, i := FindFree(fs, no, memOk, es);
    if !ok {
      // the look-up has read the same entries
      assert false;
    }
    ok := StoreEntry(fs, no, i, e, pad, writeOk, rest, d0, files0, open0);
    OnlyDirElsewhere(no, d0, files0, open0, fs.disk, fs.files, fs.open);
    OnlyDirMetas(no, d0, files0, open0, fs.disk, fs.files, fs.open);
    SameKeysDangling(es, files0, fs.files);
    if ok {
      IsLinked(es, e, fs.disk, files0[no], fs.files, no, i);
      return Linked;
    }
    SameDirAfter(es, i, e, fs.disk, files0[no], fs.files, no);
    IsNotLinked(NoRoom, es, e, fs.disk, fs.files, no);
    r := NoRoom;
  }

  lemma OnlyDirMetas(no: nat, d0: Disk, files0: Files, open0: seq<InCore>, d: Disk, files: Files, open: seq<InCore>)
    requires OnlyDir(no, d0, files0, open0, d, files, open)
    ensures forall n :: n in files0 && n != no ==> n in files && files[n] == files0[n]
  {
    hide Content, ShapeOk, Count, IsOpen, OthersSame;
  }

  lemma LinkFound(m: Meta, es: seq<Entry>, name: Name, memOk: bool, writeOk: bool, bits: seq<bool>)
    requires memOk && !Miss(es, name)
    ensures LinkEnds(Exists, m, es, name, memOk, writeOk, bits) && LinkBits(m, es, name, memOk, writeOk, bits) == bits
    ensures LinkIndirect(m, es, name, memOk, writeOk, bits) <==> HasIndirect(m)
  {
    hide Miss, EntryFits, EntryBits, FirstFree, HasIndirect;
  }

  lemma LinkAbsent(m: Meta, es: seq<Entry>, name: Name, memOk: bool, writeOk: bool, bits: seq<bool>)
    requires Miss(es, name) || (!memOk && es != [])
    ensures !memOk && es != [] ==> LinkEnds(ReadFailed, m, es, name, memOk, writeOk, bits) && LinkBits(m, es, name, memOk, writeOk, bits) == bits
    ensures !memOk && es != [] ==> (LinkIndirect(m, es, name, memOk, writeOk, bits) <==> HasIndirect(m))
    ensures memOk || es == [] ==> LinkBits(m, es, name, memOk, writeOk, bits) == EntryBits(m, FirstFree(es), writeOk, bits)
    ensures memOk || es == [] ==> (LinkIndirect(m, es, name, memOk, writeOk, bits) <==> EntryIndirect(m, FirstFree(es), writeOk, bits))
    ensures memOk || es == [] ==>
              LinkEnds(if writeOk && EntryFits(m, FirstFree(es), bits) then Linked else NoRoom, m, es, name, memOk, writeOk, bits)
  {
    hide Miss, EntryFits, EntryBits, FirstFree, HasIndirect, EntryIndirect;
  }

  lemma SameVersion(g: Geometry, d: Disk, m: Meta)
    ensures OnlyIndirect(m, m) && SameTable(g, d, d)
  {
  }

  lemma EntryFacts(e: Entry)
    requires CanGive(e)
    ensures NameOk(e.name) && e.ino < 0x1_0000_0000 && e.ftype < 0x1_0000_0000
  {
  }

  lemma SelfSame(d: Disk, files: Files, no: nat)
    ensures SameFiles(d, files, files)
  {
    hide Content, ShapeOk;
  }

  lemma LookUpParts(r: LookUp, es: seq<Entry>, name: Name, files: Files, open0: seq<InCore>, open: seq<InCore>)
    requires LookedUp(r, es, name, files, open0, open) && Tidy(es)
    ensures r.Found? ==> Hit(es, name, r.i) && !Miss(es, name) && r.child in files && open == Opened(open0, r.child, files[r.child])
    ensures r.Absent? ==> Miss(es, name)
    ensures !r.Found? ==> open == open0
  {
    if name != [] { LookUpFacts(r, es, name, files, open0, open); }
    hide Tidy, Opened, IsAt, View;
  }

  lemma LookUpFacts(r: LookUp, es: seq<Entry>, name: Name, files: Files, open0: seq<InCore>, open: seq<InCore>)
    requires LookedUp(r, es, name, files, open0, open) && Tidy(es) && name != []
    ensures r.Found? ==> name in View(es) && IsAt(es, name, r.i) && r.child in files && open == Opened(open0, r.child, files[r.child])
    ensures r.Absent? ==> name !in View(es)
    ensures !r.Found? ==> open == open0
  {
    hide Tidy, Opened, IsAt;
    if r.Found? { ViewAt(es, name, r.i); }
  }

  /** After a successful look-up the child is open, once more than before. */
  lemma LookUpCounts(fs: FileStore, r: LookUp, es: seq<Entry>, name: Name, open0: seq<InCore>)
    requires fs.Valid() && UniqueOpen(open0) && r.Found? && r.child in fs.files && fs.open == Opened(open0, r.child, fs.files[r.child])
    ensures UniqueOpen(fs.open) && IsOpen(fs.open, r.child)
    ensures forall n :: Count(fs.open, n) == Count(open0, n) + (if n == r.child then 1 else 0)
    ensures forall n :: IsOpen(open0, n) ==> IsOpen(fs.open, n)
  {
    hide *;
    ListIsUnique(fs);
    OpenedCounts(open0, r.child, fs.files[r.child]);
  }

  lemma OpenedCounts(open: seq<InCore>, no: nat, m: Meta)
    requires UniqueOpen(open) && UniqueOpen(Opened(open, no, m))
    ensures forall n :: Count(Opened(open, no, m), n) == Count(open, n) + (if n == no then 1 else 0)
    ensures IsOpen(Opened(open, no, m), no) && forall n :: IsOpen(open, n) ==> IsOpen(Opened(open, no, m), n)
  {
    var open' := Opened(open, no, m);
    hide Count, Opened, UniqueOpen, IsOpen;
    forall n ensures Count(open', n) == Count(open, n) + (if n == no then 1 else 0) && (IsOpen(open, n) || n == no ==> IsOpen(open', n)) {
      OpenedCount(open, no, m, n);
      OpenMeansCounted(open, n);
      OpenMeansCounted(open', n);
    }
  }

  lemma BackAgain(open0: seq<InCore>, open1: seq<InCore>, open2: seq<InCore>, child: nat)
    requires forall n :: Count(open1, n) == Count(open0, n) + (if n == child then 1 else 0)
    requires forall n :: n != 0 ==> Count(open2, n) + (if n == child then 1 else 0) == Count(open1, n)
    ensures forall n :: n != 0 ==> Count(open2, n) == Count(open0, n)
  {
    hide Count;
  }

  lemma SameKeysDangling(es: seq<Entry>, files0: Files, files: Files)
    requires NoDangling(es, files0) && files.Keys == files0.Keys
    ensures NoDangling(es, files)
  {
  }

  datatype UnlinkResult = Unlinked | NoEntry | CannotRead

  /** What dir_unlink did.  It does not look at the result of its write: when the write cannot have a buffer it
      still reports success, and the entry stays. */
  ghost predicate UnlinkedTo(r: UnlinkResult, writeOk: bool, es: seq<Entry>, name: Name, d: Disk, files: Files, no: nat) {
    && DirOk(d, files, no)
    && (r == Unlinked ==> !Miss(es, name))
    && (r == Unlinked && writeOk ==> View(DirEntries(d, files[no])) == View(es) - {name} && |DirEntries(d, files[no])| == |es|)
    && (r != Unlinked || !writeOk ==> DirEntries(d, files[no]) == es)
    && (r == NoEntry ==> Miss(es, name))
  }

  lemma IsUnlinked(es: seq<Entry>, name: Name, i: nat, d: Disk, m0: Meta, files: Files, no: nat, writeOk: bool, ok: bool)
    requires Tidy(es) && NoDangling(es, files) && no in files && m0.ftype == FT_DIRECTORY && Hit(es, name, i)
    requires Stored1(ok, es, i, FreeEntry(), d, m0, files[no]) && (ok <==> writeOk)
    ensures UnlinkedTo(Unlinked, writeOk, es, name, d, files, no)
  {
    if name == [] {
      FreeAgain(es, i);
      hide Tidy, NoDangling, View, Content, EntryOk, Entries;
      SameDirAfter(es, i, FreeEntry(), d, m0, files, no);
    } else {
      ViewAt(es, name, i);
      hide Tidy, NoDangling, View;
      if ok {
        ClearedDir(es, name, i, d, m0, files, no);
      } else {
        SameDirAfter(es, i, FreeEntry(), d, m0, files, no);
      }
      hide Content, EntryOk, Entries, DirOk;
    }
  }

  /** Clearing a free entry changes nothing. */
  lemma FreeAgain(es: seq<Entry>, i: nat)
    requires Tidy(es) && Hit(es, [], i)
    ensures Put(es, i, FreeEntry()) == es && View(es) - {[]} == View(es)
  {
    assert EntryOk(es[i]);
    assert es[i] == FreeEntry();
    ViewExactly(es, []);
  }

  lemma IsNotUnlinked(r: UnlinkResult, writeOk: bool, es: seq<Entry>, name: Name, d: Disk, files: Files, no: nat)
    requires r != Unlinked && DirOk(d, files, no) && DirEntries(d, files[no]) == es && (r == NoEntry ==> Miss(es, name))
    ensures UnlinkedTo(r, writeOk, es, name, d, files, no)
  {
  }

  lemma ElsewhereTrans(no: nat, d0: Disk, files0: Files, open0: seq<InCore>, files1: Files, open1: seq<InCore>,
                       d: Disk, files: Files, open: seq<InCore>)
    requires Elsewhere(no, d0, files0, open0, d0, files1, open1) && Elsewhere(no, d0, files1, open1, d, files, open)
    ensures Elsewhere(no, d0, files0, open0, d, files, open)
  {
    hide Content, ShapeOk, Count;
    forall n | n in files0 && n != no ensures SameBytes(d0, files0[n], d, files[n]) {
      assert SameBytes(d0, files0[n], d0, files1[n]) && SameBytes(d0, files1[n], d, files[n]);
    }
  }

  lemma AtFacts(es: seq<Entry>, name: Name, i: nat)
    requires Hit(es, name, i)
    ensures i < |es|
  {
  }

  lemma FreeFits()
    ensures NameOk(FreeEntry().name) && FreeEntry().ino < 0x1_0000_0000 && FreeEntry().ftype < 0x1_0000_0000
  {
  }

  method DirUnlink(fs: FileStore, no: nat, name: Name, pad: seq<bv8>, memOk: bool, writeOk: bool, rest: InodeImage,
                   ghost es: seq<Entry>, ghost d0: Disk, ghost files0: Files, ghost open0: seq<InCore>)
    returns (r: UnlinkResult)
    requires fs.Valid() && IsOpen(fs.open, no) && DirOk(fs.disk, fs.files, no) && no in fs.files
    requires |pad| == 4 && es == DirEntries(fs.disk, fs.files[no])
    requires d0 == fs.disk && files0 == fs.files && open0 == fs.open
    modifies fs`disk, fs`open, fs`files, fs.blockBitmap.bits
    ensures fs.Valid() && UnlinkedTo(r, writeOk, es, name, fs.disk, fs.files, no)
    ensures Elsewhere(no, d0, files0, open0, fs.disk, fs.files, fs.open)
    ensures r == CannotRead <==> !memOk && es != []
    ensures fs.blockBitmap.Value() == old(fs.blockBitmap.Value())
    ensures forall n :: n in files0 && n != no ==> n in fs.files && fs.files[n] == files0[n]
    ensures no in files0 && no in fs.files && (HasIndirect(fs.files[no]) <==> HasIndirect(files0[no]))
  {
    hide *;
    ValidSettled(fs);
    DirFacts(d0, files0, no);
    ListIsUnique(fs);
    SelfSame(d0, files0, no);
    var found := DirLookUp(fs, no, name, memOk, es, open0);
    LookUpParts(found, es, name, files0, open0, fs.open);
    if !found.Found? {
      SameElsewhere(no, d0, files0, open0, fs.files, fs.open);
      r := if found.Absent? then NoEntry else CannotRead;
      IsNotUnlinked(r, writeOk, es, name, fs.disk, fs.files, no);
      return;
    }
    LookUpCounts(fs, found, es, name, open0);
    ghost var open1 := fs.open;
    OpenedAndClosed(fs.geo, d0, files0, open0, open1, found.child);
    CloseNumber(fs, found.child, d0, files0, open1);
    BackAgain(open0, open1, fs.open, found.child);
    SameElsewhere(no, d0, files0, open0, fs.files, fs.open);
    ghost var open2 := fs.open;
    StillHere(fs, open0, no);
    AtFacts(es, name, found.i);
    FreeFits();
    ghost var bits0 := fs.blockBitmap.Value();
    TidyIsDir(d0, files0, no);
    SmallDir(d0, files0, no, found.i);
    var ok := StoreEntry(fs, no, found.i, FreeEntry(), pad, writeOk, rest, d0, files0, open2);
    SlotTakesNone(files0[no], found.i, writeOk, bits0);
    OnlyDirElsewhere(no, d0, files0, open2, fs.disk, fs.files, fs.open);
    OnlyDirMetas(no, d0, files0, open2, fs.disk, fs.files, fs.open);
    ElsewhereTrans(no, d0, files0, open0, files0, open2, fs.disk, fs.files, fs.open);
    SameKeysDangling(es, files0, fs.files);
    IsUnlinked(es, name, found.i, fs.disk, files0[no], fs.files, no, writeOk, ok);
    r := Unlinked;
  }

  lemma TidyIsDir(d: Disk, files: Files, no: nat)
    requires DirOk(d, files, no)
    ensures IsDir(d, files, no)
  {
  }

  lemma SlotTakesNone(m: Meta, i: nat, memOk: bool, bits: seq<bool>)
    requires EntryBlocks(m, i) == 0
    ensures EntryBits(m, i, memOk, bits) == bits && (EntryIndirect(m, i, memOk, bits) <==> HasIndirect(m))
  {
    hide EntryBlocks, HasIndirect;
  }

  /** The directory is still open after its child is closed. */
  lemma StillHere(fs: FileStore, open0: seq<InCore>, no: nat)
    requires fs.Valid() && UniqueOpen(open0) && IsOpen(open0, no) && forall n :: n != 0 ==> Count(fs.open, n) == Count(open0, n)
    ensures IsOpen(fs.open, no)
  {
    hide *;
    ListIsUnique(fs);
    OpenMeansCounted(open0, no);
    OpenMeansCounted(fs.open, no);
  }
}
