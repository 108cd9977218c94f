/** Runs of the operations on inodes, and of creating, deleting, opening, writing and closing by path. */
module StoreRuns {
  import opened Basics
  import opened Bitmaps
  import opened FsFormat
  import opened FsVolume
  import opened FsStore
  import opened FsInode
  import opened FsDirectory
  import opened FsTree
  import opened Runs

  /** The disk, the files, the open inodes and the two bitmaps; what the last call returned, and what the last read got. */
  datatype StoreState = StoreState(geo: Geometry, v: Vol, bytes: seq<bv8>, ibits: seq<bool>, ret: int, buf: seq<bv8>)

  datatype StoreCall =
    | Create(ftype: nat, memOk: bool)
    | OpenAgain(no: nat)
    | CloseAt(k: nat)
    | ReadAt(k: nat, count: nat, pos: nat, memOk: bool)
    | WriteAt(k: nat, data: seq<bv8>, pos: nat, memOk: bool)
    | Delete(k: nat)

  /** Blocks are used once and marked, the bitmap on disk is the one in memory, in-core inodes are unique and agree with
      their slots. */
  ghost predicate StoreInv(S: StoreState) {
    && DiskShape(S.geo, S.v.d, |Bits(S.bytes)|) && BitmapOnDisk(S.geo, S.v.d, S.bytes)
    && Consistent(S.geo, S.v.d, Bits(S.bytes), S.ibits, S.v.files, S.v.open)
  }

  /** inode_free of an inode that is open more than once. */
  ghost predicate StoreStop(S: StoreState, c: StoreCall) {
    c.Delete? && c.k < |S.v.open| && S.v.open[c.k].no != 0 && S.v.open[c.k].opens != 1
  }

  /** inode_write: -1 exactly when the file would be too large, there is no buffer, or fewer blocks are free than it takes. */
  ghost predicate Writes(S: StoreState, S': StoreState, k: nat, data: seq<bv8>, pos: nat, memOk: bool)
    requires k < |S.v.open|
  {
    var m, w := S.v.open[k].meta, WriteReq(pos, data);
    && S'.ibits == S.ibits && S'.buf == S.buf
    && (S'.ret == -1 <==> WriteFails(m, w, memOk, Bits(S.bytes)))
    && Bits(S'.bytes) == WriteBits(m, w, memOk, Bits(S.bytes))
    && (pos + |data| > MAX_FILE_SIZE || !memOk ==> S'.v.d == S.v.d && S'.v.open == S.v.open)
    && exists m2, last :: WroteAs(S, S', k, data, pos, memOk, m2, last)
  }

  ghost predicate WroteAs(S: StoreState, S': StoreState, k: nat, data: seq<bv8>, pos: nat, memOk: bool, m2: Meta, last: Sector)
    requires k < |S.v.open|
  {
    var m, w := S.v.open[k].meta, WriteReq(pos, data);
    && Wrote(w, k, S.v.d, S.v.files, S.v.open, S'.v.d, S'.v.files, S'.v.open, S'.ret, m2, last)
    && (HasIndirect(m2) <==> IndirectAfter(m, w, memOk, Bits(S.bytes)))
    && (S'.ret == -1 ==> OnlyIndirect(m, m2) && SameTable(S.geo, S.v.d, S'.v.d))
  }

  /** inode_alloc: the first free number is taken, also when there is no memory for its inode. */
  ghost predicate Allocates(S: StoreState, S': StoreState, ftype: nat, memOk: bool) {
    && BytesKept(S.v.d, S'.v.d, S.v.files) && S'.bytes == S.bytes && S'.buf == S.buf && S'.ibits == TakeFirst(S.ibits, 1)
    && if memOk && !AllSet(S.ibits)
       then S'.ret == 0 && Allocated(ftype, S.v.files, S.v.open, S'.v.files, S'.v.open)
            && S'.v.open[0].no < |S.ibits| && S'.ibits == S.ibits[S'.v.open[0].no := true]
       else S'.ret == -1 && S'.v.files == S.v.files && S'.v.open == S.v.open
  }

  ghost predicate Reads(S: StoreState, S': StoreState, k: nat, count: nat, pos: nat, memOk: bool)
    requires k < |S.v.open|
  {
    var m := S.v.open[k].meta;
    && S' == S.(ret := S'.ret, buf := S'.buf) && ShapeOk(m)
    && (S'.ret == -1 <==> !memOk || (pos + count > m.size && pos >= m.size))
    && (S'.ret != -1 ==> S'.ret == (if pos + count > m.size then m.size - pos else count))
    && (S'.ret != -1 ==> 0 <= S'.ret && pos + S'.ret <= m.size && S'.buf == Content(S.v.d, m)[pos..pos + S'.ret])
  }

  ghost predicate Closes(S: StoreState, S': StoreState, k: nat)
    requires k < |S.v.open|
  {
    && S' == S.(v := Vol(S.v.d, FilesAfterClose(S.geo, S.v.d, S.v.files, S.v.open, k), Closed(S.v.open, k)), ret := 0)
    && SameFiles(S.v.d, S.v.files, S'.v.files)
  }

  /** inode_free: the number and the blocks that the file lists are given back. */
  ghost predicate Frees(S: StoreState, S': StoreState, k: nat)
    requires k < |S.v.open|
  {
    var no := S.v.open[k].no;
    && S'.v.files == S.v.files - {no} && S'.v.open == Closed(S.v.open, k) && BytesKept(S.v.d, S'.v.d, S'.v.files)
    && no in S.v.files && no < |S.ibits| && S'.ibits == S.ibits[no := false]
    && Bits(S'.bytes) == BitsWithout(S.geo, Bits(S.bytes), S.v.d, S.v.files[no]) && SameTable(S.geo, S.v.d, S'.v.d)
    && S'.ret == 0 && S'.buf == S.buf
  }

  /** What a call does; the root is not freed, and a write starts inside the file or at its end. */
  ghost predicate StoreStep(S: StoreState, c: StoreCall, S': StoreState) {
    && S'.geo == S.geo
    && match c
       case Create(ftype, memOk) => if ftype < 0x1_0000_0000 then Allocates(S, S', ftype, memOk) else S' == S
       case OpenAgain(no) =>
         if no in S.v.files then S' == S.(v := S.v.(open := Opened(S.v.open, no, S.v.files[no])), ret := FindOpen(S'.v.open, no)) else S' == S
       case CloseAt(k) => if k < |S.v.open| then Closes(S, S', k) else S' == S
       case ReadAt(k, count, pos, memOk) => if k < |S.v.open| then Reads(S, S', k, count, pos, memOk) else S' == S
       case WriteAt(k, data, pos, memOk) =>
         if k < |S.v.open| && pos <= S.v.open[k].meta.size then Writes(S, S', k, data, pos, memOk) else S' == S
       case Delete(k) => if k < |S.v.open| && S.v.open[k].no != 0 then Frees(S, S', k) else S' == S
  }

  ghost function StateOf(fs: FileStore, ret: int, buf: seq<bv8>): StoreState
    reads fs, fs.blockBitmap.bits, fs.inodeBitmap.bits
  {
    StoreState(fs.geo, Now(fs), fs.blockBitmap.bits[..], fs.inodeBitmap.Value(), ret, buf)
  }

  lemma StateIs(fs: FileStore, S: StoreState, ret: int, buf: seq<bv8>)
    requires S == StateOf(fs, ret, buf)
    ensures S.geo == fs.geo && S.v == Now(fs) && S.v.d == fs.disk && S.v.files == fs.files && S.v.open == fs.open && S.ibits == fs.inodeBitmap.Value()
    ensures S.bytes == fs.blockBitmap.bits[..] && Bits(S.bytes) == fs.blockBitmap.Value() && S.ret == ret && S.buf == buf
    ensures S.v == Vol(fs.disk, fs.files, fs.open) && S == StoreState(S.geo, S.v, S.bytes, S.ibits, ret, buf)
  {
  }

  lemma ValidIsInv(fs: FileStore, ret: int, buf: seq<bv8>)
    requires fs.Valid()
    ensures StoreInv(StateOf(fs, ret, buf))
  {
    fs.ValidFacts();
    hide Consistent, BitmapOnDisk, DiskShape;
  }

  method DoCreate(fs: FileStore, ftype: nat, memOk: bool, rest: InodeImage, known: set<nat>, ret0: int, ghost buf: seq<bv8>, ghost S: StoreState)
    returns (known': set<nat>, ret: int)
    requires fs.Valid() && S == StateOf(fs, ret0, buf) && known == fs.files.Keys
    modifies fs, fs.inodeBitmap.bits
    ensures fs.Valid() && known' == fs.files.Keys && StoreStep(S, Create(ftype, memOk), StateOf(fs, ret, buf))
  {
    hide *;
    StateIs(fs, S, ret0, buf);
    fs.ValidFacts();
    fs.FrameFacts();
    known', ret := known, ret0;
    if ftype < 0x1_0000_0000 {
      ret := fs.InodeAlloc(ftype, memOk, rest);
      if ret == 0 {
        CreatedKeys(ftype, S.v.files, S.v.open, fs.files, fs.open);
        known' := known + {fs.open[0].no};
      }
    }
    StateIs(fs, StateOf(fs, ret, buf), ret, buf);
    CreateStep(S, StateOf(fs, ret, buf), ftype, memOk);
  }

  lemma CreatedKeys(ftype: nat, files0: Files, open0: seq<InCore>, files: Files, open: seq<InCore>)
    requires Allocated(ftype, files0, open0, files, open)
    ensures |open| > 0 && files.Keys == files0.Keys + {open[0].no}
  {
  }

  lemma CreateStep(S: StoreState, S': StoreState, ftype: nat, memOk: bool)
    requires S'.geo == S.geo && (ftype >= 0x1_0000_0000 ==> S' == S)
    requires ftype < 0x1_0000_0000 ==> BytesKept(S.v.d, S'.v.d, S.v.files) && S'.bytes == S.bytes && S'.buf == S.buf && S'.ibits == TakeFirst(S.ibits, 1)
    requires ftype < 0x1_0000_0000 ==>
               if !memOk || AllSet(S.ibits) then S'.ret == -1 && S'.v.files == S.v.files && S'.v.open == S.v.open
               else S'.ret == 0 && Allocated(ftype, S.v.files, S.v.open, S'.v.files, S'.v.open)
                    && |S'.v.open| > 0 && S'.v.open[0].no < |S.ibits| && S'.ibits == S.ibits[S'.v.open[0].no := true]
    ensures StoreStep(S, Create(ftype, memOk), S')
  {
    hide BytesKept, AllSet, TakeFirst;
  }

  method DoOpen(fs: FileStore, no: nat, known: set<nat>, ret0: int, ghost buf: seq<bv8>, ghost S: StoreState) returns (ret: int)
    requires fs.Valid() && S == StateOf(fs, ret0, buf) && known == fs.files.Keys
    modifies fs
    ensures fs.Valid() && known == fs.files.Keys && StoreStep(S, OpenAgain(no), StateOf(fs, ret, buf))
  {
    hide *;
    StateIs(fs, S, ret0, buf);
    ret := ret0;
    if no in known {
      ret := fs.InodeOpen(no);
      AtMost(fs, ret, no);
    }
    StateIs(fs, StateOf(fs, ret, buf), ret, buf);
    OpenStep(S, StateOf(fs, ret, buf), no);
  }

  /** An inode is in the list once, so that its place is told by its number. */
  lemma AtMost(fs: FileStore, k: nat, no: nat)
    requires fs.Valid() && k < |fs.open| && fs.open[k].no == no
    ensures FindOpen(fs.open, no) == k
  {
    hide *;
    ListIsUnique(fs);
    CountAt(fs.open, k);
  }

  lemma OpenStep(S: StoreState, S': StoreState, no: nat)
    requires S'.geo == S.geo && S'.bytes == S.bytes && S'.ibits == S.ibits && S'.buf == S.buf && S'.v.d == S.v.d && S'.v.files == S.v.files
    requires S'.v.open == if no in S.v.files then Opened(S.v.open, no, S.v.files[no]) else S.v.open
    requires S'.ret == if no in S.v.files then FindOpen(S'.v.open, no) else S.ret
    ensures StoreStep(S, OpenAgain(no), S')
  {
    hide Opened, FindOpen;
  }

  method DoClose(fs: FileStore, k: nat, known: set<nat>, ret0: int, ghost buf: seq<bv8>, ghost S: StoreState) returns (ret: int)
    requires fs.Valid() && S == StateOf(fs, ret0, buf) && known == fs.files.Keys
    modifies fs
    ensures fs.Valid() && known == fs.files.Keys && StoreStep(S, CloseAt(k), StateOf(fs, ret, buf))
  {
    hide *;
    StateIs(fs, S, ret0, buf);
    ret := ret0;
    if k < |fs.open| {
      fs.InodeClose(k);
      AreSameFiles(S.v.d, S.v.files, fs.files);
      ret := 0;
    }
    StateIs(fs, StateOf(fs, ret, buf), ret, buf);
    CloseStep(S, StateOf(fs, ret, buf), k);
  }

  lemma CloseStep(S: StoreState, S': StoreState, k: nat)
    requires S'.geo == S.geo && S'.bytes == S.bytes && S'.ibits == S.ibits && S'.buf == S.buf && S'.v.d == S.v.d
    requires k >= |S.v.open| ==> S' == S
    requires k < |S.v.open| ==> S'.v.open == Closed(S.v.open, k) && SameFiles(S.v.d, S.v.files, S'.v.files) && S'.ret == 0
    requires k < |S.v.open| ==> S'.v.files == FilesAfterClose(S.geo, S.v.d, S.v.files, S.v.open, k)
    ensures StoreStep(S, CloseAt(k), S')
  {
    hide SameFiles, Closed, FilesAfterClose;
  }

  method DoRead(fs: FileStore, k: nat, count: nat, pos: nat, memOk: bool, ret0: int, buf0: seq<bv8>, ghost S: StoreState)
    returns (ret: int, buf: seq<bv8>)
    requires fs.Valid() && S == StateOf(fs, ret0, buf0)
    ensures StoreStep(S, ReadAt(k, count, pos, memOk), StateOf(fs, ret, buf))
  {
    hide *;
    StateIs(fs, S, ret0, buf0);
    ret, buf := ret0, buf0;
    if k < |fs.open| { ret, buf := fs.InodeRead(k, count, pos, memOk); }
    StateIs(fs, StateOf(fs, ret, buf), ret, buf);
    ReadStep(S, StateOf(fs, ret, buf), k, count, pos, memOk);
  }

  lemma ReadStep(S: StoreState, S': StoreState, k: nat, count: nat, pos: nat, memOk: bool)
    requires S' == S.(ret := S'.ret, buf := S'.buf) && (k >= |S.v.open| ==> S' == S)
    requires k < |S.v.open| ==> ShapeOk(S.v.open[k].meta)
    requires k < |S.v.open| ==> (S'.ret == -1 <==> !memOk || (pos + count > S.v.open[k].meta.size && pos >= S.v.open[k].meta.size))
    requires k < |S.v.open| && S'.ret != -1 ==> S'.ret == (if pos + count > S.v.open[k].meta.size then S.v.open[k].meta.size - pos else count)
    requires k < |S.v.open| && S'.ret != -1 ==> 0 <= S'.ret && pos + S'.ret <= S.v.open[k].meta.size
    requires k < |S.v.open| && S'.ret != -1 ==> S'.buf == Content(S.v.d, S.v.open[k].meta)[pos..pos + S'.ret]
    ensures StoreStep(S, ReadAt(k, count, pos, memOk), S')
  {
    hide Content, ShapeOk;
  }

  method DoWrite(fs: FileStore, k: nat, data: seq<bv8>, pos: nat, memOk: bool, rest: InodeImage, known: set<nat>, ret0: int, ghost buf: seq<bv8>,
                 ghost S: StoreState) returns (ret: int)
    requires fs.Valid() && S == StateOf(fs, ret0, buf) && known == fs.files.Keys
    modifies fs, fs.blockBitmap.bits
    ensures fs.Valid() && known == fs.files.Keys && StoreStep(S, WriteAt(k, data, pos, memOk), StateOf(fs, ret, buf))
  {
    hide *;
    StateIs(fs, S, ret0, buf);
    fs.ValidFacts();
    fs.FrameFacts();
    ret := ret0;
    var may := k < |fs.open| && pos <= fs.open[k].meta.size;
    if may {
      OpenInFiles(fs, k);
      ghost var m2, last;
      ret, m2, last := fs.InodeWrite(k, data, pos, memOk, rest);
      WrittenKeys(WriteReq(pos, data), k, S.v.d, S.v.files, S.v.open, fs.disk, fs.files, fs.open, ret, m2, last);
      StateIs(fs, StateOf(fs, ret, buf), ret, buf);
      WroteHere(S, StateOf(fs, ret, buf), k, data, pos, memOk, m2, last);
    }
    StateIs(fs, StateOf(fs, ret, buf), ret, buf);
    WriteStep(S, StateOf(fs, ret, buf), k, data, pos, memOk);
  }

  lemma OpenInFiles(fs: FileStore, k: nat)
    requires fs.Valid() && k < |fs.open|
    ensures fs.open[k].no in fs.files && fs.files[fs.open[k].no] == fs.open[k].meta
  {
    fs.ValidFacts();
    hide *;
    OpenFacts(fs.geo, fs.disk, fs.blockBitmap.Value(), fs.inodeBitmap.Value(), fs.files, fs.open, k);
  }

  lemma WrittenKeys(w: WriteReq, k: nat, d0: Disk, files0: Files, open0: seq<InCore>,
                    d: Disk, files: Files, open: seq<InCore>, r: int, m2: Meta, last: Sector)
    requires Wrote(w, k, d0, files0, open0, d, files, open, r, m2, last) && k < |open0| && open0[k].no in files0
    ensures files.Keys == files0.Keys
  {
  }

  lemma WroteHere(S: StoreState, S': StoreState, k: nat, data: seq<bv8>, pos: nat, memOk: bool, m2: Meta, last: Sector)
    requires k < |S.v.open| && Wrote(WriteReq(pos, data), k, S.v.d, S.v.files, S.v.open, S'.v.d, S'.v.files, S'.v.open, S'.ret, m2, last)
    requires S'.ibits == S.ibits && S'.buf == S.buf
    requires pos + |data| > MAX_FILE_SIZE || !memOk ==> S'.v.d == S.v.d && S'.v.open == S.v.open
    requires S'.ret == -1 <==> WriteFails(S.v.open[k].meta, WriteReq(pos, data), memOk, Bits(S.bytes))
    requires Bits(S'.bytes) == WriteBits(S.v.open[k].meta, WriteReq(pos, data), memOk, Bits(S.bytes))
    requires S'.ret == -1 ==> OnlyIndirect(S.v.open[k].meta, m2) && SameTable(S.geo, S.v.d, S'.v.d)
    requires HasIndirect(m2) <==> IndirectAfter(S.v.open[k].meta, WriteReq(pos, data), memOk, Bits(S.bytes))
    ensures Writes(S, S', k, data, pos, memOk)
  {
    hide Wrote, WriteFails, WriteBits, OnlyIndirect, SameTable, HasIndirect, IndirectAfter, Bits;
    assert WroteAs(S, S', k, data, pos, memOk, m2, last);
  }

  lemma WriteStep(S: StoreState, S': StoreState, k: nat, data: seq<bv8>, pos: nat, memOk: bool)
    requires S'.geo == S.geo
    requires if k < |S.v.open| && pos <= S.v.open[k].meta.size then Writes(S, S', k, data, pos, memOk) else S' == S
    ensures StoreStep(S, WriteAt(k, data, pos, memOk), S')
  {
    hide Writes;
  }

  method DoDelete(fs: FileStore, k: nat, known: set<nat>, ret0: int, ghost buf: seq<bv8>, ghost S: StoreState)
    returns (stopped: bool, known': set<nat>, ret: int)
    requires fs.Valid() && S == StateOf(fs, ret0, buf) && known == fs.files.Keys
    modifies fs, fs.blockBitmap.bits, fs.inodeBitmap.bits
    ensures stopped <==> StoreStop(S, Delete(k))
    ensures !stopped ==> fs.Valid() && known' == fs.files.Keys && StoreStep(S, Delete(k), StateOf(fs, ret, buf))
  {
    hide *;
    StateIs(fs, S, ret0, buf);
    DeleteStops(S, k);
    known', ret := known, ret0;
    stopped := k < |fs.open| && fs.open[k].no != 0 && fs.open[k].opens != 1;
    if !stopped {
      if k < |fs.open| && fs.open[k].no != 0 {
        known' := known - {fs.open[k].no};
        ghost var blocks := fs.InodeFree(k, fs.disk, fs.blockBitmap.Value(), fs.files, fs.open);
        ret := 0;
        StateIs(fs, StateOf(fs, ret, buf), ret, buf);
        FreedHere(S, StateOf(fs, ret, buf), k);
      }
      StateIs(fs, StateOf(fs, ret, buf), ret, buf);
      DeleteStep(S, StateOf(fs, ret, buf), k);
    }
  }

  lemma DeleteStops(S: StoreState, k: nat)
    ensures StoreStop(S, Delete(k)) <==> k < |S.v.open| && S.v.open[k].no != 0 && S.v.open[k].opens != 1
  {
  }

  lemma DeleteStep(S: StoreState, S': StoreState, k: nat)
    requires S'.geo == S.geo && (!(k < |S.v.open| && S.v.open[k].no != 0) ==> S' == S)
    requires k < |S.v.open| && S.v.open[k].no != 0 ==> Frees(S, S', k)
    ensures StoreStep(S, Delete(k), S')
  {
    hide Frees;
  }

  lemma FreedHere(S: StoreState, S': StoreState, k: nat)
    requires k < |S.v.open| && S'.v.files == S.v.files - {S.v.open[k].no} && S'.v.open == Closed(S.v.open, k) && BytesKept(S.v.d, S'.v.d, S'.v.files)
    requires S.v.open[k].no in S.v.files && S.v.open[k].no < |S.ibits| && S'.ibits == S.ibits[S.v.open[k].no := false]
    requires Bits(S'.bytes) == BitsWithout(S.geo, Bits(S.bytes), S.v.d, S.v.files[S.v.open[k].no]) && SameTable(S.geo, S.v.d, S'.v.d)
    requires S'.ret == 0 && S'.buf == S.buf
    ensures Frees(S, S', k)
  {
    hide Closed, BytesKept, BitsWithout, SameTable, Bits;
  }

  lemma NeverStops(S: StoreState, c: StoreCall)
    requires !c.Delete?
    ensures !StoreStop(S, c)
  {
  }

  /** Over every run of creating, opening, reading, writing, closing and freeing inodes, failed calls included, the store
      is consistent.  The run ends exactly at a free of an inode that is open more than once. */
  method RunStore(fs: FileStore, calls: seq<StoreCall>, rest: InodeImage)
    returns (done: nat, known: set<nat>, ret: int, buf: seq<bv8>, ghost states: seq<StoreState>)
    requires fs.Valid() && fs.files.Keys == {0}
    modifies fs, fs.blockBitmap.bits, fs.inodeBitmap.bits
    ensures Ran(StoreInv, StoreStop, StoreStep, states, calls, done)
    ensures |states| == done + 1 && states[0] == old(StateOf(fs, 0, []))
    ensures done == |calls| ==> states[done] == StateOf(fs, ret, buf) && known == fs.files.Keys
  {
    hide *;
    done, known, ret, buf := 0, {0}, 0, [];
    ghost var S := StateOf(fs, 0, []);
    ValidIsInv(fs, 0, []);
    states := [S];
    Starts(StoreInv, StoreStop, StoreStep, calls, S);
    while done < |calls|
      invariant done <= |calls| && SoFar(StoreInv, StoreStop, StoreStep, states, calls, done) && |states| == done + 1
      invariant fs.Valid() && states[done] == StateOf(fs, ret, buf) && known == fs.files.Keys && states[0] == S
    {
      ghost var S0 := StateOf(fs, ret, buf);
      var stopped := false;
      match calls[done] {
        case Create(ftype, memOk) => known, ret := DoCreate(fs, ftype, memOk, rest, known, ret, buf, S0); NeverStops(S0, calls[done]);
        case OpenAgain(no) => ret := DoOpen(fs, no, known, ret, buf, S0); NeverStops(S0, calls[done]);
        case CloseAt(k) => ret := DoClose(fs, k, known, ret, buf, S0); NeverStops(S0, calls[done]);
        case ReadAt(k, count, pos, memOk) => ret, buf := DoRead(fs, k, count, pos, memOk, ret, buf, S0); NeverStops(S0, calls[done]);
        case WriteAt(k, data, pos, memOk) => ret := DoWrite(fs, k, data, pos, memOk, rest, known, ret, buf, S0); NeverStops(S0, calls[done]);
        case Delete(k) => stopped, known, ret := DoDelete(fs, k, known, ret, buf, S0);
      }
      if stopped {
        Stopped(StoreInv, StoreStop, StoreStep, states, calls, done);
        return;
      }
      ValidIsInv(fs, ret, buf);
      Further(StoreInv, StoreStop, StoreStep, states, calls, done, StateOf(fs, ret, buf));
      states := states + [StateOf(fs, ret, buf)];
      done := done + 1;
    }
    Stopped(StoreInv, StoreStop, StoreStep, states, calls, done);
  }
}

/** Runs of the operations on paths. */
module PathRuns {
  import opened Basics
  import opened FsFormat
  import opened FsVolume
  import opened FsStore
  import opened FsInode
  import opened FsEntries
  import opened FsDirectory
  import opened FsPaths
  import opened FsTree
  import opened Runs

  /** The volume, the two bitmaps, and what the last call returned: the number of an inode for a pointer to it, -1 for NULL. */
  datatype PathState = PathState(geo: Geometry, v: Vol, bits: seq<bool>, ibits: seq<bool>, ret: int)

  /** Calls of a process whose working directory is `cwd`, on paths; and on the inodes that are open. */
  datatype PathCall =
    | CreateAt(path: seq<bv8>, cwd: nat, ftype: nat, room: Room)
    | DeleteAt(path: seq<bv8>, cwd: nat, room: Room)
    | OpenAt(path: seq<bv8>, cwd: nat, room: Room)
    | WriteFile(k: nat, data: seq<bv8>, pos: nat, room: Room)
    | CloseFile(k: nat)

  /** The store is consistent, every directory is a finite map whose names refer to files that exist, and no file but the
      root has two names. */
  ghost predicate PathInv(S: PathState) { TreeOk(S.v) && Consistent(S.geo, S.v.d, S.bits, S.ibits, S.v.files, S.v.open) }

  ghost predicate MayCreate(S: PathState, path: seq<bv8>, cwd: nat, ftype: nat) {
    0 < ftype < 0x1_0000_0000 && NameOk(LastName(path)) && IsDirectory(S.v, cwd)
  }

  ghost predicate MayDelete(S: PathState, path: seq<bv8>, cwd: nat) {
    IsDirectory(S.v, cwd)
  }

  ghost predicate MayWrite(S: PathState, k: nat, pos: nat) {
    k < |S.v.open| && pos <= S.v.open[k].meta.size && S.v.open[k].meta.ftype != FT_DIRECTORY
  }

  /** The directory in which a search starts cannot be read. */
  ghost predicate Unread(S: PathState, path: seq<bv8>, cwd: nat, room: Room) {
    !room.read && EntriesOf(S.v, Start(path, cwd)) != []
  }

  /** Where the kernel panics: a directory cannot be read, or a file that is held, the root, or a directory in itself is
      to be deleted.  And where the tree is no longer in order: a file is made without a name, or dir_unlink cannot write. */
  ghost predicate PathStop(S: PathState, c: PathCall) {
    match c
    case CreateAt(path, cwd, ftype, room) =>
      MayCreate(S, path, cwd, ftype)
      && if CanCreate(S.v, path, cwd, room, S.bits, S.ibits) then LastName(path) == [] else GetsInode(room, S.ibits) && Unread(S, path, cwd, room)
    case DeleteAt(path, cwd, room) =>
      MayDelete(S, path, cwd)
      && if room.read then Victim(S.v, path, cwd).Some? && (!Deletable(S.v, path, cwd) || !room.write) else Unread(S, path, cwd, room)
    case OpenAt(path, cwd, room) =>
      IsDirectory(S.v, cwd) && Unread(S, path, cwd, room) && (Split(path).dirs != [] || Split(path).last != [])
    case _ => false
  }

  function MadeOf(ret: int): Made { if ret < 0 then Failed else Made(ret) }

  /** An inode exactly when `CanCreate`, and then one that had no file; NULL otherwise, and nothing has changed. */
  ghost predicate Creates(S: PathState, S': PathState, path: seq<bv8>, cwd: nat, ftype: nat, room: Room) {
    var r := MadeOf(S'.ret);
    && S'.ret >= -1 && CreateEnds(r, S.v, path, cwd, room, S.bits, S.ibits)
    && CreateFiles(r, S.v, S'.v, path, cwd, ftype, room, S.bits, S.ibits)
    && S'.bits == CreateBits(S.v, path, cwd, room, S.bits, S.ibits)
    && S'.ibits == CreateNumbers(S.v, path, cwd, room, S.bits, S.ibits)
    && if r.Made?
       then Parent(S.v, path, cwd).Some? && Created(S.v, S'.v, Parent(S.v, path, cwd).value, r.no, LastName(path), ftype)
            && r.no < |S.ibits| && !S.ibits[r.no]
       else Untouched(S.v, S'.v)
  }

  ghost predicate Deletes(S: PathState, S': PathState, path: seq<bv8>, cwd: nat) {
    var c, p := Victim(S.v, path, cwd), Parent(S.v, path, cwd);
    if c.None?
    then S'.ret == 0 && Untouched(S.v, S'.v) && S'.v.files == S.v.files && S'.bits == S.bits && S'.ibits == S.ibits
    else S'.ret == 1 && Deletable(S.v, path, cwd) && Removed(S.v, S'.v, p.value, c.value, LastName(path), true)
         && GivenUp(S.geo, S.v, S'.v, p.value, c.value, S.bits, S.ibits, S'.bits, S'.ibits)
  }

  ghost predicate Opens(S: PathState, S': PathState, path: seq<bv8>, cwd: nat) {
    && S' == S.(v := S.v.(open := S'.v.open), ret := S'.ret)
    && match Lookup(S.v, path, cwd)
       case None => S'.ret == -1 && NoneMore(S.v.open, S'.v.open)
       case Some(no) => S'.ret == no && OneMore(S.v.open, S'.v.open, no)
  }

  ghost predicate Writes(S: PathState, S': PathState, k: nat, data: seq<bv8>, pos: nat, room: Room)
    requires k < |S.v.open|
  {
    var m, w := S.v.open[k].meta, WriteReq(pos, data);
    && S'.ibits == S.ibits && (S'.ret == -1 <==> WriteFails(m, w, room.write, S.bits)) && S'.bits == WriteBits(m, w, room.write, S.bits)
    && exists m2, last :: WroteAs(S, S', k, data, pos, room, m2, last)
  }

  ghost predicate WroteAs(S: PathState, S': PathState, k: nat, data: seq<bv8>, pos: nat, room: Room, m2: Meta, last: Sector)
    requires k < |S.v.open|
  {
    var m, w := S.v.open[k].meta, WriteReq(pos, data);
    && Wrote(w, k, S.v.d, S.v.files, S.v.open, S'.v.d, S'.v.files, S'.v.open, S'.ret, m2, last)
    && (HasIndirect(m2) <==> IndirectAfter(m, w, room.write, S.bits))
    && (S'.ret == -1 ==> OnlyIndirect(m, m2) && SameTable(S.geo, S.v.d, S'.v.d))
  }

  ghost predicate Closes(S: PathState, S': PathState, k: nat)
    requires k < |S.v.open|
  {
    && S' == S.(v := Vol(S.v.d, FilesAfterClose(S.geo, S.v.d, S.v.files, S.v.open, k), Closed(S.v.open, k)), ret := 0)
    && SameFiles(S.v.d, S.v.files, S'.v.files)
  }

  ghost predicate PathStep(S: PathState, c: PathCall, S': PathState) {
    && S'.geo == S.geo
    && match c
       case CreateAt(path, cwd, ftype, room) => if MayCreate(S, path, cwd, ftype) then Creates(S, S', path, cwd, ftype, room) else S' == S
       case DeleteAt(path, cwd, room) => if MayDelete(S, path, cwd) then Deletes(S, S', path, cwd) else S' == S
       case OpenAt(path, cwd, room) => if IsDirectory(S.v, cwd) then Opens(S, S', path, cwd) else S' == S
       case WriteFile(k, data, pos, room) => if MayWrite(S, k, pos) then Writes(S, S', k, data, pos, room) else S' == S
       case CloseFile(k) => if k < |S.v.open| then Closes(S, S', k) else S' == S
  }

  ghost function StateOf(fs: FileStore, ret: int): PathState
    reads fs, fs.blockBitmap.bits, fs.inodeBitmap.bits
  {
    PathState(fs.geo, Now(fs), fs.blockBitmap.Value(), fs.inodeBitmap.Value(), ret)
  }

  lemma StateIs(fs: FileStore, S: PathState, ret: int)
    requires S == StateOf(fs, ret)
    ensures S.geo == fs.geo && S.v == Now(fs) && S.v.d == fs.disk && S.v.files == fs.files && S.v.open == fs.open
    ensures S.bits == fs.blockBitmap.Value() && S.ibits == fs.inodeBitmap.Value() && S.ret == ret && S.v == Vol(fs.disk, fs.files, fs.open)
  {
  }

  /** `dirs` are the numbers of the directories. */
  ghost predicate AllDirs(v: Vol, dirs: set<nat>) {
    forall n :: n in dirs <==> IsDirectory(v, n)
  }

  lemma DirsKept(a: Vol, b: Vol, ns: set<nat>, dirs: set<nat>, dirs': set<nat>)
    requires AllDirs(a, dirs) && Kept(a, b, ns)
    requires forall n :: n !in ns ==> (n in dirs' <==> IsDirectory(b, n))
    requires forall n :: n in ns ==> (n in dirs' <==> n in dirs)
    ensures AllDirs(b, dirs')
  {
    hide IsDirectory, Kept;
    forall n ensures n in dirs' <==> IsDirectory(b, n) {
      if n in ns { KeptIsDirectory(a, b, ns, n); }
    }
  }

  lemma NoFile(v: Vol, n: nat)
    requires n !in v.files
    ensures !IsDirectory(v, n)
  {
  }

  lemma DirsUntouched(a: Vol, b: Vol, dirs: set<nat>)
    requires AllDirs(a, dirs) && Untouched(a, b)
    ensures AllDirs(b, dirs) && TreeOk(b)
  {
    hide IsDirectory, Kept, TreeOk, Extra, AllDirs;
    forall n | n !in a.files.Keys ensures n in dirs <==> IsDirectory(b, n) {
      NoFile(b, n);
      NoFile(a, n);
      DirIs(a, dirs, n);
    }
    DirsKept(a, b, a.files.Keys, dirs, dirs);
  }

  lemma DirIs(v: Vol, dirs: set<nat>, n: nat)
    requires AllDirs(v, dirs)
    ensures n in dirs <==> IsDirectory(v, n)
  {
    hide IsDirectory;
  }

  lemma DirsSame(a: Vol, b: Vol, dirs: set<nat>)
    requires AllDirs(a, dirs) && a.d == b.d && SameFiles(a.d, a.files, b.files)
    ensures AllDirs(b, dirs)
  {
    KeptSame(a, b);
    hide IsDirectory, Kept, SameFiles, AllDirs;
    forall n | n !in a.files.Keys ensures n in dirs <==> IsDirectory(b, n) {
      NoFile(b, n);
      NoFile(a, n);
      DirIs(a, dirs, n);
    }
    DirsKept(a, b, a.files.Keys, dirs, dirs);
  }

  lemma DirsCreated(a: Vol, b: Vol, p: nat, no: nat, name: Name, ftype: nat, dirs: set<nat>)
    requires AllDirs(a, dirs) && Created(a, b, p, no, name, ftype)
    ensures AllDirs(b, if ftype == FT_DIRECTORY then dirs + {no} else dirs) && TreeOk(b)
  {
    var dirs' := if ftype == FT_DIRECTORY then dirs + {no} else dirs;
    assert IsDirectory(b, no) <==> ftype == FT_DIRECTORY;
    hide IsDirectory, Kept, TreeOk, Extra, AllDirs, EntriesOf, View, Put, FirstFree;
    forall n | n !in a.files.Keys - {p} ensures n in dirs' <==> IsDirectory(b, n) {
      DirIs(a, dirs, n);
      if n != p {
        NoFile(a, n);
        if n != no { NoFile(b, n); }
      }
    }
    DirsKept(a, b, a.files.Keys - {p}, dirs, dirs');
  }

  lemma DirsRemoved(a: Vol, b: Vol, p: nat, c: nat, name: Name, dirs: set<nat>)
    requires AllDirs(a, dirs) && Removed(a, b, p, c, name, true) && c != p
    ensures AllDirs(b, dirs - {c}) && TreeOk(b)
  {
    hide IsDirectory, Kept, TreeOk, Extra, AllDirs, EntriesOf, View;
    forall n | n !in a.files.Keys - {p, c} ensures n in dirs - {c} <==> IsDirectory(b, n) {
      DirIs(a, dirs, n);
      if n != p {
        NoFile(b, n);
        if n != c { NoFile(a, n); }
      }
    }
    DirsKept(a, b, a.files.Keys - {p, c}, dirs, dirs - {c});
  }

  lemma InvHere(fs: FileStore, ret: int)
    requires fs.Valid() && TreeOk(Now(fs))
    ensures PathInv(StateOf(fs, ret))
  {
    fs.ValidFacts();
    hide Consistent, TreeOk, FileStore.Valid;
  }

  method DoCreate(fs: FileStore, path: seq<bv8>, cwd: nat, ftype: nat, room: Room, pad: seq<bv8>, rest: InodeImage, dirs: set<nat>,
                  ret0: int, ghost S: PathState)
    returns (stopped: bool, dirs': set<nat>, ret: int)
    requires fs.Valid() && S == StateOf(fs, ret0) && TreeOk(S.v) && AllDirs(S.v, dirs) && |pad| == 4
    modifies fs, fs.blockBitmap.bits, fs.inodeBitmap.bits
    ensures stopped <==> PathStop(S, CreateAt(path, cwd, ftype, room))
    ensures !stopped ==> fs.Valid() && TreeOk(Now(fs)) && AllDirs(Now(fs), dirs') && PathStep(S, CreateAt(path, cwd, ftype, room), StateOf(fs, ret))
  {
    hide *;
    StateIs(fs, S, ret0);
    DirIs(S.v, dirs, cwd);
    var name := LastName(path);
    var may := 0 < ftype < 0x1_0000_0000 && NameOk(name) && cwd in dirs;
    MayCreateIs(S, path, cwd, ftype, room);
    stopped, dirs', ret := false, dirs, ret0;
    if may {
      var r := CreateFileOrDirectory(fs, path, cwd, ftype, room, pad, rest, S.v, S.bits, S.ibits);
      EndsIs(r, S.v, path, cwd, room, S.bits, S.ibits);
      stopped := r == Stop || (r.Made? && name == []);
      if r.Made? && name != [] {
        DirsCreated(S.v, Now(fs), Parent(S.v, path, cwd).value, r.no, name, ftype, dirs);
        dirs', ret := if ftype == FT_DIRECTORY then dirs + {r.no} else dirs, r.no;
      } else if r == Failed {
        DirsUntouched(S.v, Now(fs), dirs);
        ret := -1;
      }
      StateIs(fs, StateOf(fs, ret), ret);
      if !stopped { CreatesIs(S, StateOf(fs, ret), path, cwd, ftype, room, r); }
    }
    StateIs(fs, StateOf(fs, ret), ret);
    CreateStep(S, StateOf(fs, ret), path, cwd, ftype, room, stopped);
  }

  lemma EndsIs(r: Made, a: Vol, path: seq<bv8>, cwd: nat, room: Room, bits: seq<bool>, ibits: seq<bool>)
    requires CreateEnds(r, a, path, cwd, room, bits, ibits)
    ensures r == Stop <==> GetsInode(room, ibits) && !room.read && EntriesOf(a, Start(path, cwd)) != []
    ensures r.Made? <==> CanCreate(a, path, cwd, room, bits, ibits)
  {
    hide GetsInode, EntriesOf, CanCreate;
  }

  lemma MayCreateIs(S: PathState, path: seq<bv8>, cwd: nat, ftype: nat, room: Room)
    ensures MayCreate(S, path, cwd, ftype) <==> 0 < ftype < 0x1_0000_0000 && NameOk(LastName(path)) && IsDirectory(S.v, cwd)
    ensures PathStop(S, CreateAt(path, cwd, ftype, room)) <==>
            MayCreate(S, path, cwd, ftype)
            && if CanCreate(S.v, path, cwd, room, S.bits, S.ibits) then LastName(path) == []
               else GetsInode(room, S.ibits) && !room.read && EntriesOf(S.v, Start(path, cwd)) != []
  {
    hide LastName, NameOk, IsDirectory, CanCreate, GetsInode, EntriesOf, Start;
  }

  lemma CreatesIs(S: PathState, S': PathState, path: seq<bv8>, cwd: nat, ftype: nat, room: Room, r: Made)
    requires r != Stop && (r.Made? ==> LastName(path) != []) && S'.ret == (if r.Made? then r.no else -1)
    requires CreateEnds(r, S.v, path, cwd, room, S.bits, S.ibits) && CreateFiles(r, S.v, S'.v, path, cwd, ftype, room, S.bits, S.ibits)
    requires S'.bits == CreateBits(S.v, path, cwd, room, S.bits, S.ibits) && S'.ibits == CreateNumbers(S.v, path, cwd, room, S.bits, S.ibits)
    requires r.Made? ==> Parent(S.v, path, cwd).Some? && Created(S.v, S'.v, Parent(S.v, path, cwd).value, r.no, LastName(path), ftype)
    requires r.Made? ==> r.no < |S.ibits| && !S.ibits[r.no]
    requires r == Failed ==> Untouched(S.v, S'.v)
    ensures Creates(S, S', path, cwd, ftype, room)
  {
    assert MadeOf(S'.ret) == r;
    hide Created, Parent, LastName, CreateEnds, CreateFiles, CreateBits, CreateNumbers, Untouched;
  }

  lemma CreateStep(S: PathState, S': PathState, path: seq<bv8>, cwd: nat, ftype: nat, room: Room, stopped: bool)
    requires S'.geo == S.geo
    requires !stopped ==> if MayCreate(S, path, cwd, ftype) then Creates(S, S', path, cwd, ftype, room) else S' == S
    ensures !stopped ==> PathStep(S, CreateAt(path, cwd, ftype, room), S')
  {
    hide MayCreate, Creates;
  }

  method DoDelete(fs: FileStore, path: seq<bv8>, cwd: nat, room: Room, pad: seq<bv8>, rest: InodeImage, dirs: set<nat>,
                  ret0: int, ghost S: PathState)
    returns (stopped: bool, dirs': set<nat>, ret: int)
    requires fs.Valid() && S == StateOf(fs, ret0) && TreeOk(S.v) && AllDirs(S.v, dirs) && |pad| == 4
    modifies fs, fs.blockBitmap.bits, fs.inodeBitmap.bits
    ensures stopped <==> PathStop(S, DeleteAt(path, cwd, room))
    ensures !stopped ==> fs.Valid() && TreeOk(Now(fs)) && AllDirs(Now(fs), dirs') && PathStep(S, DeleteAt(path, cwd, room), StateOf(fs, ret))
  {
    hide *;
    StateIs(fs, S, ret0);
    DirIs(S.v, dirs, cwd);
    MayDeleteIs(S, path, cwd, room);
    DeletableIs(S.v, path, cwd);
    stopped, dirs', ret := false, dirs, ret0;
    if cwd in dirs {
      var r := DeleteFileOrDirectory(fs, path, cwd, room.read, room.write, pad, rest, S.v, S.bits, S.ibits);
      ret := if r.Deleted? then 1 else 0;
      StateIs(fs, StateOf(fs, ret), ret);
      stopped := r.Halt? || (r.Deleted? && !room.write);
      DeleteEnds(S, path, cwd, room, r);
      if r.Missing? {
        DirsUntouched(S.v, Now(fs), dirs);
      } else if r.Deleted? && room.write {
        DirsRemoved(S.v, Now(fs), Parent(S.v, path, cwd).value, r.no, LastName(path), dirs);
        dirs' := dirs - {r.no};
      }
      DeletesIs(S, StateOf(fs, ret), path, cwd, room, r);
    }
    StateIs(fs, StateOf(fs, ret), ret);
    DeleteStep(S, StateOf(fs, ret), path, cwd, room, stopped);
  }

  lemma DeletableIs(v: Vol, path: seq<bv8>, cwd: nat)
    ensures Deletable(v, path, cwd) ==> Parent(v, path, cwd).Some? && Victim(v, path, cwd).Some? && Victim(v, path, cwd).value != Parent(v, path, cwd).value
  {
    hide Parent, Victim;
  }

  lemma MayDeleteIs(S: PathState, path: seq<bv8>, cwd: nat, room: Room)
    ensures MayDelete(S, path, cwd) <==> IsDirectory(S.v, cwd)
    ensures PathStop(S, DeleteAt(path, cwd, room)) <==>
            MayDelete(S, path, cwd)
            && if room.read then Victim(S.v, path, cwd).Some? && (!Deletable(S.v, path, cwd) || !room.write)
               else EntriesOf(S.v, Start(path, cwd)) != []
  {
    hide LastName, IsDirectory, Victim, Deletable, EntriesOf, Start;
  }

  /** The results of delete_file_or_directory after which a run ends are those of PathStop. */
  lemma DeleteEnds(S: PathState, path: seq<bv8>, cwd: nat, room: Room, r: Gone)
    requires MayDelete(S, path, cwd)
    requires r == Halt <==> if room.read then Victim(S.v, path, cwd).Some? && !Deletable(S.v, path, cwd) else EntriesOf(S.v, Start(path, cwd)) != []
    requires r == Missing ==> Victim(S.v, path, cwd) == None
    requires r.Deleted? ==> room.read && Deletable(S.v, path, cwd) && Victim(S.v, path, cwd) == Some(r.no)
    ensures PathStop(S, DeleteAt(path, cwd, room)) <==> r.Halt? || (r.Deleted? && !room.write)
  {
    MayDeleteIs(S, path, cwd, room);
    hide MayDelete, Victim, Deletable, EntriesOf, PathStop, Start;
  }

  lemma DeletesIs(S: PathState, S': PathState, path: seq<bv8>, cwd: nat, room: Room, r: Gone)
    requires S'.ret == if r.Deleted? then 1 else 0
    requires r == Missing ==> Victim(S.v, path, cwd) == None && Untouched(S.v, S'.v)
    requires r == Missing ==> S'.v.files == S.v.files && S'.bits == S.bits && S'.ibits == S.ibits
    requires r.Deleted? ==> Deletable(S.v, path, cwd) && Victim(S.v, path, cwd) == Some(r.no) && Parent(S.v, path, cwd).Some?
    requires r.Deleted? ==> Removed(S.v, S'.v, Parent(S.v, path, cwd).value, r.no, LastName(path), room.write)
    requires r.Deleted? ==> GivenUp(S.geo, S.v, S'.v, Parent(S.v, path, cwd).value, r.no, S.bits, S.ibits, S'.bits, S'.ibits)
    ensures r.Missing? || (r.Deleted? && room.write) ==> Deletes(S, S', path, cwd)
  {
    hide Victim, Deletable, Untouched, Removed, Parent, LastName, GivenUp;
  }

  lemma DeleteStep(S: PathState, S': PathState, path: seq<bv8>, cwd: nat, room: Room, stopped: bool)
    requires S'.geo == S.geo
    requires !stopped ==> if MayDelete(S, path, cwd) then Deletes(S, S', path, cwd) else S' == S
    ensures !stopped ==> PathStep(S, DeleteAt(path, cwd, room), S')
  {
    hide MayDelete, Deletes;
  }

  method DoOpen(fs: FileStore, path: seq<bv8>, cwd: nat, room: Room, dirs: set<nat>, ret0: int, ghost S: PathState)
    returns (stopped: bool, ret: int)
    requires fs.Valid() && S == StateOf(fs, ret0) && TreeOk(S.v) && AllDirs(S.v, dirs)
    modifies fs
    ensures stopped <==> PathStop(S, OpenAt(path, cwd, room))
    ensures !stopped ==> fs.Valid() && TreeOk(Now(fs)) && AllDirs(Now(fs), dirs) && PathStep(S, OpenAt(path, cwd, room), StateOf(fs, ret))
  {
    hide *;
    StateIs(fs, S, ret0);
    DirIs(S.v, dirs, cwd);
    OpenStops(S, path, cwd, room);
    TreeFacts(S.v);
    stopped, ret := false, ret0;
    if cwd in dirs {
      DirFiles(S.v, cwd);
      DirFiles(S.v, 0);
      StartIs(path, cwd);
      EntriesThere(S.v, Start(path, cwd));
      LookupTarget(S.v, path, cwd);
      var r := SearchFile(fs, path, cwd, false, room.read, S.v.d, S.v.files, S.v.open);
      stopped := r == Panicked;
      if !stopped {
        ret := if r.At? then r.no else -1;
        StateIs(fs, StateOf(fs, ret), ret);
        NowIs(fs, Now(fs));
        SelfSame(S.v.d, S.v.files, cwd);
        TreeSame(S.v, Now(fs));
        DirsSame(S.v, Now(fs), dirs);
        OpensIs(S, StateOf(fs, ret), path, cwd, r);
      }
    }
    StateIs(fs, StateOf(fs, ret), ret);
    OpenStep(S, StateOf(fs, ret), path, cwd, room, stopped);
  }

  lemma OpenStops(S: PathState, path: seq<bv8>, cwd: nat, room: Room)
    ensures PathStop(S, OpenAt(path, cwd, room)) <==>
            IsDirectory(S.v, cwd) && !room.read && EntriesOf(S.v, Start(path, cwd)) != [] && (Split(path).dirs != [] || Split(path).last != [])
  {
    hide IsDirectory, EntriesOf, Split, Start;
  }

  lemma LookupTarget(v: Vol, path: seq<bv8>, cwd: nat)
    ensures Lookup(v, path, cwd) == Target(v.d, v.files, Start(path, cwd), Split(path), false)
  {
  }

  lemma OpensIs(S: PathState, S': PathState, path: seq<bv8>, cwd: nat, r: FsPaths.Search)
    requires S'.geo == S.geo && S'.v.d == S.v.d && S'.v.files == S.v.files && S'.bits == S.bits && S'.ibits == S.ibits && r != Panicked
    requires S'.ret == if r.At? then r.no else -1
    requires r == match Lookup(S.v, path, cwd) case None => NotFound case Some(no) => At(no)
    requires r == NotFound ==> NoneMore(S.v.open, S'.v.open)
    requires r.At? ==> OneMore(S.v.open, S'.v.open, r.no)
    ensures Opens(S, S', path, cwd)
  {
    hide Lookup, NoneMore, OneMore;
  }

  lemma OpenStep(S: PathState, S': PathState, path: seq<bv8>, cwd: nat, room: Room, stopped: bool)
    requires S'.geo == S.geo
    requires !stopped ==> if IsDirectory(S.v, cwd) then Opens(S, S', path, cwd) else S' == S
    ensures !stopped ==> PathStep(S, OpenAt(path, cwd, room), S')
  {
    hide IsDirectory, Opens;
  }

  method DoWrite(fs: FileStore, k: nat, data: seq<bv8>, pos: nat, room: Room, rest: InodeImage, dirs: set<nat>,
                 ret0: int, ghost S: PathState) returns (ret: int)
    requires fs.Valid() && S == StateOf(fs, ret0) && TreeOk(S.v) && AllDirs(S.v, dirs)
    modifies fs, fs.blockBitmap.bits
    ensures fs.Valid() && TreeOk(Now(fs)) && AllDirs(Now(fs), dirs) && PathStep(S, WriteFile(k, data, pos, room), StateOf(fs, ret))
  {
    hide *;
    StateIs(fs, S, ret0);
    fs.ValidFacts();
    fs.FrameFacts();
    ret := ret0;
    if k < |fs.open| && pos <= fs.open[k].meta.size && fs.open[k].meta.ftype != FT_DIRECTORY {
      OpenIsCurrent(fs, k);
      ghost var m2, last;
      ret, m2, last := fs.InodeWrite(k, data, pos, room.write, rest);
      StateIs(fs, StateOf(fs, ret), ret);
      TreeAfterWrite(S.v, Now(fs), WriteReq(pos, data), k, ret, m2, last);
      DirsWritten(S.v, Now(fs), WriteReq(pos, data), k, ret, m2, last, dirs);
      WroteHere(S, StateOf(fs, ret), k, data, pos, room, m2, last);
    }
    StateIs(fs, StateOf(fs, ret), ret);
    WriteStep(S, StateOf(fs, ret), k, data, pos, room);
  }

  lemma OpenIsCurrent(fs: FileStore, k: nat)
    requires fs.Valid() && k < |fs.open|
    ensures fs.open[k].no in fs.files && fs.files[fs.open[k].no] == fs.open[k].meta
  {
    fs.ValidFacts();
    hide *;
    OpenFacts(fs.geo, fs.disk, fs.blockBitmap.Value(), fs.inodeBitmap.Value(), fs.files, fs.open, k);
  }

  lemma DirsWritten(a: Vol, b: Vol, w: WriteReq, k: nat, r: int, m2: Meta, last: Sector, dirs: set<nat>)
    requires AllDirs(a, dirs) && Wrote(w, k, a.d, a.files, a.open, b.d, b.files, b.open, r, m2, last) && k < |a.open|
    requires a.open[k].no in a.files && a.files[a.open[k].no] == a.open[k].meta
    ensures AllDirs(b, dirs)
  {
    WroteFacts(w, k, a.d, a.files, a.open, b.d, b.files, b.open, r, m2, last);
    assert m2.ftype == a.open[k].meta.ftype;
    hide Wrote, WriteOutcome, OthersSame, Content, ShapeOk;
  }

  lemma WroteHere(S: PathState, S': PathState, k: nat, data: seq<bv8>, pos: nat, room: Room, m2: Meta, last: Sector)
    requires k < |S.v.open| && Wrote(WriteReq(pos, data), k, S.v.d, S.v.files, S.v.open, S'.v.d, S'.v.files, S'.v.open, S'.ret, m2, last)
    requires S'.ibits == S.ibits && (S'.ret == -1 <==> WriteFails(S.v.open[k].meta, WriteReq(pos, data), room.write, S.bits))
    requires S'.bits == WriteBits(S.v.open[k].meta, WriteReq(pos, data), room.write, S.bits)
    requires S'.ret == -1 ==> OnlyIndirect(S.v.open[k].meta, m2) && SameTable(S.geo, S.v.d, S'.v.d)
    requires HasIndirect(m2) <==> IndirectAfter(S.v.open[k].meta, WriteReq(pos, data), room.write, S.bits)
    ensures Writes(S, S', k, data, pos, room)
  {
    hide Wrote, WriteFails, WriteBits, OnlyIndirect, SameTable, HasIndirect, IndirectAfter;
    assert WroteAs(S, S', k, data, pos, room, m2, last);
  }

  lemma WriteStep(S: PathState, S': PathState, k: nat, data: seq<bv8>, pos: nat, room: Room)
    requires S'.geo == S.geo
    requires if k < |S.v.open| && pos <= S.v.open[k].meta.size && S.v.open[k].meta.ftype != FT_DIRECTORY then Writes(S, S', k, data, pos, room)
             else S' == S
    ensures PathStep(S, WriteFile(k, data, pos, room), S')
  {
    hide Writes;
  }

  method DoClose(fs: FileStore, k: nat, dirs: set<nat>, ret0: int, ghost S: PathState) returns (ret: int)
    requires fs.Valid() && S == StateOf(fs, ret0) && TreeOk(S.v) && AllDirs(S.v, dirs)
    modifies fs
    ensures fs.Valid() && TreeOk(Now(fs)) && AllDirs(Now(fs), dirs) && PathStep(S, CloseFile(k), StateOf(fs, ret))
  {
    hide *;
    StateIs(fs, S, ret0);
    ret := ret0;
    if k < |fs.open| {
      fs.InodeClose(k);
      AreSameFiles(S.v.d, S.v.files, fs.files);
      ret := 0;
      StateIs(fs, StateOf(fs, ret), ret);
      TreeSame(S.v, Now(fs));
      DirsSame(S.v, Now(fs), dirs);
    }
    StateIs(fs, StateOf(fs, ret), ret);
    CloseStep(S, StateOf(fs, ret), k);
  }

  lemma CloseStep(S: PathState, S': PathState, k: nat)
    requires S'.geo == S.geo && S'.bits == S.bits && S'.ibits == S.ibits && S'.v.d == S.v.d && (k >= |S.v.open| ==> S' == S)
    requires k < |S.v.open| ==> S'.v.open == Closed(S.v.open, k) && SameFiles(S.v.d, S.v.files, S'.v.files) && S'.ret == 0
    requires k < |S.v.open| ==> S'.v.files == FilesAfterClose(S.geo, S.v.d, S.v.files, S.v.open, k)
    ensures PathStep(S, CloseFile(k), S')
  {
    hide Closed, SameFiles, FilesAfterClose;
  }

  lemma NeverStops(S: PathState, c: PathCall)
    requires c.WriteFile? || c.CloseFile?
    ensures !PathStop(S, c)
  {
  }

  /** Over every run of creating, deleting and opening by path, in any working directory, and of writing and closing,
      every directory stays a finite map of files that exist, each with one name.  The run ends exactly where the
      kernel panics, a file is made without a name, or dir_unlink cannot write. */
  method RunPaths(fs: FileStore, calls: seq<PathCall>, dirs0: set<nat>, pad: seq<bv8>, rest: InodeImage)
    returns (done: nat, dirs: set<nat>, ret: int, ghost states: seq<PathState>)
    requires fs.Valid() && TreeOk(Now(fs)) && AllDirs(Now(fs), dirs0) && |pad| == 4
    modifies fs, fs.blockBitmap.bits, fs.inodeBitmap.bits
    ensures Ran(PathInv, PathStop, PathStep, states, calls, done)
    ensures |states| == done + 1 && states[0] == old(StateOf(fs, 0))
    ensures done == |calls| ==> states[done] == StateOf(fs, ret) && AllDirs(Now(fs), dirs)
  {
    hide *;
    done, dirs, ret := 0, dirs0, 0;
    ghost var S := StateOf(fs, 0);
    InvHere(fs, 0);
    states := [S];
    Starts(PathInv, PathStop, PathStep, calls, S);
    while done < |calls|
      invariant done <= |calls| && SoFar(PathInv, PathStop, PathStep, states, calls, done) && |states| == done + 1
      invariant fs.Valid() && states[done] == StateOf(fs, ret) && TreeOk(Now(fs)) && AllDirs(Now(fs), dirs) && states[0] == S
    {
      ghost var S0 := StateOf(fs, ret);
      StateIs(fs, S0, ret);
      var stopped := false;
      match calls[done] {
        case CreateAt(path, cwd, ftype, room) => stopped, dirs, ret := DoCreate(fs, path, cwd, ftype, room, pad, rest, dirs, ret, S0);
        case DeleteAt(path, cwd, room) => stopped, dirs, ret := DoDelete(fs, path, cwd, room, pad, rest, dirs, ret, S0);
        case OpenAt(path, cwd, room) => stopped, ret := DoOpen(fs, path, cwd, room, dirs, ret, S0);
        case WriteFile(k, data, pos, room) => ret := DoWrite(fs, k, data, pos, room, rest, dirs, ret, S0); NeverStops(S0, calls[done]);
        case CloseFile(k) => ret := DoClose(fs, k, dirs, ret, S0); NeverStops(S0, calls[done]);
      }
      if stopped {
        Stopped(PathInv, PathStop, PathStep, states, calls, done);
        return;
      }
      InvHere(fs, ret);
      Further(PathInv, PathStop, PathStep, states, calls, done, StateOf(fs, ret));
      states := states + [StateOf(fs, ret)];
      done := done + 1;
    }
    Stopped(PathInv, PathStop, PathStep, states, calls, done);
  }
}
