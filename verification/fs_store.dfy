/** The invariant of the inode store (block structure, in-core list, inode slots) and what each
    operation of fs/inode.c does to it, on values.  The operations themselves are in FsInode. */
module FsStore {
  import opened Bitmaps
  import opened FsFormat
  import opened FsVolume

  /** An inode in memory. `opens` is i_open_cnts; the lock and the list links are not modelled. */
  datatype InCore = InCore(no: nat, opens: nat, meta: Meta)

  /** The bytes of a `struct inode` that the disk format does not interpret. */
  type InodeImage = s: seq<bv8> | |s| == INODE_SIZE witness seq(160, _ => 0)

  function WithIndirect(m: Meta, ind: nat): (r: Meta)
    requires |m.sectors| == NDIRECT + 1
    ensures r.size == m.size && r.ftype == m.ftype
  {
    m.(sectors := m.sectors[NDIRECT := ind])
  }

  // ---- how many blocks a write takes ----

  /** Blocks [h, b) lie beyond the first `h`. */
  function Over(b: nat, h: nat): nat { if b > h then b - h else 0 }

  predicate NeedsIndirect(m: Meta, w: WriteReq) {
    |m.sectors| == NDIRECT + 1 && m.sectors[NDIRECT] == 0 && w.Limit() > 512 * NDIRECT
  }

  predicate HasIndirect(m: Meta) {
    |m.sectors| == NDIRECT + 1 && m.sectors[NDIRECT] != 0
  }

  /** Whether the file has an indirect block after a write. */
  predicate IndirectAfter(m: Meta, w: WriteReq, memOk: bool, bits: seq<bool>) {
    HasIndirect(m) || (w.Limit() <= MAX_FILE_SIZE && memOk && NeedsIndirect(m, w) && ClearBits(bits) > 0)
  }

  /** The blocks that a write has to take: those beyond the end of the file, and an indirect block if the file has none
      and the write reaches beyond the direct ones. */
  function Need(m: Meta, w: WriteReq): nat {
    (if NeedsIndirect(m, w) then 1 else 0) + Over(w.End(), DivRoundUp(m.size, 512))
  }

  /** A write fails iff it is too large, has no buffer, or finds fewer free blocks than it has to take. */
  predicate WriteFails(m: Meta, w: WriteReq, memOk: bool, bits: seq<bool>) {
    w.Limit() > MAX_FILE_SIZE || !memOk || Need(m, w) > ClearBits(bits)
  }

  /** The block bitmap after a write: the first free blocks are taken, all of them if there are too few. */
  function WriteBits(m: Meta, w: WriteReq, memOk: bool, bits: seq<bool>): seq<bool> {
    if w.Limit() > MAX_FILE_SIZE || !memOk then bits else TakeFirst(bits, Need(m, w))
  }

  /** A file has a block at `b` iff `b` lies below its end. */
  lemma BelowEnd(d: Disk, m: Meta, b: nat)
    requires ShapeOk(m) && NoHoles(d, m) && b < 140
    ensures Ptr(d, m.sectors, b) != 0 <==> b < DivRoundUp(m.size, 512)
  {
    hide Ptr;
  }

  lemma StartBelow(m: Meta, w: WriteReq)
    requires w.pos <= m.size
    ensures w.First() <= DivRoundUp(m.size, 512)
  {
  }

  /** What a turn of the write loop does to the bitmap. */
  lemma BlockMore(bits0: seq<bool>, b: nat, h: nat, bits: seq<bool>)
    requires bits == TakeFirst(bits0, Over(b, h)) && Over(b, h) <= ClearBits(bits0)
    ensures b < h ==> bits == TakeFirst(bits0, Over(b + 1, h)) && Over(b + 1, h) <= ClearBits(bits0)
    ensures b >= h && ClearBits(bits) > 0 ==> TakeFirst(bits, 1) == TakeFirst(bits0, Over(b + 1, h)) && Over(b + 1, h) <= ClearBits(bits0)
  {
    TakeFirstCount(bits0, Over(b, h));
    TakeTwice(bits0, Over(b, h), 1);
  }

  lemma Exhausted(bits0: seq<bool>, b: nat, h: nat, bits: seq<bool>, end: nat)
    requires bits == TakeFirst(bits0, Over(b, h)) && Over(b, h) <= ClearBits(bits0) && h <= b < end && ClearBits(bits) == 0
    ensures Over(end, h) > ClearBits(bits0) && bits == TakeFirst(bits0, Over(end, h))
  {
    TakeFirstCount(bits0, Over(b, h));
    TakeAll(bits0, Over(b, h), Over(end, h));
  }

  /** The indirect block first, then the others. */
  lemma NeedSplits(m: Meta, w: WriteReq, bits0: seq<bool>, bits1: seq<bool>)
    requires bits1 == if NeedsIndirect(m, w) then TakeFirst(bits0, 1) else bits0
    requires NeedsIndirect(m, w) ==> ClearBits(bits0) > 0
    ensures TakeFirst(bits1, Over(w.End(), DivRoundUp(m.size, 512))) == TakeFirst(bits0, Need(m, w))
    ensures Over(w.End(), DivRoundUp(m.size, 512)) <= ClearBits(bits1) <==> Need(m, w) <= ClearBits(bits0)
  {
    if NeedsIndirect(m, w) {
      TakeTwice(bits0, 1, Over(w.End(), DivRoundUp(m.size, 512)));
      TakeFirstCount(bits0, 1);
    }
  }

  lemma NoIndirect(m: Meta, w: WriteReq, bits: seq<bool>)
    requires NeedsIndirect(m, w) && ClearBits(bits) == 0
    ensures Need(m, w) > ClearBits(bits) && bits == TakeFirst(bits, Need(m, w))
  {
    TakeAll(bits, 0, Need(m, w));
  }

  /** Of the blocks a failed write took, the file gets the indirect block; the others are lost. */
  ghost predicate OnlyIndirect(m: Meta, m2: Meta) {
    m2 == m || (|m.sectors| == NDIRECT + 1 && exists ind :: m2 == WithIndirect(m, ind))
  }

  /** The blocks listed at the start of the loop are those below the end of the file. */
  lemma PresentBlocks(g: Geometry, d0: Disk, bits0: seq<bool>, files: Files, no: nat, m0: Meta, d1: Disk, bits1: seq<bool>, blocks1: seq<nat>, ind: nat)
    requires PtrsOk(g, d0, bits0, files) && no in files && files[no] == m0 && |m0.sectors| == NDIRECT + 1
    requires Prepared(g, d0, bits0, m0.sectors, d1, bits1, blocks1, ind)
    ensures |blocks1| == 140 && forall b :: 0 <= b < 140 ==> (blocks1[b] != 0 <==> b < DivRoundUp(m0.size, 512))
  {
    assert NoHoles(d0, files[no]);
    hide Ptr, SectorAt, PtrsOk, DivRoundUp, NoHoles;
    forall b | 0 <= b < 140 ensures blocks1[b] != 0 <==> b < DivRoundUp(m0.size, 512) {
      BelowEnd(d0, m0, b);
    }
  }

  // ---- the invariant, on values ----

  ghost predicate DiskShape(g: Geometry, d: Disk, nbits: nat) {
    g.Wf() && nbits == BITS_PER_SECTOR * g.bitmapSects && g.dataLba + nbits <= |d|
  }

  /** The block bitmap on disk equals the one in memory. */
  ghost predicate BitmapOnDisk(g: Geometry, d: Disk, bytes: seq<bv8>) {
    |bytes| == 512 * g.bitmapSects
    && forall k :: 0 <= k < g.bitmapSects ==> SectorAt(d, g.bitmapLba + k) == bytes[512 * k..512 * k + 512]
  }

  predicate IsOpen(open: seq<InCore>, no: nat) {
    exists k :: 0 <= k < |open| && open[k].no == no
  }

  /** At most one in-core inode per number, and each is the current version of its file. */
  ghost predicate OpenOk(open: seq<InCore>, files: Files) {
    && (forall i, j :: 0 <= i < j < |open| ==> open[i].no != open[j].no)
    && (forall k :: 0 <= k < |open| ==> open[k].opens >= 1 && open[k].no in files && files[open[k].no] == open[k].meta)
  }

  /** The slot of file `n` holds its current version; only an open inode may be ahead of it, by an
      indirect block that a failed write took and that is still empty. */
  ghost predicate SlotAgrees(g: Geometry, d: Disk, n: nat, m: Meta, isOpen: bool) {
    || DecodeInode(Slot(d, g, n)) == m
    || (isOpen && |m.sectors| == NDIRECT + 1 && m.sectors[NDIRECT] != 0
        && DecodeInode(Slot(d, g, n)) == WithIndirect(m, 0)
        && forall i :: NDIRECT <= i < 140 ==> Ptr(d, m.sectors, i) == 0)
  }

  ghost predicate SlotsOk(g: Geometry, d: Disk, files: Files, open: seq<InCore>) {
    forall n :: n in files ==> SlotAgrees(g, d, n, files[n], IsOpen(open, n))
  }

  /** From d0 to d1 the inode table did not change. */
  ghost predicate SameTable(g: Geometry, d0: Disk, d1: Disk) {
    |d1| == |d0| && forall lba: nat :: g.tableLba <= lba < g.dataLba ==> SectorAt(d1, lba) == SectorAt(d0, lba)
  }

  lemma SlotSame(g: Geometry, d0: Disk, d1: Disk, no: nat)
    requires g.Wf() && SameTable(g, d0, d1) && no < MAX_FILES_PER_PART
    ensures Slot(d1, g, no) == Slot(d0, g, no)
  {
    forall i | 0 <= i < INODE_SIZE
      ensures Slot(d1, g, no)[i] == Slot(d0, g, no)[i]
    {
      var a := 512 * g.tableLba + INODE_SIZE * no + i;
      SlotIsFlat(d0, g, no, i);
      SlotIsFlat(d1, g, no, i);
      assert g.tableLba <= a / 512 < g.dataLba;
      assert SectorAt(d1, a / 512) == SectorAt(d0, a / 512);
    }
  }

  /** Writing the one bitmap sector that holds the changed byte keeps disk and memory equal. */
  lemma BitmapSectorWritten(g: Geometry, d: Disk, bytes: seq<bv8>, bytes': seq<bv8>, sec: nat)
    requires BitmapOnDisk(g, d, bytes) && |bytes'| == |bytes| && sec < g.bitmapSects && g.bitmapLba + g.bitmapSects <= |d|
    requires forall j :: 0 <= j < |bytes| && j / 512 != sec ==> bytes'[j] == bytes[j]
    ensures BitmapOnDisk(g, d[g.bitmapLba + sec := bytes'[512 * sec..512 * sec + 512]], bytes')
  {
    var d' := d[g.bitmapLba + sec := bytes'[512 * sec..512 * sec + 512]];
    forall k | 0 <= k < g.bitmapSects
      ensures SectorAt(d', g.bitmapLba + k) == bytes'[512 * k..512 * k + 512]
    {
      if k != sec {
        assert SectorAt(d', g.bitmapLba + k) == SectorAt(d, g.bitmapLba + k);
        forall j | 512 * k <= j < 512 * k + 512
          ensures bytes'[j] == bytes[j]
        {
          assert j / 512 == k;
        }
      }
    }
  }

  /** After a bit of the bitmap is set in memory and its sector written. */
  lemma BitWritten(g: Geometry, d: Disk, bytes: seq<bv8>, bytes': seq<bv8>, idx: nat)
    requires DiskShape(g, d, 8 * |bytes|) && BitmapOnDisk(g, d, bytes) && idx / 8 < |bytes| == |bytes'|
    requires bytes' == bytes[idx / 8 := bytes'[idx / 8]]
    ensures var sec := idx / BITS_PER_SECTOR;
      && 512 * sec + 512 <= |bytes'| && g.bitmapLba + sec < |d|
      && var d' := d[g.bitmapLba + sec := bytes'[512 * sec..512 * sec + 512]];
      && DiskShape(g, d', 8 * |bytes'|) && BitmapOnDisk(g, d', bytes') && SameTable(g, d, d')
      && (forall p: nat :: g.dataLba <= p ==> SectorAt(d', p) == SectorAt(d, p))
  {
    var sec := idx / BITS_PER_SECTOR;
    BitmapLen(g, d, bytes);
    forall j | 0 <= j < |bytes| && j / 512 != sec ensures bytes'[j] == bytes[j] {
      assert idx / 8 / 512 == sec;
    }
    hide BitmapOnDisk;
    BitmapSectorWritten(g, d, bytes, bytes', sec);
  }

  lemma SameTableRefl(g: Geometry, d: Disk)
    ensures SameTable(g, d, d)
  {
  }

  /** A write to the data area leaves the bitmap zone and the table alone. */
  lemma DataWritten(g: Geometry, d0: Disk, d: Disk, bytes: seq<bv8>, lba: nat, s: Sector)
    requires g.Wf() && BitmapOnDisk(g, d, bytes) && SameTable(g, d0, d) && g.dataLba <= lba < |d|
    ensures BitmapOnDisk(g, d[lba := s], bytes) && SameTable(g, d0, d[lba := s])
    ensures SectorAt(d[lba := s], lba) == s
    ensures forall q: nat :: q != lba ==> SectorAt(d[lba := s], q) == SectorAt(d, q)
  {
    forall k | 0 <= k < g.bitmapSects
      ensures SectorAt(d[lba := s], g.bitmapLba + k) == bytes[512 * k..512 * k + 512]
    {
      assert SectorAt(d[lba := s], g.bitmapLba + k) == SectorAt(d, g.bitmapLba + k);
    }
  }

  // ---- the end of a write ----

  lemma UsedBlock(g: Geometry, bits: seq<bool>, ind: nat, blocks: seq<nat>, cur: nat)
    requires BlocksOk(g, bits, ind, blocks) && cur < 140
    ensures blocks[cur] != 0 ==> Used(g, bits, blocks[cur])
  {
  }

  /** Block `lba` serves position `cur`: it was listed there, or it is fresh and the position was empty. */
  ghost predicate HaveBlock(g: Geometry, ind: nat, d: Disk, bits: seq<bool>, blocks: seq<nat>, cur: nat,
                            d1: Disk, bits1: seq<bool>, lba: nat)
    requires cur < |blocks|
  {
    && lba != 0 && BitsGrow(bits, bits1) && Used(g, bits1, lba)
    && BlocksOk(g, bits1, ind, blocks[cur := lba])
    && (lba == blocks[cur] || (blocks[cur] == 0 && Fresh(g, bits, bits1, lba)))
    && (forall p: nat :: g.dataLba <= p ==> SectorAt(d1, p) == SectorAt(d, p))
  }

  lemma LbaInRange(g: Geometry, ind: nat, d: Disk, bits: seq<bool>, blocks: seq<nat>, cur: nat, d1: Disk, bits1: seq<bool>, lba: nat)
    requires cur < |blocks| && HaveBlock(g, ind, d, bits, blocks, cur, d1, bits1, lba)
    ensures g.dataLba <= lba < g.dataLba + |bits1|
  {
  }

  /** The disk after the two final writes of inode_write: the inode slot, then the indirect block. */
  function Finished(g: Geometry, d: Disk, no: nat, m: Meta, rest: InodeImage, blocks: seq<nat>, ind: nat): Disk
    requires |m.sectors| == NDIRECT + 1 && |blocks| == 140 && g.tableLba + InodeSector(no) + 1 < |d| && ind < |d|
  {
    var dS := Synced(d, g, no, EncodeInode(m, rest));
    if ind != 0 then dS[ind := PtrBlock(blocks[NDIRECT..])] else dS
  }

  lemma FinishedOutside(g: Geometry, d: Disk, no: nat, m: Meta, rest: InodeImage, blocks: seq<nat>, ind: nat, lba: nat)
    requires g.Wf() && no < MAX_FILES_PER_PART && |m.sectors| == NDIRECT + 1 && |blocks| == 140
    requires g.tableLba + InodeSector(no) + 1 < |d| && ind < |d|
    requires lba < g.tableLba || g.dataLba <= lba
    ensures ind != lba ==> SectorAt(Finished(g, d, no, m, rest, blocks, ind), lba) == SectorAt(d, lba)
    ensures ind == lba && ind != 0 ==> SectorAt(Finished(g, d, no, m, rest, blocks, ind), lba) == PtrBlock(blocks[NDIRECT..])
  {
    SyncedOutsideTable(d, g, no, EncodeInode(m, rest), lba);
    hide Synced, EncodeInode, PtrBlock;
  }

  lemma FinishedBitmap(g: Geometry, d: Disk, no: nat, m: Meta, rest: InodeImage, blocks: seq<nat>, ind: nat, bytes: seq<bv8>)
    requires g.Wf() && no < MAX_FILES_PER_PART && |m.sectors| == NDIRECT + 1 && |blocks| == 140
    requires g.tableLba + InodeSector(no) + 1 < |d| && ind < |d| && (ind == 0 || g.dataLba <= ind)
    requires BitmapOnDisk(g, d, bytes)
    ensures BitmapOnDisk(g, Finished(g, d, no, m, rest, blocks, ind), bytes)
  {
    hide Finished, SectorAt;
    forall k | 0 <= k < g.bitmapSects
      ensures SectorAt(Finished(g, d, no, m, rest, blocks, ind), g.bitmapLba + k) == bytes[512 * k..512 * k + 512]
    {
      FinishedOutside(g, d, no, m, rest, blocks, ind, g.bitmapLba + k);
    }
  }

  lemma IndirectKeepsTable(g: Geometry, d: Disk, ind: nat, s: Sector)
    requires ind < |d| && (ind == 0 || g.dataLba <= ind)
    ensures SameTable(g, d, if ind != 0 then d[ind := s] else d)
  {
  }

  lemma FinishedSlot(g: Geometry, d: Disk, no: nat, m: Meta, rest: InodeImage, blocks: seq<nat>, ind: nat, n: nat)
    requires g.Wf() && no < MAX_FILES_PER_PART && n < MAX_FILES_PER_PART && m.Fits() && |blocks| == 140
    requires g.tableLba + InodeSector(no) + 1 < |d| && ind < |d| && (ind == 0 || g.dataLba <= ind)
    ensures n == no ==> DecodeInode(Slot(Finished(g, d, no, m, rest, blocks, ind), g, n)) == m
    ensures n != no ==> Slot(Finished(g, d, no, m, rest, blocks, ind), g, n) == Slot(d, g, n)
  {
    FitsLen(m);
    hide *;
    var bytes := EncodeInode(m, rest);
    var dS := Synced(d, g, no, bytes);
    var d2 := Finished(g, d, no, m, rest, blocks, ind);
    DecodeEncode(m, rest);
    SyncedOwnSlot(d, g, no, bytes);
    if n != no {
      SyncedOtherSlot(d, g, no, bytes, n);
    }
    FinishedKeepsTable(g, d, no, m, rest, blocks, ind);
    SlotSame(g, dS, d2, n);
  }

  lemma FitsLen(m: Meta)
    requires m.Fits()
    ensures |m.sectors| == NDIRECT + 1
  {
  }

  lemma FinishedKeepsTable(g: Geometry, d: Disk, no: nat, m: Meta, rest: InodeImage, blocks: seq<nat>, ind: nat)
    requires |m.sectors| == NDIRECT + 1 && |blocks| == 140
    requires g.tableLba + InodeSector(no) + 1 < |d| && ind < |d| && (ind == 0 || g.dataLba <= ind)
    ensures SameTable(g, Synced(d, g, no, EncodeInode(m, rest)), Finished(g, d, no, m, rest, blocks, ind))
  {
    hide Synced, EncodeInode, PtrBlock, SectorAt, SameTable;
    IndirectKeepsTable(g, Synced(d, g, no, EncodeInode(m, rest)), ind, PtrBlock(blocks[NDIRECT..]));
  }

  /** Everything that a successful write establishes about files, blocks and slots. */
  lemma WriteFinished(g: Geometry, w: WriteReq, files: Files, no: nat, m0: Meta,
                      d0: Disk, bits0: seq<bool>, d1: Disk, bits1: seq<bool>, blocks1: seq<nat>, ind: nat,
                      d: Disk, bits: seq<bool>, blocks: seq<nat>, m2: Meta, rest: InodeImage, last: Sector)
    requires g.Wf() && PtrsOk(g, d0, bits0, files) && no in files && files[no] == m0
    requires DiskShape(g, d, |bits|) && w.pos <= m0.size && w.Limit() <= MAX_FILE_SIZE
    requires Prepared(g, d0, bits0, m0.sectors, d1, bits1, blocks1, ind)
    requires w.First() <= w.End() <= 140
    requires Progress(g, w, ind, d1, bits1, blocks1, d, bits, blocks, w.End())
    requires BlocksOk(g, bits, ind, blocks)
    requires ind == 0 ==> w.Limit() <= 512 * NDIRECT
    requires m2 == Meta(if w.Limit() > m0.size then w.Limit() else m0.size, m0.ftype, blocks[..NDIRECT] + [ind])
    requires w.First() < w.End() ==> last == SectorAt(d1, blocks[w.End() - 1])
    ensures g.tableLba + InodeSector(no) + 1 < |d| && ind < |d| && m2.Fits() && m2.size <= MAX_FILE_SIZE
    ensures var d2 := Finished(g, d, no, m2, rest, blocks, ind);
      && PtrsOk(g, d2, bits, files[no := m2])
      && OnlyTouched(g, d0, bits0, m0.sectors, d2)
      && Content(d2, m2) == Spliced(Content(d0, m0), w.pos, Stored(w, last))
  {
    WriteFits(g, w, files, no, m0, bits, blocks, m2, ind);
    var d2 := Finished(g, d, no, m2, rest, blocks, ind);
    forall p: nat | g.dataLba <= p < g.dataLba + |bits| && p != ind
      ensures SectorAt(d2, p) == SectorAt(d, p)
    {
      FinishedOutside(g, d, no, m2, rest, blocks, ind, p);
    }
    FinishedPtrs(g, w, m0, d0, bits0, d1, bits1, blocks1, ind, d, bits, blocks, no, m2, rest);
    hide Finished, Prepared, Progress, Content, Ptr, SectorAt, Spliced, Stored, DivRoundUp;
    WriteGrew(g, w, d0, bits0, m0.sectors, d1, bits1, blocks1, ind, d, bits, blocks, w.End(), d2, m2.sectors);
    WriteOnlyTouched(g, w, d0, bits0, m0.sectors, d1, bits1, blocks1, ind, d, bits, blocks, w.End(), d2);
    WrittenContent(g, w, d0, bits0, m0, d1, bits1, blocks1, ind, d, bits, blocks, d2, m2, last);
    GrewPtrsOk(g, d0, bits0, files, no, d2, bits, m2);
  }

  lemma WriteFits(g: Geometry, w: WriteReq, files: Files, no: nat, m0: Meta, bits: seq<bool>, blocks: seq<nat>, m2: Meta, ind: nat)
    requires g.Wf() && Shapes(files) && no in files && files[no] == m0
    requires |bits| == BITS_PER_SECTOR * g.bitmapSects && w.Limit() <= MAX_FILE_SIZE
    requires BlocksOk(g, bits, ind, blocks)
    requires m2 == Meta(if w.Limit() > m0.size then w.Limit() else m0.size, m0.ftype, blocks[..NDIRECT] + [ind])
    ensures InodeSector(no) + 1 <= INODE_TABLE_SECTS
    ensures ind < g.dataLba + |bits| && (ind == 0 || g.dataLba <= ind)
    ensures ShapeOk(m2)
  {
    forall i | 0 <= i < NDIRECT + 1
      ensures m2.sectors[i] < 0x1_0000_0000
    {
      if i < NDIRECT && blocks[i] != 0 {
        assert Used(g, bits, blocks[i]);
      }
    }
  }

  lemma FinishedPtrs(g: Geometry, w: WriteReq, m0: Meta, d0: Disk, bits0: seq<bool>,
                     d1: Disk, bits1: seq<bool>, blocks1: seq<nat>, ind: nat,
                     d: Disk, bits: seq<bool>, blocks: seq<nat>, no: nat, m2: Meta, rest: InodeImage)
    requires g.Wf() && ShapeOk(m0) && no < MAX_FILES_PER_PART && DiskShape(g, d, |bits|)
    requires Prepared(g, d0, bits0, m0.sectors, d1, bits1, blocks1, ind)
    requires w.First() <= w.End() <= 140
    requires Progress(g, w, ind, d1, bits1, blocks1, d, bits, blocks, w.End())
    requires BlocksOk(g, bits, ind, blocks)
    requires ind == 0 ==> w.Limit() <= 512 * NDIRECT
    requires m2.sectors == blocks[..NDIRECT] + [ind]
    requires g.tableLba + InodeSector(no) + 1 < |d| && ind < |d|
    ensures var d2 := Finished(g, d, no, m2, rest, blocks, ind);
      && (forall i :: 0 <= i < 140 ==> Ptr(d2, m2.sectors, i) == blocks[i])
      && Ptr(d2, m2.sectors, 140) == ind
  {
    var d2 := Finished(g, d, no, m2, rest, blocks, ind);
    assert ind != 0 ==> g.dataLba <= ind;
    FinishedOutside(g, d, no, m2, rest, blocks, ind, ind);
    BlocksSmall(g, bits, ind, blocks);
    if ind == 0 {
      EmptyTail(g, w, m0, d0, bits0, d1, bits1, blocks1, d, bits, blocks);
    }
    StoredPtrs(d2, blocks, ind);
  }

  lemma BlocksSmall(g: Geometry, bits: seq<bool>, ind: nat, blocks: seq<nat>)
    requires BlocksOk(g, bits, ind, blocks) && g.dataLba + |bits| < 0x8000_0000
    ensures forall i :: 0 <= i < 140 ==> blocks[i] < 0x1_0000_0000
  {
    forall i | 0 <= i < 140
      ensures blocks[i] < 0x1_0000_0000
    {
      if blocks[i] != 0 {
        assert Used(g, bits, blocks[i]);
      }
    }
  }

  /** Without an indirect block the entries behind the direct ones stay empty. */
  lemma EmptyTail(g: Geometry, w: WriteReq, m0: Meta, d0: Disk, bits0: seq<bool>,
                  d1: Disk, bits1: seq<bool>, blocks1: seq<nat>, d: Disk, bits: seq<bool>, blocks: seq<nat>)
    requires ShapeOk(m0) && g.dataLba > 0
    requires Prepared(g, d0, bits0, m0.sectors, d1, bits1, blocks1, 0)
    requires w.First() <= w.End() <= 140
    requires Progress(g, w, 0, d1, bits1, blocks1, d, bits, blocks, w.End())
    requires w.Limit() <= 512 * NDIRECT
    ensures forall i :: NDIRECT <= i < 140 ==> blocks[i] == 0
  {
    EndBounds(w);
    assert w.End() <= NDIRECT;
    assert m0.sectors[NDIRECT] == 0;
    forall i | NDIRECT <= i < 140
      ensures blocks[i] == 0
    {
      assert blocks[i] == blocks1[i] == Ptr(d0, m0.sectors, i);
    }
  }

  /** Everything that holds after a write that ran out of blocks: the file has at most gained an
      empty indirect block, and its bytes are written up to its old end. */
  lemma WriteFailed(g: Geometry, w: WriteReq, files: Files, no: nat, m0: Meta,
                    d0: Disk, bits0: seq<bool>, d1: Disk, bits1: seq<bool>, blocks1: seq<nat>, ind: nat,
                    d: Disk, bits: seq<bool>, blocks: seq<nat>, cur: nat, m2: Meta)
    requires g.Wf() && PtrsOk(g, d0, bits0, files) && no in files && files[no] == m0
    requires |bits| == BITS_PER_SECTOR * g.bitmapSects && w.pos <= m0.size
    requires Prepared(g, d0, bits0, m0.sectors, d1, bits1, blocks1, ind)
    requires w.First() <= cur < w.End() <= 140
    requires Progress(g, w, ind, d1, bits1, blocks1, d, bits, blocks, cur)
    requires BlocksOk(g, bits, ind, blocks) && blocks[cur] == 0
    requires m2 == WithIndirect(m0, ind)
    ensures ShapeOk(m2) && m0.size - w.pos <= |w.data|
    ensures PtrsOk(g, d, bits, files[no := m2])
    ensures OnlyTouched(g, d0, bits0, m0.sectors, d)
    ensures Content(d, m2) == Spliced(Content(d0, m0), w.pos, w.data[..m0.size - w.pos])
    ensures forall i :: 0 <= i < 140 ==> Ptr(d, m2.sectors, i) == Ptr(d0, m0.sectors, i)
    ensures ind != m0.sectors[NDIRECT] ==> ind != 0 && m0.sectors[NDIRECT] == 0
                                           && forall i :: NDIRECT <= i < 140 ==> Ptr(d, m2.sectors, i) == 0
  {
    assert ind < 0x1_0000_0000;
    PreparedPtrs(g, w, d0, bits0, m0.sectors, d1, bits1, blocks1, ind, d, bits, blocks, cur);
    PreparedBlocksOk(g, d0, bits0, files, no, d1, bits1, blocks1, ind);
    assert blocks1[cur] == 0;
    hide Content, Ptr, SectorAt, Spliced, DivRoundUp;
    assert forall i :: 0 <= i < 140 ==> Ptr(d, m2.sectors, i) == Ptr(d0, m0.sectors, i);
    assert NoHoles(d0, m0);
    assert NoHoles(d, m2);
    FailedListed(m0, d0, blocks1, w, blocks, cur, d, m2);
    hide NoHoles;
    PreparedGrew(g, d0, bits0, m0.sectors, d1, bits1, blocks1, ind, d, bits, m2.sectors);
    WriteOnlyTouched(g, w, d0, bits0, m0.sectors, d1, bits1, blocks1, ind, d, bits, blocks, cur, d);
    hide Prepared, Progress, BlocksOk;
    GrewPtrsOk(g, d0, bits0, files, no, d, bits, m2);
    FailedContent(g, w, d0, bits0, m0, d1, bits1, blocks1, ind, d, bits, blocks, cur, m2);
  }

  lemma FailedListed(m0: Meta, d0: Disk, blocks1: seq<nat>, w: WriteReq, blocks: seq<nat>, cur: nat, d: Disk, m2: Meta)
    requires ShapeOk(m0) && ShapeOk(m2) && NoHoles(d0, m0) && |blocks1| == 140 && |blocks| == 140
    requires forall i :: 0 <= i < 140 ==> blocks1[i] == Ptr(d0, m0.sectors, i)
    requires forall i :: 0 <= i < 140 ==> Ptr(d, m2.sectors, i) == Ptr(d0, m0.sectors, i)
    requires forall i :: 0 <= i < 140 && blocks1[i] != 0 ==> blocks[i] == blocks1[i]
    ensures forall i :: 0 <= i < 140 && 512 * i < m0.size ==> Ptr(d, m2.sectors, i) == blocks[i]
  {
    hide Ptr;
  }

  // ---- the in-core list and the slots ----

  /** The invariant of the store, on values. */
  ghost predicate Consistent(g: Geometry, d: Disk, bits: seq<bool>, ibits: seq<bool>, files: Files, open: seq<InCore>) {
    && PtrsOk(g, d, bits, files)
    && OpenOk(open, files)
    && SlotsOk(g, d, files, open)
    && |ibits| == MAX_FILES_PER_PART && (forall n :: n in files ==> ibits[n])
    && 0 in files && IsOpen(open, 0)
  }

  function WithMeta(open: seq<InCore>, k: nat, m: Meta): seq<InCore>
    requires k < |open|
  {
    open[k := open[k].(meta := m)]
  }

  lemma OpenAfter(open: seq<InCore>, files: Files, k: nat, m: Meta)
    requires OpenOk(open, files) && k < |open|
    ensures OpenOk(WithMeta(open, k, m), files[open[k].no := m])
    ensures forall n :: IsOpen(WithMeta(open, k, m), n) <==> IsOpen(open, n)
  {
    var open' := WithMeta(open, k, m);
    assert forall i :: 0 <= i < |open| ==> open'[i].no == open[i].no;
  }

  ghost predicate PtrsKept(d0: Disk, d: Disk, m: Meta) {
    |m.sectors| == NDIRECT + 1 && forall i :: 0 <= i < PTRS ==> Ptr(d, m.sectors, i) == Ptr(d0, m.sectors, i)
  }

  lemma SlotKept(g: Geometry, d0: Disk, d: Disk, n: nat, m: Meta, isOpen: bool)
    requires SlotAgrees(g, d0, n, m, isOpen) && Slot(d, g, n) == Slot(d0, g, n) && PtrsKept(d0, d, m)
    ensures SlotAgrees(g, d, n, m, isOpen)
  {
    hide Slot, Ptr, DecodeInode;
  }

  /** The store is consistent again once one open file has grown and every slot agrees with its file. */
  lemma ConsistentAfter(g: Geometry, d0: Disk, bits0: seq<bool>, ibits: seq<bool>, files: Files, open: seq<InCore>, k: nat,
                        d: Disk, bits: seq<bool>, m: Meta)
    requires Consistent(g, d0, bits0, ibits, files, open) && k < |open| && ShapeOk(m)
    requires var no := open[k].no;
      && PtrsOk(g, d, bits, files[no := m])
      && OnlyTouched(g, d0, bits0, files[no].sectors, d)
      && SlotAgrees(g, d, no, m, true)
      && (forall n :: n in files && n != no ==> Slot(d, g, n) == Slot(d0, g, n))
    ensures Consistent(g, d, bits, ibits, files[open[k].no := m], WithMeta(open, k, m))
  {
    var no := open[k].no;
    var files' := files[no := m];
    var open' := WithMeta(open, k, m);
    OpenAfter(open, files, k, m);
    assert IsOpen(open, no);
    hide SlotAgrees, PtrsOk, OpenOk, IsOpen, Slot, SlotsOk, OnlyTouched;
    OthersPtrsSame(g, d0, bits0, files, no, d);
    SlotsAfter(g, d0, files, open, no, d, m, open');
  }

  lemma SlotsAfter(g: Geometry, d0: Disk, files: Files, open: seq<InCore>, no: nat, d: Disk, m: Meta, open': seq<InCore>)
    requires SlotsOk(g, d0, files, open) && IsOpen(open', no)
    requires SlotAgrees(g, d, no, m, true)
    requires forall n :: n in files && n != no ==> Slot(d, g, n) == Slot(d0, g, n)
    requires forall n :: n in files && n != no ==> PtrsKept(d0, d, files[n])
    requires forall n :: IsOpen(open', n) <==> IsOpen(open, n)
    ensures SlotsOk(g, d, files[no := m], open')
  {
    hide SlotAgrees, IsOpen, Slot, PtrsKept;
    var files' := files[no := m];
    forall n | n in files'
      ensures SlotAgrees(g, d, n, files'[n], IsOpen(open', n))
    {
      if n != no {
        SlotKept(g, d0, d, n, files[n], IsOpen(open, n));
      }
    }
  }

  lemma OthersPtrsSame(g: Geometry, d0: Disk, bits0: seq<bool>, files: Files, no: nat, d: Disk)
    requires PtrsOk(g, d0, bits0, files) && no in files && OnlyTouched(g, d0, bits0, files[no].sectors, d)
    ensures forall n :: n in files && n != no ==> PtrsKept(d0, d, files[n])
  {
    forall n | n in files && n != no
      ensures PtrsKept(d0, d, files[n])
    {
      OtherFileKeeps(g, d0, bits0, files, no, d, n);
    }
  }

  lemma PtrsOkShapes(g: Geometry, d: Disk, bits: seq<bool>, files: Files)
    requires PtrsOk(g, d, bits, files)
    ensures Shapes(files)
  {
  }

  lemma StartWriting(g: Geometry, ibits: seq<bool>, files: Files, open: seq<InCore>, k: nat, w: WriteReq,
                     d0: Disk, bits0: seq<bool>, d1: Disk, bits1: seq<bool>, blocks1: seq<nat>, ind: nat)
    requires Consistent(g, d0, bits0, ibits, files, open) && k < |open| && |open[k].meta.sectors| == NDIRECT + 1
    requires Prepared(g, d0, bits0, open[k].meta.sectors, d1, bits1, blocks1, ind)
    requires w.Limit() <= MAX_FILE_SIZE
    ensures BlocksOk(g, bits1, ind, blocks1) && w.First() <= w.End() <= 140
  {
    PreparedBlocksOk(g, d0, bits0, files, open[k].no, d1, bits1, blocks1, ind);
    EndBounds(w);
  }

  /** The state in which the write loop starts. */
  ghost predicate Ready(g: Geometry, w: WriteReq, k: nat, d0: Disk, bits0: seq<bool>, ibits: seq<bool>, files: Files, open: seq<InCore>,
                        d1: Disk, bits1: seq<bool>, blocks1: seq<nat>, ind: nat)
  {
    && Consistent(g, d0, bits0, ibits, files, open) && k < |open| && |open[k].meta.sectors| == NDIRECT + 1
    && w.pos <= open[k].meta.size && w.Limit() <= MAX_FILE_SIZE
    && Prepared(g, d0, bits0, open[k].meta.sectors, d1, bits1, blocks1, ind)
    && SameTable(g, d0, d1)
    && (ind == 0 ==> w.Limit() <= 512 * NDIRECT)
  }

  /** What the last block of the write held before. */
  ghost function LastBefore(w: WriteReq, d1: Disk, blocks: seq<nat>): Sector
    requires |blocks| == 140 && w.End() <= 140
  {
    if w.First() < w.End() then SectorAt(d1, blocks[w.End() - 1]) else ZeroSector()
  }

  function GrownMeta(w: WriteReq, m0: Meta, blocks: seq<nat>, ind: nat): (r: Meta)
    requires |blocks| == 140
    ensures |r.sectors| == NDIRECT + 1 && r.ftype == m0.ftype
    ensures r.size == if w.Limit() > m0.size then w.Limit() else m0.size
  {
    Meta(if w.Limit() > m0.size then w.Limit() else m0.size, m0.ftype, blocks[..NDIRECT] + [ind])
  }

  /** After a successful write the store is consistent, the file holds what was stored, the others are as they were. */
  lemma AfterSuccess(g: Geometry, ibits: seq<bool>, files: Files, open: seq<InCore>, k: nat, w: WriteReq,
                     d0: Disk, bits0: seq<bool>, d1: Disk, bits1: seq<bool>, blocks1: seq<nat>, ind: nat,
                     d: Disk, bits: seq<bool>, blocks: seq<nat>, m2: Meta, rest: InodeImage, last: Sector)
    requires DiskShape(g, d, |bits|) && SameTable(g, d1, d) && |blocks| == 140
    requires Ready(g, w, k, d0, bits0, ibits, files, open, d1, bits1, blocks1, ind)
    requires w.First() <= w.End() <= 140
    requires Progress(g, w, ind, d1, bits1, blocks1, d, bits, blocks, w.End())
    requires BlocksOk(g, bits, ind, blocks)
    requires m2 == GrownMeta(w, open[k].meta, blocks, ind) && last == LastBefore(w, d1, blocks)
    ensures open[k].no < MAX_FILES_PER_PART && g.tableLba + InodeSector(open[k].no) + 1 < |d| && ind < |d|
    ensures ind == 0 || g.dataLba <= ind
    ensures var d2 := Finished(g, d, open[k].no, m2, rest, blocks, ind);
      && Consistent(g, d2, bits, ibits, files[open[k].no := m2], WithMeta(open, k, m2))
      && Wrote(w, k, d0, files, open, d2, files[open[k].no := m2], WithMeta(open, k, m2), |w.data|, m2, last)
  {
    hide *;
    ReadyFacts(g, w, k, d0, bits0, ibits, files, open, d1, bits1, blocks1, ind);
    var no, m0 := open[k].no, open[k].meta;
    SameTableTrans(g, d0, d1, d);
    SuccessShape(g, d0, bits0, files, no, m0, d, bits, m2, w, d1, bits1, blocks1, ind, blocks, rest, last);
    var d2 := Finished(g, d, no, m2, rest, blocks, ind);
    AfterSuccessConsistent(g, ibits, files, open, k, d0, bits0, d, bits, blocks, ind, m2, rest);
    OthersAreSame(g, d0, bits0, files, no, d2);
    ShapeBounds(m0);
    ShapeBounds(m2);
    SuccessOutcome(w, m0, Content(d0, m0), m2, Content(d2, m2), last);
    IsWrote(w, k, d0, files, open, d2, |w.data|, m2, last);
  }

  lemma SuccessOutcome(w: WriteReq, m0: Meta, c0: seq<bv8>, m2: Meta, c2: seq<bv8>, last: Sector)
    requires w.pos <= |c0| == m0.size && |c2| == m2.size && m2.ftype == m0.ftype
    requires c2 == Spliced(c0, w.pos, Stored(w, last))
    ensures WriteOutcome(w, m0, c0, m2, c2, |w.data|, last)
  {
  }

  lemma SuccessShape(g: Geometry, d0: Disk, bits0: seq<bool>, files: Files, no: nat, m0: Meta, d: Disk, bits: seq<bool>, m2: Meta,
                     w: WriteReq, d1: Disk, bits1: seq<bool>, blocks1: seq<nat>, ind: nat, blocks: seq<nat>, rest: InodeImage, last: Sector)
    requires DiskShape(g, d, |bits|) && PtrsOk(g, d0, bits0, files) && no in files && files[no] == m0
    requires w.pos <= m0.size && |m0.sectors| == NDIRECT + 1 && w.Limit() <= MAX_FILE_SIZE
    requires Prepared(g, d0, bits0, m0.sectors, d1, bits1, blocks1, ind)
    requires w.First() <= w.End() <= 140 && |blocks| == 140 && no < MAX_FILES_PER_PART
    requires Progress(g, w, ind, d1, bits1, blocks1, d, bits, blocks, w.End())
    requires BlocksOk(g, bits, ind, blocks)
    requires ind == 0 ==> w.Limit() <= 512 * NDIRECT
    requires m2 == GrownMeta(w, m0, blocks, ind) && last == LastBefore(w, d1, blocks)
    ensures g.Wf() && g.tableLba + InodeSector(no) + 1 < |d| && ind < |d| && (ind == 0 || g.dataLba <= ind)
    ensures ShapeOk(m2) && m2.Fits()
    ensures var d2 := Finished(g, d, no, m2, rest, blocks, ind);
      && PtrsOk(g, d2, bits, files[no := m2])
      && OnlyTouched(g, d0, bits0, m0.sectors, d2)
      && Content(d2, m2) == Spliced(Content(d0, m0), w.pos, Stored(w, last))
  {
    assert g.Wf() && |bits| == BITS_PER_SECTOR * g.bitmapSects && (ind == 0 || g.dataLba <= ind);
    GrownMetaIs(w, m0, blocks, ind, m2, d1, last);
    hide *;
    WriteFinished(g, w, files, no, m0, d0, bits0, d1, bits1, blocks1, ind, d, bits, blocks, m2, rest, last);
    IsShape(m2);
  }

  lemma IsShape(m: Meta)
    requires m.Fits() && m.size <= MAX_FILE_SIZE
    ensures ShapeOk(m)
  {
  }

  lemma GrownMetaIs(w: WriteReq, m0: Meta, blocks: seq<nat>, ind: nat, m2: Meta, d1: Disk, last: Sector)
    requires |blocks| == 140 && w.End() <= 140
    requires m2 == GrownMeta(w, m0, blocks, ind) && last == LastBefore(w, d1, blocks)
    ensures m2 == Meta(if w.Limit() > m0.size then w.Limit() else m0.size, m0.ftype, blocks[..NDIRECT] + [ind])
    ensures w.First() < w.End() ==> last == SectorAt(d1, blocks[w.End() - 1])
  {
  }

  lemma AfterSuccessConsistent(g: Geometry, ibits: seq<bool>, files: Files, open: seq<InCore>, k: nat,
                               d0: Disk, bits0: seq<bool>, d: Disk, bits: seq<bool>, blocks: seq<nat>, ind: nat, m2: Meta, rest: InodeImage)
    requires Consistent(g, d0, bits0, ibits, files, open) && k < |open| && SameTable(g, d0, d) && g.Wf()
    requires |open[k].meta.sectors| == NDIRECT + 1 && open[k].no < MAX_FILES_PER_PART && |blocks| == 140
    requires g.tableLba + InodeSector(open[k].no) + 1 < |d| && ind < |d| && (ind == 0 || g.dataLba <= ind)
    requires ShapeOk(m2) && |m2.sectors| == NDIRECT + 1
    requires var d2 := Finished(g, d, open[k].no, m2, rest, blocks, ind);
      PtrsOk(g, d2, bits, files[open[k].no := m2]) && OnlyTouched(g, d0, bits0, open[k].meta.sectors, d2)
    ensures Consistent(g, Finished(g, d, open[k].no, m2, rest, blocks, ind), bits, ibits, files[open[k].no := m2], WithMeta(open, k, m2))
  {
    hide *;
    var no := open[k].no;
    var d2 := Finished(g, d, no, m2, rest, blocks, ind);
    OpenFacts(g, d0, bits0, ibits, files, open, k);
    FinishedSlots(g, d0, d, no, m2, rest, blocks, ind, files);
    ConsistentAfter(g, d0, bits0, ibits, files, open, k, d2, bits, m2);
  }

  lemma FinishedSlots(g: Geometry, d0: Disk, d: Disk, no: nat, m2: Meta, rest: InodeImage, blocks: seq<nat>, ind: nat, files: Files)
    requires g.Wf() && Shapes(files) && SameTable(g, d0, d) && no < MAX_FILES_PER_PART && ShapeOk(m2) && |blocks| == 140
    requires g.tableLba + InodeSector(no) + 1 < |d| && ind < |d| && (ind == 0 || g.dataLba <= ind)
    ensures SlotAgrees(g, Finished(g, d, no, m2, rest, blocks, ind), no, m2, true)
    ensures forall n :: n in files && n != no ==> Slot(Finished(g, d, no, m2, rest, blocks, ind), g, n) == Slot(d0, g, n)
  {
    hide Finished, Slot, SameTable, DecodeInode;
    FinishedSlot(g, d, no, m2, rest, blocks, ind, no);
    forall n | n in files && n != no
      ensures Slot(Finished(g, d, no, m2, rest, blocks, ind), g, n) == Slot(d0, g, n)
    {
      FinishedSlot(g, d, no, m2, rest, blocks, ind, n);
      SlotSame(g, d0, d, n);
    }
  }

  lemma IsReady(g: Geometry, w: WriteReq, k: nat, d0: Disk, bits0: seq<bool>, ibits: seq<bool>, files: Files, open: seq<InCore>,
                d1: Disk, bits1: seq<bool>, blocks1: seq<nat>, ind: nat)
    requires Consistent(g, d0, bits0, ibits, files, open) && k < |open| && |open[k].meta.sectors| == NDIRECT + 1
    requires w.pos <= open[k].meta.size && w.Limit() <= MAX_FILE_SIZE
    requires Prepared(g, d0, bits0, open[k].meta.sectors, d1, bits1, blocks1, ind)
    requires SameTable(g, d0, d1) && (ind == 0 ==> w.Limit() <= 512 * NDIRECT)
    ensures Ready(g, w, k, d0, bits0, ibits, files, open, d1, bits1, blocks1, ind)
  {
  }

  /** After a write that ran out of blocks the store is consistent and the other files are as they were. */
  lemma AfterFailure(g: Geometry, ibits: seq<bool>, files: Files, open: seq<InCore>, k: nat, w: WriteReq,
                     d0: Disk, bits0: seq<bool>, d1: Disk, bits1: seq<bool>, blocks1: seq<nat>, ind: nat,
                     d: Disk, bits: seq<bool>, blocks: seq<nat>, cur: nat, m2: Meta, last: Sector)
    requires DiskShape(g, d, |bits|) && SameTable(g, d1, d) && |blocks| == 140
    requires Ready(g, w, k, d0, bits0, ibits, files, open, d1, bits1, blocks1, ind)
    requires m2 == WithIndirect(open[k].meta, ind)
    requires w.First() <= cur < w.End() <= 140
    requires Progress(g, w, ind, d1, bits1, blocks1, d, bits, blocks, cur)
    requires BlocksOk(g, bits, ind, blocks) && blocks[cur] == 0
    ensures Consistent(g, d, bits, ibits, files[open[k].no := m2], WithMeta(open, k, m2))
    ensures Wrote(w, k, d0, files, open, d, files[open[k].no := m2], WithMeta(open, k, m2), -1, m2, last)
  {
    hide *;
    ReadyFacts(g, w, k, d0, bits0, ibits, files, open, d1, bits1, blocks1, ind);
    var no, m0 := open[k].no, open[k].meta;
    SameTableTrans(g, d0, d1, d);
    FailedShape(g, d0, bits0, files, no, m0, d, bits, m2, w, d1, bits1, blocks1, ind, blocks, cur);
    AfterFailureConsistent(g, ibits, files, open, k, d0, bits0, d, bits, ind, m2);
    OthersAreSame(g, d0, bits0, files, no, d);
    ShapeBounds(m0);
    ShapeBounds(m2);
    FailedOutcome(w, m0, Content(d0, m0), m2, Content(d, m2), last);
    IsWrote(w, k, d0, files, open, d, -1, m2, last);
  }

  lemma ShapeBounds(m: Meta)
    requires ShapeOk(m)
    ensures |m.sectors| == NDIRECT + 1 && m.size <= MAX_FILE_SIZE
  {
  }

  lemma IsWrote(w: WriteReq, k: nat, d0: Disk, files: Files, open: seq<InCore>, d: Disk, r: int, m2: Meta, last: Sector)
    requires k < |open| && ShapeOk(open[k].meta) && ShapeOk(m2)
    requires WriteOutcome(w, open[k].meta, Content(d0, open[k].meta), m2, Content(d, m2), r, last)
    requires OthersSame(d0, files, d, open[k].no)
    ensures Wrote(w, k, d0, files, open, d, files[open[k].no := m2], WithMeta(open, k, m2), r, m2, last)
  {
  }

  lemma ReadyFacts(g: Geometry, w: WriteReq, k: nat, d0: Disk, bits0: seq<bool>, ibits: seq<bool>, files: Files, open: seq<InCore>,
                   d1: Disk, bits1: seq<bool>, blocks1: seq<nat>, ind: nat)
    requires Ready(g, w, k, d0, bits0, ibits, files, open, d1, bits1, blocks1, ind)
    ensures Consistent(g, d0, bits0, ibits, files, open) && k < |open| && |open[k].meta.sectors| == NDIRECT + 1
    ensures w.pos <= open[k].meta.size && w.Limit() <= MAX_FILE_SIZE && SameTable(g, d0, d1)
    ensures Prepared(g, d0, bits0, open[k].meta.sectors, d1, bits1, blocks1, ind)
    ensures ind == 0 ==> w.Limit() <= 512 * NDIRECT
    ensures PtrsOk(g, d0, bits0, files) && Shapes(files)
    ensures var no := open[k].no;
      && no in files && files[no] == open[k].meta && ShapeOk(open[k].meta) && no < MAX_FILES_PER_PART
      && SlotAgrees(g, d0, no, open[k].meta, IsOpen(open, no))
  {
    hide Consistent, Prepared, SameTable, PtrsOk, SlotAgrees, ShapeOk;
    OpenFacts(g, d0, bits0, ibits, files, open, k);
  }

  /** A write finds a block missing only beyond the end of the file. */
  lemma HoleMeansGrowth(g: Geometry, w: WriteReq, k: nat, d0: Disk, bits0: seq<bool>, ibits: seq<bool>, files: Files, open: seq<InCore>,
                        d1: Disk, bits1: seq<bool>, blocks1: seq<nat>, ind: nat,
                        d: Disk, bits: seq<bool>, blocks: seq<nat>, cur: nat)
    requires Ready(g, w, k, d0, bits0, ibits, files, open, d1, bits1, blocks1, ind)
    requires Progress(g, w, ind, d1, bits1, blocks1, d, bits, blocks, cur) && cur < w.End() <= 140 && |blocks| == 140 && blocks[cur] == 0
    ensures k < |open| && w.Limit() > open[k].meta.size
  {
    ReadyFacts(g, w, k, d0, bits0, ibits, files, open, d1, bits1, blocks1, ind);
    hide Ready, Consistent, SlotAgrees, SameTable, Ptr, SectorAt;
    assert blocks1[cur] == 0 && Ptr(d0, open[k].meta.sectors, cur) == 0;
    assert NoHoles(d0, files[open[k].no]);
    EndBounds(w);
  }

  /** The same for the indirect block. */
  lemma IndirectMeansGrowth(g: Geometry, d: Disk, bits: seq<bool>, ibits: seq<bool>, files: Files, open: seq<InCore>, k: nat, w: WriteReq)
    requires Consistent(g, d, bits, ibits, files, open) && k < |open| && |open[k].meta.sectors| == NDIRECT + 1
    requires open[k].meta.sectors[NDIRECT] == 0 && w.Limit() > 512 * NDIRECT
    ensures w.Limit() > open[k].meta.size
  {
    OpenFacts(g, d, bits, ibits, files, open, k);
    hide Consistent, SlotAgrees, SectorAt;
    assert NoHoles(d, files[open[k].no]);
    assert Ptr(d, open[k].meta.sectors, NDIRECT) == 0;
  }

  lemma FailedShape(g: Geometry, d0: Disk, bits0: seq<bool>, files: Files, no: nat, m0: Meta, d: Disk, bits: seq<bool>, m2: Meta,
                    w: WriteReq, d1: Disk, bits1: seq<bool>, blocks1: seq<nat>, ind: nat, blocks: seq<nat>, cur: nat)
    requires DiskShape(g, d, |bits|) && PtrsOk(g, d0, bits0, files) && no in files && files[no] == m0
    requires w.pos <= m0.size && |m0.sectors| == NDIRECT + 1
    requires Prepared(g, d0, bits0, m0.sectors, d1, bits1, blocks1, ind)
    requires w.First() <= cur < w.End() <= 140 && |blocks| == 140
    requires Progress(g, w, ind, d1, bits1, blocks1, d, bits, blocks, cur)
    requires BlocksOk(g, bits, ind, blocks) && blocks[cur] == 0
    requires m2 == WithIndirect(m0, ind)
    ensures ShapeOk(m2) && m0.size - w.pos <= |w.data| && g.Wf()
    ensures PtrsOk(g, d, bits, files[no := m2])
    ensures OnlyTouched(g, d0, bits0, m0.sectors, d)
    ensures Content(d, m2) == Spliced(Content(d0, m0), w.pos, w.data[..m0.size - w.pos])
    ensures forall i :: 0 <= i < 140 ==> Ptr(d, m2.sectors, i) == Ptr(d0, m0.sectors, i)
    ensures ind != m0.sectors[NDIRECT] ==> ind != 0 && m0.sectors[NDIRECT] == 0
                                           && forall i :: NDIRECT <= i < 140 ==> Ptr(d, m2.sectors, i) == 0
  {
    assert g.Wf() && |bits| == BITS_PER_SECTOR * g.bitmapSects;
    hide *;
    WriteFailed(g, w, files, no, m0, d0, bits0, d1, bits1, blocks1, ind, d, bits, blocks, cur, m2);
  }

  lemma AfterFailureConsistent(g: Geometry, ibits: seq<bool>, files: Files, open: seq<InCore>, k: nat,
                               d0: Disk, bits0: seq<bool>, d: Disk, bits: seq<bool>, ind: nat, m2: Meta)
    requires Consistent(g, d0, bits0, ibits, files, open) && k < |open| && SameTable(g, d0, d) && g.Wf()
    requires |open[k].meta.sectors| == NDIRECT + 1 && m2 == WithIndirect(open[k].meta, ind)
    requires ShapeOk(m2) && PtrsOk(g, d, bits, files[open[k].no := m2]) && OnlyTouched(g, d0, bits0, open[k].meta.sectors, d)
    requires forall i :: 0 <= i < 140 ==> Ptr(d, m2.sectors, i) == Ptr(d0, open[k].meta.sectors, i)
    requires ind != open[k].meta.sectors[NDIRECT] ==>
               ind != 0 && open[k].meta.sectors[NDIRECT] == 0 && forall i :: NDIRECT <= i < 140 ==> Ptr(d, m2.sectors, i) == 0
    ensures Consistent(g, d, bits, ibits, files[open[k].no := m2], WithMeta(open, k, m2))
  {
    hide *;
    var no, m0 := open[k].no, open[k].meta;
    OpenFacts(g, d0, bits0, ibits, files, open, k);
    FailedSlot(g, d0, d, no, m0, m2, ind, IsOpen(open, no));
    OtherSlotsSame(g, d0, d, files, no);
    ConsistentAfter(g, d0, bits0, ibits, files, open, k, d, bits, m2);
  }

  lemma FailedOutcome(w: WriteReq, m0: Meta, c0: seq<bv8>, m2: Meta, c2: seq<bv8>, last: Sector)
    requires w.pos <= |c0| == m0.size && |c2| == m2.size == m0.size && m2.ftype == m0.ftype && m0.size - w.pos <= |w.data|
    requires c2 == Spliced(c0, w.pos, w.data[..m0.size - w.pos])
    ensures WriteOutcome(w, m0, c0, m2, c2, -1, last)
  {
  }

  lemma SameTableTrans(g: Geometry, d0: Disk, d1: Disk, d2: Disk)
    requires SameTable(g, d0, d1) && SameTable(g, d1, d2)
    ensures SameTable(g, d0, d2)
  {
  }

  lemma OtherSlotsSame(g: Geometry, d0: Disk, d: Disk, files: Files, no: nat)
    requires g.Wf() && SameTable(g, d0, d) && Shapes(files)
    ensures forall n :: n in files && n != no ==> Slot(d, g, n) == Slot(d0, g, n)
  {
    forall n | n in files && n != no
      ensures Slot(d, g, n) == Slot(d0, g, n)
    {
      SlotSame(g, d0, d, n);
    }
  }

  /** What consistency says about an open inode. */
  lemma OpenFacts(g: Geometry, d: Disk, bits: seq<bool>, ibits: seq<bool>, files: Files, open: seq<InCore>, k: nat)
    requires Consistent(g, d, bits, ibits, files, open) && k < |open|
    ensures PtrsOk(g, d, bits, files) && Shapes(files)
    ensures var no := open[k].no;
      && no in files && files[no] == open[k].meta && ShapeOk(open[k].meta) && no < MAX_FILES_PER_PART
      && SlotAgrees(g, d, no, open[k].meta, IsOpen(open, no))
  {
  }

  lemma FailedSlot(g: Geometry, d0: Disk, d: Disk, no: nat, m0: Meta, m2: Meta, ind: nat, isOpen: bool)
    requires g.Wf() && no < MAX_FILES_PER_PART && |m0.sectors| == NDIRECT + 1 && SameTable(g, d0, d)
    requires SlotAgrees(g, d0, no, m0, isOpen)
    requires m2 == WithIndirect(m0, ind)
    requires forall i :: 0 <= i < 140 ==> Ptr(d, m2.sectors, i) == Ptr(d0, m0.sectors, i)
    requires ind != m0.sectors[NDIRECT] ==> ind != 0 && m0.sectors[NDIRECT] == 0
                                            && forall i :: NDIRECT <= i < 140 ==> Ptr(d, m2.sectors, i) == 0
    ensures SlotAgrees(g, d, no, m2, true)
  {
    SlotSame(g, d0, d, no);
    hide Slot, DecodeInode, Ptr;
    if ind == m0.sectors[NDIRECT] {
      assert m2 == m0;
    } else {
      assert m2.sectors[NDIRECT := 0] == m0.sectors;
    }
  }

  lemma OthersAreSame(g: Geometry, d0: Disk, bits0: seq<bool>, files: Files, no: nat, d: Disk)
    requires PtrsOk(g, d0, bits0, files) && no in files
    requires OnlyTouched(g, d0, bits0, files[no].sectors, d)
    ensures OthersSame(d0, files, d, no)
  {
    forall n | n in files && n != no && ShapeOk(files[n])
      ensures Content(d, files[n]) == Content(d0, files[n])
    {
      OtherFileKeeps(g, d0, bits0, files, no, d, n);
    }
  }

  // ---- the in-core list ----

  function FindOpen(open: seq<InCore>, no: nat): (r: nat)
    ensures r <= |open|
  {
    if |open| == 0 || open[0].no == no then 0 else 1 + FindOpen(open[1..], no)
  }

  lemma {:induction false} FindOpenIs(open: seq<InCore>, no: nat, k: nat)
    requires k <= |open| && (k < |open| ==> open[k].no == no)
    requires forall j :: 0 <= j < k ==> open[j].no != no
    ensures FindOpen(open, no) == k
  {
    if k > 0 {
      FindOpenIs(open[1..], no, k - 1);
    }
  }

  lemma {:induction false} FindOpenFinds(open: seq<InCore>, no: nat)
    ensures var k := FindOpen(open, no); k < |open| ==> open[k].no == no
    ensures FindOpen(open, no) == |open| <==> !IsOpen(open, no)
  {
    if |open| > 0 && open[0].no != no {
      FindOpenFinds(open[1..], no);
      if IsOpen(open, no) {
        var k :| 0 <= k < |open| && open[k].no == no;
        assert open[1..][k - 1].no == no;
      }
    }
  }

  /** The list after inode_open. */
  function Opened(open: seq<InCore>, no: nat, m: Meta): seq<InCore> {
    var k := FindOpen(open, no);
    if k < |open| then open[k := open[k].(opens := open[k].opens + 1)] else [InCore(no, 1, m)] + open
  }

  /** The list after inode_close. */
  function Closed(open: seq<InCore>, k: nat): seq<InCore>
    requires k < |open|
  {
    if open[k].no == 0 then open
    else if open[k].opens <= 1 then open[..k] + open[k + 1..]
    else open[k := open[k].(opens := open[k].opens - 1)]
  }

  lemma NotInList(g: Geometry, d: Disk, bits: seq<bool>, ibits: seq<bool>, files: Files, open: seq<InCore>, no: nat)
    requires Consistent(g, d, bits, ibits, files, open) && no !in files
    ensures FindOpen(open, no) == |open|
  {
    FindOpenIs(open, no, |open|);
  }

  lemma OpenedConsistent(g: Geometry, d: Disk, bits: seq<bool>, ibits: seq<bool>, files: Files, open: seq<InCore>, no: nat, k: nat)
    requires Consistent(g, d, bits, ibits, files, open) && no in files && k == FindOpen(open, no)
    ensures Consistent(g, d, bits, ibits, files, Opened(open, no, files[no])) && no < MAX_FILES_PER_PART
    ensures k < |open| ==> open[k].no == no && Opened(open, no, files[no]) == open[k := open[k].(opens := open[k].opens + 1)]
    ensures k >= |open| ==> Opened(open, no, files[no]) == [InCore(no, 1, files[no])] + open
  {
    FindOpenFinds(open, no);
    hide PtrsOk, FindOpen, SlotAgrees, OpenOk, IsOpen;
    PtrsOkShapes(g, d, bits, files);
    OpenedOk(open, files, no, k);
    OpenedSlots(g, d, files, open, Opened(open, no, files[no]));
  }

  lemma OpenedSlots(g: Geometry, d: Disk, files: Files, open: seq<InCore>, open': seq<InCore>)
    requires SlotsOk(g, d, files, open)
    requires forall n :: IsOpen(open, n) ==> IsOpen(open', n)
    ensures SlotsOk(g, d, files, open')
  {
    hide SlotAgrees, IsOpen;
    forall n | n in files
      ensures SlotAgrees(g, d, n, files[n], IsOpen(open', n))
    {
      MoreOpenAgrees(g, d, n, files[n], IsOpen(open, n), IsOpen(open', n));
    }
  }

  lemma OpenedOk(open: seq<InCore>, files: Files, no: nat, k: nat)
    requires OpenOk(open, files) && no in files && k == FindOpen(open, no)
    requires k < |open| ==> open[k].no == no
    requires k == |open| <==> !IsOpen(open, no)
    ensures OpenOk(Opened(open, no, files[no]), files)
    ensures forall n :: IsOpen(open, n) ==> IsOpen(Opened(open, no, files[no]), n)
  {
    OpenedAll(open, no, files[no], k);
    hide FindOpen;
    if k < |open| {
      hide IsOpen;
    } else {
      NewHead(open, files, no);
    }
  }

  lemma NewHead(open: seq<InCore>, files: Files, no: nat)
    requires OpenOk(open, files) && no in files && !IsOpen(open, no)
    ensures OpenOk([InCore(no, 1, files[no])] + open, files)
  {
  }

  lemma OpenedAll(open: seq<InCore>, no: nat, m: Meta, k: nat)
    requires k == FindOpen(open, no)
    ensures forall n :: IsOpen(open, n) ==> IsOpen(Opened(open, no, m), n)
  {
    hide FindOpen;
    var open' := Opened(open, no, m);
    forall n | IsOpen(open, n)
      ensures IsOpen(open', n)
    {
      var j :| 0 <= j < |open| && open[j].no == n;
      assert open'[if k < |open| then j else j + 1].no == n;
    }
  }

  lemma MoreOpenAgrees(g: Geometry, d: Disk, n: nat, m: Meta, was: bool, now: bool)
    requires SlotAgrees(g, d, n, m, was) && (was ==> now)
    ensures SlotAgrees(g, d, n, m, now)
  {
  }

  lemma SlotWhenClosed(g: Geometry, d: Disk, bits: seq<bool>, ibits: seq<bool>, files: Files, open: seq<InCore>, no: nat, k: nat)
    requires Consistent(g, d, bits, ibits, files, open) && no in files && k == FindOpen(open, no) && k >= |open|
    ensures DecodeInode(Slot(d, g, no)) == files[no]
  {
    FindOpenFinds(open, no);
    hide PtrsOk, Slot, DecodeInode, FindOpen;
    assert SlotAgrees(g, d, no, files[no], IsOpen(open, no));
  }

  // ---- closing ----

  /** Two versions of a file with the same size, type and bytes. */
  ghost predicate SameFile(d: Disk, m: Meta, m': Meta) {
    && m'.size == m.size && m'.ftype == m.ftype
    && (ShapeOk(m) ==> ShapeOk(m') && Content(d, m') == Content(d, m))
  }

  /** The version in the slot is the current one, or the current one without its empty indirect block. */
  lemma SlotVersion(g: Geometry, d: Disk, n: nat, m: Meta, isOpen: bool, i: nat)
    requires ShapeOk(m) && SlotAgrees(g, d, n, m, isOpen) && i < PTRS
    ensures var m' := DecodeInode(Slot(d, g, n));
      && m'.size == m.size && m'.ftype == m.ftype && ShapeOk(m')
      && (Ptr(d, m'.sectors, i) == Ptr(d, m.sectors, i) || (i == 140 && Ptr(d, m'.sectors, i) == 0))
  {
    hide Slot, DecodeInode, SectorAt, U32;
  }

  lemma SlotSameFile(g: Geometry, d: Disk, n: nat, m: Meta, isOpen: bool)
    requires ShapeOk(m) && SlotAgrees(g, d, n, m, isOpen)
    ensures ShapeOk(DecodeInode(Slot(d, g, n))) && SameFile(d, m, DecodeInode(Slot(d, g, n)))
    ensures NoHoles(d, m) ==> NoHoles(d, DecodeInode(Slot(d, g, n)))
  {
    SlotVersion(g, d, n, m, isOpen, 0);
    var m' := DecodeInode(Slot(d, g, n));
    forall i | 0 <= i < 140
      ensures Ptr(d, m'.sectors, i) == Ptr(d, m.sectors, i)
    {
      SlotVersion(g, d, n, m, isOpen, i);
    }
    hide Slot, DecodeInode, Ptr, SectorAt, SlotAgrees;
    assert Content(d, m') == Content(d, m);
  }

  lemma ShrunkPtrsOk(g: Geometry, d: Disk, bits: seq<bool>, files: Files, n: nat, m': Meta)
    requires PtrsOk(g, d, bits, files) && n in files && ShapeOk(m') && NoHoles(d, m')
    requires forall i :: 0 <= i < PTRS ==> Ptr(d, m'.sectors, i) == Ptr(d, files[n].sectors, i) || Ptr(d, m'.sectors, i) == 0
    ensures PtrsOk(g, d, bits, files[n := m'])
  {
    var files' := files[n := m'];
    hide Ptr;
    assert Shapes(files');
    forall m | m in files'
      ensures AllUsed(g, d, bits, files'[m].sectors) && NoHoles(d, files'[m])
    {
      assert AllUsed(g, d, bits, files[m].sectors);
    }
    forall a, b, i, j | a in files' && b in files' && 0 <= i < PTRS && 0 <= j < PTRS
      && Ptr(d, files'[a].sectors, i) != 0 && Ptr(d, files'[a].sectors, i) == Ptr(d, files'[b].sectors, j)
      ensures a == b && i == j
    {
      assert Ptr(d, files[a].sectors, i) == Ptr(d, files[b].sectors, j);
    }
  }

  /** The current versions after inode_close: closing the last reference falls back to the slot. */
  ghost function FilesAfterClose(g: Geometry, d: Disk, files: Files, open: seq<InCore>, k: nat): Files
    requires k < |open|
  {
    if open[k].no != 0 && open[k].opens <= 1 then files[open[k].no := DecodeInode(Slot(d, g, open[k].no))] else files
  }

  lemma CloseKeeps(g: Geometry, d: Disk, bits: seq<bool>, ibits: seq<bool>, files: Files, open: seq<InCore>, k: nat)
    requires Consistent(g, d, bits, ibits, files, open) && k < |open|
    ensures open[k].opens >= 1 && open[k].no in files
    ensures Consistent(g, d, bits, ibits, FilesAfterClose(g, d, files, open, k), Closed(open, k))
    ensures FilesAfterClose(g, d, files, open, k).Keys == files.Keys
    ensures forall n :: n in files && n != open[k].no ==> FilesAfterClose(g, d, files, open, k)[n] == files[n]
    ensures forall n :: n in files ==> SameFile(d, files[n], FilesAfterClose(g, d, files, open, k)[n])
    ensures open[k].no == 0 || open[k].opens > 1 ==> FilesAfterClose(g, d, files, open, k) == files
    ensures open[k].no == 0 ==> Closed(open, k) == open
    ensures open[k].no != 0 && open[k].opens == 1 ==> Closed(open, k) == open[..k] + open[k + 1..]
    ensures open[k].no != 0 && open[k].opens > 1 ==> Closed(open, k) == open[k := open[k].(opens := open[k].opens - 1)]
  {
    hide *;
    OpenFacts(g, d, bits, ibits, files, open, k);
    ClosedCases(g, d, files, open, k);
    OpensPositive(g, d, bits, ibits, files, open, k);
    SameFileAll(d, files);
    if open[k].no != 0 && open[k].opens == 1 {
      LastClose(g, d, bits, ibits, files, open, k);
    } else {
      FewerOpensConsistent(g, d, bits, ibits, files, open, k);
    }
  }

  lemma OpensPositive(g: Geometry, d: Disk, bits: seq<bool>, ibits: seq<bool>, files: Files, open: seq<InCore>, k: nat)
    requires Consistent(g, d, bits, ibits, files, open) && k < |open|
    ensures open[k].opens >= 1
  {
  }

  lemma ClosedCases(g: Geometry, d: Disk, files: Files, open: seq<InCore>, k: nat)
    requires k < |open| && open[k].no in files
    ensures FilesAfterClose(g, d, files, open, k).Keys == files.Keys
    ensures forall n :: n in files && n != open[k].no ==> FilesAfterClose(g, d, files, open, k)[n] == files[n]
    ensures open[k].no == 0 || open[k].opens > 1 ==> FilesAfterClose(g, d, files, open, k) == files
    ensures open[k].no == 0 ==> Closed(open, k) == open
    ensures open[k].no != 0 && open[k].opens == 1 ==> Closed(open, k) == open[..k] + open[k + 1..]
    ensures open[k].no != 0 && open[k].opens > 1 ==> Closed(open, k) == open[k := open[k].(opens := open[k].opens - 1)]
  {
    hide DecodeInode, Slot;
  }

  lemma SameFileAll(d: Disk, files: Files)
    ensures forall n :: n in files ==> SameFile(d, files[n], files[n])
  {
    hide Content;
  }

  lemma FewerOpensConsistent(g: Geometry, d: Disk, bits: seq<bool>, ibits: seq<bool>, files: Files, open: seq<InCore>, k: nat)
    requires Consistent(g, d, bits, ibits, files, open) && k < |open| && (open[k].no == 0 || open[k].opens > 1)
    ensures Consistent(g, d, bits, ibits, files, Closed(open, k))
  {
    hide PtrsOk, SlotsOk, OpenOk, IsOpen, Closed;
    FewerOpens(g, d, files, open, k);
  }

  lemma FewerOpens(g: Geometry, d: Disk, files: Files, open: seq<InCore>, k: nat)
    requires OpenOk(open, files) && SlotsOk(g, d, files, open) && k < |open| && (open[k].no == 0 || open[k].opens > 1)
    ensures OpenOk(Closed(open, k), files) && SlotsOk(g, d, files, Closed(open, k))
    ensures forall n :: IsOpen(open, n) <==> IsOpen(Closed(open, k), n)
  {
    hide SlotAgrees;
    var open' := Closed(open, k);
    assert |open'| == |open| && forall j :: 0 <= j < |open| ==> open'[j].no == open[j].no;
    assert forall n :: IsOpen(open, n) <==> IsOpen(open', n);
  }

  lemma LastClose(g: Geometry, d: Disk, bits: seq<bool>, ibits: seq<bool>, files: Files, open: seq<InCore>, k: nat)
    requires Consistent(g, d, bits, ibits, files, open) && k < |open| && open[k].no != 0 && open[k].opens == 1
    ensures Consistent(g, d, bits, ibits, FilesAfterClose(g, d, files, open, k), Closed(open, k))
    ensures open[k].no in files && SameFile(d, files[open[k].no], FilesAfterClose(g, d, files, open, k)[open[k].no])
  {
    hide *;
    OpenFacts(g, d, bits, ibits, files, open, k);
    var no := open[k].no;
    SlotSameFile(g, d, no, files[no], IsOpen(open, no));
    SlotPtrsOk(g, d, bits, files, no, IsOpen(open, no));
    LastCloseLists(g, d, bits, ibits, files, open, k);
  }

  lemma SlotPtrsOk(g: Geometry, d: Disk, bits: seq<bool>, files: Files, no: nat, isOpen: bool)
    requires PtrsOk(g, d, bits, files) && no in files && SlotAgrees(g, d, no, files[no], isOpen)
    ensures PtrsOk(g, d, bits, files[no := DecodeInode(Slot(d, g, no))])
  {
    hide Slot, DecodeInode, SlotAgrees, Ptr, Content;
    var m' := DecodeInode(Slot(d, g, no));
    SlotSameFile(g, d, no, files[no], isOpen);
    forall i | 0 <= i < PTRS
      ensures Ptr(d, m'.sectors, i) == Ptr(d, files[no].sectors, i) || Ptr(d, m'.sectors, i) == 0
    {
      SlotVersion(g, d, no, files[no], isOpen, i);
    }
    assert NoHoles(d, files[no]);
    ShrunkPtrsOk(g, d, bits, files, no, m');
  }

  lemma LastCloseLists(g: Geometry, d: Disk, bits: seq<bool>, ibits: seq<bool>, files: Files, open: seq<InCore>, k: nat)
    requires Consistent(g, d, bits, ibits, files, open) && k < |open| && open[k].no != 0 && open[k].opens == 1
    requires PtrsOk(g, d, bits, files[open[k].no := DecodeInode(Slot(d, g, open[k].no))])
    requires SameFile(d, files[open[k].no], DecodeInode(Slot(d, g, open[k].no)))
    ensures Consistent(g, d, bits, ibits, FilesAfterClose(g, d, files, open, k), Closed(open, k))
    ensures SameFile(d, files[open[k].no], FilesAfterClose(g, d, files, open, k)[open[k].no])
  {
    hide PtrsOk, Slot, DecodeInode, SlotAgrees, SameFile;
    var no, open' := open[k].no, Closed(open, k);
    var files' := FilesAfterClose(g, d, files, open, k);
    ShorterList(open, files, k, files'[no]);
    hide OpenOk, IsOpen;
    forall n | n in files'
      ensures SlotAgrees(g, d, n, files'[n], IsOpen(open', n))
    {
      if n == no {
        SlotItself(g, d, n, IsOpen(open', n));
      } else {
        assert SlotAgrees(g, d, n, files[n], IsOpen(open, n));
      }
    }
  }

  lemma SlotItself(g: Geometry, d: Disk, n: nat, isOpen: bool)
    ensures SlotAgrees(g, d, n, DecodeInode(Slot(d, g, n)), isOpen)
  {
  }

  lemma ShorterList(open: seq<InCore>, files: Files, k: nat, m: Meta)
    requires OpenOk(open, files) && k < |open| && open[k].no != 0 && open[k].opens == 1
    ensures OpenOk(Closed(open, k), files[open[k].no := m]) && OpenOk(Closed(open, k), files - {open[k].no})
    ensures forall n :: IsOpen(Closed(open, k), n) <==> n != open[k].no && IsOpen(open, n)
  {
    var open' := Closed(open, k);
    assert forall j :: 0 <= j < |open'| ==> open'[j] == open[if j < k then j else j + 1];
    forall n | n != open[k].no && IsOpen(open, n)
      ensures IsOpen(open', n)
    {
      var j :| 0 <= j < |open| && open[j].no == n;
      assert open'[if j < k then j else j - 1].no == n;
    }
  }

  // ---- what inode_read needs ----

  /** `n` bytes of the blocks of a file, from byte `from` on. */
  function Bytes(d: Disk, sectors: seq<nat>, from: nat, n: nat): (r: seq<bv8>)
    requires |sectors| == NDIRECT + 1 && from + n <= MAX_FILE_SIZE
    ensures |r| == n
  {
    seq(n, j requires 0 <= j < n => ByteAt(d, sectors, from + j))
  }

  lemma BytesExtend(d: Disk, sectors: seq<nat>, start: nat, b: nat, sector: seq<bv8>)
    requires |sectors| == NDIRECT + 1 && start <= b < 140
    requires sector == if Ptr(d, sectors, b) != 0 then SectorAt(d, Ptr(d, sectors, b)) else ZeroSector()
    ensures Bytes(d, sectors, 512 * start, 512 * (b + 1 - start))
            == Bytes(d, sectors, 512 * start, 512 * (b - start)) + sector
  {
    hide Ptr, SectorAt, ByteAt;
    var n := 512 * (b - start);
    var r := Bytes(d, sectors, 512 * start, n + 512);
    var t := Bytes(d, sectors, 512 * start, n) + sector;
    forall j | 0 <= j < n + 512
      ensures r[j] == t[j]
    {
      if j >= n {
        BlockByte(d, sectors, b, sector, j - n);
        assert 512 * start + j == 512 * b + (j - n);
      }
    }
  }

  lemma BlockByte(d: Disk, sectors: seq<nat>, b: nat, sector: seq<bv8>, o: nat)
    requires |sectors| == NDIRECT + 1 && b < 140 && o < 512
    requires sector == if Ptr(d, sectors, b) != 0 then SectorAt(d, Ptr(d, sectors, b)) else ZeroSector()
    ensures ByteAt(d, sectors, 512 * b + o) == sector[o]
  {
    hide Ptr, SectorAt;
    assert (512 * b + o) / 512 == b && (512 * b + o) % 512 == o;
  }

  /** The bytes asked for lie in the blocks read, at the offset of `pos` in its block. */
  lemma RangeInBlocks(d: Disk, m: Meta, pos: nat, count: nat, readBuf: seq<bv8>)
    requires ShapeOk(m) && pos + count <= m.size
    requires readBuf == Bytes(d, m.sectors, 512 * (pos / 512), 512 * ((pos + count + 511) / 512 - pos / 512))
    ensures pos % 512 + count <= |readBuf|
    ensures readBuf[pos % 512..pos % 512 + count] == Content(d, m)[pos..pos + count]
  {
    var from, off := 512 * (pos / 512), pos % 512;
    assert pos == from + off;
    assert pos + count <= 512 * ((pos + count + 511) / 512);
    SliceOfBytes(d, m, from, off, count, readBuf);
  }

  lemma SliceOfBytes(d: Disk, m: Meta, from: nat, off: nat, count: nat, readBuf: seq<bv8>)
    requires ShapeOk(m) && from + off + count <= m.size && off + count <= |readBuf| && from + |readBuf| <= MAX_FILE_SIZE
    requires readBuf == Bytes(d, m.sectors, from, |readBuf|)
    ensures readBuf[off..off + count] == Content(d, m)[from + off..from + off + count]
  {
    hide ByteAt;
    var got := readBuf[off..off + count];
    var want := Content(d, m)[from + off..from + off + count];
    forall j | 0 <= j < count
      ensures got[j] == want[j]
    {
      assert Bytes(d, m.sectors, from, |readBuf|)[off + j] == ByteAt(d, m.sectors, from + (off + j));
      assert Content(d, m)[from + (off + j)] == ByteAt(d, m.sectors, from + (off + j));
    }
  }

  lemma ListedInRange(g: Geometry, d: Disk, bits: seq<bool>, ibits: seq<bool>, files: Files, open: seq<InCore>, k: nat)
    requires Consistent(g, d, bits, ibits, files, open) && k < |open| && DiskShape(g, d, |bits|)
    ensures |open[k].meta.sectors| == NDIRECT + 1
    ensures forall i :: 0 <= i < 140 ==> Ptr(d, open[k].meta.sectors, i) < |d|
  {
    var m := files[open[k].no];
    assert AllUsed(g, d, bits, m.sectors);
    hide Ptr;
    forall i | 0 <= i < 140
      ensures Ptr(d, m.sectors, i) < |d|
    {
    }
  }

  // ---- what inode_write promises ----

  /** A write returns the whole count and stores its bytes, or -1.  After -1 the file keeps its size
      and either its bytes or, if blocks ran out on the way, the new bytes up to its old end. */
  ghost predicate WriteOutcome(w: WriteReq, m0: Meta, c0: seq<bv8>, m2: Meta, c2: seq<bv8>, r: int, last: Sector) {
    && w.pos <= |c0| == m0.size && |c2| == m2.size && m2.ftype == m0.ftype
    && if r == -1 then
         m2.size == m0.size && (c2 == c0 || (m0.size - w.pos <= |w.data| && c2 == Spliced(c0, w.pos, w.data[..m0.size - w.pos])))
       else
         r == |w.data| && c2 == Spliced(c0, w.pos, Stored(w, last))
  }

  /** Every file but `no` has the bytes it had. */
  ghost predicate OthersSame(d0: Disk, files: Files, d: Disk, no: nat) {
    forall n :: n in files && n != no && ShapeOk(files[n]) ==> Content(d, files[n]) == Content(d0, files[n])
  }

  /** What a write through open inode `k` does to the store: only this inode's version changes, to m2. */
  ghost predicate Wrote(w: WriteReq, k: nat, d0: Disk, files0: Files, open0: seq<InCore>,
                        d: Disk, files: Files, open: seq<InCore>, r: int, m2: Meta, last: Sector)
  {
    && k < |open0| && ShapeOk(open0[k].meta) && ShapeOk(m2)
    && open == WithMeta(open0, k, m2) && files == files0[open0[k].no := m2]
    && WriteOutcome(w, open0[k].meta, Content(d0, open0[k].meta), m2, Content(d, m2), r, last)
    && OthersSame(d0, files0, d, open0[k].no)
  }

  lemma NothingWritten(g: Geometry, d: Disk, bits: seq<bool>, ibits: seq<bool>, files: Files, open: seq<InCore>, k: nat, w: WriteReq, last: Sector)
    requires Consistent(g, d, bits, ibits, files, open) && k < |open| && w.pos <= open[k].meta.size
    ensures Wrote(w, k, d, files, open, d, files, open, -1, open[k].meta, last)
  {
    hide *;
    OpenFacts(g, d, bits, ibits, files, open, k);
    SameIsWrote(d, files, open, k, w, last);
  }

  lemma SameIsWrote(d: Disk, files: Files, open: seq<InCore>, k: nat, w: WriteReq, last: Sector)
    requires k < |open| && w.pos <= open[k].meta.size && ShapeOk(open[k].meta)
    requires open[k].no in files && files[open[k].no] == open[k].meta
    ensures Wrote(w, k, d, files, open, d, files, open, -1, open[k].meta, last)
  {
    hide Content, Spliced;
    assert WithMeta(open, k, open[k].meta) == open;
  }

  /** Block `r` was taken from the bitmap and zeroed, and the rest of the data area kept. */
  ghost predicate Taken(g: Geometry, d0: Disk, bits0: seq<bool>, d: Disk, bits: seq<bool>, r: nat) {
    && g.dataLba <= r < g.dataLba + |bits0|
    && !bits0[r - g.dataLba] && bits == bits0[r - g.dataLba := true]
    && SectorAt(d, r) == ZeroSector()
    && (forall p: nat :: g.dataLba <= p && p != r ==> SectorAt(d, p) == SectorAt(d0, p))
  }

  /** The file has the indirect block it had, or had none and now has a fresh one. */
  ghost predicate IndirectReady(g: Geometry, d0: Disk, bits0: seq<bool>, s0: seq<nat>, d: Disk, bits: seq<bool>, ind: nat)
    requires |s0| == NDIRECT + 1
  {
    || (ind == s0[NDIRECT] && d == d0 && bits == bits0)
    || (s0[NDIRECT] == 0 && ind != 0 && Taken(g, d0, bits0, d, bits, ind))
  }

  lemma TakenInRange(g: Geometry, d0: Disk, bits0: seq<bool>, d: Disk, bits: seq<bool>, r: nat)
    requires Taken(g, d0, bits0, d, bits, r) && DiskShape(g, d, |bits|)
    ensures 0 < r < |d| && |bits| == |bits0|
  {
  }

  lemma IndirectInRange(g: Geometry, d: Disk, bits: seq<bool>, ibits: seq<bool>, files: Files, open: seq<InCore>, k: nat)
    requires Consistent(g, d, bits, ibits, files, open) && k < |open| && DiskShape(g, d, |bits|)
    ensures ShapeOk(open[k].meta) && open[k].meta.sectors[NDIRECT] < |d|
  {
    var m := files[open[k].no];
    assert Ptr(d, m.sectors, 140) == m.sectors[NDIRECT];
    assert AllUsed(g, d, bits, m.sectors);
  }

  lemma PreparedHolds(g: Geometry, d0: Disk, bits0: seq<bool>, s0: seq<nat>, d: Disk, bits: seq<bool>, blocks: seq<nat>, ind: nat)
    requires |s0| == NDIRECT + 1 && |blocks| == 140
    requires forall i :: 0 <= i < 140 ==> blocks[i] == Ptr(d, s0[NDIRECT := ind], i)
    requires IndirectReady(g, d0, bits0, s0, d, bits, ind)
    ensures Prepared(g, d0, bits0, s0, d, bits, blocks, ind)
  {
    hide SectorAt, U32;
    forall i | 0 <= i < 140
      ensures blocks[i] == Ptr(d0, s0, i)
    {
      if ind != s0[NDIRECT] && i >= NDIRECT {
        ZeroWords(i - NDIRECT);
      }
    }
    assert s0[NDIRECT := s0[NDIRECT]] == s0;
  }

  // ---- changes outside the data area ----

  ghost predicate DataSame(g: Geometry, d0: Disk, d1: Disk) {
    forall p: nat :: g.dataLba <= p ==> SectorAt(d1, p) == SectorAt(d0, p)
  }

  lemma DataSamePtrs(g: Geometry, d0: Disk, d1: Disk, bits: seq<bool>, files: Files, n: nat)
    requires PtrsOk(g, d0, bits, files) && n in files && DataSame(g, d0, d1)
    ensures PtrsKept(d0, d1, files[n]) && Content(d1, files[n]) == Content(d0, files[n])
    ensures AllUsed(g, d1, bits, files[n].sectors) && NoHoles(d1, files[n])
  {
    var sn := files[n].sectors;
    assert AllUsed(g, d0, bits, sn) && NoHoles(d0, files[n]);
    hide Ptr, SectorAt, Content;
    forall i | 0 <= i < PTRS && Ptr(d0, sn, i) != 0
      ensures SectorAt(d1, Ptr(d0, sn, i)) == SectorAt(d0, Ptr(d0, sn, i))
    {
      assert Used(g, bits, Ptr(d0, sn, i));
    }
    SameContent(d0, d1, files[n]);
  }

  lemma DataSamePtrsOk(g: Geometry, d0: Disk, d1: Disk, bits: seq<bool>, files: Files)
    requires PtrsOk(g, d0, bits, files) && DataSame(g, d0, d1)
    ensures PtrsOk(g, d1, bits, files)
    ensures forall n :: n in files ==> PtrsKept(d0, d1, files[n]) && Content(d1, files[n]) == Content(d0, files[n])
  {
    forall n | n in files
      ensures PtrsKept(d0, d1, files[n]) && Content(d1, files[n]) == Content(d0, files[n])
      ensures AllUsed(g, d1, bits, files[n].sectors) && NoHoles(d1, files[n])
    {
      DataSamePtrs(g, d0, d1, bits, files, n);
    }
    hide Ptr, Content, SectorAt, AllUsed, NoHoles;
    forall n, m, i, j | n in files && m in files && 0 <= i < PTRS && 0 <= j < PTRS
      && Ptr(d1, files[n].sectors, i) != 0 && Ptr(d1, files[n].sectors, i) == Ptr(d1, files[m].sectors, j)
      ensures n == m && i == j
    {
      assert Ptr(d0, files[n].sectors, i) == Ptr(d0, files[m].sectors, j);
    }
  }

  // ---- a new inode ----

  function EmptyMeta(ftype: nat): Meta {
    Meta(0, ftype, seq(NDIRECT + 1, _ => 0))
  }

  /** A file without bytes and blocks, of the type asked for. */
  predicate IsEmpty(m: Meta, ftype: nat) {
    m.size == 0 && m.ftype == ftype && |m.sectors| == 13 && forall i :: 0 <= i < 13 ==> m.sectors[i] == 0
  }

  lemma EmptyIs(ftype: nat)
    ensures IsEmpty(EmptyMeta(ftype), ftype)
  {
  }

  lemma EmptyPtrs(d: Disk, ftype: nat)
    requires ftype < 0x1_0000_0000
    ensures ShapeOk(EmptyMeta(ftype)) && NoHoles(d, EmptyMeta(ftype))
    ensures forall i :: 0 <= i < PTRS ==> Ptr(d, EmptyMeta(ftype).sectors, i) == 0
  {
  }

  lemma AddEmpty(g: Geometry, d: Disk, bits: seq<bool>, files: Files, no: nat, ftype: nat)
    requires PtrsOk(g, d, bits, files) && no !in files && no < MAX_FILES_PER_PART && ftype < 0x1_0000_0000
    ensures PtrsOk(g, d, bits, files[no := EmptyMeta(ftype)])
  {
    var files' := files[no := EmptyMeta(ftype)];
    EmptyPtrs(d, ftype);
    hide Ptr, ShapeOk, EmptyMeta;
    assert Shapes(files');
    forall m | m in files'
      ensures AllUsed(g, d, bits, files'[m].sectors) && NoHoles(d, files'[m])
    {
      if m != no {
        assert AllUsed(g, d, bits, files[m].sectors) && NoHoles(d, files[m]);
      }
    }
    forall a, b, i, j | a in files' && b in files' && 0 <= i < PTRS && 0 <= j < PTRS
      && Ptr(d, files'[a].sectors, i) != 0 && Ptr(d, files'[a].sectors, i) == Ptr(d, files'[b].sectors, j)
      ensures a == b && i == j
    {
      assert Ptr(d, files[a].sectors, i) == Ptr(d, files[b].sectors, j);
    }
  }

  /** The store after inode_alloc has synced the new inode. */
  lemma AllocConsistent(g: Geometry, d0: Disk, bits: seq<bool>, ibits: seq<bool>, files: Files, open: seq<InCore>,
                        no: nat, ftype: nat, rest: InodeImage)
    requires Consistent(g, d0, bits, ibits, files, open) && g.Wf() && g.dataLba < |d0|
    requires no < |ibits| && ibits[no] && no !in files && ftype < 0x1_0000_0000
    ensures no < MAX_FILES_PER_PART && g.tableLba + InodeSector(no) + 1 < |d0| && |EmptyMeta(ftype).sectors| == NDIRECT + 1
    ensures var d2 := Synced(d0, g, no, EncodeInode(EmptyMeta(ftype), rest));
      && Consistent(g, d2, bits, ibits, files[no := EmptyMeta(ftype)], [InCore(no, 1, EmptyMeta(ftype))] + open)
      && BytesKept(d0, d2, files)
  {
    ConsistentParts(g, d0, bits, ibits, files, open);
    assert no < MAX_FILES_PER_PART && g.tableLba + InodeSector(no) + 1 < |d0|;
    var m := EmptyMeta(ftype);
    EmptyPtrs(d0, ftype);
    var d2 := Synced(d0, g, no, EncodeInode(m, rest));
    DataSameRefl(g, d0);
    hide *;
    SyncedData(g, d0, d0, no, EncodeInode(m, rest));
    DataSamePtrsOk(g, d0, d2, bits, files);
    BytesKept1(d0, d2, files);
    AddEmpty(g, d2, bits, files, no, ftype);
    AllocSlots(g, d0, bits, ibits, files, open, no, m, d2, rest);
    AllocRest(g, d0, bits, ibits, files, open, no, m, d2);
  }

  lemma DataSameRefl(g: Geometry, d: Disk)
    ensures DataSame(g, d, d) && SameTable(g, d, d)
  {
  }

  lemma SyncedData(g: Geometry, d0: Disk, d1: Disk, no: nat, bytes: seq<bv8>)
    requires g.Wf() && no < MAX_FILES_PER_PART && |bytes| == INODE_SIZE && g.tableLba + InodeSector(no) + 1 < |d1|
    requires DataSame(g, d0, d1)
    ensures DataSame(g, d0, Synced(d1, g, no, bytes))
  {
    hide Synced, SectorAt;
    forall p: nat | g.dataLba <= p
      ensures SectorAt(Synced(d1, g, no, bytes), p) == SectorAt(d0, p)
    {
      SyncedOutsideTable(d1, g, no, bytes, p);
    }
  }

  lemma AllocSlots(g: Geometry, d0: Disk, bits: seq<bool>, ibits: seq<bool>, files: Files, open: seq<InCore>,
                   no: nat, m: Meta, d2: Disk, rest: InodeImage)
    requires Consistent(g, d0, bits, ibits, files, open) && g.Wf()
    requires no < MAX_FILES_PER_PART && no !in files && g.tableLba + InodeSector(no) + 1 < |d0|
    requires ShapeOk(m) && |m.sectors| == NDIRECT + 1 && d2 == Synced(d0, g, no, EncodeInode(m, rest))
    requires forall n :: n in files ==> PtrsKept(d0, d2, files[n])
    ensures SlotsOk(g, d2, files[no := m], [InCore(no, 1, m)] + open)
  {
    hide *;
    var open' := [InCore(no, 1, m)] + open;
    forall n | n in files[no := m]
      ensures SlotAgrees(g, d2, n, files[no := m][n], IsOpen(open', n))
    {
      if n == no {
        FitsOfShape(m);
        DecodeEncode(m, rest);
        SyncedOwnSlot(d0, g, no, EncodeInode(m, rest));
        SlotAgreesNow(g, d2, n, m, IsOpen(open', n));
      } else {
        SlotOf(g, d0, bits, ibits, files, open, n);
        SyncedOtherSlot(d0, g, no, EncodeInode(m, rest), n);
        SlotKept(g, d0, d2, n, files[n], IsOpen(open, n));
        MoreOpen(open, InCore(no, 1, m), n);
        MoreOpenAgrees(g, d2, n, files[n], IsOpen(open, n), IsOpen(open', n));
      }
    }
    IsSlotsOk(g, d2, files[no := m], open');
  }

  lemma IsSlotsOk(g: Geometry, d: Disk, files: Files, open: seq<InCore>)
    requires forall n :: n in files ==> SlotAgrees(g, d, n, files[n], IsOpen(open, n))
    ensures SlotsOk(g, d, files, open)
  {
  }

  lemma FitsOfShape(m: Meta)
    requires ShapeOk(m)
    ensures m.Fits()
  {
  }

  lemma SlotOf(g: Geometry, d: Disk, bits: seq<bool>, ibits: seq<bool>, files: Files, open: seq<InCore>, n: nat)
    requires Consistent(g, d, bits, ibits, files, open) && n in files
    ensures SlotAgrees(g, d, n, files[n], IsOpen(open, n)) && n < MAX_FILES_PER_PART
  {
    hide SlotAgrees, OpenOk, IsOpen, Distinct, AllUsed, NoHoles;
  }

  lemma SlotAgreesNow(g: Geometry, d: Disk, n: nat, m: Meta, isOpen: bool)
    requires DecodeInode(Slot(d, g, n)) == m
    ensures SlotAgrees(g, d, n, m, isOpen)
  {
  }

  lemma MoreOpen(open: seq<InCore>, e: InCore, n: nat)
    ensures IsOpen(open, n) ==> IsOpen([e] + open, n)
  {
    if IsOpen(open, n) {
      var j :| 0 <= j < |open| && open[j].no == n;
      assert ([e] + open)[j + 1].no == n;
    }
  }

  lemma AllocRest(g: Geometry, d0: Disk, bits: seq<bool>, ibits: seq<bool>, files: Files, open: seq<InCore>, no: nat, m: Meta, d2: Disk)
    requires Consistent(g, d0, bits, ibits, files, open) && no < |ibits| && ibits[no] && no !in files
    requires PtrsOk(g, d2, bits, files[no := m])
    requires SlotsOk(g, d2, files[no := m], [InCore(no, 1, m)] + open)
    ensures Consistent(g, d2, bits, ibits, files[no := m], [InCore(no, 1, m)] + open)
  {
    hide PtrsOk, SlotsOk;
    MoreOpen(open, InCore(no, 1, m), 0);
    var open' := [InCore(no, 1, m)] + open;
    assert forall j :: 1 <= j < |open'| ==> open'[j] == open[j - 1];
    PtrsOkShapes(g, d2, bits, files[no := m]);
    assert OpenOk(open', files[no := m]);
  }

  lemma InodeBitmapWritten(g: Geometry, d0: Disk, bytes: seq<bv8>, s: Sector)
    requires g.Wf() && BitmapOnDisk(g, d0, bytes) && g.inodeBitmapLba < |d0|
    ensures BitmapOnDisk(g, d0[g.inodeBitmapLba := s], bytes)
    ensures DataSame(g, d0, d0[g.inodeBitmapLba := s]) && SameTable(g, d0, d0[g.inodeBitmapLba := s])
  {
    var d1 := d0[g.inodeBitmapLba := s];
    forall k | 0 <= k < g.bitmapSects
      ensures SectorAt(d1, g.bitmapLba + k) == bytes[512 * k..512 * k + 512]
    {
      assert SectorAt(d1, g.bitmapLba + k) == SectorAt(d0, g.bitmapLba + k);
    }
  }

  /** Neither taking an inode number nor a change outside table and data area disturbs the store. */
  lemma ConsistentCarry(g: Geometry, d0: Disk, d1: Disk, bits: seq<bool>, ibits: seq<bool>, no: nat, files: Files, open: seq<InCore>)
    requires Consistent(g, d0, bits, ibits, files, open) && g.Wf() && no < |ibits|
    requires DataSame(g, d0, d1) && SameTable(g, d0, d1)
    ensures Consistent(g, d1, bits, ibits[no := true], files, open)
    ensures BytesKept(d0, d1, files)
  {
    hide *;
    ConsistentParts(g, d0, bits, ibits, files, open);
    DataSamePtrsOk(g, d0, d1, bits, files);
    BytesKept1(d0, d1, files);
    forall n | n in files
      ensures SlotAgrees(g, d1, n, files[n], IsOpen(open, n))
    {
      SlotOf(g, d0, bits, ibits, files, open, n);
      SlotSame(g, d0, d1, n);
      SlotKept(g, d0, d1, n, files[n], IsOpen(open, n));
    }
    IsSlotsOk(g, d1, files, open);
    IsConsistent(g, d1, bits, ibits[no := true], files, open);
  }

  lemma BytesKept1(d0: Disk, d1: Disk, files: Files)
    requires forall n :: n in files ==> ShapeOk(files[n]) && Content(d1, files[n]) == Content(d0, files[n])
    ensures BytesKept(d0, d1, files)
  {
    hide Content;
  }

  lemma ConsistentParts(g: Geometry, d: Disk, bits: seq<bool>, ibits: seq<bool>, files: Files, open: seq<InCore>)
    requires Consistent(g, d, bits, ibits, files, open)
    ensures PtrsOk(g, d, bits, files) && OpenOk(open, files) && SlotsOk(g, d, files, open)
    ensures |ibits| == MAX_FILES_PER_PART && 0 in files && IsOpen(open, 0)
    ensures forall n :: n in files ==> n < |ibits| && ibits[n] && ShapeOk(files[n])
  {
  }

  lemma IsConsistent(g: Geometry, d: Disk, bits: seq<bool>, ibits: seq<bool>, files: Files, open: seq<InCore>)
    requires PtrsOk(g, d, bits, files) && OpenOk(open, files) && SlotsOk(g, d, files, open)
    requires |ibits| == MAX_FILES_PER_PART && 0 in files && IsOpen(open, 0)
    requires forall n :: n in files ==> n < |ibits| && ibits[n]
    ensures Consistent(g, d, bits, ibits, files, open)
  {
  }

  lemma SyncedBitmap(g: Geometry, d: Disk, no: nat, bytes: seq<bv8>, bitmap: seq<bv8>)
    requires g.Wf() && no < MAX_FILES_PER_PART && |bytes| == INODE_SIZE && g.tableLba + InodeSector(no) + 1 < |d|
    requires BitmapOnDisk(g, d, bitmap)
    ensures BitmapOnDisk(g, Synced(d, g, no, bytes), bitmap)
  {
    hide Synced, SectorAt;
    forall k | 0 <= k < g.bitmapSects
      ensures SectorAt(Synced(d, g, no, bytes), g.bitmapLba + k) == bitmap[512 * k..512 * k + 512]
    {
      SyncedOutsideTable(d, g, no, bytes, g.bitmapLba + k);
    }
  }

  lemma NumberFree(g: Geometry, d: Disk, bits: seq<bool>, ibits: seq<bool>, files: Files, open: seq<InCore>)
    requires Consistent(g, d, bits, ibits, files, open)
    ensures |ibits| == MAX_FILES_PER_PART && BytesKept(d, d, files)
    ensures forall i: nat :: i < |ibits| && !ibits[i] ==> i !in files
  {
    hide PtrsOk, SlotsOk, OpenOk, Content;
  }

  ghost predicate AllSet(bits: seq<bool>) {
    forall i :: 0 <= i < |bits| ==> bits[i]
  }

  lemma IsAllSet(bits: seq<bool>)
    ensures AllSet(bits) <==> forall i :: 0 <= i < |bits| ==> bits[i]
  {
  }

  /** A new empty inode of that type is at the head of the list, with a number no file had. */
  ghost predicate Allocated(ftype: nat, files0: Files, open0: seq<InCore>, files: Files, open: seq<InCore>) {
    && |open| > 0 && open[0].no !in files0
    && open == [InCore(open[0].no, 1, EmptyMeta(ftype))] + open0
    && files == files0[open[0].no := EmptyMeta(ftype)]
  }

  lemma IsAllocated(ftype: nat, files0: Files, open0: seq<InCore>, no: nat)
    requires no !in files0
    ensures Allocated(ftype, files0, open0, files0[no := EmptyMeta(ftype)], [InCore(no, 1, EmptyMeta(ftype))] + open0)
  {
  }

  lemma BytesKeptTrans(d0: Disk, d1: Disk, d2: Disk, files: Files)
    requires BytesKept(d0, d1, files) && BytesKept(d1, d2, files)
    ensures BytesKept(d0, d2, files)
  {
    hide Content;
  }

  /** Every file has the bytes it had. */
  ghost predicate BytesKept(d0: Disk, d: Disk, files: Files) {
    forall n :: n in files && ShapeOk(files[n]) ==> Content(d, files[n]) == Content(d0, files[n])
  }

  // ---- freeing an inode ----

  /** From (d0, bits0) the blocks in `gone` were given back and nothing else in the data area changed. */
  ghost predicate Freed(g: Geometry, d0: Disk, bits0: seq<bool>, gone: seq<nat>, d: Disk, bits: seq<bool>) {
    && |bits| == |bits0|
    && (forall p: nat :: g.dataLba <= p && p !in gone ==> SectorAt(d, p) == SectorAt(d0, p))
    && (forall p: nat :: Used(g, bits, p) <==> Used(g, bits0, p) && p !in gone)
  }

  ghost predicate Lists(d: Disk, m: Meta, p: nat) {
    |m.sectors| == NDIRECT + 1 && exists i :: 0 <= i < 140 && Ptr(d, m.sectors, i) == p
  }

  /** The block bitmap once the blocks that a file lists are given back. */
  ghost function BitsWithout(g: Geometry, bits: seq<bool>, d: Disk, m: Meta): (r: seq<bool>)
    ensures |r| == |bits|
  {
    seq(|bits|, i requires 0 <= i < |bits| => bits[i] && !Lists(d, m, g.dataLba + i))
  }

  lemma FreedBits(g: Geometry, d0: Disk, bits0: seq<bool>, m: Meta, blocks: seq<nat>, d: Disk, bits: seq<bool>)
    requires |m.sectors| == NDIRECT + 1 && |blocks| == 140 && forall i :: 0 <= i < 140 ==> blocks[i] == Ptr(d0, m.sectors, i)
    requires Freed(g, d0, bits0, blocks, d, bits)
    ensures bits == BitsWithout(g, bits0, d0, m)
  {
    hide Ptr, SectorAt;
    forall i | 0 <= i < |bits0| ensures bits[i] == (bits0[i] && !Lists(d0, m, g.dataLba + i)) {
      var p: nat := g.dataLba + i;
      assert Used(g, bits, p) <==> bits[i];
      assert Used(g, bits0, p) <==> bits0[i];
      assert p in blocks <==> Lists(d0, m, p);
    }
  }

  /** An empty file gives no block back. */
  lemma EmptyFrees(g: Geometry, bits: seq<bool>, d: Disk, ftype: nat)
    requires g.dataLba > 0 && ftype < 0x1_0000_0000
    ensures BitsWithout(g, bits, d, EmptyMeta(ftype)) == bits
  {
    EmptyPtrs(d, ftype);
    hide Ptr, EmptyMeta;
  }

  lemma FreedNothing(g: Geometry, d: Disk, bits: seq<bool>)
    ensures Freed(g, d, bits, [], d, bits)
  {
  }

  lemma FreedStep(g: Geometry, d0: Disk, bits0: seq<bool>, blocks: seq<nat>, i: nat, d: Disk, bits: seq<bool>, d1: Disk, bits1: seq<bool>)
    requires i < |blocks| && Freed(g, d0, bits0, blocks[..i], d, bits) && g.dataLba > 0
    requires blocks[i] == 0 ==> d1 == d && bits1 == bits
    requires blocks[i] != 0 ==> Used(g, bits, blocks[i]) && bits1 == bits[blocks[i] - g.dataLba := false]
                                && forall p: nat :: g.dataLba <= p && p != blocks[i] ==> SectorAt(d1, p) == SectorAt(d, p)
    ensures Freed(g, d0, bits0, blocks[..i + 1], d1, bits1)
  {
    hide SectorAt;
    assert blocks[..i + 1] == blocks[..i] + [blocks[i]];
  }

  lemma StillUsed(g: Geometry, d0: Disk, bits0: seq<bool>, blocks: seq<nat>, i: nat, d: Disk, bits: seq<bool>)
    requires i < 140 && BlocksOk(g, bits0, 0, blocks) && Freed(g, d0, bits0, blocks[..i], d, bits)
    ensures blocks[i] != 0 ==> Used(g, bits, blocks[i])
  {
    assert blocks[i] != 0 ==> blocks[i] !in blocks[..i];
  }

  /** The block list of a file is distinct and in use. */
  lemma ListedOk(g: Geometry, d: Disk, bits: seq<bool>, files: Files, n: nat, blocks: seq<nat>)
    requires PtrsOk(g, d, bits, files) && n in files && |blocks| == 140
    requires forall i :: 0 <= i < 140 ==> blocks[i] == Ptr(d, files[n].sectors, i)
    ensures BlocksOk(g, bits, 0, blocks)
  {
    assert AllUsed(g, d, bits, files[n].sectors);
    hide Ptr;
    forall b, c | 0 <= b < c < 140 && blocks[b] != 0
      ensures blocks[b] != blocks[c]
    {
      assert Ptr(d, files[n].sectors, b) == blocks[b] && Ptr(d, files[n].sectors, c) == blocks[c];
    }
  }

  lemma FreedPtrsOk(g: Geometry, d0: Disk, bits0: seq<bool>, files: Files, n: nat, blocks: seq<nat>, d: Disk, bits: seq<bool>)
    requires PtrsOk(g, d0, bits0, files) && n in files && |blocks| == 140
    requires forall i :: 0 <= i < 140 ==> blocks[i] == Ptr(d0, files[n].sectors, i)
    requires Freed(g, d0, bits0, blocks, d, bits)
    ensures OnlyTouched(g, d0, bits0, files[n].sectors, d)
    ensures PtrsOk(g, d, bits, files - {n})
  {
    hide Ptr, SectorAt;
    forall p: nat | !PointsTo(d0, files[n].sectors, p)
      ensures p !in blocks
    {
      assert forall i :: 0 <= i < 140 ==> Ptr(d0, files[n].sectors, i) != p;
    }
    RemovePtrsOk(g, d0, bits0, files, n, d, bits);
  }

  /** inode_free leaks the indirect block: its bit stays set although no file points to it any more. */
  lemma IndirectLeaks(g: Geometry, d0: Disk, bits0: seq<bool>, files: Files, n: nat, blocks: seq<nat>, d: Disk, bits: seq<bool>)
    requires PtrsOk(g, d0, bits0, files) && n in files && |blocks| == 140
    requires forall i :: 0 <= i < 140 ==> blocks[i] == Ptr(d0, files[n].sectors, i)
    requires Freed(g, d0, bits0, blocks, d, bits)
    requires files[n].sectors[NDIRECT] != 0
    ensures Used(g, bits, files[n].sectors[NDIRECT])
    ensures forall m, i :: m in files && m != n && 0 <= i < PTRS ==> Ptr(d, files[m].sectors, i) != files[n].sectors[NDIRECT]
  {
    var ind := files[n].sectors[NDIRECT];
    assert Ptr(d0, files[n].sectors, 140) == ind;
    assert AllUsed(g, d0, bits0, files[n].sectors);
    FreedPtrsOk(g, d0, bits0, files, n, blocks, d, bits);
    hide Ptr, SectorAt;
    assert ind !in blocks;
    forall m, i | m in files && m != n && 0 <= i < PTRS
      ensures Ptr(d, files[m].sectors, i) != ind
    {
      OtherFileKeeps(g, d0, bits0, files, n, d, m);
      assert Ptr(d, files[m].sectors, i) == Ptr(d0, files[m].sectors, i);
    }
  }

  lemma FreeConsistent(g: Geometry, d0: Disk, bits0: seq<bool>, ibits: seq<bool>, files: Files, open: seq<InCore>, k: nat,
                       blocks: seq<nat>, d: Disk, bits: seq<bool>)
    requires Consistent(g, d0, bits0, ibits, files, open) && g.Wf() && k < |open| && open[k].no != 0 && open[k].opens == 1
    requires |open[k].meta.sectors| == NDIRECT + 1 && |blocks| == 140
    requires forall i :: 0 <= i < 140 ==> blocks[i] == Ptr(d0, open[k].meta.sectors, i)
    requires Freed(g, d0, bits0, blocks, d, bits) && SameTable(g, d0, d)
    ensures open[k].no < |ibits|
    ensures Consistent(g, d, bits, ibits[open[k].no := false], files - {open[k].no}, Closed(open, k))
    ensures BytesKept(d0, d, files - {open[k].no})
  {
    hide *;
    var no := open[k].no;
    OpenFacts(g, d0, bits0, ibits, files, open, k);
    ConsistentParts(g, d0, bits0, ibits, files, open);
    FreedPtrsOk(g, d0, bits0, files, no, blocks, d, bits);
    OthersAreSame(g, d0, bits0, files, no, d);
    OthersKept(d0, files, d, no);
    ShorterList(open, files, k, open[k].meta);
    var files', open' := files - {no}, Closed(open, k);
    forall n | n in files'
      ensures SlotAgrees(g, d, n, files'[n], IsOpen(open', n))
    {
      SlotOf(g, d0, bits0, ibits, files, open, n);
      OtherPtrsKept(g, d0, bits0, files, no, d, n);
      SlotSame(g, d0, d, n);
      SlotKept(g, d0, d, n, files[n], IsOpen(open, n));
    }
    IsSlotsOk(g, d, files', open');
    IsConsistent(g, d, bits, ibits[no := false], files', open');
  }

  lemma OthersKept(d0: Disk, files: Files, d: Disk, no: nat)
    requires OthersSame(d0, files, d, no)
    ensures BytesKept(d0, d, files - {no})
  {
    hide Content;
  }

  lemma OtherPtrsKept(g: Geometry, d0: Disk, bits0: seq<bool>, files: Files, no: nat, d: Disk, n: nat)
    requires PtrsOk(g, d0, bits0, files) && no in files && OnlyTouched(g, d0, bits0, files[no].sectors, d)
    requires n in files && n != no
    ensures PtrsKept(d0, d, files[n])
  {
    OthersPtrsSame(g, d0, bits0, files, no, d);
  }

  /** After a block is zeroed and its bitmap sector rewritten. */
  lemma BlockFreed(g: Geometry, d: Disk, bytes: seq<bv8>, bytes': seq<bv8>, lba: nat)
    requires g.Wf() && BitmapOnDisk(g, d, bytes) && |bytes'| == |bytes| && g.dataLba <= lba < |d| && lba - g.dataLba < 8 * |bytes|
    requires forall j :: 0 <= j < |bytes| && j != (lba - g.dataLba) / 8 ==> bytes'[j] == bytes[j]
    ensures var sec := (lba - g.dataLba) / BITS_PER_SECTOR;
      && 512 * sec + 512 <= |bytes'| && g.bitmapLba + sec < |d|
      && var d1 := d[lba := ZeroSector()][g.bitmapLba + sec := bytes'[512 * sec..512 * sec + 512]];
      && BitmapOnDisk(g, d1, bytes') && SameTable(g, d, d1) && SectorAt(d1, lba) == ZeroSector()
      && (forall p: nat :: g.dataLba <= p && p != lba ==> SectorAt(d1, p) == SectorAt(d, p))
  {
    var sec := (lba - g.dataLba) / BITS_PER_SECTOR;
    DataSameRefl(g, d);
    DataWritten(g, d, d, bytes, lba, ZeroSector());
    hide BitmapOnDisk;
    BitmapLen(g, d, bytes);
    BitmapSectorWritten(g, d[lba := ZeroSector()], bytes, bytes', sec);
  }

  lemma BitmapLen(g: Geometry, d: Disk, bytes: seq<bv8>)
    requires BitmapOnDisk(g, d, bytes)
    ensures |bytes| == 512 * g.bitmapSects
  {
  }

  // ---- a freshly formatted partition ----

  function RootMeta(g: Geometry, size: nat): Meta {
    Meta(size, 2, [g.dataLba] + seq(NDIRECT, _ => 0))
  }

  /** The disk as formatting leaves it, before the root slot is filled in: bitmap, inode bitmap, empty
      table, the root directory's block, and whatever the rest of the data area held. */
  function Blank(g: Geometry, d0: Disk, bytes: seq<bv8>, inodeBytes: Sector, root: Sector): (d: Disk)
    requires |bytes| == 512 * g.bitmapSects
    ensures |d| == |d0|
  {
    seq(|d0|, lba requires 0 <= lba < |d0| => BlankSector(g, d0, bytes, inodeBytes, root, lba))
  }

  function BlankSector(g: Geometry, d0: Disk, bytes: seq<bv8>, inodeBytes: Sector, root: Sector, lba: nat): Sector
    requires |bytes| == 512 * g.bitmapSects && lba < |d0|
  {
    if g.bitmapLba <= lba < g.bitmapLba + g.bitmapSects then bytes[512 * (lba - g.bitmapLba)..512 * (lba - g.bitmapLba) + 512]
    else if lba == g.inodeBitmapLba then inodeBytes
    else if g.tableLba <= lba < g.dataLba then ZeroSector()
    else if lba == g.dataLba then root
    else d0[lba]
  }

  lemma BlankBitmap(g: Geometry, d0: Disk, bytes: seq<bv8>, inodeBytes: Sector, root: Sector)
    requires |bytes| == 512 * g.bitmapSects && g.Wf() && g.dataLba < |d0|
    ensures BitmapOnDisk(g, Blank(g, d0, bytes, inodeBytes, root), bytes)
    ensures SectorAt(Blank(g, d0, bytes, inodeBytes, root), g.dataLba) == root
  {
  }

  lemma RootPtrs(g: Geometry, d: Disk, size: nat)
    requires g.Wf() && 0 < size <= 512
    ensures ShapeOk(RootMeta(g, size)) && NoHoles(d, RootMeta(g, size))
    ensures forall i :: 0 <= i < PTRS ==> Ptr(d, RootMeta(g, size).sectors, i) == if i == 0 then g.dataLba else 0
  {
    var s := RootMeta(g, size).sectors;
    assert s[0] == g.dataLba && forall i :: 1 <= i < NDIRECT + 1 ==> s[i] == 0;
  }

  lemma FormatConsistent(g: Geometry, d: Disk, bits: seq<bool>, ibits: seq<bool>, size: nat)
    requires g.Wf() && 0 < size <= 512 && |bits| > 0 && bits[0] && |ibits| == MAX_FILES_PER_PART && ibits[0]
    requires DecodeInode(Slot(d, g, 0)) == RootMeta(g, size)
    ensures Consistent(g, d, bits, ibits, map[0 := RootMeta(g, size)], [InCore(0, 1, RootMeta(g, size))])
  {
    var m := RootMeta(g, size);
    RootPtrs(g, d, size);
    SlotAgreesNow(g, d, 0, m, true);
    hide Ptr, RootMeta, DecodeInode, SlotAgrees, Slot;
    var files: Files := map[0 := m];
    var open := [InCore(0, 1, m)];
    assert AllUsed(g, d, bits, m.sectors);
    assert PtrsOk(g, d, bits, files);
    assert open[0].no == 0;
    assert IsOpen(open, 0);
    IsConsistent(g, d, bits, ibits, files, open);
  }

  lemma WfFacts(g: Geometry)
    requires g.Wf()
    ensures 0 < g.bitmapSects && 0 < g.dataLba && g.tableLba + 1 < g.dataLba && INODE_SIZE == 160
    ensures BITS_PER_SECTOR == 4096 && MAX_FILES_PER_PART == 4096 && |RootMeta(g, 1).sectors| == NDIRECT + 1
    ensures forall size :: |RootMeta(g, size).sectors| == NDIRECT + 1
    ensures InodeSector(0) == 0
  {
  }

  lemma DiskShapeOf(g: Geometry, d: Disk, nbits: nat)
    requires g.Wf() && nbits == 4096 * g.bitmapSects && g.dataLba + nbits <= |d|
    ensures DiskShape(g, d, nbits)
  {
  }

  lemma FormattedDisk(g: Geometry, d0: Disk, bytes: seq<bv8>, inodeBytes: Sector, root: Sector, size: nat)
    requires |bytes| == 512 * g.bitmapSects && g.Wf() && g.dataLba < |d0| && 0 < size <= 512
    ensures var m := RootMeta(g, size);
      var blank := Blank(g, d0, bytes, inodeBytes, root);
      var d := Synced(blank, g, 0, EncodeInode(m, seq(INODE_SIZE, _ => 0)));
      && BitmapOnDisk(g, d, bytes)
      && DecodeInode(Slot(d, g, 0)) == m
      && ShapeOk(m) && Content(d, m) == root[..size]
  {
    var m := RootMeta(g, size);
    var blank := Blank(g, d0, bytes, inodeBytes, root);
    var image := seq(INODE_SIZE, _ => 0);
    var d := Synced(blank, g, 0, EncodeInode(m, image));
    BlankBitmap(g, d0, bytes, inodeBytes, root);
    RootPtrs(g, d, size);
    hide Blank, Synced, EncodeInode, DecodeInode, BitmapOnDisk, Slot, Ptr, SectorAt, RootMeta;
    SyncedBitmap(g, blank, 0, EncodeInode(m, image), bytes);
    DecodeEncode(m, image);
    SyncedOwnSlot(blank, g, 0, EncodeInode(m, image));
    SyncedOutsideTable(blank, g, 0, EncodeInode(m, image), g.dataLba);
    RootContent(g, d, m, root);
  }

  lemma TableByteZero(g: Geometry, d0: Disk, bytes: seq<bv8>, inodeBytes: Sector, root: Sector, a: nat)
    requires |bytes| == 512 * g.bitmapSects && g.Wf() && g.dataLba < |d0| && a < 512 * INODE_TABLE_SECTS
    ensures FlatByte(Blank(g, d0, bytes, inodeBytes, root), 512 * g.tableLba + a) == 0
  {
    var lba := g.tableLba + a / 512;
    assert (512 * g.tableLba + a) / 512 == lba;
    assert g.tableLba <= lba < g.dataLba;
  }

  /** A formatted partition has the inode bitmap in its sector and nothing in any slot but the root's. */
  lemma FormattedTable(g: Geometry, d0: Disk, bytes: seq<bv8>, inodeBytes: Sector, root: Sector, image: seq<bv8>)
    requires |bytes| == 512 * g.bitmapSects && g.Wf() && g.dataLba < |d0| && |image| == INODE_SIZE
    ensures var d := Synced(Blank(g, d0, bytes, inodeBytes, root), g, 0, image);
      && SectorAt(d, g.inodeBitmapLba) == inodeBytes
      && (forall no: nat :: 0 < no < MAX_FILES_PER_PART ==> Slot(d, g, no) == seq(INODE_SIZE, _ => 0))
  {
    var blank := Blank(g, d0, bytes, inodeBytes, root);
    assert SectorAt(blank, g.inodeBitmapLba) == inodeBytes;
    hide Blank, Synced, FlatByte, SectorAt, Slot;
    SyncedOutsideTable(blank, g, 0, image, g.inodeBitmapLba);
    forall no: nat | 0 < no < MAX_FILES_PER_PART ensures Slot(Synced(blank, g, 0, image), g, no) == seq(INODE_SIZE, _ => 0) {
      SyncedOtherSlot(blank, g, 0, image, no);
      forall i | 0 <= i < INODE_SIZE ensures Slot(blank, g, no)[i] == 0 {
        SlotIsFlat(blank, g, no, i);
        TableByteZero(g, d0, bytes, inodeBytes, root, INODE_SIZE * no + i);
      }
    }
  }

  lemma RootContent(g: Geometry, d: Disk, m: Meta, root: Sector)
    requires ShapeOk(m) && 0 < m.size <= 512 && g.dataLba > 0
    requires Ptr(d, m.sectors, 0) == g.dataLba && SectorAt(d, g.dataLba) == root
    ensures Content(d, m) == root[..m.size]
  {
    hide Ptr, SectorAt;
  }
}
