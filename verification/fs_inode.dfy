/** fs/inode.c: reading, writing, creating and freeing inodes, on a disk that changes sector by sector. */
module FsInode {
  import opened FsFormat
  import opened FsVolume
  import opened FsStore
  import opened Bitmaps

  class FileStore {
    const geo: Geometry
    const blockBitmap: Bitmap
    const inodeBitmap: Bitmap
    var disk: Disk
    /** The open_inodes list of the partition, newest first. */
    var open: seq<InCore>
    /** The current version of every inode that inode_alloc has given out and inode_free has not taken back. */
    ghost var files: Files

    /** A partition formatted by partition_format, mounted, with its root directory opened: `d0` is what
        the disk held before, `root` the block with the first directory entries. */
    constructor Format(secCnt: nat, startLba: nat, d0: Disk, root: Sector, rootSize: nat)
      requires SbInit(secCnt, startLba).Wf() && 0 < rootSize <= 512
      requires SbInit(secCnt, startLba).dataLba + BITS_PER_SECTOR * SbInit(secCnt, startLba).bitmapSects <= |d0|
      ensures Valid() && fresh(blockBitmap.bits) && fresh(inodeBitmap.bits)
      ensures LaidOut(secCnt, startLba, geo) && secCnt <= |blockBitmap.Value()| == 4096 * geo.bitmapSects
      ensures files == map[0 := RootMeta(geo, rootSize)] && open == [InCore(0, 1, RootMeta(geo, rootSize))]
      ensures ShapeOk(files[0]) && Content(disk, files[0]) == root[..rootSize]
      ensures blockBitmap.Value() == seq(|blockBitmap.Value()|, _ => false)[0 := true]
      ensures inodeBitmap.Value() == seq(MAX_FILES_PER_PART, _ => false)[0 := true]
      ensures SectorAt(disk, geo.inodeBitmapLba) == inodeBitmap.bits[..]
      ensures forall no: nat :: 0 < no < MAX_FILES_PER_PART ==> Slot(disk, geo, no) == seq(INODE_SIZE, _ => 0)
    {
      hide *;
      var g := SbInit(secCnt, startLba);
      SbInitWf(secCnt, startLba);
      Covers(secCnt, startLba, g);
      WfFacts(g);
      var bb := new Bitmap(512 * g.bitmapSects);
      bb.Set(0, true);
      var ib := new Bitmap(512);
      ib.Set(0, true);
      var blank := Blank(g, d0, bb.bits[..], ib.bits[..], root);
      var m := RootMeta(g, rootSize);
      FormattedDisk(g, d0, bb.bits[..], ib.bits[..], root, rootSize);
      FormattedTable(g, d0, bb.bits[..], ib.bits[..], root, EncodeInode(m, seq(INODE_SIZE, _ => 0)));
      var d := Synced(blank, g, 0, EncodeInode(m, seq(INODE_SIZE, _ => 0)));
      FormatConsistent(g, d, bb.Value(), ib.Value(), rootSize);
      geo, blockBitmap, inodeBitmap, disk := g, bb, ib, d;
      open, files := [InCore(0, 1, m)], map[0 := m];
      new;
      DiskShapeOf(g, d, |bb.Value()|);
      FrameFrom(d);
      ValidFrom();
    }

    ghost predicate Frame()
      reads this`disk, blockBitmap.bits
    {
      && blockBitmap != inodeBitmap && blockBitmap.bits != inodeBitmap.bits
      && DiskShape(geo, disk, |blockBitmap.Value()|)
      && BitmapOnDisk(geo, disk, blockBitmap.bits[..])
      && 8 * inodeBitmap.bits.Length == MAX_FILES_PER_PART
    }

    ghost predicate Valid()
      reads this, blockBitmap.bits, inodeBitmap.bits
    {
      Frame() && Consistent(geo, disk, blockBitmap.Value(), inodeBitmap.Value(), files, open)
    }

    method IdeRead(lba: nat) returns (s: Sector)
      requires lba < |disk|
      ensures s == SectorAt(disk, lba)
    {
      s := disk[lba];
    }

    method IdeWrite(lba: nat, s: Sector)
      requires lba < |disk|
      modifies this`disk
      ensures disk == old(disk)[lba := s]
    {
      disk := disk[lba := s];
    }

    /** block_bitmap_alloc: the first free block, recorded in memory and on disk. */
    method BlockAlloc() returns (r: int)
      requires Frame()
      modifies this`disk, blockBitmap.bits
      ensures Frame()
      ensures r == -1 ==> disk == old(disk) && blockBitmap.Value() == old(blockBitmap.Value())
                          && Full()
      ensures r != -1 ==> geo.dataLba <= r < geo.dataLba + |blockBitmap.Value()|
                          && !old(blockBitmap.Value())[r - geo.dataLba]
                          && blockBitmap.Value() == old(blockBitmap.Value())[r - geo.dataLba := true]
      ensures r == -1 <==> ClearBits(old(blockBitmap.Value())) == 0
      ensures blockBitmap.Value() == TakeFirst(old(blockBitmap.Value()), 1)
      ensures SameTable(geo, old(disk), disk)
      ensures forall p: nat :: geo.dataLba <= p ==> SectorAt(disk, p) == SectorAt(old(disk), p)
    {
      hide Bits, BitmapOnDisk, SameTable, SectorAt, DiskShape, Frame, TakeFirst, ClearBits, Full;
      FrameFacts();
      BytesAndBits();
      ghost var d0, bits0, bytes0 := disk, blockBitmap.Value(), blockBitmap.bits[..];
      var idx := blockBitmap.AllocABit();
      FirstTaken(bits0, idx);
      FullIs(idx, bits0);
      SectorsStay(geo, d0);
      if idx == -1 {
        FrameFrom(d0);
        return -1;
      }
      BytesAndBits();
      var offSec := idx / BITS_PER_SECTOR;
      BitWritten(geo, d0, bytes0, blockBitmap.bits[..], idx);
      SliceIs(offSec);
      var sector := blockBitmap.bits[offSec * 512..offSec * 512 + 512];
      IdeWrite(geo.bitmapLba + offSec, sector);
      FrameFrom(d0);
      r := geo.dataLba + idx;
    }

    lemma BytesAndBits()
      ensures |blockBitmap.Value()| == 8 * blockBitmap.bits.Length
    {
    }

    lemma FullIs(idx: int, bits0: seq<bool>)
      requires idx == -1 ==> blockBitmap.Value() == bits0 && forall i :: 0 <= i < |bits0| ==> bits0[i]
      ensures idx == -1 ==> Full()
    {
    }

    lemma SectorsStay(g: Geometry, d: Disk)
      ensures SameTable(g, d, d)
    {
    }

    lemma SliceIs(sec: nat)
      requires 512 * sec + 512 <= blockBitmap.bits.Length
      ensures blockBitmap.bits[..][512 * sec..512 * sec + 512] == blockBitmap.bits[sec * 512..sec * 512 + 512]
    {
    }

    /** get_blocks_lba: the twelve direct blocks, then the indirect block read over the rest. */
    method GetBlocksLba(sectors: seq<nat>) returns (blocks: seq<nat>)
      requires |sectors| == NDIRECT + 1 && sectors[NDIRECT] < |disk|
      ensures |blocks| == 140
      ensures forall i :: 0 <= i < 140 ==> blocks[i] == Ptr(disk, sectors, i)
    {
      hide U32;
      blocks := sectors[..NDIRECT] + seq(128, _ => 0);
      if sectors[NDIRECT] != 0 {
        var s := IdeRead(sectors[NDIRECT]);
        blocks := blocks[..NDIRECT] + seq(128, i requires 0 <= i < 128 => U32(s, 4 * i));
      }
    }

    method StoreFirst(w: WriteReq, lba: nat)
      requires w.First() < w.End() && lba < |disk|
      modifies this`disk
      ensures disk == old(disk)[lba := w.NewBlock(w.First(), SectorAt(old(disk), lba))]
    {
      FirstBlock(w, SectorAt(disk, lba));
      hide *;
      var blockOff := w.pos % 512;
      var aSec := w.First() == w.End() - 1;
      var buf := IdeRead(lba);
      var cpyCnt := if aSec then |w.data| else 512 - blockOff;
      IdeWrite(lba, Patch(buf, blockOff, w.data[..cpyCnt]));
    }

    method StoreLast(w: WriteReq, b: nat, lba: nat)
      requires w.First() < b == w.End() - 1 && lba < |disk|
      modifies this`disk
      ensures disk == old(disk)[lba := w.NewBlock(b, SectorAt(old(disk), lba))]
    {
      LastBlock(w, b, SectorAt(disk, lba));
      hide *;
      var buf := IdeRead(lba);
      var blockEndOff := w.Limit() % 512;
      var from := 512 * b - w.pos;
      IdeWrite(lba, Patch(buf, 0, w.data[from..from + blockEndOff]));
    }

    /** One block of the write loop: read-modify-write at the two ends, a plain write between them. */
    method StoreBlock(w: WriteReq, b: nat, lba: nat)
      requires w.First() <= b < w.End() && lba < |disk|
      modifies this`disk
      ensures disk == old(disk)[lba := w.NewBlock(b, SectorAt(old(disk), lba))]
    {
      hide WriteReq.NewBlock, SectorAt, WriteReq.First, WriteReq.End;
      if b == w.First() {
        StoreFirst(w, lba);
      } else if b == w.End() - 1 {
        StoreLast(w, b, lba);
      } else {
        MiddleBlock(w, b, SectorAt(disk, lba));
        var from := 512 * b - w.pos;
        IdeWrite(lba, w.data[from..from + 512]);
      }
    }

    lemma FirstTaken(bits0: seq<bool>, idx: int)
      requires idx == -1 <==> forall i :: 0 <= i < |bits0| ==> bits0[i]
      requires idx != -1 ==> 0 <= idx < |bits0| && !bits0[idx] && forall i :: 0 <= i < idx ==> bits0[i]
      ensures idx == -1 <==> ClearBits(bits0) == 0
      ensures TakeFirst(bits0, 1) == if idx == -1 then bits0 else bits0[idx := true]
    {
      NoneClear(bits0);
      if idx == -1 { TakeAll(bits0, 0, 1); } else { TakeOne(bits0, idx); }
    }

    /** No free block is left. */
    ghost predicate Full()
      reads blockBitmap.bits
    {
      forall k :: 0 <= k < |blockBitmap.Value()| ==> blockBitmap.Value()[k]
    }

    /** The state of the write loop before block `cur`, entered with disk d0 and bitmap bits0. */
    ghost predicate Writing(w: WriteReq, ind: nat, d0: Disk, bits0: seq<bool>, blocks0: seq<nat>, blocks: seq<nat>, cur: nat)
      reads this`disk, blockBitmap.bits
    {
      && Frame() && SameTable(geo, d0, disk)
      && w.First() <= cur <= w.End() <= 140
      && Progress(geo, w, ind, d0, bits0, blocks0, disk, blockBitmap.Value(), blocks, cur)
      && BlocksOk(geo, blockBitmap.Value(), ind, blocks)
    }

    /** The write loop: stores block after block, taking free blocks where the file has none. */
    method WriteBlocks(w: WriteReq, blocks0: seq<nat>, ind: nat, ghost d0: Disk, ghost bits0: seq<bool>, ghost h: nat)
      returns (ok: bool, blocks: seq<nat>, cur: nat)
      requires Writing(w, ind, d0, bits0, blocks0, blocks0, w.First()) && blockBitmap.Value() == bits0 && w.First() <= h
      requires |blocks0| == 140 && forall b :: 0 <= b < 140 ==> (blocks0[b] != 0 <==> b < h)
      modifies this`disk, blockBitmap.bits
      ensures Writing(w, ind, d0, bits0, blocks0, blocks, cur)
      ensures ok <==> cur == w.End()
      ensures !ok ==> |blocks| == 140 && cur < 140 && blocks[cur] == 0 && Full()
      ensures ok <==> Over(w.End(), h) <= ClearBits(bits0)
      ensures blockBitmap.Value() == TakeFirst(bits0, Over(w.End(), h))
    {
      hide *;
      WritingBounds(w, ind, d0, bits0, blocks0, blocks0, w.First());
      NoneOver(bits0, w.First(), h);
      blocks, cur, ok := blocks0, w.First(), true;
      while cur != w.End()
        invariant cur <= w.End()
        invariant Writing(w, ind, d0, bits0, blocks0, blocks, cur)
        invariant blockBitmap.Value() == TakeFirst(bits0, Over(cur, h)) && Over(cur, h) <= ClearBits(bits0)
        decreases w.End() - cur
      {
        ghost var bits := blockBitmap.Value();
        NotYetWritten(w, ind, d0, bits0, blocks0, blocks, cur);
        BlockMore(bits0, cur, h, bits);
        if cur >= h && ClearBits(bits) == 0 { Exhausted(bits0, cur, h, bits, w.End()); }
        var done, blocks1 := WriteOneBlock(w, blocks0, ind, blocks, cur, d0, bits0, bits);
        if !done {
          ok := false;
          NothingTaken(bits);
          return;
        }
        blocks := blocks1;
        cur := cur + 1;
      }
    }

    lemma NoneOver(bits: seq<bool>, b: nat, h: nat)
      requires b <= h
      ensures TakeFirst(bits, Over(b, h)) == bits && Over(b, h) <= ClearBits(bits)
    {
    }

    lemma NothingTaken(bits: seq<bool>)
      requires ClearBits(bits) == 0
      ensures TakeFirst(bits, 1) == bits
    {
      TakeAll(bits, 0, 1);
    }

    lemma NotYetWritten(w: WriteReq, ind: nat, d0: Disk, bits0: seq<bool>, blocks0: seq<nat>, blocks: seq<nat>, cur: nat)
      requires Writing(w, ind, d0, bits0, blocks0, blocks, cur) && cur < w.End()
      ensures cur < 140 && |blocks| == 140 && |blocks0| == 140 && blocks[cur] == blocks0[cur]
    {
      hide BlocksOk, BitmapOnDisk, DiskShape, SameTable, UntouchedElsewhere, BitsGrow;
    }

    method WriteOneBlock(w: WriteReq, blocks0: seq<nat>, ind: nat, blocks: seq<nat>, cur: nat,
                         ghost d0: Disk, ghost bits0: seq<bool>, ghost bits: seq<bool>)
      returns (done: bool, blocks1: seq<nat>)
      requires Writing(w, ind, d0, bits0, blocks0, blocks, cur) && cur < w.End() && bits == blockBitmap.Value()
      modifies this`disk, blockBitmap.bits
      ensures cur < 140 && |blocks| == 140
      ensures done ==> Writing(w, ind, d0, bits0, blocks0, blocks1, cur + 1)
      ensures !done ==> Writing(w, ind, d0, bits0, blocks0, blocks, cur) && blocks[cur] == 0 && Full()
      ensures done <==> blocks[cur] != 0 || ClearBits(bits) > 0
      ensures blockBitmap.Value() == if blocks[cur] == 0 then TakeFirst(bits, 1) else bits
    {
      hide *;
      WritingFacts(w, ind, d0, bits0, blocks0, blocks, cur);
      ghost var d := disk;
      var lba;
      done, lba := BlockFor(blocks, cur, ind, d, bits);
      blocks1 := blocks;
      if !done {
        WritingFrom(w, ind, d0, bits0, blocks0, blocks, cur);
        return;
      }
      blocks1 := blocks[cur := lba];
      ghost var d1 := disk;
      FrameFacts();
      LbaInRange(geo, ind, d, bits, blocks, cur, d1, blockBitmap.Value(), lba);
      StoreBlock(w, cur, lba);
      WritingNext(w, ind, d0, bits0, blocks0, d, bits, blocks, cur, d1, lba);
    }

    /** The block to store position `cur` in: the one listed, or a fresh one. */
    method BlockFor(blocks: seq<nat>, cur: nat, ind: nat, ghost d: Disk, ghost bits: seq<bool>) returns (ok: bool, lba: nat)
      requires Frame() && disk == d && blockBitmap.Value() == bits
      requires BlocksOk(geo, bits, ind, blocks) && cur < 140 == |blocks|
      modifies this`disk, blockBitmap.bits
      ensures Frame() && SameTable(geo, d, disk)
      ensures !ok ==> disk == d && blockBitmap.Value() == bits && blocks[cur] == 0 && Full()
      ensures ok ==> HaveBlock(geo, ind, d, bits, blocks, cur, disk, blockBitmap.Value(), lba)
      ensures ok <==> blocks[cur] != 0 || ClearBits(bits) > 0
      ensures blockBitmap.Value() == if blocks[cur] == 0 then TakeFirst(bits, 1) else bits
    {
      SameTableRefl(geo, d);
      UsedBlock(geo, bits, ind, blocks, cur);
      FrameFacts();
      assert geo.dataLba > 0;
      hide BlocksOk, SameTable, BitmapOnDisk, Bits, SectorAt, Frame, TakeFirst, ClearBits, Full, Bitmap.Value;
      lba := blocks[cur];
      if lba == 0 {
        var block := BlockAlloc();
        if block == -1 {
          return false, 0;
        }
        lba := block;
        TakeBlock(geo, bits, ind, blocks, cur, lba);
      } else {
        assert blocks == blocks[cur := lba];
      }
      ok := true;
    }

    lemma FrameFrom(d0: Disk)
      requires DiskShape(geo, d0, |blockBitmap.Value()|) && |disk| == |d0| && BitmapOnDisk(geo, disk, blockBitmap.bits[..])
      requires blockBitmap != inodeBitmap && blockBitmap.bits != inodeBitmap.bits && 8 * inodeBitmap.bits.Length == MAX_FILES_PER_PART
      ensures Frame() && DiskShape(geo, disk, |blockBitmap.Value()|)
    {
    }

    lemma FrameFacts()
      requires Frame()
      ensures DiskShape(geo, disk, |blockBitmap.Value()|) && BitmapOnDisk(geo, disk, blockBitmap.bits[..])
      ensures geo.Wf() && geo.dataLba + |blockBitmap.Value()| <= |disk| && 8 * inodeBitmap.bits.Length == MAX_FILES_PER_PART
      ensures blockBitmap != inodeBitmap && blockBitmap.bits != inodeBitmap.bits
      ensures inodeBitmap.bits.Length == 512 && geo.inodeBitmapLba < geo.dataLba < |disk|
    {
    }

    lemma WritingNext(w: WriteReq, ind: nat, d0: Disk, bits0: seq<bool>, blocks0: seq<nat>, d: Disk, bits: seq<bool>,
                      blocks: seq<nat>, cur: nat, d1: Disk, lba: nat)
      requires BitmapOnDisk(geo, d1, blockBitmap.bits[..]) && 8 * inodeBitmap.bits.Length == MAX_FILES_PER_PART
      requires blockBitmap != inodeBitmap && blockBitmap.bits != inodeBitmap.bits
      requires DiskShape(geo, d1, |blockBitmap.Value()|) && SameTable(geo, d0, d) && SameTable(geo, d, d1)
      requires w.First() <= cur < w.End() <= 140 && |blocks| == 140 && lba < |d1| && geo.dataLba <= lba
      requires disk == d1[lba := w.NewBlock(cur, SectorAt(d1, lba))]
      requires Progress(geo, w, ind, d0, bits0, blocks0, d, bits, blocks, cur)
      requires HaveBlock(geo, ind, d, bits, blocks, cur, d1, blockBitmap.Value(), lba)
      ensures Writing(w, ind, d0, bits0, blocks0, blocks[cur := lba], cur + 1)
    {
      hide Progress, BitmapOnDisk, BlocksOk, SectorAt, WriteReq.NewBlock, WriteReq.First, WriteReq.End, Bits, SameTable, Fresh, BitsGrow;
      SameTableTrans(geo, d0, d, d1);
      DataWritten(geo, d0, d1, blockBitmap.bits[..], lba, w.NewBlock(cur, SectorAt(d1, lba)));
      ProgressStep(geo, w, ind, d0, bits0, blocks0, d, bits, blocks, cur, disk, blockBitmap.Value(), lba);
    }

    lemma WritingFrom(w: WriteReq, ind: nat, d0: Disk, bits0: seq<bool>, blocks0: seq<nat>, blocks: seq<nat>, cur: nat)
      requires Frame() && SameTable(geo, d0, disk) && w.First() <= cur <= w.End() <= 140
      requires Progress(geo, w, ind, d0, bits0, blocks0, disk, blockBitmap.Value(), blocks, cur)
      requires BlocksOk(geo, blockBitmap.Value(), ind, blocks)
      ensures Writing(w, ind, d0, bits0, blocks0, blocks, cur)
    {
    }

    /** Takes a free block and fills it with zeros. */
    method TakeZeroed(ghost d0: Disk, ghost bits0: seq<bool>) returns (r: int)
      requires Frame() && d0 == disk && bits0 == blockBitmap.Value()
      modifies this`disk, blockBitmap.bits
      ensures Frame() && SameTable(geo, d0, disk)
      ensures r == -1 ==> disk == d0 && blockBitmap.Value() == bits0 && Full()
      ensures r != -1 ==> r > 0 && Taken(geo, d0, bits0, disk, blockBitmap.Value(), r)
      ensures r == -1 <==> ClearBits(bits0) == 0
      ensures blockBitmap.Value() == TakeFirst(bits0, 1)
    {
      hide Bits, BitmapOnDisk, SectorAt;
      r := BlockAlloc();
      if r != -1 {
        DataWritten(geo, d0, disk, blockBitmap.bits[..], r, ZeroSector());
        IdeWrite(r, ZeroSector());
      }
    }

    /** The indirect block that a write of `limit` bytes needs: the one there, or a fresh one. */
    method IndirectBlock(sectors: seq<nat>, limit: nat, ghost d0: Disk, ghost bits0: seq<bool>) returns (ok: bool, ind: nat)
      requires Frame() && d0 == disk && bits0 == blockBitmap.Value()
      requires |sectors| == NDIRECT + 1 && sectors[NDIRECT] < |disk|
      modifies this`disk, blockBitmap.bits
      ensures Frame() && SameTable(geo, d0, disk)
      ensures !ok ==> disk == d0 && blockBitmap.Value() == bits0 && Full() && sectors[NDIRECT] == 0 && limit > 512 * NDIRECT
      ensures ok ==> ind < |disk| && IndirectReady(geo, d0, bits0, sectors, disk, blockBitmap.Value(), ind)
      ensures ok && ind == 0 ==> limit <= 512 * NDIRECT
      ensures ok <==> !(sectors[NDIRECT] == 0 && limit > 512 * NDIRECT) || ClearBits(bits0) > 0
      ensures ok ==> (ind != 0 <==> sectors[NDIRECT] != 0 || limit > 512 * NDIRECT)
      ensures blockBitmap.Value() == if sectors[NDIRECT] == 0 && limit > 512 * NDIRECT then TakeFirst(bits0, 1) else bits0
    {
      SameTableRefl(geo, d0);
      hide Bits, BitmapOnDisk, SectorAt, Taken, SameTable;
      ok, ind := true, sectors[NDIRECT];
      if ind == 0 && limit > 512 * NDIRECT {
        var r := TakeZeroed(d0, bits0);
        if r == -1 {
          return false, ind;
        }
        ind := r;
        TakenInRange(geo, d0, bits0, disk, blockBitmap.Value(), ind);
      }
    }

    /** The start of inode_write: takes an indirect block if the write reaches beyond the direct ones,
        then lists the blocks of the file. */
    method PrepareWrite(k: nat, w: WriteReq, ghost d0: Disk, ghost bits0: seq<bool>, ghost open0: seq<InCore>)
      returns (ok: bool, ind: nat, blocks: seq<nat>)
      requires Frame() && k < |open| && d0 == disk && bits0 == blockBitmap.Value() && open0 == open
      requires |open[k].meta.sectors| == NDIRECT + 1 && open[k].meta.sectors[NDIRECT] < |disk|
      modifies this`disk, this`open, blockBitmap.bits
      ensures Frame() && SameTable(geo, d0, disk)
      ensures !ok ==> disk == d0 && blockBitmap.Value() == bits0 && open == open0 && Full()
      ensures !ok ==> open0[k].meta.sectors[NDIRECT] == 0 && w.Limit() > 512 * NDIRECT
      ensures ok ==> Prepared(geo, d0, bits0, open0[k].meta.sectors, disk, blockBitmap.Value(), blocks, ind)
      ensures ok ==> open == WithMeta(open0, k, WithIndirect(open0[k].meta, ind))
      ensures ok && ind == 0 ==> w.Limit() <= 512 * NDIRECT
      ensures ok <==> !NeedsIndirect(open0[k].meta, w) || ClearBits(bits0) > 0
      ensures ok ==> (ind != 0 <==> HasIndirect(open0[k].meta) || NeedsIndirect(open0[k].meta, w))
      ensures blockBitmap.Value() == if NeedsIndirect(open0[k].meta, w) then TakeFirst(bits0, 1) else bits0
    {
      hide Frame, Full, SectorAt, U32, SameTable, Prepared, IndirectReady;
      var m := open[k].meta;
      blocks := [];
      ok, ind := IndirectBlock(m.sectors, w.Limit(), d0, bits0);
      if ok {
        open := open[k := open[k].(meta := WithIndirect(m, ind))];
        blocks := GetBlocksLba(WithIndirect(m, ind).sectors);
        PreparedHolds(geo, d0, bits0, m.sectors, disk, blockBitmap.Value(), blocks, ind);
      }
    }

    /** The end of inode_write: size, direct blocks, inode slot, indirect block. */
    method FinishWrite(k: nat, w: WriteReq, blocks: seq<nat>, rest: InodeImage, ghost open0: seq<InCore>, ind: nat, ghost d: Disk)
      requires Frame() && disk == d && |blocks| == 140 && ind < |disk| && (ind == 0 || geo.dataLba <= ind)
      requires k < |open0| && |open0[k].meta.sectors| == NDIRECT + 1 && open == WithMeta(open0, k, WithIndirect(open0[k].meta, ind))
      requires open0[k].no < MAX_FILES_PER_PART && geo.tableLba + InodeSector(open0[k].no) + 1 < |disk|
      modifies this`disk, this`open
      ensures Frame()
      ensures var m2 := GrownMeta(w, open0[k].meta, blocks, ind);
        open == WithMeta(open0, k, m2) && disk == Finished(geo, d, open0[k].no, m2, rest, blocks, ind)
    {
      var e := open[k];
      var size := if w.Limit() > e.meta.size then w.Limit() else e.meta.size;
      var m2 := Meta(size, e.meta.ftype, blocks[..NDIRECT] + [ind]);
      FinishedBitmap(geo, disk, e.no, m2, rest, blocks, ind, blockBitmap.bits[..]);
      hide Bits, BitmapOnDisk, Synced, EncodeInode, PtrBlock;
      open := open[k := e.(meta := m2)];
      InodeSync(k, rest);
      if ind != 0 {
        IdeWrite(ind, PtrBlock(blocks[NDIRECT..]));
      }
    }

    /** inode_sync: read the two sectors around the slot, patch the slot, write them back. */
    method InodeSync(k: nat, rest: InodeImage)
      requires k < |open| && |open[k].meta.sectors| == NDIRECT + 1
      requires geo.tableLba + InodeSector(open[k].no) + 1 < |disk|
      modifies this`disk
      ensures disk == Synced(old(disk), geo, open[k].no, EncodeInode(open[k].meta, rest))
    {
      hide EncodeInode, SectorAt;
      var lba := geo.tableLba + InodeSector(open[k].no);
      var s0: seq<bv8> := IdeRead(lba);
      var s1: seq<bv8> := IdeRead(lba + 1);
      var buf := Patch(s0 + s1, InodeOffset(open[k].no), EncodeInode(open[k].meta, rest));
      assert |buf| == 1024;
      IdeWrite(lba, buf[..512]);
      IdeWrite(lba + 1, buf[512..]);
    }

    /** inode_write.  `memOk` says whether the buffer could be allocated, `rest` what the uninterpreted
        part of the in-core inode holds; `m2` is the new version of the file and `last` what its last
        block held before. */
    method InodeWrite(k: nat, data: seq<bv8>, pos: nat, memOk: bool, rest: InodeImage)
      returns (r: int, ghost m2: Meta, ghost last: Sector)
      requires Valid() && k < |open| && pos <= open[k].meta.size
      modifies this`disk, this`open, this`files, blockBitmap.bits
      ensures Valid()
      ensures Wrote(WriteReq(pos, data), k, old(disk), old(files), old(open), disk, files, open, r, m2, last)
      ensures pos + |data| > MAX_FILE_SIZE || !memOk ==> r == -1 && disk == old(disk) && open == old(open)
      ensures r == -1 ==> pos + |data| > MAX_FILE_SIZE || !memOk || (Full() && pos + |data| > old(open)[k].meta.size)
      ensures r == -1 <==> WriteFails(old(open)[k].meta, WriteReq(pos, data), memOk, old(blockBitmap.Value()))
      ensures blockBitmap.Value() == WriteBits(old(open)[k].meta, WriteReq(pos, data), memOk, old(blockBitmap.Value()))
      ensures r == -1 ==> OnlyIndirect(old(open)[k].meta, m2) && SameTable(geo, old(disk), disk)
      ensures HasIndirect(m2) <==> IndirectAfter(old(open)[k].meta, WriteReq(pos, data), memOk, old(blockBitmap.Value()))
    {
      ghost var d0, bits0, open0, files0 := disk, blockBitmap.Value(), open, files;
      r, m2, last := WriteFrom(k, WriteReq(pos, data), memOk, rest, d0, bits0, open0, files0);
    }

    method WriteFrom(k: nat, w: WriteReq, memOk: bool, rest: InodeImage,
                     ghost d0: Disk, ghost bits0: seq<bool>, ghost open0: seq<InCore>, ghost files0: Files)
      returns (r: int, ghost m2: Meta, ghost last: Sector)
      requires Valid() && k < |open| && w.pos <= open[k].meta.size
      requires d0 == disk && bits0 == blockBitmap.Value() && open0 == open && files0 == files
      modifies this`disk, this`open, this`files, blockBitmap.bits
      ensures Valid() && Wrote(w, k, d0, files0, open0, disk, files, open, r, m2, last)
      ensures w.Limit() > MAX_FILE_SIZE || !memOk ==> r == -1 && disk == d0 && open == open0
      ensures r == -1 ==> w.Limit() > MAX_FILE_SIZE || !memOk || (Full() && w.Limit() > open0[k].meta.size)
      ensures r == -1 <==> WriteFails(open0[k].meta, w, memOk, bits0)
      ensures blockBitmap.Value() == WriteBits(open0[k].meta, w, memOk, bits0)
      ensures r == -1 ==> OnlyIndirect(open0[k].meta, m2) && SameTable(geo, d0, disk)
      ensures HasIndirect(m2) <==> IndirectAfter(open0[k].meta, w, memOk, bits0)
    {
      hide *;
      SameTableRefl(geo, d0);
      NothingWrittenHere(k, w, ZeroSector());
      NoNewIndirect(open0[k].meta);
      IndirectIs(open0[k].meta, w, memOk, bits0);
      FailsIs(open0[k].meta, w, memOk, bits0);
      if w.Limit() > MAX_FILE_SIZE || !memOk {
        return -1, open[k].meta, ZeroSector();
      }
      r, m2, last := WriteChecked(k, w, rest, d0, bits0, open0, files0);
    }

    method WriteChecked(k: nat, w: WriteReq, rest: InodeImage,
                        ghost d0: Disk, ghost bits0: seq<bool>, ghost open0: seq<InCore>, ghost files0: Files)
      returns (r: int, ghost m2: Meta, ghost last: Sector)
      requires Valid() && k < |open| && w.pos <= open[k].meta.size && w.Limit() <= MAX_FILE_SIZE
      requires d0 == disk && bits0 == blockBitmap.Value() && open0 == open && files0 == files
      modifies this`disk, this`open, this`files, blockBitmap.bits
      ensures Valid() && Wrote(w, k, d0, files0, open0, disk, files, open, r, m2, last)
      ensures r == -1 ==> Full() && w.Limit() > open0[k].meta.size
      ensures r == -1 <==> Need(open0[k].meta, w) > ClearBits(bits0)
      ensures blockBitmap.Value() == TakeFirst(bits0, Need(open0[k].meta, w))
      ensures r == -1 ==> OnlyIndirect(open0[k].meta, m2) && SameTable(geo, d0, disk)
      ensures HasIndirect(m2) <==> HasIndirect(open0[k].meta) || (NeedsIndirect(open0[k].meta, w) && ClearBits(bits0) > 0)
    {
      hide *;
      NoNewIndirect(open0[k].meta);
      ValidFacts();
      NothingWrittenHere(k, w, ZeroSector());
      IndirectInRange(geo, d0, bits0, inodeBitmap.Value(), files, open, k);
      ShapeBounds(open[k].meta);
      var ok, ind, blocks1 := PrepareWrite(k, w, d0, bits0, open0);
      if !ok {
        IndirectMeansGrowth(geo, d0, bits0, inodeBitmap.Value(), files0, open0, k, w);
        NoIndirect(open0[k].meta, w, bits0);
        NoneNow(open0[k].meta, w);
        ValidFrom();
        return -1, open[k].meta, ZeroSector();
      }
      ghost var d1, bits1 := disk, blockBitmap.Value();
      StartWriting(geo, inodeBitmap.Value(), files0, open0, k, w, d0, bits0, d1, bits1, blocks1, ind);
      WritingStarts(w, ind, d1, bits1, blocks1);
      IsReady(geo, w, k, d0, bits0, inodeBitmap.Value(), files0, open0, d1, bits1, blocks1, ind);
      NeedSplits(open0[k].meta, w, bits0, bits1);
      r, m2, last := WritePrepared(k, w, rest, blocks1, ind, d0, bits0, open0, d1, bits1, files0);
      if r == -1 { SameTableTrans(geo, d0, d1, disk); }
    }

    lemma NoneNow(m: Meta, w: WriteReq)
      ensures NeedsIndirect(m, w) ==> !HasIndirect(m)
    {
    }

    lemma NoNewIndirect(m: Meta)
      ensures OnlyIndirect(m, m)
    {
      if |m.sectors| == NDIRECT + 1 { assert m.(sectors := m.sectors[NDIRECT := m.sectors[NDIRECT]]) == m; }
    }

    lemma FailsIs(m: Meta, w: WriteReq, memOk: bool, bits: seq<bool>)
      ensures WriteFails(m, w, memOk, bits) <==> w.Limit() > MAX_FILE_SIZE || !memOk || Need(m, w) > ClearBits(bits)
      ensures WriteBits(m, w, memOk, bits) == if w.Limit() > MAX_FILE_SIZE || !memOk then bits else TakeFirst(bits, Need(m, w))
    {
      hide Need, ClearBits, TakeFirst;
    }

    lemma NothingWrittenHere(k: nat, w: WriteReq, last: Sector)
      requires Valid() && k < |open| && w.pos <= open[k].meta.size
      ensures Wrote(w, k, disk, files, open, disk, files, open, -1, open[k].meta, last)
    {
      hide Consistent, Wrote;
      NothingWritten(geo, disk, blockBitmap.Value(), inodeBitmap.Value(), files, open, k, w, last);
    }

    /** The second half of inode_write, from the loop on. */
    method WritePrepared(k: nat, w: WriteReq, rest: InodeImage, blocks1: seq<nat>, ind: nat,
                         ghost d0: Disk, ghost bits0: seq<bool>, ghost open0: seq<InCore>,
                         ghost d1: Disk, ghost bits1: seq<bool>, ghost files0: Files)
      returns (r: int, ghost m2: Meta, ghost last: Sector)
      requires Ready(geo, w, k, d0, bits0, inodeBitmap.Value(), files0, open0, d1, bits1, blocks1, ind)
      requires open == WithMeta(open0, k, WithIndirect(open0[k].meta, ind))
      requires disk == d1 && files == files0 && blockBitmap.Value() == bits1
      requires Writing(w, ind, d1, bits1, blocks1, blocks1, w.First())
      modifies this`disk, this`open, this`files, blockBitmap.bits
      ensures Valid() && Wrote(w, k, d0, files0, open0, disk, files, open, r, m2, last)
      ensures k < |open0| && (r == -1 ==> Full() && w.Limit() > open0[k].meta.size)
      ensures k < |open0| && (r == -1 <==> Over(w.End(), DivRoundUp(open0[k].meta.size, 512)) > ClearBits(bits1))
      ensures k < |open0| && blockBitmap.Value() == TakeFirst(bits1, Over(w.End(), DivRoundUp(open0[k].meta.size, 512)))
      ensures k < |open0| && (r == -1 ==> OnlyIndirect(open0[k].meta, m2) && SameTable(geo, d1, disk))
      ensures HasIndirect(m2) <==> ind != 0
    {
      hide *;
      ReadyFacts(geo, w, k, d0, bits0, inodeBitmap.Value(), files0, open0, d1, bits1, blocks1, ind);
      PresentBlocks(geo, d0, bits0, files0, open0[k].no, open0[k].meta, d1, bits1, blocks1, ind);
      StartBelow(open0[k].meta, w);
      var done, blocks, cur := WriteBlocks(w, blocks1, ind, d1, bits1, DivRoundUp(open0[k].meta.size, 512));
      WritingFacts(w, ind, d1, bits1, blocks1, blocks, cur);
      last, m2 := ZeroSector(), WithIndirect(open0[k].meta, ind);
      IsOnlyIndirect(open0[k].meta, ind);
      GrownIndirect(w, open0[k].meta, blocks, ind);
      if !done {
        HoleMeansGrowth(geo, w, k, d0, bits0, inodeBitmap.Value(), files0, open0, d1, bits1, blocks1, ind,
                        disk, blockBitmap.Value(), blocks, cur);
        AfterFailure(geo, inodeBitmap.Value(), files0, open0, k, w, d0, bits0, d1, bits1, blocks1, ind,
                     disk, blockBitmap.Value(), blocks, cur, m2, last);
        files := files[open0[k].no := m2];
        ValidFrom();
        return -1, m2, last;
      }
      ghost var d, bits := disk, blockBitmap.Value();
      last := LastBefore(w, d1, blocks);
      m2 := GrownMeta(w, open0[k].meta, blocks, ind);
      AfterSuccess(geo, inodeBitmap.Value(), files0, open0, k, w, d0, bits0, d1, bits1, blocks1, ind, d, bits, blocks, m2, rest, last);
      FinishWrite(k, w, blocks, rest, open0, ind, d);
      files := files[open0[k].no := m2];
      ValidFrom();
      r := |w.data|;
    }

    lemma GrownIndirect(w: WriteReq, m: Meta, blocks: seq<nat>, ind: nat)
      requires |blocks| == 140 && |m.sectors| == NDIRECT + 1
      ensures HasIndirect(GrownMeta(w, m, blocks, ind)) <==> ind != 0
      ensures HasIndirect(WithIndirect(m, ind)) <==> ind != 0
    {
    }

    lemma IndirectIs(m: Meta, w: WriteReq, memOk: bool, bits: seq<bool>)
      ensures IndirectAfter(m, w, memOk, bits) <==>
              HasIndirect(m) || (w.Limit() <= MAX_FILE_SIZE && memOk && NeedsIndirect(m, w) && ClearBits(bits) > 0)
    {
      hide HasIndirect, NeedsIndirect, ClearBits;
    }

    lemma IsOnlyIndirect(m: Meta, ind: nat)
      requires |m.sectors| == NDIRECT + 1
      ensures OnlyIndirect(m, WithIndirect(m, ind))
    {
    }

    /** inode_read: -1 when nothing lies beyond `pos` or the buffer cannot be had, otherwise the bytes
        from `pos` on, as many as were asked for and are there. */
    method InodeRead(k: nat, count: nat, pos: nat, memOk: bool) returns (r: int, buf: seq<bv8>)
      requires Valid() && k < |open|
      ensures ShapeOk(open[k].meta)
      ensures r == -1 <==> !memOk || (pos + count > open[k].meta.size && pos >= open[k].meta.size)
      ensures r != -1 ==> r == (if pos + count > open[k].meta.size then open[k].meta.size - pos else count)
      ensures r != -1 ==> 0 <= r && pos + r <= open[k].meta.size && buf == Content(disk, open[k].meta)[pos..pos + r]
    {
      buf := [];
      hide *;
      OpenShape(k);
      var realCount: int := count;
      if pos + count > open[k].meta.size {
        realCount := open[k].meta.size - pos;
        if realCount <= 0 {
          return -1, buf;
        }
      }
      if !memOk {
        return -1, buf;
      }
      buf := ReadRange(k, realCount, pos);
      r := realCount;
    }

    method ReadRange(k: nat, realCount: nat, pos: nat) returns (buf: seq<bv8>)
      requires Valid() && k < |open| && pos + realCount <= open[k].meta.size
      ensures ShapeOk(open[k].meta) && buf == Content(disk, open[k].meta)[pos..pos + realCount]
    {
      OpenShape(k);
      hide Valid, ShapeOk, Content, Bytes;
      var readBuf := ReadBlocks(k, pos / 512, (pos + realCount + 511) / 512);
      RangeInBlocks(disk, open[k].meta, pos, realCount, readBuf);
      buf := readBuf[pos % 512..pos % 512 + realCount];
    }

    lemma OpenShape(k: nat)
      requires Valid() && k < |open|
      ensures ShapeOk(open[k].meta) && open[k].meta.size <= MAX_FILE_SIZE && |open[k].meta.sectors| == NDIRECT + 1
    {
      hide Consistent, Frame, ShapeOk;
      OpenFacts(geo, disk, blockBitmap.Value(), inodeBitmap.Value(), files, open, k);
      ShapeBounds(open[k].meta);
    }

    /** The loop of inode_read over blocks [start, end). */
    method ReadBlocks(k: nat, start: nat, end: nat) returns (readBuf: seq<bv8>)
      requires Valid() && k < |open| && start <= end <= 140
      ensures |open[k].meta.sectors| == NDIRECT + 1
      ensures readBuf == Bytes(disk, open[k].meta.sectors, 512 * start, 512 * (end - start))
    {
      hide Valid, Frame, Consistent, DiskShape, ShapeOk, Bytes, Ptr, SectorAt, Bits;
      ValidFacts();
      IndirectInRange(geo, disk, blockBitmap.Value(), inodeBitmap.Value(), files, open, k);
      ListedInRange(geo, disk, blockBitmap.Value(), inodeBitmap.Value(), files, open, k);
      ShapeBounds(open[k].meta);
      ghost var sectors := open[k].meta.sectors;
      var allBlocks := GetBlocksLba(open[k].meta.sectors);
      readBuf := [];
      var b := start;
      while b != end
        invariant start <= b <= end
        invariant readBuf == Bytes(disk, sectors, 512 * start, 512 * (b - start))
        decreases end - b
      {
        var sector: seq<bv8> := ZeroSector();
        if allBlocks[b] != 0 {
          sector := IdeRead(allBlocks[b]);
        }
        BytesExtend(disk, sectors, start, b, sector);
        assert 512 * (b + 1 - start) == 512 * (b - start) + 512;
        readBuf := readBuf + sector;
        b := b + 1;
      }
    }

    // ---- opening and closing ----

    /** inode_open: the in-core inode of that number if there is one, else a new one read from its slot. */
    method InodeOpen(no: nat) returns (k: nat)
      requires Valid() && no in files
      modifies this`open
      ensures Valid() && k < |open| && open[k].no == no
      ensures open == Opened(old(open), no, files[no])
    {
      hide *;
      ghost var open0 := open;
      k := FindInode(no);
      ValidFacts();
      OpenedConsistent(geo, disk, blockBitmap.Value(), inodeBitmap.Value(), files, open, no, k);
      if k < |open| {
        open := open[k := open[k].(opens := open[k].opens + 1)];
      } else {
        var meta := ReadSlot(no);
        SlotWhenClosed(geo, disk, blockBitmap.Value(), inodeBitmap.Value(), files, open, no, k);
        open := [InCore(no, 1, meta)] + open;
        k := 0;
      }
      ValidFrom();
    }

    method FindInode(no: nat) returns (k: nat)
      ensures k == FindOpen(open, no)
    {
      k := 0;
      while k < |open| && open[k].no != no
        invariant k <= |open|
        invariant forall j :: 0 <= j < k ==> open[j].no != no
      {
        k := k + 1;
      }
      FindOpenIs(open, no, k);
    }

    method ReadSlot(no: nat) returns (m: Meta)
      requires Frame() && no < MAX_FILES_PER_PART
      ensures m == DecodeInode(Slot(disk, geo, no))
    {
      hide DecodeInode, BitmapOnDisk;
      var s0: seq<bv8> := IdeRead(geo.tableLba + InodeSector(no));
      var s1: seq<bv8> := IdeRead(geo.tableLba + InodeSector(no) + 1);
      var buf := s0 + s1;
      m := DecodeInode(buf[InodeOffset(no)..InodeOffset(no) + INODE_SIZE]);
    }

    /** inode_close: the root inode stays; the last reference takes the inode out of the list, after
        which its slot is the current version. */
    method InodeClose(k: nat)
      requires Valid() && k < |open|
      modifies this`open, this`files
      ensures Valid()
      ensures open == Closed(old(open), k)
      ensures files.Keys == old(files).Keys
      ensures forall n :: n in files && n != old(open)[k].no ==> files[n] == old(files)[n]
      ensures forall n :: n in files ==> SameFile(disk, old(files)[n], files[n])
      ensures files == FilesAfterClose(geo, disk, old(files), old(open), k)
    {
      hide *;
      ValidFacts();
      CloseKeeps(geo, disk, blockBitmap.Value(), inodeBitmap.Value(), files, open, k);
      if open[k].no == 0 {
        return;
      }
      var opens := open[k].opens - 1;
      if opens == 0 {
        files := FilesAfterClose(geo, disk, files, open, k);
        open := open[..k] + open[k + 1..];
      } else {
        open := open[k := open[k].(opens := opens)];
      }
      ValidFrom();
    }

    /** inode_open and inode_close of a number that inode_free has just given back, as dir_unlink does it: the
        inode that is read from the stale slot enters the list and leaves it. */
    method TouchFreed(no: nat)
      requires Valid() && no !in files && no < MAX_FILES_PER_PART
      modifies this`open
      ensures Valid() && open == old(open)
    {
      hide *;
      ghost var open0 := open;
      ValidFacts();
      NotInList(geo, disk, blockBitmap.Value(), inodeBitmap.Value(), files, open, no);
      var k := FindInode(no);
      var meta := ReadSlot(no);
      open := [InCore(no, 1, meta)] + open;
      FindOpenIs(open, no, 0);
      k := FindInode(no);
      var opens := open[k].opens - 1;
      assert opens == 0;
      open := open[..k] + open[k + 1..];
      assert open == open0;
      ValidFrom();
    }

    // ---- creating and freeing ----

    /** inode_alloc: the first free number, an empty in-core inode for it, and its slot written.
        When the in-core inode cannot be had the number stays taken although no inode has it. */
    method InodeAlloc(ftype: nat, memOk: bool, rest: InodeImage) returns (r: int)
      requires Valid() && ftype < 0x1_0000_0000
      modifies this`disk, this`open, this`files, inodeBitmap.bits
      ensures Valid()
      ensures r == -1 || r == 0
      ensures r == -1 <==> !memOk || AllSet(old(inodeBitmap.Value()))
      ensures if r == -1 then open == old(open) && files == old(files)
              else Allocated(ftype, old(files), old(open), files, open)
      ensures BytesKept(old(disk), disk, old(files))
      ensures inodeBitmap.Value() == TakeFirst(old(inodeBitmap.Value()), 1)
      ensures r == 0 ==> |open| > 0 && open[0].no < |inodeBitmap.Value()| && !old(inodeBitmap.Value())[open[0].no]
                         && inodeBitmap.Value() == old(inodeBitmap.Value())[open[0].no := true]
      ensures r == 0 ==> |open| > 0 && open[0].no in files && IsEmpty(files[open[0].no], ftype)
    {
      r := AllocFrom(ftype, memOk, rest, disk, inodeBitmap.Value(), files, open);
      EmptyIs(ftype);
    }

    method AllocFrom(ftype: nat, memOk: bool, rest: InodeImage,
                     ghost d0: Disk, ghost ibits: seq<bool>, ghost files0: Files, ghost open0: seq<InCore>) returns (r: int)
      requires Valid() && ftype < 0x1_0000_0000
      requires disk == d0 && ibits == inodeBitmap.Value() && files == files0 && open == open0
      modifies this`disk, this`open, this`files, inodeBitmap.bits
      ensures Valid() && BytesKept(d0, disk, files0) && (r == -1 || r == 0)
      ensures r == -1 <==> !memOk || AllSet(ibits)
      ensures if r == -1 then open == open0 && files == files0 else Allocated(ftype, files0, open0, files, open)
      ensures inodeBitmap.Value() == TakeFirst(ibits, 1)
      ensures r == 0 ==> |open| > 0 && open[0].no < |ibits| && !ibits[open[0].no] && inodeBitmap.Value() == ibits[open[0].no := true]
    {
      hide *;
      var idx := TakeNumber(d0, ibits);
      if idx == -1 || !memOk {
        return -1;
      }
      NewInode(idx, ftype, rest, d0, files0, open0);
      r := 0;
    }

    /** The first half of inode_alloc: the first clear bit of the inode bitmap, set and written to disk. */
    method TakeNumber(ghost d0: Disk, ghost ibits: seq<bool>) returns (idx: int)
      requires Valid() && disk == d0 && ibits == inodeBitmap.Value()
      modifies this`disk, inodeBitmap.bits
      ensures Valid() && BytesKept(d0, disk, files)
      ensures idx == -1 <==> AllSet(ibits)
      ensures idx != -1 ==> 0 <= idx < |ibits| && idx !in files && !ibits[idx] && inodeBitmap.Value() == ibits[idx := true]
      ensures inodeBitmap.Value() == TakeFirst(ibits, 1)
    {
      hide *;
      ValidFacts();
      FrameFacts();
      ghost var bits := blockBitmap.Value();
      NumberFree(geo, d0, bits, ibits, files, open);
      idx := inodeBitmap.AllocABit();
      IsAllSet(ibits);
      FirstTaken(ibits, idx);
      if idx == -1 {
        ValidFrom();
        return;
      }
      InodeBitmapWritten(geo, d0, blockBitmap.bits[..], inodeBitmap.bits[0..512]);
      ConsistentCarry(geo, d0, d0[geo.inodeBitmapLba := inodeBitmap.bits[0..512]], bits, ibits, idx, files, open);
      IdeWrite(geo.inodeBitmapLba, inodeBitmap.bits[0..512]);
      FrameFrom(d0);
      ValidFrom();
    }

    /** The second half of inode_alloc: the in-core inode, pushed and synced. */
    method NewInode(idx: nat, ftype: nat, rest: InodeImage, ghost d0: Disk, ghost files0: Files, ghost open0: seq<InCore>)
      requires Valid() && idx < |inodeBitmap.Value()| && inodeBitmap.Value()[idx] && idx !in files && ftype < 0x1_0000_0000
      requires BytesKept(d0, disk, files) && files == files0 && open == open0
      modifies this`disk, this`open, this`files
      ensures Valid() && BytesKept(d0, disk, files0)
      ensures Allocated(ftype, files0, open0, files, open) && |open| > 0 && open[0].no == idx
    {
      hide *;
      ValidFacts();
      FrameFacts();
      ghost var d1 := disk;
      AllocConsistent(geo, d1, blockBitmap.Value(), inodeBitmap.Value(), files, open, idx, ftype, rest);
      SyncedBitmap(geo, d1, idx, EncodeInode(EmptyMeta(ftype), rest), blockBitmap.bits[..]);
      BytesKeptTrans(d0, d1, Synced(d1, geo, idx, EncodeInode(EmptyMeta(ftype), rest)), files);
      open := [InCore(idx, 1, EmptyMeta(ftype))] + open;
      InodeSync(0, rest);
      files := files[idx := EmptyMeta(ftype)];
      IsAllocated(ftype, files0, open0, idx);
      FrameFrom(d1);
      ValidFrom();
    }

    /** block_bitmap_free: clears the bit, zeroes the block, rewrites the bitmap sector. */
    method BlockFree(lba: nat, ghost d0: Disk, ghost bits0: seq<bool>)
      requires Frame() && disk == d0 && blockBitmap.Value() == bits0 && Used(geo, bits0, lba)
      modifies this`disk, blockBitmap.bits
      ensures Frame() && SameTable(geo, d0, disk)
      ensures blockBitmap.Value() == bits0[lba - geo.dataLba := false]
      ensures SectorAt(disk, lba) == ZeroSector()
      ensures forall p: nat :: geo.dataLba <= p && p != lba ==> SectorAt(disk, p) == SectorAt(d0, p)
    {
      hide Bits, BitmapOnDisk, SectorAt, SameTable;
      var bitIdx := lba - geo.dataLba;
      ghost var bytes0 := blockBitmap.bits[..];
      blockBitmap.Set(bitIdx, false);
      BlockFreed(geo, disk, bytes0, blockBitmap.bits[..], lba);
      IdeWrite(lba, ZeroSector());
      var offSec := bitIdx / BITS_PER_SECTOR;
      IdeWrite(geo.bitmapLba + offSec, blockBitmap.bits[offSec * 512..offSec * 512 + 512]);
    }

    method FreeBlocks(blocks: seq<nat>, ghost d0: Disk, ghost bits0: seq<bool>)
      requires Frame() && disk == d0 && blockBitmap.Value() == bits0 && BlocksOk(geo, bits0, 0, blocks) && |blocks| == 140
      modifies this`disk, blockBitmap.bits
      ensures Frame() && SameTable(geo, d0, disk) && Freed(geo, d0, bits0, blocks, disk, blockBitmap.Value())
    {
      hide *;
      SameTableRefl(geo, d0);
      FreedNothing(geo, d0, bits0);
      assert blocks[..0] == [] && blocks[..140] == blocks;
      var i := 0;
      while i != 140
        invariant 0 <= i <= 140
        invariant Frame() && SameTable(geo, d0, disk) && Freed(geo, d0, bits0, blocks[..i], disk, blockBitmap.Value())
        decreases 140 - i
      {
        ghost var d, bits := disk, blockBitmap.Value();
        FrameFacts();
        StillUsed(geo, d0, bits0, blocks, i, d, bits);
        if blocks[i] != 0 {
          BlockFree(blocks[i], d, bits);
          SameTableTrans(geo, d0, d, disk);
        }
        FreedStep(geo, d0, bits0, blocks, i, d, bits, disk, blockBitmap.Value());
        i := i + 1;
      }
    }

    /** inode_free of an inode with exactly one reference (any other count panics): its number and all
        blocks of its list are given back, and it leaves the in-core list. */
    method InodeFree(k: nat, ghost d0: Disk, ghost bits0: seq<bool>, ghost files0: Files, ghost open0: seq<InCore>)
      returns (ghost blocks: seq<nat>)
      requires Valid() && k < |open| && open[k].no != 0 && open[k].opens == 1
      requires disk == d0 && blockBitmap.Value() == bits0 && files == files0 && open == open0
      modifies this`disk, this`open, this`files, blockBitmap.bits, inodeBitmap.bits
      ensures Valid()
      ensures files == files0 - {open0[k].no} && open == Closed(open0, k)
      ensures open0[k].no < |old(inodeBitmap.Value())| && inodeBitmap.Value() == old(inodeBitmap.Value())[open0[k].no := false]
      ensures BytesKept(d0, disk, files) && SameTable(geo, d0, disk)
      ensures |blocks| == 140 && open0[k].no in files0 && |files0[open0[k].no].sectors| == NDIRECT + 1
      ensures forall i :: 0 <= i < 140 ==> blocks[i] == Ptr(d0, files0[open0[k].no].sectors, i)
      ensures Freed(geo, d0, bits0, blocks, disk, blockBitmap.Value())
      ensures open0[k].no in files0 && blockBitmap.Value() == BitsWithout(geo, bits0, d0, files0[open0[k].no])
    {
      hide *;
      ValidFacts();
      FrameFacts();
      ghost var ibits := inodeBitmap.Value();
      var no := open[k].no;
      OpenFacts(geo, d0, bits0, ibits, files, open, k);
      ShapeBounds(open[k].meta);
      IndirectInRange(geo, d0, bits0, ibits, files, open, k);
      ConsistentParts(geo, d0, bits0, ibits, files, open);
      inodeBitmap.Set(no, false);
      var allBlocks := GetBlocksLba(open[k].meta.sectors);
      ListedOk(geo, d0, bits0, files, no, allBlocks);
      FreeBlocks(allBlocks, d0, bits0);
      FreedBits(geo, d0, bits0, open[k].meta, allBlocks, disk, blockBitmap.Value());
      FreeConsistent(geo, d0, bits0, ibits, files, open, k, allBlocks, disk, blockBitmap.Value());
      ClosedCases(geo, disk, files, open, k);
      open := open[..k] + open[k + 1..];
      files := files - {no};
      blocks := allBlocks;
      ValidFrom();
    }

    lemma ValidFacts()
      requires Valid()
      ensures Frame() && Consistent(geo, disk, blockBitmap.Value(), inodeBitmap.Value(), files, open)
      ensures geo.Wf() && DiskShape(geo, disk, |blockBitmap.Value()|)
    {
    }

    lemma ValidFrom()
      requires Frame() && Consistent(geo, disk, blockBitmap.Value(), inodeBitmap.Value(), files, open)
      ensures Valid()
    {
    }

    lemma WritingStarts(w: WriteReq, ind: nat, d1: Disk, bits1: seq<bool>, blocks1: seq<nat>)
      requires Frame() && disk == d1 && blockBitmap.Value() == bits1
      requires BlocksOk(geo, bits1, ind, blocks1) && w.First() <= w.End() <= 140
      ensures Writing(w, ind, d1, bits1, blocks1, blocks1, w.First())
    {
      ProgressStart(geo, w, ind, d1, bits1, blocks1);
      SameTableRefl(geo, d1);
    }

    lemma WritingBounds(w: WriteReq, ind: nat, d0: Disk, bits0: seq<bool>, blocks0: seq<nat>, blocks: seq<nat>, cur: nat)
      requires Writing(w, ind, d0, bits0, blocks0, blocks, cur)
      ensures w.First() <= cur <= w.End() <= 140
    {
    }

    lemma WritingFacts(w: WriteReq, ind: nat, d0: Disk, bits0: seq<bool>, blocks0: seq<nat>, blocks: seq<nat>, cur: nat)
      requires Writing(w, ind, d0, bits0, blocks0, blocks, cur)
      ensures geo.Wf() && DiskShape(geo, disk, |blockBitmap.Value()|) && Frame() && SameTable(geo, d0, disk)
      ensures w.First() <= cur <= w.End() <= 140 && |blocks| == 140
      ensures Progress(geo, w, ind, d0, bits0, blocks0, disk, blockBitmap.Value(), blocks, cur)
      ensures BlocksOk(geo, blockBitmap.Value(), ind, blocks)
    {
    }
  }
}
