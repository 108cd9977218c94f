/** Files as values: how block pointers, the block bitmap and file contents hang together,
    and what a write may do to them.  Everything here is about disks as values; the code that
    changes a disk step by step is in FsInode. */
module FsVolume {
  import opened FsFormat

  /** Number of pointers of a file: 12 direct blocks, 128 entries of the indirect block, and the
      indirect block itself, in that order. */
  const PTRS := 141

  /** Pointer `i` of a file: blocks 0..139 as get_blocks_lba lists them, then the indirect block. */
  function Ptr(d: Disk, sectors: seq<nat>, i: nat): nat
    requires |sectors| == NDIRECT + 1 && i < PTRS
  {
    if i < NDIRECT then sectors[i]
    else if i == 140 || sectors[NDIRECT] == 0 then sectors[NDIRECT]
    else U32(SectorAt(d, sectors[NDIRECT]), 4 * (i - NDIRECT))
  }

  function ByteAt(d: Disk, sectors: seq<nat>, i: nat): bv8
    requires |sectors| == NDIRECT + 1 && i < MAX_FILE_SIZE
  {
    var p := Ptr(d, sectors, i / 512);
    if p == 0 then 0 else SectorAt(d, p)[i % 512]
  }

  /** The byte sequence that a file stands for. */
  function Content(d: Disk, m: Meta): (c: seq<bv8>)
    requires |m.sectors| == NDIRECT + 1 && m.size <= MAX_FILE_SIZE
    ensures |c| == m.size
  {
    seq(m.size, i requires 0 <= i < m.size => ByteAt(d, m.sectors, i))
  }

  type Files = map<nat, Meta>

  /** Block `p` lies in the data area and its bitmap bit is set. */
  predicate Used(g: Geometry, bits: seq<bool>, p: nat) {
    g.dataLba <= p < g.dataLba + |bits| && bits[p - g.dataLba]
  }

  ghost predicate ShapeOk(m: Meta) {
    m.Fits() && m.size <= MAX_FILE_SIZE
  }

  ghost predicate Shapes(files: Files) {
    forall n :: n in files ==> n < MAX_FILES_PER_PART && ShapeOk(files[n])
  }

  /** The blocks of a file are exactly those below its end. */
  ghost predicate NoHoles(d: Disk, m: Meta)
    requires ShapeOk(m)
  {
    forall b :: 0 <= b < 140 ==> (Ptr(d, m.sectors, b) != 0 <==> 512 * b < m.size)
  }

  ghost predicate AllUsed(g: Geometry, d: Disk, bits: seq<bool>, sectors: seq<nat>)
    requires |sectors| == NDIRECT + 1
  {
    forall i :: 0 <= i < PTRS && Ptr(d, sectors, i) != 0 ==> Used(g, bits, Ptr(d, sectors, i))
  }

  /** No block is pointed to twice, neither within a file nor by two files. */
  ghost predicate Distinct(d: Disk, files: Files)
    requires Shapes(files)
  {
    forall n, m, i, j ::
      n in files && m in files && 0 <= i < PTRS && 0 <= j < PTRS
      && Ptr(d, files[n].sectors, i) != 0 && Ptr(d, files[n].sectors, i) == Ptr(d, files[m].sectors, j)
      ==> n == m && i == j
  }

  /** The invariant of the block structure. */
  ghost predicate PtrsOk(g: Geometry, d: Disk, bits: seq<bool>, files: Files) {
    && g.dataLba > 0
    && Shapes(files)
    && Distinct(d, files)
    && (forall n :: n in files ==> AllUsed(g, d, bits, files[n].sectors) && NoHoles(d, files[n]))
  }

  // ---- frames ----

  ghost predicate PointsTo(d: Disk, sectors: seq<nat>, p: nat)
    requires |sectors| == NDIRECT + 1
  {
    exists i :: 0 <= i < PTRS && Ptr(d, sectors, i) == p
  }

  /** From d0 to d1 no used block changed, except possibly those of one file. */
  ghost predicate OnlyTouched(g: Geometry, d0: Disk, bits0: seq<bool>, sectors0: seq<nat>, d1: Disk)
    requires |sectors0| == NDIRECT + 1
  {
    forall p: nat :: Used(g, bits0, p) && !PointsTo(d0, sectors0, p) ==> SectorAt(d1, p) == SectorAt(d0, p)
  }

  lemma SamePtrs(d0: Disk, d1: Disk, sectors: seq<nat>)
    requires |sectors| == NDIRECT + 1
    requires sectors[NDIRECT] != 0 ==> SectorAt(d1, sectors[NDIRECT]) == SectorAt(d0, sectors[NDIRECT])
    ensures forall i :: 0 <= i < PTRS ==> Ptr(d1, sectors, i) == Ptr(d0, sectors, i)
  {
  }

  lemma SameContent(d0: Disk, d1: Disk, m: Meta)
    requires ShapeOk(m)
    requires forall i :: 0 <= i < PTRS && Ptr(d0, m.sectors, i) != 0 ==>
               SectorAt(d1, Ptr(d0, m.sectors, i)) == SectorAt(d0, Ptr(d0, m.sectors, i))
    ensures forall i :: 0 <= i < PTRS ==> Ptr(d1, m.sectors, i) == Ptr(d0, m.sectors, i)
    ensures Content(d1, m) == Content(d0, m)
  {
    assert Ptr(d0, m.sectors, 140) == m.sectors[NDIRECT];
    SamePtrs(d0, d1, m.sectors);
    hide Ptr;
    forall i | 0 <= i < m.size
      ensures ByteAt(d1, m.sectors, i) == ByteAt(d0, m.sectors, i)
    {
    }
  }

  /** A file that was not the one touched keeps its pointers and its bytes. */
  lemma OtherFileKeeps(g: Geometry, d0: Disk, bits0: seq<bool>, files: Files, n: nat, d1: Disk, m: nat)
    requires PtrsOk(g, d0, bits0, files) && n in files && m in files && m != n
    requires OnlyTouched(g, d0, bits0, files[n].sectors, d1)
    ensures forall i :: 0 <= i < PTRS ==> Ptr(d1, files[m].sectors, i) == Ptr(d0, files[m].sectors, i)
    ensures Content(d1, files[m]) == Content(d0, files[m])
  {
    var sm := files[m].sectors;
    forall i | 0 <= i < PTRS && Ptr(d0, sm, i) != 0
      ensures SectorAt(d1, Ptr(d0, sm, i)) == SectorAt(d0, Ptr(d0, sm, i))
    {
      hide Ptr, U32, SectorAt;
      assert !PointsTo(d0, files[n].sectors, Ptr(d0, sm, i));
      assert Used(g, bits0, Ptr(d0, sm, i));
    }
    SameContent(d0, d1, files[m]);
  }

  // ---- growth of one file ----

  predicate BitsGrow(bits0: seq<bool>, bits1: seq<bool>) {
    |bits1| == |bits0| && forall k :: 0 <= k < |bits0| && bits0[k] ==> bits1[k]
  }

  /** Block `p` was taken from the bitmap between bits0 and bits1. */
  predicate Fresh(g: Geometry, bits0: seq<bool>, bits1: seq<bool>, p: nat)
    requires |bits1| == |bits0|
  {
    g.dataLba <= p < g.dataLba + |bits0| && !bits0[p - g.dataLba] && bits1[p - g.dataLba]
  }

  /** Each pointer of the new version is the old one or a freshly taken block, and they are distinct. */
  ghost predicate Grew(g: Geometry, d0: Disk, bits0: seq<bool>, s0: seq<nat>, d1: Disk, bits1: seq<bool>, s1: seq<nat>)
    requires |s0| == NDIRECT + 1 && |s1| == NDIRECT + 1
  {
    && BitsGrow(bits0, bits1)
    && (forall i :: 0 <= i < PTRS ==>
          Ptr(d1, s1, i) == Ptr(d0, s0, i) || Fresh(g, bits0, bits1, Ptr(d1, s1, i)))
    && (forall i, j :: 0 <= i < j < PTRS && Ptr(d1, s1, i) != 0 ==> Ptr(d1, s1, i) != Ptr(d1, s1, j))
  }

  lemma GrewAllUsed(g: Geometry, d0: Disk, bits0: seq<bool>, s0: seq<nat>, d1: Disk, bits1: seq<bool>, s1: seq<nat>)
    requires |s0| == NDIRECT + 1 && |s1| == NDIRECT + 1
    requires AllUsed(g, d0, bits0, s0) && Grew(g, d0, bits0, s0, d1, bits1, s1)
    ensures AllUsed(g, d1, bits1, s1)
  {
    hide Ptr;
  }

  /** A fresh block is nobody's, so the grown file shares no pointer with another file. */
  lemma GrewApart(g: Geometry, d0: Disk, bits0: seq<bool>, files: Files, n: nat, m: nat, i: nat, j: nat,
                  d1: Disk, bits1: seq<bool>, s1: seq<nat>)
    requires PtrsOk(g, d0, bits0, files) && n in files && m in files && m != n && i < PTRS && j < PTRS
    requires |s1| == NDIRECT + 1 && Grew(g, d0, bits0, files[n].sectors, d1, bits1, s1)
    requires Ptr(d1, s1, i) != 0
    ensures Ptr(d0, files[m].sectors, j) != Ptr(d1, s1, i)
  {
    hide Ptr;
    assert AllUsed(g, d0, bits0, files[m].sectors);
    assert Ptr(d1, s1, i) == Ptr(d0, files[n].sectors, i) || Fresh(g, bits0, bits1, Ptr(d1, s1, i));
  }

  /** The block structure survives any growth of one file that touches only that file's and free blocks. */
  lemma GrewPtrsOk(g: Geometry, d0: Disk, bits0: seq<bool>, files: Files, n: nat, d1: Disk, bits1: seq<bool>, m1: Meta)
    requires PtrsOk(g, d0, bits0, files) && n in files && ShapeOk(m1)
    requires OnlyTouched(g, d0, bits0, files[n].sectors, d1)
    requires Grew(g, d0, bits0, files[n].sectors, d1, bits1, m1.sectors)
    requires NoHoles(d1, m1)
    ensures PtrsOk(g, d1, bits1, files[n := m1])
  {
    var files1 := files[n := m1];
    assert Shapes(files1);
    forall m | m in files1
      ensures AllUsed(g, d1, bits1, files1[m].sectors) && NoHoles(d1, files1[m])
    {
      if m == n {
        GrewAllUsed(g, d0, bits0, files[n].sectors, d1, bits1, m1.sectors);
      } else {
        OtherStillOk(g, d0, bits0, files, n, d1, bits1, m);
      }
    }
    forall a, b, i, j | a in files1 && b in files1 && 0 <= i < PTRS && 0 <= j < PTRS
      && Ptr(d1, files1[a].sectors, i) != 0 && Ptr(d1, files1[a].sectors, i) == Ptr(d1, files1[b].sectors, j)
      ensures a == b && i == j
    {
      GrewPairDistinct(g, d0, bits0, files, n, d1, bits1, m1, a, b, i, j);
    }
  }

  lemma OtherStillOk(g: Geometry, d0: Disk, bits0: seq<bool>, files: Files, n: nat, d1: Disk, bits1: seq<bool>, m: nat)
    requires PtrsOk(g, d0, bits0, files) && n in files && m in files && m != n
    requires OnlyTouched(g, d0, bits0, files[n].sectors, d1) && BitsGrow(bits0, bits1)
    ensures AllUsed(g, d1, bits1, files[m].sectors) && NoHoles(d1, files[m])
  {
    OtherFileKeeps(g, d0, bits0, files, n, d1, m);
    hide Ptr;
    assert AllUsed(g, d0, bits0, files[m].sectors);
    assert NoHoles(d0, files[m]);
  }

  lemma GrewPairDistinct(g: Geometry, d0: Disk, bits0: seq<bool>, files: Files, n: nat, d1: Disk, bits1: seq<bool>, m1: Meta,
                         a: nat, b: nat, i: nat, j: nat)
    requires PtrsOk(g, d0, bits0, files) && n in files && ShapeOk(m1)
    requires OnlyTouched(g, d0, bits0, files[n].sectors, d1)
    requires Grew(g, d0, bits0, files[n].sectors, d1, bits1, m1.sectors)
    requires a in files && b in files && i < PTRS && j < PTRS
    requires var files1 := files[n := m1];
      Ptr(d1, files1[a].sectors, i) != 0 && Ptr(d1, files1[a].sectors, i) == Ptr(d1, files1[b].sectors, j)
    ensures a == b && i == j
  {
    if a != n {
      OtherFileKeeps(g, d0, bits0, files, n, d1, a);
    }
    if b != n {
      OtherFileKeeps(g, d0, bits0, files, n, d1, b);
    }
    hide Ptr, Content;
    if a == n && b != n {
      GrewApart(g, d0, bits0, files, n, b, i, j, d1, bits1, m1.sectors);
    } else if a != n && b == n {
      GrewApart(g, d0, bits0, files, n, a, j, i, d1, bits1, m1.sectors);
    }
  }

  /** Taking a file away keeps the structure of the others. */
  lemma RemovePtrsOk(g: Geometry, d0: Disk, bits0: seq<bool>, files: Files, n: nat, d1: Disk, bits1: seq<bool>)
    requires PtrsOk(g, d0, bits0, files) && n in files && |bits1| == |bits0|
    requires OnlyTouched(g, d0, bits0, files[n].sectors, d1)
    requires forall p: nat :: Used(g, bits0, p) && !PointsTo(d0, files[n].sectors, p) ==> Used(g, bits1, p)
    ensures PtrsOk(g, d1, bits1, files - {n})
  {
    var files1 := files - {n};
    forall m | m in files1
      ensures forall i :: 0 <= i < PTRS ==> Ptr(d1, files[m].sectors, i) == Ptr(d0, files[m].sectors, i)
      ensures AllUsed(g, d1, bits1, files1[m].sectors) && NoHoles(d1, files1[m])
    {
      RemoveOther(g, d0, bits0, files, n, d1, bits1, m);
    }
    hide Ptr;
    assert Shapes(files1);
    assert Distinct(d1, files1);
  }

  lemma RemoveOther(g: Geometry, d0: Disk, bits0: seq<bool>, files: Files, n: nat, d1: Disk, bits1: seq<bool>, m: nat)
    requires PtrsOk(g, d0, bits0, files) && n in files && |bits1| == |bits0| && m in files && m != n
    requires OnlyTouched(g, d0, bits0, files[n].sectors, d1)
    requires forall p: nat :: Used(g, bits0, p) && !PointsTo(d0, files[n].sectors, p) ==> Used(g, bits1, p)
    ensures forall i :: 0 <= i < PTRS ==> Ptr(d1, files[m].sectors, i) == Ptr(d0, files[m].sectors, i)
    ensures AllUsed(g, d1, bits1, files[m].sectors) && NoHoles(d1, files[m])
  {
    OtherFileKeeps(g, d0, bits0, files, n, d1, m);
    hide Ptr;
    assert NoHoles(d0, files[m]);
    forall i | 0 <= i < PTRS && Ptr(d1, files[m].sectors, i) != 0
      ensures Used(g, bits1, Ptr(d1, files[m].sectors, i))
    {
      assert AllUsed(g, d0, bits0, files[m].sectors);
      assert Used(g, bits0, Ptr(d0, files[m].sectors, i));
      assert !PointsTo(d0, files[n].sectors, Ptr(d0, files[m].sectors, i));
    }
  }

  // ---- what one write stores ----

  datatype WriteReq = WriteReq(pos: nat, data: seq<bv8>) {
    function Limit(): nat { pos + |data| }
    function First(): nat { pos / 512 }
    function End(): nat { DivRoundUp(pos + |data|, 512) }

    /** A write over several blocks that ends on a block boundary copies nothing into its last block. */
    predicate SkipsLast() {
      First() + 1 < End() && Limit() % 512 == 0
    }

    predicate Covers(i: nat) {
      pos <= i < Limit() && !(SkipsLast() && Limit() - 512 <= i)
    }

    function NewByte(i: nat, was: bv8): bv8 {
      if Covers(i) then data[i - pos] else was
    }

    /** Block `b` of the file after the write, when the sector it is stored in held `was`. */
    function NewBlock(b: nat, was: Sector): Sector {
      seq(512, o requires 0 <= o < 512 => NewByte(512 * b + o, was[o]))
    }
  }

  /** The first block: a read-modify-write at the offset of `pos`. */
  lemma FirstBlock(w: WriteReq, was: Sector)
    requires w.First() < w.End()
    ensures var cnt := if w.First() == w.End() - 1 then |w.data| else 512 - w.pos % 512;
      cnt <= |w.data| && w.pos % 512 + cnt <= 512
      && Patch(was, w.pos % 512, w.data[..cnt]) == w.NewBlock(w.First(), was)
  {
    var cnt := if w.First() == w.End() - 1 then |w.data| else 512 - w.pos % 512;
    var b := w.First();
    assert w.pos == 512 * b + w.pos % 512;
    EndBounds(w);
    var r := Patch(was, w.pos % 512, w.data[..cnt]);
    forall o | 0 <= o < 512
      ensures r[o] == w.NewBlock(b, was)[o]
    {
    }
  }

  lemma EndBounds(w: WriteReq)
    ensures w.Limit() <= 512 * w.End() < w.Limit() + 512
    ensures w.Limit() % 512 == 0 <==> 512 * w.End() == w.Limit()
    ensures w.Limit() % 512 != 0 ==> 512 * (w.End() - 1) + w.Limit() % 512 == w.Limit()
  {
  }

  /** A later block that is not the last: all 512 bytes come from the buffer. */
  lemma MiddleBlock(w: WriteReq, b: nat, was: Sector)
    requires w.First() < b < w.End() - 1
    ensures 0 <= 512 * b - w.pos && 512 * b - w.pos + 512 <= |w.data|
    ensures w.data[512 * b - w.pos..512 * b - w.pos + 512] == w.NewBlock(b, was)
  {
    EndBounds(w);
    assert w.pos < 512 * (w.First() + 1);
  }

  /** The last block of several: (pos + count) % 512 bytes, which is none on a boundary. */
  lemma LastBlock(w: WriteReq, b: nat, was: Sector)
    requires w.First() < b == w.End() - 1
    ensures 0 <= 512 * b - w.pos && 512 * b - w.pos + w.Limit() % 512 <= |w.data|
    ensures Patch(was, 0, w.data[512 * b - w.pos..512 * b - w.pos + w.Limit() % 512]) == w.NewBlock(b, was)
  {
    EndBounds(w);
    assert w.pos < 512 * (w.First() + 1);
    var lo := 512 * b - w.pos;
    var r := Patch(was, 0, w.data[lo..lo + w.Limit() % 512]);
    forall o | 0 <= o < 512
      ensures r[o] == w.NewBlock(b, was)[o]
    {
    }
  }

  // ---- progress of the write loop ----

  /** State of the write loop before block `cur`: d0, bits0, blocks0 are the values on entry. */
  ghost predicate Progress(g: Geometry, w: WriteReq, ind: nat,
                           d0: Disk, bits0: seq<bool>, blocks0: seq<nat>,
                           d: Disk, bits: seq<bool>, blocks: seq<nat>, cur: nat)
  {
    && |blocks0| == 140 && |blocks| == 140 && w.First() <= cur <= 140
    && BitsGrow(bits0, bits)
    && (forall b :: 0 <= b < 140 && !(w.First() <= b < cur) ==> blocks[b] == blocks0[b])
    && (forall b :: w.First() <= b < cur ==>
          blocks[b] != 0 && (blocks[b] == blocks0[b] || (blocks0[b] == 0 && Fresh(g, bits0, bits, blocks[b]))))
    && (forall b :: w.First() <= b < cur ==>
          SectorAt(d, blocks[b]) == w.NewBlock(b, SectorAt(d0, blocks[b])))
    && UntouchedElsewhere(g, w, d0, d, blocks, cur, |bits|)
  }

  ghost predicate UntouchedElsewhere(g: Geometry, w: WriteReq, d0: Disk, d: Disk, blocks: seq<nat>, cur: nat, nbits: nat)
    requires w.First() <= cur <= |blocks|
  {
    forall p: nat :: g.dataLba <= p < g.dataLba + nbits && p !in blocks[w.First()..cur] ==>
      SectorAt(d, p) == SectorAt(d0, p)
  }

  lemma ProgressStart(g: Geometry, w: WriteReq, ind: nat, d0: Disk, bits0: seq<bool>, blocks0: seq<nat>)
    requires |blocks0| == 140 && w.First() <= 140
    ensures Progress(g, w, ind, d0, bits0, blocks0, d0, bits0, blocks0, w.First())
  {
  }

  lemma ProgressLen(g: Geometry, w: WriteReq, ind: nat, d0: Disk, bits0: seq<bool>, blocks0: seq<nat>,
                    d: Disk, bits: seq<bool>, blocks: seq<nat>, cur: nat)
    requires Progress(g, w, ind, d0, bits0, blocks0, d, bits, blocks, cur)
    ensures |blocks| == 140
  {
  }

  /** The blocks of the file are in use and pairwise distinct. */
  ghost predicate BlocksOk(g: Geometry, bits: seq<bool>, ind: nat, blocks: seq<nat>) {
    && |blocks| == 140
    && (ind != 0 ==> Used(g, bits, ind))
    && (forall b :: 0 <= b < 140 && blocks[b] != 0 ==> Used(g, bits, blocks[b]) && blocks[b] != ind)
    && (forall b, c :: 0 <= b < c < 140 && blocks[b] != 0 ==> blocks[b] != blocks[c])
  }

  /** Taking a clear bit for an empty position keeps the blocks distinct. */
  lemma TakeBlock(g: Geometry, bits: seq<bool>, ind: nat, blocks: seq<nat>, cur: nat, p: nat)
    requires BlocksOk(g, bits, ind, blocks) && cur < 140 && blocks[cur] == 0
    requires 0 < g.dataLba <= p < g.dataLba + |bits| && !bits[p - g.dataLba]
    ensures BlocksOk(g, bits[p - g.dataLba := true], ind, blocks[cur := p])
  {
  }

  /** One iteration: block `cur` is stored in `p`, which held its entry value until then. */
  lemma ProgressStep(g: Geometry, w: WriteReq, ind: nat,
                     d0: Disk, bits0: seq<bool>, blocks0: seq<nat>,
                     d: Disk, bits: seq<bool>, blocks: seq<nat>, cur: nat,
                     d1: Disk, bits1: seq<bool>, p: nat)
    requires Progress(g, w, ind, d0, bits0, blocks0, d, bits, blocks, cur)
    requires cur < 140 && BitsGrow(bits, bits1)
    requires BlocksOk(g, bits1, ind, blocks[cur := p]) && p != 0 && Used(g, bits1, p)
    requires p == blocks[cur] || (blocks[cur] == 0 && Fresh(g, bits, bits1, p))
    requires SectorAt(d1, p) == w.NewBlock(cur, SectorAt(d, p))
    requires forall q: nat :: g.dataLba <= q < g.dataLba + |bits| && q != p ==> SectorAt(d1, q) == SectorAt(d, q)
    ensures Progress(g, w, ind, d0, bits0, blocks0, d1, bits1, blocks[cur := p], cur + 1)
  {
    var blocks1 := blocks[cur := p];
    StillEntryValue(g, w, ind, d0, d, bits, bits1, blocks, cur, p);
    StepStored(g, w, d0, d, bits1, blocks, cur, d1, ind, p);
    StepUntouched(g, w, d0, d, bits, blocks, cur, d1, p);
    StepPtrs(g, w, bits0, blocks0, bits, blocks, cur, bits1, p);
    hide WriteReq.NewBlock, SectorAt, UntouchedElsewhere, BlocksOk, Fresh, BitsGrow;
    assert forall b :: w.First() <= b < cur ==> blocks1[b] == blocks[b];
  }

  lemma StillEntryValue(g: Geometry, w: WriteReq, ind: nat, d0: Disk, d: Disk, bits: seq<bool>, bits1: seq<bool>,
                        blocks: seq<nat>, cur: nat, p: nat)
    requires |blocks| == 140 && w.First() <= cur < 140 && |bits1| == |bits|
    requires UntouchedElsewhere(g, w, d0, d, blocks, cur, |bits|)
    requires BlocksOk(g, bits1, ind, blocks[cur := p]) && Used(g, bits1, p)
    requires forall b :: w.First() <= b < cur ==> blocks[b] != 0
    ensures SectorAt(d, p) == SectorAt(d0, p)
  {
    hide SectorAt;
    var blocks1 := blocks[cur := p];
    assert forall b :: w.First() <= b < cur ==> blocks1[b] == blocks[b] && blocks1[b] != blocks1[cur];
    assert p !in blocks[w.First()..cur];
  }

  lemma StepPtrs(g: Geometry, w: WriteReq, bits0: seq<bool>, blocks0: seq<nat>, bits: seq<bool>, blocks: seq<nat>, cur: nat,
                 bits1: seq<bool>, p: nat)
    requires |blocks0| == 140 && |blocks| == 140 && w.First() <= cur < 140
    requires BitsGrow(bits0, bits) && BitsGrow(bits, bits1) && p != 0
    requires forall b :: 0 <= b < 140 && !(w.First() <= b < cur) ==> blocks[b] == blocks0[b]
    requires forall b :: w.First() <= b < cur ==>
               blocks[b] != 0 && (blocks[b] == blocks0[b] || (blocks0[b] == 0 && Fresh(g, bits0, bits, blocks[b])))
    requires p == blocks[cur] || (blocks[cur] == 0 && Fresh(g, bits, bits1, p))
    ensures BitsGrow(bits0, bits1)
    ensures var blocks1 := blocks[cur := p];
      && (forall b :: 0 <= b < 140 && !(w.First() <= b < cur + 1) ==> blocks1[b] == blocks0[b])
      && (forall b :: w.First() <= b < cur + 1 ==>
            blocks1[b] != 0 && (blocks1[b] == blocks0[b] || (blocks0[b] == 0 && Fresh(g, bits0, bits1, blocks1[b]))))
  {
  }

  lemma StepStored(g: Geometry, w: WriteReq, d0: Disk, d: Disk, bits1: seq<bool>, blocks: seq<nat>, cur: nat, d1: Disk, ind: nat, p: nat)
    requires |blocks| == 140 && cur < 140 && BlocksOk(g, bits1, ind, blocks[cur := p])
    requires forall b :: w.First() <= b < cur ==> blocks[b] != 0
    requires forall b :: w.First() <= b < cur ==> SectorAt(d, blocks[b]) == w.NewBlock(b, SectorAt(d0, blocks[b]))
    requires forall q: nat :: g.dataLba <= q < g.dataLba + |bits1| && q != p ==> SectorAt(d1, q) == SectorAt(d, q)
    ensures forall b :: w.First() <= b < cur ==> SectorAt(d1, blocks[b]) == w.NewBlock(b, SectorAt(d0, blocks[b]))
  {
    hide WriteReq.NewBlock, SectorAt;
    forall b | w.First() <= b < cur
      ensures SectorAt(d1, blocks[b]) == SectorAt(d, blocks[b])
    {
      var blocks1 := blocks[cur := p];
      assert blocks1[b] == blocks[b] && blocks1[cur] == p;
      assert Used(g, bits1, blocks1[b]);
    }
  }

  lemma StepUntouched(g: Geometry, w: WriteReq, d0: Disk, d: Disk, bits: seq<bool>, blocks: seq<nat>, cur: nat, d1: Disk, p: nat)
    requires |blocks| == 140 && w.First() <= cur < 140
    requires UntouchedElsewhere(g, w, d0, d, blocks, cur, |bits|)
    requires forall q: nat :: g.dataLba <= q < g.dataLba + |bits| && q != p ==> SectorAt(d1, q) == SectorAt(d, q)
    ensures UntouchedElsewhere(g, w, d0, d1, blocks[cur := p], cur + 1, |bits|)
  {
    hide SectorAt;
    var blocks1 := blocks[cur := p];
    assert blocks1[w.First()..cur + 1] == blocks[w.First()..cur] + [p];
  }

  // ---- from the loop to the file ----

  /** Before the loop: the indirect block is there if the write needs it, and the block list is the file's. */
  ghost predicate Prepared(g: Geometry, d0: Disk, bits0: seq<bool>, s0: seq<nat>,
                           d: Disk, bits: seq<bool>, blocks: seq<nat>, ind: nat)
    requires |s0| == NDIRECT + 1
  {
    && BitsGrow(bits0, bits) && |blocks| == 140
    && (ind == s0[NDIRECT] || (s0[NDIRECT] == 0 && Fresh(g, bits0, bits, ind)))
    && (forall i :: 0 <= i < 140 ==> blocks[i] == Ptr(d0, s0, i))
    && (forall p: nat :: g.dataLba <= p < g.dataLba + |bits| && p != ind ==> SectorAt(d, p) == SectorAt(d0, p))
    && SectorAt(d, ind) == if ind == s0[NDIRECT] then SectorAt(d0, ind) else ZeroSector()
  }

  lemma PreparedBlocksOk(g: Geometry, d0: Disk, bits0: seq<bool>, files: Files, n: nat,
                         d: Disk, bits: seq<bool>, blocks: seq<nat>, ind: nat)
    requires PtrsOk(g, d0, bits0, files) && n in files
    requires Prepared(g, d0, bits0, files[n].sectors, d, bits, blocks, ind)
    ensures BlocksOk(g, bits, ind, blocks)
  {
    var s0 := files[n].sectors;
    assert Ptr(d0, s0, 140) == s0[NDIRECT];
    assert AllUsed(g, d0, bits0, s0);
    hide Ptr;
    forall b, c | 0 <= b < c < 140 && blocks[b] != 0
      ensures blocks[b] != blocks[c]
    {
      assert Ptr(d0, s0, b) == blocks[b] && Ptr(d0, s0, c) == blocks[c];
    }
    forall b | 0 <= b < 140 && blocks[b] != 0
      ensures Used(g, bits, blocks[b]) && blocks[b] != ind
    {
      assert Ptr(d0, s0, b) == blocks[b];
    }
  }

  /** The pointers of a file stored as 12 direct words, an indirect pointer and its block. */
  lemma StoredPtrs(d: Disk, blocks: seq<nat>, ind: nat)
    requires |blocks| == 140
    requires forall i :: 0 <= i < 140 ==> blocks[i] < 0x1_0000_0000
    requires ind != 0 ==> SectorAt(d, ind) == PtrBlock(blocks[NDIRECT..])
    requires ind == 0 ==> forall i :: NDIRECT <= i < 140 ==> blocks[i] == 0
    ensures forall i :: 0 <= i < 140 ==> Ptr(d, blocks[..NDIRECT] + [ind], i) == blocks[i]
    ensures Ptr(d, blocks[..NDIRECT] + [ind], 140) == ind
  {
    hide U32, PtrBlock;
    var s := blocks[..NDIRECT] + [ind];
    forall i | NDIRECT <= i < 140
      ensures Ptr(d, s, i) == blocks[i]
    {
      if ind != 0 {
        PtrBlockRoundTrip(blocks[NDIRECT..], i - NDIRECT);
      }
    }
  }

  /** The pointers a file ends up with are old ones or fresh ones, whether or not the loop finished. */
  lemma WriteGrew(g: Geometry, w: WriteReq, d0: Disk, bits0: seq<bool>, s0: seq<nat>,
                  d1: Disk, bits1: seq<bool>, blocks1: seq<nat>, ind: nat,
                  d: Disk, bits: seq<bool>, blocks: seq<nat>, cur: nat, d2: Disk, s2: seq<nat>)
    requires |s0| == NDIRECT + 1 && |s2| == NDIRECT + 1
    requires Prepared(g, d0, bits0, s0, d1, bits1, blocks1, ind)
    requires Progress(g, w, ind, d1, bits1, blocks1, d, bits, blocks, cur)
    requires BlocksOk(g, bits, ind, blocks)
    requires forall i :: 0 <= i < 140 ==> Ptr(d2, s2, i) == blocks[i]
    requires Ptr(d2, s2, 140) == ind
    ensures Grew(g, d0, bits0, s0, d2, bits, s2)
  {
    assert Ptr(d0, s0, 140) == s0[NDIRECT];
    hide Ptr, SectorAt, WriteReq.NewBlock;
    assert BitsGrow(bits0, bits);
    forall i | 0 <= i < PTRS
      ensures Ptr(d2, s2, i) == Ptr(d0, s0, i) || Fresh(g, bits0, bits, Ptr(d2, s2, i))
    {
      if i < 140 {
        assert blocks1[i] == Ptr(d0, s0, i);
      }
    }
  }

  /** A file whose block list stayed as prepared has only gained an indirect block. */
  lemma PreparedGrew(g: Geometry, d0: Disk, bits0: seq<bool>, s0: seq<nat>,
                     d1: Disk, bits1: seq<bool>, blocks1: seq<nat>, ind: nat, d2: Disk, bits2: seq<bool>, s2: seq<nat>)
    requires |s0| == NDIRECT + 1 && |s2| == NDIRECT + 1
    requires Prepared(g, d0, bits0, s0, d1, bits1, blocks1, ind)
    requires BlocksOk(g, bits1, ind, blocks1) && BitsGrow(bits1, bits2)
    requires forall i :: 0 <= i < 140 ==> Ptr(d2, s2, i) == blocks1[i]
    requires Ptr(d2, s2, 140) == ind
    ensures Grew(g, d0, bits0, s0, d2, bits2, s2)
  {
    assert Ptr(d0, s0, 140) == s0[NDIRECT];
    hide Ptr, SectorAt;
    assert BitsGrow(bits0, bits2);
    forall i | 0 <= i < PTRS
      ensures Ptr(d2, s2, i) == Ptr(d0, s0, i) || Fresh(g, bits0, bits2, Ptr(d2, s2, i))
    {
    }
  }

  lemma ZeroWords(k: nat)
    requires k < 128
    ensures U32(ZeroSector(), 4 * k) == 0
  {
  }

  /** Until the final writes, the file still has the block list it was prepared with. */
  lemma PreparedPtrs(g: Geometry, w: WriteReq, d0: Disk, bits0: seq<bool>, s0: seq<nat>,
                     d1: Disk, bits1: seq<bool>, blocks1: seq<nat>, ind: nat,
                     d: Disk, bits: seq<bool>, blocks: seq<nat>, cur: nat)
    requires |s0| == NDIRECT + 1 && g.dataLba > 0
    requires Prepared(g, d0, bits0, s0, d1, bits1, blocks1, ind)
    requires Progress(g, w, ind, d1, bits1, blocks1, d, bits, blocks, cur)
    requires BlocksOk(g, bits, ind, blocks)
    ensures forall i :: 0 <= i < 140 ==> Ptr(d, s0[NDIRECT := ind], i) == blocks1[i]
    ensures Ptr(d, s0[NDIRECT := ind], 140) == ind
    ensures ind != s0[NDIRECT] ==> forall i :: NDIRECT <= i < 140 ==> blocks1[i] == 0
    ensures ind != 0 ==> SectorAt(d, ind) == SectorAt(d1, ind)
  {
    var s2 := s0[NDIRECT := ind];
    if ind != 0 {
      assert forall b :: w.First() <= b < cur ==> blocks[b] != ind;
      assert ind !in blocks[w.First()..cur];
      assert Used(g, bits, ind);
      assert SectorAt(d, ind) == SectorAt(d1, ind);
    }
    hide SectorAt, U32;
    forall i | 0 <= i < 140
      ensures Ptr(d, s2, i) == blocks1[i]
    {
      assert blocks1[i] == Ptr(d0, s0, i);
      if i >= NDIRECT {
        ZeroWords(i - NDIRECT);
      }
    }
  }

  /** What the loop and the final writes touch belongs to the file or was free. */
  lemma WriteOnlyTouched(g: Geometry, w: WriteReq, d0: Disk, bits0: seq<bool>, s0: seq<nat>,
                         d1: Disk, bits1: seq<bool>, blocks1: seq<nat>, ind: nat,
                         d: Disk, bits: seq<bool>, blocks: seq<nat>, cur: nat, d2: Disk)
    requires |s0| == NDIRECT + 1 && g.dataLba > 0
    requires Prepared(g, d0, bits0, s0, d1, bits1, blocks1, ind)
    requires Progress(g, w, ind, d1, bits1, blocks1, d, bits, blocks, cur)
    requires forall p: nat :: g.dataLba <= p < g.dataLba + |bits| && p != ind ==> SectorAt(d2, p) == SectorAt(d, p)
    ensures OnlyTouched(g, d0, bits0, s0, d2)
  {
    assert Ptr(d0, s0, 140) == s0[NDIRECT];
    hide Ptr, SectorAt, WriteReq.NewBlock;
    forall p: nat | Used(g, bits0, p) && !PointsTo(d0, s0, p)
      ensures SectorAt(d2, p) == SectorAt(d0, p)
    {
      forall b | w.First() <= b < cur
        ensures blocks[b] != p
      {
        assert blocks1[b] == Ptr(d0, s0, b);
        assert Ptr(d0, s0, b) != p;
      }
      assert p !in blocks[w.First()..cur];
      assert p != ind;
    }
  }

  // ---- what the finished write means for the file ----

  /** `was` with the bytes from `pos` on replaced by `data`, longer if `data` reaches beyond the end. */
  function Spliced(was: seq<bv8>, pos: nat, data: seq<bv8>): (r: seq<bv8>)
    requires pos <= |was|
    ensures |r| == if pos + |data| > |was| then pos + |data| else |was|
  {
    was[..pos] + data + (if pos + |data| < |was| then was[pos + |data|..] else [])
  }

  /** What a write really stores: on a boundary-ending write over several blocks, the last 512 bytes
      are those that the last block held before. */
  function Stored(w: WriteReq, last: Sector): (r: seq<bv8>)
    ensures |r| == |w.data|
  {
    if w.SkipsLast() then
      EndBounds(w); assert w.pos < 512 * (w.First() + 1);
      w.data[..|w.data| - 512] + last
    else w.data
  }

  /** Byte `i` of the file after the loop has passed its block. */
  lemma WrittenByte(g: Geometry, w: WriteReq, d0: Disk, bits0: seq<bool>, s0: seq<nat>,
                    d1: Disk, bits1: seq<bool>, blocks1: seq<nat>, ind: nat,
                    d: Disk, bits: seq<bool>, blocks: seq<nat>, cur: nat, d2: Disk, s2: seq<nat>, i: nat)
    requires |s0| == NDIRECT + 1 && |s2| == NDIRECT + 1 && i < MAX_FILE_SIZE
    requires Prepared(g, d0, bits0, s0, d1, bits1, blocks1, ind)
    requires Progress(g, w, ind, d1, bits1, blocks1, d, bits, blocks, cur)
    requires BlocksOk(g, bits, ind, blocks)
    requires forall p: nat :: g.dataLba <= p < g.dataLba + |bits| && p != ind ==> SectorAt(d2, p) == SectorAt(d, p)
    requires Ptr(d2, s2, i / 512) == blocks[i / 512]
    ensures w.First() <= i / 512 < cur ==>
              ByteAt(d2, s2, i) == w.NewByte(i, SectorAt(d1, blocks[i / 512])[i % 512])
    ensures !(w.First() <= i / 512 < cur) ==> ByteAt(d2, s2, i) == ByteAt(d0, s0, i)
    ensures Ptr(d0, s0, i / 512) != 0 && w.First() <= i / 512 < cur ==>
              ByteAt(d0, s0, i) == SectorAt(d1, blocks[i / 512])[i % 512]
  {
    var b := i / 512;
    assert blocks1[b] == Ptr(d0, s0, b);
    assert i == 512 * b + i % 512;
    if w.First() <= b < cur {
      assert SectorAt(d2, blocks[b]) == SectorAt(d, blocks[b]);
      InUseAsBefore(g, w, d0, bits0, s0, d1, bits1, blocks1, ind, d, bits, blocks, cur, b);
    } else {
      assert blocks[b] == blocks1[b];
      if blocks[b] != 0 {
        InUseAsBefore(g, w, d0, bits0, s0, d1, bits1, blocks1, ind, d, bits, blocks, cur, b);
      }
    }
  }

  lemma InUseAsBefore(g: Geometry, w: WriteReq, d0: Disk, bits0: seq<bool>, s0: seq<nat>,
                      d1: Disk, bits1: seq<bool>, blocks1: seq<nat>, ind: nat,
                      d: Disk, bits: seq<bool>, blocks: seq<nat>, cur: nat, b: nat)
    requires |s0| == NDIRECT + 1 && b < 140
    requires Prepared(g, d0, bits0, s0, d1, bits1, blocks1, ind)
    requires Progress(g, w, ind, d1, bits1, blocks1, d, bits, blocks, cur)
    requires BlocksOk(g, bits, ind, blocks)
    requires blocks[b] != 0
    ensures SectorAt(d1, blocks[b]) == SectorAt(d0, blocks[b])
    ensures blocks1[b] != 0 ==> blocks[b] == blocks1[b]
    ensures !(w.First() <= b < cur) ==> SectorAt(d, blocks[b]) == SectorAt(d1, blocks[b])
  {
    hide Ptr, SectorAt, WriteReq.NewBlock;
    assert Used(g, bits, blocks[b]) && blocks[b] != ind;
    if !(w.First() <= b < cur) {
      assert forall c :: w.First() <= c < cur ==> blocks[c] != blocks[b];
      assert blocks[b] !in blocks[w.First()..cur];
    }
  }

  lemma SplicedAt(was: seq<bv8>, pos: nat, data: seq<bv8>, i: nat)
    requires pos <= |was| && i < |Spliced(was, pos, data)|
    ensures Spliced(was, pos, data)[i] ==
            if pos <= i < pos + |data| then data[i - pos] else if i < |was| then was[i] else 0
  {
  }

  /** Byte `i` of what is stored, told by block: a skipped byte is the one its block held. */
  lemma StoredAt(w: WriteReq, last: Sector, i: nat)
    requires w.pos <= i < w.Limit()
    ensures w.First() <= i / 512 < w.End()
    ensures w.Covers(i) ==> Stored(w, last)[i - w.pos] == w.data[i - w.pos]
    ensures !w.Covers(i) ==> i / 512 == w.End() - 1 && Stored(w, last)[i - w.pos] == last[i % 512]
  {
    EndBounds(w);
    if !w.Covers(i) {
      assert 512 * (w.End() - 1) <= i < 512 * w.End();
    }
  }

  /** The file after a finished write: the old bytes with what the write stores spliced in. */
  lemma WrittenContent(g: Geometry, w: WriteReq, d0: Disk, bits0: seq<bool>, m0: Meta,
                       d1: Disk, bits1: seq<bool>, blocks1: seq<nat>, ind: nat,
                       d: Disk, bits: seq<bool>, blocks: seq<nat>, d2: Disk, m2: Meta, last: Sector)
    requires ShapeOk(m0) && ShapeOk(m2) && NoHoles(d0, m0) && w.pos <= m0.size
    requires m2.size == if w.Limit() > m0.size then w.Limit() else m0.size
    requires w.End() <= 140
    requires Prepared(g, d0, bits0, m0.sectors, d1, bits1, blocks1, ind)
    requires Progress(g, w, ind, d1, bits1, blocks1, d, bits, blocks, w.End())
    requires BlocksOk(g, bits, ind, blocks)
    requires forall p: nat :: g.dataLba <= p < g.dataLba + |bits| && p != ind ==> SectorAt(d2, p) == SectorAt(d, p)
    requires forall i :: 0 <= i < 140 ==> Ptr(d2, m2.sectors, i) == blocks[i]
    requires w.First() < w.End() ==> last == SectorAt(d1, blocks[w.End() - 1])
    ensures Content(d2, m2) == Spliced(Content(d0, m0), w.pos, Stored(w, last))
    ensures NoHoles(d2, m2)
  {
    forall i | 0 <= i < m2.size
      ensures Content(d2, m2)[i] == Spliced(Content(d0, m0), w.pos, Stored(w, last))[i]
    {
      WrittenContentAt(g, w, d0, bits0, m0, d1, bits1, blocks1, ind, d, bits, blocks, d2, m2, last, i);
    }
    WrittenNoHoles(w, d0, m0, blocks1, ind, d, blocks, d2, m2);
  }

  lemma WrittenNoHoles(w: WriteReq, d0: Disk, m0: Meta, blocks1: seq<nat>, ind: nat, d: Disk, blocks: seq<nat>, d2: Disk, m2: Meta)
    requires ShapeOk(m0) && ShapeOk(m2) && NoHoles(d0, m0) && w.pos <= m0.size
    requires m2.size == if w.Limit() > m0.size then w.Limit() else m0.size
    requires |blocks1| == 140 && |blocks| == 140 && w.End() <= 140
    requires forall i :: 0 <= i < 140 ==> blocks1[i] == Ptr(d0, m0.sectors, i)
    requires forall b :: w.First() <= b < w.End() ==> blocks[b] != 0
    requires forall b :: 0 <= b < 140 && !(w.First() <= b < w.End()) ==> blocks[b] == blocks1[b]
    requires forall i :: 0 <= i < 140 ==> Ptr(d2, m2.sectors, i) == blocks[i]
    ensures NoHoles(d2, m2)
  {
    hide Ptr;
    EndBounds(w);
    forall b | 0 <= b < 140 && 512 * b < m2.size
      ensures Ptr(d2, m2.sectors, b) != 0
    {
      if !(w.First() <= b < w.End()) {
        assert 512 * b < m0.size;
        assert Ptr(d0, m0.sectors, b) != 0;
        assert blocks1[b] == Ptr(d0, m0.sectors, b);
      }
    }
  }

  lemma WrittenContentAt(g: Geometry, w: WriteReq, d0: Disk, bits0: seq<bool>, m0: Meta,
                         d1: Disk, bits1: seq<bool>, blocks1: seq<nat>, ind: nat,
                         d: Disk, bits: seq<bool>, blocks: seq<nat>, d2: Disk, m2: Meta, last: Sector, i: nat)
    requires ShapeOk(m0) && ShapeOk(m2) && NoHoles(d0, m0) && w.pos <= m0.size
    requires m2.size == if w.Limit() > m0.size then w.Limit() else m0.size
    requires w.End() <= 140
    requires Prepared(g, d0, bits0, m0.sectors, d1, bits1, blocks1, ind)
    requires Progress(g, w, ind, d1, bits1, blocks1, d, bits, blocks, w.End())
    requires BlocksOk(g, bits, ind, blocks)
    requires forall p: nat :: g.dataLba <= p < g.dataLba + |bits| && p != ind ==> SectorAt(d2, p) == SectorAt(d, p)
    requires forall i :: 0 <= i < 140 ==> Ptr(d2, m2.sectors, i) == blocks[i]
    requires w.First() < w.End() ==> last == SectorAt(d1, blocks[w.End() - 1])
    requires i < m2.size
    ensures Content(d2, m2)[i] == Spliced(Content(d0, m0), w.pos, Stored(w, last))[i]
  {
    hide Ptr, SectorAt, Stored, Spliced, Prepared, Progress, BlocksOk, WriteReq.End, WriteReq.First, WriteReq.NewByte, ByteAt, Fresh;
    ProgressLen(g, w, ind, d1, bits1, blocks1, d, bits, blocks, w.End());
    assert i / 512 < 140;
    WrittenByte(g, w, d0, bits0, m0.sectors, d1, bits1, blocks1, ind, d, bits, blocks, w.End(), d2, m2.sectors, i);
    var c0 := Content(d0, m0);
    var blk := if w.First() <= i / 512 < w.End() then SectorAt(d1, blocks[i / 512])[i % 512] else 0;
    if i < m0.size {
      assert 512 * (i / 512) <= i;
      assert Ptr(d0, m0.sectors, i / 512) != 0;
      assert c0[i] == ByteAt(d0, m0.sectors, i);
    }
    SplicedByte(w, c0, last, i, Content(d2, m2)[i], blk);
  }

  lemma SplicedByte(w: WriteReq, was: seq<bv8>, last: Sector, i: nat, got: bv8, blk: bv8)
    requires w.pos <= |was| && (i < |was| || i < w.Limit())
    requires w.First() <= i / 512 < w.End() ==> got == w.NewByte(i, blk) && (i < |was| ==> was[i] == blk)
    requires !(w.First() <= i / 512 < w.End()) && i < |was| ==> got == was[i]
    requires w.First() <= i / 512 == w.End() - 1 ==> blk == last[i % 512]
    ensures got == Spliced(was, w.pos, Stored(w, last))[i]
  {
    SplicedAt(was, w.pos, Stored(w, last), i);
    hide Stored, Spliced, WriteReq.End, WriteReq.First;
    if w.pos <= i < w.Limit() {
      StoredAt(w, last, i);
    }
  }

  /** The file after a write that ran out of blocks at block `cur`: everything up to the old end is written. */
  lemma FailedContent(g: Geometry, w: WriteReq, d0: Disk, bits0: seq<bool>, m0: Meta,
                      d1: Disk, bits1: seq<bool>, blocks1: seq<nat>, ind: nat,
                      d: Disk, bits: seq<bool>, blocks: seq<nat>, cur: nat, m2: Meta)
    requires ShapeOk(m0) && ShapeOk(m2) && NoHoles(d0, m0) && w.pos <= m0.size && m2.size == m0.size
    requires cur < w.End() <= 140 == |blocks1| && blocks1[cur] == 0
    requires Prepared(g, d0, bits0, m0.sectors, d1, bits1, blocks1, ind)
    requires Progress(g, w, ind, d1, bits1, blocks1, d, bits, blocks, cur)
    requires BlocksOk(g, bits, ind, blocks)
    requires forall i :: 0 <= i < 140 && 512 * i < m0.size ==> Ptr(d, m2.sectors, i) == blocks[i]
    ensures m0.size - w.pos <= |w.data|
    ensures Content(d, m2) == Spliced(Content(d0, m0), w.pos, w.data[..m0.size - w.pos])
  {
    EndBounds(w);
    assert blocks1[cur] == Ptr(d0, m0.sectors, cur);
    assert m0.size <= 512 * cur;
    var r := Spliced(Content(d0, m0), w.pos, w.data[..m0.size - w.pos]);
    assert |r| == m0.size;
    forall i | 0 <= i < m0.size
      ensures Content(d, m2)[i] == r[i]
    {
      FailedContentAt(g, w, d0, bits0, m0, d1, bits1, blocks1, ind, d, bits, blocks, cur, m2, i);
    }
  }

  lemma FailedContentAt(g: Geometry, w: WriteReq, d0: Disk, bits0: seq<bool>, m0: Meta,
                        d1: Disk, bits1: seq<bool>, blocks1: seq<nat>, ind: nat,
                        d: Disk, bits: seq<bool>, blocks: seq<nat>, cur: nat, m2: Meta, i: nat)
    requires ShapeOk(m0) && ShapeOk(m2) && NoHoles(d0, m0) && w.pos <= m0.size && m2.size == m0.size
    requires cur < w.End() <= 140 && i < m0.size <= 512 * cur && m0.size - w.pos <= |w.data|
    requires Prepared(g, d0, bits0, m0.sectors, d1, bits1, blocks1, ind)
    requires Progress(g, w, ind, d1, bits1, blocks1, d, bits, blocks, cur)
    requires BlocksOk(g, bits, ind, blocks)
    requires forall i :: 0 <= i < 140 && 512 * i < m0.size ==> Ptr(d, m2.sectors, i) == blocks[i]
    ensures Content(d, m2)[i] == Spliced(Content(d0, m0), w.pos, w.data[..m0.size - w.pos])[i]
  {
    assert 512 * (i / 512) <= i;
    WrittenByte(g, w, d0, bits0, m0.sectors, d1, bits1, blocks1, ind, d, bits, blocks, cur, d, m2.sectors, i);
    SplicedAt(Content(d0, m0), w.pos, w.data[..m0.size - w.pos], i);
    EndBounds(w);
    assert i / 512 < cur;
    assert Ptr(d0, m0.sectors, i / 512) != 0;
    hide Ptr, SectorAt, ByteAt, Spliced, Prepared, Progress, BlocksOk, WriteReq.End;
    if w.pos <= i {
      assert i < 512 * (w.End() - 1);
      assert w.Covers(i);
    }
  }

  /** A write is exact unless it skips its last block and that block held something else. */
  lemma StoredExact(w: WriteReq, last: Sector, was: seq<bv8>)
    requires w.pos <= |was|
    ensures w.SkipsLast() ==> |w.data| >= 512
    ensures Spliced(was, w.pos, Stored(w, last)) == Spliced(was, w.pos, w.data)
            <==> (w.SkipsLast() ==> w.data[|w.data| - 512..] == last)
  {
    EndBounds(w);
    assert w.pos < 512 * (w.First() + 1);
    var a := Spliced(was, w.pos, Stored(w, last));
    var b := Spliced(was, w.pos, w.data);
    assert a[w.pos..w.Limit()] == Stored(w, last);
    assert b[w.pos..w.Limit()] == w.data;
    if w.SkipsLast() {
      assert Stored(w, last)[|w.data| - 512..] == last;
      assert w.data == w.data[..|w.data| - 512] + w.data[|w.data| - 512..];
    }
  }

  /** A boundary-ending write over two blocks that does lose its last block. */
  lemma SkipHappens()
    ensures exists w: WriteReq, last: Sector, was: seq<bv8> ::
      w.pos <= |was| && Spliced(was, w.pos, Stored(w, last)) != Spliced(was, w.pos, w.data)
  {
    var w := WriteReq(0, seq(1024, _ => 1));
    StoredExact(w, ZeroSector(), []);
    assert w.data[512..][0] == 1;
    assert ZeroSector()[0] == 0;
  }
}
