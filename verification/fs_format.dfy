/** On-disk format of the file system: little-endian words, the super block layout (fs/fs.c),
    indirect blocks, and inode slots packed 160 bytes apart so that many straddle two sectors (fs/inode.c). */
module FsFormat {

  const SECTOR_SIZE := 512
  const BITS_PER_SECTOR := 4096
  const NDIRECT := 12
  const MAX_FILE_BLOCKS_CNT := 140
  const MAX_FILE_SIZE := 71680
  const MAX_FILES_PER_PART := 4096
  const INODE_SIZE := 160
  const INODE_TABLE_SECTS := 1280

  type Sector = s: seq<bv8> | |s| == 512 witness seq(512, _ => 0)

  function ZeroSector(): Sector {
    seq(512, _ => 0)
  }

  /** A disk is its sectors; reads beyond the end are given a value so that functions on disks are total. */
  type Disk = seq<Sector>

  function SectorAt(d: Disk, lba: nat): Sector {
    if lba < |d| then d[lba] else ZeroSector()
  }

  // ---- little-endian words ----

  function Pow256(k: nat): nat
    requires k < 8
  {
    if k == 0 then 1
    else if k == 1 then 0x100
    else if k == 2 then 0x1_0000
    else if k == 3 then 0x100_0000
    else if k == 4 then 0x1_0000_0000
    else if k == 5 then 0x100_0000_0000
    else if k == 6 then 0x1_0000_0000_0000
    else 0x100_0000_0000_0000
  }

  /** Byte `k` of `n` in little-endian order. */
  function ByteOf(n: nat, k: nat): bv8
    requires k < 8
  {
    ((n / Pow256(k)) % 256) as bv8
  }

  function U32(s: seq<bv8>, o: nat): nat
    requires o + 4 <= |s|
  {
    s[o] as nat + 0x100 * (s[o + 1] as nat) + 0x1_0000 * (s[o + 2] as nat) + 0x100_0000 * (s[o + 3] as nat)
  }

  lemma ByteOfAsNat(n: nat, k: nat)
    requires k < 8
    ensures ByteOf(n, k) as nat == (n / Pow256(k)) % 256
  {
    AsNatOfByte((n / Pow256(k)) % 256);
  }

  lemma AsNatOfByte(x: nat)
    requires x < 256
    ensures (x as bv8) as nat == x
  {
    if x < 16 {
    } else if x < 32 {
    } else if x < 64 {
    } else if x < 96 {
    } else if x < 128 {
    } else if x < 160 {
    } else if x < 192 {
    } else if x < 224 {
    }
  }

  /** Four little-endian bytes give the word back. */
  lemma Le32RoundTrip(s: seq<bv8>, o: nat, n: nat)
    requires o + 4 <= |s| && n < 0x1_0000_0000
    requires forall k :: 0 <= k < 4 ==> s[o + k] == ByteOf(n, k)
    ensures U32(s, o) == n
  {
    assert s[o] == s[o + 0];
    ByteOfAsNat(n, 0);
    ByteOfAsNat(n, 1);
    ByteOfAsNat(n, 2);
    ByteOfAsNat(n, 3);
    Base256(n);
  }

  lemma Base256(n: nat)
    requires n < 0x1_0000_0000
    ensures n % 256 + 0x100 * (n / 0x100 % 256) + 0x1_0000 * (n / 0x1_0000 % 256) + 0x100_0000 * (n / 0x100_0000 % 256) == n
  {
    var a := n / 0x100;
    var b := a / 0x100;
    var c := b / 0x100;
    assert n == 0x100 * a + n % 0x100;
    assert a == 0x100 * b + a % 0x100;
    assert b == 0x100 * c + b % 0x100;
    assert n / 0x1_0000 == b;
    assert n / 0x100_0000 == c;
  }

  // ---- the super block layout: sb_init ----

  datatype Geometry = Geometry(bitmapLba: nat, bitmapSects: nat, inodeBitmapLba: nat, tableLba: nat, dataLba: nat) {
    ghost predicate Wf() {
      && 0 < bitmapSects
      && inodeBitmapLba == bitmapLba + bitmapSects
      && tableLba == inodeBitmapLba + 1
      && dataLba == tableLba + INODE_TABLE_SECTS
      && 0 < bitmapLba
      && dataLba + BITS_PER_SECTOR * bitmapSects < 0x8000_0000
    }
  }

  function DivRoundUp(x: nat, step: nat): nat
    requires step > 0
  {
    (x + step - 1) / step
  }

  function SbInit(secCnt: nat, startLba: nat): Geometry {
    var blockBitmapSects := DivRoundUp(secCnt, BITS_PER_SECTOR);
    var inodeBitmapSects := DivRoundUp(MAX_FILES_PER_PART, BITS_PER_SECTOR);
    var inodeTableSects := DivRoundUp(MAX_FILES_PER_PART * INODE_SIZE, SECTOR_SIZE);
    var blockBitmapLba := startLba + 2;
    var inodeBitmapLba := blockBitmapLba + blockBitmapSects;
    var inodeTableLba := inodeBitmapLba + inodeBitmapSects;
    Geometry(blockBitmapLba, blockBitmapSects, inodeBitmapLba, inodeTableLba, inodeTableLba + inodeTableSects)
  }

  /** Rounding up a division covers `x` and wastes less than one step. */
  lemma RoundedUp(x: nat, step: nat)
    requires step > 0
    ensures step * DivRoundUp(x, step) - step < x <= step * DivRoundUp(x, step)
  {
    var n := x + step - 1;
    assert n == step * (n / step) + n % step;
  }

  /** The zones of a formatted partition: boot block and super block, a block bitmap with a bit for every sector of the
      partition and no sector too many, one sector of inode bitmap, 4096 inodes of 160 bytes, the data area. */
  ghost predicate LaidOut(secCnt: nat, startLba: nat, g: Geometry) {
    && g.bitmapLba == startLba + 2
    && 4096 * g.bitmapSects - 4096 < secCnt <= 4096 * g.bitmapSects
    && g.inodeBitmapLba == g.bitmapLba + g.bitmapSects
    && g.tableLba == g.inodeBitmapLba + 1
    && 512 * (g.dataLba - g.tableLba) == 4096 * 160
  }

  lemma Covers(secCnt: nat, startLba: nat, g: Geometry)
    requires LaidOut(secCnt, startLba, g)
    ensures secCnt <= 4096 * g.bitmapSects
  {
  }

  /** The layout that formatting writes has its zones back to back and in the size they need, for every partition the
      32-bit signed block numbers of inode_write can address. */
  lemma SbInitWf(secCnt: nat, startLba: nat)
    ensures LaidOut(secCnt, startLba, SbInit(secCnt, startLba))
    ensures secCnt > 0 && startLba + 2 * secCnt + 6000 < 0x8000_0000 ==> SbInit(secCnt, startLba).Wf()
    ensures SbInit(secCnt, startLba).Wf() ==> secCnt > 0
  {
    RoundedUp(secCnt, BITS_PER_SECTOR);
    RoundedUp(MAX_FILES_PER_PART, BITS_PER_SECTOR);
    RoundedUp(MAX_FILES_PER_PART * INODE_SIZE, SECTOR_SIZE);
    hide DivRoundUp;
    if 0 < secCnt {
      assert DivRoundUp(secCnt, BITS_PER_SECTOR) <= secCnt;
    }
  }

  /** Bit k of the block bitmap stands for the sector dataLba + k.  The bitmap is as large as the partition and not as
      large as its data area, so its last bits stand for sectors behind the partition: exactly those from the number on
      that is left when boot block, super block, bitmaps and table are taken off. */
  lemma BlockInPartitionExactly(secCnt: nat, startLba: nat, k: nat)
    ensures var g := SbInit(secCnt, startLba);
            g.dataLba + k < startLba + secCnt <==> k + 1283 + g.bitmapSects < secCnt
  {
    SbInitWf(secCnt, startLba);
  }

  /** The one partition of the default disk: five sectors of block bitmap, data from sector 3336 on, and bit 16824 of
      20480 is the first that stands for a sector behind the partition. */
  lemma LastBitsAreOutside()
    ensures SbInit(18112, 2048) == Geometry(2050, 5, 2055, 2056, 3336)
    ensures 16824 < 4096 * 5 && 3336 + 16824 == 2048 + 18112
  {
    SbInitWf(18112, 2048);
    var g := SbInit(18112, 2048);
    assert g.bitmapSects == 5;
  }

  // ---- indirect blocks ----

  /** The 128 words of `p` as the bytes of one sector. */
  function PtrBlock(p: seq<nat>): Sector
    requires |p| == 128
  {
    seq(512, i requires 0 <= i < 512 => ByteOf(p[i / 4], i % 4))
  }

  lemma PtrBlockRoundTrip(p: seq<nat>, k: nat)
    requires |p| == 128 && k < 128 && p[k] < 0x1_0000_0000
    ensures U32(PtrBlock(p), 4 * k) == p[k]
  {
    Le32RoundTrip(PtrBlock(p), 4 * k, p[k]);
  }

  // ---- inode slots ----

  datatype Meta = Meta(size: nat, ftype: nat, sectors: seq<nat>) {
    ghost predicate Fits() {
      && size < 0x1_0000_0000 && ftype < 0x1_0000_0000
      && |sectors| == NDIRECT + 1
      && forall i :: 0 <= i < |sectors| ==> sectors[i] < 0x1_0000_0000
    }
  }

  /** `struct inode` in memory: 160 bytes, of which size is at 8, type at 24 and the sectors at 88.
      The rest (number, open count, lock, list links) is copied along unexamined. */
  function EncodeInode(m: Meta, rest: seq<bv8>): (r: seq<bv8>)
    requires |m.sectors| == NDIRECT + 1 && |rest| == INODE_SIZE
    ensures |r| == INODE_SIZE
  {
    seq(INODE_SIZE, i requires 0 <= i < INODE_SIZE =>
      if 8 <= i < 16 then ByteOf(m.size, i - 8)
      else if 24 <= i < 28 then ByteOf(m.ftype, i - 24)
      else if 88 <= i < 140 then ByteOf(m.sectors[(i - 88) / 4], (i - 88) % 4)
      else rest[i])
  }

  function DecodeInode(s: seq<bv8>): (m: Meta)
    requires |s| == INODE_SIZE
    ensures |m.sectors| == NDIRECT + 1
  {
    Meta(U32(s, 8) + 0x1_0000_0000 * U32(s, 12), U32(s, 24),
         seq(NDIRECT + 1, k requires 0 <= k < NDIRECT + 1 => U32(s, 88 + 4 * k)))
  }

  lemma DecodeEncode(m: Meta, rest: seq<bv8>)
    requires m.Fits() && |rest| == INODE_SIZE
    ensures DecodeInode(EncodeInode(m, rest)) == m
  {
    var s := EncodeInode(m, rest);
    SizeField(m, rest);
    TypeField(m, rest);
    hide U32, EncodeInode;
    forall k | 0 <= k < NDIRECT + 1
      ensures U32(s, 88 + 4 * k) == m.sectors[k]
    {
      SectorField(m, rest, k);
    }
    assert DecodeInode(s).sectors == m.sectors;
  }

  lemma SizeField(m: Meta, rest: seq<bv8>)
    requires m.Fits() && |rest| == INODE_SIZE
    ensures U32(EncodeInode(m, rest), 8) == m.size && U32(EncodeInode(m, rest), 12) == 0
  {
    hide U32;
    var s := EncodeInode(m, rest);
    Le32RoundTrip(s, 8, m.size);
    HighBytesZero(m.size);
    Le32RoundTrip(s, 12, 0);
  }

  lemma TypeField(m: Meta, rest: seq<bv8>)
    requires m.Fits() && |rest| == INODE_SIZE
    ensures U32(EncodeInode(m, rest), 24) == m.ftype
  {
    hide U32;
    Le32RoundTrip(EncodeInode(m, rest), 24, m.ftype);
  }

  lemma SectorField(m: Meta, rest: seq<bv8>, k: nat)
    requires m.Fits() && |rest| == INODE_SIZE && k < NDIRECT + 1
    ensures U32(EncodeInode(m, rest), 88 + 4 * k) == m.sectors[k]
  {
    Le32RoundTrip(EncodeInode(m, rest), 88 + 4 * k, m.sectors[k]);
  }

  /** Where the fields of an inode lie in its 160 bytes, lowest byte first: the size from 8 on, the type from 24 on, the
      block numbers from 88 on; every other byte is copied. */
  lemma InodeLayout(m: Meta, rest: seq<bv8>)
    requires m.Fits() && |rest| == INODE_SIZE
    ensures var s := EncodeInode(m, rest);
            && s[8] as nat == m.size % 0x100 && s[9] as nat == m.size / 0x100 % 0x100
            && s[10] as nat == m.size / 0x1_0000 % 0x100 && s[11] as nat == m.size / 0x100_0000 % 0x100
            && U32(s, 24) == m.ftype && (forall k :: 0 <= k <= NDIRECT ==> U32(s, 88 + 4 * k) == m.sectors[k])
            && (forall i :: 0 <= i < INODE_SIZE && !(8 <= i < 16) && !(24 <= i < 28) && !(88 <= i < 140) ==> s[i] == rest[i])
  {
    ByteOfAsNat(m.size, 0);
    ByteOfAsNat(m.size, 1);
    ByteOfAsNat(m.size, 2);
    ByteOfAsNat(m.size, 3);
    TypeField(m, rest);
    hide U32, ByteOf;
    forall k | 0 <= k <= NDIRECT ensures U32(EncodeInode(m, rest), 88 + 4 * k) == m.sectors[k] {
      SectorField(m, rest, k);
    }
  }

  lemma HighBytesZero(n: nat)
    requires n < 0x1_0000_0000
    ensures forall k :: 0 <= k < 4 ==> ByteOf(n, 4 + k) == ByteOf(0, k)
  {
  }

  /** The disk as one run of bytes. */
  function FlatByte(d: Disk, a: nat): bv8 {
    SectorAt(d, a / 512)[a % 512]
  }

  /** inode_locate: sector within the table and byte offset within that sector. */
  function InodeSector(no: nat): nat { no * INODE_SIZE / SECTOR_SIZE }
  function InodeOffset(no: nat): nat { no * INODE_SIZE % SECTOR_SIZE }

  /** The two-sector buffer that inode_open and inode_sync read around slot `no`. */
  function Window(d: Disk, g: Geometry, no: nat): (w: seq<bv8>)
    ensures |w| == 1024
  {
    SectorAt(d, g.tableLba + InodeSector(no)) + SectorAt(d, g.tableLba + InodeSector(no) + 1)
  }

  function Slot(d: Disk, g: Geometry, no: nat): (s: seq<bv8>)
    ensures |s| == INODE_SIZE
  {
    Window(d, g, no)[InodeOffset(no)..InodeOffset(no) + INODE_SIZE]
  }

  /** memcpy of `data` to offset `off` of a buffer. */
  function Patch(buf: seq<bv8>, off: nat, data: seq<bv8>): (r: seq<bv8>)
    requires off + |data| <= |buf|
    ensures |r| == |buf|
    ensures forall i :: 0 <= i < |buf| ==> r[i] == if off <= i < off + |data| then data[i - off] else buf[i]
  {
    buf[..off] + data + buf[off + |data|..]
  }

  /** The disk after inode_sync writes the patched window back. */
  function Synced(d: Disk, g: Geometry, no: nat, bytes: seq<bv8>): (d': Disk)
    requires |bytes| == INODE_SIZE && g.tableLba + InodeSector(no) + 1 < |d|
    ensures |d'| == |d|
  {
    var w := Patch(Window(d, g, no), InodeOffset(no), bytes);
    d[g.tableLba + InodeSector(no) := w[..512]][g.tableLba + InodeSector(no) + 1 := w[512..]]
  }

  lemma SlotIsFlat(d: Disk, g: Geometry, no: nat, i: nat)
    requires i < INODE_SIZE
    ensures Slot(d, g, no)[i] == FlatByte(d, 512 * g.tableLba + INODE_SIZE * no + i)
  {
    var a := 512 * g.tableLba + INODE_SIZE * no + i;
    var off := InodeOffset(no) + i;
    assert a == 512 * (g.tableLba + InodeSector(no)) + off;
    if off < 512 {
      assert a / 512 == g.tableLba + InodeSector(no) && a % 512 == off;
    } else {
      assert a / 512 == g.tableLba + InodeSector(no) + 1 && a % 512 == off - 512;
    }
  }

  /** inode_sync changes exactly the bytes of its own slot, wherever the slot lies in its window. */
  lemma SyncedFlat(d: Disk, g: Geometry, no: nat, bytes: seq<bv8>, a: nat)
    requires |bytes| == INODE_SIZE && g.tableLba + InodeSector(no) + 1 < |d|
    ensures FlatByte(Synced(d, g, no, bytes), a) ==
            var base := 512 * g.tableLba + INODE_SIZE * no;
            if base <= a < base + INODE_SIZE then bytes[a - base] else FlatByte(d, a)
  {
    var base := 512 * g.tableLba + INODE_SIZE * no;
    var lba := g.tableLba + InodeSector(no);
    assert base == 512 * lba + InodeOffset(no);
    var w := Patch(Window(d, g, no), InodeOffset(no), bytes);
    assert w[..512] + w[512..] == w;
    if a / 512 == lba {
      assert FlatByte(Synced(d, g, no, bytes), a) == w[a % 512];
      assert a == 512 * lba + a % 512;
    } else if a / 512 == lba + 1 {
      assert FlatByte(Synced(d, g, no, bytes), a) == w[512 + a % 512];
      assert a == 512 * (lba + 1) + a % 512;
    }
  }

  lemma SyncedOwnSlot(d: Disk, g: Geometry, no: nat, bytes: seq<bv8>)
    requires |bytes| == INODE_SIZE && g.tableLba + InodeSector(no) + 1 < |d|
    ensures Slot(Synced(d, g, no, bytes), g, no) == bytes
  {
    hide Slot, Synced, FlatByte;
    var d' := Synced(d, g, no, bytes);
    forall i | 0 <= i < INODE_SIZE
      ensures Slot(d', g, no)[i] == bytes[i]
    {
      SlotIsFlat(d', g, no, i);
      SyncedFlat(d, g, no, bytes, 512 * g.tableLba + INODE_SIZE * no + i);
    }
  }

  lemma SyncedOtherSlot(d: Disk, g: Geometry, no: nat, bytes: seq<bv8>, other: nat)
    requires |bytes| == INODE_SIZE && g.tableLba + InodeSector(no) + 1 < |d| && other != no
    ensures Slot(Synced(d, g, no, bytes), g, other) == Slot(d, g, other)
  {
    hide Slot, Synced, FlatByte;
    var d' := Synced(d, g, no, bytes);
    forall i | 0 <= i < INODE_SIZE
      ensures Slot(d', g, other)[i] == Slot(d, g, other)[i]
    {
      SlotIsFlat(d', g, other, i);
      SlotIsFlat(d, g, other, i);
      SyncedFlat(d, g, no, bytes, 512 * g.tableLba + INODE_SIZE * other + i);
    }
  }

  /** No sector outside the inode table changes, although the window of the last slots reaches the
      first data sector. */
  lemma SyncedOutsideTable(d: Disk, g: Geometry, no: nat, bytes: seq<bv8>, lba: nat)
    requires |bytes| == INODE_SIZE && g.tableLba + InodeSector(no) + 1 < |d|
    requires no < MAX_FILES_PER_PART
    requires lba < g.tableLba || g.tableLba + INODE_TABLE_SECTS <= lba
    ensures SectorAt(Synced(d, g, no, bytes), lba) == SectorAt(d, lba)
  {
    var d' := Synced(d, g, no, bytes);
    forall i | 0 <= i < 512
      ensures SectorAt(d', lba)[i] == SectorAt(d, lba)[i]
    {
      var a := 512 * lba + i;
      assert a / 512 == lba && a % 512 == i;
      SyncedFlat(d, g, no, bytes, a);
      assert INODE_SIZE * no + INODE_SIZE <= 512 * INODE_TABLE_SECTS;
    }
  }
}
