/** kernel/memory.c: four-level page tables edited through a recursive self-map.
    A page table is 512 words in a frame; every table access of the kernel goes through the MMU at an
    address computed by pml4e_ptr, pdpte_ptr, pde_ptr or pte_ptr. */
module Paging {
  import opened Basics

  // ---- addresses ----

  function Pml4eIdx(addr: bv64): bv64 { (addr & 0xff8000000000) >> 39 }
  function PdpteIdx(addr: bv64): bv64 { (addr & 0x007fc0000000) >> 30 }
  function PdeIdx(addr: bv64): bv64 { (addr & 0x3fe00000) >> 21 }
  function PteIdx(addr: bv64): bv64 { (addr & 0x1ff000) >> 12 }

  function Pml4ePtr(v: bv64): bv64 { 0xfffffffffffff000 + Pml4eIdx(v) * 8 }
  function PdptePtr(v: bv64): bv64 { 0xffffffffffe00000 + (Pml4eIdx(v) << 12) + PdpteIdx(v) * 8 }
  function PdePtr(v: bv64): bv64 { 0xffffffffc0000000 + (Pml4eIdx(v) << 21) + (PdpteIdx(v) << 12) + PdeIdx(v) * 8 }
  function PtePtr(v: bv64): bv64 {
    0xffffff8000000000 + (Pml4eIdx(v) << 30) + (PdpteIdx(v) << 21) + (PdeIdx(v) << 12) + PteIdx(v) * 8
  }

  function NatOf(x: bv64): nat { x as nat }

  /** The index that level `l` of the walk takes from an address; level 0 is the PML4. */
  function Idx(l: nat, addr: bv64): (i: nat)
    requires l < 4
    ensures i < 512
  {
    if l == 0 then NatOf(Pml4eIdx(addr))
    else if l == 1 then NatOf(PdpteIdx(addr))
    else if l == 2 then NatOf(PdeIdx(addr))
    else NatOf(PteIdx(addr))
  }

  /** The array `fu` of the source: the virtual address of the level-`l` entry for `v`. */
  function Fu(l: nat, v: bv64): bv64
    requires l < 4
  {
    if l == 0 then Pml4ePtr(v) else if l == 1 then PdptePtr(v) else if l == 2 then PdePtr(v) else PtePtr(v)
  }

  function Offset(addr: bv64): bv64 { (addr & 0xfff) >> 3 }

  /** The word within its page that an address designates. */
  function WordOf(addr: bv64): (i: nat)
    ensures i < 512
  {
    NatOf(Offset(addr))
  }

  lemma Pml4ePtrBits(v: bv64)
    ensures Pml4eIdx(Pml4ePtr(v)) == 511 && PdpteIdx(Pml4ePtr(v)) == 511
    ensures PdeIdx(Pml4ePtr(v)) == 511 && PteIdx(Pml4ePtr(v)) == 511
    ensures Offset(Pml4ePtr(v)) == Pml4eIdx(v)
  {
  }

  lemma PdptePtrBits(v: bv64)
    ensures Pml4eIdx(PdptePtr(v)) == 511 && PdpteIdx(PdptePtr(v)) == 511
    ensures PdeIdx(PdptePtr(v)) == 511 && PteIdx(PdptePtr(v)) == Pml4eIdx(v)
    ensures Offset(PdptePtr(v)) == PdpteIdx(v)
  {
  }

  lemma PdePtrBits(v: bv64)
    ensures Pml4eIdx(PdePtr(v)) == 511 && PdpteIdx(PdePtr(v)) == 511
    ensures PdeIdx(PdePtr(v)) == Pml4eIdx(v) && PteIdx(PdePtr(v)) == PdpteIdx(v)
    ensures Offset(PdePtr(v)) == PdeIdx(v)
  {
  }

  lemma PtePtrBits(v: bv64)
    ensures Pml4eIdx(PtePtr(v)) == 511 && PdpteIdx(PtePtr(v)) == Pml4eIdx(v)
    ensures PdeIdx(PtePtr(v)) == PdpteIdx(v) && PteIdx(PtePtr(v)) == PdeIdx(v)
    ensures Offset(PtePtr(v)) == PteIdx(v)
  {
  }

  /** The entry pointer of level `l` takes the self-entry 4 - l times and then the upper indices of `v`. */
  lemma FuIndices(l: nat, v: bv64, k: nat)
    requires l < 4 && k < 4
    ensures Idx(k, Fu(l, v)) == if k < 4 - l then 511 else Idx(k - (4 - l), v)
  {
    assert NatOf(511) == 511;
    hide Pml4eIdx, PdpteIdx, PdeIdx, PteIdx, Pml4ePtr, PdptePtr, PdePtr, PtePtr, NatOf;
    Pml4ePtrBits(v);
    PdptePtrBits(v);
    PdePtrBits(v);
    PtePtrBits(v);
  }

  lemma FuWord(l: nat, v: bv64)
    requires l < 4
    ensures WordOf(Fu(l, v)) == Idx(l, v)
  {
    hide NatOf, Offset, Pml4eIdx, PdpteIdx, PdeIdx, PteIdx, Pml4ePtr, PdptePtr, PdePtr, PtePtr;
    Pml4ePtrBits(v);
    PdptePtrBits(v);
    PdePtrBits(v);
    PtePtrBits(v);
  }

  // ---- physical memory and the walk ----

  /** Frames by number; a frame never written holds zeros. */
  type Mem = map<nat, seq<nat>>

  function Word(mem: Mem, f: nat, i: nat): nat {
    if f in mem && i < |mem[f]| then mem[f][i] else 0
  }

  function Page(mem: Mem, f: nat): (p: seq<nat>)
    ensures |p| == 512
  {
    seq(512, i requires 0 <= i < 512 => Word(mem, f, i))
  }

  function Write(mem: Mem, f: nat, i: nat, e: nat): Mem
    requires i < 512
  {
    mem[f := Page(mem, f)[i := e]]
  }

  /** memset of a whole page to 0. */
  function Zeroed(mem: Mem, f: nat): Mem {
    mem[f := seq(512, _ => 0)]
  }

  lemma WordWrite(mem: Mem, f: nat, i: nat, e: nat, g: nat, j: nat)
    requires i < 512 && j < 512
    ensures Word(Write(mem, f, i, e), g, j) == if g == f && j == i then e else Word(mem, g, j)
  {
  }

  lemma WordZeroed(mem: Mem, f: nat, g: nat, j: nat)
    requires j < 512
    ensures Word(Zeroed(mem, f), g, j) == if g == f then 0 else Word(mem, g, j)
  {
  }

  /** The frame that a present entry designates. */
  function Next(mem: Mem, f: nat, i: nat): Option<nat> {
    if Word(mem, f, i) % 2 == 1 then Some(Word(mem, f, i) / 4096) else None
  }

  /** An entry as the kernel writes it: present, writable, user. */
  function Entry(f: nat): nat { 4096 * f + 7 }

  lemma EntryNext(mem: Mem, f: nat, i: nat, n: nat, g: nat, j: nat)
    requires i < 512 && j < 512
    ensures Next(Write(mem, f, i, Entry(n)), g, j) == if g == f && j == i then Some(n) else Next(mem, g, j)
  {
    hide Entry, Write, Word;
    EntryBits(n);
    WordWrite(mem, f, i, Entry(n), g, j);
  }

  lemma EntryBits(n: nat)
    ensures Entry(n) % 2 == 1 && Entry(n) / 4096 == n
  {
  }

  type Path = seq<nat>

  /** The frame reached from `root` along a path of indices. */
  function Tab(mem: Mem, root: nat, p: Path): Option<nat> {
    if p == [] then Some(root)
    else
      match Tab(mem, root, p[..|p| - 1])
      case None => None
      case Some(f) => Next(mem, f, p[|p| - 1])
  }

  /** The first `l` indices of an address. */
  function PathOf(v: bv64, l: nat): (p: Path)
    requires l <= 4
    ensures |p| == l
  {
    if l == 0 then [] else PathOf(v, l - 1) + [Idx(l - 1, v)]
  }

  lemma PathOfAt(v: bv64, l: nat, k: nat)
    requires k < l <= 4
    ensures PathOf(v, l)[k] == Idx(k, v) && PathOf(v, l)[..k] == PathOf(v, k)
  {
    if k < l - 1 {
      PathOfAt(v, l - 1, k);
      assert PathOf(v, l)[..k] == PathOf(v, l - 1)[..k];
    } else {
      assert PathOf(v, l)[..k] == PathOf(v, l - 1);
    }
  }

  /** The frame that the MMU translates an address to. */
  function Translate(mem: Mem, root: nat, v: bv64): Option<nat> {
    Tab(mem, root, PathOf(v, 4))
  }

  lemma TabStep(mem: Mem, root: nat, p: Path, i: nat)
    ensures Tab(mem, root, p + [i]) == match Tab(mem, root, p) case None => None case Some(f) => Next(mem, f, i)
  {
    assert (p + [i])[..|p|] == p;
  }

  /** The PML4 refers to itself in its last entry. */
  predicate SelfMapped(mem: Mem, root: nat) {
    Next(mem, root, 511) == Some(root)
  }

  lemma {:induction false} SelfPath(mem: Mem, root: nat, k: nat)
    requires SelfMapped(mem, root)
    ensures Tab(mem, root, seq(k, _ => 511)) == Some(root)
  {
    if k > 0 {
      SelfPath(mem, root, k - 1);
      assert seq(k, _ => 511) == seq(k - 1, _ => 511) + [511];
      TabStep(mem, root, seq(k - 1, _ => 511), 511);
    }
  }

  /** After k self-entries the walk continues as it would from the root. */
  lemma {:induction false} SelfPrefix(mem: Mem, root: nat, k: nat, p: Path)
    requires SelfMapped(mem, root)
    ensures Tab(mem, root, seq(k, _ => 511) + p) == Tab(mem, root, p)
  {
    if p == [] {
      SelfPath(mem, root, k);
      assert seq(k, _ => 511) + p == seq(k, _ => 511);
    } else {
      var q := p[..|p| - 1];
      SelfPrefix(mem, root, k, q);
      assert seq(k, _ => 511) + p == (seq(k, _ => 511) + q) + [p[|p| - 1]];
      assert p == q + [p[|p| - 1]];
      TabStep(mem, root, seq(k, _ => 511) + q, p[|p| - 1]);
      TabStep(mem, root, q, p[|p| - 1]);
    }
  }

  lemma FuPath(l: nat, v: bv64)
    requires l < 4
    ensures PathOf(Fu(l, v), 4) == seq(4 - l, _ => 511) + PathOf(v, l)
  {
    var a := PathOf(Fu(l, v), 4);
    var b := seq(4 - l, _ => 511) + PathOf(v, l);
    hide PathOf, Fu, Idx;
    forall k | 0 <= k < 4
      ensures a[k] == b[k]
    {
      PathOfAt(Fu(l, v), 4, k);
      FuIndices(l, v, k);
      if k >= 4 - l {
        PathOfAt(v, l, k - (4 - l));
      }
    }
  }

  /** The recursive map: the level-`l` entry pointer of any address translates to that address's own
      table of that level (or faults with it), and designates that address's own entry in it. */
  lemma RecursiveWalk(mem: Mem, root: nat, l: nat, v: bv64)
    requires SelfMapped(mem, root) && l < 4
    ensures Translate(mem, root, Fu(l, v)) == Tab(mem, root, PathOf(v, l))
    ensures WordOf(Fu(l, v)) == Idx(l, v)
  {
    hide Tab, PathOf, Fu, Idx;
    FuPath(l, v);
    FuWord(l, v);
    SelfPrefix(mem, root, 4 - l, PathOf(v, l));
  }

  // ---- the tables of an address space ----

  predicate Small(p: Path) {
    forall k :: 0 <= k < |p| ==> p[k] < 512
  }

  /** Paths outside the recursive window.  In the boot tables PML4 entry 0 names the same table as entry
      256, so there (`boot`) the low alias is set aside as well. */
  predicate Dom(boot: bool, p: Path) {
    |p| <= 4 && Small(p) && (p != [] ==> p[0] != 511 && (boot ==> p[0] != 0))
  }

  /** Two paths that may lead to one frame: equal ones, or the PML4 and a page, since the frame of a PML4 is itself
      a page of the kernel heap. */
  predicate Meet(p: Path, q: Path) {
    p == q || (p == [] && |q| == 4) || (q == [] && |p| == 4)
  }

  /** With d = 3 the tables form a tree; with d = 4 moreover no two pages share a frame, and the only table that a
      page can be is the PML4. */
  ghost predicate Inj(mem: Mem, root: nat, boot: bool, d: nat) {
    forall p, q ::
      (Dom(boot, p) && Dom(boot, q) && |p| <= d && |q| <= d && Tab(mem, root, p).Some? && Tab(mem, root, p) == Tab(mem, root, q))
      ==> Meet(p, q)
  }

  ghost predicate Reached(mem: Mem, root: nat, boot: bool, d: nat, f: nat) {
    exists p :: Dom(boot, p) && |p| <= d && Tab(mem, root, p) == Some(f)
  }

  /** page_map's step: an entry is written and, unless it is the last level, the new table cleared. */
  function Installed(mem: Mem, f: nat, i: nat, n: nat, table: bool): Mem
    requires i < 512
  {
    if table then Zeroed(Write(mem, f, i, Entry(n)), n) else Write(mem, f, i, Entry(n))
  }

  lemma InstalledNext(mem: Mem, f: nat, i: nat, n: nat, table: bool, g: nat, j: nat)
    requires i < 512 && j < 512 && (table ==> n != f)
    ensures Next(Installed(mem, f, i, n, table), g, j) ==
            if table && g == n then None else if g == f && j == i then Some(n) else Next(mem, g, j)
  {
    EntryNext(mem, f, i, n, g, j);
    hide Entry, Write, Zeroed;
    WordZeroed(Write(mem, f, i, Entry(n)), n, g, j);
  }

  /** The frame `f` is in the space, if at all, only at path `p`. */
  ghost predicate OnlyAt(mem: Mem, root: nat, boot: bool, f: nat, p: Path) {
    forall q :: Dom(boot, q) && |q| <= 3 && Tab(mem, root, q) == Some(f) ==> q == p
  }

  /** Installing an entry in table `f` changes, in any address space, exactly the path through that entry. */
  lemma {:induction false} InstallEffect(mem: Mem, root: nat, boot: bool, f: nat, p: Path, i: nat, n: nat, table: bool, q: Path)
    requires i < 512 && |p| <= 3 && (table <==> |p| < 3) && OnlyAt(mem, root, boot, f, p) && (table ==> n != f)
    requires table ==> !Reached(mem, root, boot, 3, n) && Next(mem, f, i).None?
    requires Dom(boot, q)
    ensures Tab(Installed(mem, f, i, n, table), root, q) ==
            if Tab(mem, root, p) == Some(f) && q == p + [i] then Some(n) else Tab(mem, root, q)
  {
    if q != [] {
      var q', j := q[..|q| - 1], q[|q| - 1];
      assert q == q' + [j];
      hide *;
      DomPrefix(boot, q', j);
      InstallEffect(mem, root, boot, f, p, i, n, table, q');
      InstallTurn(mem, root, boot, f, p, i, n, table, q', j);
    }
  }

  /** The next index of a path. */
  lemma InstallTurn(mem: Mem, root: nat, boot: bool, f: nat, p: Path, i: nat, n: nat, table: bool, q: Path, j: nat)
    requires i < 512 && |p| <= 3 && (table <==> |p| < 3) && OnlyAt(mem, root, boot, f, p) && (table ==> n != f)
    requires table ==> !Reached(mem, root, boot, 3, n) && Next(mem, f, i).None?
    requires Dom(boot, q) && |q| <= 3 && j < 512
    requires Tab(Installed(mem, f, i, n, table), root, q) ==
             if Tab(mem, root, p) == Some(f) && q == p + [i] then Some(n) else Tab(mem, root, q)
    ensures Tab(Installed(mem, f, i, n, table), root, q + [j]) ==
            if Tab(mem, root, p) == Some(f) && q + [j] == p + [i] then Some(n) else Tab(mem, root, q + [j])
  {
    var mem' := Installed(mem, f, i, n, table);
    hide Installed, Next, Tab, Dom;
    TabStep(mem, root, q, j);
    TabStep(mem', root, q, j);
    TabStep(mem, root, p, i);
    if Tab(mem, root, q).Some? {
      InstalledNext(mem, f, i, n, table, Tab(mem, root, q).value, j);
    }
    InstalledNext(mem, f, i, n, table, n, j);
    assert q + [j] == p + [i] ==> q == p && j == i by {
      if q + [j] == p + [i] {
        assert (q + [j])[..|q|] == q && (p + [i])[..|p|] == p;
      }
    }
  }

  /** Clearing the present bit of an entry, as free_pages does with `--*pte`. */
  function Cleared(mem: Mem, f: nat, i: nat): Mem
    requires i < 512 && Word(mem, f, i) > 0
  {
    Write(mem, f, i, Word(mem, f, i) - 1)
  }

  lemma ClearedNext(mem: Mem, f: nat, i: nat, g: nat, j: nat)
    requires i < 512 && j < 512 && Word(mem, f, i) % 2 == 1
    ensures Next(Cleared(mem, f, i), g, j) == if g == f && j == i then None else Next(mem, g, j)
  {
    hide Write, Word;
    WordWrite(mem, f, i, Word(mem, f, i) - 1, g, j);
  }

  lemma {:induction false} ClearEffect(mem: Mem, root: nat, boot: bool, f: nat, p: Path, i: nat, q: Path)
    requires i < 512 && |p| == 3 && OnlyAt(mem, root, boot, f, p) && Word(mem, f, i) % 2 == 1
    requires Dom(boot, q)
    ensures Tab(Cleared(mem, f, i), root, q) ==
            if Tab(mem, root, p) == Some(f) && q == p + [i] then None else Tab(mem, root, q)
  {
    var mem' := Cleared(mem, f, i);
    if q != [] {
      var q', j := q[..|q| - 1], q[|q| - 1];
      assert q == q' + [j];
      ClearEffect(mem, root, boot, f, p, i, q');
      hide Cleared, Next, Tab, Word;
      TabStep(mem, root, q', j);
      TabStep(mem', root, q', j);
      TabStep(mem, root, p, i);
      if Tab(mem, root, q').Some? {
        ClearedNext(mem, f, i, Tab(mem, root, q').value, j);
      }
    }
  }

  lemma InjOnlyAt(mem: Mem, root: nat, boot: bool, d: nat, f: nat, p: Path)
    requires Inj(mem, root, boot, d) && d >= 3 && Dom(boot, p) && |p| <= 3 && Tab(mem, root, p) == Some(f)
    ensures OnlyAt(mem, root, boot, f, p)
  {
    hide Tab;
  }

  lemma DomPrefix(boot: bool, p: Path, i: nat)
    requires Dom(boot, p + [i])
    ensures Dom(boot, p) && i < 512 && |p| <= 3
  {
    assert (p + [i])[|p|] == i;
    assert forall k :: 0 <= k < |p| ==> (p + [i])[k] == p[k];
  }

  /** An entry for an unreached frame at an absent path keeps an address space in order. */
  lemma InstallKeeps(mem: Mem, root: nat, boot: bool, d: nat, p: Path, f: nat, i: nat, n: nat)
    requires SelfMapped(mem, root) && Inj(mem, root, boot, d) && 3 <= d <= 4
    requires Dom(boot, p + [i]) && Tab(mem, root, p) == Some(f) && Tab(mem, root, p + [i]).None?
    requires d == 4 || |p| < 3 ==> !Reached(mem, root, boot, d, n)
    ensures i < 512
    ensures var mem' := Installed(mem, f, i, n, |p| < 3);
      && SelfMapped(mem', root) && Inj(mem', root, boot, d)
      && (forall q :: Dom(boot, q) ==> Tab(mem', root, q) == if q == p + [i] then Some(n) else Tab(mem, root, q))
  {
    DomPrefix(boot, p, i);
    var table := |p| < 3;
    var mem' := Installed(mem, f, i, n, table);
    hide Installed, Next, Tab;
    InjOnlyAt(mem, root, boot, d, f, p);
    TabStep(mem, root, p, i);
    ReachedIs(mem, root, boot, d, p, f);
    NotReachedBelow(mem, root, boot, d, n);
    forall q | Dom(boot, q)
      ensures Tab(mem', root, q) == if q == p + [i] then Some(n) else Tab(mem, root, q)
    {
      InstallEffect(mem, root, boot, f, p, i, n, table, q);
    }
    InjAfter(mem, mem', root, boot, d, p + [i], n);
    SelfKept(mem, root, boot, d, p, f, i, n, table);
  }

  lemma ReachedIs(mem: Mem, root: nat, boot: bool, d: nat, p: Path, f: nat)
    requires Dom(boot, p) && |p| <= d && Tab(mem, root, p) == Some(f)
    ensures Reached(mem, root, boot, d, f) && Reached(mem, root, boot, d, root)
  {
    assert Tab(mem, root, []) == Some(root);
    assert Dom(boot, []);
    hide Tab;
  }

  lemma NotReachedBelow(mem: Mem, root: nat, boot: bool, d: nat, n: nat)
    requires 3 <= d
    ensures !Reached(mem, root, boot, d, n) ==> !Reached(mem, root, boot, 3, n)
  {
    hide Tab;
  }

  lemma InjAfter(mem: Mem, mem': Mem, root: nat, boot: bool, d: nat, at: Path, n: nat)
    requires Inj(mem, root, boot, d)
    requires forall q :: Dom(boot, q) ==> Tab(mem', root, q) == if q == at then Some(n) else Tab(mem, root, q)
    requires |at| <= d ==> !Reached(mem, root, boot, d, n)
    ensures Inj(mem', root, boot, d)
  {
    hide Tab, Dom;
    forall p, q | Dom(boot, p) && Dom(boot, q) && |p| <= d && |q| <= d && Tab(mem', root, p).Some?
      && Tab(mem', root, p) == Tab(mem', root, q)
      ensures Meet(p, q)
    {
    }
  }

  lemma SelfKept(mem: Mem, root: nat, boot: bool, d: nat, p: Path, f: nat, i: nat, n: nat, table: bool)
    requires SelfMapped(mem, root) && Inj(mem, root, boot, d) && 3 <= d
    requires Dom(boot, p + [i]) && Tab(mem, root, p) == Some(f) && i < 512 && |p| <= 3
    requires table ==> !Reached(mem, root, boot, d, n)
    ensures SelfMapped(Installed(mem, f, i, n, table), root)
  {
    DomPrefix(boot, p, i);
    ReachedIs(mem, root, boot, d, p, f);
    if f == root {
      assert Tab(mem, root, []) == Some(root) && Dom(boot, []);
      assert p == [];
      assert (p + [i])[0] == i;
    }
    hide Installed, Tab, Inj;
    InstalledNext(mem, f, i, n, table, root, 511);
  }

  /** Clearing a leaf entry takes away that one translation. */
  lemma ClearKeeps(mem: Mem, root: nat, boot: bool, d: nat, p: Path, f: nat, i: nat)
    requires SelfMapped(mem, root) && Inj(mem, root, boot, d) && 3 <= d <= 4
    requires Dom(boot, p + [i]) && |p| == 3 && Tab(mem, root, p) == Some(f) && Tab(mem, root, p + [i]).Some?
    ensures i < 512 && Word(mem, f, i) % 2 == 1
    ensures var mem' := Cleared(mem, f, i);
      && SelfMapped(mem', root) && Inj(mem', root, boot, d)
      && (forall q :: Dom(boot, q) ==> Tab(mem', root, q) == if q == p + [i] then None else Tab(mem, root, q))
  {
    DomPrefix(boot, p, i);
    TabStep(mem, root, p, i);
    assert Word(mem, f, i) % 2 == 1;
    var mem' := Cleared(mem, f, i);
    hide Cleared, Next, Tab, Word;
    InjOnlyAt(mem, root, boot, d, f, p);
    forall q | Dom(boot, q)
      ensures Tab(mem', root, q) == if q == p + [i] then None else Tab(mem, root, q)
    {
      ClearEffect(mem, root, boot, f, p, i, q);
    }
    RootIsNoLeaf(mem, root, boot, d, p, f);
    ClearedNext(mem, f, i, root, 511);
  }

  lemma RootIsNoLeaf(mem: Mem, root: nat, boot: bool, d: nat, p: Path, f: nat)
    requires Inj(mem, root, boot, d) && Dom(boot, p) && 0 < |p| <= 3 <= d && Tab(mem, root, p) == Some(f)
    ensures f != root
  {
    assert Tab(mem, root, []) == Some(root) && Dom(boot, []);
  }

  /** Writing an entry of the table at `p` leaves all paths up to that length alone. */
  lemma {:induction false} WriteAbove(mem: Mem, root: nat, boot: bool, f: nat, p: Path, i: nat, e: nat, q: Path)
    requires i < 512 && |p| <= 3 && OnlyAt(mem, root, boot, f, p) && Dom(boot, q) && |q| <= |p|
    ensures Tab(Write(mem, f, i, e), root, q) == Tab(mem, root, q)
  {
    if q != [] {
      var q', j := q[..|q| - 1], q[|q| - 1];
      assert q == q' + [j];
      WriteAbove(mem, root, boot, f, p, i, e, q');
      hide Write, Word, Tab;
      TabStep(mem, root, q', j);
      TabStep(Write(mem, f, i, e), root, q', j);
      if Tab(mem, root, q').Some? {
        assert q' != p;
        WordWrite(mem, f, i, e, Tab(mem, root, q').value, j);
      }
    }
  }

  // ---- map_stat ----

  /** How many levels of the walk are present: what map_stat computes. */
  function Stat(mem: Mem, root: nat, v: bv64): (s: nat)
    ensures s <= 4
  {
    if Tab(mem, root, PathOf(v, 1)).None? then 0
    else if Tab(mem, root, PathOf(v, 2)).None? then 1
    else if Tab(mem, root, PathOf(v, 3)).None? then 2
    else if Tab(mem, root, PathOf(v, 4)).None? then 3
    else 4
  }

  lemma PathStep(mem: Mem, root: nat, v: bv64, l: nat)
    requires l < 4
    ensures Tab(mem, root, PathOf(v, l + 1)) ==
            match Tab(mem, root, PathOf(v, l)) case None => None case Some(f) => Next(mem, f, Idx(l, v))
  {
    TabStep(mem, root, PathOf(v, l), Idx(l, v));
    hide Tab, Next;
  }

  lemma StatIs(mem: Mem, root: nat, v: bv64, s: nat)
    requires s <= 4 && Tab(mem, root, PathOf(v, s)).Some?
    requires s < 4 ==> Tab(mem, root, PathOf(v, s + 1)).None?
    ensures Stat(mem, root, v) == s
  {
    hide Tab, Next, PathOf;
    PathStep(mem, root, v, 0);
    PathStep(mem, root, v, 1);
    PathStep(mem, root, v, 2);
    PathStep(mem, root, v, 3);
  }

  lemma StatPresent(mem: Mem, root: nat, v: bv64)
    ensures var s := Stat(mem, root, v);
      Tab(mem, root, PathOf(v, s)).Some? && (s < 4 ==> Tab(mem, root, PathOf(v, s + 1)).None?)
      && (s == 4 <==> Translate(mem, root, v).Some?)
  {
    assert Tab(mem, root, PathOf(v, 0)) == Some(root);
    hide Tab, Next, PathOf;
    PathStep(mem, root, v, 0);
    PathStep(mem, root, v, 1);
    PathStep(mem, root, v, 2);
    PathStep(mem, root, v, 3);
  }

  lemma DomPathOf(boot: bool, v: bv64, l: nat)
    requires l <= 4 && Dom(boot, PathOf(v, 4))
    ensures Dom(boot, PathOf(v, l))
  {
    var p, q := PathOf(v, 4), PathOf(v, l);
    hide PathOf;
    forall k | 0 <= k < l
      ensures q[k] == p[k]
    {
      PathOfAt(v, 4, k);
      PathOfAt(v, l, k);
    }
  }
}
