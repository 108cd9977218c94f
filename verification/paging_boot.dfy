/** The boot tables (boot/boot.asm), from which every address space comes. */
module BootTables {
  import opened Basics
  import opened Paging
  import opened AddressSpaces
  import opened KernelHeap

  // ---- the boot tables ----

  const BOOT_PML4 := 256
  const POOL_START := 260

  /** PML4 entries 0 and 256 name the same table; entry 511 names the PML4 itself; the first 256 pages
      are mapped to the first 256 frames. */
  function BootMem(): Mem {
    map[256 := BootTable(256), 257 := BootTable(257), 258 := BootTable(258), 259 := BootTable(259)]
  }

  function BootTable(f: nat): seq<nat> {
    seq(512, i requires 0 <= i < 512 => BootWord(f, i))
  }

  function BootWord(f: nat, i: nat): nat {
    if f == 256 then (if i == 0 || i == 256 then Entry(257) else if i == 511 then Entry(256) else 0)
    else if f == 257 then (if i == 0 then Entry(258) else 0)
    else if f == 258 then (if i == 0 then Entry(259) else 0)
    else if i < 256 then Entry(i) else 0
  }

  function BootNext(f: nat, i: nat): Option<nat> {
    if f == 256 then (if i == 0 || i == 256 then Some(257) else if i == 511 then Some(256) else None)
    else if f == 257 then (if i == 0 then Some(258) else None)
    else if f == 258 then (if i == 0 then Some(259) else None)
    else if f == 259 then (if i < 256 then Some(i) else None)
    else None
  }

  lemma BootNextIs(f: nat, i: nat)
    requires i < 512
    ensures Next(BootMem(), f, i) == BootNext(f, i)
  {
    EntryBits(256);
    EntryBits(257);
    EntryBits(258);
    EntryBits(259);
    EntryBits(i);
    hide Entry;
  }

  /** Where the paths of the boot tables lead, the low alias set aside. */
  function BootTab(p: Path): Option<nat> {
    if p == [] then Some(256)
    else if p == [256] then Some(257)
    else if p == [256, 0] then Some(258)
    else if p == [256, 0, 0] then Some(259)
    else if |p| == 4 && p[..3] == [256, 0, 0] && p[3] < 256 then Some(p[3])
    else None
  }

  lemma {:induction false} BootTabIs(p: Path)
    requires Dom(true, p)
    ensures Tab(BootMem(), BOOT_PML4, p) == BootTab(p)
  {
    if p != [] {
      var q, i := p[..|p| - 1], p[|p| - 1];
      assert p == q + [i];
      assert i < 512;
      DomPrefix(true, q, i);
      BootTabIs(q);
      TabStep(BootMem(), BOOT_PML4, q, i);
      hide BootMem, Next, Tab;
      if BootTab(q).Some? {
        BootNextIs(BootTab(q).value, i);
        BootTabNext(q, i);
      } else {
        BootTabAbsent(q, i);
      }
    }
  }

  lemma BootTabNext(q: Path, i: nat)
    requires Dom(true, q + [i]) && BootTab(q).Some? && |q| <= 3
    ensures BootTab(q + [i]) == BootNext(BootTab(q).value, i)
  {
    var p := q + [i];
    assert p[..|q|] == q;
    if q == [] {
      assert p[0] != 511 && p[0] != 0;
      assert p == [i];
    } else if q == [256] {
      assert p == [256, i];
    } else if q == [256, 0] {
      assert p == [256, 0, i];
    } else {
      assert q == [256, 0, 0];
      assert p[..3] == q;
    }
  }

  lemma BootTabAbsent(q: Path, i: nat)
    requires BootTab(q).None?
    ensures BootTab(q + [i]).None?
  {
    var p := q + [i];
    assert p[..|q|] == q;
    assert [256][..0] == [] && [256, 0][..1] == [256] && [256, 0, 0][..2] == [256, 0];
    if |p| == 4 {
      assert p[..3] == q;
    }
  }

  lemma BootInjective(p: Path, q: Path)
    requires BootTab(p).Some? && BootTab(p) == BootTab(q)
    ensures p == q
  {
    if |p| == 4 && |q| == 4 {
      assert p == p[..3] + [p[3]] && q == q[..3] + [q[3]];
    }
  }

  ghost function BootWorld(bits: seq<bool>): World {
    World(BootMem(), BOOT_PML4, {}, POOL_START, bits)
  }

  /** The boot tables alone are a world in order, over any pool behind them, and no page of the kernel's pool is mapped. */
  lemma BootShared(bits: seq<bool>, vbits: seq<bool>)
    requires |vbits| <= 2048 && forall k :: 0 <= k < |vbits| ==> !vbits[k]
    ensures Shared(BootWorld(bits)) && KernelTop(BootWorld(bits))
    ensures HeapOk(BootWorld(bits), BOOT_PML4, Kernel, vbits) && BitsMatch(BootWorld(bits), BOOT_PML4, Kernel, vbits)
  {
    var w := BootWorld(bits);
    BootNextIs(256, 511);
    BootNextIs(256, 256);
    hide BootMem, Tab, Next, HeapPath, Taken;
    forall p, q | Dom(true, p) && Dom(true, q) && |p| <= 4 && |q| <= 4 && Tab(BootMem(), BOOT_PML4, p).Some?
      && Tab(BootMem(), BOOT_PML4, p) == Tab(BootMem(), BOOT_PML4, q)
      ensures Meet(p, q)
    {
      BootTabIs(p);
      BootTabIs(q);
      BootInjective(p, q);
    }
    forall p | Dom(true, p) && Tab(BootMem(), BOOT_PML4, p).Some?
      ensures Taken(POOL_START, bits, Tab(BootMem(), BOOT_PML4, p).value)
    {
      BootTabIs(p);
      BelowPool(p, bits);
    }
    assert OneSpace(w, w.boot);
    forall k | 0 <= k < |vbits|
      ensures !HeapMapped(w, BOOT_PML4, Kernel, k)
    {
      HeapPathIs(Kernel, k);
      BootTabIs(HeapPath(Kernel, k));
      assert HeapPath(Kernel, k)[..3] == [256, 0, 0] ==> HeapPath(Kernel, k)[2] == 0;
    }
  }

  lemma BelowPool(p: Path, bits: seq<bool>)
    requires BootTab(p).Some?
    ensures Taken(POOL_START, bits, BootTab(p).value)
  {
  }

  // ---- the low alias of the boot tables ----

  /** PML4 entries 0 and 256 hold the same word. */
  predicate Aliased(mem: Mem, root: nat) {
    Word(mem, root, 0) == Word(mem, root, 256)
  }

  lemma AliasRoot(mem: Mem, root: nat)
    requires Aliased(mem, root)
    ensures Next(mem, root, 0) == Next(mem, root, 256)
  {
  }

  lemma {:induction false} AliasTab(mem: Mem, root: nat, p: Path)
    requires Aliased(mem, root) && p != [] && p[0] == 0
    ensures Tab(mem, root, p) == Tab(mem, root, [256] + p[1..])
  {
    hide Next, Word, Aliased;
    var i := p[|p| - 1];
    if |p| == 1 {
      AliasRoot(mem, root);
      TabStep(mem, root, [], 0);
      TabStep(mem, root, [], 256);
      assert p == [] + [0] && [256] + p[1..] == [] + [256];
    } else {
      var q := p[..|p| - 1];
      AliasTab(mem, root, q);
      assert p == q + [i];
      assert [256] + p[1..] == ([256] + q[1..]) + [i];
      TabStep(mem, root, q, i);
      TabStep(mem, root, [256] + q[1..], i);
    }
  }

  /** In the boot space every step keeps the alias, since none touches its PML4. */
  lemma RunKeepsAlias(w: World, steps: seq<Step>, w': World)
    requires Shared(w) && Run(w, steps, w') && Aliased(w.mem, w.boot)
    ensures w'.boot == w.boot && Aliased(w'.mem, w'.boot)
  {
    hide Shared, Run, Word;
    RunKeepsBootPml4(w, steps, w', 0);
    RunKeepsBootPml4(w, steps, w', 256);
    AliasWords(w, w');
  }

  lemma AliasWords(w: World, w': World)
    requires Aliased(w.mem, w.boot) && w'.boot == w.boot
    requires Word(w'.mem, w.boot, 0) == Word(w.mem, w.boot, 0) && Word(w'.mem, w.boot, 256) == Word(w.mem, w.boot, 256)
    ensures Aliased(w'.mem, w'.boot)
  {
  }

  lemma BootIsAliased(bits: seq<bool>)
    ensures Aliased(BootWorld(bits).mem, BootWorld(bits).boot)
  {
  }

  /** A path outside the recursive window, the low alias included. */
  predicate Outside(q: Path) {
    |q| == 4 && Small(q) && q[0] != 511
  }

  /** A run in the boot space that maps a page at `p`, as page_map does, adds a second translation to its frame, in the
      low half, iff the page lies under PML4 entry 256. */
  lemma AliasSeesMapping(w: World, steps: seq<Step>, w': World, p: Path, frame: nat)
    requires Shared(w) && Run(w, steps, w') && Aliased(w.mem, w.boot) && Dom(true, p) && |p| == 4 && Spare(w, frame)
    requires PagesBut(w, w', w.boot, p, Some(frame)) && Shared(w')
    ensures (exists q :: Outside(q) && q != p && Tab(w'.mem, w.boot, q) == Some(frame)) <==> p[0] == 256
    ensures p[0] == 256 ==> Tab(w'.mem, w.boot, [0] + p[1..]) == Some(frame) && Tab(w.mem, w.boot, [0] + p[1..]) != Some(frame)
  {
    RunKeepsAlias(w, steps, w');
    hide *;
    MappedAt(w, w', p, frame);
    forall q | Outside(q) && q != p && Tab(w'.mem, w.boot, q) == Some(frame) ensures p[0] == 256 {
      OnlyTwin(w', p, frame, q);
    }
    if p[0] == 256 {
      Twin(w, p);
      Twin(w', p);
      NotBefore(w, p, frame);
    }
  }

  lemma MappedAt(w: World, w': World, p: Path, frame: nat)
    requires PagesBut(w, w', w.boot, p, Some(frame)) && Dom(true, p) && |p| == 4
    ensures Tab(w'.mem, w.boot, p) == Some(frame)
  {
    hide Tab, Dom;
  }

  lemma NotBefore(w: World, p: Path, frame: nat)
    requires Spare(w, frame) && Dom(true, p) && |p| == 4
    ensures Tab(w.mem, w.boot, p) != Some(frame)
  {
    Unreached(w, w.boot, frame);
    hide Tab, Dom, Spare;
  }

  /** The twin of a page in the low half. */
  lemma Twin(w: World, p: Path)
    requires Aliased(w.mem, w.boot) && |p| == 4 && p[0] == 256 && Dom(true, p)
    ensures Outside([0] + p[1..]) && [0] + p[1..] != p && Tab(w.mem, w.boot, [0] + p[1..]) == Tab(w.mem, w.boot, p)
  {
    var q := [0] + p[1..];
    assert [256] + q[1..] == p;
    AliasTab(w.mem, w.boot, q);
    hide Tab;
    forall k | 0 <= k < 4 ensures q[k] < 512 {
      assert k > 0 ==> q[k] == p[k];
    }
  }

  /** Only the twin leads to the same frame. */
  lemma OnlyTwin(w: World, p: Path, frame: nat, q: Path)
    requires Shared(w) && Aliased(w.mem, w.boot) && Dom(true, p) && |p| == 4 && Tab(w.mem, w.boot, p) == Some(frame)
    requires Outside(q) && q != p && Tab(w.mem, w.boot, q) == Some(frame)
    ensures p[0] == 256
  {
    if q[0] != 0 {
      MeetsAt(w, w.boot, w.boot, p, q);
    } else {
      AliasTab(w.mem, w.boot, q);
      var q' := [256] + q[1..];
      hide Tab, Shared, Aliased;
      forall k | 0 <= k < 4 ensures q'[k] < 512 {
        assert k > 0 ==> q'[k] == q[k];
      }
      MeetsAt(w, w.boot, w.boot, p, q');
      assert q' == p;
    }
  }
}
