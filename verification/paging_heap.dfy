/** The page pools of kernel/memory.c: pages taken from a virtual bitmap, each mapped to a frame of the physical pool
    through page_map in the current address space, and given back by free_pages; and create_pml4 on top of them. */
module KernelHeap {
  import opened Basics
  import opened Bitmaps
  import opened Paging
  import opened AddressSpaces

  // ---- the addresses of heap pages ----

  /** The two kinds of virtual pools: the kernel's, and that of a process. */
  datatype Window = Kernel | User

  const K_HEAP_START: bv64 := 0xffff800000100000
  const USER_START_ADDR: bv64 := 0x1000

  /** Address of page `k` of a pool: its start plus k pages of 4096 bytes. */
  function HeapAddr(win: Window, k: nat): bv64 {
    if k == 0 then (if win.Kernel? then K_HEAP_START else USER_START_ADDR) else HeapAddr(win, k - 1) + 0x1000
  }

  /** The PML4 entry that a pool lies under, and the number of its first page below that entry. */
  function Top(win: Window): nat { if win.Kernel? then 256 else 0 }
  function Off(win: Window): nat { if win.Kernel? then 256 else 1 }

  /** One page further: the last index grows by one, or wraps and carries into the one before. */
  lemma NextPageBits(v: bv64)
    requires PdpteIdx(v) == 0 && PdeIdx(v) < 16
    ensures Pml4eIdx(v + 0x1000) == Pml4eIdx(v) && PdpteIdx(v + 0x1000) == 0
    ensures PteIdx(v) < 511 ==> PteIdx(v + 0x1000) == PteIdx(v) + 1 && PdeIdx(v + 0x1000) == PdeIdx(v)
    ensures PteIdx(v) >= 511 ==> PteIdx(v + 0x1000) == 0 && PdeIdx(v + 0x1000) == PdeIdx(v) + 1
    ensures PdeIdx(v + 0x1000) < 17 && (v & 0xfff == 0 ==> (v + 0x1000) & 0xfff == 0)
  {
  }

  lemma StartBits()
    ensures Pml4eIdx(K_HEAP_START) == 256 && PdpteIdx(K_HEAP_START) == 0 && PdeIdx(K_HEAP_START) == 0
    ensures PteIdx(K_HEAP_START) == 256 && K_HEAP_START & 0xfff == 0
    ensures Pml4eIdx(USER_START_ADDR) == 0 && PdpteIdx(USER_START_ADDR) == 0 && PdeIdx(USER_START_ADDR) == 0
    ensures PteIdx(USER_START_ADDR) == 1 && USER_START_ADDR & 0xfff == 0
  {
  }

  lemma SmallAdd(x: bv64)
    ensures x < 511 ==> NatOf(x + 1) == NatOf(x) + 1
  {
    if x < 128 {
    } else if x < 256 {
    } else if x < 384 {
    }
  }

  lemma LessThan511(x: bv64)
    requires x < 512
    ensures x < 511 <==> NatOf(x) < 511
  {
    if x < 511 {
    }
  }

  lemma LessThan16(x: bv64)
    requires x < 512
    ensures x < 16 <==> NatOf(x) < 16
  {
    if x < 16 {
    }
  }

  lemma IndexBounds(v: bv64)
    ensures PteIdx(v) < 512 && PdeIdx(v) < 512 && Pml4eIdx(v) < 512 && PdpteIdx(v) < 512
  {
  }

  lemma SmallIs(x: bv64)
    requires x < 512
    ensures (x == 0 <==> NatOf(x) == 0) && (x == 256 <==> NatOf(x) == 256) && (x == 1 <==> NatOf(x) == 1)
  {
    if x < 256 {
    } else if x < 384 {
    }
  }

  lemma IdxIsSmall(v: bv64)
    ensures Pml4eIdx(v) == 256 <==> Idx(0, v) == 256
    ensures PdpteIdx(v) == 0 <==> Idx(1, v) == 0
    ensures PteIdx(v) == 0 <==> Idx(3, v) == 0
  {
    IndexBounds(v);
    hide Pml4eIdx, PdpteIdx, PdeIdx, PteIdx, NatOf;
    SmallIs(Pml4eIdx(v));
    SmallIs(PdpteIdx(v));
    SmallIs(PteIdx(v));
  }

  lemma IdxLess(v: bv64)
    ensures PdeIdx(v) < 16 <==> Idx(2, v) < 16
    ensures PteIdx(v) < 511 <==> Idx(3, v) < 511
    ensures PteIdx(v) < 511 ==> NatOf(PteIdx(v) + 1) == Idx(3, v) + 1
    ensures PdeIdx(v) < 16 ==> NatOf(PdeIdx(v) + 1) == Idx(2, v) + 1
  {
    IndexBounds(v);
    hide Pml4eIdx, PdpteIdx, PdeIdx, PteIdx, NatOf;
    LessThan16(PdeIdx(v));
    LessThan511(PteIdx(v));
    SmallAdd(PteIdx(v));
    SmallAdd(PdeIdx(v));
  }

  /** One page further, in indices. */
  lemma NextPage(v: bv64)
    requires Idx(1, v) == 0 && Idx(2, v) < 16
    ensures Idx(0, v + 0x1000) == Idx(0, v) && Idx(1, v + 0x1000) == 0
    ensures Idx(3, v) < 511 ==> Idx(3, v + 0x1000) == Idx(3, v) + 1 && Idx(2, v + 0x1000) == Idx(2, v)
    ensures Idx(3, v) >= 511 ==> Idx(3, v + 0x1000) == 0 && Idx(2, v + 0x1000) == Idx(2, v) + 1
    ensures v & 0xfff == 0 ==> (v + 0x1000) & 0xfff == 0
  {
    hide Pml4eIdx, PdpteIdx, PdeIdx, PteIdx, NatOf;
    IdxIsSmall(v);
    IdxLess(v);
    NextPageBits(v);
    IdxIsSmall(v + 0x1000);
  }

  lemma HeapStart(win: Window)
    ensures var v := HeapAddr(win, 0);
            Idx(0, v) == Top(win) && Idx(1, v) == 0 && Idx(2, v) == 0 && Idx(3, v) == Off(win) && v & 0xfff == 0
  {
    StartBits();
    var v := HeapAddr(win, 0);
    hide Pml4eIdx, PdpteIdx, PdeIdx, PteIdx, NatOf;
    SmallIs(Pml4eIdx(v));
    SmallIs(PdpteIdx(v));
    SmallIs(PdeIdx(v));
    SmallIs(PteIdx(v));
  }

  lemma HeapNext(win: Window, k: nat)
    ensures HeapAddr(win, k + 1) == HeapAddr(win, k) + 0x1000
  {
  }

  /** The last two indices of an address are those of page `n` below the first PDPT entry. */
  predicate PageAt(v: bv64, top: nat, n: nat) {
    Idx(0, v) == top && Idx(1, v) == 0 && v & 0xfff == 0 && Idx(2, v) == n / 512 && Idx(3, v) == n % 512
  }

  lemma NextPageAt(v: bv64, top: nat, n: nat)
    requires PageAt(v, top, n) && n < 2560
    ensures PageAt(v + 0x1000, top, n + 1)
  {
    hide Idx;
    OneFurther(n);
    NextPage(v);
  }

  lemma {:induction false} HeapIndices(win: Window, k: nat)
    requires k < 2048
    ensures PageAt(HeapAddr(win, k), Top(win), k + Off(win))
  {
    hide *;
    OffSmall(win);
    if k == 0 {
      HeapFirst(win);
    } else {
      HeapIndices(win, k - 1);
      HeapNext(win, k - 1);
      NextPageAt(HeapAddr(win, k - 1), Top(win), k - 1 + Off(win));
    }
  }

  lemma OffSmall(win: Window)
    ensures Off(win) <= 256
  {
  }

  lemma HeapFirst(win: Window)
    ensures PageAt(HeapAddr(win, 0), Top(win), Off(win))
  {
    HeapStart(win);
    hide HeapAddr, Idx;
  }

  lemma OneFurther(n: nat)
    ensures n % 512 < 511 ==> (n + 1) % 512 == n % 512 + 1 && (n + 1) / 512 == n / 512
    ensures n % 512 >= 511 ==> (n + 1) % 512 == 0 && (n + 1) / 512 == n / 512 + 1
  {
  }

  function HeapPath(win: Window, k: nat): Path { PathOf(HeapAddr(win, k), 4) }

  function HeapPathValue(win: Window, k: nat): Path {
    [Top(win), 0, (k + Off(win)) / 512, (k + Off(win)) % 512]
  }

  lemma HeapPathIs(win: Window, k: nat)
    requires k < 2048
    ensures HeapPath(win, k) == HeapPathValue(win, k) && Dom(false, HeapPath(win, k)) && (win.Kernel? ==> Dom(true, HeapPath(win, k)))
  {
    HeapIndices(win, k);
    var v := HeapAddr(win, k);
    hide HeapAddr, Idx;
    assert PathOf(v, 1) == [] + [Idx(0, v)];
    assert PathOf(v, 2) == PathOf(v, 1) + [Idx(1, v)];
    assert PathOf(v, 3) == PathOf(v, 2) + [Idx(2, v)];
    assert PathOf(v, 4) == PathOf(v, 3) + [Idx(3, v)];
    assert HeapPath(win, k) == HeapPathValue(win, k);
  }

  /** Different pages have different paths. */
  lemma HeapPathsApart(win: Window, k: nat, j: nat)
    requires k < 2048 && j < 2048 && HeapPath(win, k) == HeapPath(win, j)
    ensures k == j
  {
    HeapPathIs(win, k);
    HeapPathIs(win, j);
    hide HeapPath;
    var p, q := HeapPathValue(win, k), HeapPathValue(win, j);
    assert p[2] == q[2] && p[3] == q[3];
  }

  /** A process's pool is used in its own space, the kernel's in any. */
  ghost predicate WinOk(w: World, r: nat, win: Window) {
    w.boot !in w.roots && (win.Kernel? || r in w.roots)
  }

  lemma HeapPathDom(w: World, r: nat, win: Window, k: nat)
    requires k < 2048 && WinOk(w, r, win)
    ensures Dom(r == w.boot, HeapPath(win, k)) && |HeapPath(win, k)| == 4
  {
    HeapPathIs(win, k);
    hide HeapPath, PathOf;
  }

  lemma HeapPathIsPath(win: Window, k: nat)
    ensures HeapPath(win, k) == PathOf(HeapAddr(win, k), 4)
  {
  }

  // ---- free frames ----

  /** A frame of the pool that was free in `w`. */
  ghost predicate Fresh(w: World, f: nat) {
    w.start <= f < w.start + |w.bits| && !w.bits[f - w.start]
  }

  // ---- one page ----

  /** The page can be mapped in space r: it lies under an entry of the kernel half that is there, or in the low half of
      a created space. */
  ghost predicate MapHere(w: World, r: nat, v: bv64) {
    && w.Space(r) && Dom(r == w.boot, PathOf(v, 4))
    && if Idx(0, v) >= 256 then Tab(w.mem, r, PathOf(v, 1)).Some? else r in w.roots
  }

  /** On the walk for `v` the tables behind levels s to l - 1, and the page if l is 4, have come into being; every
      other path of the space is what it was. */
  ghost predicate Grown(w0: World, w: World, r: nat, v: bv64, s: nat, l: nat)
    requires l <= 4
  {
    forall q :: Dom(r == w0.boot, q) ==>
      if s < |q| <= l && q == PathOf(v, |q|) then Tab(w.mem, r, q).Some? else Tab(w.mem, r, q) == Tab(w0.mem, r, q)
  }

  lemma GrownNone(w: World, r: nat, v: bv64, s: nat)
    requires s <= 4
    ensures Grown(w, w, r, v, s, s)
  {
    hide Tab, Dom, PathOf;
  }

  lemma GrownStep(w0: World, w: World, w': World, r: nat, v: bv64, s: nat, l: nat, n: nat)
    requires s <= l < 4 && Grown(w0, w, r, v, s, l) && w.boot == w0.boot
    requires forall q :: Dom(r == w.boot, q) ==> Tab(w'.mem, r, q) == if q == PathOf(v, l + 1) then Some(n) else Tab(w.mem, r, q)
    ensures Grown(w0, w', r, v, s, l + 1)
  {
    hide Tab, Dom, PathOf;
  }

  lemma PathUnfold(v: bv64, l: nat)
    requires l < 4
    ensures PathOf(v, l + 1) == PathOf(v, l) + [Idx(l, v)]
  {
  }

  lemma PathTop(v: bv64, l: nat)
    requires 0 < l <= 4
    ensures PathOf(v, l)[0] == Idx(0, v)
  {
    PathOfAt(v, l, 0);
  }

  /** One step of page_map, as a step of the world. */
  function PutStep(r: nat, v: bv64, l: nat, n: nat): Step
    requires l < 4
  {
    Install(r, PathOf(v, l), Idx(l, v), n)
  }

  lemma PutEnabled(w: World, r: nat, v: bv64, l: nat, n: nat)
    requires MapHere(w, r, v) && l < 4 && Spare(w, n)
    requires Tab(w.mem, r, PathOf(v, l)).Some? && Tab(w.mem, r, PathOf(v, l + 1)).None?
    ensures Enabled(w, PutStep(r, v, l, n))
  {
    PathUnfold(v, l);
    DomPathOf(r == w.boot, v, l + 1);
    PathTop(v, l + 1);
    if l > 0 { PathTop(v, l); }
    hide Tab, Dom, PathOf, Spare, Idx;
  }

  lemma SpareAfter(w: World, t: Step, f: nat)
    requires Shared(w) && Enabled(w, t) && t.Install? && Spare(w, f) && f != t.n
    ensures Spare(After(w, t), f)
  {
    var w' := After(w, t);
    SameRest(w, t);
    TakenSpare(w, f);
    hide Tab, Dom, Shared, Taken, Enabled, After;
    forall s | w'.Space(s) ensures !Reached(w'.mem, s, s == w'.boot, 4, f) {
      InstallIn(w, t, s);
      Unreached(w, s, f);
      NotReachedAfter(w, t, s, f);
    }
  }

  lemma NotReachedAfter(w: World, t: Step, s: nat, f: nat)
    requires Enabled(w, t) && t.Install? && InstallSeen(w, t, s) && f != t.n && !Reached(w.mem, s, s == w.boot, 4, f)
    ensures !Reached(After(w, t).mem, s, s == w.boot, 4, f)
  {
    hide Tab, Dom, After, Enabled;
  }

  lemma PutStepParts(r: nat, v: bv64, l: nat, n: nat)
    requires l < 4
    ensures var t := PutStep(r, v, l, n);
            t.Install? && t.r == r && t.p == PathOf(v, l) && t.i == Idx(l, v) && t.n == n && t.p + [t.i] == PathOf(v, l + 1) && |t.p| == l
  {
    PathUnfold(v, l);
    hide Idx, PathOf;
  }

  /** One step of page_map: its effect on the space it runs in, and that all spaces stay in order. */
  lemma PutEffect(w: World, r: nat, v: bv64, l: nat, n: nat)
    requires Shared(w) && MapHere(w, r, v) && l < 4 && Spare(w, n)
    requires Tab(w.mem, r, PathOf(v, l)).Some? && Tab(w.mem, r, PathOf(v, l + 1)).None?
    ensures Enabled(w, PutStep(r, v, l, n))
    ensures var w' := After(w, PutStep(r, v, l, n));
      && Shared(w') && w' == w.(mem := Installed(w.mem, Tab(w.mem, r, PathOf(v, l)).value, Idx(l, v), n, l < 3))
      && (forall q :: Dom(r == w.boot, q) ==> Tab(w'.mem, r, q) == if q == PathOf(v, l + 1) then Some(n) else Tab(w.mem, r, q))
      && MapHere(w', r, v)
  {
    hide *;
    PutEnabled(w, r, v, l, n);
    PutStepParts(r, v, l, n);
    var t := PutStep(r, v, l, n);
    InstallShared(w, t);
    InstallParts(w, t);
    SameRest(w, t);
    InstallIn(w, t, r);
    SeenHere(w, t);
    StillHere(w, After(w, t), r, v, l, n);
    IsMem(w, After(w, t));
  }

  lemma IsMem(w: World, w': World)
    requires w'.boot == w.boot && w'.roots == w.roots && w'.start == w.start && w'.bits == w.bits
    ensures w' == w.(mem := w'.mem)
  {
  }

  lemma SeenHere(w: World, t: Step)
    requires Enabled(w, t) && t.Install? && InstallSeen(w, t, t.r)
    ensures forall q :: Dom(t.r == w.boot, q) ==> Tab(After(w, t).mem, t.r, q) == if q == t.p + [t.i] then Some(t.n) else Tab(w.mem, t.r, q)
  {
    hide Tab, Dom, After, Enabled;
  }

  lemma StillHere(w: World, w': World, r: nat, v: bv64, l: nat, n: nat)
    requires MapHere(w, r, v) && l < 4 && w'.boot == w.boot && w'.roots == w.roots
    requires forall q :: Dom(r == w.boot, q) ==> Tab(w'.mem, r, q) == if q == PathOf(v, l + 1) then Some(n) else Tab(w.mem, r, q)
    ensures MapHere(w', r, v)
  {
    DomPathOf(r == w.boot, v, 1);
    hide Tab, Dom, PathOf;
  }

  /** Right after the entry for a new table is written, the recursive map already reaches that table. */
  lemma EntryPresent(w: World, r: nat, v: bv64, l: nat, n: nat)
    requires Shared(w) && MapHere(w, r, v) && l < 3 && Tab(w.mem, r, PathOf(v, l)).Some?
    ensures var m1 := Write(w.mem, Tab(w.mem, r, PathOf(v, l)).value, Idx(l, v), Entry(n));
      SelfMapped(m1, r) && Tab(m1, r, PathOf(v, l + 1)) == Some(n)
  {
    hide *;
    var boot := r == w.boot;
    HereFacts(w, r, v);
    SpaceFacts(w, r);
    var f, i := Tab(w.mem, r, PathOf(v, l)).value, Idx(l, v);
    var m1 := Write(w.mem, f, i, Entry(n));
    DomPathOf(boot, v, l);
    DomPathOf(boot, v, l + 1);
    PathUnfold(v, l);
    IsLeaf(w.mem, f, i, n);
    InjOnlyAt(w.mem, r, boot, 4, f, PathOf(v, l));
    WriteAbove(w.mem, r, boot, f, PathOf(v, l), i, Entry(n), PathOf(v, l));
    SelfKept(w.mem, r, boot, 4, PathOf(v, l), f, i, n, false);
    PathStep(m1, r, v, l);
    EntryNext(w.mem, f, i, n, f, i);
  }

  lemma SpaceFacts(w: World, r: nat)
    requires Shared(w) && w.Space(r)
    ensures SelfMapped(w.mem, r) && Inj(w.mem, r, r == w.boot, 4) && AllTaken(w, r) && w.boot !in w.roots
  {
    hide SelfMapped, Inj, AllTaken, TwoSpaces;
    assert OneSpace(w, r);
  }

  lemma HereFacts(w: World, r: nat, v: bv64)
    requires MapHere(w, r, v)
    ensures w.Space(r) && Dom(r == w.boot, PathOf(v, 4)) && (Idx(0, v) >= 256 ==> Tab(w.mem, r, PathOf(v, 1)).Some?)
  {
  }

  lemma IsInstalled(m: Mem, f: nat, i: nat, n: nat)
    requires i < 512
    ensures Zeroed(Write(m, f, i, Entry(n)), n) == Installed(m, f, i, n, true)
  {
  }

  lemma IsLeaf(m: Mem, f: nat, i: nat, n: nat)
    requires i < 512
    ensures Write(m, f, i, Entry(n)) == Installed(m, f, i, n, false)
  {
  }

  lemma RootPresent(mem: Mem, root: nat, v: bv64)
    ensures Tab(mem, root, PathOf(v, 0)) == Some(root)
  {
  }

  lemma PresentAbove(mem: Mem, root: nat, v: bv64)
    requires Translate(mem, root, v).Some?
    ensures Tab(mem, root, PathOf(v, 3)).Some?
  {
    hide PathOf;
    PathStep(mem, root, v, 3);
  }

  lemma TranslateIs(m: Mem, root: nat, v: bv64)
    ensures Translate(m, root, v) == Tab(m, root, PathOf(v, 4))
  {
  }

  /** The walk is present up to level map_stat and absent beyond. */
  lemma StatLevels(mem: Mem, root: nat, v: bv64, l: nat)
    requires l <= 4
    ensures Tab(mem, root, PathOf(v, l)).Some? <==> l <= Stat(mem, root, v)
  {
    RootPresent(mem, root, v);
    hide Tab, Next, PathOf;
    PathStep(mem, root, v, 0);
    PathStep(mem, root, v, 1);
    PathStep(mem, root, v, 2);
    PathStep(mem, root, v, 3);
  }

  // ---- runs of pages ----

  predicate HeapMapped(w: World, r: nat, win: Window, k: nat) {
    Tab(w.mem, r, HeapPath(win, k)).Some?
  }

  predicate FromPool(w: World, f: nat) {
    w.start <= f < w.start + |w.bits|
  }

  /** A mapped page of the pool has its virtual bit set and its frame comes from the physical pool. */
  ghost predicate HeapOk(w: World, r: nat, win: Window, vbits: seq<bool>) {
    |vbits| <= 2048 && forall k :: 0 <= k < |vbits| && HeapMapped(w, r, win, k) ==>
      vbits[k] && FromPool(w, Tab(w.mem, r, HeapPath(win, k)).value)
  }

  /** A virtual bit is set exactly when map_stat of the page is 4. */
  ghost predicate BitsMatch(w: World, r: nat, win: Window, vbits: seq<bool>) {
    forall k :: 0 <= k < |vbits| ==> (vbits[k] <==> HeapMapped(w, r, win, k))
  }

  /** Pages outside a run of the pool translate as they did. */
  ghost predicate RestKept(w0: World, w: World, r: nat, win: Window, first: nat, n: nat) {
    forall q :: Dom(r == w0.boot, q) && |q| == 4 && (forall k :: first <= k < first + n ==> q != HeapPath(win, k)) ==>
      Tab(w.mem, r, q) == Tab(w0.mem, r, q)
  }

  /** Exactly the pages [first, first + n) became mapped, to frames that were free; no other page changed. */
  ghost predicate PagesAdded(w0: World, w: World, r: nat, win: Window, first: nat, n: nat) {
    && RestKept(w0, w, r, win, first, n)
    && (forall k :: first <= k < first + n ==> HeapMapped(w, r, win, k) && Fresh(w0, Tab(w.mem, r, HeapPath(win, k)).value))
  }

  /** Exactly the pages [first, first + n) became unmapped; no other page changed. */
  ghost predicate PagesRemoved(w0: World, w: World, r: nat, win: Window, first: nat, n: nat) {
    && RestKept(w0, w, r, win, first, n)
    && (forall k :: first <= k < first + n ==> !HeapMapped(w, r, win, k))
  }

  /** The tables that are missing for the pages [first, first + n). */
  ghost function Absent(w: World, r: nat, win: Window, first: nat, n: nat): set<Path> {
    set k: nat, l: nat | first <= k < first + n && 1 <= l <= 3 && Tab(w.mem, r, PathOf(HeapAddr(win, k), l)).None? ::
      PathOf(HeapAddr(win, k), l)
  }

  /** Exactly those tables have come into being. */
  ghost predicate TablesAdded(w0: World, w: World, r: nat, win: Window, first: nat, n: nat) {
    forall q :: Dom(r == w0.boot, q) && |q| <= 3 ==>
      (Tab(w.mem, r, q).Some? <==> Tab(w0.mem, r, q).Some? || q in Absent(w0, r, win, first, n))
  }

  /** The free frames are enough for n pages and their missing tables. */
  ghost predicate Enough(w: World, r: nat, win: Window, first: nat, n: nat) {
    ClearBits(w.bits) >= n + |Absent(w, r, win, first, n)|
  }

  /** How many of the pages get mapped: as many as there are frames for. */
  ghost function Served(w: World, r: nat, win: Window, first: nat, cnt: nat): (n: nat)
    ensures n <= cnt
  {
    if cnt == 0 || Enough(w, r, win, first, cnt) then cnt else Served(w, r, win, first, cnt - 1)
  }

  lemma AbsentGrows(w: World, r: nat, win: Window, first: nat, n: nat)
    ensures Absent(w, r, win, first, n) <= Absent(w, r, win, first, n + 1)
    ensures |Absent(w, r, win, first, n)| <= |Absent(w, r, win, first, n + 1)|
  {
    hide Tab, PathOf, HeapAddr;
    Smaller(Absent(w, r, win, first, n), Absent(w, r, win, first, n + 1));
  }

  lemma AbsentMore(w: World, r: nat, win: Window, first: nat, n: nat, m: nat)
    requires n <= m
    ensures |Absent(w, r, win, first, n)| <= |Absent(w, r, win, first, m)|
  {
    hide Tab, PathOf, HeapAddr;
    assert Absent(w, r, win, first, n) <= Absent(w, r, win, first, m);
    Smaller(Absent(w, r, win, first, n), Absent(w, r, win, first, m));
  }

  lemma {:induction false} Smaller<T>(a: set<T>, b: set<T>)
    requires a <= b
    ensures |a| <= |b|
  {
    if x :| x in a {
      Smaller(a - {x}, b - {x});
    }
  }

  /** Frames that are enough for more pages are enough for fewer. */
  lemma {:induction false} EnoughFewer(w: World, r: nat, win: Window, first: nat, n: nat, m: nat)
    requires n <= m && Enough(w, r, win, first, m)
    ensures Enough(w, r, win, first, n)
    decreases m - n
  {
    hide Absent;
    if n < m {
      EnoughFewer(w, r, win, first, n + 1, m);
      AbsentGrows(w, r, win, first, n);
    }
  }

  lemma {:induction false} ServedIs(w: World, r: nat, win: Window, first: nat, cnt: nat, n: nat)
    requires n <= cnt && Enough(w, r, win, first, n) && (n < cnt ==> !Enough(w, r, win, first, n + 1))
    ensures Served(w, r, win, first, cnt) == n
    decreases cnt
  {
    hide Enough;
    if n < cnt {
      if Enough(w, r, win, first, cnt) { EnoughFewer(w, r, win, first, n + 1, cnt); }
      ServedIs(w, r, win, first, cnt - 1, n);
    }
  }

  lemma EnoughNone(w: World, r: nat, win: Window, first: nat)
    ensures Absent(w, r, win, first, 0) == {} && Enough(w, r, win, first, 0)
  {
    hide Tab, PathOf, HeapAddr;
    assert Absent(w, r, win, first, 0) == {};
  }

  /** The tables behind levels s to 2 of a walk. */
  function Below(v: bv64, s: nat): set<Path>
    requires s <= 3
    decreases 3 - s
  {
    if s == 3 then {} else {PathOf(v, s + 1)} + Below(v, s + 1)
  }

  lemma {:induction false} BelowHas(v: bv64, s: nat, p: Path)
    requires s <= 3
    ensures p in Below(v, s) <==> s < |p| <= 3 && p == PathOf(v, |p|)
    decreases 3 - s
  {
    hide PathOf;
    if s < 3 { BelowHas(v, s + 1, p); }
  }

  lemma {:induction false} BelowCount(v: bv64, s: nat)
    requires s <= 3
    ensures |Below(v, s)| == 3 - s
    decreases 3 - s
  {
    hide PathOf;
    if s < 3 {
      BelowCount(v, s + 1);
      BelowHas(v, s + 1, PathOf(v, s + 1));
    }
  }

  lemma InAbsent(w: World, r: nat, win: Window, first: nat, n: nat, k: nat, l: nat)
    requires first <= k < first + n && 1 <= l <= 3 && Tab(w.mem, r, PathOf(HeapAddr(win, k), l)).None?
    ensures PathOf(HeapAddr(win, k), l) in Absent(w, r, win, first, n)
  {
    hide Tab, PathOf, HeapAddr;
  }

  lemma AbsentIs(w: World, r: nat, win: Window, first: nat, n: nat, p: Path) returns (k: nat, l: nat)
    requires p in Absent(w, r, win, first, n)
    ensures first <= k < first + n && 1 <= l <= 3 && p == PathOf(HeapAddr(win, k), l) && Tab(w.mem, r, p).None?
  {
    hide Tab, PathOf, HeapAddr;
    k, l :| first <= k < first + n && 1 <= l <= 3 && p == PathOf(HeapAddr(win, k), l) && Tab(w.mem, r, p).None?;
  }

  /** The tables missing for one page more are those still missing when its turn comes. */
  lemma AbsentStep(w0: World, w: World, r: nat, win: Window, first: nat, n: nat)
    requires TablesAdded(w0, w, r, win, first, n) && WinOk(w0, r, win) && first + n < 2048 && Stat(w.mem, r, HeapAddr(win, first + n)) <= 3
    ensures var s := Stat(w.mem, r, HeapAddr(win, first + n));
            && Absent(w0, r, win, first, n + 1) == Absent(w0, r, win, first, n) + Below(HeapAddr(win, first + n), s)
            && |Absent(w0, r, win, first, n + 1)| == |Absent(w0, r, win, first, n)| + 3 - s
  {
    hide *;
    var v := HeapAddr(win, first + n);
    var s := Stat(w.mem, r, v);
    var A, B, A' := Absent(w0, r, win, first, n), Below(v, s), Absent(w0, r, win, first, n + 1);
    forall p ensures p in A' <==> p in A || p in B {
      AbsentOrBelow(w0, w, r, win, first, n, p);
    }
    forall p | p in A && p in B ensures false {
      BelowMissing(w0, w, r, win, first, n, p);
    }
    BelowCount(v, s);
    Union(A, B, A');
  }

  lemma Union<T>(a: set<T>, b: set<T>, c: set<T>)
    requires (forall x :: x in c <==> x in a || x in b) && forall x :: !(x in a && x in b)
    ensures c == a + b && |c| == |a| + |b|
  {
    assert c == a + b && a * b == {};
  }

  /** A table that the page needs and does not have was not there before, and is not among those added. */
  lemma BelowMissing(w0: World, w: World, r: nat, win: Window, first: nat, n: nat, p: Path)
    requires TablesAdded(w0, w, r, win, first, n) && WinOk(w0, r, win) && first + n < 2048 && Stat(w.mem, r, HeapAddr(win, first + n)) <= 3
    requires p in Below(HeapAddr(win, first + n), Stat(w.mem, r, HeapAddr(win, first + n)))
    ensures p !in Absent(w0, r, win, first, n) && p in Absent(w0, r, win, first, n + 1)
  {
    hide *;
    var v := HeapAddr(win, first + n);
    BelowHas(v, Stat(w.mem, r, v), p);
    StatLevels(w.mem, r, v, |p|);
    TableDom(w0, r, win, first + n, |p|);
    TablesAddedAt(w0, w, r, win, first, n, p);
    InAbsent(w0, r, win, first, n + 1, first + n, |p|);
  }

  lemma TableDom(w: World, r: nat, win: Window, k: nat, l: nat)
    requires k < 2048 && WinOk(w, r, win) && l <= 4
    ensures Dom(r == w.boot, PathOf(HeapAddr(win, k), l)) && |PathOf(HeapAddr(win, k), l)| == l
  {
    HeapPathDom(w, r, win, k);
    HeapPathIsPath(win, k);
    hide HeapPath, Dom, HeapAddr;
    DomPathOf(r == w.boot, HeapAddr(win, k), l);
  }

  lemma TablesAddedAt(w0: World, w: World, r: nat, win: Window, first: nat, n: nat, q: Path)
    requires TablesAdded(w0, w, r, win, first, n) && Dom(r == w0.boot, q) && |q| <= 3
    ensures Tab(w.mem, r, q).Some? <==> Tab(w0.mem, r, q).Some? || q in Absent(w0, r, win, first, n)
  {
    hide Tab, Dom, Absent;
  }

  lemma AbsentOrBelow(w0: World, w: World, r: nat, win: Window, first: nat, n: nat, p: Path)
    requires TablesAdded(w0, w, r, win, first, n) && WinOk(w0, r, win) && first + n < 2048 && Stat(w.mem, r, HeapAddr(win, first + n)) <= 3
    ensures p in Absent(w0, r, win, first, n + 1) <==>
            p in Absent(w0, r, win, first, n) || p in Below(HeapAddr(win, first + n), Stat(w.mem, r, HeapAddr(win, first + n)))
  {
    hide *;
    AbsentGrows(w0, r, win, first, n);
    var v := HeapAddr(win, first + n);
    var s := Stat(w.mem, r, v);
    if p in Below(v, s) { BelowMissing(w0, w, r, win, first, n, p); }
    if p in Absent(w0, r, win, first, n + 1) {
      var k, l := AbsentIs(w0, r, win, first, n + 1, p);
      if k < first + n {
        InAbsent(w0, r, win, first, n, k, l);
      } else {
        TableDom(w0, r, win, k, l);
        TablesAddedAt(w0, w, r, win, first, n, p);
        StatLevels(w.mem, r, v, l);
        BelowHas(v, s, p);
      }
    }
  }

  lemma TablesAddedNone(w: World, r: nat, win: Window, first: nat)
    ensures TablesAdded(w, w, r, win, first, 0)
  {
    EnoughNone(w, r, win, first);
    hide Tab, Dom, Absent;
  }

  /** page_map of the next page adds exactly its missing tables. */
  lemma TablesAddedStep(w0: World, w: World, w': World, r: nat, win: Window, first: nat, n: nat)
    requires TablesAdded(w0, w, r, win, first, n) && WinOk(w0, r, win) && first + n < 2048 && w.boot == w0.boot
    requires Stat(w.mem, r, HeapAddr(win, first + n)) <= 3
    requires Grown(w, w', r, HeapAddr(win, first + n), Stat(w.mem, r, HeapAddr(win, first + n)), 4)
    ensures TablesAdded(w0, w', r, win, first, n + 1)
  {
    var v := HeapAddr(win, first + n);
    var s := Stat(w.mem, r, v);
    hide *;
    AbsentStep(w0, w, r, win, first, n);
    forall q | Dom(r == w0.boot, q) && |q| <= 3
      ensures Tab(w'.mem, r, q).Some? <==> Tab(w0.mem, r, q).Some? || q in Absent(w0, r, win, first, n + 1)
    {
      BelowHas(v, s, q);
      TablesAddedAt(w0, w, r, win, first, n, q);
      GrownAt(w, w', r, v, s, q);
      if |q| <= 4 && q == PathOf(v, |q|) { StatPath(w.mem, r, v, q); }
    }
    IsTablesAdded(w0, w', r, win, first, n + 1);
  }

  lemma IsTablesAdded(w0: World, w: World, r: nat, win: Window, first: nat, n: nat)
    requires forall q :: Dom(r == w0.boot, q) && |q| <= 3 ==>
               (Tab(w.mem, r, q).Some? <==> Tab(w0.mem, r, q).Some? || q in Absent(w0, r, win, first, n))
    ensures TablesAdded(w0, w, r, win, first, n)
  {
  }

  lemma StatPath(mem: Mem, r: nat, v: bv64, q: Path)
    requires |q| <= 4 && q == PathOf(v, |q|)
    ensures Tab(mem, r, q).Some? <==> |q| <= Stat(mem, r, v)
  {
    StatLevels(mem, r, v, |q|);
  }

  lemma GrownAt(w0: World, w: World, r: nat, v: bv64, s: nat, q: Path)
    requires Grown(w0, w, r, v, s, 4) && Dom(r == w0.boot, q)
    ensures if s < |q| <= 4 && q == PathOf(v, |q|) then Tab(w.mem, r, q).Some? else Tab(w.mem, r, q) == Tab(w0.mem, r, q)
  {
    hide Tab, Dom, PathOf;
  }

  lemma PagesAddedNone(w: World, r: nat, win: Window, first: nat)
    ensures PagesAdded(w, w, r, win, first, 0)
  {
    hide Tab, Dom, HeapPath;
  }

  lemma PagesRemovedNone(w: World, r: nat, win: Window, first: nat)
    ensures PagesRemoved(w, w, r, win, first, 0)
  {
    hide Tab, Dom, HeapPath;
  }

  /** No page of the space changed its translation, except that `at` now gives `to`. */
  ghost predicate PagesBut(w: World, w': World, r: nat, at: Path, to: Option<nat>) {
    forall q :: Dom(r == w.boot, q) && |q| == 4 ==> Tab(w'.mem, r, q) == if q == at then to else Tab(w.mem, r, q)
  }

  lemma RestKeptStep(w0: World, w: World, w': World, r: nat, win: Window, first: nat, n: nat, to: Option<nat>)
    requires RestKept(w0, w, r, win, first, n) && PagesBut(w, w', r, HeapPath(win, first + n), to) && w.boot == w0.boot
    ensures RestKept(w0, w', r, win, first, n + 1)
  {
    hide Tab, HeapPath, Dom;
    forall q | Dom(r == w0.boot, q) && |q| == 4 && forall k :: first <= k < first + n + 1 ==> q != HeapPath(win, k)
      ensures Tab(w'.mem, r, q) == Tab(w0.mem, r, q)
    {
      assert q != HeapPath(win, first + n);
    }
  }

  lemma PagesAddedStep(w0: World, w: World, w': World, r: nat, win: Window, first: nat, n: nat, f: nat)
    requires PagesAdded(w0, w, r, win, first, n) && first + n < 2048 && WinOk(w0, r, win) && Fresh(w0, f) && w.boot == w0.boot
    requires PagesBut(w, w', r, HeapPath(win, first + n), Some(f))
    ensures PagesAdded(w0, w', r, win, first, n + 1)
  {
    RestKeptStep(w0, w, w', r, win, first, n, Some(f));
    hide RestKept, Tab, HeapPath, Dom, Fresh, HeapMapped, PagesBut;
    forall k | first <= k < first + n + 1
      ensures HeapMapped(w', r, win, k) && Fresh(w0, Tab(w'.mem, r, HeapPath(win, k)).value)
    {
      AddedPage(w0, w, w', r, win, first, n, f, k);
    }
  }

  lemma AddedPage(w0: World, w: World, w': World, r: nat, win: Window, first: nat, n: nat, f: nat, k: nat)
    requires PagesAdded(w0, w, r, win, first, n) && first + n < 2048 && WinOk(w0, r, win) && Fresh(w0, f) && w.boot == w0.boot
    requires PagesBut(w, w', r, HeapPath(win, first + n), Some(f)) && first <= k < first + n + 1
    ensures HeapMapped(w', r, win, k) && Fresh(w0, Tab(w'.mem, r, HeapPath(win, k)).value)
  {
    hide *;
    HeapPathDom(w0, r, win, k);
    ButAt(w, w', r, HeapPath(win, first + n), Some(f), HeapPath(win, k));
    NotMappedIs(w', r, win, k);
    if k < first + n {
      AddedIs(w0, w, r, win, first, n, k);
      NotMappedIs(w, r, win, k);
      if HeapPath(win, k) == HeapPath(win, first + n) { HeapPathsApart(win, k, first + n); }
    }
  }

  lemma ButAt(w: World, w': World, r: nat, at: Path, to: Option<nat>, q: Path)
    requires PagesBut(w, w', r, at, to) && Dom(r == w.boot, q) && |q| == 4
    ensures Tab(w'.mem, r, q) == if q == at then to else Tab(w.mem, r, q)
  {
    hide Tab, Dom;
  }

  lemma AddedIs(w0: World, w: World, r: nat, win: Window, first: nat, n: nat, k: nat)
    requires PagesAdded(w0, w, r, win, first, n) && first <= k < first + n
    ensures HeapMapped(w, r, win, k) && Fresh(w0, Tab(w.mem, r, HeapPath(win, k)).value)
  {
    hide RestKept, Tab, HeapPath, Fresh;
  }

  lemma PagesRemovedStep(w0: World, w: World, w': World, r: nat, win: Window, first: nat, n: nat)
    requires PagesRemoved(w0, w, r, win, first, n) && first + n < 2048 && WinOk(w0, r, win) && w.boot == w0.boot
    requires PagesBut(w, w', r, HeapPath(win, first + n), None)
    ensures PagesRemoved(w0, w', r, win, first, n + 1)
  {
    RestKeptStep(w0, w, w', r, win, first, n, None);
    hide Tab, HeapPath, Dom, RestKept;
    forall k | first <= k < first + n + 1
      ensures !HeapMapped(w', r, win, k)
    {
      HeapPathDom(w0, r, win, k);
      assert k < first + n ==> !HeapMapped(w, r, win, k);
      assert Tab(w'.mem, r, HeapPath(win, k)).None?;
    }
  }

  /** A page of the pool outside the run is as it was. */
  lemma OtherHeapPage(w0: World, w: World, r: nat, win: Window, first: nat, n: nat, k: nat)
    requires k < 2048 && first + n <= 2048 && !(first <= k < first + n) && WinOk(w0, r, win) && RestKept(w0, w, r, win, first, n)
    ensures Tab(w.mem, r, HeapPath(win, k)) == Tab(w0.mem, r, HeapPath(win, k))
  {
    HeapPathDom(w0, r, win, k);
    forall j | first <= j < first + n
      ensures HeapPath(win, k) != HeapPath(win, j)
    {
      if HeapPath(win, k) == HeapPath(win, j) {
        HeapPathsApart(win, k, j);
      }
    }
    hide Tab, HeapPath, Dom;
  }

  predicate SamePool(w0: World, w: World) {
    w.boot == w0.boot && w.start == w0.start && |w.bits| == |w0.bits|
  }

  /** Pool and bitmap after an allocation that mapped the first `n` of `cnt` pages. */
  lemma HeapAfterAlloc(w0: World, w: World, r: nat, win: Window, vbits: seq<bool>, first: nat, cnt: nat, n: nat)
    requires HeapOk(w0, r, win, vbits) && RunAt(vbits, first, cnt) && n <= cnt && WinOk(w0, r, win) && SamePool(w0, w)
    requires PagesAdded(w0, w, r, win, first, n)
    ensures HeapOk(w, r, win, Filled(vbits, first, cnt, true))
    ensures BitsMatch(w0, r, win, vbits) ==> (BitsMatch(w, r, win, Filled(vbits, first, cnt, true)) <==> n == cnt)
  {
    hide Tab, HeapPath, Dom, Filled, RestKept, WinOk;
    var vbits' := Filled(vbits, first, cnt, true);
    forall k | 0 <= k < |vbits| && !(first <= k < first + n)
      ensures Tab(w.mem, r, HeapPath(win, k)) == Tab(w0.mem, r, HeapPath(win, k))
    {
      OtherHeapPage(w0, w, r, win, first, n, k);
    }
    FreshInPool(w0, w, r, win, first, n);
    hide PagesAdded, FromPool;
    if n < cnt {
      assert !vbits[first + n] && vbits'[first + n];
      assert !HeapMapped(w0, r, win, first + n);
    }
  }

  lemma FreshInPool(w0: World, w: World, r: nat, win: Window, first: nat, n: nat)
    requires PagesAdded(w0, w, r, win, first, n) && SamePool(w0, w)
    ensures forall k :: first <= k < first + n ==> HeapMapped(w, r, win, k) && FromPool(w, Tab(w.mem, r, HeapPath(win, k)).value)
  {
    hide Tab, HeapPath, RestKept;
  }

  lemma HeapAfterFree(w0: World, w: World, r: nat, win: Window, vbits: seq<bool>, first: nat, cnt: nat)
    requires HeapOk(w0, r, win, vbits) && first + cnt <= |vbits| && WinOk(w0, r, win) && SamePool(w0, w)
    requires PagesRemoved(w0, w, r, win, first, cnt)
    ensures HeapOk(w, r, win, Filled(vbits, first, cnt, false))
    ensures BitsMatch(w0, r, win, vbits) ==> BitsMatch(w, r, win, Filled(vbits, first, cnt, false))
  {
    hide Tab, HeapPath, Dom, Filled, RestKept, WinOk;
    forall k | 0 <= k < |vbits| && !(first <= k < first + cnt)
      ensures Tab(w.mem, r, HeapPath(win, k)) == Tab(w0.mem, r, HeapPath(win, k))
    {
      OtherHeapPage(w0, w, r, win, first, cnt, k);
    }
  }

  // ---- the kernel's memory ----

  /** How page_map ends; the last two are failed assertions of the source. */
  datatype MapOutcome = Mapped | AlreadyMapped | NoFrame

  /** How alloc_pages ends: the pages, no run of clear bits, no frame for a page, no frame for one of its tables (a
      failed assertion of the source), or a scan beyond the virtual bitmap. */
  datatype PagesOutcome = Pages(first: nat) | NoRun | NoDataFrame(first: nat) | NoTableFrame(first: nat) | Overrun

  /** The PML4 entry of the kernel half that the heap lies under is there. */
  predicate KernelTop(w: World) {
    Next(w.mem, w.boot, 256).Some?
  }

  /** The state of the loop of page_map: the walk for `v` ends with the level-`l` table, nothing else changed. */
  ghost predicate MapLoop(w0: World, w: World, r: nat, v: bv64, s: nat, l: nat, frame: nat, steps: seq<Step>)
  {
    && s <= l <= 3 && RunIn(w0, r, steps, w) && SamePool(w0, w) && w.roots == w0.roots && MapHere(w, r, v) && Spare(w, frame)
    && Tab(w.mem, r, PathOf(v, l)).Some? && Tab(w.mem, r, PathOf(v, l + 1)).None?
    && Grown(w0, w, r, v, s, l) && ClearBits(w.bits) + (l - s) == ClearBits(w0.bits) && w.bits == TakeFirst(w0.bits, l - s)
  }

  /** Physical memory as the kernel edits it, through the address space that is loaded.  It may be that of the boot
      tables or one that create_pml4 made; `roots` are all of those. */
  class Memory {
    const bootRoot: nat
    const poolStart: nat
    const pool: Bitmap
    var mem: Mem
    var root: nat
    ghost var roots: set<nat>

    constructor (bootRoot: nat, poolStart: nat, pool: Bitmap, mem: Mem)
      ensures this.bootRoot == bootRoot && this.poolStart == poolStart && this.pool == pool && this.mem == mem
      ensures root == bootRoot && roots == {}
    {
      this.bootRoot, this.poolStart, this.pool, this.mem, this.root := bootRoot, poolStart, pool, mem, bootRoot;
      roots := {};
    }

    ghost function State(): World
      reads this`mem, this`roots, pool.bits
    {
      World(mem, bootRoot, roots, poolStart, pool.Value())
    }

    /** All address spaces are in order. */
    ghost predicate Ok()
      reads this`mem, this`root, this`roots, pool.bits
    {
      Shared(State()) && State().Space(root) && KernelTop(State())
    }

    // ---- access through the MMU ----

    method ReadWord(va: bv64) returns (w: nat)
      requires Translate(mem, root, va).Some?
      ensures w == Word(mem, Translate(mem, root, va).value, WordOf(va))
    {
      w := Word(mem, Translate(mem, root, va).value, WordOf(va));
    }

    method WriteWord(va: bv64, e: nat, ghost mem0: Mem)
      requires mem == mem0 && Translate(mem, root, va).Some?
      modifies this`mem
      ensures mem == Write(mem0, Translate(mem0, root, va).value, WordOf(va), e)
    {
      mem := Write(mem, Translate(mem, root, va).value, WordOf(va), e);
    }

    method ClearPage(va: bv64, ghost mem0: Mem)
      requires mem == mem0 && Translate(mem, root, va).Some?
      modifies this`mem
      ensures mem == Zeroed(mem0, Translate(mem0, root, va).value)
    {
      mem := Zeroed(mem, Translate(mem, root, va).value);
    }

    /** addr_v2p reads the page's own entry through the recursive map. */
    method AddrV2P(v: bv64) returns (p: nat)
      requires SelfMapped(mem, root) && Translate(mem, root, v).Some?
      ensures p == 4096 * Translate(mem, root, v).value + NatOf(v & 0xfff)
    {
      hide NatOf, PathOf, Tab, Fu, WordOf, Idx, SelfMapped, Word;
      PresentAbove(mem, root, v);
      RecursiveWalk(mem, root, 3, v);
      PathStep(mem, root, v, 3);
      var w := ReadWord(Fu(3, v));
      p := w - w % 4096 + NatOf(v & 0xfff);
    }

    /** map_stat reads the entries level by level and stops at the first that is absent. */
    method MapStat(v: bv64) returns (s: nat)
      requires SelfMapped(mem, root)
      ensures s == Stat(mem, root, v)
    {
      hide PathOf, Fu, WordOf, Idx, SelfMapped, Word, Tab, Stat;
      RootPresent(mem, root, v);
      var i := 0;
      while i != 4
        invariant 0 <= i <= 4 && Tab(mem, root, PathOf(v, i)).Some?
        decreases 4 - i
      {
        RecursiveWalk(mem, root, i, v);
        PathStep(mem, root, v, i);
        var w := ReadWord(Fu(i, v));
        if w % 2 != 1 {
          StatIs(mem, root, v, i);
          return i;
        }
        i := i + 1;
      }
      StatIs(mem, root, v, 4);
      s := 4;
    }

    /** palloc: the first free frame of the pool, or none exactly when every frame is taken. */
    method Palloc(ghost w: World) returns (r: Option<nat>)
      requires Ok() && w == State()
      modifies pool.bits
      ensures Ok() && (r.None? <==> ClearBits(w.bits) == 0)
      ensures r.None? ==> State() == w
      ensures r.Some? ==> Enabled(w, AddressSpaces.Palloc(r.value)) && State() == After(w, AddressSpaces.Palloc(r.value))
      ensures r.Some? ==> Fresh(w, r.value) && forall f: nat :: f < r.value ==> !Fresh(w, f)
      ensures r.Some? ==> ClearBits(State().bits) + 1 == ClearBits(w.bits) && State().bits == TakeFirst(w.bits, 1)
    {
      hide *;
      OkFacts();
      StateIs(w);
      NoneClear(w.bits);
      var idx := pool.AllocABit();
      if idx == -1 {
        SameState(w);
        IsOk(w);
        return None;
      }
      TakeOne(w.bits, idx);
      TakeFirstCount(w.bits, 1);
      FirstFrame(w, idx);
      r := Some(poolStart + idx);
      TookFrame(w, idx);
    }

    lemma StateIs(w: World)
      requires w == State()
      ensures w.mem == mem && w.boot == bootRoot && w.roots == roots && w.start == poolStart && w.bits == pool.Value()
    {
    }

    lemma SameState(w: World)
      requires w.mem == mem && w.boot == bootRoot && w.roots == roots && w.start == poolStart && w.bits == pool.Value()
      ensures w == State()
    {
    }

    lemma OkFacts()
      requires Ok()
      ensures Shared(State()) && State().Space(root) && KernelTop(State()) && SelfMapped(mem, root) && State().boot !in State().roots
    {
      SpaceFacts(State(), root);
    }

    lemma IsOk(w: World)
      requires w == State() && Shared(w) && w.Space(root) && KernelTop(w)
      ensures Ok()
    {
    }

    lemma TookFrame(w: World, idx: nat)
      requires Shared(w) && w.Space(root) && KernelTop(w) && idx < |w.bits| && !w.bits[idx] && pool.Value() == w.bits[idx := true]
      requires w.mem == mem && w.boot == bootRoot && w.roots == roots && w.start == poolStart
      ensures Enabled(w, AddressSpaces.Palloc(poolStart + idx)) && State() == After(w, AddressSpaces.Palloc(poolStart + idx)) && Ok()
      ensures State().bits == w.bits[idx := true]
    {
      hide Shared, KernelTop;
      PallocShared(w, AddressSpaces.Palloc(poolStart + idx));
      SameTop(w, State());
    }

    /** page_map: the missing tables are allocated and cleared one by one, then the page's entry is written. */
    method PageMap(v: bv64, frame: nat, ghost w: World) returns (r: MapOutcome, ghost steps: seq<Step>)
      requires Ok() && w == State() && MapHere(w, root, v) && Spare(w, frame)
      modifies this`mem, pool.bits
      ensures Ok() && RunIn(w, root, steps, State()) && SamePool(w, State()) && State().roots == w.roots
      ensures r == AlreadyMapped <==> Translate(w.mem, root, v).Some?
      ensures r == AlreadyMapped ==> State() == w
      ensures r == NoFrame <==> Translate(w.mem, root, v).None? && ClearBits(w.bits) + Stat(w.mem, root, v) < 3
      ensures r == NoFrame ==> ClearBits(State().bits) == 0 && PagesBut(w, State(), root, PathOf(v, 4), None)
      ensures r == Mapped ==> Grown(w, State(), root, v, Stat(w.mem, root, v), 4) && Translate(mem, root, v) == Some(frame)
      ensures r == Mapped ==> ClearBits(State().bits) + 3 == ClearBits(w.bits) + Stat(w.mem, root, v)
      ensures r == Mapped ==> Stat(w.mem, root, v) <= 3 && State().bits == TakeFirst(w.bits, 3 - Stat(w.mem, root, v))
      ensures r == NoFrame ==> Stat(w.mem, root, v) <= 3 && State().bits == TakeFirst(w.bits, 3 - Stat(w.mem, root, v))
      ensures r == Mapped ==> PagesBut(w, State(), root, PathOf(v, 4), Some(frame))
    {
      hide *;
      OkFacts();
      StateIs(w);
      StatPresent(mem, root, v);
      var stat := MapStat(v);
      SamePoolRefl(w);
      RunInNone(w, root);
      steps := [];
      if stat == 4 {
        return AlreadyMapped, steps;
      }
      ghost var s := stat;
      MapLoopStarts(w, root, v, s, frame);
      while stat != 3
        invariant Ok() && s <= stat <= 3 && MapLoop(w, State(), root, v, s, stat, frame, steps)
        decreases 3 - stat
      {
        ghost var m := State();
        var n;
        n, steps := AddTable(v, s, stat, frame, w, m, steps);
        if n.None? {
          TakeAll(w.bits, stat - s, 3 - s);
          return NoFrame, steps;
        }
        stat := stat + 1;
      }
      r := Mapped;
      steps := SetEntry(v, s, frame, w, steps);
      StateIs(State());
      TranslateIs(mem, root, v);
      PageGrown(w, State(), root, v, s, frame);
    }

    /** One iteration: a new table behind the level-`l` entry. */
    method AddTable(v: bv64, ghost s: nat, l: nat, frame: nat, ghost w0: World, ghost w: World, ghost steps0: seq<Step>)
      returns (n: Option<nat>, ghost steps: seq<Step>)
      requires Ok() && w == State() && l < 3 && MapLoop(w0, w, root, v, s, l, frame, steps0)
      modifies this`mem, pool.bits
      ensures Ok() && RunIn(w0, root, steps, State()) && SamePool(w0, State()) && State().roots == w0.roots
      ensures n.None? ==> ClearBits(State().bits) == 0 && ClearBits(w0.bits) == l - s && PagesBut(w0, State(), root, PathOf(v, 4), None)
      ensures n.None? ==> s <= l && State().bits == TakeFirst(w0.bits, l - s)
      ensures n.Some? ==> MapLoop(w0, State(), root, v, s, l + 1, frame, steps)
    {
      hide *;
      LoopFacts(w0, w, root, v, s, l, frame, steps0);
      OkFacts();
      n := Palloc(w);
      steps := steps0;
      if n.None? {
        AbsentBelow(w.mem, root, v, l + 1);
        GrownPages(w0, w, root, v, s, l);
        return;
      }
      ghost var w1 := State();
      AfterPalloc(w0, w, w1, root, v, s, l, frame, steps0, n.value);
      OkFacts();
      steps := steps0 + [AddressSpaces.Palloc(n.value)];
      PutTable(v, l, n.value, w1);
      ghost var w2 := State();
      AfterPut(w0, w1, w2, root, v, s, l, frame, steps, n.value);
      steps := steps + [PutStep(root, v, l, n.value)];
      LoopFacts(w0, w2, root, v, s, l + 1, frame, steps);
    }

    /** The entry is written through the map, then the new table is cleared through its own window. */
    method PutTable(v: bv64, l: nat, n: nat, ghost w: World)
      requires Ok() && w == State() && l < 3 && MapHere(w, root, v) && Spare(w, n)
      requires Tab(w.mem, root, PathOf(v, l)).Some? && Tab(w.mem, root, PathOf(v, l + 1)).None?
      modifies this`mem
      ensures Ok() && Enabled(w, PutStep(root, v, l, n)) && State() == After(w, PutStep(root, v, l, n))
    {
      hide *;
      OkFacts();
      StateIs(w);
      ghost var m := mem;
      ghost var f := Tab(m, root, PathOf(v, l)).value;
      PutEffect(w, root, v, l, n);
      EntryPresent(w, root, v, l, n);
      RecursiveWalk(m, root, l, v);
      WriteWord(Fu(l, v), Entry(n), m);
      ghost var m1 := mem;
      RecursiveWalk(m1, root, l + 1, v);
      ClearPage(Fu(l + 1, v), m1);
      IsInstalled(m, f, Idx(l, v), n);
      AfterStep(w, PutStep(root, v, l, n));
    }

    /** The memory after a step that changes nothing else. */
    lemma AfterStep(w: World, t: Step)
      requires Shared(w) && Enabled(w, t) && KernelTop(w) && w.Space(root) && w.boot == bootRoot && w.start == poolStart
      requires After(w, t) == w.(mem := After(w, t).mem) && mem == After(w, t).mem && roots == w.roots && pool.Value() == w.bits
      ensures State() == After(w, t) && Ok()
    {
      hide Shared, Enabled, After, KernelTop;
      StepShared(w, t);
      StepKeepsTop(w, t);
      SameState(After(w, t));
    }

    /** The last statement of page_map. */
    method SetEntry(v: bv64, ghost s: nat, frame: nat, ghost w0: World, ghost steps0: seq<Step>) returns (ghost steps: seq<Step>)
      requires Ok() && MapLoop(w0, State(), root, v, s, 3, frame, steps0)
      modifies this`mem
      ensures Ok() && RunIn(w0, root, steps, State()) && SamePool(w0, State()) && State().roots == w0.roots
      ensures s <= 3 && Grown(w0, State(), root, v, s, 4) && Translate(mem, root, v) == Some(frame)
      ensures ClearBits(State().bits) + 3 == ClearBits(w0.bits) + s && State().bits == TakeFirst(w0.bits, 3 - s)
    {
      hide *;
      ghost var w := State();
      LoopFacts(w0, w, root, v, s, 3, frame, steps0);
      OkFacts();
      StateIs(w);
      ghost var m := mem;
      PutEffect(w, root, v, 3, frame);
      RecursiveWalk(m, root, 3, v);
      WriteWord(Fu(3, v), Entry(frame), m);
      IsLeaf(m, Tab(m, root, PathOf(v, 3)).value, Idx(3, v), frame);
      AfterStep(w, PutStep(root, v, 3, frame));
      AfterEntry(w0, w, State(), root, v, s, frame, steps0);
      steps := steps0 + [PutStep(root, v, 3, frame)];
    }

    // ---- alloc_pages and free_pages ----

    /** alloc_pages: a run of pages from the virtual bitmap, each mapped to a frame of the pool.  `done` pages get one;
        the rest of the run stays marked in the virtual bitmap without being mapped. */
    method AllocPages(vp: Bitmap, win: Window, cnt: nat, ghost w: World, ghost vbits0: seq<bool>)
      returns (r: PagesOutcome, ghost done: nat, ghost steps: seq<Step>)
      requires Ok() && w == State() && WinOk(w, root, win) && vp.bits != pool.bits && vp.Value() == vbits0 && HeapOk(w, root, win, vbits0)
      modifies this`mem, pool.bits, vp.bits
      ensures Ok() && RunIn(w, root, steps, State()) && SamePool(w, State()) && State().roots == w.roots
      ensures HeapOk(State(), root, win, vp.Value())
      ensures r.Overrun? <==> ScanOverruns(vbits0, cnt)
      ensures r.NoRun? <==> !HasRun(vbits0, cnt) && !ScanOverruns(vbits0, cnt)
      ensures r.Overrun? || r.NoRun? ==> vp.Value() == vbits0 && State() == w
      ensures HasRun(vbits0, cnt) ==> (r.Pages? || r.NoDataFrame? || r.NoTableFrame?) && FirstFit(vbits0, r.first, cnt)
      ensures HasRun(vbits0, cnt) ==> vp.Value() == Filled(vbits0, r.first, cnt, true) && Mapping(w, State(), root, win, cnt, r, done)
      ensures r.Pages? <==> Fits(w, root, win, vbits0, cnt)
      ensures r.NoDataFrame? <==> PageShort(w, root, win, vbits0, cnt)
      ensures r.NoTableFrame? <==> TableShort(w, root, win, vbits0, cnt)
      ensures BitsMatch(w, root, win, vbits0) ==> (BitsMatch(State(), root, win, vp.Value()) <==> !r.NoDataFrame? && !r.NoTableFrame?)
    {
      hide *;
      done, steps := 0, [];
      OkFacts();
      SamePoolRefl(w);
      RunInNone(w, root);
      var run := vp.Alloc(cnt);
      OverrunIsNoRun(vbits0, cnt);
      if !HasRun(vbits0, cnt) { NoVerdict(w, root, win, vbits0, cnt); }
      StateIs(w);
      SameState(w);
      IsOk(w);
      match run {
        case Overrun =>
          return PagesOutcome.Overrun, done, steps;
        case Full =>
          return NoRun, done, steps;
        case Found(first) =>
          FitFacts(vbits0, first, cnt);
          r, done, steps := MapRun(win, first, cnt, w, vbits0);
          HeapAfterMapping(w, State(), root, win, vbits0, cnt, r, done);
          Verdict(w, State(), root, win, vbits0, cnt, r, done);
      }
    }

    /** The loop of alloc_pages over the run that the virtual bitmap gave. */
    method MapRun(win: Window, first: nat, cnt: nat, ghost w: World, ghost vbits0: seq<bool>)
      returns (r: PagesOutcome, ghost done: nat, ghost steps: seq<Step>)
      requires Ok() && w == State() && WinOk(w, root, win) && HeapOk(w, root, win, vbits0) && RunAt(vbits0, first, cnt)
      modifies this`mem, pool.bits
      ensures Ok() && RunIn(w, root, steps, State()) && SamePool(w, State()) && State().roots == w.roots
      ensures (r.Pages? || r.NoDataFrame? || r.NoTableFrame?) && r.first == first && Mapping(w, State(), root, win, cnt, r, done)
    {
      hide *;
      RunStarts(w, root, win, first);
      r := Pages(first);
      steps := [];
      var i: nat := 0;
      while i != cnt
        invariant i <= cnt && Ok() && r == Pages(first) && RunLoop(w, State(), root, win, first, i, steps)
        decreases cnt - i
      {
        ghost var m := State();
        r, steps := MapOne(win, first, i, cnt, w, m, vbits0, steps);
        if !r.Pages? {
          done := i;
          return;
        }
        i := i + 1;
      }
      done := cnt;
      AllMapped(w, State(), root, win, first, cnt, steps);
    }

    /** One page of the run: a frame from palloc, mapped.  The assertion of page_map that the page is not
        mapped yet cannot fail here. */
    method MapOne(win: Window, first: nat, i: nat, cnt: nat, ghost w0: World, ghost w: World, ghost vbits0: seq<bool>, ghost steps0: seq<Step>)
      returns (r: PagesOutcome, ghost steps: seq<Step>)
      requires Ok() && w == State() && WinOk(w0, root, win) && HeapOk(w0, root, win, vbits0) && RunAt(vbits0, first, cnt) && i < cnt
      requires RunLoop(w0, w, root, win, first, i, steps0)
      modifies this`mem, pool.bits
      ensures Ok() && RunIn(w0, root, steps, State()) && SamePool(w0, State()) && State().roots == w0.roots
      ensures (r.Pages? || r.NoDataFrame? || r.NoTableFrame?) && r.first == first
      ensures r.Pages? ==> RunLoop(w0, State(), root, win, first, i + 1, steps)
      ensures !r.Pages? ==> Mapping(w0, State(), root, win, cnt, r, i)
    {
      hide *;
      RunLoopFacts(w0, w, root, win, first, i, steps0);
      OkFacts();
      WinThere(w0, w, root, win);
      NotMappedYet(w0, w, root, win, vbits0, first, cnt, i);
      var v := HeapAddr(win, first + i);
      CanMap(w, root, win, first + i);
      var paddr := Palloc(w);
      steps := steps0;
      if paddr.None? {
        r := NoDataFrame(first);
        DataFrameMissing(w0, w, root, win, first, i, cnt, steps0);
        return;
      }
      ghost var t := AddressSpaces.Palloc(paddr.value);
      ghost var w1 := State();
      PallocShared(w, t);
      SameRest(w, t);
      RunInOne(w, root, t);
      RunInThen(w0, root, steps0, w, [t], w1);
      SameMem(w, w1, root, v);
      ghost var more;
      var outcome;
      outcome, more := PageMap(v, paddr.value, w1);
      RunInThen(w0, root, steps0 + [t], w1, more, State());
      steps := steps0 + [t] + more;
      SamePoolThen(w0, w, w1, State());
      if outcome == NoFrame {
        r := NoTableFrame(first);
        TableFrameMissing(w0, w, w1, State(), root, win, first, i, cnt, steps0);
        return;
      }
      r := Pages(first);
      StateIs(State());
      OnePageMore(w0, w, w1, State(), root, win, first, i, steps0, steps, paddr.value);
    }

    /** free_pages: each page's present bit is cleared through the recursive map; its frame is marked used,
        not free, so it is never handed out again; then the virtual bits are cleared. */
    method FreePages(vp: Bitmap, win: Window, first: nat, cnt: nat, ghost w: World, ghost vbits0: seq<bool>) returns (ghost steps: seq<Step>)
      requires Ok() && w == State() && WinOk(w, root, win) && vp.bits != pool.bits && vp.Value() == vbits0 && HeapOk(w, root, win, vbits0)
      requires first + cnt <= |vbits0| && forall k :: first <= k < first + cnt ==> HeapMapped(w, root, win, k)
      modifies this`mem, pool.bits, vp.bits
      ensures Ok() && RunIn(w, root, steps, State()) && SamePool(w, State()) && State().roots == w.roots && State().bits == w.bits
      ensures PagesRemoved(w, State(), root, win, first, cnt) && vp.Value() == Filled(vbits0, first, cnt, false)
      ensures HeapOk(State(), root, win, vp.Value())
      ensures BitsMatch(w, root, win, vbits0) ==> BitsMatch(State(), root, win, vp.Value())
    {
      hide *;
      MappedIsSet(w, root, win, vbits0, first, cnt);
      steps := UnmapRange(win, first, cnt, w, vbits0);
      ghost var w2 := State();
      StateIs(w2);
      OkFacts();
      vp.Free(first, cnt);
      SameState(w2);
      IsOk(w2);
      SamePoolBits(w, w2);
      HeapAfterFree(w, w2, root, win, vbits0, first, cnt);
    }

    method UnmapRange(win: Window, first: nat, cnt: nat, ghost w: World, ghost vbits0: seq<bool>) returns (ghost steps: seq<Step>)
      requires Ok() && w == State() && WinOk(w, root, win) && HeapOk(w, root, win, vbits0) && first + cnt <= |vbits0|
      requires forall k :: first <= k < first + cnt ==> HeapMapped(w, root, win, k)
      modifies this`mem, pool.bits
      ensures Ok() && RunIn(w, root, steps, State()) && SameButMem(w, State()) && PagesRemoved(w, State(), root, win, first, cnt)
    {
      hide *;
      PagesRemovedNone(w, root, win, first);
      RunInNone(w, root);
      SameButMemRefl(w);
      steps := [];
      var i: nat := 0;
      while i != cnt
        invariant i <= cnt && Ok() && RunIn(w, root, steps, State()) && SameButMem(w, State()) && PagesRemoved(w, State(), root, win, first, i)
        decreases cnt - i
      {
        ghost var m := State();
        StillMapped(w, m, root, win, vbits0, first, cnt, i);
        WinKept(w, m, root, win);
        UnmapOne(win, first + i, m);
        ghost var t := ClearStep(root, HeapAddr(win, first + i));
        ClearStepIs(root, HeapAddr(win, first + i));
        RunInOne(m, root, t);
        RunInThen(w, root, steps, m, [t], State());
        steps := steps + [t];
        SameButMemThen(w, m, State());
        PagesRemovedStep(w, m, State(), root, win, first, i);
        i := i + 1;
      }
    }

    /** One page of free_pages. */
    method UnmapOne(win: Window, k: nat, ghost w: World)
      requires Ok() && w == State() && WinOk(w, root, win) && k < 2048
      requires HeapMapped(w, root, win, k) && FromPool(w, Tab(w.mem, root, HeapPath(win, k)).value)
      modifies this`mem, pool.bits
      ensures Ok() && Enabled(w, ClearStep(root, HeapAddr(win, k))) && State() == After(w, ClearStep(root, HeapAddr(win, k)))
      ensures SameButMem(w, State()) && PagesBut(w, State(), root, HeapPath(win, k), None)
    {
      var vaddr := HeapAddr(win, k);
      hide *;
      OkFacts();
      StateIs(w);
      ghost var m := mem;
      PageThere(w, root, win, k);
      ClearEffectHere(w, root, vaddr);
      RecursiveWalk(m, root, 3, vaddr);
      var paddr := AddrV2P(vaddr);
      PageOffset(vaddr);
      var pidx := (paddr - 4096 * poolStart) / 4096;
      var word := ReadWord(Fu(3, vaddr));
      WriteWord(Fu(3, vaddr), word - 1, m);
      pool.Set(pidx, true);
      assert w.bits[pidx := true] == w.bits;
      AfterStep(w, ClearStep(root, vaddr));
      SameButMemIs(w, State());
    }

    // ---- address spaces ----

    /** memcpy of the upper half of a page. */
    method CopyUpperHalf(dst: bv64, src: bv64, ghost mem0: Mem)
      requires mem == mem0 && Translate(mem, root, dst).Some? && Translate(mem, root, src).Some?
      modifies this`mem
      ensures mem == mem0[Translate(mem0, root, dst).value :=
                            Page(mem0, Translate(mem0, root, dst).value)[..256] + Page(mem0, Translate(mem0, root, src).value)[256..]]
    {
      var d, f := Translate(mem, root, dst).value, Translate(mem, root, src).value;
      mem := mem[d := Page(mem, d)[..256] + Page(mem, f)[256..]];
    }

    /** create_pml4: a page of the kernel heap becomes a PML4 with an empty low half, the upper half of the one that is
        loaded, and its own self-entry. */
    method CreatePml4(vp: Bitmap, ghost w: World, ghost vbits0: seq<bool>)
      returns (r: PagesOutcome, pml4: nat, ghost done: nat, ghost steps: seq<Step>)
      requires Ok() && w == State() && vp.bits != pool.bits && vp.Value() == vbits0 && HeapOk(w, root, Kernel, vbits0)
      modifies this`mem, this`roots, pool.bits, vp.bits
      ensures Ok() && RunIn(w, root, steps, State()) && HeapOk(State(), root, Kernel, vp.Value())
      ensures r.Overrun? <==> ScanOverruns(vbits0, 1)
      ensures r.NoRun? <==> !HasRun(vbits0, 1) && !ScanOverruns(vbits0, 1)
      ensures r.Overrun? || r.NoRun? ==> vp.Value() == vbits0 && State() == w
      ensures HasRun(vbits0, 1) ==> FirstFit(vbits0, r.first, 1) && vp.Value() == Filled(vbits0, r.first, 1, true) && Mapping(w, State(), root, Kernel, 1, r, done)
      ensures r.Pages? <==> Fits(w, root, Kernel, vbits0, 1)
      ensures BitsMatch(w, root, Kernel, vbits0) ==> (BitsMatch(State(), root, Kernel, vp.Value()) <==> !r.NoDataFrame? && !r.NoTableFrame?)
      ensures !r.Pages? ==> State().roots == w.roots
      ensures r.Pages? ==> NewSpace(w, State(), root, HeapPath(Kernel, r.first), pml4)
    {
      hide *;
      OkFacts();
      KernelWin(w, root);
      r, done, steps := AllocPages(vp, Kernel, 1, w, vbits0);
      pml4 := 0;
      if !r.Pages? { return; }
      ghost var w1 := State();
      ghost var vbits := vp.Value();
      FirstInPool(w, root, vbits0, r.first);
      var va := HeapAddr(Kernel, r.first);
      OkFacts();
      StateIs(w1);
      PoolOf(w, w1);
      OnlyMapped(w, w1, root, r.first, done, r);
      var n := Translate(mem, root, va).value;
      ghost var t := Create(root, n);
      HeapPathLen(Kernel, r.first);
      FrameIsNew(w, w1, root, HeapPath(Kernel, r.first), n);
      FillPml4(va, n, w1);
      roots := roots + {n};
      SpaceMade(w1, t);
      RunInOne(w1, root, t);
      RunInThen(w, root, steps, w1, [t], State());
      steps := steps + [t];
      pml4 := n;
      IsNewSpace(w, w1, State(), root, HeapPath(Kernel, r.first), n);
      CreatedSame(w1, root, n);
      KernelWin(w1, root);
      HeapSame(w1, State(), root, Kernel, vbits);
      MappingSame(w, w1, State(), root, Kernel, 1, r, done);
    }

    lemma SpaceMade(w: World, t: Step)
      requires Shared(w) && Enabled(w, t) && t.Create? && KernelTop(w) && w.Space(root) && w.boot == bootRoot && w.start == poolStart
      requires mem == w.mem[t.n := NewPml4(w.mem, t.r, t.n)] && roots == w.roots + {t.n} && pool.Value() == w.bits
      ensures State() == After(w, t) && Ok()
    {
      hide Shared, Enabled, KernelTop, NewPml4;
      StepShared(w, t);
      StepKeepsTop(w, t);
    }

    /** memset, memcpy and the self-entry. */
    method FillPml4(va: bv64, n: nat, ghost w: World)
      requires Ok() && w == State() && va & 0xfff == 0 && Dom(root == bootRoot, PathOf(va, 4)) && Translate(mem, root, va) == Some(n)
      requires NoTable(w, n)
      modifies this`mem
      ensures mem == w.mem[n := NewPml4(w.mem, root, n)]
    {
      hide *;
      OkFacts();
      StateIs(w);
      ghost var m := mem;
      SelfAddress();
      NotTheRoot(w, root, n);
      RecursiveWalk(m, root, 0, 0);
      RootPresent(m, root, 0);
      ClearPage(va, m);
      ghost var m1 := mem;
      ZeroedIs(m, n);
      StillThere(w, root, n, va, m1[n]);
      RecursiveWalk(m1, root, 0, 0);
      RootPresent(m1, root, 0);
      CopyUpperHalf(va, 0xfffffffffffff000, m1);
      ghost var m2 := mem;
      CopiedIs(m, m1, n, m2[n]);
      StillThere(w, root, n, va, m2[n]);
      var paddr := AddrV2P(va);
      LastWord(va);
      TranslateIs(m, root, va);
      TranslateIs(m, root, va + 0xff8);
      StillThere(w, root, n, va + 0xff8, m2[n]);
      WriteWord(va + 0xff8, paddr + 7, m2);
      ZeroOffset(va);
      Pml4Is(m, m1, m2, root, n);
    }

    /** Loading another address space. */
    method SwitchTo(r: nat, ghost w: World)
      requires Ok() && w == State() && w.Space(r)
      modifies this`root
      ensures Ok() && State() == w && root == r
    {
      hide Shared, KernelTop;
      root := r;
    }

    /** One turn of the loop of get_pages: a page of the low half of a created space. */
    method GetPage(v: bv64, ghost w: World) returns (r: PageOutcome, ghost steps: seq<Step>)
      requires Ok() && w == State() && MapHere(w, root, v)
      modifies this`mem, pool.bits
      ensures Ok() && RunIn(w, root, steps, State()) && SamePool(w, State()) && State().roots == w.roots
      ensures r == NoData <==> ClearBits(w.bits) == 0
      ensures r == Clash <==> ClearBits(w.bits) > 0 && Translate(w.mem, root, v).Some?
      ensures r == NoTables <==> 0 < ClearBits(w.bits) < 4 - Stat(w.mem, root, v) && Translate(w.mem, root, v).None?
      ensures r == NoData ==> State() == w
      ensures r == Got ==> GotPage(w, State(), root, v)
      ensures r == Got ==> Stat(w.mem, root, v) <= 3 && State().bits == TakeFirst(w.bits, 4 - Stat(w.mem, root, v))
    {
      hide *;
      OkFacts();
      var paddr := Palloc(w);
      SamePoolRefl(w);
      RunInNone(w, root);
      steps := [];
      if paddr.None? {
        return NoData, steps;
      }
      ghost var t := AddressSpaces.Palloc(paddr.value);
      ghost var w1 := State();
      PallocShared(w, t);
      SameRest(w, t);
      RunInOne(w, root, t);
      SameMem(w, w1, root, v);
      var outcome;
      outcome, steps := PageMap(v, paddr.value, w1);
      RunInThen(w, root, [t], w1, steps, State());
      steps := [t] + steps;
      SamePoolThen(w, w, w1, State());
      StateIs(State());
      StatPresent(w.mem, root, v);
      match outcome {
        case AlreadyMapped => r := Clash;
        case NoFrame => r := NoTables;
        case Mapped =>
          r := Got;
          TakeTwice(w.bits, 1, 3 - Stat(w.mem, root, v));
          GrownFrom(w, w1, State(), root, v, Stat(w.mem, root, v));
          TranslateIs(mem, root, v);
          TranslateIs(w.mem, root, v);
          PageGrown(w, State(), root, v, Stat(w.mem, root, v), paddr.value);
          IsGotPage(w, State(), root, v, paddr.value);
      }
    }
  }

  lemma SameTop(w: World, w': World)
    requires KernelTop(w) && w'.mem == w.mem && w'.boot == w.boot
    ensures KernelTop(w')
  {
  }

  lemma StepKeepsTop(w: World, t: Step)
    requires Shared(w) && Enabled(w, t) && KernelTop(w)
    ensures KernelTop(After(w, t))
  {
    hide Shared, Enabled, After, Word;
    SameRest(w, t);
    BootPml4Kept(w, t, 256);
  }

  lemma FirstFrame(w: World, idx: nat)
    requires idx < |w.bits| && !w.bits[idx] && forall k: nat :: k < idx ==> w.bits[k]
    ensures Fresh(w, w.start + idx) && forall f: nat :: f < w.start + idx ==> !Fresh(w, f)
  {
  }

  lemma SamePoolRefl(w: World)
    ensures SamePool(w, w)
  {
  }

  /** Below an absent table everything is absent. */
  lemma AbsentBelow(mem: Mem, root: nat, v: bv64, l: nat)
    requires l <= 4 && Tab(mem, root, PathOf(v, l)).None?
    ensures Tab(mem, root, PathOf(v, 4)).None? && Translate(mem, root, v).None?
  {
    StatLevels(mem, root, v, l);
    StatLevels(mem, root, v, 4);
  }

  lemma MapLoopStarts(w: World, r: nat, v: bv64, s: nat, frame: nat)
    requires MapHere(w, r, v) && Spare(w, frame) && s <= 3
    requires Tab(w.mem, r, PathOf(v, s)).Some? && Tab(w.mem, r, PathOf(v, s + 1)).None?
    ensures MapLoop(w, w, r, v, s, s, frame, [])
  {
    RunInNone(w, r);
    GrownNone(w, r, v, s);
    hide Tab, PathOf, Spare, MapHere, RunIn, Grown;
  }

  lemma LoopFacts(w0: World, w: World, r: nat, v: bv64, s: nat, l: nat, frame: nat, steps: seq<Step>)
    requires MapLoop(w0, w, r, v, s, l, frame, steps)
    ensures s <= l <= 3 && RunIn(w0, r, steps, w) && SamePool(w0, w) && w.roots == w0.roots && MapHere(w, r, v) && Spare(w, frame) && w.Space(r)
    ensures Tab(w.mem, r, PathOf(v, l)).Some? && Tab(w.mem, r, PathOf(v, l + 1)).None?
    ensures Grown(w0, w, r, v, s, l) && ClearBits(w.bits) + (l - s) == ClearBits(w0.bits) && w.bits == TakeFirst(w0.bits, l - s)
  {
    hide Tab, PathOf, Spare, RunIn, Grown;
  }

  /** While only tables have been added no page has changed. */
  lemma GrownPages(w0: World, w: World, r: nat, v: bv64, s: nat, l: nat)
    requires s <= l <= 3 && Grown(w0, w, r, v, s, l) && Tab(w.mem, r, PathOf(v, 4)).None?
    ensures PagesBut(w0, w, r, PathOf(v, 4), None)
  {
    hide Tab, Dom, PathOf;
  }

  lemma SameMem(w: World, w': World, r: nat, v: bv64)
    requires MapHere(w, r, v) && w'.mem == w.mem && w'.roots == w.roots && w'.boot == w.boot
    ensures MapHere(w', r, v)
  {
  }

  lemma GrownSame(w0: World, w: World, w': World, r: nat, v: bv64, s: nat, l: nat)
    requires l <= 4 && Grown(w0, w, r, v, s, l) && w'.mem == w.mem
    ensures Grown(w0, w', r, v, s, l)
  {
    hide Tab, Dom, PathOf;
  }

  /** The loop's state once the frame for the next table is taken. */
  lemma AfterPalloc(w0: World, w: World, w1: World, r: nat, v: bv64, s: nat, l: nat, frame: nat, steps: seq<Step>, n: nat)
    requires Shared(w) && l < 3 && MapLoop(w0, w, r, v, s, l, frame, steps)
    requires ClearBits(w1.bits) + 1 == ClearBits(w.bits) && w1.bits == TakeFirst(w.bits, 1)
    requires Enabled(w, AddressSpaces.Palloc(n)) && w1 == After(w, AddressSpaces.Palloc(n))
    ensures RunIn(w0, r, steps + [AddressSpaces.Palloc(n)], w1) && Spare(w1, n) && n != frame
    ensures s <= l && ClearBits(w1.bits) + (l + 1 - s) == ClearBits(w0.bits) && w1.bits == TakeFirst(w0.bits, l + 1 - s)
    ensures SamePool(w0, w1) && w1.roots == w0.roots && MapHere(w1, r, v) && Spare(w1, frame) && Grown(w0, w1, r, v, s, l)
    ensures Tab(w1.mem, r, PathOf(v, l)).Some? && Tab(w1.mem, r, PathOf(v, l + 1)).None?
  {
    hide *;
    var t := AddressSpaces.Palloc(n);
    LoopFacts(w0, w, r, v, s, l, frame, steps);
    PallocShared(w, t);
    SameRest(w, t);
    SamePoolAfter(w0, w, w1);
    SameMem(w, w1, r, v);
    GrownSame(w0, w, w1, r, v, s, l);
    RunInOne(w, r, t);
    RunInThen(w0, r, steps, w, [t], w1);
    TakeTwice(w0.bits, l - s, 1);
  }

  lemma SamePoolAfter(w0: World, w: World, w1: World)
    requires SamePool(w0, w) && w1.boot == w.boot && w1.start == w.start && |w1.bits| == |w.bits|
    ensures SamePool(w0, w1)
  {
  }

  /** The loop's state once the next table is in its place. */
  lemma AfterPut(w0: World, w1: World, w2: World, r: nat, v: bv64, s: nat, l: nat, frame: nat, steps: seq<Step>, n: nat)
    requires Shared(w1) && s <= l < 3 && RunIn(w0, r, steps, w1) && Spare(w1, n) && n != frame
    requires ClearBits(w1.bits) + (l + 1 - s) == ClearBits(w0.bits) && w1.bits == TakeFirst(w0.bits, l + 1 - s)
    requires SamePool(w0, w1) && w1.roots == w0.roots && MapHere(w1, r, v) && Spare(w1, frame) && Grown(w0, w1, r, v, s, l)
    requires Tab(w1.mem, r, PathOf(v, l)).Some? && Tab(w1.mem, r, PathOf(v, l + 1)).None?
    requires Enabled(w1, PutStep(r, v, l, n)) && w2 == After(w1, PutStep(r, v, l, n))
    ensures MapLoop(w0, w2, r, v, s, l + 1, frame, steps + [PutStep(r, v, l, n)])
  {
    hide *;
    var t := PutStep(r, v, l, n);
    PutStepParts(r, v, l, n);
    PutEffect(w1, r, v, l, n);
    SameRest(w1, t);
    SamePoolAfter(w0, w1, w2);
    SpareAfter(w1, t, frame);
    SamePoolIs(w0, w1);
    GrownStep(w0, w1, w2, r, v, s, l, n);
    HereFacts(w1, r, v);
    DomPathOf(r == w1.boot, v, l + 1);
    DomPathOf(r == w1.boot, v, l + 2);
    PathsLonger(v, l);
    AbsentNext(w1.mem, r, v, l + 1);
    RunInOne(w1, r, t);
    RunInThen(w0, r, steps, w1, [t], w2);
    IsMapLoop(w0, w2, r, v, s, l + 1, frame, steps + [t]);
  }

  lemma PathsLonger(v: bv64, l: nat)
    requires l < 3
    ensures PathOf(v, l + 1) != PathOf(v, l + 2)
  {
  }

  lemma AbsentNext(mem: Mem, root: nat, v: bv64, l: nat)
    requires l < 4 && Tab(mem, root, PathOf(v, l)).None?
    ensures Tab(mem, root, PathOf(v, l + 1)).None?
  {
    StatLevels(mem, root, v, l);
    StatLevels(mem, root, v, l + 1);
  }

  lemma SamePoolIs(w0: World, w: World)
    requires SamePool(w0, w)
    ensures w.boot == w0.boot && w.start == w0.start && |w.bits| == |w0.bits|
  {
  }

  lemma IsMapLoop(w0: World, w: World, r: nat, v: bv64, s: nat, l: nat, frame: nat, steps: seq<Step>)
    requires s <= l <= 3 && RunIn(w0, r, steps, w) && SamePool(w0, w) && w.roots == w0.roots && MapHere(w, r, v) && Spare(w, frame)
    requires Tab(w.mem, r, PathOf(v, l)).Some? && Tab(w.mem, r, PathOf(v, l + 1)).None?
    requires Grown(w0, w, r, v, s, l) && ClearBits(w.bits) + (l - s) == ClearBits(w0.bits) && w.bits == TakeFirst(w0.bits, l - s)
    ensures MapLoop(w0, w, r, v, s, l, frame, steps)
  {
  }

  /** The state after the page's entry is written. */
  lemma AfterEntry(w0: World, w: World, w2: World, r: nat, v: bv64, s: nat, frame: nat, steps: seq<Step>)
    requires Shared(w) && MapLoop(w0, w, r, v, s, 3, frame, steps)
    requires Enabled(w, PutStep(r, v, 3, frame)) && w2 == After(w, PutStep(r, v, 3, frame))
    ensures RunIn(w0, r, steps + [PutStep(r, v, 3, frame)], w2) && SamePool(w0, w2) && w2.roots == w0.roots
    ensures s <= 3 && Grown(w0, w2, r, v, s, 4) && Translate(w2.mem, r, v) == Some(frame)
    ensures ClearBits(w2.bits) + 3 == ClearBits(w0.bits) + s && w2.bits == TakeFirst(w0.bits, 3 - s)
  {
    hide *;
    var t := PutStep(r, v, 3, frame);
    LoopFacts(w0, w, r, v, s, 3, frame, steps);
    PutStepParts(r, v, 3, frame);
    PutEffect(w, r, v, 3, frame);
    SameRest(w, t);
    SamePoolAfter(w0, w, w2);
    SamePoolIs(w0, w);
    GrownStep(w0, w, w2, r, v, s, 3, frame);
    HereFacts(w, r, v);
    TranslateIs(w2.mem, r, v);
    RunInOne(w, r, t);
    RunInThen(w0, r, steps, w, [t], w2);
  }

  lemma FitFacts(s: seq<bool>, i: nat, cnt: nat)
    requires FirstFit(s, i, cnt)
    ensures RunAt(s, i, cnt) && i + cnt <= |s|
  {
  }

  lemma OverrunIsNoRun(s: seq<bool>, cnt: nat)
    ensures ScanOverruns(s, cnt) ==> !HasRun(s, cnt)
  {
  }

  // ---- the loop of alloc_pages ----

  /** The state of the loop: `n` pages are mapped, with their tables, and nothing else happened. */
  ghost predicate RunLoop(w0: World, w: World, r: nat, win: Window, first: nat, n: nat, steps: seq<Step>) {
    && RunIn(w0, r, steps, w) && SamePool(w0, w) && w.roots == w0.roots
    && PagesAdded(w0, w, r, win, first, n) && TablesAdded(w0, w, r, win, first, n)
    && ClearBits(w.bits) + n + |Absent(w0, r, win, first, n)| == ClearBits(w0.bits)
    && w.bits == TakeFirst(w0.bits, n + |Absent(w0, r, win, first, n)|)
  }

  /** What the loop does: as many pages as there are frames for, counting the tables they need, get mapped.  It
      returns the pages iff that is all of them, and lacks a frame for a page iff none is left beside those.  The first
      free frames are taken, one a page and one a missing table, or all if there are too few. */
  ghost predicate Mapping(w0: World, w: World, r: nat, win: Window, cnt: nat, o: PagesOutcome, done: nat)
  {
    && (o.Pages? || o.NoDataFrame? || o.NoTableFrame?)
    && done == Served(w0, r, win, o.first, cnt) && (o.Pages? <==> done == cnt)
    && (o.NoDataFrame? <==> done < cnt && ClearBits(w0.bits) == done + |Absent(w0, r, win, o.first, done)|)
    && PagesAdded(w0, w, r, win, o.first, done)
    && ClearBits(w.bits) == (if o.Pages? then ClearBits(w0.bits) - cnt - |Absent(w0, r, win, o.first, cnt)| else 0)
    && w.bits == TakeFirst(w0.bits, cnt + |Absent(w0, r, win, o.first, cnt)|)
  }

  lemma RunStarts(w: World, r: nat, win: Window, first: nat)
    ensures RunLoop(w, w, r, win, first, 0, [])
  {
    hide *;
    RunInNone(w, r);
    SamePoolRefl(w);
    PagesAddedNone(w, r, win, first);
    TablesAddedNone(w, r, win, first);
    EnoughNone(w, r, win, first);
    TakeNothing(w.bits);
    IsRunLoop(w, w, r, win, first, 0, []);
  }

  lemma TakeNothing(bits: seq<bool>)
    ensures TakeFirst(bits, 0) == bits
  {
  }

  lemma IsRunLoop(w0: World, w: World, r: nat, win: Window, first: nat, n: nat, steps: seq<Step>)
    requires RunIn(w0, r, steps, w) && SamePool(w0, w) && w.roots == w0.roots
    requires PagesAdded(w0, w, r, win, first, n) && TablesAdded(w0, w, r, win, first, n)
    requires ClearBits(w.bits) + n + |Absent(w0, r, win, first, n)| == ClearBits(w0.bits)
    requires w.bits == TakeFirst(w0.bits, n + |Absent(w0, r, win, first, n)|)
    ensures RunLoop(w0, w, r, win, first, n, steps)
  {
  }

  lemma RunLoopFacts(w0: World, w: World, r: nat, win: Window, first: nat, n: nat, steps: seq<Step>)
    requires RunLoop(w0, w, r, win, first, n, steps)
    ensures RunIn(w0, r, steps, w) && SamePool(w0, w) && w.roots == w0.roots && w.boot == w0.boot
    ensures PagesAdded(w0, w, r, win, first, n) && TablesAdded(w0, w, r, win, first, n)
    ensures ClearBits(w.bits) + n + |Absent(w0, r, win, first, n)| == ClearBits(w0.bits)
    ensures w.bits == TakeFirst(w0.bits, n + |Absent(w0, r, win, first, n)|)
    ensures Enough(w0, r, win, first, n)
  {
    hide RunIn, PagesAdded, TablesAdded, ClearBits, Absent;
  }

  lemma IsMapping(w0: World, w: World, r: nat, win: Window, cnt: nat, o: PagesOutcome, done: nat)
    requires o.Pages? || o.NoDataFrame? || o.NoTableFrame?
    requires done == Served(w0, r, win, o.first, cnt) && (o.Pages? <==> done == cnt)
    requires o.NoDataFrame? <==> done < cnt && ClearBits(w0.bits) == done + |Absent(w0, r, win, o.first, done)|
    requires PagesAdded(w0, w, r, win, o.first, done)
    requires ClearBits(w.bits) == if o.Pages? then ClearBits(w0.bits) - cnt - |Absent(w0, r, win, o.first, cnt)| else 0
    requires w.bits == TakeFirst(w0.bits, cnt + |Absent(w0, r, win, o.first, cnt)|)
    ensures Mapping(w0, w, r, win, cnt, o, done)
  {
    hide Served, ClearBits, Absent, PagesAdded, TakeFirst;
  }

  lemma AllMapped(w0: World, w: World, r: nat, win: Window, first: nat, cnt: nat, steps: seq<Step>)
    requires RunLoop(w0, w, r, win, first, cnt, steps)
    ensures RunIn(w0, r, steps, w) && SamePool(w0, w) && w.roots == w0.roots && Mapping(w0, w, r, win, cnt, Pages(first), cnt)
  {
    hide *;
    RunLoopFacts(w0, w, r, win, first, cnt, steps);
    ServedIs(w0, r, win, first, cnt, cnt);
    IsMapping(w0, w, r, win, cnt, Pages(first), cnt);
  }

  lemma DataFrameMissing(w0: World, w: World, r: nat, win: Window, first: nat, n: nat, cnt: nat, steps: seq<Step>)
    requires RunLoop(w0, w, r, win, first, n, steps) && n < cnt && ClearBits(w.bits) == 0
    ensures Mapping(w0, w, r, win, cnt, NoDataFrame(first), n)
  {
    hide *;
    RunLoopFacts(w0, w, r, win, first, n, steps);
    AbsentGrows(w0, r, win, first, n);
    AbsentMore(w0, r, win, first, n, cnt);
    TakeAll(w0.bits, n + |Absent(w0, r, win, first, n)|, cnt + |Absent(w0, r, win, first, cnt)|);
    TooFew(w0, r, win, first, n);
    ServedIs(w0, r, win, first, cnt, n);
    IsMapping(w0, w, r, win, cnt, NoDataFrame(first), n);
  }

  lemma SamePages(w0: World, w: World, w': World, r: nat, win: Window, first: nat, n: nat)
    requires PagesAdded(w0, w, r, win, first, n) && first + n < 2048 && WinOk(w0, r, win) && w.boot == w0.boot
    requires PagesBut(w, w', r, HeapPath(win, first + n), None) && !HeapMapped(w, r, win, first + n)
    ensures PagesAdded(w0, w', r, win, first, n)
  {
    hide Tab, Dom, HeapPath, Fresh, WinOk;
    forall q | Dom(r == w.boot, q) && |q| == 4
      ensures Tab(w'.mem, r, q) == Tab(w.mem, r, q)
    {
    }
    forall k | first <= k < first + n
      ensures Tab(w'.mem, r, HeapPath(win, k)) == Tab(w.mem, r, HeapPath(win, k))
    {
      HeapPathDom(w0, r, win, k);
    }
    hide PagesBut, RestKept;
    assert RestKept(w0, w', r, win, first, n) by { RestSame(w0, w, w', r, win, first, n); }
    forall k | first <= k < first + n
      ensures HeapMapped(w', r, win, k) && Fresh(w0, Tab(w'.mem, r, HeapPath(win, k)).value)
    {
      assert HeapMapped(w, r, win, k);
    }
  }

  lemma RestSame(w0: World, w: World, w': World, r: nat, win: Window, first: nat, n: nat)
    requires RestKept(w0, w, r, win, first, n) && w.boot == w0.boot
    requires forall q :: Dom(r == w.boot, q) && |q| == 4 ==> Tab(w'.mem, r, q) == Tab(w.mem, r, q)
    ensures RestKept(w0, w', r, win, first, n)
  {
    hide Tab, Dom, HeapPath;
  }

  lemma TableFrameMissing(w0: World, w: World, w1: World, w2: World, r: nat, win: Window, first: nat, n: nat, cnt: nat, steps: seq<Step>)
    requires RunLoop(w0, w, r, win, first, n, steps) && n < cnt && WinOk(w0, r, win) && first + n < 2048
    requires Translate(w.mem, r, HeapAddr(win, first + n)).None? && w1.mem == w.mem && w1.boot == w.boot
    requires ClearBits(w1.bits) + 1 == ClearBits(w.bits) && w1.bits == TakeFirst(w.bits, 1)
    requires ClearBits(w1.bits) + Stat(w1.mem, r, HeapAddr(win, first + n)) < 3 && ClearBits(w2.bits) == 0
    requires w2.bits == TakeFirst(w1.bits, 3 - Stat(w1.mem, r, HeapAddr(win, first + n)))
    requires PagesBut(w1, w2, r, PathOf(HeapAddr(win, first + n), 4), None)
    ensures Mapping(w0, w2, r, win, cnt, NoTableFrame(first), n)
  {
    hide *;
    var v := HeapAddr(win, first + n);
    RunLoopFacts(w0, w, r, win, first, n, steps);
    HeapPathIsPath(win, first + n);
    TranslateIs(w.mem, r, v);
    NotMappedIs(w, r, win, first + n);
    SameBut(w, w1, w2, r, HeapPath(win, first + n), None);
    SamePages(w0, w, w2, r, win, first, n);
    AbsentStep(w0, w, r, win, first, n);
    TooFew(w0, r, win, first, n);
    ServedIs(w0, r, win, first, cnt, n);
    TakenFor(w0, w, w1, w2, r, win, first, n);
    AbsentMore(w0, r, win, first, n + 1, cnt);
    TakeAll(w0.bits, n + 1 + |Absent(w0, r, win, first, n + 1)|, cnt + |Absent(w0, r, win, first, cnt)|);
    IsShort(w0, w2, r, win, first, cnt, n);
  }

  /** The frames of one page more. */
  lemma TakenFor(w0: World, w: World, w1: World, w2: World, r: nat, win: Window, first: nat, n: nat)
    requires w.bits == TakeFirst(w0.bits, n + |Absent(w0, r, win, first, n)|) && w1.bits == TakeFirst(w.bits, 1)
    requires w1.mem == w.mem && Stat(w.mem, r, HeapAddr(win, first + n)) <= 3
    requires w2.bits == TakeFirst(w1.bits, 3 - Stat(w1.mem, r, HeapAddr(win, first + n)))
    requires |Absent(w0, r, win, first, n + 1)| == |Absent(w0, r, win, first, n)| + 3 - Stat(w.mem, r, HeapAddr(win, first + n))
    ensures w2.bits == TakeFirst(w0.bits, n + 1 + |Absent(w0, r, win, first, n + 1)|)
  {
    hide Absent, Stat, HeapAddr, TakeFirst;
    var a := n + |Absent(w0, r, win, first, n)|;
    TakeTwice(w0.bits, a, 1);
    TakeTwice(w0.bits, a + 1, 3 - Stat(w.mem, r, HeapAddr(win, first + n)));
  }

  lemma NotMappedIs(w: World, r: nat, win: Window, k: nat)
    ensures HeapMapped(w, r, win, k) <==> Tab(w.mem, r, HeapPath(win, k)).Some?
  {
  }

  lemma SameBut(w: World, w1: World, w2: World, r: nat, at: Path, to: Option<nat>)
    requires PagesBut(w1, w2, r, at, to) && w1.mem == w.mem && w1.boot == w.boot
    ensures PagesBut(w, w2, r, at, to)
  {
    hide Tab, Dom;
  }

  lemma TooFew(w0: World, r: nat, win: Window, first: nat, n: nat)
    ensures ClearBits(w0.bits) < n + 1 + |Absent(w0, r, win, first, n + 1)| ==> !Enough(w0, r, win, first, n + 1)
  {
    hide Absent, ClearBits;
  }

  lemma IsShort(w0: World, w: World, r: nat, win: Window, first: nat, cnt: nat, n: nat)
    requires n < cnt && n == Served(w0, r, win, first, cnt) && PagesAdded(w0, w, r, win, first, n) && ClearBits(w.bits) == 0
    requires w.bits == TakeFirst(w0.bits, cnt + |Absent(w0, r, win, first, cnt)|)
    requires ClearBits(w0.bits) != n + |Absent(w0, r, win, first, n)|
    ensures Mapping(w0, w, r, win, cnt, NoTableFrame(first), n)
  {
    hide Absent, ClearBits, PagesAdded, Served;
  }

  lemma SamePoolThen(w0: World, w: World, w1: World, w2: World)
    requires SamePool(w0, w) && w1.boot == w.boot && w1.start == w.start && |w1.bits| == |w.bits| && SamePool(w1, w2)
    ensures SamePool(w0, w2)
  {
  }

  lemma RunInIs(w: World, r: nat, steps: seq<Step>, w': World)
    requires RunIn(w, r, steps, w')
    ensures Run(w, steps, w')
  {
    hide Run;
  }

  /** Frames are only ever taken. */
  lemma {:induction false} RunTakes(w: World, steps: seq<Step>, w': World, f: nat)
    requires Run(w, steps, w') && Fresh(w', f)
    ensures Fresh(w, f)
    decreases |steps|
  {
    if steps != [] {
      RunTakes(After(w, steps[0]), steps[1..], w', f);
      StepTakes(w, steps[0], f);
    }
  }

  lemma StepTakes(w: World, t: Step, f: nat)
    requires Enabled(w, t) && Fresh(After(w, t), f)
    ensures Fresh(w, f)
  {
    SameRest(w, t);
    hide Spare, Tab, NoTable;
  }

  lemma OnePageMore(w0: World, w: World, w1: World, w2: World, r: nat, win: Window, first: nat, n: nat, steps0: seq<Step>, steps: seq<Step>, f: nat)
    requires RunLoop(w0, w, r, win, first, n, steps0) && WinOk(w0, r, win) && first + n < 2048
    requires Translate(w.mem, r, HeapAddr(win, first + n)).None? && w1.mem == w.mem && w1.boot == w.boot
    requires ClearBits(w1.bits) + 1 == ClearBits(w.bits) && w1.bits == TakeFirst(w.bits, 1)
    requires Fresh(w, f) && RunIn(w0, r, steps, w2) && SamePool(w0, w2) && w2.roots == w0.roots
    requires Grown(w1, w2, r, HeapAddr(win, first + n), Stat(w1.mem, r, HeapAddr(win, first + n)), 4)
    requires Translate(w2.mem, r, HeapAddr(win, first + n)) == Some(f)
    requires ClearBits(w2.bits) + 3 == ClearBits(w1.bits) + Stat(w1.mem, r, HeapAddr(win, first + n))
    requires Stat(w1.mem, r, HeapAddr(win, first + n)) <= 3 && w2.bits == TakeFirst(w1.bits, 3 - Stat(w1.mem, r, HeapAddr(win, first + n)))
    ensures RunLoop(w0, w2, r, win, first, n + 1, steps)
  {
    hide *;
    var v := HeapAddr(win, first + n);
    var s := Stat(w.mem, r, v);
    RunLoopFacts(w0, w, r, win, first, n, steps0);
    RunInIs(w0, r, steps0, w);
    RunTakes(w0, steps0, w, f);
    HeapPathIsPath(win, first + n);
    TranslateIs(w2.mem, r, v);
    StatPresent(w.mem, r, v);
    GrownFrom(w, w1, w2, r, v, s);
    PageGrown(w, w2, r, v, s, f);
    PagesAddedStep(w0, w, w2, r, win, first, n, f);
    AbsentStep(w0, w, r, win, first, n);
    TablesAddedStep(w0, w, w2, r, win, first, n);
    TakenFor(w0, w, w1, w2, r, win, first, n);
    IsRunLoop(w0, w2, r, win, first, n + 1, steps);
  }

  lemma GrownFrom(w: World, w1: World, w2: World, r: nat, v: bv64, s: nat)
    requires Grown(w1, w2, r, v, s, 4) && w1.mem == w.mem && w1.boot == w.boot
    ensures Grown(w, w2, r, v, s, 4)
  {
    hide Tab, Dom, PathOf;
  }

  lemma PageGrown(w: World, w2: World, r: nat, v: bv64, s: nat, f: nat)
    requires s <= 3 && Grown(w, w2, r, v, s, 4) && Tab(w2.mem, r, PathOf(v, 4)) == Some(f)
    ensures PagesBut(w, w2, r, PathOf(v, 4), Some(f))
  {
    hide Tab, Dom, PathOf;
  }

  lemma WinThere(w0: World, w: World, r: nat, win: Window)
    requires WinOk(w0, r, win) && w.boot == w0.boot && w.roots == w0.roots
    ensures WinOk(w, r, win)
  {
  }

  /** A page of the run is still unmapped when its turn comes. */
  lemma NotMappedYet(w0: World, w: World, r: nat, win: Window, vbits: seq<bool>, first: nat, cnt: nat, i: nat)
    requires HeapOk(w0, r, win, vbits) && RunAt(vbits, first, cnt) && i < cnt && WinOk(w0, r, win)
    requires PagesAdded(w0, w, r, win, first, i)
    ensures first + i < 2048 && Translate(w.mem, r, HeapAddr(win, first + i)).None?
  {
    OtherHeapPage(w0, w, r, win, first, i, first + i);
    HeapPathIsPath(win, first + i);
    hide Tab, HeapPath, Dom, RestKept, WinOk;
    assert !vbits[first + i];
    assert !HeapMapped(w0, r, win, first + i);
  }

  /** Pages of a pool can be mapped where the pool is used. */
  lemma CanMap(w: World, r: nat, win: Window, k: nat)
    requires Shared(w) && w.Space(r) && KernelTop(w) && WinOk(w, r, win) && k < 2048
    ensures MapHere(w, r, HeapAddr(win, k))
  {
    hide Tab, Dom, HeapPath, Idx, HeapAddr, PathOf, SelfMapped, Inj, AllTaken, TwoSpaces, Word;
    var v := HeapAddr(win, k);
    HeapPathDom(w, r, win, k);
    HeapPathIsPath(win, k);
    HeapIndices(win, k);
    PathTop(v, 1);
    assert PathOf(v, 1) == [Idx(0, v)];
    TabStep(w.mem, r, [], Idx(0, v));
    RootHere(w, r);
    if win.Kernel? {
      assert OneSpace(w, r);
      assert Next(w.mem, r, 256) == Next(w.mem, w.boot, 256);
      assert [] + [Idx(0, v)] == [256];
    }
  }

  lemma HeapAfterMapping(w0: World, w: World, r: nat, win: Window, vbits: seq<bool>, cnt: nat, o: PagesOutcome, done: nat)
    requires Mapping(w0, w, r, win, cnt, o, done) && HeapOk(w0, r, win, vbits) && RunAt(vbits, o.first, cnt) && WinOk(w0, r, win) && SamePool(w0, w)
    ensures HeapOk(w, r, win, Filled(vbits, o.first, cnt, true))
    ensures BitsMatch(w0, r, win, vbits) ==> (BitsMatch(w, r, win, Filled(vbits, o.first, cnt, true)) <==> o.Pages?)
  {
    hide Served, Absent, ClearBits, PagesAdded, HeapOk, BitsMatch, Filled;
    HeapAfterAlloc(w0, w, r, win, vbits, o.first, cnt, done);
  }

  /** How one turn of get_pages ends: a page, no frame for it, and two failed assertions of page_map. */
  datatype PageOutcome = Got | NoData | NoTables | Clash

  /** The page is mapped to the first frame that was free, and no other page of the space changed. */
  ghost predicate GotPage(w: World, w': World, r: nat, v: bv64) {
    exists f: nat :: GotFrame(w, w', r, v, f)
  }

  ghost predicate GotFrame(w: World, w': World, r: nat, v: bv64, f: nat) {
    Fresh(w, f) && (forall g: nat :: g < f ==> !Fresh(w, g)) && Tab(w.mem, r, PathOf(v, 4)).None? && PagesBut(w, w', r, PathOf(v, 4), Some(f))
  }

  lemma IsGotPage(w: World, w': World, r: nat, v: bv64, f: nat)
    requires Fresh(w, f) && (forall g: nat :: g < f ==> !Fresh(w, g)) && Tab(w.mem, r, PathOf(v, 4)).None? && PagesBut(w, w', r, PathOf(v, 4), Some(f))
    ensures GotPage(w, w', r, v)
  {
    hide Fresh, Tab, PathOf, PagesBut;
    assert GotFrame(w, w', r, v, f);
  }

  // ---- free_pages ----

  /** The entry of a page is cleared, as a step of the world. */
  function ClearStep(r: nat, v: bv64): Step {
    Unmap(r, PathOf(v, 3), Idx(3, v))
  }

  predicate SameButMem(w: World, w': World) {
    w' == w.(mem := w'.mem)
  }

  lemma SameButMemRefl(w: World)
    ensures SameButMem(w, w)
  {
  }

  lemma SameButMemThen(w: World, w1: World, w2: World)
    requires SameButMem(w, w1) && SameButMem(w1, w2)
    ensures SameButMem(w, w2) && w1.boot == w.boot
  {
  }

  lemma SameButMemIs(w: World, w': World)
    requires w' == w.(mem := w'.mem)
    ensures SameButMem(w, w')
  {
  }

  lemma SamePoolBits(w: World, w': World)
    requires SameButMem(w, w')
    ensures SamePool(w, w') && w'.bits == w.bits && w'.roots == w.roots
  {
  }

  lemma WinKept(w: World, w': World, r: nat, win: Window)
    requires SameButMem(w, w') && WinOk(w, r, win)
    ensures WinOk(w', r, win)
  {
  }

  lemma MappedIsSet(w: World, r: nat, win: Window, vbits: seq<bool>, first: nat, cnt: nat)
    requires HeapOk(w, r, win, vbits) && first + cnt <= |vbits|
    requires forall k :: first <= k < first + cnt ==> HeapMapped(w, r, win, k)
    ensures forall k :: first <= k < first + cnt ==> vbits[k]
  {
    hide Tab, HeapPath;
  }

  lemma StillMapped(w0: World, w: World, r: nat, win: Window, vbits: seq<bool>, first: nat, cnt: nat, i: nat)
    requires HeapOk(w0, r, win, vbits) && first + cnt <= |vbits| && i < cnt && WinOk(w0, r, win) && SameButMem(w0, w)
    requires forall k :: first <= k < first + cnt ==> HeapMapped(w0, r, win, k)
    requires PagesRemoved(w0, w, r, win, first, i)
    ensures first + i < 2048 && HeapMapped(w, r, win, first + i) && FromPool(w, Tab(w.mem, r, HeapPath(win, first + i)).value)
    ensures w.boot == w0.boot
  {
    OtherHeapPage(w0, w, r, win, first, i, first + i);
    hide Tab, HeapPath, Dom, RestKept, WinOk;
    assert HeapMapped(w0, r, win, first + i);
  }

  lemma PageOffset(v: bv64)
    ensures NatOf(v & 0xfff) < 4096
  {
  }

  lemma PageThere(w: World, r: nat, win: Window, k: nat)
    requires Shared(w) && w.Space(r) && WinOk(w, r, win) && k < 2048
    requires HeapMapped(w, r, win, k) && FromPool(w, Tab(w.mem, r, HeapPath(win, k)).value)
    ensures HeapPath(win, k) == PathOf(HeapAddr(win, k), 4) && Dom(r == w.boot, HeapPath(win, k))
    ensures Translate(w.mem, r, HeapAddr(win, k)) == Tab(w.mem, r, HeapPath(win, k)) && Translate(w.mem, r, HeapAddr(win, k)).Some?
    ensures var f := Translate(w.mem, r, HeapAddr(win, k)).value; w.start <= f < w.start + |w.bits| && w.bits[f - w.start]
  {
    HeapPathDom(w, r, win, k);
    HeapPathIsPath(win, k);
    SpaceFacts(w, r);
    hide Tab, HeapPath, Dom, PathOf, Shared;
    assert AllTaken(w, r);
  }

  /** Clearing a present page's entry keeps all spaces in order and removes that translation only. */
  lemma ClearEffectHere(w: World, r: nat, v: bv64)
    requires Shared(w) && w.Space(r) && Dom(r == w.boot, PathOf(v, 4)) && Translate(w.mem, r, v).Some?
    ensures Enabled(w, ClearStep(r, v)) && Tab(w.mem, r, PathOf(v, 3)).Some?
    ensures var f := Tab(w.mem, r, PathOf(v, 3)).value;
      && Word(w.mem, f, Idx(3, v)) % 2 == 1
      && After(w, ClearStep(r, v)) == w.(mem := Write(w.mem, f, Idx(3, v), Word(w.mem, f, Idx(3, v)) - 1))
    ensures PagesBut(w, After(w, ClearStep(r, v)), r, PathOf(v, 4), None)
  {
    hide *;
    TranslateIs(w.mem, r, v);
    PresentAbove(w.mem, r, v);
    PathUnfold(v, 3);
    ClearEnabled(w, r, v);
    var t := ClearStep(r, v);
    EnabledIndex(w, t);
    ClearStepIs(r, v);
    SameRest(w, t);
    ClearMem(w, t);
    UnmapIn(w, t, r);
    ClearedPages(w, t);
  }

  lemma ClearEnabled(w: World, r: nat, v: bv64)
    requires w.Space(r) && Dom(r == w.boot, PathOf(v, 4)) && Tab(w.mem, r, PathOf(v, 4)).Some? && PathOf(v, 4) == PathOf(v, 3) + [Idx(3, v)]
    ensures Enabled(w, ClearStep(r, v))
  {
    hide Tab, Dom, Idx, PathOf;
  }

  lemma ClearStepIs(r: nat, v: bv64)
    ensures var t := ClearStep(r, v); t.Unmap? && t.r == r && t.p == PathOf(v, 3) && t.i == Idx(3, v)
  {
  }

  lemma ClearMem(w: World, t: Step)
    requires Enabled(w, t) && t.Unmap? && t.i < 512 && Tab(w.mem, t.r, t.p).Some? && Word(w.mem, Tab(w.mem, t.r, t.p).value, t.i) % 2 == 1
    ensures var f := Tab(w.mem, t.r, t.p).value; After(w, t) == w.(mem := Write(w.mem, f, t.i, Word(w.mem, f, t.i) - 1))
  {
    hide Tab, Word, Enabled, Write;
  }

  lemma ClearedPages(w: World, t: Step)
    requires Enabled(w, t) && t.Unmap? && UnmapSeen(w, t, t.r)
    ensures PagesBut(w, After(w, t), t.r, t.p + [t.i], None)
  {
    hide Tab, Dom, After, Enabled;
  }

  // ---- create_pml4 ----

  /** The space `n` is new, its PML4 is the page at `at`, and no page of the kernel half differs from what it is in the
      space it was made from. */
  ghost predicate NewSpace(w: World, w': World, r: nat, at: Path, n: nat) {
    && Fresh(w, n) && !w.Space(n) && w'.roots == w.roots + {n}
    && Tab(w'.mem, r, at) == Some(n) && Tab(w'.mem, n, at) == Some(n)
    && (forall p :: Dom(false, p) && p != [] ==> Tab(w'.mem, n, p) == if p[0] >= 256 then Tab(w'.mem, r, p) else None)
  }

  lemma HeapPathLen(win: Window, k: nat)
    ensures |HeapPath(win, k)| == 4
  {
  }

  lemma KernelWin(w: World, r: nat)
    requires w.boot !in w.roots
    ensures WinOk(w, r, Kernel)
  {
  }

  lemma FirstInPool(w: World, r: nat, vbits: seq<bool>, first: nat)
    requires HeapOk(w, r, Kernel, vbits) && FirstFit(vbits, first, 1) && w.boot !in w.roots
    ensures first < 2048 && HeapAddr(Kernel, first) & 0xfff == 0 && HeapPath(Kernel, first) == PathOf(HeapAddr(Kernel, first), 4)
    ensures Dom(r == w.boot, HeapPath(Kernel, first)) && Dom(false, HeapPath(Kernel, first)) && KernelPath(HeapPath(Kernel, first))
  {
    HeapIndices(Kernel, first);
    HeapPathIs(Kernel, first);
    HeapPathDom(w, r, Kernel, first);
    hide HeapPath, HeapAddr, Idx, Dom;
  }

  lemma PoolOf(w: World, w': World)
    requires SamePool(w, w')
    ensures w'.boot == w.boot && w'.start == w.start && |w'.bits| == |w.bits|
  {
  }

  lemma OnlyMapped(w: World, w1: World, r: nat, first: nat, done: nat, o: PagesOutcome)
    requires Mapping(w, w1, r, Kernel, 1, o, done) && o == Pages(first)
    ensures Translate(w1.mem, r, HeapAddr(Kernel, first)).Some? && Translate(w1.mem, r, HeapAddr(Kernel, first)) == Tab(w1.mem, r, HeapPath(Kernel, first))
    ensures Fresh(w, Translate(w1.mem, r, HeapAddr(Kernel, first)).value) && done == 1
  {
    HeapPathIsPath(Kernel, first);
    hide Tab, HeapPath, Fresh, RestKept, Served, Absent, ClearBits, PathOf;
    assert HeapMapped(w1, r, Kernel, first);
  }

  /** The frame of a page just mapped is no table and no PML4. */
  lemma FrameIsNew(w: World, w1: World, r: nat, at: Path, n: nat)
    requires Shared(w) && Shared(w1) && w1.boot == w.boot && w1.roots == w.roots && w1.Space(r)
    requires Fresh(w, n) && Dom(r == w1.boot, at) && |at| == 4 && Tab(w1.mem, r, at) == Some(n)
    ensures NoTable(w1, n) && Enabled(w1, Create(r, n)) && !w.Space(n)
  {
    hide Tab, Dom, Shared, Fresh, Taken;
    forall s | w1.Space(s) ensures !Reached(w1.mem, s, s == w1.boot, 3, n) {
      NotARoot(w, s, n);
      PageIsTable(w1, r, at, s);
    }
    SpaceFacts(w1, r);
    assert AllTaken(w1, r);
    if w.Space(n) { NotARoot(w, n, n); }
  }

  lemma NotARoot(w: World, s: nat, n: nat)
    requires Shared(w) && w.Space(s) && Fresh(w, n)
    ensures s != n
  {
    SpaceFacts(w, s);
    RootHere(w, s);
    hide Tab, Dom, Shared;
    assert AllTaken(w, s);
  }

  lemma NotTheRoot(w: World, r: nat, n: nat)
    requires w.Space(r) && NoTable(w, n)
    ensures r != n && !Reached(w.mem, r, r == w.boot, 3, n)
  {
    RootHere(w, r);
    assert !Reached(w.mem, r, r == w.boot, 3, n);
    hide Tab, Dom;
  }

  lemma SelfAddress()
    ensures Fu(0, 0) == 0xfffffffffffff000
  {
  }

  lemma LastWord(va: bv64)
    requires va & 0xfff == 0
    ensures PathOf(va + 0xff8, 4) == PathOf(va, 4) && WordOf(va + 0xff8) == 511
  {
    LastWordBits(va);
    hide Pml4eIdx, PdpteIdx, PdeIdx, PteIdx, Offset;
    forall l | 0 <= l < 4 ensures Idx(l, va + 0xff8) == Idx(l, va) { }
    hide Idx;
    assert NatOf(511) == 511;
    SamePath(va + 0xff8, va, 4);
  }

  lemma LastWordBits(va: bv64)
    requires va & 0xfff == 0
    ensures Pml4eIdx(va + 0xff8) == Pml4eIdx(va) && PdpteIdx(va + 0xff8) == PdpteIdx(va)
    ensures PdeIdx(va + 0xff8) == PdeIdx(va) && PteIdx(va + 0xff8) == PteIdx(va) && Offset(va + 0xff8) == 511
  {
  }

  lemma {:induction false} SamePath(a: bv64, b: bv64, l: nat)
    requires l <= 4 && forall k :: 0 <= k < 4 ==> Idx(k, a) == Idx(k, b)
    ensures PathOf(a, l) == PathOf(b, l)
  {
    hide Idx;
    if l > 0 { SamePath(a, b, l - 1); }
  }

  lemma ZeroOffset(va: bv64)
    requires va & 0xfff == 0
    ensures NatOf(va & 0xfff) == 0
  {
  }

  /** Writing a page that is no table changes no translation of the space that is loaded. */
  lemma StillThere(w: World, r: nat, n: nat, va: bv64, page: seq<nat>)
    requires Shared(w) && w.Space(r) && !Reached(w.mem, r, r == w.boot, 3, n) && r != n && Dom(r == w.boot, PathOf(va, 4))
    ensures Translate(w.mem[n := page], r, va) == Translate(w.mem, r, va) && SelfMapped(w.mem[n := page], r)
  {
    hide *;
    SpaceFacts(w, r);
    FrameElsewhere(w.mem, n, page, r, r == w.boot, PathOf(va, 4));
    TranslateIs(w.mem, r, va);
    TranslateIs(w.mem[n := page], r, va);
    SelfElsewhere(w.mem, r, n, page);
  }

  lemma SelfElsewhere(mem: Mem, r: nat, n: nat, page: seq<nat>)
    requires SelfMapped(mem, r) && r != n
    ensures SelfMapped(mem[n := page], r)
  {
  }

  lemma ZeroedIs(m: Mem, n: nat)
    ensures n in Zeroed(m, n) && Zeroed(m, n) == m[n := Zeroed(m, n)[n]]
  {
  }

  lemma CopiedIs(m: Mem, m1: Mem, n: nat, page: seq<nat>)
    requires n in m1 && m1 == m[n := m1[n]]
    ensures m1[n := page] == m[n := page]
  {
  }

  lemma Pml4Is(m: Mem, m1: Mem, m2: Mem, r: nat, n: nat)
    requires m1 == Zeroed(m, n) && m2 == m1[n := Page(m1, n)[..256] + Page(m1, r)[256..]] && n != r
    ensures Write(m2, n, 511, 4096 * n + 7) == m[n := NewPml4(m, r, n)]
  {
    var a, b := Page(m2, n)[511 := 4096 * n + 7], NewPml4(m, r, n);
    forall i | 0 <= i < 512 ensures a[i] == b[i] {
      assert Word(m1, n, i) == 0 && Word(m1, r, i) == Word(m, r, i);
      assert Word(m2, n, i) == if i < 256 then 0 else Word(m, r, i);
    }
    assert a == b;
  }

  lemma IsNewSpace(w: World, w1: World, w2: World, r: nat, at: Path, n: nat)
    requires Shared(w1) && Enabled(w1, Create(r, n)) && w2 == After(w1, Create(r, n)) && w1.roots == w.roots
    requires Fresh(w, n) && !w.Space(n) && Tab(w1.mem, r, at) == Some(n) && Dom(false, at) && KernelPath(at) && w1.Space(r)
    ensures NewSpace(w, w2, r, at, n)
  {
    hide *;
    var t := Create(r, n);
    CreateIs(r, n);
    SameRest(w1, t);
    CreateKeeps(w1, t, r);
    forall p | Dom(false, p) && p != [] ensures Tab(w2.mem, n, p) == if p[0] >= 256 then Tab(w2.mem, r, p) else None {
      NewTab(w1, t, p);
      KernelPathIs(p);
      if p[0] >= 256 { KernelDom(r == w1.boot, p); }
    }
    KernelPathIs(at);
    KernelDom(r == w1.boot, at);
    IsNewSpaceAll(w, w2, r, at, n);
  }

  lemma CreateIs(r: nat, n: nat)
    ensures var t := Create(r, n); t.Create? && t.r == r && t.n == n
  {
  }

  lemma IsNewSpaceAll(w: World, w': World, r: nat, at: Path, n: nat)
    requires Fresh(w, n) && !w.Space(n) && w'.roots == w.roots + {n} && Tab(w'.mem, r, at) == Some(n) && at != [] && at[0] >= 256 && Dom(false, at)
    requires forall p :: Dom(false, p) && p != [] ==> Tab(w'.mem, n, p) == if p[0] >= 256 then Tab(w'.mem, r, p) else None
    ensures NewSpace(w, w', r, at, n)
  {
    hide Tab, Dom, Fresh;
  }

  /** The space r is the same in both worlds. */
  ghost predicate SameSpace(w: World, w': World, r: nat) {
    && w'.boot == w.boot && w'.start == w.start && w'.bits == w.bits
    && forall q :: Dom(r == w.boot, q) ==> Tab(w'.mem, r, q) == Tab(w.mem, r, q)
  }

  lemma CreatedSame(w: World, r: nat, n: nat)
    requires Shared(w) && Enabled(w, Create(r, n)) && w.Space(r)
    ensures SameSpace(w, After(w, Create(r, n)), r)
  {
    hide Tab, Dom, Shared, Enabled, After, Word, Fewer;
    SameRest(w, Create(r, n));
    CreateKeeps(w, Create(r, n), r);
  }

  lemma HeapSame(w: World, w': World, r: nat, win: Window, vbits: seq<bool>)
    requires SameSpace(w, w', r) && WinOk(w, r, win) && HeapOk(w, r, win, vbits)
    ensures HeapOk(w', r, win, vbits) && (BitsMatch(w', r, win, vbits) <==> BitsMatch(w, r, win, vbits))
  {
    hide Tab, Dom, HeapPath, WinOk;
    forall k | 0 <= k < |vbits| ensures Tab(w'.mem, r, HeapPath(win, k)) == Tab(w.mem, r, HeapPath(win, k)) {
      HeapPathDom(w, r, win, k);
    }
    hide SameSpace;
    assert w'.start == w.start && w'.bits == w.bits by { SameSpaceIs(w, w', r); }
  }

  lemma SameSpaceIs(w: World, w': World, r: nat)
    requires SameSpace(w, w', r)
    ensures w'.boot == w.boot && w'.start == w.start && w'.bits == w.bits
  {
  }

  lemma MappingSame(w0: World, w: World, w': World, r: nat, win: Window, cnt: nat, o: PagesOutcome, done: nat)
    requires Mapping(w0, w, r, win, cnt, o, done) && SameSpace(w, w', r) && WinOk(w0, r, win) && w.boot == w0.boot && o.first + done <= 2048
    ensures Mapping(w0, w', r, win, cnt, o, done)
  {
    hide Tab, Dom, HeapPath, WinOk, Served, Absent, ClearBits, Fresh;
    forall k | o.first <= k < o.first + done
      ensures HeapMapped(w', r, win, k) && Fresh(w0, Tab(w'.mem, r, HeapPath(win, k)).value)
    {
      HeapPathDom(w0, r, win, k);
      assert HeapMapped(w, r, win, k);
    }
  }

  // ---- the kernel's pool in all spaces ----

  /** The kernel's pool is in order in one space iff it is in all. */
  lemma HeapEverywhere(w: World, r: nat, s: nat, vbits: seq<bool>)
    requires Shared(w) && w.Space(r) && w.Space(s) && |vbits| <= 2048
    ensures HeapOk(w, r, Kernel, vbits) <==> HeapOk(w, s, Kernel, vbits)
    ensures BitsMatch(w, r, Kernel, vbits) <==> BitsMatch(w, s, Kernel, vbits)
  {
    hide Tab, HeapPath, Shared;
    forall k | 0 <= k < |vbits| ensures Tab(w.mem, r, HeapPath(Kernel, k)) == Tab(w.mem, s, HeapPath(Kernel, k)) {
      KernelPage(w, r, k);
      KernelPage(w, s, k);
    }
  }

  lemma KernelPage(w: World, r: nat, k: nat)
    requires Shared(w) && w.Space(r) && k < 2048
    ensures Tab(w.mem, r, HeapPath(Kernel, k)) == Tab(w.mem, w.boot, HeapPath(Kernel, k))
  {
    HeapPathIs(Kernel, k);
    hide Tab, HeapPath, Shared;
    KernelTab(w, r, HeapPath(Kernel, k));
  }

  /** Mapping a page of the low half leaves the kernel's pool alone. */
  lemma UserPageApart(w: World, w': World, r: nat, v: bv64, to: Option<nat>, vbits: seq<bool>)
    requires PagesBut(w, w', r, PathOf(v, 4), to) && Idx(0, v) < 256 && SamePool(w, w') && w.boot !in w.roots && HeapOk(w, r, Kernel, vbits)
    ensures HeapOk(w', r, Kernel, vbits) && (BitsMatch(w', r, Kernel, vbits) <==> BitsMatch(w, r, Kernel, vbits))
  {
    PathTop(v, 4);
    hide Tab, Dom, HeapPath, PathOf;
    forall k | 0 <= k < |vbits| ensures Tab(w'.mem, r, HeapPath(Kernel, k)) == Tab(w.mem, r, HeapPath(Kernel, k)) {
      HeapPathIs(Kernel, k);
      HeapPathDom(w, r, Kernel, k);
    }
  }

  // ---- what alloc_pages can do ----

  /** A run of clear bits and frames for its pages and their tables. */
  ghost predicate Fits(w: World, r: nat, win: Window, bits: seq<bool>, cnt: nat) {
    exists first: nat :: FirstFit(bits, first, cnt) && Enough(w, r, win, first, cnt)
  }

  /** A run, but the frames run out at a page, so alloc_pages returns NULL. */
  ghost predicate PageShort(w: World, r: nat, win: Window, bits: seq<bool>, cnt: nat) {
    exists first: nat :: FirstFit(bits, first, cnt) && ShortAt(w, r, win, first, cnt)
  }

  ghost predicate ShortAt(w: World, r: nat, win: Window, first: nat, cnt: nat) {
    var done := Served(w, r, win, first, cnt);
    done < cnt && ClearBits(w.bits) == done + |Absent(w, r, win, first, done)|
  }

  /** A run, but the frames run out at a table, so an assertion of page_map fails. */
  ghost predicate TableShort(w: World, r: nat, win: Window, bits: seq<bool>, cnt: nat) {
    HasRun(bits, cnt) && !Fits(w, r, win, bits, cnt) && !PageShort(w, r, win, bits, cnt)
  }

  lemma {:induction false} ServedAll(w: World, r: nat, win: Window, first: nat, cnt: nat)
    ensures Served(w, r, win, first, cnt) == cnt <==> Enough(w, r, win, first, cnt)
  {
    EnoughNone(w, r, win, first);
    hide Enough, Absent;
  }

  lemma OneFirst(bits: seq<bool>, cnt: nat, i: nat, j: nat)
    requires FirstFit(bits, i, cnt) && FirstFit(bits, j, cnt)
    ensures i == j
  {
  }

  /** Which of the three it is. */
  lemma Verdict(w: World, w': World, r: nat, win: Window, bits: seq<bool>, cnt: nat, o: PagesOutcome, done: nat)
    requires Mapping(w, w', r, win, cnt, o, done) && FirstFit(bits, o.first, cnt)
    ensures HasRun(bits, cnt) && (o.Pages? <==> Fits(w, r, win, bits, cnt))
    ensures o.NoDataFrame? <==> PageShort(w, r, win, bits, cnt)
    ensures o.NoTableFrame? <==> TableShort(w, r, win, bits, cnt)
  {
    ServedAll(w, r, win, o.first, cnt);
    hide FirstFit, Enough, Absent, ClearBits, Served, PagesAdded;
    RunThere(bits, o.first, cnt);
    forall i: nat | FirstFit(bits, i, cnt) ensures i == o.first {
      OneFirst(bits, cnt, i, o.first);
    }
  }

  lemma RunThere(bits: seq<bool>, i: nat, cnt: nat)
    requires FirstFit(bits, i, cnt)
    ensures HasRun(bits, cnt)
  {
  }

  /** Without a run there is none of the three. */
  lemma NoVerdict(w: World, r: nat, win: Window, bits: seq<bool>, cnt: nat)
    requires !HasRun(bits, cnt)
    ensures !Fits(w, r, win, bits, cnt) && !PageShort(w, r, win, bits, cnt) && !TableShort(w, r, win, bits, cnt)
  {
    hide ShortAt, Enough;
    forall i: nat ensures !FirstFit(bits, i, cnt) {
      if FirstFit(bits, i, cnt) { RunThere(bits, i, cnt); }
    }
  }
}
