/** sys_malloc and sys_free on the variables of a struct virt_pool and the headers in its pages, over alloc_pages and
    free_pages in the address space that is loaded. */
module ArenaHeap {
  import opened Basics
  import opened Bitmaps
  import opened KernelHeap
  import opened AddressSpaces
  import opened Arenas
  import opened ArenaSteps

  /** sys_malloc: an address, a null pointer, a failed assertion (no page for a new arena, or no frame for a table), a
      scan past the end of the bitmap, or a write to a page that is not mapped (a page count of 0). */
  datatype Outcome = Ptr(a: nat) | Null | Panic | PastEnd | Fault

  /** How sys_malloc ends. */
  ghost predicate Expected(H: Heap, w: World, r: nat, win: Window, size: nat, o: Outcome) {
    if size > 1024 then LargeExpected(H, w, r, win, PageCount(size), o) else SmallExpected(H, w, r, win, size, o)
  }

  ghost predicate LargeExpected(H: Heap, w: World, r: nat, win: Window, n: nat, o: Outcome) {
    && (o.Ptr? <==> n > 0 && Fits(w, r, win, H.bits, n))
    && (o.Fault? <==> n == 0 && Fits(w, r, win, H.bits, n))
    && (o.Null? <==> (!HasRun(H.bits, n) && !ScanOverruns(H.bits, n)) || PageShort(w, r, win, H.bits, n))
    && (o.Panic? <==> TableShort(w, r, win, H.bits, n))
    && (o.PastEnd? <==> ScanOverruns(H.bits, n))
  }

  ghost predicate SmallExpected(H: Heap, w: World, r: nat, win: Window, size: nat, o: Outcome) {
    exists d: nat :: LeastClass(size, d) && ClassExpected(H, w, r, win, d, o)
  }

  ghost predicate ClassExpected(H: Heap, w: World, r: nat, win: Window, d: nat, o: Outcome) {
    && d < |H.free| && o.Ptr? == (H.free[d] != [] || Fits(w, r, win, H.bits, 1))
    && o.PastEnd? == (H.free[d] == [] && ScanOverruns(H.bits, 1))
    && (o.Ptr? || o.PastEnd? || o.Panic?)
  }

  /** The first class whose blocks hold `size` bytes. */
  ghost predicate LeastClass(size: nat, d: nat) {
    d < DESC_CNT && size <= BlockSize(d) && forall e: nat :: e < d ==> BlockSize(e) < size
  }

  /** `G` is `H`, with an arena in the first clear page if class `d` has no free block. */
  ghost predicate Refilled(H: Heap, G: Heap, d: nat) {
    && |H.free| == DESC_CNT && d < DESC_CNT
    && if H.free[d] != [] then G == H else exists p: nat :: ArenaAt(H, G, p, d)
  }

  ghost predicate ArenaAt(H: Heap, G: Heap, p: nat, d: nat) {
    |H.free| == DESC_CNT && d < DESC_CNT && FirstFit(H.bits, p, 1) && p < |H.bits| && G == NewArena(H, p, d)
  }

  /** `a` is the oldest free block of the least class, and `K` the state once it is handed out. */
  ghost predicate TookBlock(H: Heap, K: Heap, size: nat, a: nat) {
    exists d: nat, G: Heap :: TookFrom(H, K, size, a, d, G)
  }

  ghost predicate TookFrom(H: Heap, K: Heap, size: nat, a: nat, d: nat, G: Heap) {
    LeastClass(size, d) && Refilled(H, G, d) && CanPop(G, d) && a == G.free[d][0] && K == Pop(G, d, size)
  }

  /** `a` stands behind the header of the first run of pages that is long enough. */
  ghost predicate TookPages(H: Heap, K: Heap, size: nat, a: nat) {
    exists p: nat :: TookRun(H, K, size, a, p)
  }

  ghost predicate TookRun(H: Heap, K: Heap, size: nat, a: nat, p: nat) {
    var n := PageCount(size);
    n > 0 && p + n <= |H.bits| && FirstFit(H.bits, p, n) && a == LargePtr(p) && K == NewLarge(H, p, n, size)
  }

  /** The state after sys_free: the run of pages is given back, or the block joins the end of its list and a
      fully free arena is dissolved. */
  ghost function Freed(H: Heap, a: nat): Heap {
    var p := PageOf(a);
    if p !in H.headers then H
    else if H.headers[p].Large? then (if IsLarge(H, p) then FreeLarge(H, p) else H)
    else if CanPush(H, a, H.headers[p].d) then Dissolved(Push(H, a, H.headers[p].d), p, H.headers[p].d) else H
  }

  ghost function Dissolved(H: Heap, p: nat, d: nat): Heap {
    if IsFull(H, p, d) then Drop(H, p, d) else H
  }

  /** The pages marked by this allocator are mapped. */
  ghost predicate Mine(w: World, r: nat, win: Window, bits: seq<bool>, others: seq<bool>) {
    |others| == |bits| && forall k :: 0 <= k < |bits| && bits[k] && !others[k] ==> HeapMapped(w, r, win, k)
  }

  // ---- what happens to frames and mappings ----

  /** The pages that a call marked are mapped in space `r`, to the first free frames, one a page and one a missing table;
      a call that marked none changes nothing. */
  ghost predicate MemTook(w: World, w': World, r: nat, win: Window, bits: seq<bool>, bits': seq<bool>) {
    if bits' == bits then w' == w else exists p: nat, n: nat :: TookAt(w, w', r, win, bits, bits', p, n)
  }

  ghost predicate TookAt(w: World, w': World, r: nat, win: Window, bits: seq<bool>, bits': seq<bool>, p: nat, n: nat) {
    && FirstFit(bits, p, n) && p + n <= |bits| && bits' == Filled(bits, p, n, true)
    && Edited(w, r, w') && PagesAdded(w, w', r, win, p, n) && w'.bits == TakeFirst(w.bits, n + |Absent(w, r, win, p, n)|)
  }

  /** Where the frames ran out at a page all are taken, and as many pages are mapped as they were enough for. */
  ghost predicate MemLost(w: World, w': World, r: nat, win: Window, bits: seq<bool>, n: nat) {
    exists p: nat :: LostFrames(w, w', r, win, bits, p, n)
  }

  ghost predicate LostFrames(w: World, w': World, r: nat, win: Window, bits: seq<bool>, p: nat, n: nat) {
    FirstFit(bits, p, n) && Edited(w, r, w') && Mapping(w, w', r, win, n, NoDataFrame(p), Served(w, r, win, p, n))
  }

  /** The pages that a call gave back are no longer mapped; their frames stay taken. */
  ghost predicate MemGave(w: World, w': World, r: nat, win: Window, bits: seq<bool>, bits': seq<bool>) {
    if bits' == bits then w' == w else exists p: nat, n: nat :: GaveAt(w, w', r, win, bits, bits', p, n)
  }

  ghost predicate GaveAt(w: World, w': World, r: nat, win: Window, bits: seq<bool>, bits': seq<bool>, p: nat, n: nat) {
    && p + n <= |bits| && (forall k :: p <= k < p + n ==> bits[k]) && bits' == Filled(bits, p, n, false)
    && Edited(w, r, w') && PagesRemoved(w, w', r, win, p, n) && w'.bits == w.bits
  }

  /** Only frames are taken, and only the tables of space `r` edited. */
  ghost predicate Edited(w: World, r: nat, w': World) {
    exists steps :: RunIn(w, r, steps, w')
  }

  lemma IsEdited(w: World, r: nat, steps: seq<Step>, w': World)
    requires RunIn(w, r, steps, w')
    ensures Edited(w, r, w')
  {
    hide RunIn;
  }

  lemma IsTook(w: World, w': World, r: nat, win: Window, bits: seq<bool>, cnt: nat, page: PagesOutcome, done: nat)
    requires Edited(w, r, w') && Mapping(w, w', r, win, cnt, page, done) && FirstFit(bits, page.first, cnt) && page.first + cnt <= |bits|
    ensures page.Pages? && cnt > 0 ==> MemTook(w, w', r, win, bits, Filled(bits, page.first, cnt, true))
    ensures page.NoDataFrame? ==> MemLost(w, w', r, win, bits, cnt)
  {
    hide PagesAdded, Served, Absent, ClearBits, TakeFirst, Edited;
    if page.Pages? {
      assert TookAt(w, w', r, win, bits, Filled(bits, page.first, cnt, true), page.first, cnt);
      if cnt > 0 { assert Filled(bits, page.first, cnt, true)[page.first] != bits[page.first]; }
    }
    if page.NoDataFrame? { assert LostFrames(w, w', r, win, bits, page.first, cnt); }
  }

  lemma IsGave(w: World, w': World, r: nat, win: Window, bits: seq<bool>, p: nat, n: nat)
    requires p + n <= |bits| && n > 0 && (forall k :: p <= k < p + n ==> bits[k])
    requires Edited(w, r, w') && PagesRemoved(w, w', r, win, p, n) && w'.bits == w.bits
    ensures MemGave(w, w', r, win, bits, Filled(bits, p, n, false))
  {
    hide PagesRemoved, Edited;
    assert GaveAt(w, w', r, win, bits, Filled(bits, p, n, false), p, n);
    assert Filled(bits, p, n, false)[p] != bits[p];
  }

  lemma NothingTook(w: World, r: nat, win: Window, bits: seq<bool>)
    ensures MemTook(w, w, r, win, bits, bits) && MemGave(w, w, r, win, bits, bits)
  {
  }

  class Allocator {
    const memory: Memory
    const win: Window
    const vpool: Bitmap
    var blockSizes: seq<nat>
    var blocksPer: seq<nat>
    var headers: Headers
    var free: seq<seq<nat>>
    ghost var live: map<nat, nat>
    ghost var others: seq<bool>

    ghost function State(): Heap
      reads `headers, `free, `live, vpool.bits
    {
      Heap(vpool.Value(), headers, free, live)
    }

    ghost predicate DescsOk()
      reads `blockSizes, `blocksPer
    {
      && |blockSizes| == DESC_CNT && |blocksPer| == DESC_CNT
      && forall d: nat :: d < DESC_CNT ==> blockSizes[d] == BlockSize(d) && blocksPer[d] == PerArena(d)
    }

    /** The address spaces are in order, and so are the pool's pages in the one that is loaded. */
    ghost predicate Backed(o: seq<bool>)
      reads memory, memory.pool.bits, vpool.bits
    {
      && memory.Ok() && vpool.bits != memory.pool.bits && WinOk(memory.State(), memory.root, win)
      && HeapOk(memory.State(), memory.root, win, vpool.Value()) && Mine(memory.State(), memory.root, win, vpool.Value(), o)
    }

    ghost predicate Valid()
      reads this, memory, memory.pool.bits, vpool.bits
    {
      DescsOk() && Inv(State(), others) && AllInUse(headers) && Backed(others)
    }

    /** virt_pool_init and mem_desc_init; `others` are the pages the pool does not hand out through here. */
    constructor (memory: Memory, win: Window, vpool: Bitmap)
      requires memory.Ok() && vpool.bits != memory.pool.bits && WinOk(memory.State(), memory.root, win)
      requires HeapOk(memory.State(), memory.root, win, vpool.Value())
      ensures this.memory == memory && this.win == win && this.vpool == vpool
      ensures live == map[] && headers == map[] && others == vpool.Value() && Valid()
    {
      this.memory, this.win, this.vpool := memory, win, vpool;
      headers := map[];
      live := map[];
      others := vpool.Value();
      free := [[], [], [], [], [], [], []];
      var sizes, counts := MemDescInit();
      blockSizes, blocksPer := sizes, counts;
      new;
      EmptyOk(State(), others);
      NothingMine(memory.State(), memory.root, win, others);
    }

    /** alloc_pages; pages that got no frame in the end stay marked and go to others. */
    method AllocPages(cnt: nat, ghost w: World, ghost bits0: seq<bool>, ghost o: seq<bool>) returns (r: PagesOutcome)
      requires Backed(o) && w == memory.State() && vpool.Value() == bits0
      modifies vpool.bits, memory`mem, memory.pool.bits
      ensures r.Pages? || r.NoDataFrame? || r.NoTableFrame? ==>
                FirstFit(bits0, r.first, cnt) && vpool.Value() == Filled(bits0, r.first, cnt, true)
                && |o| == |bits0| && Backed(if r.Pages? then o else Filled(o, r.first, cnt, true))
      ensures r.NoRun? || r.Overrun? ==> vpool.Value() == bits0 && Backed(o) && memory.State() == w
      ensures r.Pages? <==> Fits(w, memory.root, win, bits0, cnt)
      ensures r.NoDataFrame? <==> PageShort(w, memory.root, win, bits0, cnt)
      ensures r.NoTableFrame? <==> TableShort(w, memory.root, win, bits0, cnt)
      ensures r.NoRun? <==> !HasRun(bits0, cnt) && !ScanOverruns(bits0, cnt)
      ensures r.Overrun? <==> ScanOverruns(bits0, cnt)
      ensures r.Pages? && cnt > 0 ==> MemTook(w, memory.State(), memory.root, win, bits0, vpool.Value())
      ensures r.NoDataFrame? ==> MemLost(w, memory.State(), memory.root, win, bits0, cnt)
    {
      hide *;
      BackedFacts(o);
      NoOverrun(bits0, cnt);
      ghost var done, steps;
      r, done, steps := memory.AllocPages(vpool, win, cnt, w, bits0);
      ghost var w' := memory.State();
      if r.Pages? || r.NoDataFrame? || r.NoTableFrame? {
        if !HasRun(bits0, cnt) { NoVerdict(w, memory.root, win, bits0, cnt); }
        FitIs(bits0, r.first, cnt);
        IsEdited(w, memory.root, steps, w');
        IsTook(w, w', memory.root, win, bits0, cnt, r, done);
        MineAfter(w, w', memory.root, win, bits0, o, cnt, r, done);
        SameWin(w, w', memory.root, win);
        IsBacked(if r.Pages? then o else Filled(o, r.first, cnt, true));
      } else {
        IsBacked(o);
      }
    }

    /** free_pages of pages that this allocator marked. */
    method FreePages(p: nat, cnt: nat, ghost w: World, ghost bits0: seq<bool>, ghost o: seq<bool>)
      requires Backed(o) && w == memory.State() && vpool.Value() == bits0 && p + cnt <= |bits0|
      requires |o| == |bits0| && cnt > 0 && forall k :: p <= k < p + cnt ==> bits0[k] && !o[k]
      modifies vpool.bits, memory`mem, memory.pool.bits
      ensures vpool.Value() == Filled(bits0, p, cnt, false) && Backed(o)
      ensures MemGave(w, memory.State(), memory.root, win, bits0, vpool.Value())
    {
      hide *;
      BackedFacts(o);
      MineMapped(w, memory.root, win, bits0, o, p, cnt);
      ghost var steps := memory.FreePages(vpool, win, p, cnt, w, bits0);
      ghost var w' := memory.State();
      IsEdited(w, memory.root, steps, w');
      IsGave(w, w', memory.root, win, bits0, p, cnt);
      MineLess(w, w', memory.root, win, bits0, o, p, cnt);
      SameWin(w, w', memory.root, win);
      IsBacked(o);
    }

    lemma BackedFacts(o: seq<bool>)
      requires Backed(o)
      ensures memory.Ok() && vpool.bits != memory.pool.bits && WinOk(memory.State(), memory.root, win)
      ensures HeapOk(memory.State(), memory.root, win, vpool.Value()) && Mine(memory.State(), memory.root, win, vpool.Value(), o)
      ensures |o| == |vpool.Value()|
    {
    }

    lemma IsBacked(o: seq<bool>)
      requires memory.Ok() && vpool.bits != memory.pool.bits && WinOk(memory.State(), memory.root, win)
      requires HeapOk(memory.State(), memory.root, win, vpool.Value()) && Mine(memory.State(), memory.root, win, vpool.Value(), o)
      ensures Backed(o)
    {
    }

    /** The loop of create_free_blocks. */
    method FillFree(p: nat, d: nat, n: nat, ghost free0: seq<seq<nat>>)
      requires free == free0 && |free| == DESC_CNT && d < DESC_CNT && free[d] == []
      modifies `free
      ensures |free0| == DESC_CNT && free == free0[d := Blocks(p, d, n)]
    {
      hide BlockAddr, BlockSize;
      var i := 0;
      while i != n
        invariant 0 <= i <= n
        invariant |free| == DESC_CNT && free == free0[d := Blocks(p, d, i)]
      {
        var b := BlockAddr(p, d, i);
        assert b !in free[d] by { NotYet(p, d, i); }
        free := free[d := free[d] + [b]];
        i := i + 1;
      }
    }

    method CreateFreeBlocks(d: nat, ghost H: Heap, ghost w: World, ghost o: seq<bool>) returns (r: PagesOutcome)
      requires H == State() && Inv(H, o) && DescsOk() && AllInUse(H.headers) && d < DESC_CNT && |free| == DESC_CNT && free[d] == []
      requires Backed(o) && w == memory.State()
      modifies vpool.bits, memory`mem, memory.pool.bits, `headers, `free
      ensures r.Pages? ==> IsNewArena(H, r.first, d) && FirstFit(H.bits, r.first, 1) && Backed(o)
      ensures r.Pages? <==> Fits(w, memory.root, win, H.bits, 1)
      ensures r.Overrun? <==> ScanOverruns(H.bits, 1)
      ensures r.Pages? ==> MemTook(w, memory.State(), memory.root, win, H.bits, vpool.Value())
    {
      hide *;
      Fields(H);
      SizesNonNegative(d);
      r := AllocPages(1, w, H.bits, o);
      if r.Pages? {
        var p := r.first;
        OneBit(H.bits, p);
        var n := PerSize(d);
        headers := headers[p := Small(d, n)];
        FillFree(p, d, n, H.free);
        IsNew(H, p, d);
      }
    }

    method PerSize(d: nat) returns (n: nat)
      requires DescsOk() && d < DESC_CNT
      ensures n == PerArena(d)
    {
      n := blocksPer[d];
    }

    /** The state after create_free_blocks. */
    ghost predicate IsNewArena(H: Heap, p: nat, d: nat)
      reads `headers, `free, `live, vpool.bits
    {
      p < |H.bits| && !H.bits[p] && |H.free| == DESC_CNT && d < DESC_CNT && State() == NewArena(H, p, d)
    }

    lemma IsNew(H: Heap, p: nat, d: nat)
      requires p < |H.bits| && !H.bits[p] && |H.free| == DESC_CNT && d < DESC_CNT && H.free[d] == [] && PerArena(d) >= 0
      requires vpool.Value() == Filled(H.bits, p, 1, true) && headers == H.headers[p := Small(d, PerArena(d))]
      requires free == H.free[d := Blocks(p, d, PerArena(d))] && live == H.live
      ensures IsNewArena(H, p, d)
    {
      hide Filled, Blocks, PerArena;
      assert [] + Blocks(p, d, PerArena(d)) == Blocks(p, d, PerArena(d));
    }

    /** A list of class `d` that can be popped, and only the arena it pops from may be fully free. */
    ghost predicate Poppable(H: Heap, d: nat)
      reads this, memory, memory.pool.bits, vpool.bits
    {
      && Inv(State(), others) && CanPop(State(), d) && InUseBut(headers, PageOf(free[d][0])) && live == H.live && DescsOk()
      && Backed(others)
    }

    method Refill(d: nat, ghost H: Heap, ghost w: World) returns (r: PagesOutcome)
      requires H == State() && Valid() && d < DESC_CNT && |free| == DESC_CNT && w == memory.State()
      modifies vpool.bits, memory`mem, memory.pool.bits, `headers, `free
      ensures r.Pages? ==> Poppable(H, d) && Refilled(H, State(), d)
      ensures r.Pages? <==> H.free[d] != [] || Fits(w, memory.root, win, H.bits, 1)
      ensures r.Overrun? <==> H.free[d] == [] && ScanOverruns(H.bits, 1)
      ensures r.Pages? ==> MemTook(w, memory.State(), memory.root, win, H.bits, vpool.Value())
    {
      hide Inv, AllInUse, InUseBut, BlockSize, FirstFit, Backed, Fits, MemTook;
      NothingTook(w, memory.root, win, H.bits);
      if free[d] == [] {
        r := CreateFreeBlocks(d, H, w, others);
        if r.Pages? {
          AfterNew(H, r.first, d, others);
          assert ArenaAt(H, State(), r.first, d);
        }
      } else {
        InUseAny(H, PageOf(free[d][0]));
        r := Pages(0);
      }
    }

    /** The small branch of sys_malloc. */
    method SmallMalloc(size: nat, ghost H: Heap, ghost w: World) returns (r: Outcome)
      requires H == State() && Valid() && size <= 1024 && w == memory.State()
      modifies vpool.bits, memory`mem, memory.pool.bits, `headers, `free, `live
      ensures SmallExpected(H, w, memory.root, win, size, r)
      ensures r.Ptr? ==> Valid() && r.a !in H.live && live == H.live[r.a := size] && TookBlock(H, State(), size, r.a)
      ensures r.Ptr? ==> MemTook(w, memory.State(), memory.root, win, H.bits, vpool.Value())
    {
      var d := FindDesc(size);
      FreeLists(H, others);
      hide Inv, AllInUse, InUseBut, BlockSize, Valid, LeastClass, Refilled, Backed, Fits, MemTook;
      var page := Refill(d, H, w);
      ghost var root := memory.root;
      if page.Overrun? {
        assert ClassExpected(H, w, root, win, d, PastEnd);
        return PastEnd;
      }
      if !page.Pages? {
        assert ClassExpected(H, w, root, win, d, Panic);
        return Panic;
      }
      ghost var G := State();
      FreeLists(G, others);
      var b := PopFree(d, size, G);
      PopFinishes(H, G, d, size, others);
      IsValid();
      assert TookFrom(H, State(), size, b, d, G);
      assert ClassExpected(H, w, root, win, d, Ptr(b)) by { NoOverrunHere(H, w, root, win, d); }
      r := Ptr(b);
    }

    lemma NoOverrunHere(H: Heap, w: World, root: nat, win: Window, d: nat)
      requires d < |H.free| && (H.free[d] != [] || Fits(w, root, win, H.bits, 1))
      ensures !(H.free[d] == [] && ScanOverruns(H.bits, 1))
    {
      NoOverrun(H.bits, 1);
      if !HasRun(H.bits, 1) { NoVerdict(w, root, win, H.bits, 1); }
      hide Fits, HasRun, ScanOverruns;
    }

    /** The large branch of sys_malloc; when frames run out the pages stay marked and are lost. */
    method LargeMalloc(size: nat, ghost H: Heap, ghost w: World) returns (r: Outcome)
      requires H == State() && Valid() && 1024 < size < WORD && w == memory.State()
      modifies vpool.bits, memory`mem, memory.pool.bits, `headers, `live, `others
      ensures LargeExpected(H, w, memory.root, win, PageCount(size), r)
      ensures r.Ptr? ==> Valid() && r.a !in H.live && live == H.live[r.a := size] && others == old(others)
      ensures r.Ptr? ==> TookPages(H, State(), size, r.a)
      ensures r.Null? ==> Valid() && live == H.live
      ensures r.Null? && !HasRun(H.bits, PageCount(size)) ==> State() == H && others == old(others) && memory.State() == w
      ensures r.Null? && HasRun(H.bits, PageCount(size)) ==> LostRun(H, State(), old(others), others, PageCount(size))
      ensures r.Fault? ==> Wraps(size)
      ensures r.Ptr? ==> MemTook(w, memory.State(), memory.root, win, H.bits, vpool.Value())
      ensures r.Null? && HasRun(H.bits, PageCount(size)) ==> MemLost(w, memory.State(), memory.root, win, H.bits, PageCount(size))
    {
      hide *;
      Fields(H);
      ValidFacts();
      var n := PageCount(size);
      RoomIs(size);
      NoOverrun(H.bits, n);
      ghost var root := memory.root;
      var page := AllocPages(n, w, H.bits, others);
      LargeEnds(H, w, root, win, n, page);
      if page.Overrun? { return PastEnd; }
      if page.NoTableFrame? { return Panic; }
      if page.NoRun? {
        Becomes(H);
        return Null;
      }
      if page.NoDataFrame? {
        FitIs(H.bits, page.first, n);
        Lost(page.first, n, H);
        return Null;
      }
      if n == 0 { return Fault; }
      LargeFinishes(H, page.first, n, size, others);
      headers := headers[page.first := Large(n)];
      r := Ptr(LargePtr(page.first));
      live := live[r.a := size];
      Becomes(NewLarge(H, page.first, n, size));
      TookThem(H, State(), size, page.first);
    }

    /** The pages that a failed alloc_pages has marked join those of others. */
    ghost method Lost(p: nat, n: nat, H: Heap)
      requires Inv(H, others) && AllInUse(H.headers) && DescsOk() && headers == H.headers && free == H.free && live == H.live
      requires FirstFit(H.bits, p, n) && p + n <= |H.bits| && |others| == |H.bits| && vpool.Value() == Filled(H.bits, p, n, true)
      requires Backed(Filled(others, p, n, true))
      modifies `others
      ensures Valid() && LostRun(H, State(), old(others), others, n)
    {
      hide Inv, AllInUse, Filled, FirstFit, Bitmap.Value, DescsOk, Backed;
      FitIs(H.bits, p, n);
      LeakKeeps(H, others, p, n);
      ghost var o := others;
      others := Filled(others, p, n, true);
      Becomes(H.(bits := Filled(H.bits, p, n, true)));
      assert LostAt(H, State(), o, others, p, n);
    }

    /** sys_malloc */
    method SysMalloc(size: nat, ghost H: Heap, ghost w: World) returns (r: Outcome)
      requires H == State() && Valid() && size < WORD && w == memory.State()
      modifies vpool.bits, memory`mem, memory.pool.bits, `headers, `free, `live, `others
      ensures Expected(H, w, memory.root, win, size, r)
      ensures r.Ptr? ==> Valid() && r.a !in H.live && live == H.live[r.a := size] && others == old(others)
      ensures r.Ptr? ==> if size > 1024 then TookPages(H, State(), size, r.a) else TookBlock(H, State(), size, r.a)
      ensures r.Ptr? ==> InPages(State(), r.a) && (size <= Room(State(), r.a) || Wraps(size))
      ensures r.Null? ==> Valid() && live == H.live
      ensures r.Null? && !HasRun(H.bits, PageCount(size)) ==> State() == H && others == old(others) && memory.State() == w
      ensures r.Null? && HasRun(H.bits, PageCount(size)) ==> LostRun(H, State(), old(others), others, PageCount(size))
      ensures r.Fault? ==> Wraps(size)
      ensures r.Ptr? ==> MemTook(w, memory.State(), memory.root, win, H.bits, State().bits)
      ensures r.Null? && HasRun(H.bits, PageCount(size)) ==> MemLost(w, memory.State(), memory.root, win, H.bits, PageCount(size))
    {
      hide Inv, AllInUse, HasRun, PageCount, Wraps, TookPages, TookBlock, SmallExpected, LargeExpected, LostRun, Backed, MemTook, MemLost, InPages, Room;
      if size > 1024 {
        r := LargeMalloc(size, H, w);
      } else {
        r := SmallMalloc(size, H, w);
        SmallNeverNull(H, w, memory.root, win, size, r);
      }
      if r.Ptr? { Placed(r.a); }
    }

    lemma Placed(a: nat)
      requires Valid() && a in live
      ensures InPages(State(), a) && (live[a] <= Room(State(), a) || Wraps(live[a]))
    {
      hide Inv, AllInUse, Backed, DescsOk, InPages, Room, Wraps;
      LiveInPages(State(), others, a);
    }

    /** sys_free of an address that sys_malloc returned. */
    method SysFree(ptr: nat, ghost H: Heap, ghost w: World)
      requires H == State() && Valid() && ptr in live && w == memory.State()
      modifies vpool.bits, memory`mem, memory.pool.bits, `headers, `free, `live
      ensures Valid() && live == H.live - {ptr} && State() == Freed(H, ptr)
      ensures MemGave(w, memory.State(), memory.root, win, H.bits, State().bits)
    {
      var p := PageOf(ptr);
      LiveHeader(H, ptr, others);
      hide Inv, AllInUse, InUseBut, PageOf, Dissolved, CanPush, IsLarge, Backed, MemGave;
      if headers[p].Large? {
        FreePagesOf(p, H, w);
      } else {
        GiveBlock(ptr, H, w);
      }
    }

    method FreePagesOf(p: nat, ghost H: Heap, ghost w: World)
      requires H == State() && Valid() && IsLarge(H, p) && w == memory.State()
      modifies vpool.bits, memory`mem, memory.pool.bits, `headers, `live
      ensures Valid() && live == H.live - {LargePtr(p)} && State() == FreeLarge(H, p)
      ensures MemGave(w, memory.State(), memory.root, win, H.bits, vpool.Value())
    {
      hide *;
      Fields(H);
      ValidFacts();
      FreeFinishes(H, p, others);
      var n := headers[p].pages;
      RunIsMine(H, p, n, others);
      FreePages(p, n, w, H.bits, others);
      headers := headers - {p};
      live := live - {LargePtr(p)};
      Becomes(FreeLarge(H, p));
    }

    /** The small branch of sys_free. */
    method GiveBlock(b: nat, ghost H: Heap, ghost w: World)
      requires w == memory.State() && H == State() && Valid() && b in live && PageOf(b) in headers && headers[PageOf(b)].Small?
      requires CanPush(H, b, headers[PageOf(b)].d)
      modifies vpool.bits, memory`mem, memory.pool.bits, `headers, `free, `live
      ensures Valid() && live == H.live - {b}
      ensures State() == Dissolved(Push(H, b, H.headers[PageOf(b)].d), PageOf(b), H.headers[PageOf(b)].d)
      ensures MemGave(w, memory.State(), memory.root, win, H.bits, vpool.Value())
    {
      hide *;
      NothingTook(w, memory.root, win, H.bits);
      Fields(H);
      ValidFacts();
      var p := PageOf(b);
      var d := headers[p].d;
      PushFinishes(H, b, d, others);
      assert b !in free[d];
      free := free[d := free[d] + [b]];
      headers := headers[p := headers[p].(cnt := headers[p].cnt + 1)];
      live := live - {b};
      IsState(Push(H, b, d));
      IsDissolved(State(), p, d, others);
      var n := PerSize(d);
      if headers[p].cnt == n {
        DropArena(p, d, n, State(), w);
      } else {
        CountBelow(State(), p, others);
        AllUsed(headers, p, n);
        IsValid();
      }
    }

    /** A fully free arena leaves its list and gives its page back. */
    method DropArena(p: nat, d: nat, n: nat, ghost H: Heap, ghost w: World)
      requires w == memory.State() && H == State() && DescsOk() && Inv(H, others) && InUseBut(headers, p)
      requires d < DESC_CNT && p in headers && headers[p] == Small(d, n) && n == PerArena(d) && Backed(others)
      modifies vpool.bits, memory`mem, memory.pool.bits, `headers, `free
      ensures Valid() && live == H.live && IsFull(H, p, d) && State() == Drop(H, p, d)
      ensures MemGave(w, memory.State(), memory.root, win, H.bits, vpool.Value())
    {
      hide *;
      Fields(H);
      DropFinishes(H, p, d, others);
      UnlinkAll(p, d, n, H);
      RunIsMine(H, p, 1, others);
      FreePages(p, 1, w, H.bits, others);
      headers := headers - {p};
      Becomes(Drop(H, p, d));
    }

    method UnlinkAll(p: nat, d: nat, n: nat, ghost H: Heap)
      requires |free| == DESC_CNT && free == H.free && d < DESC_CNT && n == PerArena(d)
      requires forall i: nat :: i < n ==> BlockAddr(p, d, i) in free[d]
      modifies `free
      ensures |H.free| == DESC_CNT && free == H.free[d := Minus(H.free[d], Blocks(p, d, n))]
    {
      hide BlockAddr, PerArena, BlockSize;
      MinusNothing(free[d]);
      var i := 0;
      while i != n
        invariant 0 <= i <= n
        invariant |free| == DESC_CNT && free == H.free[d := Minus(H.free[d], Blocks(p, d, i))]
      {
        var b := BlockAddr(p, d, i);
        assert b in free[d] by {
          NotYet(p, d, i);
          MinusMembers(H.free[d], Blocks(p, d, i));
        }
        MinusStep(H.free[d], Blocks(p, d, i), b);
        free := free[d := Minus(free[d], [b])];
        i := i + 1;
      }
    }

    /** The search for the first class that is large enough. */
    method FindDesc(size: nat) returns (d: nat)
      requires DescsOk() && size <= 1024
      ensures LeastClass(size, d) && size <= BlockSize(d)
    {
      d := 0;
      Sizes(6);
      while d != DESC_CNT
        invariant d <= DESC_CNT && forall e: nat :: e < d ==> BlockSize(e) < size
      {
        if blockSizes[d] >= size {
          break;
        }
        d := d + 1;
      }
    }

    method PopFree(d: nat, size: nat, ghost G: Heap) returns (b: nat)
      requires G == State() && CanPop(G, d) && Lists(G)
      modifies `headers, `free, `live
      ensures b == G.free[d][0] && State() == Pop(G, d, size)
    {
      ghost var p0, i := PopBlock(G, d);
      hide Lists, PageOf;
      b := free[d][0];
      free := free[d := free[d][1..]];
      var p := PageOf(b);
      var cnt := headers[p].cnt;
      headers := headers[p := headers[p].(cnt := if cnt == 0 then 0 else cnt - 1)];
      live := live[b := size];
    }

    /** Once everything is freed the pool marks exactly the pages of others, and no arena is left. */
    lemma AllFreed()
      requires Valid() && live == map[]
      ensures vpool.Value() == others && headers == map[]
    {
      hide Inv, AllInUse, Backed;
      AllFreedRestores(State(), others);
    }

    lemma Fields(H: Heap)
      requires H == State()
      ensures vpool.Value() == H.bits && headers == H.headers && free == H.free && live == H.live
    {
    }

    lemma IsState(H: Heap)
      requires vpool.Value() == H.bits && headers == H.headers && free == H.free && live == H.live
      ensures State() == H
    {
    }

    lemma Becomes(H: Heap)
      requires vpool.Value() == H.bits && headers == H.headers && free == H.free && live == H.live
      requires DescsOk() && Inv(H, others) && AllInUse(H.headers) && Backed(others)
      ensures State() == H && Valid()
    {
    }

    lemma ValidFacts()
      requires Valid()
      ensures DescsOk() && Inv(State(), others) && AllInUse(headers) && Backed(others) && |others| == |vpool.Value()|
    {
    }

    lemma IsValid()
      requires DescsOk() && Inv(State(), others) && AllInUse(headers) && Backed(others)
      ensures Valid()
    {
    }
  }

  lemma TookThem(H: Heap, K: Heap, size: nat, p: nat)
    requires var n := PageCount(size);
             n > 0 && p + n <= |H.bits| && FirstFit(H.bits, p, n) && K == NewLarge(H, p, n, size)
    ensures TookPages(H, K, size, LargePtr(p))
  {
    hide PageCount, FirstFit, LargePtr;
    assert TookRun(H, K, size, LargePtr(p), p);
  }

  /** An arena is dissolved iff its count is that of its class. */
  lemma IsDissolved(H: Heap, p: nat, d: nat, others: seq<bool>)
    requires Inv(H, others) && p in H.headers && H.headers[p].Small? && H.headers[p].d == d
    ensures if H.headers[p].cnt == PerArena(d) then IsFull(H, p, d) && Dissolved(H, p, d) == Drop(H, p, d) else Dissolved(H, p, d) == H
  {
    InvParts(H, others);
    HeldIsSet(H, p, others);
    DInRange(H, p);
    hide Inv, HeadersOk, BitsOk, Lists, CountOk, Accounted, LiveOk, PerArena, Drop;
  }

  /** The run that alloc_pages had marked belongs to others from now on. */
  ghost predicate LostRun(H: Heap, K: Heap, o: seq<bool>, o': seq<bool>, n: nat) {
    exists p: nat :: LostAt(H, K, o, o', p, n)
  }

  ghost predicate LostAt(H: Heap, K: Heap, o: seq<bool>, o': seq<bool>, p: nat, n: nat) {
    FirstFit(H.bits, p, n) && p + n <= |H.bits| && |o| == |H.bits| && K == H.(bits := Filled(H.bits, p, n, true)) && o' == Filled(o, p, n, true)
  }

  lemma SmallNeverNull(H: Heap, w: World, r: nat, win: Window, size: nat, o: Outcome)
    requires SmallExpected(H, w, r, win, size, o)
    ensures !o.Null? && !o.Fault?
  {
  }

  /** The outcomes of sys_malloc for those of alloc_pages. */
  lemma LargeEnds(H: Heap, w: World, r: nat, win: Window, n: nat, page: PagesOutcome)
    requires page.Pages? <==> Fits(w, r, win, H.bits, n)
    requires page.NoDataFrame? <==> PageShort(w, r, win, H.bits, n)
    requires page.NoTableFrame? <==> TableShort(w, r, win, H.bits, n)
    requires page.NoRun? <==> !HasRun(H.bits, n) && !ScanOverruns(H.bits, n)
    requires page.Overrun? <==> ScanOverruns(H.bits, n)
    ensures page.Overrun? ==> LargeExpected(H, w, r, win, n, PastEnd)
    ensures page.NoTableFrame? ==> LargeExpected(H, w, r, win, n, Panic)
    ensures page.NoRun? || page.NoDataFrame? ==> LargeExpected(H, w, r, win, n, Null)
    ensures page.NoRun? ==> !HasRun(H.bits, n)
    ensures page.NoDataFrame? || page.Pages? ==> HasRun(H.bits, n)
    ensures page.Pages? && n == 0 ==> LargeExpected(H, w, r, win, n, Fault)
    ensures forall a :: page.Pages? && n > 0 ==> LargeExpected(H, w, r, win, n, Ptr(a))
  {
    if !HasRun(H.bits, n) { NoVerdict(w, r, win, H.bits, n); }
    hide Fits, PageShort, TableShort, HasRun, ScanOverruns;
  }

  lemma NothingMine(w: World, r: nat, win: Window, bits: seq<bool>)
    ensures Mine(w, r, win, bits, bits)
  {
  }

  /** After alloc_pages: the run is mapped, or not all of it and it goes to others. */
  lemma MineAfter(w: World, w': World, r: nat, win: Window, bits: seq<bool>, o: seq<bool>, cnt: nat, page: PagesOutcome, done: nat)
    requires Mine(w, r, win, bits, o) && Mapping(w, w', r, win, cnt, page, done) && FirstFit(bits, page.first, cnt) && WinOk(w, r, win) && |bits| <= 2048
    requires page.first + cnt <= |bits|
    ensures |o| == |bits| && Mine(w', r, win, Filled(bits, page.first, cnt, true), if page.Pages? then o else Filled(o, page.first, cnt, true))
  {
    hide HeapMapped, RestKept, Served, Absent, ClearBits, Fresh, FirstFit, WinOk, Filled;
    var first := page.first;
    forall k: nat | k < |bits| && !(first <= k < first + cnt) ensures HeapMapped(w', r, win, k) <==> HeapMapped(w, r, win, k) {
      OtherPage(w, w', r, win, first, done, k);
    }
  }

  lemma OtherPage(w: World, w': World, r: nat, win: Window, first: nat, n: nat, k: nat)
    requires RestKept(w, w', r, win, first, n) && WinOk(w, r, win) && k < 2048 && first + n <= 2048 && !(first <= k < first + n)
    ensures HeapMapped(w', r, win, k) <==> HeapMapped(w, r, win, k)
  {
    OtherHeapPage(w, w', r, win, first, n, k);
    NotMappedIs(w, r, win, k);
    NotMappedIs(w', r, win, k);
    hide HeapMapped, RestKept, WinOk;
  }

  lemma MineMapped(w: World, r: nat, win: Window, bits: seq<bool>, o: seq<bool>, p: nat, cnt: nat)
    requires Mine(w, r, win, bits, o) && p + cnt <= |bits| && |o| == |bits| && forall k :: p <= k < p + cnt ==> bits[k] && !o[k]
    ensures forall k :: p <= k < p + cnt ==> HeapMapped(w, r, win, k)
  {
    hide HeapMapped;
  }

  lemma MineLess(w: World, w': World, r: nat, win: Window, bits: seq<bool>, o: seq<bool>, p: nat, cnt: nat)
    requires Mine(w, r, win, bits, o) && PagesRemoved(w, w', r, win, p, cnt) && WinOk(w, r, win) && p + cnt <= |bits| <= 2048
    ensures Mine(w', r, win, Filled(bits, p, cnt, false), o)
  {
    hide HeapMapped, RestKept, WinOk, Filled;
    forall k: nat | k < |bits| && !(p <= k < p + cnt) ensures HeapMapped(w', r, win, k) <==> HeapMapped(w, r, win, k) {
      OtherPage(w, w', r, win, p, cnt, k);
    }
  }

  lemma SameWin(w: World, w': World, r: nat, win: Window)
    requires WinOk(w, r, win) && SamePool(w, w') && w'.roots == w.roots
    ensures WinOk(w', r, win)
  {
  }

  lemma RunIsMine(H: Heap, p: nat, n: nat, others: seq<bool>)
    requires Inv(H, others) && p in H.headers && n == if H.headers[p].Small? then 1 else H.headers[p].pages
    ensures |others| == |H.bits| && n > 0 && p + n <= |H.bits| && forall k :: p <= k < p + n ==> H.bits[k] && !others[k]
  {
    InvParts(H, others);
    HeldIsSet(H, p, others);
    assert n == Span(H.headers[p]);
    hide Inv, HeadersOk, Lists, CountOk, Accounted, LiveOk, Span;
    forall k: nat | p <= k < p + n ensures !others[k] {
      assert OwnedBy(H.headers, k, p);
      assert Owned(H.headers, k);
    }
  }

  lemma FreeLists(H: Heap, others: seq<bool>)
    requires Inv(H, others)
    ensures |H.free| == DESC_CNT && Lists(H)
  {
  }

  lemma InUseAny(H: Heap, p: nat)
    requires AllInUse(H.headers)
    ensures InUseBut(H.headers, p)
  {
  }

  lemma BlocksNotEmpty(p: nat, d: nat)
    requires d < DESC_CNT && PerArena(d) >= 0
    ensures Blocks(p, d, PerArena(d)) != [] && Blocks(p, d, PerArena(d))[0] == BlockAddr(p, d, 0) && PageOf(BlockAddr(p, d, 0)) == p
  {
    SizesNonNegative(d);
    BlockFacts(p, d, 0);
  }

  /** The list a new arena was made for can be popped, from that arena. */
  lemma AfterNew(H: Heap, p: nat, d: nat, others: seq<bool>)
    requires Inv(H, others) && AllInUse(H.headers) && p < |H.bits| && !H.bits[p] && |H.free| == DESC_CNT && d < DESC_CNT && H.free[d] == []
    ensures var G := NewArena(H, p, d);
            Inv(G, others) && CanPop(G, d) && PageOf(G.free[d][0]) == p && InUseBut(G.headers, p) && G.live == H.live
  {
    NewArenaKeeps(H, p, d, others);
    SizesNonNegative(d);
    BlocksNotEmpty(p, d);
    hide Inv, AllInUse, InUseBut, BlockAddr, PerArena, BlockSize, Filled, Blocks, PageOf;
  }

  lemma PopFinishes(H: Heap, G: Heap, d: nat, size: nat, others: seq<bool>)
    requires Inv(G, others) && CanPop(G, d) && size <= BlockSize(d) && InUseBut(G.headers, PageOf(G.free[d][0])) && G.live == H.live
    ensures Inv(Pop(G, d, size), others) && AllInUse(Pop(G, d, size).headers)
    ensures G.free[d][0] !in H.live && Pop(G, d, size).live == H.live[G.free[d][0] := size]
  {
    InvParts(G, others);
    PopKeeps(G, d, size, others);
    FreeNotLive(G, d, others);
    hide Inv, InUseBut, AllInUse, BlockSize, Lists, CountOk, HeadersOk, BitsOk, LiveOk, Accounted;
    PopInUse(G, d, size);
  }

  lemma FreeNotLive(G: Heap, d: nat, others: seq<bool>)
    requires Inv(G, others) && CanPop(G, d)
    ensures G.free[d][0] !in G.live
  {
    InvParts(G, others);
    var p, i := PopBlock(G, d);
    var b := G.free[d][0];
    assert b in G.free[d];
    if b in G.live { FreeNotLiveOk(G, d, b, p, i); }
  }

  lemma FreeNotLiveOk(G: Heap, d: nat, b: nat, p: nat, i: nat)
    requires |G.free| == DESC_CNT && d < DESC_CNT && IsBlock(G.headers, b, p, d, i) && p == PageOf(b) && b in G.free[d] && b in G.live
    ensures !LiveOk(G, b)
  {
  }

  lemma RoomIs(size: nat)
    requires 1024 < size < WORD
    ensures size + 16 <= PageCount(size) * PG_SIZE || Wraps(size)
    ensures PageCount(size) == 0 ==> Wraps(size)
  {
    PagesEnoughExactly(size);
  }

  lemma FitIs(s: seq<bool>, p: nat, n: nat)
    requires FirstFit(s, p, n)
    ensures p + n <= |s| && forall k :: p <= k < p + n ==> !s[k]
  {
  }

  lemma NoOverrun(s: seq<bool>, n: nat)
    ensures HasRun(s, n) ==> !ScanOverruns(s, n)
  {
  }

  lemma LargeIsNew(H: Heap, p: nat, n: nat, others: seq<bool>)
    requires Inv(H, others) && n > 0 && p + n <= |H.bits| && forall k :: p <= k < p + n ==> !H.bits[k]
    ensures LargePtr(p) !in H.live
  {
    InvParts(H, others);
    ClearIsFree(H, others, p, n);
    LargeAddr(p);
    hide Inv, HeadersOk, BitsOk, Lists, CountOk, Accounted, PageOf, LargePtr;
    forall a | a in H.live ensures PageOf(a) in H.headers {
      assert LiveOk(H, a);
    }
  }

  /** What the header of a live address says. */
  lemma LiveHeader(H: Heap, a: nat, others: seq<bool>)
    requires Inv(H, others) && a in H.live
    ensures var p := PageOf(a);
            p in H.headers && if H.headers[p].Large? then IsLarge(H, p) && a == LargePtr(p) else CanPush(H, a, H.headers[p].d)
  {
    InvParts(H, others);
    assert LiveOk(H, a);
    HeldIsSet(H, PageOf(a), others);
    hide Inv, HeadersOk, BitsOk, Lists, CountOk, Accounted, BlockOf, BlockSize;
  }

  lemma CountBelow(H: Heap, p: nat, others: seq<bool>)
    requires Inv(H, others) && p in H.headers && H.headers[p].Small?
    ensures H.headers[p].cnt <= PerArena(H.headers[p].d)
  {
    InvParts(H, others);
    DInRange(H, p);
    SizesNonNegative(H.headers[p].d);
    hide Inv, HeadersOk, BitsOk, Lists, Accounted, LiveOk, BlockAddr;
    assert CountOk(H, p);
    CountAll(H.free[H.headers[p].d], p, H.headers[p].d, PerArena(H.headers[p].d));
  }

  lemma AllUsed(hs: Headers, p: nat, n: nat)
    requires InUseBut(hs, p) && p in hs && hs[p].Small? && n == PerArena(hs[p].d) && hs[p].cnt <= n && hs[p].cnt != n
    ensures AllInUse(hs)
  {
  }

  lemma LargeFinishes(H: Heap, p: nat, n: nat, size: nat, others: seq<bool>)
    requires Inv(H, others) && AllInUse(H.headers) && n > 0 && FirstFit(H.bits, p, n)
    requires size + 16 <= n * PG_SIZE || Wraps(size)
    ensures p + n <= |H.bits| && LargePtr(p) !in H.live
    ensures NewLarge(H, p, n, size)
            == Heap(Filled(H.bits, p, n, true), H.headers[p := Large(n)], H.free, H.live[LargePtr(p) := size])
    ensures Inv(NewLarge(H, p, n, size), others) && AllInUse(NewLarge(H, p, n, size).headers)
  {
    FitIs(H.bits, p, n);
    hide Inv, AllInUse, FirstFit, Wraps, Filled, LargePtr;
    NewLargeKeeps(H, p, n, size, others);
    LargeIsNew(H, p, n, others);
  }

  lemma FreeFinishes(H: Heap, p: nat, others: seq<bool>)
    requires Inv(H, others) && AllInUse(H.headers) && IsLarge(H, p)
    ensures p in H.headers && H.headers[p].Large? && p + H.headers[p].pages <= |H.bits|
    ensures forall k :: p <= k < p + H.headers[p].pages ==> H.bits[k]
    ensures FreeLarge(H, p)
            == Heap(Filled(H.bits, p, H.headers[p].pages, false), H.headers - {p}, H.free, H.live - {LargePtr(p)})
    ensures Inv(FreeLarge(H, p), others) && AllInUse(FreeLarge(H, p).headers)
  {
    InvParts(H, others);
    HeldIsSet(H, p, others);
    hide Inv, AllInUse, HeadersOk, BitsOk, Lists, CountOk, Accounted, LiveOk, LargePtr, Filled;
    FreeLargeKeeps(H, p, others);
  }

  lemma PushFinishes(H: Heap, b: nat, d: nat, others: seq<bool>)
    requires Inv(H, others) && AllInUse(H.headers) && CanPush(H, b, d) && PageOf(b) in H.headers && H.headers[PageOf(b)].Small?
    requires d == H.headers[PageOf(b)].d
    ensures |H.free| == DESC_CNT && d < DESC_CNT && b !in H.free[d]
    ensures var p := PageOf(b);
            Push(H, b, d) == Heap(H.bits, H.headers[p := Small(d, H.headers[p].cnt + 1)], H.free[d := H.free[d] + [b]], H.live - {b})
    ensures Inv(Push(H, b, d), others) && InUseBut(Push(H, b, d).headers, PageOf(b))
  {
    hide Inv, AllInUse, PageOf, BlockOf, InUseBut;
    PushKeeps(H, b, d, others);
  }

  lemma DropFinishes(H: Heap, p: nat, d: nat, others: seq<bool>)
    requires Inv(H, others) && InUseBut(H.headers, p) && d < DESC_CNT && p in H.headers && H.headers[p].Small?
    requires H.headers[p].d == d && H.headers[p].cnt == PerArena(d)
    ensures |H.free| == DESC_CNT && p + 1 <= |H.bits| && (forall k :: p <= k < p + 1 ==> H.bits[k]) && IsFull(H, p, d)
    ensures forall i: nat :: i < PerArena(d) ==> BlockAddr(p, d, i) in H.free[d]
    ensures PerArena(d) >= 0 && Drop(H, p, d)
            == Heap(Filled(H.bits, p, 1, false), H.headers - {p}, H.free[d := Minus(H.free[d], Blocks(p, d, PerArena(d)))], H.live)
    ensures Inv(Drop(H, p, d), others) && AllInUse(Drop(H, p, d).headers)
  {
    InvParts(H, others);
    HeldIsSet(H, p, others);
    SizesNonNegative(d);
    hide Inv, AllInUse, InUseBut, HeadersOk, BitsOk, Lists, Accounted, LiveOk, BlockAddr, PerArena, BlockSize, Blocks, Filled, Minus;
    assert IsFull(H, p, d);
    AllBlocksFree(H, p, d);
    hide CountOk;
    DropKeeps(H, p, d, others);
  }

  lemma OneBit(bits: seq<bool>, p: nat)
    requires FirstFit(bits, p, 1)
    ensures p < |bits| && !bits[p]
  {
  }

  lemma NotYet(p: nat, d: nat, i: nat)
    ensures BlockAddr(p, d, i) !in Blocks(p, d, i)
  {
    forall j | 0 <= j < i ensures Blocks(p, d, i)[j] != BlockAddr(p, d, i) {
      SizesPositive(d);
      BlocksApart(p, d, j, i);
    }
  }

  lemma EmptyOk(H: Heap, others: seq<bool>)
    requires H.headers == map[] && H.live == map[] && H.bits == others && H.free == [[], [], [], [], [], [], []]
    ensures Inv(H, others) && AllInUse(H.headers)
  {
    forall k: nat ensures !Owned(H.headers, k) { }
  }

  /** mem_desc_init */
  method MemDescInit() returns (sizes: seq<nat>, counts: seq<nat>)
    ensures |sizes| == DESC_CNT && |counts| == DESC_CNT
    ensures forall d: nat :: d < DESC_CNT ==> sizes[d] == BlockSize(d) && counts[d] == PerArena(d)
  {
    var blockSize: nat := 16;
    var i: nat := 0;
    sizes, counts := [], [];
    while i != DESC_CNT
      invariant i <= DESC_CNT && |sizes| == i && |counts| == i && blockSize == BlockSize(i)
      invariant forall d: nat :: d < i ==> sizes[d] == BlockSize(d) && counts[d] == PerArena(d)
    {
      Sizes(i);
      sizes := sizes + [blockSize];
      counts := counts + [(PG_SIZE - 16) / blockSize];
      blockSize := blockSize * 2;
      i := i + 1;
    }
  }
}
