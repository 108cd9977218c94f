/** Runs of sys_malloc and sys_free. */
module HeapRuns {
  import opened Basics
  import opened Bitmaps
  import opened AddressSpaces
  import opened KernelHeap
  import opened Arenas
  import opened ArenaSteps
  import opened ArenaHeap
  import opened Runs

  /** A pool with its headers, lists and allocations, the pages of it that others have, and the address spaces. */
  datatype HeapState = HeapState(H: Heap, others: seq<bool>, w: World, root: nat, win: Window)

  datatype HeapCall = Malloc(size: nat) | Free(ptr: nat)

  ghost predicate HeapInv(S: HeapState) {
    && Inv(S.H, S.others) && AllInUse(S.H.headers)
    && Shared(S.w) && HeapOk(S.w, S.root, S.win, S.H.bits) && Mine(S.w, S.root, S.win, S.H.bits, S.others)
  }

  /** A call that the kernel does not survive: no room for a new arena, no frame for a table, a scan past the bitmap, or
      a page count that has wrapped to 0. */
  ghost predicate HeapStop(S: HeapState, c: HeapCall) {
    c.Malloc? && c.size < WORD && if c.size > 1024 then LargeEnds(S, PageCount(c.size)) else SmallEnds(S, c.size)
  }

  ghost predicate LargeEnds(S: HeapState, n: nat) {
    ScanOverruns(S.H.bits, n) || TableShort(S.w, S.root, S.win, S.H.bits, n) || (n == 0 && Fits(S.w, S.root, S.win, S.H.bits, n))
  }

  ghost predicate SmallEnds(S: HeapState, size: nat) {
    exists d: nat :: LeastClass(size, d) && NoBlock(S, d)
  }

  ghost predicate NoBlock(S: HeapState, d: nat) {
    d < |S.H.free| && S.H.free[d] == [] && !Fits(S.w, S.root, S.win, S.H.bits, 1)
  }

  /** What sys_malloc does otherwise: an address, or NULL with a run of pages lost if there was one. */
  ghost predicate Malloced(S: HeapState, S': HeapState, size: nat, o: Outcome) {
    && Expected(S.H, S.w, S.root, S.win, size, o) && (o.Ptr? || o.Null?)
    && (o.Ptr? ==> o.a !in S.H.live && S'.others == S.others
                   && MemTook(S.w, S'.w, S.root, S.win, S.H.bits, S'.H.bits)
                   && if size > 1024 then TookPages(S.H, S'.H, size, o.a) else TookBlock(S.H, S'.H, size, o.a))
    && (o.Null? ==> if HasRun(S.H.bits, PageCount(size))
                    then LostRun(S.H, S'.H, S.others, S'.others, PageCount(size)) && MemLost(S.w, S'.w, S.root, S.win, S.H.bits, PageCount(size))
                    else S' == S)
  }

  ghost predicate HeapStep(S: HeapState, c: HeapCall, S': HeapState) {
    && S'.root == S.root && S'.win == S.win
    && match c
       case Malloc(size) => if size < WORD then exists o :: Malloced(S, S', size, o) else S' == S
       case Free(ptr) =>
         if ptr in S.H.live
         then S'.H == Freed(S.H, ptr) && S'.others == S.others && MemGave(S.w, S'.w, S.root, S.win, S.H.bits, S'.H.bits)
         else S' == S
  }

  /** The allocator is in state `S`. */
  ghost predicate Now(a: Allocator, S: HeapState)
    reads a, a.memory, a.memory.pool.bits, a.vpool.bits
  {
    a.Valid() && S == HeapState(a.State(), a.others, a.memory.State(), a.memory.root, a.win)
  }

  lemma NowFacts(a: Allocator, S: HeapState)
    requires Now(a, S)
    ensures a.Valid() && S.H == a.State() && S.others == a.others && S.w == a.memory.State() && S.root == a.memory.root && S.win == a.win
    ensures S.H.live == a.live
  {
  }

  lemma IsNow(a: Allocator)
    requires a.Valid()
    ensures Now(a, HeapState(a.State(), a.others, a.memory.State(), a.memory.root, a.win))
    ensures HeapInv(HeapState(a.State(), a.others, a.memory.State(), a.memory.root, a.win))
  {
    a.ValidFacts();
    a.BackedFacts(a.others);
    a.memory.OkFacts();
    hide Inv, AllInUse, Mine, HeapOk, Shared, KernelTop;
  }

  lemma OneLeast(size: nat, d: nat, e: nat)
    requires LeastClass(size, d) && LeastClass(size, e)
    ensures d == e
  {
    hide BlockSize;
  }

  /** The outcomes after which the kernel does not go on are those of HeapStop. */
  lemma EndsExactly(S: HeapState, size: nat, o: Outcome)
    requires Expected(S.H, S.w, S.root, S.win, size, o) && size < WORD
    ensures HeapStop(S, Malloc(size)) <==> o.Panic? || o.PastEnd? || o.Fault?
  {
    if size > 1024 {
      hide Fits, TableShort, PageShort, HasRun, ScanOverruns, PageCount;
    } else {
      var d: nat :| LeastClass(size, d) && ClassExpected(S.H, S.w, S.root, S.win, d, o);
      forall e: nat | LeastClass(size, e) ensures e == d { OneLeast(size, d, e); }
      OverrunNoFit(S, 1);
      hide LeastClass, Fits, ScanOverruns;
    }
  }

  lemma OverrunNoFit(S: HeapState, n: nat)
    ensures ScanOverruns(S.H.bits, n) ==> !Fits(S.w, S.root, S.win, S.H.bits, n)
  {
    OverrunIsNoRun(S.H.bits, n);
    if !HasRun(S.H.bits, n) { NoVerdict(S.w, S.root, S.win, S.H.bits, n); }
  }

  method DoMalloc(a: Allocator, size: nat, ghost S: HeapState) returns (r: Outcome, ghost S': HeapState)
    requires Now(a, S) && size < WORD
    modifies a, a.vpool.bits, a.memory`mem, a.memory.pool.bits
    ensures (r.Panic? || r.PastEnd? || r.Fault?) <==> HeapStop(S, Malloc(size))
    ensures r.Ptr? || r.Null? ==> Now(a, S') && HeapInv(S') && HeapStep(S, Malloc(size), S')
    ensures r.Ptr? ==> S'.H.live == S.H.live[r.a := size]
    ensures r.Null? ==> S'.H.live == S.H.live
  {
    hide *;
    NowFacts(a, S);
    r := a.SysMalloc(size, S.H, S.w);
    EndsExactly(S, size, r);
    S' := S;
    if r.Ptr? || r.Null? {
      S' := HeapState(a.State(), a.others, a.memory.State(), a.memory.root, a.win);
      IsNow(a);
      NowFacts(a, S');
      IsMalloced(S, S', size, r);
    }
  }

  lemma IsMalloced(S: HeapState, S': HeapState, size: nat, o: Outcome)
    requires Expected(S.H, S.w, S.root, S.win, size, o) && (o.Ptr? || o.Null?) && size < WORD && S'.root == S.root && S'.win == S.win
    requires o.Ptr? ==> o.a !in S.H.live && S'.others == S.others
    requires o.Ptr? ==> if size > 1024 then TookPages(S.H, S'.H, size, o.a) else TookBlock(S.H, S'.H, size, o.a)
    requires o.Null? && HasRun(S.H.bits, PageCount(size)) ==> LostRun(S.H, S'.H, S.others, S'.others, PageCount(size))
    requires o.Null? && !HasRun(S.H.bits, PageCount(size)) ==> S'.H == S.H && S'.others == S.others && S'.w == S.w
    requires o.Ptr? ==> MemTook(S.w, S'.w, S.root, S.win, S.H.bits, S'.H.bits)
    requires o.Null? && HasRun(S.H.bits, PageCount(size)) ==> MemLost(S.w, S'.w, S.root, S.win, S.H.bits, PageCount(size))
    ensures HeapStep(S, Malloc(size), S')
  {
    hide Expected, TookPages, TookBlock, LostRun, HasRun, PageCount, MemTook, MemLost;
    assert Malloced(S, S', size, o);
  }

  method DoFree(a: Allocator, ptr: nat, mine: set<nat>, ghost S: HeapState) returns (ghost S': HeapState)
    requires Now(a, S) && mine == S.H.live.Keys
    modifies a, a.vpool.bits, a.memory`mem, a.memory.pool.bits
    ensures Now(a, S') && HeapInv(S') && HeapStep(S, Free(ptr), S') && S'.H.live.Keys == mine - {ptr}
  {
    hide *;
    NowFacts(a, S);
    if ptr in mine {
      a.SysFree(ptr, S.H, S.w);
    }
    S' := HeapState(a.State(), a.others, a.memory.State(), a.memory.root, a.win);
    IsNow(a);
    NowFacts(a, S');
    FreeStep(S, S', ptr);
  }

  lemma FreeStep(S: HeapState, S': HeapState, ptr: nat)
    requires S'.root == S.root && S'.win == S.win
    requires if ptr in S.H.live
             then S'.H == Freed(S.H, ptr) && S'.others == S.others && MemGave(S.w, S'.w, S.root, S.win, S.H.bits, S'.H.bits)
             else S' == S
    ensures HeapStep(S, Free(ptr), S')
  {
    hide Freed, MemGave;
  }

  /** With nothing live the pool marks exactly the pages of others. */
  lemma NothingLive(S: HeapState)
    requires HeapInv(S) && S.H.live == map[]
    ensures S.H.bits == S.others && S.H.headers == map[]
  {
    hide Inv, AllInUse, Shared, HeapOk, Mine;
    AllFreedRestores(S.H, S.others);
  }

  /** Over every run of sys_malloc and sys_free the allocator is in order, and when everything is freed its bitmap is
      what it was, but for the runs of pages lost when frames ran out.  The run ends exactly where the kernel does. */
  method RunHeap(a: Allocator, calls: seq<HeapCall>) returns (done: nat, ghost states: seq<HeapState>)
    requires a.Valid() && a.live == map[]
    modifies a, a.vpool.bits, a.memory`mem, a.memory.pool.bits
    ensures Ran(HeapInv, HeapStop, HeapStep, states, calls, done)
    ensures |states| == done + 1 && states[0] == old(HeapState(a.State(), a.others, a.memory.State(), a.memory.root, a.win))
    ensures done == |calls| ==> Now(a, states[done])
    ensures forall i :: 0 <= i <= done && states[i].H.live == map[] && states[i].others == states[0].others ==>
              states[i].H.bits == states[0].H.bits && states[i].H.headers == map[]
  {
    hide *;
    done := 0;
    ghost var S := HeapState(a.State(), a.others, a.memory.State(), a.memory.root, a.win);
    IsNow(a);
    NowFacts(a, S);
    states := [S];
    Starts(HeapInv, HeapStop, HeapStep, calls, S);
    var mine: set<nat> := {};
    while done < |calls|
      invariant done <= |calls| && SoFar(HeapInv, HeapStop, HeapStep, states, calls, done) && |states| == done + 1
      invariant Now(a, states[done]) && mine == states[done].H.live.Keys && states[0] == S
    {
      ghost var S0, S1 := states[done], states[done];
      NowFacts(a, S0);
      var stopped := false;
      match calls[done] {
        case Malloc(size) =>
          if size < WORD {
            var r;
            r, S1 := DoMalloc(a, size, S0);
            stopped := !r.Ptr? && !r.Null?;
            mine := if r.Ptr? then mine + {r.a} else mine;
          } else {
            TooLarge(S0, size);
            IsNow(a);
          }
        case Free(ptr) =>
          S1 := DoFree(a, ptr, mine, S0);
          mine := mine - {ptr};
          FreeGoesOn(S0, ptr);
      }
      if stopped {
        Stopped(HeapInv, HeapStop, HeapStep, states, calls, done);
        Emptied(calls, states, done);
        return;
      }
      Further(HeapInv, HeapStop, HeapStep, states, calls, done, S1);
      states := states + [S1];
      done := done + 1;
    }
    Stopped(HeapInv, HeapStop, HeapStep, states, calls, done);
    Emptied(calls, states, done);
  }

  lemma TooLarge(S: HeapState, size: nat)
    requires size >= WORD
    ensures !HeapStop(S, Malloc(size)) && HeapStep(S, Malloc(size), S)
  {
  }

  lemma FreeGoesOn(S: HeapState, ptr: nat)
    ensures !HeapStop(S, Free(ptr))
  {
  }

  lemma Emptied(calls: seq<HeapCall>, states: seq<HeapState>, done: nat)
    requires SoFar(HeapInv, HeapStop, HeapStep, states, calls, done) && |states| == done + 1 && states[0].H.live == map[]
    ensures forall i :: 0 <= i <= done && states[i].H.live == map[] && states[i].others == states[0].others ==>
              states[i].H.bits == states[0].H.bits && states[i].H.headers == map[]
  {
    hide HeapInv, HeapStop, HeapStep;
    forall i | 0 <= i <= done && states[i].H.live == map[] ensures states[i].H.bits == states[i].others && states[i].H.headers == map[] {
      NothingLive(states[i]);
    }
  }
}
