/** Runs of alloc_pages, free_pages, create_pml4 and get_pages over the address spaces, and of sys_malloc and sys_free. */
module MemoryRuns {
  import opened Basics
  import opened Bitmaps
  import opened Paging
  import opened AddressSpaces
  import opened KernelHeap
  import opened BootTables
  import opened Runs

  // ---- pages and address spaces ----

  /** All address spaces, the one that is loaded, the list of all (the boot space first), and the kernel's pool. */
  datatype PageState = PageState(w: World, root: nat, spaces: seq<nat>, vbits: seq<bool>)

  /** alloc_pages and free_pages on the kernel's pool, create_pml4, the loading of a space, and a page of get_pages. */
  datatype PageCall = Take(cnt: nat) | Give(first: nat, cnt: nat) | Make | Load(j: nat) | Touch(v: bv64)

  /** All spaces are in order and share the kernel half, and in the one loaded, so in all, a page of the kernel's pool
      is mapped iff its bit is set. */
  ghost predicate PagesInv(S: PageState) {
    && Shared(S.w) && S.w.Space(S.root) && KernelTop(S.w) && AllSpaces(S.w, S.spaces)
    && HeapOk(S.w, S.root, Kernel, S.vbits) && BitsMatch(S.w, S.root, Kernel, S.vbits)
  }

  ghost predicate AllSpaces(w: World, spaces: seq<nat>) {
    forall r :: r in spaces <==> w.Space(r)
  }

  /** The scan overruns the bitmap, or the frames are too few for the pages and their tables. */
  ghost predicate Short(S: PageState, cnt: nat) {
    ScanOverruns(S.vbits, cnt) || (HasRun(S.vbits, cnt) && !Fits(S.w, S.root, Kernel, S.vbits, cnt))
  }

  /** A user page is asked for in a created space, and a frame is left for it. */
  ghost predicate Touches(S: PageState, v: bv64) {
    S.root != S.w.boot && Idx(0, v) < 256 && ClearBits(S.w.bits) > 0
  }

  /** Where the kernel stops, or pages stay marked that are not mapped. */
  ghost predicate PagesStop(S: PageState, c: PageCall) {
    match c
    case Take(cnt) => Short(S, cnt)
    case Make => Short(S, 1)
    case Touch(v) => Touches(S, v) && (Translate(S.w.mem, S.root, v).Some? || ClearBits(S.w.bits) < 4 - Stat(S.w.mem, S.root, v))
    case _ => false
  }

  ghost predicate Held(S: PageState, first: nat, cnt: nat) {
    first + cnt <= |S.vbits| && forall k :: first <= k < first + cnt ==> S.vbits[k]
  }

  /** Only frames are taken, and only the tables of the space that is loaded edited. */
  ghost predicate Linked(S: PageState, S': PageState) {
    exists steps :: RunIn(S.w, S.root, steps, S'.w)
  }

  /** The first free frames are taken, one a page and one a missing table. */
  ghost predicate TookFrames(S: PageState, S': PageState, first: nat, cnt: nat) {
    S'.w.bits == TakeFirst(S.w.bits, cnt + |Absent(S.w, S.root, Kernel, first, cnt)|)
  }

  ghost predicate Took(S: PageState, S': PageState, cnt: nat) {
    exists first: nat :: TookAt(S, S', first, cnt)
  }

  ghost predicate TookAt(S: PageState, S': PageState, first: nat, cnt: nat) {
    && FirstFit(S.vbits, first, cnt) && PagesAdded(S.w, S'.w, S.root, Kernel, first, cnt) && TookFrames(S, S', first, cnt)
    && first + cnt <= |S.vbits| && S' == PageState(S'.w, S.root, S.spaces, Filled(S.vbits, first, cnt, true))
  }

  ghost predicate Gave(S: PageState, S': PageState, first: nat, cnt: nat) {
    && first + cnt <= |S.vbits| && PagesRemoved(S.w, S'.w, S.root, Kernel, first, cnt) && S'.w.bits == S.w.bits
    && S' == PageState(S'.w, S.root, S.spaces, Filled(S.vbits, first, cnt, false))
  }

  ghost predicate Made(S: PageState, S': PageState) {
    exists first: nat, n: nat :: MadeAt(S, S', first, n)
  }

  ghost predicate MadeAt(S: PageState, S': PageState, first: nat, n: nat) {
    && FirstFit(S.vbits, first, 1) && PagesAdded(S.w, S'.w, S.root, Kernel, first, 1) && TookFrames(S, S', first, 1)
    && NewSpace(S.w, S'.w, S.root, HeapPath(Kernel, first), n)
    && first + 1 <= |S.vbits| && S' == PageState(S'.w, S.root, S.spaces + [n], Filled(S.vbits, first, 1, true))
  }

  /** What a call does that does not stop. */
  ghost predicate PagesStep(S: PageState, c: PageCall, S': PageState) {
    && Linked(S, S')
    && match c
       case Take(cnt) => if HasRun(S.vbits, cnt) then Took(S, S', cnt) else S' == S
       case Give(first, cnt) => if Held(S, first, cnt) then Gave(S, S', first, cnt) else S' == S
       case Make => if HasRun(S.vbits, 1) then Made(S, S') else S' == S
       case Load(j) => S' == if j < |S.spaces| then S.(root := S.spaces[j]) else S
       case Touch(v) => if Touches(S, v) then TouchedAs(S, S', v) else S' == S
  }

  ghost predicate TouchedAs(S: PageState, S': PageState, v: bv64) {
    var stat := Stat(S.w.mem, S.root, v);
    S' == S.(w := S'.w) && GotPage(S.w, S'.w, S.root, v) && stat <= 3 && S'.w.bits == TakeFirst(S.w.bits, 4 - stat)
  }

  /** The memory, the kernel's pool and the list of spaces are those of `S`. */
  ghost predicate Now(m: Memory, vp: Bitmap, spaces: seq<nat>, S: PageState)
    reads m, m.pool.bits, vp.bits
  {
    S == PageState(m.State(), m.root, spaces, vp.Value()) && vp.bits != m.pool.bits
  }

  lemma NowFacts(m: Memory, vp: Bitmap, spaces: seq<nat>, S: PageState)
    requires Now(m, vp, spaces, S)
    ensures S.w == m.State() && S.root == m.root && S.spaces == spaces && S.vbits == vp.Value() && vp.bits != m.pool.bits
  {
  }

  lemma IsNow(m: Memory, vp: Bitmap, spaces: seq<nat>)
    requires vp.bits != m.pool.bits
    ensures Now(m, vp, spaces, PageState(m.State(), m.root, spaces, vp.Value()))
  {
  }

  lemma InvFacts(m: Memory, S: PageState)
    requires PagesInv(S) && S.w == m.State() && S.root == m.root
    ensures m.Ok() && Shared(S.w) && S.w.Space(S.root) && KernelTop(S.w) && WinOk(S.w, S.root, Kernel) && S.w.boot !in S.w.roots
    ensures HeapOk(S.w, S.root, Kernel, S.vbits) && BitsMatch(S.w, S.root, Kernel, S.vbits) && AllSpaces(S.w, S.spaces)
  {
    SpaceFacts(S.w, S.root);
    hide Shared, KernelTop, HeapOk, BitsMatch, AllSpaces;
    m.IsOk(S.w);
  }

  lemma IsInv(m: Memory, S: PageState)
    requires m.Ok() && S.w == m.State() && S.root == m.root && AllSpaces(S.w, S.spaces)
    requires HeapOk(S.w, S.root, Kernel, S.vbits) && BitsMatch(S.w, S.root, Kernel, S.vbits)
    ensures PagesInv(S)
  {
    hide Shared, KernelTop, HeapOk, BitsMatch, AllSpaces;
  }

  lemma SameSpaces(w: World, w': World, spaces: seq<nat>)
    requires AllSpaces(w, spaces) && w'.boot == w.boot && w'.roots == w.roots
    ensures AllSpaces(w', spaces)
  {
  }

  lemma OneSpaceMore(w: World, w': World, spaces: seq<nat>, n: nat)
    requires AllSpaces(w, spaces) && w'.boot == w.boot && w'.roots == w.roots + {n}
    ensures AllSpaces(w', spaces + [n])
  {
    forall r ensures r in spaces + [n] <==> w'.Space(r) {
      assert r in spaces <==> w.Space(r);
    }
  }

  lemma IsLinked(S: PageState, S': PageState, steps: seq<Step>)
    requires RunIn(S.w, S.root, steps, S'.w)
    ensures Linked(S, S')
  {
    hide RunIn;
  }

  method DoTake(m: Memory, vp: Bitmap, spaces: seq<nat>, cnt: nat, ghost S: PageState) returns (stopped: bool, ghost S': PageState)
    requires Now(m, vp, spaces, S) && PagesInv(S)
    modifies m`mem, m.pool.bits, vp.bits
    ensures stopped <==> PagesStop(S, Take(cnt))
    ensures !stopped ==> Now(m, vp, spaces, S') && PagesInv(S') && PagesStep(S, Take(cnt), S')
  {
    hide *;
    NowFacts(m, vp, spaces, S);
    InvFacts(m, S);
    var r; ghost var done, steps;
    r, done, steps := m.AllocPages(vp, Kernel, cnt, S.w, S.vbits);
    S' := PageState(m.State(), m.root, spaces, vp.Value());
    stopped := !r.Pages? && !r.NoRun?;
    TakeStops(S, cnt, r);
    IsNow(m, vp, spaces);
    if !stopped {
      PoolOf(S.w, S'.w);
      SameSpaces(S.w, S'.w, spaces);
      IsInv(m, S');
      IsLinked(S, S', steps);
      if r.Pages? { TookRun(S, S', cnt, r, done); }
      TakeStep(S, S', cnt);
    }
  }

  lemma TakeStops(S: PageState, cnt: nat, r: PagesOutcome)
    requires r.Overrun? <==> ScanOverruns(S.vbits, cnt)
    requires r.NoRun? <==> !HasRun(S.vbits, cnt) && !ScanOverruns(S.vbits, cnt)
    requires r.Pages? <==> Fits(S.w, S.root, Kernel, S.vbits, cnt)
    ensures PagesStop(S, Take(cnt)) <==> !r.Pages? && !r.NoRun?
    ensures Short(S, cnt) <==> !r.Pages? && !r.NoRun?
    ensures r.NoRun? ==> !HasRun(S.vbits, cnt)
    ensures r.Pages? ==> HasRun(S.vbits, cnt)
  {
    if !HasRun(S.vbits, cnt) { NoVerdict(S.w, S.root, Kernel, S.vbits, cnt); }
    OverrunIsNoRun(S.vbits, cnt);
    hide Fits, HasRun, ScanOverruns;
  }

  lemma TookRun(S: PageState, S': PageState, cnt: nat, r: PagesOutcome, done: nat)
    requires r.Pages? && FirstFit(S.vbits, r.first, cnt) && Mapping(S.w, S'.w, S.root, Kernel, cnt, r, done)
    requires r.first + cnt <= |S.vbits| ==> S' == PageState(S'.w, S.root, S.spaces, Filled(S.vbits, r.first, cnt, true))
    ensures Took(S, S', cnt)
  {
    FitFacts(S.vbits, r.first, cnt);
    hide FirstFit, PagesAdded, Served, Absent, ClearBits, Filled, TakeFirst;
    assert TookAt(S, S', r.first, cnt);
  }

  lemma TakeStep(S: PageState, S': PageState, cnt: nat)
    requires Linked(S, S') && if HasRun(S.vbits, cnt) then Took(S, S', cnt) else S' == S
    ensures PagesStep(S, Take(cnt), S')
  {
  }

  method DoGive(m: Memory, vp: Bitmap, spaces: seq<nat>, first: nat, cnt: nat, ghost S: PageState) returns (ghost S': PageState)
    requires Now(m, vp, spaces, S) && PagesInv(S)
    modifies m`mem, m.pool.bits, vp.bits
    ensures Now(m, vp, spaces, S') && PagesInv(S') && PagesStep(S, Give(first, cnt), S')
  {
    hide *;
    NowFacts(m, vp, spaces, S);
    InvFacts(m, S);
    var held := AllMarked(vp, first, cnt);
    HeldIs(S, first, cnt);
    ghost var steps := [];
    RunInNone(S.w, S.root);
    if held {
      MarkedIsMapped(S.w, S.root, S.vbits, first, cnt);
      steps := m.FreePages(vp, Kernel, first, cnt, S.w, S.vbits);
    }
    S' := PageState(m.State(), m.root, spaces, vp.Value());
    IsNow(m, vp, spaces);
    if held {
      PoolOf(S.w, S'.w);
      SameSpaces(S.w, S'.w, spaces);
    }
    IsInv(m, S');
    IsLinked(S, S', steps);
    GiveStep(S, S', first, cnt);
  }

  method AllMarked(vp: Bitmap, first: nat, cnt: nat) returns (held: bool)
    ensures held <==> first + cnt <= |vp.Value()| && forall k :: first <= k < first + cnt ==> vp.Value()[k]
  {
    hide *;
    if first + cnt > 8 * vp.bits.Length { return false; }
    for i := 0 to cnt
      invariant forall k :: first <= k < first + i ==> vp.Value()[k]
    {
      var b := vp.Read(first + i);
      if !b { return false; }
    }
    held := true;
  }

  lemma HeldIs(S: PageState, first: nat, cnt: nat)
    ensures Held(S, first, cnt) <==> first + cnt <= |S.vbits| && forall k :: first <= k < first + cnt ==> S.vbits[k]
  {
  }

  lemma MarkedIsMapped(w: World, r: nat, vbits: seq<bool>, first: nat, cnt: nat)
    requires BitsMatch(w, r, Kernel, vbits) && first + cnt <= |vbits| && forall k :: first <= k < first + cnt ==> vbits[k]
    ensures forall k :: first <= k < first + cnt ==> HeapMapped(w, r, Kernel, k)
  {
    hide HeapMapped;
  }

  lemma GiveStep(S: PageState, S': PageState, first: nat, cnt: nat)
    requires Linked(S, S')
    requires if Held(S, first, cnt) then
               first + cnt <= |S.vbits| && PagesRemoved(S.w, S'.w, S.root, Kernel, first, cnt) && S'.w.bits == S.w.bits
               && S' == PageState(S'.w, S.root, S.spaces, Filled(S.vbits, first, cnt, false))
             else S' == S
    ensures PagesStep(S, Give(first, cnt), S')
  {
    hide Linked, Held, PagesRemoved, Filled;
  }

  method DoMake(m: Memory, vp: Bitmap, spaces: seq<nat>, ghost S: PageState) returns (stopped: bool, spaces': seq<nat>, ghost S': PageState)
    requires Now(m, vp, spaces, S) && PagesInv(S)
    modifies m`mem, m`roots, m.pool.bits, vp.bits
    ensures stopped <==> PagesStop(S, Make)
    ensures !stopped ==> Now(m, vp, spaces', S') && PagesInv(S') && PagesStep(S, Make, S')
  {
    hide *;
    NowFacts(m, vp, spaces, S);
    InvFacts(m, S);
    m.StateIs(S.w);
    var r, pml4; ghost var done, steps;
    r, pml4, done, steps := m.CreatePml4(vp, S.w, S.vbits);
    spaces' := if r.Pages? then spaces + [pml4] else spaces;
    S' := PageState(m.State(), m.root, spaces', vp.Value());
    stopped := !r.Pages? && !r.NoRun?;
    TakeStops(S, 1, r);
    MakeStops(S);
    IsNow(m, vp, spaces');
    if !stopped {
      m.StateIs(S'.w);
      if r.Pages? {
        NewRoots(S.w, S'.w, S.root, HeapPath(Kernel, r.first), pml4);
        OneSpaceMore(S.w, S'.w, spaces, pml4);
      }
      IsInv(m, S');
      IsLinked(S, S', steps);
      if r.Pages? { MadeSpace(S, S', r, done, pml4); }
      MakeStep(S, S');
    }
  }

  lemma NewRoots(w: World, w': World, r: nat, at: Path, n: nat)
    requires NewSpace(w, w', r, at, n)
    ensures w'.roots == w.roots + {n}
  {
  }

  lemma MakeStops(S: PageState)
    ensures PagesStop(S, Make) <==> Short(S, 1)
  {
  }

  lemma MadeSpace(S: PageState, S': PageState, r: PagesOutcome, done: nat, n: nat)
    requires r.Pages? && FirstFit(S.vbits, r.first, 1) && NewSpace(S.w, S'.w, S.root, HeapPath(Kernel, r.first), n)
    requires Mapping(S.w, S'.w, S.root, Kernel, 1, r, done)
    requires r.first + 1 <= |S.vbits| ==> S' == PageState(S'.w, S.root, S.spaces + [n], Filled(S.vbits, r.first, 1, true))
    ensures Made(S, S')
  {
    FitFacts(S.vbits, r.first, 1);
    hide FirstFit, NewSpace, Filled, HeapPath, PagesAdded, Served, Absent, ClearBits, TakeFirst;
    assert MadeAt(S, S', r.first, n);
  }

  lemma MakeStep(S: PageState, S': PageState)
    requires Linked(S, S') && if HasRun(S.vbits, 1) then Made(S, S') else S' == S
    ensures PagesStep(S, Make, S')
  {
  }

  method DoLoad(m: Memory, vp: Bitmap, spaces: seq<nat>, j: nat, ghost S: PageState) returns (ghost S': PageState)
    requires Now(m, vp, spaces, S) && PagesInv(S)
    modifies m`root
    ensures Now(m, vp, spaces, S') && PagesInv(S') && PagesStep(S, Load(j), S')
  {
    hide *;
    NowFacts(m, vp, spaces, S);
    InvFacts(m, S);
    HeapLen(S.w, S.root, S.vbits);
    if j < |spaces| {
      InSpaces(S.w, spaces, j);
      HeapEverywhere(S.w, S.root, spaces[j], S.vbits);
      m.SwitchTo(spaces[j], S.w);
    }
    S' := PageState(m.State(), m.root, spaces, vp.Value());
    IsNow(m, vp, spaces);
    IsInv(m, S');
    RunInNone(S.w, S.root);
    IsLinked(S, S', []);
    LoadStep(S, S', j);
  }

  lemma HeapLen(w: World, r: nat, vbits: seq<bool>)
    requires HeapOk(w, r, Kernel, vbits)
    ensures |vbits| <= 2048
  {
  }

  lemma InSpaces(w: World, spaces: seq<nat>, j: nat)
    requires AllSpaces(w, spaces) && j < |spaces|
    ensures w.Space(spaces[j])
  {
    assert spaces[j] in spaces;
  }

  lemma LoadStep(S: PageState, S': PageState, j: nat)
    requires Linked(S, S') && S' == if j < |S.spaces| then S.(root := S.spaces[j]) else S
    ensures PagesStep(S, Load(j), S')
  {
    hide Linked;
  }

  method DoTouch(m: Memory, vp: Bitmap, spaces: seq<nat>, v: bv64, ghost S: PageState) returns (stopped: bool, ghost S': PageState)
    requires Now(m, vp, spaces, S) && PagesInv(S)
    modifies m`mem, m.pool.bits
    ensures stopped <==> PagesStop(S, Touch(v))
    ensures !stopped ==> Now(m, vp, spaces, S') && PagesInv(S') && PagesStep(S, Touch(v), S')
  {
    hide *;
    NowFacts(m, vp, spaces, S);
    InvFacts(m, S);
    m.StateIs(S.w);
    TouchesIs(S, v);
    stopped := false;
    ghost var steps := [];
    RunInNone(S.w, S.root);
    if m.root != m.bootRoot && Idx(0, v) < 256 {
      LowPage(S.w, S.root, v);
      StatPresent(S.w.mem, S.root, v);
      var r;
      r, steps := m.GetPage(v, S.w);
      stopped := r == Clash || r == NoTables;
      S' := PageState(m.State(), m.root, spaces, vp.Value());
      if r == Got { UserStays(S.w, S'.w, S.root, v, S.vbits); }
      m.StateIs(S'.w);
    }
    S' := PageState(m.State(), m.root, spaces, vp.Value());
    IsNow(m, vp, spaces);
    if !stopped {
      SameSpaces(S.w, S'.w, spaces);
      IsInv(m, S');
      IsLinked(S, S', steps);
      TouchStep(S, S', v);
    }
  }

  lemma TouchesIs(S: PageState, v: bv64)
    ensures Touches(S, v) <==> S.root != S.w.boot && Idx(0, v) < 256 && ClearBits(S.w.bits) > 0
    ensures PagesStop(S, Touch(v)) <==>
            Touches(S, v) && (Translate(S.w.mem, S.root, v).Some? || ClearBits(S.w.bits) < 4 - Stat(S.w.mem, S.root, v))
  {
    hide Idx, ClearBits, Translate, Stat;
  }

  lemma LowPage(w: World, r: nat, v: bv64)
    requires w.Space(r) && r != w.boot && Idx(0, v) < 256
    ensures MapHere(w, r, v)
  {
    PathTop(v, 4);
    forall k | 0 <= k < 4 ensures PathOf(v, 4)[k] < 512 {
      PathOfAt(v, 4, k);
    }
    hide PathOf, Idx;
  }

  lemma UserStays(w: World, w': World, r: nat, v: bv64, vbits: seq<bool>)
    requires GotPage(w, w', r, v) && Idx(0, v) < 256 && SamePool(w, w') && w.boot !in w.roots
    requires HeapOk(w, r, Kernel, vbits) && BitsMatch(w, r, Kernel, vbits)
    ensures HeapOk(w', r, Kernel, vbits) && BitsMatch(w', r, Kernel, vbits)
  {
    hide Idx, HeapOk, BitsMatch, SamePool, PathOf, PagesBut, Fresh, Tab;
    var f: nat :| GotFrame(w, w', r, v, f);
    UserPageApart(w, w', r, v, Some(f), vbits);
  }

  lemma TouchStep(S: PageState, S': PageState, v: bv64)
    requires Linked(S, S') && S' == PageState(S'.w, S.root, S.spaces, S.vbits)
    requires Touches(S, v) ==> GotPage(S.w, S'.w, S.root, v) && Stat(S.w.mem, S.root, v) <= 3
    requires Touches(S, v) ==> S'.w.bits == TakeFirst(S.w.bits, 4 - Stat(S.w.mem, S.root, v))
    requires !Touches(S, v) ==> S'.w == S.w
    ensures PagesStep(S, Touch(v), S')
  {
    hide Linked, Touches, GotPage, Stat, TakeFirst;
  }

  /** Over every run of allocations, frees, creations of address spaces, switches between them and user pages, until the
      frames run out: all spaces share the kernel half, no frame backs two pages or, but for the PML4s, a page and a
      table, and a page of the kernel's pool is mapped iff its bit is set, so no assertion of page_map and free_pages
      fails.  The run ends exactly where the frames left are too few for the call. */
  method RunPages(m: Memory, vp: Bitmap, calls: seq<PageCall>) returns (done: nat, spaces: seq<nat>, ghost states: seq<PageState>)
    requires Now(m, vp, [m.bootRoot], PageState(m.State(), m.root, [m.bootRoot], vp.Value()))
    requires PagesInv(PageState(m.State(), m.root, [m.bootRoot], vp.Value()))
    modifies m, m.pool.bits, vp.bits
    ensures Ran(PagesInv, PagesStop, PagesStep, states, calls, done)
    ensures |states| == done + 1 && states[0] == old(PageState(m.State(), m.root, [m.bootRoot], vp.Value()))
    ensures done == |calls| ==> Now(m, vp, spaces, states[done])
  {
    hide *;
    spaces, done := [m.bootRoot], 0;
    ghost var S := PageState(m.State(), m.root, spaces, vp.Value());
    states := [S];
    Starts(PagesInv, PagesStop, PagesStep, calls, S);
    while done < |calls|
      invariant done <= |calls| && SoFar(PagesInv, PagesStop, PagesStep, states, calls, done) && |states| == done + 1
      invariant Now(m, vp, spaces, states[done]) && PagesInv(states[done]) && states[0] == S
    {
      var c := calls[done];
      var stopped := false;
      ghost var S0, S1 := states[done], states[done];
      match c {
        case Take(cnt) => stopped, S1 := DoTake(m, vp, spaces, cnt, S0);
        case Give(first, cnt) => S1 := DoGive(m, vp, spaces, first, cnt, S0); NeverStops(S0, c);
        case Make => stopped, spaces, S1 := DoMake(m, vp, spaces, S0);
        case Load(j) => S1 := DoLoad(m, vp, spaces, j, S0); NeverStops(S0, c);
        case Touch(v) => stopped, S1 := DoTouch(m, vp, spaces, v, S0);
      }
      if stopped {
        Stopped(PagesInv, PagesStop, PagesStep, states, calls, done);
        return;
      }
      Further(PagesInv, PagesStop, PagesStep, states, calls, done, S1);
      states := states + [S1];
      done := done + 1;
    }
    Stopped(PagesInv, PagesStop, PagesStep, states, calls, done);
  }

  lemma NeverStops(S: PageState, c: PageCall)
    requires c.Give? || c.Load?
    ensures !PagesStop(S, c)
  {
  }

  /** The boot tables over a free pool are a state to start from. */
  lemma BootPages(bits: seq<bool>, vbits: seq<bool>)
    requires |vbits| <= 2048 && forall k :: 0 <= k < |vbits| ==> !vbits[k]
    ensures PagesInv(PageState(BootWorld(bits), BOOT_PML4, [BOOT_PML4], vbits))
  {
    BootShared(bits, vbits);
    var w := BootWorld(bits);
    assert w.boot == BOOT_PML4 && w.roots == {};
    hide Shared, KernelTop, HeapOk, BitsMatch, BootWorld;
  }
}
