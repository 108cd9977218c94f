/** Address spaces: the boot tables and the PML4s that create_pml4 makes (userprog/process.c) live in one physical
    memory and share the tables of the kernel half, so kernel mappings made in any of them appear in all. */
module AddressSpaces {
  import opened Basics
  import opened Paging

  /** Physical memory, the boot PML4, the PML4s made by create_pml4, and the physical pool: its first frame and its
      bitmap. */
  datatype World = World(mem: Mem, boot: nat, roots: set<nat>, start: nat, bits: seq<bool>) {
    ghost predicate Space(r: nat) {
      r == boot || r in roots
    }
  }

  /** Frame `f` is outside the physical pool or its bit is set. */
  predicate Taken(start: nat, bits: seq<bool>, f: nat) {
    start <= f < start + |bits| ==> bits[f - start]
  }

  /** Every table and every mapped frame of a space is in use. */
  ghost predicate AllTaken(w: World, r: nat) {
    forall p :: Dom(r == w.boot, p) && Tab(w.mem, r, p).Some? ==> Taken(w.start, w.bits, Tab(w.mem, r, p).value)
  }

  ghost predicate OneSpace(w: World, r: nat) {
    && SelfMapped(w.mem, r) && Inj(w.mem, r, r == w.boot, 4) && AllTaken(w, r)
    && (forall i :: 256 <= i < 511 ==> Word(w.mem, r, i) == Word(w.mem, w.boot, i))
  }

  ghost predicate KernelPath(p: Path) {
    p != [] && p[0] >= 256
  }

  /** Where two spaces may have a frame in common: along one path through the kernel half, or as the PML4 of one of
      them that is a page. */
  ghost predicate MeetIn(p: Path, q: Path) {
    (p == q && KernelPath(p)) || (p == [] && |q| == 4) || (q == [] && |p| == 4)
  }

  ghost predicate TwoSpaces(w: World, r: nat, s: nat) {
    forall p, q ::
      (Dom(r == w.boot, p) && Dom(s == w.boot, q) && Tab(w.mem, r, p).Some? && Tab(w.mem, r, p) == Tab(w.mem, s, q))
      ==> MeetIn(p, q)
  }

  ghost predicate Shared(w: World) {
    && w.boot !in w.roots
    && (forall r :: w.Space(r) ==> OneSpace(w, r))
    && (forall r, s :: w.Space(r) && w.Space(s) && r != s ==> TwoSpaces(w, r, s))
  }

  /** A frame that is taken but in no space: ready to be mapped. */
  ghost predicate Spare(w: World, f: nat) {
    Taken(w.start, w.bits, f) && forall r :: w.Space(r) ==> !Reached(w.mem, r, r == w.boot, 4, f)
  }

  ghost predicate NoTable(w: World, f: nat) {
    forall r :: w.Space(r) ==> !Reached(w.mem, r, r == w.boot, 3, f)
  }

  /** What can happen to the tables and to the pool.  `Palloc` takes a frame; `Install` is one step of page_map running
      on space r: an entry of the table at path p receives a spare frame.  Kernel pages lie below an entry of the
      kernel half that is already there; user pages are mapped in created spaces only.  `Create` turns a frame that
      is in use, as a page or not at all, into a PML4. */
  datatype Step =
    | Palloc(f: nat)
    | Install(r: nat, p: Path, i: nat, n: nat)
    | Unmap(r: nat, p: Path, i: nat)
    | Create(r: nat, n: nat)

  ghost predicate Enabled(w: World, t: Step) {
    match t
    case Palloc(f) =>
      w.start <= f < w.start + |w.bits| && !w.bits[f - w.start]
    case Install(r, p, i, n) =>
      && w.Space(r) && Dom(r == w.boot, p + [i]) && Spare(w, n)
      && Tab(w.mem, r, p).Some? && Tab(w.mem, r, p + [i]).None?
      && (KernelPath(p) || (r in w.roots && (p + [i])[0] < 256))
    case Unmap(r, p, i) =>
      w.Space(r) && |p| == 3 && Dom(r == w.boot, p + [i]) && Tab(w.mem, r, p + [i]).Some?
    case Create(r, n) =>
      w.Space(r) && Taken(w.start, w.bits, n) && NoTable(w, n)
  }

  /** create_pml4: an empty low half, the upper half of the current PML4, and its own self-entry. */
  function NewPml4(mem: Mem, r: nat, n: nat): seq<nat> {
    seq(512, i requires 0 <= i < 512 => if i < 256 then 0 else if i == 511 then Entry(n) else Word(mem, r, i))
  }

  lemma EnabledIndex(w: World, t: Step)
    requires Enabled(w, t)
    ensures t.Install? ==> t.i < 512 && |t.p| <= 3 && Dom(t.r == w.boot, t.p)
    ensures t.Unmap? ==> t.i < 512 && Dom(t.r == w.boot, t.p) && Tab(w.mem, t.r, t.p).Some?
                         && Word(w.mem, Tab(w.mem, t.r, t.p).value, t.i) % 2 == 1
  {
    if t.Install? {
      hide Spare;
      DomPrefix(t.r == w.boot, t.p, t.i);
    } else if t.Unmap? {
      DomPrefix(t.r == w.boot, t.p, t.i);
      TabStep(w.mem, t.r, t.p, t.i);
    }
  }

  ghost function After(w: World, t: Step): World
    requires Enabled(w, t)
  {
    EnabledIndex(w, t);
    match t
    case Palloc(f) => w.(bits := w.bits[f - w.start := true])
    case Install(r, p, i, n) => w.(mem := Installed(w.mem, Tab(w.mem, r, p).value, i, n, |p| < 3))
    case Unmap(r, p, i) => w.(mem := Cleared(w.mem, Tab(w.mem, r, p).value, i))
    case Create(r, n) => w.(mem := w.mem[n := NewPml4(w.mem, r, n)], roots := w.roots + {n})
  }

  lemma SameRest(w: World, t: Step)
    requires Enabled(w, t)
    ensures var w' := After(w, t);
            w'.boot == w.boot && w'.start == w.start && |w'.bits| == |w.bits|
            && (!t.Palloc? ==> w'.bits == w.bits) && (!t.Create? ==> w'.roots == w.roots) && (t.Palloc? ==> w'.mem == w.mem)
            && (t.Create? ==> w'.roots == w.roots + {t.n})
  {
  }

  // ---- the kernel half is common to all spaces ----

  lemma {:induction false} KernelTab(w: World, r: nat, p: Path)
    requires Shared(w) && w.Space(r) && KernelPath(p) && p[0] < 511
    ensures Tab(w.mem, r, p) == Tab(w.mem, w.boot, p)
  {
    var i := p[|p| - 1];
    var q := p[..|p| - 1];
    assert p == q + [i];
    TabStep(w.mem, r, q, i);
    TabStep(w.mem, w.boot, q, i);
    if |p| == 1 {
      assert q == [] && i == p[0];
      assert OneSpace(w, r);
      assert Word(w.mem, r, i) == Word(w.mem, w.boot, i);
    } else {
      KernelTab(w, r, q);
    }
  }

  /** Every address of the kernel half outside the recursive window translates alike in all spaces. */
  lemma KernelHalfAgrees(w: World, r: nat, v: bv64)
    requires Shared(w) && w.Space(r) && 256 <= Idx(0, v) < 511
    ensures Translate(w.mem, r, v) == Translate(w.mem, w.boot, v)
  {
    PathOfAt(v, 4, 0);
    hide Tab, PathOf, Shared;
    KernelTab(w, r, PathOf(v, 4));
  }

  // ---- every step keeps the sharing ----

  lemma TwoOf(w: World, r: nat, s: nat)
    requires Shared(w) && w.Space(r) && w.Space(s)
    ensures OneSpace(w, r) && (r != s ==> TwoSpaces(w, r, s))
  {
    hide OneSpace, TwoSpaces;
  }

  /** Where two paths, of one space or of two, may meet. */
  lemma MeetsAt(w: World, r: nat, s: nat, p: Path, q: Path)
    requires Shared(w) && w.Space(r) && w.Space(s) && Dom(r == w.boot, p) && Dom(s == w.boot, q)
    requires Tab(w.mem, r, p).Some? && Tab(w.mem, r, p) == Tab(w.mem, s, q)
    ensures if r == s then Meet(p, q) else MeetIn(p, q)
  {
    TwoOf(w, r, s);
    DomShort(r == w.boot, p);
    DomShort(s == w.boot, q);
    hide Tab, Dom, Shared, SelfMapped, AllTaken, Meet, MeetIn;
  }

  /** The table that a space reaches at `p` is in another space at `p` too or not at all. */
  lemma OnlyAtThere(w: World, r: nat, p: Path, s: nat)
    requires Shared(w) && w.Space(r) && w.Space(s) && Dom(r == w.boot, p) && |p| <= 3 && Tab(w.mem, r, p).Some?
    ensures OnlyAt(w.mem, s, s == w.boot, Tab(w.mem, r, p).value, p)
  {
    var f := Tab(w.mem, r, p);
    hide Tab, Dom, Shared;
    forall q | Dom(s == w.boot, q) && |q| <= 3 && Tab(w.mem, s, q) == f ensures q == p {
      MeetsAt(w, r, s, p, q);
    }
  }

  lemma RootHere(w: World, s: nat)
    ensures Tab(w.mem, s, []) == Some(s) && Dom(s == w.boot, [])
  {
  }

  lemma Unreached(w: World, s: nat, n: nat)
    requires w.Space(s) && Spare(w, n)
    ensures !Reached(w.mem, s, s == w.boot, 4, n) && !Reached(w.mem, s, s == w.boot, 3, n) && n != s
  {
    RootHere(w, s);
    NotReachedBelow(w.mem, s, s == w.boot, 4, n);
    hide Tab, Dom;
  }

  /** What an installed entry does to the paths of any space. */
  ghost predicate InstallSeen(w: World, t: Step, s: nat)
    requires Enabled(w, t) && t.Install?
  {
    forall q :: Dom(s == w.boot, q) ==>
      Tab(After(w, t).mem, s, q) ==
      if Tab(w.mem, s, t.p) == Tab(w.mem, t.r, t.p) && q == t.p + [t.i] then Some(t.n) else Tab(w.mem, s, q)
  }

  lemma InstallParts(w: World, t: Step)
    requires Enabled(w, t) && t.Install?
    ensures w.Space(t.r) && Spare(w, t.n) && Tab(w.mem, t.r, t.p).Some? && Tab(w.mem, t.r, t.p + [t.i]).None?
    ensures Dom(t.r == w.boot, t.p + [t.i]) && Dom(t.r == w.boot, t.p) && t.i < 512 && |t.p| <= 3
    ensures KernelPath(t.p) || (t.r in w.roots && (t.p + [t.i])[0] < 256)
    ensures After(w, t).mem == Installed(w.mem, Tab(w.mem, t.r, t.p).value, t.i, t.n, |t.p| < 3)
  {
    EnabledIndex(w, t);
    hide Spare, Tab, Dom;
  }

  lemma InstallIn(w: World, t: Step, s: nat)
    requires Shared(w) && Enabled(w, t) && t.Install? && w.Space(s)
    ensures InstallSeen(w, t, s)
  {
    InstallParts(w, t);
    var f := Tab(w.mem, t.r, t.p).value;
    OnlyAtThere(w, t.r, t.p, s);
    Unreached(w, s, t.n);
    NotAmong(w, t.r, t.p, t.n);
    TabStep(w.mem, t.r, t.p, t.i);
    hide Tab, Dom, Shared, Next, Installed, Reached, Enabled, Spare;
    forall q | Dom(s == w.boot, q)
      ensures Tab(After(w, t).mem, s, q) ==
              if Tab(w.mem, s, t.p) == Tab(w.mem, t.r, t.p) && q == t.p + [t.i] then Some(t.n) else Tab(w.mem, s, q)
    {
      InstallEffect(w.mem, s, s == w.boot, f, t.p, t.i, t.n, |t.p| < 3, q);
    }
  }

  lemma NotAmong(w: World, r: nat, p: Path, n: nat)
    requires w.Space(r) && Dom(r == w.boot, p) && Tab(w.mem, r, p).Some? && Spare(w, n)
    ensures Tab(w.mem, r, p).value != n
  {
    Unreached(w, r, n);
    hide Tab, Spare;
  }

  /** The words of the upper half of a PML4 do not change, and none of the boot PML4. */
  lemma InstallUpper(w: World, t: Step, s: nat, j: nat)
    requires Shared(w) && Enabled(w, t) && t.Install? && w.Space(s) && j < 512 && (j >= 256 || s == w.boot)
    ensures Word(After(w, t).mem, s, j) == Word(w.mem, s, j)
  {
    InstallParts(w, t);
    var f := Tab(w.mem, t.r, t.p).value;
    OnlyAtThere(w, t.r, t.p, s);
    Unreached(w, s, t.n);
    RootHere(w, s);
    assert f == s ==> t.p == [] && s == t.r;
    assert t.p == [] ==> (t.p + [t.i])[0] == t.i;
    hide Tab, Dom, Enabled, Spare, OneSpace, TwoSpaces;
    WordWrite(w.mem, f, t.i, Entry(t.n), s, j);
    WordZeroed(Write(w.mem, f, t.i, Entry(t.n)), t.n, s, j);
  }

  lemma InstallOne(w: World, t: Step, s: nat)
    requires Shared(w) && Enabled(w, t) && t.Install? && w.Space(s)
    ensures OneSpace(After(w, t), s)
  {
    var w' := After(w, t);
    InstallIn(w, t, s);
    InstallParts(w, t);
    SameRest(w, t);
    TwoOf(w, s, s);
    Unreached(w, s, t.n);
    hide Shared, Tab, Dom, Spare, Reached, Installed;
    forall j | 256 <= j < 512
      ensures Word(w'.mem, s, j) == Word(w.mem, s, j) && Word(w'.mem, w.boot, j) == Word(w.mem, w.boot, j)
    {
      InstallUpper(w, t, s, j);
      InstallUpper(w, t, w.boot, j);
    }
    assert SelfMapped(w'.mem, s);
    TakenSpare(w, t.n);
    InstallInj(w, t, s, w');
  }

  lemma TakenSpare(w: World, n: nat)
    requires Spare(w, n)
    ensures Taken(w.start, w.bits, n)
  {
  }

  lemma InstallInj(w: World, t: Step, s: nat, w': World)
    requires Enabled(w, t) && t.Install? && w' == After(w, t) && InstallSeen(w, t, s) && OneSpace(w, s)
    requires !Reached(w.mem, s, s == w.boot, 4, t.n) && Taken(w.start, w.bits, t.n)
    ensures Inj(w'.mem, s, s == w.boot, 4) && AllTaken(w', s)
  {
    SameRest(w, t);
    hide Tab, Dom, SelfMapped, After, Enabled, Taken;
    forall p, q | Dom(s == w.boot, p) && Dom(s == w.boot, q) && |p| <= 4 && |q| <= 4 && Tab(w'.mem, s, p).Some?
      && Tab(w'.mem, s, p) == Tab(w'.mem, s, q)
      ensures Meet(p, q)
    {
      DomShort(s == w.boot, p);
      DomShort(s == w.boot, q);
    }
  }

  lemma DomShort(boot: bool, p: Path)
    requires Dom(boot, p)
    ensures |p| <= 4
  {
  }

  lemma InstallTwo(w: World, t: Step, r: nat, s: nat)
    requires Shared(w) && Enabled(w, t) && t.Install? && w.Space(r) && w.Space(s) && r != s
    ensures TwoSpaces(After(w, t), r, s)
  {
    var w' := After(w, t);
    InstallIn(w, t, r);
    InstallIn(w, t, s);
    TwoOf(w, r, s);
    Unreached(w, r, t.n);
    Unreached(w, s, t.n);
    SameRest(w, t);
    hide Tab, Dom, Shared, OneSpace, After, Enabled, MeetIn;
    forall p, q | Dom(r == w.boot, p) && Dom(s == w.boot, q) && Tab(w'.mem, r, p).Some? && Tab(w'.mem, r, p) == Tab(w'.mem, s, q)
      ensures MeetIn(p, q)
    {
      DomShort(r == w.boot, p);
      DomShort(s == w.boot, q);
      if p == q == t.p + [t.i] && Tab(w.mem, r, t.p) == Tab(w.mem, t.r, t.p) && Tab(w.mem, s, t.p) == Tab(w.mem, t.r, t.p) {
        SharedTop(w, t, r, s);
      }
    }
  }

  /** If both spaces have the changed table, it lies below the kernel half. */
  lemma SharedTop(w: World, t: Step, r: nat, s: nat)
    requires Shared(w) && Enabled(w, t) && t.Install? && w.Space(r) && w.Space(s) && r != s
    requires Dom(r == w.boot, t.p + [t.i]) && Dom(s == w.boot, t.p + [t.i])
    requires Tab(w.mem, r, t.p) == Tab(w.mem, t.r, t.p) && Tab(w.mem, s, t.p) == Tab(w.mem, t.r, t.p)
    ensures MeetIn(t.p + [t.i], t.p + [t.i])
  {
    DomPrefix(r == w.boot, t.p, t.i);
    DomPrefix(s == w.boot, t.p, t.i);
    InstallParts(w, t);
    TwoOf(w, r, s);
    hide Tab, Shared, OneSpace, Dom, Enabled;
    assert MeetIn(t.p, t.p);
    assert (t.p + [t.i])[0] == t.p[0];
  }

  lemma InstallShared(w: World, t: Step)
    requires Shared(w) && Enabled(w, t) && t.Install?
    ensures Shared(After(w, t))
  {
    var w' := After(w, t);
    SameRest(w, t);
    hide Tab, Dom, OneSpace, TwoSpaces, Enabled, After;
    forall r | w'.Space(r)
      ensures OneSpace(w', r)
    {
      InstallOne(w, t, r);
    }
    forall r, s | w'.Space(r) && w'.Space(s) && r != s
      ensures TwoSpaces(w', r, s)
    {
      InstallTwo(w, t, r, s);
    }
  }

  /** In the memory of w' no path of space s leads elsewhere than before, and the upper half of its PML4 is the same. */
  ghost predicate Fewer(w: World, mem': Mem, s: nat) {
    && (forall q :: Dom(s == w.boot, q) && Tab(mem', s, q).Some? ==> Tab(mem', s, q) == Tab(w.mem, s, q))
    && (forall j :: 256 <= j < 512 ==> Word(mem', s, j) == Word(w.mem, s, j))
  }

  lemma FewerOne(w: World, w': World, s: nat)
    requires OneSpace(w, s) && Fewer(w, w'.mem, s) && Fewer(w, w'.mem, w.boot)
    requires w'.boot == w.boot && w'.start == w.start && w'.bits == w.bits
    ensures OneSpace(w', s)
  {
    assert Word(w'.mem, s, 511) == Word(w.mem, s, 511);
    hide Tab, Dom, Taken;
  }

  lemma FewerTwo(w: World, w': World, r: nat, s: nat)
    requires TwoSpaces(w, r, s) && Fewer(w, w'.mem, r) && Fewer(w, w'.mem, s) && w'.boot == w.boot
    ensures TwoSpaces(w', r, s)
  {
    hide Tab, Dom, MeetIn;
  }

  /** What a cleared entry does to the paths of any space. */
  ghost predicate UnmapSeen(w: World, t: Step, s: nat)
    requires Enabled(w, t) && t.Unmap?
  {
    forall q :: Dom(s == w.boot, q) ==>
      Tab(After(w, t).mem, s, q) ==
      if Tab(w.mem, s, t.p) == Tab(w.mem, t.r, t.p) && q == t.p + [t.i] then None else Tab(w.mem, s, q)
  }

  lemma UnmapIn(w: World, t: Step, s: nat)
    requires Shared(w) && Enabled(w, t) && t.Unmap? && w.Space(s)
    ensures UnmapSeen(w, t, s) && Tab(w.mem, t.r, t.p).Some? && Tab(w.mem, t.r, t.p).value != s
  {
    EnabledIndex(w, t);
    var f := Tab(w.mem, t.r, t.p).value;
    OnlyAtThere(w, t.r, t.p, s);
    RootHere(w, s);
    assert f != s;
    hide Tab, Dom, Shared, Cleared;
    forall q | Dom(s == w.boot, q)
      ensures Tab(After(w, t).mem, s, q) ==
              if Tab(w.mem, s, t.p) == Tab(w.mem, t.r, t.p) && q == t.p + [t.i] then None else Tab(w.mem, s, q)
    {
      ClearEffect(w.mem, s, s == w.boot, f, t.p, t.i, q);
    }
  }

  lemma UnmapUpper(w: World, t: Step, s: nat, j: nat)
    requires Shared(w) && Enabled(w, t) && t.Unmap? && w.Space(s) && j < 512
    ensures Word(After(w, t).mem, s, j) == Word(w.mem, s, j)
  {
    EnabledIndex(w, t);
    UnmapIn(w, t, s);
    hide Tab, Dom, Shared, Cleared, UnmapSeen;
    ClearedWord(w.mem, Tab(w.mem, t.r, t.p).value, t.i, s, j);
  }

  lemma UnmapFewer(w: World, t: Step, s: nat)
    requires Shared(w) && Enabled(w, t) && t.Unmap? && w.Space(s)
    ensures Fewer(w, After(w, t).mem, s)
  {
    UnmapIn(w, t, s);
    hide Tab, Dom, Shared, After, Enabled;
    forall j | 256 <= j < 512
      ensures Word(After(w, t).mem, s, j) == Word(w.mem, s, j)
    {
      UnmapUpper(w, t, s, j);
    }
  }

  lemma ClearedWord(mem: Mem, f: nat, i: nat, g: nat, j: nat)
    requires i < 512 && j < 512 && Word(mem, f, i) % 2 == 1 && g != f
    ensures Word(Cleared(mem, f, i), g, j) == Word(mem, g, j)
  {
    WordWrite(mem, f, i, Word(mem, f, i) - 1, g, j);
  }

  lemma UnmapShared(w: World, t: Step)
    requires Shared(w) && Enabled(w, t) && t.Unmap?
    ensures Shared(After(w, t))
  {
    var w' := After(w, t);
    SameRest(w, t);
    hide Tab, Dom, OneSpace, TwoSpaces, Enabled, Fewer, After;
    UnmapFewer(w, t, w.boot);
    forall r | w'.Space(r)
      ensures OneSpace(w', r)
    {
      UnmapFewer(w, t, r);
      FewerOne(w, w', r);
    }
    forall r, s | w'.Space(r) && w'.Space(s) && r != s
      ensures TwoSpaces(w', r, s)
    {
      UnmapFewer(w, t, r);
      UnmapFewer(w, t, s);
      FewerTwo(w, w', r, s);
    }
  }

  // ---- a frame from the pool ----

  lemma PallocShared(w: World, t: Step)
    requires Shared(w) && Enabled(w, t) && t.Palloc?
    ensures Shared(After(w, t)) && Spare(After(w, t), t.f)
    ensures forall f :: Spare(w, f) ==> Spare(After(w, t), f) && f != t.f
  {
    var w' := After(w, t);
    hide SelfMapped, Inj, TwoSpaces, Tab, Dom;
    forall r | w.Space(r) ensures OneSpace(w', r) && !Reached(w'.mem, r, r == w'.boot, 4, t.f) {
      assert OneSpace(w, r);
      assert AllTaken(w, r);
      MoreTaken(w, w', r);
    }
    forall r, s | w.Space(r) && w.Space(s) && r != s ensures TwoSpaces(w', r, s) {
      assert TwoSpaces(w, r, s);
      SameTwo(w, w', r, s);
    }
    hide Shared;
    forall f | Spare(w, f) ensures Spare(w', f) && f != t.f {
      SpareStays(w, w', f);
      TakenSpare(w, f);
    }
  }

  lemma SpareStays(w: World, w': World, f: nat)
    requires Spare(w, f) && w'.mem == w.mem && w'.boot == w.boot && w'.roots == w.roots && w'.start == w.start && |w'.bits| == |w.bits|
    requires forall k :: 0 <= k < |w.bits| && w.bits[k] ==> w'.bits[k]
    ensures Spare(w', f)
  {
    hide Reached;
    assert Taken(w'.start, w'.bits, f);
    forall r | w'.Space(r) ensures !Reached(w'.mem, r, r == w'.boot, 4, f) {
      assert w.Space(r);
    }
  }

  lemma SameTwo(w: World, w': World, r: nat, s: nat)
    requires TwoSpaces(w, r, s) && w'.mem == w.mem && w'.boot == w.boot
    ensures TwoSpaces(w', r, s)
  {
    hide Tab, Dom, MeetIn;
  }

  lemma MoreTaken(w: World, w': World, r: nat)
    requires AllTaken(w, r) && w'.mem == w.mem && w'.boot == w.boot && w'.start == w.start && |w'.bits| == |w.bits|
    requires forall k :: 0 <= k < |w.bits| && w.bits[k] ==> w'.bits[k]
    ensures AllTaken(w', r)
  {
    hide Tab, Dom;
  }

  // ---- a new space ----

  lemma {:induction false} FrameElsewhere(mem: Mem, n: nat, page: seq<nat>, s: nat, boot: bool, q: Path)
    requires !Reached(mem, s, boot, 3, n) && Dom(boot, q)
    ensures Tab(mem[n := page], s, q) == Tab(mem, s, q)
  {
    if q != [] {
      var q', j := q[..|q| - 1], q[|q| - 1];
      assert q == q' + [j];
      DomPrefix(boot, q', j);
      FrameElsewhere(mem, n, page, s, boot, q');
      hide Tab;
      TabStep(mem, s, q', j);
      TabStep(mem[n := page], s, q', j);
    }
  }

  /** Creating a space leaves the others alone. */
  lemma CreateKeeps(w: World, t: Step, s: nat)
    requires Shared(w) && Enabled(w, t) && t.Create? && w.Space(s)
    ensures Fewer(w, After(w, t).mem, s) && t.n != s
    ensures forall q :: Dom(s == w.boot, q) ==> Tab(After(w, t).mem, s, q) == Tab(w.mem, s, q)
    ensures forall j :: Word(After(w, t).mem, s, j) == Word(w.mem, s, j)
  {
    RootHere(w, s);
    assert !Reached(w.mem, s, s == w.boot, 3, t.n);
    assert t.n != s;
    hide Tab, Dom, Shared, Reached;
    var page := NewPml4(w.mem, t.r, t.n);
    forall q | Dom(s == w.boot, q)
      ensures Tab(After(w, t).mem, s, q) == Tab(w.mem, s, q)
    {
      FrameElsewhere(w.mem, t.n, page, s, s == w.boot, q);
    }
  }

  lemma NewWord(w: World, t: Step, j: nat)
    requires Shared(w) && Enabled(w, t) && t.Create? && j < 512
    ensures Next(After(w, t).mem, t.n, j) ==
            if j < 256 then None else if j == 511 then Some(t.n) else Next(w.mem, t.r, j)
    ensures 256 <= j < 511 ==> Word(After(w, t).mem, t.n, j) == Word(w.mem, w.boot, j)
  {
    EntryBits(t.n);
    TwoOf(w, t.r, t.r);
    hide Entry, Tab, Dom, Shared, Inj, SelfMapped, AllTaken, NoTable, Taken;
    assert Word(After(w, t).mem, t.n, j) == NewPml4(w.mem, t.r, t.n)[j];
  }

  /** A PML4 `n` whose upper half is that of `r`, in a memory otherwise unchanged. */
  ghost predicate UpperHalfOf(mem: Mem, mem': Mem, r: nat, n: nat) {
    && (forall j :: 0 <= j < 256 ==> Next(mem', n, j) == None)
    && (forall j :: 256 <= j < 511 ==> Next(mem', n, j) == Next(mem, r, j))
    && (forall f, j :: f != n && 0 <= j < 512 ==> Next(mem', f, j) == Next(mem, f, j))
  }

  lemma {:induction false} UpperHalfTab(mem: Mem, mem': Mem, r: nat, n: nat, p: Path)
    requires UpperHalfOf(mem, mem', r, n) && Dom(false, p) && p != []
    requires forall q :: Dom(false, q) && KernelPath(q) && |q| < |p| ==> Tab(mem, r, q) != Some(n)
    ensures Tab(mem', n, p) == if p[0] >= 256 then Tab(mem, r, p) else None
  {
    var q, j := p[..|p| - 1], p[|p| - 1];
    assert p == q + [j];
    DomPrefix(false, q, j);
    TabStep(mem', n, q, j);
    TabStep(mem, r, q, j);
    if q == [] {
      assert p == [j] && j == p[0];
      assert Tab(mem', n, []) == Some(n) && Tab(mem, r, []) == Some(r);
    } else {
      UpperHalfTab(mem, mem', r, n, q);
      hide Tab, Next;
      assert q[0] == p[0];
    }
  }

  lemma NewUpper(w: World, t: Step)
    requires Shared(w) && Enabled(w, t) && t.Create?
    ensures UpperHalfOf(w.mem, After(w, t).mem, t.r, t.n)
  {
    var mem' := After(w, t).mem;
    forall j | 0 <= j < 512
      ensures j < 256 ==> Next(mem', t.n, j) == None
      ensures 256 <= j < 511 ==> Next(mem', t.n, j) == Next(w.mem, t.r, j)
    {
      NewWord(w, t, j);
    }
    hide NewPml4, Tab, Shared, Enabled;
  }

  lemma CreateParts(w: World, t: Step)
    requires Enabled(w, t) && t.Create?
    ensures w.Space(t.r) && Taken(w.start, w.bits, t.n) && NoTable(w, t.n)
  {
  }

  lemma NotNew(w: World, t: Step, s: nat, q: Path)
    requires Enabled(w, t) && t.Create? && w.Space(s) && Dom(s == w.boot, q) && |q| <= 3
    ensures Tab(w.mem, s, q) != Some(t.n)
  {
    assert !Reached(w.mem, s, s == w.boot, 3, t.n);
    hide Tab, Dom;
  }

  lemma KernelDom(boot: bool, q: Path)
    requires Dom(false, q) && KernelPath(q)
    ensures Dom(boot, q)
  {
  }

  /** The tables of the new space are those of the creating space, in the kernel half only. */
  lemma NewTab(w: World, t: Step, p: Path)
    requires Shared(w) && Enabled(w, t) && t.Create? && Dom(false, p) && p != []
    ensures Tab(After(w, t).mem, t.n, p) == if p[0] >= 256 then Tab(w.mem, t.r, p) else None
  {
    hide *;
    NewUpper(w, t);
    CreateParts(w, t);
    DomShort(false, p);
    forall q | Dom(false, q) && KernelPath(q) && |q| < |p|
      ensures Tab(w.mem, t.r, q) != Some(t.n)
    {
      KernelDom(t.r == w.boot, q);
      NotNew(w, t, t.r, q);
    }
    UpperHalfTab(w.mem, After(w, t).mem, t.r, t.n, p);
  }

  lemma CreateOne(w: World, t: Step)
    requires Shared(w) && Enabled(w, t) && t.Create?
    ensures OneSpace(After(w, t), t.n)
  {
    var w' := After(w, t);
    hide *;
    SameRest(w, t);
    CreateParts(w, t);
    CreateKeeps(w, t, w.boot);
    NewWord(w, t, 511);
    forall i | 256 <= i < 511
      ensures Word(w'.mem, t.n, i) == Word(w'.mem, w.boot, i)
    {
      NewWord(w, t, i);
    }
    NewInjective(w, t);
    IsOneSpace(w', t.n);
  }

  lemma IsOneSpace(w: World, r: nat)
    requires Next(w.mem, r, 511) == Some(r) && Inj(w.mem, r, r == w.boot, 4) && AllTaken(w, r)
    requires forall i :: 256 <= i < 511 ==> Word(w.mem, r, i) == Word(w.mem, w.boot, i)
    ensures OneSpace(w, r)
  {
  }

  lemma NewInjective(w: World, t: Step)
    requires Shared(w) && Enabled(w, t) && t.Create? && t.n != w.boot
    ensures Inj(After(w, t).mem, t.n, false, 4) && AllTaken(After(w, t), t.n)
  {
    var mem' := After(w, t).mem;
    CreateParts(w, t);
    SameRest(w, t);
    forall p | Dom(false, p) && p != [] && Tab(mem', t.n, p).Some?
      ensures p[0] >= 256 && Tab(mem', t.n, p) == Tab(w.mem, t.r, p) && Dom(t.r == w.boot, p)
      ensures Tab(mem', t.n, p).value == t.n ==> |p| == 4
    {
      NewTab(w, t, p);
      DomShort(false, p);
      if |p| <= 3 { NotNew(w, t, t.r, p); }
    }
    TwoOf(w, t.r, t.r);
    assert Tab(mem', t.n, []) == Some(t.n);
    hide Tab, Dom, Shared, After, Enabled, Taken;
    forall p, q | Dom(false, p) && Dom(false, q) && |p| <= 4 && |q| <= 4 && Tab(mem', t.n, p).Some?
      && Tab(mem', t.n, p) == Tab(mem', t.n, q)
      ensures Meet(p, q)
    {
    }
  }

  lemma CreateTwo(w: World, t: Step, s: nat)
    requires Shared(w) && Enabled(w, t) && t.Create? && w.Space(s)
    ensures TwoSpaces(After(w, t), t.n, s) && TwoSpaces(After(w, t), s, t.n)
  {
    var w' := After(w, t);
    hide *;
    CreateKeeps(w, t, w.boot);
    SameRest(w, t);
    forall p, q | Dom(false, p) && Dom(s == w.boot, q) && Tab(w'.mem, t.n, p).Some? && Tab(w'.mem, t.n, p) == Tab(w'.mem, s, q)
      ensures MeetIn(p, q)
    {
      NewMeets(w, t, s, p, q);
    }
    IsTwoSpaces(w', t.n, s);
  }

  lemma IsTwoSpaces(w: World, r: nat, s: nat)
    requires r != w.boot
    requires forall p, q ::
      (Dom(false, p) && Dom(s == w.boot, q) && Tab(w.mem, r, p).Some? && Tab(w.mem, r, p) == Tab(w.mem, s, q)) ==> MeetIn(p, q)
    ensures TwoSpaces(w, r, s) && TwoSpaces(w, s, r)
  {
    hide Tab, Dom;
  }

  lemma MeetKernel(p: Path, q: Path)
    requires p != [] && p[0] >= 256
    ensures Meet(p, q) ==> MeetIn(p, q)
  {
  }

  lemma MeetPml4(p: Path, q: Path)
    requires p == [] && |q| == 4
    ensures MeetIn(p, q)
  {
  }

  lemma KernelPathIs(p: Path)
    ensures KernelPath(p) <==> p != [] && p[0] >= 256
  {
  }

  /** Where the new space and an old one meet. */
  lemma NewMeets(w: World, t: Step, s: nat, p: Path, q: Path)
    requires Shared(w) && Enabled(w, t) && t.Create? && w.Space(s)
    requires Dom(false, p) && Dom(s == w.boot, q)
    requires Tab(After(w, t).mem, t.n, p).Some? && Tab(After(w, t).mem, t.n, p) == Tab(After(w, t).mem, s, q)
    ensures MeetIn(p, q)
  {
    hide *;
    CreateKeeps(w, t, s);
    CreateParts(w, t);
    DomShort(s == w.boot, q);
    if p == [] {
      RootHere(After(w, t), t.n);
      if |q| <= 3 { NotNew(w, t, s, q); }
      MeetPml4(p, q);
    } else {
      NewTab(w, t, p);
      KernelPathIs(p);
      KernelDom(t.r == w.boot, p);
      MeetsAt(w, t.r, s, p, q);
      MeetKernel(p, q);
    }
  }

  lemma CreateShared(w: World, t: Step)
    requires Shared(w) && Enabled(w, t) && t.Create?
    ensures Shared(After(w, t))
  {
    var w' := After(w, t);
    SameRest(w, t);
    CreateKeeps(w, t, w.boot);
    hide Tab, Dom, OneSpace, TwoSpaces, Enabled, Fewer, After, Word;
    forall r | w'.Space(r)
      ensures OneSpace(w', r)
    {
      if r == t.n {
        CreateOne(w, t);
      } else {
        CreateKeeps(w, t, r);
        FewerOne(w, w', r);
      }
    }
    forall r, s | w'.Space(r) && w'.Space(s) && r != s
      ensures TwoSpaces(w', r, s)
    {
      if r == t.n {
        CreateTwo(w, t, s);
      } else if s == t.n {
        CreateTwo(w, t, r);
      } else {
        CreateKeeps(w, t, r);
        CreateKeeps(w, t, s);
        FewerTwo(w, w', r, s);
      }
    }
  }

  lemma StepShared(w: World, t: Step)
    requires Shared(w) && Enabled(w, t)
    ensures Shared(After(w, t))
  {
    hide Shared, Enabled, After;
    match t {
      case Palloc(_) => PallocShared(w, t);
      case Install(_, _, _, _) => InstallShared(w, t);
      case Unmap(_, _, _) => UnmapShared(w, t);
      case Create(_, _) => CreateShared(w, t);
    }
  }

  // ---- what the invariant says ----

  /** A frame mapped as a page of some space is a table of a space exactly when it is that space's PML4. */
  lemma PageIsTable(w: World, r: nat, p: Path, s: nat)
    requires Shared(w) && w.Space(r) && w.Space(s) && Dom(r == w.boot, p) && |p| == 4 && Tab(w.mem, r, p).Some?
    ensures Reached(w.mem, s, s == w.boot, 3, Tab(w.mem, r, p).value) <==> Tab(w.mem, r, p) == Some(s)
  {
    RootHere(w, s);
    hide Tab, Dom, Shared;
    if q :| Dom(s == w.boot, q) && |q| <= 3 && Tab(w.mem, s, q) == Tab(w.mem, r, p) {
      MeetsAt(w, r, s, p, q);
    }
  }

  /** Two pages of one space never share a frame, and pages of two spaces only as one and the same kernel page. */
  lemma PagesApart(w: World, r: nat, p: Path, s: nat, q: Path)
    requires Shared(w) && w.Space(r) && w.Space(s) && Dom(r == w.boot, p) && Dom(s == w.boot, q) && |p| == |q| == 4
    requires Tab(w.mem, r, p).Some? && Tab(w.mem, r, p) == Tab(w.mem, s, q)
    ensures p == q && (r != s ==> KernelPath(p))
  {
    MeetsAt(w, r, s, p, q);
  }

  /** What happens in one space or in the making of others changes no page of the low half of space s. */
  lemma UserHalfPrivate(w: World, t: Step, s: nat, q: Path)
    requires Shared(w) && Enabled(w, t) && w.Space(s) && (t.Install? || t.Unmap? ==> t.r != s)
    requires Dom(s == w.boot, q) && q != [] && q[0] < 256
    ensures Tab(After(w, t).mem, s, q) == Tab(w.mem, s, q)
  {
    hide Tab, Dom, Shared, Spare, NoTable, Word, Fewer;
    match t {
      case Palloc(_) => SameRest(w, t);
      case Create(_, _) => CreateKeeps(w, t, s);
      case Install(_, _, _, _) =>
        InstallIn(w, t, s);
        InstallParts(w, t);
        if q == t.p + [t.i] { NotShared(w, t.r, s, t.p, t.i, q); }
      case Unmap(_, _, _) =>
        EnabledIndex(w, t);
        UnmapIn(w, t, s);
        if q == t.p + [t.i] { NotShared(w, t.r, s, t.p, t.i, q); }
    }
  }

  /** Two spaces have no table of the low half in common. */
  lemma NotShared(w: World, r: nat, s: nat, p: Path, i: nat, q: Path)
    requires Shared(w) && w.Space(r) && w.Space(s) && r != s && Dom(r == w.boot, p) && Tab(w.mem, r, p).Some? && |p| <= 3
    requires q == p + [i] && q[0] < 256 && Dom(s == w.boot, q)
    ensures Tab(w.mem, s, p) != Tab(w.mem, r, p)
  {
    DomPrefix(s == w.boot, p, i);
    hide Tab, Dom, Shared;
    assert p != [] ==> q[0] == p[0];
    if Tab(w.mem, s, p) == Tab(w.mem, r, p) { MeetsAt(w, r, s, p, p); }
  }

  // ---- runs ----

  ghost predicate Run(w: World, steps: seq<Step>, w': World)
    decreases |steps|
  {
    if steps == [] then w' == w
    else Enabled(w, steps[0]) && Run(After(w, steps[0]), steps[1..], w')
  }

  /** After any run of kernel mappings and unmappings in any space, user mappings in created ones, and
      creations, every space translates the kernel half as the boot tables do. */
  lemma {:induction false} RunAgrees(w: World, steps: seq<Step>, w': World, r: nat, v: bv64)
    requires Shared(w) && Run(w, steps, w') && w'.Space(r) && 256 <= Idx(0, v) < 511
    ensures Shared(w')
    ensures Translate(w'.mem, r, v) == Translate(w'.mem, w'.boot, v)
    decreases |steps|
  {
    if steps == [] {
      KernelHalfAgrees(w, r, v);
    } else {
      StepShared(w, steps[0]);
      RunAgrees(After(w, steps[0]), steps[1..], w', r, v);
    }
  }

  lemma {:induction false} RunThen(w: World, a: seq<Step>, w1: World, b: seq<Step>, w2: World)
    requires Run(w, a, w1) && Run(w1, b, w2)
    ensures Run(w, a + b, w2)
    decreases |a|
  {
    hide Enabled, After;
    if a == [] {
      assert a + b == b;
    } else {
      assert (a + b)[1..] == a[1..] + b;
      RunThen(After(w, a[0]), a[1..], w1, b, w2);
    }
  }

  lemma RunOne(w: World, t: Step)
    requires Enabled(w, t)
    ensures Run(w, [t], After(w, t))
  {
    hide Enabled, After;
    assert [t][1..] == [];
  }

  /** A run whose steps take frames, or edit the tables of space `r` and no other, or make spaces from it. */
  ghost predicate RunIn(w: World, r: nat, steps: seq<Step>, w': World) {
    Run(w, steps, w') && forall i :: 0 <= i < |steps| ==> steps[i].Palloc? || steps[i].r == r
  }

  lemma RunInNone(w: World, r: nat)
    ensures RunIn(w, r, [], w)
  {
  }

  lemma RunInOne(w: World, r: nat, t: Step)
    requires Enabled(w, t) && (t.Palloc? || t.r == r)
    ensures RunIn(w, r, [t], After(w, t))
  {
    hide Enabled, After;
    RunOne(w, t);
  }

  lemma RunInThen(w: World, r: nat, a: seq<Step>, w1: World, b: seq<Step>, w2: World)
    requires RunIn(w, r, a, w1) && RunIn(w1, r, b, w2)
    ensures RunIn(w, r, a + b, w2)
  {
    hide Run;
    RunThen(w, a, w1, b, w2);
  }

  /** Such a run changes no page of the low half of another space. */
  lemma {:induction false} RunPrivate(w: World, r: nat, steps: seq<Step>, w': World, s: nat, q: Path)
    requires Shared(w) && RunIn(w, r, steps, w') && w.Space(s) && s != r && Dom(s == w.boot, q) && q != [] && q[0] < 256
    ensures Tab(w'.mem, s, q) == Tab(w.mem, s, q)
    decreases |steps|
  {
    hide Shared, Enabled, After, Tab, Dom;
    if steps != [] {
      var w1 := After(w, steps[0]);
      SameRest(w, steps[0]);
      StepShared(w, steps[0]);
      UserHalfPrivate(w, steps[0], s, q);
      forall i | 0 <= i < |steps[1..]| ensures steps[1..][i].Palloc? || steps[1..][i].r == r {
        assert steps[1..][i] == steps[i + 1];
      }
      RunPrivate(w1, r, steps[1..], w', s, q);
    }
  }

  // ---- the PML4 of the boot space ----

  /** No step changes a word of the boot PML4. */
  lemma BootPml4Kept(w: World, t: Step, j: nat)
    requires Shared(w) && Enabled(w, t) && j < 512
    ensures Word(After(w, t).mem, w.boot, j) == Word(w.mem, w.boot, j)
  {
    hide Shared, Enabled, Word, After, Tab;
    match t {
      case Palloc(_) => SameRest(w, t);
      case Install(_, _, _, _) => InstallUpper(w, t, w.boot, j);
      case Unmap(_, _, _) => UnmapUpper(w, t, w.boot, j);
      case Create(_, _) => CreateKeeps(w, t, w.boot);
    }
  }

  lemma {:induction false} RunKeepsBootPml4(w: World, steps: seq<Step>, w': World, j: nat)
    requires Shared(w) && Run(w, steps, w') && j < 512
    ensures w'.boot == w.boot && Word(w'.mem, w.boot, j) == Word(w.mem, w.boot, j)
    decreases |steps|
  {
    hide Shared, Enabled, Word, After;
    if steps != [] {
      StepShared(w, steps[0]);
      SameRest(w, steps[0]);
      BootPml4Kept(w, steps[0], j);
      RunKeepsBootPml4(After(w, steps[0]), steps[1..], w', j);
    }
  }
}
