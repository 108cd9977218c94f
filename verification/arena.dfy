/** The small-block allocator of kernel/memory.c: seven size classes, pages cut into equal blocks behind a
    16-byte header, one list of free blocks a class.  Addresses count from the start of the pool. */
module Arenas {
  import opened Basics
  import opened Bitmaps

  const PG_SIZE := 4096
  const DESC_CNT := 7

  // ---- sizes and addresses ----

  /** mem_desc_init: 16, 32, ... 1024. */
  function BlockSize(d: nat): (s: nat)
    ensures s > 0
  {
    if d == 0 then 16 else 2 * BlockSize(d - 1)
  }

  function PerArena(d: nat): int { (PG_SIZE - 16) / BlockSize(d) }

  lemma Sizes(d: nat)
    requires d < DESC_CNT
    ensures BlockSize(d) == [16, 32, 64, 128, 256, 512, 1024][d]
    ensures PerArena(d) == [255, 127, 63, 31, 15, 7, 3][d]
  {
    assert BlockSize(0) == 16 && BlockSize(1) == 32 && BlockSize(2) == 64 && BlockSize(3) == 128;
    assert BlockSize(4) == 256 && BlockSize(5) == 512 && BlockSize(6) == 1024;
  }

  /** arena2block for the arena in page `p`. */
  function BlockAddr(p: nat, d: nat, i: nat): nat { p * PG_SIZE + 16 + i * BlockSize(d) }

  /** What sys_malloc returns for a run of pages: the address behind the header. */
  function LargePtr(p: nat): nat { p * PG_SIZE + 16 }

  /** block2arena: the page whose header an address belongs to. */
  function PageOf(a: nat): nat { a / PG_SIZE }

  /** On 64-bit addresses the mask of block2arena undoes arena2block, for every page-aligned arena. */
  lemma MaskUndoes(a: bv64, offset: bv64)
    requires a & 0xfff == 0 && offset < 4080
    ensures (a + 16 + offset) & 0xfffffffffffff000 == a
  {
  }

  /** Every block lies in its arena's page, behind the header, so PageOf inverts BlockAddr. */
  lemma BlockFacts(p: nat, d: nat, i: nat)
    requires d < DESC_CNT && i < PerArena(d)
    ensures p * PG_SIZE + 16 <= BlockAddr(p, d, i) && BlockAddr(p, d, i) + BlockSize(d) <= (p + 1) * PG_SIZE
    ensures PageOf(BlockAddr(p, d, i)) == p
  {
    Sizes(d);
    FitsPage(i, d);
  }

  lemma FitsPage(i: nat, d: nat)
    requires d < DESC_CNT && i < PerArena(d)
    ensures i * BlockSize(d) + BlockSize(d) <= PG_SIZE - 16
  {
    Sizes(d);
    Product(i + 1, PerArena(d), BlockSize(d));
  }

  lemma Product(a: nat, b: nat, c: nat)
    requires a <= b
    ensures a * c <= b * c
  {
  }

  /** Two blocks of one arena do not overlap. */
  lemma BlocksApart(p: nat, d: nat, i: nat, j: nat)
    requires i < j
    ensures BlockAddr(p, d, i) + BlockSize(d) <= BlockAddr(p, d, j)
  {
    Product(i + 1, j, BlockSize(d));
  }

  const WORD := 0x1_0000_0000_0000_0000

  /** DIV_ROUND_UP(size + sizeof(struct arena), PG_SIZE) in 64-bit arithmetic. */
  function PageCount(size: nat): nat { ((size + 16 + PG_SIZE - 1) % WORD) / PG_SIZE }

  /** The rounding wraps round 64 bits. */
  predicate Wraps(size: nat) { size + 16 + PG_SIZE - 1 >= WORD }

  /** The pages of a large allocation hold the header and the bytes asked for iff the sum does not wrap, and one page
      less would not hold them. */
  lemma PagesEnoughExactly(size: nat)
    requires 1024 < size < WORD
    ensures PageCount(size) * PG_SIZE >= size + 16 <==> !Wraps(size)
    ensures (PageCount(size) - 1) * PG_SIZE < size + 16
  {
    var n := size + 16 + PG_SIZE - 1;
    if Wraps(size) {
      assert n % WORD == n - WORD;
    } else {
      assert n % WORD == n;
    }
  }

  // ---- the state ----

  /** The struct arena at the start of a page: `cnt` free blocks of class `d`, or a run of pages. */
  datatype Header = Small(d: nat, cnt: nat) | Large(pages: nat)

  function Span(h: Header): nat { if h.Small? then 1 else h.pages }

  type Headers = map<nat, Header>

  /** `live` is what sys_malloc has returned and sys_free not yet taken back, with the sizes asked for. */
  datatype Heap = Heap(bits: seq<bool>, headers: Headers, free: seq<seq<nat>>, live: map<nat, nat>)

  /** `b` is block `i` of the arena of class `d` in page `p`. */
  ghost predicate IsBlock(hs: Headers, b: nat, p: nat, d: nat, i: nat) {
    d < DESC_CNT && p in hs && hs[p].Small? && hs[p].d == d && i < PerArena(d) && b == BlockAddr(p, d, i)
  }

  ghost predicate BlockOf(hs: Headers, b: nat, d: nat) {
    exists i: nat :: IsBlock(hs, b, PageOf(b), d, i)
  }

  ghost predicate HeadersOk(hs: Headers, n: nat) {
    && (forall p :: p in hs ==> Span(hs[p]) > 0 && p + Span(hs[p]) <= n && (hs[p].Small? ==> hs[p].d < DESC_CNT))
    && (forall p, q :: p in hs && q in hs && p < q ==> p + Span(hs[p]) <= q)
  }

  ghost predicate OwnedBy(hs: Headers, k: nat, p: nat) {
    p in hs && p <= k < p + Span(hs[p])
  }

  ghost predicate Owned(hs: Headers, k: nat) {
    exists p :: OwnedBy(hs, k, p)
  }

  /** The pages marked in the pool's bitmap are those of the headers and those taken by others. */
  ghost predicate BitsOk(H: Heap, others: seq<bool>) {
    |others| == |H.bits| && forall k :: 0 <= k < |H.bits| ==> (H.bits[k] <==> others[k] || Owned(H.headers, k)) && !(others[k] && Owned(H.headers, k))
  }

  ghost predicate FreeListOk(hs: Headers, q: seq<nat>, d: nat) {
    NoDup(q) && forall b :: b in q ==> BlockOf(hs, b, d)
  }

  /** How many of the first `n` blocks of an arena are on a list. */
  ghost function CountFree(q: seq<nat>, p: nat, d: nat, n: nat): nat {
    if n == 0 then 0 else CountFree(q, p, d, n - 1) + if BlockAddr(p, d, n - 1) in q then 1 else 0
  }

  ghost predicate CountOk(H: Heap, p: nat)
    requires p in H.headers && |H.free| == DESC_CNT
  {
    H.headers[p].Small? && H.headers[p].d < DESC_CNT && PerArena(H.headers[p].d) >= 0 ==>
      H.headers[p].cnt == CountFree(H.free[H.headers[p].d], p, H.headers[p].d, PerArena(H.headers[p].d))
  }

  /** What a live address is: the place after the header of a run of pages, or a block not on its free list;
      and at least as many bytes as asked for, unless the page count wrapped. */
  ghost predicate LiveOk(H: Heap, a: nat)
    requires a in H.live && |H.free| == DESC_CNT
  {
    var p := PageOf(a);
    p in H.headers &&
    match H.headers[p]
    case Large(n) => a == LargePtr(p) && (H.live[a] + 16 <= n * PG_SIZE || Wraps(H.live[a]))
    case Small(d, _) => d < DESC_CNT && BlockOf(H.headers, a, d) && a !in H.free[d] && H.live[a] <= BlockSize(d)
  }

  /** Nothing is lost: a run of pages is live, a block is live or on its free list. */
  ghost predicate Accounted(H: Heap, p: nat)
    requires p in H.headers && |H.free| == DESC_CNT
  {
    match H.headers[p]
    case Large(_) => LargePtr(p) in H.live
    case Small(d, _) => d < DESC_CNT && forall i: nat :: i < PerArena(d) ==> BlockAddr(p, d, i) in H.free[d] || BlockAddr(p, d, i) in H.live
  }

  /** No arena is fully free. */
  ghost predicate NotFull(h: Header) {
    h.Small? ==> h.cnt < PerArena(h.d)
  }

  ghost predicate Lists(H: Heap) {
    |H.free| == DESC_CNT && forall d: nat :: d < DESC_CNT ==> FreeListOk(H.headers, H.free[d], d)
  }

  ghost predicate Inv(H: Heap, others: seq<bool>) {
    && HeadersOk(H.headers, |H.bits|) && BitsOk(H, others) && Lists(H)
    && (forall p :: p in H.headers ==> CountOk(H, p) && Accounted(H, p))
    && (forall a :: a in H.live ==> LiveOk(H, a))
  }

  ghost predicate AllInUse(hs: Headers) {
    forall p :: p in hs ==> NotFull(hs[p])
  }

  // ---- what the invariant says ----

  /** The bytes an allocation may use. */
  ghost function Room(H: Heap, a: nat): nat
    requires PageOf(a) in H.headers
  {
    match H.headers[PageOf(a)]
    case Large(n) => if n > 0 then n * PG_SIZE - 16 else 0
    case Small(d, _) => BlockSize(d)
  }

  /** A live allocation lies behind the 16 bytes of its own header and within the pages of that header. */
  ghost predicate InPages(H: Heap, a: nat) {
    && PageOf(a) in H.headers && PageOf(a) * PG_SIZE + 16 <= a
    && a + Room(H, a) <= (PageOf(a) + Span(H.headers[PageOf(a)])) * PG_SIZE
  }

  lemma LargeInPages(H: Heap, a: nat, n: nat)
    requires PageOf(a) in H.headers && H.headers[PageOf(a)] == Large(n) && n > 0 && a == LargePtr(PageOf(a))
    ensures InPages(H, a)
  {
  }

  lemma SmallInPages(H: Heap, a: nat, d: nat)
    requires d < DESC_CNT && BlockOf(H.headers, a, d)
    ensures InPages(H, a)
  {
    var p := PageOf(a);
    var i: nat :| IsBlock(H.headers, a, p, d, i);
    hide PageOf, BlockAddr, BlockSize, PerArena;
    BlockFacts(p, d, i);
  }

  lemma LiveFacts(H: Heap, others: seq<bool>, a: nat)
    requires Inv(H, others) && a in H.live
    ensures |H.free| == DESC_CNT && LiveOk(H, a) && PageOf(a) in H.headers && Span(H.headers[PageOf(a)]) > 0
  {
    hide BitsOk;
    assert LiveOk(H, a);
  }

  /** A live allocation stays within the pages of its header and has the room asked for. */
  lemma LiveInPages(H: Heap, others: seq<bool>, a: nat)
    requires Inv(H, others) && a in H.live
    ensures InPages(H, a) && (H.live[a] <= Room(H, a) || Wraps(H.live[a]))
  {
    LiveFacts(H, others, a);
    hide Inv, InPages, BlockOf, BlockSize, PageOf;
    match H.headers[PageOf(a)] {
      case Large(n) => LargeInPages(H, a, n);
      case Small(d, _) => SmallInPages(H, a, d);
    }
  }

  /** Live allocations do not overlap. */
  lemma LiveApart(H: Heap, others: seq<bool>, a: nat, b: nat)
    requires Inv(H, others) && a in H.live && b in H.live && a < b
    ensures PageOf(a) in H.headers && a + Room(H, a) <= b
  {
    LiveInPages(H, others, a);
    LiveInPages(H, others, b);
    LiveFacts(H, others, a);
    LiveFacts(H, others, b);
    HeadersHere(H, others);
    hide Inv, LiveOk, HeadersOk, Room;
    if PageOf(a) == PageOf(b) {
      SamePageApart(H, others, a, b);
    } else {
      PagesApart(H.headers, |H.bits|, PageOf(a), PageOf(b));
    }
  }

  /** The bytes of a live allocation touch no header, neither its own nor that of another page. */
  lemma LiveBehindHeaders(H: Heap, others: seq<bool>, a: nat, q: nat)
    requires Inv(H, others) && a in H.live && q in H.headers
    ensures PageOf(a) in H.headers && PageOf(a) * PG_SIZE + 16 <= a
    ensures a + Room(H, a) <= q * PG_SIZE || q * PG_SIZE + 16 <= a
  {
    LiveInPages(H, others, a);
    LiveFacts(H, others, a);
    HeadersHere(H, others);
    hide Inv, LiveOk, HeadersOk, Room, PageOf;
    if PageOf(a) < q {
      PagesApart(H.headers, |H.bits|, PageOf(a), q);
    }
  }

  lemma HeadersHere(H: Heap, others: seq<bool>)
    requires Inv(H, others)
    ensures HeadersOk(H.headers, |H.bits|)
  {
  }

  lemma PagesApart(hs: Headers, n: nat, p: nat, q: nat)
    requires HeadersOk(hs, n) && p in hs && q in hs && p < q
    ensures p + Span(hs[p]) <= q
  {
  }

  lemma SamePageApart(H: Heap, others: seq<bool>, a: nat, b: nat)
    requires |H.free| == DESC_CNT && a in H.live && b in H.live && a < b && PageOf(a) == PageOf(b)
    requires LiveOk(H, a) && LiveOk(H, b)
    ensures a + Room(H, a) <= b
  {
    var p := PageOf(a);
    assert H.headers[p].Small?;
    var d := H.headers[p].d;
    var i: nat :| IsBlock(H.headers, a, p, d, i);
    var j: nat :| IsBlock(H.headers, b, p, d, j);
    if j < i { BlocksApart(p, d, j, i); }
    BlocksApart(p, d, i, j);
  }

  // ---- counting free blocks ----

  lemma {:induction false} CountSame(q: seq<nat>, q': seq<nat>, p: nat, d: nat, n: nat)
    requires forall i: nat :: i < n ==> (BlockAddr(p, d, i) in q <==> BlockAddr(p, d, i) in q')
    ensures CountFree(q, p, d, n) == CountFree(q', p, d, n)
  {
    hide BlockAddr;
    if n > 0 {
      CountSame(q, q', p, d, n - 1);
      var b := BlockAddr(p, d, n - 1);
    }
  }

  /** Lists that differ in block `i` only. */
  ghost predicate DifferAt(q: seq<nat>, q': seq<nat>, p: nat, d: nat, i: nat) {
    && BlockAddr(p, d, i) in q && BlockAddr(p, d, i) !in q'
    && forall b :: b != BlockAddr(p, d, i) ==> (b in q <==> b in q')
  }

  lemma {:induction false} CountOne(q: seq<nat>, q': seq<nat>, p: nat, d: nat, n: nat, i: nat)
    requires i < n && DifferAt(q, q', p, d, i)
    ensures CountFree(q, p, d, n) == CountFree(q', p, d, n) + 1
  {
    if i == n - 1 {
      forall j: nat | j < n - 1 ensures BlockAddr(p, d, j) != BlockAddr(p, d, i) {
        BlocksApart(p, d, j, i);
      }
      CountSame(q, q', p, d, n - 1);
    } else {
      BlocksApart(p, d, i, n - 1);
      CountOne(q, q', p, d, n - 1, i);
    }
  }

  /** The count is full iff every block is on the list. */
  lemma {:induction false} CountAll(q: seq<nat>, p: nat, d: nat, n: nat)
    ensures CountFree(q, p, d, n) <= n
    ensures CountFree(q, p, d, n) == n <==> forall i: nat :: i < n ==> BlockAddr(p, d, i) in q
  {
    hide BlockAddr;
    if n > 0 {
      CountAll(q, p, d, n - 1);
      var b := BlockAddr(p, d, n - 1);
    }
  }

  // ---- freeing everything ----

  /** When everything has been freed no page is held: the pool's bitmap is what it was before the first
      allocation. */
  lemma AllFreedRestores(H: Heap, others: seq<bool>)
    requires Inv(H, others) && AllInUse(H.headers) && H.live == map[]
    ensures H.headers == map[] && H.bits == others
  {
    hide BitsOk;
    forall p | p in H.headers ensures false {
      assert CountOk(H, p) && Accounted(H, p) && NotFull(H.headers[p]);
      if H.headers[p].Small? {
        var d := H.headers[p].d;
        SizesNonNegative(d);
        CountAll(H.free[d], p, d, PerArena(d));
      }
    }
    NothingOwned(H, others);
  }

  lemma SizesNonNegative(d: nat)
    requires d < DESC_CNT
    ensures PerArena(d) >= 3 && PerArena(d) < 256
  {
    Sizes(d);
  }

  lemma NothingOwned(H: Heap, others: seq<bool>)
    requires BitsOk(H, others) && H.headers == map[]
    ensures H.bits == others
  {
    forall k | 0 <= k < |H.bits| ensures H.bits[k] == others[k] {
      assert !Owned(H.headers, k);
    }
  }

  // ---- header tables of the same shape ----

  ghost predicate SameShape(hs: Headers, hs': Headers) {
    && hs.Keys == hs'.Keys
    && forall p :: p in hs ==> Span(hs[p]) == Span(hs'[p]) && hs[p].Small? == hs'[p].Small? && (hs[p].Small? ==> hs[p].d == hs'[p].d)
  }

  lemma ShapeKeeps(H: Heap, hs': Headers, others: seq<bool>)
    requires HeadersOk(H.headers, |H.bits|) && BitsOk(H, others) && SameShape(H.headers, hs')
    ensures HeadersOk(hs', |H.bits|) && BitsOk(H.(headers := hs'), others)
  {
    hide Span;
    forall k ensures Owned(H.headers, k) == Owned(hs', k) {
      if Owned(H.headers, k) {
        var p :| OwnedBy(H.headers, k, p);
        assert OwnedBy(hs', k, p);
      }
      if Owned(hs', k) {
        var p :| OwnedBy(hs', k, p);
        assert OwnedBy(H.headers, k, p);
      }
    }
  }

  lemma ShapeBlocks(hs: Headers, hs': Headers, b: nat, d: nat)
    requires SameShape(hs, hs')
    ensures BlockOf(hs, b, d) == BlockOf(hs', b, d)
  {
    hide Span, BlockAddr, PageOf, PerArena;
    if BlockOf(hs, b, d) {
      var i: nat :| IsBlock(hs, b, PageOf(b), d, i);
      assert IsBlock(hs', b, PageOf(b), d, i);
    }
    if BlockOf(hs', b, d) {
      var i: nat :| IsBlock(hs', b, PageOf(b), d, i);
      assert IsBlock(hs, b, PageOf(b), d, i);
    }
  }
}
