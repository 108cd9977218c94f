/** What sys_malloc and sys_free do to headers, free lists and bitmap, and that each step keeps the invariant. */
module ArenaSteps {
  import opened Basics
  import opened Bitmaps
  import opened Arenas

  function Less(n: nat): nat { if n == 0 then 0 else n - 1 }

  // ---- taking a block off a free list ----

  ghost predicate CanPop(H: Heap, d: nat) {
    |H.free| == DESC_CNT && d < DESC_CNT && H.free[d] != []
  }

  ghost function PopHeaders(H: Heap, d: nat): Headers
    requires CanPop(H, d)
  {
    var p := PageOf(H.free[d][0]);
    if p in H.headers && H.headers[p].Small? then H.headers[p := H.headers[p].(cnt := Less(H.headers[p].cnt))] else H.headers
  }

  ghost function Pop(H: Heap, d: nat, size: nat): Heap
    requires CanPop(H, d)
  {
    var b := H.free[d][0];
    Heap(H.bits, PopHeaders(H, d), H.free[d := H.free[d][1..]], H.live[b := size])
  }

  lemma PopShape(H: Heap, d: nat)
    requires CanPop(H, d)
    ensures SameShape(H.headers, PopHeaders(H, d))
  {
  }

  lemma ListsAt(H: Heap, d: nat)
    requires Lists(H) && d < DESC_CNT
    ensures FreeListOk(H.headers, H.free[d], d)
  {
  }

  lemma ListShape(hs: Headers, hs': Headers, q: seq<nat>, d: nat)
    requires SameShape(hs, hs') && FreeListOk(hs, q, d)
    ensures FreeListOk(hs', q, d)
  {
    hide SameShape, BlockOf, NoDup;
    forall b | b in q ensures BlockOf(hs', b, d) {
      ShapeBlocks(hs, hs', b, d);
    }
  }

  lemma PopLists(H: Heap, d: nat, size: nat)
    requires Lists(H) && CanPop(H, d)
    ensures Lists(Pop(H, d, size))
  {
    var H' := Pop(H, d, size);
    PopShape(H, d);
    forall e: nat | e < DESC_CNT ensures FreeListOk(H'.headers, H'.free[e], e) {
      ListsAt(H, e);
      ListShape(H.headers, H'.headers, H.free[e], e);
      if e == d {
        hide BlockOf, NoDup;
        PopFacts(H.free[d]);
      }
    }
  }

  /** The popped address is a block of class d in an arena of that class. */
  lemma PopBlock(H: Heap, d: nat) returns (p: nat, i: nat)
    requires Lists(H) && CanPop(H, d)
    ensures p == PageOf(H.free[d][0]) && IsBlock(H.headers, H.free[d][0], p, d, i)
  {
    ListsAt(H, d);
    p := PageOf(H.free[d][0]);
    assert H.free[d][0] in H.free[d];
    i :| IsBlock(H.headers, H.free[d][0], p, d, i);
  }

  /** The count of an arena when the list of its class changes only in blocks of another arena. */
  lemma CountElsewhere(q: seq<nat>, q': seq<nat>, p: nat, d: nat, b: nat)
    requires d < DESC_CNT && PageOf(b) != p && PerArena(d) >= 0
    requires forall x :: x != b ==> (x in q <==> x in q')
    ensures CountFree(q, p, d, PerArena(d)) == CountFree(q', p, d, PerArena(d))
  {
    forall i: nat | i < PerArena(d) ensures BlockAddr(p, d, i) in q <==> BlockAddr(p, d, i) in q' {
      BlockFacts(p, d, i);
    }
    CountSame(q, q', p, d, PerArena(d));
  }

  lemma PopCount(H: Heap, d: nat, size: nat, p: nat)
    requires Lists(H) && CanPop(H, d) && p in H.headers && CountOk(H, p) && (H.headers[p].Small? ==> H.headers[p].d < DESC_CNT)
    ensures CountOk(Pop(H, d, size), p)
  {
    var b := H.free[d][0];
    var p0, i := PopBlock(H, d);
    ListsAt(H, d);
    PopFacts(H.free[d]);
    hide Lists, FreeListOk, NoDup, PageOf, BlockAddr;
    if H.headers[p].Small? && H.headers[p].d == d {
      SizesNonNegative(d);
      if p == p0 {
        CountOne(H.free[d], H.free[d][1..], p, d, PerArena(d), i);
      } else {
        CountElsewhere(H.free[d], H.free[d][1..], p, d, b);
      }
    }
  }

  lemma PopAccounted(H: Heap, d: nat, size: nat, p: nat)
    requires Lists(H) && CanPop(H, d) && p in H.headers && Accounted(H, p)
    ensures Accounted(Pop(H, d, size), p)
  {
    ListsAt(H, d);
    PopFacts(H.free[d]);
    hide Lists, FreeListOk, NoDup, BlockAddr;
  }

  lemma PopLive(H: Heap, d: nat, size: nat, a: nat)
    requires Lists(H) && CanPop(H, d) && size <= BlockSize(d) && a in H.live && LiveOk(H, a) && a != H.free[d][0]
    ensures LiveOk(Pop(H, d, size), a)
  {
    ListsAt(H, d);
    PopFacts(H.free[d]);
    PopShape(H, d);
    hide Lists, FreeListOk, NoDup, BlockAddr, BlockOf, SameShape, PageOf, BlockSize;
    if H.headers[PageOf(a)].Small? {
      ShapeBlocks(H.headers, PopHeaders(H, d), a, H.headers[PageOf(a)].d);
    }
  }

  lemma PopNewLive(H: Heap, d: nat, size: nat)
    requires Lists(H) && CanPop(H, d) && size <= BlockSize(d)
    ensures H.free[d][0] in Pop(H, d, size).live && LiveOk(Pop(H, d, size), H.free[d][0])
  {
    var b := H.free[d][0];
    var p, i := PopBlock(H, d);
    ListsAt(H, d);
    PopFacts(H.free[d]);
    PopShape(H, d);
    ShapeBlocks(H.headers, PopHeaders(H, d), b, d);
    hide Lists, FreeListOk, NoDup, BlockAddr, SameShape, PageOf, BlockSize;
  }

  /** The invariant, and which arenas may be fully free. */
  ghost predicate InUseBut(hs: Headers, p: nat) {
    forall q :: q in hs && q != p ==> NotFull(hs[q])
  }

  lemma InvParts(H: Heap, others: seq<bool>)
    requires Inv(H, others)
    ensures HeadersOk(H.headers, |H.bits|) && BitsOk(H, others) && Lists(H) && |H.free| == DESC_CNT
    ensures forall p :: p in H.headers ==> CountOk(H, p) && Accounted(H, p)
    ensures forall a :: a in H.live ==> LiveOk(H, a)
  {
  }

  lemma InvFrom(H: Heap, others: seq<bool>)
    requires HeadersOk(H.headers, |H.bits|) && BitsOk(H, others) && Lists(H)
    requires forall p :: p in H.headers ==> CountOk(H, p) && Accounted(H, p)
    requires forall a :: a in H.live ==> LiveOk(H, a)
    ensures Inv(H, others)
  {
  }

  lemma PopSame(H: Heap, d: nat, size: nat, others: seq<bool>)
    requires HeadersOk(H.headers, |H.bits|) && BitsOk(H, others) && CanPop(H, d)
    ensures HeadersOk(Pop(H, d, size).headers, |H.bits|) && BitsOk(Pop(H, d, size), others)
  {
    PopShape(H, d);
    ShapeKeeps(H, PopHeaders(H, d), others);
    SameBits(H.(headers := PopHeaders(H, d)), Pop(H, d, size), others);
  }

  lemma SameBits(H: Heap, H': Heap, others: seq<bool>)
    requires BitsOk(H, others) && H'.bits == H.bits && H'.headers == H.headers
    ensures BitsOk(H', others)
  {
  }

  lemma PopKeeps(H: Heap, d: nat, size: nat, others: seq<bool>)
    requires Inv(H, others) && CanPop(H, d) && size <= BlockSize(d)
    ensures Inv(Pop(H, d, size), others)
  {
    InvParts(H, others);
    var H' := Pop(H, d, size);
    hide Inv, HeadersOk, BitsOk, Lists, CountOk, Accounted, LiveOk, BlockSize;
    PopLists(H, d, size);
    PopSame(H, d, size, others);
    PopNewLive(H, d, size);
    forall p | p in H'.headers ensures CountOk(H', p) && Accounted(H', p) {
      assert p in H.headers;
      DInRange(H, p);
      PopCount(H, d, size, p);
      PopAccounted(H, d, size, p);
    }
    forall a | a in H'.live ensures LiveOk(H', a) {
      if a != H.free[d][0] { PopLive(H, d, size, a); }
    }
    InvFrom(H', others);
  }

  lemma DInRange(H: Heap, p: nat)
    requires HeadersOk(H.headers, |H.bits|) && p in H.headers
    ensures H.headers[p].Small? ==> H.headers[p].d < DESC_CNT
  {
  }

  /** Popping leaves the arena it pops from in use. */
  lemma PopInUse(H: Heap, d: nat, size: nat)
    requires Lists(H) && CanPop(H, d) && InUseBut(H.headers, PageOf(H.free[d][0]))
    requires forall p :: p in H.headers ==> CountOk(H, p)
    ensures AllInUse(Pop(H, d, size).headers)
  {
    var p, i := PopBlock(H, d);
    SizesNonNegative(d);
    CountAll(H.free[d], p, d, PerArena(d));
    assert CountOk(H, p);
    assert H.free[d][0] in H.free[d];
    CountPositive(H.free[d], p, d, PerArena(d), i);
    hide Lists, BlockAddr, PageOf, CountOk, PerArena;
    var hs := PopHeaders(H, d);
    forall q | q in hs ensures NotFull(hs[q]) {
    }
  }

  lemma {:induction false} CountPositive(q: seq<nat>, p: nat, d: nat, n: nat, i: nat)
    requires i < n && BlockAddr(p, d, i) in q
    ensures CountFree(q, p, d, n) > 0
  {
    hide BlockAddr;
    if i < n - 1 { CountPositive(q, p, d, n - 1, i); }
  }

  // ---- headers that come and go ----

  lemma AddHeader(hs: Headers, bits: seq<bool>, p: nat, h: Header)
    requires HeadersOk(hs, |bits|) && Span(h) > 0 && p + Span(h) <= |bits| && (h.Small? ==> h.d < DESC_CNT)
    requires forall k: nat :: p <= k < p + Span(h) ==> !Owned(hs, k)
    ensures HeadersOk(hs[p := h], |bits|)
  {
    hide Span, Owned;
    forall q | q in hs ensures q != p && (q < p ==> q + Span(hs[q]) <= p) && (p < q ==> p + Span(h) <= q) {
      NotOwnedApart(hs, p, Span(h), q);
    }
  }

  lemma NotOwnedApart(hs: Headers, p: nat, n: nat, q: nat)
    requires q in hs && Span(hs[q]) > 0 && n > 0 && forall k: nat :: p <= k < p + n ==> !Owned(hs, k)
    ensures q != p && (q < p ==> q + Span(hs[q]) <= p) && (p < q ==> p + n <= q)
  {
    assert !Owned(hs, p);
    assert !OwnedBy(hs, p, q);
    assert OwnedBy(hs, q, q);
    assert Owned(hs, q);
  }

  lemma AddBits(H: Heap, p: nat, h: Header, bits: seq<bool>, others: seq<bool>)
    requires BitsOk(H, others) && p !in H.headers && p + Span(h) <= |H.bits|
    requires forall k :: p <= k < p + Span(h) ==> !H.bits[k]
    requires bits == Filled(H.bits, p, Span(h), true)
    ensures BitsOk(H.(headers := H.headers[p := h], bits := bits), others)
  {
    hide Span;
    var hs := H.headers[p := h];
    forall k: nat ensures Owned(hs, k) <==> Owned(H.headers, k) || p <= k < p + Span(h) {
      if Owned(H.headers, k) {
        var q :| OwnedBy(H.headers, k, q);
        assert OwnedBy(hs, k, q);
      }
      if p <= k < p + Span(h) { assert OwnedBy(hs, k, p); }
      if Owned(hs, k) {
        var q :| OwnedBy(hs, k, q);
        assert q != p ==> OwnedBy(H.headers, k, q);
      }
    }
  }

  /** Clear bits belong to no header. */
  lemma ClearIsFree(H: Heap, others: seq<bool>, p: nat, n: nat)
    requires BitsOk(H, others) && p + n <= |H.bits| && n > 0 && forall k :: p <= k < p + n ==> !H.bits[k]
    requires HeadersOk(H.headers, |H.bits|)
    ensures (forall k: nat :: p <= k < p + n ==> !Owned(H.headers, k)) && p !in H.headers
  {
    if p in H.headers {
      assert OwnedBy(H.headers, p, p);
      assert Owned(H.headers, p);
    }
  }

  lemma OwnedWithout(hs: Headers, n: nat, p: nat, k: nat)
    requires HeadersOk(hs, n) && p in hs
    ensures Owned(hs - {p}, k) <==> Owned(hs, k) && !(p <= k < p + Span(hs[p]))
  {
    hide Span;
    if Owned(hs - {p}, k) {
      var q :| OwnedBy(hs - {p}, k, q);
      assert OwnedBy(hs, k, q);
    }
    if Owned(hs, k) {
      var q :| OwnedBy(hs, k, q);
      if q != p { assert OwnedBy(hs - {p}, k, q); }
    }
  }

  lemma RemoveHeader(H: Heap, p: nat, others: seq<bool>)
    requires HeadersOk(H.headers, |H.bits|) && BitsOk(H, others) && p in H.headers
    ensures p + Span(H.headers[p]) <= |H.bits| && HeadersOk(H.headers - {p}, |H.bits|)
    ensures BitsOk(H.(headers := H.headers - {p}, bits := Filled(H.bits, p, Span(H.headers[p]), false)), others)
  {
    var bits := Filled(H.bits, p, Span(H.headers[p]), false);
    HeldIsSet(H, p, others);
    forall k: nat | k < |bits|
      ensures (bits[k] <==> others[k] || Owned(H.headers - {p}, k)) && !(others[k] && Owned(H.headers - {p}, k))
    {
      OwnedWithout(H.headers, |H.bits|, p, k);
      if p <= k < p + Span(H.headers[p]) {
        assert OwnedBy(H.headers, k, p);
        assert Owned(H.headers, k);
      }
    }
  }

  /** Every page of a header is marked. */
  lemma HeldIsSet(H: Heap, p: nat, others: seq<bool>)
    requires HeadersOk(H.headers, |H.bits|) && BitsOk(H, others) && p in H.headers
    ensures p + Span(H.headers[p]) <= |H.bits|
    ensures forall k :: p <= k < p + Span(H.headers[p]) ==> H.bits[k]
  {
    hide Span;
    forall k: nat | p <= k < p + Span(H.headers[p]) ensures H.bits[k] {
      assert OwnedBy(H.headers, k, p);
      assert Owned(H.headers, k);
    }
  }

  /** Header tables that agree away from page `p`. */
  ghost predicate AgreeBut(hs: Headers, hs': Headers, p: nat) {
    forall q :: q != p ==> (q in hs <==> q in hs') && (q in hs ==> hs'[q] == hs[q])
  }

  lemma BlockElsewhere(hs: Headers, hs': Headers, p: nat, b: nat, d: nat)
    requires AgreeBut(hs, hs', p) && PageOf(b) != p
    ensures BlockOf(hs, b, d) == BlockOf(hs', b, d)
  {
    hide BlockAddr, PageOf, PerArena;
    if BlockOf(hs, b, d) {
      var i: nat :| IsBlock(hs, b, PageOf(b), d, i);
      assert IsBlock(hs', b, PageOf(b), d, i);
    }
    if BlockOf(hs', b, d) {
      var i: nat :| IsBlock(hs', b, PageOf(b), d, i);
      assert IsBlock(hs, b, PageOf(b), d, i);
    }
  }

  // ---- a new arena ----

  /** The order in which create_free_blocks appends the blocks. */
  function Blocks(p: nat, d: nat, n: nat): (q: seq<nat>)
    ensures |q| == n
    ensures forall i :: 0 <= i < n ==> q[i] == BlockAddr(p, d, i)
  {
    if n == 0 then [] else Blocks(p, d, n - 1) + [BlockAddr(p, d, n - 1)]
  }

  lemma BlocksMembers(p: nat, d: nat, n: nat)
    requires d < DESC_CNT && n <= PerArena(d)
    ensures NoDup(Blocks(p, d, n))
    ensures forall b :: b in Blocks(p, d, n) ==> PageOf(b) == p
    ensures forall i: nat :: i < n ==> BlockAddr(p, d, i) in Blocks(p, d, n)
  {
    var q := Blocks(p, d, n);
    hide Blocks, PageOf, BlockAddr, PerArena;
    forall i, j | 0 <= i < j < |q| ensures q[i] != q[j] {
      SizesPositive(d);
      BlocksApart(p, d, i, j);
    }
    forall b | b in q ensures PageOf(b) == p {
      var i :| 0 <= i < |q| && q[i] == b;
      BlockFacts(p, d, i);
    }
    forall i: nat | i < n ensures BlockAddr(p, d, i) in q {
      assert q[i] in q;
    }
  }

  lemma SizesPositive(d: nat)
    ensures BlockSize(d) > 0
  {
  }

  ghost function NewHeaders(H: Heap, p: nat, d: nat): Headers
    requires d < DESC_CNT
  {
    SizesNonNegative(d);
    H.headers[p := Small(d, PerArena(d))]
  }

  ghost function NewArena(H: Heap, p: nat, d: nat): Heap
    requires |H.free| == DESC_CNT && d < DESC_CNT && p < |H.bits|
  {
    SizesNonNegative(d);
    Heap(Filled(H.bits, p, 1, true), NewHeaders(H, p, d), H.free[d := H.free[d] + Blocks(p, d, PerArena(d))], H.live)
  }

  lemma AppendAll(q: seq<nat>, r: seq<nat>)
    requires NoDup(q) && NoDup(r) && forall b :: b in q ==> b !in r
    ensures NoDup(q + r)
  {
    var s := q + r;
    forall i, j | 0 <= i < j < |s| ensures s[i] != s[j] {
      if i < |q| <= j {
        assert q[i] in q && r[j - |q|] in r;
      }
    }
  }

  lemma ListPages(H: Heap, d: nat, b: nat)
    requires Lists(H) && d < DESC_CNT && b in H.free[d]
    ensures PageOf(b) in H.headers
  {
    ListsAt(H, d);
  }

  lemma NewLists(H: Heap, p: nat, d: nat)
    requires Lists(H) && d < DESC_CNT && p < |H.bits| && p !in H.headers
    ensures Lists(NewArena(H, p, d))
  {
    var H' := NewArena(H, p, d);
    SizesNonNegative(d);
    var blocks := Blocks(p, d, PerArena(d));
    BlocksMembers(p, d, PerArena(d));
    forall e: nat | e < DESC_CNT ensures FreeListOk(H'.headers, H'.free[e], e) {
      ListsAt(H, e);
      NewListOld(H, p, d, e);
      if e == d {
        forall b | b in H.free[d] ensures b !in blocks { ListPages(H, d, b); }
        NewBlocksOk(H, p, d);
        hide PageOf, BlockAddr, PerArena, Blocks, BlockOf;
        AppendAll(H.free[d], blocks);
      }
    }
  }

  lemma NewListOld(H: Heap, p: nat, d: nat, e: nat)
    requires Lists(H) && d < DESC_CNT && e < DESC_CNT && p < |H.bits| && p !in H.headers
    ensures FreeListOk(NewHeaders(H, p, d), H.free[e], e)
  {
    ListsAt(H, e);
    hide BlockOf, NoDup, PerArena;
    forall b | b in H.free[e] ensures BlockOf(NewHeaders(H, p, d), b, e) {
      ListPages(H, e, b);
      BlockElsewhere(H.headers, NewHeaders(H, p, d), p, b, e);
    }
  }

  lemma NewBlocksOk(H: Heap, p: nat, d: nat)
    requires d < DESC_CNT && PerArena(d) >= 0
    ensures forall b :: b in Blocks(p, d, PerArena(d)) ==> BlockOf(NewHeaders(H, p, d), b, d)
  {
    var q := Blocks(p, d, PerArena(d));
    forall b | b in q ensures BlockOf(NewHeaders(H, p, d), b, d) {
      var i :| 0 <= i < |q| && q[i] == b;
      BlockFacts(p, d, i);
      hide PageOf, BlockAddr, PerArena;
      assert IsBlock(NewHeaders(H, p, d), b, p, d, i);
    }
  }

  lemma NewCount(H: Heap, p: nat, d: nat, q: nat)
    requires Lists(H) && d < DESC_CNT && p < |H.bits| && p !in H.headers
    requires q in NewHeaders(H, p, d) && (q != p ==> CountOk(H, q) && (H.headers[q].Small? ==> H.headers[q].d < DESC_CNT))
    ensures CountOk(NewArena(H, p, d), q)
  {
    var H' := NewArena(H, p, d);
    SizesNonNegative(d);
    BlocksMembers(p, d, PerArena(d));
    if q == p {
      hide Lists, BlockAddr, PageOf, PerArena, Blocks, BlockSize;
      CountAll(H'.free[d], p, d, PerArena(d));
    } else if H.headers[q].Small? && H.headers[q].d == d {
      forall i: nat | i < PerArena(d) ensures BlockAddr(q, d, i) in H.free[d] <==> BlockAddr(q, d, i) in H'.free[d] {
        BlockFacts(q, d, i);
      }
      hide Lists, BlockAddr, PageOf, PerArena, Blocks, BlockSize;
      CountSame(H.free[d], H'.free[d], q, d, PerArena(d));
    }
  }

  lemma NewAccounted(H: Heap, p: nat, d: nat, q: nat)
    requires Lists(H) && d < DESC_CNT && p < |H.bits| && q in NewHeaders(H, p, d) && (q != p ==> Accounted(H, q))
    ensures Accounted(NewArena(H, p, d), q)
  {
    SizesNonNegative(d);
    BlocksMembers(p, d, PerArena(d));
    hide Lists, BlockAddr, PageOf, PerArena, Blocks;
  }

  lemma NewLive(H: Heap, p: nat, d: nat, a: nat)
    requires Lists(H) && d < DESC_CNT && p < |H.bits| && p !in H.headers && a in H.live && LiveOk(H, a)
    ensures LiveOk(NewArena(H, p, d), a)
  {
    SizesNonNegative(d);
    BlocksMembers(p, d, PerArena(d));
    hide Lists, BlockAddr, PageOf, PerArena, Blocks, BlockOf, BlockSize;
    if H.headers[PageOf(a)].Small? {
      BlockElsewhere(H.headers, NewHeaders(H, p, d), p, a, H.headers[PageOf(a)].d);
    }
  }

  /** create_free_blocks keeps the invariant; only the new arena is fully free. */
  lemma NewArenaKeeps(H: Heap, p: nat, d: nat, others: seq<bool>)
    requires Inv(H, others) && d < DESC_CNT && p < |H.bits| && !H.bits[p]
    ensures |H.free| == DESC_CNT && Inv(NewArena(H, p, d), others) && p !in H.headers
    ensures AllInUse(H.headers) ==> InUseBut(NewArena(H, p, d).headers, p)
  {
    InvParts(H, others);
    ClearIsFree(H, others, p, 1);
    var H' := NewArena(H, p, d);
    SizesNonNegative(d);
    AddHeader(H.headers, H.bits, p, Small(d, PerArena(d)));
    AddBits(H, p, Small(d, PerArena(d)), H'.bits, others);
    SameBits(H.(headers := H'.headers, bits := H'.bits), H', others);
    hide Inv, HeadersOk, BitsOk, Lists, CountOk, Accounted, LiveOk, BlockSize, PerArena;
    NewLists(H, p, d);
    forall q | q in H'.headers ensures CountOk(H', q) && Accounted(H', q) {
      if q != p { DInRange(H, q); }
      NewCount(H, p, d, q);
      NewAccounted(H, p, d, q);
    }
    forall a | a in H'.live ensures LiveOk(H', a) {
      NewLive(H, p, d, a);
    }
    InvFrom(H', others);
  }

  // ---- large allocations ----

  ghost function NewLarge(H: Heap, p: nat, n: nat, size: nat): Heap
    requires p + n <= |H.bits|
  {
    Heap(Filled(H.bits, p, n, true), H.headers[p := Large(n)], H.free, H.live[LargePtr(p) := size])
  }

  lemma ElsewhereLists(H: Heap, hs: Headers, p: nat)
    requires Lists(H) && AgreeBut(H.headers, hs, p)
    requires forall d: nat, b :: d < DESC_CNT && b in H.free[d] ==> PageOf(b) != p
    ensures Lists(H.(headers := hs))
  {
    forall d: nat | d < DESC_CNT ensures FreeListOk(hs, H.free[d], d) {
      ListsAt(H, d);
      hide BlockOf, NoDup, PageOf;
      forall b | b in H.free[d] ensures BlockOf(hs, b, d) {
        BlockElsewhere(H.headers, hs, p, b, d);
      }
    }
  }

  lemma SameLists(H: Heap, H': Heap)
    requires Lists(H) && H'.headers == H.headers && H'.free == H.free
    ensures Lists(H')
  {
  }

  lemma LargeLists(H: Heap, p: nat, n: nat, size: nat)
    requires Lists(H) && p + n <= |H.bits| && p !in H.headers
    ensures Lists(NewLarge(H, p, n, size))
  {
    forall d: nat, b | d < DESC_CNT && b in H.free[d] ensures PageOf(b) != p {
      ListPages(H, d, b);
    }
    hide Lists;
    ElsewhereLists(H, NewLarge(H, p, n, size).headers, p);
    SameLists(H.(headers := NewLarge(H, p, n, size).headers), NewLarge(H, p, n, size));
  }

  lemma LargeAddr(p: nat)
    ensures PageOf(LargePtr(p)) == p
  {
  }

  lemma LargeLive(H: Heap, p: nat, n: nat, size: nat, a: nat)
    requires Lists(H) && p + n <= |H.bits| && p !in H.headers && a in NewLarge(H, p, n, size).live
    requires a != LargePtr(p) ==> LiveOk(H, a)
    requires size + 16 <= n * PG_SIZE || Wraps(size)
    ensures LiveOk(NewLarge(H, p, n, size), a)
  {
    LargeAddr(p);
    hide Lists, PageOf, BlockOf, BlockSize;
    if a != LargePtr(p) && H.headers[PageOf(a)].Small? {
      BlockElsewhere(H.headers, NewLarge(H, p, n, size).headers, p, a, H.headers[PageOf(a)].d);
    }
  }

  /** The large branch of sys_malloc keeps the invariant. */
  lemma NewLargeKeeps(H: Heap, p: nat, n: nat, size: nat, others: seq<bool>)
    requires Inv(H, others) && n > 0 && p + n <= |H.bits| && forall k :: p <= k < p + n ==> !H.bits[k]
    requires size + 16 <= n * PG_SIZE || Wraps(size)
    ensures Inv(NewLarge(H, p, n, size), others) && (AllInUse(H.headers) ==> AllInUse(NewLarge(H, p, n, size).headers))
  {
    InvParts(H, others);
    ClearIsFree(H, others, p, n);
    var H' := NewLarge(H, p, n, size);
    AddHeader(H.headers, H.bits, p, Large(n));
    AddBits(H, p, Large(n), H'.bits, others);
    SameBits(H.(headers := H'.headers, bits := H'.bits), H', others);
    hide Inv, HeadersOk, BitsOk, Lists, LiveOk;
    LargeLists(H, p, n, size);
    forall q | q in H'.headers ensures CountOk(H', q) && Accounted(H', q) {
      LargeCount(H, p, n, size, q);
    }
    forall a | a in H'.live ensures LiveOk(H', a) {
      LargeLive(H, p, n, size, a);
    }
    hide CountOk, Accounted;
    InvFrom(H', others);
  }

  lemma LargeCount(H: Heap, p: nat, n: nat, size: nat, q: nat)
    requires |H.free| == DESC_CNT && p + n <= |H.bits| && q in NewLarge(H, p, n, size).headers
    requires q != p ==> CountOk(H, q) && Accounted(H, q)
    ensures CountOk(NewLarge(H, p, n, size), q) && Accounted(NewLarge(H, p, n, size), q)
  {
    hide BlockAddr, PerArena, CountFree;
  }

  // ---- giving a block back ----

  ghost predicate CanPush(H: Heap, a: nat, d: nat) {
    |H.free| == DESC_CNT && d < DESC_CNT && a in H.live && BlockOf(H.headers, a, d) && a !in H.free[d]
  }

  ghost function PushHeaders(H: Heap, a: nat): Headers {
    var p := PageOf(a);
    if p in H.headers && H.headers[p].Small? then H.headers[p := H.headers[p].(cnt := H.headers[p].cnt + 1)] else H.headers
  }

  ghost function Push(H: Heap, a: nat, d: nat): Heap
    requires CanPush(H, a, d)
  {
    Heap(H.bits, PushHeaders(H, a), H.free[d := H.free[d] + [a]], H.live - {a})
  }

  lemma PushShape(H: Heap, a: nat)
    ensures SameShape(H.headers, PushHeaders(H, a))
  {
  }

  lemma PushLists(H: Heap, a: nat, d: nat)
    requires Lists(H) && CanPush(H, a, d)
    ensures Lists(Push(H, a, d))
  {
    var H' := Push(H, a, d);
    PushShape(H, a);
    forall e: nat | e < DESC_CNT ensures FreeListOk(H'.headers, H'.free[e], e) {
      ListsAt(H, e);
      ListShape(H.headers, H'.headers, H.free[e], e);
      if e == d {
        ShapeBlocks(H.headers, H'.headers, a, d);
        hide BlockOf, NoDup;
        AppendFacts(H.free[d], a);
      }
    }
  }

  lemma PushCount(H: Heap, a: nat, d: nat, p: nat)
    requires CanPush(H, a, d) && p in H.headers && CountOk(H, p) && (H.headers[p].Small? ==> H.headers[p].d < DESC_CNT)
    ensures CountOk(Push(H, a, d), p)
  {
    var p0 := PageOf(a);
    var i: nat :| IsBlock(H.headers, a, p0, d, i);
    var q' := H.free[d] + [a];
    hide NoDup, PageOf, BlockAddr;
    if H.headers[p].Small? && H.headers[p].d == d {
      SizesNonNegative(d);
      if p == p0 {
        assert DifferAt(q', H.free[d], p, d, i);
        CountOne(q', H.free[d], p, d, PerArena(d), i);
      } else {
        CountElsewhere(H.free[d], q', p, d, a);
      }
    }
  }

  lemma BlockIsNoLarge(H: Heap, a: nat, d: nat, p: nat)
    requires BlockOf(H.headers, a, d) && p in H.headers && H.headers[p].Large?
    ensures a != LargePtr(p)
  {
    hide LargePtr, PageOf, PerArena, BlockSize, BlockAddr;
    LargeAddr(p);
  }

  lemma BlockClass(hs: Headers, a: nat, d: nat, p: nat, e: nat, i: nat)
    requires BlockOf(hs, a, d) && p in hs && hs[p].Small? && hs[p].d == e && e < DESC_CNT && i < PerArena(e) && a == BlockAddr(p, e, i)
    ensures e == d
  {
    BlockFacts(p, e, i);
  }

  lemma PushAccounted(H: Heap, a: nat, d: nat, p: nat)
    requires CanPush(H, a, d) && p in H.headers && Accounted(H, p)
    ensures Accounted(Push(H, a, d), p)
  {
    hide NoDup, BlockAddr, BlockOf, PerArena, BlockSize, LargePtr;
    var hs := PushHeaders(H, a);
    assert hs[p].Small? == H.headers[p].Small? && (hs[p].Small? ==> hs[p].d == H.headers[p].d);
    hide PageOf, PushHeaders;
    if H.headers[p].Large? {
      BlockIsNoLarge(H, a, d, p);
    } else {
      var e := H.headers[p].d;
      forall i: nat | i < PerArena(e)
        ensures BlockAddr(p, e, i) in Push(H, a, d).free[e] || BlockAddr(p, e, i) in Push(H, a, d).live
      {
        if BlockAddr(p, e, i) == a { BlockClass(H.headers, a, d, p, e, i); }
      }
    }
  }

  lemma PushLive(H: Heap, a: nat, d: nat, c: nat)
    requires CanPush(H, a, d) && c in H.live && c != a && LiveOk(H, c)
    ensures LiveOk(Push(H, a, d), c)
  {
    PushShape(H, a);
    hide NoDup, BlockAddr, BlockOf, SameShape, PageOf, BlockSize;
    if H.headers[PageOf(c)].Small? {
      ShapeBlocks(H.headers, PushHeaders(H, a), c, H.headers[PageOf(c)].d);
    }
  }

  lemma PushKeeps(H: Heap, a: nat, d: nat, others: seq<bool>)
    requires Inv(H, others) && CanPush(H, a, d)
    ensures Inv(Push(H, a, d), others) && (AllInUse(H.headers) ==> InUseBut(Push(H, a, d).headers, PageOf(a)))
  {
    InvParts(H, others);
    var H' := Push(H, a, d);
    PushShape(H, a);
    ShapeKeeps(H, PushHeaders(H, a), others);
    SameBits(H.(headers := PushHeaders(H, a)), H', others);
    hide Inv, HeadersOk, BitsOk, Lists, CountOk, Accounted, LiveOk, BlockSize;
    PushLists(H, a, d);
    forall p | p in H'.headers ensures CountOk(H', p) && Accounted(H', p) {
      DInRange(H, p);
      PushCount(H, a, d, p);
      PushAccounted(H, a, d, p);
    }
    forall c | c in H'.live ensures LiveOk(H', c) {
      PushLive(H, a, d, c);
    }
    InvFrom(H', others);
  }

  // ---- giving an arena back ----

  /** list_remove of every element of `rm`. */
  function Minus(q: seq<nat>, rm: seq<nat>): seq<nat> {
    if q == [] then [] else (if q[0] in rm then [] else [q[0]]) + Minus(q[1..], rm)
  }

  lemma {:induction false} MinusMembers(q: seq<nat>, rm: seq<nat>)
    ensures forall b :: b in Minus(q, rm) <==> b in q && b !in rm
  {
    if q != [] { MinusMembers(q[1..], rm); }
  }

  lemma {:induction false} MinusNoDup(q: seq<nat>, rm: seq<nat>)
    requires NoDup(q)
    ensures NoDup(Minus(q, rm))
  {
    if q != [] {
      PopFacts(q);
      MinusNoDup(q[1..], rm);
      MinusMembers(q[1..], rm);
      hide NoDup;
      if q[0] !in rm { AppendFacts(Minus(q[1..], rm), q[0]); }
    }
  }

  /** Removing one more element. */
  lemma {:induction false} MinusStep(q: seq<nat>, rm: seq<nat>, b: nat)
    ensures Minus(Minus(q, rm), [b]) == Minus(q, rm + [b])
  {
    if q != [] {
      MinusStep(q[1..], rm, b);
      var m := Minus(q, rm);
      assert q[0] in rm + [b] <==> q[0] in rm || q[0] == b;
      if q[0] !in rm {
        assert m == [q[0]] + Minus(q[1..], rm);
        assert m[1..] == Minus(q[1..], rm) && m[0] == q[0];
      } else {
        assert m == Minus(q[1..], rm);
      }
    }
  }

  lemma {:induction false} MinusNothing(q: seq<nat>)
    ensures Minus(q, []) == q
  {
    if q != [] { MinusNothing(q[1..]); }
  }

  ghost predicate IsFull(H: Heap, p: nat, d: nat) {
    |H.free| == DESC_CNT && d < DESC_CNT && p in H.headers && H.headers[p].Small? && H.headers[p].d == d
    && H.headers[p].cnt == PerArena(d) && p < |H.bits|
  }

  ghost function Drop(H: Heap, p: nat, d: nat): Heap
    requires IsFull(H, p, d)
  {
    Heap(Filled(H.bits, p, 1, false), H.headers - {p}, H.free[d := Minus(H.free[d], Blocks(p, d, PerArena(d)))], H.live)
  }

  /** The assertion of sys_free: every block of a fully free arena is on the free list. */
  lemma AllBlocksFree(H: Heap, p: nat, d: nat)
    requires IsFull(H, p, d) && CountOk(H, p)
    ensures forall i: nat :: i < PerArena(d) ==> BlockAddr(p, d, i) in H.free[d]
  {
    SizesNonNegative(d);
    hide BlockAddr;
    CountAll(H.free[d], p, d, PerArena(d));
  }

  /** A block of page `p` on a list of class `d` is one of its arena's blocks. */
  lemma OnlyBlocks(H: Heap, p: nat, d: nat, b: nat)
    requires Lists(H) && IsFull(H, p, d) && b in H.free[d] && PageOf(b) == p && PerArena(d) >= 0
    ensures b in Blocks(p, d, PerArena(d))
  {
    ListsAt(H, d);
    var i: nat :| IsBlock(H.headers, b, p, d, i);
    BlocksMembers(p, d, PerArena(d));
  }

  lemma DropLists(H: Heap, p: nat, d: nat)
    requires Lists(H) && IsFull(H, p, d)
    ensures Lists(Drop(H, p, d))
  {
    var H' := Drop(H, p, d);
    forall e: nat | e < DESC_CNT ensures FreeListOk(H'.headers, H'.free[e], e) {
      DropList(H, p, d, e);
    }
  }

  lemma DropList(H: Heap, p: nat, d: nat, e: nat)
    requires Lists(H) && IsFull(H, p, d) && e < DESC_CNT
    ensures FreeListOk(Drop(H, p, d).headers, Drop(H, p, d).free[e], e)
  {
    var H' := Drop(H, p, d);
    ListsAt(H, e);
    var rm := Blocks(p, d, PerArena(d));
    MinusNoDup(H.free[d], rm) by { ListsAt(H, d); }
    MinusMembers(H.free[d], rm);
    forall b | b in H'.free[e] ensures BlockOf(H'.headers, b, e) {
      assert b in H.free[e];
      if PageOf(b) == p {
        OtherClass(H, p, d, e, b);
        OnlyBlocks(H, p, d, b);
      }
      BlockElsewhere(H.headers, H'.headers, p, b, e);
    }
  }

  lemma OtherClass(H: Heap, p: nat, d: nat, e: nat, b: nat)
    requires Lists(H) && IsFull(H, p, d) && e < DESC_CNT && b in H.free[e] && PageOf(b) == p
    ensures e == d
  {
    ListsAt(H, e);
  }

  lemma DropCount(H: Heap, p: nat, d: nat, q: nat)
    requires IsFull(H, p, d) && q in H.headers && q != p && CountOk(H, q) && (H.headers[q].Small? ==> H.headers[q].d < DESC_CNT)
    ensures CountOk(Drop(H, p, d), q)
  {
    var rm := Blocks(p, d, PerArena(d));
    MinusMembers(H.free[d], rm);
    BlocksMembers(p, d, PerArena(d));
    if H.headers[q].Small? && H.headers[q].d == d {
      forall i: nat | i < PerArena(d) ensures BlockAddr(q, d, i) in H.free[d] <==> BlockAddr(q, d, i) in Minus(H.free[d], rm) {
        BlockFacts(q, d, i);
      }
      hide BlockAddr, PageOf, PerArena, Blocks, BlockSize;
      CountSame(H.free[d], Minus(H.free[d], rm), q, d, PerArena(d));
    }
  }

  lemma DropAccounted(H: Heap, p: nat, d: nat, q: nat)
    requires IsFull(H, p, d) && q in H.headers && q != p && Accounted(H, q)
    ensures Accounted(Drop(H, p, d), q)
  {
    var rm := Blocks(p, d, PerArena(d));
    MinusMembers(H.free[d], rm);
    BlocksMembers(p, d, PerArena(d));
    if H.headers[q].Small? && H.headers[q].d == d {
      forall i: nat | i < PerArena(d) ensures BlockAddr(q, d, i) !in rm {
        BlockFacts(q, d, i);
      }
    }
    hide BlockAddr, PageOf, PerArena, Blocks, BlockSize;
  }

  lemma BlockIsFree(H: Heap, p: nat, d: nat, a: nat)
    requires IsFull(H, p, d) && CountOk(H, p) && PageOf(a) == p && BlockOf(H.headers, a, d)
    ensures a in H.free[d]
  {
    AllBlocksFree(H, p, d);
    var i: nat :| IsBlock(H.headers, a, p, d, i);
  }

  /** No live address lies in a fully free arena. */
  lemma DropLive(H: Heap, p: nat, d: nat, a: nat)
    requires IsFull(H, p, d) && CountOk(H, p) && a in H.live && LiveOk(H, a)
    ensures PageOf(a) != p && LiveOk(Drop(H, p, d), a)
  {
    if PageOf(a) == p { BlockIsFree(H, p, d, a); }
    MinusMembers(H.free[d], Blocks(p, d, PerArena(d)));
    hide BlockAddr, PageOf, PerArena, Blocks, BlockSize, BlockOf;
    if H.headers[PageOf(a)].Small? {
      BlockElsewhere(H.headers, H.headers - {p}, p, a, H.headers[PageOf(a)].d);
    }
  }

  lemma DropKeeps(H: Heap, p: nat, d: nat, others: seq<bool>)
    requires Inv(H, others) && IsFull(H, p, d)
    ensures Inv(Drop(H, p, d), others) && (InUseBut(H.headers, p) ==> AllInUse(Drop(H, p, d).headers))
  {
    InvParts(H, others);
    var H' := Drop(H, p, d);
    RemoveHeader(H, p, others);
    SameBits(H.(headers := H'.headers, bits := H'.bits), H', others);
    hide Inv, HeadersOk, BitsOk, Lists, CountOk, Accounted, LiveOk, BlockSize, PerArena, Blocks;
    DropLists(H, p, d);
    forall q | q in H'.headers ensures CountOk(H', q) && Accounted(H', q) {
      DInRange(H, q);
      DropCount(H, p, d, q);
      DropAccounted(H, p, d, q);
    }
    forall a | a in H'.live ensures LiveOk(H', a) {
      DropLive(H, p, d, a);
    }
    InvFrom(H', others);
  }

  // ---- giving pages back ----

  ghost predicate IsLarge(H: Heap, p: nat) {
    p in H.headers && H.headers[p].Large? && p + H.headers[p].pages <= |H.bits|
  }

  ghost function FreeLarge(H: Heap, p: nat): Heap
    requires IsLarge(H, p)
  {
    Heap(Filled(H.bits, p, H.headers[p].pages, false), H.headers - {p}, H.free, H.live - {LargePtr(p)})
  }

  lemma FreeLargeLists(H: Heap, p: nat)
    requires Lists(H) && IsLarge(H, p)
    ensures Lists(FreeLarge(H, p))
  {
    forall d: nat, b | d < DESC_CNT && b in H.free[d] ensures PageOf(b) != p {
      ListsAt(H, d);
    }
    hide Lists;
    ElsewhereLists(H, H.headers - {p}, p);
    SameLists(H.(headers := H.headers - {p}), FreeLarge(H, p));
  }

  lemma FreeLargeLive(H: Heap, p: nat, a: nat)
    requires |H.free| == DESC_CNT && IsLarge(H, p) && a in H.live && LiveOk(H, a) && a != LargePtr(p)
    ensures LiveOk(FreeLarge(H, p), a)
  {
    hide BlockAddr, BlockOf, BlockSize, PageOf;
    if H.headers[PageOf(a)].Small? {
      BlockElsewhere(H.headers, H.headers - {p}, p, a, H.headers[PageOf(a)].d);
    }
  }

  lemma FreeLargeCount(H: Heap, p: nat, q: nat)
    requires |H.free| == DESC_CNT && IsLarge(H, p) && q in H.headers && q != p && CountOk(H, q) && Accounted(H, q)
    ensures CountOk(FreeLarge(H, p), q) && Accounted(FreeLarge(H, p), q)
  {
    LargeAddr(p);
    if H.headers[q].Small? && H.headers[q].d < DESC_CNT {
      var d := H.headers[q].d;
      forall i: nat | i < PerArena(d) ensures BlockAddr(q, d, i) != LargePtr(p) {
        BlockFacts(q, d, i);
      }
    }
    hide BlockAddr, PerArena, CountFree, PageOf;
  }

  lemma FreeLargeSame(H: Heap, p: nat, others: seq<bool>)
    requires HeadersOk(H.headers, |H.bits|) && BitsOk(H, others) && IsLarge(H, p)
    ensures HeadersOk(FreeLarge(H, p).headers, |H.bits|) && BitsOk(FreeLarge(H, p), others)
  {
    hide HeadersOk, BitsOk;
    RemoveHeader(H, p, others);
    var bits := Filled(H.bits, p, H.headers[p].pages, false);
    SameBits(H.(headers := H.headers - {p}, bits := bits), FreeLarge(H, p), others);
  }

  lemma FreeLargeKeeps(H: Heap, p: nat, others: seq<bool>)
    requires Inv(H, others) && IsLarge(H, p)
    ensures Inv(FreeLarge(H, p), others) && (AllInUse(H.headers) ==> AllInUse(FreeLarge(H, p).headers))
  {
    InvParts(H, others);
    var H' := FreeLarge(H, p);
    FreeLargeSame(H, p, others);
    hide Inv, HeadersOk, BitsOk, Lists, CountOk, Accounted, LiveOk, Filled, LargePtr, NotFull;
    FreeLargeLists(H, p);
    forall q | q in H'.headers ensures CountOk(H', q) && Accounted(H', q) {
      FreeLargeCount(H, p, q);
    }
    forall a | a in H'.live ensures LiveOk(H', a) {
      FreeLargeLive(H, p, a);
    }
    InvFrom(H', others);
  }

  // ---- pages taken and lost ----

  /** Pages that alloc_pages marks before it runs out of frames stay marked and belong to nobody. */
  lemma LeakKeeps(H: Heap, others: seq<bool>, p: nat, n: nat)
    requires Inv(H, others) && p + n <= |H.bits| && forall k :: p <= k < p + n ==> !H.bits[k]
    ensures |others| == |H.bits| && Inv(H.(bits := Filled(H.bits, p, n, true)), Filled(others, p, n, true))
  {
    InvParts(H, others);
    var H' := H.(bits := Filled(H.bits, p, n, true));
    LeakBits(H, others, p, n);
    hide Inv, BitsOk, HeadersOk;
    SameLists(H, H');
    hide Lists;
    forall q | q in H'.headers ensures CountOk(H', q) && Accounted(H', q) {
      assert CountOk(H, q) && Accounted(H, q);
    }
    forall a | a in H'.live ensures LiveOk(H', a) {
      assert LiveOk(H, a);
    }
    InvFrom(H', Filled(others, p, n, true));
  }

  lemma LeakBits(H: Heap, others: seq<bool>, p: nat, n: nat)
    requires BitsOk(H, others) && p + n <= |H.bits| && forall k :: p <= k < p + n ==> !H.bits[k]
    ensures BitsOk(H.(bits := Filled(H.bits, p, n, true)), Filled(others, p, n, true))
  {
  }
}
