/** What sys_malloc and sys_free leave in the headers, the free lists, the bitmap and the set of live addresses. */
module HeapEffects {
  import opened Basics
  import opened Bitmaps
  import opened Arenas
  import opened ArenaSteps
  import opened ArenaHeap

  /** The bits from `p` up to `p + n` are `b`, the others as they were. */
  ghost predicate BitsSet(bits: seq<bool>, bits': seq<bool>, p: nat, n: nat, b: bool) {
    |bits'| == |bits| && forall k :: 0 <= k < |bits| ==> bits'[k] == if p <= k < p + n then b else bits[k]
  }

  /** Only the list of class `d` differs. */
  ghost predicate OnlyList(H: Heap, K: Heap, d: nat) {
    |H.free| == DESC_CNT && |K.free| == DESC_CNT && d < DESC_CNT && forall e :: 0 <= e < DESC_CNT && e != d ==> K.free[e] == H.free[e]
  }

  /** What stays of a list without the blocks of page `p`, in the same order. */
  ghost function Elsewhere(q: seq<nat>, p: nat): seq<nat> {
    if q == [] then [] else (if PageOf(q[0]) == p then [] else [q[0]]) + Elsewhere(q[1..], p)
  }

  // ---- sys_free ----

  /** Freeing a run of pages gives back exactly those pages. */
  lemma FreedRun(H: Heap, others: seq<bool>, a: nat)
    requires Inv(H, others) && a in H.live && PageOf(a) in H.headers && H.headers[PageOf(a)].Large?
    ensures var p := PageOf(a); var K := Freed(H, a);
            && BitsSet(H.bits, K.bits, p, H.headers[p].pages, false) && K.headers == H.headers - {p}
            && K.free == H.free && K.live == H.live - {a}
  {
    LiveHeader(H, a, others);
    hide Inv, PageOf;
  }

  lemma {:induction false} MinusElsewhere(q: seq<nat>, rm: seq<nat>, p: nat)
    requires forall b :: b in q ==> (b in rm <==> PageOf(b) == p)
    ensures Minus(q, rm) == Elsewhere(q, p)
  {
    hide PageOf;
    if q != [] {
      assert q[0] in q;
      forall b | b in q[1..] ensures b in rm <==> PageOf(b) == p { assert b in q; }
      MinusElsewhere(q[1..], rm, p);
    }
  }

  lemma {:induction false} ElsewhereAppend(q: seq<nat>, b: nat, p: nat)
    ensures Elsewhere(q + [b], p) == Elsewhere(q, p) + if PageOf(b) == p then [] else [b]
  {
    hide PageOf;
    if q == [] {
      assert q + [b] == [b] && [b][1..] == [];
    } else {
      assert (q + [b])[1..] == q[1..] + [b];
      ElsewhereAppend(q[1..], b, p);
    }
  }

  /** Dropping an arena takes its blocks, and no other, off the list of its class. */
  lemma DropList(H: Heap, p: nat, d: nat)
    requires Lists(H) && IsFull(H, p, d)
    ensures Drop(H, p, d).free == H.free[d := Elsewhere(H.free[d], p)]
  {
    SizesNonNegative(d);
    BlocksMembers(p, d, PerArena(d));
    var rm := Blocks(p, d, PerArena(d));
    hide PageOf, PerArena, Blocks, BlockAddr, IsFull;
    forall b | b in H.free[d] ensures b in rm <==> PageOf(b) == p {
      if PageOf(b) == p { OnlyBlocks(H, p, d, b); }
    }
    MinusElsewhere(H.free[d], rm, p);
    DropIs(H, p, d);
  }

  lemma DropIs(H: Heap, p: nat, d: nat)
    requires IsFull(H, p, d)
    ensures PerArena(d) >= 0 && |H.free| == DESC_CNT && d < DESC_CNT && p < |H.bits| && p in H.headers
    ensures Drop(H, p, d) == Heap(Filled(H.bits, p, 1, false), H.headers - {p}, H.free[d := Minus(H.free[d], Blocks(p, d, PerArena(d)))], H.live)
  {
    hide Blocks, Minus, Filled;
  }

  /** Freeing a block puts it last on the list of its class and counts it; with the last block of an arena all of them
      leave the list, the rest of it in order, and the page is given back. */
  lemma FreedBlock(H: Heap, others: seq<bool>, a: nat)
    requires Inv(H, others) && AllInUse(H.headers) && a in H.live && PageOf(a) in H.headers && H.headers[PageOf(a)].Small?
    ensures var p := PageOf(a); var d := H.headers[p].d; var n := H.headers[p].cnt + 1; var K := Freed(H, a);
            && OnlyList(H, K, d) && K.live == H.live - {a} && n <= PerArena(d)
            && (n < PerArena(d) ==> K.bits == H.bits && K.headers == H.headers[p := Small(d, n)] && K.free[d] == H.free[d] + [a])
            && (n == PerArena(d) ==> BitsSet(H.bits, K.bits, p, 1, false) && K.headers == H.headers - {p} && K.free[d] == Elsewhere(H.free[d], p))
  {
    LiveHeader(H, a, others);
    var p := PageOf(a);
    var d := H.headers[p].d;
    PushFinishes(H, a, d, others);
    var G := Push(H, a, d);
    IsDissolved(G, p, d, others);
    CountBelow(G, p, others);
    FreedIs(H, a);
    hide Inv, AllInUse, InUseBut, PageOf, PerArena, Freed, Push, Dissolved, IsFull, CanPush, Drop, Elsewhere;
    if H.headers[p].cnt + 1 == PerArena(d) {
      ListsHere(G, others);
      DropList(G, p, d);
      DropIs(G, p, d);
      ElsewhereAppend(H.free[d], a, p);
      assert G.headers - {p} == H.headers - {p};
    }
  }

  lemma ListsHere(H: Heap, others: seq<bool>)
    requires Inv(H, others)
    ensures Lists(H)
  {
  }

  lemma FreedIs(H: Heap, a: nat)
    requires PageOf(a) in H.headers && H.headers[PageOf(a)].Small? && CanPush(H, a, H.headers[PageOf(a)].d)
    ensures Freed(H, a) == Dissolved(Push(H, a, H.headers[PageOf(a)].d), PageOf(a), H.headers[PageOf(a)].d)
  {
    hide PageOf, CanPush, Push, Dissolved;
  }

  // ---- sys_malloc ----

  /** A large request gets the address behind the header of the first run that is long enough. */
  lemma TookPagesLeaves(H: Heap, K: Heap, size: nat, a: nat)
    requires TookPages(H, K, size, a)
    ensures var p := PageOf(a); var n := PageCount(size);
            && a == p * PG_SIZE + 16 && n > 0 && FirstFit(H.bits, p, n) && BitsSet(H.bits, K.bits, p, n, true)
            && K.headers == H.headers[p := Large(n)] && K.free == H.free && K.live == H.live[a := size]
  {
    hide FirstFit, PageCount;
    var p: nat :| TookRun(H, K, size, a, p);
    LargeAddr(p);
  }

  lemma OneClass(size: nat, d: nat, e: nat)
    requires LeastClass(size, d) && LeastClass(size, e)
    ensures d == e
  {
    hide BlockSize;
  }

  /** The arena of the first block of a list counts at least that one. */
  lemma FirstCounts(H: Heap, others: seq<bool>, d: nat)
    requires Inv(H, others) && CanPop(H, d)
    ensures var p := PageOf(H.free[d][0]); p in H.headers && H.headers[p].Small? && H.headers[p].d == d && H.headers[p].cnt > 0
  {
    InvParts(H, others);
    var p, i := PopBlock(H, d);
    SizesNonNegative(d);
    CountPositive(H.free[d], p, d, PerArena(d), i);
    assert CountOk(H, p);
    hide Inv, Lists, PageOf, BlockAddr, PerArena, CountFree;
  }

  /** A small request gets the block that has been longest on the list of the least class that is large enough, and the
      arena of that block counts one less. */
  lemma TookOldest(H: Heap, K: Heap, others: seq<bool>, size: nat, a: nat, d: nat)
    requires Inv(H, others) && TookBlock(H, K, size, a) && LeastClass(size, d) && |H.free| == DESC_CNT && d < DESC_CNT && H.free[d] != []
    ensures H.free[d] == [a] + K.free[d] && OnlyList(H, K, d) && K.bits == H.bits && K.live == H.live[a := size]
    ensures var p := PageOf(a);
            && p in H.headers && H.headers[p].Small? && H.headers[p].d == d && H.headers[p].cnt > 0
            && K.headers == H.headers[p := Small(d, H.headers[p].cnt - 1)]
  {
    var e: nat, G: Heap :| TookFrom(H, K, size, a, e, G);
    OneClass(size, d, e);
    FirstCounts(H, others, d);
    hide LeastClass, PageOf, BlockSize, Inv;
    assert G == H;
  }

  /** With an empty list the first free page becomes an arena: the request gets its first block, and the others are on the
      list in the order of their addresses. */
  lemma TookFresh(H: Heap, K: Heap, size: nat, a: nat, d: nat)
    requires TookBlock(H, K, size, a) && LeastClass(size, d) && |H.free| == DESC_CNT && d < DESC_CNT && H.free[d] == []
    ensures var p := PageOf(a); var n := PerArena(d) - 1;
            && FirstFit(H.bits, p, 1) && a == p * PG_SIZE + 16 && BitsSet(H.bits, K.bits, p, 1, true) && OnlyList(H, K, d)
            && n >= 0 && K.headers == H.headers[p := Small(d, n)] && K.live == H.live[a := size]
            && |K.free[d]| == n && (forall i :: 0 <= i < n ==> K.free[d][i] == a + (i + 1) * BlockSize(d))
  {
    var e: nat, G: Heap :| TookFrom(H, K, size, a, e, G);
    OneClass(size, d, e);
    var p: nat :| ArenaAt(H, G, p, d);
    FreshFields(H, G, p, d);
    BlocksNotEmpty(p, d) by { SizesNonNegative(d); }
    SizesNonNegative(d);
    FreshBlocks(p, d, PerArena(d));
    hide LeastClass, PageOf, BlockSize, PerArena, NewArena, Blocks, FirstFit, BitsSet, Refilled, ArenaAt;
    assert K == Pop(G, d, size) && a == G.free[d][0];
    assert G.headers[p := Small(d, Less(PerArena(d)))] == H.headers[p := Small(d, Less(PerArena(d)))];
  }

  lemma FreshFields(H: Heap, G: Heap, p: nat, d: nat)
    requires ArenaAt(H, G, p, d) && H.free[d] == []
    ensures PerArena(d) >= 0 && BitsSet(H.bits, G.bits, p, 1, true) && OnlyList(H, G, d) && FirstFit(H.bits, p, 1)
    ensures G.headers == H.headers[p := Small(d, PerArena(d))] && G.live == H.live && G.free[d] == Blocks(p, d, PerArena(d))
  {
    SizesNonNegative(d);
    hide Blocks, PerArena, FirstFit;
    assert [] + Blocks(p, d, PerArena(d)) == Blocks(p, d, PerArena(d));
  }

  lemma FreshBlocks(p: nat, d: nat, n: nat)
    requires n > 0
    ensures Blocks(p, d, n)[0] == p * PG_SIZE + 16
    ensures forall i :: 0 <= i < n - 1 ==> Blocks(p, d, n)[1..][i] == p * PG_SIZE + 16 + (i + 1) * BlockSize(d)
  {
    hide Blocks, BlockSize;
    forall i | 0 <= i < n - 1 ensures Blocks(p, d, n)[1..][i] == p * PG_SIZE + 16 + (i + 1) * BlockSize(d) {
      assert Blocks(p, d, n)[1..][i] == Blocks(p, d, n)[i + 1];
    }
  }
}
