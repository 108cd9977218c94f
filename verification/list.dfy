/** lib/kernel/list.c: a doubly linked list between two sentinels, threaded through the elements themselves. */
module IntrusiveLists {
  import opened Basics

  class ListElem {
    var prev: ListElem?
    var next: ListElem?

    constructor ()
      ensures prev == null && next == null
    {
      prev, next := null, null;
    }
  }

  // ---- chains ----

  ghost predicate DistinctElems(c: seq<ListElem>) {
    forall i, j :: 0 <= i < j < |c| ==> c[i] != c[j]
  }

  /** Neighbours point at each other, and no element occurs twice. */
  ghost predicate Linked(c: seq<ListElem>)
    reads c
  {
    && DistinctElems(c)
    && (forall i :: 0 <= i < |c| - 1 ==> c[i].next == c[i + 1])
    && (forall i :: 0 < i < |c| ==> c[i].prev == c[i - 1])
  }

  /** The links of a chain, as values. */
  ghost predicate LinksWere(c: seq<ListElem>, next: seq<ListElem?>, prev: seq<ListElem?>) {
    && |next| == |c| && |prev| == |c| && DistinctElems(c)
    && (forall i :: 0 <= i < |c| - 1 ==> next[i] == c[i + 1])
    && (forall i :: 0 < i < |c| ==> prev[i] == c[i - 1])
  }

  ghost function Nexts(c: seq<ListElem>): (r: seq<ListElem?>)
    reads c
    ensures |r| == |c| && forall i :: 0 <= i < |c| ==> r[i] == c[i].next
  {
    if c == [] then [] else [c[0].next] + Nexts(c[1..])
  }

  ghost function Prevs(c: seq<ListElem>): (r: seq<ListElem?>)
    reads c
    ensures |r| == |c| && forall i :: 0 <= i < |c| ==> r[i] == c[i].prev
  {
    if c == [] then [] else [c[0].prev] + Prevs(c[1..])
  }

  function Inserted(c: seq<ListElem>, i: nat, e: ListElem): (r: seq<ListElem>)
    requires i <= |c|
    ensures |r| == |c| + 1
    ensures forall k :: 0 <= k < |r| ==> r[k] == if k < i then c[k] else if k == i then e else c[k - 1]
  {
    c[..i] + [e] + c[i..]
  }

  function Taken(c: seq<ListElem>, i: nat): (r: seq<ListElem>)
    requires i < |c|
    ensures |r| == |c| - 1
    ensures forall k :: 0 <= k < |r| ==> r[k] == if k < i then c[k] else c[k + 1]
  {
    c[..i] + c[i + 1..]
  }

  /** The links of a chain after `e` has been joined in before place `i`. */
  ghost predicate JoinedAt(c: seq<ListElem>, next: seq<ListElem?>, prev: seq<ListElem?>, i: nat, e: ListElem)
    requires 0 < i < |c| && |next| == |c| && |prev| == |c|
    reads c, e
  {
    && c[i - 1].next == e && e.next == c[i] && e.prev == c[i - 1] && c[i].prev == e
    && (forall k :: 0 <= k < |c| && k != i - 1 ==> c[k].next == next[k])
    && (forall k :: 0 <= k < |c| && k != i ==> c[k].prev == prev[k])
  }

  /** The links after place `i` has been passed over. */
  ghost predicate PassedAt(c: seq<ListElem>, next: seq<ListElem?>, prev: seq<ListElem?>, i: nat)
    requires 0 < i < |c| - 1 && |next| == |c| && |prev| == |c|
    reads c
  {
    && c[i - 1].next == c[i + 1] && c[i + 1].prev == c[i - 1]
    && (forall k :: 0 <= k < |c| && k != i - 1 ==> c[k].next == next[k])
    && (forall k :: 0 <= k < |c| && k != i + 1 ==> c[k].prev == prev[k])
  }

  lemma InsertNext(c: seq<ListElem>, next: seq<ListElem?>, prev: seq<ListElem?>, i: nat, e: ListElem, k: nat)
    requires LinksWere(c, next, prev) && 0 < i < |c| && |next| == |c| && |prev| == |c| && JoinedAt(c, next, prev, i, e) && k < |c|
    ensures Inserted(c, i, e)[k].next == Inserted(c, i, e)[k + 1]
  {
    if k > i { assert c[k - 1].next == next[k - 1] == c[k]; }
    if k + 1 < i { assert c[k].next == next[k] == c[k + 1]; }
  }

  lemma InsertPrev(c: seq<ListElem>, next: seq<ListElem?>, prev: seq<ListElem?>, i: nat, e: ListElem, k: nat)
    requires LinksWere(c, next, prev) && 0 < i < |c| && |next| == |c| && |prev| == |c| && JoinedAt(c, next, prev, i, e) && 0 < k <= |c|
    ensures Inserted(c, i, e)[k].prev == Inserted(c, i, e)[k - 1]
  {
    if k > i + 1 { assert c[k - 1].prev == prev[k - 1] == c[k - 2]; }
    if k < i { assert c[k].prev == prev[k] == c[k - 1]; }
  }

  lemma AfterInsert(c: seq<ListElem>, next: seq<ListElem?>, prev: seq<ListElem?>, i: nat, e: ListElem)
    requires LinksWere(c, next, prev) && 0 < i < |c| && |next| == |c| && |prev| == |c| && e !in c && JoinedAt(c, next, prev, i, e)
    ensures Linked(Inserted(c, i, e))
  {
    var r := Inserted(c, i, e);
    assert DistinctElems(r) by { hide JoinedAt; }
    hide LinksWere, JoinedAt, Inserted, DistinctElems;
    forall k | 0 <= k < |r| - 1 ensures r[k].next == r[k + 1] { InsertNext(c, next, prev, i, e, k); }
    forall k | 0 < k < |r| ensures r[k].prev == r[k - 1] { InsertPrev(c, next, prev, i, e, k); }
  }

  lemma AfterRemove(c: seq<ListElem>, next: seq<ListElem?>, prev: seq<ListElem?>, i: nat)
    requires LinksWere(c, next, prev) && 0 < i < |c| - 1 && |next| == |c| && |prev| == |c| && PassedAt(c, next, prev, i)
    ensures Linked(Taken(c, i))
  {
    var r := Taken(c, i);
    hide Taken;
    forall k | 0 <= k < |r| - 1 ensures r[k].next == r[k + 1] {
      if k >= i { assert c[k + 1].next == next[k + 1] == c[k + 2]; }
    }
    forall k | 0 < k < |r| ensures r[k].prev == r[k - 1] {
      if k > i { assert c[k + 1].prev == prev[k + 1] == c[k]; }
    }
  }

  lemma WereLinked(c: seq<ListElem>)
    requires Linked(c)
    ensures LinksWere(c, Nexts(c), Prevs(c)) && DistinctElems(c)
  {
  }

  lemma BeforeIs(c: seq<ListElem>, i: nat)
    requires Linked(c) && 0 < i < |c|
    ensures c[i].prev == c[i - 1]
  {
  }

  lemma BetweenIs(c: seq<ListElem>, i: nat)
    requires Linked(c) && 0 < i < |c| - 1
    ensures c[i].prev == c[i - 1] && c[i].next == c[i + 1]
  {
  }

  class List {
    const head: ListElem
    const tail: ListElem
    /** The elements between the sentinels, first to last. */
    ghost var elems: seq<ListElem>

    ghost function Chain(): (c: seq<ListElem>)
      reads `elems
      ensures |c| == |elems| + 2 && c[0] == head && c[|elems| + 1] == tail
      ensures forall k :: 0 < k <= |elems| ==> c[k] == elems[k - 1]
    {
      [head] + elems + [tail]
    }

    ghost predicate Valid()
      reads this, Chain()
    {
      Linked(Chain())
    }

    /** list_init */
    constructor ()
      ensures Valid() && elems == [] && fresh(head) && fresh(tail)
    {
      var h := new ListElem();
      var t := new ListElem();
      h.next := t;
      t.prev := h;
      head, tail := h, t;
      elems := [];
      new;
      assert Chain() == [h, t];
    }

    /** list_insert: `elem` comes to stand before the element at place `i` of the chain. */
    method Insert(before: ListElem, elem: ListElem, ghost i: nat)
      requires Valid() && 0 < i < |Chain()| && before == Chain()[i] && elem !in Chain()
      modifies `elems, Chain(), elem
      ensures Valid() && elems == Inserted(old(elems), i - 1, elem)
    {
      ghost var c := Chain();
      hide *;
      ChainIs(c);
      IsLinked(c);
      LinkIn(before, elem, c, i);
      elems := Inserted(elems, i - 1, elem);
      ChainInserted(i, elem, c);
      IsValid();
    }

    /** The four assignments of list_insert. */
    static method LinkIn(before: ListElem, elem: ListElem, ghost c: seq<ListElem>, ghost i: nat)
      requires Linked(c) && 0 < i < |c| && before == c[i] && elem !in c
      modifies c, elem
      ensures Linked(Inserted(c, i, elem))
    {
      ghost var next, prev := Nexts(c), Prevs(c);
      hide *;
      WereLinked(c);
      BeforeIs(c, i);
      SetLinks(elem, before, c, next, prev, i);
      Join(elem, before, c[i - 1], c, next, prev, i);
      AfterInsert(c, next, prev, i, elem);
    }

    static method SetLinks(elem: ListElem, before: ListElem, ghost c: seq<ListElem>, ghost next: seq<ListElem?>, ghost prev: seq<ListElem?>, ghost i: nat)
      requires elem !in c && next == Nexts(c) && prev == Prevs(c) && 0 < i < |c| && before == c[i] && before.prev == c[i - 1]
      modifies elem
      ensures elem.prev == c[i - 1] && elem.next == before && next == Nexts(c) && prev == Prevs(c)
    {
      elem.prev := before.prev;
      elem.next := before;
    }

    lemma IsLinked(c: seq<ListElem>)
      requires Valid() && c == Chain()
      ensures Linked(c)
    {
    }

    lemma IsValid()
      requires Linked(Chain())
      ensures Valid()
    {
    }

    lemma ChainIs(c: seq<ListElem>)
      requires c == Chain()
      ensures |c| == |elems| + 2 && elems == c[1..|c| - 1] && c[0] == head && c[|c| - 1] == tail
    {
    }

    /** The two links of the neighbours. */
    static method Join(e: ListElem, b: ListElem, ghost a: ListElem,
                       ghost c: seq<ListElem>, ghost next: seq<ListElem?>, ghost prev: seq<ListElem?>, ghost i: nat)
      requires e.prev == a && e.next == b && DistinctElems(c) && 0 < i < |c| && c[i - 1] == a && c[i] == b && e !in c
      requires next == Nexts(c) && prev == Prevs(c)
      modifies a`next, b`prev
      ensures |next| == |c| && |prev| == |c| && JoinedAt(c, next, prev, i, e)
    {
      hide Nexts, Prevs;
      e.prev.next := e;
      b.prev := e;
    }

    lemma ChainInserted(i: nat, elem: ListElem, c: seq<ListElem>)
      requires 0 < i < |c| && |c| == |elems| + 1 && elems == Inserted(c[1..|c| - 1], i - 1, elem) && c[0] == head && c[|c| - 1] == tail
      ensures Chain() == Inserted(c, i, elem)
    {
    }

    /** list_remove of the element at place `i`; its own links stay as they were. */
    method Remove(elem: ListElem, ghost i: nat)
      requires Valid() && i < |elems| && elem == elems[i]
      modifies `elems, Chain()
      ensures Valid() && elems == Taken(old(elems), i)
    {
      ghost var c := Chain();
      hide *;
      ChainIs(c);
      IsLinked(c);
      LinkOut(elem, c, i + 1);
      elems := Taken(elems, i);
      ChainTaken(i, c);
      IsValid();
    }

    /** The two assignments of list_remove. */
    static method LinkOut(elem: ListElem, ghost c: seq<ListElem>, ghost i: nat)
      requires Linked(c) && 0 < i < |c| - 1 && elem == c[i]
      modifies c
      ensures Linked(Taken(c, i))
    {
      ghost var next, prev := Nexts(c), Prevs(c);
      hide *;
      WereLinked(c);
      BetweenIs(c, i);
      Unlink(c[i - 1], elem, c[i + 1], c, next, prev, i);
      AfterRemove(c, next, prev, i);
    }

    static method Unlink(ghost a: ListElem, elem: ListElem, ghost b: ListElem,
                         ghost c: seq<ListElem>, ghost next: seq<ListElem?>, ghost prev: seq<ListElem?>, ghost i: nat)
      requires DistinctElems(c) && 0 < i < |c| - 1 && c[i] == elem && c[i - 1] == a && c[i + 1] == b
      requires elem.prev == a && elem.next == b && next == Nexts(c) && prev == Prevs(c)
      modifies a`next, b`prev
      ensures |next| == |c| && |prev| == |c| && PassedAt(c, next, prev, i)
    {
      hide Nexts, Prevs;
      elem.prev.next := elem.next;
      elem.next.prev := elem.prev;
    }

    lemma ChainTaken(i: nat, c: seq<ListElem>)
      requires i + 2 < |c| && |c| == |elems| + 3 && elems == Taken(c[1..|c| - 1], i) && c[0] == head && c[|c| - 1] == tail
      ensures Chain() == Taken(c, i + 1)
    {
    }

    /** list_push */
    method Push(elem: ListElem)
      requires Valid() && elem !in Chain()
      modifies `elems, Chain(), elem
      ensures Valid() && elems == [elem] + old(elems)
    {
      assert head.next == Chain()[1];
      Insert(head.next, elem, 1);
    }

    /** list_append */
    method Append(elem: ListElem)
      requires Valid() && elem !in Chain()
      modifies `elems, Chain(), elem
      ensures Valid() && elems == old(elems) + [elem]
    {
      Insert(tail, elem, |elems| + 1);
    }

    /** list_pop of a list that is not empty. */
    method Pop() returns (elem: ListElem)
      requires Valid() && elems != []
      modifies `elems, Chain()
      ensures Valid() && [elem] + elems == old(elems)
    {
      assert head.next == Chain()[1];
      elem := head.next;
      Remove(elem, 0);
    }

    /** list_empty */
    method Empty() returns (b: bool)
      requires Valid()
      ensures b <==> elems == []
    {
      assert head.next == Chain()[1];
      assert elems != [] ==> Chain()[1] != Chain()[|elems| + 1];
      b := head.next == tail;
    }

    /** elem_find */
    method Find(pelem: ListElem) returns (found: bool)
      requires Valid()
      ensures found <==> pelem in elems
    {
      ghost var c, i := Chain(), 1;
      var elem := head.next;
      while elem != tail
        invariant 1 <= i <= |elems| + 1 && elem == c[i] && pelem !in elems[..i - 1]
        decreases |elems| - i
      {
        assert i <= |elems| && elem == elems[i - 1] by { assert c[|elems| + 1] == tail; }
        if elem == pelem {
          return true;
        }
        assert elems[..i] == elems[..i - 1] + [elems[i - 1]];
        elem := elem.next;
        i := i + 1;
      }
      assert i == |elems| + 1;
      assert elems[..|elems|] == elems;
      found := false;
    }

    /** list_len */
    method Len() returns (len: nat)
      requires Valid()
      ensures len == |elems|
    {
      ghost var c := Chain();
      var elem := head.next;
      len := 0;
      while elem != tail
        invariant len <= |elems| && elem == c[len + 1]
        decreases |elems| - len
      {
        elem := elem.next;
        len := len + 1;
      }
    }
  }
}
