/** device/ioqueue.c: a ring of 2048 bytes with one place always free, and pipe_read and pipe_write over it. */
module Rings {
  import opened Basics

  const BUFSIZE := 2048

  type Tid = nat

  function NextPos(pos: nat): (r: nat)
    ensures r < BUFSIZE
  {
    (pos + 1) % BUFSIZE
  }

  /** The number of bytes between the read and the write position. */
  function Length(head: nat, tail: nat): int {
    if head >= tail then head - tail else BUFSIZE - (tail - head)
  }

  /** The bytes in the ring, oldest first. */
  function Queue(buf: seq<bv8>, head: nat, tail: nat): (q: seq<bv8>)
    requires |buf| == BUFSIZE && head < BUFSIZE && tail < BUFSIZE
    ensures |q| == Length(head, tail) < BUFSIZE
  {
    seq(Length(head, tail), k requires 0 <= k < Length(head, tail) => buf[(tail + k) % BUFSIZE])
  }

  lemma QueueAt(buf: seq<bv8>, head: nat, tail: nat, k: nat)
    requires |buf| == BUFSIZE && head < BUFSIZE && tail < BUFSIZE && k < Length(head, tail)
    ensures Queue(buf, head, tail)[k] == if tail + k < BUFSIZE then buf[tail + k] else buf[tail + k - BUFSIZE]
  {
  }

  lemma NextIs(p: nat)
    requires p < BUFSIZE
    ensures NextPos(p) == if p == BUFSIZE - 1 then 0 else p + 1
  {
  }

  /** Full means 2047 bytes, empty means none. */
  lemma FullExactly(head: nat, tail: nat)
    requires head < BUFSIZE && tail < BUFSIZE
    ensures NextPos(head) == tail <==> Length(head, tail) == BUFSIZE - 1
    ensures head == tail <==> Length(head, tail) == 0
  {
    NextIs(head);
  }

  /** Storing at head and advancing it appends. */
  lemma PutAppends(buf: seq<bv8>, head: nat, tail: nat, b: bv8)
    requires |buf| == BUFSIZE && head < BUFSIZE && tail < BUFSIZE && Length(head, tail) < BUFSIZE - 1
    ensures Queue(buf[head := b], NextPos(head), tail) == Queue(buf, head, tail) + [b]
  {
    var q, q' := Queue(buf, head, tail), Queue(buf[head := b], NextPos(head), tail);
    NextIs(head);
    assert Length(NextPos(head), tail) == Length(head, tail) + 1;
    forall k: nat | k < |q'| ensures q'[k] == (q + [b])[k] {
      QueueAt(buf[head := b], NextPos(head), tail, k);
      if k < |q| { QueueAt(buf, head, tail, k); }
      hide Queue;
    }
  }

  /** Advancing tail removes the oldest byte. */
  lemma GetRemoves(buf: seq<bv8>, head: nat, tail: nat)
    requires |buf| == BUFSIZE && head < BUFSIZE && tail < BUFSIZE && Length(head, tail) > 0
    ensures Queue(buf, head, tail) == [buf[tail]] + Queue(buf, head, NextPos(tail))
  {
    var q, q' := Queue(buf, head, tail), Queue(buf, head, NextPos(tail));
    NextIs(tail);
    assert Length(head, NextPos(tail)) == Length(head, tail) - 1;
    forall k: nat | k < |q| ensures q[k] == ([buf[tail]] + q')[k] {
      QueueAt(buf, head, tail, k);
      if k > 0 { QueueAt(buf, head, NextPos(tail), k - 1); }
      hide Queue;
    }
  }

  lemma Assoc(a: seq<bv8>, b: seq<bv8>, c: seq<bv8>)
    ensures (a + b) + c == a + (b + c)
  {
  }

  /** What one call does: it finishes, perhaps waking a thread, or it has to wait. */
  datatype Outcome = Done(woken: Option<Tid>) | Waits

  class IoQueue {
    var producer: Option<Tid>
    var consumer: Option<Tid>
    const buf: array<bv8>
    var head: nat
    var tail: nat
    /** Every byte ever put in and every byte ever taken out. */
    ghost var written: seq<bv8>
    ghost var taken: seq<bv8>

    ghost predicate Valid()
      reads this, buf
    {
      && buf.Length == BUFSIZE && head < BUFSIZE && tail < BUFSIZE
      && written == taken + Contents()
    }

    ghost function Contents(): (q: seq<bv8>)
      reads `head, `tail, buf
    {
      if buf.Length == BUFSIZE && head < BUFSIZE && tail < BUFSIZE then Queue(buf[..], head, tail) else []
    }

    /** ioqueue_init */
    constructor ()
      ensures Valid() && Contents() == [] && written == [] && producer == None && consumer == None
    {
      buf := new bv8[BUFSIZE];
      head, tail := 0, 0;
      producer, consumer := None, None;
      written, taken := [], [];
    }

    /** ioq_length */
    method IoqLength() returns (len: nat)
      requires Valid()
      ensures len == |Contents()| && len < BUFSIZE
    {
      if head >= tail {
        len := head - tail;
      } else {
        len := BUFSIZE - (tail - head);
      }
    }

    /** ioq_getchar, up to the point where it would wait. */
    method GetChar() returns (r: Outcome, byte: bv8)
      requires Valid()
      modifies `tail, `producer, `taken
      ensures Valid() && written == old(written)
      ensures r == Waits <==> old(Contents()) == []
      ensures r == Waits ==> Contents() == old(Contents()) && producer == old(producer) && taken == old(taken)
      ensures r != Waits ==> [byte] + Contents() == old(Contents()) && r == Done(old(producer)) && producer == None && taken == old(taken) + [byte]
    {
      byte := 0;
      FullExactly(head, tail);
      if head == tail { return Waits, 0; }
      GetRemoves(buf[..], head, tail);
      Assoc(taken, [buf[tail]], Queue(buf[..], head, NextPos(tail)));
      hide Queue, NextPos, Length;
      byte := buf[tail];
      tail := NextPos(tail);
      taken := taken + [byte];
      r := Done(producer);
      producer := None;
    }

    /** ioq_putchar, up to the point where it would wait. */
    method PutChar(byte: bv8) returns (r: Outcome)
      requires Valid()
      modifies `head, `consumer, `written, buf
      ensures Valid() && taken == old(taken)
      ensures r == Waits <==> |old(Contents())| == BUFSIZE - 1
      ensures r == Waits ==> Contents() == old(Contents()) && consumer == old(consumer) && written == old(written)
      ensures r != Waits ==> Contents() == old(Contents()) + [byte] && r == Done(old(consumer)) && consumer == None && written == old(written) + [byte]
    {
      FullExactly(head, tail);
      if NextPos(head) == tail { return Waits; }
      PutAppends(buf[..], head, tail, byte);
      Assoc(taken, Queue(buf[..], head, tail), [byte]);
      hide Queue, NextPos, Length;
      buf[head] := byte;
      assert buf[..] == old(buf[..])[head := byte];
      head := NextPos(head);
      written := written + [byte];
      r := Done(consumer);
      consumer := None;
    }

    /** pipe_read: the oldest min(length, count) bytes, without ever waiting. */
    method PipeRead(count: nat) returns (data: seq<bv8>)
      requires Valid()
      modifies `tail, `producer, `taken
      ensures Valid() && written == old(written)
      ensures |data| == if |old(Contents())| > count then count else |old(Contents())|
      ensures data + Contents() == old(Contents()) && taken == old(taken) + data
    {
      hide *;
      var len := IoqLength();
      var size := if len > count then count else len;
      data := [];
      ghost var q := Contents();
      while |data| < size
        invariant Valid() && written == old(written) && |data| <= size <= |q|
        invariant data + Contents() == q && taken == old(taken) + data
      {
        var r, b := GetChar();
        assert r != Waits;
        Assoc(data, [b], Contents());
        Assoc(old(taken), data, [b]);
        data := data + [b];
      }
    }

    /** pipe_write: it gets stuck in ioq_putchar iff the bytes do not fit into 2047 places. */
    method PipeWrite(data: seq<bv8>) returns (n: nat, waits: bool)
      requires Valid()
      modifies `head, `consumer, `written, buf
      ensures Valid() && taken == old(taken) && n <= |data|
      ensures waits <==> |old(Contents())| + |data| > BUFSIZE - 1
      ensures n == if waits then BUFSIZE - 1 - |old(Contents())| else |data|
      ensures Contents() == old(Contents()) + data[..n] && written == old(written) + data[..n]
    {
      hide Valid, Contents, Queue, Length;
      var len := IoqLength();
      var left := BUFSIZE - len;
      var size := if left > |data| then |data| else left;
      n, waits := 0, false;
      ghost var q := Contents();
      while n < size
        invariant Valid() && taken == old(taken) && n <= size <= |data| && |q| == len && n <= BUFSIZE - 1 - len
        invariant Contents() == q + data[..n] && written == old(written) + data[..n]
      {
        var r := PutChar(data[n]);
        if r == Waits {
          waits := true;
          return;
        }
        assert data[..n + 1] == data[..n] + [data[n]];
        Assoc(q, data[..n], [data[n]]);
        Assoc(old(written), data[..n], [data[n]]);
        n := n + 1;
      }
    }

    /** Over any run what has been read is a prefix of what has been written. */
    lemma ReadIsPrefix()
      requires Valid()
      ensures taken <= written && |written| - |taken| == |Contents()| < BUFSIZE
    {
    }
  }
}
