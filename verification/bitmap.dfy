/** lib/kernel/bitmap.c: bitmaps packed eight bits to a byte.
    The abstract value of a bitmap is a sequence of booleans, least bit first. */
module Bitmaps {

  /** Bit `i` of a byte, as `bitmap_read` extracts it. */
  predicate BitOf(b: bv8, i: nat)
    requires i < 8
  {
    (b >> i) & 1 == 1
  }

  /** The byte with bit `i` set to `v`, as `bitmap_set` computes it. */
  function WithBit(b: bv8, i: nat, v: bool): (r: bv8)
    requires i < 8
  {
    if v then b | (1 << i) else b & !(1 << i)
  }

  lemma BitOfOr(b: bv8, i: nat, j: nat)
    requires i < 8 && j < 8
    ensures BitOf(b | (1 << i), j) == (i == j || BitOf(b, j))
  {
  }

  lemma BitOfAndNot(b: bv8, i: nat, j: nat)
    requires i < 8 && j < 8
    ensures BitOf(b & !(1 << i), j) == (i != j && BitOf(b, j))
  {
  }

  lemma BitOfWithBit(b: bv8, i: nat, j: nat, v: bool)
    requires i < 8 && j < 8
    ensures BitOf(WithBit(b, i, v), j) == if i == j then v else BitOf(b, j)
  {
    BitOfOr(b, i, j);
    BitOfAndNot(b, i, j);
  }

  /** The abstract value of a packed bitmap. */
  function Bits(bytes: seq<bv8>): (r: seq<bool>)
    ensures |r| == 8 * |bytes|
  {
    seq(8 * |bytes|, i requires 0 <= i < 8 * |bytes| => BitOf(bytes[i / 8], i % 8))
  }

  /** Setting one bit of one byte sets exactly that bit of the abstract value. */
  lemma BitsAfterSet(bytes: seq<bv8>, k: nat, v: bool)
    requires k < 8 * |bytes|
    ensures Bits(bytes[k / 8 := WithBit(bytes[k / 8], k % 8, v)]) == Bits(bytes)[k := v]
  {
    var bytes' := bytes[k / 8 := WithBit(bytes[k / 8], k % 8, v)];
    forall i | 0 <= i < 8 * |bytes|
      ensures Bits(bytes')[i] == Bits(bytes)[k := v][i]
    {
      if i / 8 == k / 8 {
        BitOfWithBit(bytes[k / 8], k % 8, i % 8, v);
        assert i % 8 == k % 8 <==> i == k;
      }
    }
  }

  /** A run of `cnt` clear bits starts at `i`; the bit at `i` itself is clear even when `cnt` is 0. */
  predicate RunAt(s: seq<bool>, i: nat, cnt: nat) {
    i < |s| && !s[i] && i + cnt <= |s| && forall k :: i <= k < i + cnt ==> !s[k]
  }

  ghost predicate HasRun(s: seq<bool>, cnt: nat) {
    exists i: nat :: RunAt(s, i, cnt)
  }

  /** `i` is the least index at which a run of `cnt` clear bits starts. */
  ghost predicate FirstFit(s: seq<bool>, i: nat, cnt: nat) {
    RunAt(s, i, cnt) && forall j: nat :: j < i ==> !RunAt(s, j, cnt)
  }

  /** `s` with the bits `[i, i + cnt)` replaced by `v`. */
  function Filled(s: seq<bool>, i: nat, cnt: nat, v: bool): (r: seq<bool>)
    requires i + cnt <= |s|
    ensures |r| == |s|
    ensures forall k :: 0 <= k < |s| ==> r[k] == if i <= k < i + cnt then v else s[k]
  {
    s[..i] + seq(cnt, _ => v) + s[i + cnt..]
  }

  // ---- counting ----

  /** How many bits are clear. */
  function ClearBits(bits: seq<bool>): nat {
    if bits == [] then 0 else (if bits[0] then 0 else 1) + ClearBits(bits[1..])
  }

  /** The bitmap once its first `n` clear bits are set, or all of them if there are fewer. */
  function TakeFirst(bits: seq<bool>, n: nat): (r: seq<bool>)
    ensures |r| == |bits| && forall k :: 0 <= k < |bits| && bits[k] ==> r[k]
  {
    if bits == [] || n == 0 then bits
    else [true] + TakeFirst(bits[1..], if bits[0] then n else n - 1)
  }

  lemma {:induction false} TakeFirstCount(bits: seq<bool>, n: nat)
    ensures ClearBits(TakeFirst(bits, n)) == if n <= ClearBits(bits) then ClearBits(bits) - n else 0
  {
    if bits != [] && n > 0 {
      var m := if bits[0] then n else n - 1;
      TakeFirstCount(bits[1..], m);
      assert ([true] + TakeFirst(bits[1..], m))[1..] == TakeFirst(bits[1..], m);
    }
  }

  lemma {:induction false} TakeOne(bits: seq<bool>, i: nat)
    requires i < |bits| && !bits[i] && forall k: nat :: k < i ==> bits[k]
    ensures bits[i := true] == TakeFirst(bits, 1)
  {
    if i == 0 {
      assert bits[0 := true] == [true] + bits[1..];
    } else {
      TakeOne(bits[1..], i - 1);
      assert bits[i := true] == [true] + bits[1..][i - 1 := true];
    }
  }

  lemma {:induction false} NoneClear(bits: seq<bool>)
    ensures ClearBits(bits) == 0 <==> forall k :: 0 <= k < |bits| ==> bits[k]
  {
    if bits != [] {
      NoneClear(bits[1..]);
      assert forall k :: 1 <= k < |bits| ==> bits[k] == bits[1..][k - 1];
    }
  }

  /** Where no bit is left, taking more takes none. */
  lemma TakeAll(bits: seq<bool>, n: nat, m: nat)
    requires n <= m && ClearBits(TakeFirst(bits, n)) == 0
    ensures TakeFirst(bits, m) == TakeFirst(bits, n)
  {
    TakeFirstCount(bits, n);
    TakeFirstCount(bits, m);
    NoneClear(TakeFirst(bits, n));
    NoneClear(TakeFirst(bits, m));
  }

  lemma {:induction false} TakeTwice(bits: seq<bool>, n: nat, m: nat)
    ensures TakeFirst(TakeFirst(bits, n), m) == TakeFirst(bits, n + m)
  {
    if bits != [] && n > 0 && m > 0 {
      var k := if bits[0] then n else n - 1;
      var rest := TakeFirst(bits[1..], k);
      TakeTwice(bits[1..], k, m);
      assert ([true] + rest)[1..] == rest;
    }
  }

  /** What `bitmap_alloc` can do: find a run, report none, or read beyond the last byte. */
  datatype Search = Found(idx: nat) | Full | Overrun

  /** When the scan of `bitmap_alloc` leaves the bitmap: no run fits and the last bit is clear. */
  ghost predicate ScanOverruns(s: seq<bool>, cnt: nat) {
    !HasRun(s, cnt) && |s| > 0 && !s[|s| - 1]
  }

  class Bitmap {
    const bits: array<bv8>

    constructor (bytesLen: nat)
      ensures bits.Length == bytesLen && fresh(bits)
      ensures Value() == seq(8 * bytesLen, _ => false)
    {
      bits := new bv8[bytesLen](_ => 0);
      new;
      forall i | 0 <= i < 8 * bytesLen
        ensures !Value()[i]
      {
        assert bits[i / 8] == 0;
        assert !BitOf(0, i % 8);
      }
    }

    function Value(): (r: seq<bool>)
      reads bits
      ensures |r| == 8 * bits.Length
    {
      Bits(bits[..])
    }

    method Read(idx: nat) returns (v: bool)
      requires idx < 8 * bits.Length
      ensures v == Value()[idx]
    {
      v := (bits[idx / 8] >> (idx % 8)) & 1 == 1;
    }

    method Set(idx: nat, v: bool)
      requires idx < 8 * bits.Length
      modifies bits
      ensures Value() == old(Value())[idx := v]
      ensures forall j :: 0 <= j < bits.Length && j != idx / 8 ==> bits[j] == old(bits[j])
    {
      BitsAfterSet(bits[..], idx, v);
      if v {
        bits[idx / 8] := bits[idx / 8] | (1 << (idx % 8));
      } else {
        bits[idx / 8] := bits[idx / 8] & !(1 << (idx % 8));
      }
      assert bits[..] == old(bits[..])[idx / 8 := WithBit(old(bits[idx / 8]), idx % 8, v)];
    }

    /** `bitmap_alloc_a_bit`: takes the least clear bit, or fails exactly when all bits are set. */
    method AllocABit() returns (r: int)
      modifies bits
      ensures r == -1 <==> forall i :: 0 <= i < |old(Value())| ==> old(Value())[i]
      ensures r == -1 ==> Value() == old(Value()) && bits[..] == old(bits[..])
      ensures r != -1 ==> 0 <= r < |old(Value())| && !old(Value())[r]
                          && (forall i :: 0 <= i < r ==> old(Value())[i])
                          && Value() == old(Value())[r := true]
      ensures r != -1 ==> bits[..] == old(bits[..])[r / 8 := bits[r / 8]]
    {
      var i := 0;
      while i != 8 * bits.Length
        invariant 0 <= i <= 8 * bits.Length
        invariant bits[..] == old(bits[..])
        invariant Value() == old(Value())
        invariant forall k :: 0 <= k < i ==> Value()[k]
      {
        var b := Read(i);
        if !b {
          Set(i, true);
          return i;
        }
        i := i + 1;
      }
      return -1;
    }

    /** The inner loop of `bitmap_alloc`: how many bits from `i` on are clear, up to `cnt`. */
    method ClearPrefix(i: nat, cnt: nat, ghost s: seq<bool>) returns (j: nat, overrun: bool)
      requires s == Value() && i < |s|
      ensures j <= cnt && i + j <= 8 * bits.Length
      ensures forall k :: i <= k < i + j ==> !s[k]
      ensures overrun ==> j < cnt && i + j == 8 * bits.Length
      ensures !overrun && j < cnt ==> i + j < 8 * bits.Length && s[i + j]
    {
      j := 0;
      overrun := false;
      while j != cnt
        invariant j <= cnt && i + j <= 8 * bits.Length
        invariant forall k :: i <= k < i + j ==> !s[k]
      {
        if i + j == 8 * bits.Length {
          overrun := true;
          return;
        }
        var b := Read(i + j);
        if b {
          return;
        }
        j := j + 1;
      }
    }

    method FillRun(i: nat, cnt: nat)
      requires i + cnt <= 8 * bits.Length
      modifies bits
      ensures Value() == Filled(old(Value()), i, cnt, true)
    {
      var k := 0;
      while k != cnt
        invariant 0 <= k <= cnt
        invariant Value() == Filled(old(Value()), i, k, true)
      {
        Set(i + k, true);
        k := k + 1;
      }
    }

    /** `bitmap_alloc`: first fit with the `i += j` skip. */
    method Alloc(cnt: nat) returns (r: Search)
      modifies bits
      ensures r.Found? <==> HasRun(old(Value()), cnt)
      ensures r.Found? ==> FirstFit(old(Value()), r.idx, cnt) && Value() == Filled(old(Value()), r.idx, cnt, true)
      ensures r.Overrun? <==> ScanOverruns(old(Value()), cnt)
      ensures !r.Found? ==> Value() == old(Value())
    {
      ghost var s := Value();
      hide Bits;
      var i: nat := 0;
      while i < 8 * bits.Length
        invariant i <= 8 * bits.Length
        invariant Value() == s
        invariant forall k: nat :: k < i ==> !RunAt(s, k, cnt)
        invariant i > 0 ==> s[i - 1]
      {
        var b := Read(i);
        if !b {
          var j, overrun := ClearPrefix(i, cnt, s);
          if overrun {
            NoRunInTail(s, i, j, cnt);
            return Overrun;
          }
          if j == cnt {
            assert RunAt(s, i, cnt);
            FillRun(i, cnt);
            return Found(i);
          }
          SkipMissesNothing(s, i, j, cnt);
          i := i + j;
        }
        i := i + 1;
      }
      NoRunFromNone(s, cnt);
      return Full;
    }

    /** `bitmap_free`; the source asserts that every bit it clears was set. */
    method Free(idx: nat, cnt: nat)
      requires idx + cnt <= 8 * bits.Length
      requires forall k :: idx <= k < idx + cnt ==> Value()[k]
      modifies bits
      ensures Value() == Filled(old(Value()), idx, cnt, false)
    {
      var i := 0;
      while i != cnt
        invariant 0 <= i <= cnt
        invariant Value() == Filled(old(Value()), idx, i, false)
      {
        Set(idx + i, false);
        i := i + 1;
      }
    }
  }

  /** A set bit at `i + j` rules out every run that starts in `[i, i + j]`. */
  lemma SkipMissesNothing(s: seq<bool>, i: nat, j: nat, cnt: nat)
    requires i + j < |s| && j < cnt && s[i + j]
    ensures forall k: nat :: i <= k <= i + j ==> !RunAt(s, k, cnt)
  {
    forall k: nat | i <= k <= i + j
      ensures !RunAt(s, k, cnt)
    {
      assert k <= i + j < k + cnt;
    }
  }

  lemma NoRunFromNone(s: seq<bool>, cnt: nat)
    requires forall k: nat :: k < |s| ==> !RunAt(s, k, cnt)
    requires |s| > 0 ==> s[|s| - 1]
    ensures !HasRun(s, cnt) && !ScanOverruns(s, cnt)
  {
  }

  lemma NoRunInTail(s: seq<bool>, i: nat, j: nat, cnt: nat)
    requires i + j == |s| && j < cnt && i < |s|
    requires forall k :: i <= k < i + j ==> !s[k]
    requires forall k: nat :: k < i ==> !RunAt(s, k, cnt)
    ensures ScanOverruns(s, cnt)
  {
    forall k: nat
      ensures !RunAt(s, k, cnt)
    {
    }
  }

  /** Clearing a freshly filled run restores the bitmap, so `bitmap_free` undoes `bitmap_alloc`. */
  lemma FreeUndoesAlloc(s: seq<bool>, i: nat, cnt: nat)
    requires RunAt(s, i, cnt)
    ensures Filled(Filled(s, i, cnt, true), i, cnt, false) == s
  {
  }

  /** A bitmap on which the scan for two bits leaves it. */
  lemma OverrunHappens()
    ensures ScanOverruns([true, false], 2)
  {
    forall i: nat
      ensures !RunAt([true, false], i, 2)
    {
      if i + 2 <= 2 && i < 2 {
        assert [true, false][0];
      }
    }
  }
}
