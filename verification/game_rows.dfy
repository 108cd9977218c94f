/** command/2048.c: what a move to the left does to a row, and what the four moves do to a board.  A blank cell
    holds 1. */
module GameRows {

  type Row = seq<int>
  type Board = seq<Row>

  // ---- one row ----

  function Blanks(n: nat): (r: Row)
    ensures |r| == n && forall i :: 0 <= i < n ==> r[i] == 1
  {
    seq(n, _ => 1)
  }

  /** The tiles of a row, in order. */
  function Compact(s: Row): (r: Row)
    ensures |r| <= |s| && forall i :: 0 <= i < |r| ==> r[i] != 1
  {
    if s == [] then [] else (if s[0] == 1 then [] else [s[0]]) + Compact(s[1..])
  }

  /** Equal neighbours merge, left to right, each tile at most once. */
  function Merge(s: Row): (r: Row)
    ensures |r| <= |s|
  {
    if |s| < 2 then s
    else if s[0] == s[1] then [2 * s[0]] + Merge(s[2..])
    else [s[0]] + Merge(s[1..])
  }

  /** Where group `k` of a row starts, when `ends` says where each group ends. */
  function StartOf(ends: seq<nat>, k: nat): nat
    requires k <= |ends|
  {
    if k == 0 then 0 else ends[k - 1]
  }

  /** Tile `k` of `r` is a tile of `s` that differs from the next one, or twice one that the next one equals. */
  ghost predicate GroupOk(s: Row, r: Row, ends: seq<nat>, k: nat)
    requires k < |ends| && |r| == |ends|
  {
    var i := StartOf(ends, k);
    && i < ends[k] <= |s| && ends[k] <= i + 2
    && (ends[k] == i + 1 ==> r[k] == s[i] && (i + 1 < |s| ==> s[i] != s[i + 1]))
    && (ends[k] == i + 2 ==> s[i] == s[i + 1] && r[k] == 2 * s[i])
  }

  /** `r` has one tile for each group of `s`, the groups follow one another and make up the row. */
  ghost predicate IsMerge(s: Row, r: Row, ends: seq<nat>) {
    && |r| == |ends| && StartOf(ends, |ends|) == |s|
    && (forall k: nat :: k < |ends| ==> GroupOk(s, r, ends, k))
  }

  /** Merging cuts a row into groups of one tile or of two equal ones, as early as it can, and leaves one tile for each. */
  lemma {:induction false} MergeGroups(s: Row) returns (ends: seq<nat>)
    ensures IsMerge(s, Merge(s), ends)
  {
    if |s| == 0 {
      ends := [];
    } else if |s| == 1 {
      ends := [1];
    } else {
      var w := if s[0] == s[1] then 2 else 1;
      var rest := MergeGroups(s[w..]);
      ends := [w] + seq(|rest|, k requires 0 <= k < |rest| => rest[k] + w);
      GroupsBehind(s, w, rest, ends);
    }
  }

  /** A group of what comes behind the first `w` tiles is a group of the row. */
  lemma GroupShifts(s: Row, w: nat, r: Row, rest: seq<nat>, ends: seq<nat>, k: nat)
    requires w <= |s| && k < |rest| && |r| == |ends| == |rest| + 1 && GroupOk(s[w..], r[1..], rest, k)
    requires ends[0] == w && forall i :: 0 <= i < |rest| ==> ends[i + 1] == rest[i] + w
    ensures GroupOk(s, r, ends, k + 1)
  {
    assert StartOf(ends, k + 1) == StartOf(rest, k) + w;
    assert r[1..][k] == r[k + 1];
  }

  lemma GroupsBehind(s: Row, w: nat, rest: seq<nat>, ends: seq<nat>)
    requires |s| >= 2 && w == (if s[0] == s[1] then 2 else 1) && IsMerge(s[w..], Merge(s[w..]), rest)
    requires |ends| == |rest| + 1 && ends[0] == w && forall k :: 0 <= k < |rest| ==> ends[k + 1] == rest[k] + w
    ensures IsMerge(s, Merge(s), ends)
  {
    var r, r1 := Merge(s), Merge(s[w..]);
    assert r == [if w == 2 then 2 * s[0] else s[0]] + r1;
    hide Merge;
    assert r[1..] == r1;
    assert GroupOk(s, r, ends, 0);
    hide GroupOk;
    forall k: nat | k < |ends| ensures GroupOk(s, r, ends, k) {
      if k > 0 { GroupShifts(s, w, r, rest, ends, k - 1); }
    }
  }

  function Pad(s: Row, n: nat): (r: Row)
    ensures |r| == if |s| < n then n else |s|
  {
    if |s| < n then s + Blanks(n - |s|) else s
  }

  /** What a move to the left makes of a row. */
  function MoveRow(s: Row): (r: Row)
    ensures |r| == |s|
  {
    Pad(Merge(Compact(s)), |s|)
  }

  /** rmv: the cell at `i` goes, the rest moves up, the last cell is blank. */
  function Removed(s: Row, i: nat): (r: Row)
    requires i < |s|
    ensures |r| == |s|
  {
    s[..i] + s[i + 1..] + [1]
  }

  // ---- the loop that drops blanks ----

  /** The row when the cells from `i` on have been compacted. */
  function Dropped(s: Row, i: nat): (r: Row)
    requires i <= |s|
    ensures |r| == |s|
  {
    s[..i] + Pad(Compact(s[i..]), |s| - i)
  }

  lemma PadMore(s: Row, n: nat)
    requires |s| <= n
    ensures Pad(s, n) + [1] == Pad(s, n + 1)
  {
  }

  lemma DropStep(s: Row, i: nat)
    requires i < |s|
    ensures Dropped(s, i + 1)[i] == s[i]
    ensures Dropped(s, i) == if s[i] == 1 then Removed(Dropped(s, i + 1), i) else Dropped(s, i + 1)
  {
    var d := Dropped(s, i + 1);
    var c := Compact(s[i + 1..]);
    assert s[i..][1..] == s[i + 1..];
    assert d[..i] == s[..i] && d[i] == s[i] && d[i + 1..] == Pad(c, |s| - i - 1);
    if s[i] == 1 {
      assert Compact(s[i..]) == c;
      PadMore(c, |s| - i - 1);
      hide Compact, Pad;
    } else {
      assert Compact(s[i..]) == [s[i]] + c;
      assert Pad([s[i]] + c, |s| - i) == [s[i]] + Pad(c, |s| - i - 1);
      hide Compact, Pad;
    }
  }

  lemma DropAll(s: Row)
    ensures Dropped(s, |s|) == s && Dropped(s, 0) == Pad(Compact(s), |s|)
  {
    assert s[0..] == s && s[..|s|] == s;
  }

  // ---- the loop that merges ----

  /** `fin` is what the merging loop has produced at index `i`, `rest` what it has still to look at. */
  ghost predicate Merging(row: Row, c: Row, fin: Row, rest: Row, i: nat) {
    && row == Pad(fin + rest, |row|) && |fin + rest| <= |row|
    && (|fin| == i || (rest == [] && |fin| <= i))
    && Merge(c) == fin + Merge(rest)
    && (forall k :: 0 <= k < |rest| ==> rest[k] != 1)
  }

  lemma MergeStart(row: Row, c: Row)
    requires row == Pad(c, |row|) && |c| <= |row| && forall k :: 0 <= k < |c| ==> c[k] != 1
    ensures Merging(row, c, [], c, 0)
  {
    assert [] + c == c && [] + Merge(c) == Merge(c);
  }

  /** The two cells that the loop compares. */
  lemma MergeLooks(row: Row, c: Row, fin: Row, rest: Row, i: nat)
    requires Merging(row, c, fin, rest, i) && i + 1 < |row|
    ensures row[i] == row[i + 1] && row[i] != 1 <==> |fin| == i && |rest| >= 2 && rest[0] == rest[1]
    ensures |fin| == i && |rest| >= 2 ==> row[i] == rest[0]
  {
    if |fin| == i {
      assert |rest| >= 1 ==> row[i] == rest[0];
      assert |rest| >= 2 ==> row[i + 1] == rest[1];
    }
  }

  lemma MergeTakes(row: Row, c: Row, fin: Row, rest: Row, i: nat)
    requires Merging(row, c, fin, rest, i) && i + 1 < |row| && |fin| == i && |rest| >= 2 && rest[0] == rest[1]
    ensures Merging(Removed(row[i := 2 * row[i]], i + 1), c, fin + [2 * rest[0]], rest[2..], i + 1)
  {
    var f, t, n := 2 * rest[0], rest[2..], |row|;
    MergeLooks(row, c, fin, rest, i);
    assert row == fin + rest + Blanks(n - |fin + rest|);
    assert Removed(row[i := f], i + 1) == (fin + [f]) + t + Blanks(n - |(fin + [f]) + t|);
    assert fin + ([f] + Merge(t)) == (fin + [f]) + Merge(t);
    hide Merge, Removed;
  }

  lemma MergePasses(row: Row, c: Row, fin: Row, rest: Row, i: nat) returns (fin': Row, rest': Row)
    requires Merging(row, c, fin, rest, i) && i + 1 < |row| && !(|fin| == i && |rest| >= 2 && rest[0] == rest[1])
    ensures Merging(row, c, fin', rest', i + 1)
  {
    if rest == [] {
      fin', rest' := fin, rest;
    } else {
      fin', rest' := fin + [rest[0]], rest[1..];
      assert fin' + rest' == fin + rest;
      if |rest| >= 2 {
        assert Merge(rest) == [rest[0]] + Merge(rest');
      } else {
        assert rest' == [] && Merge(rest') == [] && Merge(rest) == [rest[0]];
      }
      assert fin + ([rest[0]] + Merge(rest')) == fin' + Merge(rest');
      hide Merge, Pad;
    }
  }

  lemma MergeEnds(row: Row, c: Row, fin: Row, rest: Row, i: nat)
    requires Merging(row, c, fin, rest, i) && i + 1 >= |row|
    ensures row == Pad(Merge(c), |row|)
  {
    assert |rest| <= 1;
  }
}
