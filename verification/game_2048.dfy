/** command/2048.c on arrays.  The array of a board of n by n cells has one cell more: rmv reads the cell behind
    the row it works on, and for the last row that is the cell behind the board. */
module Game2048 {
  import opened GameRows
  import opened GameBoards

  // ---- indices ----

  lemma RowBounds(i: nat, n: nat)
    requires i < n
    ensures 0 <= i * n && i * n + n <= n * n
  {
    Scale(i + 1, n, n);
    Scale(0, i, n);
  }

  lemma Scale(a: nat, b: nat, n: nat)
    requires a <= b
    ensures a * n <= b * n
  {
  }

  lemma RowsApart(i: nat, k: nat, n: nat)
    requires i < k
    ensures i * n + n <= k * n
  {
    Scale(i + 1, k, n);
  }

  function RowAt(s: seq<int>, n: nat, i: nat): (r: Row)
    requires |s| >= n * n && i < n
    ensures |r| == n
  {
    RowBounds(i, n);
    s[i * n..i * n + n]
  }

  /** The rows of a board laid out one after the other. */
  function BoardOf(s: seq<int>, n: nat): (b: Board)
    requires |s| >= n * n
    ensures Square(b, n)
  {
    seq(n, i requires 0 <= i < n => RowAt(s, n, i))
  }

  lemma CellOf(s: seq<int>, n: nat, i: nat, j: nat)
    requires |s| >= n * n && i < n && j < n
    ensures 0 <= i * n + j < n * n && BoardOf(s, n)[i][j] == s[i * n + j]
  {
    RowBounds(i, n);
  }

  // ---- rmv and mvleft ----

  ghost predicate OnlyRow(s: seq<int>, s': seq<int>, base: nat, n: nat)
    requires base + n <= |s|
  {
    |s'| == |s| && s'[..base] == s[..base] && s'[base + n..] == s[base + n..]
  }

  method Rmv(a: array<int>, base: nat, idx: nat, len: nat)
    requires base + len < a.Length && idx < len
    modifies a
    ensures a[base..base + len] == Removed(old(a[base..base + len]), idx)
    ensures OnlyRow(old(a[..]), a[..], base, len)
  {
    var k := idx;
    a[base + k] := a[base + k + 1];
    k := k + 1;
    while k != len
      invariant idx < k <= len
      invariant forall m :: base + idx <= m < base + k ==> a[m] == old(a[m + 1])
      invariant forall m :: 0 <= m < a.Length && !(base + idx <= m < base + k) ==> a[m] == old(a[m])
    {
      a[base + k] := a[base + k + 1];
      k := k + 1;
    }
    a[base + len - 1] := 1;
    RmvIs(old(a[..]), a[..], base, idx, len);
    assert a[base..base + len] == a[..][base..base + len];
    assert old(a[base..base + len]) == old(a[..])[base..base + len];
  }

  lemma RmvIs(s: seq<int>, s': seq<int>, base: nat, idx: nat, len: nat)
    requires base + len < |s| && idx < len && |s'| == |s|
    requires forall m :: base + idx <= m < base + len - 1 ==> s'[m] == s[m + 1]
    requires s'[base + len - 1] == 1
    requires forall m :: 0 <= m < |s| && !(base + idx <= m < base + len) ==> s'[m] == s[m]
    ensures s'[base..base + len] == Removed(s[base..base + len], idx) && OnlyRow(s, s', base, len)
  {
    var r, r' := s[base..base + len], s'[base..base + len];
    forall j | 0 <= j < len ensures r'[j] == Removed(r, idx)[j] {
      assert r'[j] == s'[base + j];
      assert r[j] == s[base + j];
      assert idx <= j < len - 1 ==> r[j + 1] == s[base + j + 1];
    }
  }

  /** The loop of mvleft that drops the blanks, from the right. */
  method DropBlanks(a: array<int>, base: nat, n: nat)
    requires base + n < a.Length
    modifies a
    ensures a[base..base + n] == Pad(Compact(old(a[base..base + n])), n)
    ensures OnlyRow(old(a[..]), a[..], base, n)
  {
    ghost var s, all := a[base..base + n], a[..];
    DropAll(s);
    OnlyRowRefl(all, base, n);
    hide Compact, Pad, Removed, Dropped, OnlyRow;
    var i := n;
    while i > 0
      invariant 0 <= i <= n && a[base..base + n] == Dropped(s, i)
      invariant OnlyRow(all, a[..], base, n)
    {
      ghost var before := a[..];
      i := i - 1;
      DropTurn(a, base, n, i, s);
      OnlyRowTrans(all, before, a[..], base, n);
    }
  }

  /** One turn of that loop. */
  method DropTurn(a: array<int>, base: nat, n: nat, i: nat, ghost s: Row)
    requires base + n < a.Length && |s| == n && i < n && a[base..base + n] == Dropped(s, i + 1)
    modifies a
    ensures a[base..base + n] == Dropped(s, i)
    ensures OnlyRow(old(a[..]), a[..], base, n)
  {
    DropStep(s, i);
    OnlyRowRefl(a[..], base, n);
    hide Compact, Pad, Removed, Dropped, OnlyRow;
    assert a[base + i] == a[base..base + n][i];
    if a[base + i] == 1 {
      Rmv(a, base, i, n);
    }
  }

  lemma OnlyRowRefl(s: seq<int>, base: nat, n: nat)
    requires base + n <= |s|
    ensures OnlyRow(s, s, base, n)
  {
  }

  lemma OnlyRowTrans(s: seq<int>, t: seq<int>, u: seq<int>, base: nat, n: nat)
    requires base + n <= |s| && OnlyRow(s, t, base, n) && base + n <= |t| && OnlyRow(t, u, base, n)
    ensures OnlyRow(s, u, base, n)
  {
  }

  /** The loop of mvleft that merges, from the left. */
  method MergeTiles(a: array<int>, base: nat, n: nat, ghost c: Row)
    requires base + n < a.Length && |c| <= n && (forall k :: 0 <= k < |c| ==> c[k] != 1)
    requires a[base..base + n] == Pad(c, n)
    modifies a
    ensures a[base..base + n] == Pad(Merge(c), n)
    ensures OnlyRow(old(a[..]), a[..], base, n)
  {
    ghost var fin, rest: Row := [], c;
    ghost var all := a[..];
    MergeStart(a[base..base + n], c);
    OnlyRowRefl(all, base, n);
    hide Compact, Pad, Removed, Merge, Merging, OnlyRow;
    var i := 0;
    while i + 1 < n
      invariant 0 <= i && Merging(a[base..base + n], c, fin, rest, i)
      invariant OnlyRow(all, a[..], base, n)
    {
      ghost var before := a[..];
      i, fin, rest := MergeTurn(a, base, n, i, c, fin, rest);
      OnlyRowTrans(all, before, a[..], base, n);
    }
    MergeEnds(a[base..base + n], c, fin, rest, i);
  }

  /** One turn of that loop. */
  method MergeTurn(a: array<int>, base: nat, n: nat, i: nat, ghost c: Row, ghost fin: Row, ghost rest: Row)
    returns (i': nat, ghost fin': Row, ghost rest': Row)
    requires base + n < a.Length && i + 1 < n && Merging(a[base..base + n], c, fin, rest, i)
    modifies a
    ensures i' == i + 1 && Merging(a[base..base + n], c, fin', rest', i + 1)
    ensures OnlyRow(old(a[..]), a[..], base, n)
  {
    hide Compact, Pad, Removed, Merge, Merging;
    ghost var row := a[base..base + n];
    MergeLooks(row, c, fin, rest, i);
    assert row[i] == a[base + i] && row[i + 1] == a[base + i + 1];
    if a[base + i] == a[base + i + 1] && a[base + i] != 1 {
      MergeTakes(row, c, fin, rest, i);
      a[base + i] := a[base + i] * 2;
      assert a[base..base + n] == row[i := 2 * row[i]];
      Rmv(a, base, i + 1, n);
      fin', rest' := fin + [2 * rest[0]], rest[2..];
    } else {
      fin', rest' := MergePasses(row, c, fin, rest, i);
    }
    i' := i + 1;
  }

  method MoveOneRow(a: array<int>, base: nat, n: nat)
    requires base + n < a.Length
    modifies a
    ensures a[base..base + n] == MoveRow(old(a[base..base + n]))
    ensures OnlyRow(old(a[..]), a[..], base, n)
  {
    ghost var s, all := a[base..base + n], a[..];
    hide Pad, Merge, OnlyRow;
    DropBlanks(a, base, n);
    ghost var mid := a[..];
    MergeTiles(a, base, n, Compact(s));
    OnlyRowTrans(all, mid, a[..], base, n);
  }

  /** The board when its first `r` rows have been moved. */
  ghost predicate Moved(s: seq<int>, s': seq<int>, n: nat, r: nat)
    requires |s| == n * n + 1
  {
    && |s'| == |s| && s'[n * n] == s[n * n]
    && forall i :: 0 <= i < n ==> BoardOf(s', n)[i] == if i < r then MoveRow(BoardOf(s, n)[i]) else BoardOf(s, n)[i]
  }

  lemma MovedStep(s: seq<int>, s1: seq<int>, s2: seq<int>, n: nat, r: nat)
    requires |s| == n * n + 1 && r < n && Moved(s, s1, n, r)
    requires r * n + n <= n * n && OnlyRow(s1, s2, r * n, n) && s2[r * n..r * n + n] == MoveRow(s1[r * n..r * n + n])
    ensures Moved(s, s2, n, r + 1)
  {
    hide MoveRow;
    forall i | 0 <= i < n && i != r ensures BoardOf(s2, n)[i] == BoardOf(s1, n)[i] {
      SameRow(s1, s2, n, r, i);
    }
    assert s2[n * n] == s2[r * n + n..][n * n - (r * n + n)];
    assert s1[n * n] == s1[r * n + n..][n * n - (r * n + n)];
  }

  lemma SameRow(s: seq<int>, s': seq<int>, n: nat, r: nat, i: nat)
    requires |s| == n * n + 1 && r < n && i < n && i != r && r * n + n <= n * n && OnlyRow(s, s', r * n, n)
    ensures BoardOf(s', n)[i] == BoardOf(s, n)[i]
  {
    RowBounds(i, n);
    if i < r {
      RowsApart(i, r, n);
      assert s[i * n..i * n + n] == s[..r * n][i * n..i * n + n];
      assert s'[i * n..i * n + n] == s'[..r * n][i * n..i * n + n];
    } else {
      RowsApart(r, i, n);
      var d := r * n + n;
      assert s[i * n..i * n + n] == s[d..][i * n - d..i * n + n - d];
      assert s'[i * n..i * n + n] == s'[d..][i * n - d..i * n + n - d];
    }
  }

  method MvLeft(a: array<int>, n: nat)
    requires a.Length == n * n + 1
    modifies a
    ensures BoardOf(a[..], n) == Left(BoardOf(old(a[..]), n), n) && a[n * n] == old(a[n * n])
  {
    ghost var s := a[..];
    var arr, r := 0, 0;
    hide MoveRow, Moved, BoardOf;
    NoneMoved(s, n);
    while arr != n * n
      invariant r <= n && arr == r * n && Moved(s, a[..], n, r)
      decreases n - r
    {
      MoreRows(r, n);
      MoveNext(a, arr, n, r, s);
      arr := arr + n;
      r := r + 1;
    }
    AllRows(r, n);
    AllMoved(s, a[..], n);
  }

  /** One turn of the loop of mvleft. */
  method MoveNext(a: array<int>, arr: nat, n: nat, r: nat, ghost s: seq<int>)
    requires a.Length == n * n + 1 && |s| == n * n + 1 && r < n && arr == r * n && Moved(s, a[..], n, r)
    modifies a
    ensures Moved(s, a[..], n, r + 1)
  {
    hide MoveRow, Moved, BoardOf;
    ghost var s1 := a[..];
    RowBounds(r, n);
    assert s1[arr..arr + n] == a[arr..arr + n];
    MoveOneRow(a, arr, n);
    assert a[..][arr..arr + n] == a[arr..arr + n];
    MovedStep(s, s1, a[..], n, r);
  }

  lemma NoneMoved(s: seq<int>, n: nat)
    requires |s| == n * n + 1
    ensures Moved(s, s, n, 0)
  {
  }

  lemma AllMoved(s: seq<int>, s': seq<int>, n: nat)
    requires |s| == n * n + 1 && Moved(s, s', n, n)
    ensures BoardOf(s', n) == Left(BoardOf(s, n), n) && |s'| == |s| && s'[n * n] == s[n * n]
  {
    hide MoveRow;
  }

  lemma MoreRows(r: nat, n: nat)
    requires r <= n && r * n != n * n
    ensures r < n && n > 0
  {
  }

  lemma AllRows(r: nat, n: nat)
    requires r <= n && r * n == n * n
    ensures r == n
  {
    if r < n { RowsApart(r, n, n); }
  }

  // ---- trans, tover and the moves ----

  lemma SetCell(s: seq<int>, n: nat, i: nat, j: nat, v: int, p: nat, q: nat)
    requires |s| >= n * n && i < n && j < n && p < n && q < n
    ensures 0 <= i * n + j < n * n
    ensures BoardOf(s[i * n + j := v], n)[p][q] == if p == i && q == j then v else BoardOf(s, n)[p][q]
  {
    CellOf(s, n, i, j);
    CellOf(s, n, p, q);
    CellOf(s[i * n + j := v], n, p, q);
    if p < i { RowsApart(p, i, n); }
    if i < p { RowsApart(i, p, n); }
  }

  /** The cells set so far when a copy has reached row `i` and column `j`. */
  ghost predicate Copied(b: Board, target: Board, n: nat, i: nat, j: nat)
    requires Square(b, n) && Square(target, n)
  {
    forall p: nat, q: nat :: p < n && q < n && (p < i || (p == i && q < j)) ==> b[p][q] == target[p][q]
  }

  lemma CopyStep(s: seq<int>, target: Board, n: nat, i: nat, j: nat)
    requires |s| >= n * n && i < n && j < n && Square(target, n) && Copied(BoardOf(s, n), target, n, i, j)
    ensures 0 <= i * n + j < n * n && Copied(BoardOf(s[i * n + j := target[i][j]], n), target, n, i, j + 1)
  {
    CellOf(s, n, i, j);
    hide BoardOf;
    forall p: nat, q: nat | p < n && q < n && (p < i || (p == i && q < j + 1))
      ensures BoardOf(s[i * n + j := target[i][j]], n)[p][q] == target[p][q]
    {
      SetCell(s, n, i, j, target[i][j], p, q);
    }
  }

  lemma CopyRow(b: Board, target: Board, n: nat, i: nat)
    requires Square(b, n) && Square(target, n) && i < n && Copied(b, target, n, i, n)
    ensures Copied(b, target, n, i + 1, 0)
  {
  }

  lemma CopyAll(b: Board, target: Board, n: nat)
    requires Square(b, n) && Square(target, n) && Copied(b, target, n, n, 0)
    ensures b == target
  {
    forall p | 0 <= p < n ensures b[p] == target[p] {
      forall q | 0 <= q < n ensures b[p][q] == target[p][q] { }
    }
  }

  method Trans(dst: array<int>, src: array<int>, n: nat)
    requires dst.Length >= n * n && src.Length >= n * n && dst != src
    modifies dst
    ensures BoardOf(dst[..], n) == Transpose(BoardOf(src[..], n), n)
    ensures forall m :: n * n <= m < dst.Length ==> dst[m] == old(dst[m])
  {
    ghost var target := Transpose(BoardOf(src[..], n), n);
    hide BoardOf;
    var i := 0;
    while i != n
      invariant i <= n && Copied(BoardOf(dst[..], n), target, n, i, 0)
      invariant forall m :: n * n <= m < dst.Length ==> dst[m] == old(dst[m])
    {
      var j := 0;
      while j != n
        invariant j <= n && Copied(BoardOf(dst[..], n), target, n, i, j)
        invariant forall m :: n * n <= m < dst.Length ==> dst[m] == old(dst[m])
      {
        CopyStep(dst[..], target, n, i, j);
        CellOf(src[..], n, j, i);
        ghost var s := dst[..];
        dst[i * n + j] := src[j * n + i];
        assert dst[..] == s[i * n + j := target[i][j]];
        j := j + 1;
      }
      CopyRow(BoardOf(dst[..], n), target, n, i);
      i := i + 1;
    }
    CopyAll(BoardOf(dst[..], n), target, n);
  }

  method TOver(dst: array<int>, src: array<int>, n: nat)
    requires dst.Length >= n * n && src.Length >= n * n && dst != src
    modifies dst
    ensures BoardOf(dst[..], n) == Mirror(BoardOf(src[..], n), n)
    ensures forall m :: n * n <= m < dst.Length ==> dst[m] == old(dst[m])
  {
    ghost var target := Mirror(BoardOf(src[..], n), n);
    hide BoardOf;
    var i := 0;
    while i != n
      invariant i <= n && Copied(BoardOf(dst[..], n), target, n, i, 0)
      invariant forall m :: n * n <= m < dst.Length ==> dst[m] == old(dst[m])
    {
      var j := 0;
      while j != n
        invariant j <= n && Copied(BoardOf(dst[..], n), target, n, i, j)
        invariant forall m :: n * n <= m < dst.Length ==> dst[m] == old(dst[m])
      {
        CopyStep(dst[..], target, n, i, j);
        CellOf(src[..], n, i, n - 1 - j);
        ghost var s := dst[..];
        dst[i * n + j] := src[i * n + n - 1 - j];
        assert dst[..] == s[i * n + j := target[i][j]];
        j := j + 1;
      }
      CopyRow(BoardOf(dst[..], n), target, n, i);
      i := i + 1;
    }
    CopyAll(BoardOf(dst[..], n), target, n);
  }

  method PLeft(grid: array<int>, n: nat)
    requires grid.Length == n * n + 1
    modifies grid
    ensures BoardOf(grid[..], n) == Left(BoardOf(old(grid[..]), n), n)
  {
    MvLeft(grid, n);
  }

  method PUp(grid: array<int>, n: nat)
    requires grid.Length == n * n + 1
    modifies grid
    ensures BoardOf(grid[..], n) == Up(BoardOf(old(grid[..]), n), n)
  {
    hide BoardOf, Transpose, Left;
    var gtmp := new int[n * n + 1];
    Trans(gtmp, grid, n);
    MvLeft(gtmp, n);
    Trans(grid, gtmp, n);
  }

  method PRight(grid: array<int>, n: nat)
    requires grid.Length == n * n + 1
    modifies grid
    ensures BoardOf(grid[..], n) == Right(BoardOf(old(grid[..]), n), n)
  {
    hide BoardOf, Mirror, Left;
    var gtmp := new int[n * n + 1];
    TOver(gtmp, grid, n);
    MvLeft(gtmp, n);
    TOver(grid, gtmp, n);
  }

  method PDown(grid: array<int>, n: nat)
    requires grid.Length == n * n + 1
    modifies grid
    ensures BoardOf(grid[..], n) == Down(BoardOf(old(grid[..]), n), n)
  {
    hide BoardOf, Mirror, Transpose, Left;
    var gtmp1 := new int[n * n + 1];
    var gtmp2 := new int[n * n + 1];
    Trans(gtmp1, grid, n);
    TOver(gtmp2, gtmp1, n);
    MvLeft(gtmp2, n);
    TOver(gtmp1, gtmp2, n);
    Trans(grid, gtmp1, n);
  }

  // ---- the game ----

  const ROW := 4
  const CELLS := 16

  datatype Dire = LEFT | DOWN | UP | RIGHT | QUIT

  /** All cells of a 4 by 4 grid are powers of two up to 2 to the `m`. */
  ghost predicate CellsOk(s: seq<int>, m: nat) {
    |s| == CELLS + 1 && forall i :: 0 <= i < CELLS ==> Tile(s[i], m)
  }

  lemma CellsBoard(s: seq<int>, m: nat)
    requires |s| == CELLS + 1
    ensures CellsOk(s, m) <==> AllTiles(BoardOf(s, ROW), m)
  {
    hide Tile;
    var b := BoardOf(s, ROW);
    forall k: nat | k < CELLS ensures b[k / ROW][k % ROW] == s[k] {
      CellOf(s, ROW, k / ROW, k % ROW);
    }
    hide BoardOf;
    if AllTiles(b, m) {
      forall k: nat | k < CELLS ensures Tile(s[k], m) {
        assert Tiles(b[k / ROW], m);
      }
    }
    if CellsOk(s, m) {
      forall i | 0 <= i < ROW ensures Tiles(b[i], m) {
        forall j | 0 <= j < ROW ensures Tile(b[i][j], m) {
          assert (i * ROW + j) / ROW == i && (i * ROW + j) % ROW == j;
          assert b[i][j] == s[i * ROW + j];
        }
      }
    }
  }

  /** How many of the first `k` cells hold a value. */
  function CountTo(s: seq<int>, v: int, k: nat): (c: nat)
    requires k <= |s|
    ensures c <= k
  {
    if k == 0 then 0 else CountTo(s, v, k - 1) + if s[k - 1] == v then 1 else 0
  }

  lemma {:induction false} CountNone(s: seq<int>, v: int, k: nat)
    requires k <= |s|
    ensures CountTo(s, v, k) == 0 <==> forall i :: 0 <= i < k ==> s[i] != v
  {
    if k > 0 { CountNone(s, v, k - 1); }
  }

  method GetCnt(grid: array<int>, val: int) returns (valcnt: nat)
    requires grid.Length == CELLS + 1
    ensures valcnt == CountTo(grid[..], val, CELLS)
  {
    valcnt := 0;
    for i := 0 to ROW
      invariant valcnt == CountTo(grid[..], val, i * ROW)
    {
      for j := 0 to ROW
        invariant valcnt == CountTo(grid[..], val, i * ROW + j)
      {
        if grid[i * ROW + j] == val {
          valcnt := valcnt + 1;
        }
      }
    }
  }

  /** rand: 32-bit wrap-around, then the remainder by 2 to the 31 less 1. */
  function Rand(seed: nat): (r: nat)
    ensures r < 2147483647
  {
    (seed * 6807 % 0x1_0000_0000) % 2147483647
  }

  /** The product with 6807, less what has wrapped round 32 bits, less the modulus as often as it goes into that. */
  lemma RandExactly(seed: nat) returns (wraps: nat, q: nat)
    ensures seed * 6807 == wraps * 0x1_0000_0000 + q * 2147483647 + Rand(seed)
    ensures q * 2147483647 + Rand(seed) < 0x1_0000_0000
  {
    wraps := seed * 6807 / 0x1_0000_0000;
    q := seed * 6807 % 0x1_0000_0000 / 2147483647;
  }

  /** badd: `grid` gets a 2 or a 4 in the blank cell number Rand(ticks) modulo the number of blanks. */
  ghost predicate Added(s: seq<int>, s': seq<int>, ticks: nat)
    requires |s| == CELLS + 1 && CountTo(s, 1, CELLS) > 0
  {
    var r := Rand(ticks % 0x1_0000_0000);
    exists i: nat :: i < CELLS && s[i] == 1 && CountTo(s, 1, i) == r % CountTo(s, 1, CELLS) && s' == s[i := 2 * (Rand(r) % 2 + 1)]
  }

  method BAdd(grid: array<int>, ticks: nat) returns (r: int)
    requires grid.Length == CELLS + 1
    modifies grid
    ensures r == -1 || r == 0
    ensures r == -1 <==> forall i :: 0 <= i < CELLS ==> old(grid[i]) != 1
    ensures r == -1 ==> grid[..] == old(grid[..])
    ensures r == 0 ==> CountTo(old(grid[..]), 1, CELLS) > 0 && Added(old(grid[..]), grid[..], ticks)
  {
    ghost var s := grid[..];
    var spaceVar := GetCnt(grid, 1);
    CountNone(s, 1, CELLS);
    if spaceVar == 0 { return -1; }
    var seed := Rand(ticks % 0x1_0000_0000);
    var random := seed % spaceVar;
    hide Rand;
    var idx, i := 0, 0;
    while i != CELLS
      invariant i <= CELLS && grid[..] == s && idx == CountTo(s, 1, i) && idx <= random
    {
      if grid[i] == 1 {
        if idx == random {
          seed := Rand(seed);
          grid[i] := 2 * (seed % 2 + 1);
          assert grid[..] == s[i := grid[i]];
          return 0;
        }
        idx := idx + 1;
      }
      i := i + 1;
    }
    r := 0;
  }

  /** num2idx stops, below 12, on every power of two up to 2048. */
  method Num2Idx(num: int) returns (idx: nat)
    requires Tile(num, 11)
    ensures idx < 12 && num == Pow2(idx)
  {
    idx := 0;
    var n := 1;
    ghost var k: nat :| k <= 11 && num == Pow2(k);
    while n != num
      invariant idx <= k && n == Pow2(idx)
      decreases k - idx
    {
      idx := idx + 1;
      n := n * 2;
    }
  }

  lemma AddedOk(s: seq<int>, s': seq<int>, ticks: nat, m: nat)
    requires |s| == CELLS + 1 && CountTo(s, 1, CELLS) > 0 && Added(s, s', ticks) && CellsOk(s, m) && m >= 2
    ensures CellsOk(s', m)
  {
    assert Pow2(1) == 2 && Pow2(2) == 4;
    assert Tile(2, m) && Tile(4, m);
    hide Rand, Tile, Pow2;
  }

  lemma NoWin(s: seq<int>)
    requires CellsOk(s, 11) && forall i :: 0 <= i < CELLS ==> s[i] != 2048
    ensures CellsOk(s, 10)
  {
    assert Pow2(11) == 2048 by { assert Pow2(8) == 256; }
    forall i | 0 <= i < CELLS ensures Tile(s[i], 10) {
      assert Tile(s[i], 11);
    }
  }

  /** Drawing the grid: every cell's colour index is in the table of 12. */
  method Output(grid: array<int>)
    requires grid.Length == CELLS + 1 && CellsOk(grid[..], 11)
  {
    for i := 0 to CELLS {
      assert Tile(grid[..][i], 11);
      var idx := Num2Idx(grid[i]);
      assert idx < 12;
    }
  }

  method Move(grid: array<int>, dire: Dire)
    requires grid.Length == CELLS + 1 && dire != QUIT && CellsOk(grid[..], 10)
    modifies grid
    ensures CellsOk(grid[..], 11)
    ensures var b, b' := BoardOf(old(grid[..]), ROW), BoardOf(grid[..], ROW);
            b' == (if dire == LEFT then Left(b, ROW) else if dire == DOWN then Down(b, ROW) else if dire == UP then Up(b, ROW) else Right(b, ROW))
            && Total(b', ROW) == Total(b, ROW)
  {
    ghost var b := BoardOf(grid[..], ROW);
    CellsBoard(grid[..], 10);
    TilesKept(b, ROW, 10);
    TotalKept(b, ROW);
    hide CellsOk, AllTiles, Total, BoardOf, Left, Down, Up, Right;
    match dire {
      case LEFT => PLeft(grid, ROW);
      case DOWN => PDown(grid, ROW);
      case UP => PUp(grid, ROW);
      case RIGHT => PRight(grid, ROW);
    }
    CellsBoard(grid[..], 11);
  }

  datatype End = GameOver | Won | Quit | StillPlaying

  ghost predicate Shows(s: seq<int>, v: int) {
    |s| == CELLS + 1 && exists i :: 0 <= i < CELLS && s[i] == v
  }

  /** The board of `s'` is the board of `s` moved the way the key says. */
  ghost predicate Turned(s: seq<int>, key: Dire, s': seq<int>) {
    && |s| == CELLS + 1 && |s'| == CELLS + 1 && key != QUIT
    && (key == LEFT ==> BoardOf(s', ROW) == Left(BoardOf(s, ROW), ROW))
    && (key == DOWN ==> BoardOf(s', ROW) == Down(BoardOf(s, ROW), ROW))
    && (key == UP ==> BoardOf(s', ROW) == Up(BoardOf(s, ROW), ROW))
    && (key == RIGHT ==> BoardOf(s', ROW) == Right(BoardOf(s, ROW), ROW))
  }

  /** badd finds a blank cell and fills it. */
  ghost predicate Filled(s: seq<int>, s': seq<int>, ticks: nat) {
    Shows(s, 1) && CountTo(s, 1, CELLS) > 0 && Added(s, s', ticks)
  }

  /** The first board: two cells of the blank grid are filled. */
  ghost predicate Opening(s: seq<int>, ticks: seq<nat>) {
    |ticks| >= 2 && exists s1 :: Filled(seq(CELLS + 1, _ => 1), s1, ticks[0]) && Filled(s1, s, ticks[1])
  }

  /** From one board that is drawn to the next: nobody has won, the key moves the tiles, and a blank cell is filled. */
  ghost predicate Next(s: seq<int>, key: Dire, ticks: nat, s': seq<int>) {
    !Shows(s, 2048) && exists m :: Turned(s, key, m) && Filled(m, s', ticks)
  }

  /** The boards drawn for the first keys. */
  ghost predicate Drawn(boards: seq<seq<int>>, keys: seq<Dire>, ticks: seq<nat>) {
    && |boards| <= |keys| + 1 && |ticks| >= |keys| + 2
    && (|boards| > 0 ==> Opening(boards[0], ticks))
    && (forall i :: 0 <= i < |boards| - 1 ==> NextAt(boards, keys, ticks, i))
  }

  ghost predicate NextAt(boards: seq<seq<int>>, keys: seq<Dire>, ticks: seq<nat>, i: int) {
    0 <= i < |boards| - 1 && i < |keys| && i + 2 < |ticks| && Next(boards[i], keys[i], ticks[i + 2], boards[i + 1])
  }

  lemma DrawMore(boards: seq<seq<int>>, keys: seq<Dire>, ticks: seq<nat>, s: seq<int>)
    requires Drawn(boards, keys, ticks) && |boards| <= |keys|
    requires if boards == [] then Opening(s, ticks) else Next(boards[|boards| - 1], keys[|boards| - 1], ticks[|boards| + 1], s)
    ensures Drawn(boards + [s], keys, ticks)
  {
    hide Next, Opening;
    var more := boards + [s];
    forall i | 0 <= i < |more| - 1 ensures NextAt(more, keys, ticks, i) {
      if i + 1 < |boards| { assert NextAt(boards, keys, ticks, i); }
    }
  }

  /** After the first cell is filled others are still blank. */
  lemma StillBlank(s: seq<int>, ticks: nat)
    requires Filled(seq(CELLS + 1, _ => 1), s, ticks)
    ensures |s| == CELLS + 1 && Shows(s, 1)
  {
    hide Rand, CountTo;
    assert s[0] == 1 || s[1] == 1;
  }

  /** The blank grid and the first badd. */
  method FirstTile(ticks: nat) returns (grid: array<int>)
    ensures fresh(grid) && grid.Length == CELLS + 1 && CellsOk(grid[..], 11) && Filled(seq(CELLS + 1, _ => 1), grid[..], ticks)
  {
    grid := new int[CELLS + 1](_ => 1);
    BlankGrid(grid[..]);
    hide *;
    ghost var s0 := grid[..];
    var _ := BAdd(grid, ticks);
    FilledIs(s0, grid[..], ticks, 11);
  }

  /** main, for as long as there are keys; `ticks` are the clock readings of badd.  `boards` are the grids that are drawn:
      the game is won with the first one that shows 2048, stops when the key is QUIT or there are no more keys, and is
      over when the move leaves no cell blank. */
  method Play(keys: seq<Dire>, ticks: seq<nat>) returns (end: End, grid: array<int>, ghost boards: seq<seq<int>>)
    requires |ticks| >= |keys| + 2
    ensures grid.Length == CELLS + 1 && CellsOk(grid[..], 11)
    ensures end == Won ==> Shows(grid[..], 2048)
    ensures end == GameOver ==> !Shows(grid[..], 1)
    ensures end == Quit || end == StillPlaying ==> !Shows(grid[..], 2048)
    ensures end == Quit ==> QUIT in keys
    ensures end == StillPlaying ==> QUIT !in keys
    ensures Drawn(boards, keys, ticks) && boards != []
    ensures forall b :: b in boards ==> CellsOk(b, 11)
    ensures var b, n := boards[|boards| - 1], |boards| - 1;
            && (end == Won <==> Shows(b, 2048))
            && (end == StillPlaying <==> !Shows(b, 2048) && n == |keys|)
            && (end == Quit <==> !Shows(b, 2048) && n < |keys| && keys[n] == QUIT)
            && (end != GameOver ==> grid[..] == b)
            && (end == GameOver ==> n < |keys| && Turned(b, keys[n], grid[..]) && !Shows(grid[..], 1))
  {
    hide *;
    boards := [];
    NothingDrawn(keys, ticks);
    grid := FirstTile(ticks[0]);
    StillReady(grid[..], keys, ticks);
    var t := 0;
    while true
      invariant t <= |keys| && |boards| == t && grid.Length == CELLS + 1 && fresh(grid) && CellsOk(grid[..], 11)
      invariant QUIT !in keys[..t]
      invariant Drawn(boards, keys, ticks) && (forall b :: b in boards ==> CellsOk(b, 11)) && Ready(boards, keys, ticks, grid[..])
      decreases |keys| - t
    {
      ghost var s := grid[..];
      var r := BAdd(grid, ticks[t + 1]);
      if r == -1 {
        NoCellLeft(boards, keys, ticks, s);
        return GameOver, grid, boards;
      }
      FilledIs(s, grid[..], ticks[t + 1], 11);
      DrawNext(boards, keys, ticks, s, grid[..]);
      boards := boards + [grid[..]];
      Output(grid);
      var won := GetCnt(grid, 2048);
      Winning(grid[..]);
      if won != 0 { return Won, grid, boards; }
      if t == |keys| {
        assert keys[..t] == keys;
        return StillPlaying, grid, boards;
      }
      var dire := keys[t];
      if dire == QUIT { return Quit, grid, boards; }
      ghost var s1 := grid[..];
      Move(grid, dire);
      TurnIs(s1, dire, grid[..]);
      StillPlays(boards, keys, ticks, grid[..]);
      assert keys[..t + 1] == keys[..t] + [dire];
      t := t + 1;
    }
  }

  /** What the next badd finds: one cell filled before the first board, a moved board later. */
  ghost predicate Ready(boards: seq<seq<int>>, keys: seq<Dire>, ticks: seq<nat>, s: seq<int>) {
    if boards == [] then |ticks| >= 2 && Filled(seq(CELLS + 1, _ => 1), s, ticks[0])
    else var n := |boards| - 1; n < |keys| && !Shows(boards[n], 2048) && Turned(boards[n], keys[n], s)
  }

  lemma BlankGrid(s: seq<int>)
    requires |s| == CELLS + 1 && forall i :: 0 <= i < |s| ==> s[i] == 1
    ensures CellsOk(s, 11) && s == seq(CELLS + 1, _ => 1) && CELLS == 16 && s[0] == 1
  {
    assert Pow2(0) == 1;
    assert Tile(1, 11);
    hide Tile;
  }

  lemma NothingDrawn(keys: seq<Dire>, ticks: seq<nat>)
    requires |ticks| >= |keys| + 2
    ensures Drawn([], keys, ticks)
  {
  }

  lemma FilledIs(s: seq<int>, s': seq<int>, ticks: nat, m: nat)
    requires |s| == CELLS + 1 && CountTo(s, 1, CELLS) > 0 && Added(s, s', ticks) && CellsOk(s, m) && m >= 2
    ensures Filled(s, s', ticks) && CellsOk(s', m)
  {
    AddedOk(s, s', ticks, m);
    CountNone(s, 1, CELLS);
    hide CountTo, Added, CellsOk;
  }

  lemma StillReady(s: seq<int>, keys: seq<Dire>, ticks: seq<nat>)
    requires |ticks| >= 2 && Filled(seq(CELLS + 1, _ => 1), s, ticks[0])
    ensures Ready([], keys, ticks, s)
  {
    hide Filled;
  }

  lemma NoCellLeft(boards: seq<seq<int>>, keys: seq<Dire>, ticks: seq<nat>, s: seq<int>)
    requires Ready(boards, keys, ticks, s) && forall i :: 0 <= i < CELLS ==> s[i] != 1
    ensures boards != [] && |boards| <= |keys| && !Shows(boards[|boards| - 1], 2048)
    ensures Turned(boards[|boards| - 1], keys[|boards| - 1], s) && keys[|boards| - 1] != QUIT && !Shows(s, 1)
  {
    if boards == [] { StillBlank(s, ticks[0]); }
    hide Filled, Turned;
  }

  lemma DrawNext(boards: seq<seq<int>>, keys: seq<Dire>, ticks: seq<nat>, s: seq<int>, s': seq<int>)
    requires Drawn(boards, keys, ticks) && Ready(boards, keys, ticks, s) && |boards| <= |keys| && |boards| + 1 < |ticks|
    requires Filled(s, s', ticks[|boards| + 1])
    ensures Drawn(boards + [s'], keys, ticks)
  {
    hide Drawn, Filled, Turned;
    DrawMore(boards, keys, ticks, s');
  }

  lemma Winning(s: seq<int>)
    requires |s| == CELLS + 1
    ensures CountTo(s, 2048, CELLS) == 0 <==> !Shows(s, 2048)
    ensures CellsOk(s, 11) && !Shows(s, 2048) ==> CellsOk(s, 10)
  {
    CountNone(s, 2048, CELLS);
    hide CountTo, CellsOk;
    if CellsOk(s, 11) && !Shows(s, 2048) { NoWin(s); }
  }

  lemma TurnIs(s: seq<int>, key: Dire, s': seq<int>)
    requires |s| == CELLS + 1 && |s'| == CELLS + 1 && key != QUIT
    requires var b, b' := BoardOf(s, ROW), BoardOf(s', ROW);
             b' == (if key == LEFT then Left(b, ROW) else if key == DOWN then Down(b, ROW) else if key == UP then Up(b, ROW) else Right(b, ROW))
    ensures Turned(s, key, s')
  {
    hide BoardOf, Left, Down, Up, Right;
  }

  lemma StillPlays(boards: seq<seq<int>>, keys: seq<Dire>, ticks: seq<nat>, s: seq<int>)
    requires var n := |boards| - 1; 0 <= n < |keys| && !Shows(boards[n], 2048) && Turned(boards[n], keys[n], s)
    ensures Ready(boards, keys, ticks, s)
  {
    hide Turned, Shows;
  }
}
