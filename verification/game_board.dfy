/** Boards of command/2048.c: the four moves are one another's mirror images, no tile's value is lost, and
    tiles stay powers of two. */
module GameBoards {
  import opened GameRows

  // ---- boards ----

  predicate Square(b: Board, n: nat) {
    |b| == n && forall i :: 0 <= i < n ==> |b[i]| == n
  }

  function Reverse(s: Row): (r: Row)
    ensures |r| == |s| && forall i :: 0 <= i < |s| ==> r[i] == s[|s| - 1 - i]
  {
    seq(|s|, i requires 0 <= i < |s| => s[|s| - 1 - i])
  }

  function Column(b: Board, j: nat): (r: Row)
    requires forall i :: 0 <= i < |b| ==> j < |b[i]|
    ensures |r| == |b| && forall i :: 0 <= i < |b| ==> r[i] == b[i][j]
  {
    seq(|b|, i requires 0 <= i < |b| => b[i][j])
  }

  /** trans on a square board. */
  function Transpose(b: Board, n: nat): (r: Board)
    requires Square(b, n)
    ensures Square(r, n) && forall j :: 0 <= j < n ==> r[j] == Column(b, j)
  {
    seq(n, j requires 0 <= j < n => Column(b, j))
  }

  /** tover */
  function Mirror(b: Board, n: nat): (r: Board)
    requires Square(b, n)
    ensures Square(r, n) && forall i :: 0 <= i < n ==> r[i] == Reverse(b[i])
  {
    seq(n, i requires 0 <= i < n => Reverse(b[i]))
  }

  function Left(b: Board, n: nat): (r: Board)
    requires Square(b, n)
    ensures Square(r, n) && forall i :: 0 <= i < n ==> r[i] == MoveRow(b[i])
  {
    seq(n, i requires 0 <= i < n => MoveRow(b[i]))
  }

  function Up(b: Board, n: nat): (r: Board)
    requires Square(b, n)
    ensures Square(r, n)
  {
    Transpose(Left(Transpose(b, n), n), n)
  }

  function Right(b: Board, n: nat): (r: Board)
    requires Square(b, n)
    ensures Square(r, n)
  {
    Mirror(Left(Mirror(b, n), n), n)
  }

  function Down(b: Board, n: nat): (r: Board)
    requires Square(b, n)
    ensures Square(r, n)
  {
    Transpose(Mirror(Left(Mirror(Transpose(b, n), n), n), n), n)
  }

  lemma ColumnOfTranspose(b: Board, n: nat, j: nat)
    requires Square(b, n) && j < n
    ensures Column(Transpose(b, n), j) == b[j]
  {
  }

  /** Up does to every column what Left does to a row. */
  lemma UpColumns(b: Board, n: nat, j: nat)
    requires Square(b, n) && j < n
    ensures Column(Up(b, n), j) == MoveRow(Column(b, j))
  {
    hide MoveRow;
    ColumnOfTranspose(Left(Transpose(b, n), n), n, j);
  }

  /** Right does it to every row read backwards. */
  lemma RightRows(b: Board, n: nat, i: nat)
    requires Square(b, n) && i < n
    ensures Reverse(Right(b, n)[i]) == MoveRow(Reverse(b[i]))
  {
    hide MoveRow;
    var r := MoveRow(Reverse(b[i]));
    assert Right(b, n)[i] == Reverse(r);
    assert Reverse(Reverse(r)) == r;
  }

  /** Down does it to every column read backwards. */
  lemma DownColumns(b: Board, n: nat, j: nat)
    requires Square(b, n) && j < n
    ensures Reverse(Column(Down(b, n), j)) == MoveRow(Reverse(Column(b, j)))
  {
    hide MoveRow, Down;
    assert Down(b, n) == Transpose(Right(Transpose(b, n), n), n) by { DownIs(b, n); }
    ColumnOfTranspose(Right(Transpose(b, n), n), n, j);
    RightRows(Transpose(b, n), n, j);
  }

  lemma DownIs(b: Board, n: nat)
    requires Square(b, n)
    ensures Down(b, n) == Transpose(Right(Transpose(b, n), n), n)
  {
  }

  // ---- the sum of the tiles ----

  function Worth(x: int): int { if x == 1 then 0 else x }

  function Sum(s: Row): int { if s == [] then 0 else Worth(s[0]) + Sum(s[1..]) }

  lemma {:induction false} SumConcat(s: Row, t: Row)
    ensures Sum(s + t) == Sum(s) + Sum(t)
  {
    if s == [] {
      assert s + t == t;
    } else {
      assert (s + t)[1..] == s[1..] + t;
      SumConcat(s[1..], t);
    }
  }

  lemma {:induction false} SumBlanks(n: nat)
    ensures Sum(Blanks(n)) == 0
  {
    if n > 0 {
      assert Blanks(n)[1..] == Blanks(n - 1);
      SumBlanks(n - 1);
    }
  }

  lemma {:induction false} SumCompact(s: Row)
    ensures Sum(Compact(s)) == Sum(s)
  {
    if s != [] {
      SumCompact(s[1..]);
      SumConcat(if s[0] == 1 then [] else [s[0]], Compact(s[1..]));
    }
  }

  lemma {:induction false} SumMerge(s: Row)
    requires forall i :: 0 <= i < |s| ==> s[i] != 1
    ensures Sum(Merge(s)) == Sum(s)
  {
    if |s| >= 2 {
      if s[0] == s[1] {
        SumMerge(s[2..]);
        SumConcat([2 * s[0]], Merge(s[2..]));
        assert s[1..][1..] == s[2..];
      } else {
        SumMerge(s[1..]);
        SumConcat([s[0]], Merge(s[1..]));
      }
    }
  }

  /** A move keeps the sum of a row's tiles. */
  lemma SumMoveRow(s: Row)
    ensures Sum(MoveRow(s)) == Sum(s)
  {
    SumCompact(s);
    SumMerge(Compact(s));
    var m := Merge(Compact(s));
    SumConcat(m, Blanks(|s| - |m|));
    SumBlanks(|s| - |m|);
    hide Sum, Merge, Compact;
    if |m| == |s| { assert m + Blanks(0) == m; }
  }

  /** The sum of the first `c` cells of the first `r` rows. */
  function Part(b: Board, r: nat, c: nat): int
    requires r <= |b| && forall i :: 0 <= i < r ==> c <= |b[i]|
  {
    if r == 0 then 0 else Part(b, r - 1, c) + Sum(b[r - 1][..c])
  }

  function Total(b: Board, n: nat): int
    requires Square(b, n)
  {
    Part(b, n, n)
  }

  lemma {:induction false} PartMoreColumns(b: Board, r: nat, c: nat)
    requires r <= |b| && forall i :: 0 <= i < |b| ==> c < |b[i]|
    ensures Part(b, r, c + 1) == Part(b, r, c) + Sum(Column(b, c)[..r])
  {
    if r > 0 {
      PartMoreColumns(b, r - 1, c);
      assert b[r - 1][..c + 1] == b[r - 1][..c] + [b[r - 1][c]];
      SumConcat(b[r - 1][..c], [b[r - 1][c]]);
      assert Column(b, c)[..r] == Column(b, c)[..r - 1] + [b[r - 1][c]];
      SumConcat(Column(b, c)[..r - 1], [b[r - 1][c]]);
    }
  }

  lemma {:induction false} PartTranspose(b: Board, n: nat, c: nat)
    requires Square(b, n) && c <= n
    ensures Part(b, n, c) == Part(Transpose(b, n), c, n)
  {
    if c == 0 {
      PartNothing(b, n);
    } else {
      PartTranspose(b, n, c - 1);
      PartMoreColumns(b, n, c - 1);
      assert Transpose(b, n)[c - 1][..n] == Column(b, c - 1) == Column(b, c - 1)[..n];
    }
  }

  lemma {:induction false} PartNothing(b: Board, r: nat)
    requires r <= |b|
    ensures Part(b, r, 0) == 0
  {
    if r > 0 {
      PartNothing(b, r - 1);
      assert b[r - 1][..0] == [];
    }
  }

  lemma {:induction false} PartRows(a: Board, b: Board, r: nat, n: nat)
    requires Square(a, n) && Square(b, n) && r <= n && forall i :: 0 <= i < r ==> Sum(a[i]) == Sum(b[i])
    ensures Part(a, r, n) == Part(b, r, n)
  {
    if r > 0 {
      PartRows(a, b, r - 1, n);
      assert a[r - 1][..n] == a[r - 1] && b[r - 1][..n] == b[r - 1];
    }
  }

  lemma {:induction false} SumReverse(s: Row)
    ensures Sum(Reverse(s)) == Sum(s)
  {
    if s != [] {
      assert Reverse(s) == Reverse(s[1..]) + [s[0]];
      SumConcat(Reverse(s[1..]), [s[0]]);
      SumReverse(s[1..]);
    }
  }

  lemma TotalTranspose(b: Board, n: nat)
    requires Square(b, n)
    ensures Total(Transpose(b, n), n) == Total(b, n)
  {
    PartTranspose(b, n, n);
  }

  lemma TotalMirror(b: Board, n: nat)
    requires Square(b, n)
    ensures Total(Mirror(b, n), n) == Total(b, n)
  {
    forall i | 0 <= i < n ensures Sum(Mirror(b, n)[i]) == Sum(b[i]) { SumReverse(b[i]); }
    PartRows(Mirror(b, n), b, n, n);
  }

  lemma TotalLeft(b: Board, n: nat)
    requires Square(b, n)
    ensures Total(Left(b, n), n) == Total(b, n)
  {
    forall i | 0 <= i < n ensures Sum(Left(b, n)[i]) == Sum(b[i]) { SumMoveRow(b[i]); }
    PartRows(Left(b, n), b, n, n);
  }

  /** Each of the four moves conserves the sum of the tiles. */
  lemma TotalKept(b: Board, n: nat)
    requires Square(b, n)
    ensures Total(Left(b, n), n) == Total(b, n) && Total(Up(b, n), n) == Total(b, n)
    ensures Total(Right(b, n), n) == Total(b, n) && Total(Down(b, n), n) == Total(b, n)
  {
    hide Total, Transpose, Mirror, Left;
    TotalLeft(b, n);
    var t := Transpose(b, n);
    TotalTranspose(b, n);
    TotalLeft(t, n);
    TotalTranspose(Left(t, n), n);
    var m := Mirror(b, n);
    TotalMirror(b, n);
    TotalLeft(m, n);
    TotalMirror(Left(m, n), n);
    var tm := Mirror(t, n);
    TotalMirror(t, n);
    TotalLeft(tm, n);
    TotalMirror(Left(tm, n), n);
    TotalTranspose(Mirror(Left(tm, n), n), n);
  }

  // ---- powers of two ----

  function Pow2(k: nat): nat { if k == 0 then 1 else 2 * Pow2(k - 1) }

  /** `x` is a power of two, at most 2 to the `m`. */
  predicate Tile(x: int, m: nat) {
    exists k: nat :: k <= m && x == Pow2(k)
  }

  ghost predicate Tiles(s: Row, m: nat) {
    forall i :: 0 <= i < |s| ==> Tile(s[i], m)
  }

  lemma TileMore(x: int, m: nat)
    requires Tile(x, m)
    ensures Tile(x, m + 1) && Tile(2 * x, m + 1)
  {
    var k: nat :| k <= m && x == Pow2(k);
    assert 2 * x == Pow2(k + 1);
  }

  lemma {:induction false} TilesCompact(s: Row, m: nat)
    requires Tiles(s, m)
    ensures Tiles(Compact(s), m)
  {
    hide Tile;
    if s != [] { TilesCompact(s[1..], m); }
  }

  lemma {:induction false} TilesMerge(s: Row, m: nat)
    requires Tiles(s, m)
    ensures Tiles(Merge(s), m + 1)
  {
    if s != [] { TileMore(s[0], m); }
    hide Tile;
    if |s| >= 2 {
      if s[0] == s[1] { TilesMerge(s[2..], m); } else { TilesMerge(s[1..], m); }
    }
  }

  lemma TilesMoveRow(s: Row, m: nat)
    requires Tiles(s, m)
    ensures Tiles(MoveRow(s), m + 1)
  {
    TilesCompact(s, m);
    TilesMerge(Compact(s), m);
    assert Pow2(0) == 1;
    assert Tile(1, m + 1);
  }

  ghost predicate AllTiles(b: Board, m: nat) {
    forall i :: 0 <= i < |b| ==> Tiles(b[i], m)
  }

  lemma TilesLeft(b: Board, n: nat, m: nat)
    requires Square(b, n) && AllTiles(b, m)
    ensures AllTiles(Left(b, n), m + 1)
  {
    hide Tiles;
    forall i | 0 <= i < n ensures Tiles(Left(b, n)[i], m + 1) { TilesMoveRow(b[i], m); }
  }

  lemma TilesTranspose(b: Board, n: nat, m: nat)
    requires Square(b, n) && AllTiles(b, m)
    ensures AllTiles(Transpose(b, n), m)
  {
    hide Tile;
    forall j, i | 0 <= j < n && 0 <= i < n ensures Tile(Transpose(b, n)[j][i], m) {
      assert Tiles(b[i], m);
    }
  }

  lemma TilesMirror(b: Board, n: nat, m: nat)
    requires Square(b, n) && AllTiles(b, m)
    ensures AllTiles(Mirror(b, n), m)
  {
    hide Tile;
    forall i, j | 0 <= i < n && 0 <= j < n ensures Tile(Mirror(b, n)[i][j], m) {
      assert Tiles(b[i], m);
    }
  }

  /** A move at most doubles the greatest tile, and makes only powers of two. */
  lemma TilesKept(b: Board, n: nat, m: nat)
    requires Square(b, n) && AllTiles(b, m)
    ensures AllTiles(Left(b, n), m + 1) && AllTiles(Up(b, n), m + 1)
    ensures AllTiles(Right(b, n), m + 1) && AllTiles(Down(b, n), m + 1)
  {
    hide AllTiles, Transpose, Mirror, Left;
    TilesLeft(b, n, m);
    var t := Transpose(b, n);
    TilesTranspose(b, n, m);
    TilesLeft(t, n, m);
    TilesTranspose(Left(t, n), n, m + 1);
    var r := Mirror(b, n);
    TilesMirror(b, n, m);
    TilesLeft(r, n, m);
    TilesMirror(Left(r, n), n, m + 1);
    var tm := Mirror(t, n);
    TilesMirror(t, n, m);
    TilesLeft(tm, n, m);
    TilesMirror(Left(tm, n), n, m + 1);
    TilesTranspose(Mirror(Left(tm, n), n), n, m + 1);
  }
}
