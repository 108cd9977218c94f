/** The sum of the tiles over a whole game of 2048: moves keep it, and every turn adds a 2 or a 4. */
module GameScores {
  import opened GameRows
  import opened GameBoards
  import opened Game2048

  ghost function Score(s: seq<int>): int
    requires |s| == CELLS + 1
  {
    Total(BoardOf(s, ROW), ROW)
  }

  lemma {:induction false} SumSet(s: Row, i: nat, v: int)
    requires i < |s|
    ensures Sum(s[i := v]) == Sum(s) - Worth(s[i]) + Worth(v)
  {
    if i == 0 {
      assert s[i := v][1..] == s[1..];
    } else {
      assert s[i := v][1..] == s[1..][i - 1 := v];
      SumSet(s[1..], i - 1, v);
    }
  }

  lemma {:induction false} PartSet(a: Board, b: Board, n: nat, r: nat, i: nat)
    requires Square(a, n) && Square(b, n) && r <= n && i < n && forall k :: 0 <= k < n && k != i ==> b[k] == a[k]
    ensures Part(b, r, n) == Part(a, r, n) + if i < r then Sum(b[i]) - Sum(a[i]) else 0
  {
    if r > 0 {
      PartSet(a, b, n, r - 1, i);
      assert a[r - 1][..n] == a[r - 1] && b[r - 1][..n] == b[r - 1];
    }
  }

  lemma CellScore(s: seq<int>, k: nat, v: int)
    requires |s| == CELLS + 1 && k < CELLS
    ensures Score(s[k := v]) == Score(s) - Worth(s[k]) + Worth(v)
  {
    var i, j := k / ROW, k % ROW;
    var a, b := BoardOf(s, ROW), BoardOf(s[k := v], ROW);
    assert i * ROW + j == k;
    CellOf(s, ROW, i, j);
    forall p | 0 <= p < ROW ensures b[p] == if p == i then a[p][j := v] else a[p] {
      forall q | 0 <= q < ROW ensures b[p][q] == if p == i && q == j then v else a[p][q] {
        SetCell(s, ROW, i, j, v, p, q);
      }
    }
    hide BoardOf, Sum, Part;
    PartSet(a, b, ROW, ROW, i);
    SumSet(a[i], j, v);
  }

  lemma FilledScore(s: seq<int>, s': seq<int>, ticks: nat)
    requires Filled(s, s', ticks)
    ensures |s| == CELLS + 1 && |s'| == CELLS + 1 && (Score(s') == Score(s) + 2 || Score(s') == Score(s) + 4)
  {
    hide CountTo, Score, Rand;
    var r := Rand(ticks % 0x1_0000_0000);
    var i: nat :| i < CELLS && s[i] == 1 && CountTo(s, 1, i) == r % CountTo(s, 1, CELLS) && s' == s[i := 2 * (Rand(r) % 2 + 1)];
    CellScore(s, i, 2 * (Rand(r) % 2 + 1));
  }

  lemma TurnedScore(s: seq<int>, key: Dire, s': seq<int>)
    requires Turned(s, key, s')
    ensures |s| == CELLS + 1 && |s'| == CELLS + 1 && Score(s') == Score(s)
  {
    TotalKept(BoardOf(s, ROW), ROW);
    hide Left, Down, Up, Right, Total, BoardOf;
  }

  lemma BlankScore()
    ensures Score(seq(CELLS + 1, _ => 1)) == 0
  {
    var b := BoardOf(seq(CELLS + 1, _ => 1), ROW);
    forall i | 0 <= i < ROW ensures Sum(b[i]) == 0 {
      assert b[i] == Blanks(ROW);
      SumBlanks(ROW);
    }
    hide BoardOf, Sum;
    ZeroRows(b, ROW, ROW);
  }

  lemma {:induction false} ZeroRows(b: Board, n: nat, r: nat)
    requires Square(b, n) && r <= n && forall i :: 0 <= i < n ==> Sum(b[i]) == 0
    ensures Part(b, r, n) == 0
  {
    if r > 0 {
      ZeroRows(b, n, r - 1);
      assert b[r - 1][..n] == b[r - 1];
    }
  }

  lemma OpeningScore(s: seq<int>, ticks: seq<nat>)
    requires Opening(s, ticks)
    ensures |s| == CELLS + 1 && 4 <= Score(s) <= 8
  {
    hide Filled, Score;
    var s1 :| Filled(seq(CELLS + 1, _ => 1), s1, ticks[0]) && Filled(s1, s, ticks[1]);
    BlankScore();
    FilledScore(seq(CELLS + 1, _ => 1), s1, ticks[0]);
    FilledScore(s1, s, ticks[1]);
  }

  lemma NextScore(s: seq<int>, key: Dire, ticks: nat, s': seq<int>)
    requires Next(s, key, ticks, s')
    ensures |s| == CELLS + 1 && |s'| == CELLS + 1 && (Score(s') == Score(s) + 2 || Score(s') == Score(s) + 4)
  {
    hide Filled, Turned, Score, Shows;
    var m :| Turned(s, key, m) && Filled(m, s', ticks);
    TurnedScore(s, key, m);
    FilledScore(m, s', ticks);
  }

  /** The tiles on the board that is drawn after n keys add up to at least 2 and at most 4 for each of the n + 2 tiles
      that badd has put there. */
  lemma {:induction false} DrawnScore(boards: seq<seq<int>>, keys: seq<Dire>, ticks: seq<nat>, n: nat)
    requires Drawn(boards, keys, ticks) && n < |boards|
    ensures |boards[n]| == CELLS + 1 && 2 * (n + 2) <= Score(boards[n]) <= 4 * (n + 2)
  {
    hide Opening, Next, Score;
    if n == 0 {
      OpeningScore(boards[0], ticks);
    } else {
      DrawnScore(boards, keys, ticks, n - 1);
      assert NextAt(boards, keys, ticks, n - 1);
      NextScore(boards[n - 1], keys[n - 1], ticks[n + 1], boards[n]);
    }
  }

  // ---- how long a won game takes ----

  lemma {:induction false} Pow2Positive(k: nat)
    ensures Pow2(k) >= 1
  {
    if k > 0 { Pow2Positive(k - 1); }
  }

  lemma {:induction false} SumOfTiles(s: Row, m: nat)
    requires forall i :: 0 <= i < |s| ==> Tile(s[i], m)
    ensures Sum(s) >= 0 && forall i :: 0 <= i < |s| ==> Sum(s) >= Worth(s[i])
  {
    hide Tile;
    if s != [] {
      TilePositive(s[0], m);
      forall i | 0 <= i < |s[1..]| ensures Tile(s[1..][i], m) { assert s[1..][i] == s[i + 1]; }
      SumOfTiles(s[1..], m);
      forall i | 0 < i < |s| ensures Sum(s) >= Worth(s[i]) { assert s[i] == s[1..][i - 1]; }
    }
  }

  lemma TilePositive(x: int, m: nat)
    requires Tile(x, m)
    ensures Worth(x) >= 0
  {
    var k: nat :| k <= m && x == Pow2(k);
    Pow2Positive(k);
  }

  lemma {:induction false} PartOfTiles(b: Board, n: nat, r: nat, m: nat)
    requires Square(b, n) && r <= n && forall i :: 0 <= i < n ==> Tiles(b[i], m)
    ensures Part(b, r, n) >= 0 && forall i :: 0 <= i < r ==> Part(b, r, n) >= Sum(b[i])
  {
    if r > 0 {
      PartOfTiles(b, n, r - 1, m);
      assert b[r - 1][..n] == b[r - 1];
      hide Tile;
      assert Tiles(b[r - 1], m);
      SumOfTiles(b[r - 1], m);
    }
  }

  lemma CellBelowScore(s: seq<int>, k: nat, m: nat)
    requires CellsOk(s, m) && k < CELLS
    ensures Worth(s[k]) <= Score(s)
  {
    CellsBoard(s, m);
    var b := BoardOf(s, ROW);
    var i, j := k / ROW, k % ROW;
    assert i * ROW + j == k;
    CellOf(s, ROW, i, j);
    hide BoardOf, CellsOk, Tile, Sum, Part;
    assert forall p :: 0 <= p < ROW ==> Tiles(b[p], m);
    PartOfTiles(b, ROW, ROW, m);
    assert Tiles(b[i], m);
    SumOfTiles(b[i], m);
  }

  /** Nobody wins before 511 boards have been drawn. */
  lemma WonLate(boards: seq<seq<int>>, keys: seq<Dire>, ticks: seq<nat>, n: nat)
    requires Drawn(boards, keys, ticks) && n < |boards| && CellsOk(boards[n], 11) && Shows(boards[n], 2048)
    ensures n + 1 >= 511
  {
    DrawnScore(boards, keys, ticks, n);
    hide Drawn, CellsOk, Score;
    var k :| 0 <= k < CELLS && boards[n][k] == 2048;
    CellBelowScore(boards[n], k, 11);
  }
}
