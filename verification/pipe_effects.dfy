/** What each call leaves in the descriptors of the processes and in the entries of file_table. */
module DescriptorEffects {
  import opened Basics
  import opened PipeRefs
  import opened PipeTable

  /** Of the processes only the row of `t` differs. */
  ghost predicate OnlyRow(F: Files, F': Files, t: Tid) {
    && F'.live == F.live && F'.tables.Keys == F.tables.Keys && (forall u :: u in F.tables && u != t ==> F'.tables[u] == F.tables[u])
  }

  ghost predicate OnlySlot(F: Files, F': Files, g: nat) {
    |F'.slots| == |F.slots| && forall h :: 0 <= h < |F.slots| && h != g ==> F'.slots[h] == F.slots[h]
  }

  /** Only the descriptors in `changed` of a row differ. */
  ghost predicate OnlyFds(row: Row, row': Row, changed: set<int>) {
    |row'| == |row| && forall i :: 0 <= i < |row| && i !in changed ==> row'[i] == row[i]
  }

  /** After a redirection descriptor `to` refers to the entry that `from` referred to, or to the standard entry `from`;
      every other descriptor, process and entry is as it was. */
  ghost predicate Redirected(F: Files, t: Tid, to: nat, from: nat, F': Files)
    requires t in F.tables && to < |F.tables[t]| && from < |F.tables[t]|
  {
    && OnlyRow(F, F', t) && F'.slots == F.slots && OnlyFds(F.tables[t], F'.tables[t], {to})
    && (from >= 3 ==> F'.tables[t][to] == F.tables[t][from])
    && (from < 3 ==> F'.tables[t][to] == from)
  }

  lemma RedirectLeaves(F: Files, t: Tid, to: nat, from: nat)
    requires t in F.tables && to < |F.tables[t]| && from < |F.tables[t]|
    ensures Redirected(F, t, to, from, Redirect(F, t, to, from))
  {
  }

  /** A shell's way to connect a command: a standard descriptor is redirected to an end of a pipe and later to itself.
      In between the counts are right, afterwards everything is as it was. */
  lemma RedirectUndone(F: Files, t: Tid, to: nat, from: nat)
    requires Inv(F) && t in F.live && t in F.tables && to < 3 <= from < |F.tables[t]| && to < |F.tables[t]| && F.tables[t][to] == to
    ensures var F' := Redirect(F, t, to, from);
            && Inv(F') && to < |F'.tables[t]| && Redirect(F', t, to, to) == F
            && (forall g :: RefCount(F'.tables, F.live, g) == RefCount(F.tables, F.live, g))
  {
    RedirectExactly(F, t, to, from);
    var F' := Redirect(F, t, to, from);
    forall g: int ensures RefCount(F'.tables, F.live, g) == RefCount(F.tables, F.live, g) {
      StandardCount(F, t, to, F.tables[t][from], g);
    }
    hide Inv;
    var row := F.tables[t];
    assert row[to := row[from]][to := to] == row;
    assert F.tables[t := row[to := row[from]]][t := row] == F.tables;
  }

  /** Closing a descriptor closes that one alone; a pipe's entry goes down by one and is given up with the last one, a
      file's entry is given up at once. */
  lemma CloseLeaves(F: Files, t: Tid, i: nat)
    requires Inv(F) && Holds(F, t, i) && F.tables[t][i] != -1
    ensures var g := F.tables[t][i]; var F' := CloseFd(F, t, i);
            && OnlyRow(F, F', t) && OnlyFds(F.tables[t], F'.tables[t], {i}) && F'.tables[t][i] == -1
            && 3 <= g < |F.slots| && OnlySlot(F, F', g) && F'.slots[g].pipe == F.slots[g].pipe
            && (F.slots[g].pipe && F.slots[g].pos > 1 ==> F'.slots[g] == Slot(true, true, F.slots[g].pos - 1))
            && (F.slots[g].pipe && F.slots[g].pos == 1 ==> F'.slots[g] == Slot(true, false, 0))
            && (!F.slots[g].pipe ==> !F'.slots[g].used)
            && (F.slots[g].pipe ==> F.slots[g].pos >= 1)
  {
    FdFacts(F, t, i);
    UsedCounts(F, t, i);
    hide Inv, RefCount;
  }

  /** sys_pipe: the reading end is the first closed descriptor, the writing end the next one, and both refer to the new
      entry, whose count says two. */
  lemma PipedLeaves(F: Files, t: Tid, g: nat, i: nat, j: nat)
    requires t in F.tables && 3 <= g < |F.slots| && 3 <= i < j < |F.tables[t]|
    requires forall k :: 3 <= k <= j ==> (F.tables[t][k] == -1 <==> k == i || k == j)
    ensures FirstOf(F, t) == i && SecondOf(F, t, g) == j
    ensures var F' := Piped(F, t, g);
            && OnlyRow(F, F', t) && OnlyFds(F.tables[t], F'.tables[t], {i, j}) && F'.tables[t][i] == g && F'.tables[t][j] == g
            && OnlySlot(F, F', g) && F'.slots[g] == Slot(true, true, 2)
  {
    var row := F.tables[t];
    assert row[i] == -1 && row[j] == -1;
    FirstFreeFacts(row);
    assert FirstFree(row) == i;
    var row1 := row[i := g];
    assert row1[j] == -1 && forall k :: 3 <= k < j ==> row1[k] != -1 by {
      forall k | 3 <= k < j ensures row1[k] != -1 { assert row[k] == -1 <==> k == i || k == j; }
    }
    FirstFreeFacts(row1);
    assert FirstFree(row1) == j;
  }

  // ---- fork and exit ----

  lemma {:induction false} CountAppend(row: Row, i: nat, v: int, g: int)
    requires i <= |row|
    ensures CountFrom(row + [v], i, g) == CountFrom(row, i, g) + if v == g then 1 else 0
    decreases |row| - i
  {
    if i < |row| {
      CountAppend(row, i + 1, v, g);
    } else {
      assert CountFrom(row + [v], i + 1, g) == 0;
    }
  }

  lemma {:induction false} RaisedPos(slots: seq<Slot>, row: Row, n: nat, g: nat)
    requires 3 <= n <= |row| && g < |slots|
    ensures |Raised(slots, row, n)| == |slots|
    ensures Raised(slots, row, n)[g] == if slots[g].pipe then slots[g].(pos := slots[g].pos + RowCount(row[..n], g)) else slots[g]
  {
    RaisedFlags(slots, row, n);
    if n > 3 {
      RaisedPos(slots, row, n - 1, g);
      RaisedFlags(slots, row, n - 1);
      CountAppend(row[..n - 1], 3, row[n - 1], g);
      assert row[..n] == row[..n - 1] + [row[n - 1]];
      hide CountFrom;
    } else {
      CountZero(row[..3], 3, g);
    }
  }

  /** fork: the child has the parent's descriptors, the standard ones included, and every pipe's count rises by the number
      of descriptors that refer to it; files, other processes and the parent stay as they are. */
  lemma ForkLeaves(F: Files, t: Tid, c: Tid)
    requires Inv(F) && t in F.live && t in F.tables && c !in F.live
    ensures var F' := ForkTo(F, t, c, MAX_FILES_OPEN_PER_PROC);
            && F'.live == F.live + [c] && c in F'.tables && F'.tables[c] == F.tables[t]
            && (forall u :: u in F.live ==> u in F.tables && u in F'.tables && F'.tables[u] == F.tables[u])
            && |F'.slots| == |F.slots|
            && (forall g :: 0 <= g < |F.slots| ==>
                  F'.slots[g] == if F.slots[g].pipe then F.slots[g].(pos := F.slots[g].pos + RowCount(F.tables[t], g)) else F.slots[g])
  {
    RowIs(F, t);
    var row := F.tables[t];
    forall u | u in F.live ensures u in F.tables { RowIs(F, u); }
    hide Inv, RowCount;
    assert row[..MAX_FILES_OPEN_PER_PROC] + seq(0, _ => -1) == row;
    assert row[..MAX_FILES_OPEN_PER_PROC] == row;
    RaisedFlags(F.slots, row, MAX_FILES_OPEN_PER_PROC);
    forall g | 0 <= g < |F.slots|
      ensures Raised(F.slots, row, MAX_FILES_OPEN_PER_PROC)[g]
              == if F.slots[g].pipe then F.slots[g].(pos := F.slots[g].pos + RowCount(row, g)) else F.slots[g]
    {
      RaisedPos(F.slots, row, MAX_FILES_OPEN_PER_PROC, g);
    }
  }

  /** The descriptors from 3 up to `n` are closed and the others are as they were. */
  ghost predicate ClosedBelow(row: Row, row': Row, n: nat) {
    |row'| == |row| && forall i :: 0 <= i < |row| ==> row'[i] == if 3 <= i < n then -1 else row[i]
  }

  ghost predicate NotIn(row: Row, g: int) {
    forall i :: 3 <= i < |row| ==> row[i] != g
  }

  lemma {:induction false} ClosedToRows(F: Files, t: Tid, n: nat)
    requires Inv(F) && t in F.live && t in F.tables && 3 <= n <= |F.tables[t]|
    ensures var F' := ClosedTo(F, t, n);
            && Inv(F') && OnlyRow(F, F', t) && ClosedBelow(F.tables[t], F'.tables[t], n) && |F'.slots| == |F.slots|
            && (forall g :: 0 <= g < |F.slots| && NotIn(F.tables[t], g) ==> F'.slots[g] == F.slots[g])
  {
    if n > 3 {
      ClosedToRows(F, t, n - 1);
      var G := ClosedTo(F, t, n - 1);
      assert G.tables[t][n - 1] == F.tables[t][n - 1];
      hide Inv, ClosedTo;
      if G.tables[t][n - 1] != -1 {
        assert Holds(G, t, n - 1);
        CloseKeeps(G, t, n - 1);
        CloseLeaves(G, t, n - 1);
      }
    }
  }

  /** exit: the process has no descriptor left but the standard ones and is no more among the live ones; the descriptors
      of the others and the entries that it did not refer to stay as they are. */
  lemma ReleaseLeaves(F: Files, t: Tid)
    requires Inv(F) && t in F.live && t in F.tables
    ensures var F' := DropProc(ClosedTo(F, t, MAX_FILES_OPEN_PER_PROC), t);
            && F'.live == Without(F.live, t) && F'.tables.Keys == F.tables.Keys
            && (forall u :: u in F.tables && u != t ==> F'.tables[u] == F.tables[u])
            && ClosedBelow(F.tables[t], F'.tables[t], MAX_FILES_OPEN_PER_PROC)
            && (forall g :: 0 <= g < |F.slots| && NotIn(F.tables[t], g) ==> g < |F'.slots| && F'.slots[g] == F.slots[g])
            && (forall g :: 3 <= g < |F'.slots| && F'.slots[g].used && F'.slots[g].pipe ==>
                  F'.slots[g].pos == RefCount(F'.tables, F'.live, g) > 0)
  {
    RowIs(F, t);
    ClosedToRows(F, t, MAX_FILES_OPEN_PER_PROC);
    var G := ClosedTo(F, t, MAX_FILES_OPEN_PER_PROC);
    DropProcKeeps(G, t);
    var F' := DropProc(G, t);
    forall g | 3 <= g < |F'.slots| && F'.slots[g].used && F'.slots[g].pipe ensures F'.slots[g].pos == RefCount(F'.tables, F'.live, g) > 0 {
      assert SlotOk(F', g);
    }
    hide Inv, ClosedTo, RefCount;
  }
}
