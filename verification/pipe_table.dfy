/** The calls that open, share, redirect and close descriptors, on file_table and the processes' fd_tables. */
module PipeTable {
  import opened Basics
  import opened PipeRefs

  /** sys_pipe: the two descriptors, no page for the ring, or no free entry of file_table (the source then
      writes to entry -1). */
  datatype PipeResult = Ends(reader: int, writer: int) | NoPage | OutOfTable

  class FileTables {
    const fileTable: array<Slot>
    var tables: map<Tid, Row>
    var live: seq<Tid>

    ghost function State(): Files
      reads `tables, `live, fileTable
    {
      Files(fileTable[..], tables, live)
    }

    constructor ()
      ensures live == [] && Inv(State())
    {
      fileTable := new Slot[MAX_FILES_OPEN](_ => Slot(false, false, 0));
      tables := map[];
      live := [];
    }

    /** get_free_slot_in_global */
    method GetFreeSlotInGlobal() returns (g: int)
      requires fileTable.Length == MAX_FILES_OPEN
      ensures g == -1 <==> forall k :: 3 <= k < MAX_FILES_OPEN ==> fileTable[k].used
      ensures g != -1 ==> 3 <= g < MAX_FILES_OPEN && !fileTable[g].used && forall k :: 3 <= k < g ==> fileTable[k].used
    {
      for i := 3 to MAX_FILES_OPEN
        invariant forall k :: 3 <= k < i ==> fileTable[k].used
      {
        if !fileTable[i].used {
          return i;
        }
      }
      return -1;
    }

    /** pcb_fd_install */
    method PcbFdInstall(t: Tid, g: int) returns (i: int)
      requires t in tables && |tables[t]| == MAX_FILES_OPEN_PER_PROC
      modifies `tables
      ensures i == FirstFree(old(tables[t]))
      ensures tables == if i == -1 then old(tables) else old(tables)[t := old(tables[t])[i := g]]
    {
      i := 3;
      FirstFreeFacts(tables[t]);
      while i != MAX_FILES_OPEN_PER_PROC
        invariant 3 <= i <= MAX_FILES_OPEN_PER_PROC && tables == old(tables)
        invariant forall k :: 3 <= k < i ==> tables[t][k] != -1
      {
        if tables[t][i] == -1 {
          tables := tables[t := tables[t][i := g]];
          return;
        }
        i := i + 1;
      }
      i := -1;
    }

    /** sys_pipe */
    method SysPipe(t: Tid, pageOk: bool, ghost F: Files) returns (r: PipeResult)
      requires F == State() && Inv(F) && t in live
      modifies fileTable, `tables
      ensures t in F.tables && |F.tables[t]| == MAX_FILES_OPEN_PER_PROC
      ensures r.Ends? ==> pageOk && exists g: nat :: FirstUnused(F.slots, g) && IsPiped(F, t, g) && r.reader == FirstOf(F, t) && r.writer == SecondOf(F, t, g)
      ensures r.NoPage? ==> !pageOk && State() == F
      ensures r.OutOfTable? <==> forall g :: 3 <= g < MAX_FILES_OPEN ==> F.slots[g].used
      ensures r.OutOfTable? ==> State() == F
    {
      RowIs(F, t);
      hide Inv, FirstFree;
      var g := GetFreeSlotInGlobal();
      if g == -1 { return OutOfTable; }
      if !pageOk { return NoPage; }
      var i := PcbFdInstall(t, g);
      var j := PcbFdInstall(t, g);
      fileTable[g] := Slot(true, true, 2);
      assert fileTable[..] == F.slots[g := Slot(true, true, 2)];
      assert FirstUnused(F.slots, g) && IsPiped(F, t, g);
      r := Ends(i, j);
    }

    ghost predicate IsPiped(F: Files, t: Tid, g: nat)
      reads `tables, `live, fileTable
    {
      t in F.tables && FirstUnused(F.slots, g) && State() == Piped(F, t, g)
    }

    /** sys_close of an open descriptor. */
    method SysClose(t: Tid, fd: nat, ghost F: Files) returns (ret: int)
      requires F == State() && Inv(F) && Holds(F, t, fd) && F.tables[t][fd] != -1
      modifies fileTable, `tables
      ensures State() == CloseFd(F, t, fd) && Inv(State())
      ensures var g := F.tables[t][fd];
              3 <= g < fileTable.Length && (ret == 0 <==> !fileTable[g].used) && (ret == 0 || ret == -1)
              && (!fileTable[g].used <==> RefCount(tables, live, g) == 0)
    {
      CloseKeeps(F, t, fd);
      UsedCounts(F, t, fd);
      hide Inv, RefCount, RowCount;
      ret := -1;
      var g := tables[t][fd];
      var slot := fileTable[g];
      if slot.pipe {
        slot := slot.(pos := slot.pos - 1);
        if slot.pos == 0 {
          slot := slot.(used := false);
          ret := 0;
        }
      } else {
        slot := slot.(used := false);
        ret := 0;
      }
      fileTable[g] := slot;
      tables := tables[t := tables[t][fd := -1]];
      assert fileTable[..] == F.slots[g := Closed(F.slots[g])];
    }

    /** sys_fd_redirect */
    method SysFdRedirect(t: Tid, to: nat, from: nat, ghost F: Files)
      requires F == State() && t in tables && to < |tables[t]| && from < |tables[t]|
      modifies `tables
      ensures State() == Redirect(F, t, to, from)
      ensures t in tables && |tables[t]| == |F.tables[t]| && tables.Keys == F.tables.Keys && live == F.live && fileTable[..] == F.slots
      ensures from < 3 ==> tables[t][to] == from
      ensures from >= 3 ==> tables[t][to] == F.tables[t][from]
      ensures forall i :: 0 <= i < |tables[t]| && i != to ==> tables[t][i] == F.tables[t][i]
      ensures forall u :: u in tables && u != t ==> tables[u] == F.tables[u]
    {
      if from < 3 {
        tables := tables[t := tables[t][to := from]];
      } else {
        tables := tables[t := tables[t][to := tables[t][from]]];
      }
    }

    /** The part of sys_fork that concerns descriptors: the copied row and update_inode_open_cnts. */
    method SysFork(t: Tid, c: Tid, ghost F: Files)
      requires F == State() && Inv(F) && t in live && c !in live
      modifies fileTable, `tables, `live
      ensures State() == ForkTo(F, t, c, MAX_FILES_OPEN_PER_PROC)
    {
      RowIs(F, t);
      RowRange(F, t);
      hide Inv;
      var row := tables[t];
      tables := tables[c := row];
      live := live + [c];
      var i := 3;
      while i != MAX_FILES_OPEN_PER_PROC
        invariant 3 <= i <= MAX_FILES_OPEN_PER_PROC && tables == F.tables[c := row] && live == F.live + [c]
        invariant fileTable[..] == Raised(F.slots, row, i)
      {
        var g := tables[c][i];
        assert g < MAX_FILES_OPEN;
        RaisedFlags(F.slots, row, i);
        if g != -1 && fileTable[g].pipe {
          fileTable[g] := fileTable[g].(pos := fileTable[g].pos + 1);
        }
        i := i + 1;
      }
      assert row[..MAX_FILES_OPEN_PER_PROC] + seq(0, _ => -1) == row;
    }

    /** release_prog_resource: every descriptor from 3 on is closed, then the process is HANGING. */
    method ReleaseAll(t: Tid, ghost F: Files)
      requires F == State() && Inv(F) && t in live
      modifies fileTable, `tables, `live
      ensures State() == DropProc(ClosedTo(F, t, MAX_FILES_OPEN_PER_PROC), t) && Inv(State())
    {
      RowIs(F, t);
      var fd: nat := 3;
      hide Inv, RefCount, CloseFd, Holds;
      while fd != MAX_FILES_OPEN_PER_PROC
        invariant 3 <= fd <= MAX_FILES_OPEN_PER_PROC && Inv(State()) && live == F.live
        invariant t in tables && |tables[t]| == MAX_FILES_OPEN_PER_PROC && forall i :: 3 <= i < fd ==> tables[t][i] == -1
        invariant State() == ClosedTo(F, t, fd)
      {
        CloseOne(t, fd, State());
        fd := fd + 1;
      }
      DropProcKeeps(State(), t);
      live := Without(live, t);
    }

    /** One turn of that loop. */
    method CloseOne(t: Tid, fd: nat, ghost G: Files)
      requires G == State() && Inv(G) && t in live && t in tables && 3 <= fd < |tables[t]|
      modifies fileTable, `tables
      ensures State() == CloseIf(G, t, fd) && Inv(State())
      ensures t in tables && tables == G.tables[t := G.tables[t][fd := -1]]
    {
      hide Inv, RefCount;
      if tables[t][fd] != -1 {
        var _ := SysClose(t, fd, G);
      } else {
        assert G.tables[t][fd := -1] == G.tables[t];
        assert G.tables == G.tables[t := G.tables[t]];
      }
    }

    /** sys_open as far as the tables go: the first unused entry and the first closed descriptor; without a
        descriptor the entry stays taken. */
    method OpenFile(t: Tid, ghost F: Files) returns (fd: int)
      requires F == State() && Inv(F) && t in live
      modifies fileTable, `tables
      ensures Inv(State()) && live == F.live && t in F.tables
      ensures (forall k :: 3 <= k < MAX_FILES_OPEN ==> F.slots[k].used) ==> fd == -1 && State() == F
      ensures (exists k :: 3 <= k < MAX_FILES_OPEN && !F.slots[k].used) ==>
                fd == FirstFree(F.tables[t]) && exists g: nat :: FirstUnused(F.slots, g) && IsOpened(F, t, fd, g)
    {
      RowIs(F, t);
      fd := GetFreeSlotInGlobal();
      if fd == -1 { return; }
      var g := fd;
      FirstFreeFacts(F.tables[t]);
      LeakKeeps(F, g);
      if FirstFree(F.tables[t]) != -1 { NewFileKeeps(F, t, FirstFree(F.tables[t]), g); }
      hide Inv, FirstFree;
      fileTable[g] := Slot(false, true, 0);
      fd := PcbFdInstall(t, g);
      assert fileTable[..] == F.slots[g := Slot(false, true, 0)];
      assert FirstUnused(F.slots, g) && IsOpened(F, t, fd, g);
    }

    ghost predicate IsOpened(F: Files, t: Tid, fd: int, g: nat)
      reads `tables, `live, fileTable
    {
      && g < |F.slots|
      && if fd == -1 then State() == F.(slots := F.slots[g := Slot(false, true, 0)])
         else fd >= 0 && Holds(F, t, fd) && State() == NewFile(F, t, fd, g)
    }
  }

  /** What get_free_slot_in_global finds. */
  ghost predicate FirstUnused(slots: seq<Slot>, g: nat) {
    3 <= g < |slots| && !slots[g].used && forall k :: 3 <= k < g ==> slots[k].used
  }

  ghost function CloseIf(F: Files, t: Tid, i: nat): Files {
    if Holds(F, t, i) && F.tables[t][i] != -1 then CloseFd(F, t, i) else F
  }

  /** The descriptors from 3 up to `n` closed one after the other. */
  ghost function ClosedTo(F: Files, t: Tid, n: nat): Files {
    if n <= 3 then F else CloseIf(ClosedTo(F, t, n - 1), t, n - 1)
  }

  ghost function FirstOf(F: Files, t: Tid): int
    requires t in F.tables
  {
    FirstFree(F.tables[t])
  }

  function Install(row: Row, g: int): Row {
    FirstFreeFacts(row);
    var i := FirstFree(row);
    if i == -1 then row else row[i := g]
  }

  ghost function SecondOf(F: Files, t: Tid, g: int): int
    requires t in F.tables
  {
    FirstFree(Install(F.tables[t], g))
  }

  /** What sys_pipe leaves behind with entry `g`. */
  ghost function Piped(F: Files, t: Tid, g: nat): Files
    requires t in F.tables && g < |F.slots|
  {
    F.(tables := F.tables[t := Install(Install(F.tables[t], g), g)], slots := F.slots[g := Slot(true, true, 2)])
  }

  /** The count of 2 that sys_pipe stores is right iff the process had two closed descriptors. */
  lemma PipedExactly(F: Files, t: Tid, g: nat)
    requires Inv(F) && t in F.live && t in F.tables && 3 <= g < |F.slots| && !F.slots[g].used
    ensures Inv(Piped(F, t, g)) <==> FirstOf(F, t) != -1 && SecondOf(F, t, g) != -1
  {
    RowIs(F, t);
    var row := F.tables[t];
    FirstFreeFacts(row);
    var i := FirstOf(F, t);
    var row1 := Install(row, g);
    FirstFreeFacts(row1);
    var j := SecondOf(F, t, g);
    if i != -1 && j != -1 {
      NewPipeKeeps(F, t, i, j, g);
      assert Piped(F, t, g) == NewPipe(F, t, i, j, g);
    } else {
      UnusedUnreferenced(F, g);
      FewInstalled(row, g);
      RefUpdate(F.tables, F.live, t, Install(row1, g), g);
      RefSum(F, t, g);
      assert !SlotOk(Piped(F, t, g), g);
    }
  }

  lemma RefSum(F: Files, t: Tid, g: nat)
    requires RowsOk(F) && t in F.live && t in F.tables && RefCount(F.tables, F.live, g) == 0
    ensures RowCount(F.tables[t], g) == 0
  {
    RowZero(F.tables, F.live, t, g);
  }

  lemma {:induction false} RowZero(tables: map<Tid, Row>, live: seq<Tid>, t: Tid, g: int)
    requires t in live && t in tables && RefCount(tables, live, g) == 0
    ensures RowCount(tables[t], g) == 0
  {
    hide RowCount;
    if live[0] != t { RowZero(tables, live[1..], t, g); }
  }

  lemma FewInstalled(row: Row, g: int)
    requires |row| == MAX_FILES_OPEN_PER_PROC && g >= 3
    requires FirstFree(row) == -1 || FirstFree(Install(row, g)) == -1
    ensures RowCount(Install(Install(row, g), g), g) <= RowCount(row, g) + 1
  {
    FirstFreeFacts(row);
    if FirstFree(row) != -1 {
      CountUpdate(row, 3, FirstFree(row), g, g);
    }
  }

  lemma UsedCounts(F: Files, t: Tid, i: nat)
    requires Inv(F) && Holds(F, t, i) && F.tables[t][i] != -1
    ensures var g := F.tables[t][i]; 3 <= g < |F.slots| && F.slots[g].used && (F.slots[g].pipe ==> F.slots[g].pos > 0)
  {
    FdFacts(F, t, i);
    var g := F.tables[t][i];
    assert SlotOk(F, g);
  }

  lemma RowRange(F: Files, t: Tid)
    requires Inv(F) && t in F.live
    ensures t in F.tables && forall i :: 3 <= i < |F.tables[t]| ==> F.tables[t][i] == -1 || 3 <= F.tables[t][i] < |F.slots|
  {
    assert RowOk(F.slots, F.tables[t]);
    var row := F.tables[t];
    forall i | 3 <= i < |row| ensures row[i] == -1 || 3 <= row[i] < |F.slots| { assert FdOk(F.slots, row[i]); }
  }

  /** An entry of file_table taken by an open that finds no descriptor is not referred to. */
  lemma LeakKeeps(F: Files, g: nat)
    requires Inv(F) && 3 <= g < |F.slots| && !F.slots[g].used
    ensures Inv(F.(slots := F.slots[g := Slot(false, true, 0)]))
  {
    var F' := F.(slots := F.slots[g := Slot(false, true, 0)]);
    UnusedUnreferenced(F, g);
    RowsKeep(F, F', g);
    hide RowsOk, RefCount;
    forall x: nat | 3 <= x < MAX_FILES_OPEN ensures SlotOk(F', x) {
      assert SlotOk(F, x);
    }
  }

  function FirstFreeFrom(row: Row, i: nat): (f: int)
    ensures f == -1 || i <= f < |row|
    decreases |row| - i
  {
    if i >= |row| then -1 else if row[i] == -1 then i else FirstFreeFrom(row, i + 1)
  }

  /** The first closed descriptor from 3 on, or -1. */
  function FirstFree(row: Row): (f: int)
    ensures f == -1 || 3 <= f < |row|
  {
    FirstFreeFrom(row, 3)
  }

  lemma {:induction false} FreeFromFacts(row: Row, i: nat)
    ensures var f := FirstFreeFrom(row, i);
            if f == -1 then forall k :: i <= k < |row| ==> row[k] != -1
            else i <= f < |row| && row[f] == -1 && forall k :: i <= k < f ==> row[k] != -1
    decreases |row| - i
  {
    if i < |row| { FreeFromFacts(row, i + 1); }
  }

  lemma FirstFreeFacts(row: Row)
    ensures var f := FirstFree(row);
            if f == -1 then forall k :: 3 <= k < |row| ==> row[k] != -1
            else 3 <= f < |row| && row[f] == -1 && forall k :: 3 <= k < f ==> row[k] != -1
  {
    FreeFromFacts(row, 3);
  }

  lemma RowIs(F: Files, t: Tid)
    requires Inv(F) && t in F.live
    ensures t in F.tables && |F.tables[t]| == MAX_FILES_OPEN_PER_PROC
  {
    assert RowOk(F.slots, F.tables[t]);
  }
}
