/** Who refers to a pipe: file_table, the descriptor tables of the processes, and the count kept in fd_pos
    (pipe/pipe.c, fs/file.c, fs/fs.c, userprog/fork.c, userprog/wait_exit.c). */
module PipeRefs {
  import opened Basics

  type Tid = nat

  const MAX_FILES_OPEN := 32
  const MAX_FILES_OPEN_PER_PROC := 8

  /** An entry of file_table: the flag says pipe, fd_inode is not NULL, fd_pos. */
  datatype Slot = Slot(pipe: bool, used: bool, pos: nat)

  /** fd_table of a process; the first three descriptors are the standard ones. */
  type Row = seq<int>

  ghost function CountFrom(row: Row, i: nat, g: int): nat
    decreases |row| - i
  {
    if i >= |row| then 0 else (if row[i] == g then 1 else 0) + CountFrom(row, i + 1, g)
  }

  /** How many of the descriptors from 3 on refer to entry `g`. */
  ghost function RowCount(row: Row, g: int): nat { CountFrom(row, 3, g) }

  ghost function RefCount(tables: map<Tid, Row>, live: seq<Tid>, g: int): nat {
    if live == [] then 0
    else (if live[0] in tables then RowCount(tables[live[0]], g) else 0) + RefCount(tables, live[1..], g)
  }

  /** `live` are the processes that are not HANGING. */
  datatype Files = Files(slots: seq<Slot>, tables: map<Tid, Row>, live: seq<Tid>)

  ghost predicate FdOk(slots: seq<Slot>, g: int) {
    g == -1 || (3 <= g < |slots| && slots[g].used)
  }

  ghost predicate RowOk(slots: seq<Slot>, row: Row) {
    |row| == MAX_FILES_OPEN_PER_PROC && forall i :: 3 <= i < |row| ==> FdOk(slots, row[i])
  }

  ghost predicate RowsOk(F: Files) {
    NoDup(F.live) && forall t :: t in F.live ==> t in F.tables && RowOk(F.slots, F.tables[t])
  }

  /** A pipe's fd_pos is the number of descriptors that refer to it, and is not 0 while the pipe exists; a
      regular file has at most one descriptor. */
  ghost predicate SlotOk(F: Files, g: nat)
    requires g < |F.slots|
  {
    F.slots[g].used ==>
      if F.slots[g].pipe then F.slots[g].pos == RefCount(F.tables, F.live, g) && F.slots[g].pos > 0
      else RefCount(F.tables, F.live, g) <= 1
  }

  ghost predicate Inv(F: Files) {
    |F.slots| == MAX_FILES_OPEN && RowsOk(F) && forall g: nat :: 3 <= g < MAX_FILES_OPEN ==> SlotOk(F, g)
  }

  // ---- counting ----

  lemma {:induction false} CountUpdate(row: Row, i: nat, k: nat, v: int, g: int)
    requires k < |row| && i <= |row|
    ensures CountFrom(row[k := v], i, g) + (if i <= k && row[k] == g then 1 else 0)
            == CountFrom(row, i, g) + (if i <= k && v == g then 1 else 0)
    decreases |row| - i
  {
    if i < |row| { CountUpdate(row, i + 1, k, v, g); }
  }

  lemma {:induction false} CountZero(row: Row, i: nat, g: int)
    requires i <= |row| && forall k :: i <= k < |row| ==> row[k] != g
    ensures CountFrom(row, i, g) == 0
    decreases |row| - i
  {
    if i < |row| { CountZero(row, i + 1, g); }
  }

  lemma {:induction false} CountSome(row: Row, i: nat, k: nat, g: int)
    requires i <= k < |row| && row[k] == g
    ensures CountFrom(row, i, g) > 0
    decreases |row| - i
  {
    if i < k { CountSome(row, i + 1, k, g); }
  }

  lemma {:induction false} RefElsewhere(tables: map<Tid, Row>, live: seq<Tid>, t: Tid, row: Row, g: int)
    requires t !in live
    ensures RefCount(tables[t := row], live, g) == RefCount(tables, live, g)
  {
    if live != [] { RefElsewhere(tables, live[1..], t, row, g); }
  }

  /** Changing one process's row changes the count by the change of that row. */
  lemma {:induction false} RefUpdate(tables: map<Tid, Row>, live: seq<Tid>, t: Tid, row: Row, g: int)
    requires NoDup(live) && t in live && t in tables
    ensures RefCount(tables[t := row], live, g) + RowCount(tables[t], g) == RefCount(tables, live, g) + RowCount(row, g)
  {
    PopFacts(live);
    hide NoDup, RowCount;
    if live[0] == t {
      RefElsewhere(tables, live[1..], t, row, g);
    } else {
      RefUpdate(tables, live[1..], t, row, g);
    }
  }

  lemma {:induction false} RefAppend(tables: map<Tid, Row>, live: seq<Tid>, t: Tid, g: int)
    requires t in tables
    ensures RefCount(tables, live + [t], g) == RefCount(tables, live, g) + RowCount(tables[t], g)
  {
    hide RowCount;
    if live == [] {
      assert [t][1..] == [];
      assert RefCount(tables, [t][1..], g) == 0;
      assert live + [t] == [t];
    } else {
      assert (live + [t])[1..] == live[1..] + [t];
      RefAppend(tables, live[1..], t, g);
    }
  }

  lemma {:induction false} RefWithout(tables: map<Tid, Row>, live: seq<Tid>, t: Tid, g: int)
    requires t in tables && RowCount(tables[t], g) == 0
    ensures RefCount(tables, Without(live, t), g) == RefCount(tables, live, g)
  {
    hide RowCount;
    if live != [] {
      RefWithout(tables, live[1..], t, g);
      if live[0] == t {
        assert Without(live, t) == Without(live[1..], t);
      } else {
        assert Without(live, t) == [live[0]] + Without(live[1..], t);
        assert Without(live, t)[1..] == Without(live[1..], t);
      }
    }
  }

  lemma {:induction false} RefPositive(tables: map<Tid, Row>, live: seq<Tid>, t: Tid, i: nat, g: int)
    requires t in live && t in tables && 3 <= i < |tables[t]| && tables[t][i] == g
    ensures RefCount(tables, live, g) >= RowCount(tables[t], g) > 0
  {
    CountSome(tables[t], 3, i, g);
    hide CountFrom;
    if live[0] != t { RefPositive(tables, live[1..], t, i, g); }
  }

  // ---- one descriptor at a time ----

  ghost predicate Holds(F: Files, t: Tid, i: nat) {
    t in F.live && t in F.tables && 3 <= i < |F.tables[t]|
  }

  ghost function SetFd(F: Files, t: Tid, i: nat, g: int): Files
    requires t in F.tables && i < |F.tables[t]|
  {
    F.(tables := F.tables[t := F.tables[t][i := g]])
  }

  /** What closing one descriptor does to its entry of file_table. */
  function Closed(s: Slot): Slot {
    if s.pipe then (if s.pos <= 1 then Slot(true, false, 0) else s.(pos := s.pos - 1)) else s.(used := false)
  }

  ghost function CloseFd(F: Files, t: Tid, i: nat): Files
    requires Holds(F, t, i)
  {
    var g := F.tables[t][i];
    SetFd(F, t, i, -1).(slots := if 0 <= g < |F.slots| then F.slots[g := Closed(F.slots[g])] else F.slots)
  }

  lemma SetFdCount(F: Files, t: Tid, i: nat, g: int, x: int)
    requires RowsOk(F) && Holds(F, t, i)
    ensures RefCount(SetFd(F, t, i, g).tables, F.live, x) + (if F.tables[t][i] == x then 1 else 0)
            == RefCount(F.tables, F.live, x) + (if g == x then 1 else 0)
  {
    CountUpdate(F.tables[t], 3, i, g, x);
    RefUpdate(F.tables, F.live, t, F.tables[t][i := g], x);
  }

  /** A descriptor of a live process refers to a used entry. */
  lemma FdFacts(F: Files, t: Tid, i: nat)
    requires Inv(F) && Holds(F, t, i)
    ensures var g := F.tables[t][i]; FdOk(F.slots, g) && (g != -1 ==> RefCount(F.tables, F.live, g) > 0)
  {
    assert RowOk(F.slots, F.tables[t]);
    if F.tables[t][i] != -1 { RefPositive(F.tables, F.live, t, i, F.tables[t][i]); }
  }

  /** Rows stay valid when only entry `g` of file_table changes and nobody refers to it if it is now unused. */
  lemma RowsKeep(F: Files, F': Files, g: int)
    requires RowsOk(F) && F'.live == F.live && F'.tables == F.tables && |F'.slots| == |F.slots|
    requires forall k :: 0 <= k < |F.slots| && k != g && F.slots[k].used ==> F'.slots[k].used
    requires 0 <= g < |F.slots| && F.slots[g].used ==> F'.slots[g].used || RefCount(F.tables, F.live, g) == 0
    ensures RowsOk(F')
  {
    forall t | t in F'.live ensures t in F'.tables && RowOk(F'.slots, F'.tables[t]) {
      assert RowOk(F.slots, F.tables[t]);
      var row := F.tables[t];
      forall i | 3 <= i < |row| ensures FdOk(F'.slots, row[i]) {
        assert FdOk(F.slots, row[i]);
        if row[i] == g && g != -1 { RefPositive(F.tables, F.live, t, i, g); }
      }
    }
  }

  lemma SetRows(F: Files, t: Tid, i: nat, g: int)
    requires RowsOk(F) && Holds(F, t, i) && FdOk(F.slots, g)
    ensures RowsOk(SetFd(F, t, i, g))
  {
    assert RowOk(F.slots, F.tables[t]);
  }

  /** Closing a descriptor keeps the counts; a pipe's page goes exactly with its last descriptor. */
  lemma CloseKeeps(F: Files, t: Tid, i: nat)
    requires Inv(F) && Holds(F, t, i) && F.tables[t][i] != -1
    ensures Inv(CloseFd(F, t, i))
    ensures var g := F.tables[t][i];
            3 <= g < |F.slots| && F.slots[g].used
            && (!CloseFd(F, t, i).slots[g].used <==> RefCount(CloseFd(F, t, i).tables, F.live, g) == 0)
  {
    var g := F.tables[t][i];
    FdFacts(F, t, i);
    var F1 := SetFd(F, t, i, -1);
    SetRows(F, t, i, -1);
    SetFdCount(F, t, i, -1, g);
    assert SlotOk(F, g);
    var F' := CloseFd(F, t, i);
    hide RowsOk, RefCount;
    RowsKeep(F1, F', g);
    forall x: nat | 3 <= x < MAX_FILES_OPEN && x != g ensures SlotOk(F', x) {
      assert SlotOk(F, x);
      SetFdCount(F, t, i, -1, x);
    }
  }

  /** One turn of update_inode_open_cnts: the child's descriptor becomes one more reference. */
  ghost function AddRef(F: Files, t: Tid, i: nat, g: nat): Files
    requires Holds(F, t, i) && g < |F.slots|
  {
    SetFd(F, t, i, g).(slots := F.slots[g := F.slots[g].(pos := F.slots[g].pos + 1)])
  }

  lemma AddRefKeeps(F: Files, t: Tid, i: nat, g: nat)
    requires Inv(F) && Holds(F, t, i) && F.tables[t][i] == -1 && 3 <= g < |F.slots| && F.slots[g].used && F.slots[g].pipe
    ensures Inv(AddRef(F, t, i, g))
  {
    var F' := AddRef(F, t, i, g);
    var F1 := SetFd(F, t, i, g);
    SetRows(F, t, i, g);
    SetFdCount(F, t, i, g, g);
    assert SlotOk(F, g);
    hide RowsOk, RefCount;
    RowsKeep(F1, F', g);
    forall x: nat | 3 <= x < MAX_FILES_OPEN && x != g ensures SlotOk(F', x) {
      assert SlotOk(F, x);
      SetFdCount(F, t, i, g, x);
    }
  }

  // ---- new entries ----

  /** An unused entry has no references. */
  lemma UnusedUnreferenced(F: Files, g: nat)
    requires RowsOk(F) && g < |F.slots| && !F.slots[g].used
    ensures RefCount(F.tables, F.live, g) == 0
  {
    forall t | t in F.live ensures t in F.tables && RowCount(F.tables[t], g) == 0 {
      assert RowOk(F.slots, F.tables[t]);
      var row := F.tables[t];
      forall i | 3 <= i < |row| ensures row[i] != g { assert FdOk(F.slots, row[i]); }
      CountZero(row, 3, g);
    }
    AllZero(F.tables, F.live, g);
  }

  lemma {:induction false} AllZero(tables: map<Tid, Row>, live: seq<Tid>, g: int)
    requires forall t :: t in live ==> t in tables && RowCount(tables[t], g) == 0
    ensures RefCount(tables, live, g) == 0
  {
    hide RowCount;
    if live != [] { AllZero(tables, live[1..], g); }
  }

  /** sys_pipe with entry `g` and the local descriptors `i` and `j`. */
  ghost function NewPipe(F: Files, t: Tid, i: nat, j: nat, g: nat): Files
    requires Holds(F, t, i) && Holds(F, t, j) && g < |F.slots|
  {
    SetFd(SetFd(F, t, i, g), t, j, g).(slots := F.slots[g := Slot(true, true, 2)])
  }

  lemma NewPipeCount(F: Files, t: Tid, i: nat, j: nat, g: nat, x: int)
    requires RowsOk(F) && Holds(F, t, i) && Holds(F, t, j) && i != j && F.tables[t][i] == -1 && F.tables[t][j] == -1
    requires g < |F.slots| && x != -1 && (g >= 3)
    ensures RefCount(NewPipe(F, t, i, j, g).tables, F.live, x) == RefCount(F.tables, F.live, x) + (if x == g then 2 else 0)
  {
    var row := F.tables[t];
    CountUpdate(row, 3, i, g, x);
    CountUpdate(row[i := g], 3, j, g, x);
    var row' := row[i := g][j := g];
    RefUpdate(F.tables, F.live, t, row', x);
    assert NewPipe(F, t, i, j, g).tables == F.tables[t := row'];
  }

  lemma NewPipeRows(F: Files, t: Tid, i: nat, j: nat, g: nat)
    requires RowsOk(F) && Holds(F, t, i) && Holds(F, t, j) && 3 <= g < |F.slots|
    ensures RowsOk(NewPipe(F, t, i, j, g))
  {
    var F' := NewPipe(F, t, i, j, g);
    forall u | u in F'.live ensures u in F'.tables && RowOk(F'.slots, F'.tables[u]) {
      assert RowOk(F.slots, F.tables[u]);
      forall k | 3 <= k < |F'.tables[u]| ensures FdOk(F'.slots, F'.tables[u][k]) {
        assert FdOk(F.slots, F.tables[u][k]);
      }
    }
  }

  lemma NewPipeKeeps(F: Files, t: Tid, i: nat, j: nat, g: nat)
    requires Inv(F) && Holds(F, t, i) && Holds(F, t, j) && i != j && F.tables[t][i] == -1 && F.tables[t][j] == -1
    requires 3 <= g < |F.slots| && !F.slots[g].used
    ensures Inv(NewPipe(F, t, i, j, g))
  {
    var F' := NewPipe(F, t, i, j, g);
    UnusedUnreferenced(F, g);
    NewPipeRows(F, t, i, j, g);
    hide RowsOk, RefCount;
    forall x: nat | 3 <= x < MAX_FILES_OPEN ensures SlotOk(F', x) {
      assert SlotOk(F, x);
      NewPipeCount(F, t, i, j, g, x);
    }
  }

  /** sys_open's effect on the tables. */
  ghost function NewFile(F: Files, t: Tid, i: nat, g: nat): Files
    requires Holds(F, t, i) && g < |F.slots|
  {
    SetFd(F, t, i, g).(slots := F.slots[g := Slot(false, true, 0)])
  }

  lemma NewFileKeeps(F: Files, t: Tid, i: nat, g: nat)
    requires Inv(F) && Holds(F, t, i) && F.tables[t][i] == -1 && 3 <= g < |F.slots| && !F.slots[g].used
    ensures Inv(NewFile(F, t, i, g))
  {
    var F' := NewFile(F, t, i, g);
    UnusedUnreferenced(F, g);
    var F0 := F.(slots := F'.slots);
    hide RefCount;
    RowsKeep(F, F0, g);
    SetRows(F0, t, i, g);
    hide RowsOk;
    forall x: nat | 3 <= x < MAX_FILES_OPEN ensures SlotOk(F', x) {
      assert SlotOk(F, x);
      SetFdCount(F, t, i, g, x);
    }
  }

  // ---- processes that come and go ----

  ghost function AddProc(F: Files, t: Tid, row: Row): Files {
    F.(tables := F.tables[t := row], live := F.live + [t])
  }

  /** A child with no descriptors yet; its standard descriptors are copies. */
  lemma AddProcKeeps(F: Files, t: Tid, row: Row)
    requires Inv(F) && t !in F.live && |row| == MAX_FILES_OPEN_PER_PROC && forall i :: 3 <= i < |row| ==> row[i] == -1
    ensures Inv(AddProc(F, t, row))
  {
    var F' := AddProc(F, t, row);
    AppendFacts(F.live, t);
    forall u | u in F'.live ensures u in F'.tables && RowOk(F'.slots, F'.tables[u]) {
      if u != t { assert RowOk(F.slots, F.tables[u]); }
    }
    hide NoDup;
    forall x: nat | 3 <= x < MAX_FILES_OPEN ensures SlotOk(F', x) {
      assert SlotOk(F, x);
      RefElsewhere(F.tables, F.live, t, row, x);
      RefAppend(F'.tables, F.live, t, x);
      CountZero(row, 3, x);
    }
  }

  ghost function DropProc(F: Files, t: Tid): Files { F.(live := Without(F.live, t)) }

  /** A process whose descriptors are all closed becomes HANGING. */
  lemma DropProcKeeps(F: Files, t: Tid)
    requires Inv(F) && t in F.live && (forall i :: 3 <= i < |F.tables[t]| ==> F.tables[t][i] == -1)
    ensures Inv(DropProc(F, t))
  {
    var F' := DropProc(F, t);
    WithoutMembers(F.live, t);
    forall u | u in F'.live ensures u in F'.tables && RowOk(F'.slots, F'.tables[u]) {
      assert RowOk(F.slots, F.tables[u]);
    }
    hide NoDup;
    forall x: nat | 3 <= x < MAX_FILES_OPEN ensures SlotOk(F', x) {
      assert SlotOk(F, x);
      if 3 <= |F.tables[t]| {
        CountZero(F.tables[t], 3, x);
      }
      RefWithout(F.tables, F.live, t, x);
    }
  }

  // ---- where the counts are lost ----

  /** sys_fd_redirect */
  ghost function Redirect(F: Files, t: Tid, to: nat, from: nat): Files
    requires t in F.tables && to < |F.tables[t]| && from < |F.tables[t]|
  {
    SetFd(F, t, to, if from < 3 then from else F.tables[t][from])
  }

  lemma StandardCount(F: Files, t: Tid, i: nat, v: int, x: int)
    requires RowsOk(F) && t in F.live && t in F.tables && i < 3 && i < |F.tables[t]|
    ensures RefCount(SetFd(F, t, i, v).tables, F.live, x) == RefCount(F.tables, F.live, x)
  {
    CountUpdate(F.tables[t], 3, i, v, x);
    RefUpdate(F.tables, F.live, t, F.tables[t][i := v], x);
  }

  lemma StandardKeeps(F: Files, t: Tid, i: nat, v: int)
    requires Inv(F) && t in F.live && t in F.tables && i < 3 && i < |F.tables[t]|
    ensures Inv(SetFd(F, t, i, v))
  {
    var F' := SetFd(F, t, i, v);
    assert RowOk(F.slots, F.tables[t]);
    forall u | u in F'.live ensures u in F'.tables && RowOk(F'.slots, F'.tables[u]) {
      assert RowOk(F.slots, F.tables[u]);
    }
    hide RowsOk, RefCount;
    forall x: nat | 3 <= x < MAX_FILES_OPEN ensures SlotOk(F', x) {
      assert SlotOk(F, x);
      StandardCount(F, t, i, v, x);
    }
  }

  /** Redirecting keeps the counts iff it redirects a standard descriptor, changes nothing, or drops a
      descriptor that refers to no pipe in favour of a closed one. */
  lemma RedirectExactly(F: Files, t: Tid, to: nat, from: nat)
    requires Inv(F) && t in F.live && t in F.tables && to < |F.tables[t]| && from < |F.tables[t]|
    ensures var v := if from < 3 then from else F.tables[t][from];
            var r := F.tables[t][to];
            Inv(Redirect(F, t, to, from)) <==> to < 3 || v == r || (v == -1 && !(0 <= r < |F.slots| && F.slots[r].pipe))
  {
    var v := if from < 3 then from else F.tables[t][from];
    var r := F.tables[t][to];
    var F' := Redirect(F, t, to, from);
    if to < 3 {
      StandardKeeps(F, t, to, v);
    } else if v == r {
      assert F' == F by { assert F.tables[t][to := v] == F.tables[t]; }
    } else {
      RedirectOther(F, t, to, v);
    }
  }

  lemma RedirectOther(F: Files, t: Tid, to: nat, v: int)
    requires Inv(F) && Holds(F, t, to) && v != F.tables[t][to]
    requires v < 3 || exists i: nat :: Holds(F, t, i) && F.tables[t][i] == v
    ensures var r := F.tables[t][to];
            Inv(SetFd(F, t, to, v)) <==> v == -1 && !(0 <= r < |F.slots| && F.slots[r].pipe)
  {
    var r := F.tables[t][to];
    var F' := SetFd(F, t, to, v);
    FdFacts(F, t, to);
    if v == -1 {
      SetRows(F, t, to, -1);
      SetFdCount(F, t, to, -1, r);
      assert SlotOk(F, r);
      if F.slots[r].pipe {
        assert !SlotOk(F', r);
      } else {
        hide RowsOk, RefCount;
        forall x: nat | 3 <= x < MAX_FILES_OPEN ensures SlotOk(F', x) {
          assert SlotOk(F, x);
          SetFdCount(F, t, to, -1, x);
        }
      }
    } else if v < 3 {
      assert F'.tables[t][to] == v && !FdOk(F'.slots, v);
      assert !RowOk(F'.slots, F'.tables[t]);
    } else {
      var i: nat :| Holds(F, t, i) && F.tables[t][i] == v;
      FdFacts(F, t, i);
      SetFdCount(F, t, to, v, v);
      assert SlotOk(F, v);
      assert !SlotOk(F', v);
    }
  }

  /** fork: the child's row is the parent's, and every descriptor on a pipe raises that pipe's count. */
  ghost function ForkTo(F: Files, t: Tid, c: Tid, n: nat): Files
    requires Inv(F) && t in F.live && c !in F.live && 3 <= n <= MAX_FILES_OPEN_PER_PROC
  {
    assert RowOk(F.slots, F.tables[t]);
    var row := F.tables[t];
    F.(tables := F.tables[c := row[..n] + seq(MAX_FILES_OPEN_PER_PROC - n, _ => -1)], live := F.live + [c],
       slots := Raised(F.slots, row, n))
  }

  /** The entries of file_table after the first `n` descriptors of a row have been counted once more. */
  ghost function Raised(slots: seq<Slot>, row: Row, n: nat): seq<Slot>
    requires n <= |row|
  {
    if n <= 3 then slots
    else
      var s := Raised(slots, row, n - 1);
      var g := row[n - 1];
      if 0 <= g < |s| && s[g].pipe then s[g := s[g].(pos := s[g].pos + 1)] else s
  }

  lemma {:induction false} RaisedFlags(slots: seq<Slot>, row: Row, n: nat)
    requires n <= |row|
    ensures |Raised(slots, row, n)| == |slots|
    ensures forall g :: 0 <= g < |slots| ==> Raised(slots, row, n)[g].pipe == slots[g].pipe && Raised(slots, row, n)[g].used == slots[g].used
  {
    if n > 3 { RaisedFlags(slots, row, n - 1); }
  }

  ghost predicate OnlyPipes(F: Files, row: Row) {
    forall i :: 3 <= i < |row| && row[i] != -1 ==> 0 <= row[i] < |F.slots| && F.slots[row[i]].pipe
  }

  lemma {:induction false} ForkToKeeps(F: Files, t: Tid, c: Tid, n: nat)
    requires Inv(F) && t in F.live && c !in F.live && 3 <= n <= MAX_FILES_OPEN_PER_PROC
    requires t in F.tables && OnlyPipes(F, F.tables[t])
    ensures Inv(ForkTo(F, t, c, n))
  {
    assert RowOk(F.slots, F.tables[t]);
    var row := F.tables[t];
    if n == 3 {
      AddProcKeeps(F, c, row[..3] + seq(MAX_FILES_OPEN_PER_PROC - 3, _ => -1));
      assert ForkTo(F, t, c, 3) == AddProc(F, c, row[..3] + seq(MAX_FILES_OPEN_PER_PROC - 3, _ => -1));
    } else {
      ForkToKeeps(F, t, c, n - 1);
      ForkToStep(F, t, c, n);
    }
  }

  lemma ForkToStep(F: Files, t: Tid, c: Tid, n: nat)
    requires Inv(F) && t in F.live && c !in F.live && 3 < n <= MAX_FILES_OPEN_PER_PROC
    requires t in F.tables && OnlyPipes(F, F.tables[t]) && Inv(ForkTo(F, t, c, n - 1))
    ensures Inv(ForkTo(F, t, c, n))
  {
    assert RowOk(F.slots, F.tables[t]);
    var row := F.tables[t];
    var g := row[n - 1];
    var G := ForkTo(F, t, c, n - 1);
    RaisedFlags(F.slots, row, n - 1);
    assert FdOk(F.slots, g);
    assert c in G.live by { assert G.live[|F.live|] == c; }
    var next := row[..n] + seq(MAX_FILES_OPEN_PER_PROC - n, _ => -1);
    assert G.tables[c][n - 1 := g] == next;
    if g == -1 {
      assert G.tables[c] == next;
      assert ForkTo(F, t, c, n) == G;
    } else {
      hide Inv;
      AddRefKeeps(G, c, n - 1, g);
      assert ForkTo(F, t, c, n) == AddRef(G, c, n - 1, g);
    }
  }

  /** fork keeps the tables consistent iff the parent holds no regular file: a regular file would be shared, and
      the first of the two to close it takes the entry away from the other. */
  lemma ForkExactly(F: Files, t: Tid, c: Tid)
    requires Inv(F) && t in F.live && t in F.tables && c !in F.live
    ensures Inv(ForkTo(F, t, c, MAX_FILES_OPEN_PER_PROC)) <==> OnlyPipes(F, F.tables[t])
  {
    assert RowOk(F.slots, F.tables[t]);
    var row := F.tables[t];
    var F' := ForkTo(F, t, c, MAX_FILES_OPEN_PER_PROC);
    if OnlyPipes(F, row) {
      ForkToKeeps(F, t, c, MAX_FILES_OPEN_PER_PROC);
    } else {
      var i :| 3 <= i < |row| && row[i] != -1 && !(0 <= row[i] < |F.slots| && F.slots[row[i]].pipe);
      FdFacts(F, t, i);
      ForkShares(F, t, c, i);
    }
  }

  lemma ForkShares(F: Files, t: Tid, c: Tid, i: nat)
    requires Inv(F) && Holds(F, t, i) && c !in F.live && t in F.tables && |F.tables[t]| == MAX_FILES_OPEN_PER_PROC
    requires var g := F.tables[t][i]; 3 <= g < |F.slots| && F.slots[g].used && !F.slots[g].pipe
    ensures !Inv(ForkTo(F, t, c, MAX_FILES_OPEN_PER_PROC))
  {
    var row := F.tables[t];
    var g := row[i];
    var F' := ForkTo(F, t, c, MAX_FILES_OPEN_PER_PROC);
    RaisedFlags(F.slots, row, MAX_FILES_OPEN_PER_PROC);
    assert row[..MAX_FILES_OPEN_PER_PROC] + seq(0, _ => -1) == row;
    RefElsewhere(F.tables, F.live, c, row, g);
    RefAppend(F.tables[c := row], F.live, c, g);
    RefPositive(F.tables, F.live, t, i, g);
    CountSome(row, 3, i, g);
    assert RefCount(F'.tables, F'.live, g) >= 2;
    assert !SlotOk(F', g);
  }
}
