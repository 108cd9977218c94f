/** Runs of fork, exit and wait, and of the calls on descriptors. */
module ProcessRuns {
  import opened Basics
  import opened Lifecycle
  import opened LifecycleCalls
  import opened Runs

  datatype ProcessCall = Fork(me: Tid, mem: Memory) | Exit(me: Tid, code: int) | Wait(me: Tid)

  ghost predicate ProcessInv(W: World) { Inv(W) }

  /** A fork for which no pid is left: the child would get pid 0. */
  ghost predicate ProcessStop(W: World, c: ProcessCall) {
    c.Fork? && MayCall(W, c.me) && c.mem == Enough && NoPidLeft(W.pids)
  }

  ghost predicate Forked(W: World, me: Tid, W': World) {
    exists k: nat :: LeastFree(W.pids, k) && me in W.procs && W' == Lifecycle.Fork(W, me, k)
  }

  ghost predicate Halfway(W: World, W': World) {
    if NoPidLeft(W.pids) then W' == W else exists k: nat :: LeastFree(W.pids, k) && W' == Lose(W, k)
  }

  ghost predicate Exited(W: World, me: Tid, code: int, W': World) {
    exists u :: ParentAt(W, me, u) && W' == Lifecycle.Exit(W, me, u, code)
  }

  ghost predicate Reaped(W: World, me: Tid, W': World)
    requires me in W.procs
  {
    exists c :: ReapedAt(W, me, c, W')
  }

  ghost predicate ReapedAt(W: World, me: Tid, c: Tid, W': World)
    requires me in W.procs
  {
    c in W.procs && FirstHanging(W, c, W.procs[me].pid) && 1 <= W.procs[c].pid <= |W.pids| && c !in W.delivered && W' == Reap(W, c)
  }

  /** One turn of sys_wait: the first HANGING child is reaped, or there is no child, or the caller sleeps. */
  ghost predicate Waited(W: World, me: Tid, W': World)
    requires me in W.procs
  {
    var pid := W.procs[me].pid;
    if !HasChild(W.procs, pid) then W' == W
    else if NoneHanging(W.procs, pid) then W' == Sleep(W, me)
    else Reaped(W, me, W')
  }

  /** What a call of a running user process does; other callers do not call, and init does not exit. */
  ghost predicate ProcessStep(W: World, c: ProcessCall, W': World) {
    if !MayCall(W, c.me) then W' == W
    else match c
      case Fork(me, mem) => if mem == Enough then Forked(W, me, W') else if mem == NoPml4 then Halfway(W, W') else W' == W
      case Exit(me, code) => if me == W.init then W' == W else Exited(W, me, code, W')
      case Wait(me) => Waited(W, me, W')
  }

  lemma ForkedIs(W: World, me: Tid, k: nat)
    requires LeastFree(W.pids, k) && me in W.procs
    ensures Forked(W, me, Lifecycle.Fork(W, me, k))
  {
    hide LeastFree, Lifecycle.Fork;
  }

  method DoFork(p: Processes, me: Tid, mem: Memory, ghost W: World) returns (stopped: bool)
    requires W == p.State() && Inv(W) && MayCall(W, me)
    modifies p, p.pids.bits
    ensures stopped <==> ProcessStop(W, Fork(me, mem))
    ensures !stopped ==> Inv(p.State()) && ProcessStep(W, Fork(me, mem), p.State())
  {
    hide *;
    CallFacts(W, me);
    var r := p.SysFork(me, mem, W);
    stopped := mem == Enough && r == 0;
    if mem == Enough && r != 0 { ForkedIs(W, me, r - 1); }
    if mem == NoPml4 { HalfwayIs(p, W); }
    ForkStep(W, me, mem, p.State(), r);
  }

  lemma HalfwayIs(p: Processes, W: World)
    requires if NoPidLeft(W.pids) then p.State() == W else exists k: nat :: p.LostPid(W, k)
    ensures Halfway(W, p.State())
  {
    hide NoPidLeft, LeastFree, Lose, Processes.State;
  }

  lemma ForkStep(W: World, me: Tid, mem: Memory, W': World, r: int)
    requires MayCall(W, me)
    requires mem == NoPage ==> W' == W
    requires mem == NoPml4 ==> Halfway(W, W')
    requires mem == Enough && r != 0 ==> 0 < r && LeastFree(W.pids, r - 1) && Forked(W, me, W')
    requires mem == Enough && r == 0 ==> NoPidLeft(W.pids)
    ensures ProcessStop(W, Fork(me, mem)) <==> mem == Enough && r == 0
    ensures mem != Enough || r != 0 ==> ProcessStep(W, Fork(me, mem), W')
  {
    hide MayCall, Halfway, Forked;
  }

  method DoExit(p: Processes, me: Tid, code: int, ghost W: World)
    requires W == p.State() && Inv(W) && MayCall(W, me)
    modifies p
    ensures Inv(p.State()) && ProcessStep(W, Exit(me, code), p.State())
  {
    hide *;
    p.Fields(W);
    if me != p.init {
      ghost var u := p.SysExit(me, code, W);
      ExitedIs(W, me, u, code);
    }
    ExitStep(W, me, code, p.State());
  }

  lemma ExitedIs(W: World, me: Tid, u: Tid, code: int)
    requires ParentAt(W, me, u)
    ensures me in W.procs && u in W.procs && Exited(W, me, code, Lifecycle.Exit(W, me, u, code))
  {
    hide Lifecycle.Exit;
  }

  lemma ExitStep(W: World, me: Tid, code: int, W': World)
    requires if me == W.init then W' == W else Exited(W, me, code, W')
    requires MayCall(W, me)
    ensures ProcessStep(W, Exit(me, code), W')
  {
    hide Exited, MayCall;
  }

  method DoWait(p: Processes, me: Tid, ghost W: World)
    requires W == p.State() && Inv(W) && MayCall(W, me)
    modifies p, p.pids.bits
    ensures Inv(p.State()) && ProcessStep(W, Wait(me), p.State())
  {
    hide *;
    CallFacts(W, me);
    var r; ghost var c;
    r, c := p.SysWait(me, W);
    WaitStep(W, me, p.State(), r, c);
  }

  lemma WaitStep(W: World, me: Tid, W': World, r: Turn, c: Tid)
    requires MayCall(W, me) && me in W.procs
    requires r.Child? ==> c in W.procs && FirstHanging(W, c, W.procs[me].pid) && r.pid == W.procs[c].pid && 1 <= r.pid <= |W.pids|
    requires r.Child? ==> c in W.procs && 1 <= W.procs[c].pid <= |W.pids| && c !in W.delivered && W' == Reap(W, c)
    requires r.NoChild? ==> W' == W && forall t :: !IsChild(W.procs, t, W.procs[me].pid)
    requires r.Asleep? ==> W' == Sleep(W, me) && NoneHanging(W.procs, W.procs[me].pid) && HasChild(W.procs, W.procs[me].pid)
    ensures ProcessStep(W, Wait(me), W')
  {
    if r.Child? { FirstIsChild(W, c, W.procs[me].pid); }
    hide Reap, Sleep, MayCall, FirstHanging;
    if r.Child? { assert ReapedAt(W, me, c, W'); }
  }

  lemma FirstIsChild(W: World, c: Tid, pid: nat)
    requires FirstHanging(W, c, pid)
    ensures HasChild(W.procs, pid) && !NoneHanging(W.procs, pid)
  {
    assert IsChild(W.procs, c, pid);
  }

  lemma Bystander(W: World, c: ProcessCall)
    requires !MayCall(W, c.me)
    ensures !ProcessStop(W, c) && ProcessStep(W, c, W)
  {
  }

  lemma OnlyForkStops(W: World, c: ProcessCall)
    requires !c.Fork?
    ensures !ProcessStop(W, c)
  {
  }

  lemma IsMayCall(p: Processes, me: Tid, W: World)
    requires W == p.State()
    ensures MayCall(W, me) <==> me in p.procs && p.procs[me].user && p.procs[me].stat == Runs
  {
  }

  lemma InvIs(W: World)
    ensures ProcessInv(W) <==> Inv(W)
  {
  }

  /** Over every run of fork, exit and wait pids are distinct, every process but init has a parent that is not HANGING,
      and so on; a status is delivered at most once.  The run ends exactly at a fork for which no pid is left. */
  method RunProcesses(p: Processes, calls: seq<ProcessCall>) returns (done: nat, ghost states: seq<World>)
    requires Inv(p.State())
    modifies p, p.pids.bits
    ensures Ran(ProcessInv, ProcessStop, ProcessStep, states, calls, done)
    ensures |states| == done + 1 && states[0] == old(p.State()) && (done == |calls| ==> states[done] == p.State())
  {
    hide *;
    done := 0;
    ghost var S := p.State();
    InvIs(S);
    states := [S];
    Starts(ProcessInv, ProcessStop, ProcessStep, calls, S);
    while done < |calls|
      invariant done <= |calls| && SoFar(ProcessInv, ProcessStop, ProcessStep, states, calls, done) && |states| == done + 1
      invariant states[done] == p.State() && Inv(p.State()) && states[0] == S
    {
      ghost var W := p.State();
      var c := calls[done];
      IsMayCall(p, c.me, W);
      var stopped := false;
      if c.me in p.procs && p.procs[c.me].user && p.procs[c.me].stat == Runs {
        match c {
          case Fork(me, mem) => stopped := DoFork(p, me, mem, W);
          case Exit(me, code) => DoExit(p, me, code, W); OnlyForkStops(W, c);
          case Wait(me) => DoWait(p, me, W); OnlyForkStops(W, c);
        }
      } else {
        Bystander(W, c);
      }
      if stopped {
        Stopped(ProcessInv, ProcessStop, ProcessStep, states, calls, done);
        return;
      }
      InvIs(p.State());
      Further(ProcessInv, ProcessStop, ProcessStep, states, calls, done, p.State());
      states := states + [p.State()];
      done := done + 1;
    }
    Stopped(ProcessInv, ProcessStop, ProcessStep, states, calls, done);
  }
}

/** Runs of the calls that open, share, redirect and close descriptors. */
module DescriptorRuns {
  import opened Basics
  import opened PipeRefs
  import opened PipeTable
  import opened DescriptorEffects
  import opened Runs

  datatype FileCall =
    | Pipe(t: Tid, pageOk: bool)
    | Open(t: Tid)
    | Close(t: Tid, fd: nat)
    | Redirect(t: Tid, to: nat, from: nat)
    | Share(t: Tid, child: Tid)
    | Leave(t: Tid)

  ghost predicate FilesInv(F: Files) { Inv(F) }

  ghost predicate NoneUnused(slots: seq<Slot>) {
    forall g :: 3 <= g < |slots| ==> slots[g].used
  }

  /** The entry for a pipe comes without two descriptors for it. */
  ghost predicate TooFewFds(F: Files, t: Tid)
    requires t in F.tables
  {
    exists g: nat :: FirstUnused(F.slots, g) && (FirstOf(F, t) == -1 || SecondOf(F, t, g) == -1)
  }

  /** A pipe without an entry of file_table, which is then written at -1, or without two descriptors. */
  ghost predicate FilesStop(F: Files, c: FileCall) {
    c.Pipe? && c.t in F.live && c.t in F.tables && (NoneUnused(F.slots) || (c.pageOk && TooFewFds(F, c.t)))
  }

  ghost predicate PipedTo(F: Files, t: Tid, F': Files)
    requires t in F.tables
  {
    exists g: nat :: FirstUnused(F.slots, g) && g < |F.slots| && F' == Piped(F, t, g)
  }

  /** An open file takes the first entry, and the first closed descriptor if there is one. */
  ghost predicate OpenedTo(F: Files, t: Tid, F': Files)
    requires t in F.tables
  {
    if NoneUnused(F.slots) then F' == F else exists g: nat :: FirstUnused(F.slots, g) && OpenedAt(F, t, g, F')
  }

  ghost predicate OpenedAt(F: Files, t: Tid, g: nat, F': Files)
    requires t in F.tables
  {
    && g < |F.slots|
    && var fd := FirstFree(F.tables[t]);
       if fd == -1 then F' == F.(slots := F.slots[g := Slot(false, true, 0)])
       else Holds(F, t, fd) && F' == NewFile(F, t, fd, g)
  }

  /** What a call of a process does that is not HANGING.  Only standard descriptors are redirected, and a process with
      regular files does not fork: PipeRefs says when those would break the counts. */
  ghost predicate FilesStep(F: Files, c: FileCall, F': Files) {
    if !Inv(F) || c.t !in F.live || c.t !in F.tables || |F.tables[c.t]| != MAX_FILES_OPEN_PER_PROC then F' == F
    else match c
      case Pipe(t, pageOk) => if pageOk then PipedTo(F, t, F') else F' == F
      case Open(t) => OpenedTo(F, t, F')
      case Close(t, fd) => if 3 <= fd < MAX_FILES_OPEN_PER_PROC && F.tables[t][fd] != -1 && Holds(F, t, fd) then F' == CloseFd(F, t, fd) else F' == F
      case Redirect(t, to, from) => if to < 3 && from < MAX_FILES_OPEN_PER_PROC then Redirected(F, t, to, from, F') else F' == F
      case Share(t, child) => if child !in F.live && OnlyPipes(F, F.tables[t]) then F' == ForkTo(F, t, child, MAX_FILES_OPEN_PER_PROC) else F' == F
      case Leave(t) => F' == DropProc(ClosedTo(F, t, MAX_FILES_OPEN_PER_PROC), t)
  }

  /** A row of descriptors that exists, as every live process has one. */
  ghost predicate Row8(F: Files, t: Tid) {
    Inv(F) && t in F.live && t in F.tables && |F.tables[t]| == MAX_FILES_OPEN_PER_PROC
  }

  lemma LiveRow(F: Files, t: Tid)
    requires Inv(F) && t in F.live
    ensures Row8(F, t) && t in F.tables && |F.tables[t]| == MAX_FILES_OPEN_PER_PROC && |F.slots| == MAX_FILES_OPEN
    ensures |F.tables[t]| == 8
  {
    RowIs(F, t);
  }

  lemma StateIs(f: FileTables, F: Files)
    requires F == f.State()
    ensures F.slots == f.fileTable[..] && F.tables == f.tables && F.live == f.live
  {
  }

  method DoPipe(f: FileTables, t: Tid, pageOk: bool, ghost F: Files) returns (stopped: bool)
    requires F == f.State() && Inv(F) && t in f.live
    modifies f, f.fileTable
    ensures stopped <==> FilesStop(F, Pipe(t, pageOk))
    ensures !stopped ==> Inv(f.State()) && FilesStep(F, Pipe(t, pageOk), f.State())
  {
    hide *;
    StateIs(f, F);
    LiveRow(F, t);
    var r := f.SysPipe(t, pageOk, F);
    stopped := r.OutOfTable? || (r.Ends? && (r.reader == -1 || r.writer == -1));
    if r.Ends? {
      ghost var g := PipeEntry(f, F, t, r);
      PipeEnds(F, t, g, f.State(), r, pageOk);
    } else {
      NoPipe(F, t, r, pageOk);
    }
  }

  lemma PipeEntry(f: FileTables, F: Files, t: Tid, r: PipeResult) returns (g: nat)
    requires r.Ends? && t in F.tables
    requires exists g: nat :: FirstUnused(F.slots, g) && f.IsPiped(F, t, g) && r.reader == FirstOf(F, t) && r.writer == SecondOf(F, t, g)
    ensures FirstUnused(F.slots, g) && g < |F.slots| && f.State() == Piped(F, t, g) && r.reader == FirstOf(F, t) && r.writer == SecondOf(F, t, g)
  {
    hide FirstOf, SecondOf, Piped;
    g :| FirstUnused(F.slots, g) && f.IsPiped(F, t, g) && r.reader == FirstOf(F, t) && r.writer == SecondOf(F, t, g);
  }

  lemma OneUnused(slots: seq<Slot>, g: nat, h: nat)
    requires FirstUnused(slots, g) && FirstUnused(slots, h)
    ensures g == h
  {
  }

  lemma PipeEnds(F: Files, t: Tid, g: nat, F': Files, r: PipeResult, pageOk: bool)
    requires Row8(F, t) && FirstUnused(F.slots, g) && g < |F.slots| && F' == Piped(F, t, g) && r.Ends? && pageOk
    requires r.reader == FirstOf(F, t) && r.writer == SecondOf(F, t, g)
    ensures FilesStop(F, Pipe(t, pageOk)) <==> r.reader == -1 || r.writer == -1
    ensures r.reader != -1 && r.writer != -1 ==> Inv(F') && FilesStep(F, Pipe(t, pageOk), F')
  {
    PipedExactly(F, t, g);
    forall h: nat | FirstUnused(F.slots, h) ensures h == g { OneUnused(F.slots, g, h); }
    assert !NoneUnused(F.slots);
    hide Inv, Piped, FirstOf, SecondOf, FirstUnused, NoneUnused;
  }

  lemma NoPipe(F: Files, t: Tid, r: PipeResult, pageOk: bool)
    requires Row8(F, t) && |F.slots| == MAX_FILES_OPEN && (r.NoPage? || r.OutOfTable?)
    requires r.NoPage? ==> !pageOk
    requires r.OutOfTable? <==> forall g :: 3 <= g < MAX_FILES_OPEN ==> F.slots[g].used
    ensures FilesStop(F, Pipe(t, pageOk)) <==> r.OutOfTable?
    ensures r.NoPage? ==> FilesStep(F, Pipe(t, pageOk), F)
  {
    hide Inv;
  }

  method DoOpen(f: FileTables, t: Tid, ghost F: Files)
    requires F == f.State() && Inv(F) && t in f.live
    modifies f, f.fileTable
    ensures Inv(f.State()) && FilesStep(F, Open(t), f.State())
  {
    hide *;
    StateIs(f, F);
    LiveRow(F, t);
    var fd := f.OpenFile(t, F);
    OpenStep(f, F, t, fd);
  }

  lemma OpenStep(f: FileTables, F: Files, t: Tid, fd: int)
    requires Row8(F, t) && |F.slots| == MAX_FILES_OPEN
    requires (forall k :: 3 <= k < MAX_FILES_OPEN ==> F.slots[k].used) ==> fd == -1 && f.State() == F
    requires (exists k :: 3 <= k < MAX_FILES_OPEN && !F.slots[k].used) ==>
               fd == FirstFree(F.tables[t]) && exists g: nat :: FirstUnused(F.slots, g) && f.IsOpened(F, t, fd, g)
    ensures FilesStep(F, Open(t), f.State())
  {
    hide Inv, FirstFree, NewFile, FileTables.State;
    if !NoneUnused(F.slots) {
      var g: nat :| FirstUnused(F.slots, g) && f.IsOpened(F, t, fd, g);
      assert OpenedAt(F, t, g, f.State());
    }
  }

  method DoClose(f: FileTables, t: Tid, fd: nat, ghost F: Files)
    requires F == f.State() && Inv(F) && t in f.live
    modifies f, f.fileTable
    ensures Inv(f.State()) && FilesStep(F, Close(t, fd), f.State())
  {
    hide *;
    StateIs(f, F);
    LiveRow(F, t);
    if 3 <= fd < MAX_FILES_OPEN_PER_PROC && f.tables[t][fd] != -1 {
      HeldFd(F, t, fd);
      var _ := f.SysClose(t, fd, F);
    }
    CloseStep(F, t, fd, f.State());
  }

  lemma HeldFd(F: Files, t: Tid, fd: nat)
    requires t in F.live && t in F.tables && 3 <= fd < |F.tables[t]|
    ensures Holds(F, t, fd)
  {
  }

  lemma CloseStep(F: Files, t: Tid, fd: nat, F': Files)
    requires Row8(F, t)
    requires if 3 <= fd < MAX_FILES_OPEN_PER_PROC && F.tables[t][fd] != -1 then Holds(F, t, fd) && F' == CloseFd(F, t, fd) else F' == F
    ensures FilesStep(F, Close(t, fd), F')
  {
    hide Inv, CloseFd;
  }

  method DoRedirect(f: FileTables, t: Tid, to: nat, from: nat, ghost F: Files)
    requires F == f.State() && Inv(F) && t in f.live
    modifies f, f.fileTable
    ensures Inv(f.State()) && FilesStep(F, Redirect(t, to, from), f.State())
  {
    hide *;
    StateIs(f, F);
    LiveRow(F, t);
    if to < 3 && from < MAX_FILES_OPEN_PER_PROC {
      RedirectKeeps(F, t, to, from);
      f.SysFdRedirect(t, to, from, F);
    }
    RedirectStep(F, t, to, from, f.State());
  }

  lemma RedirectKeeps(F: Files, t: Tid, to: nat, from: nat)
    requires Inv(F) && t in F.live && t in F.tables && to < 3 && to < |F.tables[t]| && from < |F.tables[t]|
    ensures Inv(PipeRefs.Redirect(F, t, to, from))
  {
    hide Inv;
    RedirectExactly(F, t, to, from);
  }

  lemma RedirectStep(F: Files, t: Tid, to: nat, from: nat, F': Files)
    requires Row8(F, t)
    requires if to < 3 && from < MAX_FILES_OPEN_PER_PROC then F' == PipeRefs.Redirect(F, t, to, from) else F' == F
    ensures FilesStep(F, Redirect(t, to, from), F')
  {
    if to < 3 && from < MAX_FILES_OPEN_PER_PROC { RedirectLeaves(F, t, to, from); }
    hide Inv, PipeRefs.Redirect, Redirected;
  }

  method HoldsOnlyPipes(f: FileTables, t: Tid) returns (only: bool)
    requires Inv(f.State()) && t in f.live
    ensures t in f.tables && (only <==> OnlyPipes(f.State(), f.tables[t]))
  {
    LiveRow(f.State(), t);
    RowRange(f.State(), t);
    hide Inv;
    for i := 3 to 8
      invariant forall k :: 3 <= k < i && f.tables[t][k] != -1 ==> 0 <= f.tables[t][k] < f.fileTable.Length && f.fileTable[f.tables[t][k]].pipe
    {
      var g := f.tables[t][i];
      if g != -1 && !f.fileTable[g].pipe { return false; }
    }
    only := true;
  }

  method DoShare(f: FileTables, t: Tid, child: Tid, ghost F: Files)
    requires F == f.State() && Inv(F) && t in f.live
    modifies f, f.fileTable
    ensures Inv(f.State()) && FilesStep(F, Share(t, child), f.State())
  {
    hide *;
    StateIs(f, F);
    LiveRow(F, t);
    var only := HoldsOnlyPipes(f, t);
    if child !in f.live && only {
      ForkExactly(F, t, child);
      f.SysFork(t, child, F);
    }
    ShareStep(F, t, child, f.State());
  }

  lemma ShareStep(F: Files, t: Tid, child: Tid, F': Files)
    requires Row8(F, t) && Inv(F) && t in F.live
    requires if child !in F.live && OnlyPipes(F, F.tables[t]) then F' == ForkTo(F, t, child, MAX_FILES_OPEN_PER_PROC) else F' == F
    ensures FilesStep(F, Share(t, child), F')
  {
    hide Inv, ForkTo, OnlyPipes;
  }

  method DoLeave(f: FileTables, t: Tid, ghost F: Files)
    requires F == f.State() && Inv(F) && t in f.live
    modifies f, f.fileTable
    ensures Inv(f.State()) && FilesStep(F, Leave(t), f.State())
  {
    hide *;
    StateIs(f, F);
    LiveRow(F, t);
    f.ReleaseAll(t, F);
    LeaveStep(F, t, f.State());
  }

  lemma LeaveStep(F: Files, t: Tid, F': Files)
    requires Row8(F, t) && F' == DropProc(ClosedTo(F, t, MAX_FILES_OPEN_PER_PROC), t)
    ensures FilesStep(F, Leave(t), F')
  {
    hide Inv, ClosedTo, DropProc;
  }

  lemma Absent(F: Files, c: FileCall)
    requires c.t !in F.live
    ensures !FilesStop(F, c) && FilesStep(F, c, F)
  {
  }

  lemma OnlyPipeStops(F: Files, c: FileCall)
    requires !c.Pipe?
    ensures !FilesStop(F, c)
  {
  }

  lemma InvIs(F: Files)
    ensures FilesInv(F) <==> Inv(F)
  {
  }

  /** Over every run of pipe, open, close, redirection of the standard descriptors, fork and exit, a pipe's count is the
      number of descriptors that refer to it, and its entry is in use iff that is not 0.  The run ends exactly at a pipe
      for which there is no entry of file_table or there are not two descriptors. */
  method RunDescriptors(f: FileTables, calls: seq<FileCall>) returns (done: nat, ghost states: seq<Files>)
    requires Inv(f.State())
    modifies f, f.fileTable
    ensures Ran(FilesInv, FilesStop, FilesStep, states, calls, done)
    ensures |states| == done + 1 && states[0] == old(f.State()) && (done == |calls| ==> states[done] == f.State())
  {
    hide *;
    done := 0;
    ghost var S := f.State();
    InvIs(S);
    states := [S];
    Starts(FilesInv, FilesStop, FilesStep, calls, S);
    while done < |calls|
      invariant done <= |calls| && SoFar(FilesInv, FilesStop, FilesStep, states, calls, done) && |states| == done + 1
      invariant states[done] == f.State() && Inv(f.State()) && states[0] == S
    {
      ghost var F := f.State();
      StateIs(f, F);
      var c := calls[done];
      var stopped := false;
      if c.t in f.live {
        match c {
          case Pipe(t, pageOk) => stopped := DoPipe(f, t, pageOk, F);
          case Open(t) => DoOpen(f, t, F); OnlyPipeStops(F, c);
          case Close(t, fd) => DoClose(f, t, fd, F); OnlyPipeStops(F, c);
          case Redirect(t, to, from) => DoRedirect(f, t, to, from, F); OnlyPipeStops(F, c);
          case Share(t, child) => DoShare(f, t, child, F); OnlyPipeStops(F, c);
          case Leave(t) => DoLeave(f, t, F); OnlyPipeStops(F, c);
        }
      } else {
        Absent(F, c);
      }
      if stopped {
        Stopped(FilesInv, FilesStop, FilesStep, states, calls, done);
        return;
      }
      InvIs(f.State());
      Further(FilesInv, FilesStop, FilesStep, states, calls, done, f.State());
      states := states + [f.State()];
      done := done + 1;
    }
    Stopped(FilesInv, FilesStop, FilesStep, states, calls, done);
  }
}
