/** Runs of the threads: any thread may be preempted between any two steps. */
module Interleavings {
  import opened Basics
  import opened Scheduling
  import opened Synchronisation

  /** `Go` is the next statement of a thread that stands inside lock_acquire, lock_release or sema_down; the
      other steps are a timer interrupt and the calls a thread (or, for Up and Unblock, an interrupt handler)
      makes from outside. */
  datatype Step =
    | Timer
    | Go
    | Acquire(l: nat)
    | Release(l: nat)
    | Down(s: nat)
    | Up(s: nat)
    | Block(st: Stat)
    | Unblock(t: Tid)
    | Yield
    | Spawn(t: Tid, prio: nat)
    | Exit
    | Reap(t: Tid)

  ghost function Cur(S: Sys): Thread
    requires S.current in S.thr
  {
    S.thr[S.current]
  }

  /** What the callers promise: releases balance acquires, sema_up follows sema_down, only sema_up wakes a
      semaphore's sleepers, and threads die without locks.  Interrupts are off at `Retry`. */
  ghost predicate Enabled(S: Sys, e: Step)
    requires OneRuns(S)
  {
    var pc := Cur(S).pc;
    match e
    case Timer => !pc.Retry?
    case Go => !pc.Out?
    case Acquire(l) => pc.Out? && l in S.lock && S.current != S.idle
    case Release(l) => pc.Out? && l in S.lock && Depth(S, S.current, l) > 0 && S.current != S.idle
    case Down(s) => pc.Out? && s in S.sema && s !in S.lock && S.current != S.idle
    case Up(s) => !pc.Retry? && s in S.sema && s !in S.lock && S.sema[s].value == 0
    case Block(st) => pc.Out? && (st == Blocked || (st in {Hanging, Waiting} && S.current != S.idle))
    case Unblock(t) => !pc.Retry? && t in S.thr && S.thr[t].stat in {Blocked, Hanging, Waiting} && !S.thr[t].pc.Retry?
    case Yield => pc.Out?
    case Spawn(t, prio) => pc.Out? && t !in S.thr
    case Exit => pc.Out? && S.current != S.idle && NoLocks(S, S.current)
    case Reap(t) => pc.Out? && t in S.thr && S.thr[t].stat == Hanging && NoLocks(S, t)
  }

  // ---- the steps ----

  ghost function Tick(S: Sys): Sys
    requires OneRuns(S) && Cur(S).ticks > 0
  {
    S.(thr := S.thr[S.current := Cur(S).(ticks := Cur(S).ticks - 1)])
  }

  lemma TickKeeps(S: Sys)
    requires Inv(S) && Cur(S).ticks > 0
    ensures Inv(Tick(S))
  {
    hide LocksOk, WakesOk, NoDup;
    SameSyncLocks(S, Tick(S));
    SameSyncWakes(S, Tick(S));
    ReadySame(S.thr, Tick(S).thr, S.ready);
    SameSyncLists(S, Tick(S));
    TicksOk(S);
    SameSyncThreads(S, Tick(S));
  }

  lemma SchedKeeps(S: Sys)
    requires Lists(S) && LocksOk(S) && WakesOk(S)
    ensures Inv(Sched(S))
  {
    hide LocksOk, WakesOk, Lists, Sched, SameSync, OneRuns;
    SameSyncLocks(S, Sched(S));
    SameSyncWakes(S, Sched(S));
  }

  /** thread_block up to its call of schedule. */
  lemma StopLists(S: Sys, st: Stat)
    requires Lists(S) && OneRuns(S) && Cur(S).pc == Out && st in {Blocked, Hanging, Waiting} && (S.current == S.idle ==> st == Blocked)
    ensures Lists(SetStat(S, S.current, st)) && SameSync(S, SetStat(S, S.current, st))
  {
    hide NoDup;
    var S' := SetStat(S, S.current, st);
    ReadySame(S.thr, S'.thr, S.ready);
    SameSyncLists(S, S');
    forall t | t in S'.thr ensures ThreadOk(S', t) { assert ThreadOk(S, t); }
  }

  ghost function ToBack(S: Sys): Sys
    requires OneRuns(S)
  {
    SetStat(S, S.current, Ready).(ready := S.ready + [S.current])
  }

  /** thread_yield up to its call of schedule. */
  lemma ToBackLists(S: Sys)
    requires Lists(S) && OneRuns(S) && Cur(S).pc == Out
    ensures Lists(ToBack(S)) && SameSync(S, ToBack(S))
  {
    hide NoDup, ReadyOk, AllWaitersOk, ThreadsOk;
    var S' := ToBack(S);
    ReadyPlus(S.thr, S.ready, S.current, S'.thr[S.current]);
    SameSyncLists(S, S');
    TicksOk(S);
    SameSyncThreads(S, S');
  }

  /** One turn of the loop of sema_down. */
  ghost function TryDown(S: Sys, s: nat): Sys
    requires Lists(S) && OneRuns(S) && s in S.sema && S.current != S.idle
  {
    if S.sema[s].value == 0 then
      SleepOnLists(S, s);
      Sched(SleepOn(S, s))
    else
      Take(S, s)
  }

  lemma TryDownKeeps(S: Sys, s: nat)
    requires Inv(S) && s in S.sema && MayDown(S, s) && S.current != S.idle
    ensures Inv(TryDown(S, s))
  {
    hide Lists, LocksOk, WakesOk, SleepOn, Take, MayDown, Sched;
    if S.sema[s].value == 0 {
      SleepOnLists(S, s);
      SleepOnKeeps(S, s);
      SchedKeeps(SleepOn(S, s));
    } else {
      TakeLists(S, s);
      TakeKeeps(S, s);
    }
  }

  function Less(n: nat): nat { if n == 0 then 0 else n - 1 }

  datatype Effect = Effect(pc: Pc, lock: Lock, depth: nat)

  /** One statement of lock_acquire or lock_release on the fields of lock `l`. */
  ghost function Statement(pc: Pc, k: Lock, me: Tid, depth: nat): Effect {
    match pc
    case AcqSet(l) => Effect(AcqInc(l), k.(holder := Some(me)), depth)
    case AcqInc(l) => Effect(Out, k.(repeat := k.repeat + 1), depth + 1)
    case RelDec(l) => Effect(Out, k.(repeat := Less(k.repeat)), Less(depth))
    case RelClear(l) => Effect(RelZero(l), k.(holder := None), Less(depth))
    case RelZero(l) => Effect(RelUp(l), k.(repeat := 0), depth)
    case _ => Effect(Out, k, depth)
  }

  lemma StatementOk(pc: Pc, l: nat, k: Lock, me: Tid, depth: nat)
    requires pc in {AcqSet(l), AcqInc(l), RelDec(l), RelClear(l), RelZero(l)}
    requires OwnerOk(RoleIn(pc, l), k, me, depth)
    ensures var e := Statement(pc, k, me, depth);
            OwnerOk(RoleIn(e.pc, l), e.lock, me, e.depth) && (e.pc.Out? || (!e.pc.Retry? && e.pc.l == l))
  {
  }

  ghost function MoveOn(S: Sys, l: nat): Sys
    requires OneRuns(S) && l in S.lock
  {
    var e := Statement(Cur(S).pc, S.lock[l], S.current, Depth(S, S.current, l));
    Move(S, l, e.pc, e.lock, e.depth)
  }

  /** The next statement inside the lock code. */
  ghost function GoOn(S: Sys): Sys
    requires Lists(S) && OneRuns(S) && !Cur(S).pc.Out? && S.lock.Keys <= S.sema.Keys
  {
    InCodeOk(S);
    var pc := Cur(S).pc;
    if pc.Retry? then TryDown(S, pc.s)
    else if pc.AcqDown? then TryDown(S, pc.l)
    else if pc.RelUp? then GiveBack(S, pc.l)
    else MoveOn(S, pc.l)
  }

  lemma InCodeOk(S: Sys)
    requires Lists(S) && OneRuns(S) && !Cur(S).pc.Out?
    ensures S.current != S.idle
    ensures if Cur(S).pc.Retry? then Cur(S).pc.s in S.sema else Cur(S).pc.l in S.lock
  {
    hide ReadyOk, AllWaitersOk;
    assert ThreadOk(S, S.current);
  }

  lemma MoveKeeps(S: Sys, l: nat, pc: Pc, k: Lock, depth: nat)
    requires Inv(S) && S.current != S.idle && l in S.lock && l in S.own
    requires Cur(S).pc.Out? || (!Cur(S).pc.Retry? && Cur(S).pc.l == l)
    requires pc.Out? || (!pc.Retry? && pc.l == l)
    requires MoveOk(S, l, pc, k, depth)
    ensures Inv(Move(S, l, pc, k, depth))
  {
    var S' := Move(S, l, pc, k, depth);
    assert Advances(S, S', pc);
    assert LockOk(S, l);
    hide LocksOk, WakesOk, Lists, Advances, LockOk, MoveOk;
    AdvanceLists(S, S', pc);
    AdvanceWakes(S, S', pc);
    MoveLocks(S, l, pc, k, depth);
  }

  lemma GiveBackKeeps(S: Sys, l: nat)
    requires Inv(S) && S.current != S.idle && l in S.lock && Cur(S).pc == RelUp(l)
    requires l in S.own && S.own[l] == Some(S.current) && l in S.sema && S.sema[l].value == 0
    ensures Inv(GiveBack(S, l))
  {
    var R := Raise(S, l);
    hide LocksOk, WakesOk, Lists;
    GiveBackLocks(S, l);
    RaiseLists(S, l);
    RaiseWakes(S, l);
    CurAfterRaise(S, l);
    assert Advances(R, GiveBack(S, l), Out);
    AdvanceLists(R, GiveBack(S, l), Out);
    AdvanceWakes(R, GiveBack(S, l), Out);
  }

  lemma CurAfterRaise(S: Sys, l: nat)
    requires Lists(S) && OneRuns(S) && l in S.sema && OneRuns(Raise(S, l))
    ensures Cur(Raise(S, l)).pc == Cur(S).pc && Raise(S, l).idle == S.idle && Raise(S, l).current == S.current
  {
  }

  /** A thread that stands past the semaphore of a lock owns it, and finds the fields it left. */
  lemma OwnerHere(S: Sys, l: nat)
    requires Inv(S) && l in S.lock && (RoleIn(Cur(S).pc, l) !in {Outside, Wants} || Depth(S, S.current, l) > 0)
    ensures l in S.own && l in S.sema && S.own[l] == Some(S.current) && S.sema[l].value == 0
    ensures OwnerOk(RoleIn(Cur(S).pc, l), S.lock[l], S.current, Depth(S, S.current, l))
  {
    assert LockOk(S, l);
    hide RoleIn, OwnerOk;
    InsideOwns(S, l, S.current);
  }

  lemma LocksHaveSemas(S: Sys)
    requires LocksOk(S)
    ensures S.lock.Keys <= S.sema.Keys
  {
    forall l | l in S.lock ensures l in S.sema {
      assert LockOk(S, l);
    }
  }

  lemma MoveOnKeeps(S: Sys, l: nat)
    requires Inv(S) && S.current != S.idle && l in S.lock
    requires Cur(S).pc in {AcqSet(l), AcqInc(l), RelDec(l), RelClear(l), RelZero(l)}
    ensures Inv(MoveOn(S, l))
  {
    OwnerHere(S, l);
    hide Inv, LocksOk, WakesOk, Lists, Move, OwnerOk, RoleIn, Statement;
    StatementOk(Cur(S).pc, l, S.lock[l], S.current, Depth(S, S.current, l));
    var e := Statement(Cur(S).pc, S.lock[l], S.current, Depth(S, S.current, l));
    MoveKeeps(S, l, e.pc, e.lock, e.depth);
  }

  lemma GoKeeps(S: Sys)
    requires Inv(S) && !Cur(S).pc.Out? && S.lock.Keys <= S.sema.Keys
    ensures Inv(GoOn(S))
  {
    InCodeOk(S);
    hide LocksOk, WakesOk, Lists, MoveOn, TryDown, GiveBack, LockOk, Inv;
    InvRuns(S);
    var pc := Cur(S).pc;
    if pc.Retry? {
      TryDownKeeps(S, pc.s);
    } else if pc.AcqDown? {
      TryDownKeeps(S, pc.l);
    } else if pc.RelUp? {
      OwnerHere(S, pc.l);
      GiveBackKeeps(S, pc.l);
    } else {
      MoveOnKeeps(S, pc.l);
    }
  }

  lemma InvRuns(S: Sys)
    requires Inv(S)
    ensures OneRuns(S) && Lists(S)
  {
  }

  /** The effect of a step. */
  ghost function After(S: Sys, e: Step): Sys
    requires Inv(S) && Enabled(S, e)
  {
    LocksHaveSemas(S);
    match e
    case Timer => if Cur(S).ticks == 0 then Sched(S) else Tick(S)
    case Go => GoOn(S)
    case Acquire(l) => SetPc(S, if S.lock[l].holder == Some(S.current) then AcqInc(l) else AcqDown(l))
    case Release(l) => SetPc(S, if S.lock[l].repeat > 1 then RelDec(l) else RelClear(l))
    case Down(s) => TryDown(S, s)
    case Up(s) => Raise(S, s)
    case Block(st) => StopLists(S, st); Sched(SetStat(S, S.current, st))
    case Unblock(t) => Wake(S, t)
    case Yield => ToBackLists(S); Sched(ToBack(S))
    case Spawn(t, prio) => Start(S, t, prio)
    case Exit => RemoveLists(S, S.current); Sched(Remove(S, S.current))
    case Reap(t) => Remove(S, t)
  }

  lemma EnterKeeps(S: Sys, l: nat, pc: Pc)
    requires Inv(S) && S.current != S.idle && Cur(S).pc.Out? && l in S.lock
    requires if S.lock[l].holder == Some(S.current)
             then pc == AcqInc(l) || (Depth(S, S.current, l) > 0 && pc == (if S.lock[l].repeat > 1 then RelDec(l) else RelClear(l)))
             else pc == AcqDown(l)
    ensures Inv(SetPc(S, pc))
  {
    assert LockOk(S, l);
    var d := Depth(S, S.current, l);
    HolderOwns(S, l);
    hide LocksOk, WakesOk, Lists, LockOk;
    assert Advances(S, SetPc(S, pc), pc);
    AdvanceLists(S, SetPc(S, pc), pc);
    AdvanceWakes(S, SetPc(S, pc), pc);
    EnterLocks(S, l, pc);
  }

  /** The holder field tells the owner the truth: a thread outside the lock code is the holder iff it owns
      the lock, iff its nesting depth is positive; and the count is that depth. */
  lemma HolderOwns(S: Sys, l: nat)
    requires Inv(S) && Cur(S).pc.Out? && l in S.lock
    ensures l in S.own && (S.lock[l].holder == Some(S.current) <==> S.own[l] == Some(S.current))
    ensures S.lock[l].holder == Some(S.current) <==> Depth(S, S.current, l) > 0
    ensures S.lock[l].holder == Some(S.current) ==> S.lock[l].repeat == Depth(S, S.current, l)
  {
    assert LockOk(S, l);
    if S.own[l] != Some(S.current) { assert NotInside(S, l, S.current); }
  }

  lemma EnterLocks(S: Sys, l: nat, pc: Pc)
    requires LocksOk(S) && OneRuns(S) && Cur(S).pc.Out? && l in S.lock && l in S.own
    requires S.lock[l].holder == Some(S.current) <==> S.own[l] == Some(S.current)
    requires S.lock[l].holder == Some(S.current) ==> S.lock[l].repeat == Depth(S, S.current, l)
    requires if S.lock[l].holder == Some(S.current)
             then pc == AcqInc(l) || (Depth(S, S.current, l) > 0 && pc == (if S.lock[l].repeat > 1 then RelDec(l) else RelClear(l)))
             else pc == AcqDown(l)
    ensures LocksOk(SetPc(S, pc))
  {
    var S' := SetPc(S, pc);
    forall m | m in S'.lock && m != l ensures LockOk(S', m) {
      assert LockOk(S, m);
      hide NotInside, OwnedBy;
      LockFrame(S, S', m);
    }
    assert LockOk(S, l);
    forall t: Tid | S'.own[l] != Some(t) ensures NotInside(S', l, t) {
      assert NotInside(S, l, t);
    }
  }

  lemma SameSyncInv(S: Sys, S': Sys)
    requires Inv(S) && Lists(S') && SameSync(S, S')
    ensures LocksOk(S') && WakesOk(S') && (OneRuns(S') ==> Inv(S'))
  {
    hide LocksOk, WakesOk, Lists, SameSync;
    SameSyncLocks(S, S');
    SameSyncWakes(S, S');
  }

  lemma ThreadFacts(S: Sys, t: Tid)
    requires Lists(S) && t in S.thr && S.thr[t].stat in {Hanging, Waiting}
    ensures S.thr[t].pc == Out && t != S.idle
  {
    hide ReadyOk, AllWaitersOk;
    assert ThreadOk(S, t);
  }

  /** Every step of every thread keeps the invariant. */
  lemma StepKeeps(S: Sys, e: Step)
    requires Inv(S) && Enabled(S, e)
    ensures Inv(After(S, e))
  {
    hide LocksOk, WakesOk, Lists, LockOk, Sched, GoOn, TryDown, Raise, Move, SameSync, NoLocks, Depth, Inv;
    InvRuns(S);
    InvParts(S);
    match e {
      case Timer => if Cur(S).ticks == 0 { SchedKeeps(S); } else { TickKeeps(S); }
      case Go => LocksHaveSemas(S); GoKeeps(S);
      case Acquire(l) => EnterKeeps(S, l, if S.lock[l].holder == Some(S.current) then AcqInc(l) else AcqDown(l));
      case Release(l) => HolderOwns(S, l); EnterKeeps(S, l, if S.lock[l].repeat > 1 then RelDec(l) else RelClear(l));
      case Down(s) => TryDownKeeps(S, s);
      case Up(s) => RaiseLists(S, s); RaiseWakes(S, s); RaiseLocks(S, s); InvFrom(Raise(S, s));
      case Block(st) => StopLists(S, st); SameSyncInv(S, SetStat(S, S.current, st)); SchedKeeps(SetStat(S, S.current, st));
      case Unblock(t) => WakeLists(S, t); SameSyncInv(S, Wake(S, t)); StillRuns(S, t);
      case Yield => ToBackLists(S); SameSyncInv(S, ToBack(S)); SchedKeeps(ToBack(S));
      case Spawn(t, prio) => StartKeeps(S, t, prio); StartSyncKeeps(S, t, prio); InvFrom(Start(S, t, prio));
      case Exit => RemoveLists(S, S.current); RemoveSyncKeeps(S, S.current); SchedKeeps(Remove(S, S.current));
      case Reap(t) => ThreadFacts(S, t); RemoveLists(S, t); RemoveSyncKeeps(S, t); InvFrom(Remove(S, t));
    }
  }

  lemma StillRuns(S: Sys, t: Tid)
    requires OneRuns(S) && t in S.thr && S.thr[t].stat != Running
    ensures OneRuns(Wake(S, t))
  {
  }

  lemma InvParts(S: Sys)
    requires Inv(S)
    ensures LocksOk(S) && WakesOk(S)
  {
  }

  lemma InvFrom(S: Sys)
    requires Lists(S) && OneRuns(S) && LocksOk(S) && WakesOk(S)
    ensures Inv(S)
  {
  }

  // ---- runs ----

  /** The machine as thread_init leaves it: main runs, init and idle are ready. */
  ghost predicate Boot(S: Sys) {
    exists main, init, idle: Tid, prio: nat ::
      main != init && init != idle && idle != main
      && S.thr == map[main := Thread(Running, 31, 31, Out), init := Thread(Ready, prio, prio, Out), idle := Thread(Ready, 10, 10, Out)]
      && S.ready == [init, idle] && S.current == main && S.idle == idle && Unused(S)
  }

  /** sema_init and lock_init: locks are free, nobody waits. */
  ghost predicate Unused(S: Sys) {
    && S.depth == map[] && S.pidLock in S.lock
    && (forall s :: s in S.sema ==> S.sema[s].value <= 1 && S.sema[s].waiters == [])
    && (forall l :: l in S.lock ==> S.lock[l] == Lock(None, 0) && l in S.own && S.own[l] == None && l in S.sema && S.sema[l].value == 1)
  }

  lemma BootInv(S: Sys)
    requires Boot(S)
    ensures Inv(S)
  {
    assert Lists(S) by {
      assert ReadyOk(S.thr, S.ready);
      assert AllWaitersOk(S);
    }
    forall l | l in S.lock ensures LockOk(S, l) {
      forall t: Tid ensures NotInside(S, l, t) { }
    }
  }

  /** `run` is a sequence of steps that can happen one after the other from S; `states` are the states met. */
  ghost predicate IsRun(states: seq<Sys>, run: seq<Step>) {
    && |states| == |run| + 1
    && (forall i :: 0 <= i < |run| ==> Inv(states[i]) ==> StepTo(states[i], run[i], states[i + 1]))
  }

  ghost predicate StepTo(S: Sys, e: Step, S': Sys)
    requires Inv(S)
  {
    Enabled(S, e) && Interleaves(S, e) && S' == After(S, e)
  }

  /** The pid lock is taken and released inside Spawn, Exit and Reap only: alloc_pid and release_pid run with interrupts
      off, in system calls, in thread_exit and in process_execute, or before interrupts are on. */
  ghost predicate Interleaves(S: Sys, e: Step) {
    e.Acquire? || e.Release? ==> e.l != S.pidLock
  }

  lemma RunStep(states: seq<Sys>, run: seq<Step>, i: nat)
    requires IsRun(states, run) && i < |run| && Inv(states[i])
    ensures Enabled(states[i], run[i]) && Interleaves(states[i], run[i]) && states[i + 1] == After(states[i], run[i])
  {
    hide Inv, After, Enabled, Interleaves;
    assert StepTo(states[i], run[i], states[i + 1]);
  }

  /** Safety over every run: from a state that satisfies the invariant every state met satisfies it. */
  lemma {:induction false} RunKeeps(states: seq<Sys>, run: seq<Step>, n: nat)
    requires IsRun(states, run) && Inv(states[0]) && n <= |run|
    ensures Inv(states[n])
  {
    hide Inv, After, Enabled, StepTo;
    if n > 0 {
      RunKeeps(states, run, n - 1);
      RunStep(states, run, n - 1);
      StepKeeps(states[n - 1], run[n - 1]);
    }
  }

  // ---- what the invariant says ----

  /** Position `i` of a list holds the tag of `t`. */
  ghost predicate OnList(q: seq<Tid>, i: int, t: Tid) {
    0 <= i < |q| && q[i] == t
  }

  /** A tag is on at most one list, at most once: READY threads on the ready list, sleepers of a semaphore on its
      waiters, and the running thread, alone in that state, on none. */
  lemma OneListPerTag(S: Sys, t: Tid)
    requires Inv(S)
    ensures t in S.ready <==> t in S.thr && S.thr[t].stat == Ready
    ensures forall i, j :: OnList(S.ready, i, t) && OnList(S.ready, j, t) ==> i == j
    ensures forall s :: s in S.sema ==> (t in S.sema[s].waiters <==> t in S.thr && S.thr[t].stat == Blocked && S.thr[t].pc == Retry(s))
    ensures forall s, i, j :: s in S.sema && OnList(S.sema[s].waiters, i, t) && OnList(S.sema[s].waiters, j, t) ==> i == j
    ensures forall s, r :: s in S.sema && r in S.sema && t in S.sema[s].waiters && t in S.sema[r].waiters ==> s == r
    ensures t in S.thr ==> (S.thr[t].stat == Running <==> t == S.current)
    ensures t in S.thr && S.thr[t].stat == Running ==> t !in S.ready && forall s :: s in S.sema ==> t !in S.sema[s].waiters
  {
    hide LocksOk, WakesOk;
    assert IsReady(S.thr, t) <==> t in S.ready;
    forall s | s in S.sema
      ensures NoDup(S.sema[s].waiters) && (t in S.sema[s].waiters <==> Sleeps(S.thr, t, s))
    {
      assert WaitersOk(S.thr, s, S.sema[s].waiters);
    }
  }

  /** At most one thread is inside a lock, and the lock's count is that thread's nesting depth whenever the
      thread is not in the middle of lock_acquire or lock_release. */
  lemma MutualExclusion(S: Sys, l: nat, t: Tid, u: Tid)
    requires Inv(S) && l in S.lock && Depth(S, t, l) > 0 && t in S.thr && u in S.thr
    ensures u != t ==> Depth(S, u, l) == 0 && RoleIn(S.thr[u].pc, l) in {Outside, Wants}
    ensures S.lock[l] == Lock(Some(t), Depth(S, t, l)) && l in S.sema && S.sema[l].value == 0
  {
    assert LockOk(S, l);
    InsideOwns(S, l, t);
    if u != t { assert NotInside(S, l, u); }
  }

  /** No wakeup is lost: a semaphore with value 1 and threads waiting has a thread that is about to try again,
      and that thread is running or on the ready list. */
  lemma NoLostWakeup(S: Sys, s: nat)
    requires Inv(S) && s in S.sema && S.sema[s].value == 1 && S.sema[s].waiters != []
    ensures exists t :: t in S.thr && S.thr[t].pc == Retry(s) && (t == S.current || t in S.ready)
  {
    assert WakeOk(S, s);
    var t :| Woken(S.thr, t, s);
    assert ThreadOk(S, t);
    assert IsReady(S.thr, t) <==> t in S.ready;
    hide LocksOk, WakesOk, AllWaitersOk;
  }

  // ---- the assertions of the source ----

  /** schedule: the running thread is not on the ready list, the idle thread can be unblocked when it is
      needed, and the list that is popped is not empty. */
  ghost predicate ScheduleAsserts(S: Sys)
    requires S.idle in S.thr
  {
    && (OneRuns(S) ==> S.current !in S.ready)
    && (Requeue(S).ready == [] ==> S.thr[S.idle].stat in {Blocked, Hanging, Waiting})
    && WakeIdle(Requeue(S)).ready != []
  }

  lemma ScheduleAssertsHold(S: Sys)
    requires Lists(S)
    ensures ScheduleAsserts(S)
  {
    hide ThreadsOk, AllWaitersOk, NoDup;
    if OneRuns(S) {
      assert S.current in S.ready ==> IsReady(S.thr, S.current);
    } else if S.ready == [] {
      IdleIsBlocked(S);
    }
  }

  ghost predicate DownAsserts(S: Sys, s: nat)
    requires s in S.sema && OneRuns(S) && S.idle in S.thr
  {
    if S.sema[s].value == 0 then S.current !in S.sema[s].waiters && ScheduleAsserts(SleepOn(S, s))
    else S.sema[s].value - 1 == 0
  }

  ghost predicate UpAsserts(S: Sys, s: nat)
    requires s in S.sema
  {
    && S.sema[s].value == 0
    && (S.sema[s].waiters != [] ==>
          var w := S.sema[s].waiters[0]; w in S.thr && S.thr[w].stat in {Blocked, Hanging, Waiting} && w !in S.ready)
    && Raise(S, s).sema[s].value == 1
  }

  /** The ASSERTs that a step evaluates. */
  ghost predicate Asserts(S: Sys, e: Step)
    requires Inv(S) && Enabled(S, e)
  {
    match e
    case Timer => Cur(S).ticks == 0 ==> ScheduleAsserts(S)
    case Go => StatementAsserts(S, Cur(S).pc)
    case Acquire(l) => true
    case Release(l) => S.lock[l].holder == Some(S.current) && (S.lock[l].repeat > 1 || S.lock[l].repeat == 1)
    case Down(s) => DownAsserts(S, s)
    case Up(s) => UpAsserts(S, s)
    case Block(st) => st in {Blocked, Hanging, Waiting} && ScheduleAsserts(SetStat(S, S.current, st))
    case Unblock(t) => S.thr[t].stat in {Blocked, Hanging, Waiting} && t !in S.ready
    case Yield => S.current !in S.ready && ScheduleAsserts(ToBack(S))
    case Spawn(t, prio) => t !in S.ready
    case Exit => ScheduleAsserts(Remove(S, S.current))
    case Reap(t) => true
  }

  ghost predicate StatementAsserts(S: Sys, pc: Pc)
    requires Lists(S) && OneRuns(S)
  {
    && (pc.Retry? ==> pc.s in S.sema && DownAsserts(S, pc.s))
    && (pc.AcqDown? ==> pc.l in S.sema && DownAsserts(S, pc.l))
    && (pc.AcqSet? ==> pc.l in S.lock && S.lock[pc.l].repeat == 0)
    && (pc.RelUp? ==> pc.l in S.sema && UpAsserts(S, pc.l))
  }

  lemma DownAssertsHold(S: Sys, s: nat)
    requires Inv(S) && s in S.sema && S.current != S.idle
    ensures DownAsserts(S, s)
  {
    assert WakeOk(S, s);
    if S.sema[s].value == 0 {
      SleepOnLists(S, s);
      ScheduleAssertsHold(SleepOn(S, s));
      OneListPerTag(S, S.current);
    }
  }

  lemma UpAssertsHold(S: Sys, s: nat)
    requires Lists(S) && s in S.sema && S.sema[s].value == 0
    ensures UpAsserts(S, s)
  {
    if S.sema[s].waiters != [] {
      FirstWaiterSleeps(S, s);
    }
  }

  lemma StatementAssertsHold(S: Sys)
    requires Inv(S) && !Cur(S).pc.Out?
    ensures StatementAsserts(S, Cur(S).pc)
  {
    InCodeOk(S);
    LocksHaveSemas(S);
    var pc := Cur(S).pc;
    if pc.Retry? {
      DownAssertsHold(S, pc.s);
    } else if pc.AcqDown? {
      DownAssertsHold(S, pc.l);
    } else {
      OwnerHere(S, pc.l);
      hide Inv, LocksOk, WakesOk, UpAsserts;
      if pc.RelUp? { UpAssertsHold(S, pc.l); }
    }
  }

  /** No ASSERT of schedule, thread_block, thread_unblock, thread_yield, thread_start, sema_down, sema_up,
      lock_acquire and lock_release can fail. */
  lemma AssertsHold(S: Sys, e: Step)
    requires Inv(S) && Enabled(S, e)
    ensures Asserts(S, e)
  {
    hide LocksOk, WakesOk, Lists, LockOk, ScheduleAsserts, UpAsserts, DownAsserts, StatementAsserts, Inv, NoLocks, Depth;
    InvRuns(S);
    InvParts(S);
    match e {
      case Timer => ScheduleAssertsHold(S);
      case Go => StatementAssertsHold(S);
      case Acquire(l) =>
      case Release(l) => HolderOwns(S, l);
      case Down(s) => DownAssertsHold(S, s);
      case Up(s) => UpAssertsHold(S, s);
      case Block(st) => StopLists(S, st); ScheduleAssertsHold(SetStat(S, S.current, st));
      case Unblock(t) => OneListPerTag(S, t);
      case Yield => OneListPerTag(S, S.current); ToBackLists(S); ScheduleAssertsHold(ToBack(S));
      case Spawn(t, prio) => OneListPerTag(S, t);
      case Exit => RemoveLists(S, S.current); ScheduleAssertsHold(Remove(S, S.current));
      case Reap(t) =>
    }
  }

  // ---- the pid lock ----

  /** The pid lock is free, nobody stands inside it or waits for it. */
  ghost predicate PidFree(S: Sys) {
    && S.pidLock in S.lock && S.pidLock in S.sema && S.pidLock in S.own
    && S.lock[S.pidLock] == Lock(None, 0) && S.sema[S.pidLock] == Sema(1, []) && S.own[S.pidLock] == None
    && (forall t :: t in S.thr ==> RoleIn(S.thr[t].pc, S.pidLock) == Outside)
    && (forall t: Tid :: (t, S.pidLock) !in S.depth)
  }

  lemma BootPidFree(S: Sys)
    requires Boot(S)
    ensures PidFree(S)
  {
    assert S.sema[S.pidLock].waiters == [];
  }

  lemma PidIs(S: Sys)
    requires PidFree(S)
    ensures S.pidLock in S.lock && S.pidLock in S.sema && S.pidLock in S.own
    ensures forall t :: t in S.thr ==> RoleIn(S.thr[t].pc, S.pidLock) == Outside
  {
    hide RoleIn;
  }

  lemma PidSync(S: Sys, S': Sys)
    requires PidFree(S) && SameSync(S, S')
    ensures PidFree(S')
  {
    hide RoleIn;
  }

  lemma PidSleep(S: Sys, s: nat)
    requires PidFree(S) && OneRuns(S) && s in S.sema && s != S.pidLock
    ensures PidFree(SleepOn(S, s))
  {
  }

  lemma PidTake(S: Sys, s: nat)
    requires PidFree(S) && OneRuns(S) && s in S.sema && s != S.pidLock && S.sema[s].value > 0
    ensures PidFree(Take(S, s))
  {
  }

  lemma PidTryDown(S: Sys, s: nat)
    requires PidFree(S) && Lists(S) && OneRuns(S) && s in S.sema && s != S.pidLock && S.current != S.idle
    ensures PidFree(TryDown(S, s))
  {
    hide PidFree, Lists, Sched, SleepOn, Take, SameSync, OneRuns;
    RunsIn(S);
    if S.sema[s].value == 0 {
      SleepOnLists(S, s);
      PidSleep(S, s);
      PidSync(SleepOn(S, s), Sched(SleepOn(S, s)));
    } else {
      PidTake(S, s);
    }
  }

  lemma RunsIn(S: Sys)
    requires OneRuns(S)
    ensures S.current in S.thr
  {
  }

  lemma PidRaise(S: Sys, s: nat)
    requires PidFree(S) && s in S.sema && s != S.pidLock
    ensures PidFree(Raise(S, s))
  {
    hide RoleIn;
  }

  lemma PidGiveBack(S: Sys, l: nat)
    requires PidFree(S) && OneRuns(S) && l in S.sema && l != S.pidLock
    ensures PidFree(GiveBack(S, l))
  {
    PidRaise(S, l);
  }

  lemma PidMoveOn(S: Sys, l: nat)
    requires PidFree(S) && OneRuns(S) && l in S.lock && l != S.pidLock && (Cur(S).pc.Out? || (!Cur(S).pc.Retry? && Cur(S).pc.l == l))
    ensures PidFree(MoveOn(S, l))
  {
    var e := Statement(Cur(S).pc, S.lock[l], S.current, Depth(S, S.current, l));
    assert RoleIn(e.pc, S.pidLock) == Outside;
  }

  lemma PidGo(S: Sys)
    requires Inv(S) && PidFree(S) && !Cur(S).pc.Out? && S.lock.Keys <= S.sema.Keys
    ensures PidFree(GoOn(S))
  {
    InCodeOk(S);
    PidIs(S);
    assert RoleIn(Cur(S).pc, S.pidLock) == Outside;
    hide LocksOk, WakesOk, Lists, MoveOn, TryDown, GiveBack, PidFree, Inv;
    InvRuns(S);
    var pc := Cur(S).pc;
    if pc.Retry? {
      PidTryDown(S, pc.s);
    } else if pc.AcqDown? {
      PidTryDown(S, pc.l);
    } else if pc.RelUp? {
      PidGiveBack(S, pc.l);
    } else {
      PidMoveOn(S, pc.l);
    }
  }

  lemma PidEnter(S: Sys, pc: Pc)
    requires PidFree(S) && OneRuns(S) && RoleIn(pc, S.pidLock) == Outside
    ensures PidFree(SetPc(S, pc))
  {
    hide RoleIn;
  }

  lemma PidRemove(S: Sys, t: Tid)
    requires PidFree(S)
    ensures PidFree(Remove(S, t))
  {
    hide RoleIn;
  }

  lemma PidStart(S: Sys, t: Tid, prio: nat)
    requires PidFree(S)
    ensures PidFree(Start(S, t, prio))
  {
  }

  lemma OtherLock(l: nat, pidLock: nat)
    requires l != pidLock
    ensures forall pc :: pc in {AcqInc(l), AcqDown(l), RelDec(l), RelClear(l)} ==> RoleIn(pc, pidLock) == Outside
  {
  }

  /** No step of a thread that may be preempted touches the pid lock, so it stays free. */
  lemma PidStays(S: Sys, e: Step)
    requires Inv(S) && PidFree(S) && Enabled(S, e) && Interleaves(S, e)
    ensures PidFree(After(S, e))
  {
    hide LocksOk, WakesOk, Lists, LockOk, Sched, GoOn, TryDown, Raise, Move, SameSync, NoLocks, Depth, Inv, PidFree, RoleIn;
    InvRuns(S);
    InvParts(S);
    PidIs(S);
    match e {
      case Timer => if Cur(S).ticks == 0 { PidSync(S, Sched(S)); } else { PidTick(S); }
      case Go => LocksHaveSemas(S); PidGo(S);
      case Acquire(l) => OtherLock(l, S.pidLock); PidEnter(S, if S.lock[l].holder == Some(S.current) then AcqInc(l) else AcqDown(l));
      case Release(l) => OtherLock(l, S.pidLock); PidEnter(S, if S.lock[l].repeat > 1 then RelDec(l) else RelClear(l));
      case Down(s) => PidTryDown(S, s);
      case Up(s) => PidRaise(S, s);
      case Block(st) => StopLists(S, st); PidSync(S, SetStat(S, S.current, st)); PidSync(SetStat(S, S.current, st), Sched(SetStat(S, S.current, st)));
      case Unblock(t) => WakeLists(S, t); PidSync(S, Wake(S, t));
      case Yield => ToBackLists(S); PidSync(S, ToBack(S)); PidSync(ToBack(S), Sched(ToBack(S)));
      case Spawn(t, prio) => PidStart(S, t, prio);
      case Exit => RemoveLists(S, S.current); PidRemove(S, S.current); PidSync(Remove(S, S.current), Sched(Remove(S, S.current)));
      case Reap(t) => PidRemove(S, t);
    }
  }

  lemma PidTick(S: Sys)
    requires PidFree(S) && OneRuns(S) && Cur(S).ticks > 0
    ensures PidFree(Tick(S))
  {
    hide RoleIn;
  }

  /** In every state of every interleaving the pid lock is free. */
  lemma {:induction false} RunPidFree(states: seq<Sys>, run: seq<Step>, n: nat)
    requires IsRun(states, run) && Inv(states[0]) && PidFree(states[0]) && n <= |run|
    ensures PidFree(states[n])
  {
    hide Inv, After, Enabled, StepTo, PidFree, Interleaves;
    if n > 0 {
      RunPidFree(states, run, n - 1);
      RunKeeps(states, run, n - 1);
      RunStep(states, run, n - 1);
      PidStays(states[n - 1], run[n - 1]);
    }
  }

  /** The state after the first `n` of the statements that alloc_pid and release_pid run on the pid lock. */
  ghost function Trip(S: Sys, n: nat): Sys
    requires PidFree(S) && S.current in S.thr
  {
    var l := S.pidLock;
    var me := S.current;
    if n == 1 then SetPc(S, AcqDown(l))
    else if n == 2 then Inside(S, AcqSet(l), Lock(None, 0), 0)
    else if n == 3 then Inside(S, AcqInc(l), Lock(Some(me), 0), 0)
    else if n == 4 then Inside(S, Out, Lock(Some(me), 1), 1)
    else if n == 5 then Inside(S, RelClear(l), Lock(Some(me), 1), 1)
    else if n == 6 then Inside(S, RelZero(l), Lock(None, 1), 0)
    else if n == 7 then Inside(S, RelUp(l), Lock(None, 0), 0)
    else S
  }

  /** The pid lock's semaphore is taken by the running thread, which stands at `pc`. */
  ghost function Inside(S: Sys, pc: Pc, k: Lock, depth: nat): Sys
    requires S.current in S.thr
  {
    SetPc(S, pc).(lock := S.lock[S.pidLock := k], sema := S.sema[S.pidLock := Sema(0, [])],
                  own := S.own[S.pidLock := Some(S.current)], depth := WithDepth(S.depth, S.current, S.pidLock, depth))
  }

  /** One statement inside the pid lock. */
  ghost predicate Follows(S: Sys, e: Step, S': Sys) {
    Inv(S) && Enabled(S, e) && S' == After(S, e)
  }

  lemma TripFirst(S: Sys)
    requires Inv(S) && PidFree(S) && S.current in S.thr && S.thr[S.current].pc == Out && S.current != S.idle
    ensures Follows(S, Acquire(S.pidLock), Trip(S, 1))
  {
    hide Lists, LocksOk, WakesOk;
  }

  lemma TripGo(T: Sys, T': Sys)
    requires Inv(T) && T.current in T.thr && !T.thr[T.current].pc.Out? && T.lock.Keys <= T.sema.Keys && GoOn(T) == T'
    ensures Follows(T, Go, T')
  {
    hide Lists, LocksOk, WakesOk, GoOn;
  }

  lemma TripTake(S: Sys)
    requires PidFree(S) && S.current in S.thr && S.current != S.idle && Lists(Trip(S, 1)) && OneRuns(Trip(S, 1)) && Trip(S, 1).lock.Keys <= Trip(S, 1).sema.Keys
    ensures GoOn(Trip(S, 1)) == Trip(S, 2)
  {
    hide Lists;
    InCodeOk(Trip(S, 1));
    NoDepth(S);
    assert S.depth - {(S.current, S.pidLock)} == S.depth;
    assert S.lock[S.pidLock := Lock(None, 0)] == S.lock;
  }

  lemma NoDepth(S: Sys)
    requires PidFree(S)
    ensures (S.current, S.pidLock) !in S.depth
  {
  }

  lemma InsideMoves(S: Sys, pc: Pc, k: Lock, d: nat, pc': Pc, k': Lock, d': nat)
    requires S.current in S.thr
    ensures Move(Inside(S, pc, k, d), S.pidLock, pc', k', d') == Inside(S, pc', k', d')
    ensures Depth(Inside(S, pc, k, d), S.current, S.pidLock) == d
  {
    var l, me := S.pidLock, S.current;
    assert WithDepth(WithDepth(S.depth, me, l, d), me, l, d') == WithDepth(S.depth, me, l, d');
    assert S.lock[l := k][l := k'] == S.lock[l := k'];
    assert S.thr[me := S.thr[me].(pc := pc)][me := S.thr[me].(pc := pc')] == S.thr[me := S.thr[me].(pc := pc')];
  }

  lemma GoMoves(T: Sys, l: nat)
    requires Lists(T) && OneRuns(T) && T.lock.Keys <= T.sema.Keys && l in T.lock
    requires T.thr[T.current].pc in {AcqSet(l), AcqInc(l), RelClear(l), RelZero(l)}
    ensures var e := Statement(T.thr[T.current].pc, T.lock[l], T.current, Depth(T, T.current, l));
            GoOn(T) == Move(T, l, e.pc, e.lock, e.depth)
  {
    InCodeOk(T);
    hide Lists, Move, Depth;
  }

  lemma InsideIs(S: Sys, pc: Pc, k: Lock, d: nat)
    requires S.current in S.thr
    ensures var T := Inside(S, pc, k, d);
            T.current == S.current && T.current in T.thr && T.thr[T.current].pc == pc && S.pidLock in T.lock && T.lock[S.pidLock] == k
  {
    hide WithDepth;
  }

  /** One assignment to a field of the pid lock. */
  lemma InsideGoes(S: Sys, pc: Pc, k: Lock, d: nat)
    requires S.current in S.thr && pc in {AcqSet(S.pidLock), AcqInc(S.pidLock), RelClear(S.pidLock), RelZero(S.pidLock)}
    requires var T := Inside(S, pc, k, d); Lists(T) && OneRuns(T) && T.lock.Keys <= T.sema.Keys
    ensures var e := Statement(pc, k, S.current, d); GoOn(Inside(S, pc, k, d)) == Inside(S, e.pc, e.lock, e.depth)
  {
    var e := Statement(pc, k, S.current, d);
    hide *;
    InsideIs(S, pc, k, d);
    InsideMoves(S, pc, k, d, e.pc, e.lock, e.depth);
    GoMoves(Inside(S, pc, k, d), S.pidLock);
  }

  lemma TripMove(S: Sys, n: nat)
    requires PidFree(S) && S.current in S.thr && (n == 2 || n == 3 || n == 5 || n == 6)
    requires Lists(Trip(S, n)) && OneRuns(Trip(S, n)) && Trip(S, n).lock.Keys <= Trip(S, n).sema.Keys
    ensures GoOn(Trip(S, n)) == Trip(S, n + 1)
  {
    var l, me := S.pidLock, S.current;
    hide Lists, OneRuns, PidFree, Inside, GoOn;
    if n == 2 {
      InsideGoes(S, AcqSet(l), Lock(None, 0), 0);
    } else if n == 3 {
      InsideGoes(S, AcqInc(l), Lock(Some(me), 0), 0);
    } else if n == 5 {
      InsideGoes(S, RelClear(l), Lock(Some(me), 1), 1);
    } else {
      InsideGoes(S, RelZero(l), Lock(None, 1), 0);
    }
  }

  lemma TripRelease(S: Sys)
    requires PidFree(S) && S.current in S.thr && S.current != S.idle && Inv(Trip(S, 4))
    ensures Follows(Trip(S, 4), Release(S.pidLock), Trip(S, 5))
  {
    hide Lists, LocksOk, WakesOk;
  }

  lemma TripUp(S: Sys)
    requires PidFree(S) && S.current in S.thr && S.current != S.idle && S.thr[S.current].pc == Out
    requires Lists(Trip(S, 7)) && OneRuns(Trip(S, 7)) && Trip(S, 7).lock.Keys <= Trip(S, 7).sema.Keys
    ensures GoOn(Trip(S, 7)) == S
  {
    hide Lists;
    InCodeOk(Trip(S, 7));
    NoDepth(S);
    assert S.depth - {(S.current, S.pidLock)} == S.depth;
    assert S.lock[S.pidLock := Lock(None, 0)] == S.lock;
    assert S.sema[S.pidLock := Sema(1, [])] == S.sema && S.own[S.pidLock := None] == S.own;
    assert S.thr[S.current := S.thr[S.current].(pc := Out)] == S.thr;
  }

  lemma StillInv(S: Sys, e: Step, S': Sys)
    requires Follows(S, e, S')
    ensures Inv(S') && OneRuns(S') && Lists(S') && S'.lock.Keys <= S'.sema.Keys && Enabled(S, e) && After(S, e) == S' && Inv(S)
  {
    StepKeeps(S, e);
    hide Lists, LocksOk, WakesOk, OneRuns, After, Enabled;
    InvParts(S');
    LocksHaveSemas(S');
  }

  lemma AtTrips(S: Sys)
    requires PidFree(S) && S.current in S.thr
    ensures forall n: nat :: 1 <= n <= 7 && n != 4 ==> Trip(S, n).current in Trip(S, n).thr && !Trip(S, n).thr[Trip(S, n).current].pc.Out?
  {
    hide WithDepth;
  }

  /** A thread that takes the free pid lock and releases it without being preempted does not wait, and leaves the state
      of every thread, list, semaphore and lock as it found it. */
  lemma PidTrip(S: Sys)
    requires Inv(S) && PidFree(S) && S.current in S.thr && S.thr[S.current].pc == Out && S.current != S.idle
    ensures Follows(S, Acquire(S.pidLock), Trip(S, 1))
    ensures Follows(Trip(S, 1), Go, Trip(S, 2)) && Follows(Trip(S, 2), Go, Trip(S, 3)) && Follows(Trip(S, 3), Go, Trip(S, 4))
    ensures Follows(Trip(S, 4), Release(S.pidLock), Trip(S, 5))
    ensures Follows(Trip(S, 5), Go, Trip(S, 6)) && Follows(Trip(S, 6), Go, Trip(S, 7)) && Follows(Trip(S, 7), Go, S)
  {
    hide *;
    InvRuns(S);
    RunsIn(S);
    TripFirst(S);
    StillInv(S, Acquire(S.pidLock), Trip(S, 1));
    AtTrips(S);
    TripTake(S);
    TripGo(Trip(S, 1), Trip(S, 2));
    StillInv(Trip(S, 1), Go, Trip(S, 2));
    TripMove(S, 2);
    TripGo(Trip(S, 2), Trip(S, 3));
    StillInv(Trip(S, 2), Go, Trip(S, 3));
    TripMove(S, 3);
    TripGo(Trip(S, 3), Trip(S, 4));
    StillInv(Trip(S, 3), Go, Trip(S, 4));
    TripRelease(S);
    StillInv(Trip(S, 4), Release(S.pidLock), Trip(S, 5));
    TripMove(S, 5);
    TripGo(Trip(S, 5), Trip(S, 6));
    StillInv(Trip(S, 5), Go, Trip(S, 6));
    TripMove(S, 6);
    TripGo(Trip(S, 6), Trip(S, 7));
    StillInv(Trip(S, 6), Go, Trip(S, 7));
    TripUp(S);
    TripGo(Trip(S, 7), S);
  }
}
