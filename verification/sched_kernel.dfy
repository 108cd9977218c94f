/** The functions of thread/thread.c, thread/sync.c and device/timer.c on the kernel's own variables.  The
    assertions of the source stand where the source has them. */
module ThreadKernel {
  import opened Basics
  import opened Scheduling
  import opened Synchronisation
  import opened Interleavings
  import opened StepEffects

  class Kernel {
    var thr: map<Tid, Thread>
    var ready: seq<Tid>
    var current: Tid
    const idle: Tid
    const pidLock: nat
    var sema: map<nat, Sema>
    var lock: map<nat, Lock>
    ghost var own: map<nat, Option<Tid>>
    ghost var depth: map<(Tid, nat), nat>

    ghost function State(): Sys
      reads this
    {
      Sys(thr, ready, current, idle, pidLock, sema, lock, own, depth)
    }

    /** schedule */
    method Schedule(ghost S: Sys)
      requires S == State() && Lists(S)
      modifies `thr, `ready, `current
      ensures State() == Sched(S)
    {
      hide Lists, SameSync, Wake, Dispatch;
      RequeueLists(S);
      WakeIdleLists(Requeue(S));
      if current in thr && thr[current].stat == Running {
        assert current !in ready by { NotReady(S, current); }
        thr := thr[current := thr[current].(stat := Ready, ticks := thr[current].prio)];
        ready := ready + [current];
      }
      assert State() == Requeue(S);
      IdleExists(State());
      if ready == [] {
        IdleIsBlocked(Requeue(S));
        ThreadUnblock(idle, Requeue(S));
      }
      assert State() == WakeIdle(Requeue(S));
      Pop(WakeIdle(Requeue(S)));
    }

    /** The end of schedule: list_pop finds a thread. */
    method Pop(ghost S: Sys)
      requires S == State() && Lists(S) && ready != [] && !OneRuns(S)
      modifies `thr, `ready, `current
      ensures S.ready != [] && S.ready[0] in S.thr && State() == Dispatch(S)
    {
      DispatchLists(S);
      hide Lists;
      var next := ready[0];
      ready := ready[1..];
      thr := thr[next := thr[next].(stat := Running)];
      current := next;
    }

    method ThreadUnblock(t: Tid, ghost S: Sys)
      requires S == State() && Lists(S) && t in thr
      requires thr[t].stat in {Blocked, Hanging, Waiting}
      modifies `thr, `ready
      ensures State() == Wake(S, t)
    {
      assert t !in ready by { NotReady(S, t); }
      hide Lists;
      ready := [t] + ready;
      thr := thr[t := thr[t].(stat := Ready)];
    }

    method ThreadBlock(st: Stat, ghost S: Sys)
      requires S == State() && Inv(S) && Enabled(S, Block(st))
      modifies `thr, `ready, `current
      ensures State() == After(S, Block(st)) && Inv(State())
      ensures S.current in S.thr && Hands(S.thr[S.current := S.thr[S.current].(stat := st)], S.ready, idle, State())
      ensures S.current != idle ==> S.current in thr && thr[S.current] == S.thr[S.current].(stat := st) && Gone(State(), S.current)
    {
      hide Lists, LocksOk, WakesOk, Sched, SameSync, OneRuns, Hands, Gone;
      StepKeeps(S, Block(st));
      BlockLeaves(S, st);
      RunsHere(S);
      StopLists(S, st);
      assert st in {Blocked, Hanging, Waiting};
      thr := thr[current := thr[current].(stat := st)];
      Schedule(State());
    }

    method ThreadYield(ghost S: Sys)
      requires S == State() && Inv(S) && Enabled(S, Yield)
      modifies `thr, `ready, `current
      ensures State() == After(S, Yield) && Inv(State())
      ensures S.current in thr && S.current in S.thr && thr[S.current] == S.thr[S.current].(stat := if S.ready == [] then Running else Ready)
      ensures S.ready != [] ==> ready == S.ready[1..] + [S.current] && current == S.ready[0]
      ensures S.ready == [] ==> ready == [] && current == S.current
    {
      hide Lists, LocksOk, WakesOk, Sched, SameSync, OneRuns, Hands;
      StepKeeps(S, Yield);
      YieldLeaves(S);
      RunsHere(S);
      ToBackLists(S);
      assert current !in ready by { NotReady(S, current); }
      ready := ready + [current];
      thr := thr[current := thr[current].(stat := Ready)];
      Schedule(State());
    }

    method IntrTimeHdl(ghost S: Sys)
      requires S == State() && Inv(S) && Enabled(S, Timer)
      modifies `thr, `ready, `current
      ensures State() == After(S, Timer) && Inv(State())
      ensures S.current in S.thr && S.current in thr
      ensures var th := S.thr[S.current];
              if th.ticks > 0 then thr == S.thr[S.current := th.(ticks := th.ticks - 1)] && ready == S.ready && current == S.current
              else && thr[S.current] == th.(stat := if S.ready == [] then Running else Ready, ticks := th.prio)
                   && (S.ready != [] ==> ready == S.ready[1..] + [S.current] && current == S.ready[0])
    {
      hide Lists, LocksOk, WakesOk, Sched, SameSync, OneRuns, Hands;
      StepKeeps(S, Timer);
      TimerLeaves(S);
      RunsHere(S);
      if thr[current].ticks == 0 {
        Schedule(S);
      } else {
        thr := thr[current := thr[current].(ticks := thr[current].ticks - 1)];
      }
    }

    /** One turn of the loop of sema_down, up to the point where another thread runs or the loop is left. */
    method SemaDown(s: nat, ghost S: Sys)
      requires S == State() && Inv(S) && current != idle && s in sema && MayDown(S, s)
      modifies `thr, `ready, `current, `sema, `own
      ensures State() == TryDown(S, s) && Inv(State())
    {
      TryDownKeeps(S, s);
      RunsHere(S);
      hide Inv, Lists, Sched, MayDown, Take, SleepOn;
      if sema[s].value == 0 {
        SemaSleep(s, S);
      } else {
        SemaTake(s, S);
      }
    }

    method SemaSleep(s: nat, ghost S: Sys)
      requires S == State() && Inv(S) && current != idle && s in sema
      modifies `thr, `ready, `current, `sema
      ensures S.current in S.thr && Lists(SleepOn(S, s)) && State() == Sched(SleepOn(S, s))
    {
      RunsHere(S);
      SleepOnLists(S, s);
      NotWaiting(S, s);
      hide Inv, Lists, Sched;
      assert current !in sema[s].waiters;
      sema := sema[s := sema[s].(waiters := sema[s].waiters + [current])];
      thr := thr[current := thr[current].(stat := Blocked, pc := Retry(s))];
      Schedule(State());
    }

    method SemaTake(s: nat, ghost S: Sys)
      requires S == State() && Inv(S) && current != idle && s in sema && sema[s].value > 0
      modifies `thr, `sema, `own
      ensures S.current in S.thr && State() == Take(S, s)
    {
      RunsHere(S);
      ValueAtMostOne(S, s);
      hide Inv, Lists;
      sema := sema[s := sema[s].(value := sema[s].value - 1)];
      assert sema[s].value == 0;
      thr := thr[current := thr[current].(pc := if s in lock then AcqSet(s) else Out)];
      own := if s in lock then own[s := Some(current)] else own;
    }

    method SemaUp(s: nat, ghost S: Sys)
      requires S == State() && Lists(S) && s in sema && sema[s].value == 0
      modifies `thr, `ready, `sema
      ensures State() == Raise(S, s)
    {
      var q := sema[s].waiters;
      if q != [] {
        FirstWaiterSleeps(S, s);
        hide Lists;
        var t := q[0];
        sema := sema[s := sema[s].(waiters := q[1..])];
        assert thr[t].stat in {Blocked, Hanging, Waiting} && t !in ready;
        ready := [t] + ready;
        thr := thr[t := thr[t].(stat := Ready)];
      }
      sema := sema[s := sema[s].(value := sema[s].value + 1)];
      assert sema[s].value == 1;
    }

    /** The first statement of lock_acquire. */
    method LockAcquire(l: nat, ghost S: Sys)
      requires S == State() && Inv(S) && Enabled(S, Acquire(l))
      modifies `thr
      ensures State() == After(S, Acquire(l)) && Inv(State())
    {
      hide Lists, LocksOk, WakesOk, OneRuns;
      StepKeeps(S, Acquire(l));
      RunsHere(S);
      thr := thr[current := thr[current].(pc := if lock[l].holder != Some(current) then AcqDown(l) else AcqInc(l))];
    }

    /** The assertions and the test at the head of lock_release. */
    method LockRelease(l: nat, ghost S: Sys)
      requires S == State() && Inv(S) && Enabled(S, Release(l))
      modifies `thr
      ensures State() == After(S, Release(l)) && Inv(State())
    {
      StepKeeps(S, Release(l));
      HolderOwns(S, l);
      hide Lists, LocksOk, WakesOk, OneRuns;
      RunsHere(S);
      assert lock[l].holder == Some(current);
      if lock[l].repeat > 1 {
        thr := thr[current := thr[current].(pc := RelDec(l))];
      } else {
        assert lock[l].repeat == 1;
        thr := thr[current := thr[current].(pc := RelClear(l))];
      }
    }

    /** The statement at which the current thread stands inside the lock code. */
    method Continue(ghost S: Sys)
      requires S == State() && Inv(S) && Enabled(S, Go)
      modifies this
      ensures State() == After(S, Go) && Inv(State())
    {
      StepKeeps(S, Go);
      LocksHaveSemas(S);
      InCodeOk(S);
      hide Lists, LocksOk, WakesOk, OneRuns, MoveOn, GiveBack, TryDown, Inv, OwnerOk, RoleIn, Depth, MayDown;
      InvRuns(S);
      RunsHere(S);
      var pc := thr[current].pc;
      if pc.Retry? {
        MayDownHere(S, pc.s);
        SemaDown(pc.s, S);
      } else if pc.AcqDown? {
        MayDownHere(S, pc.l);
        SemaDown(pc.l, S);
      } else if pc.RelUp? {
        UpAndLeave(pc.l, S);
      } else {
        OwnerAt(S, pc.l);
        Statement(pc, S);
      }
    }

    /** The sema_up at the end of lock_release. */
    method UpAndLeave(l: nat, ghost S: Sys)
      requires S == State() && Inv(S) && current in thr && thr[current].pc == RelUp(l) && l in sema
      modifies `thr, `ready, `sema, `own
      ensures State() == GiveBack(S, l)
    {
      OwnerAt(S, l);
      RunsHere(S);
      hide Inv, Lists, Raise, OwnerOk, RoleIn, Depth;
      SemaUp(l, S);
      StillHere(S, l);
      thr := thr[current := thr[current].(pc := Out)];
      own := own[l := None];
    }

    /** The plain assignments to the fields of a lock. */
    method Statement(pc: Pc, ghost S: Sys)
      requires S == State() && Inv(S) && current in thr && thr[current].pc == pc
      requires pc.AcqSet? || pc.AcqInc? || pc.RelDec? || pc.RelClear? || pc.RelZero?
      requires pc.l in lock && OwnerOk(RoleIn(pc, pc.l), lock[pc.l], current, Depth(S, current, pc.l))
      modifies `thr, `lock, `depth
      ensures State() == MoveOn(S, pc.l)
    {
      hide Inv;
      var l := pc.l;
      var k := lock[l];
      ghost var d := Depth(S, current, l);
      match pc {
        case AcqSet(_) =>
          k := k.(holder := Some(current));
          assert k.repeat == 0;
          thr := thr[current := thr[current].(pc := AcqInc(l))];
        case AcqInc(_) =>
          k := k.(repeat := k.repeat + 1);
          d := d + 1;
          thr := thr[current := thr[current].(pc := Out)];
        case RelDec(_) =>
          k := k.(repeat := k.repeat - 1);
          d := d - 1;
          thr := thr[current := thr[current].(pc := Out)];
        case RelClear(_) =>
          k := k.(holder := None);
          d := d - 1;
          thr := thr[current := thr[current].(pc := RelZero(l))];
        case RelZero(_) =>
          k := k.(repeat := 0);
          thr := thr[current := thr[current].(pc := RelUp(l))];
      }
      lock := lock[l := k];
      depth := WithDepth(depth, current, l, d);
    }

    /** thread_start, from the moment the new thread joins the ready list. */
    method ThreadStart(t: Tid, prio: nat, ghost S: Sys)
      requires S == State() && Inv(S) && Enabled(S, Spawn(t, prio))
      modifies `thr, `ready
      ensures State() == After(S, Spawn(t, prio)) && Inv(State())
    {
      StepKeeps(S, Spawn(t, prio));
      assert t !in ready by {
        InvRuns(S);
        assert t in S.ready ==> IsReady(S.thr, t);
      }
      hide *;
      IsStart(S, t, prio);
      thr := thr[t := Thread(Ready, prio, prio, Out)];
      ready := ready + [t];
    }

    /** lock_acquire and lock_release on the pid lock, as alloc_pid and release_pid run them, with interrupts off: the
        lock is free, so nobody waits and the whole state is afterwards what it was. */
    method PassPidLock(ghost S: Sys)
      requires S == State() && Inv(S) && PidFree(S) && current in thr && thr[current].pc == Out && current != idle
      modifies this
      ensures State() == S
    {
      hide *;
      RunsHere(S);
      FieldsAre(S);
      PidTrip(S);
      Steps(S, Acquire(pidLock), Trip(S, 1));
      LockAcquire(pidLock, S);
      Steps(Trip(S, 1), Go, Trip(S, 2));
      Continue(Trip(S, 1));
      Steps(Trip(S, 2), Go, Trip(S, 3));
      Continue(Trip(S, 2));
      Steps(Trip(S, 3), Go, Trip(S, 4));
      Continue(Trip(S, 3));
      Steps(Trip(S, 4), Release(pidLock), Trip(S, 5));
      LockRelease(pidLock, Trip(S, 4));
      Steps(Trip(S, 5), Go, Trip(S, 6));
      Continue(Trip(S, 5));
      Steps(Trip(S, 6), Go, Trip(S, 7));
      Continue(Trip(S, 6));
      Steps(Trip(S, 7), Go, S);
      Continue(Trip(S, 7));
    }

    lemma Steps(S: Sys, e: Step, S': Sys)
      requires Follows(S, e, S')
      ensures Inv(S) && Enabled(S, e) && S' == After(S, e)
    {
      hide Inv, Enabled, After;
    }

    lemma FieldsAre(S: Sys)
      requires S == State()
      ensures S.current == current && S.pidLock == pidLock && S.idle == idle && S.thr == thr
    {
    }

    /** thread_exit; the page of the victim is not part of this state. */
    method ThreadExit(t: Tid, needSchedule: bool, ghost S: Sys)
      requires S == State() && Inv(S) && PidFree(S) && Enabled(S, if needSchedule then Exit else Reap(t)) && (needSchedule ==> t == current)
      requires current != idle
      modifies this
      ensures State() == After(S, if needSchedule then Exit else Reap(t)) && Inv(State())
      ensures t !in thr && Gone(State(), t) && if needSchedule then Hands(S.thr - {t}, S.ready, idle, State()) else thr == S.thr - {t} && ready == S.ready
    {
      hide Lists, LocksOk, WakesOk, Sched, SameSync, OneRuns, NoLocks, PidFree, Hands, Gone;
      StepKeeps(S, if needSchedule then Exit else Reap(t));
      if needSchedule { ExitLeaves(S); } else { ReapLeaves(S, t); }
      RunsHere(S);
      PassPidLock(S);
      thr := thr - {t};
      if needSchedule {
        InvRuns(S);
        RemoveLists(S, t);
        Schedule(State());
      }
    }
  }

  lemma NotReady(S: Sys, t: Tid)
    requires Lists(S) && t in S.thr && S.thr[t].stat != Ready
    ensures t !in S.ready
  {
    hide AllWaitersOk, ThreadsOk, NoDup;
    assert t in S.ready ==> IsReady(S.thr, t);
  }

  lemma IdleExists(S: Sys)
    requires Lists(S)
    ensures S.idle in S.thr
  {
  }

  lemma RunsHere(S: Sys)
    requires Inv(S)
    ensures S.current in S.thr && S.thr[S.current].stat == Running && OneRuns(S) && Lists(S)
  {
  }

  lemma NotWaiting(S: Sys, s: nat)
    requires Inv(S) && s in S.sema
    ensures S.current !in S.sema[s].waiters
  {
    hide LocksOk, WakesOk, NoDup;
    assert WaitersOk(S.thr, s, S.sema[s].waiters);
    assert S.current in S.sema[s].waiters ==> Sleeps(S.thr, S.current, s);
  }

  lemma ValueAtMostOne(S: Sys, s: nat)
    requires Inv(S) && s in S.sema
    ensures S.sema[s].value <= 1
  {
    assert WakeOk(S, s);
  }

  lemma IsStart(S: Sys, t: Tid, prio: nat)
    requires Inv(S) && Enabled(S, Spawn(t, prio))
    ensures After(S, Spawn(t, prio)) == S.(thr := S.thr[t := Thread(Ready, prio, prio, Out)], ready := S.ready + [t])
  {
  }

  lemma MayDownHere(S: Sys, s: nat)
    requires Inv(S) && S.thr[S.current].pc in {Retry(s), AcqDown(s)}
    ensures s in S.sema && MayDown(S, s) && S.current != S.idle
  {
    InCodeOk(S);
    LocksHaveSemas(S);
  }

  lemma OwnerAt(S: Sys, l: nat)
    requires Inv(S)
    requires var pc := S.thr[S.current].pc; !pc.Out? && !pc.Retry? && !pc.AcqDown? && pc.l == l
    ensures l in S.lock && l in S.own && l in S.sema && S.sema[l].value == 0
    ensures OwnerOk(RoleIn(S.thr[S.current].pc, l), S.lock[l], S.current, Depth(S, S.current, l))
  {
    InCodeOk(S);
    hide Lists, LocksOk, WakesOk, OwnerOk, Depth;
    OwnerHere(S, l);
  }

  lemma StillHere(S: Sys, l: nat)
    requires Inv(S) && l in S.sema
    ensures Raise(S, l).current in Raise(S, l).thr && Raise(S, l).current == S.current
  {
  }
}
