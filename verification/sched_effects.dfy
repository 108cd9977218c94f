/** What each step leaves in the fields of the threads, the lists, the semaphores and the locks. */
module StepEffects {
  import opened Basics
  import opened Scheduling
  import opened Synchronisation
  import opened Interleavings

  /** Out of the thread table `thr` and the ready list `q` the first of the list runs, or the idle thread when nobody
      is on it; nobody else changes. */
  ghost predicate Hands(thr: map<Tid, Thread>, q: seq<Tid>, idle: Tid, S': Sys) {
    if q == [] then
      idle in thr && S'.current == idle && S'.ready == [] && S'.thr == thr[idle := thr[idle].(stat := Running)]
    else
      q[0] in thr && S'.current == q[0] && S'.ready == q[1..] && S'.thr == thr[q[0] := thr[q[0]].(stat := Running)]
  }

  ghost predicate SameSemas(S: Sys, S': Sys) {
    S'.sema == S.sema && S'.own == S.own && S'.idle == S.idle
  }

  ghost predicate SameLocks(S: Sys, S': Sys) {
    S'.lock == S.lock && S'.depth == S.depth && S'.pidLock == S.pidLock
  }

  /** `t` runs no more: it is neither the current thread nor on the ready list. */
  ghost predicate Gone(S': Sys, t: Tid) {
    S'.current != t && t !in S'.ready
  }

  /** The second half of schedule, once the thread that ran is off the processor. */
  lemma WakeAndDispatch(T: Sys)
    requires Lists(T) && !OneRuns(T)
    ensures var b := WakeIdle(T);
            && b.ready != [] && b.ready[0] in b.thr && Hands(T.thr, T.ready, T.idle, Dispatch(b)) && SameSemas(T, Dispatch(b)) && SameLocks(T, Dispatch(b))
  {
    WakeIdleLists(T);
    IdleThere(T);
    hide Lists, SameSync, OneRuns;
    var b := WakeIdle(T);
    DispatchLists(b);
    if T.ready == [] {
      var i := T.thr[T.idle];
      assert T.thr[T.idle := i.(stat := Ready)][T.idle := i.(stat := Running)] == T.thr[T.idle := i.(stat := Running)];
    }
  }

  /** schedule, called by a thread that has stopped running. */
  lemma SchedHands(T: Sys)
    requires Lists(T) && !OneRuns(T)
    ensures Hands(T.thr, T.ready, T.idle, Sched(T)) && SameSemas(T, Sched(T)) && SameLocks(T, Sched(T))
  {
    WakeAndDispatch(T);
    hide Lists, SameSync, OneRuns, Hands, SameSemas, SameLocks;
  }

  /** schedule, called by a thread that still runs: it goes to the back of the list, READY, with a whole quantum. */
  lemma SchedRequeues(S: Sys)
    requires Lists(S) && OneRuns(S)
    ensures var t := S.current; var th := S.thr[t]; var S' := Sched(S);
            && Hands(S.thr[t := th.(stat := Ready, ticks := th.prio)], S.ready + [t], S.idle, S') && SameSemas(S, S') && SameLocks(S, S')
  {
    RequeueLists(S);
    hide Lists, SameSync, Hands, SameSemas, SameLocks, WakeIdle, Dispatch;
    var T := Requeue(S);
    assert T.thr == S.thr[S.current := S.thr[S.current].(stat := Ready, ticks := S.thr[S.current].prio)] && T.ready == S.ready + [S.current];
    WakeAndDispatch(T);
    SameAs(S, T, Sched(S));
  }

  lemma SameAs(S: Sys, T: Sys, U: Sys)
    requires SameSemas(T, U) && SameLocks(T, U) && SameSemas(S, T) && SameLocks(S, T)
    ensures SameSemas(S, U) && SameLocks(S, U)
  {
  }

  lemma IdleThere(T: Sys)
    requires Lists(T)
    ensures T.idle in T.thr
  {
  }

  /** Who stops and is not READY is neither dispatched nor on the list afterwards. */
  lemma StoppedIsGone(thr: map<Tid, Thread>, q: seq<Tid>, idle: Tid, S': Sys, t: Tid)
    requires ReadyOk(thr, q) && Hands(thr, q, idle, S') && !IsReady(thr, t) && t != idle
    ensures Gone(S', t) && (t in thr ==> t in S'.thr && S'.thr[t] == thr[t]) && (t !in thr ==> t !in S'.thr)
  {
    hide NoDup;
    if q != [] {
      assert q[0] in q;
      assert IsReady(thr, q[0]);
      assert forall u :: u in q[1..] ==> u in q;
    }
  }

  lemma ReadyOf(S: Sys)
    requires Lists(S)
    ensures ReadyOk(S.thr, S.ready)
  {
  }

  lemma Stopped(S: Sys, st: Stat)
    requires S.current in S.thr && st != Running
    ensures !OneRuns(SetStat(S, S.current, st))
  {
  }

  /** thread_block: the caller keeps every field but its status, which is the one asked for, and waits on no ready list
      until somebody unblocks it.  The idle thread, which schedule may unblock at once, is the one exception. */
  lemma BlockLeaves(S: Sys, st: Stat)
    requires Inv(S) && Enabled(S, Block(st))
    ensures var t := S.current; var S' := After(S, Block(st));
            && Hands(S.thr[t := S.thr[t].(stat := st)], S.ready, S.idle, S') && SameSemas(S, S') && SameLocks(S, S')
            && (t != S.idle ==> t in S'.thr && S'.thr[t] == S.thr[t].(stat := st) && Gone(S', t))
  {
    InvRuns(S);
    InvHere(S);
    StopLists(S, st);
    hide Lists, Inv, Sched, SameSync, OneRuns, ReadyOk, Hands, Gone;
    var T := SetStat(S, S.current, st);
    Stopped(S, st);
    assert T.thr == S.thr[S.current := S.thr[S.current].(stat := st)] && T.ready == S.ready && T.idle == S.idle;
    SchedHands(T);
    SameAs(S, T, Sched(T));
    ReadyOf(T);
    hide SetStat, SameSemas, SameLocks;
    if S.current != S.idle { StoppedIsGone(T.thr, T.ready, T.idle, Sched(T), S.current); }
  }

  lemma InvHere(S: Sys)
    requires Inv(S)
    ensures S.current in S.thr && S.thr[S.current].stat == Running
  {
  }

  /** At the end of a list a thread stays READY with every other field as it is, unless the list was empty. */
  lemma LastWaits(thr: map<Tid, Thread>, q: seq<Tid>, idle: Tid, S': Sys, t: Tid)
    requires t in thr && t !in q && thr[t].stat == Ready && Hands(thr, q + [t], idle, S')
    ensures q != [] ==> t in S'.thr && S'.thr[t] == thr[t] && S'.ready == q[1..] + [t] && S'.current == q[0]
    ensures q == [] ==> t in S'.thr && S'.thr[t] == thr[t].(stat := Running) && S'.ready == [] && S'.current == t
  {
    assert (q + [t])[0] == if q == [] then t else q[0];
    if q != [] { assert (q + [t])[1..] == q[1..] + [t]; }
  }

  lemma CurrentNotReady(S: Sys)
    requires Inv(S)
    ensures S.current in S.thr && S.thr[S.current].stat == Running && S.current !in S.ready
  {
    InvHere(S);
    hide Inv, Lists, NoDup;
    OneListPerTag(S, S.current);
  }

  /** thread_yield: the caller is READY and last on the list, its ticks untouched; alone it runs on. */
  lemma YieldLeaves(S: Sys)
    requires Inv(S) && Enabled(S, Yield)
    ensures var t := S.current; var S' := After(S, Yield);
            && Hands(S.thr[t := S.thr[t].(stat := Ready)], S.ready + [t], S.idle, S') && SameSemas(S, S') && SameLocks(S, S')
            && t in S'.thr && S'.thr[t] == S.thr[t].(stat := if S.ready == [] then Running else Ready)
            && (S.ready != [] ==> S'.ready == S.ready[1..] + [t] && S'.current == S.ready[0])
            && (S.ready == [] ==> S'.ready == [] && S'.current == t)
  {
    InvRuns(S);
    CurrentNotReady(S);
    ToBackLists(S);
    hide Lists, Inv, Sched, SameSync, OneRuns, ReadyOk, Hands;
    var T := ToBack(S);
    Stopped(S, Ready);
    StillStopped(SetStat(S, S.current, Ready), T);
    assert T.thr == S.thr[S.current := S.thr[S.current].(stat := Ready)] && T.ready == S.ready + [S.current] && T.idle == S.idle;
    SchedHands(T);
    SameAs(S, T, Sched(T));
    hide ToBack, SetStat, SameSemas, SameLocks;
    LastWaits(T.thr, S.ready, S.idle, Sched(T), S.current);
  }

  lemma StillStopped(S: Sys, S': Sys)
    requires !OneRuns(S) && S'.thr == S.thr && S'.current == S.current
    ensures !OneRuns(S')
  {
  }

  /** A timer interrupt takes one tick off; when none is left the thread goes to the back of the list and its next
      quantum is exactly its priority. */
  lemma TimerLeaves(S: Sys)
    requires Inv(S) && Enabled(S, Timer)
    ensures var t := S.current; var th := S.thr[t]; var S' := After(S, Timer);
            && SameSemas(S, S') && SameLocks(S, S')
            && if th.ticks > 0 then S'.thr == S.thr[t := th.(ticks := th.ticks - 1)] && S'.ready == S.ready && S'.current == t
               else && Hands(S.thr[t := th.(stat := Ready, ticks := th.prio)], S.ready + [t], S.idle, S')
                    && t in S'.thr && S'.thr[t] == th.(stat := if S.ready == [] then Running else Ready, ticks := th.prio)
                    && (S.ready != [] ==> S'.ready == S.ready[1..] + [t] && S'.current == S.ready[0])
  {
    InvRuns(S);
    CurrentNotReady(S);
    hide Lists, Inv, Sched, SameSync, OneRuns, Hands;
    var th := S.thr[S.current];
    if th.ticks == 0 {
      SchedRequeues(S);
      LastWaits(S.thr[S.current := th.(stat := Ready, ticks := th.prio)], S.ready, S.idle, Sched(S), S.current);
    }
  }

  /** thread_exit of the running thread: it is on no list and in no table any more, and nobody else changes. */
  lemma ExitLeaves(S: Sys)
    requires Inv(S) && Enabled(S, Exit)
    ensures var t := S.current; var S' := After(S, Exit);
            && Hands(S.thr - {t}, S.ready, S.idle, S') && SameSemas(S, S') && SameLocks(S, S') && t !in S'.thr && Gone(S', t)
  {
    InvRuns(S);
    CurrentNotReady(S);
    RemoveLists(S, S.current);
    hide Lists, Inv, Sched, SameSync, OneRuns, ReadyOk, Hands, Gone, NoLocks;
    var T := Remove(S, S.current);
    SchedHands(T);
    ReadyOf(T);
    StoppedIsGone(T.thr, T.ready, T.idle, Sched(T), S.current);
  }

  ghost predicate SameTurn(S: Sys, S': Sys) {
    S'.current == S.current && SameLocks(S, S')
  }

  /** thread_exit of a HANGING thread: it goes, and nothing else changes. */
  lemma ReapLeaves(S: Sys, t: Tid)
    requires Inv(S) && Enabled(S, Reap(t))
    ensures var S' := After(S, Reap(t));
            SameTurn(S, S') && SameSemas(S, S') && S'.thr == S.thr - {t} && S'.ready == S.ready && Gone(S', t)
  {
    InvRuns(S);
    InvHere(S);
    OneListPerTag(S, t);
    hide Lists, Inv, NoLocks, Sched, OneRuns;
  }

  /** thread_start: one new thread, READY with a whole quantum, last on the list. */
  lemma SpawnLeaves(S: Sys, t: Tid, prio: nat)
    requires Inv(S) && Enabled(S, Spawn(t, prio))
    ensures var S' := After(S, Spawn(t, prio));
            && SameTurn(S, S') && SameSemas(S, S') && t !in S.thr
            && S'.thr == S.thr[t := Thread(Ready, prio, prio, Out)] && S'.ready == S.ready + [t]
  {
    InvRuns(S);
    hide Lists, Inv, NoLocks, Sched, OneRuns;
  }

  /** thread_unblock: the thread is READY and first on the list. */
  lemma UnblockLeaves(S: Sys, t: Tid)
    requires Inv(S) && Enabled(S, Unblock(t))
    ensures var S' := After(S, Unblock(t));
            SameTurn(S, S') && SameSemas(S, S') && S'.thr == S.thr[t := S.thr[t].(stat := Ready)] && S'.ready == [t] + S.ready
  {
    InvRuns(S);
    hide Lists, Inv, NoLocks, Sched, OneRuns;
  }

  // ---- semaphores ----

  /** The step runs the test of sema_down on `s`: the call from outside, or the statement of a thread that stands there. */
  ghost predicate DownsOn(S: Sys, e: Step, s: nat)
    requires OneRuns(S)
  {
    e == Down(s) || (e == Go && Cur(S).pc in {Retry(s), AcqDown(s)})
  }

  ghost predicate UpsOn(S: Sys, e: Step, s: nat)
    requires OneRuns(S)
  {
    e == Step.Up(s) || (e == Go && Cur(S).pc == RelUp(s))
  }

  lemma DownIs(S: Sys, e: Step, s: nat)
    requires Inv(S) && Enabled(S, e) && DownsOn(S, e, s)
    ensures s in S.sema && S.current != S.idle && Lists(S) && OneRuns(S) && After(S, e) == TryDown(S, s)
  {
    InvRuns(S);
    InvParts(S);
    LocksHaveSemas(S);
    if e.Go? { InCodeOk(S); }
    hide Lists, LocksOk, WakesOk, Sched, SameSync, SleepOn, Take;
  }

  /** sema_down at the value 0: the caller is BLOCKED, last of the waiters, and will test the value again before it does
      anything else; the value stays 0 and the next thread runs. */
  lemma DownSleeps(S: Sys, e: Step, s: nat)
    requires Inv(S) && Enabled(S, e) && DownsOn(S, e, s) && s in S.sema && S.sema[s].value == 0
    ensures var t := S.current; var th := S.thr[t].(stat := Blocked, pc := Retry(s)); var S' := After(S, e);
            && Hands(S.thr[t := th], S.ready, S.idle, S') && SameLocks(S, S') && S'.own == S.own
            && S'.sema == S.sema[s := Sema(0, S.sema[s].waiters + [t])]
            && t in S'.thr && S'.thr[t] == th && Gone(S', t)
  {
    InvHere(S);
    DownIs(S, e, s);
    SleepOnLists(S, s);
    hide Lists, Inv, Sched, SameSync, OneRuns, ReadyOk, Hands, Gone, After, Enabled, DownsOn;
    var T := SleepOn(S, s);
    SchedHands(T);
    ReadyOf(T);
    StoppedIsGone(T.thr, T.ready, T.idle, Sched(T), S.current);
  }

  lemma ValueSmall(S: Sys, s: nat)
    requires Inv(S) && s in S.sema
    ensures S.sema[s].value <= 1
  {
    hide Lists, LocksOk;
    assert WakeOk(S, s);
  }

  lemma TakeFields(S: Sys, s: nat)
    requires S.current in S.thr && s in S.sema && S.sema[s].value == 1
    ensures var t := S.current; var S' := Take(S, s);
            && S'.thr == S.thr[t := S.thr[t].(pc := if s in S.lock then AcqSet(s) else Out)]
            && S'.ready == S.ready && S'.current == t && SameLocks(S, S') && S'.idle == S.idle
            && S'.sema == S.sema[s := Sema(0, S.sema[s].waiters)]
            && S'.own == if s in S.lock then S.own[s := Some(t)] else S.own
  {
  }

  /** sema_down at the value 1: the value is 0 afterwards, the caller runs on, and a lock's semaphore is now its own. */
  lemma DownTakes(S: Sys, e: Step, s: nat)
    requires Inv(S) && Enabled(S, e) && DownsOn(S, e, s) && s in S.sema && S.sema[s].value != 0
    ensures var t := S.current; var S' := After(S, e);
            && S'.thr == S.thr[t := S.thr[t].(pc := if s in S.lock then AcqSet(s) else Out)]
            && S'.ready == S.ready && S'.current == t && SameLocks(S, S') && S'.idle == S.idle
            && S'.sema == S.sema[s := Sema(0, S.sema[s].waiters)]
            && S'.own == if s in S.lock then S.own[s := Some(t)] else S.own
  {
    InvHere(S);
    DownIs(S, e, s);
    ValueSmall(S, s);
    TakeFields(S, s);
    hide Lists, Inv, Sched, SameSync, OneRuns, After, Enabled, DownsOn, SleepOn, Take, SameLocks;
  }

  lemma UpIs(S: Sys, e: Step, s: nat)
    requires Inv(S) && Enabled(S, e) && UpsOn(S, e, s)
    ensures s in S.sema && S.sema[s].value == 0 && After(S, e) == if e == Step.Up(s) then Raise(S, s) else GiveBack(S, s)
  {
    InvRuns(S);
    InvParts(S);
    LocksHaveSemas(S);
    if e.Go? {
      InCodeOk(S);
      OwnerHere(S, s);
    }
    hide Lists, LocksOk, WakesOk, Raise, GiveBack, OwnerOk;
  }

  /** The thread table after sema_up on `s`: the first waiter is READY; a thread that leaves lock_release is outside. */
  ghost function UpThreads(S: Sys, e: Step, s: nat): map<Tid, Thread>
    requires S.current in S.thr && s in S.sema
  {
    var q := S.sema[s].waiters;
    var thr := if q != [] && q[0] in S.thr then S.thr[q[0] := S.thr[q[0]].(stat := Ready)] else S.thr;
    if e.Go? then thr[S.current := S.thr[S.current].(pc := Out)] else thr
  }

  lemma WaiterIsOther(S: Sys, s: nat)
    requires Inv(S) && s in S.sema && S.sema[s].waiters != []
    ensures var w := S.sema[s].waiters[0];
            && w in S.thr && w != S.current && S.thr[w].stat == Blocked && w !in S.ready && w !in S.sema[s].waiters[1..]
            && S.thr[w].pc == Retry(s)
  {
    InvHere(S);
    InvRuns(S);
    FirstWaiterSleeps(S, s);
    assert WaitersOk(S.thr, s, S.sema[s].waiters);
    hide Inv, Lists, Sleeps;
  }

  lemma RaiseFields(S: Sys, s: nat)
    requires s in S.sema && S.sema[s].value == 0 && (S.sema[s].waiters != [] ==> S.sema[s].waiters[0] in S.thr)
    ensures var q := S.sema[s].waiters; var S' := Raise(S, s);
            && S'.current == S.current && SameLocks(S, S') && S'.idle == S.idle && S'.own == S.own
            && (q == [] ==> S'.thr == S.thr && S'.ready == S.ready && S'.sema == S.sema[s := Sema(1, [])])
            && (q != [] ==> S'.thr == S.thr[q[0] := S.thr[q[0]].(stat := Ready)] && S'.ready == [q[0]] + S.ready
                            && S'.sema == S.sema[s := Sema(1, q[1..])])
  {
  }

  lemma GiveBackFields(S: Sys, l: nat)
    requires S.current in S.thr && l in S.sema && S.sema[l].value == 0
    requires S.sema[l].waiters != [] ==> S.sema[l].waiters[0] in S.thr && S.sema[l].waiters[0] != S.current
    ensures var S' := GiveBack(S, l); var R := Raise(S, l);
            && S.current in R.thr && R.thr[S.current] == S.thr[S.current] && R.current == S.current
            && S' == R.(thr := R.thr[S.current := S.thr[S.current].(pc := Out)], own := S.own[l := None])
            && R.own == S.own
  {
    RaiseFields(S, l);
    hide Raise, SameLocks;
    var q := S.sema[l].waiters;
    if q != [] { assert Raise(S, l).thr[S.current] == S.thr[S.current]; }
  }

  /** sema_up: the first waiter, if there is one, is READY at the front of the ready list and on no other; the value is 1;
      the caller runs on. */
  lemma UpLeaves(S: Sys, e: Step, s: nat)
    requires Inv(S) && Enabled(S, e) && UpsOn(S, e, s)
    ensures s in S.sema && S.current in S.thr
    ensures var q := S.sema[s].waiters; var S' := After(S, e);
            && S'.thr == UpThreads(S, e, s) && S'.current == S.current && SameLocks(S, S') && S'.idle == S.idle
            && (q == [] ==> S'.ready == S.ready && S'.sema == S.sema[s := Sema(1, [])])
            && (q != [] ==> q[0] in S'.thr && S'.thr[q[0]] == S.thr[q[0]].(stat := Ready) && S'.ready == [q[0]] + S.ready
                            && S'.sema == S.sema[s := Sema(1, q[1..])] && q[0] !in q[1..])
            && S'.own == if e.Go? then S.own[s := None] else S.own
  {
    InvHere(S);
    UpIs(S, e, s);
    if S.sema[s].waiters != [] { WaiterIsOther(S, s); }
    hide Lists, Inv, SameSync, OneRuns, After, Enabled, Sched, GiveBack;
    RaiseFields(S, s);
    if e != Step.Up(s) { GiveBackFields(S, s); }
    hide Raise;
  }

  // ---- sleepers are woken in the order in which they fell asleep ----

  ghost predicate SleeperAt(S: Sys, s: nat, p: int, t: Tid) {
    s in S.sema && 0 <= p < |S.sema[s].waiters| && S.sema[s].waiters[p] == t
  }

  lemma NoSemaTouched(S: Sys, e: Step)
    requires Inv(S) && Enabled(S, e) && !e.Go? && !e.Down? && !e.Up?
    ensures After(S, e).sema == S.sema
  {
    hide Inv, Enabled, After, Lists, Hands, Gone, Depth;
    match e {
      case Timer => TimerLeaves(S);
      case Block(st) => BlockLeaves(S, st);
      case Yield => YieldLeaves(S);
      case Exit => ExitLeaves(S);
      case Reap(t) => ReapLeaves(S, t);
      case Spawn(t, prio) => SpawnLeaves(S, t, prio);
      case Unblock(t) => UnblockLeaves(S, t);
      case _ => EnterLeaves(S, e);
    }
  }

  /** A plain statement on the fields of a lock. */
  ghost predicate Plain(S: Sys, e: Step)
    requires OneRuns(S)
  {
    e.Go? && (Cur(S).pc.AcqSet? || Cur(S).pc.AcqInc? || Cur(S).pc.RelDec? || Cur(S).pc.RelClear? || Cur(S).pc.RelZero?)
  }

  /** The semaphore or lock a step works on, if it works on one. */
  ghost function Target(S: Sys, e: Step): nat
    requires OneRuns(S)
  {
    match e
    case Down(s) => s
    case Up(s) => s
    case Go => var pc := Cur(S).pc; if pc.Out? then 0 else if pc.Retry? then pc.s else pc.l
    case _ => 0
  }

  /** Every step leaves the waiters of a semaphore as they are, or takes the first one off, or adds the caller at the end. */
  lemma WaitersMove(S: Sys, e: Step, s: nat)
    requires Inv(S) && OneRuns(S) && Enabled(S, e) && s in S.sema
    ensures s in After(S, e).sema
    ensures var q := S.sema[s].waiters;
            After(S, e).sema[s].waiters ==
            if UpsOn(S, e, s) then if q == [] then [] else q[1..]
            else if DownsOn(S, e, s) && S.sema[s].value == 0 then q + [S.current] else q
  {
    hide Inv, After, Lists, Hands, Gone, Depth, SameLocks, Holds, OnlyPc, OnlyLock, UpThreads;
    var r := Target(S, e);
    if !e.Go? && !e.Down? && !e.Up? {
      NoSemaTouched(S, e);
    } else if Plain(S, e) {
      StatementLeaves(S, r);
    } else if e.Up? || (e.Go? && Cur(S).pc.RelUp?) {
      UpLeaves(S, e, r);
    } else {
      DownMoves(S, e, r);
    }
  }

  lemma DownMoves(S: Sys, e: Step, r: nat)
    requires Inv(S) && OneRuns(S) && Enabled(S, e) && DownsOn(S, e, r)
    ensures r in S.sema && After(S, e).sema == S.sema[r := Sema(0, if S.sema[r].value == 0 then S.sema[r].waiters + [S.current] else S.sema[r].waiters)]
  {
    DownIs(S, e, r);
    hide Inv, After, Enabled, Lists, Hands, Gone, Depth, SameLocks, OneRuns, DownsOn;
    if S.sema[r].value == 0 { DownSleeps(S, e, r); } else { DownTakes(S, e, r); }
  }

  /** The calls of sema_up on `s` among the first `n` steps. */
  ghost function UpCalls(states: seq<Sys>, run: seq<Step>, n: nat, s: nat): nat
    requires n <= |run| && |states| == |run| + 1
  {
    if n == 0 then 0
    else UpCalls(states, run, n - 1, s) + if OneRuns(states[n - 1]) && UpsOn(states[n - 1], run[n - 1], s) then 1 else 0
  }

  lemma SleeperMoves(S: Sys, e: Step, s: nat, p: int, t: Tid)
    requires Inv(S) && OneRuns(S) && Enabled(S, e) && SleeperAt(S, s, p, t)
    ensures UpsOn(S, e, s) && p > 0 ==> SleeperAt(After(S, e), s, p - 1, t)
    ensures !UpsOn(S, e, s) ==> SleeperAt(After(S, e), s, p, t)
  {
    WaitersMove(S, e, s);
    hide Inv, After, Enabled, DownsOn, UpsOn, OneRuns;
  }

  /** The sleeper at position k of the waiters of `s` stays there, BLOCKED, one place further with each sema_up on `s`,
      until there have been more than k. */
  lemma {:induction false} SleeperPlace(states: seq<Sys>, run: seq<Step>, n: nat, s: nat, k: nat, t: Tid)
    requires IsRun(states, run) && Inv(states[0]) && n <= |run| && SleeperAt(states[0], s, k, t)
    requires UpCalls(states, run, n, s) <= k
    ensures SleeperAt(states[n], s, k - UpCalls(states, run, n, s), t)
    ensures t in states[n].thr && states[n].thr[t].stat == Blocked
  {
    hide Inv, After, Enabled, StepTo, UpsOn, SleeperAt, OneRuns;
    RunKeeps(states, run, n);
    if n > 0 {
      SleeperPlace(states, run, n - 1, s, k, t);
      RunKeeps(states, run, n - 1);
      RunStep(states, run, n - 1);
      InvRuns(states[n - 1]);
      SleeperMoves(states[n - 1], run[n - 1], s, k - UpCalls(states, run, n - 1, s), t);
    }
    SleeperSleeps(states[n], s, k - UpCalls(states, run, n, s), t);
  }

  lemma SleeperSleeps(S: Sys, s: nat, p: int, t: Tid)
    requires Inv(S) && SleeperAt(S, s, p, t)
    ensures t in S.thr && S.thr[t].stat == Blocked
  {
    OneListPerTag(S, t);
    hide Inv;
    assert t in S.sema[s].waiters;
  }

  /** What S' says of a thread that sema_up on `s` has just woken. */
  ghost predicate JustWoken(S': Sys, s: nat, t: Tid) {
    && t in S'.thr && S'.thr[t].stat == Ready && S'.ready != [] && S'.ready[0] == t && S'.current != t
    && s in S'.sema && t !in S'.sema[s].waiters
  }

  lemma Unfold(S: Sys, s: nat, t: Tid)
    requires SleeperAt(S, s, 0, t)
    ensures s in S.sema && S.sema[s].waiters != [] && S.sema[s].waiters[0] == t
  {
  }

  lemma Fold(S': Sys, s: nat, t: Tid)
    requires t in S'.thr && S'.thr[t].stat == Ready && S'.ready != [] && S'.ready[0] == t && S'.current != t
    requires s in S'.sema && t !in S'.sema[s].waiters
    ensures JustWoken(S', s, t)
  {
  }

  lemma UpWakes(S: Sys, e: Step, s: nat, t: Tid)
    requires Inv(S) && OneRuns(S) && Enabled(S, e) && UpsOn(S, e, s) && SleeperAt(S, s, 0, t)
    ensures JustWoken(After(S, e), s, t)
  {
    UpLeaves(S, e, s);
    WaiterIsOther(S, s);
    hide *;
    Unfold(S, s, t);
    assert S.sema[s].waiters[0] == t;
    Fold(After(S, e), s, t);
  }

  /** Sleepers are woken first come, first served: the one at position k wakes with exactly the sema_up number k + 1,
      and is then first on the ready list. */
  lemma WokenInOrder(states: seq<Sys>, run: seq<Step>, n: nat, s: nat, k: nat, t: Tid)
    requires IsRun(states, run) && Inv(states[0]) && n < |run| && SleeperAt(states[0], s, k, t)
    requires UpCalls(states, run, n, s) == k && OneRuns(states[n]) && UpsOn(states[n], run[n], s)
    ensures JustWoken(states[n + 1], s, t)
  {
    hide Inv, After, Enabled, StepTo, UpsOn, OneRuns, UpCalls, SleeperAt, JustWoken;
    SleeperPlace(states, run, n, s, k, t);
    RunKeeps(states, run, n);
    RunStep(states, run, n);
    UpWakes(states[n], run[n], s, t);
  }

  // ---- locks ----

  /** The first statement of lock_acquire goes past the semaphore iff the caller has the lock already, the head of
      lock_release counts down iff it has it more than once; nothing else changes. */
  lemma EnterLeaves(S: Sys, e: Step)
    requires Inv(S) && Enabled(S, e) && (e.Acquire? || e.Release?)
    ensures var t := S.current; var d := Depth(S, t, e.l); var S' := After(S, e);
            && SameTurn(S, S') && SameSemas(S, S') && S'.ready == S.ready
            && (e.Acquire? ==> S'.thr == S.thr[t := S.thr[t].(pc := if d > 0 then AcqInc(e.l) else AcqDown(e.l))])
            && (e.Release? ==> S'.thr == S.thr[t := S.thr[t].(pc := if d > 1 then RelDec(e.l) else RelClear(e.l))])
  {
    InvRuns(S);
    HolderOwns(S, e.l);
    hide Lists, LocksOk, WakesOk, NoLocks, GoOn, TryDown, Raise, Sched, Depth, SameSync, OneRuns;
  }

  /** The running thread now stands at `pc` inside lock `l`, which says `k`, and has it `d` times. */
  ghost predicate Holds(S': Sys, l: nat, pc: Pc, k: Lock, d: nat) {
    && S'.current in S'.thr && S'.thr[S'.current].pc == pc && l in S'.lock && S'.lock[l] == k && Depth(S', S'.current, l) == d
  }

  ghost predicate OnlyLock(S: Sys, S': Sys, l: nat) {
    && S'.lock.Keys == S.lock.Keys && S'.pidLock == S.pidLock && (forall m :: m in S.lock && m != l ==> S'.lock[m] == S.lock[m])
    && (forall u: Tid, m: nat :: u != S.current || m != l ==> Depth(S', u, m) == Depth(S, u, m))
  }

  ghost predicate OnlyPc(S: Sys, S': Sys) {
    && S'.current == S.current && S'.ready == S.ready && S.current in S.thr && S'.thr.Keys == S.thr.Keys
    && (forall u :: u in S.thr ==> S'.thr[u] == if u == S.current then S.thr[u].(pc := S'.thr[u].pc) else S.thr[u])
  }

  lemma MoveFields(S: Sys, l: nat, pc: Pc, k: Lock, d: nat)
    requires S.current in S.thr && l in S.lock
    ensures var S' := Move(S, l, pc, k, d); OnlyPc(S, S') && OnlyLock(S, S', l) && SameSemas(S, S') && Holds(S', l, pc, k, d)
  {
  }

  lemma StatementIs(S: Sys, l: nat)
    requires Inv(S) && Enabled(S, Go) && Cur(S).pc in {AcqSet(l), AcqInc(l), RelDec(l), RelClear(l), RelZero(l)}
    ensures l in S.lock && After(S, Go) == MoveOn(S, l)
  {
    InvRuns(S);
    InvParts(S);
    LocksHaveSemas(S);
    InCodeOk(S);
    hide Lists, Inv, LocksOk, WakesOk, SameSync, Sched, TryDown, GiveBack, OneRuns, MoveOn;
  }

  lemma StatementOwns(S: Sys, l: nat)
    requires Inv(S) && l in S.lock && S.current in S.thr && Cur(S).pc in {AcqSet(l), AcqInc(l), RelDec(l), RelClear(l), RelZero(l)}
    ensures OwnerOk(RoleIn(Cur(S).pc, l), S.lock[l], S.current, Depth(S, S.current, l))
  {
    hide Inv, OwnerOk, Depth;
    OwnerHere(S, l);
  }

  /** What a statement makes of the fields that its owner has left. */
  lemma Written(pc: Pc, l: nat, k: Lock, t: Tid, d: nat)
    requires pc in {AcqSet(l), AcqInc(l), RelDec(l), RelClear(l), RelZero(l)} && OwnerOk(RoleIn(pc, l), k, t, d)
    ensures var e := Statement(pc, k, t, d);
            && (pc.AcqSet? ==> d == 0 && e == Effect(AcqInc(l), Lock(Some(t), 0), 0))
            && (pc.AcqInc? ==> e == Effect(Out, Lock(Some(t), d + 1), d + 1))
            && (pc.RelDec? ==> d > 1 && e == Effect(Out, Lock(Some(t), d - 1), d - 1))
            && (pc.RelClear? ==> d == 1 && e == Effect(RelZero(l), Lock(None, 1), 0))
            && (pc.RelZero? ==> d == 0 && e == Effect(RelUp(l), Lock(None, 0), 0))
  {
  }

  /** The plain statements of lock_acquire and lock_release on a lock: how the count follows the number of times the
      thread has the lock, and that nothing else is written. */
  lemma StatementLeaves(S: Sys, l: nat)
    requires Inv(S) && Enabled(S, Go) && Cur(S).pc in {AcqSet(l), AcqInc(l), RelDec(l), RelClear(l), RelZero(l)}
    ensures var t := S.current; var d := Depth(S, t, l); var pc := Cur(S).pc; var S' := After(S, Go);
            && OnlyPc(S, S') && OnlyLock(S, S', l) && SameSemas(S, S')
            && (pc.AcqSet? ==> d == 0 && Holds(S', l, AcqInc(l), Lock(Some(t), 0), 0))
            && (pc.AcqInc? ==> Holds(S', l, Out, Lock(Some(t), d + 1), d + 1))
            && (pc.RelDec? ==> d > 1 && Holds(S', l, Out, Lock(Some(t), d - 1), d - 1))
            && (pc.RelClear? ==> d == 1 && Holds(S', l, RelZero(l), Lock(None, 1), 0))
            && (pc.RelZero? ==> d == 0 && Holds(S', l, RelUp(l), Lock(None, 0), 0))
  {
    InvHere(S);
    InvRuns(S);
    StatementIs(S, l);
    StatementOwns(S, l);
    Written(Cur(S).pc, l, S.lock[l], S.current, Depth(S, S.current, l));
    hide Inv, Lists, After, Move, Enabled, Depth, Holds, OnlyPc, OnlyLock, SameSemas, OwnerOk, RoleIn, Statement, OneRuns;
    var e := Statement(Cur(S).pc, S.lock[l], S.current, Depth(S, S.current, l));
    MoveFields(S, l, e.pc, e.lock, e.depth);
  }
}
