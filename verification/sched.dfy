/** thread/thread.c and thread/sync.c as a step system.  A step is one statement, or one stretch of statements
    that runs with interrupts off; between two steps the timer may preempt the running thread. */
module Scheduling {
  import opened Basics

  type Tid = nat

  datatype Stat = Running | Ready | Blocked | Hanging | Waiting

  /** Where a thread stands inside lock_acquire, lock_release and sema_down.  `Retry(s)` is the point inside
      the loop of sema_down at which thread_block returns: interrupts are off and the value is tested again. */
  datatype Pc =
    | Out
    | Retry(s: nat)
    | AcqDown(l: nat)
    | AcqSet(l: nat)
    | AcqInc(l: nat)
    | RelDec(l: nat)
    | RelClear(l: nat)
    | RelZero(l: nat)
    | RelUp(l: nat)

  datatype Thread = Thread(stat: Stat, prio: nat, ticks: nat, pc: Pc)
  datatype Sema = Sema(value: nat, waiters: seq<Tid>)
  datatype Lock = Lock(holder: Option<Tid>, repeat: nat)

  /** Lock `l` uses semaphore `l`; the other semaphores stand alone.  `depth` counts, for a thread and a lock,
      the acquires completed and not yet released; `own` is the thread that got a lock's semaphore. */
  datatype Sys = Sys(thr: map<Tid, Thread>, ready: seq<Tid>, current: Tid, idle: Tid, pidLock: nat,
                     sema: map<nat, Sema>, lock: map<nat, Lock>, own: map<nat, Option<Tid>>, depth: map<(Tid, nat), nat>)

  ghost function Depth(S: Sys, t: Tid, l: nat): nat {
    if (t, l) in S.depth then S.depth[(t, l)] else 0
  }

  // ---- the scheduling invariant ----

  ghost predicate Sleeps(thr: map<Tid, Thread>, t: Tid, s: nat) {
    t in thr && thr[t].stat == Blocked && thr[t].pc == Retry(s)
  }

  ghost predicate IsReady(thr: map<Tid, Thread>, t: Tid) {
    t in thr && thr[t].stat == Ready
  }

  ghost predicate WaitersOk(thr: map<Tid, Thread>, s: nat, q: seq<Tid>) {
    NoDup(q) && forall t :: t in q <==> Sleeps(thr, t, s)
  }

  ghost predicate ReadyOk(thr: map<Tid, Thread>, q: seq<Tid>) {
    NoDup(q) && forall t :: t in q <==> IsReady(thr, t)
  }

  ghost predicate AllWaitersOk(S: Sys) {
    forall s :: s in S.sema ==> WaitersOk(S.thr, s, S.sema[s].waiters)
  }

  ghost predicate IdleOk(thr: map<Tid, Thread>, idle: Tid) {
    idle in thr && thr[idle].stat in {Running, Ready, Blocked} && thr[idle].pc == Out
  }

  ghost predicate RunningIs(thr: map<Tid, Thread>, current: Tid) {
    forall t :: t in thr && thr[t].stat == Running ==> t == current
  }

  /** The program counter names existing objects; a thread that does not compete for the processor is outside
      the lock code or sleeps inside sema_down. */
  ghost predicate PcOk(S: Sys, th: Thread) {
    && (th.pc.Retry? ==> th.pc.s in S.sema)
    && (!th.pc.Out? && !th.pc.Retry? ==> th.pc.l in S.lock)
    && (th.stat in {Hanging, Waiting} ==> th.pc.Out?)
    && (th.stat == Blocked ==> th.pc.Out? || th.pc.Retry?)
  }

  ghost predicate ThreadOk(S: Sys, t: Tid)
    requires t in S.thr
  {
    PcOk(S, S.thr[t]) && S.thr[t].ticks <= S.thr[t].prio
  }

  ghost predicate ThreadsOk(S: Sys) {
    forall t :: t in S.thr ==> ThreadOk(S, t)
  }

  /** A thread is on the ready list iff it is READY, on the list of waiters of `s` iff it sleeps inside
      sema_down(s), and on no list twice. */
  ghost predicate Lists(S: Sys) {
    && IdleOk(S.thr, S.idle) && ReadyOk(S.thr, S.ready) && AllWaitersOk(S) && RunningIs(S.thr, S.current) && ThreadsOk(S)
  }

  ghost predicate OneRuns(S: Sys) {
    S.current in S.thr && S.thr[S.current].stat == Running
  }

  // ---- schedule ----

  ghost function SetStat(S: Sys, t: Tid, st: Stat): Sys
    requires t in S.thr
  {
    S.(thr := S.thr[t := S.thr[t].(stat := st)])
  }

  ghost function SetPc(S: Sys, pc: Pc): Sys
    requires S.current in S.thr
  {
    S.(thr := S.thr[S.current := S.thr[S.current].(pc := pc)])
  }

  /** The first part of schedule: a thread that still runs has used up its quantum. */
  ghost function Requeue(S: Sys): Sys {
    if OneRuns(S) then
      var t := S.thr[S.current];
      S.(thr := S.thr[S.current := t.(stat := Ready, ticks := t.prio)], ready := S.ready + [S.current])
    else S
  }

  ghost function Wake(S: Sys, t: Tid): Sys
    requires t in S.thr
  {
    SetStat(S, t, Ready).(ready := [t] + S.ready)
  }

  ghost function WakeIdle(S: Sys): Sys
    requires S.idle in S.thr
  {
    if S.ready == [] then Wake(S, S.idle) else S
  }

  ghost function Dispatch(S: Sys): Sys
    requires S.ready != [] && S.ready[0] in S.thr
  {
    SetStat(S, S.ready[0], Running).(ready := S.ready[1..], current := S.ready[0])
  }

  /** What scheduling leaves alone: everything except who runs and who is ready. */
  ghost predicate SameSync(S: Sys, S': Sys) {
    && S'.sema == S.sema && S'.lock == S.lock && S'.own == S.own && S'.depth == S.depth
    && S'.idle == S.idle && S'.pidLock == S.pidLock && S'.thr.Keys == S.thr.Keys
    && (forall t :: t in S.thr ==> S'.thr[t].pc == S.thr[t].pc && S'.thr[t].prio == S.thr[t].prio
                                   && (S.thr[t].pc.Retry? ==> (S'.thr[t].stat == Blocked <==> S.thr[t].stat == Blocked)))
  }

  lemma SameSyncLists(S: Sys, S': Sys)
    requires SameSync(S, S') && AllWaitersOk(S)
    ensures AllWaitersOk(S')
  {
    hide NoDup;
    forall s, t | s in S.sema ensures Sleeps(S.thr, t, s) <==> Sleeps(S'.thr, t, s) {
    }
    forall s | s in S'.sema ensures WaitersOk(S'.thr, s, S'.sema[s].waiters) {
      assert WaitersOk(S.thr, s, S.sema[s].waiters);
    }
  }

  lemma SameSyncThreads(S: Sys, S': Sys)
    requires SameSync(S, S') && ThreadsOk(S)
    requires forall t :: t in S.thr ==> S'.thr[t].stat in {Running, Ready} || S'.thr[t].stat == S.thr[t].stat
    requires forall t :: t in S.thr ==> S'.thr[t].ticks <= S.thr[t].prio
    ensures ThreadsOk(S')
  {
    forall t | t in S'.thr ensures ThreadOk(S', t) {
      assert ThreadOk(S, t);
    }
  }

  lemma ReadyPlus(thr: map<Tid, Thread>, q: seq<Tid>, t: Tid, th: Thread)
    requires ReadyOk(thr, q) && !IsReady(thr, t) && th.stat == Ready
    ensures ReadyOk(thr[t := th], q + [t]) && ReadyOk(thr[t := th], [t] + q)
  {
    hide NoDup;
    AppendFacts(q, t);
    var thr' := thr[t := th];
    forall u ensures IsReady(thr', u) <==> u == t || IsReady(thr, u) {
    }
  }

  lemma ReadyHead(thr: map<Tid, Thread>, q: seq<Tid>)
    requires ReadyOk(thr, q) && q != []
    ensures IsReady(thr, q[0])
  {
    assert q[0] in q;
  }

  lemma ReadyMinus(thr: map<Tid, Thread>, q: seq<Tid>, th: Thread)
    requires ReadyOk(thr, q) && q != [] && th.stat != Ready
    ensures IsReady(thr, q[0]) && ReadyOk(thr[q[0] := th], q[1..])
  {
    hide NoDup;
    PopFacts(q);
    assert q[0] in q;
    var thr' := thr[q[0] := th];
    forall u ensures IsReady(thr', u) <==> u != q[0] && IsReady(thr, u) {
    }
  }

  lemma RequeueLists(S: Sys)
    requires Lists(S)
    ensures Lists(Requeue(S)) && !OneRuns(Requeue(S)) && SameSync(S, Requeue(S))
  {
    hide ReadyOk, AllWaitersOk, ThreadsOk;
    if OneRuns(S) {
      ReadyPlus(S.thr, S.ready, S.current, Requeue(S).thr[S.current]);
      SameSyncLists(S, Requeue(S));
      TicksOk(S);
      SameSyncThreads(S, Requeue(S));
    }
  }

  lemma TicksOk(S: Sys)
    requires ThreadsOk(S)
    ensures forall t :: t in S.thr ==> S.thr[t].ticks <= S.thr[t].prio
  {
    forall t | t in S.thr ensures S.thr[t].ticks <= S.thr[t].prio {
      assert ThreadOk(S, t);
    }
  }

  /** The assertions of thread_unblock hold for the idle thread whenever schedule finds the ready list empty. */
  lemma IdleIsBlocked(S: Sys)
    requires Lists(S) && !OneRuns(S) && S.ready == []
    ensures S.thr[S.idle].stat == Blocked && S.idle !in S.ready
  {
    hide AllWaitersOk, ThreadsOk, NoDup;
    assert IsReady(S.thr, S.idle) ==> S.idle in S.ready;
  }

  lemma WakeLists(S: Sys, t: Tid)
    requires Lists(S) && t in S.thr && S.thr[t].stat in {Blocked, Hanging, Waiting} && !S.thr[t].pc.Retry?
    ensures Lists(Wake(S, t)) && SameSync(S, Wake(S, t))
  {
    hide ReadyOk, AllWaitersOk, ThreadsOk;
    ReadyPlus(S.thr, S.ready, t, Wake(S, t).thr[t]);
    SameSyncLists(S, Wake(S, t));
    TicksOk(S);
    SameSyncThreads(S, Wake(S, t));
  }

  lemma DispatchLists(S: Sys)
    requires Lists(S) && !OneRuns(S) && S.ready != []
    ensures S.ready[0] in S.thr && Lists(Dispatch(S)) && OneRuns(Dispatch(S)) && SameSync(S, Dispatch(S))
  {
    hide ReadyOk, AllWaitersOk, ThreadsOk;
    ReadyHead(S.thr, S.ready);
    ReadyMinus(S.thr, S.ready, S.thr[S.ready[0]].(stat := Running));
    SameSyncLists(S, Dispatch(S));
    TicksOk(S);
    SameSyncThreads(S, Dispatch(S));
  }

  /** schedule: the running thread, if it still runs, goes to the back; the front of the list runs next. */
  ghost function Sched(S: Sys): (S': Sys)
    requires Lists(S)
    ensures Lists(S') && OneRuns(S') && SameSync(S, S')
  {
    RequeueLists(S);
    var a := Requeue(S);
    var b := WakeIdle(a);
    WakeIdleLists(a);
    DispatchLists(b);
    SameSyncTwice(S, a, b, Dispatch(b));
    Dispatch(b)
  }

  lemma WakeIdleLists(S: Sys)
    requires Lists(S) && !OneRuns(S)
    ensures Lists(WakeIdle(S)) && !OneRuns(WakeIdle(S)) && SameSync(S, WakeIdle(S)) && WakeIdle(S).ready != []
  {
    hide ReadyOk, AllWaitersOk, ThreadsOk, SameSync;
    if S.ready == [] {
      IdleIsBlocked(S);
      WakeLists(S, S.idle);
    } else {
      SameSyncSelf(S);
    }
  }

  lemma SameSyncSelf(S: Sys)
    ensures SameSync(S, S)
  {
  }

  lemma SameSyncTwice(S: Sys, a: Sys, b: Sys, c: Sys)
    requires SameSync(S, a) && SameSync(a, b) && SameSync(b, c)
    ensures SameSync(S, c)
  {
  }
}
