/** The steps of the threads and what holds after every one of them. */
module Synchronisation {
  import opened Basics
  import opened Scheduling

  // ---- what a program counter means to one lock ----

  datatype Role = Outside | Wants | Set | Inc | Dec | Clear | Zero | Up

  ghost function RoleIn(pc: Pc, l: nat): Role {
    match pc
    case Out => Outside
    case Retry(s) => if s == l then Wants else Outside
    case AcqDown(m) => if m == l then Wants else Outside
    case AcqSet(m) => if m == l then Set else Outside
    case AcqInc(m) => if m == l then Inc else Outside
    case RelDec(m) => if m == l then Dec else Outside
    case RelClear(m) => if m == l then Clear else Outside
    case RelZero(m) => if m == l then Zero else Outside
    case RelUp(m) => if m == l then Up else Outside
  }

  /** The fields of a lock as its owner has left them, for every point the owner can stand at.  The owner is
      never waiting for its own lock. */
  ghost predicate OwnerOk(role: Role, k: Lock, t: Tid, depth: nat) {
    match role
    case Outside => k == Lock(Some(t), depth) && depth >= 1
    case Wants => false
    case Set => k == Lock(None, 0) && depth == 0
    case Inc => k == Lock(Some(t), depth)
    case Dec => k == Lock(Some(t), depth) && depth >= 2
    case Clear => k == Lock(Some(t), depth) && depth == 1
    case Zero => k == Lock(None, 1) && depth == 0
    case Up => k == Lock(None, 0) && depth == 0
  }

  ghost predicate NotInside(S: Sys, l: nat, t: Tid) {
    Depth(S, t, l) == 0 && (t in S.thr ==> RoleIn(S.thr[t].pc, l) in {Outside, Wants})
  }

  ghost predicate OwnedBy(S: Sys, l: nat, t: Tid)
    requires l in S.lock
  {
    t in S.thr && OwnerOk(RoleIn(S.thr[t].pc, l), S.lock[l], t, Depth(S, t, l))
  }

  ghost predicate LockOk(S: Sys, l: nat)
    requires l in S.lock
  {
    && l in S.sema && l in S.own
    && S.sema[l].value == (if S.own[l].None? then 1 else 0)
    && (S.own[l].None? ==> S.lock[l] == Lock(None, 0))
    && (S.own[l].Some? ==> OwnedBy(S, l, S.own[l].value))
    && (forall t: Tid :: S.own[l] != Some(t) ==> NotInside(S, l, t))
  }

  ghost predicate LocksOk(S: Sys) {
    S.pidLock in S.lock && forall l :: l in S.lock ==> LockOk(S, l)
  }

  // ---- no lost wakeup ----

  /** `t` has been taken off the waiters of `s` and will test its value again before anything else. */
  ghost predicate Woken(thr: map<Tid, Thread>, t: Tid, s: nat) {
    t in thr && thr[t].pc == Retry(s) && thr[t].stat != Blocked
  }

  ghost predicate WakeOk(S: Sys, s: nat)
    requires s in S.sema
  {
    S.sema[s].value <= 1 && (S.sema[s].value == 1 && S.sema[s].waiters != [] ==> exists t :: Woken(S.thr, t, s))
  }

  ghost predicate WakesOk(S: Sys) {
    forall s :: s in S.sema ==> WakeOk(S, s)
  }

  ghost predicate Inv(S: Sys) {
    Lists(S) && OneRuns(S) && LocksOk(S) && WakesOk(S)
  }

  // ---- the operations ----

  /** Inside sema_down with the value 0: append to the waiters and block. */
  ghost function SleepOn(S: Sys, s: nat): Sys
    requires S.current in S.thr && s in S.sema
  {
    S.(thr := S.thr[S.current := S.thr[S.current].(stat := Blocked, pc := Retry(s))],
       sema := S.sema[s := S.sema[s].(waiters := S.sema[s].waiters + [S.current])])
  }

  /** Leave sema_down with the semaphore. */
  ghost function Take(S: Sys, s: nat): Sys
    requires S.current in S.thr && s in S.sema && S.sema[s].value > 0
  {
    S.(thr := S.thr[S.current := S.thr[S.current].(pc := if s in S.lock then AcqSet(s) else Out)],
       sema := S.sema[s := S.sema[s].(value := S.sema[s].value - 1)],
       own := if s in S.lock then S.own[s := Some(S.current)] else S.own)
  }

  /** sema_up: wake the first waiter, if any, then raise the value. */
  ghost function Raise(S: Sys, s: nat): Sys
    requires s in S.sema
  {
    var q := S.sema[s].waiters;
    if q != [] && q[0] in S.thr then
      Wake(S, q[0]).(sema := S.sema[s := Sema(S.sema[s].value + 1, q[1..])])
    else
      S.(sema := S.sema[s := Sema(S.sema[s].value + 1, q)])
  }

  /** Only positive depths are recorded. */
  ghost function WithDepth(depth: map<(Tid, nat), nat>, t: Tid, l: nat, d: nat): map<(Tid, nat), nat> {
    if d == 0 then depth - {(t, l)} else depth[(t, l) := d]
  }

  /** One statement of lock_acquire or lock_release that touches lock `l`. */
  ghost function Move(S: Sys, l: nat, pc: Pc, k: Lock, depth: nat): Sys
    requires S.current in S.thr
  {
    SetPc(S, pc).(lock := S.lock[l := k], depth := WithDepth(S.depth, S.current, l, depth))
  }

  /** The last statement of lock_release: sema_up on the semaphore of the lock. */
  ghost function GiveBack(S: Sys, l: nat): Sys
    requires S.current in S.thr && l in S.sema
  {
    var R := Raise(S, l);
    SetPc(R, Out).(own := R.own[l := None])
  }

  // ---- Lists is kept ----

  /** The current thread goes on inside the lock code; the lists do not depend on locks. */
  ghost predicate Advances(S: Sys, S': Sys, pc: Pc) {
    && OneRuns(S) && S'.thr == S.thr[S.current := S.thr[S.current].(pc := pc)] && S'.ready == S.ready
    && S'.current == S.current && S'.idle == S.idle && S'.sema == S.sema && S'.lock.Keys == S.lock.Keys
  }

  lemma AdvanceLists(S: Sys, S': Sys, pc: Pc)
    requires Lists(S) && Advances(S, S', pc) && S.current != S.idle
    requires pc.Out? || (!pc.Retry? && pc.l in S.lock)
    ensures Lists(S') && OneRuns(S')
  {
    hide NoDup;
    assert ReadyOk(S'.thr, S'.ready) by {
      forall t ensures IsReady(S'.thr, t) <==> IsReady(S.thr, t) { }
    }
    assert AllWaitersOk(S') by {
      forall s, t ensures Sleeps(S'.thr, t, s) <==> Sleeps(S.thr, t, s) { }
      forall s | s in S'.sema ensures WaitersOk(S'.thr, s, S'.sema[s].waiters) {
        assert WaitersOk(S.thr, s, S.sema[s].waiters);
      }
    }
    assert ThreadsOk(S') by {
      forall t | t in S'.thr ensures ThreadOk(S', t) { assert ThreadOk(S, t); }
    }
  }

  lemma ReadySame(thr: map<Tid, Thread>, thr': map<Tid, Thread>, q: seq<Tid>)
    requires ReadyOk(thr, q) && forall t :: IsReady(thr', t) <==> IsReady(thr, t)
    ensures ReadyOk(thr', q)
  {
  }

  /** The waiters of `s` do not change when no thread falls asleep there or is woken there. */
  lemma WaitersSame(S: Sys, S': Sys, s: nat)
    requires AllWaitersOk(S) && s in S.sema && s in S'.sema && S'.sema[s].waiters == S.sema[s].waiters
    requires forall t :: Sleeps(S'.thr, t, s) <==> Sleeps(S.thr, t, s)
    ensures WaitersOk(S'.thr, s, S'.sema[s].waiters)
  {
    hide NoDup;
    assert WaitersOk(S.thr, s, S.sema[s].waiters);
  }

  lemma WaitersPlus(thr: map<Tid, Thread>, s: nat, q: seq<Tid>, t: Tid, th: Thread)
    requires WaitersOk(thr, s, q) && !Sleeps(thr, t, s) && th.stat == Blocked && th.pc == Retry(s)
    ensures WaitersOk(thr[t := th], s, q + [t])
  {
    hide NoDup;
    AppendFacts(q, t);
    forall u ensures Sleeps(thr[t := th], u, s) <==> u == t || Sleeps(thr, u, s) { }
  }

  lemma WaitersMinus(thr: map<Tid, Thread>, s: nat, q: seq<Tid>, th: Thread)
    requires WaitersOk(thr, s, q) && q != [] && th.stat != Blocked
    ensures Sleeps(thr, q[0], s) && WaitersOk(thr[q[0] := th], s, q[1..])
  {
    hide NoDup;
    PopFacts(q);
    assert q[0] in q;
    forall u ensures Sleeps(thr[q[0] := th], u, s) <==> u != q[0] && Sleeps(thr, u, s) { }
  }

  lemma SleepOnLists(S: Sys, s: nat)
    requires Lists(S) && OneRuns(S) && s in S.sema && S.current != S.idle
    ensures Lists(SleepOn(S, s)) && !OneRuns(SleepOn(S, s))
  {
    hide ReadyOk, WaitersOk;
    var S' := SleepOn(S, s);
    ReadySame(S.thr, S'.thr, S.ready);
    assert AllWaitersOk(S') by {
      WaitersPlus(S.thr, s, S.sema[s].waiters, S.current, S'.thr[S.current]);
      forall r | r in S'.sema && r != s ensures WaitersOk(S'.thr, r, S'.sema[r].waiters) {
        WaitersSame(S, S', r);
      }
    }
    assert ThreadsOk(S') by {
      forall t | t in S'.thr ensures ThreadOk(S', t) { assert ThreadOk(S, t); }
    }
  }

  lemma TakeLists(S: Sys, s: nat)
    requires Lists(S) && OneRuns(S) && s in S.sema && S.current != S.idle && S.sema[s].value > 0
    ensures Lists(Take(S, s)) && OneRuns(Take(S, s))
  {
    hide ReadyOk, WaitersOk;
    var S' := Take(S, s);
    ReadySame(S.thr, S'.thr, S.ready);
    assert AllWaitersOk(S') by {
      forall r | r in S'.sema ensures WaitersOk(S'.thr, r, S'.sema[r].waiters) {
        WaitersSame(S, S', r);
      }
    }
    assert ThreadsOk(S') by {
      forall t | t in S'.thr ensures ThreadOk(S', t) { assert ThreadOk(S, t); }
    }
  }

  /** The thread that sema_up pops is BLOCKED and not on the ready list: the assertions of thread_unblock. */
  lemma FirstWaiterSleeps(S: Sys, s: nat)
    requires Lists(S) && s in S.sema && S.sema[s].waiters != []
    ensures var w := S.sema[s].waiters[0]; w in S.thr && S.thr[w].stat == Blocked && w !in S.ready && S.thr[w].pc == Retry(s)
  {
    hide NoDup;
    assert WaitersOk(S.thr, s, S.sema[s].waiters);
    var w := S.sema[s].waiters[0];
    assert w in S.sema[s].waiters;
    assert Sleeps(S.thr, w, s);
    assert w in S.ready ==> IsReady(S.thr, w);
  }

  lemma RaiseWaiters(S: Sys, s: nat)
    requires Lists(S) && s in S.sema
    ensures AllWaitersOk(Raise(S, s))
  {
    hide WaitersOk, ReadyOk;
    var S' := Raise(S, s);
    var q := S.sema[s].waiters;
    assert WaitersOk(S.thr, s, q);
    if q != [] {
      FirstWaiterSleeps(S, s);
      WaitersMinus(S.thr, s, q, S'.thr[q[0]]);
    }
    forall r | r in S'.sema && r != s ensures WaitersOk(S'.thr, r, S'.sema[r].waiters) {
      WaitersSame(S, S', r);
    }
  }

  lemma RaiseLists(S: Sys, s: nat)
    requires Lists(S) && OneRuns(S) && s in S.sema
    ensures Lists(Raise(S, s)) && OneRuns(Raise(S, s))
  {
    hide ReadyOk, WaitersOk, AllWaitersOk;
    var S' := Raise(S, s);
    var q := S.sema[s].waiters;
    RaiseWaiters(S, s);
    if q != [] {
      FirstWaiterSleeps(S, s);
      ReadyPlus(S.thr, S.ready, q[0], S'.thr[q[0]]);
    }
    assert ThreadsOk(S') by {
      forall t | t in S'.thr ensures ThreadOk(S', t) { assert ThreadOk(S, t); }
    }
  }

  // ---- LocksOk and WakesOk are kept ----

  ghost predicate SameRole(S: Sys, S': Sys, l: nat, t: Tid) {
    && Depth(S', t, l) == Depth(S, t, l)
    && (t in S'.thr ==> RoleIn(S'.thr[t].pc, l) == if t in S.thr then RoleIn(S.thr[t].pc, l) else Outside)
  }

  ghost predicate LockSame(S: Sys, S': Sys, l: nat)
    requires l in S.lock
  {
    && l in S'.lock && S'.lock[l] == S.lock[l]
    && l in S.sema && l in S'.sema && S'.sema[l].value == S.sema[l].value
    && l in S.own && l in S'.own && S'.own[l] == S.own[l]
    && (forall t: Tid :: SameRole(S, S', l, t))
    && (S.own[l].Some? && S.own[l].value in S.thr ==> S.own[l].value in S'.thr)
  }

  lemma LockFrame(S: Sys, S': Sys, l: nat)
    requires l in S.lock && LockOk(S, l) && LockSame(S, S', l)
    ensures LockOk(S', l)
  {
    hide OwnerOk, Depth, RoleIn;
    forall t: Tid | S'.own[l] != Some(t) ensures NotInside(S', l, t) {
      assert SameRole(S, S', l, t);
      assert NotInside(S, l, t);
    }
    if S.own[l].Some? {
      assert SameRole(S, S', l, S.own[l].value);
    }
  }

  lemma SameSyncLocks(S: Sys, S': Sys)
    requires LocksOk(S) && SameSync(S, S')
    ensures LocksOk(S')
  {
    hide RoleIn, NotInside, OwnedBy;
    forall l | l in S'.lock ensures LockOk(S', l) {
      assert LockOk(S, l);
      LockFrame(S, S', l);
    }
  }

  lemma WakeFrame(S: Sys, S': Sys, s: nat)
    requires s in S.sema && WakeOk(S, s) && s in S'.sema && S'.sema[s] == S.sema[s]
    requires forall t :: Woken(S.thr, t, s) ==> Woken(S'.thr, t, s)
    ensures WakeOk(S', s)
  {
  }

  lemma SameSyncWakes(S: Sys, S': Sys)
    requires WakesOk(S) && SameSync(S, S')
    ensures WakesOk(S')
  {
    forall s | s in S'.sema ensures WakeOk(S', s) {
      assert WakeOk(S, s);
      WakeFrame(S, S', s);
    }
  }

  ghost predicate MoveOk(S: Sys, l: nat, pc: Pc, k: Lock, depth: nat)
    requires S.current in S.thr && l in S.lock && l in S.own
  {
    if S.own[l] == Some(S.current) then OwnerOk(RoleIn(pc, l), k, S.current, depth)
    else k == S.lock[l] && depth == 0 && RoleIn(pc, l) in {Outside, Wants}
  }

  lemma MoveOthers(S: Sys, l: nat, pc: Pc, k: Lock, depth: nat, m: nat)
    requires OneRuns(S) && l in S.lock && m in S.lock && m != l && LockOk(S, m)
    requires S.thr[S.current].pc.Out? || (!S.thr[S.current].pc.Retry? && S.thr[S.current].pc.l == l)
    requires pc.Out? || (!pc.Retry? && pc.l == l)
    ensures LockOk(Move(S, l, pc, k, depth), m)
  {
    hide NotInside, OwnedBy;
    LockFrame(S, Move(S, l, pc, k, depth), m);
  }

  lemma MoveThis(S: Sys, l: nat, pc: Pc, k: Lock, depth: nat)
    requires OneRuns(S) && l in S.lock && LockOk(S, l) && MoveOk(S, l, pc, k, depth)
    ensures LockOk(Move(S, l, pc, k, depth), l)
  {
    var S' := Move(S, l, pc, k, depth);
    forall t: Tid | S'.own[l] != Some(t) ensures NotInside(S', l, t) {
      assert NotInside(S, l, t);
    }
  }

  lemma MoveLocks(S: Sys, l: nat, pc: Pc, k: Lock, depth: nat)
    requires LocksOk(S) && OneRuns(S) && l in S.lock && l in S.own
    requires S.thr[S.current].pc.Out? || (!S.thr[S.current].pc.Retry? && S.thr[S.current].pc.l == l)
    requires pc.Out? || (!pc.Retry? && pc.l == l)
    requires MoveOk(S, l, pc, k, depth)
    ensures LocksOk(Move(S, l, pc, k, depth))
  {
    hide LockOk, MoveOk;
    forall m | m in S.lock ensures LockOk(Move(S, l, pc, k, depth), m) {
      assert LockOk(S, m);
      if m == l { MoveThis(S, l, pc, k, depth); } else { MoveOthers(S, l, pc, k, depth, m); }
    }
  }

  lemma AdvanceWakes(S: Sys, S': Sys, pc: Pc)
    requires WakesOk(S) && Advances(S, S', pc) && !S.thr[S.current].pc.Retry?
    ensures WakesOk(S')
  {
    forall s | s in S'.sema ensures WakeOk(S', s) {
      assert WakeOk(S, s);
      WakeFrame(S, S', s);
    }
  }

  /** Where sema_down may be called: on a lock's semaphore from lock_acquire only. */
  ghost predicate MayDown(S: Sys, s: nat)
    requires S.current in S.thr
  {
    s in S.sema && if s in S.lock then S.thr[S.current].pc in {AcqDown(s), Retry(s)} else S.thr[S.current].pc in {Out, Retry(s)}
  }

  lemma SleepOnKeeps(S: Sys, s: nat)
    requires LocksOk(S) && WakesOk(S) && OneRuns(S) && MayDown(S, s) && S.sema[s].value == 0
    ensures LocksOk(SleepOn(S, s)) && WakesOk(SleepOn(S, s))
  {
    var S' := SleepOn(S, s);
    forall l | l in S'.lock ensures LockOk(S', l) {
      assert LockOk(S, l);
      hide NotInside, OwnedBy;
      LockFrame(S, S', l);
    }
    forall r | r in S'.sema ensures WakeOk(S', r) {
      assert WakeOk(S, r);
      if r != s { WakeFrame(S, S', r); }
    }
  }

  lemma TakeThis(S: Sys, s: nat)
    requires OneRuns(S) && MayDown(S, s) && S.sema[s].value == 1 && s in S.lock && LockOk(S, s)
    ensures LockOk(Take(S, s), s)
  {
    var S' := Take(S, s);
    assert NotInside(S, s, S.current);
    forall t: Tid | t != S.current ensures NotInside(S', s, t) {
      assert NotInside(S, s, t);
    }
  }

  lemma TakeOthers(S: Sys, s: nat, l: nat)
    requires OneRuns(S) && MayDown(S, s) && S.sema[s].value == 1 && l in S.lock && l != s && LockOk(S, l)
    ensures LockOk(Take(S, s), l)
  {
    hide NotInside, OwnedBy;
    LockFrame(S, Take(S, s), l);
  }

  lemma TakeWakes(S: Sys, s: nat)
    requires WakesOk(S) && OneRuns(S) && MayDown(S, s) && S.sema[s].value > 0
    ensures S.sema[s].value == 1 && WakesOk(Take(S, s)) && Take(S, s).sema[s].value == 0
  {
    assert WakeOk(S, s);
    forall r | r in Take(S, s).sema && r != s ensures WakeOk(Take(S, s), r) {
      assert WakeOk(S, r);
      WakeFrame(S, Take(S, s), r);
    }
  }

  lemma TakeKeeps(S: Sys, s: nat)
    requires LocksOk(S) && WakesOk(S) && OneRuns(S) && MayDown(S, s) && S.sema[s].value > 0
    ensures LocksOk(Take(S, s)) && WakesOk(Take(S, s)) && Take(S, s).sema[s].value == 0
  {
    TakeWakes(S, s);
    hide LockOk, MayDown, WakesOk;
    forall l | l in S.lock ensures LockOk(Take(S, s), l) {
      assert LockOk(S, l);
      if l == s { TakeThis(S, s); } else { TakeOthers(S, s, l); }
    }
  }

  lemma RaiseWakes(S: Sys, s: nat)
    requires Lists(S) && WakesOk(S) && s in S.sema && S.sema[s].value == 0
    ensures WakesOk(Raise(S, s)) && Raise(S, s).sema[s].value == 1
  {
    hide Lists;
    var S' := Raise(S, s);
    var q := S.sema[s].waiters;
    if q != [] {
      FirstWaiterSleeps(S, s);
      assert Woken(S'.thr, q[0], s);
    }
    forall r | r in S'.sema && r != s ensures WakeOk(S', r) {
      assert WakeOk(S, r);
      WakeFrame(S, S', r);
    }
  }

  lemma RaiseLocks(S: Sys, s: nat)
    requires Lists(S) && LocksOk(S) && s in S.sema && s !in S.lock
    ensures LocksOk(Raise(S, s))
  {
    hide Lists, RoleIn;
    var S' := Raise(S, s);
    forall l | l in S'.lock ensures LockOk(S', l) {
      assert LockOk(S, l);
      hide NotInside, OwnedBy;
      LockFrame(S, S', l);
    }
  }

  lemma GiveBackOthers(S: Sys, l: nat, m: nat)
    requires Lists(S) && OneRuns(S) && S.thr[S.current].pc == RelUp(l) && l in S.lock && l in S.sema
    requires m in S.lock && m != l && LockOk(S, m)
    ensures LockOk(GiveBack(S, l), m)
  {
    hide Lists, NotInside, OwnedBy;
    LockFrame(S, GiveBack(S, l), m);
  }

  lemma GiveBackThis(S: Sys, l: nat)
    requires Lists(S) && OneRuns(S) && S.thr[S.current].pc == RelUp(l) && l in S.lock && LockOk(S, l)
    requires S.own[l] == Some(S.current)
    ensures LockOk(GiveBack(S, l), l)
  {
    hide Lists;
    var S' := GiveBack(S, l);
    assert OwnedBy(S, l, S.current);
    forall t: Tid ensures NotInside(S', l, t) {
      if t != S.current { assert NotInside(S, l, t); }
    }
  }

  lemma GiveBackLocks(S: Sys, l: nat)
    requires Lists(S) && LocksOk(S) && OneRuns(S) && S.thr[S.current].pc == RelUp(l) && l in S.lock
    requires l in S.own && S.own[l] == Some(S.current) && l in S.sema
    ensures LocksOk(GiveBack(S, l))
  {
    hide Lists, LockOk;
    forall m | m in S.lock ensures LockOk(GiveBack(S, l), m) {
      assert LockOk(S, m);
      if m == l { GiveBackThis(S, l); } else { GiveBackOthers(S, l, m); }
    }
  }

  /** A thread at a point inside lock `l` past its semaphore owns the lock. */
  lemma InsideOwns(S: Sys, l: nat, t: Tid)
    requires l in S.lock && LockOk(S, l) && t in S.thr
    requires RoleIn(S.thr[t].pc, l) !in {Outside, Wants} || Depth(S, t, l) > 0
    ensures S.own[l] == Some(t) && OwnedBy(S, l, t) && S.sema[l].value == 0
  {
    assert S.own[l] != Some(t) ==> NotInside(S, l, t);
  }

  // ---- threads that come and go ----

  ghost predicate NoLocks(S: Sys, t: Tid) {
    forall l :: l in S.lock ==> Depth(S, t, l) == 0
  }

  ghost function Start(S: Sys, t: Tid, prio: nat): Sys {
    S.(thr := S.thr[t := Thread(Ready, prio, prio, Out)], ready := S.ready + [t])
  }

  ghost function Remove(S: Sys, t: Tid): Sys {
    S.(thr := S.thr - {t})
  }

  lemma StartKeeps(S: Sys, t: Tid, prio: nat)
    requires Lists(S) && t !in S.thr
    ensures Lists(Start(S, t, prio))
  {
    hide ReadyOk, WaitersOk;
    var S' := Start(S, t, prio);
    ReadyPlus(S.thr, S.ready, t, S'.thr[t]);
    forall r | r in S'.sema ensures WaitersOk(S'.thr, r, S'.sema[r].waiters) {
      WaitersSame(S, S', r);
    }
    forall u | u in S'.thr ensures ThreadOk(S', u) {
      if u != t { assert ThreadOk(S, u); }
    }
  }

  lemma StartSyncKeeps(S: Sys, t: Tid, prio: nat)
    requires LocksOk(S) && WakesOk(S) && t !in S.thr
    ensures LocksOk(Start(S, t, prio)) && WakesOk(Start(S, t, prio))
  {
    var S' := Start(S, t, prio);
    forall l | l in S'.lock ensures LockOk(S', l) {
      assert LockOk(S, l);
      hide NotInside, OwnedBy;
      LockFrame(S, S', l);
    }
    forall r | r in S'.sema ensures WakeOk(S', r) {
      assert WakeOk(S, r);
      WakeFrame(S, S', r);
    }
  }

  lemma RemoveLists(S: Sys, t: Tid)
    requires Lists(S) && t in S.thr && S.thr[t].stat != Ready && t != S.idle && S.thr[t].pc == Out
    ensures Lists(Remove(S, t)) && (t != S.current ==> OneRuns(S) ==> OneRuns(Remove(S, t)))
    ensures t == S.current ==> !OneRuns(Remove(S, t))
  {
    hide ReadyOk, WaitersOk;
    var S' := Remove(S, t);
    ReadySame(S.thr, S'.thr, S.ready);
    forall r | r in S'.sema ensures WaitersOk(S'.thr, r, S'.sema[r].waiters) {
      WaitersSame(S, S', r);
    }
    forall u | u in S'.thr ensures ThreadOk(S', u) { assert ThreadOk(S, u); }
  }

  lemma RemoveSyncKeeps(S: Sys, t: Tid)
    requires LocksOk(S) && WakesOk(S) && t in S.thr && S.thr[t].pc == Out && NoLocks(S, t)
    ensures LocksOk(Remove(S, t)) && WakesOk(Remove(S, t))
  {
    var S' := Remove(S, t);
    forall l | l in S'.lock ensures LockOk(S', l) {
      assert LockOk(S, l);
      assert S.own[l] != Some(t) by {
        assert Depth(S, t, l) == 0;
      }
      hide NotInside, OwnedBy;
      LockFrame(S, S', l);
    }
    forall r | r in S'.sema ensures WakeOk(S', r) {
      assert WakeOk(S, r);
      WakeFrame(S, S', r);
    }
  }

  /** thread_exit takes the victim's tag off the wrong list, so the ready list stays exact iff the victim was
      not READY. */
  lemma RemoveExactly(S: Sys, t: Tid)
    requires Lists(S) && t in S.thr && S.thr[t].stat != Blocked
    ensures ReadyOk(Remove(S, t).thr, S.ready) <==> S.thr[t].stat != Ready
  {
    hide NoDup;
    var thr := Remove(S, t).thr;
    if S.thr[t].stat == Ready {
      assert IsReady(S.thr, t) && !IsReady(thr, t);
    } else {
      forall u ensures IsReady(thr, u) <==> IsReady(S.thr, u) { }
    }
  }
}
