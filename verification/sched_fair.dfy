/** How long a ready thread waits, counted in calls of schedule and in timer interrupts. */
module Fairness {
  import opened Basics
  import opened Scheduling
  import opened Synchronisation
  import opened Interleavings

  /** The step calls schedule. */
  ghost predicate CallsSchedule(S: Sys, e: Step)
    requires OneRuns(S)
  {
    match e
    case Timer => Cur(S).ticks == 0
    case Go => SleepsNow(S)
    case Down(s) => s in S.sema && S.sema[s].value == 0
    case Block(_) => true
    case Yield => true
    case Exit => true
    case _ => false
  }

  ghost predicate SleepsNow(S: Sys)
    requires OneRuns(S)
  {
    var pc := Cur(S).pc;
    (pc.Retry? && pc.s in S.sema && S.sema[pc.s].value == 0) || (pc.AcqDown? && pc.l in S.sema && S.sema[pc.l].value == 0)
  }

  /** The step calls thread_unblock for a thread; schedule does so for the idle thread only when no thread is ready. */
  ghost predicate CallsUnblock(S: Sys, e: Step)
    requires OneRuns(S)
  {
    match e
    case Unblock(_) => true
    case Up(s) => s in S.sema && S.sema[s].waiters != []
    case Go => Cur(S).pc.RelUp? && Cur(S).pc.l in S.sema && S.sema[Cur(S).pc.l].waiters != []
    case _ => false
  }

  /** The threads that run before position `k` of the ready list: the running one and those ahead. */
  ghost function Line(S: Sys, k: nat): seq<Tid>
    requires k <= |S.ready|
  {
    [S.current] + S.ready[..k]
  }

  ghost predicate TicksSame(S: Sys, S': Sys, q: seq<Tid>) {
    forall i :: 0 <= i < |q| ==> q[i] in S.thr && q[i] in S'.thr && S'.thr[q[i]].ticks == S.thr[q[i]].ticks
  }

  /** What schedule does to a thread at position `k`. */
  ghost predicate MovedUp(S: Sys, S': Sys, k: nat)
    requires k < |S.ready|
  {
    && S'.current == S.ready[0]
    && (k > 0 ==> k - 1 < |S'.ready| && S'.ready[k - 1] == S.ready[k] && Line(S', k - 1) == Line(S, k)[1..])
    && TicksSame(S, S', S.ready[..k])
  }

  lemma ReadyFacts(S: Sys, i: nat)
    requires Lists(S) && i < |S.ready|
    ensures S.ready[i] in S.thr && S.thr[S.ready[i]].stat == Ready && (OneRuns(S) ==> S.ready[i] != S.current)
  {
    hide NoDup, AllWaitersOk, ThreadsOk;
    assert S.ready[i] in S.ready;
    assert IsReady(S.thr, S.ready[i]);
  }

  ghost predicate SameButCurrent(S: Sys, S': Sys) {
    forall t :: t in S.thr && (t != S.current || !OneRuns(S)) ==> t in S'.thr && S'.thr[t].ticks == S.thr[t].ticks
  }

  lemma SchedShape(S: Sys)
    requires Lists(S) && S.ready != []
    ensures Sched(S).current == S.ready[0] && SameButCurrent(S, Sched(S))
    ensures Sched(S).ready == S.ready[1..] || Sched(S).ready == S.ready[1..] + [S.current]
  {
    ReadyFacts(S, 0);
    hide Lists, SameSync;
    assert (S.ready + [S.current])[1..] == S.ready[1..] + [S.current];
  }

  lemma ShiftLine(S: Sys, S': Sys, k: nat)
    requires k < |S.ready| && S'.current == S.ready[0]
    requires S'.ready == S.ready[1..] || S'.ready == S.ready[1..] + [S.current]
    ensures k > 0 ==> k - 1 < |S'.ready| && S'.ready[k - 1] == S.ready[k] && Line(S', k - 1) == Line(S, k)[1..]
  {
  }

  lemma AheadSame(S: Sys, S': Sys, k: nat)
    requires Lists(S) && k < |S.ready| && SameButCurrent(S, S')
    ensures TicksSame(S, S', S.ready[..k])
  {
    AllReadyFacts(S);
    hide Lists;
  }

  lemma SchedMoves(S: Sys, k: nat)
    requires Lists(S) && k < |S.ready|
    ensures MovedUp(S, Sched(S), k)
  {
    hide Lists, SameSync, Sched, SameButCurrent, TicksSame, Line;
    SchedShape(S);
    ShiftLine(S, Sched(S), k);
    AheadSame(S, Sched(S), k);
  }

  /** What the other steps do to it. */
  ghost predicate Stays(S: Sys, S': Sys, k: nat, shift: nat)
    requires k < |S.ready|
  {
    && S'.current == S.current && k + shift < |S'.ready| && S'.ready[k + shift] == S.ready[k]
    && (shift == 0 ==> S'.ready[..k] == S.ready[..k])
    && TicksSame(S, S', S.ready[..k])
  }

  lemma AllReadyFacts(S: Sys)
    requires Lists(S)
    ensures forall i :: 0 <= i < |S.ready| ==> S.ready[i] in S.thr && S.thr[S.ready[i]].stat == Ready && (OneRuns(S) ==> S.ready[i] != S.current)
  {
    forall i | 0 <= i < |S.ready| ensures S.ready[i] in S.thr && S.thr[S.ready[i]].stat == Ready && (OneRuns(S) ==> S.ready[i] != S.current) {
      ReadyFacts(S, i);
    }
  }

  ghost predicate OnlyCurrent(S: Sys, T: Sys) {
    forall t :: t in S.thr && t != S.current ==> t in T.thr && T.thr[t].ticks == S.thr[t].ticks
  }

  /** A step that calls schedule first changes only the running thread and what waits behind. */
  lemma SchedAfter(S: Sys, T: Sys, k: nat)
    requires Lists(T) && Lists(S) && OneRuns(S) && k < |S.ready| && T.current == S.current
    requires T.ready == S.ready || T.ready == S.ready + [S.current]
    requires OnlyCurrent(S, T)
    ensures MovedUp(S, Sched(T), k)
  {
    hide Lists, Sched, TicksSame, SameSync;
    assert T.ready[..k] == S.ready[..k] && T.ready[k] == S.ready[k] && T.ready[0] == S.ready[0];
    SchedMoves(T, k);
    AheadThrough(S, T, Sched(T), k);
    if k > 0 { assert Line(T, k)[1..] == Line(S, k)[1..]; }
  }

  lemma AheadThrough(S: Sys, T: Sys, U: Sys, k: nat)
    requires Lists(S) && OneRuns(S) && k < |S.ready| && k < |T.ready| && OnlyCurrent(S, T)
    requires T.ready[..k] == S.ready[..k] && TicksSame(T, U, T.ready[..k])
    ensures TicksSame(S, U, S.ready[..k])
  {
    AllReadyFacts(S);
    hide Lists;
    forall i | 0 <= i < k ensures S.ready[i] in S.thr && S.ready[i] in U.thr && U.thr[S.ready[i]].ticks == S.thr[S.ready[i]].ticks {
      assert T.ready[..k][i] == S.ready[..k][i];
    }
  }

  lemma TryDownMoves(S: Sys, s: nat, k: nat)
    requires Lists(S) && OneRuns(S) && s in S.sema && S.current != S.idle && k < |S.ready|
    ensures if S.sema[s].value == 0 then MovedUp(S, TryDown(S, s), k) else Stays(S, TryDown(S, s), k, 0)
  {
    AllReadyFacts(S);
    hide Lists, Sched;
    if S.sema[s].value == 0 {
      SleepOnLists(S, s);
      SchedAfter(S, SleepOn(S, s), k);
    }
  }

  lemma RaiseMoves(S: Sys, s: nat, k: nat)
    requires Lists(S) && OneRuns(S) && s in S.sema && k < |S.ready|
    ensures Stays(S, Raise(S, s), k, if S.sema[s].waiters != [] then 1 else 0)
  {
    AllReadyFacts(S);
    if S.sema[s].waiters != [] { FirstWaiterSleeps(S, s); }
    hide Lists;
  }

  lemma PcMoves(S: Sys, T: Sys, S': Sys, k: nat, shift: nat, pc: Pc)
    requires k < |S.ready| && Stays(S, T, k, shift) && T.current in T.thr && T.current == S.current
    requires S'.thr == T.thr[T.current := T.thr[T.current].(pc := pc)] && S'.ready == T.ready && S'.current == T.current
    ensures Stays(S, S', k, shift)
  {
  }

  lemma StaysSelf(S: Sys, k: nat)
    requires Lists(S) && k < |S.ready|
    ensures Stays(S, S, k, 0)
  {
    AllReadyFacts(S);
  }

  lemma GoMoves(S: Sys, k: nat)
    requires Inv(S) && !Cur(S).pc.Out? && k < |S.ready| && S.lock.Keys <= S.sema.Keys
    ensures if SleepsNow(S) then MovedUp(S, GoOn(S), k) else Stays(S, GoOn(S), k, if CallsUnblock(S, Go) then 1 else 0)
  {
    InCodeOk(S);
    InvRuns(S);
    hide Inv, Lists, TryDown, Raise, MovedUp, Stays, Statement;
    var pc := Cur(S).pc;
    if pc.Retry? {
      TryDownMoves(S, pc.s, k);
    } else if pc.AcqDown? {
      TryDownMoves(S, pc.l, k);
    } else if pc.RelUp? {
      RaiseMoves(S, pc.l, k);
      CurStays(S, Raise(S, pc.l), k, if CallsUnblock(S, Go) then 1 else 0);
      RaiseLists(S, pc.l);
      PcMoves(S, Raise(S, pc.l), GiveBack(S, pc.l), k, if CallsUnblock(S, Go) then 1 else 0, Out);
    } else {
      StaysSelf(S, k);
      PcMoves(S, S, MoveOn(S, pc.l), k, 0, Statement(pc, S.lock[pc.l], S.current, Depth(S, S.current, pc.l)).pc);
    }
  }

  lemma CurStays(S: Sys, S': Sys, k: nat, shift: nat)
    requires k < |S.ready| && Stays(S, S', k, shift)
    ensures S'.current == S.current
  {
  }

  lemma PlainStays(S: Sys, S': Sys, k: nat, shift: nat)
    requires Lists(S) && OneRuns(S) && k < |S.ready| && OnlyCurrent(S, S') && S'.current == S.current
    requires if shift == 0 then S.ready <= S'.ready else shift == 1 && |S'.ready| == |S.ready| + 1 && S'.ready[1..] == S.ready
    ensures Stays(S, S', k, shift)
  {
    AllReadyFacts(S);
    hide Lists;
    if shift == 1 { assert S'.ready[1..][k] == S.ready[k]; }
  }

  /** One step: schedule moves a ready thread one place forward, thread_unblock one place back, nothing else moves it. */
  lemma StepMoves(S: Sys, e: Step, k: nat)
    requires Inv(S) && OneRuns(S) && Enabled(S, e) && k < |S.ready|
    ensures if CallsSchedule(S, e) then MovedUp(S, After(S, e), k)
            else Stays(S, After(S, e), k, if CallsUnblock(S, e) then 1 else 0)
  {
    hide Inv, OneRuns, Lists, MovedUp, Stays;
    InvRuns(S);
    if e.Timer? || e.Block? || e.Yield? || e.Exit? {
      SwitchMoves(S, e, k);
    } else if e.Acquire? || e.Release? || e.Unblock? || e.Spawn? || e.Reap? {
      CallMoves(S, e, k);
    } else {
      InvParts(S);
      LocksHaveSemas(S);
      hide GoOn, TryDown, Raise, LocksOk, WakesOk;
      match e {
        case Go => GoMoves(S, k);
        case Down(s) => TryDownMoves(S, s, k);
        case Up(s) => RaiseMoves(S, s, k);
      }
    }
  }

  lemma StopMoves(S: Sys, st: Stat, k: nat)
    requires Lists(S) && OneRuns(S) && k < |S.ready| && Cur(S).pc == Out && st in {Blocked, Hanging, Waiting}
    requires S.current == S.idle ==> st == Blocked
    ensures Lists(SetStat(S, S.current, st)) && MovedUp(S, Sched(SetStat(S, S.current, st)), k)
  {
    hide Lists, MovedUp, Sched, SameSync;
    StopLists(S, st);
    SchedAfter(S, SetStat(S, S.current, st), k);
  }

  lemma YieldMoves(S: Sys, k: nat)
    requires Lists(S) && OneRuns(S) && k < |S.ready| && Cur(S).pc == Out
    ensures Lists(ToBack(S)) && MovedUp(S, Sched(ToBack(S)), k)
  {
    hide Lists, MovedUp, Sched, SameSync;
    ToBackLists(S);
    SchedAfter(S, ToBack(S), k);
  }

  lemma ExitMoves(S: Sys, k: nat)
    requires Lists(S) && OneRuns(S) && k < |S.ready| && Cur(S).pc == Out && S.current != S.idle
    ensures Lists(Remove(S, S.current)) && MovedUp(S, Sched(Remove(S, S.current)), k)
  {
    hide Lists, MovedUp, Sched, SameSync;
    RemoveLists(S, S.current);
    SchedAfter(S, Remove(S, S.current), k);
  }

  lemma SwitchMoves(S: Sys, e: Step, k: nat)
    requires Inv(S) && OneRuns(S) && Enabled(S, e) && k < |S.ready| && (e.Timer? || e.Block? || e.Yield? || e.Exit?)
    ensures if CallsSchedule(S, e) then MovedUp(S, After(S, e), k) else Stays(S, After(S, e), k, 0)
  {
    InvRuns(S);
    hide Inv, OneRuns, Lists, MovedUp, Stays, Sched, SameSync, NoLocks, SetStat, ToBack, Remove, Tick;
    match e {
      case Timer => if Cur(S).ticks == 0 { SchedAfter(S, S, k) by { OnlySelf(S); } } else { TickStays(S, k); }
      case Block(st) => StopMoves(S, st, k);
      case Yield => YieldMoves(S, k);
      case Exit => ExitMoves(S, k);
    }
  }

  lemma OnlySelf(S: Sys)
    ensures OnlyCurrent(S, S)
  {
  }

  lemma TickStays(S: Sys, k: nat)
    requires Lists(S) && OneRuns(S) && k < |S.ready| && Cur(S).ticks > 0
    ensures Stays(S, Tick(S), k, 0)
  {
    hide Lists, Stays;
    PlainStays(S, Tick(S), k, 0);
  }

  lemma CallMoves(S: Sys, e: Step, k: nat)
    requires Inv(S) && Enabled(S, e) && k < |S.ready| && (e.Acquire? || e.Release? || e.Unblock? || e.Spawn? || e.Reap?)
    ensures Stays(S, After(S, e), k, if CallsUnblock(S, e) then 1 else 0)
  {
    InvRuns(S);
    hide Inv, Lists, LocksOk, WakesOk, Stays, NoLocks, Depth;
    match e {
      case Acquire(l) => PlainStays(S, After(S, e), k, 0);
      case Release(l) => PlainStays(S, After(S, e), k, 0);
      case Unblock(t) => PlainStays(S, Wake(S, t), k, 1);
      case Spawn(t, prio) => PlainStays(S, Start(S, t, prio), k, 0);
      case Reap(t) => ReapStays(S, t, k);
    }
  }

  lemma ReapStays(S: Sys, t: Tid, k: nat)
    requires Lists(S) && OneRuns(S) && k < |S.ready| && t in S.thr && S.thr[t].stat == Hanging
    ensures Stays(S, Remove(S, t), k, 0)
  {
    AllReadyFacts(S);
    hide Lists;
  }

  // ---- over a run ----

  ghost function ScheduleCalls(states: seq<Sys>, run: seq<Step>, n: nat): nat
    requires n <= |run| && |states| == |run| + 1
  {
    if n == 0 then 0
    else ScheduleCalls(states, run, n - 1) + if OneRuns(states[n - 1]) && CallsSchedule(states[n - 1], run[n - 1]) then 1 else 0
  }

  ghost function Unblocks(states: seq<Sys>, run: seq<Step>, n: nat): nat
    requires n <= |run| && |states| == |run| + 1
  {
    if n == 0 then 0
    else Unblocks(states, run, n - 1) + if OneRuns(states[n - 1]) && CallsUnblock(states[n - 1], run[n - 1]) then 1 else 0
  }

  ghost predicate NotYet(states: seq<Sys>, n: nat, t: Tid)
    requires n < |states|
  {
    forall m :: 0 < m <= n ==> states[m].current != t
  }

  ghost function Calls(b: bool): nat { if b then 1 else 0 }

  ghost predicate StandsAt(S: Sys, t: Tid, p: int) {
    0 <= p < |S.ready| && S.ready[p] == t
  }

  /** Where a ready thread stands after a step that does not run it. */
  lemma NextPlace(S: Sys, e: Step, k: int, t: Tid)
    requires Inv(S) && OneRuns(S) && Enabled(S, e) && StandsAt(S, t, k) && After(S, e).current != t
    ensures StandsAt(After(S, e), t, k + Calls(CallsUnblock(S, e)) - Calls(CallsSchedule(S, e)))
  {
    hide Inv, After, Enabled, CallsSchedule, CallsUnblock, Line, TicksSame, OneRuns;
    StepMoves(S, e, k);
    OneOrOther(S, e);
  }

  lemma OneOrOther(S: Sys, e: Step)
    requires OneRuns(S)
    ensures !(CallsUnblock(S, e) && CallsSchedule(S, e))
  {
  }

  lemma CallsStep(states: seq<Sys>, run: seq<Step>, n: nat)
    requires 0 < n <= |run| && |states| == |run| + 1 && OneRuns(states[n - 1])
    ensures ScheduleCalls(states, run, n) == ScheduleCalls(states, run, n - 1) + Calls(CallsSchedule(states[n - 1], run[n - 1]))
    ensures Unblocks(states, run, n) == Unblocks(states, run, n - 1) + Calls(CallsUnblock(states[n - 1], run[n - 1]))
  {
    hide CallsSchedule, CallsUnblock, OneRuns;
  }

  /** A thread that has not run yet stands exactly where the calls of schedule and thread_unblock have moved it. */
  lemma {:induction false} Position(states: seq<Sys>, run: seq<Step>, n: nat, t: Tid, k: nat)
    requires IsRun(states, run) && Inv(states[0]) && n <= |run| && |states| == |run| + 1 && NotYet(states, n, t)
    requires StandsAt(states[0], t, k)
    ensures StandsAt(states[n], t, k + Unblocks(states, run, n) - ScheduleCalls(states, run, n))
  {
    hide Inv, After, Enabled, CallsSchedule, CallsUnblock, StepTo, IsRun, OneRuns, StandsAt;
    if n > 0 {
      Position(states, run, n - 1, t, k);
      RunKeeps(states, run, n - 1);
      RunStep(states, run, n - 1);
      InvRuns(states[n - 1]);
      CallsStep(states, run, n);
      hide Unblocks, ScheduleCalls;
      NextPlace(states[n - 1], run[n - 1], k + Unblocks(states, run, n - 1) - ScheduleCalls(states, run, n - 1), t);
    }
  }

  /** A thread at position k of the ready list runs no later than schedule call k + 1 + u, with u the calls of
      thread_unblock meanwhile. */
  lemma RunsByCall(states: seq<Sys>, run: seq<Step>, n: nat, t: Tid, k: nat)
    requires IsRun(states, run) && Inv(states[0]) && n <= |run| && |states| == |run| + 1
    requires StandsAt(states[0], t, k)
    requires ScheduleCalls(states, run, n) >= k + 1 + Unblocks(states, run, n)
    ensures exists m :: 0 < m <= n && states[m].current == t
  {
    hide Inv, IsRun, Unblocks, ScheduleCalls;
    if NotYet(states, n, t) {
      Position(states, run, n, t, k);
    }
  }

  // ---- in timer interrupts ----

  /** The timer interrupts a queue of threads can use up: each thread its remaining ticks and one more. */
  ghost function TicksLeft(thr: map<Tid, Thread>, q: seq<Tid>): nat {
    if q == [] then 0 else (if q[0] in thr then thr[q[0]].ticks else 0) + 1 + TicksLeft(thr, q[1..])
  }

  ghost function Quanta(thr: map<Tid, Thread>, q: seq<Tid>): nat {
    if q == [] then 0 else (if q[0] in thr then thr[q[0]].prio else 0) + 1 + Quanta(thr, q[1..])
  }

  lemma {:induction false} TicksLeftSame(S: Sys, S': Sys, q: seq<Tid>)
    requires TicksSame(S, S', q)
    ensures TicksLeft(S'.thr, q) == TicksLeft(S.thr, q)
  {
    if q != [] {
      forall i | 0 <= i < |q[1..]| ensures q[1..][i] in S.thr && q[1..][i] in S'.thr && S'.thr[q[1..][i]].ticks == S.thr[q[1..][i]].ticks {
        assert q[1..][i] == q[i + 1];
      }
      assert q[0] in S.thr;
      TicksLeftSame(S, S', q[1..]);
    }
  }

  lemma {:induction false} TicksLeftBound(thr: map<Tid, Thread>, q: seq<Tid>)
    requires forall t :: t in thr ==> thr[t].ticks <= thr[t].prio
    ensures TicksLeft(thr, q) <= Quanta(thr, q)
  {
    if q != [] { TicksLeftBound(thr, q[1..]); }
  }

  /** A step without a call of schedule leaves the running thread its ticks, but for the timer's one. */
  lemma CurTicks(S: Sys, e: Step)
    requires Inv(S) && OneRuns(S) && Enabled(S, e) && !CallsSchedule(S, e)
    ensures S.current in After(S, e).thr && After(S, e).thr[S.current].ticks == S.thr[S.current].ticks - Calls(e.Timer?)
  {
    InvRuns(S);
    hide Inv, Lists, LocksOk, WakesOk, Depth, NoLocks;
    if e.Go? {
      InvParts(S);
      LocksHaveSemas(S);
      hide GoOn;
      GoTicks(S);
    } else if e.Up? {
      hide Raise;
      RaiseTicks(S, e.s);
    } else {
      hide GoOn, Raise, Sched;
    }
  }

  lemma GoTicks(S: Sys)
    requires Inv(S) && OneRuns(S) && Lists(S) && !Cur(S).pc.Out? && S.lock.Keys <= S.sema.Keys && !SleepsNow(S)
    ensures S.current in GoOn(S).thr && GoOn(S).thr[S.current].ticks == S.thr[S.current].ticks
  {
    InCodeOk(S);
    hide Inv, Lists, Depth;
    var pc := Cur(S).pc;
    if pc.RelUp? { RaiseTicks(S, pc.l); }
  }

  lemma RaiseTicks(S: Sys, l: nat)
    requires OneRuns(S) && l in S.sema
    ensures S.current in Raise(S, l).thr && Raise(S, l).thr[S.current].ticks == S.thr[S.current].ticks
    ensures Raise(S, l).current == S.current
  {
  }

  ghost predicate Uses(S: Sys, S': Sys, k: nat, k': nat, timer: nat)
    requires k <= |S.ready| && k' <= |S'.ready|
  {
    TicksLeft(S'.thr, Line(S', k')) + timer <= TicksLeft(S.thr, Line(S, k))
  }

  lemma MovedUpUses(S: Sys, S': Sys, k: nat)
    requires 0 < k < |S.ready| && MovedUp(S, S', k)
    ensures k - 1 < |S'.ready| && Uses(S, S', k, k - 1, 1)
  {
    assert Line(S, k)[1..] == S.ready[..k];
    TicksLeftSame(S, S', S.ready[..k]);
  }

  lemma StaysUses(S: Sys, S': Sys, k: nat, timer: nat)
    requires k < |S.ready| && Stays(S, S', k, 0) && S.current in S.thr && S.current in S'.thr
    requires S'.thr[S.current].ticks == S.thr[S.current].ticks - timer
    ensures k < |S'.ready| && Uses(S, S', k, k, timer)
  {
    assert Line(S, k)[1..] == S.ready[..k] && Line(S', k)[1..] == S.ready[..k];
    TicksLeftSame(S, S', S.ready[..k]);
  }

  /** While nobody is unblocked every timer interrupt uses up what stands before a waiting thread. */
  lemma StepUses(S: Sys, e: Step, k: int, t: Tid)
    requires Inv(S) && OneRuns(S) && Enabled(S, e) && StandsAt(S, t, k) && After(S, e).current != t && !CallsUnblock(S, e)
    ensures var p := k - Calls(CallsSchedule(S, e));
            0 <= p < |After(S, e).ready| && Uses(S, After(S, e), k, p, Calls(e.Timer?))
  {
    hide Inv, After, Enabled, CallsUnblock, Uses, TicksSame, Line;
    StepMoves(S, e, k);
    CurRuns(S);
    if CallsSchedule(S, e) {
      hide CallsSchedule;
      MovedUpFirst(S, After(S, e), k);
      MovedUpUses(S, After(S, e), k);
      UsesLess(S, After(S, e), k, k - 1, Calls(e.Timer?));
    } else {
      CurTicks(S, e);
      hide CallsSchedule;
      StaysUses(S, After(S, e), k, Calls(e.Timer?));
    }
  }

  lemma CurRuns(S: Sys)
    requires OneRuns(S)
    ensures S.current in S.thr
  {
  }

  lemma MovedUpFirst(S: Sys, S': Sys, k: nat)
    requires k < |S.ready| && MovedUp(S, S', k) && S'.current != S.ready[k]
    ensures k > 0
  {
  }

  lemma UsesLess(S: Sys, S': Sys, k: nat, k': nat, timer: nat)
    requires k <= |S.ready| && k' <= |S'.ready| && Uses(S, S', k, k', 1) && timer <= 1
    ensures Uses(S, S', k, k', timer)
  {
  }

  ghost function Timers(run: seq<Step>, n: nat): nat
    requires n <= |run|
  {
    if n == 0 then 0 else Timers(run, n - 1) + Calls(run[n - 1].Timer?)
  }

  ghost predicate Budget(S: Sys, t: Tid, p: int, left: nat) {
    StandsAt(S, t, p) && TicksLeft(S.thr, Line(S, p)) <= left
  }

  lemma NextBudget(S: Sys, e: Step, k: int, t: Tid, left: nat)
    requires Inv(S) && OneRuns(S) && Enabled(S, e) && Budget(S, t, k, left) && After(S, e).current != t && !CallsUnblock(S, e)
    ensures Calls(e.Timer?) <= left && Budget(After(S, e), t, k - Calls(CallsSchedule(S, e)), left - Calls(e.Timer?))
  {
    hide Inv, OneRuns, Enabled, After, CallsUnblock, CallsSchedule, TicksLeft, Line;
    NextPlace(S, e, k, t);
    StepUses(S, e, k, t);
  }

  lemma {:induction false} UsedUp(states: seq<Sys>, run: seq<Step>, n: nat, t: Tid, k: nat, left: nat)
    requires IsRun(states, run) && Inv(states[0]) && n <= |run| && |states| == |run| + 1 && NotYet(states, n, t)
    requires Unblocks(states, run, n) == 0 && Budget(states[0], t, k, left)
    ensures Timers(run, n) <= left && Budget(states[n], t, k - ScheduleCalls(states, run, n), left - Timers(run, n))
  {
    hide Inv, After, Enabled, CallsSchedule, CallsUnblock, StepTo, IsRun, OneRuns, Budget;
    if n > 0 {
      RunKeeps(states, run, n - 1);
      RunStep(states, run, n - 1);
      InvRuns(states[n - 1]);
      CallsStep(states, run, n);
      hide Unblocks, ScheduleCalls;
      UsedUp(states, run, n - 1, t, k, left);
      NextBudget(states[n - 1], run[n - 1], k - ScheduleCalls(states, run, n - 1), t, left - Timers(run, n - 1));
    }
  }

  /** Without calls of thread_unblock a ready thread runs within as many timer interrupts as the quanta, each
      one more than the priority, of the running thread and of those ahead add up to. */
  lemma RunsByTick(states: seq<Sys>, run: seq<Step>, n: nat, t: Tid, k: nat)
    requires IsRun(states, run) && Inv(states[0]) && n <= |run| && |states| == |run| + 1
    requires StandsAt(states[0], t, k) && Unblocks(states, run, n) == 0
    requires Timers(run, n) >= Quanta(states[0].thr, Line(states[0], k))
    ensures exists m :: 0 < m <= n && states[m].current == t
  {
    hide Inv, IsRun, Unblocks, Timers, Quanta;
    if NotYet(states, n, t) {
      var left := TicksLeft(states[0].thr, Line(states[0], k));
      InvTicks(states[0]);
      TicksLeftBound(states[0].thr, Line(states[0], k));
      UsedUp(states, run, n, t, k, left);
    }
  }

  lemma InvTicks(S: Sys)
    requires Inv(S)
    ensures forall t :: t in S.thr ==> S.thr[t].ticks <= S.thr[t].prio
  {
    hide LocksOk, WakesOk;
    TicksOk(S);
  }
}
