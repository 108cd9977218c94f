/** fork, exit and wait over the list of all threads (userprog/fork.c, userprog/wait_exit.c) and the pid pool of
    thread/thread.c.  System calls run with interrupts off, so each is one step; sys_wait is one step per turn of
    its loop. */
module Lifecycle {
  import opened Basics
  import opened Bitmaps

  /** A thread's identity; no two threads ever started share one. */
  type Tid = nat

  const PIDS := 1024

  /** `Runs` stands for RUNNING, READY and BLOCKED. */
  datatype Stat = Runs | Waiting | Hanging

  datatype Proc = Proc(pid: nat, parent: nat, stat: Stat, status: int, user: bool)

  type Table = map<Tid, Proc>

  /** exit_status is an int8_t. */
  function Int8(x: int): (r: int)
    ensures -128 <= r < 128 && (x - r) % 256 == 0
  {
    (x + 128) % 256 - 128
  }

  /** `all` is all_threads_list; `lost` are the pids of forks that failed half way; `exits` and `delivered` record
      what was passed to exit and what wait has returned. */
  datatype World = World(all: seq<Tid>, procs: Table, pids: seq<bool>, init: Tid, next: Tid,
                         lost: set<nat>, exits: map<Tid, int>, delivered: map<Tid, int>)

  // ---- the invariant ----

  ghost predicate ListOk(W: World) {
    NoDup(W.all) && (forall t :: t in W.all <==> t in W.procs) && (forall t :: t in W.procs ==> t < W.next)
  }

  ghost predicate HasPid(procs: Table, t: Tid, pid: nat) {
    t in procs && procs[t].pid == pid
  }

  predicate Taken(pids: seq<bool>, pid: nat) { 1 <= pid <= |pids| && pids[pid - 1] }

  ghost predicate PidHeld(W: World, pid: nat) {
    pid in W.lost || exists t :: HasPid(W.procs, t, pid)
  }

  ghost predicate PidOk(W: World, t: Tid)
    requires t in W.procs
  {
    Taken(W.pids, W.procs[t].pid) && W.procs[t].pid !in W.lost
  }

  ghost predicate Distinct(procs: Table) {
    forall t, u :: t in procs && u in procs && procs[t].pid == procs[u].pid ==> t == u
  }

  /** Pids are distinct, and the pool marks those of the listed threads and the lost ones. */
  ghost predicate PidsOk(W: World) {
    && |W.pids| == PIDS && Distinct(W.procs)
    && (forall t :: t in W.procs ==> PidOk(W, t))
    && (forall pid: nat :: Taken(W.pids, pid) ==> PidHeld(W, pid))
    && (forall pid :: pid in W.lost ==> Taken(W.pids, pid))
  }

  ghost predicate InitOk(W: World) {
    W.init in W.procs && W.procs[W.init].pid == 1 && W.procs[W.init].user && W.procs[W.init].stat != Hanging
  }

  /** `u` is in the list, not HANGING, and has the pid that `p` keeps as its parent's. */
  ghost predicate IsParent(procs: Table, u: Tid, p: Proc) {
    u in procs && procs[u].pid == p.parent && procs[u].stat != Hanging && procs[u].user
  }

  ghost predicate HasParent(procs: Table, p: Proc) {
    exists u :: IsParent(procs, u, p)
  }

  ghost predicate ParentOk(W: World, t: Tid)
    requires t in W.procs
  {
    if W.procs[t].user && t != W.init then HasParent(W.procs, W.procs[t]) else W.procs[t].parent == 0
  }

  ghost predicate IsChild(procs: Table, c: Tid, pid: nat) {
    c in procs && procs[c].parent == pid
  }

  ghost predicate HasChild(procs: Table, pid: nat) {
    exists c :: IsChild(procs, c, pid)
  }

  ghost predicate NoneHanging(procs: Table, pid: nat) {
    forall c :: IsChild(procs, c, pid) ==> procs[c].stat != Hanging
  }

  /** A WAITING process has a child, and no HANGING one. */
  ghost predicate WaitOk(procs: Table, w: Tid)
    requires w in procs
  {
    procs[w].stat == Waiting ==> HasChild(procs, procs[w].pid) && NoneHanging(procs, procs[w].pid)
  }

  /** A HANGING process still owes the status it exited with; a status already delivered belongs to a process
      that is gone. */
  ghost predicate StatusOk(W: World) {
    && (forall t :: t in W.procs ==> (t in W.exits <==> W.procs[t].stat == Hanging))
    && (forall t :: t in W.procs && t in W.exits ==> W.procs[t].status == Int8(W.exits[t]))
    && (forall t :: t in W.delivered ==> t !in W.procs && t in W.exits && W.delivered[t] == Int8(W.exits[t]))
    && (forall t :: t in W.exits ==> t < W.next)
  }

  ghost predicate FamilyOk(W: World) {
    && (forall t :: t in W.procs ==> ParentOk(W, t))
    && (forall t :: t in W.procs && t != W.init ==> WaitOk(W.procs, t))
  }

  ghost predicate Inv(W: World) {
    ListOk(W) && PidsOk(W) && InitOk(W) && FamilyOk(W) && StatusOk(W)
  }

  // ---- what the invariant says ----

  /** A HANGING process has no children. */
  lemma HangingIsChildless(W: World, h: Tid, c: Tid)
    requires Inv(W) && h in W.procs && W.procs[h].stat == Hanging
    ensures !IsChild(W.procs, c, W.procs[h].pid)
  {
    hide ListOk, StatusOk;
    if c in W.procs {
      assert ParentOk(W, c);
    }
  }

  // ---- fork ----

  ghost function Fork(W: World, me: Tid, k: int): World
    requires me in W.procs && -1 <= k < |W.pids|
  {
    var c := Proc(k + 1, W.procs[me].pid, Runs, W.procs[me].status, true);
    W.(all := W.all + [W.next], procs := W.procs[W.next := c], next := W.next + 1,
       pids := if k == -1 then W.pids else W.pids[k := true])
  }

  ghost predicate MayCall(W: World, me: Tid) {
    me in W.procs && W.procs[me].user && W.procs[me].stat == Runs
  }

  /** A thread that keeps its fields keeps its parent if that is kept too. */
  lemma ParentStays(procs: Table, procs': Table, p: Proc)
    requires HasParent(procs, p)
    requires forall u :: IsParent(procs, u, p) ==> u in procs' && procs'[u].pid == procs[u].pid && procs'[u].stat != Hanging && procs'[u].user
    ensures HasParent(procs', p)
  {
    var u :| IsParent(procs, u, p);
    assert IsParent(procs', u, p);
  }

  lemma ForkPids(W: World, me: Tid, k: nat)
    requires PidsOk(W) && W.next !in W.procs && me in W.procs && k < PIDS && !W.pids[k]
    ensures PidsOk(Fork(W, me, k))
  {
    var W' := Fork(W, me, k);
    assert !Taken(W.pids, k + 1);
    forall pid | pid in W.lost ensures Taken(W'.pids, pid) {
      assert Taken(W.pids, pid);
    }
    forall t | t in W.procs ensures W.procs[t].pid != k + 1 && PidOk(W', t) {
      assert PidOk(W, t);
    }
    assert PidOk(W', W.next);
    forall pid: nat | Taken(W'.pids, pid) ensures PidHeld(W', pid) {
      if pid == k + 1 {
        assert HasPid(W'.procs, W.next, pid);
      } else {
        assert Taken(W.pids, pid) && PidHeld(W, pid);
        HeldStays(W, W', pid);
      }
    }
  }

  lemma HeldStays(W: World, W': World, pid: nat)
    requires PidHeld(W, pid) && W.lost <= W'.lost
    requires forall t :: HasPid(W.procs, t, pid) ==> HasPid(W'.procs, t, pid)
    ensures PidHeld(W', pid)
  {
    if pid !in W.lost {
      var t :| HasPid(W.procs, t, pid);
      assert HasPid(W'.procs, t, pid);
    }
  }

  lemma ForkParents(W: World, me: Tid, k: int, t: Tid)
    requires W.next !in W.procs && MayCall(W, me) && -1 <= k < |W.pids| && t in Fork(W, me, k).procs && W.init in W.procs
    requires t != W.next ==> ParentOk(W, t)
    ensures ParentOk(Fork(W, me, k), t)
  {
    var W' := Fork(W, me, k);
    if t == W.next {
      assert IsParent(W'.procs, me, W'.procs[t]);
    } else if W.procs[t].user && t != W.init {
      ParentStays(W.procs, W'.procs, W.procs[t]);
    }
  }

  lemma ForkWaits(W: World, me: Tid, k: int, t: Tid)
    requires W.next !in W.procs && MayCall(W, me) && -1 <= k < |W.pids| && t in Fork(W, me, k).procs
    requires t != W.next ==> WaitOk(W.procs, t)
    ensures WaitOk(Fork(W, me, k).procs, t)
  {
    var W' := Fork(W, me, k);
    if t != W.next && W.procs[t].stat == Waiting {
      var pid := W.procs[t].pid;
      var c :| IsChild(W.procs, c, pid);
      assert IsChild(W'.procs, c, pid);
      forall d | IsChild(W'.procs, d, pid) ensures W'.procs[d].stat != Hanging {
        assert d != W.next ==> IsChild(W.procs, d, pid);
      }
    }
  }

  lemma ForkFamily(W: World, me: Tid, k: int)
    requires FamilyOk(W) && W.next !in W.procs && MayCall(W, me) && -1 <= k < |W.pids| && W.init in W.procs
    ensures FamilyOk(Fork(W, me, k))
  {
    var W' := Fork(W, me, k);
    hide ParentOk, WaitOk, MayCall;
    forall t | t in W'.procs ensures ParentOk(W', t) {
      ForkParents(W, me, k, t);
    }
    forall t | t in W'.procs && t != W'.init ensures WaitOk(W'.procs, t) {
      ForkWaits(W, me, k, t);
    }
  }

  lemma ForkList(W: World, me: Tid, k: int)
    requires ListOk(W) && me in W.procs && -1 <= k < |W.pids|
    ensures ListOk(Fork(W, me, k)) && W.next !in W.procs
  {
    hide NoDup;
    AppendFacts(W.all, W.next);
  }

  lemma ForkStatus(W: World, me: Tid, k: int)
    requires StatusOk(W) && W.next !in W.procs && me in W.procs && -1 <= k < |W.pids|
    requires W.procs[me].stat == Runs
    ensures StatusOk(Fork(W, me, k))
  {
  }

  lemma InvParts(W: World)
    requires Inv(W)
    ensures ListOk(W) && PidsOk(W) && InitOk(W) && FamilyOk(W) && StatusOk(W) && |W.pids| == PIDS && W.init in W.procs
  {
  }

  /** fork keeps everything when a pid is free. */
  lemma ForkKeeps(W: World, me: Tid, k: nat)
    requires Inv(W) && MayCall(W, me) && k < PIDS && k < |W.pids| && !W.pids[k]
    ensures Inv(Fork(W, me, k))
  {
    InvParts(W);
    hide Inv, ListOk, PidsOk, FamilyOk, StatusOk;
    ForkList(W, me, k);
    ForkPids(W, me, k);
    ForkFamily(W, me, k);
    ForkStatus(W, me, k);
    InvFrom(Fork(W, me, k));
  }

  lemma InvFrom(W: World)
    requires ListOk(W) && PidsOk(W) && InitOk(W) && FamilyOk(W) && StatusOk(W)
    ensures Inv(W)
  {
  }

  /** With every pid taken alloc_pid returns 0, which no thread may have. */
  lemma ForkWithoutPid(W: World, me: Tid)
    requires Inv(W) && MayCall(W, me)
    ensures Fork(W, me, -1).procs[W.next].pid == 0 && !Inv(Fork(W, me, -1))
  {
    var W' := Fork(W, me, -1);
    assert W.next in W'.procs && !PidOk(W', W.next);
    hide ListOk, FamilyOk, StatusOk, InitOk;
  }

  ghost function Lose(W: World, k: nat): World
    requires k < |W.pids|
  {
    W.(pids := W.pids[k := true], lost := W.lost + {k + 1})
  }

  lemma LosePids(W: World, k: nat)
    requires PidsOk(W) && k < PIDS && !W.pids[k]
    ensures PidsOk(Lose(W, k))
  {
    var W' := Lose(W, k);
    assert !Taken(W.pids, k + 1);
    forall t | t in W.procs ensures PidOk(W', t) {
      assert PidOk(W, t);
    }
    forall pid | pid in W'.lost ensures Taken(W'.pids, pid) {
      assert pid in W.lost ==> Taken(W.pids, pid);
    }
    forall pid: nat | Taken(W'.pids, pid) ensures PidHeld(W', pid) {
      if pid != k + 1 {
        assert Taken(W.pids, pid) && PidHeld(W, pid);
        HeldStays(W, W', pid);
      }
    }
  }

  lemma SameProcs(W: World, W': World)
    requires ListOk(W) && InitOk(W) && FamilyOk(W) && StatusOk(W)
    requires W'.(pids := W.pids, lost := W.lost) == W
    ensures ListOk(W') && InitOk(W') && FamilyOk(W') && StatusOk(W')
  {
    hide HasParent, WaitOk;
    forall t | t in W'.procs ensures ParentOk(W', t) { assert ParentOk(W, t); }
  }

  /** A fork that fails after alloc_pid keeps the pid for ever. */
  lemma LoseKeeps(W: World, k: nat)
    requires Inv(W) && k < PIDS && k < |W.pids| && !W.pids[k]
    ensures Inv(Lose(W, k))
  {
    InvParts(W);
    LosePids(W, k);
    hide Inv, ListOk, PidsOk, FamilyOk, StatusOk, InitOk;
    SameProcs(W, Lose(W, k));
    InvFrom(Lose(W, k));
  }

  // ---- exit ----

  function Reparent(p: Proc, pid: nat): Proc {
    if p.parent == pid then p.(parent := 1) else p
  }

  /** init adopts every child of the process with this pid. */
  function Adopted(procs: Table, pid: nat): Table {
    map t | t in procs :: Reparent(procs[t], pid)
  }

  function Roused(p: Proc): Proc {
    if p.stat == Waiting then p.(stat := Runs) else p
  }

  /** sys_exit, with `u` the thread that pid2thread finds for the parent. */
  ghost function Exit(W: World, me: Tid, u: Tid, code: int): World
    requires me in W.procs && u in W.procs
  {
    var a := Adopted(W.procs, W.procs[me].pid);
    var b := a[u := Roused(a[u])];
    W.(procs := b[me := b[me].(status := Int8(code), stat := Hanging)], exits := W.exits[me := code])
  }

  /** `u` is the parent of `me` once init has adopted the children of `me`. */
  ghost predicate ParentAt(W: World, me: Tid, u: Tid) {
    && me in W.procs && u in W.procs && u != me && W.procs[u].stat != Hanging
    && W.procs[u].pid == Reparent(W.procs[me], W.procs[me].pid).parent
  }

  lemma NotOne(W: World, t: Tid)
    requires PidsOk(W) && InitOk(W) && t in W.procs && t != W.init
    ensures W.procs[t].pid != 1
  {
  }

  /** pid2thread in sys_exit finds the parent, so its result is never NULL. */
  lemma ParentAfterAdoption(W: World, me: Tid) returns (u: Tid)
    requires Inv(W) && MayCall(W, me) && me != W.init
    ensures ParentAt(W, me, u) && forall v :: v in W.procs && W.procs[v].pid == W.procs[u].pid ==> v == u
  {
    InvParts(W);
    NotOne(W, me);
    hide Inv, ListOk, StatusOk;
    assert ParentOk(W, me);
    if W.procs[me].parent == W.procs[me].pid {
      u := W.init;
    } else {
      u :| IsParent(W.procs, u, W.procs[me]);
    }
  }

  /** What exit writes: the caller is HANGING with its status cut to 8 bits, its children have pid 1 for a parent, a WAITING
      parent runs, and nothing else changes. */
  lemma ExitFields(W: World, me: Tid, u: Tid, code: int, t: Tid)
    requires ParentAt(W, me, u) && t in W.procs
    ensures var W' := Exit(W, me, u, code); var p := W.procs[t];
            t in W'.procs && W'.procs[t].pid == p.pid && W'.procs[t].user == p.user
            && W'.procs[t].parent == (if p.parent == W.procs[me].pid then 1 else p.parent)
            && (t == me ==> W'.procs[t].stat == Hanging && W'.procs[t].status == Int8(code))
            && (t == u ==> W'.procs[t].stat == if p.stat == Waiting then Runs else p.stat)
            && (t != me && t != u ==> W'.procs[t].stat == p.stat)
            && (t != me ==> W'.procs[t].status == p.status)
  {
  }

  lemma ExitKeys(W: World, me: Tid, u: Tid, code: int)
    requires me in W.procs && u in W.procs
    ensures Exit(W, me, u, code).procs.Keys == W.procs.Keys
  {
  }

  lemma KeptPids(W: World, W': World)
    requires PidsOk(W) && W'.procs.Keys == W.procs.Keys && W'.pids == W.pids && W'.lost == W.lost
    requires forall t :: t in W.procs ==> W'.procs[t].pid == W.procs[t].pid
    ensures PidsOk(W')
  {
    forall t | t in W.procs ensures PidOk(W', t) {
      assert PidOk(W, t);
    }
    forall pid: nat | Taken(W'.pids, pid) ensures PidHeld(W', pid) {
      assert PidHeld(W, pid);
      HeldStays(W, W', pid);
    }
  }

  lemma ExitPids(W: World, me: Tid, u: Tid, code: int)
    requires PidsOk(W) && ParentAt(W, me, u)
    ensures PidsOk(Exit(W, me, u, code))
  {
    SamePids(W, me, u, code);
    ExitKeys(W, me, u, code);
    forall t | t in W.procs ensures Exit(W, me, u, code).procs[t].pid == W.procs[t].pid {
      ExitFields(W, me, u, code, t);
    }
    hide Exit, ParentAt, PidsOk;
    KeptPids(W, Exit(W, me, u, code));
  }

  lemma SamePids(W: World, me: Tid, u: Tid, code: int)
    requires me in W.procs && u in W.procs
    ensures Exit(W, me, u, code).(procs := W.procs, exits := W.exits) == W
    ensures Exit(W, me, u, code).exits == W.exits[me := code]
  {
  }

  lemma ExitParents(W: World, me: Tid, u: Tid, code: int, t: Tid)
    requires PidsOk(W) && InitOk(W) && ParentAt(W, me, u) && me != W.init && t in W.procs && ParentOk(W, t)
    ensures t in Exit(W, me, u, code).procs && ParentOk(Exit(W, me, u, code), t)
  {
    var W' := Exit(W, me, u, code);
    SamePids(W, me, u, code);
    ExitFields(W, me, u, code, t);
    assert PidOk(W, me);
    hide Exit;
    if W.procs[t].user && t != W.init {
      var v :| IsParent(W.procs, v, W.procs[t]);
      var w := if W.procs[t].parent == W.procs[me].pid then W.init else v;
      ExitFields(W, me, u, code, w);
      assert IsParent(W'.procs, w, W'.procs[t]);
    }
  }

  lemma ExitHasChild(W: World, me: Tid, u: Tid, code: int, pid: nat)
    requires ParentAt(W, me, u) && HasChild(W.procs, pid) && pid != W.procs[me].pid
    ensures HasChild(Exit(W, me, u, code).procs, pid)
  {
    var c :| IsChild(W.procs, c, pid);
    ExitFields(W, me, u, code, c);
    hide Exit;
    assert IsChild(Exit(W, me, u, code).procs, c, pid);
  }

  lemma ExitNoneHanging(W: World, me: Tid, u: Tid, code: int, pid: nat)
    requires ParentAt(W, me, u) && NoneHanging(W.procs, pid) && pid != 1 && pid != W.procs[u].pid
    ensures NoneHanging(Exit(W, me, u, code).procs, pid)
  {
    var procs := Exit(W, me, u, code).procs;
    ExitKeys(W, me, u, code);
    forall d | IsChild(procs, d, pid) ensures procs[d].stat != Hanging {
      ExitFields(W, me, u, code, d);
      assert IsChild(W.procs, d, pid);
    }
  }

  lemma ExitWaits(W: World, me: Tid, u: Tid, code: int, t: Tid)
    requires PidsOk(W) && InitOk(W) && ParentAt(W, me, u) && me != W.init && t in W.procs && WaitOk(W.procs, t) && t != W.init
    ensures t in Exit(W, me, u, code).procs && WaitOk(Exit(W, me, u, code).procs, t)
  {
    ExitFields(W, me, u, code, t);
    NotOne(W, t);
    assert W.procs[t].pid == W.procs[me].pid ==> t == me;
    assert W.procs[t].pid == W.procs[u].pid ==> t == u;
    hide Exit, PidsOk, InitOk, HasChild, NoneHanging;
    if Exit(W, me, u, code).procs[t].stat == Waiting {
      ExitHasChild(W, me, u, code, W.procs[t].pid);
      ExitNoneHanging(W, me, u, code, W.procs[t].pid);
    }
  }

  lemma ExitFamily(W: World, me: Tid, u: Tid, code: int)
    requires PidsOk(W) && InitOk(W) && FamilyOk(W) && ParentAt(W, me, u) && me != W.init
    ensures FamilyOk(Exit(W, me, u, code))
  {
    var W' := Exit(W, me, u, code);
    SamePids(W, me, u, code);
    ExitKeys(W, me, u, code);
    hide Exit, ParentOk, WaitOk, PidsOk, InitOk;
    forall t | t in W'.procs ensures ParentOk(W', t) {
      ExitParents(W, me, u, code, t);
    }
    forall t | t in W'.procs && t != W'.init ensures WaitOk(W'.procs, t) {
      ExitWaits(W, me, u, code, t);
    }
  }

  lemma ExitStatus(W: World, me: Tid, u: Tid, code: int)
    requires StatusOk(W) && ListOk(W) && ParentAt(W, me, u) && W.procs[me].stat != Hanging
    ensures StatusOk(Exit(W, me, u, code)) && ListOk(Exit(W, me, u, code))
  {
    var W' := Exit(W, me, u, code);
    SamePids(W, me, u, code);
    ExitKeys(W, me, u, code);
    forall t | t in W.procs
      ensures (t in W'.exits <==> W'.procs[t].stat == Hanging) && (t in W'.exits ==> W'.procs[t].status == Int8(W'.exits[t]))
    {
      ExitFields(W, me, u, code, t);
    }
    hide Exit, ParentAt;
  }

  /** exit keeps everything. */
  lemma ExitKeeps(W: World, me: Tid, u: Tid, code: int)
    requires Inv(W) && MayCall(W, me) && me != W.init && ParentAt(W, me, u)
    ensures Inv(Exit(W, me, u, code))
  {
    InvParts(W);
    var W' := Exit(W, me, u, code);
    SamePids(W, me, u, code);
    ExitFields(W, me, u, code, W.init);
    ExitPids(W, me, u, code);
    ExitFamily(W, me, u, code);
    ExitStatus(W, me, u, code);
    hide Exit, Inv, ListOk, PidsOk, FamilyOk, StatusOk;
    InvFrom(W');
  }

  // ---- wait ----

  /** sys_wait takes a HANGING child out of the list, releases its pid and delivers its status. */
  ghost function Reap(W: World, c: Tid): World
    requires c in W.procs && 1 <= W.procs[c].pid <= |W.pids|
  {
    W.(all := Without(W.all, c), procs := W.procs - {c}, pids := W.pids[W.procs[c].pid - 1 := false],
       delivered := W.delivered[c := W.procs[c].status])
  }

  lemma ReapPids(W: World, c: Tid)
    requires PidsOk(W) && c in W.procs && 1 <= W.procs[c].pid <= |W.pids|
    ensures PidsOk(Reap(W, c))
  {
    var W' := Reap(W, c);
    var pid0 := W.procs[c].pid;
    assert PidOk(W, c);
    forall t | t in W'.procs ensures PidOk(W', t) {
      assert PidOk(W, t);
    }
    forall pid | pid in W'.lost ensures Taken(W'.pids, pid) {
      assert Taken(W.pids, pid);
    }
    forall pid: nat | Taken(W'.pids, pid) ensures PidHeld(W', pid) {
      assert Taken(W.pids, pid) && pid != pid0;
      assert PidHeld(W, pid);
      HeldStays(W, W', pid);
    }
  }

  lemma ReapParents(W: World, c: Tid, t: Tid)
    requires PidsOk(W) && c in W.procs && 1 <= W.procs[c].pid <= |W.pids| && W.procs[c].stat == Hanging
    requires t in W.procs && t != c && ParentOk(W, t)
    ensures ParentOk(Reap(W, c), t)
  {
    if W.procs[t].user && t != W.init {
      ParentStays(W.procs, Reap(W, c).procs, W.procs[t]);
    }
  }

  lemma ReapWaits(W: World, c: Tid, t: Tid)
    requires c in W.procs && 1 <= W.procs[c].pid <= |W.pids| && W.procs[c].stat == Hanging && t in W.procs && t != c && WaitOk(W.procs, t)
    ensures WaitOk(Reap(W, c).procs, t)
  {
    var procs := Reap(W, c).procs;
    if W.procs[t].stat == Waiting {
      var pid := W.procs[t].pid;
      var d :| IsChild(W.procs, d, pid);
      assert IsChild(procs, d, pid);
      forall e | IsChild(procs, e, pid) ensures procs[e].stat != Hanging {
        assert IsChild(W.procs, e, pid);
      }
    }
  }

  lemma ReapList(W: World, c: Tid)
    requires ListOk(W) && c in W.procs && 1 <= W.procs[c].pid <= |W.pids|
    ensures ListOk(Reap(W, c))
  {
    WithoutMembers(W.all, c);
    hide NoDup;
  }

  lemma ReapStatus(W: World, c: Tid)
    requires StatusOk(W) && c in W.procs && 1 <= W.procs[c].pid <= |W.pids| && W.procs[c].stat == Hanging
    ensures StatusOk(Reap(W, c)) && c in W.exits && W.procs[c].status == Int8(W.exits[c]) && c !in W.delivered
  {
    hide Int8;
  }

  lemma ReapInit(W: World, c: Tid)
    requires InitOk(W) && c in W.procs && 1 <= W.procs[c].pid <= |W.pids| && W.procs[c].stat == Hanging
    ensures InitOk(Reap(W, c))
  {
  }

  /** wait keeps everything; the status it delivers is the one that was passed to exit, cut to 8 bits, and the
      thread it belongs to has delivered none before. */
  lemma ReapKeeps(W: World, c: Tid)
    requires Inv(W) && c in W.procs && W.procs[c].stat == Hanging
    ensures 1 <= W.procs[c].pid <= |W.pids| && Inv(Reap(W, c))
    ensures c in W.exits && W.procs[c].status == Int8(W.exits[c]) && c !in W.delivered
  {
    InvParts(W);
    assert PidOk(W, c);
    ReapPids(W, c);
    ReapList(W, c);
    ReapStatus(W, c);
    ReapInit(W, c);
    var W' := Reap(W, c);
    hide Inv, PidsOk, ParentOk, WaitOk, ListOk, StatusOk, InitOk;
    forall t | t in W'.procs ensures ParentOk(W', t) && (t != W'.init ==> WaitOk(W'.procs, t)) {
      ReapParents(W, c, t);
      if t != W.init { ReapWaits(W, c, t); }
    }
    InvFrom(W');
  }

  ghost function Sleep(W: World, me: Tid): World
    requires me in W.procs
  {
    W.(procs := W.procs[me := W.procs[me].(stat := Waiting)])
  }

  /** sys_wait blocks only when it has a child and no child is HANGING. */
  lemma SleepKeeps(W: World, me: Tid)
    requires Inv(W) && MayCall(W, me) && HasChild(W.procs, W.procs[me].pid) && NoneHanging(W.procs, W.procs[me].pid)
    ensures Inv(Sleep(W, me))
  {
    InvParts(W);
    var W' := Sleep(W, me);
    KeptPids(W, W');
    SleepRest(W, me);
    hide Inv, PidsOk, ListOk, StatusOk;
    forall t | t in W'.procs ensures ParentOk(W', t) && (t != W'.init ==> WaitOk(W'.procs, t)) {
      SleepThread(W, me, t);
    }
    hide ParentOk, WaitOk;
    InvFrom(W');
  }

  lemma SleepRest(W: World, me: Tid)
    requires ListOk(W) && StatusOk(W) && MayCall(W, me)
    ensures ListOk(Sleep(W, me)) && StatusOk(Sleep(W, me))
  {
    hide NoDup;
  }

  lemma SleepThread(W: World, me: Tid, t: Tid)
    requires MayCall(W, me) && t in W.procs && ParentOk(W, t) && (t != W.init ==> WaitOk(W.procs, t))
    requires HasChild(W.procs, W.procs[me].pid) && NoneHanging(W.procs, W.procs[me].pid)
    ensures ParentOk(Sleep(W, me), t) && (t != W.init ==> WaitOk(Sleep(W, me).procs, t))
  {
    var procs := Sleep(W, me).procs;
    if W.procs[t].user && t != W.init {
      var u :| IsParent(W.procs, u, W.procs[t]);
      assert IsParent(procs, u, procs[t]);
    }
    if procs[t].stat == Waiting && t != W.init {
      var pid := procs[t].pid;
      var c :| IsChild(W.procs, c, pid);
      assert IsChild(procs, c, pid);
      forall e | IsChild(procs, e, pid) ensures procs[e].stat != Hanging {
        assert IsChild(W.procs, e, pid);
      }
    }
  }
}
