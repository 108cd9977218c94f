/** sys_fork, sys_exit, sys_wait, alloc_pid, release_pid and pid2thread on the kernel's own variables. */
module LifecycleCalls {
  import opened Basics
  import opened Bitmaps
  import opened Lifecycle

  /** Where fork runs out of memory: before alloc_pid, after it, or not at all. */
  datatype Memory = Enough | NoPage | NoPml4

  /** A turn of sys_wait: a child's pid and status, -1 for want of children, or the caller now sleeps. */
  datatype Turn = Child(pid: nat, status: int) | NoChild | Asleep

  ghost predicate NoPidLeft(pids: seq<bool>) {
    forall k :: 0 <= k < |pids| ==> pids[k]
  }

  ghost predicate LeastFree(pids: seq<bool>, k: nat) {
    k < |pids| && !pids[k] && forall i :: 0 <= i < k ==> pids[i]
  }

  ghost predicate IsHanging(procs: Table, t: Tid, pid: nat) {
    t in procs && procs[t].parent == pid && procs[t].stat == Hanging
  }

  /** `c` is the first HANGING child in the list. */
  ghost predicate FirstHanging(W: World, c: Tid, pid: nat) {
    exists k :: 0 <= k < |W.all| && HangsAt(W, c, pid, k)
  }

  ghost predicate HangsAt(W: World, c: Tid, pid: nat, k: int) {
    0 <= k < |W.all| && W.all[k] == c && IsHanging(W.procs, c, pid) && forall j :: 0 <= j < k ==> !IsHanging(W.procs, W.all[j], pid)
  }

  /** alloc_pid: the least free pid, or 0 when all 1024 are taken. */
  method AllocPid(pids: Bitmap) returns (pid: nat)
    modifies pids.bits
    ensures pid == 0 <==> forall i :: 0 <= i < |old(pids.Value())| ==> old(pids.Value())[i]
    ensures pid == 0 ==> pids.Value() == old(pids.Value())
    ensures pid > 0 ==> pid <= |old(pids.Value())| && !old(pids.Value())[pid - 1] && pids.Value() == old(pids.Value())[pid - 1 := true]
    ensures pid > 0 ==> forall i :: 0 <= i < pid - 1 ==> old(pids.Value())[i]
  {
    var idx := pids.AllocABit();
    pid := idx + 1;
  }

  /** pid_pool_init, and the pids of the first three threads. */
  method PidPool() returns (pids: Bitmap)
    ensures fresh(pids) && fresh(pids.bits) && FirstN(pids.Value(), 3)
  {
    pids := new Bitmap(128);
    hide *;
    ghost var b0 := pids.Value();
    var a := AllocPid(pids);
    ghost var b1 := pids.Value();
    NextPid(b0, b1, a, 0);
    var b := AllocPid(pids);
    ghost var b2 := pids.Value();
    NextPid(b1, b2, b, 1);
    var c := AllocPid(pids);
    NextPid(b2, pids.Value(), c, 2);
  }

  class Processes {
    const pids: Bitmap
    const init: Tid
    var all: seq<Tid>
    var procs: Table
    var next: Tid
    ghost var lost: set<nat>
    ghost var exits: map<Tid, int>
    ghost var delivered: map<Tid, int>

    ghost function State(): World
      reads this, pids.bits
    {
      World(all, procs, pids.Value(), init, next, lost, exits, delivered)
    }

    /** thread_init: init, main and idle, in this order, take the first pids. */
    constructor ()
      ensures Inv(State()) && exits == map[] && delivered == map[]
    {
      var pool := PidPool();
      pids := pool;
      init, next := 0, 3;
      all := [0, 1, 2];
      procs := map[0 := Proc(1, 0, Runs, 0, true), 1 := Proc(2, 0, Runs, 0, false), 2 := Proc(3, 0, Runs, 0, false)];
      lost, exits, delivered := {}, map[], map[];
      new;
      hide *;
      FirstWorld(all, procs, pids.Value());
      Becomes(World(all, procs, pids.Value(), init, next, lost, exits, delivered));
    }

    /** find_hanging_child over the list. */
    method FindHangingChild(ppid: nat) returns (r: Option<Tid>)
      requires forall t :: t in all ==> t in procs
      ensures r.Some? ==> r.value in all && r.value in procs && procs[r.value].parent == ppid && procs[r.value].stat == Hanging
      ensures r.Some? ==> exists k :: 0 <= k < |all| && all[k] == r.value && forall j :: 0 <= j < k ==> !IsHanging(procs, all[j], ppid)
      ensures r.None? ==> forall t :: t in all ==> !(procs[t].parent == ppid && procs[t].stat == Hanging)
    {
      for i := 0 to |all|
        invariant forall k :: 0 <= k < i ==> !(procs[all[k]].parent == ppid && procs[all[k]].stat == Hanging)
      {
        if procs[all[i]].parent == ppid && procs[all[i]].stat == Hanging {
          return Some(all[i]);
        }
      }
      r := None;
    }

    /** find_child over the list. */
    method FindChild(ppid: nat) returns (r: Option<Tid>)
      requires forall t :: t in all ==> t in procs
      ensures r.Some? ==> r.value in all && r.value in procs && procs[r.value].parent == ppid
      ensures r.None? ==> forall t :: t in all ==> procs[t].parent != ppid
    {
      for i := 0 to |all|
        invariant forall k :: 0 <= k < i ==> procs[all[k]].parent != ppid
      {
        if procs[all[i]].parent == ppid {
          return Some(all[i]);
        }
      }
      r := None;
    }

    method Pid2Thread(pid: nat) returns (r: Option<Tid>)
      requires forall t :: t in all ==> t in procs
      ensures r.Some? ==> r.value in all && r.value in procs && procs[r.value].pid == pid
      ensures r.None? ==> forall t :: t in all ==> procs[t].pid != pid
    {
      for i := 0 to |all|
        invariant forall k :: 0 <= k < i ==> procs[all[k]].pid != pid
      {
        if procs[all[i]].pid == pid {
          return Some(all[i]);
        }
      }
      r := None;
    }

    method ReleasePid(pid: nat)
      requires 1 <= pid <= |pids.Value()|
      modifies pids.bits
      ensures pids.Value() == old(pids.Value())[pid - 1 := false]
    {
      pids.Set(pid - 1, false);
    }

    /** sys_fork: with a free pid everything is kept; without one the child gets pid 0. */
    method SysFork(me: Tid, mem: Memory, ghost W: World) returns (r: int)
      requires W == State() && Inv(W) && MayCall(W, me)
      modifies `all, `procs, `next, `lost, pids.bits
      ensures mem == NoPage ==> r == -1 && State() == W
      ensures mem == NoPml4 ==> r == -1 && Inv(State()) && if NoPidLeft(W.pids) then State() == W else exists k: nat :: LostPid(W, k)
      ensures mem == Enough && r != 0 ==> 0 < r && LeastFree(W.pids, r - 1) && State() == Fork(W, me, r - 1) && Inv(State())
      ensures mem == Enough && r == 0 ==> NoPidLeft(W.pids) && State() == Fork(W, me, -1) && !Inv(State())
      ensures mem == Enough ==> W.next !in W.procs && me in W.procs && all == W.all + [W.next]
                                && procs == W.procs[W.next := Proc(r, W.procs[me].pid, Runs, W.procs[me].status, true)]
                                && pids.Value() == if r > 0 then W.pids[r - 1 := true] else W.pids
    {
      hide *;
      Fields(W);
      CallFacts(W, me);
      if mem == NoPage { return -1; }
      var pid: int := AllocPid(pids);
      PidFound(W.pids, pid);
      if mem == NoPml4 {
        if pid > 0 {
          LoseFinishes(W, pid - 1);
          lost := lost + {pid};
          Becomes(Lose(W, pid - 1));
          IsLost(W, pid - 1);
        } else {
          Becomes(W);
        }
        return -1;
      }
      ForkIs(W, me, pid - 1);
      var child := Proc(pid, procs[me].pid, Runs, procs[me].status, true);
      all := all + [next];
      procs := procs[next := child];
      next := next + 1;
      Becomes(Fork(W, me, pid - 1));
      if pid > 0 { ForkKeeps(W, me, pid - 1); } else { ForkWithoutPid(W, me); }
      r := pid;
    }

    /** The pid of a fork that failed half way is lost. */
    ghost predicate LostPid(W: World, k: nat)
      reads this, pids.bits
    {
      LeastFree(W.pids, k) && State() == Lose(W, k)
    }

    lemma IsLost(W: World, k: nat)
      requires LeastFree(W.pids, k) && State() == Lose(W, k)
      ensures exists k: nat :: LostPid(W, k)
    {
      hide LeastFree, Lose;
      assert LostPid(W, k);
    }

    /** The traversal with init_adopt_a_child. */
    method Adopt(pid: nat)
      requires NoDup(all) && forall t :: t in all <==> t in procs
      modifies `procs
      ensures procs == Adopted(old(procs), pid)
    {
      ghost var p0 := procs;
      var i := 0;
      while i < |all|
        invariant 0 <= i <= |all| && procs.Keys == p0.Keys
        invariant forall k :: 0 <= k < i ==> all[k] in p0 && procs[all[k]] == Reparent(p0[all[k]], pid)
        invariant forall k :: i <= k < |all| ==> all[k] in p0 && procs[all[k]] == p0[all[k]]
      {
        var t := all[i];
        if procs[t].parent == pid {
          procs := procs[t := procs[t].(parent := 1)];
        }
        i := i + 1;
      }
      forall t | t in p0 ensures procs[t] == Reparent(p0[t], pid) {
        assert t in all;
      }
    }

    /** sys_exit; the descriptors it releases are not part of this state. */
    method SysExit(me: Tid, code: int, ghost W: World) returns (ghost u: Tid)
      requires W == State() && Inv(W) && MayCall(W, me) && me != init
      modifies `procs, `exits
      ensures ParentAt(W, me, u) && State() == Exit(W, me, u, code) && Inv(State())
      ensures me in procs && me in W.procs && procs[me].stat == Hanging && procs[me].status == Int8(code) && procs.Keys == W.procs.Keys
      ensures u in procs && u in W.procs && procs[u].stat == if W.procs[u].stat == Waiting then Runs else W.procs[u].stat
      ensures forall t :: t in W.procs ==> procs[t].parent == if W.procs[t].parent == W.procs[me].pid then 1 else W.procs[t].parent
    {
      hide *;
      Fields(W);
      CallFacts(W, me);
      ListFacts(W);
      u := ParentAfterAdoption(W, me);
      ExitKeeps(W, me, u, code);
      var pid := procs[me].pid;
      Adopt(pid);
      ghost var a := procs;
      FoundIs(W, me, u, a, pid);
      procs := procs[me := procs[me].(status := Int8(code))];
      ghost var b := procs;
      var parent := Pid2Thread(procs[me].parent);
      assert parent == Some(u);
      if procs[parent.value].stat == Waiting {
        procs := procs[parent.value := procs[parent.value].(stat := Runs)];
      }
      ghost var c := procs;
      procs := procs[me := procs[me].(stat := Hanging)];
      exits := exits[me := code];
      SameExit(W, me, u, code, a, b, c, procs);
      SamePids(W, me, u, code);
      Becomes(Exit(W, me, u, code));
      ExitAll(W, me, u, code);
    }

    /** One turn of the loop of sys_wait. */
    method SysWait(me: Tid, ghost W: World) returns (r: Turn, ghost c: Tid)
      requires W == State() && Inv(W) && MayCall(W, me)
      modifies `all, `procs, `delivered, pids.bits
      ensures Inv(State())
      ensures r.Child? ==> c in W.procs && FirstHanging(W, c, W.procs[me].pid)
      ensures r.Child? ==> c in W.procs && r.pid == W.procs[c].pid && 1 <= r.pid <= |W.pids| && State() == Reap(W, c)
      ensures r.Child? ==> c in W.exits && r.status == Int8(W.exits[c]) && c !in W.delivered
      ensures r.NoChild? ==> State() == W && forall t :: !IsChild(W.procs, t, W.procs[me].pid)
      ensures r.Child? ==> procs == W.procs - {c} && pids.Value() == W.pids[r.pid - 1 := false] && c !in all
      ensures r.Asleep? ==> me in W.procs && procs == W.procs[me := W.procs[me].(stat := Waiting)]
      ensures r.Asleep? ==> State() == Sleep(W, me) && NoneHanging(W.procs, W.procs[me].pid) && HasChild(W.procs, W.procs[me].pid)
    {
      hide *;
      Fields(W);
      CallFacts(W, me);
      ListFacts(W);
      c := me;
      var ppid := procs[me].pid;
      var h := FindHangingChild(ppid);
      if h.Some? {
        c := h.value;
        IsFirst(W, c, ppid);
        ReapKeeps(W, c);
        ReapIs(W, c);
        var status := procs[h.value].status;
        var pid := procs[h.value].pid;
        WithoutMembers(all, c);
        all := Without(all, h.value);
        procs := procs - {h.value};
        ReleasePid(pid);
        delivered := delivered[c := status];
        Becomes(Reap(W, c));
        return Child(pid, status), c;
      }
      NoneHang(W, ppid);
      var k := FindChild(ppid);
      if k.None? {
        NoChildren(W, ppid);
        Becomes(W);
        return NoChild, c;
      }
      OneChild(W, k.value, ppid);
      SleepKeeps(W, me);
      procs := procs[me := procs[me].(stat := Waiting)];
      SleepIs(W, me);
      Becomes(Sleep(W, me));
      r := Asleep;
    }

    lemma Fields(W: World)
      requires W == State()
      ensures pids.Value() == W.pids && all == W.all && procs == W.procs && init == W.init && next == W.next
      ensures lost == W.lost && exits == W.exits && delivered == W.delivered
    {
    }

    lemma Becomes(W: World)
      requires pids.Value() == W.pids && all == W.all && procs == W.procs && init == W.init && next == W.next
      requires lost == W.lost && exits == W.exits && delivered == W.delivered
      ensures State() == W
    {
    }
  }

  lemma ExitAll(W: World, me: Tid, u: Tid, code: int)
    requires ParentAt(W, me, u)
    ensures var procs := Exit(W, me, u, code).procs;
            && me in W.procs && u in W.procs && procs.Keys == W.procs.Keys && procs[me].stat == Hanging && procs[me].status == Int8(code)
            && procs[u].stat == (if W.procs[u].stat == Waiting then Runs else W.procs[u].stat)
            && (forall t :: t in W.procs ==> procs[t].parent == if W.procs[t].parent == W.procs[me].pid then 1 else W.procs[t].parent)
  {
    ExitKeys(W, me, u, code);
    ExitFields(W, me, u, code, me);
    ExitFields(W, me, u, code, u);
    var procs := Exit(W, me, u, code).procs;
    forall t | t in W.procs ensures procs[t].parent == if W.procs[t].parent == W.procs[me].pid then 1 else W.procs[t].parent {
      ExitFields(W, me, u, code, t);
    }
    hide Exit;
  }

  lemma CallFacts(W: World, me: Tid)
    requires Inv(W) && MayCall(W, me)
    ensures me in W.procs && W.procs[me].stat == Runs && |W.pids| == PIDS && W.next !in W.procs
  {
    InvParts(W);
  }

  predicate FirstN(bits: seq<bool>, n: nat) {
    |bits| == PIDS && forall i :: 0 <= i < PIDS ==> (bits[i] <==> i < n)
  }

  lemma NextPid(bits: seq<bool>, bits': seq<bool>, pid: nat, n: nat)
    requires |bits| == PIDS && n < 3 && ((n == 0 && bits == seq(PIDS, _ => false)) || FirstN(bits, n))
    requires pid == 0 <==> forall i :: 0 <= i < |bits| ==> bits[i]
    requires pid > 0 ==> pid <= |bits| && !bits[pid - 1] && bits' == bits[pid - 1 := true] && forall i :: 0 <= i < pid - 1 ==> bits[i]
    ensures pid == n + 1 && FirstN(bits', n + 1)
  {
    assert !bits[n];
    assert pid > 0;
  }

  lemma IsFirst(W: World, c: Tid, pid: nat)
    requires c in W.procs && W.procs[c].parent == pid && W.procs[c].stat == Hanging
    requires exists k :: 0 <= k < |W.all| && W.all[k] == c && forall j :: 0 <= j < k ==> !IsHanging(W.procs, W.all[j], pid)
    ensures FirstHanging(W, c, pid)
  {
    var k :| 0 <= k < |W.all| && W.all[k] == c && forall j :: 0 <= j < k ==> !IsHanging(W.procs, W.all[j], pid);
    assert HangsAt(W, c, pid, k);
  }

  lemma PidFound(pids: seq<bool>, pid: int)
    requires pid >= 0 && (pid == 0 <==> forall i :: 0 <= i < |pids| ==> pids[i])
    requires pid > 0 ==> pid <= |pids| && !pids[pid - 1] && forall i :: 0 <= i < pid - 1 ==> pids[i]
    ensures if pid == 0 then NoPidLeft(pids) else LeastFree(pids, pid - 1) && !NoPidLeft(pids) && pid <= |pids| && !pids[pid - 1]
    ensures pid == 0 ==> forall k :: 0 <= k < |pids| ==> pids[k]
  {
  }

  lemma LoseFinishes(W: World, k: nat)
    requires Inv(W) && k < |W.pids| && !W.pids[k]
    ensures Inv(Lose(W, k)) && Lose(W, k) == W.(pids := W.pids[k := true], lost := W.lost + {k + 1})
  {
    InvParts(W);
    hide Inv;
    LoseKeeps(W, k);
  }

  lemma ForkIs(W: World, me: Tid, k: int)
    requires me in W.procs && -1 <= k < |W.pids|
    ensures Fork(W, me, k) == W.(all := W.all + [W.next],
                                 procs := W.procs[W.next := Proc(k + 1, W.procs[me].pid, Runs, W.procs[me].status, true)],
                                 next := W.next + 1, pids := if k == -1 then W.pids else W.pids[k := true])
  {
  }

  lemma ReapIs(W: World, c: Tid)
    requires c in W.procs && 1 <= W.procs[c].pid <= |W.pids|
    ensures Reap(W, c) == W.(all := Without(W.all, c), procs := W.procs - {c}, pids := W.pids[W.procs[c].pid - 1 := false],
                             delivered := W.delivered[c := W.procs[c].status])
  {
  }

  lemma SleepIs(W: World, me: Tid)
    requires me in W.procs
    ensures Sleep(W, me) == W.(procs := W.procs[me := W.procs[me].(stat := Waiting)])
  {
  }

  lemma NoneHang(W: World, ppid: nat)
    requires (forall t :: t in W.all <==> t in W.procs) && forall t :: t in W.all ==> !(W.procs[t].parent == ppid && W.procs[t].stat == Hanging)
    ensures NoneHanging(W.procs, ppid)
  {
  }

  lemma NoChildren(W: World, ppid: nat)
    requires (forall t :: t in W.all <==> t in W.procs) && forall t :: t in W.all ==> W.procs[t].parent != ppid
    ensures forall t :: !IsChild(W.procs, t, ppid)
  {
  }

  lemma OneChild(W: World, t: Tid, ppid: nat)
    requires t in W.procs && W.procs[t].parent == ppid
    ensures HasChild(W.procs, ppid)
  {
    assert IsChild(W.procs, t, ppid);
  }

  lemma ListFacts(W: World)
    requires Inv(W)
    ensures NoDup(W.all) && (forall t :: t in W.all <==> t in W.procs) && |W.pids| == PIDS
  {
    hide PidsOk, FamilyOk, StatusOk, NoDup;
    InvParts(W);
  }

  /** The search for the parent's pid finds `u` and nothing else. */
  lemma FoundIs(W: World, me: Tid, u: Tid, a: Table, pid: nat)
    requires Inv(W) && ParentAt(W, me, u) && me in W.procs && pid == W.procs[me].pid && a == Adopted(W.procs, pid)
    ensures a.Keys == W.procs.Keys && me in a && u in a && u != me && a[u].pid == a[me].parent && u in W.all
    ensures forall v :: v in a && a[v].pid == a[me].parent ==> v == u
  {
    InvParts(W);
    hide Inv, FamilyOk, StatusOk, NoDup, InitOk, PidOk, PidHeld;
    AdoptedKeeps(W.procs, pid);
    hide Adopted;
  }

  lemma AdoptedKeeps(procs: Table, pid: nat)
    ensures Adopted(procs, pid).Keys == procs.Keys
    ensures forall t :: t in procs ==> Adopted(procs, pid)[t].pid == procs[t].pid && Adopted(procs, pid)[t].parent == Reparent(procs[t], pid).parent
  {
  }

  lemma SameExit(W: World, me: Tid, u: Tid, code: int, a: Table, b: Table, c: Table, d: Table)
    requires ParentAt(W, me, u) && a == Adopted(W.procs, W.procs[me].pid) && me in a && u in a
    requires b == a[me := a[me].(status := Int8(code))]
    requires c == if b[u].stat == Waiting then b[u := b[u].(stat := Runs)] else b
    requires d == c[me := c[me].(stat := Hanging)]
    ensures d == Exit(W, me, u, code).procs
  {
    ExitKeys(W, me, u, code);
    assert d == Exit(W, me, u, code).procs;
  }

  lemma FirstWorld(all: seq<Tid>, procs: Table, pids: seq<bool>)
    requires all == [0, 1, 2] && FirstN(pids, 3)
    requires procs == map[0 := Proc(1, 0, Runs, 0, true), 1 := Proc(2, 0, Runs, 0, false), 2 := Proc(3, 0, Runs, 0, false)]
    ensures Inv(World(all, procs, pids, 0, 3, {}, map[], map[]))
  {
    var W := World(all, procs, pids, 0, 3, {}, map[], map[]);
    FirstPidsOk(W);
    FirstFamilyOk(W);
    hide PidsOk, FamilyOk;
    InvFrom(W);
  }

  lemma FirstFamilyOk(W: World)
    requires W.procs == map[0 := Proc(1, 0, Runs, 0, true), 1 := Proc(2, 0, Runs, 0, false), 2 := Proc(3, 0, Runs, 0, false)]
    requires W.init == 0
    ensures FamilyOk(W)
  {
    forall t | t in W.procs ensures ParentOk(W, t) && W.procs[t].stat == Runs { }
  }

  lemma FirstPidsOk(W: World)
    requires FirstN(W.pids, 3) && W.lost == {}
    requires W.procs == map[0 := Proc(1, 0, Runs, 0, true), 1 := Proc(2, 0, Runs, 0, false), 2 := Proc(3, 0, Runs, 0, false)]
    ensures PidsOk(W)
  {
    forall pid: nat | Taken(W.pids, pid) ensures PidHeld(W, pid) {
      assert HasPid(W.procs, pid - 1, pid);
    }
    forall t | t in W.procs ensures PidOk(W, t) {
      assert W.procs[t].pid == t + 1;
    }
  }
}
