/**
  What single moves keep: a running thread goes from one place to the next,
  taking or dropping the locks that go with it. The steps of the kernel are put
  together from these moves and from edits of slots guarded by a held lock.

  A move is possible when the locks it takes are free (CanShift). What it owes the
  invariant is what its new place claims: about the slot being forked (ForkDue),
  about p's children (KidsDue, WaitDue), about init still to be woken (InitDue) and
  about p's parent having been woken (ExitDue).
*/
module ProcMoves {
  import opened Wrappers
  import opened ProcState

  predicate Runs(s: State, c: nat, p: nat) {
    c < |s.cpus| && p < |s.procs| && s.cpus[c].at == Away(p)
  }

  /** Thread p on CPU c goes to pc, with the locks it holds there. */
  function Shift(s: State, c: nat, p: nat, pc: Pc): State
    requires Runs(s, c, p)
  {
    var l, l2 := LockOf(s.procs[p].pc, p), LockOf(pc, p);
    var w, w2 := HoldsWait(s.procs[p].pc), HoldsWait(pc);
    var a := s.procs[p := s.procs[p].(pc := pc)];
    var b := if l.Some? && l != l2 && l.value < |a| then a[l.value := a[l.value].(lock := None)] else a;
    var d := if l2.Some? && l != l2 && l2.value < |b| then b[l2.value := b[l2.value].(lock := Some(c))] else b;
    s.(procs := d, waitLock := if w && !w2 then None else if !w && w2 then Some(c) else s.waitLock)
  }

  /** The locks the move takes are free, and the place fits the process. */
  predicate CanShift(s: State, c: nat, p: nat, pc: Pc) {
    && Runs(s, c, p) && Running(s.procs[p].pc) && Running(pc)
    && InRange(pc, |s.procs|) && Fits(s.procs[p].(pc := pc), p)
    && (var l, l2 := LockOf(s.procs[p].pc, p), LockOf(pc, p);
        l2.Some? && l2 != l ==> l.None? && l2.value < |s.procs| && s.procs[l2.value].lock.None?)
    && (HoldsWait(pc) && !HoldsWait(s.procs[p].pc) ==> s.waitLock.None?)
  }

  /** Everything but pc and lock is as it was; pc only changes for p. */
  lemma ShiftFrame(s: State, c: nat, p: nat, pc: Pc)
    requires CanShift(s, c, p, pc)
    ensures var s2 := Shift(s, c, p, pc);
      && |s2.procs| == |s.procs| && s2.cpus == s.cpus && s2.nextpid == s.nextpid
      && s2.exited == s.exited && s2.delivered == s.delivered
      && forall k :: 0 <= k < |s.procs| ==>
           s2.procs[k] == s.procs[k].(pc := if k == p then pc else s.procs[k].pc, lock := s2.procs[k].lock)
  {
  }

  lemma ShiftSized(s: State, c: nat, p: nat, pc: Pc)
    requires Sized(s) && Placed(s) && CanShift(s, c, p, pc)
    ensures var s2 := Shift(s, c, p, pc); Sized(s2) && Placed(s2)
  {
    ShiftFrame(s, c, p, pc);
    hide Shift, InRange;
    var s2 := Shift(s, c, p, pc);
    forall k | 0 <= k < |s.procs| ensures Fits(s2.procs[k], k) {
    }
    forall d | 0 <= d < |s.cpus| ensures CpuOk(s2, d) {
      assert CpuOk(s, d);
    }
    forall k | 0 <= k < |s.procs| ensures OnOk(s2, k) {
      assert OnOk(s, k);
    }
  }

  /** Only CPU c holds something else than before. */
  lemma ShiftCpus(s: State, c: nat, p: nat, pc: Pc, d: nat)
    requires Placed(s) && CanShift(s, c, p, pc) && d < |s.cpus|
    ensures var s2 := Shift(s, c, p, pc);
      && d < |s2.cpus|
      && CpuLock(s2, d) == (if d == c then LockOf(pc, p) else CpuLock(s, d))
      && CpuWait(s2, d) == (if d == c then HoldsWait(pc) else CpuWait(s, d))
  {
    ShiftFrame(s, c, p, pc);
    hide Shift, InRange, Fits, LockOf, HoldsWait;
    assert CpuOk(s, c) && CpuOk(s, d);
  }

  /** Which locks the move changes. */
  lemma ShiftLockFields(s: State, c: nat, p: nat, pc: Pc)
    requires CanShift(s, c, p, pc)
    ensures var s2, l, l2 := Shift(s, c, p, pc), LockOf(s.procs[p].pc, p), LockOf(pc, p);
      && (forall k :: 0 <= k < |s.procs| ==>
            s2.procs[k].lock == (if l2 != l && l2 == Some(k) then Some(c) else if l2 != l && l == Some(k) then None
                                 else s.procs[k].lock))
      && s2.waitLock == (var w, w2 := HoldsWait(s.procs[p].pc), HoldsWait(pc);
                         if w && !w2 then None else if !w && w2 then Some(c) else s.waitLock)
  {
    hide InRange, Fits, LockOf, HoldsWait;
  }

  lemma LocksAfter(s: State, s2: State, c: nat, l: Option<nat>, l2: Option<nat>, w: bool, w2: bool)
    requires Locks(s) && c < |s.cpus| && |s2.cpus| == |s.cpus| && |s2.procs| == |s.procs|
    requires CpuLock(s, c) == l && CpuWait(s, c) == w
    requires forall d :: 0 <= d < |s.cpus| ==> CpuLock(s2, d) == if d == c then l2 else CpuLock(s, d)
    requires forall d :: 0 <= d < |s.cpus| ==> CpuWait(s2, d) == if d == c then w2 else CpuWait(s, d)
    requires l2.Some? && l2 != l ==> l.None? && l2.value < |s.procs| && s.procs[l2.value].lock.None?
    requires w2 && !w ==> s.waitLock.None?
    requires forall k :: 0 <= k < |s.procs| ==>
      s2.procs[k].lock == (if l2 != l && l2 == Some(k) then Some(c) else if l2 != l && l == Some(k) then None
                           else s.procs[k].lock)
    requires s2.waitLock == if w && !w2 then None else if !w && w2 then Some(c) else s.waitLock
    ensures Locks(s2)
  {
    hide CpuLock, CpuWait;
  }

  lemma ShiftLocks(s: State, c: nat, p: nat, pc: Pc)
    requires Sized(s) && Placed(s) && Locks(s) && CanShift(s, c, p, pc)
    ensures Locks(Shift(s, c, p, pc))
  {
    var s2 := Shift(s, c, p, pc);
    var l, l2 := LockOf(s.procs[p].pc, p), LockOf(pc, p);
    assert CpuLock(s, c) == l && CpuWait(s, c) == HoldsWait(s.procs[p].pc);
    ShiftFrame(s, c, p, pc);
    ShiftLockFields(s, c, p, pc);
    hide CpuLock, CpuWait, InRange, Fits, LockOf, HoldsWait, Placed, Sized, Shift, Locks, Running;
    forall d | 0 <= d < |s.cpus| ensures CpuLock(s2, d) == (if d == c then l2 else CpuLock(s, d))
                                         && CpuWait(s2, d) == (if d == c then HoldsWait(pc) else CpuWait(s, d)) {
      ShiftCpus(s, c, p, pc, d);
    }
    LocksAfter(s, s2, c, l, l2, HoldsWait(s.procs[p].pc), HoldsWait(pc));
  }

  /** No two threads hold wait_lock. */
  lemma OneWaiter(s: State, c: nat, p: nat, q: nat)
    requires Sized(s) && Placed(s) && Locks(s) && Runs(s, c, p) && q < |s.procs| && HoldsWait(s.procs[p].pc) && q != p
    ensures !HoldsWait(s.procs[q].pc)
  {
    if HoldsWait(s.procs[q].pc) {
      assert OnOk(s, q);
      var d := s.procs[q].on.value;
      assert CpuOk(s, d);
      assert CpuWait(s, d) && CpuWait(s, c);
    }
  }

  // ------------------------------------------------ what a move owes each invariant

  ghost predicate ForkDue(s: State, p: nat, pc: Pc)
    requires p < |s.procs|
  {
    ForkOf(pc).Some? && ForkOf(pc) != ForkOf(s.procs[p].pc) ==>
      && ForkOf(pc).value < |s.procs| && s.procs[ForkOf(pc).value].state.USED?
      && (forall q :: 0 <= q < |s.procs| ==> ForkOf(s.procs[q].pc) != ForkOf(pc))
  }

  ghost predicate ForkParentDue(s: State, p: nat, pc: Pc)
    requires p < |s.procs|
  {
    ForkOf(pc).Some? ==>
      ForkOf(pc).value < |s.procs|
      && s.procs[ForkOf(pc).value].parent == if pc.ForkParent? || pc.ForkReady? then Some(p) else None
  }

  lemma ShiftForks(s: State, c: nat, p: nat, pc: Pc)
    requires Forks(s) && CanShift(s, c, p, pc) && ForkDue(s, p, pc) && ForkParentDue(s, p, pc)
    ensures Forks(Shift(s, c, p, pc))
  {
    ShiftFrame(s, c, p, pc);
    hide Shift, InRange, Fits, LockOf, HoldsWait;
    var s2 := Shift(s, c, p, pc);
    forall q | 0 <= q < |s.procs| ensures ForkOk(s2, q) {
      assert ForkOk(s, q) && ForkOk(s, p);
    }
    hide ForkOf;
  }

  ghost predicate KidsDue(s: State, p: nat, pc: Pc)
    requires p < |s.procs|
  {
    var n := Cleared(s.procs[p].(pc := pc), |s.procs|);
    && (forall k :: 0 <= k < |s.procs| && s.procs[k].parent == Some(p) ==> k >= n)
    && (p == INIT ==> n == 0 && !ExitPc(pc))
  }

  lemma ShiftParents(s: State, c: nat, p: nat, pc: Pc)
    requires Parents(s) && CanShift(s, c, p, pc) && KidsDue(s, p, pc)
    ensures Parents(Shift(s, c, p, pc))
  {
    ShiftFrame(s, c, p, pc);
    var s2 := Shift(s, c, p, pc);
    assert forall q: Proc, q2: Proc, n: nat :: q.pc == q2.pc && q.state == q2.state ==> Cleared(q, n) == Cleared(q2, n);
    hide Shift, CanShift, Cleared, ExitPc;
    forall k | 0 <= k < |s.procs| ensures ParentOk(s2, k) {
      assert ParentOk(s, k);
    }
  }

  /** What the new place says about p's children. */
  ghost predicate WaitDue(s: State, p: nat, pc: Pc)
    requires p < |s.procs|
  {
    && (Asleep(s.procs[p].(pc := pc)) ==> Asleep(s.procs[p]) || s.procs[p].pc.WaitGo?)
    && (pc.WaitScan? ==> NoZombie(s, p, pc.i) && (pc.have ==> HasKid(s, p)))
    && (pc.WaitLook? ==> NoZombie(s, p, pc.i + 1) && HasKid(s, p))
    && (pc.WaitGo? ==> NoZombie(s, p, |s.procs|) && HasKid(s, p))
  }

  /** Leaving the start of a wakeup(initproc) owes init nothing. */
  ghost predicate InitDue(s: State, p: nat, pc: Pc)
    requires p < |s.procs|
  {
    var old_ := s.procs[p].pc;
    old_.Waking? && old_.cont.Reparent? && old_.j == 0 && Asleep(s.procs[INIT]) ==>
      NoZombie(s, INIT, |s.procs|) || (pc.Waking? && pc.cont.Reparent? && pc.j == 0)
  }

  lemma ShiftPending(s: State, c: nat, p: nat, pc: Pc)
    requires Sized(s) && Placed(s) && Locks(s) && CanShift(s, c, p, pc) && InitDue(s, p, pc)
    requires Pending(s, INIT) && Asleep(s.procs[INIT])
    ensures Pending(Shift(s, c, p, pc), INIT) || NoZombie(s, INIT, |s.procs|)
  {
    ShiftFrame(s, c, p, pc);
    var s2 := Shift(s, c, p, pc);
    var d := s.waitLock.value;
    assert CpuOk(s, c) && CpuOk(s, d);
    assert s2.waitLock == s.waitLock || d == c;
  }

  lemma ShiftWaitOk(s: State, c: nat, p: nat, pc: Pc, q: nat)
    requires Sized(s) && Placed(s) && Locks(s) && Waits(s) && CanShift(s, c, p, pc)
    requires WaitDue(s, p, pc) && InitDue(s, p, pc) && q < |s.procs|
    ensures WaitOk(Shift(s, c, p, pc), q)
  {
    ShiftFrame(s, c, p, pc);
    var s2 := Shift(s, c, p, pc);
    if Pending(s, INIT) && Asleep(s.procs[INIT]) { ShiftPending(s, c, p, pc); }
    assert WaitOk(s, q);
    hide Shift, Locks, Placed, Sized, Pending, CanShift, InitDue, Waits, Asleep;
    KidsSame(s, s2, q);
    PendingInit(s, q);
    SameAsleep(s2.procs[q], if q == p then s.procs[p].(pc := pc) else s.procs[q]);
    hide HasKid, NoZombie;
  }

  lemma ShiftWaits(s: State, c: nat, p: nat, pc: Pc)
    requires Sized(s) && Placed(s) && Locks(s) && Waits(s) && CanShift(s, c, p, pc)
    requires WaitDue(s, p, pc) && InitDue(s, p, pc)
    ensures Waits(Shift(s, c, p, pc))
  {
    ShiftFrame(s, c, p, pc);
    hide Shift, WaitOk, CanShift, WaitDue, InitDue, Sized, Placed, Locks;
    forall q | 0 <= q < |s.procs| ensures WaitOk(Shift(s, c, p, pc), q) {
      ShiftWaitOk(s, c, p, pc, q);
    }
  }

  lemma SameAsleep(q: Proc, q2: Proc)
    requires q.pc == q2.pc && q.state == q2.state
    ensures Asleep(q) <==> Asleep(q2)
  {
  }

  lemma PendingInit(s: State, p: nat)
    ensures Pending(s, p) ==> p == INIT
  {
  }

  /** Children and their states are the same in both. */
  lemma KidsSame(s: State, s2: State, q: nat)
    requires |s2.procs| == |s.procs|
    requires forall k :: 0 <= k < |s.procs| ==>
      s2.procs[k].parent == s.procs[k].parent && s2.procs[k].state == s.procs[k].state
    ensures HasKid(s2, q) <==> HasKid(s, q)
    ensures forall i :: NoZombie(s2, q, i) <==> NoZombie(s, q, i)
  {
    if HasKid(s, q) {
      var k :| 0 <= k < |s.procs| && s.procs[k].parent == Some(q);
      assert s2.procs[k].parent == Some(q);
    }
    if HasKid(s2, q) {
      var k :| 0 <= k < |s.procs| && s2.procs[k].parent == Some(q);
      assert s.procs[k].parent == Some(q);
    }
  }

  /** What the new place says about p's parent, and p's falling asleep about its children. */
  ghost predicate ExitDue(s: State, p: nat, pc: Pc)
    requires p < |s.procs|
  {
    && ExitOk(s.(procs := s.procs[p := s.procs[p].(pc := pc)]), p)
    && (Asleep(s.procs[p].(pc := pc)) ==> Asleep(s.procs[p]) || HoldsWait(s.procs[p].pc))
  }

  /** Nobody is past waking p while p holds wait_lock. */
  lemma NoExiter(s: State, c: nat, p: nat, e: nat)
    requires Sized(s) && Placed(s) && Locks(s) && Runs(s, c, p) && HoldsWait(s.procs[p].pc) && e < |s.procs| && e != p
    ensures !ExitPc(s.procs[e].pc)
  {
    OneWaiter(s, c, p, e);
  }

  lemma ShiftExitOk(s: State, c: nat, p: nat, pc: Pc, e: nat)
    requires Sized(s) && Placed(s) && Locks(s) && Parents(s) && Exits(s) && CanShift(s, c, p, pc)
    requires ExitDue(s, p, pc) && e < |s.procs|
    ensures ExitOk(Shift(s, c, p, pc), e)
  {
    ShiftFrame(s, c, p, pc);
    var s2 := Shift(s, c, p, pc);
    assert ExitOk(s, e) && ParentOk(s, e);
    if e != p && HoldsWait(s.procs[p].pc) { NoExiter(s, c, p, e); }
    hide Shift, InRange, Fits, LockOf, ForkOf, Locks, Placed, Sized, CanShift, Parents, Cleared, HoldsWait;
  }

  lemma ShiftExits(s: State, c: nat, p: nat, pc: Pc)
    requires Sized(s) && Placed(s) && Locks(s) && Parents(s) && Exits(s) && CanShift(s, c, p, pc)
    requires ExitDue(s, p, pc) && KidsDue(s, p, pc)
    ensures Exits(Shift(s, c, p, pc))
  {
    ShiftFrame(s, c, p, pc);
    hide Shift, InRange, Fits, LockOf, ForkOf, Locks, Placed, Sized, CanShift, Parents, Cleared, HoldsWait, ExitOk;
    hide ExitDue;
    forall e | 0 <= e < |s.procs| ensures ExitOk(Shift(s, c, p, pc), e) {
      ShiftExitOk(s, c, p, pc, e);
    }
  }

  lemma ShiftPids(s: State, c: nat, p: nat, pc: Pc)
    requires Pids(s) && Deliveries(s) && CanShift(s, c, p, pc)
    ensures var s2 := Shift(s, c, p, pc); Pids(s2) && Deliveries(s2)
  {
    ShiftFrame(s, c, p, pc);
    hide Shift, InRange, Fits, LockOf, ForkOf, CanShift;
    var s2 := Shift(s, c, p, pc);
    forall k | 0 <= k < |s.procs| ensures PidOk(s2, k) {
      assert PidOk(s, k);
    }
  }

  ghost predicate Due(s: State, p: nat, pc: Pc) {
    && p < |s.procs| && ForkDue(s, p, pc) && ForkParentDue(s, p, pc) && KidsDue(s, p, pc)
    && WaitDue(s, p, pc) && InitDue(s, p, pc) && ExitDue(s, p, pc)
  }

  /** A thread may go wherever its locks are free and nothing is owed. */
  lemma ShiftInv(s: State, c: nat, p: nat, pc: Pc)
    requires Inv(s) && CanShift(s, c, p, pc) && Due(s, p, pc)
    ensures Inv(Shift(s, c, p, pc))
  {
    hide Sized, Placed, Locks, Forks, Parents, Waits, Exits, Pids, Deliveries, CanShift, Shift;
    hide ForkDue, ForkParentDue, KidsDue, WaitDue, InitDue, ExitDue;
    ShiftSized(s, c, p, pc);
    ShiftLocks(s, c, p, pc);
    ShiftForks(s, c, p, pc);
    ShiftParents(s, c, p, pc);
    ShiftWaits(s, c, p, pc);
    ShiftExits(s, c, p, pc);
    ShiftPids(s, c, p, pc);
  }
}
