/**
  Giving up a CPU, becoming a zombie, and the scheduler.

  SettleInv is the change of state just before sched, DieInv that of exit, and
  HopInv covers all steps in which a CPU and the slot it is concerned with change
  together: swtch in both directions, and the scheduler's acquire and release.

  In each case the point is what others may conclude from the change: no wait may
  miss a zombie, no lock may lose its holder, and no process may be on two CPUs.
*/
module ProcSwitch {
  import opened Wrappers
  import opened ProcState
  import opened ProcMoves
  import opened ProcEdits

  /** p->state (and p->chan) just before sched. */
  function Settled(q: Proc, p: nat): Proc
    requires q.pc.Locked?
  {
    var w := q.pc.why;
    if w.Nap? then q.(pc := Leaving(w), state := SLEEPING, chan := Other(w.n))
    else if w.WaitNap? then q.(pc := Leaving(w), state := SLEEPING, chan := Self(p))
    else q.(pc := Leaving(w), state := RUNNABLE)
  }

  lemma SettledFacts(s: State, p: nat)
    requires p < |s.procs| && s.procs[p].pc.Locked? && Fits(s.procs[p], p)
    ensures var q, o := Settled(s.procs[p], p), s.procs[p];
      && Quiet(s, p, q) && q.parent == o.parent && q.pid == o.pid && q.pc.Leaving? && Fits(q, p)
      && InRange(q.pc, |s.procs|)
      && !q.state.ZOMBIE? && !q.state.UNUSED? && !q.state.USED? && !q.state.RUNNING?
      && (Asleep(q) <==> Asleep(o)) && ForkOf(q.pc).None? && Cleared(q, |s.procs|) == Cleared(o, |s.procs|)
      && !ExitPc(q.pc)
  {
  }

  lemma SettleInv(s: State, p: nat)
    requires Inv(s) && p < |s.procs| && s.procs[p].pc.Locked?
    ensures Inv(Edit(s, p, Settled(s.procs[p], p)))
  {
    var q := Settled(s.procs[p], p);
    hide Sized, Placed, Locks, Forks, Parents, Waits, Exits, Pids, Deliveries;
    hide OnOk, ExitOk, PidOk, WaitOk, ForkOk, CpuOk, ParentOk, NoForker, Settled, Quiet, InRange, Cleared, ExitPc;
    hide ForkOf;
    SlotFacts(s, p);
    SettledFacts(s, p);
    EditSized(s, p, q);
    EditPlaced(s, p, q);
    EditLocks(s, p, q);
    RunningNoForker(s, p);
    EditForks(s, p, q);
    EditParents(s, p, q);
    SettleWaits(s, p);
    SettleRest(s, p);
  }

  lemma RunningNoForker(s: State, p: nat)
    requires Inv(s) && p < |s.procs| && s.procs[p].state.RUNNING?
    ensures NoForker(s, p)
  {
    hide Sized, Placed, Locks, Parents, Waits, Exits, Pids, Deliveries;
    UnusedNoForker(s, p);
  }

  lemma SettleWaits(s: State, p: nat)
    requires Placed(s) && Waits(s) && p < |s.procs| && s.procs[p].pc.Locked? && Fits(s.procs[p], p)
    ensures Waits(Edit(s, p, Settled(s.procs[p], p)))
  {
    var q := Settled(s.procs[p], p);
    var s2 := Edit(s, p, q);
    SettledFacts(s, p);
    hide Settled, Quiet, Cleared, Fits, InRange, ForkOf;
    forall r | 0 <= r < |s.procs| ensures WaitOk(s2, r) {
      assert WaitOk(s, r);
      if Pending(s, r) { EditPending(s, p, q, r); }
      LivelyKids(s, p, q, r);
      hide HasKid, NoZombie, Pending, Placed, Asleep;
    }
  }

  /** A new state that is not ZOMBIE, the same parent. */
  lemma LivelyKids(s: State, p: nat, q: Proc, r: nat)
    requires p < |s.procs| && q.parent == s.procs[p].parent && !q.state.ZOMBIE?
    ensures HasKid(s, r) ==> HasKid(Edit(s, p, q), r)
    ensures forall i :: NoZombie(s, r, i) ==> NoZombie(Edit(s, p, q), r, i)
  {
    if HasKid(s, r) {
      var k :| 0 <= k < |s.procs| && s.procs[k].parent == Some(r);
      assert Edit(s, p, q).procs[k].parent == Some(r);
    }
  }

  lemma SettleRest(s: State, p: nat)
    requires Exits(s) && Pids(s) && Deliveries(s) && p < |s.procs| && s.procs[p].pc.Locked? && s.procs[p].state.RUNNING?
    ensures var s2 := Edit(s, p, Settled(s.procs[p], p)); Exits(s2) && Pids(s2) && Deliveries(s2)
  {
    var s2 := Edit(s, p, Settled(s.procs[p], p));
    forall e | 0 <= e < |s.procs| ensures ExitOk(s2, e) {
      assert ExitOk(s, e);
    }
    forall k | 0 <= k < |s.procs| ensures PidOk(s2, k) {
      assert PidOk(s, k);
    }
  }

  // ------------------------------------------------------------------------ exit

  /** p->xstate = status; p->state = ZOMBIE */
  function Died(s: State, p: nat): State
    requires p < |s.procs| && s.procs[p].pc.ExitLock?
  {
    Edit(s, p, Zombie(s.procs[p])).(exited := s.exited[s.procs[p].pid := s.procs[p].pc.status])
  }

  lemma DieInv(s: State, c: nat, p: nat)
    requires Inv(s) && Runs(s, c, p) && s.procs[p].pc.ExitLock?
    ensures Inv(Died(s, p))
  {
    var q := Zombie(s.procs[p]);
    hide Sized, Placed, Locks, Forks, Parents, Waits, Exits, Pids, Deliveries, NoForker;
    hide Quiet, Fits, InRange, ForkOf, Running;
    ZombieFacts(s, p);
    RunningNoForker(s, p);
    EditSized(s, p, q);
    EditPlaced(s, p, q);
    EditLocks(s, p, q);
    EditForks(s, p, q);
    DieParents(s, p);
    DieWaits(s, c, p);
    DieExits(s, p);
    DiePids(s, p);
    NextPid(Edit(s, p, q), Died(s, p));
  }

  lemma ZombieFacts(s: State, p: nat)
    requires Inv(s) && p < |s.procs| && s.procs[p].pc.ExitLock?
    ensures s.procs[p].state.RUNNING?
    ensures var q := Zombie(s.procs[p]); Quiet(s, p, q) && Fits(q, p) && InRange(q.pc, |s.procs|) && ForkOf(q.pc).None?
  {
    hide Inv, WaitOk, PidOk, ExitOk, ForkOk, ParentOk, CpuOk, OnOk;
    SlotFacts(s, p);
  }

  lemma DieParents(s: State, p: nat)
    requires Parents(s) && Exits(s) && p < |s.procs| && s.procs[p].pc.ExitLock? && s.procs[p].state.RUNNING?
    ensures Parents(Edit(s, p, Zombie(s.procs[p])))
  {
    EditParents(s, p, Zombie(s.procs[p]));
  }

  function Zombie(q: Proc): Proc
    requires q.pc.ExitLock?
  {
    q.(pc := ExitHold, state := ZOMBIE, xstate := q.pc.status)
  }

  /** p's parent was woken and cannot have gone back to sleep or be scanning. */
  lemma DieWaits(s: State, c: nat, p: nat)
    requires Sized(s) && Placed(s) && Locks(s) && Exits(s) && Waits(s) && Runs(s, c, p) && s.procs[p].pc.ExitLock?
    ensures Waits(Edit(s, p, Zombie(s.procs[p])))
  {
    assert ExitOk(s, p);
    hide Sized, Placed, Locks, Exits;
    forall r | 0 <= r < |s.procs| ensures WaitOk(Edit(s, p, Zombie(s.procs[p])), r) {
      if r != p {
        OneWaiter(s, c, p, r);
        DieWaitOk(s, p, r);
      }
    }
  }

  lemma DieWaitOk(s: State, p: nat, r: nat)
    requires Placed(s) && p < |s.procs| && s.procs[p].pc.ExitLock? && r < |s.procs| && r != p && WaitOk(s, r)
    requires !HoldsWait(s.procs[r].pc) && (s.procs[p].parent == Some(r) ==> !Asleep(s.procs[r]))
    ensures WaitOk(Edit(s, p, Zombie(s.procs[p])), r)
  {
    var q := Zombie(s.procs[p]);
    if Pending(s, r) { EditPending(s, p, q, r); }
    if s.procs[p].parent != Some(r) { OtherKids(s, p, q, r); }
    hide Placed, Pending, HasKid, NoZombie;
  }

  lemma OtherKids(s: State, p: nat, q: Proc, r: nat)
    requires p < |s.procs| && q.parent == s.procs[p].parent && q.parent != Some(r)
    ensures HasKid(s, r) ==> HasKid(Edit(s, p, q), r)
    ensures forall i :: NoZombie(s, r, i) ==> NoZombie(Edit(s, p, q), r, i)
  {
    if HasKid(s, r) {
      var k :| 0 <= k < |s.procs| && s.procs[k].parent == Some(r);
      assert Edit(s, p, q).procs[k].parent == Some(r);
    }
  }

  lemma DieExits(s: State, p: nat)
    requires Exits(s) && p < |s.procs| && s.procs[p].pc.ExitLock?
    ensures Exits(Edit(s, p, Zombie(s.procs[p])))
  {
    var s2 := Edit(s, p, Zombie(s.procs[p]));
    forall e | 0 <= e < |s.procs| ensures ExitOk(s2, e) {
      assert ExitOk(s, e);
    }
  }

  lemma DiePids(s: State, p: nat)
    requires Pids(s) && Deliveries(s) && p < |s.procs| && s.procs[p].pc.ExitLock? && s.procs[p].state.RUNNING?
    ensures Pids(Died(s, p)) && Deliveries(Died(s, p))
  {
    var s2 := Died(s, p);
    assert PidOk(s, p);
    forall k | 0 <= k < |s.procs| ensures PidOk(s2, k) {
      assert PidOk(s, k);
    }
  }

  // ------------------------------------------------------------- swtch and scheduler

  /** CPU c and the slot k it is concerned with change together. */
  function Hop(s: State, c: nat, k: nat, q: Proc, u: Cpu): State
    requires c < |s.cpus| && k < |s.procs|
  {
    s.(procs := s.procs[k := q], cpus := s.cpus[c := u])
  }

  /** c is in its scheduler at slot k, or runs k which is about to leave. */
  predicate CanHop(s: State, c: nat, k: nat, q: Proc, u: Cpu) {
    && c < |s.cpus| && k < |s.procs| && s.cpus[c].at.k == k
    && (s.cpus[c].at.Away? ==> s.procs[k].pc.Leaving?)
    && (u.at.k == k || u.at.Look?)
    && ((q.pc == s.procs[k].pc && q.on == s.procs[k].on) || s.procs[k].on.None? || s.procs[k].on == Some(c))
    && q.parent == s.procs[k].parent && q.pid == s.procs[k].pid && q.xstate == s.procs[k].xstate
    && Fits(q, k) && InRange(q.pc, |s.procs|)
    && var s2 := Hop(s, c, k, q, u);
       && CpuOk(s2, c) && OnOk(s2, k) && !CpuWait(s2, c)
       && (CpuLock(s2, c).Some? ==> CpuLock(s2, c).value == k)
       && (CpuLock(s2, c).Some? && CpuLock(s, c).None? ==> s.procs[k].lock.None?)
       && q.lock == if CpuLock(s2, c) == CpuLock(s, c) then s.procs[k].lock else if CpuLock(s2, c).Some? then Some(c)
                    else None
  }

  lemma HopPlaced(s: State, c: nat, k: nat, q: Proc, u: Cpu)
    requires Sized(s) && Placed(s) && CanHop(s, c, k, q, u)
    ensures var s2 := Hop(s, c, k, q, u); Sized(s2) && Placed(s2)
  {
    var s2 := Hop(s, c, k, q, u);
    hide Fits, InRange, CpuLock, CpuWait;
    forall d | 0 <= d < |s.cpus| ensures CpuOk(s2, d) {
      assert CpuOk(s, d);
    }
    forall j | 0 <= j < |s.procs| ensures OnOk(s2, j) {
      assert OnOk(s, j);
    }
  }

  lemma HopCpus(s: State, c: nat, k: nat, q: Proc, u: Cpu, d: nat)
    requires Placed(s) && CanHop(s, c, k, q, u) && d < |s.cpus| && d != c
    ensures var s2 := Hop(s, c, k, q, u);
      d < |s2.cpus| && CpuLock(s2, d) == CpuLock(s, d) && CpuWait(s2, d) == CpuWait(s, d)
  {
    hide Fits, InRange, LockOf, HoldsWait;
    assert CpuOk(s, d);
  }

  lemma HopLocks(s: State, c: nat, k: nat, q: Proc, u: Cpu)
    requires Placed(s) && Locks(s) && CanHop(s, c, k, q, u)
    ensures Locks(Hop(s, c, k, q, u))
  {
    var s2 := Hop(s, c, k, q, u);
    assert CpuOk(s, c);
    assert !CpuWait(s, c) && (CpuLock(s, c).Some? ==> CpuLock(s, c).value == k);
    hide Fits, InRange, CpuLock, CpuWait, CpuOk, OnOk, Placed, Locks;
    forall d | 0 <= d < |s.cpus| && d != c ensures CpuLock(s2, d) == CpuLock(s, d) && CpuWait(s2, d) == CpuWait(s, d) {
      HopCpus(s, c, k, q, u, d);
    }
    LocksAfter(s, s2, c, CpuLock(s, c), CpuLock(s2, c), false, false);
  }

  /** What others see of slot k: no new children, zombies or sleepers. */
  predicate Unseen(o: Proc, q: Proc, n: nat) {
    && (Asleep(q) ==> Asleep(o)) && Cleared(q, n) == Cleared(o, n) && ForkOf(q.pc).None? && ForkOf(o.pc).None?
    && (q.state == o.state || (o.state.RUNNABLE? && q.state.RUNNING?))
    && !q.pc.WaitScan? && !q.pc.WaitLook? && !q.pc.WaitGo? && !ExitPc(q.pc)
  }

  lemma HopPending(s: State, c: nat, k: nat, q: Proc, u: Cpu, p: nat)
    requires Placed(s) && CanHop(s, c, k, q, u) && Pending(s, p)
    ensures Pending(Hop(s, c, k, q, u), p)
  {
    var d := s.waitLock.value;
    assert CpuOk(s, d) && CpuOk(s, c);
    hide Fits, InRange;
  }

  lemma HopWaits(s: State, c: nat, k: nat, q: Proc, u: Cpu)
    requires Placed(s) && Waits(s) && CanHop(s, c, k, q, u)
    requires (q.pc == s.procs[k].pc || Unseen(s.procs[k], q, |s.procs|))
    requires q.state == s.procs[k].state || (s.procs[k].state.RUNNABLE? && q.state.RUNNING?)
    ensures Waits(Hop(s, c, k, q, u))
  {
    forall r | 0 <= r < |s.procs| ensures WaitOk(Hop(s, c, k, q, u), r) {
      assert WaitOk(s, r);
      HopWaitOk(s, c, k, q, u, r);
    }
  }

  lemma HopWaitOk(s: State, c: nat, k: nat, q: Proc, u: Cpu, r: nat)
    requires Placed(s) && CanHop(s, c, k, q, u) && (q.pc == s.procs[k].pc || Unseen(s.procs[k], q, |s.procs|))
    requires q.state == s.procs[k].state || (s.procs[k].state.RUNNABLE? && q.state.RUNNING?)
    requires r < |s.procs| && WaitOk(s, r)
    ensures WaitOk(Hop(s, c, k, q, u), r)
  {
    if Pending(s, r) { HopPending(s, c, k, q, u, r); }
    HopKids(s, c, k, q, u, r);
    hide Placed, Fits, InRange, CpuLock, CpuWait, CpuOk, OnOk, Pending, HasKid, NoZombie;
  }

  lemma HopKids(s: State, c: nat, k: nat, q: Proc, u: Cpu, r: nat)
    requires c < |s.cpus| && k < |s.procs| && q.parent == s.procs[k].parent
    requires (q.state.ZOMBIE? ==> s.procs[k].state.ZOMBIE?)
    ensures HasKid(s, r) ==> HasKid(Hop(s, c, k, q, u), r)
    ensures forall i :: NoZombie(s, r, i) ==> NoZombie(Hop(s, c, k, q, u), r, i)
  {
    if HasKid(s, r) {
      var j :| 0 <= j < |s.procs| && s.procs[j].parent == Some(r);
      assert Hop(s, c, k, q, u).procs[j].parent == Some(r);
    }
  }

  /** The parts of the invariant that do not look at the cpus. */
  lemma HopRest(s: State, c: nat, k: nat, q: Proc, u: Cpu)
    requires Forks(s) && Parents(s) && Exits(s) && Pids(s) && Deliveries(s) && CanHop(s, c, k, q, u)
    requires Unseen(s.procs[k], q, |s.procs|)
      || (q.pc == s.procs[k].pc && q.state == s.procs[k].state && q.chan == s.procs[k].chan)
    ensures var s2 := Hop(s, c, k, q, u); Forks(s2) && Parents(s2) && Exits(s2) && Pids(s2) && Deliveries(s2)
  {
    var s2, n := Hop(s, c, k, q, u), |s.procs|;
    assert ParentOk(s, k);
    assert Cleared(q, n) == Cleared(s.procs[k], n);
    HopForks(s, c, k, q, u);
    HopExits(s, c, k, q, u);
    hide Cleared, Fits, InRange, CpuLock, CpuWait, CpuOk, OnOk, Unseen;
    forall j | 0 <= j < n ensures ParentOk(s2, j) && PidOk(s2, j) {
      assert ParentOk(s, j) && PidOk(s, j);
    }
  }

  lemma HopForks(s: State, c: nat, k: nat, q: Proc, u: Cpu)
    requires Forks(s) && CanHop(s, c, k, q, u)
    requires ForkOf(q.pc) == ForkOf(s.procs[k].pc) && (q.pc == s.procs[k].pc || ForkOf(q.pc).None?)
    requires q.state == s.procs[k].state || (s.procs[k].state.RUNNABLE? && q.state.RUNNING?)
    ensures Forks(Hop(s, c, k, q, u))
  {
    var s2 := Hop(s, c, k, q, u);
    hide Fits, InRange, CpuLock, CpuWait, CpuOk, OnOk;
    forall j | 0 <= j < |s.procs| ensures ForkOk(s2, j) {
      assert ForkOk(s, j);
    }
    hide ForkOf;
  }

  lemma HopExits(s: State, c: nat, k: nat, q: Proc, u: Cpu)
    requires Exits(s) && CanHop(s, c, k, q, u)
    requires (Asleep(q) ==> Asleep(s.procs[k])) && (q.pc == s.procs[k].pc || !ExitPc(q.pc))
    ensures Exits(Hop(s, c, k, q, u))
  {
    var s2 := Hop(s, c, k, q, u);
    hide Fits, InRange, CpuLock, CpuWait, CpuOk, OnOk;
    forall e | 0 <= e < |s.procs| ensures ExitOk(s2, e) {
      assert ExitOk(s, e);
      hide Asleep;
    }
  }

  lemma HopInv(s: State, c: nat, k: nat, q: Proc, u: Cpu)
    requires Inv(s) && CanHop(s, c, k, q, u)
    requires Unseen(s.procs[k], q, |s.procs|)
      || (q.pc == s.procs[k].pc && q.state == s.procs[k].state && q.chan == s.procs[k].chan)
    ensures Inv(Hop(s, c, k, q, u))
  {
    hide Sized, Placed, Locks, Forks, Parents, Waits, Exits, Pids, Deliveries, CanHop, Hop, Asleep, Cleared, ForkOf;
    hide ExitPc;
    HopPlaced(s, c, k, q, u);
    HopLocks(s, c, k, q, u);
    HopWaits(s, c, k, q, u);
    HopRest(s, c, k, q, u);
  }
}
