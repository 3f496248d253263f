/**
  What editing one slot of the process table keeps.

  Quiet edits are not about locks: they change a slot whose thread is on no CPU,
  or let a running thread go on with the locks it has. On top of them come the
  edits that the kernel makes under a lock it holds:

  - waking or killing a sleeper, tidying up a channel (TameInv);
  - taking a slot in allocproc and freeing it again (SpawnInv, UnspawnInv);
  - a new parent in fork and in reparent (AdoptInv, GiveToInitInv);
  - fork's last step and wait's last step (ReadyInv, ReapInv).
*/
module ProcEdits {
  import opened Wrappers
  import opened ProcState
  import opened ProcMoves

  function Edit(s: State, j: nat, q: Proc): State
    requires j < |s.procs|
  {
    s.(procs := s.procs[j := q])
  }

  /** What the invariant says of one slot. */
  lemma SlotFacts(s: State, k: nat)
    requires Inv(s) && k < |s.procs|
    ensures Fits(s.procs[k], k) && InRange(s.procs[k].pc, |s.procs|) && OnOk(s, k) && ParentOk(s, k)
    ensures ForkOk(s, k) && ExitOk(s, k) && PidOk(s, k) && WaitOk(s, k)
    ensures s.procs[k].on.Some? ==> CpuOk(s, s.procs[k].on.value)
  {
    hide Fits, InRange, ParentOk, ForkOk, ExitOk, PidOk, WaitOk, Locks, CpuOk;
  }

  lemma InitFacts(s: State)
    requires Inv(s)
    ensures |s.procs| > 0 && Cleared(s.procs[INIT], |s.procs|) == 0 && !ExitPc(s.procs[INIT].pc)
    ensures s.procs[INIT].parent.None? && !s.procs[INIT].state.UNUSED? && !s.procs[INIT].state.ZOMBIE?
    ensures !s.procs[INIT].state.USED?
  {
    assert ParentOk(s, INIT) && Fits(s.procs[INIT], INIT);
    hide ExitPc, Locks, Placed, Waits, Pids, Forks;
  }

  lemma CpuFacts(s: State, c: nat)
    requires Inv(s) && c < |s.cpus|
    ensures CpuOk(s, c)
    ensures CpuLock(s, c).Some? ==> CpuLock(s, c).value < |s.procs| && s.procs[CpuLock(s, c).value].lock == Some(c)
    ensures CpuWait(s, c) ==> s.waitLock == Some(c)
  {
    hide OnOk, CpuOk, CpuLock, CpuWait, Sized, Forks, Parents, Waits, Exits, Pids, Deliveries;
  }

  /** A running thread goes on with the same locks, and not out of a wakeup loop. */
  predicate SameLocks(pc: Pc, pc2: Pc, j: nat) {
    Running(pc) && Running(pc2) && !pc.Waking? && LockOf(pc2, j) == LockOf(pc, j) && HoldsWait(pc2) == HoldsWait(pc)
  }

  /** The edit is not about locks. */
  predicate Quiet(s: State, j: nat, q: Proc) {
    && j < |s.procs| && q.lock == s.procs[j].lock && q.on == s.procs[j].on
    && (q.pc == s.procs[j].pc || (q.on.None? && !Running(q.pc) && !Running(s.procs[j].pc))
        || SameLocks(s.procs[j].pc, q.pc, j))
  }

  lemma EditSized(s: State, j: nat, q: Proc)
    requires Sized(s) && j < |s.procs| && InRange(q.pc, |s.procs|) && Fits(q, j)
    ensures Sized(Edit(s, j, q))
  {
    hide InRange, Fits;
  }

  lemma EditPlaced(s: State, j: nat, q: Proc)
    requires Placed(s) && Quiet(s, j, q)
    ensures Placed(Edit(s, j, q))
  {
    var s2 := Edit(s, j, q);
    forall c | 0 <= c < |s.cpus| ensures CpuOk(s2, c) {
      assert CpuOk(s, c);
    }
    forall k | 0 <= k < |s.procs| ensures OnOk(s2, k) {
      assert OnOk(s, k);
    }
  }

  lemma EditCpus(s: State, j: nat, q: Proc, c: nat)
    requires Placed(s) && Quiet(s, j, q) && c < |s.cpus|
    ensures CpuLock(Edit(s, j, q), c) == CpuLock(s, c) && CpuWait(Edit(s, j, q), c) == CpuWait(s, c)
  {
    hide LockOf, HoldsWait;
    assert CpuOk(s, c);
  }

  lemma EditLocks(s: State, j: nat, q: Proc)
    requires Placed(s) && Locks(s) && Quiet(s, j, q)
    ensures Locks(Edit(s, j, q))
  {
    var s2 := Edit(s, j, q);
    hide CpuLock, CpuWait, Placed, Running;
    forall c | 0 <= c < |s.cpus| ensures CpuLock(s2, c) == CpuLock(s, c) && CpuWait(s2, c) == CpuWait(s, c) {
      EditCpus(s, j, q, c);
    }
  }

  lemma EditPending(s: State, j: nat, q: Proc, p: nat)
    requires Placed(s) && Quiet(s, j, q) && Pending(s, p)
    ensures Pending(Edit(s, j, q), p)
  {
    assert CpuOk(s, s.waitLock.value);
  }

  // ------------------------------------------- wakeup, kill and tidying up a channel

  /** The state stays or a sleeper becomes runnable; nothing else that others look at changes. */
  predicate Tame(s: State, j: nat, q: Proc) {
    && Quiet(s, j, q) && q.pc == s.procs[j].pc && q.parent == s.procs[j].parent && q.pid == s.procs[j].pid
    && q.xstate == s.procs[j].xstate && Fits(q, j)
    && (q.state == s.procs[j].state || (s.procs[j].state.SLEEPING? && q.state.RUNNABLE?))
  }

  /** A slot in use stays in use, with the same parent and as many children. */
  lemma EditParents(s: State, j: nat, q: Proc)
    requires Parents(s) && j < |s.procs| && q.parent == s.procs[j].parent
    requires Cleared(q, |s.procs|) == Cleared(s.procs[j], |s.procs|)
    requires q.state == s.procs[j].state
      || !(s.procs[j].state.UNUSED? || s.procs[j].state.USED? || q.state.UNUSED? || q.state.USED?)
    requires q.state.ZOMBIE? ==> j != INIT
    ensures Parents(Edit(s, j, q))
  {
    var s2, n := Edit(s, j, q), |s.procs|;
    hide Cleared;
    forall k | 0 <= k < n ensures ParentOk(s2, k) {
      assert ParentOk(s, k);
    }
  }

  lemma TameParents(s: State, j: nat, q: Proc)
    requires Parents(s) && Tame(s, j, q)
    ensures Parents(Edit(s, j, q))
  {
    assert ParentOk(s, j);
    EditParents(s, j, q);
  }

  lemma TameTable(s: State, j: nat, q: Proc)
    requires Sized(s) && Forks(s) && Tame(s, j, q)
    ensures var s2 := Edit(s, j, q); Sized(s2) && Forks(s2)
  {
    var s2 := Edit(s, j, q);
    hide InRange, Fits, Running;
    forall k | 0 <= k < |s.procs| ensures ForkOk(s2, k) {
      assert ForkOk(s, k);
    }
    hide ForkOf;
  }

  lemma TameKids(s: State, j: nat, q: Proc, p: nat)
    requires Tame(s, j, q)
    ensures HasKid(s, p) ==> HasKid(Edit(s, j, q), p)
    ensures forall i :: NoZombie(s, p, i) ==> NoZombie(Edit(s, j, q), p, i)
  {
    hide Fits;
    if HasKid(s, p) {
      var k :| 0 <= k < |s.procs| && s.procs[k].parent == Some(p);
      assert Edit(s, j, q).procs[k].parent == Some(p);
    }
  }

  lemma TameWaits(s: State, j: nat, q: Proc)
    requires Placed(s) && Waits(s) && Tame(s, j, q)
    ensures Waits(Edit(s, j, q))
  {
    var s2 := Edit(s, j, q);
    forall p | 0 <= p < |s.procs| ensures WaitOk(s2, p) {
      TameKids(s, j, q, p);
      if Pending(s, p) { EditPending(s, j, q, p); }
      hide HasKid, NoZombie, Pending, Placed, Fits;
      assert WaitOk(s, p);
    }
  }

  lemma TameRest(s: State, j: nat, q: Proc)
    requires Exits(s) && Pids(s) && Deliveries(s) && Tame(s, j, q)
    ensures var s2 := Edit(s, j, q); Exits(s2) && Pids(s2) && Deliveries(s2)
  {
    var s2 := Edit(s, j, q);
    hide Fits;
    forall e | 0 <= e < |s.procs| ensures ExitOk(s2, e) {
      assert ExitOk(s, e);
    }
    forall k | 0 <= k < |s.procs| ensures PidOk(s2, k) {
      assert PidOk(s, k);
    }
  }

  lemma TameInv(s: State, j: nat, q: Proc)
    requires Inv(s) && Tame(s, j, q)
    ensures Inv(Edit(s, j, q))
  {
    EditPlaced(s, j, q);
    EditLocks(s, j, q);
    TameTable(s, j, q);
    TameParents(s, j, q);
    TameWaits(s, j, q);
    TameRest(s, j, q);
    hide Sized, Placed, Locks, Forks, Parents, Waits, Exits, Pids, Deliveries, Tame;
  }

  // ------------------------------------------------------------- a slot comes and goes

  /** Slot j is not one that a forking thread is still setting up. */
  ghost predicate NoForker(s: State, j: nat) {
    forall p :: 0 <= p < |s.procs| ==> ForkOf(s.procs[p].pc) != Some(j)
  }

  lemma UnusedNoForker(s: State, j: nat)
    requires Forks(s) && j < |s.procs| && !s.procs[j].state.USED?
    ensures NoForker(s, j)
  {
    forall p | 0 <= p < |s.procs| ensures ForkOf(s.procs[p].pc) != Some(j) {
      assert ForkOk(s, p);
    }
  }

  /** Editing a slot no fork is working on, without starting a fork. */
  lemma EditForks(s: State, j: nat, q: Proc)
    requires Forks(s) && j < |s.procs| && NoForker(s, j)
    requires q.pc == s.procs[j].pc || ForkOf(q.pc).None?
    ensures Forks(Edit(s, j, q)) && NoForker(Edit(s, j, q), j)
  {
    var s2 := Edit(s, j, q);
    forall k | 0 <= k < |s.procs| ensures ForkOk(s2, k) {
      assert ForkOk(s, k);
      assert ForkOf(s.procs[k].pc) != Some(j);
    }
    hide ForkOf;
  }

  /** allocproc takes slot j. */
  function Spawned(s: State, j: nat): State
    requires j < |s.procs|
  {
    Edit(s, j, s.procs[j].(state := USED, pid := s.nextpid, pc := Born)).(nextpid := s.nextpid + 1)
  }

  /** The slot of an unused process with no children changes, which no wait or exit notices. */
  lemma EditUnseen(s: State, j: nat, q: Proc)
    requires Placed(s) && Waits(s) && Exits(s) && Quiet(s, j, q) && q.parent.None? && s.procs[j].parent.None?
    requires !Running(q.pc) && !q.pc.Parked? && !Running(s.procs[j].pc) && !s.procs[j].pc.Parked?
    ensures Waits(Edit(s, j, q)) && Exits(Edit(s, j, q))
  {
    var s2 := Edit(s, j, q);
    forall p | 0 <= p < |s.procs| ensures WaitOk(s2, p) {
      assert WaitOk(s, p);
      UnseenKids(s, j, q, p);
      if Pending(s, p) { EditPending(s, j, q, p); }
      hide HasKid, NoZombie, Pending, Placed, Quiet;
    }
    forall e | 0 <= e < |s.procs| ensures ExitOk(s2, e) {
      assert ExitOk(s, e);
    }
  }

  lemma UnseenKids(s: State, j: nat, q: Proc, p: nat)
    requires j < |s.procs| && q.parent.None? && s.procs[j].parent.None?
    ensures HasKid(s, p) ==> HasKid(Edit(s, j, q), p)
    ensures forall i :: NoZombie(s, p, i) ==> NoZombie(Edit(s, j, q), p, i)
  {
    if HasKid(s, p) {
      var k :| 0 <= k < |s.procs| && s.procs[k].parent == Some(p);
      assert Edit(s, j, q).procs[k].parent == Some(p);
    }
  }

  lemma EditNoKids(s: State, j: nat, q: Proc)
    requires Parents(s) && j < |s.procs| && j != INIT && Cleared(s.procs[j], |s.procs|) == |s.procs|
    requires q.parent.None? && (q.state.UNUSED? || q.state.USED?)
    ensures Parents(Edit(s, j, q))
  {
    var s2, n := Edit(s, j, q), |s.procs|;
    hide Cleared;
    forall k | 0 <= k < n ensures ParentOk(s2, k) {
      assert ParentOk(s, k);
    }
  }

  lemma SpawnInv(s: State, j: nat)
    requires Inv(s) && j < |s.procs| && s.procs[j].state.UNUSED?
    ensures Inv(Spawned(s, j)) && NoForker(Spawned(s, j), j)
  {
    var q := s.procs[j].(state := USED, pid := s.nextpid, pc := Born);
    var s2 := Edit(s, j, q);
    UnusedIdle(s, j);
    EditPlaced(s, j, q);
    EditLocks(s, j, q);
    UnusedNoForker(s, j);
    EditForks(s, j, q);
    EditNoKids(s, j, q);
    EditUnseen(s, j, q);
    SpawnPids(s, j);
    assert Sized(s2);
    NextPid(s2, Spawned(s, j));
    hide Sized, Placed, Locks, Forks, Parents, Waits, Exits, Pids, Deliveries;
  }

  lemma UnusedIdle(s: State, j: nat)
    requires Inv(s) && j < |s.procs| && s.procs[j].state.UNUSED?
    ensures s.procs[j].pc.Idle? && s.procs[j].on.None? && s.procs[j].parent.None? && j != INIT
  {
    assert Fits(s.procs[j], j) && OnOk(s, j) && ParentOk(s, j);
    if s.procs[j].on.Some? {
      assert CpuOk(s, s.procs[j].on.value);
    }
  }

  /** The pid counter matters to the pid invariant only. */
  lemma NextPid(s: State, s2: State)
    requires Sized(s) && Placed(s) && Locks(s) && Forks(s) && Parents(s) && Waits(s) && Exits(s)
    requires s2 == s.(nextpid := s2.nextpid, exited := s2.exited, delivered := s2.delivered)
    ensures Sized(s2) && Placed(s2) && Locks(s2) && Forks(s2) && Parents(s2) && Waits(s2) && Exits(s2)
  {
    assert Placed(s2) by {
      forall c | 0 <= c < |s.cpus| ensures CpuOk(s2, c) { assert CpuOk(s, c); }
      forall k | 0 <= k < |s.procs| ensures OnOk(s2, k) { assert OnOk(s, k); }
    }
    assert Locks(s2) by {
      assert forall c :: 0 <= c < |s.cpus| ==> CpuLock(s2, c) == CpuLock(s, c) && CpuWait(s2, c) == CpuWait(s, c);
    }
    assert Forks(s2) by {
      forall p | 0 <= p < |s.procs| ensures ForkOk(s2, p) { assert ForkOk(s, p); }
    }
    assert Parents(s2) by {
      forall p | 0 <= p < |s.procs| ensures ParentOk(s2, p) { assert ParentOk(s, p); }
    }
    forall p | 0 <= p < |s.procs| ensures WaitOk(s2, p) {
      assert WaitOk(s, p);
      KidsSame(s, s2, p);
      assert Pending(s, p) == Pending(s2, p);
    }
    forall p | 0 <= p < |s.procs| ensures ExitOk(s2, p) { assert ExitOk(s, p); }
  }

  lemma SpawnPids(s: State, j: nat)
    requires Pids(s) && Deliveries(s) && j < |s.procs|
    ensures Pids(Spawned(s, j)) && Deliveries(Spawned(s, j))
  {
    var s2 := Spawned(s, j);
    forall k | 0 <= k < |s.procs| ensures PidOk(s2, k) {
      assert PidOk(s, k);
    }
    forall k, l | 0 <= k < l < |s.procs| && !s2.procs[k].state.UNUSED? && !s2.procs[l].state.UNUSED?
      ensures s2.procs[k].pid != s2.procs[l].pid
    {
      assert PidOk(s, k) && PidOk(s, l);
    }
  }

  /** freeproc */
  function Emptied(q: Proc): Proc {
    Proc(UNUSED, NoChan, None, 0, 0, false, q.lock, Idle, q.on)
  }

  /** freeproc when fork could not copy the parent's memory. */
  lemma UnspawnInv(s: State, j: nat)
    requires Inv(s) && j < |s.procs| && s.procs[j].state.USED? && s.procs[j].parent.None? && NoForker(s, j)
    ensures Inv(Edit(s, j, Emptied(s.procs[j])))
  {
    var q := Emptied(s.procs[j]);
    hide Sized, Placed, Locks, Forks, Parents, Waits, Exits, Pids, Deliveries;
    hide OnOk, ExitOk, PidOk, WaitOk, ForkOk, CpuOk, ParentOk, NoForker;
    SlotFacts(s, j);
    InitFacts(s);
    BornOffCpu(s, j);
    EditSized(s, j, q);
    EditPlaced(s, j, q);
    EditLocks(s, j, q);
    EditForks(s, j, q);
    EditNoKids(s, j, q);
    EditUnseen(s, j, q);
    FreePids(s, j);
  }

  lemma BornOffCpu(s: State, j: nat)
    requires Inv(s) && j < |s.procs| && s.procs[j].pc.Born?
    ensures s.procs[j].on.None?
  {
    SlotFacts(s, j);
    hide Inv;
  }

  lemma FreePids(s: State, j: nat)
    requires Pids(s) && Deliveries(s) && j < |s.procs|
    ensures var s2 := Edit(s, j, Emptied(s.procs[j])); Pids(s2) && Deliveries(s2)
  {
    var s2 := Edit(s, j, Emptied(s.procs[j]));
    forall k | 0 <= k < |s.procs| ensures PidOk(s2, k) {
      assert PidOk(s, k);
    }
  }

  // ---------------------------------------------------------------- parent pointers

  function Reparented(s: State, k: nat, p: nat): State
    requires k < |s.procs|
  {
    Edit(s, k, s.procs[k].(parent := Some(p)))
  }

  /** Slot k gets parent p, who may have it; whoever loses a child is not in wait. */
  lemma ReparentedParents(s: State, k: nat, p: nat)
    requires Parents(s) && k < |s.procs| && p < |s.procs| && p != k && k != INIT && !s.procs[k].state.UNUSED?
    requires k >= Cleared(s.procs[p], |s.procs|)
    ensures Parents(Reparented(s, k, p))
  {
    var s2, n := Reparented(s, k, p), |s.procs|;
    assert Cleared(s2.procs[k], n) == Cleared(s.procs[k], n);
    hide Cleared;
    forall j | 0 <= j < n ensures ParentOk(s2, j) {
      assert ParentOk(s, j);
    }
  }

  ghost predicate NotWaiting(q: Proc) {
    !Asleep(q) && !q.pc.WaitScan? && !q.pc.WaitLook? && !q.pc.WaitGo?
  }

  lemma ReparentedKids(s: State, k: nat, p: nat, r: nat)
    requires k < |s.procs| && s.procs[k].parent != Some(r)
    ensures HasKid(s, r) ==> HasKid(Reparented(s, k, p), r)
    ensures r != p || !s.procs[k].state.ZOMBIE? ==> forall i :: NoZombie(s, r, i) ==>
      NoZombie(Reparented(s, k, p), r, i)
  {
    if HasKid(s, r) {
      var j :| 0 <= j < |s.procs| && s.procs[j].parent == Some(r);
      assert Reparented(s, k, p).procs[j].parent == Some(r);
    }
  }

  /** Adding a child that is a zombie is only safe if the new parent is still to be woken, or does not wait. */
  lemma ReparentedWaits(s: State, k: nat, p: nat)
    requires Placed(s) && Waits(s) && k < |s.procs| && p < |s.procs|
    requires s.procs[k].parent.Some? && s.procs[k].parent.value < |s.procs| ==>
      NotWaiting(s.procs[s.procs[k].parent.value])
    requires !s.procs[k].state.ZOMBIE? || NotWaiting(s.procs[p]) ||
             (Pending(s, p) && !s.procs[p].pc.WaitScan? && !s.procs[p].pc.WaitLook? && !s.procs[p].pc.WaitGo?)
    ensures Waits(Reparented(s, k, p))
  {
    var q := s.procs[k].(parent := Some(p));
    var s2 := Reparented(s, k, p);
    forall r | 0 <= r < |s.procs| ensures WaitOk(s2, r) {
      assert WaitOk(s, r);
      if Pending(s, r) { EditPending(s, k, q, r); }
      if s.procs[k].parent != Some(r) { ReparentedKids(s, k, p, r); }
      hide HasKid, NoZombie, Pending, Placed;
    }
  }

  lemma ReparentedRest(s: State, k: nat, p: nat)
    requires Sized(s) && Pids(s) && Deliveries(s) && k < |s.procs|
    ensures var s2 := Reparented(s, k, p); Sized(s2) && Pids(s2) && Deliveries(s2)
  {
    var s2 := Reparented(s, k, p);
    hide InRange;
    forall j | 0 <= j < |s.procs| ensures PidOk(s2, j) {
      assert PidOk(s, j);
    }
    forall j | 0 <= j < |s.procs| ensures Fits(s2.procs[j], j) {
      assert Fits(s.procs[j], j);
    }
  }

  /** A child that is not exiting changes parents unnoticed by exits. */
  lemma ReparentedExits(s: State, k: nat, p: nat)
    requires Exits(s) && k < |s.procs| && !ExitPc(s.procs[k].pc)
    ensures Exits(Reparented(s, k, p))
  {
    var s2 := Reparented(s, k, p);
    assert Asleep(s2.procs[k]) == Asleep(s.procs[k]);
    forall e | 0 <= e < |s.procs| ensures ExitOk(s2, e) {
      assert ExitOk(s, e);
      hide Asleep;
    }
  }

  /** What a change of parent needs: a legal new parent, and nobody in wait who is misled. */
  ghost predicate MayReparent(s: State, k: nat, p: nat) {
    && k < |s.procs| && p < |s.procs| && p != k && k != INIT && !s.procs[k].state.UNUSED? && NoForker(s, k)
    && !ExitPc(s.procs[k].pc) && k >= Cleared(s.procs[p], |s.procs|)
    && (s.procs[k].parent.Some? && s.procs[k].parent.value < |s.procs| ==> NotWaiting(s.procs[s.procs[k].parent.value]))
    && (!s.procs[k].state.ZOMBIE? || NotWaiting(s.procs[p]) ||
        (Pending(s, p) && !s.procs[p].pc.WaitScan? && !s.procs[p].pc.WaitLook? && !s.procs[p].pc.WaitGo?))
  }

  lemma ReparentedInv(s: State, k: nat, p: nat)
    requires Inv(s) && MayReparent(s, k, p)
    ensures Inv(Reparented(s, k, p)) && NoForker(Reparented(s, k, p), k)
  {
    var q := s.procs[k].(parent := Some(p));
    hide Sized, Placed, Locks, Forks, Parents, Waits, Exits, Pids, Deliveries, NoForker, NotWaiting, Cleared, ExitPc;
    hide Pending;
    EditPlaced(s, k, q);
    EditLocks(s, k, q);
    EditForks(s, k, q);
    ReparentedParents(s, k, p);
    ReparentedWaits(s, k, p);
    ReparentedRest(s, k, p);
    ReparentedExits(s, k, p);
  }

  /** np->parent = p in fork. */
  lemma AdoptInv(s: State, k: nat, c: nat, p: nat)
    requires Inv(s) && k < |s.procs| && s.procs[k].state.USED? && s.procs[k].parent.None? && NoForker(s, k)
    requires Runs(s, c, p) && s.procs[p].pc.WaitEnd?
    ensures Inv(Reparented(s, k, p)) && NoForker(Reparented(s, k, p), k)
  {
    hide Inv, InRange, OnOk, ExitOk, PidOk, WaitOk, ForkOk, CpuOk;
    SlotFacts(s, k);
    SlotFacts(s, p);
    InitFacts(s);
    ReparentedInv(s, k, p);
  }

  /** pp->parent = initproc in reparent, just before wakeup(initproc). */
  lemma GiveToInitInv(s: State, k: nat, c: nat, e: nat)
    requires Inv(s) && k < |s.procs| && Runs(s, c, e) && s.procs[k].parent == Some(e) && NoForker(s, k)
    requires s.procs[e].pc.Waking? && s.procs[e].pc.cont.Reparent? && s.procs[e].pc.j == 0 && e != INIT
    ensures Inv(Reparented(s, k, INIT))
  {
    InvLocks(s);
    hide Inv, InRange, OnOk, ExitOk, PidOk, WaitOk, ForkOk, CpuOk, Sized, Placed, Locks;
    SlotFacts(s, k);
    CpuFacts(s, c);
    InitFacts(s);
    OneWaiter(s, c, e, INIT);
    if k != e { OneWaiter(s, c, e, k); }
    ReparentedInv(s, k, INIT);
  }

  lemma InvLocks(s: State)
    requires Inv(s)
    ensures Sized(s) && Placed(s) && Locks(s)
  {
  }

  // ------------------------------------------------------------- fork's last step, wait

  /** np->state = RUNNABLE in fork. */
  lemma ReadyInv(s: State, j: nat)
    requires Inv(s) && j < |s.procs| && s.procs[j].state.USED? && s.procs[j].parent.Some? && NoForker(s, j)
    ensures Inv(Edit(s, j, s.procs[j].(state := RUNNABLE)))
  {
    var q := s.procs[j].(state := RUNNABLE);
    assert Fits(s.procs[j], j);
    assert s.procs[j].pc.Born?;
    EditPlaced(s, j, q);
    EditLocks(s, j, q);
    EditForks(s, j, q);
    ReadyParents(s, j);
    ReadyRest(s, j);
    ReadyWaits(s, j);
    hide Placed, Locks, Forks, Parents, Waits, Exits, Pids, Deliveries, InRange;
    assert Sized(Edit(s, j, q));
  }

  lemma ReadyParents(s: State, j: nat)
    requires Parents(s) && j < |s.procs| && s.procs[j].pc.Born? && s.procs[j].parent.Some?
    ensures Parents(Edit(s, j, s.procs[j].(state := RUNNABLE)))
  {
    var q, n := s.procs[j].(state := RUNNABLE), |s.procs|;
    var s2 := Edit(s, j, q);
    assert Cleared(q, n) == 0;
    hide Cleared;
    forall k | 0 <= k < n ensures ParentOk(s2, k) {
      assert ParentOk(s, k) && ParentOk(s, j);
    }
  }

  lemma ReadyWaits(s: State, j: nat)
    requires Placed(s) && Waits(s) && j < |s.procs| && s.procs[j].pc.Born?
    ensures Waits(Edit(s, j, s.procs[j].(state := RUNNABLE)))
  {
    var q := s.procs[j].(state := RUNNABLE);
    var s2 := Edit(s, j, q);
    forall p | 0 <= p < |s.procs| ensures WaitOk(s2, p) {
      assert WaitOk(s, p);
      if Pending(s, p) { EditPending(s, j, q, p); }
      ReadyKids(s, j, p);
      hide HasKid, NoZombie, Pending, Placed;
    }
  }

  lemma ReadyKids(s: State, j: nat, p: nat)
    requires j < |s.procs|
    ensures HasKid(s, p) ==> HasKid(Edit(s, j, s.procs[j].(state := RUNNABLE)), p)
    ensures forall i :: NoZombie(s, p, i) ==> NoZombie(Edit(s, j, s.procs[j].(state := RUNNABLE)), p, i)
  {
    var s2 := Edit(s, j, s.procs[j].(state := RUNNABLE));
    if HasKid(s, p) {
      var k :| 0 <= k < |s.procs| && s.procs[k].parent == Some(p);
      assert s2.procs[k].parent == Some(p);
    }
  }

  lemma ReadyRest(s: State, j: nat)
    requires Exits(s) && Pids(s) && Deliveries(s) && j < |s.procs| && s.procs[j].pc.Born? && s.procs[j].state.USED?
    ensures var s2 := Edit(s, j, s.procs[j].(state := RUNNABLE)); Exits(s2) && Pids(s2) && Deliveries(s2)
  {
    var s2 := Edit(s, j, s.procs[j].(state := RUNNABLE));
    forall e | 0 <= e < |s.procs| ensures ExitOk(s2, e) {
      assert ExitOk(s, e);
    }
    forall k | 0 <= k < |s.procs| ensures PidOk(s2, k) {
      assert PidOk(s, k);
    }
  }

  /** wait hands out the status of zombie j and frees its slot. */
  function Reaped(s: State, j: nat): State
    requires j < |s.procs|
  {
    Edit(s, j, Emptied(s.procs[j])).(delivered := s.delivered + [(s.procs[j].pid, s.procs[j].xstate)])
  }

  lemma ReapInv(s: State, j: nat, c: nat, p: nat)
    requires Inv(s) && j < |s.procs| && s.procs[j].state.ZOMBIE? && Runs(s, c, p)
    requires s.procs[j].parent == Some(p) && s.procs[p].pc == WaitReap(j)
    ensures Inv(Reaped(s, j))
  {
    var q := Emptied(s.procs[j]);
    var s2 := Edit(s, j, q);
    ZombieParked(s, j, c, p);
    EditPlaced(s, j, q);
    EditLocks(s, j, q);
    UnusedNoForker(s, j);
    EditForks(s, j, q);
    ReapParents(s, j);
    ReapWaits(s, j, p);
    ReapExits(s, j);
    ReapPids(s, j);
    assert Sized(s2);
    hide Sized, Placed, Locks, Forks, Parents, Waits, Exits, Pids, Deliveries;
    NextPid(s2, Reaped(s, j));
  }

  /** A zombie whose lock the parent holds has left its CPU for good. */
  lemma ZombieParked(s: State, j: nat, c: nat, p: nat)
    requires Inv(s) && j < |s.procs| && s.procs[j].state.ZOMBIE? && Runs(s, c, p) && s.procs[p].pc == WaitReap(j)
    ensures s.procs[j].pc == Parked(Dead) && s.procs[j].on.None?
    ensures j != INIT && p != j
  {
    hide Inv;
    SlotFacts(s, j);
    SlotFacts(s, p);
    CpuFacts(s, c);
    if s.procs[j].on.Some? {
      CpuFacts(s, s.procs[j].on.value);
    }
  }

  lemma ReapParents(s: State, j: nat)
    requires Parents(s) && j < |s.procs| && j != INIT && s.procs[j].pc == Parked(Dead)
    ensures Parents(Edit(s, j, Emptied(s.procs[j])))
  {
    EditNoKids(s, j, Emptied(s.procs[j]));
  }

  lemma ReapWaits(s: State, j: nat, p: nat)
    requires Placed(s) && Waits(s) && j < |s.procs| && p < |s.procs| && s.procs[j].parent == Some(p)
    requires s.procs[p].pc == WaitReap(j) && p != j && s.procs[j].pc.Parked? && s.procs[j].on.None?
    ensures Waits(Edit(s, j, Emptied(s.procs[j])))
  {
    var q := Emptied(s.procs[j]);
    var s2 := Edit(s, j, q);
    forall r | 0 <= r < |s.procs| ensures WaitOk(s2, r) {
      assert WaitOk(s, r);
      if Pending(s, r) { EditPending(s, j, q, r); }
      if r != p { ReapKids(s, j, p, r); }
      hide HasKid, NoZombie, Pending, Placed;
    }
  }

  lemma ReapKids(s: State, j: nat, p: nat, r: nat)
    requires j < |s.procs| && s.procs[j].parent == Some(p) && r != p
    ensures HasKid(s, r) ==> HasKid(Edit(s, j, Emptied(s.procs[j])), r)
    ensures forall i :: NoZombie(s, r, i) ==> NoZombie(Edit(s, j, Emptied(s.procs[j])), r, i)
  {
    var s2 := Edit(s, j, Emptied(s.procs[j]));
    if HasKid(s, r) {
      var k :| 0 <= k < |s.procs| && s.procs[k].parent == Some(r);
      assert s2.procs[k].parent == Some(r);
    }
  }

  lemma ReapExits(s: State, j: nat)
    requires Exits(s) && j < |s.procs|
    ensures Exits(Edit(s, j, Emptied(s.procs[j])))
  {
    var s2 := Edit(s, j, Emptied(s.procs[j]));
    forall e | 0 <= e < |s.procs| ensures ExitOk(s2, e) {
      assert ExitOk(s, e);
    }
  }

  lemma ReapPids(s: State, j: nat)
    requires Pids(s) && Deliveries(s) && j < |s.procs| && s.procs[j].state.ZOMBIE?
    ensures Pids(Reaped(s, j)) && Deliveries(Reaped(s, j))
  {
    var s2 := Reaped(s, j);
    assert PidOk(s, j);
    forall k | 0 <= k < |s.procs| ensures PidOk(s2, k) {
      assert PidOk(s, k);
    }
    assert forall i :: 0 <= i < |s.delivered| ==> s2.delivered[i] == s.delivered[i];
  }
}
