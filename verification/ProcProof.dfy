module ProcProof {
  // Every step keeps the invariant, and what follows for every reachable state.

  import opened Wrappers
  import opened ProcState
  import opened ProcMoves
  import opened ProcEdits
  import opened ProcSwitch
  import opened ProcSteps

  /** A thread holds exactly the locks its place says. */
  lemma ThreadFacts(s: State, c: nat, p: nat)
    requires Inv(s) && Runs(s, c, p)
    ensures Running(s.procs[p].pc) && Fits(s.procs[p], p) && InRange(s.procs[p].pc, |s.procs|)
    ensures LockOf(s.procs[p].pc, p).Some? ==>
      LockOf(s.procs[p].pc, p).value < |s.procs| && s.procs[LockOf(s.procs[p].pc, p).value].lock == Some(c)
    ensures forall k :: 0 <= k < |s.procs| && s.procs[k].lock == Some(c) ==> LockOf(s.procs[p].pc, p) == Some(k)
    ensures HoldsWait(s.procs[p].pc) <==> s.waitLock == Some(c)
  {
    hide Forks, Parents, Waits, Exits, Pids, Deliveries, LockOf, HoldsWait, Fits, InRange;
    assert CpuOk(s, c);
    assert CpuLock(s, c) == LockOf(s.procs[p].pc, p);
    assert CpuWait(s, c) == HoldsWait(s.procs[p].pc);
  }

  /** A place that says nothing about children, parents or forks. */
  predicate Easy(pc: Pc) {
    && ForkOf(pc).None? && !ExitPc(pc) && !pc.WaitScan? && !pc.WaitLook? && !pc.WaitGo? && !pc.WaitBoth?
    && pc != Locked(WaitNap) && !pc.Leaving? && !pc.Parked? && !pc.Idle? && !pc.Born?
  }

  /** Not about to start waking init. */
  predicate NoDebt(pc: Pc) {
    !(pc.Waking? && pc.cont.Reparent? && pc.j == 0)
  }

  lemma EasyDue(s: State, p: nat, pc: Pc)
    requires p < |s.procs| && Easy(pc) && NoDebt(s.procs[p].pc)
    ensures Due(s, p, pc)
  {
    hide NoZombie, HasKid;
    assert Cleared(s.procs[p].(pc := pc), |s.procs|) == 0;
  }

  // ------------------------------------------------------- moves as the steps write them

  /** The thread may be at pc. */
  predicate Sound(s: State, c: nat, p: nat, pc: Pc) {
    && Runs(s, c, p) && Running(s.procs[p].pc) && Running(pc) && InRange(pc, |s.procs|)
    && Fits(s.procs[p].(pc := pc), p)
  }

  lemma GoInv(s: State, c: nat, p: nat, pc: Pc)
    requires Inv(s) && Sound(s, c, p, pc) && Due(s, p, pc)
    requires LockOf(pc, p) == LockOf(s.procs[p].pc, p) && HoldsWait(pc) == HoldsWait(s.procs[p].pc)
    ensures Inv(Goto(s, p, pc))
  {
    hide Inv, Due, InRange, Fits, Running, LockOf, HoldsWait;
    ShiftInv(s, c, p, pc);
  }

  lemma TakeInv(s: State, c: nat, p: nat, pc: Pc, k: nat)
    requires Inv(s) && Sound(s, c, p, pc) && Due(s, p, pc) && k < |s.procs| && s.procs[k].lock.None?
    requires LockOf(s.procs[p].pc, p).None? && LockOf(pc, p) == Some(k) && HoldsWait(pc) == HoldsWait(s.procs[p].pc)
    ensures Inv(SetLock(Goto(s, p, pc), k, Some(c)))
  {
    hide Inv, Due, InRange, Fits, Running, LockOf, HoldsWait;
    ShiftInv(s, c, p, pc);
  }

  lemma DropInv(s: State, c: nat, p: nat, pc: Pc, k: nat)
    requires Inv(s) && Sound(s, c, p, pc) && Due(s, p, pc) && k < |s.procs|
    requires LockOf(s.procs[p].pc, p) == Some(k) && LockOf(pc, p).None? && HoldsWait(pc) == HoldsWait(s.procs[p].pc)
    ensures Inv(SetLock(Goto(s, p, pc), k, None))
  {
    hide Inv, Due, InRange, Fits, Running, LockOf, HoldsWait;
    ShiftInv(s, c, p, pc);
  }

  lemma TakeWaitInv(s: State, c: nat, p: nat, pc: Pc)
    requires Inv(s) && Sound(s, c, p, pc) && Due(s, p, pc) && s.waitLock.None?
    requires LockOf(pc, p) == LockOf(s.procs[p].pc, p) && !HoldsWait(s.procs[p].pc) && HoldsWait(pc)
    ensures Inv(Goto(s, p, pc).(waitLock := Some(c)))
  {
    hide Inv, Due, InRange, Fits, Running, LockOf, HoldsWait;
    ShiftInv(s, c, p, pc);
  }

  lemma DropWaitInv(s: State, c: nat, p: nat, pc: Pc)
    requires Inv(s) && Sound(s, c, p, pc) && Due(s, p, pc)
    requires LockOf(pc, p) == LockOf(s.procs[p].pc, p) && HoldsWait(s.procs[p].pc) && !HoldsWait(pc)
    ensures Inv(Goto(s, p, pc).(waitLock := None))
  {
    hide Inv, Due, InRange, Fits, Running, LockOf, HoldsWait;
    ShiftInv(s, c, p, pc);
  }

  // ------------------------------------------------------------------ calls and fork

  lemma ResumeInv(s: State, c: nat, p: nat)
    requires Inv(s) && Runs(s, c, p) && s.procs[p].pc.Resumed? && ResumeStep(s, c, p).Next?
    ensures Inv(ResumeStep(s, c, p).state)
  {
    hide Inv, Due;
    PlaceFacts(s, c, p);
    var w := s.procs[p].pc.why;
    var q := if w.Yield? then s.procs[p] else s.procs[p].(chan := NoChan);
    var pc := if w.WaitNap? then Rewait else Free;
    var t := Edit(s, p, q);
    TameInv(s, p, q);
    EasyDue(t, p, pc);
    DropInv(t, c, p, pc, p);
  }

  lemma CallInv(s: State, c: nat, p: nat, a: Action)
    requires Inv(s) && Runs(s, c, p) && s.procs[p].pc.Free? && CallStep(s, c, p, a).Next?
    ensures Inv(CallStep(s, c, p, a).state)
  {
    hide Inv, Due;
    PlaceFacts(s, c, p);
    match a
    case CallYield => EasyDue(s, p, Locked(Yield)); TakeInv(s, c, p, Locked(Yield), p);
    case CallSleep(n) => EasyDue(s, p, Locked(Nap(n))); TakeInv(s, c, p, Locked(Nap(n)), p);
    case CallFork(np) => ForkCallInv(s, c, p, np);
    case CallExit(st) => ExitDue0(s, p, st); TakeWaitInv(s, c, p, ExitScan(0, st));
    case CallWait => WaitDue0(s, p); TakeWaitInv(s, c, p, WaitScan(0, false));
    case CallWakeup(n) => EasyDue(s, p, Waking(0, Other(n), Plain)); GoInv(s, c, p, Waking(0, Other(n), Plain));
    case CallKill(pid) => EasyDue(s, p, Killing(0, pid)); GoInv(s, c, p, Killing(0, pid));
    case _ =>
  }

  lemma ExitDue0(s: State, p: nat, st: int)
    requires p < |s.procs| && s.procs[p].pc.Free? && p != INIT
    ensures Due(s, p, ExitScan(0, st))
  {
  }

  lemma WaitDue0(s: State, p: nat)
    requires p < |s.procs| && (s.procs[p].pc.Free? || s.procs[p].pc.Rewait?)
    ensures Due(s, p, WaitScan(0, false))
  {
  }

  lemma ForkDue0(s: State, p: nat, np: nat)
    requires p < |s.procs| && np < |s.procs| && s.procs[p].pc.Free?
    requires s.procs[np].state.USED? && s.procs[np].parent.None? && NoForker(s, np)
    ensures Due(s, p, ForkAlloc(np))
  {
  }

  lemma ForkCallInv(s: State, c: nat, p: nat, np: nat)
    requires Inv(s) && Runs(s, c, p) && s.procs[p].pc.Free? && np < |s.procs| && s.procs[np].state.UNUSED?
    requires s.procs[np].lock.None?
    ensures Inv(SetLock(Goto(Spawned(s, np), p, ForkAlloc(np)), np, Some(c)))
  {
    hide Inv, Due, NoForker;
    PlaceFacts(s, c, p);
    UnusedIdle(s, np);
    SpawnInv(s, np);
    var t := Spawned(s, np);
    ForkDue0(t, p, np);
    TakeInv(t, c, p, ForkAlloc(np), np);
  }

  lemma PlaceFacts(s: State, c: nat, p: nat)
    requires Inv(s) && Runs(s, c, p)
    ensures Running(s.procs[p].pc) && Fits(s.procs[p], p) && InRange(s.procs[p].pc, |s.procs|)
  {
    hide Locks, Forks, Parents, Waits, Exits, Pids, Deliveries, Fits, InRange, Running;
    assert CpuOk(s, c);
  }

  /** The slot a forking thread works on is nobody else's. */
  lemma ForkFacts(s: State, c: nat, p: nat)
    requires Inv(s) && Runs(s, c, p) && ForkOf(s.procs[p].pc).Some?
    ensures ForkOk(s, p) && ForkOf(s.procs[p].pc).value != p
    ensures forall q :: 0 <= q < |s.procs| && q != p ==> ForkOf(s.procs[q].pc) != ForkOf(s.procs[p].pc)
  {
    PlaceFacts(s, c, p);
    assert ForkOk(s, p);
    hide Sized, Placed, Locks, Parents, Waits, Exits, Pids, Deliveries, InRange, Running;
  }

  /** Once p is done with np, nobody forks it. */
  lemma GoneForker(s: State, p: nat, t: State, np: nat)
    requires |t.procs| == |s.procs| && p < |s.procs| && ForkOf(s.procs[p].pc) == Some(np) && ForkOf(t.procs[p].pc).None?
    requires forall q :: 0 <= q < |s.procs| && q != p ==>
      ForkOf(s.procs[q].pc) != Some(np) && t.procs[q].pc == s.procs[q].pc
    ensures NoForker(t, np)
  {
    hide ForkOf;
  }

  lemma ForkFailInv(s: State, c: nat, p: nat, np: nat)
    requires Inv(s) && Runs(s, c, p) && s.procs[p].pc == ForkAlloc(np) && np < |s.procs|
    ensures Inv(SetLock(Edit(Goto(s, p, Free), np, Emptied(Goto(s, p, Free).procs[np])), np, None))
  {
    hide Inv, Due, NoForker;
    PlaceFacts(s, c, p);
    ForkFacts(s, c, p);
    EasyDue(s, p, Free);
    DropInv(s, c, p, Free, np);
    var t := SetLock(Goto(s, p, Free), np, None);
    GoneForker(s, p, t, np);
    UnspawnInv(t, np);
    assert Edit(t, np, Emptied(t.procs[np])) == SetLock(Edit(Goto(s, p, Free), np, Emptied(Goto(s, p, Free).procs[np])),
                                                        np, None);
  }

  /** A later stage of the same fork owes nothing new. */
  lemma ForkDueNext(s: State, p: nat, pc: Pc)
    requires p < |s.procs| && ForkOk(s, p) && ForkOf(s.procs[p].pc).Some? && ForkOf(pc) == ForkOf(s.procs[p].pc)
    requires (pc.ForkNew? && s.procs[p].pc.ForkAlloc?) || (pc.ForkReady? && s.procs[p].pc.ForkParent?)
    ensures Due(s, p, pc)
  {
    hide NoZombie, HasKid;
  }

  lemma ForkParentDue0(s: State, p: nat, np: nat)
    requires p < |s.procs| && np < |s.procs| && s.procs[p].pc.WaitEnd?
    requires s.procs[np].state.USED? && s.procs[np].parent == Some(p) && NoForker(s, np)
    ensures Due(s, p, ForkParent(np))
  {
    hide NoZombie, HasKid;
  }

  lemma ForkNewInv(s: State, c: nat, p: nat, np: nat)
    requires Inv(s) && Runs(s, c, p) && s.procs[p].pc == ForkNew(np) && np < |s.procs| && s.waitLock.None?
    ensures Inv(Goto(Reparented(s, np, p), p, ForkParent(np)).(waitLock := Some(c)))
  {
    hide Inv, Due, NoForker;
    PlaceFacts(s, c, p);
    ForkFacts(s, c, p);
    EasyDue(s, p, WaitEnd);
    TakeWaitInv(s, c, p, WaitEnd);
    var t := Goto(s, p, WaitEnd).(waitLock := Some(c));
    GoneForker(s, p, t, np);
    AdoptInv(t, np, c, p);
    var t2 := Reparented(t, np, p);
    ForkParentDue0(t2, p, np);
    GoInv(t2, c, p, ForkParent(np));
    assert Goto(t2, p, ForkParent(np)) == Goto(Reparented(s, np, p), p, ForkParent(np)).(waitLock := Some(c));
  }

  lemma ForkReadyInv(s: State, c: nat, p: nat, np: nat)
    requires Inv(s) && Runs(s, c, p) && s.procs[p].pc == ForkReady(np) && np < |s.procs| && s.procs[np].lock.None?
    ensures var t := SetLock(Goto(s, p, ForkRun(np)), np, Some(c)); Inv(Edit(t, np, t.procs[np].(state := RUNNABLE)))
  {
    hide Inv, Due, NoForker;
    PlaceFacts(s, c, p);
    ForkFacts(s, c, p);
    EasyDue(s, p, ForkRun(np));
    TakeInv(s, c, p, ForkRun(np), np);
    var t := SetLock(Goto(s, p, ForkRun(np)), np, Some(c));
    GoneForker(s, p, t, np);
    ReadyInv(t, np);
  }

  lemma ForkInv(s: State, c: nat, p: nat, a: Action)
    requires Inv(s) && Runs(s, c, p) && InRange(s.procs[p].pc, |s.procs|) && ForkStep(s, c, p, a).Next?
    ensures Inv(ForkStep(s, c, p, a).state)
  {
    hide Inv, Due, NoForker;
    PlaceFacts(s, c, p);
    match s.procs[p].pc
    case ForkAlloc(np) =>
      if a.ForkFails? {
        ForkFailInv(s, c, p, np);
      } else {
        ForkFacts(s, c, p);
        ForkDueNext(s, p, ForkNew(np));
        DropInv(s, c, p, ForkNew(np), np);
      }
    case ForkNew(np) => ForkNewInv(s, c, p, np);
    case ForkParent(np) =>
      ForkFacts(s, c, p);
      ForkDueNext(s, p, ForkReady(np));
      DropWaitInv(s, c, p, ForkReady(np));
    case ForkReady(np) => ForkReadyInv(s, c, p, np);
    case ForkRun(np) => EasyDue(s, p, Free); DropInv(s, c, p, Free, np);
    case _ =>
  }

  // ------------------------------------------------------------------- exit and wakeup

  lemma ExitFacts(s: State, p: nat)
    requires Inv(s) && p < |s.procs| && (ExitPc(s.procs[p].pc) || s.procs[p].pc == Leaving(Dead))
    ensures ExitOk(s, p) && (ExitPc(s.procs[p].pc) ==> p != INIT)
    ensures (s.procs[p].parent.Some? ==> s.procs[p].parent.value != p)
    ensures forall k :: 0 <= k < |s.procs| && s.procs[k].parent == Some(p) ==> k >= Cleared(s.procs[p], |s.procs|)
  {
    assert ParentOk(s, p);
    hide Sized, Placed, Locks, Forks, Waits, Pids, Deliveries, Cleared, ExitOk;
    forall k | 0 <= k < |s.procs| && s.procs[k].parent == Some(p) ensures k >= Cleared(s.procs[p], |s.procs|) {
      assert ParentOk(s, k);
    }
  }

  /** What a place in exit owes, when it is not a new claim about having woken the parent. */
  lemma ExitDueIf(s: State, p: nat, pc: Pc)
    requires p < |s.procs| && p != INIT && (ExitPc(pc) || pc == Leaving(Dead)) && ExitPc(s.procs[p].pc)
    requires forall k :: 0 <= k < |s.procs| && s.procs[k].parent == Some(p) ==>
      k >= Cleared(s.procs[p].(pc := pc), |s.procs|)
    requires ExitOk(s.(procs := s.procs[p := s.procs[p].(pc := pc)]), p)
    requires NoDebt(s.procs[p].pc) || !Asleep(s.procs[INIT]) || !NoDebt(pc)
    ensures Due(s, p, pc)
  {
    hide NoZombie, HasKid, Cleared, ExitOk;
  }

  lemma ParentedNoForker(s: State, c: nat, p: nat, k: nat)
    requires Inv(s) && p < |s.procs| && k < |s.procs| && s.procs[k].parent == Some(p) && ForkOf(s.procs[p].pc).None?
    ensures NoForker(s, k)
  {
    hide Sized, Placed, Locks, Parents, Waits, Exits, Pids, Deliveries;
    forall q | 0 <= q < |s.procs| ensures ForkOf(s.procs[q].pc) != Some(k) {
      assert ForkOk(s, q);
    }
  }

  lemma ReparentInv(s: State, c: nat, p: nat, i: nat, st: int)
    requires Inv(s) && Runs(s, c, p) && s.procs[p].pc == ExitScan(i, st) && i < |s.procs|
    requires s.procs[i].parent == Some(p)
    ensures Inv(Reparented(Goto(s, p, Waking(0, Self(INIT), Reparent(i + 1, st))), i, INIT))
  {
    hide Inv, Due, NoForker;
    PlaceFacts(s, c, p);
    ExitFacts(s, p);
    var pc, pc2 := Waking(0, Self(INIT), Reparent(i, st)), Waking(0, Self(INIT), Reparent(i + 1, st));
    ExitDueIf(s, p, pc);
    GoInv(s, c, p, pc);
    var t := Goto(s, p, pc);
    assert t.procs[i].parent == Some(p);
    ParentedNoForker(t, c, p, i);
    GiveToInitInv(t, i, c, p);
    var t2 := Reparented(t, i, INIT);
    ExitFacts(t2, p);
    ExitDueIf(t2, p, pc2);
    GoInv(t2, c, p, pc2);
    assert Goto(t2, p, pc2) == Reparented(Goto(s, p, pc2), i, INIT);
  }

  lemma ExitScanInv(s: State, c: nat, p: nat, i: nat, st: int)
    requires Inv(s) && Runs(s, c, p) && s.procs[p].pc == ExitScan(i, st) && i <= |s.procs|
    requires i < |s.procs| ==> s.procs[i].parent != Some(p)
    ensures i < |s.procs| ==> Inv(Goto(s, p, ExitScan(i + 1, st)))
    ensures i == |s.procs| && s.procs[p].parent.Some? ==>
      Inv(Goto(s, p, Waking(0, Self(s.procs[p].parent.value), Parent(st))))
  {
    hide Inv, Due;
    PlaceFacts(s, c, p);
    ExitFacts(s, p);
    if i < |s.procs| {
      ExitDueIf(s, p, ExitScan(i + 1, st));
      GoInv(s, c, p, ExitScan(i + 1, st));
    } else if s.procs[p].parent.Some? {
      var pc := Waking(0, Self(s.procs[p].parent.value), Parent(st));
      ExitDueIf(s, p, pc);
      GoInv(s, c, p, pc);
    }
  }

  lemma RunningHasParent(s: State, p: nat)
    requires Inv(s) && p < |s.procs| && p != INIT && s.procs[p].state.RUNNING?
    ensures s.procs[p].parent.Some?
  {
    assert ParentOk(s, p);
  }

  lemma ExitInv(s: State, c: nat, p: nat)
    requires Inv(s) && Runs(s, c, p) && InRange(s.procs[p].pc, |s.procs|) && ExitStep(s, c, p).Next?
    ensures Inv(ExitStep(s, c, p).state)
  {
    hide Inv, Due, NoForker;
    PlaceFacts(s, c, p);
    match s.procs[p].pc
    case ExitScan(i, st) =>
      ExitFacts(s, p);
      RunningHasParent(s, p);
      if i < |s.procs| && s.procs[i].parent == Some(p) {
        ReparentInv(s, c, p, i, st);
      } else {
        ExitScanInv(s, c, p, i, st);
      }
    case ExitGo(st) =>
      ExitFacts(s, p);
      ExitDueIf(s, p, ExitLock(st));
      TakeInv(s, c, p, ExitLock(st), p);
    case ExitLock(_) => DieInv(s, c, p);
    case ExitHold =>
      ExitFacts(s, p);
      ExitDueIf(s, p, Leaving(Dead));
      DropWaitInv(s, c, p, Leaving(Dead));
    case _ =>
  }

  /** A thread that holds its own lock shows in the lock. */
  lemma OwnLock(s: State, j: nat)
    requires Inv(s) && j < |s.procs| && Running(s.procs[j].pc) && LockOf(s.procs[j].pc, j) == Some(j)
    ensures s.procs[j].lock.Some?
  {
    hide Forks, Parents, Waits, Exits, Pids, Deliveries, LockOf;
    assert OnOk(s, j);
    assert CpuLock(s, s.procs[j].on.value) == Some(j);
  }

  /** A sleeper whose lock is free is parked, so it can be made runnable. */
  lemma SleeperParked(s: State, j: nat)
    requires Inv(s) && j < |s.procs| && s.procs[j].lock.None?
    ensures s.procs[j].state.SLEEPING? ==>
      s.procs[j].pc.Parked? && !s.procs[j].pc.why.Dead? && !s.procs[j].pc.why.Yield?
    ensures Asleep(s.procs[j]) ==> s.procs[j].state.SLEEPING? && s.procs[j].chan == Self(j)
  {
    hide Inv;
    SlotFits(s, j);
    if Running(s.procs[j].pc) && LockOf(s.procs[j].pc, j) == Some(j) { OwnLock(s, j); }
  }

  lemma WokenInv(s: State, j: nat, ch: Chan)
    requires Inv(s) && j < |s.procs| && s.procs[j].lock.None?
    ensures Inv(Edit(s, j, Woken(s.procs[j], ch)))
    ensures ch == Self(j) ==> !Asleep(Woken(s.procs[j], ch))
  {
    hide Inv;
    SleeperParked(s, j);
    assert Fits(s.procs[j], j) by { SlotFits(s, j); }
    TameInv(s, j, Woken(s.procs[j], ch));
  }

  lemma KilledInv(s: State, j: nat, pid: nat)
    requires Inv(s) && j < |s.procs| && s.procs[j].lock.None?
    ensures Inv(Edit(s, j, Killed(s.procs[j], pid)))
  {
    hide Inv;
    SleeperParked(s, j);
    assert Fits(s.procs[j], j) by { SlotFits(s, j); }
    TameInv(s, j, Killed(s.procs[j], pid));
  }

  lemma SlotFits(s: State, j: nat)
    requires Inv(s) && j < |s.procs|
    ensures Fits(s.procs[j], j)
  {
    hide Fits, Placed, Locks, Forks, Parents, Waits, Exits, Pids, Deliveries;
  }

  /** The loop takes the lock of slot j, wakes it if it sleeps on ch, and goes on. */
  lemma WakeTakeInv(s: State, c: nat, p: nat, j: nat, ch: Chan, ct: Cont)
    requires Inv(s) && Runs(s, c, p) && s.procs[p].pc == Waking(j, ch, ct) && j < |s.procs| && j != p
    requires s.procs[j].lock.None?
    requires ct.Reparent? ==> ct.i <= |s.procs|
    ensures Inv(SetLock(Goto(Edit(s, j, Woken(s.procs[j], ch)), p, WakeHold(j, ch, ct)), j, Some(c)))
  {
    hide Inv, Due;
    PlaceFacts(s, c, p);
    WokenInv(s, j, ch);
    var t := Edit(s, j, Woken(s.procs[j], ch));
    var pc := WakeHold(j, ch, ct);
    if ct.Plain? {
      EasyDue(t, p, pc);
    } else {
      ExitFacts(t, p);
      ExitDueIf(t, p, pc);
    }
    TakeInv(t, c, p, pc, j);
  }

  lemma WakeNextInv(s: State, c: nat, p: nat, j: nat, ch: Chan, ct: Cont)
    requires Inv(s) && Runs(s, c, p) && j < |s.procs| && (ct.Reparent? ==> ct.i <= |s.procs|)
    ensures s.procs[p].pc == Waking(j, ch, ct) && j == p ==> Inv(Goto(s, p, Waking(j + 1, ch, ct)))
    ensures s.procs[p].pc == WakeHold(j, ch, ct) ==> Inv(SetLock(Goto(s, p, Waking(j + 1, ch, ct)), j, None))
  {
    hide Inv, Due;
    PlaceFacts(s, c, p);
    var pc := Waking(j + 1, ch, ct);
    if s.procs[p].pc == Waking(j, ch, ct) && j == p {
      if ct.Plain? {
        EasyDue(s, p, pc);
      } else {
        ExitFacts(s, p);
        ExitDueIf(s, p, pc);
      }
      GoInv(s, c, p, pc);
    } else if s.procs[p].pc == WakeHold(j, ch, ct) {
      if ct.Plain? {
        EasyDue(s, p, pc);
      } else {
        ExitFacts(s, p);
        ExitDueIf(s, p, pc);
      }
      DropInv(s, c, p, pc, j);
    }
  }

  lemma WakeEndInv(s: State, c: nat, p: nat, ch: Chan, ct: Cont)
    requires Inv(s) && Runs(s, c, p) && s.procs[p].pc == Waking(|s.procs|, ch, ct)
    requires (ct.Reparent? ==> ct.i <= |s.procs|)
    ensures Inv(Goto(s, p, if ct.Plain? then Free
                           else if ct.Reparent? then ExitScan(ct.i, ct.status)
                           else ExitGo(ct.status)))
  {
    hide Inv, Due;
    PlaceFacts(s, c, p);
    if ct.Plain? {
      EasyDue(s, p, Free);
      GoInv(s, c, p, Free);
    } else {
      var pc := if ct.Reparent? then ExitScan(ct.i, ct.status) else ExitGo(ct.status);
      ExitFacts(s, p);
      SizedProcs(s, p);
      ExitDueIf(s, p, pc);
      GoInv(s, c, p, pc);
    }
  }

  lemma SizedProcs(s: State, p: nat)
    requires Inv(s) && p < |s.procs|
    ensures |s.procs| > 0 && (s.procs[p].parent.Some? ==> s.procs[p].parent.value < |s.procs|)
  {
    assert ParentOk(s, p);
  }

  lemma WakeInv(s: State, c: nat, p: nat)
    requires Inv(s) && Runs(s, c, p) && InRange(s.procs[p].pc, |s.procs|) && WakeStep(s, c, p).Next?
    ensures Inv(WakeStep(s, c, p).state)
  {
    hide Inv;
    match s.procs[p].pc
    case Waking(j, ch, ct) =>
      if j < |s.procs| {
        if j == p { WakeNextInv(s, c, p, j, ch, ct); } else { WakeTakeInv(s, c, p, j, ch, ct); }
      } else {
        WakeEndInv(s, c, p, ch, ct);
      }
    case WakeHold(j, ch, ct) => WakeNextInv(s, c, p, j, ch, ct);
    case _ =>
  }

  lemma KillInv(s: State, c: nat, p: nat)
    requires Inv(s) && Runs(s, c, p) && InRange(s.procs[p].pc, |s.procs|) && KillStep(s, c, p).Next?
    ensures Inv(KillStep(s, c, p).state)
  {
    hide Inv, Due;
    PlaceFacts(s, c, p);
    match s.procs[p].pc
    case Killing(j, pid) =>
      if j < |s.procs| {
        KilledInv(s, j, pid);
        var t := Edit(s, j, Killed(s.procs[j], pid));
        var pc := KillHold(j, pid, s.procs[j].pid == pid);
        EasyDue(t, p, pc);
        TakeInv(t, c, p, pc, j);
      } else {
        EasyDue(s, p, Free);
        GoInv(s, c, p, Free);
      }
    case KillHold(j, pid, found) =>
      var pc := if found then Free else Killing(j + 1, pid);
      EasyDue(s, p, pc);
      DropInv(s, c, p, pc, j);
    case _ =>
  }

  // -------------------------------------------------------------------------- wait

  lemma WaitFacts(s: State, p: nat)
    requires Inv(s) && p < |s.procs|
    ensures WaitOk(s, p)
  {
    hide WaitOk, Sized, Placed, Locks, Forks, Parents, Exits, Pids, Deliveries;
  }

  lemma WaitDueIf(s: State, p: nat, pc: Pc)
    requires p < |s.procs| && NoDebt(s.procs[p].pc) && (pc.WaitScan? || pc.WaitLook? || pc.WaitGo?)
    requires pc.WaitScan? ==> NoZombie(s, p, pc.i) && (pc.have ==> HasKid(s, p))
    requires pc.WaitLook? ==> NoZombie(s, p, pc.i + 1) && HasKid(s, p)
    requires pc.WaitGo? ==> NoZombie(s, p, |s.procs|) && HasKid(s, p)
    ensures Due(s, p, pc)
  {
    hide NoZombie, HasKid;
  }

  lemma SleepDue(s: State, p: nat, pc: Pc)
    requires p < |s.procs|
    requires (pc.WaitBoth? && s.procs[p].pc.WaitGo?) || (pc == Locked(WaitNap) && s.procs[p].pc.WaitBoth?)
    ensures Due(s, p, pc)
  {
    hide NoZombie, HasKid;
  }

  lemma WaitScanInv(s: State, c: nat, p: nat, i: nat, have: bool)
    requires Inv(s) && Runs(s, c, p) && s.procs[p].pc == WaitScan(i, have) && i < |s.procs|
    ensures s.procs[i].parent != Some(p) ==> Inv(Goto(s, p, WaitScan(i + 1, have)))
    ensures s.procs[i].parent == Some(p) && !s.procs[i].state.ZOMBIE? && s.procs[i].lock.None? ==>
      Inv(SetLock(Goto(s, p, WaitLook(i)), i, Some(c)))
  {
    hide Inv, Due;
    PlaceFacts(s, c, p);
    WaitFacts(s, p);
    if s.procs[i].parent != Some(p) {
      WaitDueIf(s, p, WaitScan(i + 1, have));
      GoInv(s, c, p, WaitScan(i + 1, have));
    } else if !s.procs[i].state.ZOMBIE? && s.procs[i].lock.None? {
      WaitDueIf(s, p, WaitLook(i));
      TakeInv(s, c, p, WaitLook(i), i);
    }
  }

  lemma WaitReapInv(s: State, c: nat, p: nat, i: nat)
    requires Inv(s) && Runs(s, c, p) && s.procs[p].pc.WaitScan? && i < |s.procs| && s.procs[i].lock.None?
    requires s.procs[i].parent == Some(p) && s.procs[i].state.ZOMBIE?
    ensures Inv(SetLock(Goto(s, p, WaitReap(i)), i, Some(c)))
    ensures Inv(Reaped(SetLock(Goto(s, p, WaitReap(i)), i, Some(c)), i))
  {
    hide Inv, Due;
    PlaceFacts(s, c, p);
    EasyDue(s, p, WaitReap(i));
    TakeInv(s, c, p, WaitReap(i), i);
    var t := SetLock(Goto(s, p, WaitReap(i)), i, Some(c));
    assert s.procs[p].state.RUNNING?;
    ReapInv(t, i, c, p);
  }

  lemma WaitEndInv(s: State, c: nat, p: nat)
    requires Inv(s) && Runs(s, c, p) && (s.procs[p].pc.WaitScan? || s.procs[p].pc.WaitEnd?)
    ensures Inv(Goto(s, p, Free).(waitLock := None))
  {
    hide Inv, Due;
    PlaceFacts(s, c, p);
    EasyDue(s, p, Free);
    DropWaitInv(s, c, p, Free);
  }

  lemma WaitInv(s: State, c: nat, p: nat, a: Action)
    requires Inv(s) && Runs(s, c, p) && InRange(s.procs[p].pc, |s.procs|) && WaitStep(s, c, p, a).Next?
    ensures Inv(WaitStep(s, c, p, a).state)
  {
    hide Inv;
    if s.procs[p].pc.WaitScan? { WaitLoopInv(s, c, p, a); } else { WaitRestInv(s, c, p, a); }
  }

  /** One round of wait's loop over the table, or its end. */
  lemma WaitLoopInv(s: State, c: nat, p: nat, a: Action)
    requires Inv(s) && Runs(s, c, p) && InRange(s.procs[p].pc, |s.procs|) && WaitStep(s, c, p, a).Next?
    requires s.procs[p].pc.WaitScan?
    ensures Inv(WaitStep(s, c, p, a).state)
  {
    hide Inv, Due;
    PlaceFacts(s, c, p);
    var i, have := s.procs[p].pc.i, s.procs[p].pc.have;
    if i < |s.procs| {
      if s.procs[i].parent == Some(p) && s.procs[i].state.ZOMBIE? {
        WaitReapInv(s, c, p, i);
      } else {
        WaitScanInv(s, c, p, i, have);
      }
    } else if !have || s.procs[p].killed {
      WaitEndInv(s, c, p);
    } else {
      WaitFacts(s, p);
      WaitDueIf(s, p, WaitGo);
      GoInv(s, c, p, WaitGo);
    }
  }

  lemma WaitRestInv(s: State, c: nat, p: nat, a: Action)
    requires Inv(s) && Runs(s, c, p) && InRange(s.procs[p].pc, |s.procs|) && WaitStep(s, c, p, a).Next?
    requires !s.procs[p].pc.WaitScan?
    ensures Inv(WaitStep(s, c, p, a).state)
  {
    hide Inv, Due;
    PlaceFacts(s, c, p);
    match s.procs[p].pc
    case WaitLook(i) =>
      WaitFacts(s, p);
      WaitDueIf(s, p, WaitScan(i + 1, true));
      DropInv(s, c, p, WaitScan(i + 1, true), i);
    case WaitReap(i) => EasyDue(s, p, WaitEnd); DropInv(s, c, p, WaitEnd, i);
    case WaitEnd => WaitEndInv(s, c, p);
    case WaitGo => SleepDue(s, p, WaitBoth); TakeInv(s, c, p, WaitBoth, p);
    case WaitBoth => SleepDue(s, p, Locked(WaitNap)); DropWaitInv(s, c, p, Locked(WaitNap));
    case Rewait => WaitDue0(s, p); TakeWaitInv(s, c, p, WaitScan(0, false));
    case _ =>
  }

  // ---------------------------------------------------------------------- scheduler

  lemma SwitchInv(s: State, c: nat, p: nat)
    requires Inv(s) && Runs(s, c, p) && s.procs[p].pc.Leaving? && SchedCall(s, c, p).Next?
    ensures Inv(SchedCall(s, c, p).state)
  {
    CpuFacts(s, c);
    SlotFits(s, p);
    hide Inv, OtherLocks;
    var q := s.procs[p].(pc := Parked(s.procs[p].pc.why));
    HopInv(s, c, p, q, Cpu(Some(p), Back(p)));
  }

  lemma LookHoldInv(s: State, c: nat, k: nat)
    requires Inv(s) && c < |s.cpus| && s.cpus[c].at == Look(k) && k < |s.procs| && s.procs[k].lock.None?
    ensures Inv(Hop(s, c, k, s.procs[k].(lock := Some(c)), Cpu(None, Hold(k))))
  {
    hide Inv, InRange;
    CpuFacts(s, c);
    SlotFits(s, k);
    SlotOn(s, k);
    SlotRange(s, k);
    HopInv(s, c, k, s.procs[k].(lock := Some(c)), Cpu(None, Hold(k)));
  }

  lemma LookRunInv(s: State, c: nat, k: nat)
    requires Inv(s) && c < |s.cpus| && s.cpus[c].at == Look(k) && k < |s.procs| && s.procs[k].lock.None?
    requires s.procs[k].state.RUNNABLE?
    ensures var q := s.procs[k];
      Inv(Hop(s, c, k, q.(lock := Some(c), state := RUNNING, on := Some(c), pc := Resume(q.pc)), Cpu(Some(k), Away(k))))
  {
    hide Inv;
    CpuFacts(s, c);
    SlotOn(s, k);
    var q := s.procs[k];
    HopInv(s, c, k, q.(lock := Some(c), state := RUNNING, on := Some(c), pc := Resume(q.pc)), Cpu(Some(k), Away(k)));
  }

  lemma LookInv(s: State, c: nat, k: nat)
    requires Inv(s) && c < |s.cpus| && s.cpus[c].at == Look(k) && k < |s.procs| && SchedStep(s, c).Next?
    ensures Inv(SchedStep(s, c).state)
  {
    hide Inv;
    if s.procs[k].state.RUNNABLE? { LookRunInv(s, c, k); } else { LookHoldInv(s, c, k); }
  }

  lemma SlotRange(s: State, k: nat)
    requires Inv(s) && k < |s.procs|
    ensures InRange(s.procs[k].pc, |s.procs|)
  {
    hide InRange, Fits, Placed, Locks, Forks, Parents, Waits, Exits, Pids, Deliveries;
  }

  /** Where a thread is, and that a runnable one whose lock is free is nowhere. */
  lemma SlotOn(s: State, k: nat)
    requires Inv(s) && k < |s.procs|
    ensures OnOk(s, k)
    ensures s.procs[k].lock.None? && s.procs[k].state.RUNNABLE? ==>
      s.procs[k].on.None? && (s.procs[k].pc.Born? || (s.procs[k].pc.Parked? && !s.procs[k].pc.why.Dead?))
  {
    hide Forks, Parents, Waits, Exits, Pids, Deliveries;
    assert Fits(s.procs[k], k) && OnOk(s, k);
    if s.procs[k].on.Some? {
      assert CpuOk(s, s.procs[k].on.value);
    }
  }

  lemma BackInv(s: State, c: nat)
    requires Inv(s) && c < |s.cpus| && s.cpus[c].at.k < |s.procs| && s.cpus[c].at.Back?
    ensures var k := s.cpus[c].at.k; Inv(Hop(s, c, k, s.procs[k].(on := None), Cpu(None, Hold(k))))
  {
    hide Inv;
    CpuFacts(s, c);
    var k := s.cpus[c].at.k;
    SlotFits(s, k);
    HopInv(s, c, k, s.procs[k].(on := None), Cpu(None, Hold(k)));
  }

  lemma HoldInv(s: State, c: nat)
    requires Inv(s) && c < |s.cpus| && s.cpus[c].at.k < |s.procs| && s.cpus[c].at.Hold?
    ensures var k := s.cpus[c].at.k; Inv(Hop(s, c, k, s.procs[k].(lock := None), Cpu(None, Look((k + 1) % |s.procs|))))
  {
    hide Inv, InRange;
    CpuFacts(s, c);
    var k := s.cpus[c].at.k;
    SlotFits(s, k);
    SlotOn(s, k);
    SlotRange(s, k);
    HopInv(s, c, k, s.procs[k].(lock := None), Cpu(None, Look((k + 1) % |s.procs|)));
  }

  // ------------------------------------------------------------------ main theorems

  /** Whatever a CPU does next, the invariant is kept. */
  lemma StepInv(s: State, c: nat, a: Action)
    requires Inv(s) && Do(s, c, a).Next?
    ensures Inv(Do(s, c, a).state)
  {
    hide Inv, InRange, SchedStep, CallStep, ResumeStep, SchedCall, ForkStep, ExitStep, WakeStep, KillStep, WaitStep;
    hide Settled;
    var p := s.cpus[c].at.k;
    if !s.cpus[c].at.Away? {
      SchedInv(s, c);
    } else {
      PlaceFacts(s, c, p);
      ThreadInv(s, c, p, a);
    }
  }

  lemma SchedInv(s: State, c: nat)
    requires Inv(s) && c < |s.cpus| && s.cpus[c].at.k < |s.procs| && !s.cpus[c].at.Away? && SchedStep(s, c).Next?
    ensures Inv(SchedStep(s, c).state)
  {
    hide Inv, Hop;
    if s.cpus[c].at.Look? { LookInv(s, c, s.cpus[c].at.k); }
    else if s.cpus[c].at.Back? { BackInv(s, c); }
    else { HoldInv(s, c); }
  }

  lemma ThreadInv(s: State, c: nat, p: nat, a: Action)
    requires Inv(s) && Runs(s, c, p) && InRange(s.procs[p].pc, |s.procs|) && ThreadStep(s, c, p, a).Next?
    ensures Inv(ThreadStep(s, c, p, a).state)
  {
    hide Inv, InRange, CallStep, ResumeStep, SchedCall, ForkStep, ExitStep, WakeStep, KillStep, WaitStep, Settled;
    var pc := s.procs[p].pc;
    if pc.Free? { CallInv(s, c, p, a); }
    else if pc.Resumed? { ResumeInv(s, c, p); }
    else if pc.Locked? { SettleInv(s, p); }
    else if pc.Leaving? { SwitchInv(s, c, p); }
    else if pc.ForkAlloc? || pc.ForkNew? || pc.ForkParent? || pc.ForkReady? || pc.ForkRun? { ForkInv(s, c, p, a); }
    else if pc.ExitScan? || pc.ExitGo? || pc.ExitLock? || pc.ExitHold? { ExitInv(s, c, p); }
    else if pc.Waking? || pc.WakeHold? { WakeInv(s, c, p); }
    else if pc.Killing? || pc.KillHold? { KillInv(s, c, p); }
    else { WaitInv(s, c, p, a); }
  }

  /** After boot: init is runnable, every other slot is free, every CPU is in its scheduler. */
  ghost predicate Boot(s: State) {
    && |s.procs| > 0 && |s.cpus| > 0
    && s.procs[INIT] == Proc(RUNNABLE, NoChan, None, 1, 0, false, None, Born, None)
    && (forall k :: 0 < k < |s.procs| ==> s.procs[k] == Proc(UNUSED, NoChan, None, 0, 0, false, None, Idle, None))
    && (forall c :: 0 <= c < |s.cpus| ==> s.cpus[c] == Cpu(None, Look(0)))
    && s.waitLock.None? && s.nextpid == 2 && s.exited == map[] && s.delivered == []
  }

  lemma BootInv(s: State)
    requires Boot(s)
    ensures Inv(s)
  {
    forall p | 0 <= p < |s.procs| ensures WaitOk(s, p) {
      assert !Asleep(s.procs[p]);
    }
  }

  /** run[i] is the state before step i, by CPU cpu[i] with action act[i]. */
  ghost predicate Execution(run: seq<State>, cpu: seq<nat>, act: seq<Action>) {
    && |run| == |cpu| + 1 == |act| + 1 && Boot(run[0])
    && forall i :: 0 <= i < |cpu| ==> Do(run[i], cpu[i], act[i]) == Next(run[i + 1])
  }

  /** Every state of every interleaving satisfies the invariant. */
  lemma {:induction false} RunInv(run: seq<State>, cpu: seq<nat>, act: seq<Action>, i: nat)
    requires Execution(run, cpu, act) && i < |run|
    ensures Inv(run[i])
  {
    hide Inv, Do;
    if i == 0 {
      BootInv(run[0]);
    } else {
      RunInv(run, cpu, act, i - 1);
      assert Do(run[i - 1], cpu[i - 1], act[i - 1]) == Next(run[i - 1 + 1]);
      StepInv(run[i - 1], cpu[i - 1], act[i - 1]);
    }
  }
}
