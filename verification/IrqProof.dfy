module IrqProof {
  // noff counts spinlocks in every execution of the process machine, the panics of
  // pop_off and sched follow, and a thread keeps its interrupt state across CPUs.

  import opened ProcState
  import opened ProcMoves
  import opened ProcEdits
  import opened ProcSwitch
  import opened ProcSteps
  import opened ProcProof
  import opened IrqState
  import SpinLock

  // ------------------------------------------------ what a thread's step does to the others

  /** Thread p moves by at most one lock; no other running thread moves and nobody else parks. */
  ghost predicate Tame(s: State, t: State, p: nat) {
    && t.cpus == s.cpus && p < |s.procs| == |t.procs| && Running(t.procs[p].pc)
    && -1 <= Weight(t.procs[p].pc, p) - Weight(s.procs[p].pc, p) <= 1
    && (forall q :: 0 <= q < |s.procs| && q != p ==> Undisturbed(s, t, q))
  }

  predicate Undisturbed(s: State, t: State, q: nat)
    requires q < |s.procs| == |t.procs|
  {
    Running(s.procs[q].pc) || t.procs[q].pc.Parked? ==> t.procs[q].pc == s.procs[q].pc
  }

  /** A slot that is not running: unused, or just created, or a dead process that has left its CPU. */
  lemma NotRunning(s: State, j: nat)
    requires Inv(s) && j < |s.procs|
    ensures s.procs[j].state.UNUSED? || s.procs[j].state.USED? ==> !Running(s.procs[j].pc)
    ensures s.procs[j].state.ZOMBIE? && s.procs[j].lock.None? ==> !Running(s.procs[j].pc)
  {
    hide Inv;
    SlotFits(s, j);
    if s.procs[j].state.ZOMBIE? && Running(s.procs[j].pc) {
      OwnLock(s, j);
    }
  }

  lemma ForkTame(s: State, c: nat, p: nat, a: Action)
    requires Inv(s) && Runs(s, c, p) && InRange(s.procs[p].pc, |s.procs|) && ForkStep(s, c, p, a).Next?
    ensures Tame(s, ForkStep(s, c, p, a).state, p)
  {
    hide Inv, Fits;
    if ForkOf(s.procs[p].pc).Some? {
      ForkFacts(s, c, p);
      NotRunning(s, ForkOf(s.procs[p].pc).value);
    }
    ThreadFacts(s, c, p);
  }

  lemma ExitTame(s: State, c: nat, p: nat)
    requires Inv(s) && Runs(s, c, p) && InRange(s.procs[p].pc, |s.procs|) && ExitStep(s, c, p).Next?
    ensures Tame(s, ExitStep(s, c, p).state, p)
  {
    hide Inv, Fits;
  }

  lemma WakeTame(s: State, c: nat, p: nat)
    requires Inv(s) && Runs(s, c, p) && InRange(s.procs[p].pc, |s.procs|) && WakeStep(s, c, p).Next?
    ensures Tame(s, WakeStep(s, c, p).state, p)
  {
    hide Inv, Fits;
  }

  lemma KillTame(s: State, c: nat, p: nat)
    requires Inv(s) && Runs(s, c, p) && InRange(s.procs[p].pc, |s.procs|) && KillStep(s, c, p).Next?
    ensures Tame(s, KillStep(s, c, p).state, p)
  {
    hide Inv, Fits;
  }

  lemma WaitTame(s: State, c: nat, p: nat, a: Action)
    requires Inv(s) && Runs(s, c, p) && InRange(s.procs[p].pc, |s.procs|) && WaitStep(s, c, p, a).Next?
    ensures Tame(s, WaitStep(s, c, p, a).state, p)
  {
    hide Inv, Fits, Tame;
    if s.procs[p].pc.WaitScan? {
      WaitScanTame(s, c, p, a);
    } else {
      WaitRestTame(s, c, p, a);
    }
  }

  lemma WaitScanTame(s: State, c: nat, p: nat, a: Action)
    requires Inv(s) && Runs(s, c, p) && InRange(s.procs[p].pc, |s.procs|) && WaitStep(s, c, p, a).Next?
    requires s.procs[p].pc.WaitScan?
    ensures Tame(s, WaitStep(s, c, p, a).state, p)
  {
    hide Inv, Fits;
    if s.procs[p].pc.i < |s.procs| {
      NotRunning(s, s.procs[p].pc.i);
      ThreadFacts(s, c, p);
    }
  }

  lemma WaitRestTame(s: State, c: nat, p: nat, a: Action)
    requires Inv(s) && Runs(s, c, p) && InRange(s.procs[p].pc, |s.procs|) && WaitStep(s, c, p, a).Next?
    requires !s.procs[p].pc.WaitScan?
    ensures Tame(s, WaitStep(s, c, p, a).state, p)
  {
    hide Inv, Fits;
  }

  lemma CallTame(s: State, c: nat, p: nat, a: Action)
    requires Inv(s) && Runs(s, c, p) && s.procs[p].pc.Free? && CallStep(s, c, p, a).Next?
    ensures Tame(s, CallStep(s, c, p, a).state, p)
  {
    hide Inv, Fits;
    ThreadFacts(s, c, p);
    if a.CallFork? && a.np < |s.procs| { NotRunning(s, a.np); }
  }

  lemma ResumeTame(s: State, c: nat, p: nat)
    requires Inv(s) && Runs(s, c, p) && s.procs[p].pc.Resumed? && ResumeStep(s, c, p).Next?
    ensures Tame(s, ResumeStep(s, c, p).state, p)
    ensures var t := ResumeStep(s, c, p).state; Weight(t.procs[p].pc, p) == 0
  {
    hide Inv, Fits;
  }

  lemma SettledTame(s: State, c: nat, p: nat)
    requires Runs(s, c, p) && s.procs[p].pc.Locked?
    ensures var t := Edit(s, p, Settled(s.procs[p], p)); Tame(s, t, p) && Weight(t.procs[p].pc, p) == 1
  {
  }

  /** Every step of a thread but the switch to the scheduler. */
  lemma ThreadTame(s: State, c: nat, p: nat, a: Action)
    requires Inv(s) && Runs(s, c, p) && InRange(s.procs[p].pc, |s.procs|) && !s.procs[p].pc.Leaving?
    requires ThreadStep(s, c, p, a).Next?
    ensures Tame(s, ThreadStep(s, c, p, a).state, p)
    ensures s.procs[p].pc.Resumed? ==> Weight(ThreadStep(s, c, p, a).state.procs[p].pc, p) == 0
    ensures s.procs[p].pc.Locked? ==> Weight(ThreadStep(s, c, p, a).state.procs[p].pc, p) == 1
  {
    hide Inv, InRange, ResumeStep, ForkStep, ExitStep, WakeStep, KillStep, WaitStep, CallStep, Settled, Tame, Weight;
    var pc := s.procs[p].pc;
    if pc.Free? {
      CallTame(s, c, p, a);
    } else if pc.Resumed? {
      ResumeTame(s, c, p);
    } else if pc.Locked? {
      SettledTame(s, c, p);
    } else if pc.ForkAlloc? || pc.ForkNew? || pc.ForkParent? || pc.ForkReady? || pc.ForkRun? {
      ForkTame(s, c, p, a);
    } else if pc.ExitScan? || pc.ExitGo? || pc.ExitLock? || pc.ExitHold? {
      ExitTame(s, c, p);
    } else if pc.Waking? || pc.WakeHold? {
      WakeTame(s, c, p);
    } else if pc.Killing? || pc.KillHold? {
      KillTame(s, c, p);
    } else {
      WaitTame(s, c, p, a);
    }
  }

  // ------------------------------------------------------------------------- one step

  /** CPUs other than c run other threads. */
  lemma OtherCpu(s: State, c: nat, p: nat, d: nat)
    requires Inv(s) && Runs(s, c, p) && d < |s.cpus| && d != c
    ensures s.cpus[d].at.k < |s.procs|
    ensures s.cpus[d].at.Away? ==> s.cpus[d].at.k != p && Running(s.procs[s.cpus[d].at.k].pc)
  {
    hide Inv, Running;
    CpuFacts(s, c);
    CpuFacts(s, d);
  }

  /** A change at CPU c and thread p leaves the other CPUs sound. */
  lemma OthersSound(m: Machine, c: nat, p: nat, n: Machine, d: nat)
    requires Consistent(m) && Runs(m.s, c, p) && Tame(m.s, n.s, p) && Shaped(n) && d < |m.s.cpus| && d != c
    requires n.irq == m.irq[c := n.irq[c]] && n.th == m.th[p := n.th[p]]
    ensures CpuSound(n, d)
  {
    hide Inv, Weight, Running;
    OtherCpu(m.s, c, p, d);
    assert CpuSound(m, d);
    assert m.s.cpus[d].at.Away? ==> Undisturbed(m.s, n.s, m.s.cpus[d].at.k);
  }

  lemma ParkedStay(m: Machine, c: nat, p: nat, n: Machine, q: nat)
    requires Consistent(m) && Runs(m.s, c, p) && Tame(m.s, n.s, p) && Shaped(n) && q < |m.s.procs|
    requires n.th == m.th[p := n.th[p]]
    ensures ParkedSound(n, q)
  {
    hide Inv, Weight;
    assert ParkedSound(m, q);
    if q != p { assert Undisturbed(m.s, n.s, q); }
  }

  /** A thread's step within its functions keeps the machine sound. */
  lemma MoveSound(m: Machine, c: nat, p: nat, n: Machine)
    requires Consistent(m) && Runs(m.s, c, p) && Tame(m.s, n.s, p) && Inv(n.s) && Shaped(n)
    requires n.irq == m.irq[c := n.irq[c]] && n.th == m.th[p := n.th[p]] && CpuSound(n, c)
    ensures Consistent(n)
  {
    hide Inv, Weight, CpuSound, ParkedSound;
    forall d | 0 <= d < |n.s.cpus| ensures CpuSound(n, d) {
      if d != c { OthersSound(m, c, p, n, d); }
    }
    forall q | 0 <= q < |n.s.procs| ensures ParkedSound(n, q) {
      ParkedStay(m, c, p, n, q);
    }
  }

  lemma ThreadSound(m: Machine, c: nat, p: nat, t: State, r: Result)
    requires Shaped(m) && Runs(m.s, c, p) && |t.procs| == |m.s.procs| && r == ThreadMove(m, c, p, t)
    requires !m.s.procs[p].pc.Leaving?
    requires m.s.procs[p].pc.Resumed? ==> Weight(t.procs[p].pc, p) == 0
    requires m.s.procs[p].pc.Locked? ==> Weight(t.procs[p].pc, p) == 1
    requires Consistent(m) && Tame(m.s, t, p) && Inv(t)
    ensures r.ReleasePanic? <==> m.s.procs[p].pc.Locked? && m.s.procs[p].pc.why.Nap? && m.th[p].ext == 0
    ensures !r.ReleasePanic? ==> Fine(m, r)
  {
    hide Inv, Tame, CpuSound, ParkedSound;
    assert CpuSound(m, c);
    assert -1 <= Weight(t.procs[p].pc, p) - Weight(m.s.procs[p].pc, p) <= 1 && t.cpus == m.s.cpus by {
      TameFacts(m.s, t, p);
    }
    hide Consistent;
    CpuMove(m, c, p, t, r);
    if r.Ok? { MoveSound(m, c, p, r.m); }
  }

  lemma TameFacts(s: State, t: State, p: nat)
    requires Tame(s, t, p)
    ensures t.cpus == s.cpus && p < |s.procs| == |t.procs|
    ensures -1 <= Weight(t.procs[p].pc, p) - Weight(s.procs[p].pc, p) <= 1
  {
    hide Weight;
  }

  /** What the step does on its own CPU. */
  lemma CpuMove(m: Machine, c: nat, p: nat, t: State, r: Result)
    requires Shaped(m) && Runs(m.s, c, p) && |t.procs| == |m.s.procs| && t.cpus == m.s.cpus
    requires r == ThreadMove(m, c, p, t)
    requires !m.s.procs[p].pc.Leaving?
    requires m.s.procs[p].pc.Resumed? ==> Weight(t.procs[p].pc, p) == 0
    requires m.s.procs[p].pc.Locked? ==> Weight(t.procs[p].pc, p) == 1
    requires -1 <= Weight(t.procs[p].pc, p) - Weight(m.s.procs[p].pc, p) <= 1 && CpuSound(m, c)
    ensures r.ReleasePanic? <==> m.s.procs[p].pc.Locked? && m.s.procs[p].pc.why.Nap? && m.th[p].ext == 0
    ensures !r.ReleasePanic? ==> r.Ok? && Shaped(r.m) && r.m.s == t && CpuSound(r.m, c)
    ensures r.Ok? ==>
      r.m.irq == m.irq[c := r.m.irq[c]] && r.m.th == m.th[p := r.m.th[p]] && r.m.th[p].home == m.th[p].home
  {
    assert m.s.procs[p].pc.Resumed? || m.s.procs[p].pc.Locked? ==> Weight(m.s.procs[p].pc, p) == 1;
    hide Weight;
  }

  /** sched: its test of noff fails exactly for a thread that holds another spinlock; interrupts are off. */
  lemma LeaveSound(m: Machine, c: nat, p: nat)
    requires Consistent(m) && Runs(m.s, c, p) && m.s.procs[p].pc.Leaving? && SchedCall(m.s, c, p).Next?
    requires Inv(SchedCall(m.s, c, p).state)
    ensures var r := ThreadMove(m, c, p, SchedCall(m.s, c, p).state);
      && (r.SchedPanic? <==> m.th[p].ext != 0) && !m.irq[c].on
      && (m.th[p].ext == 0 ==> Fine(m, r))
  {
    var t := SchedCall(m.s, c, p).state;
    var r := ThreadMove(m, c, p, t);
    assert CpuSound(m, c);
    assert Weight(m.s.procs[p].pc, p) == 1;
    hide Inv, Weight, LockOf, HoldsWait, Running, OtherLocks;
    if r.Ok? {
      forall d | 0 <= d < |t.cpus| ensures CpuSound(r.m, d) {
        assert CpuSound(m, d);
        if d != c { OtherCpu(m.s, c, p, d); }
      }
      forall q | 0 <= q < |t.procs| ensures ParkedSound(r.m, q) {
        assert ParkedSound(m, q);
      }
    }
  }

  ghost predicate SameHomes(m: Machine, n: Machine) {
    |n.th| == |m.th| && forall q :: 0 <= q < |m.th| ==> n.th[q].home == m.th[q].home
  }

  /** A thread that runs on another CPU, or is parked, is not the one the scheduler of c is at. */
  lemma SchedulerOthers(s: State, c: nat, k: nat, d: nat)
    requires Inv(s) && c < |s.cpus| && d < |s.cpus| && d != c && k < |s.procs| && s.procs[k].on.None?
    ensures s.cpus[d].at.k < |s.procs| && (s.cpus[d].at.Away? ==> s.cpus[d].at.k != k)
  {
    hide Inv, Running;
    CpuFacts(s, d);
  }

  /** A step of c's scheduler touches only c, and the slot it is at. */
  lemma SchedulerMoveSound(m: Machine, c: nat, k: nat, n: Machine)
    requires Consistent(m) && c < |m.s.cpus| == |n.s.cpus| && k < |m.s.procs| == |n.s.procs| && Shaped(n) && Inv(n.s)
    requires n.s.cpus == m.s.cpus[c := n.s.cpus[c]] && n.irq == m.irq[c := n.irq[c]] && n.th == m.th[k := n.th[k]]
    requires forall q :: 0 <= q < |m.s.procs| && q != k ==> n.s.procs[q].pc == m.s.procs[q].pc
    requires (n.s.procs[k].pc == m.s.procs[k].pc && n.th == m.th) || (m.s.procs[k].on.None? && !n.s.procs[k].pc.Parked?)
    requires CpuSound(n, c)
    ensures Consistent(n)
  {
    hide Inv, Weight;
    forall d | 0 <= d < |n.s.cpus| ensures CpuSound(n, d) {
      if d != c {
        assert CpuSound(m, d);
        if m.s.procs[k].on.None? { SchedulerOthers(m.s, c, k, d); }
      }
    }
    forall q | 0 <= q < |n.s.procs| ensures ParkedSound(n, q) {
      assert ParkedSound(m, q);
    }
  }

  /** The step worked, keeps the machine consistent, and only a newly started thread gets a new interrupt state. */
  ghost predicate Fine(m: Machine, r: Result) {
    && r.Ok? && Consistent(r.m) && |r.m.th| == |m.th| == |m.s.procs|
    && forall q :: 0 <= q < |m.th| && !m.s.procs[q].pc.Born? ==> r.m.th[q].home == m.th[q].home
  }

  lemma SchedulerSound(m: Machine, c: nat, k: nat, t: State, r: Result)
    requires c < |m.s.cpus| && m.s.cpus[c].at.k == k < |m.s.procs| && !m.s.cpus[c].at.Away? && Shaped(m)
    requires SchedStep(m.s, c) == Next(t) && |t.cpus| == |m.s.cpus| && r == SchedulerMove(m, c, t)
    requires Consistent(m) && Inv(t)
    ensures Fine(m, r)
  {
    hide Inv, Consistent, CpuSound;
    SlotSound(m, c, k);
    assert r.Ok? && Shaped(r.m) && r.m.s == t && CpuSound(r.m, c) by {
      if m.s.cpus[c].at.Look? { LookSound(m, c, k, t, r); } else { HoldSound(m, c, k, t, r); }
    }
    SchedulerMoveSound(m, c, k, r.m);
  }

  lemma SlotSound(m: Machine, c: nat, k: nat)
    requires Consistent(m) && c < |m.s.cpus| && k < |m.s.procs|
    ensures Shaped(m) && CpuSound(m, c) && ParkedSound(m, k)
    ensures m.s.procs[k].lock.None? && m.s.procs[k].state.RUNNABLE? ==>
      m.s.procs[k].on.None? && (m.s.procs[k].pc.Born? || m.s.procs[k].pc.Parked?)
  {
    SlotOn(m.s, k);
    hide Inv;
  }

  lemma LookSound(m: Machine, c: nat, k: nat, t: State, r: Result)
    requires c < |m.s.cpus| && m.s.cpus[c].at == Look(k) && k < |m.s.procs| && Shaped(m)
    requires SchedStep(m.s, c) == Next(t) && |t.cpus| == |m.s.cpus| && r == SchedulerMove(m, c, t)
    requires CpuSound(m, c) && ParkedSound(m, k)
    ensures r.Ok? && Shaped(r.m) && r.m.s == t && CpuSound(r.m, c)
  {
    hide Running;
  }

  lemma HoldSound(m: Machine, c: nat, k: nat, t: State, r: Result)
    requires c < |m.s.cpus| && (m.s.cpus[c].at == Hold(k) || m.s.cpus[c].at == Back(k)) && k < |m.s.procs| && Shaped(m)
    requires SchedStep(m.s, c) == Next(t) && |t.cpus| == |m.s.cpus| && r == SchedulerMove(m, c, t) && CpuSound(m, c)
    ensures r.Ok? && Shaped(r.m) && r.m.s == t && CpuSound(r.m, c)
  {
    hide Running, HoldsWait, LockOf;
  }

  /** Other spinlocks, and interrupts switched at depth 0. */
  lemma RestSound(m: Machine, c: nat, v: Move)
    requires Consistent(m) && AtRest(m, c) && !v.Act?
    ensures var r := Step(m, c, v);
      && !r.PopPanic? && !r.SchedPanic? && !r.ReleasePanic?
      && (r.Ok? ==> Consistent(r.m) && (!v.Set? ==> SameHomes(m, r.m)))
      && (r.Ok? ==> forall q :: 0 <= q < |m.th| && q != m.s.cpus[c].at.k ==> r.m.th[q].home == m.th[q].home)
  {
    var p := m.s.cpus[c].at.k;
    var r := Step(m, c, v);
    assert CpuSound(m, c);
    hide Inv, Do;
    if r.Ok? {
      assert Shaped(r.m) && r.m.s == m.s && CpuSound(r.m, c);
      StayTame(m.s, p);
      CpuFacts(m.s, c);
      MoveSound(m, c, p, r.m);
    }
  }

  lemma StayTame(s: State, p: nat)
    requires p < |s.procs| && Running(s.procs[p].pc)
    ensures Tame(s, s, p)
  {
    hide Running, Weight;
  }

  // ---------------------------------------------------------------------------- every step

  /** A thread at the switch to its scheduler holds another spinlock, or one in sleep does not hold its lk. */
  predicate Misused(m: Machine, c: nat) {
    && c < |m.s.cpus| && m.s.cpus[c].at.Away? && m.s.cpus[c].at.k < |m.s.procs| && m.s.cpus[c].at.k < |m.th|
    && var p := m.s.cpus[c].at.k;
       || (m.s.procs[p].pc.Leaving? && m.th[p].ext != 0)
       || (m.s.procs[p].pc.Locked? && m.s.procs[p].pc.why.Nap? && m.th[p].ext == 0)
  }

  lemma ActSound(m: Machine, c: nat, a: Action, r: Result)
    requires Shaped(m) && r == Step(m, c, Act(a)) && !r.No?
    requires Consistent(m)
    ensures !r.PopPanic? && (r.SchedPanic? || r.ReleasePanic? <==> Misused(m, c))
    ensures !Misused(m, c) ==> Fine(m, r)
  {
    var t := Do(m.s, c, a).state;
    assert Inv(m.s);
    hide Inv, Consistent, SchedulerMove, ThreadMove, Fine;
    assert c < |m.s.cpus| && Do(m.s, c, a) == Next(t);
    StepInv(m.s, c, a);
    var p := m.s.cpus[c].at.k;
    if !m.s.cpus[c].at.Away? {
      hide Do;
      SchedulerCase(m, c, a, t);
      SchedulerSound(m, c, p, t, r);
    } else {
      PlaceFacts(m.s, c, p);
      ThreadCase(m, c, a, t, r);
    }
  }

  lemma SchedulerCase(m: Machine, c: nat, a: Action, t: State)
    requires c < |m.s.cpus| && m.s.cpus[c].at.k < |m.s.procs| && !m.s.cpus[c].at.Away? && Do(m.s, c, a) == Next(t)
    ensures SchedStep(m.s, c) == Next(t)
  {
  }

  lemma ThreadCase(m: Machine, c: nat, a: Action, t: State, r: Result)
    requires Shaped(m) && c < |m.s.cpus| && m.s.cpus[c].at.Away? && m.s.cpus[c].at.k < |m.s.procs| == |t.procs|
    requires InRange(m.s.procs[m.s.cpus[c].at.k].pc, |m.s.procs|) && Do(m.s, c, a) == Next(t)
    requires r == ThreadMove(m, c, m.s.cpus[c].at.k, t) && Consistent(m) && Inv(t) && Inv(m.s)
    ensures !r.PopPanic? && (r.SchedPanic? || r.ReleasePanic? <==> Misused(m, c))
    ensures !Misused(m, c) ==> Fine(m, r)
  {
    var p := m.s.cpus[c].at.k;
    hide Inv, Consistent, InRange, Fine, Tame, Weight, SchedCall, ThreadMove;
    assert ThreadStep(m.s, c, p, a) == Next(t);
    if m.s.procs[p].pc.Leaving? {
      assert SchedCall(m.s, c, p) == Next(t);
      LeaveSound(m, c, p);
    } else {
      hide ThreadStep;
      ThreadTame(m.s, c, p, a);
      ThreadSound(m, c, p, t, r);
      NotBoth(m, c, p, t, r);
    }
  }

  /** Only a thread at the switch to its scheduler can meet sched's panics. */
  lemma NotBoth(m: Machine, c: nat, p: nat, t: State, r: Result)
    requires Shaped(m) && Runs(m.s, c, p) && |t.procs| == |m.s.procs| && r == ThreadMove(m, c, p, t)
    requires !m.s.procs[p].pc.Leaving?
    ensures !r.SchedPanic?
  {
    hide Weight;
  }

  // ------------------------------------------------------------------------- every execution

  /** run[i] is the machine before move i, by CPU cpu[i]. */
  ghost predicate History(run: seq<Machine>, cpu: seq<nat>, mv: seq<Move>) {
    && |run| == |cpu| + 1 == |mv| + 1
    && Boot(run[0].s) && Shaped(run[0]) && (forall c :: 0 <= c < |run[0].irq| ==> run[0].irq[c].noff == 0)
    && forall i :: 0 <= i < |cpu| ==> Leads(run[i], cpu[i], mv[i], run[i + 1])
  }

  ghost predicate Leads(m: Machine, c: nat, v: Move, n: Machine) {
    Shaped(m) && Step(m, c, v) == Ok(n)
  }

  lemma BootConsistent(m: Machine)
    requires Boot(m.s) && Shaped(m) && forall c :: 0 <= c < |m.irq| ==> m.irq[c].noff == 0
    ensures Consistent(m)
  {
    BootInv(m.s);
    hide Inv;
  }

  /** The interrupt state of thread p may change: it switches interrupts itself, or its slot starts a new process. */
  predicate Resets(m: Machine, c: nat, v: Move, p: nat) {
    && p < |m.s.procs| && c < |m.s.cpus|
    && (m.s.procs[p].pc.Born? || (v.Set? && m.s.cpus[c].at == Away(p)))
  }

  lemma LeadsFine(m: Machine, c: nat, v: Move, n: Machine)
    requires Consistent(m) && Leads(m, c, v, n)
    ensures Consistent(n) && |n.th| == |m.th|
    ensures forall q :: 0 <= q < |m.th| && !Resets(m, c, v, q) ==> n.th[q].home == m.th[q].home
  {
    hide Consistent;
    if v.Act? {
      hide Step;
      ActSound(m, c, v.a, Ok(n));
      hide Misused;
    } else {
      assert AtRest(m, c);
      RestSound(m, c, v);
    }
  }

  lemma {:induction false} AllConsistent(run: seq<Machine>, cpu: seq<nat>, mv: seq<Move>, i: nat)
    requires History(run, cpu, mv) && i < |run|
    ensures Consistent(run[i])
  {
    hide Consistent, Boot, Leads;
    if i == 0 {
      BootConsistent(run[0]);
    } else {
      AllConsistent(run, cpu, mv, i - 1);
      assert Leads(run[i - 1], cpu[i - 1], mv[i - 1], run[i - 1 + 1]);
      LeadsFine(run[i - 1], cpu[i - 1], mv[i - 1], run[i]);
    }
  }

  /**
    In every state of every execution noff is the number of spinlocks the CPU
    holds, and with any interrupts are off.
  */
  lemma NoffCountsLocks(run: seq<Machine>, cpu: seq<nat>, mv: seq<Move>, i: nat, c: nat)
    requires History(run, cpu, mv) && i < |run| && c < |run[i].s.cpus|
    ensures Shaped(run[i]) && run[i].irq[c].noff == Held(run[i], c) && (run[i].irq[c].on ==> Held(run[i], c) == 0)
  {
    hide History, Inv;
    AllConsistent(run, cpu, mv, i);
    assert CpuSound(run[i], c);
  }

  /**
    pop_off never panics. sched panics, or sleep's release does, exactly when the
    thread came with the wrong other spinlocks: any at yield, exit and wait, and
    not exactly lk at sleep. sched is never called with interrupts on.
  */
  lemma PanicsExactly(run: seq<Machine>, cpu: seq<nat>, mv: seq<Move>, i: nat, c: nat, v: Move, r: Result)
    requires History(run, cpu, mv) && i < |run| && Shaped(run[i]) && r == Step(run[i], c, v)
    ensures !r.PopPanic?
    ensures v.Act? && !r.No? ==> (r.SchedPanic? || r.ReleasePanic? <==> Misused(run[i], c))
    ensures !v.Act? ==> !r.SchedPanic? && !r.ReleasePanic?
  {
    hide History, Inv, Misused, Consistent;
    AllConsistent(run, cpu, mv, i);
    if v.Act? {
      if !r.No? {
        hide Step;
        ActSound(run[i], c, v.a, r);
      }
    } else if AtRest(run[i], c) {
      RestSound(run[i], c, v);
    }
  }

  lemma {:induction false} HomeKept(run: seq<Machine>, cpu: seq<nat>, mv: seq<Move>, i: nat, j: nat, p: nat)
    requires History(run, cpu, mv) && i <= j < |run| && p < |run[i].th|
    requires forall k :: i <= k < j ==> !Resets(run[k], cpu[k], mv[k], p)
    ensures |run[j].th| == |run[i].th| && run[j].th[p].home == run[i].th[p].home
    decreases j - i
  {
    hide Consistent, Boot, Leads, Resets;
    if i < j {
      HomeKept(run, cpu, mv, i, j - 1, p);
      AllConsistent(run, cpu, mv, j - 1);
      assert Leads(run[j - 1], cpu[j - 1], mv[j - 1], run[j - 1 + 1]);
      LeadsFine(run[j - 1], cpu[j - 1], mv[j - 1], run[j]);
    }
  }

  /** Thread p is on CPU c, outside the functions of proc.c, and holds no spinlock. */
  predicate Bare(m: Machine, c: nat, p: nat) {
    AtRest(m, c) && m.s.cpus[c].at.k == p && p < |m.th| && m.th[p].ext == 0
  }

  /**
    Whenever a thread is back without spinlocks, on whatever CPU, after any locks
    it took, any sleeps and any switches, interrupts are as it left them.
  */
  lemma InterruptStateKept(run: seq<Machine>, cpu: seq<nat>, mv: seq<Move>, i: nat, j: nat, p: nat, c: nat, d: nat)
    requires History(run, cpu, mv) && i <= j < |run| && Bare(run[i], c, p) && Bare(run[j], d, p)
    requires forall k :: i <= k < j ==> !Resets(run[k], cpu[k], mv[k], p)
    ensures Shaped(run[i]) && Shaped(run[j]) && run[j].irq[d].on == run[i].irq[c].on
  {
    hide History, Inv, Resets;
    HomeKept(run, cpu, mv, i, j, p);
    AllConsistent(run, cpu, mv, i);
    AllConsistent(run, cpu, mv, j);
    assert CpuSound(run[i], c) && CpuSound(run[j], d);
  }
}
