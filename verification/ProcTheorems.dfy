module ProcTheorems {
  // What holds in every state of every interleaving of proc.c.

  import opened Wrappers
  import opened ProcState
  import opened ProcMoves
  import opened ProcEdits
  import opened ProcSwitch
  import opened ProcSteps
  import opened ProcProof

  /**
    No lost exit wakeup: while wait_lock is free, a process asleep in wait has a
    child, and none of its children is a zombie it should have been told about.
  */
  lemma NoLostExitWakeup(run: seq<State>, cpu: seq<nat>, act: seq<Action>, i: nat, p: nat)
    requires Execution(run, cpu, act) && i < |run| && p < |run[i].procs|
    requires run[i].waitLock.None? && run[i].procs[p].state.SLEEPING? && run[i].procs[p].chan == Self(p)
    ensures HasKid(run[i], p)
    ensures forall k :: 0 <= k < |run[i].procs| && run[i].procs[k].parent == Some(p) ==> !run[i].procs[k].state.ZOMBIE?
  {
    RunInv(run, cpu, act, i);
    SlotFits(run[i], p);
    WaitFacts(run[i], p);
    hide Inv;
    assert Asleep(run[i].procs[p]);
  }

  /** Zombies have no children, and every parent is a process in use other than its child. */
  lemma ParentsInUse(run: seq<State>, cpu: seq<nat>, act: seq<Action>, i: nat, k: nat)
    requires Execution(run, cpu, act) && i < |run| && k < |run[i].procs| && run[i].procs[k].parent.Some?
    ensures run[i].procs[k].parent.value < |run[i].procs| && run[i].procs[k].parent.value != k
    ensures var q := run[i].procs[run[i].procs[k].parent.value]; !q.state.ZOMBIE? && !q.state.UNUSED? && !q.state.USED?
  {
    var s := run[i];
    RunInv(run, cpu, act, i);
    assert ParentOk(s, k);
    var q := s.procs[k].parent.value;
    SlotFits(s, q);
    hide Inv, Boot;
  }

  /** Every process that ever ran, other than init, has a parent that can wait for it. */
  lemma OrphansGoToInit(run: seq<State>, cpu: seq<nat>, act: seq<Action>, i: nat, k: nat)
    requires Execution(run, cpu, act) && i < |run| && k < |run[i].procs| && k != INIT
    requires !run[i].procs[k].state.UNUSED? && !run[i].procs[k].state.USED?
    ensures run[i].procs[k].parent.Some?
  {
    RunInv(run, cpu, act, i);
    assert ParentOk(run[i], k);
  }

  /** No two CPUs run one process; with p->lock free it is RUNNING exactly when a CPU runs it. */
  lemma OneCpuPerProcess(run: seq<State>, cpu: seq<nat>, act: seq<Action>, i: nat, k: nat)
    requires Execution(run, cpu, act) && i < |run| && k < |run[i].procs|
    ensures forall c, d :: 0 <= c < d < |run[i].cpus| ==>
      !(run[i].cpus[c].proc == Some(k) && run[i].cpus[d].proc == Some(k))
    ensures run[i].procs[k].lock.None? ==>
      (run[i].procs[k].state.RUNNING? <==> exists c :: 0 <= c < |run[i].cpus| && run[i].cpus[c].proc == Some(k))
  {
    RunInv(run, cpu, act, i);
    var s := run[i];
    forall c | 0 <= c < |s.cpus| ensures CpuOk(s, c) && (s.cpus[c].proc == Some(k) ==> s.procs[k].on == Some(c)) {
      CpuFacts(s, c);
    }
    SlotOn(s, k);
    SlotFits(s, k);
    if s.procs[k].lock.None? {
      RunningIffOn(s, k);
    }
    hide Inv, Boot;
    if s.procs[k].lock.None? && s.procs[k].state.RUNNING? {
      assert s.cpus[s.procs[k].on.value].proc == Some(k);
    }
  }

  lemma RunningIffOn(s: State, k: nat)
    requires Inv(s) && k < |s.procs| && s.procs[k].lock.None?
    ensures s.procs[k].state.RUNNING? <==> s.procs[k].on.Some?
  {
    hide Inv;
    SlotFits(s, k);
    SlotOn(s, k);
    if s.procs[k].on.Some? {
      CpuFacts(s, s.procs[k].on.value);
    }
    if Running(s.procs[k].pc) && LockOf(s.procs[k].pc, k) == Some(k) { OwnLock(s, k); }
  }

  /** Each exit status reaches at most one wait, and it is the status the process exited with. */
  lemma StatusDeliveredOnce(run: seq<State>, cpu: seq<nat>, act: seq<Action>, i: nat, a: nat, b: nat)
    requires Execution(run, cpu, act) && i < |run| && a < b < |run[i].delivered|
    ensures run[i].delivered[a].0 != run[i].delivered[b].0
    ensures run[i].delivered[a].0 in run[i].exited && run[i].exited[run[i].delivered[a].0] == run[i].delivered[a].1
  {
    RunInv(run, cpu, act, i);
  }

  /** A zombie keeps the status it exited with until its parent takes it. */
  lemma ZombieKeepsStatus(run: seq<State>, cpu: seq<nat>, act: seq<Action>, i: nat, k: nat, d: nat)
    requires Execution(run, cpu, act) && i < |run| && k < |run[i].procs| && run[i].procs[k].state.ZOMBIE?
    ensures run[i].procs[k].pid in run[i].exited && run[i].exited[run[i].procs[k].pid] == run[i].procs[k].xstate
    ensures d < |run[i].delivered| ==> run[i].delivered[d].0 != run[i].procs[k].pid
  {
    RunInv(run, cpu, act, i);
    assert PidOk(run[i], k);
  }

  /** Mutual exclusion: a lock is held by at most one thread, and that thread's place says so. */
  lemma WaitLockExclusive(run: seq<State>, cpu: seq<nat>, act: seq<Action>, i: nat, c: nat, p: nat, q: nat)
    requires Execution(run, cpu, act) && i < |run| && Runs(run[i], c, p) && q < |run[i].procs| && q != p
    requires HoldsWait(run[i].procs[p].pc)
    ensures !HoldsWait(run[i].procs[q].pc)
  {
    RunInv(run, cpu, act, i);
    InvLocks(run[i]);
    hide Inv, Sized, Placed, Locks, HoldsWait, Boot;
    OneWaiter(run[i], c, p, q);
  }

  // -------------------------------------------------------------------------- panics

  lemma ForkNoPanic(s: State, c: nat, p: nat, a: Action)
    requires Inv(s) && Runs(s, c, p) && InRange(s.procs[p].pc, |s.procs|)
    ensures !ForkStep(s, c, p, a).Panic?
  {
    hide Inv, Running, Fits, Reaped, Died, Spawned, Edit, Reparented, Goto, SetLock;
    ThreadFacts(s, c, p);
  }

  lemma ExitNoPanic(s: State, c: nat, p: nat, a: Action)
    requires Inv(s) && Runs(s, c, p) && InRange(s.procs[p].pc, |s.procs|)
    ensures !ExitStep(s, c, p).Panic?
  {
    hide Inv, Running, Fits, Reaped, Died, Spawned, Edit, Reparented, Goto, SetLock;
    ThreadFacts(s, c, p);
  }

  lemma WakeNoPanic(s: State, c: nat, p: nat, a: Action)
    requires Inv(s) && Runs(s, c, p) && InRange(s.procs[p].pc, |s.procs|)
    ensures !WakeStep(s, c, p).Panic?
  {
    hide Inv, Running, Fits, Reaped, Died, Spawned, Edit, Reparented, Goto, SetLock;
    ThreadFacts(s, c, p);
  }

  lemma KillNoPanic(s: State, c: nat, p: nat, a: Action)
    requires Inv(s) && Runs(s, c, p) && InRange(s.procs[p].pc, |s.procs|)
    ensures !KillStep(s, c, p).Panic?
  {
    hide Inv, Running, Fits, Reaped, Died, Spawned, Edit, Reparented, Goto, SetLock;
    ThreadFacts(s, c, p);
  }

  lemma WaitNoPanic(s: State, c: nat, p: nat, a: Action)
    requires Inv(s) && Runs(s, c, p) && InRange(s.procs[p].pc, |s.procs|)
    ensures !WaitStep(s, c, p, a).Panic?
  {
    hide Inv, Running, Fits, Reaped, Died, Spawned, Edit, Reparented, Goto, SetLock;
    ThreadFacts(s, c, p);
  }

  lemma ResumeNoPanic(s: State, c: nat, p: nat)
    requires Inv(s) && Runs(s, c, p) && s.procs[p].pc.Resumed?
    ensures !ResumeStep(s, c, p).Panic?
  {
    hide Inv;
    ThreadFacts(s, c, p);
  }

  lemma ThreadNoPanic(s: State, c: nat, p: nat, a: Action)
    requires Inv(s) && Runs(s, c, p) && InRange(s.procs[p].pc, |s.procs|) && !s.procs[p].pc.Free?
    requires !s.procs[p].pc.Leaving?
    ensures !ThreadStep(s, c, p, a).Panic?
  {
    hide Inv, InRange, ResumeStep, ForkStep, ExitStep, WakeStep, KillStep, WaitStep, Settled;
    if s.procs[p].pc.Resumed? { ResumeNoPanic(s, c, p); }
    ForkNoPanic(s, c, p, a);
    ExitNoPanic(s, c, p, a);
    WakeNoPanic(s, c, p, a);
    KillNoPanic(s, c, p, a);
    WaitNoPanic(s, c, p, a);
  }

  lemma CallPanic(s: State, c: nat, p: nat, a: Action)
    requires Inv(s) && Runs(s, c, p) && s.procs[p].pc.Free?
    ensures CallStep(s, c, p, a).Panic? <==> p == INIT && a.CallExit?
  {
    hide Inv;
    ThreadFacts(s, c, p);
  }

  lemma SchedNoPanic(s: State, c: nat, p: nat)
    requires Inv(s) && Runs(s, c, p) && s.procs[p].pc.Leaving?
    ensures SchedCall(s, c, p).Next?
  {
    hide Inv;
    ThreadFacts(s, c, p);
  }

  lemma SchedulerNoPanic(s: State, c: nat)
    requires Inv(s) && c < |s.cpus| && s.cpus[c].at.k < |s.procs| && !s.cpus[c].at.Away?
    ensures !SchedStep(s, c).Panic?
  {
    hide Inv;
    CpuFacts(s, c);
    if s.cpus[c].at.Look? && s.procs[s.cpus[c].at.k].lock == Some(c) {
      LockShows(s, c, s.cpus[c].at.k);
    }
  }

  lemma LockShows(s: State, c: nat, k: nat)
    requires Inv(s) && c < |s.cpus| && k < |s.procs| && s.procs[k].lock == Some(c)
    ensures CpuLock(s, c) == Some(k)
  {
    hide CpuLock, Sized, Placed, Forks, Parents, Waits, Exits, Pids, Deliveries;
  }

  /**
    The panics of acquire, release and sched, and "zombie exit", are unreachable;
    the one panic that a system call can cause is init's own exit.
  */
  lemma OnlyInitExitPanics(run: seq<State>, cpu: seq<nat>, act: seq<Action>, i: nat, c: nat, a: Action)
    requires Execution(run, cpu, act) && i < |run|
    ensures Do(run[i], c, a).Panic? <==>
      c < |run[i].cpus| && |run[i].procs| > 0 && run[i].cpus[c].at == Away(INIT) && run[i].procs[INIT].pc.Free?
      && a.CallExit?
  {
    var s := run[i];
    RunInv(run, cpu, act, i);
    hide Inv, Boot, InRange, SchedStep, CallStep, ResumeStep, SchedCall, ForkStep, ExitStep, WakeStep, KillStep;
    hide WaitStep, Settled;
    InitFacts(s);
    if c < |s.cpus| {
      CpuFacts(s, c);
      var p := s.cpus[c].at.k;
      if !s.cpus[c].at.Away? {
        SchedulerNoPanic(s, c);
      } else {
        PlaceFacts(s, c, p);
        if s.procs[p].pc.Free? {
          CallPanic(s, c, p, a);
        } else if s.procs[p].pc.Leaving? {
          SchedNoPanic(s, c, p);
        } else {
          ThreadNoPanic(s, c, p, a);
        }
      }
    }
  }
}
