module KillZero {
  // kill(0): unused slots have pid 0, so it finds one and sets its killed flag,
  // which allocproc does not clear. When exactly a process is born killed, and an
  // execution in which one is.

  import opened Wrappers
  import opened ProcState
  import opened ProcMoves
  import opened ProcEdits
  import opened ProcSwitch
  import opened ProcSteps
  import opened ProcProof

  /** CPU c is about to lock slot k for kill(pid). */
  predicate AboutToKill(s: State, c: nat, k: nat, pid: nat) {
    && c < |s.cpus| && s.cpus[c].at.Away? && s.cpus[c].at.k < |s.procs|
    && s.procs[s.cpus[c].at.k].pc == Killing(k, pid)
  }

  /** What a step by CPU c may do to the pid and killed flag of slot k. */
  predicate SlotChange(s: State, c: nat, q: Proc, r: Proc, k: nat) {
    || (r.killed == q.killed && r.pid == q.pid && (r.state.UNUSED? <==> q.state.UNUSED?)
        && !AboutToKill(s, c, k, q.pid))
    || (!q.state.UNUSED? && r.state.UNUSED? && !r.killed && r.pid == 0)
    || (q.state.UNUSED? && r.state.USED? && r.killed == q.killed)
    || (AboutToKill(s, c, k, q.pid) && r.killed && r.pid == q.pid && (r.state.UNUSED? <==> q.state.UNUSED?))
  }

  ghost predicate SlotChanges(s: State, c: nat, t: State) {
    |t.procs| == |s.procs| && forall k :: 0 <= k < |s.procs| ==> SlotChange(s, c, s.procs[k], t.procs[k], k)
  }

  lemma ForkChanges(s: State, c: nat, p: nat, a: Action)
    requires Inv(s) && Runs(s, c, p) && InRange(s.procs[p].pc, |s.procs|) && ForkStep(s, c, p, a).Next?
    ensures SlotChanges(s, c, ForkStep(s, c, p, a).state)
  {
    hide Inv;
    PlaceFacts(s, c, p);
    if ForkOf(s.procs[p].pc).Some? { ForkFacts(s, c, p); }
  }

  lemma ExitChanges(s: State, c: nat, p: nat)
    requires Inv(s) && Runs(s, c, p) && InRange(s.procs[p].pc, |s.procs|) && ExitStep(s, c, p).Next?
    ensures SlotChanges(s, c, ExitStep(s, c, p).state)
  {
    hide Inv;
    PlaceFacts(s, c, p);
  }

  lemma WakeChanges(s: State, c: nat, p: nat)
    requires Runs(s, c, p) && InRange(s.procs[p].pc, |s.procs|) && WakeStep(s, c, p).Next?
    ensures SlotChanges(s, c, WakeStep(s, c, p).state)
  {
  }

  lemma WaitChanges(s: State, c: nat, p: nat, a: Action)
    requires Runs(s, c, p) && InRange(s.procs[p].pc, |s.procs|) && WaitStep(s, c, p, a).Next?
    ensures SlotChanges(s, c, WaitStep(s, c, p, a).state)
  {
  }

  lemma KillChanges(s: State, c: nat, p: nat)
    requires Runs(s, c, p) && InRange(s.procs[p].pc, |s.procs|) && KillStep(s, c, p).Next?
    ensures SlotChanges(s, c, KillStep(s, c, p).state)
  {
  }

  lemma CallChanges(s: State, c: nat, p: nat, a: Action)
    requires Runs(s, c, p) && s.procs[p].pc.Free? && CallStep(s, c, p, a).Next?
    ensures SlotChanges(s, c, CallStep(s, c, p, a).state)
  {
  }

  lemma SwitchChanges(s: State, c: nat, p: nat)
    requires Inv(s) && Runs(s, c, p)
    ensures s.procs[p].pc.Resumed? && ResumeStep(s, c, p).Next? ==> SlotChanges(s, c, ResumeStep(s, c, p).state)
    ensures s.procs[p].pc.Locked? ==> SlotChanges(s, c, Edit(s, p, Settled(s.procs[p], p)))
    ensures s.procs[p].pc.Leaving? && SchedCall(s, c, p).Next? ==> SlotChanges(s, c, SchedCall(s, c, p).state)
  {
    hide Inv, OtherLocks;
    PlaceFacts(s, c, p);
  }

  lemma SchedulerChanges(s: State, c: nat)
    requires c < |s.cpus| && s.cpus[c].at.k < |s.procs| && !s.cpus[c].at.Away? && SchedStep(s, c).Next?
    ensures SlotChanges(s, c, SchedStep(s, c).state)
  {
  }

  lemma ThreadChanges(s: State, c: nat, p: nat, a: Action)
    requires Inv(s) && Runs(s, c, p) && InRange(s.procs[p].pc, |s.procs|) && ThreadStep(s, c, p, a).Next?
    ensures SlotChanges(s, c, ThreadStep(s, c, p, a).state)
  {
    hide Inv, InRange, ResumeStep, SchedCall, ForkStep, ExitStep, WakeStep, KillStep, WaitStep, CallStep, Settled;
    hide SlotChanges;
    var pc := s.procs[p].pc;
    if pc.Free? {
      CallChanges(s, c, p, a);
    } else if pc.Resumed? || pc.Locked? || pc.Leaving? {
      SwitchChanges(s, c, p);
    } else if pc.ForkAlloc? || pc.ForkNew? || pc.ForkParent? || pc.ForkReady? || pc.ForkRun? {
      ForkChanges(s, c, p, a);
    } else if pc.ExitScan? || pc.ExitGo? || pc.ExitLock? || pc.ExitHold? {
      ExitChanges(s, c, p);
    } else if pc.Waking? || pc.WakeHold? {
      WakeChanges(s, c, p);
    } else if pc.Killing? || pc.KillHold? {
      KillChanges(s, c, p);
    } else {
      WaitChanges(s, c, p, a);
    }
  }

  lemma StepChanges(s: State, c: nat, a: Action, t: State)
    requires Inv(s) && Do(s, c, a) == Next(t)
    ensures SlotChanges(s, c, t)
  {
    hide Inv, InRange, SchedStep, ThreadStep, SlotChanges;
    if s.cpus[c].at.Away? {
      ThreadChanges(s, c, s.cpus[c].at.k, a);
    } else {
      SchedulerChanges(s, c);
    }
  }

  /** Step j was kill(0) locking slot k, and the slot has been unused from there to i. */
  ghost predicate KilledUnused(run: seq<State>, cpu: seq<nat>, i: nat, k: nat, j: nat)
    requires i < |run| && i <= |cpu|
  {
    && j < i && AboutToKill(run[j], cpu[j], k, 0)
    && forall n :: j <= n <= i ==> k < |run[n].procs| && run[n].procs[k].state.UNUSED?
  }

  /** ... at some step before i. */
  ghost predicate EverKilled(run: seq<State>, cpu: seq<nat>, i: nat, k: nat)
    requires i < |run| && i <= |cpu|
  {
    exists j :: KilledUnused(run, cpu, i, k, j)
  }

  /**
    An unused slot is marked killed if and only if a kill(0) found it since it was
    last freed; allocproc hands the mark on to the slot's next process.
  */
  lemma {:induction false} BornKilledIff(run: seq<State>, cpu: seq<nat>, act: seq<Action>, i: nat, k: nat)
    requires Execution(run, cpu, act) && i < |run| && k < |run[i].procs| && run[i].procs[k].state.UNUSED?
    ensures run[i].procs[k].pid == 0
    ensures run[i].procs[k].killed <==> EverKilled(run, cpu, i, k)
  {
    hide Inv, Do, SlotChange, AboutToKill;
    if i > 0 {
      var s, t, c := run[i - 1], run[i], cpu[i - 1];
      RunInv(run, cpu, act, i - 1);
      assert Do(run[i - 1], cpu[i - 1], act[i - 1]) == Next(run[i - 1 + 1]);
      StepChanges(s, c, act[i - 1], t);
      assert SlotChange(s, c, s.procs[k], t.procs[k], k);
      SlotCases(s, c, s.procs[k], t.procs[k], k);
      if s.procs[k].state.UNUSED? {
        BornKilledIff(run, cpu, act, i - 1, k);
        if AboutToKill(s, c, k, 0) {
          assert KilledUnused(run, cpu, i, k, i - 1);
        } else {
          KilledBefore(run, cpu, i - 1, i, k);
        }
      }
    } else {
      assert !EverKilled(run, cpu, i, k);
    }
  }

  lemma SlotCases(s: State, c: nat, q: Proc, r: Proc, k: nat)
    requires SlotChange(s, c, q, r, k) && r.state.UNUSED?
    ensures q.state.UNUSED? ==> r.pid == q.pid && r.killed == (q.killed || AboutToKill(s, c, k, q.pid))
    ensures !q.state.UNUSED? && !AboutToKill(s, c, k, q.pid) ==> r.pid == 0 && !r.killed
    ensures !q.state.UNUSED? ==> r.pid == 0 && !r.killed
  {
  }

  /** A step that is not such a kill changes nothing about earlier ones. */
  lemma KilledBefore(run: seq<State>, cpu: seq<nat>, h: nat, i: nat, k: nat)
    requires h + 1 == i < |run| && i <= |cpu| && !AboutToKill(run[h], cpu[h], k, 0)
    requires k < |run[i].procs| && run[i].procs[k].state.UNUSED?
    ensures EverKilled(run, cpu, i, k) <==> EverKilled(run, cpu, h, k)
  {
    hide AboutToKill;
    if EverKilled(run, cpu, i, k) {
      var j :| KilledUnused(run, cpu, i, k, j);
      assert KilledUnused(run, cpu, h, k, j);
    }
    if EverKilled(run, cpu, h, k) {
      var j :| KilledUnused(run, cpu, h, k, j);
      assert KilledUnused(run, cpu, i, k, j);
    }
  }

  // --------------------------------------------------------------------------- an execution

  const UNUSED_SLOT := Proc(UNUSED, NoChan, None, 0, 0, false, None, Idle, None)

  /** init at pc on the only CPU, holding the given locks; slot 1 unused, killed or not. */
  function Two(pc: Pc, lock0: Option<nat>, lock1: Option<nat>, killed: bool): State {
    State([Proc(RUNNING, NoChan, None, 1, 0, false, lock0, pc, Some(0)), UNUSED_SLOT.(lock := lock1, killed := killed)],
          [Cpu(Some(0), Away(0))], None, 2, map[], [])
  }

  const FIRST := State([Proc(RUNNABLE, NoChan, None, 1, 0, false, None, Born, None), UNUSED_SLOT],
                       [Cpu(None, Look(0))], None, 2, map[], [])

  lemma PairUpdate(a: Proc, b: Proc, c: Proc)
    ensures [a, b][0 := c] == [c, b] && [a, b][1 := c] == [a, c]
  {
  }

  lemma StartInit()
    ensures Do(FIRST, 0, Run) == Next(Two(Resumed(Yield), Some(0), None, false))
  {
    var q := FIRST.procs[0].(lock := Some(0), state := RUNNING, on := Some(0), pc := Resumed(Yield));
    PairUpdate(FIRST.procs[0], FIRST.procs[1], q);
    assert SchedStep(FIRST, 0) == Next(Hop(FIRST, 0, 0, q, Cpu(Some(0), Away(0))));
  }

  /** Thread 0 goes to pc and the lock of slot k becomes l, slot k being q but for its lock. */
  lemma Moved(s: State, pc: Pc, k: nat, l: Option<nat>, t: State)
    requires |s.procs| == 2 && k < 2 && t == s.(procs := t.procs) && |t.procs| == 2
    requires t.procs[0] == if k == 0 then s.procs[0].(pc := pc, lock := l) else s.procs[0].(pc := pc)
    requires t.procs[1] == if k == 1 then s.procs[1].(lock := l) else s.procs[1]
    ensures SetLock(Goto(s, 0, pc), k, l) == t
  {
  }

  lemma InitFree()
    ensures Do(Two(Resumed(Yield), Some(0), None, false), 0, Run) == Next(Two(Free, None, None, false))
  {
    var s := Two(Resumed(Yield), Some(0), None, false);
    assert Edit(s, 0, s.procs[0]) == s;
    Moved(s, Free, 0, None, Two(Free, None, None, false));
    hide Goto, SetLock;
    assert ResumeStep(s, 0, 0) == Next(SetLock(Goto(s, 0, Free), 0, None));
  }

  lemma CallsKill()
    ensures Do(Two(Free, None, None, false), 0, CallKill(0)) == Next(Two(Killing(0, 0), None, None, false))
  {
    var s := Two(Free, None, None, false);
    PairUpdate(s.procs[0], s.procs[1], s.procs[0].(pc := Killing(0, 0)));
    assert CallStep(s, 0, 0, CallKill(0)) == Next(Goto(s, 0, Killing(0, 0)));
  }

  /** kill's loop at a slot whose pid is or is not 0. */
  lemma KillLocks(j: nat, u: State)
    requires j < 2
    requires u == if j == 0 then Two(KillHold(0, 0, false), Some(0), None, false)
                  else Two(KillHold(1, 0, true), None, Some(0), true)
    ensures Do(Two(Killing(j, 0), None, None, false), 0, Run) == Next(u)
  {
    var s := Two(Killing(j, 0), None, None, false);
    var e := Edit(s, j, Killed(s.procs[j], 0));
    PairUpdate(s.procs[0], s.procs[1], Killed(s.procs[j], 0));
    assert e.procs == [s.procs[0], if j == 0 then s.procs[1] else UNUSED_SLOT.(killed := true)];
    Moved(e, KillHold(j, 0, j == 1), j, Some(0), u);
    hide Goto, SetLock, Edit;
    assert KillStep(s, 0, 0) == Next(SetLock(Goto(e, 0, KillHold(j, 0, j == 1)), j, Some(0)));
  }

  lemma KillUnlocks(j: nat, s: State, u: State)
    requires j < 2
    requires s == if j == 0 then Two(KillHold(0, 0, false), Some(0), None, false)
                  else Two(KillHold(1, 0, true), None, Some(0), true)
    requires u == if j == 0 then Two(Killing(1, 0), None, None, false) else Two(Free, None, None, true)
    ensures Do(s, 0, Run) == Next(u)
  {
    var pc := if j == 0 then Killing(1, 0) else Free;
    Moved(s, pc, j, None, u);
    hide Goto, SetLock;
    assert KillStep(s, 0, 0) == Next(SetLock(Goto(s, 0, pc), j, None));
  }

  lemma ForksKilled() returns (t: State)
    ensures Do(Two(Free, None, None, true), 0, CallFork(1)) == Next(t)
    ensures |t.procs| == 2 && t.procs[1].state.USED? && t.procs[1].killed && t.procs[1].pid == 2
  {
    var s := Two(Free, None, None, true);
    t := SetLock(Goto(Spawned(s, 1), 0, ForkAlloc(1)), 1, Some(0));
    assert CallStep(s, 0, 0, CallFork(1)) == Next(t);
  }

  /** init calls kill(0) and then fork: the child is killed before it has run. */
  lemma BornKilled() returns (run: seq<State>, cpu: seq<nat>, act: seq<Action>)
    ensures Execution(run, cpu, act) && |run| == 9 && |run[8].procs| == 2
    ensures run[8].procs[1].state.USED? && run[8].procs[1].killed && run[8].procs[1].pid == 2
  {
    hide Do, Two;
    var hold0 := Two(KillHold(0, 0, false), Some(0), None, false);
    var hold1 := Two(KillHold(1, 0, true), None, Some(0), true);
    StartInit();
    InitFree();
    CallsKill();
    KillLocks(0, hold0);
    KillUnlocks(0, hold0, Two(Killing(1, 0), None, None, false));
    KillLocks(1, hold1);
    KillUnlocks(1, hold1, Two(Free, None, None, true));
    var t := ForksKilled();
    run := [FIRST, Two(Resumed(Yield), Some(0), None, false), Two(Free, None, None, false),
            Two(Killing(0, 0), None, None, false), hold0, Two(Killing(1, 0), None, None, false), hold1,
            Two(Free, None, None, true), t];
    cpu := [0, 0, 0, 0, 0, 0, 0, 0];
    act := [Run, Run, CallKill(0), Run, Run, Run, Run, CallFork(1)];
  }
}
