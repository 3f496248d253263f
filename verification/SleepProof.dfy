module SleepProof {
  // No wakeup of a sleeplock is lost, in any interleaving.

  import opened Wrappers
  import opened ProcState
  import opened ProcMoves
  import opened ProcEdits
  import opened ProcSwitch
  import opened ProcSteps
  import opened ProcProof
  import opened SleepLock

  // ------------------------------------------------ what a step of proc.c does to each slot

  /** How CPU c's step a takes slot k from q to r, as far as sleeping on n is concerned. */
  predicate SlotMove(s: State, c: nat, a: Action, n: nat, k: nat, q: Proc, r: Proc) {
    var mine := Runs(s, c, k);
    || (r.pc == q.pc && (r.pc.Parked? && r.state.SLEEPING? ==> q.state.SLEEPING?))
    || (!NapPc(q.pc, n) && !NapPc(r.pc, n) && (mine || !Running(q.pc)))
    || (mine && q.pc.Free? && a == CallSleep(n) && r.pc == Locked(Nap(n)))
    || (mine && q.pc == Locked(Nap(n)) && r.pc == Leaving(Nap(n)))
    || (mine && q.pc == Leaving(Nap(n)) && r.pc == Parked(Nap(n)))
    || (mine && q.pc == Resumed(Nap(n)) && r.pc.Free?)
    || (!mine && q.pc == Parked(Nap(n)) && r.pc == Resumed(Nap(n)))
  }

  ghost predicate Moves(s: State, c: nat, a: Action, n: nat, t: State) {
    |t.procs| == |s.procs| && forall k :: 0 <= k < |s.procs| ==> SlotMove(s, c, a, n, k, s.procs[k], t.procs[k])
  }

  /** Slots that are unused, being created or dead are in no sleep and not running. */
  lemma NotInUse(s: State, j: nat)
    requires Inv(s) && j < |s.procs|
    ensures s.procs[j].state.UNUSED? || s.procs[j].state.USED? ==>
      !Running(s.procs[j].pc) && !s.procs[j].pc.Parked?
    ensures s.procs[j].state.ZOMBIE? && s.procs[j].lock.None? ==> s.procs[j].pc == Parked(Dead)
  {
    hide Inv;
    SlotFits(s, j);
    if s.procs[j].state.ZOMBIE? && Running(s.procs[j].pc) {
      OwnLock(s, j);
    }
  }

  /** A change that has nothing to do with sleeping. */
  predicate Awake(q: Proc, r: Proc, mine: bool) {
    || (r.pc == q.pc && (r.pc.Parked? ==> r.state == q.state))
    || (!Sleepy(q.pc) && !Sleepy(r.pc) && (mine || !Running(q.pc)))
  }

  predicate Sleepy(pc: Pc) {
    (pc.Locked? || pc.Leaving? || pc.Parked? || pc.Resumed?) && pc.why.Nap?
  }

  /** Thread p's step changes slots p and j only, and has nothing to do with sleeping. */
  ghost predicate TwoSlots(s: State, t: State, p: nat, j: nat) {
    && p < |s.procs| == |t.procs| && j < |s.procs|
    && (forall k :: 0 <= k < |s.procs| && k != p && k != j ==> t.procs[k] == s.procs[k])
    && Awake(s.procs[p], t.procs[p], true) && Awake(s.procs[j], t.procs[j], j == p)
  }

  lemma TwoMoves(s: State, c: nat, a: Action, n: nat, t: State, p: nat, j: nat)
    requires Runs(s, c, p) && TwoSlots(s, t, p, j)
    ensures Moves(s, c, a, n, t)
  {
  }

  predicate ForkPc(pc: Pc) {
    pc.ForkAlloc? || pc.ForkNew? || pc.ForkParent? || pc.ForkReady? || pc.ForkRun?
  }

  lemma ForkMoves(s: State, c: nat, p: nat, a: Action, n: nat)
    requires Inv(s) && Runs(s, c, p) && InRange(s.procs[p].pc, |s.procs|) && ForkStep(s, c, p, a).Next?
    requires ForkPc(s.procs[p].pc)
    ensures Moves(s, c, a, n, ForkStep(s, c, p, a).state)
  {
    hide Inv, Fits, Moves, ForkStep, TwoSlots;
    var np := s.procs[p].pc.np;
    if ForkOf(s.procs[p].pc).Some? {
      ForkFacts(s, c, p);
      NotInUse(s, np);
    }
    ForkSlots(s, c, p, a);
    TwoMoves(s, c, a, n, ForkStep(s, c, p, a).state, p, np);
  }

  lemma ForkSlots(s: State, c: nat, p: nat, a: Action)
    requires Runs(s, c, p) && InRange(s.procs[p].pc, |s.procs|) && ForkStep(s, c, p, a).Next?
    requires ForkPc(s.procs[p].pc)
    requires var np := s.procs[p].pc.np;
      ForkOf(s.procs[p].pc).Some? ==> np != p && !Running(s.procs[np].pc) && !s.procs[np].pc.Parked?
    ensures TwoSlots(s, ForkStep(s, c, p, a).state, p, s.procs[p].pc.np)
  {
  }

  lemma ExitMoves(s: State, c: nat, p: nat, a: Action, n: nat)
    requires Inv(s) && Runs(s, c, p) && InRange(s.procs[p].pc, |s.procs|) && ExitStep(s, c, p).Next?
    ensures Moves(s, c, a, n, ExitStep(s, c, p).state)
  {
    hide Inv, Fits;
  }

  lemma WakeMoves(s: State, c: nat, p: nat, a: Action, n: nat)
    requires Inv(s) && Runs(s, c, p) && InRange(s.procs[p].pc, |s.procs|) && WakeStep(s, c, p).Next?
    ensures Moves(s, c, a, n, WakeStep(s, c, p).state)
  {
    hide Inv, Fits;
  }

  lemma KillMoves(s: State, c: nat, p: nat, a: Action, n: nat)
    requires Inv(s) && Runs(s, c, p) && InRange(s.procs[p].pc, |s.procs|) && KillStep(s, c, p).Next?
    ensures Moves(s, c, a, n, KillStep(s, c, p).state)
  {
    hide Inv, Fits;
  }

  lemma WaitMoves(s: State, c: nat, p: nat, a: Action, n: nat)
    requires Inv(s) && Runs(s, c, p) && InRange(s.procs[p].pc, |s.procs|) && WaitStep(s, c, p, a).Next?
    ensures Moves(s, c, a, n, WaitStep(s, c, p, a).state)
  {
    hide Inv, Fits, Moves, WaitStep, TwoSlots;
    var pc, t := s.procs[p].pc, WaitStep(s, c, p, a).state;
    if pc.WaitScan? && pc.i < |s.procs| {
      NotInUse(s, pc.i);
      WaitScanSlots(s, c, p, a);
      TwoMoves(s, c, a, n, t, p, pc.i);
    } else {
      WaitRestSlots(s, c, p, a);
      TwoMoves(s, c, a, n, t, p, if pc.WaitLook? || pc.WaitReap? then pc.i else p);
    }
  }

  lemma WaitScanSlots(s: State, c: nat, p: nat, a: Action)
    requires Runs(s, c, p) && s.procs[p].pc.WaitScan? && s.procs[p].pc.i < |s.procs| && WaitStep(s, c, p, a).Next?
    requires var q := s.procs[s.procs[p].pc.i]; q.state.ZOMBIE? && q.lock.None? ==> q.pc == Parked(Dead)
    ensures TwoSlots(s, WaitStep(s, c, p, a).state, p, s.procs[p].pc.i)
  {
  }

  lemma WaitRestSlots(s: State, c: nat, p: nat, a: Action)
    requires Runs(s, c, p) && InRange(s.procs[p].pc, |s.procs|) && WaitStep(s, c, p, a).Next?
    requires !(s.procs[p].pc.WaitScan? && s.procs[p].pc.i < |s.procs|)
    ensures var pc := s.procs[p].pc;
      TwoSlots(s, WaitStep(s, c, p, a).state, p, if pc.WaitLook? || pc.WaitReap? then pc.i else p)
  {
  }

  lemma CallMoves(s: State, c: nat, p: nat, a: Action, n: nat)
    requires Inv(s) && Runs(s, c, p) && s.procs[p].pc.Free? && CallStep(s, c, p, a).Next?
    ensures Moves(s, c, a, n, CallStep(s, c, p, a).state)
  {
    hide Inv, Fits, Moves, CallStep, TwoSlots;
    if a.CallSleep? {
      SleepMoves(s, c, p, a, n);
    } else {
      if a.CallFork? && a.np < |s.procs| { NotInUse(s, a.np); }
      CallSlots(s, c, p, a);
      TwoMoves(s, c, a, n, CallStep(s, c, p, a).state, p, if a.CallFork? then a.np else p);
    }
  }

  lemma SleepMoves(s: State, c: nat, p: nat, a: Action, n: nat)
    requires Runs(s, c, p) && s.procs[p].pc.Free? && a.CallSleep? && CallStep(s, c, p, a).Next?
    ensures Moves(s, c, a, n, CallStep(s, c, p, a).state)
  {
  }

  lemma CallSlots(s: State, c: nat, p: nat, a: Action)
    requires Runs(s, c, p) && s.procs[p].pc.Free? && !a.CallSleep? && CallStep(s, c, p, a).Next?
    requires a.CallFork? && a.np < |s.procs| && s.procs[a.np].state.UNUSED? ==>
      !Running(s.procs[a.np].pc) && !s.procs[a.np].pc.Parked?
    ensures TwoSlots(s, CallStep(s, c, p, a).state, p, if a.CallFork? then a.np else p)
  {
  }

  lemma ResumeMoves(s: State, c: nat, p: nat, a: Action, n: nat)
    requires Runs(s, c, p) && s.procs[p].pc.Resumed? && ResumeStep(s, c, p).Next?
    ensures Moves(s, c, a, n, ResumeStep(s, c, p).state)
  {
  }

  lemma SettleMoves(s: State, c: nat, p: nat, a: Action, n: nat)
    requires Runs(s, c, p) && s.procs[p].pc.Locked?
    ensures Moves(s, c, a, n, Edit(s, p, Settled(s.procs[p], p)))
  {
  }

  lemma SwitchMoves(s: State, c: nat, p: nat, a: Action, n: nat)
    requires Runs(s, c, p) && s.procs[p].pc.Leaving? && SchedCall(s, c, p).Next?
    ensures Moves(s, c, a, n, SchedCall(s, c, p).state)
  {
  }

  /** The scheduler resumes threads that are parked or new. */
  lemma SchedMoves(s: State, c: nat, a: Action, n: nat)
    requires Inv(s) && c < |s.cpus| && s.cpus[c].at.k < |s.procs| && !s.cpus[c].at.Away? && SchedStep(s, c).Next?
    ensures Moves(s, c, a, n, SchedStep(s, c).state)
  {
    hide Inv;
    var k := s.cpus[c].at.k;
    SlotFits(s, k);
    if s.cpus[c].at.Look? && Running(s.procs[k].pc) && LockOf(s.procs[k].pc, k) == Some(k) { OwnLock(s, k); }
  }

  lemma ThreadMoves(s: State, c: nat, p: nat, a: Action, n: nat)
    requires Inv(s) && Runs(s, c, p) && InRange(s.procs[p].pc, |s.procs|) && ThreadStep(s, c, p, a).Next?
    ensures Moves(s, c, a, n, ThreadStep(s, c, p, a).state)
  {
    hide Inv, InRange, CallStep, ResumeStep, SchedCall, ForkStep, ExitStep, WakeStep, KillStep, WaitStep, Settled;
    hide Moves;
    var pc := s.procs[p].pc;
    if pc.Free? { CallMoves(s, c, p, a, n); }
    else if pc.Resumed? { ResumeMoves(s, c, p, a, n); }
    else if pc.Locked? { SettleMoves(s, c, p, a, n); }
    else if pc.Leaving? { SwitchMoves(s, c, p, a, n); }
    else if ForkPc(pc) { ForkMoves(s, c, p, a, n); }
    else if pc.ExitScan? || pc.ExitGo? || pc.ExitLock? || pc.ExitHold? { ExitMoves(s, c, p, a, n); }
    else if pc.Waking? || pc.WakeHold? { WakeMoves(s, c, p, a, n); }
    else if pc.Killing? || pc.KillHold? { KillMoves(s, c, p, a, n); }
    else { WaitMoves(s, c, p, a, n); }
  }

  lemma DoMoves(s: State, c: nat, a: Action, n: nat)
    requires Inv(s) && Do(s, c, a).Next?
    ensures Moves(s, c, a, n, Do(s, c, a).state)
  {
    hide Inv, InRange, SchedStep, ThreadStep, Moves;
    if s.cpus[c].at.Away? {
      PlaceFacts(s, c, s.cpus[c].at.k);
      ThreadMoves(s, c, s.cpus[c].at.k, a, n);
    } else {
      SchedMoves(s, c, a, n);
    }
  }

  // ------------------------------------------------------------------------- the waker

  /** A step of wakeup(n) by thread h. */
  lemma WakerStep(s: State, c: nat, h: nat, a: Action, n: nat)
    requires Inv(s) && Runs(s, c, h) && WakePc(s.procs[h].pc, n) && Do(s, c, a).Next?
    ensures var t := Do(s, c, a).state; h < |t.procs| && (WakePc(t.procs[h].pc, n) || t.procs[h].pc.Free?)
  {
    hide Inv, Fits;
  }

  /** A slot that the loop has passed is awake: its lock was free, so it was asleep in full or not at all. */
  lemma WakerPasses(s: State, c: nat, h: nat, a: Action, n: nat, p: nat)
    requires Inv(s) && Runs(s, c, h) && WakePc(s.procs[h].pc, n) && Do(s, c, a).Next?
    requires p < |s.procs| && p != h && Ahead(s.procs[h].pc, p)
    ensures var t := Do(s, c, a).state;
      |t.procs| == |s.procs| && (Unwoken(t.procs[p], n) ==> Ahead(t.procs[h].pc, p))
  {
    hide Inv;
    SlotFits(s, p);
    if NapPc(s.procs[p].pc, n) && !s.procs[p].pc.Parked? { OwnLock(s, p); }
    hide Fits, InRange;
    PlaceFacts(s, c, h);
  }

  // ------------------------------------------------------------------- one step of proc.c

  lemma ActPlaces(m: Machine, c: nat, a: Action, p: nat)
    requires Safe(m) && Do(m.s, c, a).Next? && p < |m.at| && Moves(m.s, c, a, m.n, Do(m.s, c, a).state)
    requires m.s.cpus[c].at.Away? ==> m.s.cpus[c].at.k < |m.at| && MayAct(m, m.s.cpus[c].at.k, a)
    ensures var m2 := m.(s := Do(m.s, c, a).state); Shaped(m2) && PlaceOk(m2, p)
  {
    hide Inv, Do;
    assert PlaceOk(m, p);
    assert SlotMove(m.s, c, a, m.n, p, m.s.procs[p], Do(m.s, c, a).state.procs[p]);
    if m.at[p].Wake? && Runs(m.s, c, p) && WakePc(m.s.procs[p].pc, m.n) { WakerStep(m.s, c, p, a, m.n); }
  }

  lemma ActWakes(m: Machine, c: nat, a: Action, p: nat)
    requires Safe(m) && Do(m.s, c, a).Next? && p < |m.at| && Moves(m.s, c, a, m.n, Do(m.s, c, a).state)
    requires m.s.cpus[c].at.Away? ==> m.s.cpus[c].at.k < |m.at| && MayAct(m, m.s.cpus[c].at.k, a)
    ensures var m2 := m.(s := Do(m.s, c, a).state);
      Shaped(m2) && (Unwoken(m2.s.procs[p], m.n) ==> m.locked || Coming(m2, p))
  {
    hide Inv, Do;
    var t := Do(m.s, c, a).state;
    assert PlaceOk(m, p);
    assert SlotMove(m.s, c, a, m.n, p, m.s.procs[p], t.procs[p]);
    if Unwoken(t.procs[p], m.n) && !m.locked {
      assert Unwoken(m.s.procs[p], m.n);
      assert Coming(m, p);
      var h := m.lk.value;
      assert PlaceOk(m, h);
      assert SlotMove(m.s, c, a, m.n, h, m.s.procs[h], t.procs[h]);
      if Runs(m.s, c, h) { WakerPasses(m.s, c, h, a, m.n, p); }
    }
  }

  lemma ActSafe(m: Machine, c: nat, a: Action)
    requires Safe(m) && Step(m, c, Act(a)).Some?
    ensures Safe(Step(m, c, Act(a)).value)
  {
    hide Inv, Do, MayAct, PlaceOk, Coming, Unwoken, Moves;
    StepInv(m.s, c, a);
    DoMoves(m.s, c, a, m.n);
    var m2 := m.(s := Do(m.s, c, a).state);
    assert Shaped(m2) by { SameSize(m.s, c, a, m.n); }
    forall p | 0 <= p < |m2.at| ensures PlaceOk(m2, p) && (Unwoken(m2.s.procs[p], m.n) ==> m.locked || Coming(m2, p)) {
      ActPlaces(m, c, a, p);
      ActWakes(m, c, a, p);
    }
  }

  lemma SameSize(s: State, c: nat, a: Action, n: nat)
    requires Do(s, c, a).Next? && Moves(s, c, a, n, Do(s, c, a).state)
    ensures |Do(s, c, a).state.procs| == |s.procs|
  {
    hide Do;
  }

  // ------------------------------------------------------------- one step of the sleeplock

  /** sleep's acquire of p->lock, by a thread that has seen the lock held. */
  lemma CallSleepSafe(m: Machine, c: nat, p: nat)
    requires Safe(m) && Runs(m.s, c, p) && m.at[p].Test? && m.locked && Do(m.s, c, CallSleep(m.n)).Next?
    ensures Safe(m.(s := Do(m.s, c, CallSleep(m.n)).state, at := m.at[p := Drop]))
  {
    hide Inv, Coming;
    assert PlaceOk(m, p);
    StepInv(m.s, c, CallSleep(m.n));
    PlaceFacts(m.s, c, p);
    var m2 := m.(s := Do(m.s, c, CallSleep(m.n)).state, at := m.at[p := Drop]);
    assert forall q :: 0 <= q < |m.at| && q != p ==> m2.s.procs[q] == m.s.procs[q];
    assert m2.s.procs[p].pc == Locked(Nap(m.n));
    hide Do;
    forall q | 0 <= q < |m.at| ensures PlaceOk(m2, q) {
      assert PlaceOk(m, q);
    }
  }

  /** releasesleep: locked is cleared and the loop of wakeup is at its start. */
  lemma CallWakeupSafe(m: Machine, c: nat, p: nat)
    requires Safe(m) && Runs(m.s, c, p) && m.at[p].Out? && m.lk.None? && m.s.procs[p].pc.Free?
    requires Do(m.s, c, CallWakeup(m.n)).Next?
    ensures Safe(Machine(Do(m.s, c, CallWakeup(m.n)).state, m.n, Some(p), false, m.at[p := Wake], m.inside - {p}))
  {
    hide Inv;
    StepInv(m.s, c, CallWakeup(m.n));
    PlaceFacts(m.s, c, p);
    var m2 := Machine(Do(m.s, c, CallWakeup(m.n)).state, m.n, Some(p), false, m.at[p := Wake], m.inside - {p});
    assert forall q :: 0 <= q < |m.at| && q != p ==> m2.s.procs[q] == m.s.procs[q];
    assert m2.s.procs[p].pc == Waking(0, Other(m.n), Plain);
    hide Do;
    forall q | 0 <= q < |m.at| ensures PlaceOk(m2, q) && Coming(m2, q) {
      assert PlaceOk(m, q);
    }
  }

  /** Taking or giving back lk->lk and setting locked, with the process table as it is. */
  lemma LocalSafe(m: Machine, p: nat, m2: Machine)
    requires Safe(m) && p < |m.at| == |m2.at| && (m.locked ==> m2.locked)
    requires m2 == m.(lk := m2.lk, locked := m2.locked, at := m.at[p := m2.at[p]], inside := m2.inside)
    requires PlaceOk(m2, p)
    requires (m.lk.None? && m2.lk == Some(p)) || (m.lk == Some(p) && (m2.lk.None? || m2.lk == m.lk))
    requires m.lk == Some(p) ==> forall q :: !Ahead(m.s.procs[p].pc, q)
    ensures Safe(m2)
  {
    hide Inv, NapPc, WakePc, Unwoken, Ahead;
    assert m.lk == Some(p) ==> forall q :: !Coming(m, q);
    forall q | 0 <= q < |m.at| ensures PlaceOk(m2, q) {
      assert PlaceOk(m, q);
    }
    forall q | 0 <= q < |m2.at| && Unwoken(m2.s.procs[q], m2.n) ensures m2.locked {
    }
  }

  lemma SleepSafe(m: Machine, c: nat, p: nat, v: Move)
    requires Safe(m) && Runs(m.s, c, p) && SleepStep(m, c, p, v).Some?
    ensures Safe(SleepStep(m, c, p, v).value)
  {
    hide Inv, Do;
    assert PlaceOk(m, p);
    hide Safe;
    if v.Release? {
      CallWakeupSafe(m, c, p);
    } else if v.Loop? && m.locked {
      CallSleepSafe(m, c, p);
    } else {
      LocalSafe(m, p, SleepStep(m, c, p, v).value);
    }
  }

  lemma StepSafe(m: Machine, c: nat, v: Move)
    requires Safe(m) && Step(m, c, v).Some?
    ensures Safe(Step(m, c, v).value)
  {
    hide Inv, Do, SleepStep, PlaceOk, Coming, Unwoken;
    if v.Act? {
      ActSafe(m, c, v.a);
    } else {
      SleepSafe(m, c, m.s.cpus[c].at.k, v);
    }
  }

  // ------------------------------------------------------------------------ the theorem

  /** After boot, the sleeplock as initsleeplock leaves it. */
  ghost predicate Start(m: Machine) {
    && Boot(m.s) && Shaped(m) && m.lk.None? && !m.locked && m.inside == {}
    && forall p :: 0 <= p < |m.at| ==> m.at[p].Out?
  }

  ghost predicate SleepRun(run: seq<Machine>, cpu: seq<nat>, mv: seq<Move>) {
    && |run| == |cpu| + 1 == |mv| + 1 && Start(run[0])
    && forall i :: 0 <= i < |cpu| ==> Shaped(run[i]) && Step(run[i], cpu[i], mv[i]) == Some(run[i + 1])
  }

  lemma {:induction false} RunSafe(run: seq<Machine>, cpu: seq<nat>, mv: seq<Move>, i: nat)
    requires SleepRun(run, cpu, mv) && i < |run|
    ensures Safe(run[i])
  {
    hide Inv, Do, Step;
    if i == 0 {
      BootInv(run[0].s);
      hide Boot;
      assert forall p :: 0 <= p < |run[0].at| ==> PlaceOk(run[0], p);
    } else {
      hide Safe, Start;
      RunSafe(run, cpu, mv, i - 1);
      assert Step(run[i - 1], cpu[i - 1], mv[i - 1]) == Some(run[i - 1 + 1]);
      StepSafe(run[i - 1], cpu[i - 1], mv[i - 1]);
    }
  }

  /** While lk->lk is free, a thread asleep on a sleeplock means that the sleeplock is held. */
  lemma NoLostSleepWakeup(run: seq<Machine>, cpu: seq<nat>, mv: seq<Move>, i: nat, p: nat)
    requires SleepRun(run, cpu, mv) && i < |run| && p < |run[i].s.procs| && run[i].lk.None?
    requires run[i].s.procs[p].state.SLEEPING? && run[i].s.procs[p].chan == Other(run[i].n)
    ensures run[i].locked
  {
    RunSafe(run, cpu, mv, i);
    SlotFits(run[i].s, p);
    hide Inv, SleepRun;
    assert Unwoken(run[i].s.procs[p], run[i].n);
  }

  /** lk->lk is held by at most one thread, and then by one inside the sleeplock's functions. */
  lemma LkExclusive(run: seq<Machine>, cpu: seq<nat>, mv: seq<Move>, i: nat, p: nat)
    requires SleepRun(run, cpu, mv) && i < |run| && p < |run[i].at|
    ensures HoldsLk(run[i].at[p]) <==> run[i].lk == Some(p)
  {
    RunSafe(run, cpu, mv, i);
    hide Inv, SleepRun;
    assert PlaceOk(run[i], p);
  }

  /** Only who has the sleeplock calls releasesleep. */
  ghost predicate Orderly(run: seq<Machine>, cpu: seq<nat>, mv: seq<Move>) {
    && SleepRun(run, cpu, mv)
    && forall i :: 0 <= i < |mv| && mv[i].Release? && cpu[i] < |run[i].s.cpus| ==>
         run[i].s.cpus[cpu[i]].at.k in run[i].inside
  }

  ghost predicate OneInside(m: Machine) {
    (m.locked <==> m.inside != {}) && forall p, q :: p in m.inside && q in m.inside ==> p == q
  }

  lemma StepInside(m: Machine, c: nat, v: Move)
    requires Shaped(m) && Step(m, c, v).Some? && OneInside(m)
    requires v.Release? ==> m.s.cpus[c].at.k in m.inside
    ensures OneInside(Step(m, c, v).value)
  {
    hide Do;
  }

  /** The sleeplock excludes: between acquiresleep and releasesleep there is at most one thread, and then it is held. */
  lemma {:induction false} AtMostOneInside(run: seq<Machine>, cpu: seq<nat>, mv: seq<Move>, i: nat)
    requires Orderly(run, cpu, mv) && i < |run|
    ensures OneInside(run[i])
  {
    hide Do, Step, Boot, OneInside;
    if i == 0 {
      NobodyInside(run[0]);
    } else {
      AtMostOneInside(run, cpu, mv, i - 1);
      assert Step(run[i - 1], cpu[i - 1], mv[i - 1]) == Some(run[i - 1 + 1]);
      StepHasCpu(run[i - 1], cpu[i - 1], mv[i - 1]);
      StepInside(run[i - 1], cpu[i - 1], mv[i - 1]);
    }
  }

  lemma NobodyInside(m: Machine)
    requires Start(m)
    ensures OneInside(m)
  {
    hide Boot;
  }

  lemma StepHasCpu(m: Machine, c: nat, v: Move)
    requires Shaped(m) && Step(m, c, v).Some?
    ensures c < |m.s.cpus|
  {
    hide Do, SleepStep;
  }
}
