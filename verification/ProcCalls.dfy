module ProcCalls {
  // What fork, exit, wait, kill and wakeup answer and do, in every interleaving.

  import opened Wrappers
  import opened ProcState
  import opened ProcMoves
  import opened ProcEdits
  import opened ProcSwitch
  import opened ProcSteps
  import opened ProcProof
  import opened SleepProof

  // ------------------------------------------------------- what a step may do to each slot

  /** CPU c runs a thread whose wakeup or kill is at slot k and finds it. */
  predicate WokenBy(s: State, c: nat, k: nat, q: Proc) {
    && c < |s.cpus| && s.cpus[c].at.Away? && s.cpus[c].at.k < |s.procs|
    && var pc := s.procs[s.cpus[c].at.k].pc;
       (pc.Waking? && pc.j == k && pc.chan == q.chan) || (pc.Killing? && pc.j == k && pc.pid == q.pid)
  }

  /** The exit status a thread at pc carries. */
  function StatusOf(pc: Pc): Option<int> {
    match pc
    case ExitScan(_, st) => Some(st)
    case Waking(_, _, ct) => if ct.Plain? then None else Some(ct.status)
    case WakeHold(_, _, ct) => if ct.Plain? then None else Some(ct.status)
    case ExitGo(st) => Some(st)
    case ExitLock(st) => Some(st)
    case _ => None
  }

  /** Nobody else moves a running thread; only new and parked ones come to run. */
  predicate PcRule(q: Proc, r: Proc, mine: bool) {
    r.pc == q.pc || (mine && Flow(q.pc, r.pc)) || (!Running(q.pc) && (r.pc.Idle? || r.pc.Born? || r.pc.Resumed?))
  }

  /** From where the places of wait, kill and fork are reached. */
  predicate Flow(a: Pc, b: Pc) {
    match b
    case WaitScan(i, have) => have || i == 0 || a == WaitScan(i - 1, false)
    case WaitReap(_) => a.WaitScan?
    case WaitEnd => a.WaitReap?
    case KillHold(j, pid, _) => a == Killing(j, pid)
    case ForkRun(np) => a == ForkReady(np)
    case _ => true
  }

  /** Only with wait_lock are parents set, only wakeup and kill end a sleep, only exit gives a status. */
  predicate SlotRule(s: State, c: nat, a: Action, k: nat, q: Proc, r: Proc) {
    && PcRule(q, r, Runs(s, c, k))
    && (r.parent == q.parent || r.parent.None? || s.waitLock.None? || s.waitLock == Some(c))
    && (Running(q.pc) ==> r.pid == q.pid)
    && (q.state.SLEEPING? ==> r.state.SLEEPING? || (r.state.RUNNABLE? && WokenBy(s, c, k, q)))
    && (StatusOf(r.pc).Some? ==>
         StatusOf(q.pc) == StatusOf(r.pc) || (Runs(s, c, k) && q.pc.Free? && a == CallExit(StatusOf(r.pc).value)))
  }

  /** exited grows by a dying thread's status, delivered by a zombie child's. */
  predicate RecordRule(s: State, c: nat, a: Action, t: State) {
    && (t.exited == s.exited || Dying(s, c, t))
    && (t.delivered == s.delivered || Reaping(s, c, a, t))
  }

  predicate Dying(s: State, c: nat, t: State) {
    && c < |s.cpus| && s.cpus[c].at.Away? && s.cpus[c].at.k < |s.procs|
    && var q := s.procs[s.cpus[c].at.k]; q.pc.ExitLock? && t.exited == s.exited[q.pid := q.pc.status]
  }

  predicate Reaping(s: State, c: nat, a: Action, t: State) {
    && c < |s.cpus| && s.cpus[c].at.Away? && s.cpus[c].at.k < |s.procs| == |t.procs|
    && var p := s.cpus[c].at.k;
       s.procs[p].pc.WaitScan? && t.procs[p].pc == WaitReap(s.procs[p].pc.i) && TookZombie(s, a, t, p, s.procs[p].pc.i)
       && !a.CopyFails?
  }

  /** p took zombie child k: unless the copy failed its pid and status are handed over and it is gone. */
  predicate TookZombie(s: State, a: Action, t: State, p: nat, k: nat) {
    && k < |s.procs| == |t.procs| && s.procs[k].parent == Some(p) && s.procs[k].state.ZOMBIE?
    && if a.CopyFails? then t.delivered == s.delivered && t.procs[k].state.ZOMBIE?
       else t.delivered == s.delivered + [(s.procs[k].pid, s.procs[k].xstate)] && t.procs[k].state.UNUSED?
  }

  ghost predicate Rules(s: State, c: nat, a: Action, t: State) {
    && |t.procs| == |s.procs| && RecordRule(s, c, a, t)
    && forall k :: 0 <= k < |s.procs| ==> SlotRule(s, c, a, k, s.procs[k], t.procs[k])
  }

  /** A change that the rules allow to anybody. */
  predicate Plainly(s: State, c: nat, q: Proc, r: Proc, mine: bool) {
    && PcRule(q, r, mine)
    && (r.parent == q.parent || r.parent.None? || s.waitLock.None? || s.waitLock == Some(c))
    && (Running(q.pc) ==> r.pid == q.pid)
    && (q.state.SLEEPING? ==> r.state.SLEEPING?) && (StatusOf(r.pc).None? || StatusOf(r.pc) == StatusOf(q.pc))
  }

  /** Only slots p and j change, in such a way. */
  ghost predicate TwoPlain(s: State, c: nat, t: State, p: nat, j: nat) {
    && p < |s.procs| == |t.procs| && j < |s.procs|
    && (forall k :: 0 <= k < |s.procs| && k != p && k != j ==> t.procs[k] == s.procs[k])
    && Plainly(s, c, s.procs[p], t.procs[p], true) && Plainly(s, c, s.procs[j], t.procs[j], j == p)
  }

  lemma TwoRules(s: State, c: nat, a: Action, t: State, p: nat, j: nat)
    requires Runs(s, c, p) && TwoPlain(s, c, t, p, j) && RecordRule(s, c, a, t)
    ensures Rules(s, c, a, t)
  {
  }

  /** A step that changes slots p and j only, by the rules. */
  lemma PairRules(s: State, c: nat, a: Action, t: State, p: nat, j: nat)
    requires p < |s.procs| == |t.procs| && j < |s.procs| && t.exited == s.exited && t.delivered == s.delivered
    requires forall k :: 0 <= k < |s.procs| && k != p && k != j ==> t.procs[k] == s.procs[k]
    requires SlotRule(s, c, a, p, s.procs[p], t.procs[p]) && SlotRule(s, c, a, j, s.procs[j], t.procs[j])
    ensures Rules(s, c, a, t)
  {
  }

  lemma ForkRules(s: State, c: nat, p: nat, a: Action)
    requires Inv(s) && Runs(s, c, p) && InRange(s.procs[p].pc, |s.procs|) && ForkStep(s, c, p, a).Next?
    requires ForkPc(s.procs[p].pc)
    ensures Rules(s, c, a, ForkStep(s, c, p, a).state)
  {
    hide Inv, Fits, ForkStep, Rules, TwoPlain;
    var np := s.procs[p].pc.np;
    if ForkOf(s.procs[p].pc).Some? {
      ForkFacts(s, c, p);
      NotInUse(s, np);
    }
    ForkPlain(s, c, p, a);
    TwoRules(s, c, a, ForkStep(s, c, p, a).state, p, np);
  }

  lemma ForkPlain(s: State, c: nat, p: nat, a: Action)
    requires Runs(s, c, p) && InRange(s.procs[p].pc, |s.procs|) && ForkStep(s, c, p, a).Next?
    requires ForkPc(s.procs[p].pc)
    requires var np := s.procs[p].pc.np;
      ForkOf(s.procs[p].pc).Some? ==> np != p && !Running(s.procs[np].pc) && s.procs[np].state.USED?
    ensures var t := ForkStep(s, c, p, a).state;
      TwoPlain(s, c, t, p, s.procs[p].pc.np) && t.exited == s.exited && t.delivered == s.delivered
  {
  }

  lemma ExitRules(s: State, c: nat, p: nat, a: Action)
    requires Inv(s) && Runs(s, c, p) && InRange(s.procs[p].pc, |s.procs|) && ExitStep(s, c, p).Next?
    ensures Rules(s, c, a, ExitStep(s, c, p).state)
  {
    hide Inv, Fits, ExitStep, Rules, TwoPlain, InRange, Running;
    ThreadFacts(s, c, p);
    var pc := s.procs[p].pc;
    SlotFits(s, p);
    AwakeAt(s, p);
    if pc.ExitScan? {
      assert pc.i <= |s.procs| by { ScanRange(s, p); }
      ScanPlain(s, c, p);
      TwoRules(s, c, a, ExitStep(s, c, p).state, p, if pc.i < |s.procs| then pc.i else p);
    } else {
      ExitPlain(s, c, p, a);
      TwoRules(s, c, a, ExitStep(s, c, p).state, p, p);
    }
  }

  lemma AwakeAt(s: State, p: nat)
    requires p < |s.procs| && Fits(s.procs[p], p)
    ensures s.procs[p].pc.ExitScan? || s.procs[p].pc.ExitGo? || s.procs[p].pc.ExitLock? ==> !s.procs[p].state.SLEEPING?
  {
  }

  lemma ScanRange(s: State, p: nat)
    requires p < |s.procs| && InRange(s.procs[p].pc, |s.procs|) && s.procs[p].pc.ExitScan?
    ensures s.procs[p].pc.i <= |s.procs|
  {
  }

  lemma ScanPlain(s: State, c: nat, p: nat)
    requires Runs(s, c, p) && s.procs[p].pc.ExitScan? && s.procs[p].pc.i <= |s.procs| && ExitStep(s, c, p).Next?
    requires s.waitLock == Some(c) && !s.procs[p].state.SLEEPING?
    ensures var i, t := s.procs[p].pc.i, ExitStep(s, c, p).state;
      && TwoPlain(s, c, t, p, if i < |s.procs| then i else p)
      && t.exited == s.exited && t.delivered == s.delivered
  {
  }

  lemma ExitPlain(s: State, c: nat, p: nat, a: Action)
    requires Runs(s, c, p) && InRange(s.procs[p].pc, |s.procs|) && ExitStep(s, c, p).Next? && !s.procs[p].pc.ExitScan?
    requires s.procs[p].pc.ExitLock? ==> !s.procs[p].state.SLEEPING?
    ensures var t := ExitStep(s, c, p).state; TwoPlain(s, c, t, p, p) && RecordRule(s, c, a, t)
  {
  }

  lemma WakeRules(s: State, c: nat, p: nat, a: Action)
    requires Runs(s, c, p) && InRange(s.procs[p].pc, |s.procs|) && WakeStep(s, c, p).Next?
    ensures Rules(s, c, a, WakeStep(s, c, p).state)
  {
    hide Rules;
    if s.procs[p].pc.Waking? {
      WakingRules(s, c, p, a);
    } else if s.procs[p].pc.WakeHold? {
      TwoRules(s, c, a, WakeStep(s, c, p).state, p, s.procs[p].pc.j);
    }
  }

  lemma WakingRules(s: State, c: nat, p: nat, a: Action)
    requires Runs(s, c, p) && InRange(s.procs[p].pc, |s.procs|) && WakeStep(s, c, p).Next? && s.procs[p].pc.Waking?
    ensures Rules(s, c, a, WakeStep(s, c, p).state)
  {
    hide Rules;
    var j := s.procs[p].pc.j;
    PairRules(s, c, a, WakeStep(s, c, p).state, p, if j < |s.procs| then j else p);
  }

  lemma KillRules(s: State, c: nat, p: nat, a: Action)
    requires Runs(s, c, p) && InRange(s.procs[p].pc, |s.procs|) && KillStep(s, c, p).Next?
    ensures Rules(s, c, a, KillStep(s, c, p).state)
  {
    hide Rules;
    if s.procs[p].pc.Killing? {
      KillingRules(s, c, p, a);
    } else if s.procs[p].pc.KillHold? {
      TwoRules(s, c, a, KillStep(s, c, p).state, p, s.procs[p].pc.j);
    }
  }

  lemma KillingRules(s: State, c: nat, p: nat, a: Action)
    requires Runs(s, c, p) && InRange(s.procs[p].pc, |s.procs|) && KillStep(s, c, p).Next? && s.procs[p].pc.Killing?
    ensures Rules(s, c, a, KillStep(s, c, p).state)
  {
    hide Rules;
    var j := s.procs[p].pc.j;
    PairRules(s, c, a, KillStep(s, c, p).state, p, if j < |s.procs| then j else p);
  }

  lemma WaitRules(s: State, c: nat, p: nat, a: Action)
    requires Inv(s) && Runs(s, c, p) && InRange(s.procs[p].pc, |s.procs|) && WaitStep(s, c, p, a).Next?
    ensures Rules(s, c, a, WaitStep(s, c, p, a).state)
  {
    hide Inv, Fits, WaitStep, Rules, TwoPlain;
    var pc, t := s.procs[p].pc, WaitStep(s, c, p, a).state;
    if pc.WaitScan? && pc.i < |s.procs| {
      WaitScanFacts(s, c, p, pc.i);
      WaitScanPlain(s, c, p, a);
      TwoRules(s, c, a, t, p, pc.i);
    } else {
      WaitRestPlain(s, c, p, a);
      TwoRules(s, c, a, t, p, if pc.WaitLook? || pc.WaitReap? then pc.i else p);
    }
  }

  lemma WaitScanFacts(s: State, c: nat, p: nat, k: nat)
    requires Inv(s) && Runs(s, c, p) && k < |s.procs|
    ensures s.procs[k].state.ZOMBIE? && s.procs[k].lock.None? ==> !Running(s.procs[k].pc)
    ensures s.procs[k].parent == Some(p) ==> k != p
  {
    assert ParentOk(s, k);
    hide Inv;
    NotInUse(s, k);
  }

  /** What the scan does at slot k. */
  lemma ScanCases(s: State, c: nat, p: nat, a: Action)
    requires Runs(s, c, p) && s.procs[p].pc.WaitScan? && s.procs[p].pc.i < |s.procs| && WaitStep(s, c, p, a).Next?
    ensures var pc, k, t := s.procs[p].pc, s.procs[p].pc.i, WaitStep(s, c, p, a).state;
      if s.procs[k].parent != Some(p) then t == Goto(s, p, WaitScan(k + 1, pc.have))
      else
        && s.procs[k].lock.None?
        && if !s.procs[k].state.ZOMBIE? then t == LockedBy(s, c, p, k, WaitLook(k))
           else if a.CopyFails? then t == LockedBy(s, c, p, k, WaitReap(k))
           else t == Reaped(LockedBy(s, c, p, k, WaitReap(k)), k)
  {
    hide Reaped, Goto;
  }

  /** Slot k locked by thread p, which goes to pc. */
  function LockedBy(s: State, c: nat, p: nat, k: nat, pc: Pc): (t: State)
    requires p < |s.procs| && k < |s.procs|
    ensures |t.procs| == |s.procs|
  {
    SetLock(Goto(s, p, pc), k, Some(c))
  }

  lemma WaitScanPlain(s: State, c: nat, p: nat, a: Action)
    requires Runs(s, c, p) && s.procs[p].pc.WaitScan? && s.procs[p].pc.i < |s.procs| && WaitStep(s, c, p, a).Next?
    requires var k := s.procs[p].pc.i; var q := s.procs[k];
      (q.state.ZOMBIE? && q.lock.None? ==> !Running(q.pc)) && (q.parent == Some(p) ==> k != p)
    ensures var t := WaitStep(s, c, p, a).state; TwoPlain(s, c, t, p, s.procs[p].pc.i) && RecordRule(s, c, a, t)
  {
    hide WaitStep, Goto, LockedBy, Reaped, TwoPlain;
    var k := s.procs[p].pc.i;
    ScanCases(s, c, p, a);
    if s.procs[k].parent != Some(p) {
      GotoPlain(s, c, p, k);
    } else if !s.procs[k].state.ZOMBIE? {
      LockPlain(s, c, p, k, WaitLook(k));
    } else {
      LockPlain(s, c, p, k, WaitReap(k));
      if !a.CopyFails? { ReapPlain(s, c, p, a, k); }
    }
  }

  lemma GotoPlain(s: State, c: nat, p: nat, k: nat)
    requires Runs(s, c, p) && k < |s.procs| && s.procs[p].pc.WaitScan? && s.procs[p].pc.i == k
    ensures var t := Goto(s, p, WaitScan(k + 1, s.procs[p].pc.have));
      TwoPlain(s, c, t, p, k) && t.exited == s.exited && t.delivered == s.delivered
  {
  }

  lemma LockPlain(s: State, c: nat, p: nat, k: nat, pc: Pc)
    requires p < |s.procs| && k < |s.procs| && k != p && s.procs[p].pc.WaitScan? && (pc.WaitLook? || pc.WaitReap?)
    ensures var t := LockedBy(s, c, p, k, pc);
      TwoPlain(s, c, t, p, k) && t.exited == s.exited && t.delivered == s.delivered
  {
    LockSlots(s, c, p, k, pc);
    hide SetLock, Goto;
  }

  lemma ReapPlain(s: State, c: nat, p: nat, a: Action, k: nat)
    requires Runs(s, c, p) && k < |s.procs| && k != p && s.procs[p].pc.WaitScan? && s.procs[p].pc.i == k
    requires s.procs[k].parent == Some(p) && s.procs[k].state.ZOMBIE? && !Running(s.procs[k].pc) && !a.CopyFails?
    ensures var t := Reaped(LockedBy(s, c, p, k, WaitReap(k)), k);
      TwoPlain(s, c, t, p, k) && RecordRule(s, c, a, t) && TookZombie(s, a, t, p, k)
  {
    ReapSlots(s, c, p, k);
    hide Reaped, SetLock, Goto, LockedBy;
  }

  /** Slot k locked by a thread that goes to pc. */
  lemma LockSlots(s: State, c: nat, p: nat, k: nat, pc: Pc)
    requires p < |s.procs| && k < |s.procs| && k != p
    ensures var t := LockedBy(s, c, p, k, pc);
      && t == s.(procs := t.procs) && |t.procs| == |s.procs|
      && t.procs[p] == s.procs[p].(pc := pc) && t.procs[k] == s.procs[k].(lock := Some(c))
      && forall j :: 0 <= j < |s.procs| && j != p && j != k ==> t.procs[j] == s.procs[j]
  {
  }

  lemma ReapSlots(s: State, c: nat, p: nat, k: nat)
    requires p < |s.procs| && k < |s.procs| && k != p
    ensures var t := Reaped(LockedBy(s, c, p, k, WaitReap(k)), k);
      && t.exited == s.exited && t.delivered == s.delivered + [(s.procs[k].pid, s.procs[k].xstate)]
      && |t.procs| == |s.procs| && t.procs[p] == s.procs[p].(pc := WaitReap(k))
      && t.procs[k] == Emptied(s.procs[k].(lock := Some(c)))
      && forall j :: 0 <= j < |s.procs| && j != p && j != k ==> t.procs[j] == s.procs[j]
  {
    hide Emptied;
  }

  lemma WaitRestPlain(s: State, c: nat, p: nat, a: Action)
    requires Runs(s, c, p) && InRange(s.procs[p].pc, |s.procs|) && WaitStep(s, c, p, a).Next?
    requires !(s.procs[p].pc.WaitScan? && s.procs[p].pc.i < |s.procs|)
    ensures var pc, t := s.procs[p].pc, WaitStep(s, c, p, a).state;
      && TwoPlain(s, c, t, p, if pc.WaitLook? || pc.WaitReap? then pc.i else p)
      && t.exited == s.exited && t.delivered == s.delivered
  {
  }

  lemma CallRules(s: State, c: nat, p: nat, a: Action)
    requires Inv(s) && Runs(s, c, p) && s.procs[p].pc.Free? && CallStep(s, c, p, a).Next?
    ensures Rules(s, c, a, CallStep(s, c, p, a).state)
  {
    hide Inv, Fits;
    if a.CallFork? && a.np < |s.procs| { NotInUse(s, a.np); }
  }

  lemma ResumeRules(s: State, c: nat, p: nat, a: Action)
    requires Inv(s) && Runs(s, c, p) && s.procs[p].pc.Resumed? && ResumeStep(s, c, p).Next?
    ensures Rules(s, c, a, ResumeStep(s, c, p).state)
  {
    hide Inv;
    SlotFits(s, p);
  }

  lemma SettleRules(s: State, c: nat, p: nat, a: Action)
    requires Inv(s) && Runs(s, c, p) && s.procs[p].pc.Locked?
    ensures Rules(s, c, a, Edit(s, p, Settled(s.procs[p], p)))
  {
    hide Inv;
    SlotFits(s, p);
  }

  lemma SwitchRules(s: State, c: nat, p: nat, a: Action)
    requires Runs(s, c, p) && s.procs[p].pc.Leaving? && SchedCall(s, c, p).Next?
    ensures Rules(s, c, a, SchedCall(s, c, p).state)
  {
  }

  lemma SchedRules(s: State, c: nat, a: Action)
    requires Inv(s) && c < |s.cpus| && s.cpus[c].at.k < |s.procs| && !s.cpus[c].at.Away? && SchedStep(s, c).Next?
    ensures Rules(s, c, a, SchedStep(s, c).state)
  {
    hide Inv;
    var k := s.cpus[c].at.k;
    SlotFits(s, k);
    if s.cpus[c].at.Look? && Running(s.procs[k].pc) && LockOf(s.procs[k].pc, k) == Some(k) { OwnLock(s, k); }
  }

  lemma ThreadRules(s: State, c: nat, p: nat, a: Action)
    requires Inv(s) && Runs(s, c, p) && InRange(s.procs[p].pc, |s.procs|) && ThreadStep(s, c, p, a).Next?
    ensures Rules(s, c, a, ThreadStep(s, c, p, a).state)
  {
    hide Inv, InRange, CallStep, ResumeStep, SchedCall, ForkStep, ExitStep, WakeStep, KillStep, WaitStep, Settled;
    hide Rules;
    var pc := s.procs[p].pc;
    if pc.Free? { CallRules(s, c, p, a); }
    else if pc.Resumed? { ResumeRules(s, c, p, a); }
    else if pc.Locked? { SettleRules(s, c, p, a); }
    else if pc.Leaving? { SwitchRules(s, c, p, a); }
    else if ForkPc(pc) { ForkRules(s, c, p, a); }
    else if pc.ExitScan? || pc.ExitGo? || pc.ExitLock? || pc.ExitHold? { ExitRules(s, c, p, a); }
    else if pc.Waking? || pc.WakeHold? { WakeRules(s, c, p, a); }
    else if pc.Killing? || pc.KillHold? { KillRules(s, c, p, a); }
    else { WaitRules(s, c, p, a); }
  }

  lemma DoRules(s: State, c: nat, a: Action)
    requires Inv(s) && Do(s, c, a).Next?
    ensures Rules(s, c, a, Do(s, c, a).state)
  {
    hide Inv, InRange, SchedStep, ThreadStep, Rules;
    if s.cpus[c].at.Away? {
      PlaceFacts(s, c, s.cpus[c].at.k);
      ThreadRules(s, c, s.cpus[c].at.k, a);
    } else {
      SchedRules(s, c, a);
    }
  }

  // ------------------------------------------------------------------------ wait's answer

  /** A scan that has seen no child has passed none. */
  ghost predicate Seen(s: State, p: nat)
    requires p < |s.procs|
  {
    s.procs[p].pc.WaitScan? && !s.procs[p].pc.have ==>
      forall k :: 0 <= k < s.procs[p].pc.i && k < |s.procs| ==> s.procs[k].parent != Some(p)
  }

  lemma WaitHolder(s: State, c: nat, p: nat)
    requires Inv(s) && p < |s.procs| && Running(s.procs[p].pc) && HoldsWait(s.procs[p].pc) && !Runs(s, c, p)
    ensures s.waitLock.Some? && s.waitLock != Some(c)
  {
    hide Sized, Forks, Parents, Waits, Exits, Pids, Deliveries, HoldsWait, Running;
    assert OnOk(s, p);
    var d := s.procs[p].on.value;
    assert CpuOk(s, d);
    assert CpuWait(s, d);
  }

  lemma SeenOther(s: State, c: nat, a: Action, t: State, p: nat)
    requires Inv(s) && Rules(s, c, a, t) && p < |s.procs| && !Runs(s, c, p) && Seen(s, p)
    ensures p < |t.procs| && Seen(t, p)
  {
    hide Inv, Flow;
    assert SlotRule(s, c, a, p, s.procs[p], t.procs[p]);
    if t.procs[p].pc.WaitScan? {
      assert t.procs[p].pc == s.procs[p].pc;
      WaitHolder(s, c, p);
      forall k | 0 <= k < |s.procs| ensures t.procs[k].parent == s.procs[k].parent || t.procs[k].parent.None? {
        assert SlotRule(s, c, a, k, s.procs[k], t.procs[k]);
      }
    }
  }

  /** A scan goes past a slot that is no child. */
  lemma ScanOn(s: State, c: nat, p: nat, a: Action)
    requires Runs(s, c, p) && s.procs[p].pc.WaitScan? && s.procs[p].pc.i <= |s.procs| && WaitStep(s, c, p, a).Next?
    requires Seen(s, p)
    ensures var t := WaitStep(s, c, p, a).state; p < |t.procs| ==> Seen(t, p)
  {
  }

  lemma SeenMine(s: State, c: nat, a: Action, t: State, p: nat)
    requires Inv(s) && Runs(s, c, p) && Do(s, c, a) == Next(t) && Seen(s, p) && p < |t.procs|
    requires PcRule(s.procs[p], t.procs[p], true)
    ensures Seen(t, p)
  {
    hide Inv, Fits, SchedStep, CallStep, ForkStep, ExitStep, WakeStep, KillStep, WaitStep, SchedCall, ResumeStep;
    PlaceFacts(s, c, p);
    if s.procs[p].pc.WaitScan? { ScanOn(s, c, p, a); }
  }

  /** What a step of wait's loop means: it returns, sleeps or takes a zombie exactly when it should. */
  ghost predicate Outcomes(s: State, a: Action, t: State, p: nat)
    requires p < |s.procs| == |t.procs|
  {
    var pc := t.procs[p].pc;
    && (pc.Free? ==> !HasKid(s, p) || s.procs[p].killed)
    && (pc.WaitGo? ==> HasKid(s, p) && NoZombie(s, p, |s.procs|) && !s.procs[p].killed)
    && (pc.WaitReap? ==> TookZombie(s, a, t, p, pc.i))
    && (pc.Free? || pc.WaitGo? || pc.WaitReap? || pc.WaitScan? || pc.WaitLook?)
  }

  lemma WaitOutcomes(s: State, c: nat, a: Action, p: nat)
    requires Inv(s) && Runs(s, c, p) && s.procs[p].pc.WaitScan? && Seen(s, p) && Do(s, c, a).Next?
    requires |Do(s, c, a).state.procs| == |s.procs|
    ensures Outcomes(s, a, Do(s, c, a).state, p)
  {
    hide Inv;
    PlaceFacts(s, c, p);
    WaitFacts(s, p);
    if s.procs[p].pc.i < |s.procs| {
      WaitScanFacts(s, c, p, s.procs[p].pc.i);
      TakesZombie(s, c, a, p);
    } else {
      ScanEnds(s, c, a, p);
    }
  }

  lemma TakesZombie(s: State, c: nat, a: Action, p: nat)
    requires Runs(s, c, p) && s.procs[p].pc.WaitScan? && s.procs[p].pc.i < |s.procs| && WaitStep(s, c, p, a).Next?
    requires var k := s.procs[p].pc.i; var q := s.procs[k];
      (q.state.ZOMBIE? && q.lock.None? ==> !Running(q.pc)) && (q.parent == Some(p) ==> k != p)
    requires |WaitStep(s, c, p, a).state.procs| == |s.procs|
    ensures Outcomes(s, a, WaitStep(s, c, p, a).state, p)
  {
    hide WaitStep, LockedBy, Reaped, HasKid, NoZombie;
    var k := s.procs[p].pc.i;
    ScanCases(s, c, p, a);
    if s.procs[k].parent == Some(p) {
      LockSlots(s, c, p, k, WaitLook(k));
      LockSlots(s, c, p, k, WaitReap(k));
      ReapSlots(s, c, p, k);
    }
  }

  lemma ScanEnds(s: State, c: nat, a: Action, p: nat)
    requires Runs(s, c, p) && s.procs[p].pc.WaitScan? && s.procs[p].pc.i == |s.procs| && WaitStep(s, c, p, a).Next?
    requires Seen(s, p) && WaitOk(s, p) && |WaitStep(s, c, p, a).state.procs| == |s.procs|
    ensures Outcomes(s, a, WaitStep(s, c, p, a).state, p)
  {
  }

  // --------------------------------------------------------------------- along an execution

  lemma StepAt(run: seq<State>, cpu: seq<nat>, act: seq<Action>, i: nat)
    requires Execution(run, cpu, act) && i < |cpu|
    ensures |run| == |cpu| + 1 == |act| + 1
    ensures Inv(run[i]) && Do(run[i], cpu[i], act[i]) == Next(run[i + 1])
    ensures Rules(run[i], cpu[i], act[i], run[i + 1])
  {
    hide Inv, Rules, Do;
    RunInv(run, cpu, act, i);
    assert Do(run[i], cpu[i], act[i]) == Next(run[i + 1]);
    DoRules(run[i], cpu[i], act[i]);
  }

  lemma {:induction false} RunSeen(run: seq<State>, cpu: seq<nat>, act: seq<Action>, i: nat, p: nat)
    requires Execution(run, cpu, act) && i < |run| && p < |run[i].procs|
    ensures Seen(run[i], p)
  {
    hide Inv, Do, Rules;
    if i == 0 {
      assert !run[0].procs[p].pc.WaitScan?;
    } else {
      StepAt(run, cpu, act, i - 1);
      var s, c, a, t := run[i - 1], cpu[i - 1], act[i - 1], run[i - 1 + 1];
      assert |t.procs| == |s.procs| by { RulesFacts(s, c, a, t); }
      RunSeen(run, cpu, act, i - 1, p);
      hide Execution;
      RuleAt(s, c, a, t, p);
      if Runs(s, c, p) { SeenMine(s, c, a, t, p); } else { SeenOther(s, c, a, t, p); }
    }
  }

  lemma RulesFacts(s: State, c: nat, a: Action, t: State)
    requires Rules(s, c, a, t)
    ensures |t.procs| == |s.procs| && RecordRule(s, c, a, t)
  {
  }

  lemma RuleAt(s: State, c: nat, a: Action, t: State, p: nat)
    requires Rules(s, c, a, t) && p < |s.procs|
    ensures p < |t.procs| == |s.procs| && SlotRule(s, c, a, p, s.procs[p], t.procs[p])
  {
  }

  /**
    A step that takes a thread out of wait's scan: wait returns -1 only for a
    process without children or a killed one, sleeps only for one with living
    children that is not killed, and otherwise takes a zombie child.
  */
  lemma WaitAnswers(run: seq<State>, cpu: seq<nat>, act: seq<Action>, i: nat, p: nat)
    requires Execution(run, cpu, act) && i < |cpu| == |act| && i + 1 < |run|
    requires p < |run[i].procs| && run[i].procs[p].pc.WaitScan?
    ensures p < |run[i + 1].procs| == |run[i].procs| && Outcomes(run[i], act[i], run[i + 1], p)
  {
    hide Inv, Do, Rules, Execution, Outcomes, Seen;
    StepAt(run, cpu, act, i);
    RunSeen(run, cpu, act, i, p);
    var s, c, a, t := run[i], cpu[i], act[i], run[i + 1];
    RuleAt(s, c, a, t, p);
    if Runs(s, c, p) {
      WaitOutcomes(s, c, a, p);
    } else {
      StillScanning(s, a, t, p);
    }
  }

  lemma StillScanning(s: State, a: Action, t: State, p: nat)
    requires p < |s.procs| == |t.procs| && s.procs[p].pc.WaitScan? && t.procs[p].pc == s.procs[p].pc
    ensures Outcomes(s, a, t, p)
  {
  }

  /** Whoever holds a zombie child locked has just taken it, in step i. */
  lemma {:induction false} ReapingSince(run: seq<State>, cpu: seq<nat>, act: seq<Action>, j: nat, p: nat)
    returns (i: nat)
    requires Execution(run, cpu, act) && j < |run| && p < |run[j].procs| && run[j].procs[p].pc.WaitReap?
    ensures i < j && TookChild(run, act, i, p, run[j].procs[p].pc.i)
  {
    hide Inv, Do, Rules, Execution, TookChild;
    Lengths(run, cpu, act);
    i := 0;
    if j == 0 {
      BootNot(run, cpu, act, p);
      return;
    }
    StepAt(run, cpu, act, j - 1);
    var s, c, a, t := run[j - 1], cpu[j - 1], act[j - 1], run[j - 1 + 1];
    RulesFacts(s, c, a, t);
    RuleAt(s, c, a, t, p);
    if s.procs[p].pc.WaitReap? && s.procs[p].pc == t.procs[p].pc {
      i := ReapingSince(run, cpu, act, j - 1, p);
    } else {
      WaitAnswers(run, cpu, act, j - 1, p);
      TookIt(run, act, j - 1, p);
      i := j - 1;
    }
  }

  ghost predicate TookChild(run: seq<State>, act: seq<Action>, i: nat, p: nat, k: nat) {
    && i + 1 < |run| && i < |act| && p < |run[i].procs| && run[i].procs[p].pc.WaitScan?
    && TookZombie(run[i], act[i], run[i + 1], p, k)
  }

  lemma TookIt(run: seq<State>, act: seq<Action>, i: nat, p: nat)
    requires i + 1 < |run| && i < |act| && p < |run[i].procs| == |run[i + 1].procs| && run[i].procs[p].pc.WaitScan?
    requires Outcomes(run[i], act[i], run[i + 1], p) && run[i + 1].procs[p].pc.WaitReap?
    ensures TookChild(run, act, i, p, run[i + 1].procs[p].pc.i)
  {
  }

  lemma Lengths(run: seq<State>, cpu: seq<nat>, act: seq<Action>)
    requires Execution(run, cpu, act)
    ensures |run| == |cpu| + 1 == |act| + 1
  {
  }

  lemma BootNot(run: seq<State>, cpu: seq<nat>, act: seq<Action>, p: nat)
    requires Execution(run, cpu, act) && 0 < |run| && p < |run[0].procs|
    ensures run[0].procs[p].pc.Idle? || run[0].procs[p].pc.Born?
    ensures run[0].exited == map[] && run[0].delivered == []
  {
  }

  // ---------------------------------------------------------------------------- the theorems

  /** wait returns without a child only to a process that has none or is killed. */
  lemma WaitReturns(run: seq<State>, cpu: seq<nat>, act: seq<Action>, i: nat, p: nat)
    requires Execution(run, cpu, act) && i + 1 < |run| && p < |run[i].procs| && p < |run[i + 1].procs|
    requires run[i].procs[p].pc.WaitScan? && run[i + 1].procs[p].pc.Free?
    ensures !HasKid(run[i], p) || run[i].procs[p].killed
  {
    hide Inv, Do, Execution;
    Lengths(run, cpu, act);
    WaitAnswers(run, cpu, act, i, p);
  }

  /** It goes to sleep only with a child, none of them a zombie, and not killed. */
  lemma WaitSleeps(run: seq<State>, cpu: seq<nat>, act: seq<Action>, i: nat, p: nat)
    requires Execution(run, cpu, act) && i + 1 < |run| && p < |run[i].procs| && p < |run[i + 1].procs|
    requires run[i].procs[p].pc.WaitScan? && run[i + 1].procs[p].pc.WaitGo?
    ensures HasKid(run[i], p) && NoZombie(run[i], p, |run[i].procs|) && !run[i].procs[p].killed
  {
    hide Inv, Do, Execution;
    Lengths(run, cpu, act);
    WaitAnswers(run, cpu, act, i, p);
  }

  /** It returns with a child only after it took a zombie one of its own, k, in step i. */
  lemma {:induction false} WaitTook(run: seq<State>, cpu: seq<nat>, act: seq<Action>, j: nat, p: nat)
    returns (i: nat, k: nat)
    requires Execution(run, cpu, act) && j < |run| && p < |run[j].procs| && run[j].procs[p].pc.WaitEnd?
    ensures i < j && TookChild(run, act, i, p, k)
  {
    hide Inv, Do, Rules, Execution, TookChild;
    Lengths(run, cpu, act);
    i, k := 0, 0;
    if j == 0 {
      BootNot(run, cpu, act, p);
      return;
    }
    StepAt(run, cpu, act, j - 1);
    var s, c, a, t := run[j - 1], cpu[j - 1], act[j - 1], run[j - 1 + 1];
    RulesFacts(s, c, a, t);
    RuleAt(s, c, a, t, p);
    if s.procs[p].pc.WaitEnd? {
      i, k := WaitTook(run, cpu, act, j - 1, p);
    } else {
      k := s.procs[p].pc.i;
      i := ReapingSince(run, cpu, act, j - 1, p);
    }
  }

  /** In step i thread p, with this pid, calls exit(st). */
  ghost predicate CalledExit(run: seq<State>, cpu: seq<nat>, act: seq<Action>, i: nat, p: nat, pid: nat, st: int) {
    && i < |run| && i < |cpu| && i < |act| && Runs(run[i], cpu[i], p)
    && run[i].procs[p].pc.Free? && act[i] == CallExit(st) && run[i].procs[p].pid == pid
  }

  /** The status an exiting thread carries is the one it called exit with. */
  lemma {:induction false} ExitSince(run: seq<State>, cpu: seq<nat>, act: seq<Action>, j: nat, p: nat) returns (i: nat)
    requires Execution(run, cpu, act) && j < |run| && p < |run[j].procs| && StatusOf(run[j].procs[p].pc).Some?
    ensures i < j
    ensures CalledExit(run, cpu, act, i, p, run[j].procs[p].pid, StatusOf(run[j].procs[p].pc).value)
  {
    hide Inv, Do, Rules, Execution, CalledExit, Flow;
    Lengths(run, cpu, act);
    i := 0;
    if j == 0 {
      BootNot(run, cpu, act, p);
      return;
    }
    StepAt(run, cpu, act, j - 1);
    var s, c, a, t := run[j - 1], cpu[j - 1], act[j - 1], run[j - 1 + 1];
    RulesFacts(s, c, a, t);
    RuleAt(s, c, a, t, p);
    if StatusOf(s.procs[p].pc) == StatusOf(t.procs[p].pc) {
      i := ExitSince(run, cpu, act, j - 1, p);
    } else {
      i := j - 1;
      JustCalled(run, cpu, act, i, p, t.procs[p].pid, StatusOf(t.procs[p].pc).value);
    }
  }

  lemma JustCalled(run: seq<State>, cpu: seq<nat>, act: seq<Action>, i: nat, p: nat, pid: nat, st: int)
    requires i < |run| && i < |cpu| && i < |act| && Runs(run[i], cpu[i], p)
    requires run[i].procs[p].pc.Free? && act[i] == CallExit(st) && run[i].procs[p].pid == pid
    ensures CalledExit(run, cpu, act, i, p, pid, st)
  {
  }

  lemma {:induction false} ExitedSince(run: seq<State>, cpu: seq<nat>, act: seq<Action>, j: nat, pid: nat)
    returns (i: nat, p: nat)
    requires Execution(run, cpu, act) && j < |run| && pid in run[j].exited
    ensures i < j && CalledExit(run, cpu, act, i, p, pid, run[j].exited[pid])
  {
    hide Inv, Do, Rules, Execution, CalledExit;
    Lengths(run, cpu, act);
    i, p := 0, 0;
    if j == 0 {
      BootEmpty(run, cpu, act);
      return;
    }
    StepAt(run, cpu, act, j - 1);
    var s, c, a, t := run[j - 1], cpu[j - 1], act[j - 1], run[j - 1 + 1];
    RulesFacts(s, c, a, t);
    if pid in s.exited && s.exited[pid] == t.exited[pid] {
      i, p := ExitedSince(run, cpu, act, j - 1, pid);
    } else {
      p := s.cpus[c].at.k;
      i := ExitSince(run, cpu, act, j - 1, p);
    }
  }

  lemma BootEmpty(run: seq<State>, cpu: seq<nat>, act: seq<Action>)
    requires Execution(run, cpu, act) && 0 < |run|
    ensures run[0].exited == map[]
  {
  }

  /** Every status that wait delivers is the one with which the process of that pid called exit. */
  lemma DeliveredByExit(run: seq<State>, cpu: seq<nat>, act: seq<Action>, j: nat, d: nat) returns (i: nat, p: nat)
    requires Execution(run, cpu, act) && j < |run| && d < |run[j].delivered|
    ensures i < j && CalledExit(run, cpu, act, i, p, run[j].delivered[d].0, run[j].delivered[d].1)
  {
    hide Execution, CalledExit, Sized, Placed, Locks, Forks, Parents, Waits, Exits, Pids;
    RunInv(run, cpu, act, j);
    i, p := ExitedSince(run, cpu, act, j, run[j].delivered[d].0);
  }

  /** A sleeper becomes runnable only by a wakeup on its channel or a kill of its pid. */
  lemma WokenOnlyBy(run: seq<State>, cpu: seq<nat>, act: seq<Action>, i: nat, k: nat)
    requires Execution(run, cpu, act) && i + 1 < |run| && k < |run[i].procs| && run[i].procs[k].state.SLEEPING?
    ensures i < |cpu| && k < |run[i + 1].procs|
    ensures run[i + 1].procs[k].state.SLEEPING?
      || (run[i + 1].procs[k].state.RUNNABLE? && WokenBy(run[i], cpu[i], k, run[i].procs[k]))
  {
    hide Inv, Do, Rules, Execution;
    Lengths(run, cpu, act);
    StepAt(run, cpu, act, i);
    RuleAt(run[i], cpu[i], act[i], run[i + 1], k);
  }

  /** kill goes on past a slot if and only if it has another pid; one that has it is killed and not asleep. */
  lemma KillAnswers(run: seq<State>, cpu: seq<nat>, act: seq<Action>, i: nat, p: nat)
    requires Execution(run, cpu, act) && i + 1 < |run| && p < |run[i].procs| && p < |run[i + 1].procs|
    requires run[i].procs[p].pc.Killing? && run[i + 1].procs[p].pc.KillHold?
    ensures var pc, k := run[i + 1].procs[p].pc, run[i].procs[p].pc.j;
      && pc.j == k < |run[i].procs| == |run[i + 1].procs| && pc.pid == run[i].procs[p].pc.pid
      && (pc.found <==> run[i].procs[k].pid == pc.pid)
      && (pc.found ==> run[i + 1].procs[k].killed && !run[i + 1].procs[k].state.SLEEPING?)
      && (!pc.found ==> run[i + 1].procs[k].killed == run[i].procs[k].killed)
  {
    hide Inv, Do, Rules, Execution;
    Lengths(run, cpu, act);
    StepAt(run, cpu, act, i);
    var s, c, a, t := run[i], cpu[i], act[i], run[i + 1];
    RuleAt(s, c, a, t, p);
    KillFinds(s, c, a, t, p);
  }

  lemma KillFinds(s: State, c: nat, a: Action, t: State, p: nat)
    requires Inv(s) && Runs(s, c, p) && Do(s, c, a) == Next(t) && s.procs[p].pc.Killing? && p < |t.procs|
    requires t.procs[p].pc.KillHold?
    ensures var pc, k := t.procs[p].pc, s.procs[p].pc.j;
      && pc.j == k < |s.procs| == |t.procs| && pc.pid == s.procs[p].pc.pid
      && (pc.found <==> s.procs[k].pid == pc.pid)
      && (pc.found ==> t.procs[k].killed && !t.procs[k].state.SLEEPING?)
      && (!pc.found ==> t.procs[k].killed == s.procs[k].killed)
  {
    hide Inv, Fits;
    PlaceFacts(s, c, p);
  }

  /** fork returns with a runnable child of its own. */
  lemma ForkAnswers(run: seq<State>, cpu: seq<nat>, act: seq<Action>, i: nat, p: nat)
    requires Execution(run, cpu, act) && i + 1 < |run| && p < |run[i].procs| && p < |run[i + 1].procs|
    requires run[i + 1].procs[p].pc.ForkRun? && run[i].procs[p].pc != run[i + 1].procs[p].pc
    ensures var np := run[i + 1].procs[p].pc.np;
      && np < |run[i + 1].procs| && np != p && run[i + 1].procs[np].state.RUNNABLE?
      && run[i + 1].procs[np].parent == Some(p) && run[i + 1].procs[np].pc.Born?
  {
    hide Inv, Do, Rules, Execution;
    Lengths(run, cpu, act);
    StepAt(run, cpu, act, i);
    var s, c, a, t := run[i], cpu[i], act[i], run[i + 1];
    RuleAt(s, c, a, t, p);
    ForkMade(s, c, a, t, p);
  }

  lemma ForkMade(s: State, c: nat, a: Action, t: State, p: nat)
    requires Inv(s) && Runs(s, c, p) && Do(s, c, a) == Next(t) && s.procs[p].pc.ForkReady? && p < |t.procs|
    requires t.procs[p].pc.ForkRun?
    ensures var np := t.procs[p].pc.np;
      && np < |t.procs| && np != p && t.procs[np].state.RUNNABLE? && t.procs[np].parent == Some(p)
      && t.procs[np].pc.Born?
  {
    hide Inv;
    PlaceFacts(s, c, p);
    ForkFacts(s, c, p);
    SlotFits(s, s.procs[p].pc.np);
  }

  // --------------------------------------------------------------------------- the scheduler

  /** A CPU goes to another slot only from one it is done with, and then to the next, around the table. */
  predicate SlotOrder(s: State, t: State, d: nat)
    requires d < |s.cpus| == |t.cpus|
  {
    || t.cpus[d].at.k == s.cpus[d].at.k
    || (s.cpus[d].at.Hold? && |s.procs| > 0 && t.cpus[d].at == Look((s.cpus[d].at.k + 1) % |s.procs|))
  }

  lemma ThreadCpus(s: State, c: nat, p: nat, a: Action)
    requires Runs(s, c, p) && InRange(s.procs[p].pc, |s.procs|) && ThreadStep(s, c, p, a).Next?
    ensures var t := ThreadStep(s, c, p, a).state; t.cpus == s.cpus || t.cpus == s.cpus[c := Cpu(Some(p), Back(p))]
  {
    hide CallStep, ResumeStep, ForkStep, ExitStep, WakeStep, KillStep, WaitStep;
    assert s.procs[p].pc.Free? ==> Same(s, CallStep(s, c, p, a)) by { CallSame(s, c, p, a); }
    assert s.procs[p].pc.Resumed? ==> Same(s, ResumeStep(s, c, p)) by { ResumeSame(s, c, p); }
    assert Same(s, ForkStep(s, c, p, a)) by { ForkSame(s, c, p, a); }
    assert Same(s, ExitStep(s, c, p)) by { ExitSame(s, c, p); }
    assert Same(s, WakeStep(s, c, p)) by { WakeSame(s, c, p); }
    assert Same(s, KillStep(s, c, p)) by { KillSame(s, c, p); }
    assert Same(s, WaitStep(s, c, p, a)) by { WaitSame(s, c, p, a); }
  }

  predicate Same(s: State, o: Outcome) {
    o.Next? ==> o.state.cpus == s.cpus
  }

  lemma CallSame(s: State, c: nat, p: nat, a: Action)
    requires Runs(s, c, p)
    ensures Same(s, CallStep(s, c, p, a))
  {
  }

  lemma ResumeSame(s: State, c: nat, p: nat)
    requires Runs(s, c, p)
    ensures s.procs[p].pc.Resumed? ==> Same(s, ResumeStep(s, c, p))
  {
  }

  lemma ForkSame(s: State, c: nat, p: nat, a: Action)
    requires Runs(s, c, p) && InRange(s.procs[p].pc, |s.procs|)
    ensures Same(s, ForkStep(s, c, p, a))
  {
  }

  lemma ExitSame(s: State, c: nat, p: nat)
    requires Runs(s, c, p) && InRange(s.procs[p].pc, |s.procs|)
    ensures Same(s, ExitStep(s, c, p))
  {
  }

  lemma WakeSame(s: State, c: nat, p: nat)
    requires Runs(s, c, p) && InRange(s.procs[p].pc, |s.procs|)
    ensures Same(s, WakeStep(s, c, p))
  {
  }

  lemma KillSame(s: State, c: nat, p: nat)
    requires Runs(s, c, p) && InRange(s.procs[p].pc, |s.procs|)
    ensures Same(s, KillStep(s, c, p))
  {
  }

  lemma WaitSame(s: State, c: nat, p: nat, a: Action)
    requires Runs(s, c, p) && InRange(s.procs[p].pc, |s.procs|)
    ensures Same(s, WaitStep(s, c, p, a))
  {
  }

  lemma DoCpus(s: State, c: nat, a: Action, d: nat)
    requires Inv(s) && Do(s, c, a).Next? && d < |s.cpus|
    ensures |Do(s, c, a).state.cpus| == |s.cpus| && SlotOrder(s, Do(s, c, a).state, d)
  {
    hide Inv, InRange, ThreadStep;
    if s.cpus[c].at.Away? {
      PlaceFacts(s, c, s.cpus[c].at.k);
      ThreadCpus(s, c, s.cpus[c].at.k, a);
    }
  }

  /** Every scheduler looks at the slots in turn. */
  lemma SchedulersTakeTurns(run: seq<State>, cpu: seq<nat>, act: seq<Action>, i: nat, d: nat)
    requires Execution(run, cpu, act) && i + 1 < |run| && d < |run[i].cpus|
    ensures |run[i + 1].cpus| == |run[i].cpus| && SlotOrder(run[i], run[i + 1], d)
  {
    hide Inv, Do, Rules, Execution, SlotOrder;
    Lengths(run, cpu, act);
    StepAt(run, cpu, act, i);
    DoCpus(run[i], cpu[i], act[i], d);
  }

  /** A scheduler that takes the lock of the slot it is at runs its process if and only if it is runnable. */
  lemma SchedulerRuns(s: State, c: nat, a: Action)
    requires c < |s.cpus| && s.cpus[c].at.Look? && s.cpus[c].at.k < |s.procs| && Do(s, c, a).Next?
    ensures var k, t := s.cpus[c].at.k, Do(s, c, a).state;
      && |t.cpus| == |s.cpus| && |t.procs| == |s.procs|
      && (t.cpus[c] == Cpu(Some(k), Away(k)) && t.procs[k].state.RUNNING? && t.procs[k].on == Some(c)
          <==> s.procs[k].state.RUNNABLE?)
      && (!s.procs[k].state.RUNNABLE? ==> t.procs[k] == s.procs[k].(lock := Some(c)))
  {
  }
}
