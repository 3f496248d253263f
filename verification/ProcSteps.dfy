/**
  The steps of proc.c. Do(s, c, a) is what CPU c does next in state s: a new
  state, nothing yet because a lock is taken, or a panic. The action a resolves
  what the model leaves open: which system call a thread makes, whether copying
  memory works.
*/
module ProcSteps {
  import opened Wrappers
  import opened ProcState
  import opened ProcMoves
  import opened ProcEdits
  import opened ProcSwitch

  datatype Action =
    | Run | CallYield | CallSleep(n: nat) | CallFork(np: nat) | ForkFails | CallExit(status: int) | CallWait | CopyFails
    | CallWakeup(n: nat) | CallKill(pid: nat)

  datatype Outcome = Next(state: State) | Blocked | Panic

  // ------------------------------------------------------------------ small updates

  function Goto(s: State, p: nat, pc: Pc): State
    requires p < |s.procs|
  {
    Edit(s, p, s.procs[p].(pc := pc))
  }

  function SetLock(s: State, k: nat, l: Option<nat>): State
    requires k < |s.procs|
  {
    Edit(s, k, s.procs[k].(lock := l))
  }

  /** acquire(&proc[k].lock), going on as in then_. */
  function Acquire(s: State, c: nat, k: nat, then_: State): Outcome
    requires k < |s.procs|
  {
    if s.procs[k].lock == Some(c) then Panic else if s.procs[k].lock.Some? then Blocked else Next(then_)
  }

  /** release(&proc[k].lock) */
  function Release(s: State, c: nat, k: nat, then_: State): Outcome
    requires k < |s.procs|
  {
    if s.procs[k].lock != Some(c) then Panic else Next(then_)
  }

  function AcquireWait(s: State, c: nat, then_: State): Outcome {
    if s.waitLock == Some(c) then Panic else if s.waitLock.Some? then Blocked else Next(then_.(waitLock := Some(c)))
  }

  function ReleaseWait(s: State, c: nat, then_: State): Outcome {
    if s.waitLock != Some(c) then Panic else Next(then_.(waitLock := None))
  }

  /** wakeup's and kill's edits of a slot. */
  function Woken(q: Proc, ch: Chan): Proc {
    if q.state.SLEEPING? && q.chan == ch then q.(state := RUNNABLE) else q
  }

  function Killed(q: Proc, pid: nat): Proc {
    if q.pid == pid then q.(killed := true, state := if q.state.SLEEPING? then RUNNABLE else q.state) else q
  }

  // ----------------------------------------------------------------------- scheduler

  function Resume(pc: Pc): Pc {
    if pc.Parked? then Resumed(pc.why) else Resumed(Yield)
  }

  function SchedStep(s: State, c: nat): Outcome
    requires c < |s.cpus| && s.cpus[c].at.k < |s.procs| && !s.cpus[c].at.Away?
  {
    var k := s.cpus[c].at.k;
    var q := s.procs[k];
    match s.cpus[c].at
    case Look(_) =>
      Acquire(s, c, k,
              if q.state.RUNNABLE?
              then Hop(s, c, k, q.(lock := Some(c), state := RUNNING, on := Some(c), pc := Resume(q.pc)),
                       Cpu(Some(k), Away(k)))
              else Hop(s, c, k, q.(lock := Some(c)), Cpu(None, Hold(k))))
    case Back(_) => Next(Hop(s, c, k, q.(on := None), Cpu(None, Hold(k))))
    case Hold(_) => Release(s, c, k, Hop(s, c, k, q.(lock := None), Cpu(None, Look((k + 1) % |s.procs|))))
    case Away(_) => Blocked
  }

  /** mycpu()->noff != 1, counting the locks of this model. */
  predicate OtherLocks(s: State, c: nat, p: nat) {
    s.waitLock == Some(c) || exists k :: 0 <= k < |s.procs| && k != p && s.procs[k].lock == Some(c)
  }

  /** sched: its checks and swtch. */
  function SchedCall(s: State, c: nat, p: nat): Outcome
    requires c < |s.cpus| && p < |s.procs| && s.procs[p].pc.Leaving?
  {
    var q := s.procs[p];
    if q.lock != Some(c) || OtherLocks(s, c, p) || q.state.RUNNING? then Panic
    else Next(Hop(s, c, p, q.(pc := Parked(q.pc.why)), Cpu(Some(p), Back(p))))
  }

  // ------------------------------------------------------------------- thread steps

  /** A thread outside all of these functions starts one. */
  function CallStep(s: State, c: nat, p: nat, a: Action): Outcome
    requires c < |s.cpus| && p < |s.procs|
  {
    match a
    case CallYield => Acquire(s, c, p, SetLock(Goto(s, p, Locked(Yield)), p, Some(c)))
    case CallSleep(n) => Acquire(s, c, p, SetLock(Goto(s, p, Locked(Nap(n))), p, Some(c)))
    case CallFork(np) =>
      if np >= |s.procs| || !s.procs[np].state.UNUSED? then Blocked
      else Acquire(s, c, np, SetLock(Goto(Spawned(s, np), p, ForkAlloc(np)), np, Some(c)))
    case CallExit(st) => if p == INIT then Panic else AcquireWait(s, c, Goto(s, p, ExitScan(0, st)))
    case CallWait => AcquireWait(s, c, Goto(s, p, WaitScan(0, false)))
    case CallWakeup(n) => Next(Goto(s, p, Waking(0, Other(n), Plain)))
    case CallKill(pid) => Next(Goto(s, p, Killing(0, pid)))
    case _ => Blocked
  }

  function ForkStep(s: State, c: nat, p: nat, a: Action): Outcome
    requires c < |s.cpus| && p < |s.procs| && InRange(s.procs[p].pc, |s.procs|)
  {
    match s.procs[p].pc
    case ForkAlloc(np) =>
      if a.ForkFails? then Release(s, c, np, SetLock(Edit(Goto(s, p, Free), np, Emptied(Goto(s, p, Free).procs[np])),
                                                     np, None))
      else Release(s, c, np, SetLock(Goto(s, p, ForkNew(np)), np, None))
    case ForkNew(np) => AcquireWait(s, c, Goto(Reparented(s, np, p), p, ForkParent(np)))
    case ForkParent(np) => ReleaseWait(s, c, Goto(s, p, ForkReady(np)))
    case ForkReady(np) =>
      var t := SetLock(Goto(s, p, ForkRun(np)), np, Some(c));
      Acquire(s, c, np, Edit(t, np, t.procs[np].(state := RUNNABLE)))
    case ForkRun(np) => Release(s, c, np, SetLock(Goto(s, p, Free), np, None))
    case _ => Blocked
  }

  function ExitStep(s: State, c: nat, p: nat): Outcome
    requires c < |s.cpus| && p < |s.procs| && InRange(s.procs[p].pc, |s.procs|)
  {
    match s.procs[p].pc
    case ExitScan(i, st) =>
      if i < |s.procs| then
        if s.procs[i].parent == Some(p)
        then Next(Reparented(Goto(s, p, Waking(0, Self(INIT), Reparent(i + 1, st))), i, INIT))
        else Next(Goto(s, p, ExitScan(i + 1, st)))
      else
        var parent := s.procs[p].parent;
        Next(Goto(s, p, Waking(0, if parent.Some? then Self(parent.value) else NoChan, Parent(st))))
    case ExitGo(st) => Acquire(s, c, p, SetLock(Goto(s, p, ExitLock(st)), p, Some(c)))
    case ExitLock(_) => Next(Died(s, p))
    case ExitHold => ReleaseWait(s, c, Goto(s, p, Leaving(Dead)))
    case _ => Blocked
  }

  /** wakeup */
  function WakeStep(s: State, c: nat, p: nat): Outcome
    requires c < |s.cpus| && p < |s.procs| && InRange(s.procs[p].pc, |s.procs|)
  {
    match s.procs[p].pc
    case Waking(j, ch, ct) =>
      if j < |s.procs| then
        if j == p then Next(Goto(s, p, Waking(j + 1, ch, ct)))
        else Acquire(s, c, j, SetLock(Goto(Edit(s, j, Woken(s.procs[j], ch)), p, WakeHold(j, ch, ct)), j, Some(c)))
      else
        Next(Goto(s, p, if ct.Plain? then Free
                        else if ct.Reparent? then ExitScan(ct.i, ct.status)
                        else ExitGo(ct.status)))
    case WakeHold(j, ch, ct) => Release(s, c, j, SetLock(Goto(s, p, Waking(j + 1, ch, ct)), j, None))
    case _ => Blocked
  }

  function WaitStep(s: State, c: nat, p: nat, a: Action): Outcome
    requires c < |s.cpus| && p < |s.procs| && InRange(s.procs[p].pc, |s.procs|)
  {
    match s.procs[p].pc
    case WaitScan(i, have) =>
      if i < |s.procs| then
        if s.procs[i].parent != Some(p) then Next(Goto(s, p, WaitScan(i + 1, have)))
        else if !s.procs[i].state.ZOMBIE? then Acquire(s, c, i, SetLock(Goto(s, p, WaitLook(i)), i, Some(c)))
        else if a.CopyFails? then Acquire(s, c, i, SetLock(Goto(s, p, WaitReap(i)), i, Some(c)))
        else Acquire(s, c, i, Reaped(SetLock(Goto(s, p, WaitReap(i)), i, Some(c)), i))
      else if !have then ReleaseWait(s, c, Goto(s, p, Free))
      else if s.procs[p].lock.Some? then (if s.procs[p].lock == Some(c) then Panic else Blocked)
      else if s.procs[p].killed then ReleaseWait(s, c, Goto(s, p, Free))
      else Next(Goto(s, p, WaitGo))
    case WaitLook(i) => Release(s, c, i, SetLock(Goto(s, p, WaitScan(i + 1, true)), i, None))
    case WaitReap(i) => Release(s, c, i, SetLock(Goto(s, p, WaitEnd), i, None))
    case WaitEnd => ReleaseWait(s, c, Goto(s, p, Free))
    case WaitGo => Acquire(s, c, p, SetLock(Goto(s, p, WaitBoth), p, Some(c)))
    case WaitBoth => ReleaseWait(s, c, Goto(s, p, Locked(WaitNap)))
    case Rewait => AcquireWait(s, c, Goto(s, p, WaitScan(0, false)))
    case _ => Blocked
  }

  function KillStep(s: State, c: nat, p: nat): Outcome
    requires c < |s.cpus| && p < |s.procs| && InRange(s.procs[p].pc, |s.procs|)
  {
    match s.procs[p].pc
    case Killing(j, pid) =>
      if j < |s.procs|
      then
        var found := s.procs[j].pid == pid;
        Acquire(s, c, j, SetLock(Goto(Edit(s, j, Killed(s.procs[j], pid)), p, KillHold(j, pid, found)), j, Some(c)))
      else Next(Goto(s, p, Free))
    case KillHold(j, pid, found) =>
      Release(s, c, j, SetLock(Goto(s, p, if found then Free else Killing(j + 1, pid)), j, None))
    case _ => Blocked
  }

  /** Back from sched: "zombie exit" is the panic after exit's sched. */
  function ResumeStep(s: State, c: nat, p: nat): Outcome
    requires c < |s.cpus| && p < |s.procs| && s.procs[p].pc.Resumed?
  {
    var w := s.procs[p].pc.why;
    var q := if w.Yield? then s.procs[p] else s.procs[p].(chan := NoChan);
    if w.Dead? then Panic
    else Release(s, c, p, SetLock(Goto(Edit(s, p, q), p, if w.WaitNap? then Rewait else Free), p, None))
  }

  function ThreadStep(s: State, c: nat, p: nat, a: Action): Outcome
    requires c < |s.cpus| && p < |s.procs| && InRange(s.procs[p].pc, |s.procs|)
  {
    var pc := s.procs[p].pc;
    if pc.Free? then CallStep(s, c, p, a)
    else if pc.Resumed? then ResumeStep(s, c, p)
    else if pc.Locked? then Next(Edit(s, p, Settled(s.procs[p], p)))
    else if pc.Leaving? then SchedCall(s, c, p)
    else if pc.ForkAlloc? || pc.ForkNew? || pc.ForkParent? || pc.ForkReady? || pc.ForkRun? then ForkStep(s, c, p, a)
    else if pc.ExitScan? || pc.ExitGo? || pc.ExitLock? || pc.ExitHold? then ExitStep(s, c, p)
    else if pc.Waking? || pc.WakeHold? then WakeStep(s, c, p)
    else if pc.Killing? || pc.KillHold? then KillStep(s, c, p)
    else WaitStep(s, c, p, a)
  }

  /** What CPU c does next. */
  function Do(s: State, c: nat, a: Action): Outcome {
    if c >= |s.cpus| || s.cpus[c].at.k >= |s.procs| then Blocked
    else if !s.cpus[c].at.Away? then SchedStep(s, c)
    else if !InRange(s.procs[s.cpus[c].at.k].pc, |s.procs|) then Blocked
    else ThreadStep(s, c, s.cpus[c].at.k, a)
  }
}
