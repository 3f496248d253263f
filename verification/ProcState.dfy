/**
  The process table as a state machine. A kernel thread's position in fork, exit,
  wait, sleep, wakeup, kill and yield is a program counter; a CPU is in its
  scheduler or runs a process. An acquire, together with the assignments made
  under the lock before the next lock operation, is one step; every release and
  every swtch is a step. A lock records the CPU that holds it, as lk->cpu does,
  so p->lock stays with the CPU when swtch changes threads.
*/
module ProcState {
  import opened Wrappers

  datatype RunState = UNUSED | USED | SLEEPING | RUNNABLE | RUNNING | ZOMBIE

  /** A sleep channel: a process's own address (wait) or some other address. */
  datatype Chan = NoChan | Self(p: nat) | Other(n: nat)

  datatype Why = Yield | Nap(n: nat) | WaitNap | Dead

  /** Where a wakeup loop returns to: i is reparent's next slot. */
  datatype Cont = Plain | Reparent(i: nat, status: int) | Parent(status: int)

  datatype Pc =
    | Idle                                     // slot not in use
    | Born                                     // will start in forkret
    | Parked(why: Why)                         // context saved in sched
    | Resumed(why: Why)                        // back from sched, own lock held
    | Free                                     // no lock of this model held
    | Locked(why: Why)                         // own lock acquired, about to change state
    | Leaving(why: Why)                        // state changed, about to swtch
    | ForkAlloc(np: nat)                       // np.lock held
    | ForkNew(np: nat)
    | ForkParent(np: nat)                      // wait_lock held
    | ForkReady(np: nat)
    | ForkRun(np: nat)                         // np.lock held
    | ExitScan(i: nat, status: int)            // wait_lock held
    | Waking(j: nat, chan: Chan, cont: Cont)   // wait_lock held unless Plain
    | WakeHold(j: nat, chan: Chan, cont: Cont) // ... and proc[j].lock
    | ExitGo(status: int)                      // wait_lock held
    | ExitLock(status: int)                    // wait_lock and own lock held
    | ExitHold                                 // ... and a zombie
    | WaitScan(i: nat, have: bool)             // wait_lock held
    | WaitLook(i: nat)                         // wait_lock and proc[i].lock held
    | WaitReap(i: nat)                         // wait_lock and proc[i].lock held
    | WaitEnd                                  // wait_lock held
    | WaitGo                                   // wait_lock held
    | WaitBoth                                 // wait_lock and own lock held
    | Rewait
    | Killing(j: nat, pid: nat)
    | KillHold(j: nat, pid: nat, found: bool)  // proc[j].lock held

  /** on is the CPU the thread is on: not in the program, a consequence of the cpus. */
  datatype Proc = Proc(state: RunState, chan: Chan, parent: Option<nat>, pid: nat, xstate: int, killed: bool,
                       lock: Option<nat>, pc: Pc, on: Option<nat>)

  datatype At = Look(k: nat) | Hold(k: nat) | Away(k: nat) | Back(k: nat)

  datatype Cpu = Cpu(proc: Option<nat>, at: At)

  /** exited and delivered record exit's statuses and what wait handed to parents. */
  datatype State = State(procs: seq<Proc>, cpus: seq<Cpu>, waitLock: Option<nat>, nextpid: nat,
                         exited: map<nat, int>, delivered: seq<(nat, int)>)

  const INIT := 0

  // ------------------------------------------------------------ program counters

  predicate Running(pc: Pc) {
    !pc.Idle? && !pc.Born? && !pc.Parked?
  }

  /** The process lock a thread at pc holds. */
  function LockOf(pc: Pc, p: nat): Option<nat> {
    match pc
    case Resumed(_) => Some(p)
    case Locked(_) => Some(p)
    case Leaving(_) => Some(p)
    case ExitLock(_) => Some(p)
    case ExitHold => Some(p)
    case WaitBoth => Some(p)
    case ForkAlloc(np) => Some(np)
    case ForkRun(np) => Some(np)
    case WakeHold(j, _, _) => Some(j)
    case WaitLook(i) => Some(i)
    case WaitReap(i) => Some(i)
    case KillHold(j, _, _) => Some(j)
    case _ => None
  }

  predicate HoldsWait(pc: Pc) {
    match pc
    case ForkParent(_) => true
    case ExitScan(_, _) => true
    case Waking(_, _, cont) => !cont.Plain?
    case WakeHold(_, _, cont) => !cont.Plain?
    case ExitGo(_) => true
    case ExitLock(_) => true
    case ExitHold => true
    case WaitScan(_, _) => true
    case WaitLook(_) => true
    case WaitReap(_) => true
    case WaitEnd => true
    case WaitGo => true
    case WaitBoth => true
    case _ => false
  }

  /** The slot a forking thread has taken and not yet made runnable. */
  function ForkOf(pc: Pc): Option<nat> {
    match pc
    case ForkAlloc(np) => Some(np)
    case ForkNew(np) => Some(np)
    case ForkParent(np) => Some(np)
    case ForkReady(np) => Some(np)
    case _ => None
  }

  /** Slots below this number are not children of q; n stands for all of them. */
  function Cleared(q: Proc, n: nat): nat {
    match q.pc
    case Idle => n
    case Born => if q.state.USED? then n else 0
    case ExitScan(i, _) => i
    case Waking(_, _, cont) => if cont.Plain? then 0 else if cont.Reparent? then cont.i else n
    case WakeHold(_, _, cont) => if cont.Plain? then 0 else if cont.Reparent? then cont.i else n
    case ExitGo(_) => n
    case ExitLock(_) => n
    case ExitHold => n
    case Leaving(w) => if w.Dead? then n else 0
    case Parked(w) => if w.Dead? then n else 0
    case _ => 0
  }

  /** Every index a thread at pc holds on to is a slot. */
  predicate InRange(pc: Pc, n: nat) {
    match pc
    case ForkAlloc(np) => np < n
    case ForkNew(np) => np < n
    case ForkParent(np) => np < n
    case ForkReady(np) => np < n
    case ForkRun(np) => np < n
    case ExitScan(i, _) => i <= n
    case Waking(j, _, cont) => j <= n && (cont.Reparent? ==> cont.i <= n)
    case WakeHold(j, _, cont) => j < n && (cont.Reparent? ==> cont.i <= n)
    case WaitScan(i, _) => i <= n
    case WaitLook(i) => i < n
    case WaitReap(i) => i < n
    case Killing(j, _) => j <= n
    case KillHold(j, _, _) => j < n
    case _ => true
  }

  /** The state a process has at each place; only a parked sleeper can be woken. */
  predicate Fits(q: Proc, k: nat) {
    match q.pc
    case Idle => q.state.UNUSED?
    case Born => q.state.USED? || q.state.RUNNABLE?
    case Parked(w) => AfterSwitch(q, k, w) || ((w.Nap? || w.WaitNap?) && q.state.RUNNABLE?)
    case Leaving(w) => AfterSwitch(q, k, w)
    case ExitHold => q.state.ZOMBIE?
    case Resumed(w) => q.state.RUNNING? && !w.Dead?
    case Locked(w) => q.state.RUNNING? && !w.Dead?
    case _ => q.state.RUNNING?
  }

  predicate AfterSwitch(q: Proc, k: nat, w: Why) {
    match w
    case Yield => q.state.RUNNABLE?
    case Nap(n) => q.state.SLEEPING? && q.chan == Other(n)
    case WaitNap => q.state.SLEEPING? && q.chan == Self(k)
    case Dead => q.state.ZOMBIE?
  }

  /** p has decided to sleep in wait and has not been woken since. */
  predicate Asleep(q: Proc) {
    q.pc.WaitBoth? || q.pc == Locked(WaitNap) || q.pc == Leaving(WaitNap)
    || (q.pc == Parked(WaitNap) && q.state.SLEEPING?)
  }

  // ------------------------------------------------------------------- invariants

  ghost predicate Sized(s: State) {
    && |s.procs| > 0 && |s.cpus| > 0
    && forall k :: 0 <= k < |s.procs| ==> InRange(s.procs[k].pc, |s.procs|) && Fits(s.procs[k], k)
  }

  /** The process lock CPU c holds. */
  function CpuLock(s: State, c: nat): Option<nat>
    requires c < |s.cpus|
  {
    match s.cpus[c].at
    case Look(_) => None
    case Hold(k) => Some(k)
    case Back(k) => Some(k)
    case Away(p) => if p < |s.procs| then LockOf(s.procs[p].pc, p) else None
  }

  predicate CpuWait(s: State, c: nat)
    requires c < |s.cpus|
  {
    s.cpus[c].at.Away? && s.cpus[c].at.k < |s.procs| && HoldsWait(s.procs[s.cpus[c].at.k].pc)
  }

  /** CPU c and the process it runs agree. */
  predicate CpuOk(s: State, c: nat)
    requires c < |s.cpus|
  {
    var at := s.cpus[c].at;
    && at.k < |s.procs|
    && (at.Away? || at.Back? ==>
          s.cpus[c].proc == Some(at.k) && s.procs[at.k].on == Some(c) && (at.Away? <==> Running(s.procs[at.k].pc))
          && (at.Back? ==> s.procs[at.k].pc.Parked?))
    && (at.Look? || at.Hold? ==> s.cpus[c].proc == None)
  }

  predicate OnOk(s: State, k: nat)
    requires k < |s.procs|
  {
    match s.procs[k].on
    case Some(c) => c < |s.cpus| && (s.cpus[c].at == Away(k) || s.cpus[c].at == Back(k))
    case None => !Running(s.procs[k].pc)
  }

  ghost predicate Placed(s: State) {
    && (forall c :: 0 <= c < |s.cpus| ==> CpuOk(s, c))
    && (forall k :: 0 <= k < |s.procs| ==> OnOk(s, k))
  }

  /** A lock names the CPU that holds it. */
  ghost predicate Locks(s: State) {
    && (forall k :: 0 <= k < |s.procs| && s.procs[k].lock.Some? ==>
          s.procs[k].lock.value < |s.cpus| && CpuLock(s, s.procs[k].lock.value) == Some(k))
    && (forall c :: 0 <= c < |s.cpus| && CpuLock(s, c).Some? ==>
          CpuLock(s, c).value < |s.procs| && s.procs[CpuLock(s, c).value].lock == Some(c))
    && (s.waitLock.Some? ==> s.waitLock.value < |s.cpus| && CpuWait(s, s.waitLock.value))
    && (forall c :: 0 <= c < |s.cpus| && CpuWait(s, c) ==> s.waitLock == Some(c))
  }

  predicate ForkOk(s: State, p: nat)
    requires p < |s.procs|
  {
    ForkOf(s.procs[p].pc).Some? ==>
      var np := ForkOf(s.procs[p].pc).value;
      && np < |s.procs| && s.procs[np].state.USED?
      && s.procs[np].parent == if s.procs[p].pc.ForkParent? || s.procs[p].pc.ForkReady? then Some(p) else None
  }

  ghost predicate Forks(s: State) {
    && (forall p :: 0 <= p < |s.procs| ==> ForkOk(s, p))
    && (forall p, q :: 0 <= p < q < |s.procs| && ForkOf(s.procs[p].pc).Some? ==>
          ForkOf(s.procs[p].pc) != ForkOf(s.procs[q].pc))
  }

  /** parent pointers: who may have one, and whom they may name. */
  predicate ParentOk(s: State, k: nat)
    requires k < |s.procs|
  {
    var q := s.procs[k];
    && (q.state.UNUSED? ==> q.parent.None?)
    && (k == INIT ==> q.parent.None? && !q.state.UNUSED? && !q.state.ZOMBIE?)
    && (k != INIT && !q.state.UNUSED? && !q.state.USED? ==> q.parent.Some?)
    && (q.parent.Some? ==>
          q.parent.value < |s.procs| && q.parent.value != k
          && k >= Cleared(s.procs[q.parent.value], |s.procs|))
  }

  ghost predicate Parents(s: State) {
    && (forall k :: 0 <= k < |s.procs| ==> ParentOk(s, k))
    && (|s.procs| > 0 ==> Cleared(s.procs[INIT], |s.procs|) == 0)
  }

  ghost predicate HasKid(s: State, p: nat) {
    exists k :: 0 <= k < |s.procs| && s.procs[k].parent == Some(p)
  }

  /** No child of p below slot i is a zombie. */
  ghost predicate NoZombie(s: State, p: nat, i: nat) {
    forall k :: 0 <= k < i && k < |s.procs| && s.procs[k].parent == Some(p) ==> !s.procs[k].state.ZOMBIE?
  }

  /** Whoever holds wait_lock has given a child to init and is still to wake init. */
  predicate Pending(s: State, p: nat) {
    && p == INIT && s.waitLock.Some? && s.waitLock.value < |s.cpus|
    && var at := s.cpus[s.waitLock.value].at;
       at.Away? && at.k < |s.procs| && s.procs[at.k].pc.Waking? && s.procs[at.k].pc.cont.Reparent?
       && s.procs[at.k].pc.j == 0
  }

  ghost predicate WaitOk(s: State, p: nat)
    requires p < |s.procs|
  {
    var q := s.procs[p];
    && (Asleep(q) ==> HasKid(s, p) && (NoZombie(s, p, |s.procs|) || Pending(s, p)))
    && (q.pc.WaitScan? ==> NoZombie(s, p, q.pc.i) && (q.pc.have ==> HasKid(s, p)))
    && (q.pc.WaitLook? ==> NoZombie(s, p, q.pc.i + 1) && HasKid(s, p))
    && (q.pc.WaitGo? ==> NoZombie(s, p, |s.procs|) && HasKid(s, p))
  }

  ghost predicate Waits(s: State) {
    forall p :: 0 <= p < |s.procs| ==> WaitOk(s, p)
  }

  /** An exiting process wakes its parent before it becomes a zombie. */
  predicate ExitOk(s: State, e: nat)
    requires e < |s.procs|
  {
    var q := s.procs[e];
    && ((q.pc.Waking? || q.pc.WakeHold?) && q.pc.cont.Reparent? ==> q.pc.chan == Self(INIT))
    && ((q.pc.Waking? || q.pc.WakeHold?) && q.pc.cont.Parent? && q.parent.Some? && q.parent.value < |s.procs| ==>
          q.pc.chan == Self(q.parent.value)
          && (q.parent.value < q.pc.j || (q.parent.value == q.pc.j && q.pc.WakeHold?) ==>
                !Asleep(s.procs[q.parent.value])))
    && ((q.pc.ExitGo? || q.pc.ExitLock?) && q.parent.Some? && q.parent.value < |s.procs| ==>
          !Asleep(s.procs[q.parent.value]))
  }

  ghost predicate Exits(s: State) {
    && (forall e :: 0 <= e < |s.procs| ==> ExitOk(s, e))
    && (forall e :: 0 <= e < |s.procs| && (ExitPc(s.procs[e].pc)) ==> e != INIT)
  }

  predicate ExitPc(pc: Pc) {
    pc.ExitScan? || ((pc.Waking? || pc.WakeHold?) && !pc.cont.Plain?) || pc.ExitGo? || pc.ExitLock? || pc.ExitHold?
  }

  predicate PidOk(s: State, k: nat)
    requires k < |s.procs|
  {
    var q := s.procs[k];
    !q.state.UNUSED? ==>
      && 0 < q.pid < s.nextpid
      && (q.state.ZOMBIE? <==> q.pid in s.exited) && (q.state.ZOMBIE? ==> s.exited[q.pid] == q.xstate)
      && (forall i :: 0 <= i < |s.delivered| ==> s.delivered[i].0 != q.pid)
  }

  ghost predicate Pids(s: State) {
    && (forall k :: 0 <= k < |s.procs| ==> PidOk(s, k))
    && (forall k, l :: 0 <= k < l < |s.procs| && !s.procs[k].state.UNUSED? && !s.procs[l].state.UNUSED? ==>
          s.procs[k].pid != s.procs[l].pid)
    && (forall pid :: pid in s.exited ==> pid < s.nextpid)
    && s.nextpid > 0
  }

  /** Every delivered status is one that a process exited with, and no process is delivered twice. */
  ghost predicate Deliveries(s: State) {
    && (forall i :: 0 <= i < |s.delivered| ==>
          s.delivered[i].0 in s.exited && s.exited[s.delivered[i].0] == s.delivered[i].1)
    && (forall i, j :: 0 <= i < j < |s.delivered| ==> s.delivered[i].0 != s.delivered[j].0)
  }

  ghost predicate Inv(s: State) {
    && Sized(s) && Placed(s) && Locks(s) && Forks(s) && Parents(s) && Waits(s) && Exits(s) && Pids(s) && Deliveries(s)
  }
}
