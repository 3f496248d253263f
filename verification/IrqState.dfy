module IrqState {
  // Interrupts in the process machine. Every acquire is a push_off and every
  // release a pop_off on the CPU that does it; sched carries a thread's intena
  // from the CPU it leaves to the CPU it comes back on.
  //
  // Besides its place in proc.c a thread may hold other spinlocks (ext counts
  // them: tickslock, a pipe's lock, the lk of sleep). home is the interrupt state
  // the thread had when it last held no spinlock; saved is sched's local variable.

  import opened Wrappers
  import opened ProcState
  import opened ProcMoves
  import opened ProcEdits
  import opened ProcSwitch
  import opened ProcSteps
  import SpinLock

  type Irq = SpinLock.Irq

  datatype Thread = Thread(ext: nat, saved: bool, home: bool)

  datatype Machine = Machine(s: State, irq: seq<Irq>, th: seq<Thread>)

  /** A step of proc.c, another spinlock taken or given back, or interrupts switched by a thread without spinlocks. */
  datatype Move = Act(a: Action) | Take | Give | Set(on: bool)

  datatype Result = Ok(m: Machine) | No | PopPanic | SchedPanic | ReleasePanic

  /** The locks of proc.c a thread holds at pc. */
  function Weight(pc: Pc, p: nat): nat {
    (if LockOf(pc, p).Some? then 1 else 0) + (if HoldsWait(pc) then 1 else 0)
  }

  /** The spinlocks CPU c holds: one in its scheduler at a slot, or those of the thread it runs. */
  function Held(m: Machine, c: nat): nat
    requires c < |m.s.cpus|
  {
    var at := m.s.cpus[c].at;
    if at.Look? then 0
    else if !at.Away? then 1
    else if at.k < |m.s.procs| && at.k < |m.th| then Weight(m.s.procs[at.k].pc, at.k) + m.th[at.k].ext
    else 0
  }

  predicate Shaped(m: Machine) {
    |m.irq| == |m.s.cpus| && |m.th| == |m.s.procs|
  }

  /** The thread c runs, if it is outside all functions of proc.c. */
  predicate AtRest(m: Machine, c: nat) {
    && c < |m.s.cpus| && m.s.cpus[c].at.Away? && m.s.cpus[c].at.k < |m.s.procs|
    && m.s.procs[m.s.cpus[c].at.k].pc.Free?
  }

  function WithIrq(m: Machine, c: nat, i: Irq): Machine
    requires c < |m.irq|
  {
    m.(irq := m.irq[c := i])
  }

  function WithThread(m: Machine, p: nat, t: Thread): Machine
    requires p < |m.th|
  {
    m.(th := m.th[p := t])
  }

  /** pop_off on CPU c of m. */
  function Popped(m: Machine, c: nat): Result
    requires c < |m.irq|
  {
    match SpinLock.PopOff(m.irq[c])
    case None => PopPanic
    case Some(i) => Ok(WithIrq(m, c, i))
  }

  function Pushed(m: Machine, c: nat): Machine
    requires c < |m.irq|
  {
    WithIrq(m, c, SpinLock.PushOff(m.irq[c]))
  }

  /** The scheduler of CPU c goes from m to process table t. */
  function SchedulerMove(m: Machine, c: nat, t: State): Result
    requires Shaped(m) && c < |m.s.cpus| == |t.cpus| && m.s.cpus[c].at.k < |m.s.procs|
  {
    var k := m.s.cpus[c].at.k;
    match m.s.cpus[c].at
    case Look(_) =>
      var u := Pushed(m.(s := t), c);
      if !t.cpus[c].at.Away? then Ok(u)
      else if m.s.procs[k].pc.Parked? then Ok(WithIrq(u, c, u.irq[c].(intena := m.th[k].saved)))
      else Ok(WithThread(u, k, Thread(0, false, u.irq[c].intena)))
    case Hold(_) =>
      var r := Popped(m.(s := t), c);
      if r.Ok? && t.cpus[c].at.k == 0 then Ok(WithIrq(r.m, c, r.m.irq[c].(on := true))) else r
    case _ => Ok(m.(s := t))
  }

  /** Thread p on CPU c goes from m to process table t. */
  function ThreadMove(m: Machine, c: nat, p: nat, t: State): Result
    requires Shaped(m) && c < |m.s.cpus| && p < |m.s.procs| == |t.procs|
  {
    var pc, h, u := m.s.procs[p].pc, m.th[p], m.(s := t);
    if pc.Leaving? then
      if m.irq[c].noff != 1 || m.irq[c].on then SchedPanic
      else Ok(WithThread(u, p, h.(saved := m.irq[c].intena)))
    else if pc.Locked? && pc.why.Nap? then
      if h.ext == 0 then ReleasePanic
      else Popped(WithThread(u, p, h.(ext := h.ext - 1)), c)
    else if pc.Resumed? && pc.why.Nap? then
      var r := Popped(WithThread(u, p, h.(ext := h.ext + 1)), c);
      if r.Ok? then Ok(Pushed(r.m, c)) else r
    else if Weight(t.procs[p].pc, p) > Weight(pc, p) then Ok(Pushed(u, c))
    else if Weight(t.procs[p].pc, p) < Weight(pc, p) then Popped(u, c)
    else Ok(u)
  }

  function Step(m: Machine, c: nat, v: Move): Result
    requires Shaped(m)
  {
    if c >= |m.s.cpus| then No
    else match v
      case Act(a) =>
        var o := Do(m.s, c, a);
        if !o.Next? || m.s.cpus[c].at.k >= |m.s.procs| then No
        else if |o.state.procs| != |m.s.procs| || |o.state.cpus| != |m.s.cpus| then No
        else if m.s.cpus[c].at.Away? then ThreadMove(m, c, m.s.cpus[c].at.k, o.state)
        else SchedulerMove(m, c, o.state)
      case Take => if AtRest(m, c) then Ok(Pushed(Ext(m, c, 1), c)) else No
      case Give => if AtRest(m, c) && m.th[m.s.cpus[c].at.k].ext > 0 then Popped(Ext(m, c, -1), c) else No
      case Set(on) =>
        if AtRest(m, c) && m.th[m.s.cpus[c].at.k].ext == 0 then
          var p := m.s.cpus[c].at.k;
          Ok(WithThread(WithIrq(m, c, m.irq[c].(on := on)), p, m.th[p].(home := on)))
        else No
  }

  /** The thread c runs holds n more other spinlocks. */
  function Ext(m: Machine, c: nat, n: int): Machine
    requires Shaped(m) && AtRest(m, c) && m.th[m.s.cpus[c].at.k].ext + n >= 0
  {
    var p := m.s.cpus[c].at.k;
    WithThread(m, p, m.th[p].(ext := m.th[p].ext + n))
  }

  // ----------------------------------------------------------------------------- invariant

  /** CPU c: noff counts its spinlocks, interrupts are off while it has any, and its thread's state is remembered. */
  predicate CpuSound(m: Machine, c: nat)
    requires Shaped(m) && c < |m.s.cpus|
  {
    var i, at, n := m.irq[c], m.s.cpus[c].at, Held(m, c);
    && i.noff == n && (n > 0 ==> !i.on)
    && (at.Away? && at.k < |m.s.procs| ==> m.th[at.k].home == if n == 0 then i.on else i.intena)
  }

  /** A thread that is switched out holds no other spinlocks, and sched has its interrupt state. */
  predicate ParkedSound(m: Machine, p: nat)
    requires Shaped(m) && p < |m.s.procs|
  {
    m.s.procs[p].pc.Parked? ==> m.th[p].ext == 0 && m.th[p].saved == m.th[p].home
  }

  ghost predicate Consistent(m: Machine) {
    && Inv(m.s) && Shaped(m)
    && (forall c :: 0 <= c < |m.s.cpus| ==> CpuSound(m, c))
    && (forall p :: 0 <= p < |m.s.procs| ==> ParkedSound(m, p))
  }
}
