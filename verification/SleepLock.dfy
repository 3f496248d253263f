module SleepLock {
  // sleeplock.c over the process machine: one sleeplock, its spinlock lk->lk and its
  // field locked, and any number of threads in acquiresleep, releasesleep and
  // holdingsleep while the rest of the kernel goes on. sleep(lk, &lk->lk) takes the
  // thread's own lock, gives lk->lk back, sleeps, and takes lk->lk again.

  import opened Wrappers
  import opened ProcState
  import opened ProcMoves
  import opened ProcSteps

  /** Where a thread is with respect to the sleeplock. */
  datatype Place =
    | Out    // in none of its functions
    | Test   // in acquiresleep's loop, lk->lk held
    | Drop   // in sleep, its own lock and lk->lk held
    | Sleep  // in sleep, lk->lk given back
    | Wake   // in releasesleep, locked cleared, in wakeup or after it, lk->lk held
    | Done   // about to release lk->lk and return

  /**
    n is the address of the sleeplock, lk the thread that holds lk->lk. inside is
    who has got the sleeplock from acquiresleep and not called releasesleep since.
  */
  datatype Machine = Machine(s: State, n: nat, lk: Option<nat>, locked: bool, at: seq<Place>, inside: set<nat>)

  datatype Move =
    | Act(a: Action)   // a step of proc.c
    | Acquire          // acquire(&lk->lk) in acquiresleep and at the end of sleep
    | Loop             // the test of acquiresleep's loop, and what follows
    | Release          // acquire(&lk->lk) in releasesleep, clearing locked, and the call of wakeup
    | Holding          // acquire(&lk->lk) in holdingsleep
    | Unlock           // release(&lk->lk)

  predicate Shaped(m: Machine) {
    |m.at| == |m.s.procs|
  }

  /** The sleeplock's code lets thread p take a step of proc.c; only acquiresleep sleeps on its address. */
  predicate MayAct(m: Machine, p: nat, a: Action)
    requires Shaped(m) && p < |m.at|
  {
    match m.at[p]
    case Out => a != CallSleep(m.n)
    case Sleep => !m.s.procs[p].pc.Free?
    case Wake => !m.s.procs[p].pc.Free?
    case _ => false
  }

  function Step(m: Machine, c: nat, v: Move): Option<Machine>
    requires Shaped(m)
  {
    if c >= |m.s.cpus| || m.s.cpus[c].at.k >= |m.s.procs| then None
    else if v.Act? then
      var o := Do(m.s, c, v.a);
      if !o.Next? || (m.s.cpus[c].at.Away? && !MayAct(m, m.s.cpus[c].at.k, v.a)) then None
      else Some(m.(s := o.state))
    else if !m.s.cpus[c].at.Away? then None
    else SleepStep(m, c, m.s.cpus[c].at.k, v)
  }

  /** What thread p on CPU c does in the sleeplock's functions. */
  function SleepStep(m: Machine, c: nat, p: nat, v: Move): Option<Machine>
    requires Shaped(m) && Runs(m.s, c, p)
  {
    var pl, idle := m.at[p], m.s.procs[p].pc.Free?;
    match v
    case Acquire =>
      if idle && (pl.Out? || pl.Sleep?) && m.lk.None? then Some(m.(lk := Some(p), at := m.at[p := Test])) else None
    case Loop =>
      if !idle || !pl.Test? then None
      else if !m.locked then Some(m.(locked := true, at := m.at[p := Done], inside := m.inside + {p}))
      else
        var o := Do(m.s, c, CallSleep(m.n));
        if o.Next? then Some(m.(s := o.state, at := m.at[p := Drop])) else None
    case Release =>
      var o := Do(m.s, c, CallWakeup(m.n));
      if idle && pl.Out? && m.lk.None? && o.Next?
      then Some(Machine(o.state, m.n, Some(p), false, m.at[p := Wake], m.inside - {p}))
      else None
    case Holding =>
      if idle && pl.Out? && m.lk.None? then Some(m.(lk := Some(p), at := m.at[p := Done])) else None
    case Unlock =>
      if pl.Drop? then Some(m.(lk := None, at := m.at[p := Sleep]))
      else if idle && (pl.Wake? || pl.Done?) then Some(m.(lk := None, at := m.at[p := Out]))
      else None
    case Act(_) => None
  }

  // ----------------------------------------------------------------------------- invariant

  /** In sleep(n, ..), with its own lock or switched out. */
  predicate NapPc(pc: Pc, n: nat) {
    pc == Locked(Nap(n)) || pc == Leaving(Nap(n)) || pc == Parked(Nap(n)) || pc == Resumed(Nap(n))
  }

  /** In wakeup(n). */
  predicate WakePc(pc: Pc, n: nat) {
    (pc.Waking? || pc.WakeHold?) && pc.chan == Other(n) && pc.cont.Plain?
  }

  /** Has decided to sleep and nobody has woken it since. */
  predicate Unwoken(q: Proc, n: nat) {
    q.pc == Locked(Nap(n)) || q.pc == Leaving(Nap(n)) || (q.pc == Parked(Nap(n)) && q.state.SLEEPING?)
  }

  predicate HoldsLk(pl: Place) {
    pl.Test? || pl.Drop? || pl.Wake? || pl.Done?
  }

  predicate PlaceOk(m: Machine, p: nat)
    requires Shaped(m) && p < |m.at|
  {
    var pc := m.s.procs[p].pc;
    && (HoldsLk(m.at[p]) <==> m.lk == Some(p))
    && match m.at[p]
       case Out => !NapPc(pc, m.n)
       case Test => pc.Free?
       case Drop => pc == Locked(Nap(m.n)) && m.locked
       case Sleep => NapPc(pc, m.n) || pc.Free?
       case Wake => WakePc(pc, m.n) || pc.Free?
       case Done => pc.Free?
  }

  /** A loop of wakeup at pc is still to look at slot p. */
  predicate Ahead(pc: Pc, p: nat) {
    (pc.Waking? && pc.j <= p) || (pc.WakeHold? && pc.j < p)
  }

  /** The thread that holds lk->lk is in releasesleep and will come to slot p. */
  predicate Coming(m: Machine, p: nat) {
    && Shaped(m) && m.lk.Some? && m.lk.value < |m.at|
    && m.at[m.lk.value].Wake? && Ahead(m.s.procs[m.lk.value].pc, p)
  }

  ghost predicate Safe(m: Machine) {
    && Inv(m.s) && Shaped(m) && (m.lk.Some? ==> m.lk.value < |m.at|)
    && (forall p :: 0 <= p < |m.at| ==> PlaceOk(m, p))
    && (forall p :: 0 <= p < |m.at| && Unwoken(m.s.procs[p], m.n) ==> m.locked || Coming(m, p))
  }
}
