/**
  push_off and pop_off: one CPU's interrupt enable bit, the nesting depth noff and
  the saved state intena. sched carries intena along when a thread changes CPUs.
*/
module SpinLock {
  import opened Wrappers

  datatype Irq = Irq(on: bool, noff: nat, intena: bool)

  datatype Op = Push | Pop

  function PushOff(s: Irq): Irq {
    Irq(false, s.noff + 1, if s.noff == 0 then s.on else s.intena)
  }

  /** None is one of pop_off's two panics. */
  function PopOff(s: Irq): Option<Irq> {
    if s.on || s.noff < 1 then None
    else Some(Irq(s.noff == 1 && s.intena, s.noff - 1, s.intena))
  }

  function Run(s: Irq, ops: seq<Op>): Option<Irq>
    decreases |ops|
  {
    if ops == [] then Some(s)
    else if ops[0].Push? then Run(PushOff(s), ops[1..])
    else match PopOff(s) case None => None case Some(t) => Run(t, ops[1..])
  }

  /** Pushes minus pops. */
  function Depth(ops: seq<Op>): int {
    if ops == [] then 0 else Depth(ops[..|ops| - 1]) + if ops[|ops| - 1].Push? then 1 else -1
  }

  /** No pop comes before its push. */
  predicate Nested(ops: seq<Op>) {
    forall k :: 0 <= k <= |ops| ==> Depth(ops[..k]) >= 0
  }

  lemma {:induction false} RunSnoc(s: Irq, ops: seq<Op>, op: Op)
    ensures Run(s, ops + [op]) ==
      match Run(s, ops)
      case None => None
      case Some(t) => if op.Push? then Some(PushOff(t)) else PopOff(t)
    decreases |ops|
  {
    var all := ops + [op];
    if ops == [] {
      assert all == [op] && all[1..] == [];
      if op.Push? {
        assert Run(PushOff(s), all[1..]) == Some(PushOff(s));
      }
    } else {
      assert all[0] == ops[0] && all[1..] == ops[1..] + [op];
      if ops[0].Push? {
        RunSnoc(PushOff(s), ops[1..], op);
      } else if PopOff(s).Some? {
        RunSnoc(PopOff(s).value, ops[1..], op);
      }
    }
  }

  /**
    After any properly nested pushes and pops from depth 0 there was no panic, the
    depth is the number of open pushes, interrupts are off while any is open, and
    at depth 0 they are as they were at the start.
  */
  lemma {:induction false} NestingRestores(s: Irq, ops: seq<Op>)
    requires s.noff == 0 && Nested(ops)
    ensures var r := Run(s, ops);
      && r.Some? && r.value.noff == Depth(ops)
      && r.value.on == (Depth(ops) == 0 && s.on)
      && (Depth(ops) > 0 ==> r.value.intena == s.on)
    decreases |ops|
  {
    if ops != [] {
      var p := ops[..|ops| - 1];
      forall k | 0 <= k <= |p| ensures Depth(p[..k]) >= 0 {
        assert p[..k] == ops[..k];
      }
      NestingRestores(s, p);
      RunSnoc(s, p, ops[|ops| - 1]);
      assert ops == p + [ops[|ops| - 1]];
      assert ops[..|ops|] == ops;
      assert Depth(ops[..|ops|]) >= 0;
    }
  }

  class Cpu {
    var on: bool
    var noff: nat
    var intena: bool

    ghost function State(): Irq
      reads this
    {
      Irq(on, noff, intena)
    }

    method Push_off()
      modifies this
      ensures State() == PushOff(old(State()))
    {
      var was := on;
      on := false;
      if noff == 0 {
        intena := was;
      }
      noff := noff + 1;
    }

    method Pop_off() returns (ok: bool)
      modifies this
      ensures ok <==> PopOff(old(State())).Some?
      ensures ok ==> State() == PopOff(old(State())).value
    {
      if on || noff < 1 {
        return false;
      }
      noff := noff - 1;
      if noff == 0 && intena {
        on := true;
      }
      return true;
    }
  }
}
