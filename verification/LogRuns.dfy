module LogRuns {
  // Runs of operations and commits over the log and the cache: every platter means a
  // snapshot throughout, and when can a log_write inside its reservation meet the
  // panic "too big a transaction"?

  import opened Sets
  import opened Blocks
  import opened BufferCache
  import opened CrashSpec
  import opened WriteAheadLog

  datatype Act =
    | Begin                          // begin_op that is admitted
    | Read(i: nat, x: nat)           // bread of block x, which gets buffer i
    | Edit(i: nat, data: Block)      // the holder changes b->data
    | Log(op: nat, b: nat)           // log_write that does not panic
    | Release(i: nat)                // brelse
    | End(op: nat)                   // end_op's bookkeeping; the last one sets log.committing
    | Commit(t: LogState)            // commit, which leads to t, and clearing log.committing

  /** bget may return buffer i for block x: it is cached there, or nowhere and i is unused. */
  predicate MayGet(c: CacheState, i: nat, x: nat) {
    && i < |c.bufs| == |c.refs| && x < |c.disk| && !c.bufs[i].locked
    && (c.Holds(i, x) || (c.bufs[i].refcnt == 0 && forall j :: 0 <= j < |c.bufs| ==> !c.Holds(j, x)))
  }

  /** bread: bget, acquiresleep and the disk read. */
  function Got(c: CacheState, i: nat, x: nat): CacheState
    requires MayGet(c, i, x)
  {
    (if c.Holds(i, x) then c.Hit(i) else c.Recycle(i, x)).Lock(i).Fill(i)
  }

  ghost predicate Enabled(s: LogState, a: Act) {
    match a
    case Begin => s.CanBegin()
    case Read(i, x) => MayGet(s.c, i, x)
    case Edit(i, _) => s.c.Held(i)
    case Log(op, b) => s.MayLog(op, b) && s.c.Held(b) && !s.l.InLog(s.c.bufs[b].blockno) && !TooBig(s)
    case Release(i) => Releasable(s.c, i)
    case End(op) => op < |s.ops| && s.ops[op].live && s.outstanding > 0
    case Commit(t) => s.committing && Committed(s, t)
  }

  predicate Releasable(c: CacheState, i: nat) {
    && c.Held(i) && |c.bufs| == |c.refs| && c.refs[i] > 0 && c.bufs[i].refcnt > 0
    && c.bufs[i].blockno < |c.logical| && c.bufs[i].data == c.logical[c.bufs[i].blockno]
  }

  ghost function Next(s: LogState, a: Act): LogState
    requires Enabled(s, a)
  {
    match a
    case Begin => s.BeginOp()
    case Read(i, x) => s.(c := Got(s.c, i, x))
    case Edit(i, data) => s.(c := s.c.SetData(i, data))
    case Log(op, b) => s.LogWrite(op, b)
    case Release(i) => s.(c := s.c.Brelse(i))
    case End(op) => s.EndOp(op)
    case Commit(t) => t.(committing := false)
  }

  /** t is reached from s by the actions, in this order. */
  ghost predicate Run(s: LogState, acts: seq<Act>, t: LogState)
    decreases |acts|
  {
    if acts == [] then t == s else Enabled(s, acts[0]) && Run(Next(s, acts[0]), acts[1..], t)
  }

  lemma {:induction false} RunConcat(s: LogState, a: seq<Act>, t: LogState, b: seq<Act>, u: LogState)
    requires Run(s, a, t) && Run(t, b, u)
    ensures Run(s, a + b, u)
    decreases |a|
  {
    if a == [] {
      assert a + b == b;
    } else {
      RunConcat(Next(s, a[0]), a[1..], t, b, u);
      assert (a + b)[1..] == a[1..] + b;
    }
  }

  // ------------------------------------------------------------------ what a run keeps

  lemma GotInv(c: CacheState, i: nat, x: nat)
    requires c.Inv() && MayGet(c, i, x)
    ensures Got(c, i, x).Inv()
    ensures var d := Got(c, i, x);
      && d.pin == c.pin && d.disk == c.disk && d.trace == c.trace && d.logical == c.logical && d.dev == c.dev
      && d.refs == c.refs[i := c.refs[i] + 1] && d.Held(i) && d.bufs[i].blockno == x && d.bufs[i].data == d.logical[x]
  {
    hide CacheState.Unique, CacheState.Counted, CacheState.Coherent;
    if c.Holds(i, x) {
      if c.bufs[i].valid { ShownFacts(c, i, x); }
      HitInv(c, i);
      LockInv(c.Hit(i), i);
      FillInv(c.Hit(i).Lock(i), i);
    } else {
      RecycleInv(c, i, x);
      LockInv(c.Recycle(i, x), i);
      FillInv(c.Recycle(i, x).Lock(i), i);
    }
  }

  /** A cache step that leaves pins, disk and trace alone keeps the log's invariant. */
  lemma CacheStepInv(s: LogState, d: CacheState)
    requires s.Inv() && d.Inv() && d.pin == s.c.pin && d.disk == s.c.disk && d.trace == s.c.trace
    ensures s.(c := d).Inv()
  {
    hide CacheState.Inv, History, Wf, SameHome;
  }

  lemma NextInv(s: LogState, a: Act)
    requires s.Inv() && Enabled(s, a)
    ensures Next(s, a).Inv() && Next(s, a).l == s.l
    ensures s.c.trace <= Next(s, a).c.trace && s.snaps <= Next(s, a).snaps && s.epochs <= Next(s, a).epochs
  {
    hide LogState.Inv, CacheState.Inv, Got;
    LogHasCache(s);
    match a
    case Begin => BeginOpInv(s);
    case Read(i, x) =>
      GotInv(s.c, i, x);
      CacheStepInv(s, Got(s.c, i, x));
    case Edit(i, data) =>
      HeldFacts(s.c, i);
      SetDataInv(s.c, i, data);
      CacheStepInv(s, s.c.SetData(i, data));
    case Log(op, b) => LogWriteInv(s, op, b);
    case Release(i) =>
      BrelseInv(s.c, i);
      CacheStepInv(s, s.c.Brelse(i));
    case End(op) => EndOpInv(s, op);
    case Commit(t) =>
      CommitInv(s, t);
      CommittedInv(t);
  }

  lemma LogHasCache(s: LogState)
    requires s.Inv()
    ensures s.c.Inv() && (s.committing ==> s.outstanding == 0)
  {
  }

  /** Every platter written in a run is still part of the history at its end, and means a snapshot. */
  lemma {:induction false} RunKeeps(s: LogState, acts: seq<Act>, t: LogState)
    requires s.Inv() && Run(s, acts, t)
    ensures t.Inv() && t.l == s.l
    ensures s.c.trace <= t.c.trace && s.snaps <= t.snaps && s.epochs <= t.epochs
    ensures History(t.l, t.c.trace, t.snaps, t.epochs)
    decreases |acts|
  {
    hide LogState.Inv, Enabled, Next, History;
    if acts != [] {
      NextInv(s, acts[0]);
      RunKeeps(Next(s, acts[0]), acts[1..], t);
    }
    HistoryFacts(t);
  }

  // ------------------------------------------------------------------ filling the log

  /** Nothing logged, nobody inside, no buffer in use, and LOGSIZE home blocks behind the log. */
  ghost predicate Fresh(s: LogState) {
    && s.Inv() && s.blocks == [] && s.ops == [] && !s.committing && AllReleased(s.c)
    && s.l.start + s.l.size + LOGSIZE <= |s.c.disk|
  }

  ghost predicate AllReleased(c: CacheState) {
    forall i :: 0 <= i < |c.refs| ==> c.refs[i] == 0
  }

  /** Three operations have logged the k blocks behind the log, each spending its quota before the next starts. */
  ghost predicate Filled(s: LogState, l: Layout, k: nat) {
    && s.Inv() && s.l == l && k <= LOGSIZE && AllReleased(s.c) && l.start + l.size + LOGSIZE <= |s.c.disk|
    && |s.blocks| == k && (forall j :: 0 <= j < k ==> s.blocks[j] == l.start + l.size + j)
    && |s.ops| == 3 && s.ops == [Op(true, Left(k, 0)), Op(true, Left(k, 10)), Op(true, Left(k, 20))]
  }

  /** Of ten reserved blocks, those left after k blocks when the quota starts at base. */
  function Left(k: nat, base: nat): nat {
    if k <= base then 10 else if k < base + 10 then base + 10 - k else 0
  }

  lemma {:induction false} KeysBound(pin: map<nat, nat>, blocks: seq<nat>)
    requires PinsAre(pin, blocks)
    ensures |pin| <= |blocks|
    decreases |blocks|
  {
    if blocks == [] {
      assert pin == map[];
    } else {
      var x := blocks[0];
      var pin' := pin - {x};
      if x in blocks[1..] {
        KeysBound(pin, blocks[1..]);
      } else {
        assert PinsAre(pin', blocks[1..]);
        KeysBound(pin', blocks[1..]);
        assert pin.Keys == pin'.Keys + {x};
      }
    }
  }

  lemma {:induction false} ValuesBound(pin: map<nat, nat>)
    ensures |pin.Values| <= |pin|
    decreases |pin|
  {
    if pin != map[] {
      var x :| x in pin;
      var pin' := pin - {x};
      assert pin.Keys == pin'.Keys + {x};
      ValuesBound(pin');
      assert pin.Values <= pin'.Values + {pin[x]};
      SubsetSize(pin.Values, pin'.Values + {pin[x]});
    } else {
      assert pin.Values == {};
    }
  }

  lemma {:induction false} UpTo(n: nat) returns (r: set<nat>)
    ensures |r| == n && forall i: nat :: i in r <==> i < n
  {
    if n == 0 {
      r := {};
    } else {
      r := UpTo(n - 1);
      r := r + {n - 1};
    }
  }

  /** With fewer than NBUF blocks pinned and no buffer in use, bget finds a buffer. */
  lemma SomeBuffer(c: CacheState, blocks: seq<nat>, x: nat) returns (i: nat)
    requires c.Inv() && PinsAre(c.pin, blocks) && |blocks| < NBUF && AllReleased(c) && x < |c.disk|
    ensures MayGet(c, i, x)
  {
    hide CacheState.Unique, CacheState.Coherent;
    if j: nat :| j < NBUF && c.Holds(j, x) {
      return j;
    }
    KeysBound(c.pin, blocks);
    ValuesBound(c.pin);
    var all := UpTo(NBUF);
    if forall j :: 0 <= j < NBUF ==> c.bufs[j].refcnt > 0 {
      forall j | j in all ensures j in c.pin.Values {
        assert c.Pinned(j);
      }
      SubsetSize(all, c.pin.Values);
      assert false;
    }
    i :| 0 <= i < NBUF && c.bufs[i].refcnt == 0;
  }

  /** One more block: bread, log_write, brelse. */
  lemma FillOne(s: LogState, l: Layout, k: nat) returns (acts: seq<Act>, t: LogState)
    requires Filled(s, l, k) && k < LOGSIZE && k < l.size - 1
    ensures Run(s, acts, t) && Filled(t, l, k + 1)
  {
    var x, op := l.start + l.size + k, k / 10;
    var i := NextBuffer(s, l, k);
    var s1 := Next(s, Read(i, x));
    ReadReady(s, l, k, i);
    var s2 := Next(s1, Log(op, i));
    LogReady(s, s1, l, k, i);
    t := Next(s2, Release(i));
    acts := [Read(i, x), Log(op, i), Release(i)];
    ThreeActs(s, acts, s1, s2, t);
  }

  lemma ThreeActs(s: LogState, acts: seq<Act>, s1: LogState, s2: LogState, t: LogState)
    requires |acts| == 3 && Enabled(s, acts[0]) && s1 == Next(s, acts[0]) && Enabled(s1, acts[1])
    requires s2 == Next(s1, acts[1]) && Enabled(s2, acts[2]) && t == Next(s2, acts[2])
    ensures Run(s, acts, t)
  {
    hide Enabled, Next;
    assert Run(t, [], t);
    assert acts[1..][1..] == [acts[2]] && acts[2..][1..] == [];
    assert Run(s2, acts[2..], t);
    assert acts[1..][1..] == acts[2..];
    assert Run(s1, acts[1..], t);
  }

  lemma NextBuffer(s: LogState, l: Layout, k: nat) returns (i: nat)
    requires Filled(s, l, k) && k < LOGSIZE
    ensures Enabled(s, Read(i, l.start + l.size + k))
  {
    hide CacheState.Inv;
    i := SomeBuffer(s.c, s.blocks, l.start + l.size + k);
  }

  lemma ReadReady(s: LogState, l: Layout, k: nat, i: nat)
    requires Filled(s, l, k) && k < LOGSIZE && k < l.size - 1 && Enabled(s, Read(i, l.start + l.size + k))
    ensures var s1 := Next(s, Read(i, l.start + l.size + k));
      && s1.Inv() && Enabled(s1, Log(k / 10, i)) && s1 == s.(c := s1.c) && s1.c.bufs[i].blockno == l.start + l.size + k
      && |s1.c.disk| == |s.c.disk| && s1.c.refs == s.c.refs[i := 1]
  {
    hide CacheState.Inv, Got, LogState.Inv;
    LogHasCache(s);
    GotInv(s.c, i, l.start + l.size + k);
    NextInv(s, Read(i, l.start + l.size + k));
    var s1 := Next(s, Read(i, l.start + l.size + k));
    Sizes(s1.c);
    assert s.ops[k / 10].live && s.ops[k / 10].left > 0;
  }

  lemma LogReady(s: LogState, s1: LogState, l: Layout, k: nat, i: nat)
    requires Filled(s, l, k) && k < LOGSIZE && k < l.size - 1
    requires s1.Inv() && Enabled(s1, Log(k / 10, i)) && s1 == s.(c := s1.c)
    requires s1.c.bufs[i].blockno == l.start + l.size + k
    requires |s1.c.disk| == |s.c.disk| && i < |s.c.refs| && s1.c.refs == s.c.refs[i := 1]
    ensures var s2 := Next(s1, Log(k / 10, i));
      Enabled(s2, Release(i)) && Filled(Next(s2, Release(i)), l, k + 1)
  {
    hide CacheState.Inv, LogState.Inv;
    LogHasCache(s1);
    NextInv(s1, Log(k / 10, i));
    var s2 := Next(s1, Log(k / 10, i));
    HeldFacts(s1.c, i);
    assert s1.c.bufs[i].blockno !in s1.blocks;
    assert Enabled(s2, Release(i));
    NextInv(s2, Release(i));
  }

  /** begin_op admits an operation while at most two are in progress and nothing is logged. */
  lemma Admitted(s: LogState)
    requires s.Inv() && s.blocks == [] && !s.committing && Live(s.ops) <= 2
    ensures s.CanBegin() && s.BeginOp().Inv()
    ensures s.BeginOp() == s.(outstanding := s.outstanding + 1, ops := s.ops + [Op(true, MAXOPBLOCKS)])
    ensures Live(s.BeginOp().ops) == Live(s.ops) + 1
  {
    assert s.outstanding == Live(s.ops);
    hide LogState.Inv;
    OpsAppend(s.ops, Op(true, MAXOPBLOCKS));
    BeginOpInv(s);
  }

  /** Three operations are admitted. */
  lemma ThreeBegin(s: LogState) returns (acts: seq<Act>, t: LogState)
    requires Fresh(s)
    ensures Run(s, acts, t) && Filled(t, s.l, 0)
  {
    hide LogState.Inv, Run, AllReleased, LogState.CanBegin, LogState.BeginOp;
    Admitted(s);
    var s1 := s.BeginOp();
    Admitted(s1);
    var s2 := s1.BeginOp();
    Admitted(s2);
    t := s2.BeginOp();
    acts := [Begin, Begin, Begin];
    ThreeActs(s, acts, s1, s2, t);
  }

  lemma {:induction false} FillTo(s: LogState, k: nat) returns (acts: seq<Act>, t: LogState)
    requires Fresh(s) && k <= LOGSIZE && k <= s.l.size - 1
    ensures Run(s, acts, t) && Filled(t, s.l, k)
    decreases k
  {
    hide Fresh, Filled, Run;
    if k == 0 {
      acts, t := ThreeBegin(s);
    } else {
      acts, t := FillTo(s, k - 1);
      var more, u := FillOne(t, s.l, k - 1);
      RunConcat(s, acts, t, more, u);
      acts, t := acts + more, u;
    }
  }

  // ------------------------------------------------------------------------- the theorems

  /** Operation op has reserved blocks left, and yet its next log_write panics. */
  predicate Overrun(s: LogState, op: nat) {
    op < |s.ops| && s.ops[op].live && s.ops[op].left > 0 && TooBig(s)
  }

  /** Some run from s leads to such a panic. */
  ghost predicate CanOverrun(s: LogState) {
    exists acts, t, op :: Run(s, acts, t) && Overrun(t, op)
  }

  /**
    A reserved log_write can meet the panic if and only if the log, header
    included, has no more than LOGSIZE blocks. mkfs makes it exactly LOGSIZE.
  */
  lemma ReservationIff(s: LogState)
    requires Fresh(s)
    ensures CanOverrun(s) <==> s.l.size <= LOGSIZE
  {
    assert s.l.size >= 1;
    hide CacheState.Inv, LogState.Inv, Filled, Run;
    if s.l.size <= LOGSIZE {
      var k := s.l.size - 1;
      var acts, t := FillTo(s, k);
      FilledFacts(t, s.l, k);
      assert Overrun(t, 2);
      assert CanOverrun(s);
    } else if acts, t, op :| Run(s, acts, t) && Overrun(t, op) {
      RunKeeps(s, acts, t);
      ReservationSuffices(t, op);
    }
  }

  lemma FilledFacts(t: LogState, l: Layout, k: nat)
    requires Filled(t, l, k)
    ensures |t.blocks| == k && t.l == l && |t.ops| == 3 && t.ops[2].live && t.ops[2].left == Left(k, 20)
    ensures t.ops[0].live && t.ops[0].left == Left(k, 0)
  {
  }

  /** In a larger log the whole reservation fits, and then even a log_write that would be absorbed panics. */
  lemma FullTransaction(s: LogState) returns (acts: seq<Act>, t: LogState)
    requires Fresh(s) && s.l.size > LOGSIZE
    ensures Run(s, acts, t) && |t.blocks| == LOGSIZE && TooBig(t)
    ensures 0 < |t.ops| && t.ops[0].live && forall x :: x in t.blocks ==> s.l.start + s.l.size <= x
  {
    hide CacheState.Inv, LogState.Inv, Run;
    acts, t := FillTo(s, LOGSIZE);
  }
}
