module WriteAheadLog {
  // log.c over the buffer cache of bio.c: group commit, absorption, recovery and
  // the reservation that keeps a transaction inside the log.
  //
  // A history is a sequence of TryBeginOp, LogWrite and EndOp calls by any number
  // of operations, interleaved with cache calls. A panic is a result (false); the
  // machine stops there, and History still describes every platter it left.

  import opened Blocks
  import opened BufferCache
  import opened CrashSpec

  /** A file-system operation between begin_op and end_op, with its unspent log_write calls. */
  datatype Op = Op(live: bool, left: nat)

  function Live(ops: seq<Op>): nat {
    if ops == [] then 0 else (if ops[0].live then 1 else 0) + Live(ops[1..])
  }

  function Unspent(ops: seq<Op>): nat {
    if ops == [] then 0 else (if ops[0].live then ops[0].left else 0) + Unspent(ops[1..])
  }

  lemma {:induction false} OpsUpdate(ops: seq<Op>, k: nat, o: Op)
    requires k < |ops|
    ensures Live(ops[k := o]) == Live(ops) - (if ops[k].live then 1 else 0) + (if o.live then 1 else 0)
    ensures Unspent(ops[k := o]) ==
            Unspent(ops) - (if ops[k].live then ops[k].left else 0) + (if o.live then o.left else 0)
  {
    if k == 0 {
      assert ops[k := o][1..] == ops[1..];
    } else {
      OpsUpdate(ops[1..], k - 1, o);
      assert ops[k := o][1..] == ops[1..][k - 1 := o];
    }
  }

  lemma {:induction false} OpsAppend(ops: seq<Op>, o: Op)
    ensures Live(ops + [o]) == Live(ops) + (if o.live then 1 else 0)
    ensures Unspent(ops + [o]) == Unspent(ops) + (if o.live then o.left else 0)
  {
    if ops == [] {
      assert ops + [o] == [o];
    } else {
      OpsAppend(ops[1..], o);
      assert (ops + [o])[1..] == ops[1..] + [o];
    }
  }

  lemma {:induction false} UnspentBound(ops: seq<Op>)
    requires forall k :: 0 <= k < |ops| ==> ops[k].left <= MAXOPBLOCKS
    ensures Unspent(ops) <= Live(ops) * MAXOPBLOCKS
  {
    if ops != [] {
      UnspentBound(ops[1..]);
    }
  }

  lemma {:induction false} LiveMember(ops: seq<Op>, k: nat)
    requires k < |ops| && ops[k].live
    ensures Live(ops) >= 1 && Unspent(ops) >= ops[k].left
  {
    if k > 0 {
      LiveMember(ops[1..], k - 1);
    }
  }

  ghost predicate Distinct(blocks: seq<nat>) {
    forall i, j :: 0 <= i < j < |blocks| ==> blocks[i] != blocks[j]
  }

  /** The pinned blocks are exactly those of the transaction. */
  ghost predicate PinsAre(pin: map<nat, nat>, blocks: seq<nat>) {
    forall x :: x in pin <==> x in blocks
  }

  lemma PinsShrink(pin: map<nat, nat>, blocks: seq<nat>, k: nat)
    requires k < |blocks| && Distinct(blocks) && PinsAre(pin, blocks[k..])
    ensures blocks[k] in pin && PinsAre(pin - {blocks[k]}, blocks[k + 1..])
  {
    assert blocks[k..] == [blocks[k]] + blocks[k + 1..];
  }

  lemma AllUnpinned(pin: map<nat, nat>, blocks: seq<nat>)
    requires PinsAre(pin, blocks[|blocks|..])
    ensures pin == map[]
  {
    assert forall x :: x !in pin;
  }

  /**
    Every platter of the trace means a snapshot, and never an older one than the
    platter before it: epochs[i] is the snapshot that trace[i] means.
  */
  ghost predicate History(l: Layout, trace: seq<Disk>, snaps: seq<Disk>, epochs: seq<nat>) {
    && |epochs| == |trace| && 0 < |snaps|
    && (forall i :: 0 <= i < |trace| ==> Means(l, trace[i], snaps, epochs[i]))
    && (forall i, j :: 0 <= i < j < |epochs| ==> epochs[i] <= epochs[j])
  }

  /** A complete recovery of platter d yields the e-th snapshot. */
  ghost predicate Means(l: Layout, d: Disk, snaps: seq<Disk>, e: nat) {
    e < |snaps| && Wf(l, d) && SameHome(l, Recovered(l, d), snaps[e])
  }

  function Repeat(k: nat, e: nat): (r: seq<nat>)
    ensures |r| == k
  {
    seq(k, _ => e)
  }

  /** More platters that mean the newest snapshot, or one that has just been added. */
  lemma HistoryExtend(l: Layout, trace: seq<Disk>, snaps: seq<Disk>, epochs: seq<nat>,
                      more: seq<Disk>, snaps': seq<Disk>)
    requires History(l, trace, snaps, epochs) && snaps <= snaps'
    requires forall j :: 0 <= j < |more| ==> Means(l, more[j], snaps', |snaps'| - 1)
    ensures History(l, trace + more, snaps', epochs + Repeat(|more|, |snaps'| - 1))
  {
    hide Wf, SameHome, Recovered;
  }

  /** What the j-th platter of a commit means. */
  lemma CommitPlatterMeans(l: Layout, snaps: seq<Disk>, d: Disk, blocks: seq<nat>, view: Disk, j: nat)
    requires 0 < |snaps| && Wf(l, d) && HdrN(d[l.start]) == 0 && SameHome(l, d, snaps[|snaps| - 1])
    requires WfTxn(l, |d|, blocks) && |view| == |d| && Words32(blocks)
    requires SameHome(l, Applied(d, blocks, view), view)
    requires j < 2 * |blocks| + 2
    ensures if j < |blocks| then Means(l, CommitTrace(l, d, blocks, view)[j], snaps, |snaps| - 1)
            else Means(l, CommitTrace(l, d, blocks, view)[j], snaps + [view], |snaps|)
  {
    hide Wf, Recovered, CommitStep, CommitTrace;
    CommitTraceAt(l, d, blocks, view, j);
    CommitIsAtomic(l, d, blocks, view, j + 1);
  }

  /** The platters of a commit cut short before its commit point extend the history. */
  lemma UncommittedHistory(l: Layout, trace: seq<Disk>, snaps: seq<Disk>, epochs: seq<nat>,
                           d: Disk, blocks: seq<nat>, view: Disk, m: nat)
    requires History(l, trace, snaps, epochs) && 0 < |snaps|
    requires Wf(l, d) && HdrN(d[l.start]) == 0 && SameHome(l, d, snaps[|snaps| - 1])
    requires WfTxn(l, |d|, blocks) && |view| == |d| && Words32(blocks)
    requires SameHome(l, Applied(d, blocks, view), view)
    requires m <= |blocks|
    ensures History(l, trace + CommitTrace(l, d, blocks, view)[..m], snaps, epochs + Repeat(m, |snaps| - 1))
  {
    hide History, Means, Wf, SameHome, Applied, WfTxn, CommitTrace;
    var first := CommitTrace(l, d, blocks, view)[..m];
    forall j | 0 <= j < |first| ensures Means(l, first[j], snaps, |snaps| - 1) {
      CommitPlatterMeans(l, snaps, d, blocks, view, j);
    }
    HistoryExtend(l, trace, snaps, epochs, first, snaps);
  }

  /** The platters of a commit that got past its commit point add a snapshot to the history. */
  lemma CommittedHistory(l: Layout, trace: seq<Disk>, snaps: seq<Disk>, epochs: seq<nat>,
                         d: Disk, blocks: seq<nat>, view: Disk, m: nat)
    requires History(l, trace, snaps, epochs) && 0 < |snaps|
    requires Wf(l, d) && HdrN(d[l.start]) == 0 && SameHome(l, d, snaps[|snaps| - 1])
    requires WfTxn(l, |d|, blocks) && |view| == |d| && Words32(blocks)
    requires SameHome(l, Applied(d, blocks, view), view)
    requires |blocks| < m <= 2 * |blocks| + 2
    ensures History(l, trace + CommitTrace(l, d, blocks, view)[..m], snaps + [view],
                    epochs + Repeat(|blocks|, |snaps| - 1) + Repeat(m - |blocks|, |snaps|))
  {
    hide History, Means, Wf, SameHome, Applied, WfTxn, CommitTrace;
    UncommittedHistory(l, trace, snaps, epochs, d, blocks, view, |blocks|);
    var t, snaps' := CommitTrace(l, d, blocks, view), snaps + [view];
    var rest := t[|blocks|..m];
    forall j | 0 <= j < |rest| ensures Means(l, rest[j], snaps', |snaps'| - 1) {
      CommitPlatterMeans(l, snaps, d, blocks, view, |blocks| + j);
    }
    HistoryExtend(l, trace + t[..|blocks|], snaps, epochs + Repeat(|blocks|, |snaps| - 1), rest, snaps');
    assert trace + t[..|blocks|] + rest == trace + t[..m];
  }

  /** The platters of a recovery, complete or cut short after m writes, all mean the same snapshot. */
  lemma RecoveryHistory(l: Layout, d: Disk, m: nat) returns (epochs: seq<nat>)
    requires Wf(l, d) && m <= |Txn(l, d)| + 1
    ensures History(l, RecoveryTrace(l, d)[..m], [Recovered(l, d)], epochs)
  {
    var t, snaps := RecoveryTrace(l, d), [Recovered(l, d)];
    assert History(l, [], snaps, []);
    hide History, RecoveryTrace, RecoveryStep;
    forall j | 0 <= j < m ensures Means(l, t[..m][j], snaps, 0) {
      RecoveryTraceAt(l, d, j);
      RecoveryStepMeaning(l, d, j + 1);
    }
    HistoryExtend(l, [], snaps, [], t[..m], snaps);
    assert [] + t[..m] == t[..m];
    epochs := [] + Repeat(m, 0);
  }

  datatype LogState = LogState(
    l: Layout,
    c: CacheState,
    blocks: seq<nat>,       // log.lh.block[0..log.lh.n]
    outstanding: nat,
    committing: bool,
    ops: seq<Op>,
    snaps: seq<Disk>,       // the logical disk at boot and at each commit
    epochs: seq<nat>        // for each platter of the trace, the snapshot it means
  ) {
    /** log_write's space accounting. */
    ghost predicate Reserved() {
      && outstanding == Live(ops)
      && |blocks| + Unspent(ops) <= LOGSIZE
      && (committing ==> outstanding == 0)
      && (forall k :: 0 <= k < |ops| ==> ops[k].left <= MAXOPBLOCKS)
    }

    /** The in-memory transaction fits the log and is exactly the set of pinned blocks. */
    ghost predicate Pending() {
      && WfTxn(l, |c.disk|, blocks) && |c.disk| <= WORD_LIMIT
      && Distinct(blocks) && PinsAre(c.pin, blocks)
    }

    /** Between commits the platter has an empty log and equals the last snapshot. */
    ghost predicate Settled() {
      && Wf(l, c.disk) && HdrN(c.disk[l.start]) == 0
      && 0 < |snaps| && SameHome(l, c.disk, snaps[|snaps| - 1])
    }

    ghost predicate Inv() {
      c.Inv() && Reserved() && Pending() && History(l, c.trace, snaps, epochs) && Settled()
    }

    /** The test of begin_op's loop. */
    predicate CanBegin() {
      !committing && |blocks| + (outstanding + 1) * MAXOPBLOCKS <= LOGSIZE
    }

    function BeginOp(): LogState {
      this.(outstanding := outstanding + 1, ops := ops + [Op(true, MAXOPBLOCKS)])
    }

    /** Operation op may log buffer b: it has quota left, or the block is in the transaction already. */
    predicate MayLog(op: nat, b: nat) {
      && op < |ops| && ops[op].live && b < |c.bufs| && c.bufs[b].blockno < |c.logical|
      && (ops[op].left > 0 || c.bufs[b].blockno in blocks)
    }

    /** log_write by operation op on buffer b, past its two panics. Absorption uses no quota. */
    function LogWrite(op: nat, b: nat): LogState
      requires MayLog(op, b)
    {
      var x := c.bufs[b].blockno;
      if x in blocks then this.(c := c.Absorb(b))
      else this.(c := c.Pin(b), blocks := blocks + [x], ops := ops[op := Op(true, ops[op].left - 1)])
    }

    /** end_op's bookkeeping under log.lock. */
    function EndOp(op: nat): LogState
      requires op < |ops| && outstanding > 0
    {
      this.(outstanding := outstanding - 1, ops := ops[op := Op(false, 0)], committing := outstanding == 1)
    }
  }

  lemma BeginOpInv(s: LogState)
    requires s.Inv() && s.CanBegin()
    ensures s.BeginOp().Inv()
  {
    UnspentBound(s.ops);
    OpsAppend(s.ops, Op(true, MAXOPBLOCKS));
  }

  lemma LogWriteInv(s: LogState, op: nat, b: nat)
    requires s.Inv() && s.MayLog(op, b)
    requires s.c.Held(b) && !s.l.InLog(s.c.bufs[b].blockno)
    requires |s.blocks| < s.l.size - 1
    ensures s.LogWrite(op, b).Inv()
  {
    hide CacheState.Inv;
    var x := s.c.bufs[b].blockno;
    HeldFacts(s.c, b);
    if x in s.blocks {
      AbsorbInv(s.c, b);
    } else {
      LiveMember(s.ops, op);
      OpsUpdate(s.ops, op, Op(true, s.ops[op].left - 1));
      PinInv(s.c, b);
    }
  }

  /** An operation in progress keeps committing off, so end_op's panic cannot happen. */
  lemma EndOpInv(s: LogState, op: nat)
    requires s.Inv() && op < |s.ops| && s.ops[op].live
    ensures !s.committing && s.outstanding > 0
    ensures s.EndOp(op).Inv()
  {
    LiveMember(s.ops, op);
    OpsUpdate(s.ops, op, Op(false, 0));
  }

  /** log_write's first panic, tested before it looks for the block. */
  predicate TooBig(s: LogState) {
    |s.blocks| >= LOGSIZE || |s.blocks| >= s.l.size - 1
  }

  /**
    With room for LOGSIZE blocks the panic is met exactly when the transaction
    is full, and then no operation has quota left: only a call that would have
    been absorbed can meet it.
  */
  lemma ReservationSuffices(s: LogState, op: nat)
    requires s.Inv() && op < |s.ops| && s.ops[op].live
    ensures s.ops[op].left > 0 ==> |s.blocks| < LOGSIZE
    ensures s.l.size > LOGSIZE ==> (TooBig(s) <==> |s.blocks| == LOGSIZE) && (s.ops[op].left > 0 ==> !TooBig(s))
  {
    LiveMember(s.ops, op);
  }

  /** log_write needs a new pin exactly for the blocks the transaction lacks. */
  lemma PinnedIffLogged(s: LogState, x: nat)
    requires s.Inv()
    ensures x in s.c.pin <==> x in s.blocks
  {
  }

  lemma PendingFacts(s: LogState)
    requires s.Inv()
    ensures WfTxn(s.l, |s.c.disk|, s.blocks) && |s.c.disk| <= WORD_LIMIT && Wf(s.l, s.c.disk)
    ensures |s.c.logical| == |s.c.disk| && Words32(s.blocks)
  {
  }

  lemma AllClean(c: CacheState)
    requires c.Inv() && c.pin == map[]
    ensures c.logical == c.disk
  {
  }

  lemma HistoryFacts(s: LogState)
    requires s.Inv()
    ensures History(s.l, s.c.trace, s.snaps, s.epochs)
  {
  }

  /** Clearing log.committing after a commit. */
  lemma CommittedInv(s: LogState)
    requires s.Inv()
    ensures s.(committing := false).Inv()
  {
    hide CacheState.Inv, History;
  }

  /** What commit finds: an empty log on disk, and the transaction is all the disk lacks. */
  lemma CommitReady(s: LogState)
    requires s.Inv()
    ensures Wf(s.l, s.c.disk) && HdrN(s.c.disk[s.l.start]) == 0
    ensures 0 < |s.snaps| && SameHome(s.l, s.c.disk, s.snaps[|s.snaps| - 1])
    ensures Distinct(s.blocks) && PinsAre(s.c.pin, s.blocks)
    ensures |s.c.logical| == |s.c.disk| && WfTxn(s.l, |s.c.disk|, s.blocks)
    ensures SameLog(s.l, s.c.disk, s.c.logical)
    ensures SameHome(s.l, Applied(s.c.disk, s.blocks, s.c.logical), s.c.logical)
    ensures History(s.l, s.c.trace, s.snaps, s.epochs)
    ensures s.blocks == [] ==> SameHome(s.l, s.c.disk, s.c.logical)
  {
    hide CacheState.Unique, CacheState.Counted, History;
  }

  /** A complete commit re-establishes the invariant with nothing pending. */
  lemma CommitDone(s: LogState, t: LogState)
    requires s.Inv() && s.outstanding == 0 && s.blocks != []
    requires WfTxn(s.l, |s.c.disk|, s.blocks) && |s.c.logical| == |s.c.disk|
    requires t.c.Inv() && t.c.pin == map[] && t.blocks == [] && t.l == s.l && t.ops == s.ops
    requires t.outstanding == 0 && t.committing == s.committing
    requires t.c.disk == CommitStep(s.l, s.c.disk, s.blocks, s.c.logical, 2 * |s.blocks| + 2)
    requires t.snaps == s.snaps + [s.c.logical] && History(t.l, t.c.trace, t.snaps, t.epochs)
    ensures t.Inv() && SameHome(t.l, t.c.disk, s.c.logical)
  {
    hide CacheState.Inv, History, Wf, SameHome, CommitStep, Applied;
    CommitReady(s);
    PendingFacts(s);
    UnspentBound(s.ops);
    CommitFinalPlatter(s.l, s.c.disk, s.blocks, s.c.logical);
    SameHomeTrans(s.l, t.c.disk, Applied(s.c.disk, s.blocks, s.c.logical), s.c.logical);
  }

  /** The transition of a complete commit, from the state in which the last end_op has set log.committing. */
  ghost predicate Committed(s: LogState, t: LogState) {
    && t.c.Inv() && HeldKept(s.c, t.c)
    && if s.blocks == [] then t == s
       else
         && WfTxn(s.l, |s.c.disk|, s.blocks) && |s.c.logical| == |s.c.disk| && 0 < |s.snaps|
         && t == s.(c := t.c, blocks := [], snaps := s.snaps + [s.c.logical], epochs := CommitEpochs(s))
         && t.c.pin == map[] && t.c.disk == CommitStep(s.l, s.c.disk, s.blocks, s.c.logical, 2 * |s.blocks| + 2)
         && t.c.trace == s.c.trace + CommitTrace(s.l, s.c.disk, s.blocks, s.c.logical)
  }

  /** The platters before the commit point mean the newest snapshot, the others the one commit adds. */
  ghost function CommitEpochs(s: LogState): seq<nat>
    requires 0 < |s.snaps|
  {
    s.epochs + Repeat(|s.blocks|, |s.snaps| - 1) + Repeat(|s.blocks| + 2, |s.snaps|)
  }

  lemma CommitInv(s: LogState, t: LogState)
    requires s.Inv() && s.outstanding == 0 && Committed(s, t)
    ensures t.Inv() && t.blocks == [] && SameHome(t.l, t.c.disk, s.c.logical)
    ensures s.c.trace <= t.c.trace && s.snaps <= t.snaps && s.epochs <= t.epochs
  {
    hide CacheState.Inv, History, LogState.Inv, CommitStep, CommitTrace, WfTxn, HeldKept;
    CommitReady(s);
    if s.blocks != [] {
      PendingFacts(s);
      var m := 2 * |s.blocks| + 2;
      var trace := CommitTrace(s.l, s.c.disk, s.blocks, s.c.logical);
      assert trace[..m] == trace;
      CommittedHistory(s.l, s.c.trace, s.snaps, s.epochs, s.c.disk, s.blocks, s.c.logical, m);
      CommitDone(s, t);
    }
  }

  lemma InitialInv(s: LogState)
    requires s.c.Inv() && s.c.pin == map[] && s.blocks == [] && s.ops == [] && s.outstanding == 0
    requires Wf(s.l, s.c.disk) && HdrN(s.c.disk[s.l.start]) == 0 && |s.c.disk| <= WORD_LIMIT
    requires History(s.l, s.c.trace, s.snaps, s.epochs) && s.snaps == [s.c.disk]
    ensures s.Inv()
  {
    hide CacheState.Inv, History;
  }

  /** Nobody holds a buffer of the log area or of a logged block; readers may hold others. */
  ghost predicate Unheld(c: CacheState, l: Layout, blocks: seq<nat>) {
    forall i :: 0 <= i < |c.bufs| && c.bufs[i].dev == c.dev && c.bufs[i].locked ==>
      !l.InLog(c.bufs[i].blockno) && c.bufs[i].blockno !in blocks
  }

  /** The same buffers are locked, and they have not changed. */
  ghost predicate HeldKept(c: CacheState, c': CacheState) {
    && c'.dev == c.dev && |c'.bufs| == |c.bufs|
    && (forall i :: 0 <= i < |c.bufs| && (c.bufs[i].locked || c'.bufs[i].locked) ==> c'.bufs[i] == c.bufs[i])
  }

  lemma HeldKeptRefl(c: CacheState)
    ensures HeldKept(c, c)
  {
  }

  lemma QuietUnheld(c: CacheState, c': CacheState, l: Layout, blocks: seq<nat>)
    requires c.Quiet() && (HeldKept(c, c') || c' == c)
    ensures c'.Quiet() && Unheld(c', l, blocks)
  {
  }

  lemma UnheldFewer(c: CacheState, l: Layout, blocks: seq<nat>)
    requires Unheld(c, l, blocks)
    ensures Unheld(c, l, [])
  {
  }

  lemma HeldKeptTrans(c: CacheState, c': CacheState, c'': CacheState)
    requires HeldKept(c, c') && HeldKept(c', c'')
    ensures HeldKept(c, c'')
  {
  }

  lemma UnheldKept(c: CacheState, c': CacheState, l: Layout, blocks: seq<nat>)
    requires HeldKept(c, c') && Unheld(c, l, blocks)
    ensures Unheld(c', l, blocks)
  {
  }

  lemma UnheldAvailable(c: CacheState, l: Layout, blocks: seq<nat>, x: nat)
    requires Unheld(c, l, blocks) && (l.InLog(x) || x in blocks)
    ensures c.Available(x)
  {
  }

  class Log {
    const l: Layout
    const cache: Cache
    var lh: seq<nat>                // log.lh.block[0..log.lh.n]
    var outstanding: nat
    var committing: bool
    ghost var ops: seq<Op>
    ghost var snaps: seq<Disk>
    ghost var epochs: seq<nat>

    ghost function Footprint(): set<object> {
      {this} + cache.Footprint()
    }

    ghost function State(): LogState
      reads this, cache
    {
      LogState(l, cache.State(), lh, outstanding, committing, ops, snaps, epochs)
    }

    ghost predicate Valid()
      reads Footprint()
    {
      this !in cache.Footprint() && cache.Valid() && State().Inv()
    }

    /** initlog before recovery: the first snapshot is what the platter means. */
    constructor (layout: Layout, c: Cache)
      requires c.Valid() && c.pin == map[] && c.trace == []
      requires Wf(layout, c.disk) && |c.disk| <= WORD_LIMIT
      ensures l == layout && cache == c && this !in c.Footprint()
      ensures lh == [] && outstanding == 0 && !committing && ops == []
      ensures snaps == [Recovered(layout, c.disk)] && epochs == []
    {
      l := layout;
      cache := c;
      lh := [];
      outstanding := 0;
      committing := false;
      ops := [];
      snaps := [Recovered(layout, c.disk)];
      epochs := [];
    }

    /** begin_op up to its next sleep: false means the caller sleeps on &log and tries again. */
    method TryBeginOp() returns (ok: bool)
      requires Valid()
      modifies this`outstanding, this`ops
      ensures Valid()
      ensures ok <==> old(State()).CanBegin()
      ensures State() == if ok then old(State()).BeginOp() else old(State())
    {
      hide LogState.Inv, CacheState.Inv, LruList.Lru.Valid;
      if committing {
        return false;
      } else if |lh| + (outstanding + 1) * MAXOPBLOCKS > LOGSIZE {
        return false;
      } else {
        BeginOpInv(State());
        ops := ops + [Op(true, MAXOPBLOCKS)];
        outstanding := outstanding + 1;
        assert State() == old(State()).BeginOp();
        return true;
      }
    }

    /** log_write's scan for the block in the current transaction. */
    method FindSlot(blockno: nat) returns (i: nat)
      ensures i <= |lh| && (i < |lh| ==> lh[i] == blockno)
      ensures i == |lh| <==> blockno !in lh
    {
      i := 0;
      while i < |lh|
        invariant i <= |lh| && blockno !in lh[..i]
      {
        if lh[i] == blockno {
          return;
        }
        i := i + 1;
      }
    }

    /**
      log_write by operation op on its locked buffer b; false is the panic "too
      big a transaction", which an operation with quota left never meets in a log
      with room for LOGSIZE blocks.
    */
    method LogWrite(op: nat, b: nat) returns (ok: bool)
      requires Valid() && State().MayLog(op, b)
      requires cache.State().Held(b) && !l.InLog(cache.bufs[b].blockno)
      modifies this`lh, this`ops, cache`pin, cache`logical, cache`bufs
      ensures Valid()
      ensures ok <==> !TooBig(old(State()))
      ensures l.size > LOGSIZE && old(ops)[op].left > 0 ==> ok
      ensures !ok ==> State() == old(State())
      ensures ok ==> State() == old(State().LogWrite(op, b))
    {
      hide LogState.Inv, CacheState.Inv, LruList.Lru.Valid;
      ghost var s := State();
      ReservationSuffices(s, op);
      PendingFacts(s);
      HeldFacts(s.c, b);
      if |lh| >= LOGSIZE || |lh| >= l.size - 1 {
        return false;
      }
      LogWriteInv(s, op, b);
      var x := cache.bufs[b].blockno;
      PinnedIffLogged(s, x);
      var i := FindSlot(x);
      if i == |lh| {
        cache.Bpin(b);
        lh := lh + [x];
        ops := ops[op := Op(true, ops[op].left - 1)];
      } else {
        lh := lh[i := x];
        cache.Absorb(b);
      }
      assert State() == s.LogWrite(op, b);
      return true;
    }

    // The pieces of commit and recovery. Where they read a block nobody holds it;
    // buffers of other blocks may be held by readers. False is the cache's "no
    // buffers" panic, which leaves the platter where it was.

    /** The cache is sound and nobody holds what the log is about to read. */
    ghost predicate Idle()
      reads Footprint()
    {
      this !in cache.Footprint() && cache.Valid() && Unheld(cache.State(), l, lh)
    }

    /** Body of write_log's loop: log block `to` gets the cached content of block `from`. */
    method LogBlock(to: nat, from: nat) returns (ok: bool)
      requires this !in cache.Footprint() && cache.Valid()
      requires cache.State().Available(from) && cache.State().Available(to)
      requires from < |cache.disk| && to < |cache.disk| && from != to
      modifies cache.Footprint()
      ensures this !in cache.Footprint() && cache.Valid() && |cache.disk| == |old(cache.disk)|
      ensures !ok ==> cache.disk == old(cache.disk) && cache.trace == old(cache.trace)
      ensures ok ==> HeldKept(old(cache.State()), cache.State())
      ensures ok ==> cache.pin == old(cache.pin)
      ensures ok ==> cache.disk == old(cache.disk)[to := old(cache.logical)[from]]
      ensures ok ==> cache.logical == old(cache.logical)[to := old(cache.logical)[from]]
      ensures ok ==> cache.trace == old(cache.trace) + [cache.disk]
    {
      hide CacheState.Inv, LruList.Lru.Valid;
      Sizes(cache.State());
      var r := cache.Bread(cache.dev, to);
      if r.None? { return false; }
      var q := cache.Bread(cache.dev, from);
      if q.None? { return false; }
      cache.SetData(r.value, cache.bufs[q.value].data);
      cache.Bwrite(r.value);
      cache.Brelse(q.value);
      cache.Brelse(r.value);
      return true;
    }

    /** Body of install_trans's loop: home block `to` gets the content of log block `from`. */
    method InstallBlock(to: nat, from: nat, recovering: bool) returns (ok: bool)
      requires this !in cache.Footprint() && cache.Valid()
      requires cache.State().Available(from) && cache.State().Available(to)
      requires from < |cache.disk| && to < |cache.disk| && from != to
      requires !recovering ==> to in cache.pin
      modifies cache.Footprint()
      ensures this !in cache.Footprint() && cache.Valid() && |cache.disk| == |old(cache.disk)|
      ensures !ok ==> cache.disk == old(cache.disk) && cache.trace == old(cache.trace)
      ensures ok ==> HeldKept(old(cache.State()), cache.State())
      ensures ok ==> cache.pin == if recovering then old(cache.pin) else old(cache.pin) - {to}
      ensures ok ==> cache.disk == old(cache.disk)[to := old(cache.logical)[from]]
      ensures ok ==> cache.logical == old(cache.logical)[to := old(cache.logical)[from]]
      ensures ok ==> cache.trace == old(cache.trace) + [cache.disk]
    {
      hide CacheState.Inv, LruList.Lru.Valid;
      Sizes(cache.State());
      var r := cache.Bread(cache.dev, from);
      if r.None? { return false; }
      var q := cache.Bread(cache.dev, to);
      if q.None? { return false; }
      cache.SetData(q.value, cache.bufs[r.value].data);
      cache.Bwrite(q.value);
      if !recovering {
        Sizes(cache.State());
        PinnedFacts(cache.State(), to, q.value);
        cache.Bunpin(q.value);
      }
      cache.Brelse(r.value);
      cache.Brelse(q.value);
      return true;
    }

    /** write_log: the logical content of every logged block goes to its log block. */
    method WriteLog() returns (ok: bool)
      requires Idle() && WfTxn(l, |cache.disk|, lh) && SameLog(l, cache.disk, cache.logical)
      modifies cache.Footprint()
      ensures this !in cache.Footprint() && cache.Valid()
      ensures old(cache.trace) <= cache.trace
      ensures cache.trace <= old(cache.trace) + LogTrace(l, old(cache.disk), lh, old(cache.logical), |lh|)
      ensures ok ==>
        && Idle() && HeldKept(old(cache.State()), cache.State()) && cache.pin == old(cache.pin)
        && cache.trace == old(cache.trace) + LogTrace(l, old(cache.disk), lh, old(cache.logical), |lh|)
        && cache.disk == LogWritten(l, old(cache.disk), lh, old(cache.logical), |lh|)
        && SameHome(l, cache.logical, old(cache.logical)) && SameLog(l, cache.disk, cache.logical)
    {
      hide CacheState.Inv, LruList.Lru.Valid, Unheld, HeldKept;
      HeldKeptRefl(cache.State());
      ghost var d, view := cache.disk, cache.logical;
      var tail := 0;
      while tail < |lh|
        invariant 0 <= tail <= |lh|
        invariant Idle() && HeldKept(old(cache.State()), cache.State())
        invariant cache.pin == old(cache.pin)
        invariant cache.trace == old(cache.trace) + LogTrace(l, d, lh, view, tail)
        invariant cache.disk == LogWritten(l, d, lh, view, tail)
        invariant SameHome(l, cache.logical, view) && SameLog(l, cache.disk, cache.logical)
      {
        assert l.InLog(l.start + tail + 1);
        LogTracePrefix(l, d, lh, view, tail, |lh|);
        UnheldAvailable(cache.State(), l, lh, l.start + tail + 1);
        UnheldAvailable(cache.State(), l, lh, lh[tail]);
        ghost var c := cache.State();
        ok := LogBlock(l.start + tail + 1, lh[tail]);
        if !ok {
          return;
        }
        UnheldKept(c, cache.State(), l, lh);
        HeldKeptTrans(old(cache.State()), c, cache.State());
        tail := tail + 1;
      }
      ok := true;
    }

    /** install_trans: every log block goes home; a commit also drops the pins. */
    method InstallTrans(recovering: bool) returns (ok: bool)
      requires Idle() && WfTxn(l, |cache.disk|, lh) && SameLog(l, cache.disk, cache.logical)
      requires if recovering then cache.pin == map[] else Distinct(lh) && PinsAre(cache.pin, lh)
      modifies cache.Footprint()
      ensures this !in cache.Footprint() && cache.Valid()
      ensures old(cache.trace) <= cache.trace
      ensures cache.trace <= old(cache.trace) + InstallTrace(l, old(cache.disk), lh, |lh|)
      ensures ok ==>
        && Idle() && HeldKept(old(cache.State()), cache.State()) && cache.pin == map[]
        && cache.trace == old(cache.trace) + InstallTrace(l, old(cache.disk), lh, |lh|)
        && cache.disk == Installed(l, old(cache.disk), lh, |lh|)
    {
      hide CacheState.Inv, LruList.Lru.Valid, Distinct, PinsAre, SameLog, Unheld, HeldKept;
      HeldKeptRefl(cache.State());
      Sizes(cache.State());
      ghost var d := cache.disk;
      var tail := 0;
      assert lh[0..] == lh;
      while tail < |lh|
        invariant 0 <= tail <= |lh|
        invariant Idle() && HeldKept(old(cache.State()), cache.State())
        invariant SameLog(l, d, cache.logical)
        invariant if recovering then cache.pin == map[] else PinsAre(cache.pin, lh[tail..])
        invariant cache.trace == old(cache.trace) + InstallTrace(l, d, lh, tail)
        invariant cache.disk == Installed(l, d, lh, tail)
      {
        assert l.InLog(l.start + tail + 1) && !l.InLog(lh[tail]);
        InstallTracePrefix(l, d, lh, tail, |lh|);
        Sizes(cache.State());
        HomeWriteKeepsLog(l, d, cache.logical, lh[tail], l.start + tail + 1, cache.logical[l.start + tail + 1]);
        if !recovering { PinsShrink(cache.pin, lh, tail); }
        UnheldAvailable(cache.State(), l, lh, l.start + tail + 1);
        UnheldAvailable(cache.State(), l, lh, lh[tail]);
        ghost var c := cache.State();
        ok := InstallBlock(lh[tail], l.start + tail + 1, recovering);
        if !ok {
          return;
        }
        UnheldKept(c, cache.State(), l, lh);
        HeldKeptTrans(old(cache.State()), c, cache.State());
        tail := tail + 1;
      }
      if !recovering { AllUnpinned(cache.pin, lh); }
      ok := true;
    }

    /** write_head: the in-memory header replaces the one on disk. */
    method WriteHead() returns (ok: bool)
      requires Idle() && |lh| <= LOGSIZE && l.InLog(l.start) && l.start < |cache.disk|
      requires |cache.logical| == |cache.disk|
      modifies cache.Footprint()
      ensures this !in cache.Footprint() && cache.Valid()
      ensures !ok ==> cache.disk == old(cache.disk) && cache.trace == old(cache.trace)
      ensures ok ==> Idle() && HeldKept(old(cache.State()), cache.State()) && cache.pin == old(cache.pin)
      ensures ok ==> cache.disk == old(cache.disk)[l.start := PutHdr(old(cache.logical)[l.start], lh)]
      ensures ok ==> cache.logical == old(cache.logical)[l.start := PutHdr(old(cache.logical)[l.start], lh)]
      ensures ok ==> cache.trace == old(cache.trace) + [cache.disk]
    {
      hide CacheState.Inv, LruList.Lru.Valid;
      UnheldAvailable(cache.State(), l, lh, l.start);
      var r := cache.Bread(cache.dev, l.start);
      if r.None? { return false; }
      var b := r.value;
      var hb := SetWord(cache.bufs[b].data, 0, |lh|);
      var i := 0;
      ghost var hb0 := hb;
      while i < |lh|
        invariant 0 <= i <= |lh| && hb == PutBlocks(hb0, lh, i)
      {
        hb := SetWord(hb, i + 1, lh[i]);
        i := i + 1;
      }
      cache.SetData(b, hb);
      cache.Bwrite(b);
      cache.Brelse(b);
      return true;
    }

    /** read_head: the header on disk becomes the in-memory one. */
    method ReadHead() returns (ok: bool)
      requires Idle() && l.InLog(l.start) && l.start < |cache.disk| && |cache.logical| == |cache.disk|
      requires HdrN(cache.logical[l.start]) <= LOGSIZE
      modifies this`lh, cache.Footprint()
      ensures this !in cache.Footprint() && cache.Valid()
      ensures cache.disk == old(cache.disk) && cache.trace == old(cache.trace)
      ensures ok ==> HeldKept(old(cache.State()), cache.State())
      ensures ok ==> cache.pin == old(cache.pin) && cache.logical == old(cache.logical)
      ensures ok ==> lh == Hdr(old(cache.logical)[l.start])
    {
      hide CacheState.Inv, LruList.Lru.Valid;
      UnheldAvailable(cache.State(), l, lh, l.start);
      var r := cache.Bread(cache.dev, l.start);
      if r.None? { return false; }
      var data := cache.bufs[r.value].data;
      lh := [];
      var i := 0;
      while i < HdrN(data)
        invariant 0 <= i <= HdrN(data) && lh == Hdr(data)[..i]
        modifies this`lh
      {
        lh := lh + [Word(data, i + 1)];
        i := i + 1;
      }
      cache.Brelse(r.value);
      return true;
    }

    /** write_log and the first write_head: up to the commit point. */
    method LogTransaction() returns (ok: bool)
      requires Idle() && WfTxn(l, |cache.disk|, lh) && SameLog(l, cache.disk, cache.logical)
      modifies cache.Footprint()
      ensures this !in cache.Footprint() && cache.Valid()
      ensures old(cache.trace) <= cache.trace
      ensures var h := HeadWritten(l, old(cache.disk), lh, old(cache.logical));
        var t := old(cache.trace) + LogTrace(l, old(cache.disk), lh, old(cache.logical), |lh|) + [h];
        && cache.trace <= t
        && (ok ==> Idle() && HeldKept(old(cache.State()), cache.State()) && cache.pin == old(cache.pin)
                   && cache.trace == t && cache.disk == h && SameLog(l, cache.disk, cache.logical))
    {
      hide CacheState.Inv, LruList.Lru.Valid, Unheld, HeldKept;
      ok := WriteLog();
      if !ok { return; }
      assert l.InLog(l.start);
      ghost var c := cache.State();
      ok := WriteHead();
      if ok { HeldKeptTrans(old(cache.State()), c, cache.State()); }
    }

    /** install_trans, log.lh.n = 0 and write_head: the tail shared by commit and recovery. */
    method InstallAndErase(recovering: bool) returns (ok: bool)
      requires Idle() && WfTxn(l, |cache.disk|, lh) && SameLog(l, cache.disk, cache.logical)
      requires if recovering then cache.pin == map[] else Distinct(lh) && PinsAre(cache.pin, lh)
      modifies this`lh, cache.Footprint()
      ensures this !in cache.Footprint() && cache.Valid()
      ensures old(cache.trace) <= cache.trace
      ensures var e := Erased(l, Installed(l, old(cache.disk), old(lh), |old(lh)|));
        var t := old(cache.trace) + InstallTrace(l, old(cache.disk), old(lh), |old(lh)|) + [e];
        && cache.trace <= t
        && (ok ==> Idle() && HeldKept(old(cache.State()), cache.State())
                   && cache.pin == map[] && lh == [] && cache.trace == t && cache.disk == e)
    {
      hide CacheState.Inv, LruList.Lru.Valid, Distinct, PinsAre, Unheld, HeldKept;
      ok := InstallTrans(recovering);
      if !ok { return; }
      AllClean(cache.State());
      UnheldFewer(cache.State(), l, lh);
      ghost var c := cache.State();
      lh := [];
      ok := WriteHead();
      if ok { HeldKeptTrans(old(cache.State()), c, cache.State()); }
    }

    /** commit's four calls. Its platters are a prefix of CommitTrace, all of it unless the cache panics. */
    method CommitWrites() returns (ok: bool)
      requires Idle() && WfTxn(l, |cache.disk|, lh) && SameLog(l, cache.disk, cache.logical)
      requires Distinct(lh) && PinsAre(cache.pin, lh)
      modifies this`lh, cache.Footprint()
      ensures this !in cache.Footprint() && cache.Valid()
      ensures old(cache.trace) <= cache.trace
      ensures cache.trace <= old(cache.trace) + CommitTrace(l, old(cache.disk), old(lh), old(cache.logical))
      ensures ok ==>
        && Idle() && HeldKept(old(cache.State()), cache.State()) && cache.pin == map[] && lh == []
        && cache.trace == old(cache.trace) + CommitTrace(l, old(cache.disk), old(lh), old(cache.logical))
        && cache.disk == CommitStep(l, old(cache.disk), old(lh), old(cache.logical), 2 * |old(lh)| + 2)
    {
      hide CacheState.Inv, LruList.Lru.Valid, Distinct, PinsAre, SameLog, HeadWritten, Erased;
      hide Installed, InstallTrace, LogTrace, Unheld, HeldKept;
      ok := LogTransaction();
      if !ok { return; }
      ghost var c := cache.State();
      ok := InstallAndErase(false);
      if ok { HeldKeptTrans(old(cache.State()), c, cache.State()); }
    }

    /**
      commit. Whether it completes or the machine stops inside it, every platter
      it leaves means a snapshot: the one before, up to the commit point, and
      the logical disk at the call from then on.
    */
    method Commit() returns (ok: bool)
      requires Valid() && Unheld(cache.State(), l, lh) && outstanding == 0
      modifies this`lh, this`snaps, this`epochs, cache.Footprint()
      ensures old(cache.trace) <= cache.trace && old(snaps) <= snaps <= old(snaps) + [old(cache.logical)]
      ensures History(l, cache.trace, snaps, epochs)
      ensures ok ==> Valid() && Committed(old(State()), State()) && lh == []
      ensures ok ==> SameHome(l, cache.disk, old(cache.logical))
    {
      hide CacheState.Inv, LruList.Lru.Valid, History, CommitTrace, CommitStep, LogState.Inv, Unheld, HeldKept;
      HeldKeptRefl(cache.State());
      ghost var s := State();
      PendingFacts(s);
      CommitReady(s);
      if |lh| > 0 {
        ok := CommitWrites();
        ghost var m := |cache.trace| - |s.c.trace|;
        assert cache.trace == s.c.trace + CommitTrace(l, s.c.disk, s.blocks, s.c.logical)[..m];
        if m <= |s.blocks| {
          UncommittedHistory(l, s.c.trace, s.snaps, s.epochs, s.c.disk, s.blocks, s.c.logical, m);
          epochs := epochs + Repeat(m, |snaps| - 1);
        } else {
          CommittedHistory(l, s.c.trace, s.snaps, s.epochs, s.c.disk, s.blocks, s.c.logical, m);
          epochs := epochs + Repeat(|s.blocks|, |snaps| - 1) + Repeat(m - |s.blocks|, |snaps|);
          snaps := snaps + [s.c.logical];
        }
        if ok {
          CommitInv(s, State());
        }
      } else {
        ok := true;
      }
    }

    /** recover_from_log on the platter found at boot. */
    method RecoverFromLog() returns (ok: bool)
      requires this !in cache.Footprint() && cache.Valid() && cache.State().Quiet() && Wf(l, cache.disk)
      requires |cache.disk| <= WORD_LIMIT
      requires cache.pin == map[] && cache.trace == [] && ops == [] && outstanding == 0 && !committing
      modifies this`lh, this`snaps, this`epochs, cache.Footprint()
      ensures snaps == [Recovered(l, old(cache.disk))]
      ensures cache.trace <= RecoveryTrace(l, old(cache.disk)) && History(l, cache.trace, snaps, epochs)
      ensures ok ==> Valid() && cache.State().Quiet() && cache.disk == Recovered(l, old(cache.disk))
    {
      hide CacheState.Inv, LruList.Lru.Valid, History, HeldKept, Unheld, CacheState.Quiet;
      QuietUnheld(cache.State(), cache.State(), l, lh);
      ghost var d := cache.disk;
      AllClean(cache.State());
      snaps := [Recovered(l, d)];
      epochs := RecoveryHistory(l, d, 0);
      ok := ReadHead();
      if !ok { return; }
      assert lh == Txn(l, d);
      QuietUnheld(old(cache.State()), cache.State(), l, lh);
      ghost var c := cache.State();
      AllClean(cache.State());
      ok := InstallAndErase(true);
      ghost var m := |cache.trace|;
      assert cache.trace == RecoveryTrace(l, d)[..m];
      epochs := RecoveryHistory(l, d, m);
      if ok {
        ErasedWf(l, Installed(l, d, Txn(l, d), |Txn(l, d)|));
        HeldKeptTrans(old(cache.State()), c, cache.State());
        QuietUnheld(old(cache.State()), cache.State(), l, lh);
        InitialInv(State());
      }
    }

    /**
      end_op by operation op. The last one commits, and then the platter carries
      everything logged so far. False is a panic of the cache inside the commit.
    */
    method EndOp(op: nat) returns (ok: bool)
      requires Valid() && op < |ops| && ops[op].live
      requires outstanding == 1 ==> Unheld(cache.State(), l, lh)
      modifies this`lh, this`outstanding, this`committing, this`ops, this`snaps, this`epochs, cache.Footprint()
      ensures old(cache.trace) <= cache.trace && old(snaps) <= snaps <= old(snaps) + [old(cache.logical)]
      ensures History(l, cache.trace, snaps, epochs)
      ensures ops == old(ops)[op := Op(false, 0)] && outstanding == old(outstanding) - 1
      ensures ok ==> Valid() && !committing && HeldKept(old(cache.State()), cache.State())
      ensures old(outstanding) > 1 ==> ok && cache.State() == old(cache.State()) && lh == old(lh)
      ensures ok && old(outstanding) == 1 ==>
        && lh == [] && SameHome(l, cache.disk, old(cache.logical))
        && Committed(old(State().EndOp(op)), State().(committing := true))
    {
      hide CacheState.Inv, LruList.Lru.Valid, LogState.Inv, History, Unheld, HeldKept;
      HeldKeptRefl(cache.State());
      ghost var s := State();
      EndOpInv(s, op);
      HistoryFacts(s.EndOp(op));
      outstanding := outstanding - 1;
      ops := ops[op := Op(false, 0)];
      ok := true;
      committing := outstanding == 0;
      assert State() == s.EndOp(op);
      if committing {
        ok := Commit();
        ghost var t := State();
        if ok {
          CommittedInv(t);
        }
        committing := !ok;
        assert ok ==> State() == t.(committing := false);
      }
    }
  }
}
