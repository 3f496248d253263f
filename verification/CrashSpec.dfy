module CrashSpec {
  // The write-ahead log as a disk format: what a platter means to recovery. A
  // platter is a sequence of blocks; every step is one atomic block write.
  //
  // Recovered(l, d) is the meaning of platter d: the disk that recover_from_log
  // leaves when it runs to the end. A commit, a recovery and a recovery that is
  // itself cut short are sequences of single-block writes; the theorems say what
  // each platter along the way means.

  import opened Blocks

  const MAXOPBLOCKS := 10
  const LOGSIZE := 30

  datatype Layout = Layout(start: nat, size: nat) {
    predicate InLog(x: nat) {
      start <= x < start + size
    }
  }

  /** Number of blocks in the transaction of a header block. */
  function HdrN(b: Block): nat {
    Word(b, 0)
  }

  /** The header's block numbers. */
  function Hdr(b: Block): (r: seq<nat>)
    requires HdrN(b) <= LOGSIZE
    ensures |r| == HdrN(b)
  {
    seq(HdrN(b), i requires 0 <= i < HdrN(b) => Word(b, i + 1))
  }

  /** write_head: store n and the n block numbers, keep the rest of the block. */
  function PutHdr(b: Block, blocks: seq<nat>): (r: Block)
    requires |blocks| <= LOGSIZE
  {
    PutBlocks(SetWord(b, 0, |blocks|), blocks, |blocks|)
  }

  function PutBlocks(b: Block, blocks: seq<nat>, k: nat): (r: Block)
    requires k <= |blocks| <= LOGSIZE
  {
    if k == 0 then b else SetWord(PutBlocks(b, blocks, k - 1), k, blocks[k - 1])
  }

  predicate Words32(blocks: seq<nat>) {
    forall i :: 0 <= i < |blocks| ==> blocks[i] < WORD_LIMIT
  }

  lemma {:induction false} PutBlocksWords(b: Block, blocks: seq<nat>, k: nat, j: nat)
    requires k <= |blocks| <= LOGSIZE && Words32(blocks) && j < WORDS
    ensures Word(PutBlocks(b, blocks, k), j) == if 1 <= j <= k then blocks[j - 1] else Word(b, j)
  {
    if k > 0 {
      PutBlocksWords(b, blocks, k - 1, j);
      WordSetWord(PutBlocks(b, blocks, k - 1), k, blocks[k - 1], j);
    }
  }

  /** read_head after write_head returns the same header. */
  lemma HdrRoundTrip(b: Block, blocks: seq<nat>)
    requires |blocks| <= LOGSIZE && Words32(blocks)
    ensures HdrN(PutHdr(b, blocks)) == |blocks| && Hdr(PutHdr(b, blocks)) == blocks
  {
    var b0 := SetWord(b, 0, |blocks|);
    PutBlocksWords(b0, blocks, |blocks|, 0);
    WordSetWord(b, 0, |blocks|, 0);
    forall i | 0 <= i < |blocks| ensures Word(PutHdr(b, blocks), i + 1) == blocks[i] {
      PutBlocksWords(b0, blocks, |blocks|, i + 1);
    }
  }

  /** A transaction fits the log and writes home blocks only. */
  predicate WfTxn(l: Layout, bound: nat, blocks: seq<nat>) {
    && |blocks| <= LOGSIZE && |blocks| < l.size && l.start + l.size <= bound
    && (forall i :: 0 <= i < |blocks| ==> blocks[i] < bound && !l.InLog(blocks[i]))
  }

  /** A platter whose header is well formed. */
  predicate Wf(l: Layout, d: Disk) {
    && l.start + l.size <= |d| && 0 < l.size
    && HdrN(d[l.start]) <= LOGSIZE
    && WfTxn(l, |d|, Hdr(d[l.start]))
  }

  function Txn(l: Layout, d: Disk): seq<nat>
    requires Wf(l, d)
  {
    Hdr(d[l.start])
  }

  /** d after the first k iterations of install_trans. */
  function Installed(l: Layout, d: Disk, blocks: seq<nat>, k: nat): (r: Disk)
    requires WfTxn(l, |d|, blocks) && k <= |blocks|
    ensures |r| == |d|
  {
    if k == 0 then d
    else Installed(l, d, blocks, k - 1)[blocks[k - 1] := d[l.start + k]]
  }

  /** The platters that the first k iterations of install_trans leave, one per write. */
  function InstallTrace(l: Layout, d: Disk, blocks: seq<nat>, k: nat): (r: seq<Disk>)
    requires WfTxn(l, |d|, blocks) && k <= |blocks|
    ensures |r| == k
  {
    if k == 0 then [] else InstallTrace(l, d, blocks, k - 1) + [Installed(l, d, blocks, k)]
  }

  lemma {:induction false} InstallTraceAt(l: Layout, d: Disk, blocks: seq<nat>, k: nat, j: nat)
    requires WfTxn(l, |d|, blocks) && j < k <= |blocks|
    ensures InstallTrace(l, d, blocks, k)[j] == Installed(l, d, blocks, j + 1)
  {
    if j < k - 1 {
      InstallTraceAt(l, d, blocks, k - 1, j);
    }
  }

  lemma {:induction false} InstallTracePrefix(l: Layout, d: Disk, blocks: seq<nat>, j: nat, k: nat)
    requires WfTxn(l, |d|, blocks) && j <= k <= |blocks|
    ensures InstallTrace(l, d, blocks, j) <= InstallTrace(l, d, blocks, k)
  {
    if j < k {
      InstallTracePrefix(l, d, blocks, j, k - 1);
    }
  }

  /** write_head with n == 0. */
  function Erased(l: Layout, d: Disk): Disk
    requires l.start < |d|
  {
    d[l.start := PutHdr(d[l.start], [])]
  }

  /** What a complete recovery makes of platter d. */
  function Recovered(l: Layout, d: Disk): (r: Disk)
    requires Wf(l, d)
  {
    Erased(l, Installed(l, d, Txn(l, d), |Txn(l, d)|))
  }

  /** Platters that agree on every block outside the log. */
  predicate SameHome(l: Layout, d: Disk, e: Disk) {
    |d| == |e| && forall x :: 0 <= x < |d| && !l.InLog(x) ==> d[x] == e[x]
  }

  /** The log area (header and log blocks) is the same. */
  predicate SameLog(l: Layout, d: Disk, e: Disk) {
    |d| == |e| && forall x :: 0 <= x < |d| && l.InLog(x) ==> d[x] == e[x]
  }

  /** A home write leaves the log as it was, and the log reads the same. */
  lemma HomeWriteKeepsLog(l: Layout, d: Disk, e: Disk, x: nat, y: nat, v: Block)
    requires SameLog(l, d, e) && x < |d| && !l.InLog(x) && y < |d| && l.InLog(y)
    ensures SameLog(l, d, e[x := v]) && e[y] == d[y]
  {
  }

  /** Installing changes only the transaction's home blocks. */
  lemma {:induction false} InstalledFrame(l: Layout, d: Disk, blocks: seq<nat>, k: nat)
    requires WfTxn(l, |d|, blocks) && k <= |blocks|
    ensures SameLog(l, d, Installed(l, d, blocks, k))
    ensures forall x :: 0 <= x < |d| && x !in blocks[..k] ==> Installed(l, d, blocks, k)[x] == d[x]
  {
    if k > 0 {
      InstalledFrame(l, d, blocks, k - 1);
      assert blocks[..k] == blocks[..k - 1] + [blocks[k - 1]];
    }
  }

  /** Installing the same log over two platters gives equal contents on every installed block. */
  lemma {:induction false} InstalledAgree(l: Layout, d: Disk, e: Disk, blocks: seq<nat>, k: nat)
    requires WfTxn(l, |d|, blocks) && k <= |blocks| && SameLog(l, d, e)
    ensures forall x :: 0 <= x < |d| && x in blocks[..k] ==>
              Installed(l, d, blocks, k)[x] == Installed(l, e, blocks, k)[x]
  {
    if k > 0 {
      InstalledAgree(l, d, e, blocks, k - 1);
      assert l.InLog(l.start + k);
      assert blocks[..k] == blocks[..k - 1] + [blocks[k - 1]];
    }
  }

  /** Two platters with the same log that differ only on transaction blocks mean the same. */
  lemma RecoveredAgree(l: Layout, d: Disk, e: Disk)
    requires Wf(l, d) && SameLog(l, d, e)
    requires forall x :: 0 <= x < |d| && x !in Txn(l, d) ==> d[x] == e[x]
    ensures Wf(l, e) && SameHome(l, Recovered(l, d), Recovered(l, e))
  {
    var blocks := Txn(l, d);
    assert d[l.start] == e[l.start];
    InstalledFrame(l, d, blocks, |blocks|);
    InstalledFrame(l, e, blocks, |blocks|);
    InstalledAgree(l, d, e, blocks, |blocks|);
    assert blocks[..|blocks|] == blocks;
  }

  /** A platter with an empty header means itself. */
  lemma EmptyMeansItself(l: Layout, d: Disk)
    requires Wf(l, d) && HdrN(d[l.start]) == 0
    ensures SameHome(l, Recovered(l, d), d)
  {
  }

  /** Erasing the header keeps a platter well formed, with nothing left to install. */
  lemma ErasedWf(l: Layout, d: Disk)
    requires l.start + l.size <= |d| && 0 < l.size
    ensures Wf(l, Erased(l, d)) && HdrN(Erased(l, d)[l.start]) == 0
    ensures SameHome(l, Erased(l, d), d)
    ensures SameHome(l, Recovered(l, Erased(l, d)), d)
  {
    HdrRoundTrip(d[l.start], []);
    EmptyMeansItself(l, Erased(l, d));
  }

  // ---------------------------------------------------------------- recovery

  /** The platter after the first k block writes of recover_from_log on d. */
  function RecoveryStep(l: Layout, d: Disk, k: nat): (r: Disk)
    requires Wf(l, d) && k <= |Txn(l, d)| + 1
  {
    if k <= |Txn(l, d)| then Installed(l, d, Txn(l, d), k) else Recovered(l, d)
  }

  /** All the platters of one complete recovery. */
  function RecoveryTrace(l: Layout, d: Disk): (r: seq<Disk>)
    requires Wf(l, d)
    ensures |r| == |Txn(l, d)| + 1
  {
    InstallTrace(l, d, Txn(l, d), |Txn(l, d)|) + [Recovered(l, d)]
  }

  lemma RecoveryTraceAt(l: Layout, d: Disk, j: nat)
    requires Wf(l, d) && j <= |Txn(l, d)|
    ensures RecoveryTrace(l, d)[j] == RecoveryStep(l, d, j + 1)
  {
    if j < |Txn(l, d)| {
      InstallTraceAt(l, d, Txn(l, d), |Txn(l, d)|, j);
    }
  }

  /** Recovery cut short anywhere leaves a platter with the same meaning. */
  lemma RecoveryStepMeaning(l: Layout, d: Disk, k: nat)
    requires Wf(l, d) && k <= |Txn(l, d)| + 1
    ensures Wf(l, RecoveryStep(l, d, k))
    ensures SameHome(l, Recovered(l, RecoveryStep(l, d, k)), Recovered(l, d))
  {
    var blocks := Txn(l, d);
    var e := RecoveryStep(l, d, k);
    if k <= |blocks| {
      InstalledFrame(l, d, blocks, k);
      assert forall x :: 0 <= x < |d| && x !in blocks ==> x !in blocks[..k];
      RecoveredAgree(l, d, e);
    } else {
      ErasedWf(l, Installed(l, d, blocks, |blocks|));
    }
  }

  /** A run of boots: each starts recovery on the platter it finds and loses power after ks[i] writes. */
  predicate CrashedBoots(l: Layout, d: Disk, ks: seq<nat>, e: Disk)
    decreases |ks|
  {
    Wf(l, d) &&
    if ks == [] then d == e
    else ks[0] <= |Txn(l, d)| + 1 && CrashedBoots(l, RecoveryStep(l, d, ks[0]), ks[1..], e)
  }

  /** Any number of crashes inside recovery changes nothing about what recovery finally yields. */
  lemma {:induction false} CrashesInRecoveryAreHarmless(l: Layout, d: Disk, ks: seq<nat>, e: Disk)
    requires CrashedBoots(l, d, ks, e)
    ensures Wf(l, e) && SameHome(l, Recovered(l, e), Recovered(l, d))
    decreases |ks|
  {
    if ks != [] {
      RecoveryStepMeaning(l, d, ks[0]);
      CrashesInRecoveryAreHarmless(l, RecoveryStep(l, d, ks[0]), ks[1..], e);
    }
  }

  // ------------------------------------------------------------------ commit

  /** d after the first k iterations of write_log, copying contents of view. */
  function LogWritten(l: Layout, d: Disk, blocks: seq<nat>, view: Disk, k: nat): (r: Disk)
    requires WfTxn(l, |d|, blocks) && |view| == |d| && k <= |blocks|
    ensures |r| == |d|
  {
    if k == 0 then d
    else LogWritten(l, d, blocks, view, k - 1)[l.start + k := view[blocks[k - 1]]]
  }

  /** The platters that the first k iterations of write_log leave. */
  function LogTrace(l: Layout, d: Disk, blocks: seq<nat>, view: Disk, k: nat): (r: seq<Disk>)
    requires WfTxn(l, |d|, blocks) && |view| == |d| && k <= |blocks|
    ensures |r| == k
  {
    if k == 0 then [] else LogTrace(l, d, blocks, view, k - 1) + [LogWritten(l, d, blocks, view, k)]
  }

  lemma {:induction false} LogTraceAt(l: Layout, d: Disk, blocks: seq<nat>, view: Disk, k: nat, j: nat)
    requires WfTxn(l, |d|, blocks) && |view| == |d| && j < k <= |blocks|
    ensures LogTrace(l, d, blocks, view, k)[j] == LogWritten(l, d, blocks, view, j + 1)
  {
    if j < k - 1 {
      LogTraceAt(l, d, blocks, view, k - 1, j);
    }
  }

  lemma {:induction false} LogTracePrefix(l: Layout, d: Disk, blocks: seq<nat>, view: Disk, j: nat, k: nat)
    requires WfTxn(l, |d|, blocks) && |view| == |d| && j <= k <= |blocks|
    ensures LogTrace(l, d, blocks, view, j) <= LogTrace(l, d, blocks, view, k)
  {
    if j < k {
      LogTracePrefix(l, d, blocks, view, j, k - 1);
    }
  }

  function HeadWritten(l: Layout, d: Disk, blocks: seq<nat>, view: Disk): (r: Disk)
    requires WfTxn(l, |d|, blocks) && |view| == |d|
    ensures |r| == |d|
  {
    var e := LogWritten(l, d, blocks, view, |blocks|);
    e[l.start := PutHdr(e[l.start], blocks)]
  }

  /** The platter after the first k block writes of commit: n log blocks, the header, n home blocks, the header. */
  function CommitStep(l: Layout, d: Disk, blocks: seq<nat>, view: Disk, k: nat): (r: Disk)
    requires WfTxn(l, |d|, blocks) && |view| == |d| && k <= 2 * |blocks| + 2
  {
    var n := |blocks|;
    if k <= n then LogWritten(l, d, blocks, view, k)
    else if k <= 2 * n + 1 then Installed(l, HeadWritten(l, d, blocks, view), blocks, k - n - 1)
    else Erased(l, Installed(l, HeadWritten(l, d, blocks, view), blocks, n))
  }

  /** All the platters of one complete commit. */
  function CommitTrace(l: Layout, d: Disk, blocks: seq<nat>, view: Disk): (r: seq<Disk>)
    requires WfTxn(l, |d|, blocks) && |view| == |d|
    ensures |r| == 2 * |blocks| + 2
  {
    var h := HeadWritten(l, d, blocks, view);
    LogTrace(l, d, blocks, view, |blocks|) + [h]
      + InstallTrace(l, h, blocks, |blocks|) + [Erased(l, Installed(l, h, blocks, |blocks|))]
  }

  lemma CommitTraceAt(l: Layout, d: Disk, blocks: seq<nat>, view: Disk, j: nat)
    requires WfTxn(l, |d|, blocks) && |view| == |d| && j < 2 * |blocks| + 2
    ensures CommitTrace(l, d, blocks, view)[j] == CommitStep(l, d, blocks, view, j + 1)
  {
    var n, h := |blocks|, HeadWritten(l, d, blocks, view);
    if j < n {
      LogTraceAt(l, d, blocks, view, n, j);
    } else if n < j <= 2 * n {
      InstallTraceAt(l, h, blocks, n, j - n - 1);
    }
  }

  /** d with every block of the transaction replaced by its content in view. */
  function Applied(d: Disk, blocks: seq<nat>, view: Disk): (r: Disk)
    requires |view| == |d|
  {
    seq(|d|, x requires 0 <= x < |d| => if x in blocks then view[x] else d[x])
  }

  lemma {:induction false} LogWrittenFrame(l: Layout, d: Disk, blocks: seq<nat>, view: Disk, k: nat)
    requires WfTxn(l, |d|, blocks) && |view| == |d| && k <= |blocks|
    ensures var r := LogWritten(l, d, blocks, view, k);
      && SameHome(l, r, d) && r[l.start] == d[l.start]
      && forall i :: 0 <= i < k ==> r[l.start + i + 1] == view[blocks[i]]
  {
    if k > 0 {
      LogWrittenFrame(l, d, blocks, view, k - 1);
    }
  }

  /** Installing a log that holds view's contents puts view's contents home. */
  lemma {:induction false} InstalledView(l: Layout, d: Disk, blocks: seq<nat>, view: Disk, k: nat)
    requires WfTxn(l, |d|, blocks) && |view| == |d| && k <= |blocks|
    requires forall i :: 0 <= i < |blocks| ==> d[l.start + i + 1] == view[blocks[i]]
    ensures forall x :: 0 <= x < |d| && x in blocks[..k] ==> Installed(l, d, blocks, k)[x] == view[x]
  {
    if k > 0 {
      InstalledView(l, d, blocks, view, k - 1);
      assert blocks[..k] == blocks[..k - 1] + [blocks[k - 1]];
      assert d[l.start + (k - 1) + 1] == view[blocks[k - 1]];
    }
  }

  /** The platter right after the commit point means the whole transaction. */
  lemma HeadWrittenMeaning(l: Layout, d: Disk, blocks: seq<nat>, view: Disk)
    requires WfTxn(l, |d|, blocks) && |view| == |d| && Words32(blocks)
    ensures var h := HeadWritten(l, d, blocks, view);
      && Wf(l, h) && Txn(l, h) == blocks
      && SameHome(l, h, d)
      && SameHome(l, Installed(l, h, blocks, |blocks|), Applied(d, blocks, view))
      && SameHome(l, Recovered(l, h), Applied(d, blocks, view))
  {
    var e := LogWritten(l, d, blocks, view, |blocks|);
    var h := HeadWritten(l, d, blocks, view);
    LogWrittenFrame(l, d, blocks, view, |blocks|);
    HdrRoundTrip(e[l.start], blocks);
    assert forall i :: 0 <= i < |blocks| ==> h[l.start + i + 1] == view[blocks[i]];
    InstalledView(l, h, blocks, view, |blocks|);
    InstalledFrame(l, h, blocks, |blocks|);
    assert blocks[..|blocks|] == blocks;
  }

  /**
    Crash atomicity. Whatever write of the commit is the last one to reach the
    platter, the platter means the state before the transaction when the header
    has not been written, and the state with the whole transaction otherwise.
  */
  lemma CommitIsAtomic(l: Layout, d: Disk, blocks: seq<nat>, view: Disk, k: nat)
    requires Wf(l, d) && HdrN(d[l.start]) == 0
    requires WfTxn(l, |d|, blocks) && |view| == |d| && Words32(blocks) && k <= 2 * |blocks| + 2
    ensures var e := CommitStep(l, d, blocks, view, k);
      && Wf(l, e)
      && SameHome(l, Recovered(l, e), if k <= |blocks| then d else Applied(d, blocks, view))
  {
    var n := |blocks|;
    var e := CommitStep(l, d, blocks, view, k);
    if k <= n {
      LogWrittenFrame(l, d, blocks, view, k);
      EmptyMeansItself(l, e);
    } else {
      HeadWrittenMeaning(l, d, blocks, view);
      RecoveryStepMeaning(l, HeadWritten(l, d, blocks, view), k - n - 1);
    }
  }

  /** A complete commit leaves an empty log and the transaction at home. */
  lemma CommitFinalPlatter(l: Layout, d: Disk, blocks: seq<nat>, view: Disk)
    requires WfTxn(l, |d|, blocks) && |view| == |d| && Words32(blocks)
    ensures var e := CommitStep(l, d, blocks, view, 2 * |blocks| + 2);
      Wf(l, e) && HdrN(e[l.start]) == 0 && SameHome(l, e, Applied(d, blocks, view))
  {
    HeadWrittenMeaning(l, d, blocks, view);
    ErasedWf(l, Installed(l, HeadWritten(l, d, blocks, view), blocks, |blocks|));
  }

  lemma SameHomeTrans(l: Layout, d: Disk, e: Disk, f: Disk)
    requires SameHome(l, d, e) && SameHome(l, e, f)
    ensures SameHome(l, d, f)
  {
  }

  /**
    Commit, crash, and any number of interrupted boots: a boot that finally
    completes finds all of the transaction or none of it.
  */
  lemma CommitThenCrashes(l: Layout, d: Disk, blocks: seq<nat>, view: Disk, k: nat, ks: seq<nat>, e: Disk)
    requires Wf(l, d) && HdrN(d[l.start]) == 0
    requires WfTxn(l, |d|, blocks) && |view| == |d| && Words32(blocks) && k <= 2 * |blocks| + 2
    requires CrashedBoots(l, CommitStep(l, d, blocks, view, k), ks, e)
    ensures Wf(l, e)
    ensures SameHome(l, Recovered(l, e), if k <= |blocks| then d else Applied(d, blocks, view))
  {
    CommitIsAtomic(l, d, blocks, view, k);
    CrashesInRecoveryAreHarmless(l, CommitStep(l, d, blocks, view, k), ks, e);
  }
}
