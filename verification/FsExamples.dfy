/**
  Two runs of the file system on states written down outright: a chunk that logs
  exactly MAXOPBLOCKS blocks, and a write whose failed copy leaves a byte behind.
*/
module FsExamples {
  import opened Sets
  import opened Blocks
  import opened Bitmap
  import opened FsState
  import opened FsRecord
  import opened FileBytes
  import opened FileSystem
  import opened MkfsState

  function Ones(n: nat): (r: seq<Byte>)
    ensures |r| == n && forall i :: 0 <= i < n ==> r[i] == 1
  {
    seq(n, _ => 1)
  }

  // ------------------------------------------------------------ exactly ten blocks

  const CHUNK := 3 * BSIZE
  const START := 11 * BSIZE + 512

  /** The state after the chunk; all four slots it needed are filled. */
  ghost predicate ChunkWritten(v: Fs, touched: nat, why: Step) {
    && WriteDone(WideFs(), v, 0, START, CHUNK, Ones(CHUNK), CHUNK, touched, why)
    && Tracked(WideFs(), v, 0, 11, 15) && WIDE.IBlock(0) in v.dirty
  }

  /** A slot that is new in v holds a block that was free. */
  lemma NewSlotWasFree(v: Fs, k: nat)
    requires WideFs().Inv() && v.Inv() && Tracked(WideFs(), v, 0, 11, 15) && 12 <= k <= 15 && v.Slot(0, k) != 0
    ensures FreeBlock(v.Slot(0, k))
  {
    var s, b := WideFs(), v.Slot(0, k);
    WideSlots(0, k);
    OwnedSlot(v, 0, k);
    WideMarked(b);
  }

  lemma FourOfFour(a: nat, b: nat, c: nat, d: nat)
    requires FreeBlock(a) && FreeBlock(b) && FreeBlock(c) && FreeBlock(d)
    requires a != b && a != c && a != d && b != c && b != d && c != d
    ensures forall f :: FreeBlock(f) ==> f == a || f == b || f == c || f == d
  {
  }

  lemma NewSlotsDiffer(v: Fs, k: nat, m: nat)
    requires v.Inv() && 0 < |v.inodes| && k < m < SLOTS && v.Slot(0, k) != 0
    ensures v.Slot(0, k) != v.Slot(0, m)
  {
    OwnedSlot(v, 0, k);
    hide Fs.Slot, Fs.IsMarked;
  }

  /** The four free blocks are now in slots 12 to 15. */
  lemma AllFour(v: Fs, f: nat)
    requires WideFs().Inv() && v.Inv() && Tracked(WideFs(), v, 0, 11, 15) && 0 < |v.inodes|
    requires v.Slot(0, 12) != 0 && v.Slot(0, 13) != 0 && v.Slot(0, 14) != 0 && v.Slot(0, 15) != 0
    requires FreeBlock(f)
    ensures f == v.Slot(0, 12) || f == v.Slot(0, 13) || f == v.Slot(0, 14) || f == v.Slot(0, 15)
    ensures f in v.owner
  {
    hide Fs.Slot, Tracked, WideFs, Fs.Owners, Fs.Bits, Fs.Mapped, FreeBlock;
    var a, b, c, d := v.Slot(0, 12), v.Slot(0, 13), v.Slot(0, 14), v.Slot(0, 15);
    NewSlotWasFree(v, 12);
    NewSlotWasFree(v, 13);
    NewSlotWasFree(v, 14);
    NewSlotWasFree(v, 15);
    NewSlotsDiffer(v, 12, 13);
    NewSlotsDiffer(v, 12, 14);
    NewSlotsDiffer(v, 12, 15);
    NewSlotsDiffer(v, 13, 14);
    NewSlotsDiffer(v, 13, 15);
    NewSlotsDiffer(v, 14, 15);
    FourOfFour(a, b, c, d);
    OwnedSlot(v, 0, 12);
    OwnedSlot(v, 0, 13);
    OwnedSlot(v, 0, 14);
    OwnedSlot(v, 0, 15);
  }

  /** A block that differs from its old content was logged. */
  lemma ChangedIsLogged(v: Fs, b: nat)
    requires Tracked(WideFs(), v, 0, 11, 15) && v.unlogged == {} && b < WIDE.size && v.view[b] != WideFs().view[b]
    ensures b in v.dirty
  {
  }

  /** A block of the data area was 0. */
  lemma WasZero(b: nat)
    requires 8191 <= b < WIDE.size
    ensures WideFs().view[b] == ZeroBlock()
  {
  }

  lemma BitmapLogged(v: Fs, f: nat)
    requires v.Inv() && Tracked(WideFs(), v, 0, 11, 15) && v.unlogged == {} && FreeBlock(f) && f in v.owner
    ensures WIDE.BBlock(f) in v.dirty
  {
    WideMarked(f);
    assert v.IsMarked(f);
    Regions(WIDE, f, 0);
    ChangedIsLogged(v, WIDE.BBlock(f));
  }

  /** A data block that holds a 1 was logged. */
  lemma DataLogged(v: Fs, p: nat)
    requires v.Inv() && Tracked(WideFs(), v, 0, 11, 15) && v.unlogged == {} && 0 < |v.inodes| && p < MAXFILE * BSIZE
    requires IsMapped(v, 0, p) && v.ByteAt(0, p) == 1
    ensures v.Slot(0, SlotOf(p / BSIZE)) in v.dirty
  {
    var b := v.Slot(0, SlotOf(p / BSIZE));
    OwnedSlot(v, 0, SlotOf(p / BSIZE));
    WasZero(b);
    assert v.view[b][p % BSIZE] == 1 && WideFs().view[b][p % BSIZE] == 0;
    ChangedIsLogged(v, b);
  }

  lemma IndirectLogged(v: Fs)
    requires v.Inv() && Tracked(WideFs(), v, 0, 11, 15) && v.unlogged == {} && 0 < |v.inodes| && v.Slot(0, 13) != 0
    ensures v.Slot(0, 12) != 0 && v.Slot(0, 12) in v.dirty
  {
    var b := v.Indirect(0);
    assert v.Slot(0, NDIRECT) == b;
    OwnedSlot(v, 0, NDIRECT);
    WasZero(b);
    ZeroWord(0);
    assert Word(v.view[b], 0) != 0 && Word(WideFs().view[b], 0) == 0;
    ChangedIsLogged(v, b);
  }

  /** A free block that was allocated went to one of the slots 12 to 15. */
  lemma WhereItWent(v: Fs, f: nat) returns (k: nat)
    requires WideFs().Inv() && v.Inv() && Tracked(WideFs(), v, 0, 11, 15) && FreeBlock(f) && v.IsMarked(f)
    ensures 12 <= k <= 15 && 0 < |v.inodes| && v.Slot(0, k) == f
  {
    var (j, m) := v.owner[f];
    k := m;
    WideSlots(j, m);
    hide Fs.Slot, Fs.IsMarked;
  }

  /** The disk does not fill up: four blocks are enough. */
  lemma EnoughBlocks(v: Fs, k: nat)
    requires WideFs().Inv() && v.Inv() && Tracked(WideFs(), v, 0, 11, 15) && 0 < |v.inodes|
    requires forall c :: 0 <= c < WIDE.size ==> v.IsMarked(c)
    requires 11 <= k <= 15 && k != 12
    ensures v.Slot(0, k) != 0
  {
    hide Fs.Slot, Tracked, WideFs, Fs.Owners, Fs.Bits, Fs.Mapped, Fs.IsMarked;
    if k == 11 {
      Slot11Stays(v);
    } else {
      var k0 := WhereItWent(v, 8191);
      var k1 := WhereItWent(v, 8192);
      var k2 := WhereItWent(v, 24575);
      var k3 := WhereItWent(v, 24576);
      assert k == k0 || k == k1 || k == k2 || k == k3;
    }
  }

  lemma Slot11Stays(v: Fs)
    requires WideFs().Inv() && v.Inv() && Tracked(WideFs(), v, 0, 11, 15) && 0 < |v.inodes|
    ensures v.Slot(0, 11) == 8204
  {
    WideSlots(0, 11);
    hide Fs.Slot;
  }

  /** The blocks the chunk logs: five of the file, four of the bitmap, one of inodes. */
  const TEN: set<nat> := {8204, 8191, 8192, 24575, 24576, 8187, 8188, 8189, 8190, 32}

  lemma TenDistinct()
    ensures |TEN| == MAXOPBLOCKS
  {
    var five: set<nat>, five': set<nat> := {8204, 8191, 8192, 24575, 24576}, {8187, 8188, 8189, 8190, 32};
    assert |five| == 5 && |five'| == 5 && five !! five' && TEN == five + five';
  }

  /** The chunk's bytes are there. */
  lemma ChunkBytes(v: Fs, touched: nat, why: Step, p: nat)
    requires ChunkWritten(v, touched, why) && START <= p < START + CHUNK && WideFs().Inv()
    ensures v.Inv() && v.unlogged == {} && 0 < |v.inodes| && IsMapped(v, 0, p) && v.ByteAt(0, p) == 1
  {
    hide Fs.Owners, Fs.Bits, Fs.Mapped, Fs.Slot, Tracked, Overwritten, Fs.ByteAt, IsMapped;
    SizeFits(v, 0);
    var c := Content(WideFs(), 0);
    OverwrittenAt(c, START, Ones(CHUNK)[..touched], p);
    assert Content(v, 0)[p] == v.ByteAt(0, p);
  }

  lemma ChunkData(v: Fs, touched: nat, why: Step, bn: nat, p: nat)
    requires ChunkWritten(v, touched, why) && START <= p < START + CHUNK && WideFs().Inv() && p / BSIZE == bn
    ensures v.Inv() && 0 < |v.inodes| && bn < MAXFILE && v.Slot(0, SlotOf(bn)) != 0 && v.Slot(0, SlotOf(bn)) in v.dirty
  {
    hide Fs.Owners, Fs.Bits, Fs.Mapped, Fs.Slot, Tracked, Fs.ByteAt, WriteDone;
    ChunkBytes(v, touched, why, p);
    DataLogged(v, p);
  }

  lemma ChunkFacts(v: Fs, touched: nat, why: Step)
    requires ChunkWritten(v, touched, why) && WideFs().Inv()
    ensures Tracked(WideFs(), v, 0, 11, 15) && 32 in v.dirty && WideFs().Shape()
    ensures v.Inv() && v.unlogged == {} && 0 < |v.inodes|
  {
    hide Fs.Owners, Fs.Bits, Fs.Mapped, Tracked;
  }

  lemma ChunkBlocks(v: Fs, touched: nat, why: Step)
    requires ChunkWritten(v, touched, why) && WideFs().Inv()
    ensures v.Inv() && v.unlogged == {} && 0 < |v.inodes|
    ensures v.Slot(0, 12) != 0 && v.Slot(0, 13) != 0 && v.Slot(0, 14) != 0 && v.Slot(0, 15) != 0
    ensures {8204, v.Slot(0, 12), v.Slot(0, 13), v.Slot(0, 14), v.Slot(0, 15), 32} <= v.dirty
  {
    hide ChunkWritten, Fs.Inv, Fs.Shape, Fs.Slot, Tracked, Fs.ByteAt, IsMapped, WideFs;
    ChunkFacts(v, touched, why);
    ChunkData(v, touched, why, 11, START);
    ChunkData(v, touched, why, 12, 12 * BSIZE);
    ChunkData(v, touched, why, 13, 13 * BSIZE);
    ChunkData(v, touched, why, 14, 14 * BSIZE);
    ChunkBytes(v, touched, why, START);
    Slot11Stays(v);
    IndirectLogged(v);
  }

  lemma FreeLogged(v: Fs, f: nat)
    requires WideFs().Inv() && v.Inv() && Tracked(WideFs(), v, 0, 11, 15) && v.unlogged == {} && 0 < |v.inodes|
    requires v.Slot(0, 12) != 0 && v.Slot(0, 13) != 0 && v.Slot(0, 14) != 0 && v.Slot(0, 15) != 0
    requires {v.Slot(0, 12), v.Slot(0, 13), v.Slot(0, 14), v.Slot(0, 15)} <= v.dirty && FreeBlock(f)
    ensures f in v.dirty && WIDE.BBlock(f) in v.dirty
  {
    hide Fs.Owners, Fs.Bits, Fs.Mapped, Fs.Slot, Tracked, WideFs, FreeBlock;
    AllFour(v, f);
    BitmapLogged(v, f);
  }

  lemma ExactlyTen(v: Fs, touched: nat, why: Step)
    requires ChunkWritten(v, touched, why) && WideFs().Inv() && |v.dirty| <= MAXOPBLOCKS
    ensures v.dirty == TEN && |v.dirty| == MAXOPBLOCKS
  {
    hide Fs.Owners, Fs.Bits, Fs.Mapped, Fs.Slot, Tracked, WriteDone, WideFs;
    ChunkBlocks(v, touched, why);
    FreeLogged(v, 8191);
    FreeLogged(v, 8192);
    FreeLogged(v, 24575);
    FreeLogged(v, 24576);
    TenDistinct();
    SubsetSize(TEN, v.dirty);
    assert v.dirty == TEN by {
      if b :| b in v.dirty && b !in TEN {
        SubsetSize(TEN + {b}, v.dirty);
      }
    }
  }

  lemma ChunkSlots(r: nat)
    requires r < CHUNK
    ensures 11 <= SlotOf((START + r) / BSIZE) <= 15 && SlotOf((START + r) / BSIZE) != 12
    ensures SlotOf(START / BSIZE) == 11 && LastSlot(START, CHUNK) == 15
  {
  }

  /** The bound of filewrite is met: this chunk of three blocks logs exactly ten. */
  method TightChunk() returns (fs: FileSys, r: int)
    ensures fresh(fs) && fs.Valid() && r == 3 * BSIZE && fs.dirty == TEN && |fs.dirty| == MAXOPBLOCKS
  {
    hide WideFs, Fs.Owners, Fs.Bits, Fs.Mapped, Fs.Slot, Fs.IsMarked, Tracked, WriteDone, ChunkWritten, Fs.Shape;
    WideFsInv();
    WideFacts();
    fs := new FileSys(WideFs());
    ghost var touched, why;
    r, touched, why := fs.WriteTransaction(0, Ones(CHUNK), START, CHUNK);
    ghost var v := fs.State();
    ChunkEnds(v, r, touched, why);
    ExactlyTen(v, touched, why);
  }

  lemma WideFacts()
    ensures var s := WideFs();
      s.sb == WIDE && |s.inodes| == WIDE.ninodes && s.inodes[0].size == START && s.dirty == {} && s == s.(dirty := {})
  {
  }

  lemma ChunkEnds(v: Fs, r: nat, touched: nat, why: Step)
    requires WideFs().Inv() && WriteDone(WideFs(), v, 0, START, CHUNK, Ones(CHUNK), r, touched, why)
    requires Tracked(WideFs(), v, 0, SlotOf(START / BSIZE), LastSlot(START, CHUNK)) && WIDE.IBlock(0) in v.dirty
    requires v.Shape() && v.sb == WIDE && 0 < |v.inodes|
    requires why.DiskFull? ==>
      && (forall c :: 0 <= c < WIDE.size ==> v.IsMarked(c))
      && (START + r) / BSIZE < MAXFILE && v.Slot(0, SlotOf((START + r) / BSIZE)) == 0
    ensures r == CHUNK && ChunkWritten(v, touched, why)
  {
    hide WideFs, Fs.Owners, Fs.Bits, Fs.Mapped, Fs.Slot, Fs.IsMarked, Tracked, Content, Overwritten;
    if why.DiskFull? {
      ChunkSlots(r);
      EnoughBlocks(v, SlotOf((START + r) / BSIZE));
    }
    ChunkSlots(0);
  }

  // ---------------------------------------------------- a byte nobody reports written

  /** Of two bytes only the first can be read: writei returns 0, and byte 0 of the file is 1. */
  method FailingWrite() returns (fs: FileSys, r: int)
    ensures fresh(fs) && fs.Valid() && r == 0 && fs.State().Shape() && 0 < |fs.inodes|
    ensures WideFs().Shape() && Content(WideFs(), 0)[0] == 0
    ensures fs.inodes[0].size == WideFs().inodes[0].size <= MAXFILE * BSIZE && Content(fs.State(), 0)[0] == 1
  {
    hide WideFs, Fs.Owners, Fs.Bits, Fs.Mapped, Fs.Slot, Fs.IsMarked, Tracked, WriteDone, Fs.Shape, Content;
    WideFsInv();
    WideFacts();
    fs := new FileSys(WideFs());
    ghost var touched, why;
    r, touched, why := fs.Writei(0, [1], 0, 2);
    WriteDoneFacts(WideFs(), fs.State(), 0, 0, 2, [1], r, touched, why);
    FailedCopy(fs.State(), r, touched, why);
  }

  lemma FailedCopy(v: Fs, r: nat, touched: nat, why: Step)
    requires WideFs().Inv() && WriteDone(WideFs(), v, 0, 0, 2, [1], r, touched, why)
    requires v.Shape() && 0 < |v.inodes| && Tracked(WideFs(), v, 0, SlotOf(0 / BSIZE), LastSlot(0, 2))
    requires why.DiskFull? ==> r / BSIZE < MAXFILE && v.Slot(0, SlotOf(r / BSIZE)) == 0
    ensures r == 0 && WideFs().Shape() && v.inodes[0].size == WideFs().inodes[0].size <= MAXFILE * BSIZE
    ensures Content(WideFs(), 0)[0] == 0 && Content(v, 0)[0] == 1
  {
    hide Fs.Owners, Fs.Bits, Fs.Mapped, Overwritten, Fs.ByteAt;
    WideFacts();
    WideSlots(0, 0);
    var c := Content(WideFs(), 0);
    assert c[0] == 0 by { FirstByte(); }
    OverwrittenAt(c, 0, [1][..touched], 0);
  }

  lemma FirstByte()
    requires WideFs().Inv()
    ensures WideFs().Shape() && WideFs().ByteAt(0, 0) == 0
  {
    WideSlots(0, 0);
    WasZero(Direct(0, 0));
  }
}
