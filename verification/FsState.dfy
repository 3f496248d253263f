module FsState {
  // The on-disk file system as a value: the logical disk, the inodes and the block
  // each slot of an inode owns. The steps here are the small changes fs.c makes;
  // the lemmas say what each keeps and what it does to file contents.
  //
  // Slot k of an inode is addrs[k] for k <= NDIRECT (slot NDIRECT is the indirect
  // block itself) and entry k - NDIRECT - 1 of the indirect block beyond that.

  import opened Blocks
  import opened Bitmap

  const NDIRECT := 12
  const NINDIRECT := 256
  const MAXFILE := NDIRECT + NINDIRECT
  const SLOTS := NDIRECT + 1 + NINDIRECT
  const IPB := 16

  datatype Super = Super(size: nat, ninodes: nat, inodestart: nat, bmapstart: nat, datastart: nat) {
    /** boot, super and log blocks, then inode blocks, then bitmap blocks, then data blocks. */
    predicate Wf() {
      && 0 < inodestart
      && inodestart + (ninodes + IPB - 1) / IPB <= bmapstart
      && bmapstart + (size + BPB - 1) / BPB <= datastart <= size <= WORD_LIMIT
    }

    function IBlock(i: nat): nat {
      i / IPB + inodestart
    }

    function BBlock(b: nat): nat {
      b / BPB + bmapstart
    }
  }

  datatype Inode = Inode(size: nat, addrs: seq<nat>)

  /** The slot holding block number bn of a file. */
  function SlotOf(bn: nat): (k: nat) {
    if bn < NDIRECT then bn else bn + 1
  }

  datatype Fs = Fs(
    sb: Super,
    view: Disk,                      // what bread returns
    inodes: seq<Inode>,              // the in-memory inodes
    dinodes: seq<Inode>,             // their copies in the inode blocks
    dirty: set<nat>,                 // blocks passed to log_write in this transaction
    unlogged: set<nat>,              // blocks changed in the cache but never logged
    owner: map<nat, (nat, nat)>      // allocated data block -> (inode, slot)
  ) {
    predicate Shape() {
      && sb.Wf() && sb.size <= |view|
      && |inodes| == |dinodes| == sb.ninodes
      && (forall i :: 0 <= i < |inodes| ==> |inodes[i].addrs| == NDIRECT + 1)
    }

    predicate IsMarked(b: nat)
      requires Shape() && b < sb.size
    {
      Marked(view, sb.bmapstart, b)
    }

    function Indirect(i: nat): nat
      requires Shape() && i < |inodes|
    {
      inodes[i].addrs[NDIRECT]
    }

    function Slot(i: nat, k: nat): nat
      requires Shape() && i < |inodes| && k < SLOTS
    {
      if k <= NDIRECT then inodes[i].addrs[k]
      else if Indirect(i) == 0 || Indirect(i) >= |view| then 0
      else Word(view[Indirect(i)], k - NDIRECT - 1)
    }

    /** Every owned block is reached from the slot that owns it. */
    ghost predicate Reached()
      requires Shape()
    {
      forall b :: b in owner ==>
        && sb.datastart <= b < sb.size
        && owner[b].0 < |inodes| && owner[b].1 < SLOTS
        && Slot(owner[b].0, owner[b].1) == b
    }

    /** Every slot in use owns what it points to, so no block is reached twice. */
    ghost predicate Exclusive()
      requires Shape()
    {
      forall i, k :: 0 <= i < |inodes| && 0 <= k < SLOTS && Slot(i, k) != 0 ==>
        Slot(i, k) in owner && owner[Slot(i, k)] == (i, k)
    }

    ghost predicate Owners()
      requires Shape()
    {
      Reached() && Exclusive()
    }

    /** The bitmap marks exactly the metadata and the owned blocks. */
    ghost predicate Bits()
      requires Shape()
    {
      forall b :: 0 <= b < sb.size ==> (IsMarked(b) <==> b < sb.datastart || b in owner)
    }

    predicate MappedTo(i: nat, len: nat)
      requires Shape() && i < |inodes|
    {
      len <= MAXFILE * BSIZE &&
      forall bn :: 0 <= bn < MAXFILE && bn * BSIZE < len ==> Slot(i, SlotOf(bn)) != 0
    }

    /** Files have no holes: every block below the size is mapped. */
    ghost predicate Mapped()
      requires Shape()
    {
      forall i :: 0 <= i < |inodes| ==> MappedTo(i, inodes[i].size)
    }

    ghost predicate Inv() {
      Shape() && Owners() && Bits() && Mapped()
    }

    /** Byte p of inode i, wherever its block is. */
    function ByteAt(i: nat, p: nat): Byte
      requires Shape() && i < |inodes| && p < MAXFILE * BSIZE
    {
      var b := Slot(i, SlotOf(p / BSIZE));
      if b < |view| then view[b][p % BSIZE] else 0
    }

    // The steps.

    /** balloc's effect: mark block b and zero it. */
    function Alloc(b: nat): Fs
      requires Shape() && b < sb.size
    {
      this.(view := Mark(view, sb.bmapstart, b)[b := ZeroBlock()], dirty := dirty + {sb.BBlock(b), b})
    }

    /** bmap records block b in slot k. */
    function Attach(i: nat, k: nat, b: nat): Fs
      requires Shape() && i < |inodes| && k < SLOTS && (k > NDIRECT ==> Indirect(i) < |view|)
    {
      if k <= NDIRECT then
        this.(owner := owner[b := (i, k)],
              inodes := inodes[i := Inode(inodes[i].size, inodes[i].addrs[k := b])])
      else
        this.(owner := owner[b := (i, k)],
              view := view[Indirect(i) := SetWord(view[Indirect(i)], k - NDIRECT - 1, b)],
              dirty := dirty + {Indirect(i)})
    }

    /** New content for a data block. */
    function Store(b: nat, data: Block): Fs
      requires b < |view|
    {
      this.(view := view[b := data])
    }
  }

  /** BBLOCK and IBLOCK stay inside their regions. */
  lemma Regions(sb: Super, b: nat, i: nat)
    requires sb.Wf()
    ensures b < sb.size ==> sb.bmapstart <= sb.BBlock(b) < sb.datastart
    ensures i < sb.ninodes ==> sb.inodestart <= sb.IBlock(i) < sb.bmapstart
  {
  }

  lemma OwnedSlot(s: Fs, i: nat, k: nat)
    requires s.Inv() && i < |s.inodes| && k < SLOTS && s.Slot(i, k) != 0
    ensures s.sb.datastart <= s.Slot(i, k) < s.sb.size && s.IsMarked(s.Slot(i, k))
    ensures s.Slot(i, k) in s.owner && s.owner[s.Slot(i, k)] == (i, k)
  {
    hide Marked;
  }

  /** Allocating an unmarked block changes no slot. */
  lemma AllocSlots(s: Fs, b: nat, j: nat, m: nat)
    requires s.Inv() && b < s.sb.size && !s.IsMarked(b) && j < |s.inodes| && m < SLOTS
    ensures s.Alloc(b).Shape() && s.Alloc(b).Slot(j, m) == s.Slot(j, m)
  {
    hide Marked, Word, BlockSet;
    Regions(s.sb, b, j);
    if m > NDIRECT && s.Indirect(j) != 0 {
      OwnedSlot(s, j, NDIRECT);
    }
  }

  /** A free slot that may be filled: its indirect block exists if it needs one. */
  predicate Fillable(s: Fs, i: nat, k: nat)
    requires s.Shape()
  {
    i < |s.inodes| && k < SLOTS && s.Slot(i, k) == 0 && (k > NDIRECT ==> s.Indirect(i) != 0)
  }

  /** balloc and the pointer store together fill exactly one slot. */
  lemma AttachSlots(s: Fs, i: nat, k: nat, b: nat, j: nat, m: nat)
    requires s.Inv() && Fillable(s, i, k) && 0 < b < s.sb.size && !s.IsMarked(b)
    requires j < |s.inodes| && m < SLOTS
    ensures k > NDIRECT ==> s.Indirect(i) < |s.view|
    ensures var t := s.Alloc(b).Attach(i, k, b);
      t.Shape() && t.Slot(j, m) == if (j, m) == (i, k) then b else s.Slot(j, m)
  {
    hide Marked, Word, SetWord, BlockSet;
    AllocSlots(s, b, j, m);
    if k > NDIRECT {
      OwnedSlot(s, i, NDIRECT);
    }
    var u := s.Alloc(b);
    var t := u.Attach(i, k, b);
    if m > NDIRECT {
      var x := m - NDIRECT - 1;
      if k == NDIRECT && j == i {
        ZeroWord(x);
      } else if s.Indirect(j) != 0 && k > NDIRECT {
        OwnedSlot(s, j, NDIRECT);
        if j == i {
          WordSetWord(u.view[s.Indirect(i)], k - NDIRECT - 1, b, x);
        }
      }
    }
  }

  /** The bitmap after balloc and the pointer store: one more bit. */
  lemma AttachBits(s: Fs, i: nat, k: nat, b: nat, c: nat)
    requires s.Inv() && Fillable(s, i, k) && 0 < b < s.sb.size && !s.IsMarked(b) && c < s.sb.size
    requires k > NDIRECT ==> s.Indirect(i) < |s.view|
    ensures var t := s.Alloc(b).Attach(i, k, b);
      t.Shape() && (t.IsMarked(c) <==> c == b || s.IsMarked(c))
  {
    hide BlockBit, BlockSet, SetWord, Word;
    Regions(s.sb, b, i);
    Regions(s.sb, c, i);
    assert s.sb.datastart <= b by { hide *; UnmarkedIsData(s, b); }
    if k > NDIRECT {
      OwnedSlot(s, i, NDIRECT);
    }
    MarkMeaning(s.view, s.sb.bmapstart, b, c);
  }

  lemma UnmarkedIsData(s: Fs, b: nat)
    requires s.Inv() && b < s.sb.size && !s.IsMarked(b)
    ensures s.sb.datastart <= b && b !in s.owner
  {
    hide Marked, Word;
  }

  /** t is s with slot k of inode i pointing to block b. */
  ghost predicate SlotAdded(s: Fs, t: Fs, i: nat, k: nat, b: nat) {
    && s.Shape() && t.Shape() && t.sb == s.sb && |t.inodes| == |s.inodes|
    && (forall j :: 0 <= j < |s.inodes| ==> t.inodes[j].size == s.inodes[j].size)
    && (forall j, m :: 0 <= j < |s.inodes| && 0 <= m < SLOTS ==>
          t.Slot(j, m) == if (j, m) == (i, k) then b else s.Slot(j, m))
    && t.owner == s.owner[b := (i, k)]
  }

  lemma SlotAddedReached(s: Fs, t: Fs, i: nat, k: nat, b: nat)
    requires s.Inv() && SlotAdded(s, t, i, k, b) && Fillable(s, i, k)
    requires b !in s.owner && s.sb.datastart <= b < s.sb.size
    ensures t.Reached()
  {
    assert 0 < s.sb.datastart;
    hide Fs.Slot, Fs.IsMarked, Fs.Shape, Super.Wf, Fs.Mapped, Fs.Bits, Fs.Exclusive;
    forall c | c in t.owner
      ensures s.sb.datastart <= c < s.sb.size && t.owner[c].0 < |t.inodes| && t.owner[c].1 < SLOTS
      ensures t.Slot(t.owner[c].0, t.owner[c].1) == c
    {
      if c != b {
        var (j, m) := s.owner[c];
        assert s.Slot(j, m) == c;
      }
    }
  }

  lemma SlotAddedExclusive(s: Fs, t: Fs, i: nat, k: nat, b: nat)
    requires s.Inv() && SlotAdded(s, t, i, k, b) && b !in s.owner
    ensures t.Exclusive()
  {
    hide Fs.Slot, Fs.IsMarked, Fs.Shape, Super.Wf, Fs.Mapped, Fs.Bits, Fs.Reached;
    forall j, m | 0 <= j < |t.inodes| && 0 <= m < SLOTS && t.Slot(j, m) != 0
      ensures t.Slot(j, m) in t.owner && t.owner[t.Slot(j, m)] == (j, m)
    {
      if (j, m) != (i, k) {
        assert s.Slot(j, m) in s.owner;
      }
    }
  }

  lemma SlotAddedMapped(s: Fs, t: Fs, i: nat, k: nat, b: nat)
    requires s.Inv() && SlotAdded(s, t, i, k, b) && b != 0
    ensures t.Mapped()
    ensures forall j, len :: 0 <= j < |s.inodes| && s.MappedTo(j, len) ==> t.MappedTo(j, len)
  {
    hide Fs.Slot, Fs.IsMarked, Fs.Shape, Super.Wf, Fs.Owners, Fs.Bits;
    forall j, len | 0 <= j < |t.inodes| && s.MappedTo(j, len) ensures t.MappedTo(j, len) {
    }
    forall j | 0 <= j < |t.inodes| ensures t.MappedTo(j, t.inodes[j].size) {
      assert s.MappedTo(j, s.inodes[j].size);
      assert t.inodes[j].size == s.inodes[j].size;
    }
  }

  lemma AttachAdds(s: Fs, i: nat, k: nat, b: nat)
    requires s.Inv() && Fillable(s, i, k) && 0 < b < s.sb.size && !s.IsMarked(b)
    requires k > NDIRECT ==> s.Indirect(i) < |s.view|
    ensures SlotAdded(s, s.Alloc(b).Attach(i, k, b), i, k, b)
  {
    hide Fs.IsMarked, Fs.Slot;
    var t := s.Alloc(b).Attach(i, k, b);
    forall j, m | 0 <= j < |s.inodes| && 0 <= m < SLOTS
      ensures t.Shape() && t.Slot(j, m) == if (j, m) == (i, k) then b else s.Slot(j, m)
    {
      AttachSlots(s, i, k, b, j, m);
    }
  }

  /** bmap's allocation keeps ownership, bitmap and mapping intact. */
  lemma AttachInv(s: Fs, i: nat, k: nat, b: nat)
    requires s.Inv() && Fillable(s, i, k) && 0 < b < s.sb.size && !s.IsMarked(b)
    requires k > NDIRECT ==> s.Indirect(i) < |s.view|
    ensures s.Alloc(b).Attach(i, k, b).Inv()
  {
    var t := s.Alloc(b).Attach(i, k, b);
    UnmarkedIsData(s, b);
    AttachAdds(s, i, k, b);
    SlotAddedReached(s, t, i, k, b);
    SlotAddedExclusive(s, t, i, k, b);
    SlotAddedMapped(s, t, i, k, b);
    hide Fs.IsMarked, Fs.Alloc, Fs.Attach, Fs.Slot, Fs.Owners, Fs.Mapped;
    forall c | 0 <= c < s.sb.size ensures t.IsMarked(c) <==> c == b || s.IsMarked(c) {
      AttachBits(s, i, k, b, c);
    }
  }

  // ------------------------------------------------------------- file contents

  predicate IsMapped(s: Fs, i: nat, p: nat)
    requires s.Shape()
  {
    i < |s.inodes| && p < MAXFILE * BSIZE && s.Slot(i, SlotOf(p / BSIZE)) != 0
  }

  /** A new block disturbs no byte of any file. */
  lemma AttachBytes(s: Fs, i: nat, k: nat, b: nat, j: nat, p: nat)
    requires s.Inv() && Fillable(s, i, k) && 0 < b < s.sb.size && !s.IsMarked(b)
    requires k > NDIRECT ==> s.Indirect(i) < |s.view|
    requires IsMapped(s, j, p)
    ensures var t := s.Alloc(b).Attach(i, k, b);
      t.Shape() && IsMapped(t, j, p) && t.ByteAt(j, p) == s.ByteAt(j, p)
  {
    var m := SlotOf(p / BSIZE);
    AttachSlots(s, i, k, b, j, m);
    OwnedSlot(s, j, m);
    Regions(s.sb, b, i);
    if k > NDIRECT {
      OwnedSlot(s, i, NDIRECT);
      assert s.Slot(i, NDIRECT) == s.Indirect(i);
    }
    hide Word, SetWord, BlockSet, Fs.Inv;
  }

  /** Storing into a data block of inode i leaves every slot where it was. */
  lemma StoreSlots(s: Fs, i: nat, k: nat, data: Block, j: nat, m: nat)
    requires s.Inv() && i < |s.inodes| && k < SLOTS && k != NDIRECT && s.Slot(i, k) != 0
    requires j < |s.inodes| && m < SLOTS
    ensures s.Slot(i, k) < |s.view|
    ensures var t := s.Store(s.Slot(i, k), data); t.Shape() && t.Slot(j, m) == s.Slot(j, m)
  {
    hide Marked, Word, Fs.Bits, Fs.Mapped;
    OwnedSlot(s, i, k);
    if m > NDIRECT && s.Indirect(j) != 0 {
      OwnedSlot(s, j, NDIRECT);
    }
  }

  lemma StoreInv(s: Fs, i: nat, k: nat, data: Block)
    requires s.Inv() && i < |s.inodes| && k < SLOTS && k != NDIRECT && s.Slot(i, k) != 0
    requires s.Slot(i, k) < |s.view|
    ensures s.Store(s.Slot(i, k), data).Inv()
  {
    var t := s.Store(s.Slot(i, k), data);
    OwnedSlot(s, i, k);
    forall c | 0 <= c < s.sb.size ensures t.IsMarked(c) == s.IsMarked(c) {
      Regions(s.sb, c, i);
      hide BlockBit, Word;
    }
    hide Marked, Fs.IsMarked;
    forall j, m | 0 <= j < |s.inodes| && 0 <= m < SLOTS ensures t.Slot(j, m) == s.Slot(j, m) {
      StoreSlots(s, i, k, data, j, m);
    }
    hide Fs.Slot, Fs.Store;
    assert t.Mapped() by {
      forall j | 0 <= j < |t.inodes| ensures t.MappedTo(j, t.inodes[j].size) {
        assert s.MappedTo(j, s.inodes[j].size);
      }
    }
  }

  /** ... and changes exactly the bytes of that block, of that file. */
  lemma StoreBytes(s: Fs, i: nat, bn: nat, data: Block, j: nat, p: nat)
    requires s.Inv() && i < |s.inodes| && bn < MAXFILE && s.Slot(i, SlotOf(bn)) != 0
    requires s.Slot(i, SlotOf(bn)) < |s.view| && IsMapped(s, j, p)
    ensures var t := s.Store(s.Slot(i, SlotOf(bn)), data);
      && t.Shape() && IsMapped(t, j, p)
      && t.ByteAt(j, p) == if j == i && p / BSIZE == bn then data[p % BSIZE] else s.ByteAt(j, p)
  {
    var m := SlotOf(p / BSIZE);
    StoreSlots(s, i, SlotOf(bn), data, j, m);
    OwnedSlot(s, j, m);
    OwnedSlot(s, i, SlotOf(bn));
    hide Word, Fs.Inv;
  }

  /** From s to t blocks were only added: nothing that was mapped moved or changed. */
  ghost predicate Grew(s: Fs, t: Fs) {
    && s.Inv() && t.Inv() && t.sb == s.sb && |t.inodes| == |s.inodes|
    && t.dinodes == s.dinodes && t.unlogged == s.unlogged
    && (forall j :: 0 <= j < |s.inodes| ==> t.inodes[j].size == s.inodes[j].size)
    && (forall j, m :: 0 <= j < |s.inodes| && 0 <= m < SLOTS && s.Slot(j, m) != 0 ==> t.Slot(j, m) == s.Slot(j, m))
    && (forall j, p :: 0 <= j < |s.inodes| && 0 <= p < MAXFILE * BSIZE && IsMapped(s, j, p) ==>
          t.ByteAt(j, p) == s.ByteAt(j, p))
  }

  lemma AttachGrew(s: Fs, i: nat, k: nat, b: nat)
    requires s.Inv() && Fillable(s, i, k) && 0 < b < s.sb.size && !s.IsMarked(b)
    requires k > NDIRECT ==> s.Indirect(i) < |s.view|
    ensures Grew(s, s.Alloc(b).Attach(i, k, b))
  {
    AttachInv(s, i, k, b);
    AttachAdds(s, i, k, b);
    hide Fs.Slot, Fs.IsMarked, Fs.ByteAt, Fs.Inv;
    var t := s.Alloc(b).Attach(i, k, b);
    forall j, p | 0 <= j < |s.inodes| && 0 <= p < MAXFILE * BSIZE && IsMapped(s, j, p)
      ensures t.ByteAt(j, p) == s.ByteAt(j, p)
    {
      AttachBytes(s, i, k, b, j, p);
    }
  }

  lemma GrewTrans(s: Fs, t: Fs, u: Fs)
    requires Grew(s, t) && Grew(t, u)
    ensures Grew(s, u)
  {
    hide Fs.Slot, Fs.ByteAt, Fs.Owners, Fs.Bits, Fs.Mapped;
    forall j, p | 0 <= j < |s.inodes| && 0 <= p < MAXFILE * BSIZE && IsMapped(s, j, p)
      ensures u.ByteAt(j, p) == s.ByteAt(j, p)
    {
      assert IsMapped(t, j, p);
    }
  }

  lemma GrewMapped(s: Fs, t: Fs, i: nat, len: nat)
    requires Grew(s, t) && i < |s.inodes| && s.MappedTo(i, len)
    ensures t.MappedTo(i, len)
  {
    hide Fs.Slot, Fs.ByteAt, Fs.Owners, Fs.Bits, Fs.Mapped;
    forall bn | 0 <= bn < MAXFILE && bn * BSIZE < len ensures t.Slot(i, SlotOf(bn)) != 0 {
      assert s.Slot(i, SlotOf(bn)) != 0;
    }
  }

  // ---------------------------------------------------------------- truncation

  /** view' is s.view with exactly the bits of the blocks in freed cleared. */
  ghost predicate BitsCleared(s: Fs, view': Disk, freed: set<nat>)
    requires s.Shape()
  {
    && |view'| == |s.view|
    && (forall x :: 0 <= x < |s.view| && !(s.sb.bmapstart <= x < s.sb.datastart) ==> view'[x] == s.view[x])
    && (forall c :: 0 <= c < s.sb.size && s.sb.BBlock(c) < |view'| ==>
          (Marked(view', s.sb.bmapstart, c) <==> s.IsMarked(c) && c !in freed))
  }

  /** bfree clears one more bit. */
  lemma BfreeStep(s: Fs, view': Disk, freed: set<nat>, b: nat)
    requires s.Shape() && b < s.sb.size && BitsCleared(s, view', freed)
    requires s.sb.BBlock(b) < |view'|
    ensures BitsCleared(s, Unmark(view', s.sb.bmapstart, b), freed + {b})
  {
    Regions(s.sb, b, 0);
    hide BlockBit, BlockClear;
    var w := Unmark(view', s.sb.bmapstart, b);
    forall c | 0 <= c < s.sb.size && s.sb.BBlock(c) < |w|
      ensures Marked(w, s.sb.bmapstart, c) <==> s.IsMarked(c) && c !in freed + {b}
    {
      UnmarkMeaning(view', s.sb.bmapstart, b, c);
    }
  }

  function EmptyInode(): Inode {
    Inode(0, [0, 0, 0, 0, 0, 0, 0, 0, 0, 0, 0, 0, 0])
  }

  /** The blocks inode i owns. */
  ghost function OwnedBy(s: Fs, i: nat): set<nat> {
    set b | b in s.owner && s.owner[b].0 == i
  }

  /** s after itrunc of inode i, with the given blocks of the bitmap. */
  ghost function Truncated(s: Fs, i: nat, view': Disk): Fs
    requires i < |s.inodes|
  {
    s.(view := view', inodes := s.inodes[i := EmptyInode()], owner := s.owner - OwnedBy(s, i))
  }

  lemma TruncatedSlots(s: Fs, i: nat, view': Disk, j: nat, m: nat)
    requires s.Inv() && i < |s.inodes| && BitsCleared(s, view', OwnedBy(s, i))
    requires j < |s.inodes| && m < SLOTS
    ensures var t := Truncated(s, i, view');
      t.Shape() && t.Slot(j, m) == if j == i then 0 else s.Slot(j, m)
  {
    hide Marked, Word, Fs.Bits, Fs.Mapped;
    if j != i && m > NDIRECT && s.Indirect(j) != 0 {
      OwnedSlot(s, j, NDIRECT);
    }
  }

  /** t is s without the slots of inode i. */
  ghost predicate SlotsRemoved(s: Fs, t: Fs, i: nat) {
    && s.Shape() && t.Shape() && t.sb == s.sb && |t.inodes| == |s.inodes|
    && (forall j :: 0 <= j < |s.inodes| ==> t.inodes[j].size == if j == i then 0 else s.inodes[j].size)
    && (forall j, m :: 0 <= j < |s.inodes| && 0 <= m < SLOTS ==>
          t.Slot(j, m) == if j == i then 0 else s.Slot(j, m))
    && t.owner == s.owner - OwnedBy(s, i)
  }

  lemma SlotsRemovedOwners(s: Fs, t: Fs, i: nat)
    requires s.Inv() && SlotsRemoved(s, t, i)
    ensures t.Owners()
  {
    hide Fs.Slot, Fs.IsMarked, Fs.Shape, Super.Wf, Fs.Mapped, Fs.Bits;
    forall c | c in t.owner
      ensures t.Slot(t.owner[c].0, t.owner[c].1) == c
    {
      var (j, m) := s.owner[c];
      assert s.Slot(j, m) == c;
    }
  }

  lemma SlotsRemovedMapped(s: Fs, t: Fs, i: nat)
    requires s.Inv() && SlotsRemoved(s, t, i)
    ensures t.Mapped()
  {
    hide Fs.Slot, Fs.IsMarked, Fs.Shape, Super.Wf, Fs.Owners, Fs.Bits;
    forall j | 0 <= j < |t.inodes| ensures t.MappedTo(j, t.inodes[j].size) {
      assert s.MappedTo(j, s.inodes[j].size);
    }
  }

  lemma TruncatedRemoves(s: Fs, i: nat, view': Disk)
    requires s.Inv() && i < |s.inodes| && BitsCleared(s, view', OwnedBy(s, i))
    ensures SlotsRemoved(s, Truncated(s, i, view'), i)
  {
    hide Fs.Slot, Fs.Owners, Fs.Bits, Fs.Mapped, BitsCleared;
    var t := Truncated(s, i, view');
    forall j, m | 0 <= j < |s.inodes| && 0 <= m < SLOTS
      ensures t.Shape() && t.Slot(j, m) == if j == i then 0 else s.Slot(j, m)
    {
      TruncatedSlots(s, i, view', j, m);
    }
    TruncatedSlots(s, i, view', i, 0);
  }

  /** Truncation frees exactly the inode's own blocks and keeps every invariant. */
  lemma TruncatedInv(s: Fs, i: nat, view': Disk)
    requires s.Inv() && i < |s.inodes| && BitsCleared(s, view', OwnedBy(s, i))
    ensures Truncated(s, i, view').Inv()
  {
    var t := Truncated(s, i, view');
    TruncatedRemoves(s, i, view');
    SlotsRemovedOwners(s, t, i);
    SlotsRemovedMapped(s, t, i);
    hide Fs.Slot, Fs.Owners, Fs.Mapped, Marked;
    forall c | 0 <= c < s.sb.size ensures t.IsMarked(c) <==> c < s.sb.datastart || c in t.owner {
      Regions(s.sb, c, 0);
    }
  }

  /** ... and no byte of any other file. */
  lemma TruncatedBytes(s: Fs, i: nat, view': Disk, j: nat, p: nat)
    requires s.Inv() && i < |s.inodes| && BitsCleared(s, view', OwnedBy(s, i))
    requires j != i && IsMapped(s, j, p)
    ensures var t := Truncated(s, i, view'); t.Shape() && IsMapped(t, j, p) && t.ByteAt(j, p) == s.ByteAt(j, p)
  {
    TruncatedSlots(s, i, view', j, SlotOf(p / BSIZE));
    OwnedSlot(s, j, SlotOf(p / BSIZE));
    hide Marked, Word;
  }

  /** The indirect block of inode i and its bitmap block: what bmap may log besides the data block's own. */
  function IndirectBlocks(s: Fs, i: nat): set<nat>
    requires s.Shape() && i < |s.inodes|
  {
    if s.Indirect(i) == 0 then {} else {s.Indirect(i), s.sb.BBlock(s.Indirect(i))}
  }

  lemma GrewRefl(s: Fs)
    requires s.Inv()
    ensures Grew(s, s)
  {
  }

  lemma GrewFacts(s: Fs, t: Fs, i: nat, k: nat)
    requires Grew(s, t) && i < |s.inodes| && k < SLOTS
    ensures s.Shape() && t.Shape() && t.Inv() && t.sb == s.sb && |t.inodes| == |s.inodes|
    ensures s.Slot(i, k) != 0 ==> t.Slot(i, k) == s.Slot(i, k)
    ensures s.Indirect(i) != 0 ==> t.Indirect(i) == s.Indirect(i)
  {
    assert s.Slot(i, NDIRECT) == s.Indirect(i);
    assert t.Slot(i, NDIRECT) == t.Indirect(i);
  }

  /** freed holds the blocks of inode i in the slots below k, and in the indirect entries below j. */
  ghost predicate FreedSoFar(s: Fs, i: nat, freed: set<nat>, k: nat, j: nat) {
    forall b :: b in freed <==>
      b in s.owner && s.owner[b].0 == i && (s.owner[b].1 < k || NDIRECT < s.owner[b].1 <= NDIRECT + j)
  }

  /** The block in slot m has not been freed yet: bfree will find its bit set. */
  lemma NotYetFreed(s: Fs, i: nat, view': Disk, freed: set<nat>, k: nat, j: nat, m: nat)
    requires s.Inv() && i < |s.inodes| && m < SLOTS && s.Slot(i, m) != 0
    requires FreedSoFar(s, i, freed, k, j) && BitsCleared(s, view', freed)
    requires m >= k && !(NDIRECT < m <= NDIRECT + j)
    ensures s.Slot(i, m) < s.sb.size && s.sb.BBlock(s.Slot(i, m)) < |view'|
    ensures Marked(view', s.sb.bmapstart, s.Slot(i, m))
  {
    OwnedSlot(s, i, m);
    Regions(s.sb, s.Slot(i, m), 0);
    hide Marked, Word;
  }

  /** Passing slot k, which may hold a block. */
  lemma FreedSlot(s: Fs, i: nat, freed: set<nat>, k: nat, j: nat)
    requires s.Inv() && i < |s.inodes| && FreedSoFar(s, i, freed, k, j)
    requires k < NDIRECT || (k == NDIRECT && j == NINDIRECT)
    ensures s.Slot(i, k) == 0 ==> FreedSoFar(s, i, freed, k + 1, j)
    ensures s.Slot(i, k) != 0 ==> FreedSoFar(s, i, freed + {s.Slot(i, k)}, k + 1, j)
  {
    hide Marked, Word, Fs.Bits, Fs.Mapped;
    if s.Slot(i, k) != 0 {
      OwnedSlot(s, i, k);
    }
  }

  /** Passing entry j of the indirect block. */
  lemma FreedEntry(s: Fs, i: nat, freed: set<nat>, j: nat)
    requires s.Inv() && i < |s.inodes| && j < NINDIRECT && FreedSoFar(s, i, freed, NDIRECT, j)
    ensures s.Slot(i, NDIRECT + 1 + j) == 0 ==> FreedSoFar(s, i, freed, NDIRECT, j + 1)
    ensures s.Slot(i, NDIRECT + 1 + j) != 0 ==> FreedSoFar(s, i, freed + {s.Slot(i, NDIRECT + 1 + j)}, NDIRECT, j + 1)
  {
    hide Marked, Word, Fs.Bits, Fs.Mapped;
    if s.Slot(i, NDIRECT + 1 + j) != 0 {
      OwnedSlot(s, i, NDIRECT + 1 + j);
    }
  }

  lemma AllFreed(s: Fs, i: nat, freed: set<nat>, k: nat)
    requires s.Inv() && i < |s.inodes| && FreedSoFar(s, i, freed, k, NINDIRECT)
    requires k == NDIRECT + 1 || (k == NDIRECT && s.Slot(i, NDIRECT) == 0)
    ensures freed == OwnedBy(s, i)
  {
    hide Marked, Word, Fs.Bits, Fs.Mapped;
    assert 0 < s.sb.datastart;
  }

  lemma NoIndirectEntries(s: Fs, i: nat, freed: set<nat>)
    requires s.Inv() && i < |s.inodes| && FreedSoFar(s, i, freed, NDIRECT, 0) && s.Indirect(i) == 0
    ensures FreedSoFar(s, i, freed, NDIRECT, NINDIRECT)
  {
    hide Marked, Word, Fs.Bits, Fs.Mapped;
    assert 0 < s.sb.datastart;
  }

  /** From s to t, inode i lost all its blocks and nothing else happened to blocks or contents. */
  ghost predicate OnlyTruncated(s: Fs, t: Fs, i: nat) {
    && s.Inv() && t.Inv() && i < |s.inodes| && t.sb == s.sb
    && t.inodes == s.inodes[i := EmptyInode()]
    && t.owner == s.owner - OwnedBy(s, i)
    && (forall c :: 0 <= c < s.sb.size ==> (t.IsMarked(c) <==> s.IsMarked(c) && c !in OwnedBy(s, i)))
    && (forall j, p :: 0 <= j < |s.inodes| && 0 <= p < MAXFILE * BSIZE && j != i && IsMapped(s, j, p) ==>
          t.ByteAt(j, p) == s.ByteAt(j, p))
  }

  lemma TruncatedFrame(s: Fs, i: nat, t: Fs)
    requires s.Inv() && i < |s.inodes| && BitsCleared(s, t.view, OwnedBy(s, i))
    requires t == Truncated(s, i, t.view).(dirty := t.dirty, dinodes := t.dinodes) && |t.dinodes| == |s.dinodes|
    ensures OnlyTruncated(s, t, i)
  {
    var u := Truncated(s, i, t.view);
    TruncatedInv(s, i, t.view);
    BookkeepingInv(u, t);
    hide Fs.Owners, Fs.Bits, Fs.Mapped, Marked, OwnedBy, Word;
    forall c | 0 <= c < s.sb.size ensures t.IsMarked(c) <==> s.IsMarked(c) && c !in OwnedBy(s, i) {
      Regions(s.sb, c, 0);
    }
    forall j, p | 0 <= j < |s.inodes| && 0 <= p < MAXFILE * BSIZE && j != i && IsMapped(s, j, p)
      ensures t.ByteAt(j, p) == s.ByteAt(j, p)
    {
      TruncatedBytes(s, i, t.view, j, p);
    }
  }

  /** dirty, unlogged and the inode blocks are not part of the invariant. */
  lemma BookkeepingInv(s: Fs, t: Fs)
    requires s.Inv() && t == s.(dirty := t.dirty, dinodes := t.dinodes, unlogged := t.unlogged)
    requires |t.dinodes| == |s.dinodes|
    ensures t.Inv()
  {
    assert forall i, k :: 0 <= i < |s.inodes| && 0 <= k < SLOTS ==> t.Slot(i, k) == s.Slot(i, k);
    assert forall c :: 0 <= c < s.sb.size ==> t.IsMarked(c) == s.IsMarked(c);
    hide Fs.Slot, Fs.IsMarked;
    assert t.Mapped() by {
      forall j | 0 <= j < |t.inodes| ensures t.MappedTo(j, t.inodes[j].size) {
        assert s.MappedTo(j, s.inodes[j].size);
      }
    }
  }

  lemma DirectSlot(s: Fs, i: nat, k: nat)
    requires s.Inv() && i < |s.inodes| && k <= NDIRECT
    ensures s.Slot(i, k) == s.inodes[i].addrs[k]
  {
  }

  /** An entry read from the indirect block as itrunc finds it, bits already cleared or not. */
  lemma EntrySlot(s: Fs, i: nat, view': Disk, freed: set<nat>, j: nat)
    requires s.Inv() && i < |s.inodes| && j < NINDIRECT && s.Indirect(i) != 0 && BitsCleared(s, view', freed)
    ensures s.Indirect(i) < |view'| && s.Slot(i, NDIRECT + 1 + j) == Word(view'[s.Indirect(i)], j)
  {
    hide Word, Marked;
    DirectSlot(s, i, NDIRECT);
    OwnedSlot(s, i, NDIRECT);
  }

  lemma OnlyTruncatedInv(s: Fs, t: Fs, i: nat)
    requires OnlyTruncated(s, t, i)
    ensures t.Inv()
  {
  }
}
