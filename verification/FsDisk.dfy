module FsDisk {
  // The file system as the disk holds it: inodes in their blocks, everything else
  // block for block. A chunk of filewrite commits through the log, so whatever
  // crashes happen, a boot finds a consistent file system in which the file is the
  // old one or has the reported bytes.

  import opened Blocks
  import opened Bitmap
  import opened FsState
  import opened FsRecord
  import opened FileBytes
  import opened FileSystem
  import opened CrashSpec

  // ------------------------------------------------------------------- inodes in blocks

  /** Word of struct dinode k of a block: type, major, minor and nlink are words 0 and 1. */
  function SizeWord(k: nat): nat {
    16 * k + 2
  }

  function AddrWord(k: nat, a: nat): nat {
    16 * k + 3 + a
  }

  function DiskInode(b: Block, k: nat): Inode
    requires k < IPB
  {
    Inode(Word(b, SizeWord(k)), seq(NDIRECT + 1, a requires 0 <= a < NDIRECT + 1 => Word(b, AddrWord(k, a))))
  }

  predicate Fits32(ino: Inode) {
    && ino.size < WORD_LIMIT && |ino.addrs| == NDIRECT + 1
    && forall a :: 0 <= a < |ino.addrs| ==> ino.addrs[a] < WORD_LIMIT
  }

  /** iupdate's memmove of the first n addresses. */
  function PutAddrs(b: Block, k: nat, addrs: seq<nat>, n: nat): Block
    requires k < IPB && n <= |addrs| == NDIRECT + 1
  {
    if n == 0 then b else SetWord(PutAddrs(b, k, addrs, n - 1), AddrWord(k, n - 1), addrs[n - 1])
  }

  /** iupdate: the block with inode k stored in it. */
  function PutInode(b: Block, k: nat, ino: Inode): Block
    requires k < IPB && |ino.addrs| == NDIRECT + 1
  {
    PutAddrs(SetWord(b, SizeWord(k), ino.size), k, ino.addrs, NDIRECT + 1)
  }

  lemma {:induction false} PutAddrsWord(b: Block, k: nat, addrs: seq<nat>, n: nat, w: nat)
    requires k < IPB && n <= |addrs| == NDIRECT + 1 && w < WORDS
    requires forall a :: 0 <= a < |addrs| ==> addrs[a] < WORD_LIMIT
    ensures Word(PutAddrs(b, k, addrs, n), w) ==
      if AddrWord(k, 0) <= w < AddrWord(k, n) then addrs[w - AddrWord(k, 0)] else Word(b, w)
  {
    if n > 0 {
      PutAddrsWord(b, k, addrs, n - 1, w);
      WordSetWord(PutAddrs(b, k, addrs, n - 1), AddrWord(k, n - 1), addrs[n - 1], w);
    }
  }

  /** Storing one inode of a block and reading any. */
  lemma InodeRoundTrip(b: Block, k: nat, ino: Inode, j: nat)
    requires k < IPB && j < IPB && Fits32(ino)
    ensures DiskInode(PutInode(b, k, ino), j) == if j == k then ino else DiskInode(b, j)
  {
    hide SetWord, Word;
    var b1 := SetWord(b, SizeWord(k), ino.size);
    var c, want := PutInode(b, k, ino), if j == k then ino else DiskInode(b, j);
    PutAddrsWord(b1, k, ino.addrs, NDIRECT + 1, SizeWord(j));
    WordSetWord(b, SizeWord(k), ino.size, SizeWord(j));
    assert Word(c, SizeWord(j)) == want.size;
    forall a | 0 <= a < NDIRECT + 1 ensures Word(c, AddrWord(j, a)) == want.addrs[a] {
      PutAddrsWord(b1, k, ino.addrs, NDIRECT + 1, AddrWord(j, a));
      WordSetWord(b, SizeWord(k), ino.size, AddrWord(j, a));
    }
    assert DiskInode(c, j).addrs == want.addrs;
  }

  // ------------------------------------------------------------------- disk and file system

  /** Disk d holds inode i of s. */
  predicate InodeOn(d: Disk, s: Fs, i: nat)
    requires i < |s.dinodes|
  {
    s.sb.IBlock(i) < |d| && DiskInode(d[s.sb.IBlock(i)], i % IPB) == s.dinodes[i]
  }

  /** Disk d holds the inodes of s and its bitmap and data blocks, apart from blocks left behind unlogged. */
  ghost predicate OnDisk(d: Disk, s: Fs, left: set<nat>) {
    && |d| == |s.view| && s.sb.size <= |d|
    && (forall i :: 0 <= i < |s.dinodes| ==> InodeOn(d, s, i))
    && (forall b :: s.sb.bmapstart <= b < s.sb.size && b !in left ==> d[b] == s.view[b])
  }

  /** What a boot reads from disk d; o tells who owns which block. */
  function Loaded(d: Disk, sb: Super, o: map<nat, (nat, nat)>): Fs {
    var inodes := seq(sb.ninodes, i requires 0 <= i < sb.ninodes =>
      if sb.IBlock(i) < |d| then DiskInode(d[sb.IBlock(i)], i % IPB) else Inode(0, []));
    Fs(sb, d, inodes, inodes, {}, {}, o)
  }

  lemma LoadedIs(d: Disk, s: Fs, left: set<nat>)
    requires s.Shape() && OnDisk(d, s, left)
    ensures Loaded(d, s.sb, s.owner) == Fs(s.sb, d, s.dinodes, s.dinodes, {}, {}, s.owner)
  {
    hide DiskInode;
    var x := Loaded(d, s.sb, s.owner);
    assert |x.inodes| == |s.dinodes|;
    forall i | 0 <= i < |x.inodes| ensures x.inodes[i] == s.dinodes[i] {
      assert InodeOn(d, s, i);
    }
    assert x.inodes == s.dinodes;
  }

  /** Blocks that may be out of date on disk without harm: data blocks of files. */
  ghost predicate DataOnly(s: Fs, left: set<nat>) {
    forall b :: b in left ==> b in s.owner && s.owner[b].1 != NDIRECT
  }

  lemma LoadedSlot(d: Disk, s: Fs, left: set<nat>, x: Fs, j: nat, k: nat)
    requires s.Inv() && s.inodes == s.dinodes && OnDisk(d, s, left) && DataOnly(s, left)
    requires x == Fs(s.sb, d, s.dinodes, s.dinodes, {}, {}, s.owner) && j < |s.inodes| && k < SLOTS
    ensures x.Shape() && x.Slot(j, k) == s.Slot(j, k)
  {
    hide Word, Marked, InodeOn;
    if k > NDIRECT && s.Indirect(j) != 0 {
      OwnedSlot(s, j, NDIRECT);
      assert s.Slot(j, NDIRECT) == s.Indirect(j);
    }
  }

  lemma LoadedMark(d: Disk, s: Fs, left: set<nat>, x: Fs, c: nat)
    requires s.Inv() && OnDisk(d, s, left) && DataOnly(s, left)
    requires x == Fs(s.sb, d, s.dinodes, s.dinodes, {}, {}, s.owner) && x.Shape() && c < s.sb.size
    ensures x.IsMarked(c) == s.IsMarked(c)
  {
    Regions(s.sb, c, 0);
    var b := s.sb.BBlock(c);
    assert b !in left by { hide Marked; }
    hide BlockBit;
  }

  /** A disk that holds a consistent file system boots into one. */
  lemma LoadedInv(d: Disk, s: Fs, left: set<nat>)
    requires s.Inv() && s.inodes == s.dinodes && OnDisk(d, s, left) && DataOnly(s, left)
    ensures Loaded(d, s.sb, s.owner).Inv()
  {
    hide Fs.Slot, Fs.IsMarked, OnDisk, DataOnly;
    var x := Loaded(d, s.sb, s.owner);
    LoadedIs(d, s, left);
    forall j, k | 0 <= j < |s.inodes| && 0 <= k < SLOTS ensures x.Shape() && x.Slot(j, k) == s.Slot(j, k) {
      LoadedSlot(d, s, left, x, j, k);
    }
    assert x.Shape() by { LoadedShape(d, s, left, x); }
    forall c | 0 <= c < s.sb.size ensures x.IsMarked(c) == s.IsMarked(c) {
      LoadedMark(d, s, left, x, c);
    }
    LoadedMapped(s, x);
    assert x.Owners();
  }

  lemma LoadedShape(d: Disk, s: Fs, left: set<nat>, x: Fs)
    requires s.Shape() && s.inodes == s.dinodes && OnDisk(d, s, left)
    requires x == Fs(s.sb, d, s.dinodes, s.dinodes, {}, {}, s.owner)
    ensures x.Shape()
  {
  }

  lemma LoadedMapped(s: Fs, x: Fs)
    requires s.Shape() && x.Shape() && s.Mapped() && x.inodes == s.inodes
    requires forall j, k :: 0 <= j < |s.inodes| && 0 <= k < SLOTS ==> x.Slot(j, k) == s.Slot(j, k)
    ensures x.Mapped()
  {
    hide Fs.Slot;
    forall j | 0 <= j < |x.inodes| ensures x.MappedTo(j, x.inodes[j].size) {
      assert s.MappedTo(j, s.inodes[j].size);
    }
  }

  /** Byte p of file j as a boot finds it. */
  lemma LoadedByte(d: Disk, s: Fs, left: set<nat>, x: Fs, j: nat, p: nat)
    requires s.Inv() && s.inodes == s.dinodes && OnDisk(d, s, left) && DataOnly(s, left)
    requires x == Loaded(d, s.sb, s.owner) && IsMapped(s, j, p)
    ensures x.Shape() && j < |x.inodes| && s.Slot(j, SlotOf(p / BSIZE)) < |d|
    ensures var b := s.Slot(j, SlotOf(p / BSIZE));
      x.ByteAt(j, p) == d[b][p % BSIZE] && (b !in left ==> x.ByteAt(j, p) == s.ByteAt(j, p))
  {
    hide Word, Fs.Bits, Fs.Mapped, InodeOn, Fs.Slot;
    var k := SlotOf(p / BSIZE);
    LoadedIs(d, s, left);
    LoadedSlot(d, s, left, x, j, k);
    OwnedSlot(s, j, k);
  }

  /** Files none of whose blocks was left behind are on disk as they are in memory. */
  lemma LoadedContent(d: Disk, s: Fs, left: set<nat>, j: nat)
    requires s.Inv() && s.inodes == s.dinodes && OnDisk(d, s, left) && DataOnly(s, left) && j < |s.inodes|
    requires forall b :: b in left && b in s.owner ==> s.owner[b].0 != j
    ensures var x := Loaded(d, s.sb, s.owner);
      && x.Shape() && j < |x.inodes| && x.inodes[j].size == s.inodes[j].size <= MAXFILE * BSIZE
      && Content(x, j) == Content(s, j)
  {
    hide Word, Fs.Bits, Fs.Mapped, OnDisk, Fs.Slot, Fs.ByteAt, DataOnly, IsMapped, Fs.Owners;
    var x := Loaded(d, s.sb, s.owner);
    LoadedIs(d, s, left);
    LoadedSlot(d, s, left, x, j, 0);
    SizeFits(s, j);
    var c, want := Content(x, j), Content(s, j);
    forall p | 0 <= p < |c| ensures c[p] == want[p] {
      LoadedByte(d, s, left, x, j, p);
      OwnedByte(s, j, p);
    }
  }

  lemma OwnedByte(s: Fs, j: nat, p: nat)
    requires s.Inv() && IsMapped(s, j, p)
    ensures var b := s.Slot(j, SlotOf(p / BSIZE)); b in s.owner && s.owner[b] == (j, SlotOf(p / BSIZE))
  {
    OwnedSlot(s, j, SlotOf(p / BSIZE));
  }

  // ------------------------------------------------------------------ one chunk on the disk

  /** The logical disk after the chunk: inode i, and every bitmap and data block but those left behind. */
  function NextDisk(d: Disk, v: Fs, i: nat, left: set<nat>): (r: Disk)
    requires |d| == |v.view| && i < |v.inodes| && |v.inodes[i].addrs| == NDIRECT + 1
    ensures |r| == |d|
  {
    seq(|d|, b requires 0 <= b < |d| =>
      if b == v.sb.IBlock(i) then PutInode(d[b], i % IPB, v.inodes[i])
      else if v.sb.bmapstart <= b < v.sb.size && b !in left then v.view[b]
      else d[b])
  }

  lemma InodeFits(v: Fs, i: nat)
    requires v.Inv() && i < |v.inodes|
    ensures Fits32(v.inodes[i])
  {
    SizeFits(v, i);
    hide Fs.Bits, Fs.Mapped;
    forall a | 0 <= a < NDIRECT + 1 ensures v.inodes[i].addrs[a] < WORD_LIMIT {
      assert v.Slot(i, a) == v.inodes[i].addrs[a];
      if v.Slot(i, a) != 0 { OwnedSlot(v, i, a); }
    }
  }

  lemma NextOnDisk(d: Disk, s: Fs, v: Fs, i: nat, left: set<nat>)
    requires s.Inv() && v.Inv() && OnDisk(d, s, s.unlogged) && v.sb == s.sb && |v.view| == |s.view| && i < |s.inodes|
    requires v.dinodes == s.dinodes[i := v.inodes[i]]
    ensures OnDisk(NextDisk(d, v, i, left), v, left)
  {
    hide Fs.Owners, Fs.Bits, Fs.Mapped, DiskInode, PutInode;
    InodeFits(v, i);
    var e := NextDisk(d, v, i, left);
    forall j | 0 <= j < |v.dinodes| ensures InodeOn(e, v, j) {
      Regions(s.sb, 0, j);
      assert InodeOn(d, s, j);
      if s.sb.IBlock(j) == s.sb.IBlock(i) {
        InodeRoundTrip(d[s.sb.IBlock(i)], i % IPB, v.inodes[i], j % IPB);
        assert j % IPB == i % IPB ==> j == i;
      }
    }
  }

  /** The logged blocks carry all there is between the two disks. */
  lemma AppliedNext(l: Layout, d: Disk, s: Fs, v: Fs, i: nat, lo: nat, hi: nat, blocks: seq<nat>, left: set<nat>)
    requires s.Inv() && v.Inv() && OnDisk(d, s, s.unlogged) && i < |s.inodes| && Tracked(s, v, i, lo, hi)
    requires left == v.unlogged - v.dirty && s.sb.IBlock(i) in v.dirty
    requires forall b :: b in blocks <==> b in v.dirty
    requires WfTxn(l, |d|, blocks)
    ensures SameHome(l, Applied(d, blocks, NextDisk(d, v, i, left)), NextDisk(d, v, i, left))
  {
    hide Fs.Inv, Fs.Slot, DiskInode, PutInode, InodeOn, SlotsWithin, LeftBehind, LoggedHome;
    var e := NextDisk(d, v, i, left);
    forall x | 0 <= x < |d| && x !in blocks ensures e[x] == d[x] {
      assert x !in v.dirty;
    }
  }

  ghost predicate ListOf(blocks: seq<nat>, dirty: set<nat>) {
    |blocks| == |dirty| && forall b :: b in blocks <==> b in dirty
  }

  lemma ChunkFits(l: Layout, s: Fs, v: Fs, i: nat, lo: nat, hi: nat, blocks: seq<nat>, size: nat)
    requires Tracked(s, v, i, lo, hi) && s.dirty == {} && ListOf(blocks, v.dirty) && |v.dirty| <= 10
    requires l.start + l.size <= s.sb.inodestart && 10 < l.size && s.sb.size <= size && s.sb.Wf()
    ensures WfTxn(l, size, blocks) && Words32(blocks)
  {
    hide Fs.Slot, ChangesOn, SlotsWithin, LeftBehind;
    forall k | 0 <= k < |blocks| ensures s.sb.inodestart <= blocks[k] < s.sb.size {
      assert blocks[k] in v.dirty;
    }
  }

  /** A block outside the log is home, so a disk that agrees at home holds the same file system. */
  lemma SameOnDisk(l: Layout, d: Disk, e: Disk, s: Fs, left: set<nat>)
    requires SameHome(l, e, d) && OnDisk(d, s, left) && s.Shape() && l.start + l.size <= s.sb.inodestart
    ensures OnDisk(e, s, left)
  {
    hide DiskInode;
    forall i | 0 <= i < |s.dinodes| ensures InodeOn(e, s, i) {
      Regions(s.sb, 0, i);
      assert InodeOn(d, s, i);
    }
  }

  // ------------------------------------------------------------------- crash and recovery

  /** One chunk of filewrite took s to v, as WriteTransaction leaves it. */
  ghost predicate Chunk(s: Fs, v: Fs, i: nat, off: nat, n: nat, src: seq<Byte>, r: nat, touched: nat, why: Step) {
    && s.inodes == s.dinodes && s.dirty == {} && DataOnly(s, s.unlogged)
    && WriteDone(s, v, i, off, n, src, r, touched, why)
    && Tracked(s, v, i, SlotOf(off / BSIZE), LastSlot(off, n))
    && s.sb.IBlock(i) in v.dirty && |v.dirty| <= 10 && BytesLogged(v, i, off, r)
    && (why.Fault? ==> (off + r) / BSIZE < MAXFILE && v.unlogged <= s.unlogged + {v.Slot(i, SlotOf((off + r) / BSIZE))})
  }

  /** Blocks that the disk does not have as they are in the cache. */
  ghost function Left(v: Fs): set<nat> {
    v.unlogged - v.dirty
  }

  lemma ChunkParts(s: Fs, v: Fs, i: nat, off: nat, n: nat, src: seq<Byte>, r: nat, touched: nat, why: Step)
    requires Chunk(s, v, i, off, n, src, r, touched, why)
    ensures s.Inv() && v.Inv() && i < |s.inodes| == |v.inodes| && v.sb == s.sb && |v.view| == |s.view|
    ensures v.inodes == v.dinodes && v.dinodes == s.dinodes[i := v.inodes[i]]
    ensures s.inodes == s.dinodes && DataOnly(s, s.unlogged) && DataOnly(v, v.unlogged) && DataOnly(v, Left(v))
    ensures forall b :: b in Left(v) ==> b in s.owner && b in v.owner && s.owner[b] == v.owner[b] && b !in v.dirty
  {
    hide Fs.Owners, Fs.Bits, Fs.Mapped, Content, Overwritten, Fs.Slot, ChangesOn, LoggedHome, BytesLogged;
    assert forall j :: 0 <= j < |s.inodes| && j != i ==> v.inodes[j] == s.inodes[j];
    assert v.inodes == v.dinodes;
  }

  lemma ChunkSizes(s: Fs, v: Fs, i: nat, off: nat, n: nat, src: seq<Byte>, r: nat, touched: nat, why: Step)
    requires Chunk(s, v, i, off, n, src, r, touched, why)
    ensures i < |s.inodes| == |v.inodes| && off <= s.inodes[i].size <= MAXFILE * BSIZE && r <= |src|
    ensures v.inodes[i].size == Max(s.inodes[i].size, off + r) <= MAXFILE * BSIZE
    ensures v.Shape() && BytesLogged(v, i, off, r)
  {
    hide Fs.Owners, Fs.Bits, Fs.Mapped, Overwritten, Fs.Slot, Tracked, Content, WholeBlocks, BytesLogged;
  }

  lemma ChunkRecord(s: Fs, v: Fs, i: nat, off: nat, n: nat, src: seq<Byte>, r: nat, touched: nat, why: Step)
    requires Chunk(s, v, i, off, n, src, r, touched, why)
    ensures Tracked(s, v, i, SlotOf(off / BSIZE), LastSlot(off, n)) && s.sb.IBlock(i) in v.dirty && |v.dirty| <= 10
    ensures s.dirty == {} && Left(v) == v.unlogged - v.dirty
  {
    hide WriteDone, Tracked, BytesLogged;
  }

  lemma InvShape(s: Fs)
    requires s.Inv()
    ensures s.Shape()
  {
  }

  /** A file of v on disk f is the file of s on disk d if the same blocks hold the same bytes. */
  lemma FileAgrees(d: Disk, s: Fs, left: set<nat>, f: Disk, v: Fs, left': set<nat>, j: nat)
    requires s.Inv() && s.inodes == s.dinodes && OnDisk(d, s, left) && DataOnly(s, left) && j < |s.inodes|
    requires v.Inv() && v.inodes == v.dinodes && OnDisk(f, v, left') && DataOnly(v, left') && |v.inodes| == |s.inodes|
    requires s.inodes[j].size == v.inodes[j].size && |f| == |d|
    requires forall k :: 0 <= k < SLOTS ==> v.Slot(j, k) == s.Slot(j, k)
    requires forall b :: b in s.owner && s.owner[b].0 == j && b < |d| ==> f[b] == d[b]
    ensures SameFile(Loaded(f, v.sb, v.owner), Loaded(d, s.sb, s.owner), j)
  {
    hide Fs.Inv, OnDisk, DataOnly, Fs.Slot, Fs.ByteAt, IsMapped;
    InvShape(s);
    InvShape(v);
    var x, y := Loaded(f, v.sb, v.owner), Loaded(d, s.sb, s.owner);
    LoadedIs(d, s, left);
    LoadedIs(f, v, left');
    LoadedSlot(d, s, left, y, j, 0);
    LoadedSlot(f, v, left', x, j, 0);
    SizeFits(s, j);
    SizeFits(v, j);
    var c, want := Content(x, j), Content(y, j);
    forall p | 0 <= p < |c| ensures c[p] == want[p] {
      LoadedByte(d, s, left, y, j, p);
      LoadedByte(f, v, left', x, j, p);
      OwnedByte(s, j, p);
      assert 0 <= SlotOf(p / BSIZE) < SLOTS;
    }
  }

  // ------------------------------------------------------------ what the boot finds

  ghost predicate SameFile(x: Fs, s: Fs, j: nat) {
    && x.Shape() && s.Shape() && j < |x.inodes| == |s.inodes|
    && x.inodes[j].size <= MAXFILE * BSIZE && s.inodes[j].size <= MAXFILE * BSIZE && Content(x, j) == Content(s, j)
  }

  /** A consistent file system in which every file is as in y. */
  ghost predicate BootsAs(x: Fs, y: Fs) {
    && x.Inv() && y.Inv() && |x.inodes| == |y.inodes|
    && forall j :: 0 <= j < |y.inodes| ==> SameFile(x, y, j)
  }

  /**
    Byte p of file i on disk is the one in memory if its block was logged or
    never left behind, and otherwise the one the disk had before, as in y.
  */
  ghost predicate ByteAfter(x: Fs, y: Fs, v: Fs, i: nat, p: nat)
    requires x.Shape() && y.Shape() && v.Shape() && i < |x.inodes| && i < |y.inodes| && i < |v.inodes|
    requires p < x.inodes[i].size == v.inodes[i].size <= MAXFILE * BSIZE && y.inodes[i].size <= MAXFILE * BSIZE
  {
    if v.Slot(i, SlotOf(p / BSIZE)) in Left(v) then p < |Content(y, i)| && Content(x, i)[p] == Content(y, i)[p]
    else Content(x, i)[p] == Content(v, i)[p]
  }

  ghost predicate FileAfter(x: Fs, y: Fs, v: Fs, i: nat) {
    && x.Shape() && y.Shape() && v.Shape() && i < |x.inodes| && i < |y.inodes| && i < |v.inodes|
    && x.inodes[i].size == v.inodes[i].size <= MAXFILE * BSIZE && y.inodes[i].size <= MAXFILE * BSIZE
    && forall p :: 0 <= p < x.inodes[i].size ==> ByteAfter(x, y, v, i, p)
  }

  /** A consistent file system in which file i has the bytes of data at off, and every other file is as in y. */
  ghost predicate BootsWith(x: Fs, y: Fs, v: Fs, i: nat, off: nat, data: seq<Byte>) {
    && x.Inv() && y.Inv() && i < |x.inodes| == |y.inodes|
    && (forall j :: 0 <= j < |y.inodes| && j != i ==> SameFile(x, y, j))
    && FileAfter(x, y, v, i) && off + |data| <= x.inodes[i].size && Content(x, i)[off..off + |data|] == data
  }

  /** Before the commit point. */
  lemma OldBoots(l: Layout, d: Disk, f: Disk, s: Fs)
    requires s.Inv() && s.inodes == s.dinodes && OnDisk(d, s, s.unlogged) && DataOnly(s, s.unlogged)
    requires SameHome(l, f, d) && l.start + l.size <= s.sb.inodestart
    ensures OnDisk(f, s, s.unlogged) && BootsAs(Loaded(f, s.sb, s.owner), Loaded(d, s.sb, s.owner))
  {
    InvShape(s);
    SameOnDisk(l, d, f, s, s.unlogged);
    OwnedHome(l, s);
    hide Fs.Inv, OnDisk, DataOnly, SameFile, Fs.Shape, Loaded;
    LoadedInv(d, s, s.unlogged);
    LoadedInv(f, s, s.unlogged);
    LoadedIs(d, s, s.unlogged);
    LoadedIs(f, s, s.unlogged);
    forall j | 0 <= j < |s.inodes| ensures SameFile(Loaded(f, s.sb, s.owner), Loaded(d, s.sb, s.owner), j) {
      FileAgrees(d, s, s.unlogged, f, s, s.unlogged, j);
    }
  }

  /** Owned blocks are not in the log. */
  lemma OwnedHome(l: Layout, s: Fs)
    requires s.Inv() && l.start + l.size <= s.sb.inodestart
    ensures forall b :: b in s.owner ==> !l.InLog(b) && s.sb.datastart <= b < s.sb.size
  {
    Regions(s.sb, 0, 0);
    hide Fs.Bits, Fs.Mapped, Fs.Exclusive;
  }

  /** Blocks that were owned and not logged are on disk as before the chunk. */
  lemma Untouched(l: Layout, d: Disk, s: Fs, v: Fs, i: nat, lo: nat, hi: nat, next: Disk, f: Disk, b: nat)
    requires s.Inv() && v.Inv() && Tracked(s, v, i, lo, hi) && i < |s.inodes| && OnDisk(d, s, s.unlogged)
    requires NextReady(d, v, i) && next == NextDisk(d, v, i, Left(v))
    requires SameHome(l, f, next) && l.start + l.size <= s.sb.inodestart
    requires b in s.owner && b !in v.dirty && b < |d|
    ensures |f| == |d| && f[b] == d[b]
  {
    hide Fs.Inv, Fs.Slot, PutInode, InodeOn, SlotsWithin, LeftBehind, LoggedHome, Fs.Shape;
    OwnedHome(l, s);
    InodeBelow(s, i);
  }

  lemma InodeBelow(s: Fs, i: nat)
    requires s.Inv() && i < |s.inodes|
    ensures s.sb.IBlock(i) < s.sb.datastart && s.sb.bmapstart <= s.sb.datastart
  {
    Regions(s.sb, 0, i);
  }

  lemma OthersBoot(l: Layout, d: Disk, s: Fs, v: Fs, i: nat, lo: nat, hi: nat, next: Disk, f: Disk, j: nat)
    requires s.Inv() && v.Inv() && Tracked(s, v, i, lo, hi) && OnDisk(d, s, s.unlogged) && s.dirty == {}
    requires s.inodes == s.dinodes && v.inodes == v.dinodes && DataOnly(s, s.unlogged) && DataOnly(v, Left(v))
    requires NextReady(d, v, i) && next == NextDisk(d, v, i, Left(v)) && OnDisk(f, v, Left(v))
    requires SameHome(l, f, next) && l.start + l.size <= s.sb.inodestart
    requires i < |s.inodes| && j < |s.inodes| && j != i
    ensures SameFile(Loaded(f, v.sb, v.owner), Loaded(d, s.sb, s.owner), j)
  {
    OthersStay(s, v, i, lo, hi, j);
    hide Fs.Inv, OnDisk, DataOnly, SameFile, Loaded, NextDisk, Tracked, Fs.Slot, SameHome, Left;
    forall b | b in s.owner && s.owner[b].0 == j && b < |d| ensures f[b] == d[b] {
      Untouched(l, d, s, v, i, lo, hi, next, f, b);
    }
    HomeSize(l, f, next);
    FileAgrees(d, s, s.unlogged, f, v, Left(v), j);
  }

  lemma HomeSize(l: Layout, f: Disk, d: Disk)
    requires SameHome(l, f, d)
    ensures |f| == |d|
  {
  }

  lemma OthersStay(s: Fs, v: Fs, i: nat, lo: nat, hi: nat, j: nat)
    requires Tracked(s, v, i, lo, hi) && s.dirty == {} && j < |s.inodes| && j != i
    ensures v.inodes[j] == s.inodes[j] && forall k :: 0 <= k < SLOTS ==> v.Slot(j, k) == s.Slot(j, k)
    ensures forall b :: b in s.owner && s.owner[b].0 == j ==> b !in v.dirty
  {
    hide Fs.Slot, Fs.Shape, ChangesOn, LoggedHome;
  }

  /** A block left behind was in the same slot before, and its bytes were part of the file. */
  lemma LeftSlot(s: Fs, v: Fs, i: nat, off: nat, r: nat, p: nat)
    requires s.Inv() && v.Inv() && i < |s.inodes| == |v.inodes| && off <= s.inodes[i].size && IsMapped(v, i, p)
    requires p < Max(s.inodes[i].size, off + r) && BytesLogged(v, i, off, r)
    requires var b := v.Slot(i, SlotOf(p / BSIZE));
      b !in v.dirty && b in s.owner && b in v.owner && s.owner[b] == v.owner[b]
    ensures p < s.inodes[i].size && s.Slot(i, SlotOf(p / BSIZE)) == v.Slot(i, SlotOf(p / BSIZE))
  {
    hide BytesLogged, Fs.Bits, Fs.Mapped, Word;
    OwnedSlot(v, i, SlotOf(p / BSIZE));
    hide Fs.Slot;
    if p >= s.inodes[i].size { LoggedAt(v, i, off, r, p); }
  }

  lemma LoggedAt(v: Fs, i: nat, off: nat, r: nat, p: nat)
    requires v.Shape() && i < |v.inodes| && BytesLogged(v, i, off, r) && off <= p < off + r
    ensures LoggedBlock(v, i, p / BSIZE)
  {
    hide Fs.Slot, Fs.Shape;
  }

  lemma ByteFound(l: Layout, d: Disk, s: Fs, v: Fs, i: nat, lo: nat, hi: nat, next: Disk, f: Disk, off: nat, r: nat,
                  p: nat)
    requires s.Inv() && v.Inv() && Tracked(s, v, i, lo, hi) && i < |s.inodes| && OnDisk(d, s, s.unlogged)
    requires s.inodes == s.dinodes && v.inodes == v.dinodes && DataOnly(s, s.unlogged) && DataOnly(v, Left(v))
    requires NextReady(d, v, i) && next == NextDisk(d, v, i, Left(v)) && OnDisk(f, v, Left(v))
    requires SameHome(l, f, next) && l.start + l.size <= s.sb.inodestart && BytesLogged(v, i, off, r)
    requires forall b :: b in Left(v) ==> b in s.owner && b in v.owner && s.owner[b] == v.owner[b] && b !in v.dirty
    requires off <= s.inodes[i].size && p < v.inodes[i].size == Max(s.inodes[i].size, off + r)
    requires Ready(Loaded(f, v.sb, v.owner), Loaded(d, s.sb, s.owner), s, v, i)
    ensures ByteAfter(Loaded(f, v.sb, v.owner), Loaded(d, s.sb, s.owner), v, i, p)
  {
    hide Fs.Inv, OnDisk, DataOnly, Loaded, NextDisk, Tracked, Fs.Slot, SameHome, Left, Fs.ByteAt, IsMapped, BytesLogged;
    var x, y := Loaded(f, v.sb, v.owner), Loaded(d, s.sb, s.owner);
    var b := v.Slot(i, SlotOf(p / BSIZE));
    SizeFits(v, i);
    LoadedByte(f, v, Left(v), x, i, p);
    if b in Left(v) {
      LeftSlot(s, v, i, off, r, p);
      SizeFits(s, i);
      LoadedByte(d, s, s.unlogged, y, i, p);
      Untouched(l, d, s, v, i, lo, hi, next, f, b);
    }
  }

  /** Sizes and shapes of the booted file systems. */
  ghost predicate Ready(x: Fs, y: Fs, s: Fs, v: Fs, i: nat) {
    && x.Shape() && y.Shape() && s.Shape() && v.Shape() && i < |x.inodes| == |y.inodes| && |x.inodes| == |v.inodes|
    && |s.inodes| == |v.inodes| && x.inodes == v.inodes && y.inodes == s.inodes
    && v.inodes[i].size <= MAXFILE * BSIZE && s.inodes[i].size <= MAXFILE * BSIZE
  }

  lemma BootsReady(d: Disk, s: Fs, f: Disk, v: Fs, i: nat)
    requires s.Inv() && s.inodes == s.dinodes && OnDisk(d, s, s.unlogged) && DataOnly(s, s.unlogged)
    requires v.Inv() && v.inodes == v.dinodes && OnDisk(f, v, Left(v)) && DataOnly(v, Left(v))
    requires i < |s.inodes| == |v.inodes|
    ensures var x, y := Loaded(f, v.sb, v.owner), Loaded(d, s.sb, s.owner); Ready(x, y, s, v, i) && x.Inv() && y.Inv()
  {
    hide Fs.Inv, OnDisk, DataOnly, Loaded, Fs.Slot, Left;
    InvShape(s);
    InvShape(v);
    LoadedInv(d, s, s.unlogged);
    LoadedInv(f, v, Left(v));
    LoadedIs(d, s, s.unlogged);
    LoadedIs(f, v, Left(v));
    InvShape(Loaded(f, v.sb, v.owner));
    InvShape(Loaded(d, s.sb, s.owner));
    SizeFits(s, i);
    SizeFits(v, i);
  }

  /** From the commit point on. */
  lemma NewBoots(l: Layout, d: Disk, s: Fs, v: Fs, i: nat, off: nat, n: nat, src: seq<Byte>, r: nat, touched: nat,
                 why: Step, next: Disk, f: Disk)
    requires Chunk(s, v, i, off, n, src, r, touched, why) && OnDisk(d, s, s.unlogged) && r <= |src|
    requires NextReady(d, v, i) && next == NextDisk(d, v, i, Left(v)) && OnDisk(f, v, Left(v))
    requires SameHome(l, f, next) && l.start + l.size <= s.sb.inodestart
    ensures BootsWith(Loaded(f, v.sb, v.owner), Loaded(d, s.sb, s.owner), v, i, off, src[..r])
  {
    hide Chunk, Left, Fs.Inv, Content, OnDisk, DataOnly, SameFile, Loaded, NextDisk, Tracked, SameHome, ByteAfter;
    hide BytesLogged, Fs.Slot;
    var x, y := Loaded(f, v.sb, v.owner), Loaded(d, s.sb, s.owner);
    var lo, hi := SlotOf(off / BSIZE), LastSlot(off, n);
    ChunkParts(s, v, i, off, n, src, r, touched, why);
    ChunkRecord(s, v, i, off, n, src, r, touched, why);
    ChunkSizes(s, v, i, off, n, src, r, touched, why);
    BootsReady(d, s, f, v, i);
    forall j | 0 <= j < |s.inodes| && j != i ensures SameFile(x, y, j) {
      OthersBoot(l, d, s, v, i, lo, hi, next, f, j);
    }
    forall p | 0 <= p < v.inodes[i].size ensures ByteAfter(x, y, v, i, p) {
      ByteFound(l, d, s, v, i, lo, hi, next, f, off, r, p);
    }
    ChunkReported(s, v, i, off, n, src, r, touched, why);
    ReportedFound(v, i, off, src[..r], x, y);
  }

  lemma ChunkReported(s: Fs, v: Fs, i: nat, off: nat, n: nat, src: seq<Byte>, r: nat, touched: nat, why: Step)
    requires Chunk(s, v, i, off, n, src, r, touched, why) && r <= |src|
    ensures v.Shape() && i < |v.inodes| && off + r <= v.inodes[i].size <= MAXFILE * BSIZE
    ensures Content(v, i)[off..off + r] == src[..r]
  {
    hide Fs.Owners, Fs.Bits, Fs.Mapped, Overwritten, Fs.Slot, Tracked, Content, WholeBlocks, BytesLogged, WriteDone;
    ReportedBytes(s, v, i, off, n, src, r, touched, why);
  }

  /** The reported bytes were logged, so they are on disk. */
  lemma ReportedFound(v: Fs, i: nat, off: nat, data: seq<Byte>, x: Fs, y: Fs)
    requires FileAfter(x, y, v, i) && off + |data| <= v.inodes[i].size && BytesLogged(v, i, off, |data|)
    requires Content(v, i)[off..off + |data|] == data
    ensures Content(x, i)[off..off + |data|] == data
  {
    hide Content, Fs.Slot, Fs.Shape, BytesLogged;
    var c, m := Content(x, i), Content(v, i);
    forall q | 0 <= q < |data| ensures c[off..off + |data|][q] == data[q] {
      LoggedAt(v, i, off, |data|, off + q);
      assert ByteAfter(x, y, v, i, off + q);
      assert m[off + q] == data[q];
    }
  }

  /**
    A chunk commits, the power fails after any write, any number of boots are cut
    short: the boot that completes finds a consistent file system, with the files
    the disk had before the commit point and the written file after it. The disk
    may lack bytes that earlier failed copies left in the cache.
  */
  lemma ChunkSurvives(l: Layout, d: Disk, s: Fs, v: Fs, i: nat, off: nat, n: nat, src: seq<Byte>, r: nat, touched: nat,
                      why: Step,
                      blocks: seq<nat>, next: Disk, k: nat, ks: seq<nat>, e: Disk)
    requires Chunk(s, v, i, off, n, src, r, touched, why) && OnDisk(d, s, s.unlogged) && r <= |src|
    requires Wf(l, d) && HdrN(d[l.start]) == 0 && l.start + l.size <= s.sb.inodestart && 10 < l.size
    requires ListOf(blocks, v.dirty) && NextReady(d, v, i) && next == NextDisk(d, v, i, Left(v))
    requires WfTxn(l, |d|, blocks) && k <= 2 * |blocks| + 2 && CrashedBoots(l, CommitStep(l, d, blocks, next, k), ks, e)
    ensures Wf(l, e)
    ensures var f, y := Recovered(l, e), Loaded(d, s.sb, s.owner);
      if k <= |blocks| then OnDisk(f, s, s.unlogged) && BootsAs(Loaded(f, s.sb, s.owner), y)
      else OnDisk(f, v, v.unlogged) && BootsWith(Loaded(f, v.sb, v.owner), y, v, i, off, src[..r])
  {
    hide Chunk, Left, Fs.Inv, OnDisk, DataOnly, Tracked, BootsAs, BootsWith, NextDisk, Recovered, Wf, CommitStep;
    hide Loaded;
    ChunkParts(s, v, i, off, n, src, r, touched, why);
    ChunkRecord(s, v, i, off, n, src, r, touched, why);
    InvShape(s);
    InvShape(v);
    OnDiskSize(d, s, s.unlogged);
    ChunkFits(l, s, v, i, SlotOf(off / BSIZE), LastSlot(off, n), blocks, |d|);
    CommitThenCrashes(l, d, blocks, next, k, ks, e);
    var f := Recovered(l, e);
    if k <= |blocks| {
      OldBoots(l, d, f, s);
    } else {
      AppliedNext(l, d, s, v, i, SlotOf(off / BSIZE), LastSlot(off, n), blocks, Left(v));
      SameHomeTrans(l, f, Applied(d, blocks, next), next);
      NextOnDisk(d, s, v, i, Left(v));
      SameOnDisk(l, next, f, v, Left(v));
      MoreLeft(f, v);
      NewBoots(l, d, s, v, i, off, n, src, r, touched, why, next, f);
    }
  }

  lemma OnDiskSize(e: Disk, v: Fs, left: set<nat>)
    requires OnDisk(e, v, left)
    ensures |e| == |v.view| && v.sb.size <= |e|
  {
  }

  lemma MoreLeft(f: Disk, v: Fs)
    requires OnDisk(f, v, Left(v))
    ensures OnDisk(f, v, v.unlogged)
  {
    hide InodeOn;
  }

  /** Enough is known of v to build the next disk. */
  predicate NextReady(d: Disk, v: Fs, i: nat) {
    |d| == |v.view| && i < |v.inodes| && |v.inodes[i].addrs| == NDIRECT + 1
  }

  // -------------------------------------------- a file that no earlier copy left bytes of

  /** No block of file i is out of date on disk. */
  ghost predicate UpToDate(s: Fs, i: nat) {
    forall b :: b in s.unlogged && b in s.owner ==> s.owner[b].0 != i
  }

  /** The bytes a failed copy touched are all in the block at off + r, and none reported is. */
  lemma FaultBlock(off: nat, len: nat, r: nat, p: nat)
    requires r == WholeBlocks(off, len)
    ensures off + r <= p < off + len ==> p / BSIZE == (off + r) / BSIZE
    ensures off <= p < off + r ==> p / BSIZE != (off + r) / BSIZE
  {
    var boundary := (off + len) / BSIZE * BSIZE;
    if boundary <= off {
      assert off / BSIZE == (off + len) / BSIZE;
    } else {
      assert (off + r) / BSIZE == (off + len) / BSIZE;
    }
  }

  /** In the block at off + r no reported byte is, so the old ones are right there ... */
  lemma LeftBlockByte(c: seq<Byte>, off: nat, src: seq<Byte>, r: nat, p: nat)
    requires off <= |c| && r == WholeBlocks(off, |src|) <= |src| && p < Max(|c|, off + r)
    requires p / BSIZE == (off + r) / BSIZE
    ensures p < |c| && Overwritten(c, off, src[..r])[p] == c[p]
  {
    hide Overwritten, WholeBlocks;
    FaultBlock(off, |src|, r, p);
    OverwrittenAt(c, off, src[..r], p);
  }

  /** ... and in every other block the bytes in memory are. */
  lemma OtherBlockByte(c: seq<Byte>, off: nat, src: seq<Byte>, r: nat, p: nat)
    requires off <= |c| && r == WholeBlocks(off, |src|) <= |src| && p < Max(|c|, off + r)
    requires p / BSIZE != (off + r) / BSIZE
    ensures p < |Overwritten(c, off, src)| && Overwritten(c, off, src)[p] == Overwritten(c, off, src[..r])[p]
  {
    hide Overwritten, WholeBlocks;
    FaultBlock(off, |src|, r, p);
    OverwrittenAt(c, off, src[..r], p);
    OverwrittenAt(c, off, src, p);
  }

  /** A block of an up-to-date file that is left behind is the one the copy failed in. */
  lemma LeftMeansFault(s: Fs, v: Fs, i: nat, off: nat, n: nat, src: seq<Byte>, r: nat, touched: nat, why: Step, p: nat)
    requires Chunk(s, v, i, off, n, src, r, touched, why) && UpToDate(s, i)
    requires v.Inv() && IsMapped(v, i, p) && v.Slot(i, SlotOf(p / BSIZE)) in Left(v)
    ensures why.Fault? && p / BSIZE == (off + r) / BSIZE
  {
    hide Chunk, Fs.Inv, Fs.Slot, DataOnly;
    InvShape(v);
    var b := v.Slot(i, SlotOf(p / BSIZE));
    OwnedByte(v, i, p);
    ChunkParts(s, v, i, off, n, src, r, touched, why);
    assert b !in s.unlogged;
    ChunkCause(s, v, i, off, n, src, r, touched, why, b);
    SlotsAgree(v, i, p, (off + r) / BSIZE);
  }

  /** A block is in one slot only. */
  lemma SlotsAgree(v: Fs, i: nat, p: nat, bn: nat)
    requires v.Inv() && IsMapped(v, i, p) && bn < MAXFILE && v.Slot(i, SlotOf(p / BSIZE)) == v.Slot(i, SlotOf(bn))
    ensures p / BSIZE == bn
  {
    OwnedSlot(v, i, SlotOf(p / BSIZE));
    OwnedSlot(v, i, SlotOf(bn));
  }

  lemma ChunkCause(s: Fs, v: Fs, i: nat, off: nat, n: nat, src: seq<Byte>, r: nat, touched: nat, why: Step, b: nat)
    requires Chunk(s, v, i, off, n, src, r, touched, why) && b in v.unlogged && b !in s.unlogged
    ensures v.Shape() && i < |v.inodes| && (off + r) / BSIZE < MAXFILE
    ensures why.Fault? && b == v.Slot(i, SlotOf((off + r) / BSIZE))
  {
    hide Fs.Owners, Fs.Bits, Fs.Mapped, Overwritten, Fs.Slot, Tracked, Content, WholeBlocks, BytesLogged;
  }

  /** What the chunk did to the file in memory. */
  lemma ChunkContent(s: Fs, v: Fs, i: nat, off: nat, n: nat, src: seq<Byte>, r: nat, touched: nat, why: Step)
    requires Chunk(s, v, i, off, n, src, r, touched, why)
    ensures s.Shape() && v.Shape() && i < |s.inodes| == |v.inodes| && off <= s.inodes[i].size <= MAXFILE * BSIZE
    ensures v.inodes[i].size == Max(s.inodes[i].size, off + r) <= MAXFILE * BSIZE && r <= |src|
    ensures why.Fault? ==>
      r == WholeBlocks(off, |src|) && Content(v, i) == Overwritten(Content(s, i), off, src)[..v.inodes[i].size]
  {
    hide Fs.Owners, Fs.Bits, Fs.Mapped, Overwritten, Fs.Slot, Tracked, Content, WholeBlocks, BytesLogged;
    if why.Fault? { assert src[..touched] == src; }
  }

  /**
    If the disk had all of file i before, then after the commit it has the file
    as it is in memory or, when the copy failed in a block that was left behind,
    the old file with exactly the reported bytes replaced.
  */
  lemma UpToDateFile(d: Disk, s: Fs, v: Fs, i: nat, off: nat, n: nat, src: seq<Byte>, r: nat, touched: nat, why: Step,
                     x: Fs, y: Fs)
    requires Chunk(s, v, i, off, n, src, r, touched, why) && UpToDate(s, i) && r <= |src|
    requires OnDisk(d, s, s.unlogged) && y == Loaded(d, s.sb, s.owner) && FileAfter(x, y, v, i)
    ensures s.Shape() && i < |s.inodes| && off <= s.inodes[i].size <= MAXFILE * BSIZE
    ensures Left(v) <= s.unlogged ==> Content(x, i) == Content(v, i)
    ensures !(Left(v) <= s.unlogged) ==> Content(x, i) == Overwritten(Content(s, i), off, src[..r])
  {
    hide Fs.Inv, Overwritten, Fs.Slot, Fs.ByteAt, OnDisk, DataOnly, IsMapped, WholeBlocks, Chunk, Loaded, Content;
    ChunkParts(s, v, i, off, n, src, r, touched, why);
    ChunkContent(s, v, i, off, n, src, r, touched, why);
    LoadedContent(d, s, s.unlogged, i);
    SizeFits(v, i);
    var c := Content(x, i);
    if Left(v) <= s.unlogged {
      forall p | 0 <= p < |c| ensures c[p] == Content(v, i)[p] {
        OwnedByte(v, i, p);
        assert ByteAfter(x, y, v, i, p);
      }
    } else {
      var b :| b in Left(v) && b !in s.unlogged;
      ChunkCause(s, v, i, off, n, src, r, touched, why, b);
      var want := Overwritten(Content(s, i), off, src[..r]);
      forall p | 0 <= p < |c| ensures c[p] == want[p] {
        assert ByteAfter(x, y, v, i, p);
        if v.Slot(i, SlotOf(p / BSIZE)) in Left(v) {
          LeftMeansFault(s, v, i, off, n, src, r, touched, why, p);
          LeftBlockByte(Content(s, i), off, src, r, p);
        } else {
          assert p / BSIZE != (off + r) / BSIZE;
          OtherBlockByte(Content(s, i), off, src, r, p);
        }
      }
    }
  }

  // ------------------------------------------------------------------- chunk after chunk

  /** A chunk of filewrite to inode i, which took the file system to v and logged blocks. */
  datatype Call =
    Call(i: nat, off: nat, n: nat, src: seq<Byte>, r: nat, touched: nat, why: Step, v: Fs, blocks: seq<nat>)

  /** Disk d, with an empty log, holds s apart from bytes that failed copies left in the cache. */
  ghost predicate Holds(l: Layout, d: Disk, s: Fs) {
    && Wf(l, d) && HdrN(d[l.start]) == 0 && 10 < l.size && l.start + l.size <= s.sb.inodestart
    && s.Inv() && s.inodes == s.dinodes && OnDisk(d, s, s.unlogged) && DataOnly(s, s.unlogged)
  }

  /** From s, the chunk c can be committed to disk d. */
  ghost predicate Starts(l: Layout, d: Disk, s: Fs, c: Call) {
    && Chunk(s.(dirty := {}), c.v, c.i, c.off, c.n, c.src, c.r, c.touched, c.why)
    && ListOf(c.blocks, c.v.dirty) && NextReady(d, c.v, c.i) && WfTxn(l, |d|, c.blocks)
  }

  /** The disk after a complete commit of the chunk. */
  ghost function After(l: Layout, d: Disk, c: Call): Disk
    requires NextReady(d, c.v, c.i) && WfTxn(l, |d|, c.blocks)
  {
    CommitStep(l, d, c.blocks, NextDisk(d, c.v, c.i, Left(c.v)), 2 * |c.blocks| + 2)
  }

  /** Chunks to any files, each committed before the next. */
  ghost predicate Chunks(l: Layout, d: Disk, s: Fs, calls: seq<Call>, d': Disk, s': Fs)
    decreases |calls|
  {
    if calls == [] then d' == d && s' == s
    else Starts(l, d, s, calls[0]) && Chunks(l, After(l, d, calls[0]), calls[0].v, calls[1..], d', s')
  }

  lemma HoldsAfter(l: Layout, d: Disk, s: Fs, c: Call)
    requires Holds(l, d, s) && Starts(l, d, s, c)
    ensures Holds(l, After(l, d, c), c.v)
  {
    hide Chunk, Left, Fs.Inv, DataOnly, Tracked, NextDisk, Wf, CommitStep, OnDisk, WfTxn, Applied;
    var t, v, i, next := s.(dirty := {}), c.v, c.i, NextDisk(d, c.v, c.i, Left(c.v));
    FreshOnDisk(d, s);
    ChunkParts(t, v, i, c.off, c.n, c.src, c.r, c.touched, c.why);
    ChunkRecord(t, v, i, c.off, c.n, c.src, c.r, c.touched, c.why);
    InvShape(t);
    InvShape(v);
    OnDiskSize(d, t, t.unlogged);
    ChunkFits(l, t, v, i, SlotOf(c.off / BSIZE), LastSlot(c.off, c.n), c.blocks, |d|);
    CommitFinalPlatter(l, d, c.blocks, next);
    AppliedNext(l, d, t, v, i, SlotOf(c.off / BSIZE), LastSlot(c.off, c.n), c.blocks, Left(v));
    SameHomeTrans(l, After(l, d, c), Applied(d, c.blocks, next), next);
    NextOnDisk(d, t, v, i, Left(v));
    SameOnDisk(l, next, After(l, d, c), v, Left(v));
    MoreLeft(After(l, d, c), v);
  }

  lemma FreshOnDisk(d: Disk, s: Fs)
    requires OnDisk(d, s, s.unlogged)
    ensures var t := s.(dirty := {}); OnDisk(d, t, t.unlogged)
  {
    hide DiskInode;
    assert forall i :: 0 <= i < |s.dinodes| ==> InodeOn(d, s.(dirty := {}), i) == InodeOn(d, s, i);
  }

  /** However many chunks were committed, the disk is one that ChunkSurvives can start from. */
  lemma {:induction false} ChunksHold(l: Layout, d: Disk, s: Fs, calls: seq<Call>, d': Disk, s': Fs)
    requires Holds(l, d, s) && Chunks(l, d, s, calls, d', s')
    ensures Holds(l, d', s')
    decreases |calls|
  {
    hide Holds, After, Chunk, ListOf, NextReady, WfTxn;
    if calls != [] {
      HoldsAfter(l, d, s, calls[0]);
      ChunksHold(l, After(l, d, calls[0]), calls[0].v, calls[1..], d', s');
    }
  }

  /**
    Any number of chunks commit, then another one is cut short anywhere: the boot
    that completes finds the files the last commit left, or those and the new
    chunk's reported bytes.
  */
  lemma RunSurvives(l: Layout, d: Disk, s: Fs, calls: seq<Call>, d': Disk, s': Fs, c: Call, k: nat, ks: seq<nat>,
                    e: Disk)
    requires Holds(l, d, s) && Chunks(l, d, s, calls, d', s') && Starts(l, d', s', c) && c.r <= |c.src|
    requires k <= 2 * |c.blocks| + 2
    requires CrashedBoots(l, CommitStep(l, d', c.blocks, NextDisk(d', c.v, c.i, Left(c.v)), k), ks, e)
    ensures Wf(l, e)
    ensures var f, y := Recovered(l, e), Loaded(d', s'.sb, s'.owner);
      if k <= |c.blocks| then BootsAs(Loaded(f, s'.sb, s'.owner), y)
      else BootsWith(Loaded(f, c.v.sb, c.v.owner), y, c.v, c.i, c.off, c.src[..c.r])
  {
    hide Chunk, Left, Fs.Inv, DataOnly, NextDisk, Wf, CommitStep, OnDisk, WfTxn, Chunks, BootsAs, BootsWith, Loaded;
    hide Recovered;
    ChunksHold(l, d, s, calls, d', s');
    FreshOnDisk(d', s');
    ChunkSurvives(l, d', s'.(dirty := {}), c.v, c.i, c.off, c.n, c.src, c.r, c.touched, c.why, c.blocks,
                  NextDisk(d', c.v, c.i, Left(c.v)), k, ks, e);
  }

  /** One chunk of filewrite, whatever earlier failed copies left behind. */
  method WriteChunk(fs: FileSys, i: nat, src: seq<Byte>, off: nat, n: nat)
    returns (r: int, ghost touched: nat, ghost why: Step)
    requires fs.Valid() && i < |fs.inodes| && off < UINT_LIMIT && n <= 3 * BSIZE
    requires fs.inodes == fs.dinodes && DataOnly(fs.State(), fs.unlogged)
    modifies fs
    ensures fs.Valid() && fs.inodes == fs.dinodes && DataOnly(fs.State(), fs.unlogged)
    ensures r == -1 ==> fs.State() == old(fs.State()).(dirty := {})
    ensures r != -1 ==>
      0 <= r <= |src| && Chunk(old(fs.State()).(dirty := {}), fs.State(), i, off, n, src, r, touched, why)
  {
    hide Fs.Owners, Fs.Bits, Fs.Mapped, Fs.Slot, Fs.IsMarked, WriteDone, Tracked, BytesLogged;
    ghost var s := fs.State().(dirty := {});
    r, touched, why := fs.WriteTransaction(i, src, off, n);
    if r != -1 {
      EndingFacts(s, fs.State(), i, off, n, src, r, touched, why);
      ChunkParts(s, fs.State(), i, off, n, src, r, touched, why);
    }
  }
}
