module FileBytes {
  // A file as one byte sequence, across block and direct/indirect boundaries: what
  // a run of bmap calls and block stores by writei amounts to.

  import opened Sets
  import opened Blocks
  import opened FsState

  /** data with bytes copied over it from position at. */
  function Splice(data: Block, at: nat, bytes: seq<Byte>): (r: Block)
    requires at + |bytes| <= BSIZE
  {
    data[..at] + bytes + data[at + |bytes|..]
  }

  /** No block moved from s to t, and inodes differ at most in new slots. */
  ghost predicate Steady(s: Fs, t: Fs) {
    && s.Inv() && t.Inv() && t.sb == s.sb && |s.inodes| == |t.inodes| && t.dinodes == s.dinodes
    && (forall j :: 0 <= j < |s.inodes| ==> t.inodes[j].size == s.inodes[j].size)
    && (forall j, m :: 0 <= j < |s.inodes| && 0 <= m < SLOTS && s.Slot(j, m) != 0 ==> t.Slot(j, m) == s.Slot(j, m))
  }

  /** Mapped bytes are the same in s and t, except bytes off..off+len of inode i. */
  ghost predicate KeptOutside(s: Fs, t: Fs, i: nat, off: nat, len: nat)
    requires s.Shape() && t.Shape() && |s.inodes| == |t.inodes|
  {
    forall j, p :: 0 <= j < |s.inodes| && 0 <= p < MAXFILE * BSIZE && IsMapped(s, j, p)
                   && !(j == i && off <= p < off + len) ==>
      t.ByteAt(j, p) == s.ByteAt(j, p)
  }

  /** Bytes off.. of inode i are data. */
  ghost predicate Holds(t: Fs, i: nat, off: nat, data: seq<Byte>)
    requires t.Shape()
  {
    && i < |t.inodes| && off + |data| <= MAXFILE * BSIZE
    && (forall p :: off <= p < off + |data| ==> IsMapped(t, i, p) && t.ByteAt(i, p) == data[p - off])
  }

  /**
    From s to t, exactly the bytes off.. of inode i became data; every other
    mapped byte of every file is what it was, and no block moved.
  */
  ghost predicate Wrote(s: Fs, t: Fs, i: nat, off: nat, data: seq<Byte>) {
    Steady(s, t) && KeptOutside(s, t, i, off, |data|) && Holds(t, i, off, data)
  }

  lemma WroteNothing(s: Fs, i: nat, off: nat)
    requires s.Inv() && i < |s.inodes| && off <= MAXFILE * BSIZE
    ensures Wrote(s, s, i, off, [])
  {
  }

  lemma WroteFacts(s: Fs, t: Fs, i: nat, off: nat, data: seq<Byte>)
    requires Wrote(s, t, i, off, data)
    ensures s.Inv() && t.Inv() && t.sb == s.sb && i < |s.inodes| == |t.inodes| && t.dinodes == s.dinodes
    ensures t.inodes[i].size == s.inodes[i].size
    ensures s.Shape() && t.Shape() && off + |data| <= MAXFILE * BSIZE
    ensures s.Indirect(i) != 0 ==> t.Indirect(i) == s.Indirect(i)
    ensures |t.dinodes| == |s.dinodes| == |t.inodes|
  {
    DirectSlot(s, i, NDIRECT);
    DirectSlot(t, i, NDIRECT);
  }

  /** bmap in between disturbs nothing. */
  lemma WroteGrew(s: Fs, t: Fs, u: Fs, i: nat, off: nat, data: seq<Byte>)
    requires Wrote(s, t, i, off, data) && Grew(t, u)
    ensures Wrote(s, u, i, off, data)
  {
    hide Fs.Slot, Fs.ByteAt, Fs.Owners, Fs.Bits, Fs.Mapped;
    forall j, p | 0 <= j < |s.inodes| && 0 <= p < MAXFILE * BSIZE && IsMapped(s, j, p)
                  && !(j == i && off <= p < off + |data|)
      ensures u.ByteAt(j, p) == s.ByteAt(j, p)
    {
      assert IsMapped(t, j, p);
    }
    forall p | off <= p < off + |data| ensures IsMapped(u, i, p) && u.ByteAt(i, p) == data[p - off] {
      assert IsMapped(t, i, p);
    }
  }

  /** t after chunk is copied into block bn of file i, from byte at of the block. */
  ghost function Chunked(t: Fs, i: nat, bn: nat, at: nat, chunk: seq<Byte>): Fs
    requires t.Shape() && i < |t.inodes| && bn < MAXFILE && at + |chunk| <= BSIZE
    requires t.Slot(i, SlotOf(bn)) < |t.view|
  {
    var b := t.Slot(i, SlotOf(bn));
    t.Store(b, Splice(t.view[b], at, chunk))
  }

  lemma ChunkByte(t: Fs, i: nat, bn: nat, at: nat, chunk: seq<Byte>, j: nat, p: nat)
    requires t.Inv() && i < |t.inodes| && bn < MAXFILE && at + |chunk| <= BSIZE
    requires 0 < t.Slot(i, SlotOf(bn)) < |t.view|
    requires IsMapped(t, j, p)
    ensures var u, o := Chunked(t, i, bn, at, chunk), bn * BSIZE + at;
      && u.Shape() && IsMapped(u, j, p)
      && u.ByteAt(j, p) == if j == i && o <= p < o + |chunk| then chunk[p - o] else t.ByteAt(j, p)
  {
    hide Fs.Owners, Fs.Bits, Fs.Mapped, Fs.Slot;
    var b := t.Slot(i, SlotOf(bn));
    StoreBytes(t, i, bn, Splice(t.view[b], at, chunk), j, p);
    if j == i && p / BSIZE == bn {
      OwnedSlot(t, i, SlotOf(bn));
      assert t.ByteAt(j, p) == t.view[b][p % BSIZE];
      assert p == bn * BSIZE + p % BSIZE;
    }
  }

  lemma StoreSteady(t: Fs, i: nat, k: nat, data: Block)
    requires t.Inv() && i < |t.inodes| && k < SLOTS && k != NDIRECT && 0 < t.Slot(i, k) < |t.view|
    ensures Steady(t, t.Store(t.Slot(i, k), data))
  {
    var u := t.Store(t.Slot(i, k), data);
    hide Fs.Owners, Fs.Bits, Fs.Mapped, Fs.Slot;
    StoreInv(t, i, k, data);
    forall j, m | 0 <= j < |t.inodes| && 0 <= m < SLOTS ensures u.Slot(j, m) == t.Slot(j, m) {
      StoreSlots(t, i, k, data, j, m);
    }
  }

  lemma SteadyTrans(s: Fs, t: Fs, u: Fs)
    requires Steady(s, t) && Steady(t, u)
    ensures Steady(s, u)
  {
    hide Fs.Owners, Fs.Bits, Fs.Mapped, Fs.Slot;
  }

  lemma SteadyMapped(s: Fs, t: Fs, j: nat, p: nat)
    requires Steady(s, t) && s.Shape() && IsMapped(s, j, p)
    ensures t.Shape() && IsMapped(t, j, p)
  {
    hide Fs.Owners, Fs.Bits, Fs.Mapped, Fs.Slot;
  }

  lemma ChunkKept(s: Fs, t: Fs, i: nat, off: nat, len: nat, bn: nat, at: nat, chunk: seq<Byte>)
    requires Steady(s, t) && KeptOutside(s, t, i, off, len) && off + len == bn * BSIZE + at && i < |t.inodes|
    requires bn < MAXFILE && at + |chunk| <= BSIZE && 0 < t.Slot(i, SlotOf(bn)) < |t.view|
    requires Chunked(t, i, bn, at, chunk).Shape()
    ensures KeptOutside(s, Chunked(t, i, bn, at, chunk), i, off, len + |chunk|)
  {
    var u := Chunked(t, i, bn, at, chunk);
    hide Fs.Owners, Fs.Bits, Fs.Mapped, Fs.Slot, Fs.ByteAt, IsMapped;
    forall j, p | 0 <= j < |s.inodes| && 0 <= p < MAXFILE * BSIZE && IsMapped(s, j, p)
                  && !(j == i && off <= p < off + len + |chunk|)
      ensures u.ByteAt(j, p) == s.ByteAt(j, p)
    {
      SteadyMapped(s, t, j, p);
      ChunkByte(t, i, bn, at, chunk, j, p);
    }
  }

  lemma ChunkHolds(t: Fs, i: nat, off: nat, data: seq<Byte>, bn: nat, at: nat, chunk: seq<Byte>)
    requires t.Inv() && Holds(t, i, off, data) && off + |data| == bn * BSIZE + at
    requires bn < MAXFILE && at + |chunk| <= BSIZE && 0 < t.Slot(i, SlotOf(bn)) < |t.view|
    requires Chunked(t, i, bn, at, chunk).Shape()
    ensures Holds(Chunked(t, i, bn, at, chunk), i, off, data + chunk)
  {
    var u := Chunked(t, i, bn, at, chunk);
    assert |u.inodes| == |t.inodes|;
    hide Fs.Owners, Fs.Bits, Fs.Mapped, Fs.Slot, Fs.ByteAt, IsMapped, Chunked, Holds;
    forall p | off <= p < off + |data + chunk|
      ensures IsMapped(u, i, p) && u.ByteAt(i, p) == (data + chunk)[p - off]
    {
      WroteByte(t, i, off, data, bn, at, chunk, p);
    }
    HoldsIntro(u, i, off, data + chunk);
  }

  lemma HoldsIntro(t: Fs, i: nat, off: nat, data: seq<Byte>)
    requires t.Shape() && i < |t.inodes| && off + |data| <= MAXFILE * BSIZE
    requires forall p :: off <= p < off + |data| ==> IsMapped(t, i, p) && t.ByteAt(i, p) == data[p - off]
    ensures Holds(t, i, off, data)
  {
  }

  /** One iteration of writei's loop extends what was written by its chunk. */
  lemma WroteChunk(s: Fs, t: Fs, i: nat, off: nat, data: seq<Byte>, bn: nat, at: nat, chunk: seq<Byte>)
    requires Wrote(s, t, i, off, data) && off + |data| == bn * BSIZE + at
    requires t.Shape() && bn < MAXFILE && at + |chunk| <= BSIZE && 0 < t.Slot(i, SlotOf(bn)) < |t.view|
    ensures Wrote(s, Chunked(t, i, bn, at, chunk), i, off, data + chunk)
  {
    StoreSteady(t, i, SlotOf(bn), Splice(t.view[t.Slot(i, SlotOf(bn))], at, chunk));
    SteadyTrans(s, t, Chunked(t, i, bn, at, chunk));
    hide Fs.Slot, KeptOutside, Holds, Chunked;
    ChunkKept(s, t, i, off, |data|, bn, at, chunk);
    ChunkHolds(t, i, off, data, bn, at, chunk);
  }

  lemma WroteByte(t: Fs, i: nat, off: nat, data: seq<Byte>, bn: nat, at: nat, chunk: seq<Byte>, p: nat)
    requires t.Inv() && Holds(t, i, off, data) && off + |data| == bn * BSIZE + at
    requires off <= p < off + |data + chunk|
    requires bn < MAXFILE && at + |chunk| <= BSIZE && 0 < t.Slot(i, SlotOf(bn)) < |t.view|
    ensures var u := Chunked(t, i, bn, at, chunk);
      u.Shape() && IsMapped(u, i, p) && u.ByteAt(i, p) == (data + chunk)[p - off]
  {
    if p >= off + |data| {
      assert p / BSIZE == bn;
    }
    assert IsMapped(t, i, p);
    hide Fs.Owners, Fs.Bits, Fs.Mapped, Fs.Slot, Fs.ByteAt, Chunked;
    ChunkByte(t, i, bn, at, chunk, i, p);
  }

  // ---------------------------------------------------------------- file sizes

  /** Block bn is mapped and so is everything below it: the file is mapped one block further. */
  lemma MappedFurther(t: Fs, i: nat, len: nat, bn: nat, len': nat)
    requires t.Shape() && i < |t.inodes| && t.MappedTo(i, len)
    requires bn < MAXFILE && t.Slot(i, SlotOf(bn)) != 0
    requires bn * BSIZE <= len <= len' <= (bn + 1) * BSIZE || len' <= len
    ensures t.MappedTo(i, len')
  {
    hide Fs.Slot;
  }

  lemma SteadyMappedTo(s: Fs, t: Fs, i: nat, len: nat)
    requires Steady(s, t) && i < |s.inodes| && s.MappedTo(i, len)
    ensures t.MappedTo(i, len)
  {
    hide Fs.Slot, Fs.Owners, Fs.Bits;
  }

  /** t with a new size for inode i. */
  ghost function Resized(t: Fs, i: nat, size: nat): Fs
    requires i < |t.inodes|
  {
    t.(inodes := t.inodes[i := Inode(size, t.inodes[i].addrs)])
  }

  lemma ResizedSlots(t: Fs, i: nat, size: nat)
    requires t.Shape() && i < |t.inodes|
    ensures Resized(t, i, size).Shape()
    ensures forall j, m :: 0 <= j < |t.inodes| && 0 <= m < SLOTS ==> Resized(t, i, size).Slot(j, m) == t.Slot(j, m)
    ensures forall c :: 0 <= c < t.sb.size ==> Resized(t, i, size).IsMarked(c) == t.IsMarked(c)
  {
  }

  lemma ResizedInv(t: Fs, i: nat, size: nat)
    requires t.Inv() && i < |t.inodes| && t.MappedTo(i, size)
    ensures Resized(t, i, size).Inv()
  {
    var u := Resized(t, i, size);
    ResizedSlots(t, i, size);
    hide Fs.Slot, Fs.IsMarked;
    forall j | 0 <= j < |u.inodes| ensures u.MappedTo(j, u.inodes[j].size) {
      assert t.MappedTo(j, t.inodes[j].size);
    }
  }

  /** What was logged is bookkeeping: it does not bear on contents. */
  lemma WroteBookkeeping(s: Fs, t: Fs, i: nat, off: nat, data: seq<Byte>, u: Fs)
    requires Wrote(s, t, i, off, data) && u == t.(dirty := u.dirty, unlogged := u.unlogged)
    ensures Wrote(s, u, i, off, data)
  {
    BookkeepingInv(t, u);
    assert forall j, m :: 0 <= j < |t.inodes| && 0 <= m < SLOTS ==> u.Slot(j, m) == t.Slot(j, m);
    assert forall j, p :: 0 <= j < |t.inodes| && 0 <= p < MAXFILE * BSIZE ==> u.ByteAt(j, p) == t.ByteAt(j, p);
    hide Fs.Slot, Fs.ByteAt, Fs.Owners, Fs.Bits, Fs.Mapped;
    assert forall j, p :: 0 <= j < |t.inodes| && 0 <= p < MAXFILE * BSIZE && IsMapped(t, j, p) ==> IsMapped(u, j, p);
  }

  // ------------------------------------------------------- transaction accounting

  /**
    What a run of writei iterations has logged: data blocks, bitmap blocks of
    freshly allocated data blocks, and the indirect block with its bitmap block.
  */
  ghost predicate Logged(dirty0: set<nat>, dirty: set<nat>, data: set<nat>, maps: set<nat>, ind: set<nat>,
                         iterations: nat, allocs: nat) {
    && dirty <= dirty0 + data + maps + ind
    && |data| <= iterations && |maps| <= allocs <= iterations
  }

  lemma LoggedTotal(dirty0: set<nat>, dirty: set<nat>, data: set<nat>, maps: set<nat>, ind: set<nat>,
                    iterations: nat, allocs: nat, ib: nat)
    requires Logged(dirty0, dirty, data, maps, ind, iterations, allocs) && |ind| <= 2
    ensures |dirty + {ib} - dirty0| <= iterations + allocs + 3
  {
    var all := data + maps + ind + {ib};
    assert |data + maps| <= |data| + |maps|;
    assert |data + maps + ind| <= |data + maps| + |ind|;
    assert |all| <= |data + maps + ind| + 1;
    SubsetSize(dirty + {ib} - dirty0, all);
  }

  /** One more iteration, on block addr; its bitmap block is new only when the block is. */
  lemma LoggedStep(dirty0: set<nat>, dirty: set<nat>, data: set<nat>, maps: set<nat>, ind: set<nat>,
                   iterations: nat, allocs: nat, dirty': set<nat>, ind': set<nat>, addr: nat, bb: nat, mapped: bool)
    requires Logged(dirty0, dirty, data, maps, ind, iterations, allocs) && ind <= ind'
    requires dirty' <= dirty + {addr} + (if mapped then {} else {bb} + ind')
    ensures Logged(dirty0, dirty', data + {addr}, maps + (if mapped then {} else {bb}), ind',
                   iterations + 1, allocs + (if mapped then 0 else 1))
  {
  }

  lemma IndirectBlocksGrow(s: Fs, t: Fs, i: nat)
    requires Grew(s, t) && i < |s.inodes|
    ensures s.Shape() && t.Shape() && i < |t.inodes|
    ensures IndirectBlocks(s, i) <= IndirectBlocks(t, i)
  {
    GrewFacts(s, t, i, NDIRECT);
  }

  lemma MappedBelow(t: Fs, i: nat, len: nat, bn: nat)
    requires t.Shape() && i < |t.inodes| && t.MappedTo(i, len) && bn < MAXFILE && bn * BSIZE < len
    ensures t.Slot(i, SlotOf(bn)) != 0
  {
  }

  // ------------------------------------------------------------ the loop of writei

  function Max(a: nat, b: nat): nat {
    if a < b then b else a
  }

  function Min(a: nat, b: nat): nat {
    if a < b then a else b
  }

  /** Which blocks the iterations so far logged: data blocks, and bitmap blocks of new data blocks. */
  datatype Account = Account(data: set<nat>, maps: set<nat>, iterations: nat, allocs: nat)

  /** The position after a number of iterations: at a block boundary until the last one. */
  ghost predicate Position(off: nat, n: nat, tot: nat, iterations: nat) {
    && tot <= n
    && (iterations == 0 ==> tot == 0)
    && (iterations > 0 && tot < n ==> off + tot == (off / BSIZE + iterations) * BSIZE)
    && (iterations > 0 ==> (off / BSIZE + iterations - 1) * BSIZE < off + n)
  }

  lemma PositionNext(off: nat, n: nat, tot: nat, iterations: nat)
    requires Position(off, n, tot, iterations) && tot < n
    ensures Position(off, n, tot + Min(n - tot, BSIZE - (off + tot) % BSIZE), iterations + 1)
  {
    var o := off + tot;
    if iterations > 0 {
      assert o % BSIZE == 0;
    }
  }

  /** A chunk of at most three blocks takes at most four iterations, three when it is aligned. */
  lemma PositionBound(off: nat, n: nat, tot: nat, iterations: nat)
    requires Position(off, n, tot, iterations) && n <= 3 * BSIZE
    ensures iterations <= 4 && (off % BSIZE == 0 ==> iterations <= 3)
  {
  }

  /** After iterations that wrote src[..tot]: the state u reached from s. */
  ghost predicate Progress(s: Fs, u: Fs, i: nat, off: nat, src: seq<Byte>, tot: nat, a: Account) {
    && tot <= |src| && Wrote(s, u, i, off, src[..tot])
    && s.Shape() && u.Shape() && i < |s.inodes| == |u.inodes| && off <= s.inodes[i].size
    && u.MappedTo(i, Max(s.inodes[i].size, off + tot))
    && u.unlogged == s.unlogged
    && Logged(s.dirty, u.dirty, a.data, a.maps, IndirectBlocks(u, i), a.iterations, a.allocs)
    && a.allocs <= a.iterations && (off % BSIZE != 0 && a.iterations > 0 ==> a.allocs < a.iterations)
    && (a.iterations == 0 ==> tot == 0)
  }

  lemma ProgressStart(s: Fs, i: nat, off: nat, src: seq<Byte>)
    requires s.Inv() && i < |s.inodes| && off <= s.inodes[i].size
    ensures Progress(s, s, i, off, src, 0, Account({}, {}, 0, 0))
  {
    assert s.MappedTo(i, s.inodes[i].size);
    WroteNothing(s, i, off);
    assert src[..0] == [];
  }

  lemma ProgressFacts(s: Fs, u: Fs, i: nat, off: nat, src: seq<Byte>, tot: nat, a: Account)
    requires Progress(s, u, i, off, src, tot, a)
    ensures s.Inv() && u.Inv() && i < |u.inodes| == |s.inodes| && u.Shape() && u.sb == s.sb
    ensures tot <= |src| && u.unlogged == s.unlogged
  {
    WroteFacts(s, u, i, off, src[..tot]);
  }

  /** bmap inside an iteration: contents, mapping and accounting so far carry over to t. */
  lemma ProgressGrew(s: Fs, u: Fs, t: Fs, i: nat, off: nat, src: seq<Byte>, tot: nat, a: Account)
    requires Progress(s, u, i, off, src, tot, a) && Grew(u, t)
    ensures t.Shape() && i < |t.inodes| && t.Inv()
    ensures Wrote(s, t, i, off, src[..tot]) && t.MappedTo(i, Max(s.inodes[i].size, off + tot))
    ensures IndirectBlocks(u, i) <= IndirectBlocks(t, i)
  {
    hide Wrote, Logged, IndirectBlocks, Fs.MappedTo, Grew;
    WroteFacts(s, u, i, off, src[..tot]);
    GrewFacts(u, t, i, 0);
    WroteGrew(s, u, t, i, off, src[..tot]);
    GrewMapped(u, t, i, Max(s.inodes[i].size, off + tot));
    IndirectBlocksGrow(u, t, i);
  }

  /** What bmap logged besides the data block: nothing if the block was there already. */
  function NewBlocks(u: Fs, t: Fs, i: nat, bn: nat): set<nat>
    requires u.Shape() && t.Shape() && i < |t.inodes| == |u.inodes| && bn < MAXFILE
  {
    if u.Slot(i, SlotOf(bn)) != 0 then {}
    else {t.sb.BBlock(t.Slot(i, SlotOf(bn)))} + IndirectBlocks(t, i)
  }

  /** What WriteStep guarantees about the state v it leaves, t being the state after bmap. */
  ghost predicate Stepped(u: Fs, t: Fs, v: Fs, i: nat, bn: nat, at: nat, bytes: seq<Byte>) {
    && Grew(u, t) && u.Shape() && t.Shape() && i < |t.inodes| == |u.inodes| && bn < MAXFILE && at + |bytes| <= BSIZE
    && 0 < t.Slot(i, SlotOf(bn)) < |t.view|
    && v == Chunked(t, i, bn, at, bytes).(dirty := v.dirty, unlogged := v.unlogged)
    && v.dirty <= u.dirty + {t.Slot(i, SlotOf(bn))} + NewBlocks(u, t, i, bn)
  }

  /** An iteration that copied bytes extends what was written, whether or not it got all it wanted. */
  lemma SteppedWrote(s: Fs, u: Fs, t: Fs, v: Fs, i: nat, off: nat, src: seq<Byte>, tot: nat, a: Account,
                     bn: nat, at: nat, len: nat)
    requires Progress(s, u, i, off, src, tot, a) && tot + len <= |src|
    requires Stepped(u, t, v, i, bn, at, src[tot..tot + len]) && off + tot == bn * BSIZE + at
    ensures Wrote(s, v, i, off, src[..tot + len]) && v.Shape()
    ensures v.MappedTo(i, Max(s.inodes[i].size, off + tot))
  {
    hide Wrote, Logged, IndirectBlocks, Fs.MappedTo, Grew, Chunked;
    ProgressGrew(s, u, t, i, off, src, tot, a);
    var bytes := src[tot..tot + len];
    WroteChunk(s, t, i, off, src[..tot], bn, at, bytes);
    WroteBookkeeping(s, Chunked(t, i, bn, at, bytes), i, off, src[..tot] + bytes, v);
    assert src[..tot] + bytes == src[..tot + len];
    WroteFacts(s, v, i, off, src[..tot + len]);
    SteppedMapped(u, t, v, i, bn, at, bytes, Max(s.inodes[i].size, off + tot));
  }

  /** The store of an iteration leaves the mapping of bmap's state t as it is. */
  lemma SteppedMapped(u: Fs, t: Fs, v: Fs, i: nat, bn: nat, at: nat, bytes: seq<Byte>, len: nat)
    requires Stepped(u, t, v, i, bn, at, bytes) && t.MappedTo(i, len) && t.Inv() && v.Inv()
    ensures v.MappedTo(i, len) && v.Slot(i, SlotOf(bn)) != 0 && IndirectBlocks(v, i) == IndirectBlocks(t, i)
  {
    hide Grew, Fs.Owners, Fs.Bits, Fs.Mapped, Splice, NewBlocks;
    var w := Chunked(t, i, bn, at, bytes);
    StoreSteady(t, i, SlotOf(bn), Splice(t.view[t.Slot(i, SlotOf(bn))], at, bytes));
    SteadyMappedTo(t, w, i, len);
    assert forall m :: 0 <= m < SLOTS ==> v.Slot(i, m) == w.Slot(i, m);
  }

  /** A complete iteration maps the file up to where it wrote. */
  lemma SteppedFurther(s: Fs, u: Fs, t: Fs, v: Fs, i: nat, off: nat, src: seq<Byte>, tot: nat, a: Account,
                       bn: nat, at: nat, m: nat)
    requires Progress(s, u, i, off, src, tot, a) && tot + m <= |src|
    requires Stepped(u, t, v, i, bn, at, src[tot..tot + m]) && off + tot == bn * BSIZE + at
    ensures v.Inv() && v.Shape() && v.MappedTo(i, Max(s.inodes[i].size, off + tot + m))
    ensures IndirectBlocks(v, i) == IndirectBlocks(t, i)
  {
    hide Wrote, Logged, IndirectBlocks, Fs.MappedTo, Grew, Chunked, Fs.Owners, Fs.Bits, Fs.Mapped;
    SteppedWrote(s, u, t, v, i, off, src, tot, a, bn, at, m);
    ProgressGrew(s, u, t, i, off, src, tot, a);
    WroteFacts(s, v, i, off, src[..tot + m]);
    var len := Max(s.inodes[i].size, off + tot);
    SteppedMapped(u, t, v, i, bn, at, src[tot..tot + m], len);
    MappedFurther(v, i, len, bn, Max(s.inodes[i].size, off + tot + m));
  }

  /** The first block of an unaligned write is mapped already. */
  lemma UnalignedIsMapped(s: Fs, u: Fs, i: nat, off: nat, src: seq<Byte>, a: Account, bn: nat, at: nat)
    requires Progress(s, u, i, off, src, 0, a) && off == bn * BSIZE + at && 0 < at < BSIZE && bn < MAXFILE
    ensures u.Slot(i, SlotOf(bn)) != 0
  {
    hide Fs.Slot, Wrote, Logged, IndirectBlocks;
    MappedBelow(u, i, Max(s.inodes[i].size, off), bn);
  }

  lemma OffsetInBlock(off: nat, bn: nat, at: nat)
    requires off == bn * BSIZE + at && at < BSIZE
    ensures off % BSIZE == at
  {
  }

  lemma ProgressAccount(s: Fs, u: Fs, i: nat, off: nat, src: seq<Byte>, tot: nat, a: Account)
    requires Progress(s, u, i, off, src, tot, a)
    ensures u.Shape() && i < |u.inodes|
    ensures Logged(s.dirty, u.dirty, a.data, a.maps, IndirectBlocks(u, i), a.iterations, a.allocs)
    ensures a.allocs <= a.iterations && (off % BSIZE != 0 && a.iterations > 0 ==> a.allocs < a.iterations)
    ensures a.iterations == 0 ==> tot == 0
  {
  }

  /** The accounting of an iteration. */
  lemma SteppedAccount(s: Fs, u: Fs, t: Fs, v: Fs, i: nat, off: nat, src: seq<Byte>, tot: nat, a: Account,
                       bn: nat, at: nat, bytes: seq<Byte>)
    returns (a': Account)
    requires Progress(s, u, i, off, src, tot, a) && off + tot == bn * BSIZE + at && at < BSIZE
    requires Stepped(u, t, v, i, bn, at, bytes) && i < |v.inodes| && v.Shape()
    requires IndirectBlocks(u, i) <= IndirectBlocks(t, i) == IndirectBlocks(v, i)
    ensures Logged(s.dirty, v.dirty, a'.data, a'.maps, IndirectBlocks(v, i), a'.iterations, a'.allocs)
    ensures a'.allocs <= a'.iterations && (off % BSIZE != 0 ==> a'.allocs < a'.iterations)
    ensures a'.iterations == a.iterations + 1
  {
    hide Wrote, Logged, IndirectBlocks, Grew, Chunked, Fs.Slot, Fs.MappedTo, Progress;
    var mapped := u.Slot(i, SlotOf(bn)) != 0;
    var addr := t.Slot(i, SlotOf(bn));
    a' := Account(a.data + {addr}, a.maps + (if mapped then {} else {t.sb.BBlock(addr)}),
                  a.iterations + 1, a.allocs + (if mapped then 0 else 1));
    ProgressAccount(s, u, i, off, src, tot, a);
    if a.iterations == 0 {
      OffsetInBlock(off, bn, at);
      if 0 < at {
        UnalignedIsMapped(s, u, i, off, src, a, bn, at);
      }
    }
    LoggedStep(s.dirty, u.dirty, a.data, a.maps, IndirectBlocks(u, i), a.iterations, a.allocs,
               v.dirty, IndirectBlocks(v, i), addr, t.sb.BBlock(addr), mapped);
  }

  /** A complete iteration is progress by m bytes. */
  lemma ProgressNext(s: Fs, u: Fs, t: Fs, v: Fs, i: nat, off: nat, src: seq<Byte>, tot: nat, a: Account,
                     bn: nat, at: nat, m: nat)
    returns (a': Account)
    requires Progress(s, u, i, off, src, tot, a) && tot + m <= |src| && v.unlogged == u.unlogged
    requires Stepped(u, t, v, i, bn, at, src[tot..tot + m]) && off + tot == bn * BSIZE + at && at < BSIZE
    ensures Progress(s, v, i, off, src, tot + m, a') && a'.iterations == a.iterations + 1
  {
    hide Wrote, Logged, IndirectBlocks, Fs.MappedTo, Stepped, Fs.Owners, Fs.Bits, Fs.Mapped;
    SteppedWrote(s, u, t, v, i, off, src, tot, a, bn, at, m);
    SteppedFurther(s, u, t, v, i, off, src, tot, a, bn, at, m);
    WroteFacts(s, v, i, off, src[..tot + m]);
    assert Grew(u, t) by { SteppedGrew(u, t, v, i, bn, at, src[tot..tot + m]); }
    ProgressGrew(s, u, t, i, off, src, tot, a);
    a' := SteppedAccount(s, u, t, v, i, off, src, tot, a, bn, at, src[tot..tot + m]);
  }

  lemma SteppedGrew(u: Fs, t: Fs, v: Fs, i: nat, bn: nat, at: nat, bytes: seq<Byte>)
    requires Stepped(u, t, v, i, bn, at, bytes)
    ensures Grew(u, t)
  {
  }

  /** How the loop of writei ends. */
  datatype Step = Done | DiskFull | Fault

  /** Of len bytes written from off, those before the last block boundary. */
  function WholeBlocks(off: nat, len: nat): nat {
    var boundary := (off + len) / BSIZE * BSIZE;
    if boundary <= off then 0 else boundary - off
  }

  lemma FaultPosition(off: nat, n: nat, tot: nat, iterations: nat, bn: nat, at: nat, len: nat)
    requires Position(off, n, tot, iterations) && tot < n && off + tot == bn * BSIZE + at && at < BSIZE
    requires tot <= len < tot + BSIZE - at
    ensures tot == WholeBlocks(off, len)
  {
    assert (off + len) / BSIZE == bn;
    if iterations > 0 {
      assert at == 0;
    }
  }

  /** How many bytes each ending reports and touches. */
  ghost predicate Ending(off: nat, n: nat, src: seq<Byte>, tot: nat, touched: nat, why: Step) {
    match why
    case Done => touched == tot == n
    case DiskFull => touched == tot < n
    case Fault => |src| < n && touched == |src| && tot == WholeBlocks(off, |src|)
  }

  /** What the loop of writei leaves: tot bytes reported, touched bytes in the cache. */
  ghost predicate LoopDone(s: Fs, v: Fs, i: nat, off: nat, n: nat, src: seq<Byte>, tot: nat, touched: nat, why: Step) {
    && tot <= touched <= n && touched <= |src|
    && Wrote(s, v, i, off, src[..touched])
    && s.Shape() && v.Shape() && i < |s.inodes| == |v.inodes| && v.MappedTo(i, Max(s.inodes[i].size, off + tot))
    && Ending(off, n, src, tot, touched, why)
    && (touched == tot ==> v.unlogged == s.unlogged)
    && (n <= 3 * BSIZE ==> |v.dirty + {s.sb.IBlock(i)} - s.dirty| <= 10)
  }

  /** The bound on distinct logged blocks: 4 data blocks, 3 of their bitmap blocks, the indirect block and its
      bitmap block, and the inode block. */
  lemma AccountBound(s: Fs, v: Fs, i: nat, off: nat, n: nat, a: Account, tot: nat)
    requires v.Shape() && i < |v.inodes|
    requires Logged(s.dirty, v.dirty, a.data, a.maps, IndirectBlocks(v, i), a.iterations, a.allocs)
    requires a.allocs <= a.iterations && (off % BSIZE != 0 && a.iterations > 0 ==> a.allocs < a.iterations)
    requires Position(off, n, tot, a.iterations) && n <= 3 * BSIZE
    ensures |v.dirty + {s.sb.IBlock(i)} - s.dirty| <= 10
  {
    PositionBound(off, n, tot, a.iterations);
    LoggedTotal(s.dirty, v.dirty, a.data, a.maps, IndirectBlocks(v, i), a.iterations, a.allocs, s.sb.IBlock(i));
  }

  lemma DoneByProgress(s: Fs, u: Fs, i: nat, off: nat, n: nat, src: seq<Byte>, tot: nat, a: Account)
    requires Progress(s, u, i, off, src, tot, a) && Position(off, n, tot, a.iterations) && tot == n
    ensures LoopDone(s, u, i, off, n, src, tot, tot, Done)
  {
    hide Wrote, Logged, IndirectBlocks, Fs.MappedTo, Position;
    assert tot <= n by { PositionTot(off, n, tot, a.iterations); }
    if n <= 3 * BSIZE {
      AccountBound(s, u, i, off, n, a, tot);
    }
  }

  lemma PositionTot(off: nat, n: nat, tot: nat, iterations: nat)
    requires Position(off, n, tot, iterations)
    ensures tot <= n
  {
  }

  /** The disk was full: bmap may have added an indirect block, nothing else happened. */
  lemma DoneByFullDisk(s: Fs, u: Fs, t: Fs, i: nat, off: nat, n: nat, src: seq<Byte>, tot: nat, a: Account)
    requires Progress(s, u, i, off, src, tot, a) && Position(off, n, tot, a.iterations) && tot < n
    requires Grew(u, t) && t.unlogged == u.unlogged && t.Shape() && i < |t.inodes|
    requires t.dirty <= u.dirty + IndirectBlocks(t, i)
    ensures LoopDone(s, t, i, off, n, src, tot, tot, DiskFull)
  {
    ProgressGrew(s, u, t, i, off, src, tot, a);
    WroteFacts(s, t, i, off, src[..tot]);
    assert Logged(s.dirty, t.dirty, a.data, a.maps, IndirectBlocks(t, i), a.iterations, a.allocs);
    hide Wrote, Logged, IndirectBlocks, Fs.MappedTo, Position, Grew;
    PositionTot(off, n, tot, a.iterations);
    if n <= 3 * BSIZE {
      AccountBound(s, t, i, off, n, a, tot);
    }
  }

  /** The accounting of an iteration that faulted is that of a complete one. */
  lemma FaultAccount(s: Fs, u: Fs, t: Fs, v: Fs, i: nat, off: nat, n: nat, src: seq<Byte>, tot: nat, a: Account,
                     bn: nat, at: nat)
    requires Progress(s, u, i, off, src, tot, a) && Position(off, n, tot, a.iterations) && tot < n <= 3 * BSIZE
    requires off + tot == bn * BSIZE + at && at < BSIZE
    requires Stepped(u, t, v, i, bn, at, src[tot..]) && v.Shape() && i < |v.inodes|
    requires IndirectBlocks(v, i) == IndirectBlocks(t, i)
    ensures |v.dirty + {s.sb.IBlock(i)} - s.dirty| <= 10
  {
    PositionNext(off, n, tot, a.iterations);
    SteppedGrew(u, t, v, i, bn, at, src[tot..]);
    hide Wrote, Logged, IndirectBlocks, Fs.MappedTo, Position, Stepped, Fs.Owners, Fs.Bits, Fs.Mapped, Grew, Progress;
    ProgressGrew(s, u, t, i, off, src, tot, a);
    var a' := SteppedAccount(s, u, t, v, i, off, src, tot, a, bn, at, src[tot..]);
    AccountBound(s, v, i, off, n, a', tot + Min(n - tot, BSIZE - (off + tot) % BSIZE));
  }

  /** The source faulted inside a chunk. */
  lemma DoneByFault(s: Fs, u: Fs, t: Fs, v: Fs, i: nat, off: nat, n: nat, src: seq<Byte>, tot: nat, a: Account,
                    bn: nat, at: nat)
    requires Progress(s, u, i, off, src, tot, a) && Position(off, n, tot, a.iterations) && tot < n
    requires off + tot == bn * BSIZE + at && at < BSIZE
    requires |src| < tot + Min(n - tot, BSIZE - at)
    requires Stepped(u, t, v, i, bn, at, src[tot..]) && (tot == |src| ==> v.unlogged == u.unlogged)
    ensures LoopDone(s, v, i, off, n, src, tot, |src|, Fault)
  {
    hide Wrote, Logged, IndirectBlocks, Fs.MappedTo, Position, Stepped, Fs.Owners, Fs.Bits, Fs.Mapped, WholeBlocks;
    var len := |src| - tot;
    FaultPosition(off, n, tot, a.iterations, bn, at, |src|);
    assert src[tot..] == src[tot..tot + len];
    SteppedWrote(s, u, t, v, i, off, src, tot, a, bn, at, len);
    WroteFacts(s, v, i, off, src[..tot + len]);
    SteppedFurther(s, u, t, v, i, off, src, tot, a, bn, at, len);
    if n <= 3 * BSIZE {
      FaultAccount(s, u, t, v, i, off, n, src, tot, a, bn, at);
    }
  }

  lemma PositionStart(off: nat, n: nat)
    ensures Position(off, n, 0, 0)
  {
  }

  // --------------------------------------------------------------- file contents

  /** The file as a byte sequence. */
  ghost function Content(s: Fs, i: nat): (c: seq<Byte>)
    requires s.Shape() && i < |s.inodes| && s.inodes[i].size <= MAXFILE * BSIZE
    ensures |c| == s.inodes[i].size
  {
    seq(s.inodes[i].size, p requires 0 <= p < s.inodes[i].size => s.ByteAt(i, p))
  }

  /** c with data written over it from off, possibly past its end. */
  function Overwritten(c: seq<Byte>, off: nat, data: seq<Byte>): (r: seq<Byte>)
    requires off <= |c|
    ensures |r| == Max(|c|, off + |data|)
  {
    c[..off] + data + (if off + |data| < |c| then c[off + |data|..] else [])
  }

  lemma SizeFits(s: Fs, i: nat)
    requires s.Inv() && i < |s.inodes|
    ensures s.inodes[i].size <= MAXFILE * BSIZE
    ensures forall p :: 0 <= p < s.inodes[i].size ==> IsMapped(s, i, p)
  {
    hide Fs.Slot, Fs.Owners, Fs.Bits;
    assert s.MappedTo(i, s.inodes[i].size);
    forall p | 0 <= p < s.inodes[i].size ensures IsMapped(s, i, p) {
      MappedBelow(s, i, s.inodes[i].size, p / BSIZE);
    }
  }

  /** The effect of writei on every file. */
  ghost predicate WriteDone(s: Fs, v: Fs, i: nat, off: nat, n: nat, src: seq<Byte>, r: nat, touched: nat, why: Step) {
    && s.Inv() && v.Inv() && v.sb == s.sb && i < |s.inodes| == |v.inodes| && off <= s.inodes[i].size
    && r <= touched <= n && touched <= |src|
    && Ending(off, n, src, r, touched, why)
    && v.inodes[i].size == Max(s.inodes[i].size, off + r) && v.dinodes == s.dinodes[i := v.inodes[i]]
    && (forall j :: 0 <= j < |s.inodes| ==> s.inodes[j].size <= MAXFILE * BSIZE && v.inodes[j].size <= MAXFILE * BSIZE)
    && Content(v, i) == Overwritten(Content(s, i), off, src[..touched])[..Max(s.inodes[i].size, off + r)]
    && (forall j :: 0 <= j < |s.inodes| && j != i ==> Content(v, j) == Content(s, j))
    && (touched == r ==> v.unlogged == s.unlogged)
    && (n <= 3 * BSIZE ==> |v.dirty - s.dirty| <= 10)
  }

  /** iupdate and the new size turn the loop's result into writei's. */
  ghost function Updated(v: Fs, i: nat, size: nat): Fs
    requires i < |v.inodes| == |v.dinodes|
  {
    var w := Resized(v, i, size);
    w.(dinodes := w.dinodes[i := w.inodes[i]], dirty := w.dirty + {w.sb.IBlock(i)})
  }

  lemma UpdatedInv(v: Fs, i: nat, size: nat)
    requires v.Inv() && i < |v.inodes| == |v.dinodes| && v.MappedTo(i, size)
    ensures Updated(v, i, size).Inv()
    ensures forall j, p :: 0 <= j < |v.inodes| && 0 <= p < MAXFILE * BSIZE ==>
              Updated(v, i, size).ByteAt(j, p) == v.ByteAt(j, p)
  {
    ResizedInv(v, i, size);
    BookkeepingInv(Resized(v, i, size), Updated(v, i, size));
    hide Fs.Owners, Fs.Bits, Fs.Mapped;
  }

  /** Other files keep their contents. */
  lemma OtherContent(s: Fs, v: Fs, i: nat, off: nat, data: seq<Byte>, size: nat, j: nat)
    requires Wrote(s, v, i, off, data) && i < |v.inodes| == |v.dinodes| && v.MappedTo(i, size) && j < |s.inodes|
    requires j != i
    requires s.inodes[j].size <= MAXFILE * BSIZE
    ensures Updated(v, i, size).Shape() && Updated(v, i, size).inodes[j].size == s.inodes[j].size
    ensures Content(Updated(v, i, size), j) == Content(s, j)
  {
    UpdatedInv(v, i, size);
    SizeFits(s, j);
    hide Fs.Slot, Fs.ByteAt, Fs.Owners, Fs.Bits, Fs.Mapped, IsMapped;
  }

  lemma OverwrittenAt(c: seq<Byte>, off: nat, data: seq<Byte>, p: nat)
    requires off <= |c| && p < Max(|c|, off + |data|)
    ensures p < |c| || off <= p < off + |data|
    ensures Overwritten(c, off, data)[p] == if off <= p < off + |data| then data[p - off] else c[p]
  {
  }

  lemma WrittenByte(s: Fs, v: Fs, i: nat, off: nat, data: seq<Byte>, p: nat)
    requires Wrote(s, v, i, off, data) && s.Shape() && v.Shape() && s.Inv() && i < |s.inodes| == |v.inodes|
    requires off <= s.inodes[i].size <= MAXFILE * BSIZE && p < Max(s.inodes[i].size, off + |data|)
    requires p < MAXFILE * BSIZE
    ensures v.ByteAt(i, p) == Overwritten(Content(s, i), off, data)[p]
  {
    SizeFits(s, i);
    OverwrittenAt(Content(s, i), off, data, p);
    hide Fs.Slot, Fs.ByteAt, Fs.Owners, Fs.Bits, Fs.Mapped, IsMapped, Overwritten;
  }

  /** The written file: data at off, the old bytes elsewhere, cut at the new size. */
  lemma WrittenContent(s: Fs, v: Fs, i: nat, off: nat, data: seq<Byte>, r: nat)
    requires Wrote(s, v, i, off, data) && i < |v.inodes| == |v.dinodes| && r <= |data|
    requires off <= s.inodes[i].size <= MAXFILE * BSIZE
    requires v.MappedTo(i, Max(s.inodes[i].size, off + r))
    ensures var z := Max(s.inodes[i].size, off + r);
      && z <= MAXFILE * BSIZE && Updated(v, i, z).Shape()
      && Content(Updated(v, i, z), i) == Overwritten(Content(s, i), off, data)[..z]
  {
    var z := Max(s.inodes[i].size, off + r);
    UpdatedInv(v, i, z);
    var w, c := Updated(v, i, z), Overwritten(Content(s, i), off, data);
    WroteFacts(s, v, i, off, data);
    hide Fs.Slot, Fs.ByteAt, Fs.Owners, Fs.Bits, Fs.Mapped, Overwritten, Wrote;
    forall p | 0 <= p < z ensures w.ByteAt(i, p) == c[p] {
      WrittenByte(s, v, i, off, data, p);
    }
    assert Content(w, i) == c[..z];
  }

  lemma LoopToWrite(s: Fs, v: Fs, i: nat, off: nat, n: nat, src: seq<Byte>, tot: nat, touched: nat, why: Step)
    requires s.Inv() && i < |s.inodes| && off <= s.inodes[i].size && LoopDone(s, v, i, off, n, src, tot, touched, why)
    ensures |v.inodes| == |v.dinodes|
    ensures WriteDone(s, Updated(v, i, Max(s.inodes[i].size, off + tot)), i, off, n, src, tot, touched, why)
  {
    WroteFacts(s, v, i, off, src[..touched]);
    var z := Max(s.inodes[i].size, off + tot);
    SizeFits(s, i);
    UpdatedInv(v, i, z);
    WrittenContent(s, v, i, off, src[..touched], tot);
    hide Fs.Slot, Fs.ByteAt, Fs.Owners, Fs.Bits, Fs.Mapped, Overwritten, Wrote, WholeBlocks;
    forall j | 0 <= j < |s.inodes| && j != i
      ensures s.inodes[j].size <= MAXFILE * BSIZE && Updated(v, i, z).inodes[j].size == s.inodes[j].size
      ensures Content(Updated(v, i, z), j) == Content(s, j)
    {
      SizeFits(s, j);
      OtherContent(s, v, i, off, src[..touched], z, j);
    }
  }

  lemma WriteDoneFacts(s: Fs, v: Fs, i: nat, off: nat, n: nat, src: seq<Byte>, r: nat, touched: nat, why: Step)
    requires WriteDone(s, v, i, off, n, src, r, touched, why)
    ensures v.Inv() && i < |v.inodes| == |s.inodes| && r <= n && (n <= 3 * BSIZE ==> |v.dirty - s.dirty| <= 10)
    ensures v.inodes[i].size == Max(s.inodes[i].size, off + r)
    ensures v.sb == s.sb
  {
  }

  /** The readable source bytes beyond its last block boundary that fall inside the file c are what c holds there. */
  ghost predicate TailAgrees(c: seq<Byte>, off: nat, src: seq<Byte>) {
    forall p :: off + WholeBlocks(off, |src|) <= p < off + |src| && p < |c| ==> src[p - off] == c[p]
  }

  lemma WrittenAt(c: seq<Byte>, off: nat, data: seq<Byte>, z: nat, p: nat)
    requires off <= |c| && p < z <= Max(|c|, off + |data|)
    ensures p < |c| || off <= p < off + |data|
    ensures Overwritten(c, off, data)[..z][p] == if off <= p < off + |data| then data[p - off] else c[p]
  {
    OverwrittenAt(c, off, data, p);
    hide Overwritten;
  }

  /** Cut at the reported size, a write of the first touched bytes is one of the first r if and only if ... */
  lemma CutExact(c: seq<Byte>, off: nat, src: seq<Byte>, r: nat, touched: nat)
    requires off <= |c| && r <= touched <= |src|
    ensures Overwritten(c, off, src[..touched])[..Max(|c|, off + r)] == Overwritten(c, off, src[..r])
      <==> forall p :: off + r <= p < off + touched && p < |c| ==> src[p - off] == c[p]
  {
    hide Overwritten;
    var z := Max(|c|, off + r);
    var x, y := Overwritten(c, off, src[..touched])[..z], Overwritten(c, off, src[..r])[..z];
    assert y == Overwritten(c, off, src[..r]);
    forall p | 0 <= p < z
      ensures x[p] == y[p] <==> (off + r <= p < off + touched && p < |c| ==> src[p - off] == c[p])
    {
      WrittenAt(c, off, src[..touched], z, p);
      WrittenAt(c, off, src[..r], z, p);
    }
    if x == y {
      forall p | off + r <= p < off + touched && p < |c| ensures src[p - off] == c[p] {
        assert x[p] == y[p];
      }
    }
  }

  /** A disk that filled up did so beyond the file, so the source bytes beyond its last boundary are not inside it. */
  lemma FullBeyond(s: Fs, v: Fs, i: nat, off: nat, n: nat, src: seq<Byte>, r: nat, touched: nat, why: Step)
    requires WriteDone(s, v, i, off, n, src, r, touched, why) && why.DiskFull?
    requires (off + r) / BSIZE < MAXFILE && v.Slot(i, SlotOf((off + r) / BSIZE)) == 0
    ensures TailAgrees(Content(s, i), off, src)
  {
    hide Fs.Owners, Fs.Bits, Content, Overwritten, Fs.Slot;
    var bn := (off + r) / BSIZE;
    assert v.MappedTo(i, v.inodes[i].size);
    assert s.inodes[i].size <= bn * BSIZE;
    TailBlock(off, |src|, r);
  }

  lemma TailBlock(off: nat, len: nat, r: nat)
    requires r <= len
    ensures off + WholeBlocks(off, len) >= (off + r) / BSIZE * BSIZE
  {
    assert (off + r) / BSIZE <= (off + len) / BSIZE;
  }

  /**
    The file is the old one with exactly the reported bytes replaced if and only
    if the source was readable as far as needed, or its readable bytes beyond the
    last block boundary are what the file has there.
  */
  lemma WriteExact(s: Fs, v: Fs, i: nat, off: nat, n: nat, src: seq<Byte>, r: nat, touched: nat, why: Step)
    requires WriteDone(s, v, i, off, n, src, r, touched, why)
    requires why.DiskFull? ==> (off + r) / BSIZE < MAXFILE && v.Slot(i, SlotOf((off + r) / BSIZE)) == 0
    ensures Content(v, i) == Overwritten(Content(s, i), off, src[..r])
      <==> |src| >= n || TailAgrees(Content(s, i), off, src)
    ensures !why.DiskFull? ==> (r == touched <==> |src| >= n || |src| == 0 || (off + |src|) % BSIZE == 0)
  {
    hide Fs.Owners, Fs.Bits, Fs.Mapped, Content, WholeBlocks, Overwritten, Fs.Slot;
    WholeBlocksExact(off, |src|);
    CutExact(Content(s, i), off, src, r, touched);
    if why.DiskFull? { FullBeyond(s, v, i, off, n, src, r, touched, why); }
  }

  lemma WholeBlocksExact(off: nat, len: nat)
    ensures WholeBlocks(off, len) == len <==> len == 0 || (off + len) % BSIZE == 0
    ensures WholeBlocks(off, len) <= len
  {
  }

  lemma OverwrittenTwice(c: seq<Byte>, off: nat, a: seq<Byte>, b: seq<Byte>)
    requires off <= |c|
    ensures Overwritten(Overwritten(c, off, a), off + |a|, b) == Overwritten(c, off, a + b)
  {
    var l, r := Overwritten(Overwritten(c, off, a), off + |a|, b), Overwritten(c, off, a + b);
    forall p | 0 <= p < |r| ensures l[p] == r[p] {
      OverwrittenAt(c, off, a + b, p);
      OverwrittenAt(Overwritten(c, off, a), off + |a|, b, p);
      if p < Max(|c|, off + |a|) {
        OverwrittenAt(c, off, a, p);
      }
    }
  }

  /** The reported bytes are in the file, whatever else a failed copy touched. */
  lemma ReportedBytes(s: Fs, v: Fs, i: nat, off: nat, n: nat, src: seq<Byte>, r: nat, touched: nat, why: Step)
    requires WriteDone(s, v, i, off, n, src, r, touched, why)
    ensures r <= |src| && v.Inv() && i < |v.inodes| && off + r <= v.inodes[i].size <= MAXFILE * BSIZE
    ensures Content(v, i)[off..off + r] == src[..r]
  {
    hide Fs.Owners, Fs.Bits, Fs.Mapped, Content, Overwritten;
    var c, x := Content(s, i), Content(v, i)[off..off + r];
    forall q | 0 <= q < r ensures x[q] == src[q] {
      OverwrittenAt(c, off, src[..touched], off + q);
    }
  }

  lemma LoopFacts(s: Fs, v: Fs, i: nat, off: nat, n: nat, src: seq<Byte>, tot: nat, touched: nat, why: Step)
    requires LoopDone(s, v, i, off, n, src, tot, touched, why)
    ensures v.Inv() && v.sb == s.sb && i < |v.inodes| == |s.inodes| && |v.inodes| == |v.dinodes|
    ensures v.inodes[i].size == s.inodes[i].size
  {
    WroteFacts(s, v, i, off, src[..touched]);
  }

  /** Sizes and inode blocks have no bearing on the bitmap. */
  lemma MarksKept(s: Fs, t: Fs)
    requires s.Shape() && t.Shape() && t.view == s.view && t.sb == s.sb
    ensures forall c :: 0 <= c < s.sb.size ==> t.IsMarked(c) == s.IsMarked(c)
  {
  }

  lemma BlockMapped(s: Fs, i: nat, o: nat)
    requires s.Inv() && i < |s.inodes| && o < s.inodes[i].size
    ensures o / BSIZE < MAXFILE && 0 < s.Slot(i, SlotOf(o / BSIZE)) < |s.view|
  {
    hide Word, Fs.Bits;
    SizeFits(s, i);
    assert IsMapped(s, i, o);
    OwnedSlot(s, i, SlotOf(o / BSIZE));
  }

  lemma ContentByte(s: Fs, i: nat, bn: nat, q: nat)
    requires s.Inv() && i < |s.inodes| && bn * BSIZE + q < s.inodes[i].size <= MAXFILE * BSIZE && q < BSIZE
    ensures bn < MAXFILE && s.Slot(i, SlotOf(bn)) < |s.view|
    ensures Content(s, i)[bn * BSIZE + q] == s.view[s.Slot(i, SlotOf(bn))][q]
  {
    hide Fs.Owners, Fs.Bits, Fs.Mapped, Fs.Slot;
    var o := bn * BSIZE + q;
    assert o / BSIZE == bn && o % BSIZE == q;
    BlockMapped(s, i, o);
  }

  /** A run of bytes inside one block, read from that block. */
  lemma ContentChunk(s: Fs, i: nat, bn: nat, at: nat, m: nat)
    requires s.Inv() && i < |s.inodes| && bn * BSIZE + at + m <= s.inodes[i].size <= MAXFILE * BSIZE
    requires 0 < m && at + m <= BSIZE
    ensures bn < MAXFILE && s.Slot(i, SlotOf(bn)) < |s.view|
    ensures s.view[s.Slot(i, SlotOf(bn))][at..at + m] == Content(s, i)[bn * BSIZE + at..bn * BSIZE + at + m]
  {
    hide Fs.Owners, Fs.Bits, Fs.Mapped, Fs.Slot;
    ContentByte(s, i, bn, at);
    var l := s.view[s.Slot(i, SlotOf(bn))][at..at + m];
    var r := Content(s, i)[bn * BSIZE + at..bn * BSIZE + at + m];
    forall q | 0 <= q < m ensures l[q] == r[q] {
      ContentByte(s, i, bn, at + q);
    }
  }

  // ------------------------------------------------------------------- filewrite

  /** begin_op starts a new transaction: nothing else changes. */
  lemma NewTransaction(s: Fs, t: Fs)
    requires s.Inv() && t == s.(dirty := {})
    ensures t.Inv()
    ensures forall j :: 0 <= j < |s.inodes| ==>
              s.inodes[j].size <= MAXFILE * BSIZE && Content(t, j) == Content(s, j)
  {
    BookkeepingInv(s, t);
    forall j | 0 <= j < |s.inodes| ensures s.inodes[j].size <= MAXFILE * BSIZE && Content(t, j) == Content(s, j) {
      SizeFits(s, j);
      assert forall p :: 0 <= p < s.inodes[j].size ==> t.ByteAt(j, p) == s.ByteAt(j, p);
    }
  }

  /** Every file but i has the same content in s and t. */
  ghost predicate OthersSame(s: Fs, t: Fs, i: nat) {
    && s.Inv() && t.Inv() && |s.inodes| == |t.inodes|
    && (forall j :: 0 <= j < |s.inodes| && j != i ==>
          && s.inodes[j].size <= MAXFILE * BSIZE && t.inodes[j].size <= MAXFILE * BSIZE
          && Content(t, j) == Content(s, j))
  }

  lemma OthersSameTrans(s: Fs, t: Fs, u: Fs, i: nat)
    requires OthersSame(s, t, i) && OthersSame(t, u, i)
    ensures OthersSame(s, u, i)
  {
    hide Fs.Owners, Fs.Bits, Fs.Mapped, Content;
  }

  lemma FileHasStart(s: Fs, i: nat, off: nat, src: seq<Byte>)
    requires s.Inv() && i < |s.inodes| && off <= s.inodes[i].size <= MAXFILE * BSIZE
    ensures FileHas(s, i, Content(s, i), off, src, 0, 0)
  {
    OverwrittenNothing(Content(s, i), off, src[..0]);
    hide Fs.Owners, Fs.Bits, Fs.Mapped, Content, Overwritten;
  }

  lemma OverwrittenNothing(c: seq<Byte>, off: nat, data: seq<Byte>)
    requires off <= |c| && data == []
    ensures Overwritten(c, off, data)[..|c|] == c
  {
  }

  lemma Slices(src: seq<Byte>, k: nat, m: nat)
    requires k + m <= |src|
    ensures src[..k] + src[k..][..m] == src[..k + m]
  {
    assert src[k..][..m] == src[k..k + m];
  }

  /** After k accepted bytes and possibly touched more, file i is c with src written over it from off. */
  ghost predicate FileHas(s: Fs, i: nat, c: seq<Byte>, off: nat, src: seq<Byte>, k: nat, touched: nat) {
    && s.Inv() && i < |s.inodes| && s.inodes[i].size <= MAXFILE * BSIZE
    && off <= |c| && k <= touched <= |src|
    && Content(s, i) == Overwritten(c, off, src[..touched])[..Max(|c|, off + k)]
  }

  /** One chunk of filewrite on top of what earlier chunks wrote exactly. */
  lemma ChunkExtends(s: Fs, t: Fs, v: Fs, i: nat, c: seq<Byte>, off: nat, src: seq<Byte>, k: nat,
                     n1: nat, r: nat, touched: nat, why: Step)
    requires FileHas(s, i, c, off, src, k, k) && t == s.(dirty := {})
    requires WriteDone(t, v, i, off + k, n1, src[k..], r, touched, why)
    ensures FileHas(v, i, c, off, src, k + r, k + touched)
    ensures OthersSame(s, v, i)
  {
    hide Fs.Owners, Fs.Bits, Fs.Mapped, Content, Overwritten, WholeBlocks;
    NewTransaction(s, t);
    var before := Overwritten(c, off, src[..k]);
    assert before[..Max(|c|, off + k)] == before;
    assert Content(t, i) == before;
    OverwrittenTwice(c, off, src[..k], src[k..][..touched]);
    Slices(src, k, touched);
  }

  lemma FileHasBound(s: Fs, i: nat, c: seq<Byte>, off: nat, src: seq<Byte>, k: nat)
    requires FileHas(s, i, c, off, src, k, k)
    ensures off + k <= MAXFILE * BSIZE
  {
  }

  lemma FileHasKept(s: Fs, t: Fs, i: nat, c: seq<Byte>, off: nat, src: seq<Byte>, k: nat)
    requires FileHas(s, i, c, off, src, k, k) && t == s.(dirty := {})
    ensures FileHas(t, i, c, off, src, k, k)
  {
    NewTransaction(s, t);
  }

  lemma OthersSameDirty(s: Fs, t: Fs, i: nat)
    requires s.Inv() && t == s.(dirty := {})
    ensures OthersSame(s, t, i)
  {
    NewTransaction(s, t);
    hide Fs.Owners, Fs.Bits, Fs.Mapped;
  }

  lemma OthersSameRefl(s: Fs, i: nat)
    requires s.Inv()
    ensures OthersSame(s, s, i)
  {
    forall j | 0 <= j < |s.inodes| ensures s.inodes[j].size <= MAXFILE * BSIZE {
      SizeFits(s, j);
    }
  }

  lemma EndingFacts(s: Fs, v: Fs, i: nat, off: nat, n: nat, src: seq<Byte>, r: nat, touched: nat, why: Step)
    requires WriteDone(s, v, i, off, n, src, r, touched, why)
    ensures r <= touched <= n && touched <= |src| && |v.inodes| == |s.inodes|
    ensures r == n ==> touched == n
    ensures touched != r ==> |src| < n && touched == |src|
  {
    WholeBlocksExact(off, |src|);
  }
}
