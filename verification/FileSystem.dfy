/**
  fs.c from the block allocator up to readi and writei, and the chunk loop of
  file.c. Methods run with the inode lock held; bread returns view[b] and
  log_write records b in dirty (the buffer cache and the log below this level
  are modelled by BufferCache and WriteAheadLog).

  User memory is a parameter: src holds the bytes that can be read from the
  source address before the first fault, room counts the bytes that can be
  written at the destination before the first fault.
*/
module FileSystem {
  import opened Blocks
  import opened Bitmap
  import opened FsState
  import opened FileBytes
  import opened FsRecord

  const MAXOPBLOCKS := 10
  const UINT_LIMIT := WORD_LIMIT

  class FileSys {
    const sb: Super
    var view: Disk
    var inodes: seq<Inode>
    var dinodes: seq<Inode>
    ghost var dirty: set<nat>
    ghost var unlogged: set<nat>
    ghost var owner: map<nat, (nat, nat)>

    ghost function State(): Fs
      reads this
    {
      Fs(sb, view, inodes, dinodes, dirty, unlogged, owner)
    }

    ghost predicate Valid()
      reads this
    {
      State().Inv()
    }

    constructor (s: Fs)
      requires s.Inv()
      ensures State() == s
    {
      sb, view, inodes, dinodes := s.sb, s.view, s.inodes, s.dinodes;
      dirty, unlogged, owner := s.dirty, s.unlogged, s.owner;
    }

    /** balloc's inner loop: the first clear bit of the bitmap block for blocks b, b+1, ... */
    method ScanBlock(b: nat) returns (bi: nat)
      requires State().Shape() && b < sb.size && b % BPB == 0
      ensures bi <= BPB && (bi < BPB && b + bi < sb.size ==> !State().IsMarked(b + bi))
      ensures forall c :: b <= c < b + bi && c < sb.size ==> State().IsMarked(c)
    {
      Regions(sb, b, 0);
      hide BlockBit, Super.Wf;
      var bp := view[sb.BBlock(b)];
      bi := 0;
      while bi < BPB && b + bi < sb.size
        invariant 0 <= bi <= BPB
        invariant forall c :: b <= c < b + bi && c < sb.size ==> State().IsMarked(c)
      {
        assert (b + bi) / BPB == b / BPB && (b + bi) % BPB == bi;
        if !BlockBit(bp, bi) {
          return;
        }
        bi := bi + 1;
      }
    }

    /** balloc: the lowest free block, marked and zeroed; 0 when there is none. */
    method Balloc() returns (r: nat)
      requires Valid()
      modifies this`view, this`dirty
      ensures r == 0 ==> State() == old(State()) && forall c :: 0 <= c < sb.size ==> State().IsMarked(c)
      ensures r != 0 ==>
        && r < sb.size && !old(State()).IsMarked(r) && (forall c :: 0 <= c < r ==> old(State()).IsMarked(c))
        && State() == old(State()).Alloc(r)
    {
      hide BlockBit, BlockSet, Fs.Owners, Fs.Bits, Fs.Mapped, Fs.IsMarked, Super.Wf;
      ghost var s := State();
      var b := 0;
      while b < sb.size
        invariant b % BPB == 0
        invariant State() == s
        invariant forall c :: 0 <= c < b && c < sb.size ==> s.IsMarked(c)
      {
        var bi := ScanBlock(b);
        if bi < BPB && b + bi < sb.size {
          Regions(sb, b, 0);
          UnmarkedIsData(s, b + bi);
          assert (b + bi) / BPB == b / BPB && (b + bi) % BPB == bi;
          view := view[sb.BBlock(b) := BlockSet(view[sb.BBlock(b)], bi)];
          dirty := dirty + {sb.BBlock(b)};
          Bzero(b + bi);
          assert dirty == s.dirty + {sb.BBlock(b + bi), b + bi};
          assert State() == s.Alloc(b + bi);
          return b + bi;
        }
        b := b + BPB;
      }
      return 0;
    }

    method Bzero(b: nat)
      requires b < |view|
      modifies this`view, this`dirty
      ensures view == old(view)[b := ZeroBlock()] && dirty == old(dirty) + {b}
    {
      view := view[b := ZeroBlock()];
      dirty := dirty + {b};
    }

    /** bfree; false is the panic "freeing free block". */
    method Bfree(b: nat) returns (ok: bool)
      requires sb.BBlock(b) < |view|
      modifies this`view, this`dirty
      ensures ok <==> Marked(old(view), sb.bmapstart, b)
      ensures !ok ==> view == old(view) && dirty == old(dirty)
      ensures ok ==> view == Unmark(old(view), sb.bmapstart, b) && dirty == old(dirty) + {sb.BBlock(b)}
    {
      var bp := view[sb.BBlock(b)];
      var bi := b % BPB;
      if !BlockBit(bp, bi) {
        return false;
      }
      view := view[sb.BBlock(b) := BlockClear(bp, bi)];
      dirty := dirty + {sb.BBlock(b)};
      return true;
    }

    /** balloc and the store of its result in slot k of inode i; 0 when the disk is full. */
    method FillSlot(i: nat, k: nat) returns (b: nat)
      requires Valid() && Fillable(State(), i, k)
      modifies this`view, this`inodes, this`dirty, this`owner
      ensures Grew(old(State()), State())
      ensures b == 0 ==> State() == old(State()) && forall c :: 0 <= c < sb.size ==> State().IsMarked(c)
      ensures b != 0 ==> State().Slot(i, k) == b
      ensures b != 0 ==> dirty == old(dirty) + {sb.BBlock(b), b} + (if k > NDIRECT then {State().Indirect(i)} else {})
      ensures b != 0 && k != NDIRECT ==> State().Indirect(i) == old(State().Indirect(i))
      ensures Tracked(old(State()), State(), i, k, k)
    {
      hide Fs.Owners, Fs.Bits, Fs.Mapped, Fs.IsMarked, Grew, SetWord, Word, Mark, Tracked;
      ghost var s := State();
      GrewRefl(s);
      TrackedRefl(s, i, k, k);
      b := Balloc();
      if b != 0 {
        if k > NDIRECT {
          OwnedSlot(s, i, NDIRECT);
          assert s.Slot(i, NDIRECT) == s.Indirect(i);
        }
        AttachGrew(s, i, k, b);
        AttachTracked(s, i, k, b);
        AttachSlots(s, i, k, b, i, k);
        if k <= NDIRECT {
          inodes := inodes[i := inodes[i].(addrs := inodes[i].addrs[k := b])];
        } else {
          var a := inodes[i].addrs[NDIRECT];
          view := view[a := SetWord(view[a], k - NDIRECT - 1, b)];
          dirty := dirty + {a};
        }
        owner := owner[b := (i, k)];
        assert State() == s.Alloc(b).Attach(i, k, b);
      }
    }

    /** bmap: the disk block of block bn of the file, allocated on demand; 0 when the disk is full. */
    method Bmap(i: nat, bn: nat) returns (addr: nat)
      requires Valid() && i < |inodes| && bn < MAXFILE
      modifies this`view, this`inodes, this`dirty, this`owner
      ensures Grew(old(State()), State()) && State().Shape() && i < |inodes|
      ensures addr == 0 ==> forall c :: 0 <= c < sb.size ==> State().IsMarked(c)
      ensures addr == State().Slot(i, SlotOf(bn))
      ensures Tracked(old(State()), State(), i, SlotOf(bn), SlotOf(bn))
      ensures old(State().Slot(i, SlotOf(bn)) != 0) ==> State() == old(State()) && addr != 0
      ensures dirty <= old(dirty) + (if addr != 0 then {addr, sb.BBlock(addr)} else {}) + IndirectBlocks(State(), i)
    {
      hide Fs.Owners, Fs.Bits, Fs.Mapped, Fs.IsMarked, Grew, Word, Tracked;
      ghost var s, k := State(), SlotOf(bn);
      GrewRefl(s);
      TrackedRefl(s, i, k, k);
      if bn < NDIRECT {
        addr := inodes[i].addrs[bn];
        if addr == 0 {
          addr := FillSlot(i, bn);
          GrewFacts(s, State(), i, bn);
        }
        return;
      }
      if inodes[i].addrs[NDIRECT] == 0 {
        var a := FillSlot(i, NDIRECT);
        GrewFacts(s, State(), i, NDIRECT);
        IndirectTracked(s, State(), i, k);
        if a == 0 {
          return 0;
        }
      }
      ghost var t := State();
      OwnedSlot(t, i, NDIRECT);
      assert t.Slot(i, NDIRECT) == t.Indirect(i);
      addr := Word(view[inodes[i].addrs[NDIRECT]], bn - NDIRECT);
      assert addr == t.Slot(i, SlotOf(bn));
      GrewRefl(t);
      if addr == 0 {
        addr := FillSlot(i, bn + 1);
        GrewFacts(t, State(), i, bn + 1);
        TrackedTrans(s, t, State(), i, k, k);
      }
      GrewTrans(s, t, State());
    }

    /** iupdate: copy the in-memory inode to its inode block. */
    method Iupdate(i: nat)
      requires i < |inodes| == |dinodes|
      modifies this`dinodes, this`dirty
      ensures dinodes == old(dinodes)[i := inodes[i]] && dirty == old(dirty) + {sb.IBlock(i)}
    {
      dinodes := dinodes[i := inodes[i]];
      dirty := dirty + {sb.IBlock(i)};
    }

    /** One bfree of itrunc, for the block in slot m of inode i of the initial state s. */
    method FreeSlot(i: nat, b: nat, ghost s: Fs, ghost freed: set<nat>, ghost k: nat, ghost j: nat, ghost m: nat)
      requires sb == s.sb
      requires s.Inv() && i < |s.inodes| && m < SLOTS && s.Slot(i, m) == b != 0
      requires FreedSoFar(s, i, freed, k, j) && BitsCleared(s, view, freed)
      requires m >= k && !(NDIRECT < m <= NDIRECT + j)
      modifies this`view, this`dirty
      ensures BitsCleared(s, view, freed + {b})
    {
      hide Fs.Slot, Fs.Owners, Fs.Bits, Fs.Mapped, FreedSoFar, Marked, BitsCleared;
      NotYetFreed(s, i, view, freed, k, j, m);
      BfreeStep(s, view, freed, b);
      var ok := Bfree(b);
      assert ok;
    }

    /** itrunc's first loop. */
    method FreeDirect(i: nat) returns (ghost freed: set<nat>)
      requires Valid() && i < |inodes|
      modifies this`view, this`inodes, this`dirty
      ensures |inodes| == |old(inodes)| && inodes == old(inodes)[i := inodes[i]]
      ensures inodes[i].size == old(inodes[i].size) && |inodes[i].addrs| == NDIRECT + 1
      ensures forall m :: 0 <= m <= NDIRECT ==>
        inodes[i].addrs[m] == if m < NDIRECT then 0 else old(inodes[i].addrs[m])
      ensures FreedSoFar(old(State()), i, freed, NDIRECT, 0) && BitsCleared(old(State()), view, freed)
    {
      ghost var s := State();
      freed := {};
      assert BitsCleared(s, view, freed) && FreedSoFar(s, i, freed, 0, 0);
      hide Fs.Owners, Fs.Bits, Fs.Mapped, Fs.Slot, FreedSoFar, BitsCleared;
      var k := 0;
      while k < NDIRECT
        invariant 0 <= k <= NDIRECT
        invariant |inodes| == |s.inodes| && inodes == s.inodes[i := inodes[i]]
        invariant inodes[i].size == s.inodes[i].size && |inodes[i].addrs| == NDIRECT + 1
        invariant forall m :: 0 <= m <= NDIRECT ==> inodes[i].addrs[m] == if m < k then 0 else s.inodes[i].addrs[m]
        invariant FreedSoFar(s, i, freed, k, 0) && BitsCleared(s, view, freed)
      {
        DirectSlot(s, i, k);
        FreedSlot(s, i, freed, k, 0);
        if inodes[i].addrs[k] != 0 {
          FreeSlot(i, inodes[i].addrs[k], s, freed, k, 0, k);
          freed := freed + {inodes[i].addrs[k]};
          inodes := inodes[i := inodes[i].(addrs := inodes[i].addrs[k := 0])];
        }
        k := k + 1;
      }
    }

    /** itrunc's second loop, over the entries of the indirect block. */
    method FreeEntries(i: nat, ghost s: Fs, ghost freed0: set<nat>) returns (ghost freed: set<nat>)
      requires s.Inv() && sb == s.sb && i < |inodes| == |s.inodes| && |inodes[i].addrs| == NDIRECT + 1
      requires inodes[i].addrs[NDIRECT] == s.Indirect(i) != 0
      requires FreedSoFar(s, i, freed0, NDIRECT, 0) && BitsCleared(s, view, freed0)
      modifies this`view, this`dirty
      ensures FreedSoFar(s, i, freed, NDIRECT, NINDIRECT) && BitsCleared(s, view, freed)
    {
      assert s.Shape();
      hide Fs.Inv, Fs.Shape, Fs.Slot, FreedSoFar, BitsCleared, Word, Super.BBlock;
      freed := freed0;
      EntrySlot(s, i, view, freed, 0);
      ghost var view0 := view;
      var a := view[inodes[i].addrs[NDIRECT]];
      var j := 0;
      while j < NINDIRECT
        invariant 0 <= j <= NINDIRECT
        invariant FreedSoFar(s, i, freed, NDIRECT, j) && BitsCleared(s, view, freed)
      {
        var b := Word(a, j);
        EntrySlot(s, i, view0, freed0, j);
        FreedEntry(s, i, freed, j);
        if b != 0 {
          FreeSlot(i, b, s, freed, NDIRECT, j, NDIRECT + 1 + j);
          freed := freed + {b};
        }
        j := j + 1;
      }
    }

    /** The part of itrunc that an indirect block needs. */
    method FreeIndirect(i: nat, ghost s: Fs, ghost freed0: set<nat>) returns (ghost freed: set<nat>)
      requires s.Inv() && sb == s.sb && i < |inodes| == |s.inodes| && |inodes[i].addrs| == NDIRECT + 1
      requires inodes[i].addrs[NDIRECT] == s.Indirect(i) != 0
      requires FreedSoFar(s, i, freed0, NDIRECT, 0) && BitsCleared(s, view, freed0)
      modifies this`view, this`inodes, this`dirty
      ensures inodes == old(inodes)[i := old(inodes[i]).(addrs := old(inodes[i].addrs)[NDIRECT := 0])]
      ensures freed == OwnedBy(s, i) && BitsCleared(s, view, freed)
    {
      assert s.Shape();
      hide Fs.Inv, Fs.Shape, Fs.Slot, FreedSoFar, BitsCleared, OwnedBy, Super.BBlock;
      DirectSlot(s, i, NDIRECT);
      freed := FreeEntries(i, s, freed0);
      var ind := inodes[i].addrs[NDIRECT];
      FreedSlot(s, i, freed, NDIRECT, NINDIRECT);
      FreeSlot(i, ind, s, freed, NDIRECT, NINDIRECT, NDIRECT);
      freed := freed + {ind};
      inodes := inodes[i := inodes[i].(addrs := inodes[i].addrs[NDIRECT := 0])];
      AllFreed(s, i, freed, NDIRECT + 1);
    }

    /** itrunc: every block of the inode is freed, and no bfree ever meets a clear bit. */
    method Itrunc(i: nat)
      requires Valid() && i < |inodes|
      modifies this
      ensures Valid() && OnlyTruncated(old(State()), State(), i)
      ensures dinodes == old(dinodes)[i := EmptyInode()]
    {
      hide Fs.Owners, Fs.Bits, Fs.Mapped, Fs.Slot, FreedSoFar, BitsCleared, OwnedBy, OnlyTruncated, Super.Wf;
      ghost var s := State();
      DirectSlot(s, i, NDIRECT);
      ghost var freed := FreeDirect(i);
      if inodes[i].addrs[NDIRECT] != 0 {
        freed := FreeIndirect(i, s, freed);
      } else {
        NoIndirectEntries(s, i, freed);
        AllFreed(s, i, freed, NDIRECT);
      }
      inodes := inodes[i := inodes[i].(size := 0)];
      owner := owner - OwnedBy(s, i);
      assert inodes[i] == EmptyInode();
      Iupdate(i);
      TruncatedFrame(s, i, State());
      OnlyTruncatedInv(s, State(), i);
    }

    /**
      One iteration of writei's loop: block bn of the file, from byte at of the
      block, gets m bytes, of which only |bytes| can be read from the source. A
      fault leaves the bytes read so far in the cached block, unlogged.
    */
    method WriteStep(i: nat, bn: nat, at: nat, m: nat, bytes: seq<Byte>) returns (r: Step, ghost t: Fs)
      requires Valid() && i < |inodes| && bn < MAXFILE && at + m <= BSIZE && |bytes| <= m
      modifies this`view, this`inodes, this`dirty, this`owner, this`unlogged
      ensures Grew(old(State()), t) && t.Shape() && i < |t.inodes|
      ensures r.DiskFull? ==> State() == t && forall c :: 0 <= c < sb.size ==> State().IsMarked(c)
      ensures r.Done? <==> !r.DiskFull? && |bytes| == m
      ensures r.Fault? && bytes != [] ==> unlogged == old(unlogged) + {t.Slot(i, SlotOf(bn))}
      ensures !(r.Fault? && bytes != []) ==> unlogged == old(unlogged)
      ensures r.DiskFull? ==> dirty <= old(dirty) + IndirectBlocks(t, i)
      ensures !r.DiskFull? ==> Stepped(old(State()), t, State(), i, bn, at, bytes)
      ensures r.Done? ==> LoggedBlock(State(), i, bn)
      ensures r.DiskFull? ==> State().Slot(i, SlotOf(bn)) == 0
      ensures Tracked(old(State()), State(), i, SlotOf(bn), SlotOf(bn))
    {
      hide Fs.Owners, Fs.Bits, Fs.Mapped, Fs.IsMarked, Fs.Slot, Grew, Splice, IndirectBlocks, Tracked;
      ghost var s := State();
      var addr := Bmap(i, bn);
      t := State();
      GrewFacts(s, t, i, SlotOf(bn));
      if addr == 0 {
        return DiskFull, t;
      }
      OwnedSlot(t, i, SlotOf(bn));
      view := view[addr := Splice(view[addr], at, bytes)];
      if |bytes| < m {
        if bytes != [] { unlogged := unlogged + {addr}; }
        SpliceNothing(t.view[addr], at, bytes);
        StepTracked(s, t, State(), i, bn, at, bytes);
        return Fault, t;
      }
      dirty := dirty + {addr};
      StepTracked(s, t, State(), i, bn, at, bytes);
      SteppedSlot(s, t, State(), i, bn, at, bytes);
      return Done, t;
    }

    /** writei's loop; touched counts the bytes it left in the cache, tot those it reports. */
    method WriteLoop(i: nat, src: seq<Byte>, off: nat, n: nat) returns (tot: nat, ghost touched: nat, ghost why: Step)
      requires Valid() && i < |inodes| && off <= inodes[i].size && off + n <= MAXFILE * BSIZE
      modifies this`view, this`inodes, this`dirty, this`owner, this`unlogged
      ensures LoopDone(old(State()), State(), i, off, n, src, tot, touched, why)
      ensures why.DiskFull? ==>
        State().Shape() && forall c :: 0 <= c < sb.size ==> State().IsMarked(c)
      ensures Tracked(old(State()), State(), i, SlotOf(off / BSIZE), LastSlot(off, n))
      ensures why.DiskFull? ==>
        State().Shape() && (off + tot) / BSIZE < MAXFILE && State().Slot(i, SlotOf((off + tot) / BSIZE)) == 0
      ensures why.Fault? ==>
        State().Shape() && (off + tot) / BSIZE < MAXFILE
        && unlogged <= old(unlogged) + {State().Slot(i, SlotOf((off + tot) / BSIZE))}
      ensures State().Shape() && i < |inodes| && BytesLogged(State(), i, off, tot)
    {
      hide Fs.Owners, Fs.Bits, Fs.Mapped, Fs.IsMarked, Fs.Slot, Grew, Progress, Stepped, LoopDone, Position;
      hide IndirectBlocks, Tracked, BytesLogged, LoggedBlock;
      ghost var s, lo, hi := State(), SlotOf(off / BSIZE), LastSlot(off, n);
      TrackedRefl(s, i, lo, hi);
      ProgressStart(s, i, off, src);
      NoneLogged(s, i, off);
      PositionStart(off, n);
      tot, touched, why := 0, 0, Done;
      var o := off;
      ghost var a := Account({}, {}, 0, 0);
      while tot < n
        invariant 0 <= tot <= n && o == off + tot && touched == tot
        invariant Valid() && i < |inodes|
        invariant Progress(s, State(), i, off, src, tot, a) && Position(off, n, tot, a.iterations)
        invariant Tracked(s, State(), i, lo, hi) && BytesLogged(State(), i, off, tot)
      {
        ghost var u := State();
        ProgressFacts(s, u, i, off, src, tot, a);
        var bn, at := o / BSIZE, o % BSIZE;
        var m := Min(n - tot, BSIZE - at);
        var bytes := src[tot..Min(|src|, tot + m)];
        var r, t := WriteStep(i, bn, at, m, bytes);
        StepRecord(s, u, State(), i, off, n, tot);
        if r.DiskFull? {
          GrewFacts(u, t, i, 0);
          DoneByFullDisk(s, u, t, i, off, n, src, tot, a);
          why := DiskFull;
          return;
        } else if r.Fault? {
          assert bytes == src[tot..];
          DoneByFault(s, u, t, State(), i, off, n, src, tot, a, bn, at);
          SteppedSlot(u, t, State(), i, bn, at, bytes);
          touched, why := |src|, Fault;
          return;
        }
        a := ProgressNext(s, u, t, State(), i, off, src, tot, a, bn, at, m);
        PositionNext(off, n, tot, a.iterations - 1);
        ProgressFacts(s, State(), i, off, src, tot + m, a);
        LoggedFurther(State(), i, off, tot, m);
        tot := tot + m;
        o := o + m;
        touched := tot;
      }
      DoneByProgress(s, State(), i, off, n, src, tot, a);
    }

    /** writei: -1 without effect for a bad range, otherwise the number of bytes it vouches for. */
    method Writei(i: nat, src: seq<Byte>, off: nat, n: nat) returns (r: int, ghost touched: nat, ghost why: Step)
      requires Valid() && i < |inodes| && off < UINT_LIMIT && n < UINT_LIMIT
      modifies this
      ensures Valid()
      ensures r == -1 <==> old(inodes[i].size) < off || off + n >= UINT_LIMIT || off + n > MAXFILE * BSIZE
      ensures r == -1 ==> State() == old(State())
      ensures r != -1 ==> 0 <= r && WriteDone(old(State()), State(), i, off, n, src, r, touched, why)
      ensures r != -1 && why.DiskFull? ==> forall c :: 0 <= c < sb.size ==> State().IsMarked(c)
      ensures r != -1 ==>
        Tracked(old(State()), State(), i, SlotOf(off / BSIZE), LastSlot(off, n)) && sb.IBlock(i) in dirty
      ensures r != -1 && why.DiskFull? ==>
        (off + r) / BSIZE < MAXFILE && State().Slot(i, SlotOf((off + r) / BSIZE)) == 0
      ensures r != -1 && why.Fault? ==>
        (off + r) / BSIZE < MAXFILE && unlogged <= old(unlogged) + {State().Slot(i, SlotOf((off + r) / BSIZE))}
      ensures r != -1 ==> i < |inodes| && BytesLogged(State(), i, off, r)
    {
      hide Fs.Owners, Fs.Bits, Fs.Mapped, Fs.IsMarked, Fs.Slot, Fs.MappedTo, LoopDone, WriteDone, Tracked;
      hide BytesLogged;
      if off > inodes[i].size || off + n >= UINT_LIMIT {
        return -1, 0, Done;
      }
      if off + n > MAXFILE * BSIZE {
        return -1, 0, Done;
      }
      ghost var s := State();
      var tot;
      tot, touched, why := WriteLoop(i, src, off, n);
      ghost var v := State();
      LoopToWrite(s, v, i, off, n, src, tot, touched, why);
      LoopFacts(s, v, i, off, n, src, tot, touched, why);
      if off + tot > inodes[i].size {
        inodes := inodes[i := inodes[i].(size := off + tot)];
      }
      Iupdate(i);
      assert State() == Updated(v, i, Max(s.inodes[i].size, off + tot));
      WriteDoneFacts(s, State(), i, off, n, src, tot, touched, why);
      MarksKept(v, State());
      UpdateTracked(s, v, State(), i, SlotOf(off / BSIZE), LastSlot(off, n));
      LoggedUpdated(v, State(), i, off, tot);
      return tot, touched, why;
    }

    /** readi: the bytes off.. of the file, as many as asked for and there are; -1 when the destination faults. */
    method Readi(i: nat, off: nat, n: nat, room: nat) returns (r: int, bytes: seq<Byte>)
      requires Valid() && i < |inodes| && off < UINT_LIMIT && n < UINT_LIMIT
      modifies this
      ensures State() == old(State())
      ensures off > inodes[i].size || off + n >= UINT_LIMIT ==> r == 0 && bytes == []
      ensures off <= inodes[i].size && off + n < UINT_LIMIT ==>
        var k := Min(n, inodes[i].size - off);
        && r == (if k <= room then k else -1)
        && (k <= room ==> bytes == Content(State(), i)[off..off + k])
    {
      hide Fs.Owners, Fs.Bits, Fs.Mapped, Fs.IsMarked, Fs.Slot, Fs.MappedTo, Grew, IndirectBlocks, Content;
      bytes := [];
      if off > inodes[i].size || off + n >= UINT_LIMIT {
        return 0, [];
      }
      var k := n;
      if off + n > inodes[i].size {
        k := inodes[i].size - off;
      }
      ghost var s := State();
      SizeFits(s, i);
      var tot := 0;
      while tot < k
        invariant 0 <= tot <= k && tot <= room
        invariant State() == s
        invariant bytes == Content(s, i)[off..off + tot]
      {
        var o := off + tot;
        var bn, at := o / BSIZE, o % BSIZE;
        BlockMapped(s, i, o);
        var addr := Bmap(i, bn);
        var m := Min(k - tot, BSIZE - at);
        if tot + m > room {
          return -1, bytes;
        }
        ContentChunk(s, i, bn, at, m);
        bytes := bytes + view[addr][at..at + m];
        assert bytes == Content(s, i)[off..off + tot + m];
        tot := tot + m;
      }
      return tot, bytes;
    }

    /** A readi of the bytes a writei reported returns them, however the writei ended. */
    method WriteThenRead(i: nat, src: seq<Byte>, off: nat, n: nat) returns (r: int, k: int, bytes: seq<Byte>)
      requires Valid() && i < |inodes| && off < UINT_LIMIT && n < UINT_LIMIT
      modifies this
      ensures Valid()
      ensures r == -1 <==> old(inodes[i].size) < off || off + n >= UINT_LIMIT || off + n > MAXFILE * BSIZE
      ensures r != -1 ==> 0 <= r <= |src| && k == r && bytes == src[..r]
    {
      hide Fs.Owners, Fs.Bits, Fs.Mapped, Fs.Slot, Fs.IsMarked, WriteDone, Tracked, Content;
      ghost var s, touched, why := State(), 0, Done;
      r, touched, why := Writei(i, src, off, n);
      k, bytes := -1, [];
      if r != -1 {
        ReportedBytes(s, State(), i, off, n, src, r, touched, why);
        k, bytes := Readi(i, off, r, r);
      }
    }

    /** One transaction of filewrite: begin_op, ilock, writei, iunlock, end_op. */
    method WriteTransaction(i: nat, src: seq<Byte>, off: nat, n: nat)
      returns (r: int, ghost touched: nat, ghost why: Step)
      requires Valid() && i < |inodes| && off < UINT_LIMIT && n <= 3 * BSIZE
      modifies this
      ensures Valid() && |inodes| == |old(inodes)|
      ensures r == -1 ==> State() == old(State()).(dirty := {})
      ensures r != -1 ==> 0 <= r && WriteDone(old(State()).(dirty := {}), State(), i, off, n, src, r, touched, why)
      ensures |dirty| <= MAXOPBLOCKS
      ensures r == -1 <==> old(inodes[i].size) < off || off + n >= UINT_LIMIT || off + n > MAXFILE * BSIZE
      ensures r != -1 ==>
        && Tracked(old(State()).(dirty := {}), State(), i, SlotOf(off / BSIZE), LastSlot(off, n))
        && sb.IBlock(i) in dirty
      ensures r != -1 && why.DiskFull? ==>
        && (forall c :: 0 <= c < sb.size ==> State().IsMarked(c))
        && (off + r) / BSIZE < MAXFILE && State().Slot(i, SlotOf((off + r) / BSIZE)) == 0
      ensures r != -1 && why.Fault? ==>
        (off + r) / BSIZE < MAXFILE && unlogged <= old(unlogged) + {State().Slot(i, SlotOf((off + r) / BSIZE))}
      ensures r != -1 ==> BytesLogged(State(), i, off, r)
    {
      hide Fs.Owners, Fs.Bits, Fs.Mapped, WriteDone, Tracked, Fs.Slot, Fs.IsMarked, BytesLogged;
      NewTransaction(State(), State().(dirty := {}));
      dirty := {};
      ghost var t := State();
      r, touched, why := Writei(i, src, off, n);
      if r != -1 {
        WriteDoneFacts(t, State(), i, off, n, src, r, touched, why);
        assert dirty - {} == dirty;
      }
    }

    /**
      filewrite on an inode file at offset off: chunks of at most three blocks,
      each in a transaction of its own. txns lists what each transaction logged.
    */
    method Filewrite(i: nat, off: nat, src: seq<Byte>, n: int)
      returns (ret: int, off': nat, ghost touched: nat, ghost txns: seq<set<nat>>)
      requires Valid() && i < |inodes| && off < UINT_LIMIT && n < UINT_LIMIT
      modifies this
      ensures Valid() && |inodes| == |old(inodes)|
      ensures forall k :: 0 <= k < |txns| ==> |txns[k]| <= MAXOPBLOCKS
      ensures off <= off' && ret == if off' == off + n then n else -1
      ensures off <= old(inodes[i].size) ==>
        FileHas(State(), i, old(Content(State(), i)), off, src, off' - off, touched)
      ensures old(inodes[i].size) < off ==> off' == off && State().(dirty := {}) == old(State()).(dirty := {})
      ensures touched != off' - off ==> |src| < n && touched == |src|
      ensures OthersSame(old(State()), State(), i)
    {
      hide Fs.Owners, Fs.Bits, Fs.Mapped, Content, FileHas, WriteDone, OthersSame, Tracked;
      hide Fs.Slot, Fs.IsMarked, LastSlot;
      var max := (MAXOPBLOCKS - 1 - 1 - 2) / 2 * BSIZE;
      ghost var s0 := State();
      SizeFits(s0, i);
      ghost var c := Content(s0, i);
      OthersSameRefl(s0, i);
      if off <= |c| {
        FileHasStart(s0, i, off, src);
      }
      var k := 0;
      off', txns, touched := off, [], 0;
      while k < n
        invariant 0 <= k && (k <= n || k == 0) && off' == off + k && touched == k && k <= |src|
        invariant Valid() && |inodes| == |s0.inodes|
        invariant forall m :: 0 <= m < |txns| ==> |txns[m]| <= MAXOPBLOCKS
        invariant off <= |c| ==> FileHas(State(), i, c, off, src, k, k)
        invariant |c| < off ==> State() == s0 && k == 0
        invariant OthersSame(s0, State(), i)
      {
        var n1 := n - k;
        if n1 > max {
          n1 := max;
        }
        ghost var s := State();
        if off <= |c| {
          FileHasBound(s, i, c, off, src, k);
        }
        var r, more, why := WriteTransaction(i, src[k..], off', n1);
        txns := txns + [dirty];
        if r == -1 {
          if off <= |c| {
            FileHasKept(s, State(), i, c, off, src, k);
          }
          OthersSameDirty(s, State(), i);
          OthersSameTrans(s0, s, State(), i);
          break;
        }
        ChunkExtends(s, s.(dirty := {}), State(), i, c, off, src, k, n1, r, more, why);
        EndingFacts(s.(dirty := {}), State(), i, off', n1, src[k..], r, more, why);
        OthersSameTrans(s0, s, State(), i);
        off' := off' + r;
        touched := k + more;
        if r != n1 {
          break;
        }
        k := k + r;
      }
      ret := if off' == off + n then n else -1;
    }
  }

  /** An iteration's store does not move the block it stores to. */
  lemma SteppedSlot(u: Fs, t: Fs, v: Fs, i: nat, bn: nat, at: nat, bytes: seq<Byte>)
    requires Stepped(u, t, v, i, bn, at, bytes)
    ensures v.Shape() && i < |v.inodes| && bn < MAXFILE && v.Slot(i, SlotOf(bn)) == t.Slot(i, SlotOf(bn))
  {
    GrewFacts(u, t, i, 0);
    hide Grew, NewBlocks;
    var b := t.Slot(i, SlotOf(bn));
    StoreSlots(t, i, SlotOf(bn), Splice(t.view[b], at, bytes), i, SlotOf(bn));
    assert v.Slot(i, SlotOf(bn)) == t.Store(b, Splice(t.view[b], at, bytes)).Slot(i, SlotOf(bn));
  }

  /** The last slot a write of n bytes at off reaches. */
  function LastSlot(off: nat, n: nat): nat {
    if n == 0 then SlotOf(off / BSIZE) else SlotOf((off + n - 1) / BSIZE)
  }

  lemma SlotInRange(off: nat, n: nat, tot: nat)
    requires tot < n
    ensures SlotOf(off / BSIZE) <= SlotOf((off + tot) / BSIZE) <= LastSlot(off, n)
  {
    assert off / BSIZE <= (off + tot) / BSIZE <= (off + n - 1) / BSIZE;
  }

  lemma IndirectTracked(s: Fs, t: Fs, i: nat, k: nat)
    requires Tracked(s, t, i, NDIRECT, NDIRECT)
    ensures Tracked(s, t, i, k, k)
  {
    hide Fs.Slot, Fs.Shape;
  }

  lemma SpliceNothing(data: Block, at: nat, bytes: seq<Byte>)
    requires at + |bytes| <= BSIZE
    ensures bytes == [] ==> Splice(data, at, bytes) == data
  {
  }

  /** An iteration's store, after bmap. */
  lemma StepTracked(s: Fs, t: Fs, v: Fs, i: nat, bn: nat, at: nat, bytes: seq<Byte>)
    requires t.Inv() && i < |t.inodes| && bn < MAXFILE && at + |bytes| <= BSIZE
    requires var k := SlotOf(bn); Tracked(s, t, i, k, k) && 0 < t.Slot(i, k) < |t.view|
    requires var b := t.Slot(i, SlotOf(bn));
      && v == t.(view := t.view[b := Splice(t.view[b], at, bytes)], dirty := v.dirty, unlogged := v.unlogged)
      && t.dirty <= v.dirty <= t.dirty + {b} && t.unlogged <= v.unlogged <= t.unlogged + {b}
      && (b in v.dirty || b in v.unlogged || Splice(t.view[b], at, bytes) == t.view[b])
    ensures Tracked(s, v, i, SlotOf(bn), SlotOf(bn))
  {
    var k := SlotOf(bn);
    var b := t.Slot(i, k);
    var w := t.Store(b, Splice(t.view[b], at, bytes));
    OwnedSlot(t, i, k);
    assert b in t.owner && t.owner[b] == (i, k) && k != NDIRECT;
    StoreSteadySlots(t, w, i, k, Splice(t.view[b], at, bytes));
    hide Tracked, Fs.Owners, Fs.Bits, Fs.Mapped, Splice;
    forall j, m | 0 <= j < |t.inodes| && 0 <= m < SLOTS ensures v.Slot(j, m) == t.Slot(j, m) {
      assert v.Slot(j, m) == w.Slot(j, m);
    }
    hide Fs.Slot;
    StoreTracked(t, v, i, b, k, k);
    TrackedTrans(s, t, v, i, k, k);
  }

  lemma StoreSteadySlots(t: Fs, w: Fs, i: nat, k: nat, data: Block)
    requires t.Inv() && i < |t.inodes| && k < SLOTS && k != NDIRECT && 0 < t.Slot(i, k) < |t.view|
    requires w == t.Store(t.Slot(i, k), data)
    ensures w.Shape() && forall j, m :: 0 <= j < |t.inodes| && 0 <= m < SLOTS ==> w.Slot(j, m) == t.Slot(j, m)
  {
    forall j, m | 0 <= j < |t.inodes| && 0 <= m < SLOTS ensures w.Slot(j, m) == t.Slot(j, m) {
      StoreSlots(t, i, k, data, j, m);
    }
  }

  /** An iteration at off + tot, after the ones before it. */
  lemma StepRecord(s: Fs, u: Fs, v: Fs, i: nat, off: nat, n: nat, tot: nat)
    requires Tracked(s, u, i, SlotOf(off / BSIZE), LastSlot(off, n)) && tot < n
    requires var k := SlotOf((off + tot) / BSIZE); Tracked(u, v, i, k, k)
    requires u.Shape() && i < |u.inodes| && BytesLogged(u, i, off, tot)
    ensures Tracked(s, v, i, SlotOf(off / BSIZE), LastSlot(off, n))
    ensures v.Shape() && i < |v.inodes| && BytesLogged(v, i, off, tot)
  {
    hide BytesLogged, Fs.Shape, LastSlot;
    var lo, hi, k := SlotOf(off / BSIZE), LastSlot(off, n), SlotOf((off + tot) / BSIZE);
    SlotInRange(off, n, tot);
    TrackedFacts(u, v, i, k, k);
    hide Tracked;
    TrackedWiden(u, v, i, k, k, lo, hi);
    TrackedTrans(s, u, v, i, lo, hi);
    LoggedKept(u, v, i, lo, hi, off, tot);
  }

  lemma NoneLogged(s: Fs, i: nat, off: nat)
    requires s.Inv() && i < |s.inodes|
    ensures BytesLogged(s, i, off, 0)
  {
  }

  /** iupdate moves no block. */
  lemma LoggedUpdated(v: Fs, w: Fs, i: nat, off: nat, len: nat)
    requires v.Shape() && w.Shape() && i < |v.inodes| == |w.inodes| && v.dirty <= w.dirty
    requires BytesLogged(v, i, off, len) && forall k :: 0 <= k < SLOTS ==> w.Slot(i, k) == v.Slot(i, k)
    ensures BytesLogged(w, i, off, len)
  {
    hide Fs.Slot, Fs.Shape;
    forall p | off <= p < off + len ensures LoggedBlock(w, i, p / BSIZE) {
      assert LoggedBlock(v, i, p / BSIZE);
    }
  }

  lemma UpdateTracked(s: Fs, v: Fs, w: Fs, i: nat, lo: nat, hi: nat)
    requires v.Inv() && Tracked(s, v, i, lo, hi) && i < |v.inodes| == |v.dinodes|
    requires |w.inodes| == |w.dinodes| == |v.inodes| && v.dirty <= w.dirty <= v.dirty + {v.sb.IBlock(i)}
    requires w == v.(inodes := w.inodes, dinodes := w.dinodes, dirty := w.dirty)
    requires w.inodes == v.inodes[i := v.inodes[i].(size := w.inodes[i].size)]
    ensures Tracked(s, w, i, lo, hi)
    ensures v.Shape() && w.Shape() && forall k :: 0 <= k < SLOTS ==> w.Slot(i, k) == v.Slot(i, k)
  {
    TrackedFacts(s, v, i, lo, hi);
    BookkeepingTracked(v, w, i, lo, hi);
    TrackedFacts(v, w, i, lo, hi);
    assert forall k :: 0 <= k < SLOTS ==> w.Slot(i, k) == v.Slot(i, k);
    hide Tracked;
    TrackedTrans(s, v, w, i, lo, hi);
  }
}
