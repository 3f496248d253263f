/**
  What the file system keeps a record of while it writes: every block it changes is
  passed to log_write, or is a data block left behind by a failed copy, and new
  slots appear only in the inode and range being written.
*/
module FsRecord {
  import opened Blocks
  import opened Bitmap
  import opened FsState

  /** From s to t only slots lo..hi of inode i, and its indirect block, were added, and every change is on record. */
  ghost predicate Tracked(s: Fs, t: Fs, i: nat, lo: nat, hi: nat) {
    && s.Shape() && t.Shape() && t.sb == s.sb && |t.inodes| == |s.inodes| && |t.view| == |s.view|
    && ChangesOn(s, t) && SlotsWithin(s, t, i, lo, hi) && LeftBehind(s, t, i) && LoggedHome(s, t)
  }

  /** What was logged is inode, bitmap or data blocks. */
  ghost predicate LoggedHome(s: Fs, t: Fs) {
    forall b :: b in t.dirty && b !in s.dirty ==> s.sb.inodestart <= b < s.sb.size
  }

  /** Changed blocks are in dirty or in unlogged. */
  ghost predicate ChangesOn(s: Fs, t: Fs)
    requires |t.view| == |s.view|
  {
    && s.dirty <= t.dirty && s.unlogged <= t.unlogged
    && (forall b :: 0 <= b < |s.view| && t.view[b] != s.view[b] ==> b in t.dirty || b in t.unlogged)
  }

  ghost predicate SlotsWithin(s: Fs, t: Fs, i: nat, lo: nat, hi: nat)
    requires s.Shape() && t.Shape() && |t.inodes| == |s.inodes|
  {
    && (forall j, k :: 0 <= j < |s.inodes| && 0 <= k < SLOTS && t.Slot(j, k) != s.Slot(j, k) ==>
          j == i && s.Slot(j, k) == 0 && (k == NDIRECT || lo <= k <= hi))
    && (forall j :: 0 <= j < |s.inodes| && j != i ==> t.inodes[j] == s.inodes[j])
  }

  /** Owned blocks stay owned, new ones are logged, and only blocks of inode i are newly logged or left unlogged. */
  ghost predicate LeftBehind(s: Fs, t: Fs, i: nat) {
    && (forall b :: b in s.owner ==> b in t.owner && t.owner[b] == s.owner[b])
    && (forall b :: b in t.owner && b !in s.owner ==> b in t.dirty)
    && (forall b :: b in t.dirty && b !in s.dirty && b in s.owner ==> s.owner[b].0 == i)
    && (forall b :: b in t.unlogged && b !in s.unlogged ==>
          b in t.owner && t.owner[b].0 == i && t.owner[b].1 != NDIRECT)
  }

  lemma TrackedRefl(s: Fs, i: nat, lo: nat, hi: nat)
    requires s.Shape()
    ensures Tracked(s, s, i, lo, hi)
  {
  }

  lemma TrackedTrans(s: Fs, t: Fs, u: Fs, i: nat, lo: nat, hi: nat)
    requires Tracked(s, t, i, lo, hi) && Tracked(t, u, i, lo, hi)
    ensures Tracked(s, u, i, lo, hi)
  {
    hide Fs.Slot, Fs.Shape;
    forall b | 0 <= b < |s.view| && u.view[b] != s.view[b] ensures b in u.dirty || b in u.unlogged {
      assert t.view[b] != s.view[b] || u.view[b] != t.view[b];
    }
    forall j, k | 0 <= j < |s.inodes| && 0 <= k < SLOTS && u.Slot(j, k) != s.Slot(j, k)
      ensures j == i && s.Slot(j, k) == 0 && (k == NDIRECT || lo <= k <= hi)
    {
      assert t.Slot(j, k) != s.Slot(j, k) || u.Slot(j, k) != t.Slot(j, k);
    }
  }

  lemma TrackedWiden(s: Fs, t: Fs, i: nat, lo: nat, hi: nat, lo': nat, hi': nat)
    requires Tracked(s, t, i, lo, hi) && lo' <= lo && hi <= hi'
    ensures Tracked(s, t, i, lo', hi')
  {
    hide Fs.Slot, Fs.Shape;
  }

  /** The blocks of bytes off .. off + len - 1 of inode i were passed to log_write. */
  ghost predicate BytesLogged(t: Fs, i: nat, off: nat, len: nat)
    requires t.Shape() && i < |t.inodes|
  {
    forall p :: off <= p < off + len ==> LoggedBlock(t, i, p / BSIZE)
  }

  predicate LoggedBlock(t: Fs, i: nat, bn: nat)
    requires t.Shape() && i < |t.inodes|
  {
    bn < MAXFILE && t.Slot(i, SlotOf(bn)) != 0 && t.Slot(i, SlotOf(bn)) in t.dirty
  }

  /** What was logged stays logged. */
  lemma LoggedKept(s: Fs, t: Fs, i: nat, lo: nat, hi: nat, off: nat, len: nat)
    requires Tracked(s, t, i, lo, hi) && i < |s.inodes| && BytesLogged(s, i, off, len)
    ensures BytesLogged(t, i, off, len)
  {
    hide Fs.Slot, Fs.Shape;
    forall p | off <= p < off + len ensures LoggedBlock(t, i, p / BSIZE) {
      assert LoggedBlock(s, i, p / BSIZE);
    }
  }

  /** One more block's bytes. */
  lemma LoggedFurther(t: Fs, i: nat, off: nat, len: nat, m: nat)
    requires t.Shape() && i < |t.inodes| && BytesLogged(t, i, off, len) && (off + len) % BSIZE + m <= BSIZE
    requires LoggedBlock(t, i, (off + len) / BSIZE)
    ensures BytesLogged(t, i, off, len + m)
  {
    hide Fs.Slot, Fs.Shape, LoggedBlock;
    forall p | off <= p < off + len + m ensures LoggedBlock(t, i, p / BSIZE) {
      if p >= off + len { assert p / BSIZE == (off + len) / BSIZE; }
    }
  }

  lemma TrackedFacts(s: Fs, t: Fs, i: nat, lo: nat, hi: nat)
    requires Tracked(s, t, i, lo, hi)
    ensures s.Shape() && t.Shape() && t.sb == s.sb && |t.inodes| == |s.inodes|
    ensures s.dirty <= t.dirty && s.unlogged <= t.unlogged
  {
  }

  /** balloc and the store of its block in slot k. */
  lemma AttachTracked(s: Fs, i: nat, k: nat, b: nat)
    requires s.Inv() && Fillable(s, i, k) && 0 < b < s.sb.size && !s.IsMarked(b)
    ensures k > NDIRECT ==> s.Indirect(i) < |s.view|
    ensures Tracked(s, s.Alloc(b).Attach(i, k, b), i, k, k)
  {
    AttachHome(s, i, k, b);
    AttachChanges(s, i, k, b);
    AttachWithin(s, i, k, b);
    AttachLeft(s, i, k, b);
    hide ChangesOn, SlotsWithin, LeftBehind, LoggedHome, Fs.Inv, Super.Wf, Mark, SetWord;
  }

  lemma AttachHome(s: Fs, i: nat, k: nat, b: nat)
    requires s.Inv() && Fillable(s, i, k) && b < s.sb.size && !s.IsMarked(b)
    ensures k > NDIRECT ==> s.Indirect(i) < |s.view|
    ensures LoggedHome(s, s.Alloc(b).Attach(i, k, b))
  {
    Regions(s.sb, b, i);
    UnmarkedIsData(s, b);
    if k > NDIRECT { OwnedSlot(s, i, NDIRECT); }
    hide BlockSet, SetWord, ZeroBlock, Fs.Owners, Fs.Bits, Fs.Mapped, Marked, Mark;
  }

  lemma AttachWithin(s: Fs, i: nat, k: nat, b: nat)
    requires s.Inv() && Fillable(s, i, k) && 0 < b < s.sb.size && !s.IsMarked(b)
    ensures k > NDIRECT ==> s.Indirect(i) < |s.view|
    ensures var t := s.Alloc(b).Attach(i, k, b);
      && s.Shape() && t.Shape() && |t.inodes| == |s.inodes| && SlotsWithin(s, t, i, k, k)
  {
    hide Fs.Slot, Fs.IsMarked, Fs.Inv, Super.Wf, Mark, SetWord, Fillable;
    FreeSlotFacts(s, i, k, b);
    AttachSlots(s, i, k, b, i, k);
    var t := s.Alloc(b).Attach(i, k, b);
    forall j, m | 0 <= j < |s.inodes| && 0 <= m < SLOTS
      ensures t.Slot(j, m) == if (j, m) == (i, k) then b else s.Slot(j, m)
    {
      AttachSlots(s, i, k, b, j, m);
    }
  }

  lemma AttachLeft(s: Fs, i: nat, k: nat, b: nat)
    requires s.Inv() && Fillable(s, i, k) && b < s.sb.size && !s.IsMarked(b)
    requires (k > NDIRECT ==> s.Indirect(i) < |s.view|)
    ensures LeftBehind(s, s.Alloc(b).Attach(i, k, b), i)
  {
    FreeSlotFacts(s, i, k, b);
    MetaUnowned(s, b, i);
    if k > NDIRECT { IndirectOwned(s, i, k); }
    hide Fs.Slot, Fs.IsMarked, Fs.Inv, Super.Wf, Mark, SetWord;
  }

  /** Bitmap and inode blocks have no owner. */
  lemma MetaUnowned(s: Fs, b: nat, i: nat)
    requires s.Inv() && b < s.sb.size && i < |s.inodes|
    ensures s.sb.BBlock(b) !in s.owner && s.sb.IBlock(i) !in s.owner
  {
    Regions(s.sb, b, i);
    hide Fs.Bits, Fs.Mapped, Fs.Exclusive;
  }

  lemma IndirectOwned(s: Fs, i: nat, k: nat)
    requires s.Inv() && Fillable(s, i, k) && k > NDIRECT
    ensures s.Indirect(i) in s.owner && s.owner[s.Indirect(i)].0 == i
  {
    OwnedSlot(s, i, NDIRECT);
    hide Fs.Bits, Fs.Mapped;
  }

  lemma FreeSlotFacts(s: Fs, i: nat, k: nat, b: nat)
    requires s.Inv() && Fillable(s, i, k) && b < s.sb.size && !s.IsMarked(b)
    ensures s.Shape() && i < |s.inodes| && k < SLOTS && s.Slot(i, k) == 0 && b !in s.owner
  {
    hide Fs.Owners, Fs.Mapped, Marked;
  }

  lemma AttachChanges(s: Fs, i: nat, k: nat, b: nat)
    requires s.Inv() && Fillable(s, i, k) && b < s.sb.size
    ensures k > NDIRECT ==> s.Indirect(i) < |s.view|
    ensures |s.Alloc(b).Attach(i, k, b).view| == |s.view| && ChangesOn(s, s.Alloc(b).Attach(i, k, b))
  {
    if k > NDIRECT { OwnedSlot(s, i, NDIRECT); }
    hide BlockSet, SetWord, ZeroBlock, Fs.Inv;
  }

  /** A store into block b, which is logged or left behind. */
  lemma StoreTracked(s: Fs, t: Fs, i: nat, b: nat, lo: nat, hi: nat)
    requires s.Shape() && t.Shape() && |t.inodes| == |s.inodes| && b < |s.view|
    requires t == s.(view := t.view, dirty := t.dirty, unlogged := t.unlogged) && |t.view| == |s.view|
    requires t.view == s.view[b := t.view[b]]
    requires s.dirty <= t.dirty <= s.dirty + {b} && s.unlogged <= t.unlogged <= s.unlogged + {b}
    requires s.sb.inodestart <= b < s.sb.size
    requires b in t.dirty || b in t.unlogged || t.view == s.view
    requires b in s.owner && s.owner[b].0 == i && s.owner[b].1 != NDIRECT
    requires forall j, k :: 0 <= j < |s.inodes| && 0 <= k < SLOTS ==> t.Slot(j, k) == s.Slot(j, k)
    ensures Tracked(s, t, i, lo, hi)
  {
    hide Fs.Slot;
  }

  /** iupdate and a new size. */
  lemma BookkeepingTracked(s: Fs, t: Fs, i: nat, lo: nat, hi: nat)
    requires s.Inv() && i < |s.inodes|
    requires |t.inodes| == |t.dinodes| == |s.inodes| && s.dirty <= t.dirty <= s.dirty + {s.sb.IBlock(i)}
    requires t == s.(inodes := t.inodes, dinodes := t.dinodes, dirty := t.dirty)
    requires t.inodes == s.inodes[i := s.inodes[i].(size := t.inodes[i].size)]
    ensures Tracked(s, t, i, lo, hi)
  {
    Regions(s.sb, 0, i);
    MetaUnowned(s, 0, i);
    hide Fs.Owners, Fs.Bits, Fs.Mapped;
    forall j, k | 0 <= j < |s.inodes| && 0 <= k < SLOTS ensures t.Slot(j, k) == s.Slot(j, k) {
    }
  }
}
