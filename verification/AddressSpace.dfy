module AddressSpace {
  // Copying an address space: what uvmcopy builds page by page in the child's tree
  // while the parent's tree and frames stay as they are.

  import opened Blocks
  import opened PageTable

  /** Virtual page w of tree t2 has the flags and the bytes of page w of tree t1, in a frame of its own. */
  ghost predicate PageCopied(m0: Mem, t1: Tree, m: Mem, t2: Tree, w: nat) {
    var src, dst := Entry(m0, t1, w), Entry(m, t2, w);
    && V(dst) && Flags(dst) == Flags(src)
    && Ppn(src) in m0.frames && Ppn(dst) in m.frames && Ppn(dst) !in m0.frames
    && m.frames[Ppn(dst)] == m0.frames[Ppn(src)]
  }

  /** The two trees as they were are intact, and t grew into t2. */
  ghost predicate TreesKept(m0: Mem, t1: Tree, t: Tree, m: Mem, t2: Tree) {
    && m0.Parted() && m.Parted() && m.Pages() == m0.Pages()
    && TreeOk(m0, t1) && TreeOk(m0, t) && TreeOk(m, t1) && TreeOk(m, t2) && Extends(t, t2)
    && t1.TablePages() !! t2.TablePages()
    && m.tables.Keys == m0.tables.Keys + t2.TablePages()
    && (forall p :: p in m0.tables && p !in t2.TablePages() ==> m.tables[p] == m0.tables[p])
    && (forall p :: p in t2.TablePages() && p in m0.tables ==> p in t.TablePages())
    && SameEntries(m0, t1, m, t1)
  }

  /** The first n pages are copied; the frames of m are those of m0 and the n new ones. */
  ghost predicate PagesCopied(m0: Mem, t1: Tree, t: Tree, m: Mem, t2: Tree, n: nat) {
    && (forall w :: 0 <= w < n ==> PageCopied(m0, t1, m, t2, w))
    && (forall w: nat :: w >= n ==> Entry(m, t2, w) == Entry(m0, t, w))
    && (forall w, x :: 0 <= w < x < n ==> Ppn(Entry(m, t2, w)) != Ppn(Entry(m, t2, x)))
    && (forall p :: p in m0.frames ==> p in m.frames && m.frames[p] == m0.frames[p])
    && m.frames.Keys == m0.frames.Keys + FramesOf(m, t2, 0, n)
  }

  ghost predicate Copying(m0: Mem, t1: Tree, t: Tree, m: Mem, t2: Tree, n: nat) {
    TreesKept(m0, t1, t, m, t2) && PagesCopied(m0, t1, t, m, t2, n)
  }

  lemma CopyingStart(m: Mem, t1: Tree, t: Tree)
    requires m.Parted() && TreeOk(m, t1) && TreeOk(m, t) && t1.TablePages() !! t.TablePages()
    ensures Copying(m, t1, t, m, t, 0)
  {
    TreePagesInTables(m, t);
    assert FramesOf(m, t, 0, 0) == {};
  }

  lemma CopyingFacts(m0: Mem, t1: Tree, t: Tree, m: Mem, t2: Tree, n: nat)
    requires Copying(m0, t1, t, m, t2, n)
    ensures m.Parted() && TreeOk(m, t1) && TreeOk(m, t2) && t2.root == t.root
    ensures forall w: nat :: Entry(m, t1, w) == Entry(m0, t1, w)
    ensures forall w: nat :: w >= n ==> Entry(m, t2, w) == Entry(m0, t, w)
    ensures forall p :: p in m0.frames ==> p in m.frames && m.frames[p] == m0.frames[p]
  {
  }

  lemma CopyingUnaliased(m0: Mem, t1: Tree, t: Tree, m: Mem, t2: Tree, n: nat)
    requires Copying(m0, t1, t, m, t2, n)
    ensures Unaliased(m, t2, 0, n)
  {
    hide Entry, TreesKept;
    forall w | 0 <= w < n ensures Ppn(Entry(m, t2, w)) in m.frames {
      assert PageCopied(m0, t1, m, t2, w);
    }
  }

  /** A new frame is invisible to trees. */
  lemma NewFrameTree(m: Mem, t: Tree, data: seq<Byte>)
    requires m.free != [] && TreeOk(m, t)
    ensures TreeOk(m.NewFrame(data), t) && SameEntries(m, t, m.NewFrame(data), t)
  {
    TreePagesInTables(m, t);
    TreeFrame(m, m.NewFrame(data), t);
  }

  /** An operation on tree t2 is invisible to a disjoint tree t1, and keeps them disjoint. */
  lemma GrownOther(m: Mem, t2: Tree, m2: Mem, t3: Tree, t1: Tree)
    requires Grown(m, t2, m2, t3) && TreeOk(m, t1) && t1.TablePages() !! t2.TablePages()
    ensures TreeOk(m2, t1) && SameEntries(m, t1, m2, t1) && t1.TablePages() !! t3.TablePages()
  {
    TreePagesInTables(m, t1);
    hide TreeOk, Entry;
    forall p | p in t1.TablePages() ensures p in m.tables && p in m2.tables && m2.tables[p] == m.tables[p] {
    }
    TreeFrame(m, m2, t1);
    forall p | p in t1.TablePages() ensures p !in t3.TablePages() {
      assert p !in m.FreeSet();
    }
  }

  /** The set of table pages only grows by the tree's own pages. */
  lemma GrownTables(m: Mem, t2: Tree, m2: Mem, t3: Tree)
    requires Grown(m, t2, m2, t3)
    ensures m2.tables.Keys == m.tables.Keys + t3.TablePages()
  {
    TreePagesInTables(m2, t3);
    TreePagesInTables(m, t2);
    hide TreeOk;
    forall p | p in m2.tables ensures p in m.tables || p in t3.TablePages() {
      assert p in m.Pages();
      if p !in m.tables {
        assert p in m.FreeSet() - m2.FreeSet();
      }
    }
    forall p | p in m.tables ensures p in m2.tables {
      if p in t2.TablePages() {
        assert p in t3.TablePages();
      }
    }
  }

  lemma GrownPages(m: Mem, t2: Tree, m2: Mem, t3: Tree)
    requires Grown(m, t2, m2, t3)
    ensures t2.TablePages() <= t3.TablePages()
    ensures forall p :: p in m.tables && p !in t3.TablePages() ==> p in m2.tables && m2.tables[p] == m.tables[p]
    ensures forall p :: p in t3.TablePages() && p in m.tables ==> p in t2.TablePages()
  {
    hide TreeOk, Extends, Tree.TablePages, Mem.Pages;
  }

  lemma ExtendsTrans(t: Tree, t2: Tree, t3: Tree)
    requires Extends(t, t2) && Extends(t2, t3)
    ensures Extends(t, t3)
  {
  }

  /** Data frames come and go without touching the trees. */
  lemma TreesKeptFrames(m0: Mem, t1: Tree, t: Tree, m: Mem, t2: Tree, m2: Mem)
    requires TreesKept(m0, t1, t, m, t2) && m2.tables == m.tables && m2.Parted() && m2.Pages() == m.Pages()
    ensures TreesKept(m0, t1, t, m2, t2)
  {
    TreePagesInTables(m, t1);
    TreePagesInTables(m, t2);
    TreeFrame(m, m2, t1);
    TreeFrame(m, m2, t2);
    hide TreeOk, Entry, Mem.Parted, Mem.Pages, Tree.TablePages;
  }

  /** mappages and walk on the child's tree keep both trees. */
  lemma TreesKeptGrown(m0: Mem, t1: Tree, t: Tree, m: Mem, t2: Tree, m2: Mem, t3: Tree)
    requires TreesKept(m0, t1, t, m, t2) && Grown(m, t2, m2, t3)
    ensures TreesKept(m0, t1, t, m2, t3)
  {
    hide TreeOk, Entry, Mem.Parted, Mem.Pages, Tree.TablePages, Extends, Grown;
    GrownOther(m, t2, m2, t3, t1);
    GrownTables(m, t2, m2, t3);
    GrownFacts(m, t2, m2, t3);
    GrownPages(m, t2, m2, t3);
    ExtendsTrans(t, t2, t3);
  }

  /** From m to m2, frame p with the given bytes was added and mapped at virtual page n of the tree. */
  ghost predicate PageAdded(m: Mem, t2: Tree, m2: Mem, t3: Tree, n: nat, p: nat, data: seq<Byte>, flags: nat) {
    && p !in m.frames && m2.frames == m.frames[p := data]
    && V(Entry(m2, t3, n)) && Flags(Entry(m2, t3, n)) == flags && Ppn(Entry(m2, t3, n)) == p
    && (forall w: nat :: w != n ==> Entry(m2, t3, w) == Entry(m, t2, w))
  }

  lemma MappedPageAdded(m: Mem, t2: Tree, n: nat, data: seq<Byte>, flags: nat, m2: Mem, t3: Tree)
    requires m.Parted() && m.free != [] && TreeOk(m, t2) && flags < 1024
    requires RangeMapped(m.NewFrame(data), t2, m2, t3, n, 1, m.free[0], flags)
    ensures PageAdded(m, t2, m2, t3, n, m.free[0], data, if flags % 2 == 1 then flags else flags + 1)
  {
    NewFrameTree(m, t2, data);
    MakePteFacts(m.free[0], flags);
    GrownFacts(m.NewFrame(data), t2, m2, t3);
    assert m.free[0] !in m.frames;
    hide TreeOk, Entry, Grown, MakePte, Ppn, Flags, V;
  }

  /** One more page: a fresh frame with the source page's bytes, mapped with its flags. */
  lemma CopyStepPages(m0: Mem, t1: Tree, t: Tree, m: Mem, t2: Tree, n: nat, m2: Mem, t3: Tree, p: nat)
    requires PagesCopied(m0, t1, t, m, t2, n)
    requires Ppn(Entry(m0, t1, n)) in m0.frames
    requires PageAdded(m, t2, m2, t3, n, p, m0.frames[Ppn(Entry(m0, t1, n))], Flags(Entry(m0, t1, n)))
    ensures PagesCopied(m0, t1, t, m2, t3, n + 1)
  {
    hide Entry, Ppn, Flags, V, FramesOf;
    forall w | 0 <= w < n + 1 ensures PageCopied(m0, t1, m2, t3, w) {
      if w < n {
        assert PageCopied(m0, t1, m, t2, w);
      }
    }
    forall w, x | 0 <= w < x < n + 1 ensures Ppn(Entry(m2, t3, w)) != Ppn(Entry(m2, t3, x)) {
      assert PageCopied(m0, t1, m, t2, w);
    }
    AddedFrames(m, t2, m2, t3, n, p);
  }

  lemma AddedFrames(m: Mem, t2: Tree, m2: Mem, t3: Tree, n: nat, p: nat)
    requires Ppn(Entry(m2, t3, n)) == p && forall w: nat :: w != n ==> Entry(m2, t3, w) == Entry(m, t2, w)
    ensures FramesOf(m2, t3, 0, n + 1) == FramesOf(m, t2, 0, n) + {p}
  {
    hide Entry, Ppn;
    assert p in FramesOf(m2, t3, 0, n + 1);
    forall q | q in FramesOf(m, t2, 0, n) ensures q in FramesOf(m2, t3, 0, n + 1) {
      var w :| 0 <= w < n && Ppn(Entry(m, t2, w)) == q;
      assert Ppn(Entry(m2, t3, w)) == q;
    }
  }

  /** Unmapping and freeing the n copied pages undoes the copy, except for the tables it needed. */
  lemma CopyUndone(m0: Mem, t1: Tree, t: Tree, m: Mem, t2: Tree, n: nat, m2: Mem)
    requires Copying(m0, t1, t, m, t2, n) && RangeUnmapped(m, t2, m2, 0, n, true)
    requires forall w :: 0 <= w < n ==> Entry(m0, t, w) == 0
    ensures m2.frames == m0.frames && SameEntries(m0, t, m2, t2)
  {
    hide TreeOk, Entry, Mem.Parted, Mem.Pages, TreesKept;
    forall q | q in FramesOf(m, t2, 0, n) ensures q !in m0.frames {
      var w :| 0 <= w < n && Ppn(Entry(m, t2, w)) == q;
      assert PageCopied(m0, t1, m, t2, w);
    }
    assert m2.frames.Keys == m0.frames.Keys;
    assert forall p :: p in m0.frames ==> m2.frames[p] == m0.frames[p];
  }

  lemma UndoneTrees(m0: Mem, t1: Tree, t: Tree, m: Mem, t2: Tree, m2: Mem, v: nat, n: nat, freed: bool)
    requires TreesKept(m0, t1, t, m, t2) && RangeUnmapped(m, t2, m2, v, n, freed)
    ensures TreesKept(m0, t1, t, m2, t2)
  {
    TreePagesInTables(m, t1);
    hide TreeOk, Entry, Mem.Parted, Mem.Pages, Tree.TablePages;
    forall p | p in t1.TablePages() ensures p in m.tables && p in m2.tables && m2.tables[p] == m.tables[p] {
    }
    TreeFrame(m, m2, t1);
  }

  lemma PagesCopiedSame(m0: Mem, t1: Tree, t: Tree, m: Mem, t2: Tree, m2: Mem, t3: Tree, n: nat)
    requires PagesCopied(m0, t1, t, m, t2, n) && SameEntries(m, t2, m2, t3) && m2.frames == m.frames
    ensures PagesCopied(m0, t1, t, m2, t3, n)
  {
    hide Entry, Ppn, Flags, V;
    forall w | 0 <= w < n ensures PageCopied(m0, t1, m2, t3, w) {
      assert PageCopied(m0, t1, m, t2, w);
    }
    assert FramesOf(m2, t3, 0, n) == FramesOf(m, t2, 0, n);
  }

  /** New tables in the child's tree change nothing about the copy so far. */
  lemma CopyingWalked(m0: Mem, t1: Tree, t: Tree, m: Mem, t2: Tree, n: nat, m2: Mem, t3: Tree)
    requires Copying(m0, t1, t, m, t2, n) && Walked(m, t2, m2, t3)
    ensures Copying(m0, t1, t, m2, t3, n)
  {
    hide TreesKept, PagesCopied;
    GrownFacts(m, t2, m2, t3);
    hide Grown, SameEntries;
    TreesKeptGrown(m0, t1, t, m, t2, m2, t3);
    PagesCopiedSame(m0, t1, t, m, t2, m2, t3, n);
  }

  /** kalloc and mappages of one page. */
  ghost predicate FrameMapped(m: Mem, t2: Tree, m2: Mem, t3: Tree, n: nat, data: seq<Byte>, flags: nat) {
    && m.free != [] && Grown(m.NewFrame(data), t2, m2, t3)
    && PageAdded(m, t2, m2, t3, n, m.free[0], data, flags)
  }

  lemma CopyStepDone(m0: Mem, t1: Tree, t: Tree, m: Mem, t2: Tree, n: nat, m2: Mem, t3: Tree)
    requires Copying(m0, t1, t, m, t2, n)
    requires Ppn(Entry(m0, t1, n)) in m0.frames
    requires FrameMapped(m, t2, m2, t3, n, m0.frames[Ppn(Entry(m0, t1, n))], Flags(Entry(m0, t1, n)))
    ensures Copying(m0, t1, t, m2, t3, n + 1)
  {
    var data := m0.frames[Ppn(Entry(m0, t1, n))];
    CopyingFacts(m0, t1, t, m, t2, n);
    AllocParted(m, data);
    hide TreesKept, PagesCopied, Grown, PageAdded, Entry, Ppn, Flags, Mem.Parted, Mem.Pages;
    TreesKeptFrames(m0, t1, t, m, t2, m.NewFrame(data));
    TreesKeptGrown(m0, t1, t, m.NewFrame(data), t2, m2, t3);
    CopyStepPages(m0, t1, t, m, t2, n, m2, t3, m.free[0]);
  }

  /** A page p leaves the free set f for f1, more pages leave for f2, and p comes back for f3. */
  lemma FreeSetsAround(f: set<nat>, f1: set<nat>, f2: set<nat>, f3: set<nat>, p: nat)
    requires p in f && f1 == f - {p} && f2 <= f1 && f3 == f2 + {p}
    ensures f3 <= f && f - f3 == f1 - f2
  {
  }

  lemma GrownAroundFrame(m: Mem, data: seq<Byte>, t2: Tree, m2: Mem, t3: Tree)
    requires m.Parted() && m.free != [] && TreeOk(m, t2) && Grown(m.NewFrame(data), t2, m2, t3)
    ensures m.free[0] in m2.frames
    ensures Grown(m, t2, m2.DropFrame(m.free[0]), t3)
  {
    var p := m.free[0];
    var m1, m3 := m.NewFrame(data), m2.DropFrame(p);
    assert p !in m.frames;
    AllocParted(m, data);
    GrownFacts(m1, t2, m2, t3);
    DropParted(m2, p);
    DropFrameTree(m2, t3, p);
    HeadIsFree(m);
    assert m3.frames == m.frames;
    FreeSetsAround(m.FreeSet(), m1.FreeSet(), m2.FreeSet(), m3.FreeSet(), p);
    hide TreeOk, Entry, Mem.Parted, Mem.Pages, Mem.FreeSet, Tree.TablePages, Extends;
  }

  /** A frame taken and given back around a walk is a walk. */
  lemma WalkedAroundFrame(m: Mem, data: seq<Byte>, t2: Tree, m2: Mem, t3: Tree)
    requires m.Parted() && m.free != [] && TreeOk(m, t2) && Walked(m.NewFrame(data), t2, m2, t3)
    ensures Walked(m, t2, m2.DropFrame(m.free[0]), t3)
  {
    GrownAroundFrame(m, data, t2, m2, t3);
    GrownFacts(m.NewFrame(data), t2, m2, t3);
    NewFrameTree(m, t2, data);
    DropFrameTree(m2, t3, m.free[0]);
    hide TreeOk, Entry, Grown;
  }

  lemma CopiedLeaf(m0: Mem, t1: Tree, t: Tree, m: Mem, t2: Tree, n: nat, w: nat)
    requires Copying(m0, t1, t, m, t2, n) && w < n && IsLeaf(Entry(m0, t1, w))
    ensures IsLeaf(Entry(m, t2, w))
  {
    hide TreesKept;
    assert PageCopied(m0, t1, m, t2, w);
  }

  /** A failed uvmcopy: every frame is back, every translation is as before; only empty tables were added. */
  ghost predicate CopyFailed(m0: Mem, t1: Tree, t: Tree, m: Mem, t2: Tree) {
    TreesKept(m0, t1, t, m, t2) && m.frames == m0.frames && SameEntries(m0, t, m, t2)
  }

  lemma CopyingTrees(m0: Mem, t1: Tree, t: Tree, m: Mem, t2: Tree, n: nat)
    requires Copying(m0, t1, t, m, t2, n)
    ensures TreesKept(m0, t1, t, m, t2)
  {
  }
}
