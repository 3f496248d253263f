/**
  Growing and shrinking an address space: uvmalloc and uvmdealloc. A failed
  uvmalloc gives back every page of user memory it took and leaves every
  translation as it was; page tables it needed on the way stay in the tree.
*/
module AddressGrowth {
  import opened Wrappers
  import opened Sets
  import opened Blocks
  import opened PageTable
  import opened AddressSpace
  import opened TableTree
  import opened VirtualMemory

  /** (PHYSTOP - KERNBASE) / PGSIZE: kalloc manages at most this many pages. */
  const PHYSPAGES := 32768

  /** User addresses end below the trapframe's page. */
  const USER_TOP := MAXVPN - 2

  function ZeroPage(): seq<Byte> {
    seq(PGSIZE, _ => 0)
  }

  /** Tree t grew into t2 from free pages; no other table changed. */
  ghost predicate TreeGrew(m0: Mem, t: Tree, m: Mem, t2: Tree) {
    && m0.Parted() && m.Parted() && m.Pages() == m0.Pages()
    && TreeOk(m0, t) && TreeOk(m, t2) && Extends(t, t2)
    && m.tables.Keys == m0.tables.Keys + t2.TablePages()
    && (forall p :: p in m0.tables && p !in t2.TablePages() ==> m.tables[p] == m0.tables[p])
    && (forall p :: p in t2.TablePages() && p in m0.tables ==> p in t.TablePages())
  }

  /** Virtual pages v .. v + n - 1 are new zeroed pages with the given flags, in frames of their own. */
  ghost predicate NewPages(m0: Mem, t: Tree, m: Mem, t2: Tree, v: nat, n: nat, flags: nat) {
    && (forall w :: v <= w < v + n ==> NewPage(m0, m, t2, w, flags))
    && (forall w: nat :: !(v <= w < v + n) ==> Entry(m, t2, w) == Entry(m0, t, w))
    && (forall w, x :: v <= w < x < v + n ==> Ppn(Entry(m, t2, w)) != Ppn(Entry(m, t2, x)))
    && (forall p :: p in m0.frames ==> p in m.frames && m.frames[p] == m0.frames[p])
    && m.frames.Keys == m0.frames.Keys + FramesOf(m, t2, v, n)
  }

  ghost predicate NewPage(m0: Mem, m: Mem, t2: Tree, w: nat, flags: nat) {
    var e := Entry(m, t2, w);
    V(e) && Flags(e) == flags && Ppn(e) in m.frames && Ppn(e) !in m0.frames && m.frames[Ppn(e)] == ZeroPage()
  }

  ghost predicate Growing(m0: Mem, t: Tree, m: Mem, t2: Tree, v: nat, n: nat, flags: nat) {
    TreeGrew(m0, t, m, t2) && NewPages(m0, t, m, t2, v, n, flags)
  }

  /** All user memory and all translations as before. */
  ghost predicate GrowthUndone(m0: Mem, t: Tree, m: Mem, t2: Tree) {
    TreeGrew(m0, t, m, t2) && m.frames == m0.frames && SameEntries(m0, t, m, t2)
  }

  lemma GrowingStart(m: Mem, t: Tree, v: nat, flags: nat)
    requires m.Parted() && TreeOk(m, t)
    ensures Growing(m, t, m, t, v, 0, flags)
  {
    TreePagesInTables(m, t);
    assert FramesOf(m, t, v, 0) == {};
  }

  lemma GrowingFacts(m0: Mem, t: Tree, m: Mem, t2: Tree, v: nat, n: nat, flags: nat)
    requires Growing(m0, t, m, t2, v, n, flags)
    ensures m.Parted() && TreeOk(m, t2) && t2.root == t.root
    ensures forall w: nat :: !(v <= w < v + n) ==> Entry(m, t2, w) == Entry(m0, t, w)
  {
  }

  lemma TreeGrewFrames(m0: Mem, t: Tree, m: Mem, t2: Tree, m2: Mem)
    requires TreeGrew(m0, t, m, t2) && m2.tables == m.tables && m2.Parted() && m2.Pages() == m.Pages()
    ensures TreeGrew(m0, t, m2, t2)
  {
    TreePagesInTables(m, t2);
    TreeFrame(m, m2, t2);
    hide TreeOk, Entry, Mem.Parted, Mem.Pages, Tree.TablePages;
  }

  lemma TreeGrewMore(m0: Mem, t: Tree, m: Mem, t2: Tree, m2: Mem, t3: Tree)
    requires TreeGrew(m0, t, m, t2) && Grown(m, t2, m2, t3)
    ensures TreeGrew(m0, t, m2, t3)
  {
    hide TreeOk, Entry, Mem.Parted, Mem.Pages, Tree.TablePages, Extends, Grown;
    GrownTables(m, t2, m2, t3);
    GrownFacts(m, t2, m2, t3);
    GrownPages(m, t2, m2, t3);
    ExtendsTrans(t, t2, t3);
  }

  lemma NewPagesSame(m0: Mem, t: Tree, m: Mem, t2: Tree, m2: Mem, t3: Tree, v: nat, n: nat, flags: nat)
    requires NewPages(m0, t, m, t2, v, n, flags) && SameEntries(m, t2, m2, t3) && m2.frames == m.frames
    ensures NewPages(m0, t, m2, t3, v, n, flags)
  {
    hide Entry, Ppn, Flags, V;
    forall w | v <= w < v + n ensures NewPage(m0, m2, t3, w, flags) {
      assert NewPage(m0, m, t2, w, flags);
    }
    assert FramesOf(m2, t3, v, n) == FramesOf(m, t2, v, n);
  }

  lemma GrowingWalked(m0: Mem, t: Tree, m: Mem, t2: Tree, v: nat, n: nat, flags: nat, m2: Mem, t3: Tree)
    requires Growing(m0, t, m, t2, v, n, flags) && Walked(m, t2, m2, t3)
    ensures Growing(m0, t, m2, t3, v, n, flags)
  {
    hide TreeGrew, NewPages;
    GrownFacts(m, t2, m2, t3);
    hide Grown, SameEntries;
    TreeGrewMore(m0, t, m, t2, m2, t3);
    NewPagesSame(m0, t, m, t2, m2, t3, v, n, flags);
  }

  /** One more page, at virtual page v + n. */
  lemma NewPagesStep(m0: Mem, t: Tree, m: Mem, t2: Tree, v: nat, n: nat, flags: nat, m2: Mem, t3: Tree, p: nat)
    requires NewPages(m0, t, m, t2, v, n, flags) && PageAdded(m, t2, m2, t3, v + n, p, ZeroPage(), flags)
    ensures NewPages(m0, t, m2, t3, v, n + 1, flags)
  {
    hide Entry, Ppn, Flags, V, FramesOf, ZeroPage;
    forall w | v <= w < v + n + 1 ensures NewPage(m0, m2, t3, w, flags) {
      if w < v + n {
        assert NewPage(m0, m, t2, w, flags);
      }
    }
    forall w, x | v <= w < x < v + n + 1 ensures Ppn(Entry(m2, t3, w)) != Ppn(Entry(m2, t3, x)) {
      assert NewPage(m0, m, t2, w, flags);
    }
    AddedFramesAt(m, t2, m2, t3, v, n, p);
  }

  lemma AddedFramesAt(m: Mem, t2: Tree, m2: Mem, t3: Tree, v: nat, n: nat, p: nat)
    requires Ppn(Entry(m2, t3, v + n)) == p && forall w: nat :: w != v + n ==> Entry(m2, t3, w) == Entry(m, t2, w)
    ensures FramesOf(m2, t3, v, n + 1) == FramesOf(m, t2, v, n) + {p}
  {
    hide Entry, Ppn;
    assert p in FramesOf(m2, t3, v, n + 1);
    forall q | q in FramesOf(m, t2, v, n) ensures q in FramesOf(m2, t3, v, n + 1) {
      var w :| v <= w < v + n && Ppn(Entry(m, t2, w)) == q;
      assert Ppn(Entry(m2, t3, w)) == q;
    }
  }

  lemma GrowStep(m0: Mem, t: Tree, m: Mem, t2: Tree, v: nat, n: nat, flags: nat, m2: Mem, t3: Tree)
    requires Growing(m0, t, m, t2, v, n, flags) && FrameMapped(m, t2, m2, t3, v + n, ZeroPage(), flags)
    ensures Growing(m0, t, m2, t3, v, n + 1, flags)
  {
    GrowingFacts(m0, t, m, t2, v, n, flags);
    AllocParted(m, ZeroPage());
    hide TreeGrew, NewPages, Grown, PageAdded, Entry, Mem.Parted, Mem.Pages, ZeroPage;
    TreeGrewFrames(m0, t, m, t2, m.NewFrame(ZeroPage()));
    TreeGrewMore(m0, t, m.NewFrame(ZeroPage()), t2, m2, t3);
    NewPagesStep(m0, t, m, t2, v, n, flags, m2, t3, m.free[0]);
  }

  lemma GrowingUnaliased(m0: Mem, t: Tree, m: Mem, t2: Tree, v: nat, n: nat, flags: nat)
    requires Growing(m0, t, m, t2, v, n, flags) && flags != PTE_V
    ensures Unaliased(m, t2, v, n) && forall w :: v <= w < v + n ==> IsLeaf(Entry(m, t2, w))
  {
    hide Entry, TreeGrew, Ppn;
    forall w | v <= w < v + n ensures Ppn(Entry(m, t2, w)) in m.frames && IsLeaf(Entry(m, t2, w)) {
      assert NewPage(m0, m, t2, w, flags);
    }
  }

  /** Unmapping and freeing the new pages. */
  lemma Ungrown(m0: Mem, t: Tree, m: Mem, t2: Tree, v: nat, n: nat, flags: nat, m2: Mem)
    requires Growing(m0, t, m, t2, v, n, flags) && RangeUnmapped(m, t2, m2, v, n, true)
    requires forall w :: v <= w < v + n ==> Entry(m0, t, w) == 0
    ensures GrowthUndone(m0, t, m2, t2)
  {
    hide TreeOk, Entry, Mem.Parted, Mem.Pages, TreeGrew, Tree.TablePages, Mem.FreeSet, FramesOf;
    UngrownTree(m0, t, m, t2, m2, v, n);
    UngrownFrames(m0, t, m, t2, v, n, flags);
    assert m2.frames.Keys == m0.frames.Keys;
    assert forall p :: p in m0.frames ==> m2.frames[p] == m0.frames[p];
  }

  lemma UngrownFrames(m0: Mem, t: Tree, m: Mem, t2: Tree, v: nat, n: nat, flags: nat)
    requires NewPages(m0, t, m, t2, v, n, flags)
    ensures FramesOf(m, t2, v, n) !! m0.frames.Keys
  {
    hide Entry, Ppn, V, Flags;
    forall q | q in FramesOf(m, t2, v, n) ensures q !in m0.frames {
      var w :| v <= w < v + n && Ppn(Entry(m, t2, w)) == q;
      assert NewPage(m0, m, t2, w, flags);
    }
  }

  lemma UngrownTree(m0: Mem, t: Tree, m: Mem, t2: Tree, m2: Mem, v: nat, n: nat)
    requires TreeGrew(m0, t, m, t2) && RangeUnmapped(m, t2, m2, v, n, true)
    ensures TreeGrew(m0, t, m2, t2)
  {
    hide TreeOk, Entry, Mem.Parted, Mem.Pages, Tree.TablePages;
  }

  /** uvmdealloc: the new size, and the pages above it unmapped and freed; None is a panic. */
  method Uvmdealloc(vm: Vm, pagetable: nat, oldsz: nat, newsz: nat, ghost t: Tree) returns (r: Option<nat>)
    requires vm.M().Parted() && TreeOk(vm.M(), t) && pagetable == t.root
    requires newsz < oldsz ==> LeavesApart(vm.M(), t, Pages(newsz), Pages(oldsz) - Pages(newsz))
    modifies vm
    ensures newsz >= oldsz ==> r == Some(oldsz) && vm.M() == old(vm.M())
    ensures newsz < oldsz && r.Some? ==>
      r.value == newsz && RangeUnmapped(old(vm.M()), t, vm.M(), Pages(newsz), Pages(oldsz) - Pages(newsz), true)
    ensures newsz < oldsz ==> (r.Some? <==>
      (Pages(newsz) < Pages(oldsz) ==> Pages(oldsz) * PGSIZE <= MAXVA)
      && forall w :: Pages(newsz) <= w < Pages(oldsz) ==> IsLeaf(Entry(old(vm.M()), t, w)))
  {
    hide TreeOk, Mem.Parted, Entry, LeavesApart, RangeUnmapped, IsLeaf;
    if newsz >= oldsz {
      return Some(oldsz);
    }
    RangeUnmappedNone(vm.M(), t, Pages(newsz), true);
    assert Pages(newsz) <= Pages(oldsz);
    if Pages(newsz) < Pages(oldsz) {
      var npages := Pages(oldsz) - Pages(newsz);
      assert Pages(newsz) * PGSIZE / PGSIZE == Pages(newsz) && Pages(newsz) * PGSIZE % PGSIZE == 0;
      var ok := vm.Uvmunmap(pagetable, Pages(newsz) * PGSIZE, npages, true, t);
      if !ok {
        return None;
      }
    }
    return Some(newsz);
  }

  // ------------------------------------------------ memory runs out before addresses do

  lemma {:induction false} FramesCount(m: Mem, t: Tree, n: nat)
    requires Unaliased(m, t, 0, n)
    ensures |FramesOf(m, t, 0, n)| == n && FramesOf(m, t, 0, n) <= m.frames.Keys
  {
    hide Entry, Ppn;
    if n == 0 {
      assert FramesOf(m, t, 0, n) == {};
    } else {
      FramesCount(m, t, n - 1);
      var p := Ppn(Entry(m, t, n - 1));
      assert p !in FramesOf(m, t, 0, n - 1);
      forall q | q in FramesOf(m, t, 0, n - 1) ensures q in FramesOf(m, t, 0, n) {
        var w :| 0 <= w < n - 1 && Ppn(Entry(m, t, w)) == q;
      }
      assert p in FramesOf(m, t, 0, n);
      assert FramesOf(m, t, 0, n) == FramesOf(m, t, 0, n - 1) + {p};
    }
  }

  /** An address space has no more pages than there are in memory. */
  lemma PagesBound(m: Mem, t: Tree, n: nat)
    requires Unaliased(m, t, 0, n)
    ensures n <= |m.Pages()|
  {
    hide Entry;
    FramesCount(m, t, n);
    SubsetSize(FramesOf(m, t, 0, n), m.Pages());
  }

  /** The pages below the old size and the new ones are all in different frames. */
  lemma GrownUnaliased(m0: Mem, t: Tree, m: Mem, t2: Tree, v: nat, n: nat, flags: nat)
    requires Growing(m0, t, m, t2, v, n, flags) && Unaliased(m0, t, 0, v)
    ensures Unaliased(m, t2, 0, v + n)
  {
    hide Entry, TreeGrew, Ppn, V, Flags, FramesOf;
    forall w | 0 <= w < v + n
      ensures Ppn(Entry(m, t2, w)) in m.frames && (w >= v ==> Ppn(Entry(m, t2, w)) !in m0.frames)
    {
      if w >= v { assert NewPage(m0, m, t2, w, flags); }
    }
  }

  lemma GrowthBound(m0: Mem, t: Tree, m: Mem, t2: Tree, v: nat, n: nat, flags: nat)
    requires Growing(m0, t, m, t2, v, n, flags) && Unaliased(m0, t, 0, v)
    ensures v + n <= |m0.Pages()|
  {
    hide TreeOk, Entry, NewPages, Unaliased, Mem.Pages, Mem.Parted, Extends, Tree.TablePages;
    GrownUnaliased(m0, t, m, t2, v, n, flags);
    PagesBound(m, t2, v + n);
  }

  /**
    uvmalloc: the new size with zeroed pages up to it, or 0 with everything given
    back. No bound on newsz: memory runs out before the addresses do.
  */
  method Uvmalloc(vm: Vm, pagetable: nat, oldsz: nat, newsz: nat, xperm: nat, ghost t: Tree)
    returns (r: nat, ghost t2: Tree)
    requires vm.M().Parted() && TreeOk(vm.M(), t) && pagetable == t.root
    requires |vm.M().Pages()| <= PHYSPAGES && Unaliased(vm.M(), t, 0, Pages(oldsz))
    requires xperm == 0 || xperm == PTE_W || xperm == PTE_X || xperm == PTE_W + PTE_X
    requires forall w :: Pages(oldsz) <= w < USER_TOP && w < Pages(newsz) ==> Entry(vm.M(), t, w) == 0
    modifies vm
    ensures newsz < oldsz ==> r == oldsz && vm.M() == old(vm.M()) && t2 == t
    ensures newsz >= oldsz ==>
      || (r == newsz && Pages(newsz) <= PHYSPAGES
          && Growing(old(vm.M()), t, vm.M(), t2, Pages(oldsz), Pages(newsz) - Pages(oldsz), PTE_R + PTE_U + xperm + 1))
      || (r == 0 && GrowthUndone(old(vm.M()), t, vm.M(), t2))
    ensures newsz >= oldsz && Pages(newsz) > PHYSPAGES ==> r == 0 && GrowthUndone(old(vm.M()), t, vm.M(), t2)
  {
    hide TreeOk, Mem.Parted, Entry, Growing, GrowthUndone, Walked, IsLeaf, FrameMapped, RangeUnmapped, Unaliased;
    hide Mem.Pages;
    t2 := t;
    if newsz < oldsz {
      return oldsz, t2;
    }
    ghost var m0, v, flags := vm.M(), Pages(oldsz), PTE_R + PTE_U + xperm + 1;
    PteFacts(0);
    GrowingStart(m0, t, v, flags);
    GrowthBound(m0, t, m0, t, v, 0, flags);
    var start := Pages(oldsz) * PGSIZE;
    var a := start;
    ghost var n := 0;
    assert Pages(oldsz) <= Pages(newsz);
    while a < newsz
      invariant a == (v + n) * PGSIZE && v + n <= Pages(newsz) && v + n <= PHYSPAGES
      invariant Growing(m0, t, vm.M(), t2, v, n, flags)
    {
      ghost var m := vm.M();
      GrowingFacts(m0, t, m, t2, v, n, flags);
      var ok, t3 := vm.MapNewFrame(pagetable, a, ZeroPage(), PTE_R + PTE_U + xperm, t2);
      if !ok {
        GrowingWalked(m0, t, m, t2, v, n, flags, vm.M(), t3);
        GrowingFacts(m0, t, vm.M(), t3, v, n, flags);
        Shrink(vm, pagetable, a, start, m0, t, t3, v, n, flags);
        return 0, t3;
      }
      GrowStep(m0, t, m, t2, v, n, flags, vm.M(), t3);
      GrowthBound(m0, t, vm.M(), t3, v, n + 1, flags);
      t2 := t3;
      a := a + PGSIZE;
      n := n + 1;
    }
    return newsz, t2;
  }

  /** uvmalloc's failure path: uvmdealloc back to where it started. */
  method Shrink(vm: Vm, pagetable: nat, a: nat, start: nat, ghost m0: Mem, ghost t: Tree, ghost t3: Tree,
                ghost v: nat, ghost n: nat, ghost flags: nat)
    requires Growing(m0, t, vm.M(), t3, v, n, flags) && pagetable == t3.root && flags != PTE_V
    requires a == (v + n) * PGSIZE <= MAXVA && start == v * PGSIZE
    requires forall w :: v <= w < v + n ==> Entry(m0, t, w) == 0
    modifies vm
    ensures GrowthUndone(m0, t, vm.M(), t3)
  {
    hide TreeOk, Mem.Parted, Entry, Growing, GrowthUndone, IsLeaf, RangeUnmapped, Unaliased, LeavesApart;
    GrowingFacts(m0, t, vm.M(), t3, v, n, flags);
    GrowingUnaliased(m0, t, vm.M(), t3, v, n, flags);
    ghost var m1 := vm.M();
    RoundedPages(v, n);
    RangeUnmappedNone(m1, t3, v, true);
    UnaliasedLeaves(m1, t3, v, n);
    var d := Uvmdealloc(vm, pagetable, a, start, t3);
    Ungrown(m0, t, m1, t3, v, n, flags, vm.M());
  }

  lemma RoundedPages(v: nat, n: nat)
    ensures Pages((v + n) * PGSIZE) == v + n && Pages(v * PGSIZE) == v
  {
  }
}
