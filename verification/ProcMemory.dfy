/**
  The memory side of process creation and destruction: uvmcreate, uvmfree,
  proc_pagetable, proc_freepagetable and the allocations of fork. Whatever a
  failing path took is back on the free list, and no page-table page or data
  frame is different.
*/
module ProcMemory {
  import opened Wrappers
  import opened Blocks
  import opened PageTable
  import opened AddressSpace
  import opened TableTree
  import opened VirtualMemory

  const TRAMPOLINE := MAXVA - PGSIZE
  const TRAPFRAME := TRAMPOLINE - PGSIZE
  const TRAMP_VPN := MAXVPN - 1
  const FRAME_VPN := MAXVPN - 2

  /** The same pages are free and the same contents are everywhere else. */
  ghost predicate Restored(m: Mem, m2: Mem) {
    m2.Parted() && m2.tables == m.tables && m2.frames == m.frames && m2.FreeSet() == m.FreeSet()
  }

  lemma RestoredRefl(m: Mem)
    requires m.Parted()
    ensures Restored(m, m)
  {
  }

  /** m2 is m with tree t built from free pages. */
  ghost predicate Built(m: Mem, m2: Mem, t: Tree) {
    && m.Parted() && m2.Parted() && TreeOk(m2, t)
    && m2.frames == m.frames
    && t.TablePages() <= m.FreeSet() && m2.FreeSet() == m.FreeSet() - t.TablePages()
    && m2.tables.Keys == m.tables.Keys + t.TablePages()
    && (forall p :: p in m.tables ==> m2.tables[p] == m.tables[p])
  }

  lemma BuiltFacts(m: Mem, m2: Mem, t: Tree)
    requires Built(m, m2, t)
    ensures m2.Parted() && TreeOk(m2, t) && m2.frames == m.frames && m2.Pages() == m.Pages()
  {
    hide TreeOk;
    assert m2.Pages() == m.Pages();
  }

  function EmptyTree(root: nat): Tree {
    Tree(root, map[], map[])
  }

  /** uvmcreate */
  lemma CreateBuilt(m: Mem)
    requires m.Parted() && m.free != []
    ensures Built(m, m.NewTable(), EmptyTree(m.free[0]))
    ensures forall v: nat :: Entry(m.NewTable(), EmptyTree(m.free[0]), v) == 0
  {
    AllocParted(m, []);
    HeadIsFree(m);
    var t := EmptyTree(m.free[0]);
    assert t.TablePages() == {m.free[0]};
    assert TreeOk(m.NewTable(), t);
    assert m.free[0] !in m.tables;
  }

  /** Growing the new tree takes free pages only. */
  lemma BuiltGrown(m: Mem, m1: Mem, t: Tree, m2: Mem, t2: Tree)
    requires Built(m, m1, t) && Grown(m1, t, m2, t2)
    ensures Built(m, m2, t2)
  {
    GrownTables(m1, t, m2, t2);
    hide TreeOk, Extends, Tree.TablePages, Mem.Pages;
    forall p | p in m.tables ensures p in m2.tables && m2.tables[p] == m.tables[p] {
      assert p !in m.FreeSet();
    }
    BuiltSets(m.FreeSet(), m1.FreeSet(), m2.FreeSet(), t.TablePages(), t2.TablePages());
    assert m2.tables.Keys == m.tables.Keys + t2.TablePages();
  }

  lemma BuiltSets(f: set<nat>, f1: set<nat>, f2: set<nat>, s: set<nat>, s2: set<nat>)
    requires s <= f && f1 == f - s && f2 <= f1 && s2 == s + (f1 - f2)
    ensures s2 <= f && f2 == f - s2
  {
  }

  /** Unmapping without freeing edits the new tree's own tables only. */
  lemma BuiltUnmapped(m: Mem, m1: Mem, t: Tree, m2: Mem, v: nat, n: nat)
    requires Built(m, m1, t) && RangeUnmapped(m1, t, m2, v, n, false)
    ensures Built(m, m2, t)
  {
    hide TreeOk, Tree.TablePages, Mem.Pages, Entry, FramesOf;
    forall p | p in m.tables ensures p in m2.tables && m2.tables[p] == m.tables[p] {
      assert p !in m.FreeSet();
    }
  }

  /** Freeing the whole tree undoes building it. */
  lemma BuiltFreed(m: Mem, m1: Mem, t: Tree, m2: Mem)
    requires Built(m, m1, t) && Freed(m1, RootSub(t), m2)
    ensures Restored(m, m2)
  {
    RootPages(t);
    hide TreeOk, Tree.TablePages, Mem.Pages, PagesOf;
    assert forall p :: p in m.tables ==> p !in m.FreeSet();
    assert m2.tables.Keys == m.tables.Keys;
    assert forall p :: p in m.tables ==> m2.tables[p] == m.tables[p];
  }

  /** A failed uvmcopy leaves a tree that is still made of pages that were free. */
  lemma BuiltCopyFailed(m: Mem, m1: Mem, t1: Tree, t: Tree, m2: Mem, t2: Tree)
    requires Built(m, m1, t) && CopyFailed(m1, t1, t, m2, t2)
    ensures Built(m, m2, t2)
  {
    hide TreeOk, Tree.TablePages, Mem.FreeSet, SameEntries, Extends;
    BuiltFacts(m, m1, t);
    ExtendedPages(t, t2);
    var tp, tp2 := t.TablePages(), t2.TablePages();
    assert tp <= tp2;
    FreeByPages(m1);
    FreeByPages(m2);
    hide Mem.Pages;
    forall p | p in m.tables ensures p !in tp2 && m2.tables[p] == m.tables[p] {
      NotFree(m, p);
    }
    forall p | p in tp2 ensures p in m.FreeSet() {
      assert p in m2.tables;
      if p !in tp {
        assert p !in m1.tables && p !in m1.frames;
      }
    }
    assert m2.tables.Keys == m.tables.Keys + tp2;
    assert m2.FreeSet() == m.FreeSet() - tp2;
  }

  lemma NotFree(m: Mem, p: nat)
    requires m.Parted() && p in m.tables
    ensures p !in m.FreeSet()
  {
  }

  lemma FreeByPages(m: Mem)
    requires m.Parted()
    ensures m.FreeSet() == m.Pages() - m.tables.Keys - m.frames.Keys
    ensures m.tables.Keys <= m.Pages()
    ensures m.tables.Keys !! m.frames.Keys
  {
  }

  lemma ExtendedPages(t: Tree, t2: Tree)
    requires Extends(t, t2)
    ensures t.TablePages() <= t2.TablePages()
  {
    forall p | p in t.mid.Values ensures p in t2.mid.Values {
      var i :| i in t.mid && t.mid[i] == p;
      assert t2.mid[i] == p;
    }
    forall p | p in t.low.Values ensures p in t2.low.Values {
      var i :| i in t.low && t.low[i] == p;
      assert t2.low[i] == p;
    }
  }

  /** Tree t and the frames of its first n pages went back to the free list. */
  ghost predicate Released(m: Mem, t: Tree, n: nat, m2: Mem) {
    && m2.Parted() && m2.Pages() == m.Pages()
    && m2.tables == m.tables - t.TablePages()
    && m2.frames == m.frames - FramesOf(m, t, 0, n)
    && m2.FreeSet() == m.FreeSet() + t.TablePages() + FramesOf(m, t, 0, n)
  }

  lemma UnmappedThenFreed(m: Mem, t: Tree, n: nat, m1: Mem, m2: Mem)
    requires RangeUnmapped(m, t, m1, 0, n, true) && Freed(m1, RootSub(t), m2)
    ensures Released(m, t, n, m2)
  {
    hide Tree.TablePages, Mem.Pages, PagesOf, Entry, FramesOf, Mem.Parted, Mem.FreeSet;
    RootPages(t);
    hide TreeOk;
    assert m2.tables.Keys == (m.tables - t.TablePages()).Keys;
  }

  /** uvmfree: false is a panic, at a hole below sz or a mapping left above it. */
  method Uvmfree(vm: Vm, pagetable: nat, sz: nat, ghost t: Tree) returns (ok: bool)
    requires vm.M().Parted() && TreeOk(vm.M(), t) && RealLeaves(vm.M(), t) && pagetable == t.root
    requires LeavesApart(vm.M(), t, 0, Pages(sz))
    modifies vm
    ensures ok ==> Released(old(vm.M()), t, Pages(sz), vm.M())
    ensures ok && sz == 0 ==> Freed(old(vm.M()), RootSub(t), vm.M())
    ensures ok <==> Pages(sz) * PGSIZE <= MAXVA
                    && forall w: nat :: if w < Pages(sz) then IsLeaf(Entry(old(vm.M()), t, w))
                                        else !V(Entry(old(vm.M()), t, w))
  {
    hide TreeOk, Mem.Parted, Entry, LeavesApart, RangeUnmapped, Holds, NoLeaf, Separate, Freed, IsLeaf, Released, V;
    hide RootSub;
    ghost var m := vm.M();
    RangeUnmappedNone(m, t, 0, true);
    assert sz == 0 ==> Pages(sz) == 0;
    if sz > 0 {
      assert Pages(sz) > 0;
      var done := vm.Uvmunmap(pagetable, 0, Pages(sz), true, t);
      if !done {
        return false;
      }
    }
    ghost var m1 := vm.M();
    RangeUnmappedFacts(m, t, m1, 0, Pages(sz), true);
    LeavesLeft(m, t, m1, Pages(sz));
    RootHolds(m1, t);
    TreeDistinct(m1, t);
    RootSeparate(t);
    RootFacts(t);
    ok := vm.Freewalk(pagetable, RootSub(t));
    if ok {
      UnmappedThenFreed(m, t, Pages(sz), m1, vm.M());
    }
  }

  lemma RootFacts(t: Tree)
    ensures RootSub(t).Sub? && RootSub(t).page == t.root
  {
  }

  lemma TreeDistinct(m: Mem, t: Tree)
    requires TreeOk(m, t)
    ensures t.Distinct()
  {
  }

  lemma LeavesLeft(m: Mem, t: Tree, m1: Mem, n: nat)
    requires RealLeaves(m, t) && forall w: nat :: Entry(m1, t, w) == if 0 <= w < n then 0 else Entry(m, t, w)
    ensures RealLeaves(m1, t)
    ensures (forall w: nat :: !V(Entry(m1, t, w))) <==> forall w: nat :: w >= n ==> !V(Entry(m, t, w))
  {
    hide Entry;
    assert forall w: nat :: w >= n ==> Entry(m1, t, w) == Entry(m, t, w);
  }

  /** The two kernel pages of a process's tree: its trapframe page and the shared trampoline. */
  function KernelEntry(trampoline: nat, trapframe: nat, w: nat): nat {
    if w == TRAMP_VPN then MakePte(trampoline, PTE_R + PTE_X)
    else if w == FRAME_VPN then MakePte(trapframe, PTE_R + PTE_W)
    else 0
  }

  /** The tree maps the kernel pages in [from, MAXVPN) and nothing else. */
  ghost predicate KernelOnly(m: Mem, t: Tree, trampoline: nat, trapframe: nat, from: nat) {
    forall w: nat :: Entry(m, t, w) == if w >= from then KernelEntry(trampoline, trapframe, w) else 0
  }

  lemma KernelEntryFacts(trampoline: nat, trapframe: nat)
    ensures IsLeaf(KernelEntry(trampoline, trapframe, TRAMP_VPN))
    ensures IsLeaf(KernelEntry(trampoline, trapframe, FRAME_VPN))
    ensures forall w :: Rwx(KernelEntry(trampoline, trapframe, w)) || KernelEntry(trampoline, trapframe, w) == 0
    ensures TRAMPOLINE / PGSIZE == TRAMP_VPN && TRAPFRAME / PGSIZE == FRAME_VPN
    ensures (TRAMPOLINE + PGSIZE - 1) / PGSIZE == TRAMP_VPN && (TRAPFRAME + PGSIZE - 1) / PGSIZE == FRAME_VPN
  {
    MakePteFacts(trampoline, PTE_R + PTE_X);
    MakePteFacts(trapframe, PTE_R + PTE_W);
  }

  /** Freeing a tree that maps nothing gives back all it was built from. */
  method DestroyEmpty(vm: Vm, pagetable: nat, ghost m: Mem, ghost t: Tree) returns (ok: bool)
    requires Built(m, vm.M(), t) && pagetable == t.root && forall w: nat :: Entry(vm.M(), t, w) == 0
    modifies vm
    ensures ok && Restored(m, vm.M())
  {
    hide Built, TreeOk, Mem.Parted, Entry, RangeUnmapped, Freed, Released, Restored;
    BuiltFacts(m, vm.M(), t);
    ghost var m1 := vm.M();
    ok := Uvmfree(vm, pagetable, 0, t);
    BuiltFreed(m, m1, t, vm.M());
  }

  /** proc_freepagetable of a process without user memory, built from m. */
  method ProcFreepagetable(vm: Vm, pagetable: nat, ghost m: Mem, ghost t: Tree, ghost trampoline: nat,
                           ghost trapframe: nat)
    returns (ok: bool)
    requires Built(m, vm.M(), t) && pagetable == t.root && KernelOnly(vm.M(), t, trampoline, trapframe, 0)
    modifies vm
    ensures ok && Restored(m, vm.M())
  {
    hide Built, TreeOk, Mem.Parted, Entry, RangeUnmapped, Restored, KernelEntry, IsLeaf;
    KernelEntryFacts(trampoline, trapframe);
    KernelElsewhere(trampoline, trapframe);
    ghost var m1 := vm.M();
    BuiltFacts(m, m1, t);
    var ok1 := vm.Uvmunmap(pagetable, TRAMPOLINE, 1, false, t);
    ghost var m2 := vm.M();
    BuiltUnmapped(m, m1, t, m2, TRAMP_VPN, 1);
    BuiltFacts(m, m2, t);
    RangeUnmappedFacts(m1, t, m2, TRAMP_VPN, 1, false);
    var ok2 := vm.Uvmunmap(pagetable, TRAPFRAME, 1, false, t);
    BuiltUnmapped(m, m2, t, vm.M(), FRAME_VPN, 1);
    RangeUnmappedFacts(m2, t, vm.M(), FRAME_VPN, 1, false);
    ok := DestroyEmpty(vm, pagetable, m, t);
    ok := ok && ok1 && ok2;
  }

  lemma KernelElsewhere(trampoline: nat, trapframe: nat)
    ensures forall w :: w != TRAMP_VPN && w != FRAME_VPN ==> KernelEntry(trampoline, trapframe, w) == 0
  {
  }

  lemma MappedFirst(m: Mem, t: Tree, m2: Mem, t2: Tree, trampoline: nat, trapframe: nat)
    requires forall w: nat :: Entry(m, t, w) == 0
    requires RangeMapped(m, t, m2, t2, TRAMP_VPN, 1, trampoline, PTE_R + PTE_X)
    ensures KernelOnly(m2, t2, trampoline, trapframe, TRAMP_VPN)
  {
    hide Entry, Grown, MakePte;
  }

  lemma MappedSecond(m: Mem, t: Tree, m2: Mem, t2: Tree, trampoline: nat, trapframe: nat)
    requires KernelOnly(m, t, trampoline, trapframe, TRAMP_VPN)
    requires RangeMapped(m, t, m2, t2, FRAME_VPN, 1, trapframe, PTE_R + PTE_W)
    ensures KernelOnly(m2, t2, trampoline, trapframe, 0)
  {
    hide Entry, Grown, MakePte;
  }

  /** proc_pagetable: a tree with the two kernel pages, or null with everything given back. */
  method ProcPagetable(vm: Vm, trampoline: nat, trapframe: nat) returns (r: Option<nat>, ghost t: Tree)
    requires vm.M().Parted()
    modifies vm
    ensures r.None? ==> Restored(old(vm.M()), vm.M())
    ensures r.Some? ==> Built(old(vm.M()), vm.M(), t) && r.value == t.root
                        && KernelOnly(vm.M(), t, trampoline, trapframe, 0)
  {
    hide Built, TreeOk, Mem.Parted, Entry, RangeUnmapped, RangeMapped, Restored, KernelEntry, IsLeaf, KernelOnly;
    ghost var m := vm.M();
    t := EmptyTree(0);
    if vm.free == [] {
      RestoredRefl(m);
      return None, t;
    }
    t := EmptyTree(vm.free[0]);
    CreateBuilt(m);
    var pagetable := vm.free[0];
    vm.tables, vm.free := vm.tables[pagetable := ZeroTable()], vm.free[1..];
    r, t := MapKernelPages(vm, pagetable, trampoline, trapframe, m, t);
  }

  method MapKernelPages(vm: Vm, pagetable: nat, trampoline: nat, trapframe: nat, ghost m: Mem, ghost t0: Tree)
    returns (r: Option<nat>, ghost t: Tree)
    requires Built(m, vm.M(), t0) && pagetable == t0.root && forall w: nat :: Entry(vm.M(), t0, w) == 0
    modifies vm
    ensures r.None? ==> Restored(m, vm.M())
    ensures r.Some? ==> Built(m, vm.M(), t) && r.value == t.root && KernelOnly(vm.M(), t, trampoline, trapframe, 0)
  {
    hide Built, TreeOk, Mem.Parted, Entry, RangeUnmapped, RangeMapped, Restored, KernelEntry, IsLeaf, KernelOnly, Grown;
    KernelEntryFacts(trampoline, trapframe);
    ghost var m1 := vm.M();
    BuiltFacts(m, m1, t0);
    PteFacts(0);
    var r1, t1, done := vm.Mappages(pagetable, TRAMPOLINE, PGSIZE, trampoline * PGSIZE, PTE_R + PTE_X, t0);
    ghost var m2 := vm.M();
    assert trampoline * PGSIZE / PGSIZE == trampoline && trapframe * PGSIZE / PGSIZE == trapframe;
    RangeMappedGrown(m1, t0, m2, t1, TRAMP_VPN, done, trampoline, PTE_R + PTE_X);
    RangeMappedFacts(m1, t0, m2, t1, TRAMP_VPN, done, trampoline, PTE_R + PTE_X);
    BuiltGrown(m, m1, t0, m2, t1);
    if r1 != Some(0) {
      SameAsBefore(m1, t0, m2, t1, TRAMP_VPN, trampoline, PTE_R + PTE_X);
      var ok := DestroyEmpty(vm, pagetable, m, t1);
      return None, t1;
    }
    MappedFirst(m1, t0, m2, t1, trampoline, trapframe);
    KernelTop(m2, t1, trampoline, trapframe);
    var r2, t2, done2 := vm.Mappages(pagetable, TRAPFRAME, PGSIZE, trapframe * PGSIZE, PTE_R + PTE_W, t1);
    RangeMappedGrown(m2, t1, vm.M(), t2, FRAME_VPN, done2, trapframe, PTE_R + PTE_W);
    RangeMappedFacts(m2, t1, vm.M(), t2, FRAME_VPN, done2, trapframe, PTE_R + PTE_W);
    BuiltGrown(m, m2, t1, vm.M(), t2);
    if r2 != Some(0) {
      SameAsBefore(m2, t1, vm.M(), t2, FRAME_VPN, trapframe, PTE_R + PTE_W);
      UndoTrampoline(vm, pagetable, m, t2);
      return None, t2;
    }
    MappedSecond(m2, t1, vm.M(), t2, trampoline, trapframe);
    return Some(pagetable), t2;
  }

  lemma SameAsBefore(m: Mem, t: Tree, m2: Mem, t2: Tree, v: nat, ppn: nat, perm: nat)
    requires RangeMapped(m, t, m2, t2, v, 0, ppn, perm)
    ensures forall w: nat :: Entry(m2, t2, w) == Entry(m, t, w)
  {
  }

  lemma KernelTop(m: Mem, t: Tree, trampoline: nat, trapframe: nat)
    requires KernelOnly(m, t, trampoline, trapframe, TRAMP_VPN)
    ensures Entry(m, t, TRAMP_VPN) == KernelEntry(trampoline, trapframe, TRAMP_VPN)
    ensures forall w: nat :: w != TRAMP_VPN ==> Entry(m, t, w) == 0
  {
    hide Entry, MakePte;
  }

  /** The second failure path of proc_pagetable. */
  method UndoTrampoline(vm: Vm, pagetable: nat, ghost m: Mem, ghost t: Tree)
    requires Built(m, vm.M(), t) && pagetable == t.root && IsLeaf(Entry(vm.M(), t, TRAMP_VPN))
    requires forall w: nat :: w != TRAMP_VPN ==> Entry(vm.M(), t, w) == 0
    modifies vm
    ensures Restored(m, vm.M())
  {
    hide Built, TreeOk, Mem.Parted, Entry, RangeUnmapped, Restored, IsLeaf;
    ghost var m1 := vm.M();
    BuiltFacts(m, m1, t);
    assert TRAMPOLINE / PGSIZE == TRAMP_VPN;
    var ok := vm.Uvmunmap(pagetable, TRAMPOLINE, 1, false, t);
    BuiltUnmapped(m, m1, t, vm.M(), TRAMP_VPN, 1);
    RangeUnmappedFacts(m1, t, vm.M(), TRAMP_VPN, 1, false);
    ok := DestroyEmpty(vm, pagetable, m, t);
  }

  // ----------------------------------------------------------------------- fork

  /** kfree of the trapframe page, after a tree was built and emptied or never built. */
  lemma RestoredDropFrame(m: Mem, data: seq<Byte>, m2: Mem)
    requires m.Parted() && m.free != [] && Restored(m.NewFrame(data), m2)
    ensures Restored(m, m2.DropFrame(m.free[0]))
  {
    hide Mem.Parted, Mem.FreeSet, Mem.Pages;
    FrameBack(m, data, m2);
  }

  /** A page taken for a frame, given back. */
  lemma FrameBack(m: Mem, data: seq<Byte>, m2: Mem)
    requires m.Parted() && m.free != [] && m2.Parted() && m2.frames == m.NewFrame(data).frames
    ensures var f := m.free[0];
      && m2.DropFrame(f).Parted() && m2.DropFrame(f).frames == m.frames
      && m2.DropFrame(f).FreeSet() == m2.FreeSet() + {f}
      && m.NewFrame(data).FreeSet() == m.FreeSet() - {f} && f in m.FreeSet() && m.NewFrame(data).Parted()
  {
    var f := m.free[0];
    assert f !in m.frames && f in m2.frames;
    AllocParted(m, data);
    HeadIsFree(m);
    DropParted(m2, f);
    hide Mem.Parted, Mem.FreeSet, Mem.Pages;
    assert m2.DropFrame(f).frames == m.frames;
  }

  lemma BuiltDropFrame(m: Mem, data: seq<Byte>, m2: Mem, t: Tree)
    requires m.Parted() && m.free != [] && Built(m.NewFrame(data), m2, t)
    ensures Built(m, m2.DropFrame(m.free[0]), t)
    ensures forall w: nat :: Entry(m2.DropFrame(m.free[0]), t, w) == Entry(m2, t, w)
  {
    hide Mem.Parted, Mem.FreeSet, Mem.Pages, TreeOk, Tree.TablePages, Entry;
    FrameBack(m, data, m2);
    DropFrameTree(m2, t, m.free[0]);
    SetsBack(m.FreeSet(), m.NewFrame(data).FreeSet(), m2.FreeSet(), t.TablePages(), m.free[0]);
  }

  lemma SetsBack(f: set<nat>, f1: set<nat>, f2: set<nat>, s: set<nat>, p: nat)
    requires p in f && f1 == f - {p} && s <= f1 && f2 == f1 - s
    ensures s <= f && f2 + {p} == f - s
  {
  }

  /** The parent's tree is not touched by building the child's. */
  lemma BuiltOther(m: Mem, m2: Mem, t: Tree, t1: Tree)
    requires Built(m, m2, t) && TreeOk(m, t1)
    ensures TreeOk(m2, t1) && t1.TablePages() !! t.TablePages() && SameEntries(m, t1, m2, t1)
  {
    TreePagesInTables(m, t1);
    hide TreeOk, Entry, Tree.TablePages;
    forall p | p in t1.TablePages()
      ensures p !in t.TablePages() && p in m.tables && p in m2.tables && m2.tables[p] == m.tables[p]
    {
      assert p !in m.FreeSet();
    }
    TreeFrame(m, m2, t1);
  }

  /** The tree of a process of n user pages: those, the trapframe, the trampoline, nothing else. */
  ghost predicate ProcTree(m: Mem, t: Tree, n: nat, trampoline: nat, trapframe: nat) {
    && n <= FRAME_VPN && Unaliased(m, t, 0, n)
    && (forall w :: 0 <= w < n ==> IsLeaf(Entry(m, t, w)) && Rwx(Entry(m, t, w)))
    && (forall w: nat :: w >= n ==> Entry(m, t, w) == KernelEntry(trampoline, trapframe, w))
  }

  /** From m to m2 exactly the pages of tree t2, a trapframe and the frames behind its n pages were taken. */
  ghost predicate Taken(m: Mem, m2: Mem, t2: Tree, n: nat, trapframe: nat) {
    && m2.Parted() && m2.Pages() == m.Pages()
    && t2.TablePages() !! m.tables.Keys && m2.tables.Keys == m.tables.Keys + t2.TablePages()
    && (forall p :: p in m.tables ==> m2.tables[p] == m.tables[p])
    && trapframe !in m.frames && m2.frames.Keys == m.frames.Keys + {trapframe} + FramesOf(m2, t2, 0, n)
    && FramesOf(m2, t2, 0, n) !! m.frames.Keys + {trapframe}
    && (forall p :: p in m.frames ==> m2.frames[p] == m.frames[p])
  }

  /**
    What fork promises of memory: the child's pages are copies in frames of their
    own, exactly what the child consists of was taken, the parent is as before.
  */
  ghost predicate Forked(m: Mem, t1: Tree, m2: Mem, t2: Tree, n: nat, trampoline: nat, trapframe: nat) {
    && Taken(m, m2, t2, n, trapframe)
    && TreeOk(m2, t1) && TreeOk(m2, t2) && SameEntries(m, t1, m2, t1)
    && (forall w :: 0 <= w < n ==> PageCopied(m, t1, m2, t2, w))
    && ProcTree(m2, t2, n, trampoline, trapframe)
  }

  lemma ForkedFrom(m: Mem, data: seq<Byte>, t1: Tree, m1: Mem, t: Tree, m2: Mem, t2: Tree, n: nat, trampoline: nat)
    requires m.Parted() && m.free != [] && TreeOk(m, t1) && n <= FRAME_VPN
    requires Built(m.NewFrame(data), m1, t) && Copying(m1, t1, t, m2, t2, n)
    requires KernelOnly(m1, t, trampoline, m.free[0], 0)
    requires forall w :: 0 <= w < n ==>
      IsLeaf(Entry(m, t1, w)) && Rwx(Entry(m, t1, w)) && Ppn(Entry(m, t1, w)) in m.frames
    ensures Forked(m, t1, m2, t2, n, trampoline, m.free[0])
  {
    hide TreeOk, Entry, Tree.TablePages, Mem.Parted, Mem.Pages, Built, KernelEntry, Ppn, Flags, V, FramesOf, Extends;
    hide PagesCopied, TreesKept, IsLeaf, Rwx, PageCopied, Taken, Unaliased;
    var p := m.free[0];
    ParentSeen(m, data, t1, m1, t);
    CopyingFacts(m1, t1, t, m2, t2, n);
    CopiedPages(m, t1, m1, t, m2, t2, n);
    CopyingUnaliased(m1, t1, t, m2, t2, n);
    assert forall w: nat :: w >= n ==> Entry(m2, t2, w) == KernelEntry(trampoline, p, w);
    forall w | 0 <= w < n ensures IsLeaf(Entry(m2, t2, w)) && Rwx(Entry(m2, t2, w)) {
      CopiedKind(m, t1, m2, t2, w);
    }
    TakenFrom(m, data, t1, m1, t, m2, t2, n);
  }

  /** Flags decide whether an entry is a leaf with permissions. */
  lemma CopiedKind(m: Mem, t1: Tree, m2: Mem, t2: Tree, w: nat)
    requires PageCopied(m, t1, m2, t2, w) && IsLeaf(Entry(m, t1, w)) && Rwx(Entry(m, t1, w))
    ensures IsLeaf(Entry(m2, t2, w)) && Rwx(Entry(m2, t2, w))
  {
    RwxByFlags(Entry(m, t1, w));
    RwxByFlags(Entry(m2, t2, w));
    hide Entry, Rwx, Ppn;
  }

  lemma RwxByFlags(e: nat)
    ensures Rwx(e) <==> Flags(e) / 2 % 8 != 0
  {
    var p, f := Ppn(e), Flags(e);
    assert e == p * 1024 + f && e / 2 == p * 512 + f / 2;
  }

  lemma TakenFrom(m: Mem, data: seq<Byte>, t1: Tree, m1: Mem, t: Tree, m2: Mem, t2: Tree, n: nat)
    requires m.Parted() && m.free != [] && TreeOk(m, t1)
    requires Built(m.NewFrame(data), m1, t) && Copying(m1, t1, t, m2, t2, n)
    ensures Taken(m, m2, t2, n, m.free[0])
  {
    hide TreeOk, Entry, Tree.TablePages, Mem.Pages, Ppn, Flags, V, FramesOf, Extends, KernelOnly, Mem.Parted;
    ParentSeen(m, data, t1, m1, t);
    TakenTables(m, data, m1, t, t1, m2, t2);
    CopiedApart(m1, t1, t, m2, t2, n);
  }

  lemma CopiedApart(m1: Mem, t1: Tree, t: Tree, m2: Mem, t2: Tree, n: nat)
    requires PagesCopied(m1, t1, t, m2, t2, n)
    ensures FramesOf(m2, t2, 0, n) !! m1.frames.Keys
  {
    hide Entry, Ppn, Flags, V;
    forall q | q in FramesOf(m2, t2, 0, n) ensures q !in m1.frames {
      var w :| 0 <= w < n && Ppn(Entry(m2, t2, w)) == q;
      assert PageCopied(m1, t1, m2, t2, w);
    }
  }

  lemma TakenTables(m: Mem, data: seq<Byte>, m1: Mem, t: Tree, t1: Tree, m2: Mem, t2: Tree)
    requires m.Parted() && m.free != [] && Built(m.NewFrame(data), m1, t) && TreesKept(m1, t1, t, m2, t2)
    ensures t2.TablePages() !! m.tables.Keys && m2.tables.Keys == m.tables.Keys + t2.TablePages()
    ensures forall p :: p in m.tables ==> m2.tables[p] == m.tables[p]
  {
    hide TreeOk, Entry, Tree.TablePages, Mem.Pages, Extends, Mem.Parted, Mem.FreeSet, SameEntries;
    ExtendedPages(t, t2);
    FreeNotTables(m.NewFrame(data));
    assert m.NewFrame(data).tables == m.tables;
    forall p | p in m.tables ensures p !in t2.TablePages() && p in m2.tables && m2.tables[p] == m.tables[p] {
      assert p in m1.tables && p !in t.TablePages();
    }
  }

  lemma FreeNotTables(m: Mem)
    ensures m.Parted() ==> m.FreeSet() !! m.tables.Keys
  {
  }

  /** Before uvmcopy: the trapframe page and the child's tree do not disturb the parent. */
  lemma ParentSeen(m: Mem, data: seq<Byte>, t1: Tree, m1: Mem, t: Tree)
    requires m.Parted() && m.free != [] && TreeOk(m, t1) && Built(m.NewFrame(data), m1, t)
    ensures m1.frames == m.frames[m.free[0] := data] && m.free[0] !in m.frames
    ensures m1.Pages() == m.Pages() && SameEntries(m, t1, m1, t1)
  {
    AllocParted(m, data);
    assert m.free[0] !in m.frames;
    hide TreeOk, Entry, Tree.TablePages, Mem.Parted, Mem.Pages, Built;
    NewFrameTree(m, t1, data);
    BuiltOther(m.NewFrame(data), m1, t, t1);
    BuiltFacts(m.NewFrame(data), m1, t);
  }

  lemma CopiedPages(m: Mem, t1: Tree, m1: Mem, t: Tree, m2: Mem, t2: Tree, n: nat)
    requires PagesCopied(m1, t1, t, m2, t2, n) && SameEntries(m, t1, m1, t1)
    requires forall p :: p in m.frames ==> p in m1.frames && m1.frames[p] == m.frames[p]
    requires forall w :: 0 <= w < n ==> Ppn(Entry(m, t1, w)) in m.frames
    ensures forall w :: 0 <= w < n ==> PageCopied(m, t1, m2, t2, w)
    ensures forall w, x :: 0 <= w < x < n ==> Ppn(Entry(m2, t2, w)) != Ppn(Entry(m2, t2, x))
  {
    hide Entry, Ppn, Flags, V, FramesOf;
    forall w | 0 <= w < n ensures PageCopied(m, t1, m2, t2, w) {
      assert PageCopied(m1, t1, m2, t2, w);
      assert Entry(m1, t1, w) == Entry(m, t1, w);
    }
  }

  /**
    allocproc and uvmcopy as fork calls them, with freeproc on every failure
    path: a failed fork leaves the same free pages, tables and frames.
  */
  method ForkMemory(vm: Vm, trampoline: nat, parent: nat, sz: nat, junk: seq<Byte>, ghost t1: Tree)
    returns (r: Option<nat>, trapframe: nat, ghost t2: Tree)
    requires vm.M().Parted() && TreeOk(vm.M(), t1) && parent == t1.root
    requires exists k: nat :: ProcTree(vm.M(), t1, Pages(sz), trampoline, k)
    modifies vm
    ensures r.None? ==> Restored(old(vm.M()), vm.M())
    ensures r.Some? ==> Forked(old(vm.M()), t1, vm.M(), t2, Pages(sz), trampoline, trapframe) && r.value == t2.root
    ensures r.Some? ==> trapframe in vm.frames && vm.frames[trapframe] == junk
  {
    hide Built, TreeOk, Mem.Parted, Entry, Restored, KernelEntry, IsLeaf, KernelOnly, Copying, CopyFailed, Forked, Ppn;
    hide Tree.TablePages, ProcTree, Rwx;
    ghost var m := vm.M();
    t2 := t1;
    ParentPages(m, t1, Pages(sz), trampoline);
    if vm.free == [] {
      RestoredRefl(m);
      return None, 0, t2;
    }
    AllocParted(m, junk);
    NewFrameTree(m, t1, junk);
    trapframe := vm.free[0];
    vm.frames, vm.free := vm.frames[trapframe := junk], vm.free[1..];
    ghost var m1 := vm.M();
    assert m1 == m.NewFrame(junk);
    var pt, t := ProcPagetable(vm, trampoline, trapframe);
    if pt.None? {
      RestoredDropFrame(m, junk, vm.M());
      vm.frames, vm.free := vm.frames - {trapframe}, [trapframe] + vm.free;
      return None, trapframe, t2;
    }
    ghost var m2 := vm.M();
    BuiltOther(m1, m2, t, t1);
    BuiltFacts(m1, m2, t);
    CopyReady(m, t1, m2, t, Pages(sz), trampoline, trapframe);
    var c, t3 := vm.Uvmcopy(parent, pt.value, sz, t1, t);
    t2 := t3;
    assert c.Some?;
    if c == Some(-1) {
      BuiltCopyFailed(m1, m2, t1, t, vm.M(), t3);
      BuiltDropFrame(m, junk, vm.M(), t3);
      KernelKept(m2, t1, t, vm.M(), t3, trampoline, trapframe);
      ghost var m4 := vm.M();
      vm.frames, vm.free := vm.frames - {trapframe}, [trapframe] + vm.free;
      KernelSame(m4, vm.M(), t3, trampoline, trapframe);
      var ok := ProcFreepagetable(vm, pt.value, m, t3, trampoline, trapframe);
      return None, trapframe, t2;
    }
    CopyingFacts(m2, t1, t, vm.M(), t3, Pages(sz));
    ForkedFrom(m, junk, t1, m2, t, vm.M(), t3, Pages(sz), trampoline);
    return pt, trapframe, t2;
  }

  lemma ParentPages(m: Mem, t1: Tree, n: nat, trampoline: nat)
    requires exists k: nat :: ProcTree(m, t1, n, trampoline, k)
    ensures n <= FRAME_VPN
    ensures forall w :: 0 <= w < n ==>
      IsLeaf(Entry(m, t1, w)) && Rwx(Entry(m, t1, w)) && Ppn(Entry(m, t1, w)) in m.frames
  {
    hide Entry, IsLeaf, Rwx, KernelEntry, Ppn;
  }

  lemma CopyReady(m: Mem, t1: Tree, m2: Mem, t: Tree, n: nat, trampoline: nat, trapframe: nat)
    requires KernelOnly(m2, t, trampoline, trapframe, 0) && n <= FRAME_VPN
    requires forall w: nat :: Entry(m2, t1, w) == Entry(m, t1, w)
    requires forall w :: 0 <= w < n ==> IsLeaf(Entry(m, t1, w))
    ensures forall w :: 0 <= w < n ==> Entry(m2, t, w) == 0
    ensures forall w :: 0 <= w < n ==> IsLeaf(Entry(m2, t1, w)) && V(Entry(m2, t1, w))
  {
    hide Entry, MakePte;
  }

  lemma KernelSame(m: Mem, m2: Mem, t: Tree, trampoline: nat, trapframe: nat)
    requires KernelOnly(m, t, trampoline, trapframe, 0) && forall w: nat :: Entry(m2, t, w) == Entry(m, t, w)
    ensures KernelOnly(m2, t, trampoline, trapframe, 0)
  {
    hide Entry, KernelEntry;
  }

  lemma KernelKept(m: Mem, t1: Tree, t: Tree, m2: Mem, t2: Tree, trampoline: nat, trapframe: nat)
    requires KernelOnly(m, t, trampoline, trapframe, 0) && CopyFailed(m, t1, t, m2, t2)
    ensures KernelOnly(m2, t2, trampoline, trapframe, 0) && t2.root == t.root
  {
    hide Entry, KernelEntry, TreeOk;
  }
}
