/**
  The memory side of exec: a new address space is built beside the old one, and
  either takes its place or is given back page for page.

  Building(m0, m, t, sz, ...) is the state on the way: from memory m0 a tree t was
  built out of free pages, its user pages below sz are frames that were free, and
  everything that was there before is as it was. It survives

  - uvmalloc, successful or not (GrowImage);
  - writes through the new tree, by loadseg and copyout (CopiedBuilding);
  - uvmclear of the guard page (ClearedBuilding).

  proc_freepagetable undoes it (FreeProcess, ImageReleased).
*/
module ExecMemory {
  import opened Wrappers
  import opened Blocks
  import opened PageTable
  import opened AddressSpace
  import opened TableTree
  import opened VirtualMemory
  import opened AddressGrowth
  import opened ProcMemory
  import opened UserCopy
  import opened ImageBytes
  import opened ImageArgs

  // ------------------------------------------------------------ freeing a process

  /** Unmapping the two kernel pages leaves the user pages. */
  ghost predicate UserOnly(m: Mem, t: Tree, n: nat, m2: Mem) {
    && m2.Parted() && TreeOk(m2, t) && m2.Pages() == m.Pages() && m2.FreeSet() == m.FreeSet() && m2.frames == m.frames
    && m2.tables.Keys == m.tables.Keys
    && (forall p :: p in m.tables && p !in t.TablePages() ==> m2.tables[p] == m.tables[p])
    && (forall w: nat :: Entry(m2, t, w) == if w < n then Entry(m, t, w) else 0)
  }

  lemma KernelGone(m: Mem, t: Tree, n: nat, trampoline: nat, trapframe: nat, m1: Mem, m2: Mem)
    requires ProcTree(m, t, n, trampoline, trapframe)
    requires RangeUnmapped(m, t, m1, TRAMP_VPN, 1, false) && RangeUnmapped(m1, t, m2, FRAME_VPN, 1, false)
    ensures UserOnly(m, t, n, m2)
  {
    KernelElsewhere(trampoline, trapframe);
    hide TreeOk, Mem.Parted, Mem.Pages, Mem.FreeSet, Entry, KernelEntry, FramesOf, Tree.TablePages, Unaliased, IsLeaf;
    hide Rwx;
  }

  lemma UserOnlyReady(m: Mem, t: Tree, n: nat, trampoline: nat, trapframe: nat, m2: Mem)
    requires ProcTree(m, t, n, trampoline, trapframe) && UserOnly(m, t, n, m2)
    ensures RealLeaves(m2, t) && Unaliased(m2, t, 0, n) && FramesOf(m2, t, 0, n) == FramesOf(m, t, 0, n)
    ensures forall w: nat :: if w < n then IsLeaf(Entry(m2, t, w)) else !V(Entry(m2, t, w))
  {
    PteFacts(0);
    hide TreeOk, Mem.Parted, Mem.Pages, Mem.FreeSet, Entry, KernelEntry, Tree.TablePages, Ppn, IsLeaf, Rwx, V;
    assert FramesOf(m2, t, 0, n) == FramesOf(m, t, 0, n);
  }

  lemma ReleasedFrom(m: Mem, t: Tree, n: nat, m2: Mem, m3: Mem)
    requires UserOnly(m, t, n, m2) && FramesOf(m2, t, 0, n) == FramesOf(m, t, 0, n) && Released(m2, t, n, m3)
    ensures Released(m, t, n, m3)
  {
    hide TreeOk, Mem.Parted, Mem.Pages, Mem.FreeSet, Entry, Tree.TablePages, FramesOf;
    assert m3.tables == m.tables - t.TablePages();
  }

  /** proc_freepagetable: user frames and page tables go back to the free list, nothing else changes. */
  method FreeProcess(vm: Vm, pagetable: nat, sz: nat, ghost t: Tree, ghost trampoline: nat, ghost trapframe: nat)
    returns (ok: bool)
    requires vm.M().Parted() && TreeOk(vm.M(), t) && pagetable == t.root
    requires ProcTree(vm.M(), t, Pages(sz), trampoline, trapframe)
    modifies vm
    ensures ok && Released(old(vm.M()), t, Pages(sz), vm.M())
  {
    hide TreeOk, Mem.Parted, Entry, RangeUnmapped, KernelEntry, IsLeaf, Unaliased, Released, UserOnly, Rwx, RealLeaves;
    ghost var m := vm.M();
    KernelEntryFacts(trampoline, trapframe);
    var ok1 := vm.Uvmunmap(pagetable, TRAMPOLINE, 1, false, t);
    ghost var m1 := vm.M();
    RangeUnmappedFacts(m, t, m1, TRAMP_VPN, 1, false);
    var ok2 := vm.Uvmunmap(pagetable, TRAPFRAME, 1, false, t);
    ghost var m2 := vm.M();
    RangeUnmappedFacts(m1, t, m2, FRAME_VPN, 1, false);
    KernelGone(m, t, Pages(sz), trampoline, trapframe, m1, m2);
    UserOnlyReady(m, t, Pages(sz), trampoline, trapframe, m2);
    UnaliasedLeaves(m2, t, 0, Pages(sz));
    ok := Uvmfree(vm, pagetable, sz, t);
    ReleasedFrom(m, t, Pages(sz), m2, vm.M());
    ok := ok && ok1 && ok2;
  }

  // -------------------------------------------------------------- the image being built

  /** From m0 a tree was built from free pages, with n user pages in frames that were free. */
  ghost predicate Image(m0: Mem, m: Mem, t: Tree, n: nat) {
    && m0.Parted() && m.Parted() && m.Pages() == m0.Pages() && TreeOk(m, t)
    && t.TablePages() !! m0.tables.Keys
    && m.tables.Keys == m0.tables.Keys + t.TablePages()
    && (forall p :: p in m0.tables ==> m.tables[p] == m0.tables[p])
    && ImageFrames(m0, m, t, n)
  }

  ghost predicate ImageFrames(m0: Mem, m: Mem, t: Tree, n: nat) {
    && (forall p :: p in m0.frames ==> p in m.frames && m.frames[p] == m0.frames[p])
    && (forall w :: 0 <= w < n ==> Ppn(Entry(m, t, w)) !in m0.frames)
    && m.frames.Keys == m0.frames.Keys + FramesOf(m, t, 0, n)
  }

  lemma ImageStart(m0: Mem, m: Mem, t: Tree)
    requires Built(m0, m, t)
    ensures Image(m0, m, t, 0)
  {
    BuiltFacts(m0, m, t);
    assert FramesOf(m, t, 0, 0) == {};
    assert forall p :: p in m0.tables ==> p !in m0.FreeSet();
    hide TreeOk, Mem.Pages, Tree.TablePages;
  }

  /** Giving back the tree and its user frames restores everything. */
  lemma ImageReleased(m0: Mem, m: Mem, t: Tree, n: nat, m2: Mem)
    requires Image(m0, m, t, n) && Released(m, t, n, m2)
    ensures Restored(m0, m2)
  {
    ImageBack(m0, m, t, n, m2);
    FreeByPages(m0);
    FreeByPages(m2);
    hide Image, Released, Mem.Parted, Mem.Pages, Mem.FreeSet;
  }

  lemma ImageBack(m0: Mem, m: Mem, t: Tree, n: nat, m2: Mem)
    requires Image(m0, m, t, n) && Released(m, t, n, m2)
    ensures m0.Parted() && m2.Parted() && m2.Pages() == m0.Pages() && m2.tables == m0.tables && m2.frames == m0.frames
  {
    hide TreeOk, Mem.Parted, Mem.Pages, Mem.FreeSet, Tree.TablePages, Entry;
    assert m2.tables.Keys == m0.tables.Keys;
    assert forall p :: p in m0.tables ==> m2.tables[p] == m0.tables[p];
    forall q | q in FramesOf(m, t, 0, n) ensures q !in m0.frames {
      var w :| 0 <= w < n && Ppn(Entry(m, t, w)) == q;
    }
    assert m2.frames.Keys == m0.frames.Keys;
    assert forall p :: p in m0.frames ==> m2.frames[p] == m0.frames[p];
  }

  /** The tree grows within free pages. */
  lemma ImageTree(m0: Mem, m: Mem, t: Tree, n: nat, m2: Mem, t2: Tree)
    requires Image(m0, m, t, n) && TreeGrew(m, t, m2, t2)
    ensures m2.Parted() && m2.Pages() == m0.Pages() && TreeOk(m2, t2) && t2.TablePages() !! m0.tables.Keys
    ensures m2.tables.Keys == m0.tables.Keys + t2.TablePages()
    ensures forall p :: p in m0.tables ==> m2.tables[p] == m0.tables[p]
  {
    ExtendedPages(t, t2);
    hide TreeOk, Mem.Parted, Mem.Pages, Tree.TablePages, Entry, ImageFrames, Extends;
    forall p | p in m0.tables ensures p !in t2.TablePages() && m2.tables[p] == m0.tables[p] {
      assert p in m.tables && p !in t.TablePages();
    }
  }

  lemma FramesGrow(m: Mem, t: Tree, m2: Mem, t2: Tree, n: nat, k: nat)
    requires forall w: nat :: !(n <= w < n + k) ==> Entry(m2, t2, w) == Entry(m, t, w)
    ensures FramesOf(m2, t2, 0, n + k) == FramesOf(m, t, 0, n) + FramesOf(m2, t2, n, k)
  {
    hide Entry, Ppn;
    forall q | q in FramesOf(m, t, 0, n) ensures q in FramesOf(m2, t2, 0, n + k) {
      var w :| 0 <= w < n && Ppn(Entry(m, t, w)) == q;
      assert Ppn(Entry(m2, t2, w)) == q;
    }
    forall q | q in FramesOf(m2, t2, n, k) ensures q in FramesOf(m2, t2, 0, n + k) {
      var w :| n <= w < n + k && Ppn(Entry(m2, t2, w)) == q;
    }
    forall q | q in FramesOf(m2, t2, 0, n + k) ensures q in FramesOf(m, t, 0, n) + FramesOf(m2, t2, n, k) {
      var w :| 0 <= w < n + k && Ppn(Entry(m2, t2, w)) == q;
      if w < n { assert Ppn(Entry(m, t, w)) == q; }
    }
  }

  /** uvmalloc of k more pages. */
  lemma ImageGrown(m0: Mem, m: Mem, t: Tree, n: nat, m2: Mem, t2: Tree, k: nat, flags: nat)
    requires Image(m0, m, t, n) && Growing(m, t, m2, t2, n, k, flags)
    ensures Image(m0, m2, t2, n + k)
  {
    ImageTree(m0, m, t, n, m2, t2);
    GrownFrames(m0, m, t, n, m2, t2, k, flags);
    hide TreeOk, Mem.Parted, Mem.Pages, Tree.TablePages, ImageFrames, TreeGrew, NewPages;
  }

  lemma GrownFrames(m0: Mem, m: Mem, t: Tree, n: nat, m2: Mem, t2: Tree, k: nat, flags: nat)
    requires ImageFrames(m0, m, t, n) && NewPages(m, t, m2, t2, n, k, flags)
    ensures ImageFrames(m0, m2, t2, n + k)
  {
    FramesGrow(m, t, m2, t2, n, k);
    hide Entry, Ppn, FramesOf;
    forall w | 0 <= w < n + k ensures Ppn(Entry(m2, t2, w)) !in m0.frames {
      if w >= n { assert NewPage(m, m2, t2, w, flags); }
    }
  }

  /** A failed uvmalloc. */
  lemma ImageUndone(m0: Mem, m: Mem, t: Tree, n: nat, m2: Mem, t2: Tree)
    requires Image(m0, m, t, n) && GrowthUndone(m, t, m2, t2)
    ensures Image(m0, m2, t2, n)
  {
    ImageTree(m0, m, t, n, m2, t2);
    SameFrames(m0, m, t, n, m2, t2);
    hide TreeOk, Mem.Parted, Mem.Pages, Tree.TablePages, TreeGrew, ImageFrames, SameEntries;
  }

  lemma SameFrames(m0: Mem, m: Mem, t: Tree, n: nat, m2: Mem, t2: Tree)
    requires ImageFrames(m0, m, t, n) && SameEntries(m, t, m2, t2) && m2.frames.Keys == m.frames.Keys
    requires forall p :: p in m0.frames ==> p in m2.frames && m2.frames[p] == m0.frames[p]
    ensures ImageFrames(m0, m2, t2, n)
  {
    hide Entry, Ppn;
    assert FramesOf(m2, t2, 0, n) == FramesOf(m, t, 0, n);
  }

  /** Bytes written to user frames of the new image. */
  lemma ImageWritten(m0: Mem, m: Mem, t: Tree, n: nat, m2: Mem)
    requires Image(m0, m, t, n) && m2 == m.(frames := m2.frames) && m2.frames.Keys == m.frames.Keys
    requires forall p :: p in m0.frames ==> m2.frames[p] == m.frames[p]
    ensures Image(m0, m2, t, n) && forall w: nat :: Entry(m2, t, w) == Entry(m, t, w)
  {
    TreePagesInTables(m, t);
    TreeFrame(m, m2, t);
    assert m2.Pages() == m.Pages() && m2.Parted();
    hide TreeOk, Mem.Parted, Mem.Pages, Mem.FreeSet, Tree.TablePages, Entry;
    SameFrames(m0, m, t, n, m2, t);
  }

  // --------------------------------------------------------- the new process's tree

  ghost predicate AllUser(m: Mem, t: Tree, n: nat) {
    forall w :: 0 <= w < n ==> UserEntry(Entry(m, t, w))
  }

  /** The image exec has built so far, of size sz. */
  ghost predicate Building(m0: Mem, m: Mem, t: Tree, sz: nat, trampoline: nat, trapframe: nat) {
    Image(m0, m, t, Pages(sz)) && ProcTree(m, t, Pages(sz), trampoline, trapframe) && Whole(m)
  }

  lemma FlagBits(e: nat, xperm: nat)
    requires xperm == 0 || xperm == PTE_W || xperm == PTE_X || xperm == PTE_W + PTE_X
    requires Flags(e) == PTE_R + PTE_U + xperm + 1
    ensures IsLeaf(e) && Rwx(e) && UserEntry(e)
  {
  }

  lemma TreeGrownPages(m: Mem, t: Tree, n: nat, m2: Mem, t2: Tree, k: nat, xperm: nat, trampoline: nat, trapframe: nat)
    requires ProcTree(m, t, n, trampoline, trapframe) && AllUser(m, t, n) && n + k <= FRAME_VPN
    requires xperm == 0 || xperm == PTE_W || xperm == PTE_X || xperm == PTE_W + PTE_X
    requires NewPages(m, t, m2, t2, n, k, PTE_R + PTE_U + xperm + 1)
    ensures ProcTree(m2, t2, n + k, trampoline, trapframe) && AllUser(m2, t2, n + k)
  {
    hide Entry, Ppn, Flags, V, KernelEntry, IsLeaf, Rwx, UserEntry, FramesOf;
    forall w | 0 <= w < n + k
      ensures IsLeaf(Entry(m2, t2, w)) && Rwx(Entry(m2, t2, w)) && UserEntry(Entry(m2, t2, w))
      ensures Ppn(Entry(m2, t2, w)) in m2.frames
    {
      if w >= n {
        assert NewPage(m, m2, t2, w, PTE_R + PTE_U + xperm + 1);
        FlagBits(Entry(m2, t2, w), xperm);
      }
    }
    forall w, x | 0 <= w < x < n + k ensures Ppn(Entry(m2, t2, w)) != Ppn(Entry(m2, t2, x)) {
      if x >= n { assert NewPage(m, m2, t2, x, PTE_R + PTE_U + xperm + 1); }
    }
  }

  lemma SameTree(m: Mem, t: Tree, n: nat, m2: Mem, t2: Tree, trampoline: nat, trapframe: nat)
    requires ProcTree(m, t, n, trampoline, trapframe) && SameEntries(m, t, m2, t2) && m2.frames.Keys == m.frames.Keys
    ensures ProcTree(m2, t2, n, trampoline, trapframe)
    ensures AllUser(m, t, n) ==> AllUser(m2, t2, n)
  {
    hide Entry, Ppn, KernelEntry, IsLeaf, Rwx, UserEntry;
  }

  lemma GrownWhole(m: Mem, t: Tree, m2: Mem, t2: Tree, v: nat, n: nat, flags: nat)
    requires Whole(m) && NewPages(m, t, m2, t2, v, n, flags) && 0 !in m2.frames
    ensures Whole(m2)
  {
    hide Entry, Ppn;
    forall p | p in m2.frames ensures |m2.frames[p]| == PGSIZE {
      if p !in m.frames {
        var w :| v <= w < v + n && Ppn(Entry(m2, t2, w)) == p;
        assert NewPage(m, m2, t2, w, flags);
      }
    }
  }

  /** Page 0 is never handed out. */
  lemma NoPageZero(m: Mem, m2: Mem)
    requires 0 !in m.Pages() && m2.Pages() == m.Pages()
    ensures 0 !in m2.frames
  {
  }

  /** uvmalloc in exec: the image grows, or stays as it is. */
  method GrowImage(vm: Vm, pagetable: nat, sz: nat, newsz: nat, xperm: nat, ghost m0: Mem, ghost t: Tree,
                   ghost trampoline: nat, ghost trapframe: nat)
    returns (r: nat, ghost t2: Tree)
    requires Building(m0, vm.M(), t, sz, trampoline, trapframe) && AllUser(vm.M(), t, Pages(sz)) && pagetable == t.root
    requires xperm == 0 || xperm == PTE_W || xperm == PTE_X || xperm == PTE_W + PTE_X
    requires Physical(m0)
    modifies vm
    ensures t2.root == t.root && (r != 0 ==> r == if newsz < sz then sz else newsz)
    ensures Building(m0, vm.M(), t2, if r == 0 then sz else r, trampoline, trapframe)
    ensures AllUser(vm.M(), t2, Pages(if r == 0 then sz else r))
    ensures r != 0 ==> Memory(vm.M(), t2, Pages(r)) == Extended(Memory(old(vm.M()), t, Pages(sz)), newsz)
    ensures r != 0 ==> PageFlags(vm.M(), t2, Pages(r)) == MoreFlags(PageFlags(old(vm.M()), t, Pages(sz)), newsz, xperm)
  {
    hide TreeOk, Mem.Parted, Entry, Growing, GrowthUndone, Image, ProcTree, Whole, AllUser, Unaliased, Mem.Pages;
    hide Memory, PageFlags;
    ghost var m := vm.M();
    BuildingFacts(m0, m, t, sz, trampoline, trapframe);
    FreeAbove(m, t, Pages(sz), trampoline, trapframe);
    r, t2 := Uvmalloc(vm, pagetable, sz, newsz, xperm, t);
    assert sz <= newsz ==> Pages(sz) <= Pages(newsz);
    assert newsz <= sz ==> Pages(newsz) <= Pages(sz);
    FlagsSize(m, t, Pages(sz));
    BuildingMemory(m0, m, t, sz, trampoline, trapframe);
    if newsz >= sz {
      if r == newsz && Growing(m, t, vm.M(), t2, Pages(sz), Pages(newsz) - Pages(sz), PTE_R + PTE_U + xperm + 1) {
        GrewBuilding(m0, m, t, sz, vm.M(), t2, newsz, xperm, trampoline, trapframe);
        GrewMemory(m0, m, t, sz, vm.M(), t2, newsz, xperm, trampoline, trapframe);
        GrewFlags(m, t, Pages(sz), vm.M(), t2, newsz, xperm);
      } else {
        UndoneBuilding(m0, m, t, sz, vm.M(), t2, trampoline, trapframe);
      }
    }
  }

  lemma FlagsSize(m: Mem, t: Tree, n: nat)
    ensures |PageFlags(m, t, n)| == n
  {
    hide Entry, Flags;
  }

  lemma FlagsAt(m: Mem, t: Tree, n: nat, w: nat)
    requires w < n
    ensures |PageFlags(m, t, n)| == n && PageFlags(m, t, n)[w] == Flags(Entry(m, t, w))
  {
    hide Entry, Flags;
  }

  lemma GrewFlags(m: Mem, t: Tree, n: nat, m2: Mem, t2: Tree, newsz: nat, xperm: nat)
    requires n <= Pages(newsz) && Growing(m, t, m2, t2, n, Pages(newsz) - n, PTE_R + PTE_U + xperm + 1)
    ensures PageFlags(m2, t2, Pages(newsz)) == MoreFlags(PageFlags(m, t, n), newsz, xperm)
  {
    hide TreeGrew, Entry, Ppn, V, Flags, FramesOf, PageFlags, Pages;
    FlagsSize(m, t, n);
    FlagsSize(m2, t2, Pages(newsz));
    var x, y := PageFlags(m2, t2, Pages(newsz)), MoreFlags(PageFlags(m, t, n), newsz, xperm);
    forall w | 0 <= w < |x| ensures x[w] == y[w] {
      FlagsAt(m2, t2, Pages(newsz), w);
      if w < n {
        FlagsAt(m, t, n, w);
      } else {
        assert NewPage(m, m2, t2, w, PTE_R + PTE_U + xperm + 1);
      }
    }
  }

  lemma SameFlags(m: Mem, t: Tree, m2: Mem, n: nat)
    requires SameEntries(m, t, m2, t)
    ensures PageFlags(m2, t, n) == PageFlags(m, t, n)
  {
    hide Entry, Flags;
  }

  lemma BuildingFacts(m0: Mem, m: Mem, t: Tree, sz: nat, trampoline: nat, trapframe: nat)
    requires Building(m0, m, t, sz, trampoline, trapframe)
    ensures m.Parted() && TreeOk(m, t) && m.Pages() == m0.Pages()
  {
  }

  /** An image has a memory: its pages, byte by byte. */
  lemma BuildingMemory(m0: Mem, m: Mem, t: Tree, sz: nat, trampoline: nat, trapframe: nat)
    requires Building(m0, m, t, sz, trampoline, trapframe)
    ensures Unaliased(m, t, 0, Pages(sz)) && Whole(m) && Memory(m, t, Pages(sz)) == UserBytes(m, t, Pages(sz))
    ensures |Memory(m, t, Pages(sz))| == Pages(sz) * PGSIZE
  {
    hide Image, Entry, UserBytes, Unaliased, Whole;
  }

  lemma GrewMemory(m0: Mem, m: Mem, t: Tree, sz: nat, m2: Mem, t2: Tree, newsz: nat, xperm: nat, trampoline: nat,
                   trapframe: nat)
    requires Building(m0, m, t, sz, trampoline, trapframe) && Building(m0, m2, t2, newsz, trampoline, trapframe)
    requires sz <= newsz && Pages(sz) <= Pages(newsz)
    requires Growing(m, t, m2, t2, Pages(sz), Pages(newsz) - Pages(sz), PTE_R + PTE_U + xperm + 1)
    ensures Memory(m2, t2, Pages(newsz)) == Extended(Memory(m, t, Pages(sz)), newsz)
  {
    hide Building, TreeGrew, NewPages, Entry, UserBytes, Unaliased, Whole, Memory, Pages;
    BuildingMemory(m0, m, t, sz, trampoline, trapframe);
    BuildingMemory(m0, m2, t2, newsz, trampoline, trapframe);
    var n, k := Pages(sz), Pages(newsz) - Pages(sz);
    GrownBytes(m, t, n, m2, t2, k, PTE_R + PTE_U + xperm + 1);
    var c := Memory(m, t, n);
    assert k == 0 ==> c + Zeros(k * PGSIZE) == c;
  }

  lemma FreeAbove(m: Mem, t: Tree, n: nat, trampoline: nat, trapframe: nat)
    requires ProcTree(m, t, n, trampoline, trapframe)
    ensures Unaliased(m, t, 0, n) && forall w :: n <= w < USER_TOP ==> Entry(m, t, w) == 0
  {
    KernelElsewhere(trampoline, trapframe);
    hide Entry, KernelEntry, Unaliased, IsLeaf, Rwx;
  }

  /** What memory kalloc manages: not page 0, and no more than there is. */
  ghost predicate Physical(m: Mem) {
    0 !in m.Pages() && |m.Pages()| <= PHYSPAGES
  }

  /** An image fits physical memory, so it stays far below the trapframe. */
  lemma ImageSmall(m0: Mem, m: Mem, t: Tree, sz: nat, trampoline: nat, trapframe: nat)
    requires Building(m0, m, t, sz, trampoline, trapframe) && Physical(m0)
    ensures Pages(sz) <= PHYSPAGES && sz + 3 * PGSIZE <= TRAPFRAME
  {
    PagesBound(m, t, Pages(sz));
    hide Entry, TreeOk, Mem.Pages;
    assert sz <= Pages(sz) * PGSIZE;
  }

  lemma GrewBuilding(m0: Mem, m: Mem, t: Tree, sz: nat, m2: Mem, t2: Tree, newsz: nat, xperm: nat, trampoline: nat,
                     trapframe: nat)
    requires Building(m0, m, t, sz, trampoline, trapframe) && AllUser(m, t, Pages(sz))
    requires Pages(sz) <= Pages(newsz) <= FRAME_VPN
    requires xperm == 0 || xperm == PTE_W || xperm == PTE_X || xperm == PTE_W + PTE_X
    requires Growing(m, t, m2, t2, Pages(sz), Pages(newsz) - Pages(sz), PTE_R + PTE_U + xperm + 1) && Physical(m0)
    ensures Building(m0, m2, t2, newsz, trampoline, trapframe) && AllUser(m2, t2, Pages(newsz)) && t2.root == t.root
  {
    hide Image, ProcTree, TreeGrew, NewPages, Whole, AllUser, Mem.Pages, Mem.Parted, TreeOk, Entry, Pages;
    var n, k, flags := Pages(sz), Pages(newsz) - Pages(sz), PTE_R + PTE_U + xperm + 1;
    ImageGrown(m0, m, t, n, m2, t2, k, flags);
    GrowingFacts(m, t, m2, t2, n, k, flags);
    ImagePages(m0, m2, t2, n + k);
    TreeGrownPages(m, t, n, m2, t2, k, xperm, trampoline, trapframe);
    NoPageZero(m0, m2);
    GrownWhole(m, t, m2, t2, n, k, flags);
  }

  lemma ImagePages(m0: Mem, m: Mem, t: Tree, n: nat)
    requires Image(m0, m, t, n)
    ensures m.Pages() == m0.Pages() && m.Parted() && TreeOk(m, t)
  {
  }

  lemma UndoneBuilding(m0: Mem, m: Mem, t: Tree, sz: nat, m2: Mem, t2: Tree, trampoline: nat, trapframe: nat)
    requires Building(m0, m, t, sz, trampoline, trapframe) && AllUser(m, t, Pages(sz)) && GrowthUndone(m, t, m2, t2)
    ensures Building(m0, m2, t2, sz, trampoline, trapframe) && AllUser(m2, t2, Pages(sz)) && t2.root == t.root
  {
    ImageUndone(m0, m, t, Pages(sz), m2, t2);
    hide Image, ProcTree, TreeOk, Mem.Parted, Mem.Pages, Tree.TablePages, SameEntries, AllUser;
    SameTree(m, t, Pages(sz), m2, t2, trampoline, trapframe);
  }

  // ------------------------------------------------------------- writing the new image

  lemma ImageBacked(m0: Mem, m: Mem, t: Tree, sz: nat, trampoline: nat, trapframe: nat)
    requires Building(m0, m, t, sz, trampoline, trapframe)
    ensures Backed(m, t)
    ensures forall w: nat :: UserEntry(Entry(m, t, w)) ==> w < Pages(sz)
  {
    KernelNotUser(trampoline, trapframe);
    hide Image, Entry, KernelEntry, UserEntry, Ppn, IsLeaf, Rwx, Pages;
  }

  lemma KernelNotUser(trampoline: nat, trapframe: nat)
    ensures forall w :: !UserEntry(KernelEntry(trampoline, trapframe, w))
  {
    forall w ensures !UserEntry(KernelEntry(trampoline, trapframe, w)) {
      NoUserBit(trampoline, PTE_R + PTE_X);
      NoUserBit(trapframe, PTE_R + PTE_W);
      NoUserBit(0, 0);
    }
  }

  lemma NoUserBit(ppn: nat, perm: nat)
    requires perm < 16
    ensures !UserBit(MakePte(ppn, perm)) && !UserBit(0)
  {
    assert MakePte(ppn, perm) / 16 == ppn * 64;
  }

  /** Bytes copied to user addresses of the new image touch nothing that was there before. */
  lemma CopiedBuilding(m0: Mem, m: Mem, t: Tree, sz: nat, a: nat, src: seq<Byte>, n: nat, m2: Mem, trampoline: nat,
                       trapframe: nat)
    requires Building(m0, m, t, sz, trampoline, trapframe) && n <= |src| && CopiedOut(m, t, m2, a, src, n)
    ensures Building(m0, m2, t, sz, trampoline, trapframe)
    ensures AllUser(m, t, Pages(sz)) ==> AllUser(m2, t, Pages(sz))
    ensures forall w: nat :: Entry(m2, t, w) == Entry(m, t, w)
  {
    ImageBacked(m0, m, t, sz, trampoline, trapframe);
    forall p | p in m0.frames ensures m2.frames[p] == m.frames[p] {
      OldFrameKept(m0, m, t, sz, a, src, n, m2, p, trampoline, trapframe);
    }
    ImageWritten(m0, m, t, Pages(sz), m2);
    hide Image, ProcTree, Entry, Pages, AllUser, UserEntry;
    SameTree(m, t, Pages(sz), m2, t, trampoline, trapframe);
  }

  /** ... and what they do to its memory. */
  lemma CopiedMemory(m0: Mem, m: Mem, t: Tree, sz: nat, a: nat, src: seq<Byte>, m2: Mem, trampoline: nat,
                     trapframe: nat)
    requires Building(m0, m, t, sz, trampoline, trapframe) && CopiedOut(m, t, m2, a, src, |src|)
    ensures a + |src| <= Pages(sz) * PGSIZE || src == []
    ensures Memory(m2, t, Pages(sz)) == PutBytes(Memory(m, t, Pages(sz)), a, src)
  {
    hide Building, Entry, UserBytes, Unaliased, Whole, Memory, Pages, CopiedOut, UserEntry;
    CopiedBuilding(m0, m, t, sz, a, src, |src|, m2, trampoline, trapframe);
    ImageBacked(m0, m, t, sz, trampoline, trapframe);
    BuildingMemory(m0, m, t, sz, trampoline, trapframe);
    BuildingMemory(m0, m2, t, sz, trampoline, trapframe);
    if src != [] {
      LastReachable(m, t, m2, a, src, Pages(sz));
      WrittenBytes(m, t, Pages(sz), m2, a, src, |src|);
      assert src[..|src|] == src;
    } else {
      NothingCopied(m0, m, t, sz, a, src, m2, trampoline, trapframe);
    }
  }

  lemma LastReachable(m: Mem, t: Tree, m2: Mem, a: nat, src: seq<Byte>, n: nat)
    requires CopiedOut(m, t, m2, a, src, |src|) && src != [] && forall w: nat :: UserEntry(Entry(m, t, w)) ==> w < n
    ensures a + |src| <= n * PGSIZE
  {
    hide Entry, UserEntry;
    assert Reachable(m, t, a + |src| - 1);
  }

  lemma NothingCopied(m0: Mem, m: Mem, t: Tree, sz: nat, a: nat, src: seq<Byte>, m2: Mem, trampoline: nat,
                      trapframe: nat)
    requires Building(m0, m, t, sz, trampoline, trapframe) && Building(m0, m2, t, sz, trampoline, trapframe)
    requires src == [] && CopiedOut(m, t, m2, a, src, 0) && forall w: nat :: Entry(m2, t, w) == Entry(m, t, w)
    ensures Memory(m2, t, Pages(sz)) == PutBytes(Memory(m, t, Pages(sz)), a, src)
  {
    hide Building, Entry, UserBytes, Unaliased, Whole, Memory, Pages, UserEntry, Ppn;
    BuildingMemory(m0, m, t, sz, trampoline, trapframe);
    BuildingMemory(m0, m2, t, sz, trampoline, trapframe);
    var n := Pages(sz);
    var x, y := Memory(m2, t, n), Memory(m, t, n);
    forall b | 0 <= b < |x| ensures x[b] == y[b] {
      UserBytesAt(m, t, n, b);
      UserBytesAt(m2, t, n, b);
      assert !Touched(m, t, a, 0, Ppn(Entry(m, t, b / PGSIZE)), b % PGSIZE);
    }
    assert x == y;
  }

  lemma OldFrameKept(m0: Mem, m: Mem, t: Tree, sz: nat, a: nat, src: seq<Byte>, n: nat, m2: Mem, p: nat,
                     trampoline: nat, trapframe: nat)
    requires Building(m0, m, t, sz, trampoline, trapframe) && n <= |src| && CopiedOut(m, t, m2, a, src, n)
    requires p in m0.frames
    ensures p in m.frames && p in m2.frames && m2.frames[p] == m.frames[p]
  {
    ImageBacked(m0, m, t, sz, trampoline, trapframe);
    hide TreeOk, Entry, UserEntry, Ppn, ProcTree, Pages, Tree.TablePages, Mem.Pages, Mem.Parted;
    forall o | 0 <= o < PGSIZE ensures m2.frames[p][o] == m.frames[p][o] {
      assert !Touched(m, t, a, n, p, o);
    }
  }

  /** loadseg: the bytes the file has for the segment; -1 when they are fewer than sz; None is its panic. */
  method Loadseg(vm: Vm, pagetable: nat, va: nat, data: seq<Byte>, sz: nat, ghost m0: Mem, ghost t: Tree,
                 ghost size: nat,
                 ghost trampoline: nat, ghost trapframe: nat)
    returns (r: Option<int>)
    requires Building(m0, vm.M(), t, size, trampoline, trapframe) && AllUser(vm.M(), t, Pages(size))
    requires pagetable == t.root
    requires va % PGSIZE == 0 && |data| <= sz && va + sz <= size <= TRAPFRAME
    modifies vm
    ensures r == Some(if |data| == sz then 0 else -1)
    ensures CopiedOut(old(vm.M()), t, vm.M(), va, data, |data|) && SameEntries(old(vm.M()), t, vm.M(), t)
    ensures Building(m0, vm.M(), t, size, trampoline, trapframe) && AllUser(vm.M(), t, Pages(size))
  {
    hide TreeOk, Mem.Parted, Backed, CopiedOut, Entry, UserEntry, Ppn, Building, AllUser, Pages;
    ghost var m := vm.M();
    ImageBacked(m0, m, t, size, trampoline, trapframe);
    BuildingFacts(m0, m, t, size, trampoline, trapframe);
    CopiedOutNone(m, t, va, data);
    var i := 0;
    ghost var done: nat := 0;
    while i < sz
      invariant 0 <= i && i % PGSIZE == 0 && done == (if i < |data| then i else |data|) && (i <= |data| || i >= sz)
      invariant CopiedOut(m, t, vm.M(), va, data, done)
      invariant i >= sz ==> |data| == sz
    {
      ghost var m1 := vm.M();
      CopiedOutFacts(m, t, m1, va, data, done);
      assert (va + i) % PGSIZE == 0;
      UserPage(m, t, va + i, size);
      var pa := vm.Walkaddr(pagetable, va + i, t);
      NotPageZero(m1, t, (va + i) / PGSIZE);
      if pa == 0 {
        return None;
      }
      var n := if sz - i < PGSIZE then sz - i else PGSIZE;
      var k := if |data| - i < n then |data| - i else n;
      var p := pa / PGSIZE;
      assert p == Ppn(Entry(m, t, (va + i) / PGSIZE));
      if k > 0 {
        ChunkOut(m, t, m1, va, data, i, k);
        vm.frames := vm.frames[p := Patched(vm.frames[p], 0, data[i..i + k])];
      }
      done := i + k;
      if k != n {
        CopiedBuilding(m0, m, t, size, va, data, done, vm.M(), trampoline, trapframe);
        return Some(-1);
      }
      i := i + PGSIZE;
    }
    CopiedBuilding(m0, m, t, size, va, data, done, vm.M(), trampoline, trapframe);
    return Some(0);
  }

  lemma UserPage(m: Mem, t: Tree, a: nat, size: nat)
    requires AllUser(m, t, Pages(size)) && a < size <= TRAPFRAME
    ensures UserEntry(Entry(m, t, a / PGSIZE)) && a < MAXVA && Reachable(m, t, a)
  {
    assert a / PGSIZE < Pages(size);
  }

  // -------------------------------------------------------------------- the guard page

  /** pte & ~PTE_U */
  function NoUser(pte: nat): nat {
    if UserBit(pte) then pte - 16 else pte
  }

  /** An entry's low bits are those of its flags. */
  lemma LowBits(p: nat, f: nat)
    requires f < 1024
    ensures Ppn(p * 1024 + f) == p && Flags(p * 1024 + f) == f && (V(p * 1024 + f) <==> f % 2 == 1)
    ensures (Rwx(p * 1024 + f) <==> f / 2 % 8 != 0) && (UserBit(p * 1024 + f) <==> f / 16 % 2 == 1)
  {
    assert (p * 1024 + f) / 2 == p * 512 + f / 2;
    assert (p * 1024 + f) / 16 == p * 64 + f / 16;
  }

  lemma FlagArithmetic(f: nat)
    requires f / 16 % 2 == 1
    ensures f >= 16 && (f - 16) % 2 == f % 2 && (f - 16) / 2 % 8 == f / 2 % 8 && (f - 16) / 16 % 2 == 0
  {
    var h, l := f / 16, f % 16;
    assert f - 16 == (h - 1) * 16 + l && (f - 16) / 16 == h - 1;
    assert f / 2 == h * 8 + l / 2 && (f - 16) / 2 == (h - 1) * 8 + l / 2;
  }

  lemma NoUserFacts(pte: nat)
    requires IsLeaf(pte) && Rwx(pte)
    ensures IsLeaf(NoUser(pte)) && Rwx(NoUser(pte)) && Ppn(NoUser(pte)) == Ppn(pte) && !UserEntry(NoUser(pte))
  {
    var p, f := Ppn(pte), Flags(pte);
    assert pte == p * 1024 + f;
    LowBits(p, f);
    if UserBit(pte) {
      FlagArithmetic(f);
      LowBits(p, f - 16);
      assert NoUser(pte) == p * 1024 + (f - 16);
    }
    hide Ppn, Flags, V, Rwx, UserBit;
  }

  /** The flags of the guard page. */
  lemma NoUserFlags(pte: nat)
    requires Flags(pte) == PTE_R + PTE_U + PTE_W + PTE_V
    ensures Flags(NoUser(pte)) == PTE_R + PTE_W + PTE_V
  {
    var p, f := Ppn(pte), Flags(pte);
    assert pte == p * 1024 + f;
    LowBits(p, f);
    LowBits(p, f - 16);
    assert NoUser(pte) == p * 1024 + (f - 16);
  }

  /** Two pages of stack, of which the first loses its user bit. */
  lemma StackFlags(fs: seq<nat>, m: Mem, m2: Mem, t: Tree, n: nat)
    requires PageFlags(m, t, n + 2) == fs + [PTE_R + PTE_U + PTE_W + PTE_V, PTE_R + PTE_U + PTE_W + PTE_V]
    requires forall w: nat :: Entry(m2, t, w) == if w == n then NoUser(Entry(m, t, w)) else Entry(m, t, w)
    ensures PageFlags(m2, t, n + 2) == fs + [PTE_R + PTE_W + PTE_V, PTE_R + PTE_U + PTE_W + PTE_V]
  {
    hide Entry, Flags, NoUser, PageFlags;
    FlagsSize(m, t, n + 2);
    FlagsSize(m2, t, n + 2);
    var x := PageFlags(m2, t, n + 2);
    var y := fs + [PTE_R + PTE_W + PTE_V, PTE_R + PTE_U + PTE_W + PTE_V];
    forall w | 0 <= w < n + 2 ensures x[w] == y[w] {
      FlagsAt(m, t, n + 2, w);
      FlagsAt(m2, t, n + 2, w);
      if w == n { NoUserFlags(Entry(m, t, w)); }
    }
  }

  /** A new program cannot reach its guard page, and can reach its stack. */
  lemma GuardAndStack(m: Mem, t: Tree, segs: seq<Segment>, n: nat)
    requires PageFlags(m, t, n) == ProgramFlags(segs)
    ensures n >= 2 && !UserEntry(Entry(m, t, n - 2)) && UserEntry(Entry(m, t, n - 1))
  {
    hide Entry, Flags, SegmentFlags, PageFlags, UserEntry, Ppn;
    FlagsSize(m, t, n);
    var fs := SegmentFlags(segs, |segs|);
    assert n == |fs| + 2 && ProgramFlags(segs)[n - 2] == PTE_R + PTE_W + PTE_V;
    FlagsAt(m, t, n, n - 2);
    FlagsAt(m, t, n, n - 1);
    UserByFlags(Entry(m, t, n - 2));
    UserByFlags(Entry(m, t, n - 1));
  }

  lemma UserByFlags(e: nat)
    requires Flags(e) % 2 == 1
    ensures UserEntry(e) <==> Flags(e) / 16 % 2 == 1
  {
    LowBits(Ppn(e), Flags(e));
    assert e == Ppn(e) * 1024 + Flags(e);
  }

  lemma ClearedImage(m0: Mem, m: Mem, t: Tree, n: nat, w: nat, pte: nat)
    requires Image(m0, m, t, n) && w / SPAN1 in t.low && t.low[w / SPAN1] in m.tables && Ppn(pte) == Ppn(Entry(m, t, w))
    ensures var m2 := m.SetEntry(t.low[w / SPAN1], w % SPAN1, pte);
      && Image(m0, m2, t, n) && forall x: nat :: Entry(m2, t, x) == if x == w then pte else Entry(m, t, x)
  {
    hide TreeOk, Mem.Parted, Mem.Pages, Mem.FreeSet, Tree.TablePages, Entry, Ppn, ImageFrames;
    var k := t.low[w / SPAN1];
    var m2 := m.SetEntry(k, w % SPAN1, pte);
    SetLeafOk(m, t, w, pte);
    SetEntryParted(m, k, w % SPAN1, pte);
    LowPage(t, w / SPAN1);
    ClearedImageFrames(m0, m, t, n, m2);
    assert m2.tables.Keys == m.tables.Keys;
  }

  lemma LowPage(t: Tree, k: nat)
    requires k in t.low
    ensures t.low[k] in t.TablePages()
  {
    assert t.low[k] in t.low.Values;
  }

  lemma ClearedImageFrames(m0: Mem, m: Mem, t: Tree, n: nat, m2: Mem)
    requires ImageFrames(m0, m, t, n) && m2.frames == m.frames
      && forall x: nat :: Ppn(Entry(m2, t, x)) == Ppn(Entry(m, t, x))
    ensures ImageFrames(m0, m2, t, n)
  {
    ClearedFrames(m, t, m2, n);
    hide Entry, Ppn, FramesOf;
  }

  lemma ClearedTree(m: Mem, t: Tree, n: nat, w: nat, m2: Mem, trampoline: nat, trapframe: nat)
    requires ProcTree(m, t, n, trampoline, trapframe) && w < n && m2.frames == m.frames
    requires forall x: nat :: Entry(m2, t, x) == if x == w then NoUser(Entry(m, t, x)) else Entry(m, t, x)
    ensures ProcTree(m2, t, n, trampoline, trapframe) && Ppn(NoUser(Entry(m, t, w))) == Ppn(Entry(m, t, w))
  {
    NoUserFacts(Entry(m, t, w));
    hide Entry, Ppn, NoUser, KernelEntry, IsLeaf, Rwx;
  }

  /** Clearing the user bit of page w. */
  lemma ClearedBuilding(m0: Mem, m: Mem, t: Tree, sz: nat, w: nat, trampoline: nat, trapframe: nat)
    requires Building(m0, m, t, sz, trampoline, trapframe) && w < Pages(sz) && w / SPAN1 in t.low
    requires t.low[w / SPAN1] in m.tables
    ensures Building(m0, m.SetEntry(t.low[w / SPAN1], w % SPAN1, NoUser(Entry(m, t, w))), t, sz, trampoline, trapframe)
  {
    NoUserFacts(Entry(m, t, w));
    hide Image, ProcTree, Entry, Ppn, NoUser, IsLeaf, Rwx, Pages;
    ClearedImage(m0, m, t, Pages(sz), w, NoUser(Entry(m, t, w)));
    ClearedTree(m, t, Pages(sz), w, m.SetEntry(t.low[w / SPAN1], w % SPAN1, NoUser(Entry(m, t, w))), trampoline,
                trapframe);
  }

  lemma ClearedFrames(m: Mem, t: Tree, m2: Mem, n: nat)
    requires forall x: nat :: Ppn(Entry(m2, t, x)) == Ppn(Entry(m, t, x))
    ensures FramesOf(m2, t, 0, n) == FramesOf(m, t, 0, n)
  {
    hide Entry, Ppn;
  }

  /** uvmclear; false is its panic. */
  method Uvmclear(vm: Vm, pagetable: nat, va: nat, ghost m0: Mem, ghost t: Tree, ghost sz: nat,
                  ghost trampoline: nat, ghost trapframe: nat)
    returns (ok: bool)
    requires Building(m0, vm.M(), t, sz, trampoline, trapframe) && pagetable == t.root && va / PGSIZE < Pages(sz)
    requires va < MAXVA
    modifies vm
    ensures ok && Building(m0, vm.M(), t, sz, trampoline, trapframe)
    ensures Memory(vm.M(), t, Pages(sz)) == Memory(old(vm.M()), t, Pages(sz))
    ensures forall w: nat :: Entry(vm.M(), t, w) == (if w == va / PGSIZE then NoUser(Entry(old(vm.M()), t, w))
                                                     else Entry(old(vm.M()), t, w))
  {
    hide TreeOk, Mem.Parted, Building, Walked, NoUser, Entry, Pages, Memory;
    ghost var m := vm.M();
    BuildingFacts(m0, m, t, sz, trampoline, trapframe);
    PageThere(m0, m, t, sz, va / PGSIZE, trampoline, trapframe);
    var q, _ := vm.Walk(pagetable, va, false, t);
    if q.Null? {
      return false;
    }
    ClearedBuilding(m0, m, t, sz, va / PGSIZE, trampoline, trapframe);
    SetLeafOk(m, t, va / PGSIZE, NoUser(Entry(m, t, va / PGSIZE)));
    vm.tables := vm.tables[q.page := vm.tables[q.page][q.index := NoUser(vm.tables[q.page][q.index])]];
    ClearedMemory(m0, m, t, sz, va / PGSIZE, vm.M(), trampoline, trapframe);
    return true;
  }

  lemma ClearedMemory(m0: Mem, m: Mem, t: Tree, sz: nat, w: nat, m2: Mem, trampoline: nat, trapframe: nat)
    requires Building(m0, m, t, sz, trampoline, trapframe) && Building(m0, m2, t, sz, trampoline, trapframe)
    requires w < Pages(sz)
    requires m2.frames == m.frames
    requires forall x: nat :: Entry(m2, t, x) == if x == w then NoUser(Entry(m, t, x)) else Entry(m, t, x)
    ensures Memory(m2, t, Pages(sz)) == Memory(m, t, Pages(sz))
  {
    hide Image, Entry, UserBytes, Whole, Memory, Pages, NoUser, Ppn, IsLeaf, Rwx, KernelEntry, Unaliased;
    BuildingMemory(m0, m, t, sz, trampoline, trapframe);
    BuildingMemory(m0, m2, t, sz, trampoline, trapframe);
    NoUserFacts(Entry(m, t, w));
    SameBytes(m, t, m2, t, Pages(sz));
  }

  lemma PageThere(m0: Mem, m: Mem, t: Tree, sz: nat, w: nat, trampoline: nat, trapframe: nat)
    requires Building(m0, m, t, sz, trampoline, trapframe) && w < Pages(sz)
    ensures IsLeaf(Entry(m, t, w)) && Entry(m, t, w) != 0
  {
    LeafIsValid(0);
    hide Entry, Image, Rwx, Unaliased, Whole;
  }

  // ------------------------------------------------------------------------------ exec

  const MAXARG := 32
  const WORD64 := 0x1_0000_0000_0000_0000

  predicate SegmentOk(g: Segment) {
    && (g.xperm == 0 || g.xperm == PTE_W || g.xperm == PTE_X || g.xperm == PTE_W + PTE_X)
    && |g.data| <= g.filesz && g.vaddr < WORD64 && g.memsz < WORD64
  }

  /** One round of exec's segment loop; false goes to bad with size sz2. */
  method LoadSegment(vm: Vm, pagetable: nat, sz: nat, g: Segment, ghost m0: Mem, ghost t: Tree,
                     ghost trampoline: nat, ghost trapframe: nat)
    returns (ok: bool, sz2: nat, ghost t2: Tree)
    requires Building(m0, vm.M(), t, sz, trampoline, trapframe) && AllUser(vm.M(), t, Pages(sz)) && pagetable == t.root
    requires SegmentOk(g) && Physical(m0)
    modifies vm
    ensures Building(m0, vm.M(), t2, sz2, trampoline, trapframe) && t2.root == t.root
    ensures AllUser(vm.M(), t2, Pages(sz2))
    ensures ok ==> Loadable(g) && Memory(vm.M(), t2, Pages(sz2)) == WithSegment(Memory(old(vm.M()), t, Pages(sz)), g)
    ensures ok ==>
      PageFlags(vm.M(), t2, Pages(sz2)) == MoreFlags(PageFlags(old(vm.M()), t, Pages(sz)), g.vaddr + g.memsz, g.xperm)
  {
    hide Building, AllUser, Pages, Physical, Memory, CopiedOut, PageFlags, MoreFlags, SameEntries;
    if g.memsz < g.filesz {
      return false, sz, t;
    }
    var end := (g.vaddr + g.memsz) % WORD64;
    if end < g.vaddr || g.vaddr % PGSIZE != 0 {
      return false, sz, t;
    }
    assert end == g.vaddr + g.memsz;
    var sz1;
    sz1, t2 := GrowImage(vm, pagetable, sz, end, g.xperm, m0, t, trampoline, trapframe);
    if sz1 == 0 {
      return false, sz, t2;
    }
    ImageSmall(m0, vm.M(), t2, sz1, trampoline, trapframe);
    ghost var m := vm.M();
    var r := Loadseg(vm, pagetable, g.vaddr, g.data, g.filesz, m0, t2, sz1, trampoline, trapframe);
    CopiedMemory(m0, m, t2, sz1, g.vaddr, g.data, vm.M(), trampoline, trapframe);
    SameFlags(m, t2, vm.M(), Pages(sz1));
    return r == Some(0), sz1, t2;
  }

  /** Pushing one string, or the pointer array, below sp; None goes to bad. */
  method Push(vm: Vm, pagetable: nat, sp: nat, stackbase: nat, bytes: seq<Byte>, ghost m0: Mem, ghost t: Tree,
              ghost sz: nat,
              ghost trampoline: nat, ghost trapframe: nat)
    returns (r: Option<nat>)
    requires Building(m0, vm.M(), t, sz, trampoline, trapframe) && pagetable == t.root
    modifies vm
    ensures Building(m0, vm.M(), t, sz, trampoline, trapframe) && SameEntries(old(vm.M()), t, vm.M(), t)
    ensures r.Some? ==> r.value == Below(sp, |bytes|) && stackbase <= r.value && r.value + |bytes| <= sp
    ensures r.Some? ==> Memory(vm.M(), t, Pages(sz)) == PutBytes(Memory(old(vm.M()), t, Pages(sz)), r.value, bytes)
  {
    hide Building, CopiedOut, TreeOk, Mem.Parted, Backed, Pages, Memory;
    if sp < |bytes| || (sp - |bytes|) / 16 * 16 < stackbase {
      return None;
    }
    var at := (sp - |bytes|) / 16 * 16;
    ghost var m := vm.M();
    BuildingFacts(m0, m, t, sz, trampoline, trapframe);
    ImageBacked(m0, m, t, sz, trampoline, trapframe);
    var c, done := Copyout(vm, pagetable, at, bytes, t);
    CopiedBuilding(m0, m, t, sz, at, bytes, done, vm.M(), trampoline, trapframe);
    if c == 0 {
      CopiedMemory(m0, m, t, sz, at, bytes, vm.M(), trampoline, trapframe);
      return Some(at);
    }
    return None;
  }

  /**
    The argument strings and the array of pointers to them; sp is the address of
    the array. With exactly MAXARG strings exec would write past its own array;
    its caller, sys_exec, stops at fewer.
  */
  method PushArgs(vm: Vm, pagetable: nat, top: nat, args: seq<seq<Byte>>, ghost m0: Mem, ghost t: Tree, ghost sz: nat,
                  ghost trampoline: nat, ghost trapframe: nat)
    returns (ok: bool, sp: nat)
    requires Building(m0, vm.M(), t, sz, trampoline, trapframe) && pagetable == t.root && top >= PGSIZE
    requires |args| != MAXARG
    modifies vm
    ensures Building(m0, vm.M(), t, sz, trampoline, trapframe) && SameEntries(old(vm.M()), t, vm.M(), t)
    ensures ok ==> |args| < MAXARG && sp == ArgvAt(top, args) && sp >= top - PGSIZE
    ensures ok ==> Memory(vm.M(), t, Pages(sz)) == WithArgs(Memory(old(vm.M()), t, Pages(sz)), top, args)
  {
    hide Building, CopiedOut, Memory, Pages, PutBytes, Below, Entry;
    sp := top;
    ghost var c := Memory(vm.M(), t, Pages(sz));
    var stackbase := top - PGSIZE;
    var ustack: seq<Byte> := [];
    var argc := 0;
    while argc < |args|
      invariant 0 <= argc <= |args| && argc <= MAXARG && Building(m0, vm.M(), t, sz, trampoline, trapframe)
      invariant SameEntries(old(vm.M()), t, vm.M(), t)
      invariant sp == SpAfter(top, args, argc) && ustack == ArgvBytes(top, args, argc)
      invariant Memory(vm.M(), t, Pages(sz)) == WithStrings(c, top, args, argc)
    {
      if argc >= MAXARG {
        return false, sp;
      }
      var p := Push(vm, pagetable, sp, stackbase, args[argc] + [0], m0, t, sz, trampoline, trapframe);
      if p.None? {
        return false, sp;
      }
      sp := p.value;
      ustack := ustack + ToBytes(sp, 8);
      argc := argc + 1;
    }
    var p := Push(vm, pagetable, sp, stackbase, ustack + ToBytes(0, 8), m0, t, sz, trampoline, trapframe);
    if p.None? {
      return false, sp;
    }
    return true, p.value;
  }

  method LoadSegments(vm: Vm, pagetable: nat, segs: seq<Segment>, ghost m0: Mem, ghost t0: Tree,
                      ghost trampoline: nat, ghost trapframe: nat)
    returns (ok: bool, sz: nat, ghost t: Tree)
    requires Building(m0, vm.M(), t0, 0, trampoline, trapframe) && pagetable == t0.root && Physical(m0)
    requires forall i :: 0 <= i < |segs| ==> SegmentOk(segs[i])
    modifies vm
    ensures Building(m0, vm.M(), t, sz, trampoline, trapframe) && t.root == t0.root
    ensures AllUser(vm.M(), t, Pages(sz))
    ensures ok ==> Memory(vm.M(), t, Pages(sz)) == WithSegments(segs, |segs|)
    ensures ok ==> PageFlags(vm.M(), t, Pages(sz)) == SegmentFlags(segs, |segs|)
    ensures ok ==> forall i :: 0 <= i < |segs| ==> Loadable(segs[i])
  {
    hide Building, AllUser, SegmentOk, Pages, Mem.Pages, Physical, Memory, PageFlags, Loadable, WithSegment, MoreFlags;
    sz, t := 0, t0;
    NoUserYet(vm.M(), t);
    BuildingMemory(m0, vm.M(), t, sz, trampoline, trapframe);
    FlagsSize(vm.M(), t, 0);
    var i := 0;
    while i < |segs|
      invariant 0 <= i <= |segs| && Building(m0, vm.M(), t, sz, trampoline, trapframe) && t.root == t0.root
      invariant AllUser(vm.M(), t, Pages(sz))
      invariant Memory(vm.M(), t, Pages(sz)) == WithSegments(segs, i)
      invariant PageFlags(vm.M(), t, Pages(sz)) == SegmentFlags(segs, i)
      invariant forall j :: 0 <= j < i ==> Loadable(segs[j])
    {
      ok, sz, t := LoadSegment(vm, pagetable, sz, segs[i], m0, t, trampoline, trapframe);
      if !ok {
        return;
      }
      i := i + 1;
    }
    ok := true;
  }

  lemma NoUserYet(m: Mem, t: Tree)
    ensures AllUser(m, t, Pages(0)) && Pages(0) == 0
  {
  }

  /** The new image: segments, guard page, stack, arguments. False goes to bad with size sz. */
  method BuildImage(vm: Vm, pagetable: nat, segs: seq<Segment>, args: seq<seq<Byte>>, ghost m0: Mem, ghost t0: Tree,
                    ghost trampoline: nat, ghost trapframe: nat)
    returns (ok: bool, sz: nat, sp: nat, ghost t: Tree)
    requires Building(m0, vm.M(), t0, 0, trampoline, trapframe) && pagetable == t0.root && Physical(m0)
    requires |args| != MAXARG && forall i :: 0 <= i < |segs| ==> SegmentOk(segs[i])
    modifies vm
    ensures Building(m0, vm.M(), t, sz, trampoline, trapframe) && t.root == t0.root
    ensures ok ==> Memory(vm.M(), t, Pages(sz)) == ProgramBytes(segs, args) && sz == |ProgramBytes(segs, args)|
    ensures ok ==> PageFlags(vm.M(), t, Pages(sz)) == ProgramFlags(segs)
    ensures ok ==> |args| < MAXARG && sp == ArgvAt(sz, args) && sp >= sz - PGSIZE
    ensures ok ==> Ready(Memory(vm.M(), t, Pages(sz)), segs, sp, args)
  {
    hide Building, AllUser, SegmentOk, Pages, Mem.Pages, Entry, NoUser, Physical, Memory, WithArgs, ArgvAt;
    hide WithSegments, PageFlags, SegmentFlags, SameEntries, Loadable, Ready, ProgramBytes;
    sp := 0;
    ok, sz, t := LoadSegments(vm, pagetable, segs, m0, t0, trampoline, trapframe);
    if !ok {
      return;
    }
    var base := Pages(sz) * PGSIZE;
    RoundUp(sz);
    SameSize(m0, vm.M(), t, sz, base, trampoline, trapframe);
    sz := base;
    ghost var c, fs := Memory(vm.M(), t, Pages(sz)), PageFlags(vm.M(), t, Pages(sz));
    BuildingMemory(m0, vm.M(), t, sz, trampoline, trapframe);
    FlagsSize(vm.M(), t, Pages(sz));
    var sz1;
    sz1, t := GrowImage(vm, pagetable, sz, sz + 2 * PGSIZE, PTE_W, m0, t, trampoline, trapframe);
    if sz1 == 0 {
      return false, sz, sp, t;
    }
    sz := sz1;
    TwoMorePages(c, base);
    ImageSmall(m0, vm.M(), t, sz, trampoline, trapframe);
    GuardPage(base);
    TwoMoreFlags(fs, base);
    ghost var m := vm.M();
    ok := Uvmclear(vm, pagetable, sz - 2 * PGSIZE, m0, t, sz, trampoline, trapframe);
    StackFlags(fs, m, vm.M(), t, |fs|);
    m := vm.M();
    ok, sp := PushArgs(vm, pagetable, sz, args, m0, t, sz, trampoline, trapframe);
    SameFlags(m, t, vm.M(), Pages(sz));
    if ok {
      ProgramSize(segs, args, c);
      ProgramThere(segs, args);
    }
  }

  lemma TwoMorePages(c: seq<Byte>, base: nat)
    requires |c| == base && base % PGSIZE == 0
    ensures Extended(c, base + 2 * PGSIZE) == c + Zeros(2 * PGSIZE)
  {
  }

  lemma TwoMoreFlags(fs: seq<nat>, base: nat)
    requires |fs| == Pages(base) && base % PGSIZE == 0
    ensures MoreFlags(fs, base + 2 * PGSIZE, PTE_W) ==
            fs + [PTE_R + PTE_U + PTE_W + PTE_V, PTE_R + PTE_U + PTE_W + PTE_V]
    ensures Pages(base + 2 * PGSIZE) == |fs| + 2 && base / PGSIZE == |fs|
  {
  }

  /** Strings and pointers go over bytes that are there. */
  lemma {:induction false} StringsSize(c: seq<Byte>, top: nat, args: seq<seq<Byte>>, k: nat)
    requires k <= |args|
    ensures |WithStrings(c, top, args, k)| == |c|
  {
    if k > 0 { StringsSize(c, top, args, k - 1); }
  }

  lemma ProgramSize(segs: seq<Segment>, args: seq<seq<Byte>>, c: seq<Byte>)
    requires c == WithSegments(segs, |segs|)
    ensures |ProgramBytes(segs, args)| == |c| + 2 * PGSIZE
    ensures ProgramBytes(segs, args) == WithArgs(c + Zeros(2 * PGSIZE), |c| + 2 * PGSIZE, args)
  {
    hide WithSegments, WithStrings, ArgvAt, ArgvBytes;
    var d := c + Zeros(2 * PGSIZE);
    StringsSize(d, |d|, args, |args|);
  }

  lemma RoundUp(sz: nat)
    ensures Pages(Pages(sz) * PGSIZE) == Pages(sz) && sz <= Pages(sz) * PGSIZE < sz + PGSIZE
  {
  }

  lemma GuardPage(base: nat)
    requires base % PGSIZE == 0
    ensures base / PGSIZE < Pages(base + 2 * PGSIZE)
  {
  }

  lemma SameSize(m0: Mem, m: Mem, t: Tree, sz: nat, sz2: nat, trampoline: nat, trapframe: nat)
    requires Building(m0, m, t, sz, trampoline, trapframe) && Pages(sz2) == Pages(sz)
    ensures Building(m0, m, t, sz2, trampoline, trapframe)
  {
    hide Image, ProcTree, Whole, Pages;
  }

  /** A process keeps its tree while another one is being built. */
  lemma OldTreeKept(m0: Mem, m: Mem, t: Tree, n: nat, told: Tree, k: nat, trampoline: nat, trapframe: nat)
    requires Image(m0, m, t, n) && TreeOk(m0, told) && ProcTree(m0, told, k, trampoline, trapframe)
    ensures TreeOk(m, told) && ProcTree(m, told, k, trampoline, trapframe) && SameEntries(m0, told, m, told)
  {
    TreePagesInTables(m0, told);
    TreeFrame(m0, m, told);
    hide TreeOk, Entry, Tree.TablePages, Mem.Parted, Mem.Pages, IsLeaf, Rwx, KernelEntry, Ppn, FramesOf;
  }

  lemma StartBuilding(m0: Mem, m: Mem, t: Tree, trampoline: nat, trapframe: nat)
    requires Built(m0, m, t) && KernelOnly(m, t, trampoline, trapframe, 0) && Whole(m0)
    ensures Building(m0, m, t, 0, trampoline, trapframe)
  {
    ImageStart(m0, m, t);
    hide Image, Entry, KernelEntry, TreeOk, Mem.Parted;
  }

  /**
    exec's memory: a failure, wherever it happens, leaves the same free pages,
    tables and frames, and so the old image; a success replaces the old image,
    whose pages all go back to the free list.
  */
  method Exec(vm: Vm, trampoline: nat, trapframe: nat, segs: seq<Segment>, args: seq<seq<Byte>>, old_: nat, oldsz: nat,
              ghost told: Tree)
    returns (ok: bool, pagetable: nat, sz: nat, sp: nat, ghost t: Tree)
    requires vm.M().Parted() && TreeOk(vm.M(), told) && old_ == told.root && Whole(vm.M()) && Physical(vm.M())
    requires ProcTree(vm.M(), told, Pages(oldsz), trampoline, trapframe)
    requires |args| != MAXARG && forall i :: 0 <= i < |segs| ==> SegmentOk(segs[i])
    modifies vm
    ensures !ok ==> Restored(old(vm.M()), vm.M())
    ensures ok ==> pagetable == t.root && Replaced(old(vm.M()), told, Pages(oldsz), vm.M(), t, Pages(sz))
    ensures ok ==> TreeOk(vm.M(), t) && ProcTree(vm.M(), t, Pages(sz), trampoline, trapframe) && Whole(vm.M())
    ensures ok ==> Memory(vm.M(), t, Pages(sz)) == ProgramBytes(segs, args) && sz == |ProgramBytes(segs, args)|
    ensures ok ==> PageFlags(vm.M(), t, Pages(sz)) == ProgramFlags(segs)
    ensures ok ==> |args| < MAXARG && sp == ArgvAt(sz, args) && sp >= sz - PGSIZE
    ensures ok ==> Ready(Memory(vm.M(), t, Pages(sz)), segs, sp, args)
  {
    hide Building, Built, TreeOk, Mem.Parted, Mem.Pages, ProcTree, Restored, Released, KernelOnly, Whole, Pages;
    hide Physical;
    hide Memory, ProgramBytes, ArgvAt, Replaced, PageFlags, ProgramFlags, Ready;
    ghost var m0 := vm.M();
    var pt;
    pt, t := ProcPagetable(vm, trampoline, trapframe);
    ghost var m1 := vm.M();
    if pt.None? {
      return false, 0, 0, 0, t;
    }
    pagetable := pt.value;
    StartBuilding(m0, m1, t, trampoline, trapframe);
    ok, sz, sp, t := BuildImage(vm, pagetable, segs, args, m0, t, trampoline, trapframe);
    m1 := vm.M();
    BuildingFacts(m0, m1, t, sz, trampoline, trapframe);
    BuildingParts(m0, m1, t, sz, trampoline, trapframe);
    if !ok {
      var freed := FreeProcess(vm, pagetable, sz, t, trampoline, trapframe);
      ImageReleased(m0, m1, t, Pages(sz), vm.M());
      return false, pagetable, sz, sp, t;
    }
    OldTreeKept(m0, m1, t, Pages(sz), told, Pages(oldsz), trampoline, trapframe);
    var freed := FreeProcess(vm, old_, oldsz, told, trampoline, trapframe);
    NewTreeKept(m0, m1, t, sz, told, Pages(oldsz), vm.M(), trampoline, trapframe);
  }

  /**
    From m to m2 tree t with n pages took the place of tree told with k: their own
    tables and frames changed hands, all others are as they were.
  */
  ghost predicate Replaced(m: Mem, told: Tree, k: nat, m2: Mem, t: Tree, n: nat) {
    && m2.Parted() && m2.Pages() == m.Pages()
    && t.TablePages() !! m.tables.Keys && m2.tables.Keys == (m.tables.Keys - told.TablePages()) + t.TablePages()
    && (forall p :: p in m.tables && p !in told.TablePages() ==> m2.tables[p] == m.tables[p])
    && FramesOf(m2, t, 0, n) !! m.frames.Keys
    && m2.frames.Keys == (m.frames.Keys - FramesOf(m, told, 0, k)) + FramesOf(m2, t, 0, n)
    && (forall p :: p in m.frames && p !in FramesOf(m, told, 0, k) ==> m2.frames[p] == m.frames[p])
  }

  /** Freeing the old image leaves the new one as it is. */
  lemma NewTreeKept(m0: Mem, m: Mem, t: Tree, sz: nat, told: Tree, k: nat, m2: Mem, trampoline: nat, trapframe: nat)
    requires Building(m0, m, t, sz, trampoline, trapframe) && TreeOk(m0, told)
    requires ProcTree(m0, told, k, trampoline, trapframe)
    requires SameEntries(m0, told, m, told) && Released(m, told, k, m2)
    ensures TreeOk(m2, t) && ProcTree(m2, t, Pages(sz), trampoline, trapframe) && Whole(m2)
    ensures Memory(m2, t, Pages(sz)) == Memory(m, t, Pages(sz)) && Replaced(m0, told, k, m2, t, Pages(sz))
    ensures PageFlags(m2, t, Pages(sz)) == PageFlags(m, t, Pages(sz))
  {
    hide Building, TreeOk, Mem.Parted, Mem.Pages, ProcTree, Released, Whole, Pages, Memory, Replaced, Unaliased;
    hide SameEntries, PageFlags;
    hide Mem.FreeSet, Entry, UserBytes;
    BuildingParts(m0, m, t, sz, trampoline, trapframe);
    OldFrames(m0, told, k, m, trampoline, trapframe);
    NewEntriesKept(m0, m, t, Pages(sz), told, k, m2);
    NewProcKept(m, t, Pages(sz), told, k, m2, trampoline, trapframe);
    BuildingMemory(m0, m, t, sz, trampoline, trapframe);
    NewBytesKept(m0, m, t, Pages(sz), told, k, m2);
    SameFlags(m, t, m2, Pages(sz));
    ReplacedFrom(m0, m, t, Pages(sz), told, k, m2);
  }

  lemma OldFrames(m0: Mem, told: Tree, k: nat, m: Mem, trampoline: nat, trapframe: nat)
    requires ProcTree(m0, told, k, trampoline, trapframe) && SameEntries(m0, told, m, told)
    ensures FramesOf(m, told, 0, k) == FramesOf(m0, told, 0, k) && FramesOf(m0, told, 0, k) <= m0.frames.Keys
  {
    hide Entry, Ppn, IsLeaf, Rwx, KernelEntry;
  }

  /** The new tree's tables and frames are none of the old one's. */
  lemma NewEntriesKept(m0: Mem, m: Mem, t: Tree, n: nat, told: Tree, k: nat, m2: Mem)
    requires Image(m0, m, t, n) && TreeOk(m0, told) && Released(m, told, k, m2)
    requires FramesOf(m, told, 0, k) <= m0.frames.Keys
    ensures TreeOk(m2, t) && SameEntries(m, t, m2, t) && t.TablePages() !! told.TablePages()
    ensures FramesOf(m, t, 0, n) !! FramesOf(m, told, 0, k) && FramesOf(m, t, 0, n) !! m0.frames.Keys
    ensures FramesOf(m2, t, 0, n) == FramesOf(m, t, 0, n)
  {
    hide TreeOk, Mem.Parted, Mem.Pages, Mem.FreeSet, Entry, Tree.TablePages, Ppn;
    TreePagesInTables(m0, told);
    TreePagesInTables(m, t);
    forall p | p in t.TablePages() ensures p in m.tables && p in m2.tables && m2.tables[p] == m.tables[p] {
      assert p !in told.TablePages();
    }
    TreeFrame(m, m2, t);
    forall q | q in FramesOf(m, t, 0, n) ensures q !in m0.frames {
      var w :| 0 <= w < n && Ppn(Entry(m, t, w)) == q;
    }
    assert FramesOf(m2, t, 0, n) == FramesOf(m, t, 0, n);
  }

  lemma NewProcKept(m: Mem, t: Tree, n: nat, told: Tree, k: nat, m2: Mem, trampoline: nat, trapframe: nat)
    requires ProcTree(m, t, n, trampoline, trapframe) && SameEntries(m, t, m2, t)
    requires Released(m, told, k, m2) && FramesOf(m, t, 0, n) !! FramesOf(m, told, 0, k)
    ensures ProcTree(m2, t, n, trampoline, trapframe) && Unaliased(m2, t, 0, n) && (Whole(m) ==> Whole(m2))
  {
    hide Mem.Parted, Mem.Pages, Mem.FreeSet, Entry, Tree.TablePages, Ppn, IsLeaf, Rwx, KernelEntry;
    forall w | 0 <= w < n ensures Ppn(Entry(m2, t, w)) in m2.frames {
      assert Ppn(Entry(m, t, w)) in FramesOf(m, t, 0, n);
    }
  }

  lemma NewBytesKept(m0: Mem, m: Mem, t: Tree, n: nat, told: Tree, k: nat, m2: Mem)
    requires Unaliased(m, t, 0, n) && Whole(m) && Unaliased(m2, t, 0, n) && Whole(m2) && SameEntries(m, t, m2, t)
    requires Released(m, told, k, m2) && FramesOf(m, t, 0, n) !! FramesOf(m, told, 0, k)
    ensures Memory(m2, t, n) == Memory(m, t, n)
  {
    hide Mem.Parted, Mem.Pages, Mem.FreeSet, Entry, Tree.TablePages, Ppn, UserBytes, Whole;
    SameBytes(m, t, m2, t, n);
  }

  lemma ReplacedFrom(m0: Mem, m: Mem, t: Tree, n: nat, told: Tree, k: nat, m2: Mem)
    requires Image(m0, m, t, n) && TreeOk(m0, told) && Released(m, told, k, m2)
    requires FramesOf(m, told, 0, k) == FramesOf(m0, told, 0, k) <= m0.frames.Keys
    requires t.TablePages() !! told.TablePages() && FramesOf(m, t, 0, n) !! m0.frames.Keys
    requires FramesOf(m2, t, 0, n) == FramesOf(m, t, 0, n)
    ensures Replaced(m0, told, k, m2, t, n)
  {
    hide TreeOk, Mem.Parted, Mem.Pages, Mem.FreeSet, Entry, Tree.TablePages, Ppn, FramesOf;
    assert m2.tables.Keys == (m0.tables.Keys - told.TablePages()) + t.TablePages();
    assert m2.frames.Keys == (m0.frames.Keys - FramesOf(m0, told, 0, k)) + FramesOf(m2, t, 0, n);
  }

  lemma BuildingParts(m0: Mem, m: Mem, t: Tree, sz: nat, trampoline: nat, trapframe: nat)
    requires Building(m0, m, t, sz, trampoline, trapframe)
    ensures Image(m0, m, t, Pages(sz)) && ProcTree(m, t, Pages(sz), trampoline, trapframe)
  {
  }
}
