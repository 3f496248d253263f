module SystemMemory {
  // All processes together: every page of memory has exactly one owner, and what
  // one process does to its own memory is invisible to the others.
  //
  // Owners are the free list, the kernel (tables kt and frames kf, among them the
  // kernel page table, kernel stacks and pipe buffers) and, for each process, its
  // page-table pages, the frames behind its user pages and its trapframe.

  import opened Blocks
  import opened PageTable
  import opened AddressSpace
  import opened TableTree
  import opened VirtualMemory
  import opened AddressGrowth
  import opened ProcMemory
  import opened UserCopy
  import opened ImageBytes
  import opened ExecMemory

  /** A process's address space. */
  datatype Space = Space(t: Tree, sz: nat, trapframe: nat)

  ghost function Frames(m: Mem, s: Space): set<nat> {
    FramesOf(m, s.t, 0, Pages(s.sz)) + {s.trapframe}
  }

  ghost predicate SpaceOk(m: Mem, s: Space, trampoline: nat) {
    && TreeOk(m, s.t) && ProcTree(m, s.t, Pages(s.sz), trampoline, s.trapframe)
    && s.trapframe in m.frames && s.trapframe !in FramesOf(m, s.t, 0, Pages(s.sz))
  }

  type Spaces = map<nat, Space>

  /** Different processes share no page, nor do they with the kernel. */
  ghost predicate Apart(m: Mem, ps: Spaces, kt: set<nat>, kf: set<nat>) {
    && (forall i, j :: i in ps && j in ps && i != j ==>
          ps[i].t.TablePages() !! ps[j].t.TablePages() && Frames(m, ps[i]) !! Frames(m, ps[j]))
    && (forall i :: i in ps ==> ps[i].t.TablePages() !! kt && Frames(m, ps[i]) !! kf)
  }

  /** Every page that is not free belongs to the kernel or to a process. */
  ghost predicate Covered(m: Mem, ps: Spaces, kt: set<nat>, kf: set<nat>) {
    && kt <= m.tables.Keys && kf <= m.frames.Keys
    && (forall p :: p in m.tables ==> p in kt || exists i :: i in ps && p in ps[i].t.TablePages())
    && (forall p :: p in m.frames ==> p in kf || exists i :: i in ps && p in Frames(m, ps[i]))
  }

  /** The state of memory between system calls. */
  ghost predicate System(m: Mem, ps: Spaces, kt: set<nat>, kf: set<nat>, trampoline: nat) {
    && m.Parted() && Physical(m) && Whole(m)
    && (forall i :: i in ps ==> SpaceOk(m, ps[i], trampoline))
    && Apart(m, ps, kt, kf) && Covered(m, ps, kt, kf)
  }

  // --------------------------------------------------------------- one process changes

  /** Tables a become a2 and frames b become b2; all other pages in use are as they were. */
  ghost predicate Local(m: Mem, m2: Mem, a: set<nat>, a2: set<nat>, b: set<nat>, b2: set<nat>) {
    && m.Parted() && m2.Parted() && m2.Pages() == m.Pages()
    && a2 !! (m.tables.Keys - a) && b2 !! (m.frames.Keys - b)
    && m2.tables.Keys == (m.tables.Keys - a) + a2 && m2.frames.Keys == (m.frames.Keys - b) + b2
    && (forall p :: p in m.tables && p !in a ==> m2.tables[p] == m.tables[p])
    && (forall p :: p in m.frames && p !in b ==> m2.frames[p] == m.frames[p])
  }

  lemma FramesInFrames(m: Mem, s: Space, trampoline: nat)
    requires SpaceOk(m, s, trampoline)
    ensures Frames(m, s) <= m.frames.Keys && s.t.TablePages() <= m.tables.Keys
  {
    hide TreeOk, Entry, Tree.TablePages, IsLeaf, Rwx, KernelEntry, Ppn;
    TreePagesInTables(m, s.t);
  }

  /** A process whose pages are not touched keeps its tree and every byte of its memory. */
  lemma SpaceKept(m: Mem, m2: Mem, a: set<nat>, a2: set<nat>, b: set<nat>, b2: set<nat>, s: Space, trampoline: nat)
    requires Local(m, m2, a, a2, b, b2) && SpaceOk(m, s, trampoline) && Whole(m) && Whole(m2)
    requires s.t.TablePages() !! a && Frames(m, s) !! b
    ensures SpaceOk(m2, s, trampoline) && Frames(m2, s) == Frames(m, s)
    ensures Memory(m2, s.t, Pages(s.sz)) == Memory(m, s.t, Pages(s.sz))
    ensures s.t.TablePages() !! a2 && Frames(m, s) !! b2
  {
    hide TreeOk, Entry, Tree.TablePages, Mem.Parted, Mem.Pages, Ppn, Pages, ProcTree, FramesOf, Unaliased, Whole;
    hide Memory;
    FramesInFrames(m, s, trampoline);
    TreeFrame(m, m2, s.t);
    EntriesSame(m, m2, s.t, Pages(s.sz));
    ProcTreeKept(m, m2, s.t, Pages(s.sz), trampoline, s.trapframe);
    BytesKept(m, m2, s.t, Pages(s.sz));
  }

  lemma EntriesSame(m: Mem, m2: Mem, t: Tree, n: nat)
    requires forall v: nat :: Entry(m2, t, v) == Entry(m, t, v)
    ensures FramesOf(m2, t, 0, n) == FramesOf(m, t, 0, n)
  {
    hide Entry, Ppn;
  }

  lemma ProcTreeKept(m: Mem, m2: Mem, t: Tree, n: nat, trampoline: nat, trapframe: nat)
    requires ProcTree(m, t, n, trampoline, trapframe) && forall v: nat :: Entry(m2, t, v) == Entry(m, t, v)
    requires FramesOf(m, t, 0, n) <= m2.frames.Keys
    ensures ProcTree(m2, t, n, trampoline, trapframe) && Unaliased(m2, t, 0, n) && Unaliased(m, t, 0, n)
  {
    hide Entry, Ppn, IsLeaf, Rwx, KernelEntry;
    forall w | 0 <= w < n ensures Ppn(Entry(m2, t, w)) in m2.frames {
      assert Ppn(Entry(m, t, w)) in FramesOf(m, t, 0, n);
    }
  }

  lemma BytesKept(m: Mem, m2: Mem, t: Tree, n: nat)
    requires Unaliased(m, t, 0, n) && Unaliased(m2, t, 0, n) && Whole(m) && Whole(m2)
    requires forall v: nat :: Entry(m2, t, v) == Entry(m, t, v)
    requires forall p :: p in FramesOf(m, t, 0, n) ==> p in m.frames && p in m2.frames && m2.frames[p] == m.frames[p]
    ensures Memory(m2, t, n) == Memory(m, t, n)
  {
    hide Entry, Ppn, UserBytes, Whole, Unaliased;
    forall w | 0 <= w < n ensures Ppn(Entry(m, t, w)) in FramesOf(m, t, 0, n) {
    }
    SameBytes(m, t, m2, t, n);
  }

  ghost function TablesAt(ps: Spaces, i: nat): set<nat> {
    if i in ps then ps[i].t.TablePages() else {}
  }

  ghost function FramesAt(m: Mem, ps: Spaces, i: nat): set<nat> {
    if i in ps then Frames(m, ps[i]) else {}
  }

  /** ps2 is ps except at i. */
  ghost predicate OnlyAt(ps: Spaces, ps2: Spaces, i: nat) {
    forall j :: j != i ==> (j in ps2 <==> j in ps) && (j in ps ==> ps2[j] == ps[j])
  }

  /** Process i changed, appeared or went, within its own pages. */
  ghost predicate Stepped(m: Mem, ps: Spaces, m2: Mem, ps2: Spaces, i: nat, trampoline: nat) {
    && OnlyAt(ps, ps2, i) && Whole(m2)
    && Local(m, m2, TablesAt(ps, i), TablesAt(ps2, i), FramesAt(m, ps, i), FramesAt(m2, ps2, i))
    && (i in ps2 ==> SpaceOk(m2, ps2[i], trampoline))
  }

  /** The other processes' spaces, pages and memory are as they were. */
  ghost predicate OthersKept(m: Mem, ps: Spaces, m2: Mem, ps2: Spaces, i: nat, trampoline: nat) {
    forall j :: j in ps && j != i ==>
      && j in ps2 && ps2[j] == ps[j] && SpaceOk(m2, ps[j], trampoline) && Frames(m2, ps[j]) == Frames(m, ps[j])
      && Memory(m2, ps[j].t, Pages(ps[j].sz)) == Memory(m, ps[j].t, Pages(ps[j].sz))
  }

  lemma OthersUntouched(m: Mem, ps: Spaces, kt: set<nat>, kf: set<nat>, trampoline: nat, m2: Mem, ps2: Spaces, i: nat)
    requires System(m, ps, kt, kf, trampoline) && Stepped(m, ps, m2, ps2, i, trampoline)
    ensures OthersKept(m, ps, m2, ps2, i, trampoline)
    ensures forall j :: j in ps && j != i ==>
      ps[j].t.TablePages() !! TablesAt(ps2, i) && Frames(m, ps[j]) !! FramesAt(m2, ps2, i)
  {
    hide SpaceOk, Local, Memory, Frames, Whole, Mem.Parted, Physical, Covered, Tree.TablePages;
    forall j | j in ps && j != i
      ensures SpaceOk(m2, ps[j], trampoline) && Frames(m2, ps[j]) == Frames(m, ps[j])
      ensures Memory(m2, ps[j].t, Pages(ps[j].sz)) == Memory(m, ps[j].t, Pages(ps[j].sz))
      ensures ps[j].t.TablePages() !! TablesAt(ps2, i) && Frames(m, ps[j]) !! FramesAt(m2, ps2, i)
    {
      SpaceKept(m, m2, TablesAt(ps, i), TablesAt(ps2, i), FramesAt(m, ps, i), FramesAt(m2, ps2, i), ps[j], trampoline);
    }
  }

  /** Such a step keeps every page with exactly one owner. */
  lemma SteppedSystem(m: Mem, ps: Spaces, kt: set<nat>, kf: set<nat>, trampoline: nat, m2: Mem, ps2: Spaces, i: nat)
    requires System(m, ps, kt, kf, trampoline) && Stepped(m, ps, m2, ps2, i, trampoline)
    ensures System(m2, ps2, kt, kf, trampoline) && OthersKept(m, ps, m2, ps2, i, trampoline)
  {
    hide SpaceOk, Memory, Frames, Whole, Mem.Parted, Apart, Covered, Tree.TablePages, Mem.Pages, Local, OthersKept;
    OthersUntouched(m, ps, kt, kf, trampoline, m2, ps2, i);
    LocalFacts(m, m2, TablesAt(ps, i), TablesAt(ps2, i), FramesAt(m, ps, i), FramesAt(m2, ps2, i));
    AllOk(m, ps, m2, ps2, i, trampoline);
    StillApart(m, ps, kt, kf, trampoline, m2, ps2, i);
    StillCovered(m, ps, kt, kf, trampoline, m2, ps2, i);
  }

  lemma LocalFacts(m: Mem, m2: Mem, a: set<nat>, a2: set<nat>, b: set<nat>, b2: set<nat>)
    requires Local(m, m2, a, a2, b, b2)
    ensures m2.Parted() && (Physical(m) ==> Physical(m2))
  {
  }

  lemma AllOk(m: Mem, ps: Spaces, m2: Mem, ps2: Spaces, i: nat, trampoline: nat)
    requires OthersKept(m, ps, m2, ps2, i, trampoline) && OnlyAt(ps, ps2, i)
    requires (i in ps2 ==> SpaceOk(m2, ps2[i], trampoline))
    ensures forall j :: j in ps2 ==> SpaceOk(m2, ps2[j], trampoline)
  {
    hide SpaceOk, Memory, Frames;
  }

  lemma StillApart(m: Mem, ps: Spaces, kt: set<nat>, kf: set<nat>, trampoline: nat, m2: Mem, ps2: Spaces, i: nat)
    requires Apart(m, ps, kt, kf) && Covered(m, ps, kt, kf)
    requires Stepped(m, ps, m2, ps2, i, trampoline) && OthersKept(m, ps, m2, ps2, i, trampoline)
    requires forall j :: j in ps && j != i ==>
      ps[j].t.TablePages() !! TablesAt(ps2, i) && Frames(m, ps[j]) !! FramesAt(m2, ps2, i)
    ensures Apart(m2, ps2, kt, kf)
  {
    hide SpaceOk, Memory, Frames, Whole, Mem.Parted, Tree.TablePages, Mem.Pages;
    assert TablesAt(ps2, i) !! kt && FramesAt(m2, ps2, i) !! kf by {
      KernelKept(m, ps, kt, kf, trampoline, m2, ps2, i);
    }
    forall j, k | j in ps2 && k in ps2 && j != k
      ensures ps2[j].t.TablePages() !! ps2[k].t.TablePages() && Frames(m2, ps2[j]) !! Frames(m2, ps2[k])
    {
      assert j != i ==> j in ps && ps2[j] == ps[j];
      assert k != i ==> k in ps && ps2[k] == ps[k];
    }
  }

  lemma KernelKept(m: Mem, ps: Spaces, kt: set<nat>, kf: set<nat>, trampoline: nat, m2: Mem, ps2: Spaces, i: nat)
    requires Apart(m, ps, kt, kf) && Covered(m, ps, kt, kf) && Stepped(m, ps, m2, ps2, i, trampoline)
    ensures TablesAt(ps2, i) !! kt && FramesAt(m2, ps2, i) !! kf
    ensures TablesAt(ps, i) !! kt && FramesAt(m, ps, i) !! kf
  {
    hide SpaceOk, Memory, Frames, Whole, Mem.Parted, Tree.TablePages, Mem.Pages;
  }

  lemma StillCovered(m: Mem, ps: Spaces, kt: set<nat>, kf: set<nat>, trampoline: nat, m2: Mem, ps2: Spaces, i: nat)
    requires Apart(m, ps, kt, kf) && Covered(m, ps, kt, kf)
    requires Stepped(m, ps, m2, ps2, i, trampoline) && OthersKept(m, ps, m2, ps2, i, trampoline)
    ensures Covered(m2, ps2, kt, kf)
  {
    hide SpaceOk, Memory, Frames, Whole, Mem.Parted, Tree.TablePages, Mem.Pages;
    KernelKept(m, ps, kt, kf, trampoline, m2, ps2, i);
    forall p | p in m2.tables ensures p in kt || exists j :: j in ps2 && p in ps2[j].t.TablePages() {
      if p in TablesAt(ps2, i) {
        assert i in ps2;
      } else if p !in kt {
        var j :| j in ps && p in ps[j].t.TablePages();
        assert j != i && j in ps2;
      }
    }
    forall p | p in m2.frames ensures p in kf || exists j :: j in ps2 && p in Frames(m2, ps2[j]) {
      if p in FramesAt(m2, ps2, i) {
        assert i in ps2;
      } else if p !in kf {
        var j :| j in ps && p in Frames(m, ps[j]);
        assert j != i && j in ps2;
      }
    }
  }

  // -------------------------------------------------------------- nothing changed after all

  /** A failed fork or exec. */
  lemma RestoredSystem(m: Mem, ps: Spaces, kt: set<nat>, kf: set<nat>, trampoline: nat, m2: Mem, i: nat)
    requires System(m, ps, kt, kf, trampoline) && Restored(m, m2)
    ensures System(m2, ps, kt, kf, trampoline) && OthersKept(m, ps, m2, ps, i, trampoline)
    ensures i in ps ==> Memory(m2, ps[i].t, Pages(ps[i].sz)) == Memory(m, ps[i].t, Pages(ps[i].sz))
  {
    hide SpaceOk, Memory, Frames, Mem.Parted, Apart, Covered, Tree.TablePages, Mem.Pages, OthersKept, Restored, Pages;
    hide Stepped, Whole, Physical;
    RestoredStepped(m, ps, m2, i, trampoline);
    SteppedSystem(m, ps, kt, kf, trampoline, m2, ps, i);
  }

  lemma RestoredStepped(m: Mem, ps: Spaces, m2: Mem, i: nat, trampoline: nat)
    requires m.Parted() && Whole(m) && (i in ps ==> SpaceOk(m, ps[i], trampoline)) && Restored(m, m2)
    ensures Stepped(m, ps, m2, ps, i, trampoline)
    ensures i in ps ==> Memory(m2, ps[i].t, Pages(ps[i].sz)) == Memory(m, ps[i].t, Pages(ps[i].sz))
  {
    hide SpaceOk, Memory, Frames, Mem.Parted, Tree.TablePages, Mem.Pages, Restored, Pages, Local;
    RestoredFacts(m, m2);
    RestoredLocal(m, m2, {}, {});
    if i in ps {
      SpaceKept(m, m2, {}, {}, {}, {}, ps[i], trampoline);
      FramesInFrames(m, ps[i], trampoline);
      RestoredLocal(m, m2, TablesAt(ps, i), FramesAt(m, ps, i));
    }
  }

  lemma RestoredFacts(m: Mem, m2: Mem)
    requires Restored(m, m2)
    ensures m2.tables == m.tables && m2.frames == m.frames && m2.Parted() && m2.Pages() == m.Pages()
  {
  }

  lemma RestoredLocal(m: Mem, m2: Mem, a: set<nat>, b: set<nat>)
    requires Restored(m, m2) && m.Parted() && a <= m.tables.Keys && b <= m.frames.Keys
    ensures Local(m, m2, a, a, b, b)
  {
    hide Mem.Parted, Mem.FreeSet;
  }

  // --------------------------------------------------------------------------- fork

  lemma ForkStepped(m: Mem, ps: Spaces, t1: Tree, m2: Mem, j: nat, s: Space, trampoline: nat)
    requires j !in ps && m.Parted() && Physical(m) && Whole(m) && Unaliased(m, t1, 0, Pages(s.sz))
    requires Forked(m, t1, m2, s.t, Pages(s.sz), trampoline, s.trapframe)
    requires s.trapframe in m2.frames && |m2.frames[s.trapframe]| == PGSIZE
    ensures Stepped(m, ps, m2, ps[j := s], j, trampoline)
    ensures Memory(m2, s.t, Pages(s.sz)) == Memory(m, t1, Pages(s.sz))
  {
    hide TreeOk, Entry, Tree.TablePages, Mem.Parted, Mem.Pages, Ppn, FramesOf, Unaliased, Memory, IsLeaf, Rwx;
    hide KernelEntry;
    hide PageCopied;
    var n := Pages(s.sz);
    ForkWhole(m, t1, m2, s.t, n, trampoline, s.trapframe);
    ForkBytes(m, t1, m2, s.t, n);
  }

  lemma ForkWhole(m: Mem, t1: Tree, m2: Mem, t2: Tree, n: nat, trampoline: nat, trapframe: nat)
    requires Whole(m) && Physical(m) && Forked(m, t1, m2, t2, n, trampoline, trapframe)
    requires trapframe in m2.frames && |m2.frames[trapframe]| == PGSIZE
    ensures Whole(m2)
  {
    hide TreeOk, Entry, Tree.TablePages, Mem.Parted, Mem.Pages, Ppn, ProcTree, SameEntries, V, Flags;
    NoPageZero(m, m2);
    forall p | p in m2.frames ensures |m2.frames[p]| == PGSIZE {
      if p !in m.frames && p != trapframe {
        var w :| 0 <= w < n && Ppn(Entry(m2, t2, w)) == p;
        assert PageCopied(m, t1, m2, t2, w);
      }
    }
  }

  /** The child's memory is the parent's. */
  lemma ForkBytes(m: Mem, t1: Tree, m2: Mem, t2: Tree, n: nat)
    requires Whole(m) && Whole(m2) && Unaliased(m, t1, 0, n) && Unaliased(m2, t2, 0, n)
    requires forall w :: 0 <= w < n ==> PageCopied(m, t1, m2, t2, w)
    ensures Memory(m2, t2, n) == Memory(m, t1, n)
  {
    hide Entry, Ppn, V, Flags, UserBytes, Unaliased, Whole;
    var x, y := UserBytes(m2, t2, n), UserBytes(m, t1, n);
    forall a | 0 <= a < n * PGSIZE ensures x[a] == y[a] {
      UserBytesAt(m2, t2, n, a);
      UserBytesAt(m, t1, n, a);
      assert PageCopied(m, t1, m2, t2, a / PGSIZE);
    }
  }

  // --------------------------------------------------------------------------- exec

  lemma ExecStepped(m: Mem, ps: Spaces, i: nat, m2: Mem, t: Tree, sz: nat, trampoline: nat)
    requires i in ps && m.Parted() && SpaceOk(m, ps[i], trampoline) && Whole(m2)
    requires Replaced(m, ps[i].t, Pages(ps[i].sz), m2, t, Pages(sz))
    requires TreeOk(m2, t) && ProcTree(m2, t, Pages(sz), trampoline, ps[i].trapframe)
    ensures Stepped(m, ps, m2, ps[i := Space(t, sz, ps[i].trapframe)], i, trampoline)
  {
    hide TreeOk, Entry, Tree.TablePages, Mem.Parted, Mem.Pages, FramesOf, ProcTree, Whole;
    var tf := ps[i].trapframe;
    var ps2 := ps[i := Space(t, sz, tf)];
    var b, b2 := FramesAt(m, ps, i), FramesAt(m2, ps2, i);
    assert m2.frames.Keys == (m.frames.Keys - b) + b2;
  }

  // ------------------------------------------------------------------- growing and shrinking

  lemma GrowStepped(m: Mem, ps: Spaces, i: nat, m2: Mem, t2: Tree, sz: nat, xperm: nat, trampoline: nat)
    requires i in ps && SpaceOk(m, ps[i], trampoline) && Whole(m) && Physical(m) && ps[i].sz <= sz
    requires Pages(sz) <= PHYSPAGES
    requires xperm == 0 || xperm == PTE_W || xperm == PTE_X || xperm == PTE_W + PTE_X
    requires Pages(ps[i].sz) <= Pages(sz)
    requires Growing(m, ps[i].t, m2, t2, Pages(ps[i].sz), Pages(sz) - Pages(ps[i].sz), PTE_R + PTE_U + xperm + 1)
    ensures Stepped(m, ps, m2, ps[i := Space(t2, sz, ps[i].trapframe)], i, trampoline)
    ensures Memory(m2, t2, Pages(sz)) == Extended(Memory(m, ps[i].t, Pages(ps[i].sz)), sz)
  {
    hide TreeOk, Entry, Tree.TablePages, Mem.Parted, FramesOf, ProcTree, Whole, NewPages, TreeGrew, Memory, Pages;
    hide Physical;
    var s := ps[i];
    var n, k, flags := Pages(s.sz), Pages(sz) - Pages(s.sz), PTE_R + PTE_U + xperm + 1;
    ProcTreeGrown(m, s.t, n, m2, t2, k, xperm, trampoline, s.trapframe);
    GrowPhysical(m, s.t, m2, t2, n, k, flags);
    GrownWhole(m, s.t, m2, t2, n, k, flags);
    FramesInFrames(m, s, trampoline);
    GrewLocal(m, s.t, m2, t2, n, k, flags, s.trapframe);
    ProcUnaliased(m, s.t, n, trampoline, s.trapframe);
    ProcUnaliased(m2, t2, n + k, trampoline, s.trapframe);
    GrownBytes(m, s.t, n, m2, t2, k, flags);
    GrowingFacts(m, s.t, m2, t2, n, k, flags);
    MemoryOf(m, s.t, n);
    MemoryOf(m2, t2, n + k);
    var c := Memory(m, s.t, n);
    assert k == 0 ==> c + Zeros(k * PGSIZE) == c;
  }

  lemma MemoryOf(m: Mem, t: Tree, n: nat)
    requires Unaliased(m, t, 0, n) && Whole(m)
    ensures Memory(m, t, n) == UserBytes(m, t, n) && |Memory(m, t, n)| == n * PGSIZE
  {
    hide Unaliased, Whole, UserBytes;
  }

  lemma ProcUnaliased(m: Mem, t: Tree, n: nat, trampoline: nat, trapframe: nat)
    requires ProcTree(m, t, n, trampoline, trapframe)
    ensures Unaliased(m, t, 0, n) && n <= FRAME_VPN
  {
  }

  lemma GrowPhysical(m: Mem, t: Tree, m2: Mem, t2: Tree, v: nat, n: nat, flags: nat)
    requires Growing(m, t, m2, t2, v, n, flags) && Physical(m)
    ensures 0 !in m2.frames
  {
    hide TreeOk, Entry, Tree.TablePages, Mem.Parted, NewPages, Extends;
    NoPageZero(m, m2);
  }

  lemma ProcTreeGrown(m: Mem, t: Tree, n: nat, m2: Mem, t2: Tree, k: nat, xperm: nat, trampoline: nat, trapframe: nat)
    requires ProcTree(m, t, n, trampoline, trapframe) && n + k <= FRAME_VPN
    requires xperm == 0 || xperm == PTE_W || xperm == PTE_X || xperm == PTE_W + PTE_X
    requires Growing(m, t, m2, t2, n, k, PTE_R + PTE_U + xperm + 1)
    ensures ProcTree(m2, t2, n + k, trampoline, trapframe)
  {
    hide Entry, Ppn, Flags, V, KernelEntry, IsLeaf, Rwx, UserEntry, FramesOf, TreeGrew, Unaliased;
    GrownUnaliased(m, t, m2, t2, n, k, PTE_R + PTE_U + xperm + 1);
    forall w | 0 <= w < n + k ensures IsLeaf(Entry(m2, t2, w)) && Rwx(Entry(m2, t2, w)) {
      if w >= n {
        assert NewPage(m, m2, t2, w, PTE_R + PTE_U + xperm + 1);
        FlagBits(Entry(m2, t2, w), xperm);
      }
    }
  }

  lemma GrewLocal(m: Mem, t: Tree, m2: Mem, t2: Tree, n: nat, k: nat, flags: nat, tf: nat)
    requires Growing(m, t, m2, t2, n, k, flags) && tf in m.frames && FramesOf(m, t, 0, n) <= m.frames.Keys
    requires tf !in FramesOf(m, t, 0, n)
    ensures Local(m, m2, t.TablePages(), t2.TablePages(), FramesOf(m, t, 0, n) + {tf}, FramesOf(m2, t2, 0,
                                                                                                n + k) + {tf})
    ensures TreeOk(m2, t2) && tf in m2.frames && tf !in FramesOf(m2, t2, 0, n + k)
  {
    hide TreeOk, Entry, Tree.TablePages, Mem.Parted, Mem.Pages, Ppn, V, Flags, Extends;
    FramesGrow(m, t, m2, t2, n, k);
    UngrownFrames(m, t, m2, t2, n, k, flags);
    GrewTables(m, t, m2, t2);
    hide FramesOf;
  }

  lemma GrewTables(m: Mem, t: Tree, m2: Mem, t2: Tree)
    requires TreeGrew(m, t, m2, t2)
    ensures t2.TablePages() !! (m.tables.Keys - t.TablePages())
    ensures m2.tables.Keys == (m.tables.Keys - t.TablePages()) + t2.TablePages()
    ensures forall p :: p in m.tables && p !in t.TablePages() ==> m2.tables[p] == m.tables[p]
  {
    ExtendedPages(t, t2);
    hide TreeOk, Entry, Tree.TablePages, Mem.Parted, Mem.Pages, Extends;
    forall p | p in m.tables && p !in t.TablePages() ensures p !in t2.TablePages() && m2.tables[p] == m.tables[p] {
    }
  }

  /** A failed uvmalloc: the tree may have more tables, nothing else changed. */
  lemma UndoneStepped(m: Mem, ps: Spaces, i: nat, m2: Mem, t2: Tree, trampoline: nat)
    requires i in ps && SpaceOk(m, ps[i], trampoline) && Whole(m) && GrowthUndone(m, ps[i].t, m2, t2)
    ensures Stepped(m, ps, m2, ps[i := ps[i].(t := t2)], i, trampoline)
    ensures Memory(m2, t2, Pages(ps[i].sz)) == Memory(m, ps[i].t, Pages(ps[i].sz))
  {
    hide TreeOk, Entry, Tree.TablePages, Mem.Parted, Mem.Pages, FramesOf, ProcTree, Whole, Memory, Pages, SameEntries;
    hide Extends;
    var s := ps[i];
    FramesInFrames(m, s, trampoline);
    GrewTables(m, s.t, m2, t2);
    SameTree(m, s.t, Pages(s.sz), m2, t2, trampoline, s.trapframe);
    SameWhole(m, m2);
    ProcUnaliased(m, s.t, Pages(s.sz), trampoline, s.trapframe);
    ProcUnaliased(m2, t2, Pages(s.sz), trampoline, s.trapframe);
    SameMemory(m, s.t, m2, t2, Pages(s.sz));
  }

  lemma SameWhole(m: Mem, m2: Mem)
    requires m2.frames == m.frames && Whole(m)
    ensures Whole(m2)
  {
  }

  lemma SameMemory(m: Mem, t: Tree, m2: Mem, t2: Tree, n: nat)
    requires SameEntries(m, t, m2, t2) && m2.frames == m.frames && Whole(m) && Whole(m2)
    requires Unaliased(m, t, 0, n) && Unaliased(m2, t2, 0, n)
    ensures Memory(m2, t2, n) == Memory(m, t, n) && FramesOf(m2, t2, 0, n) == FramesOf(m, t, 0, n)
  {
    hide Entry, Ppn, UserBytes, Whole, Unaliased;
    SameBytes(m, t, m2, t2, n);
  }

  lemma ShrinkStepped(m: Mem, ps: Spaces, i: nat, m2: Mem, sz: nat, trampoline: nat)
    requires i in ps && SpaceOk(m, ps[i], trampoline) && Whole(m) && Pages(sz) <= Pages(ps[i].sz)
    requires RangeUnmapped(m, ps[i].t, m2, Pages(sz), Pages(ps[i].sz) - Pages(sz), true)
    ensures Stepped(m, ps, m2, ps[i := ps[i].(sz := sz)], i, trampoline)
    ensures |Memory(m, ps[i].t, Pages(ps[i].sz))| >= Pages(sz) * PGSIZE
    ensures Memory(m2, ps[i].t, Pages(sz)) == Memory(m, ps[i].t, Pages(ps[i].sz))[..Pages(sz) * PGSIZE]
  {
    hide TreeOk, Entry, Tree.TablePages, Mem.Parted, Mem.Pages, FramesOf, ProcTree, Whole, Memory, Pages, RangeUnmapped;
    var s := ps[i];
    FramesInFrames(m, s, trampoline);
    ShrunkFrames(m, s.t, m2, Pages(sz), Pages(s.sz), trampoline, s.trapframe);
    ShrunkLocal(m, s.t, m2, Pages(sz), Pages(s.sz), s.trapframe);
    ShrunkTree(m, s.t, m2, Pages(sz), Pages(s.sz), trampoline, s.trapframe);
    FewerWhole(m, m2);
    ShrunkBytes(m, s.t, m2, Pages(sz), Pages(s.sz), trampoline, s.trapframe);
  }

  lemma FewerWhole(m: Mem, m2: Mem)
    requires Whole(m) && forall p :: p in m2.frames ==> p in m.frames && m2.frames[p] == m.frames[p]
    ensures Whole(m2)
  {
  }

  lemma ShrunkFrames(m: Mem, t: Tree, m2: Mem, n: nat, k: nat, trampoline: nat, trapframe: nat)
    requires ProcTree(m, t, k, trampoline, trapframe) && n <= k && RangeUnmapped(m, t, m2, n, k - n, true)
    ensures FramesOf(m, t, 0, k) == FramesOf(m, t, 0, n) + FramesOf(m, t, n, k - n)
    ensures FramesOf(m, t, 0, n) !! FramesOf(m, t, n, k - n) && FramesOf(m2, t, 0, n) == FramesOf(m, t, 0, n)
    ensures forall p :: p in m2.frames ==> p in m.frames && m2.frames[p] == m.frames[p]
  {
    hide TreeOk, Entry, Tree.TablePages, Mem.Parted, Mem.Pages, Ppn, IsLeaf, Rwx, KernelEntry, Mem.FreeSet;
    FramesGrow(m, t, m, t, n, k - n);
    assert FramesOf(m2, t, 0, n) == FramesOf(m, t, 0, n);
  }

  lemma ShrunkLocal(m: Mem, t: Tree, m2: Mem, n: nat, k: nat, tf: nat)
    requires n <= k && RangeUnmapped(m, t, m2, n, k - n, true) && tf in m.frames && tf !in FramesOf(m, t, 0, k)
    requires FramesOf(m, t, 0, k) <= m.frames.Keys && t.TablePages() <= m.tables.Keys
    requires FramesOf(m, t, 0, k) == FramesOf(m, t, 0, n) + FramesOf(m, t, n, k - n)
    requires FramesOf(m, t, 0, n) !! FramesOf(m, t, n, k - n) && FramesOf(m2, t, 0, n) == FramesOf(m, t, 0, n)
    ensures Local(m, m2, t.TablePages(), t.TablePages(), FramesOf(m, t, 0, k) + {tf}, FramesOf(m2, t, 0, n) + {tf})
    ensures TreeOk(m2, t) && tf in m2.frames && tf !in FramesOf(m2, t, 0, n)
  {
    hide TreeOk, Entry, Tree.TablePages, Mem.Parted, Mem.Pages, Mem.FreeSet, FramesOf;
  }

  lemma ShrunkTree(m: Mem, t: Tree, m2: Mem, n: nat, k: nat, trampoline: nat, trapframe: nat)
    requires ProcTree(m, t, k, trampoline, trapframe) && n <= k && RangeUnmapped(m, t, m2, n, k - n, true)
    requires FramesOf(m, t, 0, n) !! FramesOf(m, t, n, k - n)
    ensures ProcTree(m2, t, n, trampoline, trapframe)
  {
    hide TreeOk, Entry, Tree.TablePages, Mem.Parted, Mem.Pages, Ppn, IsLeaf, Rwx, KernelEntry, Mem.FreeSet;
    KernelElsewhere(trampoline, trapframe);
    forall w | 0 <= w < n ensures Ppn(Entry(m2, t, w)) in m2.frames {
      assert Ppn(Entry(m, t, w)) in FramesOf(m, t, 0, n);
    }
    assert forall w: nat :: w >= n ==> Entry(m2, t, w) == KernelEntry(trampoline, trapframe, w);
  }

  lemma ShrunkBytes(m: Mem, t: Tree, m2: Mem, n: nat, k: nat, trampoline: nat, trapframe: nat)
    requires ProcTree(m, t, k, trampoline, trapframe) && ProcTree(m2, t, n, trampoline, trapframe) && n <= k
    requires RangeUnmapped(m, t, m2, n, k - n, true) && Whole(m) && Whole(m2)
    requires forall p :: p in m2.frames ==> p in m.frames && m2.frames[p] == m.frames[p]
    ensures |Memory(m, t, k)| == k * PGSIZE && Memory(m2, t, n) == Memory(m, t, k)[..n * PGSIZE]
  {
    hide TreeOk, Entry, Tree.TablePages, Mem.Parted, Mem.Pages, Ppn, Mem.FreeSet, ProcTree, FramesOf, UserBytes;
    hide Unaliased, Whole;
    ProcUnaliased(m, t, k, trampoline, trapframe);
    ProcUnaliased(m2, t, n, trampoline, trapframe);
    var x, y := UserBytes(m2, t, n), UserBytes(m, t, k)[..n * PGSIZE];
    forall a | 0 <= a < n * PGSIZE ensures x[a] == y[a] {
      UserBytesAt(m2, t, n, a);
      UserBytesAt(m, t, k, a);
    }
  }

  // --------------------------------------------------------------------------- freeproc

  /** kfree of the trapframe leaves the rest of the process for proc_freepagetable. */
  lemma DropTrapframe(m: Mem, s: Space, trampoline: nat)
    requires m.Parted() && SpaceOk(m, s, trampoline)
    ensures var m1 := m.DropFrame(s.trapframe);
      && m1.Parted() && m1.Pages() == m.Pages() && TreeOk(m1, s.t)
      && ProcTree(m1, s.t, Pages(s.sz), trampoline, s.trapframe)
      && FramesOf(m1, s.t, 0, Pages(s.sz)) == FramesOf(m, s.t, 0, Pages(s.sz))
  {
    hide TreeOk, Entry, Tree.TablePages, Mem.Parted, Mem.Pages, FramesOf, ProcTree, Pages, Mem.FreeSet;
    DropParted(m, s.trapframe);
    DropFrameTree(m, s.t, s.trapframe);
    EntriesSame(m, m.DropFrame(s.trapframe), s.t, Pages(s.sz));
    FramesInFrames(m, s, trampoline);
    ProcTreeKept(m, m.DropFrame(s.trapframe), s.t, Pages(s.sz), trampoline, s.trapframe);
  }

  lemma FreeStepped(m: Mem, ps: Spaces, i: nat, m2: Mem, trampoline: nat)
    requires i in ps && m.Parted() && SpaceOk(m, ps[i], trampoline) && Whole(m)
    requires Released(m.DropFrame(ps[i].trapframe), ps[i].t, Pages(ps[i].sz), m2)
    ensures Stepped(m, ps, m2, ps - {i}, i, trampoline)
  {
    hide TreeOk, Entry, Tree.TablePages, Mem.Parted, Mem.Pages, FramesOf, ProcTree, Pages, Mem.FreeSet;
    var s := ps[i];
    DropTrapframe(m, s, trampoline);
    FramesInFrames(m, s, trampoline);
    assert m2.tables.Keys == (m.tables.Keys - TablesAt(ps, i)) + {};
    assert m2.frames.Keys == (m.frames.Keys - FramesAt(m, ps, i)) + {};
  }

  // -------------------------------------------------------------------------- allocproc

  /** allocproc: a tree with the two kernel pages and no user memory. */
  lemma AllocStepped(m: Mem, ps: Spaces, j: nat, junk: seq<Byte>, m2: Mem, t: Tree, trampoline: nat)
    requires j !in ps && m.Parted() && m.free != [] && Whole(m) && Physical(m) && |junk| == PGSIZE
    requires Built(m.NewFrame(junk), m2, t) && KernelOnly(m2, t, trampoline, m.free[0], 0)
    ensures Stepped(m, ps, m2, ps[j := Space(t, 0, m.free[0])], j, trampoline)
  {
    hide TreeOk, Entry, Tree.TablePages, Mem.Parted, Mem.Pages, KernelEntry, Mem.FreeSet, FramesOf, Unaliased, ProcTree;
    hide Built, KernelOnly;
    var tf := m.free[0];
    HeadFacts(m, junk);
    BuiltFacts(m.NewFrame(junk), m2, t);
    EmptySpace(m2, t, trampoline, tf);
    AllocLocal(m, junk, m2, t);
    assert m2.frames == m.frames[tf := junk];
  }

  /** A tree with the two kernel pages is that of a process without user memory. */
  lemma EmptySpace(m: Mem, t: Tree, trampoline: nat, trapframe: nat)
    requires KernelOnly(m, t, trampoline, trapframe, 0)
    ensures ProcTree(m, t, 0, trampoline, trapframe) && FramesOf(m, t, 0, 0) == {} && Pages(0) == 0
  {
    hide Entry, KernelEntry;
  }

  lemma AllocLocal(m: Mem, junk: seq<Byte>, m2: Mem, t: Tree)
    requires m.Parted() && m.free != [] && Built(m.NewFrame(junk), m2, t) && m.free[0] !in m.frames
    requires m2.Pages() == m.Pages() && m.NewFrame(junk).Parted()
    ensures Local(m, m2, {}, t.TablePages(), {}, {m.free[0]})
  {
    hide TreeOk, Tree.TablePages, Mem.Parted, Mem.Pages, Mem.FreeSet;
    FreeNotTables(m.NewFrame(junk));
    assert m.NewFrame(junk).tables == m.tables;
  }

  lemma HeadFacts(m: Mem, junk: seq<Byte>)
    requires m.Parted() && m.free != [] && Physical(m)
    ensures m.free[0] !in m.frames && m.free[0] != 0
    ensures m.NewFrame(junk).Parted() && m.NewFrame(junk).Pages() == m.Pages()
  {
    AllocParted(m, junk);
    HeadIsFree(m);
  }
}
