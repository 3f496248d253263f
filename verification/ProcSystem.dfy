module ProcSystem {
  // fork, exec, sbrk and freeproc on the process table: whatever sequence of them
  // runs, succeeding or failing, every page keeps exactly one owner and no process
  // sees another one's changes.

  import opened Blocks
  import opened PageTable
  import opened AddressSpace
  import opened TableTree
  import opened VirtualMemory
  import opened AddressGrowth
  import opened ProcMemory
  import opened UserCopy
  import opened ImageBytes
  import opened ImageArgs
  import opened ExecMemory
  import opened SystemMemory

  /** What proc.h keeps of an address space. */
  datatype Pcb = Pcb(pagetable: nat, sz: nat, trapframe: nat)

  class ProcTable {
    const vm: Vm
    const trampoline: nat
    ghost const kt: set<nat>
    ghost const kf: set<nat>
    var procs: map<nat, Pcb>
    ghost var trees: map<nat, Tree>

    ghost function Spaces(): Spaces
      reads this
    {
      map i | i in procs && i in trees :: Space(trees[i], procs[i].sz, procs[i].trapframe)
    }

    ghost predicate Valid()
      reads this, vm
    {
      && trees.Keys == procs.Keys && (forall i :: i in procs && i in trees ==> procs[i].pagetable == trees[i].root)
      && System(vm.M(), Spaces(), kt, kf, trampoline)
    }

    /** The memory of process i. */
    ghost function MemoryAt(i: nat): seq<Byte>
      requires i in procs && i in trees
      reads this, vm
    {
      Memory(vm.M(), trees[i], Pages(procs[i].sz))
    }

    /** Boot: no processes yet, the kernel owns what is in use. */
    constructor (v: Vm, tramp: nat)
      requires v.M().Parted() && Physical(v.M()) && Whole(v.M())
      ensures Valid() && vm == v && procs == map[] && trampoline == tramp
    {
      vm, trampoline := v, tramp;
      kt, kf := v.M().tables.Keys, v.M().frames.Keys;
      procs, trees := map[], map[];
      new;
      hide System;
      BootSystem(vm.M(), trampoline);
      assert Spaces() == map[];
    }

    /** Only process i changed; the memory of every other one is what it was. */
    twostate predicate OnlyMine(i: nat)
      reads this, vm
    {
      forall j :: j in old(procs) && j in old(trees) && j != i ==>
        j in procs && j in trees && procs[j] == old(procs[j]) && MemoryAt(j) == old(MemoryAt(j))
    }

    /** A step of process i, as the theorem about steps has it. */
    twostate lemma StepDone(i: nat)
      requires old(Valid()) && trees.Keys == procs.Keys
      requires forall j :: j in procs && j in trees ==> procs[j].pagetable == trees[j].root
      requires Stepped(old(vm.M()), old(Spaces()), vm.M(), Spaces(), i, trampoline)
      requires forall j :: j != i && j in old(procs) && j in old(trees) ==>
        j in procs && j in trees && procs[j] == old(procs[j]) && trees[j] == old(trees[j])
      ensures Valid() && OnlyMine(i)
    {
      hide System, Stepped, Memory, Pages;
      SteppedSystem(old(vm.M()), old(Spaces()), kt, kf, trampoline, vm.M(), Spaces(), i);
      forall j | j in old(procs) && j in old(trees) && j != i ensures MemoryAt(j) == old(MemoryAt(j)) {
        assert j in old(Spaces());
        MemoryKept(old(vm.M()), old(Spaces()), vm.M(), Spaces(), i, trampoline, j);
      }
    }

    /** allocproc's memory: a trapframe and a page table, or nothing. */
    method Allocproc(j: nat, junk: seq<Byte>) returns (ok: bool)
      requires Valid() && j !in procs && |junk| == PGSIZE
      modifies this, vm
      ensures Valid() && OnlyMine(j)
      ensures ok ==> j in procs && j in trees && procs == old(procs)[j := procs[j]] && procs[j].sz == 0
      ensures !ok ==> procs == old(procs) && Restored(old(vm.M()), vm.M())
    {
      hide System, Stepped, Restored, Built, KernelOnly, Memory, SpaceOk, Physical, Whole, Mem.Parted, Mem.Pages;
      hide TreeOk;
      hide Mem.FreeSet, Entry;
      Facts();
      ghost var m := vm.M();
      if vm.free == [] {
        RestoredRefl(m);
        NothingDone(j);
        return false;
      }
      var trapframe := vm.free[0];
      HeadFacts(m, junk);
      vm.frames, vm.free := vm.frames[trapframe := junk], vm.free[1..];
      assert vm.M() == m.NewFrame(junk);
      var pt, t := ProcPagetable(vm, trampoline, trapframe);
      if pt.None? {
        RestoredDropFrame(m, junk, vm.M());
        vm.frames, vm.free := vm.frames - {trapframe}, [trapframe] + vm.free;
        NothingDone(j);
        return false;
      }
      AllocStepped(m, Spaces(), j, junk, vm.M(), t, trampoline);
      procs, trees := procs[j := Pcb(pt.value, 0, trapframe)], trees[j := t];
      assert Spaces() == old(Spaces())[j := Space(t, 0, trapframe)];
      StepDone(j);
      return true;
    }

    /** fork's memory: the child's is a copy of the parent's, or nothing happened. */
    method Fork(i: nat, j: nat, junk: seq<Byte>) returns (ok: bool)
      requires Valid() && i in procs && i in trees && j !in procs && |junk| == PGSIZE
      modifies this, vm
      ensures Valid() && OnlyMine(j)
      ensures ok ==> j in procs && j in trees && procs == old(procs)[j := procs[j]] && procs[j].sz == old(procs[i].sz)
      ensures ok ==> MemoryAt(j) == old(MemoryAt(i))
      ensures !ok ==> procs == old(procs) && Restored(old(vm.M()), vm.M())
    {
      hide System, Stepped, Restored, Forked, Memory, SpaceOk, Pages, Physical, Whole, Mem.Parted, Mem.Pages, TreeOk;
      hide ProcTree, Unaliased, Mem.FreeSet;
      Facts();
      ghost var m, t1 := vm.M(), trees[i];
      var sz := procs[i].sz;
      SpaceFacts(i);
      var r, trapframe, t2 := ForkMemory(vm, trampoline, procs[i].pagetable, sz, junk, t1);
      if r.None? {
        NothingDone(j);
        return false;
      }
      ghost var s := Space(t2, sz, trapframe);
      ForkStepped(m, Spaces(), t1, vm.M(), j, s, trampoline);
      procs, trees := procs[j := Pcb(r.value, sz, trapframe)], trees[j := t2];
      assert Spaces() == old(Spaces())[j := s];
      StepDone(j);
      return true;
    }

    /** exec's memory: the new program's, or the old image as it was. */
    method Exec(i: nat, segs: seq<Segment>, args: seq<seq<Byte>>) returns (ok: bool, sp: nat)
      requires Valid() && i in procs && i in trees && forall k :: 0 <= k < |segs| ==> SegmentOk(segs[k])
      requires |args| != MAXARG
      modifies this, vm
      ensures Valid() && OnlyMine(i) && i in procs && i in trees
      ensures ok ==> MemoryAt(i) == ProgramBytes(segs, args) && procs[i].sz == |ProgramBytes(segs, args)|
      ensures ok ==> PageFlags(vm.M(), trees[i], Pages(procs[i].sz)) == ProgramFlags(segs)
      ensures ok ==> Ready(MemoryAt(i), segs, sp, args)
      ensures ok ==> |args| < MAXARG && sp == ArgvAt(procs[i].sz, args) && sp >= procs[i].sz - PGSIZE
      ensures ok ==> procs == old(procs)[i := procs[i]] && procs[i].trapframe == old(procs[i].trapframe)
      ensures !ok ==> procs == old(procs) && MemoryAt(i) == old(MemoryAt(i)) && Restored(old(vm.M()), vm.M())
    {
      hide System, Stepped, Restored, Replaced, Memory, SpaceOk, Pages, ProgramBytes, ArgvAt, ProcTree, TreeOk;
      hide SegmentOk, Unaliased, Whole, Physical, PageFlags, ProgramFlags, Ready;
      Facts();
      ghost var m, told := vm.M(), trees[i];
      SpaceFacts(i);
      var p := procs[i];
      var pagetable, sz;
      ghost var t;
      ok, pagetable, sz, sp, t := ExecMemory.Exec(vm, trampoline, p.trapframe, segs, args, p.pagetable, p.sz, told);
      if !ok {
        NothingDone(i);
        return;
      }
      ExecStepped(m, Spaces(), i, vm.M(), t, sz, trampoline);
      procs, trees := procs[i := Pcb(pagetable, sz, p.trapframe)], trees[i := t];
      assert Spaces() == old(Spaces())[i := Space(t, sz, p.trapframe)];
      StepDone(i);
    }

    /** growproc: n more or fewer bytes; a size below 0 wraps around to a huge one and changes nothing. */
    method Growproc(i: nat, n: int) returns (r: int)
      requires Valid() && i in procs && i in trees && -0x8000_0000 <= n < 0x8000_0000
      modifies this, vm
      ensures Valid() && OnlyMine(i) && i in procs && i in trees
      ensures procs == old(procs)[i := old(procs[i]).(sz := procs[i].sz)]
      ensures r == 0 || (r == -1 && n > 0)
      ensures r == 0 && n > 0 ==>
        && procs[i].sz == old(procs[i].sz) + n && MemoryAt(i) == Extended(old(MemoryAt(i)), procs[i].sz)
        && ZerosAdded(old(MemoryAt(i)), MemoryAt(i), procs[i].sz)
      ensures r == 0 && n < 0 && old(procs[i].sz) + n >= 0 ==>
        && procs[i].sz == old(procs[i].sz) + n && |old(MemoryAt(i))| >= Pages(procs[i].sz) * PGSIZE
        && MemoryAt(i) == old(MemoryAt(i))[..Pages(procs[i].sz) * PGSIZE]
      ensures r == -1 || n == 0 || old(procs[i].sz) + n < 0 ==>
        procs == old(procs) && MemoryAt(i) == old(MemoryAt(i))
    {
      hide System, Stepped, Restored, Memory, SpaceOk, Pages, ProcTree, TreeOk, Growing, GrowthUndone, Unaliased, Whole;
      hide Physical;
      hide RangeUnmapped, Entry, Extended, ZerosAdded;
      Facts();
      SpaceFacts(i);
      var p := procs[i];
      SizeBound(i);
      if n > 0 {
        r := Grow(i, p.sz + n);
        ExtendedZeros(old(MemoryAt(i)), p.sz + n);
      } else if n < 0 {
        var newsz := (p.sz + n) % WORD64;
        r := 0;
        if p.sz + n >= 0 {
          Shrink(i, newsz);
        } else {
          var d := Uvmdealloc(vm, p.pagetable, p.sz, newsz, trees[i]);
          assert p == p.(sz := d.value);
        }
      } else {
        r := 0;
      }
      assert procs == old(procs)[i := old(procs[i]).(sz := procs[i].sz)];
    }

    /** uvmalloc for sbrk. */
    method Grow(i: nat, newsz: nat) returns (r: int)
      requires Valid() && i in procs && i in trees && procs[i].sz < newsz
      modifies this, vm
      ensures Valid() && OnlyMine(i) && i in procs && i in trees
      ensures procs == old(procs)[i := old(procs[i]).(sz := procs[i].sz)]
      ensures r == 0 || r == -1
      ensures r == 0 ==> procs[i].sz == newsz && MemoryAt(i) == Extended(old(MemoryAt(i)), newsz)
      ensures r == -1 ==> procs == old(procs) && MemoryAt(i) == old(MemoryAt(i))
    {
      hide System, Stepped, Memory, SpaceOk, Pages, ProcTree, TreeOk, Growing, GrowthUndone, Unaliased, Whole, Physical;
      hide Entry, Extended, Mem.Parted, Mem.Pages;
      Facts();
      SpaceFacts(i);
      ghost var m, ps := vm.M(), Spaces();
      var p := procs[i];
      var sz, t2 := GrowSpace(vm, p.pagetable, p.sz, newsz, ps, i, trampoline);
      var sz2 := if sz == 0 then p.sz else newsz;
      procs, trees := procs[i := p.(sz := sz2)], trees[i := t2];
      assert Spaces() == ps[i := Space(t2, sz2, p.trapframe)];
      StepDone(i);
      return if sz == 0 then -1 else 0;
    }

    /** uvmdealloc for sbrk with a negative argument. */
    method Shrink(i: nat, newsz: nat)
      requires Valid() && i in procs && i in trees && newsz < procs[i].sz
      modifies this, vm
      ensures Valid() && OnlyMine(i) && i in procs && i in trees
      ensures procs == old(procs)[i := old(procs[i]).(sz := newsz)]
      ensures |old(MemoryAt(i))| >= Pages(newsz) * PGSIZE
      ensures MemoryAt(i) == old(MemoryAt(i))[..Pages(newsz) * PGSIZE]
    {
      hide System, Stepped, Memory, SpaceOk, Pages, ProcTree, TreeOk, Unaliased, Whole, Physical, RangeUnmapped, Entry;
      Facts();
      SpaceFacts(i);
      ghost var m, t := vm.M(), trees[i];
      var p := procs[i];
      PagesGrow(newsz, p.sz);
      TopPages(m, Spaces()[i], Pages(newsz), trampoline);
      UnaliasedLeaves(m, t, Pages(newsz), Pages(p.sz) - Pages(newsz));
      var d := Uvmdealloc(vm, p.pagetable, p.sz, newsz, t);
      ShrinkStepped(m, Spaces(), i, vm.M(), newsz, trampoline);
      procs := procs[i := p.(sz := newsz)];
      assert Spaces() == old(Spaces())[i := old(Spaces())[i].(sz := newsz)];
      StepDone(i);
    }

    /** freeproc: everything the process had is free. */
    method Freeproc(i: nat)
      requires Valid() && i in procs && i in trees
      modifies this, vm
      ensures Valid() && OnlyMine(i) && procs == old(procs) - {i}
    {
      hide System, Stepped, Memory, SpaceOk, Pages, ProcTree, TreeOk, Unaliased, Whole, Physical, Released;
      Facts();
      SpaceFacts(i);
      ghost var m, t := vm.M(), trees[i];
      var p := procs[i];
      DropTrapframe(m, Spaces()[i], trampoline);
      vm.frames, vm.free := vm.frames - {p.trapframe}, [p.trapframe] + vm.free;
      assert vm.M() == m.DropFrame(p.trapframe);
      var ok := FreeProcess(vm, p.pagetable, p.sz, t, trampoline, p.trapframe);
      FreeStepped(m, Spaces(), i, vm.M(), trampoline);
      procs, trees := procs - {i}, trees - {i};
      assert Spaces() == old(Spaces()) - {i};
      StepDone(i);
    }

    lemma Facts()
      requires Valid()
      ensures vm.M().Parted() && Physical(vm.M()) && Whole(vm.M())
      ensures Spaces().Keys == procs.Keys
    {
      hide Apart, Covered, SpaceOk;
    }

    lemma SpaceFacts(i: nat)
      requires Valid() && i in procs && i in trees
      ensures i in Spaces() && Spaces()[i] == Space(trees[i], procs[i].sz, procs[i].trapframe)
      ensures SpaceOk(vm.M(), Spaces()[i], trampoline) && procs[i].pagetable == trees[i].root
      ensures TreeOk(vm.M(), trees[i]) && ProcTree(vm.M(), trees[i], Pages(procs[i].sz), trampoline, procs[i].trapframe)
      ensures Unaliased(vm.M(), trees[i], 0, Pages(procs[i].sz))
    {
      hide Apart, Covered, TreeOk, Entry, Pages;
    }

    /** A process is no larger than memory. */
    lemma SizeBound(i: nat)
      requires Valid() && i in procs && i in trees
      ensures Pages(procs[i].sz) <= PHYSPAGES && procs[i].sz <= PHYSPAGES * PGSIZE
    {
      hide System, SpaceOk, ProcTree, TreeOk, Unaliased, Whole, Mem.Pages;
      Facts();
      SpaceFacts(i);
      PagesBound(vm.M(), trees[i], Pages(procs[i].sz));
    }

    /** Memory and table are what they were, page for page. */
    twostate lemma NothingDone(i: nat)
      requires old(Valid()) && procs == old(procs) && trees == old(trees) && Restored(old(vm.M()), vm.M())
      ensures Valid() && OnlyMine(i) && (i in procs && i in trees ==> MemoryAt(i) == old(MemoryAt(i)))
    {
      hide System, Restored, Memory, Pages, OthersKept;
      RestoredSystem(old(vm.M()), old(Spaces()), kt, kf, trampoline, vm.M(), i);
      forall j | j in old(procs) && j in old(trees) && j != i ensures MemoryAt(j) == old(MemoryAt(j)) {
        assert j in old(Spaces());
        MemoryKept(old(vm.M()), old(Spaces()), vm.M(), Spaces(), i, trampoline, j);
      }
      assert i in procs && i in trees ==> i in Spaces();
    }
  }

  lemma MemoryKept(m: Mem, ps: Spaces, m2: Mem, ps2: Spaces, i: nat, trampoline: nat, j: nat)
    requires OthersKept(m, ps, m2, ps2, i, trampoline) && j in ps && j != i
    ensures Memory(m2, ps[j].t, Pages(ps[j].sz)) == Memory(m, ps[j].t, Pages(ps[j].sz))
  {
    hide SpaceOk, Memory, Frames, Pages;
  }

  lemma BootSystem(m: Mem, trampoline: nat)
    requires m.Parted() && Physical(m) && Whole(m)
    ensures System(m, map[], m.tables.Keys, m.frames.Keys, trampoline)
  {
    hide Mem.Parted, Physical, Whole, SpaceOk, Frames;
  }

  lemma PhysicalBound(m: Mem)
    requires Physical(m)
    ensures |m.Pages()| <= PHYSPAGES
  {
  }

  /** uvmalloc with sbrk's permissions, seen from the process table. */
  lemma GrowOutcome(m: Mem, ps: Spaces, i: nat, m2: Mem, t2: Tree, newsz: nat, r: nat, trampoline: nat)
    requires i in ps && SpaceOk(m, ps[i], trampoline) && Whole(m) && Physical(m) && ps[i].sz < newsz
    requires Pages(ps[i].sz) <= Pages(newsz)
    requires (r == newsz && Pages(newsz) <= PHYSPAGES
        && Growing(m, ps[i].t, m2, t2, Pages(ps[i].sz), Pages(newsz) - Pages(ps[i].sz), PTE_R + PTE_U + PTE_W + 1))
      || (r == 0 && GrowthUndone(m, ps[i].t, m2, t2))
    ensures t2.root == ps[i].t.root
    ensures Stepped(m, ps, m2, ps[i := Space(t2, if r == 0 then ps[i].sz else newsz, ps[i].trapframe)], i, trampoline)
    ensures r == 0 ==> Memory(m2, t2, Pages(ps[i].sz)) == Memory(m, ps[i].t, Pages(ps[i].sz))
    ensures r != 0 ==>
      r == newsz && Memory(m2, t2, Pages(newsz)) == Extended(Memory(m, ps[i].t, Pages(ps[i].sz)), newsz)
  {
    hide Stepped, Memory, SpaceOk, Pages, Whole, Physical, NewPages, TreeGrew, SameEntries, Extended;
    if r == 0 {
      UndoneStepped(m, ps, i, m2, t2, trampoline);
      UndoneRoot(m, ps[i].t, m2, t2);
    } else {
      GrowStepped(m, ps, i, m2, t2, newsz, PTE_W, trampoline);
      GrowingFacts(m, ps[i].t, m2, t2, Pages(ps[i].sz), Pages(newsz) - Pages(ps[i].sz), PTE_R + PTE_U + PTE_W + 1);
    }
  }

  method GrowSpace(vm: Vm, pagetable: nat, sz: nat, newsz: nat, ghost ps: Spaces, ghost i: nat, ghost trampoline: nat)
    returns (r: nat, ghost t2: Tree)
    requires i in ps && SpaceOk(vm.M(), ps[i], trampoline) && vm.M().Parted() && Whole(vm.M()) && Physical(vm.M())
    requires ps[i].sz == sz < newsz && pagetable == ps[i].t.root
    modifies vm
    ensures t2.root == pagetable
    ensures var s := Space(t2, if r == 0 then sz else newsz, ps[i].trapframe);
      Stepped(old(vm.M()), ps, vm.M(), ps[i := s], i, trampoline)
    ensures r == 0 ==> Memory(vm.M(), t2, Pages(sz)) == Memory(old(vm.M()), ps[i].t, Pages(sz))
    ensures r != 0 ==>
      r == newsz && Memory(vm.M(), t2, Pages(newsz)) == Extended(Memory(old(vm.M()), ps[i].t, Pages(sz)), newsz)
  {
    hide Stepped, Memory, SpaceOk, Pages, TreeOk, Growing, GrowthUndone, Unaliased, Whole, Physical;
    hide Entry, Extended, Mem.Parted, Mem.Pages;
    ghost var m := vm.M();
    UserTop(m, ps[i], trampoline);
    PhysicalBound(m);
    r, t2 := Uvmalloc(vm, pagetable, sz, newsz, PTE_W, ps[i].t);
    PagesGrow(sz, newsz);
    GrowOutcome(m, ps, i, vm.M(), t2, newsz, r, trampoline);
  }

  lemma UndoneRoot(m: Mem, t: Tree, m2: Mem, t2: Tree)
    requires GrowthUndone(m, t, m2, t2)
    ensures t2.root == t.root
  {
  }

  lemma PagesGrow(a: nat, b: nat)
    requires a <= b
    ensures Pages(a) <= Pages(b)
  {
  }

  /** Nothing is mapped between a process's size and its trapframe. */
  lemma UserTop(m: Mem, s: Space, trampoline: nat)
    requires SpaceOk(m, s, trampoline)
    ensures TreeOk(m, s.t) && Unaliased(m, s.t, 0, Pages(s.sz))
    ensures forall w :: Pages(s.sz) <= w < USER_TOP ==> Entry(m, s.t, w) == 0
  {
    hide TreeOk, FramesOf, Entry, Pages;
    FreeAbove(m, s.t, Pages(s.sz), trampoline, s.trapframe);
  }

  /** The pages above a smaller size can be unmapped and freed. */
  lemma TopPages(m: Mem, s: Space, n: nat, trampoline: nat)
    requires SpaceOk(m, s, trampoline) && n <= Pages(s.sz)
    ensures Unaliased(m, s.t, n, Pages(s.sz) - n) && Pages(s.sz) * PGSIZE <= MAXVA
    ensures forall w :: n <= w < Pages(s.sz) ==> IsLeaf(Entry(m, s.t, w))
  {
    hide TreeOk, FramesOf, Entry, IsLeaf, Rwx, KernelEntry, Pages, Ppn;
  }
}
