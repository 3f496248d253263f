/**
  kalloc.c and vm.c over the value model of PageTable. The free list is the
  sequence of its pages, first page first. Each page-table argument of the
  kernel comes with the ghost tree it stands for; operations that may add tables
  return the new tree. A panic is an outcome.
*/
module VirtualMemory {
  import opened Wrappers
  import opened Blocks
  import opened PageTable
  import opened AddressSpace
  import opened TableTree

  /** walk's answer: the address of a leaf entry, null, or the panic for a huge address. */
  datatype WalkResult = At(page: nat, index: nat) | Null | WalkPanic

  class Vm {
    var tables: map<nat, Table>
    var frames: map<nat, seq<Byte>>
    var free: seq<nat>

    ghost function M(): Mem
      reads this
    {
      Mem(tables, frames, free)
    }

    constructor (m: Mem)
      ensures M() == m
    {
      tables, frames, free := m.tables, m.frames, m.free;
    }

    /** kfreemem: the length of the free list in bytes. */
    method Kfreemem() returns (sz: nat)
      requires M().Parted()
      ensures sz == PGSIZE * |M().FreeSet()|
    {
      sz := 0;
      var r := 0;
      while r < |free|
        invariant 0 <= r <= |free| && sz == PGSIZE * r
      {
        sz := sz + PGSIZE;
        r := r + 1;
      }
      DistinctCount(free);
    }

    /** One level of walk: follow a valid entry, or allocate the table it lacks. */
    method Descend(level: nat, pagetable: nat, va: nat, alloc: bool, ghost t: Tree)
      returns (r: Option<nat>, ghost t2: Tree)
      requires M().Parted() && TreeOk(M(), t) && va < MAXVA && 1 <= level <= 2
      requires level == 2 ==> pagetable == t.root
      requires level == 1 ==> PX(2, va) in t.mid && pagetable == t.mid[PX(2, va)]
      modifies this`tables, this`free
      ensures Walked(old(M()), t, M(), t2)
      ensures r.None? ==> M() == old(M()) && t2 == t && (!alloc || free == [])
      ensures r.None? ==> if level == 2 then PX(2, va) !in t.mid else va / PGSIZE / SPAN1 !in t.low
      ensures !alloc ==> M() == old(M()) && t2 == t
      ensures r.Some? && level == 2 ==> PX(2, va) in t2.mid && r.value == t2.mid[PX(2, va)]
      ensures r.Some? && level == 1 ==> va / PGSIZE / SPAN1 in t2.low && r.value == t2.low[va / PGSIZE / SPAN1]
    {
      hide TreeOk, Walked, Mem.Parted;
      ghost var m := M();
      PxDigits(va);
      WalkedRefl(m, t);
      t2 := t;
      ghost var i, k := PX(2, va), va / PGSIZE / SPAN1;
      if level == 2 { RootEntry(m, t, i); } else { MidEntry(m, t, k); }
      var pte := tables[pagetable][PX(level, va)];
      if V(pte) {
        return Some(Ppn(pte)), t;
      }
      if !alloc || free == [] {
        return None, t;
      }
      if level == 2 {
        AddMidOk(m, t, i);
        AddMidWalked(m, t, i);
        t2 := AddMid(m, t, i).1;
      } else {
        AddLowOk(m, t, k);
        AddLowWalked(m, t, k);
        t2 := AddLow(m, t, k).1;
      }
      var p := free[0];
      tables, free := tables[p := ZeroTable()], free[1..];
      tables := tables[pagetable := tables[pagetable][PX(level, va) := MakePte(p, 0)]];
      return Some(p), t2;
    }

    /** walk: the leaf slot of va in tree t, adding tables when alloc is set. */
    method Walk(pagetable: nat, va: nat, alloc: bool, ghost t: Tree) returns (r: WalkResult, ghost t2: Tree)
      requires M().Parted() && TreeOk(M(), t) && pagetable == t.root
      modifies this`tables, this`free
      ensures Walked(old(M()), t, M(), t2)
      ensures r.WalkPanic? <==> va >= MAXVA
      ensures !alloc || r.WalkPanic? ==> M() == old(M()) && t2 == t
      ensures r.At? ==>
        && va / PGSIZE / SPAN1 in t2.low && r.page == t2.low[va / PGSIZE / SPAN1] && r.page in tables
        && r.index == va / PGSIZE % SPAN1
        && tables[r.page][r.index] == Entry(M(), t2, va / PGSIZE)
      ensures r.Null? ==> va / PGSIZE / SPAN1 !in t.low && Entry(old(M()), t, va / PGSIZE) == 0
      ensures r.Null? && alloc ==> free == []
    {
      hide TreeOk, Walked, Mem.Parted;
      ghost var m := M();
      WalkedRefl(m, t);
      t2 := t;
      if va >= MAXVA {
        return WalkPanic, t;
      }
      PxDigits(va);
      var page := pagetable;
      var level := 2;
      while level > 0
        invariant 0 <= level <= 2
        invariant Walked(m, t, M(), t2) && (!alloc ==> M() == m && t2 == t)
        invariant level == 2 ==> page == t2.root
        invariant level == 1 ==> PX(2, va) in t2.mid && page == t2.mid[PX(2, va)]
        invariant level == 0 ==> va / PGSIZE / SPAN1 in t2.low && page == t2.low[va / PGSIZE / SPAN1]
      {
        ghost var m1, t1 := M(), t2;
        WalkedFacts(m, t, m1, t1);
        var q;
        q, t2 := Descend(level, page, va, alloc, t1);
        WalkedTrans(m, t, m1, t1, M(), t2);
        if q.None? {
          NotThere(m, t, m1, t1, PX(2, va), va / PGSIZE);
          return Null, t2;
        }
        page := q.value;
        level := level - 1;
      }
      WalkedFacts(m, t, M(), t2);
      LowTable(M(), t2, va / PGSIZE / SPAN1);
      return At(page, PX(0, va)), t2;
    }

    /** walkaddr: the physical page of a user page, or 0. */
    method Walkaddr(pagetable: nat, va: nat, ghost t: Tree) returns (pa: nat)
      requires M().Parted() && TreeOk(M(), t) && pagetable == t.root
      modifies this`tables, this`free
      ensures M() == old(M())
      ensures pa == if va < MAXVA && UserEntry(Entry(M(), t, va / PGSIZE))
                    then Ppn(Entry(M(), t, va / PGSIZE)) * PGSIZE else 0
    {
      hide TreeOk, Walked, Mem.Parted;
      if va >= MAXVA {
        return 0;
      }
      var r, t2 := Walk(pagetable, va, false, t);
      if r.Null? {
        return 0;
      }
      var pte := tables[r.page][r.index];
      if !V(pte) || !UserBit(pte) {
        return 0;
      }
      return Ppn(pte) * PGSIZE;
    }

    /**
      mappages: -1 when a table cannot be allocated, with done pages mapped by
      then; None is a panic (size 0, an address out of range, or a remap).
    */
    method Mappages(pagetable: nat, va: nat, size: nat, pa: nat, perm: nat, ghost t: Tree)
      returns (r: Option<int>, ghost t2: Tree, ghost done: nat)
      requires M().Parted() && TreeOk(M(), t) && pagetable == t.root && perm < 1024
      modifies this`tables, this`free
      ensures RangeMapped(old(M()), t, M(), t2, va / PGSIZE, done, pa / PGSIZE, perm)
      ensures r == Some(0) ==> size > 0 && done == (va + size - 1) / PGSIZE - va / PGSIZE + 1
      ensures r != Some(0) && size > 0 ==> done <= (va + size - 1) / PGSIZE - va / PGSIZE
      ensures r == Some(-1) ==> size > 0 && free == []
      ensures r.Some? ==> r.value == 0 || r.value == -1
      ensures r.None? ==> size == 0 || (va / PGSIZE + done) * PGSIZE >= MAXVA
                          || Mapped(old(M()), t, va / PGSIZE + done)
      ensures r.Some? ==> forall w :: va / PGSIZE <= w < va / PGSIZE + done ==> !Mapped(old(M()), t, w)
    {
      hide TreeOk, Walked, Mem.Parted, RangeMapped, Entry;
      ghost var m, v := M(), va / PGSIZE;
      RangeMappedNone(m, t, v, pa / PGSIZE, perm);
      t2, done := t, 0;
      if size == 0 {
        return None, t2, done;
      }
      var a, last := va / PGSIZE * PGSIZE, (va + size - 1) / PGSIZE * PGSIZE;
      var p := pa;
      while true
        invariant a == (v + done) * PGSIZE && a <= last && p == pa + done * PGSIZE
        invariant RangeMapped(m, t, M(), t2, v, done, pa / PGSIZE, perm)
        invariant forall w :: v <= w < v + done ==> !Mapped(m, t, w)
        decreases last - a
      {
        ghost var m1, t1 := M(), t2;
        RangeMappedFacts(m, t, m1, t1, v, done, pa / PGSIZE, perm);
        var q;
        q, t2 := Walk(pagetable, a, true, t1);
        RangeMappedWalked(m, t, m1, t1, M(), t2, v, done, pa / PGSIZE, perm);
        RangeMappedFacts(m, t, M(), t2, v, done, pa / PGSIZE, perm);
        if q.WalkPanic? {
          return None, t2, done;
        } else if q.Null? {
          return Some(-1), t2, done;
        }
        assert tables[q.page][q.index] == Entry(m, t, v + done);
        if V(tables[q.page][q.index]) {
          return None, t2, done;
        }
        RangeMappedNext(m, t, m1, t1, M(), t2, v, done, pa / PGSIZE, perm);
        assert p / PGSIZE == pa / PGSIZE + done;
        tables := tables[q.page := tables[q.page][q.index := MakePte(p / PGSIZE, perm)]];
        done := done + 1;
        if a == last {
          return Some(0), t2, done;
        }
        a := a + PGSIZE;
        p := p + PGSIZE;
      }
    }

    /** uvmunmap: false is a panic, at a page that is not a mapped leaf of an aligned range. */
    method Uvmunmap(pagetable: nat, va: nat, npages: nat, do_free: bool, ghost t: Tree) returns (ok: bool)
      requires M().Parted() && TreeOk(M(), t) && pagetable == t.root
      requires do_free ==> LeavesApart(M(), t, va / PGSIZE, npages)
      modifies this
      ensures ok ==> RangeUnmapped(old(M()), t, M(), va / PGSIZE, npages, do_free)
      ensures ok <==> va % PGSIZE == 0 && (npages > 0 ==> va + npages * PGSIZE <= MAXVA)
                      && forall w :: va / PGSIZE <= w < va / PGSIZE + npages ==> IsLeaf(Entry(old(M()), t, w))
    {
      hide TreeOk, Walked, Mem.Parted, RangeUnmapped, Entry, Unaliased, LeavesApart, IsLeaf, V, Flags, Ppn;
      PteFacts(0);
      if va % PGSIZE != 0 {
        return false;
      }
      ghost var m, v := M(), va / PGSIZE;
      RangeUnmappedNone(m, t, v, do_free);
      var a := va;
      ghost var n := 0;
      while a < va + npages * PGSIZE
        invariant n <= npages && a == va + n * PGSIZE && a == (v + n) * PGSIZE
        invariant RangeUnmapped(m, t, M(), v, n, do_free)
        invariant n > 0 ==> a <= MAXVA
        invariant forall w :: v <= w < v + n ==> IsLeaf(Entry(m, t, w))
      {
        RangeUnmappedFacts(m, t, M(), v, n, do_free);
        ghost var m1 := M();
        var q, t2 := Walk(pagetable, a, false, t);
        if q.WalkPanic? {
          return false;
        }
        LeafIsValid(Entry(m, t, v + n));
        if q.Null? {
          return false;
        }
        var pte := tables[q.page][q.index];
        if !V(pte) || Flags(pte) == PTE_V {
          return false;
        }
        if do_free {
          LeavesUnaliased(m, t, v, npages, n + 1);
        }
        RangeUnmappedNext(m, t, m1, v, n, do_free);
        if do_free {
          var p := Ppn(pte);
          frames, free := frames - {p}, [p] + free;
        }
        tables := tables[q.page := tables[q.page][q.index := 0]];
        a := a + PGSIZE;
        n := n + 1;
      }
      return true;
    }

    /**
      kalloc, fill, mappages of one page and, if that fails, kfree: the step
      that uvmcopy and uvmalloc share. False leaves at most new tables behind.
    */
    method MapNewFrame(pagetable: nat, va: nat, data: seq<Byte>, perm: nat, ghost t: Tree)
      returns (ok: bool, ghost t2: Tree)
      requires M().Parted() && TreeOk(M(), t) && pagetable == t.root && perm < 1024
      requires va % PGSIZE == 0 && va < MAXVA && !Mapped(M(), t, va / PGSIZE)
      modifies this
      ensures !ok ==> Walked(old(M()), t, M(), t2)
      ensures ok ==> FrameMapped(old(M()), t, M(), t2, va / PGSIZE, data, if perm % 2 == 1 then perm else perm + 1)
    {
      hide TreeOk, Mem.Parted, Entry, Walked, RangeMapped, PageAdded, Grown;
      ghost var m := M();
      WalkedRefl(m, t);
      if free == [] {
        return false, t;
      }
      var mem := free[0];
      frames, free := frames[mem := data], free[1..];
      AllocParted(m, data);
      NewFrameTree(m, t, data);
      var v := va / PGSIZE;
      assert va == v * PGSIZE && (va + PGSIZE - 1) / PGSIZE == v && mem * PGSIZE / PGSIZE == mem;
      assert !Mapped(M(), t, v);
      var mr, t3, done := Mappages(pagetable, va, PGSIZE, mem * PGSIZE, perm, t);
      t2 := t3;
      assert mr.Some?;
      if mr == Some(-1) {
        RangeMappedZero(m.NewFrame(data), t, M(), t2, va / PGSIZE, mem, perm);
        WalkedAroundFrame(m, data, t, M(), t2);
        frames, free := frames - {mem}, [mem] + free;
        return false, t2;
      }
      MappedPageAdded(m, t, va / PGSIZE, data, perm, M(), t2);
      RangeMappedGrown(m.NewFrame(data), t, M(), t2, va / PGSIZE, done, mem, perm);
      return true, t2;
    }

    /** The err: path of uvmcopy. */
    method UndoCopy(new_: nat, n: nat, ghost m0: Mem, ghost t1: Tree, ghost t: Tree, ghost t2: Tree) returns (ok: bool)
      requires Copying(m0, t1, t, M(), t2, n) && new_ == t2.root && n * PGSIZE <= MAXVA
      requires forall w :: 0 <= w < n ==> Entry(m0, t, w) == 0 && IsLeaf(Entry(m0, t1, w))
      modifies this
      ensures ok && CopyFailed(m0, t1, t, M(), t2)
    {
      hide TreeOk, Mem.Parted, RangeUnmapped, Entry, Unaliased, LeavesApart, IsLeaf, Copying;
      ghost var m := M();
      CopyingFacts(m0, t1, t, m, t2, n);
      CopyingUnaliased(m0, t1, t, m, t2, n);
      forall w | 0 <= w < n ensures IsLeaf(Entry(m, t2, w)) {
        CopiedLeaf(m0, t1, t, m, t2, n, w);
      }
      UnaliasedLeaves(m, t2, 0, n);
      ok := Uvmunmap(new_, 0, n, true, t2);
      CopyUndone(m0, t1, t, m, t2, n, M());
      assert TreesKept(m0, t1, t, m, t2) by { CopyingTrees(m0, t1, t, m, t2, n); }
      UndoneTrees(m0, t1, t, m, t2, M(), 0, n, true);
    }

    /** uvmcopy: None is a panic, at a source page that is not a mapped leaf. */
    method Uvmcopy(old_: nat, new_: nat, sz: nat, ghost t1: Tree, ghost t: Tree)
      returns (r: Option<int>, ghost t2: Tree)
      requires M().Parted() && TreeOk(M(), t1) && TreeOk(M(), t) && t1.TablePages() !! t.TablePages()
      requires old_ == t1.root && new_ == t.root && sz <= MAXVA
      requires forall w :: 0 <= w < Pages(sz) ==> Entry(M(), t, w) == 0
      requires forall w :: 0 <= w < Pages(sz) && V(Entry(M(), t1, w)) ==>
        IsLeaf(Entry(M(), t1, w)) && Ppn(Entry(M(), t1, w)) in frames
      modifies this
      ensures r == Some(0) ==> Copying(old(M()), t1, t, M(), t2, Pages(sz))
      ensures r == Some(-1) ==> CopyFailed(old(M()), t1, t, M(), t2)
      ensures r.Some? ==> r.value == 0 || r.value == -1
      ensures r.None? ==> exists w :: 0 <= w < Pages(sz) && !V(Entry(old(M()), t1, w))
    {
      hide TreeOk, Mem.Parted, Entry, Copying, CopyFailed, Walked, IsLeaf, FrameMapped, Ppn, Flags, V, Tree.TablePages;
      ghost var m0 := M();
      CopyingStart(m0, t1, t);
      PteFacts(0);
      t2 := t;
      var i := 0;
      ghost var n := 0;
      while i < sz
        invariant i == n * PGSIZE && n <= Pages(sz)
        invariant Copying(m0, t1, t, M(), t2, n)
        invariant forall w :: 0 <= w < n ==> V(Entry(m0, t1, w))
      {
        ghost var m := M();
        CopyingFacts(m0, t1, t, m, t2, n);
        var q, _ := Walk(old_, i, false, t1);
        if q.Null? {
          return None, t2;
        }
        var pte := tables[q.page][q.index];
        if !V(pte) {
          return None, t2;
        }
        PteFacts(pte);
        var ok, t3 := MapNewFrame(new_, i, frames[Ppn(pte)], Flags(pte), t2);
        if !ok {
          CopyingWalked(m0, t1, t, m, t2, n, M(), t3);
          CopyingFacts(m0, t1, t, M(), t3, n);
          ok := UndoCopy(new_, i / PGSIZE, m0, t1, t, t3);
          return Some(-1), t3;
        }
        CopyStepDone(m0, t1, t, m, t2, n, M(), t3);
        t2 := t3;
        i := i + PGSIZE;
        n := n + 1;
      }
      return Some(0), t2;
    }

    /** freewalk: false is the panic at a leaf entry. */
    method Freewalk(pagetable: nat, ghost s: Sub) returns (ok: bool)
      requires M().Parted() && s.Sub? && pagetable == s.page && Holds(M(), s) && Separate(s)
      modifies this`tables, this`free
      decreases s
      ensures ok ==> Freed(old(M()), s, M())
      ensures ok <==> NoLeaf(old(M()), s)
    {
      hide Mem.Parted, Freeing, Freed, Separate, NoLeaf, Holds, Leads, V, Rwx, Ppn, NoLeafUpTo;
      ghost var m := M();
      HoldsTable(m, s);
      FreeingStart(m, s);
      NoLeafFacts(m, s, 0);
      var i := 0;
      while i < 512
        invariant 0 <= i <= 512 && Freeing(m, s, M(), i)
        invariant NoLeafUpTo(m, s, i)
      {
        FreeingTable(m, s, M(), i);
        FreeingKid(m, s, M(), i);
        ghost var m2, kid := M(), s.kids[i];
        var pte := tables[pagetable][i];
        LeadsFacts(pte, kid);
        NoLeafFacts(m, s, i);
        if V(pte) && !Rwx(pte) {
          SeparateKid(s, i);
          var done := Freewalk(Ppn(pte), kid);
          if !done {
            return false;
          }
          FreeingNext(m, s, m2, i, M());
          tables := tables[pagetable := tables[pagetable][i := 0]];
        } else if V(pte) {
          return false;
        } else {
          FreeingSkip(m, s, m2, i);
        }
        i := i + 1;
      }
      FreeingTable(m, s, M(), 512);
      NoLeafFacts(m, s, 512);
      FreeingDone(m, s, M());
      tables, free := tables - {pagetable}, [pagetable] + free;
      return true;
    }
  }

  /** PGROUNDUP(sz) / PGSIZE */
  function Pages(sz: nat): nat {
    (sz + PGSIZE - 1) / PGSIZE
  }

  lemma PteFacts(pte: nat)
    ensures !V(0) && Flags(pte) < 1024
    ensures V(pte) ==> Flags(pte) % 2 == 1
  {
  }

  /** pte & PTE_U */
  predicate UserBit(pte: nat) {
    pte / 16 % 2 == 1
  }

  predicate UserEntry(pte: nat) {
    V(pte) && UserBit(pte)
  }

  lemma {:induction false} DistinctCount(s: seq<nat>)
    requires forall i, j :: 0 <= i < j < |s| ==> s[i] != s[j]
    ensures |Elements(s)| == |s|
  {
    if s != [] {
      var tail := Elements(s[1..]);
      DistinctCount(s[1..]);
      assert s[0] !in tail;
      assert Elements(s) == tail + {s[0]} by {
        assert s == [s[0]] + s[1..];
      }
    }
  }
}
