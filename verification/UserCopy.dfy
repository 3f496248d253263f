/**
  copyout and copyin: byte strings moved between the kernel and user virtual
  addresses, page by page through walkaddr. Neither looks at PTE_W or PTE_R, only
  at PTE_V and PTE_U.
*/
module UserCopy {
  import opened Blocks
  import opened PageTable
  import opened TableTree
  import opened VirtualMemory

  /** User pages are backed by whole frames, and physical page 0 is not memory. */
  ghost predicate Backed(m: Mem, t: Tree) {
    && 0 !in m.frames
    && (forall w: nat :: UserEntry(Entry(m, t, w)) ==> Ppn(Entry(m, t, w)) in m.frames)
    && (forall p :: p in m.frames ==> |m.frames[p]| == PGSIZE)
  }

  /** Address a can be reached from user mode. */
  predicate Reachable(m: Mem, t: Tree, a: nat) {
    a < MAXVA && UserEntry(Entry(m, t, a / PGSIZE))
  }

  /** The byte at user address a. */
  ghost function UserByte(m: Mem, t: Tree, a: nat): Byte
    requires Backed(m, t) && Reachable(m, t, a)
  {
    m.frames[Ppn(Entry(m, t, a / PGSIZE))][a % PGSIZE]
  }

  /** Addresses x and y are the same byte of memory. */
  ghost predicate SameByte(m: Mem, t: Tree, x: nat, y: nat) {
    Ppn(Entry(m, t, x / PGSIZE)) == Ppn(Entry(m, t, y / PGSIZE)) && x % PGSIZE == y % PGSIZE
  }

  /** Of the addresses below end, x is the last that is its byte of memory. */
  ghost predicate Last(m: Mem, t: Tree, end: nat, x: nat) {
    forall y :: x < y < end ==> !SameByte(m, t, x, y)
  }

  /** Byte o of frame p is what one of the addresses [a, a + n) translates to. */
  ghost predicate Touched(m: Mem, t: Tree, a: nat, n: nat, p: nat, o: nat) {
    exists x :: a <= x < a + n && Reachable(m, t, x) && Ppn(Entry(m, t, x / PGSIZE)) == p && x % PGSIZE == o
  }

  /**
    The first n bytes of src are at user addresses a, a + 1, ..., where two of
    these are the same byte of memory the later one's; no other byte changed.
  */
  ghost predicate CopiedOut(m: Mem, t: Tree, m2: Mem, a: nat, src: seq<Byte>, n: nat)
    requires n <= |src|
  {
    && m2.tables == m.tables && m2.free == m.free && m2.frames.Keys == m.frames.Keys
    && Backed(m, t) && Backed(m2, t)
    && (forall x :: a <= x < a + n ==> Reachable(m, t, x))
    && (forall x :: a <= x < a + n && Reachable(m2, t, x) && Last(m, t, a + n, x) ==> UserByte(m2, t, x) == src[x - a])
    && (forall p, o :: p in m.frames && 0 <= o < PGSIZE && !Touched(m, t, a, n, p, o) ==>
          m2.frames[p][o] == m.frames[p][o])
  }

  function Patched(data: seq<Byte>, at: nat, bytes: seq<Byte>): seq<Byte>
    requires at + |bytes| <= |data|
  {
    data[..at] + bytes + data[at + |bytes|..]
  }

  /** One memmove of a chunk inside one page. */
  lemma ChunkOut(m: Mem, t: Tree, m1: Mem, a: nat, src: seq<Byte>, n: nat, k: nat)
    requires n + k <= |src| && CopiedOut(m, t, m1, a, src, n)
    requires k > 0 && (a + n) % PGSIZE + k <= PGSIZE && Reachable(m, t, a + n)
    ensures var p := Ppn(Entry(m, t, (a + n) / PGSIZE));
      && p in m1.frames && |m1.frames[p]| == PGSIZE
      && CopiedOut(m, t, m1.(frames := m1.frames[p := Patched(m1.frames[p], (a + n) % PGSIZE, src[n..n + k])]), a, src,
                   n + k)
  {
    var v := (a + n) / PGSIZE;
    var p, at := Ppn(Entry(m, t, v)), (a + n) % PGSIZE;
    var m2 := m1.(frames := m1.frames[p := Patched(m1.frames[p], at, src[n..n + k])]);
    SamePage(m, t, a + n, k);
    hide UserEntry, Ppn;
    assert forall w: nat :: Entry(m2, t, w) == Entry(m, t, w) && Entry(m1, t, w) == Entry(m, t, w);
    assert p in m1.frames && |m2.frames[p]| == PGSIZE;
    assert Backed(m2, t);
    forall x | a <= x < a + n + k && Reachable(m2, t, x) && Last(m, t, a + n + k, x)
      ensures UserByte(m2, t, x) == src[x - a]
    {
      if x >= a + n {
        assert x / PGSIZE == v && x % PGSIZE == at + (x - a - n);
      } else {
        LastBefore(m, t, a, n, k, x);
        assert Reachable(m1, t, x) && UserByte(m1, t, x) == src[x - a];
      }
    }
    forall q, o | q in m.frames && 0 <= o < PGSIZE && !Touched(m, t, a, n + k, q, o)
      ensures m2.frames[q][o] == m.frames[q][o]
    {
      UntouchedStep(m, t, a, n, k, q, o);
    }
  }

  /** A byte the chunk does not overwrite was the last one before it, too. */
  lemma LastBefore(m: Mem, t: Tree, a: nat, n: nat, k: nat, x: nat)
    requires Last(m, t, a + n + k, x) && x < a + n && (a + n) % PGSIZE + k <= PGSIZE
    ensures Last(m, t, a + n, x)
    ensures Ppn(Entry(m, t, x / PGSIZE)) == Ppn(Entry(m, t, (a + n) / PGSIZE)) ==>
      !((a + n) % PGSIZE <= x % PGSIZE < (a + n) % PGSIZE + k)
  {
    hide Entry, Ppn;
    var at := (a + n) % PGSIZE;
    if at <= x % PGSIZE < at + k {
      var y := a + n + (x % PGSIZE - at);
      assert y / PGSIZE == (a + n) / PGSIZE && y % PGSIZE == x % PGSIZE;
      assert !SameByte(m, t, x, y);
    }
  }

  /** Addresses of one page reach the same frame, at consecutive offsets. */
  lemma SamePage(m: Mem, t: Tree, b: nat, k: nat)
    requires b % PGSIZE + k <= PGSIZE && Reachable(m, t, b)
    ensures forall x :: b <= x < b + k ==>
      Reachable(m, t, x) && x / PGSIZE == b / PGSIZE && x % PGSIZE == b % PGSIZE + (x - b)
  {
    hide UserEntry;
    forall x | b <= x < b + k
      ensures Reachable(m, t, x) && x / PGSIZE == b / PGSIZE && x % PGSIZE == b % PGSIZE + (x - b)
    {
      assert x / PGSIZE == b / PGSIZE;
    }
  }

  lemma ChunkTouches(m: Mem, t: Tree, a: nat, n: nat, k: nat, o: nat)
    requires Reachable(m, t, a + n) && (a + n) % PGSIZE <= o < (a + n) % PGSIZE + k <= PGSIZE
    ensures Touched(m, t, a, n + k, Ppn(Entry(m, t, (a + n) / PGSIZE)), o)
  {
    hide UserEntry, Ppn;
    SamePage(m, t, a + n, k);
    var x := a + n + (o - (a + n) % PGSIZE);
    assert Reachable(m, t, x) && x / PGSIZE == (a + n) / PGSIZE && x % PGSIZE == o;
  }

  lemma UntouchedStep(m: Mem, t: Tree, a: nat, n: nat, k: nat, q: nat, o: nat)
    requires !Touched(m, t, a, n + k, q, o) && (a + n) % PGSIZE + k <= PGSIZE && Reachable(m, t, a + n) && k > 0
    ensures !Touched(m, t, a, n, q, o)
    ensures q == Ppn(Entry(m, t, (a + n) / PGSIZE)) ==> !((a + n) % PGSIZE <= o < (a + n) % PGSIZE + k)
  {
    if (a + n) % PGSIZE <= o < (a + n) % PGSIZE + k {
      ChunkTouches(m, t, a, n, k, o);
    }
  }

  lemma CopiedOutNone(m: Mem, t: Tree, a: nat, src: seq<Byte>)
    requires Backed(m, t)
    ensures CopiedOut(m, t, m, a, src, 0)
  {
  }

  lemma CopiedOutFacts(m: Mem, t: Tree, m1: Mem, a: nat, src: seq<Byte>, n: nat)
    requires n <= |src| && CopiedOut(m, t, m1, a, src, n) && m.Parted() && TreeOk(m, t)
    ensures m1.Parted() && TreeOk(m1, t) && Backed(m1, t)
    ensures forall w: nat :: Entry(m1, t, w) == Entry(m, t, w)
    ensures m1.FreeSet() == m.FreeSet() && m1.Pages() == m.Pages()
  {
    TreePagesInTables(m, t);
    TreeFrame(m, m1, t);
  }

  /** copyout: 0, or -1 at the first byte that is not a user address, with the bytes before it copied. */
  method Copyout(vm: Vm, pagetable: nat, dstva: nat, src: seq<Byte>, ghost t: Tree) returns (r: int, ghost done: nat)
    requires vm.M().Parted() && TreeOk(vm.M(), t) && pagetable == t.root
    requires Backed(vm.M(), t)
    modifies vm
    ensures done <= |src| && CopiedOut(old(vm.M()), t, vm.M(), dstva, src, done)
    ensures r == 0 ==> done == |src|
    ensures r != 0 ==> r == -1 && done < |src| && !Reachable(old(vm.M()), t, dstva + done)
  {
    hide TreeOk, Mem.Parted, Backed, CopiedOut, Entry, UserEntry, Ppn;
    ghost var m := vm.M();
    CopiedOutNone(m, t, dstva, src);
    var len, at, va := |src|, 0, dstva;
    done := 0;
    while len > 0
      invariant 0 <= len && 0 <= at && at + len == |src| && done == at && (len > 0 ==> va == dstva + at)
      invariant CopiedOut(m, t, vm.M(), dstva, src, at)
      decreases len
    {
      ghost var m1 := vm.M();
      CopiedOutFacts(m, t, m1, dstva, src, at);
      var va0 := va / PGSIZE * PGSIZE;
      assert va0 / PGSIZE == va / PGSIZE && (va0 < MAXVA <==> va < MAXVA);
      var pa0 := vm.Walkaddr(pagetable, va0, t);
      if UserEntry(Entry(m1, t, va / PGSIZE)) { NotPageZero(m1, t, va / PGSIZE); }
      if pa0 == 0 {
        return -1, done;
      }
      var n := PGSIZE - (va - va0);
      if n > len {
        n := len;
      }
      assert va - va0 == va % PGSIZE && pa0 / PGSIZE == Ppn(Entry(m, t, va / PGSIZE));
      ChunkOut(m, t, m1, dstva, src, at, n);
      var p := pa0 / PGSIZE;
      vm.frames := vm.frames[p := Patched(vm.frames[p], va - va0, src[at..at + n])];
      len, at, va := len - n, at + n, va0 + PGSIZE;
      done := at;
    }
    return 0, done;
  }

  lemma NotPageZero(m: Mem, t: Tree, w: nat)
    requires Backed(m, t) && UserEntry(Entry(m, t, w))
    ensures Ppn(Entry(m, t, w)) != 0 && Ppn(Entry(m, t, w)) in m.frames && |m.frames[Ppn(Entry(m, t, w))]| == PGSIZE
  {
  }

  /** dst holds the bytes of user addresses a .. a + |dst| - 1. */
  ghost predicate CopiedIn(m: Mem, t: Tree, a: nat, dst: seq<Byte>)
    requires Backed(m, t)
  {
    && (forall x :: a <= x < a + |dst| ==> Reachable(m, t, x))
    && (forall x :: a <= x < a + |dst| && Reachable(m, t, x) ==> dst[x - a] == UserByte(m, t, x))
  }

  lemma CopiedInNone(m: Mem, t: Tree, a: nat)
    requires Backed(m, t)
    ensures CopiedIn(m, t, a, [])
  {
  }

  lemma ChunkIn(m: Mem, t: Tree, a: nat, dst: seq<Byte>, k: nat)
    requires Backed(m, t) && CopiedIn(m, t, a, dst)
    requires Reachable(m, t, a + |dst|) && (a + |dst|) % PGSIZE + k <= PGSIZE
    ensures var p, at := Ppn(Entry(m, t, (a + |dst|) / PGSIZE)), (a + |dst|) % PGSIZE;
      p in m.frames && |m.frames[p]| == PGSIZE && CopiedIn(m, t, a, dst + m.frames[p][at..at + k])
  {
    hide UserEntry, Ppn;
    SamePage(m, t, a + |dst|, k);
  }

  /** copyin: 0 and the bytes of the range, or -1 when the range leaves the user's pages. */
  method Copyin(vm: Vm, pagetable: nat, srcva: nat, len: nat, ghost t: Tree) returns (r: int, dst: seq<Byte>)
    requires vm.M().Parted() && TreeOk(vm.M(), t) && pagetable == t.root && Backed(vm.M(), t)
    modifies vm
    ensures vm.M() == old(vm.M())
    ensures CopiedIn(vm.M(), t, srcva, dst)
    ensures r == 0 ==> |dst| == len
    ensures r != 0 ==> r == -1 && |dst| < len && !Reachable(vm.M(), t, srcva + |dst|)
  {
    hide TreeOk, Mem.Parted, Backed, CopiedIn, Entry, UserEntry, Ppn;
    ghost var m := vm.M();
    dst := [];
    var left, va := len, srcva;
    CopiedInNone(m, t, srcva);
    while left > 0
      invariant 0 <= left && |dst| + left == len && (left > 0 ==> va == srcva + |dst|)
      invariant vm.M() == m && CopiedIn(m, t, srcva, dst)
      decreases left
    {
      var va0 := va / PGSIZE * PGSIZE;
      assert va0 / PGSIZE == va / PGSIZE && (va0 < MAXVA <==> va < MAXVA);
      var pa0 := vm.Walkaddr(pagetable, va0, t);
      if UserEntry(Entry(m, t, va / PGSIZE)) { NotPageZero(m, t, va / PGSIZE); }
      if pa0 == 0 {
        return -1, dst;
      }
      var n := PGSIZE - (va - va0);
      if n > left {
        n := left;
      }
      assert va - va0 == va % PGSIZE && pa0 / PGSIZE == Ppn(Entry(m, t, va / PGSIZE));
      ChunkIn(m, t, srcva, dst, n);
      dst := dst + vm.frames[pa0 / PGSIZE][va - va0..va - va0 + n];
      left, va := left - n, va0 + PGSIZE;
    }
    return 0, dst;
  }

  /** Addresses of the range that are the same byte of memory get the same byte of src. */
  ghost predicate Consistent(m: Mem, t: Tree, a: nat, src: seq<Byte>) {
    forall x, y :: a <= x < a + |src| && a <= y < a + |src| && SameByte(m, t, x, y) ==> src[x - a] == src[y - a]
  }

  lemma {:induction false} LastOf(m: Mem, t: Tree, end: nat, x: nat) returns (y: nat)
    requires x < end
    ensures x <= y < end && SameByte(m, t, x, y) && Last(m, t, end, y)
    decreases end - x
  {
    if Last(m, t, end, x) {
      y := x;
    } else {
      var z :| x < z < end && SameByte(m, t, x, z);
      y := LastOf(m, t, end, z);
    }
  }

  /** What was copied out is what is copied in, if and only if src says one thing about each byte of memory. */
  lemma CopyRoundTrip(m: Mem, t: Tree, m2: Mem, a: nat, src: seq<Byte>, dst: seq<Byte>)
    requires CopiedOut(m, t, m2, a, src, |src|) && Backed(m2, t) && CopiedIn(m2, t, a, dst) && |dst| == |src|
    ensures dst == src <==> Consistent(m, t, a, src)
  {
    hide UserEntry, Ppn, Last;
    assert forall w: nat :: Entry(m2, t, w) == Entry(m, t, w);
    hide Entry;
    forall x, y | a <= x < a + |src| && a <= y < a + |src| && SameByte(m, t, x, y) ensures dst[x - a] == dst[y - a] {
      assert Reachable(m2, t, x) && Reachable(m2, t, y);
    }
    if Consistent(m, t, a, src) {
      forall i | 0 <= i < |dst| ensures dst[i] == src[i] {
        var y := LastOf(m, t, a + |src|, a + i);
        assert Reachable(m2, t, y);
      }
    }
  }

  lemma UnaliasedLast(m: Mem, t: Tree, n: nat, end: nat, x: nat)
    requires Unaliased(m, t, 0, n) && x < end <= n * PGSIZE
    ensures Last(m, t, end, x)
  {
    hide Entry, Ppn;
    forall y | x < y < end ensures !SameByte(m, t, x, y) {
      assert x / PGSIZE < n && y / PGSIZE < n;
      assert x / PGSIZE == y / PGSIZE ==> x % PGSIZE != y % PGSIZE;
    }
  }

  /** Pages in different frames share no byte, and then the round trip always holds. */
  lemma UnaliasedConsistent(m: Mem, t: Tree, n: nat, a: nat, src: seq<Byte>)
    requires Unaliased(m, t, 0, n) && a + |src| <= n * PGSIZE
    ensures Consistent(m, t, a, src)
  {
    hide Entry, Ppn;
    forall x, y | a <= x < a + |src| && a <= y < a + |src| && SameByte(m, t, x, y) ensures x == y {
      assert x / PGSIZE == y / PGSIZE;
    }
  }

  /** A process that does not share the written frames sees no change. */
  lemma CopyoutOthers(m: Mem, t: Tree, m2: Mem, a: nat, src: seq<Byte>, n: nat, u: Tree, x: nat)
    requires n <= |src| && CopiedOut(m, t, m2, a, src, n) && Backed(m, u) && Backed(m2, u) && Reachable(m, u, x)
    requires forall y :: a <= y < a + n ==> Ppn(Entry(m, t, y / PGSIZE)) != Ppn(Entry(m, u, x / PGSIZE))
    ensures Reachable(m2, u, x) && UserByte(m2, u, x) == UserByte(m, u, x)
  {
    hide UserEntry, Ppn;
    assert !Touched(m, t, a, n, Ppn(Entry(m, u, x / PGSIZE)), x % PGSIZE);
  }

  // ------------------------------------------------------------------ read-only user pages

  /** The process itself may store to the page: PTE_V, PTE_U and PTE_W. */
  predicate Writable(pte: nat) {
    UserEntry(pte) && pte / PTE_W % 2 == 1
  }

  /** User address a can be read and not written by the process. */
  predicate ReadOnly(m: Mem, t: Tree, a: nat) {
    Reachable(m, t, a) && !Writable(Entry(m, t, a / PGSIZE))
  }

  /** No read-only byte of the process changed. */
  ghost predicate ReadOnlyKept(m: Mem, t: Tree, m2: Mem)
    requires Backed(m, t) && Backed(m2, t)
  {
    forall x: nat :: ReadOnly(m, t, x) && Reachable(m2, t, x) ==> UserByte(m2, t, x) == UserByte(m, t, x)
  }

  /** Where the range is read-only, src holds what is there. */
  ghost predicate Harmless(m: Mem, t: Tree, a: nat, src: seq<Byte>)
    requires Backed(m, t)
  {
    forall x :: a <= x < a + |src| && ReadOnly(m, t, x) ==> src[x - a] == UserByte(m, t, x)
  }

  /** copyout keeps a process's read-only pages if and only if it was given what they hold. */
  lemma ReadOnlyKeptIff(m: Mem, t: Tree, n: nat, m2: Mem, a: nat, src: seq<Byte>)
    requires CopiedOut(m, t, m2, a, src, |src|) && Backed(m, t) && Backed(m2, t)
    requires Unaliased(m, t, 0, n) && forall w: nat :: UserEntry(Entry(m, t, w)) ==> w < n
    ensures ReadOnlyKept(m, t, m2) <==> Harmless(m, t, a, src)
  {
    assert forall w: nat :: Entry(m2, t, w) == Entry(m, t, w);
    hide Entry, UserEntry, Ppn, Writable, Last, Touched;
    forall x: nat | ReadOnly(m, t, x) && Reachable(m2, t, x)
      ensures UserByte(m2, t, x) == if a <= x < a + |src| then src[x - a] else UserByte(m, t, x)
    {
      CopiedByte(m, t, n, m2, a, src, x);
    }
  }

  /** A byte after copyout, in a process whose pages are in frames of their own. */
  lemma CopiedByte(m: Mem, t: Tree, n: nat, m2: Mem, a: nat, src: seq<Byte>, x: nat)
    requires CopiedOut(m, t, m2, a, src, |src|) && Reachable(m, t, x) && Reachable(m2, t, x)
    requires Unaliased(m, t, 0, n) && forall w: nat :: UserEntry(Entry(m, t, w)) ==> w < n
    ensures UserByte(m2, t, x) == if a <= x < a + |src| then src[x - a] else UserByte(m, t, x)
  {
    assert forall w: nat :: Entry(m2, t, w) == Entry(m, t, w);
    hide Entry, UserEntry, Ppn, Last;
    if a <= x < a + |src| {
      assert Reachable(m, t, a + |src| - 1);
      UnaliasedLast(m, t, n, a + |src|, x);
    } else {
      OneAddress(m, t, n, a, |src|, x);
    }
  }

  lemma OneAddress(m: Mem, t: Tree, n: nat, a: nat, k: nat, x: nat)
    requires Unaliased(m, t, 0, n) && Reachable(m, t, x) && !(a <= x < a + k)
    requires forall w: nat :: UserEntry(Entry(m, t, w)) ==> w < n
    ensures !Touched(m, t, a, k, Ppn(Entry(m, t, x / PGSIZE)), x % PGSIZE)
  {
    hide Entry, Ppn, UserEntry;
    assert forall y :: y / PGSIZE == x / PGSIZE && y % PGSIZE == x % PGSIZE ==> y == x;
  }

  /** A store the process could not make itself: copyout of one byte to a read-only address. */
  method WriteReadOnly(vm: Vm, pagetable: nat, x: nat, b: Byte, ghost t: Tree) returns (r: int)
    requires vm.M().Parted() && TreeOk(vm.M(), t) && pagetable == t.root && Backed(vm.M(), t)
    requires ReadOnly(vm.M(), t, x) && UserByte(vm.M(), t, x) != b
    modifies vm
    ensures r == 0 && Backed(vm.M(), t) && !ReadOnlyKept(old(vm.M()), t, vm.M())
  {
    hide TreeOk, Mem.Parted;
    ghost var m, done := vm.M(), 0;
    r, done := Copyout(vm, pagetable, x, [b], t);
    assert Last(m, t, x + 1, x);
    assert forall w: nat :: Entry(vm.M(), t, w) == Entry(m, t, w);
    assert Reachable(vm.M(), t, x);
  }
}
