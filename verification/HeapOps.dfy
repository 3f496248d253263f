/**
  free, and malloc's carving of a block, on the sequence of blocks.

  Each operation replaces one to three neighbouring blocks by one or two blocks on
  the same ground. For each of them there are lemmas that say that

  - the blocks stay in address order and cover the same units;
  - no two free blocks touch;
  - the pointers written are those of the ring of the new sequence;
  - the sizes written are those of the new blocks;
  - exactly the intended block comes into use or goes out of use.
*/
module HeapOps {
  import opened HeapBlocks

  lemma CoalescedConcat(a: Heap, b: Heap)
    ensures Coalesced(a + b) <==>
      Coalesced(a) && Coalesced(b)
      && (a != [] && b != [] ==> !(a[|a| - 1].free && b[0].free && Touch(a[|a| - 1], b[0])))
  {
    var h := a + b;
    assert forall i :: 0 <= i < |a| ==> h[i] == a[i];
    assert forall j :: 0 <= j < |b| ==> h[|a| + j] == b[j];
    if Coalesced(h) {
      forall j | 0 <= j && j + 1 < |b| ensures !(b[j].free && b[j + 1].free && Touch(b[j], b[j + 1])) {
        assert h[|a| + j] == b[j] && h[|a| + j + 1] == b[j + 1];
      }
      if a != [] && b != [] {
        assert h[|a| - 1] == a[|a| - 1] && h[|a| - 1 + 1] == b[0];
      }
    }
    if Coalesced(a) && Coalesced(b) {
      forall i | 0 <= i && i + 1 < |h| && i + 1 != |a| ensures !(h[i].free && h[i + 1].free && Touch(h[i], h[i + 1])) {
        if i >= |a| { assert h[i] == b[i - |a|] && h[i + 1] == b[i - |a| + 1]; }
      }
    }
  }

  // ------------------------------------------------------------------------- free

  predicate MergesUp(h: Heap, b: nat)
    requires b < |h|
  {
    b + 1 < |h| && h[b + 1].free && Touch(h[b], h[b + 1])
  }

  predicate MergesDown(h: Heap, b: nat)
    requires b < |h|
  {
    b > 0 && h[b - 1].free && Touch(h[b - 1], h[b])
  }

  function Lo(h: Heap, b: nat): nat
    requires b < |h|
  {
    if MergesDown(h, b) then b - 1 else b
  }

  function Hi(h: Heap, b: nat): nat
    requires b < |h|
  {
    if MergesUp(h, b) then b + 2 else b + 1
  }

  function FreeBlock(h: Heap, b: nat): Blk
    requires b < |h|
  {
    Blk(h[Lo(h, b)].addr, h[Hi(h, b) - 1].addr + h[Hi(h, b) - 1].size - h[Lo(h, b)].addr, true)
  }

  /** Block b becomes free and is joined with the free blocks it touches. */
  function FreedAt(h: Heap, b: nat): Heap
    requires b < |h|
  {
    h[..Lo(h, b)] + [FreeBlock(h, b)] + h[Hi(h, b)..]
  }

  lemma Parts(h: Heap, lo: nat, hi: nat)
    requires lo <= hi <= |h|
    ensures h == h[..lo] + h[lo..hi] + h[hi..]
  {
  }

  lemma FreedOrdered(h: Heap, b: nat, base: int)
    requires Ordered(h, base) && b < |h|
    ensures Ordered(FreedAt(h, b), base)
  {
    var lo, hi := Lo(h, b), Hi(h, b);
    Parts(h, lo, hi);
    ReplaceOrdered(h[..lo], h[lo..hi], [FreeBlock(h, b)], h[hi..], base);
  }

  /** The joined block covers the ground of its one, two or three parts. */
  lemma MergedUnits(h: Heap, b: nat, base: int, u: int)
    requires Ordered(h, base) && b < |h|
    ensures InBlk(FreeBlock(h, b), u) <==>
      InBlk(h[b], u) || (MergesDown(h, b) && InBlk(h[b - 1], u)) || (MergesUp(h, b) && InBlk(h[b + 1], u))
  {
  }

  lemma OwnedParts(h: Heap, lo: nat, hi: nat, u: int)
    requires lo < hi <= lo + 3 && hi <= |h|
    ensures Owned(h[lo..hi], u) <==>
      InBlk(h[lo], u) || (lo + 1 < hi && InBlk(h[lo + 1], u)) || (lo + 2 < hi && InBlk(h[lo + 2], u))
  {
    var m := h[lo..hi];
    assert m[0] == h[lo];
    if lo + 1 < hi { assert m[1] == h[lo + 1]; }
    if lo + 2 < hi { assert m[2] == h[lo + 2]; }
  }

  lemma OwnedOne(x: Blk, u: int)
    ensures Owned([x], u) <==> InBlk(x, u)
  {
    assert [x][0] == x;
  }

  /** free gives back exactly the units of the block: nothing is lost, nothing is shared. */
  lemma FreedOwned(h: Heap, b: nat, base: int)
    requires Ordered(h, base) && b < |h|
    ensures forall u :: Owned(h, u) <==> Owned(FreedAt(h, b), u)
  {
    var lo, hi := Lo(h, b), Hi(h, b);
    Parts(h, lo, hi);
    forall u ensures Owned(h[lo..hi], u) <==> Owned([FreeBlock(h, b)], u) {
      MergedUnits(h, b, base, u);
      OwnedParts(h, lo, hi, u);
      OwnedOne(FreeBlock(h, b), u);
      hide Owned, InBlk, Ordered, FreeBlock;
    }
    hide Owned;
    OwnedSame(h[..lo], h[lo..hi], [FreeBlock(h, b)], h[hi..]);
  }

  /** The list stays fully coalesced. */
  lemma FreedCoalesced(h: Heap, b: nat)
    requires Coalesced(h) && b < |h|
    ensures Coalesced(FreedAt(h, b))
  {
    hide Coalesced, FreeBlock, MergesUp, MergesDown, Lo, Hi;
    var lo, hi := Lo(h, b), Hi(h, b);
    LoHi(h, b);
    Parts(h, lo, hi);
    FreedEdges(h, b);
    FreeBlockEnds(h, b);
    var x, z := h[..lo], h[hi..];
    assert lo > 0 ==> x[|x| - 1] == h[lo - 1];
    assert hi < |h| ==> z[0] == h[hi];
    CoalescedJoin(x, h[lo..hi], FreeBlock(h, b), z);
  }

  lemma LoHi(h: Heap, b: nat)
    requires b < |h|
    ensures Lo(h, b) <= b < Hi(h, b) <= |h|
  {
  }

  lemma CoalescedJoin(x: Heap, m: Heap, y: Blk, z: Heap)
    requires Coalesced(x + m + z)
    requires x != [] ==> !(x[|x| - 1].free && Touch(x[|x| - 1], y))
    requires z != [] ==> !(z[0].free && Touch(y, z[0]))
    ensures Coalesced(x + [y] + z)
  {
    CoalescedConcat(x + m, z);
    CoalescedConcat(x, m);
    CoalescedConcat(x, [y]);
    CoalescedConcat(x + [y], z);
    assert Coalesced([y]);
    hide Coalesced;
  }

  /** What lies next to the joined block is in use or does not touch it. */
  lemma FreedEdges(h: Heap, b: nat)
    requires Coalesced(h) && b < |h|
    ensures var lo, hi := Lo(h, b), Hi(h, b);
      && (lo > 0 ==> !(h[lo - 1].free && Touch(h[lo - 1], h[lo])))
      && (hi < |h| ==> !(h[hi].free && Touch(h[hi - 1], h[hi])))
  {
    var lo, hi := Lo(h, b), Hi(h, b);
    if lo > 0 && MergesDown(h, b) { assert h[lo] == h[lo - 1 + 1]; }
    if hi < |h| && MergesUp(h, b) { assert h[hi] == h[hi - 1 + 1]; }
  }

  lemma FreeBlockEnds(h: Heap, b: nat)
    requires b < |h|
    ensures FreeBlock(h, b).addr == h[Lo(h, b)].addr
    ensures FreeBlock(h, b).addr + FreeBlock(h, b).size == h[Hi(h, b) - 1].addr + h[Hi(h, b) - 1].size
  {
  }

  /** Place t is the last one of the ring before block b. */
  predicate Before(h: Heap, base: int, p: int, t: int, b: nat)
    requires b < |h|
  {
    Place(h, base, p, t) && t < b && forall i :: t < i < b ==> !h[i].free
  }

  /** What the place before a block in use points to. */
  lemma {:induction false} SkipLive(h: Heap, base: int, i: nat, b: nat)
    requires i <= b <= |h| && forall j :: i <= j < b ==> !h[j].free
    ensures First(h[i..], base) == First(h[b..], base)
    decreases b - i
  {
    if i < b {
      assert h[i..][1..] == h[i + 1..];
      SkipLive(h, base, i + 1, b);
    }
  }

  lemma NextOf(h: Heap, base: int, next: map<int, int>, p: int, t: int, b: nat)
    requires Linked(h, base, next) && b < |h| && !h[b].free && Before(h, base, p, t, b)
    ensures p in next && next[p] == First(h[b + 1..], base)
  {
    SkipLive(h, base, t + 1, b + 1);
    if t == -1 { assert h[0..] == h; }
  }

  /** The first test of free: the block touches the next free one. */
  lemma UpTest(h: Heap, base: int, b: nat)
    requires Ordered(h, base) && b < |h|
    ensures (h[b].addr + h[b].size == First(h[b + 1..], base)) <==> MergesUp(h, b)
    ensures MergesUp(h, b) ==> First(h[b + 1..], base) == h[b + 1].addr
  {
    var rest := h[b + 1..];
    FirstFound(rest, base);
    if b + 1 < |h| { assert rest[0] == h[b + 1]; }
    if AnyFree(rest) {
      var i :| 0 <= i < |rest| && rest[i].free && First(rest, base) == rest[i].addr && !AnyFree(rest[..i]);
      assert rest[i] == h[b + 1 + i];
      if i > 0 {
        assert h[b].addr + h[b].size <= h[b + 1].addr && h[b + 1].addr + h[b + 1].size <= h[b + 1 + i].addr;
        assert rest[..i][0] == h[b + 1];
      }
    }
  }

  /** The second test: the place before the block is a free block that touches it. */
  lemma DownTest(h: Heap, base: int, p: int, t: int, b: nat)
    requires Ordered(h, base) && b < |h| && Before(h, base, p, t, b)
    ensures (p + (if t == -1 then 0 else h[t].size) == h[b].addr) <==> MergesDown(h, b)
    ensures MergesDown(h, b) ==> t == b - 1
  {
    if t >= 0 && t < b - 1 {
      assert h[t].addr + h[t].size <= h[b - 1].addr && h[b - 1].addr + h[b - 1].size <= h[b].addr;
      assert !h[b - 1].free;
    }
  }

  /** The pointer and size updates of free. */
  predicate FreeWrites(h: Heap, p: int, b: nat, next: map<int, int>, size: map<int, int>, next2: map<int, int>,
                       size2: map<int, int>)
    requires b < |h|
  {
    var bp := h[b].addr;
    && p in next && p in size && (MergesUp(h, b) ==> h[b + 1].addr in next && h[b + 1].addr in size)
    && var after := if MergesUp(h, b) then next[h[b + 1].addr] else next[p];
       var length := if MergesUp(h, b) then h[b].size + size[h[b + 1].addr] else h[b].size;
       if MergesDown(h, b)
       then next2 == next[bp := after][p := after] && size2 == size[bp := length][p := size[p] + length]
       else next2 == next[bp := after][p := bp] && size2 == size[bp := length]
  }

  /** Different blocks have different addresses, none of them base. */
  lemma Distinct(h: Heap, base: int, i: nat, j: nat)
    requires Ordered(h, base) && i < j < |h|
    ensures base < h[i].addr < h[j].addr
  {
  }

  lemma FreedSized(h: Heap, base: int, p: int, t: int, b: nat, next: map<int, int>, size: map<int, int>,
                   next2: map<int, int>, size2: map<int, int>)
    requires Ordered(h, base) && Sized(h, base, size) && b < |h| && !h[b].free && Before(h, base, p, t, b)
    requires FreeWrites(h, p, b, next, size, next2, size2)
    ensures Sized(FreedAt(h, b), base, size2)
  {
    DownTest(h, base, p, t, b);
    PlaceApart(h, base, p, t, b);
    var lo, hi, h2 := Lo(h, b), Hi(h, b), FreedAt(h, b);
    assert base < h[b].addr && (t >= 0 ==> base < p);
    assert forall a :: a in size && a != h[b].addr && (a != p || !MergesDown(h, b)) ==>
      a in size2 && size2[a] == size[a];
    assert h[lo].addr in size2 && size2[h[lo].addr] == FreeBlock(h, b).size;
    hide FreeWrites, FreeBlock;
    forall i | 0 <= i < |h2| ensures h2[i].addr in size2 && size2[h2[i].addr] == h2[i].size {
      if i < lo {
        assert h2[i] == h[i];
        Distinct(h, base, i, b);
        if MergesDown(h, b) { Distinct(h, base, i, b - 1); }
      } else if i > lo {
        assert h2[i] == h[i - lo - 1 + hi];
        Distinct(h, base, b, i - lo - 1 + hi);
      } else {
        assert h2[i] == FreeBlock(h, b);
        FreeBlockAddr(h, b);
      }
      hide Ordered;
    }
  }

  lemma FreeBlockAddr(h: Heap, b: nat)
    requires b < |h|
    ensures FreeBlock(h, b).addr == h[Lo(h, b)].addr && FreeBlock(h, b).free
  {
  }

  /** What free's writes amount to. */
  predicate FreePointers(h: Heap, base: int, p: int, b: nat, next: map<int, int>, next2: map<int, int>)
    requires b < |h|
  {
    && p in next2
    && (forall a :: a in next && a != h[b].addr && a != p ==> a in next2 && next2[a] == next[a])
    && if MergesDown(h, b) then next2[p] == First(h[Hi(h, b)..], base)
       else next2[p] == h[b].addr && h[b].addr in next2 && next2[h[b].addr] == First(h[Hi(h, b)..], base)
  }

  lemma FreePointersHold(h: Heap, base: int, p: int, t: int, b: nat, next: map<int, int>, size: map<int, int>,
                         next2: map<int, int>, size2: map<int, int>)
    requires Ordered(h, base) && Linked(h, base, next) && b < |h| && !h[b].free && Before(h, base, p, t, b)
    requires FreeWrites(h, p, b, next, size, next2, size2)
    ensures FreePointers(h, base, p, b, next, next2)
  {
    NextOf(h, base, next, p, t, b);
    PlaceApart(h, base, p, t, b);
    if MergesUp(h, b) {
      assert next[h[b + 1].addr] == First(h[b + 1 + 1..], base);
    }
    hide Ordered, Linked, First, Before;
  }

  lemma PlaceApart(h: Heap, base: int, p: int, t: int, b: nat)
    requires Ordered(h, base) && b < |h| && Before(h, base, p, t, b)
    ensures p < h[b].addr
  {
    if t >= 0 { Distinct(h, base, t, b); }
  }

  lemma FreedLinked(h: Heap, base: int, p: int, t: int, b: nat, next: map<int, int>, next2: map<int, int>)
    requires Ordered(h, base) && Linked(h, base, next) && b < |h| && !h[b].free && Before(h, base, p, t, b)
    requires FreePointers(h, base, p, b, next, next2)
    ensures Linked(FreedAt(h, b), base, next2)
  {
    hide Ordered, Linked, Kept, MidLinked, FreePointers, Before, FreeBlock;
    FreedMid(h, base, p, t, b, next, next2);
    FreedKept(h, base, p, t, b, next, next2);
    DownTest(h, base, p, t, b);
    FreedFirst(h, base, b);
    var x, m, m2, z := h[..Lo(h, b)], h[Lo(h, b)..Hi(h, b)], [FreeBlock(h, b)], h[Hi(h, b)..];
    Parts(h, Lo(h, b), Hi(h, b));
    if MergesDown(h, b) {
      DownKept(h, base, p, t, b, next, next2);
      DownLinked(x, m, m2, z, base, next, next2);
    } else {
      FreedPlace(h, base, p, t, b, next, next2);
      hide Place, AnyFree;
      JoinLinked(x, m, m2, z, base, next, next2, p, t);
    }
  }

  lemma FreedFirst(h: Heap, base: int, b: nat)
    requires b < |h|
    ensures First([FreeBlock(h, b)] + h[Hi(h, b)..], base) == h[Lo(h, b)].addr
    ensures MergesDown(h, b) ==> First(h[Lo(h, b)..Hi(h, b)] + h[Hi(h, b)..], base) == h[Lo(h, b)].addr
  {
    assert ([FreeBlock(h, b)] + h[Hi(h, b)..])[0] == FreeBlock(h, b);
    assert (h[Lo(h, b)..Hi(h, b)] + h[Hi(h, b)..])[0] == h[Lo(h, b)];
  }

  lemma FreedPlace(h: Heap, base: int, p: int, t: int, b: nat, next: map<int, int>, next2: map<int, int>)
    requires b < |h| && Before(h, base, p, t, b) && !MergesDown(h, b) && FreePointers(h, base, p, b, next, next2)
    ensures Place(h[..b], base, p, t) && !AnyFree(h[..b][t + 1..])
    ensures p in next2 && next2[p] == h[b].addr
  {
  }

  lemma FreedMid(h: Heap, base: int, p: int, t: int, b: nat, next: map<int, int>, next2: map<int, int>)
    requires Ordered(h, base) && b < |h| && Before(h, base, p, t, b) && FreePointers(h, base, p, b, next, next2)
    ensures MidLinked([FreeBlock(h, b)], h[Hi(h, b)..], base, next2)
  {
    DownTest(h, base, p, t, b);
    hide Ordered;
    var m2 := [FreeBlock(h, b)];
    assert m2[1..] + h[Hi(h, b)..] == h[Hi(h, b)..];
  }

  /** Only p and the block itself are written. */
  lemma FreedKept(h: Heap, base: int, p: int, t: int, b: nat, next: map<int, int>, next2: map<int, int>)
    requires Ordered(h, base) && Linked(h, base, next) && b < |h| && Before(h, base, p, t, b)
    requires FreePointers(h, base, p, b, next, next2)
    ensures Kept(h[..Lo(h, b)], h[Hi(h, b)..], base, next, next2, p)
  {
    var x, z := h[..Lo(h, b)], h[Hi(h, b)..];
    PlaceApart(h, base, p, t, b);
    assert h[b].addr > base;
    forall i | 0 <= i < |x| && x[i].free && x[i].addr != p
      ensures x[i].addr in next && x[i].addr in next2 && next2[x[i].addr] == next[x[i].addr]
    {
      Distinct(h, base, i, b);
      assert x[i] == h[i];
      hide Ordered, First, Before;
    }
    forall i | 0 <= i < |z| && z[i].free
      ensures z[i].addr in next && z[i].addr in next2 && next2[z[i].addr] == next[z[i].addr]
    {
      assert z[i] == h[Hi(h, b) + i];
      Distinct(h, base, b, Hi(h, b) + i);
      hide Ordered, First, Before;
    }
    hide Ordered, First, Before;
  }

  /** When the block joins the one before it, even p is outside the rest of the list. */
  lemma DownKept(h: Heap, base: int, p: int, t: int, b: nat, next: map<int, int>, next2: map<int, int>)
    requires Ordered(h, base) && b < |h| && Before(h, base, p, t, b) && MergesDown(h, b) && t == b - 1
    requires Kept(h[..b - 1], h[Hi(h, b)..], base, next, next2, p)
    ensures var x, z := h[..b - 1], h[Hi(h, b)..];
      && base in next && base in next2 && next2[base] == next[base]
      && (forall i :: 0 <= i < |x| && x[i].free ==>
            x[i].addr in next2 && x[i].addr in next && next2[x[i].addr] == next[x[i].addr])
      && (forall i :: 0 <= i < |z| && z[i].free ==>
            z[i].addr in next2 && z[i].addr in next && next2[z[i].addr] == next[z[i].addr])
  {
    var x := h[..b - 1];
    assert base != p;
    forall i | 0 <= i < |x| ensures x[i].addr != p {
      Distinct(h, base, i, b - 1);
    }
    hide Ordered;
  }

  /** ReplaceLinked where the place before the middle is p. */
  lemma JoinLinked(x: Heap, m: Heap, m2: Heap, z: Heap, base: int, next: map<int, int>, next2: map<int, int>, p: int,
                   t: int)
    requires Linked(x + m + z, base, next) && Ordered(x + m + z, base) && Place(x, base, p, t) && !AnyFree(x[t + 1..])
    requires MidLinked(m2, z, base, next2) && Kept(x, z, base, next, next2, p)
    requires p in next2 && next2[p] == First(m2 + z, base)
    ensures Linked(x + m2 + z, base, next2)
  {
    var h := x + m + z;
    assert forall i :: 0 <= i < |x| ==> h[i] == x[i];
    FirstConcat(x[t + 1..], m2 + z, base);
    if t == -1 { assert x[0..] == x; }
    var y := x[t + 1..];
    assert forall i :: t < i < |x| ==> x[i] == y[i - t - 1];
    forall i | 0 <= i < t && x[i].free ensures x[i].addr != p && AnyFree(x[i + 1..]) {
      assert x[i + 1..][t - i - 1].free;
    }
    assert t != -1 ==> AnyFree(x);
    ReplaceLinked(x, m, m2, z, base, next, next2, t);
  }

  /** ReplaceLinked where the middle starts with the same free block as before. */
  lemma DownLinked(x: Heap, m: Heap, m2: Heap, z: Heap, base: int, next: map<int, int>, next2: map<int, int>)
    requires Linked(x + m + z, base, next) && Ordered(x + m + z, base)
    requires MidLinked(m2, z, base, next2) && First(m2 + z, base) == First(m + z, base)
    requires base in next2 && next2[base] == next[base]
    requires forall i :: 0 <= i < |x| && x[i].free ==>
      x[i].addr in next2 && x[i].addr in next && next2[x[i].addr] == next[x[i].addr]
    requires forall i :: 0 <= i < |z| && z[i].free ==>
      z[i].addr in next2 && z[i].addr in next && next2[z[i].addr] == next[z[i].addr]
    ensures Linked(x + m2 + z, base, next2)
  {
    var h := x + m + z;
    assert forall i :: 0 <= i < |x| ==> h[i] == x[i];
    assert h == x + (m + z);
    FirstConcat(x, m + z, base);
    FirstConcat(x, m2 + z, base);
    assert forall i :: 0 <= i < |x| ==> x[i].addr != base;
    hide Ordered, AnyFree, MidLinked, First;
    ReplaceLinked(x, m, m2, z, base, next, next2, -1);
  }

  // ------------------------------------------------------------------ malloc, morecore

  /** n units are taken from the end of free block k, or all of it. */
  function CarvedAt(h: Heap, k: nat, n: int): Heap
    requires k < |h|
  {
    if h[k].size == n then h[..k] + [h[k].(free := false)] + h[k + 1..]
    else h[..k] + [Blk(h[k].addr, h[k].size - n, true), Blk(h[k].addr + h[k].size - n, n, false)] + h[k + 1..]
  }

  function Carving(b: Blk, n: int): Heap {
    if b.size == n then [b.(free := false)] else [Blk(b.addr, b.size - n, true), Blk(b.addr + b.size - n, n, false)]
  }

  lemma CarvedParts(h: Heap, k: nat, n: int)
    requires k < |h|
    ensures h == h[..k] + [h[k]] + h[k + 1..]
    ensures CarvedAt(h, k, n) == h[..k] + Carving(h[k], n) + h[k + 1..]
  {
  }

  lemma CarvedOk(h: Heap, k: nat, n: int, base: int)
    requires Ordered(h, base) && Coalesced(h) && k < |h| && h[k].free && 0 < n <= h[k].size
    ensures Ordered(CarvedAt(h, k, n), base) && Coalesced(CarvedAt(h, k, n))
    ensures forall u :: Owned(h, u) <==> Owned(CarvedAt(h, k, n), u)
  {
    CarvedParts(h, k, n);
    var x, m2, z := h[..k], Carving(h[k], n), h[k + 1..];
    assert Ordered(m2, base);
    hide Ordered, Owned, Coalesced, CarvedAt;
    ReplaceOrdered(x, [h[k]], m2, z, base);
    CarvedCoalesced(x, h[k], m2, z);
    forall u ensures Owned([h[k]], u) <==> Owned(m2, u) {
      CarvingOwned(h[k], n, u);
    }
    OwnedSame(x, [h[k]], m2, z);
  }

  lemma CarvingOwned(b: Blk, n: int, u: int)
    requires 0 < n <= b.size
    ensures Owned([b], u) <==> Owned(Carving(b, n), u)
  {
    var m2 := Carving(b, n);
    OwnedOne(b, u);
    OwnedOne(m2[0], u);
    if |m2| == 2 {
      assert m2 == [m2[0]] + [m2[1]];
      OwnedConcat([m2[0]], [m2[1]], u);
      OwnedOne(m2[1], u);
    }
    hide Owned;
  }

  lemma CarvedCoalesced(x: Heap, b: Blk, m2: Heap, z: Heap)
    requires Coalesced(x + [b] + z) && m2 != [] && !m2[|m2| - 1].free
    requires |m2| == 1 || (|m2| == 2 && m2[0].addr == b.addr && b.free)
    ensures Coalesced(x + m2 + z)
  {
    CoalescedConcat(x + [b], z);
    CoalescedConcat(x, [b]);
    CoalescedConcat(x, m2);
    CoalescedConcat(x + m2, z);
  }

  lemma CarvedSized(h: Heap, k: nat, n: int, base: int, size: map<int, int>)
    requires Ordered(h, base) && Sized(h, base, size) && k < |h| && 0 < n <= h[k].size
    ensures var rest := h[k].size - n;
      Sized(CarvedAt(h, k, n), base, if rest == 0 then size else size[h[k].addr := rest][h[k].addr + rest := n])
  {
    var rest, h2 := h[k].size - n, CarvedAt(h, k, n);
    var size2 := if rest == 0 then size else size[h[k].addr := rest][h[k].addr + rest := n];
    if rest != 0 {
      forall i | 0 <= i < |h2| ensures h2[i].addr in size2 && size2[h2[i].addr] == h2[i].size {
        if i < k {
          assert h2[i] == h[i];
          Distinct(h, base, i, k);
        } else if i > k + 1 {
          assert h2[i] == h[i - 1];
          assert h[k].addr + h[k].size <= h[i - 1].addr;
        }
      }
    } else {
      forall i | 0 <= i < |h2| ensures h2[i].addr in size2 && size2[h2[i].addr] == h2[i].size {
        assert h2[i].addr == h[i].addr && h2[i].size == h[i].size;
      }
    }
  }

  lemma TakenKept(h: Heap, k: nat, base: int, next: map<int, int>, p: int, t: int, v: int)
    requires Ordered(h, base) && Linked(h, base, next) && k < |h| && Before(h, base, p, t, k)
    ensures Kept(h[..k], h[k + 1..], base, next, next[p := v], p)
  {
    PlaceApart(h, base, p, t, k);
    var z, next2 := h[k + 1..], next[p := v];
    forall i | 0 <= i < |z| && z[i].free
      ensures z[i].addr in next2 && z[i].addr in next && next2[z[i].addr] == next[z[i].addr]
    {
      assert z[i] == h[k + 1 + i];
      Distinct(h, base, k, k + 1 + i);
      hide Ordered, First;
    }
    hide Ordered, First;
  }

  /** Unlinking an exact fit: the place before it leads past it. */
  lemma TakenLinked(h: Heap, k: nat, base: int, next: map<int, int>, p: int, t: int)
    requires Ordered(h, base) && Linked(h, base, next) && k < |h| && h[k].free && Before(h, base, p, t, k)
    ensures h[k].addr in next
    ensures Linked(CarvedAt(h, k, h[k].size), base, next[p := next[h[k].addr]])
  {
    Parts(h, k, k + 1);
    var x, m, m2, z := h[..k], h[k..k + 1], [h[k].(free := false)], h[k + 1..];
    var next2 := next[p := next[h[k].addr]];
    TakenKept(h, k, base, next, p, t, next[h[k].addr]);
    assert First(m2 + z, base) == First(z, base) by { assert (m2 + z)[0] == m2[0] && (m2 + z)[1..] == z; }
    assert !AnyFree(x[t + 1..]);
    assert MidLinked(m2, z, base, next2);
    hide Ordered, Linked, AnyFree, Kept, MidLinked, First;
    JoinLinked(x, m, m2, z, base, next, next2, p, t);
  }

  /** Cutting off the tail leaves every pointer as it is. */
  lemma CutLinked(h: Heap, k: nat, n: int, base: int, next: map<int, int>)
    requires Ordered(h, base) && Linked(h, base, next) && k < |h| && h[k].free && 0 < n < h[k].size
    ensures Linked(CarvedAt(h, k, n), base, next)
  {
    Parts(h, k, k + 1);
    var x, m, z := h[..k], h[k..k + 1], h[k + 1..];
    var m2 := [Blk(h[k].addr, h[k].size - n, true), Blk(h[k].addr + h[k].size - n, n, false)];
    assert (m2 + z)[0] == m2[0] && (m + z)[0] == h[k];
    assert next[h[k].addr] == First(z, base);
    var y := m2[1..] + z;
    assert y[0] == m2[1] && y[1..] == z;
    assert MidLinked(m2, z, base, next);
    forall i | 0 <= i < |z| && z[i].free ensures z[i].addr in next {
      assert z[i] == h[k + 1 + i];
    }
    hide MidLinked;
    DownLinked(x, m, m2, z, base, next, next);
  }

  lemma AppendLinked(h: Heap, x: Blk, base: int, next: map<int, int>)
    requires Linked(h, base, next) && !x.free
    ensures Linked(h + [x], base, next)
  {
    var h2 := h + [x];
    AppendFirst(h, x, base);
    forall i | 0 <= i < |h2| && h2[i].free ensures h2[i].addr in next && next[h2[i].addr] == First(h2[i + 1..], base) {
      assert h2[i] == h[i] && h2[i + 1..] == h[i + 1..] + [x];
      AppendFirst(h[i + 1..], x, base);
    }
  }

  lemma AppendFirst(h: Heap, x: Blk, base: int)
    requires !x.free
    ensures First(h + [x], base) == First(h, base)
  {
    FirstConcat(h, [x], base);
    FirstFound(h, base);
    assert [x][1..] == [];
  }

  /** morecore's new block, before it is freed. */
  lemma AppendOk(h: Heap, x: Blk, base: int, next: map<int, int>, size: map<int, int>)
    requires HeapOk(h, base, next, size) && base < x.addr && x.size > 0 && !x.free
    requires forall i :: 0 <= i < |h| ==> h[i].addr + h[i].size <= x.addr
    ensures HeapOk(h + [x], base, next, size[x.addr := x.size])
    ensures forall u :: Owned(h + [x], u) <==> Owned(h, u) || InBlk(x, u)
  {
    var h2, size2 := h + [x], size[x.addr := x.size];
    assert Ordered([x], base) && Below(h, [x]);
    OrderedConcat(h, [x], base);
    CoalescedConcat(h, [x]);
    AppendLinked(h, x, base, next);
    forall i | 0 <= i < |h2| ensures h2[i].addr in size2 && size2[h2[i].addr] == h2[i].size {
      if i < |h| { assert h2[i] == h[i] && h[i].addr < x.addr; }
    }
    hide Linked, Coalesced, Ordered;
    forall u ensures Owned(h2, u) <==> Owned(h, u) || InBlk(x, u) {
      OwnedConcat(h, [x], u);
      OwnedOne(x, u);
    }
  }

  // ---------------------------------------------------------------- blocks in use

  /** A block of n units at a is in use. */
  ghost predicate Live(h: Heap, a: int, n: int) {
    Blk(a, n, false) in h
  }

  lemma LiveReplace(x: Heap, m: Heap, z: Heap, a: int, n: int)
    ensures Live(x + m + z, a, n) <==> Live(x, a, n) || Live(m, a, n) || Live(z, a, n)
  {
  }

  /** Of the joined blocks only b itself can have been in use. */
  lemma LiveMid(h: Heap, b: nat, a: int, n: int)
    requires b < |h|
    ensures Live(h[Lo(h, b)..Hi(h, b)], a, n) <==> h[b] == Blk(a, n, false)
  {
    var lo, hi := Lo(h, b), Hi(h, b);
    var m := h[lo..hi];
    assert m[b - lo] == h[b];
    assert forall i :: 0 <= i < |m| ==> m[i] == h[lo + i] && (lo + i != b ==> m[i].free);
  }

  lemma OthersApart(h: Heap, base: int, b: nat, i: nat)
    requires Ordered(h, base) && b < |h| && i < |h| && i != b
    ensures h[i].addr != h[b].addr
  {
    if i < b { Distinct(h, base, i, b); } else { Distinct(h, base, b, i); }
  }

  /** free ends the life of its block and of no other. */
  lemma FreedLive(h: Heap, base: int, b: nat, a: int, n: int)
    requires Ordered(h, base) && b < |h|
    ensures Live(FreedAt(h, b), a, n) <==> Live(h, a, n) && a != h[b].addr
  {
    var lo, hi := Lo(h, b), Hi(h, b);
    LoHi(h, b);
    Parts(h, lo, hi);
    LiveReplace(h[..lo], h[lo..hi], h[hi..], a, n);
    LiveReplace(h[..lo], [FreeBlock(h, b)], h[hi..], a, n);
    LiveMid(h, b, a, n);
    forall i | 0 <= i < |h| && i != b ensures h[i].addr != h[b].addr {
      OthersApart(h, base, b, i);
    }
    hide Ordered, MergesUp, MergesDown, Lo, Hi;
  }

  lemma CarvedLive(h: Heap, k: nat, n: int, a: int, l: int)
    requires k < |h| && h[k].free && 0 < n <= h[k].size
    ensures Live(CarvedAt(h, k, n), a, l) <==> Live(h, a, l) || (a == h[k].addr + h[k].size - n && l == n)
  {
    CarvedParts(h, k, n);
    LiveReplace(h[..k], [h[k]], h[k + 1..], a, l);
    LiveReplace(h[..k], Carving(h[k], n), h[k + 1..], a, l);
  }
}
