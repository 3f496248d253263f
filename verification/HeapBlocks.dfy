/**
  The user heap as a sequence of blocks in address order, free and in use. An
  address counts headers (16 bytes each): a block of size n is its own header
  and n - 1 units behind it. The free list is the free blocks in address order,
  closed into a ring through the static header `base`, which lies below the heap.
*/
module HeapBlocks {
  const HEADER := 16

  datatype Blk = Blk(addr: int, size: int, free: bool)

  type Heap = seq<Blk>

  predicate InBlk(b: Blk, u: int) {
    b.addr <= u < b.addr + b.size
  }

  /** Unit u is in some block. */
  ghost predicate Owned(h: Heap, u: int) {
    exists i :: 0 <= i < |h| && InBlk(h[i], u)
  }

  lemma OwnedConcat(a: Heap, b: Heap, u: int)
    ensures Owned(a + b, u) <==> Owned(a, u) || Owned(b, u)
  {
    if Owned(a, u) {
      var i :| 0 <= i < |a| && InBlk(a[i], u);
      assert (a + b)[i] == a[i];
    }
    if Owned(b, u) {
      var i :| 0 <= i < |b| && InBlk(b[i], u);
      assert (a + b)[|a| + i] == b[i];
    }
  }

  /** The same units, possibly cut differently in the middle. */
  lemma OwnedSame(a: Heap, m: Heap, m2: Heap, b: Heap)
    requires forall u :: Owned(m, u) <==> Owned(m2, u)
    ensures forall u :: Owned(a + m + b, u) <==> Owned(a + m2 + b, u)
  {
    forall u ensures Owned(a + m + b, u) <==> Owned(a + m2 + b, u) {
      OwnedConcat(a + m, b, u);
      OwnedConcat(a, m, u);
      OwnedConcat(a + m2, b, u);
      OwnedConcat(a, m2, u);
    }
  }

  /** Blocks lie above base, one after the other. */
  predicate Ordered(h: Heap, base: int) {
    && (forall i :: 0 <= i < |h| ==> base < h[i].addr && h[i].size > 0)
    && (forall i, j :: 0 <= i < j < |h| ==> h[i].addr + h[i].size <= h[j].addr)
  }

  /** y starts where x ends. */
  predicate Touch(x: Blk, y: Blk) {
    x.addr + x.size == y.addr
  }

  /** Two blocks that could be one are not both free. */
  predicate Coalesced(h: Heap) {
    forall i :: 0 <= i && i + 1 < |h| ==> !(h[i].free && h[i + 1].free && Touch(h[i], h[i + 1]))
  }

  /** The address of the first free block, base if there is none. */
  function First(h: Heap, base: int): int {
    if h == [] then base else if h[0].free then h[0].addr else First(h[1..], base)
  }

  predicate AnyFree(h: Heap) {
    exists i :: 0 <= i < |h| && h[i].free
  }

  lemma {:induction false} FirstConcat(a: Heap, b: Heap, base: int)
    ensures First(a + b, base) == if AnyFree(a) then First(a, base) else First(b, base)
  {
    if a == [] {
      assert a + b == b;
    } else if a[0].free {
      assert (a + b)[0] == a[0];
    } else {
      assert (a + b)[0] == a[0] && (a + b)[1..] == a[1..] + b;
      FirstConcat(a[1..], b, base);
      if AnyFree(a) {
        var i :| 0 <= i < |a| && a[i].free;
        assert a[1..][i - 1].free;
      }
    }
  }

  /** First finds a free block, with none before it. */
  lemma {:induction false} FirstFound(h: Heap, base: int)
    ensures AnyFree(h) ==> exists i :: 0 <= i < |h| && h[i].free && First(h, base) == h[i].addr && !AnyFree(h[..i])
    ensures !AnyFree(h) ==> First(h, base) == base
  {
    if h != [] {
      if h[0].free {
        assert !AnyFree(h[..0]);
      } else {
        FirstFound(h[1..], base);
        if AnyFree(h) {
          var k :| 0 <= k < |h| && h[k].free;
          assert h[1..][k - 1].free;
          var i :| 0 <= i < |h[1..]| && h[1..][i].free
            && First(h[1..], base) == h[1..][i].addr && !AnyFree(h[1..][..i]);
          assert h[i + 1].free;
          var front := h[..i + 1];
          forall j | 0 <= j < i + 1 ensures !front[j].free {
            if j > 0 { assert h[1..][..i][j - 1] == front[j]; }
          }
        } else {
          assert forall i :: 0 <= i < |h[1..]| ==> h[1..][i] == h[i + 1];
        }
      }
    }
  }

  /** The pointers: base and every free block lead to the next free block, and round to base. */
  predicate Linked(h: Heap, base: int, next: map<int, int>) {
    && base in next && next[base] == First(h, base)
    && forall i :: 0 <= i < |h| && h[i].free ==> h[i].addr in next && next[h[i].addr] == First(h[i + 1..], base)
  }

  predicate Sized(h: Heap, base: int, size: map<int, int>) {
    && base in size && size[base] == 0
    && forall i :: 0 <= i < |h| ==> h[i].addr in size && size[h[i].addr] == h[i].size
  }

  /** What every call keeps. */
  predicate HeapOk(h: Heap, base: int, next: map<int, int>, size: map<int, int>) {
    Ordered(h, base) && Coalesced(h) && Linked(h, base, next) && Sized(h, base, size)
  }

  /** p is a place of the ring: base (-1) or free block k. */
  predicate Place(h: Heap, base: int, p: int, k: int) {
    -1 <= k < |h| && (if k == -1 then p == base else h[k].free && p == h[k].addr)
  }

  /** The next place of the ring after k. */
  lemma NextPlace(h: Heap, base: int, next: map<int, int>, p: int, k: int) returns (k2: int)
    requires Ordered(h, base) && Linked(h, base, next) && Place(h, base, p, k)
    ensures p in next && Place(h, base, next[p], k2)
    ensures k2 == -1 || k2 > k
    ensures forall i :: k < i < (if k2 == -1 then |h| else k2) ==> !h[i].free
  {
    var rest := h[k + 1..];
    if k == -1 { assert rest == h; }
    FirstFound(rest, base);
    if AnyFree(rest) {
      var i :| 0 <= i < |rest| && rest[i].free && First(rest, base) == rest[i].addr && !AnyFree(rest[..i]);
      k2 := k + 1 + i;
      forall j | k < j < k2 ensures !h[j].free {
        assert rest[..i][j - k - 1] == h[j];
      }
    } else {
      k2 := -1;
      forall j | k < j < |h| ensures !h[j].free {
        assert rest[j - k - 1] == h[j];
      }
    }
  }

  // --------------------------------------------------------- replacing a few blocks

  /** Pointers outside the replaced blocks m that stay as they are. */
  predicate Kept(a: Heap, b: Heap, base: int, next: map<int, int>, next2: map<int, int>, except: int) {
    && (base != except ==> base in next2 && base in next && next2[base] == next[base])
    && (forall i :: 0 <= i < |a| && a[i].free && a[i].addr != except ==>
          a[i].addr in next && a[i].addr in next2 && next2[a[i].addr] == next[a[i].addr])
    && (forall i :: 0 <= i < |b| && b[i].free ==>
          b[i].addr in next && b[i].addr in next2 && next2[b[i].addr] == next[b[i].addr])
  }

  /** The new middle blocks are linked up to what follows. */
  predicate MidLinked(m: Heap, b: Heap, base: int, next: map<int, int>) {
    forall i :: 0 <= i < |m| && m[i].free ==> m[i].addr in next && next[m[i].addr] == First(m[i + 1..] + b, base)
  }

  lemma SuffixOf(a: Heap, m: Heap, b: Heap, i: nat)
    requires i < |a| + |m| + |b|
    ensures (a + m + b)[i + 1..] ==
      if i < |a| then a[i + 1..] + (m + b) else if i < |a| + |m| then m[i - |a| + 1..] + b else b[i - |a| - |m| + 1..]
    ensures (a + m + b)[i] == if i < |a| then a[i] else if i < |a| + |m| then m[i - |a|] else b[i - |a| - |m|]
  {
  }

  /** The middle still starts at the same free block: nobody before it needs to know. */
  lemma ReplaceLinked(a: Heap, m: Heap, m2: Heap, b: Heap, base: int, next: map<int, int>, next2: map<int, int>, t: int)
    requires Linked(a + m + b, base, next) && -1 <= t < |a|
    requires MidLinked(m2, b, base, next2) && Kept(a, b, base, next, next2, if t == -1 then base else a[t].addr)
    requires t == -1 ==> base in next2 && next2[base] == First(a + (m2 + b), base)
    requires t >= 0 && a[t].free ==> a[t].addr in next2 && next2[a[t].addr] == First(a[t + 1..] + (m2 + b), base)
    requires forall i :: 0 <= i < |a| && a[i].free && i != t && !AnyFree(a[i + 1..]) ==>
      First(m2 + b, base) == First(m + b, base)
    requires t != -1 && !AnyFree(a) ==> First(m2 + b, base) == First(m + b, base)
    requires forall i :: 0 <= i < |a| && a[i].free && i != t ==> a[i].addr != (if t == -1 then base else a[t].addr)
    requires t != -1 ==> a[t].addr != base
    ensures Linked(a + m2 + b, base, next2)
  {
    var h, h2 := a + m + b, a + m2 + b;
    assert h == a + (m + b) && h2 == a + (m2 + b);
    FirstConcat(a, m + b, base);
    FirstConcat(a, m2 + b, base);
    forall i | 0 <= i < |h2| && h2[i].free
      ensures h2[i].addr in next2 && next2[h2[i].addr] == First(h2[i + 1..], base)
    {
      SuffixOf(a, m2, b, i);
      if i < |a| {
        SuffixOf(a, m, b, i);
        assert h[i].free;
        FirstConcat(a[i + 1..], m + b, base);
        FirstConcat(a[i + 1..], m2 + b, base);
      } else if i >= |a| + |m2| {
        SuffixOf(a, m, b, i - |m2| + |m|);
        assert h[i - |m2| + |m|].free;
      }
    }
  }

  /** Everything in a ends before everything in b begins. */
  predicate Below(a: Heap, b: Heap) {
    forall i, j :: 0 <= i < |a| && 0 <= j < |b| ==> a[i].addr + a[i].size <= b[j].addr
  }

  lemma OrderedConcat(a: Heap, b: Heap, base: int)
    ensures Ordered(a + b, base) <==> Ordered(a, base) && Ordered(b, base) && Below(a, b)
  {
    var h := a + b;
    assert forall i :: 0 <= i < |a| ==> h[i] == a[i];
    assert forall j :: 0 <= j < |b| ==> h[|a| + j] == b[j];
    if Ordered(h, base) {
      forall i, j | 0 <= i < j < |b| ensures b[i].addr + b[i].size <= b[j].addr {
        assert h[|a| + i] == b[i];
      }
    }
    if Ordered(a, base) && Ordered(b, base) && Below(a, b) {
      forall i, j | 0 <= i < j < |h| ensures h[i].addr + h[i].size <= h[j].addr {
        if i >= |a| { assert h[i] == b[i - |a|] && h[j] == b[j - |a|]; }
        else if j >= |a| { assert h[j] == b[j - |a|]; }
      }
    }
  }

  /** Blocks replaced by blocks on the same ground stay in order. */
  lemma ReplaceOrdered(a: Heap, m: Heap, m2: Heap, b: Heap, base: int)
    requires Ordered(a + m + b, base) && Ordered(m2, base) && m != [] && m2 != []
    requires m2[0].addr == m[0].addr && m2[|m2| - 1].addr + m2[|m2| - 1].size == m[|m| - 1].addr + m[|m| - 1].size
    ensures Ordered(a + m2 + b, base)
  {
    OrderedConcat(a + m, b, base);
    OrderedConcat(a, m, base);
    OrderedConcat(a, m2, base);
    OrderedConcat(a + m2, b, base);
    MidBounds(m2, base);
    BelowConcat(a, m, b);
    BelowConcat(a, m2, b);
    hide Ordered;
  }

  lemma BelowConcat(a: Heap, m: Heap, b: Heap)
    ensures Below(a + m, b) <==> Below(a, b) && Below(m, b)
  {
    assert forall i :: 0 <= i < |a| ==> (a + m)[i] == a[i];
    assert forall i :: 0 <= i < |m| ==> (a + m)[|a| + i] == m[i];
  }

  lemma MidBounds(m: Heap, base: int)
    requires Ordered(m, base) && m != []
    ensures forall i :: 0 <= i < |m| ==>
      m[0].addr <= m[i].addr && m[i].addr + m[i].size <= m[|m| - 1].addr + m[|m| - 1].size
  {
  }
}
