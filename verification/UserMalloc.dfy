module UserMalloc {
  // umalloc.c: headers are cells of a map from address to the pointer and size they
  // hold, freep is the ring position where the last search ended. The ghost heap is
  // the sequence of all blocks the allocator has ever obtained.

  import opened Wrappers
  import opened HeapBlocks
  import opened HeapOps

  /** Headers for nbytes: the block's own one and enough for the bytes. */
  function UnitsFor(nbytes: nat): (n: nat)
    ensures n >= 1 && (n - 1) * HEADER >= nbytes && (n - 1) * HEADER < nbytes + HEADER
  {
    (nbytes + HEADER - 1) / HEADER + 1
  }

  /** The int argument that sbrk receives for x bytes. */
  function ToInt(x: nat): int {
    var r := x % 0x1_0000_0000;
    if r < 0x8000_0000 then r else r - 0x1_0000_0000
  }

  const LARGEST := 0x7fff_ffe0

  /** The units morecore asks for on behalf of a request. */
  function CoreUnits(nbytes: nat): nat {
    var nu := UnitsFor(nbytes);
    if nu < 4096 then 4096 else nu
  }

  /**
    morecore asks the kernel for as many bytes as the block it makes: this holds
    exactly for requests up to LARGEST bytes.
  */
  lemma MorecoreAsks(nbytes: nat)
    requires nbytes < 0x1_0000_0000
    ensures ToInt(CoreUnits(nbytes) * HEADER) == CoreUnits(nbytes) * HEADER <==> nbytes <= LARGEST
  {
    var nu := UnitsFor(nbytes);
    if nu >= 4096 {
      assert nu * HEADER < 0x1_0000_0000 + 2 * HEADER;
    }
  }

  /** The largest request of all: sbrk is asked for 16 bytes and the header claims 4 GiB. */
  lemma HugeRequest()
    ensures UnitsFor(0xffff_ffff) * HEADER == 0x1_0000_0010 && ToInt(UnitsFor(0xffff_ffff) * HEADER) == 16
  {
  }

  lemma AddrOrder(h: Heap, base: int, i: int, j: int)
    requires Ordered(h, base) && -1 <= i < |h| && -1 <= j < |h|
    ensures i >= 0 ==> base < h[i].addr
    ensures j >= 0 ==> base < h[j].addr
    ensures 0 <= i < j ==> h[i].addr < h[j].addr
    ensures 0 <= j < i ==> h[j].addr < h[i].addr
  {
  }

  /** Where free's search stops: the place just before the block. */
  lemma SearchStops(h: Heap, base: int, next: map<int, int>, p: int, t: int, b: nat)
    requires Ordered(h, base) && Linked(h, base, next) && Place(h, base, p, t) && b < |h| && !h[b].free && p in next
    requires (h[b].addr > p && h[b].addr < next[p]) || (p >= next[p] && (h[b].addr > p || h[b].addr < next[p]))
    ensures Before(h, base, p, t, b)
  {
    var k := NextPlace(h, base, next, p, t);
    AddrOrder(h, base, t, b);
    AddrOrder(h, base, k, b);
    AddrOrder(h, base, t, k);
    hide Ordered, Linked;
  }

  /** Otherwise the search gets closer, at most once through base. */
  lemma SearchGoesOn(h: Heap, base: int, next: map<int, int>, p: int, t: int, b: nat) returns (k: int)
    requires Ordered(h, base) && Linked(h, base, next) && Place(h, base, p, t) && b < |h| && !h[b].free && p in next
    requires !(h[b].addr > p && h[b].addr < next[p]) && !(p >= next[p] && (h[b].addr > p || h[b].addr < next[p]))
    ensures Place(h, base, next[p], k)
    ensures if t > b then k > t || k == -1 else t < k < b
  {
    k := NextPlace(h, base, next, p, t);
    AddrOrder(h, base, t, b);
    AddrOrder(h, base, k, b);
    hide Ordered, Linked;
  }

  /** Free block k is still to be visited by malloc's search, now at place q, begun after place f. */
  predicate Ahead(f: int, q: int, k: int) {
    if q > f then k >= q || k <= f else q <= k <= f
  }

  class Allocator {
    const base: int
    var started: bool                // freep != 0
    var freep: int
    var next: map<int, int>
    var size: map<int, int>
    ghost var h: Heap
    ghost var f: int                 // the place freep is at

    constructor (base: int)
      ensures Valid() && h == [] && this.base == base
    {
      this.base := base;
      started, freep, next, size := false, 0, map[], map[];
      h, f := [], -1;
    }

    ghost predicate Valid()
      reads this
    {
      && -1 <= f < |h|
      && (!started ==> h == [])
      && (started ==> HeapOk(h, base, next, size) && Place(h, base, freep, f))
    }

    /** free of a pointer that malloc returned and that has not been freed since: block b. */
    method Free(ap: int, ghost b: nat)
      requires Valid() && started && b < |h| && !h[b].free && ap == h[b].addr + 1
      modifies this
      ensures Valid() && started
      ensures h == FreedAt(old(h), b)
    {
      hide Linked, Ordered, Coalesced, HeapBlocks.Sized, Before, FreeWrites, FreePointers, Place;
      var bp := ap - 1;
      var p := freep;
      ghost var t := f;
      PlaceNext(h, base, next, size, p, t);
      while !(bp > p && bp < next[p])
        invariant unchanged(this)
        invariant -1 <= t < |h| && Place(h, base, p, t) && t != b && p in next
        decreases if t > b then 1 else 0, |h| - t
      {
        if p >= next[p] && (bp > p || bp < next[p]) {
          break;
        }
        t := SearchGoesOn(h, base, next, p, t, b);
        p := next[p];
        PlaceNext(h, base, next, size, p, t);
        PlaceFree(h, base, p, t, b);
      }
      SearchStops(h, base, next, p, t, b);
      Splice(bp, p, b, t);
    }

    /** The two coalescing tests and the pointer updates of free. */
    method Splice(bp: int, p: int, ghost b: nat, ghost t: int)
      requires Valid() && started && b < |h| && !h[b].free && bp == h[b].addr && Before(h, base, p, t, b)
      modifies this
      ensures Valid() && started
      ensures h == FreedAt(old(h), b)
    {
      hide Linked, Ordered, Coalesced, HeapBlocks.Sized, Before;
      ghost var h0, next0, size0 := h, next, size;
      SpliceFacts(h, base, next, size, p, t, b);
      if bp + size[bp] == next[p] {
        var q := next[p];
        size := size[bp := size[bp] + size[q]];
        next := next[bp := next[q]];
      } else {
        next := next[bp := next[p]];
      }
      if p + size[p] == bp {
        size := size[p := size[p] + size[bp]];
        next := next[p := next[bp]];
      } else {
        next := next[p := bp];
      }
      freep := p;
      SpliceWrites(h0, base, p, t, b, next0, size0, next, size);
      FreedInv(h0, base, p, t, b, next0, size0, next, size);
      FreedPlaceKept(h0, base, p, t, b);
      h, f := FreedAt(h0, b), t;
    }

    /** morecore: a region of at least nu units at grant, where the kernel extends the heap, or 0. */
    method Morecore(nu: nat, grant: Option<int>) returns (ok: bool)
      requires Valid() && started && nu > 0
      requires grant.Some? ==> base < grant.value && forall i :: 0 <= i < |h| ==> h[i].addr + h[i].size <= grant.value
      modifies this
      ensures Valid() && started
      ensures ok == grant.Some?
      ensures if ok then h == Grown(old(h), grant.value, if nu < 4096 then 4096 else nu) else unchanged(this)
      ensures ok ==> exists k :: 0 <= k < |h| && h[k].free && h[k].size >= nu
    {
      hide Linked, Ordered, Coalesced, HeapBlocks.Sized;
      var n := if nu < 4096 then 4096 else nu;
      if grant.None? {
        return false;
      }
      var hp := grant.value;
      AppendOk(h, Blk(hp, n, false), base, next, size);
      GrownHas(h, hp, n, base);
      size := size[hp := n];
      h := h + [Blk(hp, n, false)];
      Free(hp + 1, |h| - 1);
      return true;
    }

    /** malloc: None is the null pointer, when no block is large enough and the kernel gives none. */
    method Malloc(nbytes: nat, grant: Option<int>) returns (r: Option<int>, ghost h1: Heap, ghost k: nat)
      requires Valid() && nbytes < 0x1_0000_0000 && (grant.Some? ==> nbytes <= LARGEST)
      requires grant.Some? ==> base < grant.value && forall i :: 0 <= i < |h| ==> h[i].addr + h[i].size <= grant.value
      modifies this
      ensures Valid() && started
      ensures r.None? ==> grant.None? && h == old(h) && forall i :: 0 <= i < |h| && h[i].free ==>
        h[i].size < UnitsFor(nbytes)
      ensures r.Some? ==> FromOld(old(h), h1, UnitsFor(nbytes), grant)
      ensures r.Some? ==> Carves(h1, k, UnitsFor(nbytes), h, r.value - 1)
    {
      hide Linked, Ordered, Coalesced, HeapBlocks.Sized, Place, Step, AllAhead, Ahead, CarvedAt, HeapOk;
      ghost var h0 := h;
      var nunits := UnitsFor(nbytes);
      if !started {
        Start();
      }
      h1, k := h, 0;
      var prevp := freep;
      ghost var pp := f;
      ghost var q := RingStep(h, base, next, size, freep, f);
      var p := next[prevp];
      StartAhead(h, nunits, f, q);
      ghost var grown := false;
      while true
        invariant Valid() && started && FromOld(h0, h, nunits, grant) && -1 <= q < |h|
        invariant Place(h, base, prevp, pp) && Place(h, base, p, q) && Step(h, pp, q) && AllAhead(h, nunits, f, q)
        invariant p in size && size[p] == if q == -1 then 0 else h[q].size
        invariant grown ==> exists j :: 0 <= j < |h| && h[j].free && h[j].size >= nunits
        invariant !grown ==> h == h0
        decreases if grown then 0 else 1, if q > f then 1 else 0, |h| - q
      {
        if size[p] >= nunits {
          h1, k := h, q;
          var at := Carve(prevp, p, nunits, pp, q);
          return Some(at + 1), h1, k;
        }
        FreepPlace(h, base, next, size, freep, f, p, q);
        if p == freep {
          NoneLeft(h, nunits, f);
          assert !grown;
          var ok := Morecore(nunits, grant);
          if !ok {
            return None, h1, k;
          }
          grown := true;
          p := freep;
          q := f;
          prevp, pp := p, q;
          q := RingStep(h, base, next, size, p, pp);
          p := next[p];
          StartAhead(h, nunits, f, q);
        } else {
          ghost var q2 := RingStep(h, base, next, size, p, q);
          KeepAhead(h, nunits, f, q, q2);
          prevp, pp := p, q;
          p, q := next[p], q2;
        }
      }
    }

    /** The first call: base alone is the ring. */
    method Start()
      requires Valid() && !started
      modifies this
      ensures Valid() && started && h == old(h)
    {
      next, size := next[base := base], size[base := 0];
      freep := base;
      started := true;
      f := -1;
    }

    /** Taking nunits from the block at p. */
    method Carve(prevp: int, p: int, nunits: nat, ghost pp: int, ghost q: nat) returns (at: int)
      requires Valid() && started && q < |h| && 0 < nunits <= h[q].size
      requires Place(h, base, prevp, pp) && Place(h, base, p, q) && Step(h, pp, q)
      modifies this
      ensures Valid() && started
      ensures Carves(old(h), q, nunits, h, at)
    {
      hide Linked, Ordered, Coalesced, HeapBlocks.Sized, Step, CarvedAt;
      CarvedInv(h, base, next, size, prevp, pp, q, nunits);
      CarvedSizeAt(h, base, size, q);
      ghost var h0 := h;
      at := p;
      if size[p] == nunits {
        next := next[prevp := next[p]];
      } else {
        size := size[p := size[p] - nunits];
        at := p + size[p];
        size := size[at := nunits];
      }
      freep := prevp;
      h, f := CarvedAt(h0, q, nunits), pp;
    }
  }

  lemma CarvedSizeAt(h: Heap, base: int, size: map<int, int>, q: nat)
    requires HeapBlocks.Sized(h, base, size) && q < |h|
    ensures h[q].addr in size && size[h[q].addr] == h[q].size
  {
  }

  /** freep and the search are at the same address exactly when they are at the same place. */
  lemma FreepPlace(h: Heap, base: int, next: map<int, int>, size: map<int, int>, freep: int, f: int, p: int, q: int)
    requires HeapOk(h, base, next, size) && Place(h, base, freep, f) && Place(h, base, p, q)
    ensures p == freep <==> q == f
    ensures -1 <= f < |h| && (f >= 0 ==> h[f].free)
  {
    AddrOrder(h, base, f, q);
  }

  /** From place pp the ring leads to place q. */
  predicate Step(h: Heap, pp: int, q: int) {
    && -1 <= pp < |h| && -1 <= q < |h| && (q == -1 || pp < q) && (q >= 0 ==> h[q].free)
    && forall i :: pp < i < (if q == -1 then |h| else q) ==> !h[i].free
  }

  /** Every block that is large enough is still to come. */
  predicate AllAhead(h: Heap, n: int, f: int, q: int) {
    forall k :: 0 <= k < |h| && h[k].free && h[k].size >= n ==> Ahead(f, q, k)
  }

  lemma RingStep(h: Heap, base: int, next: map<int, int>, size: map<int, int>, p: int, pp: int) returns (q: int)
    requires HeapOk(h, base, next, size) && Place(h, base, p, pp)
    ensures p in next && next[p] in size && Place(h, base, next[p], q) && Step(h, pp, q) && -1 <= q < |h|
    ensures size[next[p]] == if q == -1 then 0 else h[q].size
  {
    q := NextPlace(h, base, next, p, pp);
    hide Ordered, Coalesced, First;
  }

  /** Right after freep everything is ahead. */
  lemma StartAhead(h: Heap, n: int, f: int, q: int)
    requires Step(h, f, q)
    ensures AllAhead(h, n, f, q)
  {
  }

  /** Past a place that is not large enough, the rest is ahead. */
  lemma KeepAhead(h: Heap, n: int, f: int, q: int, q2: int)
    requires AllAhead(h, n, f, q) && -1 <= f < |h| && (f >= 0 ==> h[f].free) && Step(h, q, q2) && q != f
    requires q >= 0 ==> h[q].size < n
    ensures AllAhead(h, n, f, q2)
    ensures if q > f then q2 > q || q2 == -1 else q2 > q && q2 <= f
  {
  }

  /** Back at freep without a find: no block is large enough. */
  lemma NoneLeft(h: Heap, n: int, f: int)
    requires AllAhead(h, n, f, f) && -1 <= f < |h| && (f >= 0 ==> h[f].size < n)
    ensures forall k :: 0 <= k < |h| && h[k].free ==> h[k].size < n
  {
  }

  /** The heap after morecore. */
  function Grown(h: Heap, at: int, nu: nat): Heap {
    FreedAt(h + [Blk(at, nu, false)], |h|)
  }

  lemma GrownHas(h: Heap, at: int, nu: nat, base: int)
    requires Ordered(h + [Blk(at, nu, false)], base)
    ensures exists k :: 0 <= k < |Grown(h, at, nu)| && Grown(h, at, nu)[k].free && Grown(h, at, nu)[k].size >= nu
  {
    var g, b := h + [Blk(at, nu, false)], |h|;
    var k := Lo(g, b);
    assert Grown(h, at, nu)[k] == FreeBlock(g, b);
  }

  /** What a successful malloc did: n units cut from free block k of h1. */
  ghost predicate Carves(h1: Heap, k: nat, n: nat, h2: Heap, a: int) {
    && k < |h1| && h1[k].free && 0 < n <= h1[k].size
    && h2 == CarvedAt(h1, k, n) && a == h1[k].addr + h1[k].size - n
  }

  /** The heap malloc cut from: the old one, or the old one with a new region. */
  ghost predicate FromOld(h: Heap, h1: Heap, n: nat, grant: Option<int>) {
    || h1 == h
    || (grant.Some? && h1 == Grown(h, grant.value, if n < 4096 then 4096 else n)
        && forall k :: 0 <= k < |h| && h[k].free ==> h[k].size < n)
  }

  lemma CarvedInv(h: Heap, base: int, next: map<int, int>, size: map<int, int>, prevp: int, pp: int, k: nat, n: nat)
    requires HeapOk(h, base, next, size) && k < |h| && h[k].free && 0 < n <= h[k].size
    requires Place(h, base, prevp, pp) && Step(h, pp, k)
    ensures h[k].addr in next
    ensures Place(CarvedAt(h, k, n), base, prevp, pp)
    ensures if h[k].size == n then HeapOk(CarvedAt(h, k, n), base, next[prevp := next[h[k].addr]], size)
            else HeapOk(CarvedAt(h, k, n), base, next,
                        size[h[k].addr := h[k].size - n][h[k].addr + (h[k].size - n) := n])
  {
    assert Before(h, base, prevp, pp, k);
    assert pp >= 0 ==> CarvedAt(h, k, n)[pp] == h[pp];
    hide Ordered, Coalesced, Linked, HeapBlocks.Sized, CarvedAt, Before, Step;
    CarvedOk(h, k, n, base);
    CarvedSized(h, k, n, base, size);
    if h[k].size == n { TakenLinked(h, k, base, next, prevp, pp); } else { CutLinked(h, k, n, base, next); }
    LinkedKnows(h, base, next, k);
  }

  lemma LinkedKnows(h: Heap, base: int, next: map<int, int>, k: nat)
    requires Linked(h, base, next) && k < |h| && h[k].free
    ensures h[k].addr in next
  {
  }

  lemma PlaceNext(h: Heap, base: int, next: map<int, int>, size: map<int, int>, p: int, t: int)
    requires HeapOk(h, base, next, size) && Place(h, base, p, t)
    ensures -1 <= t < |h| && p in next && p in size
    ensures t >= 0 ==> h[t].free
  {
  }

  lemma PlaceFree(h: Heap, base: int, p: int, t: int, b: nat)
    requires Place(h, base, p, t) && b < |h| && !h[b].free
    ensures t != b && -1 <= t < |h|
  {
  }

  lemma SpliceFacts(h: Heap, base: int, next: map<int, int>, size: map<int, int>, p: int, t: int, b: nat)
    requires HeapOk(h, base, next, size) && b < |h| && !h[b].free && Before(h, base, p, t, b)
    ensures p in next && p in size && h[b].addr in size && size[h[b].addr] == h[b].size && p < h[b].addr
    ensures (h[b].addr + h[b].size == next[p]) <==> MergesUp(h, b)
    ensures MergesUp(h, b) ==>
      next[p] == h[b + 1].addr && next[p] in size && next[p] in next && next[p] != h[b].addr && next[p] != p
    ensures (p + size[p] == h[b].addr) <==> MergesDown(h, b)
  {
    NextOf(h, base, next, p, t, b);
    UpTest(h, base, b);
    DownTest(h, base, p, t, b);
    PlaceApart(h, base, p, t, b);
    if MergesUp(h, b) { Distinct(h, base, b, b + 1); }
    hide Ordered, Coalesced, First;
  }

  /** The assignments of free, with the tests replaced by what they mean. */
  lemma SpliceWrites(h: Heap, base: int, p: int, t: int, b: nat, next: map<int, int>, size: map<int, int>,
                     next2: map<int, int>, size2: map<int, int>)
    requires HeapOk(h, base, next, size) && b < |h| && !h[b].free && Before(h, base, p, t, b)
    requires p in next && p in size && h[b].addr in size && (MergesUp(h, b) ==> next[p] in size && next[p] in next)
    requires var bp := h[b].addr;
      var up := bp + size[bp] == next[p];
      var size1 := if up && MergesUp(h, b) then size[bp := size[bp] + size[next[p]]] else size;
      var next1 := if up && MergesUp(h, b) then next[bp := next[next[p]]] else next[bp := next[p]];
      if MergesDown(h, b) then p in size1 && bp in size1 && size2 == size1[p := size1[p] + size1[bp]]
      && next2 == next1[p := next1[bp]]
      else size2 == size1 && next2 == next1[p := bp]
    ensures FreeWrites(h, p, b, next, size, next2, size2)
  {
    SpliceFacts(h, base, next, size, p, t, b);
    hide Ordered, Coalesced, Linked, HeapBlocks.Sized;
    assert size[h[b].addr := h[b].size] == size;
  }

  lemma FreedInv(h: Heap, base: int, p: int, t: int, b: nat, next: map<int, int>, size: map<int, int>,
                 next2: map<int, int>, size2: map<int, int>)
    requires HeapOk(h, base, next, size) && b < |h| && !h[b].free && Before(h, base, p, t, b)
    requires FreeWrites(h, p, b, next, size, next2, size2)
    ensures HeapOk(FreedAt(h, b), base, next2, size2)
  {
    hide Ordered, Coalesced, Linked, HeapBlocks.Sized, FreedAt, Before, FreeWrites, FreePointers;
    FreedOrdered(h, b, base);
    FreedCoalesced(h, b);
    FreedSized(h, base, p, t, b, next, size, next2, size2);
    FreePointersHold(h, base, p, t, b, next, size, next2, size2);
    FreedLinked(h, base, p, t, b, next, next2);
  }

  /** p is still a place of the ring. */
  lemma FreedPlaceKept(h: Heap, base: int, p: int, t: int, b: nat)
    requires Ordered(h, base) && b < |h| && Before(h, base, p, t, b)
    ensures Place(FreedAt(h, b), base, p, t)
  {
    DownTest(h, base, p, t, b);
    if t >= 0 {
      if t < Lo(h, b) {
        assert FreedAt(h, b)[t] == h[t];
      } else {
        assert FreedAt(h, b)[t] == FreeBlock(h, b);
      }
    }
  }

  // ------------------------------------------------------------------ what it all means

  /** The bytes of the region the kernel granted. */
  predicate InGrant(h1: Heap, h: Heap, grant: Option<int>, n: nat, u: int) {
    h1 != h && grant.Some? && grant.value <= u < grant.value + (if n < 4096 then 4096 else n)
  }

  lemma GrownMeaning(h: Heap, base: int, at: int, nu: nat)
    requires Ordered(h, base) && Coalesced(h) && base < at && nu > 0
    requires forall i :: 0 <= i < |h| ==> h[i].addr + h[i].size <= at
    ensures Ordered(Grown(h, at, nu), base) && Coalesced(Grown(h, at, nu))
    ensures forall a, n :: Live(Grown(h, at, nu), a, n) <==> Live(h, a, n)
    ensures forall u :: Owned(Grown(h, at, nu), u) <==> Owned(h, u) || at <= u < at + nu
  {
    hide Ordered, Coalesced, Live, Owned, FreedAt;
    var x := Blk(at, nu, false);
    var g := h + [x];
    AppendedOk(h, x, base);
    FreedOrdered(g, |h|, base);
    FreedCoalesced(g, |h|);
    forall a, n ensures Live(Grown(h, at, nu), a, n) <==> Live(h, a, n) {
      GrownLive(h, x, base, a, n);
    }
    FreedOwned(g, |h|, base);
    forall u ensures Owned(Grown(h, at, nu), u) <==> Owned(h, u) || at <= u < at + nu {
      OwnedConcat(h, [x], u);
      OwnedOne(x, u);
    }
  }

  lemma AppendedOk(h: Heap, x: Blk, base: int)
    requires Ordered(h, base) && Coalesced(h) && base < x.addr && x.size > 0 && !x.free
    requires forall i :: 0 <= i < |h| ==> h[i].addr + h[i].size <= x.addr
    ensures Ordered(h + [x], base) && Coalesced(h + [x])
  {
    assert Ordered([x], base) && Below(h, [x]) && Coalesced([x]);
    OrderedConcat(h, [x], base);
    CoalescedConcat(h, [x]);
    hide Ordered, Coalesced;
  }

  lemma GrownLive(h: Heap, x: Blk, base: int, a: int, n: int)
    requires Ordered(h + [x], base) && !x.free
    ensures Live(FreedAt(h + [x], |h|), a, n) <==> Live(h, a, n)
  {
    var g := h + [x];
    FreedLive(g, base, |h|, a, n);
    forall i | 0 <= i < |h| ensures h[i].addr != x.addr {
      OthersApart(g, base, |h|, i);
    }
    hide Ordered, FreedAt;
  }

  /**
    A successful malloc adds one block in use, large enough and apart from all
    others, keeps every other one, and owns what it owned and what the kernel gave.
  */
  lemma MallocMeaning(h: Heap, h1: Heap, k: nat, nbytes: nat, h2: Heap, a: int, base: int, grant: Option<int>)
    requires Ordered(h, base) && Coalesced(h)
    requires grant.Some? ==> base < grant.value && forall i :: 0 <= i < |h| ==> h[i].addr + h[i].size <= grant.value
    requires FromOld(h, h1, UnitsFor(nbytes), grant) && Carves(h1, k, UnitsFor(nbytes), h2, a)
    ensures Ordered(h2, base) && Coalesced(h2)
    ensures forall b, l :: Live(h2, b, l) <==> Live(h, b, l) || (b == a && l == UnitsFor(nbytes))
    ensures forall u :: Owned(h2, u) <==> Owned(h, u) || InGrant(h1, h, grant, UnitsFor(nbytes), u)
    ensures (UnitsFor(nbytes) - 1) * HEADER >= nbytes
  {
    var n := UnitsFor(nbytes);
    if h1 != h { GrownMeaning(h, base, grant.value, if n < 4096 then 4096 else n); }
    CarvedOk(h1, k, n, base);
    forall b, l ensures Live(h2, b, l) <==> Live(h, b, l) || (b == a && l == n) {
      CarvedLive(h1, k, n, b, l);
    }
    hide Live, Owned, Ordered, Coalesced, CarvedAt, Grown;
  }

  /** Blocks in use never overlap. */
  lemma LiveApart(h: Heap, base: int, a: int, n: int, b: int, l: int)
    requires Ordered(h, base) && Live(h, a, n) && Live(h, b, l) && (a, n) != (b, l)
    ensures a + n <= b || b + l <= a
  {
    var i :| 0 <= i < |h| && h[i] == Blk(a, n, false);
    var j :| 0 <= j < |h| && h[j] == Blk(b, l, false);
    assert i < j || j < i;
  }

  /** free ends the life of one block and owns what it owned. */
  lemma FreeMeaning(h: Heap, base: int, b: nat)
    requires Ordered(h, base) && Coalesced(h) && b < |h|
    ensures Ordered(FreedAt(h, b), base) && Coalesced(FreedAt(h, b))
    ensures forall a, n :: Live(FreedAt(h, b), a, n) <==> Live(h, a, n) && a != h[b].addr
    ensures forall u :: Owned(FreedAt(h, b), u) <==> Owned(h, u)
  {
    FreedOrdered(h, b, base);
    FreedCoalesced(h, b);
    FreedOwned(h, b, base);
    forall a, n ensures Live(FreedAt(h, b), a, n) <==> Live(h, a, n) && a != h[b].addr {
      FreedLive(h, base, b, a, n);
    }
    hide Ordered, Coalesced, Owned, Live;
  }
}
