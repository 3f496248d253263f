/**
  The memory of a process as one byte sequence, and the image exec builds as a
  function of the program's segments and its arguments.
*/
module ImageBytes {
  import opened Blocks
  import opened PageTable
  import opened AddressSpace
  import opened TableTree
  import opened VirtualMemory
  import opened AddressGrowth
  import opened UserCopy

  /** Physical pages hold PGSIZE bytes, and page 0 is not memory. */
  ghost predicate Whole(m: Mem) {
    0 !in m.frames && forall p :: p in m.frames ==> |m.frames[p]| == PGSIZE
  }

  /** The bytes of virtual pages 0 .. n - 1. */
  ghost function UserBytes(m: Mem, t: Tree, n: nat): (c: seq<Byte>)
    requires Unaliased(m, t, 0, n) && Whole(m)
    ensures |c| == n * PGSIZE
  {
    seq(n * PGSIZE, a requires 0 <= a < n * PGSIZE => m.frames[Ppn(Entry(m, t, a / PGSIZE))][a % PGSIZE])
  }

  lemma UserBytesAt(m: Mem, t: Tree, n: nat, a: nat)
    requires Unaliased(m, t, 0, n) && Whole(m) && a < n * PGSIZE
    ensures a / PGSIZE < n && Ppn(Entry(m, t, a / PGSIZE)) in m.frames
    ensures |m.frames[Ppn(Entry(m, t, a / PGSIZE))]| == PGSIZE
    ensures UserBytes(m, t, n)[a] == m.frames[Ppn(Entry(m, t, a / PGSIZE))][a % PGSIZE]
  {
    hide Entry, Ppn;
  }

  function Zeros(k: nat): (r: seq<Byte>)
    ensures |r| == k && forall i :: 0 <= i < k ==> r[i] == 0
  {
    seq(k, _ => 0)
  }

  /** k new pages are k pages of zeros on top. */
  lemma GrownBytes(m: Mem, t: Tree, n: nat, m2: Mem, t2: Tree, k: nat, flags: nat)
    requires NewPages(m, t, m2, t2, n, k, flags)
    requires Unaliased(m, t, 0, n) && Whole(m) && Unaliased(m2, t2, 0, n + k) && Whole(m2)
    ensures UserBytes(m2, t2, n + k) == UserBytes(m, t, n) + Zeros(k * PGSIZE)
  {
    hide Unaliased, Whole, UserBytes, Entry, Ppn, FramesOf, V, Flags;
    var x, y := UserBytes(m2, t2, n + k), UserBytes(m, t, n) + Zeros(k * PGSIZE);
    assert |x| == |y|;
    forall a | 0 <= a < |x| ensures x[a] == y[a] {
      UserBytesAt(m2, t2, n + k, a);
      if a < n * PGSIZE {
        UserBytesAt(m, t, n, a);
      } else {
        assert NewPage(m, m2, t2, a / PGSIZE, flags);
      }
    }
  }

  /** The same entries and the same frames behind them. */
  lemma SameBytes(m: Mem, t: Tree, m2: Mem, t2: Tree, n: nat)
    requires Unaliased(m, t, 0, n) && Whole(m) && Unaliased(m2, t2, 0, n) && Whole(m2)
    requires forall w :: 0 <= w < n ==> Ppn(Entry(m2, t2, w)) == Ppn(Entry(m, t, w))
    requires forall w :: 0 <= w < n && Ppn(Entry(m, t, w)) in m.frames && Ppn(Entry(m, t, w)) in m2.frames ==>
      m2.frames[Ppn(Entry(m, t, w))] == m.frames[Ppn(Entry(m, t, w))]
    ensures UserBytes(m2, t2, n) == UserBytes(m, t, n)
  {
    hide Unaliased, Whole, UserBytes, Entry, Ppn;
    var x, y := UserBytes(m2, t2, n), UserBytes(m, t, n);
    forall a | 0 <= a < |x| ensures x[a] == y[a] {
      UserBytesAt(m2, t2, n, a);
      UserBytesAt(m, t, n, a);
    }
  }

  /** Bytes copied to user addresses replace those bytes and no others. */
  lemma WrittenBytes(m: Mem, t: Tree, n: nat, m2: Mem, a: nat, src: seq<Byte>, k: nat)
    requires k <= |src| && CopiedOut(m, t, m2, a, src, k) && a + k <= n * PGSIZE
    requires Unaliased(m, t, 0, n) && Whole(m) && Unaliased(m2, t, 0, n) && Whole(m2)
    requires forall w: nat :: Entry(m2, t, w) == Entry(m, t, w)
    requires forall w: nat :: UserEntry(Entry(m, t, w)) ==> w < n
    ensures UserBytes(m2, t, n) == Patched(UserBytes(m, t, n), a, src[..k])
  {
    hide Whole, UserBytes, Entry, Ppn, UserEntry, Last;
    var x, y := UserBytes(m2, t, n), Patched(UserBytes(m, t, n), a, src[..k]);
    assert |x| == |y|;
    forall b | 0 <= b < |x| ensures x[b] == y[b] {
      UserBytesAt(m2, t, n, b);
      UserBytesAt(m, t, n, b);
      if a <= b < a + k {
        assert Reachable(m, t, b) && Reachable(m2, t, b);
        UnaliasedLast(m, t, n, a + k, b);
        assert UserByte(m2, t, b) == src[b - a];
      } else {
        NotTouched(m, t, n, a, k, b);
      }
    }
  }

  lemma NotTouched(m: Mem, t: Tree, n: nat, a: nat, k: nat, b: nat)
    requires Unaliased(m, t, 0, n) && b < n * PGSIZE && !(a <= b < a + k)
    requires forall w: nat :: UserEntry(Entry(m, t, w)) ==> w < n
    ensures !Touched(m, t, a, k, Ppn(Entry(m, t, b / PGSIZE)), b % PGSIZE)
  {
    hide Entry, Ppn, UserEntry;
    assert forall x :: x / PGSIZE == b / PGSIZE && x % PGSIZE == b % PGSIZE ==> x == b;
  }

  /** The memory of a process of n pages; nothing for a tree that is not one. */
  ghost function Memory(m: Mem, t: Tree, n: nat): seq<Byte> {
    if Unaliased(m, t, 0, n) && Whole(m) then UserBytes(m, t, n) else []
  }

  // ---------------------------------------------------------------- the image as a function

  /** A loadable program header; data is what the file has of its filesz bytes. */
  datatype Segment = Segment(vaddr: nat, memsz: nat, filesz: nat, xperm: nat, data: seq<Byte>)

  /** Memory grown with zeros to a size in bytes, in whole pages; never smaller. */
  function Extended(c: seq<Byte>, size: nat): (r: seq<Byte>)
    ensures |r| >= |c| && |r| >= size
  {
    var z := Pages(size) * PGSIZE;
    if z <= |c| then c else c + Zeros(z - |c|)
  }

  /** One segment: room for memsz bytes, the file's bytes at vaddr. */
  function WithSegment(c: seq<Byte>, g: Segment): seq<Byte> {
    var d := Extended(c, g.vaddr + g.memsz);
    if g.vaddr + |g.data| <= |d| then Patched(d, g.vaddr, g.data) else d
  }

  function WithSegments(segs: seq<Segment>, k: nat): seq<Byte>
    requires k <= |segs|
  {
    if k == 0 then [] else WithSegment(WithSegments(segs, k - 1), segs[k - 1])
  }

  /** The flags of the page table's entries for pages 0 .. n - 1. */
  ghost function PageFlags(m: Mem, t: Tree, n: nat): (r: seq<nat>) {
    seq(n, (w: nat) => Flags(Entry(m, t, w)))
  }

  /** Flags after uvmalloc to a size in bytes: the new pages alone get xperm. */
  function MoreFlags(fs: seq<nat>, size: nat, xperm: nat): seq<nat> {
    if Pages(size) <= |fs| then fs else fs + seq(Pages(size) - |fs|, _ => PTE_R + PTE_U + xperm + PTE_V)
  }

  function SegmentFlags(segs: seq<Segment>, k: nat): seq<nat>
    requires k <= |segs|
  {
    if k == 0 then []
    else MoreFlags(SegmentFlags(segs, k - 1), segs[k - 1].vaddr + segs[k - 1].memsz, segs[k - 1].xperm)
  }

  /** The new program's: segments, a guard page without PTE_U, a stack page. */
  function ProgramFlags(segs: seq<Segment>): seq<nat> {
    SegmentFlags(segs, |segs|) + [PTE_R + PTE_W + PTE_V, PTE_R + PTE_U + PTE_W + PTE_V]
  }

  predicate Covers(g: Segment, w: nat) {
    w < Pages(g.vaddr + g.memsz)
  }

  /** Segment i is the first that ends beyond the start of page w. */
  predicate FirstCover(segs: seq<Segment>, w: nat, i: nat) {
    i < |segs| && Covers(segs[i], w) && forall j :: 0 <= j < i ==> !Covers(segs[j], w)
  }

  /**
    A page is there if and only if some segment ends beyond its start, and it has
    the permissions of the first of them; a later segment cannot change them.
  */
  lemma {:induction false} FlagsByFirst(segs: seq<Segment>, k: nat, w: nat)
    requires k <= |segs|
    ensures w < |SegmentFlags(segs, k)| <==> exists i :: 0 <= i < k && Covers(segs[i], w)
    ensures forall i: nat :: i < k && FirstCover(segs, w, i) ==>
      w < |SegmentFlags(segs, k)| && SegmentFlags(segs, k)[w] == PTE_R + PTE_U + segs[i].xperm + PTE_V
  {
    hide Pages;
    if k > 0 {
      FlagsByFirst(segs, k - 1, w);
      var g, fs := segs[k - 1], SegmentFlags(segs, k - 1);
      assert Covers(g, w) <==> w < Pages(g.vaddr + g.memsz);
      forall i: nat | i < k && FirstCover(segs, w, i)
        ensures w < |SegmentFlags(segs, k)| && SegmentFlags(segs, k)[w] == PTE_R + PTE_U + segs[i].xperm + PTE_V
      {
        if i == k - 1 {
          assert forall j :: 0 <= j < k - 1 ==> !Covers(segs[j], w);
          assert w >= |fs|;
        }
      }
    }
  }

  /** Where a string of len bytes goes below sp, aligned to 16. */
  function Below(sp: nat, len: nat): nat {
    if sp < len then 0 else (sp - len) / 16 * 16
  }

  function PutBytes(c: seq<Byte>, at: nat, bytes: seq<Byte>): seq<Byte> {
    if at + |bytes| <= |c| then Patched(c, at, bytes) else c
  }

  /** The stack pointer after the first k argument strings. */
  function SpAfter(top: nat, args: seq<seq<Byte>>, k: nat): nat
    requires k <= |args|
  {
    if k == 0 then top else Below(SpAfter(top, args, k - 1), |args[k - 1]| + 1)
  }

  /** Memory after the first k argument strings, each with its NUL. */
  function WithStrings(c: seq<Byte>, top: nat, args: seq<seq<Byte>>, k: nat): seq<Byte>
    requires k <= |args|
  {
    if k == 0 then c else PutBytes(WithStrings(c, top, args, k - 1), SpAfter(top, args, k), args[k - 1] + [0])
  }

  /** argv: the addresses of the strings, then a null pointer. */
  function ArgvBytes(top: nat, args: seq<seq<Byte>>, k: nat): (r: seq<Byte>)
    requires k <= |args|
    ensures |r| == 8 * k
  {
    if k == 0 then [] else ArgvBytes(top, args, k - 1) + ToBytes(SpAfter(top, args, k), 8)
  }

  /** The address of argv, and the initial stack pointer. */
  function ArgvAt(top: nat, args: seq<seq<Byte>>): nat {
    Below(SpAfter(top, args, |args|), 8 * |args| + 8)
  }

  /** Memory with the arguments pushed below top: the strings, then argv. */
  function WithArgs(c: seq<Byte>, top: nat, args: seq<seq<Byte>>): seq<Byte> {
    PutBytes(WithStrings(c, top, args, |args|), ArgvAt(top, args), ArgvBytes(top, args, |args|) + ToBytes(0, 8))
  }

  /** The memory of the new program: segments, a guard page, a stack page with the arguments on it. */
  function ProgramBytes(segs: seq<Segment>, args: seq<seq<Byte>>): seq<Byte> {
    var c := WithSegments(segs, |segs|) + Zeros(2 * PGSIZE);
    WithArgs(c, |c|, args)
  }
}
