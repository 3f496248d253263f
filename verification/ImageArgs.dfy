/**
  What the image that exec builds holds, byte by byte: argv and its strings, and
  the segments of the program.
*/
module ImageArgs {
  import opened Blocks
  import opened PageTable
  import opened VirtualMemory
  import opened AddressSpace
  import opened UserCopy
  import opened ImageBytes

  // ------------------------------------------------------------------------------ argv

  /** The C string s is at address a of memory m. */
  predicate StringAt(m: seq<Byte>, a: nat, s: seq<Byte>) {
    a + |s| < |m| && m[a..a + |s|] == s && m[a + |s|] == 0
  }

  /** The 64-bit little-endian word at address a. */
  function Word64(m: seq<Byte>, a: nat): nat
    requires a + 8 <= |m|
  {
    LittleEndian(m[a..a + 8])
  }

  /** At sp there are pointers to the strings args, in order, and a null pointer. */
  predicate ArgvIs(m: seq<Byte>, sp: nat, args: seq<seq<Byte>>) {
    && sp % 16 == 0 && sp + 8 * |args| + 8 <= |m|
    && (forall i :: 0 <= i < |args| ==> StringAt(m, Word64(m, sp + 8 * i), args[i]))
    && Word64(m, sp + 8 * |args|) == 0
  }

  lemma BelowFits(sp: nat, len: nat)
    requires Below(sp, len) > 0
    ensures Below(sp, len) + len <= sp && Below(sp, len) % 16 == 0
  {
  }

  /** The stack pointer goes down by at least the string and its NUL, each time. */
  lemma {:induction false} SpDown(top: nat, args: seq<seq<Byte>>, k: nat)
    requires k <= |args| && SpAfter(top, args, k) > 0
    ensures SpAfter(top, args, k) <= top
    ensures forall j :: 0 <= j < k ==> Pushed(top, args, k, j)
  {
    hide Below;
    if k > 0 {
      BelowFits(SpAfter(top, args, k - 1), |args[k - 1]| + 1);
      SpDown(top, args, k - 1);
      forall j | 0 <= j < k ensures Pushed(top, args, k, j) {
        if j < k - 1 { assert Pushed(top, args, k - 1, j); }
      }
    }
  }

  /** String j lies between the stack pointers after and before it, above that after k strings. */
  predicate Pushed(top: nat, args: seq<seq<Byte>>, k: nat, j: nat)
    requires j < k <= |args|
  {
    && SpAfter(top, args, k) <= SpAfter(top, args, j + 1)
    && 0 < SpAfter(top, args, j + 1) && SpAfter(top, args, j + 1) + |args[j]| + 1 <= SpAfter(top, args, j) <= top
  }

  lemma PutAt(c: seq<Byte>, at: nat, s: seq<Byte>)
    requires at + |s| + 1 <= |c|
    ensures StringAt(PutBytes(c, at, s + [0]), at, s)
  {
    var r := PutBytes(c, at, s + [0]);
    assert forall i :: 0 <= i < |s| ==> r[at + i] == (s + [0])[i];
    assert r[at + |s|] == (s + [0])[|s|];
    assert r[at..at + |s|] == s;
  }

  /** Bytes put below a string leave it alone. */
  lemma PutBelow(c: seq<Byte>, at: nat, bytes: seq<Byte>, a: nat, s: seq<Byte>)
    requires StringAt(c, a, s) && at + |bytes| <= a
    ensures StringAt(PutBytes(c, at, bytes), a, s)
  {
    var r := PutBytes(c, at, bytes);
    assert forall i :: a <= i < |c| ==> r[i] == c[i];
    assert r[a..a + |s|] == c[a..a + |s|];
  }

  lemma {:induction false} StringsThere(c: seq<Byte>, top: nat, args: seq<seq<Byte>>, k: nat)
    requires k <= |args| && |c| == top && SpAfter(top, args, k) > 0
    ensures |WithStrings(c, top, args, k)| == top
    ensures forall j :: 0 <= j < k ==> StringAt(WithStrings(c, top, args, k), SpAfter(top, args, j + 1), args[j])
  {
    hide PutBytes, StringAt, Below;
    if k > 0 {
      SpDown(top, args, k);
      assert Pushed(top, args, k, k - 1);
      StringsThere(c, top, args, k - 1);
      var d, at := WithStrings(c, top, args, k - 1), SpAfter(top, args, k);
      PutSize(d, at, args[k - 1] + [0]);
      PutAt(d, at, args[k - 1]);
      forall j | 0 <= j < k ensures StringAt(WithStrings(c, top, args, k), SpAfter(top, args, j + 1), args[j]) {
        if j < k - 1 {
          SpDown(top, args, k - 1);
          assert Pushed(top, args, k - 1, j);
          PutBelow(d, at, args[k - 1] + [0], SpAfter(top, args, j + 1), args[j]);
        }
      }
    }
  }

  lemma PutSize(c: seq<Byte>, at: nat, bytes: seq<Byte>)
    ensures |PutBytes(c, at, bytes)| == |c|
  {
  }

  /** Pointer i of the array exec builds. */
  lemma {:induction false} PointerAt(top: nat, args: seq<seq<Byte>>, k: nat, i: nat)
    requires i < k <= |args|
    ensures ArgvBytes(top, args, k)[8 * i..8 * i + 8] == ToBytes(SpAfter(top, args, i + 1), 8)
  {
    var b := ArgvBytes(top, args, k);
    hide SpAfter, ToBytes;
    if i == k - 1 {
      assert b[8 * i..8 * i + 8] == ToBytes(SpAfter(top, args, k), 8);
    } else {
      PointerAt(top, args, k - 1, i);
      assert b[8 * i..8 * i + 8] == ArgvBytes(top, args, k - 1)[8 * i..8 * i + 8];
    }
  }

  lemma Limit64()
    ensures Pow256(8) == 0x1_0000_0000_0000_0000
  {
    assert Pow256(4) == 0x1_0000_0000;
  }

  lemma WordPut(c: seq<Byte>, at: nat, bytes: seq<Byte>, o: nat, w: nat)
    requires at + |bytes| <= |c| && o + 8 <= |bytes| && bytes[o..o + 8] == ToBytes(w, 8)
    requires w < 0x1_0000_0000_0000_0000
    ensures |PutBytes(c, at, bytes)| == |c| && Word64(PutBytes(c, at, bytes), at + o) == w
  {
    hide LittleEndian, ToBytes, Pow256;
    var r := PutBytes(c, at, bytes);
    assert r[at + o..at + o + 8] == bytes[o..o + 8];
    Limit64();
    ToBytesRoundTrip(w, 8);
  }

  /** What exec leaves on the stack, if it did not run out of it. */
  lemma ArgvThere(c: seq<Byte>, top: nat, args: seq<seq<Byte>>)
    requires |c| == top < 0x1_0000_0000_0000_0000 && ArgvAt(top, args) > 0
    ensures ArgvIs(WithArgs(c, top, args), ArgvAt(top, args), args)
  {
    hide PutBytes, StringAt, Below, Word64, ArgvBytes, WithStrings, SpAfter, ToBytes;
    var n, sp := |args|, ArgvAt(top, args);
    BelowFits(SpAfter(top, args, n), 8 * n + 8);
    SpDown(top, args, n);
    StringsThere(c, top, args, n);
    var d, bytes := WithStrings(c, top, args, n), ArgvBytes(top, args, n) + ToBytes(0, 8);
    var r := WithArgs(c, top, args);
    assert bytes[8 * n..8 * n + 8] == ToBytes(0, 8);
    WordPut(d, sp, bytes, 8 * n, 0);
    forall i | 0 <= i < n ensures StringAt(r, Word64(r, sp + 8 * i), args[i]) {
      assert Pushed(top, args, n, i);
      PointerAt(top, args, n, i);
      assert bytes[8 * i..8 * i + 8] == ArgvBytes(top, args, n)[8 * i..8 * i + 8];
      WordPut(d, sp, bytes, 8 * i, SpAfter(top, args, i + 1));
      PutBelow(d, sp, bytes, SpAfter(top, args, i + 1), args[i]);
    }
  }

  // -------------------------------------------------------------------------- segments

  /** The file gives segment g a byte at address a. */
  predicate Gives(g: Segment, a: nat) {
    g.vaddr <= a < g.vaddr + |g.data|
  }

  /** Segment i is the last of the first k that gives a byte at address a. */
  predicate LastGiver(segs: seq<Segment>, k: nat, a: nat, i: nat) {
    i < k <= |segs| && Gives(segs[i], a) && forall j :: i < j < k ==> !Gives(segs[j], a)
  }

  /** The byte at address a is the one of the last segment that gives one, otherwise 0. */
  ghost predicate SegmentByte(m: seq<Byte>, segs: seq<Segment>, k: nat, a: nat)
    requires a < |m| && k <= |segs|
  {
    && (forall i: nat :: LastGiver(segs, k, a, i) ==> m[a] == segs[i].data[a - segs[i].vaddr])
    && ((forall i :: 0 <= i < k ==> !Gives(segs[i], a)) ==> m[a] == 0)
  }

  ghost predicate SegmentsThere(m: seq<Byte>, segs: seq<Segment>, n: nat) {
    n <= |m| && forall a :: 0 <= a < n ==> SegmentByte(m, segs, |segs|, a)
  }

  lemma ExtendedAt(c: seq<Byte>, size: nat, a: nat)
    requires a < |Extended(c, size)|
    ensures Extended(c, size)[a] == if a < |c| then c[a] else 0
  {
  }

  /** One more segment decides the bytes it has, and leaves the others. */
  lemma WithSegmentAt(c: seq<Byte>, g: Segment, a: nat)
    requires |g.data| <= g.memsz && a < |WithSegment(c, g)|
    ensures WithSegment(c, g)[a] == if Gives(g, a) then g.data[a - g.vaddr] else if a < |c| then c[a] else 0
  {
    ExtendedAt(c, g.vaddr + g.memsz, a);
    hide Extended;
  }

  lemma {:induction false} SegmentBytes(segs: seq<Segment>, k: nat, a: nat)
    requires k <= |segs| && (forall j :: 0 <= j < k ==> |segs[j].data| <= segs[j].memsz)
    requires a < |WithSegments(segs, k)|
    ensures SegmentByte(WithSegments(segs, k), segs, k, a)
  {
    hide WithSegment;
    if k > 0 {
      var g, c, m := segs[k - 1], WithSegments(segs, k - 1), WithSegments(segs, k);
      WithSegmentAt(c, g, a);
      if a < |c| { SegmentBytes(segs, k - 1, a); } else { BeyondGiven(segs, k - 1, a); }
      forall i: nat | LastGiver(segs, k, a, i) ensures m[a] == segs[i].data[a - segs[i].vaddr] {
        if i < k - 1 { assert LastGiver(segs, k - 1, a, i); }
      }
    }
  }

  /** No segment gives a byte beyond the memory that was made for it. */
  lemma {:induction false} BeyondGiven(segs: seq<Segment>, k: nat, a: nat)
    requires k <= |segs| && (forall j :: 0 <= j < k ==> |segs[j].data| <= segs[j].memsz)
    requires a >= |WithSegments(segs, k)|
    ensures forall j :: 0 <= j < k ==> !Gives(segs[j], a)
  {
    if k > 0 {
      Grows(WithSegments(segs, k - 1), segs[k - 1]);
      hide WithSegment;
      BeyondGiven(segs, k - 1, a);
    }
  }

  lemma Grows(c: seq<Byte>, g: Segment)
    ensures |WithSegment(c, g)| >= |c| && |WithSegment(c, g)| >= g.vaddr + g.memsz
  {
  }

  /** Bytes below the stack pointer are not changed by pushing the arguments. */
  lemma {:induction false} StringsAbove(c: seq<Byte>, top: nat, args: seq<seq<Byte>>, k: nat, a: nat)
    requires k <= |args| && |c| == top && SpAfter(top, args, k) > a
    ensures a < |WithStrings(c, top, args, k)| == top && WithStrings(c, top, args, k)[a] == c[a]
  {
    hide Below;
    SpDown(top, args, k);
    if k > 0 {
      assert Pushed(top, args, k, k - 1);
      StringsAbove(c, top, args, k - 1, a);
    }
  }

  lemma ArgsAbove(c: seq<Byte>, top: nat, args: seq<seq<Byte>>, a: nat)
    requires |c| == top && ArgvAt(top, args) > a
    ensures a < |WithArgs(c, top, args)| == top && WithArgs(c, top, args)[a] == c[a]
  {
    hide Below, WithStrings, ArgvBytes, ToBytes, SpAfter;
    BelowFits(SpAfter(top, args, |args|), 8 * |args| + 8);
    StringsAbove(c, top, args, |args|, a);
  }

  /** The file has all of the segment, and its pages can be where they should. */
  predicate Loadable(g: Segment) {
    |g.data| == g.filesz <= g.memsz && g.vaddr % PGSIZE == 0 && g.vaddr + g.memsz < 0x1_0000_0000_0000_0000
  }

  /** m is the memory of a process about to run the program with args, its stack pointer at sp. */
  ghost predicate Ready(m: seq<Byte>, segs: seq<Segment>, sp: nat, args: seq<seq<Byte>>) {
    && (forall j :: 0 <= j < |segs| ==> Loadable(segs[j]))
    && |m| >= 2 * PGSIZE && SegmentsThere(m, segs, |m| - 2 * PGSIZE)
    && |m| - PGSIZE <= sp && ArgvIs(m, sp, args)
  }

  /** The image of a program that exec could load. */
  lemma ProgramThere(segs: seq<Segment>, args: seq<seq<Byte>>)
    requires forall j :: 0 <= j < |segs| ==> Loadable(segs[j])
    requires var n := |ProgramBytes(segs, args)|;
      2 * PGSIZE <= n < 0x1_0000_0000_0000_0000 && ArgvAt(n, args) >= n - PGSIZE
      && n == |WithSegments(segs, |segs|)| + 2 * PGSIZE
    ensures var m := ProgramBytes(segs, args); Ready(m, segs, ArgvAt(|m|, args), args)
  {
    hide WithSegments, WithArgs, ArgvAt, ArgvIs, SegmentByte;
    var w := WithSegments(segs, |segs|);
    var c, m := w + Zeros(2 * PGSIZE), ProgramBytes(segs, args);
    ArgvThere(c, |c|, args);
    forall a | 0 <= a < |m| - 2 * PGSIZE ensures SegmentByte(m, segs, |segs|, a) {
      ArgsAbove(c, |c|, args, a);
      SegmentBytes(segs, |segs|, a);
      SameByte(w, m, segs, |segs|, a);
    }
  }

  lemma SameByte(w: seq<Byte>, m: seq<Byte>, segs: seq<Segment>, k: nat, a: nat)
    requires a < |w| && a < |m| && w[a] == m[a] && k <= |segs| && SegmentByte(w, segs, k, a)
    ensures SegmentByte(m, segs, k, a)
  {
  }

  // ------------------------------------------------------------------------------ sbrk

  /** d is c and zeros behind it, as many as size needs in whole pages. */
  predicate ZerosAdded(c: seq<Byte>, d: seq<Byte>, size: nat) {
    && |d| >= |c| && |d| >= size && (|d| == |c| || (|d| < size + PGSIZE && |d| % PGSIZE == 0))
    && forall a :: 0 <= a < |d| ==> d[a] == if a < |c| then c[a] else 0
  }

  lemma ExtendedZeros(c: seq<Byte>, size: nat)
    ensures ZerosAdded(c, Extended(c, size), size)
  {
    forall a | 0 <= a < |Extended(c, size)| ensures Extended(c, size)[a] == if a < |c| then c[a] else 0 {
      ExtendedAt(c, size, a);
    }
  }
}
