/**
  The free-block bitmap of fs.c: one bit per disk block, eight to a byte, packed
  into the bitmap blocks. Bit operations are given by their recursive meaning on
  a byte's value.
*/
module Bitmap {
  import opened Blocks

  const BPB := 8192   // bits per bitmap block

  /** (x & (1 << k)) != 0 */
  predicate TestBit(x: nat, k: nat) {
    if k == 0 then x % 2 == 1 else TestBit(x / 2, k - 1)
  }

  /** x | (1 << k) */
  function OrBit(x: nat, k: nat): (r: nat) {
    if k == 0 then (if x % 2 == 1 then x else x + 1) else 2 * OrBit(x / 2, k - 1) + x % 2
  }

  /** x & ~(1 << k) */
  function ClearBit(x: nat, k: nat): (r: nat) {
    if k == 0 then (if x % 2 == 1 then x - 1 else x) else 2 * ClearBit(x / 2, k - 1) + x % 2
  }

  function Pow2(n: nat): (r: nat) {
    if n == 0 then 1 else 2 * Pow2(n - 1)
  }

  lemma {:induction false} OrBitMeaning(x: nat, k: nat, j: nat)
    ensures TestBit(OrBit(x, k), j) <==> j == k || TestBit(x, j)
  {
    if k > 0 && j > 0 {
      OrBitMeaning(x / 2, k - 1, j - 1);
      assert OrBit(x, k) / 2 == OrBit(x / 2, k - 1);
    }
  }

  lemma {:induction false} ClearBitMeaning(x: nat, k: nat, j: nat)
    ensures TestBit(ClearBit(x, k), j) <==> j != k && TestBit(x, j)
  {
    if k > 0 && j > 0 {
      ClearBitMeaning(x / 2, k - 1, j - 1);
      assert ClearBit(x, k) / 2 == ClearBit(x / 2, k - 1);
    }
  }

  lemma {:induction false} BitOpsFit(x: nat, k: nat, n: nat)
    requires x < Pow2(n) && k < n
    ensures OrBit(x, k) < Pow2(n) && ClearBit(x, k) < Pow2(n)
  {
    var m := Pow2(n - 1);
    assert Pow2(n) == 2 * m;
    if k > 0 {
      var h := x / 2;
      assert h < m;
      BitOpsFit(h, k - 1, n - 1);
    }
  }

  lemma ByteBitOpsFit(x: Byte, k: nat)
    requires k < 8
    ensures OrBit(x, k) < 256 && ClearBit(x, k) < 256
  {
    assert Pow2(8) == 256;
    BitOpsFit(x, k, 8);
  }

  /** bp->data[bi/8] & (1 << (bi % 8)) */
  predicate BlockBit(b: Block, bi: nat)
    requires bi < BPB
  {
    TestBit(b[bi / 8], bi % 8)
  }

  /** bp->data[bi/8] |= 1 << (bi % 8) */
  function BlockSet(b: Block, bi: nat): (r: Block)
    requires bi < BPB
  {
    ByteBitOpsFit(b[bi / 8], bi % 8);
    b[bi / 8 := OrBit(b[bi / 8], bi % 8)]
  }

  /** bp->data[bi/8] &= ~(1 << (bi % 8)) */
  function BlockClear(b: Block, bi: nat): (r: Block)
    requires bi < BPB
  {
    ByteBitOpsFit(b[bi / 8], bi % 8);
    b[bi / 8 := ClearBit(b[bi / 8], bi % 8)]
  }

  lemma BlockSetMeaning(b: Block, bi: nat, j: nat)
    requires bi < BPB && j < BPB
    ensures BlockBit(BlockSet(b, bi), j) <==> j == bi || BlockBit(b, j)
  {
    OrBitMeaning(b[bi / 8], bi % 8, j % 8);
  }

  lemma BlockClearMeaning(b: Block, bi: nat, j: nat)
    requires bi < BPB && j < BPB
    ensures BlockBit(BlockClear(b, bi), j) <==> j != bi && BlockBit(b, j)
  {
    ClearBitMeaning(b[bi / 8], bi % 8, j % 8);
  }

  // ------------------------------------------------------------ the whole map

  /** The bit of block x is set; the map starts at block start. */
  predicate Marked(view: Disk, start: nat, x: nat)
    requires start + x / BPB < |view|
  {
    BlockBit(view[start + x / BPB], x % BPB)
  }

  function Mark(view: Disk, start: nat, x: nat): (r: Disk)
    requires start + x / BPB < |view|
    ensures |r| == |view|
  {
    view[start + x / BPB := BlockSet(view[start + x / BPB], x % BPB)]
  }

  function Unmark(view: Disk, start: nat, x: nat): (r: Disk)
    requires start + x / BPB < |view|
    ensures |r| == |view|
  {
    view[start + x / BPB := BlockClear(view[start + x / BPB], x % BPB)]
  }

  lemma MarkMeaning(view: Disk, start: nat, x: nat, y: nat)
    requires start + x / BPB < |view| && start + y / BPB < |view|
    ensures Marked(Mark(view, start, x), start, y) <==> y == x || Marked(view, start, y)
  {
    if x / BPB == y / BPB {
      BlockSetMeaning(view[start + x / BPB], x % BPB, y % BPB);
    }
  }

  lemma UnmarkMeaning(view: Disk, start: nat, x: nat, y: nat)
    requires start + x / BPB < |view| && start + y / BPB < |view|
    ensures Marked(Unmark(view, start, x), start, y) <==> y != x && Marked(view, start, y)
  {
    if x / BPB == y / BPB {
      BlockClearMeaning(view[start + x / BPB], x % BPB, y % BPB);
    }
  }
}
