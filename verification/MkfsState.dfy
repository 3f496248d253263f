/**
  File-system states written down outright: the empty one that mkfs makes, and one
  whose free blocks are one each in four bitmap blocks.
*/
module MkfsState {
  import opened Blocks
  import opened Bitmap
  import opened FsState

  // ----------------------------------------------------------- a bitmap from its meaning

  /** The byte whose bits are f(base), f(base + 1), ... */
  function ByteOf(f: nat -> bool, base: nat, n: nat): (r: nat)
    ensures r < Pow2(n)
    decreases n
  {
    if n == 0 then 0 else 2 * ByteOf(f, base + 1, n - 1) + (if f(base) then 1 else 0)
  }

  lemma {:induction false} ByteOfBit(f: nat -> bool, base: nat, n: nat, k: nat)
    requires k < n
    ensures TestBit(ByteOf(f, base, n), k) <==> f(base + k)
    decreases n
  {
    if k > 0 {
      assert ByteOf(f, base, n) / 2 == ByteOf(f, base + 1, n - 1);
      ByteOfBit(f, base + 1, n - 1, k - 1);
    }
  }

  function BitmapByte(f: nat -> bool, base: nat): Byte {
    assert Pow2(8) == 256;
    ByteOf(f, base, 8)
  }

  function BitmapBlock(f: nat -> bool, g: nat): Block {
    seq(BSIZE, k requires 0 <= k < BSIZE => BitmapByte(f, g * BPB + 8 * k))
  }

  lemma BitmapBlockBit(f: nat -> bool, g: nat, bi: nat)
    requires bi < BPB
    ensures BlockBit(BitmapBlock(f, g), bi) <==> f(g * BPB + bi)
  {
    hide ByteOf, TestBit;
    var base := g * BPB + 8 * (bi / 8);
    assert BitmapBlock(f, g)[bi / 8] == ByteOf(f, base, 8);
    ByteOfBit(f, base, 8, bi % 8);
    assert base + bi % 8 == g * BPB + bi;
  }

  /** The disk whose bitmap is f and which is 0 elsewhere. */
  function View(sb: Super, f: nat -> bool): (r: Disk)
    ensures |r| == sb.size
  {
    seq(sb.size, b requires 0 <= b < sb.size => ViewBlock(sb, f, b))
  }

  function ViewBlock(sb: Super, f: nat -> bool, b: nat): Block {
    if sb.bmapstart <= b < sb.bmapstart + (sb.size + BPB - 1) / BPB then BitmapBlock(f, b - sb.bmapstart)
    else ZeroBlock()
  }

  lemma ViewMarked(sb: Super, f: nat -> bool, x: nat)
    requires sb.Wf() && x < sb.size
    ensures sb.bmapstart + x / BPB < |View(sb, f)|
    ensures Marked(View(sb, f), sb.bmapstart, x) <==> f(x)
  {
    Regions(sb, x, 0);
    BitmapBlockBit(f, x / BPB, x % BPB);
    assert x / BPB < (sb.size + BPB - 1) / BPB;
    assert View(sb, f)[sb.bmapstart + x / BPB] == BitmapBlock(f, x / BPB);
    assert x / BPB * BPB + x % BPB == x;
  }

  // -------------------------------------------------------------------- the empty disk

  function NoAddrs(): seq<nat> {
    seq(NDIRECT + 1, _ => 0)
  }

  function EmptyInodes(n: nat): (r: seq<Inode>)
    ensures |r| == n && forall i :: 0 <= i < n ==> r[i] == Inode(0, NoAddrs())
  {
    seq(n, _ => Inode(0, NoAddrs()))
  }

  /** mkfs: metadata blocks marked, every inode empty. */
  function EmptyFs(sb: Super): Fs {
    Fs(sb, View(sb, b => b < sb.datastart), EmptyInodes(sb.ninodes), EmptyInodes(sb.ninodes), {}, {}, map[])
  }

  lemma EmptyFsInv(sb: Super)
    requires sb.Wf()
    ensures EmptyFs(sb).Inv()
  {
    var s := EmptyFs(sb);
    assert s.Shape();
    forall i, k | 0 <= i < |s.inodes| && 0 <= k < SLOTS ensures s.Slot(i, k) == 0 {
    }
    forall b | 0 <= b < sb.size ensures s.IsMarked(b) <==> b < sb.datastart {
      ViewMarked(sb, c => c < sb.datastart, b);
    }
    hide Fs.Slot, Fs.IsMarked;
    assert s.Mapped();
  }

  // --------------------------------------------------------- four free blocks, far apart

  /** A disk of four bitmap blocks; everything but the last blocks of the first and third is taken. */
  const WIDE: Super := Super(24577, 130480, 32, 8187, 8191)

  predicate FreeBlock(b: nat) {
    b == 8191 || b == 8192 || b == 24575 || b == 24576
  }

  function WideBit(b: nat): bool {
    !FreeBlock(b)
  }

  /** Inode j owns the twelve blocks from here on, up to block 24574. */
  function Direct(j: nat, k: nat): nat {
    var b := 8193 + 12 * j + k;
    if b <= 24574 then b else 0
  }

  function WideInode(j: nat): (r: Inode)
    ensures |r.addrs| == NDIRECT + 1 && r.addrs[NDIRECT] == 0
    ensures forall k :: 0 <= k < NDIRECT ==> r.addrs[k] == Direct(j, k)
  {
    Inode(if j == 0 then 11 * BSIZE + 512 else 0, seq(NDIRECT, k requires 0 <= k => Direct(j, k)) + [0])
  }

  function WideInodes(): (r: seq<Inode>)
    ensures |r| == WIDE.ninodes && forall j :: 0 <= j < |r| ==> r[j] == WideInode(j)
  {
    seq(WIDE.ninodes, j requires 0 <= j => WideInode(j))
  }

  predicate TakenBlock(b: nat) {
    8193 <= b <= 24574
  }

  function WideOwner(): map<nat, (nat, nat)> {
    map b: nat | b < 24575 && TakenBlock(b) :: ((b - 8193) / 12, (b - 8193) % 12)
  }

  /** File 0 is twelve direct blocks, the last one half full; the free blocks are in four bitmap blocks. */
  function WideFs(): Fs {
    Fs(WIDE, View(WIDE, WideBit), WideInodes(), WideInodes(), {}, {}, WideOwner())
  }

  lemma WideSlots(j: nat, k: nat)
    requires j < WIDE.ninodes && k < SLOTS
    ensures WideFs().Shape() && WideFs().Slot(j, k) == if k < NDIRECT then Direct(j, k) else 0
  {
    assert WIDE.Wf();
  }

  lemma WideMarked(b: nat)
    requires b < WIDE.size
    ensures WideFs().Shape() && (WideFs().IsMarked(b) <==> !FreeBlock(b))
  {
    WideSlots(0, 0);
    ViewMarked(WIDE, WideBit, b);
  }

  lemma WideOwners()
    ensures WideFs().Shape() && WideFs().Owners()
  {
    WideSlots(0, 0);
    var s := WideFs();
    forall b | b in s.owner ensures s.Slot(s.owner[b].0, s.owner[b].1) == b {
      WideSlots((b - 8193) / 12, (b - 8193) % 12);
    }
    forall j, k | 0 <= j < |s.inodes| && 0 <= k < SLOTS && s.Slot(j, k) != 0
      ensures s.Slot(j, k) in s.owner && s.owner[s.Slot(j, k)] == (j, k)
    {
      WideSlots(j, k);
      assert (12 * j + k) / 12 == j && (12 * j + k) % 12 == k;
    }
  }

  lemma WideFsInv()
    ensures WideFs().Inv()
  {
    WideOwners();
    var s := WideFs();
    forall b | 0 <= b < WIDE.size ensures s.IsMarked(b) <==> b < WIDE.datastart || b in s.owner {
      WideMarked(b);
    }
    forall j | 0 <= j < |s.inodes| ensures s.MappedTo(j, s.inodes[j].size) {
      forall bn | 0 <= bn < MAXFILE && bn * BSIZE < s.inodes[j].size ensures s.Slot(j, SlotOf(bn)) != 0 {
        WideSlots(j, SlotOf(bn));
      }
    }
  }
}
