/**
  Disk blocks as the kernel sees them: BSIZE raw bytes, read and written either
  whole (memmove, memset) or through a cast to an array of 32-bit little-endian
  words (the log header, the indirect block).
*/
module Blocks {
  const BSIZE := 1024
  const WORDS := 256

  type Byte = x: nat | x < 256
  type Block = s: seq<Byte> | |s| == BSIZE witness seq(BSIZE, _ => 0)

  type Disk = seq<Block>

  function ZeroBlock(): Block {
    seq(BSIZE, _ => 0)
  }

  function Pow256(n: nat): (r: nat)
    ensures r > 0
  {
    if n == 0 then 1 else 256 * Pow256(n - 1)
  }

  /** The value of a little-endian byte string. */
  function LittleEndian(s: seq<Byte>): (r: nat) {
    if s == [] then 0 else s[0] + 256 * LittleEndian(s[1..])
  }

  /** The low n bytes of w, least significant first. */
  function ToBytes(w: nat, n: nat): (r: seq<Byte>)
    ensures |r| == n
  {
    if n == 0 then [] else [w % 256] + ToBytes(w / 256, n - 1)
  }

  lemma {:induction false} ToBytesRoundTrip(w: nat, n: nat)
    requires w < Pow256(n)
    ensures LittleEndian(ToBytes(w, n)) == w
  {
    if n > 0 {
      assert w / 256 < Pow256(n - 1);
      ToBytesRoundTrip(w / 256, n - 1);
      assert ToBytes(w, n)[1..] == ToBytes(w / 256, n - 1);
    }
  }

  lemma {:induction false} LittleEndianRoundTrip(s: seq<Byte>)
    ensures LittleEndian(s) < Pow256(|s|)
    ensures ToBytes(LittleEndian(s), |s|) == s
  {
    if s != [] {
      LittleEndianRoundTrip(s[1..]);
    }
  }

  const WORD_LIMIT := 0x1_0000_0000

  /** ((uint*)data)[i] */
  function Word(b: Block, i: nat): (w: nat)
    requires i < WORDS
  {
    LittleEndian(b[4 * i..4 * i + 4])
  }

  /** The block after ((uint*)data)[i] = w */
  function SetWord(b: Block, i: nat, w: nat): (r: Block)
    requires i < WORDS
  {
    b[..4 * i] + ToBytes(w, 4) + b[4 * i + 4..]
  }

  lemma WordSetWord(b: Block, i: nat, w: nat, j: nat)
    requires i < WORDS && j < WORDS && w < WORD_LIMIT
    ensures Word(SetWord(b, i, w), j) == if j == i then w else Word(b, j)
  {
    var r := SetWord(b, i, w);
    if j == i {
      assert r[4 * i..4 * i + 4] == ToBytes(w, 4);
      assert Pow256(4) == WORD_LIMIT;
      ToBytesRoundTrip(w, 4);
    } else {
      assert r[4 * j..4 * j + 4] == b[4 * j..4 * j + 4];
    }
  }

  lemma {:induction false} ZeroWord(i: nat)
    requires i < WORDS
    ensures Word(ZeroBlock(), i) == 0
  {
    var s := ZeroBlock()[4 * i..4 * i + 4];
    assert s == ToBytes(0, 4) by {
      assert ToBytes(0, 4) == [0, 0, 0, 0];
    }
    ToBytesRoundTrip(0, 4);
  }
}
