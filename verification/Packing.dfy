/** How kernel/fs.c packs numbers into disk blocks: 32-bit little-endian words in an
    indirect block, one bit per block in the free bitmap. */
module Packing {
  import opened Common

  const BSIZE: nat := 1024

  type Block = s: seq<byte> | |s| == 1024 witness seq(1024, _ => 0)

  function ZeroBlock(): Block { seq(1024, _ => 0) }

  // ---- Words ----

  // a[i] of the block seen as uint a[256]
  function Word(b: Block, i: nat): (w: nat)
    requires i < 256
    ensures w < 0x1_0000_0000
  {
    var b0: int, b1: int, b2: int, b3: int := b[4 * i], b[4 * i + 1], b[4 * i + 2], b[4 * i + 3];
    b0 + 256 * b1 + 65536 * b2 + 16777216 * b3
  }

  function PutWord(b: Block, i: nat, w: nat): Block
    requires i < 256 && w < 0x1_0000_0000
  {
    b[4 * i := w % 256][4 * i + 1 := w / 256 % 256][4 * i + 2 := w / 256 / 256 % 256]
     [4 * i + 3 := w / 256 / 256 / 256]
  }

  lemma WordPut(b: Block, i: nat, w: nat, j: nat)
    requires i < 256 && w < 0x1_0000_0000 && j < 256
    ensures Word(PutWord(b, i, w), j) == if j == i then w else Word(b, j)
  {
    var x, y, z := w / 256, w / 256 / 256, w / 256 / 256 / 256;
    assert w == 256 * x + w % 256 && x == 256 * y + x % 256 && y == 256 * z + y % 256;
    var c := PutWord(b, i, w);
    if j == i {
      assert c[4 * i] == w % 256 && c[4 * i + 1] == x % 256 && c[4 * i + 2] == y % 256 && c[4 * i + 3] == z;
    } else {
      assert forall k :: 4 * j <= k < 4 * j + 4 ==> c[k] == b[k];
    }
  }

  // ---- Bits ----

  // Bit j of x is set.
  predicate Bit(x: nat, j: nat) {
    if j == 0 then x % 2 == 1 else Bit(x / 2, j - 1)
  }

  // x with bit j set.
  function SetBit(x: nat, j: nat): nat {
    if j == 0 then x - x % 2 + 1 else x % 2 + 2 * SetBit(x / 2, j - 1)
  }

  // x with bit j cleared.
  function ClearBit(x: nat, j: nat): nat {
    if j == 0 then x - x % 2 else x % 2 + 2 * ClearBit(x / 2, j - 1)
  }

  function Pow2(n: nat): nat { if n == 0 then 1 else 2 * Pow2(n - 1) }

  // A value of n bits keeps that width.
  lemma {:induction false} BitWidth(x: nat, j: nat, n: nat)
    requires x < Pow2(n) && j < n
    ensures SetBit(x, j) < Pow2(n) && ClearBit(x, j) < Pow2(n)
  {
    if j > 0 { BitWidth(x / 2, j - 1, n - 1); }
  }

  lemma ByteWidth(x: byte, j: nat)
    requires j < 8
    ensures SetBit(x, j) < 256 && ClearBit(x, j) < 256
  {
    assert Pow2(8) == 256 by { assert Pow2(4) == 16; }
    BitWidth(x, j, 8);
  }

  lemma {:induction false} BitSet(x: nat, j: nat, k: nat)
    ensures Bit(SetBit(x, j), k) == (k == j || Bit(x, k))
  {
    if j > 0 && k > 0 { BitSet(x / 2, j - 1, k - 1); }
  }

  lemma {:induction false} BitClear(x: nat, j: nat, k: nat)
    ensures Bit(ClearBit(x, j), k) == (k != j && Bit(x, k))
  {
    if j > 0 && k > 0 { BitClear(x / 2, j - 1, k - 1); }
  }
}
