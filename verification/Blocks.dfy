/**
 Disk blocks as bytes, and the 32-bit little-endian words that kernel code sees when
 it casts a block to an array of integers.
 */
module Blocks {
  import opened Common

  const BSIZE: nat := 512
  const WORDS: nat := 128

  type Block = b: seq<byte> | |b| == BSIZE witness seq(BSIZE, _ => 0)

  function ZeroBlock(): Block { seq(BSIZE, _ => 0) }

  /** The i-th 32-bit word of a block. */
  function Word(b: Block, i: nat): (w: nat)
    requires i < WORDS
    ensures w < WRAP
  {
    var b0: int, b1: int, b2: int, b3: int := b[4 * i], b[4 * i + 1], b[4 * i + 2], b[4 * i + 3];
    b0 + 0x100 * b1 + 0x1_0000 * b2 + 0x100_0000 * b3
  }

  /** The block with its i-th word set. */
  function SetWord(b: Block, i: nat, w: nat): (b': Block)
    requires i < WORDS && w < WRAP
  {
    b[4 * i := w % 0x100]
     [4 * i + 1 := w / 0x100 % 0x100]
     [4 * i + 2 := w / 0x1_0000 % 0x100]
     [4 * i + 3 := w / 0x100_0000]
  }

  /** Writing a word changes that word and no other. */
  lemma {:induction false} WordOfSetWord(b: Block, i: nat, w: nat, j: nat)
    requires i < WORDS && j < WORDS && w < WRAP
    ensures Word(SetWord(b, i, w), j) == if i == j then w else Word(b, j)
  {
    var b' := SetWord(b, i, w);
    if i == j {
      BytesOfWord(w);
    } else {
      assert b'[4 * j] == b[4 * j] && b'[4 * j + 1] == b[4 * j + 1];
      assert b'[4 * j + 2] == b[4 * j + 2] && b'[4 * j + 3] == b[4 * j + 3];
    }
  }

  lemma BytesOfWord(w: nat)
    requires w < WRAP
    ensures w == w % 0x100 + 0x100 * (w / 0x100 % 0x100) + 0x1_0000 * (w / 0x1_0000 % 0x100) + 0x100_0000 * (w / 0x100_0000)
  {
  }

  lemma ZeroWords(i: nat)
    requires i < WORDS
    ensures Word(ZeroBlock(), i) == 0
  {
  }

  // ------------------------------------------------------------------
  // Bits of a byte.

  function Pow2(w: nat): (m: nat)
    ensures m > 0
  {
    if w == 0 then 1 else 2 * Pow2(w - 1)
  }

  /** Bit k of a w-bit number: `x & (1 << k)` is not zero */
  predicate TestBit(x: nat, k: nat) {
    if k == 0 then x % 2 == 1 else TestBit(x / 2, k - 1)
  }

  /** `x | (1 << k)` if v, else `x & ~(1 << k)` */
  function PutBit(x: nat, w: nat, k: nat, v: bool): (y: nat)
    requires k < w && x < Pow2(w)
    ensures y < Pow2(w)
    decreases w
  {
    if k == 0 then x - x % 2 + (if v then 1 else 0)
    else x % 2 + 2 * PutBit(x / 2, w - 1, k - 1, v)
  }

  lemma {:induction false} BitOfPutBit(x: nat, w: nat, k: nat, v: bool, j: nat)
    requires k < w && x < Pow2(w)
    ensures TestBit(PutBit(x, w, k, v), j) == if j == k then v else TestBit(x, j)
    decreases w
  {
    if k == 0 {
      if j > 0 {
        assert PutBit(x, w, k, v) / 2 == x / 2;
      }
    } else if j > 0 {
      var y := PutBit(x / 2, w - 1, k - 1, v);
      assert PutBit(x, w, k, v) == x % 2 + 2 * y;
      assert (x % 2 + 2 * y) / 2 == y;
      BitOfPutBit(x / 2, w - 1, k - 1, v, j - 1);
    }
  }

  lemma Pow2Of8()
    ensures Pow2(8) == 256
  {
    assert Pow2(4) == 16;
  }

  /** Bit i of a block, counting from the lowest bit of its first byte */
  predicate BlockBit(b: Block, i: nat)
    requires i < 8 * BSIZE
  {
    TestBit(b[i / 8], i % 8)
  }

  function SetBlockBit(b: Block, i: nat, v: bool): (b': Block)
    requires i < 8 * BSIZE
  {
    Pow2Of8();
    b[i / 8 := PutBit(b[i / 8], 8, i % 8, v)]
  }

  /** Writing a bit changes that bit and no other. */
  lemma {:induction false} BitOfSetBlockBit(b: Block, i: nat, v: bool, j: nat)
    requires i < 8 * BSIZE && j < 8 * BSIZE
    ensures BlockBit(SetBlockBit(b, i, v), j) == if i == j then v else BlockBit(b, j)
  {
    Pow2Of8();
    if i / 8 == j / 8 {
      BitOfPutBit(b[i / 8], 8, i % 8, v, j % 8);
    }
  }

  lemma ZeroBits(i: nat)
    requires i < 8 * BSIZE
    ensures !BlockBit(ZeroBlock(), i)
  {
    ZeroHasNoBits(i % 8);
  }

  lemma {:induction false} ZeroHasNoBits(k: nat)
    ensures !TestBit(0, k)
  {
    if k > 0 {
      ZeroHasNoBits(k - 1);
    }
  }
}
