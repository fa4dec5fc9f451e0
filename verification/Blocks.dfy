/**
 Disk blocks as bytes, and the little-endian words that kernel structures read out of them.
 */
module Blocks {
  import opened Common

  const BSIZE := 512
  const NWORDS := 128                // BSIZE / sizeof(uint)

  type Block = b: seq<Byte> | |b| == BSIZE witness seq(BSIZE, _ => 0)

  /** The contents of one device, block by block. */
  type Image = seq<Block>

  function Zeros(): Block {
    seq(BSIZE, _ => 0)
  }

  const ZERO_BLOCK: Block := Zeros()

  /** ((uint*)b)[i] on a little-endian machine. */
  function Word(b: Block, i: nat): Uint
    requires i < NWORDS
  {
    var x0: int, x1: int, x2: int, x3: int := b[4 * i], b[4 * i + 1], b[4 * i + 2], b[4 * i + 3];
    x0 + 0x100 * x1 + 0x10000 * x2 + 0x100_0000 * x3
  }

  /** ((uint*)b)[i] = w */
  function PutWord(b: Block, i: nat, w: Uint): Block
    requires i < NWORDS
  {
    b[4 * i := w % 0x100]
     [4 * i + 1 := w / 0x100 % 0x100]
     [4 * i + 2 := w / 0x10000 % 0x100]
     [4 * i + 3 := w / 0x100_0000 % 0x100]
  }

  lemma SplitWord(w: Uint)
    ensures w == w % 0x100 + 0x100 * (w / 0x100 % 0x100) + 0x10000 * (w / 0x10000 % 0x100)
                 + 0x100_0000 * (w / 0x100_0000 % 0x100)
  {
    var h := w / 0x100;
    var hh := h / 0x100;
    assert w / 0x10000 == hh;
    assert w / 0x100_0000 == hh / 0x100;
  }

  /** Storing a word changes that word and no other. */
  lemma WordOfPut(b: Block, i: nat, w: Uint, j: nat)
    requires i < NWORDS && j < NWORDS
    ensures Word(PutWord(b, i, w), j) == if j == i then w else Word(b, j)
  {
    SplitWord(w);
  }

  lemma WordOfZero(i: nat)
    requires i < NWORDS
    ensures Word(ZERO_BLOCK, i) == 0
  {
  }
}
