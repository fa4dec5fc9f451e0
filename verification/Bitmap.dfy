/**
 The free map's bits, as fs.c and mkfs.c set, test and clear them.
 */
module Bitmap {
  import opened Common
  import opened Blocks

  const BPB := 4096     // bits per block: BSIZE * 8

  /** 1 << k */
  function Mask(k: nat): nat {
    if k == 0 then 1 else 2 * Mask(k - 1)
  }

  /** (x & (1 << k)) != 0 */
  predicate Bit(x: nat, k: nat) {
    if k == 0 then x % 2 == 1 else Bit(x / 2, k - 1)
  }

  /** Adding a mask whose bit is clear sets that bit and no other. */
  lemma {:induction false} BitsOfSum(x: nat, k: nat, j: nat)
    requires !Bit(x, k)
    ensures Bit(x + Mask(k), j) <==> j == k || Bit(x, j)
    decreases k
  {
    if k == 0 {
      assert (x + 1) / 2 == x / 2;
    } else {
      assert (x + Mask(k)) / 2 == x / 2 + Mask(k - 1);
      if j > 0 {
        BitsOfSum(x / 2, k - 1, j - 1);
      }
    }
  }

  lemma {:induction false} SumFits(x: nat, k: nat, n: nat)
    requires !Bit(x, k) && k < n && x < Mask(n)
    ensures x + Mask(k) < Mask(n)
    decreases n
  {
    if k > 0 {
      SumFits(x / 2, k - 1, n - 1);
    }
  }

  lemma {:induction false} MaskWithin(x: nat, k: nat)
    requires Bit(x, k)
    ensures x >= Mask(k) && !Bit(x - Mask(k), k)
    decreases k
  {
    if k > 0 {
      MaskWithin(x / 2, k - 1);
      assert (x - Mask(k)) / 2 == x / 2 - Mask(k - 1);
    }
  }

  lemma ByteLimit()
    ensures Mask(8) == 256
  {
    assert Mask(4) == 16;
    assert Mask(6) == 64;
  }

  /** (b->data[bi/8] & (1 << bi%8)) != 0 */
  predicate Test(b: Block, bi: nat)
    requires bi < BPB
  {
    Bit(b[bi / 8], bi % 8)
  }

  /** b->data[bi/8] |= 1 << bi%8 */
  function Set(b: Block, bi: nat): Block
    requires bi < BPB
  {
    var x: nat := b[bi / 8];
    if Bit(x, bi % 8) then b
    else
      ByteLimit();
      SumFits(x, bi % 8, 8);
      b[bi / 8 := x + Mask(bi % 8)]
  }

  /** b->data[bi/8] &= ~(1 << bi%8) */
  function Clear(b: Block, bi: nat): Block
    requires bi < BPB
  {
    var x: nat := b[bi / 8];
    if Bit(x, bi % 8) then
      MaskWithin(x, bi % 8);
      b[bi / 8 := x - Mask(bi % 8)]
    else b
  }

  lemma TestSet(b: Block, bi: nat, bj: nat)
    requires bi < BPB && bj < BPB
    ensures Test(Set(b, bi), bj) <==> bj == bi || Test(b, bj)
  {
    hide Bit, Mask;
    if bi / 8 == bj / 8 && !Bit(b[bi / 8], bi % 8) {
      BitsOfSum(b[bi / 8], bi % 8, bj % 8);
    }
  }

  lemma TestClear(b: Block, bi: nat, bj: nat)
    requires bi < BPB && bj < BPB
    ensures Test(Clear(b, bi), bj) <==> bj != bi && Test(b, bj)
  {
    hide Bit, Mask;
    var x: nat := b[bi / 8];
    if bi / 8 == bj / 8 && Bit(x, bi % 8) {
      MaskWithin(x, bi % 8);
      BitsOfSum(x - Mask(bi % 8), bi % 8, bj % 8);
    }
  }

  lemma {:induction false} BitOfZero(k: nat)
    ensures !Bit(0, k)
    decreases k
  {
    if k > 0 {
      BitOfZero(k - 1);
    }
  }
}
