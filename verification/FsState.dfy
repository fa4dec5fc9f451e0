/**
 The file system's block structure (fs.h, fs.c): which inode slot refers to which block, which
 blocks the free map counts as used, and what bytes a file holds.
 */
module FsState {
  import opened Common
  import opened Blocks
  import opened Bitmap

  const NDIRECT := 12
  const NINDIRECT := 128               // BSIZE / sizeof(uint)
  const MAXFILE := 140                 // NDIRECT + NINDIRECT
  const MAXBYTES := MAXFILE * BSIZE
  const IND := MAXFILE                 // the slot number given to the indirect pointer addrs[NDIRECT]
  const IPB := 8                       // inodes per block

  type Addrs = a: seq<Uint> | |a| == NDIRECT + 1 witness seq(NDIRECT + 1, _ => 0)

  datatype Dinode = Dinode(typ: int, size: Uint, addrs: Addrs)

  /** ip->addrs[n] = a */
  function PutAddr(d: Dinode, n: nat, a: Uint): Dinode
    requires n <= NDIRECT
  {
    Dinode(d.typ, d.size, d.addrs[n := a])
  }

  /** The superblock, with the first data block that mkfs leaves behind the free map. */
  datatype Super = Super(size: Uint, ninodes: nat, inodestart: nat, bmapstart: nat, datastart: nat) {
    predicate Valid() {
      && 2 <= inodestart
      && inodestart + ninodes / IPB + 1 <= bmapstart
      && bmapstart + size / BPB + 1 <= datastart <= size
    }

    function Bblock(b: nat): nat {
      b / BPB + bmapstart
    }

    function Iblock(i: nat): nat {
      i / IPB + inodestart
    }

    predicate Data(b: nat) {
      datastart <= b < size
    }
  }

  /** Block contents and inodes, as the kernel sees them now. */
  datatype Fs = Fs(blocks: Image, inodes: seq<Dinode>)

  /** The block that slot k of inode i refers to, 0 if none: the file's k-th block, or IND. */
  function At(s: Fs, i: nat, k: nat): nat
    requires i < |s.inodes| && k <= IND
  {
    var addrs := s.inodes[i].addrs;
    if k < NDIRECT then addrs[k]
    else if k == IND then addrs[NDIRECT]
    else if addrs[NDIRECT] == 0 || addrs[NDIRECT] >= |s.blocks| then 0
    else Word(s.blocks[addrs[NDIRECT]], k - NDIRECT)
  }

  predicate Allocated(sb: Super, blocks: Image, b: nat)
    requires sb.Valid() && |blocks| == sb.size && b < sb.size
  {
    Test(blocks[sb.Bblock(b)], b % BPB)
  }

  /** For each used data block, the one slot that refers to it. */
  type Owner = map<nat, (nat, nat)>

  ghost predicate Shaped(sb: Super, s: Fs) {
    sb.Valid() && |s.blocks| == sb.size && |s.inodes| == sb.ninodes
  }

  ghost predicate OwnerOk(sb: Super, s: Fs, owner: Owner, b: nat)
    requires Shaped(sb, s)
  {
    b in owner ==>
      && sb.Data(b)
      && owner[b].0 < sb.ninodes && owner[b].1 <= IND
      && At(s, owner[b].0, owner[b].1) == b
  }

  ghost predicate SlotOk(sb: Super, s: Fs, owner: Owner, i: nat, k: nat)
    requires Shaped(sb, s) && i < sb.ninodes && k <= IND
  {
    At(s, i, k) != 0 ==> At(s, i, k) in owner && owner[At(s, i, k)] == (i, k)
  }

  /**
   Block ownership: the free map counts exactly the metadata and the blocks some slot refers to,
   and every block referred to lies in the data area and has exactly one referring slot.
   */
  ghost predicate Owned(sb: Super, s: Fs, owner: Owner) {
    && Shaped(sb, s)
    && (forall b: nat :: b < sb.size ==> (Allocated(sb, s.blocks, b) <==> b < sb.datastart || b in owner))
    && (forall b: nat :: OwnerOk(sb, s, owner, b))
    && (forall i: nat, k: nat :: i < sb.ninodes && k <= IND ==> SlotOk(sb, s, owner, i, k))
  }

  /** Exactly one slot refers to an owned block. */
  lemma OneSlot(sb: Super, s: Fs, owner: Owner, i: nat, k: nat, j: nat, l: nat)
    requires Owned(sb, s, owner) && i < sb.ninodes && j < sb.ninodes && k <= IND && l <= IND
    requires At(s, i, k) != 0 && At(s, i, k) == At(s, j, l)
    ensures i == j && k == l && sb.Data(At(s, i, k)) && Allocated(sb, s.blocks, At(s, i, k))
  {
    hide At, Allocated;
    assert SlotOk(sb, s, owner, i, k) && SlotOk(sb, s, owner, j, l);
    assert OwnerOk(sb, s, owner, At(s, i, k));
  }

  /** Every slot but (i, k) refers to the same block in s' as in s. */
  ghost predicate SameSlotsBut(s: Fs, s': Fs, i: nat, k: nat) {
    && |s'.inodes| == |s.inodes|
    && forall j: nat, l: nat :: j < |s.inodes| && l <= IND && (j, l) != (i, k) ==> At(s', j, l) == At(s, j, l)
  }

  /** An empty slot is made to refer to a block that was free and is now marked used. */
  lemma LinkOwned(sb: Super, s: Fs, owner: Owner, s': Fs, i: nat, k: nat, a: nat)
    requires Owned(sb, s, owner) && Shaped(sb, s') && i < sb.ninodes && k <= IND
    requires sb.Data(a) && !Allocated(sb, s.blocks, a)
    requires SameSlotsBut(s, s', i, k) && At(s, i, k) == 0 && At(s', i, k) == a
    requires forall b: nat :: b < sb.size ==> (Allocated(sb, s'.blocks, b) <==> b == a || Allocated(sb, s.blocks, b))
    ensures Owned(sb, s', owner[a := (i, k)])
  {
    hide At, Allocated;
    var owner' := owner[a := (i, k)];
    forall b: nat
      ensures OwnerOk(sb, s', owner', b)
    {
      assert OwnerOk(sb, s, owner, b);
    }
    forall j: nat, l: nat | j < sb.ninodes && l <= IND
      ensures SlotOk(sb, s', owner', j, l)
    {
      assert SlotOk(sb, s, owner, j, l);
    }
  }

  // ---------- The free map ----------

  function Marked(sb: Super, blocks: Image, a: nat): Image
    requires sb.Valid() && |blocks| == sb.size && a < sb.size
  {
    blocks[sb.Bblock(a) := Set(blocks[sb.Bblock(a)], a % BPB)]
  }

  function Unmarked(sb: Super, blocks: Image, a: nat): Image
    requires sb.Valid() && |blocks| == sb.size && a < sb.size
  {
    blocks[sb.Bblock(a) := Clear(blocks[sb.Bblock(a)], a % BPB)]
  }

  lemma MarkedBits(sb: Super, blocks: Image, a: nat, b: nat)
    requires sb.Valid() && |blocks| == sb.size && a < sb.size && b < sb.size
    ensures Allocated(sb, Marked(sb, blocks, a), b) <==> b == a || Allocated(sb, blocks, b)
    ensures Allocated(sb, Unmarked(sb, blocks, a), b) <==> b != a && Allocated(sb, blocks, b)
  {
    hide Test, Set, Clear;
    TestSet(blocks[sb.Bblock(a)], a % BPB, b % BPB);
    TestClear(blocks[sb.Bblock(a)], a % BPB, b % BPB);
    assert a / BPB == b / BPB && a % BPB == b % BPB ==> a == b;
  }

  /** Writing data blocks leaves the free map alone. */
  lemma DataWriteBits(sb: Super, blocks: Image, d: nat, x: Block, b: nat)
    requires sb.Valid() && |blocks| == sb.size && sb.Data(d) && b < sb.size
    ensures Allocated(sb, blocks[d := x], b) == Allocated(sb, blocks, b)
  {
    assert sb.Bblock(b) < sb.datastart;
  }

  // ---------- Bytes ----------

  /** Byte p of the data that inode i's slots hold; a slot without a block reads as zeros. */
  function FileByte(s: Fs, i: nat, p: nat): Byte
    requires i < |s.inodes| && p < MAXBYTES
  {
    var a := At(s, i, p / BSIZE);
    if a == 0 || a >= |s.blocks| then 0 else s.blocks[a][p % BSIZE]
  }

  ghost predicate SameBytes(s: Fs, s': Fs) {
    && |s'.inodes| == |s.inodes|
    && forall i: nat, p: nat :: i < |s.inodes| && p < MAXBYTES ==> FileByte(s', i, p) == FileByte(s, i, p)
  }

  /** The contents of file i: its first `size` bytes. */
  function Contents(s: Fs, i: nat): (c: seq<Byte>)
    requires i < |s.inodes|
  {
    var n := if s.inodes[i].size <= MAXBYTES then s.inodes[i].size else MAXBYTES;
    seq(n, p requires 0 <= p < n => FileByte(s, i, p))
  }

  lemma LengthIsSize(s: Fs, i: nat)
    requires i < |s.inodes| && s.inodes[i].size <= MAXBYTES
    ensures |Contents(s, i)| == s.inodes[i].size
  {
  }

  /** Every block below the end of the file is there. */
  ghost predicate HoleFree(s: Fs, i: nat)
    requires i < |s.inodes|
  {
    && s.inodes[i].size <= MAXBYTES
    && forall k: nat :: k < MAXFILE && k * BSIZE < s.inodes[i].size ==> At(s, i, k) != 0
  }

  // ---------- What balloc and bmap do to the structure ----------

  /** The blocks after balloc has returned a: marked used, and zeroed. */
  function Grabbed(sb: Super, blocks: Image, a: nat): (r: Image)
    requires sb.Valid() && |blocks| == sb.size && sb.Data(a)
    ensures |r| == |blocks|
  {
    Marked(sb, blocks, a)[a := ZERO_BLOCK]
  }

  lemma GrabbedBits(sb: Super, blocks: Image, a: nat, b: nat)
    requires sb.Valid() && |blocks| == sb.size && sb.Data(a) && b < sb.size
    ensures Allocated(sb, Grabbed(sb, blocks, a), b) <==> b == a || Allocated(sb, blocks, b)
  {
    hide Allocated;
    MarkedBits(sb, blocks, a, b);
    DataWriteBits(sb, Marked(sb, blocks, a), a, ZERO_BLOCK, b);
  }

  /** A used data block is not the one balloc returns, nor a block of the free map. */
  lemma GrabbedElsewhere(sb: Super, s: Fs, owner: Owner, a: nat, b: nat)
    requires Owned(sb, s, owner) && sb.Data(a) && !Allocated(sb, s.blocks, a) && b in owner
    ensures sb.Data(b) && b != a && Grabbed(sb, s.blocks, a)[b] == s.blocks[b]
  {
    hide At, Allocated;
    assert OwnerOk(sb, s, owner, b);
  }

  /** balloc alone changes no slot. */
  lemma GrabbedSlots(sb: Super, s: Fs, owner: Owner, a: nat, j: nat, l: nat)
    requires Owned(sb, s, owner) && sb.Data(a) && !Allocated(sb, s.blocks, a)
    requires j < sb.ninodes && l <= IND
    ensures At(s.(blocks := Grabbed(sb, s.blocks, a)), j, l) == At(s, j, l)
  {
    hide Allocated, Word;
    assert SlotOk(sb, s, owner, j, IND);
    var ind := At(s, j, IND);
    if ind != 0 {
      GrabbedElsewhere(sb, s, owner, a, ind);
    }
  }

  /** The structure after slot (i, k) of the inode itself was pointed at a freshly grabbed block. */
  function LinkedAddr(sb: Super, s: Fs, i: nat, n: nat, a: nat): Fs
    requires sb.Valid() && |s.blocks| == sb.size && sb.Data(a) && i < |s.inodes| && n <= NDIRECT
  {
    Fs(Grabbed(sb, s.blocks, a), s.inodes[i := PutAddr(s.inodes[i], n, a)])
  }

  lemma LinkedAddrSlots(sb: Super, s: Fs, owner: Owner, i: nat, n: nat, a: nat)
    requires Owned(sb, s, owner) && sb.Data(a) && !Allocated(sb, s.blocks, a)
    requires i < sb.ninodes && n <= NDIRECT && s.inodes[i].addrs[n] == 0
    ensures var k := if n < NDIRECT then n else IND;
            SameSlotsBut(s, LinkedAddr(sb, s, i, n, a), i, k) && At(LinkedAddr(sb, s, i, n, a), i, k) == a
  {
    hide Allocated, Word, Grabbed;
    var s1 := s.(blocks := Grabbed(sb, s.blocks, a));
    var s2 := LinkedAddr(sb, s, i, n, a);
    var k := if n < NDIRECT then n else IND;
    forall j: nat, l: nat | j < sb.ninodes && l <= IND && (j, l) != (i, k)
      ensures At(s2, j, l) == At(s, j, l)
    {
      GrabbedSlots(sb, s, owner, a, j, l);
      if j == i && n == NDIRECT && NDIRECT <= l < IND {
        GrabbedIsZero(sb, s.blocks, a);
        WordOfZero(l - NDIRECT);
      }
    }
  }

  lemma GrabbedIsZero(sb: Super, blocks: Image, a: nat)
    requires sb.Valid() && |blocks| == sb.size && sb.Data(a)
    ensures Grabbed(sb, blocks, a)[a] == ZERO_BLOCK
  {
  }

  /** The structure after an entry of the indirect block was pointed at a freshly grabbed block. */
  function LinkedEntry(sb: Super, s: Fs, i: nat, k: nat, a: nat): Fs
    requires sb.Valid() && |s.blocks| == sb.size && sb.Data(a) && i < |s.inodes|
    requires NDIRECT <= k < MAXFILE && At(s, i, IND) < |s.blocks|
  {
    var ind := At(s, i, IND);
    var blocks := Grabbed(sb, s.blocks, a);
    s.(blocks := blocks[ind := PutWord(blocks[ind], k - NDIRECT, a)])
  }

  lemma LinkedEntrySlots(sb: Super, s: Fs, owner: Owner, i: nat, k: nat, a: nat)
    requires Owned(sb, s, owner) && sb.Data(a) && !Allocated(sb, s.blocks, a)
    requires i < sb.ninodes && NDIRECT <= k < MAXFILE && At(s, i, IND) != 0
    ensures At(s, i, IND) in owner && sb.Data(At(s, i, IND))
    ensures SameSlotsBut(s, LinkedEntry(sb, s, i, k, a), i, k) && At(LinkedEntry(sb, s, i, k, a), i, k) == a
  {
    hide Allocated, Word, PutWord, Grabbed;
    var ind := At(s, i, IND);
    assert SlotOk(sb, s, owner, i, IND);
    GrabbedElsewhere(sb, s, owner, a, ind);
    var s2 := LinkedEntry(sb, s, i, k, a);
    WordOfPut(s.blocks[ind], k - NDIRECT, a, k - NDIRECT);
    forall j: nat, l: nat | j < sb.ninodes && l <= IND && (j, l) != (i, k)
      ensures At(s2, j, l) == At(s, j, l)
    {
      GrabbedSlots(sb, s, owner, a, j, l);
      if NDIRECT <= l < IND {
        if j == i {
          WordOfPut(s.blocks[ind], k - NDIRECT, a, l - NDIRECT);
        } else if At(s, j, IND) == ind {
          OneSlot(sb, s, owner, i, IND, j, IND);
        }
      }
    }
  }

  /** Blocks that hold file data, as opposed to indirect blocks, have the same contents. */
  ghost predicate SameData(s: Fs, s': Fs, owner: Owner) {
    && |s'.blocks| == |s.blocks|
    && forall b: nat :: b in owner && owner[b].1 < IND && b < |s.blocks| ==> s'.blocks[b] == s.blocks[b]
  }

  /** Giving a slot a zeroed block, or an indirect block, changes no byte of any file. */
  lemma LinkBytes(sb: Super, s: Fs, owner: Owner, s': Fs, i: nat, k: nat, a: nat)
    requires Owned(sb, s, owner) && Shaped(sb, s') && i < sb.ninodes && k <= IND && sb.Data(a)
    requires SameSlotsBut(s, s', i, k) && At(s, i, k) == 0 && At(s', i, k) == a
    requires SameData(s, s', owner) && (k < IND ==> s'.blocks[a] == ZERO_BLOCK)
    ensures SameBytes(s, s')
  {
    hide At, Allocated;
    forall j: nat, p: nat | j < sb.ninodes && p < MAXBYTES
      ensures FileByte(s', j, p) == FileByte(s, j, p)
    {
      var l := p / BSIZE;
      assert SlotOk(sb, s, owner, j, l);
      assert OwnerOk(sb, s, owner, At(s, j, l));
    }
  }

  // ---------- Writing data, and freeing a file ----------

  /** Overwriting a file's data block changes that block's bytes of that file and nothing else. */
  lemma DataWrite(sb: Super, s: Fs, owner: Owner, i: nat, k: nat, x: Block)
    requires Owned(sb, s, owner) && i < sb.ninodes && k < MAXFILE && At(s, i, k) != 0
    ensures sb.Data(At(s, i, k))
    ensures var s' := s.(blocks := s.blocks[At(s, i, k) := x]);
            && Owned(sb, s', owner)
            && (forall j: nat, l: nat :: j < sb.ninodes && l <= IND ==> At(s', j, l) == At(s, j, l))
            && forall j: nat, p: nat :: j < sb.ninodes && p < MAXBYTES ==>
                 FileByte(s', j, p) == if j == i && p / BSIZE == k then x[p % BSIZE] else FileByte(s, j, p)
  {
    hide Allocated, Word;
    var d := At(s, i, k);
    OneSlot(sb, s, owner, i, k, i, k);
    var s' := s.(blocks := s.blocks[d := x]);
    forall j: nat, l: nat | j < sb.ninodes && l <= IND
      ensures At(s', j, l) == At(s, j, l)
    {
      if At(s, j, IND) == d {
        OneSlot(sb, s, owner, i, k, j, IND);
      }
    }
    DataWriteOwned(sb, s, owner, s', d);
    forall j: nat, p: nat | j < sb.ninodes && p < MAXBYTES
      ensures FileByte(s', j, p) == if j == i && p / BSIZE == k then x[p % BSIZE] else FileByte(s, j, p)
    {
      if At(s, j, p / BSIZE) == d {
        OneSlot(sb, s, owner, i, k, j, p / BSIZE);
      }
    }
  }

  lemma DataWriteOwned(sb: Super, s: Fs, owner: Owner, s': Fs, d: nat)
    requires Owned(sb, s, owner) && sb.Data(d) && |s'.blocks| == |s.blocks| && |s'.inodes| == |s.inodes|
    requires s'.blocks == s.blocks[d := s'.blocks[d]]
    requires forall j: nat, l: nat :: j < sb.ninodes && l <= IND ==> At(s', j, l) == At(s, j, l)
    ensures Owned(sb, s', owner)
  {
    hide Allocated, At;
    forall b: nat | b < sb.size
      ensures Allocated(sb, s'.blocks, b) <==> b < sb.datastart || b in owner
    {
      DataWriteBits(sb, s.blocks, d, s'.blocks[d], b);
    }
    forall b: nat
      ensures OwnerOk(sb, s', owner, b)
    {
      assert OwnerOk(sb, s, owner, b);
    }
    forall j: nat, l: nat | j < sb.ninodes && l <= IND
      ensures SlotOk(sb, s', owner, j, l)
    {
      assert SlotOk(sb, s, owner, j, l);
    }
  }

  /** The blocks that slots below k of inode i own. */
  ghost predicate Mine(owner: Owner, i: nat, k: nat, b: nat) {
    b in owner && owner[b].0 == i && owner[b].1 < k
  }

  ghost function OwnerWithout(owner: Owner, i: nat): Owner {
    map b | b in owner && owner[b].0 != i :: owner[b]
  }

  /** Once a file's slots are all empty and exactly its blocks are freed, ownership is as it should be. */
  lemma TruncatedOwned(sb: Super, s: Fs, owner: Owner, s': Fs, i: nat)
    requires Owned(sb, s, owner) && Shaped(sb, s') && i < sb.ninodes
    requires forall k: nat :: k <= IND ==> At(s', i, k) == 0
    requires forall j: nat, l: nat :: j < sb.ninodes && j != i && l <= IND ==> At(s', j, l) == At(s, j, l)
    requires forall b: nat :: b < sb.size ==>
      (Allocated(sb, s'.blocks, b) <==> Allocated(sb, s.blocks, b) && !Mine(owner, i, IND + 1, b))
    ensures Owned(sb, s', OwnerWithout(owner, i))
  {
    hide Allocated, At;
    var owner' := OwnerWithout(owner, i);
    forall b: nat
      ensures OwnerOk(sb, s', owner', b)
      ensures b < sb.size ==> (Allocated(sb, s'.blocks, b) <==> b < sb.datastart || b in owner')
    {
      assert OwnerOk(sb, s, owner, b);
    }
    forall j: nat, l: nat | j < sb.ninodes && l <= IND
      ensures SlotOk(sb, s', owner', j, l)
    {
      assert SlotOk(sb, s, owner, j, l);
    }
  }
}
