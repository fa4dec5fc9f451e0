/**
 mkfs.c: the image that the kernel's invariants start from.

 mkfs hands out blocks by counting `freeblock` up and writes the free map last.  The state the
 kernel will see is therefore described, at any moment, by the sectors with the free map that
 mkfs's balloc would write now.
 */
module Mkfs {
  import opened Common
  import opened Blocks
  import opened Bitmap
  import opened FsState
  import opened FileSys

  const FSSIZE := 1000
  const NINODES := 200
  const NLOG := 30                          // LOGSIZE
  const NINODEBLOCKS := NINODES / IPB + 1
  const NBITMAP := FSSIZE / BPB + 1
  const NMETA := 2 + NLOG + NINODEBLOCKS + NBITMAP

  const SB := Super(FSSIZE, NINODES, 2 + NLOG, 2 + NLOG + NINODEBLOCKS, NMETA)

  const T_DIR := 1
  const T_FILE := 2
  const ROOTINO := 1

  /** The free map block that marks blocks 0 .. used. */
  function Bits(used: nat): Block
    requires used <= BPB
  {
    if used == 0 then ZERO_BLOCK else Set(Bits(used - 1), used - 1)
  }

  lemma {:induction false} BitsMark(used: nat, b: nat)
    requires used <= BPB && b < BPB
    ensures Test(Bits(used), b) <==> b < used
    decreases used
  {
    hide Test, Set;
    if used == 0 {
      assert !Test(ZERO_BLOCK, b) by { ZeroBits(b); }
    } else {
      BitsMark(used - 1, b);
      TestSet(Bits(used - 1), used - 1, b);
    }
  }

  lemma ZeroBits(b: nat)
    requires b < BPB
    ensures !Test(ZERO_BLOCK, b)
  {
    BitOfZero(b % 8);
  }

  /** mkfs.c balloc. */
  method Balloc(used: nat) returns (buf: Block)
    requires used < BPB
    ensures forall b: nat :: b < BPB ==> (Test(buf, b) <==> b < used)
    ensures buf == Bits(used)
  {
    hide Test, Set;
    buf := ZERO_BLOCK;
    for i := 0 to used
      invariant buf == Bits(i)
    {
      buf := Set(buf, i);
    }
    forall b: nat | b < BPB
      ensures Test(buf, b) <==> b < used
    {
      BitsMark(used, b);
    }
  }

  lemma LayoutValid()
    ensures SB.Valid() && SB.bmapstart == 58 && SB.datastart == 59
  {
  }

  /** The sectors with the free map as it would be written now. */
  ghost function WithMap(sectors: Image, used: nat): Image
    requires |sectors| == FSSIZE && used <= FSSIZE
  {
    sectors[SB.bmapstart := Bits(used)]
  }

  /** A block is there exactly for every started block of the file. */
  ghost predicate Tight(s: Fs, i: nat, size: nat)
    requires i < |s.inodes|
  {
    && size <= MAXBYTES && (At(s, i, IND) != 0 <==> NDIRECT * BSIZE < size)
    && forall k: nat :: k < MAXFILE ==> (At(s, i, k) != 0 <==> k * BSIZE < size)
  }

  /** The blocks that a file of this size takes: one for each started block, and the indirect one. */
  function BlocksFor(size: nat): nat {
    var n := (size + BSIZE - 1) / BSIZE;
    if n > NDIRECT then n + 1 else n
  }

  /** The blocks that are missing for file block k. */
  ghost function Missing(s: Fs, i: nat, k: nat): nat
    requires i < |s.inodes| && k < MAXFILE
  {
    (if At(s, i, k) == 0 then 1 else 0) + (if k >= NDIRECT && At(s, i, IND) == 0 then 1 else 0)
  }

  lemma BlocksGrow(size: nat, more: nat)
    requires size <= more
    ensures BlocksFor(size) <= BlocksFor(more)
  {
  }

  /** In a file without gaps, what is missing for the next bytes is what the larger file takes more. */
  lemma MissingIs(s: Fs, i: nat, off: nat, m: nat)
    requires i < |s.inodes| && Tight(s, i, off) && 0 < m <= BSIZE - off % BSIZE && off < MAXBYTES
    ensures BlocksFor(off + m) == BlocksFor(off) + Missing(s, i, off / BSIZE)
  {
    hide At;
    var k := off / BSIZE;
    assert off == k * BSIZE + off % BSIZE;
    assert (off + m + BSIZE - 1) / BSIZE == k + 1;
    if off % BSIZE == 0 {
      assert (off + BSIZE - 1) / BSIZE == k;
    } else {
      assert (off + BSIZE - 1) / BSIZE == k + 1;
    }
  }

  /** Nothing but zeros behind the end of the file. */
  ghost predicate ZeroTail(s: Fs, i: nat)
    requires i < |s.inodes|
  {
    forall q: nat :: s.inodes[i].size <= q < MAXBYTES ==> FileByte(s, i, q) == 0
  }

  /** Counting freeblock up is what the kernel's balloc would do on the finished image. */
  lemma NextBlock(sectors: Image, used: nat)
    requires |sectors| == FSSIZE && NMETA <= used < FSSIZE && sectors[used] == ZERO_BLOCK
    ensures SB.Data(used) && !Allocated(SB, WithMap(sectors, used), used)
    ensures WithMap(sectors, used + 1) == Grabbed(SB, WithMap(sectors, used), used)
  {
    hide Test, Set;
    LayoutValid();
    BitsMark(used, used);
    var w := WithMap(sectors, used);
    assert used / BPB == 0 && used % BPB == used;
    assert SB.Bblock(used) == SB.bmapstart;
    assert Bits(used + 1) == Set(Bits(used), used);
    assert WithMap(sectors, used + 1) == Marked(SB, w, used);
    assert Marked(SB, w, used)[used] == ZERO_BLOCK;
  }

  class Maker {
    var sectors: Image
    var inodes: seq<Dinode>
    var freeblock: nat
    var freeinode: nat
    ghost var owner: Owner

    ghost predicate Shaped()
      reads this
    {
      && |sectors| == FSSIZE && |inodes| == NINODES && NMETA <= freeblock <= FSSIZE
      && 1 <= freeinode <= NINODES
      && forall b :: freeblock <= b < FSSIZE ==> sectors[b] == ZERO_BLOCK
    }

    /** What the kernel would find if mkfs stopped handing out blocks now. */
    ghost function State(): Fs
      requires Shaped()
      reads this
    {
      Fs(WithMap(sectors, freeblock), inodes)
    }

    ghost predicate Valid()
      reads this
    {
      && Shaped()
      && Owned(SB, State(), owner)
      && (forall i: nat :: i < NINODES ==> Tight(State(), i, inodes[i].size) && ZeroTail(State(), i))
      && forall i :: freeinode <= i < NINODES ==> inodes[i] == EmptyInode()
    }

    /** mkfs up to the superblock: every sector zero, every inode free. */
    constructor ()
      ensures Valid() && freeblock == NMETA && freeinode == 1 && owner == map[]
      ensures forall i: nat :: i < NINODES ==> inodes[i] == EmptyInode()
    {
      sectors := seq(FSSIZE, _ => ZERO_BLOCK);
      inodes := seq(NINODES, _ => EmptyInode());
      freeblock, freeinode, owner := NMETA, 1, map[];
      new;
      EmptyOwned(State());
    }

    /** mkfs.c ialloc. */
    method Ialloc(typ: int) returns (inum: nat)
      requires Valid() && freeinode < NINODES
      modifies this`inodes, this`freeinode
      ensures Valid() && inum == old(freeinode) && freeinode == old(freeinode) + 1
      ensures inodes == old(inodes)[inum := Dinode(typ, 0, old(inodes)[inum].addrs)]
      ensures SameBytes(old(State()), State()) && Contents(State(), inum) == []
    {
      hide Allocated, At;
      inum := freeinode;
      freeinode := freeinode + 1;
      inodes := inodes[inum := Dinode(typ, 0, EmptyInode().addrs)];
      TypeOnly(SB, old(State()), owner, inum, typ);
    }

    /** `din.addrs[n] = freeblock++`, and the rsect that then reads the block; false is exit(1). */
    method TakeAddr(i: nat, n: nat) returns (ok: bool)
      requires Shaped() && Owned(SB, State(), owner) && i < NINODES && n <= NDIRECT && inodes[i].addrs[n] == 0
      modifies this`inodes, this`freeblock, this`owner
      ensures ok <==> old(freeblock) < FSSIZE
      ensures ok ==> freeblock == old(freeblock) + 1
      ensures ok ==>
                && Shaped() && Owned(SB, State(), owner) && SameBytes(old(State()), State())
                && inodes == old(inodes)[i := PutAddr(old(inodes)[i], n, old(freeblock))]
                && old(freeblock) != 0
                && SameSlotsBut(old(State()), State(), i, if n < NDIRECT then n else IND)
    {
      hide Allocated, At, WithMap;
      var a := freeblock;
      if a >= FSSIZE {
        return false;
      }
      ghost var s := State();
      NextBlock(sectors, a);
      freeblock := freeblock + 1;
      inodes := inodes[i := PutAddr(inodes[i], n, a)];
      ghost var k := if n < NDIRECT then n else IND;
      EmptyAddr(s, i, n);
      LinkedAddrSlots(SB, s, owner, i, n, a);
      LinkedHere(SB, s, owner, State(), i, k, a);
      owner := owner[a := (i, k)];
      return true;
    }

    /** `indirect[k - NDIRECT] = freeblock++; wsect(din.addrs[NDIRECT], indirect)` */
    method TakeEntry(i: nat, k: nat) returns (ok: bool)
      requires Shaped() && Owned(SB, State(), owner) && i < NINODES && NDIRECT <= k < MAXFILE
      requires At(State(), i, IND) != 0 && At(State(), i, k) == 0
      modifies this`sectors, this`freeblock, this`owner
      ensures ok <==> old(freeblock) < FSSIZE
      ensures ok ==> freeblock == old(freeblock) + 1
      ensures ok ==>
                && Shaped() && Owned(SB, State(), owner) && SameBytes(old(State()), State())
                && SameSlotsBut(old(State()), State(), i, k) && At(State(), i, k) != 0
    {
      hide Allocated, At, PutWord;
      var a := freeblock;
      if a >= FSSIZE {
        return false;
      }
      ghost var s := State();
      var ind := inodes[i].addrs[NDIRECT];
      EmptyAddr(s, i, NDIRECT);
      IndirectIsData(SB, s, owner, i);
      NextBlock(sectors, a);
      assert ind < a by { BelowFree(sectors, a, s, owner, ind, i, IND); }
      freeblock := freeblock + 1;
      sectors := sectors[ind := PutWord(sectors[ind], k - NDIRECT, a)];
      LinkedEntrySlots(SB, s, owner, i, k, a);
      assert State().blocks == LinkedEntry(SB, s, i, k, a).blocks;
      LinkedHere(SB, s, owner, State(), i, k, a);
      owner := owner[a := (i, k)];
      return true;
    }

    /** The address part of iappend's loop: the block for file block fbn, taken if it is missing. */
    method MapBlock(i: nat, fbn: nat) returns (ok: bool, x: nat)
      requires Shaped() && Owned(SB, State(), owner) && i < NINODES && fbn < MAXFILE
      modifies this`sectors, this`inodes, this`freeblock, this`owner
      ensures ok <==> old(freeblock) + Missing(old(State()), i, fbn) <= FSSIZE
      ensures ok ==>
                && freeblock == old(freeblock) + Missing(old(State()), i, fbn)
                && Shaped() && Owned(SB, State(), owner) && SameBytes(old(State()), State())
                && inodes == old(inodes)[i := inodes[i]]
                && inodes[i].typ == old(inodes)[i].typ && inodes[i].size == old(inodes)[i].size
                && OnlySlot(old(State()), State(), i, fbn) && At(State(), i, fbn) == x != 0
                && (At(State(), i, IND) != 0 <==> At(old(State()), i, IND) != 0 || fbn >= NDIRECT)
    {
      hide Allocated, At, WithMap;
      ghost var s := State();
      if fbn < NDIRECT {
        EmptyAddr(s, i, fbn);
        if inodes[i].addrs[fbn] == 0 {
          ok := TakeAddr(i, fbn);
          if !ok {
            return false, 0;
          }
          EmptyAddr(State(), i, fbn);
        }
        return true, inodes[i].addrs[fbn];
      }
      EmptyAddr(s, i, NDIRECT);
      if inodes[i].addrs[NDIRECT] == 0 {
        ok := TakeAddr(i, NDIRECT);
        if !ok {
          return false, 0;
        }
      }
      ghost var s1 := State();
      EmptyAddr(s1, i, NDIRECT);
      IndirectIsData(SB, s1, owner, i);
      EntryIs(s1, i, fbn);
      assert s1.blocks[inodes[i].addrs[NDIRECT]] == sectors[inodes[i].addrs[NDIRECT]] by { NotTheMap(); }
      if Word(sectors[inodes[i].addrs[NDIRECT]], fbn - NDIRECT) == 0 {
        ok := TakeEntry(i, fbn);
        if !ok {
          return false, 0;
        }
        EmptyAddr(State(), i, NDIRECT);
        IndirectIsData(SB, State(), owner, i);
        EntryIs(State(), i, fbn);
        assert State().blocks[inodes[i].addrs[NDIRECT]] == sectors[inodes[i].addrs[NDIRECT]] by { NotTheMap(); }
      }
      return true, Word(sectors[inodes[i].addrs[NDIRECT]], fbn - NDIRECT);
    }

    /** One round of iappend: bytes d at offset off, inside one block, which is the next one or half full. */
    method AppendPart(i: nat, d: seq<Byte>, off: nat) returns (ok: bool)
      requires Shaped() && Owned(SB, State(), owner) && i < NINODES
      requires 0 < |d| <= BSIZE - off % BSIZE && off < MAXBYTES && Tight(State(), i, off)
      modifies this`sectors, this`inodes, this`freeblock, this`owner
      ensures ok <==> old(freeblock) + BlocksFor(off + |d|) - BlocksFor(off) <= FSSIZE
      ensures ok ==>
                && freeblock == old(freeblock) + BlocksFor(off + |d|) - BlocksFor(off)
                && Shaped() && Owned(SB, State(), owner) && Tight(State(), i, off + |d|)
                && BytesWritten(old(State()), State(), i, off, d)
                && inodes == old(inodes)[i := inodes[i]]
                && inodes[i].typ == old(inodes)[i].typ && inodes[i].size == old(inodes)[i].size
                && OnlySlot(old(State()), State(), i, off / BSIZE)
    {
      hide Allocated, At, WithMap, BlocksFor;
      ghost var s := State();
      MissingIs(s, i, off, |d|);
      var x;
      ok, x := MapBlock(i, off / BSIZE);
      if !ok {
        return false;
      }
      ghost var s1 := State();
      OneSlot(SB, s1, owner, i, off / BSIZE, i, off / BSIZE);
      NotTheMap();
      var buf := Patch(sectors[x], off % BSIZE, d);
      DataWrite(SB, s1, owner, i, off / BSIZE, buf);
      BelowFree(sectors, freeblock, s1, owner, x, i, off / BSIZE);
      MapWrite(sectors, freeblock, x, buf);
      sectors := sectors[x := buf];
      forall j: nat, q: nat | j < NINODES && q < MAXBYTES
        ensures FileByte(State(), j, q) ==
                if j == i && off <= q < off + |d| then d[q - off] else FileByte(s, j, q)
      {
        assert FileByte(s1, j, q) == FileByte(s, j, q);
        if j == i && q / BSIZE == off / BSIZE {
          PatchedAt(s1.blocks[x], off, d, q);
        }
      }
      StillTight(s, State(), i, off, |d|);
      return true;
    }

    /** iappend: the file grows by p; `false` is its assertion, or exit(1) when the image is full. */
    method Iappend(i: nat, p: seq<Byte>) returns (ok: bool)
      requires Valid() && i < freeinode
      modifies this`sectors, this`inodes, this`freeblock, this`owner
      ensures var size := old(inodes)[i].size;
              && (ok <==> size + |p| <= MAXBYTES && old(freeblock) + BlocksFor(size + |p|) - BlocksFor(size) <= FSSIZE)
              && (ok ==> freeblock == old(freeblock) + BlocksFor(size + |p|) - BlocksFor(size))
      ensures ok ==>
                && Valid() && inodes[i].typ == old(inodes)[i].typ
                && Contents(State(), i) == Contents(old(State()), i) + p
                && forall j: nat :: j < NINODES && j != i ==> SameFile(old(State()), State(), j)
    {
      hide Allocated, At, WithMap, FileByte, BlocksFor;
      ghost var s := State();
      var off, n := inodes[i].size, 0;
      ghost var off0 := off;
      while n < |p|
        invariant 0 <= n <= |p| && off == off0 + n
        invariant Shaped() && Owned(SB, State(), owner) && Tight(State(), i, off)
        invariant inodes == s.inodes[i := inodes[i]]
        invariant inodes[i].typ == s.inodes[i].typ && inodes[i].size == s.inodes[i].size
        invariant BytesWritten(s, State(), i, off0, p[..n])
        invariant freeblock == old(freeblock) + BlocksFor(off) - BlocksFor(off0)
        invariant forall j: nat, l: nat :: j < NINODES && j != i && l <= IND ==> At(State(), j, l) == At(s, j, l)
      {
        var fbn := off / BSIZE;
        if fbn >= MAXFILE {
          return false;
        }
        var n1 := if |p| - n < (fbn + 1) * BSIZE - off then |p| - n else (fbn + 1) * BSIZE - off;
        ghost var s1 := State();
        BlocksGrow(off + n1, off0 + |p|);
        ok := AppendPart(i, p[n..n + n1], off);
        if !ok {
          return false;
        }
        MoreBytes(s, s1, State(), i, off0, p, n, n1);
        n, off := n + n1, off + n1;
      }
      assert p[..n] == p;
      ghost var s1 := State();
      inodes := inodes[i := Dinode(inodes[i].typ, off, inodes[i].addrs)];   // winode
      SizeOnly(SB, s1, owner, i, off);
      Appended(s, s1, State(), i, p);
      forall j: nat | j < NINODES ensures ZeroTail(State(), j) {
        TailKept(s, s1, State(), i, p, j);
      }
      return true;
    }

    lemma NotTheMap()
      requires Shaped()
      ensures forall b: nat :: SB.Data(b) ==> State().blocks[b] == sectors[b]
    {
    }
  }

  lemma MapWrite(sectors: Image, used: nat, x: nat, buf: Block)
    requires |sectors| == FSSIZE && used <= FSSIZE && SB.Data(x)
    ensures WithMap(sectors[x := buf], used) == WithMap(sectors, used)[x := buf]
  {
  }

  lemma StillTight(s: Fs, s': Fs, i: nat, off: nat, m: nat)
    requires i < |s.inodes| && Tight(s, i, off) && OnlySlot(s, s', i, off / BSIZE)
    requires 0 < m <= BSIZE - off % BSIZE && off < MAXBYTES && At(s', i, off / BSIZE) != 0
    requires At(s', i, IND) != 0 <==> At(s, i, IND) != 0 || off / BSIZE >= NDIRECT
    ensures Tight(s', i, off + m)
  {
    hide At;
    forall k: nat | k < MAXFILE
      ensures At(s', i, k) != 0 <==> k * BSIZE < off + m
    {
      if k != off / BSIZE {
        assert At(s', i, k) == At(s, i, k);
      }
    }
  }

  lemma TailKept(s: Fs, s1: Fs, s': Fs, i: nat, p: seq<Byte>, j: nat)
    requires i < |s.inodes| && j < |s.inodes| && s.inodes[i].size + |p| <= MAXBYTES && ZeroTail(s, j)
    requires BytesWritten(s, s1, i, s.inodes[i].size, p) && SameBytes(s1, s')
    requires s'.inodes == s.inodes[i := s'.inodes[i]] && s'.inodes[i].size == s.inodes[i].size + |p|
    ensures ZeroTail(s', j)
  {
    hide FileByte;
    forall q: nat | s'.inodes[j].size <= q < MAXBYTES ensures FileByte(s', j, q) == 0 {
      assert FileByte(s', j, q) == FileByte(s1, j, q) == FileByte(s, j, q);
    }
  }

  lemma Appended(s: Fs, s1: Fs, s': Fs, i: nat, p: seq<Byte>)
    requires i < |s.inodes| && s.inodes[i].size + |p| <= MAXBYTES
    requires BytesWritten(s, s1, i, s.inodes[i].size, p) && SameBytes(s1, s')
    requires s'.inodes == s.inodes[i := s'.inodes[i]] && s'.inodes[i].size == s.inodes[i].size + |p|
    ensures Contents(s', i) == Contents(s, i) + p
    ensures forall j: nat :: j < |s.inodes| && j != i ==> SameFile(s, s', j)
  {
    hide FileByte;
    assert forall q :: 0 <= q < s'.inodes[i].size ==> Contents(s', i)[q] == (Contents(s, i) + p)[q];
  }

  /** No slot but (i, k) and the indirect pointer of i changed. */
  ghost predicate OnlySlot(s: Fs, s': Fs, i: nat, k: nat) {
    && |s'.inodes| == |s.inodes|
    && forall j: nat, l: nat :: j < |s.inodes| && l <= IND && (j, l) != (i, k) && (j, l) != (i, IND) ==>
         At(s', j, l) == At(s, j, l)
  }

  lemma EntryIs(s: Fs, i: nat, k: nat)
    requires i < |s.inodes| && NDIRECT <= k < MAXFILE && 0 < s.inodes[i].addrs[NDIRECT] < |s.blocks|
    ensures At(s, i, k) == Word(s.blocks[s.inodes[i].addrs[NDIRECT]], k - NDIRECT)
  {
  }

  function EmptyInode(): Dinode {
    Dinode(0, 0, seq(NDIRECT + 1, _ => 0))
  }

  lemma EmptyOwned(s: Fs)
    requires |s.inodes| == NINODES && forall i: nat :: i < NINODES ==> s.inodes[i] == EmptyInode()
    requires |s.blocks| == FSSIZE && s.blocks[SB.bmapstart] == Bits(NMETA)
    ensures Owned(SB, s, map[])
    ensures forall i: nat :: i < NINODES ==> Tight(s, i, 0) && ZeroTail(s, i)
  {
    hide Test;
    forall b: nat | b < FSSIZE
      ensures Allocated(SB, s.blocks, b) <==> b < SB.datastart
    {
      BitsMark(NMETA, b);
      assert b / BPB == 0 && b % BPB == b;
    }
  }

  /** Giving an inode without blocks a type touches no slot. */
  lemma TypeOnly(sb: Super, s: Fs, owner: Owner, i: nat, typ: int)
    requires Owned(sb, s, owner) && i < sb.ninodes && s.inodes[i] == EmptyInode()
    ensures var s' := s.(inodes := s.inodes[i := Dinode(typ, 0, EmptyInode().addrs)]);
            Owned(sb, s', owner) && SameBytes(s, s') && Contents(s', i) == [] &&
            forall j: nat, l: nat :: j < sb.ninodes && l <= IND ==> At(s', j, l) == At(s, j, l)
  {
    hide Allocated, Word;
    var s' := s.(inodes := s.inodes[i := Dinode(typ, 0, EmptyInode().addrs)]);
    assert forall j: nat, l: nat :: j < sb.ninodes && l <= IND ==> At(s', j, l) == At(s, j, l);
    forall b: nat
      ensures OwnerOk(sb, s', owner, b)
    {
      assert OwnerOk(sb, s, owner, b);
    }
    forall j: nat, l: nat | j < sb.ninodes && l <= IND
      ensures SlotOk(sb, s', owner, j, l)
    {
      assert SlotOk(sb, s, owner, j, l);
    }
  }

  /** A block in use was handed out before. */
  lemma BelowFree(sectors: Image, used: nat, s: Fs, owner: Owner, b: nat, i: nat, k: nat)
    requires |sectors| == FSSIZE && NMETA <= used <= FSSIZE && s.blocks == WithMap(sectors, used)
    requires Owned(SB, s, owner) && i < NINODES && k <= IND && b == At(s, i, k) != 0
    ensures b < used
  {
    hide Test, Set, Bits, At;
    assert SlotOk(SB, s, owner, i, k) && OwnerOk(SB, s, owner, b);
    BitsMark(used, b);
    assert b / BPB == 0 && b % BPB == b;
    assert Allocated(SB, s.blocks, b);
  }

  // ---------- The whole image ----------

  const DIRSIZ := 14

  /** A file given to mkfs: its name on the image and its bytes. */
  datatype Input = Input(name: seq<Byte>, data: seq<Byte>)

  /** A struct dirent: the inode number, then the name cut or padded with zeros to DIRSIZ. */
  function Dirent(inum: nat, name: seq<Byte>): (d: seq<Byte>)
    requires inum < 0x10000
    ensures |d| == 2 + DIRSIZ
  {
    [inum % 0x100, inum / 0x100] +
    (if |name| >= DIRSIZ then name[..DIRSIZ] else name + seq(DIRSIZ - |name|, _ => 0))
  }

  /** The root directory's entries for the first k files. */
  function RootEntries(files: seq<Input>, k: nat): seq<Byte>
    requires k <= |files| < 0x8000
  {
    if k == 0 then Dirent(ROOTINO, [46]) + Dirent(ROOTINO, [46, 46])
    else RootEntries(files, k - 1) + Dirent(k + 1, files[k - 1].name)
  }

  /** Files 0 .. k of the list are on the image as inodes 2, 3, ... and the root names them. */
  ghost predicate Laid(files: seq<Input>, k: nat, s: Fs)
    requires |files| < 0x8000
  {
    && k <= |files| && k + 1 < |s.inodes|
    && s.inodes[ROOTINO].typ == T_DIR && Contents(s, ROOTINO) == RootEntries(files, k)
    && forall f: nat :: f < k ==> FileLaid(files, s, f)
  }

  ghost predicate FileLaid(files: seq<Input>, s: Fs, f: nat) {
    f < |files| && f + 2 < |s.inodes| && s.inodes[f + 2].typ == T_FILE && Contents(s, f + 2) == files[f].data
  }

  lemma NoBlocks()
    ensures BlocksFor(0) == 0
  {
  }

  /** main, from the root inode on: `while((cc = read(fd, buf, sizeof(buf))) > 0) iappend(inum, buf, cc)` */
  method CopyIn(m: Maker, i: nat, data: seq<Byte>) returns (ok: bool)
    requires m.Valid() && i < m.freeinode && Contents(m.State(), i) == []
    modifies m
    ensures m.freeinode == old(m.freeinode)
    ensures ok <==> |data| <= MAXBYTES && old(m.freeblock) + BlocksFor(|data|) <= FSSIZE
    ensures ok ==> m.freeblock == old(m.freeblock) + BlocksFor(|data|)
    ensures ok ==>
              && m.Valid() && Contents(m.State(), i) == data && m.inodes[i].typ == old(m.inodes)[i].typ
              && forall j: nat :: j < NINODES && j != i ==> SameFile(old(m.State()), m.State(), j)
  {
    hide Contents, WithMap, BlocksFor, Tight;
    var at := 0;
    SizeFits(m.State(), i);
    LengthIsSize(m.State(), i);
    NoBlocks();
    while at < |data|
      invariant 0 <= at <= |data| && m.Valid() && m.freeinode == old(m.freeinode)
      invariant Contents(m.State(), i) == data[..at] && m.inodes[i].typ == old(m.inodes)[i].typ
      invariant m.freeblock == old(m.freeblock) + BlocksFor(at) && at <= MAXBYTES
      invariant forall j: nat :: j < NINODES && j != i ==> SameFile(old(m.State()), m.State(), j)
    {
      var cc := if |data| - at < BSIZE then |data| - at else BSIZE;
      ghost var s := m.State();
      SizeFits(s, i);
      LengthIsSize(s, i);
      BlocksGrow(at + cc, |data|);
      ok := m.Iappend(i, data[at..at + cc]);
      if !ok {
        return false;
      }
      assert data[..at + cc] == data[..at] + data[at..at + cc];
      forall j: nat | j < NINODES && j != i
        ensures SameFile(old(m.State()), m.State(), j)
      {
        assert SameFile(old(m.State()), s, j) && SameFile(s, m.State(), j);
      }
      at := at + cc;
    }
    assert data[..at] == data;
    return true;
  }

  /** Some input is larger than a file can be. */
  predicate TooLarge(files: seq<Input>) {
    exists f :: 0 <= f < |files| && |files[f].data| > MAXBYTES
  }

  /** The root directory with its "." and "..". */
  method MakeRoot() returns (ok: bool, m: Maker)
    ensures fresh(m)
    ensures ok && m.freeblock == NMETA + BlocksFor(32)
    ensures ok ==>
              && m.Valid() && m.freeinode == 2 && m.inodes[ROOTINO].typ == T_DIR
              && Contents(m.State(), ROOTINO) == Dirent(ROOTINO, [46]) + Dirent(ROOTINO, [46, 46])
  {
    hide Contents, Bits, At, Allocated, ZeroTail, Tight;
    m := new Maker();
    var root := m.Ialloc(T_DIR);
    var first := Dirent(ROOTINO, [46]);
    ok := m.Iappend(root, first);
    if !ok {
      return false, m;
    }
    SizeFits(m.State(), root);
    LengthIsSize(m.State(), root);
    var second := Dirent(ROOTINO, [46, 46]);
    ok := m.Iappend(root, second);
    assert [] + first + second == first + second;
  }

  lemma SizeFits(s: Fs, i: nat)
    requires i < |s.inodes| && Tight(s, i, s.inodes[i].size)
    ensures s.inodes[i].size <= MAXBYTES
  {
  }

  /** The blocks that the first k files and the root directory that names them take. */
  function Needed(files: seq<Input>, k: nat): nat
    requires k <= |files|
  {
    BlocksFor(16 * (k + 2)) + DataBlocks(files, k)
  }

  function DataBlocks(files: seq<Input>, k: nat): nat
    requires k <= |files|
  {
    if k == 0 then 0 else DataBlocks(files, k - 1) + BlocksFor(|files[k - 1].data|)
  }

  /** No file is too large, and all of them fit on the image. */
  predicate Fits(files: seq<Input>) {
    !TooLarge(files) && NMETA + Needed(files, |files|) <= FSSIZE
  }

  lemma {:induction false} DataGrows(files: seq<Input>, j: nat, k: nat)
    requires j <= k <= |files|
    ensures DataBlocks(files, j) <= DataBlocks(files, k)
    decreases k
  {
    if j < k {
      DataGrows(files, j, k - 1);
    }
  }

  /** A file that does not fit, or the entry that names it, makes the whole not fit. */
  lemma NotAll(files: seq<Input>, k: nat)
    requires k < |files|
    ensures NMETA + BlocksFor(16 * (k + 3)) + DataBlocks(files, k) > FSSIZE ==> !Fits(files)
    ensures NMETA + Needed(files, k + 1) > FSSIZE ==> !Fits(files)
    ensures |files[k].data| > MAXBYTES ==> !Fits(files)
  {
    hide BlocksFor;
    DataGrows(files, k, |files|);
    DataGrows(files, k + 1, |files|);
    BlocksGrow(16 * (k + 3), 16 * (|files| + 2));
  }

  /** main up to line 156: the root directory and every file. */
  method LayOut(files: seq<Input>) returns (ok: bool, m: Maker)
    requires |files| + 2 <= NINODES
    ensures fresh(m)
    ensures ok <==> Fits(files)
    ensures ok ==> m.freeblock == NMETA + Needed(files, |files|)
    ensures ok ==> m.Valid() && m.freeinode == |files| + 2 && Laid(files, |files|, m.State())
  {
    hide Contents, Bits, At, Allocated, TooLarge, ZeroTail, BlocksFor, Tight;
    ok, m := MakeRoot();
    var root := ROOTINO;
    var k := 0;
    while k < |files|
      invariant 0 <= k <= |files| && m.Valid() && m.freeinode == k + 2 && fresh(m)
      invariant Laid(files, k, m.State())
      invariant m.freeblock == NMETA + Needed(files, k) && forall f :: 0 <= f < k ==> |files[f].data| <= MAXBYTES
    {
      NotAll(files, k);
      ghost var s1 := m.State();
      var inum := m.Ialloc(T_FILE);
      ghost var s2 := m.State();
      StillLaid(files, k, s1, s2);
      RootLength(files, k);
      SizeFits(s2, root);
      LengthIsSize(s2, root);
      var entry := Dirent(inum, files[k].name);
      ok := m.Iappend(root, entry);
      if !ok {
        return false, m;
      }
      ghost var s3 := m.State();
      assert SameFile(s2, s3, inum);
      ok := CopyIn(m, inum, files[k].data);
      if !ok {
        return false, m;
      }
      OneMoreLaid(files, k, s2, s3, m.State());
      k := k + 1;
    }
    NoneLarge(files);
    return true, m;
  }

  lemma NoneLarge(files: seq<Input>)
    requires forall f :: 0 <= f < |files| ==> |files[f].data| <= MAXBYTES
    ensures !TooLarge(files)
  {
  }

  lemma {:induction false} RootLength(files: seq<Input>, k: nat)
    requires k <= |files| < 0x8000
    ensures |RootEntries(files, k)| == 16 * (k + 2)
  {
    if k > 0 {
      RootLength(files, k - 1);
    }
  }

  function ZeroBytes(n: nat): (z: seq<Byte>)
    ensures |z| == n && forall q :: 0 <= q < n ==> z[q] == 0
  {
    seq(n, _ => 0)
  }

  /**
   The finished image: the root holds its entries and zeros up to the size that main rounds to, and
   every file its data; the root has no hole unless its entries fill their blocks exactly.
   */
  ghost predicate Finished(files: seq<Input>, s: Fs)
    requires |files| < 0x8000
  {
    && |files| + 1 < |s.inodes| && RootFinished(RootEntries(files, |files|), s)
    && forall f: nat :: f < |files| ==> FileFinished(files, s, f)
  }

  ghost predicate RootFinished(entries: seq<Byte>, s: Fs)
    requires ROOTINO < |s.inodes|
  {
    && s.inodes[ROOTINO].typ == T_DIR
    && Contents(s, ROOTINO) == entries + ZeroBytes(Rounded(|entries|) - |entries|)
    && s.inodes[ROOTINO].size == |Contents(s, ROOTINO)| && Filled(s, ROOTINO, 0, |entries|)
    && (HoleFree(s, ROOTINO) <==> |entries| % BSIZE != 0)
  }

  ghost predicate FileFinished(files: seq<Input>, s: Fs, f: nat) {
    FileLaid(files, s, f) && HoleFree(s, f + 2)
  }

  /** main: the root directory, every file, the rounding of the root's size, and the free map. */
  method Build(files: seq<Input>) returns (ok: bool, m: Maker)
    requires |files| + 2 <= NINODES
    ensures fresh(m)
    ensures ok <==> Fits(files)
    ensures ok ==> m.freeblock == NMETA + Needed(files, |files|)
    ensures ok ==> m.Shaped() && Owned(SB, m.State(), m.owner) && m.State().blocks == m.sectors
    ensures ok ==> Finished(files, m.State())
  {
    hide Contents, Bits, At, Allocated, Fits, Needed, Finished, Laid, ZeroTail;
    ok, m := LayOut(files);
    if !ok {
      return false, m;
    }
    ghost var s := m.State();
    RootLength(files, |files|);
    RootSize(files, s);
    var size := Rounded(m.inodes[ROOTINO].size);
    SizeOnly(SB, s, m.owner, ROOTINO, size);
    m.inodes := m.inodes[ROOTINO := Dinode(m.inodes[ROOTINO].typ, size, m.inodes[ROOTINO].addrs)];
    Finishes(files, s, m.State());
    var bits := Balloc(m.freeblock);
    ghost var done := m.State();
    m.sectors := m.sectors[SB.bmapstart := bits];
    assert m.State() == done;
    return true, m;
  }

  lemma RootSize(files: seq<Input>, s: Fs)
    requires |files| + 2 <= NINODES && Laid(files, |files|, s) && s.inodes[ROOTINO].size <= MAXBYTES
    ensures s.inodes[ROOTINO].size == 16 * (|files| + 2) && Rounded(s.inodes[ROOTINO].size) <= MAXBYTES
  {
    RootLength(files, |files|);
    LengthIsSize(s, ROOTINO);
  }

  /** The rounding changes the root's size and nothing else. */
  ghost predicate RootRounded(s: Fs, s': Fs) {
    && |s.inodes| == NINODES && Rounded(s.inodes[ROOTINO].size) <= MAXBYTES && SameBytes(s, s')
    && (forall j: nat, k: nat :: j < NINODES && k <= IND ==> At(s', j, k) == At(s, j, k))
    && var root := s.inodes[ROOTINO];
       s'.inodes == s.inodes[ROOTINO := Dinode(root.typ, Rounded(root.size), root.addrs)]
  }

  lemma RootFinishes(s: Fs, s': Fs)
    requires RootRounded(s, s') && Tight(s, ROOTINO, s.inodes[ROOTINO].size) && ZeroTail(s, ROOTINO)
    requires s.inodes[ROOTINO].typ == T_DIR
    ensures RootFinished(Contents(s, ROOTINO), s')
  {
    hide At, FileByte;
    LengthIsSize(s, ROOTINO);
    RoundingHoles(s, s', ROOTINO);
    RoundedBytes(s, s', ROOTINO);
  }

  lemma FileFinishes(files: seq<Input>, s: Fs, s': Fs, f: nat)
    requires RootRounded(s, s') && f + 2 < NINODES && FileLaid(files, s, f) && Tight(s, f + 2, s.inodes[f + 2].size)
    ensures FileFinished(files, s', f)
  {
    hide At, FileByte;
    SameContents(s, s', f + 2);
    StillWhole(s, s', f + 2);
  }

  lemma Finishes(files: seq<Input>, s: Fs, s': Fs)
    requires |files| + 2 <= NINODES == |s.inodes| && Laid(files, |files|, s) && RootRounded(s, s')
    requires forall i: nat :: i < NINODES ==> Tight(s, i, s.inodes[i].size) && ZeroTail(s, i)
    ensures Finished(files, s')
  {
    hide Tight, ZeroTail, RootFinished, FileFinished, FileLaid, Contents, SameBytes, At;
    RootFinishes(s, s');
    forall f: nat | f < |files| ensures FileFinished(files, s', f) {
      FileFinishes(files, s, s', f);
    }
  }

  lemma StillWhole(s: Fs, s': Fs, i: nat)
    requires i < |s.inodes| == |s'.inodes| && Tight(s, i, s.inodes[i].size) && s'.inodes[i] == s.inodes[i]
    requires forall k: nat :: k <= IND ==> At(s', i, k) == At(s, i, k)
    ensures HoleFree(s', i)
  {
    hide At;
  }

  lemma RoundedBytes(s: Fs, s': Fs, i: nat)
    requires i < |s.inodes| && SameBytes(s, s') && ZeroTail(s, i) && Rounded(s.inodes[i].size) <= MAXBYTES
    requires s'.inodes[i].size == Rounded(s.inodes[i].size)
    ensures Contents(s', i) == Contents(s, i) + ZeroBytes(Rounded(s.inodes[i].size) - s.inodes[i].size)
  {
    hide FileByte;
    var x, y := Contents(s', i), Contents(s, i) + ZeroBytes(Rounded(s.inodes[i].size) - s.inodes[i].size);
    forall q | 0 <= q < |x| ensures x[q] == y[q] {
      assert FileByte(s', i, q) == FileByte(s, i, q);
    }
  }

  lemma StillLaid(files: seq<Input>, k: nat, s: Fs, s': Fs)
    requires |files| < 0x8000 && Laid(files, k, s) && SameBytes(s, s') && k + 1 < |s'.inodes|
    requires forall j: nat :: j < k + 2 ==> s'.inodes[j] == s.inodes[j]
    ensures Laid(files, k, s')
  {
    hide FileByte;
    assert Contents(s', ROOTINO) == Contents(s, ROOTINO);
    forall f: nat | f < k
      ensures FileLaid(files, s', f)
    {
      assert FileLaid(files, s, f);
      assert Contents(s', f + 2) == Contents(s, f + 2);
    }
  }

  lemma OneMoreLaid(files: seq<Input>, k: nat, s2: Fs, s3: Fs, s4: Fs)
    requires k < |files| < 0x8000 && Laid(files, k, s2) && k + 2 < |s4.inodes| == |s3.inodes| == |s2.inodes|
    requires Contents(s3, ROOTINO) == Contents(s2, ROOTINO) + Dirent(k + 2, files[k].name)
    requires s3.inodes[ROOTINO].typ == T_DIR && s4.inodes[k + 2].typ == T_FILE
    requires forall j: nat :: j < |s2.inodes| && j != ROOTINO ==> SameFile(s2, s3, j)
    requires forall j: nat :: j < |s2.inodes| && j != k + 2 ==> SameFile(s3, s4, j)
    requires Contents(s4, k + 2) == files[k].data
    ensures Laid(files, k + 1, s4)
  {
    hide Contents;
    assert SameFile(s3, s4, ROOTINO);
    forall f: nat | f < k
      ensures FileLaid(files, s4, f)
    {
      assert FileLaid(files, s2, f);
      assert SameFile(s2, s3, f + 2) && SameFile(s3, s4, f + 2);
    }
  }

  /** mkfs.c:158-163, the root directory's size rounded past its last entry. */
  function Rounded(size: nat): nat {
    (size / BSIZE + 1) * BSIZE
  }

  /** The rounding leaves the root directory without holes exactly when its size was no block multiple. */
  lemma RoundingHoles(s: Fs, s': Fs, i: nat)
    requires i < |s.inodes| && Tight(s, i, s.inodes[i].size) && |s'.inodes| == |s.inodes|
    requires forall k: nat :: k <= IND ==> At(s', i, k) == At(s, i, k)
    requires s'.inodes[i].size == Rounded(s.inodes[i].size)
    ensures HoleFree(s', i) <==> s.inodes[i].size % BSIZE != 0
  {
    hide At;
    var k := s.inodes[i].size / BSIZE;
    if s.inodes[i].size % BSIZE == 0 && k < MAXFILE {
      assert At(s', i, k) == 0 && k * BSIZE < s'.inodes[i].size;
    }
  }

  /** The finished image, loaded by the kernel, gives back each file as it was handed to mkfs. */
  method ReadBack(files: seq<Input>, f: nat) returns (ok: bool, dst: seq<Byte>)
    requires |files| + 2 <= NINODES && f < |files|
    ensures ok <==> Fits(files)
    ensures ok ==> dst == files[f].data
  {
    hide Contents, Allocated, At, Fits, Needed;
    var m;
    ok, m := Build(files);
    if !ok {
      return false, [];
    }
    assert FileFinished(files, m.State(), f);
    var fs := new FileSys(SB, m.sectors, m.inodes, m.owner);
    LengthIsSize(fs.State(), f + 2);
    var r;
    r, dst := fs.Readi(f + 2, 0, m.inodes[f + 2].size);
  }
}
