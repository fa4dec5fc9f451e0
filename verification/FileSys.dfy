/**
 The block allocator and inode contents of fs.c, and filewrite of file.c, over the latest contents
 of every disk block.

 `inodes` are the in-memory inodes that the kernel works on; `dinodes` is what iupdate has written
 back.  `logged` collects the blocks handed to log_write in the running transaction, and `txns` has
 every transaction that has ended: what it found, what it left, and what it logged.
 */
module FileSys {
  import opened Common
  import opened Blocks
  import opened Bitmap
  import opened FsState

  const T_DEV := 3

  /** What readi and writei return: a byte count, -1, whatever the device says, or a panic. */
  datatype IoResult = Count(n: nat) | Error | Device | Panic

  /** A transaction, from begin_op to end_op. */
  datatype Txn = Txn(before: Fs, after: Fs, logged: set<nat>)

  /** Every block is marked used. */
  ghost predicate Full(sb: Super, blocks: Image)
    requires sb.Valid() && |blocks| == sb.size
  {
    forall b: nat :: b < sb.size ==> Allocated(sb, blocks, b)
  }

  /** Every block that changed is among those handed to log_write, and only blocks that may be are. */
  ghost predicate Tracked(sb: Super, b0: Image, b1: Image, l0: set<nat>, l1: set<nat>) {
    && l0 <= l1 && |b1| == |b0|
    && (forall b: nat :: b < |b0| && b1[b] != b0[b] ==> b in l1)
    && forall b :: b in l1 ==> b in l0 || sb.bmapstart <= b < sb.size
  }

  lemma TrackedTwice(sb: Super, b0: Image, b1: Image, b2: Image, l0: set<nat>, l1: set<nat>, l2: set<nat>)
    requires Tracked(sb, b0, b1, l0, l1) && Tracked(sb, b1, b2, l1, l2)
    ensures Tracked(sb, b0, b2, l0, l2)
  {
    forall b: nat | b < |b0| && b2[b] != b0[b] ensures b in l2 {
      assert b1[b] != b0[b] || b2[b] != b1[b];
    }
  }

  lemma NothingTracked(sb: Super, b: Image, l: set<nat>)
    ensures Tracked(sb, b, b, l, l)
  {
  }

  class FileSys {
    const sb: Super
    var blocks: Image
    var inodes: seq<Dinode>
    var dinodes: seq<Dinode>
    ghost var owner: Owner
    var logged: set<nat>
    ghost var begun: Fs
    ghost var txns: seq<Txn>

    ghost function State(): Fs
      reads this
    {
      Fs(blocks, inodes)
    }

    ghost predicate Valid()
      reads this
    {
      Owned(sb, State(), owner) && |dinodes| == sb.ninodes
    }

    constructor (sb: Super, blocks: Image, inodes: seq<Dinode>, ghost owner: Owner)
      requires Owned(sb, Fs(blocks, inodes), owner)
      ensures Valid() && this.sb == sb && this.blocks == blocks && this.inodes == inodes == dinodes
      ensures this.owner == owner && logged == {} && txns == []
    {
      this.sb, this.blocks, this.inodes, this.dinodes := sb, blocks, inodes, inodes;
      this.owner, this.logged, this.begun, this.txns := owner, {}, Fs(blocks, inodes), [];
    }

    /** begin_op, as the transaction sees it: it has logged nothing yet. */
    method BeginOp()
      modifies this`logged, this`begun
      ensures logged == {} && begun == State()
    {
      logged, begun := {}, State();
    }

    /** end_op. */
    method EndOp()
      modifies this`txns
      ensures txns == old(txns) + [Txn(begun, State(), logged)]
    {
      txns := txns + [Txn(begun, State(), logged)];
    }

    /** balloc: the first free block, marked used and zeroed; `None` is the out-of-blocks panic. */
    method Balloc() returns (r: Option<nat>)
      requires sb.Valid() && |blocks| == sb.size
      requires forall b: nat :: b < sb.datastart ==> Allocated(sb, blocks, b)
      modifies this`blocks, this`logged
      ensures r.None? ==> blocks == old(blocks) && Full(sb, blocks)
      ensures r.Some? ==>
                && sb.Data(r.value) && !Allocated(sb, old(blocks), r.value)
                && (forall b: nat :: b < r.value ==> Allocated(sb, old(blocks), b))
                && blocks == Grabbed(sb, old(blocks), r.value)
                && logged == old(logged) + {sb.Bblock(r.value), r.value}
    {
      hide Test, Set;
      var b := 0;
      while b < sb.size
        invariant b % BPB == 0 && blocks == old(blocks) && logged == old(logged)
        invariant forall a: nat :: a < b && a < sb.size ==> Allocated(sb, blocks, a)
      {
        var bi := 0;
        while bi < BPB && b + bi < sb.size
          invariant 0 <= bi <= BPB && blocks == old(blocks) && logged == old(logged)
          invariant forall a: nat :: a < b + bi && a < sb.size ==> Allocated(sb, blocks, a)
        {
          assert (b + bi) / BPB == b / BPB && (b + bi) % BPB == bi;
          if !Test(blocks[sb.Bblock(b)], bi) {
            assert !Allocated(sb, blocks, b + bi);
            blocks := blocks[sb.Bblock(b) := Set(blocks[sb.Bblock(b)], bi)];
            logged := logged + {sb.Bblock(b)};
            // bzero
            blocks := blocks[b + bi := ZERO_BLOCK];
            logged := logged + {b + bi};
            return Some(b + bi);
          }
          bi := bi + 1;
        }
        b := b + BPB;
      }
      return None;
    }

    /** bfree; false is the "freeing free block" panic. */
    method Bfree(a: nat) returns (ok: bool)
      requires sb.Valid() && |blocks| == sb.size && a < sb.size
      modifies this`blocks, this`logged
      ensures ok <==> Allocated(sb, old(blocks), a)
      ensures !ok ==> blocks == old(blocks)
      ensures ok ==> blocks == Unmarked(sb, old(blocks), a) && logged == old(logged) + {sb.Bblock(a)}
    {
      var bi := a % BPB;
      if !Test(blocks[sb.Bblock(a)], bi) {
        return false;
      }
      blocks := blocks[sb.Bblock(a) := Clear(blocks[sb.Bblock(a)], bi)];
      logged := logged + {sb.Bblock(a)};
      return true;
    }

    /** No slot that had a block lost it or changed it, and only inode i changed, in its addresses. */
    ghost predicate Grew(s: Fs, i: nat)
      reads this
    {
      && |inodes| == |s.inodes| && i < |inodes|
      && inodes == s.inodes[i := inodes[i]]
      && inodes[i].typ == s.inodes[i].typ && inodes[i].size == s.inodes[i].size
      && forall j: nat, l: nat :: j < |inodes| && l <= IND && At(s, j, l) != 0 ==> At(State(), j, l) == At(s, j, l)
    }

    /** `ip->addrs[n] = balloc(ip->dev)` */
    method AllocAddr(i: nat, n: nat) returns (r: Option<nat>)
      requires Valid() && i < sb.ninodes && n <= NDIRECT && inodes[i].addrs[n] == 0
      modifies this`blocks, this`inodes, this`owner, this`logged
      ensures r.None? ==> |blocks| == sb.size && Full(sb, blocks)
      ensures r.Some? ==>
                && Valid() && SameBytes(old(State()), State()) && Grew(old(State()), i)
                && inodes[i].addrs[n] == r.value != 0 && sb.Data(r.value)
                && logged == old(logged) + {sb.Bblock(r.value), r.value}
                && SameSlotsBut(old(State()), State(), i, if n < NDIRECT then n else IND)
                && Tracked(sb, old(blocks), blocks, old(logged), logged)
    {
      hide Full, Allocated, At;
      var got := Balloc();
      if got.None? {
        return None;
      }
      var a := got.value;
      inodes := inodes[i := PutAddr(inodes[i], n, a)];
      ghost var k := if n < NDIRECT then n else IND;
      ghost var s := old(State());
      LinkedAddrSlots(sb, s, owner, i, n, a);
      EmptyAddr(s, i, n);
      LinkedHere(sb, s, owner, State(), i, k, a);
      owner := owner[a := (i, k)];
      return Some(a);
    }

    /** `a[bn] = balloc(ip->dev); log_write(bp)` in the indirect block, for file block k. */
    method AllocEntry(i: nat, k: nat) returns (r: Option<nat>)
      requires Valid() && i < sb.ninodes && NDIRECT <= k < MAXFILE
      requires At(State(), i, IND) != 0 && At(State(), i, k) == 0
      modifies this`blocks, this`owner, this`logged
      ensures r.None? ==> |blocks| == sb.size && Full(sb, blocks)
      ensures r.Some? ==>
                && Valid() && SameBytes(old(State()), State()) && Grew(old(State()), i)
                && At(State(), i, k) == r.value != 0 && sb.Data(r.value)
                && logged == old(logged) + {sb.Bblock(r.value), r.value, At(State(), i, IND)}
                && Tracked(sb, old(blocks), blocks, old(logged), logged)
    {
      hide Full, Allocated, At, PutWord;
      ghost var s := State();
      var ind := inodes[i].addrs[NDIRECT];
      EmptyAddr(s, i, NDIRECT);
      assert SlotOk(sb, s, owner, i, IND) && OwnerOk(sb, s, owner, ind);
      var got := Balloc();
      if got.None? {
        return None;
      }
      var a := got.value;
      blocks := blocks[ind := PutWord(blocks[ind], k - NDIRECT, a)];
      logged := logged + {ind};
      LinkedEntrySlots(sb, s, owner, i, k, a);
      LinkedHere(sb, s, owner, State(), i, k, a);
      owner := owner[a := (i, k)];
      EmptyAddr(State(), i, NDIRECT);
      return Some(a);
    }

    /** bmap; `None` is one of its panics: block number out of range, or every block used. */
    method Bmap(i: nat, bn: nat) returns (r: Option<nat>)
      requires Valid() && i < sb.ninodes
      modifies this`blocks, this`inodes, this`owner, this`logged
      ensures bn >= MAXFILE ==> r.None?
      ensures bn < MAXFILE && r.None? ==> |blocks| == sb.size && Full(sb, blocks)
      ensures r.Some? ==>
                && Valid() && SameBytes(old(State()), State()) && Grew(old(State()), i)
                && At(State(), i, bn) == r.value != 0 && sb.Data(r.value)
                && Tracked(sb, old(blocks), blocks, old(logged), logged)
      ensures bn < MAXFILE && At(old(State()), i, bn) != 0 ==>
                && r.Some? && State() == old(State()) && logged == old(logged)
      ensures r.Some? && At(old(State()), i, bn) == 0 ==>
                logged == old(logged) + {sb.Bblock(r.value), r.value} + IndLog(sb, old(State()), State(), i, bn)
    {
      hide Full, Allocated, Tracked;
      NothingTracked(sb, blocks, logged);
      if bn < NDIRECT {
        if inodes[i].addrs[bn] == 0 {
          r := AllocAddr(i, bn);
          return;
        }
        assert SlotOk(sb, State(), owner, i, bn) && OwnerOk(sb, State(), owner, inodes[i].addrs[bn]);
        return Some(inodes[i].addrs[bn]);
      }
      if bn < MAXFILE {
        ghost var s := State();
        if inodes[i].addrs[NDIRECT] == 0 {
          var ind := AllocAddr(i, NDIRECT);
          if ind.None? {
            return None;
          }
        }
        ghost var s1, logged1 := State(), logged;
        assert SlotOk(sb, s1, owner, i, IND) && OwnerOk(sb, s1, owner, At(s1, i, IND));
        var addr := Word(blocks[inodes[i].addrs[NDIRECT]], bn - NDIRECT);
        if addr == 0 {
          r := AllocEntry(i, bn);
          if r.Some? {
            TrackedTwice(sb, s.blocks, s1.blocks, blocks, old(logged), logged1, logged);
          }
          return;
        }
        assert SlotOk(sb, s1, owner, i, bn) && OwnerOk(sb, s1, owner, At(s1, i, bn));
        return Some(addr);
      }
      return None;
    }

    /** One round of writei's loop: put `d` into the file at offset p, inside one block. */
    method WritePart(i: nat, d: seq<Byte>, p: nat) returns (ok: bool)
      requires Valid() && i < sb.ninodes && 0 < |d| <= BSIZE - p % BSIZE && p < MAXBYTES
      modifies this`blocks, this`inodes, this`owner, this`logged
      ensures !ok ==> |blocks| == sb.size && Full(sb, blocks) && At(old(State()), i, p / BSIZE) == 0
      ensures ok ==>
                && Valid() && Grew(old(State()), i) && At(State(), i, p / BSIZE) != 0
                && (forall j: nat, q: nat :: j < sb.ninodes && q < MAXBYTES ==>
                      FileByte(State(), j, q) ==
                      if j == i && p <= q < p + |d| then d[q - p] else FileByte(old(State()), j, q))
                && (At(old(State()), i, p / BSIZE) != 0 ==> inodes == old(inodes))
                && logged == old(logged) + PartLog(sb, old(State()), State(), i, p / BSIZE)
                && Tracked(sb, old(blocks), blocks, old(logged), logged)
    {
      hide Full, Allocated, At;
      var got := Bmap(i, p / BSIZE);
      if got.None? {
        return false;
      }
      var a := got.value;
      ghost var s1, logged1 := State(), logged;
      var x := Patch(blocks[a], p % BSIZE, d);
      DataWrite(sb, s1, owner, i, p / BSIZE, x);
      blocks := blocks[a := x];
      logged := logged + {a};
      TrackedTwice(sb, old(blocks), s1.blocks, blocks, old(logged), logged1, logged);
      forall j: nat, q: nat | j < sb.ninodes && q < MAXBYTES
        ensures FileByte(State(), j, q) ==
                if j == i && p <= q < p + |d| then d[q - p] else FileByte(old(State()), j, q)
      {
        assert FileByte(s1, j, q) == FileByte(old(State()), j, q);
        if j == i && q / BSIZE == p / BSIZE {
          PatchedAt(s1.blocks[a], p, d, q);
        }
      }
      return true;
    }

    /** writei's loop. */
    method WriteAll(i: nat, src: seq<Byte>, off: nat) returns (ok: bool)
      requires Valid() && i < sb.ninodes && off + |src| <= MAXBYTES
      modifies this`blocks, this`inodes, this`owner, this`logged
      ensures !ok ==> |blocks| == sb.size && Full(sb, blocks) && !Filled(old(State()), i, off, |src|)
      ensures ok ==>
                && Valid() && Grew(old(State()), i) && Filled(State(), i, off, |src|)
                && BytesWritten(old(State()), State(), i, off, src)
                && (Filled(old(State()), i, off, |src|) ==> inodes == old(inodes))
                && Charged(sb, old(State()), State(), i, off, |src|, old(logged), logged)
                && Tracked(sb, old(blocks), blocks, old(logged), logged)
    {
      hide Full, Allocated, At, PartLog, FileByte, Tracked;
      NothingTracked(sb, blocks, logged);
      ghost var s := State();
      var tot, p := 0, off;
      while tot < |src|
        invariant 0 <= tot <= |src| && p == off + tot
        invariant Valid() && Grew(s, i) && Filled(State(), i, off, tot)
        invariant BytesWritten(s, State(), i, off, src[..tot])
        invariant Filled(s, i, off, tot) ==> inodes == s.inodes
        invariant Charged(sb, s, State(), i, off, tot, old(logged), logged)
        invariant Tracked(sb, s.blocks, blocks, old(logged), logged)
      {
        var m := if |src| - tot < BSIZE - p % BSIZE then |src| - tot else BSIZE - p % BSIZE;
        ghost var s1, logged1 := State(), logged;
        var done := WritePart(i, src[tot..tot + m], p);
        if !done {
          NotFilled(s, s1, i, off, |src|, p);
          return false;
        }
        StillFilled(s1, State(), i, off, tot, m);
        if Filled(s, i, off, tot + m) {
          SpanGrows(s, i, off, tot, m);
        }
        MoreBytes(s, s1, State(), i, off, src, tot, m);
        TrackedTwice(sb, s.blocks, s1.blocks, blocks, old(logged), logged1, logged);
        MoreCharged(sb, s, s1, State(), i, off, tot, m, old(logged), logged1, logged);
        tot, p := tot + m, p + m;
      }
      assert src[..tot] == src;
      return true;
    }

    /** writei on an inode that is not a device. */
    method Writei(i: nat, src: seq<Byte>, off: Uint) returns (r: IoResult)
      requires Valid() && i < sb.ninodes && |src| < UINT_LIMIT && inodes[i].size <= MAXBYTES
      modifies this`blocks, this`inodes, this`dinodes, this`owner, this`logged
      ensures r.Error? <==> old(inodes)[i].typ != T_DEV && (off > old(inodes)[i].size || off + |src| > MAXBYTES)
      ensures r.Device? <==> old(inodes)[i].typ == T_DEV
      ensures r.Error? || r.Device? ==>
                Valid() && State() == old(State()) && dinodes == old(dinodes) && logged == old(logged)
      ensures r.Panic? ==> |blocks| == sb.size && Full(sb, blocks) && !Filled(old(State()), i, off, |src|)
      ensures r.Count? ==>
                && r.n == |src| && Valid() && inodes[i].size <= MAXBYTES && inodes[i].typ == old(inodes)[i].typ
                && Contents(State(), i) == Spliced(Contents(old(State()), i), off, src)
                && (forall j: nat :: j < sb.ninodes && j != i ==> SameFile(old(State()), State(), j))
                && dinodes[i] == (if off + |src| > old(inodes)[i].size && |src| > 0 then inodes[i] else old(dinodes)[i])
                && (HoleFree(old(State()), i) ==>
                      HoleFree(State(), i) && (old(dinodes)[i] == old(inodes)[i] ==> dinodes[i] == inodes[i]))
                && (forall j: nat :: j < sb.ninodes && j != i ==> dinodes[j] == old(dinodes)[j])
                && Charged(sb, old(State()), State(), i, off, |src|, old(logged) + {sb.Iblock(i)}, logged)
                && Tracked(sb, old(blocks), blocks, old(logged) + {sb.Iblock(i)}, logged + {sb.Iblock(i)})
                && (dinodes[i] != old(dinodes)[i] ==> sb.Iblock(i) in logged)
    {
      hide Full, Allocated, At, PartLog, FileByte, Charge;
      ghost var s := State();
      if inodes[i].typ == T_DEV {
        return Device;
      }
      var n := |src|;
      if off > inodes[i].size || (off + n) % UINT_LIMIT < off {
        return Error;
      }
      if off + n > MAXBYTES {
        return Error;
      }
      var ok := WriteAll(i, src, off);
      if !ok {
        return Panic;
      }
      ghost var s1, logged1 := State(), logged;
      if n > 0 && off + n > inodes[i].size {
        inodes := inodes[i := Dinode(inodes[i].typ, off + n, inodes[i].addrs)];
        SizeOnly(sb, s1, owner, i, off + n);
        Iupdate(i);
      } else if HoleFree(s, i) {
        AlreadyThere(s, i, off, n);
      }
      NewContents(s, s1, State(), i, off, src);
      ChargedSame(sb, s, s1, State(), i, off, n, old(logged), logged1, logged);
      return Count(n);
    }

    /** One round of readi's loop: bytes p .. p + m, inside one block; `None` is bmap's panic. */
    method ReadPart(i: nat, p: nat, m: nat) returns (r: Option<seq<Byte>>)
      requires Valid() && i < sb.ninodes && p + m <= inodes[i].size <= MAXBYTES && 0 < m <= BSIZE - p % BSIZE
      modifies this`blocks, this`inodes, this`owner, this`logged
      ensures r.None? ==> |blocks| == sb.size && Full(sb, blocks)
      ensures r.Some? ==>
                && Valid() && SameBytes(old(State()), State()) && Grew(old(State()), i)
                && r.value == Contents(State(), i)[p..p + m]
      ensures At(old(State()), i, p / BSIZE) != 0 ==> r.Some? && State() == old(State()) && logged == old(logged)
    {
      hide Full, Allocated, At, FileByte;
      var got := Bmap(i, p / BSIZE);
      if got.None? {
        return None;
      }
      PartIs(State(), i, p, m);
      return Some(blocks[got.value][p % BSIZE..p % BSIZE + m]);
    }

    /**
     readi on an inode that is not a device.  On a file without holes it allocates and writes nothing;
     in a hole bmap allocates a block, which changes no byte of any file, or finds none.
     */
    method Readi(i: nat, off: Uint, n: Uint) returns (r: IoResult, dst: seq<Byte>)
      requires Valid() && i < sb.ninodes && inodes[i].size <= MAXBYTES
      modifies this`blocks, this`inodes, this`owner, this`logged
      ensures r.Device? <==> old(inodes)[i].typ == T_DEV
      ensures r.Error? <==> old(inodes)[i].typ != T_DEV && (off > old(inodes)[i].size || off + n >= UINT_LIMIT)
      ensures HoleFree(old(State()), i) ==> !r.Panic? && State() == old(State()) && logged == old(logged)
      ensures r.Count? && Filled(old(State()), i, off, r.n) ==> State() == old(State()) && logged == old(logged)
      ensures r.Panic? ==> !Filled(old(State()), i, off, Clip(old(inodes)[i].size, off, n))
      ensures r.Panic? ==> |blocks| == sb.size && Full(sb, blocks)
      ensures !r.Panic? ==> Valid() && SameBytes(old(State()), State()) && Grew(old(State()), i)
      ensures r.Count? ==>
                && r.n == |dst| == Clip(old(inodes)[i].size, off, n)
                && dst == Contents(old(State()), i)[off..off + r.n]
    {
      hide Full, Allocated, At, FileByte, Contents, HoleFree, Filled;
      dst := [];
      if inodes[i].typ == T_DEV {
        return Device, dst;
      }
      if off > inodes[i].size || (off + n) % UINT_LIMIT < off {
        return Error, dst;
      }
      var n' := if off + n > inodes[i].size then inodes[i].size - off else n;
      ghost var s := State();
      ghost var c := Contents(s, i);
      ghost var there := Filled(s, i, off, n');
      LengthIsSize(s, i);
      if HoleFree(s, i) {
        AlreadyThere(s, i, off, n');
      }
      var tot, p := 0, off;
      while tot < n'
        invariant Valid() && SameBytes(s, State()) && Grew(s, i)
        invariant there ==> State() == s && logged == old(logged)
        invariant 0 <= tot <= n' && p == off + tot && off + n' <= s.inodes[i].size <= MAXBYTES
        invariant dst == c[off..off + tot]
      {
        if there {
          BlockThere(s, i, off, n', p);
        }
        var m := if n' - tot < BSIZE - p % BSIZE then n' - tot else BSIZE - p % BSIZE;
        var part := ReadPart(i, p, m);
        if part.None? {
          return Panic, dst;
        }
        SameContents(s, State(), i);
        SliceMore(c, off, p, p + m);
        dst := dst + part.value;
        tot, p := tot + m, p + m;
      }
      return Count(n'), dst;
    }

    /** iupdate: the i-node cache is write-through. */
    method Iupdate(i: nat)
      requires Valid() && i < sb.ninodes
      modifies this`dinodes, this`logged
      ensures Valid() && dinodes == old(dinodes)[i := inodes[i]] && logged == old(logged) + {sb.Iblock(i)}
    {
      dinodes := dinodes[i := inodes[i]];
      logged := logged + {sb.Iblock(i)};
    }

    /** itrunc's first loop. */
    method FreeDirect(i: nat, ghost s: Fs)
      requires Valid() && i < sb.ninodes && s == State()
      modifies this`blocks, this`inodes, this`logged
      ensures Freed(sb, s.blocks, owner, i, NDIRECT, blocks)
      ensures |inodes| == |s.inodes| && inodes == s.inodes[i := inodes[i]] && inodes[i].typ == s.inodes[i].typ
      ensures forall k :: 0 <= k < NDIRECT ==> inodes[i].addrs[k] == 0
      ensures inodes[i].addrs[NDIRECT] == s.inodes[i].addrs[NDIRECT]
      ensures FreeTracked(sb, s.blocks, blocks, owner, i, NDIRECT, old(logged), logged)
    {
      hide Allocated, Owned, Unmarked, FreeTracked;
      NoneTracked(sb, s.blocks, owner, i, logged);
      assert |s.inodes| == sb.ninodes by { OwnedShape(sb, s, owner); }
      NoneFreed(sb, s, owner, i);
      var n := 0;
      while n < NDIRECT
        invariant 0 <= n <= NDIRECT && |inodes| == |s.inodes| && Freed(sb, s.blocks, owner, i, n, blocks)
        invariant inodes == s.inodes[i := inodes[i]] && inodes[i].typ == s.inodes[i].typ
        invariant forall k :: 0 <= k < n ==> inodes[i].addrs[k] == 0
        invariant forall k :: n <= k <= NDIRECT ==> inodes[i].addrs[k] == s.inodes[i].addrs[k]
        invariant FreeTracked(sb, s.blocks, blocks, owner, i, n, old(logged), logged)
      {
        FreeNext(sb, s, owner, i, n, blocks);
        TrackNext(sb, s, owner, i, n, blocks, old(logged), logged);
        if inodes[i].addrs[n] != 0 {
          var ok := Bfree(inodes[i].addrs[n]);
          assert ok;
          inodes := inodes[i := PutAddr(inodes[i], n, 0)];
        }
        n := n + 1;
      }
    }

    /** itrunc's second loop, and the indirect block itself. */
    method FreeIndirect(i: nat, ghost s: Fs, ghost l: set<nat>)
      requires Owned(sb, s, owner) && i < sb.ninodes && |inodes| == |s.inodes| && inodes[i].addrs[NDIRECT] != 0
      requires inodes[i].addrs[NDIRECT] == s.inodes[i].addrs[NDIRECT]
      requires Freed(sb, s.blocks, owner, i, NDIRECT, blocks)
      requires FreeTracked(sb, s.blocks, blocks, owner, i, NDIRECT, l, logged)
      modifies this`blocks, this`inodes, this`logged
      ensures Freed(sb, s.blocks, owner, i, IND + 1, blocks)
      ensures FreeTracked(sb, s.blocks, blocks, owner, i, IND + 1, l, logged)
      ensures inodes == old(inodes)[i := PutAddr(old(inodes)[i], NDIRECT, 0)]
    {
      hide Allocated, Unmarked, Owned, Word, FreeTracked;
      OwnedShape(sb, s, owner);
      var ind := inodes[i].addrs[NDIRECT];
      IndirectIsData(sb, s, owner, i);
      var a := blocks[ind];
      var j := 0;
      while j < NINDIRECT
        invariant 0 <= j <= NINDIRECT
        invariant Freed(sb, s.blocks, owner, i, NDIRECT + j, blocks) && inodes == old(inodes)
        invariant FreeTracked(sb, s.blocks, blocks, owner, i, NDIRECT + j, l, logged)
      {
        FreeNext(sb, s, owner, i, NDIRECT + j, blocks);
        TrackNext(sb, s, owner, i, NDIRECT + j, blocks, l, logged);
        if Word(a, j) != 0 {
          var ok := Bfree(Word(a, j));
          assert ok;
        }
        j := j + 1;
      }
      FreeNext(sb, s, owner, i, IND, blocks);
      TrackNext(sb, s, owner, i, IND, blocks, l, logged);
      var ok := Bfree(ind);
      assert ok;
      inodes := inodes[i := PutAddr(inodes[i], NDIRECT, 0)];
    }

    /**
     itrunc.  It frees exactly the blocks that the inode's slots own, the "freeing free block" panic
     cannot happen, and every other file keeps its blocks and bytes.
     */
    method Itrunc(i: nat)
      requires Valid() && i < sb.ninodes
      modifies this`blocks, this`inodes, this`dinodes, this`owner, this`logged
      ensures Valid() && owner == OwnerWithout(old(owner), i)
      ensures forall b: nat :: b < sb.size ==>
                (Allocated(sb, blocks, b) <==> Allocated(sb, old(blocks), b) && !Mine(old(owner), i, IND + 1, b))
      ensures forall k: nat :: k <= IND ==> At(State(), i, k) == 0
      ensures forall j: nat, k: nat :: j < sb.ninodes && j != i && k <= IND ==>
                At(State(), j, k) == At(old(State()), j, k)
      ensures forall j: nat, p: nat :: j < sb.ninodes && j != i && p < MAXBYTES ==>
                FileByte(State(), j, p) == FileByte(old(State()), j, p)
      ensures inodes == old(inodes)[i := inodes[i]] && inodes[i].typ == old(inodes)[i].typ && inodes[i].size == 0
      ensures dinodes == old(dinodes)[i := inodes[i]]
      ensures logged == old(logged) + FreeLog(sb, old(owner), i, IND + 1) + {sb.Iblock(i)}
      ensures forall b: nat :: b < sb.size && blocks[b] != old(blocks)[b] ==> b in FreeLog(sb, old(owner), i, IND + 1)
    {
      hide Allocated, At, FreeLog;
      ghost var s := State();
      FreeDirect(i, s);
      EmptyAddr(s, i, NDIRECT);
      if inodes[i].addrs[NDIRECT] != 0 {
        FreeIndirect(i, s, old(logged));
      } else {
        NoIndirect(sb, s, owner, i, blocks);
        NoneBehind(sb, s, owner, i);
      }
      inodes := inodes[i := Dinode(inodes[i].typ, 0, inodes[i].addrs)];
      FreedSlots(sb, s, owner, i, State());
      TruncatedOwned(sb, s, owner, State(), i);
      owner := OwnerWithout(owner, i);
      Iupdate(i);
    }
  }

  lemma EmptyAddr(s: Fs, i: nat, n: nat)
    requires i < |s.inodes| && n <= NDIRECT
    ensures At(s, i, if n < NDIRECT then n else IND) == s.inodes[i].addrs[n]
  {
  }

  /** What linking a grabbed block at slot (i, k) preserves, gathered. */
  lemma LinkedHere(sb: Super, s: Fs, owner: Owner, s': Fs, i: nat, k: nat, a: nat)
    requires Owned(sb, s, owner) && sb.Data(a) && !Allocated(sb, s.blocks, a) && Shaped(sb, s')
    requires i < sb.ninodes && k <= IND && At(s, i, k) == 0 && At(s', i, k) == a && SameSlotsBut(s, s', i, k)
    requires s'.blocks == Grabbed(sb, s.blocks, a) ||
             (At(s, i, IND) in owner && At(s, i, IND) < sb.size && k < IND &&
              s'.blocks == Grabbed(sb, s.blocks, a)[At(s, i, IND) := s'.blocks[At(s, i, IND)]])
    ensures Owned(sb, s', owner[a := (i, k)]) && SameBytes(s, s')
  {
    hide Allocated, At, Grabbed;
    var ind := At(s, i, IND);
    assert SlotOk(sb, s, owner, i, IND) && OwnerOk(sb, s, owner, ind) && OwnerOk(sb, s, owner, a);
    forall b: nat | b < sb.size
      ensures Allocated(sb, s'.blocks, b) <==> b == a || Allocated(sb, s.blocks, b)
    {
      GrabbedBits(sb, s.blocks, a, b);
      if s'.blocks != Grabbed(sb, s.blocks, a) {
        DataWriteBits(sb, Grabbed(sb, s.blocks, a), ind, s'.blocks[ind], b);
      }
    }
    forall b: nat | b in owner && owner[b].1 < IND && b < |s.blocks|
      ensures s'.blocks[b] == s.blocks[b]
    {
      GrabbedElsewhere(sb, s, owner, a, b);
    }
    GrabbedIsZero(sb, s.blocks, a);
    LinkOwned(sb, s, owner, s', i, k, a);
    LinkBytes(sb, s, owner, s', i, k, a);
  }

  // ---------- Freeing ----------

  /** `now` is `was` with the blocks of slots below k of inode i marked free, and only the free map differs. */
  ghost predicate Freed(sb: Super, was: Image, owner: Owner, i: nat, k: nat, now: Image) {
    && sb.Valid() && |was| == |now| == sb.size
    && (forall b: nat :: sb.Data(b) ==> now[b] == was[b])
    && forall b: nat :: b < sb.size ==> (Allocated(sb, now, b) <==> Allocated(sb, was, b) && !Mine(owner, i, k, b))
  }

  lemma NoneFreed(sb: Super, s: Fs, owner: Owner, i: nat)
    requires Owned(sb, s, owner)
    ensures Freed(sb, s.blocks, owner, i, 0, s.blocks)
  {
  }

  /** The blocks of the free map that have the bits of the blocks of slots below k of inode i. */
  ghost function FreeLog(sb: Super, owner: Owner, i: nat, k: nat): set<nat> {
    set b | b in owner && Mine(owner, i, k, b) :: sb.Bblock(b)
  }

  /** Exactly these were logged, and only these changed. */
  ghost predicate FreeTracked(sb: Super, b0: Image, b1: Image, owner: Owner, i: nat, k: nat, l0: set<nat>, l1: set<nat>)
  {
    && |b1| == |b0| && l1 == l0 + FreeLog(sb, owner, i, k)
    && forall b: nat :: b < |b0| && b1[b] != b0[b] ==> b in FreeLog(sb, owner, i, k)
  }

  lemma NoneTracked(sb: Super, b: Image, owner: Owner, i: nat, l: set<nat>)
    ensures FreeTracked(sb, b, b, owner, i, 0, l, l)
  {
    assert FreeLog(sb, owner, i, 0) == {};
  }

  lemma TrackNext(sb: Super, s: Fs, owner: Owner, i: nat, k: nat, now: Image, l0: set<nat>, l1: set<nat>)
    requires Owned(sb, s, owner) && i < sb.ninodes && k <= IND && |s.blocks| == sb.size
    requires FreeTracked(sb, s.blocks, now, owner, i, k, l0, l1)
    ensures var a := At(s, i, k);
            if a == 0 then FreeTracked(sb, s.blocks, now, owner, i, k + 1, l0, l1)
            else a < sb.size &&
                 FreeTracked(sb, s.blocks, Unmarked(sb, now, a), owner, i, k + 1, l0, l1 + {sb.Bblock(a)})
  {
    hide Allocated, At;
    var a := At(s, i, k);
    assert SlotOk(sb, s, owner, i, k);
    forall b: nat | b in owner && owner[b] == (i, k) ensures b == a {
      assert OwnerOk(sb, s, owner, b);
    }
    if a == 0 {
      ZeroNotOwned(sb, s, owner);
      assert FreeLog(sb, owner, i, k + 1) == FreeLog(sb, owner, i, k);
    } else {
      assert OwnerOk(sb, s, owner, a);
      assert FreeLog(sb, owner, i, k + 1) == FreeLog(sb, owner, i, k) + {sb.Bblock(a)};
    }
  }

  lemma NoneBehind(sb: Super, s: Fs, owner: Owner, i: nat)
    requires Owned(sb, s, owner) && i < sb.ninodes && At(s, i, IND) == 0
    ensures FreeLog(sb, owner, i, IND + 1) == FreeLog(sb, owner, i, NDIRECT)
  {
    hide Allocated;
    forall b: nat | b in owner && owner[b].0 == i ensures owner[b].1 < NDIRECT {
      assert OwnerOk(sb, s, owner, b);
    }
  }

  lemma OwnedShape(sb: Super, s: Fs, owner: Owner)
    requires Owned(sb, s, owner)
    ensures Shaped(sb, s)
  {
  }

  lemma IndirectIsData(sb: Super, s: Fs, owner: Owner, i: nat)
    requires Owned(sb, s, owner) && i < sb.ninodes && s.inodes[i].addrs[NDIRECT] != 0
    ensures sb.Data(s.inodes[i].addrs[NDIRECT])
  {
    assert SlotOk(sb, s, owner, i, IND) && OwnerOk(sb, s, owner, s.inodes[i].addrs[NDIRECT]);
  }

  /** The next slot's block, if there is one, is still marked used; freeing it moves `Freed` on. */
  lemma FreeNext(sb: Super, s: Fs, owner: Owner, i: nat, k: nat, now: Image)
    requires Owned(sb, s, owner) && i < sb.ninodes && k <= IND && Freed(sb, s.blocks, owner, i, k, now)
    ensures var a := At(s, i, k);
            if a == 0 then Freed(sb, s.blocks, owner, i, k + 1, now)
            else sb.Data(a) && Allocated(sb, now, a) && Freed(sb, s.blocks, owner, i, k + 1, Unmarked(sb, now, a))
  {
    hide Allocated, At, Unmarked;
    var a := At(s, i, k);
    assert SlotOk(sb, s, owner, i, k);
    forall b: nat | b in owner && owner[b] == (i, k)
      ensures b == a
    {
      assert OwnerOk(sb, s, owner, b);
    }
    if a != 0 {
      assert OwnerOk(sb, s, owner, a);
      UnmarkedElsewhere(sb, now, a);
      forall b: nat | b < sb.size
        ensures Allocated(sb, Unmarked(sb, now, a), b) <==> Allocated(sb, s.blocks, b) && !Mine(owner, i, k + 1, b)
      {
        MarkedBits(sb, now, a, b);
      }
    } else {
      ZeroNotOwned(sb, s, owner);
    }
  }

  lemma ZeroNotOwned(sb: Super, s: Fs, owner: Owner)
    requires Owned(sb, s, owner)
    ensures 0 !in owner
  {
    assert OwnerOk(sb, s, owner, 0);
  }

  lemma UnmarkedElsewhere(sb: Super, blocks: Image, a: nat)
    requires sb.Valid() && |blocks| == sb.size && a < sb.size
    ensures |Unmarked(sb, blocks, a)| == sb.size
    ensures forall b: nat :: sb.Data(b) ==> Unmarked(sb, blocks, a)[b] == blocks[b]
  {
  }

  /** Without an indirect block there is nothing behind it to free. */
  lemma NoIndirect(sb: Super, s: Fs, owner: Owner, i: nat, now: Image)
    requires Owned(sb, s, owner) && i < sb.ninodes && At(s, i, IND) == 0
    requires Freed(sb, s.blocks, owner, i, NDIRECT, now)
    ensures Freed(sb, s.blocks, owner, i, IND + 1, now)
  {
    hide Allocated;
    forall b: nat | b in owner && owner[b].0 == i
      ensures owner[b].1 < NDIRECT
    {
      assert OwnerOk(sb, s, owner, b);
    }
  }

  /** With all addresses cleared, inode i has no slot; the others see the same blocks. */
  lemma FreedSlots(sb: Super, s: Fs, owner: Owner, i: nat, s': Fs)
    requires Owned(sb, s, owner) && i < sb.ninodes && Freed(sb, s.blocks, owner, i, IND + 1, s'.blocks)
    requires |s'.inodes| == |s.inodes| && s'.inodes == s.inodes[i := s'.inodes[i]]
    requires forall k :: 0 <= k <= NDIRECT ==> s'.inodes[i].addrs[k] == 0
    ensures forall k: nat :: k <= IND ==> At(s', i, k) == 0
    ensures forall j: nat, k: nat :: j < sb.ninodes && j != i && k <= IND ==> At(s', j, k) == At(s, j, k)
    ensures forall j: nat, p: nat :: j < sb.ninodes && j != i && p < MAXBYTES ==>
              FileByte(s', j, p) == FileByte(s, j, p)
  {
    hide Allocated, Word;
    forall j: nat, k: nat | j < sb.ninodes && j != i && k <= IND
      ensures At(s', j, k) == At(s, j, k)
    {
      assert SlotOk(sb, s, owner, j, IND) && OwnerOk(sb, s, owner, At(s, j, IND));
    }
    forall j: nat, p: nat | j < sb.ninodes && j != i && p < MAXBYTES
      ensures FileByte(s', j, p) == FileByte(s, j, p)
    {
      assert SlotOk(sb, s, owner, j, p / BSIZE) && OwnerOk(sb, s, owner, At(s, j, p / BSIZE));
    }
  }

  // ---------- Writing ----------

  /** memmove(b + o, d, |d|) */
  function Patch(b: Block, o: nat, d: seq<Byte>): Block
    requires o + |d| <= BSIZE
  {
    b[..o] + d + b[o + |d|..]
  }

  lemma PatchedAt(b: Block, p: nat, d: seq<Byte>, q: nat)
    requires |d| <= BSIZE - p % BSIZE && q / BSIZE == p / BSIZE
    ensures Patch(b, p % BSIZE, d)[q % BSIZE] == if p <= q < p + |d| then d[q - p] else b[q % BSIZE]
  {
    assert q - p == q % BSIZE - p % BSIZE;
  }

  /** The blocks logged when the k-th block of file i is written and the structure goes from s to s'. */
  ghost function PartLog(sb: Super, s: Fs, s': Fs, i: nat, k: nat): set<nat>
    requires i < |s.inodes| && i < |s'.inodes| && k < MAXFILE
  {
    {At(s', i, k)}
    + (if At(s, i, k) != 0 then {} else {sb.Bblock(At(s', i, k))} + IndLog(sb, s, s', i, k))
  }

  ghost function IndLog(sb: Super, s: Fs, s': Fs, i: nat, k: nat): set<nat>
    requires i < |s.inodes| && i < |s'.inodes|
  {
    if k < NDIRECT then {}
    else if At(s, i, IND) != 0 then {At(s', i, IND)}
    else {At(s', i, IND), sb.Bblock(At(s', i, IND))}
  }

  /** What is left of a read of n bytes at the end of the file. */
  function Clip(size: nat, off: nat, n: nat): nat {
    if off > size then 0 else if off + n > size then size - off else n
  }

  /** Block k of a file holds some of the n bytes from offset off on. */
  predicate InSpan(k: nat, off: nat, n: nat) {
    n > 0 && off / BSIZE <= k && k * BSIZE < off + n
  }

  /** Every block that holds some of those bytes is there. */
  ghost predicate Filled(s: Fs, i: nat, off: nat, n: nat) {
    i < |s.inodes| && forall k: nat :: k < MAXFILE && InSpan(k, off, n) ==> At(s, i, k) != 0
  }

  /** s' holds src in file i at offset off, and otherwise the bytes of s. */
  ghost predicate BytesWritten(s: Fs, s': Fs, i: nat, off: nat, src: seq<Byte>) {
    && |s'.inodes| == |s.inodes|
    && forall j: nat, q: nat :: j < |s.inodes| && q < MAXBYTES ==>
         FileByte(s', j, q) == if j == i && off <= q < off + |src| then src[q - off] else FileByte(s, j, q)
  }

  /** Every block logged belongs to the writing of some block in the span. */
  ghost predicate Charged(sb: Super, s: Fs, s': Fs, i: nat, off: nat, n: nat, before: set<nat>, after: set<nat>)
    requires i < |s.inodes| && i < |s'.inodes|
  {
    forall b :: b in after ==> b in before || Charge(sb, s, s', i, off, n, b)
  }

  ghost predicate Charge(sb: Super, s: Fs, s': Fs, i: nat, off: nat, n: nat, b: nat)
    requires i < |s.inodes| && i < |s'.inodes|
  {
    exists k: nat :: k < MAXFILE && InSpan(k, off, n) && At(s', i, k) != 0 && b in PartLog(sb, s, s', i, k)
  }

  /** Slots of inode i that have a block keep it from s to s'. */
  ghost predicate KeepsSlots(s: Fs, s': Fs, i: nat)
    requires i < |s.inodes| && i < |s'.inodes|
  {
    forall l: nat :: l <= IND && At(s, i, l) != 0 ==> At(s', i, l) == At(s, i, l)
  }

  lemma StillFilled(s: Fs, s': Fs, i: nat, off: nat, tot: nat, m: nat)
    requires Filled(s, i, off, tot) && i < |s'.inodes| && KeepsSlots(s, s', i)
    requires 0 < m <= BSIZE - (off + tot) % BSIZE && off + tot < MAXBYTES && At(s', i, (off + tot) / BSIZE) != 0
    ensures Filled(s', i, off, tot + m)
  {
    hide At;
    forall k: nat | k < MAXFILE && InSpan(k, off, tot + m)
      ensures At(s', i, k) != 0
    {
      if !InSpan(k, off, tot) {
        assert k == (off + tot) / BSIZE;
      }
    }
  }

  /** A slot that is empty now was empty before. */
  lemma NotFilled(s: Fs, s1: Fs, i: nat, off: nat, n: nat, p: nat)
    requires i < |s.inodes| && i < |s1.inodes| && KeepsSlots(s, s1, i) && off <= p < off + n && p < MAXBYTES
    requires At(s1, i, p / BSIZE) == 0
    ensures !Filled(s, i, off, n)
  {
    hide At;
    assert InSpan(p / BSIZE, off, n);
  }

  lemma SpanGrows(s: Fs, i: nat, off: nat, tot: nat, m: nat)
    requires m > 0 && off + tot < MAXBYTES && Filled(s, i, off, tot + m)
    ensures Filled(s, i, off, tot) && At(s, i, (off + tot) / BSIZE) != 0
  {
    hide At;
    assert InSpan((off + tot) / BSIZE, off, tot + m);
    assert forall k: nat :: InSpan(k, off, tot) ==> InSpan(k, off, tot + m);
  }

  lemma MoreBytes(s: Fs, s1: Fs, s': Fs, i: nat, off: nat, src: seq<Byte>, tot: nat, m: nat)
    requires tot + m <= |src| && BytesWritten(s, s1, i, off, src[..tot])
    requires BytesWritten(s1, s', i, off + tot, src[tot..tot + m])
    ensures BytesWritten(s, s', i, off, src[..tot + m])
  {
    hide FileByte;
    assert src[..tot + m] == src[..tot] + src[tot..tot + m];
  }

  /** Charging the writing of block k from s1 instead of s only loses what was already there in s1. */
  lemma PartLogMono(sb: Super, s: Fs, s1: Fs, s': Fs, i: nat, k: nat)
    requires i < |s.inodes| && i < |s1.inodes| && i < |s'.inodes| && k < MAXFILE
    requires KeepsSlots(s, s1, i) && KeepsSlots(s1, s', i)
    ensures PartLog(sb, s1, s', i, k) <= PartLog(sb, s, s', i, k)
    ensures At(s1, i, k) != 0 ==> PartLog(sb, s, s', i, k) == PartLog(sb, s, s1, i, k)
  {
    assert NDIRECT <= k && At(s1, i, k) != 0 ==> At(s1, i, IND) != 0;
  }

  lemma MoreCharged(sb: Super, s: Fs, s1: Fs, s': Fs, i: nat, off: nat, tot: nat, m: nat,
                    before: set<nat>, mid: set<nat>, after: set<nat>)
    requires i < |s.inodes| && i < |s1.inodes| && i < |s'.inodes| && KeepsSlots(s, s1, i) && KeepsSlots(s1, s', i)
    requires 0 < m <= BSIZE - (off + tot) % BSIZE && off + tot < MAXBYTES && At(s', i, (off + tot) / BSIZE) != 0
    requires Charged(sb, s, s1, i, off, tot, before, mid)
    requires after == mid + PartLog(sb, s1, s', i, (off + tot) / BSIZE)
    ensures Charged(sb, s, s', i, off, tot + m, before, after)
  {
    hide At, PartLog;
    forall b | b in after && b !in before
      ensures Charge(sb, s, s', i, off, tot + m, b)
    {
      if b in mid {
        var k: nat :| k < MAXFILE && InSpan(k, off, tot) && At(s1, i, k) != 0 && b in PartLog(sb, s, s1, i, k);
        PartLogMono(sb, s, s1, s', i, k);
        assert InSpan(k, off, tot + m);
      } else {
        var k := (off + tot) / BSIZE;
        PartLogMono(sb, s, s1, s', i, k);
        assert InSpan(k, off, tot + m);
      }
    }
  }

  /** c with src written over it at offset off, longer if need be. */
  function Spliced(c: seq<Byte>, off: nat, src: seq<Byte>): seq<Byte>
    requires off <= |c|
  {
    c[..off] + src + (if off + |src| < |c| then c[off + |src|..] else [])
  }

  /** File j has the same inode and the same bytes. */
  ghost predicate SameFile(s: Fs, s': Fs, j: nat) {
    j < |s.inodes| && j < |s'.inodes| && s'.inodes[j] == s.inodes[j] && Contents(s', j) == Contents(s, j)
  }

  /** Setting the size of an inode touches no slot. */
  lemma SizeOnly(sb: Super, s: Fs, owner: Owner, i: nat, n: Uint)
    requires Owned(sb, s, owner) && i < sb.ninodes
    ensures var s' := s.(inodes := s.inodes[i := Dinode(s.inodes[i].typ, n, s.inodes[i].addrs)]);
            Owned(sb, s', owner) && SameBytes(s, s') &&
            forall j: nat, l: nat :: j < sb.ninodes && l <= IND ==> At(s', j, l) == At(s, j, l)
  {
    hide Allocated, Word;
    var s' := s.(inodes := s.inodes[i := Dinode(s.inodes[i].typ, n, s.inodes[i].addrs)]);
    assert forall j: nat, l: nat :: j < sb.ninodes && l <= IND ==> At(s', j, l) == At(s, j, l);
    forall b: nat
      ensures OwnerOk(sb, s', owner, b)
    {
      assert OwnerOk(sb, s, owner, b);
    }
    forall j: nat, l: nat | j < sb.ninodes && l <= IND
      ensures SlotOk(sb, s', owner, j, l)
    {
      assert SlotOk(sb, s, owner, j, l);
    }
  }

  /** Inside a file without holes every block of the span is there already. */
  lemma AlreadyThere(s: Fs, i: nat, off: nat, n: nat)
    requires i < |s.inodes| && HoleFree(s, i) && (n == 0 || off + n <= s.inodes[i].size)
    ensures Filled(s, i, off, n)
  {
  }

  lemma {:induction false} NewContents(s: Fs, s1: Fs, s': Fs, i: nat, off: nat, src: seq<Byte>)
    requires i < |s.inodes| && off <= s.inodes[i].size <= MAXBYTES && off + |src| <= MAXBYTES
    requires BytesWritten(s, s1, i, off, src) && Filled(s1, i, off, |src|) && KeepsSlots(s, s1, i)
    requires s1.inodes == s.inodes[i := s1.inodes[i]] && s1.inodes[i].size == s.inodes[i].size
    requires SameBytes(s1, s') && s'.inodes == s1.inodes[i := s'.inodes[i]]
    requires forall l: nat :: l <= IND ==> At(s', i, l) == At(s1, i, l)
    requires s'.inodes[i].size == if |src| > 0 && off + |src| > s.inodes[i].size then off + |src| else s.inodes[i].size
    ensures Contents(s', i) == Spliced(Contents(s, i), off, src) && (HoleFree(s, i) ==> HoleFree(s', i))
    ensures forall j: nat :: j < |s.inodes| && j != i ==> SameFile(s, s', j)
  {
    hide At, FileByte;
    assert forall p :: 0 <= p < s'.inodes[i].size ==> Contents(s', i)[p] == Spliced(Contents(s, i), off, src)[p];
    forall k: nat | HoleFree(s, i) && k < MAXFILE && k * BSIZE < s'.inodes[i].size
      ensures At(s', i, k) != 0
    {
      if k * BSIZE >= s.inodes[i].size {
        assert InSpan(k, off, |src|);
      }
    }
  }

  lemma ChargedSame(sb: Super, s: Fs, s1: Fs, s': Fs, i: nat, off: nat, n: nat,
                    before: set<nat>, mid: set<nat>, after: set<nat>)
    requires i < |s.inodes| && i < |s1.inodes| && i < |s'.inodes|
    requires forall l: nat :: l <= IND ==> At(s', i, l) == At(s1, i, l)
    requires Charged(sb, s, s1, i, off, n, before, mid) && after <= mid + {sb.Iblock(i)}
    ensures Charged(sb, s, s', i, off, n, before + {sb.Iblock(i)}, after)
  {
    hide At;
    forall b | b in after && b !in before + {sb.Iblock(i)}
      ensures Charge(sb, s, s', i, off, n, b)
    {
      var k: nat :| k < MAXFILE && InSpan(k, off, n) && At(s1, i, k) != 0 && b in PartLog(sb, s, s1, i, k);
      assert PartLog(sb, s, s', i, k) == PartLog(sb, s, s1, i, k);
    }
  }

  lemma BlockThere(s: Fs, i: nat, off: nat, n: nat, p: nat)
    requires Filled(s, i, off, n) && off <= p < off + n && p < MAXBYTES
    ensures At(s, i, p / BSIZE) != 0
  {
    hide At;
    assert InSpan(p / BSIZE, off, n);
  }

  lemma SliceMore(c: seq<Byte>, a: nat, b: nat, e: nat)
    requires a <= b <= e <= |c|
    ensures c[a..b] + c[b..e] == c[a..e]
  {
  }

  lemma SameContents(s: Fs, s': Fs, i: nat)
    requires SameBytes(s, s') && i < |s.inodes| && s'.inodes[i].size == s.inodes[i].size
    ensures Contents(s', i) == Contents(s, i)
  {
    hide FileByte;
  }

  /** Bytes p .. p + m of a file, within one block. */
  lemma PartIs(s: Fs, i: nat, p: nat, m: nat)
    requires i < |s.inodes| && s.inodes[i].size <= MAXBYTES && p + m <= s.inodes[i].size && m <= BSIZE - p % BSIZE
    requires m > 0 && 0 < At(s, i, p / BSIZE) < |s.blocks|
    ensures Contents(s, i)[p..p + m] == s.blocks[At(s, i, p / BSIZE)][p % BSIZE..p % BSIZE + m]
  {
    hide At;
    var x, y := Contents(s, i)[p..p + m], s.blocks[At(s, i, p / BSIZE)][p % BSIZE..p % BSIZE + m];
    forall q | 0 <= q < m
      ensures x[q] == y[q]
    {
      assert (p + q) / BSIZE == p / BSIZE && (p + q) % BSIZE == p % BSIZE + q;
    }
  }

  // ---------- The per-operation bound ----------

  /** The blocks of the span, and those of them that the write had to allocate. */
  ghost function DataLog(s': Fs, i: nat, off: nat, n: nat): set<nat>
    requires i < |s'.inodes|
  {
    set k: nat | k < MAXFILE && InSpan(k, off, n) :: At(s', i, k)
  }

  ghost function MapLog(sb: Super, s: Fs, s': Fs, i: nat, off: nat, n: nat): set<nat>
    requires i < |s.inodes| && i < |s'.inodes|
  {
    set k: nat | k < MAXFILE && InSpan(k, off, n) && At(s, i, k) == 0 :: sb.Bblock(At(s', i, k))
  }

  lemma {:induction false} RangeBound(r: set<nat>, lo: nat, hi: nat)
    requires lo <= hi && forall k :: k in r ==> lo <= k < hi
    ensures |r| <= hi - lo
    decreases hi - lo
  {
    if lo == hi {
      assert r == {};
    } else {
      RangeBound(r - {hi - 1}, lo, hi - 1);
      assert r <= r - {hi - 1} + {hi - 1};
      SubsetBound(r, r - {hi - 1} + {hi - 1});
    }
  }

  lemma {:induction false} SubsetBound(a: set<nat>, b: set<nat>)
    requires a <= b
    ensures |a| <= |b|
    decreases b
  {
    assert |b - a| + |a| == |b - a + a| && b - a + a == b;
  }

  lemma {:induction false} ImageBound(r: set<nat>, f: nat -> nat)
    ensures |set k | k in r :: f(k)| <= |r|
    decreases r
  {
    if r != {} {
      var x :| x in r;
      ImageBound(r - {x}, f);
      assert (set k | k in r :: f(k)) == (set k | k in r - {x} :: f(k)) + {f(x)};
    }
  }

  lemma DataLogBound(s': Fs, i: nat, off: nat, n: nat)
    requires i < |s'.inodes| && n <= 3 * BSIZE
    ensures |DataLog(s', i, off, n)| <= 4
  {
    hide At;
    var r := set k: nat | k < MAXFILE && InSpan(k, off, n);
    var f: nat -> nat := (k: nat) => if k < MAXFILE then At(s', i, k) else 0;
    ImageBound(r, f);
    var image := set k | k in r :: f(k);
    forall x | x in DataLog(s', i, off, n)
      ensures x in image
    {
      var k: nat :| k < MAXFILE && InSpan(k, off, n) && x == At(s', i, k);
      assert k in r && f(k) == x;
    }
    SubsetBound(DataLog(s', i, off, n), image);
    RangeBound(r, off / BSIZE, off / BSIZE + 4);
  }

  /** In a file without holes at most three blocks of a three-block write are new. */
  lemma MapLogBound(sb: Super, s: Fs, s': Fs, i: nat, off: nat, n: nat)
    requires i < |s.inodes| && i < |s'.inodes| && n <= 3 * BSIZE && HoleFree(s, i) && off <= s.inodes[i].size
    ensures |MapLog(sb, s, s', i, off, n)| <= 3
  {
    hide At;
    var r := set k: nat | k < MAXFILE && InSpan(k, off, n) && At(s, i, k) == 0;
    var f: nat -> nat := (k: nat) => if k < MAXFILE then sb.Bblock(At(s', i, k)) else 0;
    ImageBound(r, f);
    var image := set k | k in r :: f(k);
    forall x | x in MapLog(sb, s, s', i, off, n)
      ensures x in image
    {
      var k: nat :| k < MAXFILE && InSpan(k, off, n) && At(s, i, k) == 0 && x == sb.Bblock(At(s', i, k));
      assert k in r && f(k) == x;
    }
    SubsetBound(MapLog(sb, s, s', i, off, n), image);
    var lo := (off + BSIZE - 1) / BSIZE;
    forall k | k in r
      ensures lo <= k < lo + 3
    {
      assert k * BSIZE >= s.inodes[i].size;
    }
    RangeBound(r, lo, lo + 3);
  }

  /**
   The per-operation bound: at most 4 data blocks, 1 indirect block, 4 blocks of the free map and
   1 inode block, even if every allocation falls into a different block of the free map.
   */
  lemma TransactionBound(sb: Super, s: Fs, s': Fs, i: nat, off: nat, n: nat, after: set<nat>)
    requires i < |s.inodes| && i < |s'.inodes| && n <= 3 * BSIZE && HoleFree(s, i) && off <= s.inodes[i].size
    requires Charged(sb, s, s', i, off, n, {sb.Iblock(i)}, after)
    ensures |after| <= MAXOPBLOCKS
  {
    hide At;
    var data, maps := DataLog(s', i, off, n), MapLog(sb, s, s', i, off, n);
    var ind := At(s', i, IND);
    var rest := {ind, sb.Bblock(ind), sb.Iblock(i)};
    forall b | b in after
      ensures b in data + maps + rest
    {
      if b != sb.Iblock(i) {
        var k: nat :| k < MAXFILE && InSpan(k, off, n) && At(s', i, k) != 0 && b in PartLog(sb, s, s', i, k);
        assert At(s', i, k) in data;
        assert At(s, i, k) == 0 ==> sb.Bblock(At(s', i, k)) in maps;
      }
    }
    SubsetBound(after, data + maps + rest);
    DataLogBound(s', i, off, n);
    MapLogBound(sb, s, s', i, off, n);
    assert |rest| <= 3;
    assert |data + maps + rest| <= |data| + |maps| + |rest|;
  }
}
