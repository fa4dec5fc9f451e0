/**
 filewrite of file.c on an inode: a large write is cut into transactions small enough for the log.
 */
module FileWrite {
  import opened Common
  import opened Blocks
  import opened FsState
  import opened FileSys

  /** ((MAXOPBLOCKS-1-1-2) / 2) * 512 */
  const CHUNK := (MAXOPBLOCKS - 1 - 1 - 2) / 2 * 512

  /** What filewrite returns; `Halted` stands for a kernel panic and `Driver` for a device's answer. */
  datatype Outcome = Returned(v: int) | Driver | Halted

  class OpenFile {
    const inum: nat
    const writable: bool
    var off: Uint

    constructor (inum: nat, writable: bool, off: Uint)
      ensures this.inum == inum && this.writable == writable && this.off == off
    {
      this.inum, this.writable, this.off := inum, writable, off;
    }
  }

  /** Writing a and then b is writing a + b. */
  lemma SplicedTwice(c: seq<Byte>, off: nat, a: seq<Byte>, b: seq<Byte>)
    requires off <= |c|
    ensures off + |a| <= |Spliced(c, off, a)|
    ensures Spliced(Spliced(c, off, a), off + |a|, b) == Spliced(c, off, a + b)
  {
  }

  lemma SplicedNothing(c: seq<Byte>, off: nat)
    requires off <= |c|
    ensures Spliced(c, off, []) == c
  {
  }

  lemma SplicedLength(c: seq<Byte>, off: nat, a: seq<Byte>)
    requires off <= |c|
    ensures |Spliced(c, off, a)| >= off + |a| && |Spliced(c, off, a)| >= |c|
  {
  }

  /** The bytes of a write of n that go in: all, or the whole chunks below the largest file size. */
  function Fitting(off: nat, size: nat, n: nat): nat
    requires size <= MAXBYTES
  {
    if off > size then 0
    else if off + n <= MAXBYTES then n
    else (MAXBYTES - off) / CHUNK * CHUNK
  }

  lemma NoneFits(off: nat, size: nat, n: nat)
    requires size <= MAXBYTES && off > size
    ensures Fitting(off, size, n) == 0
  {
  }

  lemma SizeOk(s: Fs, i: nat)
    requires i < |s.inodes| && HoleFree(s, i)
    ensures s.inodes[i].size <= MAXBYTES
  {
  }

  lemma AllFits(off: nat, size: nat, n: nat)
    requires size <= MAXBYTES && (n > 0 ==> off <= size && off + n <= MAXBYTES)
    ensures Fitting(off, size, n) == n
  {
  }

  /** Every file but i is as it was. */
  ghost predicate OthersSame(s: Fs, s': Fs, i: nat) {
    |s'.inodes| == |s.inodes| && forall j: nat :: j < |s.inodes| && j != i ==> SameFile(s, s', j)
  }

  lemma OthersTwice(s: Fs, s1: Fs, s2: Fs, i: nat)
    requires OthersSame(s, s1, i) && OthersSame(s1, s2, i)
    ensures OthersSame(s, s2, i)
  {
    forall j: nat | j < |s.inodes| && j != i ensures SameFile(s, s2, j) {
      assert SameFile(s, s1, j) && SameFile(s1, s2, j);
    }
  }

  lemma NoneChanged(s: Fs, i: nat)
    ensures OthersSame(s, s, i)
  {
  }

  /** The first chunk that does not fit begins where the fitting part ends. */
  lemma ChunkEnds(off: nat, size: nat, n: nat, k: nat, n1: nat)
    requires off <= size <= MAXBYTES && k * CHUNK + n1 <= n && n1 <= CHUNK && off + k * CHUNK <= MAXBYTES
    requires off + k * CHUNK + n1 > MAXBYTES
    ensures k * CHUNK == Fitting(off, size, n)
  {
  }

  /** A transaction on file i that logs no more than it may, and all that it changes. */
  ghost predicate SmallTxn(sb: Super, i: nat, t: Txn) {
    && |t.logged| <= MAXOPBLOCKS && OthersSame(t.before, t.after, i)
    && Tracked(sb, t.before.blocks, t.after.blocks, {sb.Iblock(i)}, t.logged + {sb.Iblock(i)})
    && i < |t.before.inodes| && (t.after.inodes[i] != t.before.inodes[i] ==> sb.Iblock(i) in t.logged)
  }

  /** How much of n bytes the first k transactions write. */
  function Upto(k: nat, n: nat): nat {
    if k * CHUNK <= n then k * CHUNK else n
  }

  /**
   Transactions that lead from s0 to s1 and write addr into file i, whose bytes were c, at offset off:
   one chunk each, in order.
   */
  ghost predicate Wrote(sb: Super, i: nat, c: seq<Byte>, off: nat, addr: seq<Byte>, s0: Fs, txns: seq<Txn>, s1: Fs)
    decreases |txns|
  {
    if txns == [] then s1 == s0
    else
      && var n := |txns| - 1;
      && txns[n].after == s1 && SmallTxn(sb, i, txns[n]) && off <= |c| && i < |s1.inodes|
      && Contents(s1, i) == Spliced(c, off, addr[..Upto(n + 1, |addr|)])
      && Wrote(sb, i, c, off, addr, s0, txns[..n], txns[n].before)
  }

  lemma WroteMore(sb: Super, i: nat, c: seq<Byte>, off: nat, addr: seq<Byte>, s0: Fs, txns: seq<Txn>, t: Txn)
    requires Wrote(sb, i, c, off, addr, s0, txns, t.before) && SmallTxn(sb, i, t) && off <= |c| && i < |t.after.inodes|
    requires Contents(t.after, i) == Spliced(c, off, addr[..Upto(|txns| + 1, |addr|)])
    ensures Wrote(sb, i, c, off, addr, s0, txns + [t], t.after)
  {
    assert (txns + [t])[..|txns|] == txns;
  }

  /** A write inside a file without holes needs no block. */
  lemma InPlace(s: Fs, i: nat, off: nat, n: nat)
    requires i < |s.inodes| && HoleFree(s, i) && !Filled(s, i, off, n)
    ensures off + n > s.inodes[i].size
  {
    if off + n <= s.inodes[i].size {
      AlreadyThere(s, i, off, n);
    }
  }

  /** One transaction: begin_op, writei, end_op. */
  method WriteChunk(fs: FileSys, f: OpenFile, part: seq<Byte>) returns (w: IoResult)
    requires fs.Valid() && f.inum < fs.sb.ninodes && HoleFree(fs.State(), f.inum) && |part| <= CHUNK
    requires fs.dinodes[f.inum] == fs.inodes[f.inum]
    modifies fs, f`off
    ensures w.Device? <==> old(fs.inodes)[f.inum].typ == T_DEV
    ensures w.Error? <==> old(fs.inodes)[f.inum].typ != T_DEV &&
                          (old(f.off) > old(fs.inodes)[f.inum].size || old(f.off) + |part| > MAXBYTES)
    ensures w.Error? || w.Device? ==>
              && fs.Valid() && fs.State() == old(fs.State()) && fs.dinodes == old(fs.dinodes) && f.off == old(f.off)
              && fs.logged == {}
    ensures w.Panic? ==>
              && |fs.blocks| == fs.sb.size && Full(fs.sb, fs.blocks) && f.off == old(f.off)
              && old(f.off) + |part| > old(fs.inodes)[f.inum].size
              && fs.txns == old(fs.txns) && fs.begun == old(fs.State())
    ensures !w.Panic? ==> fs.txns == old(fs.txns) + [Txn(old(fs.State()), fs.State(), fs.logged)]
    ensures w.Count? ==>
              && w.n == |part| && f.off == old(f.off) + |part| && |fs.logged| <= MAXOPBLOCKS
              && fs.Valid() && HoleFree(fs.State(), f.inum) && fs.dinodes[f.inum] == fs.inodes[f.inum]
              && fs.inodes[f.inum].typ == old(fs.inodes)[f.inum].typ && f.off <= fs.inodes[f.inum].size
              && old(fs.inodes)[f.inum].size <= fs.inodes[f.inum].size
              && Contents(fs.State(), f.inum) == Spliced(Contents(old(fs.State()), f.inum), old(f.off), part)
              && OthersSame(old(fs.State()), fs.State(), f.inum)
    ensures w.Count? ==>
              && var inode := fs.sb.Iblock(f.inum);
              && Tracked(fs.sb, old(fs.blocks), fs.blocks, {inode}, fs.logged + {inode})
              && (fs.dinodes[f.inum] != old(fs.dinodes)[f.inum] ==> inode in fs.logged)
              && (forall j: nat :: j < fs.sb.ninodes && j != f.inum ==> fs.dinodes[j] == old(fs.dinodes)[j])
  {
    hide At, Allocated, FileByte, Spliced, Charged, Contents, Full, Tracked;
    fs.BeginOp();
    ghost var s := fs.State();
    w := fs.Writei(f.inum, part, f.off);
    if w.Panic? {
      InPlace(s, f.inum, f.off, |part|);
    } else if w.Count? {
      assert {} + {fs.sb.Iblock(f.inum)} == {fs.sb.Iblock(f.inum)};
      TransactionBound(fs.sb, s, fs.State(), f.inum, f.off, |part|, fs.logged);
      LengthIsSize(s, f.inum);
      LengthIsSize(fs.State(), f.inum);
      SplicedLength(Contents(s, f.inum), f.off, part);
      f.off := f.off + w.n;
    }
    if !w.Panic? {
      fs.EndOp();
    }
  }

  /** The number of chunks that n bytes make. */
  function ChunksIn(n: nat): nat {
    (n + CHUNK - 1) / CHUNK
  }

  /**
   The transactions of a filewrite that found s0 and came to s1: one for each chunk written, and one
   that logs nothing if a chunk was refused or went to a device.
   */
  ghost predicate Traced(sb: Super, i: nat, off: nat, addr: seq<Byte>, s0: Fs, ts: seq<Txn>, r: Outcome,
                         done: nat, s1: Fs)
    requires i < |s0.inodes|
  {
    match r
    case Returned(v) =>
      && |ts| == ChunksIn(done) + (if v < 0 then 1 else 0)
      && Wrote(sb, i, Contents(s0, i), off, addr, s0, ts[..ChunksIn(done)], s1)
      && (v < 0 ==> ts[|ts| - 1] == Txn(s1, s1, {}))
    case Driver => ts == [Txn(s1, s1, {})]
    case Halted => Wrote(sb, i, Contents(s0, i), off, addr, s0, ts, s1)
  }

  lemma TracedHere(sb: Super, i: nat, off: nat, addr: seq<Byte>, s0: Fs, was: seq<Txn>, ts: seq<Txn>, r: Outcome,
                   done: nat, s1: Fs)
    requires i < |s0.inodes| && Wrote(sb, i, Contents(s0, i), off, addr, s0, ts, s1)
    requires r.Returned? ==> |ts| == ChunksIn(done)
    requires r.Driver? ==> ts == []
    ensures if r.Driver? || (r.Returned? && r.v < 0)
            then Traced(sb, i, off, addr, s0, (was + ts + [Txn(s1, s1, {})])[|was|..], r, done, s1)
            else Traced(sb, i, off, addr, s0, (was + ts)[|was|..], r, done, s1)
  {
    hide Contents, Wrote, ChunksIn;
    var more := ts + [Txn(s1, s1, {})];
    assert (was + ts + [Txn(s1, s1, {})])[|was|..] == more && more[..|ts|] == ts;
    assert (was + ts)[|was|..] == ts == ts[..|ts|];
  }

  /**
   filewrite.  When it returns n the file holds all of addr at the old offset; when it returns -1 it
   holds the whole chunks that fitted; and it panics only on a full disk, past the end of the file.
   Each chunk is a transaction of its own, which logs at most MAXOPBLOCKS blocks and every block that
   it changes.
   */
  method Filewrite(fs: FileSys, f: OpenFile, addr: seq<Byte>) returns (r: Outcome, ghost done: nat)
    requires fs.Valid() && f.inum < fs.sb.ninodes && HoleFree(fs.State(), f.inum) && |addr| < INT_LIMIT
    requires fs.dinodes[f.inum] == fs.inodes[f.inum]
    modifies fs, f`off
    ensures !f.writable ==> r == Returned(-1) && fs.State() == old(fs.State()) && f.off == old(f.off)
    ensures r.Returned? && f.writable ==>
              && done == Fitting(old(f.off), old(fs.inodes)[f.inum].size, |addr|)
              && r.v == if done == |addr| then |addr| else -1
    ensures r.Driver? <==> f.writable && |addr| > 0 && old(fs.inodes)[f.inum].typ == T_DEV
    ensures r.Driver? ==> fs.State() == old(fs.State())
    ensures r.Halted? ==>
              && |fs.blocks| == fs.sb.size && Full(fs.sb, fs.blocks)
              && old(f.off) + |addr| > old(fs.inodes)[f.inum].size
    ensures r.Returned? ==> fs.Valid() && fs.dinodes[f.inum] == fs.inodes[f.inum]
    ensures r.Returned? && f.writable ==>
              && done <= |addr| && f.off == old(f.off) + done
              && HoleFree(fs.State(), f.inum)
              && (old(f.off) <= |Contents(old(fs.State()), f.inum)| ==>
                    Contents(fs.State(), f.inum) ==
                    Spliced(Contents(old(fs.State()), f.inum), old(f.off), addr[..done]))
    ensures r.Returned? ==> OthersSame(old(fs.State()), fs.State(), f.inum)
    ensures old(fs.txns) <= fs.txns
    ensures !f.writable ==> fs.txns == old(fs.txns)
    ensures f.writable ==>
              Traced(fs.sb, f.inum, old(f.off), addr, old(fs.State()), fs.txns[|old(fs.txns)|..], r, done,
                     if r.Halted? then fs.begun else fs.State())
  {
    hide At, Allocated, FileByte, Spliced, Charged, Contents, Full, OthersSame, HoleFree, Fitting, SmallTxn, Wrote;
    hide Tracked, Upto, ChunksIn, Traced;
    NoneChanged(fs.State(), f.inum);
    SizeOk(fs.State(), f.inum);
    done := 0;
    if !f.writable {
      return Returned(-1), done;
    }
    var n := |addr|;
    var i := 0;
    ghost var k: nat := 0;
    ghost var c := Contents(fs.State(), f.inum);
    ghost var size := fs.inodes[f.inum].size;
    ghost var inside := f.off <= size;
    ghost var ts: seq<Txn> := [];
    LengthIsSize(fs.State(), f.inum);
    NothingWrote(fs.sb, f.inum, c, f.off, addr, fs.State());
    NoChunk(n);
    if inside {
      SplicedNothing(c, f.off);
    }
    assert addr[..0] == [];
    while i < n
      invariant 0 <= i <= n && f.off == old(f.off) + i && i == Upto(k, n) && k == ChunksIn(i)
      invariant fs.Valid() && HoleFree(fs.State(), f.inum) && fs.dinodes[f.inum] == fs.inodes[f.inum]
      invariant OthersSame(old(fs.State()), fs.State(), f.inum)
      invariant fs.txns == old(fs.txns) + ts && |ts| == k
      invariant Wrote(fs.sb, f.inum, c, old(f.off), addr, old(fs.State()), ts, fs.State())
      invariant inside ==>
                  Contents(fs.State(), f.inum) == Spliced(c, old(f.off), addr[..i]) && f.off <= fs.inodes[f.inum].size
      invariant fs.inodes[f.inum].typ == old(fs.inodes)[f.inum].typ &&
                (i > 0 ==> inside && fs.inodes[f.inum].typ != T_DEV)
      invariant (i == 0 ==> fs.State() == old(fs.State())) && size <= fs.inodes[f.inum].size
    {
      var n1 := if n - i > CHUNK then CHUNK else n - i;
      NextChunk(k, i, n, n1);
      ghost var s1 := fs.State();
      var part := addr[i..i + n1];
      var w := WriteChunk(fs, f, part);
      if w.Device? {
        TracedHere(fs.sb, f.inum, old(f.off), addr, old(fs.State()), old(fs.txns), ts, Driver, done, s1);
        return Driver, done;
      }
      if w.Panic? {
        TracedHere(fs.sb, f.inum, old(f.off), addr, old(fs.State()), old(fs.txns), ts, Halted, done, s1);
        return Halted, done;
      }
      if w.Error? {
        done := i;
        TracedHere(fs.sb, f.inum, old(f.off), addr, old(fs.State()), old(fs.txns), ts, Returned(-1), done, s1);
        if inside {
          SizeOk(s1, f.inum);
          ChunkEnds(old(f.off), size, n, k, n1);
        } else {
          NoneFits(old(f.off), size, n);
        }
        return Returned(-1), done;
      }
      SplicedTwice(c, old(f.off), addr[..i], part);
      assert addr[..i] + part == addr[..i + n1];
      OthersTwice(old(fs.State()), s1, fs.State(), f.inum);
      SizeOk(fs.State(), f.inum);
      i := i + w.n;
      k := k + 1;
      ghost var t := Txn(s1, fs.State(), fs.logged);
      IsSmall(fs.sb, f.inum, t);
      WroteMore(fs.sb, f.inum, c, old(f.off), addr, old(fs.State()), ts, t);
      ts := ts + [t];
    }
    assert addr[..n] == addr;
    SizeOk(fs.State(), f.inum);
    AllFits(old(f.off), size, n);
    TracedHere(fs.sb, f.inum, old(f.off), addr, old(fs.State()), old(fs.txns), ts, Returned(n), n, fs.State());
    return Returned(n), n;
  }

  lemma NoChunk(n: nat)
    ensures Upto(0, n) == 0 && ChunksIn(0) == 0
  {
  }

  lemma NextChunk(k: nat, i: nat, n: nat, n1: nat)
    requires i == Upto(k, n) < n && n1 == if n - i > CHUNK then CHUNK else n - i
    ensures i == k * CHUNK && Upto(k + 1, n) == i + n1 && ChunksIn(i + n1) == k + 1
  {
    assert CHUNK == 1536 && (k + 1) * CHUNK == k * 1536 + 1536;
    assert (k * 1536 + (n1 + 1535)) / 1536 == k + 1;
  }

  lemma NothingWrote(sb: Super, i: nat, c: seq<Byte>, off: nat, addr: seq<Byte>, s: Fs)
    ensures Wrote(sb, i, c, off, addr, s, [], s)
  {
  }

  lemma IsSmall(sb: Super, i: nat, t: Txn)
    requires |t.logged| <= MAXOPBLOCKS && OthersSame(t.before, t.after, i)
    requires Tracked(sb, t.before.blocks, t.after.blocks, {sb.Iblock(i)}, t.logged + {sb.Iblock(i)})
    requires i < |t.before.inodes| && (t.after.inodes[i] != t.before.inodes[i] ==> sb.Iblock(i) in t.logged)
    ensures SmallTxn(sb, i, t)
  {
  }
}
