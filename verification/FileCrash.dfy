/**
 A file write and the log together: one transaction of filewrite, from begin_op to end_op, and what
 the file system is after a crash at any block write in it.

 The transaction works on the latest contents of the blocks, as FileSys.dfy has it, and hands the
 blocks it changed to log_write at its end.  The kernel hands over each one as it changes it; no such
 block reaches the disk before the commit either way, and log_write absorbs repeated calls.
 */
module FileCrash {
  import opened Common
  import opened Blocks
  import opened FsState
  import opened LogFormat
  import opened BufferCache
  import opened FileSys
  import opened FileWrite
  import L = Log
  import Protocol = LogProtocol

  // ---- Inodes in their blocks ---------------------------------------------------------------------

  const WORDS := 16   // sizeof(struct dinode) / sizeof(uint)

  function GetAddrs(b: Block, k: nat, n: nat): (addrs: seq<Uint>)
    requires k < IPB && n <= NDIRECT + 1
    ensures |addrs| == n && forall j :: 0 <= j < n ==> addrs[j] == Word(b, WORDS * k + 3 + j)
  {
    if n == 0 then [] else GetAddrs(b, k, n - 1) + [Word(b, WORDS * k + 2 + n)]
  }

  /** The k-th inode of an inode block. */
  function GetInode(b: Block, k: nat): Dinode
    requires k < IPB
  {
    Dinode(Word(b, WORDS * k) % 0x10000, Word(b, WORDS * k + 2), GetAddrs(b, k, NDIRECT + 1))
  }

  /** `b` with the first n addresses of its k-th inode set. */
  function PutAddrs(b: Block, k: nat, addrs: Addrs, n: nat): Block
    requires k < IPB && n <= NDIRECT + 1
  {
    if n == 0 then b else PutWord(PutAddrs(b, k, addrs, n - 1), WORDS * k + 2 + n, addrs[n - 1])
  }

  /** iupdate's store: the type in the low half of the first word, the size and the addresses. */
  function PutInode(b: Block, k: nat, d: Dinode): Block
    requires k < IPB && 0 <= d.typ < 0x10000
  {
    var first := Word(b, WORDS * k) / 0x10000 * 0x10000 + d.typ;
    PutAddrs(PutWord(PutWord(b, WORDS * k, first), WORDS * k + 2, d.size), k, d.addrs, NDIRECT + 1)
  }

  lemma {:induction false} PutAddrsWords(b: Block, k: nat, addrs: Addrs, n: nat, w: nat)
    requires k < IPB && n <= NDIRECT + 1 && w < NWORDS
    ensures Word(PutAddrs(b, k, addrs, n), w) ==
            if WORDS * k + 3 <= w < WORDS * k + 3 + n then addrs[w - WORDS * k - 3] else Word(b, w)
    decreases n
  {
    hide Word, PutWord;
    if n > 0 {
      PutAddrsWords(b, k, addrs, n - 1, w);
      WordOfPut(PutAddrs(b, k, addrs, n - 1), WORDS * k + 2 + n, addrs[n - 1], w);
    }
  }

  lemma PutInodeWords(b: Block, k: nat, d: Dinode, w: nat)
    requires k < IPB && 0 <= d.typ < 0x10000 && w < NWORDS
    ensures Word(PutInode(b, k, d), w) ==
            if w == WORDS * k then Word(b, w) / 0x10000 * 0x10000 + d.typ
            else if w == WORDS * k + 2 then d.size
            else if WORDS * k + 3 <= w < WORDS * (k + 1) then d.addrs[w - WORDS * k - 3]
            else Word(b, w)
  {
    hide Word, PutWord, PutAddrs;
    var first := Word(b, WORDS * k) / 0x10000 * 0x10000 + d.typ;
    var b1 := PutWord(b, WORDS * k, first);
    PutAddrsWords(PutWord(b1, WORDS * k + 2, d.size), k, d.addrs, NDIRECT + 1, w);
    WordOfPut(b1, WORDS * k + 2, d.size, w);
    WordOfPut(b, WORDS * k, first, w);
  }

  /** Storing an inode changes that inode and no other of the block. */
  lemma InodeRoundTrip(b: Block, k: nat, d: Dinode, j: nat)
    requires k < IPB && 0 <= d.typ < 0x10000 && j < IPB
    ensures GetInode(PutInode(b, k, d), j) == if j == k then d else GetInode(b, j)
  {
    hide Word, PutInode;
    var r, was := GetInode(PutInode(b, k, d), j), GetInode(b, j);
    PutInodeWords(b, k, d, WORDS * j);
    PutInodeWords(b, k, d, WORDS * j + 2);
    forall a | 0 <= a <= NDIRECT ensures r.addrs[a] == if j == k then d.addrs[a] else was.addrs[a] {
      PutInodeWords(b, k, d, WORDS * j + 3 + a);
    }
    assert r.addrs == if j == k then d.addrs else was.addrs;
  }

  // ---- What the kernel finds on a disk ------------------------------------------------------------

  /** The file system on an image. */
  function Load(sb: Super, d: Image): (s: Fs)
    requires sb.Valid() && |d| == sb.size
    ensures |s.inodes| == sb.ninodes && s.blocks == d
  {
    Fs(d, seq(sb.ninodes, i requires 0 <= i < sb.ninodes => GetInode(d[sb.Iblock(i)], i % IPB)))
  }

  /** The image has these inodes, this free map and these data blocks. */
  ghost predicate Rep(sb: Super, d: Image, s: Fs) {
    && sb.Valid() && |d| == |s.blocks| == sb.size && |s.inodes| == sb.ninodes
    && (forall i: nat :: i < sb.ninodes ==> GetInode(d[sb.Iblock(i)], i % IPB) == s.inodes[i])
    && forall b: nat :: sb.bmapstart <= b < sb.size ==> d[b] == s.blocks[b]
  }

  lemma SameSlot(sb: Super, s: Fs, owner: Owner, d: Image, i: nat, k: nat)
    requires Owned(sb, s, owner) && Rep(sb, d, s) && i < sb.ninodes && k <= IND
    ensures At(Load(sb, d), i, k) == At(s, i, k)
  {
    hide Word, Allocated, GetInode;
    assert Load(sb, d).inodes[i] == s.inodes[i];
    assert SlotOk(sb, s, owner, i, IND) && OwnerOk(sb, s, owner, At(s, i, IND));
  }

  lemma SameByte(sb: Super, s: Fs, owner: Owner, d: Image, i: nat, p: nat)
    requires Owned(sb, s, owner) && Rep(sb, d, s) && i < sb.ninodes && p < MAXBYTES
    ensures FileByte(Load(sb, d), i, p) == FileByte(s, i, p)
  {
    hide At, Allocated, GetInode;
    SameSlot(sb, s, owner, d, i, p / BSIZE);
    assert SlotOk(sb, s, owner, i, p / BSIZE) && OwnerOk(sb, s, owner, At(s, i, p / BSIZE));
  }

  lemma LoadContents(sb: Super, s: Fs, owner: Owner, d: Image, i: nat)
    requires Owned(sb, s, owner) && Rep(sb, d, s) && i < sb.ninodes
    ensures Contents(Load(sb, d), i) == Contents(s, i)
  {
    hide FileByte, Allocated, GetInode, At;
    assert Load(sb, d).inodes[i] == s.inodes[i];
    var x, y := Contents(Load(sb, d), i), Contents(s, i);
    forall p | 0 <= p < |x| ensures x[p] == y[p] {
      SameByte(sb, s, owner, d, i, p);
    }
  }

  lemma LoadOwned(sb: Super, s: Fs, owner: Owner, d: Image)
    requires Owned(sb, s, owner) && Rep(sb, d, s)
    ensures Owned(sb, Load(sb, d), owner)
  {
    hide At, GetInode;
    var r := Load(sb, d);
    forall b: nat | b < sb.size ensures Allocated(sb, d, b) == Allocated(sb, s.blocks, b) {
      assert d[sb.Bblock(b)] == s.blocks[sb.Bblock(b)];
    }
    hide Allocated;
    forall b: nat ensures OwnerOk(sb, r, owner, b) {
      assert OwnerOk(sb, s, owner, b);
      if b in owner {
        SameSlot(sb, s, owner, d, owner[b].0, owner[b].1);
      }
    }
    forall i: nat, k: nat | i < sb.ninodes && k <= IND ensures SlotOk(sb, r, owner, i, k) {
      assert SlotOk(sb, s, owner, i, k);
      SameSlot(sb, s, owner, d, i, k);
    }
  }

  /** The image after recover_from_log(). */
  ghost function Recovered(c: Layout, d: Image): (r: Image)
    requires GoodImage(c, d)
    ensures |r| == c.nblocks
  {
    seq(c.nblocks, b requires 0 <= b < c.nblocks => if c.Home(b) then RecoveredBlock(c, d, b) else d[b])
  }

  /** The log lies in front of the inodes. */
  ghost predicate Apart(c: Layout, sb: Super) {
    c.Valid() && sb.Valid() && c.nblocks == sb.size && c.start + c.size <= sb.inodestart
  }

  /** A machine that starts with this disk finds the files of s, every block with one owner. */
  ghost predicate Finds(c: Layout, sb: Super, d: Image, s: Fs) {
    && Apart(c, sb) && GoodImage(c, d) && |s.inodes| == sb.ninodes
    && var r := Load(sb, Recovered(c, d));
    && (exists owner :: Owned(sb, r, owner))
    && forall i: nat :: i < sb.ninodes ==> Contents(r, i) == Contents(s, i)
  }

  lemma RecoversFinds(c: Layout, sb: Super, d: Image, home: Image, s: Fs, owner: Owner)
    requires Apart(c, sb) && RecoversTo(c, d, home) && Rep(sb, home, s) && Owned(sb, s, owner)
    ensures Finds(c, sb, d, s)
  {
    hide Contents, Owned, GetInode, RecoveredBlock;
    var r := Recovered(c, d);
    forall b: nat | sb.inodestart <= b < sb.size ensures r[b] == home[b] {
      assert c.Home(b);
    }
    assert Rep(sb, r, s);
    LoadOwned(sb, s, owner, r);
    forall i: nat | i < sb.ninodes ensures Contents(Load(sb, r), i) == Contents(s, i) {
      LoadContents(sb, s, owner, r, i);
    }
  }

  // ---- One transaction ----------------------------------------------------------------------------

  /** The buffers that bget can recycle. */
  ghost function Spares(buf: seq<Buf>): set<nat> {
    set j: nat | j < |buf| && Spare(buf[j])
  }

  /** No process holds a buffer of the device. */
  ghost predicate Unheld(buf: seq<Buf>, dev: nat) {
    forall j :: 0 <= j < |buf| && buf[j].locked ==> buf[j].dev != dev
  }

  /** Buffers that were taken for the device and given back; the others are as they were. */
  ghost predicate Borrowed(b0: seq<Buf>, b1: seq<Buf>, dev: nat) {
    && |b1| == |b0|
    && forall j :: 0 <= j < |b0| ==> b1[j].refcnt == b0[j].refcnt && (b1[j].dev == dev || b1[j] == b0[j])
  }

  lemma BorrowedTwice(b0: seq<Buf>, b1: seq<Buf>, b2: seq<Buf>, dev: nat)
    requires Borrowed(b0, b1, dev) && Borrowed(b1, b2, dev)
    ensures Borrowed(b0, b2, dev)
  {
  }

  lemma NoneBorrowed(buf: seq<Buf>, dev: nat)
    ensures Borrowed(buf, buf, dev)
  {
  }

  /** With nothing pinned any more, a transaction leaves as many buffers as it found. */
  lemma AllGivenBack(b0: seq<Buf>, b1: seq<Buf>, b2: seq<Buf>, dev: nat)
    requires Borrowed(b0, b1, dev) && Unheld(b1, dev) && NoWorse(b1, b2) && L.PinnedBlocks(b2, dev) == {}
    ensures NoWorse(b0, b2) && Unheld(b2, dev)
  {
    forall j | 0 <= j < |b0| && b2[j].dirty ensures b2[j].dev != dev {
      DirtyIsPinned(b2, dev, j);
    }
  }

  lemma DirtyIsPinned(buf: seq<Buf>, dev: nat, j: nat)
    requires j < |buf| && buf[j].dirty
    ensures buf[j].dev == dev ==> buf[j].blockno in L.PinnedBlocks(buf, dev)
  {
  }

  lemma NoWorseSpares(b0: seq<Buf>, b1: seq<Buf>)
    requires NoWorse(b0, b1)
    ensures |Spares(b0)| <= |Spares(b1)|
  {
    L.NoLarger(Spares(b0), Spares(b1));
  }

  lemma FewerSpares(b0: seq<Buf>, b1: seq<Buf>, i: nat)
    requires |b1| == |b0| && forall j :: 0 <= j < |b0| && j != i && Spare(b0[j]) ==> Spare(b1[j])
    ensures |Spares(b0)| <= |Spares(b1)| + 1
  {
    var rest := Spares(b0) - {i};
    assert rest <= Spares(b1);
    L.NoLarger(rest, Spares(b1));
    assert Spares(b0) <= rest + {i};
    L.NoLarger(Spares(b0), rest + {i});
  }

  lemma NoneSpare(buf: seq<Buf>)
    requires NoSpare(buf)
    ensures |Spares(buf)| == 0
  {
    assert Spares(buf) == {};
  }

  /** What a transaction does to a block: new contents, or one inode in it. */
  datatype Change = Whole(data: Block) | Inode(k: nat, d: Dinode)

  predicate Fit(ch: Change) {
    ch.Inode? ==> ch.k < IPB && 0 <= ch.d.typ < 0x10000
  }

  function Changed(was: Block, ch: Change): Block
    requires Fit(ch)
  {
    match ch
    case Whole(data) => data
    case Inode(k, d) => PutInode(was, k, d)
  }

  /** bread, the change, log_write and brelse; false is bget's panic. */
  method PutBlock(log: L.Log, b: nat, ch: Change) returns (ok: bool)
    requires Fit(ch)
    requires log.Shaped() && log.cache.touched == {} && Unheld(log.cache.buf, log.dev) && Fits(log.c, log.Blocks())
    requires log.c.Home(b) && log.outstanding >= 1 && log.n < LOGSIZE && log.n < log.c.size - 1
    modifies log.cache, log`n, log.block
    ensures log.Shaped() && log.Disk() == old(log.Disk()) && log.cache.trace == old(log.cache.trace)
    ensures log.cache.disk == old(log.cache.disk)
    ensures !ok ==> NoSpare(old(log.cache.buf))
    ensures ok ==>
              && log.cache.touched == {} && Unheld(log.cache.buf, log.dev) && Fits(log.c, log.Blocks())
              && log.Blocks() == (if b in old(log.Blocks()) then old(log.Blocks()) else old(log.Blocks()) + [b])
              && log.Views() == old(log.Views())[b := Changed(old(log.Views())[b], ch)] &&
                 log.Pinned() == old(log.Pinned()) + {b}
              && |Spares(old(log.cache.buf))| <= |Spares(log.cache.buf)| + 1
              && Borrowed(old(log.cache.buf), log.cache.buf, log.dev)
  {
    hide Latest, Ring, Unique, Clean, Ordered, L.PinnedBlocks, Fits, Changed, Borrowed, Spares;
    ghost var b0, v0 := log.cache.buf, log.Views();
    var got := log.cache.Bread(log.dev, b);
    if got.None? {
      return false;
    }
    var i := got.value;
    SameLatestViews(b0, log.cache.disk, log.cache.buf, log.dev);
    ghost var b1 := log.cache.buf;
    var data := Changed(log.cache.buf[i].data, ch);
    log.cache.Modify(i, data);
    ModifiedViews(b1, log.cache.buf, log.cache.disk, log.dev, i, b, data);
    ok := log.LogWrite(i, b);
    ghost var b2 := log.cache.buf;
    log.cache.Brelse(i);
    SameLatestViews(b2, log.cache.disk, log.cache.buf, log.dev);
    OneMorePinned(b0, log.cache.buf, log.dev, i, b);
    FewerSpares(b0, log.cache.buf, i);
    OneBorrowed(b0, log.cache.buf, log.dev, i);
  }

  lemma OneBorrowed(b0: seq<Buf>, b1: seq<Buf>, dev: nat, i: nat)
    requires i < |b0| == |b1| && b1 == b0[i := b1[i]] && b1[i].refcnt == b0[i].refcnt && b1[i].dev == dev
    ensures Borrowed(b0, b1, dev)
  {
  }

  lemma SameLatestViews(b0: seq<Buf>, disk: Disks, b1: seq<Buf>, dev: nat)
    requires dev in disk && SameLatest(b0, disk, b1, disk)
    ensures L.ViewsOf(b1, disk, dev) == L.ViewsOf(b0, disk, dev)
  {
    L.SameViews(b0, disk, b1, disk, dev);
  }

  lemma ModifiedViews(b1: seq<Buf>, b2: seq<Buf>, disk: Disks, dev: nat, i: nat, b: nat, data: Block)
    requires dev in disk && i < |b2| && b2[i].For(dev, b) && b < |disk[dev]|
    requires forall e: nat, x: nat :: InRange(disk, e, x) ==>
               Latest(b2, disk, e, x) == if b2[i].For(e, x) then data else Latest(b1, disk, e, x)
    ensures L.ViewsOf(b2, disk, dev) == L.ViewsOf(b1, disk, dev)[b := data]
  {
    hide Latest;
  }

  lemma OneMorePinned(b0: seq<Buf>, b1: seq<Buf>, dev: nat, i: nat, b: nat)
    requires i < |b0| == |b1| && b1 == b0[i := b1[i]] && b1[i].dirty && b1[i].For(dev, b) &&
             (b0[i].dirty ==> b0[i].For(dev, b))
    ensures L.PinnedBlocks(b1, dev) == L.PinnedBlocks(b0, dev) + {b}
  {
    forall x | x in L.PinnedBlocks(b0, dev) ensures x in L.PinnedBlocks(b1, dev) {
      var k :| 0 <= k < |b0| && b0[k].dirty && b0[k].dev == dev && b0[k].blockno == x;
      assert b1[k].dirty && b1[k].dev == dev && b1[k].blockno == x;
    }
    assert b1[i].dirty && b1[i].dev == dev && b1[i].blockno == b;
  }

  /** The change that the transaction makes to block b. */
  function ChangeOf(sb: Super, blocks: Image, inum: nat, d: Dinode, b: nat): Change
    requires b < |blocks|
  {
    if b == sb.Iblock(inum) then Inode(inum % IPB, d) else Whole(blocks[b])
  }

  /** The image v0 with the changes to these blocks. */
  ghost predicate Patched(sb: Super, v0: Image, v: Image, blocks: Image, inum: nat, d: Dinode, done: set<nat>)
    requires 0 <= d.typ < 0x10000
  {
    && |v| == |v0| == |blocks|
    && forall x: nat :: x < |v0| ==>
         v[x] == if x in done then Changed(v0[x], ChangeOf(sb, blocks, inum, d, x)) else v0[x]
  }

  /** The blocks that a transaction on inode inum may log. */
  ghost predicate MayLog(sb: Super, inum: nat, logged: set<nat>) {
    |logged| <= MAXOPBLOCKS && forall b :: b in logged ==> b == sb.Iblock(inum) || sb.bmapstart <= b < sb.size
  }

  lemma PatchedNone(sb: Super, v: Image, blocks: Image, inum: nat, d: Dinode)
    requires 0 <= d.typ < 0x10000 && |v| == |blocks|
    ensures Patched(sb, v, v, blocks, inum, d, {})
  {
  }

  lemma PatchedMore(sb: Super, v0: Image, v1: Image, v2: Image, blocks: Image, inum: nat, d: Dinode, done: set<nat>,
                    b: nat)
    requires 0 <= d.typ < 0x10000 && Patched(sb, v0, v1, blocks, inum, d, done) && b !in done && b < |v1|
    requires v2 == v1[b := Changed(v1[b], ChangeOf(sb, blocks, inum, d, b))]
    ensures Patched(sb, v0, v2, blocks, inum, d, done + {b})
  {
    hide Changed;
  }

  lemma NothingFits(c: Layout)
    requires c.Valid()
    ensures Fits(c, [])
  {
  }

  lemma LoggedIsHome(c: Layout, sb: Super, inum: nat, logged: set<nat>, b: nat)
    requires Apart(c, sb) && MayLog(sb, inum, logged) && inum < sb.ninodes && b in logged
    ensures c.Home(b) && b < sb.size
  {
  }

  /** Every block of the transaction to log_write. */
  method HandOver(log: L.Log, fs: FileSys, inum: nat) returns (ok: bool)
    requires log.Shaped() && log.cache.touched == {} && Unheld(log.cache.buf, log.dev)
    requires Apart(log.c, fs.sb) && log.c.size > MAXOPBLOCKS && log.n == 0 && log.outstanding >= 1 && log.Pinned() == {}
    requires |fs.blocks| == fs.sb.size && inum < fs.sb.ninodes == |fs.dinodes| && 0 <= fs.dinodes[inum].typ < 0x10000
    requires MayLog(fs.sb, inum, fs.logged)
    modifies log.cache, log`n, log.block
    ensures log.Shaped() && log.Disk() == old(log.Disk()) && log.cache.trace == old(log.cache.trace)
    ensures log.cache.disk == old(log.cache.disk)
    ensures !ok ==> |Spares(old(log.cache.buf))| < MAXOPBLOCKS
    ensures ok ==>
              && log.cache.touched == {} && Unheld(log.cache.buf, log.dev) && Fits(log.c, log.Blocks())
              && (forall b :: b in log.Blocks() <==> b in fs.logged) && log.Pinned() == fs.logged
              && Patched(fs.sb, old(log.Views()), log.Views(), fs.blocks, inum, fs.dinodes[inum], fs.logged)
              && |Spares(old(log.cache.buf))| <= |Spares(log.cache.buf)| + MAXOPBLOCKS
              && Borrowed(old(log.cache.buf), log.cache.buf, log.dev)
  {
    hide Cache.Valid, L.ViewsOf, L.PinnedBlocks, Spares, Changed, Patched, Unheld, Fits, Borrowed;
    NoneBorrowed(log.cache.buf, log.dev);
    var todo := fs.logged;
    ghost var done: set<nat> := {};
    PatchedNone(fs.sb, log.Views(), fs.blocks, inum, fs.dinodes[inum]);
    NothingFits(log.c);
    while todo != {}
      invariant done !! todo && done + todo == fs.logged && |done| + |todo| == |fs.logged|
      invariant log.Shaped() && log.Disk() == old(log.Disk()) && log.cache.trace == old(log.cache.trace)
      invariant log.cache.disk == old(log.cache.disk) && log.cache.touched == {} && Unheld(log.cache.buf, log.dev)
      invariant Fits(log.c, log.Blocks()) && log.n == |done| && log.Pinned() == done
      invariant forall b :: b in log.Blocks() <==> b in done
      invariant Patched(fs.sb, old(log.Views()), log.Views(), fs.blocks, inum, fs.dinodes[inum], done)
      invariant |Spares(old(log.cache.buf))| <= |Spares(log.cache.buf)| + |done|
      invariant Borrowed(old(log.cache.buf), log.cache.buf, log.dev)
      decreases todo
    {
      var b :| b in todo;
      ghost var buf1, v1 := log.cache.buf, log.Views();
      LoggedIsHome(log.c, fs.sb, inum, fs.logged, b);
      ok := PutBlock(log, b, ChangeOf(fs.sb, fs.blocks, inum, fs.dinodes[inum], b));
      if !ok {
        NoneSpare(buf1);
        return false;
      }
      PatchedMore(fs.sb, old(log.Views()), v1, log.Views(), fs.blocks, inum, fs.dinodes[inum], done, b);
      BorrowedTwice(old(log.cache.buf), buf1, log.cache.buf, log.dev);
      todo := todo - {b};
      done := done + {b};
    }
    return true;
  }

  /** What is on the image after the changes. */
  lemma PatchedRep(sb: Super, v0: Image, v: Image, s0: Fs, s1: Fs, inum: nat, logged: set<nat>)
    requires Rep(sb, v0, s0) && |s1.blocks| == sb.size && |s1.inodes| == sb.ninodes && inum < sb.ninodes
    requires 0 <= s1.inodes[inum].typ < 0x10000 && MayLog(sb, inum, logged)
    requires Patched(sb, v0, v, s1.blocks, inum, s1.inodes[inum], logged)
    requires Tracked(sb, s0.blocks, s1.blocks, {sb.Iblock(inum)}, logged + {sb.Iblock(inum)})
    requires s1.inodes[inum] != s0.inodes[inum] ==> sb.Iblock(inum) in logged
    requires forall j: nat :: j < sb.ninodes && j != inum ==> s1.inodes[j] == s0.inodes[j]
    ensures Rep(sb, v, s1)
  {
    hide GetInode, PutInode;
    forall i: nat | i < sb.ninodes ensures GetInode(v[sb.Iblock(i)], i % IPB) == s1.inodes[i] {
      InodeRoundTrip(v0[sb.Iblock(inum)], inum % IPB, s1.inodes[inum], i % IPB);
      assert GetInode(v0[sb.Iblock(i)], i % IPB) == s0.inodes[i];
      assert i / IPB == inum / IPB && i % IPB == inum % IPB ==> i == inum;
    }
  }

  /** The file system and the log agree, and nothing is in progress. */
  ghost predicate Joined(fs: FileSys, log: L.Log)
    reads fs, log, log.cache, log.block
  {
    && fs.Valid() && fs.dinodes == fs.inodes && log.Shaped() && Apart(log.c, fs.sb) && log.c.size > MAXOPBLOCKS
    && log.cache.touched == {} && log.n == 0 && log.outstanding == 0 && !log.committing && log.Pinned() == {}
    && Word(log.Disk()[log.c.start], 0) == 0 && Rep(fs.sb, log.Disk(), fs.State())
  }

  /** A machine that has recovered its log can go on with the file system it finds. */
  method Mount(log: L.Log, sb: Super, ghost owner: Owner) returns (fs: FileSys)
    requires log.Shaped() && Apart(log.c, sb) && log.c.size > MAXOPBLOCKS && log.cache.touched == {}
    requires log.n == 0 && log.outstanding == 0 && !log.committing && log.Pinned() == {}
    requires Word(log.Disk()[log.c.start], 0) == 0 && Owned(sb, Load(sb, log.Disk()), owner)
    ensures fresh(fs) && fs.sb == sb && Joined(fs, log) && fs.State() == Load(sb, log.Disk())
  {
    hide Owned, Word, GetInode;
    var d := log.cache.disk[log.dev];
    fs := new FileSys(sb, d, Load(sb, d).inodes, owner);
  }

  /** A state of the protocol with one operation in progress. */
  ghost function Machine(d: Image, v: Image, bs: seq<nat>): Protocol.State
    requires |v| == |d|
  {
    var cache := map b: nat | b < |v| :: v[b];
    Protocol.State(d, cache, {}, bs, 1, false, Protocol.Idle, map[0 := Protocol.Op(0, false)], 1, [], 0)
  }

  lemma MachineMirrors(c: Layout, d: Image, v: Image, bs: seq<nat>)
    requires |v| == |d|
    ensures L.Mirrors(Machine(d, v, bs), d, v, bs) && Protocol.Enabled(c, Machine(d, v, bs), Protocol.Finish(0))
  {
  }

  lemma Weaker(trace: seq<Disks>, since: nat, dev: nat, base: Disks, P: Image -> bool, Q: Image -> bool)
    requires L.AllSince(trace, since, dev, base, P) && forall d :: P(d) ==> Q(d)
    ensures L.AllSince(trace, since, dev, base, Q)
  {
  }

  lemma RepTyp(sb: Super, d: Image, s: Fs, i: nat)
    requires Rep(sb, d, s) && i < sb.ninodes
    ensures |s.inodes| == sb.ninodes && 0 <= s.inodes[i].typ < 0x10000
  {
    hide Word;
    assert GetInode(d[sb.Iblock(i)], i % IPB) == s.inodes[i];
  }

  lemma TrackedMayLog(sb: Super, b0: Image, b1: Image, inum: nat, logged: set<nat>)
    requires Tracked(sb, b0, b1, {sb.Iblock(inum)}, logged + {sb.Iblock(inum)}) && |logged| <= MAXOPBLOCKS
    ensures MayLog(sb, inum, logged)
  {
  }

  /** Nothing pinned, nothing held: the disk is what readers see. */
  lemma AllOnDisk(log: L.Log)
    requires log.Shaped() && log.cache.touched == {} && Unheld(log.cache.buf, log.dev) && log.Pinned() == {}
    ensures log.Views() == log.Disk()
  {
    hide Cache.Valid, L.ViewsOf, L.PinnedBlocks;
    log.cache.TouchedIsHeld();
    forall b: nat | b < log.c.nblocks ensures log.Views()[b] == log.Disk()[b] {
      log.UnpinnedIsOnDisk(b);
    }
  }

  lemma SameInodes(s0: Fs, s1: Fs, d0: seq<Dinode>, d1: seq<Dinode>, inum: nat)
    requires OthersSame(s0, s1, inum) && |d0| == |d1| == |s0.inodes| && inum < |d0| && d0 == s0.inodes
    requires d1[inum] == s1.inodes[inum] && forall j: nat :: j < |d0| && j != inum ==> d1[j] == d0[j]
    ensures d1 == s1.inodes
  {
    forall j: nat | j < |d0| ensures d1[j] == s1.inodes[j] {
      assert j != inum ==> SameFile(s0, s1, j);
    }
  }

  /** Readers see the image of s1 and the disk recovers to that of s0: the commit leads from one to the other. */
  method Settle(log: L.Log, ghost sb: Super, ghost s0: Fs, ghost s1: Fs, ghost o0: Owner, ghost o1: Owner)
    returns (ok: bool)
    requires log.Shaped() && log.cache.touched == {} && Unheld(log.cache.buf, log.dev) && Fits(log.c, log.Blocks())
    requires log.outstanding == 1 && !log.committing && Word(log.Disk()[log.c.start], 0) == 0
    requires forall b :: b in log.Blocks() <==> b in log.Pinned()
    requires Apart(log.c, sb) && Owned(sb, s0, o0) && Owned(sb, s1, o1)
    requires Rep(sb, log.Disk(), s0) && Rep(sb, log.Views(), s1)
    modifies log, log.cache, log.block
    ensures log.Shaped() && old(log.cache.trace) <= log.cache.trace
    ensures var c := log.c;
            L.AllSince(log.cache.trace, |old(log.cache.trace)|, log.dev, old(log.cache.disk),
                       d => Finds(c, sb, d, s0) || Finds(c, sb, d, s1))
    ensures !ok ==> NoSpare(old(log.cache.buf))
    ensures ok ==> NoWorse(old(log.cache.buf), log.cache.buf)
    ensures ok ==> log.cache.disk == old(log.cache.disk)[log.dev := log.cache.disk[log.dev]]
    ensures ok ==>
              && log.cache.touched == {} && log.n == 0 && log.outstanding == 0 && !log.committing && log.Pinned() == {}
              && Word(log.Disk()[log.c.start], 0) == 0 && Rep(sb, log.Disk(), s1) && Finds(log.c, sb, log.Disk(), s1)
  {
    hide Cache.Valid, L.ViewsOf, L.PinnedBlocks, L.AllSince, Owned, Rep, Finds, RecoversTo, Word;
    hide L.Mirrors, L.Followed, Protocol.Apply, Protocol.Enabled, Machine;
    ghost var c, d0, v1, bs, buf0 := log.c, log.Disk(), log.Views(), log.Blocks(), log.cache.buf;
    log.cache.TouchedIsHeld();
    MachineMirrors(c, d0, v1, bs);
    MachineRuns(d0, v1, bs);
    ghost var g;
    ok, g := log.EndOp(Machine(d0, v1, bs), 0);
    ghost var P: Image -> bool := d => RecoversTo(c, d, d0) || RecoversTo(c, d, v1);
    ghost var Q: Image -> bool := d => Finds(c, sb, d, s0) || Finds(c, sb, d, s1);
    forall d | P(d) ensures Q(d) {
      if RecoversTo(c, d, d0) {
        RecoversFinds(c, sb, d, d0, s0, o0);
      } else {
        RecoversFinds(c, sb, d, v1, s1, o1);
      }
    }
    Weaker(log.cache.trace, |old(log.cache.trace)|, log.dev, old(log.cache.disk), P, Q);
    if ok {
      SameHome(c, sb, log.Disk(), v1, s1);
      EmptyFinds(c, sb, log.Disk(), s1, o1);
    } else {
      PinnedScarce(buf0, log.dev, bs);
    }
  }

  lemma MachineRuns(d: Image, v: Image, bs: seq<nat>)
    requires |v| == |d|
    ensures Machine(d, v, bs).outstanding == 1
  {
  }

  lemma PinnedScarce(buf: seq<Buf>, dev: nat, bs: seq<nat>)
    requires L.Scarce(buf, dev, bs) && forall b :: b in bs ==> b in L.PinnedBlocks(buf, dev)
    ensures NoSpare(buf)
  {
  }

  lemma SameHome(c: Layout, sb: Super, d: Image, v: Image, s: Fs)
    requires Apart(c, sb) && Rep(sb, v, s) && |d| == c.nblocks && forall b: nat :: c.Home(b) ==> d[b] == v[b]
    ensures Rep(sb, d, s)
  {
    hide GetInode;
    forall b: nat | sb.inodestart <= b < sb.size ensures d[b] == v[b] {
      assert c.Home(b);
    }
  }

  /** With an empty log the disk is what it recovers to. */
  lemma EmptyFinds(c: Layout, sb: Super, d: Image, s: Fs, owner: Owner)
    requires Apart(c, sb) && |d| == c.nblocks && Word(d[c.start], 0) == 0 && Rep(sb, d, s) && Owned(sb, s, owner)
    ensures Finds(c, sb, d, s)
  {
    hide Owned, Rep;
    L.EmptyIsGood(c, d);
    RecoversFinds(c, sb, d, d, s, owner);
  }

  /**
   One transaction of filewrite.  A machine that crashes after any of its block writes finds, when it
   starts again, every file as it was before or every file as it is after: the bytes are there whole
   or not at all, and each block has one owner.  When it returns they are there for good.  It lacks
   buffers only if no more than MAXOPBLOCKS could be recycled when it began.
   */
  method WriteTransaction(fs: FileSys, f: OpenFile, part: seq<Byte>, log: L.Log) returns (w: IoResult, ok: bool)
    requires Joined(fs, log) && Unheld(log.cache.buf, log.dev)
    requires f.inum < fs.sb.ninodes && HoleFree(fs.State(), f.inum) && |part| <= CHUNK
    modifies fs, f`off, log, log.cache, log.block
    ensures w.Device? <==> old(fs.inodes)[f.inum].typ == T_DEV
    ensures w.Error? <==> old(fs.inodes)[f.inum].typ != T_DEV &&
                          (old(f.off) > old(fs.inodes)[f.inum].size || old(f.off) + |part| > MAXBYTES)
    ensures w.Error? || w.Device? ==> fs.State() == old(fs.State())
    ensures f.off == old(f.off) + if w.Count? then |part| else 0
    ensures w.Panic? ==>
              && |fs.blocks| == fs.sb.size && Full(fs.sb, fs.blocks) && log.cache.trace == old(log.cache.trace)
              && old(f.off) + |part| > old(fs.inodes)[f.inum].size
    ensures w.Count? ==>
              && w.n == |part| && f.inum < |fs.inodes| && HoleFree(fs.State(), f.inum)
              && fs.inodes[f.inum].typ == old(fs.inodes)[f.inum].typ && f.off <= fs.inodes[f.inum].size
              && old(fs.inodes)[f.inum].size <= fs.inodes[f.inum].size
              && Contents(fs.State(), f.inum) == Spliced(Contents(old(fs.State()), f.inum), old(f.off), part)
              && OthersSame(old(fs.State()), fs.State(), f.inum)
    ensures !w.Panic? && !ok ==> |Spares(old(log.cache.buf))| <= MAXOPBLOCKS
    ensures ok ==> !w.Panic? && Joined(fs, log) && Finds(log.c, fs.sb, log.Disk(), fs.State())
    ensures ok ==> NoWorse(old(log.cache.buf), log.cache.buf) && Unheld(log.cache.buf, log.dev)
    ensures ok ==> log.cache.disk == old(log.cache.disk)[log.dev := log.cache.disk[log.dev]]
    ensures old(log.cache.trace) <= log.cache.trace
    ensures !w.Panic? ==>
              var c, sb, s0, s1 := log.c, fs.sb, old(fs.State()), fs.State();
              L.AllSince(log.cache.trace, |old(log.cache.trace)|, log.dev, old(log.cache.disk),
                         d => Finds(c, sb, d, s0) || Finds(c, sb, d, s1))
  {
    hide Cache.Valid, L.ViewsOf, L.PinnedBlocks, L.AllSince, Spares, Contents, Spliced, Full, HoleFree, Finds;
    hide Owned, Rep, OthersSame, Tracked, Patched, Word, MayLog;
    ghost var s0, o0, d0, v0, sb, c := fs.State(), fs.owner, fs.dinodes, log.Views(), fs.sb, log.c;
    AllOnDisk(log);
    OwnedShape(sb, s0, o0);
    RepTyp(sb, v0, s0, f.inum);
    ok := log.TryBeginOp();
    w := WriteChunk(fs, f, part);
    if w.Panic? {
      return w, false;
    }
    ghost var s1 := fs.State();
    OwnedShape(sb, s1, fs.owner);
    if w.Count? {
      TrackedMayLog(sb, s0.blocks, s1.blocks, f.inum, fs.logged);
      SameInodes(s0, s1, d0, fs.dinodes, f.inum);
    } else {
      NothingLogged(sb, s0.blocks, f.inum);
    }
    ghost var buf0 := log.cache.buf;
    ok := HandOver(log, fs, f.inum);
    if !ok {
      L.NoneSince(log.cache.trace, log.dev, log.cache.disk, d => Finds(c, sb, d, s0) || Finds(c, sb, d, s1));
      return w, false;
    }
    PatchedRep(sb, v0, log.Views(), s0, s1, f.inum, fs.logged);
    ghost var buf1 := log.cache.buf;
    ok := Settle(log, sb, s0, s1, o0, fs.owner);
    if ok {
      AllGivenBack(buf0, buf1, log.cache.buf, log.dev);
    } else {
      NoneSpare(buf1);
    }
  }

  // ---- The whole of filewrite ---------------------------------------------------------------------

  /** What is in the file when part has been written at offset off over c. */
  function Overwritten(c: seq<Byte>, off: nat, part: seq<Byte>): seq<Byte> {
    if part == [] || off > |c| then c else Spliced(c, off, part)
  }

  /** s is s0 with the first m bytes of addr, some whole chunks or all, in file i at offset off. */
  ghost predicate HasPart(s0: Fs, s: Fs, i: nat, off: nat, addr: seq<Byte>, m: nat) {
    && i < |s0.inodes| && OthersSame(s0, s, i) && m <= |addr| && (m % CHUNK == 0 || m == |addr|)
    && Contents(s, i) == Overwritten(Contents(s0, i), off, addr[..m])
  }

  /** A machine that starts with this disk finds that, for some m. */
  ghost predicate FindsPart(c: Layout, sb: Super, d: Image, s0: Fs, i: nat, off: nat, addr: seq<Byte>) {
    exists s, m :: HasPart(s0, s, i, off, addr, m) && Finds(c, sb, d, s)
  }

  /** Every disk state since then gives back some whole chunks of addr. */
  ghost predicate PartsSince(log: L.Log, sb: Super, since: nat, base: Disks, s0: Fs, i: nat, off: nat, addr: seq<Byte>)
    reads log, log.cache
  {
    && since <= |log.cache.trace| && log.dev in log.cache.disk
    && log.cache.disk == base[log.dev := log.cache.disk[log.dev]]
    && var c := log.c;
       L.AllSince(log.cache.trace, since, log.dev, base, d => FindsPart(c, sb, d, s0, i, off, addr))
  }

  /** The next chunk, as a transaction. */
  method WriteNext(fs: FileSys, f: OpenFile, part: seq<Byte>, log: L.Log, ghost s0: Fs, ghost off: nat,
                   ghost addr: seq<Byte>, ghost i: nat, ghost since: nat, ghost base: Disks)
    returns (w: IoResult, ok: bool)
    requires Joined(fs, log) && Unheld(log.cache.buf, log.dev)
    requires f.inum < fs.sb.ninodes && HoleFree(fs.State(), f.inum) && 0 < |part| <= CHUNK && f.off == off + i
    requires HasPart(s0, fs.State(), f.inum, off, addr, i) && i % CHUNK == 0 && i + |part| <= |addr|
    requires part == addr[i..i + |part|] && (|part| == CHUNK || i + |part| == |addr|)
    requires i > 0 ==> f.inum < |s0.inodes| && off <= |Contents(s0, f.inum)|
    requires PartsSince(log, fs.sb, since, base, s0, f.inum, off, addr)
    modifies fs, f`off, log, log.cache, log.block
    ensures w.Device? <==> old(fs.inodes)[f.inum].typ == T_DEV
    ensures w.Error? <==> old(fs.inodes)[f.inum].typ != T_DEV &&
                          (old(f.off) > old(fs.inodes)[f.inum].size || old(f.off) + |part| > MAXBYTES)
    ensures w.Error? || w.Device? ==> fs.State() == old(fs.State())
    ensures f.off == old(f.off) + if w.Count? then |part| else 0
    ensures w.Panic? ==>
              && |fs.blocks| == fs.sb.size && Full(fs.sb, fs.blocks)
              && old(f.off) + |part| > old(fs.inodes)[f.inum].size
    ensures w.Count? ==>
              && w.n == |part| && f.inum < |fs.inodes| && HoleFree(fs.State(), f.inum)
              && HasPart(s0, fs.State(), f.inum, off, addr, i + |part|)
              && fs.inodes[f.inum].typ == old(fs.inodes)[f.inum].typ && f.off <= fs.inodes[f.inum].size
              && old(fs.inodes)[f.inum].size <= fs.inodes[f.inum].size
    ensures !w.Panic? && !ok ==> |Spares(old(log.cache.buf))| <= MAXOPBLOCKS
    ensures ok ==>
              && !w.Panic? && Joined(fs, log) && Finds(log.c, fs.sb, log.Disk(), fs.State())
              && NoWorse(old(log.cache.buf), log.cache.buf) && Unheld(log.cache.buf, log.dev)
              && PartsSince(log, fs.sb, since, base, s0, f.inum, off, addr)
    ensures old(log.cache.trace) <= log.cache.trace
    ensures since <= |log.cache.trace| &&
            var c, sb, inum := log.c, fs.sb, f.inum;
            L.AllSince(log.cache.trace, since, log.dev, base, d => FindsPart(c, sb, d, s0, inum, off, addr))
  {
    hide Cache.Valid, L.ViewsOf, L.PinnedBlocks, L.AllSince, Spares, Contents, Spliced, Full, HoleFree, Finds;
    hide Rep, OthersSame, Word, HasPart, FindsPart, Unheld, NoWorse;
    ghost var c, sb, inum := log.c, fs.sb, f.inum;
    ghost var s1, t1, base1 := fs.State(), log.cache.trace, log.cache.disk;
    SizeOk(s1, inum);
    LengthIsSize(s1, inum);
    w, ok := WriteTransaction(fs, f, part, log);
    if w.Panic? {
      return;
    }
    ghost var s2 := fs.State();
    NextPart(s0, s1, s2, inum, off, addr, i, |part|, w);
    ghost var P: Image -> bool := d => Finds(c, sb, d, s1) || Finds(c, sb, d, s2);
    ghost var Q: Image -> bool := d => FindsPart(c, sb, d, s0, inum, off, addr);
    forall d | P(d) ensures Q(d) {
      if Finds(c, sb, d, s1) {
        IsPart(c, sb, d, s0, s1, inum, off, addr, i);
      } else {
        IsPart(c, sb, d, s0, s2, inum, off, addr, if w.Count? then i + |part| else i);
      }
    }
    L.JoinSince(t1, log.cache.trace, since, log.dev, base, base1, P, Q);
  }

  /**
   filewrite through the log.  A machine that crashes after any of its block writes finds, when it
   starts again, the file with the first chunks of addr in it, all of each or nothing, and every
   other file as it was.  When it returns, what it reports is on the disk.  It panics only on a full
   disk, or if no more than MAXOPBLOCKS buffers could be recycled when it began.
   */
  method WriteFile(fs: FileSys, f: OpenFile, addr: seq<Byte>, log: L.Log) returns (r: Outcome, ghost done: nat)
    requires Joined(fs, log) && Unheld(log.cache.buf, log.dev)
    requires f.inum < fs.sb.ninodes && HoleFree(fs.State(), f.inum) && |addr| < INT_LIMIT
    modifies fs, f`off, log, log.cache, log.block
    ensures !f.writable ==> r == Returned(-1) && fs.State() == old(fs.State()) && f.off == old(f.off)
    ensures r.Returned? && f.writable ==>
              && done == Fitting(old(f.off), old(fs.inodes)[f.inum].size, |addr|) && f.off == old(f.off) + done
              && r.v == if done == |addr| then |addr| else -1
    ensures r.Returned? && f.writable ==> HasPart(old(fs.State()), fs.State(), f.inum, old(f.off), addr, done)
    ensures r.Driver? ==> f.writable && |addr| > 0 && fs.State() == old(fs.State())
    ensures !r.Halted? ==>
              && Joined(fs, log) && Finds(log.c, fs.sb, log.Disk(), fs.State())
              && (r.Driver? <==> f.writable && |addr| > 0 && old(fs.inodes)[f.inum].typ == T_DEV)
    ensures r.Halted? ==>
              || (|fs.blocks| == fs.sb.size && Full(fs.sb, fs.blocks) &&
                  old(f.off) + |addr| > old(fs.inodes)[f.inum].size)
              || |Spares(old(log.cache.buf))| <= MAXOPBLOCKS
    ensures old(log.cache.trace) <= log.cache.trace
    ensures var c, sb, s0, i, off := log.c, fs.sb, old(fs.State()), f.inum, old(f.off);
            L.AllSince(log.cache.trace, |old(log.cache.trace)|, log.dev, old(log.cache.disk),
                       d => FindsPart(c, sb, d, s0, i, off, addr))
  {
    hide Cache.Valid, L.ViewsOf, L.PinnedBlocks, L.AllSince, Spares, Contents, Spliced, Full, HoleFree, Finds;
    hide Rep, OthersSame, Word, HasPart, FindsPart, Fitting, Unheld, NoWorse, Upto, ChunksIn, Joined;
    JoinedShape(fs, log);
    ghost var c, sb, s0, off, inum, base := log.c, fs.sb, fs.State(), f.off, f.inum, log.cache.disk;
    ghost var since := |log.cache.trace|;
    L.NoneSince(log.cache.trace, log.dev, base, d => FindsPart(c, sb, d, s0, inum, off, addr));
    L.NotWorse(log.cache.buf);
    NothingYet(s0, inum, off, addr);
    JoinedFinds(fs, log);
    done := 0;
    if !f.writable {
      return Returned(-1), done;
    }
    var n := |addr|;
    var i := 0;
    ghost var k: nat := 0;
    ghost var size := fs.inodes[inum].size;
    SizeOk(s0, inum);
    LengthIsSize(s0, inum);
    NoChunk(n);
    while i < n
      invariant 0 <= i <= n && f.off == off + i && i == Upto(k, n)
      invariant Joined(fs, log) && log.Shaped() && |fs.inodes| == sb.ninodes
      invariant Unheld(log.cache.buf, log.dev) && HoleFree(fs.State(), inum)
      invariant Finds(c, sb, log.Disk(), fs.State()) && HasPart(s0, fs.State(), inum, off, addr, i)
      invariant fs.inodes[inum].typ == s0.inodes[inum].typ && (i == 0 ==> fs.State() == s0)
      invariant size <= fs.inodes[inum].size
      invariant i > 0 ==> off <= size && f.off <= fs.inodes[inum].size && fs.inodes[inum].typ != T_DEV
      invariant NoWorse(old(log.cache.buf), log.cache.buf) && old(log.cache.trace) <= log.cache.trace
      invariant PartsSince(log, sb, since, base, s0, inum, off, addr)
    {
      var n1 := if n - i > CHUNK then CHUNK else n - i;
      NextChunk(k, i, n, n1);
      SizeOk(fs.State(), inum);
      ghost var buf1 := log.cache.buf;
      var part := addr[i..i + n1];
      assert |part| == n1;
      NoWorseSpares(old(log.cache.buf), buf1);
      var w, ok := WriteNext(fs, f, part, log, s0, off, addr, i, since, base);
      if w.Panic? || !ok {
        return Halted, done;
      }
      JoinedShape(fs, log);
      if w.Device? {
        return Driver, done;
      }
      if w.Error? {
        done := i;
        if off <= size {
          ChunkEnds(off, size, n, k, n1);
        } else {
          NoneFits(off, size, n);
        }
        return Returned(-1), done;
      }
      L.NoWorseTwice(old(log.cache.buf), buf1, log.cache.buf);
      i := i + w.n;
      k := k + 1;
    }
    SizeOk(fs.State(), inum);
    AllFits(off, size, n);
    return Returned(n), n;
  }

  lemma NothingYet(s: Fs, i: nat, off: nat, addr: seq<Byte>)
    requires i < |s.inodes|
    ensures HasPart(s, s, i, off, addr, 0)
  {
    hide Contents;
    NoneChanged(s, i);
  }

  lemma JoinedShape(fs: FileSys, log: L.Log)
    requires Joined(fs, log)
    ensures log.Shaped() && |fs.inodes| == fs.sb.ninodes
  {
  }

  lemma JoinedFinds(fs: FileSys, log: L.Log)
    requires Joined(fs, log)
    ensures Finds(log.c, fs.sb, log.Disk(), fs.State())
  {
    hide Owned, Rep;
    EmptyFinds(log.c, fs.sb, log.Disk(), fs.State(), fs.owner);
  }

  lemma IsPart(c: Layout, sb: Super, d: Image, s0: Fs, s: Fs, i: nat, off: nat, addr: seq<Byte>, m: nat)
    requires HasPart(s0, s, i, off, addr, m) && Finds(c, sb, d, s)
    ensures FindsPart(c, sb, d, s0, i, off, addr)
  {
  }

  /** One chunk more, or none. */
  lemma NextPart(s0: Fs, s1: Fs, s2: Fs, i: nat, off: nat, addr: seq<Byte>, m: nat, n1: nat, w: IoResult)
    requires HasPart(s0, s1, i, off, addr, m) && i < |s2.inodes| && m % CHUNK == 0
    requires 0 < n1 && m + n1 <= |addr| && (n1 == CHUNK || m + n1 == |addr|)
    requires w.Error? || w.Device? ==> s2 == s1
    requires w.Count? ==>
               && off + m <= |Contents(s1, i)| && (m > 0 ==> off <= |Contents(s0, i)|) && OthersSame(s1, s2, i)
               && Contents(s2, i) == Spliced(Contents(s1, i), off + m, addr[m..m + n1])
    ensures w.Error? || w.Device? ==> HasPart(s0, s2, i, off, addr, m)
    ensures w.Count? ==> HasPart(s0, s2, i, off, addr, m + n1)
  {
    hide Contents, OthersSame, Spliced, Overwritten;
    if w.Count? {
      OthersTwice(s0, s1, s2, i);
      WholeChunk(m);
      MoreOverwritten(Contents(s0, i), off, addr, m, n1);
    }
  }

  lemma WholeChunk(m: nat)
    requires m % CHUNK == 0
    ensures (m + CHUNK) % CHUNK == 0
  {
    assert CHUNK == 1536;
  }

  lemma MoreOverwritten(c: seq<Byte>, off: nat, addr: seq<Byte>, m: nat, n1: nat)
    requires 0 < n1 && m + n1 <= |addr| && off + m <= |Overwritten(c, off, addr[..m])| && (m > 0 ==> off <= |c|)
    ensures Spliced(Overwritten(c, off, addr[..m]), off + m, addr[m..m + n1]) == Overwritten(c, off, addr[..m + n1])
  {
    hide Spliced;
    assert m == 0 ==> addr[..m] == [];
    SplicedNothing(c, off);
    SplicedTwice(c, off, addr[..m], addr[m..m + n1]);
    assert addr[..m] + addr[m..m + n1] == addr[..m + n1];
  }

  lemma NothingLogged(sb: Super, b: Image, inum: nat)
    ensures MayLog(sb, inum, {}) && Tracked(sb, b, b, {sb.Iblock(inum)}, {} + {sb.Iblock(inum)})
  {
  }
}
