/**
 The buffer cache of bio.c: a ring of buffers in most-recently-used order over a synchronous disk.

 Every method is one section of bio.c that runs under bcache.lock or under the buffer's own sleep
 lock, so any interleaving of processes is some sequence of calls.
 */
module BufferCache {
  import opened Common
  import opened Blocks

  const NBUF := 30     // MAXOPBLOCKS * 3
  const HEAD := NBUF   // the list head's index among the link fields

  datatype Buf = Buf(
    dev: nat, blockno: nat,
    valid: bool,      // B_VALID
    dirty: bool,      // B_DIRTY
    refcnt: nat,
    locked: bool,     // the buffer's sleep lock
    data: Block)
  {
    predicate For(d: nat, b: nat) {
      dev == d && blockno == b
    }

    /** Somebody uses the buffer, or it holds a block. */
    predicate Live() {
      refcnt > 0 || valid
    }
  }

  // ---------- The ring ----------

  /** The k-th stop of a walk along `next` from the head: the head, the buffers, the head again. */
  function Stop(ring: seq<nat>, k: int): nat {
    if 1 <= k <= |ring| then ring[k - 1] else HEAD
  }

  ghost predicate Linked(prev: seq<nat>, next: seq<nat>, ring: seq<nat>) {
    && |prev| == |next| == NBUF + 1
    && (forall k :: 0 <= k < |ring| ==> ring[k] < NBUF)
    && (forall j, k :: 0 <= j < k < |ring| ==> ring[j] != ring[k])
    && (forall k :: 0 <= k <= |ring| ==> next[Stop(ring, k)] == Stop(ring, k + 1))
    && (forall k :: 1 <= k <= |ring| + 1 ==> prev[Stop(ring, k)] == Stop(ring, k - 1))
  }

  /** Every buffer is on the ring, once. */
  ghost predicate Ring(prev: seq<nat>, next: seq<nat>, ring: seq<nat>) {
    && Linked(prev, next, ring)
    && |ring| == NBUF
    && forall i: nat :: i < NBUF ==> i in ring
  }

  /** bio.c:50-54 and 134-137: link buffer b in right behind the head. */
  lemma PushedFront(prev: seq<nat>, next: seq<nat>, ring: seq<nat>, b: nat)
    requires Linked(prev, next, ring) && b < NBUF && b !in ring
    ensures next[HEAD] <= NBUF
    ensures Linked(prev[b := HEAD][next[HEAD] := b], next[b := next[HEAD]][HEAD := b], [b] + ring)
  {
    var first := next[HEAD];
    assert next[Stop(ring, 0)] == Stop(ring, 1) == first;
    var n, p, r := next[b := first][HEAD := b], prev[b := HEAD][first := b], [b] + ring;
    forall k | 0 <= k <= |r|
      ensures n[Stop(r, k)] == Stop(r, k + 1)
    {
      if k >= 2 {
        assert Stop(r, k) == Stop(ring, k - 1) && Stop(r, k + 1) == Stop(ring, k);
        assert next[Stop(ring, k - 1)] == Stop(ring, k);
      }
    }
    forall k | 1 <= k <= |r| + 1
      ensures p[Stop(r, k)] == Stop(r, k - 1)
    {
      if k >= 3 {
        assert Stop(r, k) == Stop(ring, k - 1) && Stop(r, k - 1) == Stop(ring, k - 2);
        assert prev[Stop(ring, k - 1)] == Stop(ring, k - 2);
      }
    }
  }

  function Without(ring: seq<nat>, at: nat): seq<nat>
    requires at < |ring|
  {
    ring[..at] + ring[at + 1..]
  }

  lemma StopsWithout(ring: seq<nat>, at: nat, k: int)
    requires at < |ring| && 0 <= k <= |ring|
    ensures Stop(Without(ring, at), k) == Stop(ring, if k <= at then k else k + 1)
  {
  }

  lemma UnlinkedNext(prev: seq<nat>, next: seq<nat>, ring: seq<nat>, at: nat, k: nat)
    requires Linked(prev, next, ring) && at < |ring| && k < |ring|
    ensures var b := ring[at];
            next[b] <= NBUF && prev[b] <= NBUF && Stop(Without(ring, at), k) <= NBUF &&
            next[prev[b] := next[b]][Stop(Without(ring, at), k)] == Stop(Without(ring, at), k + 1)
  {
    assert Stop(ring, at + 1) == ring[at];
    assert next[Stop(ring, at + 1)] == Stop(ring, at + 2) && prev[Stop(ring, at + 1)] == Stop(ring, at);
    StopsWithout(ring, at, k);
    StopsWithout(ring, at, k + 1);
    var k' := if k <= at then k else k + 1;
    assert next[Stop(ring, k')] == Stop(ring, k' + 1);
    assert k' != at ==> Stop(ring, k') != Stop(ring, at);
  }

  lemma UnlinkedPrev(prev: seq<nat>, next: seq<nat>, ring: seq<nat>, at: nat, k: nat)
    requires Linked(prev, next, ring) && at < |ring| && 1 <= k <= |ring|
    ensures var b := ring[at];
            next[b] <= NBUF && prev[b] <= NBUF && Stop(Without(ring, at), k) <= NBUF &&
            prev[next[b] := prev[b]][Stop(Without(ring, at), k)] == Stop(Without(ring, at), k - 1)
  {
    assert Stop(ring, at + 1) == ring[at];
    assert next[Stop(ring, at + 1)] == Stop(ring, at + 2) && prev[Stop(ring, at + 1)] == Stop(ring, at);
    StopsWithout(ring, at, k);
    StopsWithout(ring, at, k - 1);
    var k' := if k <= at then k else k + 1;
    assert prev[Stop(ring, k')] == Stop(ring, k' - 1);
    assert k' != at + 2 ==> Stop(ring, k') != Stop(ring, at + 2);
  }

  /** bio.c:132-133: take buffer ring[at] out. */
  lemma Unlinked(prev: seq<nat>, next: seq<nat>, ring: seq<nat>, at: nat)
    requires Linked(prev, next, ring) && at < |ring|
    ensures var b := ring[at];
            next[b] <= NBUF && prev[b] <= NBUF &&
            Linked(prev[next[b] := prev[b]], next[prev[b] := next[b]], Without(ring, at))
    ensures ring[at] !in Without(ring, at)
  {
    hide Stop;
    var r := Without(ring, at);
    UnlinkedNext(prev, next, ring, at, 0);
    forall k: nat | k < |ring|
      ensures Stop(r, k) <= NBUF && next[prev[ring[at]] := next[ring[at]]][Stop(r, k)] == Stop(r, k + 1)
    {
      UnlinkedNext(prev, next, ring, at, k);
    }
    forall k: nat | 1 <= k <= |ring|
      ensures Stop(r, k) <= NBUF && prev[next[ring[at]] := prev[ring[at]]][Stop(r, k)] == Stop(r, k - 1)
    {
      UnlinkedPrev(prev, next, ring, at, k);
    }
  }

  // ---------- Identity and contents ----------

  type Disks = map<nat, Image>

  ghost predicate InRange(disk: Disks, dev: nat, blockno: nat) {
    dev in disk && blockno < |disk[dev]|
  }

  ghost predicate Indexed(buf: seq<Buf>, ring: seq<nat>) {
    && |buf| == |ring| == NBUF
    && (forall k :: 0 <= k < NBUF ==> ring[k] < NBUF)
    && (forall j, k :: 0 <= j < k < NBUF ==> ring[j] != ring[k])
    && forall i: nat :: i < NBUF ==> i in ring
  }

  /** In ring order, no buffer stands before a live buffer that has the same identity. */
  ghost predicate Unique(buf: seq<Buf>, ring: seq<nat>) {
    && Indexed(buf, ring)
    && forall a, b :: 0 <= a < b < NBUF && buf[ring[b]].Live() ==>
         !buf[ring[a]].For(buf[ring[b]].dev, buf[ring[b]].blockno)
  }

  /** A buffer whose holder has not changed it since it was last written, logged or read is clean. */
  ghost predicate BufOk(b: Buf, disk: Disks, touched: bool) {
    && (b.dirty ==> b.valid)
    && (touched ==> b.locked && b.valid)
    && (b.locked ==> b.refcnt > 0)
    && (b.valid ==> InRange(disk, b.dev, b.blockno))
    && (b.valid && !b.dirty && !touched ==> b.data == disk[b.dev][b.blockno])
  }

  ghost predicate Clean(buf: seq<Buf>, disk: Disks, touched: set<nat>) {
    forall i: nat :: i < |buf| ==> BufOk(buf[i], disk, i in touched)
  }

  ghost predicate Caches(buf: seq<Buf>, i: nat, dev: nat, blockno: nat) {
    i < |buf| && buf[i].valid && buf[i].For(dev, blockno)
  }

  /** The latest contents of a block: its buffer's if there is one, otherwise the disk's. */
  ghost function Latest(buf: seq<Buf>, disk: Disks, dev: nat, blockno: nat): Block
    requires InRange(disk, dev, blockno)
  {
    if exists i: nat :: Caches(buf, i, dev, blockno)
    then var i: nat :| Caches(buf, i, dev, blockno); buf[i].data
    else disk[dev][blockno]
  }

  /** No two buffers that are referenced or valid carry the same device and block number. */
  lemma OneBufferPerBlock(buf: seq<Buf>, ring: seq<nat>, i: nat, j: nat)
    requires Unique(buf, ring) && i < NBUF && j < NBUF && buf[i].Live() && buf[j].Live()
    requires buf[i].For(buf[j].dev, buf[j].blockno)
    ensures i == j
  {
    assert i in ring && j in ring;
    var a :| 0 <= a < NBUF && ring[a] == i;
    var b :| 0 <= b < NBUF && ring[b] == j;
  }

  lemma LatestIs(buf: seq<Buf>, ring: seq<nat>, disk: Disks, i: nat)
    requires Unique(buf, ring) && i < NBUF && buf[i].valid && InRange(disk, buf[i].dev, buf[i].blockno)
    ensures Latest(buf, disk, buf[i].dev, buf[i].blockno) == buf[i].data
  {
    assert Caches(buf, i, buf[i].dev, buf[i].blockno);
    forall j: nat | Caches(buf, j, buf[i].dev, buf[i].blockno)
      ensures j == i
    {
      OneBufferPerBlock(buf, ring, i, j);
    }
  }

  /** Everything a reader can tell is the same in the two states. */
  ghost predicate SameLatest(buf: seq<Buf>, disk: Disks, buf': seq<Buf>, disk': Disks) {
    forall dev: nat, b: nat :: InRange(disk, dev, b) ==>
      InRange(disk', dev, b) && Latest(buf', disk', dev, b) == Latest(buf, disk, dev, b)
  }

  /** Changing only reference counts, locks or the order shows nowhere. */
  lemma SameData(buf: seq<Buf>, disk: Disks, buf': seq<Buf>, ring': seq<nat>)
    requires Unique(buf', ring') && |buf| == NBUF
    requires forall i :: 0 <= i < NBUF ==>
      buf'[i].valid == buf[i].valid && buf'[i].data == buf[i].data && buf'[i].For(buf[i].dev, buf[i].blockno)
    ensures SameLatest(buf, disk, buf', disk)
  {
    forall dev: nat, b: nat | InRange(disk, dev, b)
      ensures Latest(buf', disk, dev, b) == Latest(buf, disk, dev, b)
    {
      if i: nat :| Caches(buf, i, dev, b) && Latest(buf, disk, dev, b) == buf[i].data {
        LatestIs(buf', ring', disk, i);
      } else {
        assert forall i: nat :: Caches(buf', i, dev, b) ==> Caches(buf, i, dev, b);
      }
    }
  }

  /** bget, first loop: taking a reference to the first buffer that has the identity. */
  lemma HitKeeps(buf: seq<Buf>, ring: seq<nat>, disk: Disks, touched: set<nat>, at: nat)
    requires Unique(buf, ring) && Clean(buf, disk, touched) && at < NBUF
    requires var b := buf[ring[at]]; forall a :: 0 <= a < at ==> !buf[ring[a]].For(b.dev, b.blockno)
    ensures var buf' := buf[ring[at] := buf[ring[at]].(refcnt := buf[ring[at]].refcnt + 1)];
            Unique(buf', ring) && Clean(buf', disk, touched) && SameLatest(buf, disk, buf', disk)
  {
    var buf' := buf[ring[at] := buf[ring[at]].(refcnt := buf[ring[at]].refcnt + 1)];
    assert Unique(buf', ring);
    SameData(buf, disk, buf', ring);
  }

  /** bget, second loop: giving a clean unused buffer a new identity. */
  lemma RecycleKeeps(buf: seq<Buf>, ring: seq<nat>, disk: Disks, touched: set<nat>, i: nat, anew: Buf)
    requires Unique(buf, ring) && Clean(buf, disk, touched) && i < NBUF
    requires buf[i].refcnt == 0 && !buf[i].dirty
    requires forall j :: 0 <= j < NBUF ==> !buf[j].For(anew.dev, anew.blockno)
    requires !anew.valid && !anew.dirty && anew.refcnt == 1 && !anew.locked
    ensures Unique(buf[i := anew], ring) && Clean(buf[i := anew], disk, touched)
    ensures SameLatest(buf, disk, buf[i := anew], disk)
  {
    var buf' := buf[i := anew];
    forall dev: nat, b: nat | InRange(disk, dev, b)
      ensures Latest(buf', disk, dev, b) == Latest(buf, disk, dev, b)
    {
      if k: nat :| Caches(buf, k, dev, b) {
        LatestIs(buf, ring, disk, k);
        if k != i {
          LatestIs(buf', ring, disk, k);
        } else {
          forall j: nat | Caches(buf', j, dev, b)
            ensures false
          {
            assert Caches(buf, j, dev, b);
            OneBufferPerBlock(buf, ring, i, j);
          }
        }
      } else {
        assert forall j: nat :: Caches(buf', j, dev, b) ==> Caches(buf, j, dev, b);
      }
    }
  }

  /** The disk read of bread. */
  lemma FillKeeps(buf: seq<Buf>, ring: seq<nat>, disk: Disks, touched: set<nat>, i: nat)
    requires Unique(buf, ring) && Clean(buf, disk, touched) && i < NBUF
    requires !buf[i].valid && buf[i].refcnt > 0 && InRange(disk, buf[i].dev, buf[i].blockno)
    ensures var buf' := buf[i := buf[i].(valid := true, data := disk[buf[i].dev][buf[i].blockno])];
            Unique(buf', ring) && Clean(buf', disk, touched) && SameLatest(buf, disk, buf', disk)
  {
    var buf' := buf[i := buf[i].(valid := true, data := disk[buf[i].dev][buf[i].blockno])];
    forall dev: nat, b: nat | InRange(disk, dev, b)
      ensures Latest(buf', disk, dev, b) == Latest(buf, disk, dev, b)
    {
      if buf[i].For(dev, b) {
        LatestIs(buf', ring, disk, i);
        forall j: nat | Caches(buf, j, dev, b)
          ensures false
        {
          OneBufferPerBlock(buf, ring, i, j);
        }
      } else if k: nat :| Caches(buf, k, dev, b) {
        LatestIs(buf, ring, disk, k);
        LatestIs(buf', ring, disk, k);
      } else {
        assert forall j: nat :: Caches(buf', j, dev, b) ==> Caches(buf, j, dev, b);
      }
    }
  }

  /** A write by the holder is what every later reader of that block sees, and nobody else notices. */
  lemma ModifyShows(buf: seq<Buf>, ring: seq<nat>, disk: Disks, i: nat, data: Block)
    requires Unique(buf, ring) && i < NBUF && buf[i].valid
    ensures var buf' := buf[i := buf[i].(data := data)];
            && Unique(buf', ring)
            && forall dev: nat, b: nat :: InRange(disk, dev, b) ==>
                 Latest(buf', disk, dev, b) ==
                 if buf[i].For(dev, b) then data else Latest(buf, disk, dev, b)
  {
    var buf' := buf[i := buf[i].(data := data)];
    forall dev: nat, b: nat | InRange(disk, dev, b)
      ensures Latest(buf', disk, dev, b) == if buf[i].For(dev, b) then data else Latest(buf, disk, dev, b)
    {
      if buf[i].For(dev, b) {
        LatestIs(buf', ring, disk, i);
      } else if k: nat :| Caches(buf, k, dev, b) {
        LatestIs(buf, ring, disk, k);
        LatestIs(buf', ring, disk, k);
      } else {
        assert forall j: nat :: Caches(buf', j, dev, b) ==> Caches(buf, j, dev, b);
      }
    }
  }

  function DiskWrite(disk: Disks, dev: nat, blockno: nat, data: Block): Disks
    requires dev in disk && blockno < |disk[dev]|
  {
    var image: Image := disk[dev][blockno := data];
    disk[dev := image]
  }

  /** bget can recycle the buffer. */
  predicate Spare(b: Buf) {
    b.refcnt == 0 && !b.dirty
  }

  /** Every buffer is referenced or pinned. */
  ghost predicate NoSpare(buf: seq<Buf>) {
    forall j :: 0 <= j < |buf| ==> !Spare(buf[j])
  }

  /** At most one buffer is not. */
  ghost predicate OneSpare(buf: seq<Buf>) {
    forall j, k :: 0 <= j < k < |buf| ==> !Spare(buf[j]) || !Spare(buf[k])
  }

  /** The block is not cached and no buffer can be recycled for it. */
  ghost predicate NoBuffer(buf: seq<Buf>, dev: nat, blockno: nat) {
    NoSpare(buf) && forall j :: 0 <= j < |buf| ==> !buf[j].For(dev, blockno)
  }

  /** The same buffers are referenced as before, and those pinned or held were that for the same device. */
  ghost predicate NoWorse(buf: seq<Buf>, buf2: seq<Buf>) {
    && |buf2| == |buf|
    && forall j :: 0 <= j < |buf| ==>
         && buf2[j].refcnt == buf[j].refcnt
         && (buf2[j].dirty ==> buf[j].dirty && buf2[j].dev == buf[j].dev)
         && (buf2[j].locked ==> buf[j].locked && buf2[j].dev == buf[j].dev)
  }

  /** The first buffer in ring order for a block is the live one, if there is one. */
  lemma FirstIsLive(buf: seq<Buf>, ring: seq<nat>, at: nat, j: nat)
    requires Unique(buf, ring) && at < NBUF && j < NBUF && buf[j].Live() &&
             buf[ring[at]].For(buf[j].dev, buf[j].blockno)
    requires forall a :: 0 <= a < at ==> !buf[ring[a]].For(buf[j].dev, buf[j].blockno)
    ensures ring[at] == j
  {
    assert j in ring;
    var b :| 0 <= b < NBUF && ring[b] == j;
  }

  /** Writing a valid buffer to the disk changes the disk and nothing a reader sees. */
  lemma WriteKeeps(buf: seq<Buf>, ring: seq<nat>, disk: Disks, touched: set<nat>, i: nat)
    requires Unique(buf, ring) && Clean(buf, disk, touched) && i < NBUF && buf[i].valid
    ensures var b := buf[i];
            var disk' := DiskWrite(disk, b.dev, b.blockno, b.data);
            var buf' := buf[i := b.(dirty := false)];
            && Unique(buf', ring) && Clean(buf', disk', touched - {i})
            && SameLatest(buf, disk, buf', disk')
  {
    var b := buf[i];
    var disk' := DiskWrite(disk, b.dev, b.blockno, b.data);
    var buf' := buf[i := b.(dirty := false)];
    forall j: nat | j < NBUF
      ensures BufOk(buf'[j], disk', j in touched - {i})
    {
      if j != i && buf[j].valid && buf[j].For(b.dev, b.blockno) {
        OneBufferPerBlock(buf, ring, j, i);
      }
    }
    forall dev: nat, n: nat | InRange(disk, dev, n)
      ensures InRange(disk', dev, n) && Latest(buf', disk', dev, n) == Latest(buf, disk, dev, n)
    {
      if k: nat :| Caches(buf, k, dev, n) {
        LatestIs(buf, ring, disk, k);
        LatestIs(buf', ring, disk', k);
      } else {
        assert !b.For(dev, n) by { if b.For(dev, n) { assert Caches(buf, i, dev, n); } }
        assert forall j: nat :: Caches(buf', j, dev, n) ==> Caches(buf, j, dev, n);
      }
    }
  }

  function Released(buf: seq<Buf>, i: nat): seq<Buf>
    requires i < |buf| && buf[i].refcnt > 0
  {
    buf[i := buf[i].(refcnt := buf[i].refcnt - 1)]
  }

  function MovedFront(ring: seq<nat>, at: nat): seq<nat>
    requires at < |ring|
  {
    [ring[at]] + Without(ring, at)
  }

  lemma MovedFrontComplete(ring: seq<nat>, at: nat)
    requires |ring| == NBUF && at < NBUF && forall i: nat :: i < NBUF ==> i in ring
    ensures var r := MovedFront(ring, at); |r| == NBUF && forall i: nat :: i < NBUF ==> i in r
  {
    var r := MovedFront(ring, at);
    forall i: nat | i < NBUF
      ensures i in r
    {
      assert i in ring;
      var k :| 0 <= k < NBUF && ring[k] == i;
      assert r[if k == at then 0 else if k < at then k + 1 else k] == i;
    }
  }

  lemma MovedFrontIndexed(buf: seq<Buf>, ring: seq<nat>, at: nat)
    requires Indexed(buf, ring) && at < NBUF
    ensures Indexed(buf, MovedFront(ring, at))
  {
    var r := MovedFront(ring, at);
    assert forall k :: 0 <= k < NBUF ==> r[k] == if k == 0 then ring[at] else if k <= at then ring[k - 1] else ring[k];
    MovedFrontComplete(ring, at);
  }

  /** brelse may move a buffer to the front: no live buffer behind it shares its identity. */
  lemma ReleaseUnique(buf: seq<Buf>, ring: seq<nat>, at: nat)
    requires Unique(buf, ring) && at < NBUF && buf[ring[at]].refcnt > 0
    ensures Unique(Released(buf, ring[at]), ring)
    ensures Unique(Released(buf, ring[at]), MovedFront(ring, at))
  {
    var buf', r := Released(buf, ring[at]), MovedFront(ring, at);
    MovedFrontIndexed(buf', ring, at);
    forall a, b | 0 <= a < b < NBUF && buf'[r[b]].Live()
      ensures !buf'[r[a]].For(buf'[r[b]].dev, buf'[r[b]].blockno)
    {
      var b' := if b <= at then b - 1 else b;
      assert r[b] == ring[b'];
      if a == 0 {
        assert ring[b'] != ring[at];
        assert buf[ring[b']].Live();
      } else {
        var a' := if a <= at then a - 1 else a;
        assert r[a] == ring[a'];
      }
    }
  }

  // ---- Least recently used -----------------------------------------------------------------------

  /** In this list of releases, buffer i was last released after buffer j was. */
  predicate LaterThan(rel: seq<nat>, i: nat, j: nat)
    decreases |rel|
  {
    rel != [] && (rel[|rel| - 1] == i || (rel[|rel| - 1] != j && LaterThan(rel[..|rel| - 1], i, j)))
  }

  predicate Precedes(ring: seq<nat>, i: nat, j: nat) {
    exists a, b :: 0 <= a < b < |ring| && ring[a] == i && ring[b] == j
  }

  /** The ring has what was released later in front of what was released earlier. */
  ghost predicate Ordered(ring: seq<nat>, rel: seq<nat>) {
    forall i: nat, j: nat :: i < NBUF && j < NBUF && i != j && LaterThan(rel, i, j) ==> Precedes(ring, i, j)
  }

  lemma OrderedMore(ring: seq<nat>, at: nat, rel: seq<nat>)
    requires Ordered(ring, rel) && at < |ring| && forall i: nat :: i < NBUF ==> i in ring
    ensures Ordered(MovedFront(ring, at), rel + [ring[at]])
  {
    var r, x := MovedFront(ring, at), ring[at];
    assert (rel + [x])[..|rel|] == rel;
    forall i: nat, j: nat | i < NBUF && j < NBUF && i != j && LaterThan(rel + [x], i, j) ensures Precedes(r, i, j) {
      if i == x {
        assert j in ring;
        var b :| 0 <= b < |ring| && ring[b] == j;
        assert r[0] == i && r[if b < at then b + 1 else b] == j;
      } else {
        assert Precedes(ring, i, j);
        var a, b :| 0 <= a < b < |ring| && ring[a] == i && ring[b] == j;
        assert r[if a < at then a + 1 else a] == i && r[if b < at then b + 1 else b] == j;
      }
    }
  }

  /** Of two different buffers that were released, one was released later. */
  lemma {:induction false} OneIsLater(rel: seq<nat>, i: nat, j: nat)
    requires i in rel && j in rel && i != j
    ensures LaterThan(rel, i, j) || LaterThan(rel, j, i)
    decreases |rel|
  {
    var n := |rel| - 1;
    if rel[n] != i && rel[n] != j {
      assert rel == rel[..n] + [rel[n]];
      OneIsLater(rel[..n], i, j);
    }
  }

  /** Of the buffers that bget could recycle, i is the last in the ring. */
  ghost predicate LastSpare(buf: seq<Buf>, ring: seq<nat>, i: nat) {
    exists at :: 0 <= at < |ring| && ring[at] == i && i < |buf| && Spare(buf[i]) && NoneAfter(buf, ring, at)
  }

  ghost predicate NoneAfter(buf: seq<Buf>, ring: seq<nat>, at: int) {
    forall a :: 0 <= a < |ring| && at < a && ring[a] < |buf| ==> !Spare(buf[ring[a]])
  }

  /** The one that bget recycles is the one that was released longest ago. */
  lemma LeastRecentlyUsed(prev: seq<nat>, next: seq<nat>, ring: seq<nat>, buf: seq<Buf>, rel: seq<nat>, i: nat, j: nat)
    requires Ring(prev, next, ring) && Ordered(ring, rel) && |buf| == NBUF && LastSpare(buf, ring, i)
    requires j < NBUF && j != i && Spare(buf[j]) && i in rel && j in rel
    ensures LaterThan(rel, j, i)
  {
    hide LaterThan, Precedes, Linked;
    OneIsLater(rel, i, j);
    assert j in ring;
    SpareBefore(buf, ring, i, j);
    OneWay(prev, next, ring, j, i);
  }

  lemma SpareBefore(buf: seq<Buf>, ring: seq<nat>, i: nat, j: nat)
    requires LastSpare(buf, ring, i) && j < |buf| && Spare(buf[j]) && j in ring && i != j
    ensures Precedes(ring, j, i)
  {
    var at :| 0 <= at < |ring| && ring[at] == i && NoneAfter(buf, ring, at);
    var b :| 0 <= b < |ring| && ring[b] == j;
    assert b < at;
  }

  lemma OneWay(prev: seq<nat>, next: seq<nat>, ring: seq<nat>, i: nat, j: nat)
    requires Linked(prev, next, ring) && Precedes(ring, i, j)
    ensures !Precedes(ring, j, i)
  {
    var a, b :| 0 <= a < b < |ring| && ring[a] == i && ring[b] == j;
    forall c, d | 0 <= c < d < |ring| ensures ring[c] != j || ring[d] != i {
    }
  }

  class Cache {
    var buf: seq<Buf>
    var prev: seq<nat>
    var next: seq<nat>
    var disk: Disks
    ghost var ring: seq<nat>          // the buffers, most recently used first
    ghost var touched: set<nat>       // buffers changed by their holder and not yet written or logged
    ghost var trace: seq<Disks>       // every state the disks have been in
    ghost var released: seq<nat>      // the buffers whose last reference was dropped, in that order

    ghost predicate Valid()
      reads this
    {
      && |buf| == NBUF
      && Ring(prev, next, ring)
      && Unique(buf, ring)
      && Clean(buf, disk, touched)
      && trace != [] && trace[|trace| - 1] == disk
      && Ordered(ring, released)
    }

    /** Whoever is changing a buffer holds it. */
    lemma TouchedIsHeld()
      requires Valid()
      ensures |buf| == NBUF && forall i :: 0 <= i < NBUF && i in touched ==> buf[i].locked
    {
      forall i | 0 <= i < NBUF && i in touched ensures buf[i].locked {
        assert BufOk(buf[i], disk, true);
      }
    }

    /** What bread of this block returns, whether or not it is cached. */
    ghost function View(dev: nat, blockno: nat): Block
      reads this
      requires InRange(disk, dev, blockno)
    {
      Latest(buf, disk, dev, blockno)
    }

    /** binit, on zeroed memory. */
    constructor (disks: Disks)
      ensures Valid() && disk == disks && trace == [disks] && touched == {}
      ensures forall i :: 0 <= i < NBUF ==> buf[i] == Buf(0, 0, false, false, 0, false, ZERO_BLOCK)
    {
      var bufs := seq(NBUF, _ => Buf(0, 0, false, false, 0, false, ZERO_BLOCK));
      var p: seq<nat>, n: seq<nat> := seq(NBUF + 1, _ => HEAD), seq(NBUF + 1, _ => HEAD);
      ghost var r: seq<nat> := [];
      var b := 0;
      while b < NBUF
        invariant 0 <= b <= NBUF && |r| == b && Linked(p, n, r)
        invariant forall i: nat :: i in r <==> i < b
      {
        PushedFront(p, n, r, b);
        n, p := n[b := n[HEAD]][HEAD := b], p[b := HEAD][n[HEAD] := b];
        r := [b] + r;
        b := b + 1;
      }
      buf, prev, next, disk := bufs, p, n, disks;
      ring, touched, trace, released := r, {}, [disks], [];
    }

    /** bget's first loop: the first buffer from the front that has the identity. */
    method FindBlock(dev: nat, blockno: nat) returns (b: nat, ghost at: nat)
      requires Valid()
      ensures at <= NBUF && b == Stop(ring, at + 1)
      ensures forall a :: 0 <= a < at ==> !buf[ring[a]].For(dev, blockno)
      ensures if at < NBUF then buf[b].For(dev, blockno) else b == HEAD
    {
      hide Clean, Unique;
      b := next[HEAD];
      at := 0;
      assert next[Stop(ring, 0)] == Stop(ring, 1);
      while b != HEAD && !(buf[b].dev == dev && buf[b].blockno == blockno)
        invariant 0 <= at <= NBUF && b == Stop(ring, at + 1)
        invariant forall a :: 0 <= a < at ==> !buf[ring[a]].For(dev, blockno)
        decreases NBUF - at
      {
        assert next[Stop(ring, at + 1)] == Stop(ring, at + 2);
        b := next[b];
        at := at + 1;
      }
    }

    /** bget's second loop: the last buffer that nobody uses and the log has not pinned. */
    method FindUnused() returns (b: nat, ghost at: nat)
      requires Valid()
      ensures at <= NBUF && b == Stop(ring, at)
      ensures forall a :: at <= a < NBUF ==> buf[ring[a]].refcnt > 0 || buf[ring[a]].dirty
      ensures if at > 0 then b < NBUF && buf[b].refcnt == 0 && !buf[b].dirty else b == HEAD
    {
      hide Clean, Unique;
      b := prev[HEAD];
      at := NBUF;
      assert prev[Stop(ring, NBUF + 1)] == Stop(ring, NBUF);
      while b != HEAD && !(buf[b].refcnt == 0 && !buf[b].dirty)
        invariant 0 <= at <= NBUF && b == Stop(ring, at)
        invariant forall a :: at <= a < NBUF ==> buf[ring[a]].refcnt > 0 || buf[ring[a]].dirty
        decreases at
      {
        assert prev[Stop(ring, at)] == Stop(ring, at - 1);
        b := prev[b];
        at := at - 1;
      }
    }

    /**
     bget up to its release of bcache.lock: find the block's buffer or recycle one.  `None` is the
     "no buffers" panic.
     */
    method Bget(dev: nat, blockno: nat) returns (r: Option<nat>)
      requires Valid()
      modifies this`buf
      ensures Valid() && SameLatest(old(buf), disk, buf, disk)
      ensures r.None? ==> buf == old(buf)
      ensures r.None? ==> forall j :: 0 <= j < NBUF ==> !buf[j].For(dev, blockno)
      ensures r.None? ==> NoSpare(buf)
      ensures r.Some? ==> forall j :: 0 <= j < NBUF && old(buf)[j].Live() && old(buf)[j].For(dev, blockno) ==>
                j == r.value
      ensures r.Some? ==> r.value < NBUF && buf == old(buf)[r.value := buf[r.value]]
      ensures r.Some? && old(buf)[r.value].For(dev, blockno) ==>
                buf[r.value] == old(buf)[r.value].(refcnt := old(buf)[r.value].refcnt + 1)
      ensures r.Some? && !old(buf)[r.value].For(dev, blockno) ==>
                && old(buf)[r.value].refcnt == 0 && !old(buf)[r.value].dirty
                && (forall j :: 0 <= j < NBUF ==> !old(buf)[j].For(dev, blockno)) && LastSpare(old(buf), ring, r.value)
                && buf[r.value] == Buf(dev, blockno, false, false, 1, false, old(buf)[r.value].data)
    {
      hide Latest, SameLatest;
      var b, at := FindBlock(dev, blockno);
      if b != HEAD {
        HitKeeps(buf, ring, disk, touched, at);
        forall j | 0 <= j < NBUF && buf[j].Live() && buf[j].For(dev, blockno) ensures j == b {
          FirstIsLive(buf, ring, at, j);
        }
        buf := buf[b := buf[b].(refcnt := buf[b].refcnt + 1)];
        return Some(b);
      }
      forall j | 0 <= j < NBUF
        ensures !buf[j].For(dev, blockno)
      {
        assert j in ring;
      }
      b, at := FindUnused();
      if b != HEAD {
        assert BufOk(buf[b], disk, b in touched);
        var anew := Buf(dev, blockno, false, false, 1, buf[b].locked, buf[b].data);
        RecycleKeeps(buf, ring, disk, touched, b, anew);
        buf := buf[b := anew];
        return Some(b);
      }
      forall j | 0 <= j < NBUF
        ensures !Spare(buf[j])
      {
        assert j in ring;
      }
      SameData(buf, disk, buf, ring);
      return None;
    }

    /** acquiresleep(&b->lock), at the moment the lock is free. */
    method Lock(i: nat)
      requires Valid() && i < NBUF && buf[i].refcnt > 0 && !buf[i].locked
      modifies this`buf
      ensures Valid() && SameLatest(old(buf), disk, buf, disk)
      ensures buf == old(buf)[i := old(buf)[i].(locked := true)]
    {
      buf := buf[i := buf[i].(locked := true)];
      SameData(old(buf), disk, buf, ring);
    }

    /** iderw on a buffer that is not valid: a synchronous read.  False is a panic: no such block. */
    method Fill(i: nat) returns (ok: bool)
      requires Valid() && i < NBUF && buf[i].locked && !buf[i].valid
      modifies this`buf
      ensures Valid() && SameLatest(old(buf), disk, buf, disk)
      ensures ok <==> InRange(disk, buf[i].dev, buf[i].blockno)
      ensures ok ==> buf == old(buf)[i := old(buf)[i].(valid := true, data := disk[buf[i].dev][buf[i].blockno])]
      ensures !ok ==> buf == old(buf)
    {
      var b := buf[i];
      if b.dev !in disk || b.blockno >= |disk[b.dev]| {
        return false;
      }
      FillKeeps(buf, ring, disk, touched, i);
      buf := buf[i := b.(valid := true, data := disk[b.dev][b.blockno])];
      return true;
    }

    /**
     bread by a caller that finds the buffer's lock free.  The buffer it returns holds the latest
     contents of the block, as if there were no cache, and nobody's view of any block changes.
     */
    method Bread(dev: nat, blockno: nat) returns (r: Option<nat>)
      requires Valid()
      requires forall j :: 0 <= j < NBUF && buf[j].For(dev, blockno) ==> !buf[j].locked
      modifies this`buf
      ensures Valid() && SameLatest(old(buf), disk, buf, disk)
      ensures r.None? <==> !InRange(disk, dev, blockno) || NoBuffer(old(buf), dev, blockno)
      ensures r.None? && InRange(disk, dev, blockno) ==> buf == old(buf)
      ensures r.Some? ==> forall j :: 0 <= j < NBUF && old(buf)[j].Live() && old(buf)[j].For(dev, blockno) ==>
                j == r.value
      ensures r.Some? ==>
                && r.value < NBUF
                && buf[r.value].For(dev, blockno) && buf[r.value].valid && buf[r.value].locked
                && InRange(disk, dev, blockno)
                && buf[r.value].data == old(View(dev, blockno))
                && !old(buf)[r.value].locked && buf == old(buf)[r.value := buf[r.value]]
                && (old(buf)[r.value].dirty ==> old(buf)[r.value].For(dev, blockno))
                && buf[r.value].dirty == old(buf)[r.value].dirty
                && buf[r.value].refcnt == old(buf)[r.value].refcnt + 1
    {
      var got := Bget(dev, blockno);
      if got.None? {
        return None;
      }
      var i := got.value;
      assert BufOk(old(buf)[i], disk, i in touched);
      ghost var buf1 := buf;
      Lock(i);
      ghost var buf2 := buf;
      if !buf[i].valid {
        var ok := Fill(i);
        if !ok {
          return None;
        }
      }
      LatestIs(buf, ring, disk, i);
      return Some(i);
    }

    /** The holder of a buffer changes its contents. */
    method Modify(i: nat, data: Block)
      requires Valid() && i < NBUF && buf[i].locked && buf[i].valid
      modifies this`buf, this`touched
      ensures Valid() && touched == old(touched) + {i}
      ensures buf == old(buf)[i := old(buf)[i].(data := data)]
      ensures forall dev: nat, b: nat :: InRange(disk, dev, b) ==>
                View(dev, b) == if buf[i].For(dev, b) then data else old(View(dev, b))
    {
      ModifyShows(buf, ring, disk, i, data);
      buf := buf[i := buf[i].(data := data)];
      touched := touched + {i};
    }

    /** bwrite: the buffer goes to the disk and is no longer dirty. */
    method Bwrite(i: nat)
      requires Valid() && i < NBUF && buf[i].locked && buf[i].valid
      modifies this`buf, this`disk, this`touched, this`trace
      ensures Valid() && SameLatest(old(buf), old(disk), buf, disk)
      ensures buf == old(buf)[i := old(buf)[i].(dirty := false)] && touched == old(touched) - {i}
      ensures InRange(old(disk), buf[i].dev, buf[i].blockno)
      ensures disk == DiskWrite(old(disk), buf[i].dev, buf[i].blockno, buf[i].data)
      ensures trace == old(trace) + [disk]
    {
      WriteKeeps(buf, ring, disk, touched, i);
      disk := DiskWrite(disk, buf[i].dev, buf[i].blockno, buf[i].data);
      buf := buf[i := buf[i].(dirty := false)];
      touched := touched - {i};
      trace := trace + [disk];
    }

    /** log_write's `b->flags |= B_DIRTY`: bget will not recycle the buffer until it is written. */
    method Pin(i: nat)
      requires Valid() && i < NBUF && buf[i].locked && buf[i].valid
      modifies this`buf, this`touched
      ensures Valid() && SameLatest(old(buf), disk, buf, disk)
      ensures buf == old(buf)[i := old(buf)[i].(dirty := true)] && touched == old(touched) - {i}
    {
      buf := buf[i := buf[i].(dirty := true)];
      touched := touched - {i};
      assert Unique(buf, ring);
      SameData(old(buf), disk, buf, ring);
    }

    /** releasesleep(&b->lock), by a holder that has written or logged its changes. */
    method Unlock(i: nat)
      requires Valid() && i < NBUF && buf[i].locked && i !in touched
      modifies this`buf
      ensures Valid() && SameLatest(old(buf), disk, buf, disk)
      ensures buf == old(buf)[i := old(buf)[i].(locked := false)]
    {
      buf := buf[i := buf[i].(locked := false)];
      assert Unique(buf, ring);
      SameData(old(buf), disk, buf, ring);
    }

    /** bio.c:132-137: take a buffer out of the ring and link it in behind the head. */
    method MoveFront(i: nat, ghost at: nat)
      requires Ring(prev, next, ring) && at < NBUF && ring[at] == i
      modifies this`prev, this`next, this`ring, this`released
      ensures Ring(prev, next, ring) && ring == MovedFront(old(ring), at) && released == old(released) + [i]
    {
      hide Stop, Without;
      Unlinked(prev, next, ring, at);
      MovedFrontComplete(ring, at);
      prev := prev[next[i] := prev[i]];
      next := next[prev[i] := next[i]];
      PushedFront(prev, next, Without(ring, at), i);
      next := next[i := next[HEAD]];
      prev := prev[i := HEAD];
      prev := prev[next[HEAD] := i];
      next := next[HEAD := i];
      ring, released := MovedFront(ring, at), released + [i];
    }

    /** The rest of brelse: drop the reference, and move an unused buffer to the front of the ring. */
    method Put(i: nat)
      requires Valid() && i < NBUF && buf[i].refcnt > (if buf[i].locked then 1 else 0)
      modifies this`buf, this`prev, this`next, this`ring, this`released
      ensures Valid() && SameLatest(old(buf), disk, buf, disk)
      ensures buf == Released(old(buf), i)
      ensures released == old(released) + if buf[i].refcnt == 0 then [i] else []
      ensures buf[i].refcnt > 0 ==> ring == old(ring)
      ensures buf[i].refcnt == 0 ==> exists at ::
              0 <= at < NBUF && old(ring)[at] == i && ring == MovedFront(old(ring), at)
    {
      hide Linked, Latest, SameLatest, Without;
      assert i in ring;
      ghost var at: nat :| at < NBUF && ring[at] == i;
      ReleaseUnique(buf, ring, at);
      buf := Released(buf, i);
      if buf[i].refcnt == 0 {
        OrderedMore(ring, at, released);
        MoveFront(i, at);
      }
      SameData(old(buf), disk, buf, ring);
    }

    /** brelse. */
    method Brelse(i: nat)
      requires Valid() && i < NBUF && buf[i].locked && i !in touched
      modifies this`buf, this`prev, this`next, this`ring, this`released
      ensures Valid() && SameLatest(old(buf), disk, buf, disk)
      ensures released == old(released) + if buf[i].refcnt == 0 then [i] else []
      ensures buf == old(buf)[i := old(buf)[i].(locked := false, refcnt := buf[i].refcnt)]
      ensures buf[i].refcnt == old(buf)[i].refcnt - 1
      ensures buf[i].refcnt > 0 ==> ring == old(ring)
      ensures buf[i].refcnt == 0 ==> exists at ::
              0 <= at < NBUF && old(ring)[at] == i && ring == MovedFront(old(ring), at)
    {
      assert BufOk(buf[i], disk, i in touched);
      Unlock(i);
      ghost var buf1 := buf;
      Put(i);
    }
  }
}
