/**
 The logging layer of log.c over the buffer cache: log_write, commit and recovery, run by one
 process at a time.  The cache keeps every state the disk goes through, so a contract that speaks
 about all of them speaks about a crash after any block write.
 */
module Log {
  import opened Common
  import opened Blocks
  import opened LogFormat
  import opened BufferCache
  import Protocol = LogProtocol

  /** d' is d with some data slots of the log overwritten. */
  ghost predicate SlotsOnly(c: Layout, d: Image, d': Image) {
    |d'| == |d| && forall b :: 0 <= b < |d| && !(c.start < b < c.start + c.size) ==> d'[b] == d[b]
  }

  /** d' is d with some of the listed home blocks overwritten from their log slots. */
  ghost predicate PartlyInstalled(c: Layout, blocks: seq<nat>, d: Image, d': Image)
    requires Fits(c, blocks) && c.start + c.size <= |d|
  {
    && |d'| == |d|
    && forall b: nat :: b < |d| ==>
         d'[b] == d[b] || (b in blocks && d'[b] == Slot(c, d, blocks, b))
  }

  lemma NothingInstalled(c: Layout, blocks: seq<nat>, d: Image)
    requires Fits(c, blocks) && c.start + c.size <= |d|
    ensures PartlyInstalled(c, blocks, d, d)
  {
  }

  lemma OneMoreInstalled(c: Layout, blocks: seq<nat>, d: Image, d': Image, k: nat)
    requires Fits(c, blocks) && c.start + c.size <= |d| == c.nblocks && k < |blocks|
    requires PartlyInstalled(c, blocks, d, d')
    ensures PartlyInstalled(c, blocks, d, d'[blocks[k] := d[c.start + 1 + k]])
  {
    IndexOfDistinct(blocks, k);
  }

  /** `base` with the first k listed blocks replaced by their slots in image d. */
  ghost function InstalledPrefix(c: Layout, d: Image, base: Image, blocks: seq<nat>, k: nat): (r: Image)
    requires Fits(c, blocks) && k <= |blocks| && c.start + c.size <= |d| == |base| == c.nblocks
    ensures |r| == |base|
  {
    if k == 0 then base
    else InstalledPrefix(c, d, base, blocks, k - 1)[blocks[k - 1] := d[c.start + k]]
  }

  lemma {:induction false} PrefixKeepsSlots(c: Layout, d: Image, base: Image, blocks: seq<nat>, k: nat, b: nat)
    requires Fits(c, blocks) && k <= |blocks| && c.start + c.size <= |d| == |base| == c.nblocks
    requires b < c.nblocks && b !in blocks[..k]
    ensures InstalledPrefix(c, d, base, blocks, k)[b] == base[b]
    decreases k
  {
    if k > 0 {
      PrefixKeepsSlots(c, d, base, blocks, k - 1, b);
    }
  }

  lemma PrefixNone(c: Layout, d: Image, base: Image, blocks: seq<nat>)
    requires c.Valid() && Fits(c, blocks) && |d| == |base| == c.nblocks
    ensures InstalledPrefix(c, d, base, blocks, 0) == base
  {
  }

  /** The next block installed is the one in its slot. */
  lemma PrefixMore(c: Layout, d: Image, base: Image, blocks: seq<nat>, k: nat)
    requires c.Valid() && Fits(c, blocks) && |d| == |base| == c.nblocks && k < |blocks|
    requires base[c.start + k + 1] == d[c.start + k + 1]
    ensures InstalledPrefix(c, d, base, blocks, k)[c.start + k + 1] == d[c.start + k + 1]
    ensures InstalledPrefix(c, d, base, blocks, k + 1) ==
            InstalledPrefix(c, d, base, blocks, k)[blocks[k] := d[c.start + k + 1]]
  {
    PrefixKeepsSlots(c, d, base, blocks, k, c.start + k + 1);
  }

  /** Before the commit point: an image with an empty log recovers to its own home blocks. */
  lemma SlotsOnlyRecovers(c: Layout, d: Image, d': Image)
    requires GoodImage(c, d) && Word(d[c.start], 0) == 0 && SlotsOnly(c, d, d')
    ensures RecoversTo(c, d', d)
  {
    hide Word;
    assert d'[c.start] == d[c.start];
  }

  /** After it: an image with a full log recovers to the same home blocks however much is installed. */
  lemma PartlyInstalledRecovers(c: Layout, d: Image, d': Image, home: Image)
    requires RecoversTo(c, d, home)
    requires PartlyInstalled(c, HeaderBlocks(d[c.start]), d, d')
    ensures RecoversTo(c, d', home)
  {
    hide Word;
    var blocks := HeaderBlocks(d[c.start]);
    assert c.start !in blocks;
    assert d'[c.start] == d[c.start];
    forall b: nat | c.Home(b)
      ensures RecoveredBlock(c, d', b) == home[b]
    {
      if b in blocks {
        var slot := c.start + 1 + IndexOf(blocks, b);
        assert slot !in blocks;
        assert d'[slot] == d[slot];
      }
    }
  }

  /** The latest contents of every block of a device. */
  ghost function ViewsOf(buf: seq<Buf>, disk: Disks, dev: nat): (d: Image)
    requires dev in disk
    ensures |d| == |disk[dev]|
  {
    seq(|disk[dev]|, b requires 0 <= b < |disk[dev]| => Latest(buf, disk, dev, b))
  }

  lemma SameViews(buf: seq<Buf>, disk: Disks, buf': seq<Buf>, disk': Disks, dev: nat)
    requires SameLatest(buf, disk, buf', disk') && dev in disk && dev in disk' && |disk'[dev]| == |disk[dev]|
    ensures ViewsOf(buf', disk', dev) == ViewsOf(buf, disk, dev)
  {
    hide Latest;
    forall b: nat | b < |disk[dev]|
      ensures ViewsOf(buf', disk', dev)[b] == ViewsOf(buf, disk, dev)[b]
    {
      assert InRange(disk, dev, b);
    }
  }

  ghost function PinnedBlocks(buf: seq<Buf>, dev: nat): set<nat> {
    set i | 0 <= i < |buf| && buf[i].dirty && buf[i].dev == dev :: buf[i].blockno
  }

  lemma CleanNotPinned(buf: seq<Buf>, ring: seq<nat>, disk: Disks, touched: set<nat>, i: nat)
    requires Unique(buf, ring) && Clean(buf, disk, touched) && i < NBUF && buf[i].valid && !buf[i].dirty
    ensures buf[i].blockno !in PinnedBlocks(buf, buf[i].dev)
  {
    forall j: nat | j < NBUF && buf[j].dirty && buf[j].For(buf[i].dev, buf[i].blockno)
      ensures false
    {
      assert BufOk(buf[j], disk, j in touched);
      OneBufferPerBlock(buf, ring, j, i);
    }
  }

  // ---- Running out of buffers ---------------------------------------------------------------------

  /**
   Too few buffers to copy one of these blocks to or from its slot: at most one can be recycled, and
   none if the blocks are pinned, as those in the log are.
   */
  ghost predicate Scarce(buf: seq<Buf>, dev: nat, blocks: seq<nat>) {
    OneSpare(buf) && ((forall b :: b in blocks ==> b in PinnedBlocks(buf, dev)) ==> NoSpare(buf))
  }

  /** No more buffers are in use, and these blocks are pinned if they were. */
  ghost predicate Eased(buf: seq<Buf>, buf2: seq<Buf>, dev: nat, blocks: seq<nat>) {
    NoWorse(buf, buf2) && forall b :: b in blocks && b in PinnedBlocks(buf, dev) ==> b in PinnedBlocks(buf2, dev)
  }

  lemma ScarceBefore(buf: seq<Buf>, buf2: seq<Buf>, dev: nat, blocks: seq<nat>, some: seq<nat>)
    requires Eased(buf, buf2, dev, some) && Scarce(buf2, dev, some) && forall b :: b in some ==> b in blocks
    ensures Scarce(buf, dev, blocks)
  {
    hide PinnedBlocks;
    forall j | 0 <= j < |buf| ensures Spare(buf[j]) ==> Spare(buf2[j]) {
    }
  }

  lemma NoneBefore(buf: seq<Buf>, buf2: seq<Buf>, dev: nat, blocks: seq<nat>)
    requires NoWorse(buf, buf2) && NoSpare(buf2)
    ensures NoSpare(buf) && Scarce(buf, dev, blocks)
  {
    forall j | 0 <= j < |buf| ensures !Spare(buf[j]) {
      assert !Spare(buf2[j]);
    }
  }

  lemma EasedMore(b0: seq<Buf>, b1: seq<Buf>, b2: seq<Buf>, dev: nat, blocks: seq<nat>, y: nat, rest: seq<nat>)
    requires Eased(b0, b1, dev, blocks) && NoWorse(b1, b2) && PinnedBlocks(b2, dev) == PinnedBlocks(b1, dev) - {y}
    requires y !in rest && forall b :: b in rest ==> b in blocks
    ensures Eased(b0, b2, dev, rest)
  {
    hide PinnedBlocks;
  }

  lemma EasedSome(buf: seq<Buf>, buf2: seq<Buf>, dev: nat, blocks: seq<nat>, b: nat)
    requires Eased(buf, buf2, dev, blocks) && b in blocks
    ensures Eased(buf, buf2, dev, [b])
  {
  }

  lemma EasedIsNoWorse(buf: seq<Buf>, buf2: seq<Buf>, dev: nat, blocks: seq<nat>)
    requires Eased(buf, buf2, dev, blocks)
    ensures NoWorse(buf, buf2)
  {
  }

  lemma NotAgain(bs: seq<nat>, k: nat)
    requires Distinct(bs) && k < |bs|
    ensures bs[k] !in bs[k + 1..] && forall b :: b in bs[k + 1..] ==> b in bs[k..]
  {
  }

  lemma FewBefore(buf: seq<Buf>, buf2: seq<Buf>)
    requires NoWorse(buf, buf2) && OneSpare(buf2)
    ensures OneSpare(buf)
  {
    forall j | 0 <= j < |buf| ensures Spare(buf[j]) ==> Spare(buf2[j]) {
    }
  }

  lemma NoWorseTwice(b0: seq<Buf>, b1: seq<Buf>, b2: seq<Buf>)
    requires NoWorse(b0, b1) && NoWorse(b1, b2)
    ensures NoWorse(b0, b2)
  {
  }

  lemma NotWorse(buf: seq<Buf>)
    ensures NoWorse(buf, buf)
  {
  }

  lemma NotEased(buf: seq<Buf>, dev: nat, blocks: seq<nat>)
    ensures Eased(buf, buf, dev, blocks)
  {
  }

  /** b1 is b0 with two buffers taken. */
  ghost predicate Lent(b0: seq<Buf>, b1: seq<Buf>, i: nat, j: nat) {
    && |b1| == |b0|
    && forall k :: 0 <= k < |b0| ==>
         && b1[k].refcnt == b0[k].refcnt + (if k == i || k == j then 1 else 0) && b1[k].dirty == b0[k].dirty
         && (b0[k].dirty ==> b1[k].For(b0[k].dev, b0[k].blockno)) && (k != i && k != j ==> b1[k] == b0[k])
  }

  /** b2 is b1 with the two given back, the second written. */
  ghost predicate Returned(b1: seq<Buf>, b2: seq<Buf>, i: nat, j: nat, wrote: nat) {
    && |b2| == |b1|
    && forall k :: 0 <= k < |b1| ==>
         && b2[k].refcnt == b1[k].refcnt - (if k == i || k == j then 1 else 0)
         && b2[k].dirty == (b1[k].dirty && k != wrote) && b2[k].For(b1[k].dev, b1[k].blockno)
         && b2[k].locked == (b1[k].locked && k != i && k != j)
  }

  lemma Swapped(b1: seq<Buf>, b2: seq<Buf>, i: nat, j: nat, wrote: nat)
    requires Returned(b1, b2, i, j, wrote)
    ensures Returned(b1, b2, j, i, wrote)
  {
  }

  lemma LentAndReturned(b0: seq<Buf>, b1: seq<Buf>, b2: seq<Buf>, i: nat, j: nat, wrote: nat, dev: nat, y: nat)
    requires Lent(b0, b1, i, j) && Returned(b1, b2, i, j, wrote) && wrote < |b1| && b1[wrote].For(dev, y)
    requires y !in PinnedBlocks(b2, dev)
    ensures NoWorse(b0, b2) && PinnedBlocks(b2, dev) == PinnedBlocks(b0, dev) - {y}
  {
    forall b | b in PinnedBlocks(b0, dev) && b != y ensures b in PinnedBlocks(b2, dev) {
      var k :| 0 <= k < |b0| && b0[k].dirty && b0[k].dev == dev && b0[k].blockno == b;
      assert b2[k].dirty && b2[k].For(dev, b);
    }
    forall b | b in PinnedBlocks(b2, dev) ensures b in PinnedBlocks(b0, dev) {
      var k :| 0 <= k < |b2| && b2[k].dirty && b2[k].dev == dev && b2[k].blockno == b;
      assert b0[k].dirty && b0[k].For(dev, b);
    }
  }

  /** What bread of a second block tells about the buffers before the first. */
  lemma SecondFails(b0: seq<Buf>, b1: seq<Buf>, first: nat, dev: nat, x: nat, y: nat)
    requires |b0| == |b1| == NBUF && first < NBUF && b1 == b0[first := b1[first]] && NoBuffer(b1, dev, y) && x != y
    requires b0[first].dirty ==> b0[first].For(dev, x)
    requires forall j :: 0 <= j < NBUF && b0[j].dirty && b0[j].For(dev, x) ==> j == first
    ensures Scarce(b0, dev, [x]) && Scarce(b0, dev, [y])
  {
    forall j | 0 <= j < NBUF && j != first ensures !Spare(b0[j]) && !b0[j].For(dev, y) {
      assert b1[j] == b0[j];
    }
    if x in PinnedBlocks(b0, dev) {
      var k :| 0 <= k < |b0| && b0[k].dirty && b0[k].dev == dev && b0[k].blockno == x;
    }
    assert x in [x] && y in [y];
  }

  lemma {:induction false} PinnedAtMost(buf: seq<Buf>, dev: nat)
    ensures |PinnedBlocks(buf, dev)| <= |buf|
  {
    if buf != [] {
      var n := |buf| - 1;
      PinnedAtMost(buf[..n], dev);
      var p, q := PinnedBlocks(buf, dev), PinnedBlocks(buf[..n], dev);
      forall b | b in p ensures b in q + {buf[n].blockno} {
        var k :| 0 <= k < |buf| && buf[k].dirty && buf[k].dev == dev && buf[k].blockno == b;
        assert k < n ==> buf[..n][k] == buf[k];
      }
      NoLarger(p, q + {buf[n].blockno});
    }
  }

  lemma NoLarger(p: set<nat>, q: set<nat>)
    requires p <= q
    ensures |p| <= |q|
  {
    assert p + (q - p) == q;
  }

  /** A buffer that pins no block of the device leaves one block less that can be pinned. */
  lemma NotAllPinned(buf: seq<Buf>, dev: nat, j: nat)
    requires j < |buf| && !(buf[j].dirty && buf[j].dev == dev)
    ensures |PinnedBlocks(buf, dev)| < |buf|
  {
    var others := buf[..j] + buf[j + 1..];
    PinnedAtMost(others, dev);
    forall b | b in PinnedBlocks(buf, dev) ensures b in PinnedBlocks(others, dev) {
      var k :| 0 <= k < |buf| && buf[k].dirty && buf[k].dev == dev && buf[k].blockno == b;
      assert buf[k] == others[if k < j then k else k - 1];
    }
    NoLarger(PinnedBlocks(buf, dev), PinnedBlocks(others, dev));
  }

  ghost function Members(bs: seq<nat>): set<nat> {
    set b | b in bs
  }

  lemma {:induction false} DistinctCount(bs: seq<nat>)
    requires Distinct(bs)
    ensures |Members(bs)| == |bs|
  {
    if bs == [] {
      assert Members(bs) == {};
    } else {
      var n := |bs| - 1;
      assert bs == bs[..n] + [bs[n]];
      DistinctCount(bs[..n]);
      assert Members(bs) == Members(bs[..n]) + {bs[n]};
    }
  }

  lemma SameSet(p: set<nat>, q: set<nat>)
    requires q <= p && |p| <= |q|
    ensures p == q
  {
    assert p == q + (p - q);
    assert |p - q| == 0;
  }

  lemma PinsItsBlock(buf: seq<Buf>, dev: nat, j: nat)
    requires j < |buf| && buf[j].dirty && buf[j].dev == dev
    ensures buf[j].blockno in PinnedBlocks(buf, dev)
  {
  }

  /**
   The cache has as many buffers as the log may have entries.  With that many blocks logged every
   buffer is pinned, and there is none for the first block that commit() reads.
   */
  lemma FullLogStarves(buf: seq<Buf>, dev: nat, c: Layout, blocks: seq<nat>)
    requires |buf| == NBUF && c.Valid() && Fits(c, blocks) && |blocks| == LOGSIZE
    requires forall b :: b in blocks ==> b in PinnedBlocks(buf, dev)
    ensures NoBuffer(buf, dev, c.start + 1)
  {
    hide PinnedBlocks;
    var p, q := PinnedBlocks(buf, dev), Members(blocks);
    DistinctCount(blocks);
    PinnedAtMost(buf, dev);
    SameSet(p, q);
    forall j | 0 <= j < NBUF ensures !Spare(buf[j]) && !buf[j].For(dev, c.start + 1) {
      if buf[j].dirty && buf[j].dev == dev {
        PinsItsBlock(buf, dev, j);
        assert c.Home(buf[j].blockno);
      } else {
        NotAllPinned(buf, dev, j);
      }
    }
  }

  /** Every disk state from index `since` of the trace on satisfies P, and differs on this device only. */
  ghost predicate AllSince(trace: seq<Disks>, since: nat, dev: nat, base: Disks, P: Image -> bool) {
    && since <= |trace|
    && forall k :: since <= k < |trace| ==>
         dev in trace[k] && P(trace[k][dev]) && trace[k] == base[dev := trace[k][dev]]
  }

  lemma NoneSince(trace: seq<Disks>, dev: nat, base: Disks, P: Image -> bool)
    ensures AllSince(trace, |trace|, dev, base, P)
  {
  }

  lemma OneMoreSince(trace: seq<Disks>, since: nat, dev: nat, base: Disks, P: Image -> bool, disk: Disks)
    requires AllSince(trace, since, dev, base, P)
    requires dev in disk && P(disk[dev]) && disk == base[dev := disk[dev]]
    ensures AllSince(trace + [disk], since, dev, base, P)
  {
  }

  lemma JoinSince(trace: seq<Disks>, trace': seq<Disks>, since: nat, dev: nat, base: Disks, mid: Disks,
                  P: Image -> bool, Q: Image -> bool)
    requires AllSince(trace, since, dev, base, Q) && trace <= trace' && AllSince(trace', |trace|, dev, mid, P)
    requires forall d :: P(d) ==> Q(d)
    requires dev in mid && mid == base[dev := mid[dev]]
    ensures AllSince(trace', since, dev, base, Q)
  {
    forall k | since <= k < |trace'|
      ensures dev in trace'[k] && Q(trace'[k][dev]) && trace'[k] == base[dev := trace'[k][dev]]
    {
      if k < |trace| {
        assert trace'[k] == trace[k];
      }
    }
  }

  /** The commit point: a header over full slots makes the image recover to the logged contents. */
  lemma CommitPoint(c: Layout, d0: Image, v: Image, d: Image, h: Block, blocks: seq<nat>)
    requires GoodImage(c, d0) && |v| == c.nblocks && SlotsOnly(c, d0, d) && Fits(c, blocks)
    requires Word(h, 0) == |blocks| && HeaderBlocks(h) == blocks
    requires forall i :: 0 <= i < |blocks| ==> d[c.start + 1 + i] == v[blocks[i]]
    requires forall b: nat :: c.Home(b) && b !in blocks ==> v[b] == d0[b]
    ensures RecoversTo(c, d[c.start := h], v)
  {
    hide Word;
    var d2 := d[c.start := h];
    forall b: nat | c.Home(b)
      ensures GoodImage(c, d2) && RecoveredBlock(c, d2, b) == v[b]
    {
    }
  }

  lemma EmptyIsGood(c: Layout, d: Image)
    requires c.Valid() && |d| == c.nblocks && Word(d[c.start], 0) == 0
    ensures GoodImage(c, d)
  {
  }

  lemma ErasedRecovers(c: Layout, d: Image, d': Image, home: Image)
    requires c.Valid() && |d| == |d'| == |home| == c.nblocks && Word(d'[c.start], 0) == 0
    requires forall b: nat :: c.Home(b) ==> d'[b] == d[b] == home[b]
    ensures RecoversTo(c, d', home)
  {
    hide Word;
    EmptyIsGood(c, d');
  }

  /** With every listed block installed, home blocks hold what the image recovered to. */
  lemma {:induction false} PrefixInstalls(c: Layout, d: Image, base: Image, blocks: seq<nat>, k: nat, i: nat)
    requires Fits(c, blocks) && i < k <= |blocks| && c.start + c.size <= |d| == |base| == c.nblocks
    ensures InstalledPrefix(c, d, base, blocks, k)[blocks[i]] == d[c.start + 1 + i]
    decreases k
  {
    if i < k - 1 {
      PrefixInstalls(c, d, base, blocks, k - 1, i);
      assert blocks[i] != blocks[k - 1];
    }
  }

  lemma InstalledIsRecovered(c: Layout, d: Image, base: Image, b: nat)
    requires GoodImage(c, d) && |base| == |d| && c.Home(b)
    requires b !in HeaderBlocks(d[c.start]) ==> base[b] == d[b]
    ensures var blocks := HeaderBlocks(d[c.start]);
            InstalledPrefix(c, d, base, blocks, |blocks|)[b] == RecoveredBlock(c, d, b)
  {
    hide Word, InstalledPrefix;
    var blocks := HeaderBlocks(d[c.start]);
    assert blocks[..|blocks|] == blocks;
    if b in blocks {
      PrefixInstalls(c, d, base, blocks, |blocks|, IndexOf(blocks, b));
    } else {
      PrefixKeepsSlots(c, d, base, blocks, |blocks|, b);
    }
  }

  /** The blocks that commit() and recover_from_log() read and write. */
  predicate Mine(c: Layout, blocks: seq<nat>, b: nat) {
    c.start <= b < c.start + c.size || b in blocks
  }

  /** A buffer that some process holds is of another block. */
  predicate Elsewhere(buf: Buf, dev: nat, c: Layout, blocks: seq<nat>) {
    buf.locked && buf.dev == dev ==> !Mine(c, blocks, buf.blockno)
  }

  // ---- The steps of LogProtocol.dfy ---------------------------------------------------------------

  /** What commit() and recover_from_log() do to the disk. */
  predicate CommitStep(step: Protocol.Step) {
    step.LogBlock? || step.WriteHead? || step.InstallBlock? || step.EraseHead?
  }

  /** Steps of the protocol taken since `start`, one for each disk state from index `since` of a trace on. */
  datatype Progress = Progress(start: Protocol.State, steps: seq<Protocol.Step>, now: Protocol.State, since: nat)

  ghost predicate Seen(c: Layout, dev: nat, trace: seq<Disks>, g: Progress, i: nat)
    requires i < |g.steps| && g.since + i < |trace|
  {
    var s := Protocol.Run(c, g.start, g.steps[..i + 1]);
    CommitStep(g.steps[i]) && s.Some? && dev in trace[g.since + i] && trace[g.since + i][dev] == s.value.disk
  }

  /** The trace is what the protocol does to the disk in a run of these steps. */
  ghost predicate Followed(c: Layout, dev: nat, trace: seq<Disks>, g: Progress) {
    && Protocol.Run(c, g.start, g.steps) == Some(g.now) && |trace| == g.since + |g.steps|
    && forall i :: 0 <= i < |g.steps| ==> Seen(c, dev, trace, g, i)
  }

  /** A state of the protocol with this disk, seen like this by readers, and this list of logged blocks. */
  ghost predicate Mirrors(s: Protocol.State, d: Image, v: Image, bs: seq<nat>) {
    s.disk == d && s.lh == bs && |v| == |d| && forall b: nat :: b < |d| ==> s.View(b) == v[b]
  }

  ghost function Advance(c: Layout, g: Progress, step: Protocol.Step): Progress
    requires Protocol.Enabled(c, g.now, step)
  {
    Progress(g.start, g.steps + [step], Protocol.Apply(c, g.now, step), g.since)
  }

  ghost function NoProgress(s: Protocol.State, since: nat): Progress {
    Progress(s, [], s, since)
  }

  lemma FollowedMore(c: Layout, dev: nat, trace: seq<Disks>, g: Progress, step: Protocol.Step, disk: Disks)
    requires Followed(c, dev, trace, g) && Protocol.Enabled(c, g.now, step) && CommitStep(step)
    requires dev in disk && disk[dev] == Protocol.Apply(c, g.now, step).disk
    ensures Followed(c, dev, trace + [disk], Advance(c, g, step))
  {
    hide Protocol.Apply, Protocol.Enabled;
    var g', t' := Advance(c, g, step), trace + [disk];
    assert g'.steps[..|g.steps|] == g.steps && g'.steps[..|g'.steps|] == g'.steps;
    forall i | 0 <= i < |g'.steps| ensures Seen(c, dev, t', g', i) {
      if i < |g.steps| {
        assert Seen(c, dev, trace, g, i);
        assert g'.steps[..i + 1] == g.steps[..i + 1];
      }
    }
  }

  lemma WriteMirrors(s: Protocol.State, d: Image, v: Image, bs: seq<nat>, y: nat, x: Block, t: Protocol.State,
                     bs': seq<nat>)
    requires Mirrors(s, d, v, bs) && y < |d| && t.disk == d[y := x] && t.cache == s.cache[y := x] && t.lh == bs'
    ensures Mirrors(t, d[y := x], v[y := x], bs')
  {
  }

  /** write_log copies one block. */
  lemma LogBlockStep(c: Layout, dev: nat, trace: seq<Disks>, g: Progress, d: Image, v: Image, bs: seq<nat>, k: nat,
                     disk: Disks)
    requires c.Valid() && |d| == c.nblocks && Fits(c, bs) && k < |bs| && bs[k] < |d| && c.start + k + 1 < |d|
    requires Followed(c, dev, trace, g) && Mirrors(g.now, d, v, bs) && g.now.pc == Protocol.Logging(k)
    requires dev in disk && disk[dev] == d[c.start + k + 1 := v[bs[k]]]
    ensures Protocol.Enabled(c, g.now, Protocol.LogBlock)
    ensures var g' := Advance(c, g, Protocol.LogBlock);
            && Followed(c, dev, trace + [disk], g') && g'.now.pc == Protocol.Logging(k + 1)
            && Mirrors(g'.now, disk[dev], v[c.start + k + 1 := v[bs[k]]], bs)
  {
    hide Followed;
    FollowedMore(c, dev, trace, g, Protocol.LogBlock, disk);
    WriteMirrors(g.now, d, v, bs, c.start + k + 1, v[bs[k]], Protocol.Apply(c, g.now, Protocol.LogBlock), bs);
  }

  /** install_trans copies one block. */
  lemma InstallStep(c: Layout, dev: nat, trace: seq<Disks>, g: Progress, d: Image, v: Image, bs: seq<nat>, k: nat,
                    disk: Disks)
    requires c.Valid() && |d| == c.nblocks && Fits(c, bs) && k < |bs| && bs[k] < |d| && c.start + k + 1 < |d|
    requires Followed(c, dev, trace, g) && Mirrors(g.now, d, v, bs) && Installs(g.now.pc, k)
    requires dev in disk && disk[dev] == d[bs[k] := v[c.start + k + 1]]
    ensures Protocol.Enabled(c, g.now, Protocol.InstallBlock)
    ensures var g' := Advance(c, g, Protocol.InstallBlock);
            && Followed(c, dev, trace + [disk], g') && Installs(g'.now.pc, k + 1)
            && g'.now.pc.Installing? == g.now.pc.Installing?
            && Mirrors(g'.now, disk[dev], v[bs[k] := v[c.start + k + 1]], bs)
  {
    hide Followed;
    FollowedMore(c, dev, trace, g, Protocol.InstallBlock, disk);
    WriteMirrors(g.now, d, v, bs, bs[k], v[c.start + k + 1], Protocol.Apply(c, g.now, Protocol.InstallBlock), bs);
  }

  predicate Installs(pc: Protocol.Pc, k: nat) {
    pc == Protocol.Installing(k) || pc == Protocol.Replaying(k)
  }

  /** write_head: the commit point. */
  lemma HeadStep(c: Layout, dev: nat, trace: seq<Disks>, g: Progress, d: Image, v: Image, bs: seq<nat>, disk: Disks)
    requires c.Valid() && |d| == c.nblocks && |bs| <= LOGSIZE && (forall i :: 0 <= i < |bs| ==> bs[i] < UINT_LIMIT)
    requires Followed(c, dev, trace, g) && Mirrors(g.now, d, v, bs) && g.now.pc == Protocol.Logging(|bs|) &&
             c.start < |d|
    requires dev in disk && disk[dev] == d[c.start := EncodeHeader(v[c.start], bs)]
    ensures Protocol.Enabled(c, g.now, Protocol.WriteHead)
    ensures var g' := Advance(c, g, Protocol.WriteHead);
            && Followed(c, dev, trace + [disk], g') && g'.now.pc == Protocol.Installing(0)
            && Mirrors(g'.now, disk[dev], v[c.start := EncodeHeader(v[c.start], bs)], bs)
  {
    hide Followed;
    FollowedMore(c, dev, trace, g, Protocol.WriteHead, disk);
    WriteMirrors(g.now, d, v, bs, c.start, EncodeHeader(v[c.start], bs), Protocol.Apply(c, g.now, Protocol.WriteHead),
        bs);
  }

  /** write_head of an empty log: the end of the transaction. */
  lemma EraseStep(c: Layout, dev: nat, trace: seq<Disks>, g: Progress, d: Image, v: Image, bs: seq<nat>, disk: Disks)
    requires c.Valid() && |d| == c.nblocks && |bs| <= LOGSIZE && (forall i :: 0 <= i < |bs| ==> bs[i] < UINT_LIMIT)
    requires Followed(c, dev, trace, g) && Mirrors(g.now, d, v, bs) && Installs(g.now.pc, |bs|) && c.start < |d|
    requires dev in disk && disk[dev] == d[c.start := EncodeHeader(v[c.start], [])]
    ensures Protocol.Enabled(c, g.now, Protocol.EraseHead)
    ensures var g' := Advance(c, g, Protocol.EraseHead);
            && Followed(c, dev, trace + [disk], g') &&
               g'.now.pc == (if g.now.pc.Installing? then Protocol.Erased else Protocol.Idle)
            && Mirrors(g'.now, disk[dev], v[c.start := EncodeHeader(v[c.start], [])], [])
  {
    hide Followed;
    FollowedMore(c, dev, trace, g, Protocol.EraseHead, disk);
    WriteMirrors(g.now, d, v, bs, c.start, EncodeHeader(v[c.start], []), Protocol.Apply(c, g.now, Protocol.EraseHead),
        []);
  }

  lemma NothingFollowed(c: Layout, dev: nat, trace: seq<Disks>, s: Protocol.State)
    ensures Followed(c, dev, trace, NoProgress(s, |trace|))
  {
  }

  /** read_head of a machine just switched on. */
  lemma ColdStart(c: Layout, s: Protocol.State, d: Image)
    requires c.Valid() && |d| == c.nblocks && GoodImage(c, d) && s.pc == Protocol.Boot && s.disk == d &&
             forall b: nat :: b < |d| ==> s.View(b) == d[b]
    ensures Protocol.Enabled(c, s, Protocol.ReadHead)
    ensures var t := Protocol.Apply(c, s, Protocol.ReadHead);
            Mirrors(t, d, d, HeaderBlocks(d[c.start])) && t.pc == Protocol.Replaying(0)
  {
  }

  class Log {
    const cache: Cache
    const dev: nat
    const c: Layout
    const block: array<nat>     // log.lh.block
    var n: nat                  // log.lh.n
    var outstanding: nat
    var committing: bool

    ghost predicate Shaped()
      reads this, cache
    {
      && c.Valid()
      && block.Length == LOGSIZE
      && n <= LOGSIZE
      && cache.Valid()
      && dev in cache.disk && |cache.disk[dev]| == c.nblocks
    }

    /** Nobody is changing a buffer, and nobody holds one that a commit would have to wait for. */
    ghost predicate Quiet()
      reads this, cache, block
    {
      Shaped() && cache.touched == {} && forall i :: 0 <= i < NBUF ==> Elsewhere(cache.buf[i], dev, c, Blocks())
    }

    /** Nobody holds a buffer: the machine has just been switched on. */
    ghost predicate Alone()
      reads this, cache
    {
      Shaped() && cache.touched == {} && forall i :: 0 <= i < NBUF ==> !cache.buf[i].locked
    }

    ghost function Disk(): (d: Image)
      requires Shaped()
      reads this, cache
    {
      cache.disk[dev]
    }

    ghost function Blocks(): (s: seq<nat>)
      requires Shaped()
      reads this, cache, block
    {
      block[..n]
    }

    /** The device as readers see it. */
    ghost function Views(): (d: Image)
      requires Shaped()
      reads this, cache
      ensures |d| == c.nblocks
    {
      ViewsOf(cache.buf, cache.disk, dev)
    }

    /** The blocks of the device that have a pinned buffer. */
    ghost function Pinned(): set<nat>
      reads this, cache
    {
      PinnedBlocks(cache.buf, dev)
    }

    constructor (cache: Cache, dev: nat, c: Layout)
      requires c.Valid() && cache.Valid() && dev in cache.disk && |cache.disk[dev]| == c.nblocks
      ensures Shaped() && this.cache == cache && this.dev == dev && this.c == c && n == 0
      ensures outstanding == 0 && !committing && fresh(block)
    {
      this.cache, this.dev, this.c := cache, dev, c;
      n, outstanding, committing := 0, 0, false;
      block := new nat[LOGSIZE];
    }

    /** A block that is not pinned reads as it is on the disk. */
    lemma UnpinnedIsOnDisk(b: nat)
      requires Quiet() && b < c.nblocks && b !in Pinned()
      ensures Views()[b] == Disk()[b]
    {
      if i: nat :| Caches(cache.buf, i, dev, b) {
        LatestIs(cache.buf, cache.ring, cache.disk, i);
        assert BufOk(cache.buf[i], cache.disk, false);
      }
    }

    /** Buffer i is locked by this process, for block b of the device. */
    ghost predicate Holds(i: nat, b: nat)
      requires Shaped()
      reads this, cache
    {
      && i < NBUF && b < c.nblocks
      && cache.buf[i].For(dev, b) && cache.buf[i].valid && cache.buf[i].locked
      && cache.buf[i].data == Views()[b]
    }

    /** bread of two blocks, one after the other; `None` is a panic. */
    method BreadTwo(x: nat, y: nat) returns (r: Option<(nat, nat)>)
      requires Quiet() && x != y && Mine(c, Blocks(), x) && Mine(c, Blocks(), y) && x < c.nblocks && y < c.nblocks
      modifies cache`buf
      ensures Shaped()
      ensures NoBuffer(old(cache.buf), dev, x) ==> r.None?
      ensures r.None? ==> Scarce(old(cache.buf), dev, [x]) && Scarce(old(cache.buf), dev, [y])
      ensures r.Some? ==> Lent(old(cache.buf), cache.buf, r.value.0, r.value.1)
      ensures r.Some? ==>
                && Views() == old(Views())
                && Holds(r.value.0, x) && Holds(r.value.1, y)
                && forall k :: 0 <= k < NBUF && k != r.value.0 && k != r.value.1 ==>
                   Elsewhere(cache.buf[k], dev, c, Blocks())
    {
      hide Latest, Unique, Ring, Scarce, PinnedBlocks;
      assert InRange(cache.disk, dev, x) && InRange(cache.disk, dev, y);
      assert forall j :: 0 <= j < NBUF && cache.buf[j].dirty ==> cache.buf[j].Live() by {
        assert forall j: nat :: j < NBUF ==> BufOk(cache.buf[j], cache.disk, j in cache.touched);
      }
      hide Clean;
      var first := cache.Bread(dev, x);
      if first.None? {
        NoneBefore(cache.buf, cache.buf, dev, [x]);
        NoneBefore(cache.buf, cache.buf, dev, [y]);
        return None;
      }
      ghost var buf1 := cache.buf;
      var second := cache.Bread(dev, y);
      if second.None? {
        SecondFails(old(cache.buf), buf1, first.value, dev, x, y);
        return None;
      }
      assert Views() == old(Views());
      return Some((first.value, second.value));
    }

    /** memmove(to->data, from->data, BSIZE); bwrite(to); brelse(from); brelse(to) */
    method CopyAndRelease(from: nat, to: nat, ghost x: nat, ghost y: nat)
      requires Shaped() && cache.touched == {} && x != y && Holds(from, x) && Holds(to, y)
      requires forall k :: 0 <= k < NBUF && k != from && k != to ==> Elsewhere(cache.buf[k], dev, c, Blocks())
      modifies cache
      ensures Quiet() && y !in Pinned() && Returned(old(cache.buf), cache.buf, from, to, to)
      ensures Wrote(old(cache.disk), old(cache.trace), y, old(Views())[x])
      ensures Views() == old(Views())[y := old(Views())[x]]
    {
      hide Latest, Clean, Unique, Ring;
      ghost var after := Views()[y := Views()[x]];
      cache.Modify(to, cache.buf[from].data);
      forall b: nat | b < c.nblocks
        ensures Views()[b] == after[b]
      {
        assert Views()[b] == cache.View(dev, b) && old(Views()[b] == cache.View(dev, b));
      }
      assert Views() == after;
      ghost var buf1, disk1 := cache.buf, cache.disk;
      cache.Bwrite(to);
      SameViews(buf1, disk1, cache.buf, cache.disk, dev);
      buf1 := cache.buf;
      cache.Brelse(from);
      SameViews(buf1, cache.disk, cache.buf, cache.disk, dev);
      buf1 := cache.buf;
      cache.Brelse(to);
      SameViews(buf1, cache.disk, cache.buf, cache.disk, dev);
      CleanNotPinned(cache.buf, cache.ring, cache.disk, cache.touched, to);
    }

    /** One block write happened since: block b of the device became x. */
    ghost predicate Wrote(disk: Disks, trace: seq<Disks>, b: nat, x: Block)
      requires Shaped()
      reads this, cache
    {
      && InRange(disk, dev, b)
      && cache.disk == DiskWrite(disk, dev, b, x)
      && cache.trace == trace + [cache.disk]
    }

    /** Copy block x to block y through the cache, and write y. */
    method CopyBlock(x: nat, y: nat, toFirst: bool) returns (ok: bool)
      requires Quiet() && x != y && Mine(c, Blocks(), x) && Mine(c, Blocks(), y) && x < c.nblocks && y < c.nblocks
      modifies cache
      ensures Shaped() && Blocks() == old(Blocks())
      ensures !ok ==> cache.trace == old(cache.trace) && cache.disk == old(cache.disk)
      ensures !ok ==> Scarce(old(cache.buf), dev, [x]) && Scarce(old(cache.buf), dev, [y])
      ensures NoBuffer(old(cache.buf), dev, if toFirst then y else x) ==> !ok
      ensures ok ==> NoWorse(old(cache.buf), cache.buf) && Pinned() == old(Pinned()) - {y}
      ensures ok ==>
                && Quiet()
                && Wrote(old(cache.disk), old(cache.trace), y, old(Views())[x])
                && Views() == old(Views())[y := old(Views())[x]]
    {
      hide ViewsOf, Cache.Valid, Scarce, PinnedBlocks, Lent, Returned, NoWorse;
      if toFirst {
        var got := BreadTwo(y, x);
        if got.None? {
          return false;
        }
        ghost var buf1 := cache.buf;
        cache.TouchedIsHeld();
        CopyAndRelease(got.value.1, got.value.0, x, y);
        Swapped(buf1, cache.buf, got.value.1, got.value.0, got.value.0);
        LentAndReturned(old(cache.buf), buf1, cache.buf, got.value.0, got.value.1, got.value.0, dev, y);
      } else {
        var got := BreadTwo(x, y);
        if got.None? {
          return false;
        }
        ghost var buf1 := cache.buf;
        cache.TouchedIsHeld();
        CopyAndRelease(got.value.0, got.value.1, x, y);
        LentAndReturned(old(cache.buf), buf1, cache.buf, got.value.0, got.value.1, got.value.1, dev, y);
      }
      return true;
    }

    /** One round of write_log. */
    method LogOne(tail: nat, ghost g0: Progress) returns (ok: bool, ghost g: Progress)
      requires Quiet() && Fits(c, Blocks()) && tail < |Blocks()|
      requires Followed(c, dev, cache.trace, g0) && Mirrors(g0.now, Disk(), Views(), Blocks())
      requires g0.now.pc == Protocol.Logging(tail)
      modifies cache
      ensures Shaped() && Blocks() == old(Blocks()) && g.start == g0.start && g.since == g0.since
      ensures !ok ==> cache.trace == old(cache.trace) && cache.disk == old(cache.disk)
      ensures ok ==>
                && Quiet() && c.start + tail + 1 < c.nblocks && block[tail] < c.nblocks
                && var x := old(Views())[block[tail]];
                && Wrote(old(cache.disk), old(cache.trace), c.start + tail + 1, x)
                && Views() == old(Views())[c.start + tail + 1 := x]
      ensures !ok ==> Scarce(old(cache.buf), dev, [block[tail]])
      ensures NoBuffer(old(cache.buf), dev, c.start + tail + 1) ==> !ok
      ensures ok ==> NoWorse(old(cache.buf), cache.buf) && Pinned() == old(Pinned()) - {c.start + tail + 1}
      ensures Followed(c, dev, cache.trace, g)
      ensures ok ==> Mirrors(g.now, Disk(), Views(), Blocks()) && g.now.pc == Protocol.Logging(tail + 1)
    {
      hide ViewsOf, Cache.Valid, Followed, Mirrors, Protocol.Apply, Protocol.Enabled, Scarce, PinnedBlocks, NoWorse,
          NoBuffer;
      assert block[tail] == Blocks()[tail] && c.Home(block[tail]);
      ghost var d, v, trace := Disk(), Views(), cache.trace;
      ok := CopyBlock(block[tail], c.start + tail + 1, true);
      g := g0;
      if ok {
        LogBlockStep(c, dev, trace, g0, d, v, Blocks(), tail, cache.disk);
        g := Advance(c, g0, Protocol.LogBlock);
      }
    }

    /** write_log: copy every logged block from the cache to its slot. */
    method WriteLog(ghost g0: Progress) returns (ok: bool, ghost g: Progress)
      requires Quiet() && Fits(c, Blocks())
      requires Followed(c, dev, cache.trace, g0) && Mirrors(g0.now, Disk(), Views(), Blocks()) &&
               g0.now.pc == Protocol.Logging(0)
      modifies cache
      ensures Shaped() && Blocks() == old(Blocks()) && old(cache.trace) <= cache.trace
      ensures var d0 := old(Disk());
              AllSince(cache.trace, |old(cache.trace)|, dev, old(cache.disk), d => SlotsOnly(c, d0, d))
      ensures ok ==>
                && Quiet() && Pinned() <= old(Pinned())
                && cache.disk == old(cache.disk)[dev := cache.disk[dev]]
                && SlotsOnly(c, old(Disk()), Disk()) && SlotsOnly(c, old(Views()), Views())
                && |Blocks()| < c.size &&
                   forall i :: 0 <= i < |Blocks()| ==> Disk()[c.start + 1 + i] == old(Views())[Blocks()[i]]
      ensures !ok ==> Scarce(old(cache.buf), dev, Blocks())
      ensures n > 0 && NoBuffer(old(cache.buf), dev, c.start + 1) ==> !ok
      ensures ok ==> Eased(old(cache.buf), cache.buf, dev, Blocks())
      ensures Followed(c, dev, cache.trace, g) && g.start == g0.start && g.since == g0.since
      ensures ok ==> Mirrors(g.now, Disk(), Views(), Blocks()) && g.now.pc == Protocol.Logging(n)
    {
      hide ViewsOf, Cache.Valid, AllSince, Followed, Mirrors, Scarce, Eased, PinnedBlocks, NoWorse, NoBuffer;
      NotEased(cache.buf, dev, Blocks());
      var tail := 0;
      g := g0;
      ghost var d0, v0, since := Disk(), Views(), |cache.trace|;
      ghost var P: Image -> bool := d => SlotsOnly(c, d0, d);
      assert AllSince(cache.trace, since, dev, cache.disk, P) by { NoneSince(cache.trace, dev, cache.disk, P); }
      while tail < n
        invariant 0 <= tail <= n && Quiet() && Blocks() == old(Blocks()) && old(cache.trace) <= cache.trace
        invariant AllSince(cache.trace, since, dev, old(cache.disk), P)
        invariant Eased(old(cache.buf), cache.buf, dev, Blocks())
        invariant tail == 0 ==> cache.buf == old(cache.buf)
        invariant tail > 0 ==> !NoBuffer(old(cache.buf), dev, c.start + 1)
        invariant Followed(c, dev, cache.trace, g) && g.start == g0.start && g.since == g0.since
        invariant Mirrors(g.now, Disk(), Views(), Blocks()) && g.now.pc == Protocol.Logging(tail)
        invariant cache.disk == old(cache.disk)[dev := cache.disk[dev]]
        invariant SlotsOnly(c, d0, Disk()) && SlotsOnly(c, v0, Views()) && Pinned() <= old(Pinned())
        invariant forall i :: 0 <= i < tail ==> Disk()[c.start + 1 + i] == v0[block[i]]
      {
        assert block[tail] == Blocks()[tail] && c.Home(block[tail]);
        ghost var trace, buf1 := cache.trace, cache.buf;
        var done;
        done, g := LogOne(tail, g);
        if !done {
          EasedSome(old(cache.buf), buf1, dev, Blocks(), block[tail]);
          ScarceBefore(old(cache.buf), buf1, dev, Blocks(), [block[tail]]);
          return false, g;
        }
        EasedMore(old(cache.buf), buf1, cache.buf, dev, Blocks(), c.start + tail + 1, Blocks());
        OneMoreSince(trace, since, dev, old(cache.disk), P, cache.disk);
        tail := tail + 1;
      }
      return true, g;
    }

    /** write_head: the one block write that commits, or erases, the whole log. */
    method WriteHead() returns (ok: bool)
      requires Quiet() && forall i :: 0 <= i < n ==> block[i] < UINT_LIMIT
      modifies cache
      ensures Shaped() && Blocks() == old(Blocks())
      ensures !ok ==> cache.trace == old(cache.trace) && cache.disk == old(cache.disk)
      ensures !ok <==> NoBuffer(old(cache.buf), dev, c.start)
      ensures ok ==> NoWorse(old(cache.buf), cache.buf) && Pinned() == old(Pinned()) - {c.start}
      ensures ok ==>
                && Quiet()
                && var h := EncodeHeader(old(Views())[c.start], Blocks());
                && Wrote(old(cache.disk), old(cache.trace), c.start, h)
                && Views() == old(Views())[c.start := h]
    {
      hide Latest, Clean, Unique, Ring, Word, PutWord;
      var got := cache.Bread(dev, c.start);
      if got.None? {
        return false;
      }
      var i := got.value;
      ghost var lent := cache.buf;
      var hb := PutWord(cache.buf[i].data, 0, n);
      ghost var hb0 := hb;
      for k := 0 to n
        invariant hb == PutEntries(hb0, Blocks(), k)
      {
        assert Blocks()[k] == block[k];
        hb := PutWord(hb, k + 1, block[k]);
      }
      cache.Modify(i, hb);
      forall b: nat | b < c.nblocks
        ensures Views()[b] == old(Views())[c.start := hb][b]
      {
        assert Views()[b] == cache.View(dev, b) && old(Views()[b] == cache.View(dev, b));
      }
      assert Views() == old(Views())[c.start := hb];
      ghost var buf1, disk1 := cache.buf, cache.disk;
      cache.Bwrite(i);
      SameViews(buf1, disk1, cache.buf, cache.disk, dev);
      buf1 := cache.buf;
      cache.Brelse(i);
      SameViews(buf1, cache.disk, cache.buf, cache.disk, dev);
      CleanNotPinned(cache.buf, cache.ring, cache.disk, cache.touched, i);
      LentAndReturned(old(cache.buf), lent, cache.buf, i, i, i, dev, c.start);
      return true;
    }

    /** One round of install_trans. */
    method InstallOne(tail: nat, ghost g0: Progress) returns (ok: bool, ghost g: Progress)
      requires Quiet() && Fits(c, Blocks()) && tail < |Blocks()|
      requires Followed(c, dev, cache.trace, g0) && Mirrors(g0.now, Disk(), Views(), Blocks()) &&
               Installs(g0.now.pc, tail)
      modifies cache
      ensures Shaped() && Blocks() == old(Blocks()) && g.start == g0.start && g.since == g0.since
      ensures !ok ==> cache.trace == old(cache.trace) && cache.disk == old(cache.disk)
      ensures ok ==>
                && Quiet() && c.start + tail + 1 < c.nblocks
                && var x := old(Views())[c.start + tail + 1];
                && Wrote(old(cache.disk), old(cache.trace), block[tail], x)
                && Views() == old(Views())[block[tail] := x]
      ensures !ok ==> Scarce(old(cache.buf), dev, [block[tail]])
      ensures ok ==> NoWorse(old(cache.buf), cache.buf) && Pinned() == old(Pinned()) - {block[tail]}
      ensures Followed(c, dev, cache.trace, g)
      ensures ok ==> Mirrors(g.now, Disk(), Views(), Blocks()) && Installs(g.now.pc, tail + 1)
      ensures ok ==> g.now.pc.Installing? == g0.now.pc.Installing?
    {
      hide ViewsOf, Cache.Valid, Followed, Mirrors, Protocol.Apply, Protocol.Enabled, Scarce, PinnedBlocks, NoWorse;
      assert block[tail] == Blocks()[tail] && c.Home(block[tail]);
      ghost var d, v, trace := Disk(), Views(), cache.trace;
      ok := CopyBlock(c.start + tail + 1, block[tail], false);
      g := g0;
      if ok {
        InstallStep(c, dev, trace, g0, d, v, Blocks(), tail, cache.disk);
        g := Advance(c, g0, Protocol.InstallBlock);
      }
    }

    /** install_trans: copy every slot to its home block. */
    method InstallTrans(ghost g0: Progress) returns (ok: bool, ghost g: Progress)
      requires Quiet() && Fits(c, Blocks())
      requires Followed(c, dev, cache.trace, g0) && Mirrors(g0.now, Disk(), Views(), Blocks()) && Installs(g0.now.pc, 0)
      requires forall b: nat :: c.start < b < c.start + c.size ==> Views()[b] == Disk()[b]
      modifies cache
      ensures Shaped() && Blocks() == old(Blocks()) && old(cache.trace) <= cache.trace
      ensures var d0, bs := old(Disk()), old(Blocks());
              AllSince(cache.trace, |old(cache.trace)|, dev, old(cache.disk),
                  d => |d| == |d0| && PartlyInstalled(c, bs, d0, d))
      ensures ok ==>
                && Quiet() && Pinned() <= old(Pinned())
                && cache.disk == old(cache.disk)[dev := cache.disk[dev]]
                && Disk() == InstalledPrefix(c, old(Disk()), old(Disk()), Blocks(), n)
                && Views() == InstalledPrefix(c, old(Disk()), old(Views()), Blocks(), n)
                && forall i :: 0 <= i < n ==> block[i] !in Pinned()
      ensures !ok ==> Scarce(old(cache.buf), dev, Blocks())
      ensures ok ==> NoWorse(old(cache.buf), cache.buf)
      ensures Followed(c, dev, cache.trace, g) && g.start == g0.start && g.since == g0.since
      ensures ok ==> Mirrors(g.now, Disk(), Views(), Blocks()) && Installs(g.now.pc, n)
      ensures ok ==> g.now.pc.Installing? == g0.now.pc.Installing?
    {
      hide ViewsOf, Cache.Valid, PartlyInstalled, IndexOf, Slot, AllSince, Followed, Mirrors, Installs, InstalledPrefix;
      hide PinnedBlocks, Scarce, Eased, NoWorse;
      NotEased(cache.buf, dev, Blocks());
      assert block[..n] == Blocks()[0..];
      var tail := 0;
      g := g0;
      ghost var d0, v0, since, bs := Disk(), Views(), |cache.trace|, Blocks();
      ghost var P: Image -> bool := d => |d| == |d0| && PartlyInstalled(c, bs, d0, d);
      assert AllSince(cache.trace, since, dev, cache.disk, P) by { NoneSince(cache.trace, dev, cache.disk, P); }
      NothingInstalled(c, bs, d0);
      PrefixNone(c, d0, d0, bs);
      PrefixNone(c, d0, v0, bs);
      while tail < n
        invariant 0 <= tail <= n && Quiet() && Blocks() == bs && old(cache.trace) <= cache.trace
        invariant AllSince(cache.trace, since, dev, old(cache.disk), P)
        invariant Eased(old(cache.buf), cache.buf, dev, bs[tail..])
        invariant Followed(c, dev, cache.trace, g) && g.start == g0.start && g.since == g0.since
        invariant Mirrors(g.now, Disk(), Views(), Blocks()) && Installs(g.now.pc, tail)
        invariant g.now.pc.Installing? == g0.now.pc.Installing?
        invariant cache.disk == old(cache.disk)[dev := cache.disk[dev]]
        invariant Disk() == InstalledPrefix(c, d0, d0, bs, tail)
        invariant Views() == InstalledPrefix(c, d0, v0, bs, tail)
        invariant P(Disk())
        invariant Pinned() <= old(Pinned())
        invariant forall i :: 0 <= i < tail ==> block[i] !in Pinned()
      {
        assert block[tail] == bs[tail] && c.Home(block[tail]);
        ghost var before, trace, buf1 := Disk(), cache.trace, cache.buf;
        PrefixMore(c, d0, d0, bs, tail);
        PrefixMore(c, d0, v0, bs, tail);
        var done;
        done, g := InstallOne(tail, g);
        if !done {
          EasedSome(old(cache.buf), buf1, dev, bs[tail..], bs[tail]);
          ScarceBefore(old(cache.buf), buf1, dev, bs, [bs[tail]]);
          return false, g;
        }
        NotAgain(bs, tail);
        EasedMore(old(cache.buf), buf1, cache.buf, dev, bs[tail..], bs[tail], bs[tail + 1..]);
        OneMoreInstalled(c, bs, d0, before, tail);
        OneMoreSince(trace, since, dev, old(cache.disk), P, cache.disk);
        tail := tail + 1;
      }
      EasedIsNoWorse(old(cache.buf), cache.buf, dev, bs[tail..]);
      return true, g;
    }

    /** commit from its commit point on, and the tail of recover_from_log. */
    method InstallAndErase(ghost home: Image, ghost g0: Progress) returns (ok: bool, ghost g: Progress)
      requires Quiet() && RecoversTo(c, Disk(), home) && Blocks() == HeaderBlocks(Disk()[c.start])
      requires forall b: nat :: b < c.nblocks && b !in Blocks() ==> Views()[b] == Disk()[b]
      requires Followed(c, dev, cache.trace, g0) && Mirrors(g0.now, Disk(), Views(), Blocks()) && Installs(g0.now.pc, 0)
      modifies cache, this`n
      ensures Shaped() && old(cache.trace) <= cache.trace
      ensures AllSince(cache.trace, |old(cache.trace)|, dev, old(cache.disk), d => RecoversTo(c, d, home))
      ensures !ok ==> Scarce(old(cache.buf), dev, old(Blocks()))
      ensures ok ==> NoWorse(old(cache.buf), cache.buf) && cache.disk == old(cache.disk)[dev := cache.disk[dev]]
      ensures Followed(c, dev, cache.trace, g) && g.start == g0.start && g.since == g0.since
      ensures ok ==>
                && Mirrors(g.now, Disk(), Views(), Blocks()) &&
                   g.now.pc == (if g0.now.pc.Installing? then Protocol.Erased else Protocol.Idle)
                && Quiet() && n == 0 && Word(Disk()[c.start], 0) == 0
                && Pinned() <= old(Pinned()) - (set b | b in old(Blocks()))
                && forall b: nat :: c.Home(b) ==> Disk()[b] == Views()[b] == home[b]
    {
      hide ViewsOf, Cache.Valid, AllSince, Word, EncodeHeader, HeaderBlocks, InstalledPrefix, PartlyInstalled;
      hide PinnedBlocks, Scarce, NoWorse, RecoveredBlock, Followed, Mirrors, Protocol.Apply, Protocol.Enabled;
      ghost var d2, v2, t2, bs := Disk(), Views(), cache.trace, Blocks();
      ghost var base := cache.disk;
      ghost var Q: Image -> bool := d => RecoversTo(c, d, home);
      NoneSince(t2, dev, base, Q);
      var installed;
      installed, g := InstallTrans(g0);
      ghost var P: Image -> bool := d => |d| == |d2| && PartlyInstalled(c, bs, d2, d);
      forall d | P(d) ensures Q(d) { PartlyInstalledRecovers(c, d2, d, home); }
      JoinSince(t2, cache.trace, |t2|, dev, base, base, P, Q);
      if !installed {
        return false, g;
      }
      forall b: nat | c.Home(b)
        ensures Disk()[b] == home[b] && Views()[b] == home[b]
      {
        InstalledIsRecovered(c, d2, d2, b);
        InstalledIsRecovered(c, d2, v2, b);
      }
      ghost var d3, v3, t3, buf3 := Disk(), Views(), cache.trace, cache.buf;
      n := 0;
      assert Blocks() == [];
      HeaderRoundTrip(Views()[c.start], []);
      var erased := WriteHead();
      if !erased {
        NoneBefore(old(cache.buf), buf3, dev, bs);
        return false, g;
      }
      EraseStep(c, dev, t3, g, d3, v3, bs, cache.disk);
      g := Advance(c, g, Protocol.EraseHead);
      ErasedRecovers(c, d3, Disk(), home);
      OneMoreSince(t3, |t2|, dev, base, Q, cache.disk);
      NoWorseTwice(old(cache.buf), buf3, cache.buf);
      return true, g;
    }

    /** commit up to its commit point: the blocks into the log, and the header behind them. */
    method ReachCommitPoint(ghost s: Protocol.State) returns (ok: bool, ghost g: Progress)
      requires Quiet() && Fits(c, Blocks()) && Word(Disk()[c.start], 0) == 0 && n > 0
      requires forall b :: b in Pinned() ==> b in Blocks()
      requires Mirrors(s, Disk(), Views(), Blocks()) && s.pc == Protocol.Logging(0)
      modifies cache
      ensures Shaped() && old(cache.trace) <= cache.trace
      ensures var d0, v0 := old(Disk()), old(Views());
              AllSince(cache.trace, |old(cache.trace)|, dev, old(cache.disk),
                       d => RecoversTo(c, d, d0) || RecoversTo(c, d, v0))
      ensures !ok ==> Scarce(old(cache.buf), dev, Blocks())
      ensures NoBuffer(old(cache.buf), dev, c.start + 1) ==> !ok
      ensures Followed(c, dev, cache.trace, g) && g.start == s && g.since == |old(cache.trace)|
      ensures ok ==>
                && Mirrors(g.now, Disk(), Views(), Blocks()) && Installs(g.now.pc, 0) && g.now.pc.Installing?
                && Quiet() && RecoversTo(c, Disk(), old(Views())) && Blocks() == HeaderBlocks(Disk()[c.start])
                && (forall b: nat :: b < c.nblocks && b !in Blocks() ==> Views()[b] == Disk()[b])
                && (forall b :: b in Pinned() ==> b in Blocks())
      ensures ok ==> Eased(old(cache.buf), cache.buf, dev, Blocks())
      ensures ok ==> cache.disk == old(cache.disk)[dev := cache.disk[dev]]
    {
      hide ViewsOf, Cache.Valid, AllSince, Word, EncodeHeader, HeaderBlocks, RecoversTo, InstalledPrefix,
          PartlyInstalled;
      hide PinnedBlocks, Scarce, Eased, NoWorse, Followed, Mirrors, Protocol.Apply, Protocol.Enabled;
      g := NoProgress(s, |cache.trace|);
      NothingFollowed(c, dev, cache.trace, s);
      ghost var d0, v0, t0, bs := Disk(), Views(), cache.trace, Blocks();
      ghost var base := cache.disk;
      ghost var Q: Image -> bool := d => RecoversTo(c, d, d0) || RecoversTo(c, d, v0);
      NoneSince(t0, dev, base, Q);
      forall b: nat | b < c.nblocks && b !in bs
        ensures v0[b] == d0[b]
      {
        UnpinnedIsOnDisk(b);
      }
      EmptyIsGood(c, d0);
      ok, g := WriteLog(g);
      ghost var P1: Image -> bool := d => SlotsOnly(c, d0, d);
      forall d | P1(d) ensures Q(d) { SlotsOnlyRecovers(c, d0, d); }
      JoinSince(t0, cache.trace, |t0|, dev, base, base, P1, Q);
      if !ok {
        return;
      }
      ghost var d1, v1, t1, buf1 := Disk(), Views(), cache.trace, cache.buf;
      HeaderRoundTrip(Views()[c.start], bs);
      ok := WriteHead();
      if !ok {
        EasedIsNoWorse(old(cache.buf), buf1, dev, bs);
        NoneBefore(old(cache.buf), buf1, dev, bs);
        return;
      }
      HeadStep(c, dev, t1, g, d1, v1, bs, cache.disk);
      g := Advance(c, g, Protocol.WriteHead);
      ghost var d2 := Disk();
      EasedMore(old(cache.buf), buf1, cache.buf, dev, bs, c.start, bs);
      CommitPoint(c, d0, v0, d1, d2[c.start], bs);
      assert d2 == d1[c.start := d2[c.start]];
      OneMoreSince(t1, |t0|, dev, base, Q, cache.disk);
      forall b: nat | b < c.nblocks && b !in bs
        ensures Views()[b] == Disk()[b]
      {
        UnpinnedIsOnDisk(b);
      }
    }

    /**
     commit.  After any block write the disk recovers to the home contents before the transaction
     or to those after all of it; when it returns, the latter are in place and the log is empty.
     */
    method Commit(ghost s: Protocol.State) returns (ok: bool, ghost g: Progress)
      requires Quiet() && Fits(c, Blocks()) && Word(Disk()[c.start], 0) == 0
      requires forall b :: b in Pinned() ==> b in Blocks()
      requires Mirrors(s, Disk(), Views(), Blocks()) && (n > 0 ==> s.pc == Protocol.Logging(0))
      modifies cache, this`n
      ensures Shaped() && old(cache.trace) <= cache.trace
      ensures var d0, v0 := old(Disk()), old(Views());
              AllSince(cache.trace, |old(cache.trace)|, dev, old(cache.disk),
                       d => RecoversTo(c, d, d0) || RecoversTo(c, d, v0))
      ensures !ok ==> old(n) > 0 && Scarce(old(cache.buf), dev, old(Blocks()))
      ensures old(n) > 0 && NoBuffer(old(cache.buf), dev, c.start + 1) ==> !ok
      ensures Followed(c, dev, cache.trace, g) && g.start == s && g.since == |old(cache.trace)|
      ensures ok ==>
                Mirrors(g.now, Disk(), Views(), Blocks()) &&
                (if old(n) > 0 then g.now.pc == Protocol.Erased else g.now == s)
      ensures ok ==>
                && Quiet() && n == 0 && Word(Disk()[c.start], 0) == 0
                && (forall b: nat :: c.Home(b) ==> Disk()[b] == Views()[b] == old(Views())[b])
                && Pinned() == {}
      ensures ok ==> NoWorse(old(cache.buf), cache.buf) && cache.disk == old(cache.disk)[dev := cache.disk[dev]]
    {
      hide ViewsOf, Cache.Valid, AllSince, Word, HeaderBlocks, RecoversTo;
      hide PinnedBlocks, Scarce, Eased, NoWorse, Followed, Mirrors, Protocol.Apply, Protocol.Enabled;
      g := NoProgress(s, |cache.trace|);
      NothingFollowed(c, dev, cache.trace, s);
      ghost var d0, v0, bs := Disk(), Views(), Blocks();
      ghost var base := cache.disk;
      ghost var Q: Image -> bool := d => RecoversTo(c, d, d0) || RecoversTo(c, d, v0);
      NoneSince(cache.trace, dev, base, Q);
      if n > 0 {
        ok, g := ReachCommitPoint(s);
        if !ok {
          return;
        }
        ghost var d2, t2, buf2 := Disk(), cache.trace, cache.buf;
        ok, g := InstallAndErase(v0, g);
        if !ok {
          ScarceBefore(old(cache.buf), buf2, dev, bs, bs);
        } else {
          EasedIsNoWorse(old(cache.buf), buf2, dev, bs);
          NoWorseTwice(old(cache.buf), buf2, cache.buf);
        }
        JoinSince(t2, cache.trace, |old(cache.trace)|, dev, base, base[dev := d2], d => RecoversTo(c, d, v0), Q);
        return;
      }
      forall b: nat | b < c.nblocks && b !in bs
        ensures v0[b] == d0[b]
      {
        UnpinnedIsOnDisk(b);
      }
      NotWorse(cache.buf);
      return true, g;
    }

    /** read_head */
    method ReadHead() returns (ok: bool)
      requires Alone() && GoodImage(c, Disk()) && Views() == Disk()
      modifies cache`buf, cache`prev, cache`next, cache`ring, cache`released, this`n, block
      ensures Shaped()
      ensures !ok <==> NoBuffer(old(cache.buf), dev, c.start)
      ensures ok ==> NoWorse(old(cache.buf), cache.buf)
      ensures ok ==> Quiet() && Views() == old(Views()) && Pinned() <= old(Pinned())
      ensures ok ==> Blocks() == HeaderBlocks(Disk()[c.start])
    {
      hide Latest, Clean, Unique, Ring, Word;
      var got := cache.Bread(dev, c.start);
      if got.None? {
        return false;
      }
      assert Views() == old(Views());
      var i := got.value;
      var h := cache.buf[i].data;
      n := Word(h, 0);
      for k := 0 to n
        modifies block
        invariant forall j :: 0 <= j < k ==> block[j] == Word(h, j + 1)
      {
        block[k] := Word(h, k + 1);
      }
      ghost var buf1 := cache.buf;
      cache.Brelse(i);
      SameViews(buf1, cache.disk, cache.buf, cache.disk, dev);
      assert Blocks() == HeaderBlocks(h);
      return true;
    }

    /**
     recover_from_log on a cold cache.  Every disk state it goes through still recovers to the same
     contents, so it may be cut short and started again any number of times; when it completes,
     those contents are in place and the log is empty.
     */
    method RecoverFromLog(ghost home: Image, ghost s: Protocol.State) returns (ok: bool, ghost g: Progress)
      requires Alone() && RecoversTo(c, Disk(), home) && Pinned() == {}
      requires s.pc == Protocol.Boot && s.disk == Disk() && forall b: nat :: b < |s.disk| ==> s.View(b) == s.disk[b]
      modifies cache, this`n, block
      ensures Shaped() && old(cache.trace) <= cache.trace
      ensures AllSince(cache.trace, |old(cache.trace)|, dev, old(cache.disk), d => RecoversTo(c, d, home))
      ensures !ok ==> OneSpare(old(cache.buf))
      ensures NoBuffer(old(cache.buf), dev, c.start) ==> !ok
      ensures Protocol.Enabled(c, s, Protocol.ReadHead)
      ensures Followed(c, dev, cache.trace, g) && g.start == Protocol.Apply(c, s, Protocol.ReadHead) &&
              g.since == |old(cache.trace)|
      ensures ok ==> Mirrors(g.now, Disk(), Views(), []) && g.now.pc == Protocol.Idle
      ensures ok ==>
                && Quiet() && n == 0 && Word(Disk()[c.start], 0) == 0 && Pinned() == {}
                && forall b: nat :: c.Home(b) ==> Disk()[b] == Views()[b] == home[b]
    {
      hide ViewsOf, Cache.Valid, AllSince, Word, HeaderBlocks, PinnedBlocks, RecoveredBlock, Followed, Mirrors,
          Protocol.Apply, Protocol.Enabled;
      ghost var Q: Image -> bool := d => RecoversTo(c, d, home);
      NoneSince(cache.trace, dev, cache.disk, Q);
      forall b: nat | b < c.nblocks
        ensures Views()[b] == Disk()[b]
      {
        UnpinnedIsOnDisk(b);
      }
      assert Views() == Disk();
      ColdStart(c, s, Disk());
      g := NoProgress(Protocol.Apply(c, s, Protocol.ReadHead), |cache.trace|);
      NothingFollowed(c, dev, cache.trace, g.start);
      var read := ReadHead();
      if !read {
        return false, g;
      }
      ghost var buf1 := cache.buf;
      ok, g := InstallAndErase(home, g);
      if !ok {
        FewBefore(old(cache.buf), buf1);
      }
    }

    /**
     log_write by the holder of buffer i, for block b.  The block is in the log once, whether or
     not it was there before, and the buffer is pinned.  False is one of the two panics.
     */
    method LogWrite(i: nat, b: nat) returns (ok: bool)
      requires Shaped() && i < NBUF && c.Home(b)
      requires cache.buf[i].locked && cache.buf[i].valid && cache.buf[i].For(dev, b)
      modifies cache`buf, cache`touched, this`n, block
      ensures Shaped()
      ensures ok <==> old(n) < LOGSIZE && old(n) < c.size - 1 && outstanding >= 1
      ensures !ok ==> cache.buf == old(cache.buf) && Blocks() == old(Blocks())
      ensures ok ==>
                && Blocks() == (if b in old(Blocks()) then old(Blocks()) else old(Blocks()) + [b])
                && cache.buf == old(cache.buf)[i := old(cache.buf)[i].(dirty := true)]
                && cache.touched == old(cache.touched) - {i}
                && Views() == old(Views())
      ensures ok && Fits(c, old(Blocks())) ==> Fits(c, Blocks())
    {
      hide Latest, Clean, Unique, Ring;
      if n >= LOGSIZE || n >= c.size - 1 {
        return false;
      }
      if outstanding < 1 {
        return false;
      }
      var k := 0;
      while k < n && block[k] != cache.buf[i].blockno
        invariant 0 <= k <= n && b !in block[..k]
      {
        k := k + 1;
      }
      block[k] := cache.buf[i].blockno;
      if k == n {
        n := n + 1;
      }
      assert Blocks() == (if b in old(Blocks()) then old(Blocks()) else old(Blocks()) + [b]);
      cache.Pin(i);
      SameViews(old(cache.buf), cache.disk, cache.buf, cache.disk, dev);
      return true;
    }

    /**
     One pass of begin_op's loop: false when the caller has to sleep.  An operation enters only when
     the log has MAXOPBLOCKS entries left for each operation then in progress, and the first one into
     an empty log always enters.
     */
    method TryBeginOp() returns (entered: bool)
      requires Shaped()
      modifies this`outstanding
      ensures entered <==> !committing && n + (old(outstanding) + 1) * MAXOPBLOCKS <= LOGSIZE
      ensures outstanding == old(outstanding) + if entered then 1 else 0
      ensures entered ==> n + outstanding * MAXOPBLOCKS <= LOGSIZE && 1 <= outstanding <= LOGSIZE / MAXOPBLOCKS
      ensures !committing && n == 0 && old(outstanding) == 0 ==> entered
    {
      if committing {
        return false;
      } else if n + (outstanding + 1) * MAXOPBLOCKS > LOGSIZE {
        return false;
      } else {
        outstanding := outstanding + 1;
        return true;
      }
    }

    /**
     end_op.  An operation that leaves others running writes nothing; the last one commits.
     */
    method EndOp(ghost s: Protocol.State, ghost o: nat) returns (ok: bool, ghost g: Progress)
      requires Quiet() && Fits(c, Blocks()) && Word(Disk()[c.start], 0) == 0
      requires (forall b :: b in Pinned() ==> b in Blocks()) && outstanding >= 1 && !committing
      requires Mirrors(s, Disk(), Views(), Blocks()) && s.outstanding == outstanding &&
               Protocol.Enabled(c, s, Protocol.Finish(o))
      modifies cache, this`n, this`outstanding, this`committing
      ensures Shaped() && old(cache.trace) <= cache.trace
      ensures var d0, v0 := old(Disk()), old(Views());
              AllSince(cache.trace, |old(cache.trace)|, dev, old(cache.disk),
                       d => RecoversTo(c, d, d0) || RecoversTo(c, d, v0))
      ensures outstanding == old(outstanding) - 1
      ensures outstanding > 0 ==> ok && cache.trace == old(cache.trace) && Views() == old(Views()) && n == old(n)
      ensures !ok ==> outstanding == 0 && old(n) > 0 && Scarce(old(cache.buf), dev, old(Blocks()))
      ensures outstanding == 0 && old(n) > 0 && NoBuffer(old(cache.buf), dev, c.start + 1) ==> !ok
      ensures ok ==> !committing && Quiet()
      ensures !ok ==> committing
      ensures Followed(c, dev, cache.trace, g) && g.start == Protocol.Apply(c, s, Protocol.Finish(o)) &&
              g.since == |old(cache.trace)|
      ensures ok ==> Mirrors(g.now, Disk(), Views(), Blocks()) && (outstanding == 0 ==> g.now.pc == Protocol.Erased)
      ensures ok && outstanding == 0 ==>
                && n == 0 && Word(Disk()[c.start], 0) == 0 && Pinned() == {}
                && forall b: nat :: c.Home(b) ==> Disk()[b] == Views()[b] == old(Views())[b]
      ensures ok ==> NoWorse(old(cache.buf), cache.buf) && cache.disk == old(cache.disk)[dev := cache.disk[dev]]
    {
      hide AllSince, ViewsOf, Cache.Valid, Word, RecoversTo, Followed;
      ghost var t := Protocol.Apply(c, s, Protocol.Finish(o));
      g := NoProgress(t, |cache.trace|);
      NothingFollowed(c, dev, cache.trace, t);
      ghost var d0, v0 := Disk(), Views();
      NoneSince(cache.trace, dev, cache.disk, d => RecoversTo(c, d, d0) || RecoversTo(c, d, v0));
      outstanding := outstanding - 1;
      ok := true;
      if outstanding == 0 {
        committing := true;
        ok, g := Commit(t);
        if ok {
          committing := false;
        }
      }
    }
  }
}
