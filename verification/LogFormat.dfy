/**
 The on-disk log of log.c: where it lies, how its header block is encoded, and what a disk image
 holds once the log in it has been replayed.
 */
module LogFormat {
  import opened Common
  import opened Blocks

  /** The log occupies blocks start .. start + size: the header, then size - 1 data slots. */
  datatype Layout = Layout(start: nat, size: nat, nblocks: nat) {
    predicate Valid() {
      && 1 <= size
      && start + size <= nblocks <= UINT_LIMIT
    }

    /** A block that the log may redirect: on the disk and outside the log itself. */
    predicate Home(b: nat) {
      b < nblocks && !(start <= b < start + size)
    }
  }

  ghost predicate Distinct(s: seq<nat>) {
    forall i, j :: 0 <= i < j < |s| ==> s[i] != s[j]
  }

  /** A list of blocks that fits the log: distinct home blocks, one data slot each. */
  ghost predicate Fits(c: Layout, blocks: seq<nat>) {
    && |blocks| <= LOGSIZE
    && |blocks| <= c.size - 1
    && Distinct(blocks)
    && forall i :: 0 <= i < |blocks| ==> c.Home(blocks[i])
  }

  /** The block list that a header block records: n, then block[0 .. n]. */
  function HeaderBlocks(h: Block): seq<nat>
    requires Word(h, 0) <= LOGSIZE
  {
    seq(Word(h, 0), i requires 0 <= i < Word(h, 0) => Word(h, i + 1))
  }

  ghost predicate GoodHeader(c: Layout, h: Block) {
    Word(h, 0) <= LOGSIZE && Fits(c, HeaderBlocks(h))
  }

  /** `h` with its first k entries set to those of `blocks`; the rest is kept. */
  function PutEntries(h: Block, blocks: seq<nat>, k: nat): Block
    requires k <= |blocks| <= LOGSIZE && forall i :: 0 <= i < |blocks| ==> blocks[i] < UINT_LIMIT
  {
    if k == 0 then h else PutWord(PutEntries(h, blocks, k - 1), k, blocks[k - 1])
  }

  /** write_head's buffer: the count and the entries over what the block held before. */
  function EncodeHeader(h: Block, blocks: seq<nat>): Block
    requires |blocks| <= LOGSIZE && forall i :: 0 <= i < |blocks| ==> blocks[i] < UINT_LIMIT
  {
    PutEntries(PutWord(h, 0, |blocks|), blocks, |blocks|)
  }

  lemma {:induction false} EntryWords(h: Block, blocks: seq<nat>, k: nat, i: nat)
    requires k <= |blocks| <= LOGSIZE && forall i :: 0 <= i < |blocks| ==> blocks[i] < UINT_LIMIT
    requires i < NWORDS
    ensures Word(PutEntries(h, blocks, k), i) == if 1 <= i <= k then blocks[i - 1] else Word(h, i)
    decreases k
  {
    hide Word, PutWord;
    if k > 0 {
      EntryWords(h, blocks, k - 1, i);
      WordOfPut(PutEntries(h, blocks, k - 1), k, blocks[k - 1], i);
    }
  }

  /** Writing the in-memory header and reading it back gives the same list. */
  lemma HeaderRoundTrip(h: Block, blocks: seq<nat>)
    requires |blocks| <= LOGSIZE && forall i :: 0 <= i < |blocks| ==> blocks[i] < UINT_LIMIT
    ensures Word(EncodeHeader(h, blocks), 0) == |blocks|
    ensures HeaderBlocks(EncodeHeader(h, blocks)) == blocks
  {
    hide Word, PutWord;
    forall i: nat | i <= |blocks|
      ensures Word(EncodeHeader(h, blocks), i) == if i == 0 then |blocks| else blocks[i - 1]
    {
      EntryWords(PutWord(h, 0, |blocks|), blocks, |blocks|, i);
      WordOfPut(h, 0, |blocks|, i);
    }
  }

  function IndexOf(s: seq<nat>, x: nat): (i: nat)
    requires x in s
    ensures i < |s| && s[i] == x
    decreases |s|
  {
    if s[|s| - 1] == x then |s| - 1 else IndexOf(s[..|s| - 1], x)
  }

  lemma IndexOfDistinct(blocks: seq<nat>, i: nat)
    requires Distinct(blocks) && i < |blocks|
    ensures IndexOf(blocks, blocks[i]) == i
  {
  }

  ghost predicate GoodImage(c: Layout, d: Image) {
    c.Valid() && |d| == c.nblocks && GoodHeader(c, d[c.start])
  }

  /** The contents logged for block `b`. */
  function Slot(c: Layout, d: Image, blocks: seq<nat>, b: nat): Block
    requires b in blocks && c.start + |blocks| < |d|
  {
    d[c.start + 1 + IndexOf(blocks, b)]
  }

  /** What home block `b` holds after the log recorded in image `d` has been replayed. */
  function RecoveredBlock(c: Layout, d: Image, b: nat): Block
    requires GoodImage(c, d) && c.Home(b)
  {
    var blocks := HeaderBlocks(d[c.start]);
    if b in blocks then Slot(c, d, blocks, b) else d[b]
  }

  /** Two images that recover to the same home contents. */
  ghost predicate RecoversTo(c: Layout, d: Image, home: Image) {
    && GoodImage(c, d)
    && |home| == c.nblocks
    && forall b: nat :: c.Home(b) ==> RecoveredBlock(c, d, b) == home[b]
  }
}
