/**
 Swap slots: swapread and swapwrite of fs.c, eight blocks through the buffer cache.
 */
module Swap {
  import opened Common
  import opened Blocks
  import opened BufferCache

  const SWAPBASE := 500
  const SWAPMAX := 100000 - SWAPBASE
  const SLOT := 8
  const DEV := 0

  /** No process holds a buffer of the slot. */
  ghost predicate Unheld(buf: seq<Buf>, blkno: int) {
    forall j :: 0 <= j < |buf| && buf[j].locked && buf[j].dev == DEV ==>
      !(SWAPBASE + blkno <= buf[j].blockno < SWAPBASE + blkno + SLOT)
  }

  /** Whoever holds a buffer held it before. */
  ghost predicate HeldBefore(buf: seq<Buf>, buf2: seq<Buf>) {
    && |buf2| == |buf|
    && forall j :: 0 <= j < |buf| && buf2[j].locked ==> buf[j].locked && buf2[j].For(buf[j].dev, buf[j].blockno)
  }

  /** What readers see is the same, but for `data` in block b of device 0. */
  ghost predicate OnlyBlock(buf: seq<Buf>, disk: Disks, buf2: seq<Buf>, disk2: Disks, b: nat, data: Block) {
    forall dev: nat, x: nat :: InRange(disk, dev, x) ==>
      InRange(disk2, dev, x) &&
      Latest(buf2, disk2, dev, x) == if dev == DEV && x == b then data else Latest(buf, disk, dev, x)
  }

  /** One round of swapwrite's loop; false when bread panics. */
  method PutBlock(c: Cache, b: nat, data: Block) returns (ok: bool)
    requires c.Valid() && forall j :: 0 <= j < NBUF && c.buf[j].For(DEV, b) ==> !c.buf[j].locked
    modifies c
    ensures ok ==> c.Valid() && c.touched == old(c.touched)
    ensures ok ==> NoWorse(old(c.buf), c.buf) && HeldBefore(old(c.buf), c.buf)
    ensures !ok ==> !InRange(old(c.disk), DEV, b) || NoSpare(old(c.buf))
    ensures ok ==> InRange(old(c.disk), DEV, b) && OnlyBlock(old(c.buf), old(c.disk), c.buf, c.disk, b, data)
  {
    hide Cache.Valid, Latest;
    c.TouchedIsHeld();
    var got := c.Bread(DEV, b);
    if got.None? {
      return false;
    }
    var i := got.value;
    c.Modify(i, data);
    c.Bwrite(i);
    c.Brelse(i);
    return true;
  }

  /** One round of swapread's loop. */
  method GetBlock(c: Cache, b: nat) returns (r: Option<Block>)
    requires c.Valid() && forall j :: 0 <= j < NBUF && c.buf[j].For(DEV, b) ==> !c.buf[j].locked
    modifies c
    ensures c.touched == old(c.touched) && c.disk == old(c.disk)
    ensures r.None? ==> !InRange(old(c.disk), DEV, b) || NoSpare(old(c.buf))
    ensures r.Some? ==>
              && NoWorse(old(c.buf), c.buf) && HeldBefore(old(c.buf), c.buf)
              && c.Valid() && SameLatest(old(c.buf), c.disk, c.buf, c.disk)
              && InRange(c.disk, DEV, b) && r.value == Latest(c.buf, c.disk, DEV, b)
  {
    hide Cache.Valid, Latest;
    c.TouchedIsHeld();
    var got := c.Bread(DEV, b);
    if got.None? {
      return None;
    }
    var data := c.buf[got.value].data;
    c.Brelse(got.value);
    return Some(data);
  }

  ghost predicate Reads(buf: seq<Buf>, disk: Disks, b: nat, data: Block) {
    InRange(disk, DEV, b) && Latest(buf, disk, DEV, b) == data
  }

  /** The first n blocks of slot blkno hold those of the page. */
  ghost predicate Holds(buf: seq<Buf>, disk: Disks, blkno: nat, page: seq<Block>, n: nat) {
    n <= |page| && forall i :: 0 <= i < n ==> Reads(buf, disk, SWAPBASE + blkno + i, page[i])
  }

  /** Every block of the slot is on the disk. */
  ghost predicate OnDisk(disk: Disks, blkno: nat) {
    forall x: nat :: InSlot(x, blkno) ==> InRange(disk, DEV, x)
  }

  predicate InSlot(x: nat, blkno: nat) {
    SWAPBASE + blkno <= x < SWAPBASE + blkno + SLOT
  }

  /** Nothing outside the blocks of slot blkno changes. */
  ghost predicate Elsewhere(buf: seq<Buf>, disk: Disks, buf2: seq<Buf>, disk2: Disks, blkno: nat) {
    forall dev: nat, x: nat :: InRange(disk, dev, x) && !(dev == DEV && InSlot(x, blkno)) ==>
      InRange(disk2, dev, x) && Latest(buf2, disk2, dev, x) == Latest(buf, disk, dev, x)
  }

  /** swapwrite(); false when it panics. */
  method SwapWrite(c: Cache, page: seq<Block>, blkno: int) returns (ok: bool)
    requires c.Valid() && Unheld(c.buf, blkno) && |page| == SLOT
    modifies c
    ensures ok ==> c.Valid() && c.touched == old(c.touched) && 0 <= blkno < SWAPMAX
    ensures ok ==> NoWorse(old(c.buf), c.buf) && HeldBefore(old(c.buf), c.buf)
    ensures !ok ==> !(0 <= blkno < SWAPMAX && OnDisk(old(c.disk), blkno)) || NoSpare(old(c.buf))
    ensures ok ==> Holds(c.buf, c.disk, blkno, page, SLOT) && Elsewhere(old(c.buf), old(c.disk), c.buf, c.disk, blkno)
  {
    hide Cache.Valid, Latest;
    c.TouchedIsHeld();
    if blkno < 0 || blkno >= SWAPMAX {
      return false;
    }
    var i := 0;
    while i < SLOT
      invariant 0 <= i <= SLOT && c.Valid() && c.touched == old(c.touched)
      invariant Holds(c.buf, c.disk, blkno, page, i) && NoWorse(old(c.buf), c.buf) && HeldBefore(old(c.buf), c.buf)
      invariant OnDisk(old(c.disk), blkno) ==> OnDisk(c.disk, blkno)
      invariant Elsewhere(old(c.buf), old(c.disk), c.buf, c.disk, blkno)
    {
      assert InSlot(SWAPBASE + blkno + i, blkno);
      ok := PutBlock(c, SWAPBASE + blkno + i, page[i]);
      if !ok {
        return;
      }
      i := i + 1;
    }
    return true;
  }

  /** swapread(): the page that the slot holds, and no reader sees a change. */
  method SwapRead(c: Cache, blkno: int) returns (r: Option<seq<Block>>)
    requires c.Valid() && Unheld(c.buf, blkno)
    modifies c
    ensures r.None? ==> !(0 <= blkno < SWAPMAX && OnDisk(old(c.disk), blkno)) || NoSpare(old(c.buf))
    ensures r.Some? ==>
              && c.Valid() && c.touched == old(c.touched) && 0 <= blkno < SWAPMAX && |r.value| == SLOT
              && NoWorse(old(c.buf), c.buf) && HeldBefore(old(c.buf), c.buf)
              && SameLatest(old(c.buf), old(c.disk), c.buf, c.disk) && Holds(c.buf, c.disk, blkno, r.value, SLOT)
  {
    hide Cache.Valid, Latest;
    c.TouchedIsHeld();
    if blkno < 0 || blkno >= SWAPMAX {
      return None;
    }
    var page: seq<Block> := [];
    var i := 0;
    while i < SLOT
      invariant 0 <= i <= SLOT && c.Valid() && c.touched == old(c.touched) && |page| == i
      invariant Holds(c.buf, c.disk, blkno, page, i) && c.disk == old(c.disk)
      invariant NoWorse(old(c.buf), c.buf) && HeldBefore(old(c.buf), c.buf)
      invariant SameLatest(old(c.buf), old(c.disk), c.buf, c.disk)
    {
      assert InSlot(SWAPBASE + blkno + i, blkno);
      var got := GetBlock(c, SWAPBASE + blkno + i);
      if got.None? {
        return None;
      }
      page := page + [got.value];
      i := i + 1;
    }
    return Some(page);
  }

  /** What the slot holds determines the page. */
  lemma OnePage(buf: seq<Buf>, disk: Disks, blkno: nat, page: seq<Block>, got: seq<Block>)
    requires Holds(buf, disk, blkno, page, SLOT) && Holds(buf, disk, blkno, got, SLOT) && |page| == |got| == SLOT
    ensures got == page
  {
    hide Latest;
    forall i | 0 <= i < SLOT ensures got[i] == page[i] {
      assert Reads(buf, disk, SWAPBASE + blkno + i, page[i]) && Reads(buf, disk, SWAPBASE + blkno + i, got[i]);
    }
  }

  /** A page swapped out is swapped in again unchanged, though another slot was written in between. */
  method RoundTrip(c: Cache, page: seq<Block>, blkno: int, other: seq<Block>, elsewhere: int)
      returns (r: Option<seq<Block>>)
    requires c.Valid() && Unheld(c.buf, blkno) && Unheld(c.buf, elsewhere) && |page| == |other| == SLOT
    requires blkno + SLOT <= elsewhere || elsewhere + SLOT <= blkno
    modifies c
    ensures r.Some? ==> r.value == page
    ensures r.None? ==>
              || !(0 <= blkno < SWAPMAX && 0 <= elsewhere < SWAPMAX) || NoSpare(old(c.buf))
              || !(OnDisk(old(c.disk), blkno) && OnDisk(old(c.disk), elsewhere))
  {
    hide Cache.Valid, Latest;
    var ok := SwapWrite(c, page, blkno);
    if !ok {
      return None;
    }
    ghost var b1, d1 := c.buf, c.disk;
    StaysOnDisk(old(c.buf), old(c.disk), b1, d1, blkno, page, elsewhere);
    ok := SwapWrite(c, other, elsewhere);
    if !ok {
      return None;
    }
    StillHolds(b1, d1, c.buf, c.disk, blkno, page, elsewhere);
    ghost var b2, d2 := c.buf, c.disk;
    r := SwapRead(c, blkno);
    if r.Some? {
      SameHolds(b2, d2, c.buf, c.disk, blkno, page);
      OnePage(c.buf, c.disk, blkno, page, r.value);
    }
  }

  lemma StaysOnDisk(b0: seq<Buf>, d0: Disks, b1: seq<Buf>, d1: Disks, blkno: nat, page: seq<Block>, other: int)
    requires Elsewhere(b0, d0, b1, d1, blkno) && Holds(b1, d1, blkno, page, SLOT)
    requires blkno + SLOT <= other || other + SLOT <= blkno
    ensures other >= 0 && OnDisk(d0, other) ==> OnDisk(d1, other)
  {
    hide Latest;
    if other >= 0 && OnDisk(d0, other) {
      forall x: nat | InSlot(x, other) ensures InRange(d1, DEV, x) {
        assert InRange(d0, DEV, x) && !InSlot(x, blkno);
      }
    }
  }

  lemma StillHolds(b1: seq<Buf>, d1: Disks, b2: seq<Buf>, d2: Disks, blkno: nat, page: seq<Block>, other: nat)
    requires Holds(b1, d1, blkno, page, SLOT) && Elsewhere(b1, d1, b2, d2, other)
    requires blkno + SLOT <= other || other + SLOT <= blkno
    ensures Holds(b2, d2, blkno, page, SLOT) && OnDisk(d2, blkno)
  {
    hide Latest;
    forall i | 0 <= i < SLOT ensures Reads(b2, d2, SWAPBASE + blkno + i, page[i]) {
      assert Reads(b1, d1, SWAPBASE + blkno + i, page[i]) && !InSlot(SWAPBASE + blkno + i, other);
    }
    forall x: nat | InSlot(x, blkno) ensures InRange(d2, DEV, x) {
      assert Reads(b2, d2, SWAPBASE + blkno + (x - SWAPBASE - blkno), page[x - SWAPBASE - blkno]);
    }
  }

  lemma SameHolds(b1: seq<Buf>, d1: Disks, b2: seq<Buf>, d2: Disks, blkno: nat, page: seq<Block>)
    requires Holds(b1, d1, blkno, page, SLOT) && SameLatest(b1, d1, b2, d2)
    ensures Holds(b2, d2, blkno, page, SLOT)
  {
    hide Latest;
    forall i | 0 <= i < SLOT ensures Reads(b2, d2, SWAPBASE + blkno + i, page[i]) {
      assert Reads(b1, d1, SWAPBASE + blkno + i, page[i]);
    }
  }

  /** A write to another slot leaves this one alone exactly when the numbers are a slot apart. */
  lemma SlotsApart(a: nat, b: nat)
    ensures (a + SLOT <= b || b + SLOT <= a) <==>
            forall x: nat :: InSlot(x, a) ==> !InSlot(x, b)
  {
    if !(a + SLOT <= b || b + SLOT <= a) {
      var x := SWAPBASE + if a < b then b else a;
      assert InSlot(x, a) && InSlot(x, b);
    }
  }
}
