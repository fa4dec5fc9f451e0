/**
 The user-level allocator of umalloc.c, after section 8.7 of The C Programming Language, 2nd edition.

 Addresses count Headers of 8 bytes.  Address 0 is the static `base`; the memory that sbrk returns
 lies above it.  Each address holds a header that the allocator reads only where it put one.
 */
module Heap {
  import opened Common

  datatype Header = Header(ptr: nat, size: nat)

  const BASE := 0
  const MINUNITS := 4096

  /** A free chunk, or `base` with size 0. */
  datatype Chunk = Chunk(a: nat, n: nat) {
    predicate Has(u: nat) {
      a <= u < a + n
    }
  }

  /** Address order, with base first, no overlap and no two chunks that touch. */
  predicate Sorted(ch: seq<Chunk>) {
    && |ch| > 0 && ch[0] == Chunk(BASE, 0)
    && (forall i :: 0 < i < |ch| ==> ch[i].n > 0)
    && forall i, j :: 0 <= i < j < |ch| ==> ch[i].a + ch[i].n < ch[j].a
  }

  function Succ(ch: seq<Chunk>, i: nat): (a: nat)
    requires i < |ch|
  {
    if i + 1 < |ch| then ch[i + 1].a else ch[0].a
  }

  predicate LinkedAt(mem: seq<Header>, ch: seq<Chunk>, i: nat)
    requires i < |ch|
  {
    ch[i].a + ch[i].n <= |mem| && ch[i].a < |mem| && mem[ch[i].a] == Header(Succ(ch, i), ch[i].n)
  }

  /** The chunks' headers form one ring in that order. */
  predicate Linked(mem: seq<Header>, ch: seq<Chunk>) {
    forall i :: 0 <= i < |ch| ==> LinkedAt(mem, ch, i)
  }

  predicate InFree(ch: seq<Chunk>, u: nat) {
    exists i :: 0 <= i < |ch| && ch[i].Has(u)
  }

  /** The list with chunks lo .. hi replaced by c. */
  function Splice(ch: seq<Chunk>, lo: nat, hi: nat, c: Chunk): (r: seq<Chunk>)
    requires lo <= hi <= |ch|
    ensures |r| == |ch| - (hi - lo) + 1
    ensures forall i :: 0 <= i < |r| ==> r[i] == if i < lo then ch[i] else if i == lo then c else ch[i + hi - lo - 1]
  {
    ch[..lo] + [c] + ch[hi..]
  }

  lemma SpliceSorted(ch: seq<Chunk>, lo: nat, hi: nat, c: Chunk)
    requires Sorted(ch) && 0 < lo <= hi <= |ch| && c.n > 0
    requires ch[lo - 1].a + ch[lo - 1].n < c.a && (hi < |ch| ==> c.a + c.n < ch[hi].a)
    ensures Sorted(Splice(ch, lo, hi, c))
  {
    var r := Splice(ch, lo, hi, c);
    assert r[0] == ch[0];
    forall i, j | 0 <= i < j < |r| ensures r[i].a + r[i].n < r[j].a {
      if i < lo - 1 && j == lo {
        assert ch[i].a + ch[i].n < ch[lo - 1].a;
      } else if i == lo && j > lo + 1 {
        assert ch[hi].a + ch[hi].n < ch[j + hi - lo - 1].a;
      }
    }
  }

  /** What the list covers changes only by what c covers and the replaced chunks covered. */
  lemma SpliceUnits(ch: seq<Chunk>, lo: nat, hi: nat, c: Chunk, u: nat)
    requires lo <= hi <= |ch|
    ensures InFree(Splice(ch, lo, hi, c), u) <==> c.Has(u) || InFree(ch[..lo], u) || InFree(ch[hi..], u)
    ensures InFree(ch, u) <==> InFree(ch[..lo], u) || InFree(ch[lo..hi], u) || InFree(ch[hi..], u)
  {
    FreeConcat(ch[..lo], [c], u);
    FreeConcat(ch[..lo] + [c], ch[hi..], u);
    FreeConcat(ch[..lo], ch[lo..hi], u);
    FreeConcat(ch[..lo] + ch[lo..hi], ch[hi..], u);
    assert ch == ch[..lo] + ch[lo..hi] + ch[hi..];
    assert InFree([c], u) <==> c.Has(u) by {
      if c.Has(u) {
        assert [c][0].Has(u);
      }
    }
  }

  lemma FreeConcat(x: seq<Chunk>, y: seq<Chunk>, u: nat)
    ensures InFree(x + y, u) <==> InFree(x, u) || InFree(y, u)
  {
    if i :| 0 <= i < |x| && x[i].Has(u) {
      assert (x + y)[i].Has(u);
    }
    if i :| 0 <= i < |y| && y[i].Has(u) {
      assert (x + y)[|x| + i].Has(u);
    }
    if i :| 0 <= i < |x + y| && (x + y)[i].Has(u) {
      if i < |x| {
        assert x[i].Has(u);
      } else {
        assert y[i - |x|].Has(u);
      }
    }
  }

  /** The n units at b lie between chunks t and t + 1. */
  predicate Between(ch: seq<Chunk>, t: nat, b: nat, n: nat) {
    && t < |ch| && n > 0 && ch[t].a < b && ch[t].a + ch[t].n <= b
    && (t + 1 < |ch| ==> b + n <= ch[t + 1].a)
  }

  predicate JoinsUp(ch: seq<Chunk>, t: nat, b: nat, n: nat)
    requires t < |ch|
  {
    t + 1 < |ch| && b + n == ch[t + 1].a
  }

  predicate JoinsDown(ch: seq<Chunk>, t: nat, b: nat)
    requires t < |ch|
  {
    ch[t].a + ch[t].n == b
  }

  /** The chunk that free() makes of those units and of the neighbours they touch. */
  function Joined(ch: seq<Chunk>, t: nat, b: nat, n: nat): Chunk
    requires t < |ch|
  {
    var m := if JoinsUp(ch, t, b, n) then n + ch[t + 1].n else n;
    if JoinsDown(ch, t, b) then Chunk(ch[t].a, ch[t].n + m) else Chunk(b, m)
  }

  /** The free list after free(). */
  function Insert(ch: seq<Chunk>, t: nat, b: nat, n: nat): seq<Chunk>
    requires t < |ch|
  {
    Splice(ch, if JoinsDown(ch, t, b) then t else t + 1, if JoinsUp(ch, t, b, n) then t + 2 else t + 1,
        Joined(ch, t, b, n))
  }

  lemma InsertSorted(ch: seq<Chunk>, t: nat, b: nat, n: nat)
    requires Sorted(ch) && Between(ch, t, b, n)
    ensures Sorted(Insert(ch, t, b, n))
  {
    hide Splice;
    var lo := if JoinsDown(ch, t, b) then t else t + 1;
    var hi := if JoinsUp(ch, t, b, n) then t + 2 else t + 1;
    assert lo > 0;
    SpliceSorted(ch, lo, hi, Joined(ch, t, b, n));
  }

  lemma InsertUnits(ch: seq<Chunk>, t: nat, b: nat, n: nat, u: nat)
    requires Sorted(ch) && Between(ch, t, b, n)
    ensures InFree(Insert(ch, t, b, n), u) <==> InFree(ch, u) || b <= u < b + n
  {
    hide Splice, Sorted, InFree;
    var lo := if JoinsDown(ch, t, b) then t else t + 1;
    var hi := if JoinsUp(ch, t, b, n) then t + 2 else t + 1;
    SpliceUnits(ch, lo, hi, Joined(ch, t, b, n), u);
    ReplacedUnits(ch, t, b, n, u);
  }

  lemma ReplacedUnits(ch: seq<Chunk>, t: nat, b: nat, n: nat, u: nat)
    requires Between(ch, t, b, n)
    ensures var lo := if JoinsDown(ch, t, b) then t else t + 1;
            var hi := if JoinsUp(ch, t, b, n) then t + 2 else t + 1;
            Joined(ch, t, b, n).Has(u) <==> InFree(ch[lo..hi], u) || b <= u < b + n
  {
    var lo := if JoinsDown(ch, t, b) then t else t + 1;
    var hi := if JoinsUp(ch, t, b, n) then t + 2 else t + 1;
    if lo == t && ch[t].Has(u) {
      assert ch[lo..hi][0].Has(u);
    }
    if hi == t + 2 && ch[t + 1].Has(u) {
      assert ch[lo..hi][t + 1 - lo].Has(u);
    }
  }

  // ---- Headers in memory ------------------------------------------------------------------------

  /** A spliced list is linked when only the headers of c and its predecessor changed. */
  lemma SpliceLinked(mem: seq<Header>, m2: seq<Header>, ch: seq<Chunk>, lo: nat, hi: nat, c: Chunk)
    requires Linked(mem, ch) && |m2| == |mem| && 0 < lo <= hi <= |ch| && c.a + c.n <= |m2| && c.a < |m2|
    requires forall i :: 0 <= i < |ch| && (i < lo - 1 || hi <= i) ==> ch[i].a < |mem| && m2[ch[i].a] == mem[ch[i].a]
    requires m2[c.a] == Header(if hi < |ch| then ch[hi].a else ch[0].a, c.n)
    requires ch[lo - 1].a < |m2| && m2[ch[lo - 1].a] == Header(c.a, ch[lo - 1].n)
    ensures Linked(m2, Splice(ch, lo, hi, c))
  {
    var r := Splice(ch, lo, hi, c);
    assert LinkedAt(mem, ch, lo - 1);
    assert LinkedAt(m2, r, lo - 1) && LinkedAt(m2, r, lo);
    forall i | 0 <= i < |r| && i != lo && i != lo - 1 ensures LinkedAt(m2, r, i) {
      assert LinkedAt(mem, ch, if i < lo then i else i + hi - lo - 1);
    }
  }

  /** The list without chunk k. */
  function Drop(ch: seq<Chunk>, k: nat): (r: seq<Chunk>)
    requires k < |ch|
    ensures |r| == |ch| - 1 && forall i :: 0 <= i < |r| ==> r[i] == if i < k then ch[i] else ch[i + 1]
  {
    ch[..k] + ch[k + 1..]
  }

  lemma DropSorted(ch: seq<Chunk>, k: nat)
    requires Sorted(ch) && 0 < k < |ch|
    ensures Sorted(Drop(ch, k))
  {
    assert Drop(ch, k)[0] == ch[0];
  }

  lemma DropLinked(mem: seq<Header>, m2: seq<Header>, ch: seq<Chunk>, k: nat)
    requires Linked(mem, ch) && Sorted(ch) && 0 < k < |ch| && ch[k - 1].a < |mem|
    requires m2 == mem[ch[k - 1].a := Header(Succ(ch, k), ch[k - 1].n)]
    ensures Linked(m2, Drop(ch, k))
  {
    var r := Drop(ch, k);
    assert LinkedAt(mem, ch, k - 1);
    assert LinkedAt(m2, r, k - 1);
    forall i | 0 <= i < |r| && i != k - 1 ensures LinkedAt(m2, r, i) {
      var j := if i < k then i else i + 1;
      assert LinkedAt(mem, ch, j) && ch[j].a != ch[k - 1].a;
    }
  }

  lemma DropUnits(ch: seq<Chunk>, k: nat, u: nat)
    requires Sorted(ch) && k < |ch|
    ensures InFree(Drop(ch, k), u) <==> InFree(ch, u) && !ch[k].Has(u)
  {
    var r := Drop(ch, k);
    if i :| 0 <= i < |ch| && ch[i].Has(u) {
      if i != k {
        assert r[if i < k then i else i - 1].Has(u);
      }
    }
    if i :| 0 <= i < |r| && r[i].Has(u) {
      assert ch[if i < k then i else i + 1].Has(u);
    }
  }

  // ---- Who uses each unit -----------------------------------------------------------------------

  datatype Use = Foreign | Free | Block(b: nat)

  /** Every unit above base is in one free chunk, in one live block, or not the allocator's. */
  ghost predicate Uses(use: seq<Use>, ch: seq<Chunk>, live: map<nat, nat>) {
    && (forall u :: 0 <= u < |use| ==> (use[u] == Free <==> InFree(ch, u)))
    && (forall b :: b in live ==> 0 < live[b] && b + live[b] <= |use|)
    && (forall b, u :: b in live && b <= u < b + live[b] ==> use[u] == Block(b))
    && (forall u :: 0 <= u < |use| && use[u].Block? ==> use[u].b in live && use[u].b <= u < use[u].b + live[use[u].b])
    && |use| > 0 && use[BASE] == Foreign
  }

  ghost predicate Good(mem: seq<Header>, ch: seq<Chunk>, live: map<nat, nat>, use: seq<Use>) {
    && Sorted(ch) && Linked(mem, ch) && |use| == |mem| && Uses(use, ch, live)
    && forall b :: b in live ==> mem[b].size == live[b]
  }

  ghost function Given(use: seq<Use>, b: nat, n: nat, to: Use): (r: seq<Use>)
    requires b + n <= |use|
    ensures |r| == |use| && forall u :: 0 <= u < |use| ==> r[u] == if b <= u < b + n then to else use[u]
  {
    use[..b] + seq(n, _ => to) + use[b + n..]
  }

  lemma ChunkFree(ch: seq<Chunk>, i: nat, u: nat)
    requires i < |ch| && ch[i].Has(u)
    ensures InFree(ch, u)
  {
  }

  /** Two live blocks never overlap, nor does a live block and a free chunk. */
  lemma Disjoint(mem: seq<Header>, ch: seq<Chunk>, live: map<nat, nat>, use: seq<Use>, b: nat, u: nat)
    requires Good(mem, ch, live, use) && b in live && b <= u < b + live[b]
    ensures forall c :: c in live && c != b ==> !(c <= u < c + live[c])
    ensures forall i :: 0 <= i < |ch| ==> !ch[i].Has(u)
  {
    assert use[u] == Block(b);
    assert !InFree(ch, u);
  }

  /** The place of a live block in the free list. */
  lemma GapBetween(mem: seq<Header>, ch: seq<Chunk>, live: map<nat, nat>, use: seq<Use>, b: nat, t: nat)
    requires Good(mem, ch, live, use) && b in live && t < |ch|
    requires ch[t].a < b && (t + 1 < |ch| ==> b < ch[t + 1].a)
    ensures Between(ch, t, b, live[b])
  {
    assert use[b] == Block(b);
    if ch[t].Has(b) {
      ChunkFree(ch, t, b);
    }
    if t + 1 < |ch| {
      ChunkFree(ch, t + 1, ch[t + 1].a);
    }
  }

  lemma GapExists(ch: seq<Chunk>, b: nat) returns (t: nat)
    requires Sorted(ch) && b > 0 && forall i :: 0 <= i < |ch| ==> ch[i].a != b
    ensures t < |ch| && ch[t].a < b && (t + 1 < |ch| ==> b < ch[t + 1].a)
  {
    t := 0;
    while t + 1 < |ch| && ch[t + 1].a < b
      invariant t < |ch| && ch[t].a < b
    {
      t := t + 1;
    }
  }

  /** No free chunk starts where a live block does. */
  lemma NotAChunk(mem: seq<Header>, ch: seq<Chunk>, live: map<nat, nat>, use: seq<Use>, b: nat, i: nat)
    requires Good(mem, ch, live, use) && b in live && i < |ch|
    ensures ch[i].a != b && b > 0
  {
    assert use[b] == Block(b);
    if i > 0 && ch[i].a == b {
      ChunkFree(ch, i, b);
    }
  }

  lemma FreedUses(use: seq<Use>, ch: seq<Chunk>, live: map<nat, nat>, t: nat, b: nat)
    requires Uses(use, ch, live) && Sorted(ch) && b in live && Between(ch, t, b, live[b])
    ensures Uses(Given(use, b, live[b], Free), Insert(ch, t, b, live[b]), live - {b})
  {
    hide Insert, Sorted, InFree;
    var r := Given(use, b, live[b], Free);
    forall u | 0 <= u < |use| ensures r[u] == Free <==> InFree(Insert(ch, t, b, live[b]), u) {
      InsertUnits(ch, t, b, live[b], u);
    }
    forall c, u | c in live && c != b && c <= u < c + live[c] ensures r[u] == Block(c) {
      assert use[u] == Block(c);
    }
  }

  /** The headers after free() has linked in the block at bp behind p. */
  function FreedMem(mem: seq<Header>, p: nat, bp: nat): (r: seq<Header>)
    requires p < |mem| && bp < |mem| && mem[p].ptr < |mem|
    ensures |r| == |mem|
  {
    var up := mem[p].ptr;
    var m := if bp + mem[bp].size == up then mem[bp := Header(mem[up].ptr, mem[bp].size + mem[up].size)]
             else mem[bp := Header(up, mem[bp].size)];
    if p + m[p].size == bp then m[p := Header(m[bp].ptr, m[p].size + m[bp].size)] else m[p := Header(bp, m[p].size)]
  }

  lemma FreedLinked(mem: seq<Header>, ch: seq<Chunk>, t: nat, b: nat, n: nat)
    requires Sorted(ch) && Linked(mem, ch) && Between(ch, t, b, n) && b + n <= |mem| && mem[b].size == n
    requires ch[t].a < |mem| && mem[ch[t].a].ptr < |mem|
    ensures Linked(FreedMem(mem, ch[t].a, b), Insert(ch, t, b, n))
  {
    hide Splice;
    var lo := if JoinsDown(ch, t, b) then t else t + 1;
    var hi := if JoinsUp(ch, t, b, n) then t + 2 else t + 1;
    var m2 := FreedMem(mem, ch[t].a, b);
    assert LinkedAt(mem, ch, t);
    assert t + 1 < |ch| ==> LinkedAt(mem, ch, t + 1);
    assert lo == t ==> LinkedAt(mem, ch, t - 1);
    forall i | 0 <= i < |ch| && (i < lo - 1 || hi <= i) ensures ch[i].a < |mem| && m2[ch[i].a] == mem[ch[i].a] {
      assert LinkedAt(mem, ch, i);
    }
    SpliceLinked(mem, m2, ch, lo, hi, Joined(ch, t, b, n));
  }

  lemma FreedGood(mem: seq<Header>, ch: seq<Chunk>, live: map<nat, nat>, use: seq<Use>, t: nat, b: nat)
    requires Good(mem, ch, live, use) && b in live && Between(ch, t, b, live[b])
    requires ch[t].a < |mem| && mem[ch[t].a].ptr < |mem|
    ensures Good(FreedMem(mem, ch[t].a, b), Insert(ch, t, b, live[b]), live - {b}, Given(use, b, live[b], Free))
  {
    hide Insert, Sorted, Linked, Uses;
    InsertSorted(ch, t, b, live[b]);
    BlockFits(use, ch, live, b);
    FreedLinked(mem, ch, t, b, live[b]);
    FreedUses(use, ch, live, t, b);
    forall c | c in live ensures c < |mem| && (c != b ==> FreedMem(mem, ch[t].a, b)[c] == mem[c]) {
      BlockFits(use, ch, live, c);
      NotAChunk(mem, ch, live, use, c, t);
    }
  }

  lemma BlockFits(use: seq<Use>, ch: seq<Chunk>, live: map<nat, nat>, b: nat)
    requires Uses(use, ch, live) && b in live
    ensures b + live[b] <= |use| && live[b] > 0
  {
  }

  /** free()'s search stops at chunk t and nowhere else. */
  lemma StopsAt(ch: seq<Chunk>, b: nat, t: nat, k: nat)
    requires Sorted(ch) && t < |ch| && k < |ch| && ch[t].a < b && (t + 1 < |ch| ==> b < ch[t + 1].a)
    ensures var p, up := ch[k].a, Succ(ch, k);
            (b > p && b < up) || (p >= up && (b > p || b < up)) <==> k == t
  {
  }

  predicate Fits(ch: seq<Chunk>, n: nat) {
    exists i :: 0 <= i < |ch| && ch[i].n >= n
  }

  lemma InsertFits(ch: seq<Chunk>, t: nat, b: nat, n: nat)
    requires t < |ch|
    ensures Fits(Insert(ch, t, b, n), n)
  {
    var lo := if JoinsDown(ch, t, b) then t else t + 1;
    assert Insert(ch, t, b, n)[lo].n >= n;
  }

  class Allocator {
    var mem: seq<Header>
    var freep: Option<nat>
    ghost var ch: seq<Chunk>
    ghost var live: map<nat, nat>
    ghost var use: seq<Use>

    ghost predicate Valid()
      reads this
    {
      match freep
      case None => ch == [Chunk(BASE, 0)] && live == map[] && |mem| == |use| && Uses(use, ch, live)
      case Some(f) => Good(mem, ch, live, use) && exists i :: 0 <= i < |ch| && ch[i].a == f
    }

    /** Before the first malloc(), with anything in the static header. */
    constructor (header: Header)
      ensures Valid() && freep == None && live == map[] && use == [Foreign] && mem == [header]
    {
      mem := [header];
      freep := None;
      ch := [Chunk(BASE, 0)];
      live := map[];
      use := [Foreign];
    }

    /** free()'s search: the chunk after which the block at bp belongs. */
    method FindPlace(bp: nat) returns (p: nat, ghost t: nat)
      requires Valid() && freep.Some? && bp in live
      ensures t < |ch| && p == ch[t].a && Between(ch, t, bp, live[bp])
      ensures p < |mem| && mem[p].ptr < |mem|
    {
      hide Sorted, Linked, Uses, InFree;
      forall i | 0 <= i < |ch| ensures ch[i].a != bp && bp > 0 {
        NotAChunk(mem, ch, live, use, bp, i);
      }
      t := GapExists(ch, bp);
      ghost var k :| 0 <= k < |ch| && ch[k].a == freep.value;
      p := freep.value;
      LinksIn(mem, ch, k);
      StopsAt(ch, bp, t, k);
      while !(bp > p && bp < mem[p].ptr)
        invariant 0 <= k < |ch| && p == ch[k].a && p < |mem| && mem[p].ptr == Succ(ch, k) < |mem|
        invariant bp > p && bp < mem[p].ptr ==> k == t
        decreases if k <= t then t - k else |ch| - k + t
      {
        StopsAt(ch, bp, t, k);
        if p >= mem[p].ptr && (bp > p || bp < mem[p].ptr) {
          break;
        }
        p := mem[p].ptr;
        k := if k + 1 < |ch| then k + 1 else 0;
        LinksIn(mem, ch, k);
        StopsAt(ch, bp, t, k);
      }
      StopsAt(ch, bp, t, k);
      GapBetween(mem, ch, live, use, bp, t);
    }

    /**
     free(): the block's units are free again, joined with the chunks they touch; no other block
     is moved or written.
     */
    method Free(ap: nat)
      requires Valid() && freep.Some? && ap > 0 && ap - 1 in live
      modifies this
      ensures Valid() && freep.Some?
      ensures live == old(live) - {ap - 1}
      ensures ap - 1 + old(live)[ap - 1] <= |old(use)|
      ensures use == Given(old(use), ap - 1, old(live)[ap - 1], Use.Free)
      ensures |mem| == old(|mem|) && Kept(use, old(mem), mem)
      ensures Fits(ch, old(live)[ap - 1])
    {
      hide Sorted, Linked, Uses, Insert, Given, InFree, Between, Fits;
      var bp := ap - 1;
      BlockFits(use, ch, live, bp);
      var p, t := FindPlace(bp);
      FreedGood(mem, ch, live, use, t, bp);
      InsertFits(ch, t, bp, live[bp]);
      StaysChunk(ch, t, bp, live[bp]);
      OthersKept(mem, ch, live, use, t, bp);
      var up := mem[p].ptr;
      if bp + mem[bp].size == up {
        mem := mem[bp := Header(mem[up].ptr, mem[bp].size + mem[up].size)];
      } else {
        mem := mem[bp := Header(up, mem[bp].size)];
      }
      if p + mem[p].size == bp {
        mem := mem[p := Header(mem[bp].ptr, mem[p].size + mem[bp].size)];
      } else {
        mem := mem[p := Header(bp, mem[p].size)];
      }
      assert mem == FreedMem(old(mem), p, bp);
      freep := Some(p);
      ch, use, live := Insert(ch, t, bp, live[bp]), Given(use, bp, live[bp], Use.Free), live - {bp};
    }

    /** The program's own sbrk(): memory that the allocator does not manage. */
    method Sbrk(n: nat)
      requires Valid()
      modifies this
      ensures Valid() && live == old(live) && freep == old(freep) && ch == old(ch)
      ensures use == old(use) + seq(n, _ => Foreign)
      ensures old(mem) <= mem
    {
      if freep.Some? {
        GrownGood(mem, ch, live, use, n, Foreign);
      }
      mem := mem + seq(n, _ => Header(0, 0));
      use := use + seq(n, _ => Foreign);
    }

    /** A store by the program into a block it has been given. */
    method Store(u: nat, h: Header)
      requires Valid() && freep.Some? && u < |use| && use[u].Block? && u != use[u].b
      modifies this
      ensures Valid() && live == old(live) && use == old(use) && freep == old(freep) && ch == old(ch)
      ensures u < |old(mem)| && mem == old(mem)[u := h]
    {
      hide Sorted, InFree;
      ghost var m0 := mem;
      mem := mem[u := h];
      forall i | 0 <= i < |ch| ensures LinkedAt(mem, ch, i) {
        assert LinkedAt(m0, ch, i);
        NotInside(m0, ch, live, use, i, u);
      }
      forall b | b in live ensures mem[b].size == live[b] {
        assert use[b] == Block(b);
      }
    }

    /** morecore() of a byte count that is an int, where `ok` is whether sbrk() succeeds. */
    method Morecore(nu: nat, ok: bool)
      requires Valid() && freep.Some? && SbrkArg(nu) == 8 * Units(nu)
      modifies this
      ensures Valid() && freep.Some? && live == old(live)
      ensures ok ==> use == old(use) + seq(Units(nu), _ => Use.Free) && Fits(ch, nu)
      ensures !ok ==> use == old(use) && mem == old(mem) && ch == old(ch) && freep == old(freep)
      ensures Kept(old(use), old(mem), mem)
    {
      hide Sorted, Linked, Uses, InFree;
      if !ok {
        return;
      }
      var n := Units(nu);
      var hp := |mem|;
      GrownGood(mem, ch, live, use, n, Block(hp));
      NewBlock(live, use, ch, hp);
      mem := mem + seq(n, _ => Header(0, 0));
      mem := mem[hp := Header(mem[hp].ptr, n)];
      use := use + seq(n, _ => Block(hp));
      live := live[hp := n];
      Free(hp + 1);
      assert live == old(live);
      assert use == old(use) + seq(n, _ => Use.Free);
      FitsLess(ch, n, nu);
    }

    /** The part of malloc() that takes n units from the chunk at p, which follows prevp. */
    method Take(prevp: nat, p: nat, n: nat, ghost k: nat) returns (b: nat)
      requires Valid() && freep.Some? && 0 < k < |ch| && p == ch[k].a && prevp == ch[k - 1].a && 0 < n <= ch[k].n
      modifies this
      ensures Valid() && freep.Some?
      ensures b + n <= |old(use)| && (forall u: nat :: b <= u < b + n ==> old(use)[u] == Use.Free)
      ensures b !in old(live) && live == old(live)[b := n] && use == Given(old(use), b, n, Block(b))
      ensures Kept(old(use), old(mem), mem)
    {
      hide Sorted, Linked, Uses, InFree, Drop, Splice, Given;
      LinksIn(mem, ch, k);
      LinksIn(mem, ch, k - 1);
      ChunkFits(mem, ch, k);
      forall u: nat | u < |use| && use[u].Block? ensures u != p && u != prevp {
        NotInside(mem, ch, live, use, k, u);
        NotInside(mem, ch, live, use, k - 1, u);
      }
      if mem[p].size == n {
        WholeGood(mem, ch, live, use, k);
        mem := mem[prevp := Header(mem[p].ptr, mem[prevp].size)];
        b := p;
        KeptByDrop(ch, k);
        ch := Drop(ch, k);
      } else {
        b := p + (mem[p].size - n);
        TailGood(mem, mem[p := Header(mem[p].ptr, mem[p].size - n)][b := Header(mem[b].ptr, n)], ch, live, use, k, n,
            b);
        mem := mem[p := Header(mem[p].ptr, mem[p].size - n)];
        mem := mem[b := Header(mem[b].ptr, n)];
        KeptBySplice(ch, k, Chunk(p, ch[k].n - n));
        ch := Splice(ch, k, k + 1, Chunk(p, ch[k].n - n));
      }
      use, live := Given(use, b, n, Block(b)), live[b := n];
      freep := Some(prevp);
    }

    /** malloc()'s set-up of the empty ring. */
    method Start()
      requires Valid()
      modifies this
      ensures Valid() && freep.Some? && live == old(live) && use == old(use) && ch == old(ch)
      ensures Kept(use, old(mem), mem)
    {
      if freep == None {
        BaseAlone(mem, ch, live, use);
        mem := mem[BASE := Header(BASE, 0)];
        freep := Some(BASE);
        assert ch[0].a == BASE;
      }
    }

    /**
     malloc(), where `more` is whether sbrk() would succeed: a block of whole units that were free,
     or that sbrk() has just added; it fails exactly when no chunk fits and sbrk() fails.  The loop
     ends, and it calls morecore() at most once.
     */
    method Malloc(nbytes: nat, more: bool) returns (r: Option<nat>)
      requires Valid() && 8 * UnitsFor(nbytes) < INT_LIMIT
      modifies this
      ensures Valid() && freep.Some?
      ensures r.None? <==> !Fits(old(ch), UnitsFor(nbytes)) && !more
      ensures r.None? ==> live == old(live) && use == old(use)
      ensures r.Some? ==> r.value > 0 && Served(old(use), old(live), use, live, r.value - 1, UnitsFor(nbytes),
                                                Fits(old(ch), UnitsFor(nbytes)))
      ensures Kept(old(use), old(mem), mem)
    {
      hide Sorted, Linked, Uses, InFree, Given, Fits, UnitsFor, Kept, Searching, SbrkArg;
      var n := WrappedUnits(nbytes);
      assert n == UnitsFor(nbytes) && SbrkArg(n) == 8 * Units(n) by {
        RequestFits(nbytes);
      }
      Start();
      var prevp := freep.value;
      ghost var s: nat, d: nat, called := ChunkAt(ch, prevp), 0, false;
      SearchStarts(mem, ch, prevp, s, n);
      var p := mem[prevp].ptr;
      while true
        invariant Valid() && freep.Some? && Searching(ch, freep.value, s, d, prevp, p, n)
        invariant live == old(live) && Kept(old(use), old(mem), mem)
        invariant !called ==> ch == old(ch) && use == old(use)
        invariant called ==> more && Fits(ch, n) && !Fits(old(ch), n) && use == old(use) + seq(Units(n), _ => Use.Free)
        decreases !called, |ch| - d
      {
        SearchLooks(mem, ch, freep.value, s, d, prevp, p, n);
        if mem[p].size >= n {
          ghost var m1, u1 := mem, use;
          var b := Take(prevp, p, n, Wrap(s + d + 1, |ch|));
          KeptTwice(old(use), u1, old(mem), m1, mem);
          return Some(b + 1);
        }
        if p == freep.value {
          ghost var m1 := mem;
          Morecore(n, more);
          KeptTwice(old(use), old(use), old(mem), m1, mem);
          if !more {
            return None;
          }
          p := freep.value;
          s, d, called := ChunkAt(ch, p), 0, true;
          SearchStarts(mem, ch, p, s, n);
        } else {
          d := d + 1;
        }
        prevp := p;
        p := mem[p].ptr;
      }
      return None;
    }
  }

  /** No unit of a block in `use` is written. */
  ghost predicate Kept(use: seq<Use>, m0: seq<Header>, mem: seq<Header>) {
    |m0| <= |mem| && forall u :: 0 <= u < |m0| && u < |use| && use[u].Block? ==> mem[u] == m0[u]
  }

  lemma KeptTwice(use: seq<Use>, u2: seq<Use>, m0: seq<Header>, m1: seq<Header>, m2: seq<Header>)
    requires Kept(use, m0, m1) && Kept(u2, m1, m2) && (use == u2 || (use <= u2 && |use| == |m0|))
    ensures Kept(use, m0, m2)
  {
  }

  /** What malloc() has done when it returns the block of n units at b. */
  ghost predicate Served(use: seq<Use>, live: map<nat, nat>, u2: seq<Use>, l2: map<nat, nat>, b: nat, n: nat,
                         fit: bool)
  {
    var had := if fit then use else use + seq(Units(n), _ => Use.Free);
    && b + n <= |had| && (forall u: nat :: b <= u < b + n ==> had[u] == Use.Free)
    && b !in live && l2 == live[b := n] && u2 == Given(had, b, n, Block(b))
  }

  lemma BaseAlone(mem: seq<Header>, ch: seq<Chunk>, live: map<nat, nat>, use: seq<Use>)
    requires ch == [Chunk(BASE, 0)] && live == map[] && |mem| == |use| && Uses(use, ch, live)
    ensures |mem| > BASE && Good(mem[BASE := Header(BASE, 0)], ch, live, use)
    ensures use[BASE] == Foreign
  {
  }

  ghost function ChunkAt(ch: seq<Chunk>, a: nat): (i: nat)
    requires exists i :: 0 <= i < |ch| && ch[i].a == a
    ensures i < |ch| && ch[i].a == a
  {
    var i :| 0 <= i < |ch| && ch[i].a == a;
    i
  }

  /** malloc()'s loop has tried the d chunks after chunk s, where it began, and looks at the next. */
  ghost predicate Searching(ch: seq<Chunk>, f: nat, s: nat, d: nat, prevp: nat, p: nat, n: nat) {
    && s < |ch| && ch[s].a == f && d < |ch| && Tried(ch, s, d, n)
    && prevp == ch[Wrap(s + d, |ch|)].a && p == Succ(ch, Wrap(s + d, |ch|))
  }

  lemma SearchStarts(mem: seq<Header>, ch: seq<Chunk>, f: nat, s: nat, n: nat)
    requires Sorted(ch) && Linked(mem, ch) && s < |ch| && ch[s].a == f
    ensures f < |mem| && Searching(ch, f, s, 0, f, mem[f].ptr, n)
  {
    LinksIn(mem, ch, s);
  }

  /** The chunk it looks at fits, or the search goes on, or every chunk was tried. */
  lemma SearchLooks(mem: seq<Header>, ch: seq<Chunk>, f: nat, s: nat, d: nat, prevp: nat, p: nat, n: nat)
    requires Sorted(ch) && Linked(mem, ch) && Searching(ch, f, s, d, prevp, p, n) && n > 0
    ensures var k := Wrap(s + d + 1, |ch|);
            && k < |ch| && p == ch[k].a && p < |mem| && mem[p].size == ch[k].n
            && (ch[k].n >= n ==> k > 0 && prevp == ch[k - 1].a && Fits(ch, n))
            && (ch[k].n < n && p == f ==> !Fits(ch, n))
            && (ch[k].n < n && p != f ==> d + 1 < |ch| && Searching(ch, f, s, d + 1, p, mem[p].ptr, n))
  {
    var k := Wrap(s + d + 1, |ch|);
    LinksIn(mem, ch, k);
  }

  lemma ChunkFits(mem: seq<Header>, ch: seq<Chunk>, k: nat)
    requires Linked(mem, ch) && k < |ch|
    ensures ch[k].a + ch[k].n <= |mem|
  {
    assert LinkedAt(mem, ch, k);
  }

  lemma KeptByDrop(ch: seq<Chunk>, k: nat)
    requires 0 < k < |ch|
    ensures exists i :: 0 <= i < |Drop(ch, k)| && Drop(ch, k)[i].a == ch[k - 1].a
  {
    assert Drop(ch, k)[k - 1] == ch[k - 1];
  }

  lemma KeptBySplice(ch: seq<Chunk>, k: nat, c: Chunk)
    requires 0 < k < |ch|
    ensures var r := Splice(ch, k, k + 1, c); exists i :: 0 <= i < |r| && r[i].a == ch[k - 1].a
  {
    assert Splice(ch, k, k + 1, c)[k - 1] == ch[k - 1];
  }

  /** malloc()'s nunits. */
  function UnitsFor(nbytes: nat): (n: nat)
    ensures n > 0 && 8 * (n - 1) >= nbytes && (n > 1 ==> 8 * (n - 2) < nbytes)
  {
    (nbytes + 8 - 1) / 8 + 1
  }

  /** The same on 32-bit unsigned integers, as malloc() computes it. */
  function WrappedUnits(nbytes: nat): (n: nat)
    ensures n > 0
  {
    (nbytes + 8 - 1) % UINT_LIMIT / 8 + 1
  }

  /** What morecore() hands to sbrk(), which takes an int: a count from 2^31 bytes on arrives negative. */
  function SbrkArg(nu: nat): (n: Int) {
    var b := 8 * Units(nu) % UINT_LIMIT;
    if b < INT_LIMIT then b else b - UINT_LIMIT
  }

  /**
   The block is large enough for the request, and sbrk() is asked for that much memory, exactly for
   requests whose units, counted without a limit, make fewer than 2^31 bytes.
   */
  lemma RequestFits(nbytes: nat)
    requires nbytes < UINT_LIMIT
    ensures var n := WrappedUnits(nbytes);
            && (8 * UnitsFor(nbytes) < INT_LIMIT <==> 8 * (n - 1) >= nbytes && SbrkArg(n) == 8 * Units(n))
            && (8 * UnitsFor(nbytes) < INT_LIMIT ==> n == UnitsFor(nbytes))
  {
  }

  /** For every larger request the block would be too small, or sbrk() is asked for nothing or for less than nothing. */
  lemma RequestFails(nbytes: nat)
    requires nbytes < UINT_LIMIT && 8 * UnitsFor(nbytes) >= INT_LIMIT
    ensures 8 * (WrappedUnits(nbytes) - 1) < nbytes || SbrkArg(WrappedUnits(nbytes)) <= 0
  {
  }

  /** Half of the address space is such a request, though nothing wraps in it. */
  lemma HalfOfMemory()
    ensures WrappedUnits(0x8000_0000) == UnitsFor(0x8000_0000) && SbrkArg(WrappedUnits(0x8000_0000)) == -0x7FFF_FFF8
  {
  }

  function Wrap(i: nat, n: nat): nat {
    if i < n then i else i - n
  }

  /** Steps round the ring of n chunks from s to i, at least 1. */
  function Steps(s: nat, i: nat, n: nat): int {
    if i > s then i - s else i - s + n
  }

  /** The d chunks after chunk s are too small. */
  predicate Tried(ch: seq<Chunk>, s: nat, d: nat, n: nat) {
    forall i :: 0 <= i < |ch| && Steps(s, i, |ch|) <= d ==> ch[i].n < n
  }

  /** How much morecore() asks for. */
  function Units(nu: nat): nat {
    if nu < MINUNITS then MINUNITS else nu
  }

  lemma FitsLess(ch: seq<Chunk>, n: nat, m: nat)
    requires Fits(ch, n) && m <= n
    ensures Fits(ch, m)
  {
  }

  lemma NewBlock(live: map<nat, nat>, use: seq<Use>, ch: seq<Chunk>, hp: nat)
    requires Uses(use, ch, live) && hp >= |use|
    ensures hp !in live
  {
  }

  /** The free list and the blocks are as good when the memory grows. */
  lemma GrownGood(mem: seq<Header>, ch: seq<Chunk>, live: map<nat, nat>, use: seq<Use>, n: nat, to: Use)
    requires Good(mem, ch, live, use) && (to == Foreign || (to == Block(|mem|) && n > 0))
    ensures var m := mem + seq(n, _ => Header(0, 0));
            if to == Foreign then Good(m, ch, live, use + seq(n, _ => to))
            else Good(m[|mem| := Header(0, n)], ch, live[|mem| := n], use + seq(n, _ => to))
  {
    var grown := mem + seq(n, _ => Header(0, 0));
    var m := if to == Foreign then grown else grown[|mem| := Header(0, n)];
    var r := use + seq(n, _ => to);
    forall i | 0 <= i < |ch| ensures LinkedAt(m, ch, i) {
      assert LinkedAt(mem, ch, i);
    }
    forall u | 0 <= u < |r| ensures r[u] == Free <==> InFree(ch, u) {
      FreeBelow(mem, ch, u);
    }
  }

  lemma FreeBelow(mem: seq<Header>, ch: seq<Chunk>, u: nat)
    requires Linked(mem, ch)
    ensures InFree(ch, u) ==> u < |mem|
  {
    if i :| 0 <= i < |ch| && ch[i].Has(u) {
      assert LinkedAt(mem, ch, i);
    }
  }

  // ---- Taking a block out -----------------------------------------------------------------------

  /** A stretch of free units leaves the free list and becomes a block. */
  lemma TakenUses(use: seq<Use>, ch: seq<Chunk>, c2: seq<Chunk>, live: map<nat, nat>, b: nat, n: nat)
    requires Uses(use, ch, live) && n > 0 && b + n <= |use|
    requires forall u :: b <= u < b + n ==> use[u] == Free
    requires forall u: nat :: u < |use| ==> (InFree(c2, u) <==> InFree(ch, u) && !(b <= u < b + n))
    ensures Uses(Given(use, b, n, Block(b)), c2, live[b := n]) && b !in live
  {
    hide InFree;
    var r, l2 := Given(use, b, n, Block(b)), live[b := n];
    assert use[b] == Free;
    forall c, u | c in l2 && c <= u < c + l2[c] ensures r[u] == Block(c) {
      assert c != b ==> use[u] == Block(c);
    }
  }

  /** malloc() takes the whole of chunk k. */
  lemma WholeGood(mem: seq<Header>, ch: seq<Chunk>, live: map<nat, nat>, use: seq<Use>, k: nat)
    requires Good(mem, ch, live, use) && 0 < k < |ch| && ch[k - 1].a < |mem| && ch[k].a + ch[k].n <= |use|
    ensures var c := ch[k];
            Good(mem[ch[k - 1].a := Header(Succ(ch, k), ch[k - 1].n)], Drop(ch, k), live[c.a := c.n],
                Given(use, c.a, c.n, Block(c.a)))
    ensures ch[k].a !in live && forall u: nat :: ch[k].Has(u) ==> use[u] == Free
  {
    hide Drop, InFree;
    var c := ch[k];
    forall u: nat | u < |use|
      ensures (InFree(Drop(ch, k), u) <==> InFree(ch, u) && !c.Has(u)) && (c.Has(u) ==> InFree(ch, u)) {
      DropUnits(ch, k, u);
      if c.Has(u) {
        ChunkFree(ch, k, u);
      }
    }
    TakenUses(use, ch, Drop(ch, k), live, c.a, c.n);
    DropSorted(ch, k);
    DropLinked(mem, mem[ch[k - 1].a := Header(Succ(ch, k), ch[k - 1].n)], ch, k);
    assert LinkedAt(mem, ch, k);
    forall b | b in live ensures b < |mem| && b != ch[k - 1].a {
      NotAChunk(mem, ch, live, use, b, k - 1);
    }
  }

  lemma TailLinked(mem: seq<Header>, m2: seq<Header>, ch: seq<Chunk>, k: nat, n: nat, b: nat)
    requires Sorted(ch) && Linked(mem, ch) && 0 < k < |ch| && 0 < n < ch[k].n && b == ch[k].a + ch[k].n - n
    requires ch[k].a + ch[k].n <= |mem|
    requires m2 == mem[ch[k].a := Header(Succ(ch, k), ch[k].n - n)][b := Header(mem[b].ptr, n)]
    ensures Linked(m2, Splice(ch, k, k + 1, Chunk(ch[k].a, ch[k].n - n)))
    ensures Sorted(Splice(ch, k, k + 1, Chunk(ch[k].a, ch[k].n - n)))
  {
    hide Splice;
    var c := Chunk(ch[k].a, ch[k].n - n);
    SpliceSorted(ch, k, k + 1, c);
    forall i | 0 <= i < |ch| && i != k ensures ch[i].a < |mem| && m2[ch[i].a] == mem[ch[i].a] {
      assert LinkedAt(mem, ch, i);
    }
    assert LinkedAt(mem, ch, k - 1) && LinkedAt(mem, ch, k);
    SpliceLinked(mem, m2, ch, k, k + 1, c);
  }

  /** malloc() takes the last n units of chunk k. */
  lemma TailGood(mem: seq<Header>, m2: seq<Header>, ch: seq<Chunk>, live: map<nat, nat>, use: seq<Use>, k: nat,
                 n: nat, b: nat)
    requires Good(mem, ch, live, use) && 0 < k < |ch| && 0 < n < ch[k].n && b == ch[k].a + ch[k].n - n
    requires ch[k].a + ch[k].n <= |mem|
    requires m2 == mem[ch[k].a := Header(Succ(ch, k), ch[k].n - n)][b := Header(mem[b].ptr, n)]
    ensures Good(m2, Splice(ch, k, k + 1, Chunk(ch[k].a, ch[k].n - n)), live[b := n], Given(use, b, n, Block(b)))
    ensures b !in live && forall u :: b <= u < b + n ==> use[u] == Free
  {
    hide Splice, InFree, Sorted, Linked;
    var c2 := Splice(ch, k, k + 1, Chunk(ch[k].a, ch[k].n - n));
    forall u: nat | u < |use|
      ensures (InFree(c2, u) <==> InFree(ch, u) && !(b <= u < b + n)) && (ch[k].Has(u) ==> InFree(ch, u)) {
      TailUnits(ch, k, n, u);
    }
    TakenUses(use, ch, c2, live, b, n);
    TailLinked(mem, m2, ch, k, n, b);
    forall d | d in live ensures d < |mem| && d != ch[k].a && d != b {
      NotAChunk(mem, ch, live, use, d, k);
    }
  }

  lemma TailUnits(ch: seq<Chunk>, k: nat, n: nat, u: nat)
    requires Sorted(ch) && 0 < k < |ch| && 0 < n < ch[k].n
    ensures var b := ch[k].a + ch[k].n - n;
            InFree(Splice(ch, k, k + 1, Chunk(ch[k].a, ch[k].n - n)), u) <==> InFree(ch, u) && !(b <= u < b + n)
    ensures ch[k].Has(u) ==> InFree(ch, u)
  {
    var c := Chunk(ch[k].a, ch[k].n - n);
    var r := Splice(ch, k, k + 1, c);
    if i :| 0 <= i < |ch| && ch[i].Has(u) {
      assert i != k ==> r[i].Has(u);
      assert i == k && u < ch[k].a + ch[k].n - n ==> r[k].Has(u);
    }
    if i :| 0 <= i < |r| && r[i].Has(u) {
      assert ch[i].Has(u);
    }
  }

  /** No chunk has its header inside a live block. */
  lemma NotInside(mem: seq<Header>, ch: seq<Chunk>, live: map<nat, nat>, use: seq<Use>, i: nat, u: nat)
    requires Good(mem, ch, live, use) && i < |ch| && u < |use| && use[u].Block?
    ensures ch[i].a != u
  {
    if i > 0 && ch[i].a == u {
      ChunkFree(ch, i, u);
    }
  }

  lemma LinksIn(mem: seq<Header>, ch: seq<Chunk>, k: nat)
    requires Sorted(ch) && Linked(mem, ch) && k < |ch|
    ensures ch[k].a < |mem| && mem[ch[k].a] == Header(Succ(ch, k), ch[k].n) && Succ(ch, k) < |mem|
  {
    assert LinkedAt(mem, ch, k);
    assert LinkedAt(mem, ch, if k + 1 < |ch| then k + 1 else 0);
  }

  /** The chunk free() stops at is still the start of a chunk. */
  lemma StaysChunk(ch: seq<Chunk>, t: nat, b: nat, n: nat)
    requires t < |ch|
    ensures var r := Insert(ch, t, b, n); exists i :: 0 <= i < |r| && r[i].a == ch[t].a
  {
    assert Insert(ch, t, b, n)[t].a == ch[t].a;
  }

  lemma OthersKept(mem: seq<Header>, ch: seq<Chunk>, live: map<nat, nat>, use: seq<Use>, t: nat, b: nat)
    requires Good(mem, ch, live, use) && b in live && t < |ch| && ch[t].a < |mem| && mem[ch[t].a].ptr < |mem|
    requires b + live[b] <= |use| && b < |mem|
    ensures forall u :: 0 <= u < |mem| && Given(use, b, live[b], Free)[u].Block? ==>
              FreedMem(mem, ch[t].a, b)[u] == mem[u]
  {
    assert use[b] == Block(b);
    if t > 0 {
      ChunkFree(ch, t, ch[t].a);
    }
  }
}
