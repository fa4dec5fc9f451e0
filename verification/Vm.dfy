/**
 Physical pages and page tables: kalloc.c and the page-table half of vm.c, on one memory that holds
 both the tables and the free list.
 */
module Vm {
  import opened Common
  import opened Blocks
  import opened Paging

  const KERNBASE := 0x8000_0000
  const PHYSPAGES := 0xE000          // PHYSTOP / PGSIZE
  const JUNK := 0x0101_0101          // what memset(v, 1, PGSIZE) leaves in each word

  /** P2V of a page. */
  function Kva(p: nat): (a: Uint)
    requires p < PHYSPAGES
    ensures a != 0
  {
    KERNBASE + p * PGSIZE
  }

  /** PGROUNDUP as a page number. */
  function RoundUp(sz: Uint): nat {
    (sz + PGSIZE - 1) / PGSIZE
  }

  function PageOf(a: Uint): nat
    requires KERNBASE <= a
  {
    (a - KERNBASE) / PGSIZE
  }

  ghost predicate OnList(mem: seq<Page>, free: seq<nat>) {
    && (forall k :: 0 <= k < |free| ==> free[k] < |mem| <= PHYSPAGES)
    && (forall j, k :: 0 <= j < k < |free| ==> free[j] != free[k])
  }

  /** The pointer to the k-th page of the list, null past its end. */
  ghost function Link(mem: seq<Page>, free: seq<nat>, k: nat): Uint
    requires OnList(mem, free)
  {
    if k < |free| then Kva(free[k]) else 0
  }

  /** The free list: each free page's first word points to the next free page. */
  ghost predicate Chain(mem: seq<Page>, head: Uint, free: seq<nat>) {
    && OnList(mem, free)
    && head == Link(mem, free, 0)
    && forall k: nat :: k < |free| ==> NextOk(mem, free, k)
  }

  ghost predicate NextOk(mem: seq<Page>, free: seq<nat>, k: nat)
    requires OnList(mem, free) && k < |free|
  {
    mem[free[k]][0] == Link(mem, free, k + 1)
  }

  /** Writing a page that is not on the list leaves the list alone. */
  lemma ChainKept(mem: seq<Page>, head: Uint, free: seq<nat>, p: nat, x: Page)
    requires Chain(mem, head, free) && p < |mem| && p !in free
    ensures Chain(mem[p := x], head, free)
  {
    var mem' := mem[p := x];
    forall k: nat | k < |free| ensures NextOk(mem', free, k) {
      assert NextOk(mem, free, k);
    }
  }

  lemma ChainPushed(mem: seq<Page>, head: Uint, free: seq<nat>, p: nat)
    requires Chain(mem, head, free) && p < |mem| <= PHYSPAGES && p !in free && mem[p][0] == head
    ensures Chain(mem, Kva(p), [p] + free)
  {
    var free' := [p] + free;
    forall k: nat | k < |free'| ensures NextOk(mem, free', k) {
      if k > 0 {
        assert NextOk(mem, free, k - 1);
      }
    }
  }

  lemma ChainPopped(mem: seq<Page>, head: Uint, free: seq<nat>)
    requires Chain(mem, head, free) && free != []
    ensures Chain(mem, mem[free[0]][0], free[1..])
  {
    assert NextOk(mem, free, 0);
    forall k: nat | k < |free| - 1 ensures NextOk(mem, free[1..], k) {
      assert NextOk(mem, free, k + 1);
    }
  }

  /** Pages that are free or belong to directory d. */
  ghost predicate InPool(use: Uses, d: nat, p: nat) {
    p in use && (use[p].Free? || OwnedBy(use, d, p))
  }

  /**
   Going from (mem, use) to (mem', use'), pages moved only between the free list and directory d;
   every other page, except x, has the same use and the same contents.
   */
  ghost predicate OnlyPool(mem: seq<Page>, use: Uses, mem': seq<Page>, use': Uses, d: nat, x: nat) {
    && |mem'| == |mem| && use'.Keys == use.Keys
    && forall q :: q in use && q != x ==> PoolStep(mem, use, mem', use', d, q)
  }

  ghost predicate PoolStep(mem: seq<Page>, use: Uses, mem': seq<Page>, use': Uses, d: nat, q: nat)
    requires |mem'| == |mem| && use'.Keys == use.Keys && q in use
  {
    && (InPool(use', d, q) <==> InPool(use, d, q))
    && (!InPool(use, d, q) ==> q < |mem| && use'[q] == use[q] && mem'[q] == mem[q])
  }

  lemma OnlyPoolTrans(m0: seq<Page>, u0: Uses, m1: seq<Page>, u1: Uses, m2: seq<Page>, u2: Uses, d: nat, x: nat)
    requires OnlyPool(m0, u0, m1, u1, d, x) && OnlyPool(m1, u1, m2, u2, d, x)
    ensures OnlyPool(m0, u0, m2, u2, d, x)
  {
    forall q | q in u0 && q != x ensures PoolStep(m0, u0, m2, u2, d, q) {
      assert PoolStep(m0, u0, m1, u1, d, q) && PoolStep(m1, u1, m2, u2, d, q);
    }
  }

  /** Every page is free, a directory, a page table or a user page: none is lost. */
  ghost predicate NoneLost(use: Uses) {
    forall p :: p in use ==> use[p] != Kernel
  }

  lemma PoolLosesNone(m0: seq<Page>, u0: Uses, mem: seq<Page>, use: Uses, d: nat)
    requires OnlyPool(m0, u0, mem, use, d, 0) && 0 !in u0
    ensures NoneLost(u0) ==> NoneLost(use)
  {
    forall q | q in u0 ensures use[q] == Kernel ==> u0[q] == Kernel {
      assert PoolStep(m0, u0, mem, use, d, q);
    }
  }

  // ---------- What a call costs ----------

  /** The entries of a directory that have a table. */
  ghost function Held(dir: Page): set<nat> {
    set i: nat | i < NENTRIES && Present(dir[i])
  }

  predicate AtLeast(i: nat, lo: nat) {
    lo <= i
  }

  ghost function Range(lo: nat, hi: nat): set<nat> {
    set i: nat | i < hi && AtLeast(i, lo)
  }

  /** The directory entries that virtual pages v .. v + n fall under. */
  ghost function Span(v: nat, n: nat): set<nat> {
    if n == 0 then {} else Range(v / NENTRIES, (v + n - 1) / NENTRIES + 1)
  }

  /** The free pages that n new pages under these directory entries take: the pages and the missing tables. */
  ghost function Needs(dir: Page, slots: set<nat>, n: nat): nat {
    n + |slots - Held(dir)|
  }

  /** The number of free pages went from f0 to f1: n pages, and a table for each of `slots` that had none. */
  ghost predicate Spent(f0: nat, dir0: Page, f1: nat, dir1: Page, slots: set<nat>, n: nat) {
    Held(dir1) == Held(dir0) + slots && f1 + n + |Held(dir1)| == f0 + |Held(dir0)|
  }

  lemma SpanMore(v: nat, n: nat)
    ensures Span(v, n + 1) == Span(v, n) + Span(v + n, 1)
  {
  }

  lemma SpanNone(v: nat)
    ensures Span(v, 0) == {}
  {
  }

  lemma SpanGrows(v: nat, j: nat, n: nat)
    requires j <= n
    ensures Span(v, j) <= Span(v, n)
  {
  }

  lemma NothingSpent(f: nat, dir: Page)
    ensures Spent(f, dir, f, dir, {}, 0)
  {
    assert Held(dir) + {} == Held(dir);
  }

  lemma SpentMore(f0: nat, a: Page, f1: nat, b: Page, f2: nat, c: Page, s: set<nat>, t: set<nat>, n: nat, k: nat)
    requires Spent(f0, a, f1, b, s, n) && Spent(f1, b, f2, c, t, k)
    ensures Spent(f0, a, f2, c, s + t, n + k)
  {
    assert Held(c) == Held(a) + (s + t);
  }

  lemma SpentSize(f0: nat, a: Page, f1: nat, b: Page, s: set<nat>, n: nat)
    requires Spent(f0, a, f1, b, s, n)
    ensures f1 + Needs(a, s, n) == f0
  {
    var h, k := Held(a), Held(b);
    assert s - h == k - h && h * k == h;
  }

  /** A call that has spent what it needs so far and lacks what the next page takes lacks what it needs. */
  lemma RanOut(f0: nat, a: Page, f1: nat, b: Page, s: set<nat>, n: nat, t: set<nat>, extra: nat, all: set<nat>,
               total: nat)
    requires Spent(f0, a, f1, b, s, n) && s + t <= all && n + extra <= total && f1 < Needs(b, t, extra)
    ensures Needs(a, all, total) > f0
  {
    SpentSize(f0, a, f1, b, s, n);
    var h, x := Held(a), t - Held(b);
    SmallerSet((s - h) + x, all - h);
    assert (s - h) * x == {};
  }

  /** The round for page v + j of v .. v + n: it cannot be done only when the whole cannot. */
  lemma OnePageMore(f0: nat, a: Page, f1: nat, b: Page, v: nat, j: nat, n: nat)
    requires Spent(f0, a, f1, b, Span(v, j), j) && j < n
    ensures Span(v, j + 1) == Span(v, j) + Span(v + j, 1)
    ensures f1 < Needs(b, Span(v + j, 1), 1) ==> Needs(a, Span(v, n), n) > f0
  {
    hide Spent, Needs, Span;
    SpanMore(v, j);
    SpanGrows(v, j + 1, n);
    if f1 < Needs(b, Span(v + j, 1), 1) {
      RanOut(f0, a, f1, b, Span(v, j), j, Span(v + j, 1), 1, Span(v, n), n);
    }
  }

  /** What growing from oldsz to newsz bytes takes from the free list. */
  ghost function GrowthNeeds(dir: Page, oldsz: Uint, newsz: Uint): nat {
    var lo, hi := RoundUp(oldsz), RoundUp(newsz);
    if lo <= hi then Needs(dir, Span(lo, hi - lo), hi - lo) else 0
  }

  lemma SmallerSet(a: set<nat>, b: set<nat>)
    requires a <= b
    ensures |a| <= |b|
  {
    assert a + (b - a) == b;
  }

  lemma NeedsOne(b: Page, v: nat, extra: nat)
    requires v < NVPN
    ensures Needs(b, Span(v, 1), extra) == extra + if Present(b[v / NENTRIES]) then 0 else 1
  {
    var i := v / NENTRIES;
    assert Span(v, 1) == {i};
    if Present(b[i]) {
      assert {i} - Held(b) == {};
    } else {
      assert {i} - Held(b) == {i};
    }
  }

  lemma PageSpent(f1: nat, a: Page, f2: nat, b: Page, s: set<nat>)
    requires Spent(f1, a, f2, b, s, 0)
    ensures Spent(f1 + 1, a, f2, b, s, 1)
  {
  }

  lemma NewTableSpent(f0: nat, a: Page, b: Page, v: nat, e: Uint)
    requires v < NVPN && f0 > 0 && !Present(a[v / NENTRIES]) && Present(e) && b == a[v / NENTRIES := e]
    ensures Spent(f0, a, f0 - 1, b, Span(v, 1), 0)
  {
    assert Held(b) == Held(a) + {v / NENTRIES};
    assert Span(v, 1) == {v / NENTRIES};
  }

  lemma NoTableSpent(f: nat, a: Page, v: nat)
    requires v < NVPN && Present(a[v / NENTRIES])
    ensures Spent(f, a, f, a, Span(v, 1), 0)
  {
    assert Span(v, 1) == {v / NENTRIES};
    assert Held(a) == Held(a) + Span(v, 1);
  }

  ghost function KernelUses(first: nat, n: nat): (use: Uses)
    ensures forall p: nat :: p in use <==> first <= p < n
    ensures forall p :: p in use ==> use[p] == Kernel
  {
    if n <= first then map[] else KernelUses(first, n - 1)[n - 1 := Kernel]
  }

  /** mappages on one page: done, out of memory (-1), or the "remap" panic. */
  datatype MapResult = Mapped | NoMemory | Remap

  /** Pages that hold data, a process's or the kernel's, have the same contents. */
  ghost predicate DataKept(m0: seq<Page>, u0: Uses, mem: seq<Page>) {
    |mem| == |m0| && forall q :: q in u0 && (u0[q].User? || u0[q].Kernel?) && q < |m0| ==> mem[q] == m0[q]
  }

  class Memory {
    const first: nat          // the page of `end`, the first one after the kernel
    var mem: seq<Page>
    var freelist: Uint        // kmem.freelist
    ghost var free: seq<nat>  // the pages on it, in order
    ghost var use: Uses

    /** Every page from `first` on has exactly one use, and is on the free list exactly when it is free. */
    ghost predicate Valid()
      reads this
    {
      && 0 < first <= |mem| <= PHYSPAGES
      && (forall p: nat :: p in use <==> first <= p < |mem|)
      && Good(mem, use)
      && Chain(mem, freelist, free)
      && forall p: nat :: p in free <==> p in use && use[p] == Free
    }

    /** kfree past its checks: fill the page with junk and push it on the free list. */
    method PushFree(p: nat)
      requires Chain(mem, freelist, free) && p < |mem| <= PHYSPAGES && p !in free
      modifies this`mem, this`freelist, this`free
      ensures Chain(mem, freelist, free) && free == [p] + old(free)
      ensures |mem| == |old(mem)| && mem == old(mem)[p := mem[p]]
    {
      var junk: Page := seq(NENTRIES, _ => JUNK);
      var page: Page := junk[0 := freelist];
      ChainKept(mem, freelist, free, p, page);
      mem := mem[p := page];
      ChainPushed(mem, freelist, free, p);
      freelist := Kva(p);
      free := [p] + free;
    }

    /** kfree; false is its panic. */
    method Kfree(p: nat) returns (ok: bool)
      requires Valid() && (p in use ==> use[p] == Kernel)
      modifies this
      ensures ok <==> first <= p < |old(mem)|
      ensures !ok ==> mem == old(mem) && use == old(use) && free == old(free) && freelist == old(freelist)
      ensures ok ==>
                && Valid() && use == old(use)[p := Free] && free == [p] + old(free)
                && |mem| == |old(mem)| && mem == old(mem)[p := mem[p]]
                && SamePtes(old(mem), use)
    {
      hide Good, Chain, Pte;
      if p < first || p >= |mem| {
        return false;
      }
      ghost var m0 := mem;
      PushFree(p);
      DataWriteGood(m0, use, p, mem[p]);
      forall e: nat, v: nat | IsDir(use, e) && v < NVPN
        ensures e < |mem| && Pte(mem, e, v) == Pte(m0, e, v)
      {
        GoodBounds(m0, use);
        DataWrite(m0, use, p, mem[p], e, v);
      }
      Relabel(mem, use, p, Free);
      use := use[p := Free];
      return true;
    }

    /** kalloc. */
    method Kalloc() returns (r: Option<nat>)
      requires Valid()
      modifies this`freelist, this`free, this`use
      ensures Valid()
      ensures r.None? <==> old(free) == []
      ensures r.None? ==> use == old(use) && free == old(free)
      ensures r.Some? ==>
                && r.value == old(free)[0] && free == old(free)[1..]
                && r.value in use && old(use)[r.value] == Free && use == old(use)[r.value := Kernel]
    {
      hide Good;
      if freelist == 0 {
        return None;
      }
      var p := PageOf(freelist);
      assert p == free[0];
      ChainPopped(mem, freelist, free);
      assert forall q: nat :: q in free[1..] <==> q in free && q != p;
      Relabel(mem, use, p, Kernel);
      freelist := mem[p][0];
      free := free[1..];
      use := use[p := Kernel];
      return Some(p);
    }

    /** kinit1 and kinit2: freerange over every page the kernel does not occupy. */
    constructor (first: nat, mem: seq<Page>)
      requires 0 < first <= |mem| <= PHYSPAGES
      ensures Valid() && this.first == first && |this.mem| == |mem|
      ensures NoneLost(use) && forall p: nat :: first <= p < |mem| ==> use[p] == Free
    {
      this.first := first;
      this.mem := mem;
      this.freelist, this.free := 0, [];
      this.use := KernelUses(first, |mem|);
      new;
      var p := first;
      while p < |mem|
        invariant first <= p <= |mem| && Valid() && |this.mem| == |mem| && this.first == first
        invariant forall q: nat :: first <= q < |mem| ==> use[q] == if q < p then Free else Kernel
      {
        var ok := Kfree(p);
        p := p + 1;
      }
    }

    /** The mappings of every directory are as they were in `m`. */
    ghost predicate SamePtes(m: seq<Page>, u: Uses)
      reads this
    {
      && |m| == |mem|
      && forall e: nat, v: nat :: IsDir(u, e) && e < |m| && v < NVPN ==> Pte(mem, e, v) == Pte(m, e, v)
    }

    /** memset(p, 0, PGSIZE) on a page the kernel has just got. */
    method Zero(p: nat)
      requires Valid() && p in use && use[p] == Kernel
      modifies this`mem
      ensures Valid() && |mem| == |old(mem)| && mem == old(mem)[p := mem[p]] && ZeroPage(mem[p])
      ensures SamePtes(old(mem), use)
    {
      hide Pte;
      var zero: Page := seq(NENTRIES, _ => 0);
      Fill(p, zero);
    }

    /** walkpgdir: the table that holds the entry for v; with alloc, a missing table is added. */
    method Walkpgdir(d: nat, v: nat, alloc: bool) returns (r: Option<nat>)
      requires Valid() && IsDir(use, d) && v < NVPN
      modifies this
      ensures Valid() && IsDir(use, d) && |mem| == |old(mem)| && SamePtes(old(mem), old(use))
      ensures OnlyPool(old(mem), old(use), mem, use, d, 0) && DataKept(old(mem), old(use), mem)
      ensures r.None? <==> !Present(old(mem)[d][v / NENTRIES]) && (!alloc || old(free) == [])
      ensures Present(old(mem)[d][v / NENTRIES]) || r.None? ==> mem == old(mem) && use == old(use) && free == old(free)
      ensures r.Some? ==> Present(mem[d][v / NENTRIES]) && Frame(mem[d][v / NENTRIES]) == r.value
      ensures r.Some? ==> Spent(|old(free)|, old(mem)[d], |free|, mem[d], Span(v, 1), 0)
      ensures forall q :: q in use && use[q] == Free ==> q in old(use) && old(use)[q] == Free
      ensures r.Some? && !Present(old(mem)[d][v / NENTRIES]) ==>
                && old(free) != [] && r.value == old(free)[0] && use == old(use)[r.value := Table(d, v / NENTRIES)]
    {
      hide Pte, Good, Chain, OnlyPool, DataKept, Spent, Span;
      ghost var m0, u0 := mem, use;
      Nothing(mem, use, d);
      var i := v / NENTRIES;
      if Present(mem[d][i]) {
        NoTableSpent(|free|, mem[d], v);
        return Some(Frame(mem[d][i]));
      }
      if !alloc {
        return None;
      }
      r := Kalloc();
      if r.None? {
        return;
      }
      var t := r.value;
      Zero(t);
      TableGood(mem, use, d, i, t);
      TookTable(m0, u0, mem, use, d, i, t);
      NewTableSpent(|old(free)|, mem[d], WithTable(mem, d, i, t)[d], v, Entry(t, PTE_W + PTE_U));
      ChainKept(mem, freelist, free, d, mem[d][i := Entry(t, PTE_W + PTE_U)]);
      mem := WithTable(mem, d, i, t);
      use := use[t := Table(d, i)];
    }

    /** *pte = pa | perm | PTE_P, in table t; a user page hands its frame over to the directory. */
    method SetEntry(d: nat, v: nat, t: nat, frame: nat, perm: nat)
      requires Valid() && IsDir(use, d) && v < NVPN && frame < NVPN && perm < PGSIZE && Present(mem[d][v / NENTRIES])
      requires t == Frame(mem[d][v / NENTRIES]) && !Present(Pte(mem, d, v))
      requires v < USERPAGES ==> frame in use && use[frame] == Kernel
      modifies this`mem, this`use
      ensures Valid() && IsDir(use, d)
      ensures use == if v < USERPAGES then old(use)[frame := User(d, v)] else old(use)
      ensures t in old(use) && old(use)[t] == Table(d, v / NENTRIES) && t < |mem| == |old(mem)| &&
              mem == old(mem)[t := mem[t]]
      ensures PteSet(old(mem), old(use), mem, d, v, Entry(frame, perm)) && DataKept(old(mem), old(use), mem)
    {
      hide Pte, Good, Chain, PteSet, DataKept;
      GoodBounds(mem, use);
      TableThere(mem, use, d, v);
      var w := Entry(frame, perm);
      PteWritten(mem, use, d, v, w);
      if v < USERPAGES {
        MapGood(mem, use, d, v, w);
      } else {
        KernelMapGood(mem, use, d, v, w);
      }
      ChainKept(mem, freelist, free, t, mem[t][v % NENTRIES := w]);
      mem := mem[t := mem[t][v % NENTRIES := w]];
      if v < USERPAGES {
        use := use[frame := User(d, v)];
      }
    }

    /** One round of mappages: map page v of directory d to `frame`. */
    method MapPage(d: nat, v: nat, frame: nat, perm: nat) returns (r: MapResult)
      requires Valid() && IsDir(use, d) && v < NVPN && frame < NVPN && perm < PGSIZE
      requires v < USERPAGES ==> frame in use && use[frame] == Kernel
      modifies this
      ensures Valid() && IsDir(use, d) && |mem| == |old(mem)|
      ensures r.Remap? <==> Present(Pte(old(mem), d, v))
      ensures r.NoMemory? <==> !Present(old(mem)[d][v / NENTRIES]) && old(free) == []
      ensures !r.Mapped? ==> mem == old(mem) && use == old(use) && free == old(free)
      ensures forall q :: q in use && use[q] == Free ==> q in old(use) && old(use)[q] == Free
      ensures r.Mapped? ==>
                && PteSet(old(mem), old(use), mem, d, v, Entry(frame, perm)) && DataKept(old(mem), old(use), mem)
                && OnlyPool(old(mem), old(use), mem, use, d, if v < USERPAGES then frame else 0)
                && (v < USERPAGES ==> use[frame] == User(d, v) && mem[frame] == old(mem)[frame])
                && Spent(|old(free)|, old(mem)[d], |free|, mem[d], Span(v, 1), 0)
    {
      hide Pte, Good, Chain, PteSet, DataKept, OnlyPool, Spent, Span;
      ghost var m0, u0 := mem, use;
      GoodBounds(mem, use);
      var got := Walkpgdir(d, v, true);
      if got.None? {
        NoTable(m0, d, v);
        return NoMemory;
      }
      var t := got.value;
      TableThere(mem, use, d, v);
      if Present(mem[t][v % NENTRIES]) {
        KeptIfPresent(m0, d, v);
        return Remap;
      }
      ghost var m1, u1 := mem, use;
      SetEntry(d, v, t, frame, perm);
      Handover(m0, u0, m1, u1, mem, use, d, if v < USERPAGES then frame else 0, t, User(d, v));
      PteSetFrom(m0, u0, m1, u1, mem, d, v, Entry(frame, perm));
      DataKeptTrans(m0, u0, m1, u1, mem);
      return Mapped;
    }

    /** vm.c:270-275: kfree the frame of user page v, then clear the entry. */
    method UnmapPage(d: nat, v: nat, t: nat) returns (ok: bool)
      requires Valid() && IsDir(use, d) && v < USERPAGES
      requires Present(mem[d][v / NENTRIES]) && t == Frame(mem[d][v / NENTRIES]) && Present(Pte(mem, d, v))
      modifies this
      ensures ok && Valid() && IsDir(use, d)
      ensures PteSet(old(mem), old(use), mem, d, v, 0)
      ensures OnlyPool(old(mem), old(use), mem, use, d, 0)
      ensures var p := Frame(Pte(old(mem), d, v));
              p in old(use) && old(use)[p] == User(d, v) && use == old(use)[p := Free] && free == [p] + old(free)
    {
      hide Pte, Good, Chain, OnlyPool, PteSet;
      ghost var m0, u0 := mem, use;
      GoodBounds(mem, use);
      TableThere(mem, use, d, v);
      UnmapGood(mem, use, d, v);
      var p := Frame(mem[t][v % NENTRIES]);
      if p == 0 {
        return false;
      }
      PushFree(p);
      ChainKept(mem, freelist, free, t, mem[t][v % NENTRIES := 0]);
      mem := mem[t := mem[t][v % NENTRIES := 0]];
      assert mem == WithPte(m0, d, v, 0)[p := mem[p]];
      UnmappedGood(m0, u0, d, v, mem[p]);
      use := use[p := Free];
      return true;
    }

    /** deallocuvm: returns the new size and frees every user page between the two. */
    method Deallocuvm(d: nat, oldsz: Uint, newsz: Uint) returns (sz: Uint)
      requires Valid() && IsDir(use, d) && oldsz <= KERNBASE
      modifies this
      ensures Valid() && IsDir(use, d) && OnlyPool(old(mem), old(use), mem, use, d, 0)
      ensures sz == if newsz >= oldsz then oldsz else newsz
      ensures PtesCleared(old(mem), old(use), mem, use, d, RoundUp(newsz), oldsz, NVPN) && |free| >= |old(free)|
    {
      hide Pte, Good, Chain, OnlyPool, PteSet, PtesCleared;
      ghost var m0, u0 := mem, use;
      Nothing(mem, use, d);
      if newsz >= oldsz {
        NoneInRange(mem, use, d, RoundUp(newsz), oldsz);
        return oldsz;
      }
      var lo := RoundUp(newsz);
      var v := lo;
      NoneCleared(mem, use, d, lo, oldsz, lo);
      while v * PGSIZE < oldsz
        invariant lo <= v && Valid() && IsDir(use, d) && OnlyPool(m0, u0, mem, use, d, 0)
        invariant PtesCleared(m0, u0, mem, use, d, lo, oldsz, v) && |free| >= |old(free)|
        decreases oldsz - v * PGSIZE
      {
        ghost var m1, u1 := mem, use;
        var t := Walkpgdir(d, v, false);
        var next;
        if t.None? {
          next := (v / NENTRIES + 1) * NENTRIES - 1;
          SkippedTable(m0, u0, mem, use, d, lo, oldsz, v);
        } else {
          next := v;
          TableThere(mem, use, d, v);
          if Present(mem[t.value][v % NENTRIES]) {
            var ok := UnmapPage(d, v, t.value);
            OnlyPoolTrans(m0, u0, m1, u1, mem, use, d, 0);
            OneCleared(m0, u0, m1, u1, mem, use, d, lo, oldsz, v);
          } else {
            OneSkipped(m0, u0, mem, use, d, lo, oldsz, v);
          }
        }
        v := next + 1;
      }
      AllCleared(m0, u0, mem, use, d, lo, oldsz, v);
      return newsz;
    }

    /** freevm's loop over the directory: kfree every table. */
    method FreeTables(d: nat, ghost m1: seq<Page>, ghost u1: Uses)
      requires Valid() && Good(m1, u1) && IsDir(u1, d) && mem == m1 && use == Retired(u1, d)
      requires forall p: nat :: p in u1 <==> first <= p < |mem|
      modifies this
      ensures Valid() && TablesFreed(u1, use, d, NENTRIES) && |mem| == |m1|
      ensures forall q :: q in u1 && !(u1[q].Table? && u1[q].dir == d) ==> q < |mem| && mem[q] == m1[q]
      ensures SameElsewhere(m1, u1, mem, d)
    {
      hide Pte, Good, Chain, SameElsewhere;
      GoodBounds(m1, u1);
      NothingElsewhere(m1, u1, d);
      var i := 0;
      while i < NENTRIES
        invariant 0 <= i <= NENTRIES && Valid() && TablesFreed(u1, use, d, i) && |mem| == |m1|
        invariant forall q :: q in u1 && !(u1[q].Table? && u1[q].dir == d) ==> q < |mem| && mem[q] == m1[q]
        invariant SameElsewhere(m1, u1, mem, d)
      {
        assert mem[d] == m1[d];
        OnlyThatTable(m1, u1, d, i);
        if Present(mem[d][i]) {
          ghost var m2 := mem;
          var ok := Kfree(Frame(mem[d][i]));
          ElsewhereKept(m1, u1, m2, mem, use, d);
        }
        i := i + 1;
      }
    }

    /** freevm once the user pages are gone: the tables, then the directory. */
    method FreeDirectory(d: nat)
      requires Valid() && IsDir(use, d) && forall v: nat :: v < USERPAGES ==> !Present(Pte(mem, d, v))
      modifies this
      ensures Valid() && GivenBack(old(use), use, d) && |mem| == |old(mem)|
      ensures forall q :: q in old(use) && !InPool(old(use), d, q) ==> q < |mem| && mem[q] == old(mem)[q]
      ensures SameElsewhere(old(mem), old(use), mem, d)
    {
      hide Pte, Good, Chain, SameElsewhere;
      ghost var m1, u1 := mem, use;
      RetireGood(m1, u1, d);
      GoodBounds(m1, u1);
      use := Retired(use, d);
      FreeTables(d, m1, u1);
      DirGivenBack(m1, u1, use, d);
      ghost var m2 := mem;
      var ok := Kfree(d);
      ElsewhereKept(m1, u1, m2, mem, use, d);
    }

    /** freevm: everything the directory owned goes back on the free list, and nothing else does. */
    method Freevm(d: nat)
      requires Valid() && IsDir(use, d)
      modifies this
      ensures Valid() && GivenBack(old(use), use, d) && |mem| == |old(mem)|
      ensures forall q :: q in old(use) && !InPool(old(use), d, q) ==> q < |mem| && mem[q] == old(mem)[q]
      ensures SameElsewhere(old(mem), old(use), mem, d)
    {
      hide Pte, Good, Chain, OnlyPool, PtesCleared, GivenBack, InPool, SameElsewhere;
      ghost var m0, u0 := mem, use;
      GoodBounds(mem, use);
      var sz := Deallocuvm(d, KERNBASE, 0);
      ghost var m1, u1 := mem, use;
      NothingMapped(m0, u0, m1, u1, d);
      FreeDirectory(d);
      PoolGivenBack(m0, u0, m1, u1, use, d);
      ElsewhereTrans(m0, u0, m1, u1, mem, d);
    }

    /**
     mappages over one row of kmap: kernel pages row.v .. row.v + row.n, all unmapped so far.  It
     fails exactly when there is not a free page for every table that is missing.
     */
    method Mappages(d: nat, row: Row) returns (ok: bool)
      requires Valid() && IsDir(use, d) && row.Valid()
      requires forall u: nat :: row.v <= u < row.v + row.n ==> !Present(Pte(mem, d, u))
      modifies this
      ensures Valid() && IsDir(use, d) && OnlyPool(old(mem), old(use), mem, use, d, 0)
      ensures RowMapped(old(mem), old(use), mem, use, d, row, if ok then row.n else 0, !ok)
      ensures ok <==> Needs(old(mem)[d], Span(row.v, row.n), 0) <= |old(free)|
      ensures ok ==> Spent(|old(free)|, old(mem)[d], |free|, mem[d], Span(row.v, row.n), 0)
    {
      hide Pte, Good, Chain, OnlyPool, Spent, Span, Needs;
      ghost var m0, u0, f0 := mem, use, |free|;
      Nothing(mem, use, d);
      NothingSpent(f0, mem[d]);
      var j := 0;
      SpanNone(row.v);
      while j < row.n
        invariant 0 <= j <= row.n && Valid() && IsDir(use, d) && OnlyPool(m0, u0, mem, use, d, 0)
        invariant RowMapped(m0, u0, mem, use, d, row, j, false)
        invariant Spent(f0, m0[d], |free|, mem[d], Span(row.v, j), 0)
      {
        ghost var m1, u1, f1 := mem, use, |free|;
        SpanMore(row.v, j);
        NeedsOne(mem[d], row.v + j, 0);
        GoodBounds(m1, u1);
        assert !Present(Pte(mem, d, row.v + j));
        var r := MapPage(d, row.v + j, row.pa + j, row.perm);
        if r.NoMemory? {
          SpanGrows(row.v, j + 1, row.n);
          RanOut(f0, m0[d], f1, mem[d], Span(row.v, j), 0, Span(row.v + j, 1), 0, Span(row.v, row.n), 0);
          return false;
        }
        StillDirs(m1, u1, mem, use, d);
        OnlyPoolTrans(m0, u0, m1, u1, mem, use, d, 0);
        SpentMore(f0, m0[d], f1, m1[d], |free|, mem[d], Span(row.v, j), Span(row.v + j, 1), 0, 0);
        j := j + 1;
      }
      SpentSize(f0, m0[d], |free|, mem[d], Span(row.v, j), 0);
      return true;
    }

    /** Fill a page the kernel has just got: memset(p, 0, PGSIZE) or memmove(p, from, PGSIZE). */
    method Fill(p: nat, x: Page)
      requires Valid() && p in use && use[p] == Kernel
      modifies this`mem
      ensures Valid() && |mem| == |old(mem)| && mem == old(mem)[p := x] && SamePtes(old(mem), use)
    {
      hide Pte;
      DataWriteGood(mem, use, p, x);
      ChainKept(mem, freelist, free, p, x);
      forall e: nat, v: nat | IsDir(use, e) && v < NVPN
        ensures Pte(mem[p := x], e, v) == Pte(mem, e, v)
      {
        DataWrite(mem, use, p, x, e, v);
      }
      mem := mem[p := x];
    }

    /** One page more: kalloc, memset, mappages.  Out of memory leaves everything as it was, but for
        the page in hand, which the caller still has to free. */
    method GrowOne(d: nat, v: nat) returns (r: Option<nat>, mapped: bool)
      requires Valid() && IsDir(use, d) && v < USERPAGES && !Present(Pte(mem, d, v))
      modifies this
      ensures Valid() && IsDir(use, d)
      ensures !mapped ==> SamePtes(old(mem), old(use)) && DataKept(old(mem), old(use), mem)
      ensures r.None? ==> !mapped && mem == old(mem) && use == old(use)
      ensures mapped <==> Needs(old(mem)[d], Span(v, 1), 1) <= |old(free)|
      ensures mapped ==> Spent(|old(free)|, old(mem)[d], |free|, mem[d], Span(v, 1), 1)
      ensures r.Some? ==> r.value in old(use) && old(use)[r.value] == Free
      ensures r.Some? && !mapped ==> use == old(use)[r.value := Kernel] && mem == old(mem)[r.value := mem[r.value]]
      ensures mapped ==>
                && r.Some? && PteSet(old(mem), old(use), mem, d, v, Entry(r.value, PTE_W + PTE_U))
                && OnlyPool(old(mem), old(use), mem, use, d, 0) && DataKept(old(mem), old(use), mem)
                && use[r.value] == User(d, v) && r.value < |mem| && ZeroPage(mem[r.value])
                && (forall q :: q in use && use[q] == Free ==> q in old(use) && old(use)[q] == Free)
    {
      hide Pte, Good, Chain, OnlyPool, Spent, Needs, Span;
      ghost var m0, u0 := mem, use;
      GoodBounds(mem, use);
      NeedsOne(mem[d], v, 1);
      r := Kalloc();
      if r.None? {
        return None, false;
      }
      var p := r.value;
      Zero(p);
      ghost var f1 := |free|;
      ghost var m1, u1 := mem, use;
      assert Pte(mem, d, v) == Pte(m0, d, v);
      var w := MapPage(d, v, p, PTE_W + PTE_U);
      if w.NoMemory? {
        return r, false;
      }
      PteSetFrom(m0, u0, m1, u1, mem, d, v, Entry(p, PTE_W + PTE_U));
      PageMoved(m0, u0, m1, u1, mem, use, d, p);
      PageSpent(f1, m0[d], |free|, mem[d], Span(v, 1));
      return r, true;
    }

    /**
     setupkvm: a directory with the kernel's rows and nothing else, exactly when there is a free page
     for it and for each of its tables.  When memory runs out half-way, every page it took is free
     again.
     */
    method Setupkvm(rows: seq<Row>) returns (r: Option<nat>)
      requires Valid() && GoodRows(rows)
      modifies this
      ensures Valid()
      ensures r.None? ==> use == old(use)
      ensures r.Some? <==> 1 + |Tables(rows)| <= |old(free)|
      ensures r.Some? ==>
                && r.value in old(use) && old(use)[r.value] == Free && IsDir(use, r.value)
                && OnlyPool(old(mem), old(use), mem, use, r.value, 0) && KernelOnly(mem, r.value, rows)
                && Held(mem[r.value]) == Tables(rows) && |free| + 1 + |Tables(rows)| == |old(free)|
      ensures Untouched(old(mem), old(use), mem, use)
    {
      hide Pte, Good, Chain, OnlyPool, PoolStep, Untouched, Spent, Needs, Span, Tables, Held;
      ghost var m0, u0 := mem, use;
      GoodBounds(mem, use);
      var got := Kalloc();
      if got.None? {
        NothingTouched(m0, u0);
        return None;
      }
      var d := got.value;
      NotADirectory(m0, u0, d);
      Zero(d);
      DirGood(mem, use, d);
      ghost var dz, fz := mem[d], |free|;
      use := use[d := Dir];
      TookPage(m0, u0, mem, use, d);
      assert rows[..0] == [];
      assert KernelOnly(mem, d, rows[..0]);
      NothingSpent(fz, dz);
      NoTables(dz, rows);
      var k := 0;
      while k < |rows|
        invariant 0 <= k <= |rows| && Valid() && IsDir(use, d) && OnlyPool(m0, u0, mem, use, d, 0)
        invariant KernelOnly(mem, d, rows[..k]) && Untouched(m0, u0, mem, use)
        invariant Spent(fz, dz, |free|, mem[d], Tables(rows[..k]), 0)
      {
        ghost var m1, u1, f1 := mem, use, |free|;
        OneRowMore(fz, dz, f1, mem[d], rows, k);
        forall u: nat | rows[k].v <= u < rows[k].v + rows[k].n ensures !Present(Pte(mem, d, u)) {
          RowsApart(rows, k, u);
        }
        var ok := Mappages(d, rows[k]);
        OnlyPoolTrans(m0, u0, m1, u1, mem, use, d, 0);
        RowUntouched(m0, u0, m1, u1, mem, use, d, rows[k], if ok then rows[k].n else 0, !ok);
        if !ok {
          ghost var m2, u2 := mem, use;
          Freevm(d);
          AllReturned(m0, u0, m2, u2, mem, use, d);
          return None;
        }
        OneMoreRow(m1, u1, mem, use, d, rows, k);
        SpentMore(fz, dz, f1, m1[d], |free|, mem[d], Tables(rows[..k]), Span(rows[k].v, rows[k].n), 0, 0);
        k := k + 1;
      }
      assert rows[..k] == rows;
      SpentSize(fz, dz, |free|, mem[d], Tables(rows), 0);
      AllTables(fz, dz, |free|, mem[d], rows);
      return Some(d);
    }

    /** allocuvm's way out: free the pages up to v that it had added, and the page p in hand, if any. */
    method Abandon(d: nat, oldsz: Uint, newsz: Uint, p: Option<nat>,
                   ghost m0: seq<Page>, ghost u0: Uses, ghost m1: seq<Page>, ghost u1: Uses, ghost v: nat)
      requires Valid() && IsDir(use, d) && IsDir(u0, d) && newsz <= KERNBASE && |m1| == |mem| && 0 !in u1
      requires Grown(m0, u0, m1, u1, d, RoundUp(oldsz), v) &&
               forall u: nat :: RoundUp(oldsz) <= u < v ==> u * PGSIZE < newsz
      requires forall u: nat :: InRange(u, RoundUp(oldsz), newsz) && u < USERPAGES ==>
                 d < |m0| && !Present(Pte(m0, d, u))
      requires if p.None? then mem == m1 && use == u1
               else && p.value in u1 && u1[p.value] == Free && use == u1[p.value := Kernel]
                    && p.value < |mem| && mem == m1[p.value := mem[p.value]] && SamePtes(m1, u1)
      modifies this
      ensures Valid() && IsDir(use, d) && OnlyPool(m1, u1, mem, use, d, 0) && SameMappings(m0, u0, mem, use)
    {
      hide Pte, Good, Chain, OnlyPool, Grown, SameMappings, PtesCleared;
      ghost var m2, u2 := mem, use;
      GoodBounds(m2, u2);
      var undone := Deallocuvm(d, newsz, oldsz);
      ghost var m3, u3 := mem, use;
      GrowthUndone(m0, u0, m1, u1, m2, u2, m3, u3, d, RoundUp(oldsz), v, newsz);
      if p.Some? {
        assert forall q :: q in u1 ==> q in u2;
        PageInHand(m1, u1, m2, u2, d, p.value);
        OutOfPool(m2, u2, m3, u3, d, p.value);
        var ok := Kfree(p.value);
        HandBack(m1, u1, m2, u2, m3, u3, mem, use, d, p.value);
        SameAfterFree(m0, u0, m3, u3, mem, use);
      }
    }

    /**
     allocuvm.  With a free page for each new page and each missing table the process grows by fresh
     zeroed pages; with fewer the result is 0 and every mapping is as it was, though page tables added
     on the way stay with the directory.
     */
    method Allocuvm(d: nat, oldsz: Uint, newsz: Uint) returns (sz: Uint)
      requires Valid() && IsDir(use, d)
      requires forall u: nat :: InRange(u, RoundUp(oldsz), newsz) && u < USERPAGES ==> !Present(Pte(mem, d, u))
      modifies this
      ensures Valid() && IsDir(use, d) && OnlyPool(old(mem), old(use), mem, use, d, 0)
      ensures newsz >= KERNBASE ==> sz == 0 && mem == old(mem) && use == old(use)
      ensures newsz < KERNBASE && newsz < oldsz ==> sz == oldsz && mem == old(mem) && use == old(use)
      ensures oldsz <= newsz < KERNBASE ==>
                if GrowthNeeds(old(mem)[d], oldsz, newsz) <= |old(free)|
                then && sz == newsz && Grown(old(mem), old(use), mem, use, d, RoundUp(oldsz), RoundUp(newsz))
                     && |free| + GrowthNeeds(old(mem)[d], oldsz, newsz) == |old(free)|
                else sz == 0 && SameMappings(old(mem), old(use), mem, use)
    {
      hide Pte, Good, Chain, OnlyPool, Grown, PteSet, DataKept, SameMappings, Spent, Needs, Span;
      ghost var m0, u0, f0 := mem, use, |free|;
      Nothing(mem, use, d);
      if newsz >= KERNBASE {
        return 0;
      }
      if newsz < oldsz {
        return oldsz;
      }
      var lo := RoundUp(oldsz);
      var v := lo;
      NotGrown(mem, use, d, lo);
      NothingSpent(f0, mem[d]);
      SpanNone(lo);
      while v * PGSIZE < newsz
        invariant lo <= v <= RoundUp(newsz) && Valid() && IsDir(use, d)
        invariant OnlyPool(m0, u0, mem, use, d, 0) && Grown(m0, u0, mem, use, d, lo, v)
        invariant Spent(f0, m0[d], |free|, mem[d], Span(lo, v - lo), v - lo)
        decreases newsz - v * PGSIZE
      {
        ghost var m1, u1, f1 := mem, use, |free|;
        OnePageMore(f0, m0[d], f1, mem[d], lo, v - lo, RoundUp(newsz) - lo);
        GoodBounds(m1, u1);
        GrownElsewhere(m0, u0, m1, u1, d, lo, v);
        var p, mapped := GrowOne(d, v);
        if !mapped {
          Abandon(d, oldsz, newsz, p, m0, u0, m1, u1, v);
          OnlyPoolTrans(m0, u0, m1, u1, mem, use, d, 0);
          return 0;
        }
        OnlyPoolTrans(m0, u0, m1, u1, mem, use, d, 0);
        StillDirs(m1, u1, mem, use, d);
        GrownMore(m0, u0, m1, u1, mem, use, d, lo, v, p.value);
        SpentMore(f0, m0[d], f1, m1[d], |free|, mem[d], Span(lo, v - lo), Span(v, 1), v - lo, 1);
        v := v + 1;
      }
      SpentSize(f0, m0[d], |free|, mem[d], Span(lo, v - lo), v - lo);
      return newsz;
    }

    /** One round of copyuvm: a copy of `frame` for page v of directory c; `None` is out of memory. */
    method CopyOne(c: nat, v: nat, frame: nat, flags: nat) returns (r: Option<nat>)
      requires Valid() && IsDir(use, c) && v < USERPAGES && !Present(Pte(mem, c, v))
      requires frame in use && use[frame].User? && flags < PGSIZE && Present(flags)
      modifies this
      ensures Valid() && IsDir(use, c) && OnlyPool(old(mem), old(use), mem, use, c, 0)
      ensures DataKept(old(mem), old(use), mem)
      ensures r.None? ==> SamePtes(old(mem), old(use))
      ensures r.Some? <==> Needs(old(mem)[c], Span(v, 1), 1) <= |old(free)|
      ensures r.Some? ==> Spent(|old(free)|, old(mem)[c], |free|, mem[c], Span(v, 1), 1)
      ensures r.Some? ==>
                && r.value < |mem| && frame < |old(mem)| && mem[r.value] == old(mem)[frame]
                && r.value in use && use[r.value] == User(c, v)
                && PteSet(old(mem), old(use), mem, c, v, Entry(r.value, flags))
    {
      hide Pte, Good, Chain, OnlyPool, PteSet, DataKept, Spent, Needs, Span;
      ghost var m0, u0 := mem, use;
      GoodBounds(mem, use);
      Nothing(mem, use, c);
      NeedsOne(mem[c], v, 1);
      r := Kalloc();
      if r.None? {
        return None;
      }
      var p := r.value;
      Fill(p, mem[frame]);
      ghost var m1, u1, f1 := mem, use, |free|;
      assert Pte(mem, c, v) == Pte(m0, c, v);
      var w := MapPage(c, v, p, flags);
      if w.NoMemory? {
        var ok := Kfree(p);
        assert use == u0;
        PutBack(m0, u0, mem, c, p);
        return None;
      }
      PteSetFrom(m0, u0, m1, u1, mem, c, v, Entry(p, flags));
      PageMoved(m0, u0, m1, u1, mem, use, c, p);
      DataKeptOver(m0, u0, m1, u1, mem, p);
      PageSpent(f1, m0[c], |free|, mem[c], Span(v, 1));
      return Some(p);
    }

    /** The same after looking page v up in the parent d: false for `has` is a panic. */
    method CopyNext(d: nat, c: nat, v: nat) returns (has: bool, p: Option<nat>)
      requires Valid() && IsDir(use, d) && IsDir(use, c) && v < USERPAGES && !Present(Pte(mem, c, v))
      modifies this
      ensures Valid() && IsDir(use, c) && (has <==> d < |old(mem)| && Present(Pte(old(mem), d, v)))
      ensures OnlyPool(old(mem), old(use), mem, use, c, 0) && DataKept(old(mem), old(use), mem)
      ensures !has ==> mem == old(mem) && use == old(use) && free == old(free)
      ensures has && p.None? ==> SamePtes(old(mem), old(use))
      ensures has ==> (p.Some? <==> Needs(old(mem)[c], Span(v, 1), 1) <= |old(free)|)
      ensures has && p.Some? ==>
                && Spent(|old(free)|, old(mem)[c], |free|, mem[c], Span(v, 1), 1)
                && var e := Pte(old(mem), d, v);
                && p.value < |mem| && Frame(e) < |old(mem)| && mem[p.value] == old(mem)[Frame(e)]
                && p.value in use && use[p.value] == User(c, v)
                && PteSet(old(mem), old(use), mem, c, v, Entry(p.value, Flags(e)))
    {
      hide Pte, Good, Chain, OnlyPool, PteSet, DataKept, Spent, Needs, Span;
      GoodBounds(mem, use);
      Nothing(mem, use, c);
      var t := Walkpgdir(d, v, false);
      if t.None? {
        NoTable(mem, d, v);
        return false, None;
      }
      TableThere(mem, use, d, v);
      var e := mem[t.value][v % NENTRIES];
      if !Present(e) {
        return false, None;
      }
      UserThere(mem, use, d, v);
      p := CopyOne(c, v, Frame(e), Flags(e));
      return true, p;
    }

    /**
     copyuvm.  The child's pages below sz have the parent's bytes and flags in frames of their own,
     and the parent is unchanged.  It panics at the first page below sz that the parent does not have;
     it returns 0, and the same pages are free as before, exactly when there are too few free pages
     for the directory, its tables and the copies up to there.
     */
    method Copyuvm(d: nat, sz: Uint, rows: seq<Row>) returns (r: CopyResult)
      requires Valid() && IsDir(use, d) && sz <= KERNBASE && GoodRows(rows)
      modifies this
      ensures Valid() && Untouched(old(mem), old(use), mem, use)
      ensures r.OutOfMemory? ==> use == old(use)
      ensures d < |old(mem)| &&
              var n := PagesFrom0(old(mem), d, RoundUp(sz));
              && (r.OutOfMemory? <==> |old(free)| < ForkNeeds(rows, n))
              && (r.NotPresent? <==> n < RoundUp(sz) && ForkNeeds(rows, n) <= |old(free)|)
      ensures !r.OutOfMemory? ==>
                && IsDir(use, r.child) && r.child in old(use) && old(use)[r.child] == Free
                && OnlyPool(old(mem), old(use), mem, use, r.child, 0)
      ensures r.Copied? ==> ChildOf(old(mem), d, mem, use, r.child, rows, RoundUp(sz))
    {
      hide Pte, Good, Chain, OnlyPool, PteSet, DataKept, Untouched, KernelOnly, CopiedPage, ChildOf,
           Spent, Needs, Span, ForkNeeds, Tables, Held, PagesFrom0;
      ghost var m0, u0 := mem, use;
      GoodBounds(mem, use);
      ghost var n := PagesFrom0(mem, d, RoundUp(sz));
      var got := Setupkvm(rows);
      if got.None? {
        TooFewForTables(rows, n, |old(free)|);
        return OutOfMemory;
      }
      var c := got.value;
      ghost var fc, dc := |free|, mem[c];
      ForkTotal(rows, n, fc, dc);
      NothingSpent(fc, dc);
      SpanNone(0);
      NotADirectory(m0, u0, c);
      NoCopies(m0, d, mem, use, c, rows);
      StillDir(m0, u0, mem, use, d);
      var v := 0;
      while v * PGSIZE < sz
        invariant 0 <= v <= n && Valid() && IsDir(use, c) && IsDir(use, d)
        invariant OnlyPool(m0, u0, mem, use, c, 0) && Untouched(m0, u0, mem, use)
        invariant ChildOf(m0, d, mem, use, c, rows, v)
        invariant Spent(fc, dc, |free|, mem[c], Span(0, v), v)
      {
        ghost var m1, u1, f1 := mem, use, |free|;
        GoodBounds(m1, u1);
        SamePte(m0, u0, m1, u1, d, v);
        FirstMissing(m0, d, RoundUp(sz), v);
        NotCopiedYet(m0, d, mem, use, c, rows, v);
        var has, p := CopyNext(d, c, v);
        if !has {
          SpentSize(fc, dc, f1, mem[c], Span(0, v), v);
          return NotPresent(c);
        }
        OnePageMore(fc, dc, f1, m1[c], 0, v, n);
        ParentPage(m0, u0, m1, u1, d, v);
        OnlyPoolTrans(m0, u0, m1, u1, mem, use, c, 0);
        if p.None? {
          ghost var m2, u2 := mem, use;
          NoCopyUntouched(m0, u0, m1, u1, m2, u2, c);
          Freevm(c);
          AllReturned(m0, u0, m2, u2, mem, use, c);
          return OutOfMemory;
        }
        CopyUntouched(m0, u0, m1, u1, mem, use, c, v, Entry(p.value, Flags(Pte(m0, d, v))));
        StillDir(m0, u0, mem, use, d);
        OneMoreCopy(m0, u0, m1, u1, mem, use, d, c, rows, v, p.value);
        SpentMore(fc, dc, f1, m1[c], |free|, mem[c], Span(0, v), Span(v, 1), v, 1);
        v := v + 1;
      }
      SpentSize(fc, dc, |free|, mem[c], Span(0, v), v);
      return Copied(c);
    }
  }

  /** Page u of child c has the flags and the bytes that page u of d had in m0, in a frame of its own. */
  ghost predicate CopiedPage(m0: seq<Page>, d: nat, mem: seq<Page>, use: Uses, c: nat, u: nat)
    requires d < |m0| && c < |mem| && u < USERPAGES
  {
    var was, now := Pte(m0, d, u), Pte(mem, c, u);
    && Present(now) && Flags(now) == Flags(was)
    && Frame(now) in use && use[Frame(now)] == User(c, u)
    && Frame(now) < |mem| && Frame(was) < |m0| && mem[Frame(now)] == m0[Frame(was)]
  }

  /** Child c has copies of the first v pages of d, the kernel's rows, and nothing else. */
  ghost predicate ChildOf(m0: seq<Page>, d: nat, mem: seq<Page>, use: Uses, c: nat, rows: seq<Row>, v: nat)
    requires forall k :: 0 <= k < |rows| ==> rows[k].Valid()
  {
    && d < |m0| && c < |mem| && v <= USERPAGES
    && (forall u: nat :: u < v ==> CopiedPage(m0, d, mem, use, c, u))
    && forall u: nat :: v <= u < NVPN ==> Pte(mem, c, u) == RowsPte(rows, u)
  }

  /** The pages from lo up to v map fresh zeroed pages; every other entry is as in m0. */
  ghost predicate Grown(m0: seq<Page>, u0: Uses, mem: seq<Page>, use: Uses, d: nat, lo: nat, v: nat) {
    && |mem| == |m0| && d < |mem|
    && (forall e: nat :: IsDir(u0, e) ==> IsDir(use, e))
    && (forall q :: q in use && use[q] == Free ==> q in u0 && u0[q] == Free)
    && (forall e: nat, u: nat :: IsDir(u0, e) && e < |m0| && u < NVPN && !(e == d && lo <= u < v) ==>
          Pte(mem, e, u) == Pte(m0, e, u))
    && forall u: nat :: lo <= u < v && u < USERPAGES ==> NewPage(u0, mem, d, u)
  }

  ghost predicate NewPage(u0: Uses, mem: seq<Page>, d: nat, u: nat)
    requires d < |mem| && u < USERPAGES
  {
    var e := Pte(mem, d, u);
    && Present(e) && Flags(e) == PTE_W + PTE_U + 1
    && Frame(e) in u0 && u0[Frame(e)] == Free && Frame(e) < |mem| && ZeroPage(mem[Frame(e)])
  }

  predicate SameEntry(e: Uint, e': Uint) {
    (Present(e') <==> Present(e)) && (Present(e) ==> e' == e)
  }

  /** Every directory maps what it mapped, with the same frames and flags. */
  ghost predicate SameMappings(m0: seq<Page>, u0: Uses, mem: seq<Page>, use: Uses) {
    && |mem| == |m0|
    && (forall e: nat :: IsDir(u0, e) ==> IsDir(use, e))
    && forall e: nat, u: nat :: IsDir(u0, e) && e < |m0| && u < NVPN ==> SameEntry(Pte(m0, e, u), Pte(mem, e, u))
  }

  lemma NotGrown(mem: seq<Page>, use: Uses, d: nat, lo: nat)
    requires d < |mem|
    ensures Grown(mem, use, mem, use, d, lo, lo)
  {
  }

  lemma GrownElsewhere(m0: seq<Page>, u0: Uses, mem: seq<Page>, use: Uses, d: nat, lo: nat, v: nat)
    requires Grown(m0, u0, mem, use, d, lo, v) && IsDir(u0, d) && v < NVPN
    ensures Pte(mem, d, v) == Pte(m0, d, v)
  {
  }

  lemma GrownMore(m0: seq<Page>, u0: Uses, m1: seq<Page>, u1: Uses, mem: seq<Page>, use: Uses,
                  d: nat, lo: nat, v: nat, p: nat)
    requires Grown(m0, u0, m1, u1, d, lo, v) && Good(m1, u1) && IsDir(u1, d) && v < USERPAGES && lo <= v
    requires p < NVPN && PteSet(m1, u1, mem, d, v, Entry(p, PTE_W + PTE_U)) && DataKept(m1, u1, mem)
    requires (forall e: nat :: IsDir(u1, e) ==> IsDir(use, e)) && p in u1 && u1[p] == Free
    requires p < |mem| && ZeroPage(mem[p])
    requires forall q :: q in use && use[q] == Free ==> q in u1 && u1[q] == Free
    ensures Grown(m0, u0, mem, use, d, lo, v + 1)
  {
    hide Pte, ZeroPage;
    forall u: nat | lo <= u < v + 1 && u < USERPAGES ensures NewPage(u0, mem, d, u) {
      if u < v {
        assert NewPage(u0, m1, d, u);
        assert UserOk(m1, u1, d, u);
      }
    }
  }

  /** Deallocating what was allocated restores every mapping. */
  lemma GrowthUndone(m0: seq<Page>, u0: Uses, m1: seq<Page>, u1: Uses, m2: seq<Page>, u2: Uses,
                     m3: seq<Page>, u3: Uses, d: nat, lo: nat, v: nat, newsz: nat)
    requires Grown(m0, u0, m1, u1, d, lo, v) && IsDir(u0, d) && |m2| == |m1|
    requires forall e: nat :: IsDir(u1, e) ==> IsDir(u2, e)
    requires forall e: nat, u: nat :: IsDir(u1, e) && e < |m1| && u < NVPN ==> Pte(m2, e, u) == Pte(m1, e, u)
    requires PtesCleared(m2, u2, m3, u3, d, lo, newsz, NVPN)
    requires forall u: nat :: InRange(u, lo, newsz) && u < USERPAGES ==> !Present(Pte(m0, d, u))
    requires newsz <= KERNBASE && forall u: nat :: lo <= u < v ==> InRange(u, lo, newsz)
    ensures SameMappings(m0, u0, m3, u3)
  {
    hide Pte;
    forall e: nat, u: nat | IsDir(u0, e) && e < |m0| && u < NVPN ensures SameEntry(Pte(m0, e, u), Pte(m3, e, u)) {
      assert IsDir(u1, e) && IsDir(u2, e);
      assert Pte(m2, e, u) == Pte(m1, e, u);
      assert InRange(u, lo, newsz) ==> u < USERPAGES;
    }
  }

  lemma PageInHand(m1: seq<Page>, u1: Uses, m2: seq<Page>, u2: Uses, d: nat, p: nat)
    requires p in u1 && u1[p] == Free && u2 == u1[p := Kernel] && |m2| == |m1| && p < |m1| && m2 == m1[p := m2[p]]
    requires forall q :: q in u1 ==> q < |m1|
    ensures OnlyPool(m1, u1, m2, u2, d, p)
  {
    forall q | q in u1 && q != p ensures PoolStep(m1, u1, m2, u2, d, q) {
    }
  }

  lemma OutOfPool(m2: seq<Page>, u2: Uses, m3: seq<Page>, u3: Uses, d: nat, p: nat)
    requires OnlyPool(m2, u2, m3, u3, d, 0) && p in u2 && u2[p] == Kernel && p != 0
    ensures p in u3 && u3[p] == Kernel
  {
    assert PoolStep(m2, u2, m3, u3, d, p);
  }

  lemma HandBack(m1: seq<Page>, u1: Uses, m2: seq<Page>, u2: Uses, m3: seq<Page>, u3: Uses,
                 m4: seq<Page>, u4: Uses, d: nat, p: nat)
    requires OnlyPool(m1, u1, m2, u2, d, p) && OnlyPool(m2, u2, m3, u3, d, 0) && p in u1 && u1[p] == Free && 0 !in u1
    requires p in u3 && u4 == u3[p := Free] && |m4| == |m3| && p < |m3| && m4 == m3[p := m4[p]]
    ensures OnlyPool(m1, u1, m4, u4, d, 0)
  {
    forall q | q in u1 ensures PoolStep(m1, u1, m4, u4, d, q) {
      if q != p {
        assert PoolStep(m1, u1, m2, u2, d, q) && PoolStep(m2, u2, m3, u3, d, q);
      }
    }
  }

  lemma SameAfterFree(m0: seq<Page>, u0: Uses, m3: seq<Page>, u3: Uses, m4: seq<Page>, u4: Uses)
    requires SameMappings(m0, u0, m3, u3) && |m4| == |m3| && forall e: nat :: IsDir(u3, e) ==> IsDir(u4, e)
    requires forall e: nat, u: nat :: IsDir(u3, e) && e < |m3| && u < NVPN ==> Pte(m4, e, u) == Pte(m3, e, u)
    ensures SameMappings(m0, u0, m4, u4)
  {
    hide Pte;
  }

  lemma PutBack(m0: seq<Page>, u0: Uses, mem: seq<Page>, d: nat, p: nat)
    requires Good(m0, u0) && p in u0 && u0[p] == Free && |mem| == |m0| && mem == m0[p := mem[p]]
    ensures OnlyPool(m0, u0, mem, u0, d, 0) && DataKept(m0, u0, mem)
    ensures forall e: nat, v: nat :: IsDir(u0, e) && e < |m0| && v < NVPN ==> Pte(mem, e, v) == Pte(m0, e, v)
  {
    hide Pte;
    forall q | q in u0 ensures PoolStep(m0, u0, mem, u0, d, q) {
    }
    forall e: nat, v: nat | IsDir(u0, e) && e < |m0| && v < NVPN ensures Pte(mem, e, v) == Pte(m0, e, v) {
      DataWrite(m0, u0, p, mem[p], e, v);
    }
  }

  lemma StillDir(m0: seq<Page>, u0: Uses, mem: seq<Page>, use: Uses, d: nat)
    requires Untouched(m0, u0, mem, use) && IsDir(u0, d)
    ensures IsDir(use, d)
  {
  }

  /** The kernel's rows leave the user half alone. */
  lemma {:induction false} NoRowBelow(rows: seq<Row>, u: nat)
    requires (forall k :: 0 <= k < |rows| ==> rows[k].Valid()) && u < USERPAGES
    ensures RowsPte(rows, u) == 0
    decreases |rows|
  {
    if rows != [] {
      assert rows[|rows| - 1].Valid();
      NoRowBelow(rows[..|rows| - 1], u);
    }
  }

  lemma NotCopiedYet(m0: seq<Page>, d: nat, mem: seq<Page>, use: Uses, c: nat, rows: seq<Row>, v: nat)
    requires GoodRows(rows) && v < USERPAGES && ChildOf(m0, d, mem, use, c, rows, v)
    ensures c < |mem| && Pte(mem, c, v) == 0
  {
    hide Pte;
    NoRowBelow(rows, v);
  }

  lemma NoCopies(m0: seq<Page>, d: nat, mem: seq<Page>, use: Uses, c: nat, rows: seq<Row>)
    requires GoodRows(rows) && d < |m0| && KernelOnly(mem, c, rows)
    ensures ChildOf(m0, d, mem, use, c, rows, 0)
  {
  }

  /** copyuvm: a child, out of memory (0), or one of its panics, which leaves a half-built child behind. */
  datatype CopyResult = Copied(child: nat) | OutOfMemory | NotPresent(child: nat)

  /** How many of the first n pages directory d has before the first that is missing. */
  ghost function PagesFrom0(mem: seq<Page>, d: nat, n: nat): (k: nat)
    requires d < |mem| && n <= USERPAGES
    ensures k <= n
  {
    if n == 0 then 0
    else
      var k := PagesFrom0(mem, d, n - 1);
      if k == n - 1 && Present(Pte(mem, d, n - 1)) then n else k
  }

  lemma {:induction false} FirstMissing(mem: seq<Page>, d: nat, n: nat, v: nat)
    requires d < |mem| && v < n <= USERPAGES && v <= PagesFrom0(mem, d, n)
    ensures Present(Pte(mem, d, v)) <==> v < PagesFrom0(mem, d, n)
    decreases n
  {
    hide Pte;
    if v < n - 1 {
      FirstMissing(mem, d, n - 1, v);
    }
  }

  lemma SamePte(m0: seq<Page>, u0: Uses, m1: seq<Page>, u1: Uses, d: nat, v: nat)
    requires Untouched(m0, u0, m1, u1) && IsDir(u0, d) && d < |m0| && v < NVPN
    ensures Pte(m1, d, v) == Pte(m0, d, v)
  {
    hide Pte;
  }

  /** The parent's pages are where they were. */
  lemma ParentPage(m0: seq<Page>, u0: Uses, m1: seq<Page>, u1: Uses, d: nat, v: nat)
    requires Good(m0, u0) && Good(m1, u1) && Untouched(m0, u0, m1, u1) && IsDir(u0, d) && d < |m0|
    requires v < USERPAGES && Present(Pte(m0, d, v))
    ensures Pte(m1, d, v) == Pte(m0, d, v) && d < |m1|
    ensures var p := Frame(Pte(m0, d, v));
            p in u0 && u0[p] == User(d, v) && p in u1 && u1[p] == User(d, v) && p < |m1| && p < |m0| && m1[p] == m0[p]
  {
    hide Pte;
    assert UserOk(m0, u0, d, v);
  }

  lemma NoCopyUntouched(m0: seq<Page>, u0: Uses, m1: seq<Page>, u1: Uses, m2: seq<Page>, u2: Uses, c: nat)
    requires Untouched(m0, u0, m1, u1) && c in u0 && u0[c] == Free && (forall q :: !OwnedBy(u0, c, q)) && 0 !in u0
    requires OnlyPool(m0, u0, m2, u2, c, 0)
    requires forall e: nat, u: nat :: IsDir(u1, e) && e < |m1| && u < NVPN ==> Pte(m2, e, u) == Pte(m1, e, u)
    ensures Untouched(m0, u0, m2, u2)
  {
    hide Pte;
    forall q | q in u0 && !u0[q].Free? ensures q < |m2| && u2[q] == u0[q] && m2[q] == m0[q] {
      assert PoolStep(m0, u0, m2, u2, c, q);
    }
    forall e: nat, u: nat | IsDir(u0, e) && e < |m0| && u < NVPN ensures Pte(m2, e, u) == Pte(m0, e, u) {
      assert IsDir(u1, e);
    }
  }

  lemma CopyUntouched(m0: seq<Page>, u0: Uses, m1: seq<Page>, u1: Uses, m2: seq<Page>, u2: Uses,
                      c: nat, v: nat, w: Uint)
    requires Untouched(m0, u0, m1, u1) && c in u0 && u0[c] == Free && (forall q :: !OwnedBy(u0, c, q)) && 0 !in u0
    requires OnlyPool(m0, u0, m2, u2, c, 0) && PteSet(m1, u1, m2, c, v, w)
    ensures Untouched(m0, u0, m2, u2)
  {
    hide Pte;
    forall q | q in u0 && !u0[q].Free? ensures q < |m2| && u2[q] == u0[q] && m2[q] == m0[q] {
      assert PoolStep(m0, u0, m2, u2, c, q);
    }
    forall e: nat, u: nat | IsDir(u0, e) && e < |m0| && u < NVPN ensures Pte(m2, e, u) == Pte(m0, e, u) {
      assert IsDir(u1, e) && e != c;
    }
  }

  lemma OneMoreCopy(m0: seq<Page>, u0: Uses, m1: seq<Page>, u1: Uses, m2: seq<Page>, u2: Uses,
                    d: nat, c: nat, rows: seq<Row>, v: nat, p: nat)
    requires GoodRows(rows) && ChildOf(m0, d, m1, u1, c, rows, v) && Good(m2, u2) && IsDir(u1, c) && IsDir(u2, c)
    requires v < USERPAGES && p < NVPN && Present(Pte(m0, d, v)) && Frame(Pte(m0, d, v)) < |m0|
    requires PteSet(m1, u1, m2, c, v, Entry(p, Flags(Pte(m0, d, v)))) && DataKept(m1, u1, m2)
    requires p < |m2| && m2[p] == m0[Frame(Pte(m0, d, v))] && p in u2 && u2[p] == User(c, v)
    ensures ChildOf(m0, d, m2, u2, c, rows, v + 1)
  {
    hide Pte;
    forall u: nat | u < v + 1 ensures CopiedPage(m0, d, m2, u2, c, u) {
      if u < v {
        assert CopiedPage(m0, d, m1, u1, c, u);
        assert UserOk(m2, u2, c, u);
      }
    }
  }

  lemma PteWritten(mem: seq<Page>, use: Uses, d: nat, v: nat, w: Uint)
    requires Good(mem, use) && IsDir(use, d) && v < NVPN && Present(mem[d][v / NENTRIES])
    ensures Frame(mem[d][v / NENTRIES]) < |mem|
    ensures PteSet(mem, use, WithPte(mem, d, v, w), d, v, w) && DataKept(mem, use, WithPte(mem, d, v, w))
  {
    hide Pte, Good;
    GoodBounds(mem, use);
    TableThere(mem, use, d, v);
    forall e: nat, u: nat | IsDir(use, e) && u < NVPN
      ensures e < |mem| ==> Pte(WithPte(mem, d, v, w), e, u) == if e == d && u == v then w else Pte(mem, e, u)
    {
      PteWrite(mem, use, d, v, w, e, u);
    }
  }

  lemma DataKeptOver(m0: seq<Page>, u0: Uses, m1: seq<Page>, u1: Uses, mem: seq<Page>, p: nat)
    requires p in u0 && u0[p] == Free && u1 == u0[p := Kernel] && |m1| == |m0| && p < |m0| && m1 == m0[p := m1[p]]
    requires DataKept(m1, u1, mem)
    ensures DataKept(m0, u0, mem)
  {
  }

  lemma DataKeptTrans(m0: seq<Page>, u0: Uses, m1: seq<Page>, u1: Uses, m2: seq<Page>)
    requires DataKept(m0, u0, m1) && DataKept(m1, u1, m2)
    requires forall q :: q in u0 && (u0[q].User? || u0[q].Kernel?) ==> q in u1 && u1[q] == u0[q]
    ensures DataKept(m0, u0, m2)
  {
  }

  lemma PteSetFrom(m0: seq<Page>, u0: Uses, m1: seq<Page>, u1: Uses, m2: seq<Page>, d: nat, v: nat, w: Uint)
    requires |m0| == |m1| && PteSet(m1, u1, m2, d, v, w) && forall e: nat :: IsDir(u0, e) ==> IsDir(u1, e)
    requires forall e: nat, u: nat :: IsDir(u0, e) && e < |m0| && u < NVPN ==> Pte(m1, e, u) == Pte(m0, e, u)
    ensures PteSet(m0, u0, m2, d, v, w)
  {
    hide Pte;
  }

  /** A page that was free and is now the directory's own stayed in the pool. */
  lemma PageMoved(m0: seq<Page>, u0: Uses, m1: seq<Page>, u1: Uses, m2: seq<Page>, u2: Uses, d: nat, p: nat)
    requires p in u0 && u0[p] == Free && u1 == u0[p := Kernel] && |m1| == |m0| && p < |m0| && m1 == m0[p := m1[p]]
    requires OnlyPool(m1, u1, m2, u2, d, p) && p in u2 && OwnedBy(u2, d, p)
    requires forall q :: q in u0 ==> q < |m0|
    ensures OnlyPool(m0, u0, m2, u2, d, 0)
  {
    forall q | q in u0 ensures PoolStep(m0, u0, m2, u2, d, q) {
      if q != p {
        assert PoolStep(m1, u1, m2, u2, d, q);
      }
    }
  }

  /** What processes can see is the same: every page in use keeps its use, data pages their contents,
      and every directory its mappings. */
  ghost predicate Untouched(m0: seq<Page>, u0: Uses, mem: seq<Page>, use: Uses) {
    && |mem| == |m0| && use.Keys == u0.Keys
    && (forall q :: q in u0 && !u0[q].Free? ==> q < |mem| && use[q] == u0[q] && mem[q] == m0[q])
    && forall e: nat, u: nat :: IsDir(u0, e) && e < |m0| && u < NVPN ==> Pte(mem, e, u) == Pte(m0, e, u)
  }

  lemma NothingTouched(mem: seq<Page>, use: Uses)
    requires forall q :: q in use ==> q < |mem|
    ensures Untouched(mem, use, mem, use)
  {
  }

  /** No page belongs to a directory that is not one. */
  lemma NotADirectory(mem: seq<Page>, use: Uses, d: nat)
    requires Good(mem, use) && d in use && use[d] == Free
    ensures forall q :: !OwnedBy(use, d, q)
  {
    forall q: nat ensures !OwnedBy(use, d, q) {
      assert UseOk(mem, use, q);
    }
  }

  lemma TookPage(m0: seq<Page>, u0: Uses, mem: seq<Page>, use: Uses, d: nat)
    requires Good(m0, u0) && d in u0 && u0[d] == Free && use == u0[d := Dir] && |mem| == |m0| && mem == m0[d := mem[d]]
    requires forall q :: !OwnedBy(u0, d, q)
    ensures OnlyPool(m0, u0, mem, use, d, 0) && Untouched(m0, u0, mem, use)
  {
    hide Pte;
    forall q | q in u0 ensures PoolStep(m0, u0, mem, use, d, q) {
    }
    forall e: nat, u: nat | IsDir(u0, e) && u < NVPN ensures Pte(mem, e, u) == Pte(m0, e, u) {
      DataWrite(m0, u0, d, mem[d], e, u);
    }
  }

  lemma RowUntouched(m0: seq<Page>, u0: Uses, m1: seq<Page>, u1: Uses, m2: seq<Page>, u2: Uses,
                     d: nat, row: Row, j: nat, failed: bool)
    requires Untouched(m0, u0, m1, u1) && d in u0 && u0[d] == Free && (forall q :: !OwnedBy(u0, d, q)) && 0 !in u0
    requires OnlyPool(m0, u0, m2, u2, d, 0) && row.Valid() && RowMapped(m1, u1, m2, u2, d, row, j, failed)
    ensures Untouched(m0, u0, m2, u2)
  {
    hide Pte;
    forall q | q in u0 && !u0[q].Free? ensures q < |m2| && u2[q] == u0[q] && m2[q] == m0[q] {
      assert PoolStep(m0, u0, m2, u2, d, q);
    }
    forall e: nat, u: nat | IsDir(u0, e) && e < |m0| && u < NVPN ensures Pte(m2, e, u) == Pte(m0, e, u) {
      assert IsDir(u1, e) && e != d;
    }
  }

  /** Giving back a directory built from free pages leaves the uses of before. */
  lemma AllReturned(m0: seq<Page>, u0: Uses, m1: seq<Page>, u1: Uses, m2: seq<Page>, u2: Uses, d: nat)
    requires OnlyPool(m0, u0, m1, u1, d, 0) && Untouched(m0, u0, m1, u1) && d in u0 && u0[d] == Free
    requires (forall q :: !OwnedBy(u0, d, q)) && 0 !in u0
    requires GivenBack(u1, u2, d) && |m2| == |m1|
    requires forall q :: q in u1 && !InPool(u1, d, q) ==> q < |m2| && m2[q] == m1[q]
    requires SameElsewhere(m1, u1, m2, d)
    ensures u2 == u0 && Untouched(m0, u0, m2, u2)
  {
    hide Pte;
    forall q | q in u0 ensures u2[q] == u0[q] && (!u0[q].Free? ==> q < |m2| && m2[q] == m0[q]) {
      assert PoolStep(m0, u0, m1, u1, d, q);
    }
    forall e: nat, u: nat | IsDir(u0, e) && e < |m0| && u < NVPN ensures Pte(m2, e, u) == Pte(m0, e, u) {
      assert IsDir(u1, e) && e != d;
    }
  }

  /** A row of kmap in page numbers. */
  datatype Row = Row(v: nat, n: nat, pa: nat, perm: nat) {
    predicate Valid() {
      USERPAGES <= v && v + n <= NVPN && pa + n <= NVPN && perm < PGSIZE
    }

    predicate Has(u: nat) {
      v <= u < v + n
    }
  }

  /** vm.c:105-115, where `data` is the page of the kernel's data section. */
  function Kmap(data: nat): (rows: seq<Row>)
    requires 0x100 < data < PHYSPAGES
    ensures GoodRows(rows)
  {
    [Row(USERPAGES, 0x100, 0, PTE_W),                              // I/O space
     Row(USERPAGES + 0x100, data - 0x100, 0x100, 0),               // kernel text and read-only data
     Row(USERPAGES + data, PHYSPAGES - data, data, PTE_W),         // kernel data and memory
     Row(0xF_E000, 0x2000, 0xF_E000, PTE_W)]                       // more devices
  }

  ghost predicate GoodRows(rows: seq<Row>) {
    && (forall k :: 0 <= k < |rows| ==> rows[k].Valid())
    && forall j, k, u: nat :: 0 <= j < k < |rows| && rows[j].Has(u) ==> !rows[k].Has(u)
  }

  /** The entry that a directory with exactly these rows has for page u. */
  function RowsPte(rows: seq<Row>, u: nat): Uint
    requires forall k :: 0 <= k < |rows| ==> rows[k].Valid()
    decreases |rows|
  {
    if rows == [] then 0
    else
      var row := rows[|rows| - 1];
      assert row.Valid();
      if row.Has(u) then Entry(row.pa + (u - row.v), row.perm) else RowsPte(rows[..|rows| - 1], u)
  }

  /** The directory entries that the rows fall under. */
  ghost function Tables(rows: seq<Row>): set<nat> {
    if rows == [] then {} else Tables(rows[..|rows| - 1]) + Span(rows[|rows| - 1].v, rows[|rows| - 1].n)
  }

  lemma NoTables(dir: Page, rows: seq<Row>)
    requires ZeroPage(dir)
    ensures Held(dir) == {} == Tables(rows[..0]) && Needs(dir, Tables(rows), 0) == |Tables(rows)|
  {
    assert Tables(rows) - {} == Tables(rows);
  }

  lemma {:induction false} TablesGrow(rows: seq<Row>, k: nat)
    requires k <= |rows|
    ensures Tables(rows[..k]) <= Tables(rows)
    decreases |rows|
  {
    if k == |rows| {
      assert rows[..k] == rows;
    } else {
      TablesGrow(rows[..|rows| - 1], k);
      assert rows[..|rows| - 1][..k] == rows[..k];
    }
  }

  /** The round for row k: it cannot be done only when the whole cannot. */
  lemma OneRowMore(f0: nat, a: Page, f1: nat, b: Page, rows: seq<Row>, k: nat)
    requires k < |rows| && Spent(f0, a, f1, b, Tables(rows[..k]), 0)
    ensures Tables(rows[..k + 1]) == Tables(rows[..k]) + Span(rows[k].v, rows[k].n)
    ensures f1 < Needs(b, Span(rows[k].v, rows[k].n), 0) ==> Needs(a, Tables(rows), 0) > f0
  {
    hide Spent, Needs, Span;
    assert rows[..k + 1][..k] == rows[..k];
    TablesGrow(rows, k + 1);
    if f1 < Needs(b, Span(rows[k].v, rows[k].n), 0) {
      RanOut(f0, a, f1, b, Tables(rows[..k]), 0, Span(rows[k].v, rows[k].n), 0, Tables(rows), 0);
    }
  }

  lemma AllTables(f0: nat, a: Page, f1: nat, b: Page, rows: seq<Row>)
    requires Spent(f0, a, f1, b, Tables(rows), 0) && Held(a) == {}
    ensures Held(b) == Tables(rows)
  {
  }

  /** The free pages that a copy of n pages takes: the directory, its tables and the copies. */
  ghost function ForkNeeds(rows: seq<Row>, n: nat): nat {
    1 + |Tables(rows)| + n + |Span(0, n) - Tables(rows)|
  }

  lemma TooFewForTables(rows: seq<Row>, n: nat, f: nat)
    requires f < 1 + |Tables(rows)|
    ensures f < ForkNeeds(rows, n)
  {
  }

  lemma ForkTotal(rows: seq<Row>, n: nat, f: nat, dir: Page)
    requires Held(dir) == Tables(rows)
    ensures Needs(dir, Span(0, n), n) <= f <==> ForkNeeds(rows, n) <= f + 1 + |Tables(rows)|
  {
  }

  lemma {:induction false} RangeSize(lo: nat, hi: nat)
    requires lo <= hi
    ensures |Range(lo, hi)| == hi - lo
    decreases hi
  {
    if lo == hi {
      assert Range(lo, hi) == {};
    } else {
      RangeSize(lo, hi - 1);
      assert Range(lo, hi) == Range(lo, hi - 1) + {hi - 1};
    }
  }

  /** The kernel's rows take 64 tables, wherever its data section starts: 56 for memory, 8 for devices. */
  lemma KmapTables(data: nat)
    requires 0x100 < data < PHYSPAGES
    ensures Tables(Kmap(data)) == Range(512, 568) + Range(1016, 1024)
    ensures |Tables(Kmap(data))| == 64
  {
    var rows := Kmap(data);
    assert rows[..3][..2] == rows[..2] && rows[..2][..1] == rows[..1] && rows[..1][..0] == [];
    assert Tables(rows[..1]) == Span(rows[0].v, rows[0].n);
    assert Tables(rows[..2]) == Tables(rows[..1]) + Span(rows[1].v, rows[1].n);
    assert Tables(rows[..3]) == Tables(rows[..2]) + Span(rows[2].v, rows[2].n);
    var a, b := Range(512, 568), Range(1016, 1024);
    assert Tables(rows[..3]) == a;
    assert Span(rows[3].v, rows[3].n) == b;
    RangeSize(512, 568);
    RangeSize(1016, 1024);
    assert a * b == {};
  }

  /**
   With the kernel's rows a copy of n pages takes 65 + n pages, and one more for each 4 megabytes begun.
   */
  lemma ForkCost(data: nat, n: nat)
    requires 0x100 < data < PHYSPAGES && n <= USERPAGES
    ensures ForkNeeds(Kmap(data), n) == 65 + n + (n + NENTRIES - 1) / NENTRIES
  {
    hide Kmap, Tables;
    KmapTables(data);
    var k := (n + NENTRIES - 1) / NENTRIES;
    assert Span(0, n) == Range(0, k);
    RangeSize(0, k);
    assert Span(0, n) - Tables(Kmap(data)) == Span(0, n);
  }

  lemma {:induction false} RowsApart(rows: seq<Row>, k: nat, u: nat)
    requires GoodRows(rows) && k < |rows| && rows[k].Has(u)
    ensures RowsPte(rows[..k], u) == 0
  {
    OutsideRows(rows[..k], u);
  }

  lemma {:induction false} OutsideRows(rows: seq<Row>, u: nat)
    requires (forall k :: 0 <= k < |rows| ==> rows[k].Valid()) && forall k :: 0 <= k < |rows| ==> !rows[k].Has(u)
    ensures RowsPte(rows, u) == 0
    decreases |rows|
  {
    if rows != [] {
      OutsideRows(rows[..|rows| - 1], u);
    }
  }

  /** Directory d maps exactly these rows, and no user page. */
  ghost predicate KernelOnly(mem: seq<Page>, d: nat, rows: seq<Row>)
    requires forall k :: 0 <= k < |rows| ==> rows[k].Valid()
  {
    d < |mem| && forall u: nat :: u < NVPN ==> Pte(mem, d, u) == RowsPte(rows, u)
  }

  lemma LastRow(rows: seq<Row>, u: nat)
    requires rows != [] && forall k :: 0 <= k < |rows| ==> rows[k].Valid()
    ensures var row := rows[|rows| - 1];
            RowsPte(rows, u) ==
            if row.Has(u) then Entry(row.pa + (u - row.v), row.perm) else RowsPte(rows[..|rows| - 1], u)
  {
  }

  predicate Writable(e: Uint) {
    Flags(e) / PTE_W % 2 == 1
  }

  predicate UserMay(e: Uint) {
    Flags(e) / PTE_U % 2 == 1
  }

  /**
   What the kernel's half of a directory maps: physical memory at KERNBASE on, the devices at the top
   where they are, and nothing else.  A user may use none of it, and the kernel's text, from EXTMEM to
   its data section, is all that is read-only.
   */
  lemma KernelHalf(mem: seq<Page>, d: nat, data: nat, u: nat)
    requires 0x100 < data < PHYSPAGES && KernelOnly(mem, d, Kmap(data)) && u < NVPN
    ensures var e := Pte(mem, d, u);
            && (Present(e) <==> USERPAGES <= u < USERPAGES + PHYSPAGES || 0xF_E000 <= u)
            && (Present(e) ==>
                  && Frame(e) == (if u < 0xF_E000 then u - USERPAGES else u)
                  && !UserMay(e) && (Writable(e) <==> !(USERPAGES + 0x100 <= u < USERPAGES + data)))
  {
    hide Pte;
    var rows := Kmap(data);
    var r3, r2, r1 := rows[..3], rows[..2], rows[..1];
    assert r3[..2] == r2 && r2[..1] == r1 && r1[..0] == [];
    LastRow(rows, u);
    LastRow(r3, u);
    LastRow(r2, u);
    LastRow(r1, u);
  }

  lemma OneMoreRow(m0: seq<Page>, u0: Uses, mem: seq<Page>, use: Uses, d: nat, rows: seq<Row>, k: nat)
    requires GoodRows(rows) && k < |rows| && KernelOnly(m0, d, rows[..k]) && IsDir(u0, d)
    requires RowMapped(m0, u0, mem, use, d, rows[k], rows[k].n, false)
    ensures KernelOnly(mem, d, rows[..k + 1])
  {
    hide Pte;
    assert rows[..k + 1][..k] == rows[..k];
    forall u: nat | u < NVPN ensures Pte(mem, d, u) == RowsPte(rows[..k + 1], u) {
      assert Pte(m0, d, u) == RowsPte(rows[..k], u);
    }
  }

  /** The first j pages of a row are mapped, or, after a failure, some of its pages; nothing else changed. */
  ghost predicate RowMapped(m0: seq<Page>, u0: Uses, mem: seq<Page>, use: Uses, d: nat, row: Row, j: nat, failed: bool)
    requires row.Valid()
  {
    && |mem| == |m0|
    && (forall e: nat :: IsDir(u0, e) ==> IsDir(use, e))
    && forall e: nat, u: nat :: IsDir(u0, e) && e < |m0| && u < NVPN && (failed && e == d ==> !row.Has(u)) ==>
         Pte(mem, e, u) == if e == d && row.v <= u < row.v + j && u < row.v + row.n
                           then Entry(row.pa + u - row.v, row.perm) else Pte(m0, e, u)
  }

  /** Directories other than those of the pool stay directories. */
  lemma StillDirs(m0: seq<Page>, u0: Uses, m1: seq<Page>, u1: Uses, d: nat)
    requires OnlyPool(m0, u0, m1, u1, d, 0) && IsDir(u1, d) && 0 !in u0
    ensures forall e: nat :: IsDir(u0, e) ==> IsDir(u1, e)
  {
    forall e: nat | IsDir(u0, e) ensures IsDir(u1, e) {
      assert PoolStep(m0, u0, m1, u1, d, e);
    }
  }

  // ---------- Giving a directory up ----------

  /** Every directory but d maps what it did. */
  ghost predicate SameElsewhere(m0: seq<Page>, u0: Uses, mem: seq<Page>, d: nat) {
    && |mem| == |m0|
    && forall e: nat, u: nat :: IsDir(u0, e) && e != d && e < |m0| && u < NVPN ==> Pte(mem, e, u) == Pte(m0, e, u)
  }

  lemma NothingElsewhere(mem: seq<Page>, use: Uses, d: nat)
    ensures SameElsewhere(mem, use, mem, d)
  {
  }

  lemma ElsewhereTrans(m0: seq<Page>, u0: Uses, m1: seq<Page>, u1: Uses, m2: seq<Page>, d: nat)
    requires SameElsewhere(m0, u0, m1, d) && SameElsewhere(m1, u1, m2, d) &&
             forall e: nat :: IsDir(u0, e) ==> IsDir(u1, e)
    ensures SameElsewhere(m0, u0, m2, d)
  {
    hide Pte;
  }

  lemma ElsewhereKept(m0: seq<Page>, u0: Uses, m1: seq<Page>, m2: seq<Page>, use: Uses, d: nat)
    requires SameElsewhere(m0, u0, m1, d) && |m2| == |m1| && forall e: nat :: IsDir(u0, e) && e != d ==> IsDir(use, e)
    requires forall e: nat, u: nat :: IsDir(use, e) && e < |m1| && u < NVPN ==> Pte(m2, e, u) == Pte(m1, e, u)
    ensures SameElsewhere(m0, u0, m2, d)
  {
    hide Pte;
  }

  /** Retired uses with the tables below index i on the free list. */
  ghost predicate TablesFreed(u1: Uses, use: Uses, d: nat, i: nat) {
    && use.Keys == u1.Keys
    && forall q :: q in u1 ==>
         use[q] == if u1[q].Table? && u1[q].dir == d && u1[q].i < i then Free else Retired(u1, d)[q]
  }

  /** Every page that directory d owned is free; every other page has the use it had. */
  ghost predicate GivenBack(u0: Uses, use: Uses, d: nat) {
    use.Keys == u0.Keys && forall q :: q in u0 ==> use[q] == if OwnedBy(u0, d, q) then Free else u0[q]
  }

  lemma BackLosesNone(u0: Uses, use: Uses, d: nat)
    requires GivenBack(u0, use, d)
    ensures NoneLost(u0) ==> NoneLost(use)
  {
  }

  lemma DirGivenBack(m1: seq<Page>, u1: Uses, u2: Uses, d: nat)
    requires Good(m1, u1) && IsDir(u1, d) && TablesFreed(u1, u2, d, NENTRIES)
    requires forall v: nat :: v < USERPAGES ==> !Present(Pte(m1, d, v))
    ensures u2[d] == Kernel && GivenBack(u1, u2[d := Free], d)
  {
    hide Pte;
    forall q | q in u1 ensures u2[d := Free][q] == if OwnedBy(u1, d, q) then Free else u1[q] {
      assert UseOk(m1, u1, q);
    }
  }

  /** Pages that moved between the free list and d, and then d's pages to the free list. */
  lemma PoolGivenBack(m0: seq<Page>, u0: Uses, m1: seq<Page>, u1: Uses, u2: Uses, d: nat)
    requires OnlyPool(m0, u0, m1, u1, d, 0) && GivenBack(u1, u2, d) && 0 !in u0
    ensures GivenBack(u0, u2, d)
    ensures forall q :: q in u0 && !InPool(u0, d, q) ==> q < |m0| && m1[q] == m0[q] && !InPool(u1, d, q)
  {
    forall q | q in u0
      ensures u2[q] == if OwnedBy(u0, d, q) then Free else u0[q]
      ensures !InPool(u0, d, q) ==> q < |m0| && m1[q] == m0[q] && !InPool(u1, d, q)
    {
      assert PoolStep(m0, u0, m1, u1, d, q);
    }
  }

  /** Table i of directory d, if it is there, is the only page used as that. */
  lemma OnlyThatTable(mem: seq<Page>, use: Uses, d: nat, i: nat)
    requires Good(mem, use) && IsDir(use, d) && d < |mem| && i < NENTRIES
    ensures Present(mem[d][i]) ==> Frame(mem[d][i]) in use && use[Frame(mem[d][i])] == Table(d, i)
    ensures forall q :: q in use && use[q] == Table(d, i) ==> Present(mem[d][i]) && q == Frame(mem[d][i])
  {
    assert TableOk(mem, use, d, i);
    forall q | q in use && use[q] == Table(d, i) ensures Present(mem[d][i]) && q == Frame(mem[d][i]) {
      assert UseOk(mem, use, q);
    }
  }

  lemma NothingMapped(m0: seq<Page>, u0: Uses, m1: seq<Page>, u1: Uses, d: nat)
    requires PtesCleared(m0, u0, m1, u1, d, 0, KERNBASE, NVPN) && IsDir(u0, d) && d < |m0|
    ensures |m1| == |m0| && forall v: nat :: v < USERPAGES ==> !Present(Pte(m1, d, v))
    ensures SameElsewhere(m0, u0, m1, d) && forall e: nat :: IsDir(u0, e) ==> IsDir(u1, e)
  {
    hide Pte;
    forall v: nat | v < USERPAGES ensures !Present(Pte(m1, d, v)) {
      assert InRange(v, 0, KERNBASE);
    }
  }

  /** Going from mem to mem' the entry for page v of directory d became w, and no other entry changed. */
  ghost predicate PteSet(mem: seq<Page>, use: Uses, mem': seq<Page>, d: nat, v: nat, w: Uint) {
    && |mem'| == |mem|
    && forall e: nat, u: nat :: IsDir(use, e) && e < |mem| && u < NVPN ==>
         Pte(mem', e, u) == if e == d && u == v then w else Pte(mem, e, u)
  }

  lemma UnmappedGood(mem: seq<Page>, use: Uses, d: nat, v: nat, x: Page)
    requires Good(mem, use) && IsDir(use, d) && v < USERPAGES && Present(mem[d][v / NENTRIES])
    requires Present(Pte(mem, d, v))
    ensures Frame(mem[d][v / NENTRIES]) < |mem|
    ensures var p := Frame(Pte(mem, d, v));
            && p in use && 0 < p < |mem|
            && var mem' := WithPte(mem, d, v, 0)[p := x];
            && Good(mem', use[p := Free]) && PteSet(mem, use, mem', d, v, 0)
            && OnlyPool(mem, use, mem', use[p := Free], d, 0)
  {
    hide Pte, Good;
    GoodBounds(mem, use);
    TableThere(mem, use, d, v);
    UnmapGood(mem, use, d, v);
    var p := Frame(Pte(mem, d, v));
    var m1, u1 := WithPte(mem, d, v, 0), use[p := Kernel];
    DataWriteGood(m1, u1, p, x);
    Relabel(m1[p := x], u1, p, Free);
    assert u1[p := Free] == use[p := Free];
    forall e: nat, u: nat | IsDir(use, e) && u < NVPN
      ensures Pte(m1[p := x], e, u) == if e == d && u == v then 0 else Pte(mem, e, u)
    {
      PteWrite(mem, use, d, v, 0, e, u);
      DataWrite(m1, u1, p, x, e, u);
    }
  }

  /** deallocuvm has passed over the pages from lo up to v. */
  ghost predicate PtesCleared(m0: seq<Page>, u0: Uses, mem: seq<Page>, use: Uses,
                              d: nat, lo: nat, oldsz: nat, v: nat)
  {
    && |mem| == |m0|
    && (forall e: nat :: IsDir(u0, e) ==> IsDir(use, e))
    && forall e: nat, u: nat :: IsDir(u0, e) && e < |m0| && u < NVPN ==>
         Pte(mem, e, u) ==
         if e == d && u < v && InRange(u, lo, oldsz) then Cleared(Pte(m0, e, u)) else Pte(m0, e, u)
  }

  lemma NoneCleared(mem: seq<Page>, use: Uses, d: nat, lo: nat, oldsz: nat, v: nat)
    requires v <= lo
    ensures PtesCleared(mem, use, mem, use, d, lo, oldsz, v)
  {
  }

  lemma NoneInRange(mem: seq<Page>, use: Uses, d: nat, lo: nat, oldsz: nat)
    requires lo * PGSIZE >= oldsz
    ensures PtesCleared(mem, use, mem, use, d, lo, oldsz, NVPN)
  {
  }

  lemma OneSkipped(m0: seq<Page>, u0: Uses, mem: seq<Page>, use: Uses, d: nat, lo: nat, oldsz: nat, v: nat)
    requires PtesCleared(m0, u0, mem, use, d, lo, oldsz, v) && IsDir(u0, d) && d < |m0| && v < NVPN
    requires !Present(Pte(mem, d, v))
    ensures PtesCleared(m0, u0, mem, use, d, lo, oldsz, v + 1)
  {
    hide Pte;
  }

  lemma OneCleared(m0: seq<Page>, u0: Uses, m1: seq<Page>, u1: Uses, mem: seq<Page>, use: Uses,
                   d: nat, lo: nat, oldsz: nat, v: nat)
    requires PtesCleared(m0, u0, m1, u1, d, lo, oldsz, v) && IsDir(u0, d) && d < |m0| && v < NVPN
    requires Present(Pte(m1, d, v)) && InRange(v, lo, oldsz) && PteSet(m1, u1, mem, d, v, 0)
    requires forall e: nat :: IsDir(u1, e) ==> IsDir(use, e)
    ensures PtesCleared(m0, u0, mem, use, d, lo, oldsz, v + 1)
  {
    hide Pte;
  }

  lemma SkippedTable(m0: seq<Page>, u0: Uses, mem: seq<Page>, use: Uses, d: nat, lo: nat, oldsz: nat, v: nat)
    requires PtesCleared(m0, u0, mem, use, d, lo, oldsz, v) && IsDir(u0, d) && d < |m0| && v < NVPN
    requires !Present(mem[d][v / NENTRIES])
    ensures PtesCleared(m0, u0, mem, use, d, lo, oldsz, (v / NENTRIES + 1) * NENTRIES)
  {
    hide Pte;
    var next := (v / NENTRIES + 1) * NENTRIES;
    forall e: nat, u: nat | IsDir(u0, e) && e < |m0| && u < NVPN
      ensures Pte(mem, e, u) ==
              if e == d && u < next && InRange(u, lo, oldsz) then Cleared(Pte(m0, e, u)) else Pte(m0, e, u)
    {
      if e == d && v <= u < next {
        NoTable(mem, d, u);
      }
    }
  }

  lemma AllCleared(m0: seq<Page>, u0: Uses, mem: seq<Page>, use: Uses, d: nat, lo: nat, oldsz: nat, v: nat)
    requires PtesCleared(m0, u0, mem, use, d, lo, oldsz, v) && v * PGSIZE >= oldsz
    ensures PtesCleared(m0, u0, mem, use, d, lo, oldsz, NVPN)
  {
    hide Pte;
    forall e: nat, u: nat | IsDir(u0, e) && e < |m0| && u < NVPN
      ensures Pte(mem, e, u) ==
              if e == d && InRange(u, lo, oldsz) then Cleared(Pte(m0, e, u)) else Pte(m0, e, u)
    {
      assert InRange(u, lo, oldsz) ==> u < v;
    }
  }

  /** deallocuvm, in page numbers: the pages from lo on that oldsz still covers. */
  predicate InRange(u: nat, lo: nat, oldsz: nat) {
    lo <= u && u * PGSIZE < oldsz
  }

  /** An entry after deallocuvm has passed over it. */
  function Cleared(e: Uint): Uint {
    if Present(e) then 0 else e
  }

  lemma GoodBounds(mem: seq<Page>, use: Uses)
    requires Good(mem, use)
    ensures forall q :: q in use ==> 0 < q < |mem|
  {
  }

  lemma UserThere(mem: seq<Page>, use: Uses, d: nat, v: nat)
    requires Good(mem, use) && IsDir(use, d) && d < |mem| && v < USERPAGES && Present(Pte(mem, d, v))
    ensures Frame(Pte(mem, d, v)) in use && use[Frame(Pte(mem, d, v))].User? && Frame(Pte(mem, d, v)) < |mem|
  {
    hide Pte;
    assert UserOk(mem, use, d, v);
  }

  lemma NoTable(mem: seq<Page>, d: nat, v: nat)
    requires d < |mem| && v < NVPN && !Present(mem[d][v / NENTRIES])
    ensures Pte(mem, d, v) == 0
  {
  }

  lemma KeptIfPresent(mem: seq<Page>, d: nat, v: nat)
    requires d < |mem| && v < NVPN && Present(Pte(mem, d, v))
    ensures Present(mem[d][v / NENTRIES])
  {
  }

  /** The pages of directory d other than x, and the free pages, are the same set; x joined them. */
  lemma Handover(m0: seq<Page>, u0: Uses, m1: seq<Page>, u1: Uses, m2: seq<Page>, u2: Uses, d: nat, x: nat, t: nat,
                 w: Use)
    requires OnlyPool(m0, u0, m1, u1, d, 0) && |m2| == |m1|
    requires u2 == u1 || (x in u1 && u2 == u1[x := w])
    requires t in u1 && OwnedBy(u1, d, t) && t != x && t < |m1| && m2 == m1[t := m2[t]]
    requires forall q :: q in u0 ==> q < |m0|
    requires 0 !in u0
    ensures OnlyPool(m0, u0, m2, u2, d, x)
  {
    forall q | q in u0 && q != x ensures PoolStep(m0, u0, m2, u2, d, q) {
      assert PoolStep(m0, u0, m1, u1, d, q);
    }
  }

  /** A free page became a zeroed table of directory d. */
  lemma TookTable(m0: seq<Page>, u0: Uses, m1: seq<Page>, u1: Uses, d: nat, i: nat, t: nat)
    requires Good(m0, u0) && IsDir(u0, d) && t in u0 && u0[t] == Free && u1 == u0[t := Kernel] && Good(m1, u1)
    requires |m1| == |m0| && m1 == m0[t := m1[t]] && ZeroPage(m1[t]) && i < NENTRIES && !Present(m0[d][i])
    ensures var m2, u2 := WithTable(m1, d, i, t), u1[t := Table(d, i)];
            && |m2| == |m0|
            && OnlyPool(m0, u0, m2, u2, d, 0) && DataKept(m0, u0, m2)
            && forall e: nat, v: nat :: IsDir(u0, e) && e < |m0| && v < NVPN ==> Pte(m2, e, v) == Pte(m0, e, v)
  {
    hide Pte;
    var m2, u2 := WithTable(m1, d, i, t), u1[t := Table(d, i)];
    forall q | q in u0 ensures PoolStep(m0, u0, m2, u2, d, q) {
    }
    forall e: nat, v: nat | IsDir(u0, e) && e < |m0| && v < NVPN ensures Pte(m2, e, v) == Pte(m0, e, v) {
      DataWrite(m0, u0, t, m1[t], e, v);
      TableAdds(m1, u1, d, i, t, e, v);
    }
  }

  lemma Nothing(mem: seq<Page>, use: Uses, d: nat)
    requires Good(mem, use)
    ensures DataKept(mem, use, mem)
    ensures OnlyPool(mem, use, mem, use, d, 0) && forall q :: q in use ==> 0 < q < |mem|
  {
  }
}
