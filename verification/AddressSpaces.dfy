/**
 Processes and their memory: how proc.c uses the page-table calls of vm.c, over any sequence of
 new processes, sbrk, fork and exit.
 */
module AddressSpaces {
  import opened Common
  import opened Paging
  import opened Vm
  import Heap

  /** proc.pgdir and proc.sz. */
  datatype Space = Space(d: nat, sz: Uint)

  datatype Op = New | Sbrk(k: nat, n: Int) | Fork(k: nat) | Exit(k: nat)

  datatype ForkResult = Forked | NoMemory | Panicked

  /** The user pages of the process are those from lo up to its size.  lo is 0 unless it lost some. */
  ghost predicate Has(mem: seq<Page>, use: Uses, s: Space, lo: nat) {
    && IsDir(use, s.d) && s.d < |mem| && s.sz < KERNBASE && lo <= RoundUp(s.sz)
    && forall u: nat :: u < USERPAGES ==> (Present(Pte(mem, s.d, u)) <==> lo <= u < RoundUp(s.sz))
  }

  predicate Runs(procs: seq<Option<Space>>, k: nat) {
    k < |procs| && procs[k].Some?
  }

  /** Every process has the pages it should, in a directory of its own; every directory is a process's. */
  ghost predicate All(mem: seq<Page>, use: Uses, procs: seq<Option<Space>>, low: seq<nat>) {
    && |low| == |procs|
    && (forall k: nat :: Runs(procs, k) ==> Has(mem, use, procs[k].value, low[k]))
    && (forall j: nat, k: nat :: Runs(procs, j) && Runs(procs, k) && j != k ==> procs[j].value.d != procs[k].value.d)
    && forall d: nat :: IsDir(use, d) ==> exists k: nat :: Runs(procs, k) && procs[k].value.d == d
  }

  /** No other directory came or went or has other pages. */
  ghost predicate Framed(m0: seq<Page>, u0: Uses, mem: seq<Page>, use: Uses, d: nat) {
    && |mem| == |m0|
    && (forall e: nat :: e != d ==> (IsDir(use, e) <==> IsDir(u0, e)))
    && forall e: nat, u: nat :: IsDir(u0, e) && e != d && e < |m0| && u < USERPAGES ==>
         (Present(Pte(mem, e, u)) <==> Present(Pte(m0, e, u)))
  }

  function Put<T>(s: seq<T>, k: nat, x: T): seq<T>
    requires k <= |s|
  {
    if k < |s| then s[k := x] else s + [x]
  }

  /** One process changes, comes or goes. */
  lemma OneChanged(m0: seq<Page>, u0: Uses, mem: seq<Page>, use: Uses, procs: seq<Option<Space>>, low: seq<nat>,
                   k: nat, d: nat, x: Option<Space>, lo: nat)
    requires All(m0, u0, procs, low) && Framed(m0, u0, mem, use, d) && k <= |procs|
    requires if k < |procs| then procs[k].Some? && procs[k].value.d == d else !IsDir(u0, d)
    requires if x.Some? then x.value.d == d && Has(mem, use, x.value, lo) else !IsDir(use, d)
    ensures All(mem, use, Put(procs, k, x), Put(low, k, lo))
  {
    hide Pte;
    var ps, lows := Put(procs, k, x), Put(low, k, lo);
    forall j: nat | Runs(ps, j) ensures Has(mem, use, ps[j].value, lows[j]) && (j != k ==> ps[j].value.d != d) {
      if j != k {
        assert Runs(procs, j) && Has(m0, u0, procs[j].value, low[j]);
      }
    }
    forall i: nat, j: nat | Runs(ps, i) && Runs(ps, j) && i != j ensures ps[i].value.d != ps[j].value.d {
      assert i != k && j != k ==> Runs(procs, i) && Runs(procs, j);
    }
    forall e: nat | IsDir(use, e) ensures exists j: nat :: Runs(ps, j) && ps[j].value.d == e {
      if e == d {
        assert Runs(ps, k);
      } else {
        var j: nat :| Runs(procs, j) && procs[j].value.d == e;
        assert Runs(ps, j);
      }
    }
  }

  lemma PoolDirs(m0: seq<Page>, u0: Uses, mem: seq<Page>, use: Uses, d: nat)
    requires OnlyPool(m0, u0, mem, use, d, 0) && 0 !in u0
    ensures forall e: nat :: e != d ==> (IsDir(use, e) <==> IsDir(u0, e))
  {
    forall e: nat | e != d ensures IsDir(use, e) <==> IsDir(u0, e) {
      if e in u0 {
        assert PoolStep(m0, u0, mem, use, d, e);
      }
    }
  }

  lemma UntouchedFrames(m0: seq<Page>, u0: Uses, mem: seq<Page>, use: Uses, d: nat)
    requires OnlyPool(m0, u0, mem, use, d, 0) && 0 !in u0 && Untouched(m0, u0, mem, use)
    ensures Framed(m0, u0, mem, use, d)
  {
    hide Pte, OnlyPool;
    PoolDirs(m0, u0, mem, use, d);
  }

  /** Nothing is lost or gained, even though page tables may have been added. */
  lemma SameFrames(m0: seq<Page>, u0: Uses, mem: seq<Page>, use: Uses, d: nat, s: Space, lo: nat)
    requires OnlyPool(m0, u0, mem, use, d, 0) && 0 !in u0 && SameMappings(m0, u0, mem, use)
    requires Has(m0, u0, s, lo) && s.d == d
    ensures Framed(m0, u0, mem, use, d) && Has(mem, use, s, lo)
  {
    hide Pte, OnlyPool;
    PoolDirs(m0, u0, mem, use, d);
    forall e: nat, u: nat | IsDir(u0, e) && e < |m0| && u < USERPAGES
      ensures Present(Pte(mem, e, u)) <==> Present(Pte(m0, e, u))
    {
      assert SameEntry(Pte(m0, e, u), Pte(mem, e, u));
    }
  }

  lemma GrownFrames(m0: seq<Page>, u0: Uses, mem: seq<Page>, use: Uses, d: nat, s: Space, newsz: Uint, lo: nat)
    requires OnlyPool(m0, u0, mem, use, d, 0) && 0 !in u0 && IsDir(use, d)
    requires Has(m0, u0, s, lo) && s.d == d && s.sz <= newsz < KERNBASE
    requires Grown(m0, u0, mem, use, d, RoundUp(s.sz), RoundUp(newsz))
    ensures Framed(m0, u0, mem, use, d) && Has(mem, use, Space(d, newsz), lo)
  {
    hide Pte, OnlyPool;
    PoolDirs(m0, u0, mem, use, d);
    forall u: nat | u < USERPAGES ensures Present(Pte(mem, d, u)) <==> lo <= u < RoundUp(newsz) {
      if RoundUp(s.sz) <= u < RoundUp(newsz) {
        assert NewPage(u0, mem, d, u);
      }
    }
  }

  lemma ShrunkFrames(m0: seq<Page>, u0: Uses, mem: seq<Page>, use: Uses, d: nat, s: Space, newsz: Uint, lo: nat)
    requires OnlyPool(m0, u0, mem, use, d, 0) && 0 !in u0 && IsDir(use, d)
    requires Has(m0, u0, s, lo) && s.d == d && newsz <= s.sz
    requires PtesCleared(m0, u0, mem, use, d, RoundUp(newsz), s.sz, NVPN)
    ensures Framed(m0, u0, mem, use, d)
    ensures newsz > 0 ==> Has(mem, use, Space(d, newsz), if lo <= RoundUp(newsz) then lo else RoundUp(newsz))
    ensures newsz == 0 ==> Has(mem, use, s, RoundUp(s.sz))
  {
    hide Pte, OnlyPool;
    PoolDirs(m0, u0, mem, use, d);
    forall u: nat | u < USERPAGES
      ensures Present(Pte(mem, d, u)) <==> lo <= u < RoundUp(s.sz) && !(RoundUp(newsz) <= u)
    {
      assert InRange(u, RoundUp(newsz), s.sz) <==> RoundUp(newsz) <= u < RoundUp(s.sz);
    }
  }

  lemma GoneFrames(m0: seq<Page>, u0: Uses, mem: seq<Page>, use: Uses, d: nat)
    requires GivenBack(u0, use, d) && SameElsewhere(m0, u0, mem, d) && IsDir(u0, d)
    ensures Framed(m0, u0, mem, use, d) && !IsDir(use, d)
  {
    hide Pte;
  }

  /** A process that has pages from 0 has all of them, and one that lost some lacks page 0. */
  lemma {:induction false} AllOrNone(mem: seq<Page>, use: Uses, s: Space, lo: nat, n: nat)
    requires Has(mem, use, s, lo) && n <= RoundUp(s.sz)
    ensures PagesFrom0(mem, s.d, n) == if lo == 0 then n else 0
    decreases n
  {
    hide Pte;
    if n > 0 {
      AllOrNone(mem, use, s, lo, n - 1);
    }
  }

  lemma NewHas(mem: seq<Page>, use: Uses, d: nat, rows: seq<Row>)
    requires GoodRows(rows) && KernelOnly(mem, d, rows) && IsDir(use, d)
    ensures Has(mem, use, Space(d, 0), 0)
  {
    hide Pte;
    forall u: nat | u < USERPAGES ensures !Present(Pte(mem, d, u)) {
      NoRowBelow(rows, u);
    }
  }

  lemma ChildHas(m0: seq<Page>, mem: seq<Page>, use: Uses, d: nat, c: nat, rows: seq<Row>, sz: Uint)
    requires GoodRows(rows) && ChildOf(m0, d, mem, use, c, rows, RoundUp(sz)) && IsDir(use, c) && sz < KERNBASE
    ensures Has(mem, use, Space(c, sz), 0)
  {
    hide Pte;
    forall u: nat | u < USERPAGES ensures Present(Pte(mem, c, u)) <==> u < RoundUp(sz) {
      if u < RoundUp(sz) {
        assert CopiedPage(m0, d, mem, use, c, u);
      } else {
        NoRowBelow(rows, u);
      }
    }
  }

  /** When the last process is gone every page is free again. */
  lemma AllGone(mem: seq<Page>, use: Uses, procs: seq<Option<Space>>, low: seq<nat>)
    requires Good(mem, use) && NoneLost(use) && All(mem, use, procs, low) && forall k: nat :: !Runs(procs, k)
    ensures forall p :: p in use ==> use[p] == Free
  {
    hide Pte;
    forall p | p in use ensures use[p] == Free {
      assert UseOk(mem, use, p);
      assert !IsDir(use, p);
    }
  }

  ghost predicate Intact(procs: seq<Option<Space>>, low: seq<nat>)
    requires |low| == |procs|
  {
    forall k: nat :: Runs(procs, k) ==> low[k] == 0
  }

  class Processes {
    const m: Memory
    const rows: seq<Row>
    var procs: seq<Option<Space>>
    ghost var low: seq<nat>   // the first page each process still has

    ghost predicate Valid()
      reads this, m
    {
      m.Valid() && GoodRows(rows) && NoneLost(m.use) && |low| == |procs| && All(m.mem, m.use, procs, low)
    }

    /** No process so far. */
    constructor (m: Memory, rows: seq<Row>)
      requires m.Valid() && GoodRows(rows) && NoneLost(m.use) && forall p: nat :: !IsDir(m.use, p)
      ensures Valid() && this.m == m && this.rows == rows && procs == [] && low == []
    {
      this.m, this.rows, procs, low := m, rows, [], [];
    }

    /** A process with no user memory yet, as userinit and exec start one. */
    method NewProcess() returns (ok: bool)
      requires Valid()
      modifies this, m
      ensures Valid() && m.use.Keys == old(m.use.Keys)
      ensures ok <==> 1 + |Tables(rows)| <= |old(m.free)|
      ensures !ok ==> procs == old(procs) && low == old(low) && m.use == old(m.use)
      ensures ok ==> |procs| == |old(procs)| + 1 && procs[..|old(procs)|] == old(procs) && low == old(low) + [0]
                     && procs[|old(procs)|].Some? && procs[|old(procs)|].value.sz == 0
                     && |m.free| + 1 + |Tables(rows)| == |old(m.free)|
    {
      hide Pte, All, OnlyPool, Untouched, Framed, Has, NoneLost, Tables, KernelOnly, Good, Chain;
      ghost var m0, u0 := m.mem, m.use;
      GoodBounds(m0, u0);
      var r := m.Setupkvm(rows);
      if r.None? {
        NothingChanged(m0, u0, m.mem, procs, low);
        return false;
      }
      PoolLosesNone(m0, u0, m.mem, m.use, r.value);
      SameKeys(m0, u0, m.mem, m.use, r.value);
      UntouchedFrames(m0, u0, m.mem, m.use, r.value);
      NewHas(m.mem, m.use, r.value, rows);
      OneChanged(m0, u0, m.mem, m.use, procs, low, |procs|, r.value, Some(Space(r.value, 0)), 0);
      procs := procs + [Some(Space(r.value, 0))];
      low := low + [0];
      return true;
    }

    /** The process that growproc leaves in slot k. */
    ghost predicate Resized(old0: seq<Option<Space>>, k: nat, sz: Uint)
      reads this
    {
      k < |old0| && old0[k].Some? && procs == old0[k := Some(Space(old0[k].value.d, sz))]
    }

    /**
     growproc.  It does what it reports but for one case: a process that gives back exactly its whole
     size loses every page, is told -1, and keeps the old size.
     */
    method Growproc(k: nat, n: Int) returns (ok: bool, zeroed: bool)
      requires Valid() && Runs(procs, k)
      modifies this, m
      ensures Valid() && m.use.Keys == old(m.use.Keys) && |procs| == |old(procs)|
      ensures var s := old(procs)[k].value;
              && (zeroed <==> n < 0 < s.sz && s.sz + n == 0)
              && (n > 0 ==> (ok <==>
                  s.sz + n < KERNBASE && GrowthNeeds(old(m.mem)[s.d], s.sz, s.sz + n) <= |old(m.free)|))
              && (n < 0 ==> (ok <==> s.sz > 0 && !zeroed)) && (n == 0 ==> ok)
              && Resized(old(procs), k, if ok && s.sz + n >= 0 then s.sz + n else s.sz)
              && (n > 0 && ok ==> |m.free| + GrowthNeeds(old(m.mem)[s.d], s.sz, s.sz + n) == |old(m.free)|)
              && (n <= 0 ==> |m.free| >= |old(m.free)|)
      ensures |low| == |old(low)| && (forall j: nat :: j < |low| && j != k ==> low[j] == old(low)[j])
      ensures low[k] == 0 <==> old(low)[k] == 0 && !zeroed
    {
      hide Pte, All, OnlyPool, Framed, NoneLost, Good, Chain, Grown, SameMappings, PtesCleared, Needs, Span;
      ghost var m0, u0 := m.mem, m.use;
      GoodBounds(m0, u0);
      ProcessHas(m0, u0, procs, low, k);
      var s := procs[k].value;
      if n == 0 {
        assert procs[k := Some(s)] == procs;
        return true, false;
      }
      if n > 0 {
        var sz := m.Allocuvm(s.d, s.sz, s.sz + n);
        PoolLosesNone(m0, u0, m.mem, m.use, s.d);
        SameKeys(m0, u0, m.mem, m.use, s.d);
        if sz == 0 {
          NotGrownHas(m0, u0, m.mem, m.use, s, low[k]);
          OneChanged(m0, u0, m.mem, m.use, procs, low, k, s.d, Some(s), low[k]);
          assert procs[k := Some(s)] == procs && low[k := low[k]] == low;
          return false, false;
        }
        GrownFrames(m0, u0, m.mem, m.use, s.d, s, s.sz + n, low[k]);
        OneChanged(m0, u0, m.mem, m.use, procs, low, k, s.d, Some(Space(s.d, sz)), low[k]);
        assert low[k := low[k]] == low;
        procs := procs[k := Some(Space(s.d, sz))];
        return true, false;
      }
      ok, zeroed := Shrink(k, n);
    }

    /** growproc with n < 0, where sz + n wraps when it is negative. */
    method Shrink(k: nat, n: Int) returns (ok: bool, zeroed: bool)
      requires Valid() && Runs(procs, k) && n < 0
      modifies this, m
      ensures Valid() && m.use.Keys == old(m.use.Keys) && |procs| == |old(procs)|
      ensures var s := old(procs)[k].value;
              && (zeroed <==> 0 < s.sz && s.sz + n == 0) && (ok <==> s.sz > 0 && !zeroed)
              && Resized(old(procs), k, if ok && s.sz + n >= 0 then s.sz + n else s.sz)
              && |m.free| >= |old(m.free)|
      ensures |low| == |old(low)| && (forall j: nat :: j < |low| && j != k ==> low[j] == old(low)[j])
      ensures low[k] == 0 <==> old(low)[k] == 0 && !zeroed
    {
      hide Pte, All, OnlyPool, Framed, NoneLost, Good, Chain, PtesCleared;
      ghost var m0, u0 := m.mem, m.use;
      GoodBounds(m0, u0);
      ProcessHas(m0, u0, procs, low, k);
      var s := procs[k].value;
      var to := if s.sz + n >= 0 then s.sz + n else s.sz + n + UINT_LIMIT;
      var sz := m.Deallocuvm(s.d, s.sz, to);
      PoolLosesNone(m0, u0, m.mem, m.use, s.d);
      SameKeys(m0, u0, m.mem, m.use, s.d);
      zeroed := s.sz > 0 && to == 0;
      ok := sz != 0;
      ghost var lo := low[k];
      if to < s.sz {
        ShrunkFrames(m0, u0, m.mem, m.use, s.d, s, to, low[k]);
        lo := if to == 0 then RoundUp(s.sz) else if lo <= RoundUp(to) then lo else RoundUp(to);
      } else {
        UnshrunkFrames(m0, u0, m.mem, m.use, s.d, s, to, low[k]);
      }
      var now := if ok then Space(s.d, sz) else s;
      OneChanged(m0, u0, m.mem, m.use, procs, low, k, s.d, Some(now), lo);
      procs := procs[k := Some(now)];
      low := low[k := lo];
    }

    /** fork's copy of the address space.  A process that lost its pages makes copyuvm panic. */
    method ForkProcess(k: nat) returns (r: ForkResult)
      requires Valid() && Runs(procs, k)
      modifies this, m
      ensures m.Valid() && NoneLost(m.use) && m.use.Keys == old(m.use.Keys)
      ensures var n := if old(low)[k] == 0 then RoundUp(old(procs)[k].value.sz) else 0;
              && (r.NoMemory? <==> |old(m.free)| < ForkNeeds(rows, n))
              && (r.Panicked? <==> old(low)[k] > 0 && ForkNeeds(rows, 0) <= |old(m.free)|)
      ensures !r.Panicked? ==> Valid()
      ensures r.NoMemory? ==> m.use == old(m.use)
      ensures !r.Forked? ==> procs == old(procs) && low == old(low)
      ensures r.Forked? ==> |procs| == |old(procs)| + 1 && procs[..|old(procs)|] == old(procs) && low == old(low) + [0]
                            && procs[|old(procs)|].Some? && procs[|old(procs)|].value.sz == old(procs)[k].value.sz
    {
      hide Pte, All, OnlyPool, Untouched, Framed, NoneLost, ForkNeeds, Good, Chain, ChildOf;
      ghost var m0, u0 := m.mem, m.use;
      GoodBounds(m0, u0);
      ProcessHas(m0, u0, procs, low, k);
      var s := procs[k].value;
      AllOrNone(m0, u0, s, low[k], RoundUp(s.sz));
      var r' := m.Copyuvm(s.d, s.sz, rows);
      if r'.OutOfMemory? {
        NothingChanged(m0, u0, m.mem, procs, low);
        return ForkResult.NoMemory;
      }
      var c := r'.child;
      PoolLosesNone(m0, u0, m.mem, m.use, c);
      SameKeys(m0, u0, m.mem, m.use, c);
      if r'.NotPresent? {
        return Panicked;
      }
      UntouchedFrames(m0, u0, m.mem, m.use, c);
      ChildHas(m0, m.mem, m.use, s.d, c, rows, s.sz);
      OneChanged(m0, u0, m.mem, m.use, procs, low, |procs|, c, Some(Space(c, s.sz)), 0);
      procs := procs + [Some(Space(c, s.sz))];
      low := low + [0];
      return Forked;
    }

    /** wait's freevm of a process that has exited. */
    method ExitProcess(k: nat)
      requires Valid() && Runs(procs, k)
      modifies this, m
      ensures Valid() && m.use.Keys == old(m.use.Keys) && low == old(low) && procs == old(procs)[k := None]
      ensures forall p :: p in m.use && OwnedBy(old(m.use), old(procs)[k].value.d, p) ==> m.use[p] == Free
    {
      hide Pte, All, Framed, NoneLost, Good, Chain;
      ghost var m0, u0 := m.mem, m.use;
      ProcessHas(m0, u0, procs, low, k);
      var d := procs[k].value.d;
      m.Freevm(d);
      BackLosesNone(u0, m.use, d);
      GoneFrames(m0, u0, m.mem, m.use, d);
      OneChanged(m0, u0, m.mem, m.use, procs, low, k, d, None, low[k]);
      assert low[k := low[k]] == low;
      procs := procs[k := None];
    }

    /**
     Any sequence of calls, on processes that exist.  Every page keeps exactly one use and none is
     lost, whatever runs out of memory; and nothing panics unless a process was shrunk to size 0.
     */
    method Run(ops: seq<Op>) returns (panicked: bool, zeroed: bool)
      requires Valid()
      modifies this, m
      ensures m.Valid() && NoneLost(m.use) && m.use.Keys == old(m.use.Keys)
      ensures !panicked ==> Valid()
      ensures Intact(old(procs), old(low)) && !zeroed ==> !panicked && |low| == |procs| && Intact(procs, low)
    {
      hide Pte, All, NoneLost, Good, Chain, ForkNeeds, GrowthNeeds, Tables;
      panicked, zeroed := false, false;
      var i := 0;
      while i < |ops|
        invariant 0 <= i <= |ops| && Valid() && m.use.Keys == old(m.use.Keys)
        invariant Intact(old(procs), old(low)) && !zeroed ==> Intact(procs, low)
      {
        match ops[i] {
          case New =>
            var ok := NewProcess();
          case Sbrk(k, n) =>
            if k < |procs| && procs[k].Some? {
              var ok, z := Growproc(k, n);
              zeroed := zeroed || z;
            }
          case Fork(k) =>
            if k < |procs| && procs[k].Some? {
              var r := ForkProcess(k);
              if r.Panicked? {
                return true, zeroed;
              }
            }
          case Exit(k) =>
            if k < |procs| && procs[k].Some? {
              ExitProcess(k);
            }
        }
        i := i + 1;
      }
    }
  }

  /**
   sbrk as morecore() calls it for a request that is too large by Heap.RequestFits, though its units
   do not wrap: the process gets no memory, and unless it had none, or exactly as much as it gives
   up, it is not told so.
   */
  method LargeRequest(ps: Processes, k: nat, nbytes: Uint) returns (ok: bool)
    requires ps.Valid() && Runs(ps.procs, k)
    requires 8 * Heap.UnitsFor(nbytes) >= INT_LIMIT && 8 * (Heap.WrappedUnits(nbytes) - 1) >= nbytes
    modifies ps, ps.m
    ensures ps.Valid() && Runs(ps.procs, k) && ps.procs[k].value.sz <= old(ps.procs)[k].value.sz
    ensures var sz := old(ps.procs)[k].value.sz; sz > 0 && sz + Heap.SbrkArg(Heap.WrappedUnits(nbytes)) != 0 ==> ok
  {
    hide Pte, All, NoneLost, Good, Chain, GrowthNeeds;
    var zeroed;
    Heap.RequestFails(nbytes);
    ok, zeroed := ps.Growproc(k, Heap.SbrkArg(Heap.WrappedUnits(nbytes)));
  }

  /**
   A run that panics: one page more, one page less, fork.  With 132 free pages nothing runs out of
   memory before that.
   */
  method ShrinkThenFork(m: Memory, data: nat) returns (panicked: bool)
    requires m.Valid() && NoneLost(m.use) && (forall p: nat :: !IsDir(m.use, p)) && 0x100 < data < PHYSPAGES &&
             |m.free| >= 132
    modifies m
    ensures panicked
  {
    hide Pte, All, NoneLost, Good, Chain, ForkNeeds, GrowthNeeds, Tables, Kmap;
    KmapTables(data);
    ForkCost(data, 0);
    var ps := new Processes(m, Kmap(data));
    var ok := ps.NewProcess();
    ProcessHas(m.mem, m.use, ps.procs, ps.low, 0);
    FirstPage(m.mem[ps.procs[0].value.d]);
    var z;
    ok, z := ps.Growproc(0, PGSIZE);
    ok, z := ps.Growproc(0, -PGSIZE);
    var r := ps.ForkProcess(0);
    return r.Panicked?;
  }

  /** The first page of a process takes at most two. */
  lemma FirstPage(dir: Page)
    ensures GrowthNeeds(dir, 0, PGSIZE) <= 2
  {
    hide Needs, Span;
    NeedsOne(dir, 0, 1);
  }

  lemma ProcessHas(mem: seq<Page>, use: Uses, procs: seq<Option<Space>>, low: seq<nat>, k: nat)
    requires All(mem, use, procs, low) && Runs(procs, k)
    ensures Has(mem, use, procs[k].value, low[k])
  {
  }

  /** allocuvm that changed no mapping. */
  lemma NotGrownHas(m0: seq<Page>, u0: Uses, mem: seq<Page>, use: Uses, s: Space, lo: nat)
    requires OnlyPool(m0, u0, mem, use, s.d, 0) && 0 !in u0 && Has(m0, u0, s, lo)
    requires (mem == m0 && use == u0) || SameMappings(m0, u0, mem, use)
    ensures Framed(m0, u0, mem, use, s.d) && Has(mem, use, s, lo)
  {
    hide Pte, OnlyPool;
    if mem != m0 || use != u0 {
      SameFrames(m0, u0, mem, use, s.d, s, lo);
    }
  }

  lemma UnshrunkFrames(m0: seq<Page>, u0: Uses, mem: seq<Page>, use: Uses, d: nat, s: Space, newsz: Uint, lo: nat)
    requires OnlyPool(m0, u0, mem, use, d, 0) && 0 !in u0 && IsDir(use, d)
    requires Has(m0, u0, s, lo) && s.d == d && newsz >= s.sz
    requires PtesCleared(m0, u0, mem, use, d, RoundUp(newsz), s.sz, NVPN)
    ensures Framed(m0, u0, mem, use, d) && Has(mem, use, s, lo)
  {
    hide Pte, OnlyPool;
    PoolDirs(m0, u0, mem, use, d);
    forall u: nat | u < USERPAGES ensures Pte(mem, d, u) == Pte(m0, d, u) {
      assert !InRange(u, RoundUp(newsz), s.sz);
    }
  }

  lemma SameKeys(m0: seq<Page>, u0: Uses, mem: seq<Page>, use: Uses, d: nat)
    requires OnlyPool(m0, u0, mem, use, d, 0)
    ensures use.Keys == u0.Keys
  {
  }

  lemma NothingChanged(m0: seq<Page>, use: Uses, mem: seq<Page>, procs: seq<Option<Space>>, low: seq<nat>)
    requires All(m0, use, procs, low) && Untouched(m0, use, mem, use)
    ensures All(mem, use, procs, low)
  {
    hide Pte;
    forall k: nat | Runs(procs, k) ensures Has(mem, use, procs[k].value, low[k]) {
      assert Has(m0, use, procs[k].value, low[k]);
    }
  }
}
