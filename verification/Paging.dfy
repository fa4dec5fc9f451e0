/**
 Two-level page tables in physical memory (vm.c, mmu.h), and what each physical page is used for.

 Addresses are page numbers; a directory or table entry is the 32-bit word the hardware reads
 (section 4.3 of the Intel 64 and IA-32 Architectures Software Developer's Manual, Volume 3A).
 */
module Paging {
  import opened Common
  import opened Blocks

  const PGSIZE := 4096
  const NENTRIES := 1024           // entries of a directory or a table
  const NVPN := 0x10_0000          // virtual pages
  const USERPAGES := 0x8_0000      // KERNBASE / PGSIZE
  const PTE_W := 2
  const PTE_U := 4

  /** A page of memory as 32-bit words. */
  type Page = p: seq<Uint> | |p| == NENTRIES witness seq(NENTRIES, _ => 0)

  predicate Present(e: Uint) {
    e % 2 == 1
  }

  /** PTE_ADDR as a page number, and PTE_FLAGS. */
  function Frame(e: Uint): nat {
    e / PGSIZE
  }

  function Flags(e: Uint): nat {
    e % PGSIZE
  }

  /** pa | perm | PTE_P */
  function Entry(frame: nat, perm: nat): (e: Uint)
    requires frame < NVPN && perm < PGSIZE
    ensures Present(e) && Frame(e) == frame && (Present(perm) ==> Flags(e) == perm)
    ensures !Present(perm) ==> Flags(e) == perm + 1
  {
    frame * PGSIZE + (if perm % 2 == 1 then perm else perm + 1)
  }

  /** What a physical page is used for.  `Kernel` is everything handed out for other purposes. */
  datatype Use = Free | Kernel | Dir | Table(dir: nat, i: nat) | User(dir: nat, v: nat)

  /** The entry that maps virtual page v in directory d; 0 if there is no table for it. */
  function Pte(mem: seq<Page>, d: nat, v: nat): Uint
    requires d < |mem| && v < NVPN
  {
    var e := mem[d][v / NENTRIES];
    if Present(e) && Frame(e) < |mem| then mem[Frame(e)][v % NENTRIES] else 0
  }

  type Uses = map<nat, Use>

  ghost predicate IsDir(use: Uses, d: nat) {
    d in use && use[d] == Dir
  }

  /** The page is where its use says it is. */
  ghost predicate UseOk(mem: seq<Page>, use: Uses, p: nat)
    requires forall q :: q in use ==> q < |mem|
  {
    p in use ==>
      match use[p]
      case Table(d, i) => IsDir(use, d) && i < NENTRIES && Present(mem[d][i]) && Frame(mem[d][i]) == p
      case User(d, v) =>
        IsDir(use, d) && v < USERPAGES && Present(Pte(mem, d, v)) && Frame(Pte(mem, d, v)) == p
      case _ => true
  }

  ghost predicate TableOk(mem: seq<Page>, use: Uses, d: nat, i: nat)
    requires d < |mem| && i < NENTRIES
  {
    Present(mem[d][i]) ==> Frame(mem[d][i]) in use && use[Frame(mem[d][i])] == Table(d, i)
  }

  ghost predicate UserOk(mem: seq<Page>, use: Uses, d: nat, v: nat)
    requires d < |mem| && v < USERPAGES
  {
    Present(Pte(mem, d, v)) ==> Frame(Pte(mem, d, v)) in use && use[Frame(Pte(mem, d, v))] == User(d, v)
  }

  /**
   Every table and every user page of every directory is used as such by that directory at that
   place, and by nothing else.
   */
  ghost predicate Good(mem: seq<Page>, use: Uses) {
    && (forall q :: q in use ==> 0 < q < |mem|)
    && |mem| <= NVPN
    && (forall p: nat :: UseOk(mem, use, p))
    && (forall d: nat, i: nat :: IsDir(use, d) && i < NENTRIES ==> TableOk(mem, use, d, i))
    && (forall d: nat, v: nat :: IsDir(use, d) && v < USERPAGES ==> UserOk(mem, use, d, v))
  }

  /** Pages that are not directories or tables can be written without changing any mapping. */
  lemma DataWrite(mem: seq<Page>, use: Uses, p: nat, x: Page, d: nat, v: nat)
    requires Good(mem, use) && p < |mem| && IsDir(use, d) && v < NVPN
    requires p in use && (use[p].Free? || use[p].Kernel? || use[p].User?)
    ensures Pte(mem[p := x], d, v) == Pte(mem, d, v) && mem[p := x][d] == mem[d]
  {
    assert TableOk(mem, use, d, v / NENTRIES);
  }

  lemma DataWriteGood(mem: seq<Page>, use: Uses, p: nat, x: Page)
    requires Good(mem, use) && p in use && (use[p].Free? || use[p].Kernel? || use[p].User?)
    ensures Good(mem[p := x], use)
  {
    hide Pte;
    var mem' := mem[p := x];
    forall q: nat ensures UseOk(mem', use, q) {
      assert UseOk(mem, use, q);
      if q in use && use[q].User? {
        DataWrite(mem, use, p, x, use[q].dir, use[q].v);
      }
    }
    forall d: nat, i: nat | IsDir(use, d) && i < NENTRIES ensures TableOk(mem', use, d, i) {
      assert TableOk(mem, use, d, i);
    }
    forall d: nat, v: nat | IsDir(use, d) && v < USERPAGES ensures UserOk(mem', use, d, v) {
      assert UserOk(mem, use, d, v);
      DataWrite(mem, use, p, x, d, v);
    }
  }

  /** A page may change between uses that no directory knows of. */
  lemma Relabel(mem: seq<Page>, use: Uses, p: nat, u: Use)
    requires Good(mem, use) && p in use && (use[p].Free? || use[p].Kernel?) && (u.Free? || u.Kernel?)
    ensures Good(mem, use[p := u])
  {
    hide Pte;
    var use' := use[p := u];
    forall q: nat ensures UseOk(mem, use', q) {
      assert UseOk(mem, use, q);
    }
    forall d: nat, i: nat | IsDir(use', d) && i < NENTRIES ensures TableOk(mem, use', d, i) {
      assert TableOk(mem, use, d, i);
    }
    forall d: nat, v: nat | IsDir(use', d) && v < USERPAGES ensures UserOk(mem, use', d, v) {
      assert UserOk(mem, use, d, v);
    }
  }

  /** Writing the entry for page v of directory d, in its table, changes that mapping and no other. */
  lemma PteWrite(mem: seq<Page>, use: Uses, d: nat, v: nat, w: Uint, d': nat, v': nat)
    requires Good(mem, use) && IsDir(use, d) && v < NVPN && Present(mem[d][v / NENTRIES])
    requires IsDir(use, d') && v' < NVPN
    ensures var t := Frame(mem[d][v / NENTRIES]);
            t < |mem| && t != d' &&
            Pte(mem[t := mem[t][v % NENTRIES := w]], d', v') == if d' == d && v' == v then w else Pte(mem, d', v')
  {
    assert TableOk(mem, use, d, v / NENTRIES) && TableOk(mem, use, d', v' / NENTRIES);
    var t := Frame(mem[d][v / NENTRIES]);
    var t' := Frame(mem[d'][v' / NENTRIES]);
    if Present(mem[d'][v' / NENTRIES]) && t' == t {
      assert use[t] == Table(d, v / NENTRIES) == Table(d', v' / NENTRIES);
    }
  }

  /** Memory with the entry for virtual page v of directory d set to w. */
  function WithPte(mem: seq<Page>, d: nat, v: nat, w: Uint): seq<Page>
    requires d < |mem| && v < NVPN && Frame(mem[d][v / NENTRIES]) < |mem|
  {
    var t := Frame(mem[d][v / NENTRIES]);
    mem[t := mem[t][v % NENTRIES := w]]
  }

  lemma TableThere(mem: seq<Page>, use: Uses, d: nat, v: nat)
    requires Good(mem, use) && IsDir(use, d) && v < NVPN && Present(mem[d][v / NENTRIES])
    ensures var t := Frame(mem[d][v / NENTRIES]);
            t < |mem| && t in use && use[t] == Table(d, v / NENTRIES) && Pte(mem, d, v) == mem[t][v % NENTRIES]
  {
    assert TableOk(mem, use, d, v / NENTRIES);
  }

  /** Mapping a user page to a kernel-owned frame hands the frame over. */
  lemma MapGood(mem: seq<Page>, use: Uses, d: nat, v: nat, w: Uint)
    requires Good(mem, use) && IsDir(use, d) && v < USERPAGES && Present(mem[d][v / NENTRIES])
    requires !Present(Pte(mem, d, v)) && Present(w) && Frame(w) in use && use[Frame(w)] == Kernel
    ensures Frame(mem[d][v / NENTRIES]) < |mem|
    ensures Good(WithPte(mem, d, v, w), use[Frame(w) := User(d, v)])
  {
    hide Pte;
    TableThere(mem, use, d, v);
    var p := Frame(w);
    var mem', use' := WithPte(mem, d, v, w), use[p := User(d, v)];
    EntriesKept(mem, use, d, v, w);
    PteWrite(mem, use, d, v, w, d, v);
    forall q: nat ensures UseOk(mem', use', q) {
      assert UseOk(mem, use, q);
      if q in use && q != p && use[q].User? {
        PteWrite(mem, use, d, v, w, use[q].dir, use[q].v);
      }
    }
    forall e: nat, i: nat | IsDir(use', e) && i < NENTRIES ensures TableOk(mem', use', e, i) {
      assert TableOk(mem, use, e, i);
    }
    forall e: nat, u: nat | IsDir(use', e) && u < USERPAGES ensures UserOk(mem', use', e, u) {
      assert UserOk(mem, use, e, u);
      PteWrite(mem, use, d, v, w, e, u);
    }
  }

  lemma EntriesKept(mem: seq<Page>, use: Uses, d: nat, v: nat, w: Uint)
    requires Good(mem, use) && IsDir(use, d) && v < NVPN && Present(mem[d][v / NENTRIES])
    ensures Frame(mem[d][v / NENTRIES]) < |mem|
    ensures forall e: nat :: IsDir(use, e) ==> e < |mem| && WithPte(mem, d, v, w)[e] == mem[e]
  {
    TableThere(mem, use, d, v);
  }

  /** Clearing a user entry gives its frame back to the kernel. */
  lemma UnmapGood(mem: seq<Page>, use: Uses, d: nat, v: nat)
    requires Good(mem, use) && IsDir(use, d) && v < USERPAGES && Present(mem[d][v / NENTRIES])
    requires Present(Pte(mem, d, v))
    ensures var p := Frame(Pte(mem, d, v));
            && Frame(mem[d][v / NENTRIES]) < |mem|
            && p in use && use[p] == User(d, v)
            && Good(WithPte(mem, d, v, 0), use[p := Kernel])
  {
    hide Pte;
    TableThere(mem, use, d, v);
    assert UserOk(mem, use, d, v);
    var p := Frame(Pte(mem, d, v));
    var mem', use' := WithPte(mem, d, v, 0), use[p := Kernel];
    EntriesKept(mem, use, d, v, 0);
    forall q: nat ensures UseOk(mem', use', q) {
      assert UseOk(mem, use, q);
      if q in use && q != p && use[q].User? {
        PteWrite(mem, use, d, v, 0, use[q].dir, use[q].v);
        assert UserOk(mem, use, use[q].dir, use[q].v);
      }
    }
    forall e: nat, i: nat | IsDir(use', e) && i < NENTRIES ensures TableOk(mem', use', e, i) {
      assert TableOk(mem, use, e, i);
    }
    forall e: nat, u: nat | IsDir(use', e) && u < USERPAGES ensures UserOk(mem', use', e, u) {
      assert UserOk(mem, use, e, u);
      PteWrite(mem, use, d, v, 0, e, u);
    }
  }

  /** Entries of the kernel half own nothing, so they can be written freely. */
  lemma KernelMapGood(mem: seq<Page>, use: Uses, d: nat, v: nat, w: Uint)
    requires Good(mem, use) && IsDir(use, d) && USERPAGES <= v < NVPN && Present(mem[d][v / NENTRIES])
    ensures Frame(mem[d][v / NENTRIES]) < |mem| && Good(WithPte(mem, d, v, w), use)
  {
    hide Pte;
    TableThere(mem, use, d, v);
    var mem' := WithPte(mem, d, v, w);
    EntriesKept(mem, use, d, v, w);
    forall q: nat ensures UseOk(mem', use, q) {
      assert UseOk(mem, use, q);
      if q in use && use[q].User? {
        PteWrite(mem, use, d, v, w, use[q].dir, use[q].v);
      }
    }
    forall e: nat, i: nat | IsDir(use, e) && i < NENTRIES ensures TableOk(mem', use, e, i) {
      assert TableOk(mem, use, e, i);
    }
    forall e: nat, u: nat | IsDir(use, e) && u < USERPAGES ensures UserOk(mem', use, e, u) {
      assert UserOk(mem, use, e, u);
      PteWrite(mem, use, d, v, w, e, u);
    }
  }

  predicate ZeroPage(p: Page) {
    forall i :: 0 <= i < NENTRIES ==> p[i] == 0
  }

  /** Memory with directory entry i of d pointing at table t. */
  function WithTable(mem: seq<Page>, d: nat, i: nat, t: nat): seq<Page>
    requires d < |mem| && i < NENTRIES && t < NVPN
  {
    mem[d := mem[d][i := Entry(t, PTE_W + PTE_U)]]
  }

  /** A zeroed table adds no mapping. */
  lemma TableAdds(mem: seq<Page>, use: Uses, d: nat, i: nat, t: nat, e: nat, v: nat)
    requires Good(mem, use) && IsDir(use, d) && i < NENTRIES && !Present(mem[d][i])
    requires t in use && use[t] == Kernel && ZeroPage(mem[t]) && IsDir(use, e) && v < NVPN
    ensures Pte(WithTable(mem, d, i, t), e, v) == Pte(mem, e, v)
  {
    assert TableOk(mem, use, e, v / NENTRIES);
  }

  /** walkpgdir's new table page. */
  lemma TableGood(mem: seq<Page>, use: Uses, d: nat, i: nat, t: nat)
    requires Good(mem, use) && IsDir(use, d) && i < NENTRIES && !Present(mem[d][i])
    requires t in use && use[t] == Kernel && ZeroPage(mem[t])
    ensures Good(WithTable(mem, d, i, t), use[t := Table(d, i)])
  {
    hide Pte;
    var mem', use' := WithTable(mem, d, i, t), use[t := Table(d, i)];
    forall q: nat ensures UseOk(mem', use', q) {
      assert UseOk(mem, use, q);
      if q in use && q != t && use[q].User? {
        TableAdds(mem, use, d, i, t, use[q].dir, use[q].v);
      }
    }
    forall e: nat, j: nat | IsDir(use', e) && j < NENTRIES ensures TableOk(mem', use', e, j) {
      assert TableOk(mem, use, e, j);
    }
    forall e: nat, v: nat | IsDir(use', e) && v < USERPAGES ensures UserOk(mem', use', e, v) {
      assert UserOk(mem, use, e, v);
      TableAdds(mem, use, d, i, t, e, v);
    }
  }

  /** A zeroed kernel page can become a directory. */
  lemma DirGood(mem: seq<Page>, use: Uses, d: nat)
    requires Good(mem, use) && d in use && use[d] == Kernel && ZeroPage(mem[d])
    ensures Good(mem, use[d := Dir])
    ensures forall v: nat :: v < NVPN ==> Pte(mem, d, v) == 0
  {
    var use' := use[d := Dir];
    forall q: nat ensures UseOk(mem, use', q) {
      assert UseOk(mem, use, q);
    }
    forall e: nat, j: nat | IsDir(use', e) && j < NENTRIES ensures TableOk(mem, use', e, j) {
      if e != d {
        assert TableOk(mem, use, e, j);
      }
    }
    forall e: nat, v: nat | IsDir(use', e) && v < USERPAGES ensures UserOk(mem, use', e, v) {
      if e != d {
        assert UserOk(mem, use, e, v);
      }
    }
  }

  /** The pages that directory d owns. */
  ghost predicate OwnedBy(use: Uses, d: nat, p: nat) {
    p in use &&
    match use[p]
    case Dir => p == d
    case Table(e, _) => e == d
    case User(e, _) => e == d
    case _ => false
  }

  /** The uses once directory d is given up: its pages are the kernel's. */
  ghost function Retired(use: Uses, d: nat): Uses {
    map p | p in use :: if OwnedBy(use, d, p) then Kernel else use[p]
  }

  /** A directory without user pages can be given up, tables and all. */
  lemma RetireGood(mem: seq<Page>, use: Uses, d: nat)
    requires Good(mem, use) && IsDir(use, d)
    requires forall v: nat :: v < USERPAGES ==> !Present(Pte(mem, d, v))
    ensures Good(mem, Retired(use, d))
  {
    hide Pte;
    var use' := Retired(use, d);
    forall q: nat ensures UseOk(mem, use', q) {
      assert UseOk(mem, use, q);
    }
    forall e: nat, j: nat | IsDir(use', e) && j < NENTRIES ensures TableOk(mem, use', e, j) {
      assert IsDir(use, e);
      assert TableOk(mem, use, e, j);
    }
    forall e: nat, v: nat | IsDir(use', e) && v < USERPAGES ensures UserOk(mem, use', e, v) {
      assert IsDir(use, e);
      assert UserOk(mem, use, e, v);
    }
  }
}
