/**
 Names and link counts: create, link and unlink of sysfile.c over the directories of fs.c.

 A directory's contents are a sequence of entries; how they lie in blocks is the subject of
 FileSys.dfy.  link() is two steps, as in the source, which counts the link before it has locked
 the directory: between them any other call may run.
 */
module Links {
  import opened Common

  const ROOT := 1

  datatype Kind = Unused | File | Dev | Dir

  /** inum 0 marks a free entry. */
  datatype Dirent = Dirent(inum: nat, name: string)

  datatype Inode = Inode(kind: Kind, nlink: nat, entries: seq<Dirent>)

  predicate IsDots(name: string) {
    name == "." || name == ".."
  }

  predicate Linked(x: Inode) {
    x.kind == Dir && x.nlink > 0
  }

  // ---- Counting ---------------------------------------------------------------------------------

  function One(b: bool): nat {
    if b then 1 else 0
  }

  /** Whether an entry names i, leaving out "." and, unless `up`, also "..". */
  predicate Names(e: Dirent, i: nat, up: bool) {
    e.inum == i && e.name != "." && (up || e.name != "..")
  }

  function Count(es: seq<Dirent>, i: nat, up: bool): nat {
    if es == [] then 0 else Count(es[..|es| - 1], i, up) + One(Names(es[|es| - 1], i, up))
  }

  lemma {:induction false} CountSet(es: seq<Dirent>, j: nat, e: Dirent, i: nat, up: bool)
    requires j < |es|
    ensures Count(es[j := e], i, up) + One(Names(es[j], i, up)) == Count(es, i, up) + One(Names(e, i, up))
    decreases |es|
  {
    var n := |es| - 1;
    if j == n {
      assert es[j := e][..n] == es[..n];
    } else {
      CountSet(es[..n], j, e, i, up);
      assert es[j := e][..n] == es[..n][j := e];
    }
  }

  lemma {:induction false} CountIn(es: seq<Dirent>, j: nat, i: nat, up: bool)
    requires j < |es| && Names(es[j], i, up)
    ensures Count(es, i, up) > 0
    decreases |es|
  {
    if j < |es| - 1 {
      CountIn(es[..|es| - 1], j, i, up);
    }
  }

  lemma {:induction false} CountNone(es: seq<Dirent>, i: nat, up: bool)
    requires forall j :: 0 <= j < |es| ==> !Names(es[j], i, up)
    ensures Count(es, i, up) == 0
    decreases |es|
  {
    if es != [] {
      CountNone(es[..|es| - 1], i, up);
    }
  }

  /** A directory with its "." and ".." in place names i from ".." once more than from elsewhere. */
  lemma {:induction false} CountUp(es: seq<Dirent>, i: nat)
    requires |es| >= 2 && es[0].name == "." && es[1].name == ".."
    requires forall j :: 2 <= j < |es| && es[j].inum == i ==> es[j].name != ".."
    ensures Count(es, i, true) == Count(es, i, false) + One(es[1].inum == i)
    decreases |es|
  {
    if |es| == 2 {
      var h := es[..1];
      assert h[..0] == [] && h[0] == es[0];
      assert Count(h, i, true) == Count(h, i, false) == 0;
    } else {
      CountUp(es[..|es| - 1], i);
    }
  }

  /** What inode x contributes to the link count of i. */
  function Refs(x: Inode, i: nat): nat {
    if Linked(x) then Count(x.entries, i, true) else 0
  }

  /** The entries other than "." that name i in linked directories. */
  function Sum(t: seq<Inode>, i: nat): nat {
    if t == [] then 0 else Sum(t[..|t| - 1], i) + Refs(t[|t| - 1], i)
  }

  lemma {:induction false} SumSet(t: seq<Inode>, k: nat, x: Inode, i: nat)
    requires k < |t|
    ensures Sum(t[k := x], i) + Refs(t[k], i) == Sum(t, i) + Refs(x, i)
    decreases |t|
  {
    var n := |t| - 1;
    if k == n {
      assert t[k := x][..n] == t[..n];
    } else {
      SumSet(t[..n], k, x, i);
      assert t[k := x][..n] == t[..n][k := x];
    }
  }

  lemma {:induction false} SumAtLeast(t: seq<Inode>, k: nat, i: nat)
    requires k < |t|
    ensures Sum(t, i) >= Refs(t[k], i)
    decreases |t|
  {
    if k < |t| - 1 {
      SumAtLeast(t[..|t| - 1], k, i);
    }
  }

  // ---- The invariant ----------------------------------------------------------------------------

  function Parent(x: Inode): nat
    requires |x.entries| >= 2
  {
    x.entries[1].inum
  }

  predicate Unique(es: seq<Dirent>) {
    forall j, k :: 0 <= j < k < |es| && es[j].inum != 0 && es[k].inum != 0 ==> es[j].name != es[k].name
  }

  /** A linked directory: "." and ".." first, then other names, each at most once. */
  predicate DirOk(t: seq<Inode>, d: nat)
    requires d < |t|
  {
    var es := t[d].entries;
    && |es| >= 2 && es[0] == Dirent(d, ".") && es[1].name == ".." && 0 < es[1].inum < |t|
    && (forall j :: 2 <= j < |es| && es[j].inum != 0 ==> !IsDots(es[j].name) && es[j].inum < |t|)
    && Unique(es)
  }

  /** A linked directory is named in its parent, once, and nowhere else; the root is named nowhere. */
  predicate PlaceOk(t: seq<Inode>, depth: map<nat, nat>, d: nat)
    requires d < |t| && DirOk(t, d)
  {
    var p := Parent(t[d]);
    && (forall k :: 0 <= k < |t| && Linked(t[k]) ==> Count(t[k].entries, d, false) == One(d != ROOT && k == p))
    && (d == ROOT ==> p == ROOT)
    && (d != ROOT ==> p != d && Linked(t[p]) && p in depth && d in depth && depth[p] < depth[d])
  }

  predicate Empty(x: Inode) {
    forall j :: 2 <= j < |x.entries| ==> x.entries[j].inum == 0
  }

  /** A directory that was removed but is still open: only "." and ".." are left. */
  predicate Dead(t: seq<Inode>, d: nat)
    requires d < |t|
  {
    DirOk(t, d) && Empty(t[d])
  }

  /**
   Every linked directory is in order and hangs in one place; link counts are the entries that name
   an inode, plus `pend`, the links that a call in progress has counted and not yet entered.
   */
  ghost predicate Good(t: seq<Inode>, pend: seq<nat>, depth: map<nat, nat>) {
    && ROOT < |t| && Linked(t[ROOT]) && ROOT in depth
    && |pend| == |t|
    && (forall d :: 0 < d < |t| && Linked(t[d]) ==> DirOk(t, d) && PlaceOk(t, depth, d))
    && (forall d :: 0 < d < |t| && t[d].kind == Dir && t[d].nlink == 0 ==> Dead(t, d))
    && (forall i :: 0 < i < |t| ==> t[i].nlink == Sum(t, i) + pend[i])
    && (forall i :: 0 < i < |t| && pend[i] > 0 ==> t[i].kind == File || t[i].kind == Dev)
    && (forall i :: 0 < i < |t| && t[i].kind == Unused ==> t[i].nlink == 0)
    && t[0].kind == Unused
  }

  lemma DeadStays(t: seq<Inode>, r: seq<Inode>, d: nat)
    requires d < |t| == |r| && r[d].entries == t[d].entries && Dead(t, d)
    ensures Dead(r, d)
  {
  }

  /** An entry of a linked directory names an inode that is in use and counts it. */
  lemma NamedIsLinked(t: seq<Inode>, pend: seq<nat>, depth: map<nat, nat>, d: nat, j: nat)
    requires Good(t, pend, depth) && 0 < d < |t| && Linked(t[d]) && 0 < j < |t[d].entries| && t[d].entries[j].inum != 0
    ensures var i := t[d].entries[j].inum;
            0 < i < |t| && t[i].nlink > 0 && t[i].kind != Unused
  {
    assert DirOk(t, d);
    var i := t[d].entries[j].inum;
    assert Names(t[d].entries[j], i, true);
    CountIn(t[d].entries, j, i, true);
    SumAtLeast(t, d, i);
  }

  // ---- Entries come and go ----------------------------------------------------------------------

  /** dirlink()'s write: into a free entry, or at the end. */
  function Added(es: seq<Dirent>, j: nat, e: Dirent): (r: seq<Dirent>)
    requires j <= |es|
  {
    if j < |es| then es[j := e] else es + [e]
  }

  lemma CountAdded(es: seq<Dirent>, j: nat, e: Dirent, i: nat, up: bool)
    requires j <= |es| && (j < |es| ==> es[j].inum == 0) && i != 0
    ensures Count(Added(es, j, e), i, up) == Count(es, i, up) + One(Names(e, i, up))
  {
    if j < |es| {
      CountSet(es, j, e, i, up);
    } else {
      assert (es + [e])[..|es|] == es;
    }
  }

  predicate Absent(es: seq<Dirent>, name: string) {
    forall j :: 0 <= j < |es| && es[j].inum != 0 ==> es[j].name != name
  }

  function WithEntry(t: seq<Inode>, dp: nat, j: nat, e: Dirent): seq<Inode>
    requires dp < |t| && j <= |t[dp].entries|
  {
    t[dp := t[dp].(entries := Added(t[dp].entries, j, e))]
  }

  /** Room for a new name in linked directory dp. */
  predicate Room(t: seq<Inode>, dp: nat, j: nat, e: Dirent) {
    && 0 < dp < |t| && Linked(t[dp]) && DirOk(t, dp) && 2 <= j <= |t[dp].entries|
    && (j < |t[dp].entries| ==> t[dp].entries[j].inum == 0)
    && 0 < e.inum < |t| && !IsDots(e.name) && Absent(t[dp].entries, e.name)
  }

  lemma AddedDirOk(t: seq<Inode>, dp: nat, j: nat, e: Dirent, d: nat)
    requires Room(t, dp, j, e) && 0 < d < |t| && DirOk(t, d)
    ensures DirOk(WithEntry(t, dp, j, e), d)
  {
  }

  lemma AddedSum(t: seq<Inode>, dp: nat, j: nat, e: Dirent, i: nat)
    requires Room(t, dp, j, e) && i != 0
    ensures Sum(WithEntry(t, dp, j, e), i) == Sum(t, i) + One(i == e.inum)
  {
    SumSet(t, dp, t[dp].(entries := Added(t[dp].entries, j, e)), i);
    CountAdded(t[dp].entries, j, e, i, true);
  }

  /** An entry for an inode that is not a directory takes over a link that was already counted. */
  lemma LinkGood(t: seq<Inode>, pend: seq<nat>, depth: map<nat, nat>, dp: nat, j: nat, e: Dirent)
    requires Good(t, pend, depth) && Room(t, dp, j, e) && pend[e.inum] > 0
    ensures Good(WithEntry(t, dp, j, e), pend[e.inum := pend[e.inum] - 1], depth)
  {
    hide Sum, Count, Unique, Absent, DirOk, Added;
    var r, p2 := WithEntry(t, dp, j, e), pend[e.inum := pend[e.inum] - 1];
    forall d | 0 < d < |t| && Linked(r[d]) ensures DirOk(r, d) && PlaceOk(r, depth, d) {
      AddedDirOk(t, dp, j, e, d);
      AddedPlace(t, depth, dp, j, e, d);
    }
    forall d | 0 < d < |t| && r[d].kind == Dir && r[d].nlink == 0 ensures Dead(r, d) {
      DeadStays(t, r, d);
    }
    forall i | 0 < i < |t| ensures r[i].nlink == Sum(r, i) + p2[i] {
      AddedSum(t, dp, j, e, i);
    }
  }

  lemma AddedPlace(t: seq<Inode>, depth: map<nat, nat>, dp: nat, j: nat, e: Dirent, d: nat)
    requires Room(t, dp, j, e) && 0 < d < |t| && DirOk(t, d) && PlaceOk(t, depth, d) && d != e.inum
    requires DirOk(WithEntry(t, dp, j, e), d)
    ensures PlaceOk(WithEntry(t, dp, j, e), depth, d)
  {
    hide Count, Unique, Absent;
    var r := WithEntry(t, dp, j, e);
    forall k | 0 <= k < |t| && Linked(r[k]) ensures Count(r[k].entries, d, false) == Count(t[k].entries, d, false) {
      if k == dp {
        CountAdded(t[dp].entries, j, e, d, false);
      }
    }
  }

  /** nlink++ of link(), or a new file with nlink 1: a link that no entry accounts for yet. */
  lemma CountedGood(t: seq<Inode>, pend: seq<nat>, depth: map<nat, nat>, i: nat, x: Inode)
    requires Good(t, pend, depth) && 0 < i < |t| && t[i].kind != Dir && (x.kind == File || x.kind == Dev)
    requires x.nlink == t[i].nlink + 1
    ensures Good(t[i := x], pend[i := pend[i] + 1], depth)
  {
    OutsideGood(t, pend, depth, i, x, pend[i] + 1);
  }

  /** Replacing an inode that is not a linked directory by one that is no directory. */
  lemma OutsideGood(t: seq<Inode>, pend: seq<nat>, depth: map<nat, nat>, i: nat, x: Inode, n: nat)
    requires Good(t, pend, depth) && 0 < i < |t| && !Linked(t[i])
    requires x.nlink + pend[i] == t[i].nlink + n && (n > 0 ==> x.kind == File || x.kind == Dev)
    requires x.kind != Dir && (x.kind == Unused ==> x.nlink == 0)
    ensures Good(t[i := x], pend[i := n], depth)
  {
    hide Sum, Count, Unique;
    var r := t[i := x];
    forall d | 0 < d < |t| && Linked(r[d]) ensures DirOk(r, d) && PlaceOk(r, depth, d) {
      assert DirOk(t, d) && PlaceOk(t, depth, d);
    }
    forall k | 0 < k < |t| ensures r[k].nlink == Sum(r, k) + pend[i := n][k] {
      SumSet(t, i, x, k);
    }
  }

  // ---- A name goes ------------------------------------------------------------------------------

  const FREE := Dirent(0, "")

  function WithoutEntry(t: seq<Inode>, dp: nat, j: nat): seq<Inode>
    requires dp < |t| && j < |t[dp].entries|
  {
    t[dp := t[dp].(entries := t[dp].entries[j := FREE])]
  }

  predicate HasEntry(t: seq<Inode>, dp: nat, j: nat) {
    && 0 < dp < |t| && Linked(t[dp]) && DirOk(t, dp) && 2 <= j < |t[dp].entries| && t[dp].entries[j].inum != 0
  }

  lemma GoneSum(t: seq<Inode>, dp: nat, j: nat, i: nat)
    requires HasEntry(t, dp, j) && i != 0
    ensures Sum(WithoutEntry(t, dp, j), i) + One(i == t[dp].entries[j].inum) == Sum(t, i)
  {
    SumSet(t, dp, t[dp].(entries := t[dp].entries[j := FREE]), i);
    CountSet(t[dp].entries, j, FREE, i, true);
  }

  lemma GoneDirOk(t: seq<Inode>, dp: nat, j: nat, d: nat)
    requires HasEntry(t, dp, j) && 0 < d < |t| && DirOk(t, d)
    ensures DirOk(WithoutEntry(t, dp, j), d)
  {
  }

  lemma GonePlace(t: seq<Inode>, depth: map<nat, nat>, dp: nat, j: nat, d: nat)
    requires HasEntry(t, dp, j) && 0 < d < |t| && DirOk(t, d) && PlaceOk(t, depth, d) && d != t[dp].entries[j].inum
    requires DirOk(WithoutEntry(t, dp, j), d)
    ensures PlaceOk(WithoutEntry(t, dp, j), depth, d)
  {
    hide Count, Unique;
    var r := WithoutEntry(t, dp, j);
    forall k | 0 <= k < |t| && Linked(r[k]) ensures Count(r[k].entries, d, false) == Count(t[k].entries, d, false) {
      if k == dp {
        CountSet(t[dp].entries, j, FREE, d, false);
      }
    }
  }

  /** The entry is gone, but the link is still counted. */
  lemma GoneGood(t: seq<Inode>, pend: seq<nat>, depth: map<nat, nat>, dp: nat, j: nat)
    requires Good(t, pend, depth) && HasEntry(t, dp, j) && t[t[dp].entries[j].inum].kind != Dir
    ensures var i := t[dp].entries[j].inum;
            0 < i < |t| && t[i].nlink > 0 && Good(WithoutEntry(t, dp, j), pend[i := pend[i] + 1], depth)
  {
    hide Sum, Count, Unique, DirOk;
    NamedIsLinked(t, pend, depth, dp, j);
    var i := t[dp].entries[j].inum;
    var r, p2 := WithoutEntry(t, dp, j), pend[i := pend[i] + 1];
    forall d | 0 < d < |t| && Linked(r[d]) ensures DirOk(r, d) && PlaceOk(r, depth, d) {
      GoneDirOk(t, dp, j, d);
      GonePlace(t, depth, dp, j, d);
    }
    forall d | 0 < d < |t| && r[d].kind == Dir && r[d].nlink == 0 ensures Dead(r, d) {
      DeadStays(t, r, d);
    }
    forall k | 0 < k < |t| ensures r[k].nlink == Sum(r, k) + p2[k] {
      GoneSum(t, dp, j, k);
    }
  }

  // ---- Making a directory -----------------------------------------------------------------------

  function NewDir(ip: nat, dp: nat): Inode {
    Inode(Dir, 1, [Dirent(ip, "."), Dirent(dp, "..")])
  }

  lemma NewDirCounts(ip: nat, dp: nat, i: nat)
    ensures Count(NewDir(ip, dp).entries, i, true) == One(i == dp) && Count(NewDir(ip, dp).entries, i, false) == 0
  {
    CountUp(NewDir(ip, dp).entries, i);
    CountNone(NewDir(ip, dp).entries, i, false);
  }

  /** The table after create() of directory ip, with its name at entry j of dp. */
  function Made(t: seq<Inode>, dp: nat, j: nat, ip: nat, name: string): seq<Inode>
    requires dp < |t| && ip < |t| && dp != ip && j <= |t[dp].entries|
  {
    t[ip := NewDir(ip, dp)]
     [dp := t[dp].(nlink := t[dp].nlink + 1, entries := Added(t[dp].entries, j, Dirent(ip, name)))]
  }

  lemma MadeSum(t: seq<Inode>, dp: nat, j: nat, ip: nat, name: string, i: nat)
    requires Room(t, dp, j, Dirent(ip, name)) && dp != ip && !Linked(t[ip]) && i != 0
    ensures Sum(Made(t, dp, j, ip, name), i) == Sum(t, i) + One(i == dp) + One(i == ip)
  {
    hide Sum, Count, Added;
    var e := Dirent(ip, name);
    var t1 := t[ip := NewDir(ip, dp)];
    SumSet(t, ip, NewDir(ip, dp), i);
    NewDirCounts(ip, dp, i);
    SumSet(t1, dp, t[dp].(nlink := t[dp].nlink + 1, entries := Added(t[dp].entries, j, e)), i);
    CountAdded(t[dp].entries, j, e, i, true);
  }

  lemma {:induction false} CountFewer(es: seq<Dirent>, i: nat)
    ensures Count(es, i, false) <= Count(es, i, true)
    decreases |es|
  {
    if es != [] {
      CountFewer(es[..|es| - 1], i);
    }
  }

  /** Nothing in a linked directory names an unused inode. */
  lemma UnusedUnnamed(t: seq<Inode>, pend: seq<nat>, depth: map<nat, nat>, i: nat, k: nat)
    requires Good(t, pend, depth) && 0 < i < |t| && t[i].kind == Unused && k < |t| && Linked(t[k])
    ensures Count(t[k].entries, i, false) == 0
  {
    SumAtLeast(t, k, i);
    CountFewer(t[k].entries, i);
  }

  lemma MadeCount(t: seq<Inode>, dp: nat, j: nat, ip: nat, name: string, d: nat, k: nat)
    requires Room(t, dp, j, Dirent(ip, name)) && dp != ip && d != ip && d != 0 && k < |t|
    ensures Count(Made(t, dp, j, ip, name)[k].entries, d, false) == if k == ip then 0 else Count(t[k].entries, d, false)
  {
    hide Count, Unique, Absent;
    NewDirCounts(ip, dp, d);
    CountAdded(t[dp].entries, j, Dirent(ip, name), d, false);
  }

  lemma MadeParent(t: seq<Inode>, dp: nat, j: nat, ip: nat, name: string, d: nat)
    requires Room(t, dp, j, Dirent(ip, name)) && dp != ip && d != ip && d < |t| && DirOk(t, d)
    ensures var r := Made(t, dp, j, ip, name); |r[d].entries| >= 2 && Parent(r[d]) == Parent(t[d]) < |t|
  {
  }

  lemma MadePlace(t: seq<Inode>, pend: seq<nat>, depth: map<nat, nat>, dp: nat, j: nat, ip: nat, name: string, d: nat)
    requires Good(t, pend, depth) && Room(t, dp, j, Dirent(ip, name)) && t[ip].kind == Unused
    requires 0 < d < |t| && Linked(t[d]) && d != ip && DirOk(Made(t, dp, j, ip, name), d) && dp in depth
    ensures PlaceOk(Made(t, dp, j, ip, name), depth[ip := depth[dp] + 1], d)
  {
    hide Sum, Count, Unique, Absent, DirOk, Added;
    var r := Made(t, dp, j, ip, name);
    assert DirOk(t, d) && PlaceOk(t, depth, d);
    MadeParent(t, dp, j, ip, name, d);
    forall k | 0 <= k < |t| && Linked(r[k])
      ensures Count(r[k].entries, d, false) == One(d != ROOT && k == Parent(r[d])) {
      MadeCount(t, dp, j, ip, name, d, k);
    }
  }

  lemma MadePlaceNew(t: seq<Inode>, pend: seq<nat>, depth: map<nat, nat>, dp: nat, j: nat, ip: nat, name: string)
    requires Good(t, pend, depth) && Room(t, dp, j, Dirent(ip, name)) && t[ip].kind == Unused
    requires DirOk(Made(t, dp, j, ip, name), ip) && dp in depth
    ensures PlaceOk(Made(t, dp, j, ip, name), depth[ip := depth[dp] + 1], ip)
  {
    hide Sum, Count, Unique, Absent, DirOk;
    var r, e := Made(t, dp, j, ip, name), Dirent(ip, name);
    forall k | 0 <= k < |t| && Linked(r[k]) ensures Count(r[k].entries, ip, false) == One(k == dp) {
      NewDirCounts(ip, dp, ip);
      CountAdded(t[dp].entries, j, e, ip, false);
      if k != ip {
        UnusedUnnamed(t, pend, depth, ip, k);
      }
    }
  }

  lemma MadeDirOk(t: seq<Inode>, dp: nat, j: nat, ip: nat, name: string, d: nat)
    requires Room(t, dp, j, Dirent(ip, name)) && dp != ip && 0 < d < |t| && (d == ip || DirOk(t, d))
    ensures DirOk(Made(t, dp, j, ip, name), d)
  {
    if d != ip {
      AddedDirOk(t, dp, j, Dirent(ip, name), d);
    }
  }

  lemma MadeGood(t: seq<Inode>, pend: seq<nat>, depth: map<nat, nat>, dp: nat, j: nat, ip: nat, name: string)
    requires Good(t, pend, depth) && Room(t, dp, j, Dirent(ip, name)) && t[ip].kind == Unused && dp in depth
    ensures Good(Made(t, dp, j, ip, name), pend, depth[ip := depth[dp] + 1])
  {
    hide Sum, Count, Unique, Absent, DirOk, PlaceOk, Added;
    var r := Made(t, dp, j, ip, name);
    forall d | 0 < d < |t| && Linked(r[d]) ensures DirOk(r, d) && PlaceOk(r, depth[ip := depth[dp] + 1], d) {
      MadeDirOk(t, dp, j, ip, name, d);
      if d == ip {
        MadePlaceNew(t, pend, depth, dp, j, ip, name);
      } else {
        MadePlace(t, pend, depth, dp, j, ip, name, d);
      }
    }
    forall d | 0 < d < |t| && r[d].kind == Dir && r[d].nlink == 0 ensures Dead(r, d) {
      DeadStays(t, r, d);
    }
    forall i | 0 < i < |t| ensures r[i].nlink == Sum(r, i) + pend[i] {
      MadeSum(t, dp, j, ip, name, i);
    }
  }

  // ---- Removing a directory ---------------------------------------------------------------------

  lemma {:induction false} SumOne(t: seq<Inode>, p: nat, i: nat)
    requires p < |t| && forall k :: 0 <= k < |t| ==> Refs(t[k], i) == One(k == p)
    ensures Sum(t, i) == 1
    decreases |t|
  {
    if p == |t| - 1 {
      SumZero(t[..p], i);
    } else {
      SumOne(t[..|t| - 1], p, i);
    }
  }

  lemma {:induction false} SumZero(t: seq<Inode>, i: nat)
    requires forall k :: 0 <= k < |t| ==> Refs(t[k], i) == 0
    ensures Sum(t, i) == 0
    decreases |t|
  {
    if t != [] {
      SumZero(t[..|t| - 1], i);
    }
  }

  /** A linked directory k whose parent is d is named in d. */
  lemma ChildNamed(t: seq<Inode>, pend: seq<nat>, depth: map<nat, nat>, d: nat, k: nat)
    requires Good(t, pend, depth) && 0 < d < |t| && Linked(t[d]) && 0 < k < |t| && Linked(t[k])
    requires DirOk(t, k) && Parent(t[k]) == d && k != ROOT
    ensures !Empty(t[d])
  {
    hide Sum, Count, Unique, Empty;
    assert DirOk(t, d) && PlaceOk(t, depth, k);
    assert Count(t[d].entries, k, false) == 1;
    EmptyCounts(t, d, k);
  }

  lemma EmptyCounts(t: seq<Inode>, d: nat, k: nat)
    requires d < |t| && DirOk(t, d) && k != 0
    ensures Empty(t[d]) ==> Count(t[d].entries, k, false) == 0
  {
    if Empty(t[d]) {
      CountNone(t[d].entries, k, false);
    }
  }

  /** No ".." counts for an empty directory d: what directory k contributes is d's name. */
  lemma RefsOfEmpty(t: seq<Inode>, pend: seq<nat>, depth: map<nat, nat>, d: nat, k: nat)
    requires Good(t, pend, depth) && 0 < d < |t| && Linked(t[d]) && DirOk(t, d) && d != ROOT && Empty(t[d]) && k < |t|
    ensures Refs(t[k], d) == One(k == Parent(t[d]))
  {
    hide Sum, Unique, Empty;
    assert PlaceOk(t, depth, d);
    if Linked(t[k]) {
      assert DirOk(t, k);
      CountUp(t[k].entries, d);
      if Parent(t[k]) == d {
        NotParentOfRoot(t, pend, depth, d, k);
        ChildNamed(t, pend, depth, d, k);
      }
    }
  }

  /** The only link to an empty directory is its name, so unlink() takes its count to 0. */
  lemma EmptyHasOneLink(t: seq<Inode>, pend: seq<nat>, depth: map<nat, nat>, dp: nat, j: nat)
    requires Good(t, pend, depth) && HasEntry(t, dp, j)
    requires t[t[dp].entries[j].inum].kind == Dir && Empty(t[t[dp].entries[j].inum])
    ensures var d := t[dp].entries[j].inum;
            && Linked(t[d]) && DirOk(t, d) && d != ROOT && d != dp && Parent(t[d]) == dp
            && Sum(t, d) == 1 && t[d].nlink == 1
  {
    hide Sum, Unique;
    var d := t[dp].entries[j].inum;
    NamedIsLinked(t, pend, depth, dp, j);
    assert DirOk(t, d) && PlaceOk(t, depth, d);
    CountIn(t[dp].entries, j, d, false);
    assert Count(t[dp].entries, d, false) == One(d != ROOT && dp == Parent(t[d]));
    forall k | 0 <= k < |t| ensures Refs(t[k], d) == One(k == dp) {
      RefsOfEmpty(t, pend, depth, d, k);
    }
    SumOne(t, dp, d);
  }

  lemma NotParentOfRoot(t: seq<Inode>, pend: seq<nat>, depth: map<nat, nat>, d: nat, k: nat)
    requires Good(t, pend, depth) && d != ROOT && 0 < k < |t| && Linked(t[k]) && DirOk(t, k) && Parent(t[k]) == d
    ensures k != ROOT
  {
    assert PlaceOk(t, depth, k);
  }

  /** The table after unlink() of the directory that entry j of dp names. */
  function Removed(t: seq<Inode>, dp: nat, j: nat): seq<Inode>
    requires dp < |t| && j < |t[dp].entries| && t[dp].entries[j].inum < |t| && t[dp].entries[j].inum != dp
    requires t[dp].nlink > 0
  {
    var d := t[dp].entries[j].inum;
    t[d := t[d].(nlink := 0)][dp := t[dp].(nlink := t[dp].nlink - 1, entries := t[dp].entries[j := FREE])]
  }

  /** What unlink() has found out about the directory d. */
  predicate Goes(t: seq<Inode>, dp: nat, j: nat, d: nat) {
    && HasEntry(t, dp, j) && d == t[dp].entries[j].inum && 0 < d < |t| && d != dp && d != ROOT
    && Linked(t[d]) && DirOk(t, d) && Empty(t[d]) && Parent(t[d]) == dp && t[d].nlink == 1
  }

  lemma RemovedSum(t: seq<Inode>, dp: nat, j: nat, d: nat, i: nat)
    requires Goes(t, dp, j, d) && i != 0 && t[dp].nlink > 1
    ensures Sum(Removed(t, dp, j), i) + One(i == dp) + One(i == d) == Sum(t, i)
  {
    hide Sum, Count, Unique;
    var t1 := t[d := t[d].(nlink := 0)];
    SumSet(t, d, t[d].(nlink := 0), i);
    CountUp(t[d].entries, i);
    EmptyCounts(t, d, i);
    SumSet(t1, dp, t[dp].(nlink := t[dp].nlink - 1, entries := t[dp].entries[j := FREE]), i);
    CountSet(t[dp].entries, j, FREE, i, true);
  }

  lemma RemovedDirOk(t: seq<Inode>, dp: nat, j: nat, d: nat, c: nat)
    requires Goes(t, dp, j, d) && 0 < c < |t| && DirOk(t, c)
    ensures DirOk(Removed(t, dp, j), c)
    ensures Parent(Removed(t, dp, j)[c]) == Parent(t[c]) < |t|
  {
    GoneDirOk(t, dp, j, c);
  }

  lemma RemovedPlace(t: seq<Inode>, pend: seq<nat>, depth: map<nat, nat>, dp: nat, j: nat, d: nat, c: nat)
    requires Good(t, pend, depth) && Goes(t, dp, j, d) && t[dp].nlink > 1 && 0 < c < |t| && c != d && Linked(t[c])
    requires DirOk(Removed(t, dp, j), c)
    ensures PlaceOk(Removed(t, dp, j), depth, c)
  {
    hide Sum, Count, Unique, Empty, DirOk;
    var r := Removed(t, dp, j);
    assert DirOk(t, c) && PlaceOk(t, depth, c);
    RemovedDirOk(t, dp, j, d, c);
    if c != ROOT && Parent(t[c]) == d {
      ChildNamed(t, pend, depth, d, c);
    }
    forall k | 0 <= k < |t| && Linked(r[k]) ensures Count(r[k].entries, c, false) == Count(t[k].entries, c, false) {
      CountSet(t[dp].entries, j, FREE, c, false);
    }
  }

  /** A linked directory other than the root, with a child, has a name and that child's "..". */
  lemma ParentCounts(t: seq<Inode>, pend: seq<nat>, depth: map<nat, nat>, dp: nat, j: nat, d: nat)
    requires Good(t, pend, depth) && Goes(t, dp, j, d)
    ensures t[dp].nlink > 1
  {
    hide Unique, Empty;
    assert DirOk(t, dp) && PlaceOk(t, depth, dp) && PlaceOk(t, depth, d);
    var p := if dp == ROOT then ROOT else Parent(t[dp]);
    CountUp(t[d].entries, dp);
    CountUp(t[p].entries, dp);
    assert p != d by {
      if p == d {
        ChildNamed(t, pend, depth, d, dp);
      }
    }
    SumTwo(t, d, p, dp);
  }

  lemma {:induction false} SumTwo(t: seq<Inode>, j: nat, k: nat, i: nat)
    requires j < |t| && k < |t| && j != k
    ensures Sum(t, i) >= Refs(t[j], i) + Refs(t[k], i)
    decreases |t|
  {
    var n := |t| - 1;
    if j == n {
      SumAtLeast(t[..n], k, i);
    } else if k == n {
      SumAtLeast(t[..n], j, i);
    } else {
      SumTwo(t[..n], j, k, i);
    }
  }

  lemma RemovedGood(t: seq<Inode>, pend: seq<nat>, depth: map<nat, nat>, dp: nat, j: nat, d: nat)
    requires Good(t, pend, depth) && Goes(t, dp, j, d)
    ensures Good(Removed(t, dp, j), pend, depth)
  {
    hide Sum, Count, Unique, Empty, DirOk, PlaceOk;
    ParentCounts(t, pend, depth, dp, j, d);
    var r := Removed(t, dp, j);
    forall c | 0 < c < |t| && Linked(r[c]) ensures DirOk(r, c) && PlaceOk(r, depth, c) {
      RemovedDirOk(t, dp, j, d, c);
      RemovedPlace(t, pend, depth, dp, j, d, c);
    }
    forall c | 0 < c < |t| && r[c].kind == Dir && r[c].nlink == 0 ensures Dead(r, c) {
      DeadStays(t, r, c);
    }
    forall i | 0 < i < |t| ensures r[i].nlink == Sum(r, i) + pend[i] {
      RemovedSum(t, dp, j, d, i);
    }
  }

  // ---- Directories as maps ----------------------------------------------------------------------

  /** The directory maps the name to inode i. */
  predicate Maps(es: seq<Dirent>, name: string, i: nat) {
    exists j :: 0 <= j < |es| && es[j] == Dirent(i, name) && i != 0
  }

  lemma AddedMaps(es: seq<Dirent>, j: nat, e: Dirent, name: string, i: nat)
    requires j <= |es| && (j < |es| ==> es[j].inum == 0) && e.inum != 0
    ensures Maps(Added(es, j, e), name, i) <==> Maps(es, name, i) || e == Dirent(i, name)
  {
    var r := Added(es, j, e);
    assert r[j] == e;
    if k :| 0 <= k < |es| && es[k] == Dirent(i, name) && i != 0 {
      assert r[k] == es[k];
    }
  }

  lemma GoneMaps(es: seq<Dirent>, j: nat, name: string, i: nat)
    requires j < |es| && Unique(es) && es[j].inum != 0
    ensures Maps(es[j := FREE], name, i) <==> Maps(es, name, i) && name != es[j].name
  {
    var r := es[j := FREE];
    if k :| 0 <= k < |es| && es[k] == Dirent(i, name) && i != 0 {
      assert k != j ==> r[k] == es[k];
    }
    if k :| 0 <= k < |r| && r[k] == Dirent(i, name) && i != 0 {
      assert es[k] == r[k];
    }
  }

  function Blank(n: nat): (t: seq<Inode>)
    ensures |t| == n && forall i :: 0 <= i < n ==> t[i] == Inode(Unused, 0, [])
  {
    seq(n, _ => Inode(Unused, 0, []))
  }

  lemma InitGood(n: nat)
    requires n > ROOT
    ensures Good(Blank(n)[ROOT := NewDir(ROOT, ROOT)], seq(n, _ => 0), map[ROOT := 0])
  {
    hide Sum, Count;
    var t, pend := Blank(n)[ROOT := NewDir(ROOT, ROOT)], seq(n, _ => 0);
    NewDirCounts(ROOT, ROOT, ROOT);
    assert DirOk(t, ROOT) && PlaceOk(t, map[ROOT := 0], ROOT);
    forall i | 0 < i < n ensures t[i].nlink == Sum(t, i) + pend[i] {
      SumZero(Blank(n), i);
      SumSet(Blank(n), ROOT, NewDir(ROOT, ROOT), i);
      NewDirCounts(ROOT, ROOT, i);
    }
  }

  datatype Creation = Created(ip: nat) | Found(ip: nat) | Refused | NoInodes

  class Namespace {
    var t: seq<Inode>
    ghost var pend: seq<nat>
    ghost var depth: map<nat, nat>

    ghost predicate Valid()
      reads this
    {
      Good(t, pend, depth)
    }

    /** The tree that mkfs leaves before it adds files: an empty root, its ".." naming itself. */
    constructor (n: nat)
      requires n > ROOT
      ensures Valid() && |t| == n && Linked(t[ROOT]) && Empty(t[ROOT])
      ensures forall i :: 0 <= i < n ==> pend[i] == 0 && (i != ROOT ==> t[i].kind == Unused)
    {
      t := Blank(n)[ROOT := NewDir(ROOT, ROOT)];
      pend := seq(n, _ => 0);
      depth := map[ROOT := 0];
      InitGood(n);
    }

    /** dirlookup(): the first entry with the name. */
    method Dirlookup(dp: nat, name: string) returns (r: Option<nat>)
      requires dp < |t| && t[dp].kind == Dir
      ensures r.None? ==> Absent(t[dp].entries, name)
      ensures r.Some? ==>
                && r.value < |t[dp].entries| && t[dp].entries[r.value].inum != 0 && t[dp].entries[r.value].name == name
                && Absent(t[dp].entries[..r.value], name)
    {
      var off := 0;
      while off < |t[dp].entries|
        invariant 0 <= off <= |t[dp].entries|
        invariant forall j :: 0 <= j < off && t[dp].entries[j].inum != 0 ==> t[dp].entries[j].name != name
      {
        var de := t[dp].entries[off];
        if de.inum != 0 && de.name == name {
          return Some(off);
        }
        off := off + 1;
      }
      return None;
    }

    /** dirlink(): it refuses a name that is there, and otherwise takes the first free entry. */
    method Dirlink(dp: nat, name: string, inum: nat) returns (ok: bool, ghost j: nat)
      requires dp < |t| && t[dp].kind == Dir && inum != 0
      modifies this`t
      ensures ok <==> Absent(old(t)[dp].entries, name)
      ensures !ok ==> t == old(t)
      ensures ok ==>
                && j <= |old(t)[dp].entries| && (j < |old(t)[dp].entries| ==> old(t)[dp].entries[j].inum == 0)
                && (forall k :: 0 <= k < j ==> old(t)[dp].entries[k].inum != 0)
                && t == WithEntry(old(t), dp, j, Dirent(inum, name))
    {
      var found := Dirlookup(dp, name);
      if found.Some? {
        return false, 0;
      }
      var off := 0;
      while off < |t[dp].entries| && t[dp].entries[off].inum != 0
        invariant 0 <= off <= |t[dp].entries| && t == old(t)
        invariant forall k :: 0 <= k < off ==> t[dp].entries[k].inum != 0
      {
        off := off + 1;
      }
      t := t[dp := t[dp].(entries := Added(t[dp].entries, off, Dirent(inum, name)))];
      return true, off;
    }

    method IsDirEmpty(dp: nat) returns (empty: bool)
      requires dp < |t|
      ensures empty <==> Empty(t[dp])
    {
      var off := 2;
      while off < |t[dp].entries|
        invariant 2 <= off
        invariant forall j :: 2 <= j < off && j < |t[dp].entries| ==> t[dp].entries[j].inum == 0
      {
        if t[dp].entries[off].inum != 0 {
          return false;
        }
        off := off + 1;
      }
      return true;
    }

    /** The search of ialloc(). */
    method FindInode() returns (r: Option<nat>)
      requires |t| > 0
      ensures r.Some? ==> FirstFree(t, r.value)
      ensures r.None? ==> AllUsed(t)
    {
      var inum := 1;
      while inum < |t|
        invariant 1 <= inum <= |t|
        invariant forall i :: 0 < i < inum ==> t[i].kind != Unused
      {
        if t[inum].kind == Unused {
          return Some(inum);
        }
        inum := inum + 1;
      }
      return None;
    }

    /** nlink++ with no entry behind it yet. */
    method CountLink(ip: nat)
      requires Valid() && 0 < ip < |t| && t[ip].kind != Dir && t[ip].kind != Unused
      modifies this
      ensures Valid() && depth == old(depth) && ip < |old(pend)| && pend == old(pend)[ip := old(pend)[ip] + 1]
      ensures t == old(t)[ip := old(t)[ip].(nlink := old(t)[ip].nlink + 1)]
    {
      hide Good;
      PendThere(t, pend, depth);
      CountedGood(t, pend, depth, ip, t[ip].(nlink := t[ip].nlink + 1));
      t := t[ip := t[ip].(nlink := t[ip].nlink + 1)];
      pend := pend[ip := pend[ip] + 1];
    }

    /** A name in dp for a link that is already counted; false if the name is taken. */
    method NameLink(dp: nat, name: string, ip: nat) returns (ok: bool)
      requires Valid() && 0 < dp < |t| && t[dp].kind == Dir && 0 < ip < |pend| == |t| && pend[ip] > 0
      modifies this
      ensures depth == old(depth) && (Valid() <==> !ok || Linked(old(t)[dp]))
      ensures ok <==> Absent(old(t)[dp].entries, name)
      ensures !ok ==> t == old(t) && pend == old(pend)
      ensures ok ==> pend == old(pend)[ip := old(pend)[ip] - 1] && NewName(old(t), t, dp, name, ip)
    {
      hide Good;
      DirThere(t, pend, depth, dp);
      ghost var t0, j := t, 0;
      ok, j := Dirlink(dp, name, ip);
      if ok {
        if Linked(t0[dp]) {
          RoomFor(t0, dp, j, Dirent(ip, name));
          LinkGood(t0, pend, depth, dp, j, Dirent(ip, name));
        } else {
          LinkLost(t0, pend, depth, depth, dp, j, Dirent(ip, name));
        }
        AddedName(t0, dp, j, name, ip);
        pend := pend[ip := pend[ip] - 1];
      }
    }

    /** The first half of link(): a directory is refused, any other inode counts one more link. */
    method BeginLink(ip: nat) returns (ok: bool)
      requires Valid() && 0 < ip < |t| && t[ip].kind != Unused
      modifies this
      ensures Valid() && depth == old(depth) && (ok <==> old(t)[ip].kind != Dir)
      ensures !ok ==> t == old(t) && pend == old(pend)
      ensures ok ==> ip < |old(pend)| && t == old(t)[ip := old(t)[ip].(nlink := old(t)[ip].nlink + 1)]
                     && pend == old(pend)[ip := old(pend)[ip] + 1]
    {
      if t[ip].kind == Dir {
        return false;
      }
      CountLink(ip);
      return true;
    }

    /** The second half: the new name, or, when there is no parent or the name is taken, the count goes back. */
    method EndLink(ip: nat, parent: Option<nat>, name: string) returns (ok: bool)
      requires Valid() && 0 < ip < |pend| == |t| && pend[ip] > 0
      requires parent.Some? ==> 0 < parent.value < |t| && t[parent.value].kind == Dir
      modifies this
      ensures Valid() <==> (ok && parent.Some? ==> Linked(old(t)[parent.value]))
      ensures depth == old(depth) && pend == old(pend)[ip := old(pend)[ip] - 1]
      ensures ok <==> parent.Some? && Absent(old(t)[parent.value].entries, name)
      ensures ok ==> NewName(old(t), t, parent.value, name, ip)
      ensures !ok ==> old(t)[ip].nlink > 0 && t == old(t)[ip := old(t)[ip].(nlink := old(t)[ip].nlink - 1)]
    {
      hide Good, NewName, Absent;
      ok := false;
      if parent.Some? {
        ok := NameLink(parent.value, name, ip);
      }
      if !ok {
        PendLinks(t, pend, depth, ip);
        OutsideGood(t, pend, depth, ip, t[ip].(nlink := t[ip].nlink - 1), pend[ip] - 1);
        t := t[ip := t[ip].(nlink := t[ip].nlink - 1)];
        pend := pend[ip := pend[ip] - 1];
      }
    }

    /**
     create() in the directory dp: an existing file is opened when a file is wanted; any other
     existing name is refused; a new inode gets the name, and a new directory its "." and "..".
     The counts stay right exactly when dp is linked, or nothing is made.
     */
    method Create(dp: nat, name: string, kind: Kind) returns (r: Creation)
      requires Valid() && 0 < dp < |t| && t[dp].kind == Dir && kind != Unused
      modifies this
      ensures pend == old(pend) && (Valid() <==> !r.Created? || Linked(old(t)[dp]))
      ensures r.Created? || t == old(t)
      ensures r.Created? <==> Absent(old(t)[dp].entries, name) && !AllUsed(old(t))
      ensures r.Created? ==> CreatedAs(old(t), t, dp, name, kind, r.ip) && FirstFree(old(t), r.ip)
      ensures r.Found? <==> kind == File && NamesFile(old(t), dp, name)
      ensures r.Found? ==> FileAt(t, dp, name, r.ip)
      ensures r.Refused? <==> !Absent(old(t)[dp].entries, name) && !(kind == File && NamesFile(old(t), dp, name))
      ensures r.NoInodes? <==> Absent(old(t)[dp].entries, name) && AllUsed(old(t))
    {
      hide Good, NewName, Absent, Sum, Count, Unique, Maps, CreatedAs, FileAt, NamesFile;
      var found := Dirlookup(dp, name);
      if found.Some? {
        Present(t[dp].entries, name, found.value);
        DirThere(t, pend, depth, dp);
        InRange(t, dp, found.value);
        var ip := t[dp].entries[found.value].inum;
        FoundFile(t, dp, name, found.value);
        if kind == File && t[ip].kind == File {
          return Found(ip);
        }
        return Refused;
      }
      NoFile(t, dp, name);
      var got := FindInode();
      if got.None? {
        return NoInodes;
      }
      var ip := got.value;
      if kind == Dir {
        MakeDir(dp, name, ip);
      } else {
        MakeFile(dp, name, ip, kind);
      }
      return Created(ip);
    }

    method MakeFile(dp: nat, name: string, ip: nat, kind: Kind)
      requires Valid() && 0 < dp < |t| && t[dp].kind == Dir && (kind == File || kind == Dev) &&
               Absent(t[dp].entries, name)
      requires 0 < ip < |t| && t[ip].kind == Unused
      modifies this
      ensures pend == old(pend) && (Valid() <==> Linked(old(t)[dp])) && CreatedAs(old(t), t, dp, name, kind, ip)
    {
      hide Good, NewName, Absent, Sum, Count, Unique;
      PendThere(t, pend, depth);
      FreshInode(t, pend, depth, ip);
      CountedGood(t, pend, depth, ip, Inode(kind, 1, []));
      t := t[ip := Inode(kind, 1, [])];
      pend := pend[ip := pend[ip] + 1];
      ghost var t1 := t;
      var ok := NameLink(dp, name, ip);
      SameOthers(t1, t, dp, name, ip);
      assert old(t)[ip := t[ip]][dp := old(t)[dp].(nlink := old(t)[dp].nlink + One(kind == Dir))] == t1;
    }

    /** The entries "." and ".." of a new directory. */
    method LinkDots(ip: nat, dp: nat)
      requires ip < |t| && t[ip].kind == Dir && t[ip].entries == [] && ip != 0 && dp != 0
      modifies this`t
      ensures t == old(t)[ip := old(t)[ip].(entries := [Dirent(ip, "."), Dirent(dp, "..")])]
    {
      var dot, j := Dirlink(ip, ".", ip);
      ghost var one := t;
      assert one[ip].entries == [Dirent(ip, ".")];
      var dotdot;
      dotdot, j := Dirlink(ip, "..", dp);
      assert j == 1 by {
        assert one[ip].entries[0].inum != 0;
      }
      assert t[ip].entries == [Dirent(ip, "."), Dirent(dp, "..")];
    }

    method MakeDir(dp: nat, name: string, ip: nat)
      requires Valid() && 0 < dp < |t| && t[dp].kind == Dir && Absent(t[dp].entries, name)
      requires 0 < ip < |t| && t[ip].kind == Unused
      modifies this
      ensures pend == old(pend) && (Valid() <==> Linked(old(t)[dp])) && CreatedAs(old(t), t, dp, name, Dir, ip)
    {
      hide Good, NewName, Absent, Sum, Count, Unique, DirOk;
      DirThere(t, pend, depth, dp);
      ghost var t0 := t;
      t := t[ip := Inode(Dir, 1, [])];
      t := t[dp := t[dp].(nlink := t[dp].nlink + 1)];
      LinkDots(ip, dp);
      ghost var t1 := t;
      assert t1 == t0[ip := NewDir(ip, dp)][dp := t0[dp].(nlink := t0[dp].nlink + 1)];
      var ok, j := Dirlink(dp, name, ip);
      assert t == Made(t0, dp, j, ip, name);
      AddedName(t1, dp, j, name, ip);
      if Linked(t0[dp]) {
        RoomFor(t0, dp, j, Dirent(ip, name));
        MadeGood(t0, pend, depth, dp, j, ip, name);
        depth := depth[ip := depth[dp] + 1];
      } else {
        ParentMustBeLinked(t0, pend, depth, depth, dp, j, ip, name, Dir);
      }
    }

    /**
     unlink() in the directory dp.  The name goes, and its inode loses one link, which it has;
     a directory goes only when empty, then drops to no links, and its ".." no longer counts for dp.
     */
    method Unlink(dp: nat, name: string) returns (ok: bool)
      requires Valid() && 0 < dp < |t| && t[dp].kind == Dir
      modifies this
      ensures Valid()
      ensures ok <==> !IsDots(name) && !Absent(old(t)[dp].entries, name) && !Full(old(t), dp, name)
      ensures !ok ==> t == old(t)
      ensures ok ==> UnlinkedAs(old(t), t, dp, name)
    {
      hide Good, Absent, Sum, Count, Unique, Maps, UnlinkedAs, Full, Empty;
      if IsDots(name) {
        return false;
      }
      var found := Dirlookup(dp, name);
      if found.None? {
        return false;
      }
      var j := found.value;
      DirThere(t, pend, depth, dp);
      Present(t[dp].entries, name, j);
      OnlyDots(t, dp, j);
      NamedIsLinked(t, pend, depth, dp, j);
      var ip := t[dp].entries[j].inum;
      assert t[ip].nlink >= 1;
      if t[ip].kind == Dir {
        var empty := IsDirEmpty(ip);
        FullAt(t, dp, name, j);
        if !empty {
          return false;
        }
        RemoveDir(dp, name, j, ip);
      } else {
        FullAt(t, dp, name, j);
        RemoveFile(dp, name, j, ip);
      }
      return true;
    }

    method RemoveDir(dp: nat, name: string, j: nat, ip: nat)
      requires Valid() && HasEntry(t, dp, j) && t[dp].entries[j] == Dirent(ip, name)
      requires ip < |t| && t[ip].kind == Dir && Empty(t[ip])
      modifies this
      ensures Valid() && UnlinkedAs(old(t), t, dp, name)
    {
      hide Good, Sum, Count, Unique, Maps, UnlinkedAs, Empty;
      EmptyHasOneLink(t, pend, depth, dp, j);
      ghost var t0 := t;
      t := t[dp := t[dp].(entries := t[dp].entries[j := FREE])];
      t := t[dp := t[dp].(nlink := t[dp].nlink - 1)];
      t := t[ip := t[ip].(nlink := t[ip].nlink - 1)];
      assert t == Removed(t0, dp, j);
      RemovedGood(t0, pend, depth, dp, j, ip);
      RemovedAs(t0, t, dp, name, j, ip);
    }

    method RemoveFile(dp: nat, name: string, j: nat, ip: nat)
      requires Valid() && HasEntry(t, dp, j) && t[dp].entries[j] == Dirent(ip, name) && ip < |t| && t[ip].kind != Dir
      modifies this
      ensures Valid() && UnlinkedAs(old(t), t, dp, name)
    {
      hide Good, Sum, Count, Unique, Maps, UnlinkedAs;
      PendThere(t, pend, depth);
      GoneGood(t, pend, depth, dp, j);
      NamedIsLinked(t, pend, depth, dp, j);
      ghost var t0, p1 := t, pend[ip := pend[ip] + 1];
      t := t[dp := t[dp].(entries := t[dp].entries[j := FREE])];
      OutsideGood(t, p1, depth, ip, t[ip].(nlink := t[ip].nlink - 1), pend[ip]);
      assert p1[ip := pend[ip]] == pend;
      t := t[ip := t[ip].(nlink := t[ip].nlink - 1)];
      RemovedAs(t0, t, dp, name, j, ip);
    }

    /** What iput() does to an inode without links when its last reference goes. */
    method Free(ip: nat)
      requires Valid() && 0 < ip < |t| && t[ip].nlink == 0
      modifies this
      ensures Valid() && t == old(t)[ip := Inode(Unused, 0, [])] && pend == old(pend)
      ensures forall d :: 0 < d < |t| && Linked(t[d]) ==> Count(t[d].entries, ip, true) == 0
    {
      hide Sum, Unique;
      OutsideGood(t, pend, depth, ip, Inode(Unused, 0, []), 0);
      assert pend[ip := 0] == pend;
      t := t[ip := Inode(Unused, 0, [])];
      forall d | 0 < d < |t| && Linked(t[d]) ensures Count(t[d].entries, ip, true) == 0 {
        SumAtLeast(t, d, ip);
      }
    }
  }

  /** The name is that of a directory with entries. */
  ghost predicate Full(t: seq<Inode>, dp: nat, name: string) {
    dp < |t| && exists ip: nat :: Maps(t[dp].entries, name, ip) && ip < |t| && t[ip].kind == Dir && !Empty(t[ip])
  }

  lemma FullAt(t: seq<Inode>, dp: nat, name: string, j: nat)
    requires dp < |t| && j < |t[dp].entries| && t[dp].entries[j].name == name && 0 < t[dp].entries[j].inum < |t|
    requires Unique(t[dp].entries)
    ensures var ip := t[dp].entries[j].inum; Full(t, dp, name) <==> t[ip].kind == Dir && !Empty(t[ip])
  {
    var ip := t[dp].entries[j].inum;
    assert Maps(t[dp].entries, name, ip);
  }

  /** The only changes: the name is gone, its inode has one link less, and dp too if that was a directory. */
  ghost predicate UnlinkedAs(t0: seq<Inode>, t: seq<Inode>, dp: nat, name: string) {
    && |t| == |t0| && dp < |t0|
    && exists ip: nat ::
         && Maps(t0[dp].entries, name, ip) && ip < |t0| && t0[ip].nlink > 0 && ip != dp
         && t[ip] == t0[ip].(nlink := t0[ip].nlink - 1) && (t0[ip].kind == Dir ==> t[ip].nlink == 0)
         && t[dp].kind == t0[dp].kind && t[dp].nlink + One(t0[ip].kind == Dir) == t0[dp].nlink
         && (forall k :: 0 <= k < |t| && k != dp && k != ip ==> t[k] == t0[k])
         && forall n, i :: Maps(t[dp].entries, n, i) <==> Maps(t0[dp].entries, n, i) && n != name
  }

  lemma RemovedAs(t0: seq<Inode>, t: seq<Inode>, dp: nat, name: string, j: nat, ip: nat)
    requires HasEntry(t0, dp, j) && t0[dp].entries[j] == Dirent(ip, name) && ip < |t0| && t0[ip].nlink > 0 && ip != dp
    requires |t| == |t0| && t[ip] == t0[ip].(nlink := t0[ip].nlink - 1) && (t0[ip].kind == Dir ==> t[ip].nlink == 0)
    requires t[dp] == t0[dp].(nlink := t[dp].nlink, entries := t0[dp].entries[j := FREE])
    requires t[dp].nlink + One(t0[ip].kind == Dir) == t0[dp].nlink
    requires forall k :: 0 <= k < |t| && k != dp && k != ip ==> t[k] == t0[k]
    ensures UnlinkedAs(t0, t, dp, name)
  {
    hide Unique;
    assert Maps(t0[dp].entries, name, ip);
    forall n, i ensures Maps(t[dp].entries, n, i) <==> Maps(t0[dp].entries, n, i) && n != name {
      GoneMaps(t0[dp].entries, j, n, i);
    }
  }

  /** The table after create(), with the new name at entry j of dp. */
  function CreatedTable(t: seq<Inode>, dp: nat, j: nat, ip: nat, name: string, kind: Kind): seq<Inode>
    requires dp < |t| && ip < |t| && dp != ip && j <= |t[dp].entries|
  {
    if kind == Dir then Made(t, dp, j, ip, name)
    else WithEntry(t[ip := Inode(kind, 1, [])], dp, j, Dirent(ip, name))
  }

  /** An entry in a directory that is not linked accounts for no link. */
  lemma LinkLost(t: seq<Inode>, pend: seq<nat>, depth: map<nat, nat>, d2: map<nat, nat>, dp: nat, j: nat, e: Dirent)
    requires Good(t, pend, depth) && 0 < dp < |t| && t[dp].kind == Dir && !Linked(t[dp]) && j <= |t[dp].entries|
    requires 0 < e.inum < |t| && pend[e.inum] > 0
    ensures !Good(WithEntry(t, dp, j, e), pend[e.inum := pend[e.inum] - 1], d2)
  {
    hide Count, Added, Dead;
    SumSet(t, dp, t[dp].(entries := Added(t[dp].entries, j, e)), e.inum);
    assert t[e.inum].nlink == Sum(t, e.inum) + pend[e.inum];
    assert e.inum != dp;
  }

  /** Nothing in a linked directory names an unlinked one. */
  lemma DeadUnnamed(t: seq<Inode>, pend: seq<nat>, depth: map<nat, nat>, d: nat, k: nat)
    requires Good(t, pend, depth) && 0 < d < |t| && t[d].kind == Dir && !Linked(t[d]) && k < |t| && Linked(t[k])
    ensures Count(t[k].entries, d, false) == 0
  {
    SumAtLeast(t, k, d);
    CountFewer(t[k].entries, d);
  }

  /**
   The parent has to be linked.  A file or device created in a directory that is not gets a link
   count of 1 that no linked directory accounts for; a directory created there gives the parent a
   count again, from "..", and no linked directory names that parent.
   */
  lemma ParentMustBeLinked(t: seq<Inode>, pend: seq<nat>, depth: map<nat, nat>, d2: map<nat, nat>,
                           dp: nat, j: nat, ip: nat, name: string, kind: Kind)
    requires Good(t, pend, depth) && 0 < dp < |t| && t[dp].kind == Dir && !Linked(t[dp]) && j <= |t[dp].entries|
    requires 0 < ip < |t| && t[ip].kind == Unused && kind != Unused
    ensures ip != dp && !Good(CreatedTable(t, dp, j, ip, name, kind), pend, d2)
  {
    hide Sum, Count, Added, Unique, Dead;
    if kind == Dir {
      DirUnderDead(t, pend, depth, d2, dp, j, ip, name);
    } else {
      var t1 := t[ip := Inode(kind, 1, [])];
      FreshInode(t, pend, depth, ip);
      CountedGood(t, pend, depth, ip, Inode(kind, 1, []));
      LinkLost(t1, pend[ip := pend[ip] + 1], depth, d2, dp, j, Dirent(ip, name));
      assert pend[ip := pend[ip] + 1][ip := pend[ip]] == pend;
    }
  }

  lemma DirUnderDead(t: seq<Inode>, pend: seq<nat>, depth: map<nat, nat>, d2: map<nat, nat>,
                     dp: nat, j: nat, ip: nat, name: string)
    requires Good(t, pend, depth) && 0 < dp < |t| && t[dp].kind == Dir && !Linked(t[dp]) && j <= |t[dp].entries|
    requires 0 < ip < |t| && t[ip].kind == Unused
    ensures ip != dp && !Good(Made(t, dp, j, ip, name), pend, d2)
  {
    hide Sum, Count, Added, Unique, Dead;
    var r := Made(t, dp, j, ip, name);
    if Good(r, pend, d2) {
      assert Linked(r[dp]) && DirOk(r, dp) && PlaceOk(r, d2, dp);
      var p := Parent(r[dp]);
      assert dp != ROOT && p != dp && Linked(r[p]) && Count(r[p].entries, dp, false) == 1;
      if p == ip {
        NewDirCounts(ip, dp, dp);
      } else {
        DeadUnnamed(t, pend, depth, dp, p);
      }
    }
  }

  /**
   A run that shows it: make a directory, remove it while it is some process's current directory,
   and create a file in it.
   */
  method CreateInRemoved(n: nat) returns (ns: Namespace)
    requires n > 3
    ensures fresh(ns) && !ns.Valid()
  {
    hide Good, Sum, Count, Absent, Maps, Empty, CreatedAs, UnlinkedAs, Full;
    ns := new Namespace(n);
    OnlyTheDots(ns.t, ns.pend, ns.depth, ROOT, "d");
    assert ns.t[2].kind == Unused;
    ghost var t0 := ns.t;
    var r := ns.Create(ROOT, "d", Dir);
    OneMade(t0, ns.t, ROOT, "d", r.ip);
    var dp := r.ip;
    ghost var t1 := ns.t;
    var ok := ns.Unlink(ROOT, "d");
    OneGone(t1, ns.t, ROOT, "d", dp);
    OnlyTheDots(ns.t, ns.pend, ns.depth, dp, "f");
    assert ns.t[2].kind == Unused || ns.t[3].kind == Unused;
    r := ns.Create(dp, "f", File);
  }

  /** The directory just made is the one of its name, empty. */
  lemma OneMade(t0: seq<Inode>, t: seq<Inode>, dp: nat, name: string, ip: nat)
    requires CreatedAs(t0, t, dp, name, Dir, ip) && Absent(t0[dp].entries, name)
    ensures |t| == |t0| && 0 < ip < |t| && t[ip].kind == Dir && Empty(t[ip]) && !Absent(t[dp].entries, name) &&
            !Full(t, dp, name)
    ensures forall i: nat :: Maps(t[dp].entries, name, i) ==> i == ip
    ensures ip != dp && t[dp].kind == t0[dp].kind && forall k :: 0 <= k < |t| && k != dp && k != ip ==> t[k] == t0[k]
  {
    assert Maps(t[dp].entries, name, ip);
    forall i: nat | Maps(t0[dp].entries, name, i) ensures false {
    }
  }

  lemma OneGone(t0: seq<Inode>, t: seq<Inode>, dp: nat, name: string, ip: nat)
    requires UnlinkedAs(t0, t, dp, name) && ip < |t0| && t0[ip].kind == Dir && Empty(t0[ip])
    requires forall i: nat :: Maps(t0[dp].entries, name, i) ==> i == ip
    ensures |t| == |t0| && t[ip].kind == Dir && t[ip].nlink == 0 && Empty(t[ip])
    ensures forall k :: 0 <= k < |t| && k != dp && k != ip ==> t[k] == t0[k]
  {
  }

  lemma OnlyTheDots(t: seq<Inode>, pend: seq<nat>, depth: map<nat, nat>, d: nat, name: string)
    requires Good(t, pend, depth) && 0 < d < |t| && t[d].kind == Dir && Empty(t[d])
    requires !IsDots(name)
    ensures Absent(t[d].entries, name)
  {
    hide Good, Unique;
    DirThere(t, pend, depth, d);
  }

  /** An entry of a directory that is not linked is one of the first two. */
  lemma OnlyDots(t: seq<Inode>, dp: nat, j: nat)
    requires dp < |t| && DirOk(t, dp) && j < |t[dp].entries| && t[dp].entries[j].inum != 0
    ensures Empty(t[dp]) ==> IsDots(t[dp].entries[j].name)
  {
  }

  lemma InRange(t: seq<Inode>, dp: nat, j: nat)
    requires dp < |t| && DirOk(t, dp) && j < |t[dp].entries|
    ensures t[dp].entries[j].inum < |t|
  {
  }

  // ---- Every directory hangs from the root ------------------------------------------------------

  /** n steps up by "..". */
  function Climb(t: seq<Inode>, d: nat, n: nat): nat
    decreases n
  {
    if n == 0 || d >= |t| || |t[d].entries| < 2 then d else Climb(t, Parent(t[d]), n - 1)
  }

  lemma {:induction false} ReachesRoot(t: seq<Inode>, pend: seq<nat>, depth: map<nat, nat>, d: nat) returns (n: nat)
    requires Good(t, pend, depth) && 0 < d < |t| && Linked(t[d])
    ensures Climb(t, d, n) == ROOT
    decreases if d in depth then depth[d] else 0
  {
    hide Sum, Count, Unique, Dead, Empty;
    assert DirOk(t, d) && PlaceOk(t, depth, d);
    if d == ROOT {
      return 0;
    }
    var m := ReachesRoot(t, pend, depth, Parent(t[d]));
    return m + 1;
  }

  predicate AllUsed(t: seq<Inode>) {
    forall i :: 0 < i < |t| ==> t[i].kind != Unused
  }

  predicate FirstFree(t: seq<Inode>, ip: nat) {
    0 < ip < |t| && t[ip].kind == Unused && forall i :: 0 < i < ip ==> t[i].kind != Unused
  }

  predicate FileAt(t: seq<Inode>, dp: nat, name: string, ip: nat) {
    dp < |t| && Maps(t[dp].entries, name, ip) && ip < |t| && t[ip].kind == File
  }

  /** The name is that of a file. */
  ghost predicate NamesFile(t: seq<Inode>, dp: nat, name: string) {
    exists ip: nat :: FileAt(t, dp, name, ip)
  }

  lemma FoundFile(t: seq<Inode>, dp: nat, name: string, j: nat)
    requires dp < |t| && DirOk(t, dp) && j < |t[dp].entries| && t[dp].entries[j].name == name
    requires 0 < t[dp].entries[j].inum < |t|
    ensures var ip := t[dp].entries[j].inum;
            (NamesFile(t, dp, name) <==> t[ip].kind == File) && (t[ip].kind == File ==> FileAt(t, dp, name, ip))
  {
    var ip := t[dp].entries[j].inum;
    assert Maps(t[dp].entries, name, ip);
    assert t[ip].kind == File ==> FileAt(t, dp, name, ip);
    if i: nat :| FileAt(t, dp, name, i) {
      var k :| 0 <= k < |t[dp].entries| && t[dp].entries[k] == Dirent(i, name) && i != 0;
      assert k == j;
    }
  }

  lemma NoFile(t: seq<Inode>, dp: nat, name: string)
    requires dp < |t| && Absent(t[dp].entries, name)
    ensures !NamesFile(t, dp, name)
  {
  }

  lemma Present(es: seq<Dirent>, name: string, j: nat)
    requires j < |es| && es[j].name == name && es[j].inum != 0
    ensures !Absent(es, name)
  {
  }

  /** The only changes: inode ip is new, dp has its name, and one more link if ip is a directory. */
  ghost predicate CreatedAs(t0: seq<Inode>, t: seq<Inode>, dp: nat, name: string, kind: Kind, ip: nat) {
    && |t| == |t0| && dp < |t0| && 0 < ip < |t0| && ip != dp && t0[ip].kind == Unused
    && t[ip] == (if kind == Dir then NewDir(ip, dp) else Inode(kind, 1, []))
    && NewName(t0[ip := t[ip]][dp := t0[dp].(nlink := t0[dp].nlink + One(kind == Dir))], t, dp, name, ip)
  }

  /** dp now also maps the name to ip; no other inode changed. */
  ghost predicate NewName(t: seq<Inode>, r: seq<Inode>, dp: nat, name: string, ip: nat) {
    && |r| == |t| && dp < |t| && r[dp] == t[dp].(entries := r[dp].entries)
    && (forall k :: 0 <= k < |t| && k != dp ==> r[k] == t[k])
    && forall n, i :: Maps(r[dp].entries, n, i) <==> Maps(t[dp].entries, n, i) || (n == name && i == ip)
  }

  lemma AddedName(t: seq<Inode>, dp: nat, j: nat, name: string, ip: nat)
    requires dp < |t| && j <= |t[dp].entries| && (j < |t[dp].entries| ==> t[dp].entries[j].inum == 0) && ip != 0
    ensures NewName(t, WithEntry(t, dp, j, Dirent(ip, name)), dp, name, ip)
  {
    hide Maps, Added, Unique, Absent;
    forall n, i
      ensures Maps(Added(t[dp].entries, j, Dirent(ip, name)), n, i) <==>
              Maps(t[dp].entries, n, i) || (n == name && i == ip)
    {
      AddedMaps(t[dp].entries, j, Dirent(ip, name), n, i);
    }
  }

  lemma FreshInode(t: seq<Inode>, pend: seq<nat>, depth: map<nat, nat>, ip: nat)
    requires Good(t, pend, depth) && 0 < ip < |t| && t[ip].kind == Unused
    ensures t[ip].nlink == 0
  {
  }

  lemma SameOthers(t: seq<Inode>, r: seq<Inode>, dp: nat, name: string, ip: nat)
    requires NewName(t, r, dp, name, ip)
    ensures |r| == |t| && r[dp].nlink == t[dp].nlink && forall k :: 0 <= k < |t| && k != dp ==> r[k] == t[k]
  {
  }

  lemma PendThere(t: seq<Inode>, pend: seq<nat>, depth: map<nat, nat>)
    requires Good(t, pend, depth)
    ensures |pend| == |t|
  {
  }

  lemma PendLinks(t: seq<Inode>, pend: seq<nat>, depth: map<nat, nat>, ip: nat)
    requires Good(t, pend, depth) && 0 < ip < |t| && pend[ip] > 0
    ensures t[ip].nlink > 0 && (t[ip].kind == File || t[ip].kind == Dev)
  {
  }

  lemma DirThere(t: seq<Inode>, pend: seq<nat>, depth: map<nat, nat>, dp: nat)
    requires Good(t, pend, depth) && 0 < dp < |t| && t[dp].kind == Dir
    ensures DirOk(t, dp) && if Linked(t[dp]) then dp in depth else Empty(t[dp])
  {
    assert Linked(t[dp]) ==> DirOk(t, dp) && PlaceOk(t, depth, dp);
  }

  /** dirlink() never takes one of the first two entries of a linked directory, nor adds a second ".". */
  lemma RoomFor(t: seq<Inode>, dp: nat, j: nat, e: Dirent)
    requires 0 < dp < |t| && Linked(t[dp]) && DirOk(t, dp) && j <= |t[dp].entries| && 0 < e.inum < |t|
    requires (j < |t[dp].entries| ==> t[dp].entries[j].inum == 0) && Absent(t[dp].entries, e.name)
    ensures Room(t, dp, j, e)
  {
    assert t[dp].entries[0].name == "." && t[dp].entries[1].name == "..";
  }
}
