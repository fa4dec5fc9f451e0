/**
 Names on the image that mkfs builds: dirlookup of fs.c on the root directory's bytes.
 */
module RootLookup {
  import opened Common
  import opened Blocks
  import opened FsState
  import opened FileSys
  import opened Mkfs

  /** A character of a C string. */
  function CharAt(s: seq<Byte>, i: nat): Byte {
    if i < |s| then s[i] else 0
  }

  /** strncmp(s, t, DIRSIZ) == 0, from the i-th character on */
  predicate NameCmp(s: seq<Byte>, t: seq<Byte>, i: nat)
    requires i <= DIRSIZ
    decreases DIRSIZ - i
  {
    i == DIRSIZ || (CharAt(s, i) == CharAt(t, i) && (CharAt(s, i) == 0 || NameCmp(s, t, i + 1)))
  }

  /** The name as far as a directory entry has room for it. */
  function Cut(name: seq<Byte>): seq<Byte> {
    if |name| >= DIRSIZ then name[..DIRSIZ] else name
  }

  /** The name field of an entry. */
  function Field(name: seq<Byte>): (f: seq<Byte>)
    ensures |f| == DIRSIZ && forall i: nat :: i < DIRSIZ ==> f[i] == CharAt(name, i)
  {
    if |name| >= DIRSIZ then name[..DIRSIZ] else name + seq(DIRSIZ - |name|, _ => 0)
  }

  /** Names are the same to the kernel exactly when their first DIRSIZ characters are. */
  lemma {:induction false} CmpIsCut(s: seq<Byte>, t: seq<Byte>, i: nat)
    requires 0 !in s && 0 !in t && i <= DIRSIZ && i <= |s| && i <= |t| && s[..i] == t[..i]
    ensures NameCmp(s, Field(t), i) <==> Cut(s) == Cut(t)
    decreases DIRSIZ - i
  {
    if i < DIRSIZ {
      var f := Field(t);
      assert CharAt(f, i) == CharAt(t, i);
      if i < |s| {
        assert s[i] in s;
      }
      if i < |t| {
        assert t[i] in t;
      }
      if i < |s| && i < |t| && s[i] == t[i] {
        assert s[..i + 1] == s[..i] + [s[i]] && t[..i + 1] == t[..i] + [t[i]];
        CmpIsCut(s, t, i + 1);
      } else if i < |s| && i < |t| {
        assert Cut(s)[i] != Cut(t)[i];
      } else {
        assert |s| == |t| == i ==> s == s[..i] == t;
      }
    }
  }

  function EntryInum(c: seq<Byte>, e: nat): nat
    requires 16 * e + 16 <= |c|
  {
    c[16 * e] as nat + 0x100 * (c[16 * e + 1] as nat)
  }

  function EntryName(c: seq<Byte>, e: nat): seq<Byte>
    requires 16 * e + 16 <= |c|
  {
    c[16 * e + 2..16 * e + 16]
  }

  /** Entry e of a directory's bytes is in use and has the name. */
  predicate Matches(c: seq<Byte>, name: seq<Byte>, e: nat) {
    16 * e + 16 <= |c| && EntryInum(c, e) != 0 && NameCmp(name, EntryName(c, e), 0)
  }

  /** No entry before e does. */
  predicate NoneBefore(c: seq<Byte>, name: seq<Byte>, e: nat) {
    forall d: nat :: d < e ==> !Matches(c, name, d)
  }

  /** What dirlookup returns; `Stuck` is a panic. */
  datatype Lookup = Missing | Found(inum: nat) | Stuck

  /**
   dirlookup: the inode number of the first entry in use that has the name.  It panics on what is no
   directory or has a part of an entry at its end, and, before it gets to the name, in a hole of the
   directory that no block is free for.
   */
  method Dirlookup(fs: FileSys, dp: nat, name: seq<Byte>) returns (r: Lookup)
    requires fs.Valid() && dp < fs.sb.ninodes && fs.inodes[dp].size <= MAXBYTES
    modifies fs`blocks, fs`inodes, fs`owner, fs`logged
    ensures r.Found? && old(fs.inodes)[dp].size % 16 == 0 ==>
              exists e: nat ::
                && Matches(Contents(old(fs.State()), dp), name, e) && NoneBefore(Contents(old(fs.State()), dp), name, e)
                && r.inum == EntryInum(Contents(old(fs.State()), dp), e)
    ensures r.Missing? ==> forall e: nat :: !Matches(Contents(old(fs.State()), dp), name, e)
    ensures r.Stuck? && old(fs.inodes)[dp].typ == T_DIR && old(fs.inodes)[dp].size % 16 == 0 ==>
              exists e: nat ::
                && 16 * e < old(fs.inodes)[dp].size && NoneBefore(Contents(old(fs.State()), dp), name, e)
                && !Filled(old(fs.State()), dp, 16 * e, 16)
    ensures r.Stuck? ==> old(fs.inodes)[dp].typ != T_DIR || old(fs.inodes)[dp].size % 16 != 0 ||
                         (|fs.blocks| == fs.sb.size && Full(fs.sb, fs.blocks))
    ensures !r.Stuck? ==> fs.Valid() && SameBytes(old(fs.State()), fs.State()) && fs.Grew(old(fs.State()), dp)
  {
    hide Full, Contents, Filled, SameBytes, Matches, FileByte, At, NameCmp;
    if fs.inodes[dp].typ != T_DIR {
      return Stuck;
    }
    ghost var s0 := fs.State();
    ghost var c := Contents(s0, dp);
    LengthIsSize(s0, dp);
    NothingGrew(fs, dp);
    ghost var e: nat := 0;
    var off: nat := 0;
    while off < fs.inodes[dp].size
      invariant fs.Valid() && SameBytes(s0, fs.State()) && fs.Grew(s0, dp)
      invariant off == 16 * e && off <= fs.inodes[dp].size + 15 && fs.inodes[dp].size == s0.inodes[dp].size
      invariant NoneBefore(c, name, e)
      decreases s0.inodes[dp].size + 16 - off
    {
      ghost var s1 := fs.State();
      SameContents(s0, s1, dp);
      var got, de := fs.Readi(dp, off, 16);
      if got.Panic? {
        if off + 16 <= s0.inodes[dp].size {
          StillMissing(s0, s1, dp, off, 16);
        }
        return Stuck;
      }
      if got != Count(16) {
        return Stuck;
      }
      BytesTwice(s0, s1, fs.State());
      GrewTwice(s0, s1, fs, dp);
      var inum := de[0] as nat + 0x100 * (de[1] as nat);
      EntryIs(c, name, e, de);
      if inum != 0 && NameCmp(name, de[2..], 0) {
        return Found(inum);
      }
      off, e := off + 16, e + 1;
    }
    NoneBehind(c, name, e);
    return Missing;
  }

  lemma EntryIs(c: seq<Byte>, name: seq<Byte>, e: nat, de: seq<Byte>)
    requires 16 * e + 16 <= |c| && de == c[16 * e..16 * e + 16]
    ensures de[0] as nat + 0x100 * (de[1] as nat) == EntryInum(c, e)
    ensures Matches(c, name, e) <==> EntryInum(c, e) != 0 && NameCmp(name, de[2..], 0)
  {
    assert de[2..] == EntryName(c, e);
  }

  lemma NoneBehind(c: seq<Byte>, name: seq<Byte>, e: nat)
    requires NoneBefore(c, name, e) && 16 * e >= |c|
    ensures forall d: nat :: !Matches(c, name, d)
  {
  }

  lemma BytesTwice(s0: Fs, s1: Fs, s2: Fs)
    requires SameBytes(s0, s1) && SameBytes(s1, s2)
    ensures SameBytes(s0, s2)
  {
    hide FileByte;
  }

  lemma NothingGrew(fs: FileSys, i: nat)
    requires i < |fs.inodes|
    ensures fs.Grew(fs.State(), i) && SameBytes(fs.State(), fs.State())
  {
  }

  lemma GrewTwice(s0: Fs, s1: Fs, fs: FileSys, i: nat)
    requires |s0.inodes| == |s1.inodes| && i < |s0.inodes| && s1.inodes == s0.inodes[i := s1.inodes[i]]
    requires s1.inodes[i].typ == s0.inodes[i].typ && s1.inodes[i].size == s0.inodes[i].size
    requires forall j: nat, l: nat :: j < |s0.inodes| && l <= IND && At(s0, j, l) != 0 ==> At(s1, j, l) == At(s0, j, l)
    requires fs.Grew(s1, i)
    ensures fs.Grew(s0, i)
  {
    hide At;
  }

  lemma StillMissing(s0: Fs, s1: Fs, i: nat, off: nat, n: nat)
    requires i < |s0.inodes| == |s1.inodes| && !Filled(s1, i, off, n)
    requires forall j: nat, l: nat :: j < |s0.inodes| && l <= IND && At(s0, j, l) != 0 ==> At(s1, j, l) == At(s0, j, l)
    ensures !Filled(s0, i, off, n)
  {
    hide At;
  }

  // ---- The root directory -------------------------------------------------------------------------

  lemma DirentIs(inum: nat, name: seq<Byte>)
    requires inum < 0x10000
    ensures EntryInum(Mkfs.Dirent(inum, name), 0) == inum && EntryName(Mkfs.Dirent(inum, name), 0) == Field(name)
  {
  }

  /** Entry e of the first k files' directory: the root twice, then the files in order. */
  function NameOf(files: seq<Input>, e: nat): seq<Byte>
    requires e < |files| + 2
  {
    if e == 0 then [46] else if e == 1 then [46, 46] else files[e - 2].name
  }

  function InumOf(e: nat): nat {
    if e < 2 then ROOTINO else e
  }

  lemma {:induction false} RootEntry(files: seq<Input>, k: nat, e: nat)
    requires k <= |files| < 0x8000 && e < k + 2
    ensures 16 * e + 16 <= |RootEntries(files, k)|
    ensures EntryInum(RootEntries(files, k), e) == InumOf(e)
    ensures EntryName(RootEntries(files, k), e) == Field(NameOf(files, e))
    decreases k
  {
    hide Mkfs.Dirent, Field;
    RootLength(files, k);
    var c := RootEntries(files, k);
    if k == 0 {
      DotEntries(e);
    } else {
      RootLength(files, k - 1);
      var a, b := RootEntries(files, k - 1), Mkfs.Dirent(k + 1, files[k - 1].name);
      if e == k + 1 {
        DirentIs(k + 1, files[k - 1].name);
        AtEnd(a, b);
      } else {
        RootEntry(files, k - 1, e);
        InFront(a, b, e);
      }
    }
  }

  lemma DotEntries(e: nat)
    requires e < 2
    ensures var c := Mkfs.Dirent(ROOTINO, [46]) + Mkfs.Dirent(ROOTINO, [46, 46]);
            EntryInum(c, e) == ROOTINO && EntryName(c, e) == Field(if e == 0 then [46] else [46, 46])
  {
    hide Mkfs.Dirent, Field;
    var a, b := Mkfs.Dirent(ROOTINO, [46]), Mkfs.Dirent(ROOTINO, [46, 46]);
    DirentIs(ROOTINO, [46]);
    DirentIs(ROOTINO, [46, 46]);
    if e == 0 {
      InFront(a, b, 0);
    } else {
      AtEnd(a, b);
    }
  }

  lemma AtEnd(a: seq<Byte>, b: seq<Byte>)
    requires |a| % 16 == 0 && |b| == 16
    ensures var e := |a| / 16; EntryInum(a + b, e) == EntryInum(b, 0) && EntryName(a + b, e) == EntryName(b, 0)
  {
    assert EntryName(a + b, |a| / 16) == b[2..16];
  }

  lemma InFront(a: seq<Byte>, b: seq<Byte>, e: nat)
    requires 16 * e + 16 <= |a|
    ensures EntryInum(a + b, e) == EntryInum(a, e) && EntryName(a + b, e) == EntryName(a, e)
  {
  }

  /** Names as mkfs gets them on its command line. */
  predicate CStrings(files: seq<Input>) {
    forall f :: 0 <= f < |files| ==> 0 !in files[f].name
  }

  /** Which entries of the finished root directory have a name. */
  lemma RootMatches(files: seq<Input>, s: Fs, name: seq<Byte>, e: nat)
    requires |files| + 2 <= NINODES && Finished(files, s) && CStrings(files) && 0 !in name
    ensures Matches(Contents(s, ROOTINO), name, e) <==> e < |files| + 2 && Cut(NameOf(files, e)) == Cut(name)
    ensures e < |files| + 2 ==>
              && 16 * e + 16 <= |RootEntries(files, |files|)| <= |Contents(s, ROOTINO)|
              && EntryInum(Contents(s, ROOTINO), e) == InumOf(e)
  {
    hide Contents, Filled, NameCmp, Cut, Field, Mkfs.Dirent;
    var a := RootEntries(files, |files|);
    RootLength(files, |files|);
    var z := ZeroBytes(Rounded(|a|) - |a|);
    if e < |files| + 2 {
      RootEntry(files, |files|, e);
      InFront(a, z, e);
      assert 0 !in NameOf(files, e);
      assert name[..0] == NameOf(files, e)[..0];
      CmpIsCut(name, NameOf(files, e), 0);
    } else if 16 * e + 16 <= |a + z| {
      assert (a + z)[16 * e] == 0 && (a + z)[16 * e + 1] == 0;
    }
  }

  /**
   A file given to mkfs, opened by name: the kernel finds its inode in the root directory and reads
   its bytes, also when the directory ends in a hole.
   */
  method ReadByName(files: seq<Input>, f: nat) returns (ok: bool, dst: seq<Byte>)
    requires |files| + 2 <= NINODES && f < |files| && CStrings(files)
    requires forall e: nat :: e < f + 2 ==> Cut(NameOf(files, e)) != Cut(files[f].name)
    ensures ok <==> Fits(files)
    ensures ok ==> dst == files[f].data
  {
    hide Contents, Allocated, At, Mkfs.Fits, Needed, FileByte, SameBytes, Filled, Matches, Cut;
    var m;
    ok, m := Build(files);
    if !ok {
      return false, [];
    }
    var fs := new FileSys(SB, m.sectors, m.inodes, m.owner);
    ghost var s := fs.State();
    assert FileFinished(files, s, f) && RootFinished(RootEntries(files, |files|), s);
    RootFits(files, s);
    var r := Dirlookup(fs, ROOTINO, files[f].name);
    FoundIt(files, s, f, r);
    StillThere(s, fs, f + 2);
    SameContents(s, fs.State(), f + 2);
    LengthIsSize(fs.State(), f + 2);
    var got;
    got, dst := fs.Readi(r.inum, 0, fs.inodes[r.inum].size);
  }

  lemma RootFits(files: seq<Input>, s: Fs)
    requires |files| + 2 <= NINODES && ROOTINO < |s.inodes| && RootFinished(RootEntries(files, |files|), s)
    ensures s.inodes[ROOTINO].size <= MAXBYTES && s.inodes[ROOTINO].size % 16 == 0
  {
    hide Contents, Filled, RootEntries;
    RootLength(files, |files|);
    RoundedFits(16 * (|files| + 2));
  }

  lemma RoundedFits(n: nat)
    requires n <= 16 * NINODES
    ensures n <= Rounded(n) <= MAXBYTES && Rounded(n) % 16 == 0
  {
    assert n / BSIZE <= 6;
    assert Rounded(n) == 16 * (32 * (n / BSIZE + 1));
  }

  lemma StillThere(s: Fs, fs: FileSys, i: nat)
    requires i < |s.inodes| && HoleFree(s, i) && fs.Grew(s, ROOTINO) && i != ROOTINO
    ensures fs.inodes[i] == s.inodes[i] && HoleFree(fs.State(), i)
  {
    hide At;
  }

  /** What dirlookup answers, on the finished image, for the name of file f. */
  lemma FoundIt(files: seq<Input>, s: Fs, f: nat, r: Lookup)
    requires |files| + 2 <= NINODES && f < |files| && CStrings(files) && Finished(files, s)
    requires forall e: nat :: e < f + 2 ==> Cut(NameOf(files, e)) != Cut(files[f].name)
    requires var c, name := Contents(s, ROOTINO), files[f].name;
             && (r.Missing? ==> forall e: nat :: !Matches(c, name, e))
             && (r.Found? ==>
                   exists e: nat :: Matches(c, name, e) && NoneBefore(c, name, e) && r.inum == EntryInum(c, e))
             && (r.Stuck? ==>
                   exists e: nat :: 16 * e < |c| && NoneBefore(c, name, e) && !Filled(s, ROOTINO, 16 * e, 16))
    ensures r == Found(f + 2)
  {
    hide Contents, Matches, Cut, Filled;
    var c, name := Contents(s, ROOTINO), files[f].name;
    RootMatches(files, s, name, f + 2);
    assert Matches(c, name, f + 2);
    match r
    case Missing => assert false;
    case Found(_) =>
      var e: nat :| Matches(c, name, e) && NoneBefore(c, name, e) && r.inum == EntryInum(c, e);
      RootMatches(files, s, name, e);
    case Stuck =>
      var e: nat :| 16 * e < |c| && NoneBefore(c, name, e) && !Filled(s, ROOTINO, 16 * e, 16);
      PartFilled(s, ROOTINO, |RootEntries(files, |files|)|, 16 * e, 16);
      assert false;
  }

  lemma PartFilled(s: Fs, i: nat, n: nat, off: nat, m: nat)
    requires Filled(s, i, 0, n) && off + m <= n
    ensures Filled(s, i, off, m)
  {
    hide At;
    assert forall k: nat :: InSpan(k, off, m) ==> InSpan(k, 0, n);
  }
}
