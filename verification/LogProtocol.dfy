/**
 Every interleaving of the logging system calls of log.c, with crashes, as a transition system.

 Any number of file system operations run at once.  Each step below is one section of log.c that
 is atomic (it runs under log.lock, or it is one block written to the disk), or one thing the
 buffer cache may do on its own between two such sections.  A crash may come between any two
 steps, including in the middle of the recovery from an earlier crash.

 `hist` records every block update handed to log_write, and `committed` says how many of them the
 disk holds for good.  These two fields, `nextOp` and `active` are bookkeeping that log.c does not
 have; no other field is computed from `hist` or `committed`.
 */
module LogProtocol {
  import opened Common
  import opened Blocks
  import opened LogFormat

  /** A running operation: log slots it has taken, and whether it is past log_write's size test. */
  datatype Op = Op(spent: nat, checked: bool)

  datatype Event = Event(op: nat, b: nat, data: Block)

  /** Where the one process that is in commit() or recover_from_log() stands. */
  datatype Pc =
    | Idle
    | Logging(k: nat)      // write_log: k blocks copied to the log
    | Installing(k: nat)   // install_trans after the commit point: k blocks installed
    | Erased               // header cleared, log.committing still set
    | Boot                 // just restarted
    | Replaying(k: nat)    // install_trans inside recover_from_log

  datatype State = State(
    disk: Image,
    cache: map<nat, Block>,   // valid buffers
    dirty: set<nat>,          // the buffers with B_DIRTY set
    lh: seq<nat>,             // log.lh.block[0 .. log.lh.n]
    outstanding: nat,
    committing: bool,
    pc: Pc,
    active: map<nat, Op>,
    nextOp: nat,
    hist: seq<Event>,
    committed: nat
  ) {
    /** What a bread of block b returns. */
    function View(b: nat): Block
      requires b < |disk|
    {
      if b in cache then cache[b] else disk[b]
    }
  }

  /** The home contents after a list of block updates. */
  function Replay(base: Image, hist: seq<Event>): Image
    requires forall i :: 0 <= i < |hist| ==> hist[i].b < |base|
    ensures |Replay(base, hist)| == |base|
    decreases |hist|
  {
    if hist == [] then base
    else
      var e := hist[|hist| - 1];
      Replay(base, hist[..|hist| - 1])[e.b := e.data]
  }

  datatype Step =
    | Begin
    | Check(o: nat)
    | Append(o: nat, b: nat, data: Block)
    | Finish(o: nat)
    | Fill(b: nat)
    | Evict(b: nat)
    | LogBlock
    | WriteHead
    | InstallBlock
    | EraseHead
    | EndCommit
    | ReadHead
    | Crash

  predicate Enabled(c: Layout, s: State, step: Step) {
    match step
    // begin_op, third branch; in the other two the caller sleeps
    case Begin => s.pc == Idle && !s.committing && |s.lh| + (s.outstanding + 1) * MAXOPBLOCKS <= LOGSIZE
    // log_write up to the acquire: a failed test panics, which is a Crash step
    case Check(o) =>
      && o in s.active && !s.active[o].checked
      && !(|s.lh| >= LOGSIZE || |s.lh| >= c.size - 1)
      && s.outstanding >= 1
    // the rest of log_write, by a caller that stays within its MAXOPBLOCKS
    case Append(o, b, data) =>
      && o in s.active && s.active[o].checked
      && c.Home(b) && b < |s.disk|
      && (b in s.lh || s.active[o].spent < MAXOPBLOCKS)
    // end_op up to its first release
    case Finish(o) => o in s.active && !s.active[o].checked && s.outstanding >= 1
    // bread of a block that is not cached, such as the superblock's before recovery
    case Fill(b) => b < |s.disk| && b !in s.cache
    // bget recycles a buffer
    case Evict(b) => b in s.cache && b !in s.dirty
    case LogBlock => s.pc.Logging? && s.pc.k < |s.lh| && c.start + s.pc.k + 1 < |s.disk| && s.lh[s.pc.k] < |s.disk|
    case WriteHead => s.pc == Logging(|s.lh|) && Writable(c, s)
    case InstallBlock =>
      && (s.pc.Installing? || s.pc.Replaying?) && s.pc.k < |s.lh|
      && c.start + s.pc.k + 1 < |s.disk| && s.lh[s.pc.k] < |s.disk|
    case EraseHead => (s.pc == Installing(|s.lh|) || s.pc == Replaying(|s.lh|)) && Writable(c, s)
    case EndCommit => s.pc == Erased
    case ReadHead => s.pc == Boot && c.start < |s.disk| && Word(s.View(c.start), 0) <= LOGSIZE
    case Crash => s.committed <= |s.hist|
  }

  predicate Writable(c: Layout, s: State) {
    c.start < |s.disk| && |s.lh| <= LOGSIZE && forall i :: 0 <= i < |s.lh| ==> s.lh[i] < UINT_LIMIT
  }

  /** bwrite: the buffer and the disk now agree, and B_DIRTY is clear. */
  function Bwrite(s: State, b: nat, data: Block): State
    requires b < |s.disk|
  {
    s.(disk := s.disk[b := data], cache := s.cache[b := data], dirty := s.dirty - {b})
  }

  function Apply(c: Layout, s: State, step: Step): State
    requires Enabled(c, s, step)
  {
    match step
    case Begin =>
      s.(outstanding := s.outstanding + 1, active := s.active[s.nextOp := Op(0, false)], nextOp := s.nextOp + 1)
    case Check(o) =>
      s.(active := s.active[o := s.active[o].(checked := true)])
    case Append(o, b, data) =>
      var absorbed := b in s.lh;
      s.(cache := s.cache[b := data], dirty := s.dirty + {b},
         lh := if absorbed then s.lh else s.lh + [b],
         active := s.active[o := Op(s.active[o].spent + (if absorbed then 0 else 1), false)],
         hist := s.hist + [Event(o, b, data)])
    case Finish(o) =>
      var t := s.(outstanding := s.outstanding - 1, active := s.active - {o});
      if t.outstanding > 0 then t
      else t.(committing := true, pc := if |s.lh| > 0 then Logging(0) else Erased)
    case Fill(b) => s.(cache := s.cache[b := s.disk[b]])
    case Evict(b) => s.(cache := s.cache - {b})
    case LogBlock =>
      Bwrite(s, c.start + s.pc.k + 1, s.View(s.lh[s.pc.k])).(pc := Logging(s.pc.k + 1))
    case WriteHead =>
      Bwrite(s, c.start, EncodeHeader(s.View(c.start), s.lh)).(pc := Installing(0), committed := |s.hist|)
    case InstallBlock =>
      var t := Bwrite(s, s.lh[s.pc.k], s.View(c.start + s.pc.k + 1));
      t.(pc := if s.pc.Installing? then Installing(s.pc.k + 1) else Replaying(s.pc.k + 1))
    case EraseHead =>
      var t := Bwrite(s, c.start, EncodeHeader(s.View(c.start), []));
      t.(lh := [], pc := if s.pc.Installing? then Erased else Idle)
    case EndCommit => s.(committing := false, pc := Idle)
    case ReadHead => s.(lh := HeaderBlocks(s.View(c.start)), pc := Replaying(0))
    case Crash =>
      State(s.disk, map[], {}, [], 0, false, Boot, map[], s.nextOp, s.hist[..s.committed], s.committed)
  }

  /** A machine switched on with disk image d. */
  function Initial(d: Image): State {
    State(d, map[], {}, [], 0, false, Boot, map[], 0, [], 0)
  }

  /** The state after a list of steps, if every one of them was possible. */
  function Run(c: Layout, s: State, steps: seq<Step>): Option<State>
    decreases |steps|
  {
    if steps == [] then Some(s)
    else
      var before := Run(c, s, steps[..|steps| - 1]);
      if before.Some? && Enabled(c, before.value, steps[|steps| - 1])
      then Some(Apply(c, before.value, steps[|steps| - 1]))
      else None
  }

  // ---------- Log space ----------

  /** Log slots that running operations have reserved and not used. */
  ghost function Unspent(active: map<nat, Op>): int
    decreases |active|
  {
    if active == map[] then 0
    else
      var o :| o in active;
      MAXOPBLOCKS - active[o].spent + Unspent(active - {o})
  }

  lemma {:induction false} UnspentWithout(active: map<nat, Op>, o: nat)
    requires o in active
    ensures Unspent(active) == MAXOPBLOCKS - active[o].spent + Unspent(active - {o})
    decreases |active|
  {
    var p :| p in active && Unspent(active) == MAXOPBLOCKS - active[p].spent + Unspent(active - {p});
    if p != o {
      UnspentWithout(active - {p}, o);
      UnspentWithout(active - {o}, p);
      assert active - {p} - {o} == active - {o} - {p};
    }
  }

  lemma UnspentWith(active: map<nat, Op>, o: nat, op: Op)
    requires o !in active
    ensures Unspent(active[o := op]) == Unspent(active) + MAXOPBLOCKS - op.spent
  {
    UnspentWithout(active[o := op], o);
    assert active[o := op] - {o} == active;
  }

  lemma UnspentUpdate(active: map<nat, Op>, o: nat, op: Op)
    requires o in active
    ensures Unspent(active[o := op]) == Unspent(active) + active[o].spent - op.spent
  {
    UnspentWithout(active, o);
    UnspentWithout(active[o := op], o);
    assert active[o := op] - {o} == active - {o};
  }

  lemma {:induction false} UnspentBounds(active: map<nat, Op>)
    requires forall o :: o in active ==> active[o].spent <= MAXOPBLOCKS
    ensures 0 <= Unspent(active) <= |active| * MAXOPBLOCKS
    decreases |active|
  {
    if active != map[] {
      var p :| p in active && Unspent(active) == MAXOPBLOCKS - active[p].spent + Unspent(active - {p});
      UnspentBounds(active - {p});
    }
  }

  /** Reservations are honoured: the log in memory plus everything still promised fits LOGSIZE. */
  ghost predicate SpaceInv(s: State) {
    && s.outstanding == |s.active|
    && (forall o :: o in s.active ==> s.active[o].spent <= MAXOPBLOCKS && o < s.nextOp)
    && |s.lh| + Unspent(s.active) <= LOGSIZE
    && (s.pc != Idle ==> s.active == map[])
    && (s.committing <==> s.pc.Logging? || s.pc.Installing? || s.pc == Erased)
  }

  lemma SpaceBegin(c: Layout, s: State)
    requires SpaceInv(s) && Enabled(c, s, Begin)
    ensures SpaceInv(Apply(c, s, Begin))
  {
    UnspentBounds(s.active);
    UnspentWith(s.active, s.nextOp, Op(0, false));
  }

  lemma SpaceCheck(c: Layout, s: State, o: nat)
    requires SpaceInv(s) && Enabled(c, s, Check(o))
    ensures SpaceInv(Apply(c, s, Check(o)))
  {
    UnspentUpdate(s.active, o, s.active[o].(checked := true));
    assert s.active[o := s.active[o].(checked := true)].Keys == s.active.Keys;
  }

  lemma SpaceAppend(c: Layout, s: State, o: nat, b: nat, data: Block)
    requires SpaceInv(s) && Enabled(c, s, Append(o, b, data))
    ensures SpaceInv(Apply(c, s, Append(o, b, data)))
  {
    var t := Apply(c, s, Append(o, b, data));
    UnspentUpdate(s.active, o, t.active[o]);
    assert t.active.Keys == s.active.Keys;
  }

  lemma SpaceFinish(c: Layout, s: State, o: nat)
    requires SpaceInv(s) && Enabled(c, s, Finish(o))
    ensures SpaceInv(Apply(c, s, Finish(o)))
  {
    UnspentWithout(s.active, o);
    assert (s.active - {o}).Keys == s.active.Keys - {o};
  }

  lemma SpaceKept(c: Layout, s: State, step: Step)
    requires SpaceInv(s) && Enabled(c, s, step)
    ensures SpaceInv(Apply(c, s, step))
  {
    match step
    case Begin => SpaceBegin(c, s);
    case Check(o) => SpaceCheck(c, s, o);
    case Append(o, b, data) => SpaceAppend(c, s, o, b, data);
    case Finish(o) => SpaceFinish(c, s, o);
    case _ =>
  }

  // ---------- Contents ----------

  ghost predicate EventsHome(c: Layout, s: State) {
    s.committed <= |s.hist| && forall i :: 0 <= i < |s.hist| ==> c.Home(s.hist[i].b)
  }

  /** The home contents once every update so far is counted. */
  function Now(c: Layout, base: Image, s: State): Image
    requires |base| == c.nblocks && EventsHome(c, s)
  {
    Replay(base, s.hist)
  }

  /** The home contents made of the committed updates alone. */
  function Kept(c: Layout, base: Image, s: State): Image
    requires |base| == c.nblocks && EventsHome(c, s)
  {
    Replay(base, s.hist[..s.committed])
  }

  /** A clean buffer agrees with the disk. */
  ghost predicate Coherent(c: Layout, s: State) {
    && s.dirty <= s.cache.Keys
    && forall b :: b in s.cache ==> b < |s.disk| && (b !in s.dirty ==> s.cache[b] == s.disk[b])
  }

  ghost predicate Shape(c: Layout, base: Image, s: State) {
    && GoodImage(c, s.disk)
    && |base| == c.nblocks
    && EventsHome(c, s)
    && Coherent(c, s)
    && |s.lh| <= LOGSIZE
    && Distinct(s.lh)
    && forall i :: 0 <= i < |s.lh| ==> c.Home(s.lh[i])
  }

  ghost predicate ViewIsNow(c: Layout, base: Image, s: State)
    requires Shape(c, base, s)
  {
    forall b: nat :: c.Home(b) ==> s.View(b) == Now(c, base, s)[b]
  }

  /** Exactly the logged blocks are pinned, and every update not yet committed is to one of them. */
  ghost predicate Pinned(s: State) {
    && (forall b :: b in s.dirty <==> b in s.lh)
    && forall i :: 0 <= s.committed <= i < |s.hist| ==> s.hist[i].b in s.lh
  }

  ghost predicate EmptyHeader(c: Layout, s: State)
    requires c.start < |s.disk|
  {
    Word(s.disk[c.start], 0) == 0
  }

  /** Room for the blocks already logged, and for one more while some caller is past the size test. */
  ghost predicate Room(c: Layout, s: State) {
    && |s.lh| <= c.size - 1
    && (c.size > LOGSIZE || forall o :: o in s.active && s.active[o].checked ==> |s.lh| < c.size - 1)
  }

  ghost predicate Phase(c: Layout, base: Image, s: State)
    requires Shape(c, base, s)
  {
    match s.pc
    case Idle => EmptyHeader(c, s) && Pinned(s) && ViewIsNow(c, base, s) && Room(c, s)
    case Logging(k) =>
      && EmptyHeader(c, s) && Pinned(s) && ViewIsNow(c, base, s)
      && k <= |s.lh| <= c.size - 1
      && forall i :: 0 <= i < k ==> s.disk[c.start + 1 + i] == s.View(s.lh[i])
    case Installing(k) =>
      && HeaderBlocks(s.disk[c.start]) == s.lh
      && ViewIsNow(c, base, s)
      && s.committed == |s.hist|
      && k <= |s.lh|
      && (forall b :: b in s.dirty ==> b in s.lh[k..])
      && forall i :: 0 <= i < |s.lh| ==> s.disk[c.start + 1 + i] == Now(c, base, s)[s.lh[i]]
    case Erased => EmptyHeader(c, s) && s.lh == [] && Pinned(s) && ViewIsNow(c, base, s) && s.committed == |s.hist|
    case Boot => s.committed == |s.hist| && s.dirty == {} && s.lh == []
    case Replaying(k) =>
      && HeaderBlocks(s.disk[c.start]) == s.lh
      && s.committed == |s.hist|
      && s.dirty == {}
      && k <= |s.lh|
      && forall i :: 0 <= i < k ==> s.disk[s.lh[i]] == s.disk[c.start + 1 + i]
  }

  ghost predicate DataInv(c: Layout, base: Image, s: State) {
    && Shape(c, base, s)
    && RecoversTo(c, s.disk, Kept(c, base, s))
    && Phase(c, base, s)
  }

  /** At most one caller is between log_write's size test and its append. */
  ghost predicate Serial(s: State) {
    forall o, p :: o in s.active && p in s.active && s.active[o].checked && s.active[p].checked ==> o == p
  }

  /** The size test cannot be outrun: the log is longer than LOGSIZE, or the tests are not concurrent. */
  ghost predicate GuardHolds(c: Layout, s: State) {
    c.size > LOGSIZE || Serial(s)
  }

  lemma EmptyRecovers(c: Layout, d: Image, b: nat)
    requires GoodImage(c, d) && Word(d[c.start], 0) == 0 && c.Home(b)
    ensures RecoveredBlock(c, d, b) == d[b]
  {
  }

  lemma ReplayOne(base: Image, hist: seq<Event>, e: Event)
    requires forall i :: 0 <= i < |hist| ==> hist[i].b < |base|
    requires e.b < |base|
    ensures Replay(base, hist + [e]) == Replay(base, hist)[e.b := e.data]
  {
    assert (hist + [e])[..|hist|] == hist;
  }

  lemma AppendShape(c: Layout, base: Image, s: State, o: nat, b: nat, data: Block)
    requires DataInv(c, base, s) && SpaceInv(s) && Enabled(c, s, Append(o, b, data))
    ensures Shape(c, base, Apply(c, s, Append(o, b, data)))
  {
    hide Word, HeaderBlocks, RecoveredBlock, Replay;
    var t := Apply(c, s, Append(o, b, data));
    SpaceAppend(c, s, o, b, data);
    UnspentBounds(t.active);
  }

  lemma AppendView(c: Layout, base: Image, s: State, o: nat, b: nat, data: Block)
    requires DataInv(c, base, s) && s.pc == Idle && Enabled(c, s, Append(o, b, data))
    requires Shape(c, base, Apply(c, s, Append(o, b, data)))
    ensures ViewIsNow(c, base, Apply(c, s, Append(o, b, data)))
    ensures Kept(c, base, Apply(c, s, Append(o, b, data))) == Kept(c, base, s)
  {
    hide Word, HeaderBlocks, RecoveredBlock, Replay, Pinned, Room, GoodHeader;
    var t := Apply(c, s, Append(o, b, data));
    ReplayOne(base, s.hist, Event(o, b, data));
    assert t.hist[..t.committed] == s.hist[..s.committed];
  }

  lemma AppendPins(s: State, c: Layout, o: nat, b: nat, data: Block)
    requires Pinned(s) && Enabled(c, s, Append(o, b, data))
    ensures Pinned(Apply(c, s, Append(o, b, data)))
  {
  }

  /** The size test still holds at the append, because nobody else appended in between. */
  lemma AppendRoom(c: Layout, s: State, o: nat, b: nat, data: Block)
    requires Room(c, s) && SpaceInv(s) && GuardHolds(c, s) && Enabled(c, s, Append(o, b, data))
    ensures Room(c, Apply(c, s, Append(o, b, data)))
  {
    SpaceAppend(c, s, o, b, data);
    UnspentBounds(Apply(c, s, Append(o, b, data)).active);
  }

  lemma AppendKeeps(c: Layout, base: Image, s: State, o: nat, b: nat, data: Block)
    requires DataInv(c, base, s) && SpaceInv(s) && Enabled(c, s, Append(o, b, data)) && GuardHolds(c, s)
    ensures DataInv(c, base, Apply(c, s, Append(o, b, data)))
  {
    hide Word, HeaderBlocks, RecoveredBlock, Replay, Kept, Now;
    AppendShape(c, base, s, o, b, data);
    AppendView(c, base, s, o, b, data);
    AppendPins(s, c, o, b, data);
    AppendRoom(c, s, o, b, data);
  }

  lemma OpsKeep(c: Layout, base: Image, s: State, step: Step)
    requires DataInv(c, base, s) && SpaceInv(s) && Enabled(c, s, step)
    requires step.Begin? || step.Check? || step.EndCommit?
    ensures DataInv(c, base, Apply(c, s, step))
  {
    hide Word, PutWord, EncodeHeader, HeaderBlocks, RecoveredBlock, Replay, Unspent;
    var t := Apply(c, s, step);
    assert Shape(c, base, t);
    assert Kept(c, base, t) == Kept(c, base, s);
    assert forall b: nat :: c.Home(b) ==> t.View(b) == s.View(b);
  }

  lemma FinishKeeps(c: Layout, base: Image, s: State, o: nat)
    requires DataInv(c, base, s) && SpaceInv(s) && Enabled(c, s, Finish(o))
    ensures DataInv(c, base, Apply(c, s, Finish(o)))
  {
    hide Word, PutWord, EncodeHeader, HeaderBlocks, RecoveredBlock, Replay, Unspent;
    var t := Apply(c, s, Finish(o));
    assert Shape(c, base, t);
    assert Kept(c, base, t) == Kept(c, base, s);
    assert forall b: nat :: c.Home(b) ==> t.View(b) == s.View(b);
    assert s.committed < |s.hist| ==> s.hist[s.committed].b in s.lh;
  }

  lemma CacheShape(c: Layout, base: Image, s: State, step: Step)
    requires Shape(c, base, s) && Enabled(c, s, step)
    requires step.Fill? || step.Evict?
    ensures Shape(c, base, Apply(c, s, step))
    ensures forall b: nat :: b < |s.disk| ==> Apply(c, s, step).View(b) == s.View(b)
  {
    hide GoodImage, EncodeHeader, HeaderBlocks;
  }

  lemma CacheKeeps(c: Layout, base: Image, s: State, step: Step)
    requires DataInv(c, base, s) && Enabled(c, s, step)
    requires step.Fill? || step.Evict?
    ensures DataInv(c, base, Apply(c, s, step))
  {
    hide Word, EncodeHeader, HeaderBlocks, RecoversTo, GoodHeader, Replay;
    CacheShape(c, base, s, step);
    assert Kept(c, base, Apply(c, s, step)) == Kept(c, base, s);
  }

  /** A block write that leaves a good header leaves a well-formed state. */
  lemma BwriteShape(c: Layout, base: Image, s: State, w: nat, data: Block)
    requires Shape(c, base, s) && w < |s.disk|
    requires GoodHeader(c, s.disk[w := data][c.start])
    ensures Shape(c, base, Bwrite(s, w, data))
    ensures forall b: nat :: b < |s.disk| && b != w ==> Bwrite(s, w, data).View(b) == s.View(b)
  {
    hide GoodHeader;
  }

  lemma LogBlockRecovers(c: Layout, base: Image, s: State)
    requires DataInv(c, base, s) && Enabled(c, s, LogBlock)
    ensures Shape(c, base, Apply(c, s, LogBlock)) && ViewIsNow(c, base, Apply(c, s, LogBlock))
    ensures Kept(c, base, Apply(c, s, LogBlock)) == Kept(c, base, s)
    ensures RecoversTo(c, Apply(c, s, LogBlock).disk, Kept(c, base, s))
  {
    hide Word, HeaderBlocks, RecoveredBlock, Replay, Pinned;
    var t := Apply(c, s, LogBlock);
    assert t.disk[c.start] == s.disk[c.start];
    BwriteShape(c, base, s, c.start + s.pc.k + 1, s.View(s.lh[s.pc.k]));
    assert Shape(c, base, t);
    forall b: nat | c.Home(b)
      ensures t.View(b) == s.View(b) && RecoveredBlock(c, t.disk, b) == RecoveredBlock(c, s.disk, b)
    {
      EmptyRecovers(c, s.disk, b);
      EmptyRecovers(c, t.disk, b);
    }
  }

  lemma LogBlockKeeps(c: Layout, base: Image, s: State)
    requires DataInv(c, base, s) && Enabled(c, s, LogBlock)
    ensures DataInv(c, base, Apply(c, s, LogBlock))
  {
    hide Word, HeaderBlocks, RecoversTo, Replay, ViewIsNow, GoodHeader;
    var t := Apply(c, s, LogBlock);
    LogBlockRecovers(c, base, s);
    assert t.disk[c.start] == s.disk[c.start];
    assert forall i :: 0 <= i < |s.lh| ==> t.View(s.lh[i]) == s.View(s.lh[i]);
  }

  lemma WriteHeadRecovers(c: Layout, base: Image, s: State)
    requires DataInv(c, base, s) && Enabled(c, s, WriteHead)
    ensures var t := Apply(c, s, WriteHead);
            && Shape(c, base, t)
            && HeaderBlocks(t.disk[c.start]) == s.lh
            && ViewIsNow(c, base, t)
            && RecoversTo(c, t.disk, Now(c, base, t))
  {
    hide Word, EncodeHeader, Replay, HeaderBlocks;
    var t := Apply(c, s, WriteHead);
    HeaderRoundTrip(s.View(c.start), s.lh);
    assert Fits(c, s.lh);
    BwriteShape(c, base, s, c.start, EncodeHeader(s.View(c.start), s.lh));
    assert Shape(c, base, t);
    forall b: nat | c.Home(b)
      ensures t.View(b) == s.View(b) && RecoveredBlock(c, t.disk, b) == s.View(b)
    {
      if b !in s.lh {
        assert s.View(b) == s.disk[b];
      }
    }
  }

  lemma WriteHeadKeeps(c: Layout, base: Image, s: State)
    requires DataInv(c, base, s) && Enabled(c, s, WriteHead)
    ensures DataInv(c, base, Apply(c, s, WriteHead))
  {
    hide Word, EncodeHeader, HeaderBlocks, RecoversTo, Replay;
    var t := Apply(c, s, WriteHead);
    WriteHeadRecovers(c, base, s);
    assert t.hist[..t.committed] == t.hist;
    assert t.lh[0..] == t.lh;
    assert forall b :: c.start < b < c.start + c.size ==> t.disk[b] == s.disk[b];
  }

  /** Installing a block does not change what the image recovers to. */
  lemma InstallRecovers(c: Layout, d: Image, k: nat, b: nat)
    requires GoodImage(c, d) && k < |HeaderBlocks(d[c.start])| && c.Home(b)
    ensures var home := HeaderBlocks(d[c.start])[k];
            home < |d| && c.start + k + 1 < |d| &&
            GoodImage(c, d[home := d[c.start + k + 1]]) &&
            RecoveredBlock(c, d[home := d[c.start + k + 1]], b) == RecoveredBlock(c, d, b)
  {
    hide Word;
    var blocks := HeaderBlocks(d[c.start]);
    var d' := d[blocks[k] := d[c.start + k + 1]];
    assert d'[c.start] == d[c.start];
  }

  lemma InstallShape(c: Layout, base: Image, s: State)
    requires DataInv(c, base, s) && Enabled(c, s, InstallBlock)
    ensures Shape(c, base, Apply(c, s, InstallBlock))
    ensures s.View(c.start + s.pc.k + 1) == s.disk[c.start + s.pc.k + 1]
    ensures RecoversTo(c, Apply(c, s, InstallBlock).disk, Kept(c, base, s))
  {
    hide Word, HeaderBlocks, RecoveredBlock, Replay, ViewIsNow, Now;
    var t := Apply(c, s, InstallBlock);
    var k := s.pc.k;
    assert s.View(c.start + k + 1) == s.disk[c.start + k + 1];
    assert t.disk[c.start] == s.disk[c.start];
    forall b: nat | c.Home(b)
      ensures RecoveredBlock(c, t.disk, b) == RecoveredBlock(c, s.disk, b)
    {
      InstallRecovers(c, s.disk, k, b);
    }
  }

  lemma InstallView(c: Layout, base: Image, s: State)
    requires DataInv(c, base, s) && Enabled(c, s, InstallBlock) && s.pc.Installing?
    requires Shape(c, base, Apply(c, s, InstallBlock))
    requires s.View(c.start + s.pc.k + 1) == s.disk[c.start + s.pc.k + 1]
    ensures ViewIsNow(c, base, Apply(c, s, InstallBlock))
  {
    hide Word, HeaderBlocks, RecoversTo, Replay;
    var t := Apply(c, s, InstallBlock);
    assert forall b: nat :: c.Home(b) ==> t.View(b) == s.View(b);
  }

  /** Phase after one install, in a commit and in a recovery. */
  lemma InstallPhase(c: Layout, base: Image, s: State)
    requires DataInv(c, base, s) && Enabled(c, s, InstallBlock) && Shape(c, base, Apply(c, s, InstallBlock))
    requires s.View(c.start + s.pc.k + 1) == s.disk[c.start + s.pc.k + 1]
    requires s.pc.Installing? ==> ViewIsNow(c, base, Apply(c, s, InstallBlock))
    ensures Phase(c, base, Apply(c, s, InstallBlock))
  {
    hide Word, HeaderBlocks, Replay, RecoversTo, ViewIsNow;
    var t := Apply(c, s, InstallBlock);
    var k := s.pc.k;
    assert t.disk[c.start] == s.disk[c.start];
    assert forall b :: c.start <= b < c.start + c.size ==> t.disk[b] == s.disk[b];
    assert |s.lh| <= c.size - 1;
    if s.pc.Installing? {
      assert s.lh[k..] == [s.lh[k]] + s.lh[k + 1..];
    } else {
      assert forall i :: 0 <= i < k ==> t.disk[s.lh[i]] == s.disk[s.lh[i]];
    }
  }

  lemma InstallKeeps(c: Layout, base: Image, s: State)
    requires DataInv(c, base, s) && Enabled(c, s, InstallBlock)
    ensures DataInv(c, base, Apply(c, s, InstallBlock))
  {
    hide HeaderBlocks, RecoversTo, Phase, Shape, EncodeHeader, Word;
    InstallShape(c, base, s);
    if s.pc.Installing? {
      InstallView(c, base, s);
    }
    InstallPhase(c, base, s);
  }

  /** Once every block is installed, the disk holds at home what it recovers to. */
  lemma InstalledHome(c: Layout, base: Image, s: State, b: nat)
    requires DataInv(c, base, s) && Enabled(c, s, EraseHead) && c.Home(b)
    ensures s.disk[b] == Kept(c, base, s)[b] && s.View(b) == s.disk[b]
  {
    hide Word, EncodeHeader, Replay, Pinned, Room;
    assert s.hist[..s.committed] == s.hist;
    assert b !in s.dirty;
    assert s.View(b) == s.disk[b];
    if s.pc.Replaying? {
      assert RecoveredBlock(c, s.disk, b) == s.disk[b];
    }
  }

  lemma EraseKeeps(c: Layout, base: Image, s: State)
    requires DataInv(c, base, s) && SpaceInv(s) && Enabled(c, s, EraseHead)
    ensures DataInv(c, base, Apply(c, s, EraseHead))
  {
    hide Word, EncodeHeader, IndexOf, RecoveredBlock, Replay;
    var t := Apply(c, s, EraseHead);
    HeaderRoundTrip(s.View(c.start), []);
    assert Shape(c, base, t);
    assert s.hist[..s.committed] == s.hist;
    forall b: nat | c.Home(b)
      ensures RecoveredBlock(c, t.disk, b) == Kept(c, base, t)[b]
      ensures t.View(b) == Kept(c, base, t)[b]
    {
      InstalledHome(c, base, s, b);
      EmptyRecovers(c, t.disk, b);
    }
  }

  lemma CrashKeeps(c: Layout, base: Image, s: State, step: Step)
    requires DataInv(c, base, s) && Enabled(c, s, step)
    requires step.Crash? || step.ReadHead?
    ensures DataInv(c, base, Apply(c, s, step))
  {
    hide Word, PutWord, EncodeHeader;
    var t := Apply(c, s, step);
    assert Shape(c, base, t);
    assert t.hist[..t.committed] == s.hist[..s.committed];
  }

  lemma DataKept(c: Layout, base: Image, s: State, step: Step)
    requires DataInv(c, base, s) && SpaceInv(s) && Enabled(c, s, step)
    requires step.Append? ==> GuardHolds(c, s)
    ensures DataInv(c, base, Apply(c, s, step))
  {
    hide DataInv, SpaceInv, GuardHolds, Apply;
    match step
    case Append(o, b, data) => AppendKeeps(c, base, s, o, b, data);
    case Begin => OpsKeep(c, base, s, step);
    case Check(o) => OpsKeep(c, base, s, step);
    case Finish(o) => FinishKeeps(c, base, s, o);
    case EndCommit => OpsKeep(c, base, s, step);
    case Fill(b) => CacheKeeps(c, base, s, step);
    case Evict(b) => CacheKeeps(c, base, s, step);
    case LogBlock => LogBlockKeeps(c, base, s);
    case WriteHead => WriteHeadKeeps(c, base, s);
    case InstallBlock => InstallKeeps(c, base, s);
    case EraseHead => EraseKeeps(c, base, s);
    case ReadHead => CrashKeeps(c, base, s, step);
    case Crash => CrashKeeps(c, base, s, step);
  }

  // ---------- Whole operations ----------

  /** No operation has updates on both sides of the commit boundary, and those before it have ended. */
  ghost predicate WholeOps(s: State) {
    && s.committed <= |s.hist|
    && (forall i :: 0 <= i < |s.hist| ==> s.hist[i].op < s.nextOp)
    && (forall i :: 0 <= i < s.committed ==> s.hist[i].op !in s.active)
    && forall i, j :: 0 <= i < s.committed <= j < |s.hist| ==> s.hist[i].op != s.hist[j].op
  }

  lemma WholeFrame(s: State, t: State)
    requires WholeOps(s) && t.hist == s.hist && t.committed == s.committed && t.nextOp >= s.nextOp
    requires forall o :: o in t.active ==> o in s.active || o == s.nextOp
    ensures WholeOps(t)
  {
  }

  /** The steps that neither log, nor commit, nor crash. */
  lemma Steady(c: Layout, s: State, step: Step)
    requires Enabled(c, s, step) && !step.Append? && !step.WriteHead? && !step.Crash?
    ensures var t := Apply(c, s, step);
            && t.hist == s.hist && t.committed == s.committed && t.nextOp >= s.nextOp
            && forall o :: o in t.active ==> o in s.active || o == s.nextOp
  {
    hide Word, HeaderBlocks, EncodeHeader;
  }

  lemma WholeOpsKept(c: Layout, s: State, step: Step)
    requires WholeOps(s) && SpaceInv(s) && Enabled(c, s, step)
    ensures WholeOps(Apply(c, s, step))
  {
    hide Unspent, Word, HeaderBlocks, EncodeHeader;
    var t := Apply(c, s, step);
    if step.Append? {
      assert forall i :: 0 <= i < |s.hist| ==> t.hist[i] == s.hist[i];
    } else if !step.WriteHead? && !step.Crash? {
      hide Enabled, Apply, WholeOps;
      Steady(c, s, step);
      WholeFrame(s, t);
    }
  }

  /** The committed updates only ever grow: a crash does not take one back. */
  lemma CommittedGrows(c: Layout, s: State, step: Step)
    requires s.committed <= |s.hist| && Enabled(c, s, step)
    ensures var t := Apply(c, s, step);
            t.committed <= |t.hist| && s.hist[..s.committed] <= t.hist[..t.committed]
  {
    hide Word, HeaderBlocks, EncodeHeader;
  }

  ghost predicate Inv(c: Layout, base: Image, s: State) {
    SpaceInv(s) && DataInv(c, base, s) && WholeOps(s)
  }

  /** No append of the run is made while another caller is past the size test, unless the log is long. */
  ghost predicate Guarded(c: Layout, s: State, steps: seq<Step>)
    decreases |steps|
  {
    if steps == [] then true
    else
      var before := Run(c, s, steps[..|steps| - 1]);
      && Guarded(c, s, steps[..|steps| - 1])
      && (before.Some? && steps[|steps| - 1].Append? ==> GuardHolds(c, before.value))
  }

  lemma InitialInv(c: Layout, d: Image, base: Image)
    requires RecoversTo(c, d, base)
    ensures Inv(c, base, Initial(d))
  {
    hide Word, RecoveredBlock;
    var s := Initial(d);
    assert s.hist[..0] == [];
  }

  lemma {:induction false} RunInv(c: Layout, d: Image, base: Image, steps: seq<Step>)
    requires RecoversTo(c, d, base)
    requires Run(c, Initial(d), steps).Some? && Guarded(c, Initial(d), steps)
    ensures Inv(c, base, Run(c, Initial(d), steps).value)
    decreases |steps|
  {
    hide DataInv, SpaceInv, WholeOps, GuardHolds, Apply, Enabled;
    if steps == [] {
      InitialInv(c, d, base);
    } else {
      var k := |steps| - 1;
      var before := Run(c, Initial(d), steps[..k]).value;
      RunInv(c, d, base, steps[..k]);
      SpaceKept(c, before, steps[k]);
      DataKept(c, base, before, steps[k]);
      WholeOpsKept(c, before, steps[k]);
    }
  }

  /**
   Crash atomicity.  Whatever the machine did, the disk recovers to the updates of some whole
   operations: those, in order, that were committed, and nothing of any other.
   */
  lemma CrashAtomicity(c: Layout, d: Image, base: Image, steps: seq<Step>)
    requires RecoversTo(c, d, base)
    requires Run(c, Initial(d), steps).Some? && Guarded(c, Initial(d), steps)
    ensures var s := Run(c, Initial(d), steps).value;
            && WholeOps(s)
            && EventsHome(c, s)
            && RecoversTo(c, s.disk, Replay(base, s.hist[..s.committed]))
  {
    RunInv(c, d, base, steps);
  }

  /** The steps of a machine that does nothing but recover, crash and recover again. */
  predicate Recovery(step: Step) {
    step.Crash? || step.ReadHead? || step.InstallBlock? || step.EraseHead? || step.Fill? || step.Evict?
  }

  lemma {:induction false} RecoveryKeepsHistory(c: Layout, base: Image, s: State, steps: seq<Step>)
    requires Inv(c, base, s) && s.pc == Boot
    requires Run(c, s, steps).Some? && forall i :: 0 <= i < |steps| ==> Recovery(steps[i])
    ensures var t := Run(c, s, steps).value;
            Inv(c, base, t) && (t.pc == Boot || t.pc.Replaying? || t.pc == Idle) &&
            t.committed == |t.hist| && t.hist == s.hist
    decreases |steps|
  {
    hide DataInv, SpaceInv, WholeOps, GuardHolds, HeaderBlocks, EncodeHeader, Word;
    if steps == [] {
      assert s.committed == |s.hist| by { assert DataInv(c, base, s); BootHistory(c, base, s); }
    } else {
      var k := |steps| - 1;
      var before := Run(c, s, steps[..k]).value;
      RecoveryKeepsHistory(c, base, s, steps[..k]);
      SpaceKept(c, before, steps[k]);
      DataKept(c, base, before, steps[k]);
      WholeOpsKept(c, before, steps[k]);
    }
  }

  lemma BootHistory(c: Layout, base: Image, s: State)
    requires DataInv(c, base, s) && s.pc == Boot
    ensures s.committed == |s.hist|
  {
  }

  /** A machine at rest: every home block, on disk and as a bread sees it, holds all logged updates. */
  lemma RestingHome(c: Layout, base: Image, s: State, b: nat)
    requires DataInv(c, base, s) && s.pc == Idle && s.committed == |s.hist| && c.Home(b)
    ensures b < |s.disk| && s.disk[b] == Replay(base, s.hist)[b] == s.View(b)
  {
    hide Word, IndexOf, Replay;
    assert s.hist[..s.committed] == s.hist;
    EmptyRecovers(c, s.disk, b);
  }

  /**
   Recovery.  Crash at any moment, then crash any number of times more while recovering: once
   recover_from_log completes, the home blocks hold the committed updates and nothing else.
   */
  lemma RecoveryOutcome(c: Layout, d: Image, base: Image, steps: seq<Step>, retries: seq<Step>, b: nat)
    requires RecoversTo(c, d, base)
    requires Run(c, Initial(d), steps).Some? && Guarded(c, Initial(d), steps)
    requires forall i :: 0 <= i < |retries| ==> Recovery(retries[i])
    requires var s := Run(c, Initial(d), steps).value; s.committed <= |s.hist|
    requires var crashed := Apply(c, Run(c, Initial(d), steps).value, Crash);
             Run(c, crashed, retries).Some? && Run(c, crashed, retries).value.pc == Idle
    requires c.Home(b)
    ensures var s := Run(c, Initial(d), steps).value;
            var t := Run(c, Apply(c, s, Crash), retries).value;
            && EventsHome(c, s)
            && b < |t.disk|
            && t.disk[b] == t.View(b) == Replay(base, s.hist[..s.committed])[b]
  {
    hide Run, Replay, RecoversTo, Shape, Phase;
    RunInv(c, d, base, steps);
    var s := Run(c, Initial(d), steps).value;
    var crashed := Apply(c, s, Crash);
    SpaceKept(c, s, Crash);
    DataKept(c, base, s, Crash);
    WholeOpsKept(c, s, Crash);
    RecoveryKeepsHistory(c, base, crashed, retries);
    RestingHome(c, base, Run(c, crashed, retries).value, b);
    CommittedHome(c, base, s);
  }

  lemma CommittedHome(c: Layout, base: Image, s: State)
    requires DataInv(c, base, s)
    ensures EventsHome(c, s) && |base| == c.nblocks
  {
  }

  /** The header on the disk commits a transaction that contains block b. */
  ghost predicate CommittedHeader(c: Layout, d: Image, b: nat) {
    c.start < |d| && Word(d[c.start], 0) <= LOGSIZE && b in HeaderBlocks(d[c.start])
  }

  ghost predicate Moves(c: Layout, s: State, step: Step, b: nat) {
    && Enabled(c, s, step) && b < |s.disk| && b < |Apply(c, s, step).disk|
    && Apply(c, s, step).disk[b] != s.disk[b]
  }

  lemma HomeMoves(c: Layout, base: Image, s: State, step: Step, b: nat)
    requires Inv(c, base, s) && c.Home(b) && Moves(c, s, step, b)
    ensures step == InstallBlock && s.outstanding == 0 && CommittedHeader(c, s.disk, b)
  {
    hide Unspent, Replay, RecoversTo, ViewIsNow, Pinned, Room, EncodeHeader;
  }

  /**
   In every run only install_trans moves a home block on the disk: with a committed header naming
   that block on the disk, and with no operation running.
   */
  lemma HomeStable(c: Layout, d: Image, base: Image, steps: seq<Step>, step: Step, b: nat)
    requires RecoversTo(c, d, base) && c.Home(b)
    requires Run(c, Initial(d), steps).Some? && Guarded(c, Initial(d), steps)
    requires Moves(c, Run(c, Initial(d), steps).value, step, b)
    ensures var s := Run(c, Initial(d), steps).value;
            step == InstallBlock && s.outstanding == 0 && CommittedHeader(c, s.disk, b)
  {
    hide Moves, CommittedHeader, Run, Guarded, RecoversTo, Inv;
    RunInv(c, d, base, steps);
    HomeMoves(c, base, Run(c, Initial(d), steps).value, step, b);
  }

  /** In every run, end_op never finds a commit in progress, and log_write finds itself in a transaction. */
  lemma NoLogPanic(c: Layout, d: Image, base: Image, steps: seq<Step>, o: nat)
    requires RecoversTo(c, d, base)
    requires Run(c, Initial(d), steps).Some? && Guarded(c, Initial(d), steps)
    requires o in Run(c, Initial(d), steps).value.active
    ensures var s := Run(c, Initial(d), steps).value; !s.committing && s.outstanding >= 1
  {
    hide Run, Guarded, RecoversTo, Unspent, DataInv, WholeOps;
    RunInv(c, d, base, steps);
    assert Run(c, Initial(d), steps).value.active != map[];
  }

  /** In every run the cache may take a block in or give a clean one up, and no read tells the difference. */
  lemma CacheUnseen(c: Layout, d: Image, base: Image, steps: seq<Step>, step: Step, b: nat, x: nat)
    requires RecoversTo(c, d, base)
    requires Run(c, Initial(d), steps).Some? && Guarded(c, Initial(d), steps)
    requires (step == Fill(b) || step == Evict(b)) && Enabled(c, Run(c, Initial(d), steps).value, step)
    requires x < |Run(c, Initial(d), steps).value.disk|
    ensures var s := Run(c, Initial(d), steps).value;
            var t := Apply(c, s, step);
            && |t.disk| == |s.disk| && t.View(x) == s.View(x) && (b in t.cache <==> step.Fill?)
            && forall y :: y != b ==> (y in t.cache <==> y in s.cache)
  {
    hide Run, Guarded, RecoversTo, SpaceInv, WholeOps;
    RunInv(c, d, base, steps);
    CleanAgrees(c, base, Run(c, Initial(d), steps).value);
  }

  lemma CleanAgrees(c: Layout, base: Image, s: State)
    requires DataInv(c, base, s)
    ensures Coherent(c, s)
  {
  }

  /**
   What begin_op reserves is there: in a log of more than LOGSIZE blocks, an operation that has logged
   fewer than MAXOPBLOCKS new blocks never meets log_write's size test, whatever the others do.
   */
  lemma MayLog(c: Layout, d: Image, base: Image, steps: seq<Step>, o: nat, b: nat, data: Block)
    requires RecoversTo(c, d, base) && c.size > LOGSIZE
    requires Run(c, Initial(d), steps).Some? && Guarded(c, Initial(d), steps)
    requires var s := Run(c, Initial(d), steps).value;
             o in s.active && !s.active[o].checked && s.active[o].spent < MAXOPBLOCKS && c.Home(b)
    ensures var s := Run(c, Initial(d), steps).value;
            && Enabled(c, s, Check(o)) && Enabled(c, Apply(c, s, Check(o)), Append(o, b, data))
            && Enabled(c, s, Finish(o))
  {
    hide Run, Guarded, RecoversTo, WholeOps;
    RunInv(c, d, base, steps);
    var s := Run(c, Initial(d), steps).value;
    UnspentWithout(s.active, o);
    UnspentBounds(s.active - {o});
    assert s.active != map[];
  }

  /** In every run, when end_op returns after committing, everything logged so far is committed. */
  lemma CommitIsDurable(c: Layout, d: Image, base: Image, steps: seq<Step>)
    requires RecoversTo(c, d, base)
    requires Run(c, Initial(d), steps).Some? && Guarded(c, Initial(d), steps)
    requires Enabled(c, Run(c, Initial(d), steps).value, EndCommit)
    ensures var t := Apply(c, Run(c, Initial(d), steps).value, EndCommit); t.committed == |t.hist| && t.active == map[]
  {
    hide Run, Guarded, RecoversTo, Unspent, WholeOps;
    RunInv(c, d, base, steps);
  }

  lemma {:induction false} CommittedNeverLost(c: Layout, s: State, steps: seq<Step>)
    requires s.committed <= |s.hist| && Run(c, s, steps).Some?
    ensures var t := Run(c, s, steps).value;
            t.committed <= |t.hist| && s.hist[..s.committed] <= t.hist[..t.committed]
    decreases |steps|
  {
    hide Apply, Enabled;
    if steps != [] {
      var k := |steps| - 1;
      CommittedNeverLost(c, s, steps[..k]);
      CommittedGrows(c, Run(c, s, steps[..k]).value, steps[k]);
    }
  }
}
