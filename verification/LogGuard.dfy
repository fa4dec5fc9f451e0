/**
 Whether the size test at the top of log_write keeps the log inside its region.

 log_write compares log.lh.n with log.size - 1 before it takes log.lock and appends under the lock,
 so two callers can both pass the test when one slot is left.  The lemmas here say exactly for
 which log sizes that matters: crash atomicity holds over every run of LogProtocol if and only if
 the log has no data slot at all or has more than LOGSIZE blocks.
 */
module LogGuard {
  import opened Common
  import opened Blocks
  import opened LogFormat
  import opened LogProtocol

  /** The disk of state s recovers to whole committed operations over `base`. */
  ghost predicate Survives(c: Layout, base: Image, s: State) {
    && |base| == c.nblocks && EventsHome(c, s) && WholeOps(s)
    && RecoversTo(c, s.disk, Replay(base, s.hist[..s.committed]))
  }

  /** Crash atomicity of one run. */
  ghost predicate RunSurvives(c: Layout, d: Image, base: Image, steps: seq<Step>) {
    RecoversTo(c, d, base) && Run(c, Initial(d), steps).Some? ==>
      Survives(c, base, Run(c, Initial(d), steps).value)
  }

  // ---------- Sizes for which every run is safe ----------

  ghost predicate NonePast(s: State) {
    forall o :: o in s.active ==> !s.active[o].checked
  }

  lemma NonePastKept(c: Layout, s: State, step: Step)
    requires c.size == 1 && NonePast(s) && Enabled(c, s, step)
    ensures NonePast(Apply(c, s, step))
  {
    hide Word, HeaderBlocks, EncodeHeader, State.View;
  }

  /** With a single log block nobody ever passes the size test. */
  lemma {:induction false} NobodyPasses(c: Layout, d: Image, steps: seq<Step>)
    requires c.size == 1 && Run(c, Initial(d), steps).Some?
    ensures NonePast(Run(c, Initial(d), steps).value)
    decreases |steps|
  {
    hide Apply, Enabled;
    if steps != [] {
      var k := |steps| - 1;
      NobodyPasses(c, d, steps[..k]);
      NonePastKept(c, Run(c, Initial(d), steps[..k]).value, steps[k]);
    }
  }

  lemma {:induction false} AlwaysGuarded(c: Layout, d: Image, steps: seq<Step>)
    requires c.size == 1 || c.size > LOGSIZE
    requires Run(c, Initial(d), steps).Some?
    ensures Guarded(c, Initial(d), steps)
    decreases |steps|
  {
    hide Apply, Enabled;
    if steps != [] {
      AlwaysGuarded(c, d, steps[..|steps| - 1]);
      if c.size == 1 {
        NobodyPasses(c, d, steps[..|steps| - 1]);
      }
    }
  }

  // ---------- Sizes for which some run is not ----------

  lemma Extend(c: Layout, s: State, steps: seq<Step>, step: Step)
    requires Run(c, s, steps).Some? && Enabled(c, Run(c, s, steps).value, step)
    ensures Run(c, s, steps + [step]) == Some(Apply(c, Run(c, s, steps).value, step))
  {
    hide Apply, Enabled;
    assert (steps + [step])[..|steps|] == steps;
  }

  lemma RunNothing(c: Layout, s: State)
    ensures Run(c, s, []) == Some(s)
  {
  }

  /** An operation past or before the size test, having logged `spent` blocks. */
  ghost predicate Ops(s: State, o0: Op, o1: Op, o2: Op) {
    s.active == map[0 := o0, 1 := o1, 2 := o2]
  }

  /** Three operations are running and the first m blocks behind the log are logged with contents x. */
  ghost predicate Logged(c: Layout, n: nat, m: nat, x: Block, s: State) {
    && s.pc == Idle && !s.committing && s.outstanding == 3 && s.committed == 0
    && |s.disk| == n && c.start < n && Word(s.disk[c.start], 0) == 0
    && |s.lh| == m && (forall i :: 0 <= i < m ==> s.lh[i] == c.start + c.size + i)
    && (forall b :: c.start + c.size <= b < c.start + c.size + m ==> b in s.cache && s.cache[b] == x)
  }

  /** Restart on an image with an empty log, and begin three operations. */
  lemma Restarted(c: Layout, d: Image, x: Block) returns (steps: seq<Step>)
    requires c.Valid() && |d| == c.nblocks && Word(d[c.start], 0) == 0
    ensures Run(c, Initial(d), steps).Some?
    ensures Logged(c, c.nblocks, 0, x, Run(c, Initial(d), steps).value)
    ensures Ops(Run(c, Initial(d), steps).value, Op(0, false), Op(0, false), Op(0, false))
  {
    hide Word, PutWord, EncodeHeader, Run;
    var s := Initial(d);
    steps := [];
    assert Run(c, s, steps) == Some(s) by { RunNothing(c, s); }
    Extend(c, s, steps, ReadHead);
    steps := steps + [ReadHead];
    var s1 := Apply(c, s, ReadHead);
    assert s1.lh == [];
    HeaderRoundTrip(s1.View(c.start), []);
    Extend(c, s, steps, EraseHead);
    steps := steps + [EraseHead];
    steps := BegunThree(c, s, steps);
  }

  lemma BegunThree(c: Layout, s: State, prefix: seq<Step>) returns (steps: seq<Step>)
    requires Run(c, s, prefix).Some?
    requires var t := Run(c, s, prefix).value;
             t.pc == Idle && !t.committing && t.outstanding == 0 && t.lh == [] && t.active == map[] && t.nextOp == 0
    ensures Run(c, s, steps).Some?
    ensures var t := Run(c, s, prefix).value;
            Run(c, s, steps).value ==
            t.(outstanding := 3, nextOp := 3,
               active := map[0 := Op(0, false), 1 := Op(0, false), 2 := Op(0, false)])
  {
    hide Word, EncodeHeader, HeaderBlocks, Run;
    Extend(c, s, prefix, Begin);
    steps := prefix + [Begin];
    Extend(c, s, steps, Begin);
    steps := steps + [Begin];
    Extend(c, s, steps, Begin);
    steps := steps + [Begin];
  }

  lemma PassOne(c: Layout, s: State, m: nat, x: Block, o: nat)
    requires Logged(c, c.nblocks, m, x, s) && m + 1 < c.size <= LOGSIZE
    requires o in s.active && !s.active[o].checked
    ensures Enabled(c, s, Check(o))
    ensures var t := Apply(c, s, Check(o));
            Logged(c, c.nblocks, m, x, t) && t.active == s.active[o := Op(s.active[o].spent, true)]
  {
    hide Word, EncodeHeader, HeaderBlocks;
  }

  /** The three operations fill the log in turns, up to m blocks. */
  lemma {:induction false} Filled(c: Layout, d: Image, x: Block, m: nat) returns (steps: seq<Step>)
    requires c.Valid() && |d| == c.nblocks && Word(d[c.start], 0) == 0
    requires m + 2 <= c.size <= LOGSIZE && c.start + 2 * c.size <= c.nblocks
    ensures Run(c, Initial(d), steps).Some?
    ensures Logged(c, c.nblocks, m, x, Run(c, Initial(d), steps).value)
    ensures Ops(Run(c, Initial(d), steps).value,
                Op((m + 2) / 3, false), Op((m + 1) / 3, false), Op(m / 3, false))
    decreases m
  {
    hide Word, EncodeHeader, HeaderBlocks, Run, Logged, Apply, Enabled;
    if m == 0 {
      steps := Restarted(c, d, x);
    } else {
      steps := Filled(c, d, x, m - 1);
      var o := (m - 1) % 3;
      var b := c.start + c.size + m - 1;
      PassOne(c, Run(c, Initial(d), steps).value, m - 1, x, o);
      Extend(c, Initial(d), steps, Check(o));
      steps := steps + [Check(o)];
      AppendNext(c, Run(c, Initial(d), steps).value, m - 1, x, o);
      Extend(c, Initial(d), steps, Append(o, b, x));
      steps := steps + [Append(o, b, x)];
    }
  }

  /** Two operations pass the size test together. */
  lemma BothPass(c: Layout, s: State, m: nat, x: Block, o0: Op, o1: Op, o2: Op)
    requires Logged(c, c.nblocks, m, x, s) && m + 2 == c.size <= LOGSIZE
    requires Ops(s, o0, o1, o2) && !o1.checked && !o2.checked
    ensures Enabled(c, s, Check(1))
    ensures var s1 := Apply(c, s, Check(1));
            && Enabled(c, s1, Check(2))
            && var s2 := Apply(c, s1, Check(2));
            && Logged(c, c.nblocks, m, x, s2)
            && Ops(s2, o0, o1.(checked := true), o2.(checked := true))
  {
    hide Word, EncodeHeader, HeaderBlocks;
  }

  /** An operation that is past the size test appends, whatever the log has become meanwhile. */
  lemma AppendNext(c: Layout, s: State, m: nat, x: Block, o: nat)
    requires c.Valid() && Logged(c, c.nblocks, m, x, s) && c.start + c.size + m < c.nblocks
    requires o in s.active && s.active[o].checked && s.active[o].spent < MAXOPBLOCKS
    ensures var b := c.start + c.size + m;
            && Enabled(c, s, Append(o, b, x))
            && var u := Apply(c, s, Append(o, b, x));
            && Logged(c, c.nblocks, m + 1, x, u)
            && u.active == s.active[o := Op(s.active[o].spent + 1, false)]
  {
    hide Word, EncodeHeader, HeaderBlocks;
    var b := c.start + c.size + m;
    assert b !in s.lh;
    var u := Apply(c, s, Append(o, b, x));
    assert forall i :: 0 <= i < m ==> u.lh[i] == s.lh[i];
  }

  /** All three operations end, so the last one starts to commit. */
  lemma EndAll(c: Layout, s: State, x: Block, o0: Op, o1: Op, o2: Op)
    requires Logged(c, c.nblocks, c.size, x, s) && c.size > 0 && Ops(s, o0, o1, o2)
    requires !o0.checked && !o1.checked && !o2.checked
    ensures Enabled(c, s, Finish(0))
    ensures var s1 := Apply(c, s, Finish(0));
            && Enabled(c, s1, Finish(1))
            && var s2 := Apply(c, s1, Finish(1));
            && Enabled(c, s2, Finish(2))
            && Copied(c, 0, x, Apply(c, s2, Finish(2)))
  {
    hide Word, EncodeHeader, HeaderBlocks;
  }

  /** write_log has copied k of the c.size logged blocks, one after the other, behind the header. */
  ghost predicate Copied(c: Layout, k: nat, x: Block, s: State) {
    && s.pc == Logging(k) && s.committed == 0
    && |s.disk| == c.nblocks && c.start < c.nblocks && Word(s.disk[c.start], 0) == 0
    && |s.lh| == c.size && (forall i :: 0 <= i < c.size ==> s.lh[i] == c.start + c.size + i)
    && (forall b :: c.start + c.size <= b < c.start + 2 * c.size ==> b in s.cache && s.cache[b] == x)
    && c.start + k < c.nblocks && (k > 0 ==> s.disk[c.start + k] == x)
  }

  lemma CopyNext(c: Layout, k: nat, x: Block, s: State)
    requires c.Valid() && c.start + 2 * c.size <= c.nblocks && k < c.size && Copied(c, k, x, s)
    ensures Enabled(c, s, LogBlock) && Copied(c, k + 1, x, Apply(c, s, LogBlock))
  {
    hide Word, EncodeHeader, HeaderBlocks;
  }

  lemma {:induction false} CopyAll(c: Layout, d: Image, x: Block, prefix: seq<Step>, k: nat) returns (steps: seq<Step>)
    requires c.Valid() && c.start + 2 * c.size <= c.nblocks && k <= c.size
    requires Run(c, Initial(d), prefix).Some? && Copied(c, 0, x, Run(c, Initial(d), prefix).value)
    ensures Run(c, Initial(d), steps).Some? && Copied(c, k, x, Run(c, Initial(d), steps).value)
    decreases k
  {
    hide Run, Apply, Enabled, Copied;
    if k == 0 {
      steps := prefix;
    } else {
      steps := CopyAll(c, d, x, prefix, k - 1);
      CopyNext(c, k - 1, x, Run(c, Initial(d), steps).value);
      Extend(c, Initial(d), steps, LogBlock);
      steps := steps + [LogBlock];
    }
  }

  /** A run after which the log has been written over the home block behind it, without a commit. */
  lemma Overrun(c: Layout, d: Image, x: Block) returns (steps: seq<Step>)
    requires c.Valid() && |d| == c.nblocks && Word(d[c.start], 0) == 0
    requires 2 <= c.size <= LOGSIZE && c.start + 2 * c.size <= c.nblocks
    ensures Run(c, Initial(d), steps).Some? && Copied(c, c.size, x, Run(c, Initial(d), steps).value)
  {
    hide Word, Run, Apply, Enabled, Copied, Logged;
    var m := c.size - 2;
    var b := c.start + c.size + m;
    steps := Filled(c, d, x, m);
    BothPass(c, Run(c, Initial(d), steps).value, m, x,
             Op((m + 2) / 3, false), Op((m + 1) / 3, false), Op(m / 3, false));
    Extend(c, Initial(d), steps, Check(1));
    steps := steps + [Check(1)];
    Extend(c, Initial(d), steps, Check(2));
    steps := steps + [Check(2)];
    AppendNext(c, Run(c, Initial(d), steps).value, m, x, 1);
    Extend(c, Initial(d), steps, Append(1, b, x));
    steps := steps + [Append(1, b, x)];
    AppendNext(c, Run(c, Initial(d), steps).value, m + 1, x, 2);
    Extend(c, Initial(d), steps, Append(2, b + 1, x));
    steps := steps + [Append(2, b + 1, x)];
    EndAll(c, Run(c, Initial(d), steps).value, x,
           Op((m + 2) / 3, false), Op((m + 1) / 3 + 1, false), Op(m / 3 + 1, false));
    Extend(c, Initial(d), steps, Finish(0));
    steps := steps + [Finish(0)];
    Extend(c, Initial(d), steps, Finish(1));
    steps := steps + [Finish(1)];
    Extend(c, Initial(d), steps, Finish(2));
    steps := steps + [Finish(2)];
    steps := CopyAll(c, d, x, steps, c.size);
  }

  /** The overrun breaks crash atomicity. */
  lemma OverrunDamages(c: Layout, d: Image, base: Image, x: Block, s: State)
    requires RecoversTo(c, d, base) && Word(d[c.start], 0) == 0
    requires c.Home(c.start + c.size) && x != d[c.start + c.size] && Copied(c, c.size, x, s)
    ensures !Survives(c, base, s)
  {
    hide Word, IndexOf;
    EmptyRecovers(c, d, c.start + c.size);
    assert s.hist[..0] == [];
  }

  /**
   The exact condition: every run on every disk keeps crash atomicity if and only if the log has
   no data slot or more than LOGSIZE blocks.  (mkfs makes it exactly LOGSIZE blocks.)
   */
  lemma SizeTestIsEnough(c: Layout)
    requires c.Valid() && c.start + 2 * c.size <= c.nblocks
    ensures (forall d, base, steps :: RunSurvives(c, d, base, steps)) <==> c.size == 1 || c.size > LOGSIZE
  {
    if c.size == 1 || c.size > LOGSIZE {
      forall d: Image, base: Image, steps: seq<Step>
        ensures RunSurvives(c, d, base, steps)
      {
        if RecoversTo(c, d, base) && Run(c, Initial(d), steps).Some? {
          AlwaysGuarded(c, d, steps);
          CrashAtomicity(c, d, base, steps);
        }
      }
    } else {
      var d: Image := seq(c.nblocks, _ => ZERO_BLOCK);
      var x: Block := ZERO_BLOCK[0 := 1];
      assert x[0] != ZERO_BLOCK[0];
      WordOfZero(0);
      var steps := Overrun(c, d, x);
      assert RecoversTo(c, d, d);
      OverrunDamages(c, d, d, x, Run(c, Initial(d), steps).value);
      assert !RunSurvives(c, d, d, steps);
    }
  }

  // ---------- What begin_op reserves ----------

  /** An operation that has logged fewer than MAXOPBLOCKS new blocks passes the size test. */
  ghost predicate Honoured(c: Layout, d: Image, base: Image, steps: seq<Step>, o: nat) {
    RecoversTo(c, d, base) && Run(c, Initial(d), steps).Some? ==>
      var s := Run(c, Initial(d), steps).value;
      o in s.active && !s.active[o].checked && s.active[o].spent < MAXOPBLOCKS ==> Enabled(c, s, Check(o))
  }

  /** A run after which the log is as full as the size test allows, and operation 2 has blocks to log. */
  lemma FilledUp(c: Layout, d: Image, x: Block) returns (steps: seq<Step>)
    requires c.Valid() && |d| == c.nblocks && Word(d[c.start], 0) == 0
    requires c.size <= LOGSIZE && c.start + 2 * c.size <= c.nblocks
    ensures Run(c, Initial(d), steps).Some?
    ensures var s := Run(c, Initial(d), steps).value;
            2 in s.active && !s.active[2].checked && s.active[2].spent < MAXOPBLOCKS && |s.lh| >= c.size - 1
  {
    hide Word, Run, Apply, Enabled;
    if c.size == 1 {
      steps := Restarted(c, d, x);
    } else {
      var m := c.size - 2;
      steps := Filled(c, d, x, m);
      PassOne(c, Run(c, Initial(d), steps).value, m, x, 1);
      Extend(c, Initial(d), steps, Check(1));
      steps := steps + [Check(1)];
      AppendNext(c, Run(c, Initial(d), steps).value, m, x, 1);
      Extend(c, Initial(d), steps, Append(1, c.start + c.size + m, x));
      steps := steps + [Append(1, c.start + c.size + m, x)];
    }
  }

  /**
   begin_op lets an operation in when MAXOPBLOCKS entries are left for it.  It can use them, on every
   disk and in every run, if and only if the log has more than LOGSIZE blocks.
   */
  lemma ReservationHolds(c: Layout)
    requires c.Valid() && c.start + 2 * c.size <= c.nblocks
    ensures (forall d, base, steps, o :: Honoured(c, d, base, steps, o)) <==> c.size > LOGSIZE
  {
    hide Run, RecoversTo;
    if c.size > LOGSIZE {
      forall d: Image, base: Image, steps: seq<Step>, o: nat
        ensures Honoured(c, d, base, steps, o)
      {
        if RecoversTo(c, d, base) && Run(c, Initial(d), steps).Some? {
          AlwaysGuarded(c, d, steps);
          CanCheck(c, d, base, steps, o);
        }
      }
    } else {
      var d: Image := seq(c.nblocks, _ => ZERO_BLOCK);
      WordOfZero(0);
      var steps := FilledUp(c, d, ZERO_BLOCK);
      ZeroRecovers(c, d);
      assert !Honoured(c, d, d, steps, 2);
    }
  }

  lemma ZeroRecovers(c: Layout, d: Image)
    requires c.Valid() && |d| == c.nblocks && forall b :: 0 <= b < c.nblocks ==> d[b] == ZERO_BLOCK
    ensures RecoversTo(c, d, d)
  {
    hide Word;
    WordOfZero(0);
  }

  lemma CanCheck(c: Layout, d: Image, base: Image, steps: seq<Step>, o: nat)
    requires RecoversTo(c, d, base) && c.size > LOGSIZE && c.start + 2 * c.size <= c.nblocks
    requires Run(c, Initial(d), steps).Some? && Guarded(c, Initial(d), steps)
    ensures var s := Run(c, Initial(d), steps).value;
            o in s.active && !s.active[o].checked && s.active[o].spent < MAXOPBLOCKS ==> Enabled(c, s, Check(o))
  {
    hide Run, Guarded, Enabled, Apply;
    var s := Run(c, Initial(d), steps).value;
    if o in s.active && !s.active[o].checked && s.active[o].spent < MAXOPBLOCKS {
      MayLog(c, d, base, steps, o, c.start + c.size, ZERO_BLOCK);
    }
  }
}
