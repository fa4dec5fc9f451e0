/**
 What the runs of Scheduling.dfy make of a slot over time: when a process is asleep, and when it is
 marked killed, told from the steps that were taken and not from the table.
 */
module SlotHistory {
  import opened Common
  import opened ProcTable
  import opened Scheduling

  /** kill() with the pid of slot p, which it finds first. */
  predicate KillHits(s: State, step: Step, p: nat) {
    step.Block? && step.bl.Kill? && FirstWith(s.procs, step.bl.pid, p)
  }

  predicate Reaps(step: Step, p: nat) {
    step.Block? && step.bl.Reap? && step.bl.q == p
  }

  /** The process on the CPU takes this step. */
  predicate By(s: State, step: Step, p: nat) {
    Has(s, Actor(step)) && Cur(s, Actor(step)) == p
  }

  predicate AsleepOn(s: State, p: nat, chan: Chan) {
    p < |s.procs| && s.procs[p].state == Sleeping && s.procs[p].chan == chan
  }

  // ---- Marked killed ------------------------------------------------------------------------------

  /** Before step i of the run, a kill has hit slot p and no wait has reaped it since. */
  ghost predicate Hit(states: seq<State>, steps: seq<Step>, i: nat, p: nat)
    requires i <= |steps| < |states|
  {
    i > 0 &&
    (KillHits(states[i - 1], steps[i - 1], p) || (Hit(states, steps, i - 1, p) && !Reaps(steps[i - 1], p)))
  }

  predicate MarkedAfter(s: State, step: Step, p: nat)
    requires p < |s.procs|
  {
    KillHits(s, step, p) || (s.procs[p].killed && !Reaps(step, p))
  }

  lemma BlockMarks(s: State, step: Blocking, p: nat)
    requires CanBlock(s, step) && p < |s.procs|
    ensures DoBlock(s, step).procs[p].killed <==> MarkedAfter(s, Block(step), p)
  {
    hide Exited, Killed;
    if step.Kill? {
      KilledAt(s.procs, step.pid, p);
    } else if step.Exit? {
      ExitedAt(s.procs, Cur(s, step.c), s.init, p);
    }
  }

  lemma StepMarks(s: State, step: Step, p: nat)
    requires Enabled(s, step) && p < |s.procs|
    ensures |Apply(s, step).procs| == |s.procs|
    ensures Apply(s, step).procs[p].killed <==> MarkedAfter(s, step, p)
  {
    match step
    case Block(bl) =>
      hide CanBlock, BlockedTable;
      BlockMarks(s, bl, p);
    case Switch(_) =>
    case Make(_) =>
    case Replace(_) =>
  }

  lemma {:induction false} SlotsStay(states: seq<State>, steps: seq<Step>, i: nat)
    requires Run(states, steps) && i < |states|
    ensures |states[i].procs| == |states[0].procs|
  {
    hide Enabled, Apply, Init;
    if i > 0 {
      SlotsStay(states, steps, i - 1);
      assert Enabled(states[i - 1], steps[i - 1]) && states[i] == Apply(states[i - 1], steps[i - 1]);
      SameLength(states[i - 1], steps[i - 1]);
    }
  }

  lemma SameLength(s: State, step: Step)
    requires Enabled(s, step)
    ensures |Apply(s, step).procs| == |s.procs|
  {
    hide CanSwitch, CanMake, CanReplace, CanBlock;
  }

  /** A slot is marked killed exactly when a kill has hit it since it was last reaped. */
  lemma {:induction false} MarkedExactly(states: seq<State>, steps: seq<Step>, i: nat, p: nat)
    requires Run(states, steps) && i < |states| && p < |states[0].procs|
    ensures p < |states[i].procs| && (states[i].procs[p].killed <==> Hit(states, steps, i, p))
  {
    hide Enabled, Apply;
    SlotsStay(states, steps, i);
    if i > 0 {
      MarkedExactly(states, steps, i - 1, p);
      assert Enabled(states[i - 1], steps[i - 1]) && states[i] == Apply(states[i - 1], steps[i - 1]);
      StepMarks(states[i - 1], steps[i - 1], p);
    }
  }

  /** No process has the slot yet, or any more. */
  predicate NoProcess(x: Proc) {
    x.state == Unused || x.state == Embryo
  }

  /** The slot that fork() is filling is EMBRYO. */
  lemma FillsEmbryo(s: State, mk: Making)
    requires CanMake(s, mk) && Family(s)
    ensures !mk.Alloc? ==> s.procs[Slot(s, mk)].state == Embryo
  {
    assert FamilyOk(s, Cur(s, mk.c));
  }

  lemma MakeEmpties(s: State, mk: Making, p: nat)
    requires CanMake(s, mk) && p < |s.procs| && (!mk.Alloc? ==> s.procs[Slot(s, mk)].state == Embryo)
    ensures |DoMake(s, mk).procs| == |s.procs|
    ensures NoProcess(DoMake(s, mk).procs[p]) ==> NoProcess(s.procs[p])
    ensures forall chan :: AsleepOn(DoMake(s, mk), p, chan) <==> AsleepOn(s, p, chan)
  {
  }

  lemma BlockEmpties(s: State, bl: Blocking, p: nat)
    requires CanBlock(s, bl) && p < |s.procs|
    ensures |DoBlock(s, bl).procs| == |s.procs|
    ensures NoProcess(DoBlock(s, bl).procs[p]) ==> NoProcess(s.procs[p]) || Reaps(Block(bl), p)
  {
    hide Exited, Killed, HasZombie, HasChild;
    if bl.Kill? {
      KilledAt(s.procs, bl.pid, p);
    } else if bl.Exit? {
      ExitedAt(s.procs, Cur(s, bl.c), s.init, p);
    }
  }

  lemma StepEmpties(s: State, step: Step, p: nat)
    requires Enabled(s, step) && Family(s) && p < |s.procs|
    ensures |Apply(s, step).procs| == |s.procs|
    ensures NoProcess(Apply(s, step).procs[p]) ==> NoProcess(s.procs[p]) || Reaps(step, p)
  {
    hide Family;
    match step
    case Block(bl) =>
      hide CanBlock, DoBlock;
      BlockEmpties(s, bl, p);
    case Switch(_) =>
    case Make(mk) =>
      hide CanMake, DoMake;
      FillsEmbryo(s, mk);
      MakeEmpties(s, mk, p);
    case Replace(_) =>
  }

  /** If kill() only ever finds slot p while a process has it, a new process in it is not marked killed. */
  lemma {:induction false} BornUnmarked(states: seq<State>, steps: seq<Step>, i: nat, p: nat)
    requires Run(states, steps) && i < |states| && p < |states[0].procs|
    requires forall j :: 0 <= j < i && KillHits(states[j], steps[j], p) ==> !NoProcess(states[j].procs[p])
    ensures p < |states[i].procs| && (NoProcess(states[i].procs[p]) ==> !states[i].procs[p].killed)
  {
    hide Enabled, Apply, Threads, Family, Sleepers, Pids, Pages;
    SlotsStay(states, steps, i);
    if i > 0 {
      SlotsStay(states, steps, i - 1);
      BornUnmarked(states, steps, i - 1, p);
      RunInv(states, steps, i - 1);
      assert Enabled(states[i - 1], steps[i - 1]) && states[i] == Apply(states[i - 1], steps[i - 1]);
      StepMarks(states[i - 1], steps[i - 1], p);
      StepEmpties(states[i - 1], steps[i - 1], p);
      assert KillHits(states[i - 1], steps[i - 1], p) ==> !NoProcess(states[i - 1].procs[p]);
    }
  }

  // ---- Asleep -------------------------------------------------------------------------------------

  /** Process p calls sleep() on the channel, in wait() on its own slot. */
  predicate PutsToSleep(s: State, step: Step, p: nat, chan: Chan) {
    && step.Block? && By(s, step, p)
    && ((step.bl.Sleep? && chan == Addr(step.bl.a)) || (step.bl.WaitSleep? && chan == OfProc(p)))
  }

  /** wakeup() of the channel, by a process, by an interrupt, or in exit() for a parent or for init. */
  predicate Wakes(s: State, step: Step, chan: Chan) {
    && step.Block?
    && match step.bl
       case Wakeup(_, a) => chan == Addr(a)
       case Interrupt(_, a) => chan == Addr(a)
       case Exit(c) =>
         && Has(s, c)
         && (chan == ParentChan(s.procs[Cur(s, c)]) || (chan == OfProc(s.init) && HasZombie(s.procs, Cur(s, c))))
       case _ => false
  }

  /** Process p has gone to sleep on the channel, and neither its wakeup nor a kill has come since. */
  ghost predicate Asleep(states: seq<State>, steps: seq<Step>, i: nat, p: nat, chan: Chan)
    requires i <= |steps| < |states|
  {
    i > 0 &&
    (var s, step := states[i - 1], steps[i - 1];
     || PutsToSleep(s, step, p, chan)
     || (Asleep(states, steps, i - 1, p, chan) && !Wakes(s, step, chan) && !KillHits(s, step, p)))
  }

  predicate AsleepAfter(s: State, step: Step, p: nat, chan: Chan) {
    || PutsToSleep(s, step, p, chan)
    || (AsleepOn(s, p, chan) && !Wakes(s, step, chan) && !KillHits(s, step, p))
  }

  lemma ExitSleeps(s: State, step: Blocking, p: nat, chan: Chan)
    requires step.Exit? && CanBlock(s, step) && Acting(s, step.c) && p < |s.procs|
    ensures AsleepOn(DoBlock(s, step), p, chan) <==> AsleepAfter(s, Block(step), p, chan)
  {
    hide Exited, HasZombie;
    var me := Cur(s, step.c);
    ExitedAt(s.procs, me, s.init, p);
    if p != me {
      ExitChanges(s.procs, me, s.init, p);
    }
  }

  lemma KillSleeps(s: State, step: Blocking, p: nat, chan: Chan)
    requires step.Kill? && CanBlock(s, step) && p < |s.procs|
    ensures AsleepOn(DoBlock(s, step), p, chan) <==> AsleepAfter(s, Block(step), p, chan)
  {
    hide Killed;
    KilledAt(s.procs, step.pid, p);
  }

  lemma BlockSleeps(s: State, step: Blocking, p: nat, chan: Chan)
    requires !step.Exit? && !step.Kill? && CanBlock(s, step) && Acting(s, step.c) && p < |s.procs|
    ensures AsleepOn(DoBlock(s, step), p, chan) <==> AsleepAfter(s, Block(step), p, chan)
  {
    hide HasZombie, HasChild;
  }

  lemma SwitchSleeps(s: State, step: Switching, p: nat, chan: Chan)
    requires CanSwitch(s, step) && step.c < |s.cpus| && CpuOk(s, step.c) && Acting(s, step.c) && p < |s.procs|
    ensures AsleepOn(DoSwitch(s, step), p, chan) <==> AsleepAfter(s, Switch(step), p, chan)
  {
  }

  lemma ActsNow(s: State, step: Step)
    requires Enabled(s, step) && Threads(s)
    ensures Actor(step) < |s.cpus| && CpuOk(s, Actor(step)) && Acting(s, Actor(step))
  {
    hide CpuOk;
    ActorThere(s, step);
    Acts(s, Actor(step));
  }

  lemma StepSleeps(s: State, step: Step, p: nat, chan: Chan)
    requires Enabled(s, step) && Threads(s) && Family(s) && p < |s.procs|
    ensures AsleepOn(Apply(s, step), p, chan) <==> AsleepAfter(s, step, p, chan)
  {
    hide Threads, Family;
    match step
    case Block(bl) =>
      hide CanBlock, DoBlock, AsleepAfter;
      ActsNow(s, step);
      if bl.Exit? {
        ExitSleeps(s, bl, p, chan);
      } else if bl.Kill? {
        KillSleeps(s, bl, p, chan);
      } else {
        BlockSleeps(s, bl, p, chan);
      }
    case Switch(sw) =>
      hide CanSwitch, DoSwitch, AsleepAfter;
      ActsNow(s, step);
      SwitchSleeps(s, sw, p, chan);
    case Make(mk) =>
      hide CanMake, DoMake;
      FillsEmbryo(s, mk);
      MakeEmpties(s, mk, p);
    case Replace(_) =>
  }

  /**
   A process is asleep on a channel exactly when it has called sleep() on it and has been neither
   woken nor killed since; in particular wakeup() leaves none of its sleepers asleep, and wakes no
   other.
   */
  lemma {:induction false} AsleepExactly(states: seq<State>, steps: seq<Step>, i: nat, p: nat, chan: Chan)
    requires Run(states, steps) && i < |states| && p < |states[0].procs|
    ensures AsleepOn(states[i], p, chan) <==> Asleep(states, steps, i, p, chan)
  {
    hide Enabled, Apply, Threads, Family, Sleepers, Pids, Pages;
    if i > 0 {
      SlotsStay(states, steps, i - 1);
      AsleepExactly(states, steps, i - 1, p, chan);
      RunInv(states, steps, i - 1);
      assert Enabled(states[i - 1], steps[i - 1]) && states[i] == Apply(states[i - 1], steps[i - 1]);
      StepSleeps(states[i - 1], steps[i - 1], p, chan);
    }
  }

  /** After kill() the process it names is marked, and awake if it slept; nothing else about it changes. */
  lemma KillMarks(states: seq<State>, steps: seq<Step>, i: nat, p: nat)
    requires Run(states, steps) && i < |steps| && KillHits(states[i], steps[i], p)
    ensures var x, y := states[i].procs[p], states[i + 1].procs[p];
            && y.killed && y.state == (if x.state == Sleeping then Runnable else x.state)
            && y == x.(killed := true, state := y.state, pc := y.pc) && (!By(states[i], steps[i], p) ==> y.pc == x.pc)
  {
    hide Killed;
    assert Enabled(states[i], steps[i]) && states[i + 1] == Apply(states[i], steps[i]);
    KilledAt(states[i].procs, steps[i].bl.pid, p);
  }

  // ---- What is left in a slot ---------------------------------------------------------------------

  /** Inside sleep(). */
  predicate InSleep(pc: Pc) {
    pc == Slept || pc == WaitSlept
  }

  /** p->chan is set exactly inside sleep(), and a slot that nobody has keeps neither that nor a stack. */
  predicate Tidy(x: Proc) {
    && (x.chan != Nothing <==> InSleep(x.pc)) && (NoProcess(x) ==> !InSleep(x.pc))
    && (x.state == Unused ==> x.kstack == 0)
  }

  lemma BlockTidy(s: State, bl: Blocking, p: nat)
    requires CanBlock(s, bl) && Acting(s, bl.c) && p < |s.procs| && Tidy(s.procs[p])
    requires bl.Reap? ==> bl.q < |s.procs| && s.procs[bl.q].pc == Dead
    ensures |DoBlock(s, bl).procs| == |s.procs| && Tidy(DoBlock(s, bl).procs[p])
  {
    if bl.Kill? || bl.Exit? {
      hide CanBlock, DoBlock, Tidy;
      EndTidy(s, bl, p);
    } else {
      hide HasZombie, HasChild;
    }
  }

  lemma EndTidy(s: State, bl: Blocking, p: nat)
    requires CanBlock(s, bl) && (bl.Kill? || bl.Exit?) && Acting(s, bl.c) && p < |s.procs| && Tidy(s.procs[p])
    ensures |DoBlock(s, bl).procs| == |s.procs| && Tidy(DoBlock(s, bl).procs[p])
  {
    hide Exited, Killed, HasZombie;
    if bl.Kill? {
      KilledAt(s.procs, bl.pid, p);
    } else {
      ExitedAt(s.procs, Cur(s, bl.c), s.init, p);
    }
  }

  lemma SwitchTidy(s: State, sw: Switching, p: nat)
    requires CanSwitch(s, sw) && sw.c < |s.cpus| && CpuOk(s, sw.c) && p < |s.procs| && Tidy(s.procs[p])
    ensures |DoSwitch(s, sw).procs| == |s.procs| && Tidy(DoSwitch(s, sw).procs[p])
  {
  }

  lemma MakeTidy(s: State, mk: Making, p: nat)
    requires CanMake(s, mk) && Acting(s, mk.c) && p < |s.procs| && Tidy(s.procs[p])
    requires !mk.Alloc? ==> s.procs[Slot(s, mk)].state == Embryo
    ensures |DoMake(s, mk).procs| == |s.procs| && Tidy(DoMake(s, mk).procs[p])
  {
  }

  lemma ReapsDead(s: State, bl: Blocking)
    requires CanBlock(s, bl) && bl.Reap? && Threads(s)
    ensures bl.q < |s.procs| && s.procs[bl.q].pc == Dead
  {
    assert ThreadOk(s, bl.q);
  }

  lemma StepTidy(s: State, step: Step, p: nat)
    requires Enabled(s, step) && Threads(s) && Family(s) && p < |s.procs| && Tidy(s.procs[p])
    ensures |Apply(s, step).procs| == |s.procs| && Tidy(Apply(s, step).procs[p])
  {
    hide Threads, Family, Tidy;
    ActsNow(s, step);
    match step
    case Block(bl) =>
      hide CanBlock, DoBlock;
      if bl.Reap? {
        ReapsDead(s, bl);
      }
      BlockTidy(s, bl, p);
    case Switch(sw) =>
      hide CanSwitch, DoSwitch;
      SwitchTidy(s, sw, p);
    case Make(mk) =>
      hide CanMake, DoMake;
      FillsEmbryo(s, mk);
      MakeTidy(s, mk, p);
    case Replace(rp) =>
      hide CanReplace, DoReplace;
      ReplaceTidy(s, rp, p);
  }

  lemma ReplaceTidy(s: State, rp: Replacing, p: nat)
    requires CanReplace(s, rp) && p < |s.procs| && Tidy(s.procs[p])
    ensures |DoReplace(s, rp).procs| == |s.procs| && Tidy(DoReplace(s, rp).procs[p])
  {
  }

  /** In every run every slot is tidy. */
  lemma {:induction false} AlwaysTidy(states: seq<State>, steps: seq<Step>, i: nat, p: nat)
    requires Run(states, steps) && i < |states| && p < |states[0].procs|
    ensures p < |states[i].procs| && Tidy(states[i].procs[p])
  {
    hide Enabled, Apply, Threads, Family, Sleepers, Pids, Pages;
    if i == 0 {
      assert Init(states[0]);
    } else {
      AlwaysTidy(states, steps, i - 1, p);
      RunInv(states, steps, i - 1);
      assert Enabled(states[i - 1], steps[i - 1]) && states[i] == Apply(states[i - 1], steps[i - 1]);
      StepTidy(states[i - 1], steps[i - 1], p);
    }
  }

  // ---- Pids that are gone -------------------------------------------------------------------------

  /** No two slots have the same pid but 0, and none has a pid that is still to come or that wait() returned. */
  predicate PidsFresh(s: State) {
    && (forall p :: 0 <= p < |s.procs| ==> s.procs[p].pid < s.nextpid)
    && (forall p :: 0 <= p < |s.procs| && s.procs[p].pid != 0 ==> s.procs[p].pid !in s.returned)
    && (forall p, q :: 0 <= p < q < |s.procs| && s.procs[p].pid != 0 ==> s.procs[p].pid != s.procs[q].pid)
    && forall k :: 0 <= k < |s.returned| ==> s.returned[k] < s.nextpid
  }

  /** What a step does to the pid of slot p. */
  lemma StepPids(s: State, step: Step, p: nat)
    requires Enabled(s, step) && Acting(s, Actor(step)) && p < |s.procs|
    ensures |Apply(s, step).procs| == |s.procs|
    ensures Apply(s, step).procs[p].pid ==
            if step.Make? && step.mk.Alloc? && step.mk.np == p then s.nextpid
            else if Reaps(step, p) then 0 else s.procs[p].pid
  {
    match step
    case Block(bl) =>
      hide CanBlock, DoBlock, Acting;
      BlockPids(s, bl, p);
    case Make(mk) =>
      hide CanMake, DoMake, Acting;
      MakePids(s, mk, p);
    case Switch(_) =>
      hide Acting;
    case Replace(_) =>
      hide Acting;
  }

  lemma MakePids(s: State, mk: Making, p: nat)
    requires CanMake(s, mk) && Acting(s, mk.c) && p < |s.procs|
    ensures |DoMake(s, mk).procs| == |s.procs|
    ensures DoMake(s, mk).procs[p].pid == if mk.Alloc? && mk.np == p then s.nextpid else s.procs[p].pid
  {
  }

  lemma BlockPids(s: State, bl: Blocking, p: nat)
    requires CanBlock(s, bl) && p < |s.procs|
    ensures |DoBlock(s, bl).procs| == |s.procs|
    ensures DoBlock(s, bl).procs[p].pid == if bl.Reap? && bl.q == p then 0 else s.procs[p].pid
  {
    hide HasZombie, HasChild, Exited, Killed;
    if bl.Kill? {
      KilledAt(s.procs, bl.pid, p);
    } else if bl.Exit? {
      ExitedAt(s.procs, Cur(s, bl.c), s.init, p);
    }
  }

  lemma StepCounts(s: State, step: Step)
    requires Enabled(s, step)
    ensures Apply(s, step).nextpid == s.nextpid + if step.Make? && step.mk.Alloc? then 1 else 0
    ensures Apply(s, step).returned ==
            s.returned + if step.Block? && step.bl.Reap? then [s.procs[step.bl.q].pid] else []
  {
    hide BlockedTable;
  }

  lemma StepFresh(s: State, step: Step)
    requires Enabled(s, step) && Acting(s, Actor(step)) && PidsFresh(s) && s.nextpid > 0
    ensures PidsFresh(Apply(s, step)) && Apply(s, step).nextpid > 0
  {
    hide Apply, Enabled, Acting;
    StepCounts(s, step);
    SameLength(s, step);
    var t := Apply(s, step);
    forall p: nat | p < |s.procs|
      ensures t.procs[p].pid == 0 || t.procs[p].pid == s.procs[p].pid ||
              (t.procs[p].pid == s.nextpid && step.Make? && step.mk.Alloc? && step.mk.np == p)
      ensures Reaps(step, p) ==> t.procs[p].pid == 0
    {
      StepPids(s, step, p);
    }
    ReapedThere(s, step);
  }

  lemma ReapedThere(s: State, step: Step)
    requires Enabled(s, step)
    ensures step.Block? && step.bl.Reap? ==> step.bl.q < |s.procs| && Reaps(step, step.bl.q)
  {
  }

  lemma {:induction false} AlwaysFresh(states: seq<State>, steps: seq<Step>, i: nat)
    requires Run(states, steps) && i < |states|
    ensures PidsFresh(states[i]) && states[i].nextpid > 0
  {
    hide Enabled, Apply, Threads, Family, Sleepers, Pids, Pages, CpuOk, Acting;
    if i > 0 {
      AlwaysFresh(states, steps, i - 1);
      RunInv(states, steps, i - 1);
      ActsNow(states[i - 1], steps[i - 1]);
      assert Enabled(states[i - 1], steps[i - 1]) && states[i] == Apply(states[i - 1], steps[i - 1]);
      StepFresh(states[i - 1], steps[i - 1]);
    }
  }

  /** Once wait() has returned a pid, no slot has it, then or ever after; so kill() of it finds nothing. */
  lemma {:induction false} ReapedIsGone(states: seq<State>, steps: seq<Step>, i: nat, j: nat, pid: nat, p: nat)
    requires Run(states, steps) && i <= j < |states| && pid in states[i].returned && pid != 0
    ensures pid in states[j].returned && !FirstWith(states[j].procs, pid, p)
    decreases j - i
  {
    hide Enabled, Apply;
    if i < j {
      assert Enabled(states[i], steps[i]) && states[i + 1] == Apply(states[i], steps[i]);
      StepCounts(states[i], steps[i]);
      ReapedIsGone(states, steps, i + 1, j, pid, p);
    }
    AlwaysFresh(states, steps, j);
  }

  // ---- Every call ends ----------------------------------------------------------------------------

  function PcRank(pc: Pc): nat {
    match pc
    case In => 3
    case Waiting => 2
    case Out => 0
    case _ => 1
  }

  function ForkRank(f: Fork): nat {
    match f
    case NeedStack(_) => 4
    case NeedDir(_) => 3
    case NeedParent(_) => 2
    case Ready(_) => 1
    case NoFork => 0
  }

  function ExecRank(e: Exec): nat {
    match e
    case Swapped(_) => 2
    case Reloaded(_) => 1
    case NoExec => 0
  }

  /**
   What a process does with ptable.lock held brings it nearer to giving it up, each step of fork()
   after the first nearer to the end of fork(), and likewise for exec().  With NeverStuck: every call
   ends if its process goes on.
   */
  lemma CallsEnd(s: State, step: Step)
    requires Enabled(s, step) && Family(s) && Acting(s, Actor(step))
    ensures |Apply(s, step).procs| == |s.procs|
    ensures step.Block? && !step.bl.Interrupt? ==>
              var me := Cur(s, step.bl.c); PcRank(Apply(s, step).procs[me].pc) < PcRank(s.procs[me].pc)
    ensures step.Make? && (step.mk.Alloc? || step.mk.Publish?) ==>
              var me := Cur(s, step.mk.c); PcRank(Apply(s, step).procs[me].pc) < PcRank(s.procs[me].pc)
    ensures step.Make? && !step.mk.Alloc? ==>
              var me := Cur(s, step.mk.c); ForkRank(Apply(s, step).procs[me].fork) < ForkRank(s.procs[me].fork)
    ensures step.Replace? && !step.rp.SwapDir? ==>
              var me := Cur(s, step.rp.c); ExecRank(Apply(s, step).procs[me].exec) < ExecRank(s.procs[me].exec)
  {
    hide Family, Exited, HasZombie, HasChild;
    match step
    case Block(bl) =>
      if bl.Exit? {
        ExitedAt(s.procs, Cur(s, bl.c), s.init, Cur(s, bl.c));
      }
    case Switch(_) =>
    case Make(_) =>
    case Replace(_) =>
  }

  // ---- Nobody is stuck ----------------------------------------------------------------------------

  /** CPU c can take a step. */
  ghost predicate GoesOn(s: State, c: nat) {
    exists step :: Actor(step) == c && Enabled(s, step)
  }

  /** In wait()'s loop: the first zombie child is reaped, or the call gives up, or it sleeps; always one of these. */
  lemma WaitGoesOn(s: State, c: nat)
    requires Me(s, c, Waiting)
    ensures var me := Cur(s, c);
            && ((exists q :: CanBlock(s, Reap(c, q))) <==> HasZombie(s.procs, me))
            && (forall q: nat, k: nat :: CanBlock(s, Reap(c, q)) && k < |s.procs| && ZombieChild(s.procs[k], me) ==>
                  q <= k)
            && (CanBlock(s, GiveUp(c)) <==>
                  !HasZombie(s.procs, me) && (!HasChild(s.procs, me) || s.procs[me].killed))
            && (CanBlock(s, WaitSleep(c)) <==>
                  !HasZombie(s.procs, me) && HasChild(s.procs, me) && !s.procs[me].killed)
    ensures GoesOn(s, c)
  {
    hide HasChild;
    var me := Cur(s, c);
    if HasZombie(s.procs, me) {
      var q := FirstZombie(s.procs, me, 0);
      assert CanBlock(s, Reap(c, q));
      assert Enabled(s, Block(Reap(c, q)));
    } else if !HasChild(s.procs, me) || s.procs[me].killed {
      assert Enabled(s, Block(GiveUp(c)));
    } else {
      assert Enabled(s, Block(WaitSleep(c)));
    }
  }

  lemma {:induction false} FirstZombie(t: seq<Proc>, me: nat, from: nat) returns (q: nat)
    requires from <= |t| && HasZombie(t, me) && forall k :: 0 <= k < from ==> !ZombieChild(t[k], me)
    ensures q < |t| && ZombieChild(t[q], me) && forall k :: 0 <= k < q ==> !ZombieChild(t[k], me)
    decreases |t| - from
  {
    if ZombieChild(t[from], me) {
      q := from;
    } else {
      q := FirstZombie(t, me, from + 1);
    }
  }

  /** Whoever has just taken ptable.lock can make every call that the lock is for. */
  lemma CallsOpen(s: State, c: nat, a: nat, pid: nat)
    requires Me(s, c, In)
    ensures CanBlock(s, Yield(c)) && CanBlock(s, Sleep(c, a)) && CanBlock(s, Wakeup(c, a)) && CanBlock(s, Kill(c, pid))
    ensures Plain(s.procs[Cur(s, c)]) ==>
              && CanBlock(s, Wait(c)) && (CanBlock(s, Exit(c)) <==> Cur(s, c) != s.init)
              && (CanBlock(s, NoSlot(c)) <==> !exists np :: CanMake(s, Alloc(c, np)))
    ensures forall np: nat, k: nat :: CanMake(s, Alloc(c, np)) && k < |s.procs| && s.procs[k].state == Unused ==>
              np <= k
    ensures GoesOn(s, c)
  {
    assert Enabled(s, Block(Yield(c)));
    if k :| 0 <= k < |s.procs| && s.procs[k].state == Unused {
      var np := FirstUnused(s.procs, 0);
      assert Plain(s.procs[Cur(s, c)]) ==> CanMake(s, Alloc(c, np));
    }
  }

  lemma {:induction false} FirstUnused(t: seq<Proc>, from: nat) returns (np: nat)
    requires from <= |t| && (exists k :: 0 <= k < |t| && t[k].state == Unused)
    requires forall k :: 0 <= k < from ==> t[k].state != Unused
    ensures np < |t| && t[np].state == Unused && forall k :: 0 <= k < np ==> t[k].state != Unused
    decreases |t| - from
  {
    if t[from].state == Unused {
      np := from;
    } else {
      np := FirstUnused(t, from + 1);
    }
  }

  lemma SwitchGoesOn(s: State, c: nat, sw: Switching)
    requires CanSwitch(s, sw) && sw.c == c
    ensures GoesOn(s, c)
  {
    assert Actor(Switch(sw)) == c && Enabled(s, Switch(sw));
  }

  /**
   In every run the CPU that has ptable.lock can go on, so the lock is never kept for good; and with
   the lock free every CPU can go on, also with an interrupt that wakes sleepers.
   */
  lemma NeverStuck(states: seq<State>, steps: seq<Step>, i: nat, c: nat, a: nat)
    requires Run(states, steps) && i < |states| && c < |states[i].cpus|
    ensures states[i].lock == Some(c) || states[i].lock == None ==> GoesOn(states[i], c)
    ensures states[i].lock == None ==> Enabled(states[i], Block(Interrupt(c, a)))
  {
    hide GoesOn, Enabled, Family, Sleepers, Pids, Pages, HasZombie, HasChild;
    RunInv(states, steps, i);
    var s := states[i];
    assert CpuOk(s, c);
    if s.lock == Some(c) || s.lock == None {
      match s.cpus[c].at
      case Idle => SwitchGoesOn(s, c, Acquire(c));
      case Scan => SwitchGoesOn(s, c, Release(c));
      case Chosen => SwitchGoesOn(s, c, Load(c));
      case Loaded => SwitchGoesOn(s, c, Enter(c));
      case Entering => SwitchGoesOn(s, c, Resume(c));
      case Back => SwitchGoesOn(s, c, Unload(c));
      case Unloaded => SwitchGoesOn(s, c, Clear(c));
      case On => OnGoesOn(s, c);
    }
    assert s.lock == None ==> CanBlock(s, Interrupt(c, a));
    CanInterrupt(s, c, a);
  }

  lemma CanInterrupt(s: State, c: nat, a: nat)
    ensures Enabled(s, Block(Interrupt(c, a))) <==> CanBlock(s, Interrupt(c, a))
  {
  }

  lemma OnGoesOn(s: State, c: nat)
    requires c < |s.cpus| && CpuOk(s, c) && s.cpus[c].at == On && (s.lock == Some(c) || s.lock == None)
    ensures GoesOn(s, c)
  {
    hide GoesOn;
    match s.procs[Cur(s, c)].pc
    case Out => SwitchGoesOn(s, c, Acquire(c));
    case In => CallsOpen(s, c, 0, 0);
    case Waiting => WaitGoesOn(s, c);
    case Done => SwitchGoesOn(s, c, Release(c));
    case _ => SwitchGoesOn(s, c, Swtch(c));
  }

  // ---- Runs that exist ----------------------------------------------------------------------------

  /** A run, and the state it has come to. */
  ghost predicate Reaches(states: seq<State>, steps: seq<Step>, s: State) {
    Run(states, steps) && states[|steps|] == s
  }

  lemma Take(states: seq<State>, steps: seq<Step>, s: State, step: Step)
    returns (states2: seq<State>, steps2: seq<Step>, s2: State)
    requires Reaches(states, steps, s) && Enabled(s, step)
    ensures s2 == Apply(s, step) && steps2 == steps + [step] && states2 == states + [s2] && Reaches(states2, steps2, s2)
  {
    hide Enabled, Apply, Init;
    states2, steps2, s2 := states + [Apply(s, step)], steps + [step], Apply(s, step);
    forall i | 0 <= i < |steps2|
      ensures Enabled(states2[i], steps2[i]) && states2[i + 1] == Apply(states2[i], steps2[i])
    {
      if i < |steps| {
        assert Enabled(states[i], steps[i]) && states[i + 1] == Apply(states[i], steps[i]);
      }
    }
  }

  lemma TakeSwitch(states: seq<State>, steps: seq<Step>, s: State, sw: Switching)
    returns (states2: seq<State>, steps2: seq<Step>, s2: State)
    requires Reaches(states, steps, s) && CanSwitch(s, sw)
    ensures s2 == DoSwitch(s, sw) && steps2 == steps + [Switch(sw)] && states2 == states + [s2]
    ensures Reaches(states2, steps2, s2)
  {
    hide Reaches, CanSwitch, DoSwitch;
    states2, steps2, s2 := Take(states, steps, s, Switch(sw));
  }

  lemma TakeMake(states: seq<State>, steps: seq<Step>, s: State, mk: Making)
    returns (states2: seq<State>, steps2: seq<Step>, s2: State)
    requires Reaches(states, steps, s) && CanMake(s, mk)
    ensures s2 == DoMake(s, mk) && steps2 == steps + [Make(mk)] && states2 == states + [s2]
    ensures Reaches(states2, steps2, s2)
  {
    hide Reaches, CanMake, DoMake;
    states2, steps2, s2 := Take(states, steps, s, Make(mk));
  }

  /** scheduler() as far as switchuvm(). */
  lemma CanBeLoaded(states: seq<State>, steps: seq<Step>, s: State, c: nat, p: nat)
    returns (states2: seq<State>, steps2: seq<Step>, s2: State)
    requires Reaches(states, steps, s) && s.lock == None && AtCpu(s, c, Idle)
    requires p < |s.procs| && s.procs[p].state == Runnable
    ensures Reaches(states2, steps2, s2) && states <= states2
    ensures AtCpu(s2, c, Loaded) && s2.cpus[c].proc == Some(p) && s2.procs == s.procs
  {
    hide Reaches;
    assert s.cpus[c].proc == None by {
      ReachesInv(states, steps, s);
      assert CpuOk(s, c);
    }
    states2, steps2, s2 := TakeSwitch(states, steps, s, Acquire(c));
    assert s2.procs == s.procs && AtCpu(s2, c, Scan) && s2.cpus[c].proc == None;
    states2, steps2, s2 := TakeSwitch(states2, steps2, s2, Choose(c, p));
    assert s2.procs == s.procs && AtCpu(s2, c, Chosen) && s2.cpus[c].proc == Some(p);
    states2, steps2, s2 := TakeSwitch(states2, steps2, s2, Load(c));
  }

  /**
   A RUNNABLE process can always be run: a CPU that is idle while ptable.lock is free gets it there in
   five steps of its own.
   */
  lemma CanBeRun(states: seq<State>, steps: seq<Step>, s: State, c: nat, p: nat)
    returns (states2: seq<State>, steps2: seq<Step>, s2: State)
    requires Reaches(states, steps, s) && s.lock == None && AtCpu(s, c, Idle)
    requires p < |s.procs| && s.procs[p].state == Runnable
    ensures Reaches(states2, steps2, s2) && states <= states2 && AtCpu(s2, c, On) && Has(s2, c) && Cur(s2, c) == p
    ensures s2.procs == s.procs[p := s2.procs[p]] && s2.procs[p].state == Running
  {
    hide Reaches;
    states2, steps2, s2 := CanBeLoaded(states, steps, s, c, p);
    states2, steps2, s2 := TakeSwitch(states2, steps2, s2, Enter(c));
    assert AtCpu(s2, c, Entering) && s2.cpus[c].proc == Some(p) && s2.procs == s.procs[p := s2.procs[p]];
    states2, steps2, s2 := TakeSwitch(states2, steps2, s2, Resume(c));
  }

  lemma ReachesInv(states: seq<State>, steps: seq<Step>, s: State)
    requires Reaches(states, steps, s)
    ensures Inv(s)
  {
    hide Inv;
    RunInv(states, steps, |steps|);
  }

  /** init alone, with one free slot, on one CPU. */
  function Booted(): State {
    State([Cpu(None, 0, 1, Idle)],
          [Proc(Runnable, 1, None, Nothing, false, 2, 3, First, NoFork, NoExec),
           Proc(Unused, 0, None, Nothing, false, 0, 0, Out, NoFork, NoExec)],
          None, 2, 0, 1, map[1 := Kernel, 2 := Stack(0), 3 := Dir(0)], map[], map[], {}, [])
  }

  /** init in user space, the other slot as given. */
  function InUser(y: Proc): State {
    Booted().(cpus := [Cpu(Some(0), 2, 3, On)], host := map[0 := 0],
              procs := [Booted().procs[0].(state := Running, pc := Out), y])
  }

  lemma BootedInit()
    ensures Reaches([Booted()], [], Booted())
  {
  }

  /** scheduler() takes init. */
  lemma InitChosen() returns (states: seq<State>, steps: seq<Step>)
    ensures Reaches(states, steps,
                    Booted().(cpus := [Cpu(Some(0), 0, 3, Loaded)], lock := Some(0), host := map[0 := 0]))
    ensures forall j :: 0 <= j < |steps| ==> steps[j].Switch?
  {
    hide Reaches;
    BootedInit();
    var s := Booted();
    states, steps, s := TakeSwitch([s], [], s, Acquire(0));
    assert s.cpus == [Cpu(None, 0, 1, Scan)];
    states, steps, s := TakeSwitch(states, steps, s, Choose(0, 0));
    assert s.cpus == [Cpu(Some(0), 0, 1, Chosen)] && s.host == map[0 := 0];
    states, steps, s := TakeSwitch(states, steps, s, Load(0));
    assert s.cpus == [Cpu(Some(0), 0, 3, Loaded)] && s.procs == Booted().procs;
  }

  lemma InitRuns() returns (states: seq<State>, steps: seq<Step>)
    ensures Reaches(states, steps, InUser(Booted().procs[1]))
    ensures forall j :: 0 <= j < |steps| ==> steps[j].Switch?
  {
    hide Reaches;
    var s := Booted().(cpus := [Cpu(Some(0), 0, 3, Loaded)], lock := Some(0), host := map[0 := 0]);
    var x, y := s.procs[0], s.procs[1];
    states, steps := InitChosen();
    states, steps, s := TakeSwitch(states, steps, s, Enter(0));
    assert s.cpus == [Cpu(Some(0), 2, 3, Entering)] && s.procs == [x.(state := Running), y];
    states, steps, s := TakeSwitch(states, steps, s, Resume(0));
    assert s.cpus == [Cpu(Some(0), 2, 3, On)] && s.procs == [x.(state := Running, pc := Done), y];
    states, steps, s := TakeSwitch(states, steps, s, Release(0));
    assert s.cpus == [Cpu(Some(0), 2, 3, On)] && s.procs == [x.(state := Running, pc := Out), y];
  }

  /** Whoever sleeps, wakes or kills does so while slot 1 is unused. */
  ghost predicate KillsUnused(states: seq<State>, steps: seq<Step>) {
    |states| > |steps| &&
    forall j :: 0 <= j < |steps| && steps[j].Block? ==> |states[j].procs| == 2 && states[j].procs[1].state == Unused
  }

  /** It calls kill(0). */
  lemma KillsNobody() returns (states: seq<State>, steps: seq<Step>)
    ensures Reaches(states, steps, InUser(Booted().procs[1].(killed := true)))
    ensures KillsUnused(states, steps)
  {
    hide Reaches;
    var s, y := InUser(Booted().procs[1]), Booted().procs[1];
    states, steps := InitRuns();
    var x := s.procs[0];
    states, steps, s := TakeSwitch(states, steps, s, Acquire(0));
    assert s.cpus == [Cpu(Some(0), 2, 3, On)] && s.procs == [x.(pc := In), y];
    KilledAt(s.procs, 0, 0);
    KilledAt(s.procs, 0, 1);
    ReachesHere(states, steps, s);
    states, steps, s := Take(states, steps, s, Block(Kill(0, 0)));
    assert s.procs == [x.(pc := Done), y.(killed := true)];
    states, steps, s := TakeSwitch(states, steps, s, Release(0));
    assert s.cpus == [Cpu(Some(0), 2, 3, On)] && s.procs == [x.(pc := Out), y.(killed := true)];
  }

  lemma ReachesHere(states: seq<State>, steps: seq<Step>, s: State)
    requires Reaches(states, steps, s)
    ensures |states| == |steps| + 1 && states[|steps|] == s
  {
  }

  /** allocproc() for it. */
  lemma TakesSlot() returns (states: seq<State>, steps: seq<Step>, s: State)
    ensures Reaches(states, steps, s) && s.nextpid == 3 && s.init == 0 && s.kpgdir == 1 && s.lock == None
    ensures s.cpus == [Cpu(Some(0), 2, 3, On)] && s.own == Booted().own
    ensures s.procs == [InUser(Booted().procs[1]).procs[0].(fork := NeedStack(1)),
                        Booted().procs[1].(state := Embryo, pid := 2, killed := true)]
    ensures KillsUnused(states, steps)
  {
    hide Reaches;
    var y := Booted().procs[1].(killed := true);
    s := InUser(y);
    var x := s.procs[0];
    states, steps := KillsNobody();
    ReachesHere(states, steps, s);
    states, steps, s := TakeSwitch(states, steps, s, Acquire(0));
    assert s.cpus == [Cpu(Some(0), 2, 3, On)] && s.procs == [x.(pc := In), y];
    states, steps, s := TakeMake(states, steps, s, Alloc(0, 1));
    assert s.procs == [x.(fork := NeedStack(1), pc := Done), y.(state := Embryo, pid := 2)];
    states, steps, s := TakeSwitch(states, steps, s, Release(0));
    assert s.cpus == [Cpu(Some(0), 2, 3, On)] && s.procs == [x.(fork := NeedStack(1)), y.(state := Embryo, pid := 2)];
  }

  lemma GetsPages() returns (states: seq<State>, steps: seq<Step>, s: State)
    ensures Reaches(states, steps, s) && s.lock == None && s.cpus == [Cpu(Some(0), 2, 3, On)]
    ensures s.procs == [InUser(Booted().procs[1]).procs[0].(fork := NeedParent(1)),
                        Booted().procs[1].(state := Embryo, pid := 2, killed := true,
                                           kstack := 4, pc := First, pgdir := 5)]
    ensures KillsUnused(states, steps)
  {
    hide Reaches;
    states, steps, s := TakesSlot();
    ReachesHere(states, steps, s);
    var x, y := s.procs[0], s.procs[1];
    states, steps, s := TakeMake(states, steps, s, GetStack(0, 4));
    assert s.procs == [x.(fork := NeedDir(1)), y.(kstack := 4, pc := First)];
    states, steps, s := TakeMake(states, steps, s, GetDir(0, 5));
    assert s.procs == [x.(fork := NeedParent(1)), y.(kstack := 4, pc := First, pgdir := 5)];
  }

  /**
   A run in which the property fails: init calls kill(0), which finds a slot that nobody uses, and
   then fork(), whose child is marked killed though no kill has come since it has a pid.
   */
  lemma BornKilled() returns (states: seq<State>, steps: seq<Step>, s: State)
    ensures Reaches(states, steps, s) && |s.procs| == 2 && s.procs[1].state == Runnable && s.procs[1].killed
    ensures KillsUnused(states, steps)
  {
    hide Reaches;
    states, steps, s := GetsPages();
    ReachesHere(states, steps, s);
    var x, y := s.procs[0], s.procs[1];
    states, steps, s := TakeMake(states, steps, s, SetParent(0));
    assert s.procs == [x.(fork := Ready(1)), y.(parent := Some(0))];
    states, steps, s := TakeSwitch(states, steps, s, Acquire(0));
    assert s.procs == [x.(fork := Ready(1), pc := In), y.(parent := Some(0))];
    states, steps, s := TakeMake(states, steps, s, Publish(0));
  }
}
