/**
 One sleep lock used by any number of processes: acquiresleep, releasesleep, and the sleep, wakeup
 and kill they rest on, one store or one lock operation at a time.  Every step is one of
 Wakeups.dfy's, or none, for a single channel whose condition is that the lock is not locked.

 `spin` is the holder of the lock's own spinlock and `table` the holder of ptable.lock.  A process
 that calls sleep() gives ptable.lock to the scheduler, which releases it; a process that is
 RUNNABLE takes it again before it returns from sleep().
 */
module SleepLock {
  import opened Common
  import W = Wakeups

  datatype Pc =
    | Outside
    // acquiresleep()
    | Wanting            // before acquire(&lk->lk)
    | Testing            // at the head of the while loop
    | ToSleep            // in sleep(), before acquire(&ptable.lock)
    | Letting            // before release(&lk->lk)
    | Dozing             // before p->state = SLEEPING
    | Switching          // SLEEPING, the scheduler about to release ptable.lock
    | Asleep             // switched out
    | Woken              // switched in again, ptable.lock held
    | Returning          // before acquire(&lk->lk) at the end of sleep()
    | Taken              // lk->locked set, before release(&lk->lk)
    | Holding
    // releasesleep()
    | Releasing          // before acquire(&lk->lk)
    | Freeing            // before lk->locked = 0
    | Waking             // in wakeup(), before acquire(&ptable.lock)
    | Scanning(w: nat)   // the loop of wakeup1() has come to slot w
    | Leaving            // before release(&lk->lk)
    // kill()
    | Killing            // ptable.lock held

  datatype State = State(pc: seq<Pc>, asleep: seq<bool>, spin: Option<nat>, table: Option<nat>, locked: bool,
                         pid: Option<nat>)

  datatype Step =
    | Acquire(p: nat)         // call acquiresleep()
    | Release(p: nat)         // call releasesleep()
    | Kill(p: nat)            // call kill()
    | Hit(p: nat, q: nat)     // kill() finds q
    | Go(p: nat)              // the next store or lock operation of the call p is in

  predicate Enabled(s: State, step: Step) {
    && step.p < |s.pc| == |s.asleep|
    && match step
       case Acquire(p) => s.pc[p] == Outside
       case Release(p) => s.pc[p] == Holding
       case Kill(p) => s.pc[p] == Outside && s.table == None
       case Hit(p, q) => s.pc[p] == Killing && q < |s.pc|
       case Go(p) =>
         match s.pc[p]
         case Wanting | Returning | Releasing => s.spin == None
         case ToSleep | Waking => s.table == None
         case Asleep => !s.asleep[p] && s.table == None
         case Outside | Holding | Killing => false
         case _ => true
  }

  /** Where the next store or lock operation leads; n is the number of slots. */
  function Next(pc: Pc, locked: bool, n: nat): Pc {
    match pc
    case Wanting => Testing
    case Testing => if locked then ToSleep else Taken
    case ToSleep => Letting
    case Letting => Dozing
    case Dozing => Switching
    case Switching => Asleep
    case Asleep => Woken
    case Woken => Returning
    case Returning => Testing
    case Taken => Holding
    case Releasing => Freeing
    case Freeing => Waking
    case Waking => Scanning(0)
    case Scanning(w) => if w < n then Scanning(w + 1) else Leaving
    case Leaving => Outside
    case Outside | Holding | Killing => pc
  }

  /** What it does to the two spinlocks, to lk->locked and lk->pid, and to the sleepers. */
  function Did(s: State, p: nat): State
    requires p < |s.pc| == |s.asleep|
  {
    match s.pc[p]
    case Wanting | Returning | Releasing => s.(spin := Some(p))
    case Letting | Taken | Leaving => s.(spin := None)
    case ToSleep | Waking | Asleep => s.(table := Some(p))
    case Switching | Woken => s.(table := None)
    case Testing => if s.locked then s else s.(locked := true, pid := Some(p))
    case Freeing => s.(locked := false, pid := None)
    case Dozing => s.(asleep := s.asleep[p := true])
    case Scanning(w) => if w < |s.pc| then s.(asleep := s.asleep[w := false]) else s.(table := None)
    case Outside | Holding | Killing => s
  }

  function Apply(s: State, step: Step): State
    requires Enabled(s, step)
  {
    match step
    case Acquire(p) => s.(pc := s.pc[p := Wanting])
    case Release(p) => s.(pc := s.pc[p := Releasing])
    case Kill(p) => s.(pc := s.pc[p := Killing], table := Some(p))
    case Hit(p, q) => s.(pc := s.pc[p := Outside], asleep := s.asleep[q := false], table := None)
    case Go(p) => Did(s, p).(pc := s.pc[p := Next(s.pc[p], s.locked, |s.pc|)])
  }

  ghost predicate Init(s: State) {
    && |s.asleep| == |s.pc| && s.spin == None && s.table == None && !s.locked && s.pid == None
    && forall p :: 0 <= p < |s.pc| ==> s.pc[p] == Outside && !s.asleep[p]
  }

  ghost predicate Run(states: seq<State>, steps: seq<Step>) {
    && |states| == |steps| + 1 && Init(states[0])
    && forall i :: 0 <= i < |steps| ==> Enabled(states[i], steps[i]) && states[i + 1] == Apply(states[i], steps[i])
  }

  // ---- The same as a run of Wakeups.dfy ----------------------------------------------------------

  /** The place in the code, where only sleep() and wakeup() are looked at. */
  function Place(pc: Pc): W.Pc {
    match pc
    case Outside | Wanting | Holding | Releasing => W.Out
    case Testing | Taken | Freeing | Leaving => W.In(0, {})
    case Waking => W.In(0, {0})
    case ToSleep => W.ToSleep(0)
    case Letting => W.Letting(0)
    case Dozing => W.Dozing(0)
    case Switching => W.Switching(0)
    case Asleep => W.Asleep(0)
    case Woken => W.Woken(0)
    case Returning => W.Returning(0)
    case Scanning(w) => W.Scanning(0, {}, 0, w)
    case Killing => W.Killing
  }

  function Places(pc: seq<Pc>): (r: seq<W.Pc>)
    ensures |r| == |pc| && forall i :: 0 <= i < |pc| ==> r[i] == Place(pc[i])
  {
    seq(|pc|, i requires 0 <= i < |pc| => Place(pc[i]))
  }

  function View(s: State): W.State {
    W.State([0], [!s.locked], [s.spin], s.table, Places(s.pc), s.asleep, {})
  }

  /** The step of Wakeups.dfy that a step is, if any. */
  function StepOf(s: State, step: Step): Option<W.Step>
    requires step.p < |s.pc|
  {
    match step
    case Acquire(p) => None
    case Release(p) => None
    case Kill(p) => Some(W.Kill(p))
    case Hit(p, q) => Some(W.Hit(p, q))
    case Go(p) =>
      match s.pc[p]
      case Wanting | Releasing => Some(W.Acquire(p, 0))
      case Testing => Some(if s.locked then W.Sleep(p, 0) else W.Act(p, [false]))
      case Freeing => Some(W.Act(p, [true]))
      case Waking => Some(W.Wakeup(p, 0))
      case Taken | Leaving => Some(W.Release(p))
      case _ => Some(W.Go(p))
  }

  lemma PlacesSet(pc: seq<Pc>, p: nat, x: Pc)
    requires p < |pc|
    ensures Places(pc[p := x]) == Places(pc)[p := Place(x)]
  {
  }

  /** wakeup1() passes over no sleeper: this lock has only one channel. */
  lemma ScansAll(s: State, w: nat)
    requires |s.asleep| == |s.pc| && w < |s.pc| && (s.asleep[w] ==> s.pc[w] == Switching || s.pc[w] == Asleep)
    ensures W.Scanned(View(s), 0, w) == s.asleep[w := false]
  {
  }

  lemma StepAllowed(s: State, step: Step)
    requires Enabled(s, step) && W.Shaped(View(s)) && StepOf(s, step).Some?
    ensures W.Enabled(View(s), StepOf(s, step).value)
  {
  }

  lemma OwesNone(g: W.State, p: nat)
    requires |g.cond| == 1 && p < |g.pc| && g.pc[p] == W.In(0, {})
    ensures W.Owed(g.cond, [false], {}) == {} && (!g.cond[0] ==> W.Owed(g.cond, [true], {}) == {0})
  {
  }

  /** The next place, seen from Wakeups.dfy. */
  lemma StepPlace(s: State, step: Step)
    requires Enabled(s, step) && W.Shaped(View(s)) && (s.pc[step.p] == Freeing ==> s.locked)
    ensures var c, now := StepOf(s, step), Apply(s, step).pc[step.p];
            if c == None then Place(now) == Place(s.pc[step.p])
            else W.Enabled(View(s), c.value) && Place(now) == W.NextPc(View(s), c.value)
  {
    hide W.Owed, W.Shaped, W.Enabled, W.NextPc;
    if StepOf(s, step).Some? {
      StepAllowed(s, step);
      if step.Go? && Place(s.pc[step.p]).In? {
        InsidePlace(s, step);
      } else {
        OutsidePlace(s, step);
      }
    }
  }

  lemma InsidePlace(s: State, step: Step)
    requires Enabled(s, step) && step.Go? && Place(s.pc[step.p]).In? && (s.pc[step.p] == Freeing ==> s.locked)
    requires StepOf(s, step).Some? && W.Enabled(View(s), StepOf(s, step).value)
    ensures Place(Apply(s, step).pc[step.p]) == W.NextPc(View(s), StepOf(s, step).value)
  {
    hide W.Owed, W.Enabled;
    if Place(s.pc[step.p]) == W.In(0, {}) {
      OwesNone(View(s), step.p);
    }
  }

  lemma OutsidePlace(s: State, step: Step)
    requires Enabled(s, step) && !(step.Go? && Place(s.pc[step.p]).In?)
    requires StepOf(s, step).Some? && W.Enabled(View(s), StepOf(s, step).value)
    ensures Place(Apply(s, step).pc[step.p]) == W.NextPc(View(s), StepOf(s, step).value)
  {
    hide W.Owed, W.Enabled;
  }

  /** Every step is a step of Wakeups.dfy, or leaves its state alone. */
  lemma Refines(s: State, step: Step)
    requires Enabled(s, step) && W.Inv(View(s)) && (s.pc[step.p] == Freeing ==> s.locked)
    ensures var c := StepOf(s, step);
            if c == None then View(Apply(s, step)) == View(s)
            else W.Enabled(View(s), c.value) && W.Apply(View(s), c.value) == View(Apply(s, step))
  {
    hide W.NextPc, W.Inv;
    ShapedView(s);
    StepPlace(s, step);
    PlacesSet(s.pc, step.p, Apply(s, step).pc[step.p]);
    if step.Go? && s.pc[step.p].Scanning? && s.pc[step.p].w < |s.pc| {
      SleeperPlace(s, s.pc[step.p].w);
      ScansAll(s, s.pc[step.p].w);
    }
  }

  lemma ShapedView(s: State)
    requires W.Inv(View(s))
    ensures W.Shaped(View(s))
  {
  }

  lemma SleeperPlace(s: State, w: nat)
    requires W.Inv(View(s)) && w < |s.pc|
    ensures |s.asleep| == |s.pc| && (s.asleep[w] ==> s.pc[w] == Switching || s.pc[w] == Asleep)
  {
    assert W.Waits(View(s), w);
  }

  // ---- The invariant ----------------------------------------------------------------------------

  predicate HasSpin(pc: Pc) {
    || pc == Testing || pc == ToSleep || pc == Letting || pc == Taken
    || pc == Freeing || pc == Waking || pc.Scanning? || pc == Leaving
  }

  /** Between `lk->locked = 1` and `lk->locked = 0`. */
  predicate Owns(pc: Pc) {
    pc == Taken || pc == Holding || pc == Releasing || pc == Freeing
  }

  predicate OwnsOk(s: State, p: nat)
    requires p < |s.pc|
  {
    Owns(s.pc[p]) ==> s.locked && s.pid == Some(p)
  }

  ghost predicate Inv(s: State) {
    && W.Inv(View(s))
    && (s.locked ==> s.pid.Some? && s.pid.value < |s.pc| && Owns(s.pc[s.pid.value])) && (!s.locked ==> s.pid == None)
    && forall p :: 0 <= p < |s.pc| ==> OwnsOk(s, p)
  }

  lemma InitInv(s: State)
    requires Init(s)
    ensures Inv(s)
  {
    W.InitInv(View(s));
  }

  lemma OwnerKept(s: State, step: Step)
    requires Inv(s) && Enabled(s, step)
    ensures var t := Apply(s, step);
            && |t.pc| == |s.pc|
            && (t.locked ==> t.pid.Some? && t.pid.value < |t.pc| && Owns(t.pc[t.pid.value]))
            && (!t.locked ==> t.pid == None)
            && forall p :: 0 <= p < |t.pc| ==> OwnsOk(t, p)
  {
    hide W.Inv;
    assert OwnsOk(s, step.p);
    forall q | 0 <= q < |s.pc| ensures OwnsOk(Apply(s, step), q) {
      assert OwnsOk(s, q);
    }
  }

  lemma InvKept(s: State, step: Step)
    requires Inv(s) && Enabled(s, step)
    ensures Inv(Apply(s, step))
  {
    hide W.Inv, W.Apply, W.Enabled, Apply;
    OwnerKept(s, step);
    assert OwnsOk(s, step.p);
    Refines(s, step);
    if StepOf(s, step).Some? {
      W.InvKept(View(s), StepOf(s, step).value);
    }
  }

  lemma {:induction false} RunInv(states: seq<State>, steps: seq<Step>, i: nat)
    requires Run(states, steps) && i < |states|
    ensures Inv(states[i])
  {
    hide Apply, Enabled, Inv;
    if i == 0 {
      InitInv(states[0]);
    } else {
      RunInv(states, steps, i - 1);
      InvKept(states[i - 1], steps[i - 1]);
    }
  }

  // ---- Every run --------------------------------------------------------------------------------

  /** At most one process is between acquiresleep() and releasesleep(); lk->pid names it. */
  lemma MutualExclusion(states: seq<State>, steps: seq<Step>, i: nat, p: nat, q: nat)
    requires Run(states, steps) && i < |states| && p < |states[i].pc| && q < |states[i].pc|
    requires Owns(states[i].pc[p]) && Owns(states[i].pc[q])
    ensures p == q && states[i].locked && states[i].pid == Some(p)
  {
    RunInv(states, steps, i);
    assert OwnsOk(states[i], p) && OwnsOk(states[i], q);
  }

  /** holdingsleep(), read under the spinlock, answers for exactly the process that holds the lock. */
  lemma HoldingSleep(states: seq<State>, steps: seq<Step>, i: nat, p: nat)
    requires Run(states, steps) && i < |states| && p < |states[i].pc|
    ensures states[i].locked && states[i].pid == Some(p) <==> Owns(states[i].pc[p])
    ensures states[i].pid.Some? <==> states[i].locked
  {
    RunInv(states, steps, i);
    assert OwnsOk(states[i], p);
  }

  /** A waker that is still inside its locked section will come to slot p. */
  predicate Pending(s: State, p: nat) {
    && s.spin.Some? && s.spin.value < |s.pc|
    && (s.pc[s.spin.value] == Waking || (s.pc[s.spin.value].Scanning? && s.pc[s.spin.value].w <= p))
  }

  /**
   A process that sleeps while the lock is not locked will be found by a waker that still holds the
   spinlock; so with that spinlock free, an unlocked lock has no sleeper.
   */
  lemma NoLostWakeup(states: seq<State>, steps: seq<Step>, i: nat, p: nat)
    requires Run(states, steps) && i < |states| && p < |states[i].pc|
    ensures |states[i].asleep| == |states[i].pc|
    ensures states[i].asleep[p] && !states[i].locked ==> Pending(states[i], p)
    ensures states[i].spin == None && !states[i].locked ==> !states[i].asleep[p]
  {
    RunInv(states, steps, i);
    SleepersPending(states[i], p);
  }

  lemma SleepersPending(s: State, p: nat)
    requires Inv(s) && p < |s.pc|
    ensures |s.asleep| == |s.pc| && (s.asleep[p] && !s.locked ==> Pending(s, p))
  {
    hide W.Inv;
    ShapedView(s);
    W.InvSafe(View(s), p);
  }

  /** Some process can go on with the call it is in. */
  predicate CanGo(s: State) {
    exists p :: 0 <= p < |s.pc| && (Enabled(s, Go(p)) || (s.pc[p] == Killing && Enabled(s, Hit(p, p))))
  }

  /** No deadlock: unless the lock is held, whoever is inside acquiresleep() or releasesleep() is not stuck. */
  lemma NeverStuck(states: seq<State>, steps: seq<Step>, i: nat, p: nat)
    requires Run(states, steps) && i < |states| && p < |states[i].pc|
    requires states[i].pc[p] != Outside && forall q :: 0 <= q < |states[i].pc| ==> states[i].pc[q] != Holding
    ensures CanGo(states[i])
  {
    RunInv(states, steps, i);
    NotStuck(states[i], p);
  }

  lemma NotStuck(s: State, p: nat)
    requires Inv(s) && p < |s.pc| && s.pc[p] != Outside && forall q :: 0 <= q < |s.pc| ==> s.pc[q] != Holding
    ensures CanGo(s)
  {
    hide W.Inv, Pending;
    HoldersThere(s);
    if s.table.Some? {
      var q := s.table.value;
      LocksHeld(s, q);
      assert Enabled(s, Go(q)) || (s.pc[q] == Killing && Enabled(s, Hit(q, q)));
    } else if s.spin.Some? {
      var q := s.spin.value;
      LocksHeld(s, q);
      assert Enabled(s, Go(q));
    } else if s.locked {
      var q := s.pid.value;
      LocksHeld(s, q);
      assert Enabled(s, Go(q));
    } else {
      LocksHeld(s, p);
      NobodySleeps(s, p);
      assert Enabled(s, Go(p));
    }
  }

  lemma NobodySleeps(s: State, p: nat)
    requires Inv(s) && p < |s.pc| && s.spin == None && !s.locked
    ensures |s.asleep| == |s.pc| && !s.asleep[p]
  {
    SleepersPending(s, p);
  }

  lemma HoldersThere(s: State)
    requires W.Inv(View(s))
    ensures |s.asleep| == |s.pc| && (s.spin.Some? ==> s.spin.value < |s.pc|) &&
            (s.table.Some? ==> s.table.value < |s.pc|)
  {
    assert W.LockOk(View(s), 0);
  }

  predicate HasTable(pc: Pc) {
    pc == Letting || pc == Dozing || pc == Switching || pc == Woken || pc.Scanning? || pc == Killing
  }

  lemma LocksHeld(s: State, p: nat)
    requires W.Inv(View(s)) && p < |s.pc|
    ensures (s.spin == Some(p) <==> HasSpin(s.pc[p])) && (s.table == Some(p) <==> HasTable(s.pc[p]))
  {
    assert W.Holds(View(s), p) && W.LockOk(View(s), 0);
  }

  // ---- Calls that go through --------------------------------------------------------------------

  /** A run, and the state it has come to. */
  ghost predicate Reaches(states: seq<State>, steps: seq<Step>, s: State) {
    Run(states, steps) && states[|steps|] == s
  }

  lemma Take(states: seq<State>, steps: seq<Step>, s: State, step: Step)
    returns (states2: seq<State>, steps2: seq<Step>, s2: State)
    requires Reaches(states, steps, s) && Enabled(s, step)
    ensures s2 == Apply(s, step) && Reaches(states2, steps2, s2) && states <= states2
  {
    hide Enabled, Apply, Init;
    states2, steps2, s2 := states + [Apply(s, step)], steps + [step], Apply(s, step);
    forall i | 0 <= i < |steps2|
      ensures Enabled(states2[i], steps2[i]) && states2[i + 1] == Apply(states2[i], steps2[i])
    {
      if i < |steps| {
        assert Enabled(states[i], steps[i]) && states[i + 1] == Apply(states[i], steps[i]);
      }
    }
  }

  /** A free lock goes to whoever asks for it. */
  lemma CanLock(states: seq<State>, steps: seq<Step>, s: State, p: nat)
    returns (states2: seq<State>, steps2: seq<Step>, s2: State)
    requires Reaches(states, steps, s) && |s.asleep| == |s.pc| && p < |s.pc| && s.pc[p] == Outside
    requires !s.locked && s.spin == None
    ensures Reaches(states2, steps2, s2) && states <= states2
    ensures s2 == s.(pc := s.pc[p := Holding], locked := true, pid := Some(p))
  {
    hide Reaches;
    states2, steps2, s2 := Take(states, steps, s, Acquire(p));
    states2, steps2, s2 := Take(states2, steps2, s2, Go(p));
    states2, steps2, s2 := Take(states2, steps2, s2, Go(p));
    states2, steps2, s2 := Take(states2, steps2, s2, Go(p));
    assert s2.pc == s.pc[p := Holding];
  }

  /** The sleepers when wakeup1() has come to slot w. */
  predicate RousedTo(was: seq<bool>, now: seq<bool>, w: nat) {
    |now| == |was| && forall q :: 0 <= q < |was| ==> now[q] == (was[q] && w <= q)
  }

  lemma {:induction false} CanScan(states: seq<State>, steps: seq<Step>, s: State, p: nat, was: seq<bool>)
    returns (states2: seq<State>, steps2: seq<Step>, s2: State)
    requires Reaches(states, steps, s) && |s.asleep| == |s.pc| && p < |s.pc| && s.pc[p].Scanning? && s.pc[p].w <= |s.pc|
    requires RousedTo(was, s.asleep, s.pc[p].w)
    ensures Reaches(states2, steps2, s2) && states <= states2
    ensures s2 == s.(pc := s.pc[p := Leaving], asleep := s2.asleep, table := None) && RousedTo(was, s2.asleep, |s.pc|)
    decreases |s.pc| - s.pc[p].w
  {
    hide Reaches;
    var w := s.pc[p].w;
    states2, steps2, s2 := Take(states, steps, s, Go(p));
    if w < |s.pc| {
      states2, steps2, s2 := CanScan(states2, steps2, s2, p, was);
    }
    assert s2.pc == s.pc[p := Leaving];
  }

  /** releasesleep() gives the lock up and wakes every sleeper. */
  lemma CanUnlock(states: seq<State>, steps: seq<Step>, s: State, p: nat)
    returns (states2: seq<State>, steps2: seq<Step>, s2: State)
    requires Reaches(states, steps, s) && |s.asleep| == |s.pc| && p < |s.pc| && s.pc[p] == Holding
    requires s.spin == None && s.table == None
    ensures Reaches(states2, steps2, s2) && states <= states2
    ensures s2 == s.(pc := s.pc[p := Outside], asleep := s2.asleep, locked := false, pid := None)
    ensures |s2.asleep| == |s.asleep| && forall q :: 0 <= q < |s2.asleep| ==> !s2.asleep[q]
  {
    hide Reaches;
    states2, steps2, s2 := Take(states, steps, s, Release(p));
    states2, steps2, s2 := Take(states2, steps2, s2, Go(p));
    states2, steps2, s2 := Take(states2, steps2, s2, Go(p));
    states2, steps2, s2 := Take(states2, steps2, s2, Go(p));
    assert s2.pc == s.pc[p := Scanning(0)] && RousedTo(s.asleep, s2.asleep, 0);
    states2, steps2, s2 := CanScan(states2, steps2, s2, p, s.asleep);
    states2, steps2, s2 := Take(states2, steps2, s2, Go(p));
    assert s2.pc == s.pc[p := Outside];
  }
}
