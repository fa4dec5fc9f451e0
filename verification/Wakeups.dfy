/**
 sleep, wakeup and kill of proc.c under any number of spinlocks and channels, one store or one lock
 operation at a time.

 A channel belongs to a spinlock and stands for a condition: a process that holds the lock and finds
 the condition false may sleep on the channel.  What the lock protects is not part of this module;
 only the truth of each condition is, and a process may change the conditions of a lock only while
 it holds that lock.  A process that makes a condition true owes its channel a wakeup.  A channel
 whose wakeup was still owed when the lock was released has lapsed, until it is woken or its
 condition is false again.

 A process that calls sleep() gives ptable.lock to the scheduler, which releases it; a process that
 is RUNNABLE takes it again before it returns from sleep().
 */
module Wakeups {
  import opened Common

  datatype Pc =
    | Out                                                // holds no lock
    | In(l: nat, owed: set<nat>)                         // holds lock l
    // sleep()
    | ToSleep(ch: nat)                                   // before acquire(&ptable.lock)
    | Letting(ch: nat)                                   // before release(lk)
    | Dozing(ch: nat)                                    // before p->state = SLEEPING
    | Switching(ch: nat)                                 // SLEEPING, the scheduler about to release ptable.lock
    | Asleep(ch: nat)                                    // switched out
    | Woken(ch: nat)                                     // switched in again, ptable.lock held
    | Returning(ch: nat)                                 // before acquire(lk)
    // wakeup(), called with lock l held
    | Scanning(l: nat, owed: set<nat>, ch: nat, w: nat)  // the loop of wakeup1() has come to slot w
    // kill()
    | Killing                                            // ptable.lock held

  /** lockOf[ch] is the lock of channel ch, and cond[ch] its condition. */
  datatype State = State(lockOf: seq<nat>, cond: seq<bool>, locks: seq<Option<nat>>, table: Option<nat>,
                         pc: seq<Pc>, asleep: seq<bool>, lapsed: set<nat>)

  datatype Step =
    | Acquire(p: nat, l: nat)
    | Act(p: nat, cond: seq<bool>)   // a store under the lock, and what it makes of the conditions
    | Sleep(p: nat, ch: nat)         // call sleep()
    | Wakeup(p: nat, ch: nat)        // call wakeup(), as far as acquire(&ptable.lock)
    | Release(p: nat)
    | Kill(p: nat)                   // call kill(), as far as acquire(&ptable.lock)
    | Hit(p: nat, q: nat)            // kill() finds q
    | Go(p: nat)                     // the next store or lock operation of the sleep() or wakeup() p is in

  ghost predicate Enabled(s: State, step: Step) {
    && Shaped(s) && step.p < |s.pc|
    && match step
       case Acquire(p, l) => s.pc[p] == Out && l < |s.locks| && s.locks[l] == None
       case Act(p, cond) =>
         && s.pc[p].In? && |cond| == |s.cond|
         && forall ch :: 0 <= ch < |cond| && s.lockOf[ch] != s.pc[p].l ==> cond[ch] == s.cond[ch]
       case Sleep(p, ch) => ch < |s.cond| && s.pc[p] == In(s.lockOf[ch], {}) && !s.cond[ch]
       case Wakeup(p, ch) => ch < |s.cond| && s.pc[p].In? && s.pc[p].l == s.lockOf[ch] && s.table == None
       case Release(p) => s.pc[p].In?
       case Kill(p) => s.pc[p] == Out && s.table == None
       case Hit(p, q) => s.pc[p] == Killing && q < |s.pc|
       case Go(p) =>
         match s.pc[p]
         case ToSleep(_) => s.table == None
         case Asleep(_) => !s.asleep[p] && s.table == None
         case Returning(ch) => s.locks[s.lockOf[ch]] == None
         case Out | In(_, _) | Killing => false
         case _ => true
  }

  /** The channels whose conditions are true and were not, or that were owed a wakeup already. */
  function Owed(was: seq<bool>, now: seq<bool>, owed: set<nat>): set<nat>
    requires |was| == |now|
  {
    set ch: nat | ch < |now| && now[ch] && (ch in owed || !was[ch])
  }

  predicate On(pc: Pc, ch: nat) {
    pc == Dozing(ch) || pc == Switching(ch) || pc == Asleep(ch)
  }

  /** One slot of wakeup1()'s loop. */
  function Scanned(s: State, ch: nat, w: nat): seq<bool>
    requires w < |s.pc| == |s.asleep|
  {
    if On(s.pc[w], ch) then s.asleep[w := false] else s.asleep
  }

  /** Where the step takes the process. */
  function NextPc(s: State, step: Step): Pc
    requires step.p < |s.pc| && |s.lockOf| == |s.cond| && PcShaped(s, s.pc[step.p])
    requires step.Act? ==> s.pc[step.p].In? && |step.cond| == |s.cond|
    requires step.Wakeup? ==> s.pc[step.p].In?
  {
    match step
    case Acquire(p, l) => In(l, {})
    case Act(p, cond) => In(s.pc[p].l, Owed(s.cond, cond, s.pc[p].owed))
    case Sleep(p, ch) => ToSleep(ch)
    case Wakeup(p, ch) => Scanning(s.pc[p].l, s.pc[p].owed - {ch}, ch, 0)
    case Release(p) => Out
    case Kill(p) => Killing
    case Hit(p, q) => Out
    case Go(p) =>
      match s.pc[p]
      case ToSleep(ch) => Letting(ch)
      case Letting(ch) => Dozing(ch)
      case Dozing(ch) => Switching(ch)
      case Switching(ch) => Asleep(ch)
      case Asleep(ch) => Woken(ch)
      case Woken(ch) => Returning(ch)
      case Returning(ch) => In(s.lockOf[ch], {})
      case Scanning(l, owed, ch, w) => if w < |s.pc| then Scanning(l, owed, ch, w + 1) else In(l, owed)
      case Out | In(_, _) | Killing => s.pc[p]
  }

  /** What it does to the locks and the sleepers. */
  ghost function Did(s: State, step: Step): State
    requires Enabled(s, step)
  {
    match step
    case Acquire(p, l) => s.(locks := s.locks[l := Some(p)])
    case Act(p, cond) => s.(cond := cond, lapsed := set ch | ch in s.lapsed && ch < |cond| && cond[ch])
    case Sleep(p, ch) => s
    case Wakeup(p, ch) => s.(table := Some(p), lapsed := s.lapsed - {ch})
    case Release(p) => s.(locks := s.locks[s.pc[p].l := None], lapsed := s.lapsed + s.pc[p].owed)
    case Kill(p) => s.(table := Some(p))
    case Hit(p, q) => s.(asleep := s.asleep[q := false], table := None)
    case Go(p) =>
      match s.pc[p]
      case ToSleep(_) | Asleep(_) => s.(table := Some(p))
      case Switching(_) | Woken(_) => s.(table := None)
      case Letting(ch) => s.(locks := s.locks[s.lockOf[ch] := None])
      case Returning(ch) => s.(locks := s.locks[s.lockOf[ch] := Some(p)])
      case Dozing(_) => s.(asleep := s.asleep[p := true])
      case Scanning(l, owed, ch, w) => if w < |s.pc| then s.(asleep := Scanned(s, ch, w)) else s.(table := None)
      case Out | In(_, _) | Killing => s
  }

  ghost function Apply(s: State, step: Step): State
    requires Enabled(s, step)
  {
    Did(s, step).(pc := s.pc[step.p := NextPc(s, step)])
  }

  ghost predicate Init(s: State) {
    && Shaped(s) && s.table == None && s.lapsed == {}
    && (forall l :: 0 <= l < |s.locks| ==> s.locks[l] == None)
    && forall p :: 0 <= p < |s.pc| ==> s.pc[p] == Out && !s.asleep[p]
  }

  // ---- The invariant ----------------------------------------------------------------------------

  /** The process is at a place of the code that the locks and channels allow. */
  predicate PcShaped(s: State, pc: Pc) {
    match pc
    case Out | Killing => true
    case In(l, _) => l < |s.locks|
    case Scanning(l, _, ch, _) => ch < |s.cond| == |s.lockOf| && l == s.lockOf[ch] < |s.locks|
    case _ => pc.ch < |s.cond|
  }

  /** The lock a process at pc holds. */
  function Held(s: State, pc: Pc): Option<nat>
    requires PcShaped(s, pc) && |s.lockOf| == |s.cond|
  {
    match pc
    case In(l, _) => Some(l)
    case Scanning(l, _, _, _) => Some(l)
    case ToSleep(ch) => Some(s.lockOf[ch])
    case Letting(ch) => Some(s.lockOf[ch])
    case _ => None
  }

  predicate HasTable(pc: Pc) {
    pc.Letting? || pc.Dozing? || pc.Switching? || pc.Woken? || pc.Scanning? || pc == Killing
  }

  /** What a process holds is recorded as held by it. */
  predicate Holds(s: State, p: nat)
    requires p < |s.pc| && PcShaped(s, s.pc[p]) && |s.lockOf| == |s.cond|
  {
    var l := Held(s, s.pc[p]);
    (l.Some? ==> l.value < |s.locks| && s.locks[l.value] == Some(p)) && (HasTable(s.pc[p]) <==> s.table == Some(p))
  }

  /** A lock that is held is held by a process at such a place. */
  predicate LockOk(s: State, l: nat)
    requires l < |s.locks| && |s.lockOf| == |s.cond|
  {
    var h := s.locks[l];
    h.Some? ==> h.value < |s.pc| && PcShaped(s, s.pc[h.value]) && Held(s, s.pc[h.value]) == Some(l)
  }

  /** The holder of the channel's lock owes it a wakeup, or is waking it and will come to slot p. */
  predicate Pending(s: State, ch: nat, p: nat)
    requires ch < |s.lockOf| && s.lockOf[ch] < |s.locks|
  {
    var h := s.locks[s.lockOf[ch]];
    && h.Some? && h.value < |s.pc|
    && match s.pc[h.value]
       case In(_, owed) => ch in owed
       case Scanning(_, owed, c, w) => ch in owed || (c == ch && w <= p)
       case _ => false
  }

  predicate Waits(s: State, p: nat)
    requires p < |s.pc| == |s.asleep| && PcShaped(s, s.pc[p]) && Channels(s)
  {
    var pc := s.pc[p];
    && (s.asleep[p] ==> pc.Switching? || pc.Asleep?)
    && (pc.ToSleep? || pc.Letting? ==> !s.cond[pc.ch])
    && (pc.Dozing? || s.asleep[p] ==> s.cond[pc.ch] && pc.ch !in s.lapsed ==> Pending(s, pc.ch, p))
  }

  predicate Channels(s: State) {
    |s.lockOf| == |s.cond| && forall ch :: 0 <= ch < |s.lockOf| ==> s.lockOf[ch] < |s.locks|
  }

  ghost predicate Shaped(s: State) {
    && Channels(s) && |s.asleep| == |s.pc|
    && forall p :: 0 <= p < |s.pc| ==> PcShaped(s, s.pc[p])
  }

  ghost predicate Inv(s: State) {
    && Shaped(s) && (s.table.Some? ==> s.table.value < |s.pc|)
    && (forall l :: 0 <= l < |s.locks| ==> LockOk(s, l))
    && forall p :: 0 <= p < |s.pc| ==> Holds(s, p) && Waits(s, p)
  }

  lemma InitInv(s: State)
    requires Init(s)
    ensures Inv(s)
  {
  }

  lemma StepShaped(s: State, step: Step)
    requires Enabled(s, step)
    ensures Shaped(Apply(s, step)) && |Apply(s, step).pc| == |s.pc| && |Apply(s, step).locks| == |s.locks|
    ensures Apply(s, step).table == s.table || Apply(s, step).table == None || Apply(s, step).table == Some(step.p)
  {
  }

  lemma LockKept(s: State, step: Step, l: nat)
    requires Enabled(s, step) && l < |s.locks| && LockOk(s, l) && Holds(s, step.p)
    requires Shaped(Apply(s, step)) && |Apply(s, step).locks| == |s.locks|
    ensures LockOk(Apply(s, step), l)
  {
    hide Owed, Scanned;
  }

  lemma SelfHolds(s: State, step: Step)
    requires Enabled(s, step) && Holds(s, step.p)
    requires Shaped(Apply(s, step)) && |Apply(s, step).pc| == |s.pc|
    ensures Holds(Apply(s, step), step.p)
  {
    hide Owed, Scanned;
  }

  lemma OtherHolds(s: State, step: Step, q: nat)
    requires Enabled(s, step) && q < |s.pc| && q != step.p && Holds(s, step.p) && Holds(s, q)
    requires Shaped(Apply(s, step)) && |Apply(s, step).pc| == |s.pc|
    ensures Holds(Apply(s, step), q)
  {
    hide Owed, Scanned;
  }

  lemma SelfWaits(s: State, step: Step)
    requires Enabled(s, step) && Holds(s, step.p) && Waits(s, step.p)
    requires Shaped(Apply(s, step)) && |Apply(s, step).pc| == |s.pc|
    ensures Waits(Apply(s, step), step.p)
  {
  }

  /** A process at rest, while another takes a step: the wakeup that was pending still is, or has come. */
  lemma OtherWaits(s: State, step: Step, q: nat)
    requires Enabled(s, step) && q < |s.pc| && q != step.p && Holds(s, step.p) && Holds(s, q) && Waits(s, q)
    requires !step.Act? && !step.Go?
    requires Shaped(Apply(s, step)) && |Apply(s, step).pc| == |s.pc|
    ensures Waits(Apply(s, step), q)
  {
  }

  lemma ActWaits(s: State, step: Step, q: nat)
    requires Enabled(s, step) && q < |s.pc| && q != step.p && Holds(s, step.p) && Holds(s, q) && Waits(s, q)
    requires step.Act?
    requires Shaped(Apply(s, step)) && |Apply(s, step).pc| == |s.pc|
    ensures Waits(Apply(s, step), q)
  {
  }

  lemma GoWaits(s: State, step: Step, q: nat)
    requires Enabled(s, step) && q < |s.pc| && q != step.p && Holds(s, step.p) && Holds(s, q) && Waits(s, q)
    requires step.Go?
    requires Shaped(Apply(s, step)) && |Apply(s, step).pc| == |s.pc|
    ensures Waits(Apply(s, step), q)
  {
  }

  lemma InvKept(s: State, step: Step)
    requires Enabled(s, step) && Inv(s)
    ensures Inv(Apply(s, step))
  {
    hide LockOk, Holds, Waits;
    StepShaped(s, step);
    forall l | 0 <= l < |s.locks| ensures LockOk(Apply(s, step), l) {
      LockKept(s, step, l);
    }
    forall q | 0 <= q < |s.pc| ensures Holds(Apply(s, step), q) && Waits(Apply(s, step), q) {
      if q == step.p {
        SelfHolds(s, step);
        SelfWaits(s, step);
      } else {
        OtherHolds(s, step, q);
        if step.Act? {
          ActWaits(s, step, q);
        } else if step.Go? {
          GoWaits(s, step, q);
        } else {
          OtherWaits(s, step, q);
        }
      }
    }
  }

  // ---- What a user of this module has to know of a step -------------------------------------------

  lemma Effects(g: State, step: Step)
    requires Enabled(g, step)
    ensures var t := Apply(g, step);
            && t.pc == g.pc[step.p := NextPc(g, step)] && t.lockOf == g.lockOf && |t.locks| == |g.locks|
            && t.cond == (if step.Act? then step.cond else g.cond)
            && t.lapsed <= g.lapsed + (if step.Release? then g.pc[step.p].owed else {})
            && (step.Wakeup? ==> step.ch !in t.lapsed)
            && forall ch :: step.Act? && ch in t.lapsed ==> ch < |step.cond| && step.cond[ch]
  {
  }

  /** sleep() and wakeup() bring a process back into the lock, owing nothing new. */
  lemma InsideCall(g: State, step: Step)
    requires Enabled(g, step) && (step.Go? || step.Hit?)
    ensures var pc, next := g.pc[step.p], NextPc(g, step);
            && (step.Hit? ==> pc == Killing && next == Out)
            && (step.Go? && pc.Scanning? ==> (next.Scanning? || next.In?) && next.owed == pc.owed)
            && (step.Go? && !pc.Scanning? ==>
                !pc.In? && !pc.Out? && !pc.Killing? && !next.Out? && !next.Killing? && !next.Scanning?)
            && (step.Go? && !pc.Scanning? && next.In? ==> next.owed == {})
  {
  }

  // ---- Every run --------------------------------------------------------------------------------

  ghost predicate Run(states: seq<State>, steps: seq<Step>) {
    && |states| == |steps| + 1 && Init(states[0])
    && forall i :: 0 <= i < |steps| ==> Enabled(states[i], steps[i]) && states[i + 1] == Apply(states[i], steps[i])
  }

  lemma {:induction false} RunInv(states: seq<State>, steps: seq<Step>, i: nat)
    requires Run(states, steps) && i < |states|
    ensures Inv(states[i])
  {
    hide Apply, Enabled, Inv;
    if i == 0 {
      InitInv(states[0]);
    } else {
      RunInv(states, steps, i - 1);
      InvKept(states[i - 1], steps[i - 1]);
    }
  }

  /** What the invariant says of a sleeper. */
  ghost predicate Safe(s: State, p: nat)
    requires Shaped(s) && p < |s.pc|
  {
    s.asleep[p] ==>
      && (s.pc[p].Switching? || s.pc[p].Asleep?)
      && var ch := s.pc[p].ch;
      && (s.cond[ch] && ch !in s.lapsed ==> Pending(s, ch, p))
      && (s.cond[ch] && s.locks[s.lockOf[ch]] == None ==> ch in s.lapsed)
  }

  lemma InvSafe(s: State, p: nat)
    requires Inv(s) && p < |s.pc|
    ensures Safe(s, p)
  {
    assert Waits(s, p);
  }

  /**
   A process that sleeps on a channel whose condition is true, and whose wakeup nobody forgot, will
   be found by a process that still holds the channel's lock; so with that lock free, nobody sleeps
   on a condition that is true unless its wakeup was forgotten.
   */
  lemma NoLostWakeup(states: seq<State>, steps: seq<Step>, i: nat, p: nat)
    requires Run(states, steps) && i < |states| && p < |states[i].pc|
    ensures Shaped(states[i]) && Safe(states[i], p)
  {
    RunInv(states, steps, i);
    InvSafe(states[i], p);
  }

  /** In a run that releases no lock while it owes a wakeup, nothing lapses. */
  lemma {:induction false} NothingLapses(states: seq<State>, steps: seq<Step>, i: nat)
    requires Run(states, steps) && i < |states|
    requires forall j :: 0 <= j < |steps| && steps[j].Release? ==> states[j].pc[steps[j].p].owed == {}
    ensures states[i].lapsed == {}
  {
    if i > 0 {
      NothingLapses(states, steps, i - 1);
      var s, step := states[i - 1], steps[i - 1];
      assert Enabled(s, step) && states[i - 1 + 1] == Apply(s, step);
    }
  }

  // ---- Who sleeps -------------------------------------------------------------------------------

  /** SLEEPING on the channel. */
  predicate SleepsOn(pc: Pc, ch: nat) {
    (pc.Switching? || pc.Asleep?) && pc.ch == ch
  }

  /** wakeup1() comes to slot p, and p is asleep on its channel, or kill() finds p. */
  predicate Rouses(s: State, step: Step, p: nat)
    requires p < |s.pc| && step.p < |s.pc|
  {
    || (step.Hit? && step.q == p)
    || (step.Go? && s.pc[step.p].Scanning? && s.pc[step.p].w == p && SleepsOn(s.pc[p], s.pc[step.p].ch))
  }

  /** p has gone to sleep, and nobody has roused it since. */
  ghost predicate SleptSince(states: seq<State>, steps: seq<Step>, i: nat, p: nat)
    requires i <= |steps| < |states|
    requires forall j :: 0 <= j < i ==> p < |states[j].pc| && steps[j].p < |states[j].pc|
  {
    i > 0 &&
    (var s, step := states[i - 1], steps[i - 1];
     (step == Go(p) && s.pc[p].Dozing?) || (SleptSince(states, steps, i - 1, p) && !Rouses(s, step, p)))
  }

  lemma {:induction false} SlotsStay(states: seq<State>, steps: seq<Step>, i: nat)
    requires Run(states, steps) && i < |states|
    ensures |states[i].pc| == |states[i].asleep| == |states[0].pc|
    ensures forall j :: 0 <= j < i ==> |states[j].pc| == |states[0].pc| && steps[j].p < |states[j].pc|
  {
    if i > 0 {
      SlotsStay(states, steps, i - 1);
      assert Enabled(states[i - 1], steps[i - 1]) && states[i - 1 + 1] == Apply(states[i - 1], steps[i - 1]);
    }
  }

  lemma StepRouses(s: State, step: Step, p: nat)
    requires Enabled(s, step) && p < |s.pc| && Waits(s, p)
    ensures Apply(s, step).asleep[p] <==> (step == Go(p) && s.pc[p].Dozing?) || (s.asleep[p] && !Rouses(s, step, p))
  {
  }

  /** A process is asleep exactly when it has gone to sleep and has been neither woken nor killed since. */
  lemma {:induction false} AsleepExactly(states: seq<State>, steps: seq<Step>, i: nat, p: nat)
    requires Run(states, steps) && i < |states| && p < |states[0].pc|
    ensures |states[i].pc| == |states[i].asleep| == |states[0].pc|
    ensures forall j :: 0 <= j < i ==> p < |states[j].pc| && steps[j].p < |states[j].pc|
    ensures states[i].asleep[p] <==> SleptSince(states, steps, i, p)
  {
    hide Apply, Enabled, Rouses;
    SlotsStay(states, steps, i);
    if i > 0 {
      AsleepExactly(states, steps, i - 1, p);
      RunInv(states, steps, i - 1);
      assert Enabled(states[i - 1], steps[i - 1]) && states[i - 1 + 1] == Apply(states[i - 1], steps[i - 1]);
      StepRouses(states[i - 1], steps[i - 1], p);
    }
  }
}
