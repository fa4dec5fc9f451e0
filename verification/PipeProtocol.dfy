/**
 Who sleeps on a pipe: pipewrite, piperead and pipeclose of pipe.c by any number of processes, on the
 sleep and wakeup of Wakeups.dfy.

 Only the number of bytes in the pipe is kept here; which bytes come out is the subject of Pipe.dfy.
 */
module PipeProtocol {
  import opened Common
  import opened Pipe
  import W = Wakeups

  const NREAD := 0    // the channel &p->nread, and the lock p->lock
  const NWRITE := 1   // the channel &p->nwrite

  /** Where a process is in its call, apart from sleep() and wakeup(). */
  datatype Job =
    | Idle
    | WriteLoop(left: nat)    // head of pipewrite()'s loops, with so many bytes to go
    | WriteFull(left: nat)    // the pipe is full: before wakeup(&p->nread)
    | WriteSleep(left: nat)   // before sleep(&p->nwrite)
    | WriteFail               // before release() and -1
    | ReadLoop(n: nat)        // head of piperead()'s first loop
    | Reading(n: nat)         // head of its second loop
    | Closing(writable: bool) // before p->writeopen = 0 or p->readopen = 0
    | Wakes(ch: nat)          // before the last wakeup()
    | Leaving                 // before release()

  /**
   `quit` is bookkeeping that pipe.c does not have: the writer, if any, that gave up with bytes in the
   pipe that it had not announced, where readers were not woken and the pipe was not emptied since.
   */
  datatype State = State(g: W.State, count: nat, readopen: bool, writeopen: bool, killed: seq<bool>, job: seq<Job>,
                         quit: Option<nat>)

  datatype Step =
    | Enter(p: nat, job: Job)   // a call, as far as acquire(&p->lock)
    | Move(p: nat)              // the next thing done with the lock held
    | Inside(p: nat)            // the next step of sleep() or wakeup()
    | Kill(p: nat)
    | Hit(p: nat, q: nat)       // kill() of q

  /** A reader need not wait, and a writer need not wait. */
  predicate Ready(count: nat, writeopen: bool) {
    count > 0 || !writeopen
  }

  predicate Room(count: nat, readopen: bool) {
    count < PIPESIZE || !readopen
  }

  function Conds(count: nat, readopen: bool, writeopen: bool): seq<bool> {
    [Ready(count, writeopen), Room(count, readopen)]
  }

  /** What a process inside the lock does next: the store, and the call on the locks, if any. */
  datatype Action = Action(count: nat, readopen: bool, writeopen: bool, job: Job, call: Option<W.Step>)

  function Goes(s: State, job: Job): Action {
    Action(s.count, s.readopen, s.writeopen, job, None)
  }

  function Calls(s: State, job: Job, call: W.Step): Action {
    Action(s.count, s.readopen, s.writeopen, job, Some(call))
  }

  function Store(p: nat, count: nat, readopen: bool, writeopen: bool, job: Job): Action {
    Action(count, readopen, writeopen, job, Some(W.Act(p, Conds(count, readopen, writeopen))))
  }

  function Acts(s: State, p: nat): Action
    requires p < |s.job| == |s.killed|
  {
    match s.job[p]
    case WriteLoop(left) =>
      if left == 0 then Goes(s, Wakes(NREAD))
      else if s.count >= PIPESIZE then Goes(s, if !s.readopen || s.killed[p] then WriteFail else WriteFull(left))
      else Store(p, s.count + 1, s.readopen, s.writeopen, WriteLoop(left - 1))
    case WriteFull(left) => Calls(s, WriteSleep(left), W.Wakeup(p, NREAD))
    case WriteSleep(left) => Calls(s, WriteLoop(left), W.Sleep(p, NWRITE))
    case ReadLoop(n) =>
      if s.count > 0 || !s.writeopen then Goes(s, Reading(n))
      else if s.killed[p] then Goes(s, Leaving)
      else Calls(s, ReadLoop(n), W.Sleep(p, NREAD))
    case Reading(n) =>
      if n == 0 || s.count == 0 then Goes(s, Wakes(NWRITE))
      else Store(p, s.count - 1, s.readopen, s.writeopen, Reading(n - 1))
    case Closing(writable) =>
      if writable then Store(p, s.count, s.readopen, false, Wakes(NREAD))
      else Store(p, s.count, false, s.writeopen, Wakes(NWRITE))
    case Wakes(ch) => Calls(s, Leaving, W.Wakeup(p, ch))
    case WriteFail | Leaving | Idle => Calls(s, Idle, W.Release(p))
  }

  ghost predicate Enabled(s: State, step: Step) {
    && step.p < |s.job| == |s.g.pc| == |s.killed|
    && match step
       case Enter(p, job) =>
         && s.job[p] == Idle && (job.WriteLoop? || job.ReadLoop? || job.Closing?) && W.Enabled(s.g, W.Acquire(p, 0))
       case Move(p) => s.g.pc[p].In? && (Acts(s, p).call.Some? ==> W.Enabled(s.g, Acts(s, p).call.value))
       case Inside(p) => W.Enabled(s.g, W.Go(p))
       case Kill(p) => s.job[p] == Idle && W.Enabled(s.g, W.Kill(p))
       case Hit(p, q) => q < |s.job| && W.Enabled(s.g, W.Hit(p, q))
  }

  function Quits(s: State, p: nat): Option<nat>
    requires p < |s.job| == |s.killed| == |s.g.pc| && s.g.pc[p].In?
  {
    var a := Acts(s, p);
    var emptied := a.call.Some? && a.call.value.Act? && !Ready(a.count, a.writeopen);
    if emptied || a.call == Some(W.Wakeup(p, NREAD)) then None
    else if s.job[p] == WriteFail && NREAD in s.g.pc[p].owed then Some(p)
    else s.quit
  }

  ghost function Apply(s: State, step: Step): State
    requires Enabled(s, step)
  {
    match step
    case Enter(p, job) => s.(g := W.Apply(s.g, W.Acquire(p, 0)), job := s.job[p := job])
    case Move(p) =>
      var a := Acts(s, p);
      State(if a.call.Some? then W.Apply(s.g, a.call.value) else s.g, a.count, a.readopen, a.writeopen, s.killed,
            s.job[p := a.job], Quits(s, p))
    case Inside(p) => s.(g := W.Apply(s.g, W.Go(p)))
    case Kill(p) => s.(g := W.Apply(s.g, W.Kill(p)))
    case Hit(p, q) => s.(g := W.Apply(s.g, W.Hit(p, q)), killed := s.killed[q := true])
  }

  ghost predicate Init(s: State) {
    && W.Init(s.g) && s.g.lockOf == [0, 0] && |s.g.locks| == 1 && s.g.cond == Conds(0, true, true)
    && s.count == 0 && s.readopen && s.writeopen && s.quit == None && |s.job| == |s.g.pc| == |s.killed|
    && forall p :: 0 <= p < |s.job| ==> s.job[p] == Idle && !s.killed[p]
  }

  ghost predicate Run(states: seq<State>, steps: seq<Step>) {
    && |states| == |steps| + 1 && Init(states[0])
    && forall i :: 0 <= i < |steps| ==> Enabled(states[i], steps[i]) && states[i + 1] == Apply(states[i], steps[i])
  }

  // ---- The invariant ----------------------------------------------------------------------------

  /** The channels that a process may owe a wakeup at this point. */
  function Debt(job: Job): set<nat> {
    match job
    case WriteLoop(_) | WriteFull(_) | WriteFail => {NREAD}
    case Reading(_) => {NWRITE}
    case Wakes(ch) => {ch}
    case _ => {}
  }

  predicate Fits(pc: W.Pc, job: Job, count: nat, readopen: bool, killed: bool) {
    && (job.WriteFull? || job.WriteSleep? ==> count == PIPESIZE && readopen)
    && (job == WriteFail ==> !readopen || killed)
    && (job.Wakes? ==> job.ch == NREAD || job.ch == NWRITE)
    && match pc
       case Out | Killing => job == Idle
       case In(l, owed) => l == 0 && job != Idle && owed <= Debt(job)
       case Scanning(l, owed, _, _) => l == 0 && (job.WriteSleep? || job == Leaving) && owed == {}
       case _ => (job.WriteLoop? && pc.ch == NWRITE) || (job.ReadLoop? && pc.ch == NREAD)
  }

  predicate JobOk(s: State, p: nat)
    requires p < |s.job| == |s.g.pc| == |s.killed|
  {
    Fits(s.g.pc[p], s.job[p], s.count, s.readopen, s.killed[p])
  }

  /** A writer gives up only when it was killed or nobody can read. */
  predicate QuitOk(s: State) {
    s.quit.Some? ==> s.quit.value < |s.killed| && (s.killed[s.quit.value] || !s.readopen)
  }

  ghost predicate DataOk(s: State) {
    && s.g.lockOf == [0, 0] && |s.g.locks| == 1 && s.g.cond == Conds(s.count, s.readopen, s.writeopen)
    && |s.job| == |s.g.pc| == |s.killed| && s.count <= PIPESIZE && LapsedOk(s)
  }

  /** Only the readers' wakeup can be forgotten, and only by a writer that gives up. */
  predicate LapsedOk(s: State) {
    s.g.lapsed <= {NREAD} && (s.g.lapsed != {} ==> s.quit.Some?) && QuitOk(s)
  }

  ghost predicate Inv(s: State) {
    W.Inv(s.g) && DataOk(s) && forall p :: 0 <= p < |s.job| ==> JobOk(s, p)
  }

  /** What a process inside the lock does next is always allowed: in particular it may sleep when it has to. */
  lemma NeverBlocked(s: State, p: nat)
    requires Inv(s) && p < |s.job| && s.g.pc[p].In?
    ensures Enabled(s, Move(p)) || (s.g.table != None && Acts(s, p).call.Some? && Acts(s, p).call.value.Wakeup?)
  {
    hide W.Apply, W.Waits, W.LockOk, W.Holds;
    assert JobOk(s, p) && W.PcShaped(s.g, s.g.pc[p]);
  }

  lemma OwedWithin(was: seq<bool>, now: seq<bool>, owed: set<nat>, ch: nat)
    requires |was| == |now| == 2 && ch < 2 && owed <= {ch} && (now[1 - ch] ==> was[1 - ch])
    ensures W.Owed(was, now, owed) <= {ch}
  {
  }

  /** Writing makes only bytes, and reading only room. */
  lemma StoreOwes(s: State, p: nat)
    requires p < |s.job| == |s.g.pc| == |s.killed| && JobOk(s, p) && s.g.pc[p].In? && s.count <= PIPESIZE
    requires s.g.cond == Conds(s.count, s.readopen, s.writeopen) && Acts(s, p).call.Some? && Acts(s, p).call.value.Act?
    ensures var a := Acts(s, p); W.Owed(s.g.cond, a.call.value.cond, s.g.pc[p].owed) <= Debt(a.job)
  {
    hide W.Owed;
    var a := Acts(s, p);
    var ch := if s.job[p].WriteLoop? || s.job[p] == Closing(true) then NREAD else NWRITE;
    OwedWithin(s.g.cond, a.call.value.cond, s.g.pc[p].owed, ch);
  }

  /** The process that moves. */
  lemma MoverFits(s: State, p: nat)
    requires DataOk(s) && p < |s.job| && JobOk(s, p) && s.g.pc[p].In?
    requires Acts(s, p).call.Some? ==> W.Enabled(s.g, Acts(s, p).call.value)
    ensures var a := Acts(s, p);
            && (a.call.Some? ==>
                a.call.value.p == p && Fits(W.NextPc(s.g, a.call.value), a.job, a.count, a.readopen, s.killed[p]))
            && (a.call == None ==> Fits(s.g.pc[p], a.job, a.count, a.readopen, s.killed[p]))
  {
    hide W.Enabled, W.Owed, Conds;
    var a := Acts(s, p);
    if a.call.Some? && a.call.value.Act? {
      StoreOwes(s, p);
    }
  }

  /** The call on the locks of a step that is not a move. */
  function Call(step: Step): W.Step
    requires !step.Move?
  {
    match step
    case Enter(p, _) => W.Acquire(p, 0)
    case Inside(p) => W.Go(p)
    case Kill(p) => W.Kill(p)
    case Hit(p, q) => W.Hit(p, q)
  }

  /** What a step does to the process that takes it. */
  lemma SelfKept(s: State, step: Step)
    requires Inv(s) && Enabled(s, step)
    ensures |Apply(s, step).job| == |Apply(s, step).g.pc| == |Apply(s, step).killed| == |s.job| &&
            JobOk(Apply(s, step), step.p)
  {
    hide W.Inv, W.Apply, W.Enabled, Acts, Conds;
    var p := step.p;
    assert JobOk(s, p);
    if step.Move? {
      MoverFits(s, p);
      if Acts(s, p).call.Some? {
        W.Effects(s.g, Acts(s, p).call.value);
      }
    } else {
      W.Effects(s.g, Call(step));
      if step.Inside? || step.Hit? {
        W.InsideCall(s.g, Call(step));
      }
    }
  }

  /** A process with the lock is alone with it. */
  lemma OneInside(s: State, p: nat, q: nat)
    requires W.Inv(s.g) && DataOk(s) && p < |s.job| && q < |s.job| && JobOk(s, p) && JobOk(s, q)
    requires s.g.pc[p].In? && q != p
    ensures !s.g.pc[q].In? && !s.g.pc[q].Scanning?
    ensures !s.job[q].WriteFull? && !s.job[q].WriteSleep? && s.job[q] != WriteFail
  {
    hide W.Waits, W.LockOk;
    assert W.Holds(s.g, p) && W.Holds(s.g, q);
  }

  /** What it does to another. */
  lemma OtherKept(s: State, step: Step, q: nat)
    requires Inv(s) && Enabled(s, step) && q < |s.job| && q != step.p
    ensures |Apply(s, step).job| == |Apply(s, step).g.pc| == |Apply(s, step).killed| == |s.job| &&
            JobOk(Apply(s, step), q)
  {
    hide W.Inv, W.Apply, W.Enabled, W.NextPc, Acts, Conds;
    assert JobOk(s, step.p) && JobOk(s, q);
    if step.Move? {
      OneInside(s, step.p, q);
      MoverFits(s, step.p);
      if Acts(s, step.p).call.Some? {
        W.Effects(s.g, Acts(s, step.p).call.value);
      }
    } else {
      W.Effects(s.g, Call(step));
    }
  }

  lemma MoveData(s: State, p: nat)
    requires DataOk(s) && p < |s.job| && JobOk(s, p) && Enabled(s, Move(p))
    ensures DataOk(Apply(s, Move(p)))
  {
    hide W.Inv, W.Apply, W.NextPc, W.Enabled, LapsedOk, Quits;
    MoveLapsed(s, p);
    var a := Acts(s, p);
    if a.call.Some? {
      W.Effects(s.g, a.call.value);
    }
  }

  lemma MoveLapsed(s: State, p: nat)
    requires DataOk(s) && p < |s.job| && JobOk(s, p) && Enabled(s, Move(p))
    ensures LapsedOk(Apply(s, Move(p)))
  {
    hide W.Inv, W.Apply, W.NextPc, W.Enabled;
    var a := Acts(s, p);
    if a.call.Some? {
      W.Effects(s.g, a.call.value);
    }
  }

  lemma DataKept(s: State, step: Step)
    requires Inv(s) && Enabled(s, step)
    ensures DataOk(Apply(s, step))
  {
    hide W.Inv, W.Apply, W.NextPc, W.Enabled, Acts, Conds;
    assert JobOk(s, step.p);
    if step.Move? {
      MoveData(s, step.p);
    } else {
      W.Effects(s.g, Call(step));
    }
  }

  lemma InvKept(s: State, step: Step)
    requires Inv(s) && Enabled(s, step)
    ensures Inv(Apply(s, step))
  {
    hide W.Inv, W.Apply, W.Enabled, Acts, JobOk, DataOk;
    DataKept(s, step);
    SelfKept(s, step);
    forall q | 0 <= q < |s.job| ensures JobOk(Apply(s, step), q) {
      if q != step.p {
        OtherKept(s, step, q);
      }
    }
    if step.Move? {
      if Acts(s, step.p).call.Some? {
        W.InvKept(s.g, Acts(s, step.p).call.value);
      }
    } else {
      W.InvKept(s.g, Call(step));
    }
  }

  lemma {:induction false} RunInv(states: seq<State>, steps: seq<Step>, i: nat)
    requires Run(states, steps) && i < |states|
    ensures Inv(states[i])
  {
    hide Apply, Enabled, W.Inv;
    if i == 0 {
      W.InitInv(states[0].g);
    } else {
      RunInv(states, steps, i - 1);
      InvKept(states[i - 1], steps[i - 1]);
    }
  }

  // ---- Every run --------------------------------------------------------------------------------

  /**
   A writer that sleeps while there is room, or nobody can read any more, is about to be woken by the
   process that holds the lock.  So is a reader that sleeps while there are bytes, or nobody can
   write any more, unless a writer gave up before it had announced the bytes it put in, and then that
   writer was killed or the read end is closed.
   */
  lemma NoLostWakeup(states: seq<State>, steps: seq<Step>, i: nat, p: nat)
    requires Run(states, steps) && i < |states| && p < |states[i].job|
    ensures var s := states[i];
            && W.Shaped(s.g) && |s.g.pc| == |s.job| && s.g.lockOf == [0, 0] && |s.g.locks| == 1
            && (s.g.asleep[p] && s.job[p].WriteLoop? && Room(s.count, s.readopen) ==> W.Pending(s.g, NWRITE, p))
            && (s.g.asleep[p] && s.job[p].ReadLoop? && Ready(s.count, s.writeopen) ==>
                W.Pending(s.g, NREAD, p) || s.quit.Some?)
            && QuitOk(s)
            && (s.g.asleep[p] ==> s.job[p].WriteLoop? || s.job[p].ReadLoop?)
  {
    RunInv(states, steps, i);
    W.InvSafe(states[i].g, p);
    assert JobOk(states[i], p);
  }

  /** The readers' wakeup is forgotten only by a writer that gives up with bytes it had put in and not announced. */
  lemma OnlyByGivingUp(states: seq<State>, steps: seq<Step>, i: nat)
    requires Run(states, steps) && i < |steps|
    requires states[i + 1].quit.Some? && states[i].quit == None
    ensures steps[i].Move? && steps[i].p < |states[i].job| == |states[i].g.pc| && states[i].job[steps[i].p] == WriteFail
    ensures states[i].g.pc[steps[i].p].In? && NREAD in states[i].g.pc[steps[i].p].owed
  {
    hide W.Inv, W.Apply, W.Enabled, Conds;
    RunInv(states, steps, i);
    var s, step := states[i], steps[i];
    assert Enabled(s, step) && states[i + 1] == Apply(s, step);
  }

  /** With the lock free, a sleeping writer has no room, and a sleeping reader no bytes. */
  lemma SleepersWait(states: seq<State>, steps: seq<Step>, i: nat, p: nat)
    requires Run(states, steps) && i < |states| && p < |states[i].job|
    requires |states[i].g.locks| > 0 && states[i].g.locks[0] == None && p < |states[i].g.asleep| &&
             states[i].g.asleep[p]
    ensures var s := states[i];
            && (s.job[p].WriteLoop? ==> s.count == PIPESIZE && s.readopen)
            && (s.job[p].ReadLoop? ==> (s.count == 0 && s.writeopen) || s.quit.Some?)
  {
    RunInv(states, steps, i);
    NoLostWakeup(states, steps, i, p);
  }

  /** Some kill before step i found q. */
  predicate WasHit(steps: seq<Step>, i: nat, q: nat) {
    exists j :: 0 <= j < i && j < |steps| && steps[j].Hit? && steps[j].q == q
  }

  lemma StepMarks(s: State, step: Step, q: nat)
    requires Enabled(s, step) && q < |s.killed|
    ensures |Apply(s, step).killed| == |s.killed|
    ensures Apply(s, step).killed[q] <==> s.killed[q] || (step.Hit? && step.q == q)
  {
    hide W.Apply, W.Enabled;
  }

  /** A process is marked killed exactly when a kill has found it. */
  lemma {:induction false} MarkedExactly(states: seq<State>, steps: seq<Step>, i: nat, q: nat)
    requires Run(states, steps) && i < |states| && q < |states[0].killed|
    ensures q < |states[i].killed| && (states[i].killed[q] <==> WasHit(steps, i, q))
  {
    hide Apply, Enabled;
    if i > 0 {
      MarkedExactly(states, steps, i - 1, q);
      assert Enabled(states[i - 1], steps[i - 1]) && states[i - 1 + 1] == Apply(states[i - 1], steps[i - 1]);
      StepMarks(states[i - 1], steps[i - 1], q);
      if steps[i - 1].Hit? && steps[i - 1].q == q {
        assert WasHit(steps, i, q);
      }
      if j :| 0 <= j < i && steps[j].Hit? && steps[j].q == q {
        assert j < i - 1 ==> WasHit(steps, i - 1, q);
      }
    }
  }

  // ---- What the calls do ------------------------------------------------------------------------

  /** p's next move puts a byte in, or takes one out. */
  predicate Puts(s: State, p: nat) {
    p < |s.job| && s.job[p].WriteLoop? && s.job[p].left > 0 && s.count < PIPESIZE
  }

  predicate Takes(s: State, p: nat) {
    p < |s.job| && s.job[p].Reading? && s.job[p].n > 0 && s.count > 0
  }

  /** The bytes put in before step i, less those taken out. */
  ghost function Balance(states: seq<State>, steps: seq<Step>, i: nat): int
    requires i <= |steps| < |states|
  {
    if i == 0 then 0
    else
      var s, step := states[i - 1], steps[i - 1];
      Balance(states, steps, i - 1) +
      (if step.Move? && Puts(s, step.p) then 1 else if step.Move? && Takes(s, step.p) then -1 else 0)
  }

  /** The bytes that process p was asked for when it last entered a call. */
  ghost function Asked(steps: seq<Step>, i: nat, p: nat): nat
    requires i <= |steps|
  {
    if i == 0 then 0
    else if steps[i - 1].Enter? && steps[i - 1].p == p then
      match steps[i - 1].job
      case WriteLoop(left) => left
      case ReadLoop(n) => n
      case _ => 0
    else Asked(steps, i - 1, p)
  }

  /** The bytes that it has put in or taken out since. */
  ghost function Moved(states: seq<State>, steps: seq<Step>, i: nat, p: nat): nat
    requires i <= |steps| < |states|
  {
    if i == 0 || (steps[i - 1].Enter? && steps[i - 1].p == p) then 0
    else
      var s := states[i - 1];
      Moved(states, steps, i - 1, p) + (if steps[i - 1] == Move(p) && (Puts(s, p) || Takes(s, p)) then 1 else 0)
  }

  lemma StepBalance(s: State, step: Step)
    requires Enabled(s, step)
    ensures Apply(s, step).count ==
            s.count + (if step.Move? && Puts(s, step.p) then 1 else if step.Move? && Takes(s, step.p) then -1 else 0)
  {
    hide W.Apply, W.Enabled;
  }

  /** No byte is lost or made: the pipe holds what was put in and not taken out. */
  lemma {:induction false} Conserved(states: seq<State>, steps: seq<Step>, i: nat)
    requires Run(states, steps) && i < |states|
    ensures states[i].count == Balance(states, steps, i)
  {
    hide Apply, Enabled;
    if i > 0 {
      Conserved(states, steps, i - 1);
      assert Enabled(states[i - 1], steps[i - 1]) && states[i - 1 + 1] == Apply(states[i - 1], steps[i - 1]);
      StepBalance(states[i - 1], steps[i - 1]);
    }
  }

  /** How far a call has come: what it has moved, and when it may stop. */
  predicate Account(s: State, p: nat, asked: nat, moved: nat)
    requires p < |s.job|
  {
    match s.job[p]
    case WriteLoop(left) => asked == left + moved
    case WriteFull(left) => asked == left + moved
    case WriteSleep(left) => asked == left + moved
    case ReadLoop(n) => asked == n && moved == 0
    case Reading(n) => asked == n + moved && (moved == 0 ==> s.count > 0 || !s.writeopen)
    case Wakes(ch) =>
      if ch == NREAD then moved == asked
      else moved == asked || (s.count == 0 && (moved == 0 ==> !s.writeopen))
    case Closing(_) => asked == moved == 0
    case _ => true
  }

  /** A process inside the lock finds the pipe as it left it. */
  lemma OthersWait(s: State, step: Step, p: nat)
    requires Enabled(s, step) && Inv(s) && p < |s.job| && p != step.p && s.g.pc[p].In?
    ensures Apply(s, step).count == s.count && Apply(s, step).writeopen == s.writeopen
  {
    hide W.Apply, W.Enabled, Inv;
    NobodyElse(s, p, step.p);
  }

  lemma NobodyElse(s: State, p: nat, q: nat)
    requires Inv(s) && p < |s.job| && q < |s.job| && q != p && s.g.pc[p].In?
    ensures !s.g.pc[q].In?
  {
    hide W.Inv;
    assert JobOk(s, p) && JobOk(s, q);
    OneInside(s, p, q);
  }

  function AskedAfter(step: Step, p: nat, asked: nat): nat {
    if step.Enter? && step.p == p then
      match step.job
      case WriteLoop(left) => left
      case ReadLoop(n) => n
      case _ => 0
    else asked
  }

  function MovedAfter(s: State, step: Step, p: nat, moved: nat): nat {
    if step.Enter? && step.p == p then 0
    else moved + (if step == Move(p) && (Puts(s, p) || Takes(s, p)) then 1 else 0)
  }

  lemma StepAccount(s: State, step: Step, p: nat, asked: nat, moved: nat)
    requires Enabled(s, step) && Inv(s) && p < |s.job| && Account(s, p, asked, moved)
    ensures |Apply(s, step).job| == |s.job|
    ensures Account(Apply(s, step), p, AskedAfter(step, p, asked), MovedAfter(s, step, p, moved))
  {
    hide W.Apply, W.Enabled, W.Inv, Account, DataOk;
    if step == Move(p) {
      MoverAccount(s, p, asked, moved);
    } else if p == step.p {
      CallerAccount(s, step, asked, moved);
    } else {
      assert JobOk(s, p);
      if s.g.pc[p].In? {
        OthersWait(s, step, p);
      }
      StrangerAccount(s, step, p, asked, moved);
    }
  }

  lemma MoverAccount(s: State, p: nat, asked: nat, moved: nat)
    requires Enabled(s, Move(p)) && p < |s.job| && Account(s, p, asked, moved)
    ensures Account(Apply(s, Move(p)), p, asked, MovedAfter(s, Move(p), p, moved))
  {
    hide W.Apply, W.Enabled, Quits;
  }

  lemma CallerAccount(s: State, step: Step, asked: nat, moved: nat)
    requires Enabled(s, step) && !step.Move? && step.p < |s.job| && Account(s, step.p, asked, moved)
    ensures Account(Apply(s, step), step.p, AskedAfter(step, step.p, asked), MovedAfter(s, step, step.p, moved))
  {
    hide W.Apply, W.Enabled;
  }

  lemma StrangerAccount(s: State, step: Step, p: nat, asked: nat, moved: nat)
    requires Enabled(s, step) && p < |s.job| && p != step.p && Account(s, p, asked, moved)
    requires JobOk(s, p)
    requires s.g.pc[p].In? ==> Apply(s, step).count == s.count && Apply(s, step).writeopen == s.writeopen
    ensures Account(Apply(s, step), p, AskedAfter(step, p, asked), MovedAfter(s, step, p, moved))
  {
    hide W.Apply, W.Enabled, Acts, Quits;
  }

  /**
   At every point of a call the bytes moved and those still to move make up those asked for.  So a
   write that comes to its last wakeup has put in all its bytes, and a read has taken all it was asked
   for or has emptied the pipe, and nothing only at the end of file.
   */
  lemma {:induction false} CallAccount(states: seq<State>, steps: seq<Step>, i: nat, p: nat)
    requires Run(states, steps) && i < |states| && p < |states[0].job|
    ensures p < |states[i].job| && Account(states[i], p, Asked(steps, i, p), Moved(states, steps, i, p))
  {
    hide Apply, Enabled, Inv, Account, Puts, Takes;
    if i == 0 {
      assert states[0].job[p] == Idle;
      assert Account(states[0], p, 0, 0) by {
        IdleAccount(states[0], p);
      }
    } else {
      CallAccount(states, steps, i - 1, p);
      RunInv(states, steps, i - 1);
      assert Enabled(states[i - 1], steps[i - 1]) && states[i - 1 + 1] == Apply(states[i - 1], steps[i - 1]);
      StepAccount(states[i - 1], steps[i - 1], p, Asked(steps, i - 1, p), Moved(states, steps, i - 1, p));
    }
  }

  lemma IdleAccount(s: State, p: nat)
    requires p < |s.job| && s.job[p] == Idle
    ensures Account(s, p, 0, 0)
  {
  }

  /** Some close of that end came before step i. */
  predicate WasClosed(states: seq<State>, steps: seq<Step>, i: nat, writable: bool) {
    exists j :: 0 <= j < i && j < |steps| && j < |states| && Closes(states[j], steps[j], writable)
  }

  predicate Closes(s: State, step: Step, writable: bool) {
    step.Move? && step.p < |s.job| && s.job[step.p] == Closing(writable)
  }

  lemma StepCloses(s: State, step: Step)
    requires Enabled(s, step)
    ensures Apply(s, step).writeopen <==> s.writeopen && !Closes(s, step, true)
    ensures Apply(s, step).readopen <==> s.readopen && !Closes(s, step, false)
  {
    hide W.Apply, W.Enabled;
  }

  /** An end is open exactly until it is closed. */
  lemma {:induction false} OpenUntilClosed(states: seq<State>, steps: seq<Step>, i: nat)
    requires Run(states, steps) && i < |states|
    ensures states[i].writeopen <==> !WasClosed(states, steps, i, true)
    ensures states[i].readopen <==> !WasClosed(states, steps, i, false)
  {
    hide Apply, Enabled, Closes;
    if i > 0 {
      OpenUntilClosed(states, steps, i - 1);
      assert Enabled(states[i - 1], steps[i - 1]) && states[i - 1 + 1] == Apply(states[i - 1], steps[i - 1]);
      StepCloses(states[i - 1], steps[i - 1]);
      forall w: bool
        ensures WasClosed(states, steps, i, w) <==>
                WasClosed(states, steps, i - 1, w) || Closes(states[i - 1], steps[i - 1], w)
      {
        OneMoreClose(states, steps, i, w);
      }
    }
  }

  lemma OneMoreClose(states: seq<State>, steps: seq<Step>, i: nat, w: bool)
    requires 0 < i <= |steps| < |states|
    ensures WasClosed(states, steps, i, w) <==>
            WasClosed(states, steps, i - 1, w) || Closes(states[i - 1], steps[i - 1], w)
  {
    hide Closes;
    if j :| 0 <= j < i && Closes(states[j], steps[j], w) {
      assert j < i - 1 ==> WasClosed(states, steps, i - 1, w);
    }
  }

  /** Whoever is in no call can enter one when the lock is free. */
  lemma CanEnter(states: seq<State>, steps: seq<Step>, i: nat, p: nat, job: Job)
    requires Run(states, steps) && i < |states| && p < |states[i].job| && |states[i].g.locks| > 0
    requires states[i].job[p] == Idle && states[i].g.locks[0] == None
    requires p < |states[i].g.pc| && !states[i].g.pc[p].Killing?
    requires job.WriteLoop? || job.ReadLoop? || job.Closing?
    ensures Enabled(states[i], Enter(p, job))
  {
    RunInv(states, steps, i);
    assert JobOk(states[i], p);
  }
}
