/**
 Who may be in a transaction, and who sleeps on &log: begin_op, log_write and end_op of log.c by any
 number of processes, on the sleep and wakeup of Wakeups.dfy.

 log.outstanding is the number of processes in `ops`; log.committing is whether `who` names one.
 commit() itself, which runs without the lock, is one step here: it leaves an empty log.
 */
module LogAdmission {
  import opened Common
  import W = Wakeups

  const LOG := 0   // the channel &log, and the lock log.lock

  /** Where a process is in its call, apart from sleep() and wakeup(). */
  datatype Job =
    | Idle
    | Beginning            // head of begin_op()'s loop
    | InOp                 // between begin_op() and end_op(), outside log.c
    | Writing(adds: bool) // log_write() of a block that is in the log already, or not yet
    | Ending               // end_op(), before log.outstanding -= 1
    | EndWakes             // before its first wakeup(&log)
    | Commits              // before commit()
    | Reports              // before acquire() after commit()
    | Reporting            // before log.committing = 0
    | ReportWakes          // before the second wakeup(&log)
    | Leaving(next: Job)   // before release()

  datatype State = State(g: W.State, n: nat, ops: set<nat>, who: Option<nat>, job: seq<Job>)

  datatype Step =
    | Enter(p: nat, job: Job)   // a call, or the end of commit(), as far as acquire(&log.lock)
    | Commit(p: nat)            // commit()
    | Move(p: nat)              // the next thing done with the lock held
    | Inside(p: nat)            // the next step of sleep() or wakeup()
    | Kill(p: nat)
    | Hit(p: nat, q: nat)

  /** begin_op() goes through. */
  predicate Admits(n: nat, ops: set<nat>, who: Option<nat>) {
    who == None && n + (|ops| + 1) * MAXOPBLOCKS <= LOGSIZE
  }

  /** What a process inside the lock does next: the store, and the call on the locks. */
  datatype Action = Action(n: nat, ops: set<nat>, who: Option<nat>, job: Job, call: W.Step)

  function Store(n: nat, ops: set<nat>, who: Option<nat>, job: Job, p: nat): Action {
    Action(n, ops, who, job, W.Act(p, [Admits(n, ops, who)]))
  }

  function Acts(s: State, p: nat): Action
    requires p < |s.job|
  {
    match s.job[p]
    case Beginning =>
      if Admits(s.n, s.ops, s.who) then Store(s.n, s.ops + {p}, s.who, Leaving(InOp), p)
      else Action(s.n, s.ops, s.who, Beginning, W.Sleep(p, LOG))
    case Writing(adds) => Store(if adds then s.n + 1 else s.n, s.ops, s.who, Leaving(InOp), p)
    case Ending =>
      if s.ops - {p} == {} then Store(s.n, {}, Some(p), Leaving(Commits), p)
      else Store(s.n, s.ops - {p}, s.who, EndWakes, p)
    case EndWakes => Action(s.n, s.ops, s.who, Leaving(Idle), W.Wakeup(p, LOG))
    case Reporting => Store(s.n, s.ops, None, ReportWakes, p)
    case ReportWakes => Action(s.n, s.ops, s.who, Leaving(Idle), W.Wakeup(p, LOG))
    case Leaving(next) => Action(s.n, s.ops, s.who, next, W.Release(p))
    case _ => Action(s.n, s.ops, s.who, s.job[p], W.Release(p))
  }

  /** The calls that a process outside the lock can make. */
  predicate Calls(was: Job, job: Job) {
    || (was == Idle && job == Beginning)
    || (was == InOp && (job.Writing? || job == Ending))
    || (was == Reports && job == Reporting)
  }

  /** log_write() panics on a full log, and then takes no step. */
  ghost predicate Enabled(s: State, step: Step) {
    && step.p < |s.job| == |s.g.pc|
    && match step
       case Enter(p, job) => Calls(s.job[p], job) && W.Enabled(s.g, W.Acquire(p, LOG))
       case Commit(p) => s.job[p] == Commits
       case Move(p) =>
         s.g.pc[p].In? && (s.job[p].Writing? ==> s.n < LOGSIZE) && W.Enabled(s.g, Acts(s, p).call)
       case Inside(p) => W.Enabled(s.g, W.Go(p))
       case Kill(p) => s.job[p] == Idle && W.Enabled(s.g, W.Kill(p))
       case Hit(p, q) => W.Enabled(s.g, W.Hit(p, q))
  }

  ghost function Apply(s: State, step: Step): State
    requires Enabled(s, step)
  {
    match step
    case Enter(p, job) => s.(g := W.Apply(s.g, W.Acquire(p, LOG)), job := s.job[p := job])
    case Commit(p) => s.(n := 0, job := s.job[p := Reports])
    case Move(p) =>
      var a := Acts(s, p);
      State(W.Apply(s.g, a.call), a.n, a.ops, a.who, s.job[p := a.job])
    case Inside(p) => s.(g := W.Apply(s.g, W.Go(p)))
    case Kill(p) => s.(g := W.Apply(s.g, W.Kill(p)))
    case Hit(p, q) => s.(g := W.Apply(s.g, W.Hit(p, q)))
  }

  ghost predicate Init(s: State) {
    && W.Init(s.g) && s.g.lockOf == [LOG] && |s.g.locks| == 1 && s.g.cond == [Admits(s.n, s.ops, s.who)]
    && s.n == 0 && s.ops == {} && s.who == None
    && |s.job| == |s.g.pc| && forall p :: 0 <= p < |s.job| ==> s.job[p] == Idle
  }

  ghost predicate Run(states: seq<State>, steps: seq<Step>) {
    && |states| == |steps| + 1 && Init(states[0])
    && forall i :: 0 <= i < |steps| ==> Enabled(states[i], steps[i]) && states[i + 1] == Apply(states[i], steps[i])
  }

  // ---- The invariant ----------------------------------------------------------------------------

  /** Between begin_op() and end_op(). */
  predicate Inner(job: Job) {
    job == InOp || job.Writing? || job == Ending || job == Leaving(InOp)
  }

  /** Between `log.committing = 1` and `log.committing = 0`. */
  predicate Committing(job: Job) {
    job == Leaving(Commits) || job == Commits || job == Reports || job == Reporting
  }

  /** With the lock, or waiting to get it back from sleep(). */
  predicate Engaged(job: Job) {
    !(job == Idle || job == InOp || job == Commits || job == Reports)
  }

  /** A job, the place in the code, and whether the process is counted in log.outstanding or is the committer. */
  predicate Fits(pc: W.Pc, job: Job, counted: bool, commits: bool, n: nat) {
    && (counted <==> Inner(job)) && (commits <==> Committing(job))
    && (job == Reports || job == Reporting ==> n == 0)
    && (job.Leaving? ==> job.next == Idle || job.next == InOp || job.next == Commits)
    && match pc
       case Out | Killing => !Engaged(job)
       case In(_, owed) => Engaged(job) && owed <= if job == EndWakes || job == ReportWakes then {LOG} else {}
       case Scanning(_, owed, _, _) => job == Leaving(Idle) && owed == {}
       case _ => job == Beginning
  }

  predicate JobOk(s: State, p: nat)
    requires p < |s.job| == |s.g.pc|
  {
    Fits(s.g.pc[p], s.job[p], p in s.ops, s.who == Some(p), s.n)
  }

  ghost predicate Inv(s: State) {
    && W.Inv(s.g) && s.g.lockOf == [LOG] && |s.g.locks| == 1 && s.g.cond == [Admits(s.n, s.ops, s.who)]
    && |s.job| == |s.g.pc| && s.g.lapsed == {}
    && (s.who.Some? ==> s.ops == {} && s.who.value < |s.job|)
    && (s.ops == {} && s.who == None ==> s.n == 0)
    && forall p :: 0 <= p < |s.job| ==> JobOk(s, p)
  }

  /** What a process inside the lock does next is always allowed: in particular it may sleep when it has to. */
  lemma NeverBlocked(s: State, p: nat)
    requires Inv(s) && p < |s.job| && s.g.pc[p].In?
    ensures W.Enabled(s.g, Acts(s, p).call) || (s.g.table != None && Acts(s, p).call.Wakeup?)
  {
    assert JobOk(s, p) && W.PcShaped(s.g, s.g.pc[p]);
  }

  lemma OwedAtMost(was: seq<bool>, now: seq<bool>, owed: set<nat>)
    requires |was| == |now| == 1 && owed <= {LOG}
    ensures W.Owed(was, now, owed) <= {LOG} && ((!now[0] || (was[0] && owed == {})) ==> W.Owed(was, now, owed) == {})
  {
  }

  /** Only the end of an operation or of a commit can admit one that was not admitted. */
  lemma MoreIsLess(s: State, p: nat)
    requires p < |s.job| == |s.g.pc| && JobOk(s, p) && s.g.pc[p].In? && Acts(s, p).call.Act?
    requires s.g.cond == [Admits(s.n, s.ops, s.who)]
    ensures s.job[p] != Ending && s.job[p] != Reporting && Acts(s, p).call.cond[0] ==> s.g.cond[0]
    ensures Acts(s, p).who.Some? ==> !Acts(s, p).call.cond[0]
  {
    if s.job[p] == Beginning {
      assert |s.ops + {p}| == |s.ops| + 1;
    }
  }

  /** The process that moves. */
  lemma MoverFits(s: State, p: nat)
    requires p < |s.job| == |s.g.pc| && JobOk(s, p) && s.g.pc[p].In? && W.Enabled(s.g, Acts(s, p).call)
    requires s.g.cond == [Admits(s.n, s.ops, s.who)] && (s.who.Some? ==> s.ops == {})
    ensures var a := Acts(s, p); a.call.p == p && Fits(W.NextPc(s.g, a.call), a.job, p in a.ops, a.who == Some(p), a.n)
  {
    hide W.Enabled, W.Owed, Admits;
    var a := Acts(s, p);
    if a.call.Act? {
      MoreIsLess(s, p);
      OwedAtMost(s.g.cond, a.call.cond, s.g.pc[p].owed);
    }
  }

  /** What a step does to the process that takes it. */
  lemma SelfKept(s: State, step: Step)
    requires Inv(s) && Enabled(s, step)
    ensures |Apply(s, step).job| == |Apply(s, step).g.pc| == |s.job| && JobOk(Apply(s, step), step.p)
  {
    hide W.Inv, W.Apply, W.Enabled, Admits, Acts;
    var p := step.p;
    assert JobOk(s, p);
    if step.Move? {
      MoverFits(s, p);
      W.Effects(s.g, Acts(s, p).call);
    } else if !step.Commit? {
      var c := Call(step);
      W.Effects(s.g, c);
      if c.Go? || c.Hit? {
        W.InsideCall(s.g, c);
      }
    }
  }

  /** The call on the locks of a step that is not a move. */
  function Call(step: Step): W.Step
    requires !step.Move? && !step.Commit?
  {
    match step
    case Enter(p, _) => W.Acquire(p, LOG)
    case Inside(p) => W.Go(p)
    case Kill(p) => W.Kill(p)
    case Hit(p, q) => W.Hit(p, q)
  }

  /** What it does to another. */
  lemma OtherKept(s: State, step: Step, q: nat)
    requires Inv(s) && Enabled(s, step) && q < |s.job| && q != step.p
    ensures |Apply(s, step).job| == |Apply(s, step).g.pc| == |s.job| && JobOk(Apply(s, step), q)
  {
    hide W.Inv, W.Apply, W.Enabled, W.NextPc, Admits, Acts;
    assert JobOk(s, q);
    if step.Move? {
      OthersCounted(s, step.p, q);
      W.Effects(s.g, Acts(s, step.p).call);
    } else if !step.Commit? {
      W.Effects(s.g, Call(step));
    }
  }

  lemma OthersCounted(s: State, p: nat, q: nat)
    requires p < |s.job| == |s.g.pc| && JobOk(s, p) && s.g.pc[p].In? && (s.who.Some? ==> s.ops == {}) && q != p
    ensures var a := Acts(s, p);
            a.call.p == p && (q in a.ops <==> q in s.ops) && (a.who == Some(q) <==> s.who == Some(q))
            && (a.n != s.n ==> s.who == None)
  {
    assert q in s.ops ==> q in s.ops - {p};
  }

  lemma DataKept(s: State, step: Step)
    requires Inv(s) && Enabled(s, step)
    ensures var t := Apply(s, step);
            && t.g.lockOf == [LOG] && |t.g.locks| == 1 && t.g.cond == [Admits(t.n, t.ops, t.who)] && t.g.lapsed == {}
            && (t.who.Some? ==> t.ops == {} && t.who.value < |s.job|) && (t.ops == {} && t.who == None ==> t.n == 0)
  {
    hide W.Inv, W.Apply, W.NextPc;
    assert JobOk(s, step.p);
    if step.Move? {
      var a := Acts(s, step.p);
      W.Effects(s.g, a.call);
    } else if !step.Commit? {
      W.Effects(s.g, Call(step));
    }
  }

  lemma InvKept(s: State, step: Step)
    requires Inv(s) && Enabled(s, step)
    ensures Inv(Apply(s, step))
  {
    hide W.Inv, W.Apply, W.Enabled, Admits, Acts, JobOk;
    DataKept(s, step);
    SelfKept(s, step);
    forall q | 0 <= q < |s.job| ensures JobOk(Apply(s, step), q) {
      if q != step.p {
        OtherKept(s, step, q);
      }
    }
    if step.Move? {
      W.InvKept(s.g, Acts(s, step.p).call);
    } else if !step.Commit? {
      W.InvKept(s.g, Call(step));
    }
  }

  lemma {:induction false} RunInv(states: seq<State>, steps: seq<Step>, i: nat)
    requires Run(states, steps) && i < |states|
    ensures Inv(states[i])
  {
    hide Apply, Enabled, W.Inv;
    if i == 0 {
      W.InitInv(states[0].g);
    } else {
      RunInv(states, steps, i - 1);
      InvKept(states[i - 1], steps[i - 1]);
    }
  }

  // ---- Every run --------------------------------------------------------------------------------

  /**
   Nobody sleeps in begin_op() while the log would admit an operation, but for sleepers that a
   process with log.lock is about to wake.
   */
  lemma NoLostWakeup(states: seq<State>, steps: seq<Step>, i: nat, p: nat)
    requires Run(states, steps) && i < |states| && p < |states[i].job|
    ensures var s := states[i];
            && W.Shaped(s.g) && |s.g.pc| == |s.job| && s.g.lockOf == [LOG] && |s.g.locks| == 1
            && (s.g.asleep[p] && Admits(s.n, s.ops, s.who) ==> W.Pending(s.g, LOG, p))
            && (s.g.locks[0] == None && Admits(s.n, s.ops, s.who) ==> !s.g.asleep[p])
  {
    RunInv(states, steps, i);
    W.InvSafe(states[i].g, p);
  }

  /** With no operation in progress and no commit, the log is empty, and nobody is left asleep. */
  lemma IdleLog(states: seq<State>, steps: seq<Step>, i: nat, p: nat)
    requires Run(states, steps) && i < |states| && p < |states[i].job| && |states[i].g.locks| > 0
    requires states[i].ops == {} && states[i].who == None && states[i].g.locks[0] == None
    ensures states[i].n == 0 && |states[i].g.asleep| == |states[i].job| && !states[i].g.asleep[p]
  {
    RunInv(states, steps, i);
    NoLostWakeup(states, steps, i, p);
  }

  /** commit() runs alone: no operation is in progress, and no other process commits. */
  lemma CommitsAlone(states: seq<State>, steps: seq<Step>, i: nat, p: nat, q: nat)
    requires Run(states, steps) && i < |states| && p < |states[i].job| && q < |states[i].job|
    requires Committing(states[i].job[p])
    ensures !Inner(states[i].job[q]) && (Committing(states[i].job[q]) ==> q == p) && states[i].ops == {}
  {
    RunInv(states, steps, i);
    assert JobOk(states[i], p) && JobOk(states[i], q);
  }

  /** The panics of end_op() and log_write() for a commit in progress or no transaction never happen. */
  lemma InsideATransaction(states: seq<State>, steps: seq<Step>, i: nat, p: nat)
    requires Run(states, steps) && i < |states| && p < |states[i].job|
    requires states[i].job[p] == Ending || states[i].job[p].Writing?
    ensures states[i].who == None && |states[i].ops| >= 1
  {
    RunInv(states, steps, i);
    assert JobOk(states[i], p);
  }

  // ---- What is in the log -----------------------------------------------------------------------

  /** log_write() of a block that is not in the log yet. */
  predicate Adds(s: State, step: Step) {
    step.Move? && step.p < |s.job| && s.job[step.p] == Writing(true)
  }

  /** The blocks added since the last commit before step i. */
  ghost function Added(states: seq<State>, steps: seq<Step>, i: nat): nat
    requires i <= |steps| < |states|
  {
    if i == 0 || steps[i - 1].Commit? then 0
    else Added(states, steps, i - 1) + if Adds(states[i - 1], steps[i - 1]) then 1 else 0
  }

  lemma StepAdds(s: State, step: Step)
    requires Enabled(s, step) && s.n <= LOGSIZE
    ensures Apply(s, step).n == (if step.Commit? then 0 else s.n + if Adds(s, step) then 1 else 0) <= LOGSIZE
  {
    hide W.Apply, W.Enabled;
  }

  /** The log holds exactly what was added since the last commit, and never more than LOGSIZE blocks. */
  lemma {:induction false} HoldsAdded(states: seq<State>, steps: seq<Step>, i: nat)
    requires Run(states, steps) && i < |states|
    ensures states[i].n == Added(states, steps, i) <= LOGSIZE
  {
    hide Apply, Enabled, Adds;
    if i > 0 {
      HoldsAdded(states, steps, i - 1);
      assert Enabled(states[i - 1], steps[i - 1]) && states[i - 1 + 1] == Apply(states[i - 1], steps[i - 1]);
      StepAdds(states[i - 1], steps[i - 1]);
    }
  }

  /** commit() empties the log, and log.committing stays set until its caller has reported the end. */
  lemma CommitThenReport(states: seq<State>, steps: seq<Step>, i: nat)
    requires Run(states, steps) && i < |steps| && steps[i].Commit?
    ensures var p, s := steps[i].p, states[i + 1];
            p < |s.job| && s.job[p] == Reports && s.who == Some(p) && s.n == 0 && s.ops == {}
  {
    hide W.Apply, W.Enabled, W.Inv;
    assert Enabled(states[i], steps[i]) && states[i + 1] == Apply(states[i], steps[i]);
    RunInv(states, steps, i);
    assert JobOk(states[i], steps[i].p);
  }
}
