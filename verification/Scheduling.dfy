/**
 Scheduling, fork, exec, exit and wait on any number of CPUs, as a transition system.

 Each step is one stretch of proc.c that other CPUs cannot see into, because it is a single store
 or because it runs under ptable.lock and touches only what that lock protects.  The hand-over of
 the lock between the scheduler's stack and a process's stack is spelled out store by store.
 fork() fills its slot, and exec() replaces the page directory, without the lock, as in the source.

 `own` says what each allocated page is for, and `maker`, `host`, `exited` and `returned` record
 who forks into an embryo slot, on which CPU a process is, who called exit, and what wait returned.
 The last four are bookkeeping: no step is enabled or disabled by them.
 */
module Scheduling {
  import opened Common
  import opened ProcTable

  /** Where a CPU stands in scheduler(), or that it runs a process. */
  datatype At =
    | Idle      // ptable.lock not held
    | Scan      // in the loop, lock held
    | Chosen    // c->proc set
    | Loaded    // switchuvm done
    | Entering  // on the process's stack, just switched in
    | On        // running the process
    | Back      // swtch has returned
    | Unloaded  // switchkvm done

  /** `stack` is the kernel stack in use, 0 for the scheduler's own. */
  datatype Cpu = Cpu(proc: Option<nat>, stack: nat, cr3: nat, at: At)

  datatype Use = Kernel | Stack(p: nat) | Dir(p: nat) | OldDir(p: nat)

  datatype State = State(
    cpus: seq<Cpu>,
    procs: seq<Proc>,
    lock: Option<nat>,
    nextpid: nat,
    init: nat,
    kpgdir: nat,
    own: map<nat, Use>,
    maker: map<nat, nat>,
    host: map<nat, nat>,
    exited: set<nat>,
    returned: seq<nat>
  )

  /** ptable.lock, and the way from scheduler() into a process and back. */
  datatype Switching =
    | Acquire(c: nat)
    | Release(c: nat)
    | Choose(c: nat, p: nat)
    | Load(c: nat)
    | Enter(c: nat)
    | Resume(c: nat)
    | Swtch(c: nat)
    | Unload(c: nat)
    | Clear(c: nat)

  /** fork(); the steps named No... are its failure paths. */
  datatype Making =
    | Alloc(c: nat, np: nat)
    | GetStack(c: nat, page: nat)
    | NoStack(c: nat)
    | GetDir(c: nat, page: nat)
    | NoDir(c: nat)
    | SetParent(c: nat)
    | Publish(c: nat)

  /** The end of exec(). */
  datatype Replacing =
    | SwapDir(c: nat, page: nat)
    | Reload(c: nat)
    | FreeOld(c: nat)

  /** What a process (or, for Interrupt, any CPU) does with the table under ptable.lock. */
  datatype Blocking =
    | Yield(c: nat)
    | Sleep(c: nat, a: nat)
    | Wakeup(c: nat, a: nat)
    | Interrupt(c: nat, a: nat)
    | Kill(c: nat, pid: nat)
    | Exit(c: nat)
    | Wait(c: nat)
    | Reap(c: nat, q: nat)
    | GiveUp(c: nat)
    | WaitSleep(c: nat)
    | NoSlot(c: nat)

  datatype Step = Switch(sw: Switching) | Make(mk: Making) | Replace(rp: Replacing) | Block(bl: Blocking)

  predicate Has(s: State, c: nat) {
    c < |s.cpus| && s.cpus[c].proc.Some? && s.cpus[c].proc.value < |s.procs|
  }

  /** The process on CPU c. */
  function Cur(s: State, c: nat): (p: nat)
    requires Has(s, c)
    ensures p < |s.procs|
  {
    s.cpus[c].proc.value
  }

  predicate AtCpu(s: State, c: nat, at: At) {
    c < |s.cpus| && s.cpus[c].at == at
  }

  /** CPU c runs a process that stands at pc. */
  predicate Me(s: State, c: nat, pc: Pc) {
    AtCpu(s, c, On) && Has(s, c) && s.procs[Cur(s, c)].pc == pc
  }

  predicate Plain(x: Proc) {
    x.fork == NoFork && x.exec == NoExec
  }

  predicate Forking(s: State, c: nat) {
    Has(s, c) && s.procs[Cur(s, c)].fork != NoFork && s.procs[Cur(s, c)].fork.np < |s.procs|
  }

  predicate Spare(s: State, page: nat) {
    page != 0 && page !in s.own
  }

  predicate CanSwitch(s: State, step: Switching) {
    match step
    case Acquire(c) => s.lock == None && (AtCpu(s, c, Idle) || Me(s, c, Out))
    case Release(c) => AtCpu(s, c, Scan) || Me(s, c, Done)
    case Choose(c, p) => AtCpu(s, c, Scan) && p < |s.procs| && s.procs[p].state == Runnable
    case Load(c) => AtCpu(s, c, Chosen) && Has(s, c)
    case Enter(c) => AtCpu(s, c, Loaded) && Has(s, c)
    case Resume(c) => AtCpu(s, c, Entering) && Has(s, c)
    case Swtch(c) => AtCpu(s, c, On) && Has(s, c) && Saved(s.procs[Cur(s, c)].pc)
    case Unload(c) => AtCpu(s, c, Back)
    case Clear(c) => AtCpu(s, c, Unloaded) && Has(s, c)
  }

  predicate CanMake(s: State, step: Making) {
    match step
    case Alloc(c, np) =>
      && Me(s, c, In) && Plain(s.procs[Cur(s, c)])
      && np < |s.procs| && s.procs[np].state == Unused && forall k :: 0 <= k < np ==> s.procs[k].state != Unused
    case GetStack(c, page) => Me(s, c, Out) && Forking(s, c) && s.procs[Cur(s, c)].fork.NeedStack? && Spare(s, page)
    case NoStack(c) => Me(s, c, Out) && Forking(s, c) && s.procs[Cur(s, c)].fork.NeedStack?
    case GetDir(c, page) => Me(s, c, Out) && Forking(s, c) && s.procs[Cur(s, c)].fork.NeedDir? && Spare(s, page)
    case NoDir(c) => Me(s, c, Out) && Forking(s, c) && s.procs[Cur(s, c)].fork.NeedDir?
    case SetParent(c) => Me(s, c, Out) && Forking(s, c) && s.procs[Cur(s, c)].fork.NeedParent?
    case Publish(c) => Me(s, c, In) && Forking(s, c) && s.procs[Cur(s, c)].fork.Ready?
  }

  predicate CanReplace(s: State, step: Replacing) {
    match step
    case SwapDir(c, page) => Me(s, c, Out) && Plain(s.procs[Cur(s, c)]) && Spare(s, page)
    case Reload(c) => Me(s, c, Out) && s.procs[Cur(s, c)].exec.Swapped?
    case FreeOld(c) => Me(s, c, Out) && s.procs[Cur(s, c)].exec.Reloaded?
  }

  predicate CanBlock(s: State, step: Blocking) {
    match step
    case Yield(c) => Me(s, c, In)
    case Sleep(c, a) => Me(s, c, In)
    case Wakeup(c, a) => Me(s, c, In)
    case Interrupt(c, a) => s.lock == None && (AtCpu(s, c, Idle) || Me(s, c, Out))
    case Kill(c, pid) => Me(s, c, In)
    // exit() by init panics
    case Exit(c) => Me(s, c, In) && Plain(s.procs[Cur(s, c)]) && Cur(s, c) != s.init
    case Wait(c) => Me(s, c, In) && Plain(s.procs[Cur(s, c)])
    case Reap(c, q) =>
      && Me(s, c, Waiting) && q < |s.procs| && ZombieChild(s.procs[q], Cur(s, c))
      && forall k :: 0 <= k < q ==> !ZombieChild(s.procs[k], Cur(s, c))
    case GiveUp(c) =>
      && Me(s, c, Waiting) && !HasZombie(s.procs, Cur(s, c))
      && (!HasChild(s.procs, Cur(s, c)) || s.procs[Cur(s, c)].killed)
    case WaitSleep(c) =>
      && Me(s, c, Waiting) && !HasZombie(s.procs, Cur(s, c))
      && HasChild(s.procs, Cur(s, c)) && !s.procs[Cur(s, c)].killed
    // allocproc() finds no slot
    case NoSlot(c) => Me(s, c, In) && forall k :: 0 <= k < |s.procs| ==> s.procs[k].state != Unused
  }

  predicate Enabled(s: State, step: Step) {
    match step
    case Switch(sw) => CanSwitch(s, sw)
    case Make(mk) => CanMake(s, mk)
    case Replace(rp) => CanReplace(s, rp)
    case Block(bl) => CanBlock(s, bl)
  }

  /** CPU c after the step. */
  function Switched(s: State, step: Switching): Cpu
    requires CanSwitch(s, step)
  {
    var u := s.cpus[step.c];
    match step
    case Acquire(c) => if u.at == Idle then u.(at := Scan) else u
    case Release(c) => if u.at == Scan then u.(at := Idle) else u
    case Choose(c, p) => u.(proc := Some(p), at := Chosen)
    case Load(c) => u.(cr3 := s.procs[Cur(s, c)].pgdir, at := Loaded)
    case Enter(c) => u.(stack := s.procs[Cur(s, c)].kstack, at := Entering)
    case Resume(c) => u.(at := On)
    case Swtch(c) => u.(stack := 0, at := Back)
    case Unload(c) => u.(cr3 := s.kpgdir, at := Unloaded)
    case Clear(c) => u.(proc := None, at := Scan)
  }

  /** The process on it, if there is one. */
  function Moved(x: Proc, at: At, step: Switching): Proc {
    match step
    case Acquire(_) => if at == On then x.(pc := In) else x
    case Release(_) => if at == On then x.(pc := Out) else x
    case Enter(_) => x.(state := Running)
    case Resume(_) =>
      if x.pc == WaitSlept then x.(chan := Nothing, pc := Waiting)
      else if x.pc == Slept then x.(chan := Nothing, pc := Done)
      else x.(pc := Done)
    case _ => x
  }

  function DoSwitch(s: State, step: Switching): State
    requires CanSwitch(s, step)
  {
    var c := step.c;
    s.(cpus := s.cpus[c := Switched(s, step)],
       procs := if Has(s, c) then s.procs[Cur(s, c) := Moved(s.procs[Cur(s, c)], s.cpus[c].at, step)] else s.procs,
       lock := if step.Acquire? then Some(c) else if step.Release? then None else s.lock,
       host := match step
         case Choose(_, p) => s.host[p := c]
         case Clear(_) => s.host - {Cur(s, c)}
         case _ => s.host)
  }

  /** The slot that fork() fills. */
  function Slot(s: State, step: Making): (np: nat)
    requires CanMake(s, step)
    ensures np < |s.procs|
  {
    if step.Alloc? then step.np else s.procs[Cur(s, step.c)].fork.np
  }

  /** That slot after the step, when process `me` forks. */
  function Filled(x: Proc, step: Making, me: nat, pid: nat): Proc {
    match step
    case Alloc(c, np) => x.(state := Embryo, pid := pid)
    case GetStack(c, page) => x.(kstack := page, pc := First)
    case NoStack(c) => x.(kstack := 0, state := Unused)
    case GetDir(c, page) => x.(pgdir := page)
    case NoDir(c) => x.(pgdir := 0, kstack := 0, state := Unused)
    case SetParent(c) => x.(parent := Some(me))
    case Publish(c) => x.(state := Runnable)
  }

  /** The process that forks, after the step. */
  function Forked(x: Proc, step: Making, np: nat): Proc {
    match step
    case Alloc(c, _) => x.(fork := NeedStack(np), pc := Done)
    case GetStack(c, page) => x.(fork := NeedDir(np))
    case GetDir(c, page) => x.(fork := NeedParent(np))
    case SetParent(c) => x.(fork := Ready(np))
    case Publish(c) => x.(fork := NoFork, pc := Done)
    case NoStack(c) => x.(fork := NoFork)
    case NoDir(c) => x.(fork := NoFork)
  }

  function DoMake(s: State, step: Making): State
    requires CanMake(s, step)
  {
    var me, np := Cur(s, step.c), Slot(s, step);
    s.(procs := s.procs[np := Filled(s.procs[np], step, me, s.nextpid)][me := Forked(s.procs[me], step, np)],
       nextpid := if step.Alloc? then s.nextpid + 1 else s.nextpid,
       maker := if step.Alloc? then s.maker[np := me] else s.maker,
       own := match step
         case GetStack(c, page) => s.own[page := Stack(np)]
         case GetDir(c, page) => s.own[page := Dir(np)]
         case NoDir(c) => s.own - {s.procs[np].kstack}
         case _ => s.own)
  }

  function DoReplace(s: State, step: Replacing): State
    requires CanReplace(s, step)
  {
    var me := Cur(s, step.c);
    var x := s.procs[me];
    match step
    case SwapDir(c, page) =>
      s.(procs := s.procs[me := x.(pgdir := page, exec := Swapped(x.pgdir))],
         own := s.own[page := Dir(me)][x.pgdir := OldDir(me)])
    case Reload(c) =>
      s.(cpus := s.cpus[c := s.cpus[c].(cr3 := x.pgdir)], procs := s.procs[me := x.(exec := Reloaded(x.exec.dir))])
    case FreeOld(c) =>
      s.(procs := s.procs[me := x.(exec := NoExec)], own := s.own - {x.exec.dir})
  }

  /** The table after a step of `me`, the process on the CPU (if there is one). */
  function BlockedTable(s: State, step: Blocking, me: nat): (t: seq<Proc>)
    requires CanBlock(s, step) && (step.Interrupt? || (Has(s, step.c) && me == Cur(s, step.c)))
    ensures |t| == |s.procs|
  {
    match step
    case Interrupt(c, a) => Woken(s.procs, Addr(a))
    case Yield(c) => s.procs[me := s.procs[me].(state := Runnable, pc := Yielded)]
    case Sleep(c, a) => s.procs[me := s.procs[me].(chan := Addr(a), state := Sleeping, pc := Slept)]
    case Wakeup(c, a) => var t := Woken(s.procs, Addr(a)); t[me := t[me].(pc := Done)]
    case Kill(c, pid) => var t := Killed(s.procs, pid); t[me := t[me].(pc := Done)]
    case Exit(c) => Exited(s.procs, me, s.init)
    case Wait(c) => s.procs[me := s.procs[me].(pc := Waiting)]
    case Reap(c, q) =>
      var t := s.procs[q := s.procs[q].(kstack := 0, pid := 0, parent := None, killed := false, state := Unused)];
      t[me := t[me].(pc := Done)]
    case GiveUp(c) => s.procs[me := s.procs[me].(pc := Done)]
    case WaitSleep(c) => s.procs[me := s.procs[me].(chan := OfProc(me), state := Sleeping, pc := WaitSlept)]
    case NoSlot(c) => s.procs[me := s.procs[me].(pc := Done)]
  }

  function DoBlock(s: State, step: Blocking): State
    requires CanBlock(s, step)
  {
    s.(procs := BlockedTable(s, step, if step.Interrupt? then 0 else Cur(s, step.c)),
       exited := if step.Exit? then s.exited + {s.procs[Cur(s, step.c)].pid} else s.exited,
       returned := if step.Reap? then s.returned + [s.procs[step.q].pid] else s.returned,
       own := if step.Reap? then s.own - {s.procs[step.q].kstack, s.procs[step.q].pgdir} else s.own)
  }

  function Apply(s: State, step: Step): State
    requires Enabled(s, step)
  {
    match step
    case Switch(sw) => DoSwitch(s, sw)
    case Make(mk) => DoMake(s, mk)
    case Replace(rp) => DoReplace(s, rp)
    case Block(bl) => DoBlock(s, bl)
  }

  ghost predicate Run(states: seq<State>, steps: seq<Step>) {
    && |states| == |steps| + 1 && Init(states[0])
    && forall i :: 0 <= i < |steps| ==> Enabled(states[i], steps[i]) && states[i + 1] == Apply(states[i], steps[i])
  }

  /** After userinit, with every CPU about to enter scheduler(). */
  ghost predicate Init(s: State) {
    && (forall c :: 0 <= c < |s.cpus| ==> s.cpus[c] == Cpu(None, 0, s.kpgdir, Idle))
    && s.init < |s.procs| && s.lock == None
    && (forall p :: 0 <= p < |s.procs| && p != s.init ==>
          && s.procs[p].state == Unused && s.procs[p].parent == None && Plain(s.procs[p])
          && s.procs[p].pid == 0 && !s.procs[p].killed && s.procs[p].kstack == 0
          && s.procs[p].chan == Nothing && s.procs[p].pc == Out)
    && (var x := s.procs[s.init];
        && !x.killed && x.chan == Nothing && x.state == Runnable && x.pid == 1 && x.pc == First && Plain(x)
        && s.own == map[s.kpgdir := Kernel, x.kstack := Stack(s.init), x.pgdir := Dir(s.init)]
        && s.kpgdir != x.kstack && x.kstack != x.pgdir && x.pgdir != s.kpgdir)
    && 0 !in s.own && s.nextpid == 2
    && s.maker == map[] && s.host == map[] && s.exited == {} && s.returned == []
  }

  // ---- The invariants -------------------------------------------------------------------------

  predicate InDir(x: Proc, cr3: nat) {
    cr3 == x.pgdir || (x.exec.Swapped? && cr3 == x.exec.dir)
  }

  /** What a CPU's registers and `c->proc` say, and whether it holds ptable.lock. */
  predicate CpuOk(s: State, c: nat)
    requires c < |s.cpus|
  {
    var u := s.cpus[c];
    && (u.at == Idle || u.at == Scan <==> u.proc == None)
    && (u.proc.Some? ==>
          && u.proc.value < |s.procs| && Past(s.procs[u.proc.value])
          && u.proc.value in s.host && s.host[u.proc.value] == c)
    && (u.at == Idle ==> s.lock != Some(c))
    && (u.at != Idle && u.at != On ==> s.lock == Some(c))
    && (u.at != Entering && u.at != On ==> u.stack == 0)
    && (u.at == Idle || u.at == Scan || u.at == Chosen || u.at == Unloaded ==> u.cr3 == s.kpgdir)
    && (Has(s, c) ==>
          var x := s.procs[Cur(s, c)];
          match u.at
          case Chosen => x.state == Runnable
          case Loaded => x.state == Runnable && u.cr3 == x.pgdir
          case Entering => x.state == Running && u.stack == x.kstack && u.cr3 == x.pgdir && Saved(x.pc) && x.pc != Dead
          case On =>
            && u.stack == x.kstack && InDir(x, u.cr3)
            && (s.lock == Some(c) <==> x.pc != Out) && (x.state == Running <==> !Saved(x.pc)) && x.pc != First
          case Back => x.state != Running && InDir(x, u.cr3)
          case Unloaded => x.state != Running
          case _ => false)
  }

  /** How a slot's state and its thread's position agree. */
  predicate ThreadOk(s: State, p: nat)
    requires p < |s.procs|
  {
    var x := s.procs[p];
    && (p in s.host ==> s.host[p] < |s.cpus| && s.cpus[s.host[p]].proc == Some(p))
    && (x.state == Running ==>
          p in s.host && s.host[p] < |s.cpus| && (s.cpus[s.host[p]].at == Entering || s.cpus[s.host[p]].at == On))
    && (x.state == Runnable ==> Saved(x.pc) && x.pc != Dead)
    && (x.state == Sleeping ==> x.pc == Slept || x.pc == WaitSlept)
    && (x.state == Sleeping && x.pc == WaitSlept ==> x.chan == OfProc(p))
    && (x.state == Sleeping && x.pc == Slept ==> x.chan.Addr?)
    && (x.state == Zombie ==> x.pc == Dead && Plain(x))
    && (x.pc == Waiting || x.pc == WaitSlept ==> Past(x) ==> Plain(x))
  }

  predicate Threads(s: State) {
    && (forall c :: 0 <= c < |s.cpus| ==> CpuOk(s, c))
    && (forall p :: 0 <= p < |s.procs| ==> ThreadOk(s, p))
    && (s.lock.Some? ==> s.lock.value < |s.cpus|)
  }

  /** Who made a slot and who its parent is. */
  predicate FamilyOk(s: State, p: nat)
    requires p < |s.procs|
  {
    var x := s.procs[p];
    && (x.fork != NoFork ==>
          && Alive(x) && x.exec == NoExec && x.fork.np < |s.procs| && s.procs[x.fork.np].state == Embryo
          && x.fork.np in s.maker && s.maker[x.fork.np] == p)
    && (x.exec != NoExec ==> Alive(x))
    && (x.state == Unused ==> x.parent == None)
    && (x.state == Embryo ==>
          && p in s.maker && s.maker[p] < |s.procs|
          && s.procs[s.maker[p]].fork != NoFork && s.procs[s.maker[p]].fork.np == p
          && x.parent == (if s.procs[s.maker[p]].fork.Ready? then Some(s.maker[p]) else None)
          && (s.procs[s.maker[p]].fork.NeedStack? || x.pc == First))
    && (Past(x) && p != s.init ==>
          && x.parent.Some? && x.parent.value != p && x.parent.value < |s.procs|
          && Alive(s.procs[x.parent.value]))
  }

  predicate Family(s: State) {
    && s.init < |s.procs| && Alive(s.procs[s.init])
    && forall p :: 0 <= p < |s.procs| ==> FamilyOk(s, p)
  }

  // ---- Threads is kept ------------------------------------------------------------------------

  /** A step of CPU c leaves the other CPUs alone, and ptable.lock too when another CPU has it. */
  predicate Local(s: State, t: State, c: nat) {
    && |t.cpus| == |s.cpus| && |t.procs| == |s.procs| && t.kpgdir == s.kpgdir && t.init == s.init
    && (forall d :: 0 <= d < |s.cpus| && d != c ==> t.cpus[d] == s.cpus[d])
    && (t.lock == s.lock || (s.lock == None && t.lock == Some(c)) || (s.lock == Some(c) && t.lock == None))
  }

  /** What wakeup1, kill and exit's loop may do to the slot of another process. */
  predicate Nudged(x: Proc, y: Proc) {
    || y == x.(parent := y.parent, killed := y.killed)
    || (x.state == Sleeping && y == x.(parent := y.parent, killed := y.killed, state := Runnable))
  }

  predicate HostSame(s: State, t: State, p: nat) {
    (p in t.host <==> p in s.host) && (p in s.host ==> t.host[p] == s.host[p])
  }

  /** The slot of p is changed by nobody but wakeup1, kill and exit, which need ptable.lock. */
  predicate Bystander(s: State, t: State, c: nat, p: nat)
    requires p < |s.procs| && p < |t.procs|
  {
    && Nudged(s.procs[p], t.procs[p]) && HostSame(s, t, p)
    && (s.lock.Some? && s.lock != Some(c) ==> t.procs[p] == s.procs[p])
  }

  /** The slots that a step names. */
  predicate Named(s: State, step: Step, p: nat) {
    var c := Actor(step);
    || (Has(s, c) && p == Cur(s, c))
    || (step.Switch? && step.sw.Choose? && p == step.sw.p)
    || (step.Make? && step.mk.Alloc? && p == step.mk.np)
    || (step.Make? && Forking(s, c) && p == s.procs[Cur(s, c)].fork.np)
    || (step.Block? && step.bl.Reap? && p == step.bl.q)
  }

  function Actor(step: Step): nat {
    match step
    case Switch(sw) => sw.c
    case Make(mk) => mk.c
    case Replace(rp) => rp.c
    case Block(bl) => bl.c
  }

  predicate SameRecords(s: State, t: State) {
    t.nextpid == s.nextpid && t.exited == s.exited && t.returned == s.returned
  }

  predicate PidStep(step: Step) {
    (step.Make? && step.mk.Alloc?) || (step.Block? && (step.bl.Exit? || step.bl.Reap?))
  }

  /** A process that has ptable.lock, or runs without it, is RUNNING. */
  predicate Acting(s: State, c: nat) {
    AtCpu(s, c, On) && Has(s, c) && !Saved(s.procs[Cur(s, c)].pc) ==> s.procs[Cur(s, c)].state == Running
  }

  lemma Acts(s: State, c: nat)
    requires c < |s.cpus| && CpuOk(s, c)
    ensures Acting(s, c)
  {
  }

  lemma SwitchLocal(s: State, step: Switching)
    requires CanSwitch(s, step) && step.c < |s.cpus| && CpuOk(s, step.c)
    ensures Local(s, DoSwitch(s, step), step.c) && DoSwitch(s, step).maker == s.maker
    ensures SameRecords(s, DoSwitch(s, step))
  {
  }

  lemma SwitchBystander(s: State, step: Switching, p: nat)
    requires CanSwitch(s, step) && p < |s.procs| && !Named(s, Switch(step), p)
    ensures |DoSwitch(s, step).procs| == |s.procs| && Bystander(s, DoSwitch(s, step), step.c, p)
  {
  }

  lemma MakeLocal(s: State, step: Making)
    requires CanMake(s, step)
    ensures Local(s, DoMake(s, step), step.c) && (!step.Alloc? ==> SameRecords(s, DoMake(s, step)))
  {
  }

  lemma MakeBystander(s: State, step: Making, p: nat)
    requires CanMake(s, step) && p < |s.procs| && !Named(s, Make(step), p)
    ensures |DoMake(s, step).procs| == |s.procs| && Bystander(s, DoMake(s, step), step.c, p)
  {
  }

  lemma ReplaceLocal(s: State, step: Replacing)
    requires CanReplace(s, step)
    ensures Local(s, DoReplace(s, step), step.c) && DoReplace(s, step).maker == s.maker
    ensures SameRecords(s, DoReplace(s, step))
  {
  }

  lemma ReplaceBystander(s: State, step: Replacing, p: nat)
    requires CanReplace(s, step) && p < |s.procs| && !Named(s, Replace(step), p)
    ensures |DoReplace(s, step).procs| == |s.procs| && Bystander(s, DoReplace(s, step), step.c, p)
  {
  }

  lemma BlockLocal(s: State, step: Blocking)
    requires CanBlock(s, step)
    ensures Local(s, DoBlock(s, step), step.c) && DoBlock(s, step).maker == s.maker
    ensures !step.Exit? && !step.Reap? ==> SameRecords(s, DoBlock(s, step))
  {
  }

  lemma BlockBystander(s: State, step: Blocking, p: nat)
    requires CanBlock(s, step) && step.c < |s.cpus| && CpuOk(s, step.c) && p < |s.procs| && !Named(s, Block(step), p)
    ensures |DoBlock(s, step).procs| == |s.procs| && Bystander(s, DoBlock(s, step), step.c, p)
  {
    hide Killed, Exited, HasZombie, HasChild;
    if step.Kill? {
      KilledAt(s.procs, step.pid, p);
    }
    if step.Exit? {
      ExitedAt(s.procs, Cur(s, step.c), s.init, p);
    }
  }

  lemma OtherCpu(s: State, t: State, c: nat, d: nat)
    requires d < |s.cpus| && d != c && CpuOk(s, d) && Local(s, t, c)
    requires Has(s, d) ==> Bystander(s, t, c, Cur(s, d))
    ensures CpuOk(t, d)
  {
  }

  lemma OtherThread(s: State, t: State, c: nat, p: nat)
    requires p < |s.procs| && ThreadOk(s, p) && Local(s, t, c) && Bystander(s, t, c, p)
    requires p in s.host && s.host[p] == c && c < |s.cpus| ==> t.cpus[c] == s.cpus[c]
    ensures ThreadOk(t, p)
  {
  }

  lemma SwitchSelf(s: State, step: Switching)
    requires CanSwitch(s, step) && step.c < |s.cpus| && CpuOk(s, step.c)
    requires Has(s, step.c) ==> ThreadOk(s, Cur(s, step.c))
    requires step.Choose? ==> ThreadOk(s, step.p)
    ensures CpuOk(DoSwitch(s, step), step.c)
  {
  }

  lemma SwitchNamed(s: State, step: Switching, p: nat)
    requires CanSwitch(s, step) && step.c < |s.cpus| && CpuOk(s, step.c)
    requires p < |s.procs| && Named(s, Switch(step), p) && ThreadOk(s, p)
    requires p in s.host ==> s.host[p] < |s.cpus| && CpuOk(s, s.host[p])
    ensures ThreadOk(DoSwitch(s, step), p)
  {
  }

  lemma MakeSelf(s: State, step: Making)
    requires CanMake(s, step) && step.c < |s.cpus| && CpuOk(s, step.c) && FamilyOk(s, Cur(s, step.c))
    ensures CpuOk(DoMake(s, step), step.c)
  {
  }

  lemma MakeParent(s: State, step: Making)
    requires CanMake(s, step) && Acting(s, step.c) && FamilyOk(s, Cur(s, step.c)) && ThreadOk(s, Cur(s, step.c))
    ensures ThreadOk(DoMake(s, step), Cur(s, step.c))
  {
  }

  lemma MakeChild(s: State, step: Making, p: nat)
    requires CanMake(s, step) && Acting(s, step.c) && FamilyOk(s, Cur(s, step.c))
    requires p == Slot(s, step) && ThreadOk(s, p) && FamilyOk(s, p) && !Past(s.procs[p])
    requires p in s.host ==> s.host[p] < |s.cpus| && CpuOk(s, s.host[p])
    ensures ThreadOk(DoMake(s, step), p)
  {
  }

  lemma ReplaceSelf(s: State, step: Replacing)
    requires CanReplace(s, step) && step.c < |s.cpus| && CpuOk(s, step.c) && FamilyOk(s, Cur(s, step.c))
    ensures CpuOk(DoReplace(s, step), step.c)
  {
  }

  lemma ReplaceNamed(s: State, step: Replacing, p: nat)
    requires CanReplace(s, step) && step.c < |s.cpus| && Acting(s, step.c) && FamilyOk(s, Cur(s, step.c))
    requires p < |s.procs| && Named(s, Replace(step), p) && ThreadOk(s, p) && FamilyOk(s, p)
    requires p in s.host ==> s.host[p] < |s.cpus| && CpuOk(s, s.host[p])
    ensures ThreadOk(DoReplace(s, step), p)
  {
  }

  /** The process that acts, before and after a step under the lock. */
  predicate Acted(x: Proc, y: Proc) {
    && y.kstack == x.kstack && y.pgdir == x.pgdir && y.exec == x.exec && y.fork == x.fork && Past(y)
    && y.pc != Out && y.pc != First && (y.state == Running <==> !Saved(y.pc))
  }

  lemma BlockActs(s: State, step: Blocking)
    requires CanBlock(s, step) && Acting(s, step.c) && !step.Interrupt?
    ensures Acted(s.procs[Cur(s, step.c)], DoBlock(s, step).procs[Cur(s, step.c)])
  {
    hide Killed, Exited, HasZombie, HasChild;
    if step.Kill? {
      KilledAt(s.procs, step.pid, Cur(s, step.c));
    }
    if step.Exit? {
      ExitedAt(s.procs, Cur(s, step.c), s.init, Cur(s, step.c));
    }
  }

  lemma ActedCpu(s: State, t: State, c: nat)
    requires c < |s.cpus| && CpuOk(s, c) && t.cpus == s.cpus && t.lock == s.lock && t.host == s.host &&
             t.kpgdir == s.kpgdir
    requires |t.procs| == |s.procs| && AtCpu(s, c, On) && s.lock == Some(c)
    requires Has(s, c) ==> Acted(s.procs[Cur(s, c)], t.procs[Cur(s, c)])
    ensures CpuOk(t, c)
  {
  }

  lemma InterruptCpu(s: State, step: Blocking)
    requires CanBlock(s, step) && step.Interrupt? && step.c < |s.cpus| && CpuOk(s, step.c)
    ensures CpuOk(DoBlock(s, step), step.c)
  {
  }

  lemma BlockSelf(s: State, step: Blocking)
    requires CanBlock(s, step) && step.c < |s.cpus| && CpuOk(s, step.c)
    ensures CpuOk(DoBlock(s, step), step.c)
  {
    hide BlockedTable, HasZombie, HasChild;
    if step.Interrupt? {
      InterruptCpu(s, step);
    } else {
      Acts(s, step.c);
      BlockActs(s, step);
      ActedCpu(s, DoBlock(s, step), step.c);
    }
  }

  lemma ReapedThread(s: State, step: Blocking)
    requires CanBlock(s, step) && step.Reap? && Acting(s, step.c) && ThreadOk(s, step.q)
    ensures ThreadOk(DoBlock(s, step), step.q)
  {
  }

  lemma ActorThread(s: State, step: Blocking, p: nat)
    requires CanBlock(s, step) && step.c < |s.cpus| && Acting(s, step.c) && Has(s, step.c) && p == Cur(s, step.c)
    requires ThreadOk(s, p)
    requires p in s.host ==> s.host[p] < |s.cpus| && CpuOk(s, s.host[p])
    ensures ThreadOk(DoBlock(s, step), p)
  {
    hide Killed, Exited, HasZombie, HasChild;
    if step.Kill? {
      KilledAt(s.procs, step.pid, p);
    }
    if step.Exit? {
      ExitedAt(s.procs, Cur(s, step.c), s.init, p);
    }
  }

  lemma BlockNamed(s: State, step: Blocking, p: nat)
    requires CanBlock(s, step) && step.c < |s.cpus| && Acting(s, step.c)
    requires p < |s.procs| && Named(s, Block(step), p) && ThreadOk(s, p)
    requires p in s.host ==> s.host[p] < |s.cpus| && CpuOk(s, s.host[p])
    ensures |DoBlock(s, step).procs| == |s.procs| && ThreadOk(DoBlock(s, step), p)
  {
    hide CanBlock, BlockedTable, ThreadOk, CpuOk;
    if Has(s, step.c) && p == Cur(s, step.c) {
      ActorThread(s, step, p);
    } else {
      ReapedThread(s, step);
    }
  }

  /** No step touches the process that another CPU has. */
  lemma NotNamed(s: State, step: Step, d: nat)
    requires Enabled(s, step) && Threads(s) && Family(s) && Actor(step) < |s.cpus|
    requires d < |s.cpus| && d != Actor(step) && Has(s, d)
    ensures !Named(s, step, Cur(s, d))
  {
    assert CpuOk(s, d) && CpuOk(s, Actor(step));
    assert Has(s, Actor(step)) ==> FamilyOk(s, Cur(s, Actor(step)));
  }

  lemma NamedThread(s: State, step: Step, p: nat)
    requires Enabled(s, step) && Threads(s) && Family(s) && Actor(step) < |s.cpus|
    requires p < |s.procs| && Named(s, step, p)
    ensures |Apply(s, step).procs| == |s.procs| && ThreadOk(Apply(s, step), p)
  {
    hide DoSwitch, DoMake, DoReplace, DoBlock, CanSwitch, CanReplace, CanBlock;
    var c := Actor(step);
    assert CpuOk(s, c) && ThreadOk(s, p) && FamilyOk(s, p);
    Acts(s, c);
    assert Has(s, c) ==> ThreadOk(s, Cur(s, c)) && FamilyOk(s, Cur(s, c));
    assert p in s.host ==> CpuOk(s, s.host[p]);
    match step {
      case Switch(sw) =>
        SwitchLocal(s, sw);
        SwitchNamed(s, sw, p);
      case Make(mk) =>
        MakeLocal(s, mk);
        if p == Cur(s, c) {
          MakeParent(s, mk);
        } else {
          MakeChild(s, mk, p);
        }
      case Replace(rp) =>
        ReplaceLocal(s, rp);
        ReplaceNamed(s, rp, p);
      case Block(bl) =>
        BlockLocal(s, bl);
        BlockNamed(s, bl, p);
    }
  }

  lemma StepFrame(s: State, step: Step)
    requires Enabled(s, step) && Threads(s) && Actor(step) < |s.cpus|
    ensures Local(s, Apply(s, step), Actor(step))
    ensures (!step.Make? ==> Apply(s, step).maker == s.maker) && (!PidStep(step) ==> SameRecords(s, Apply(s, step)))
    ensures forall p :: 0 <= p < |s.procs| && !Named(s, step, p) ==> Bystander(s, Apply(s, step), Actor(step), p)
  {
    hide DoSwitch, DoMake, DoReplace, DoBlock, CanSwitch, CanMake, CanReplace, CanBlock, Named, Bystander;
    assert CpuOk(s, Actor(step));
    Acts(s, Actor(step));
    match step {
      case Switch(sw) => SwitchLocal(s, sw);
      case Make(mk) => MakeLocal(s, mk);
      case Replace(rp) => ReplaceLocal(s, rp);
      case Block(bl) => BlockLocal(s, bl);
    }
    forall p | 0 <= p < |s.procs| && !Named(s, step, p) ensures Bystander(s, Apply(s, step), Actor(step), p) {
      match step {
        case Switch(sw) => SwitchBystander(s, sw, p);
        case Make(mk) => MakeBystander(s, mk, p);
        case Replace(rp) => ReplaceBystander(s, rp, p);
        case Block(bl) => BlockBystander(s, bl, p);
      }
    }
  }

  lemma ActorCpu(s: State, step: Step, t: State)
    requires Enabled(s, step) && Threads(s) && Family(s) && Actor(step) < |s.cpus| && t == Apply(s, step)
    ensures |t.cpus| == |s.cpus| && CpuOk(t, Actor(step))
  {
    hide DoSwitch, DoMake, DoReplace, DoBlock, CanReplace, CanBlock;
    StepFrame(s, step);
    var c := Actor(step);
    assert CpuOk(s, c);
    Acts(s, c);
    assert Has(s, c) ==> ThreadOk(s, Cur(s, c)) && FamilyOk(s, Cur(s, c));
    match step {
      case Switch(sw) =>
        assert sw.Choose? ==> ThreadOk(s, sw.p);
        SwitchSelf(s, sw);
      case Make(mk) => MakeSelf(s, mk);
      case Replace(rp) => ReplaceSelf(s, rp);
      case Block(bl) => BlockSelf(s, bl);
    }
  }

  lemma ActorThere(s: State, step: Step)
    requires Enabled(s, step)
    ensures Actor(step) < |s.cpus|
  {
  }

  lemma ThreadsKept(s: State, step: Step, t: State)
    requires Enabled(s, step) && Threads(s) && Family(s) && t == Apply(s, step)
    ensures Threads(t)
  {
    hide Apply, Enabled, CpuOk, ThreadOk, Named, Bystander;
    ActorThere(s, step);
    var c := Actor(step);
    StepFrame(s, step);
    ActorCpu(s, step, t);
    forall d | 0 <= d < |s.cpus| ensures CpuOk(t, d) {
      if d != c {
        if Has(s, d) {
          NotNamed(s, step, d);
        }
        OtherCpu(s, t, c, d);
      }
    }
    forall p | 0 <= p < |s.procs| ensures ThreadOk(t, p) {
      if Named(s, step, p) {
        NamedThread(s, step, p);
      } else {
        Elsewhere(s, step, p);
        OtherThread(s, t, c, p);
      }
    }
  }

  lemma Elsewhere(s: State, step: Step, p: nat)
    requires Threads(s) && p < |s.procs| && Actor(step) < |s.cpus| && !Named(s, step, p)
    ensures p in s.host ==> s.host[p] != Actor(step)
  {
    assert ThreadOk(s, p);
  }

  // ---- Family is kept -------------------------------------------------------------------------

  /** The two slots look the same to their relatives. */
  predicate SameKin(x: Proc, y: Proc) {
    && y.parent == x.parent && y.fork == x.fork && (Alive(y) <==> Alive(x))
    && (y.state == Unused <==> x.state == Unused) && (y.state == Embryo <==> x.state == Embryo)
    && (x.state == Embryo ==> y.pc == x.pc) && (y.exec != NoExec ==> Alive(y) && y.fork == NoFork)
  }

  lemma KinFamily(s: State, t: State)
    requires Family(s) && |t.procs| == |s.procs| && t.maker == s.maker && t.init == s.init
    requires forall p :: 0 <= p < |s.procs| ==> SameKin(s.procs[p], t.procs[p])
    ensures Family(t)
  {
    forall p | 0 <= p < |s.procs| ensures FamilyOk(t, p) {
      assert FamilyOk(s, p) && SameKin(s.procs[p], t.procs[p]);
    }
    assert SameKin(s.procs[s.init], t.procs[s.init]);
  }

  predicate InWaitSleep(x: Proc) {
    x.state == Sleeping && x.pc == WaitSlept
  }

  /** What a step does to a slot that it neither fills nor empties nor sends to sleep in wait(). */
  predicate Stir(x: Proc, y: Proc) {
    && y.pid == x.pid && y.parent == x.parent && y.kstack == x.kstack
    && (y == x.(killed := y.killed) || (Alive(x) && Alive(y) && !InWaitSleep(y)))
  }

  predicate SameRest(x: Proc, y: Proc) {
    y.fork == x.fork && y.exec == x.exec && y.pgdir == x.pgdir
  }

  lemma SwitchStir(s: State, step: Switching, p: nat)
    requires CanSwitch(s, step) && step.c < |s.cpus| && CpuOk(s, step.c) && p < |s.procs|
    ensures Stir(s.procs[p], DoSwitch(s, step).procs[p]) && SameRest(s.procs[p], DoSwitch(s, step).procs[p])
  {
  }

  lemma MakeStir(s: State, step: Making, p: nat)
    requires CanMake(s, step) && Acting(s, step.c) && FamilyOk(s, Cur(s, step.c))
    requires p < |s.procs| && p != Slot(s, step)
    ensures var x, y := s.procs[p], DoMake(s, step).procs[p];
            Stir(x, y) && SameRest(x, y.(fork := x.fork)) && (p != Cur(s, step.c) ==> y == x)
  {
  }

  lemma ReplaceStir(s: State, step: Replacing, p: nat)
    requires CanReplace(s, step) && Acting(s, step.c) && p < |s.procs| && FamilyOk(s, p)
    ensures var x, y := s.procs[p], DoReplace(s, step).procs[p];
            && Stir(x, y) && y.fork == x.fork && (p != Cur(s, step.c) ==> y == x)
            && (y.exec != NoExec ==> Alive(y) && y.fork == NoFork)
  {
  }

  /** exit() and the sleep inside wait() change more than that, and so does wait() to the child it reaps. */
  predicate Drastic(step: Blocking, p: nat) {
    step.Exit? || step.WaitSleep? || (step.Reap? && p == step.q)
  }

  lemma BlockStir(s: State, step: Blocking, p: nat)
    requires CanBlock(s, step) && step.c < |s.cpus| && Acting(s, step.c) && p < |s.procs| && !Drastic(step, p)
    ensures Stir(s.procs[p], DoBlock(s, step).procs[p]) && SameRest(s.procs[p], DoBlock(s, step).procs[p])
  {
    hide Killed, Exited, HasZombie, HasChild;
    if step.Kill? {
      KilledAt(s.procs, step.pid, p);
    }
  }

  lemma WaitSleepKin(s: State, step: Blocking, p: nat)
    requires CanBlock(s, step) && step.WaitSleep? && Acting(s, step.c) && p < |s.procs| && FamilyOk(s, p)
    ensures SameKin(s.procs[p], DoBlock(s, step).procs[p])
  {
  }

  lemma StirKin(x: Proc, y: Proc)
    requires Stir(x, y) && y.fork == x.fork && (y.exec != NoExec ==> Alive(y) && y.fork == NoFork)
    ensures SameKin(x, y)
  {
  }

  /** What exit does to a slot, as its relatives see it. */
  lemma ExitEffect(s: State, step: Blocking, p: nat)
    requires CanBlock(s, step) && step.Exit? && p < |s.procs|
    ensures var x, y, me := s.procs[p], DoBlock(s, step).procs[p], Cur(s, step.c);
            && y.parent == (if ChildOf(x, me) then Some(s.init) else x.parent) && y.fork == x.fork && y.exec == x.exec
            && (p == me ==> y.state == Zombie) && (p != me ==> Alive(y) == Alive(x) && Past(y) == Past(x))
            && y.pid == x.pid && y.kstack == x.kstack && y.pgdir == x.pgdir
            && (p != me ==>
                y.pc == x.pc && (x.state == Embryo <==> y.state == Embryo) &&
                (x.state == Unused <==> y.state == Unused))
  {
    hide Exited, HasZombie;
    ExitedAt(s.procs, Cur(s, step.c), s.init, p);
  }

  lemma ExitFamily(s: State, step: Blocking)
    requires CanBlock(s, step) && step.c < |s.cpus| && Acting(s, step.c) && Family(s) && step.Exit?
    ensures Family(DoBlock(s, step))
  {
    hide Exited;
    var t := DoBlock(s, step);
    forall p | 0 <= p < |s.procs| ensures FamilyOk(t, p) {
      assert FamilyOk(s, p) && FamilyOk(s, Cur(s, step.c));
      ExitEffect(s, step, p);
      ExitEffect(s, step, s.init);
      if s.procs[p].fork != NoFork {
        ExitEffect(s, step, s.procs[p].fork.np);
      }
      if s.procs[p].state == Embryo {
        ExitEffect(s, step, s.maker[p]);
        assert FamilyOk(s, s.maker[p]);
      }
      if Past(s.procs[p]) && p != s.init {
        ExitEffect(s, step, s.procs[p].parent.value);
      }
    }
    ExitEffect(s, step, s.init);
  }

  lemma ReapFamily(s: State, step: Blocking)
    requires CanBlock(s, step) && step.c < |s.cpus| && Acting(s, step.c) && Family(s) && step.Reap?
    ensures Family(DoBlock(s, step))
  {
    var t := DoBlock(s, step);
    forall p | 0 <= p < |s.procs| ensures FamilyOk(t, p) {
      assert FamilyOk(s, p);
      assert s.procs[p].state == Embryo ==> FamilyOk(s, s.maker[p]);
    }
  }

  lemma MakeEffect(s: State, step: Making, t: State)
    requires CanMake(s, step) && Acting(s, step.c) && FamilyOk(s, Cur(s, step.c)) && t == DoMake(s, step)
    ensures var me, np := Cur(s, step.c), Slot(s, step);
            && np != me && |t.procs| == |s.procs| && t.init == s.init && Alive(s.procs[me])
            && (s.procs[me].fork == NoFork || s.procs[me].fork.np == np) && s.procs[me].exec == NoExec
            && s.procs[np].state == (if s.procs[me].fork == NoFork then Unused else Embryo)
            && (forall q :: 0 <= q < |s.procs| && q != me && q != np ==> t.procs[q] == s.procs[q])
            && t.procs[me] == s.procs[me].(fork := t.procs[me].fork, pc := t.procs[me].pc)
            && (t.maker == s.maker || t.maker == s.maker[np := me])
  {
  }

  lemma MakeFamilyOther(s: State, step: Making, t: State, p: nat)
    requires CanMake(s, step) && Acting(s, step.c) && Family(s) && t == DoMake(s, step)
    requires p < |s.procs| && p != Cur(s, step.c) && p != Slot(s, step)
    ensures |t.procs| == |s.procs| && FamilyOk(t, p)
  {
    hide DoMake;
    assert FamilyOk(s, p) && FamilyOk(s, Cur(s, step.c));
    MakeEffect(s, step, t);
    assert s.procs[p].state == Embryo ==> FamilyOk(s, s.maker[p]);
  }

  lemma MakeFamilyParent(s: State, step: Making, t: State)
    requires CanMake(s, step) && Acting(s, step.c) && Family(s) && t == DoMake(s, step)
    ensures |t.procs| == |s.procs| && FamilyOk(t, Cur(s, step.c))
  {
    assert FamilyOk(s, Cur(s, step.c)) && FamilyOk(s, Slot(s, step));
    MakeEffect(s, step, t);
  }

  lemma MakeFamilyChild(s: State, step: Making, t: State)
    requires CanMake(s, step) && Acting(s, step.c) && Family(s) && t == DoMake(s, step)
    ensures |t.procs| == |s.procs| && FamilyOk(t, Slot(s, step))
  {
    assert FamilyOk(s, Cur(s, step.c)) && FamilyOk(s, Slot(s, step));
    MakeEffect(s, step, t);
  }

  lemma MakeFamily(s: State, step: Making, t: State)
    requires CanMake(s, step) && Acting(s, step.c) && Family(s) && t == DoMake(s, step)
    ensures Family(t)
  {
    hide DoMake;
    assert FamilyOk(s, Cur(s, step.c));
    MakeEffect(s, step, t);
    MakeFamilyParent(s, step, t);
    MakeFamilyChild(s, step, t);
    forall p | 0 <= p < |s.procs| && p != Cur(s, step.c) && p != Slot(s, step) ensures FamilyOk(t, p) {
      MakeFamilyOther(s, step, t, p);
    }
    assert FamilyOk(s, s.init);
  }

  lemma StepKin(s: State, step: Step, p: nat)
    requires Enabled(s, step) && Threads(s) && Family(s) && p < |s.procs|
    requires !step.Make? && (step.Block? ==> !step.bl.Exit? && !step.bl.Reap?)
    ensures |Apply(s, step).procs| == |s.procs| && SameKin(s.procs[p], Apply(s, step).procs[p])
  {
    hide CpuOk, CanSwitch, DoSwitch, CanReplace, DoReplace;
    ActorThere(s, step);
    StepFrame(s, step);
    assert CpuOk(s, Actor(step)) && FamilyOk(s, p);
    Acts(s, Actor(step));
    if step.Block? && step.bl.WaitSleep? {
      WaitSleepKin(s, step.bl, p);
      return;
    }
    match step {
      case Switch(sw) => SwitchStir(s, sw, p);
      case Replace(rp) => ReplaceStir(s, rp, p);
      case Block(bl) => BlockStir(s, bl, p);
    }
    StirKin(s.procs[p], Apply(s, step).procs[p]);
  }

  lemma FamilyKept(s: State, step: Step, t: State)
    requires Enabled(s, step) && Threads(s) && Family(s) && t == Apply(s, step)
    ensures Family(t)
  {
    hide DoMake, DoReplace, CanReplace, CanMake, CpuOk, SameKin, FamilyOk, DoBlock, DoSwitch;
    ActorThere(s, step);
    StepFrame(s, step);
    assert CpuOk(s, Actor(step));
    Acts(s, Actor(step));
    if step.Make? {
      MakeFamily(s, step.mk, t);
    } else if step.Block? && step.bl.Exit? {
      ExitFamily(s, step.bl);
    } else if step.Block? && step.bl.Reap? {
      ReapFamily(s, step.bl);
    } else {
      forall p | 0 <= p < |s.procs| ensures SameKin(s.procs[p], t.procs[p]) {
        StepKin(s, step, p);
      }
      KinFamily(s, t);
    }
  }

  // ---- Nobody sleeps in wait() with a zombie child ----------------------------------------------

  predicate Sleepers(s: State) {
    forall p, q :: 0 <= p < |s.procs| && 0 <= q < |s.procs| && InWaitSleep(s.procs[p]) ==> !ZombieChild(s.procs[q], p)
  }

  /** Neither a new zombie, nor a zombie with a new parent, nor a new sleeper in wait(). */
  predicate Mild(x: Proc, y: Proc) {
    && (y.state == Zombie ==> x.state == Zombie && y.parent == x.parent && y.pid == x.pid)
    && (InWaitSleep(y) ==> InWaitSleep(x))
  }

  predicate IsMild(step: Step) {
    step.Block? ==> !step.bl.Exit? && !step.bl.WaitSleep?
  }

  lemma SlotMild(s: State, step: Making)
    requires CanMake(s, step) && Acting(s, step.c) && FamilyOk(s, Cur(s, step.c))
    ensures var np := Slot(s, step); Mild(s.procs[np], DoMake(s, step).procs[np])
  {
  }

  lemma StepMild(s: State, step: Step, p: nat)
    requires Enabled(s, step) && Threads(s) && Family(s) && IsMild(step) && p < |s.procs|
    ensures |Apply(s, step).procs| == |s.procs| && Mild(s.procs[p], Apply(s, step).procs[p])
  {
    hide CpuOk, CanSwitch, DoSwitch, CanReplace, DoReplace, DoMake;
    ActorThere(s, step);
    StepFrame(s, step);
    assert CpuOk(s, Actor(step)) && FamilyOk(s, p);
    Acts(s, Actor(step));
    match step {
      case Switch(sw) => SwitchStir(s, sw, p);
      case Replace(rp) => ReplaceStir(s, rp, p);
      case Make(mk) =>
        assert FamilyOk(s, Cur(s, mk.c));
        if p == Slot(s, mk) {
          SlotMild(s, mk);
        } else {
          MakeStir(s, mk, p);
        }
      case Block(bl) =>
        if !Drastic(bl, p) {
          BlockStir(s, bl, p);
        }
    }
  }

  lemma ExitSleepers(s: State, step: Blocking, p: nat, q: nat)
    requires CanBlock(s, step) && step.Exit? && Threads(s) && Family(s) && Sleepers(s)
    requires p < |s.procs| && q < |s.procs|
    ensures var t := DoBlock(s, step).procs; InWaitSleep(t[p]) ==> !ZombieChild(t[q], p)
  {
    hide Exited;
    var me := Cur(s, step.c);
    ExitedAt(s.procs, me, s.init, p);
    ExitedAt(s.procs, me, s.init, q);
    assert ThreadOk(s, p) && FamilyOk(s, me) && CpuOk(s, step.c);
    var a := Woken(s.procs, ParentChan(s.procs[me]));
    assert ZombieChild(a[q], me) ==> HasZombie(a, me);
  }

  lemma NoZombieChild(t: seq<Proc>, me: nat, q: nat)
    requires !HasZombie(t, me) && q < |t|
    ensures !ZombieChild(t[q], me)
  {
  }

  lemma SleepersKept(s: State, step: Step, t: State)
    requires Enabled(s, step) && Threads(s) && Family(s) && Sleepers(s) && t == Apply(s, step)
    ensures Sleepers(t)
  {
    hide Exited, CanSwitch, CanMake, CanReplace, DoSwitch, DoMake, DoReplace, CpuOk, ThreadOk, FamilyOk;
    ActorThere(s, step);
    StepFrame(s, step);
    forall p, q | 0 <= p < |s.procs| && 0 <= q < |s.procs| && InWaitSleep(t.procs[p])
      ensures !ZombieChild(t.procs[q], p) {
      if IsMild(step) {
        StepMild(s, step, p);
        StepMild(s, step, q);
      } else if step.bl.Exit? {
        ExitSleepers(s, step.bl, p, q);
      } else {
        NoZombieChild(s.procs, Cur(s, step.bl.c), q);
      }
    }
  }

  // ---- Pids -------------------------------------------------------------------------------------

  predicate PidOk(s: State, p: nat)
    requires p < |s.procs|
  {
    var x := s.procs[p];
    x.state != Unused ==>
      && 0 < x.pid < s.nextpid && x.pid !in s.returned && (x.pid in s.exited <==> x.state == Zombie)
  }

  predicate Held(s: State, pid: nat) {
    exists p :: 0 <= p < |s.procs| && s.procs[p].state == Zombie && s.procs[p].pid == pid
  }

  predicate DistinctPids(s: State) {
    forall p, q :: 0 <= p < q < |s.procs| && s.procs[p].state != Unused && s.procs[q].state != Unused ==>
      s.procs[p].pid != s.procs[q].pid
  }

  /** Each pid that exit() has recorded is either returned, once, or still in a zombie's slot. */
  predicate Pids(s: State) {
    && s.nextpid > 0 && DistinctPids(s)
    && (forall p :: 0 <= p < |s.procs| ==> PidOk(s, p))
    && (forall i, j :: 0 <= i < j < |s.returned| ==> s.returned[i] != s.returned[j])
    && (forall i :: 0 <= i < |s.returned| ==> s.returned[i] in s.exited)
    && (forall e :: e in s.exited ==> e < s.nextpid && (e in s.returned || Held(s, e)))
  }

  predicate SamePid(x: Proc, y: Proc) {
    && (y.state != Unused ==> x.state != Unused && y.pid == x.pid)
    && (y.state == Zombie <==> x.state == Zombie)
  }

  lemma PidFrame(s: State, t: State)
    requires Pids(s) && |t.procs| == |s.procs| && t.nextpid == s.nextpid
    requires t.exited == s.exited && t.returned == s.returned
    requires forall p :: 0 <= p < |s.procs| ==> SamePid(s.procs[p], t.procs[p])
    ensures Pids(t)
  {
    forall p | 0 <= p < |s.procs| ensures PidOk(t, p) {
      assert PidOk(s, p) && SamePid(s.procs[p], t.procs[p]);
    }
    forall e | e in s.exited && e !in s.returned ensures Held(t, e) {
      var p :| 0 <= p < |s.procs| && s.procs[p].state == Zombie && s.procs[p].pid == e;
      assert SamePid(s.procs[p], t.procs[p]);
    }
    forall p, q | 0 <= p < q < |s.procs| && t.procs[p].state != Unused && t.procs[q].state != Unused
      ensures t.procs[p].pid != t.procs[q].pid
    {
      assert SamePid(s.procs[p], t.procs[p]) && SamePid(s.procs[q], t.procs[q]);
    }
  }

  lemma SlotPid(s: State, step: Making)
    requires CanMake(s, step) && Acting(s, step.c) && FamilyOk(s, Cur(s, step.c)) && !step.Alloc?
    ensures var np := Slot(s, step); SamePid(s.procs[np], DoMake(s, step).procs[np])
  {
  }

  lemma StepPid(s: State, step: Step, p: nat)
    requires Enabled(s, step) && Threads(s) && Family(s) && !PidStep(step) && p < |s.procs|
    ensures |Apply(s, step).procs| == |s.procs| && SamePid(s.procs[p], Apply(s, step).procs[p])
  {
    hide CanSwitch, DoSwitch, CanReplace, DoReplace, DoMake;
    ActorThere(s, step);
    StepFrame(s, step);
    assert CpuOk(s, Actor(step)) && FamilyOk(s, p);
    Acts(s, Actor(step));
    match step {
      case Switch(sw) => SwitchStir(s, sw, p);
      case Replace(rp) => ReplaceStir(s, rp, p);
      case Make(mk) =>
        assert FamilyOk(s, Cur(s, mk.c));
        if p == Slot(s, mk) {
          SlotPid(s, mk);
        } else {
          MakeStir(s, mk, p);
        }
      case Block(bl) =>
        if !Drastic(bl, p) {
          BlockStir(s, bl, p);
        }
    }
  }

  lemma AllocPids(s: State, step: Making, t: State)
    requires CanMake(s, step) && Acting(s, step.c) && FamilyOk(s, Cur(s, step.c)) && step.Alloc? && Pids(s)
    requires t == DoMake(s, step)
    ensures Pids(t)
  {
    forall p | 0 <= p < |s.procs| ensures PidOk(t, p) {
      assert PidOk(s, p);
    }
    forall p, q | 0 <= p < q < |s.procs| && t.procs[p].state != Unused && t.procs[q].state != Unused
      ensures t.procs[p].pid != t.procs[q].pid
    {
      assert PidOk(s, p) && PidOk(s, q);
    }
    forall e | e in s.exited && e !in s.returned ensures Held(t, e) {
      var p :| 0 <= p < |s.procs| && s.procs[p].state == Zombie && s.procs[p].pid == e;
      assert t.procs[p] == s.procs[p];
    }
  }

  lemma ExitPids(s: State, step: Blocking, t: State)
    requires CanBlock(s, step) && step.Exit? && Acting(s, step.c) && Pids(s) && t == DoBlock(s, step)
    ensures Pids(t)
  {
    hide Exited;
    var me := Cur(s, step.c);
    assert PidOk(s, me);
    forall p | 0 <= p < |s.procs| ensures PidOk(t, p) {
      assert PidOk(s, p);
      ExitEffect(s, step, p);
    }
    forall p, q | 0 <= p < q < |s.procs| && t.procs[p].state != Unused && t.procs[q].state != Unused
      ensures t.procs[p].pid != t.procs[q].pid
    {
      ExitEffect(s, step, p);
      ExitEffect(s, step, q);
    }
    forall e | e in t.exited && e !in s.returned ensures Held(t, e) {
      ExitEffect(s, step, me);
      if e in s.exited {
        var p :| 0 <= p < |s.procs| && s.procs[p].state == Zombie && s.procs[p].pid == e;
        ExitEffect(s, step, p);
        assert t.procs[p].state == Zombie;
      } else {
        assert t.procs[me].pid == e;
      }
    }
  }

  lemma ReapPids(s: State, step: Blocking, t: State)
    requires CanBlock(s, step) && step.Reap? && Acting(s, step.c) && Pids(s) && t == DoBlock(s, step)
    ensures Pids(t)
  {
    var me := Cur(s, step.c);
    assert PidOk(s, step.q);
    assert forall i :: 0 <= i < |s.returned| ==> s.returned[i] in s.returned;
    forall p | 0 <= p < |s.procs| ensures PidOk(t, p) {
      assert PidOk(s, p);
    }
    forall e | e in s.exited && e !in t.returned ensures Held(t, e) {
      assert e !in s.returned by {
        assert forall i :: 0 <= i < |s.returned| ==> t.returned[i] == s.returned[i];
      }
      assert t.returned[|s.returned|] == s.procs[step.q].pid;
      var p :| 0 <= p < |s.procs| && s.procs[p].state == Zombie && s.procs[p].pid == e;
      assert t.procs[p] == s.procs[p];
    }
  }

  lemma PidsKept(s: State, step: Step, t: State)
    requires Enabled(s, step) && Threads(s) && Family(s) && Pids(s) && t == Apply(s, step)
    ensures Pids(t)
  {
    hide DoSwitch, CanSwitch, CanReplace, DoReplace, DoMake, DoBlock, CpuOk, FamilyOk, Pids, SamePid;
    ActorThere(s, step);
    StepFrame(s, step);
    assert CpuOk(s, Actor(step));
    Acts(s, Actor(step));
    if step.Make? && step.mk.Alloc? {
      assert FamilyOk(s, Cur(s, step.mk.c));
      AllocPids(s, step.mk, t);
    } else if step.Block? && step.bl.Exit? {
      ExitPids(s, step.bl, t);
    } else if step.Block? && step.bl.Reap? {
      ReapPids(s, step.bl, t);
    } else {
      forall p | 0 <= p < |s.procs| ensures SamePid(s.procs[p], t.procs[p]) {
        StepPid(s, step, p);
      }
      PidFrame(s, t);
    }
  }

  // ---- Pages ------------------------------------------------------------------------------------

  /** The fork() that fills embryo slot p has not yet come to its kernel stack (directory). */
  predicate HasStack(s: State, p: nat)
    requires p < |s.procs|
  {
    || Past(s.procs[p])
    || (s.procs[p].state == Embryo && p in s.maker && s.maker[p] < |s.procs| && !s.procs[s.maker[p]].fork.NeedStack?)
  }

  predicate HasDir(s: State, p: nat)
    requires p < |s.procs|
  {
    HasStack(s, p) && (s.procs[p].state == Embryo ==> !s.procs[s.maker[p]].fork.NeedDir?)
  }

  predicate SlotPages(s: State, p: nat)
    requires p < |s.procs|
  {
    var x := s.procs[p];
    && (HasStack(s, p) ==> x.kstack in s.own && s.own[x.kstack] == Stack(p))
    && (HasDir(s, p) ==> x.pgdir in s.own && s.own[x.pgdir] == Dir(p))
    && (x.exec != NoExec ==> x.exec.dir in s.own && s.own[x.exec.dir] == OldDir(p))
  }

  predicate PageOk(s: State, g: nat)
    requires g in s.own
  {
    match s.own[g]
    case Kernel => g == s.kpgdir
    case Stack(p) => p < |s.procs| && HasStack(s, p) && s.procs[p].kstack == g
    case Dir(p) => p < |s.procs| && HasDir(s, p) && s.procs[p].pgdir == g
    case OldDir(p) => p < |s.procs| && s.procs[p].exec != NoExec && s.procs[p].exec.dir == g
  }

  /** Each allocated page is the stack or a directory of exactly one slot, or the kernel's directory. */
  predicate Pages(s: State) {
    && s.kpgdir in s.own && s.own[s.kpgdir] == Kernel && 0 !in s.own
    && (forall p :: 0 <= p < |s.procs| ==> SlotPages(s, p))
    && (forall g :: g in s.own ==> PageOk(s, g))
  }

  /** The slot has the same pages, and uses them for the same. */
  predicate SamePages(x: Proc, y: Proc) {
    && y.kstack == x.kstack && y.pgdir == x.pgdir && y.exec == x.exec && y.fork == x.fork
    && (Past(y) <==> Past(x)) && (y.state == Embryo <==> x.state == Embryo)
  }

  lemma PagesFrame(s: State, t: State)
    requires Pages(s) && Family(s) && |t.procs| == |s.procs| && t.own == s.own && t.maker == s.maker &&
             t.kpgdir == s.kpgdir
    requires forall p :: 0 <= p < |s.procs| ==> SamePages(s.procs[p], t.procs[p])
    ensures Pages(t)
  {
    forall p | 0 <= p < |s.procs| ensures SlotPages(t, p) {
      assert SlotPages(s, p) && FamilyOk(s, p) && SamePages(s.procs[p], t.procs[p]);
    }
    forall g | g in s.own ensures PageOk(t, g) {
      assert PageOk(s, g);
    }
  }

  predicate PageStep(step: Step) {
    step.Make? || step.Replace? || (step.Block? && step.bl.Reap?)
  }

  lemma StepPages(s: State, step: Step, p: nat)
    requires Enabled(s, step) && Threads(s) && Family(s) && !PageStep(step) && p < |s.procs|
    ensures |Apply(s, step).procs| == |s.procs| && SamePages(s.procs[p], Apply(s, step).procs[p])
  {
    hide CanSwitch, DoSwitch, Exited;
    ActorThere(s, step);
    StepFrame(s, step);
    assert CpuOk(s, Actor(step)) && FamilyOk(s, p);
    Acts(s, Actor(step));
    match step {
      case Switch(sw) => SwitchStir(s, sw, p);
      case Block(bl) =>
        if bl.Exit? {
          ExitEffect(s, bl, p);
        } else if !Drastic(bl, p) {
          BlockStir(s, bl, p);
        }
    }
  }

  lemma SameOwn(s: State, step: Step)
    requires Enabled(s, step) && !PageStep(step)
    ensures Apply(s, step).own == s.own
  {
  }

  lemma MakeOwn(s: State, step: Making, t: State)
    requires CanMake(s, step) && Acting(s, step.c) && FamilyOk(s, Cur(s, step.c)) && t == DoMake(s, step)
    requires FamilyOk(s, Slot(s, step)) && SlotPages(s, Slot(s, step)) && 0 !in s.own
    ensures var np := Slot(s, step);
            && t.kpgdir == s.kpgdir && 0 !in t.own
            && (forall g :: g in s.own && s.own[g] != Stack(np) ==> g in t.own && t.own[g] == s.own[g])
            && (forall g :: g in t.own && t.own[g] != Stack(np) && t.own[g] != Dir(np) ==>
                g in s.own && s.own[g] == t.own[g])
  {
  }

  /** Only slot np changes what it has. */
  lemma MakeHas(s: State, step: Making, t: State, p: nat)
    requires CanMake(s, step) && Acting(s, step.c) && Family(s) && t == DoMake(s, step)
    requires p < |s.procs| && p != Slot(s, step)
    ensures |t.procs| == |s.procs| && HasStack(t, p) == HasStack(s, p) && HasDir(t, p) == HasDir(s, p)
    ensures SameRest(s.procs[p], t.procs[p].(fork := s.procs[p].fork)) && t.procs[p].kstack == s.procs[p].kstack
  {
    hide DoMake;
    assert FamilyOk(s, p) && FamilyOk(s, Cur(s, step.c));
    MakeEffect(s, step, t);
    assert s.procs[p].state == Embryo ==> FamilyOk(s, s.maker[p]);
  }

  lemma MakeSlotPages(s: State, step: Making, t: State)
    requires CanMake(s, step) && Acting(s, step.c) && Family(s) && t == DoMake(s, step) && SlotPages(s, Slot(s, step))
    ensures |t.procs| == |s.procs| && SlotPages(t, Slot(s, step))
  {
    assert FamilyOk(s, Slot(s, step)) && FamilyOk(s, Cur(s, step.c));
    MakeEffect(s, step, t);
  }

  lemma MakeNewPage(s: State, step: Making, t: State, g: nat)
    requires CanMake(s, step) && Acting(s, step.c) && Family(s) && t == DoMake(s, step) && SlotPages(s, Slot(s, step))
    requires g in t.own && (t.own[g] == Stack(Slot(s, step)) || t.own[g] == Dir(Slot(s, step)))
    requires g in s.own ==> PageOk(s, g)
    ensures PageOk(t, g)
  {
    assert FamilyOk(s, Slot(s, step)) && FamilyOk(s, Cur(s, step.c));
    MakeEffect(s, step, t);
  }

  lemma MakePages(s: State, step: Making, t: State)
    requires CanMake(s, step) && Acting(s, step.c) && Family(s) && Pages(s) && t == DoMake(s, step)
    ensures Pages(t)
  {
    hide DoMake, HasStack, HasDir;
    var np := Slot(s, step);
    assert FamilyOk(s, Cur(s, step.c)) && FamilyOk(s, np) && SlotPages(s, np);
    MakeOwn(s, step, t);
    MakeEffect(s, step, t);
    MakeSlotPages(s, step, t);
    forall p | 0 <= p < |s.procs| && p != np ensures SlotPages(t, p) {
      MakeHas(s, step, t, p);
      assert SlotPages(s, p);
    }
    forall g | g in t.own ensures PageOk(t, g) {
      if t.own[g] != Stack(np) && t.own[g] != Dir(np) {
        assert PageOk(s, g);
        MakeOld(s, step, t, g);
      } else {
        MakeNewPage(s, step, t, g);
      }
    }
  }

  lemma MakeOld(s: State, step: Making, t: State, g: nat)
    requires CanMake(s, step) && Acting(s, step.c) && Family(s) && t == DoMake(s, step)
    requires g in s.own && g in t.own && t.own[g] == s.own[g] && t.kpgdir == s.kpgdir && PageOk(s, g)
    requires t.own[g] != Stack(Slot(s, step)) && t.own[g] != Dir(Slot(s, step))
    ensures PageOk(t, g)
  {
    hide DoMake, HasStack, HasDir;
    var np := Slot(s, step);
    assert FamilyOk(s, np) && FamilyOk(s, Cur(s, step.c));
    MakeEffect(s, step, t);
    if s.own[g] != Kernel && s.own[g].p != np {
      MakeHas(s, step, t, s.own[g].p);
    }
  }

  lemma ReplaceSlotPages(s: State, step: Replacing, t: State, p: nat)
    requires CanReplace(s, step) && t == DoReplace(s, step) && p < |s.procs| && s.procs[Cur(s, step.c)].state == Running
    requires SlotPages(s, p) && SlotPages(s, Cur(s, step.c)) && FamilyOk(s, p)
    ensures SlotPages(t, p)
  {
  }

  lemma ReplacePageOk(s: State, step: Replacing, t: State, g: nat)
    requires CanReplace(s, step) && t == DoReplace(s, step) && g in t.own && (g in s.own ==> PageOk(s, g))
    requires s.procs[Cur(s, step.c)].state == Running && SlotPages(s, Cur(s, step.c))
    ensures PageOk(t, g)
  {
  }

  lemma ReplacePages(s: State, step: Replacing, t: State)
    requires CanReplace(s, step) && Acting(s, step.c) && Family(s) && Pages(s) && t == DoReplace(s, step)
    ensures Pages(t)
  {
    hide SlotPages, PageOk, FamilyOk;
    assert SlotPages(s, Cur(s, step.c));
    forall p | 0 <= p < |s.procs| ensures SlotPages(t, p) {
      assert SlotPages(s, p) && FamilyOk(s, p);
      ReplaceSlotPages(s, step, t, p);
    }
    forall g | g in t.own ensures PageOk(t, g) {
      assert g in s.own ==> PageOk(s, g);
      ReplacePageOk(s, step, t, g);
    }
    KernelDirKept(s, step, t);
  }

  lemma KernelDirKept(s: State, step: Replacing, t: State)
    requires CanReplace(s, step) && Acting(s, step.c) && Pages(s) && t == DoReplace(s, step)
    ensures t.kpgdir in t.own && t.own[t.kpgdir] == Kernel && 0 !in t.own
  {
    assert SlotPages(s, Cur(s, step.c));
  }

  lemma ReapPages(s: State, step: Blocking, t: State)
    requires CanBlock(s, step) && step.Reap? && Acting(s, step.c) && Family(s) && Pages(s) && t == DoBlock(s, step)
    ensures Pages(t)
  {
    var me := Cur(s, step.c);
    assert FamilyOk(s, step.q) && SlotPages(s, step.q);
    forall p | 0 <= p < |s.procs| ensures SlotPages(t, p) {
      assert SlotPages(s, p) && FamilyOk(s, p);
    }
    forall g | g in t.own ensures PageOk(t, g) {
      assert PageOk(s, g);
    }
  }

  lemma PagesKept(s: State, step: Step, t: State)
    requires Enabled(s, step) && Threads(s) && Family(s) && Pages(s) && t == Apply(s, step)
    ensures Pages(t)
  {
    hide CanSwitch, CanMake, CanReplace, DoSwitch, DoMake, DoReplace, DoBlock, CpuOk, FamilyOk, Pages, SamePages;
    ActorThere(s, step);
    StepFrame(s, step);
    assert CpuOk(s, Actor(step));
    Acts(s, Actor(step));
    if step.Make? {
      MakePages(s, step.mk, t);
    } else if step.Replace? {
      ReplacePages(s, step.rp, t);
    } else if step.Block? && step.bl.Reap? {
      ReapPages(s, step.bl, t);
    } else {
      SameOwn(s, step);
      forall p | 0 <= p < |s.procs| ensures SamePages(s.procs[p], t.procs[p]) {
        StepPages(s, step, p);
      }
      PagesFrame(s, t);
    }
  }

  // ---- Every run --------------------------------------------------------------------------------

  predicate Inv(s: State) {
    Threads(s) && Family(s) && Sleepers(s) && Pids(s) && Pages(s)
  }

  lemma InitInv(s: State)
    requires Init(s)
    ensures Inv(s)
  {
    assert Threads(s);
    assert Family(s);
    assert Pages(s);
    assert Pids(s);
  }

  lemma {:induction false} RunInv(states: seq<State>, steps: seq<Step>, i: nat)
    requires Run(states, steps) && i < |states|
    ensures Inv(states[i])
  {
    hide Init, Enabled, Apply, Threads, Family, Sleepers, Pids, Pages;
    if i == 0 {
      InitInv(states[0]);
    } else {
      var s, step, t := states[i - 1], steps[i - 1], states[i];
      RunInv(states, steps, i - 1);
      ThreadsKept(s, step, t);
      FamilyKept(s, step, t);
      SleepersKept(s, step, t);
      PidsKept(s, step, t);
      PagesKept(s, step, t);
    }
  }

  predicate HasProc(s: State, c: nat, p: nat) {
    c < |s.cpus| && s.cpus[c].proc == Some(p)
  }

  /** While ptable.lock is free, a process is RUNNING exactly when one CPU has it as c->proc. */
  lemma SchedulerSafety(states: seq<State>, steps: seq<Step>, i: nat, p: nat)
    requires Run(states, steps) && i < |states| && states[i].lock == None && p < |states[i].procs|
    ensures states[i].procs[p].state == Running <==> exists c :: HasProc(states[i], c, p)
    ensures forall c, d :: HasProc(states[i], c, p) && HasProc(states[i], d, p) ==> c == d
  {
    RunInv(states, steps, i);
    var s := states[i];
    assert ThreadOk(s, p);
    if s.procs[p].state == Running {
      assert HasProc(s, s.host[p], p);
    }
    forall c | HasProc(s, c, p) ensures s.procs[p].state == Running && s.host[p] == c {
      assert CpuOk(s, c);
    }
  }

  /** The stack and the directory that CPU c has loaded belong to its process, or to the kernel. */
  predicate LoadedOk(s: State, c: nat)
    requires c < |s.cpus|
  {
    var u := s.cpus[c];
    && (u.stack != 0 ==> Has(s, c) && u.stack in s.own && s.own[u.stack] == Stack(Cur(s, c)))
    && u.cr3 in s.own
    && (s.own[u.cr3] == Kernel || (Has(s, c) && (s.own[u.cr3] == Dir(Cur(s, c)) || s.own[u.cr3] == OldDir(Cur(s, c)))))
  }

  lemma LoadedPages(s: State, c: nat)
    requires Threads(s) && Pages(s) && c < |s.cpus|
    ensures LoadedOk(s, c)
  {
    assert CpuOk(s, c);
    Acts(s, c);
    if Has(s, c) {
      assert SlotPages(s, Cur(s, c));
    }
  }

  lemma FreeingMovesNoCpu(s: State, step: Step, g: nat)
    requires Enabled(s, step) && g in s.own && g !in Apply(s, step).own
    ensures Apply(s, step).cpus == s.cpus
  {
  }

  /**
   In every state, also inside the critical sections, each CPU runs on a stack and a directory that
   are allocated; so no step frees a page that a CPU runs on or has loaded.
   */
  lemma FreesNothingLoaded(states: seq<State>, steps: seq<Step>, i: nat, c: nat)
    requires Run(states, steps) && i < |steps| && c < |states[i].cpus|
    ensures LoadedOk(states[i], c)
    ensures forall g :: g in states[i].own && g !in states[i + 1].own ==>
              states[i].cpus[c].stack != g && states[i].cpus[c].cr3 != g
  {
    hide Enabled, Apply, Init, Threads, Pages, Family, Sleepers, Pids;
    RunInv(states, steps, i);
    RunInv(states, steps, i + 1);
    LoadedPages(states[i], c);
    forall g | g in states[i].own && g !in states[i + 1].own
      ensures states[i].cpus[c].stack != g && states[i].cpus[c].cr3 != g
    {
      FreeingMovesNoCpu(states[i], steps[i], g);
      LoadedPages(states[i + 1], c);
      NullNeverOwned(states[i]);
    }
  }

  lemma NullNeverOwned(s: State)
    requires Pages(s)
    ensures 0 !in s.own
  {
  }

  /** A process past EMBRYO, other than init, has a parent that can still call wait(). */
  lemma ParentsLive(states: seq<State>, steps: seq<Step>, i: nat, p: nat)
    requires Run(states, steps) && i < |states| && p < |states[i].procs|
    requires Past(states[i].procs[p]) && p != states[i].init
    ensures var parent := states[i].procs[p].parent;
            parent.Some? && parent.value < |states[i].procs| && Alive(states[i].procs[parent.value])
  {
    RunInv(states, steps, i);
    assert FamilyOk(states[i], p);
  }

  /** No process sleeps on its own slot, which only wait() does, while a child of it is a zombie. */
  lemma NoZombieUnnoticed(states: seq<State>, steps: seq<Step>, i: nat, p: nat, q: nat)
    requires Run(states, steps) && i < |states| && p < |states[i].procs| && q < |states[i].procs|
    requires states[i].procs[p].state == Sleeping && states[i].procs[p].chan == OfProc(p)
    ensures !ZombieChild(states[i].procs[q], p)
  {
    RunInv(states, steps, i);
    assert ThreadOk(states[i], p);
  }

  /** wait() returns each pid at most once, only for a process that exited, and no exited pid is lost. */
  lemma ReturnedOnce(states: seq<State>, steps: seq<Step>, i: nat)
    requires Run(states, steps) && i < |states|
    ensures forall j, k :: 0 <= j < k < |states[i].returned| ==> states[i].returned[j] != states[i].returned[k]
    ensures forall j :: 0 <= j < |states[i].returned| ==> states[i].returned[j] in states[i].exited
    ensures forall e :: e in states[i].exited ==> (e in states[i].returned <==> !Held(states[i], e))
  {
    RunInv(states, steps, i);
    var s := states[i];
    forall e | e in s.exited && Held(s, e) ensures e !in s.returned {
      var p :| 0 <= p < |s.procs| && s.procs[p].state == Zombie && s.procs[p].pid == e;
      assert PidOk(s, p);
    }
  }

  /**
   Panics that cannot happen: release() by a CPU without the lock, sched() without the lock or with
   the state still RUNNING, switchuvm() without a stack or directory, and the return of an exited
   process from sched().
   */
  lemma NoPanic(states: seq<State>, steps: seq<Step>, i: nat)
    requires Run(states, steps) && i < |steps|
    ensures var s := states[i];
            match steps[i]
            case Switch(Release(c)) => s.lock == Some(c)
            case Switch(Swtch(c)) => s.lock == Some(c) && s.procs[Cur(s, c)].state != Running
            case Switch(Load(c)) => s.procs[Cur(s, c)].kstack != 0 && s.procs[Cur(s, c)].pgdir != 0
            case Switch(Resume(c)) => s.procs[Cur(s, c)].pc != Dead
            case Replace(Reload(c)) => s.procs[Cur(s, c)].kstack != 0 && s.procs[Cur(s, c)].pgdir != 0
            case _ => true
  {
    var s, step := states[i], steps[i];
    RunInv(states, steps, i);
    ActorThere(s, step);
    assert CpuOk(s, Actor(step));
    Acts(s, Actor(step));
    assert Has(s, Actor(step)) ==> SlotPages(s, Cur(s, Actor(step)));
  }
}
