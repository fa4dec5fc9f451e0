/**
 The process table and its scanning loops: proc.c and proc.h.

 Every loop over `ptable.proc` that runs under ptable.lock is a method on an array, proved against
 a function of the table it found.  Scheduling.dfy builds its transition system from these
 functions.
 */
module ProcTable {
  import opened Common

  datatype PState = Unused | Embryo | Sleeping | Runnable | Running | Zombie

  /** What a process sleeps on: nothing, a `struct proc`, or some other address. */
  datatype Chan = Nothing | OfProc(p: nat) | Addr(a: nat)

  /**
   Where a process's kernel thread stands.  In the last five it is switched out (or about to be, or
   just switched in), and the name says where swtch returns to.
   */
  datatype Pc =
    | Out        // ptable.lock not held
    | In         // has just acquired ptable.lock
    | Waiting    // in the loop of wait(), lock held
    | Done       // about to release ptable.lock
    | First      // forkret
    | Yielded    // inside yield()
    | Slept      // inside sleep(), called with another lock
    | WaitSlept  // inside sleep(), called by wait()
    | Dead       // inside exit()

  /** How far fork() has come with the slot np. */
  datatype Fork = NoFork | NeedStack(np: nat) | NeedDir(np: nat) | NeedParent(np: nat) | Ready(np: nat)

  /** How far exec() has come with replacing the page directory `dir`. */
  datatype Exec = NoExec | Swapped(dir: nat) | Reloaded(dir: nat)

  datatype Proc = Proc(
    state: PState,
    pid: nat,
    parent: Option<nat>,
    chan: Chan,
    killed: bool,
    kstack: nat,
    pgdir: nat,
    pc: Pc,
    fork: Fork,
    exec: Exec
  )

  predicate Past(x: Proc) {
    x.state == Sleeping || x.state == Runnable || x.state == Running || x.state == Zombie
  }

  predicate Alive(x: Proc) {
    Past(x) && x.state != Zombie
  }

  predicate Saved(pc: Pc) {
    pc == First || pc == Yielded || pc == Slept || pc == WaitSlept || pc == Dead
  }

  predicate ChildOf(x: Proc, p: nat) {
    x.parent == Some(p)
  }

  predicate ZombieChild(x: Proc, p: nat) {
    ChildOf(x, p) && x.state == Zombie
  }

  function WokenProc(x: Proc, chan: Chan): Proc {
    if x.state == Sleeping && x.chan == chan then x.(state := Runnable) else x
  }

  /** The table after wakeup1(chan). */
  function Woken(t: seq<Proc>, chan: Chan): (r: seq<Proc>)
    ensures |r| == |t| && forall i :: 0 <= i < |t| ==> r[i] == WokenProc(t[i], chan)
  {
    seq(|t|, i requires 0 <= i < |t| => WokenProc(t[i], chan))
  }

  method Wakeup1(t: array<Proc>, chan: Chan)
    modifies t
    ensures t[..] == Woken(old(t[..]), chan)
    ensures forall k :: 0 <= k < t.Length ==> t[k] == old(t[k]).(state := t[k].state)
    ensures forall k :: 0 <= k < t.Length ==>
              t[k].state == if old(t[k].state) == Sleeping && old(t[k].chan) == chan then Runnable else old(t[k].state)
  {
    ghost var t0 := t[..];
    var i := 0;
    while i < t.Length
      invariant 0 <= i <= t.Length
      invariant forall k :: 0 <= k < i ==> t[k] == WokenProc(t0[k], chan)
      invariant forall k :: i <= k < t.Length ==> t[k] == t0[k]
    {
      if t[i].state == Sleeping && t[i].chan == chan {
        t[i] := t[i].(state := Runnable);
      }
      i := i + 1;
    }
    assert t[..] == Woken(t0, chan);
  }

  function ParentChan(x: Proc): Chan {
    if x.parent.Some? then OfProc(x.parent.value) else Nothing
  }

  /** A slot after the loop of exit(): children of `me` are init's, and init is awake if `woke`. */
  function Passed(x: Proc, me: nat, init: nat, woke: bool): Proc {
    var y := if ChildOf(x, me) then x.(parent := Some(init)) else x;
    if woke then WokenProc(y, OfProc(init)) else y
  }

  predicate HasZombie(t: seq<Proc>, p: nat) {
    exists i :: 0 <= i < |t| && ZombieChild(t[i], p)
  }

  /** The table when exit() calls sched(). */
  function Exited(t: seq<Proc>, me: nat, init: nat): (r: seq<Proc>)
    requires me < |t|
    ensures |r| == |t|
  {
    var a := Woken(t, ParentChan(t[me]));
    var z := HasZombie(a, me);
    var b := seq(|t|, i requires 0 <= i < |t| => Passed(a[i], me, init, z));
    b[me := b[me].(state := Zombie, pc := Dead)]
  }

  /** Slot k of that table, for a process other than the one that exits, and for that one. */
  lemma ExitedAt(t: seq<Proc>, me: nat, init: nat, k: nat)
    requires me < |t| && k < |t|
    ensures var z := HasZombie(Woken(t, ParentChan(t[me])), me);
            var y := Passed(WokenProc(t[k], ParentChan(t[me])), me, init, z);
            Exited(t, me, init)[k] == if k == me then y.(state := Zombie, pc := Dead) else y
  {
  }

  /** A process asleep on this channel when `me` exits is woken. */
  predicate WokenByExit(t: seq<Proc>, me: nat, init: nat, x: Proc)
    requires me < |t|
  {
    x.state == Sleeping && (x.chan == ParentChan(t[me]) || (x.chan == OfProc(init) && HasZombie(t, me)))
  }

  /** What exit() does to the slot of another process. */
  lemma ExitChanges(t: seq<Proc>, me: nat, init: nat, k: nat)
    requires me < |t| && k < |t| && k != me
    ensures var x, y := t[k], Exited(t, me, init)[k];
            && y == x.(parent := y.parent, state := y.state)
            && y.parent == (if ChildOf(x, me) then Some(init) else x.parent)
            && y.state == if WokenByExit(t, me, init, x) then Runnable else x.state
  {
    ExitedAt(t, me, init, k);
    SameZombies(t, ParentChan(t[me]), me);
  }

  lemma SameZombies(t: seq<Proc>, chan: Chan, p: nat)
    ensures HasZombie(Woken(t, chan), p) <==> HasZombie(t, p)
  {
    if i :| 0 <= i < |t| && ZombieChild(t[i], p) {
      assert ZombieChild(Woken(t, chan)[i], p);
    }
    if i :| 0 <= i < |t| && ZombieChild(Woken(t, chan)[i], p) {
      assert ZombieChild(t[i], p);
    }
  }

  /** The locked part of exit(), up to the call of sched(). */
  method ExitLocked(t: array<Proc>, me: nat, init: nat)
    requires me < t.Length && init < t.Length
    modifies t
    ensures t[..] == Exited(old(t[..]), me, init)
    ensures t[me].state == Zombie && t[me].pid == old(t[me].pid) && t[me].kstack == old(t[me].kstack)
    ensures forall k :: 0 <= k < t.Length && k != me ==>
              && t[k] == old(t[k]).(parent := t[k].parent, state := t[k].state)
              && t[k].parent == (if ChildOf(old(t[k]), me) then Some(init) else old(t[k].parent))
              && t[k].state == if WokenByExit(old(t[..]), me, init, old(t[k])) then Runnable else old(t[k].state)
  {
    ghost var t0 := t[..];
    Wakeup1(t, ParentChan(t[me]));
    ghost var a := t[..];
    ghost var z := false;
    var i := 0;
    while i < t.Length
      invariant 0 <= i <= t.Length
      invariant z <==> exists k :: 0 <= k < i && ZombieChild(a[k], me)
      invariant forall k :: 0 <= k < i ==> t[k] == Passed(a[k], me, init, z)
      invariant forall k :: i <= k < t.Length ==> t[k] == if z then WokenProc(a[k], OfProc(init)) else a[k]
    {
      if ChildOf(t[i], me) {
        t[i] := t[i].(parent := Some(init));
        if t[i].state == Zombie {
          Wakeup1(t, OfProc(init));
          z := true;
        }
      }
      i := i + 1;
    }
    t[me] := t[me].(state := Zombie, pc := Dead);
    assert t[..] == Exited(t0, me, init);
    forall k | 0 <= k < |t0| && k != me
      ensures var x, y := t0[k], t[..][k];
              && y == x.(parent := y.parent, state := y.state)
              && y.parent == (if ChildOf(x, me) then Some(init) else x.parent)
              && y.state == if WokenByExit(t0, me, init, x) then Runnable else x.state
    {
      ExitChanges(t0, me, init, k);
    }
  }

  predicate HasChild(t: seq<Proc>, p: nat) {
    exists i :: 0 <= i < |t| && ChildOf(t[i], p)
  }

  /** One scan of wait()'s loop: the first zombie child, or whether there is any child at all. */
  method ScanChildren(t: array<Proc>, me: nat) returns (zombie: Option<nat>, kids: bool)
    ensures zombie.Some? ==>
              && zombie.value < t.Length && ZombieChild(t[zombie.value], me) && kids
              && forall k :: 0 <= k < zombie.value ==> !ZombieChild(t[k], me)
    ensures zombie.None? ==> !HasZombie(t[..], me) && kids == HasChild(t[..], me)
  {
    kids := false;
    var i := 0;
    while i < t.Length
      invariant 0 <= i <= t.Length
      invariant kids <==> exists k :: 0 <= k < i && ChildOf(t[k], me)
      invariant forall k :: 0 <= k < i ==> !ZombieChild(t[k], me)
    {
      if ChildOf(t[i], me) {
        kids := true;
        if t[i].state == Zombie {
          return Some(i), true;
        }
      }
      i := i + 1;
    }
    return None, kids;
  }

  function KilledProc(x: Proc): Proc {
    x.(killed := true, state := if x.state == Sleeping then Runnable else x.state)
  }

  /** The table after kill(pid): the first slot with that pid, whatever its state. */
  function Killed(t: seq<Proc>, pid: nat): (r: seq<Proc>)
    ensures |r| == |t|
  {
    if t == [] then []
    else if t[0].pid == pid then
      [KilledProc(t[0])] + t[1..]
    else [t[0]] + Killed(t[1..], pid)
  }

  /** Slot p is the first with the pid. */
  predicate FirstWith(t: seq<Proc>, pid: nat, p: nat) {
    p < |t| && t[p].pid == pid && forall j :: 0 <= j < p ==> t[j].pid != pid
  }

  /** kill() marks the first slot with the pid, wakes it if it sleeps, and changes nothing else. */
  lemma {:induction false} KilledAt(t: seq<Proc>, pid: nat, k: nat)
    requires k < |t|
    ensures var x, y := t[k], Killed(t, pid)[k];
            if FirstWith(t, pid, k) then
              && y.killed && y.state == (if x.state == Sleeping then Runnable else x.state)
              && y == x.(killed := y.killed, state := y.state)
            else y == x
  {
    if k > 0 && t[0].pid != pid {
      KilledAt(t[1..], pid, k - 1);
      assert forall j :: 0 <= j < k - 1 ==> t[1..][j] == t[j + 1];
      if FirstWith(t[1..], pid, k - 1) {
        forall j | 0 <= j < k ensures t[j].pid != pid {
          assert j > 0 ==> t[1..][j - 1].pid != pid;
        }
      }
    }
  }

  method Kill(t: array<Proc>, pid: nat) returns (ok: bool)
    modifies t
    ensures t[..] == Killed(old(t[..]), pid)
    ensures ok <==> exists p: nat :: FirstWith(old(t[..]), pid, p)
    ensures forall k :: 0 <= k < t.Length ==>
              if FirstWith(old(t[..]), pid, k) then
                && t[k].killed && t[k].state == (if old(t[k].state) == Sleeping then Runnable else old(t[k].state))
                && t[k] == old(t[k]).(killed := t[k].killed, state := t[k].state)
              else t[k] == old(t[k])
  {
    ghost var t0 := t[..];
    forall k | 0 <= k < |t0|
      ensures |Killed(t0, pid)| == |t0| && !FirstWith(t0, pid, k) ==> Killed(t0, pid)[k] == t0[k]
    {
      KilledAt(t0, pid, k);
    }
    var i := 0;
    while i < t.Length
      invariant 0 <= i <= t.Length && t[..] == t0
      invariant forall k :: 0 <= k < i ==> t0[k].pid != pid
    {
      if t[i].pid == pid {
        t[i] := t[i].(killed := true);
        if t[i].state == Sleeping {
          t[i] := t[i].(state := Runnable);
        }
        assert FirstWith(t0, pid, i);
        KilledAt(t0, pid, i);
        assert t[..] == Killed(t0, pid);
        return true;
      }
      i := i + 1;
    }
    assert t[..] == Killed(t0, pid);
    return false;
  }

  /** allocproc()'s search. */
  method FindUnused(t: array<Proc>) returns (r: Option<nat>)
    ensures r.Some? ==>
              && r.value < t.Length && t[r.value].state == Unused
              && forall k :: 0 <= k < r.value ==> t[k].state != Unused
    ensures r.None? ==> forall k :: 0 <= k < t.Length ==> t[k].state != Unused
  {
    var i := 0;
    while i < t.Length
      invariant 0 <= i <= t.Length
      invariant forall k :: 0 <= k < i ==> t[k].state != Unused
    {
      if t[i].state == Unused {
        return Some(i);
      }
      i := i + 1;
    }
    return None;
  }
}
