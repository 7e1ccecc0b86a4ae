/** fork, exit, wait, sleep, wakeup and kill of kernel/proc.c as a transition system:
    every acquire is a step of its own, and processes interleave freely. */
module ProcWait {

  datatype Run = Unused | Sleeping | Runnable | Running | Zombie

  // What a process sleeps on: itself (in wait), or anything else.
  datatype Chan = NoChan | Own | Other

  /** Where a process is in the kernel. User stands for all code outside fork, wait
      and exit. An index i is a place in the process table; op is exit's
      original_parent. */
  datatype Pc =
    | User
    | Forking(np: nat)
    | Scan(i: nat, kids: bool)          // wait, before looking at slot i
    | ScanLock(i: nat, kids: bool)      // slot i is a child: waiting for its lock
    | ScanHeld(i: nat)                  // holding its lock
    | WaitSleep
    | ExitRead                          // exit, init has been woken
    | ExitParent(op: nat)               // waiting for the parent's lock
    | ExitSelf(op: nat)                 // waiting for its own
    | Reparent(op: nat, i: nat)
    | ReparentLock(op: nat, i: nat)
    | Dead

  /** parent is -1 for a null pointer. born is the process that forked this one; the
      kernel has no such field. */
  datatype Proc = Proc(
    st: Run, parent: int, chan: Chan, killed: bool, xstate: int, pid: nat, pc: Pc, born: int)

  datatype Reap = Reap(pid: nat, status: int)

  /** lock[i] is the holder of proc[i].lock, or -1. exited and reaped record what exit
      was given and what wait returned. */
  datatype Sys = Sys(
    ini: nat, procs: seq<Proc>, lock: seq<int>, nextpid: nat,
    exited: map<nat, int>, reaped: seq<Reap>)

  // ForkFail: allocproc's first failure leaves the pid in place, all others clear the slot.
  datatype Action =
    | Dispatch | Yield | SleepOther | WakeOther(j: nat) | Kill(j: nat)
    | ForkAlloc(np: nat) | ForkFail(cleared: bool) | ForkDone
    | WaitBegin | WaitScan | WaitLock | WaitCheck(copied: bool) | SwitchOut
    | ExitBegin | ExitReadParent | ExitLockParent | ExitLockSelf
    | ReparentScan | ReparentMove | ExitFinish(status: int)

  // ---- Steps ----

  const FREED := Proc(Unused, -1, NoChan, false, 0, 0, User, -1)

  function Wakeup1(x: Proc): Proc {
    if x.chan == Own && x.st == Sleeping then x.(st := Runnable) else x
  }

  predicate Shape(s: Sys) {
    |s.procs| == |s.lock| && s.ini < |s.procs|
  }

  predicate Free(s: Sys, i: nat) {
    i < |s.lock| && s.lock[i] == -1
  }

  predicate Enabled(s: Sys, p: nat, a: Action)
    requires Shape(s)
  {
    && p < |s.procs|
    && var x := s.procs[p];
    match a
    case Dispatch => x.st == Runnable && Free(s, p)
    case Yield => x.st == Running && Free(s, p) && (x.pc.User? || x.pc.ExitRead? || x.pc.ExitParent?)
    case SleepOther => x.st == Running && x.pc.User? && Free(s, p)
    case WakeOther(j) => x.st == Running && Free(s, j) && s.procs[j].st == Sleeping && s.procs[j].chan == Other
    case Kill(j) => x.st == Running && Free(s, j)
    case ForkAlloc(np) => x.st == Running && x.pc.User? && Free(s, np) && s.procs[np].st == Unused
    case ForkFail(_) => x.st == Running && x.pc.Forking?
    case ForkDone => x.st == Running && x.pc.Forking?
    case WaitBegin => x.st == Running && x.pc.User? && Free(s, p)
    case WaitScan => x.st == Running && x.pc.Scan?
    case WaitLock => x.st == Running && x.pc.ScanLock? && Free(s, x.pc.i)
    case WaitCheck(_) => x.st == Running && x.pc.ScanHeld?
    case SwitchOut => (x.pc.WaitSleep? || x.pc.Dead?) && s.lock[p] == p
    case ExitBegin => x.st == Running && x.pc.User? && p != s.ini && Free(s, s.ini)
    case ExitReadParent => x.st == Running && x.pc.ExitRead? && Free(s, p)
    case ExitLockParent => x.st == Running && x.pc.ExitParent? && Free(s, x.pc.op)
    case ExitLockSelf => x.st == Running && x.pc.ExitSelf? && Free(s, p)
    case ReparentScan => x.st == Running && x.pc.Reparent? && x.pc.i < |s.procs|
    case ReparentMove => x.st == Running && x.pc.ReparentLock? && Free(s, x.pc.i)
    case ExitFinish(_) => x.st == Running && x.pc.Reparent? && x.pc.i == |s.procs|
  }

  function Put(s: Sys, p: nat, x: Proc): Sys
    requires p < |s.procs|
  {
    s.(procs := s.procs[p := x])
  }

  function Lock(s: Sys, i: nat, p: int): Sys
    requires i < |s.lock|
  {
    s.(lock := s.lock[i := p])
  }

  // The scheduler picks p; a sleeper in wait comes back holding its lock and rescans.
  function DoDispatch(s: Sys, p: nat): Sys
    requires Shape(s) && p < |s.procs|
  {
    var x := s.procs[p].(st := Running, chan := NoChan);
    if x.pc.WaitSleep? then Lock(Put(s, p, x.(pc := Scan(0, false))), p, p) else Put(s, p, x)
  }

  function DoKill(s: Sys, j: nat): Sys
    requires Shape(s) && j < |s.procs|
  {
    var x := s.procs[j].(killed := true);
    Put(s, j, if x.st == Sleeping then x.(st := Runnable) else x)
  }

  function DoForkAlloc(s: Sys, p: nat, np: nat): Sys
    requires Shape(s) && p < |s.procs| && np < |s.procs|
  {
    var t := Put(s, np, s.procs[np].(pid := s.nextpid)).(nextpid := s.nextpid + 1);
    Lock(Put(t, p, t.procs[p].(pc := Forking(np))), np, p)
  }

  function DoForkEnd(s: Sys, p: nat, np: nat, child: Proc): Sys
    requires Shape(s) && p < |s.procs| && np < |s.procs|
  {
    var t := Put(s, np, child);
    Lock(Put(t, p, t.procs[p].(pc := User)), np, -1)
  }

  function DoWaitScan(s: Sys, p: nat, i: nat, kids: bool): Sys
    requires Shape(s) && p < |s.procs|
  {
    var x := s.procs[p];
    if i < |s.procs| then
      Put(s, p, x.(pc := if s.procs[i].parent == p then ScanLock(i, kids) else Scan(i + 1, kids)))
    else if !kids || x.killed then
      Lock(Put(s, p, x.(pc := User)), p, -1)
    else
      Put(s, p, x.(st := Sleeping, chan := Own, pc := WaitSleep))
  }

  function DoWaitCheck(s: Sys, p: nat, i: nat, copied: bool): Sys
    requires Shape(s) && p < |s.procs| && i < |s.procs|
  {
    var x, np := s.procs[p], s.procs[i];
    if np.st != Zombie then
      Lock(Put(s, p, x.(pc := Scan(i + 1, true))), i, -1)
    else if !copied then
      Lock(Lock(Put(s, p, x.(pc := User)), i, -1), p, -1)
    else
      var t := Put(s, i, FREED).(reaped := s.reaped + [Reap(np.pid, np.xstate)]);
      Lock(Lock(Put(t, p, t.procs[p].(pc := User)), i, -1), p, -1)
  }

  function DoReparentScan(s: Sys, p: nat, op: nat, i: nat): Sys
    requires Shape(s) && p < |s.procs| && i < |s.procs|
  {
    Put(s, p, s.procs[p].(pc := if s.procs[i].parent == p then ReparentLock(op, i) else Reparent(op, i + 1)))
  }

  function DoReparentMove(s: Sys, p: nat, op: nat, i: nat): Sys
    requires Shape(s) && p < |s.procs| && i < |s.procs|
  {
    var t := Put(s, i, s.procs[i].(parent := s.ini));
    Put(t, p, t.procs[p].(pc := Reparent(op, i + 1)))
  }

  function DoFinish(s: Sys, p: nat, op: nat, status: int): Sys
    requires Shape(s) && p < |s.procs| && op < |s.procs|
  {
    var t := Put(s, op, Wakeup1(s.procs[op])).(exited := s.exited[s.procs[p].pid := status]);
    Lock(Put(t, p, t.procs[p].(xstate := status, st := Zombie, pc := Dead)), op, -1)
  }

  // The indices a process holds in its pc are in the table.
  predicate PcShape(s: Sys, p: nat)
    requires p < |s.procs|
  {
    match s.procs[p].pc
    case Forking(np) => np < |s.procs|
    case Scan(i, _) => i <= |s.procs|
    case ScanLock(i, _) => i < |s.procs|
    case ScanHeld(i) => i < |s.procs|
    case ExitParent(op) => op < |s.procs|
    case ExitSelf(op) => op < |s.procs|
    case Reparent(op, i) => op < |s.procs| && i <= |s.procs|
    case ReparentLock(op, i) => op < |s.procs| && i < |s.procs|
    case _ => true
  }

  function Do(s: Sys, p: nat, a: Action): Sys
    requires Shape(s) && Enabled(s, p, a) && PcShape(s, p)
    requires a.ExitReadParent? ==> s.procs[p].parent >= 0
  {
    var x := s.procs[p];
    match a
    case Dispatch => DoDispatch(s, p)
    case Yield => Put(s, p, x.(st := Runnable))
    case SleepOther => Put(s, p, x.(st := Sleeping, chan := Other))
    case WakeOther(j) => Put(s, j, s.procs[j].(st := Runnable))
    case Kill(j) => DoKill(s, j)
    case ForkAlloc(np) => DoForkAlloc(s, p, np)
    case ForkFail(cleared) => DoForkEnd(s, p, x.pc.np, if cleared then FREED else s.procs[x.pc.np])
    case ForkDone =>
      DoForkEnd(s, p, x.pc.np, s.procs[x.pc.np].(parent := p, st := Runnable, born := p))
    case WaitBegin => Lock(Put(s, p, x.(pc := Scan(0, false))), p, p)
    case WaitScan => DoWaitScan(s, p, x.pc.i, x.pc.kids)
    case WaitLock => Lock(Put(s, p, x.(pc := ScanHeld(x.pc.i))), x.pc.i, p)
    case WaitCheck(copied) => DoWaitCheck(s, p, x.pc.i, copied)
    case SwitchOut => Lock(s, p, -1)
    case ExitBegin => Put(Put(s, s.ini, Wakeup1(s.procs[s.ini])), p, x.(pc := ExitRead))
    case ExitReadParent => Put(s, p, x.(pc := ExitParent(x.parent)))
    case ExitLockParent => Lock(Put(s, p, x.(pc := ExitSelf(x.pc.op))), x.pc.op, p)
    case ExitLockSelf => Lock(Put(s, p, x.(pc := Reparent(x.pc.op, 0))), p, p)
    case ReparentScan => DoReparentScan(s, p, x.pc.op, x.pc.i)
    case ReparentMove => DoReparentMove(s, p, x.pc.op, x.pc.i)
    case ExitFinish(status) => DoFinish(s, p, x.pc.op, status)
  }

  // ---- The invariant ----

  predicate Live(s: Sys, i: int) {
    0 <= i < |s.procs| && s.procs[i].st != Unused && s.procs[i].st != Zombie
  }

  // State, sleep channel and place in the kernel go together.
  predicate StateOk(s: Sys, p: nat)
    requires p < |s.procs|
  {
    var x := s.procs[p];
    && (x.st == Unused ==> x.pc.User?)
    && (x.st == Zombie <==> x.pc.Dead?)
    && (x.chan == Own <==> x.pc.WaitSleep?)
    && (x.pc.WaitSleep? ==> x.st == Sleeping || x.st == Runnable)
    && (x.st == Sleeping ==> (x.pc.WaitSleep? && x.chan == Own) || (x.pc.User? && x.chan == Other))
    && (x.st == Runnable ==> x.pc.User? || x.pc.ExitRead? || x.pc.ExitParent? || x.pc.WaitSleep?)
  }

  // The locks the code holds at each place.
  predicate LocksOk(s: Sys, p: nat)
    requires Shape(s) && p < |s.procs| && PcShape(s, p)
  {
    match s.procs[p].pc
    case Forking(np) => s.lock[np] == p && s.procs[np].st == Unused
    case Scan(_, _) => s.lock[p] == p
    case ScanLock(i, _) => s.lock[p] == p && i != p && s.procs[i].parent == p
    case ScanHeld(i) => s.lock[p] == p && s.lock[i] == p && i != p && s.procs[i].parent == p
    case ExitSelf(op) => s.lock[op] == p && op != p
    case Reparent(op, _) => s.lock[op] == p && s.lock[p] == p && op != p
    case ReparentLock(op, i) => s.lock[op] == p && s.lock[p] == p && op != p && i != p && s.procs[i].parent == p
    case _ => true
  }

  // Every process but init has a live parent: the one that forked it, or init.
  predicate ParentOk(s: Sys, p: nat)
    requires p < |s.procs|
  {
    var x := s.procs[p];
    if x.st == Unused then x.parent == -1
    else if p == s.ini then x.parent == -1 && x.st != Zombie
    else Live(s, x.parent) && x.parent != p && (x.parent == x.born || x.parent == s.ini)
  }

  // exit's original_parent is the parent, unless the process has been adopted since.
  predicate ExitOk(s: Sys, p: nat)
    requires p < |s.procs|
  {
    var x := s.procs[p];
    && (x.pc.ExitRead? || x.pc.ExitParent? || x.pc.ExitSelf? || x.pc.Reparent? || x.pc.ReparentLock? ==> p != s.ini)
    && (x.pc.ExitParent? || x.pc.ExitSelf? || x.pc.Reparent? || x.pc.ReparentLock? ==>
          && x.pc.op != p
          && (x.pc.op == x.parent || (x.parent == s.ini && x.born != s.ini)))
  }

  // A zombie child that p's scan up to i would have to have seen.
  predicate Missed(s: Sys, p: nat, i: nat, j: nat) {
    && j < i && j < |s.procs| && s.procs[j].st == Zombie && s.procs[j].parent == p
    && (p == s.ini ==> s.procs[j].born == p)
  }

  // How far p's last scan for zombies has got and still holds.
  function Seen(s: Sys, p: nat): nat
    requires p < |s.procs|
  {
    var x := s.procs[p];
    match x.pc
    case Scan(i, _) => i
    case ScanLock(i, _) => i
    case ScanHeld(i) => i
    case WaitSleep => if x.st == Sleeping then |s.procs| else 0
    case _ => 0
  }

  ghost predicate ScanOk(s: Sys, p: nat)
    requires p < |s.procs|
  {
    forall j: nat {:trigger Missed(s, p, Seen(s, p), j)} :: !Missed(s, p, Seen(s, p), j)
  }

  // How far reparent has got.
  function Moved(s: Sys, p: nat): nat
    requires p < |s.procs|
  {
    match s.procs[p].pc
    case Reparent(_, i) => i
    case ReparentLock(_, i) => i
    case _ => 0
  }

  // The children reparent has passed are gone.
  ghost predicate ReparentOk(s: Sys, p: nat)
    requires p < |s.procs|
  {
    forall j :: 0 <= j < Moved(s, p) && j < |s.procs| ==> s.procs[j].parent != p
  }

  predicate Local(s: Sys, p: nat)
    requires Shape(s) && p < |s.procs|
  {
    PcShape(s, p) && StateOk(s, p) && LocksOk(s, p) && ParentOk(s, p) && ExitOk(s, p)
  }

  ghost predicate ProcOk(s: Sys, p: nat)
    requires Shape(s) && p < |s.procs|
  {
    Local(s, p) && ScanOk(s, p) && ReparentOk(s, p)
  }

  ghost predicate Inv(s: Sys) {
    && Shape(s) && s.procs[s.ini].st != Unused
    && forall p: nat {:trigger ProcOk(s, p)} :: p < |s.procs| ==> ProcOk(s, p)
  }

  // The slot besides p's own that the step may change.
  function Target(s: Sys, p: nat, a: Action): nat
    requires Shape(s) && Enabled(s, p, a)
  {
    var x := s.procs[p];
    match a
    case WakeOther(j) => j
    case Kill(j) => j
    case ForkAlloc(np) => np
    case ForkFail(_) => x.pc.np
    case ForkDone => x.pc.np
    case WaitCheck(_) => x.pc.i
    case ExitBegin => s.ini
    case ReparentMove => x.pc.i
    case ExitFinish(_) => x.pc.op
    case _ => p
  }

  predicate CanStep(s: Sys, p: nat, a: Action) {
    && Shape(s) && Enabled(s, p, a) && PcShape(s, p)
    && (a.ExitReadParent? ==> s.procs[p].parent >= 0)
  }

  // Only the slots p and j change, and only locks that were p's or nobody's; a parent
  // pointer changes only by the parent's own hand.
  ghost predicate Effect(s: Sys, t: Sys, p: nat, j: nat) {
    && Shape(s) && Shape(t) && |t.procs| == |s.procs| && t.ini == s.ini && p < |s.procs| && j < |s.procs|
    && (forall l :: 0 <= l < |t.lock| && t.lock[l] != s.lock[l] ==> s.lock[l] == -1 || s.lock[l] == p)
    && (forall k :: 0 <= k < |t.procs| && k != p && k != j ==> t.procs[k] == s.procs[k])
    && s.procs[p].st != Unused && t.procs[p].parent == s.procs[p].parent
    && (t.procs[j].parent != s.procs[j].parent ==> s.procs[j].parent == p || s.procs[j].parent == -1)
    && (s.procs[j].st == Unused && t.procs[j].st != Unused ==> s.lock[j] == -1 || s.lock[j] == p)
  }

  // How slot x, not init's, may come out of a step of p as y.
  predicate Slot(p: nat, ini: nat, forks: bool, x: Proc, y: Proc) {
    || (y.parent == x.parent && y.born == x.born
        && ((x.st == Unused) <==> (y.st == Unused)) && (y.st == Zombie ==> x.st == Zombie))
    || (x.st == Zombie && x.parent == p && y == FREED)                                 // reaped
    || (x.st == Unused && y.st == Unused && y.parent == -1)
    || (forks && x.st == Unused && y.st == Runnable && y.parent == p && y.born == p)  // forked
    || (x.parent == p && y == x.(parent := ini))                                       // adopted
  }

  // A slot other than the actor's: it goes nowhere, or is emptied.
  predicate Still(x: Proc, y: Proc) {
    (y.pc == x.pc && (y.st == Sleeping ==> x.st == Sleeping)) || y.pc.User?
  }

  // The actor's scans move one slot at a time, past what they were looking for.
  predicate Advance(s: Sys, t: Sys, p: nat)
    requires p < |s.procs| && |t.procs| == |s.procs|
  {
    ScanMoves(s, t, p, Seen(s, p), Seen(t, p)) && ReparentMoves(t, p, Moved(s, p), Moved(t, p))
  }

  predicate ScanMoves(s: Sys, t: Sys, p: nat, i: nat, i': nat) {
    i' <= i || (i' == i + 1 && i < |s.procs| && !(s.procs[i].st == Zombie && s.procs[i].parent == p))
  }

  predicate ReparentMoves(t: Sys, p: nat, i: nat, i': nat) {
    i' <= i || (i' == i + 1 && i < |t.procs| && t.procs[i].parent != p)
  }

  // All of the local invariant but the parent.
  predicate Placed(s: Sys, p: nat)
    requires Shape(s) && p < |s.procs|
  {
    PcShape(s, p) && StateOk(s, p) && LocksOk(s, p) && ExitOk(s, p)
  }

  // A process that does nothing in a step keeps its locks.
  lemma StillLocks(s: Sys, t: Sys, p: nat, j: nat, q: nat)
    requires Effect(s, t, p, j) && q < |s.procs| && q != p && PcShape(s, q) && LocksOk(s, q)
    requires t.procs[q].pc == s.procs[q].pc || t.procs[q].pc.User?
    ensures PcShape(t, q) && LocksOk(t, q)
  {
  }

  predicate Sched(a: Action) {
    a.Dispatch? || a.Yield? || a.SleepOther?
  }

  predicate Wakes(a: Action) {
    a.WakeOther?
  }

  predicate Kills(a: Action) {
    a.Kill?
  }

  predicate Fork(a: Action) {
    a.ForkAlloc? || a.ForkFail? || a.ForkDone?
  }

  predicate Wait(a: Action) {
    a.WaitBegin? || a.WaitLock? || a.SwitchOut?
  }

  predicate Scans(a: Action) {
    a.WaitScan?
  }

  predicate Check(a: Action) {
    a.WaitCheck?
  }

  predicate Exit(a: Action) {
    a.ExitBegin? || a.ExitReadParent? || a.ExitLockParent? || a.ExitLockSelf?
  }

  predicate Reparents(a: Action) {
    a.ReparentScan? || a.ReparentMove?
  }

  predicate Finish(a: Action) {
    a.ExitFinish?
  }

  lemma SchedEffect(s: Sys, p: nat, a: Action)
    requires CanStep(s, p, a) && LocksOk(s, p) && StateOk(s, p) && Sched(a)
    requires Target(s, p, a) < |s.procs| && ParentOk(s, Target(s, p, a))
    ensures Effect(s, Do(s, p, a), p, Target(s, p, a))
  {
  }

  lemma SchedActor(s: Sys, p: nat, a: Action)
    requires CanStep(s, p, a) && Placed(s, p) && ParentOk(s, p) && Sched(a)
    ensures var t := Do(s, p, a);
      && Shape(t) && |t.procs| == |s.procs| && Placed(t, p)
      && Slot(p, s.ini, a.ForkDone?, s.procs[p], t.procs[p]) && Advance(s, t, p)
  {
  }

  lemma WakeEffect(s: Sys, p: nat, a: Action)
    requires CanStep(s, p, a) && LocksOk(s, p) && StateOk(s, p) && Wakes(a)
    requires Target(s, p, a) < |s.procs| && ParentOk(s, Target(s, p, a))
    ensures Effect(s, Do(s, p, a), p, Target(s, p, a))
  {
  }

  lemma WakeActor(s: Sys, p: nat, a: Action)
    requires CanStep(s, p, a) && Placed(s, p) && ParentOk(s, p) && Wakes(a)
    ensures var t := Do(s, p, a);
      && Shape(t) && |t.procs| == |s.procs| && Placed(t, p)
      && Slot(p, s.ini, a.ForkDone?, s.procs[p], t.procs[p]) && Advance(s, t, p)
  {
  }

  lemma WakeTarget(s: Sys, p: nat, a: Action, j: nat)
    requires CanStep(s, p, a) && Placed(s, p) && Wakes(a) && j == Target(s, p, a) && j != p
    requires j < |s.procs| && Placed(s, j) && ParentOk(s, j) && ParentOk(s, p)
    ensures var t := Do(s, p, a);
      Shape(t) && j < |t.procs| && StateOk(t, j) && ExitOk(t, j)
      && Slot(p, s.ini, a.ForkDone?, s.procs[j], t.procs[j]) && Still(s.procs[j], t.procs[j])
  {
  }

  lemma KillEffect(s: Sys, p: nat, a: Action)
    requires CanStep(s, p, a) && LocksOk(s, p) && StateOk(s, p) && Kills(a)
    requires Target(s, p, a) < |s.procs| && ParentOk(s, Target(s, p, a))
    ensures Effect(s, Do(s, p, a), p, Target(s, p, a))
  {
  }

  lemma KillActor(s: Sys, p: nat, a: Action)
    requires CanStep(s, p, a) && Placed(s, p) && ParentOk(s, p) && Kills(a)
    ensures var t := Do(s, p, a);
      && Shape(t) && |t.procs| == |s.procs| && Placed(t, p)
      && Slot(p, s.ini, a.ForkDone?, s.procs[p], t.procs[p]) && Advance(s, t, p)
  {
  }

  lemma KillTarget(s: Sys, p: nat, a: Action, j: nat)
    requires CanStep(s, p, a) && Placed(s, p) && Kills(a) && j == Target(s, p, a) && j != p
    requires j < |s.procs| && Placed(s, j) && ParentOk(s, j) && ParentOk(s, p)
    ensures var t := Do(s, p, a);
      Shape(t) && j < |t.procs| && StateOk(t, j) && ExitOk(t, j)
      && Slot(p, s.ini, a.ForkDone?, s.procs[j], t.procs[j]) && Still(s.procs[j], t.procs[j])
  {
  }

  lemma ForkEffect(s: Sys, p: nat, a: Action)
    requires CanStep(s, p, a) && LocksOk(s, p) && StateOk(s, p) && Fork(a)
    requires Target(s, p, a) < |s.procs| && ParentOk(s, Target(s, p, a))
    ensures Effect(s, Do(s, p, a), p, Target(s, p, a))
  {
  }

  lemma ForkActor(s: Sys, p: nat, a: Action)
    requires CanStep(s, p, a) && Placed(s, p) && ParentOk(s, p) && Fork(a)
    ensures var t := Do(s, p, a);
      && Shape(t) && |t.procs| == |s.procs| && Placed(t, p)
      && Slot(p, s.ini, a.ForkDone?, s.procs[p], t.procs[p]) && Advance(s, t, p)
  {
  }

  lemma ForkTarget(s: Sys, p: nat, a: Action, j: nat)
    requires CanStep(s, p, a) && Placed(s, p) && Fork(a) && j == Target(s, p, a) && j != p
    requires j < |s.procs| && Placed(s, j) && ParentOk(s, j) && ParentOk(s, p)
    ensures var t := Do(s, p, a);
      Shape(t) && j < |t.procs| && StateOk(t, j) && ExitOk(t, j)
      && Slot(p, s.ini, a.ForkDone?, s.procs[j], t.procs[j]) && Still(s.procs[j], t.procs[j])
  {
  }

  lemma WaitEffect(s: Sys, p: nat, a: Action)
    requires CanStep(s, p, a) && LocksOk(s, p) && StateOk(s, p) && Wait(a)
    requires Target(s, p, a) < |s.procs| && ParentOk(s, Target(s, p, a))
    ensures Effect(s, Do(s, p, a), p, Target(s, p, a))
  {
  }

  lemma WaitActor(s: Sys, p: nat, a: Action)
    requires CanStep(s, p, a) && Placed(s, p) && ParentOk(s, p) && Wait(a)
    ensures var t := Do(s, p, a);
      && Shape(t) && |t.procs| == |s.procs| && Placed(t, p)
      && Slot(p, s.ini, a.ForkDone?, s.procs[p], t.procs[p]) && Advance(s, t, p)
  {
  }

  lemma ScanEffect(s: Sys, p: nat, a: Action)
    requires CanStep(s, p, a) && LocksOk(s, p) && StateOk(s, p) && Scans(a)
    requires Target(s, p, a) < |s.procs| && ParentOk(s, Target(s, p, a))
    ensures Effect(s, Do(s, p, a), p, Target(s, p, a))
  {
  }

  lemma ScanPlaced(s: Sys, p: nat, a: Action)
    requires CanStep(s, p, a) && Placed(s, p) && ParentOk(s, p) && Scans(a)
    ensures var t := Do(s, p, a); Shape(t) && p < |t.procs| && Placed(t, p)
  {
  }

  lemma ScanActor(s: Sys, p: nat, a: Action)
    requires CanStep(s, p, a) && Placed(s, p) && ParentOk(s, p) && Scans(a)
    ensures var t := Do(s, p, a);
      && Shape(t) && |t.procs| == |s.procs| && Placed(t, p)
      && Slot(p, s.ini, a.ForkDone?, s.procs[p], t.procs[p]) && Advance(s, t, p)
  {
    ScanPlaced(s, p, a);
  }

  lemma CheckEffect(s: Sys, p: nat, a: Action)
    requires CanStep(s, p, a) && LocksOk(s, p) && StateOk(s, p) && Check(a)
    requires Target(s, p, a) < |s.procs| && ParentOk(s, Target(s, p, a))
    ensures Effect(s, Do(s, p, a), p, Target(s, p, a))
  {
  }

  lemma CheckPlaced(s: Sys, p: nat, a: Action)
    requires CanStep(s, p, a) && Placed(s, p) && ParentOk(s, p) && Check(a)
    ensures var t := Do(s, p, a); Shape(t) && p < |t.procs| && Placed(t, p)
  {
  }

  lemma CheckActor(s: Sys, p: nat, a: Action)
    requires CanStep(s, p, a) && Placed(s, p) && ParentOk(s, p) && Check(a)
    ensures var t := Do(s, p, a);
      && Shape(t) && |t.procs| == |s.procs| && Placed(t, p)
      && Slot(p, s.ini, a.ForkDone?, s.procs[p], t.procs[p]) && Advance(s, t, p)
  {
    CheckPlaced(s, p, a);
  }

  lemma CheckTarget(s: Sys, p: nat, a: Action, j: nat)
    requires CanStep(s, p, a) && Placed(s, p) && Check(a) && j == Target(s, p, a) && j != p
    requires j < |s.procs| && Placed(s, j) && ParentOk(s, j) && ParentOk(s, p)
    ensures var t := Do(s, p, a);
      Shape(t) && j < |t.procs| && StateOk(t, j) && ExitOk(t, j)
      && Slot(p, s.ini, a.ForkDone?, s.procs[j], t.procs[j]) && Still(s.procs[j], t.procs[j])
  {
  }

  lemma ExitEffect(s: Sys, p: nat, a: Action)
    requires CanStep(s, p, a) && LocksOk(s, p) && StateOk(s, p) && Exit(a)
    requires Target(s, p, a) < |s.procs| && ParentOk(s, Target(s, p, a))
    ensures Effect(s, Do(s, p, a), p, Target(s, p, a))
  {
  }

  lemma ExitActor(s: Sys, p: nat, a: Action)
    requires CanStep(s, p, a) && Placed(s, p) && ParentOk(s, p) && Exit(a)
    ensures var t := Do(s, p, a);
      && Shape(t) && |t.procs| == |s.procs| && Placed(t, p)
      && Slot(p, s.ini, a.ForkDone?, s.procs[p], t.procs[p]) && Advance(s, t, p)
  {
  }

  lemma ExitTarget(s: Sys, p: nat, a: Action, j: nat)
    requires CanStep(s, p, a) && Placed(s, p) && Exit(a) && j == Target(s, p, a) && j != p
    requires j < |s.procs| && Placed(s, j) && ParentOk(s, j) && ParentOk(s, p)
    ensures var t := Do(s, p, a);
      Shape(t) && j < |t.procs| && StateOk(t, j) && ExitOk(t, j)
      && Slot(p, s.ini, a.ForkDone?, s.procs[j], t.procs[j]) && Still(s.procs[j], t.procs[j])
  {
  }

  lemma ReparentEffect(s: Sys, p: nat, a: Action)
    requires CanStep(s, p, a) && LocksOk(s, p) && StateOk(s, p) && Reparents(a)
    requires Target(s, p, a) < |s.procs| && ParentOk(s, Target(s, p, a))
    ensures Effect(s, Do(s, p, a), p, Target(s, p, a))
  {
  }

  lemma ReparentActor(s: Sys, p: nat, a: Action)
    requires CanStep(s, p, a) && Placed(s, p) && ParentOk(s, p) && Reparents(a)
    ensures var t := Do(s, p, a);
      && Shape(t) && |t.procs| == |s.procs| && Placed(t, p)
      && Slot(p, s.ini, a.ForkDone?, s.procs[p], t.procs[p]) && Advance(s, t, p)
  {
  }

  lemma ReparentTarget(s: Sys, p: nat, a: Action, j: nat)
    requires CanStep(s, p, a) && Placed(s, p) && Reparents(a) && j == Target(s, p, a) && j != p
    requires j < |s.procs| && Placed(s, j) && ParentOk(s, j) && ParentOk(s, p)
    ensures var t := Do(s, p, a);
      Shape(t) && j < |t.procs| && StateOk(t, j) && ExitOk(t, j)
      && Slot(p, s.ini, a.ForkDone?, s.procs[j], t.procs[j]) && Still(s.procs[j], t.procs[j])
  {
  }

  lemma FinishEffect(s: Sys, p: nat, a: Action)
    requires CanStep(s, p, a) && LocksOk(s, p) && StateOk(s, p) && Finish(a)
    requires Target(s, p, a) < |s.procs| && ParentOk(s, Target(s, p, a))
    ensures Effect(s, Do(s, p, a), p, Target(s, p, a))
  {
  }

  lemma FinishActor(s: Sys, p: nat, a: Action)
    requires CanStep(s, p, a) && Placed(s, p) && ParentOk(s, p) && Finish(a)
    ensures var t := Do(s, p, a);
      Shape(t) && |t.procs| == |s.procs| && Placed(t, p) && Advance(s, t, p)
  {
  }

  lemma FinishTarget(s: Sys, p: nat, a: Action, j: nat)
    requires CanStep(s, p, a) && Placed(s, p) && Finish(a) && j == Target(s, p, a) && j != p
    requires j < |s.procs| && Placed(s, j) && ParentOk(s, j) && ParentOk(s, p)
    ensures var t := Do(s, p, a);
      Shape(t) && j < |t.procs| && StateOk(t, j) && ExitOk(t, j)
      && Slot(p, s.ini, a.ForkDone?, s.procs[j], t.procs[j]) && Still(s.procs[j], t.procs[j])
  {
  }

  // ---- All steps together ----

  predicate Ready(s: Sys, p: nat, a: Action) {
    && CanStep(s, p, a) && Local(s, p)
    && Target(s, p, a) < |s.procs| && Local(s, Target(s, p, a))
  }

  lemma StepEffect(s: Sys, p: nat, a: Action)
    requires Ready(s, p, a)
    ensures Effect(s, Do(s, p, a), p, Target(s, p, a))
  {
    if Sched(a) { SchedEffect(s, p, a); }
    else if Wakes(a) { WakeEffect(s, p, a); }
    else if Kills(a) { KillEffect(s, p, a); }
    else if Fork(a) { ForkEffect(s, p, a); }
    else if Wait(a) { WaitEffect(s, p, a); }
    else if Scans(a) { ScanEffect(s, p, a); }
    else if Check(a) { CheckEffect(s, p, a); }
    else if Exit(a) { ExitEffect(s, p, a); }
    else if Reparents(a) { ReparentEffect(s, p, a); }
    else { FinishEffect(s, p, a); }
  }

  lemma StepActor(s: Sys, p: nat, a: Action)
    requires Ready(s, p, a)
    ensures var t := Do(s, p, a);
      Shape(t) && |t.procs| == |s.procs| && Placed(t, p) && Advance(s, t, p)
    ensures !a.ExitFinish? ==> Slot(p, s.ini, a.ForkDone?, s.procs[p], Do(s, p, a).procs[p])
  {
    if Sched(a) { SchedActor(s, p, a); }
    else if Wakes(a) { WakeActor(s, p, a); }
    else if Kills(a) { KillActor(s, p, a); }
    else if Fork(a) { ForkActor(s, p, a); }
    else if Wait(a) { WaitActor(s, p, a); }
    else if Scans(a) { ScanActor(s, p, a); }
    else if Check(a) { CheckActor(s, p, a); }
    else if Exit(a) { ExitActor(s, p, a); }
    else if Reparents(a) { ReparentActor(s, p, a); }
    else { FinishActor(s, p, a); }
  }

  lemma StepTarget(s: Sys, p: nat, a: Action, j: nat)
    requires Ready(s, p, a) && j == Target(s, p, a) && j != p
    ensures var t := Do(s, p, a);
      Shape(t) && j < |t.procs| && StateOk(t, j) && ExitOk(t, j)
      && Slot(p, s.ini, a.ForkDone?, s.procs[j], t.procs[j]) && Still(s.procs[j], t.procs[j])
  {
    if Wakes(a) { WakeTarget(s, p, a, j); }
    else if Kills(a) { KillTarget(s, p, a, j); }
    else if Fork(a) { ForkTarget(s, p, a, j); }
    else if Check(a) { CheckTarget(s, p, a, j); }
    else if Exit(a) { ExitTarget(s, p, a, j); }
    else if Reparents(a) { ReparentTarget(s, p, a, j); }
    else if Finish(a) { FinishTarget(s, p, a, j); }
  }

  // ---- Preservation ----

  lemma InvReady(s: Sys, p: nat, a: Action)
    requires Inv(s) && Enabled(s, p, a)
    ensures Ready(s, p, a)
  {
    assert ProcOk(s, p);
    assert Target(s, p, a) < |s.procs|;
    assert ProcOk(s, Target(s, p, a));
  }

  lemma StepPlaced(s: Sys, p: nat, a: Action, q: nat)
    requires Ready(s, p, a) && q < |s.procs| && Local(s, q)
    ensures var t := Do(s, p, a); Shape(t) && q < |t.procs| && Placed(t, q)
  {
    var j := Target(s, p, a);
    StepEffect(s, p, a);
    if q == p { StepActor(s, p, a); }
    else {
      if q == j { StepTarget(s, p, a, j); }
      StillLocks(s, Do(s, p, a), p, j, q);
    }
  }

  // What becomes of any slot.
  lemma StepSlot(s: Sys, p: nat, a: Action, q: nat)
    requires Ready(s, p, a) && q < |s.procs| && Local(s, q) && !(a.ExitFinish? && q == p)
    ensures var t := Do(s, p, a);
      |t.procs| == |s.procs| && t.ini == s.ini && Slot(p, s.ini, a.ForkDone?, s.procs[q], t.procs[q])
    ensures q != p ==> Still(s.procs[q], Do(s, p, a).procs[q])
  {
    var j := Target(s, p, a);
    StepEffect(s, p, a);
    if q == p { StepActor(s, p, a); } else if q == j { StepTarget(s, p, a, j); }
  }

  lemma LiveKept(s: Sys, p: nat, a: Action, k: int)
    requires Inv(s) && Enabled(s, p, a) && Live(s, k) && !(a.ExitFinish? && k == p)
    ensures Ready(s, p, a) && Live(Do(s, p, a), k)
  {
    InvReady(s, p, a);
    assert ProcOk(s, k);
    StepSlot(s, p, a, k);
  }

  lemma FinishSlot(s: Sys, p: nat, a: Action)
    requires Ready(s, p, a) && a.ExitFinish?
    ensures var x, t := s.procs[p], Do(s, p, a);
      && x.pc.Reparent? && x.pc.i == |s.procs| && x.pc.op != p && p != s.ini && x.st == Running
      && |t.procs| == |s.procs| && t.procs[p] == x.(xstate := a.status, st := Zombie, pc := Dead)
      && t.procs[x.pc.op] == Wakeup1(s.procs[x.pc.op]) && s.lock[x.pc.op] == p
  {
  }

  // An exiting process has given all its children away.
  lemma NoChildren(s: Sys, p: nat, a: Action, q: nat)
    requires Inv(s) && Enabled(s, p, a) && a.ExitFinish? && q < |s.procs|
    ensures s.procs[q].parent != p
  {
    assert ProcOk(s, p);
    assert ReparentOk(s, p);
  }

  // A slot that changed as Slot says, its parents still being live, keeps its parent.
  lemma ParentFrom(s: Sys, t: Sys, p: nat, a: Action, q: nat)
    requires |t.procs| == |s.procs| && t.ini == s.ini && p < |s.procs| && q < |s.procs| && ParentOk(s, q)
    requires s.ini < |s.procs| && s.procs[s.ini].parent == -1 && Live(s, s.ini) && Live(t, s.ini)
    requires Slot(p, s.ini, a.ForkDone?, s.procs[q], t.procs[q])
    requires Live(s, s.procs[q].parent) ==> Live(t, s.procs[q].parent)
    requires s.procs[q].st == Unused && t.procs[q].st != Unused ==> Live(t, p) && p != q
    ensures ParentOk(t, q)
  {
  }

  lemma StepParent(s: Sys, p: nat, a: Action, q: nat)
    requires Inv(s) && Enabled(s, p, a) && q < |s.procs| && !a.ExitFinish?
    ensures Ready(s, p, a) && q < |Do(s, p, a).procs| && ParentOk(Do(s, p, a), q)
  {
    InvReady(s, p, a);
    assert ProcOk(s, p) && ProcOk(s, q) && ProcOk(s, s.ini);
    StepSlot(s, p, a, q);
    LiveKept(s, p, a, s.ini);
    if Live(s, s.procs[q].parent) { LiveKept(s, p, a, s.procs[q].parent); }
    if Live(s, p) { LiveKept(s, p, a, p); }
    ParentFrom(s, Do(s, p, a), p, a, q);
  }

  lemma FinishParent(s: Sys, p: nat, a: Action, q: nat)
    requires Inv(s) && Enabled(s, p, a) && q < |s.procs| && a.ExitFinish?
    ensures Ready(s, p, a) && q < |Do(s, p, a).procs| && ParentOk(Do(s, p, a), q)
  {
    InvReady(s, p, a);
    assert ProcOk(s, p) && ProcOk(s, q) && ProcOk(s, s.ini);
    FinishSlot(s, p, a);
    NoChildren(s, p, a, q);
    LiveKept(s, p, a, s.ini);
    if Live(s, s.procs[q].parent) { LiveKept(s, p, a, s.procs[q].parent); }
    if q != p {
      StepSlot(s, p, a, q);
      ParentFrom(s, Do(s, p, a), p, a, q);
    }
  }

  // ---- No wakeup is lost ----

  lemma SeenStill(x: Proc, y: Proc, s: Sys, t: Sys, q: nat)
    requires q < |s.procs| && |t.procs| == |s.procs| && x == s.procs[q] && y == t.procs[q] && Still(x, y)
    ensures Seen(t, q) <= Seen(s, q) && (Moved(t, q) == Moved(s, q) || Moved(t, q) == 0)
  {
  }

  // Anything but an exit makes no zombie and leaves none to the wrong parent.
  lemma ScanKept(s: Sys, t: Sys, p: nat, a: Action, q: nat, k: nat)
    requires |t.procs| == |s.procs| && t.ini == s.ini && p < |s.procs| && q < |s.procs| && k < |s.procs|
    requires ScanOk(s, q) && Slot(p, s.ini, a.ForkDone?, s.procs[k], t.procs[k]) && ParentOk(s, k)
    requires if q == p then ScanMoves(s, t, p, Seen(s, p), Seen(t, p)) else Seen(t, q) <= Seen(s, q)
    requires s.ini < |s.procs| && s.procs[s.ini].parent == -1 && s.procs[s.ini].st != Unused
    ensures !Missed(t, q, Seen(t, q), k)
  {
    assert !Missed(s, q, Seen(s, q), k);
  }

  lemma StepScan(s: Sys, p: nat, a: Action, q: nat)
    requires Inv(s) && Enabled(s, p, a) && q < |s.procs| && !a.ExitFinish?
    ensures Ready(s, p, a) && q < |Do(s, p, a).procs| && ScanOk(Do(s, p, a), q)
  {
    InvReady(s, p, a);
    assert ProcOk(s, q) && ProcOk(s, s.ini);
    var t := Do(s, p, a);
    StepActor(s, p, a);
    StepSlot(s, p, a, q);
    if q != p { SeenStill(s.procs[q], t.procs[q], s, t, q); }
    forall k: nat | k < |s.procs| ensures !Missed(t, q, Seen(t, q), k) {
      assert ProcOk(s, k);
      StepSlot(s, p, a, k);
      ScanKept(s, t, p, a, q, k);
    }
  }

  // p exits: its parent, unless it is init and adopted p meanwhile, is not scanning and not
  // asleep in wait, so it has missed nothing.
  lemma FinishWakes(s: Sys, p: nat, a: Action, q: nat)
    requires Inv(s) && Enabled(s, p, a) && a.ExitFinish? && q < |s.procs| && Ready(s, p, a)
    ensures q < |Do(s, p, a).procs| && !Missed(Do(s, p, a), q, Seen(Do(s, p, a), q), p)
    ensures s.procs[p].parent == q && (q == s.ini ==> s.procs[p].born == q) ==> Seen(Do(s, p, a), q) == 0
  {
    FinishSlot(s, p, a);
    assert ProcOk(s, q) && ProcOk(s, p);
    var op := s.procs[p].pc.op;
    if s.procs[p].parent == q && (q == s.ini ==> s.procs[p].born == q) {
      assert q == op;
      assert s.lock[q] == p != q;
    }
  }

  lemma FinishScan(s: Sys, p: nat, a: Action, q: nat)
    requires Inv(s) && Enabled(s, p, a) && q < |s.procs| && a.ExitFinish?
    ensures Ready(s, p, a) && q < |Do(s, p, a).procs| && ScanOk(Do(s, p, a), q)
  {
    InvReady(s, p, a);
    assert ProcOk(s, q) && ProcOk(s, s.ini);
    var t := Do(s, p, a);
    StepActor(s, p, a);
    FinishWakes(s, p, a, q);
    if q != p {
      StepSlot(s, p, a, q);
      SeenStill(s.procs[q], t.procs[q], s, t, q);
    }
    forall k: nat | k < |s.procs| && k != p ensures !Missed(t, q, Seen(t, q), k) {
      assert ProcOk(s, k);
      StepSlot(s, p, a, k);
      ScanKept(s, t, p, a, q, k);
    }
  }

  lemma ReparentKept(s: Sys, t: Sys, p: nat, a: Action, q: nat, k: nat)
    requires |t.procs| == |s.procs| && t.ini == s.ini && p < |s.procs| && q < |s.procs| && k < |s.procs|
    requires ReparentOk(s, q) && k < Moved(t, q) && q != s.ini && (a.ForkDone? ==> q != p)
    requires t.procs[k].parent == s.procs[k].parent || Slot(p, s.ini, a.ForkDone?, s.procs[k], t.procs[k])
    requires if q == p then ReparentMoves(t, p, Moved(s, p), Moved(t, p)) else Moved(t, q) <= Moved(s, q)
    ensures t.procs[k].parent != q
  {
  }

  lemma StepReparent(s: Sys, p: nat, a: Action, q: nat)
    requires Inv(s) && Enabled(s, p, a) && q < |s.procs|
    ensures Ready(s, p, a) && q < |Do(s, p, a).procs| && ReparentOk(Do(s, p, a), q)
  {
    InvReady(s, p, a);
    assert ProcOk(s, q);
    var t := Do(s, p, a);
    StepActor(s, p, a);
    StepEffect(s, p, a);
    StepPlaced(s, p, a, q);
    if q != p {
      StepSlot(s, p, a, q);
      SeenStill(s.procs[q], t.procs[q], s, t, q);
    }
    assert a.ForkDone? && q == p ==> Moved(t, q) == 0;
    forall k: nat | k < Moved(t, q) && k < |s.procs| ensures t.procs[k].parent != q {
      assert ProcOk(s, k);
      if k != p { StepSlot(s, p, a, k); }
      ReparentKept(s, t, p, a, q, k);
    }
  }

  /** Every step of every process keeps the invariant. */
  lemma StepInv(s: Sys, p: nat, a: Action)
    requires Inv(s) && Enabled(s, p, a)
    ensures Ready(s, p, a) && Inv(Do(s, p, a))
  {
    InvReady(s, p, a);
    var t := Do(s, p, a);
    assert ProcOk(s, s.ini) && ProcOk(s, p);
    LiveKept(s, p, a, s.ini);
    StepEffect(s, p, a);
    forall q: nat | q < |t.procs| ensures ProcOk(t, q) {
      assert ProcOk(s, q);
      StepPlaced(s, p, a, q);
      StepReparent(s, p, a, q);
      if a.ExitFinish? {
        FinishParent(s, p, a, q);
        FinishScan(s, p, a, q);
      } else {
        StepParent(s, p, a, q);
        StepScan(s, p, a, q);
      }
    }
  }
}
