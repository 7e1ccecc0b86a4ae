/** The process locks of kernel/proc.c: a lock is held only at a place of the code that holds it,
    and fork, wait and exit never deadlock unless a process in exit has locked a parent that is
    no longer its own. */
module ProcLocks {
  import opened ProcWait
  import opened ProcReap
  import opened WaitKids

  // ---- Who holds what ----

  // The code holds slot l's lock where q is.
  predicate Holds(s: Sys, q: nat, l: nat)
    requires q < |s.procs|
  {
    match s.procs[q].pc
    case Forking(np) => l == np
    case Scan(_, _) => l == q
    case ScanLock(_, _) => l == q
    case ScanHeld(i) => l == q || l == i
    case WaitSleep => l == q
    case ExitSelf(op) => l == op
    case Reparent(op, _) => l == op || l == q
    case ReparentLock(op, _) => l == op || l == q
    case Dead => l == q
    case _ => false
  }

  predicate HeldOk(s: Sys, l: nat)
    requires l < |s.lock|
  {
    s.lock[l] != -1 ==> 0 <= s.lock[l] < |s.procs| && Holds(s, s.lock[l], l)
  }

  ghost predicate Held(s: Sys) {
    forall l: nat {:trigger HeldOk(s, l)} :: l < |s.lock| ==> HeldOk(s, l)
  }

  // A step takes locks for its actor, or gives them back.
  lemma LockMoves(s: Sys, p: nat, a: Action, l: nat)
    requires CanStep(s, p, a) && l < |s.lock|
    ensures var t := Do(s, p, a);
      && |t.lock| == |s.lock| && |t.procs| == |s.procs|
      && (t.lock[l] == s.lock[l] || t.lock[l] == p || t.lock[l] == -1)
  {
  }

  predicate Waiter(a: Action) { Wait(a) || Scans(a) }

  predicate Leaver(a: Action) { Reparents(a) || Finish(a) }

  lemma CheckHeld(s: Sys, p: nat, a: Action, l: nat)
    requires CanStep(s, p, a) && Local(s, p) && l < |s.lock| == |s.procs| && HeldOk(s, l) && Check(a)
    requires l < |Do(s, p, a).lock| && |Do(s, p, a).procs| == |s.procs| && Do(s, p, a).lock[l] == p
    ensures HeldOk(Do(s, p, a), l)
  {
  }

  lemma WaiterHeld(s: Sys, p: nat, a: Action, l: nat)
    requires CanStep(s, p, a) && Local(s, p) && l < |s.lock| == |s.procs| && HeldOk(s, l) && Waiter(a)
    requires l < |Do(s, p, a).lock| && |Do(s, p, a).procs| == |s.procs| && Do(s, p, a).lock[l] == p
    ensures HeldOk(Do(s, p, a), l)
  {
  }

  lemma LeaverHeld(s: Sys, p: nat, a: Action, l: nat)
    requires CanStep(s, p, a) && Local(s, p) && l < |s.lock| == |s.procs| && HeldOk(s, l) && Leaver(a)
    requires l < |Do(s, p, a).lock| && |Do(s, p, a).procs| == |s.procs| && Do(s, p, a).lock[l] == p
    ensures HeldOk(Do(s, p, a), l)
  {
  }

  lemma ForkHeld(s: Sys, p: nat, a: Action, l: nat)
    requires CanStep(s, p, a) && Local(s, p) && l < |s.lock| == |s.procs| && HeldOk(s, l) && Fork(a)
    requires l < |Do(s, p, a).lock| && |Do(s, p, a).procs| == |s.procs| && Do(s, p, a).lock[l] == p
    ensures HeldOk(Do(s, p, a), l)
  {
  }

  lemma RestHeld(s: Sys, p: nat, a: Action, l: nat)
    requires CanStep(s, p, a) && Local(s, p) && l < |s.lock| == |s.procs| && HeldOk(s, l)
    requires !Waiter(a) && !Leaver(a) && !Check(a) && !Fork(a)
    requires l < |Do(s, p, a).lock| && |Do(s, p, a).procs| == |s.procs| && Do(s, p, a).lock[l] == p
    ensures HeldOk(Do(s, p, a), l)
  {
  }

  lemma OwnHeld(s: Sys, p: nat, a: Action, l: nat)
    requires CanStep(s, p, a) && Local(s, p) && l < |s.lock| == |s.procs| && HeldOk(s, l)
    requires l < |Do(s, p, a).lock| && |Do(s, p, a).procs| == |s.procs| && Do(s, p, a).lock[l] == p
    ensures HeldOk(Do(s, p, a), l)
  {
    hide Do, Local, Holds;
    if Waiter(a) { WaiterHeld(s, p, a, l); }
    else if Check(a) { CheckHeld(s, p, a, l); }
    else if Leaver(a) { LeaverHeld(s, p, a, l); }
    else if Fork(a) { ForkHeld(s, p, a, l); }
    else { RestHeld(s, p, a, l); }
  }

  // Another holder stays where it is: only a zombie that has let go of its lock is freed.
  lemma OtherHeld(s: Sys, p: nat, a: Action, l: nat)
    requires Inv(s) && Enabled(s, p, a) && Ready(s, p, a) && l < |s.lock| && HeldOk(s, l)
    requires s.lock[l] != p && s.lock[l] != -1
    ensures s.lock[l] < |Do(s, p, a).procs| && Do(s, p, a).procs[s.lock[l]].pc == s.procs[s.lock[l]].pc
  {
    var q := s.lock[l];
    assert ProcOk(s, q) && ProcOk(s, p);
    StepSlot(s, p, a, q);
    StepEffect(s, p, a);
    if q == Target(s, p, a) { TargetStays(s, p, a, l); }
  }

  lemma TargetStays(s: Sys, p: nat, a: Action, l: nat)
    requires CanStep(s, p, a) && LocksOk(s, p) && l < |s.lock| && HeldOk(s, l)
    requires s.lock[l] != p && s.lock[l] == Target(s, p, a) && StateOk(s, Target(s, p, a))
    ensures Target(s, p, a) < |Do(s, p, a).procs|
    ensures Do(s, p, a).procs[Target(s, p, a)].pc == s.procs[Target(s, p, a)].pc
  {
  }

  lemma StepHeld(s: Sys, p: nat, a: Action)
    requires Inv(s) && Enabled(s, p, a) && Held(s)
    ensures Ready(s, p, a) && Held(Do(s, p, a))
  {
    hide Do, Local, Target;
    InvReady(s, p, a);
    var t := Do(s, p, a);
    assert ProcOk(s, p);
    forall l: nat | l < |t.lock| ensures HeldOk(t, l) {
      StepEffect(s, p, a);
      LockMoves(s, p, a, l);
      assert HeldOk(s, l);
      if t.lock[l] == p { OwnHeld(s, p, a, l); }
      else if t.lock[l] != -1 { OtherHeld(s, p, a, l); }
    }
  }

  lemma {:induction false} RunHeld(n: nat, ini: nat, run: seq<Act>, s: Sys)
    requires ini < n && Leads(Boot(n, ini), run, s)
    ensures Inv(s) && Held(s) && Older(s)
    decreases |run|
  {
    RunKids(n, ini, run, s);
    if run == [] {
      forall l: nat | l < n ensures HeldOk(s, l) {}
    } else {
      var k := |run| - 1;
      var m :| Leads(Boot(n, ini), run[..k], m) && CanStep(m, run[k].p, run[k].a) && s == Do(m, run[k].p, run[k].a);
      RunHeld(n, ini, run[..k], m);
      StepHeld(m, run[k].p, run[k].a);
    }
  }

  /** In every run no lock is leaked: a process outside fork, wait and exit holds none, and one
      that has been freed holds none. */
  lemma NoLockLeaks(n: nat, ini: nat, run: seq<Act>, s: Sys, q: nat, l: nat)
    requires ini < n && Leads(Boot(n, ini), run, s) && q < |s.procs| && l < |s.lock| && s.lock[l] == q
    ensures s.procs[q].st != Unused && !s.procs[q].pc.User? && Holds(s, q, l)
  {
    RunHeld(n, ini, run, s);
    assert HeldOk(s, l) && ProcOk(s, q);
  }

  // ---- Progress ----

  // Holding a lock, q is about to acquire lock w.
  predicate Wants(s: Sys, q: nat, w: nat)
    requires q < |s.procs|
  {
    match s.procs[q].pc
    case ScanLock(i, _) => w == i
    case ExitSelf(_) => w == q
    case ReparentLock(_, i) => w == i
    case _ => false
  }

  // The next step of q itself on its way through fork, wait or exit.
  predicate Moves(s: Sys, q: nat, a: Action)
    requires Shape(s)
  {
    && Enabled(s, q, a)
    && (a.ForkDone? || a.WaitScan? || a.WaitLock? || a.WaitCheck? || a.SwitchOut?
        || a.ExitLockSelf? || a.ReparentScan? || a.ReparentMove? || a.ExitFinish?)
  }

  ghost predicate CanMove(s: Sys, q: nat)
    requires Shape(s)
  {
    exists a: Action :: Moves(s, q, a)
  }

  // q has locked original_parent, which is not its parent any more.
  predicate Stale(s: Sys, q: nat)
    requires q < |s.procs|
  {
    match s.procs[q].pc
    case ExitSelf(op) => op != s.procs[q].parent
    case Reparent(op, _) => op != s.procs[q].parent
    case ReparentLock(op, _) => op != s.procs[q].parent
    case _ => false
  }

  // A holder moves, unless it wants a lock that is taken.
  lemma HolderMoves(s: Sys, q: nat, l: nat)
    requires Shape(s) && q < |s.procs| && Local(s, q) && l < |s.lock| && s.lock[l] == q && Holds(s, q, l)
    ensures CanMove(s, q) || exists w: nat :: Wants(s, q, w) && w < |s.lock| && s.lock[w] != -1
  {
    match s.procs[q].pc
    case Forking(_) => assert Moves(s, q, ForkDone);
    case Scan(_, _) => assert Moves(s, q, WaitScan);
    case ScanLock(i, _) => if s.lock[i] == -1 { assert Moves(s, q, WaitLock); } else { assert Wants(s, q, i); }
    case ScanHeld(_) => assert Moves(s, q, WaitCheck(true));
    case WaitSleep => assert Moves(s, q, SwitchOut);
    case ExitSelf(_) => if s.lock[q] == -1 { assert Moves(s, q, ExitLockSelf); } else { assert Wants(s, q, q); }
    case Reparent(_, i) =>
      if i < |s.procs| { assert Moves(s, q, ReparentScan); } else { assert Moves(s, q, ExitFinish(0)); }
    case ReparentLock(_, i) =>
      if s.lock[i] == -1 { assert Moves(s, q, ReparentMove); } else { assert Wants(s, q, i); }
    case Dead => assert Moves(s, q, SwitchOut);
    case _ =>
  }

  // Locks are taken parent first: what is wanted is younger than what is held.
  lemma WantsYounger(s: Sys, q: nat, l: nat, w: nat)
    requires Inv(s) && Older(s) && q < |s.procs| && l < |s.procs| && w < |s.procs|
    requires Holds(s, q, l) && Wants(s, q, w) && !Stale(s, q)
    ensures s.procs[l].pid < s.procs[w].pid
  {
    assert ProcOk(s, q) && ProcOk(s, w) && OlderOk(s, q) && OlderOk(s, w) && ProcOk(s, s.ini);
  }

  // The youngest of the slots whose lock is held.
  lemma Youngest(s: Sys, l: nat) returns (y: nat)
    requires Shape(s) && l < |s.lock| && s.lock[l] != -1
    ensures y < |s.lock| && s.lock[y] != -1
    ensures forall k :: 0 <= k < |s.lock| && s.lock[k] != -1 ==> s.procs[k].pid <= s.procs[y].pid
  {
    y := l;
    var i := 0;
    while i < |s.lock|
      invariant i <= |s.lock| && y < |s.lock| && s.lock[y] != -1
      invariant forall k :: 0 <= k < i && s.lock[k] != -1 ==> s.procs[k].pid <= s.procs[y].pid
    {
      if s.lock[i] != -1 && s.procs[i].pid > s.procs[y].pid { y := i; }
      i := i + 1;
    }
  }

  /** In every run, while some process lock is held and no process has locked a parent it has lost,
      some holder of a lock can take its next step: the holders are not deadlocked. */
  lemma SomeHolderMoves(n: nat, ini: nat, run: seq<Act>, s: Sys, l: nat)
    requires ini < n && Leads(Boot(n, ini), run, s) && l < |s.lock| && s.lock[l] != -1
    requires |s.procs| == |s.lock| && forall q :: 0 <= q < |s.procs| ==> !Stale(s, q)
    ensures Shape(s) && exists q: nat, k: nat :: k < |s.lock| && s.lock[k] == q && CanMove(s, q)
  {
    hide Leads, Enabled, Moves, CanMove;
    RunHeld(n, ini, run, s);
    var y := Youngest(s, l);
    assert HeldOk(s, y);
    var q := s.lock[y];
    assert ProcOk(s, q);
    HolderMoves(s, q, y);
    if !CanMove(s, q) {
      var w: nat :| Wants(s, q, w) && w < |s.lock| && s.lock[w] != -1;
      WantsYounger(s, q, y, w);
    }
  }

  // Every process of ring wants a lock that the one after it holds, the last one's being held by
  // the first; ws[i] is what ring[i] wants.
  predicate Circle(s: Sys, ring: seq<nat>, ws: seq<nat>) {
    && |ring| == |ws| >= 1
    && forall i :: 0 <= i < |ring| ==>
         && ring[i] < |s.procs| && ws[i] < |s.lock| && Wants(s, ring[i], ws[i])
         && s.lock[ws[i]] == ring[if i + 1 < |ring| then i + 1 else 0]
  }

  lemma {:induction false} CircleRises(s: Sys, ring: seq<nat>, ws: seq<nat>, i: nat)
    requires Inv(s) && Held(s) && Older(s) && Circle(s, ring, ws) && i < |ring|
    requires forall k :: 0 <= k < |ring| ==> !Stale(s, ring[k])
    ensures s.procs[ws[0]].pid + i <= s.procs[ws[i]].pid
  {
    if i > 0 {
      CircleRises(s, ring, ws, i - 1);
      assert s.lock[ws[i - 1]] == ring[i] && HeldOk(s, ws[i - 1]);
      WantsYounger(s, ring[i], ws[i - 1], ws[i]);
    }
  }

  /** In every run, if processes wait for each other's locks in a circle, of any length, then one
      of them has locked a parent it has lost. */
  lemma CirclesAreStale(n: nat, ini: nat, run: seq<Act>, s: Sys, ring: seq<nat>, ws: seq<nat>)
    requires ini < n && Leads(Boot(n, ini), run, s) && Circle(s, ring, ws)
    ensures exists k :: 0 <= k < |ring| && Stale(s, ring[k])
  {
    RunHeld(n, ini, run, s);
    if forall k :: 0 <= k < |ring| ==> !Stale(s, ring[k]) {
      var m := |ring| - 1;
      CircleRises(s, ring, ws, m);
      assert s.lock[ws[m]] == ring[0] && HeldOk(s, ws[m]);
      WantsYounger(s, ring[0], ws[m], ws[0]);
    }
  }

  // ---- A knot ----

  // Three processes in exit, each holding the lock the next one wants.
  predicate Knot(s: Sys, p: nat, q: nat, x: nat) {
    && Shape(s) && p < |s.procs| && q < |s.procs| && x < |s.procs| && p != q && q != x && x != p
    && s.procs[p].pc == ExitSelf(x) && s.lock[x] == p
    && s.procs[q].pc == ExitSelf(p) && s.lock[p] == q
    && s.procs[x].pc == ExitSelf(q) && s.lock[q] == x
  }

  lemma KnotBlocked(s: Sys, p: nat, q: nat, x: nat)
    requires Knot(s, p, q, x)
    ensures !CanMove(s, p) && !CanMove(s, q) && !CanMove(s, x)
  {
  }

  /** Three processes so knotted stay so through every step of every process. */
  lemma KnotStays(s: Sys, p: nat, q: nat, x: nat, r: nat, a: Action)
    requires Inv(s) && Held(s) && Enabled(s, r, a) && Knot(s, p, q, x)
    ensures Ready(s, r, a) && Knot(Do(s, r, a), p, q, x)
  {
    hide Do;
    InvReady(s, r, a);
    KnotPlace(s, p, x, q, r, a);
    KnotPlace(s, q, p, x, r, a);
    KnotPlace(s, x, q, p, r, a);
    StepEffect(s, r, a);
  }

  // One of the three, p, holding op's lock and wanting its own, which o holds.
  lemma KnotPlace(s: Sys, p: nat, op: nat, o: nat, r: nat, a: Action)
    requires Inv(s) && Held(s) && Enabled(s, r, a) && Ready(s, r, a)
    requires p < |s.procs| && op < |s.procs| && o < |s.procs| && s.procs[p].pc == ExitSelf(op)
    requires s.lock[op] == p && s.lock[p] == o && o != p
    ensures var t := Do(s, r, a);
      Shape(t) && |t.procs| == |s.procs| && t.procs[p].pc == ExitSelf(op) && t.lock[op] == p
  {
    StepEffect(s, r, a);
    assert ProcOk(s, p) && HeldOk(s, op);
    LockMoves(s, r, a, op);
    if r == p { KnotActor(s, p, op, a); } else { OtherHeld(s, r, a, op); }
  }

  lemma KnotActor(s: Sys, p: nat, op: nat, a: Action)
    requires CanStep(s, p, a) && op < |s.procs| && s.procs[p].pc == ExitSelf(op)
    requires s.lock[op] == p && s.lock[p] != -1 && s.lock[p] != p
    ensures var t := Do(s, p, a);
      p < |t.procs| && op < |t.lock| && t.procs[p].pc == ExitSelf(op) && t.lock[op] == p
  {
  }
}
