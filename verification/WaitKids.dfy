/** What wait tells its caller (kernel/proc.c): it comes back with a child's status, or because
    there is no child, the process has been killed or the status could not be copied out. */
module WaitKids {
  import opened ProcWait
  import opened ProcReap

  predicate Kid(s: Sys, p: nat, j: nat) {
    j < |s.procs| && s.procs[j].parent == p
  }

  // ---- Parents are older than their children ----

  // A parent has the smaller pid, and a process has it of the one it is making; init's is 1.
  predicate OlderOk(s: Sys, j: nat)
    requires j < |s.procs|
  {
    var x := s.procs[j];
    && (x.st != Unused && j != s.ini ==> 0 <= x.parent < |s.procs| && s.procs[x.parent].pid < x.pid)
    && (x.pc.Forking? ==> x.pc.np < |s.procs| && x.pid < s.procs[x.pc.np].pid)
    && (j == s.ini ==> x.pid == 1) && (j != s.ini ==> x.pid != 1)
  }

  ghost predicate Older(s: Sys) {
    s.nextpid >= 2 && forall j: nat {:trigger OlderOk(s, j)} :: j < |s.procs| ==> OlderOk(s, j)
  }

  // How a slot may change without endangering the order: as it was, emptied, p's new child, or
  // given to init.
  predicate Rises(p: nat, ini: nat, made: bool, x: Proc, y: Proc) {
    || (y.parent == x.parent && (y.st == Unused <==> x.st == Unused))
    || y.st == Unused || (made && y.parent == p) || y.parent == ini
  }

  lemma SlotRises(p: nat, ini: nat, forks: bool, x: Proc, y: Proc)
    requires Slot(p, ini, forks, x, y)
    ensures Rises(p, ini, x.st == Unused && y.st != Unused, x, y)
  {
  }

  lemma RisesOlder(s: Sys, t: Sys, p: nat, made: bool, j: nat)
    requires p < |s.procs| == |t.procs| && t.ini == s.ini < |s.procs| && j < |s.procs|
    requires OlderOk(s, j) && OlderOk(s, p) && OlderOk(s, s.ini) && (t.procs[j].st != Unused ==> t.procs[j].pid != 0)
    requires Rises(p, s.ini, made, s.procs[j], t.procs[j]) && (made ==> s.procs[p].pc == Forking(j))
    requires forall k :: 0 <= k < |s.procs| ==> t.procs[k].pid == s.procs[k].pid
    requires t.procs[j].pc.Forking? ==> t.procs[j].pc == s.procs[j].pc
    ensures OlderOk(t, j)
  {
  }

  // The steps that give a slot a new pid or empty it.
  predicate Renames(s: Sys, p: nat, a: Action)
    requires CanStep(s, p, a)
  {
    || a.ForkAlloc? || (a.ForkFail? && a.cleared)
    || (a.WaitCheck? && a.copied && s.procs[s.procs[p].pc.i].st == Zombie)
  }

  lemma SamePids(s: Sys, p: nat, a: Action, j: nat)
    requires CanStep(s, p, a) && LocksOk(s, p) && !Renames(s, p, a) && j < |s.procs|
    ensures var t := Do(s, p, a);
      && |t.procs| == |s.procs| && t.ini == s.ini && t.procs[j].pid == s.procs[j].pid
      && (t.procs[j].pc.Forking? ==> t.procs[j].pc == s.procs[j].pc)
      && (s.procs[j].st == Unused && t.procs[j].st != Unused ==> s.procs[p].pc == Forking(j))
  {
  }

  lemma QuietOlder(s: Sys, p: nat, a: Action, j: nat)
    requires Inv(s) && Enabled(s, p, a) && Older(s) && j < |s.procs| && Ready(s, p, a) && !Renames(s, p, a)
    requires History(Do(s, p, a))
    ensures j < |Do(s, p, a).procs| && OlderOk(Do(s, p, a), j)
  {
    hide Do, Slot, Rises, OlderOk, PcShape, StateOk, LocksOk, ExitOk, ParentOk, ScanOk, ReparentOk;
    var t := Do(s, p, a);
    assert ProcOk(s, p) && ProcOk(s, j) && OlderOk(s, j) && OlderOk(s, p) && OlderOk(s, s.ini);
    forall k: nat | k < |s.procs| ensures |t.procs| == |s.procs| && t.procs[k].pid == s.procs[k].pid {
      SamePids(s, p, a, k);
    }
    SamePids(s, p, a, j);
    assert IdOk(t, j);
    if a.ExitFinish? && j == p {
      FinishSlot(s, p, a);
      FinishRises(s.procs[p], t.procs[p], p, s.ini, a.status);
      RisesOlder(s, t, p, false, j);
    } else {
      StepSlot(s, p, a, j);
      SlotRises(p, s.ini, a.ForkDone?, s.procs[j], t.procs[j]);
      RisesOlder(s, t, p, s.procs[j].st == Unused && t.procs[j].st != Unused, j);
    }
  }

  lemma FinishRises(x: Proc, y: Proc, p: nat, ini: nat, status: int)
    requires y == x.(xstate := status, st := Zombie, pc := Dead) && x.st == Running
    ensures Rises(p, ini, false, x, y)
  {
  }

  lemma AllocOlder(s: Sys, p: nat, np: nat, j: nat)
    requires Inv(s) && History(s) && Enabled(s, p, ForkAlloc(np)) && Older(s) && j < |s.procs|
    ensures OlderOk(DoForkAlloc(s, p, np), j)
  {
    assert ProcOk(s, p) && ProcOk(s, j) && ProcOk(s, np) && OlderOk(s, j) && IdOk(s, p) && IdOk(s, j);
  }

  // A slot is emptied: nobody's parent, and nobody's new child but the actor's.
  lemma FreedOlder(s: Sys, t: Sys, p: nat, i: nat, j: nat)
    requires Shape(s) && |t.procs| == |s.procs| && t.ini == s.ini && p < |s.procs| && i < |s.procs| && j < |s.procs|
    requires OlderOk(s, j) && ParentOk(t, j) && t.procs[i] == FREED && i != s.ini && t.procs[p].pc.User?
    requires forall k :: 0 <= k < |s.procs| && k != i && k != p ==> t.procs[k] == s.procs[k]
    requires t.procs[p] == s.procs[p].(pc := User) || p == i
    requires j != p && s.procs[j].pc.Forking? ==> s.procs[j].pc.np != i
    ensures OlderOk(t, j)
  {
  }

  lemma FreeShape(s: Sys, p: nat, a: Action)
    requires CanStep(s, p, a) && LocksOk(s, p) && Renames(s, p, a) && !a.ForkAlloc?
    requires s.procs[s.ini].st != Unused && s.procs[s.ini].st != Zombie
    ensures var t, i := Do(s, p, a), Target(s, p, a);
      && i != s.ini
      && |t.procs| == |s.procs| && t.ini == s.ini && i < |s.procs| && i != p && s.lock[i] == p
      && t.procs[i] == FREED && t.procs[p] == s.procs[p].(pc := User)
      && forall k :: 0 <= k < |s.procs| && k != i && k != p ==> t.procs[k] == s.procs[k]
  {
  }

  lemma ClearOlder(s: Sys, p: nat, a: Action, j: nat)
    requires Inv(s) && Enabled(s, p, a) && Older(s) && j < |s.procs| && Ready(s, p, a)
    requires Renames(s, p, a) && !a.ForkAlloc? && Inv(Do(s, p, a))
    ensures j < |Do(s, p, a).procs| && OlderOk(Do(s, p, a), j)
  {
    hide Do, StateOk, ExitOk, ScanOk, ReparentOk;
    var t, i := Do(s, p, a), Target(s, p, a);
    assert ProcOk(s, s.ini);
    FreeShape(s, p, a);
    assert ProcOk(s, j) && ProcOk(t, j) && OlderOk(s, j);
    FreedOlder(s, t, p, i, j);
  }

  lemma StepOlder(s: Sys, p: nat, a: Action)
    requires Inv(s) && History(s) && Enabled(s, p, a) && Older(s)
    ensures Ready(s, p, a) && Older(Do(s, p, a))
  {
    hide Do, OlderOk, ProcOk, IdOk;
    StepInv(s, p, a);
    StepHistory(s, p, a);
    NextPid(s, p, a);
    var t := Do(s, p, a);
    StepEffect(s, p, a);
    forall j: nat | j < |t.procs| ensures OlderOk(t, j) {
      if !Renames(s, p, a) { QuietOlder(s, p, a, j); }
      else if a.ForkAlloc? { AllocStep(s, p, a, j); }
      else { ClearOlder(s, p, a, j); }
    }
  }

  lemma NextPid(s: Sys, p: nat, a: Action)
    requires CanStep(s, p, a)
    ensures Do(s, p, a).nextpid >= s.nextpid
  {
  }

  lemma AllocStep(s: Sys, p: nat, a: Action, j: nat)
    requires Inv(s) && History(s) && Enabled(s, p, a) && Older(s) && j < |s.procs| && Ready(s, p, a) && a.ForkAlloc?
    ensures j < |Do(s, p, a).procs| && OlderOk(Do(s, p, a), j)
  {
    hide OlderOk, IdOk, ProcOk;
    AllocOlder(s, p, a.np, j);
  }

  /** While any other process is in use, init has a child: go from parent to parent. */
  lemma {:induction false} InitHasKid(s: Sys, j: nat)
    requires Inv(s) && Older(s) && j < |s.procs| && j != s.ini && s.procs[j].st != Unused
    ensures exists k: nat :: Kid(s, s.ini, k)
    decreases s.procs[j].pid
  {
    assert ProcOk(s, j) && OlderOk(s, j);
    if s.procs[j].parent == s.ini {
      assert Kid(s, s.ini, j);
    } else {
      InitHasKid(s, s.procs[j].parent);
    }
  }

  // ---- What a scan knows of children ----

  // Once a child has been seen there is one. Until then one is still ahead, or there is none.
  ghost predicate KidsOk(s: Sys, p: nat)
    requires p < |s.procs|
  {
    match s.procs[p].pc
    case Scan(i, true) => exists j: nat :: Kid(s, p, j)
    case Scan(i, false) => (exists j: nat :: j >= i && Kid(s, p, j)) || forall j: nat :: !Kid(s, p, j)
    case _ => true
  }

  ghost predicate Kids(s: Sys) {
    forall p: nat {:trigger KidsOk(s, p)} :: p < |s.procs| ==> KidsOk(s, p)
  }

  // A child stays one through the steps of others; only init gets new ones so.
  lemma KidStays(s: Sys, p: nat, a: Action, q: nat, j: nat)
    requires Inv(s) && Enabled(s, p, a) && q < |s.procs| && q != p && j < |s.procs|
    ensures Ready(s, p, a) && (Kid(s, q, j) ==> Kid(Do(s, p, a), q, j))
    ensures Kid(Do(s, p, a), q, j) && !Kid(s, q, j) ==> q == s.ini
  {
    InvReady(s, p, a);
    assert ProcOk(s, j) && ProcOk(s, p);
    if a.ExitFinish? && j == p { FinishSlot(s, p, a); } else { StepSlot(s, p, a, j); }
  }

  lemma OtherKids(s: Sys, p: nat, a: Action, q: nat)
    requires Inv(s) && Older(s) && Enabled(s, p, a) && q < |s.procs| && q != p && KidsOk(s, q)
    ensures Ready(s, p, a) && q < |Do(s, p, a).procs| && KidsOk(Do(s, p, a), q)
  {
    InvReady(s, p, a);
    assert ProcOk(s, q) && ProcOk(s, p);
    var t := Do(s, p, a);
    StepSlot(s, p, a, q);
    forall j: nat | j < |s.procs|
      ensures (Kid(s, q, j) ==> Kid(t, q, j)) && (Kid(t, q, j) && !Kid(s, q, j) ==> q == s.ini)
    {
      KidStays(s, p, a, q, j);
    }
    if q == s.ini {
      InitHasKid(s, p);
    }
  }

  // A step that leaves every parent pointer alone.
  lemma SameKids(s: Sys, t: Sys, p: nat, q: nat)
    requires |t.procs| == |s.procs| && forall j :: 0 <= j < |s.procs| ==> t.procs[j].parent == s.procs[j].parent
    ensures forall j: nat :: Kid(t, q, j) <==> Kid(s, q, j)
  {
  }

  // The actor itself.
  lemma ScanKids(s: Sys, p: nat)
    requires CanStep(s, p, WaitScan) && KidsOk(s, p)
    ensures p < |Do(s, p, WaitScan).procs| && KidsOk(Do(s, p, WaitScan), p)
  {
    var t := Do(s, p, WaitScan);
    SameKids(s, t, p, p);
  }

  lemma ChecksKids(s: Sys, p: nat, a: Action)
    requires CanStep(s, p, a) && Local(s, p) && KidsOk(s, p) && (Wait(a) || Check(a))
    ensures p < |Do(s, p, a).procs| && KidsOk(Do(s, p, a), p)
  {
    var t := Do(s, p, a);
    if t.procs[p].pc.Scan? {
      SameKids(s, t, p, p);
      if a.WaitCheck? { assert Kid(t, p, s.procs[p].pc.i); }
    }
  }

  lemma SchedKids(s: Sys, p: nat, a: Action)
    requires CanStep(s, p, a) && KidsOk(s, p) && (Sched(a) || Wakes(a) || Kills(a))
    ensures p < |Do(s, p, a).procs| && KidsOk(Do(s, p, a), p)
  {
    var t := Do(s, p, a);
    if t.procs[p].pc.Scan? { SameKids(s, t, p, p); }
  }

  // Forking or exiting, p is not in a scan.
  lemma RestKids(s: Sys, p: nat, a: Action)
    requires CanStep(s, p, a) && Local(s, p) && (Fork(a) || Exit(a) || Reparents(a) || Finish(a))
    ensures p < |Do(s, p, a).procs| && KidsOk(Do(s, p, a), p)
  {
  }

  lemma OwnKids(s: Sys, p: nat, a: Action)
    requires CanStep(s, p, a) && Local(s, p) && KidsOk(s, p)
    ensures p < |Do(s, p, a).procs| && KidsOk(Do(s, p, a), p)
  {
    hide Do, KidsOk, Local;
    if Scans(a) { ScanKids(s, p); }
    else if Wait(a) || Check(a) { ChecksKids(s, p, a); }
    else if Sched(a) || Wakes(a) || Kills(a) { SchedKids(s, p, a); }
    else { RestKids(s, p, a); }
  }

  lemma StepKids(s: Sys, p: nat, a: Action)
    requires Inv(s) && Older(s) && Enabled(s, p, a) && Kids(s)
    ensures Ready(s, p, a) && Kids(Do(s, p, a))
  {
    InvReady(s, p, a);
    StepEffect(s, p, a);
    assert ProcOk(s, p);
    var t := Do(s, p, a);
    forall q: nat | q < |t.procs| ensures KidsOk(t, q) {
      assert KidsOk(s, q);
      if q != p { OtherKids(s, p, a, q); } else { OwnKids(s, p, a); }
    }
  }

  lemma {:induction false} RunKids(n: nat, ini: nat, run: seq<Act>, s: Sys)
    requires ini < n && Leads(Boot(n, ini), run, s)
    ensures Inv(s) && History(s) && Older(s) && Kids(s)
    decreases |run|
  {
    RunInv(n, ini, run, s);
    if run == [] {
      forall j: nat | j < n ensures OlderOk(s, j) && KidsOk(s, j) {}
    } else {
      var k := |run| - 1;
      var m :| Leads(Boot(n, ini), run[..k], m) && CanStep(m, run[k].p, run[k].a) && s == Do(m, run[k].p, run[k].a);
      RunKids(n, ini, run[..k], m);
      StepOlder(m, run[k].p, run[k].a);
      StepKids(m, run[k].p, run[k].a);
    }
  }

  // ---- wait's answers ----

  // No process in use has p as its parent.
  predicate Childless(s: Sys, p: nat) {
    forall j :: 0 <= j < |s.procs| && s.procs[j].st != Unused ==> s.procs[j].parent != p
  }

  lemma ChildlessIs(s: Sys, p: nat)
    requires Inv(s)
    ensures Childless(s, p) <==> forall j: nat :: !Kid(s, p, j)
  {
    forall j: nat | Kid(s, p, j) ensures s.procs[j].st != Unused { assert ProcOk(s, j); }
    if !Childless(s, p) {
      var j: nat :| j < |s.procs| && s.procs[j].st != Unused && s.procs[j].parent == p;
      assert Kid(s, p, j);
    }
  }

  // What one step of a scan does, when its child count is right.
  predicate ScanStep(s: Sys, t: Sys, p: nat)
    requires p < |s.procs| && s.procs[p].pc.Scan?
  {
    var i, kids := s.procs[p].pc.i, s.procs[p].pc.kids;
    && p < |t.procs| && i <= |s.procs|
    && (i < |s.procs| && s.procs[i].parent == p ==> t.procs[p].pc == ScanLock(i, kids))
    && (i < |s.procs| && s.procs[i].parent != p ==> t.procs[p].pc == Scan(i + 1, kids))
    && (i == |s.procs| ==> (t.procs[p].pc.User? <==> s.procs[p].killed || Childless(s, p)))
    && (i == |s.procs| && !t.procs[p].pc.User? ==> Waiting(t, p))
  }

  lemma ScanSteps(s: Sys, p: nat)
    requires CanStep(s, p, WaitScan) && KidsOk(s, p) && (Childless(s, p) <==> forall j: nat :: !Kid(s, p, j))
    ensures ScanStep(s, Do(s, p, WaitScan), p)
  {
    hide Childless;
  }

  /** In every run, a scan of wait's looks at every slot: it stops at each child, and at the end
      of the table it gives up exactly when the process has been killed or has no child; else it
      goes to sleep on its own channel. This holds of init too. */
  lemma WaitGivesUp(n: nat, ini: nat, run: seq<Act>, s: Sys, p: nat)
    requires ini < n && Leads(Boot(n, ini), run, s) && CanStep(s, p, WaitScan)
    ensures ScanStep(s, Do(s, p, WaitScan), p)
  {
    hide Leads, Do, KidsOk, ScanStep, Childless, ProcOk;
    RunKids(n, ini, run, s);
    assert KidsOk(s, p);
    ChildlessIs(s, p);
    ScanSteps(s, p);
  }

  // A process inside wait.
  predicate InWait(s: Sys, p: nat) {
    && p < |s.procs|
    && (s.procs[p].pc.Scan? || s.procs[p].pc.ScanLock? || s.procs[p].pc.ScanHeld? || s.procs[p].pc.WaitSleep?)
  }

  // The ways out of wait, with j's status in the first.
  predicate Answered(s: Sys, t: Sys, p: nat, j: nat) {
    && Kid(s, p, j) && s.procs[j].st == Zombie && j < |t.procs| && t.procs[j].st == Unused
    && t.reaped == s.reaped + [Reap(s.procs[j].pid, s.procs[j].xstate)]
  }

  predicate CopyFailed(s: Sys, t: Sys, p: nat, a: Action, j: nat) {
    t.reaped == s.reaped && a == WaitCheck(false) && Kid(s, p, j) && s.procs[j].st == Zombie
  }

  lemma LeaveStep(s: Sys, p: nat, a: Action)
    requires CanStep(s, p, a) && Local(s, p) && InWait(s, p) && !InWait(Do(s, p, a), p)
    ensures a.WaitScan? || a.WaitCheck?
    ensures a.WaitScan? ==>
      s.procs[p].pc.i == |s.procs| && Do(s, p, a).procs[p].pc.User? && Do(s, p, a).reaped == s.reaped
    ensures a.WaitCheck? ==>
      Answered(s, Do(s, p, a), p, s.procs[p].pc.i) || CopyFailed(s, Do(s, p, a), p, a, s.procs[p].pc.i)
  {
  }

  /** In every run, a step by which a process leaves wait has reaped a zombie child of its own and
      reports its pid and status; or the process has been killed or has no child; or a child's
      status could not be copied out. */
  lemma WaitAnswers(n: nat, ini: nat, run: seq<Act>, s: Sys, p: nat, a: Action)
    requires ini < n && Leads(Boot(n, ini), run, s) && CanStep(s, p, a)
    requires InWait(s, p) && !InWait(Do(s, p, a), p)
    ensures var t := Do(s, p, a);
      || (exists j: nat :: Answered(s, t, p, j))
      || (t.reaped == s.reaped && (s.procs[p].killed || Childless(s, p)))
      || (exists j: nat :: CopyFailed(s, t, p, a, j))
  {
    hide Leads, Do, Answered, CopyFailed, Childless, Local, PcShape;
    RunKids(n, ini, run, s);
    assert ProcOk(s, p);
    LeaveStep(s, p, a);
    if a.WaitScan? { WaitGivesUp(n, ini, run, s, p); }
  }
}
