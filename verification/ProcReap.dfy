/** Runs of the process system: every zombie is reaped once, by its parent, with the
    status it exited with; wait misses no child, except that init may miss one it
    adopted. */
module ProcReap {
  import opened ProcWait

  // ---- Statuses ----

  predicate Reaped(s: Sys, pid: nat) {
    exists i :: 0 <= i < |s.reaped| && s.reaped[i].pid == pid
  }

  predicate IdOk(s: Sys, j: nat)
    requires j < |s.procs|
  {
    var x := s.procs[j];
    && x.pid < s.nextpid && (x.st != Unused ==> x.pid != 0)
    && (x.st == Zombie ==> x.pid in s.exited && s.exited[x.pid] == x.xstate && !Reaped(s, x.pid))
    && (x.st != Zombie && x.pid != 0 ==> x.pid !in s.exited)
    && (x.pc.Forking? ==> x.pc.np < |s.procs| && s.procs[x.pc.np].pid != 0)
  }

  predicate Apart(s: Sys, j: nat, k: nat)
    requires j < |s.procs| && k < |s.procs|
  {
    j != k && s.procs[j].pid != 0 ==> s.procs[j].pid != s.procs[k].pid
  }

  // Every process that exited has been reaped or is a zombie still.
  ghost predicate Kept(s: Sys, pid: nat) {
    Reaped(s, pid) || exists j :: 0 <= j < |s.procs| && s.procs[j].st == Zombie && s.procs[j].pid == pid
  }

  ghost predicate History(s: Sys) {
    && s.nextpid >= 1
    && (forall j: nat {:trigger IdOk(s, j)} :: j < |s.procs| ==> IdOk(s, j))
    && (forall j: nat, k: nat {:trigger Apart(s, j, k)} :: j < |s.procs| && k < |s.procs| ==> Apart(s, j, k))
    && (forall pid: nat {:trigger Kept(s, pid)} :: pid in s.exited ==> Kept(s, pid) && pid < s.nextpid)
    && (forall i :: 0 <= i < |s.reaped| ==>
          s.reaped[i].pid in s.exited && s.exited[s.reaped[i].pid] == s.reaped[i].status)
    && (forall i, k :: 0 <= i < k < |s.reaped| ==> s.reaped[i].pid != s.reaped[k].pid)
  }

  // Nothing about identities changes.
  predicate SameId(s: Sys, t: Sys, j: nat)
    requires j < |s.procs| && |t.procs| == |s.procs|
  {
    var x, y := s.procs[j], t.procs[j];
    && y.pid == x.pid && y.xstate == x.xstate && (y.st == Zombie <==> x.st == Zombie)
    && (y.pc.Forking? ==> y.pc == x.pc)
  }

  predicate Quiet(a: Action) {
    !a.ForkAlloc? && !a.ForkFail? && !a.WaitCheck? && !a.ExitFinish?
  }

  lemma QuietSame(s: Sys, p: nat, a: Action, j: nat)
    requires CanStep(s, p, a) && LocksOk(s, p) && Quiet(a) && j < |s.procs|
    ensures var t := Do(s, p, a);
      && |t.procs| == |s.procs| && t.exited == s.exited && t.reaped == s.reaped && t.nextpid == s.nextpid
      && SameId(s, t, j)
  {
  }

  // History depends on identities alone.
  lemma SameHistory(s: Sys, t: Sys)
    requires History(s) && |t.procs| == |s.procs|
    requires t.exited == s.exited && t.reaped == s.reaped && t.nextpid == s.nextpid
    requires forall j: nat {:trigger SameId(s, t, j)} :: j < |s.procs| ==> SameId(s, t, j)
    requires forall j: nat :: j < |s.procs| && t.procs[j].st != Unused ==>
      s.procs[j].st != Unused || s.procs[j].pid != 0
    ensures History(t)
  {
    forall j: nat | j < |t.procs| ensures IdOk(t, j) {
      assert IdOk(s, j) && SameId(s, t, j);
      assert s.procs[j].pc.Forking? ==> SameId(s, t, s.procs[j].pc.np);
    }
    forall j: nat, k: nat | j < |t.procs| && k < |t.procs| ensures Apart(t, j, k) {
      assert Apart(s, j, k) && SameId(s, t, j) && SameId(s, t, k);
    }
    forall pid: nat | pid in t.exited ensures Kept(t, pid) && pid < t.nextpid {
      assert Kept(s, pid);
      if !Reaped(s, pid) {
        var j: nat :| j < |s.procs| && s.procs[j].st == Zombie && s.procs[j].pid == pid;
        assert SameId(s, t, j);
        assert t.procs[j].st == Zombie && t.procs[j].pid == pid;
      } else {
        var i :| 0 <= i < |s.reaped| && s.reaped[i].pid == pid;
        assert t.reaped[i].pid == pid;
      }
    }
  }

  lemma QuietHistory(s: Sys, p: nat, a: Action)
    requires Inv(s) && Enabled(s, p, a) && Quiet(a) && History(s)
    ensures Ready(s, p, a) && History(Do(s, p, a))
  {
    InvReady(s, p, a);
    var t := Do(s, p, a);
    assert ProcOk(s, p) && IdOk(s, p);
    forall j: nat | j < |s.procs|
      ensures SameId(s, t, j) && (t.procs[j].st != Unused ==> s.procs[j].st != Unused || s.procs[j].pid != 0)
    {
      QuietSame(s, p, a, j);
      assert ProcOk(s, j);
      StepSlot(s, p, a, j);
      ForkPid(s, p, a, j);
    }
    QuietSame(s, p, a, p);
    SameHistory(s, t);
  }

  // A slot in use after a step was in use before, or is the one fork holds.
  lemma ForkPid(s: Sys, p: nat, a: Action, j: nat)
    requires CanStep(s, p, a) && LocksOk(s, p) && j < |s.procs| && IdOk(s, p)
    requires |Do(s, p, a).procs| == |s.procs|
    ensures Do(s, p, a).procs[j].st != Unused ==> s.procs[j].st != Unused || s.procs[j].pid != 0
  {
  }

  // ---- The four steps that do change identities ----

  lemma AllocHistory(s: Sys, p: nat, np: nat)
    requires History(s) && Shape(s) && p < |s.procs| && np < |s.procs| && p != np
    requires s.procs[np].st == Unused && s.procs[np].pc.User? && s.procs[p].pc.User?
    ensures History(DoForkAlloc(s, p, np))
  {
    var t := DoForkAlloc(s, p, np);
    forall j: nat | j < |t.procs| ensures IdOk(t, j) {
      assert IdOk(s, j);
      assert s.nextpid in s.exited ==> Kept(s, s.nextpid);
    }
    forall j: nat, k: nat | j < |t.procs| && k < |t.procs| ensures Apart(t, j, k) {
      assert Apart(s, j, k) && IdOk(s, j) && IdOk(s, k);
    }
    forall pid: nat | pid in t.exited ensures Kept(t, pid) && pid < t.nextpid {
      assert Kept(s, pid);
      KeptBy(s, t, pid, np);
    }
  }

  // A zombie in a slot that stays as it is keeps its record.
  lemma KeptBy(s: Sys, t: Sys, pid: nat, j: nat)
    requires Kept(s, pid) && j < |s.procs| && |t.procs| == |s.procs| && s.reaped <= t.reaped
    requires s.procs[j].st != Zombie || Reaped(t, s.procs[j].pid)
    requires forall k :: 0 <= k < |s.procs| && k != j && s.procs[k].st == Zombie ==>
      t.procs[k].st == Zombie && t.procs[k].pid == s.procs[k].pid
    ensures Kept(t, pid)
  {
    if Reaped(s, pid) {
      var i :| 0 <= i < |s.reaped| && s.reaped[i].pid == pid;
      assert t.reaped[i].pid == pid;
    } else {
      var k :| 0 <= k < |s.procs| && s.procs[k].st == Zombie && s.procs[k].pid == pid;
      assert k != j ==> t.procs[k].st == Zombie && t.procs[k].pid == pid;
    }
  }

  // A slot that is no zombie is emptied.
  lemma ClearHistory(s: Sys, p: nat, np: nat)
    requires History(s) && Shape(s) && p < |s.procs| && np < |s.procs| && p != np
    requires s.procs[np].st == Unused && s.procs[p].pc == Forking(np) && s.lock[np] == p
    requires forall q: nat :: q < |s.procs| && q != p ==> s.procs[q].pc != Forking(np)
    ensures History(DoForkEnd(s, p, np, FREED))
  {
    var t := DoForkEnd(s, p, np, FREED);
    forall j: nat | j < |t.procs| ensures IdOk(t, j) { assert IdOk(s, j); }
    forall j: nat, k: nat | j < |t.procs| && k < |t.procs| ensures Apart(t, j, k) {
      assert Apart(s, j, k) && Apart(s, k, j);
    }
    forall pid: nat | pid in t.exited ensures Kept(t, pid) && pid < t.nextpid {
      assert Kept(s, pid);
      KeptBy(s, t, pid, np);
    }
  }

  lemma ReapHistory(s: Sys, p: nat, i: nat)
    requires History(s) && Shape(s) && p < |s.procs| && i < |s.procs| && p != i
    requires s.procs[i].st == Zombie && s.procs[p].pc.ScanHeld? && s.procs[p].st != Zombie
    requires forall q: nat :: q < |s.procs| ==> s.procs[q].pc != Forking(i)
    ensures History(DoWaitCheck(s, p, i, true))
  {
    var t := DoWaitCheck(s, p, i, true);
    var r := Reap(s.procs[i].pid, s.procs[i].xstate);
    assert t.reaped == s.reaped + [r];
    assert IdOk(s, i);
    assert t.reaped[|s.reaped|] == r;
    forall j: nat | j < |t.procs| ensures IdOk(t, j) {
      assert IdOk(s, j) && Apart(s, i, j);
      var pid := s.procs[j].pid;
      assert j != i && Reaped(t, pid) ==> Reaped(s, pid) || pid == r.pid;
    }
    forall j: nat, k: nat | j < |t.procs| && k < |t.procs| ensures Apart(t, j, k) {
      assert Apart(s, j, k) && Apart(s, k, j);
    }
    forall pid: nat | pid in t.exited ensures Kept(t, pid) && pid < t.nextpid {
      assert Kept(s, pid);
      KeptBy(s, t, pid, i);
    }
    assert forall k :: 0 <= k < |s.reaped| ==> s.reaped[k].pid != r.pid;
  }

  lemma FinishHistory(s: Sys, p: nat, op: nat, status: int)
    requires History(s) && Shape(s) && p < |s.procs| && op < |s.procs| && p != op
    requires s.procs[p].st == Running && s.procs[p].pc.Reparent?
    ensures History(DoFinish(s, p, op, status))
  {
    var t := DoFinish(s, p, op, status);
    var me := s.procs[p].pid;
    assert IdOk(s, p);
    assert !Reaped(s, me);
    assert t.procs[p].st == Zombie && t.procs[p].pid == me;
    forall j: nat | j < |t.procs| ensures IdOk(t, j) {
      assert IdOk(s, j) && Apart(s, j, p) && Apart(s, p, j);
      assert Reaped(t, t.procs[j].pid) ==> Reaped(s, t.procs[j].pid);
    }
    forall j: nat, k: nat | j < |t.procs| && k < |t.procs| ensures Apart(t, j, k) {
      assert Apart(s, j, k);
    }
    forall pid: nat | pid in t.exited ensures Kept(t, pid) && pid < t.nextpid {
      if pid != me {
        assert Kept(s, pid);
        KeptBy(s, t, pid, p);
      }
    }
  }

  // A failed allocation, or a child that is not reaped.
  lemma IdleHistory(s: Sys, p: nat, a: Action)
    requires CanStep(s, p, a) && LocksOk(s, p) && History(s)
    requires (a.ForkFail? && !a.cleared) || (a.WaitCheck? && !(a.copied && s.procs[s.procs[p].pc.i].st == Zombie))
    ensures History(Do(s, p, a))
  {
    assert forall k: nat :: k < |s.procs| ==> SameId(s, Do(s, p, a), k);
    SameHistory(s, Do(s, p, a));
  }

  lemma StepHistory(s: Sys, p: nat, a: Action)
    requires Inv(s) && Enabled(s, p, a) && History(s)
    ensures Ready(s, p, a) && History(Do(s, p, a))
  {
    InvReady(s, p, a);
    assert ProcOk(s, p);
    var x, j := s.procs[p], Target(s, p, a);
    assert ProcOk(s, j);
    if Quiet(a) {
      QuietHistory(s, p, a);
    } else if a.ForkAlloc? {
      AllocHistory(s, p, j);
    } else if a.ExitFinish? {
      FinishHistory(s, p, j, a.status);
    } else {
      forall q: nat | q < |s.procs| && q != p ensures s.procs[q].pc != Forking(j) { assert ProcOk(s, q); }
      if a.ForkFail? && a.cleared {
        ClearHistory(s, p, j);
      } else if a.WaitCheck? && a.copied && s.procs[j].st == Zombie {
        ReapHistory(s, p, j);
      } else {
        IdleHistory(s, p, a);
      }
    }
  }

  // ---- Runs ----

  datatype Act = Act(p: nat, a: Action)

  // The system as userinit leaves it: init in one slot, all others empty.
  function Boot(n: nat, ini: nat): Sys
    requires ini < n
  {
    Sys(ini, seq(n, _ => FREED)[ini := FREED.(st := Runnable, pid := 1)], seq(n, _ => -1), 2, map[], [])
  }

  // Doing the actions of run one after the other, each when it can happen, leads from s to t.
  ghost predicate Leads(s: Sys, run: seq<Act>, t: Sys) {
    if run == [] then t == s
    else
      var n := |run| - 1;
      exists m :: Leads(s, run[..n], m) && CanStep(m, run[n].p, run[n].a) && t == Do(m, run[n].p, run[n].a)
  }

  lemma BootInv(n: nat, ini: nat)
    requires ini < n
    ensures Inv(Boot(n, ini)) && History(Boot(n, ini))
  {
    var s := Boot(n, ini);
    forall p: nat | p < n ensures ProcOk(s, p) && IdOk(s, p) {}
    forall j: nat, k: nat | j < n && k < n ensures Apart(s, j, k) {}
  }

  lemma {:induction false} RunInv(n: nat, ini: nat, run: seq<Act>, s: Sys)
    requires ini < n && Leads(Boot(n, ini), run, s)
    ensures Inv(s) && History(s) && s.ini == ini && |s.procs| == n
    decreases |run|
  {
    BootInv(n, ini);
    if run != [] {
      var k := |run| - 1;
      var m :| Leads(Boot(n, ini), run[..k], m) && CanStep(m, run[k].p, run[k].a) && s == Do(m, run[k].p, run[k].a);
      RunInv(n, ini, run[..k], m);
      StepInv(m, run[k].p, run[k].a);
      StepHistory(m, run[k].p, run[k].a);
      StepEffect(m, run[k].p, run[k].a);
    }
  }

  // p is asleep in wait.
  predicate Waiting(s: Sys, p: nat) {
    p < |s.procs| && s.procs[p].st == Sleeping && s.procs[p].chan == Own
  }

  /** In every run, a process asleep in wait has no zombie child, with one exception:
      init, and only a child that some other process forked. */
  lemma NoLostWakeup(n: nat, ini: nat, run: seq<Act>, s: Sys, p: nat, j: nat)
    requires ini < n && Leads(Boot(n, ini), run, s)
    requires Waiting(s, p) && j < |s.procs| && s.procs[j].st == Zombie && s.procs[j].parent == p
    ensures p == ini && s.procs[j].born != ini
  {
    RunInv(n, ini, run, s);
    assert ProcOk(s, p);
    assert !Missed(s, p, Seen(s, p), j);
  }

  /** In every run, every process but init has a parent that is neither freed nor a
      zombie, and it is the one that forked it or init. */
  lemma ParentsLive(n: nat, ini: nat, run: seq<Act>, s: Sys, j: nat)
    requires ini < n && Leads(Boot(n, ini), run, s)
    requires j < |s.procs| && j != ini && s.procs[j].st != Unused
    ensures var x := s.procs[j];
      Live(s, x.parent) && (x.parent == x.born || x.parent == ini)
  {
    RunInv(n, ini, run, s);
    assert ProcOk(s, j);
  }

  /** In every run, what wait has returned is what exit was given, no process is
      returned twice, and one that has exited is a zombie until it is returned. */
  lemma ReapedOnce(n: nat, ini: nat, run: seq<Act>, s: Sys)
    requires ini < n && Leads(Boot(n, ini), run, s)
    ensures forall i :: 0 <= i < |s.reaped| ==>
      s.reaped[i].pid in s.exited && s.exited[s.reaped[i].pid] == s.reaped[i].status
    ensures forall i, k :: 0 <= i < k < |s.reaped| ==> s.reaped[i].pid != s.reaped[k].pid
    ensures forall pid: nat {:trigger Kept(s, pid)} :: pid in s.exited ==> Kept(s, pid)
  {
    RunInv(n, ini, run, s);
  }

  /** Only the parent reaps, and it reports the pid and status of the child it freed. */
  lemma ReapedByParent(s: Sys, p: nat, a: Action)
    requires Inv(s) && Enabled(s, p, a)
    requires Ready(s, p, a) && Do(s, p, a).reaped != s.reaped
    ensures a.WaitCheck? && s.procs[p].pc.ScanHeld?
    ensures var i := s.procs[p].pc.i; var c := s.procs[i];
      c.parent == p && c.st == Zombie && Do(s, p, a).reaped == s.reaped + [Reap(c.pid, c.xstate)]
  {
  }
}
