/** Runs of the process system (kernel/proc.c) by their own actions: who forked each process,
    what status each one exited with, and that a killed one does not sleep in wait. */
module ProcRecords {
  import opened ProcWait
  import opened ProcReap

  // A run ends in one state.
  lemma {:induction false} LeadsOnce(s: Sys, run: seq<Act>, t: Sys, u: Sys)
    requires Leads(s, run, t) && Leads(s, run, u)
    ensures t == u
    decreases |run|
  {
    if run != [] {
      var k := |run| - 1;
      var m :| Leads(s, run[..k], m) && CanStep(m, run[k].p, run[k].a) && t == Do(m, run[k].p, run[k].a);
      var o :| Leads(s, run[..k], o) && CanStep(o, run[k].p, run[k].a) && u == Do(o, run[k].p, run[k].a);
      LeadsOnce(s, run[..k], m, o);
    }
  }

  // The state before the last action of a run.
  lemma Before(n: nat, ini: nat, run: seq<Act>, s: Sys) returns (m: Sys)
    requires ini < n && Leads(Boot(n, ini), run, s) && run != []
    ensures var k := |run| - 1;
      Leads(Boot(n, ini), run[..k], m) && CanStep(m, run[k].p, run[k].a) && s == Do(m, run[k].p, run[k].a)
  {
    var k := |run| - 1;
    m :| Leads(Boot(n, ini), run[..k], m) && CanStep(m, run[k].p, run[k].a) && s == Do(m, run[k].p, run[k].a);
  }

  // ---- Statuses ----

  // The k-th action of the run, in state m, is the exit of the process pid with status.
  ghost predicate ExitAt(n: nat, ini: nat, run: seq<Act>, pid: nat, status: int, k: nat, m: Sys)
    requires ini < n
  {
    && k < |run| && Leads(Boot(n, ini), run[..k], m) && run[k].a == ExitFinish(status)
    && run[k].p < |m.procs| && m.procs[run[k].p].pid == pid
  }

  ghost predicate Exited(n: nat, ini: nat, run: seq<Act>, pid: nat, status: int)
    requires ini < n
  {
    exists k: nat, m: Sys :: ExitAt(n, ini, run, pid, status, k, m)
  }

  // An exit is recorded with its status, nothing else is, and no record is overwritten.
  lemma StepExited(s: Sys, p: nat, a: Action, pid: nat)
    requires Inv(s) && History(s) && CanStep(s, p, a)
    ensures var t := Do(s, p, a);
      && (a.ExitFinish? && s.procs[p].pid == pid ==> pid !in s.exited && pid in t.exited && t.exited[pid] == a.status)
      && (!(a.ExitFinish? && s.procs[p].pid == pid) ==>
            (pid in t.exited <==> pid in s.exited) && (pid in s.exited ==> t.exited[pid] == s.exited[pid]))
  {
    assert ProcOk(s, p) && IdOk(s, p);
  }

  lemma PrefixExit(n: nat, ini: nat, run: seq<Act>, x: Act, pid: nat, status: int)
    requires ini < n && Exited(n, ini, run, pid, status)
    ensures Exited(n, ini, run + [x], pid, status)
  {
    var k: nat, m: Sys :| ExitAt(n, ini, run, pid, status, k, m);
    assert (run + [x])[..k] == run[..k];
    assert ExitAt(n, ini, run + [x], pid, status, k, m);
  }

  /** In every run the statuses on record, which wait reports, are exactly those that processes
      gave to exit. */
  lemma {:induction false} ExitedAsGiven(n: nat, ini: nat, run: seq<Act>, s: Sys, pid: nat, status: int)
    requires ini < n && Leads(Boot(n, ini), run, s)
    ensures pid in s.exited && s.exited[pid] == status <==> Exited(n, ini, run, pid, status)
    decreases |run|
  {
    if run == [] {
      return;
    }
    var k := |run| - 1;
    var m := Before(n, ini, run, s);
    var x := run[k];
    var pre := run[..k];
    assert run == pre + [x];
    RunInv(n, ini, pre, m);
    StepExited(m, x.p, x.a, pid);
    ExitedAsGiven(n, ini, pre, m, pid, status);
    if Exited(n, ini, pre, pid, status) { PrefixExit(n, ini, pre, x, pid, status); }
    if x.a == ExitFinish(status) && m.procs[x.p].pid == pid { assert ExitAt(n, ini, run, pid, status, k, m); }
    if Exited(n, ini, run, pid, status) { LastExit(n, ini, pre, x, m, pid, status); }
  }

  // An exit of the longer run is its last action or one of the shorter run's.
  lemma LastExit(n: nat, ini: nat, pre: seq<Act>, x: Act, m: Sys, pid: nat, status: int)
    requires ini < n && Leads(Boot(n, ini), pre, m) && Exited(n, ini, pre + [x], pid, status)
    ensures Exited(n, ini, pre, pid, status)
      || (x.a == ExitFinish(status) && x.p < |m.procs| && m.procs[x.p].pid == pid)
  {
    var run := pre + [x];
    var j: nat, o: Sys :| ExitAt(n, ini, run, pid, status, j, o);
    if j < |pre| {
      assert run[..j] == pre[..j];
      assert ExitAt(n, ini, pre, pid, status, j, o);
    } else {
      assert run[..j] == pre;
      LeadsOnce(Boot(n, ini), pre, m, o);
    }
  }

  // ---- Births ----

  // Some action of the run is b's fork of the process pid in slot j.
  ghost predicate ForkAt(n: nat, ini: nat, run: seq<Act>, b: int, j: nat, pid: nat, k: nat, m: Sys)
    requires ini < n
  {
    && k < |run| && Leads(Boot(n, ini), run[..k], m) && run[k].p == b && run[k].a.ForkDone?
    && b < |m.procs| && m.procs[b].pc == Forking(j) && j < |m.procs| && m.procs[j].pid == pid
  }

  ghost predicate Forked(n: nat, ini: nat, run: seq<Act>, b: int, j: nat, pid: nat)
    requires ini < n
  {
    exists k: nat, m: Sys :: ForkAt(n, ini, run, b, j, pid, k, m)
  }

  // A slot in use after a step is the same process as before, or the one just forked.
  predicate SameBirth(s: Sys, t: Sys, p: nat, a: Action, j: nat)
    requires p < |s.procs| && j < |s.procs|
  {
    && |t.procs| == |s.procs|
    && var x, y := s.procs[j], t.procs[j];
    y.st != Unused ==>
      && y.pid == x.pid
      && if x.st != Unused then y.born == x.born else a.ForkDone? && s.procs[p].pc == Forking(j) && y.born == p
  }

  predicate Remakes(a: Action) { Fork(a) || Check(a) }

  lemma RemakeBorn(s: Sys, p: nat, a: Action, j: nat)
    requires CanStep(s, p, a) && LocksOk(s, p) && j < |s.procs| && Remakes(a)
    ensures SameBirth(s, Do(s, p, a), p, a, j)
  {
  }

  lemma OtherBorn(s: Sys, p: nat, a: Action, j: nat)
    requires CanStep(s, p, a) && LocksOk(s, p) && j < |s.procs| && !Remakes(a)
    ensures SameBirth(s, Do(s, p, a), p, a, j)
  {
  }

  lemma PrefixFork(n: nat, ini: nat, run: seq<Act>, x: Act, b: int, j: nat, pid: nat)
    requires ini < n && Forked(n, ini, run, b, j, pid)
    ensures Forked(n, ini, run + [x], b, j, pid)
  {
    var k: nat, m: Sys :| ForkAt(n, ini, run, b, j, pid, k, m);
    assert (run + [x])[..k] == run[..k];
    assert ForkAt(n, ini, run + [x], b, j, pid, k, m);
  }

  // What a reachable state knows of the process that steps.
  lemma Actor(n: nat, ini: nat, run: seq<Act>, s: Sys, p: nat)
    requires ini < n && Leads(Boot(n, ini), run, s) && p < |s.procs|
    ensures Shape(s) && |s.procs| == n && PcShape(s, p) && LocksOk(s, p)
  {
    RunInv(n, ini, run, s);
    assert ProcOk(s, p);
  }

  /** In every run every process but init has been forked by the process its born names. Its
      parent is that one or init. */
  lemma {:induction false} BornByFork(n: nat, ini: nat, run: seq<Act>, s: Sys, j: nat)
    requires ini < n && Leads(Boot(n, ini), run, s) && j < n && j != ini
    requires |s.procs| == n && s.procs[j].st != Unused
    ensures Forked(n, ini, run, s.procs[j].born, j, s.procs[j].pid)
    decreases |run|
  {
    hide Do, PcShape, LocksOk;
    if run == [] {
      return;
    }
    var k := |run| - 1;
    var m := Before(n, ini, run, s);
    var x, pre := run[k], run[..k];
    assert run == pre + [x];
    Actor(n, ini, pre, m, x.p);
    if Remakes(x.a) { RemakeBorn(m, x.p, x.a, j); } else { OtherBorn(m, x.p, x.a, j); }
    if m.procs[j].st != Unused {
      BornByFork(n, ini, pre, m, j);
      PrefixFork(n, ini, pre, x, s.procs[j].born, j, s.procs[j].pid);
    } else {
      assert ForkAt(n, ini, run, x.p, j, s.procs[j].pid, k, m);
    }
  }

  // ---- Killing ----

  // Nobody asleep in wait, or on the way there, has been killed.
  predicate Spared(s: Sys) {
    forall p :: 0 <= p < |s.procs| && s.procs[p].pc.WaitSleep? && s.procs[p].st == Sleeping ==> !s.procs[p].killed
  }

  lemma StepSpared(s: Sys, p: nat, a: Action)
    requires CanStep(s, p, a) && LocksOk(s, p) && Spared(s)
    ensures Spared(Do(s, p, a))
  {
  }

  lemma {:induction false} RunSpared(n: nat, ini: nat, run: seq<Act>, s: Sys)
    requires ini < n && Leads(Boot(n, ini), run, s)
    ensures Spared(s)
    decreases |run|
  {
    if run != [] {
      var k := |run| - 1;
      var m := Before(n, ini, run, s);
      RunSpared(n, ini, run[..k], m);
      RunInv(n, ini, run[..k], m);
      assert ProcOk(m, run[k].p);
      StepSpared(m, run[k].p, run[k].a);
    }
  }

  /** In every run no killed process is asleep in wait: killing it makes it runnable, and it does
      not go to sleep there again. */
  lemma KilledNotWaiting(n: nat, ini: nat, run: seq<Act>, s: Sys, p: nat)
    requires ini < n && Leads(Boot(n, ini), run, s) && Waiting(s, p)
    ensures !s.procs[p].killed
  {
    RunSpared(n, ini, run, s);
    RunInv(n, ini, run, s);
    assert ProcOk(s, p);
  }

  // killed is set by kill alone, which leaves the process not asleep, and cleared with the slot.
  predicate KilledStep(s: Sys, t: Sys, a: Action, j: nat)
    requires j < |s.procs|
  {
    && j < |t.procs|
    && (s.procs[j].killed && t.procs[j] != FREED ==> t.procs[j].killed)
    && (a == Kill(j) ==> t.procs[j].killed && t.procs[j].st != Sleeping)
    && (t.procs[j].killed && !s.procs[j].killed ==> a == Kill(j))
  }

  /** A killed process stays killed until its slot is freed, and kill leaves it not asleep. */
  lemma KillSticks(s: Sys, p: nat, a: Action, j: nat)
    requires CanStep(s, p, a) && LocksOk(s, p) && j < |s.procs|
    ensures KilledStep(s, Do(s, p, a), a, j)
  {
    if Remakes(a) { RemakeKilled(s, p, a, j); } else { OtherKilled(s, p, a, j); }
    hide *;
  }

  lemma RemakeKilled(s: Sys, p: nat, a: Action, j: nat)
    requires CanStep(s, p, a) && LocksOk(s, p) && j < |s.procs| && Remakes(a)
    ensures KilledStep(s, Do(s, p, a), a, j)
  {
  }

  lemma OtherKilled(s: Sys, p: nat, a: Action, j: nat)
    requires CanStep(s, p, a) && LocksOk(s, p) && j < |s.procs| && !Remakes(a)
    ensures KilledStep(s, Do(s, p, a), a, j)
  {
  }

  // ---- Waking ----

  // The steps that wake a process asleep in wait: the exit of a child that has locked it, any
  // exit's wakeup of init, and kill.
  predicate WakesWaiter(s: Sys, p: nat, a: Action, j: nat)
    requires CanStep(s, p, a)
  {
    a == Kill(j) || (a.ExitBegin? && j == s.ini) || (a.ExitFinish? && s.procs[p].pc.op == j)
  }

  /** A sleeper in wait is woken by exactly those steps, and any other sleeper by exactly a wakeup
      of its channel or a kill; a woken one is runnable. */
  lemma WokenExactly(s: Sys, p: nat, a: Action, j: nat)
    requires CanStep(s, p, a) && LocksOk(s, p) && StateOk(s, p) && j < |s.procs| && StateOk(s, j)
    requires s.procs[j].st == Sleeping
    ensures var t := Do(s, p, a);
      && j < |t.procs|
      && (s.procs[j].chan == Own ==> (t.procs[j].st == Runnable <==> WakesWaiter(s, p, a, j)))
      && (s.procs[j].chan == Other ==> (t.procs[j].st == Runnable <==> a == WakeOther(j) || a == Kill(j)))
      && (t.procs[j].st == Runnable || t.procs[j].st == Sleeping)
  {
    if Remakes(a) { RemakeSleeps(s, p, a, j); } else if Reparents(a) || Finish(a) { LeaverSleeps(s, p, a, j); }
  }

  lemma RemakeSleeps(s: Sys, p: nat, a: Action, j: nat)
    requires CanStep(s, p, a) && LocksOk(s, p) && j < |s.procs| && s.procs[j].st == Sleeping && Remakes(a)
    ensures j < |Do(s, p, a).procs| && Do(s, p, a).procs[j].st == Sleeping
  {
  }

  lemma LeaverSleeps(s: Sys, p: nat, a: Action, j: nat)
    requires CanStep(s, p, a) && LocksOk(s, p) && j < |s.procs| && s.procs[j].st == Sleeping
    requires Reparents(a) || Finish(a)
    ensures j < |Do(s, p, a).procs|
    ensures Do(s, p, a).procs[j].st == if a.ExitFinish? && s.procs[p].pc.op == j && s.procs[j].chan == Own
      then Runnable else Sleeping
  {
  }
}
