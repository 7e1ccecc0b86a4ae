/** init in wait: exactly which steps leave it asleep beside a zombie child, and so in which
    runs of kernel/proc.c no process misses a child. */
module InitAwake {
  import opened ProcWait
  import opened ProcReap

  // A zombie for init to reap.
  predicate Left(s: Sys, j: nat) {
    j < |s.procs| && s.procs[j].st == Zombie && s.procs[j].parent == s.ini
  }

  predicate Leaves(s: Sys) {
    exists j: nat :: j < |s.procs| && Left(s, j)
  }

  predicate Awake(s: Sys) {
    Waiting(s, s.ini) ==> !Leaves(s)
  }

  /** The steps by which init misses a child: another process gives it a zombie while it
      sleeps; a process that init adopted exits, waking the parent it had before; or init
      goes to sleep although a child it adopted behind its scan is a zombie. */
  predicate Misses(s: Sys, p: nat, a: Action)
    requires CanStep(s, p, a)
  {
    var x := s.procs[p];
    match a
    case ReparentMove => Waiting(s, s.ini) && s.procs[x.pc.i].st == Zombie
    case ExitFinish(_) => Waiting(s, s.ini) && x.parent == s.ini && x.pc.op != s.ini
    case WaitScan => p == s.ini && x.pc.i == |s.procs| && x.pc.kids && !x.killed && Leaves(s)
    case _ => false
  }

  // No new sleep of init's and no new zombie for it.
  ghost predicate Calm(s: Sys, t: Sys) {
    && (Waiting(t, t.ini) ==> Waiting(s, s.ini))
    && forall j: nat :: Left(t, j) ==> Left(s, j)
  }

  lemma CalmAwake(s: Sys, t: Sys)
    requires Calm(s, t) && Awake(s)
    ensures Awake(t)
  {
  }

  predicate Tells(a: Action) { a.ReparentMove? || a.ExitFinish? || a.WaitScan? }

  lemma SchedCalm(s: Sys, p: nat, a: Action)
    requires CanStep(s, p, a) && Local(s, p) && Local(s, s.ini) && (Sched(a) || Wakes(a) || Kills(a))
    ensures Calm(s, Do(s, p, a))
  {
  }

  lemma ForkCalm(s: Sys, p: nat, a: Action)
    requires CanStep(s, p, a) && Local(s, p) && Local(s, s.ini) && Fork(a)
    ensures Calm(s, Do(s, p, a))
  {
  }

  lemma WaitCalm(s: Sys, p: nat, a: Action)
    requires CanStep(s, p, a) && Local(s, p) && Local(s, s.ini) && (Wait(a) || Check(a)) && !Tells(a)
    ensures Calm(s, Do(s, p, a))
  {
  }

  lemma ExitCalm(s: Sys, p: nat, a: Action)
    requires CanStep(s, p, a) && Local(s, p) && Local(s, s.ini) && (Exit(a) || a.ReparentScan?)
    ensures Calm(s, Do(s, p, a))
  {
  }

  lemma MoveAwake(s: Sys, p: nat, a: Action)
    requires CanStep(s, p, a) && Local(s, p) && Local(s, s.ini) && a.ReparentMove? && Awake(s)
    ensures Awake(Do(s, p, a)) <==> !Misses(s, p, a)
  {
    var t, i := Do(s, p, a), s.procs[p].pc.i;
    if Misses(s, p, a) {
      assert Left(t, i);
    } else {
      assert forall j: nat :: Left(t, j) && j != i ==> Left(s, j);
    }
  }

  lemma FinishAwake(s: Sys, p: nat, a: Action)
    requires CanStep(s, p, a) && Local(s, p) && Local(s, s.ini) && a.ExitFinish? && Awake(s)
    ensures Awake(Do(s, p, a)) <==> !Misses(s, p, a)
  {
    var t := Do(s, p, a);
    if Misses(s, p, a) {
      assert Left(t, p);
    } else {
      assert forall j: nat :: Left(t, j) && j != p ==> Left(s, j);
    }
  }

  lemma ScanAwake(s: Sys, p: nat, a: Action)
    requires CanStep(s, p, a) && Local(s, p) && Local(s, s.ini) && a.WaitScan? && Awake(s)
    ensures Awake(Do(s, p, a)) <==> !Misses(s, p, a)
  {
    var t := Do(s, p, a);
    assert forall j: nat :: Left(t, j) <==> Left(s, j);
  }

  /** A step leaves init awake, or without a zombie child, exactly unless it is one of
      those. */
  lemma StepAwake(s: Sys, p: nat, a: Action)
    requires Inv(s) && CanStep(s, p, a) && Awake(s)
    ensures Awake(Do(s, p, a)) <==> !Misses(s, p, a)
  {
    assert ProcOk(s, p) && ProcOk(s, s.ini);
    if a.ReparentMove? {
      MoveAwake(s, p, a);
    } else if a.ExitFinish? {
      FinishAwake(s, p, a);
    } else if a.WaitScan? {
      ScanAwake(s, p, a);
    } else {
      if Sched(a) || Wakes(a) || Kills(a) { SchedCalm(s, p, a); }
      else if Fork(a) { ForkCalm(s, p, a); }
      else if Wait(a) || Check(a) { WaitCalm(s, p, a); }
      else { ExitCalm(s, p, a); }
      CalmAwake(s, Do(s, p, a));
    }
  }

  // ---- Runs ----

  // The states of a run and the actions between them.
  ghost predicate Trace(n: nat, ini: nat, tr: seq<Sys>, acts: seq<Act>) {
    && ini < n && |tr| == |acts| + 1 && tr[0] == Boot(n, ini)
    && forall i {:trigger acts[i]} :: 0 <= i < |acts| ==>
         CanStep(tr[i], acts[i].p, acts[i].a) && tr[i + 1] == Do(tr[i], acts[i].p, acts[i].a)
  }

  lemma {:induction false} TraceLeads(n: nat, ini: nat, tr: seq<Sys>, acts: seq<Act>, k: nat)
    requires Trace(n, ini, tr, acts) && k < |tr|
    ensures Leads(Boot(n, ini), acts[..k], tr[k]) && Inv(tr[k]) && tr[k].ini == ini
    decreases k
  {
    if k > 0 {
      TraceLeads(n, ini, tr, acts, k - 1);
      assert acts[..k][..k - 1] == acts[..k - 1] && acts[..k][k - 1] == acts[k - 1];
    }
    RunInv(n, ini, acts[..k], tr[k]);
  }

  lemma {:induction false} AwakeSoFar(n: nat, ini: nat, tr: seq<Sys>, acts: seq<Act>, k: nat)
    requires Trace(n, ini, tr, acts) && k < |tr|
    requires forall i {:trigger acts[i]} :: 0 <= i < k ==> !Misses(tr[i], acts[i].p, acts[i].a)
    ensures Awake(tr[k])
    decreases k
  {
    if k > 0 {
      AwakeSoFar(n, ini, tr, acts, k - 1);
      TraceLeads(n, ini, tr, acts, k - 1);
      StepAwake(tr[k - 1], acts[k - 1].p, acts[k - 1].a);
    }
  }

  /** The exact condition over a run: init is never asleep in wait with a zombie child if
      and only if no step of the run is one by which it misses a child. */
  lemma AwakeExactly(n: nat, ini: nat, tr: seq<Sys>, acts: seq<Act>)
    requires Trace(n, ini, tr, acts)
    ensures (forall k :: 0 <= k < |tr| ==> Awake(tr[k]))
      <==> forall i {:trigger acts[i]} :: 0 <= i < |acts| ==> !Misses(tr[i], acts[i].p, acts[i].a)
  {
    if forall k :: 0 <= k < |tr| ==> Awake(tr[k]) {
      forall i | 0 <= i < |acts| ensures !Misses(tr[i], acts[i].p, acts[i].a) {
        TraceLeads(n, ini, tr, acts, i);
        StepAwake(tr[i], acts[i].p, acts[i].a);
        assert Awake(tr[i + 1]);
      }
    }
    if forall i {:trigger acts[i]} :: 0 <= i < |acts| ==> !Misses(tr[i], acts[i].p, acts[i].a) {
      forall k: nat | k < |tr| ensures Awake(tr[k]) { AwakeSoFar(n, ini, tr, acts, k); }
    }
  }

  /** In every run without such a step no process at all sleeps in wait beside a zombie
      child. */
  lemma NobodyMisses(n: nat, ini: nat, tr: seq<Sys>, acts: seq<Act>, k: nat, p: nat, j: nat)
    requires Trace(n, ini, tr, acts) && k < |tr|
    requires forall i {:trigger acts[i]} :: 0 <= i < |acts| ==> !Misses(tr[i], acts[i].p, acts[i].a)
    requires Waiting(tr[k], p) && j < |tr[k].procs| && tr[k].procs[j].st == Zombie
    ensures tr[k].procs[j].parent != p
  {
    AwakeSoFar(n, ini, tr, acts, k);
    TraceLeads(n, ini, tr, acts, k);
    if tr[k].procs[j].parent == p {
      NoLostWakeup(n, ini, acts[..k], tr[k], p, j);
      assert Left(tr[k], j);
    }
  }
}
