/** exit's comment that init may miss a wakeup, as a run: init sleeps in wait with a
    zombie child it adopted and nobody left to wake it. */
module InitWakeup {
  import opened ProcWait
  import opened ProcReap
  import InitAwake

  // Slots 0 to 3 are init, its child, grandchild and great-grandchild.
  function Family(x0: Proc, x1: Proc, x2: Proc, x3: Proc, lock: seq<int>, nextpid: nat, exited: map<nat, int>): Sys {
    Sys(0, [x0, x1, x2, x3], lock, nextpid, exited, [])
  }

  function InitProc(st: Run, chan: Chan, pc: Pc): Proc {
    Proc(st, -1, chan, false, 0, 1, pc, -1)
  }

  function Kid(st: Run, parent: int, pid: nat, pc: Pc, born: int): Proc {
    Proc(st, parent, NoChan, false, 0, pid, pc, born)
  }

  ghost predicate Reachable(s: Sys) {
    exists run :: Leads(Boot(4, 0), run, s)
  }

  // One step, field by field.
  predicate Goes(s: Sys, x: Act, t: Sys) {
    && CanStep(s, x.p, x.a)
    && var u := Do(s, x.p, x.a);
    && u.ini == t.ini && u.procs == t.procs && u.lock == t.lock && u.nextpid == t.nextpid
    && u.exited == t.exited && u.reaped == t.reaped
  }

  lemma Then(s: Sys, x: Act, t: Sys)
    requires Reachable(s) && Goes(s, x, t)
    ensures Reachable(t)
  {
    var run :| Leads(Boot(4, 0), run, s);
    var run' := run + [x];
    assert run'[..|run'| - 1] == run;
    assert Leads(Boot(4, 0), run', t);
  }

  lemma Two(s0: Sys, x0: Act, s1: Sys, x1: Act, s2: Sys)
    requires Goes(s0, x0, s1) && Goes(s1, x1, s2)
    ensures Reachable(s0) ==> Reachable(s2)
  {
    if Reachable(s0) {
      Then(s0, x0, s1);
      Then(s1, x1, s2);
    }
  }

  lemma Three(s0: Sys, x0: Act, s1: Sys, x1: Act, s2: Sys, x2: Act, s3: Sys)
    requires Goes(s0, x0, s1) && Goes(s1, x1, s2) && Goes(s2, x2, s3)
    ensures Reachable(s0) ==> Reachable(s3)
  {
    if Reachable(s0) {
      Then(s0, x0, s1);
      Then(s1, x1, s2);
      Then(s2, x2, s3);
    }
  }

  // Five steps: x[i] leads from s[i] to s[i + 1].
  lemma Five(s0: Sys, x0: Act, s1: Sys, x1: Act, s2: Sys, x2: Act, s3: Sys, x3: Act, s4: Sys, x4: Act, s5: Sys)
    requires Goes(s0, x0, s1) && Goes(s1, x1, s2) && Goes(s2, x2, s3) && Goes(s3, x3, s4) && Goes(s4, x4, s5)
    ensures Reachable(s0) ==> Reachable(s5)
  {
    if Reachable(s0) {
      Then(s0, x0, s1);
      Then(s1, x1, s2);
      Then(s2, x2, s3);
      Then(s3, x3, s4);
      Then(s4, x4, s5);
    }
  }

  // The four of them, at rest or at some place in the kernel.
  function InitAt(pc: Pc): Proc { InitProc(Running, NoChan, pc) }
  function GrandAt(pc: Pc): Proc { Kid(Running, 1, 3, pc, 1) }
  function GreatAt(pc: Pc): Proc { Kid(Running, 2, 4, pc, 2) }

  const INIT := InitAt(User)
  const ASLEEP := InitProc(Sleeping, Own, WaitSleep)
  const CHILD := Kid(Running, 0, 2, User, 0)
  const GRAND := GrandAt(User)
  const GREAT := GreatAt(User)
  const GONE := Kid(Zombie, 2, 4, Dead, 2)
  const ADOPTED := Kid(Zombie, 0, 4, Dead, 2)
  const FREE: seq<int> := [-1, -1, -1, -1]
  const ONE: map<nat, int> := map[4 := 0]
  const TWO: map<nat, int> := map[3 := 0, 4 := 0]

  const S0 := Family(InitProc(Runnable, NoChan, User), FREED, FREED, FREED, FREE, 2, map[])
  const S1 :=
    Family(INIT, Kid(Running, 0, 2, Forking(2), 0), Kid(Unused, -1, 3, User, -1), FREED, [-1, -1, 1, -1], 4, map[])
  const S2 := Family(INIT, CHILD, GRAND, GREAT, FREE, 5, map[])
  const S3 := Family(INIT, CHILD, GRAND, GreatAt(Reparent(2, 1)), [-1, -1, 3, 3], 5, map[])
  const S4 := Family(INIT, CHILD, GRAND, GONE, FREE, 5, ONE)
  const S5 := Family(InitAt(ScanHeld(1)), CHILD, GrandAt(ExitRead), GONE, [0, 0, -1, -1], 5, ONE)
  const S6 := Family(ASLEEP, CHILD, GrandAt(ExitRead), GONE, FREE, 5, ONE)
  const S7 := Family(ASLEEP, CHILD, GrandAt(Reparent(1, 2)), GONE, [-1, 2, 2, -1], 5, ONE)
  const S8 := Family(ASLEEP, CHILD, GrandAt(Reparent(1, 4)), ADOPTED, [-1, 2, 2, -1], 5, ONE)
  const S9 := Family(ASLEEP, CHILD, Kid(Zombie, 1, 3, Dead, 1), ADOPTED, FREE, 5, TWO)

  lemma Leg0()
    ensures Reachable(S0) ==> Reachable(S1)
  {
    hide Reachable;
    Five(S0, Act(0, Dispatch), Family(INIT, FREED, FREED, FREED, FREE, 2, map[]),
         Act(0, ForkAlloc(1)),
           Family(InitAt(Forking(1)), Kid(Unused, -1, 2, User, -1), FREED, FREED, [-1, 0, -1, -1], 3, map[]),
         Act(0, ForkDone), Family(INIT, Kid(Runnable, 0, 2, User, 0), FREED, FREED, FREE, 3, map[]),
         Act(1, Dispatch), Family(INIT, CHILD, FREED, FREED, FREE, 3, map[]),
         Act(1, ForkAlloc(2)), S1);
  }

  lemma Leg1()
    ensures Reachable(S1) ==> Reachable(S2)
  {
    hide Reachable;
    Five(S1, Act(1, ForkDone), Family(INIT, CHILD, Kid(Runnable, 1, 3, User, 1), FREED, FREE, 4, map[]),
         Act(2, Dispatch), Family(INIT, CHILD, GRAND, FREED, FREE, 4, map[]),
         Act(2, ForkAlloc(3)),
           Family(INIT, CHILD, GrandAt(Forking(3)), Kid(Unused, -1, 4, User, -1), [-1, -1, -1, 2], 5, map[]),
         Act(2, ForkDone), Family(INIT, CHILD, GRAND, Kid(Runnable, 2, 4, User, 2), FREE, 5, map[]),
         Act(3, Dispatch), S2);
  }

  lemma Leg2()
    ensures Reachable(S2) ==> Reachable(S3)
  {
    hide Reachable;
    Five(S2, Act(3, ExitBegin), Family(INIT, CHILD, GRAND, GreatAt(ExitRead), FREE, 5, map[]),
         Act(3, ExitReadParent), Family(INIT, CHILD, GRAND, GreatAt(ExitParent(2)), FREE, 5, map[]),
         Act(3, ExitLockParent), Family(INIT, CHILD, GRAND, GreatAt(ExitSelf(2)), [-1, -1, 3, -1], 5, map[]),
         Act(3, ExitLockSelf), Family(INIT, CHILD, GRAND, GreatAt(Reparent(2, 0)), [-1, -1, 3, 3], 5, map[]),
         Act(3, ReparentScan), S3);
  }

  lemma Leg3()
    ensures Reachable(S3) ==> Reachable(S4)
  {
    hide Reachable;
    Five(S3, Act(3, ReparentScan), Family(INIT, CHILD, GRAND, GreatAt(Reparent(2, 2)), [-1, -1, 3, 3], 5, map[]),
         Act(3, ReparentScan), Family(INIT, CHILD, GRAND, GreatAt(Reparent(2, 3)), [-1, -1, 3, 3], 5, map[]),
         Act(3, ReparentScan), Family(INIT, CHILD, GRAND, GreatAt(Reparent(2, 4)), [-1, -1, 3, 3], 5, map[]),
         Act(3, ExitFinish(0)), Family(INIT, CHILD, GRAND, GONE, [-1, -1, -1, 3], 5, ONE),
         Act(3, SwitchOut), S4);
  }

  lemma Leg4()
    ensures Reachable(S4) ==> Reachable(S5)
  {
    hide Reachable;
    Five(S4, Act(2, ExitBegin), Family(INIT, CHILD, GrandAt(ExitRead), GONE, FREE, 5, ONE),
         Act(0, WaitBegin), Family(InitAt(Scan(0, false)), CHILD, GrandAt(ExitRead), GONE, [0, -1, -1, -1], 5, ONE),
         Act(0, WaitScan), Family(InitAt(Scan(1, false)), CHILD, GrandAt(ExitRead), GONE, [0, -1, -1, -1], 5, ONE),
         Act(0, WaitScan),
           Family(InitAt(ScanLock(1, false)), CHILD, GrandAt(ExitRead), GONE, [0, -1, -1, -1], 5, ONE),
         Act(0, WaitLock), S5);
  }

  lemma Leg5()
    ensures Reachable(S5) ==> Reachable(S6)
  {
    hide Reachable;
    Five(S5, Act(0, WaitCheck(true)),
           Family(InitAt(Scan(2, true)), CHILD, GrandAt(ExitRead), GONE, [0, -1, -1, -1], 5, ONE),
         Act(0, WaitScan), Family(InitAt(Scan(3, true)), CHILD, GrandAt(ExitRead), GONE, [0, -1, -1, -1], 5, ONE),
         Act(0, WaitScan), Family(InitAt(Scan(4, true)), CHILD, GrandAt(ExitRead), GONE, [0, -1, -1, -1], 5, ONE),
         Act(0, WaitScan), Family(ASLEEP, CHILD, GrandAt(ExitRead), GONE, [0, -1, -1, -1], 5, ONE),
         Act(0, SwitchOut), S6);
  }

  lemma Leg6()
    ensures Reachable(S6) ==> Reachable(S7)
  {
    hide Reachable;
    Five(S6, Act(2, ExitReadParent), Family(ASLEEP, CHILD, GrandAt(ExitParent(1)), GONE, FREE, 5, ONE),
         Act(2, ExitLockParent), Family(ASLEEP, CHILD, GrandAt(ExitSelf(1)), GONE, [-1, 2, -1, -1], 5, ONE),
         Act(2, ExitLockSelf), Family(ASLEEP, CHILD, GrandAt(Reparent(1, 0)), GONE, [-1, 2, 2, -1], 5, ONE),
         Act(2, ReparentScan), Family(ASLEEP, CHILD, GrandAt(Reparent(1, 1)), GONE, [-1, 2, 2, -1], 5, ONE),
         Act(2, ReparentScan), S7);
  }

  lemma Leg7()
    ensures Reachable(S7) ==> Reachable(S8)
  {
    hide Reachable;
    Three(S7, Act(2, ReparentScan), Family(ASLEEP, CHILD, GrandAt(Reparent(1, 3)), GONE, [-1, 2, 2, -1], 5, ONE),
          Act(2, ReparentScan), Family(ASLEEP, CHILD, GrandAt(ReparentLock(1, 3)), GONE, [-1, 2, 2, -1], 5, ONE),
          Act(2, ReparentMove), S8);
  }

  lemma Leg8()
    ensures Reachable(S8) ==> Reachable(S9)
  {
    hide Reachable;
    Two(S8, Act(2, ExitFinish(0)), Family(ASLEEP, CHILD, Kid(Zombie, 1, 3, Dead, 1), ADOPTED, [-1, -1, 2, -1], 5, TWO),
        Act(2, SwitchOut), S9);
  }

  predicate Stranded(s: Sys, j: nat) {
    Waiting(s, s.ini) && Free(s, s.ini) && j < |s.procs| && s.procs[j].st == Zombie && s.procs[j].parent == s.ini
  }

  /** A run after which init is asleep in wait, its lock free, with a zombie child. */
  lemma InitMissesWakeup()
    ensures exists run, s: Sys :: Leads(Boot(4, 0), run, s) && Stranded(s, 3) && !InitAwake.Awake(s)
  {
    assert Reachable(S0) by {
      assert Boot(4, 0).procs == S0.procs && Boot(4, 0).lock == S0.lock;
      assert Leads(Boot(4, 0), [], S0);
    }
    Leg0(); Leg1(); Leg2(); Leg3(); Leg4(); Leg5(); Leg6(); Leg7(); Leg8();
    var run :| Leads(Boot(4, 0), run, S9);
    assert Stranded(S9, 3) && InitAwake.Left(S9, 3);
  }
}
