/** exit's comment that locking a parent one has lost is harmless, as a run: three processes in
    exit each hold the lock that the next one wants, for good. */
module ExitDeadlock {
  import opened ProcWait
  import opened ProcReap
  import opened ProcLocks
  import opened InitWakeup

  // Slot 1 is a child of init and, once that is reaped, a child of slot 3's, which it forked
  // into the same slot. Slot 2 is the first one's child, slot 3 the child of slot 2.
  function Kin(x0: Proc, x1: Proc, x2: Proc, x3: Proc, lock: seq<int>, nextpid: nat): Sys {
    Sys(0, [x0, x1, x2, x3], lock, nextpid, map[2 := 0], [Reap(2, 0)])
  }

  function ChildAt(pc: Pc): Proc { Kid(Running, 0, 2, pc, 0) }
  function YoungAt(pc: Pc): Proc { Kid(Running, 3, 5, pc, 3) }

  // Slot 2 in exit, having read its parent, before and after it is given to init.
  const READ := GrandAt(ExitParent(1))
  const LOST := Kid(Running, 0, 3, ExitParent(1), 1)
  const LEFT := Kid(Zombie, 0, 2, Dead, 0)
  const DONE: map<nat, int> := map[2 := 0]

  const D1 := Family(INIT, ChildAt(ExitParent(0)), READ, GREAT, FREE, 5, map[])
  const D2 := Family(INIT, ChildAt(Reparent(0, 2)), READ, GREAT, [1, 1, -1, -1], 5, map[])
  const D3 := Family(INIT, ChildAt(Reparent(0, 4)), LOST, GREAT, [1, 1, -1, -1], 5, map[])
  const D4 := Family(InitAt(Scan(0, false)), LEFT, LOST, GREAT, [0, -1, -1, -1], 5, DONE)
  const D5 := Kin(INIT, FREED, LOST, GREAT, FREE, 5)
  const D6 := Kin(INIT, YoungAt(User), LOST, GREAT, FREE, 6)
  const D7 := Kin(INIT, YoungAt(ExitParent(3)), LOST, GreatAt(ExitParent(2)), FREE, 6)
  const D8 :=
    Kin(INIT, YoungAt(ExitSelf(3)), Kid(Running, 0, 3, ExitSelf(1), 1), GreatAt(ExitSelf(2)), [-1, 2, 3, 1], 6)

  lemma Leg1()
    ensures Reachable(S2) ==> Reachable(D1)
  {
    hide Reachable;
    Two(S2, Act(2, ExitBegin), Family(INIT, CHILD, GrandAt(ExitRead), GREAT, FREE, 5, map[]),
        Act(2, ExitReadParent), Family(INIT, CHILD, READ, GREAT, FREE, 5, map[]));
    Two(Family(INIT, CHILD, READ, GREAT, FREE, 5, map[]),
        Act(1, ExitBegin), Family(INIT, ChildAt(ExitRead), READ, GREAT, FREE, 5, map[]),
        Act(1, ExitReadParent), D1);
  }

  lemma Leg2()
    ensures Reachable(D1) ==> Reachable(D2)
  {
    hide Reachable;
    Two(D1, Act(1, ExitLockParent), Family(INIT, ChildAt(ExitSelf(0)), READ, GREAT, [1, -1, -1, -1], 5, map[]),
        Act(1, ExitLockSelf), Family(INIT, ChildAt(Reparent(0, 0)), READ, GREAT, [1, 1, -1, -1], 5, map[]));
    Two(Family(INIT, ChildAt(Reparent(0, 0)), READ, GREAT, [1, 1, -1, -1], 5, map[]),
        Act(1, ReparentScan), Family(INIT, ChildAt(Reparent(0, 1)), READ, GREAT, [1, 1, -1, -1], 5, map[]),
        Act(1, ReparentScan), D2);
  }

  lemma Leg3()
    ensures Reachable(D2) ==> Reachable(D3)
  {
    hide Reachable;
    Three(D2, Act(1, ReparentScan), Family(INIT, ChildAt(ReparentLock(0, 2)), READ, GREAT, [1, 1, -1, -1], 5, map[]),
          Act(1, ReparentMove), Family(INIT, ChildAt(Reparent(0, 3)), LOST, GREAT, [1, 1, -1, -1], 5, map[]),
          Act(1, ReparentScan), D3);
  }

  lemma Leg4()
    ensures Reachable(D3) ==> Reachable(D4)
  {
    hide Reachable;
    Three(D3, Act(1, ExitFinish(0)), Family(INIT, LEFT, LOST, GREAT, [-1, 1, -1, -1], 5, DONE),
          Act(1, SwitchOut), Family(INIT, LEFT, LOST, GREAT, FREE, 5, DONE),
          Act(0, WaitBegin), D4);
  }

  lemma Leg5()
    ensures Reachable(D4) ==> Reachable(D5)
  {
    hide Reachable;
    Two(D4, Act(0, WaitScan), Family(InitAt(Scan(1, false)), LEFT, LOST, GREAT, [0, -1, -1, -1], 5, DONE),
        Act(0, WaitScan), Family(InitAt(ScanLock(1, false)), LEFT, LOST, GREAT, [0, -1, -1, -1], 5, DONE));
    Two(Family(InitAt(ScanLock(1, false)), LEFT, LOST, GREAT, [0, -1, -1, -1], 5, DONE),
        Act(0, WaitLock), Family(InitAt(ScanHeld(1)), LEFT, LOST, GREAT, [0, 0, -1, -1], 5, DONE),
        Act(0, WaitCheck(true)), D5);
  }

  lemma Leg6()
    ensures Reachable(D5) ==> Reachable(D6)
  {
    hide Reachable;
    Three(D5, Act(3, ForkAlloc(1)),
            Kin(INIT, Kid(Unused, -1, 5, User, -1), LOST, GreatAt(Forking(1)), [-1, 3, -1, -1], 6),
          Act(3, ForkDone), Kin(INIT, Kid(Runnable, 3, 5, User, 3), LOST, GREAT, FREE, 6),
          Act(1, Dispatch), D6);
  }

  lemma Leg7()
    ensures Reachable(D6) ==> Reachable(D7)
  {
    hide Reachable;
    Two(D6, Act(1, ExitBegin), Kin(INIT, YoungAt(ExitRead), LOST, GREAT, FREE, 6),
        Act(1, ExitReadParent), Kin(INIT, YoungAt(ExitParent(3)), LOST, GREAT, FREE, 6));
    Two(Kin(INIT, YoungAt(ExitParent(3)), LOST, GREAT, FREE, 6),
        Act(3, ExitBegin), Kin(INIT, YoungAt(ExitParent(3)), LOST, GreatAt(ExitRead), FREE, 6),
        Act(3, ExitReadParent), D7);
  }

  lemma Leg8()
    ensures Reachable(D7) ==> Reachable(D8)
  {
    hide Reachable;
    Three(D7, Act(1, ExitLockParent), Kin(INIT, YoungAt(ExitSelf(3)), LOST, GreatAt(ExitParent(2)), [-1, -1, -1, 1], 6),
          Act(3, ExitLockParent), Kin(INIT, YoungAt(ExitSelf(3)), LOST, GreatAt(ExitSelf(2)), [-1, -1, 3, 1], 6),
          Act(2, ExitLockParent), D8);
  }

  /** A run from boot into such a knot, one of the three having locked a parent it has lost; by
      KnotStays it is never untied. */
  lemma ExitDeadlocks()
    ensures exists run, s: Sys ::
      Leads(Boot(4, 0), run, s) && Knot(s, 2, 3, 1) && Stale(s, 2) && !CanMove(s, 1) && !CanMove(s, 2) && !CanMove(s, 3)
  {
    assert Reachable(S0) by {
      assert Boot(4, 0).procs == S0.procs && Boot(4, 0).lock == S0.lock;
      assert Leads(Boot(4, 0), [], S0);
    }
    InitWakeup.Leg0(); InitWakeup.Leg1();
    Leg1(); Leg2(); Leg3(); Leg4(); Leg5(); Leg6(); Leg7(); Leg8();
    var run :| Leads(Boot(4, 0), run, D8);
    KnotBlocked(D8, 2, 3, 1);
    assert Knot(D8, 2, 3, 1) && Stale(D8, 2);
  }
}
