/** The log's space budget (kernel/log.c, kernel/param.h, mkfs/mkfs.c).

    begin_op reserves MAXOPBLOCKS blocks per operation. Operations that newly log at
    most MAXOPBLOCKS - 1 blocks never fill the log, in any interleaving: log_write does
    not panic, every commit fits, and a crash at any step is recovered from. */
module LogBudget {
  import opened RedoLog
  import opened LogDevice
  import opened GroupCommit

  // No operation newly logs more than budget blocks.
  predicate Frugal(budget: nat, s: State, step: Step) {
    step.LogAppend? && step.p < |s.procs| && s.procs[step.p].InOp? && s.procs[step.p].pend.Passed? ==>
      s.procs[step.p].pend.bn in s.lh || s.procs[step.p].used < budget
  }

  ghost predicate FrugalRun(L: Layout, budget: nat, s: State, steps: seq<Step>, t: State)
    decreases |steps|
  {
    if steps == [] then t == s
    else
      && Sized(L, s) && Enabled(L, s, steps[0]) && Frugal(budget, s, steps[0])
      && FrugalRun(L, budget, Next(L, s, steps[0]), steps[1..], t)
  }

  const SAFE := MAXOPBLOCKS - 1

  // How many more blocks the operations in progress may add.
  function Slack(procs: seq<Proc>): int {
    if procs == [] then 0
    else (if procs[0].InOp? then SAFE - procs[0].used else 0) + Slack(procs[1..])
  }

  function Ops(procs: seq<Proc>): nat {
    if procs == [] then 0 else (if procs[0].InOp? then 1 else 0) + Ops(procs[1..])
  }

  function SlackOf(q: Proc): int { if q.InOp? then SAFE - q.used else 0 }

  function OpOf(q: Proc): nat { if q.InOp? then 1 else 0 }

  lemma {:induction false} SumUpdate(procs: seq<Proc>, p: nat, q: Proc)
    requires p < |procs|
    ensures Slack(procs[p := q]) == Slack(procs) - SlackOf(procs[p]) + SlackOf(q)
    ensures Ops(procs[p := q]) == Ops(procs) - OpOf(procs[p]) + OpOf(q)
  {
    if p == 0 {
      assert procs[p := q][1..] == procs[1..];
    } else {
      assert procs[p := q][1..] == procs[1..][p - 1 := q];
      SumUpdate(procs[1..], p - 1, q);
    }
  }

  // Changing processes that are not in an operation changes neither sum.
  lemma {:induction false} SumSame(a: seq<Proc>, b: seq<Proc>)
    requires |a| == |b|
    requires forall i :: 0 <= i < |a| ==> a[i] == b[i] || (!a[i].InOp? && !b[i].InOp?)
    ensures Slack(a) == Slack(b) && Ops(a) == Ops(b)
  {
    if a != [] {
      SumSame(a[1..], b[1..]);
    }
  }

  lemma {:induction false} SlackBounds(procs: seq<Proc>)
    requires forall i :: 0 <= i < |procs| && procs[i].InOp? ==> procs[i].used <= SAFE
    ensures 0 <= Slack(procs) <= SAFE * Ops(procs)
    ensures forall i :: 0 <= i < |procs| ==> SlackOf(procs[i]) <= Slack(procs)
    ensures forall i :: 0 <= i < |procs| ==> OpOf(procs[i]) <= Ops(procs)
  {
    if procs != [] {
      SlackBounds(procs[1..]);
      forall i | 0 <= i < |procs|
        ensures SlackOf(procs[i]) <= Slack(procs) && OpOf(procs[i]) <= Ops(procs)
      {
        if i > 0 { assert procs[i] == procs[1..][i - 1]; }
      }
    }
  }

  predicate BudgetInv(s: State) {
    && s.panic.NoPanic?
    && s.outstanding == Ops(s.procs)
    && (forall i :: 0 <= i < |s.procs| && s.procs[i].InOp? ==> s.procs[i].used <= SAFE)
    && |s.lh| + Slack(s.procs) <= LOGSIZE - 2
    && (s.job.NoJob? && s.outstanding == 0 ==> s.lh == [])
    && (s.job.RecoverJob? ==> s.lh == [])
  }

  lemma BudgetBegin(s: State, p: nat)
    requires BudgetInv(s) && p < |s.procs| && s.procs[p].Idle?
    requires s.committing <==> s.job.CommitJob?
    requires !s.job.RecoverJob?
    ensures BudgetInv(DoBegin(s, p))
  {
    hide Slack, Ops;
    SumUpdate(s.procs, p, Asleep);
    SumUpdate(s.procs, p, InOp(0, Nothing));
    SlackBounds(s.procs);
  }

  // The tests pass: the list has at most LOGSIZE - 2 entries.
  lemma BudgetTest(L: Layout, s: State, p: nat, bn: nat, data: Block)
    requires BudgetInv(s) && p < |s.procs| && s.procs[p].InOp? && L.size >= LOGSIZE
    ensures BudgetInv(DoTest(L, s, p, bn, data))
  {
    hide Slack, Ops;
    SlackBounds(s.procs);
    assert OpOf(s.procs[p]) == 1;
    SumUpdate(s.procs, p, InOp(s.procs[p].used, Passed(bn, data)));
  }

  lemma BudgetAppend(s: State, p: nat)
    requires BudgetInv(s) && p < |s.procs| && s.procs[p].InOp? && s.procs[p].pend.Passed?
    requires Frugal(SAFE, s, LogAppend(p))
    requires s.job.NoJob?
    ensures BudgetInv(DoAppend(s, p))
  {
    hide Slack, Ops;
    SlackBounds(s.procs);
    assert OpOf(s.procs[p]) == 1;
    var added := if s.procs[p].pend.bn in s.lh then 0 else 1;
    SumUpdate(s.procs, p, InOp(s.procs[p].used + added, Nothing));
  }

  lemma BudgetEnd(L: Layout, s: State, p: nat)
    requires Sized(L, s) && BudgetInv(s) && p < |s.procs| && s.procs[p].InOp?
    requires !s.committing && s.job.NoJob?
    ensures BudgetInv(DoEnd(L, s, p))
  {
    hide Slack, Ops, Sized, CommitWrites;
    SlackBounds(s.procs);
    assert SlackOf(s.procs[p]) >= 0;
    SumUpdate(s.procs, p, Idle);
    SumUpdate(s.procs, p, Committer);
    SumSame(s.procs[p := Idle], WakeAll(s.procs[p := Idle]));
  }

  lemma BudgetRest(L: Layout, s: State, step: Step)
    requires Sized(L, s) && BudgetInv(s) && Enabled(L, s, step)
    requires !step.BeginOp? && !step.LogTest? && !step.LogAppend? && !step.EndOp?
    ensures BudgetInv(Next(L, s, step))
  {
    var t := Next(L, s, step);
    SlackBounds(s.procs);
    if step.CommitDone? { SumSame(s.procs, t.procs); }
    if step.Crash? { SumAllIdle(t.procs); }
    hide Slack, Ops, RecoverWrites, CanRecover;
  }

  lemma {:induction false} SumAllIdle(procs: seq<Proc>)
    requires forall i :: 0 <= i < |procs| ==> procs[i].Idle?
    ensures Slack(procs) == 0 && Ops(procs) == 0
  {
    if procs != [] {
      SumAllIdle(procs[1..]);
    }
  }

  lemma BudgetStep(L: Layout, s: State, step: Step)
    requires Sized(L, s) && Kernel(s) && BudgetInv(s) && L.size >= LOGSIZE
    requires Enabled(L, s, step) && Frugal(SAFE, s, step)
    ensures BudgetInv(Next(L, s, step)) && Fitting(L, s, step)
  {
    hide BudgetInv, Open, CommitWrites, RecoverWrites;
    assert Fitting(L, s, step) by { BudgetFits(L, s); }
    match step {
      case BeginOp(p) => BudgetBegin(s, p);
      case LogTest(p, bn, data) => BudgetTest(L, s, p, bn, data);
      case LogAppend(p) =>
        OneOpen(s, p);
        BudgetAppend(s, p);
      case EndOp(p) =>
        OneOpen(s, p);
        BudgetEnd(L, s, p);
      case _ => BudgetRest(L, s, step);
    }
  }

  lemma BudgetFits(L: Layout, s: State)
    requires BudgetInv(s) && L.size >= LOGSIZE
    ensures |s.lh| <= LOGSIZE - 2 && |s.lh| <= L.size - 1
  {
    SlackBounds(s.procs);
  }

  lemma {:induction false} FrugalRunInv(L: Layout, s: State, steps: seq<Step>, t: State)
    requires Sized(L, s) && Kernel(s) && BudgetInv(s) && L.size >= LOGSIZE
    requires FrugalRun(L, SAFE, s, steps, t)
    ensures BudgetInv(t) && FittingRun(L, s, steps, t)
    decreases |steps|
  {
    if steps != [] {
      BudgetStep(L, s, steps[0]);
      StepSized(L, s, steps[0]);
      StepKernel(L, s, steps[0]);
      hide BudgetInv, Kernel;
      FrugalRunInv(L, Next(L, s, steps[0]), steps[1..], t);
    }
  }

  lemma {:induction false} FrugalLess(L: Layout, small: nat, budget: nat, s: State, steps: seq<Step>, t: State)
    requires small <= budget && FrugalRun(L, small, s, steps, t)
    ensures FrugalRun(L, budget, s, steps, t)
    decreases |steps|
  {
    if steps != [] {
      FrugalLess(L, small, budget, Next(L, s, steps[0]), steps[1..], t);
    }
  }

  /** With a log of at least LOGSIZE blocks and operations that newly log at most
      MAXOPBLOCKS - 1 blocks, no interleaving panics, lh.n stays at most 28, and
      a crash after any step is recovered from. */
  lemma NoCapacityPanic(L: Layout, init: Disk, s0: State, steps: seq<Step>, s: State)
    requires Init(L, init, s0) && L.size >= LOGSIZE
    requires FrugalRun(L, MAXOPBLOCKS - 1, s0, steps, s)
    ensures s.panic.NoPanic? && |s.lh| <= LOGSIZE - 2 && Consistent(L, init, s)
  {
    InitKernel(L, init, s0);
    SumAllIdle(s0.procs);
    FrugalRunInv(L, s0, steps, s);
    BudgetFits(L, s);
    CrashConsistency(L, init, s0, steps, s);
  }

  // ---- Operations that log few blocks ----

  // The blocks that process p has logged since it last began an operation.
  function OpBlocks(h: seq<Event>, p: nat): set<nat> {
    if h == [] then {}
    else
      var o := OpBlocks(h[..|h| - 1], p);
      var e := h[|h| - 1];
      if e == Begin(p) then {} else if e.Logged? && e.p == p then o + {e.bn} else o
  }

  lemma {:induction false} OpBlocksStep(h: seq<Event>, e: Event, p: nat)
    ensures OpBlocks(h + [e], p)
         == if e == Begin(p) then {} else if e.Logged? && e.p == p then OpBlocks(h, p) + {e.bn} else OpBlocks(h, p)
  {
    assert (h + [e])[..|h|] == h;
  }

  // No operation logs more than budget different blocks, new to the list or not.
  predicate Modest(budget: nat, s: State, step: Step) {
    step.LogAppend? && step.p < |s.procs| && s.procs[step.p].InOp? && s.procs[step.p].pend.Passed? ==>
      |OpBlocks(s.history, step.p) + {s.procs[step.p].pend.bn}| <= budget
  }

  ghost predicate ModestRun(L: Layout, budget: nat, s: State, steps: seq<Step>, t: State)
    decreases |steps|
  {
    if steps == [] then t == s
    else
      && Sized(L, s) && Enabled(L, s, steps[0]) && Modest(budget, s, steps[0])
      && ModestRun(L, budget, Next(L, s, steps[0]), steps[1..], t)
  }

  // What an operation has logged is listed until it ends, and pays for what it has used.
  ghost predicate Counted(procs: seq<Proc>, h: seq<Event>, lh: seq<int>) {
    forall p: nat :: p < |procs| && procs[p].InOp? ==>
      procs[p].used <= |OpBlocks(h, p)| && forall b :: b in OpBlocks(h, p) ==> b in lh
  }

  // A block that is new to the list is new to the operation.
  lemma CountedNew(s: State, p: nat)
    requires Counted(s.procs, s.history, s.lh) && p < |s.procs| && s.procs[p].InOp? && s.procs[p].pend.Passed?
    requires s.procs[p].pend.bn !in s.lh
    ensures s.procs[p].used < |OpBlocks(s.history, p) + {s.procs[p].pend.bn}|
  {
  }

  lemma CountedAppend(s: State, p: nat)
    requires Counted(s.procs, s.history, s.lh) && p < |s.procs| && s.procs[p].InOp? && s.procs[p].pend.Passed?
    ensures var t := DoAppend(s, p); Counted(t.procs, t.history, t.lh)
  {
    hide OpBlocks;
    var bn, data := s.procs[p].pend.bn, s.procs[p].pend.data;
    var o := OpBlocks(s.history, p);
    forall q: nat
      ensures OpBlocks(s.history + [Logged(p, bn, data)], q) == if q == p then o + {bn} else OpBlocks(s.history, q)
    {
      OpBlocksStep(s.history, Logged(p, bn, data), q);
    }
    if bn in o { assert o + {bn} == o; }
  }

  lemma CountedBegin(s: State, p: nat)
    requires Counted(s.procs, s.history, s.lh) && p < |s.procs|
    ensures var t := DoBegin(s, p); Counted(t.procs, t.history, t.lh)
  {
    hide OpBlocks;
    forall q: nat
      ensures OpBlocks(s.history + [Begin(p)], q) == if q == p then {} else OpBlocks(s.history, q)
    {
      OpBlocksStep(s.history, Begin(p), q);
    }
  }

  lemma CountedEnd(L: Layout, s: State, p: nat)
    requires Sized(L, s) && Counted(s.procs, s.history, s.lh) && p < |s.procs|
    ensures var t := DoEnd(L, s, p); Counted(t.procs, t.history, t.lh)
  {
    hide OpBlocks, Sized, CommitWrites;
    forall q: nat ensures OpBlocks(s.history + [End(p)], q) == OpBlocks(s.history, q) {
      OpBlocksStep(s.history, End(p), q);
    }
  }

  lemma CountedStep(L: Layout, s: State, step: Step)
    requires Sized(L, s) && Kernel(s) && Counted(s.procs, s.history, s.lh) && Enabled(L, s, step)
    ensures var t := Next(L, s, step); Counted(t.procs, t.history, t.lh)
  {
    hide OpBlocks, Open, CommitWrites, RecoverWrites, CanRecover;
    match step
    case BeginOp(p) => CountedBegin(s, p);
    case LogAppend(p) => CountedAppend(s, p);
    case EndOp(p) => CountedEnd(L, s, p);
    case CommitDone => assert forall p: nat :: p !in Open(s.history);
    case _ =>
  }

  lemma {:induction false} ModestIsFrugal(L: Layout, budget: nat, s: State, steps: seq<Step>, t: State)
    requires Sized(L, s) && Kernel(s) && Counted(s.procs, s.history, s.lh) && ModestRun(L, budget, s, steps, t)
    ensures FrugalRun(L, budget, s, steps, t)
    decreases |steps|
  {
    if steps != [] {
      hide Kernel, OpBlocks, Counted;
      var step := steps[0];
      StepSized(L, s, step);
      StepKernel(L, s, step);
      CountedStep(L, s, step);
      if step.LogAppend? && s.procs[step.p].pend.bn !in s.lh { CountedNew(s, step.p); }
      ModestIsFrugal(L, budget, Next(L, s, step), steps[1..], t);
    }
  }
}
