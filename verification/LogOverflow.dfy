/** What operations of the documented size can do to the log (kernel/log.c).

    Three operations that newly log MAXOPBLOCKS blocks each fill the log to 28. Then
    log_write can panic; or two processes can both pass its tests before either appends,
    and the commit that follows writes one block past the end of the log. So the budget
    that keeps every run safe is MAXOPBLOCKS - 1, and no more. */
module LogOverflow {
  import opened RedoLog
  import opened LogDevice
  import opened GroupCommit
  import opened LogBudget

  lemma {:induction false} Chain(L: Layout, budget: nat, s: State, a: seq<Step>, m: State, b: seq<Step>, t: State)
    requires FrugalRun(L, budget, s, a, m) && FrugalRun(L, budget, m, b, t)
    ensures FrugalRun(L, budget, s, a + b, t)
    decreases |a|
  {
    hide Sized, Frugal, Enabled;
    if a == [] {
      assert a + b == b;
    } else {
      assert (a + b)[1..] == a[1..] + b;
      Chain(L, budget, Next(L, s, a[0]), a[1..], m, b, t);
    }
  }

  // A run with one more step at its end.
  lemma Then(L: Layout, budget: nat, s: State, a: seq<Step>, m: State, step: Step) returns (b: seq<Step>, t: State)
    requires FrugalRun(L, budget, s, a, m) && Sized(L, m) && Enabled(L, m, step) && Frugal(budget, m, step)
    ensures FrugalRun(L, budget, s, b, t) && t == Next(L, m, step) && Sized(L, t)
  {
    t := Next(L, m, step);
    b := a + [step];
    StepSized(L, m, step);
    assert [step][1..] == [];
    Chain(L, budget, s, a, m, [step], t);
  }

  // ---- Filling the log to 28 ----

  // Which process logs the i-th block: ten by the first, nine by each of the others.
  function Owner(i: nat): nat { if i < 10 then 0 else if i < 19 then 1 else 2 }

  function UsedBy(p: nat, k: nat): nat {
    if p == 0 then (if k < 10 then k else 10)
    else if p == 1 then (if k < 10 then 0 else if k < 19 then k - 10 else 9)
    else if k < 19 then 0 else k - 19
  }

  // Three operations have logged the k blocks from base on, with contents x; the disk and
  // the durable history are still d and h.
  predicate Filled(L: Layout, s: State, d: Disk, h: seq<Event>, base: nat, x: Block, k: nat) {
    && Sized(L, s) && s.panic.NoPanic? && s.job.NoJob? && s.outstanding == 3 && !s.committing
    && |s.procs| >= 3
    && (forall p: nat :: p < 3 ==> s.procs[p] == InOp(UsedBy(p, k), Nothing))
    && L.start + L.size < base && base + LOGSIZE <= |s.disk|
    && s.lh == seq(k, i => base + i)
    && (forall b :: b in s.lh ==> s.cache[b] == x)
    && s.disk == d && s.durable == |h| && h <= s.history
  }

  // log_write's tests pass.
  lemma TestOne(L: Layout, budget: nat, s0: State, a: seq<Step>, s: State, p: nat, bn: nat, x: Block)
    returns (b: seq<Step>, t: State)
    requires FrugalRun(L, budget, s0, a, s) && Sized(L, s)
    requires s.panic.NoPanic? && p < |s.procs| && s.procs[p].InOp? && s.procs[p].pend.Nothing?
    requires s.outstanding >= 1 && |s.lh| < LOGSIZE && |s.lh| < L.size - 1 && bn < |s.disk| && !L.InLog(bn)
    ensures FrugalRun(L, budget, s0, b, t) && Sized(L, t)
    ensures t == s.(procs := s.procs[p := InOp(s.procs[p].used, Passed(bn, x))])
  {
    hide Sized, FrugalRun;
    b, t := Then(L, budget, s0, a, s, LogTest(p, bn, x));
  }

  // log_write appends a block that is not listed yet.
  lemma AppendOne(L: Layout, budget: nat, s0: State, a: seq<Step>, s: State, p: nat, bn: nat, x: Block)
    returns (b: seq<Step>, t: State)
    requires FrugalRun(L, budget, s0, a, s) && Sized(L, s)
    requires s.panic.NoPanic? && p < |s.procs| && s.procs[p].InOp? && s.procs[p].pend == Passed(bn, x)
    requires |s.lh| < LOGSIZE && bn !in s.lh && s.procs[p].used < budget
    ensures FrugalRun(L, budget, s0, b, t) && Sized(L, t)
    ensures t == s.(lh := s.lh + [bn], cache := s.cache[bn := x],
                    procs := s.procs[p := InOp(s.procs[p].used + 1, Nothing)],
                    history := s.history + [Logged(p, bn, x)])
  {
    hide Sized, FrugalRun;
    b, t := Then(L, budget, s0, a, s, LogAppend(p));
  }

  // One log_write by process p of the next block, test and append together.
  lemma LogOne(L: Layout, budget: nat, s0: State, a: seq<Step>, s: State, p: nat, bn: nat, x: Block)
    returns (b: seq<Step>, t: State)
    requires FrugalRun(L, budget, s0, a, s) && Sized(L, s)
    requires s.panic.NoPanic? && p < |s.procs| && s.procs[p].InOp? && s.procs[p].pend.Nothing?
    requires s.outstanding >= 1 && |s.lh| < LOGSIZE && |s.lh| < L.size - 1 && bn < |s.disk| && !L.InLog(bn)
    requires bn !in s.lh && s.procs[p].used < budget
    ensures FrugalRun(L, budget, s0, b, t) && Sized(L, t)
    ensures t == s.(lh := s.lh + [bn], cache := s.cache[bn := x],
                    procs := s.procs[p := InOp(s.procs[p].used + 1, Nothing)],
                    history := s.history + [Logged(p, bn, x)])
  {
    hide Sized, FrugalRun;
    b, t := TestOne(L, budget, s0, a, s, p, bn, x);
    var q := InOp(s.procs[p].used + 1, Nothing);
    assert t.procs[p := q] == s.procs[p := q];
    b, t := AppendOne(L, budget, s0, b, t, p, bn, x);
  }

  lemma {:induction false} Fill(L: Layout, budget: nat, s0: State, a: seq<Step>, s: State, d: Disk, h: seq<Event>,
                                base: nat, x: Block, k: nat)
    returns (b: seq<Step>, t: State)
    requires FrugalRun(L, budget, s0, a, s) && Filled(L, s, d, h, base, x, k)
    requires k <= 28 && L.size == LOGSIZE && budget >= MAXOPBLOCKS
    ensures FrugalRun(L, budget, s0, b, t) && Filled(L, t, d, h, base, x, 28)
    decreases 28 - k
  {
    hide FrugalRun, Sized;
    if k == 28 {
      b, t := a, s;
    } else {
      b, t := LogOne(L, budget, s0, a, s, Owner(k), base + k, x);
      FilledMore(L, s, t, d, h, base, x, k);
      b, t := Fill(L, budget, s0, b, t, d, h, base, x, k + 1);
    }
  }

  lemma FilledMore(L: Layout, s: State, t: State, d: Disk, h: seq<Event>, base: nat, x: Block, k: nat)
    requires Filled(L, s, d, h, base, x, k) && k < 28 && Sized(L, t)
    requires var p := Owner(k);
      t == s.(lh := s.lh + [base + k], cache := s.cache[base + k := x],
              procs := s.procs[p := InOp(s.procs[p].used + 1, Nothing)],
              history := s.history + [Logged(p, base + k, x)])
    ensures Filled(L, t, d, h, base, x, k + 1)
  {
    hide Sized;
    assert t.lh == seq(k + 1, i => base + i);
  }

  // An idle log with room behind it, and three processes to use it.
  predicate Ready(L: Layout, s: State, base: nat) {
    && Sized(L, s) && s.panic.NoPanic? && s.job.NoJob? && !s.committing
    && s.outstanding == 0 && s.lh == [] && s.durable <= |s.history| && L.size == LOGSIZE
    && |s.procs| >= 3 && (forall p :: 0 <= p < 3 ==> s.procs[p].Idle?)
    && L.start + L.size < base && base + LOGSIZE <= |s.disk|
  }

  lemma FillFromIdle(L: Layout, budget: nat, s0: State, a: seq<Step>, s: State, base: nat, x: Block)
    returns (b: seq<Step>, t: State)
    requires FrugalRun(L, budget, s0, a, s) && Ready(L, s, base) && budget >= MAXOPBLOCKS
    ensures FrugalRun(L, budget, s0, b, t) && Filled(L, t, s.disk, s.history[..s.durable], base, x, 28)
  {
    hide FrugalRun, Sized, Filled;
    b, t := BeginThree(L, budget, s0, a, s, base, x);
    b, t := Fill(L, budget, s0, b, t, s.disk, s.history[..s.durable], base, x, 0);
  }

  lemma BeginThree(L: Layout, budget: nat, s0: State, a: seq<Step>, s: State, base: nat, x: Block)
    returns (b: seq<Step>, t: State)
    requires FrugalRun(L, budget, s0, a, s) && Ready(L, s, base)
    ensures FrugalRun(L, budget, s0, b, t) && Filled(L, t, s.disk, s.history[..s.durable], base, x, 0)
  {
    hide FrugalRun, Sized;
    b, t := BeginNext(L, budget, s0, a, s, 0);
    b, t := BeginNext(L, budget, s0, b, t, 1);
    b, t := BeginNext(L, budget, s0, b, t, 2);
  }

  lemma BeginNext(L: Layout, budget: nat, s0: State, a: seq<Step>, s: State, p: nat)
    returns (b: seq<Step>, t: State)
    requires FrugalRun(L, budget, s0, a, s) && Sized(L, s) && s.panic.NoPanic? && s.job.NoJob? && !s.committing
    requires s.lh == [] && s.outstanding == p < 3 && p < |s.procs| && s.procs[p].Idle?
    ensures FrugalRun(L, budget, s0, b, t) && Sized(L, t)
    ensures t == s.(procs := s.procs[p := InOp(0, Nothing)], outstanding := p + 1, history := s.history + [Begin(p)])
  {
    hide FrugalRun, Sized;
    b, t := Then(L, budget, s0, a, s, BeginOp(p));
  }

  /** The documented maximum is not safe: with a budget of MAXOPBLOCKS new blocks an
      operation, any idle log can be brought to log_write's panic. */
  lemma FullBudgetCanPanic(L: Layout, budget: nat, s0: State, a: seq<Step>, s: State, base: nat)
    returns (b: seq<Step>, t: State)
    requires FrugalRun(L, budget, s0, a, s) && Ready(L, s, base) && budget >= MAXOPBLOCKS
    ensures FrugalRun(L, budget, s0, b, t) && t.panic.TooBig?
  {
    hide FrugalRun, Sized;
    var x: Block := seq(BLOCK_WORDS, _ => 0);
    b, t := FillFromIdle(L, budget, s0, a, s, base, x);
    b, t := LogOne(L, budget, s0, b, t, 1, base + 28, x);
    b, t := Then(L, budget, s0, b, t, LogTest(2, base + 29, x));
  }

  // ---- Overflowing the log ----

  // The list has outgrown the log, with contents x in the slot after its end.
  predicate Overfull(L: Layout, s: State, d: Disk, h: seq<Event>, x: Block) {
    && Sized(L, s) && s.panic.NoPanic? && s.job.NoJob? && !s.committing
    && |s.procs| >= 3 && s.outstanding == 3 && (forall p :: 0 <= p < 3 ==> s.procs[p] == InOp(10, Nothing))
    && |s.lh| == LOGSIZE && s.lh[29] in s.cache && s.cache[s.lh[29]] == x
    && s.disk == d && s.durable == |h| && h <= s.history
  }

  // Two processes pass the tests at 28 before either appends.
  lemma Overfill(L: Layout, budget: nat, s0: State, a: seq<Step>, s: State, d: Disk, h: seq<Event>, base: nat, x: Block)
    returns (b: seq<Step>, t: State)
    requires FrugalRun(L, budget, s0, a, s) && Filled(L, s, d, h, base, x, 28)
    requires L.size == LOGSIZE && budget >= MAXOPBLOCKS
    ensures FrugalRun(L, budget, s0, b, t) && Overfull(L, t, d, h, x)
  {
    hide FrugalRun, Sized;
    b, t := TestOne(L, budget, s0, a, s, 1, base + 28, x);
    b, t := TestOne(L, budget, s0, b, t, 2, base + 29, x);
    b, t := AppendOne(L, budget, s0, b, t, 1, base + 28, x);
    b, t := AppendOne(L, budget, s0, b, t, 2, base + 29, x);
  }

  // A commit of data over the disk d, pos of whose slots are written.
  ghost predicate Copying(L: Layout, s: State, d: Disk, h: seq<Event>, data: seq<Block>, pos: nat) {
    && Sized(L, s) && s.panic.NoPanic? && s.lh != []
    && |s.disk| == |d| && L.Fits(d) && |data| == |s.lh| && pos <= |s.lh|
    && s.job == CommitJob(d, CommitWrites(L, d, s.lh, data), pos)
    && s.disk[L.start] == d[L.start]
    && (forall i :: 0 <= i < pos ==> s.disk[L.start + 1 + i] == data[i])
    && s.durable == |h| && h <= s.history
  }

  lemma CopyOne(L: Layout, s: State, d: Disk, h: seq<Event>, data: seq<Block>, pos: nat)
    requires Copying(L, s, d, h, data, pos) && pos < |s.lh|
    ensures Enabled(L, s, CommitWrite) && Copying(L, Next(L, s, CommitWrite), d, h, data, pos + 1)
  {
    hide Sized, CommitWrites;
    SlotPlan(L, s, d, data, pos);
    StepSized(L, s, CommitWrite);
  }

  // The first writes of a commit go to the log slots.
  lemma SlotPlan(L: Layout, s: State, d: Disk, data: seq<Block>, pos: nat)
    requires Sized(L, s) && |s.disk| == |d| && L.Fits(d) && |data| == |s.lh| && pos < |s.lh|
    ensures L.start + 1 + |s.lh| <= |d|
    ensures var ws := CommitWrites(L, d, s.lh, data);
      pos < |ws| && ws[pos] == Write(L.start + 1 + pos, data[pos])
  {
  }

  lemma {:induction false} CopyAll(L: Layout, budget: nat, s0: State, a: seq<Step>, s: State, d: Disk, h: seq<Event>,
                                   data: seq<Block>, pos: nat)
    returns (b: seq<Step>, t: State)
    requires FrugalRun(L, budget, s0, a, s) && Copying(L, s, d, h, data, pos)
    ensures FrugalRun(L, budget, s0, b, t) && t.lh == s.lh && Copying(L, t, d, h, data, |s.lh|)
    decreases |s.lh| - pos
  {
    if pos == |s.lh| {
      b, t := a, s;
    } else {
      CopyOne(L, s, d, h, data, pos);
      hide FrugalRun, Sized, CommitWrites;
      b, t := Then(L, budget, s0, a, s, CommitWrite);
      b, t := CopyAll(L, budget, s0, b, t, d, h, data, pos + 1);
    }
  }

  // The slots are full and the header is not written: recovery leaves the block after the log.
  lemma CopiedPast(L: Layout, init: Disk, t: State, d: Disk, h: seq<Event>, data: seq<Block>)
    requires Copying(L, t, d, h, data, |t.lh|) && |t.lh| >= L.size
    requires Bootable(L, d) && ReadHeader(d[L.start]) == [] && |init| == |d| && HistoryFits(L, |init|, h)
    requires Meaning(L, d) == Replay(L, init, h) && data[L.size - 1] != d[L.start + L.size]
    ensures t.disk[L.start + L.size] == data[L.size - 1] && !Consistent(L, init, t)
  {
    var b := L.start + L.size;
    assert t.disk[L.start + 1 + (L.size - 1)] == data[L.size - 1];
    assert t.history[..t.durable] == h;
    var ws := RecoverWrites(L, t.disk);
    assert ws == [Write(L.start, PutHeader(t.disk[L.start], []))];
    assert ws[..0] == [];
    EmptyIsMeaning(L, d);
    hide Meaning, Replay, RecoverWrites, CommitWrites;
    assert Apply(t.disk, ws)[b] == t.disk[b];
    assert Replay(L, init, h)[b] == d[b];
  }

  // All three operations end, and the last one starts to commit.
  lemma EndAll(L: Layout, budget: nat, s0: State, a: seq<Step>, s: State, d: Disk, h: seq<Event>, x: Block)
    returns (b: seq<Step>, t: State, data: seq<Block>)
    requires FrugalRun(L, budget, s0, a, s) && Overfull(L, s, d, h, x)
    ensures FrugalRun(L, budget, s0, b, t) && Copying(L, t, d, h, data, 0)
    ensures |t.lh| == LOGSIZE && data[29] == x
  {
    assert L.Fits(d);
    hide FrugalRun, Sized, CommitWrites;
    b, t := Then(L, budget, s0, a, s, EndOp(0));
    b, t := Then(L, budget, s0, b, t, EndOp(1));
    b, t := Then(L, budget, s0, b, t, EndOp(2));
    data := CachedData(s.cache, s.lh);
  }

  /** With a budget of MAXOPBLOCKS new blocks an operation, any idle log can be brought
      to a commit that overwrites the home block after the log: no operation logged it,
      no header names it, and recovery does not restore it. */
  lemma FullBudgetOverwrites(L: Layout, budget: nat, init: Disk, s0: State, a: seq<Step>, s: State, base: nat)
    returns (b: seq<Step>, t: State)
    requires FrugalRun(L, budget, s0, a, s) && Ready(L, s, base) && Inv(L, init, s) && budget >= MAXOPBLOCKS
    ensures FrugalRun(L, budget, s0, b, t) && |t.disk| == |s.disk|
    ensures t.disk[L.start + L.size] != s.disk[L.start + L.size] && t.durable == s.durable
    ensures !Consistent(L, init, t)
  {
    var d, h := s.disk, s.history[..s.durable];
    var x := Other(d[L.start + L.size]);
    hide FrugalRun, Sized, Meaning, Replay, CommitWrites, Consistent, Filled, Overfull, Kernel, Bootable;
    b, t := FillFromIdle(L, budget, s0, a, s, base, x);
    b, t := Overfill(L, budget, s0, b, t, d, h, base, x);
    var data;
    b, t, data := EndAll(L, budget, s0, b, t, d, h, x);
    b, t := CopyAll(L, budget, s0, b, t, d, h, data, 0);
    CopiedPast(L, init, t, d, h, data);
  }

  function Other(b: Block): (r: Block)
    ensures r != b
  {
    var r: Block := if b[0] == 0 then seq(BLOCK_WORDS, _ => 1) else seq(BLOCK_WORDS, _ => 0);
    assert r[0] != b[0];
    r
  }

  // ---- The exact budget ----

  // No run of operations that newly log at most budget blocks panics, on mkfs's log.
  ghost predicate PanicFree(budget: nat) {
    forall L: Layout, init: Disk, s0: State, steps: seq<Step>, s: State ::
      Init(L, init, s0) && L.size == LOGSIZE && FrugalRun(L, budget, s0, steps, s) ==> s.panic.NoPanic?
  }

  // A crash after any step of any such run is recovered from.
  ghost predicate CrashSafe(budget: nat) {
    forall L: Layout, init: Disk, s0: State, steps: seq<Step>, s: State ::
      Init(L, init, s0) && L.size == LOGSIZE && FrugalRun(L, budget, s0, steps, s) ==> Consistent(L, init, s)
  }

  lemma SmallBudgetRun(L: Layout, budget: nat, init: Disk, s0: State, steps: seq<Step>, s: State)
    requires Init(L, init, s0) && L.size == LOGSIZE && FrugalRun(L, budget, s0, steps, s)
    requires budget <= MAXOPBLOCKS - 1
    ensures s.panic.NoPanic? && Consistent(L, init, s)
  {
    hide *;
    FrugalLess(L, budget, MAXOPBLOCKS - 1, s0, steps, s);
    NoCapacityPanic(L, init, s0, steps, s);
  }

  lemma SmallBudget(budget: nat)
    requires budget <= MAXOPBLOCKS - 1
    ensures PanicFree(budget) && CrashSafe(budget)
  {
    hide Init, FrugalRun, Consistent;
    forall L: Layout, init: Disk, s0: State, steps: seq<Step>, s: State
      | Init(L, init, s0) && L.size == LOGSIZE && FrugalRun(L, budget, s0, steps, s)
      ensures s.panic.NoPanic? && Consistent(L, init, s)
    {
      SmallBudgetRun(L, budget, init, s0, steps, s);
    }
  }

  // Three processes boot on a blank disk with mkfs's log.
  lemma BlankInit() returns (L: Layout, init: Disk, s0: State)
    ensures Init(L, init, s0) && L.size == LOGSIZE && L.start + L.size + 1 + LOGSIZE <= |s0.disk|
    ensures |s0.procs| == 3 && |s0.job.plan| == 1
  {
    L := Layout(2, LOGSIZE);
    var zero: Block := seq(BLOCK_WORDS, _ => 0);
    var d: Disk := seq(100, _ => zero);
    assert ReadHeader(d[L.start]) == [];
    init := Meaning(L, d);
    s0 := State(d, [], map[], [Idle, Idle, Idle], 0, false, NoPanic, RecoverJob(d, RecoverWrites(L, d), 0), [], 0);
    assert forall p :: 0 <= p < 3 ==> s0.procs[p].Idle?;
    assert |s0.job.plan| == 1;
    hide Meaning, RecoverWrites;
  }

  // Their recovery finishes.
  lemma Booted(budget: nat) returns (L: Layout, init: Disk, s0: State, a: seq<Step>, s: State)
    ensures Init(L, init, s0) && FrugalRun(L, budget, s0, a, s)
    ensures Ready(L, s, L.start + L.size + 1) && Inv(L, init, s)
  {
    L, init, s0 := BlankInit();
    InitInv(L, init, s0);
    StepInv(L, init, s0, RecoverWrite);
    assert Sized(L, s0) && FrugalRun(L, budget, s0, [], s0);
    hide FrugalRun, Inv, Sized, Bootable, Meaning, RecoverWrites;
    a, s := Then(L, budget, s0, [], s0, RecoverWrite);
    StepInv(L, init, s, RecoverDone);
    a, s := Then(L, budget, s0, a, s, RecoverDone);
  }

  /** The exact budget: with mkfs's log, group commit is free of panics, and crash
      consistent, if and only if no operation may newly log more than MAXOPBLOCKS - 1
      blocks; begin_op reserves MAXOPBLOCKS. */
  lemma BudgetExact(budget: nat)
    ensures PanicFree(budget) <==> budget <= MAXOPBLOCKS - 1
    ensures CrashSafe(budget) <==> budget <= MAXOPBLOCKS - 1
  {
    if budget <= MAXOPBLOCKS - 1 {
      SmallBudget(budget);
    } else {
      var L, init, s0, a, s := Booted(budget);
      var b, t := FullBudgetCanPanic(L, budget, s0, a, s, L.start + L.size + 1);
      assert !PanicFree(budget);
      b, t := FullBudgetOverwrites(L, budget, init, s0, a, s, L.start + L.size + 1);
      assert !CrashSafe(budget);
    }
  }
}
