/** Group commit: begin_op, log_write, end_op and commit of many processes, with a
    crash possible between any two steps, as a transition system (kernel/log.c).

    Each step below is what the code does between acquiring and releasing log.lock,
    log_write's tests, which it makes before it takes the lock, or one bwrite of
    commit or recovery. So several processes can pass the tests before any of them
    appends, and the list of logged blocks can outgrow the log. The history of
    operations is kept beside the state; durable marks the prefix of it that has
    reached the disk. */
module GroupCommit {
  import opened RedoLog
  import opened LogDevice

  // ---- Histories of operations ----

  datatype Event =
    | Begin(p: nat)
    | Logged(p: nat, bn: nat, data: Block)
    | End(p: nat)

  predicate HistoryFits(L: Layout, nd: nat, h: seq<Event>) {
    forall i :: 0 <= i < |h| && h[i].Logged? ==> h[i].bn < nd && !L.InLog(h[i].bn)
  }

  // The home blocks after replaying every log_write of the history in order.
  function Replay(L: Layout, d: Disk, h: seq<Event>): (r: Disk)
    requires HistoryFits(L, |d|, h)
    ensures |r| == |d|
  {
    if h == [] then d
    else
      var r := Replay(L, d, h[..|h| - 1]);
      var e := h[|h| - 1];
      if e.Logged? then r[e.bn := e.data] else r
  }

  // The operations begun and not ended.
  function Open(h: seq<Event>): set<nat> {
    if h == [] then {}
    else
      var o := Open(h[..|h| - 1]);
      match h[|h| - 1]
      case Begin(p) => o + {p}
      case Logged(_, _, _) => o
      case End(p) => o - {p}
  }

  lemma ReplayStep(L: Layout, d: Disk, h: seq<Event>, e: Event)
    requires HistoryFits(L, |d|, h + [e])
    ensures HistoryFits(L, |d|, h) && (e.Logged? ==> e.bn < |d|)
    ensures Replay(L, d, h + [e]) == if e.Logged? then Replay(L, d, h)[e.bn := e.data] else Replay(L, d, h)
  {
    assert (h + [e])[..|h|] == h;
    assert (h + [e])[|h|] == e;
    assert forall i :: 0 <= i < |h| ==> h[i] == (h + [e])[i];
  }

  lemma {:induction false} OpenStep(h: seq<Event>, e: Event)
    ensures Open(h + [e]) == match e
      case Begin(p) => Open(h) + {p}
      case Logged(_, _, _) => Open(h)
      case End(p) => Open(h) - {p}
  {
    assert (h + [e])[..|h|] == h;
  }

  // Event i is the last log_write of block b.
  predicate LastFor(h: seq<Event>, b: nat, i: nat) {
    i < |h| && h[i].Logged? && h[i].bn == b && forall j :: i < j < |h| && h[j].Logged? ==> h[j].bn != b
  }

  /** The last log_write of a block is the one that counts, and a block never logged stays. */
  lemma {:induction false} ReplayLast(L: Layout, d: Disk, h: seq<Event>, b: nat)
    requires HistoryFits(L, |d|, h) && b < |d|
    ensures (forall i :: 0 <= i < |h| && h[i].Logged? ==> h[i].bn != b) ==> Replay(L, d, h)[b] == d[b]
    ensures forall i: nat :: LastFor(h, b, i) ==> Replay(L, d, h)[b] == h[i].data
  {
    if h != [] {
      var g := h[..|h| - 1];
      ReplayLast(L, d, g, b);
      forall i: nat | LastFor(h, b, i) ensures Replay(L, d, h)[b] == h[i].data {
        if i < |g| { assert LastFor(g, b, i); }
      }
    }
  }

  // ---- States ----

  // What a process is about to append, having passed log_write's tests.
  datatype Pend = Nothing | Passed(bn: nat, data: Block)

  // used counts the blocks an operation has newly put into the list.
  datatype Proc = Idle | Asleep | InOp(used: nat, pend: Pend) | Committer

  // The disk writes a committer or a booting kernel is working through.
  datatype Job =
    | NoJob
    | CommitJob(base: Disk, plan: seq<Write>, pos: nat)
    | RecoverJob(base: Disk, plan: seq<Write>, pos: nat)

  // Overrun is not a panic of the source: an append past the end of lh.block.
  datatype Panic = NoPanic | TooBig | OutsideTrans | Overrun | EndWhileCommitting

  datatype State = State(
    disk: Disk, lh: seq<int>, cache: map<int, Block>,
    procs: seq<Proc>, outstanding: int, committing: bool, panic: Panic,
    job: Job, history: seq<Event>, durable: nat)

  datatype Step =
    | BeginOp(p: nat)
    | LogTest(p: nat, bn: nat, data: Block)
    | LogAppend(p: nat)
    | EndOp(p: nat)
    | CommitWrite
    | CommitDone
    | Crash
    | RecoverWrite
    | RecoverDone

  // begin_op's reason to sleep
  predicate MustWait(s: State) {
    s.committing || |s.lh| + (s.outstanding + 1) * MAXOPBLOCKS > LOGSIZE
  }

  // Everyone asleep on the log is woken.
  function WakeAll(procs: seq<Proc>): (r: seq<Proc>)
    ensures |r| == |procs|
    ensures forall i :: 0 <= i < |r| ==> r[i] == if procs[i].Asleep? then Idle else procs[i]
  {
    seq(|procs|, i requires 0 <= i < |procs| => if procs[i].Asleep? then Idle else procs[i])
  }

  // A block that can stand where the header is.
  predicate HeaderOk(L: Layout, nd: nat, b: Block) {
    HeaderInRange(b) && Listed(L, nd, ReadHeader(b))
  }

  // Writes on the disk, those to the header block being headers.
  predicate PlanOk(L: Layout, nd: nat, plan: seq<Write>) {
    forall i :: 0 <= i < |plan| ==> plan[i].bn < nd && (plan[i].bn == L.start ==> HeaderOk(L, nd, plan[i].data))
  }

  predicate PendOk(L: Layout, nd: nat, procs: seq<Proc>) {
    forall p :: 0 <= p < |procs| && procs[p].InOp? && procs[p].pend.Passed? ==>
      procs[p].pend.bn < nd && !L.InLog(procs[p].pend.bn)
  }

  /** What every step needs and keeps, in any run. Nothing here says that the list fits
      the log; LOGSIZE is the length of lh.block. */
  predicate Sized(L: Layout, s: State) {
    && CanRecover(L, s.disk) && L.start + LOGSIZE < |s.disk|
    && Listed(L, |s.disk|, s.lh)
    && (forall i :: 0 <= i < |s.lh| ==> s.lh[i] in s.cache)
    && s.durable <= |s.history|
    && PendOk(L, |s.disk|, s.procs)
    && (!s.job.NoJob? ==> s.job.pos <= |s.job.plan| && PlanOk(L, |s.disk|, s.job.plan))
  }

  predicate Enabled(L: Layout, s: State, step: Step) {
    match step
    case BeginOp(p) => s.panic.NoPanic? && !s.job.RecoverJob? && p < |s.procs| && s.procs[p].Idle?
    case LogTest(p, bn, _) =>
      && s.panic.NoPanic? && p < |s.procs| && s.procs[p].InOp? && s.procs[p].pend.Nothing?
      && bn < |s.disk| && !L.InLog(bn)
    case LogAppend(p) => s.panic.NoPanic? && p < |s.procs| && s.procs[p].InOp? && s.procs[p].pend.Passed?
    case EndOp(p) => s.panic.NoPanic? && p < |s.procs| && s.procs[p].InOp? && s.procs[p].pend.Nothing?
    case CommitWrite => s.panic.NoPanic? && s.job.CommitJob? && s.job.pos < |s.job.plan|
    case CommitDone => s.panic.NoPanic? && s.job.CommitJob? && s.job.pos == |s.job.plan|
    case Crash => true
    case RecoverWrite => s.job.RecoverJob? && s.job.pos < |s.job.plan|
    case RecoverDone => s.job.RecoverJob? && s.job.pos == |s.job.plan|
  }

  function DoBegin(s: State, p: nat): State
    requires p < |s.procs|
  {
    if MustWait(s) then s.(procs := s.procs[p := Asleep])
    else s.(procs := s.procs[p := InOp(0, Nothing)], outstanding := s.outstanding + 1,
            history := s.history + [Begin(p)])
  }

  // log_write before it takes the lock.
  function DoTest(L: Layout, s: State, p: nat, bn: nat, data: Block): State
    requires p < |s.procs| && s.procs[p].InOp?
  {
    if |s.lh| >= LOGSIZE || |s.lh| >= L.size - 1 then s.(panic := TooBig)
    else if s.outstanding < 1 then s.(panic := OutsideTrans)
    else s.(procs := s.procs[p := InOp(s.procs[p].used, Passed(bn, data))])
  }

  // log_write under the lock.
  function DoAppend(s: State, p: nat): State
    requires p < |s.procs| && s.procs[p].InOp? && s.procs[p].pend.Passed?
  {
    var bn, data := s.procs[p].pend.bn, s.procs[p].pend.data;
    if bn !in s.lh && |s.lh| >= LOGSIZE then s.(panic := Overrun)
    else
      var added := if bn in s.lh then 0 else 1;
      s.(lh := AddToLog(s.lh, bn), cache := s.cache[bn := data],
         procs := s.procs[p := InOp(s.procs[p].used + added, Nothing)],
         history := s.history + [Logged(p, bn, data)])
  }

  function DoEnd(L: Layout, s: State, p: nat): State
    requires Sized(L, s) && p < |s.procs|
  {
    var s1 := s.(outstanding := s.outstanding - 1, history := s.history + [End(p)]);
    if s.committing then s1.(panic := EndWhileCommitting)
    else if s1.outstanding == 0 then
      s1.(procs := s.procs[p := Committer], committing := true,
          job := CommitJob(s.disk, CommitWrites(L, s.disk, s.lh, CachedData(s.cache, s.lh)), 0))
    else s1.(procs := WakeAll(s.procs[p := Idle]))
  }

  // One bwrite. The header write is the |lh|-th write of a non-empty commit.
  function DoWrite(s: State): State
    requires !s.job.NoJob? && s.job.pos < |s.job.plan| && s.job.plan[s.job.pos].bn < |s.disk|
  {
    var w := s.job.plan[s.job.pos];
    s.(disk := s.disk[w.bn := w.data], job := s.job.(pos := s.job.pos + 1),
       durable := if s.job.CommitJob? && s.job.pos == |s.lh| then |s.history| else s.durable)
  }

  // The unpinned buffers agree with the disk, so dropping them changes no reader's view.
  function DoCommitDone(s: State): State {
    s.(lh := [], cache := map[], committing := false, job := NoJob, durable := |s.history|,
       procs := WakeAll(seq(|s.procs|, i requires 0 <= i < |s.procs| =>
                              if s.procs[i].Committer? then Idle else s.procs[i])))
  }

  // Memory is lost; the next boot reads the header and starts recovery.
  function DoCrash(L: Layout, s: State): State
    requires Sized(L, s)
  {
    State(s.disk, [], map[], seq(|s.procs|, _ => Idle), 0, false, NoPanic,
          RecoverJob(s.disk, RecoverWrites(L, s.disk), 0), s.history[..s.durable], s.durable)
  }

  function Next(L: Layout, s: State, step: Step): State
    requires Sized(L, s) && Enabled(L, s, step)
  {
    match step
    case BeginOp(p) => DoBegin(s, p)
    case LogTest(p, bn, data) => DoTest(L, s, p, bn, data)
    case LogAppend(p) => DoAppend(s, p)
    case EndOp(p) => DoEnd(L, s, p)
    case CommitWrite => DoWrite(s)
    case CommitDone => DoCommitDone(s)
    case Crash => DoCrash(L, s)
    case RecoverWrite => DoWrite(s)
    case RecoverDone => s.(job := NoJob)
  }

  ghost predicate Run(L: Layout, s: State, steps: seq<Step>, t: State)
    decreases |steps|
  {
    if steps == [] then t == s
    else Sized(L, s) && Enabled(L, s, steps[0]) && Run(L, Next(L, s, steps[0]), steps[1..], t)
  }

  // A boot on a disk of that meaning.
  ghost predicate Init(L: Layout, init: Disk, s: State) {
    && Bootable(L, s.disk) && L.start + LOGSIZE < |s.disk| && init == Meaning(L, s.disk)
    && (forall p :: 0 <= p < |s.procs| ==> s.procs[p].Idle?)
    && s == State(s.disk, [], map[], s.procs, 0, false, NoPanic,
                  RecoverJob(s.disk, RecoverWrites(L, s.disk), 0), [], 0)
  }

  // ---- What every step keeps, in any run ----

  lemma CommitPlanOk(L: Layout, d: Disk, lh: seq<int>, data: seq<Block>)
    requires L.Fits(d) && L.start + LOGSIZE < |d| && Listed(L, |d|, lh) && |data| == |lh|
    ensures PlanOk(L, |d|, CommitWrites(L, d, lh, data))
  {
    if lh != [] {
      var head := PutHeader(d[L.start], lh);
      ReadPutHeader(d[L.start], lh);
      ReadPutHeader(head, []);
      assert L.InLog(L.start);
    }
  }

  lemma RecoverPlanOk(L: Layout, d: Disk)
    requires CanRecover(L, d)
    ensures PlanOk(L, |d|, RecoverWrites(L, d))
  {
    ReadPutHeader(d[L.start], []);
    assert L.InLog(L.start);
  }

  lemma AppendSized(L: Layout, s: State, p: nat)
    requires Sized(L, s) && Enabled(L, s, LogAppend(p))
    ensures Sized(L, DoAppend(s, p))
  {
    var t := DoAppend(s, p);
    if t.panic.NoPanic? {
      assert forall i :: 0 <= i < |t.lh| ==> t.lh[i] in s.lh || t.lh[i] == s.procs[p].pend.bn;
    }
  }

  lemma WriteSized(L: Layout, s: State)
    requires Sized(L, s) && !s.job.NoJob? && s.job.pos < |s.job.plan|
    ensures Sized(L, DoWrite(s))
  {
  }

  lemma EndSized(L: Layout, s: State, p: nat)
    requires Sized(L, s) && Enabled(L, s, EndOp(p))
    ensures Sized(L, DoEnd(L, s, p))
  {
    CommitPlanOk(L, s.disk, s.lh, CachedData(s.cache, s.lh));
  }

  lemma RestSized(L: Layout, s: State, step: Step)
    requires Sized(L, s) && Enabled(L, s, step)
    requires step.BeginOp? || step.LogTest? || step.CommitDone? || step.Crash? || step.RecoverDone?
    ensures Sized(L, Next(L, s, step))
  {
    RecoverPlanOk(L, s.disk);
  }

  /** No step leads out of the model: whatever operations log, the next step is defined. */
  lemma StepSized(L: Layout, s: State, step: Step)
    requires Sized(L, s) && Enabled(L, s, step)
    ensures Sized(L, Next(L, s, step))
  {
    match step
    case LogAppend(p) => AppendSized(L, s, p);
    case EndOp(p) => EndSized(L, s, p);
    case CommitWrite => WriteSized(L, s);
    case RecoverWrite => WriteSized(L, s);
    case _ => RestSized(L, s, step);
  }

  // The processes inside operations are the open ones, and outstanding counts them.
  ghost predicate Agree(procs: seq<Proc>, open: set<nat>, outstanding: int) {
    (forall p: nat :: p in open <==> p < |procs| && procs[p].InOp?) && outstanding == |open|
  }

  // Whoever sleeps has a reason to, and only a commit has a committer.
  predicate Waiters(s: State) {
    && (forall p :: 0 <= p < |s.procs| && s.procs[p].Asleep? ==> MustWait(s))
    && (forall p :: 0 <= p < |s.procs| && s.procs[p].Committer? ==> s.committing)
  }

  // How locks, counters and histories go together, in any run.
  ghost predicate Kernel(s: State) {
    && Agree(s.procs, Open(s.history), s.outstanding) && Waiters(s)
    && (s.committing <==> s.job.CommitJob?)
    && (!s.job.NoJob? ==> Open(s.history) == {})
    && (s.job.NoJob? && s.outstanding == 0 ==> s.lh == [])
    && (s.job.RecoverJob? ==> s.lh == [])
    && s.durable <= |s.history| && Open(s.history[..s.durable]) == {}
    && !s.panic.OutsideTrans? && !s.panic.EndWhileCommitting?
  }

  lemma AgreeBegin(procs: seq<Proc>, open: set<nat>, outstanding: int, p: nat)
    requires Agree(procs, open, outstanding) && p < |procs| && procs[p].Idle?
    ensures Agree(procs[p := InOp(0, Nothing)], open + {p}, outstanding + 1)
    ensures Agree(procs[p := Asleep], open, outstanding)
  {
    assert p !in open;
  }

  lemma AgreeEnd(procs: seq<Proc>, after: seq<Proc>, open: set<nat>, outstanding: int, p: nat)
    requires Agree(procs, open, outstanding) && p < |procs| && procs[p].InOp? && |after| == |procs|
    requires forall q :: 0 <= q < |procs| ==> (after[q].InOp? <==> procs[q].InOp? && q != p)
    ensures Agree(after, open - {p}, outstanding - 1) && (outstanding == 1 ==> open - {p} == {})
  {
    assert p in open;
    assert open == (open - {p}) + {p};
  }

  lemma AgreeSame(procs: seq<Proc>, after: seq<Proc>, open: set<nat>, outstanding: int)
    requires Agree(procs, open, outstanding) && |after| == |procs|
    requires forall q :: 0 <= q < |procs| ==> (after[q].InOp? <==> procs[q].InOp?)
    ensures Agree(after, open, outstanding)
  {
  }

  // Appending to the history leaves the durable prefix.
  lemma DurableKept(h: seq<Event>, e: Event, durable: nat)
    requires durable <= |h|
    ensures (h + [e])[..durable] == h[..durable]
  {
  }

  lemma BeginKernel(s: State, p: nat)
    requires Kernel(s) && s.panic.NoPanic? && !s.job.RecoverJob? && p < |s.procs| && s.procs[p].Idle?
    ensures Kernel(DoBegin(s, p))
  {
    OpenStep(s.history, Begin(p));
    DurableKept(s.history, Begin(p), s.durable);
    AgreeBegin(s.procs, Open(s.history), s.outstanding, p);
    hide Open;
    assert Waiters(DoBegin(s, p));
  }

  // An operation in progress is counted.
  lemma OneOpen(s: State, p: nat)
    requires Agree(s.procs, Open(s.history), s.outstanding) && p < |s.procs| && s.procs[p].InOp?
    ensures s.outstanding >= 1 && Open(s.history) != {}
  {
    var open := Open(s.history);
    assert p in open;
    assert open == (open - {p}) + {p};
  }

  lemma TestKernel(L: Layout, s: State, p: nat, bn: nat, data: Block)
    requires Kernel(s) && p < |s.procs| && s.procs[p].InOp?
    ensures Kernel(DoTest(L, s, p, bn, data))
  {
    hide Open;
    OneOpen(s, p);
    AgreeSame(s.procs, DoTest(L, s, p, bn, data).procs, Open(s.history), s.outstanding);
    assert Waiters(DoTest(L, s, p, bn, data));
  }

  lemma AppendKernel(s: State, p: nat)
    requires Kernel(s) && p < |s.procs| && s.procs[p].InOp? && s.procs[p].pend.Passed?
    ensures Kernel(DoAppend(s, p))
  {
    hide Open;
    var e := Logged(p, s.procs[p].pend.bn, s.procs[p].pend.data);
    OneOpen(s, p);
    OpenStep(s.history, e);
    DurableKept(s.history, e, s.durable);
    AgreeSame(s.procs, DoAppend(s, p).procs, Open(s.history), s.outstanding);
    AppendWaiters(s, p);
  }

  lemma AppendWaiters(s: State, p: nat)
    requires Waiters(s) && p < |s.procs| && s.procs[p].InOp? && s.procs[p].pend.Passed?
    ensures Waiters(DoAppend(s, p))
  {
    assert MustWait(s) ==> MustWait(DoAppend(s, p));
  }

  lemma EndKernel(L: Layout, s: State, p: nat)
    requires Sized(L, s) && Kernel(s) && s.panic.NoPanic? && p < |s.procs| && s.procs[p].InOp?
    ensures Kernel(DoEnd(L, s, p))
  {
    hide Open, Sized, CommitWrites, CachedData;
    assert p in Open(s.history);
    OpenStep(s.history, End(p));
    DurableKept(s.history, End(p), s.durable);
    AgreeEnd(s.procs, DoEnd(L, s, p).procs, Open(s.history), s.outstanding, p);
    assert Waiters(DoEnd(L, s, p));
  }

  lemma RestKernel(L: Layout, s: State, step: Step)
    requires Sized(L, s) && Kernel(s) && Enabled(L, s, step)
    requires !step.BeginOp? && !step.LogTest? && !step.LogAppend? && !step.EndOp?
    ensures Kernel(Next(L, s, step))
  {
    var t := Next(L, s, step);
    assert s.history[..|s.history|] == s.history;
    if step.CommitDone? { AgreeSame(s.procs, t.procs, Open(s.history), s.outstanding); }
    if step.Crash? { assert t.history[..t.durable] == t.history; }
    hide Open;
  }

  lemma StepKernel(L: Layout, s: State, step: Step)
    requires Sized(L, s) && Kernel(s) && Enabled(L, s, step)
    ensures Kernel(Next(L, s, step))
  {
    match step
    case BeginOp(p) => BeginKernel(s, p);
    case LogTest(p, bn, data) => TestKernel(L, s, p, bn, data);
    case LogAppend(p) => AppendKernel(s, p);
    case EndOp(p) => EndKernel(L, s, p);
    case _ => RestKernel(L, s, step);
  }

  lemma {:induction false} RunKernel(L: Layout, s: State, steps: seq<Step>, t: State)
    requires Sized(L, s) && Kernel(s) && Run(L, s, steps, t)
    ensures Sized(L, t) && Kernel(t)
    decreases |steps|
  {
    if steps != [] {
      StepSized(L, s, steps[0]);
      StepKernel(L, s, steps[0]);
      RunKernel(L, Next(L, s, steps[0]), steps[1..], t);
    }
  }

  lemma InitKernel(L: Layout, init: Disk, s: State)
    requires Init(L, init, s)
    ensures Sized(L, s) && Kernel(s)
  {
    RecoverPlanOk(L, s.disk);
  }

  /** In every run, whatever operations log: while a commit runs no process can log or
      append, and the panics "log.committing" and "log_write outside of trans" never
      happen. */
  lemma CommitIsExclusive(L: Layout, init: Disk, s0: State, steps: seq<Step>, s: State)
    requires Init(L, init, s0) && Run(L, s0, steps, s)
    ensures s.committing ==> forall p :: 0 <= p < |s.procs| ==> !s.procs[p].InOp?
    ensures s.committing ==> forall step: Step :: step.LogTest? || step.LogAppend? ==> !Enabled(L, s, step)
    ensures s.committing ==> forall p: nat :: p < |s.procs| ==> DoBegin(s, p).procs[p].Asleep?
    ensures !s.panic.OutsideTrans? && !s.panic.EndWhileCommitting?
  {
    InitKernel(L, init, s0);
    RunKernel(L, s0, steps, s);
    if s.committing {
      forall p: nat | p < |s.procs| ensures !s.procs[p].InOp? {
        assert p !in Open(s.history);
      }
    }
  }

  /** In every run no begin_op sleeper is stranded: whoever sleeps still has a reason to,
      and a commit or another operation is under way whose end will wake it. */
  lemma NoStrandedSleeper(L: Layout, init: Disk, s0: State, steps: seq<Step>, s: State, p: nat)
    requires Init(L, init, s0) && Run(L, s0, steps, s)
    requires p < |s.procs| && s.procs[p].Asleep?
    ensures MustWait(s)
    ensures s.committing || exists q :: 0 <= q < |s.procs| && s.procs[q].InOp?
  {
    InitKernel(L, init, s0);
    RunKernel(L, s0, steps, s);
    if !s.committing {
      assert s.outstanding != 0;
      var q :| q in Open(s.history);
      assert s.procs[q].InOp?;
    }
  }

  lemma DurableStep(L: Layout, s: State, step: Step)
    requires Sized(L, s) && Enabled(L, s, step)
    ensures var m := Next(L, s, step);
      s.durable <= m.durable <= |m.history| && s.history[..s.durable] <= m.history[..m.durable]
  {
    StepSized(L, s, step);
  }

  /** Durability, in every run: what has become durable stays, through further steps and
      crashes. */
  lemma {:induction false} DurablePrefixGrows(L: Layout, s: State, steps: seq<Step>, t: State)
    requires Sized(L, s) && Run(L, s, steps, t)
    ensures Sized(L, t) && s.history[..s.durable] <= t.history[..t.durable]
    decreases |steps|
  {
    if steps != [] {
      StepSized(L, s, steps[0]);
      DurableStep(L, s, steps[0]);
      DurablePrefixGrows(L, Next(L, s, steps[0]), steps[1..], t);
    }
  }

  // ---- What the disk means, while the list fits the log ----

  // The home blocks as bread shows them: pinned buffers over the disk.
  ghost predicate ViewIs(L: Layout, s: State, r: Disk) {
    && |r| == |s.disk|
    && forall b :: 0 <= b < |r| && !L.InLog(b) ==> r[b] == if b in s.cache then s.cache[b] else s.disk[b]
  }

  ghost predicate HistoryInv(L: Layout, init: Disk, s: State) {
    && Bootable(L, s.disk) && |init| == |s.disk|
    && HistoryFits(L, |init|, s.history)
    && s.durable <= |s.history|
    && Meaning(L, s.disk) == Replay(L, init, s.history[..s.durable])
  }

  ghost predicate JobInv(L: Layout, init: Disk, s: State)
    requires Sized(L, s) && HistoryInv(L, init, s)
  {
    match s.job
    case NoJob =>
      && ReadHeader(s.disk[L.start]) == []
      && ViewIs(L, s, Replay(L, init, s.history))
      && (s.outstanding == 0 ==> s.durable == |s.history|)
    case CommitJob(base, plan, pos) =>
      && |base| == |s.disk| && Bootable(L, base) && ReadHeader(base[L.start]) == []
      && Loggable(L, |base|, s.lh)
      && plan == CommitWrites(L, base, s.lh, CachedData(s.cache, s.lh))
      && s.disk == Apply(base, plan[..pos])
      && Replay(L, init, s.history) == Overlay(Meaning(L, base), s.lh, CachedData(s.cache, s.lh))
      && (pos > |s.lh| ==> s.durable == |s.history|)
    case RecoverJob(base, plan, pos) =>
      && s.cache == map[] && s.durable == |s.history|
      && |base| == |s.disk| && Bootable(L, base)
      && plan == RecoverWrites(L, base)
      && s.disk == Apply(base, plan[..pos])
  }

  ghost predicate Inv(L: Layout, init: Disk, s: State) {
    && Sized(L, s) && Kernel(s)
    && (forall b :: b in s.cache ==> b in s.lh)
    && HistoryInv(L, init, s)
    && JobInv(L, init, s)
  }

  // A commit starts with a list that the log has slots for.
  predicate Fitting(L: Layout, s: State, step: Step) {
    step.EndOp? && s.outstanding == 1 ==> |s.lh| <= L.size - 1
  }

  lemma InitInv(L: Layout, init: Disk, s: State)
    requires Init(L, init, s)
    ensures Inv(L, init, s)
  {
    InitKernel(L, init, s);
  }

  lemma BeginHistory(L: Layout, init: Disk, s: State, p: nat)
    requires HistoryInv(L, init, s) && p < |s.procs|
    ensures HistoryInv(L, init, DoBegin(s, p))
  {
    hide Bootable, Replay, Meaning;
    DurableKept(s.history, Begin(p), s.durable);
  }

  // An event that logs nothing changes no replay.
  lemma ReplayEvent(L: Layout, d: Disk, h: seq<Event>, e: Event)
    requires HistoryFits(L, |d|, h) && !e.Logged?
    ensures HistoryFits(L, |d|, h + [e]) && Replay(L, d, h + [e]) == Replay(L, d, h)
  {
    ReplayStep(L, d, h, e);
  }

  lemma BeginInv(L: Layout, init: Disk, s: State, p: nat)
    requires Inv(L, init, s) && Enabled(L, s, BeginOp(p))
    ensures Inv(L, init, DoBegin(s, p))
  {
    hide Open, Replay, Meaning, Bootable, CommitWrites, Sized, Kernel;
    StepSized(L, s, BeginOp(p));
    StepKernel(L, s, BeginOp(p));
    BeginHistory(L, init, s, p);
    ReplayEvent(L, init, s.history, Begin(p));
    BeginJob(L, init, s, p);
  }

  lemma BeginJob(L: Layout, init: Disk, s: State, p: nat)
    requires Sized(L, s) && Kernel(s) && HistoryInv(L, init, s) && JobInv(L, init, s) && Enabled(L, s, BeginOp(p))
    requires Sized(L, DoBegin(s, p)) && HistoryInv(L, init, DoBegin(s, p))
    requires Replay(L, init, s.history + [Begin(p)]) == Replay(L, init, s.history)
    ensures JobInv(L, init, DoBegin(s, p))
  {
    hide Open, Replay, Meaning, Bootable, CommitWrites, RecoverWrites, Apply, Overlay;
    assert s.job.NoJob? || MustWait(s);
    assert MustWait(s) ==> DoBegin(s, p).outstanding == s.outstanding;
    assert !MustWait(s) ==> DoBegin(s, p).outstanding != 0;
  }

  // The tests of log_write touch nothing but their process.
  lemma TestInv(L: Layout, init: Disk, s: State, p: nat, bn: nat, data: Block)
    requires Inv(L, init, s) && Enabled(L, s, LogTest(p, bn, data))
    ensures Inv(L, init, DoTest(L, s, p, bn, data))
  {
    StepSized(L, s, LogTest(p, bn, data));
    StepKernel(L, s, LogTest(p, bn, data));
    var t := DoTest(L, s, p, bn, data);
    assert HistoryInv(L, init, t) by { hide Bootable, Replay, Meaning, Kernel, Sized; }
    assert JobInv(L, init, t) by { hide Bootable, Replay, Meaning, Kernel, CommitWrites, RecoverWrites, Overlay; }
    hide *;
  }

  lemma AppendHistory(L: Layout, init: Disk, s: State, p: nat)
    requires Sized(L, s) && HistoryInv(L, init, s) && Enabled(L, s, LogAppend(p))
    ensures HistoryInv(L, init, DoAppend(s, p))
  {
    hide Bootable, Replay, Meaning, Listed, CanRecover;
    DurableKept(s.history, Logged(p, s.procs[p].pend.bn, s.procs[p].pend.data), s.durable);
  }

  // Pinning the new contents of a block is replaying the event.
  lemma AppendView(L: Layout, init: Disk, s: State, p: nat)
    requires Sized(L, s) && HistoryInv(L, init, s) && Enabled(L, s, LogAppend(p))
    requires ViewIs(L, s, Replay(L, init, s.history)) && DoAppend(s, p).panic.NoPanic?
    requires HistoryInv(L, init, DoAppend(s, p))
    ensures ViewIs(L, DoAppend(s, p), Replay(L, init, DoAppend(s, p).history))
  {
    hide Bootable, Replay, Meaning, Listed, CanRecover;
    ReplayStep(L, init, s.history, Logged(p, s.procs[p].pend.bn, s.procs[p].pend.data));
  }

  lemma AppendInv(L: Layout, init: Disk, s: State, p: nat)
    requires Inv(L, init, s) && Enabled(L, s, LogAppend(p))
    ensures Inv(L, init, DoAppend(s, p))
  {
    StepSized(L, s, LogAppend(p));
    StepKernel(L, s, LogAppend(p));
    AppendHistory(L, init, s, p);
    OneOpen(s, p);
    AppendJob(L, init, s, p);
    assert forall b :: b in DoAppend(s, p).cache ==> b in DoAppend(s, p).lh;
  }

  lemma AppendJob(L: Layout, init: Disk, s: State, p: nat)
    requires Sized(L, s) && Kernel(s) && HistoryInv(L, init, s) && JobInv(L, init, s) && Enabled(L, s, LogAppend(p))
    requires Sized(L, DoAppend(s, p)) && HistoryInv(L, init, DoAppend(s, p))
    ensures JobInv(L, init, DoAppend(s, p))
  {
    hide Replay, Meaning, Bootable, CommitWrites, RecoverWrites, Apply, Overlay, Sized, Open;
    OneOpen(s, p);
    assert s.job.NoJob?;
    if DoAppend(s, p).panic.NoPanic? { AppendView(L, init, s, p); }
  }

  lemma EndHistory(L: Layout, init: Disk, s: State, p: nat)
    requires Sized(L, s) && HistoryInv(L, init, s) && Enabled(L, s, EndOp(p))
    ensures HistoryInv(L, init, DoEnd(L, s, p))
  {
    hide Bootable, Replay, Meaning, Sized, CommitWrites;
    DurableKept(s.history, End(p), s.durable);
  }

  // Log blocks are zero in every meaning and are never replayed into.
  lemma ReplayKeepsLog(L: Layout, init: Disk, s: State, b: nat)
    requires HistoryInv(L, init, s) && b < |init| && L.InLog(b)
    ensures Replay(L, init, s.history)[b] == Meaning(L, s.disk)[b]
  {
    ReplayOutside(L, init, s.history, b);
    ReplayOutside(L, init, s.history[..s.durable], b);
  }

  lemma {:induction false} ReplayOutside(L: Layout, d: Disk, h: seq<Event>, b: nat)
    requires HistoryFits(L, |d|, h) && b < |d| && L.InLog(b)
    ensures Replay(L, d, h)[b] == d[b]
  {
    if h != [] {
      ReplayOutside(L, d, h[..|h| - 1], b);
    }
  }

  // When a commit starts, what bread shows is the disk overlaid with the log.
  lemma EndView(L: Layout, init: Disk, s: State)
    requires Sized(L, s) && HistoryInv(L, init, s) && ReadHeader(s.disk[L.start]) == []
    requires ViewIs(L, s, Replay(L, init, s.history)) && forall b :: b in s.cache ==> b in s.lh
    ensures Replay(L, init, s.history) == Overlay(Meaning(L, s.disk), s.lh, CachedData(s.cache, s.lh))
  {
    var data := CachedData(s.cache, s.lh);
    EmptyIsMeaning(L, s.disk);
    forall b | 0 <= b < |init|
      ensures Replay(L, init, s.history)[b] == Overlay(Meaning(L, s.disk), s.lh, data)[b]
    {
      if L.InLog(b) {
        ReplayKeepsLog(L, init, s, b);
      }
    }
  }

  lemma EndJob(L: Layout, init: Disk, s: State, p: nat)
    requires Inv(L, init, s) && Enabled(L, s, EndOp(p)) && Fitting(L, s, EndOp(p))
    requires Sized(L, DoEnd(L, s, p)) && HistoryInv(L, init, DoEnd(L, s, p))
    ensures JobInv(L, init, DoEnd(L, s, p))
  {
    hide Replay, Meaning, Bootable, CommitWrites, RecoverWrites, Overlay, Open;
    OneOpen(s, p);
    assert s.job.NoJob?;
    ReplayEvent(L, init, s.history, End(p));
    EndView(L, init, s);
  }

  lemma EndInv(L: Layout, init: Disk, s: State, p: nat)
    requires Inv(L, init, s) && Enabled(L, s, EndOp(p)) && Fitting(L, s, EndOp(p))
    ensures Inv(L, init, DoEnd(L, s, p))
  {
    hide Sized, Kernel, HistoryInv, JobInv, CommitWrites;
    StepSized(L, s, EndOp(p));
    StepKernel(L, s, EndOp(p));
    EndHistory(L, init, s, p);
    EndJob(L, init, s, p);
  }

  // What one write of a commit does to the meaning of the disk.
  lemma CommitWriteDisk(L: Layout, base: Disk, lh: seq<int>, data: seq<Block>, pos: nat, d: Disk, e: Disk)
    requires Bootable(L, base) && ReadHeader(base[L.start]) == []
    requires Loggable(L, |base|, lh) && |data| == |lh| && pos < |CommitWrites(L, base, lh, data)|
    requires var ws := CommitWrites(L, base, lh, data);
      InRange(ws, |base|) && d == Apply(base, ws[..pos]) && e == d[ws[pos].bn := ws[pos].data]
    ensures Bootable(L, d) && Bootable(L, e) && e == Apply(base, CommitWrites(L, base, lh, data)[..pos + 1])
    ensures pos != |lh| ==> Meaning(L, e) == Meaning(L, d)
    ensures pos == |lh| ==> Meaning(L, e) == Overlay(Meaning(L, base), lh, data)
  {
    hide CommitWrites, Meaning, Overlay, Apply, LogWrites;
    ApplyExtend(base, CommitWrites(L, base, lh, data), pos);
    CommitAtomic(L, base, lh, data, pos);
    CommitAtomic(L, base, lh, data, pos + 1);
  }

  // A disk of the same meaning, or one that means the whole history.
  lemma HistoryKept(L: Layout, init: Disk, s: State, t: State)
    requires HistoryInv(L, init, s) && Bootable(L, t.disk) && |t.disk| == |s.disk| && t.history == s.history
    requires (t.durable == s.durable && Meaning(L, t.disk) == Meaning(L, s.disk))
      || (t.durable == |s.history| && Meaning(L, t.disk) == Replay(L, init, s.history))
    ensures HistoryInv(L, init, t)
  {
    hide Bootable, Replay, Meaning;
    assert s.history[..|s.history|] == s.history;
  }

  lemma CommitWriteInv(L: Layout, init: Disk, s: State)
    requires Inv(L, init, s) && Enabled(L, s, CommitWrite)
    ensures Inv(L, init, DoWrite(s))
  {
    StepSized(L, s, CommitWrite);
    StepKernel(L, s, CommitWrite);
    var j, t := s.job, DoWrite(s);
    hide Kernel, CommitWrites, Meaning, Overlay, Apply, Replay, Bootable, Loggable, ReadHeader, CanRecover, Listed;
    assert InRange(j.plan, |s.disk|);
    CommitWriteDisk(L, j.base, s.lh, CachedData(s.cache, s.lh), j.pos, s.disk, t.disk);
    HistoryKept(L, init, s, t);
    assert JobInv(L, init, t);
  }

  // A finished commit has put the whole history into the home blocks.
  lemma CommitDoneDisk(L: Layout, init: Disk, s: State)
    requires Inv(L, init, s) && Enabled(L, s, CommitDone)
    ensures ReadHeader(s.disk[L.start]) == [] && Meaning(L, s.disk) == Replay(L, init, s.history)
  {
    var j := s.job;
    var data := CachedData(s.cache, s.lh);
    assert j.plan[..j.pos] == j.plan;
    CommitAtomic(L, j.base, s.lh, data, j.pos);
    if s.lh == [] {
      assert Overlay(Meaning(L, j.base), s.lh, data) == Meaning(L, j.base);
    } else {
      CommitCompletes(L, j.base, s.lh, data);
      CommitLength(L, j.base, s.lh, data);
    }
    hide CommitWrites, Meaning, Overlay, Apply, Replay, Bootable, Kernel;
  }

  lemma CommitLength(L: Layout, d: Disk, lh: seq<int>, data: seq<Block>)
    requires L.Fits(d) && Listed(L, |d|, lh) && |data| == |lh| && lh != []
    ensures |CommitWrites(L, d, lh, data)| == 2 * |lh| + 2
  {
  }

  lemma CommitDoneInv(L: Layout, init: Disk, s: State)
    requires Inv(L, init, s) && Enabled(L, s, CommitDone)
    ensures Inv(L, init, DoCommitDone(s))
  {
    var t := DoCommitDone(s);
    StepSized(L, s, CommitDone);
    StepKernel(L, s, CommitDone);
    CommitDoneDisk(L, init, s);
    EmptyIsMeaning(L, s.disk);
    HistoryKept(L, init, s, t);
    hide CommitWrites, Meaning, Overlay, Apply, Replay, Bootable, Kernel;
  }

  lemma CrashInv(L: Layout, init: Disk, s: State)
    requires Inv(L, init, s)
    ensures Inv(L, init, DoCrash(L, s))
  {
    StepSized(L, s, Crash);
    StepKernel(L, s, Crash);
    var t := DoCrash(L, s);
    assert t.history[..t.durable] == t.history;
    assert t.job.plan[..0] == [];
    hide Meaning, Replay, Bootable, Kernel, RecoverWrites, Sized;
  }

  lemma RecoverWriteInv(L: Layout, init: Disk, s: State)
    requires Inv(L, init, s) && Enabled(L, s, RecoverWrite)
    ensures Inv(L, init, DoWrite(s))
  {
    StepSized(L, s, RecoverWrite);
    StepKernel(L, s, RecoverWrite);
    var j := s.job;
    hide Meaning, Replay, Kernel, RecoverWrites, Apply, Open, Bootable;
    assert InRange(j.plan, |s.disk|);
    ApplyExtend(j.base, j.plan, j.pos);
    RecoverPrefix(L, j.base, j.pos);
    RecoverPrefix(L, j.base, j.pos + 1);
    HistoryKept(L, init, s, DoWrite(s));
  }

  lemma RecoverDoneInv(L: Layout, init: Disk, s: State)
    requires Inv(L, init, s) && Enabled(L, s, RecoverDone)
    ensures Inv(L, init, s.(job := NoJob))
  {
    StepSized(L, s, RecoverDone);
    StepKernel(L, s, RecoverDone);
    var j, t := s.job, s.(job := NoJob);
    assert j.plan[..j.pos] == j.plan;
    assert s.history[..|s.history|] == s.history;
    RecoverCompletes(L, j.base);
    EmptyIsMeaning(L, s.disk);
    hide Meaning, Replay, Kernel, RecoverWrites, Apply, Open, Sized;
    assert HistoryInv(L, init, t);
    assert JobInv(L, init, t);
  }

  /** Every step keeps the invariant that ties the disk to the history, provided that no
      commit starts with more blocks than the log has slots. */
  lemma StepInv(L: Layout, init: Disk, s: State, step: Step)
    requires Inv(L, init, s) && Enabled(L, s, step) && Fitting(L, s, step)
    ensures Inv(L, init, Next(L, s, step))
  {
    hide Inv, Sized;
    match step
    case BeginOp(p) => BeginInv(L, init, s, p);
    case LogTest(p, bn, data) => TestInv(L, init, s, p, bn, data);
    case LogAppend(p) => AppendInv(L, init, s, p);
    case EndOp(p) => EndInv(L, init, s, p);
    case CommitWrite => CommitWriteInv(L, init, s);
    case CommitDone => CommitDoneInv(L, init, s);
    case Crash => CrashInv(L, init, s);
    case RecoverWrite => RecoverWriteInv(L, init, s);
    case RecoverDone => RecoverDoneInv(L, init, s);
  }

  // ---- What was asked for ----

  // The log_write each process has begun, and the operations and log_writes so far.
  datatype Asked = Asked(want: map<nat, (nat, Block)>, log: seq<Event>)

  /** What a step asks for, from the step itself and from whether begin_op waits, the list of
      logged blocks is full, and how much a crash leaves. */
  function Ask(a: Asked, s: State, step: Step): Asked {
    match step
    case BeginOp(p) =>
      if s.committing || |s.lh| + (s.outstanding + 1) * 10 > 30 then a else a.(log := a.log + [Begin(p)])
    case LogTest(p, bn, data) => a.(want := a.want[p := (bn, data)])
    case LogAppend(p) =>
      if p !in a.want || (a.want[p].0 !in s.lh && |s.lh| >= 30) then a
      else a.(log := a.log + [Logged(p, a.want[p].0, a.want[p].1)])
    case EndOp(p) => a.(log := a.log + [End(p)])
    case Crash => Asked(map[], if s.durable <= |a.log| then a.log[..s.durable] else a.log)
    case _ => a
  }

  ghost function Asks(L: Layout, s: State, steps: seq<Step>, t: State, a: Asked): Asked
    requires Run(L, s, steps, t)
    decreases |steps|
  {
    if steps == [] then a else Asks(L, Next(L, s, steps[0]), steps[1..], t, Ask(a, s, steps[0]))
  }

  // The operations and log_writes of a whole run.
  ghost function Requests(L: Layout, s0: State, steps: seq<Step>, s: State): seq<Event>
    requires Run(L, s0, steps, s)
  {
    Asks(L, s0, steps, s, Asked(map[], [])).log
  }

  predicate Follows(s: State, a: Asked) {
    && s.history == a.log
    && forall p :: 0 <= p < |s.procs| && s.procs[p].InOp? && s.procs[p].pend.Passed? ==>
      p in a.want && a.want[p] == (s.procs[p].pend.bn, s.procs[p].pend.data)
  }

  lemma StepFollows(L: Layout, s: State, step: Step, a: Asked)
    requires Sized(L, s) && Enabled(L, s, step) && Follows(s, a)
    ensures Follows(Next(L, s, step), Ask(a, s, step))
  {
    hide CommitWrites, RecoverWrites, CachedData, CanRecover, Listed;
  }

  lemma {:induction false} RunFollows(L: Layout, s: State, steps: seq<Step>, t: State, a: Asked)
    requires Run(L, s, steps, t) && Follows(s, a)
    ensures Follows(t, Asks(L, s, steps, t, a))
    decreases |steps|
  {
    hide Sized, Enabled, Next, Follows, Ask;
    if steps != [] {
      StepFollows(L, s, steps[0], a);
      RunFollows(L, Next(L, s, steps[0]), steps[1..], t, Ask(a, s, steps[0]));
    }
  }

  /** In every run, whatever operations log, the history is what the steps asked for: each
      log_write enters it with the block and the contents it was called with. */
  lemma HistoryAsAsked(L: Layout, init: Disk, s0: State, steps: seq<Step>, s: State)
    requires Init(L, init, s0) && Run(L, s0, steps, s)
    ensures s.history == Requests(L, s0, steps, s)
  {
    RunFollows(L, s0, steps, s, Asked(map[], []));
  }

  // ---- Crash consistency ----

  // Every commit of the run starts with a list that fits.
  ghost predicate FittingRun(L: Layout, s: State, steps: seq<Step>, t: State)
    decreases |steps|
  {
    if steps == [] then t == s
    else
      && Sized(L, s) && Enabled(L, s, steps[0]) && Fitting(L, s, steps[0])
      && FittingRun(L, Next(L, s, steps[0]), steps[1..], t)
  }

  lemma {:induction false} RunInv(L: Layout, init: Disk, s: State, steps: seq<Step>, t: State)
    requires Inv(L, init, s) && FittingRun(L, s, steps, t)
    ensures Inv(L, init, t)
    decreases |steps|
  {
    if steps != [] {
      StepInv(L, init, s, steps[0]);
      RunInv(L, init, Next(L, s, steps[0]), steps[1..], t);
    }
  }

  /** Stop here and recover: the home blocks are then the replay of a prefix of the history
      at which no operation is outstanding, that is whole groups of complete operations. */
  ghost predicate Consistent(L: Layout, init: Disk, s: State) {
    && |init| == |s.disk| && s.durable <= |s.history| && HistoryFits(L, |init|, s.history)
    && Open(s.history[..s.durable]) == {}
    && RecoversTo(L, s.disk, Replay(L, init, s.history[..s.durable]))
  }

  lemma InvConsistent(L: Layout, init: Disk, s: State)
    requires Inv(L, init, s)
    ensures Consistent(L, init, s)
  {
    RecoverCompletes(L, s.disk);
    hide RecoversTo, Meaning, Replay, JobInv;
  }

  /** Crash consistency of group commit, for every interleaving and with any number of
      earlier crashes, in runs whose commits fit the log. Once nothing is outstanding and
      no commit is running, the recovered prefix is the whole history. */
  lemma CrashConsistency(L: Layout, init: Disk, s0: State, steps: seq<Step>, s: State)
    requires Init(L, init, s0) && FittingRun(L, s0, steps, s)
    ensures Run(L, s0, steps, s) && s.history == Requests(L, s0, steps, s)
    ensures Consistent(L, init, s)
    ensures s.job.NoJob? && s.outstanding == 0 ==> s.durable == |s.history|
  {
    FittingIsRun(L, s0, steps, s);
    HistoryAsAsked(L, init, s0, steps, s);
    InitInv(L, init, s0);
    RunInv(L, init, s0, steps, s);
    InvConsistent(L, init, s);
  }

  lemma {:induction false} ApplyUntouched(d: Disk, ws: seq<Write>, b: nat)
    requires InRange(ws, |d|) && b < |d| && forall i :: 0 <= i < |ws| ==> ws[i].bn != b
    ensures Apply(d, ws)[b] == d[b]
  {
    if ws != [] { ApplyUntouched(d, ws[..|ws| - 1], b); }
  }

  // A commit writes log blocks and the blocks it installs, and no other.
  lemma CommitUntouched(L: Layout, base: Disk, lh: seq<int>, data: seq<Block>, k: nat, b: nat)
    requires L.Fits(base) && Loggable(L, |base|, lh) && |data| == |lh| && k <= |CommitWrites(L, base, lh, data)|
    requires InRange(CommitWrites(L, base, lh, data)[..k], |base|)
    requires b < |base| && !L.InLog(b) && b !in lh
    ensures Apply(base, CommitWrites(L, base, lh, data)[..k])[b] == base[b]
  {
    var ws := CommitWrites(L, base, lh, data);
    forall i | 0 <= i < |ws| ensures ws[i].bn != b {
      assert L.InLog(ws[i].bn) || ws[i].bn in lh;
    }
    ApplyUntouched(base, ws[..k], b);
  }

  lemma CommitView(L: Layout, init: Disk, s: State, b: nat)
    requires Inv(L, init, s) && s.job.CommitJob? && b < |s.disk| && !L.InLog(b)
    ensures Replay(L, init, s.history)[b] == if b in s.cache then s.cache[b] else s.disk[b]
  {
    hide Replay, Kernel;
    var j := s.job;
    if b in s.cache {
      assert s.lh[IndexOf(s.lh, b)] == b;
    } else {
      EmptyIsMeaning(L, j.base);
      CommitUntouched(L, j.base, s.lh, CachedData(s.cache, s.lh), j.pos, b);
    }
  }

  /** In the same runs, once recovery is over, bread shows for every home block what was last
      asked to be logged for it, before, during and after commits. */
  lemma ReadsSeeRequests(L: Layout, init: Disk, s0: State, steps: seq<Step>, s: State, b: nat)
    requires Init(L, init, s0) && FittingRun(L, s0, steps, s)
    requires !s.job.RecoverJob? && b < |s.disk| && !L.InLog(b)
    ensures Run(L, s0, steps, s) && HistoryFits(L, |init|, Requests(L, s0, steps, s)) && |init| == |s.disk|
    ensures Replay(L, init, Requests(L, s0, steps, s))[b] == if b in s.cache then s.cache[b] else s.disk[b]
  {
    CrashConsistency(L, init, s0, steps, s);
    InitInv(L, init, s0);
    RunInv(L, init, s0, steps, s);
    hide Run, Replay, Kernel, Meaning, Bootable, Requests;
    if s.job.CommitJob? { CommitView(L, init, s, b); }
  }

  lemma {:induction false} FittingIsRun(L: Layout, s: State, steps: seq<Step>, t: State)
    requires FittingRun(L, s, steps, t)
    ensures Run(L, s, steps, t)
    decreases |steps|
  {
    if steps != [] { FittingIsRun(L, Next(L, s, steps[0]), steps[1..], t); }
  }
}
