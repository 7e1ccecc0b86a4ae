/** The processes around one pipe (kernel/pipe.c with sleep and wakeup). A process holds
    the pipe's lock from acquire to sleep or return, so each such stretch is one step;
    between steps the lock is free. */
module PipeWait {
  import opened Common
  import opened Pipe

  // Write and Read are about to take the lock, for the first time or after a wakeup.
  datatype Pc =
    | Idle
    | Write(src: seq<byte>, i: nat)
    | WriteSleep(src: seq<byte>, i: nat)
    | Read(n: nat)
    | ReadSleep(n: nat)

  datatype Proc = Proc(pc: Pc, killed: bool)

  /** sent and got are all bytes that ever entered and left the buffer. */
  datatype Sys = Sys(
    buf: seq<byte>, readopen: bool, writeopen: bool, procs: seq<Proc>, sent: seq<byte>, got: seq<byte>)

  datatype Action =
    | StartWrite(src: seq<byte>) | StartRead(n: nat)
    | RunWrite(bad: nat) | RunRead(bad: nat)
    | CloseWrite | CloseRead | Kill

  // ---- Steps ----

  predicate Writing(x: Proc) {
    x.pc.Write? || x.pc.WriteSleep?
  }

  predicate Reading(x: Proc) {
    x.pc.Read? || x.pc.ReadSleep?
  }

  // An end is open while a process is inside a call on it: the call holds a file reference.
  predicate Enabled(s: Sys, p: nat, a: Action) {
    && p < |s.procs|
    && match a
      case StartWrite(_) => s.procs[p].pc.Idle? && s.writeopen
      case StartRead(_) => s.procs[p].pc.Idle? && s.readopen
      case RunWrite(_) => s.procs[p].pc.Write? && s.procs[p].pc.i <= |s.procs[p].pc.src| && |s.buf| <= PIPESIZE
      case RunRead(_) => s.procs[p].pc.Read?
      case CloseWrite => s.procs[p].pc.Idle? && forall q :: 0 <= q < |s.procs| ==> !Writing(s.procs[q])
      case CloseRead => s.procs[p].pc.Idle? && forall q :: 0 <= q < |s.procs| ==> !Reading(s.procs[q])
      case Kill => true
  }

  function WakeReader(x: Proc): Proc {
    if x.pc.ReadSleep? then x.(pc := Read(x.pc.n)) else x
  }

  function WakeWriter(x: Proc): Proc {
    if x.pc.WriteSleep? then x.(pc := Write(x.pc.src, x.pc.i)) else x
  }

  // Everyone asleep on the read count is woken, or on the write count.
  function WakeReaders(s: Sys): (t: Sys)
    ensures |t.procs| == |s.procs| && t == s.(procs := t.procs)
  {
    s.(procs := seq(|s.procs|, q requires 0 <= q < |s.procs| => WakeReader(s.procs[q])))
  }

  function WakeWriters(s: Sys): (t: Sys)
    ensures |t.procs| == |s.procs| && t == s.(procs := t.procs)
  {
    s.(procs := seq(|s.procs|, q requires 0 <= q < |s.procs| => WakeWriter(s.procs[q])))
  }

  function Goto(s: Sys, p: nat, pc: Pc): Sys
    requires p < |s.procs|
  {
    s.(procs := s.procs[p := s.procs[p].(pc := pc)])
  }

  // pipewrite from acquire to sleep or return.
  function DoWrite(s: Sys, p: nat, bad: nat): Sys
    requires Enabled(s, p, RunWrite(bad))
  {
    var src, i := s.procs[p].pc.src, s.procs[p].pc.i;
    var j := i + Fit(|src|, i, bad, PIPESIZE - |s.buf|);
    var t := s.(buf := s.buf + src[i..j], sent := s.sent + src[i..j]);
    if j < |src| && |t.buf| == PIPESIZE then
      if !s.readopen || s.procs[p].killed then Goto(t, p, Idle)
      else Goto(WakeReaders(t), p, WriteSleep(src, j))
    else Goto(WakeReaders(t), p, Idle)
  }

  // piperead from acquire to sleep or return.
  function DoRead(s: Sys, p: nat, bad: nat): Sys
    requires Enabled(s, p, RunRead(bad))
  {
    var n := s.procs[p].pc.n;
    if s.buf == [] && s.writeopen then
      if s.procs[p].killed then Goto(s, p, Idle) else Goto(s, p, ReadSleep(n))
    else
      var k := Drawn(n, bad, |s.buf|);
      Goto(WakeWriters(s.(buf := s.buf[k..], got := s.got + s.buf[..k])), p, Idle)
  }

  function Do(s: Sys, p: nat, a: Action): Sys
    requires Enabled(s, p, a)
  {
    match a
    case StartWrite(src) => Goto(s, p, Write(src, 0))
    case StartRead(n) => Goto(s, p, Read(n))
    case RunWrite(bad) => DoWrite(s, p, bad)
    case RunRead(bad) => DoRead(s, p, bad)
    case CloseWrite => WakeReaders(s.(writeopen := false))
    case CloseRead => WakeWriters(s.(readopen := false))
    case Kill => s.(procs := s.procs[p := WakeReader(WakeWriter(s.procs[p].(killed := true)))])
  }

  // ---- First in, first out ----

  predicate ProcOk(s: Sys, p: nat)
    requires p < |s.procs|
  {
    var x := s.procs[p];
    && (Writing(x) ==> s.writeopen && x.pc.i <= |x.pc.src|)
    && (Reading(x) ==> s.readopen)
  }

  ghost predicate Inv(s: Sys) {
    && |s.buf| <= PIPESIZE && s.sent == s.got + s.buf
    && forall p: nat {:trigger ProcOk(s, p)} :: p < |s.procs| ==> ProcOk(s, p)
  }

  lemma WriteInv(s: Sys, p: nat, bad: nat)
    requires Inv(s) && Enabled(s, p, RunWrite(bad))
    ensures Inv(DoWrite(s, p, bad)) && |DoWrite(s, p, bad).procs| == |s.procs|
  {
    var t := DoWrite(s, p, bad);
    var src, i := s.procs[p].pc.src, s.procs[p].pc.i;
    var add := src[i..i + Fit(|src|, i, bad, PIPESIZE - |s.buf|)];
    assert ProcOk(s, p) && t.buf == s.buf + add && t.sent == s.sent + add;
    Regroup(s.got, s.buf, add);
    forall q: nat | q < |t.procs| ensures ProcOk(t, q) { assert ProcOk(s, q); }
  }

  lemma ReadInv(s: Sys, p: nat, bad: nat)
    requires Inv(s) && Enabled(s, p, RunRead(bad))
    ensures Inv(DoRead(s, p, bad)) && |DoRead(s, p, bad).procs| == |s.procs|
  {
    var t := DoRead(s, p, bad);
    var k := |s.buf| - |t.buf|;
    assert s.buf == s.buf[..k] + s.buf[k..];
    Regroup(s.got, s.buf[..k], s.buf[k..]);
    forall q: nat | q < |t.procs| ensures ProcOk(t, q) { assert ProcOk(s, q); }
  }

  lemma StepInv(s: Sys, p: nat, a: Action)
    requires Inv(s) && Enabled(s, p, a)
    ensures Inv(Do(s, p, a)) && |Do(s, p, a).procs| == |s.procs|
  {
    var t := Do(s, p, a);
    match a
    case RunWrite(bad) => WriteInv(s, p, bad);
    case RunRead(bad) => ReadInv(s, p, bad);
    case _ => forall q: nat | q < |t.procs| ensures ProcOk(t, q) { assert ProcOk(s, q); }
  }

  // ---- Nobody sleeps on a condition that holds ----

  predicate AwakeOk(s: Sys, p: nat)
    requires p < |s.procs|
  {
    && (s.procs[p].pc.ReadSleep? ==> s.buf == [] && s.writeopen)
    && (s.procs[p].pc.WriteSleep? ==> |s.buf| == PIPESIZE && s.readopen)
  }

  ghost predicate Awake(s: Sys) {
    forall p: nat {:trigger AwakeOk(s, p)} :: p < |s.procs| ==> AwakeOk(s, p)
  }

  predicate ReaderAsleep(s: Sys) {
    exists q :: 0 <= q < |s.procs| && s.procs[q].pc.ReadSleep?
  }

  // A killed writer that will fill the buffer and give up, with a reader asleep.
  predicate Strands(s: Sys, p: nat, a: Action)
    requires Enabled(s, p, a)
  {
    && a.RunWrite? && s.procs[p].killed && ReaderAsleep(s)
    && var src, i := s.procs[p].pc.src, s.procs[p].pc.i;
    |src| - i > PIPESIZE && !(i <= a.bad < i + PIPESIZE)
  }

  lemma WriteAwake(s: Sys, p: nat, bad: nat)
    requires Inv(s) && Awake(s) && Enabled(s, p, RunWrite(bad)) && !Strands(s, p, RunWrite(bad))
    ensures Awake(DoWrite(s, p, bad))
  {
    var t := DoWrite(s, p, bad);
    forall q: nat | q < |t.procs| ensures AwakeOk(t, q) {
      assert AwakeOk(s, q) && ProcOk(s, q) && ProcOk(s, p);
    }
  }

  lemma WriteStrands(s: Sys, p: nat, bad: nat)
    requires Inv(s) && Awake(s) && Enabled(s, p, RunWrite(bad)) && Strands(s, p, RunWrite(bad))
    ensures !Awake(DoWrite(s, p, bad))
  {
    var t := DoWrite(s, p, bad);
    var q: nat :| q < |s.procs| && s.procs[q].pc.ReadSleep?;
    assert AwakeOk(s, q) && ProcOk(s, q);
    assert !AwakeOk(t, q);
  }

  lemma ReadAwake(s: Sys, p: nat, bad: nat)
    requires Inv(s) && Awake(s) && Enabled(s, p, RunRead(bad))
    ensures Awake(DoRead(s, p, bad))
  {
    var t := DoRead(s, p, bad);
    forall q: nat | q < |t.procs| ensures AwakeOk(t, q) {
      assert AwakeOk(s, q) && ProcOk(s, q);
    }
  }

  /** A step leaves nobody asleep on a condition that holds, exactly unless it is a killed
      writer giving up on a buffer it has just filled while a reader sleeps. */
  lemma StepAwake(s: Sys, p: nat, a: Action)
    requires Inv(s) && Awake(s) && Enabled(s, p, a)
    ensures Awake(Do(s, p, a)) <==> !Strands(s, p, a)
  {
    var t := Do(s, p, a);
    match a
    case RunWrite(bad) =>
      if Strands(s, p, a) { WriteStrands(s, p, bad); } else { WriteAwake(s, p, bad); }
    case RunRead(bad) => ReadAwake(s, p, bad);
    case _ =>
      forall q: nat | q < |t.procs| ensures AwakeOk(t, q) { assert AwakeOk(s, q) && ProcOk(s, q); }
  }

  // ---- Runs ----

  datatype Act = Act(p: nat, a: Action)

  function New(n: nat): Sys {
    Sys([], true, true, seq(n, _ => Proc(Idle, false)), [], [])
  }

  // The states of a run and the actions between them.
  predicate Run(tr: seq<Sys>, acts: seq<Act>) {
    && |tr| == |acts| + 1 && tr[0] == New(|tr[0].procs|)
    && forall i {:trigger acts[i]} :: 0 <= i < |acts| ==>
      Enabled(tr[i], acts[i].p, acts[i].a) && tr[i + 1] == Do(tr[i], acts[i].p, acts[i].a)
  }

  /** In every run the bytes taken out, then those in the buffer, are the bytes put in,
      and there are never more than 512 in it. */
  lemma {:induction false} Fifo(tr: seq<Sys>, acts: seq<Act>, k: nat)
    requires Run(tr, acts) && k < |tr|
    ensures Inv(tr[k]) && tr[k].sent == tr[k].got + tr[k].buf && |tr[k].buf| <= 512
    decreases k
  {
    if k == 0 {
      forall p: nat | p < |tr[0].procs| ensures ProcOk(tr[0], p) {}
    } else {
      Fifo(tr, acts, k - 1);
      var x := acts[k - 1];
      StepInv(tr[k - 1], x.p, x.a);
    }
  }

  /** In every run without such a killed writer no reader ever sleeps with data or a closed
      writer, and no writer with space or a closed reader; so the two never sleep at once. */
  lemma {:induction false} NobodyStranded(tr: seq<Sys>, acts: seq<Act>, k: nat)
    requires Run(tr, acts) && k < |tr|
    requires forall i {:trigger acts[i]} :: 0 <= i < |acts| ==> !Strands(tr[i], acts[i].p, acts[i].a)
    ensures Awake(tr[k])
    ensures forall p, q :: 0 <= p < |tr[k].procs| && 0 <= q < |tr[k].procs| ==>
      !(tr[k].procs[p].pc.ReadSleep? && tr[k].procs[q].pc.WriteSleep?)
    decreases k
  {
    if k == 0 {
      forall p: nat | p < |tr[0].procs| ensures AwakeOk(tr[0], p) {}
    } else {
      NobodyStranded(tr, acts, k - 1);
      Fifo(tr, acts, k - 1);
      var x := acts[k - 1];
      StepAwake(tr[k - 1], x.p, x.a);
    }
    forall p, q | 0 <= p < |tr[k].procs| && 0 <= q < |tr[k].procs|
      ensures !(tr[k].procs[p].pc.ReadSleep? && tr[k].procs[q].pc.WriteSleep?)
    {
      assert AwakeOk(tr[k], p) && AwakeOk(tr[k], q);
    }
  }

  /** The exact condition over a run: nobody ever sleeps on a condition that holds if and
      only if no step of the run is such a killed writer. */
  lemma AwakeExactly(tr: seq<Sys>, acts: seq<Act>)
    requires Run(tr, acts)
    ensures (forall k :: 0 <= k < |tr| ==> Awake(tr[k]))
      <==> forall i {:trigger acts[i]} :: 0 <= i < |acts| ==> !Strands(tr[i], acts[i].p, acts[i].a)
  {
    if forall k :: 0 <= k < |tr| ==> Awake(tr[k]) {
      forall i | 0 <= i < |acts| ensures !Strands(tr[i], acts[i].p, acts[i].a) {
        Fifo(tr, acts, i);
        StepAwake(tr[i], acts[i].p, acts[i].a);
        assert Awake(tr[i + 1]);
      }
    }
    if forall i {:trigger acts[i]} :: 0 <= i < |acts| ==> !Strands(tr[i], acts[i].p, acts[i].a) {
      forall k: nat | k < |tr| ensures Awake(tr[k]) { NobodyStranded(tr, acts, k); }
    }
  }

  /** Such a writer: a reader sleeps on an empty pipe, and a writer that has been killed fills
      it and gives up, with one byte more than fits. */
  lemma ReaderStranded(src: seq<byte>) returns (tr: seq<Sys>, acts: seq<Act>)
    requires |src| == PIPESIZE + 1
    ensures Run(tr, acts) && |acts| == 5 && Strands(tr[4], acts[4].p, acts[4].a) && !Awake(tr[5])
  {
    var s0 := New(2);
    var s1 := Do(s0, 0, StartRead(1));
    var s2 := Do(s1, 0, RunRead(0));
    var s3 := Do(s2, 1, StartWrite(src));
    var s4 := Do(s3, 1, Kill);
    var s5 := Do(s4, 1, RunWrite(|src|));
    tr := [s0, s1, s2, s3, s4, s5];
    acts := [Act(0, StartRead(1)), Act(0, RunRead(0)), Act(1, StartWrite(src)), Act(1, Kill), Act(1, RunWrite(|src|))];
    assert s4.procs[0].pc == ReadSleep(1);
    assert !AwakeOk(s5, 0);
  }

  // ---- What was asked for ----

  datatype Call = Writer(src: seq<byte>, done: nat) | Reader(n: nat)

  // The call each process made last, and the bytes that writers have parted with.
  datatype Book = Book(calls: map<nat, Call>, flow: seq<byte>)

  // The book after an action that put so many bytes into the pipe.
  function Entry(b: Book, x: Act, moved: nat): Book {
    match x.a
    case StartWrite(src) => b.(calls := b.calls[x.p := Writer(src, 0)])
    case StartRead(n) => b.(calls := b.calls[x.p := Reader(n)])
    case RunWrite(_) =>
      if x.p in b.calls && b.calls[x.p].Writer? && b.calls[x.p].done + moved <= |b.calls[x.p].src| then
        var c := b.calls[x.p];
        Book(b.calls[x.p := Writer(c.src, c.done + moved)], b.flow + c.src[c.done..c.done + moved])
      else b
    case _ => b
  }

  // The book of a run, from its actions and from how many bytes each put into the pipe.
  function Books(tr: seq<Sys>, acts: seq<Act>, k: nat): Book
    requires k < |tr| && |tr| == |acts| + 1
  {
    if k == 0 then Book(map[], [])
    else
      var a, b := |tr[k - 1].sent|, |tr[k].sent|;
      Entry(Books(tr, acts, k - 1), acts[k - 1], if a <= b then b - a else 0)
  }

  predicate CallOk(s: Sys, b: Book, p: nat)
    requires p < |s.procs|
  {
    && (Writing(s.procs[p]) ==> p in b.calls && b.calls[p] == Writer(s.procs[p].pc.src, s.procs[p].pc.i))
    && (Reading(s.procs[p]) ==> p in b.calls && b.calls[p] == Reader(s.procs[p].pc.n))
  }

  ghost predicate Booked(s: Sys, b: Book) {
    && s.sent == b.flow
    && forall p: nat {:trigger CallOk(s, b, p)} :: p < |s.procs| ==> CallOk(s, b, p)
  }

  // A stretch of a write call c that finds s and leaves t: how far it gets and whether it sleeps.
  predicate WriteStretch(s: Sys, t: Sys, p: nat, c: Call, bad: nat)
    requires p < |s.procs| && p < |t.procs|
  {
    && c.Writer? && |s.buf| <= |t.buf| && c.done + |t.buf| - |s.buf| <= |c.src| && t.got == s.got
    && var done := c.done + |t.buf| - |s.buf|;
    && t.buf == s.buf + c.src[c.done..done] && t.sent == s.sent + c.src[c.done..done]
    && (c.done <= bad ==> done <= bad || c.done == done)
    && (done == |c.src| || |t.buf| == 512 || done == bad)
    && (t.procs[p].pc.WriteSleep? <==> done < |c.src| && |t.buf| == 512 && s.readopen && !s.procs[p].killed)
    && (t.procs[p].pc == WriteSleep(c.src, done) || t.procs[p].pc.Idle?)
  }

  // A stretch of a read call c.
  predicate ReadStretch(s: Sys, t: Sys, p: nat, c: Call, bad: nat)
    requires p < |s.procs| && p < |t.procs|
  {
    && c.Reader? && |t.buf| <= |s.buf| && t.sent == s.sent
    && var k := |s.buf| - |t.buf|;
    && s.buf[k..] == t.buf && t.got == s.got + s.buf[..k] && k <= c.n
    && (k == c.n || t.buf == [] || k == bad + 1) && k <= bad + 1
    && (t.procs[p].pc.ReadSleep? <==> s.buf == [] && s.writeopen && !s.procs[p].killed)
    && (t.procs[p].pc == ReadSleep(c.n) || t.procs[p].pc.Idle?)
  }

  lemma WriteGoes(s: Sys, p: nat, bad: nat, c: Call)
    requires Inv(s) && Enabled(s, p, RunWrite(bad)) && c == Writer(s.procs[p].pc.src, s.procs[p].pc.i)
    ensures |DoWrite(s, p, bad).procs| == |s.procs| && WriteStretch(s, DoWrite(s, p, bad), p, c, bad)
  {
    assert ProcOk(s, p);
  }

  lemma ReadGoes(s: Sys, p: nat, bad: nat, c: Call)
    requires Inv(s) && Enabled(s, p, RunRead(bad)) && c == Reader(s.procs[p].pc.n)
    ensures |DoRead(s, p, bad).procs| == |s.procs| && ReadStretch(s, DoRead(s, p, bad), p, c, bad)
  {
  }

  lemma WriteOther(s: Sys, p: nat, bad: nat, q: nat)
    requires Enabled(s, p, RunWrite(bad)) && q < |s.procs| && q != p
    ensures var t := DoWrite(s, p, bad);
      q < |t.procs| && (t.procs[q] == s.procs[q] || t.procs[q] == WakeReader(s.procs[q]))
  {
    hide Fit;
  }

  lemma WriteBooked(s: Sys, b: Book, p: nat, bad: nat)
    requires Inv(s) && Booked(s, b) && Enabled(s, p, RunWrite(bad))
    ensures |s.sent| <= |DoWrite(s, p, bad).sent|
    ensures var t := DoWrite(s, p, bad); Booked(t, Entry(b, Act(p, RunWrite(bad)), |t.sent| - |s.sent|))
  {
    hide DoWrite, ProcOk;
    var t := DoWrite(s, p, bad);
    assert CallOk(s, b, p);
    WriteGoes(s, p, bad, b.calls[p]);
    var e := Entry(b, Act(p, RunWrite(bad)), |t.sent| - |s.sent|);
    forall q: nat | q < |t.procs| ensures CallOk(t, e, q) {
      assert CallOk(s, b, q);
      if q != p { WriteOther(s, p, bad, q); }
    }
  }

  lemma StepBooked(s: Sys, b: Book, x: Act)
    requires Inv(s) && Booked(s, b) && Enabled(s, x.p, x.a)
    ensures |s.sent| <= |Do(s, x.p, x.a).sent|
    ensures var t := Do(s, x.p, x.a); Booked(t, Entry(b, x, |t.sent| - |s.sent|))
  {
    if x.a.RunWrite? {
      WriteBooked(s, b, x.p, x.a.bad);
    } else {
      var t, e := Do(s, x.p, x.a), Entry(b, x, 0);
      forall q: nat | q < |t.procs| ensures CallOk(t, e, q) { assert CallOk(s, b, q); }
    }
  }

  lemma NewBooked(n: nat)
    ensures Booked(New(n), Book(map[], []))
  {
    forall p: nat | p < n ensures CallOk(New(n), Book(map[], []), p) {}
  }

  /** In every run the bytes that entered the pipe are, in order, the bytes that the write calls
      were given, each call's from its first byte on; and no call forgets what it was given. */
  lemma {:induction false} SentAsAsked(tr: seq<Sys>, acts: seq<Act>, k: nat)
    requires Run(tr, acts) && k < |tr|
    ensures Booked(tr[k], Books(tr, acts, k))
    decreases k
  {
    hide Booked, Inv, Do, Entry;
    if k == 0 {
      NewBooked(|tr[0].procs|);
    } else {
      SentAsAsked(tr, acts, k - 1);
      Fifo(tr, acts, k - 1);
      StepBooked(tr[k - 1], Books(tr, acts, k - 1), acts[k - 1]);
    }
  }

  /** In every run a writer moves on through its call until that is done, copying fails or the
      pipe is full, and sleeps exactly when it is full with a reader to wait for; a reader takes
      what is there, up to what it asked for, and sleeps exactly when there is nothing yet. */
  lemma Stretches(tr: seq<Sys>, acts: seq<Act>, k: nat)
    requires Run(tr, acts) && k < |acts|
    ensures acts[k].p < |tr[k].procs| == |tr[k + 1].procs|
    ensures acts[k].a.RunWrite? ==>
      && acts[k].p in Books(tr, acts, k).calls
      && WriteStretch(tr[k], tr[k + 1], acts[k].p, Books(tr, acts, k).calls[acts[k].p], acts[k].a.bad)
    ensures acts[k].a.RunRead? ==>
      && acts[k].p in Books(tr, acts, k).calls
      && ReadStretch(tr[k], tr[k + 1], acts[k].p, Books(tr, acts, k).calls[acts[k].p], acts[k].a.bad)
  {
    hide WriteStretch, ReadStretch, Books;
    var s, x, b := tr[k], acts[k], Books(tr, acts, k);
    Fifo(tr, acts, k);
    SentAsAsked(tr, acts, k);
    StepInv(s, x.p, x.a);
    assert CallOk(s, b, x.p);
    if x.a.RunWrite? { WriteGoes(s, x.p, x.a.bad, b.calls[x.p]); }
    if x.a.RunRead? { ReadGoes(s, x.p, x.a.bad, b.calls[x.p]); }
  }

  /** In every run an end of the pipe is open exactly until a process closes it. */
  lemma {:induction false} OpenUntilClosed(tr: seq<Sys>, acts: seq<Act>, k: nat)
    requires Run(tr, acts) && k < |tr|
    ensures tr[k].writeopen <==> forall i :: 0 <= i < k ==> !acts[i].a.CloseWrite?
    ensures tr[k].readopen <==> forall i :: 0 <= i < k ==> !acts[i].a.CloseRead?
    decreases k
  {
    if k > 0 {
      OpenUntilClosed(tr, acts, k - 1);
      StepEnds(tr[k - 1], acts[k - 1]);
    }
  }

  lemma StepEnds(s: Sys, x: Act)
    requires Enabled(s, x.p, x.a)
    ensures var t := Do(s, x.p, x.a);
      (t.writeopen <==> s.writeopen && !x.a.CloseWrite?) && (t.readopen <==> s.readopen && !x.a.CloseRead?)
  {
  }

  predicate KilledOk(s: Sys) {
    forall p :: 0 <= p < |s.procs| && s.procs[p].killed ==> !s.procs[p].pc.ReadSleep? && !s.procs[p].pc.WriteSleep?
  }

  lemma StepKilled(s: Sys, x: Act)
    requires Enabled(s, x.p, x.a) && KilledOk(s)
    ensures KilledOk(Do(s, x.p, x.a)) && (x.a.Kill? ==> Do(s, x.p, x.a).procs[x.p].killed)
  {
  }

  /** In every run no killed process is asleep on the pipe. */
  lemma {:induction false} KilledAwake(tr: seq<Sys>, acts: seq<Act>, k: nat)
    requires Run(tr, acts) && k < |tr|
    ensures KilledOk(tr[k])
    decreases k
  {
    if k > 0 {
      KilledAwake(tr, acts, k - 1);
      StepKilled(tr[k - 1], acts[k - 1]);
    }
  }
}
