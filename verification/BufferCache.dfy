/** The buffer cache of kernel/bio.c: its state as a value, the steps processes take
    on it in any order, and what they keep. */
module BufferCache {
  import opened Common
  import opened RedoLog
  import opened Finite

  const NBUF: nat := 30
  const UINT_MAX := 0xFFFF_FFFF

  datatype Key = Key(dev: nat, blockno: nat)

  datatype Buf = Buf(key: Key, refcnt: nat, valid: bool, locked: bool, data: Block)

  /** bufs and order (most recently used first) are the memory of bio.c. users
      counts the calls of bget not yet undone by brelse; dirty marks a held buffer
      whose changes are neither logged nor written; pending holds the blocks logged
      and not yet installed. */
  datatype Cache = Cache(
    bufs: seq<Buf>, order: seq<nat>,
    users: seq<nat>, dirty: seq<bool>, pending: map<Key, Block>, disk: map<Key, Block>)

  // uint refcnt, as C computes it
  function Inc(n: nat): nat { if n >= UINT_MAX then 0 else n + 1 }
  function Dec(n: nat): nat { if n == 0 then UINT_MAX else n - 1 }

  // ---- The cacheless store the cache stands for ----

  predicate InStore(c: Cache, k: Key) { k in c.disk }

  function Store(c: Cache, k: Key): Block
    requires InStore(c, k)
  {
    if k in c.pending then c.pending[k] else c.disk[k]
  }

  // ---- Lookup and replacement ----

  predicate Sized(c: Cache) {
    && |c.bufs| == |c.users| == |c.dirty| == |c.order| == NBUF
    && (forall i :: 0 <= i < NBUF ==> c.order[i] < NBUF)
  }

  predicate HasKey(c: Cache, i: nat, k: Key) { i < |c.bufs| && c.bufs[i].key == k }

  predicate Cached(c: Cache, k: Key) { exists i: nat :: i < |c.bufs| && HasKey(c, i, k) }

  // i is the least recently used buffer nobody references, at place j of the order.
  predicate IsVictim(c: Cache, i: nat, j: nat)
    requires Sized(c)
  {
    && j < NBUF && c.order[j] == i && c.bufs[i].refcnt == 0
    && forall m :: j < m < NBUF ==> c.bufs[c.order[m]].refcnt != 0
  }

  predicate NoBuffer(c: Cache, k: Key)
    requires Sized(c)
  {
    !Cached(c, k) && forall j :: 0 <= j < NBUF ==> c.bufs[c.order[j]].refcnt != 0
  }

  // ---- Steps ----

  function Hit(c: Cache, i: nat): Cache
    requires Sized(c) && i < NBUF
  {
    c.(bufs := c.bufs[i := c.bufs[i].(refcnt := Inc(c.bufs[i].refcnt))],
       users := c.users[i := c.users[i] + 1])
  }

  function Recycle(c: Cache, i: nat, k: Key): Cache
    requires Sized(c) && i < NBUF
  {
    c.(bufs := c.bufs[i := c.bufs[i].(key := k, valid := false, refcnt := 1)],
       users := c.users[i := c.users[i] + 1], dirty := c.dirty[i := false])
  }

  function Lock(c: Cache, i: nat): Cache
    requires Sized(c) && i < NBUF
  {
    c.(bufs := c.bufs[i := c.bufs[i].(locked := true)])
  }

  // The rest of bread: read the block in unless it is valid.
  function Fill(c: Cache, i: nat): Cache
    requires Sized(c) && i < NBUF && InStore(c, c.bufs[i].key)
  {
    if c.bufs[i].valid then c
    else c.(bufs := c.bufs[i := c.bufs[i].(valid := true, data := c.disk[c.bufs[i].key])])
  }

  function Modify(c: Cache, i: nat, x: Block): Cache
    requires Sized(c) && i < NBUF
  {
    c.(bufs := c.bufs[i := c.bufs[i].(data := x)], dirty := c.dirty[i := true])
  }

  // log_write: pin the buffer unless the block is in the log already.
  function LogIt(c: Cache, i: nat): Cache
    requires Sized(c) && i < NBUF
  {
    var b := c.bufs[i];
    c.(bufs := c.bufs[i := b.(refcnt := if b.key in c.pending then b.refcnt else Inc(b.refcnt))],
       dirty := c.dirty[i := false], pending := c.pending[b.key := b.data])
  }

  function WriteBack(c: Cache, i: nat): Cache
    requires Sized(c) && i < NBUF
  {
    c.(disk := c.disk[c.bufs[i].key := c.bufs[i].data], dirty := c.dirty[i := false])
  }

  function Unpin(c: Cache, i: nat): Cache
    requires Sized(c) && i < NBUF
  {
    c.(bufs := c.bufs[i := c.bufs[i].(refcnt := Dec(c.bufs[i].refcnt))],
       pending := c.pending - {c.bufs[i].key})
  }

  // brelse, first half: releasesleep.
  function Unlock(c: Cache, i: nat): Cache
    requires Sized(c) && i < NBUF
  {
    c.(bufs := c.bufs[i := c.bufs[i].(locked := false)])
  }

  function Without(order: seq<nat>, j: nat): seq<nat>
    requires j < |order|
  {
    order[..j] + order[j + 1..]
  }

  // brelse, second half: drop the reference; an unused buffer becomes most recent.
  function Drop(c: Cache, i: nat, j: nat): Cache
    requires Sized(c) && i < NBUF && j < NBUF && c.order[j] == i
    requires c.users[i] > 0
  {
    var r := Dec(c.bufs[i].refcnt);
    c.(bufs := c.bufs[i := c.bufs[i].(refcnt := r)], users := c.users[i := c.users[i] - 1],
       order := if r == 0 then [i] + Without(c.order, j) else c.order)
  }

  datatype Step =
    | SGet(k: Key, i: nat, j: nat)
    | SLock(i: nat) | SFill(i: nat) | SModify(i: nat, x: Block)
    | SLog(i: nat) | SWrite(i: nat) | SUnpin(i: nat)
    | SUnlock(i: nat) | SDrop(i: nat, j: nat)

  // What bio.c itself demands, and what the users of the cache promise:
  // only a holder changes, logs or writes a buffer; a changed buffer is logged or
  // written before it is released; a logged block is written home, with its logged
  // contents, before it is unpinned.
  predicate Enabled(c: Cache, s: Step)
    requires Sized(c)
  {
    match s
    case SGet(k, i, j) =>
      && k.dev != 0 && k in c.disk && i < NBUF && c.users[i] < UINT_MAX - 1
      && (HasKey(c, i, k) || (!Cached(c, k) && IsVictim(c, i, j)))
    case SLock(i) => i < NBUF && !c.bufs[i].locked && c.users[i] > 0
    case SFill(i) => i < NBUF && c.bufs[i].locked
    case SModify(i, _) => i < NBUF && c.bufs[i].locked && c.bufs[i].valid
    case SLog(i) => i < NBUF && c.bufs[i].locked && c.bufs[i].valid
    case SWrite(i) =>
      && i < NBUF && c.bufs[i].locked && c.bufs[i].valid
      && (c.bufs[i].key in c.pending ==> c.pending[c.bufs[i].key] == c.bufs[i].data)
    case SUnpin(i) =>
      && i < NBUF && c.bufs[i].locked && c.bufs[i].key in c.pending && c.bufs[i].key in c.disk
      && c.pending[c.bufs[i].key] == c.disk[c.bufs[i].key]
    case SUnlock(i) => i < NBUF && c.bufs[i].locked && !c.dirty[i] && c.bufs[i].valid
    case SDrop(i, j) =>
      && i < NBUF && j < NBUF && c.order[j] == i
      && c.users[i] > if c.bufs[i].locked then 1 else 0
  }

  // ---- The invariant ----

  predicate IsPermutation(order: seq<nat>) {
    && |order| == NBUF
    && (forall i :: 0 <= i < NBUF ==> order[i] < NBUF)
    && forall i, j :: 0 <= i < j < NBUF ==> order[i] != order[j]
  }

  // At most one buffer holds a given block of a non-zero device.
  predicate Unique(c: Cache)
    requires Sized(c)
  {
    forall i, j :: 0 <= i < NBUF && 0 <= j < NBUF && c.bufs[i].key == c.bufs[j].key && c.bufs[i].key.dev != 0
      ==> i == j
  }

  function Pins(c: Cache, i: nat): nat
    requires i < |c.bufs|
  {
    if c.bufs[i].key in c.pending then 1 else 0
  }

  predicate BufInv(c: Cache, i: nat)
    requires Sized(c) && i < NBUF
  {
    var b := c.bufs[i];
    && c.users[i] < UINT_MAX
    && b.refcnt == c.users[i] + Pins(c, i)
    && (b.locked ==> c.users[i] > 0)
    && (c.users[i] > 0 ==> b.key.dev != 0)
    && (c.dirty[i] ==> b.locked && b.valid)
    && (b.key.dev != 0 ==> InStore(c, b.key))
    && (b.key.dev != 0 && b.valid && !c.dirty[i] ==> b.data == Store(c, b.key))
  }

  // Every pending block is in a valid buffer.
  predicate PendingInv(c: Cache)
    requires Sized(c)
  {
    forall k :: k in c.pending ==>
      && k.dev != 0 && k in c.disk
      && exists i: nat :: i < NBUF && HasKey(c, i, k) && c.bufs[i].valid
  }

  predicate Inv(c: Cache) {
    && Sized(c) && IsPermutation(c.order)
    && Unique(c)
    && (forall i :: 0 <= i < NBUF ==> BufInv(c, i))
    && PendingInv(c)
  }

  function Next(c: Cache, s: Step): Cache
    requires Sized(c) && Enabled(c, s) && (s.SFill? ==> InStore(c, c.bufs[s.i].key))
  {
    match s
    case SGet(k, i, j) => if HasKey(c, i, k) then Hit(c, i) else Recycle(c, i, k)
    case SLock(i) => Lock(c, i)
    case SFill(i) => Fill(c, i)
    case SModify(i, x) => Modify(c, i, x)
    case SLog(i) => LogIt(c, i)
    case SWrite(i) => WriteBack(c, i)
    case SUnpin(i) => Unpin(c, i)
    case SUnlock(i) => Unlock(c, i)
    case SDrop(i, j) => Drop(c, i, j)
  }

  lemma StepInv(c: Cache, s: Step)
    requires Inv(c) && Enabled(c, s)
    ensures s.SFill? ==> InStore(c, c.bufs[s.i].key)
    ensures Inv(Next(c, s))
  {
    if s.SFill? {
      assert BufInv(c, s.i);
    }
    var d := Next(c, s);
    OrderKept(c, s);
    forall i | 0 <= i < NBUF ensures BufInv(d, i) { BufKept(c, s, i); }
    UniqueKept(c, s);
    forall k | k in d.pending
      ensures k.dev != 0 && k in d.disk
      ensures exists i: nat :: i < NBUF && HasKey(d, i, k) && d.bufs[i].valid
    {
      PendingKept(c, s, k);
    }
  }

  lemma OrderKept(c: Cache, s: Step)
    requires Inv(c) && Enabled(c, s) && (s.SFill? ==> InStore(c, c.bufs[s.i].key))
    ensures Sized(Next(c, s)) && IsPermutation(Next(c, s).order)
  {
    if s.SDrop? { FrontKept(c.order, s.j); }
  }

  lemma FrontKept(order: seq<nat>, j: nat)
    requires IsPermutation(order) && j < NBUF
    ensures IsPermutation([order[j]] + Without(order, j))
  {
  }

  lemma UniqueKept(c: Cache, s: Step)
    requires Inv(c) && Enabled(c, s) && (s.SFill? ==> InStore(c, c.bufs[s.i].key))
    requires Sized(Next(c, s))
    ensures Unique(Next(c, s))
  {
    if s.SGet? && !HasKey(c, s.i, s.k) {
      forall m: nat | m < NBUF ensures c.bufs[m].key != s.k { assert !HasKey(c, m, s.k); }
    }
  }

  lemma BufKept(c: Cache, s: Step, m: nat)
    requires Inv(c) && Enabled(c, s) && (s.SFill? ==> InStore(c, c.bufs[s.i].key)) && m < NBUF
    requires Sized(Next(c, s))
    ensures BufInv(Next(c, s), m)
  {
    hide Inv, BufInv;
    if s.SGet? { GetKept(c, s.k, s.i, s.j, m); } else { HeldKept(c, s, m); }
  }

  // bget: a block that no buffer holds has no pin either.
  lemma GetKept(c: Cache, k: Key, i: nat, j: nat, m: nat)
    requires Inv(c) && Enabled(c, SGet(k, i, j)) && m < NBUF
    ensures BufInv(Next(c, SGet(k, i, j)), m)
  {
    hide IsPermutation;
    assert BufInv(c, m);
    assert BufInv(c, i);
    if c.bufs[m].key == c.bufs[i].key && c.bufs[m].key.dev != 0 { assert m == i; }
  }

  lemma HeldKept(c: Cache, s: Step, m: nat)
    requires Inv(c) && Enabled(c, s) && (s.SFill? ==> InStore(c, c.bufs[s.i].key)) && m < NBUF
    requires Sized(Next(c, s)) && !s.SGet?
    ensures BufInv(Next(c, s), m)
  {
    hide IsPermutation, Without, Cached, IsVictim;
    assert BufInv(c, m);
    assert BufInv(c, s.i);
    if c.bufs[m].key == c.bufs[s.i].key && c.bufs[m].key.dev != 0 { assert m == s.i; }
  }

  lemma PendingKept(c: Cache, s: Step, k: Key)
    requires Inv(c) && Enabled(c, s) && (s.SFill? ==> InStore(c, c.bufs[s.i].key))
    requires Sized(Next(c, s)) && k in Next(c, s).pending
    ensures k.dev != 0 && k in Next(c, s).disk
    ensures exists i: nat :: i < NBUF && HasKey(Next(c, s), i, k) && Next(c, s).bufs[i].valid
  {
    var d := Next(c, s);
    assert BufInv(c, s.i);
    if k in c.pending {
      var i: nat :| i < NBUF && HasKey(c, i, k) && c.bufs[i].valid;
      assert BufInv(c, i);
      assert HasKey(d, i, k) && d.bufs[i].valid;
    } else {
      assert HasKey(d, s.i, k) && d.bufs[s.i].valid;
    }
  }

  // ---- Whole runs ----

  predicate Run(c: Cache, steps: seq<Step>, d: Cache)
    decreases |steps|
  {
    if steps == [] then d == c
    else
      && Sized(c) && Enabled(c, steps[0])
      && (steps[0].SFill? ==> InStore(c, c.bufs[steps[0].i].key))
      && Run(Next(c, steps[0]), steps[1..], d)
  }

  // What each step means to the cacheless store: only logging, writing and
  // unpinning touch it, and the last two never change what a reader sees of a
  // block that has pending contents.
  predicate StoreStep(c: Cache, s: Step, d: Cache)
    requires Sized(c) && Enabled(c, s)
  {
    && d.disk.Keys == c.disk.Keys
    && forall k :: k in c.disk ==>
         Store(d, k) == if (s.SLog? || s.SWrite?) && k == c.bufs[s.i].key then c.bufs[s.i].data else Store(c, k)
  }

  /** Evicting, filling, locking and releasing lose nothing: each step acts on the
      cacheless store as a plain write of the held buffer, or not at all. */
  lemma StepRefinesStore(c: Cache, s: Step)
    requires Inv(c) && Enabled(c, s)
    ensures s.SFill? ==> InStore(c, c.bufs[s.i].key)
    ensures StoreStep(c, s, Next(c, s))
  {
    hide Unique, IsPermutation, PendingInv;
    assert BufInv(c, s.i);
    StoreKept(c, s);
  }

  lemma StoreKept(c: Cache, s: Step)
    requires Sized(c) && Enabled(c, s) && BufInv(c, s.i) && (s.SFill? ==> InStore(c, c.bufs[s.i].key))
    ensures StoreStep(c, s, Next(c, s))
  {
    hide Cached, IsVictim, HasKey, Without;
  }

  lemma {:induction false} RunInv(c: Cache, steps: seq<Step>, d: Cache)
    requires Inv(c) && Run(c, steps, d)
    ensures Inv(d)
    decreases |steps|
  {
    if steps != [] {
      StepInv(c, steps[0]);
      RunInv(Next(c, steps[0]), steps[1..], d);
    }
  }

  /** Cache agreement: after any run, when a holder has filled its buffer, the data
      is what the cacheless store with pending log updates holds for that block, and
      no other buffer holds the block. */
  lemma ReadAgrees(c: Cache, steps: seq<Step>, d: Cache, i: nat)
    requires Inv(c) && Run(c, steps, d)
    requires i < NBUF && |d.bufs| == NBUF && d.bufs[i].locked && |d.dirty| == NBUF && !d.dirty[i]
    ensures InStore(d, d.bufs[i].key)
    ensures Inv(d) && Fill(d, i).bufs[i].data == Store(d, d.bufs[i].key)
    ensures forall j: nat :: j < NBUF && HasKey(d, j, d.bufs[i].key) ==> j == i
  {
    RunInv(c, steps, d);
    assert BufInv(d, i);
    StepInv(d, SFill(i));
    assert BufInv(Fill(d, i), i);
  }

  // ---- Reads see the last write ----

  /** What the steps of a run ask for: the block each buffer was last got for, contents put into
      it and not yet passed on, and the blocks as logged or written so far. */
  datatype Ledger = Ledger(names: seq<Key>, put: seq<Option<Block>>, store: map<Key, Block>)

  function Enter(o: Ledger, s: Step): (r: Ledger)
    requires |o.names| == |o.put| == NBUF
    ensures |r.names| == |r.put| == NBUF
  {
    match s
    case SGet(k, i, _) => if i < NBUF then o.(names := o.names[i := k]) else o
    case SModify(i, x) => if i < NBUF then o.(put := o.put[i := Some(x)]) else o
    case SLog(i) => PassOn(o, i)
    case SWrite(i) => PassOn(o, i)
    case _ => o
  }

  function PassOn(o: Ledger, i: nat): (r: Ledger)
    requires |o.names| == |o.put| == NBUF
    ensures |r.names| == |r.put| == NBUF
  {
    if i < NBUF && o.put[i].Some? then
      o.(store := o.store[o.names[i] := o.put[i].value], put := o.put[i := None])
    else o
  }

  function Entries(o: Ledger, steps: seq<Step>): (r: Ledger)
    requires |o.names| == |o.put| == NBUF
    ensures |r.names| == |r.put| == NBUF
    decreases |steps|
  {
    if steps == [] then o else Entries(Enter(o, steps[0]), steps[1..])
  }

  // The ledger of a cache with no changes outstanding.
  function Opening(c: Cache): (o: Ledger)
    requires Sized(c)
    ensures |o.names| == |o.put| == NBUF
  {
    Ledger(seq(NBUF, i requires 0 <= i < NBUF => c.bufs[i].key), seq(NBUF, _ => None),
           map k | k in c.disk :: Store(c, k))
  }

  predicate BufTally(c: Cache, o: Ledger, i: nat)
    requires Sized(c) && |o.names| == |o.put| == NBUF && i < NBUF
  {
    && o.names[i] == c.bufs[i].key && (c.dirty[i] <==> o.put[i].Some?)
    && (c.dirty[i] ==> c.bufs[i].data == o.put[i].value)
  }

  predicate Tally(c: Cache, o: Ledger) {
    && Sized(c) && |o.names| == |o.put| == NBUF
    && (forall i :: 0 <= i < NBUF ==> BufTally(c, o, i))
    && o.store.Keys == c.disk.Keys && forall k :: k in c.disk ==> Store(c, k) == o.store[k]
  }

  lemma BufTallyKept(c: Cache, o: Ledger, s: Step, i: nat)
    requires Sized(c) && Enabled(c, s) && Tally(c, o) && (s.SFill? ==> InStore(c, c.bufs[s.i].key)) && i < NBUF
    requires BufInv(c, s.i) && Sized(Next(c, s))
    ensures BufTally(Next(c, s), Enter(o, s), i)
  {
    hide Cached, Without, Store;
    assert BufTally(c, o, i) && BufTally(c, o, s.i);
  }

  lemma StepTally(c: Cache, o: Ledger, s: Step)
    requires Inv(c) && Enabled(c, s) && Tally(c, o) && (s.SFill? ==> InStore(c, c.bufs[s.i].key))
    ensures |o.names| == |o.put| == NBUF && Tally(Next(c, s), Enter(o, s))
  {
    hide Next, Cached, IsVictim, IsPermutation, Unique, PendingInv;
    StepInv(c, s);
    StepRefinesStore(c, s);
    assert BufInv(c, s.i) && BufTally(c, o, s.i);
    var d, r := Next(c, s), Enter(o, s);
    forall i | 0 <= i < NBUF ensures BufTally(d, r, i) { BufTallyKept(c, o, s, i); }
  }

  lemma {:induction false} RunTally(c: Cache, steps: seq<Step>, d: Cache, o: Ledger)
    requires Inv(c) && Run(c, steps, d) && |o.names| == |o.put| == NBUF && Tally(c, o)
    ensures Tally(d, Entries(o, steps))
    decreases |steps|
  {
    hide Inv, Next, Tally, Enter;
    if steps != [] {
      StepInv(c, steps[0]);
      StepTally(c, o, steps[0]);
      RunTally(Next(c, steps[0]), steps[1..], d, Enter(o, steps[0]));
    }
  }

  /** After any run from a cache with no changes outstanding, a holder that fills its buffer reads
      what the run last logged or wrote for the block it asked for, or else what was there. */
  lemma ReadsLastWrite(c: Cache, steps: seq<Step>, d: Cache, i: nat)
    requires Inv(c) && Run(c, steps, d) && forall m :: 0 <= m < NBUF ==> !c.dirty[m]
    requires i < NBUF && |d.bufs| == NBUF && d.bufs[i].locked && |d.dirty| == NBUF && !d.dirty[i]
    ensures Inv(d) && InStore(d, d.bufs[i].key)
    ensures var r := Entries(Opening(c), steps);
      r.names[i] in r.store && Fill(d, i).bufs[i].data == r.store[r.names[i]]
  {
    var o := Opening(c);
    forall m | 0 <= m < NBUF ensures BufTally(c, o, m) {}
    RunTally(c, steps, d, o);
    ReadAgrees(c, steps, d, i);
    assert BufTally(d, Entries(o, steps), i);
  }

  // ---- Least recently used ----

  /** A buffer whose count drops to 0 comes first, the others keep their order, and nothing
      moves otherwise. */
  lemma DropOrder(c: Cache, i: nat, j: nat)
    requires Inv(c) && Enabled(c, SDrop(i, j))
    ensures var d := Drop(c, i, j);
      && |d.order| == |c.order|
      && (d.bufs[i].refcnt != 0 ==> d.order == c.order)
      && (d.bufs[i].refcnt == 0 ==>
            && d.order[0] == i
            && (forall m :: 1 <= m < NBUF ==> d.order[m] == c.order[if m <= j then m - 1 else m])
            && forall m :: 0 <= m < NBUF && c.order[m] == i ==> m == j)
  {
    hide Unique, PendingInv, BufInv;
  }

  // For each buffer the time at which its last user let go of it; a run's first step is at now.
  function Stamps(c: Cache, steps: seq<Step>, d: Cache, st: seq<nat>, now: nat): (r: seq<nat>)
    requires Run(c, steps, d) && |st| == NBUF
    ensures |r| == NBUF
    decreases |steps|
  {
    if steps == [] then st
    else
      var s, c' := steps[0], Next(c, steps[0]);
      var st' := if s.SDrop? && s.i < |c'.bufs| && c'.bufs[s.i].refcnt == 0 then st[s.i := now] else st;
      Stamps(c', steps[1..], d, st', now + 1)
  }

  // Earlier in the order is later in time.
  predicate ByRecency(order: seq<nat>, st: seq<nat>)
    requires IsPermutation(order) && |st| == NBUF
  {
    forall a, b :: 0 <= a < b < NBUF ==> st[order[a]] >= st[order[b]]
  }

  lemma DropRecency(c: Cache, i: nat, j: nat, st: seq<nat>, now: nat)
    requires Inv(c) && Enabled(c, SDrop(i, j)) && |st| == NBUF && ByRecency(c.order, st)
    requires forall m :: 0 <= m < NBUF ==> st[m] < now
    ensures IsPermutation(Drop(c, i, j).order)
    ensures ByRecency(Drop(c, i, j).order, if Drop(c, i, j).bufs[i].refcnt == 0 then st[i := now] else st)
  {
    hide Unique, PendingInv, BufInv, Drop;
    StepInv(c, SDrop(i, j));
    DropOrder(c, i, j);
  }

  lemma StepRecency(c: Cache, s: Step, st: seq<nat>, now: nat)
    requires Inv(c) && Enabled(c, s) && (s.SFill? ==> InStore(c, c.bufs[s.i].key))
    requires |st| == NBUF && ByRecency(c.order, st) && forall m :: 0 <= m < NBUF ==> st[m] < now
    ensures var d := Next(c, s);
      && IsPermutation(d.order)
      && ByRecency(d.order, if s.SDrop? && s.i < |d.bufs| && d.bufs[s.i].refcnt == 0 then st[s.i := now] else st)
  {
    hide Unique, PendingInv, BufInv, ByRecency, IsPermutation;
    if s.SDrop? { DropRecency(c, s.i, s.j, st, now); }
  }

  lemma InvOrder(c: Cache)
    requires Inv(c)
    ensures IsPermutation(c.order)
  {
  }

  lemma {:induction false} RecencyRun(c: Cache, steps: seq<Step>, d: Cache, st: seq<nat>, now: nat)
    requires Inv(c) && Run(c, steps, d) && |st| == NBUF && ByRecency(c.order, st)
    requires forall m :: 0 <= m < NBUF ==> st[m] < now
    ensures Inv(d) && ByRecency(d.order, Stamps(c, steps, d, st, now))
    decreases |steps|
  {
    hide Inv, Next, ByRecency, IsPermutation;
    InvOrder(c);
    if steps != [] {
      var s, c' := steps[0], Next(c, steps[0]);
      StepInv(c, s);
      StepRecency(c, s, st, now);
      var st' := if s.SDrop? && s.i < |c'.bufs| && c'.bufs[s.i].refcnt == 0 then st[s.i := now] else st;
      RecencyRun(c', steps[1..], d, st', now + 1);
    }
  }

  /** After any run from any cache, bget recycles, of the buffers nobody references, one whose
      last user let go of it earliest. */
  lemma LeastRecentlyUsed(c: Cache, steps: seq<Step>, d: Cache, k: Key, i: nat, j: nat, m: nat)
    requires Inv(c) && Run(c, steps, d) && Sized(d) && Enabled(d, SGet(k, i, j)) && !HasKey(d, i, k)
    requires m < NBUF && d.bufs[m].refcnt == 0
    ensures var st := Stamps(c, steps, d, seq(NBUF, _ => 0), 1); st[i] <= st[m]
  {
    RecencyRun(c, steps, d, seq(NBUF, _ => 0), 1);
    Surjective(d.order, m);
    var a :| 0 <= a < NBUF && d.order[a] == m;
  }

  // ---- Recovery's unbalanced unpin ----

  // install_trans on one home block, once bget has counted the caller: the rest of bread,
  // the copy x from the log, bwrite, bunpin, brelse.
  function Install(c: Cache, i: nat, j: nat, x: Block): Cache
    requires Sized(c) && i < NBUF && j < NBUF && c.order[j] == i && c.users[i] > 0 && InStore(c, c.bufs[i].key)
  {
    Drop(Unlock(Unpin(WriteBack(Modify(Fill(Lock(c, i), i), i, x), i), i), i), i, j)
  }

  // A buffer that bget has returned and nobody has locked, at place j of the order.
  predicate Gotten(c: Cache, i: nat, j: nat) {
    && Sized(c) && i < NBUF && j < NBUF && c.order[j] == i && c.users[i] > 0
    && !c.bufs[i].locked && InStore(c, c.bufs[i].key)
  }

  // What installing does to the counts and to the block, pinned or not.
  lemma InstallEffect(c: Cache, i: nat, j: nat, x: Block)
    requires Inv(c) && Gotten(c, i, j)
    ensures var d, k := Install(c, i, j, x), c.bufs[i].key;
      && d.users == c.users[i := c.users[i] - 1] && d.bufs[i].refcnt == Dec(Dec(c.bufs[i].refcnt))
      && d.bufs[i].key == k && k !in d.pending && InStore(d, k) && Store(d, k) == x
  {
    hide Unique, IsPermutation, PendingInv, Cached, BufInv;
  }

  /** On commit's path the home block is pinned and x is what was logged: counts stay
      right, the pin is gone, and no reader sees a change. */
  lemma InstallBalancedWhenPinned(c: Cache, i: nat, j: nat, x: Block)
    requires Inv(c) && Gotten(c, i, j) && c.bufs[i].key in c.pending && c.pending[c.bufs[i].key] == x
    ensures Inv(Install(c, i, j, x)) && c.bufs[i].key !in Install(c, i, j, x).pending
    ensures InStore(Install(c, i, j, x), c.bufs[i].key)
    ensures Store(Install(c, i, j, x), c.bufs[i].key) == Store(c, c.bufs[i].key)
  {
    hide Unique, IsPermutation, PendingInv, BufInv, Cached;
    InstallEffect(c, i, j, x);
    StepInv(c, SLock(i));
    var c1 := Lock(c, i);
    StepInv(c1, SFill(i));
    var c2 := Fill(c1, i);
    StepInv(c2, SModify(i, x));
    var c3 := Modify(c2, i, x);
    StepInv(c3, SWrite(i));
    var c4 := WriteBack(c3, i);
    StepInv(c4, SUnpin(i));
    var c5 := Unpin(c4, i);
    StepInv(c5, SUnlock(i));
    StepInv(Unlock(c5, i), SDrop(i, j));
  }

  /** The exact condition for install_trans to keep the cache's counts right, and with
      them its whole invariant: the block has a pin to drop. Commit installs pinned
      blocks; recovery runs the same code on blocks that nobody pinned. */
  lemma InstallKeepsCountsExactly(c: Cache, i: nat, j: nat, x: Block)
    requires Inv(c) && Gotten(c, i, j)
    requires c.bufs[i].key in c.pending ==> c.pending[c.bufs[i].key] == x
    ensures Inv(Install(c, i, j, x)) <==> c.bufs[i].key in c.pending
  {
    hide Unique, IsPermutation, PendingInv, Cached;
    if c.bufs[i].key in c.pending {
      InstallBalancedWhenPinned(c, i, j, x);
    } else {
      InstallEffect(c, i, j, x);
      assert BufInv(c, i);
      assert !BufInv(Install(c, i, j, x), i);
    }
  }

  /** What follows from a missing pin: the count of an unused home buffer wraps to
      UINT_MAX, the next holder brings it to 0, and bget can give the held buffer away
      to another block k. */
  lemma RecoveryUnpinBreaksCounts(c: Cache, i: nat, j: nat, x: Block, k: Key)
    requires Inv(c) && IsVictim(c, i, j) && InStore(c, c.bufs[i].key) && !Cached(c, k)
    ensures i < NBUF && Install(Hit(c, i), i, j, x).bufs[i].refcnt == UINT_MAX
    ensures var held := Lock(Hit(Install(Hit(c, i), i, j, x), i), i);
      && held.bufs[i].locked && held.bufs[i].key == c.bufs[i].key
      && !Cached(held, k) && IsVictim(held, i, j)
      && Recycle(held, i, k).bufs[i].locked && Recycle(held, i, k).bufs[i].key == k
  {
    assert BufInv(c, i);
    var held := Lock(Hit(Install(Hit(c, i), i, j, x), i), i);
    forall m: nat | m < NBUF ensures !HasKey(held, m, k) { assert !HasKey(c, m, k); }
  }
}
