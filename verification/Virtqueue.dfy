/** The split virtqueue of kernel/virtio_disk.c with its driver threads, its interrupt
    handler and a device that completes each request once, in any order. Every stretch
    under vdisk_lock is one step; the device steps at any time. */
module Virtqueue {
  import opened Finite

  datatype Desc = Desc(next: nat, flags: nat)

  datatype Phase = Posted | Taken | Completed | Acked

  // The request whose chain starts at a descriptor: the other two, its buffer, its thread.
  datatype Chain = Chain(i1: nat, i2: nat, b: nat, p: nat, phase: Phase)

  // Want and Wake are about to take the lock; b is the buffer, h the head of its chain.
  datatype Pc =
    | Idle | Want(b: nat, write: bool) | AllocSleep(b: nat, write: bool) | Wake(b: nat, h: nat) | Sleep(b: nat, h: nat)

  /** free to usedIdx are the driver's struct disk, used and usedId the device's area;
      busy holds the buffers with b->disk == 1. The rest is history: who owns a slot, the
      requests in flight, all heads ever posted and completed, and how many of them the
      device has taken and the handler has seen. */
  datatype Sys = Sys(
    free: seq<bool>, desc: seq<Desc>, info: seq<int>, avail: seq<nat>, availIdx: nat, usedIdx: nat,
    used: seq<nat>, usedId: nat, busy: set<int>, pcs: seq<Pc>,
    own: seq<int>, chains: map<int, Chain>, posted: seq<nat>, taken: nat, completed: seq<nat>, acked: nat)

  datatype Action =
    | Start(b: nat, write: bool) | Alloc(i0: nat, i1: nat, i2: nat) | AllocFail | Finish | Spurious
    | DeviceTake | DeviceComplete(h: nat) | Intr

  // ---- The invariant ----

  predicate Shape(s: Sys) {
    |s.free| == 8 && |s.desc| == 8 && |s.info| == 8 && |s.avail| == 8 && |s.used| == 8 && |s.own| == 8
  }

  predicate Part(c: Chain, h: int, i: nat) {
    i == h || i == c.i1 || i == c.i2
  }

  // A slot is free or part of one chain.
  predicate SlotOk(s: Sys, i: nat)
    requires Shape(s) && i < 8
  {
    && (s.free[i] <==> s.own[i] == -1)
    && (s.own[i] != -1 ==> s.own[i] in s.chains && Part(s.chains[s.own[i]], s.own[i], i))
  }

  // The descriptors of a chain are its own and linked in order.
  predicate ChainOk(s: Sys, h: int)
    requires Shape(s) && h in s.chains
  {
    var c := s.chains[h];
    && 0 <= h < 8 && c.i1 < 8 && c.i2 < 8 && h != c.i1 && h != c.i2 && c.i1 != c.i2
    && s.own[h] == h && s.own[c.i1] == h && s.own[c.i2] == h
    && s.desc[h].next == c.i1 && s.desc[h].flags % 2 == 1
    && s.desc[c.i1].next == c.i2 && s.desc[c.i1].flags % 2 == 1
    && s.desc[c.i2].flags % 2 == 0
    && s.info[h] == c.b && (c.phase == Acked <==> c.b !in s.busy)
    && c.p < |s.pcs| && (s.pcs[c.p] == Wake(c.b, h) || s.pcs[c.p] == Sleep(c.b, h))
  }

  function BufOf(pc: Pc): int {
    if pc.Idle? then -1 else pc.b
  }

  // Threads wait for what has not happened yet, each on a buffer of its own.
  predicate ThreadOk(s: Sys, p: nat)
    requires p < |s.pcs|
  {
    match s.pcs[p]
    case Idle => true
    case Want(b, _) => b !in s.busy
    case AllocSleep(b, _) => b !in s.busy && !ThreeFree(s)
    case Wake(b, h) => h in s.chains && s.chains[h].b == b && s.chains[h].p == p
    case Sleep(b, h) => h in s.chains && s.chains[h].b == b && s.chains[h].p == p && b in s.busy
  }

  predicate Apart(s: Sys, p: nat, q: nat)
    requires p < |s.pcs| && q < |s.pcs|
  {
    p != q && !s.pcs[p].Idle? ==> BufOf(s.pcs[p]) != BufOf(s.pcs[q])
  }

  predicate ThreeFree(s: Sys) {
    exists i, j, k :: 0 <= i < j < k < |s.free| && s.free[i] && s.free[j] && s.free[k]
  }

  // The k-th completion is in the used ring and its request is waiting to be acknowledged.
  predicate UsedAt(s: Sys, k: nat)
    requires Shape(s) && k < |s.completed|
  {
    && s.used[k % 8] == s.completed[k] && s.completed[k] in s.chains
    && s.chains[s.completed[k]].phase == Completed
  }

  predicate AvailAt(s: Sys, k: nat)
    requires Shape(s) && k < |s.posted|
  {
    && s.avail[k % 8] == s.posted[k] && s.posted[k] in s.chains
    && s.chains[s.posted[k]].phase == Posted
  }

  ghost predicate Rings(s: Sys)
    requires Shape(s)
  {
    && s.acked <= |s.completed| && s.usedId == |s.completed| % 0x1_0000 && s.usedIdx == s.acked % 8
    && (forall k: nat {:trigger UsedAt(s, k)} :: s.acked <= k < |s.completed| ==> UsedAt(s, k))
    && (forall k, l :: s.acked <= k < l < |s.completed| ==> s.completed[k] != s.completed[l])
    && s.taken <= |s.posted| && s.availIdx == |s.posted| % 0x1_0000
    && (forall k: nat {:trigger AvailAt(s, k)} :: s.taken <= k < |s.posted| ==> AvailAt(s, k))
    && (forall k, l :: s.taken <= k < l < |s.posted| ==> s.posted[k] != s.posted[l])
  }

  ghost predicate Inv(s: Sys) {
    && Shape(s)
    && (forall i: nat {:trigger SlotOk(s, i)} :: i < 8 ==> SlotOk(s, i))
    && (forall h {:trigger ChainOk(s, h)} :: h in s.chains ==> ChainOk(s, h))
    && (forall p: nat {:trigger ThreadOk(s, p)} :: p < |s.pcs| ==> ThreadOk(s, p))
    && (forall p: nat, q: nat {:trigger Apart(s, p, q)} :: p < |s.pcs| && q < |s.pcs| ==> Apart(s, p, q))
    && Rings(s)
  }

  lemma UnionSize(a: set<nat>, b: set<nat>)
    requires a !! b
    ensures |a + b| == |a| + |b|
  {
  }

  lemma Below(u: set<nat>, n: nat)
    requires forall i :: i in u ==> i < n
    ensures |u| <= n
  {
    SubsetSize(u, UpTo(n));
  }

  lemma NineSlots(a: set<nat>, b: set<nat>, c: set<nat>)
    requires |a| == 3 && |b| == 3 && a !! b && b !! c && a !! c
    requires forall i :: i in a + b + c ==> i < 8
    ensures |c| <= 2
  {
    UnionSize(a, b);
    UnionSize(a + b, c);
    Below(a + b + c, 8);
  }

  // The descriptors of a chain.
  function Slots(s: Sys, h: nat): (r: set<nat>)
    requires h in s.chains
  {
    {h, s.chains[h].i1, s.chains[h].i2}
  }

  lemma ChainSlots(s: Sys, h: nat)
    requires Shape(s) && h in s.chains && ChainOk(s, h)
    ensures |Slots(s, h)| == 3 && forall i :: i in Slots(s, h) ==> i < 8 && s.own[i] == h
  {
    var c := s.chains[h];
    assert Slots(s, h) == {h} + {c.i1} + {c.i2};
  }

  /** At most two requests are in flight: three chains would need nine descriptors. */
  lemma NoThree(s: Sys, a: nat, b: nat, c: nat)
    requires Inv(s) && a in s.chains && b in s.chains && c in s.chains
    ensures a == b || b == c || a == c
  {
    assert ChainOk(s, a) && ChainOk(s, b) && ChainOk(s, c);
    ChainSlots(s, a);
    ChainSlots(s, b);
    ChainSlots(s, c);
    if a != b && b != c && a != c { NineSlots(Slots(s, a), Slots(s, b), Slots(s, c)); }
  }

  lemma FewCompleted(s: Sys)
    requires Inv(s)
    ensures |s.completed| - s.acked <= 2
  {
    var d := s.acked;
    if |s.completed| - d > 2 {
      assert UsedAt(s, d) && UsedAt(s, d + 1) && UsedAt(s, d + 2);
      NoThree(s, s.completed[d], s.completed[d + 1], s.completed[d + 2]);
    }
  }

  lemma FewPosted(s: Sys)
    requires Inv(s)
    ensures |s.posted| - s.taken <= 2
  {
    var t := s.taken;
    if |s.posted| - t > 2 {
      assert AvailAt(s, t) && AvailAt(s, t + 1) && AvailAt(s, t + 2);
      NoThree(s, s.posted[t], s.posted[t + 1], s.posted[t + 2]);
    }
  }

  lemma Mod8(d: nat, c: nat)
    requires d <= c <= d + 7
    ensures d % 8 % 8 != c % 0x1_0000 % 8 <==> d < c
  {
    RingIndex(c);
    if d < c { RingApart(d, c); }
  }

  /** Comparing the two indices modulo 8 tells exactly whether a completion is unseen. */
  lemma UsedTest(s: Sys)
    requires Inv(s)
    ensures s.usedIdx % 8 != s.usedId % 8 <==> s.acked < |s.completed|
  {
    FewCompleted(s);
    Mod8(s.acked, |s.completed|);
  }

  // ---- Steps ----

  function WakeAlloc(pc: Pc): Pc {
    if pc.AllocSleep? then Want(pc.b, pc.write) else pc
  }

  function WakeOn(pc: Pc, b: int): Pc {
    if pc.Sleep? && pc.b == b then Wake(pc.b, pc.h) else pc
  }

  // Everyone asleep for descriptors is woken, or everyone asleep on buffer b.
  function WakeAllocs(pcs: seq<Pc>): seq<Pc> {
    seq(|pcs|, q requires 0 <= q < |pcs| => WakeAlloc(pcs[q]))
  }

  function WakeBuf(pcs: seq<Pc>, b: int): seq<Pc> {
    seq(|pcs|, q requires 0 <= q < |pcs| => WakeOn(pcs[q], b))
  }

  ghost predicate Enabled(s: Sys, p: nat, a: Action) {
    match a
    case Start(b, _) =>
      && p < |s.pcs| && s.pcs[p].Idle? && b !in s.busy
      && forall q :: 0 <= q < |s.pcs| ==> BufOf(s.pcs[q]) != b
    case Alloc(i, j, k) =>
      && p < |s.pcs| && s.pcs[p].Want? && i < |s.free| && j < |s.free| && k < |s.free|
      && i != j && j != k && i != k && s.free[i] && s.free[j] && s.free[k]
    case AllocFail => p < |s.pcs| && s.pcs[p].Want? && !ThreeFree(s)
    case Finish => p < |s.pcs| && s.pcs[p].Wake?
    case Spurious => p < |s.pcs| && (s.pcs[p].Sleep? || s.pcs[p].AllocSleep?)
    case DeviceTake => s.taken < |s.posted|
    case DeviceComplete(h) => h in s.chains && s.chains[h].phase == Taken
    case Intr => s.usedIdx % 8 != s.usedId % 8
  }

  // virtio_disk_rw with its three descriptors: the chain, the record, the available ring.
  function DoPost(s: Sys, p: nat, b: nat, i: nat, j: nat, k: nat, write: bool): Sys
    requires Shape(s) && p < |s.pcs| && i < 8 && j < 8 && k < 8
  {
    s.(free := s.free[i := false][j := false][k := false],
       desc := s.desc[i := Desc(j, 1)][j := Desc(k, if write then 1 else 3)][k := Desc(0, 2)],
       info := s.info[i := b],
       avail := s.avail[s.availIdx % 8 := i], availIdx := (s.availIdx + 1) % 0x1_0000,
       busy := s.busy + {b}, pcs := s.pcs[p := Sleep(b, i)],
       own := s.own[i := i][j := i][k := i], chains := s.chains[i := Chain(j, k, b, p, Posted)],
       posted := s.posted + [i])
  }

  // The loop's exit: the record is cleared and the chain, followed link by link, freed.
  function DoRelease(s: Sys, p: nat, h: nat): Sys
    requires Shape(s) && p < |s.pcs| && h < 8 && s.desc[h].next < 8 && s.desc[s.desc[h].next].next < 8
  {
    var i := s.desc[h].next;
    var j := s.desc[i].next;
    s.(free := s.free[h := true][i := true][j := true], info := s.info[h := -1],
       pcs := WakeAllocs(s.pcs)[p := Idle], own := s.own[h := -1][i := -1][j := -1], chains := s.chains - {h})
  }

  function SetPhase(s: Sys, h: int, phase: Phase): Sys
    requires h in s.chains
  {
    s.(chains := s.chains[h := s.chains[h].(phase := phase)])
  }

  function DoTake(s: Sys): Sys
    requires Shape(s) && s.avail[s.taken % 8] in s.chains
  {
    SetPhase(s, s.avail[s.taken % 8], Taken).(taken := s.taken + 1)
  }

  function DoComplete(s: Sys, h: nat): Sys
    requires Shape(s) && h in s.chains
  {
    SetPhase(s, h, Completed).(
      used := s.used[s.usedId % 8 := h], usedId := (s.usedId + 1) % 0x1_0000, completed := s.completed + [h])
  }

  // One turn of the handler's loop.
  function DoIntr(s: Sys): Sys
    requires Shape(s) && s.usedIdx < 8 && s.used[s.usedIdx] in s.chains && s.used[s.usedIdx] < 8
  {
    var id := s.used[s.usedIdx];
    SetPhase(s, id, Acked).(
      busy := s.busy - {s.info[id]}, pcs := WakeBuf(s.pcs, s.info[id]),
      usedIdx := (s.usedIdx + 1) % 8, acked := s.acked + 1)
  }

  // The arrays are indexed in range and the heads named there are requests in flight.
  ghost predicate Defined(s: Sys, p: nat, a: Action)
    requires Enabled(s, p, a)
  {
    && Shape(s)
    && match a
       case Finish =>
         var h := s.pcs[p].h;
         s.pcs[p].b !in s.busy ==> h < 8 && s.desc[h].next < 8 && s.desc[s.desc[h].next].next < 8
       case DeviceTake => s.avail[s.taken % 8] in s.chains
       case Intr => s.usedIdx < 8 && s.used[s.usedIdx] in s.chains && s.used[s.usedIdx] < 8
       case _ => true
  }

  // Every enabled step is defined.
  lemma StepDefined(s: Sys, p: nat, a: Action)
    requires Inv(s) && Enabled(s, p, a)
    ensures Defined(s, p, a)
    ensures a.Finish? ==> var h := s.pcs[p].h;
      && h in s.chains && h < 8
      && s.desc[h].next == s.chains[h].i1 < 8 && s.desc[s.chains[h].i1].next == s.chains[h].i2 < 8
    ensures a.DeviceTake? ==> s.avail[s.taken % 8] == s.posted[s.taken] && s.posted[s.taken] in s.chains
    ensures a.Intr? ==>
      && s.acked < |s.completed| && s.usedIdx < 8 && s.used[s.usedIdx] == s.completed[s.acked]
      && s.completed[s.acked] in s.chains && s.completed[s.acked] < 8
  {
    match a
    case Finish =>
      assert ThreadOk(s, p);
      assert ChainOk(s, s.pcs[p].h);
    case DeviceTake => assert AvailAt(s, s.taken);
    case Intr =>
      UsedTest(s);
      assert UsedAt(s, s.acked);
      assert ChainOk(s, s.completed[s.acked]);
    case _ =>
  }

  ghost function Do(s: Sys, p: nat, a: Action): Sys
    requires Enabled(s, p, a) && Defined(s, p, a)
  {
    match a
    case Start(b, write) => s.(pcs := s.pcs[p := Want(b, write)])
    case Alloc(i, j, k) => DoPost(s, p, s.pcs[p].b, i, j, k, s.pcs[p].write)
    case AllocFail =>
      var pcs := if exists i :: 0 <= i < 8 && s.free[i] then WakeAllocs(s.pcs) else s.pcs;
      s.(pcs := pcs[p := AllocSleep(s.pcs[p].b, s.pcs[p].write)])
    case Finish =>
      if s.pcs[p].b in s.busy then s.(pcs := s.pcs[p := Sleep(s.pcs[p].b, s.pcs[p].h)])
      else DoRelease(s, p, s.pcs[p].h)
    case Spurious => s.(pcs := s.pcs[p := WakeAlloc(WakeOn(s.pcs[p], BufOf(s.pcs[p])))])
    case DeviceTake => DoTake(s)
    case DeviceComplete(h) => DoComplete(s, h)
    case Intr => DoIntr(s)
  }

  // ---- Preservation ----

  lemma PostSlots(s: Sys, p: nat, i: nat, j: nat, k: nat)
    requires Inv(s) && Enabled(s, p, Alloc(i, j, k))
    ensures var t := DoPost(s, p, s.pcs[p].b, i, j, k, s.pcs[p].write);
      && Shape(t)
      && (forall x: nat {:trigger SlotOk(t, x)} :: x < 8 ==> SlotOk(t, x))
      && (forall h {:trigger ChainOk(t, h)} :: h in t.chains ==> ChainOk(t, h))
  {
    var t := DoPost(s, p, s.pcs[p].b, i, j, k, s.pcs[p].write);
    assert SlotOk(s, i) && SlotOk(s, j) && SlotOk(s, k);
    assert ThreadOk(s, p);
    forall x: nat | x < 8 ensures SlotOk(t, x) {
      assert SlotOk(s, x);
      assert i in s.chains ==> ChainOk(s, i);
    }
    forall h | h in t.chains ensures ChainOk(t, h) {
      if h != i {
        assert ChainOk(s, h);
        assert Apart(s, p, s.chains[h].p);
      }
    }
  }

  ghost predicate Threads(s: Sys) {
    && (forall p: nat {:trigger ThreadOk(s, p)} :: p < |s.pcs| ==> ThreadOk(s, p))
    && (forall p: nat, q: nat {:trigger Apart(s, p, q)} :: p < |s.pcs| && q < |s.pcs| ==> Apart(s, p, q))
  }

  lemma PostThreads(s: Sys, p: nat, i: nat, j: nat, k: nat)
    requires Inv(s) && Enabled(s, p, Alloc(i, j, k))
    ensures Threads(DoPost(s, p, s.pcs[p].b, i, j, k, s.pcs[p].write))
  {
    var t := DoPost(s, p, s.pcs[p].b, i, j, k, s.pcs[p].write);
    assert SlotOk(s, i);
    assert i in s.chains ==> ChainOk(s, i);
    assert ThreeFree(t) ==> ThreeFree(s);
    forall q: nat | q < |t.pcs| ensures ThreadOk(t, q) { assert ThreadOk(s, q) && Apart(s, q, p); }
    forall q: nat, r: nat | q < |t.pcs| && r < |t.pcs| ensures Apart(t, q, r) { assert Apart(s, q, r); }
  }

  lemma RingIndex(a: nat)
    ensures a % 0x1_0000 % 8 == a % 8 && (a % 0x1_0000 + 1) % 0x1_0000 == (a + 1) % 0x1_0000
  {
    var r, x := a % 0x1_0000, 0x2000 * (a / 0x1_0000);
    assert a == 8 * x + r;
    Multiple(x, r);
  }

  lemma Multiple(x: nat, r: nat)
    ensures (8 * x + r) % 8 == r % 8
  {
  }

  // Ring slots of entries fewer than eight apart are different.
  lemma RingApart(k: nat, a: nat)
    requires k < a < k + 8
    ensures k % 8 != a % 8
  {
  }

  lemma PostRings(s: Sys, p: nat, i: nat, j: nat, k: nat)
    requires Inv(s) && Enabled(s, p, Alloc(i, j, k))
    ensures Rings(DoPost(s, p, s.pcs[p].b, i, j, k, s.pcs[p].write))
  {
    var t := DoPost(s, p, s.pcs[p].b, i, j, k, s.pcs[p].write);
    assert SlotOk(s, i);
    assert i in s.chains ==> ChainOk(s, i);
    FewPosted(s);
    var a := |s.posted|;
    RingIndex(a);
    forall l: nat | t.taken <= l < |t.posted| ensures AvailAt(t, l) && (l < a ==> t.posted[l] != i) {
      if l < a {
        assert AvailAt(s, l);
        RingApart(l, a);
      }
    }
    forall l: nat | t.acked <= l < |t.completed| ensures UsedAt(t, l) { assert UsedAt(s, l); }
  }

  lemma ReleaseSlots(s: Sys, p: nat)
    requires Inv(s) && Enabled(s, p, Finish) && s.pcs[p].b !in s.busy
    ensures StepReady(s, p, Finish)
    ensures var t := DoRelease(s, p, s.pcs[p].h);
      && Shape(t)
      && (forall x: nat {:trigger SlotOk(t, x)} :: x < 8 ==> SlotOk(t, x))
      && (forall h {:trigger ChainOk(t, h)} :: h in t.chains ==> ChainOk(t, h))
  {
    StepDefined(s, p, Finish);
    var t, h0 := DoRelease(s, p, s.pcs[p].h), s.pcs[p].h;
    assert ThreadOk(s, p);
    assert ChainOk(s, h0);
    forall x: nat | x < 8 ensures SlotOk(t, x) { assert SlotOk(s, x); }
    forall h | h in t.chains ensures ChainOk(t, h) { assert ChainOk(s, h); }
  }

  predicate StepReady(s: Sys, p: nat, a: Action) {
    a.Finish? && p < |s.pcs| && s.pcs[p].Wake? && Shape(s) ==>
      var h := s.pcs[p].h; h < 8 && s.desc[h].next < 8 && s.desc[s.desc[h].next].next < 8
  }

  lemma ReleaseThreads(s: Sys, p: nat)
    requires Inv(s) && Enabled(s, p, Finish) && s.pcs[p].b !in s.busy && StepReady(s, p, Finish)
    ensures Threads(DoRelease(s, p, s.pcs[p].h)) && Rings(DoRelease(s, p, s.pcs[p].h))
  {
    var t, h0 := DoRelease(s, p, s.pcs[p].h), s.pcs[p].h;
    assert ThreadOk(s, p);
    assert ChainOk(s, h0);
    forall q: nat | q < |t.pcs| ensures ThreadOk(t, q) { assert ThreadOk(s, q); }
    forall q: nat, r: nat | q < |t.pcs| && r < |t.pcs| ensures Apart(t, q, r) { assert Apart(s, q, r); }
    forall l: nat | t.taken <= l < |t.posted| ensures AvailAt(t, l) { assert AvailAt(s, l); }
    forall l: nat | t.acked <= l < |t.completed| ensures UsedAt(t, l) { assert UsedAt(s, l); }
  }

  // A change of phase touches nothing but the rings.
  lemma PhaseKept(s: Sys, h: int, phase: Phase)
    requires Inv(s) && h in s.chains && s.chains[h].phase != Acked && phase != Acked
    ensures var t := SetPhase(s, h, phase);
      && (forall x: nat {:trigger SlotOk(t, x)} :: x < 8 ==> SlotOk(t, x))
      && (forall g {:trigger ChainOk(t, g)} :: g in t.chains ==> ChainOk(t, g))
      && Threads(t)
  {
    var t := SetPhase(s, h, phase);
    forall x: nat | x < 8 ensures SlotOk(t, x) { assert SlotOk(s, x); }
    forall g | g in t.chains ensures ChainOk(t, g) { assert ChainOk(s, g); }
    forall q: nat | q < |t.pcs| ensures ThreadOk(t, q) { assert ThreadOk(s, q); }
    forall q: nat, r: nat | q < |t.pcs| && r < |t.pcs| ensures Apart(t, q, r) { assert Apart(s, q, r); }
  }

  lemma TakeInv(s: Sys)
    requires Inv(s) && s.taken < |s.posted|
    ensures AvailAt(s, s.taken) && Inv(DoTake(s))
  {
    assert AvailAt(s, s.taken);
    var t, h := DoTake(s), s.posted[s.taken];
    PhaseKept(s, h, Taken);
    PhaseOnly(SetPhase(s, h, Taken), t);
    forall l: nat | t.taken <= l < |t.posted| ensures AvailAt(t, l) { assert AvailAt(s, l); }
    forall l: nat | t.acked <= l < |t.completed| ensures UsedAt(t, l) { assert UsedAt(s, l); }
  }

  // Slots, chains and threads do not depend on the rings.
  lemma PhaseOnly(u: Sys, t: Sys)
    requires Shape(u) && Threads(u)
    requires forall x: nat {:trigger SlotOk(u, x)} :: x < 8 ==> SlotOk(u, x)
    requires forall g {:trigger ChainOk(u, g)} :: g in u.chains ==> ChainOk(u, g)
    requires Shape(t) && t.free == u.free && t.desc == u.desc && t.info == u.info && t.busy == u.busy
    requires t.pcs == u.pcs && t.own == u.own && t.chains == u.chains
    ensures forall x: nat {:trigger SlotOk(t, x)} :: x < 8 ==> SlotOk(t, x)
    ensures forall g {:trigger ChainOk(t, g)} :: g in t.chains ==> ChainOk(t, g)
    ensures Threads(t)
  {
    forall x: nat | x < 8 ensures SlotOk(t, x) { assert SlotOk(u, x); }
    forall g | g in t.chains ensures ChainOk(t, g) { assert ChainOk(u, g); }
    forall q: nat | q < |t.pcs| ensures ThreadOk(t, q) { assert ThreadOk(u, q); }
    forall q: nat, r: nat | q < |t.pcs| && r < |t.pcs| ensures Apart(t, q, r) { assert Apart(u, q, r); }
  }

  lemma CompleteInv(s: Sys, h: nat)
    requires Inv(s) && h in s.chains && s.chains[h].phase == Taken
    ensures Inv(DoComplete(s, h))
  {
    var t := DoComplete(s, h);
    PhaseKept(s, h, Completed);
    PhaseOnly(SetPhase(s, h, Completed), t);
    FewCompleted(s);
    var c := |s.completed|;
    RingIndex(c);
    forall l: nat | t.taken <= l < |t.posted| ensures AvailAt(t, l) { assert AvailAt(s, l); }
    forall l: nat | t.acked <= l < |t.completed| ensures UsedAt(t, l) && (l < c ==> t.completed[l] != h) {
      if l < c {
        assert UsedAt(s, l);
        RingApart(l, c);
      }
    }
  }

  lemma IntrInv(s: Sys)
    requires Inv(s) && s.acked < |s.completed| && s.usedIdx < 8
    requires s.used[s.usedIdx] == s.completed[s.acked] && s.completed[s.acked] in s.chains && s.completed[s.acked] < 8
    ensures Inv(DoIntr(s))
  {
    hide SlotOk, ThreadOk, Apart;
    var t, id := DoIntr(s), s.completed[s.acked];
    assert UsedAt(s, s.acked);
    assert ChainOk(s, id);
    IntrSlots(s, id);
    IntrThreads(s, id);
    forall l: nat | t.taken <= l < |t.posted| ensures AvailAt(t, l) { assert AvailAt(s, l); }
    forall l: nat | t.acked <= l < |t.completed| ensures UsedAt(t, l) { assert UsedAt(s, l); }
    NextPlace(s.acked);
  }

  lemma NextPlace(n: nat)
    ensures (n % 8 + 1) % 8 == (n + 1) % 8
  {
  }

  // Requests in flight are for different buffers.
  lemma OtherBuffer(s: Sys, g: int, h: int)
    requires Inv(s) && g in s.chains && h in s.chains && g != h
    ensures s.chains[g].b != s.chains[h].b
  {
    assert ChainOk(s, g) && ChainOk(s, h);
    assert Apart(s, s.chains[g].p, s.chains[h].p);
  }

  lemma IntrSlots(s: Sys, id: nat)
    requires Inv(s) && s.usedIdx < 8 && s.used[s.usedIdx] == id && id in s.chains && id < 8
    ensures var t := DoIntr(s);
      && (forall x: nat {:trigger SlotOk(t, x)} :: x < 8 ==> SlotOk(t, x))
      && (forall g {:trigger ChainOk(t, g)} :: g in t.chains ==> ChainOk(t, g))
  {
    var t := DoIntr(s);
    assert ChainOk(s, id);
    forall x: nat | x < 8 ensures SlotOk(t, x) { assert SlotOk(s, x); }
    forall g | g in t.chains ensures ChainOk(t, g) {
      assert ChainOk(s, g);
      if g != id { OtherBuffer(s, g, id); }
    }
  }

  lemma IntrThreads(s: Sys, id: nat)
    requires Inv(s) && s.usedIdx < 8 && s.used[s.usedIdx] == id && id in s.chains && id < 8
    ensures Threads(DoIntr(s))
  {
    var t := DoIntr(s);
    assert ChainOk(s, id);
    forall q: nat | q < |t.pcs| ensures ThreadOk(t, q) { assert ThreadOk(s, q); }
    forall q: nat, r: nat | q < |t.pcs| && r < |t.pcs| ensures Apart(t, q, r) { assert Apart(s, q, r); }
  }

  // A step that only moves threads.
  lemma ThreadInv(s: Sys, p: nat, a: Action)
    requires Inv(s) && Enabled(s, p, a)
    requires a.Start? || a.AllocFail? || a.Spurious? || (a.Finish? && s.pcs[p].b in s.busy)
    ensures Defined(s, p, a) && Inv(Do(s, p, a))
  {
    StepDefined(s, p, a);
    var t := Do(s, p, a);
    assert ThreadOk(s, p);
    forall x: nat | x < 8 ensures SlotOk(t, x) { assert SlotOk(s, x); }
    forall g | g in t.chains ensures ChainOk(t, g) { assert ChainOk(s, g); }
    forall q: nat | q < |t.pcs| ensures ThreadOk(t, q) { assert ThreadOk(s, q) && Apart(s, q, p); }
    forall q: nat, r: nat | q < |t.pcs| && r < |t.pcs| ensures Apart(t, q, r) { assert Apart(s, q, r); }
    forall l: nat | t.taken <= l < |t.posted| ensures AvailAt(t, l) { assert AvailAt(s, l); }
    forall l: nat | t.acked <= l < |t.completed| ensures UsedAt(t, l) { assert UsedAt(s, l); }
  }

  /** Every step of a thread, the handler or the device keeps the invariant. */
  lemma StepInv(s: Sys, p: nat, a: Action)
    requires Inv(s) && Enabled(s, p, a)
    ensures Defined(s, p, a) && Inv(Do(s, p, a))
  {
    StepDefined(s, p, a);
    match a
    case Alloc(i, j, k) =>
      PostSlots(s, p, i, j, k);
      PostThreads(s, p, i, j, k);
      PostRings(s, p, i, j, k);
    case DeviceTake => TakeInv(s);
    case DeviceComplete(h) => CompleteInv(s, h);
    case Intr => IntrInv(s);
    case Finish =>
      if s.pcs[p].b in s.busy {
        ThreadInv(s, p, a);
      } else {
        ReleaseSlots(s, p);
        ReleaseThreads(s, p);
      }
    case _ => ThreadInv(s, p, a);
  }

  // ---- Runs ----

  datatype Act = Act(p: nat, a: Action)

  predicate Fresh(s: Sys) {
    && Shape(s) && s.chains == map[] && s.posted == [] && s.completed == [] && s.taken == 0 && s.acked == 0
    && s.availIdx == 0 && s.usedIdx == 0 && s.usedId == 0 && s.busy == {}
    && (forall i :: 0 <= i < 8 ==> s.free[i] && s.own[i] == -1)
    && (forall p :: 0 <= p < |s.pcs| ==> s.pcs[p] == Idle)
  }

  ghost predicate Run(tr: seq<Sys>, acts: seq<Act>) {
    && |tr| == |acts| + 1 && Fresh(tr[0])
    && forall i {:trigger acts[i]} :: 0 <= i < |acts| ==>
         && Enabled(tr[i], acts[i].p, acts[i].a) && Defined(tr[i], acts[i].p, acts[i].a)
         && tr[i + 1] == Do(tr[i], acts[i].p, acts[i].a)
  }

  lemma {:induction false} RunInv(tr: seq<Sys>, acts: seq<Act>, k: nat)
    requires Run(tr, acts) && k < |tr|
    ensures Inv(tr[k])
    decreases k
  {
    var s := tr[0];
    if k == 0 {
      forall i: nat | i < 8 ensures SlotOk(s, i) {}
      forall p: nat | p < |s.pcs| ensures ThreadOk(s, p) {}
      forall p: nat, q: nat | p < |s.pcs| && q < |s.pcs| ensures Apart(s, p, q) {}
    } else {
      RunInv(tr, acts, k - 1);
      var x := acts[k - 1];
      StepInv(tr[k - 1], x.p, x.a);
    }
  }

  /** In every run the eight descriptors are free or in one of at most two chains of three,
      each linked in order; a thread sleeps for descriptors only while fewer than three are
      free, and on a buffer only while the device has it. */
  lemma QueueSafe(tr: seq<Sys>, acts: seq<Act>, k: nat)
    requires Run(tr, acts) && k < |tr|
    ensures Shape(tr[k])
    ensures forall i: nat :: i < 8 ==>
      (tr[k].free[i] <==> forall h: nat :: h in tr[k].chains ==> i !in Slots(tr[k], h))
    ensures forall g: nat, h: nat :: g in tr[k].chains && h in tr[k].chains && g != h ==>
      Slots(tr[k], g) !! Slots(tr[k], h)
    ensures forall a: nat, b: nat, c: nat :: a in tr[k].chains && b in tr[k].chains && c in tr[k].chains ==>
      a == b || b == c || a == c
    ensures forall p: nat :: p < |tr[k].pcs| ==>
      && (tr[k].pcs[p].AllocSleep? ==> !ThreeFree(tr[k]))
      && (tr[k].pcs[p].Sleep? ==> tr[k].pcs[p].b in tr[k].busy)
  {
    RunInv(tr, acts, k);
    var s := tr[k];
    forall h: nat | h in s.chains ensures forall i :: i in Slots(s, h) ==> i < 8 && s.own[i] == h {
      assert ChainOk(s, h);
      ChainSlots(s, h);
    }
    forall i: nat | i < 8 ensures s.free[i] <==> forall h: nat :: h in s.chains ==> i !in Slots(s, h) {
      assert SlotOk(s, i);
      if !s.free[i] {
        var h := s.own[i];
        assert ChainOk(s, h);
        assert i in Slots(s, h);
      }
    }
    forall a: nat, b: nat, c: nat | a in s.chains && b in s.chains && c in s.chains ensures a == b || b == c || a == c {
      NoThree(s, a, b, c);
    }
    forall p: nat | p < |s.pcs|
      ensures (s.pcs[p].AllocSleep? ==> !ThreeFree(s)) && (s.pcs[p].Sleep? ==> s.pcs[p].b in s.busy)
    {
      assert ThreadOk(s, p);
    }
  }

  /** The handler's next turn is for the oldest completion it has not seen, and what it
      releases is the buffer of that request and no other. */
  lemma IntrReleases(s: Sys, p: nat)
    requires Inv(s) && Enabled(s, p, Intr)
    ensures Defined(s, p, Intr) && s.acked < |s.completed| && s.completed[s.acked] in s.chains
    ensures var t, h := Do(s, p, Intr), s.completed[s.acked];
      && t.acked == s.acked + 1 && t.completed == s.completed
      && s.chains[h].phase == Completed && t.chains[h].phase == Acked
      && s.chains[h].b in s.busy && t.busy == s.busy - {s.chains[h].b}
  {
    StepDefined(s, p, Intr);
    assert UsedAt(s, s.acked);
    assert ChainOk(s, s.completed[s.acked]);
  }

  /** A thread that frees its chain frees three descriptors in range, none of them free. */
  lemma ReleaseSafe(s: Sys, p: nat)
    requires Inv(s) && Enabled(s, p, Finish) && s.pcs[p].b !in s.busy
    ensures var h := s.pcs[p].h;
      && h < 8 && !s.free[h] && s.desc[h].flags % 2 == 1 && s.desc[h].next < 8
      && var i := s.desc[h].next;
      && i != h && !s.free[i] && s.desc[i].flags % 2 == 1 && s.desc[i].next < 8
      && var j := s.desc[i].next;
      && j != h && j != i && !s.free[j] && s.desc[j].flags % 2 == 0
  {
    assert ThreadOk(s, p);
    var h := s.pcs[p].h;
    assert ChainOk(s, h);
    assert SlotOk(s, h) && SlotOk(s, s.chains[h].i1) && SlotOk(s, s.chains[h].i2);
  }

  // ---- What was asked for ----

  // The buffer and direction of each thread's last call.
  function Calls(acts: seq<Act>, k: nat): map<nat, (nat, bool)>
    requires k <= |acts|
  {
    if k == 0 then map[]
    else if acts[k - 1].a.Start? then Calls(acts, k - 1)[acts[k - 1].p := (acts[k - 1].a.b, acts[k - 1].a.write)]
    else Calls(acts, k - 1)
  }

  // The chain at h: a descriptor's flags are 1 when another follows, and 2 when the device writes.
  predicate Directed(s: Sys, h: int, write: bool)
    requires Shape(s)
  {
    && h in s.chains && 0 <= h < 8 && s.chains[h].i1 < 8 && s.chains[h].i2 < 8
    && s.desc[h].flags == 1 && s.desc[s.chains[h].i1].flags == (if write then 1 else 3)
    && s.desc[s.chains[h].i2].flags == 2
  }

  // A thread with this pc works for call, and its chain goes in the direction of call.
  predicate PcOk(s: Sys, pc: Pc, call: (nat, bool))
    requires Shape(s)
  {
    match pc
    case Idle => true
    case Want(b, write) => call == (b, write)
    case AllocSleep(b, write) => call == (b, write)
    case Wake(b, h) => call.0 == b && Directed(s, h, call.1)
    case Sleep(b, h) => call.0 == b && Directed(s, h, call.1)
  }

  predicate CallOk(s: Sys, calls: map<nat, (nat, bool)>, p: nat)
    requires Shape(s) && p < |s.pcs|
  {
    s.pcs[p].Idle? || (p in calls && PcOk(s, s.pcs[p], calls[p]))
  }

  predicate Holds(pc: Pc, h: int) {
    (pc.Wake? || pc.Sleep?) && pc.h == h
  }

  // A chain that stays, with its descriptors, keeps its direction.
  lemma PcKept(s: Sys, t: Sys, pc: Pc, call: (nat, bool))
    requires Shape(s) && Shape(t) && PcOk(s, pc, call)
    requires forall h :: Holds(pc, h) && h in s.chains ==>
      h in t.chains && t.chains[h].i1 == s.chains[h].i1 && t.chains[h].i2 == s.chains[h].i2
    requires forall h, i: nat ::
      Holds(pc, h) && h in s.chains && i < 8 && Part(s.chains[h], h, i) ==> t.desc[i] == s.desc[i]
    ensures PcOk(t, pc, call) && PcOk(t, WakeAlloc(pc), call) && forall b :: PcOk(t, WakeOn(pc, b), call)
  {
    if pc.Wake? || pc.Sleep? {
      var h := pc.h;
      assert Holds(pc, h);
      var c := s.chains[h];
      assert Part(c, h, h) && Part(c, h, c.i1) && Part(c, h, c.i2);
    }
  }

  lemma PostCall(s: Sys, p: nat, i: nat, j: nat, k: nat, call: (nat, bool), q: nat)
    requires Inv(s) && Enabled(s, p, Alloc(i, j, k)) && q < |s.pcs| && PcOk(s, s.pcs[q], call)
    ensures var t := DoPost(s, p, s.pcs[p].b, i, j, k, s.pcs[p].write); PcOk(t, t.pcs[q], call)
  {
    var t := DoPost(s, p, s.pcs[p].b, i, j, k, s.pcs[p].write);
    if q != p {
      assert SlotOk(s, i) && SlotOk(s, j) && SlotOk(s, k) && ThreadOk(s, q);
      forall h | Holds(s.pcs[q], h) ensures h in s.chains && h != i && ChainOk(s, h) { assert ChainOk(s, h); }
      PcKept(s, t, s.pcs[q], call);
    }
  }

  lemma OtherCall(s: Sys, x: Act, call: (nat, bool), q: nat)
    requires Inv(s) && Enabled(s, x.p, x.a) && Defined(s, x.p, x.a) && !x.a.Alloc?
    requires q < |s.pcs| && q != x.p && PcOk(s, s.pcs[q], call)
    ensures var t := Do(s, x.p, x.a); Shape(t) && q < |t.pcs| && PcOk(t, t.pcs[q], call)
  {
    var t := Do(s, x.p, x.a);
    assert ThreadOk(s, q);
    if x.a.Finish? { assert ThreadOk(s, x.p); }
    PcKept(s, t, s.pcs[q], call);
  }

  lemma OwnCall(s: Sys, x: Act, call: (nat, bool))
    requires Inv(s) && Enabled(s, x.p, x.a) && Defined(s, x.p, x.a) && !x.a.Alloc? && !x.a.Start?
    requires x.p < |s.pcs| && PcOk(s, s.pcs[x.p], call)
    ensures var t := Do(s, x.p, x.a); Shape(t) && x.p < |t.pcs| && PcOk(t, t.pcs[x.p], call)
  {
    var t := Do(s, x.p, x.a);
    if !(x.a.Finish? && s.pcs[x.p].b !in s.busy) { PcKept(s, t, s.pcs[x.p], call); }
  }

  lemma StepCall(s: Sys, x: Act, calls: map<nat, (nat, bool)>, q: nat)
    requires Inv(s) && Enabled(s, x.p, x.a) && Defined(s, x.p, x.a) && q < |s.pcs| && CallOk(s, calls, q)
    ensures var t := Do(s, x.p, x.a);
      && Shape(t) && |t.pcs| == |s.pcs|
      && CallOk(t, if x.a.Start? then calls[x.p := (x.a.b, x.a.write)] else calls, q)
  {
    var t := Do(s, x.p, x.a);
    if s.pcs[q].Idle? {
      if x.a.Alloc? { PostCall(s, x.p, x.a.i0, x.a.i1, x.a.i2, (0, false), q); }
      else if q != x.p { OtherCall(s, x, (0, false), q); }
    } else if x.a.Alloc? {
      PostCall(s, x.p, x.a.i0, x.a.i1, x.a.i2, calls[q], q);
    } else if q != x.p {
      OtherCall(s, x, calls[q], q);
    } else if !x.a.Start? {
      OwnCall(s, x, calls[q]);
    }
  }

  lemma FreshCall(s: Sys, p: nat)
    requires Fresh(s) && p < |s.pcs|
    ensures Shape(s) && CallOk(s, map[], p)
  {
  }

  /** In every run each thread inside virtio_disk_rw works for the buffer and the direction it was
      called with: its three descriptors are the header, which the device reads, the data, which
      the device writes exactly for a read, and the status, which the device writes. */
  lemma {:induction false} ServedAsAsked(tr: seq<Sys>, acts: seq<Act>, k: nat, p: nat)
    requires Run(tr, acts) && k < |tr| && p < |tr[0].pcs|
    ensures |tr[k].pcs| == |tr[0].pcs| && Shape(tr[k]) && CallOk(tr[k], Calls(acts, k), p)
    decreases k
  {
    hide CallOk, Inv, Do, Defined, Enabled;
    if k == 0 {
      FreshCall(tr[0], p);
    } else {
      ServedAsAsked(tr, acts, k - 1, p);
      RunInv(tr, acts, k - 1);
      StepCall(tr[k - 1], acts[k - 1], Calls(acts, k - 1), p);
    }
  }

  /** In every run a thread leaves virtio_disk_rw only after the device has completed its request
      and the handler has seen that. */
  lemma ReturnsDone(tr: seq<Sys>, acts: seq<Act>, k: nat)
    requires Run(tr, acts) && k < |acts| && acts[k].p < |tr[k].pcs| == |tr[k + 1].pcs|
    requires !tr[k].pcs[acts[k].p].Idle? && tr[k + 1].pcs[acts[k].p].Idle?
    ensures acts[k].a.Finish? && tr[k].pcs[acts[k].p].Wake?
    ensures var h := tr[k].pcs[acts[k].p].h;
      h in tr[k].chains && tr[k].chains[h].phase == Acked && tr[k].chains[h].p == acts[k].p
  {
    RunInv(tr, acts, k);
    var s, x := tr[k], acts[k];
    StepDefined(s, x.p, x.a);
    assert ThreadOk(s, x.p);
    if x.a.Finish? { assert ChainOk(s, s.pcs[x.p].h); }
  }

  /** In every run a thread sleeps for descriptors exactly when it finds fewer than three, sleeps on
      its buffer once it has posted it, and comes back only when the device is done with it. */
  lemma ThreadPath(tr: seq<Sys>, acts: seq<Act>, k: nat)
    requires Run(tr, acts) && k < |acts| && acts[k].p < |tr[0].pcs| == |tr[k].pcs| == |tr[k + 1].pcs|
    ensures var p, calls, s, t := acts[k].p, Calls(acts, k), tr[k], tr[k + 1];
      match acts[k].a
      case AllocFail => p in calls && !ThreeFree(s) && t.pcs[p] == AllocSleep(calls[p].0, calls[p].1)
      case Alloc(i, _, _) => p in calls && t.pcs[p] == Sleep(calls[p].0, i) && calls[p].0 in t.busy
      case Finish => p in calls && t.pcs[p] == if calls[p].0 in s.busy then Sleep(calls[p].0, s.pcs[p].h) else Idle
      case _ => true
  {
    hide Calls;
    ServedAsAsked(tr, acts, k, acts[k].p);
    StepDefined(tr[k], acts[k].p, acts[k].a) by { RunInv(tr, acts, k); }
  }
}
