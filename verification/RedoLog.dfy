/** The redo log of kernel/log.c on a disk whose single-block writes are atomic.

    A disk has a meaning: what its home blocks will hold once recovery has run.
    Every prefix of the writes of commit and of recovery is a possible crash
    state, and the theorems say what each such prefix means. */
module RedoLog {

  const LOGSIZE := 30
  const MAXOPBLOCKS := 10
  const BLOCK_WORDS := 256

  // A disk block seen as its 256 32-bit words (BSIZE is 1024).
  type Block = b: seq<int> | |b| == BLOCK_WORDS witness seq(BLOCK_WORDS, _ => 0)

  type Disk = seq<Block>

  datatype Layout = Layout(start: nat, size: nat) {
    predicate Fits(d: Disk) { 1 <= size && start + size <= |d| }
    predicate InLog(b: int) { start <= b < start + size }
  }

  datatype Write = Write(bn: nat, data: Block)

  // ---- The header block: word 0 is n, words 1..n are the home block numbers ----

  predicate HeaderInRange(b: Block) { 0 <= b[0] <= LOGSIZE }

  function ReadHeader(b: Block): seq<int>
    requires HeaderInRange(b)
  {
    b[1..1 + b[0]]
  }

  // write_head overwrites the first n entries and leaves the rest of the block.
  function PutHeader(b: Block, lh: seq<int>): Block
    requires |lh| <= LOGSIZE
  {
    [|lh|] + lh + b[1 + |lh|..]
  }

  lemma ReadPutHeader(b: Block, lh: seq<int>)
    requires |lh| <= LOGSIZE
    ensures HeaderInRange(PutHeader(b, lh))
    ensures ReadHeader(PutHeader(b, lh)) == lh
  {
    assert PutHeader(b, lh)[1..1 + |lh|] == lh;
  }

  // The position of b in the list, or its length: log_write's absorption scan.
  function IndexOf(lh: seq<int>, b: int): (i: nat)
    ensures i <= |lh|
    ensures i < |lh| ==> lh[i] == b
    ensures forall k :: 0 <= k < i ==> lh[k] != b
  {
    if lh == [] then 0
    else if lh[0] == b then 0
    else 1 + IndexOf(lh[1..], b)
  }

  predicate Distinct(lh: seq<int>) {
    forall i, j :: 0 <= i < j < |lh| ==> lh[i] != lh[j]
  }

  // Distinct home blocks, as many as the in-memory header has entries for.
  predicate Listed(L: Layout, nd: nat, lh: seq<int>) {
    && |lh| <= LOGSIZE && Distinct(lh)
    && forall i :: 0 <= i < |lh| ==> 0 <= lh[i] < nd && !L.InLog(lh[i])
  }

  // A list of logged blocks that a log of this layout can hold.
  predicate Loggable(L: Layout, nd: nat, lh: seq<int>) {
    Listed(L, nd, lh) && |lh| <= L.size - 1
  }

  // A disk that a boot can meet: its header names a loggable list.
  predicate Bootable(L: Layout, d: Disk) {
    && L.Fits(d)
    && HeaderInRange(d[L.start])
    && Loggable(L, |d|, ReadHeader(d[L.start]))
  }

  // A disk whose header recovery can follow, even past the end of the log.
  predicate CanRecover(L: Layout, d: Disk) {
    && L.Fits(d)
    && HeaderInRange(d[L.start])
    && Listed(L, |d|, ReadHeader(d[L.start]))
    && L.start + 1 + d[L.start][0] <= |d|
  }

  // ---- What a disk means ----

  // The contents block b has after recovery; log blocks are not observable.
  function MeaningAt(L: Layout, d: Disk, b: nat): Block
    requires Bootable(L, d) && b < |d|
  {
    var lh := ReadHeader(d[L.start]);
    var i := IndexOf(lh, b);
    if L.InLog(b) then seq(BLOCK_WORDS, _ => 0)
    else if i < |lh| then d[L.start + 1 + i]
    else d[b]
  }

  function Meaning(L: Layout, d: Disk): (r: Disk)
    requires Bootable(L, d)
    ensures |r| == |d|
  {
    seq(|d|, b requires 0 <= b < |d| => MeaningAt(L, d, b))
  }

  // ---- Sequences of atomic writes ----

  predicate InRange(ws: seq<Write>, nd: nat) {
    forall i :: 0 <= i < |ws| ==> ws[i].bn < nd
  }

  function Apply(d: Disk, ws: seq<Write>): (r: Disk)
    requires InRange(ws, |d|)
    ensures |r| == |d|
  {
    if ws == [] then d
    else
      var last := ws[|ws| - 1];
      Apply(d, ws[..|ws| - 1])[last.bn := last.data]
  }

  lemma ApplyExtend(d: Disk, ws: seq<Write>, k: nat)
    requires InRange(ws, |d|) && k < |ws|
    ensures InRange(ws[..k], |d|) && InRange(ws[..k + 1], |d|)
    ensures Apply(d, ws[..k + 1]) == Apply(d, ws[..k])[ws[k].bn := ws[k].data]
  {
    assert ws[..k + 1][..k] == ws[..k];
  }

  lemma {:induction false} ApplyAppend(d: Disk, xs: seq<Write>, ys: seq<Write>)
    requires InRange(xs, |d|) && InRange(ys, |d|)
    ensures InRange(xs + ys, |d|)
    ensures Apply(d, xs + ys) == Apply(Apply(d, xs), ys)
  {
    if ys == [] {
      assert xs + ys == xs;
    } else {
      var n := |ys| - 1;
      assert (xs + ys)[..|xs + ys| - 1] == xs + ys[..n];
      ApplyAppend(d, xs, ys[..n]);
    }
  }

  // The disk writes of write_log: cached blocks into log slots.
  function LogWrites(L: Layout, lh: seq<int>, data: seq<Block>): (ws: seq<Write>)
    requires |lh| == |data|
    ensures |ws| == |lh|
  {
    seq(|lh|, i requires 0 <= i < |lh| => Write(L.start + 1 + i, data[i]))
  }

  // The disk writes of install_trans: log slots into home blocks.
  function InstallWrites(lh: seq<int>, data: seq<Block>): (ws: seq<Write>)
    requires |lh| == |data|
    requires forall i :: 0 <= i < |lh| ==> 0 <= lh[i]
    ensures |ws| == |lh|
  {
    seq(|lh|, i requires 0 <= i < |lh| => Write(lh[i], data[i]))
  }

  function LogSlots(L: Layout, d: Disk, n: nat): (slots: seq<Block>)
    requires L.start + 1 + n <= |d|
    ensures |slots| == n
  {
    d[L.start + 1..L.start + 1 + n]
  }

  function RecoverWrites(L: Layout, d: Disk): seq<Write>
    requires CanRecover(L, d)
  {
    var lh := ReadHeader(d[L.start]);
    InstallWrites(lh, LogSlots(L, d, |lh|)) + [Write(L.start, PutHeader(d[L.start], []))]
  }

  // commit: copy to log, write the header, install, clear the header.
  function CommitWrites(L: Layout, d: Disk, lh: seq<int>, data: seq<Block>): seq<Write>
    requires L.Fits(d) && Listed(L, |d|, lh) && |data| == |lh|
  {
    if lh == [] then [] else
      var head := PutHeader(d[L.start], lh);
      LogWrites(L, lh, data) + [Write(L.start, head)]
      + InstallWrites(lh, data) + [Write(L.start, PutHeader(head, []))]
  }

  // The home blocks after overlaying the logged data.
  function Overlay(d: Disk, lh: seq<int>, data: seq<Block>): (r: Disk)
    requires |lh| == |data|
    ensures |r| == |d|
  {
    seq(|d|, b requires 0 <= b < |d| =>
      var i := IndexOf(lh, b); if i < |lh| then data[i] else d[b])
  }

  // ---- Pointwise effect of the two copying loops ----

  lemma {:induction false} InstallAt(d: Disk, lh: seq<int>, data: seq<Block>, k: nat, b: nat)
    requires |lh| == |data| && k <= |lh| && b < |d| && Distinct(lh)
    requires forall i :: 0 <= i < |lh| ==> 0 <= lh[i] < |d|
    ensures InRange(InstallWrites(lh, data)[..k], |d|)
    ensures Apply(d, InstallWrites(lh, data)[..k])[b]
         == if IndexOf(lh, b) < k then data[IndexOf(lh, b)] else d[b]
  {
    if k > 0 {
      hide Apply;
      InstallAt(d, lh, data, k - 1, b);
      ApplyExtend(d, InstallWrites(lh, data), k - 1);
    }
  }

  lemma ApplyNothing(d: Disk, ws: seq<Write>)
    ensures Apply(d, ws[..0]) == d
  {
    assert ws[..0] == [];
  }

  // One more slot of the log.
  lemma LogWritesExtend(L: Layout, d: Disk, lh: seq<int>, data: seq<Block>, k: nat)
    requires L.Fits(d) && |lh| == |data| && k < |lh| <= L.size - 1
    ensures var ws, w := LogWrites(L, lh, data), Write(L.start + 1 + k, data[k]);
      && ws[..k + 1] == ws[..k] + [w] && InRange(ws[..k], |d|) && InRange(ws[..k + 1], |d|)
      && Apply(d, ws[..k + 1]) == Apply(d, ws[..k])[w.bn := w.data]
  {
    ApplyExtend(d, LogWrites(L, lh, data), k);
  }

  // One more home block.
  lemma InstallWritesExtend(d: Disk, lh: seq<int>, data: seq<Block>, k: nat)
    requires |lh| == |data| && k < |lh| && forall i :: 0 <= i < |lh| ==> 0 <= lh[i] < |d|
    ensures var ws, w := InstallWrites(lh, data), Write(lh[k], data[k]);
      && ws[..k + 1] == ws[..k] + [w] && InRange(ws[..k], |d|) && InRange(ws[..k + 1], |d|)
      && Apply(d, ws[..k + 1]) == Apply(d, ws[..k])[w.bn := w.data]
  {
    ApplyExtend(d, InstallWrites(lh, data), k);
  }

  lemma {:induction false} LogWritesAt(L: Layout, d: Disk, lh: seq<int>, data: seq<Block>, k: nat, b: nat)
    requires L.Fits(d) && |lh| == |data| && k <= |lh| <= L.size - 1 && b < |d|
    ensures InRange(LogWrites(L, lh, data)[..k], |d|)
    ensures Apply(d, LogWrites(L, lh, data)[..k])[b]
         == if L.start < b <= L.start + k then data[b - L.start - 1] else d[b]
  {
    if k > 0 {
      LogWritesAt(L, d, lh, data, k - 1, b);
      ApplyExtend(d, LogWrites(L, lh, data), k - 1);
    }
  }

  // ---- Recovery ----

  // Disks that agree on the log region, and whose other blocks hold either d's
  // contents or what the log says they should hold, have the same meaning.
  lemma SameMeaning(L: Layout, d: Disk, e: Disk)
    requires Bootable(L, d) && |e| == |d|
    requires forall b :: 0 <= b < |d| && L.InLog(b) ==> e[b] == d[b]
    requires forall b :: 0 <= b < |d| && !L.InLog(b) ==> e[b] == d[b] || e[b] == MeaningAt(L, d, b)
    ensures Bootable(L, e) && Meaning(L, e) == Meaning(L, d)
  {
    assert L.InLog(L.start);
    forall b | 0 <= b < |d| ensures MeaningAt(L, e, b) == MeaningAt(L, d, b) {
      var i := IndexOf(ReadHeader(d[L.start]), b);
      if i < |ReadHeader(d[L.start])| {
        assert L.InLog(L.start + 1 + i);
      }
    }
  }

  lemma RecoverPrefix(L: Layout, d: Disk, k: nat)
    requires Bootable(L, d) && k <= |RecoverWrites(L, d)|
    ensures InRange(RecoverWrites(L, d)[..k], |d|)
    ensures Bootable(L, Apply(d, RecoverWrites(L, d)[..k]))
    ensures Meaning(L, Apply(d, RecoverWrites(L, d)[..k])) == Meaning(L, d)
  {
    var lh := ReadHeader(d[L.start]);
    var ins := InstallWrites(lh, LogSlots(L, d, |lh|));
    var m := if k <= |lh| then k else |lh|;
    assert RecoverWrites(L, d)[..m] == ins[..m];
    InstallPrefix(L, d, m);
    if k > |lh| {
      assert RecoverWrites(L, d)[..k] == RecoverWrites(L, d)[..m + 1];
      ApplyExtend(d, RecoverWrites(L, d), m);
      ClearHeader(L, d, Apply(d, ins[..m]));
    }
  }

  lemma InstallPrefix(L: Layout, d: Disk, m: nat)
    requires Bootable(L, d) && m <= |ReadHeader(d[L.start])|
    ensures var lh := ReadHeader(d[L.start]);
      var ins := InstallWrites(lh, LogSlots(L, d, |lh|));
      && InRange(ins[..m], |d|)
      && var e := Apply(d, ins[..m]);
      && Bootable(L, e) && Meaning(L, e) == Meaning(L, d) && e[L.start] == d[L.start]
      && (forall b :: 0 <= b < |d| && m == |lh| && !L.InLog(b) ==> e[b] == MeaningAt(L, d, b))
  {
    var lh := ReadHeader(d[L.start]);
    var data := LogSlots(L, d, |lh|);
    InstallAt(d, lh, data, m, L.start);
    var e := Apply(d, InstallWrites(lh, data)[..m]);
    assert L.InLog(L.start);
    hide Apply, InstallWrites, Meaning, MeaningAt, LogSlots, Loggable;
    forall b | 0 <= b < |d|
      ensures if L.InLog(b) then e[b] == d[b] else e[b] == d[b] || e[b] == MeaningAt(L, d, b)
      ensures m == |lh| && !L.InLog(b) ==> e[b] == MeaningAt(L, d, b)
    {
      InstalledAt(L, d, m, b);
    }
    SameMeaning(L, d, e);
  }

  // One block after the first m copies: still old, or already what the log says.
  lemma InstalledAt(L: Layout, d: Disk, m: nat, b: nat)
    requires Bootable(L, d) && m <= |ReadHeader(d[L.start])| && b < |d|
    ensures var lh := ReadHeader(d[L.start]);
      var ins := InstallWrites(lh, LogSlots(L, d, |lh|));
      && InRange(ins[..m], |d|)
      && var x := Apply(d, ins[..m])[b];
      && (if L.InLog(b) then x == d[b] else x == d[b] || x == MeaningAt(L, d, b))
      && (m == |lh| && !L.InLog(b) ==> x == MeaningAt(L, d, b))
  {
    var lh := ReadHeader(d[L.start]);
    hide Apply, InstallWrites;
    InstallAt(d, lh, LogSlots(L, d, |lh|), m, b);
  }

  lemma ClearHeader(L: Layout, d: Disk, e: Disk)
    requires Bootable(L, d) && |e| == |d| && e[L.start] == d[L.start]
    requires forall b :: 0 <= b < |d| && !L.InLog(b) ==> e[b] == MeaningAt(L, d, b)
    ensures var r := e[L.start := PutHeader(d[L.start], [])];
      && Bootable(L, r) && ReadHeader(r[L.start]) == [] && Meaning(L, r) == Meaning(L, d)
  {
    ReadPutHeader(d[L.start], []);
  }

  // One boot that completes leaves an empty log and the home blocks of r.
  predicate RecoversTo(L: Layout, d: Disk, r: Disk) {
    && CanRecover(L, d) && InRange(RecoverWrites(L, d), |d|) && |r| == |d|
    && var e := Apply(d, RecoverWrites(L, d));
    && HeaderInRange(e[L.start]) && ReadHeader(e[L.start]) == []
    && forall b :: 0 <= b < |d| && !L.InLog(b) ==> e[b] == r[b]
  }

  // A completed recovery puts the meaning into the home blocks and empties the log.
  lemma RecoverCompletes(L: Layout, d: Disk)
    requires Bootable(L, d)
    ensures RecoversTo(L, d, Meaning(L, d))
    ensures Bootable(L, Apply(d, RecoverWrites(L, d)))
  {
    var ws := RecoverWrites(L, d);
    assert ws[..|ws|] == ws;
    RecoverPrefix(L, d, |ws|);
    RecoverPhases(L, d);
    ReadPutHeader(d[L.start], []);
    EmptyIsMeaning(L, Apply(d, ws));
    hide Apply, RecoverWrites, Meaning, InstallWrites;
  }

  lemma EmptyIsMeaning(L: Layout, d: Disk)
    requires Bootable(L, d) && ReadHeader(d[L.start]) == []
    ensures forall b :: 0 <= b < |d| && !L.InLog(b) ==> Meaning(L, d)[b] == d[b]
  {
  }

  // Recovery in two phases: install, then clear the header.
  lemma RecoverPhases(L: Layout, d: Disk)
    requires Bootable(L, d)
    ensures var lh := ReadHeader(d[L.start]);
      var ins := InstallWrites(lh, LogSlots(L, d, |lh|));
      && RecoverWrites(L, d) == ins + [Write(L.start, PutHeader(d[L.start], []))]
      && InRange(ins, |d|) && InRange(RecoverWrites(L, d), |d|)
      && var e := Apply(d, ins);
      && e[L.start] == d[L.start]
      && Apply(d, RecoverWrites(L, d)) == e[L.start := PutHeader(d[L.start], [])]
  {
    var lh := ReadHeader(d[L.start]);
    var ins := InstallWrites(lh, LogSlots(L, d, |lh|));
    var ws := RecoverWrites(L, d);
    assert ins[..|lh|] == ins;
    InstallPrefix(L, d, |lh|);
    assert ws[..|lh|] == ins && ws[..|lh| + 1] == ws;
    ApplyExtend(d, ws, |lh|);
  }

  // Boots that crash: crashes[i] is how many of recovery's writes boot i managed.
  ghost predicate CrashingBoots(L: Layout, d: Disk, crashes: seq<nat>, r: Disk)
    requires Bootable(L, d)
    decreases |crashes|
  {
    if crashes == [] then r == d
    else
      && crashes[0] <= |RecoverWrites(L, d)|
      && (RecoverPrefix(L, d, crashes[0]);
          CrashingBoots(L, Apply(d, RecoverWrites(L, d)[..crashes[0]]), crashes[1..], r))
  }

  lemma {:induction false} CrashingBootsKeepMeaning(L: Layout, d: Disk, crashes: seq<nat>, r: Disk)
    requires Bootable(L, d) && CrashingBoots(L, d, crashes, r)
    ensures |r| == |d| && Bootable(L, r) && Meaning(L, r) == Meaning(L, d)
    decreases |crashes|
  {
    if crashes != [] {
      RecoverPrefix(L, d, crashes[0]);
      CrashingBootsKeepMeaning(L, Apply(d, RecoverWrites(L, d)[..crashes[0]]), crashes[1..], r);
    }
  }

  // ---- Commit ----

  lemma CommitLogPhase(L: Layout, d: Disk, lh: seq<int>, data: seq<Block>, j: nat)
    requires Bootable(L, d) && ReadHeader(d[L.start]) == []
    requires Loggable(L, |d|, lh) && |data| == |lh| && j <= |lh|
    ensures InRange(LogWrites(L, lh, data)[..j], |d|)
    ensures var e := Apply(d, LogWrites(L, lh, data)[..j]);
      && e[L.start] == d[L.start]
      && (forall b :: 0 <= b < |d| && !L.InLog(b) ==> e[b] == d[b])
      && (forall i :: 0 <= i < j ==> e[L.start + 1 + i] == data[i])
      && Bootable(L, e) && Meaning(L, e) == Meaning(L, d)
  {
    LogWritesAt(L, d, lh, data, j, 0);
    var e := Apply(d, LogWrites(L, lh, data)[..j]);
    forall b | 0 <= b < |d|
      ensures e[b] == if L.start < b <= L.start + j then data[b - L.start - 1] else d[b]
    {
      LogWritesAt(L, d, lh, data, j, b);
    }
    assert e[L.start] == d[L.start];
    assert forall b :: 0 <= b < |d| && !L.InLog(b) ==> e[b] == d[b];
    EmptyMeaning(L, d, e);
  }

  // With an empty header a disk means its home blocks.
  lemma EmptyMeaning(L: Layout, d: Disk, e: Disk)
    requires Bootable(L, d) && ReadHeader(d[L.start]) == [] && |e| == |d| && e[L.start] == d[L.start]
    requires forall b :: 0 <= b < |d| && !L.InLog(b) ==> e[b] == d[b]
    ensures Bootable(L, e) && Meaning(L, e) == Meaning(L, d)
  {
    forall b | 0 <= b < |d| ensures MeaningAt(L, e, b) == MeaningAt(L, d, b) {}
  }

  // The disk just after the header write: the commit point.
  function CommitPoint(L: Layout, d: Disk, lh: seq<int>, data: seq<Block>): Disk
    requires L.Fits(d) && Loggable(L, |d|, lh) && |data| == |lh|
  {
    Apply(d, LogWrites(L, lh, data))[L.start := PutHeader(d[L.start], lh)]
  }

  lemma CommitPointMeaning(L: Layout, d: Disk, lh: seq<int>, data: seq<Block>)
    requires Bootable(L, d) && ReadHeader(d[L.start]) == []
    requires Loggable(L, |d|, lh) && |data| == |lh|
    ensures var e := CommitPoint(L, d, lh, data);
      && |e| == |d| && Bootable(L, e) && ReadHeader(e[L.start]) == lh
      && LogSlots(L, e, |lh|) == data
      && Meaning(L, e) == Overlay(Meaning(L, d), lh, data)
  {
    var ws := LogWrites(L, lh, data);
    assert ws[..|lh|] == ws;
    CommitLogPhase(L, d, lh, data, |lh|);
    ReadPutHeader(d[L.start], lh);
    var e := CommitPoint(L, d, lh, data);
    OverlayMeaning(L, d, e, lh, data);
  }

  // A header naming lh, over home blocks that are d's, means d overlaid.
  lemma OverlayMeaning(L: Layout, d: Disk, e: Disk, lh: seq<int>, data: seq<Block>)
    requires Bootable(L, d) && ReadHeader(d[L.start]) == [] && Bootable(L, e) && ReadHeader(e[L.start]) == lh
    requires |e| == |d| && |data| == |lh| && LogSlots(L, e, |lh|) == data
    requires forall b :: 0 <= b < |d| && !L.InLog(b) ==> e[b] == d[b]
    ensures Meaning(L, e) == Overlay(Meaning(L, d), lh, data)
  {
    forall b | 0 <= b < |d| ensures Meaning(L, e)[b] == Overlay(Meaning(L, d), lh, data)[b] {
      var i := IndexOf(lh, b);
      assert i < |lh| ==> data[i] == e[L.start + 1 + i];
    }
  }

  // After the commit point, commit issues exactly recovery's writes.
  lemma CommitTailIsRecovery(L: Layout, d: Disk, lh: seq<int>, data: seq<Block>)
    requires Bootable(L, d) && ReadHeader(d[L.start]) == []
    requires Loggable(L, |d|, lh) && |data| == |lh| && lh != []
    ensures Bootable(L, CommitPoint(L, d, lh, data))
    ensures CommitWrites(L, d, lh, data)
         == LogWrites(L, lh, data) + [Write(L.start, PutHeader(d[L.start], lh))]
            + RecoverWrites(L, CommitPoint(L, d, lh, data))
  {
    CommitPointMeaning(L, d, lh, data);
  }

  // After j of commit's writes the disk means the old or the new home blocks.
  predicate AtomicAt(L: Layout, d: Disk, lh: seq<int>, data: seq<Block>, j: nat)
    requires Bootable(L, d) && Loggable(L, |d|, lh) && |data| == |lh|
    requires j <= |CommitWrites(L, d, lh, data)|
  {
    var ws := CommitWrites(L, d, lh, data)[..j];
    && InRange(ws, |d|) && Bootable(L, Apply(d, ws))
    && Meaning(L, Apply(d, ws)) == if j <= |lh| then Meaning(L, d) else Overlay(Meaning(L, d), lh, data)
  }

  /** Crash atomicity of commit: stopped after any j of its writes, the disk means
      the old home blocks when the header write has not happened and the new ones
      when it has. */
  lemma CommitAtomic(L: Layout, d: Disk, lh: seq<int>, data: seq<Block>, j: nat)
    requires Bootable(L, d) && ReadHeader(d[L.start]) == []
    requires Loggable(L, |d|, lh) && |data| == |lh|
    requires j <= |CommitWrites(L, d, lh, data)|
    ensures AtomicAt(L, d, lh, data, j)
  {
    if |lh| == 0 || j <= |lh| {
      CommitBefore(L, d, lh, data, j);
    } else {
      CommitAfter(L, d, lh, data, j);
    }
  }

  lemma CommitBefore(L: Layout, d: Disk, lh: seq<int>, data: seq<Block>, j: nat)
    requires Bootable(L, d) && ReadHeader(d[L.start]) == []
    requires Loggable(L, |d|, lh) && |data| == |lh| && (lh == [] || j <= |lh|)
    requires j <= |CommitWrites(L, d, lh, data)|
    ensures AtomicAt(L, d, lh, data, j)
  {
    CommitLogPhase(L, d, lh, data, j);
    assert CommitWrites(L, d, lh, data)[..j] == LogWrites(L, lh, data)[..j];
  }

  lemma CommitAfter(L: Layout, d: Disk, lh: seq<int>, data: seq<Block>, j: nat)
    requires Bootable(L, d) && ReadHeader(d[L.start]) == []
    requires Loggable(L, |d|, lh) && |data| == |lh| && lh != []
    requires |lh| < j <= |CommitWrites(L, d, lh, data)|
    ensures AtomicAt(L, d, lh, data, j)
  {
    var front := LogWrites(L, lh, data) + [Write(L.start, PutHeader(d[L.start], lh))];
    CommitPointMeaning(L, d, lh, data);
    CommitTailIsRecovery(L, d, lh, data);
    CommitFront(L, d, lh, data);
    PastCommitPoint(L, d, CommitWrites(L, d, lh, data), front, CommitPoint(L, d, lh, data), j - |front|, j);
  }

  // Writes that lead to p and then recover from it keep the meaning of p.
  lemma PastCommitPoint(L: Layout, d: Disk, ws: seq<Write>, front: seq<Write>, p: Disk, k: nat, j: nat)
    requires Bootable(L, p) && InRange(front, |d|) && p == Apply(d, front)
    requires ws == front + RecoverWrites(L, p) && j == |front| + k <= |ws|
    ensures InRange(ws[..j], |d|) && Bootable(L, Apply(d, ws[..j])) && Meaning(L, Apply(d, ws[..j])) == Meaning(L, p)
  {
    RecoverPrefix(L, p, k);
    ApplyPast(d, ws, front, RecoverWrites(L, p), p, k, j);
  }

  // The writes up to the commit point lead to it.
  lemma CommitFront(L: Layout, d: Disk, lh: seq<int>, data: seq<Block>)
    requires Bootable(L, d) && ReadHeader(d[L.start]) == []
    requires Loggable(L, |d|, lh) && |data| == |lh|
    ensures var front := LogWrites(L, lh, data) + [Write(L.start, PutHeader(d[L.start], lh))];
      |front| == |lh| + 1 && InRange(front, |d|) && Apply(d, front) == CommitPoint(L, d, lh, data)
  {
    var n, ws := |lh|, LogWrites(L, lh, data);
    var front := ws + [Write(L.start, PutHeader(d[L.start], lh))];
    LogWritesAt(L, d, lh, data, n, 0);
    assert ws[..n] == ws && front[..n] == ws && front[..n + 1] == front;
    ApplyExtend(d, front, n);
  }

  // k writes past a front.
  lemma ApplyPast(d: Disk, ws: seq<Write>, a: seq<Write>, b: seq<Write>, p: Disk, k: nat, j: nat)
    requires ws == a + b && InRange(a, |d|) && p == Apply(d, a) && j == |a| + k <= |ws| && InRange(b[..k], |d|)
    ensures InRange(ws[..j], |d|) && Apply(d, ws[..j]) == Apply(p, b[..k])
  {
    assert ws[..j] == a + b[..k];
    ApplyAppend(d, a, b[..k]);
  }

  // Commit stops after j writes, then boots crash inside recovery and leave last.
  ghost predicate CrashedCommit(L: Layout, d: Disk, lh: seq<int>, data: seq<Block>, j: nat,
                                crashes: seq<nat>, last: Disk)
    requires Bootable(L, d) && ReadHeader(d[L.start]) == []
    requires Loggable(L, |d|, lh) && |data| == |lh|
    requires j <= |CommitWrites(L, d, lh, data)|
  {
    CommitAtomic(L, d, lh, data, j);
    CrashingBoots(L, Apply(d, CommitWrites(L, d, lh, data)[..j]), crashes, last)
  }

  /** The whole crash story: commit stops after any j writes, then any number of
      boots crash inside recovery, then one boot completes. Every home block then
      has its old contents when j stopped short of the header write, and otherwise
      its new contents; the log is empty. */
  lemma CrashAtomicity(L: Layout, d: Disk, lh: seq<int>, data: seq<Block>, j: nat,
                       crashes: seq<nat>, last: Disk)
    requires Bootable(L, d) && ReadHeader(d[L.start]) == []
    requires Loggable(L, |d|, lh) && |data| == |lh|
    requires j <= |CommitWrites(L, d, lh, data)|
    requires CrashedCommit(L, d, lh, data, j, crashes, last)
    ensures RecoversTo(L, last, if j <= |lh| then d else Overlay(d, lh, data))
  {
    CommitAtomic(L, d, lh, data, j);
    CrashingBootsKeepMeaning(L, Apply(d, CommitWrites(L, d, lh, data)[..j]), crashes, last);
    RecoverCompletes(L, last);
    hide Apply, RecoverWrites, CommitWrites, CrashingBoots, Loggable, Meaning, ReadHeader, Bootable, Overlay;
    forall b | 0 <= b < |d| && !L.InLog(b)
      ensures Meaning(L, last)[b] == (if j <= |lh| then d[b] else Overlay(d, lh, data)[b])
    {
      OverlayHome(L, d, lh, data, b);
    }
    hide CanRecover;
  }

  lemma OverlayHome(L: Layout, d: Disk, lh: seq<int>, data: seq<Block>, b: nat)
    requires Bootable(L, d) && ReadHeader(d[L.start]) == [] && |data| == |lh| && b < |d| && !L.InLog(b)
    ensures Meaning(L, d)[b] == d[b] && Overlay(Meaning(L, d), lh, data)[b] == Overlay(d, lh, data)[b]
  {
  }
}
