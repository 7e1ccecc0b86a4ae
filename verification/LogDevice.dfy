/** The in-memory log of kernel/log.c and its disk writes, in issue order. */
module LogDevice {
  import opened RedoLog

  // log_write's absorption: a block already in the list is not added again.
  function AddToLog(lh: seq<int>, bn: int): (r: seq<int>)
    ensures bn in r && lh <= r && |r| <= |lh| + 1
    ensures Distinct(lh) ==> Distinct(r)
    ensures bn in lh ==> r == lh
    ensures forall x :: x in r <==> x in lh || x == bn
  {
    if IndexOf(lh, bn) < |lh| then lh else lh + [bn]
  }

  function CachedData(cache: map<int, Block>, lh: seq<int>): (data: seq<Block>)
    requires forall i :: 0 <= i < |lh| ==> lh[i] in cache
    ensures |data| == |lh|
  {
    seq(|lh|, i requires 0 <= i < |lh| => cache[lh[i]])
  }

  lemma LoggedAt(L: Layout, nd: nat, lh: seq<int>, cache: map<int, Block>, i: nat)
    requires Loggable(L, nd, lh) && i < |lh| && forall k :: 0 <= k < |lh| ==> lh[k] in cache
    ensures 0 <= lh[i] < nd && |lh| <= L.size - 1 && CachedData(cache, lh)[i] == cache[lh[i]]
  {
  }

  // A commit up to its header write, and from there on.
  lemma CommitInTwo(L: Layout, d: Disk, lh: seq<int>, data: seq<Block>)
    requires Bootable(L, d) && ReadHeader(d[L.start]) == []
    requires Loggable(L, |d|, lh) && |data| == |lh| && lh != []
    ensures var p, ws := CommitPoint(L, d, lh, data), CommitWrites(L, d, lh, data);
      && |p| == |d| && Bootable(L, p) && ReadHeader(p[L.start]) == lh
      && InRange(LogWrites(L, lh, data), |d|) && Apply(d, LogWrites(L, lh, data))[L.start] == d[L.start]
      && InRange(ws, |d|) && InRange(RecoverWrites(L, p), |d|)
      && ws == LogWrites(L, lh, data) + [Write(L.start, PutHeader(d[L.start], lh))] + RecoverWrites(L, p)
      && Apply(d, ws) == Apply(p, RecoverWrites(L, p))
  {
    hide Apply, RecoverWrites, CommitWrites, LogWrites, InstallWrites, PutHeader, Meaning, Overlay;
    var p := CommitPoint(L, d, lh, data);
    var front := LogWrites(L, lh, data) + [Write(L.start, PutHeader(d[L.start], lh))];
    CommitPointMeaning(L, d, lh, data);
    CommitTailIsRecovery(L, d, lh, data);
    CommitFront(L, d, lh, data);
    LogWritesAt(L, d, lh, data, |lh|, L.start);
    assert LogWrites(L, lh, data)[..|lh|] == LogWrites(L, lh, data);
    RecoverPhases(L, p);
    ApplyAppend(d, front, RecoverWrites(L, p));
  }

  // What a whole commit leaves: an empty log and the new home blocks.
  lemma CommitCompletes(L: Layout, d: Disk, lh: seq<int>, data: seq<Block>)
    requires Bootable(L, d) && ReadHeader(d[L.start]) == []
    requires Loggable(L, |d|, lh) && |data| == |lh| && lh != []
    ensures var ws := CommitWrites(L, d, lh, data);
      && InRange(ws, |d|)
      && var r := Apply(d, ws);
      && Bootable(L, r) && ReadHeader(r[L.start]) == []
      && forall b :: 0 <= b < |d| && !L.InLog(b) ==> r[b] == Overlay(d, lh, data)[b]
  {
    hide CommitWrites, LogWrites, InstallWrites, RecoverWrites, Apply, Meaning, CommitPoint, Loggable, LogSlots,
      Overlay;
    var p := CommitPoint(L, d, lh, data);
    CommitInTwo(L, d, lh, data);
    CommitPointMeaning(L, d, lh, data);
    RecoverCompletes(L, p);
    var r := Apply(p, RecoverWrites(L, p));
    forall b | 0 <= b < |d| && !L.InLog(b) ensures r[b] == Overlay(d, lh, data)[b] {
      OverlayHome(L, d, lh, data, b);
    }
  }

  class Log {
    const layout: Layout
    var disk: Disk
    var cache: map<int, Block>     // contents of the buffers pinned by log_write
    var n: nat                     // lh.n
    const block: array<int>        // lh.block
    var outstanding: int
    var committing: bool
    ghost var writes: seq<Write>   // every bwrite so far, in order

    ghost predicate Valid()
      reads this, block
    {
      && layout.Fits(disk)
      && block.Length == LOGSIZE && n <= LOGSIZE
      && Loggable(layout, |disk|, Lh())
      && (forall b :: b in cache ==> b in Lh())
    }

    ghost function Lh(): seq<int>
      requires block.Length == LOGSIZE && n <= LOGSIZE
      reads this, block
    {
      block[..n]
    }

    // Every logged block is pinned, so that its new contents are in the cache.
    ghost predicate Pinned()
      requires block.Length == LOGSIZE && n <= LOGSIZE
      reads this, block
    {
      forall i :: 0 <= i < n ==> block[i] in cache
    }

    ghost predicate Unpinned()
      reads this
    {
      forall b :: b !in cache
    }

    ghost function Data(): seq<Block>
      requires block.Length == LOGSIZE && n <= LOGSIZE && Pinned()
      reads this, block
    {
      CachedData(cache, Lh())
    }

    // initlog, up to the call of recover_from_log
    constructor (layout: Layout, disk: Disk)
      requires layout.Fits(disk)
      ensures this.layout == layout && this.disk == disk
      ensures Valid() && Lh() == [] && cache == map[] && outstanding == 0 && !committing
      ensures fresh(block) && writes == []
    {
      this.layout := layout;
      this.disk := disk;
      cache := map[];
      n := 0;
      block := new int[LOGSIZE];
      outstanding := 0;
      committing := false;
      writes := [];
    }

    // bread: a pinned buffer holds the newest contents, any other agrees with the disk.
    function Bread(bn: nat): Block
      requires bn < |disk|
      reads this
    {
      if bn in cache then cache[bn] else disk[bn]
    }

    method Bwrite(bn: nat, data: Block)
      requires bn < |disk|
      modifies this`disk, this`writes
      ensures disk == old(disk)[bn := data]
      ensures writes == old(writes) + [Write(bn, data)]
    {
      disk := disk[bn := data];
      writes := writes + [Write(bn, data)];
    }

    method WriteLog()
      requires Valid() && Pinned()
      modifies this`disk, this`writes
      ensures Valid() && Pinned() && Lh() == old(Lh()) && Data() == old(Data())
      ensures InRange(LogWrites(layout, Lh(), Data()), |old(disk)|)
      ensures writes == old(writes) + LogWrites(layout, Lh(), Data())
      ensures disk == Apply(old(disk), LogWrites(layout, Lh(), Data()))
    {
      hide Apply, LogWrites, Loggable, CachedData;
      ghost var lh, data := Lh(), Data();
      ghost var ws := LogWrites(layout, lh, data);
      ApplyNothing(disk, ws);
      for tail := 0 to n
        invariant |disk| == |old(disk)| && InRange(ws[..tail], |disk|)
        invariant writes == old(writes) + ws[..tail]
        invariant disk == Apply(old(disk), ws[..tail])
      {
        LoggedAt(layout, |disk|, lh, cache, tail);
        LogWritesExtend(layout, old(disk), lh, data, tail);
        Bwrite(layout.start + tail + 1, Bread(block[tail]));
      }
      assert ws[..n] == ws;
    }

    method WriteHead()
      requires Valid()
      requires forall b :: b in cache ==> b != layout.start
      modifies this`disk, this`writes
      ensures Valid()
      ensures var head := PutHeader(old(disk)[layout.start], Lh());
        && disk == old(disk)[layout.start := head]
        && writes == old(writes) + [Write(layout.start, head)]
    {
      var hb := Bread(layout.start);
      ghost var was := hb;
      hb := hb[0 := n];
      for i := 0 to n
        invariant |hb| == BLOCK_WORDS
        invariant hb[0] == n
        invariant forall k :: 0 <= k < i ==> hb[1 + k] == block[k]
        invariant hb[1 + i..] == was[1 + i..]
      {
        hb := hb[1 + i := block[i]];
      }
      assert hb == PutHeader(was, Lh());
      Bwrite(layout.start, hb);
    }

    method ReadHead()
      requires layout.Fits(disk) && block.Length == LOGSIZE && Unpinned()
      requires Bootable(layout, disk)
      modifies this`n, block
      ensures Valid() && Lh() == ReadHeader(disk[layout.start])
    {
      var hb := Bread(layout.start);
      n := hb[0];
      for i := 0 to n
        invariant n == hb[0]
        invariant block[..i] == hb[1..1 + i]
      {
        block[i] := hb[1 + i];
      }
    }

    /** Copies every log slot to its home block and unpins it. */
    method InstallTrans()
      requires Valid()
      modifies this`disk, this`writes, this`cache
      ensures Valid() && Lh() == old(Lh()) && Unpinned()
      ensures var ws := InstallWrites(Lh(), LogSlots(layout, old(disk), n));
        && InRange(ws, |old(disk)|)
        && writes == old(writes) + ws
        && disk == Apply(old(disk), ws)
    {
      hide Apply, InstallWrites, LogSlots;
      ghost var lh, slots := Lh(), LogSlots(layout, disk, n);
      ghost var ws := InstallWrites(lh, slots);
      ApplyNothing(disk, ws);
      for tail := 0 to n
        invariant |disk| == |old(disk)| && InRange(ws[..tail], |disk|)
        invariant writes == old(writes) + ws[..tail]
        invariant disk == Apply(old(disk), ws[..tail])
        invariant forall b :: b in cache ==> b in lh[tail..]
      {
        InstallWritesExtend(old(disk), lh, slots, tail);
        SlotUntouched(old(disk), lh, slots, tail);
        var lbuf := Bread(layout.start + tail + 1);
        Bwrite(block[tail], lbuf);
        cache := cache - {block[tail]};
      }
      assert ws[..n] == ws;
    }

    // Installing home blocks does not disturb the log slots still to be read.
    lemma SlotUntouched(d: Disk, lh: seq<int>, slots: seq<Block>, tail: nat)
      requires layout.Fits(d) && Loggable(layout, |d|, lh) && tail < |lh|
      requires slots == LogSlots(layout, d, |lh|)
      ensures var b := layout.start + tail + 1;
        && b !in lh
        && InRange(InstallWrites(lh, slots)[..tail], |d|)
        && Apply(d, InstallWrites(lh, slots)[..tail])[b] == slots[tail]
    {
      hide Apply, InstallWrites;
      var b := layout.start + tail + 1;
      assert layout.InLog(b);
      InstallAt(d, lh, slots, tail, b);
    }

    // Install what the header on disk names, then clear the header.
    method InstallAndClear()
      requires Valid() && Bootable(layout, disk) && Lh() == ReadHeader(disk[layout.start])
      modifies this`disk, this`writes, this`cache, this`n
      ensures Valid() && Lh() == [] && Unpinned()
      ensures InRange(RecoverWrites(layout, old(disk)), |old(disk)|)
      ensures writes == old(writes) + RecoverWrites(layout, old(disk))
      ensures disk == Apply(old(disk), RecoverWrites(layout, old(disk)))
    {
      hide Apply, InstallWrites, RecoverWrites, PutHeader, LogSlots, ReadHeader;
      RecoverPhases(layout, disk);
      InstallTrans();
      n := 0;
      WriteHead();
    }

    /** Boot-time recovery: issues exactly RecoverWrites, whatever was on the disk. */
    method RecoverFromLog()
      requires Bootable(layout, disk) && block.Length == LOGSIZE && Unpinned()
      modifies this`disk, this`writes, this`cache, this`n, block
      ensures Valid() && Lh() == [] && Unpinned()
      ensures InRange(RecoverWrites(layout, old(disk)), |old(disk)|)
      ensures writes == old(writes) + RecoverWrites(layout, old(disk))
      ensures disk == Apply(old(disk), RecoverWrites(layout, old(disk)))
    {
      hide Apply, RecoverWrites;
      ReadHead();
      InstallAndClear();
    }

    // The first two phases of commit, up to the commit point.
    method LogAndCommit()
      requires Valid() && Pinned() && n > 0 && Bootable(layout, disk) && ReadHeader(disk[layout.start]) == []
      modifies this`disk, this`writes
      ensures Valid() && Pinned() && Lh() == old(Lh())
      ensures disk == CommitPoint(layout, old(disk), old(Lh()), old(Data()))
      ensures writes == old(writes) + LogWrites(layout, old(Lh()), old(Data()))
        + [Write(layout.start, PutHeader(old(disk)[layout.start], old(Lh())))]
    {
      hide Apply, CommitWrites, LogWrites, RecoverWrites, PutHeader, ReadHeader, CachedData;
      CommitInTwo(layout, disk, Lh(), Data());
      assert layout.InLog(layout.start);
      WriteLog();
      WriteHead();
    }

    // The body of commit's if: the four phases in order.
    method CommitPhasesInOrder()
      requires Valid() && Pinned() && n > 0
      requires Bootable(layout, disk) && ReadHeader(disk[layout.start]) == []
      modifies this`disk, this`writes, this`cache, this`n
      ensures Valid() && Lh() == [] && Unpinned()
      ensures InRange(CommitWrites(layout, old(disk), old(Lh()), old(Data())), |old(disk)|)
      ensures writes == old(writes) + CommitWrites(layout, old(disk), old(Lh()), old(Data()))
      ensures disk == Apply(old(disk), CommitWrites(layout, old(disk), old(Lh()), old(Data())))
    {
      hide Apply, CommitWrites, LogWrites, CommitPoint, RecoverWrites, PutHeader, ReadHeader, Bootable, Loggable,
        CachedData, InRange;
      ghost var d, lh, data := disk, Lh(), Data();
      CommitInTwo(layout, d, lh, data);
      LogAndCommit();
      InstallAndClear();
    }

    /** commit: issues exactly CommitWrites, so CommitAtomic speaks of every crash
        point inside this method. */
    method Commit()
      requires Valid() && Pinned()
      requires Bootable(layout, disk) && ReadHeader(disk[layout.start]) == []
      modifies this`disk, this`writes, this`cache, this`n
      ensures Valid() && Lh() == [] && Unpinned()
      ensures InRange(CommitWrites(layout, old(disk), old(Lh()), old(Data())), |old(disk)|)
      ensures writes == old(writes) + CommitWrites(layout, old(disk), old(Lh()), old(Data()))
      ensures disk == Apply(old(disk), CommitWrites(layout, old(disk), old(Lh()), old(Data())))
      ensures Bootable(layout, disk) && ReadHeader(disk[layout.start]) == []
      ensures forall b :: 0 <= b < |disk| && !layout.InLog(b)
                ==> disk[b] == Overlay(old(disk), old(Lh()), old(Data()))[b]
    {
      if n > 0 {
        CommitCompletes(layout, disk, Lh(), Data());
        CommitPhasesInOrder();
      } else {
        assert Overlay(disk, [], []) == disk;
      }
    }

    /** log_write: false means one of its two panics, with nothing changed. */
    method LogWrite(bn: nat, data: Block) returns (ok: bool)
      requires Valid() && bn < |disk| && !layout.InLog(bn)
      modifies this`n, this`cache, block
      ensures Valid()
      ensures ok <==> old(n) < LOGSIZE && old(n) < layout.size - 1 && outstanding >= 1
      ensures ok ==> Lh() == AddToLog(old(Lh()), bn) && cache == old(cache)[bn := data]
      ensures !ok ==> Lh() == old(Lh()) && cache == old(cache)
      ensures old(Pinned()) ==> Pinned()
    {
      if n >= LOGSIZE || n >= layout.size - 1 {
        return false;
      }
      if outstanding < 1 {
        return false;
      }
      var i := 0;
      while i < n
        invariant i <= n
        invariant bn !in block[..i]
      {
        if block[i] == bn { break; }
        i := i + 1;
      }
      ghost var was := Lh();
      assert i == IndexOf(was, bn);
      block[i] := bn;
      if i == n {
        n := n + 1;
      }
      cache := cache[bn := data];
      assert Lh() == AddToLog(was, bn);
      return true;
    }

    /** One pass of begin_op's loop under log.lock: admitted, or told to sleep. */
    method TryBeginOp() returns (admitted: bool)
      requires Valid()
      modifies this`outstanding
      ensures Valid() && Lh() == old(Lh())
      ensures admitted <==> !committing && n + (old(outstanding) + 1) * MAXOPBLOCKS <= LOGSIZE
      ensures outstanding == old(outstanding) + if admitted then 1 else 0
    {
      if committing {
        return false;
      } else if n + (outstanding + 1) * MAXOPBLOCKS > LOGSIZE {
        return false;
      } else {
        outstanding := outstanding + 1;
        return true;
      }
    }
  }
}
