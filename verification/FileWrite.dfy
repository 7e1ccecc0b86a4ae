/** filewrite of kernel/file.c: a long write in chunks that fit the log. */
module FileWrite {
  import opened Common
  import opened Packing
  import opened FsSpec
  import opened FileData
  import opened FileSystem
  import opened Finite
  import opened RedoLog

  // Half of what an operation may log, less inode, indirect block and two for slop.
  const CHUNK: nat := (MAXOPBLOCKS - 1 - 1 - 2) / 2 * BSIZE

  lemma SpliceTwice(c: seq<byte>, off: nat, xs: seq<byte>, ys: seq<byte>)
    requires off <= |c|
    ensures SpliceIn(SpliceIn(c, off, xs), off + |xs|, ys) == SpliceIn(c, off, xs + ys)
  {
    var d := SpliceIn(c, off, xs);
    var e := SpliceIn(d, off + |xs|, ys);
    var f := SpliceIn(c, off, xs + ys);
    assert |e| == |f|;
    forall k | 0 <= k < |e| ensures e[k] == f[k] {}
  }

  // ---- The log budget of one chunk ----

  function PtrOr0(fs: Fs, i: nat, s: nat): nat
    requires Shaped(fs) && i < |fs.ino|
  {
    if s < SLOTS then Ptr(fs, i, s) else 0
  }

  // Bitmap, inode, indirect block and four data blocks.
  function ChunkBlocks(fs: Fs, i: nat, bn: nat): set<nat>
    requires Shaped(fs) && i < |fs.ino|
  {
    {fs.sb.bmapstart, InodeBlock(fs.sb, i), Ptr(fs, i, 12), PtrOr0(fs, i, SlotOf(bn)),
     PtrOr0(fs, i, SlotOf(bn + 1)), PtrOr0(fs, i, SlotOf(bn + 2)), PtrOr0(fs, i, SlotOf(bn + 3))}
  }

  lemma AtMostSeven<T>(a: T, b: T, c: T, d: T, e: T, f: T, h: T)
    ensures |{a, b, c, d, e, f, h}| <= 7
  {
    assert |{a}| <= 1 && |{a, b}| <= 2 && |{a, b, c}| <= 3 && |{a, b, c, d}| <= 4;
    assert |{a, b, c, d, e}| <= 5 && |{a, b, c, d, e, f}| <= 6;
  }

  /** One filewrite chunk newly logs at most 7 blocks when the bitmap is one block,
      whatever the offset and whatever had to be allocated. */
  lemma ChunkBudget(fs: Fs, i: nat, off: nat, n: nat, l: set<nat>)
    requires Shaped(fs) && i < |fs.ino| && n <= CHUNK && fs.sb.size < 8192 && off + n <= MAXBYTES
    requires LogOk(fs, i, off, off + n, {}, l)
    ensures |l| <= 7
  {
    var bn := off / 1024;
    forall x | x in l ensures x in ChunkBlocks(fs, i, bn) {
      if IsFileBlock(fs, i, off, off + n, x) {
        var s: nat :| s < SLOTS && x == Ptr(fs, i, s) && Covers(s, off, off + n);
        if s != 12 { CoveredSlot(s, off, n); }
      }
    }
    AtMostSeven(fs.sb.bmapstart, InodeBlock(fs.sb, i), Ptr(fs, i, 12), PtrOr0(fs, i, SlotOf(bn)),
                PtrOr0(fs, i, SlotOf(bn + 1)), PtrOr0(fs, i, SlotOf(bn + 2)), PtrOr0(fs, i, SlotOf(bn + 3)));
    SubsetSize(l, ChunkBlocks(fs, i, bn));
  }

  lemma CoveredSlot(s: nat, off: nat, n: nat)
    requires n <= CHUNK && Covers(s, off, off + n) && s != 12
    ensures var bn := off / 1024;
      s == SlotOf(bn) || s == SlotOf(bn + 1) || s == SlotOf(bn + 2) || s == SlotOf(bn + 3)
  {
    assert (off + n - 1) / 1024 <= off / 1024 + 3;
  }

  // ---- filewrite ----

  // g is m with xs spliced into file i at off, as far as size goes, and every other file
  // as it was. size cuts off at most bytes that xs has added.
  ghost predicate SplicedTo(m: Fs, g: Fs, i: nat, off: nat, xs: seq<byte>, size: nat) {
    && Shaped(m) && Shaped(g) && i < |m.ino| == |g.ino| && off <= m.ino[i].size <= size
    && size <= |SpliceIn(Contents(m, i), off, xs)|
    && Contents(g, i) == SpliceIn(Contents(m, i), off, xs)[..size]
    && (forall j :: 0 <= j < |m.ino| && j != i ==> Contents(g, j) == Contents(m, j))
    && NoLeak(m, g)
  }

  // All of xs, then: nothing is cut off.
  ghost predicate Spliced(m: Fs, g: Fs, i: nat, off: nat, xs: seq<byte>) {
    && Shaped(m) && i < |m.ino| && off <= m.ino[i].size
    && SplicedTo(m, g, i, off, xs, |SpliceIn(Contents(m, i), off, xs)|)
  }

  lemma SplicedNothing(m: Fs, i: nat, off: nat)
    requires Shaped(m) && i < |m.ino| && off <= m.ino[i].size
    ensures Spliced(m, m, i, off, [])
  {
    SpliceNothing(Contents(m, i), off);
  }

  lemma SpliceNothing(c: seq<byte>, off: nat)
    requires off <= |c|
    ensures SpliceIn(c, off, []) == c && SpliceIn(c, off, [])[..|c|] == c
  {
  }

  // After a write that was complete, another.
  lemma SplicedMore(m: Fs, b: Fs, g: Fs, i: nat, off: nat, xs: seq<byte>, ys: seq<byte>, size: nat)
    requires Spliced(m, b, i, off, xs) && SplicedTo(b, g, i, off + |xs|, ys, size)
    ensures SplicedTo(m, g, i, off, xs + ys, size)
  {
    var c := Contents(m, i);
    var d := SpliceIn(c, off, xs);
    assert d[..|d|] == d;
    SpliceTwice(c, off, xs, ys);
    NoLeakTrans(m, b, g);
  }

  lemma SplicedWhole(m: Fs, b: Fs, g: Fs, i: nat, off: nat, xs: seq<byte>, ys: seq<byte>)
    requires Spliced(m, b, i, off, xs) && Spliced(b, g, i, off + |xs|, ys)
    ensures Spliced(m, g, i, off, xs + ys)
  {
    var d := SpliceIn(Contents(m, i), off, xs);
    assert d[..|d|] == d;
    SpliceTwice(Contents(m, i), off, xs, ys);
    SplicedMore(m, b, g, i, off, xs, ys, |SpliceIn(d, off + |xs|, ys)|);
  }

  // After a write that was cut off, one of nothing.
  lemma SplicedStill(m: Fs, b: Fs, g: Fs, i: nat, off: nat, xs: seq<byte>, size: nat, at: nat)
    requires SplicedTo(m, b, i, off, xs, size) && SplicedTo(b, g, i, at, [], size) && b.ino[i].size == size
    ensures SplicedTo(m, g, i, off, xs, size)
  {
    SpliceNothing(Contents(b, i), at);
    NoLeakTrans(m, b, g);
  }

  // How many bytes the next chunk has.
  function NextChunk(left: nat): nat { if left > CHUNK then CHUNK else left }

  // How many of the next n bytes can be copied in.
  function Copyable(ok: nat, done: nat, n: nat): (c: nat)
    ensures c <= n
  {
    if ok <= done then 0 else if ok - done < n then ok - done else n
  }

  /** How far a write has come after done bytes: those of them that could be copied are
      in the file, and nothing is cut off as long as all could. */
  ghost predicate Progress(m: Fs, g: Fs, i: nat, off: nat, src: seq<byte>, done: nat, ok: nat)
    requires done <= |src| && ok <= |src| && i < |g.ino|
  {
    && SplicedTo(m, g, i, off, src[..if done <= ok then done else ok], g.ino[i].size)
    && (done <= ok ==> Spliced(m, g, i, off, src[..done]))
  }

  lemma ProgressNone(m: Fs, i: nat, off: nat, src: seq<byte>, ok: nat)
    requires Inv(m) && i < |m.ino| && off <= m.ino[i].size && ok <= |src|
    ensures Progress(m, m, i, off, src, 0, ok)
  {
    assert src[..0] == [];
    SplicedNothing(m, i, off);
    SpliceNothing(Contents(m, i), off);
  }

  lemma ProgressMore(m: Fs, b: Fs, g: Fs, i: nat, off: nat, src: seq<byte>, done: nat, n: nat, ok: nat)
    requires done + n <= |src| && ok <= |src| && i < |b.ino| && i < |g.ino| && Progress(m, b, i, off, src, done, ok)
    requires var c := Copyable(ok, done, n);
      && SplicedTo(b, g, i, off + done, src[done..done + n][..c], g.ino[i].size)
      && (c == n ==> Spliced(b, g, i, off + done, src[done..done + n]))
      && (c == 0 ==> g.ino[i].size == b.ino[i].size)
    ensures Progress(m, g, i, off, src, done + n, ok)
  {
    hide SplicedTo, SpliceIn;
    var c, size := Copyable(ok, done, n), g.ino[i].size;
    var ys := src[done..done + n][..c];
    if done <= ok {
      SplicedMore(m, b, g, i, off, src[..done], ys, size);
      assert src[..done] + ys == src[..done + c];
      if done + n <= ok {
        assert ys == src[done..done + n];
        SplicedWhole(m, b, g, i, off, src[..done], ys);
      }
    } else {
      assert ys == [];
      SplicedStill(m, b, g, i, off, src[..ok], size, off + done);
    }
  }

  // All bytes of src are in the file, the ones that could not be copied because they were
  // there before.
  predicate Honest(c: seq<byte>, off: nat, src: seq<byte>, ok: nat)
    requires off <= |c| && ok <= |src|
  {
    ok == |src| || (off + |src| <= |c| && c[off + ok..off + |src|] == src[ok..])
  }

  lemma SpliceSame(c: seq<byte>, off: nat, src: seq<byte>, ok: nat)
    requires off + |src| <= |c| && ok <= |src|
    ensures SpliceIn(c, off, src[..ok]) == SpliceIn(c, off, src) <==> c[off + ok..off + |src|] == src[ok..]
  {
    var d, e := SpliceIn(c, off, src[..ok]), SpliceIn(c, off, src);
    assert |d| == |e| == |c|;
    assert forall k :: 0 <= k < |src| - ok ==>
      d[off + ok + k] == c[off + ok..off + |src|][k] && e[off + ok + k] == src[ok..][k];
    if c[off + ok..off + |src|] == src[ok..] {
      forall k | 0 <= k < |c| ensures d[k] == e[k] {
        if off + ok <= k < off + |src| { assert d[k] == c[off + ok..off + |src|][k - off - ok]; }
      }
    } else {
      var k :| 0 <= k < |src| - ok && c[off + ok..off + |src|][k] != src[ok..][k];
      assert d[off + ok + k] != e[off + ok + k];
    }
  }

  /** The exact condition for a write that reported its whole length to have happened. */
  lemma ReportExactly(m: Fs, g: Fs, i: nat, off: nat, src: seq<byte>, ok: nat)
    requires ok <= |src| && i < |m.ino| && i < |g.ino| && Progress(m, g, i, off, src, |src|, ok)
    ensures InodeOk(m.ino[i]) && off <= |Contents(m, i)|
    ensures Spliced(m, g, i, off, src) <==> Honest(Contents(m, i), off, src, ok)
  {
    var c := Contents(m, i);
    assert src[..|src|] == src;
    if ok < |src| {
      if off + |src| <= |c| {
        SpliceSame(c, off, src, ok);
        var d, e := SpliceIn(c, off, src[..ok]), SpliceIn(c, off, src);
        assert |d| == |e| == |c| && d[..|c|] == d && e[..|c|] == e;
      } else {
        assert |SpliceIn(c, off, src)| == off + |src| > g.ino[i].size;
      }
    }
  }

  /** filewrite to an inode: the bytes of src at file offset off, in chunks, each its
      own log operation; the first ok bytes of src can be copied in. With done the
      bytes of whole chunks it got through, the contents are the old ones with the
      bytes of those chunks spliced in as far as they could be copied, and nothing is cut off
      while everything could. When it reports them all, they are there exactly if all could
      be copied or the rest was there before. It stops at a chunk that does not fit into a
      file, or that begins beyond the end of this one after a copy has failed. It panics only
      with no block free and one missing in the range; b is then the file system before the
      chunk it was in, and tot how many bytes of that chunk are in their blocks. */
  method Filewrite(fs: Files, i: nat, off: nat, src: seq<byte>, ok: nat)
    returns (ret: int, newoff: nat, panic: bool, ghost b: Fs, ghost tot: nat)
    requires fs.Valid() && i < |fs.ino| && off < 0x1_0000_0000 && |src| < 0x8000_0000 && ok <= |src|
    requires fs.sb.size < 8192
    modifies fs
    ensures fs.Valid() && NoLeak(old(fs.g), fs.g) && |fs.g.ino| == |old(fs.g).ino|
    ensures PtrsKept(old(fs.g), fs.g, i)
    ensures panic ==> NoneFree(fs.sb, fs.disk) && Hole(old(fs.g), i, off, off + |src|)
    ensures panic ==>
      && off <= old(fs.ino)[i].size && off <= newoff && newoff + tot <= off + |src| && Inv(b) && i < |b.ino|
      && Progress(old(fs.g), b, i, off, src, newoff - off, ok)
      && Wrote(b, fs.g, i, newoff, src[newoff - off..newoff - off + tot])
    ensures !panic && off <= old(fs.ino)[i].size && off + |src| <= MAXBYTES && ok == |src| ==>
      ret == |src| && newoff == off + |src| && Spliced(old(fs.g), fs.g, i, off, src)
    ensures !panic && off <= old(fs.ino)[i].size ==>
      && off <= newoff <= off + |src| && i < |fs.g.ino|
      && Progress(old(fs.g), fs.g, i, off, src, newoff - off, ok)
      && (ret == if newoff == off + |src| then |src| else -1)
      && (newoff < off + |src| ==>
            (newoff - off) % 3072 == 0
            && (newoff > fs.g.ino[i].size || newoff + NextChunk(off + |src| - newoff) > MAXBYTES))
    ensures !panic && off <= old(fs.ino)[i].size && newoff == off + |src| ==>
      (Spliced(old(fs.g), fs.g, i, off, src) <==> Honest(Contents(old(fs.g), i), off, src, ok))
    ensures !panic && off > old(fs.ino)[i].size ==>
      fs.g == old(fs.g) && newoff == off && ret == if src == [] then 0 else -1
  {
    hide Going, Broke, Inv, Honest;
    ghost var m := fs.g;
    SizeIs(m, i);
    var done := 0;
    ret, newoff, panic, b, tot := 0, off, false, m, 0;
    GoingNone(m, i, off, src, ok);
    while done < |src|
      invariant done <= |src| && fs.Valid() && newoff == off + done && !panic
      invariant Going(m, fs.g, i, off, src, done, ok)
      invariant done < |src| ==> done % CHUNK == 0
    {
      b := fs.g;
      var n1, r;
      panic, n1, r, tot := WriteNext(fs, i, off, src, done, ok, m);
      if panic {
        BrokeFacts(m, b, fs.g, i, off, src, done, ok, tot);
        return;
      }
      if r < 0 { break; }
      newoff := newoff + r;
      done := done + n1;
    }
    ret := if done == |src| then |src| else -1;
    GoingFacts(m, fs.g, i, off, src, done, ok);
  }

  // Where filewrite stands after done bytes: nowhere, when off is beyond the end of the file.
  ghost predicate Going(m: Fs, g: Fs, i: nat, off: nat, src: seq<byte>, done: nat, ok: nat) {
    && Inv(m) && Inv(g) && i < |m.ino| == |g.ino| && done <= |src| && ok <= |src|
    && NoLeak(m, g) && PtrsKept(m, g, i)
    && if off <= m.ino[i].size then Progress(m, g, i, off, src, done, ok) else done == 0 && g == m
  }

  // What a panic in the chunk after done bytes, begun in b, leaves.
  ghost predicate Broke(m: Fs, b: Fs, g: Fs, i: nat, off: nat, src: seq<byte>, done: nat, ok: nat, tot: nat) {
    && Going(m, b, i, off, src, done, ok) && Inv(g) && |g.ino| == |m.ino| && off <= m.ino[i].size
    && NoLeak(m, g) && PtrsKept(m, g, i) && Hole(m, i, off, off + |src|)
    && done + tot <= |src| && Wrote(b, g, i, off + done, src[done..done + tot])
  }

  lemma GoingNone(m: Fs, i: nat, off: nat, src: seq<byte>, ok: nat)
    requires Inv(m) && i < |m.ino| && ok <= |src|
    ensures Going(m, m, i, off, src, 0, ok)
  {
    PtrsSame(m, i);
    if off <= m.ino[i].size { ProgressNone(m, i, off, src, ok); }
  }

  lemma GoingFacts(m: Fs, g: Fs, i: nat, off: nat, src: seq<byte>, done: nat, ok: nat)
    requires Going(m, g, i, off, src, done, ok)
    ensures Inv(m) && Inv(g) && i < |m.ino| == |g.ino| && NoLeak(m, g) && PtrsKept(m, g, i)
    ensures off <= m.ino[i].size ==> Progress(m, g, i, off, src, done, ok)
    ensures off > m.ino[i].size ==> done == 0 && g == m
    ensures off <= m.ino[i].size && done <= ok ==> off + done <= g.ino[i].size
    ensures off <= m.ino[i].size && done == |src| ==>
      && (Spliced(m, g, i, off, src) <==> Honest(Contents(m, i), off, src, ok))
      && (ok == |src| ==> Spliced(m, g, i, off, src))
  {
    hide SplicedTo, PtrOk, OwnOk, BitOk, PtrsKept;
    if off <= m.ino[i].size {
      if done <= ok { ProgressWhole(m, g, i, off, src, done, ok); }
      if done == |src| { ReportExactly(m, g, i, off, src, ok); }
    }
  }

  lemma BrokeFacts(m: Fs, b: Fs, g: Fs, i: nat, off: nat, src: seq<byte>, done: nat, ok: nat, tot: nat)
    requires Broke(m, b, g, i, off, src, done, ok, tot)
    ensures Inv(m) && Inv(b) && Inv(g) && i < |m.ino| == |b.ino| == |g.ino| && off <= m.ino[i].size
    ensures NoLeak(m, g) && PtrsKept(m, g, i) && Hole(m, i, off, off + |src|)
    ensures done <= |src| && ok <= |src| && Progress(m, b, i, off, src, done, ok)
    ensures done + tot <= |src| && Wrote(b, g, i, off + done, src[done..done + tot])
  {
    hide SplicedTo, PtrOk, OwnOk, BitOk, PtrsKept, Wrote, Hole;
  }

  // One turn of filewrite's loop.
  method WriteNext(fs: Files, i: nat, off: nat, src: seq<byte>, done: nat, ok: nat, ghost m: Fs)
    returns (panic: bool, n1: nat, r: int, ghost tot: nat)
    requires fs.Valid() && fs.sb.size < 8192 && done < |src| && |src| < 0x8000_0000 && off < 0x1_0000_0000
    requires Going(m, fs.g, i, off, src, done, ok)
    modifies fs
    ensures fs.Valid() && n1 == NextChunk(|src| - done)
    ensures panic ==> NoneFree(fs.sb, fs.disk) && Broke(m, old(fs.g), fs.g, i, off, src, done, ok, tot)
    ensures !panic && r >= 0 ==> r == n1 && Going(m, fs.g, i, off, src, done + n1, ok)
    ensures !panic && r < 0 ==>
      fs.g == old(fs.g) && (off + done > old(fs.ino)[i].size || off + done + n1 > MAXBYTES)
  {
    hide SplicedTo, Spliced, PtrOk, OwnOk, BitOk, SuperOk, PtrsKept, Wrote, Hole;
    n1 := NextChunk(|src| - done);
    ghost var b := fs.g;
    SizeIs(m, i);
    panic, r, tot := WriteOneOp(fs, i, off + done, src[done..done + n1], Copyable(ok, done, n1));
    NoLeakTrans(m, b, fs.g);
    PtrsTrans(m, b, fs.g, i);
    if panic {
      HoleBefore(m, b, i, off + done, off + done + n1, off, off + |src|);
      assert src[done..done + n1][..tot] == src[done..done + tot];
    } else if r >= 0 && off <= m.ino[i].size {
      ProgressMore(m, b, fs.g, i, off, src, done, n1, ok);
    }
  }

  /** A write that reports a byte it has not written: one byte over a different one, from an
      address that cannot be read. */
  method ReportsUnwritten(fs: Files, i: nat, x: byte) returns (ret: int, panic: bool)
    requires fs.Valid() && i < |fs.ino| && fs.sb.size < 8192
    requires fs.ino[i].size > 0 && Contents(fs.g, i)[0] != x && Ptr(fs.g, i, 0) != 0
    modifies fs
    ensures fs.Valid() && |fs.g.ino| == |old(fs.g).ino|
    ensures !panic && ret == 1 && Contents(fs.g, i) == Contents(old(fs.g), i)
    ensures !Spliced(old(fs.g), fs.g, i, 0, [x])
  {
    ghost var c := Contents(fs.g, i);
    var newoff;
    ghost var b, tot;
    ret, newoff, panic, b, tot := Filewrite(fs, i, 0, [x], 0);
    assert SlotOf(0) == 0;
    SpliceNothing(c, 0);
    assert c[0..1][0] == c[0];
  }

  // A block missing in a part of the range now was missing in the range before.
  lemma HoleBefore(m: Fs, b: Fs, i: nat, lo: nat, hi: nat, lo': nat, hi': nat)
    requires Inv(m) && Inv(b) && i < |m.ino| && i < |b.ino| && PtrsKept(m, b, i)
    requires Hole(b, i, lo, hi) && lo' <= lo && hi <= hi'
    ensures Hole(m, i, lo', hi')
  {
    var bn: nat :| bn < MAXFILE && lo < bn * 1024 + 1024 && bn * 1024 < hi && Ptr(b, i, SlotOf(bn)) == 0;
    assert SlotOf(bn) < SLOTS && Ptr(m, i, SlotOf(bn)) == 0;
  }

  lemma ProgressWhole(m: Fs, g: Fs, i: nat, off: nat, src: seq<byte>, done: nat, ok: nat)
    requires done <= ok <= |src| && i < |g.ino| && Progress(m, g, i, off, src, done, ok)
    ensures Spliced(m, g, i, off, src[..done]) && off + done <= g.ino[i].size
  {
  }

  // begin_op, ilock, writei, iunlock, end_op for one chunk.
  method WriteOneOp(fs: Files, i: nat, off: nat, src: seq<byte>, ok: nat)
    returns (panic: bool, r: int, ghost tot: nat)
    requires fs.Valid() && i < |fs.ino| && 0 < |src| <= CHUNK && fs.sb.size < 8192 && ok <= |src|
    requires off < 0x1_0000_0000
    modifies fs
    ensures fs.Valid() && |fs.g.ino| == |old(fs.g).ino| && NoLeak(old(fs.g), fs.g)
    ensures PtrsKept(old(fs.g), fs.g, i) && tot <= |src|
    ensures panic ==> NoneFree(fs.sb, fs.disk) && Hole(old(fs.g), i, off, off + |src|)
    ensures panic ==> off <= old(fs.ino)[i].size && Wrote(old(fs.g), fs.g, i, off, src[..tot])
    ensures !panic ==> r == if off <= old(fs.ino)[i].size && off + |src| <= MAXBYTES then |src| else -1
    ensures !panic && r < 0 ==> fs.g == old(fs.g)
    ensures !panic && r >= 0 ==>
      && SplicedTo(old(fs.g), fs.g, i, off, src[..ok], fs.g.ino[i].size)
      && (ok == |src| ==> Spliced(old(fs.g), fs.g, i, off, src))
      && (ok == 0 ==> fs.g.ino[i].size == old(fs.g).ino[i].size)
      && |fs.logged| <= 7 && LoggedAll(old(fs.g), fs.g, i, off, |src|, tot, fs.logged)
      && (tot < |src| ==> StoppedAt(off, |src|, ok, tot))
    ensures !panic && r >= 0 && ok == |src| ==> Committed(old(fs.g), fs.g, fs.logged)
  {
    ghost var m := fs.g;
    fs.logged := {};
    SizeIs(m, i);
    ghost var b;
    r, panic, tot, b := fs.Writei(i, off, src, ok);
    if !panic && r >= 0 {
      OpSpliced(m, b, i, off, src, ok, tot);
      if ok == |src| { WholeCommitted(m, fs.g, i, off, |src|, fs.logged); }
      ChunkBudget(fs.g, i, off, |src|, fs.logged);
    }
  }

  // Committing the blocks in l to the disk of m gives the disk of g.
  predicate Committed(m: Fs, g: Fs, l: set<nat>) {
    |m.disk| == |g.disk| && Durable(m.disk, g.disk, l) == g.disk
  }

  lemma WholeCommitted(m: Fs, g: Fs, i: nat, off: nat, n: nat, l: set<nat>)
    requires Shaped(g) && i < |g.ino| && LoggedAll(m, g, i, off, n, n, l)
    ensures Committed(m, g, l)
  {
    LogsDurable(m.disk, g.disk, l);
  }

  lemma SizeIs(fs: Fs, i: nat)
    requires Inv(fs) && i < |fs.ino|
    ensures fs.ino[i].size <= MAXBYTES
  {
    assert InodeOk(fs.ino[i]);
  }

  // One chunk of which ok bytes could be copied, and tot bytes in whole blocks.
  lemma OpSpliced(m: Fs, b: Fs, i: nat, off: nat, src: seq<byte>, ok: nat, tot: nat)
    requires Inv(m) && Inv(b) && i < |m.ino| && i < |b.ino| && off <= m.ino[i].size && off + |src| <= MAXBYTES
    requires tot <= ok <= |src| && (tot == |src| <==> ok == |src|) && Wrote(m, b, i, off, src[..ok]) && NoLeak(m, b)
    ensures var size := Max(b.ino[i].size, off + tot);
      var g := SetSize(b, i, size);
      && SplicedTo(m, g, i, off, src[..ok], size)
      && (ok == |src| ==> Spliced(m, g, i, off, src))
      && (ok == 0 ==> size == m.ino[i].size)
  {
    var size := Max(b.ino[i].size, off + tot);
    assert b.ino[i].size == m.ino[i].size;
    ContentsSpliced(m, b, i, off, src[..ok], size);
    assert src[..|src|] == src;
  }
}
