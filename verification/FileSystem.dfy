/** kernel/fs.c's block allocator and inode contents, in place. A result of None, or
    panic set, stands for "balloc: out of blocks". */
module FileSystem {
  import opened Common
  import opened Packing
  import opened FsSpec
  import opened FileData
  import opened Truncate

  // How far one turn of the copying loops goes: to the end of the block or of the request.
  function Chunk(off: nat, left: nat): (m: nat)
    ensures m <= left && off % 1024 + m <= 1024
    ensures m == left || off % 1024 + m == 1024
  {
    if left < 1024 - off % 1024 then left else 1024 - off % 1024
  }

  class Files {
    const sb: Super
    var disk: seq<Block>          // blocks as bread shows them
    var ino: seq<Inode>
    ghost var g: Fs
    ghost var logged: set<nat>    // the blocks passed to log_write so far

    ghost predicate Valid()
      reads this
    {
      Inv(g) && g.sb == sb && g.disk == disk && g.ino == ino
    }

    // Taking over an image.
    constructor (sb: Super, disk: seq<Block>, ino: seq<Inode>, ghost own: map<nat, Ref>)
      requires Inv(Fs(sb, disk, ino, own))
      ensures Valid() && g == Fs(sb, disk, ino, own) && logged == {}
    {
      this.sb, this.disk, this.ino := sb, disk, ino;
      g := Fs(sb, disk, ino, own);
      logged := {};
    }

    method LogWrite(bn: nat)
      modifies this`logged
      ensures logged == old(logged) + {bn}
    {
      logged := logged + {bn};
    }

    // balloc's double loop over bitmap blocks and bits: the lowest clear bit.
    method FindFree() returns (r: Option<nat>)
      requires SuperOk(sb, disk)
      ensures r.None? ==> forall b: nat :: b < sb.size ==> BitAt(sb, disk, b)
      ensures r.Some? ==> r.value < sb.size && !BitAt(sb, disk, r.value)
      ensures r.Some? ==> forall c: nat :: c < r.value ==> BitAt(sb, disk, c)
    {
      var q := 0;
      while q * 8192 < sb.size
        invariant forall c: nat :: c < q * 8192 && c < sb.size ==> BitAt(sb, disk, c)
      {
        r := FindInBlock(q);
        if r.Some? {
          return;
        }
        q := q + 1;
      }
      return None;
    }

    // The bits of one bitmap block.
    method FindInBlock(q: nat) returns (r: Option<nat>)
      requires SuperOk(sb, disk) && q * 8192 < sb.size
      requires forall c: nat :: c < q * 8192 ==> BitAt(sb, disk, c)
      ensures r.None? ==> forall c: nat :: c < q * 8192 + 8192 && c < sb.size ==> BitAt(sb, disk, c)
      ensures r.Some? ==> r.value < sb.size && !BitAt(sb, disk, r.value)
      ensures r.Some? ==> forall c: nat :: c < r.value ==> BitAt(sb, disk, c)
    {
      var b := q * 8192;
      var bi := 0;
      while bi < 8192 && b + bi < sb.size
        invariant bi <= 8192
        invariant forall c: nat :: c < b + bi && c < sb.size ==> BitAt(sb, disk, c)
      {
        var used := BitInBlock(q, bi);
        if !used {
          return Some(b + bi);
        }
        bi := bi + 1;
      }
      return None;
    }

    method BitInBlock(q: nat, bi: nat) returns (used: bool)
      requires SuperOk(sb, disk) && bi < 8192 && q * 8192 + bi < sb.size
      ensures used == BitAt(sb, disk, q * 8192 + bi)
    {
      hide BitBlock, BitByte;
      BitWhere(q, bi);
      var bm := disk[BitBlock(sb, q * 8192)];
      used := Bit(bm[bi / 8], bi % 8);
    }

    lemma BitWhere(q: nat, bi: nat)
      requires SuperOk(sb, disk) && bi < 8192 && q * 8192 + bi < sb.size
      ensures var b := q * 8192 + bi;
        && BitBlock(sb, b) == BitBlock(sb, q * 8192) < |disk| && BitByte(b) == bi / 8 && b % 8 == bi % 8
    {
      BitPlace(q, bi);
      BitPlace(q, 0);
    }

    /** balloc: the lowest free block, marked and zeroed; None when every bit is set. */
    method Balloc() returns (r: Option<nat>)
      requires Valid()
      modifies this`disk, this`g, this`logged
      ensures Valid() && SameFiles(old(g), g)
      ensures r.None? ==> g == old(g) && logged == old(logged)
      ensures r.None? <==> NoneFree(sb, old(disk))
      ensures r.Some? ==> r.value < sb.size && !BitAt(sb, old(disk), r.value)
      ensures r.Some? ==> forall c: nat :: c < r.value ==> BitAt(sb, old(disk), c)
      ensures r.Some? ==> g == Claim(old(g), r.value)
      ensures r.Some? ==> logged == old(logged) + {BitBlock(sb, r.value), r.value}
      ensures Logs(old(disk), disk, logged, {})
    {
      r := FindFree();
      if r.None? { return; }
      var b := r.value;
      ClaimInv(g, b);
      var bm := disk[BitBlock(sb, b)];
      ByteWidth(bm[BitByte(b)], b % 8);
      disk := disk[BitBlock(sb, b) := bm[BitByte(b) := SetBit(bm[BitByte(b)], b % 8)]];
      LogWrite(BitBlock(sb, b));
      disk := disk[b := ZeroBlock()];
      LogWrite(b);
      g := Claim(g, b);
    }

    lemma BitPlace(q: nat, bi: nat)
      requires bi < 8192
      ensures (q * 8192 + bi) / 8192 == q && (q * 8192 + bi) % 8192 == bi && (q * 8192 + bi) % 8 == bi % 8
    {
      var x := 1024 * q;
      assert q * 8192 == 8 * x;
      EightTimes(x, bi);
    }

    lemma EightTimes(x: nat, bi: nat)
      ensures (8 * x + bi) % 8 == bi % 8
    {
    }

    // Allocate a block into the empty slot of inode i.
    method AllocInto(i: nat, slot: nat) returns (r: Option<nat>)
      requires Valid() && i < |ino| && slot < SLOTS && Ptr(g, i, slot) == 0
      requires slot >= 13 ==> Ptr(g, i, 12) != 0
      modifies this`disk, this`ino, this`g, this`logged
      ensures Valid() && SameFiles(old(g), g) && NoLeak(old(g), g)
      ensures forall s: nat :: s < SLOTS ==>
        Ptr(g, i, s) == if s == slot && r.Some? then r.value else Ptr(old(g), i, s)
      ensures r.Some? ==> r.value != 0 && r.value < |disk|
      ensures r.None? <==> NoneFree(sb, old(disk))
      ensures r.None? ==> g == old(g)
      ensures forall x :: x in logged ==>
        x in old(logged) || IsBitBlock(sb, x) || (r.Some? && x == r.value) || (x != 0 && x == Ptr(g, i, 12))
      ensures old(logged) <= logged && Logs(old(disk), disk, logged, {})
    {
      ghost var m := g;
      r := Balloc();
      if r.None? { return; }
      var b := r.value;
      AllocEffect(m, i, slot, b);
      assert IsBitBlock(sb, BitBlock(sb, b));
      if slot < 13 {
        ino := ino[i := ino[i].(addrs := ino[i].addrs[slot := b])];
      } else {
        var ind := ino[i].addrs[12];
        disk := disk[ind := PutWord(disk[ind], slot - 13, b)];
        LogWrite(ind);
      }
      g := Link(g, i, slot, b);
    }

    /** bmap: the block of file block bn, allocated when missing; no file's bytes
        change, no allocated block is left without a slot, and only bitmap, indirect and
        that block can be logged. It fails only for a missing block with none free. */
    method Bmap(i: nat, bn: nat) returns (r: Option<nat>)
      requires Valid() && i < |ino| && bn < MAXFILE
      modifies this`disk, this`ino, this`g, this`logged
      ensures Valid() && SameFiles(old(g), g) && NoLeak(old(g), g)
      ensures r.Some? ==> r.value == Ptr(g, i, SlotOf(bn)) && r.value != 0 && r.value < |disk|
      ensures |ino| == |old(ino)| && PtrsKept(old(g), g, i)
      ensures r.None? ==> Ptr(old(g), i, SlotOf(bn)) == 0 && NoneFree(sb, disk)
      ensures old(logged) <= logged && Logs(old(disk), disk, logged, {})
      ensures r.None? ==> forall x :: x in logged ==>
        x in old(logged) || IsBitBlock(sb, x) || (x != 0 && x == Ptr(g, i, 12))
      ensures r.Some? ==> forall x :: x in logged ==>
        x in old(logged) || IsBitBlock(sb, x) || (x != 0 && (x == Ptr(g, i, SlotOf(bn)) || x == Ptr(g, i, 12)))
    {
      hide Logs;
      ghost var m := g;
      SameLogs(disk, logged);
      if bn < 12 {
        var addr := ino[i].addrs[bn];
        if addr == 0 {
          r := AllocInto(i, bn);
          return;
        }
        assert PtrOk(g, i, bn) && OwnOk(g, addr);
        return Some(addr);
      }
      var slot := bn + 1;
      var ind := ino[i].addrs[12];
      if ind == 0 {
        r := AllocInto(i, 12);
        if r.None? { return; }
        ind := r.value;
      }
      ghost var c, lc := g, logged;
      assert PtrOk(c, i, 12) && OwnOk(c, ind);
      var addr := Word(disk[ind], slot - 13);
      if addr == 0 {
        r := AllocInto(i, slot);
        SameFilesTrans(m, c, g);
        LogsTrans(m.disk, c.disk, disk, lc, logged, {});
        return;
      }
      assert PtrOk(c, i, slot) && OwnOk(c, addr);
      return Some(addr);
    }

    // iupdate, as far as the log is concerned: the inode's block is logged.
    method Iupdate(i: nat)
      modifies this`logged
      ensures logged == old(logged) + {InodeBlock(sb, i)}
    {
      LogWrite(InodeBlock(sb, i));
    }

    // One turn of writei's loop: done bytes are written, and n more are attempted.
    // good of them could be copied in; the block is logged only if all could.
    method WriteChunk(i: nat, off: nat, src: seq<byte>, ok: nat, done: nat, ghost m: Fs, ghost l0: set<nat>)
      returns (panic: bool, n: nat, good: nat)
      requires Writing(m, i, off, src, done, l0) && i < |ino| && done < |src| && done <= ok <= |src|
      requires off + |src| <= MAXBYTES
      modifies this`disk, this`ino, this`g, this`logged
      ensures panic ==> n == good == 0
      ensures !panic ==> 0 < n <= |src| - done && good == (if done + n > ok then ok - done else n)
      ensures Writing(m, i, off, src, done + good, l0)
      ensures panic ==> NoneFree(sb, disk) && Hole(m, i, off, off + |src|)
      ensures old(logged) <= logged && i < |g.ino| && PtrsKept(old(g), g, i)
      ensures panic || good == n ==> Logs(old(disk), disk, logged, {})
      ensures !panic ==>
        var e := Ptr(g, i, SlotOf((off + done) / 1024));
        e != 0 && Logs(old(disk), disk, logged, {e}) && (good == n ==> e in logged)
      ensures !panic ==> n == Chunk(off + done, |src| - done)
    {
      hide Wrote, LogOk, SameFiles, PtrsKept, PtrOk, OwnOk, BitOk, Ptr;
      ghost var c, lc := g, logged;
      var at := off + done;
      var a := Bmap(i, at / 1024);
      ghost var d := g;
      if a.None? {
        PtrsTrans(m, c, d, i);
        PanicWrote(m, c, d, i, off, src[..done]);
        PanicLogOk(c, d, i, off, off + |src|, l0, lc, logged);
        HoleAt(m, c, i, off, off + |src|, at);
        return true, 0, 0;
      }
      n := Chunk(at, |src| - done);
      good := if done + n > ok then ok - done else n;
      WriteStep(m, c, d, i, off, src, done, good, l0, lc, logged);
      disk := disk[a.value := Splice(disk[a.value], at % 1024, src[done..done + good])];
      g := PutBlock(d, a.value, disk[a.value]);
      if good == n {
        LogWrite(a.value);
      }
      return false, n, good;
    }

    // writei's state after done bytes, started in file system m with l0 logged.
    ghost predicate Writing(m: Fs, i: nat, off: nat, src: seq<byte>, done: nat, l0: set<nat>)
      reads this
    {
      && Valid() && Shaped(m) && i < |ino| && i < |m.ino| && done <= |src| && NoLeak(m, g) && PtrsKept(m, g, i)
      && Wrote(m, g, i, off, src[..done]) && LogOk(g, i, off, off + |src|, l0, logged)
    }

    /** writei: src is the caller's buffer, whose first ok bytes can be copied in.
        Those bytes are written at off; the size covers only the tot bytes of whole
        chunks; and the answer is the full length even when the copying stopped
        early. The bytes of the chunk it stopped in are in the file only as bread shows it:
        that buffer is neither logged nor pinned. It panics only with no block free and one
        missing in the range. b is the file system before the size is set. */
    method Writei(i: nat, off: nat, src: seq<byte>, ok: nat)
      returns (r: int, panic: bool, ghost tot: nat, ghost b: Fs)
      requires Valid() && i < |ino| && off < 0x1_0000_0000 && |src| < 0x1_0000_0000 && ok <= |src|
      modifies this`disk, this`ino, this`g, this`logged
      ensures Valid() && tot <= |src| && Inv(b) && NoLeak(old(g), g)
      ensures BadWrite(old(ino)[i], off, |src|) ==> r == -1 && !panic && g == old(g) && logged == old(logged)
      ensures !BadWrite(old(ino)[i], off, |src|) && !panic ==>
        && r == |src| && tot <= ok && (tot == |src| <==> ok == |src|)
        && i < |b.ino| && Wrote(old(g), b, i, off, src[..ok])
        && g == (if |src| == 0 then b else SetSize(b, i, Max(b.ino[i].size, off + tot)))
        && LogOk(g, i, off, off + |src|, old(logged), logged)
      ensures i < |g.ino| && PtrsKept(old(g), g, i)
      ensures !BadWrite(old(ino)[i], off, |src|) && !panic && tot < |src| ==> StoppedAt(off, |src|, ok, tot)
      ensures !BadWrite(old(ino)[i], off, |src|) && !panic ==> LoggedAll(old(g), g, i, off, |src|, tot, logged)
      ensures |src| == 0 ==> g == old(g) && logged == old(logged)
      ensures panic ==> !BadWrite(old(ino)[i], off, |src|) && Wrote(old(g), g, i, off, src[..tot])
      ensures panic ==> NoneFree(sb, disk) && Hole(old(g), i, off, off + |src|)
    {
      hide Wrote, LogOk, SameFiles, PtrOk, OwnOk, BitOk, SuperOk, Logging, LoggedAll, StoppedAt, Logs;
      ghost var m, l0 := g, logged;
      if off > ino[i].size || off + |src| >= 0x1_0000_0000 { return -1, false, 0, m; }
      if off + |src| > MAXFILE * BSIZE { return -1, false, 0, m; }
      SameFilesRefl(m);
      SameFilesWrote(m, m, i, off);
      NothingLogged(m, i, off, off + |src|, l0);
      NoneLogged(m, i, off, |src|, ok, l0);
      var done, stop := 0, false;
      while done < |src| && !stop
        invariant done <= ok
        invariant Writing(m, i, off, src, if stop then ok else done, l0)
        invariant stop ==> done < |src| && ok < |src|
        invariant Logging(m, g, i, off, |src|, ok, done, stop, logged)
        invariant |src| == 0 ==> g == m && logged == l0
        decreases |src| - done, !stop
      {
        var n, good;
        ghost var c, lc := g, logged;
        panic, n, good := WriteChunk(i, off, src, ok, done, m, l0);
        if panic { return 0, true, done, g; }
        MoreLogged(m, c, g, i, off, |src|, ok, done, n, good == n, lc, logged);
        if good < n {
          stop := true;
        } else {
          done := done + n;
        }
      }
      tot, b := done, g;
      r, panic := |src|, false;
      if |src| > 0 {
        ghost var l1 := logged;
        SetSizeInv(g, i, Max(ino[i].size, off + done));
        ino := ino[i := ino[i].(size := Max(ino[i].size, off + done))];
        g := SetSize(g, i, ino[i].size);
        Iupdate(i);
        SizeLogOk(b, g, i, off, off + |src|, l0, l1);
        AllLogged(m, b, g, i, off, |src|, ok, done, stop, l1, logged);
      } else {
        AllLogged(m, b, g, i, off, 0, ok, done, stop, logged, logged);
      }
    }

    /** readi: the bytes of the file from off on, at most n and not past the end; the
        copy to the caller can stop early when only room bytes fit. Reading may fill
        holes but changes no file. It stops early only at a chunk that does not fit, or
        panics only with no block free and one missing in the range. */
    method Readi(i: nat, off: nat, n: nat, room: nat) returns (dst: seq<byte>, panic: bool)
      requires Valid() && i < |ino| && off < 0x1_0000_0000 && n < 0x1_0000_0000
      modifies this`disk, this`ino, this`g, this`logged
      ensures Valid() && SameFiles(old(g), g) && NoLeak(old(g), g)
      ensures off > old(ino)[i].size || off + n >= 0x1_0000_0000 ==> dst == [] && !panic && g == old(g)
      ensures off <= old(ino)[i].size && off + n < 0x1_0000_0000 ==>
        && off + |dst| <= old(ino)[i].size && |dst| <= n
        && dst == Contents(old(g), i)[off..off + |dst|]
        && var left := Min(n, old(ino)[i].size - off) - |dst|;
        && (!panic && left > 0 ==> |dst| + Chunk(off + |dst|, left) > room)
      ensures panic ==> NoneFree(sb, disk) && Hole(old(g), i, off, off + n)
      ensures old(logged) <= logged && Logs(old(disk), disk, logged, {})
    {
      hide SlotSame, PtrsKept, PtrOk, OwnOk, BitOk, SuperOk, Contents, NoneFree, Hole, Logs;
      ghost var m := g;
      SameLogs(disk, logged);
      dst, panic := [], false;
      SameFilesRefl(m);
      if off > ino[i].size || off + n >= 0x1_0000_0000 { return; }
      PtrsSame(m, i);
      var len := if off + n > ino[i].size then ino[i].size - off else n;
      while |dst| < len
        invariant |dst| <= len && Valid() && SameFiles(m, g) && NoLeak(m, g) && PtrsKept(m, g, i)
        invariant dst == Contents(m, i)[off..off + |dst|]
        invariant old(logged) <= logged && Logs(m.disk, disk, logged, {})
        decreases len - |dst|
      {
        var chunk;
        ghost var c, lc := g, logged;
        panic, chunk := ReadStep(i, off + |dst|, len - |dst|, m);
        LogsTrans(m.disk, c.disk, disk, lc, logged, {});
        PtrsTrans(m, c, g, i);
        if panic {
          HoleAt(m, c, i, off, off + n, off + |dst|);
          return;
        }
        if |dst| + |chunk| > room { return; }
        SliceMore(Contents(m, i), off, off + |dst|, off + |dst| + |chunk|);
        dst := dst + chunk;
      }
    }

    // One turn of readi's loop.
    method ReadStep(i: nat, at: nat, left: nat, ghost m: Fs) returns (panic: bool, chunk: seq<byte>)
      requires Valid() && Shaped(m) && SameFiles(m, g) && i < |ino| && left > 0 && at + left <= ino[i].size
      modifies this`disk, this`ino, this`g, this`logged
      ensures Valid() && SameFiles(m, g) && NoLeak(old(g), g)
      ensures PtrsKept(old(g), g, i) && old(logged) <= logged && Logs(old(disk), disk, logged, {})
      ensures panic ==> NoneFree(sb, disk) && Ptr(old(g), i, SlotOf(at / 1024)) == 0
      ensures !panic ==> |chunk| == Chunk(at, left) && chunk == Contents(m, i)[at..at + |chunk|]
    {
      ghost var c := g;
      var a := Bmap(i, at / 1024);
      SameFilesTrans(m, c, g);
      if a.None? { return true, []; }
      var k := Chunk(at, left);
      ReadChunk(m, g, i, at, k);
      var o := at % 1024;
      return false, disk[a.value][o..o + k];
    }

    // bfree: the bit must be set, or it panics with "freeing free block".
    method Bfree(b: nat)
      requires SuperOk(sb, disk) && b < sb.size && BitAt(sb, disk, b)
      modifies this`disk, this`logged
      ensures disk == MarkFree(sb, old(disk), b)
      ensures logged == old(logged) + {BitBlock(sb, b)}
    {
      var bm := disk[BitBlock(sb, b)];
      ByteWidth(bm[BitByte(b)], b % 8);
      disk := disk[BitBlock(sb, b) := bm[BitByte(b) := ClearBit(bm[BitByte(b)], b % 8)]];
      LogWrite(BitBlock(sb, b));
    }

    // Free one block of inode i during itrunc; m is the file system at its start.
    method FreeSlot(b: nat, ghost m: Fs, ghost i: nat, ghost slot: nat, ghost freed: set<nat>)
      requires Freeing(m, sb, disk, i, freed) && slot < SLOTS
      requires b == Ptr(m, i, slot) && b != 0 && b !in freed
      modifies this`disk, this`logged
      ensures Freeing(m, sb, disk, i, freed + {b})
      ensures old(logged) <= logged && Logs(old(disk), disk, logged, {})
    {
      FreeReady(m, disk, i, slot, freed);
      ghost var d := disk;
      Bfree(b);
      FreeMore(m, d, i, slot, freed);
    }

    // The same, with the log since m.
    method FreeLogged(b: nat, ghost m: Fs, ghost i: nat, ghost slot: nat, ghost freed: set<nat>)
      requires Freeing(m, sb, disk, i, freed) && slot < SLOTS && Logs(m.disk, disk, logged, {})
      requires b == Ptr(m, i, slot) && b != 0 && b !in freed
      modifies this`disk, this`logged
      ensures Freeing(m, sb, disk, i, freed + {b}) && Logs(m.disk, disk, logged, {})
    {
      ghost var d, l := disk, logged;
      FreeSlot(b, m, i, slot, freed);
      LogsTrans(m.disk, d, disk, l, logged, {});
    }

    /** itrunc: exactly the blocks of inode i are freed, each once, so that "freeing
        free block" cannot happen; the file is empty and every other file unchanged. */
    method Itrunc(i: nat)
      requires Valid() && i < |ino|
      modifies this`disk, this`ino, this`g, this`logged
      ensures Valid() && Truncated(old(g), g, i) && NoLeak(old(g), g)
      ensures Logs(old(disk), disk, logged, {}) && InodeBlock(sb, i) in logged
    {
      ghost var m := g;
      ghost var freed: set<nat> := {};
      FreeNone(m, i);
      for s := 0 to 12
        invariant Freeing(m, sb, disk, i, freed) && |ino| == |m.ino| && |ino[i].addrs| == 13
        invariant forall j :: 0 <= j < 13 ==> ino[i].addrs[j] == if j < s then 0 else m.ino[i].addrs[j]
        invariant ino == m.ino[i := m.ino[i].(addrs := ino[i].addrs)]
        invariant FreedSlots(m, i, s, 13, freed)
        invariant Logs(m.disk, disk, logged, {})
      {
        var b := ino[i].addrs[s];
        FreedNext(m, i, s, s, 13, freed);
        if b != 0 {
          FreeLogged(b, m, i, s, freed);
          freed := freed + {b};
          ino := ino[i := ino[i].(addrs := ino[i].addrs[s := 0])];
        }
      }
      var ind := ino[i].addrs[12];
      FreedNext(m, i, 12, 12, 13, freed);
      if ind != 0 {
        assert PtrOk(m, i, 12) && OwnOk(m, ind);
        ghost var inodes := ino;
        for j := 0 to 256
          invariant Freeing(m, sb, disk, i, freed) && ino == inodes
          invariant FreedSlots(m, i, 12, 13 + j, freed)
          invariant Logs(m.disk, disk, logged, {})
        {
          var b := Word(disk[ind], j);
          FreedNext(m, i, 13 + j, 12, 13 + j, freed);
          if b != 0 {
            FreeLogged(b, m, i, 13 + j, freed);
            freed := freed + {b};
          }
        }
        FreeLogged(ind, m, i, 12, freed);
        freed := freed + {ind};
        ino := ino[i := ino[i].(addrs := ino[i].addrs[12 := 0])];
      }
      ino := ino[i := ino[i].(size := 0)];
      Iupdate(i);
      assert ino[i].addrs == seq(13, _ => 0);
      assert ino == m.ino[i := m.ino[i].(addrs := seq(13, _ => 0), size := 0)];
      TruncInv(m, disk, i, freed);
      g := Fs(sb, disk, ino, m.own - freed);
    }
  }

  // writei's two refusals, with off + n computed as a 32-bit unsigned sum
  predicate BadWrite(ip: Inode, off: nat, n: nat) {
    off > ip.size || off + n >= 0x1_0000_0000 || off + n > MAXFILE * BSIZE
  }

  // IBLOCK(i, sb), with 16 inodes to a block
  function InodeBlock(sb: Super, i: nat): nat { i / 16 + sb.inodestart }

  /** The 64 bytes of dinode i are in its inode's block: bytes 64 * i on of the inode area. */
  lemma InodeBlockHolds(sb: Super, i: nat)
    ensures var start := (InodeBlock(sb, i) - sb.inodestart) * 1024;
      start <= i * 64 && i * 64 + 64 <= start + 1024
  {
  }

  // x is a block of file i among those of bytes lo to hi, or its indirect block.
  ghost predicate IsFileBlock(fs: Fs, i: nat, lo: nat, hi: nat, x: nat)
    requires Shaped(fs) && i < |fs.ino|
  {
    x != 0 && exists s: nat :: s < SLOTS && x == Ptr(fs, i, s) && Covers(s, lo, hi)
  }

  predicate Covers(s: nat, lo: nat, hi: nat) {
    s == 12 || (hi > lo && SlotOf(lo / 1024) <= s <= SlotOf((hi - 1) / 1024))
  }

  // The only blocks logged beyond l0: bitmap, inode, and blocks of the range written.
  ghost predicate LogOk(fs: Fs, i: nat, lo: nat, hi: nat, l0: set<nat>, l: set<nat>)
    requires Shaped(fs) && i < |fs.ino|
  {
    forall x :: x in l ==>
      x in l0 || IsBitBlock(fs.sb, x) || x == InodeBlock(fs.sb, i) || IsFileBlock(fs, i, lo, hi, x)
  }

  predicate IsBitBlock(sb: Super, x: nat) { sb.bmapstart <= x <= sb.bmapstart + sb.size / 8192 }

  // ---- What must be logged ----

  // Blocks that differ between m and n are in l, but for those in e.
  predicate Logs(m: seq<Block>, n: seq<Block>, l: set<nat>, e: set<nat>) {
    |m| == |n| && forall x: nat :: x < |n| && x !in l && x !in e ==> n[x] == m[x]
  }

  // The disk once the blocks in l are committed and installed.
  function Durable(m: seq<Block>, n: seq<Block>, l: set<nat>): seq<Block>
    requires |m| == |n|
  {
    seq(|n|, x requires 0 <= x < |n| => if x in l then n[x] else m[x])
  }

  /** With every changed block logged, what commits is the disk itself. */
  lemma LogsDurable(m: seq<Block>, n: seq<Block>, l: set<nat>)
    requires |m| == |n|
    ensures Durable(m, n, l) == n <==> Logs(m, n, l, {})
  {
    var d := Durable(m, n, l);
    if d == n {
      forall x: nat | x < |n| && x !in l ensures n[x] == m[x] { assert d[x] == m[x]; }
    }
  }

  lemma SameLogs(m: seq<Block>, l: set<nat>)
    ensures Logs(m, m, l, {})
  {
  }

  lemma LogsTrans(a: seq<Block>, b: seq<Block>, c: seq<Block>, lb: set<nat>, lc: set<nat>, e: set<nat>)
    requires Logs(a, b, lb, {}) && Logs(b, c, lc, e) && lb <= lc
    ensures Logs(a, c, lc, e)
  {
  }

  // The block of file block bn exists and is in l.
  predicate SlotLogged(fs: Fs, i: nat, bn: nat, l: set<nat>)
    requires Shaped(fs) && i < |fs.ino| && bn < MAXFILE
  {
    Ptr(fs, i, SlotOf(bn)) != 0 && Ptr(fs, i, SlotOf(bn)) in l
  }

  // The blocks of the bytes from off on, done of them, are in l.
  ghost predicate RangeLogged(fs: Fs, i: nat, off: nat, done: nat, l: set<nat>)
    requires Shaped(fs) && i < |fs.ino|
  {
    forall bn: nat {:trigger SlotLogged(fs, i, bn, l)} ::
      done > 0 && bn < MAXFILE && off < bn * 1024 + 1024 && bn * 1024 < off + done ==> SlotLogged(fs, i, bn, l)
  }

  // All changes since m are in l, but for those to the block of byte at when the copy into it
  // has stopped.
  ghost predicate DisksLogged(m: Fs, fs: Fs, i: nat, at: nat, stop: bool, l: set<nat>)
    requires Shaped(fs) && i < |fs.ino|
  {
    Logs(m.disk, fs.disk, l, if stop && at < MAXBYTES then {Ptr(fs, i, SlotOf(at / 1024))} else {})
  }

  /** What writei must have logged once tot of n bytes are in whole chunks: the inode, the block of
      every byte of those, and every block changed except that of a chunk it stopped in. */
  ghost predicate LoggedAll(m: Fs, fs: Fs, i: nat, off: nat, n: nat, tot: nat, l: set<nat>)
    requires Shaped(fs) && i < |fs.ino|
  {
    && (n > 0 ==> InodeBlock(fs.sb, i) in l) && RangeLogged(fs, i, off, tot, l)
    && DisksLogged(m, fs, i, off + tot, tot < n, l)
  }

  // The copy stopped in the first chunk that is not among the first ok bytes: tot ends a block,
  // and the chunk that follows goes beyond ok.
  predicate StoppedAt(off: nat, n: nat, ok: nat, tot: nat) {
    && tot <= ok < n && (tot == 0 || (off + tot) % 1024 == 0)
    && ok < tot + Min(n - tot, 1024 - (off + tot) % 1024)
  }

  // The log in writei after done bytes in whole chunks; with stop set, the next one has failed.
  ghost predicate Logging(m: Fs, fs: Fs, i: nat, off: nat, n: nat, ok: nat, done: nat, stop: bool, l: set<nat>)
    requires Shaped(fs) && i < |fs.ino|
  {
    && RangeLogged(fs, i, off, done, l) && DisksLogged(m, fs, i, off + done, stop, l)
    && (done == 0 || done == n || (off + done) % 1024 == 0) && (stop ==> StoppedAt(off, n, ok, done))
  }

  lemma NoneLogged(m: Fs, i: nat, off: nat, n: nat, ok: nat, l: set<nat>)
    requires Shaped(m) && i < |m.ino|
    ensures Logging(m, m, i, off, n, ok, 0, false, l)
  {
  }

  lemma MoreLogged(m: Fs, c: Fs, d: Fs, i: nat, off: nat, n: nat, ok: nat, done: nat, k: nat, whole: bool,
                   lc: set<nat>, ld: set<nat>)
    requires Shaped(c) && Shaped(d) && i < |c.ino| && i < |d.ino| && PtrsKept(c, d, i) && lc <= ld
    requires done < n && off + n <= MAXBYTES && k == Chunk(off + done, n - done) && done <= ok <= n
    requires whole <==> done + k <= ok
    requires Logging(m, c, i, off, n, ok, done, false, lc)
    requires var e := Ptr(d, i, SlotOf((off + done) / 1024));
      e != 0 && Logs(c.disk, d.disk, ld, {e}) && (whole ==> e in ld)
    ensures Logging(m, d, i, off, n, ok, if whole then done + k else done, !whole, ld)
  {
    forall bn: nat | done > 0 && bn < MAXFILE && off < bn * 1024 + 1024 && bn * 1024 < off + done
      ensures SlotLogged(d, i, bn, ld)
    {
      assert SlotLogged(c, i, bn, lc);
    }
    LogsTrans(m.disk, c.disk, d.disk, lc, ld, {Ptr(d, i, SlotOf((off + done) / 1024))});
    if whole {
      forall bn: nat | bn < MAXFILE && off < bn * 1024 + 1024 && bn * 1024 < off + done + k
        ensures SlotLogged(d, i, bn, ld)
      {
        if done > 0 && bn * 1024 < off + done { assert SlotLogged(d, i, bn, ld); }
        else { assert bn == (off + done) / 1024; }
      }
    }
  }

  lemma AllLogged(m: Fs, b: Fs, fs: Fs, i: nat, off: nat, n: nat, ok: nat, tot: nat, stop: bool,
                  l: set<nat>, l': set<nat>)
    requires Shaped(b) && Shaped(fs) && i < |b.ino| && i < |fs.ino| && fs.disk == b.disk && l <= l'
    requires forall s: nat :: s < SLOTS ==> Ptr(fs, i, s) == Ptr(b, i, s)
    requires Logging(m, b, i, off, n, ok, tot, stop, l) && (stop <==> tot < n) && (n > 0 ==> InodeBlock(fs.sb, i) in l')
    ensures LoggedAll(m, fs, i, off, n, tot, l') && (tot < n ==> StoppedAt(off, n, ok, tot))
  {
    forall bn: nat | tot > 0 && bn < MAXFILE && off < bn * 1024 + 1024 && bn * 1024 < off + tot
      ensures SlotLogged(fs, i, bn, l')
    {
      assert SlotLogged(b, i, bn, l);
    }
  }

  // Every address an inode had, it still has.
  ghost predicate PtrsKept(fs: Fs, gs: Fs, i: nat)
    requires Shaped(fs) && Shaped(gs) && i < |fs.ino| && i < |gs.ino|
  {
    forall s: nat :: s < SLOTS && Ptr(fs, i, s) != 0 ==> Ptr(gs, i, s) == Ptr(fs, i, s)
  }

  function Link(fs: Fs, i: nat, slot: nat, b: nat): Fs
    requires Shaped(fs) && i < |fs.ino| && slot < SLOTS && b < 0x1_0000_0000
    requires slot >= 13 ==> fs.ino[i].addrs[12] < |fs.disk|
  {
    if slot < 13 then LinkPtr(fs, i, slot, b) else LinkWord(fs, i, slot, b)
  }

  // A free block, claimed and linked into an empty slot: no file's bytes change.
  lemma AllocEffect(fs: Fs, i: nat, slot: nat, b: nat)
    requires Inv(fs) && i < |fs.ino| && slot < SLOTS && Ptr(fs, i, slot) == 0
    requires slot >= 13 ==> Ptr(fs, i, 12) != 0
    requires b < fs.sb.size && !BitAt(fs.sb, fs.disk, b)
    ensures 0 < b < 0x1_0000_0000 && (slot >= 13 ==> fs.ino[i].addrs[12] < |fs.disk|)
    ensures var gs := Link(Claim(fs, b), i, slot, b);
      && Inv(gs) && SameFiles(fs, gs)
      && forall s: nat :: s < SLOTS ==> Ptr(gs, i, s) == if s == slot then b else Ptr(fs, i, s)
  {
    ClaimInv(fs, b);
    var c := Claim(fs, b);
    forall s: nat | s < SLOTS ensures Ptr(c, i, s) == Ptr(fs, i, s) { ClaimPtr(fs, b, i, s); }
    assert CanLink(c, i, slot, b);
    if slot < 13 {
      LinkPtrInv(c, i, slot, b);
    } else {
      LinkWordInv(c, i, slot, b);
    }
    var gs := Link(c, i, slot, b);
    forall s: nat | s < SLOTS ensures Ptr(gs, i, s) == if s == slot then b else Ptr(c, i, s) {
      if slot < 13 { LinkPtrPtr(c, i, slot, b, i, s); } else { LinkWordPtr(c, i, slot, b, i, s); }
    }
    SameFilesTrans(fs, c, gs);
  }

  lemma SliceMore(c: seq<byte>, lo: nat, mid: nat, hi: nat)
    requires lo <= mid <= hi <= |c|
    ensures c[lo..mid] + c[mid..hi] == c[lo..hi]
  {
  }

  lemma PtrsSame(fs: Fs, i: nat)
    requires Shaped(fs) && i < |fs.ino|
    ensures PtrsKept(fs, fs, i)
  {
  }

  lemma PtrsTrans(a: Fs, b: Fs, c: Fs, i: nat)
    requires Shaped(a) && Shaped(b) && Shaped(c) && i < |a.ino| && i < |b.ino| && i < |c.ino|
    requires PtrsKept(a, b, i) && PtrsKept(b, c, i)
    ensures PtrsKept(a, c, i)
  {
  }

  // A block missing now was missing before.
  lemma HoleAt(m: Fs, c: Fs, i: nat, lo: nat, hi: nat, at: nat)
    requires Shaped(m) && Shaped(c) && i < |m.ino| && i < |c.ino| && PtrsKept(m, c, i)
    requires lo <= at < hi && at < MAXBYTES && Ptr(c, i, SlotOf(at / 1024)) == 0
    ensures Hole(m, i, lo, hi)
  {
    var bn := at / 1024;
    assert SlotOf(bn) < SLOTS && Ptr(m, i, SlotOf(bn)) == 0;
  }

  lemma NothingLogged(fs: Fs, i: nat, lo: nat, hi: nat, l: set<nat>)
    requires Shaped(fs) && i < |fs.ino|
    ensures LogOk(fs, i, lo, hi, l, l)
  {
  }

  lemma SameFilesRefl(fs: Fs)
    requires Shaped(fs)
    ensures SameFiles(fs, fs)
  {
    forall i: nat, s: nat | i < |fs.ino| && s < SLOTS && s != 12 ensures SlotSame(fs, fs, i, s) {}
  }

  // bmap ran out of blocks: what was written before is still all that changed.
  lemma PanicWrote(m: Fs, c: Fs, d: Fs, i: nat, off: nat, done: seq<byte>)
    requires Shaped(m) && Shaped(c) && Shaped(d) && Wrote(m, c, i, off, done) && SameFiles(c, d)
    ensures Wrote(m, d, i, off, done)
  {
    SameFilesWrote(c, d, i, off + |done|);
    WroteTrans(m, c, d, i, off, done, []);
    assert done + [] == done;
  }

  lemma ChunkStep(m: Fs, c: Fs, d: Fs, i: nat, off: nat, at: nat, done: seq<byte>, chunk: seq<byte>)
    requires Shaped(m) && Inv(c) && Inv(d) && Wrote(m, c, i, off, done) && SameFiles(c, d)
    requires i < |d.ino| && at == off + |done| < MAXBYTES && at % 1024 + |chunk| <= 1024
    requires Ptr(d, i, SlotOf(at / 1024)) != 0
    ensures Ptr(d, i, SlotOf(at / 1024)) < |d.disk|
    ensures var b := Ptr(d, i, SlotOf(at / 1024));
      var n := PutBlock(d, b, Splice(d.disk[b], at % 1024, chunk));
      && Inv(n) && Wrote(m, n, i, off, done + chunk)
      && forall s: nat :: s < SLOTS ==> Ptr(n, i, s) == Ptr(d, i, s)
  {
    PanicWrote(m, c, d, i, off, done);
    ChunkWrote(d, i, at, chunk);
    var b := Ptr(d, i, SlotOf(at / 1024));
    WroteTrans(m, d, PutBlock(d, b, Splice(d.disk[b], at % 1024, chunk)), i, off, done, chunk);
  }

  // bmap's step from c to d and the store that follows, together.
  lemma WriteStep(m: Fs, c: Fs, d: Fs, i: nat, off: nat, src: seq<byte>, done: nat, good: nat,
                  l0: set<nat>, lc: set<nat>, ld: set<nat>)
    requires Shaped(m) && Inv(c) && Inv(d) && i < |c.ino| && i < |d.ino| && c.sb == d.sb
    requires done + good <= |src| && done < |src| && off + |src| <= MAXBYTES
    requires Wrote(m, c, i, off, src[..done]) && SameFiles(c, d)
    requires i < |m.ino| && PtrsKept(m, c, i) && PtrsKept(c, d, i)
    requires (off + done) % 1024 + good <= 1024 && Ptr(d, i, SlotOf((off + done) / 1024)) != 0
    requires LogOk(c, i, off, off + |src|, l0, lc)
    requires forall x :: x in ld ==>
      x in lc || IsBitBlock(d.sb, x) || (x != 0 && (x == Ptr(d, i, SlotOf((off + done) / 1024)) || x == Ptr(d, i, 12)))
    ensures Ptr(d, i, SlotOf((off + done) / 1024)) < |d.disk|
    ensures var b := Ptr(d, i, SlotOf((off + done) / 1024));
      var n := PutBlock(d, b, Splice(d.disk[b], (off + done) % 1024, src[done..done + good]));
      && Inv(n) && |n.ino| == |m.ino| && Wrote(m, n, i, off, src[..done + good]) && PtrsKept(m, n, i)
      && PtrsKept(c, n, i) && Ptr(n, i, SlotOf((off + done) / 1024)) == b
      && LogOk(n, i, off, off + |src|, l0, ld) && LogOk(n, i, off, off + |src|, l0, ld + {b})
  {
    var at, chunk := off + done, src[done..done + good];
    ChunkStep(m, c, d, i, off, at, src[..done], chunk);
    assert src[..done] + chunk == src[..done + good];
    BmapLogOk(c, d, i, off, off + |src|, at, l0, lc, ld);
    var b := Ptr(d, i, SlotOf(at / 1024));
    ChunkLogOk(d, PutBlock(d, b, Splice(d.disk[b], at % 1024, chunk)), i, off, off + |src|, at, l0, ld, b);
  }

  lemma BmapLogOk(c: Fs, d: Fs, i: nat, lo: nat, hi: nat, at: nat, l0: set<nat>, lc: set<nat>, ld: set<nat>)
    requires Shaped(c) && Shaped(d) && i < |c.ino| && i < |d.ino| && c.sb == d.sb
    requires PtrsKept(c, d, i) && LogOk(c, i, lo, hi, l0, lc) && lo <= at < hi <= MAXBYTES
    requires forall x :: x in ld ==>
      x in lc || IsBitBlock(d.sb, x) || (x != 0 && (x == Ptr(d, i, SlotOf(at / 1024)) || x == Ptr(d, i, 12)))
    ensures LogOk(d, i, lo, hi, l0, ld)
  {
    assert lo / 1024 <= at / 1024 <= (hi - 1) / 1024;
    forall x | x in ld
      ensures x in l0 || IsBitBlock(d.sb, x) || x == InodeBlock(d.sb, i) || IsFileBlock(d, i, lo, hi, x)
    {
      if x in lc && IsFileBlock(c, i, lo, hi, x) {
        var s: nat :| s < SLOTS && x == Ptr(c, i, s) && Covers(s, lo, hi);
        assert x == Ptr(d, i, s);
      }
    }
  }

  lemma ChunkLogOk(d: Fs, n: Fs, i: nat, lo: nat, hi: nat, at: nat, l0: set<nat>, l: set<nat>, a: nat)
    requires Shaped(d) && Shaped(n) && i < |d.ino| && i < |n.ino| && d.sb == n.sb
    requires forall s: nat :: s < SLOTS ==> Ptr(n, i, s) == Ptr(d, i, s)
    requires LogOk(d, i, lo, hi, l0, l) && lo <= at < hi <= MAXBYTES
    requires a == Ptr(n, i, SlotOf(at / 1024)) && a != 0
    ensures LogOk(n, i, lo, hi, l0, l) && LogOk(n, i, lo, hi, l0, l + {a})
  {
    assert lo / 1024 <= at / 1024 <= (hi - 1) / 1024;
    forall x | x in l && IsFileBlock(d, i, lo, hi, x) ensures IsFileBlock(n, i, lo, hi, x) {
      var s: nat :| s < SLOTS && x == Ptr(d, i, s) && Covers(s, lo, hi);
      assert x == Ptr(n, i, s);
    }
    assert IsFileBlock(n, i, lo, hi, a);
  }

  // Blocks a failed bmap may have logged: bitmap and indirect block only.
  lemma PanicLogOk(c: Fs, d: Fs, i: nat, lo: nat, hi: nat, l0: set<nat>, lc: set<nat>, ld: set<nat>)
    requires Shaped(c) && Shaped(d) && i < |c.ino| && i < |d.ino| && c.sb == d.sb
    requires PtrsKept(c, d, i) && LogOk(c, i, lo, hi, l0, lc)
    requires forall x :: x in ld ==> x in lc || IsBitBlock(d.sb, x) || (x != 0 && x == Ptr(d, i, 12))
    ensures LogOk(d, i, lo, hi, l0, ld)
  {
    forall x | x in lc && IsFileBlock(c, i, lo, hi, x) ensures IsFileBlock(d, i, lo, hi, x) {
      var s: nat :| s < SLOTS && x == Ptr(c, i, s) && Covers(s, lo, hi);
      assert x == Ptr(d, i, s);
    }
  }

  lemma SizeLogOk(b: Fs, n: Fs, i: nat, lo: nat, hi: nat, l0: set<nat>, l: set<nat>)
    requires Shaped(b) && Shaped(n) && i < |b.ino| && i < |n.ino| && b.sb == n.sb
    requires forall s: nat :: s < SLOTS ==> Ptr(n, i, s) == Ptr(b, i, s)
    requires LogOk(b, i, lo, hi, l0, l)
    ensures LogOk(n, i, lo, hi, l0, l + {InodeBlock(n.sb, i)})
  {
    forall x | x in l && IsFileBlock(b, i, lo, hi, x) ensures IsFileBlock(n, i, lo, hi, x) {
      var s: nat :| s < SLOTS && x == Ptr(b, i, s) && Covers(s, lo, hi);
      assert x == Ptr(n, i, s);
    }
  }
}
