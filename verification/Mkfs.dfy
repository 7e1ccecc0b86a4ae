/** mkfs/mkfs.c: building the first file system image. Blocks are handed out in order
    and the bitmap is written last, so the ownership invariant of the running file
    system is established only by the final step; until then it holds of the image
    with the bitmap that will be written. */
module Mkfs {
  import opened Common
  import opened Packing
  import opened FsSpec
  import opened FileData
  import FileSystem

  const FSSIZE: nat := 1000
  const NINODES: nat := 200

  // boot, super, 30 log blocks, 200 / 16 + 1 inode blocks, 1 bitmap block
  const LAYOUT := Super(FSSIZE, 46, 32, 45)

  // ---- The bitmap of the first n blocks ----

  function Bitmap(n: nat): Block
    requires n <= 8192
  {
    if n == 0 then ZeroBlock()
    else
      var b := Bitmap(n - 1);
      ByteWidth(b[(n - 1) / 8], (n - 1) % 8);
      b[(n - 1) / 8 := SetBit(b[(n - 1) / 8], (n - 1) % 8)]
  }

  lemma {:induction false} BitmapAt(n: nat, b: nat)
    requires n <= 8192 && b < 8192
    ensures Bit(Bitmap(n)[b / 8], b % 8) <==> b < n
  {
    if n == 0 {
      ZeroBits(b % 8);
    } else {
      BitmapAt(n - 1, b);
      BitSet(Bitmap(n - 1)[(n - 1) / 8], (n - 1) % 8, b % 8);
      assert b == 8 * (b / 8) + b % 8 && n - 1 == 8 * ((n - 1) / 8) + (n - 1) % 8;
    }
  }

  lemma {:induction false} ZeroBits(j: nat)
    ensures !Bit(0, j)
  {
    if j > 0 { ZeroBits(j - 1); }
  }

  // ---- The image under construction ----

  // How many file blocks data of this length touches from offset at.
  function Chunks(at: nat, left: nat): nat {
    if left == 0 then 0 else (at % 1024 + left + 1023) / 1024
  }

  function Missing(fs: Fs, i: nat, slot: nat): nat
    requires Shaped(fs) && i < |fs.ino| && slot < SLOTS
  {
    if Ptr(fs, i, slot) == 0 then 1 else 0
  }

  // How many of the k file blocks from bn on have no block yet.
  function MissingFrom(fs: Fs, i: nat, bn: nat, k: nat): nat
    requires Shaped(fs) && i < |fs.ino| && bn + k <= MAXFILE
    decreases k
  {
    if k == 0 then 0 else Missing(fs, i, SlotOf(bn)) + MissingFrom(fs, i, bn + 1, k - 1)
  }

  // How many blocks an append of data there takes: those, and the indirect block.
  function Needed(fs: Fs, i: nat, bn: nat, k: nat): nat
    requires Shaped(fs) && i < |fs.ino| && bn + k <= MAXFILE
  {
    MissingFrom(fs, i, bn, k) + if k > 0 && bn + k > 12 then Missing(fs, i, 12) else 0
  }

  lemma {:induction false} MissingSame(fs: Fs, gs: Fs, i: nat, bn: nat, k: nat)
    requires Shaped(fs) && Shaped(gs) && i < |fs.ino| && i < |gs.ino| && bn + k <= MAXFILE
    requires forall s: nat :: s < SLOTS && s != 12 && SlotOf(bn) <= s ==> Ptr(gs, i, s) == Ptr(fs, i, s)
    ensures MissingFrom(gs, i, bn, k) == MissingFrom(fs, i, bn, k)
    decreases k
  {
    if k > 0 { MissingSame(fs, gs, i, bn + 1, k - 1); }
  }

  // The first block of an append is supplied; the need drops by what was taken.
  lemma NeededStep(fs: Fs, gs: Fs, i: nat, bn: nat, k: nat)
    requires Shaped(fs) && Shaped(gs) && i < |fs.ino| && i < |gs.ino| && bn + k <= MAXFILE && k > 0
    requires forall s: nat :: s < SLOTS && s != SlotOf(bn) && (s != 12 || bn < 12) ==> Ptr(gs, i, s) == Ptr(fs, i, s)
    requires bn >= 12 ==> Ptr(gs, i, 12) != 0
    ensures Needed(gs, i, bn + 1, k - 1) + Missing(fs, i, SlotOf(bn)) + (if bn >= 12 then Missing(fs, i, 12) else 0)
         == Needed(fs, i, bn, k)
  {
    MissingSame(fs, gs, i, bn + 1, k - 1);
  }

  class Image {
    const sb: Super
    var disk: seq<Block>
    var ino: seq<Inode>
    var freeblock: nat
    var freeinode: nat
    ghost var g: Fs      // the image with its bitmap up to date

    ghost predicate Valid()
      reads this
    {
      && sb.size < 8192 && Inv(g) && g.sb == sb && g.ino == ino && |g.disk| == |disk|
      && (forall x :: 0 <= x < |disk| && x != sb.bmapstart ==> disk[x] == g.disk[x])
      && sb.nmeta <= freeblock <= sb.size && freeinode <= |ino|
      && (forall b: nat :: b in g.own <==> sb.nmeta <= b < freeblock)
      && NoLoose(g)
      && (forall x :: freeblock <= x < |disk| ==> disk[x] == ZeroBlock())
    }

    constructor ()
      ensures Valid() && sb == LAYOUT && freeinode == 1 && freeblock == 46 && |ino| == NINODES
      ensures forall i :: 0 <= i < |ino| ==> Contents(g, i) == []
    {
      sb := LAYOUT;
      disk := seq(FSSIZE, _ => ZeroBlock());
      ino := seq(NINODES, _ => Inode(0, 0, 0, seq(13, _ => 0)));
      freeblock := 46;
      freeinode := 1;
      g := EmptyFs();
      new;
      EmptyInv();
    }

    // ialloc: the next inode number, with one link.
    method Ialloc(kind: nat) returns (inum: nat)
      requires Valid() && freeinode < |ino|
      modifies this`ino, this`freeinode, this`g
      ensures Valid() && inum == old(freeinode) && freeinode == inum + 1
      ensures inum < |old(ino)| && ino == old(ino)[inum := old(ino)[inum].(kind := kind, nlink := 1)]
      ensures forall i :: 0 <= i < |ino| ==> Contents(g, i) == Contents(old(g), i)
    {
      inum := freeinode;
      freeinode := freeinode + 1;
      ghost var m := g;
      KindInv(m, inum, kind);
      ino := ino[inum := ino[inum].(kind := kind, nlink := 1)];
      g := m.(ino := ino);
    }

    // iappend's allocation: the next free block into an empty slot.
    method Take(i: nat, slot: nat) returns (b: nat)
      requires Valid() && i < |ino| && slot < SLOTS && Ptr(g, i, slot) == 0 && freeblock < sb.size
      requires slot >= 13 ==> Ptr(g, i, 12) != 0
      modifies this`disk, this`ino, this`freeblock, this`g
      ensures Valid() && SameFiles(old(g), g) && b == old(freeblock) && freeblock == b + 1
      ensures b != 0 && |disk| == |old(disk)|
      ensures forall s: nat :: s < SLOTS ==> Ptr(g, i, s) == if s == slot then b else Ptr(old(g), i, s)
    {
      ghost var m := g;
      b := freeblock;
      freeblock := freeblock + 1;
      assert BitOk(m, b);
      FileSystem.AllocEffect(m, i, slot, b);
      if slot < 13 {
        ino := ino[i := ino[i].(addrs := ino[i].addrs[slot := b])];
      } else {
        var ind := ino[i].addrs[12];
        assert PtrOk(m, i, 12) && OwnOk(m, ind);
        disk := disk[ind := PutWord(disk[ind], slot - 13, b)];
      }
      g := FileSystem.Link(Claim(m, b), i, slot, b);
      assert BitBlock(sb, b) == sb.bmapstart;
    }

    // The block of file block bn, taken from the free ones when missing.
    method BlockFor(i: nat, bn: nat) returns (x: nat)
      requires Valid() && i < |ino| && bn < MAXFILE
      requires freeblock + Missing(g, i, SlotOf(bn)) + (if bn >= 12 then Missing(g, i, 12) else 0) <= sb.size
      modifies this`disk, this`ino, this`freeblock, this`g
      ensures Valid() && SameFiles(old(g), g)
      ensures freeblock
           == old(freeblock) + Missing(old(g), i, SlotOf(bn)) + if bn >= 12 then Missing(old(g), i, 12) else 0
      ensures x == Ptr(g, i, SlotOf(bn)) && x != 0 && |disk| == |old(disk)|
      ensures bn >= 12 ==> Ptr(g, i, 12) != 0
      ensures forall s: nat :: s < SLOTS && s != SlotOf(bn) && (s != 12 || bn < 12) ==>
        Ptr(g, i, s) == Ptr(old(g), i, s)
    {
      ghost var m := g;
      if bn < 12 {
        FileSystem.SameFilesRefl(m);
        x := ino[i].addrs[bn];
        if x == 0 { x := Take(i, bn); }
        return;
      }
      var ind := ino[i].addrs[12];
      if ind == 0 {
        ind := Take(i, 12);
      } else {
        FileSystem.SameFilesRefl(m);
      }
      ghost var c := g;
      x := Listed(i, bn + 1, ind);
      SameFilesTrans(m, c, g);
    }

    // The block listed in entry slot - 13 of the indirect block.
    method Listed(i: nat, slot: nat, ind: nat) returns (x: nat)
      requires Valid() && i < |ino| && 13 <= slot < SLOTS && freeblock + Missing(g, i, slot) <= sb.size
      requires ind == Ptr(g, i, 12) && ind != 0
      modifies this`disk, this`ino, this`freeblock, this`g
      ensures Valid() && SameFiles(old(g), g) && freeblock == old(freeblock) + Missing(old(g), i, slot)
      ensures x == Ptr(g, i, slot) && x != 0 && |disk| == |old(disk)|
      ensures forall s: nat :: s < SLOTS && s != slot ==> Ptr(g, i, s) == Ptr(old(g), i, s)
    {
      assert PtrOk(g, i, 12) && OwnOk(g, ind);
      x := Word(disk[ind], slot - 13);
      if x == 0 {
        x := Take(i, slot);
      } else {
        FileSystem.SameFilesRefl(g);
      }
    }

    /** iappend: the data goes to the end of the file, no other file changes, and the
        blocks in use are again exactly the ones below freeblock. */
    method Iappend(i: nat, data: seq<byte>)
      requires Valid() && i < |ino| && ino[i].size + |data| <= MAXBYTES
      requires freeblock + AppendNeeds(g, i, ino[i].size, |data|) <= sb.size
      modifies this`disk, this`ino, this`freeblock, this`g
      ensures Valid() && |ino| == |old(ino)|
      ensures freeblock == old(freeblock) + AppendNeeds(old(g), i, old(ino)[i].size, |data|)
      ensures Contents(g, i) == Contents(old(g), i) + data
      ensures forall j :: 0 <= j < |ino| && j != i ==> Contents(g, j) == Contents(old(g), j)
    {
      ghost var m := g;
      var start := ino[i].size;
      AppendAll(i, start, data);
      Grow(i, start, data, m);
    }

    // iappend's loop over blocks.
    method AppendAll(i: nat, start: nat, data: seq<byte>)
      requires Valid() && i < |ino| && start + |data| <= MAXBYTES
      requires freeblock + AppendNeeds(g, i, start, |data|) <= sb.size
      modifies this`disk, this`ino, this`freeblock, this`g
      ensures Valid() && Wrote(old(g), g, i, start, data)
      ensures freeblock == old(freeblock) + AppendNeeds(old(g), i, start, |data|)
    {
      ghost var m, was := g, freeblock;
      FileSystem.SameFilesRefl(m);
      SameFilesWrote(m, m, i, start);
      var done := 0;
      while done < |data|
        invariant done <= |data| && Valid() && |ino| == |m.ino| && Wrote(m, g, i, start, data[..done])
        invariant freeblock + AppendNeeds(g, i, start + done, |data| - done) == was + AppendNeeds(m, i, start, |data|)
      {
        done := AppendChunk(i, start, data, done, m);
      }
      assert data[..done] == data;
    }

    // iappend's last step: the new size.
    method Grow(i: nat, start: nat, data: seq<byte>, ghost m: Fs)
      requires Valid() && Inv(m) && i < |m.ino| && start == m.ino[i].size && start + |data| <= MAXBYTES
      requires Wrote(m, g, i, start, data)
      modifies this`ino, this`g
      ensures Valid() && |ino| == |m.ino|
      ensures Contents(g, i) == Contents(m, i) + data
      ensures forall j :: 0 <= j < |ino| && j != i ==> Contents(g, j) == Contents(m, j)
    {
      GrewTo(m, g, i, data);
      SetSizeInv(g, i, start + |data|);
      ino := ino[i := ino[i].(size := start + |data|)];
      g := SetSize(g, i, start + |data|);
    }

    method AppendChunk(i: nat, start: nat, data: seq<byte>, done: nat, ghost m: Fs) returns (done': nat)
      requires Valid() && i < |ino| && done < |data| && start + |data| <= MAXBYTES
      requires Inv(m) && |m.ino| == |ino| && Wrote(m, g, i, start, data[..done])
      requires freeblock + AppendNeeds(g, i, start + done, |data| - done) <= sb.size
      modifies this`disk, this`ino, this`freeblock, this`g
      ensures done < done' <= |data| && |ino| == |old(ino)|
      ensures Valid() && Wrote(m, g, i, start, data[..done'])
      ensures freeblock + AppendNeeds(g, i, start + done', |data| - done')
           == old(freeblock) + AppendNeeds(old(g), i, start + done, |data| - done)
    {
      hide Wrote, SameFiles, AppendNeeds, Missing, PtrOk, OwnOk, BitOk;
      var off := start + done;
      ghost var c := g;
      var n := FileSystem.Chunk(off, |data| - done);
      done' := done + n;
      TakeFits(c, i, off, |data| - done);
      var x := BlockFor(i, off / 1024);
      StoreChunk(i, start, off, data[..done], data[done..done'], x, m, c);
      AppendStep(c, g, i, off, |data| - done, n);
      assert data[..done] + data[done..done'] == data[..done'];
    }

    // The bytes of one chunk into the block x that holds offset off.
    method StoreChunk(i: nat, start: nat, off: nat, ghost done: seq<byte>, chunk: seq<byte>, x: nat,
                      ghost m: Fs, ghost c: Fs)
      requires Valid() && Inv(m) && Inv(c) && i < |ino|
      requires off == start + |done| < MAXBYTES && off % 1024 + |chunk| <= 1024
      requires Wrote(m, c, i, start, done) && SameFiles(c, g) && x == Ptr(g, i, SlotOf(off / 1024)) != 0
      modifies this`disk, this`g
      ensures Valid() && Wrote(m, g, i, start, done + chunk)
      ensures forall s: nat :: s < SLOTS ==> Ptr(g, i, s) == Ptr(old(g), i, s)
    {
      ghost var d := g;
      FileSystem.ChunkStep(m, c, d, i, start, off, done, chunk);
      assert PtrOk(d, i, SlotOf(off / 1024)) && OwnOk(d, x);
      disk := disk[x := Splice(disk[x], off % 1024, chunk)];
      g := PutBlock(d, x, disk[x]);
    }

    // The root directory's size is rounded up to a whole block more.
    method FixRootSize(i: nat)
      requires Valid() && i < |ino| && (ino[i].size / 1024 + 1) * 1024 <= MAXBYTES
      modifies this`ino, this`g
      ensures Valid() && |ino| == |old(ino)| && ino[i].size == (old(ino)[i].size / 1024 + 1) * 1024
      ensures forall j :: 0 <= j < |ino| && j != i ==> Contents(g, j) == Contents(old(g), j)
      ensures Contents(g, i)[..old(ino)[i].size] == Contents(old(g), i)
    {
      ghost var m := g;
      var size := (ino[i].size / 1024 + 1) * 1024;
      SetSizeInv(m, i, size);
      ino := ino[i := ino[i].(size := size)];
      g := SetSize(m, i, size);
      forall j | 0 <= j < |ino| && j != i ensures Contents(g, j) == Contents(m, j) {
        forall k | 0 <= k < m.ino[j].size ensures Contents(g, j)[k] == Contents(m, j)[k] {}
      }
    }

    /** balloc: writes the bitmap of the first freeblock blocks. From here on the image
        on disk satisfies the ownership invariant of the running file system. */
    method Balloc()
      requires Valid() && sb.bmapstart < |disk|
      modifies this`disk, this`g
      ensures Valid() && g.disk == disk && SameFiles(old(g), g)
      ensures Inv(Fs(sb, disk, ino, g.own)) && NoLoose(Fs(sb, disk, ino, g.own))
    {
      var buf := FillBitmap(freeblock);
      disk := disk[sb.bmapstart := buf];
      FinishInv(g, disk, freeblock);
      g := g.(disk := disk);
    }
  }

  /** The finished image is a file system the kernel can run on, with every block in use in
      a slot and the contents mkfs gave it. */
  method Mount(image: Image) returns (fs: FileSystem.Files)
    requires image.Valid() && image.g.disk == image.disk
    ensures fresh(fs) && fs.Valid() && NoLoose(fs.g) && fs.g == image.g
  {
    fs := new FileSystem.Files(image.sb, image.disk, image.ino, image.g.own);
  }

  method FillBitmap(used: nat) returns (buf: Block)
    requires used < 8192
    ensures buf == Bitmap(used)
  {
    buf := ZeroBlock();
    for i := 0 to used
      invariant buf == Bitmap(i)
    {
      ByteWidth(buf[i / 8], i % 8);
      buf := buf[i / 8 := SetBit(buf[i / 8], i % 8)];
    }
  }

  // Bytes written at the end of a file, once the size covers them.
  lemma GrewTo(m: Fs, b: Fs, i: nat, data: seq<byte>)
    requires Inv(m) && Inv(b) && i < |m.ino| && m.ino[i].size + |data| <= MAXBYTES
    requires Wrote(m, b, i, m.ino[i].size, data) && |b.ino| == |m.ino|
    ensures var g := SetSize(b, i, m.ino[i].size + |data|);
      && Contents(g, i) == Contents(m, i) + data
      && forall j :: 0 <= j < |m.ino| && j != i ==> Contents(g, j) == Contents(m, j)
  {
    var c := Contents(m, i);
    assert SpliceIn(c, |c|, data) == c + data;
    ContentsSpliced(m, b, i, |c|, data, |c| + |data|);
  }

  lemma ChunksStep(at: nat, left: nat)
    requires left > 0
    ensures var n := FileSystem.Chunk(at, left);
      && Chunks(at, left) == 1 + Chunks(at + n, left - n)
      && (n < left ==> (at + n) / 1024 == at / 1024 + 1)
  {
    var n := FileSystem.Chunk(at, left);
    if n < left {
      assert at % 1024 + n == 1024;
      assert at + n == 1024 * (at / 1024 + 1);
      assert (at + n) % 1024 == 0;
    }
  }

  lemma ChunksFit(at: nat, left: nat)
    requires at + left <= MAXBYTES
    ensures left > 0 ==> at / 1024 + Chunks(at, left) <= MAXFILE
  {
  }

  // The blocks that appending left bytes at offset at takes from the free ones.
  function AppendNeeds(fs: Fs, i: nat, at: nat, left: nat): nat
    requires Shaped(fs) && i < |fs.ino| && at + left <= MAXBYTES
  {
    ChunksFit(at, left);
    if left == 0 then 0 else Needed(fs, i, at / 1024, Chunks(at, left))
  }

  lemma TakeFits(fs: Fs, i: nat, at: nat, left: nat)
    requires Shaped(fs) && i < |fs.ino| && at + left <= MAXBYTES && left > 0
    ensures var bn := at / 1024;
      Missing(fs, i, SlotOf(bn)) + (if bn >= 12 then Missing(fs, i, 12) else 0) <= AppendNeeds(fs, i, at, left)
  {
    ChunksFit(at, left);
    ChunksStep(at, left);
  }

  lemma AppendStep(fs: Fs, gs: Fs, i: nat, at: nat, left: nat, n: nat)
    requires Shaped(fs) && Shaped(gs) && i < |fs.ino| && i < |gs.ino| && at + left <= MAXBYTES && left > 0
    requires n == FileSystem.Chunk(at, left)
    requires var bn := at / 1024;
      && (forall s: nat :: s < SLOTS && s != SlotOf(bn) && (s != 12 || bn < 12) ==> Ptr(gs, i, s) == Ptr(fs, i, s))
      && (bn >= 12 ==> Ptr(gs, i, 12) != 0)
    ensures var bn := at / 1024;
      AppendNeeds(gs, i, at + n, left - n) + Missing(fs, i, SlotOf(bn)) + (if bn >= 12 then Missing(fs, i, 12) else 0)
        == AppendNeeds(fs, i, at, left)
  {
    ChunksFit(at, left);
    ChunksStep(at, left);
    NeededStep(fs, gs, i, at / 1024, Chunks(at, left));
  }

  // The bitmap matters to the invariant only through its bits.
  lemma FinishInv(g: Fs, disk: seq<Block>, used: nat)
    requires Inv(g) && |disk| == |g.disk| && g.sb.size < 8192 && used <= 8192
    requires forall x :: 0 <= x < |disk| && x != g.sb.bmapstart ==> disk[x] == g.disk[x]
    requires disk[g.sb.bmapstart] == Bitmap(used) && g.sb.nmeta <= used
    requires forall b: nat :: b in g.own <==> g.sb.nmeta <= b < used
    ensures Inv(g.(disk := disk)) && SameFiles(g, g.(disk := disk))
  {
    var h := g.(disk := disk);
    forall i: nat, s: nat | i < |g.ino| && s < SLOTS ensures Ptr(h, i, s) == Ptr(g, i, s) { FinishPtr(g, disk, i, s); }
    forall i: nat, s: nat | i < |h.ino| && s < SLOTS ensures PtrOk(h, i, s) { assert PtrOk(g, i, s); }
    forall b: nat | b in h.own ensures OwnOk(h, b) { assert OwnOk(g, b); }
    forall b: nat | b < h.sb.size ensures BitOk(h, b) { BitOfBitmap(h.sb, disk, used, b); }
    FinishFiles(g, disk);
  }

  // A bit of the one bitmap block.
  lemma BitOfBitmap(sb: Super, disk: seq<Block>, used: nat, b: nat)
    requires SuperOk(sb, disk) && b < sb.size < 8192 && used <= 8192 && disk[sb.bmapstart] == Bitmap(used)
    ensures BitAt(sb, disk, b) <==> b < used
  {
    BitmapAt(used, b);
  }

  lemma FinishPtr(g: Fs, disk: seq<Block>, i: nat, s: nat)
    requires Inv(g) && |disk| == |g.disk| && i < |g.ino| && s < SLOTS
    requires forall x :: 0 <= x < |disk| && x != g.sb.bmapstart ==> disk[x] == g.disk[x]
    ensures Shaped(g.(disk := disk)) && Ptr(g.(disk := disk), i, s) == Ptr(g, i, s)
  {
    assert PtrOk(g, i, 12);
    if Ptr(g, i, 12) != 0 { assert OwnOk(g, Ptr(g, i, 12)); }
  }

  lemma FinishFiles(g: Fs, disk: seq<Block>)
    requires Inv(g) && |disk| == |g.disk|
    requires forall x :: 0 <= x < |disk| && x != g.sb.bmapstart ==> disk[x] == g.disk[x]
    ensures Shaped(g.(disk := disk)) && SameFiles(g, g.(disk := disk))
  {
    var h := g.(disk := disk);
    forall i: nat, s: nat | i < |g.ino| && s < SLOTS && s != 12 ensures SlotSame(g, h, i, s) {
      FinishPtr(g, disk, i, s);
      assert PtrOk(g, i, s);
      if Ptr(g, i, s) != 0 { assert OwnOk(g, Ptr(g, i, s)); }
    }
  }

  lemma KindInv(m: Fs, i: nat, kind: nat)
    requires Inv(m) && i < |m.ino|
    ensures var h := m.(ino := m.ino[i := m.ino[i].(kind := kind, nlink := 1)]);
      Inv(h) && forall j :: 0 <= j < |m.ino| ==> Contents(h, j) == Contents(m, j)
  {
    var h := m.(ino := m.ino[i := m.ino[i].(kind := kind, nlink := 1)]);
    forall j: nat, s: nat | j < |h.ino| && s < SLOTS ensures PtrOk(h, j, s) { assert PtrOk(m, j, s); }
    forall b: nat | b in h.own ensures OwnOk(h, b) { assert OwnOk(m, b); }
    forall b: nat | b < h.sb.size ensures BitOk(h, b) { assert BitOk(m, b); }
    forall j | 0 <= j < |m.ino| ensures Contents(h, j) == Contents(m, j) {
      forall k | 0 <= k < m.ino[j].size ensures Contents(h, j)[k] == Contents(m, j)[k] {}
    }
  }

  // The empty image: zeroed blocks, and the bitmap of the 46 metadata blocks.
  ghost function EmptyFs(): Fs {
    var zeros: seq<Block> := seq(FSSIZE, _ => ZeroBlock());
    Fs(LAYOUT, zeros[45 := Bitmap(46)],
       seq(NINODES, _ => Inode(0, 0, 0, seq(13, _ => 0))), map[])
  }

  lemma EmptyInv()
    ensures Inv(EmptyFs()) && forall i :: 0 <= i < NINODES ==> Contents(EmptyFs(), i) == []
  {
    var g := EmptyFs();
    forall b: nat | b < g.sb.size ensures BitOk(g, b) { BitOfBitmap(g.sb, g.disk, 46, b); }
  }
}
