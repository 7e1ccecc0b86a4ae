/** The block layer of kernel/fs.c as a value: free bitmap, direct and indirect block
    addresses, and who owns every data block. */
module FsSpec {
  import opened Common
  import opened Packing

  const MAXFILE: nat := 268        // blocks: 12 direct and 256 listed in the indirect one
  const SLOTS: nat := 269          // and the indirect block itself, as slot 12

  // size and nmeta in blocks; blocks below nmeta are boot, super, log, inodes, bitmap.
  datatype Super = Super(size: nat, nmeta: nat, inodestart: nat, bmapstart: nat)

  datatype Inode = Inode(kind: nat, nlink: int, size: nat, addrs: seq<nat>)

  // A block in use is some inode's slot, or just allocated and not linked yet.
  datatype Ref = Loose | In(inum: nat, slot: nat)

  datatype Fs = Fs(sb: Super, disk: seq<Block>, ino: seq<Inode>, own: map<nat, Ref>)

  // ---- Bitmap ----

  // BBLOCK(b, sb) and the byte in it
  function BitBlock(sb: Super, b: nat): nat { sb.bmapstart + b / 8192 }
  function BitByte(b: nat): nat { b % 8192 / 8 }

  predicate SuperOk(sb: Super, disk: seq<Block>) {
    && 1 <= sb.nmeta <= sb.size <= |disk| && sb.size < 0x1_0000_0000
    && 1 <= sb.bmapstart && sb.bmapstart + (sb.size - 1) / 8192 < sb.nmeta
    && 1 <= sb.inodestart <= sb.bmapstart
  }

  predicate BitAt(sb: Super, disk: seq<Block>, b: nat)
    requires SuperOk(sb, disk) && b < sb.size
  {
    Bit(disk[BitBlock(sb, b)][BitByte(b)], b % 8)
  }

  // balloc would panic.
  predicate NoneFree(sb: Super, disk: seq<Block>)
    requires SuperOk(sb, disk)
  {
    forall b: nat :: b < sb.size ==> BitAt(sb, disk, b)
  }

  function MarkUsed(sb: Super, disk: seq<Block>, b: nat): (d: seq<Block>)
    requires SuperOk(sb, disk) && b < sb.size
    ensures |d| == |disk|
  {
    var bm := disk[BitBlock(sb, b)];
    ByteWidth(bm[BitByte(b)], b % 8);
    disk[BitBlock(sb, b) := bm[BitByte(b) := SetBit(bm[BitByte(b)], b % 8)]]
  }

  function MarkFree(sb: Super, disk: seq<Block>, b: nat): (d: seq<Block>)
    requires SuperOk(sb, disk) && b < sb.size
    ensures |d| == |disk|
  {
    var bm := disk[BitBlock(sb, b)];
    ByteWidth(bm[BitByte(b)], b % 8);
    disk[BitBlock(sb, b) := bm[BitByte(b) := ClearBit(bm[BitByte(b)], b % 8)]]
  }

  lemma MarkUsedAt(sb: Super, disk: seq<Block>, b: nat, c: nat)
    requires SuperOk(sb, disk) && b < sb.size && c < sb.size
    ensures BitAt(sb, MarkUsed(sb, disk, b), c) == (c == b || BitAt(sb, disk, c))
  {
    var x := disk[BitBlock(sb, b)][BitByte(b)];
    BitSet(x, b % 8, c % 8);
    SameBit(b, c);
    if BitBlock(sb, c) == BitBlock(sb, b) && BitByte(c) == BitByte(b) {
      assert MarkUsed(sb, disk, b)[BitBlock(sb, c)][BitByte(c)] == SetBit(x, b % 8);
    }
  }

  lemma MarkFreeAt(sb: Super, disk: seq<Block>, b: nat, c: nat)
    requires SuperOk(sb, disk) && b < sb.size && c < sb.size
    ensures BitAt(sb, MarkFree(sb, disk, b), c) == (c != b && BitAt(sb, disk, c))
  {
    var x := disk[BitBlock(sb, b)][BitByte(b)];
    BitClear(x, b % 8, c % 8);
    SameBit(b, c);
    if BitBlock(sb, c) == BitBlock(sb, b) && BitByte(c) == BitByte(b) {
      assert MarkFree(sb, disk, b)[BitBlock(sb, c)][BitByte(c)] == ClearBit(x, b % 8);
    }
  }

  // Block, byte and bit together determine the block number.
  lemma SameBit(b: nat, c: nat)
    ensures b / 8192 == c / 8192 && BitByte(b) == BitByte(c) && b % 8 == c % 8 ==> b == c
  {
    BitPosition(b);
    BitPosition(c);
  }

  lemma BitPosition(b: nat)
    ensures b == 8192 * (b / 8192) + 8 * BitByte(b) + b % 8
  {
    var q, r := b / 8192, b % 8192;
    assert b == 8 * (1024 * q + r / 8) + r % 8;
  }

  // ---- Block addresses ----

  // The address in a slot: addrs[slot], or entry slot - 13 of the indirect block.
  function Ptr(fs: Fs, i: nat, slot: nat): nat
    requires i < |fs.ino| && |fs.ino[i].addrs| == 13 && slot < SLOTS
  {
    if slot < 13 then fs.ino[i].addrs[slot]
    else
      var ind := fs.ino[i].addrs[12];
      if ind == 0 || ind >= |fs.disk| then 0 else Word(fs.disk[ind], slot - 13)
  }

  // The slot of file block bn.
  function SlotOf(bn: nat): nat { if bn < 12 then bn else bn + 1 }

  // Some file block of the bytes from lo to hi has no block yet.
  ghost predicate Hole(fs: Fs, i: nat, lo: nat, hi: nat)
    requires i < |fs.ino| && |fs.ino[i].addrs| == 13
  {
    exists bn: nat {:trigger SlotOf(bn)} ::
      bn < MAXFILE && lo < bn * 1024 + 1024 && bn * 1024 < hi && Ptr(fs, i, SlotOf(bn)) == 0
  }

  predicate PtrOk(fs: Fs, i: nat, slot: nat)
    requires i < |fs.ino| && |fs.ino[i].addrs| == 13 && slot < SLOTS
  {
    var b := Ptr(fs, i, slot);
    b == 0 || (b in fs.own && fs.own[b] == In(i, slot))
  }

  predicate OwnOk(fs: Fs, b: nat)
    requires b in fs.own
  {
    && fs.sb.nmeta <= b < fs.sb.size
    && (fs.own[b].In? ==>
          var i, slot := fs.own[b].inum, fs.own[b].slot;
          i < |fs.ino| && |fs.ino[i].addrs| == 13 && slot < SLOTS && Ptr(fs, i, slot) == b)
  }

  predicate BitOk(fs: Fs, b: nat)
    requires SuperOk(fs.sb, fs.disk) && b < fs.sb.size
  {
    BitAt(fs.sb, fs.disk, b) <==> b < fs.sb.nmeta || b in fs.own
  }

  predicate InodeOk(ip: Inode) { |ip.addrs| == 13 && ip.size <= MAXFILE * 1024 }

  predicate Shaped(fs: Fs) {
    SuperOk(fs.sb, fs.disk) && forall i :: 0 <= i < |fs.ino| ==> InodeOk(fs.ino[i])
  }

  /** Block ownership: set bits are exactly the metadata blocks and the owned blocks,
      and every address of every inode is a block owned by that very slot. */
  ghost predicate Inv(fs: Fs) {
    && Shaped(fs)
    && (forall i: nat, slot: nat {:trigger PtrOk(fs, i, slot)} :: i < |fs.ino| && slot < SLOTS ==> PtrOk(fs, i, slot))
    && (forall b: nat {:trigger OwnOk(fs, b)} :: b in fs.own ==> OwnOk(fs, b))
    && (forall b: nat {:trigger BitOk(fs, b)} :: b < fs.sb.size ==> BitOk(fs, b))
  }

  // Two slots never share a block.
  lemma SlotsDisjoint(fs: Fs, i: nat, s: nat, j: nat, t: nat)
    requires Inv(fs) && i < |fs.ino| && j < |fs.ino| && s < SLOTS && t < SLOTS
    requires Ptr(fs, i, s) == Ptr(fs, j, t) != 0
    ensures i == j && s == t
  {
    assert PtrOk(fs, i, s) && PtrOk(fs, j, t);
  }

  // Every block in use is in some inode's slot.
  ghost predicate NoLoose(fs: Fs) {
    forall b: nat :: b in fs.own ==> fs.own[b].In?
  }

  // No block in use has been left without a slot on the way from fs to gs.
  ghost predicate NoLeak(fs: Fs, gs: Fs) {
    forall b: nat :: b in gs.own && gs.own[b].Loose? ==> b in fs.own && fs.own[b].Loose?
  }

  lemma NoLeakTrans(a: Fs, b: Fs, c: Fs)
    requires NoLeak(a, b) && NoLeak(b, c)
    ensures NoLeak(a, c) && (NoLoose(a) ==> NoLoose(c))
  {
  }

  /** The bitmap is exact: a bit is set just when the block is metadata or some slot of
      some inode holds it, and then only that one slot does. */
  lemma BitmapExact(fs: Fs, b: nat)
    requires Inv(fs) && NoLoose(fs) && b < fs.sb.size
    ensures BitAt(fs.sb, fs.disk, b) <==>
      b < fs.sb.nmeta || exists i: nat, s: nat :: i < |fs.ino| && s < SLOTS && Ptr(fs, i, s) == b
    ensures b >= fs.sb.nmeta ==> forall i: nat, s: nat, j: nat, t: nat ::
      i < |fs.ino| && s < SLOTS && j < |fs.ino| && t < SLOTS && Ptr(fs, i, s) == b == Ptr(fs, j, t) ==> i == j && s == t
  {
    assert BitOk(fs, b);
    if b in fs.own { assert OwnOk(fs, b); }
    forall i: nat, s: nat | i < |fs.ino| && s < SLOTS && Ptr(fs, i, s) == b >= fs.sb.nmeta
      ensures b in fs.own && fs.own[b] == In(i, s)
    {
      assert PtrOk(fs, i, s);
    }
  }

  // ---- Contents ----

  function ByteIn(fs: Fs, i: nat, slot: nat, o: nat): byte
    requires i < |fs.ino| && |fs.ino[i].addrs| == 13 && slot < SLOTS && o < 1024
  {
    var b := Ptr(fs, i, slot);
    if b == 0 || b >= |fs.disk| then 0 else fs.disk[b][o]
  }

  // Byte k of the file; a block never allocated reads as zeros.
  function FileByte(fs: Fs, i: nat, k: nat): byte
    requires i < |fs.ino| && |fs.ino[i].addrs| == 13 && k < MAXFILE * 1024
  {
    ByteIn(fs, i, SlotOf(k / 1024), k % 1024)
  }

  function Contents(fs: Fs, i: nat): (c: seq<byte>)
    requires i < |fs.ino| && InodeOk(fs.ino[i])
    ensures |c| == fs.ino[i].size
  {
    seq(fs.ino[i].size, k requires 0 <= k < fs.ino[i].size => FileByte(fs, i, k))
  }

  // Slot s of inode i shows the same bytes in both.
  predicate SlotSame(fs: Fs, gs: Fs, i: nat, s: nat)
    requires Shaped(fs) && Shaped(gs) && i < |fs.ino| && i < |gs.ino| && s < SLOTS
  {
    forall o :: 0 <= o < 1024 ==> ByteIn(gs, i, s, o) == ByteIn(fs, i, s, o)
  }

  // All files have the same size and bytes in both.
  ghost predicate SameFiles(fs: Fs, gs: Fs)
    requires Shaped(fs) && Shaped(gs)
  {
    && |gs.ino| == |fs.ino|
    && (forall i :: 0 <= i < |fs.ino| ==> gs.ino[i].(addrs := fs.ino[i].addrs) == fs.ino[i])
    && (forall i: nat, s: nat {:trigger SlotSame(fs, gs, i, s)} ::
          i < |fs.ino| && s < SLOTS && s != 12 ==> SlotSame(fs, gs, i, s))
  }

  lemma SameFilesTrans(a: Fs, b: Fs, c: Fs)
    requires Shaped(a) && Shaped(b) && Shaped(c) && SameFiles(a, b) && SameFiles(b, c)
    ensures SameFiles(a, c)
  {
    forall i: nat, s: nat | i < |a.ino| && s < SLOTS && s != 12 ensures SlotSame(a, c, i, s) {
      assert SlotSame(a, b, i, s) && SlotSame(b, c, i, s);
    }
  }

  lemma SameFilesContents(fs: Fs, gs: Fs, i: nat)
    requires Shaped(fs) && Shaped(gs) && SameFiles(fs, gs) && i < |fs.ino|
    ensures Contents(gs, i) == Contents(fs, i)
    ensures forall k: nat :: k < MAXFILE * 1024 ==> FileByte(gs, i, k) == FileByte(fs, i, k)
  {
    forall k: nat | k < MAXFILE * 1024 ensures FileByte(gs, i, k) == FileByte(fs, i, k) {
      assert SlotSame(fs, gs, i, SlotOf(k / 1024));
    }
  }

  // ---- Steps ----

  // balloc: the bit is set and the block zeroed.
  function Claim(fs: Fs, b: nat): Fs
    requires Shaped(fs) && b < fs.sb.size
  {
    fs.(disk := MarkUsed(fs.sb, fs.disk, b)[b := ZeroBlock()], own := fs.own[b := Loose])
  }

  lemma ClaimInv(fs: Fs, b: nat)
    requires Inv(fs) && b < fs.sb.size && !BitAt(fs.sb, fs.disk, b)
    ensures fs.sb.nmeta <= b && b !in fs.own
    ensures Inv(Claim(fs, b)) && SameFiles(fs, Claim(fs, b))
  {
    var gs := Claim(fs, b);
    assert BitOk(fs, b);
    forall i: nat, s: nat | i < |fs.ino| && s < SLOTS ensures Ptr(gs, i, s) == Ptr(fs, i, s) {
      ClaimPtr(fs, b, i, s);
    }
    forall i: nat, s: nat | i < |gs.ino| && s < SLOTS ensures PtrOk(gs, i, s) { assert PtrOk(fs, i, s); }
    forall c: nat | c in gs.own ensures OwnOk(gs, c) { if c != b { assert OwnOk(fs, c); } }
    forall c: nat | c < gs.sb.size ensures BitOk(gs, c) {
      assert BitOk(fs, c);
      MarkUsedAt(fs.sb, fs.disk, b, c);
    }
    forall i: nat, s: nat | i < |fs.ino| && s < SLOTS && s != 12 ensures SlotSame(fs, gs, i, s) {
      assert PtrOk(fs, i, s);
      if Ptr(fs, i, s) != 0 { assert OwnOk(fs, Ptr(fs, i, s)); }
    }
  }

  lemma ClaimPtr(fs: Fs, b: nat, i: nat, s: nat)
    requires Inv(fs) && fs.sb.nmeta <= b < fs.sb.size && b !in fs.own && i < |fs.ino| && s < SLOTS
    ensures Ptr(Claim(fs, b), i, s) == Ptr(fs, i, s)
  {
    assert PtrOk(fs, i, 12);
    var ind := Ptr(fs, i, 12);
    if ind != 0 { assert OwnOk(fs, ind); }
  }

  // An inode's own address slot gets a block.
  function LinkPtr(fs: Fs, i: nat, slot: nat, b: nat): Fs
    requires Shaped(fs) && i < |fs.ino| && slot < 13
  {
    fs.(ino := fs.ino[i := fs.ino[i].(addrs := fs.ino[i].addrs[slot := b])], own := fs.own[b := In(i, slot)])
  }

  ghost predicate CanLink(fs: Fs, i: nat, slot: nat, b: nat) {
    && Inv(fs) && i < |fs.ino| && slot < SLOTS && Ptr(fs, i, slot) == 0
    && b in fs.own && fs.own[b].Loose? && b < |fs.disk| && fs.disk[b] == ZeroBlock()
  }

  lemma LinkPtrInv(fs: Fs, i: nat, slot: nat, b: nat)
    requires CanLink(fs, i, slot, b) && slot < 13
    ensures Inv(LinkPtr(fs, i, slot, b)) && SameFiles(fs, LinkPtr(fs, i, slot, b))
  {
    var gs := LinkPtr(fs, i, slot, b);
    assert OwnOk(fs, b);
    forall j: nat, s: nat | j < |fs.ino| && s < SLOTS
      ensures Ptr(gs, j, s) == if j == i && s == slot then b else Ptr(fs, j, s)
    {
      LinkPtrPtr(fs, i, slot, b, j, s);
    }
    forall j: nat, s: nat | j < |gs.ino| && s < SLOTS ensures PtrOk(gs, j, s) { assert PtrOk(fs, j, s); }
    forall c: nat | c in gs.own ensures OwnOk(gs, c) { assert OwnOk(fs, c); }
    forall c: nat | c < gs.sb.size ensures BitOk(gs, c) { assert BitOk(fs, c); }
    forall j: nat, s: nat | j < |fs.ino| && s < SLOTS && s != 12 ensures SlotSame(fs, gs, j, s) {}
  }

  lemma LinkPtrPtr(fs: Fs, i: nat, slot: nat, b: nat, j: nat, s: nat)
    requires CanLink(fs, i, slot, b) && slot < 13 && j < |fs.ino| && s < SLOTS
    ensures Ptr(LinkPtr(fs, i, slot, b), j, s) == if j == i && s == slot then b else Ptr(fs, j, s)
  {
    if slot == 12 && s >= 13 && j == i {
      assert Word(ZeroBlock(), s - 13) == 0;
    }
  }

  // An entry of the indirect block gets a block.
  function LinkWord(fs: Fs, i: nat, slot: nat, b: nat): Fs
    requires Shaped(fs) && i < |fs.ino| && 13 <= slot < SLOTS && b < 0x1_0000_0000
    requires fs.ino[i].addrs[12] < |fs.disk|
  {
    var ind := fs.ino[i].addrs[12];
    fs.(disk := fs.disk[ind := PutWord(fs.disk[ind], slot - 13, b)], own := fs.own[b := In(i, slot)])
  }

  lemma LinkWordPtr(fs: Fs, i: nat, slot: nat, b: nat, j: nat, s: nat)
    requires CanLink(fs, i, slot, b) && 13 <= slot && b < 0x1_0000_0000
    requires Ptr(fs, i, 12) != 0 && fs.ino[i].addrs[12] < |fs.disk| && j < |fs.ino| && s < SLOTS
    ensures Ptr(LinkWord(fs, i, slot, b), j, s) == if j == i && s == slot then b else Ptr(fs, j, s)
  {
    var ind := fs.ino[i].addrs[12];
    if s >= 13 {
      if j == i {
        WordPut(fs.disk[ind], slot - 13, b, s - 13);
      } else {
        assert PtrOk(fs, i, 12) && PtrOk(fs, j, 12);
      }
    }
  }

  lemma LinkWordInv(fs: Fs, i: nat, slot: nat, b: nat)
    requires CanLink(fs, i, slot, b) && 13 <= slot && Ptr(fs, i, 12) != 0
    ensures b < 0x1_0000_0000 && fs.ino[i].addrs[12] < |fs.disk|
    ensures Inv(LinkWord(fs, i, slot, b)) && SameFiles(fs, LinkWord(fs, i, slot, b))
  {
    assert OwnOk(fs, b);
    assert PtrOk(fs, i, 12);
    var ind := fs.ino[i].addrs[12];
    assert OwnOk(fs, ind);
    var gs := LinkWord(fs, i, slot, b);
    forall j: nat, s: nat | j < |fs.ino| && s < SLOTS
      ensures Ptr(gs, j, s) == if j == i && s == slot then b else Ptr(fs, j, s)
    {
      LinkWordPtr(fs, i, slot, b, j, s);
    }
    forall j: nat, s: nat | j < |gs.ino| && s < SLOTS ensures PtrOk(gs, j, s) { assert PtrOk(fs, j, s); }
    forall c: nat | c in gs.own ensures OwnOk(gs, c) { assert OwnOk(fs, c); }
    forall c: nat | c < gs.sb.size ensures BitOk(gs, c) { assert BitOk(fs, c); }
    forall j: nat, s: nat | j < |fs.ino| && s < SLOTS && s != 12 ensures SlotSame(fs, gs, j, s) {
      assert PtrOk(fs, j, s);
    }
  }

  // Storing into the data block of a slot.
  function PutBlock(fs: Fs, b: nat, x: Block): Fs
    requires b < |fs.disk|
  {
    fs.(disk := fs.disk[b := x])
  }

  lemma PutBlockInv(fs: Fs, i: nat, slot: nat, x: Block)
    requires Inv(fs) && i < |fs.ino| && slot < SLOTS && slot != 12 && Ptr(fs, i, slot) != 0
    ensures Ptr(fs, i, slot) < |fs.disk|
    ensures Inv(PutBlock(fs, Ptr(fs, i, slot), x))
    ensures forall j: nat, s: nat {:trigger Ptr(PutBlock(fs, Ptr(fs, i, slot), x), j, s)} ::
      j < |fs.ino| && s < SLOTS ==> Ptr(PutBlock(fs, Ptr(fs, i, slot), x), j, s) == Ptr(fs, j, s)
    ensures forall j: nat, s: nat {:trigger SlotSame(fs, PutBlock(fs, Ptr(fs, i, slot), x), j, s)} ::
      j < |fs.ino| && s < SLOTS && s != 12 && (j != i || s != slot) ==>
        SlotSame(fs, PutBlock(fs, Ptr(fs, i, slot), x), j, s)
  {
    var b := Ptr(fs, i, slot);
    assert PtrOk(fs, i, slot);
    assert OwnOk(fs, b);
    var gs := PutBlock(fs, b, x);
    forall j: nat, s: nat | j < |fs.ino| && s < SLOTS ensures Ptr(gs, j, s) == Ptr(fs, j, s) {
      assert PtrOk(fs, j, 12);
    }
    forall j: nat, s: nat | j < |gs.ino| && s < SLOTS ensures PtrOk(gs, j, s) { assert PtrOk(fs, j, s); }
    forall c: nat | c in gs.own ensures OwnOk(gs, c) { assert OwnOk(fs, c); }
    forall c: nat | c < gs.sb.size ensures BitOk(gs, c) { assert BitOk(fs, c); }
    forall j: nat, s: nat | j < |fs.ino| && s < SLOTS && s != 12 && (j != i || s != slot)
      ensures SlotSame(fs, gs, j, s)
    {
      assert PtrOk(fs, j, s);
    }
  }
}
