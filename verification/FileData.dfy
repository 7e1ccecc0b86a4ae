/** File contents as bytes: what readi, writei and itrunc of kernel/fs.c do to them. */
module FileData {
  import opened Common
  import opened Packing
  import opened FsSpec

  const MAXBYTES: nat := 268 * 1024

  // Byte k of file j, after data has been written at offset off of file i.
  predicate ByteWrote(fs: Fs, gs: Fs, i: nat, off: nat, data: seq<byte>, j: nat, k: nat)
    requires Shaped(fs) && Shaped(gs) && j < |fs.ino| && j < |gs.ino| && k < MAXBYTES
  {
    FileByte(gs, j, k) == if j == i && off <= k < off + |data| then data[k - off] else FileByte(fs, j, k)
  }

  // gs is fs with data written at offset off of file i; sizes as they were.
  ghost predicate Wrote(fs: Fs, gs: Fs, i: nat, off: nat, data: seq<byte>)
    requires Shaped(fs) && Shaped(gs)
  {
    && |gs.ino| == |fs.ino|
    && (forall j :: 0 <= j < |fs.ino| ==> gs.ino[j].(addrs := fs.ino[j].addrs) == fs.ino[j])
    && (forall j: nat, k: nat {:trigger ByteWrote(fs, gs, i, off, data, j, k)} ::
          j < |fs.ino| && k < MAXBYTES ==> ByteWrote(fs, gs, i, off, data, j, k))
  }

  lemma SameFilesWrote(fs: Fs, gs: Fs, i: nat, off: nat)
    requires Shaped(fs) && Shaped(gs) && SameFiles(fs, gs)
    ensures Wrote(fs, gs, i, off, [])
  {
    forall j: nat, k: nat | j < |fs.ino| && k < MAXBYTES ensures ByteWrote(fs, gs, i, off, [], j, k) {
      SameFilesContents(fs, gs, j);
    }
  }

  lemma WroteTrans(a: Fs, b: Fs, c: Fs, i: nat, off: nat, xs: seq<byte>, ys: seq<byte>)
    requires Shaped(a) && Shaped(b) && Shaped(c)
    requires Wrote(a, b, i, off, xs) && Wrote(b, c, i, off + |xs|, ys)
    ensures Wrote(a, c, i, off, xs + ys)
  {
    forall j: nat, k: nat | j < |a.ino| && k < MAXBYTES ensures ByteWrote(a, c, i, off, xs + ys, j, k) {
      assert ByteWrote(a, b, i, off, xs, j, k);
      assert ByteWrote(b, c, i, off + |xs|, ys, j, k);
    }
  }

  function Splice(b: Block, o: nat, chunk: seq<byte>): Block
    requires o + |chunk| <= 1024
  {
    b[..o] + chunk + b[o + |chunk|..]
  }

  // Storing a chunk into the block of file block bn.
  lemma ChunkWrote(fs: Fs, i: nat, off: nat, chunk: seq<byte>)
    requires Inv(fs) && i < |fs.ino| && off < MAXBYTES && off % 1024 + |chunk| <= 1024
    requires Ptr(fs, i, SlotOf(off / 1024)) != 0
    ensures Ptr(fs, i, SlotOf(off / 1024)) < |fs.disk|
    ensures var b := Ptr(fs, i, SlotOf(off / 1024));
      var gs := PutBlock(fs, b, Splice(fs.disk[b], off % 1024, chunk));
      Inv(gs) && Wrote(fs, gs, i, off, chunk)
      && forall s: nat :: s < SLOTS ==> Ptr(gs, i, s) == Ptr(fs, i, s)
  {
    var bn, o := off / 1024, off % 1024;
    var slot := SlotOf(bn);
    var b := Ptr(fs, i, slot);
    assert PtrOk(fs, i, slot) && OwnOk(fs, b);
    var x := Splice(fs.disk[b], o, chunk);
    PutBlockInv(fs, i, slot, x);
    var gs := PutBlock(fs, b, x);
    forall j: nat, k: nat | j < |fs.ino| && k < MAXBYTES ensures ByteWrote(fs, gs, i, off, chunk, j, k) {
      var t := SlotOf(k / 1024);
      assert Ptr(gs, j, t) == Ptr(fs, j, t);
      if j == i && k / 1024 == bn {
        assert k == bn * 1024 + k % 1024 && off == bn * 1024 + o;
      } else {
        assert SlotSame(fs, gs, j, t);
      }
    }
  }

  // ---- Sizes ----

  function SetSize(fs: Fs, i: nat, size: nat): Fs
    requires i < |fs.ino|
  {
    fs.(ino := fs.ino[i := fs.ino[i].(size := size)])
  }

  lemma SetSizeInv(fs: Fs, i: nat, size: nat)
    requires Inv(fs) && i < |fs.ino| && size <= MAXBYTES
    ensures Inv(SetSize(fs, i, size))
    ensures forall j: nat, k: nat {:trigger FileByte(SetSize(fs, i, size), j, k)} ::
      j < |fs.ino| && k < MAXBYTES ==> FileByte(SetSize(fs, i, size), j, k) == FileByte(fs, j, k)
    ensures forall j: nat, s: nat {:trigger Ptr(SetSize(fs, i, size), j, s)} ::
      j < |fs.ino| && s < SLOTS ==> Ptr(SetSize(fs, i, size), j, s) == Ptr(fs, j, s)
  {
    var gs := SetSize(fs, i, size);
    forall j: nat, s: nat | j < |gs.ino| && s < SLOTS ensures PtrOk(gs, j, s) { assert PtrOk(fs, j, s); }
    forall c: nat | c in gs.own ensures OwnOk(gs, c) { assert OwnOk(fs, c); }
    forall c: nat | c < gs.sb.size ensures BitOk(gs, c) { assert BitOk(fs, c); }
  }

  // Contents c with xs written at off, growing if need be.
  function SpliceIn(c: seq<byte>, off: nat, xs: seq<byte>): (r: seq<byte>)
    requires off <= |c|
    ensures off + |xs| <= |r|
  {
    c[..off] + xs + (if off + |xs| <= |c| then c[off + |xs|..] else [])
  }

  /** What writei leaves: the file is its old contents with data spliced in at off, up to
      the size that is then set, and every other file is unchanged. */
  lemma ContentsSpliced(fs: Fs, b: Fs, i: nat, off: nat, data: seq<byte>, size: nat)
    requires Inv(fs) && Inv(b) && i < |fs.ino| && off <= fs.ino[i].size && off + |data| <= MAXBYTES
    requires Wrote(fs, b, i, off, data)
    requires fs.ino[i].size <= size <= |SpliceIn(Contents(fs, i), off, data)|
    ensures var gs := SetSize(b, i, size);
      && Inv(gs)
      && Contents(gs, i) == SpliceIn(Contents(fs, i), off, data)[..size]
      && forall j :: 0 <= j < |fs.ino| && j != i ==> Contents(gs, j) == Contents(fs, j)
  {
    var gs := SetSize(b, i, size);
    SetSizeInv(b, i, size);
    var want := SpliceIn(Contents(fs, i), off, data)[..size];
    forall k | 0 <= k < size ensures Contents(gs, i)[k] == want[k] {
      assert ByteWrote(fs, b, i, off, data, i, k);
    }
    forall j | 0 <= j < |fs.ino| && j != i ensures Contents(gs, j) == Contents(fs, j) {
      forall k | 0 <= k < fs.ino[j].size ensures Contents(gs, j)[k] == Contents(fs, j)[k] {
        assert ByteWrote(fs, b, i, off, data, j, k);
      }
    }
  }

  // A chunk of the block that bmap returns is the same chunk of the contents.
  lemma ReadChunk(m: Fs, g: Fs, i: nat, off: nat, k: nat)
    requires Shaped(m) && Inv(g) && SameFiles(m, g) && i < |m.ino|
    requires off + k <= m.ino[i].size && off % 1024 + k <= 1024 && off < MAXBYTES
    requires Ptr(g, i, SlotOf(off / 1024)) != 0
    ensures Ptr(g, i, SlotOf(off / 1024)) < |g.disk|
    ensures g.disk[Ptr(g, i, SlotOf(off / 1024))][off % 1024..off % 1024 + k] == Contents(m, i)[off..off + k]
  {
    var slot := SlotOf(off / 1024);
    var b := Ptr(g, i, slot);
    assert PtrOk(g, i, slot) && OwnOk(g, b);
    SameFilesContents(m, g, i);
    var o := off % 1024;
    var got, want := g.disk[b][o..o + k], Contents(m, i)[off..off + k];
    forall x | 0 <= x < k ensures got[x] == want[x] {
      assert (off + x) / 1024 == off / 1024 && (off + x) % 1024 == off % 1024 + x;
      assert FileByte(g, i, off + x) == g.disk[b][off % 1024 + x];
    }
  }
}
