/** itrunc of kernel/fs.c: freeing exactly the blocks of one inode. */
module Truncate {
  import opened Packing
  import opened FsSpec

  predicate BelongsTo(m: Fs, b: nat, i: nat) {
    b in m.own && m.own[b].In? && m.own[b].inum == i
  }

  // disk is m's disk with the bits of freed cleared; all freed blocks are i's.
  ghost predicate Freeing(m: Fs, sb: Super, disk: seq<Block>, i: nat, freed: set<nat>) {
    && Inv(m) && i < |m.ino| && sb == m.sb && |disk| == |m.disk| && SuperOk(sb, disk)
    && (forall b :: b in freed ==> BelongsTo(m, b, i))
    && (forall b: nat {:trigger BitAt(sb, disk, b)} :: b < sb.size ==>
          (BitAt(sb, disk, b) <==> BitAt(sb, m.disk, b) && b !in freed))
    && (forall x: nat :: sb.nmeta <= x < |disk| ==> disk[x] == m.disk[x])
  }

  // Slots below lo, and from 13 to below hi, have been freed, and no others.
  ghost predicate FreedSlots(m: Fs, i: nat, lo: nat, hi: nat, freed: set<nat>)
    requires Shaped(m) && i < |m.ino| && lo <= 13 && 13 <= hi <= SLOTS
  {
    forall s: nat :: s < SLOTS && Ptr(m, i, s) != 0 ==>
      (Ptr(m, i, s) in freed <==> s < lo || 13 <= s < hi)
  }

  lemma FreeNone(m: Fs, i: nat)
    requires Inv(m) && i < |m.ino|
    ensures Freeing(m, m.sb, m.disk, i, {}) && FreedSlots(m, i, 0, 13, {})
  {
  }

  lemma FreeReady(m: Fs, disk: seq<Block>, i: nat, slot: nat, freed: set<nat>)
    requires Freeing(m, m.sb, disk, i, freed) && slot < SLOTS
    requires Ptr(m, i, slot) != 0 && Ptr(m, i, slot) !in freed
    ensures m.sb.nmeta <= Ptr(m, i, slot) < m.sb.size && BitAt(m.sb, disk, Ptr(m, i, slot))
    ensures BelongsTo(m, Ptr(m, i, slot), i)
  {
    var b := Ptr(m, i, slot);
    assert PtrOk(m, i, slot) && OwnOk(m, b) && BitOk(m, b);
  }

  lemma FreeMore(m: Fs, d: seq<Block>, i: nat, slot: nat, freed: set<nat>)
    requires Freeing(m, m.sb, d, i, freed) && slot < SLOTS
    requires Ptr(m, i, slot) != 0 && Ptr(m, i, slot) !in freed
    ensures Ptr(m, i, slot) < m.sb.size
    ensures Freeing(m, m.sb, MarkFree(m.sb, d, Ptr(m, i, slot)), i, freed + {Ptr(m, i, slot)})
  {
    FreeReady(m, d, i, slot, freed);
    var b := Ptr(m, i, slot);
    var e := MarkFree(m.sb, d, b);
    forall c: nat | c < m.sb.size
      ensures BitAt(m.sb, e, c) <==> BitAt(m.sb, m.disk, c) && c !in freed + {b}
    {
      MarkFreeAt(m.sb, d, b, c);
    }
  }

  // The next slot is not freed yet, and freeing it (or finding it empty) extends the range.
  lemma FreedNext(m: Fs, i: nat, s: nat, lo: nat, hi: nat, freed: set<nat>)
    requires Inv(m) && i < |m.ino| && s < SLOTS && lo <= 12 && 13 <= hi <= SLOTS
    requires FreedSlots(m, i, lo, hi, freed) && (s == lo || s == hi)
    ensures Ptr(m, i, s) != 0 ==> Ptr(m, i, s) !in freed
    ensures s == lo ==> FreedSlots(m, i, lo + 1, hi, if Ptr(m, i, s) == 0 then freed else freed + {Ptr(m, i, s)})
    ensures s == hi && hi < SLOTS ==>
      FreedSlots(m, i, lo, hi + 1, if Ptr(m, i, s) == 0 then freed else freed + {Ptr(m, i, s)})
  {
    forall t: nat | t < SLOTS && t != s && Ptr(m, i, t) != 0 && Ptr(m, i, t) == Ptr(m, i, s) ensures false {
      SlotsDisjoint(m, i, t, i, s);
    }
  }

  // Everything of inode i, and nothing else, has become free.
  ghost predicate Truncated(fs: Fs, gs: Fs, i: nat)
    requires Shaped(fs) && Shaped(gs) && i < |fs.ino|
  {
    && gs.sb == fs.sb
    && gs.ino == fs.ino[i := fs.ino[i].(addrs := seq(13, _ => 0), size := 0)]
    && (forall b: nat :: b in gs.own <==> b in fs.own && !BelongsTo(fs, b, i))
    && (forall b: nat :: b in gs.own ==> gs.own[b] == fs.own[b])
    && (forall b: nat :: b < fs.sb.size ==>
          (BitAt(gs.sb, gs.disk, b) <==> BitAt(fs.sb, fs.disk, b) && !BelongsTo(fs, b, i)))
    && (forall j :: 0 <= j < |fs.ino| && j != i ==> Contents(gs, j) == Contents(fs, j))
  }

  lemma TruncPtr(m: Fs, disk: seq<Block>, i: nat, freed: set<nat>, j: nat, s: nat)
    requires Freeing(m, m.sb, disk, i, freed) && j < |m.ino| && s < SLOTS
    ensures var gs := Fs(m.sb, disk, m.ino[i := m.ino[i].(addrs := seq(13, _ => 0), size := 0)], m.own - freed);
      && |gs.ino[j].addrs| == 13
      && Ptr(gs, j, s) == (if j == i then 0 else Ptr(m, j, s))
  {
    assert PtrOk(m, j, 12);
    if Ptr(m, j, 12) != 0 { assert OwnOk(m, Ptr(m, j, 12)); }
  }

  lemma TruncInv(m: Fs, disk: seq<Block>, i: nat, freed: set<nat>)
    requires Freeing(m, m.sb, disk, i, freed)
    requires forall s: nat :: s < SLOTS && Ptr(m, i, s) != 0 ==> Ptr(m, i, s) in freed
    ensures var gs := Fs(m.sb, disk, m.ino[i := m.ino[i].(addrs := seq(13, _ => 0), size := 0)], m.own - freed);
      Inv(gs) && Truncated(m, gs, i) && NoLeak(m, gs)
  {
    var gs := Fs(m.sb, disk, m.ino[i := m.ino[i].(addrs := seq(13, _ => 0), size := 0)], m.own - freed);
    forall b: nat | b in m.own && BelongsTo(m, b, i) ensures b in freed { assert OwnOk(m, b); }
    forall j: nat, s: nat | j < |gs.ino| && s < SLOTS ensures PtrOk(gs, j, s) {
      TruncPtr(m, disk, i, freed, j, s);
      assert PtrOk(m, j, s);
    }
    forall b: nat | b in gs.own ensures OwnOk(gs, b) {
      assert OwnOk(m, b);
      if m.own[b].In? { TruncPtr(m, disk, i, freed, m.own[b].inum, m.own[b].slot); }
    }
    forall b: nat | b < gs.sb.size ensures BitOk(gs, b) {
      assert BitOk(m, b);
      assert b in freed ==> OwnOk(m, b);
    }
    forall j: nat | j < |m.ino| && j != i ensures Contents(gs, j) == Contents(m, j) {
      forall k: nat | k < m.ino[j].size ensures Contents(gs, j)[k] == Contents(m, j)[k] {
        var s := SlotOf(k / 1024);
        TruncPtr(m, disk, i, freed, j, s);
        assert PtrOk(m, j, s);
        if Ptr(m, j, s) != 0 { assert OwnOk(m, Ptr(m, j, s)); }
      }
    }
  }
}
