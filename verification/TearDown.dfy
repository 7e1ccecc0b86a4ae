/** freewalk of kernel/vm.c: taking down the tree of page-table pages. */
module TearDown {
  import opened PageTable
  import opened VmSpec

  // ---- The slots below a slot ----

  // The prefix of x's ancestor at level l.
  function Anc(x: Slot, l: nat): nat {
    if l <= x.level then x.prefix else if l == x.level + 1 then x.prefix / 512 else x.prefix / 512 / 512
  }

  predicate Under(x: Slot, s: Slot) {
    x.root == s.root && x.level <= s.level && Anc(x, s.level) == s.prefix
  }

  // x lies under one of the first i children of s.
  predicate Below(x: Slot, s: Slot, i: nat) {
    && s.level > 0 && x.root == s.root && x.level < s.level
    && s.prefix * 512 <= Anc(x, s.level - 1) < s.prefix * 512 + i
  }

  function UnderSet(m: Mem, s: Slot): set<Slot> { set x | x in m.at && Under(x, s) }

  function BelowSet(m: Mem, s: Slot, i: nat): set<Slot> { set x | x in m.at && Below(x, s, i) }

  lemma BelowMore(x: Slot, s: Slot, i: nat)
    requires s.level > 0 && s.level <= 2
    ensures Below(x, s, i + 1) <==> Below(x, s, i) || Under(x, Child(s, i))
  {
  }

  lemma UnderIsBelow(x: Slot, s: Slot)
    requires s.level <= 2
    ensures Under(x, s) <==> x == s || Below(x, s, 512)
  {
  }

  // ---- What freeing a set of tables does ----

  predicate PageFreed(m: Mem, n: Mem, dead: set<Slot>, s: Slot, p: nat)
    requires p < |m.use| == |m.pages| == |n.use| == |n.pages|
  {
    if m.use[p].TablePage? && m.use[p].slot in dead then n.use[p].Free?
    else
      && n.use[p] == m.use[p]
      && (m.use[p].Free? || m.use[p] == TablePage(s) || n.pages[p] == m.pages[p])
  }

  // The tables in dead are gone and free, table s may have entries cleared, and
  // everything else is as before.
  ghost predicate Freed(m: Mem, n: Mem, dead: set<Slot>, s: Slot) {
    && n.lo == m.lo && |m.use| == |m.pages| == |n.use| == |n.pages|
    && n.flat == m.flat && n.det == m.det && n.at == m.at - dead
    && forall p: nat {:trigger PageFreed(m, n, dead, s, p)} :: p < |m.use| ==> PageFreed(m, n, dead, s, p)
  }

  // freewalk's demands: nothing is mapped in the space, and only ancestors of s are
  // being taken down around it.
  ghost predicate CanFree(m: Mem, s: Slot) {
    && Inv(m) && s in m.at && (s in m.det || s.level == 2)
    && (forall x :: x in m.det ==> x.root == s.root && s.level <= x.level)
    && (forall w :: w in m.flat ==> w.root != s.root)
  }

  // The first i entries of s are invalid, the rest as they were.
  ghost predicate ClearedTo(m: Mem, n: Mem, s: Slot, i: nat) {
    && Sized(m) && Sized(n) && s in m.at && s in n.at
    && (forall k: nat {:trigger Entry(n, s, k)} :: k < i && k < 512 ==> !Entry(n, s, k).v)
    && (forall k: nat {:trigger Entry(n, s, k)} :: i <= k < 512 ==> Entry(n, s, k) == Entry(m, s, k))
  }

  function Detach(m: Mem, c: Slot): Mem { m.(det := m.det + {c}) }

  function ClearEntry(m: Mem, s: Slot, i: nat): Mem
    requires Sized(m) && s in m.at && i < 512 && s.level > 0
  {
    PutEntry(m, s, i, ZERO).(det := m.det - {Child(s, i)})
  }

  function RemoveTable(m: Mem, s: Slot): Mem
    requires s in m.at && m.at[s] < |m.use|
  {
    m.(at := m.at - {s}, use := m.use[m.at[s] := Other])
  }

  // freewalk at entry i: m is the memory it started with, b the present one.
  ghost predicate AtEntry(m: Mem, b: Mem, s: Slot, i: nat) {
    && CanFree(m, s) && Inv(b) && s in b.at && b.at[s] == m.at[s] && i <= 512
    && Freed(m, b, BelowSet(m, s, i), s) && ClearedTo(m, b, s, i)
  }

  lemma FreedNothing(m: Mem, s: Slot)
    requires CanFree(m, s)
    ensures AtEntry(m, m, s, 0)
  {
    assert BelowSet(m, s, 0) == {};
    assert m.at - {} == m.at;
    forall p: nat | p < |m.use| ensures PageFreed(m, m, BelowSet(m, s, 0), s, p) {}
  }

  // A valid entry points to a child table: the space has no leaf left.
  lemma EntryFacts(m: Mem, b: Mem, s: Slot, i: nat)
    requires AtEntry(m, b, s, i) && i < 512
    ensures Entry(b, s, i).v ==>
      && s.level > 0 && !Entry(b, s, i).perm.Leaf()
      && Child(s, i) !in b.det && Child(s, i) in b.at && b.at[Child(s, i)] == Entry(b, s, i).ppn
  {
    assert EntryOk(b, s, i);
  }

  lemma DetachInv(m: Mem, b: Mem, s: Slot, i: nat)
    requires AtEntry(m, b, s, i) && i < 512 && Entry(b, s, i).v && s.level > 0
    ensures CanFree(Detach(b, Child(s, i)), Child(s, i))
  {
    EntryFacts(m, b, s, i);
    DetachedInv(b, Child(s, i));
  }

  lemma DetachedInv(b: Mem, c: Slot)
    requires Inv(b) && forall w :: w in b.flat ==> SlotFor(w, 0) != c
    ensures Inv(Detach(b, c))
  {
    var n := Detach(b, c);
    forall t, k: nat | t in n.at && k < 512 ensures EntryOk(n, t, k) { assert EntryOk(b, t, k); }
    forall t | t in n.at ensures SlotOk(n, t) { assert SlotOk(b, t); }
    forall w | w in n.flat ensures FlatOk(n, w) { assert FlatOk(b, w); }
    forall q: nat | q < |n.use| ensures UseOk(n, q) { assert UseOk(b, q); }
    forall k: nat | k < |n.free| ensures LinkOk(n, k) { assert LinkOk(b, k); }
  }

  // Writing entry i of s to zero, once the child it pointed to is gone.
  lemma ClearedInv(d: Mem, s: Slot, i: nat)
    requires Inv(d) && s in d.at && s.level > 0 && i < 512 && Child(s, i) !in d.at
    requires forall w :: w in d.flat ==> SlotFor(w, 0) != Child(s, i)
    ensures Inv(ClearEntry(d, s, i))
    ensures forall t, k: nat {:trigger Entry(ClearEntry(d, s, i), t, k)} :: t in d.at && k < 512 ==>
      Entry(ClearEntry(d, s, i), t, k) == if t == s && k == i then ZERO else Entry(d, t, k)
  {
    hide EntryOk;
    var n := ClearEntry(d, s, i);
    PutEntryElsewhere(d, s, i, ZERO);
    assert forall t, k: nat :: t in d.at && k < 512 ==> Entry(n, t, k) == Entry(PutEntry(d, s, i, ZERO), t, k);
    forall t, k: nat | t in n.at && k < 512 ensures EntryOk(n, t, k) { ClearedEntry(d, s, i, t, k); }
    forall t | t in n.at ensures SlotOk(n, t) { ClearedSlot(d, s, i, t); }
    forall w | w in n.flat ensures FlatOk(n, w) { assert FlatOk(d, w); }
    assert SlotOk(d, s);
    forall q: nat | q < |n.use| ensures UseOk(n, q) { assert UseOk(d, q); }
    forall k: nat | k < |n.free| ensures LinkOk(n, k) { assert LinkOk(PutEntry(d, s, i, ZERO), k); }
  }

  lemma ClearedSlot(d: Mem, s: Slot, i: nat, t: Slot)
    requires Inv(d) && s in d.at && s.level > 0 && i < 512 && Child(s, i) !in d.at && t in d.at
    requires Sized(ClearEntry(d, s, i))
    requires forall t, k: nat {:trigger Entry(ClearEntry(d, s, i), t, k)} :: t in d.at && k < 512 ==>
      Entry(ClearEntry(d, s, i), t, k) == if t == s && k == i then ZERO else Entry(d, t, k)
    ensures SlotOk(ClearEntry(d, s, i), t)
  {
    hide EntryOk, FlatOk, UseOk, FreeOk;
    var c := Child(s, i);
    assert SlotOk(d, t);
    assert t.level < 2 && Parent(t) == s && t.prefix % 512 == i ==> t == c;
  }

  lemma ClearedEntry(d: Mem, s: Slot, i: nat, t: Slot, k: nat)
    requires Inv(d) && s in d.at && s.level > 0 && i < 512 && t in d.at && k < 512
    requires Sized(ClearEntry(d, s, i))
    requires Entry(ClearEntry(d, s, i), t, k) == if t == s && k == i then ZERO else Entry(d, t, k)
    ensures EntryOk(ClearEntry(d, s, i), t, k)
  {
    assert EntryOk(d, t, k);
    assert t.level > 0 && Child(t, k) == Child(s, i) ==> t == s && k == i;
  }

  // The child is gone and the entry cleared: one more entry done.
  lemma ClearEntryInv(m: Mem, b: Mem, d: Mem, s: Slot, i: nat)
    requires AtEntry(m, b, s, i) && i < 512 && Entry(b, s, i).v && s.level > 0
    requires Inv(d) && Freed(Detach(b, Child(s, i)), d, UnderSet(Detach(b, Child(s, i)), Child(s, i)), Child(s, i))
    ensures s in d.at && d.at[s] == m.at[s]
    ensures AtEntry(m, ClearEntry(d, s, i), s, i + 1)
  {
    EntryFacts(m, b, s, i);
    var c := Child(s, i);
    var dead := UnderSet(Detach(b, c), c);
    assert c in dead && s !in dead;
    ClearedInv(d, s, i);
    var n := ClearEntry(d, s, i);
    BelowGrows(m, b, s, i);
    assert n.at == m.at - BelowSet(m, s, i + 1);
    ClearEntryPages(m, b, d, s, i);
    ClearedMore(m, b, d, s, i);
  }

  lemma BelowGrows(m: Mem, b: Mem, s: Slot, i: nat)
    requires s.level > 0 && s.level <= 2 && b.at == m.at - BelowSet(m, s, i)
    ensures BelowSet(m, s, i + 1) == BelowSet(m, s, i) + UnderSet(Detach(b, Child(s, i)), Child(s, i))
  {
    forall x | x in m.at
      ensures x in BelowSet(m, s, i + 1) <==> x in BelowSet(m, s, i) + UnderSet(Detach(b, Child(s, i)), Child(s, i))
    {
      BelowMore(x, s, i);
    }
  }

  lemma ClearEntryPages(m: Mem, b: Mem, d: Mem, s: Slot, i: nat)
    requires AtEntry(m, b, s, i) && i < 512 && s.level > 0
    requires Freed(Detach(b, Child(s, i)), d, UnderSet(Detach(b, Child(s, i)), Child(s, i)), Child(s, i))
    requires Inv(d) && s in d.at && d.at[s] == m.at[s]
    requires BelowSet(m, s, i + 1) == BelowSet(m, s, i) + UnderSet(Detach(b, Child(s, i)), Child(s, i))
    ensures forall p: nat {:trigger PageFreed(m, ClearEntry(d, s, i), BelowSet(m, s, i + 1), s, p)} ::
      p < |m.use| ==> PageFreed(m, ClearEntry(d, s, i), BelowSet(m, s, i + 1), s, p)
  {
    var c, n := Child(s, i), ClearEntry(d, s, i);
    var dead := UnderSet(Detach(b, c), c);
    assert SlotOk(m, s);
    var gone := BelowSet(m, s, i + 1);
    forall p: nat | p < |m.use| ensures PageFreed(m, n, gone, s, p) {
      assert PageFreed(m, b, BelowSet(m, s, i), s, p);
      assert PageFreed(Detach(b, c), d, dead, c, p);
      assert UseOk(m, p);
      assert p != m.at[s] ==> n.pages[p] == d.pages[p];
    }
  }

  lemma ClearedMore(m: Mem, b: Mem, d: Mem, s: Slot, i: nat)
    requires AtEntry(m, b, s, i) && i < 512 && s.level > 0 && Inv(d) && s in d.at && d.at[s] == m.at[s]
    requires Freed(Detach(b, Child(s, i)), d, UnderSet(Detach(b, Child(s, i)), Child(s, i)), Child(s, i))
    requires Inv(ClearEntry(d, s, i))
    requires forall t, k: nat {:trigger Entry(ClearEntry(d, s, i), t, k)} :: t in d.at && k < 512 ==>
      Entry(ClearEntry(d, s, i), t, k) == if t == s && k == i then ZERO else Entry(d, t, k)
    ensures ClearedTo(m, ClearEntry(d, s, i), s, i + 1)
  {
    var c, n := Child(s, i), ClearEntry(d, s, i);
    var t := m.at[s];
    assert SlotOk(b, s);
    assert s !in UnderSet(Detach(b, c), c);
    assert PageFreed(Detach(b, c), d, UnderSet(Detach(b, c), c), c, t);
    assert d.pages[t] == b.pages[t];
    forall k: nat | k < 512
      ensures k < i + 1 ==> !Entry(n, s, k).v
      ensures i + 1 <= k ==> Entry(n, s, k) == Entry(m, s, k)
    {
      assert Entry(d, s, k) == Entry(b, s, k);
    }
  }

  // Whatever lies above a linked table is linked, up to the tables being taken down.
  lemma LinkedAbove(m: Mem, c: Slot, x: Slot)
    requires Inv(m) && x in m.at && c.level < 2 && Under(x, c)
    requires forall y :: y in m.det ==> c.level < y.level
    ensures c in m.at
    decreases c.level - x.level
  {
    if x.level < c.level {
      assert SlotOk(m, x);
      LinkedAbove(m, c, Parent(x));
    }
  }

  // An invalid entry: nothing of the space lies below it.
  lemma NothingBelow(m: Mem, b: Mem, s: Slot, i: nat)
    requires AtEntry(m, b, s, i) && i < 512 && !Entry(b, s, i).v
    ensures AtEntry(m, b, s, i + 1)
  {
    assert Entry(b, s, i) == Entry(m, s, i);
    if s.level > 0 {
      var c := Child(s, i);
      assert Parent(c) == s && c.prefix % 512 == i;
      assert c in m.at ==> SlotOk(m, c);
      forall x | x in m.at ensures x in BelowSet(m, s, i + 1) <==> x in BelowSet(m, s, i) {
        if Under(x, c) { LinkedAbove(m, c, x); }
        BelowMore(x, s, i);
      }
    }
    assert BelowSet(m, s, i + 1) == BelowSet(m, s, i);
    forall k: nat | k < 512
      ensures k < i + 1 ==> !Entry(b, s, k).v
      ensures i + 1 <= k ==> Entry(b, s, k) == Entry(m, s, k)
    {
    }
  }

  // All entries done: the table page itself goes.
  lemma RemoveTableInv(m: Mem, b: Mem, s: Slot)
    requires AtEntry(m, b, s, 512)
    ensures b.at[s] < |b.use| && Inv(RemoveTable(b, s)) && RemoveTable(b, s).use[b.at[s]].Other?
    ensures Freed(m, Release(RemoveTable(b, s), b.at[s]), UnderSet(m, s), s)
  {
    RemovedInv(b, s);
    var t := b.at[s];
    var n := Release(RemoveTable(b, s), t);
    assert ShapeOk(s);
    forall x | x in m.at ensures x in UnderSet(m, s) <==> x == s || x in BelowSet(m, s, 512) {
      UnderIsBelow(x, s);
    }
    assert SlotOk(m, s) && SlotOk(b, s);
    forall p: nat | p < |m.use| ensures PageFreed(m, n, UnderSet(m, s), s, p) {
      assert PageFreed(m, b, BelowSet(m, s, 512), s, p);
      assert UseOk(m, p);
    }
  }

  lemma RemovedInv(b: Mem, s: Slot)
    requires Inv(b) && s in b.at && (s in b.det || s.level == 2)
    requires forall k: nat {:trigger Entry(b, s, k)} :: k < 512 ==> !Entry(b, s, k).v
    requires forall w :: w in b.flat ==> w.root != s.root
    ensures b.at[s] < |b.use| && Inv(RemoveTable(b, s))
  {
    hide EntryOk;
    var n, p := RemoveTable(b, s), b.at[s];
    assert SlotOk(b, s);
    forall t | t in b.at && t != s ensures b.at[t] != p { assert SlotOk(b, t); }
    forall t, k: nat | t in n.at && k < 512 ensures EntryOk(n, t, k) { RemovedEntry(b, s, t, k); }
    forall t | t in n.at ensures SlotOk(n, t) {
      assert SlotOk(b, t);
      assert t.level < 2 && t !in b.det ==> Entry(b, Parent(t), t.prefix % 512).v;
    }
    forall w | w in n.flat ensures FlatOk(n, w) { assert FlatOk(b, w); }
    forall q: nat | q < |n.use| ensures UseOk(n, q) { assert UseOk(b, q); }
    forall k: nat | k < |n.free| ensures LinkOk(n, k) { assert LinkOk(b, k); }
  }

  lemma RemovedEntry(b: Mem, s: Slot, t: Slot, k: nat)
    requires Inv(b) && s in b.at && (s in b.det || s.level == 2) && t in b.at && t != s && k < 512
    ensures b.at[s] < |b.use| && Sized(RemoveTable(b, s)) && EntryOk(RemoveTable(b, s), t, k)
  {
    hide FlatOk, UseOk, FreeOk;
    assert EntryOk(b, t, k);
  }

  // ---- uvmfree ----

  predicate BelongsTo(u: Use, root: nat) {
    (u.TablePage? && u.slot.root == root) || (u.UserPage? && u.va.root == root)
  }

  lemma UvmfreeDone(m: Mem, b: Mem, n: Mem, root: nat, k: nat)
    requires Inv(m) && Inv(b) && UnmappedRun(m, b, root, 0, k, true) && b.at == m.at
    requires forall w :: w in m.flat && w.root == root ==> w.vpn < k
    requires Freed(b, n, UnderSet(b, Slot(root, 2, 0)), Slot(root, 2, 0))
    ensures !Space(n, root)
    ensures forall w :: w in n.flat <==> w in m.flat && w.root != root
    ensures |n.use| == |m.use|
    ensures forall p :: 0 <= p < |n.use| ==> n.use[p] == if BelongsTo(m.use[p], root) then Free else m.use[p]
    ensures forall w :: w in n.flat ==> n.flat[w] == m.flat[w]
    ensures |n.pages| == |m.pages| == |m.use|
    ensures forall p :: 0 <= p < |n.pages| && !BelongsTo(m.use[p], root) && !m.use[p].Free? ==> n.pages[p] == m.pages[p]
  {
    var top := Slot(root, 2, 0);
    forall x | x in b.at ensures x in UnderSet(b, top) <==> x.root == root { assert ShapeOk(x); }
    forall p: nat | p < |n.use|
      ensures n.use[p] == if BelongsTo(m.use[p], root) then Free else m.use[p]
      ensures !BelongsTo(m.use[p], root) && !m.use[p].Free? ==> n.pages[p] == m.pages[p]
    {
      assert UseOk(m, p) && UseOk(b, p);
      assert PageFreed(b, n, UnderSet(b, top), top, p);
      if p in OwnedPages(m, root, 0, k) {
        assert b.use[p] == Free;
      } else {
        assert PageKept(m, b, root, p);
      }
    }
  }
}
