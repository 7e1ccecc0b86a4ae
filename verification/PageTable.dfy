/** Sv39 page tables over the physical page allocator (kernel/vm.c, kernel/kalloc.c):
    the contents of physical memory together with who owns every page.

    A page-table page is known by its slot: the address space, its level, and the
    virtual-page prefix it translates. flat is the map the three-level trees stand
    for. Levels and indices follow section 4.4 of the RISC-V Instruction Set Manual,
    Volume II. */
module PageTable {
  import opened Common
  import opened Finite

  // MAXVA in pages: half of the Sv39 range
  const MAXVPN: nat := 512 * 512 * 256
  const PGSIZE: nat := 4096

  datatype Perm = Perm(r: bool, w: bool, x: bool, u: bool) {
    // A valid entry with any of R, W, X set is a leaf.
    predicate Leaf() { r || w || x }
  }

  const NOPERM := Perm(false, false, false, false)

  datatype Pte = Pte(v: bool, ppn: nat, perm: Perm)

  const ZERO := Pte(false, 0, NOPERM)

  type Bytes = s: seq<byte> | |s| == PGSIZE witness seq(PGSIZE, _ => 0)

  // What a physical page holds: a link of the free list, page-table entries, or bytes.
  datatype Page = Run(next: nat) | Table(ptes: seq<Pte>) | Data(bytes: Bytes)

  datatype Slot = Slot(root: nat, level: nat, prefix: nat)

  datatype Va = Va(root: nat, vpn: nat)

  datatype Leaf = Leaf(ppn: nat, perm: Perm)

  // Who a physical page belongs to; Other is whoever got it from kalloc.
  datatype Use = Unmanaged | Free | TablePage(slot: Slot) | UserPage(va: Va) | Other

  /** pages and free are memory and kmem.freelist as a list; the rest is who owns
      what. det holds table pages that freewalk is taking down. */
  datatype Mem = Mem(
    lo: nat, pages: seq<Page>, free: seq<nat>, use: seq<Use>,
    at: map<Slot, nat>, flat: map<Va, Leaf>, det: set<Slot>)

  // ---- Slots ----

  function Span(level: nat): nat {
    if level == 2 then 1 else if level == 1 then 512 else 512 * 512
  }

  predicate ShapeOk(s: Slot) { s.level <= 2 && s.prefix < Span(s.level) }

  function Child(s: Slot, i: nat): Slot
    requires s.level > 0
  {
    Slot(s.root, s.level - 1, s.prefix * 512 + i)
  }

  function Parent(s: Slot): Slot { Slot(s.root, s.level + 1, s.prefix / 512) }

  // The slot of the level-l table that translates va.
  function SlotFor(va: Va, l: nat): Slot {
    if l == 2 then Slot(va.root, 2, 0)
    else if l == 1 then Slot(va.root, 1, va.vpn / 512 / 512)
    else Slot(va.root, 0, va.vpn / 512)
  }

  // PX(level, va)
  function Index(va: Va, l: nat): nat
    requires va.vpn < MAXVPN
  {
    if l == 2 then va.vpn / 512 / 512
    else if l == 1 then va.vpn / 512 % 512
    else va.vpn % 512
  }

  // ---- The invariant ----

  predicate Managed(m: Mem, p: nat) { m.lo <= p < |m.pages| }

  predicate Sized(m: Mem) {
    && 1 <= m.lo && |m.use| == |m.pages|
    && (forall s :: s in m.at ==> ShapeOk(s) && Managed(m, m.at[s]) && IsTable(m.pages[m.at[s]]))
  }

  predicate IsTable(p: Page) { p.Table? && |p.ptes| == 512 }

  function Entry(m: Mem, s: Slot, i: nat): Pte
    requires Sized(m) && s in m.at && i < 512
  {
    m.pages[m.at[s]].ptes[i]
  }

  // Entry i of a table: a pointer to the child table, or the flat map's leaf.
  predicate EntryOk(m: Mem, s: Slot, i: nat)
    requires Sized(m) && s in m.at && i < 512
  {
    var e := Entry(m, s, i);
    if s.level > 0 then
      e.v && Child(s, i) !in m.det ==>
        Child(s, i) in m.at && m.at[Child(s, i)] == e.ppn && e.perm == NOPERM
    else
      var va := Va(s.root, s.prefix * 512 + i);
      && (e.v <==> va in m.flat)
      && (e.v ==> m.flat[va] == Leaf(e.ppn, e.perm) && e.perm.Leaf())
  }

  predicate SlotOk(m: Mem, s: Slot)
    requires Sized(m) && s in m.at
  {
    && m.use[m.at[s]] == TablePage(s)
    && (s.level == 2 ==> m.at[s] == s.root)
    && (s.level < 2 && s !in m.det ==>
          && Parent(s) in m.at
          && Entry(m, Parent(s), s.prefix % 512) == Pte(true, m.at[s], NOPERM))
  }

  predicate FlatOk(m: Mem, va: Va)
    requires va in m.flat
  {
    va.vpn < MAXVPN && SlotFor(va, 0) in m.at && SlotFor(va, 0) !in m.det
  }

  predicate UseOk(m: Mem, p: nat)
    requires p < |m.use| == |m.pages|
  {
    && (m.use[p].Unmanaged? <==> !Managed(m, p))
    && (m.use[p].Free? ==> p in m.free)
    && (m.use[p].TablePage? ==> m.use[p].slot in m.at && m.at[m.use[p].slot] == p)
    && (m.use[p].UserPage? ==> m.use[p].va in m.flat && m.flat[m.use[p].va].ppn == p && m.pages[p].Data?)
  }

  // The free list is threaded through the free pages, each of them once.
  predicate LinkOk(m: Mem, i: nat)
    requires i < |m.free| && |m.use| == |m.pages|
  {
    var p := m.free[i];
    && p < |m.pages| && m.use[p].Free?
    && m.pages[p] == Run(if i + 1 < |m.free| then m.free[i + 1] else 0)
  }

  ghost predicate FreeOk(m: Mem)
    requires |m.use| == |m.pages|
  {
    && NoDup(m.free)
    && (forall i: nat {:trigger LinkOk(m, i)} :: i < |m.free| ==> LinkOk(m, i))
  }

  ghost predicate Inv(m: Mem) {
    && Sized(m)
    && (forall s, i: nat {:trigger EntryOk(m, s, i)} :: s in m.at && i < 512 ==> EntryOk(m, s, i))
    && (forall s {:trigger SlotOk(m, s)} :: s in m.at ==> SlotOk(m, s))
    && (forall va {:trigger FlatOk(m, va)} :: va in m.flat ==> FlatOk(m, va))
    && (forall p: nat {:trigger UseOk(m, p)} :: p < |m.use| ==> UseOk(m, p))
    && FreeOk(m)
  }

  predicate Space(m: Mem, root: nat) { Slot(root, 2, 0) in m.at }

  // ---- The hardware's walk agrees with the flat map ----

  // The entry the hardware finds at each level, None for a fault.
  function HwWalk(pages: seq<Page>, t: nat, va: Va, level: nat): Option<Pte>
    requires va.vpn < MAXVPN && level <= 2
    decreases level
  {
    if t >= |pages| || !IsTable(pages[t]) then None
    else
      var e := pages[t].ptes[Index(va, level)];
      if !e.v then None
      else if level == 0 then Some(e)
      else if e.perm.Leaf() then None
      else HwWalk(pages, e.ppn, va, level - 1)
  }

  lemma SlotForChild(va: Va, l: nat)
    requires va.vpn < MAXVPN && 0 < l <= 2
    ensures Child(SlotFor(va, l), Index(va, l)) == SlotFor(va, l - 1)
    ensures Parent(SlotFor(va, l - 1)) == SlotFor(va, l)
    ensures SlotFor(va, l - 1).prefix % 512 == Index(va, l) < 512
    ensures ShapeOk(SlotFor(va, l - 1))
  {
  }

  // A level-l table for va is linked exactly when its parent's entry is valid.
  lemma TableLinked(m: Mem, va: Va, l: nat)
    requires Inv(m) && va.vpn < MAXVPN && 0 < l <= 2 && SlotFor(va, l) in m.at
    requires SlotFor(va, l - 1) !in m.det
    ensures Index(va, l) < 512
    ensures Entry(m, SlotFor(va, l), Index(va, l)).v <==> SlotFor(va, l - 1) in m.at
    ensures Entry(m, SlotFor(va, l), Index(va, l)).v ==>
      Entry(m, SlotFor(va, l), Index(va, l)) == Pte(true, m.at[SlotFor(va, l - 1)], NOPERM)
  {
    SlotForChild(va, l);
    assert EntryOk(m, SlotFor(va, l), Index(va, l));
    if SlotFor(va, l - 1) in m.at {
      assert SlotOk(m, SlotFor(va, l - 1));
    }
  }

  // One level of the hardware's walk.
  lemma WalkLevel(m: Mem, va: Va, l: nat)
    requires Inv(m) && m.det == {} && va.vpn < MAXVPN && 0 < l <= 2 && SlotFor(va, l) in m.at
    ensures HwWalk(m.pages, m.at[SlotFor(va, l)], va, l)
         == if SlotFor(va, l - 1) in m.at then HwWalk(m.pages, m.at[SlotFor(va, l - 1)], va, l - 1) else None
  {
    TableLinked(m, va, l);
  }

  lemma WalkLeaf(m: Mem, va: Va)
    requires Inv(m) && va.vpn < MAXVPN && SlotFor(va, 0) in m.at
    ensures HwWalk(m.pages, m.at[SlotFor(va, 0)], va, 0)
         == if va in m.flat then Some(Pte(true, m.flat[va].ppn, m.flat[va].perm)) else None
  {
    assert EntryOk(m, SlotFor(va, 0), Index(va, 0));
  }

  // A table's ancestors are linked.
  lemma AncestorLinked(m: Mem, va: Va, l: nat)
    requires Inv(m) && va.vpn < MAXVPN && l < 2 && SlotFor(va, l) in m.at && SlotFor(va, l) !in m.det
    ensures SlotFor(va, l + 1) in m.at
  {
    SlotForChild(va, l + 1);
    assert SlotOk(m, SlotFor(va, l));
  }

  /** Page-table refinement: for every virtual page of every address space, the
      three-level walk finds exactly what the flat map says. */
  lemma WalkAgreesWithFlat(m: Mem, va: Va)
    requires Inv(m) && m.det == {} && Space(m, va.root) && va.vpn < MAXVPN
    ensures HwWalk(m.pages, va.root, va, 2)
         == if va in m.flat then Some(Pte(true, m.flat[va].ppn, m.flat[va].perm)) else None
  {
    assert SlotOk(m, SlotFor(va, 2));
    WalkLevel(m, va, 2);
    if va in m.flat {
      assert FlatOk(m, va);
      AncestorLinked(m, va, 0);
    }
    if SlotFor(va, 1) in m.at {
      WalkLevel(m, va, 1);
      if SlotFor(va, 0) in m.at {
        WalkLeaf(m, va);
      }
    }
  }

  // ---- Steps ----

  // kalloc, when the list is not empty: pop, and fill with junk.
  function Alloc(m: Mem): Mem
    requires m.free != [] && m.free[0] < |m.pages| && |m.use| == |m.pages|
  {
    var p := m.free[0];
    m.(free := m.free[1..], use := m.use[p := Other], pages := m.pages[p := Data(seq(PGSIZE, _ => 5))])
  }

  function Release(m: Mem, p: nat): Mem
    requires p < |m.pages| == |m.use|
  {
    m.(free := [p] + m.free, use := m.use[p := Free],
       pages := m.pages[p := Run(if m.free == [] then 0 else m.free[0])])
  }

  // Fill a page that belongs to a kalloc caller.
  function SetPage(m: Mem, p: nat, x: Page): Mem
    requires p < |m.pages|
  {
    m.(pages := m.pages[p := x])
  }

  function PutEntry(m: Mem, s: Slot, i: nat, e: Pte): Mem
    requires Sized(m) && s in m.at && i < 512
  {
    m.(pages := m.pages[m.at[s] := Table(m.pages[m.at[s]].ptes[i := e])])
  }

  // A zeroed page becomes the root of a new address space.
  function AddRoot(m: Mem, c: nat): Mem
    requires c < |m.use|
  {
    m.(use := m.use[c := TablePage(Slot(c, 2, 0))], at := m.at[Slot(c, 2, 0) := c])
  }

  // walk's allocation of a missing table page c for slot s.
  function LinkTable(m: Mem, s: Slot, c: nat): Mem
    requires Sized(m) && s.level < 2 && Parent(s) in m.at && c < |m.use|
  {
    PutEntry(m, Parent(s), s.prefix % 512, Pte(true, c, NOPERM))
      .(use := m.use[c := TablePage(s)], at := m.at[s := c])
  }

  // mappages' store; own says the caller hands the page over to the mapping.
  function MapLeaf(m: Mem, va: Va, leaf: Leaf, own: bool): Mem
    requires Sized(m) && SlotFor(va, 0) in m.at && (own ==> leaf.ppn < |m.use|)
  {
    PutEntry(m, SlotFor(va, 0), va.vpn % 512, Pte(true, leaf.ppn, leaf.perm))
      .(flat := m.flat[va := leaf],
        use := if own then m.use[leaf.ppn := UserPage(va)] else m.use)
  }

  // uvmunmap's store; the page, if the mapping owned it, goes back to the caller.
  function UnmapLeaf(m: Mem, va: Va): Mem
    requires Sized(m) && va in m.flat && SlotFor(va, 0) in m.at
  {
    var p := m.flat[va].ppn;
    PutEntry(m, SlotFor(va, 0), va.vpn % 512, ZERO)
      .(flat := m.flat - {va},
        use := if p < |m.use| && m.use[p] == UserPage(va) then m.use[p := Other] else m.use)
  }

  lemma AllocInv(m: Mem)
    requires Inv(m) && m.free != []
    ensures m.free[0] < |m.pages| && Managed(m, m.free[0]) && m.use[m.free[0]].Free?
    ensures Inv(Alloc(m))
  {
    assert LinkOk(m, 0);
    var p, n := m.free[0], Alloc(m);
    assert UseOk(m, p);
    forall q: nat | q < |n.use| && n.use[q].Free? ensures q in n.free {
      assert UseOk(m, q);
      assert m.free == [p] + n.free;
    }
    ElsewhereInv(m, n, p);
    forall i: nat | i < |n.free| ensures LinkOk(n, i) {
      assert LinkOk(m, i + 1);
    }
  }

  lemma ReleaseInv(m: Mem, p: nat)
    requires Inv(m) && p < |m.pages| && m.use[p].Other?
    ensures Inv(Release(m, p))
  {
    var n := Release(m, p);
    assert UseOk(m, p);
    forall i: nat | i < |m.free| ensures m.free[i] != p { assert LinkOk(m, i); }
    forall q: nat | q < |n.use| && n.use[q].Free? ensures q in n.free {
      assert UseOk(m, q);
    }
    ElsewhereInv(m, n, p);
    forall i: nat | i < |n.free| ensures LinkOk(n, i) {
      if i > 0 { assert LinkOk(m, i - 1); }
    }
  }

  // Changing only a page that is neither a table nor a user page, and its use,
  // keeps everything but possibly the free list.
  lemma ElsewhereInv(m: Mem, n: Mem, p: nat)
    requires Inv(m) && p < |m.pages| && !m.use[p].TablePage? && !m.use[p].UserPage? && Managed(m, p)
    requires n.lo == m.lo && n.at == m.at && n.flat == m.flat && n.det == m.det
    requires |n.pages| == |m.pages| && |n.use| == |m.use|
    requires forall q :: 0 <= q < |m.pages| && q != p ==> n.pages[q] == m.pages[q] && n.use[q] == m.use[q]
    requires n.use[p].Free? || n.use[p].Other?
    requires forall q: nat :: q < |n.use| && n.use[q].Free? ==> q in n.free
    ensures Sized(n)
    ensures forall s, i: nat {:trigger EntryOk(n, s, i)} :: s in n.at && i < 512 ==> EntryOk(n, s, i)
    ensures forall s {:trigger SlotOk(n, s)} :: s in n.at ==> SlotOk(n, s)
    ensures forall va {:trigger FlatOk(n, va)} :: va in n.flat ==> FlatOk(n, va)
    ensures forall q: nat {:trigger UseOk(n, q)} :: q < |n.use| ==> UseOk(n, q)
  {
    forall s | s in m.at ensures m.at[s] != p { assert SlotOk(m, s); }
    forall s, i: nat | s in n.at && i < 512 ensures EntryOk(n, s, i) { assert EntryOk(m, s, i); }
    forall s | s in n.at ensures SlotOk(n, s) { assert SlotOk(m, s); }
    forall va | va in n.flat ensures FlatOk(n, va) { assert FlatOk(m, va); }
    forall q: nat | q < |n.use| ensures UseOk(n, q) { assert UseOk(m, q); }
  }

  lemma SetPageInv(m: Mem, p: nat, x: Page)
    requires Inv(m) && p < |m.pages| && m.use[p].Other?
    ensures Inv(SetPage(m, p, x))
  {
    var n := SetPage(m, p, x);
    assert UseOk(m, p);
    forall q: nat | q < |n.use| && n.use[q].Free? ensures q in n.free { assert UseOk(m, q); }
    ElsewhereInv(m, n, p);
    forall i: nat | i < |n.free| ensures LinkOk(n, i) { assert LinkOk(m, i); }
  }

  // Tables other than s keep their entries when one entry of s is written.
  lemma PutEntryElsewhere(m: Mem, s: Slot, i: nat, e: Pte)
    requires Inv(m) && s in m.at && i < 512
    ensures Sized(PutEntry(m, s, i, e))
    ensures forall t, k: nat :: t in m.at && k < 512 ==>
      Entry(PutEntry(m, s, i, e), t, k) == if t == s && k == i then e else Entry(m, t, k)
    ensures FreeOk(PutEntry(m, s, i, e))
  {
    assert SlotOk(m, s);
    forall t | t in m.at && t != s ensures m.at[t] != m.at[s] { assert SlotOk(m, t); }
    forall k: nat | k < |m.free| ensures LinkOk(PutEntry(m, s, i, e), k) { assert LinkOk(m, k); }
  }

  ghost predicate CanLink(m: Mem, s: Slot, c: nat) {
    && Inv(m) && ShapeOk(s) && s.level < 2 && s !in m.at && s !in m.det
    && Parent(s) in m.at && Parent(s) !in m.det && !Entry(m, Parent(s), s.prefix % 512).v
    && c < |m.use| && m.use[c].Other? && m.pages[c] == Table(seq(512, _ => ZERO))
  }

  lemma LinkTableEntries(m: Mem, s: Slot, c: nat)
    requires CanLink(m, s, c)
    ensures Sized(LinkTable(m, s, c)) && c !in m.at.Values
    ensures forall t, k: nat :: t in m.at && k < 512 ==>
      Entry(LinkTable(m, s, c), t, k)
        == if t == Parent(s) && k == s.prefix % 512 then Pte(true, c, NOPERM) else Entry(m, t, k)
    ensures forall k: nat :: k < 512 ==> Entry(LinkTable(m, s, c), s, k) == ZERO
    ensures FreeOk(LinkTable(m, s, c))
  {
    assert UseOk(m, c);
    PutEntryElsewhere(m, Parent(s), s.prefix % 512, Pte(true, c, NOPERM));
    forall t | t in m.at ensures m.at[t] != c { assert SlotOk(m, t); }
    forall k: nat | k < |m.free| ensures LinkOk(LinkTable(m, s, c), k) { assert LinkOk(m, k); }
  }

  lemma LinkTableEntry(m: Mem, s: Slot, c: nat, t: Slot, k: nat)
    requires CanLink(m, s, c) && Sized(LinkTable(m, s, c)) && t in LinkTable(m, s, c).at && k < 512
    ensures EntryOk(LinkTable(m, s, c), t, k)
  {
    LinkTableEntries(m, s, c);
    if t == s {
      var va := Va(s.root, s.prefix * 512 + k);
      assert va in m.flat ==> FlatOk(m, va);
    } else {
      assert EntryOk(m, t, k);
      assert t == Parent(s) && k == s.prefix % 512 ==> Child(t, k) == s;
    }
  }

  lemma LinkTableSlot(m: Mem, s: Slot, c: nat, t: Slot)
    requires CanLink(m, s, c) && t in LinkTable(m, s, c).at
    ensures Sized(LinkTable(m, s, c)) && SlotOk(LinkTable(m, s, c), t)
  {
    hide EntryOk, FlatOk, UseOk, FreeOk;
    LinkTableEntries(m, s, c);
    if t != s { assert SlotOk(m, t); }
  }

  lemma LinkTableInv(m: Mem, s: Slot, c: nat)
    requires CanLink(m, s, c)
    ensures Inv(LinkTable(m, s, c))
  {
    hide EntryOk;
    var n := LinkTable(m, s, c);
    LinkTableEntries(m, s, c);
    forall t, k: nat | t in n.at && k < 512 ensures EntryOk(n, t, k) { LinkTableEntry(m, s, c, t, k); }
    forall t | t in n.at ensures SlotOk(n, t) { LinkTableSlot(m, s, c, t); }
    forall va | va in n.flat ensures FlatOk(n, va) { assert FlatOk(m, va); }
    assert SlotOk(m, Parent(s));
    forall q: nat | q < |n.use| ensures UseOk(n, q) { assert UseOk(m, q); }
  }

  lemma AddRootInv(m: Mem, c: nat)
    requires Inv(m) && c < |m.use| && m.use[c].Other? && m.pages[c] == Table(seq(512, _ => ZERO))
    ensures Inv(AddRoot(m, c)) && Space(AddRoot(m, c), c)
  {
    var s, n := Slot(c, 2, 0), AddRoot(m, c);
    assert UseOk(m, c);
    forall t | t in m.at ensures m.at[t] != c && t != s { assert SlotOk(m, t); }
    forall t, k: nat | t in n.at && k < 512 ensures EntryOk(n, t, k) {
      if t != s { assert EntryOk(m, t, k); }
    }
    forall t | t in n.at ensures SlotOk(n, t) {
      if t != s { assert SlotOk(m, t); }
    }
    forall va | va in n.flat ensures FlatOk(n, va) { assert FlatOk(m, va); }
    forall q: nat | q < |n.use| ensures UseOk(n, q) { assert UseOk(m, q); }
    forall k: nat | k < |m.free| ensures LinkOk(n, k) { assert LinkOk(m, k); }
  }

  // A new root page has nothing mapped yet.
  lemma FreshRootEmpty(m: Mem, c: nat, va: Va)
    requires Inv(m) && m.det == {} && c < |m.use| && !m.use[c].TablePage? && va in m.flat
    ensures va.root != c
  {
    assert FlatOk(m, va);
    AncestorLinked(m, va, 0);
    AncestorLinked(m, va, 1);
    assert SlotOk(m, SlotFor(va, 2));
  }

  lemma FreshRoot(m: Mem, c: nat)
    requires Inv(m) && c < |m.use| && !m.use[c].TablePage?
    ensures !Space(m, c)
  {
    assert Space(m, c) ==> SlotOk(m, Slot(c, 2, 0));
  }

  ghost predicate CanMap(m: Mem, va: Va, leaf: Leaf, own: bool) {
    && Inv(m) && va.vpn < MAXVPN && va !in m.flat && leaf.perm.Leaf()
    && SlotFor(va, 0) in m.at && SlotFor(va, 0) !in m.det
    && (own ==> leaf.ppn < |m.use| && m.use[leaf.ppn].Other? && m.pages[leaf.ppn].Data?)
  }

  lemma MapLeafEntry(m: Mem, va: Va, leaf: Leaf, own: bool, t: Slot, k: nat)
    requires CanMap(m, va, leaf, own) && Sized(MapLeaf(m, va, leaf, own)) && t in m.at && k < 512
    ensures EntryOk(MapLeaf(m, va, leaf, own), t, k)
  {
    PutEntryElsewhere(m, SlotFor(va, 0), va.vpn % 512, Pte(true, leaf.ppn, leaf.perm));
    assert EntryOk(m, t, k);
    var n := MapLeaf(m, va, leaf, own);
    assert Entry(n, t, k) == if t == SlotFor(va, 0) && k == va.vpn % 512
                             then Pte(true, leaf.ppn, leaf.perm) else Entry(m, t, k);
  }

  lemma MapLeafInv(m: Mem, va: Va, leaf: Leaf, own: bool)
    requires CanMap(m, va, leaf, own)
    ensures Inv(MapLeaf(m, va, leaf, own))
  {
    var n := MapLeaf(m, va, leaf, own);
    PutEntryElsewhere(m, SlotFor(va, 0), va.vpn % 512, Pte(true, leaf.ppn, leaf.perm));
    MapLeafFree(m, va, leaf, own);
    forall t, k: nat | t in n.at && k < 512 ensures EntryOk(n, t, k) { MapLeafEntry(m, va, leaf, own, t, k); }
    forall t | t in n.at ensures SlotOk(n, t) { MapLeafSlot(m, va, leaf, own, t); }
    forall w | w in n.flat ensures FlatOk(n, w) { if w != va { assert FlatOk(m, w); } }
    forall q: nat | q < |n.use| ensures UseOk(n, q) { MapLeafUse(m, va, leaf, own, q); }
  }

  lemma MapLeafFree(m: Mem, va: Va, leaf: Leaf, own: bool)
    requires CanMap(m, va, leaf, own)
    ensures FreeOk(MapLeaf(m, va, leaf, own))
  {
    PutEntryElsewhere(m, SlotFor(va, 0), va.vpn % 512, Pte(true, leaf.ppn, leaf.perm));
    var n := MapLeaf(m, va, leaf, own);
    forall k: nat | k < |m.free| ensures LinkOk(n, k) {
      assert LinkOk(m, k);
      assert LinkOk(PutEntry(m, SlotFor(va, 0), va.vpn % 512, Pte(true, leaf.ppn, leaf.perm)), k);
    }
  }

  lemma MapLeafSlot(m: Mem, va: Va, leaf: Leaf, own: bool, t: Slot)
    requires CanMap(m, va, leaf, own) && Sized(MapLeaf(m, va, leaf, own)) && t in m.at
    ensures SlotOk(MapLeaf(m, va, leaf, own), t)
  {
    PutEntryElsewhere(m, SlotFor(va, 0), va.vpn % 512, Pte(true, leaf.ppn, leaf.perm));
    if own { assert UseOk(m, leaf.ppn); }
    assert SlotOk(m, t);
  }

  lemma MapLeafUse(m: Mem, va: Va, leaf: Leaf, own: bool, q: nat)
    requires CanMap(m, va, leaf, own) && q < |m.use|
    ensures UseOk(MapLeaf(m, va, leaf, own), q)
  {
    assert UseOk(m, q);
    assert SlotOk(m, SlotFor(va, 0));
  }

  lemma UnmapLeafEntry(m: Mem, va: Va, t: Slot, k: nat)
    requires Inv(m) && va in m.flat && SlotFor(va, 0) in m.at
    requires Sized(UnmapLeaf(m, va)) && t in m.at && k < 512
    ensures EntryOk(UnmapLeaf(m, va), t, k)
  {
    assert FlatOk(m, va);
    PutEntryElsewhere(m, SlotFor(va, 0), va.vpn % 512, ZERO);
    assert EntryOk(m, t, k);
    var n := UnmapLeaf(m, va);
    assert Entry(n, t, k) == if t == SlotFor(va, 0) && k == va.vpn % 512 then ZERO else Entry(m, t, k);
  }

  lemma UnmapLeafInv(m: Mem, va: Va)
    requires Inv(m) && va in m.flat && SlotFor(va, 0) in m.at
    ensures Inv(UnmapLeaf(m, va))
  {
    var n := UnmapLeaf(m, va);
    PutEntryElsewhere(m, SlotFor(va, 0), va.vpn % 512, ZERO);
    UnmapLeafUse(m, va);
    forall t, k: nat | t in n.at && k < 512 ensures EntryOk(n, t, k) { UnmapLeafEntry(m, va, t, k); }
    forall t | t in n.at ensures SlotOk(n, t) { UnmapLeafSlot(m, va, t); }
    forall w | w in n.flat ensures FlatOk(n, w) { assert FlatOk(m, w); }
  }

  lemma UnmapLeafUse(m: Mem, va: Va)
    requires Inv(m) && va in m.flat && SlotFor(va, 0) in m.at
    ensures forall q: nat {:trigger UseOk(UnmapLeaf(m, va), q)} :: q < |m.use| ==> UseOk(UnmapLeaf(m, va), q)
    ensures FreeOk(UnmapLeaf(m, va))
  {
    PutEntryElsewhere(m, SlotFor(va, 0), va.vpn % 512, ZERO);
    var n := UnmapLeaf(m, va);
    assert SlotOk(m, SlotFor(va, 0));
    forall q: nat | q < |n.use| ensures UseOk(n, q) { assert UseOk(m, q); }
    forall k: nat | k < |m.free| ensures LinkOk(n, k) {
      assert LinkOk(m, k);
      assert LinkOk(PutEntry(m, SlotFor(va, 0), va.vpn % 512, ZERO), k);
    }
  }

  lemma UnmapLeafSlot(m: Mem, va: Va, t: Slot)
    requires Inv(m) && va in m.flat && SlotFor(va, 0) in m.at
    requires Sized(UnmapLeaf(m, va)) && t in m.at
    ensures SlotOk(UnmapLeaf(m, va), t)
  {
    PutEntryElsewhere(m, SlotFor(va, 0), va.vpn % 512, ZERO);
    assert SlotOk(m, t);
  }
}
