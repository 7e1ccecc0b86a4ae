/** What the operations of kernel/vm.c do to mappings and to the owners of pages,
    as relations between memories, and how those relations compose. */
module VmSpec {
  import opened PageTable
  import opened Finite

  // What an operation on address space root may do to page p besides changing
  // mappings: pages of others keep contents and owner, and root's trees may grow.
  ghost predicate PageKept(m: Mem, n: Mem, root: nat, p: nat)
    requires p < |m.use| == |m.pages| == |n.use| == |n.pages|
  {
    match m.use[p]
    case Unmanaged => n.use[p] == m.use[p] && n.pages[p] == m.pages[p]
    case Free => n.use[p].Free? || (n.use[p].TablePage? && n.use[p].slot.root == root)
    case TablePage(s) => n.use[p] == m.use[p] && (s.root != root ==> n.pages[p] == m.pages[p])
    case UserPage(va) => n.use[p] == m.use[p] && n.pages[p] == m.pages[p]
    case Other => n.use[p] == m.use[p] && n.pages[p] == m.pages[p]
  }

  // As PageKept, except for the pages in ps.
  ghost predicate Kept(m: Mem, n: Mem, root: nat, ps: set<nat>) {
    && n.lo == m.lo && |m.use| == |m.pages| == |n.use| == |n.pages|
    && n.det == m.det
    && (forall r :: Space(m, r) ==> Space(n, r))
    && forall p: nat {:trigger PageKept(m, n, root, p)} ::
         p < |m.use| && p !in ps ==> PageKept(m, n, root, p)
  }

  lemma KeptTrans(a: Mem, b: Mem, c: Mem, root: nat, ps: set<nat>, qs: set<nat>)
    requires Kept(a, b, root, ps) && Kept(b, c, root, qs)
    ensures Kept(a, c, root, ps + qs)
  {
    forall p: nat | p < |a.use| && p !in ps + qs ensures PageKept(a, c, root, p) {
      assert PageKept(a, b, root, p);
      assert PageKept(b, c, root, p);
    }
  }

  // ---- Ranges of mappings ----

  // PGROUNDDOWN and PGROUNDUP, as page numbers
  function PgDown(a: nat): nat { a / 4096 }
  function PgUp(a: nat): nat { (a + 4095) / 4096 }

  predicate InRange(w: Va, root: nat, v0: nat, k: nat) { w.root == root && v0 <= w.vpn < v0 + k }

  function FromTo(p: nat, q: nat): set<nat> { set x | x in UpTo(q) && p <= x }

  function PageRange(p0: nat, k: nat): set<nat> { FromTo(p0, p0 + k) }

  // g is f with k consecutive pages mapped to consecutive physical pages.
  ghost predicate Mapped(f: map<Va, Leaf>, g: map<Va, Leaf>, root: nat, v0: nat, ppn: nat, perm: Perm, k: nat) {
    && (forall w :: w in g <==> w in f || InRange(w, root, v0, k))
    && (forall w :: w in g ==>
          g[w] == if InRange(w, root, v0, k) then Leaf(ppn + w.vpn - v0, perm) else f[w])
  }

  // g is f without the k pages from v0 on.
  ghost predicate Unmapped(f: map<Va, Leaf>, g: map<Va, Leaf>, root: nat, v0: nat, k: nat) {
    && (forall w :: w in g <==> w in f && !InRange(w, root, v0, k))
    && (forall w :: w in g ==> g[w] == f[w])
  }

  predicate Owns(m: Mem, w: Va) {
    w in m.flat && m.flat[w].ppn < |m.use| && m.use[m.flat[w].ppn] == UserPage(w)
  }

  // The pages owned by the k mappings from v0 on.
  function OwnedPages(m: Mem, root: nat, v0: nat, k: nat): set<nat> {
    set p: nat | p < |m.use| && m.use[p].UserPage? && InRange(m.use[p].va, root, v0, k)
  }

  // unmapping's effect on owners: the pages of the range become free, or the caller's.
  ghost predicate Disowned(m: Mem, n: Mem, root: nat, v0: nat, k: nat, doFree: bool) {
    && |m.use| == |n.use|
    && (forall p :: 0 <= p < |m.use| && m.use[p].Free? ==> n.use[p].Free?)
    && forall p :: p in OwnedPages(m, root, v0, k) ==> p < |n.use| && n.use[p] == if doFree then Free else Other
  }

  // The k pages from p0 on have become the user pages of the mappings from v0 on.
  ghost predicate HandedOver(m: Mem, n: Mem, root: nat, v0: nat, p0: nat, k: nat) {
    && |m.use| == |m.pages| == |n.use| == |n.pages|
    && (k > 0 ==> p0 + k <= |n.use|)
    && forall p :: p0 <= p < p0 + k ==>
         n.use[p] == UserPage(Va(root, v0 + p - p0)) && n.pages[p] == m.pages[p]
  }

  // All that mappages does when it maps k pages.
  ghost predicate MappedRun(m: Mem, n: Mem, root: nat, v0: nat, p0: nat, perm: Perm, k: nat, own: bool) {
    && Mapped(m.flat, n.flat, root, v0, p0, perm, k)
    && Kept(m, n, root, if own then PageRange(p0, k) else {})
    && (own ==> HandedOver(m, n, root, v0, p0, k))
  }

  // All that one turn of mappages' loop does.
  ghost predicate MappedOne(m: Mem, n: Mem, root: nat, v: nat, p: nat, perm: Perm, own: bool, ok: bool) {
    && n.flat == (if ok then m.flat[Va(root, v) := Leaf(p, perm)] else m.flat)
    && Kept(m, n, root, if own && ok then {p} else {})
    && (own && ok ==> p < |n.use| && n.use[p] == UserPage(Va(root, v)) && n.pages[p] == m.pages[p])
  }

  // What mappages asks for k pages: no remapping, and pages of the caller's to hand over.
  predicate CanMapRun(m: Mem, root: nat, v0: nat, p0: nat, k: nat, own: bool) {
    && (forall w :: w in m.flat ==> !InRange(w, root, v0, k))
    && (own ==> p0 + k <= |m.use| == |m.pages|)
    && (own ==> forall p :: p0 <= p < p0 + k ==> m.use[p].Other? && m.pages[p].Data?)
  }

  // What uvmunmap asks: the mappings exist, and own the pages to be freed.
  predicate CanUnmapRun(m: Mem, root: nat, v0: nat, k: nat, doFree: bool) {
    forall v: nat {:trigger Va(root, v)} :: v0 <= v < v0 + k ==>
      Va(root, v) in m.flat && (doFree ==> Owns(m, Va(root, v)))
  }

  // All that uvmunmap does to k pages.
  ghost predicate UnmappedRun(m: Mem, n: Mem, root: nat, v0: nat, k: nat, doFree: bool) {
    && Unmapped(m.flat, n.flat, root, v0, k)
    && Kept(m, n, root, OwnedPages(m, root, v0, k))
    && Disowned(m, n, root, v0, k, doFree)
  }

  lemma TableNotOther(m: Mem, s: Slot, p: nat)
    requires Inv(m) && s in m.at && p < |m.use| && !m.use[p].TablePage?
    ensures m.at[s] != p
  {
    assert SlotOk(m, s);
  }

  // Allocating and linking one table touches only that page and root's trees.
  lemma NewTableKept(m: Mem, s: Slot)
    requires Inv(m) && m.free != [] && s.level < 2 && Parent(s) in m.at
    ensures m.free[0] < |m.pages|
    ensures var c := m.free[0];
      var m2 := SetPage(Alloc(m), c, Table(seq(512, _ => ZERO)));
      Sized(m2) && Kept(m, LinkTable(m2, s, c), s.root, {})
  {
    var c := m.free[0];
    AllocInv(m);
    SetPageInv(Alloc(m), c, Table(seq(512, _ => ZERO)));
    var m2 := SetPage(Alloc(m), c, Table(seq(512, _ => ZERO)));
    var n := LinkTable(m2, s, c);
    assert SlotOk(m, Parent(s));
    forall p: nat | p < |m.use| ensures PageKept(m, n, s.root, p) {}
  }

  // A missing table at some level means that nothing below it is mapped.
  lemma NotMapped(m: Mem, va: Va, level: nat)
    requires Inv(m) && m.det == {} && va.vpn < MAXVPN && 0 < level <= 2
    requires SlotFor(va, level - 1) !in m.at
    ensures SlotFor(va, 0) !in m.at && va !in m.flat
  {
    if va in m.flat { assert FlatOk(m, va); }
    if SlotFor(va, 0) in m.at { AncestorLinked(m, va, 0); }
  }

  // The next page of the range is still unmapped, and its physical page untouched.
  lemma MapReady(m: Mem, b: Mem, root: nat, v0: nat, p0: nat, perm: Perm, k: nat, own: bool)
    requires CanMapRun(m, root, v0, p0, k + 1, own) && MappedRun(m, b, root, v0, p0, perm, k, own)
    ensures Va(root, v0 + k) !in b.flat
    ensures own ==> p0 + k < |b.use| == |b.pages| == |m.pages| && b.use[p0 + k].Other?
    ensures own ==> b.pages[p0 + k].Data? && b.pages[p0 + k] == m.pages[p0 + k]
  {
    assert own ==> PageKept(m, b, root, p0 + k);
  }

  lemma CanMapLess(m: Mem, root: nat, v0: nat, p0: nat, j: nat, k: nat, own: bool)
    requires j <= k && CanMapRun(m, root, v0, p0, k, own)
    ensures CanMapRun(m, root, v0, p0, j, own)
  {
  }

  lemma InvSized(m: Mem)
    requires Inv(m)
    ensures |m.use| == |m.pages|
  {
  }

  lemma MappedNone(m: Mem, root: nat, v0: nat, p0: nat, perm: Perm, own: bool)
    requires |m.use| == |m.pages|
    ensures MappedRun(m, m, root, v0, p0, perm, 0, own)
  {
  }

  lemma UnmappedNone(m: Mem, root: nat, v0: nat, doFree: bool)
    requires |m.use| == |m.pages|
    ensures UnmappedRun(m, m, root, v0, 0, doFree)
  {
  }

  // What one more turn of mappages adds.
  lemma MapExtend(m: Mem, b: Mem, n: Mem, root: nat, v0: nat, p0: nat, perm: Perm, k: nat, own: bool, ok: bool)
    requires MappedRun(m, b, root, v0, p0, perm, k, own)
    requires MappedOne(b, n, root, v0 + k, p0 + k, perm, own, ok)
    requires own ==> p0 + k < |b.pages| == |m.pages| && b.pages[p0 + k] == m.pages[p0 + k]
    ensures MappedRun(m, n, root, v0, p0, perm, if ok then k + 1 else k, own)
  {
    if ok { MappedMore(m.flat, b.flat, n.flat, root, v0, p0, perm, k); }
    KeptMore(m, b, n, root, p0, k, own, ok);
    if own { HandedOverMore(m, b, n, root, v0, p0, k, ok); }
  }

  lemma MappedMore(f: map<Va, Leaf>, g: map<Va, Leaf>, h: map<Va, Leaf>,
                   root: nat, v0: nat, p0: nat, perm: Perm, k: nat)
    requires Mapped(f, g, root, v0, p0, perm, k) && h == g[Va(root, v0 + k) := Leaf(p0 + k, perm)]
    ensures Mapped(f, h, root, v0, p0, perm, k + 1)
  {
  }

  lemma KeptMore(m: Mem, b: Mem, n: Mem, root: nat, p0: nat, k: nat, own: bool, ok: bool)
    requires Kept(m, b, root, if own then PageRange(p0, k) else {})
    requires Kept(b, n, root, if own && ok then {p0 + k} else {})
    ensures Kept(m, n, root, if own then PageRange(p0, if ok then k + 1 else k) else {})
  {
    if own && ok {
      KeptTrans(m, b, n, root, PageRange(p0, k), {p0 + k});
      PageRangeMore(p0, k);
    } else if own {
      KeptTrans(m, b, n, root, PageRange(p0, k), {});
      assert PageRange(p0, k) + {} == PageRange(p0, k);
    } else {
      KeptTrans(m, b, n, root, {}, {});
    }
  }

  lemma PageRangeMore(p0: nat, k: nat)
    ensures PageRange(p0, k) + {p0 + k} == PageRange(p0, k + 1)
  {
  }

  lemma HandedOverMore(m: Mem, b: Mem, n: Mem, root: nat, v0: nat, p0: nat, k: nat, ok: bool)
    requires HandedOver(m, b, root, v0, p0, k) && Kept(b, n, root, if ok then {p0 + k} else {})
    requires ok ==> p0 + k < |n.use| && n.use[p0 + k] == UserPage(Va(root, v0 + k))
    requires ok ==> n.pages[p0 + k] == m.pages[p0 + k]
    ensures HandedOver(m, n, root, v0, p0, if ok then k + 1 else k)
  {
    forall p | p0 <= p < p0 + k
      ensures n.use[p] == UserPage(Va(root, v0 + p - p0)) && n.pages[p] == m.pages[p]
    {
      assert PageKept(b, n, root, p);
    }
  }

  lemma MapLeafKept(m: Mem, va: Va, leaf: Leaf, own: bool)
    requires CanMap(m, va, leaf, own)
    ensures var n := MapLeaf(m, va, leaf, own);
      Kept(m, n, va.root, if own then {leaf.ppn} else {}) && (own ==> n.pages[leaf.ppn] == m.pages[leaf.ppn])
  {
    var n := MapLeaf(m, va, leaf, own);
    assert SlotOk(m, SlotFor(va, 0));
    forall p: nat | p < |m.use| && p !in (if own then {leaf.ppn} else {}) ensures PageKept(m, n, va.root, p) {}
  }

  // ---- Unmapping one page ----

  // The mapping gives its page up, just before the page is freed.
  function Disown(m: Mem, w: Va): Mem
    requires w in m.flat && m.flat[w].ppn < |m.use|
  {
    m.(use := m.use[m.flat[w].ppn := Other])
  }

  lemma DisownInv(m: Mem, w: Va)
    requires Inv(m) && Owns(m, w)
    ensures Inv(Disown(m, w))
  {
    var n, p := Disown(m, w), m.flat[w].ppn;
    assert UseOk(m, p);
    forall s | s in m.at ensures m.at[s] != p { assert SlotOk(m, s); }
    forall s, i: nat | s in n.at && i < 512 ensures EntryOk(n, s, i) { assert EntryOk(m, s, i); }
    forall s | s in n.at ensures SlotOk(n, s) { assert SlotOk(m, s); }
    forall va | va in n.flat ensures FlatOk(n, va) { assert FlatOk(m, va); }
    forall q: nat | q < |n.use| ensures UseOk(n, q) { assert UseOk(m, q); }
    forall k: nat | k < |m.free| ensures LinkOk(n, k) { assert LinkOk(m, k); }
  }

  ghost function UnmapOne(m: Mem, w: Va, doFree: bool): Mem
    requires Inv(m) && w in m.flat && (doFree ==> Owns(m, w))
  {
    assert FlatOk(m, w);
    if doFree then
      DisownInv(m, w);
      ReleaseInv(Disown(m, w), m.flat[w].ppn);
      UnmapLeaf(Release(Disown(m, w), m.flat[w].ppn), w)
    else UnmapLeaf(m, w)
  }

  lemma UnmapOneInv(m: Mem, w: Va, doFree: bool)
    requires Inv(m) && w in m.flat && (doFree ==> Owns(m, w))
    ensures var n := UnmapOne(m, w, doFree);
      && Inv(n) && n.flat == m.flat - {w} && n.at == m.at
      && Kept(m, n, w.root, OwnedPages(m, w.root, w.vpn, 1))
      && Disowned(m, n, w.root, w.vpn, 1, doFree)
  {
    var n, p := UnmapOne(m, w, doFree), m.flat[w].ppn;
    assert FlatOk(m, w);
    assert SlotOk(m, SlotFor(w, 0));
    if doFree {
      DisownInv(m, w);
      ReleaseInv(Disown(m, w), p);
      UnmapLeafInv(Release(Disown(m, w), p), w);
    } else {
      UnmapLeafInv(m, w);
    }
    forall q: nat | q < |m.use| && q !in OwnedPages(m, w.root, w.vpn, 1) ensures PageKept(m, n, w.root, q) {
      assert UseOk(m, q);
    }
    forall q | q in OwnedPages(m, w.root, w.vpn, 1) ensures n.use[q] == if doFree then Free else Other {
      assert UseOk(m, q);
    }
  }

  // Mappings later in the range are still there, and still own their pages.
  lemma UnmapReady(m: Mem, b: Mem, root: nat, v0: nat, i: nat, k: nat, doFree: bool)
    requires i < k && CanUnmapRun(m, root, v0, k, doFree)
    requires UnmappedRun(m, b, root, v0, i, doFree)
    ensures Va(root, v0 + i) in b.flat && (doFree ==> Owns(b, Va(root, v0 + i)))
  {
    var w := Va(root, v0 + i);
    assert !InRange(w, root, v0, i);
    if doFree {
      assert PageKept(m, b, root, m.flat[w].ppn);
    }
  }

  lemma UnmapMore(m: Mem, b: Mem, root: nat, v0: nat, i: nat, doFree: bool)
    requires Inv(b) && UnmappedRun(m, b, root, v0, i, doFree)
    requires Va(root, v0 + i) in b.flat && (doFree ==> Owns(b, Va(root, v0 + i)))
    ensures var n := UnmapOne(b, Va(root, v0 + i), doFree);
      n.at == b.at && n.det == b.det && UnmappedRun(m, n, root, v0, i + 1, doFree)
  {
    UnmapOneInv(b, Va(root, v0 + i), doFree);
    UnmapExtend(m, b, UnmapOne(b, Va(root, v0 + i), doFree), root, v0, i, doFree);
  }

  lemma UnmapExtend(m: Mem, b: Mem, n: Mem, root: nat, v0: nat, i: nat, doFree: bool)
    requires UnmappedRun(m, b, root, v0, i, doFree)
    requires n.flat == b.flat - {Va(root, v0 + i)}
    requires Kept(b, n, root, OwnedPages(b, root, v0 + i, 1)) && Disowned(b, n, root, v0 + i, 1, doFree)
    ensures UnmappedRun(m, n, root, v0, i + 1, doFree)
  {
    forall p: nat | p < |m.use| && p !in OwnedPages(m, root, v0, i + 1) ensures PageKept(m, n, root, p) {
      assert PageKept(m, b, root, p);
      assert PageKept(b, n, root, p);
    }
    forall p | p in OwnedPages(m, root, v0, i + 1) ensures p < |n.use| && n.use[p] == if doFree then Free else Other {
      if p in OwnedPages(m, root, v0, i) {
        assert b.use[p] == if doFree then Free else Other;
        assert PageKept(b, n, root, p);
      } else {
        assert PageKept(m, b, root, p);
        assert p in OwnedPages(b, root, v0 + i, 1);
      }
    }
  }

  // ---- Growing an address space by fresh user pages ----

  // What the user sees of one page: its permissions and its bytes.
  datatype UPage = UPage(perm: Perm, bytes: Bytes)

  // PTE_W | PTE_X | PTE_R | PTE_U
  const USER_PERM := Perm(true, true, true, true)

  function FreshPage(): UPage { UPage(USER_PERM, seq(PGSIZE, _ => 0)) }

  function FreshPages(k: nat): (us: seq<UPage>)
    ensures |us| == k
  {
    seq(k, _ => FreshPage())
  }

  lemma FreshMore(k: nat)
    ensures FreshPages(k) + [FreshPage()] == FreshPages(k + 1)
  {
  }

  predicate UserHas(m: Mem, w: Va, u: UPage) {
    && Owns(m, w) && m.flat[w].ppn < |m.pages|
    && m.flat[w].perm == u.perm && m.pages[m.flat[w].ppn] == Data(u.bytes)
  }

  // n is m with |us| further user pages from v0 on, on pages that were free.
  ghost predicate GrewBy(m: Mem, n: Mem, root: nat, v0: nat, us: seq<UPage>) {
    && (forall w :: w in n.flat <==> w in m.flat || InRange(w, root, v0, |us|))
    && (forall w :: w in m.flat ==> n.flat[w] == m.flat[w])
    && (forall i :: 0 <= i < |us| ==> UserHas(n, Va(root, v0 + i), us[i]))
    && Kept(m, n, root, OwnedPages(n, root, v0, |us|))
    && (forall p :: p in OwnedPages(n, root, v0, |us|) ==> p < |m.use| && m.use[p].Free?)
  }

  lemma GrewNone(m: Mem, root: nat, v0: nat)
    requires |m.use| == |m.pages|
    ensures GrewBy(m, m, root, v0, [])
  {
    assert OwnedPages(m, root, v0, 0) == {};
  }

  lemma AllocKept(m: Mem, root: nat, x: Page)
    requires Inv(m) && m.free != []
    ensures m.free[0] < |m.pages|
    ensures Kept(m, SetPage(Alloc(m), m.free[0], x), root, {m.free[0]})
  {
    AllocInv(m);
    var p, n := m.free[0], SetPage(Alloc(m), m.free[0], x);
    forall q: nat | q < |m.use| && q != p ensures PageKept(m, n, root, q) {}
  }

  // One fresh user page: kalloc, fill, mappages.
  lemma GrewOne(m: Mem, c: Mem, root: nat, v: nat, u: UPage)
    requires Inv(m) && Inv(c) && m.free != [] && Va(root, v) !in m.flat
    requires m.free[0] < |m.pages|
    requires var b := SetPage(Alloc(m), m.free[0], Data(u.bytes));
      MappedOne(b, c, root, v, m.free[0], u.perm, true, true)
    ensures GrewBy(m, c, root, v, [u])
  {
    var p := m.free[0];
    AllocInv(m);
    AllocKept(m, root, Data(u.bytes));
    var b := SetPage(Alloc(m), p, Data(u.bytes));
    KeptTrans(m, b, c, root, {p}, {p});
    forall q: nat | q < |c.use| ensures q in OwnedPages(c, root, v, 1) <==> q == p {
      assert UseOk(c, q);
    }
    assert OwnedPages(c, root, v, 1) == {p};
    assert {p} + {p} == {p};
    forall i | 0 <= i < |[u]| ensures UserHas(c, Va(root, v + i), [u][i]) {}
  }

  // The fresh page could not be mapped, and was given back.
  lemma GrewNothing(m: Mem, c: Mem, root: nat, x: Page)
    requires Inv(m) && Inv(c) && m.free != [] && m.free[0] < |m.pages|
    requires Kept(SetPage(Alloc(m), m.free[0], x), c, root, {})
    ensures m.free[0] < |c.use| && c.use[m.free[0]].Other?
    ensures Kept(m, Release(c, m.free[0]), root, {})
  {
    var p := m.free[0];
    AllocInv(m);
    AllocKept(m, root, x);
    var b := SetPage(Alloc(m), p, x);
    assert PageKept(b, c, root, p);
    KeptTrans(m, b, c, root, {p}, {});
    var n := Release(c, p);
    forall q: nat | q < |m.use| ensures PageKept(m, n, root, q) {
      if q != p { assert PageKept(m, c, root, q); }
    }
  }

  lemma GrewFail(m: Mem, b: Mem, n: Mem, root: nat, v0: nat, us: seq<UPage>)
    requires GrewBy(m, b, root, v0, us) && n.flat == b.flat && Kept(b, n, root, {})
    ensures GrewBy(m, n, root, v0, us)
  {
    forall i | 0 <= i < |us| ensures UserHas(n, Va(root, v0 + i), us[i]) {
      assert UserHas(b, Va(root, v0 + i), us[i]);
      assert PageKept(b, n, root, b.flat[Va(root, v0 + i)].ppn);
    }
    SameOwned(b, n, root, v0, |us|);
    KeptTrans(m, b, n, root, OwnedPages(b, root, v0, |us|), {});
    assert OwnedPages(b, root, v0, |us|) + {} == OwnedPages(n, root, v0, |us|);
  }

  lemma SameOwned(b: Mem, n: Mem, root: nat, v0: nat, k: nat)
    requires Kept(b, n, root, {})
    ensures OwnedPages(b, root, v0, k) == OwnedPages(n, root, v0, k)
  {
    forall p: nat | p < |b.use| ensures p in OwnedPages(b, root, v0, k) <==> p in OwnedPages(n, root, v0, k) {
      assert PageKept(b, n, root, p);
    }
  }

  lemma GrewMore(m: Mem, b: Mem, n: Mem, root: nat, v0: nat, us: seq<UPage>, u: UPage)
    requires GrewBy(m, b, root, v0, us) && GrewBy(b, n, root, v0 + |us|, [u])
    ensures GrewBy(m, n, root, v0, us + [u])
  {
    var k := |us|;
    forall i | 0 <= i < k + 1 ensures UserHas(n, Va(root, v0 + i), (us + [u])[i]) {
      if i < k {
        var w := Va(root, v0 + i);
        assert UserHas(b, w, us[i]);
        assert PageKept(b, n, root, b.flat[w].ppn);
      } else {
        assert UserHas(n, Va(root, v0 + k + 0), [u][0]);
      }
    }
    OwnedMore(b, n, root, v0, k);
    KeptTrans(m, b, n, root, OwnedPages(b, root, v0, k), OwnedPages(n, root, v0 + k, 1));
    forall p | p in OwnedPages(n, root, v0 + k, 1) ensures p < |m.use| && m.use[p].Free? {
      assert b.use[p].Free?;
      if p !in OwnedPages(b, root, v0, k) { assert PageKept(m, b, root, p); }
    }
  }

  lemma OwnedMore(b: Mem, n: Mem, root: nat, v0: nat, k: nat)
    requires Kept(b, n, root, OwnedPages(n, root, v0 + k, 1))
    requires forall p :: p in OwnedPages(n, root, v0 + k, 1) ==> p < |b.use| && b.use[p].Free?
    ensures OwnedPages(n, root, v0, k + 1) == OwnedPages(b, root, v0, k) + OwnedPages(n, root, v0 + k, 1)
  {
    var all, some, last := OwnedPages(n, root, v0, k + 1), OwnedPages(b, root, v0, k), OwnedPages(n, root, v0 + k, 1);
    forall p: nat | p < |b.use| ensures p in all <==> p in some + last {
      if p !in last { assert PageKept(b, n, root, p); }
    }
  }

  // The pages just grown can be unmapped and freed again.
  lemma GrewCanUndo(m: Mem, b: Mem, root: nat, v0: nat, us: seq<UPage>)
    requires GrewBy(m, b, root, v0, us)
    ensures CanUnmapRun(b, root, v0, |us|, true)
  {
    forall v: nat | v0 <= v < v0 + |us| ensures Va(root, v) in b.flat && Owns(b, Va(root, v)) {
      assert UserHas(b, Va(root, v0 + (v - v0)), us[v - v0]);
    }
  }

  lemma GrewUndone(m: Mem, b: Mem, n: Mem, root: nat, v0: nat, us: seq<UPage>)
    requires GrewBy(m, b, root, v0, us) && UnmappedRun(b, n, root, v0, |us|, true)
    requires forall w :: w in m.flat ==> !InRange(w, root, v0, |us|)
    ensures n.flat == m.flat && Kept(m, n, root, {})
  {
    var k := |us|;
    forall p: nat | p < |m.use| ensures PageKept(m, n, root, p) {
      if p in OwnedPages(b, root, v0, k) {
        assert n.use[p] == Free && m.use[p].Free?;
      } else {
        assert PageKept(m, b, root, p);
        assert PageKept(b, n, root, p);
      }
    }
    assert forall w :: w in n.flat <==> w in m.flat;
  }

  // ---- Copying an address space ----

  predicate HasUser(m: Mem, w: Va) {
    Owns(m, w) && m.flat[w].ppn < |m.pages| && m.pages[m.flat[w].ppn].Data?
  }

  function UserView(m: Mem, w: Va): UPage
    requires HasUser(m, w)
  {
    UPage(m.flat[w].perm, m.pages[m.flat[w].ppn].bytes)
  }

  predicate UserSpace(m: Mem, root: nat, k: nat) {
    forall v: nat {:trigger Va(root, v)} :: v < k ==> HasUser(m, Va(root, v))
  }

  // The first k user pages, as the user sees them.
  function UserPages(m: Mem, root: nat, k: nat): seq<UPage>
    requires UserSpace(m, root, k)
  {
    seq(k, v requires 0 <= v < k => UserView(m, Va(root, v)))
  }

  // Growing one address space leaves the pages of another alone.
  lemma OtherSpaceKept(m: Mem, n: Mem, root: nat, v0: nat, us: seq<UPage>, w: Va)
    requires GrewBy(m, n, root, v0, us) && HasUser(m, w) && w.root != root
    ensures HasUser(n, w) && UserView(n, w) == UserView(m, w)
  {
    var p := m.flat[w].ppn;
    assert p !in OwnedPages(n, root, v0, |us|);
    assert PageKept(m, n, root, p);
  }

  // What uvmcopy asks: the parent's pages are mapped, the child's are not.
  predicate CanCopy(m: Mem, parent: nat, child: nat, k: nat) {
    && parent != child && k <= MAXVPN && UserSpace(m, parent, k)
    && forall w :: w in m.flat ==> !InRange(w, child, 0, k)
  }

  lemma CopyReady(m: Mem, b: Mem, parent: nat, child: nat, i: nat, k: nat)
    requires CanCopy(m, parent, child, k) && i < k
    requires GrewBy(m, b, child, 0, UserPages(m, parent, i))
    ensures HasUser(b, Va(parent, i)) && HasUser(m, Va(parent, i))
    ensures UserView(b, Va(parent, i)) == UserView(m, Va(parent, i))
    ensures Va(child, i) !in b.flat
    ensures forall w :: w in m.flat ==> !InRange(w, child, 0, i)
  {
    var w := Va(parent, i);
    assert HasUser(m, w);
    OtherSpaceKept(m, b, child, 0, UserPages(m, parent, i), w);
    assert !InRange(Va(child, i), child, 0, i) && InRange(Va(child, i), child, 0, k);
  }

  lemma CopyMore(m: Mem, b: Mem, n: Mem, parent: nat, child: nat, i: nat)
    requires UserSpace(m, parent, i + 1)
    requires GrewBy(m, b, child, 0, UserPages(m, parent, i))
    requires GrewBy(b, n, child, i, [UserView(m, Va(parent, i))])
    ensures GrewBy(m, n, child, 0, UserPages(m, parent, i + 1))
  {
    var us, u := UserPages(m, parent, i), UserView(m, Va(parent, i));
    GrewMore(m, b, n, child, 0, us, u);
    assert us + [u] == UserPages(m, parent, i + 1);
  }

  /** Fork's memory copy: parent and child see the same bytes and permissions in
      every page, the parent's are unchanged, and no page of the one is on a physical
      page of the other. */
  lemma ForkCopies(m: Mem, n: Mem, parent: nat, child: nat, k: nat, v: nat)
    requires parent != child && v < k && UserSpace(m, parent, k)
    requires GrewBy(m, n, child, 0, UserPages(m, parent, k))
    ensures HasUser(n, Va(parent, v)) && HasUser(n, Va(child, v))
    ensures UserView(n, Va(child, v)) == UserView(n, Va(parent, v)) == UserView(m, Va(parent, v))
    ensures forall u: nat {:trigger Va(parent, u)} :: u < k ==>
      HasUser(n, Va(parent, u)) && n.flat[Va(child, v)].ppn != n.flat[Va(parent, u)].ppn
  {
    forall u: nat | u < k
      ensures HasUser(n, Va(parent, u)) && UserView(n, Va(parent, u)) == UserView(m, Va(parent, u))
    {
      assert HasUser(m, Va(parent, u));
      OtherSpaceKept(m, n, child, 0, UserPages(m, parent, k), Va(parent, u));
    }
    assert UserHas(n, Va(child, 0 + v), UserPages(m, parent, k)[v]);
  }
}
