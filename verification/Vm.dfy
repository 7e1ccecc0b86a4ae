/** kernel/vm.c and kernel/kalloc.c in place: page-table entries and free-list links
    are written into an array of physical pages, and every operation says which
    mappings and which pages it touched. */
module Vm {
  import opened Common
  import opened PageTable
  import opened VmSpec
  import opened TearDown
  import opened UserMem
  import opened VmBytes

  class Machine {
    const lo: nat
    const mem: array<Page>
    var freelist: nat            // 0 is the null pointer
    ghost var g: Mem             // memory together with who owns every page

    ghost predicate Valid()
      reads this, mem
    {
      && Inv(g) && g.pages == mem[..] && g.lo == lo
      && freelist == if g.free == [] then 0 else g.free[0]
    }

    // The machine before kinit: managed pages from lo on, none of them free yet.
    constructor (lo: nat, pages: seq<Page>)
      requires 1 <= lo
      ensures Valid() && this.lo == lo && mem[..] == pages && fresh(mem)
      ensures g.free == [] && g.at == map[] && g.flat == map[] && g.det == {}
      ensures forall p :: 0 <= p < |pages| ==> g.use[p] == if lo <= p then Other else Unmanaged
    {
      this.lo := lo;
      mem := new Page[|pages|](i requires 0 <= i < |pages| => pages[i]);
      freelist := 0;
      g := Mem(lo, pages, [], seq(|pages|, p => if lo <= p then Other else Unmanaged), map[], map[], {});
      new;
      assert mem[..] == pages;
      forall p: nat | p < |g.use| ensures UseOk(g, p) {}
    }

    /** kalloc: the first free page, junk-filled; 0 exactly when none is free. */
    method Kalloc() returns (r: nat)
      requires Valid()
      modifies this`freelist, this`g, mem
      ensures Valid()
      ensures r == 0 <==> old(g).free == []
      ensures r == 0 ==> g == old(g)
      ensures r != 0 ==> r == old(g).free[0] && r < |old(g).pages| && |old(g).use| == |old(g).pages|
      ensures r != 0 ==> g == Alloc(old(g))
      ensures r != 0 ==> r < |g.use| && g.use[r].Other? && Managed(g, r) && old(g).use[r].Free?
    {
      ghost var m := g;
      if m.free != [] { AllocInv(m); }
      r := freelist;
      if r != 0 {
        assert LinkOk(m, 0);
        freelist := mem[r].next;
        mem[r] := Data(seq(PGSIZE, _ => 5));
        g := Alloc(m);
      }
    }

    /** kfree of a page the caller owns. */
    method Kfree(p: nat)
      requires Valid() && p < mem.Length && g.use[p].Other?
      modifies this`freelist, this`g, mem
      ensures Valid() && g == Release(old(g), p)
    {
      ghost var m := g;
      ReleaseInv(m, p);
      mem[p] := Run(freelist);
      freelist := p;
      g := Release(m, p);
    }

    // freerange(end, PHYSTOP), called once at boot on pages nobody uses.
    method Freerange()
      requires Valid() && g.free == [] && forall p :: lo <= p < mem.Length ==> g.use[p].Other?
      modifies this`freelist, this`g, mem
      ensures Valid() && forall p :: lo <= p < mem.Length ==> g.use[p].Free?
      ensures g.at == old(g).at && g.flat == old(g).flat && g.det == old(g).det
    {
      var p := lo;
      while p < mem.Length
        invariant Valid() && lo <= p
        invariant forall q :: lo <= q < p && q < mem.Length ==> g.use[q].Free?
        invariant forall q :: p <= q < mem.Length ==> g.use[q].Other?
        invariant g.at == old(g).at && g.flat == old(g).flat && g.det == old(g).det
      {
        Kfree(p);
        p := p + 1;
      }
    }

    // walk's allocation: a zeroed page-table page for slot s, stored in entry i of
    // its parent table t. 0 means out of memory.
    method NewTable(t: nat, i: nat, ghost s: Slot) returns (c: nat)
      requires Valid() && g.det == {} && ShapeOk(s) && s.level < 2 && s !in g.at && Parent(s) in g.at
      requires t == g.at[Parent(s)] && i == s.prefix % 512 && !Entry(g, Parent(s), i).v
      modifies this`freelist, this`g, mem
      ensures Valid() && g.det == {}
      ensures g.flat == old(g).flat && Kept(old(g), g, s.root, {})
      ensures c == 0 <==> old(g).free == []
      ensures c == 0 ==> g == old(g)
      ensures c != 0 ==> g.at == old(g).at[s := c] && |g.free| + 1 == |old(g).free|
    {
      ghost var m := g;
      c := Kalloc();
      if c != 0 {
        ghost var m1 := g;
        SetPageInv(m1, c, Table(seq(512, _ => ZERO)));
        mem[c] := Table(seq(512, _ => ZERO));
        ghost var m2 := SetPage(m1, c, Table(seq(512, _ => ZERO)));
        TableNotOther(m1, Parent(s), c);
        assert Entry(m2, Parent(s), i) == Entry(m, Parent(s), i);
        LinkTableInv(m2, s, c);
        mem[t] := Table(mem[t].ptes[i := Pte(true, c, NOPERM)]);
        g := LinkTable(m2, s, c);
        NewTableKept(m, s);
      }
    }

    /** walk: the leaf table for va, creating missing tables when alloc is set; the
        entry is number vpn % 512 of it. 0 is walk's null result. */
    method Walk(root: nat, vpn: nat, alloc: bool) returns (t: nat)
      requires Valid() && g.det == {} && Space(g, root) && vpn < MAXVPN
      modifies this`freelist, this`g, mem
      ensures Valid() && g.det == {}
      ensures g.flat == old(g).flat && Kept(old(g), g, root, {})
      ensures t != 0 ==> SlotFor(Va(root, vpn), 0) in g.at && t == g.at[SlotFor(Va(root, vpn), 0)]
      ensures !alloc ==> g == old(g) && (t == 0 <==> SlotFor(Va(root, vpn), 0) !in g.at)
      ensures alloc && t == 0 ==> g.free == [] && Va(root, vpn) !in g.flat && |old(g).free| < 2
      ensures |g.free| <= |old(g).free| <= |g.free| + 2
    {
      ghost var m := g;
      var va := Va(root, vpn);
      assert SlotOk(m, SlotFor(va, 2));
      t := root;
      var level := 2;
      while level > 0
        invariant 0 <= level <= 2 && Valid() && g.det == {} && g.flat == m.flat
        invariant Kept(m, g, root, {})
        invariant SlotFor(va, level) in g.at && t == g.at[SlotFor(va, level)] && t != 0
        invariant !alloc ==> g == m
        invariant |g.free| <= |m.free| <= |g.free| + 2 - level
      {
        TableLinked(g, va, level);
        SlotForChild(va, level);
        var pte := mem[t].ptes[Index(va, level)];
        if pte.v {
          t := pte.ppn;
        } else {
          NotMapped(g, va, level);
          if !alloc { return 0; }
          ghost var b := g;
          t := NewTable(t, Index(va, level), SlotFor(va, level - 1));
          KeptTrans(m, b, g, root, {}, {});
          if t == 0 { return; }
        }
        level := level - 1;
      }
    }

    // One turn of mappages' loop. With own set, page p is handed to the mapping.
    method MapOne(root: nat, v: nat, p: nat, perm: Perm, ghost own: bool) returns (ok: bool)
      requires Valid() && g.det == {} && Space(g, root) && perm.Leaf()
      requires v < MAXVPN && Va(root, v) !in g.flat && (own ==> p < mem.Length && g.use[p].Other? && mem[p].Data?)
      modifies this`freelist, this`g, mem
      ensures Valid() && g.det == {}
      ensures MappedOne(old(g), g, root, v, p, perm, own, ok)
      ensures !ok ==> g.free == [] && |old(g).free| < 2
      ensures |g.free| <= |old(g).free| <= |g.free| + 2
    {
      ghost var m := g;
      ghost var va, leaf := Va(root, v), Leaf(p, perm);
      var t := Walk(root, v, true);
      if t == 0 { return false; }
      ghost var c := g;
      assert own ==> PageKept(m, c, root, p);
      MapLeafInv(c, va, leaf, own);
      MapLeafKept(c, va, leaf, own);
      mem[t] := Table(mem[t].ptes[v % 512 := Pte(true, p, perm)]);
      g := MapLeaf(c, va, leaf, own);
      KeptTrans(m, c, g, root, {}, if own then {p} else {});
      assert {} + {p} == {p};
      return true;
    }

    // The same, as the next page of a run that started in m.
    method MapNext(root: nat, a: nat, p: nat, perm: Perm, ghost own: bool,
                   ghost m: Mem, ghost v0: nat, ghost p0: nat, ghost k: nat) returns (ok: bool)
      requires Valid() && g.det == {} && Space(g, root) && perm.Leaf()
      requires a == v0 + k && p == p0 + k && a < MAXVPN
      requires CanMapRun(m, root, v0, p0, k + 1, own) && MappedRun(m, g, root, v0, p0, perm, k, own)
      modifies this`freelist, this`g, mem
      ensures Valid() && g.det == {} && Space(g, root)
      ensures MappedRun(m, g, root, v0, p0, perm, if ok then k + 1 else k, own)
      ensures !ok ==> g.free == []
    {
      ghost var b := g;
      MapReady(m, b, root, v0, p0, perm, k, own);
      ok := MapOne(root, a, p, perm, own);
      ghost var n := g;
      assert MappedOne(b, n, root, v0 + k, p0 + k, perm, own, ok);
      MapExtend(m, b, n, root, v0, p0, perm, k, own, ok);
    }

    // mappages' loop, on page numbers: from page v0 to page last.
    method MapPages(root: nat, v0: nat, last: nat, p0: nat, perm: Perm, ghost own: bool)
      returns (r: int, ghost k: nat)
      requires Valid() && g.det == {} && Space(g, root) && perm.Leaf()
      requires v0 <= last < MAXVPN && CanMapRun(g, root, v0, p0, last - v0 + 1, own)
      modifies this`freelist, this`g, mem
      ensures Valid() && g.det == {}
      ensures k <= last - v0 + 1
      ensures r == if k == last - v0 + 1 then 0 else -1
      ensures r == -1 ==> g.free == []
      ensures MappedRun(old(g), g, root, v0, p0, perm, k, own)
    {
      hide Inv, MappedRun, CanMapRun;
      ghost var m := g;
      InvSized(m);
      var a, p := v0, p0;
      k := 0;
      MappedNone(m, root, v0, p0, perm, own);
      while true
        invariant Valid() && g.det == {} && Space(g, root)
        invariant a == v0 + k && p == p0 + k && a <= last
        invariant MappedRun(m, g, root, v0, p0, perm, k, own)
        decreases last - a
      {
        CanMapLess(m, root, v0, p0, k + 1, last - v0 + 1, own);
        var ok := MapNext(root, a, p, perm, own, m, v0, p0, k);
        if !ok { return -1, k; }
        k := k + 1;
        if a == last { return 0, k; }
        a := a + 1;
        p := p + 1;
      }
    }

    /** mappages: adds exactly the requested pages, or a prefix of them when memory
        for page tables runs out. With own set, the pages handed over become owned
        by their mappings. */
    method Mappages(root: nat, va: nat, size: nat, pa: nat, perm: Perm, ghost own: bool)
      returns (r: int, ghost k: nat)
      requires Valid() && g.det == {} && Space(g, root) && perm.Leaf()
      requires size >= 1 && PgDown(va + size - 1) < MAXVPN
      requires CanMapRun(g, root, PgDown(va), PgDown(pa), PgDown(va + size - 1) - PgDown(va) + 1, own)
      modifies this`freelist, this`g, mem
      ensures Valid() && g.det == {}
      ensures k <= PgDown(va + size - 1) - PgDown(va) + 1
      ensures r == if k == PgDown(va + size - 1) - PgDown(va) + 1 then 0 else -1
      ensures r == -1 ==> g.free == []
      ensures MappedRun(old(g), g, root, PgDown(va), PgDown(pa), perm, k, own)
      ensures r == 0 ==> MapsRange(old(g), g, root, va, size, pa, perm)
    {
      r, k := MapPages(root, PgDown(va), PgDown(va + size - 1), PgDown(pa), perm, own);
      if r == 0 { MapsBytes(old(g), g, root, va, size, pa, perm); }
    }

    // One turn of uvmunmap's loop.
    method UnmapPage(root: nat, v: nat, doFree: bool)
      requires Valid() && g.det == {} && Space(g, root) && Va(root, v) in g.flat
      requires doFree ==> Owns(g, Va(root, v))
      modifies this`freelist, this`g, mem
      ensures Valid() && g == UnmapOne(old(g), Va(root, v), doFree)
    {
      ghost var w, b := Va(root, v), g;
      assert FlatOk(b, w);
      var t := Walk(root, v, false);
      assert EntryOk(b, SlotFor(w, 0), v % 512);
      var pte := mem[t].ptes[v % 512];
      assert t == b.at[SlotFor(w, 0)] && SlotOk(b, SlotFor(w, 0));
      UnmapOneInv(b, w, doFree);
      if doFree {
        DisownInv(b, w);
        g := Disown(b, w);
        Kfree(pte.ppn);
      }
      mem[t] := Table(mem[t].ptes[v % 512 := ZERO]);
      g := UnmapOne(b, w, doFree);
    }

    // The same, as the next page of a run that started in m.
    method UnmapNext(root: nat, v: nat, doFree: bool, ghost m: Mem, ghost v0: nat, ghost i: nat, ghost k: nat)
      requires Valid() && g.det == {} && Space(g, root) && v == v0 + i && i < k
      requires CanUnmapRun(m, root, v0, k, doFree) && UnmappedRun(m, g, root, v0, i, doFree)
      modifies this`freelist, this`g, mem
      ensures Valid() && g.det == {} && g.at == old(g).at
      ensures UnmappedRun(m, g, root, v0, i + 1, doFree)
    {
      ghost var b := g;
      UnmapReady(m, b, root, v0, i, k, doFree);
      UnmapPage(root, v, doFree);
      UnmapMore(m, b, root, v0, i, doFree);
    }

    // uvmunmap's loop, on page numbers.
    method UnmapPages(root: nat, v0: nat, npages: nat, doFree: bool)
      requires Valid() && g.det == {} && Space(g, root)
      requires CanUnmapRun(g, root, v0, npages, doFree)
      modifies this`freelist, this`g, mem
      ensures Valid() && g.det == {} && g.at == old(g).at
      ensures UnmappedRun(old(g), g, root, v0, npages, doFree)
    {
      ghost var m := g;
      UnmappedNone(m, root, v0, doFree);
      for i := 0 to npages
        invariant Valid() && g.det == {} && g.at == m.at
        invariant UnmappedRun(m, g, root, v0, i, doFree)
      {
        UnmapNext(root, v0 + i, doFree, m, v0, i, npages);
      }
    }

    /** uvmunmap: removes exactly npages mappings, freeing their pages if asked. */
    method Uvmunmap(root: nat, va: nat, npages: nat, doFree: bool)
      requires Valid() && g.det == {} && Space(g, root) && va % 4096 == 0
      requires CanUnmapRun(g, root, PgDown(va), npages, doFree)
      modifies this`freelist, this`g, mem
      ensures Valid() && g.det == {} && g.at == old(g).at
      ensures UnmappedRun(old(g), g, root, PgDown(va), npages, doFree)
      ensures forall w :: w in g.flat <==> w in old(g).flat && !Between(w, root, va, va + npages * 4096)
    {
      PgDownIs(va);
      UnmapPages(root, PgDown(va), npages, doFree);
    }

    // The body of uvmalloc's and uvmcopy's loops: a fresh page holding x, mapped at v;
    // on failure the page is given back and no mapping has changed. It fails only when
    // the page and two table pages are not to be had.
    method NewUserPage(root: nat, v: nat, x: Bytes, perm: Perm) returns (ok: bool)
      requires Valid() && g.det == {} && Space(g, root) && perm.Leaf()
      requires v < MAXVPN && Va(root, v) !in g.flat
      modifies this`freelist, this`g, mem
      ensures Valid() && g.det == {}
      ensures ok ==> GrewBy(old(g), g, root, v, [UPage(perm, x)]) && |g.free| < |old(g).free| <= |g.free| + 3
      ensures !ok ==> g.flat == old(g).flat && Kept(old(g), g, root, {}) && |old(g).free| < 3
    {
      ghost var m := g;
      var p := Kalloc();
      if p == 0 {
        return false;
      }
      SetPageInv(g, p, Data(x));
      mem[p] := Data(x);
      g := SetPage(g, p, Data(x));
      ok := MapOne(root, v, p, perm, true);
      if ok {
        GrewOne(m, g, root, v, UPage(perm, x));
      } else {
        GrewNothing(m, g, root, Data(x));
        Kfree(p);
      }
    }

    // uvmdealloc's call of uvmunmap, undoing what was grown since m.
    method Undo(root: nat, v0: nat, k: nat, ghost m: Mem, ghost us: seq<UPage>)
      requires Valid() && g.det == {} && Space(g, root)
      requires k == |us| && GrewBy(m, g, root, v0, us)
      requires forall w :: w in m.flat ==> !InRange(w, root, v0, k)
      modifies this`freelist, this`g, mem
      ensures Valid() && g.det == {} && g.flat == m.flat && Kept(m, g, root, {})
    {
      GrewCanUndo(m, g, root, v0, us);
      ghost var b := g;
      UnmapPages(root, v0, k, true);
      GrewUndone(m, b, g, root, v0, us);
    }

    // uvmalloc's loop, on page numbers; false after undoing everything.
    method AllocPages(root: nat, v0: nat, v1: nat) returns (ok: bool)
      requires Valid() && g.det == {} && Space(g, root) && (v1 <= MAXVPN || v0 + |g.free| < MAXVPN)
      requires v0 <= v1 && forall w :: w in g.flat ==> !InRange(w, root, v0, v1 - v0)
      modifies this`freelist, this`g, mem
      ensures Valid() && g.det == {}
      ensures ok ==> GrewBy(old(g), g, root, v0, FreshPages(v1 - v0))
      ensures !ok ==> g.flat == old(g).flat && Kept(old(g), g, root, {})
      ensures !ok ==> |old(g).free| < 3 * (v1 - v0)
      ensures v1 > MAXVPN ==> !ok
    {
      hide Inv, PageKept, OwnedPages, UserHas, FreshPages;
      ghost var m := g;
      InvSized(m);
      GrewNone(m, root, v0);
      for v := v0 to v1
        invariant Valid() && g.det == {} && Space(g, root)
        invariant |g.free| + v - v0 <= |m.free| <= |g.free| + 3 * (v - v0)
        invariant GrewBy(m, g, root, v0, FreshPages(v - v0))
      {
        ghost var b := g;
        assert !InRange(Va(root, v), root, v0, v - v0);
        assert InRange(Va(root, v), root, v0, v1 - v0);
        ok := NewUserPage(root, v, seq(PGSIZE, _ => 0), USER_PERM);
        if !ok {
          GrewFail(m, b, g, root, v0, FreshPages(v - v0));
          Undo(root, v0, v - v0, m, FreshPages(v - v0));
          return false;
        }
        GrewMore(m, b, g, root, v0, FreshPages(v - v0), FreshPage());
        FreshMore(v - v0);
      }
      return true;
    }

    /** uvmalloc: grows the space by zeroed user pages up to newsz, or, with fewer than
        three free pages for each, changes no mapping and keeps no leaf page. A size beyond
        MAXVA is turned away so, there being less memory than addresses. */
    method Uvmalloc(root: nat, oldsz: nat, newsz: nat) returns (r: nat, ghost ok: bool)
      requires Valid() && g.det == {} && Space(g, root)
      requires newsz <= MAXVPN * 4096 || oldsz + (|g.free| + 1) * 4096 <= MAXVPN * 4096
      requires forall w :: w in g.flat ==> !Between(w, root, oldsz, newsz)
      modifies this`freelist, this`g, mem
      ensures Valid() && g.det == {}
      ensures newsz < oldsz ==> r == oldsz && g == old(g)
      ensures newsz >= oldsz ==> PgUp(oldsz) <= PgUp(newsz) && r == if ok then newsz else 0
      ensures newsz >= oldsz && ok ==> GrewTo(old(g), g, root, oldsz, newsz)
      ensures newsz >= oldsz && ok ==>
        GrewBy(old(g), g, root, PgUp(oldsz), FreshPages(PgUp(newsz) - PgUp(oldsz)))
      ensures newsz >= oldsz && !ok ==> g.flat == old(g).flat && Kept(old(g), g, root, {})
      ensures newsz >= oldsz && newsz > MAXVPN * 4096 ==> !ok
      ensures newsz >= oldsz && !ok ==> |old(g).free| < 3 * (PgUp(newsz) - PgUp(oldsz))
    {
      if newsz < oldsz { return oldsz, true; }
      PgUpMono(oldsz, newsz);
      BetweenAll(root, oldsz, newsz);
      PgUpIs(newsz, MAXVPN);
      var done := AllocPages(root, PgUp(oldsz), PgUp(newsz));
      if done { GrewBytes(old(g), g, root, oldsz, newsz); }
      ok := done;
      r := if done then newsz else 0;
    }

    /** uvmdealloc: unmaps and frees exactly the pages between the two sizes. */
    method Uvmdealloc(root: nat, oldsz: nat, newsz: nat) returns (r: nat)
      requires Valid() && g.det == {} && Space(g, root)
      requires forall v: nat {:trigger Va(root, v)} :: newsz <= v * 4096 < oldsz ==> Owns(g, Va(root, v))
      modifies this`freelist, this`g, mem
      ensures Valid() && g.det == {} && g.at == old(g).at
      ensures newsz >= oldsz ==> r == oldsz && g == old(g)
      ensures newsz < oldsz ==> r == newsz
      ensures newsz < oldsz ==> CutTo(old(g), g, root, oldsz, newsz)
      ensures newsz < oldsz ==> UnmappedRun(old(g), g, root, PgUp(newsz), PgUp(oldsz) - PgUp(newsz), true)
    {
      if newsz >= oldsz { return oldsz; }
      PgUpMono(newsz, oldsz);
      forall v: nat | PgUp(newsz) <= v < PgUp(oldsz) ensures Owns(g, Va(root, v)) {
        BetweenIs(Va(root, v), root, newsz, oldsz);
      }
      if PgUp(newsz) < PgUp(oldsz) {
        UnmapPages(root, PgUp(newsz), PgUp(oldsz) - PgUp(newsz), true);
      } else {
        UnmappedNone(g, root, PgUp(newsz), true);
      }
      CutBytes(old(g), g, root, oldsz, newsz);
      return newsz;
    }

    // uvmcopy's loop, on page numbers.
    method CopyPages(parent: nat, child: nat, npages: nat) returns (ok: bool)
      requires Valid() && g.det == {} && Space(g, parent) && Space(g, child)
      requires CanCopy(g, parent, child, npages)
      modifies this`freelist, this`g, mem
      ensures Valid() && g.det == {}
      ensures ok ==> GrewBy(old(g), g, child, 0, UserPages(old(g), parent, npages))
      ensures !ok ==> g.flat == old(g).flat && Kept(old(g), g, child, {}) && |old(g).free| < 3 * npages
    {
      hide Inv, PageKept, OwnedPages, UserHas;
      ghost var m := g;
      InvSized(m);
      GrewNone(m, child, 0);
      for i := 0 to npages
        invariant |m.free| <= |g.free| + 3 * i
        invariant Valid() && g.det == {} && Space(g, parent) && Space(g, child)
        invariant GrewBy(m, g, child, 0, UserPages(m, parent, i))
      {
        ghost var b, us := g, UserPages(m, parent, i);
        CopyReady(m, b, parent, child, i, npages);
        var pte := ReadLeaf(parent, i);
        ok := NewUserPage(child, i, mem[pte.ppn].bytes, pte.perm);
        if !ok {
          GrewFail(m, b, g, child, 0, us);
          Undo(child, 0, i, m, us);
          return;
        }
        CopyMore(m, b, g, parent, child, i);
      }
      return true;
    }

    /** uvmcopy: the child gets a copy of every user page below sz on its own pages;
        on failure, which takes fewer than three free pages for each, no mapping has
        changed and every leaf page taken is free again. */
    method Uvmcopy(parent: nat, child: nat, sz: nat) returns (r: int)
      requires Valid() && g.det == {} && Space(g, parent) && Space(g, child)
      requires CanCopyTo(g, parent, child, sz)
      modifies this`freelist, this`g, mem
      ensures Valid() && g.det == {}
      ensures r == 0 || r == -1
      ensures r == 0 ==> CopiedTo(old(g), g, parent, child, sz)
      ensures CanCopy(old(g), parent, child, PgUp(sz))
      ensures r == 0 ==> GrewBy(old(g), g, child, 0, UserPages(old(g), parent, PgUp(sz)))
      ensures r == -1 ==> g.flat == old(g).flat && Kept(old(g), g, child, {}) && |old(g).free| < 3 * PgUp(sz)
    {
      CanCopyIs(g, parent, child, sz);
      var ok := CopyPages(parent, child, PgUp(sz));
      if ok { CopyBytes(old(g), g, parent, child, sz); }
      r := if ok then 0 else -1;
    }

    /** freewalk: frees the table page of slot s and every table page below it, and
        nothing else. No mapping of the space is left, so "freewalk: leaf" cannot
        happen. */
    method Freewalk(t: nat, ghost s: Slot)
      requires Valid() && CanFree(g, s) && t == g.at[s]
      modifies this`freelist, this`g, mem
      ensures Valid() && Freed(old(g), g, UnderSet(old(g), s), s)
      decreases s.level
    {
      ghost var m := g;
      FreedNothing(m, s);
      for i := 0 to 512
        invariant Valid() && t == m.at[s] && AtEntry(m, g, s, i)
      {
        ghost var b := g;
        EntryFacts(m, b, s, i);
        var pte := mem[t].ptes[i];
        if pte.v && !pte.perm.Leaf() {
          ghost var c := Child(s, i);
          DetachInv(m, b, s, i);
          g := Detach(b, c);
          Freewalk(pte.ppn, c);
          ghost var d := g;
          ClearEntryInv(m, b, d, s, i);
          mem[t] := Table(mem[t].ptes[i := ZERO]);
          g := ClearEntry(d, s, i);
        } else if pte.v {
          assert false;
        } else {
          NothingBelow(m, b, s, i);
        }
      }
      RemoveTableInv(m, g, s);
      g := RemoveTable(g, s);
      Kfree(t);
    }

    /** uvmfree: every user page below sz and every table page of the space becomes
        free; every other page keeps its owner and, unless it was free, its contents, and
        every mapping of another space its translation. */
    method Uvmfree(root: nat, sz: nat)
      requires Valid() && g.det == {} && Space(g, root)
      requires forall v: nat {:trigger Va(root, v)} :: v * 4096 < sz ==> Owns(g, Va(root, v))
      requires forall w :: w in g.flat && w.root == root ==> w.vpn * 4096 < sz
      modifies this`freelist, this`g, mem
      ensures Valid() && g.det == {} && !Space(g, root)
      ensures forall w :: w in g.flat <==> w in old(g).flat && w.root != root
      ensures |g.use| == |old(g).use|
      ensures forall p :: 0 <= p < |g.use| ==>
        g.use[p] == if BelongsTo(old(g).use[p], root) then Free else old(g).use[p]
      ensures forall w :: w in g.flat ==> g.flat[w] == old(g).flat[w]
      ensures |g.pages| == |old(g).pages| == |old(g).use|
      ensures forall p :: 0 <= p < |g.pages| && !BelongsTo(old(g).use[p], root) && !old(g).use[p].Free? ==>
        g.pages[p] == old(g).pages[p]
    {
      ghost var m := g;
      PgUpAll(sz);
      forall v: nat | v < PgUp(sz) ensures Owns(m, Va(root, v)) { PgUpIs(sz, v); }
      forall w | w in m.flat && w.root == root ensures w.vpn < PgUp(sz) { PgUpIs(sz, w.vpn); }
      if sz > 0 {
        UnmapPages(root, 0, PgUp(sz), true);
      } else {
        UnmappedNone(m, root, 0, true);
      }
      ghost var b := g;
      assert SlotOk(b, Slot(root, 2, 0));
      Freewalk(root, Slot(root, 2, 0));
      UvmfreeDone(m, b, g, root, PgUp(sz));
    }

    // walk(pagetable, va, 0) and the load of the entry, for a mapped page.
    method ReadLeaf(root: nat, v: nat) returns (pte: Pte)
      requires Valid() && g.det == {} && Space(g, root) && Va(root, v) in g.flat
      modifies this`freelist, this`g, mem
      ensures Valid() && g == old(g)
      ensures pte == Pte(true, g.flat[Va(root, v)].ppn, g.flat[Va(root, v)].perm) && pte.perm.Leaf()
    {
      assert FlatOk(g, Va(root, v));
      var t := Walk(root, v, false);
      assert EntryOk(g, SlotFor(Va(root, v), 0), v % 512);
      pte := mem[t].ptes[v % 512];
    }

    /** uvmcreate: an address space with no mappings, or 0 when out of memory. */
    method Uvmcreate() returns (root: nat)
      requires Valid() && g.det == {}
      modifies this`freelist, this`g, mem
      ensures Valid() && g.det == {} && g.flat == old(g).flat
      ensures root == 0 <==> old(g).free == []
      ensures root == 0 ==> g == old(g)
      ensures root != 0 ==> !Space(old(g), root) && g.at == old(g).at[Slot(root, 2, 0) := root]
      ensures root != 0 ==> forall w :: w in g.flat ==> w.root != root
      ensures root != 0 ==> root < |old(g).use| == |old(g).pages| && g.free == old(g).free[1..]
      ensures root != 0 ==> g.use == old(g).use[root := TablePage(Slot(root, 2, 0))]
      ensures root != 0 ==> g.pages == old(g).pages[root := Table(seq(512, _ => ZERO))]
    {
      ghost var m := g;
      root := Kalloc();
      if root != 0 {
        var zeros := Table(seq(512, _ => ZERO));
        forall w | w in m.flat ensures w.root != root { FreshRootEmpty(m, root, w); }
        FreshRoot(m, root);
        SetPageInv(g, root, zeros);
        mem[root] := zeros;
        g := SetPage(g, root, zeros);
        AddRootInv(g, root);
        g := AddRoot(g, root);
      }
    }

    /** walkaddr: the page behind v when the user may use it, else 0. */
    method Walkaddr(root: nat, v: nat) returns (p: nat)
      requires Valid() && g.det == {} && Space(g, root) && UserOwned(g, root)
      modifies this`freelist, this`g, mem
      ensures Valid() && g == old(g)
      ensures p == if Accessible(g, Va(root, v)) then g.flat[Va(root, v)].ppn else 0
      ensures p != 0 <==> Accessible(g, Va(root, v))
      ensures p != 0 ==> HasUser(g, Va(root, v))
    {
      if v >= MAXVPN { return 0; }
      ghost var w := Va(root, v);
      var t := Walk(root, v, false);
      if t == 0 {
        NotLinkedNotMapped(g, w);
        return 0;
      }
      assert EntryOk(g, SlotFor(w, 0), v % 512);
      var pte := mem[t].ptes[v % 512];
      if !pte.v { return 0; }
      if !pte.perm.u { return 0; }
      AccessibleHasUser(g, w);
      return pte.ppn;
    }

    /** copyout: i is how many bytes arrived; -1 exactly when a page is not the user's. */
    method Copyout(root: nat, dstva: nat, src: seq<byte>) returns (r: int, ghost i: nat)
      requires Valid() && g.det == {} && Space(g, root) && UserOwned(g, root)
      modifies this`freelist, this`g, mem
      ensures Valid() && i <= |src| && Wrote(old(g), g, root, dstva, src[..i])
      ensures r == if i == |src| then 0 else -1
      ensures i < |src| ==> !Accessible(g, PageOf(root, dstva + i))
      ensures forall x :: dstva <= x < dstva + i ==> Accessible(g, PageOf(root, x))
    {
      ghost var m := g;
      WroteNothing(m, root, dstva);
      var done := 0;
      while done < |src|
        invariant done <= |src| && Valid() && Wrote(m, g, root, dstva, src[..done])
        invariant forall x :: dstva <= x < dstva + done ==> Accessible(g, PageOf(root, x))
      {
        var v, off := (dstva + done) / 4096, (dstva + done) % 4096;
        var p := Walkaddr(root, v);
        if p == 0 { return -1, done; }
        var n := if 4096 - off > |src| - done then |src| - done else 4096 - off;
        var chunk := src[done..done + n];
        ghost var b := g;
        WroteMore(m, b, root, dstva, src[..done], chunk, v, off);
        var x := Splice(mem[p].bytes, off, chunk);
        SetBytesInv(b, p, x);
        mem[p] := Data(x);
        g := SetPage(b, p, Data(x));
        assert src[..done] + chunk == src[..done + n];
        SamePage(root, dstva, done, n, v, off);
        done := done + n;
      }
      assert src[..done] == src;
      return 0, done;
    }

    /** copyin: dst is what was read; a full read is the user's bytes in order. */
    method Copyin(root: nat, srcva: nat, len: nat) returns (r: int, dst: seq<byte>)
      requires Valid() && g.det == {} && Space(g, root) && UserOwned(g, root)
      modifies this`freelist, this`g, mem
      ensures Valid() && g == old(g) && |dst| <= len
      ensures r == if |dst| == len then 0 else -1
      ensures Reads(g, root, srcva, dst)
      ensures |dst| < len ==> !Accessible(g, PageOf(root, srcva + |dst|))
    {
      dst := [];
      while |dst| < len
        invariant |dst| <= len && Valid() && g == old(g)
        invariant Reads(g, root, srcva, dst)
        decreases len - |dst|
      {
        var v, off := (srcva + |dst|) / 4096, (srcva + |dst|) % 4096;
        var p := Walkaddr(root, v);
        if p == 0 { return -1, dst; }
        var n := if 4096 - off > len - |dst| then len - |dst| else 4096 - off;
        SamePage(root, srcva, |dst|, n, v, off);
        dst := dst + mem[p].bytes[off..off + n];
      }
      return 0, dst;
    }
  }
}
