/** The operations of kernel/vm.c by user addresses and sizes in bytes: which addresses an
    address space gains, loses and keeps, and what the user reads there. */
module VmBytes {
  import opened Common
  import opened PageTable
  import opened VmSpec
  import opened UserMem

  // ---- Rounding ----

  // Page v starts below sz.
  predicate StartsBelow(v: nat, sz: nat) { v * 4096 < sz }

  lemma PgUpIs(sz: nat, v: nat)
    ensures v < PgUp(sz) <==> StartsBelow(v, sz)
  {
  }

  lemma PgUpAll(sz: nat)
    ensures forall v: nat :: StartsBelow(v, sz) <==> v < PgUp(sz)
  {
    forall v: nat ensures StartsBelow(v, sz) <==> v < PgUp(sz) { PgUpIs(sz, v); }
  }

  lemma PgDownIs(a: nat)
    ensures PgDown(a) * 4096 <= a < (PgDown(a) + 1) * 4096
  {
  }

  // Page v of space root starts at or above lo and below hi.
  predicate Between(w: Va, root: nat, lo: nat, hi: nat) {
    w.root == root && lo <= w.vpn * 4096 < hi
  }

  lemma BetweenIs(w: Va, root: nat, lo: nat, hi: nat)
    requires PgUp(lo) <= PgUp(hi)
    ensures Between(w, root, lo, hi) <==> InRange(w, root, PgUp(lo), PgUp(hi) - PgUp(lo))
  {
    PgUpIs(lo, w.vpn);
    PgUpIs(hi, w.vpn);
  }

  lemma BetweenAll(root: nat, lo: nat, hi: nat)
    requires PgUp(lo) <= PgUp(hi)
    ensures forall w :: Between(w, root, lo, hi) <==> InRange(w, root, PgUp(lo), PgUp(hi) - PgUp(lo))
  {
    forall w ensures Between(w, root, lo, hi) <==> InRange(w, root, PgUp(lo), PgUp(hi) - PgUp(lo)) {
      BetweenIs(w, root, lo, hi);
    }
  }

  lemma PgUpMono(a: nat, b: nat)
    requires a <= b
    ensures PgUp(a) <= PgUp(b)
  {
  }

  // ---- What the user reads ----

  // Address a of space root is the user's to read, write and execute, and holds x.
  predicate Holds(m: Mem, root: nat, a: nat, x: byte) {
    && Accessible(m, Va(root, a / 4096)) && HasUser(m, PageOf(root, a)) && UserByte(m, root, a) == x
    && m.flat[Va(root, a / 4096)].perm == Perm(true, true, true, true)
  }

  // Address a of space r has in n the permissions and the byte it has in m.
  predicate SameAt(m: Mem, n: Mem, r: nat, a: nat) {
    && HasUser(m, PageOf(r, a)) && HasUser(n, PageOf(r, a)) && UserByte(n, r, a) == UserByte(m, r, a)
    && n.flat[PageOf(r, a)].perm == m.flat[PageOf(r, a)].perm
  }

  /** n is m with space root grown from oldsz to newsz bytes: exactly the pages that start
      between the two are new, all zeros, and every byte of every space is as before. */
  ghost predicate GrewTo(m: Mem, n: Mem, root: nat, oldsz: nat, newsz: nat) {
    && (forall w :: w in n.flat <==> w in m.flat || Between(w, root, oldsz, newsz))
    && (forall a: nat {:trigger Holds(n, root, a, 0)} :: oldsz <= a - a % 4096 && a < newsz ==> Holds(n, root, a, 0))
    && (forall r: nat, a: nat {:trigger SameAt(m, n, r, a)} :: HasUser(m, PageOf(r, a)) ==> SameAt(m, n, r, a))
  }

  lemma GrewKeeps(m: Mem, n: Mem, root: nat, v0: nat, us: seq<UPage>, r: nat, a: nat)
    requires GrewBy(m, n, root, v0, us) && HasUser(m, PageOf(r, a))
    ensures SameAt(m, n, r, a)
  {
    var w := PageOf(r, a);
    assert PageKept(m, n, root, m.flat[w].ppn);
  }

  lemma GrewBytes(m: Mem, n: Mem, root: nat, oldsz: nat, newsz: nat)
    requires oldsz <= newsz && PgUp(oldsz) <= PgUp(newsz) <= MAXVPN
    requires GrewBy(m, n, root, PgUp(oldsz), FreshPages(PgUp(newsz) - PgUp(oldsz)))
    ensures GrewTo(m, n, root, oldsz, newsz)
  {
    BetweenAll(root, oldsz, newsz);
    var us := FreshPages(PgUp(newsz) - PgUp(oldsz));
    forall a: nat | oldsz <= a - a % 4096 && a < newsz ensures Holds(n, root, a, 0) {
      var w := PageOf(root, a);
      assert w.vpn * 4096 == a - a % 4096;
      BetweenIs(w, root, oldsz, newsz);
      var i := w.vpn - PgUp(oldsz);
      assert UserHas(n, Va(root, PgUp(oldsz) + i), us[i]);
    }
    forall r: nat, a: nat | HasUser(m, PageOf(r, a)) ensures SameAt(m, n, r, a) {
      GrewKeeps(m, n, root, PgUp(oldsz), us, r, a);
    }
  }

  /** A space whose every address below oldsz is the user's has, grown to newsz, every address
      below newsz. */
  lemma GrowsDense(m: Mem, n: Mem, root: nat, oldsz: nat, newsz: nat, a: nat)
    requires GrewTo(m, n, root, oldsz, newsz) && a < newsz
    requires forall b: nat {:trigger PageOf(root, b)} :: b < oldsz ==> HasUser(m, PageOf(root, b))
    ensures HasUser(n, PageOf(root, a))
    ensures a < oldsz ==> UserByte(n, root, a) == UserByte(m, root, a)
  {
    var start := a - a % 4096;
    if oldsz <= start {
      assert Holds(n, root, a, 0);
    } else {
      assert PageOf(root, start) == PageOf(root, a);
      assert HasUser(m, PageOf(root, start));
      assert SameAt(m, n, root, a);
    }
  }

  /** n is m with space root cut from oldsz down to newsz bytes: exactly the pages that start
      between the two are gone and free, and every byte below newsz is as before. */
  ghost predicate CutTo(m: Mem, n: Mem, root: nat, oldsz: nat, newsz: nat) {
    && (forall w :: w in n.flat <==> w in m.flat && !Between(w, root, newsz, oldsz))
    && (forall w :: w in m.flat && Between(w, root, newsz, oldsz) && Owns(m, w) ==>
          m.flat[w].ppn < |n.use| && n.use[m.flat[w].ppn].Free?)
    && (forall r: nat, a: nat {:trigger SameAt(m, n, r, a)} ::
          HasUser(m, PageOf(r, a)) && (r != root || a < newsz || oldsz <= a - a % 4096) ==> SameAt(m, n, r, a))
  }

  lemma CutBytes(m: Mem, n: Mem, root: nat, oldsz: nat, newsz: nat)
    requires newsz <= oldsz && PgUp(newsz) <= PgUp(oldsz)
    requires UnmappedRun(m, n, root, PgUp(newsz), PgUp(oldsz) - PgUp(newsz), true)
    ensures CutTo(m, n, root, oldsz, newsz)
  {
    BetweenAll(root, newsz, oldsz);
    forall w | w in m.flat && Between(w, root, newsz, oldsz) && Owns(m, w)
      ensures m.flat[w].ppn < |n.use| && n.use[m.flat[w].ppn].Free?
    {
      assert m.flat[w].ppn in OwnedPages(m, root, PgUp(newsz), PgUp(oldsz) - PgUp(newsz));
    }
    forall r: nat, a: nat | HasUser(m, PageOf(r, a)) && (r != root || a < newsz || oldsz <= a - a % 4096)
      ensures SameAt(m, n, r, a)
    {
      var w := PageOf(r, a);
      assert w.vpn * 4096 == a - a % 4096;
      BetweenIs(w, root, newsz, oldsz);
      assert PageKept(m, n, root, m.flat[w].ppn);
    }
  }

  // ---- Copying ----

  // What uvmcopy asks, by sizes in bytes.
  ghost predicate CanCopyTo(m: Mem, parent: nat, child: nat, sz: nat) {
    && parent != child && sz <= MAXVPN * 4096
    && (forall v: nat {:trigger Va(parent, v)} :: StartsBelow(v, sz) ==> HasUser(m, Va(parent, v)))
    && forall w :: w in m.flat ==> !Between(w, child, 0, sz)
  }

  lemma CanCopyIs(m: Mem, parent: nat, child: nat, sz: nat)
    requires CanCopyTo(m, parent, child, sz)
    ensures CanCopy(m, parent, child, PgUp(sz))
  {
    PgUpAll(sz);
    BetweenAll(child, 0, sz);
  }

  /** Below sz the child's space is the parent's, byte for byte and permission for permission,
      on other physical pages; it has nothing else, and every byte of every space is as before. */
  ghost predicate CopiedTo(m: Mem, n: Mem, parent: nat, child: nat, sz: nat) {
    && (forall w :: w in n.flat <==> w in m.flat || Between(w, child, 0, sz))
    && (forall r: nat, a: nat {:trigger SameAt(m, n, r, a)} :: HasUser(m, PageOf(r, a)) ==> SameAt(m, n, r, a))
    && forall a: nat {:trigger CopiedAt(n, parent, child, a)} :: a < sz ==> CopiedAt(n, parent, child, a)
  }

  predicate CopiedAt(n: Mem, parent: nat, child: nat, a: nat) {
    && HasUser(n, PageOf(parent, a)) && HasUser(n, PageOf(child, a))
    && UserByte(n, child, a) == UserByte(n, parent, a)
    && n.flat[PageOf(child, a)].perm == n.flat[PageOf(parent, a)].perm
    && n.flat[PageOf(child, a)].ppn != n.flat[PageOf(parent, a)].ppn
  }

  lemma CopyBytes(m: Mem, n: Mem, parent: nat, child: nat, sz: nat)
    requires CanCopy(m, parent, child, PgUp(sz))
    requires GrewBy(m, n, child, 0, UserPages(m, parent, PgUp(sz)))
    ensures CopiedTo(m, n, parent, child, sz)
  {
    BetweenAll(child, 0, sz);
    var us := UserPages(m, parent, PgUp(sz));
    forall r: nat, a: nat | HasUser(m, PageOf(r, a)) ensures SameAt(m, n, r, a) {
      GrewKeeps(m, n, child, 0, us, r, a);
    }
    forall a: nat | a < sz ensures CopiedAt(n, parent, child, a) {
      PgUpIs(sz, a / 4096);
      ForkCopies(m, n, parent, child, PgUp(sz), a / 4096);
    }
  }

  // ---- Single ranges ----

  // The addresses from va on, size of them, are in n the physical addresses from pa's page on.
  ghost predicate MapsRange(m: Mem, n: Mem, root: nat, va: nat, size: nat, pa: nat, perm: Perm) {
    && (forall a: nat {:trigger PageOf(root, a)} :: va <= a < va + size ==>
          PageOf(root, a) in n.flat && n.flat[PageOf(root, a)] == Leaf(pa / 4096 + a / 4096 - va / 4096, perm))
    && (forall w :: w in m.flat ==> w in n.flat && n.flat[w] == m.flat[w])
    && (forall w :: w in n.flat && w !in m.flat ==>
          w.root == root && va < (w.vpn + 1) * 4096 && w.vpn * 4096 < va + size)
  }

  lemma MapsBytes(m: Mem, n: Mem, root: nat, va: nat, size: nat, pa: nat, perm: Perm)
    requires size >= 1 && PgDown(va) <= PgDown(va + size - 1)
    requires Mapped(m.flat, n.flat, root, PgDown(va), PgDown(pa), perm, PgDown(va + size - 1) - PgDown(va) + 1)
    requires forall w :: w in m.flat ==> !InRange(w, root, PgDown(va), PgDown(va + size - 1) - PgDown(va) + 1)
    ensures MapsRange(m, n, root, va, size, pa, perm)
  {
    PgDownIs(va);
    PgDownIs(va + size - 1);
    PgDownIs(pa);
    forall a: nat | va <= a < va + size
      ensures PageOf(root, a) in n.flat
      ensures n.flat[PageOf(root, a)] == Leaf(pa / 4096 + a / 4096 - va / 4096, perm)
    {
      assert InRange(PageOf(root, a), root, PgDown(va), PgDown(va + size - 1) - PgDown(va) + 1);
    }
  }
}
