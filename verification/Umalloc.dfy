/** user/umalloc.c: Kernighan and Ritchie's allocator on its header fields. The ring
    is walked and relinked in place; FreeRing says what each call does to the heap. */
module Umalloc {
  import opened FreeRing

  // The successor on the ring of the element at place i.
  function NextOf(free: seq<nat>, i: nat): nat
    requires i < |free|
  {
    if i + 1 < |free| then free[i + 1] else free[0]
  }

  predicate LinkAt(ptr: map<nat, nat>, free: seq<nat>, i: nat)
    requires i < |free|
  {
    free[i] in ptr && ptr[free[i]] == NextOf(free, i)
  }

  // The ring visits each free block once, in address order, with one wrap.
  ghost predicate Linked(ptr: map<nat, nat>, free: seq<nat>) {
    forall i: nat {:trigger LinkAt(ptr, free, i)} :: i < |free| ==> LinkAt(ptr, free, i)
  }

  // Steps from place i forward to place t on a ring of n.
  function Dist(i: nat, t: nat, n: nat): nat
    requires i < n && t < n
  {
    if i <= t then t - i else n - i + t
  }

  function Nxt(i: nat, n: nat): nat
    requires i < n
  {
    if i + 1 < n then i + 1 else 0
  }

  // Every live block has its place in the address order, and only one.
  lemma PlaceExists(h: Heap, bp: nat) returns (j: nat)
    requires Inv(h) && bp in h.live
    ensures Place(h, j, bp)
    ensures forall i: nat :: Place(h, i, bp) ==> i == j
  {
    assert LiveOk(h, bp);
    j := 0;
    while j + 1 < |h.free| && h.free[j + 1] < bp
      invariant j < |h.free| && h.free[j] < bp
    {
      j := j + 1;
    }
    if j + 1 < |h.free| { NotFree(h, bp, j + 1); }
  }

  lemma NotFree(h: Heap, bp: nat, i: nat)
    requires Inv(h) && bp in h.live && i < |h.free|
    ensures h.free[i] != bp
  {
    assert LiveOk(h, bp) && FreeOk(h, i);
    assert bp in h.own;
  }

  // ---- Relinking ----

  lemma LinkedInsert(ptr: map<nat, nat>, free: seq<nat>, j: nat, bp: nat)
    requires Linked(ptr, free) && Ascending(free) && j < |free| && bp !in free
    ensures Linked(ptr[bp := NextOf(free, j)][free[j] := bp], Inserted(free, j, bp))
  {
    var r := Inserted(free, j, bp);
    var q := ptr[bp := NextOf(free, j)][free[j] := bp];
    forall i: nat | i < |r| ensures LinkAt(q, r, i) {
      if i != j + 1 {
        var x := if i <= j then i else i - 1;
        assert LinkAt(ptr, free, x) && r[i] == free[x] && free[x] in free;
      }
    }
  }

  lemma LinkedRemove(ptr: map<nat, nat>, free: seq<nat>, k: nat)
    requires Linked(ptr, free) && Ascending(free) && 1 <= k < |free| && free[k] in ptr
    ensures Linked(ptr[free[k - 1] := ptr[free[k]]], Removed(free, k))
  {
    var r := Removed(free, k);
    var q := ptr[free[k - 1] := ptr[free[k]]];
    assert LinkAt(ptr, free, k);
    forall i: nat | i < |r| ensures LinkAt(q, r, i) {
      var x := if i < k then i else i + 1;
      assert LinkAt(ptr, free, x) && r[i] == free[x];
    }
  }

  // Merging two blocks of the list drops the upper one's link.
  lemma LinkedMerge(ptr: map<nat, nat>, g: Heap, k: nat)
    requires RingOk(g) && Ascending(g.free) && k + 1 < |g.free| && Linked(ptr, g.free)
    ensures Merge(g, k).free == Removed(g.free, k + 1)
    ensures NextOf(Merge(g, k).free, k) == NextOf(g.free, k + 1)
    ensures Linked(ptr[g.free[k] := NextOf(Merge(g, k).free, k)], Merge(g, k).free)
  {
    assert Merge(g, k).free == Removed(g.free, k + 1);
    assert LinkAt(ptr, g.free, k + 1);
    LinkedRemove(ptr, g.free, k + 1);
  }

  // The links once bp is on the list and has taken over the block above it.
  lemma LinkedUpper(ptr: map<nat, nat>, free: seq<nat>, g: Heap, j: nat, bp: nat)
    requires Linked(ptr, free) && Ascending(free) && j < |free| && bp !in free
    requires RingOk(g) && Ascending(g.free) && g.free == Inserted(free, j, bp) && j + 2 < |g.free|
    ensures var r := Merge(g, j + 1).free;
      && j + 1 < |r| && NextOf(r, j + 1) == NextOf(free, j + 1)
      && Linked(ptr[bp := NextOf(r, j + 1)][free[j] := bp], r)
  {
    LinkedInsert(ptr, free, j, bp);
    var q := ptr[bp := NextOf(free, j)][free[j] := bp];
    LinkedMerge(q, g, j + 1);
    var n := NextOf(Merge(g, j + 1).free, j + 1);
    assert q[bp := n] == ptr[bp := n][free[j] := bp];
  }

  // The list and links after free's first test, before p is relinked.
  lemma LinkedUp(ptr: map<nat, nat>, h: Heap, j: nat, bp: nat)
    requires Inv(h) && bp in h.live && Place(h, j, bp) && Linked(ptr, h.free)
    ensures bp in h.size
    ensures var g := FreedUp(h, j, bp);
      && j + 1 < |g.free|
      && Linked(ptr[bp := NextOf(g.free, j + 1)][h.free[j] := bp], g.free)
      && NextOf(g.free, j + 1) ==
           (if j + 1 < |h.free| && bp + h.size[bp] == h.free[j + 1] then NextOf(h.free, j + 1) else NextOf(h.free, j))
  {
    PutRing(h, j, bp);
    var g0 := Put(h, j, bp);
    assert g0.free == Inserted(h.free, j, bp);
    FreeFacts(h, j, bp);
    if j + 2 < |g0.free| && Touch(g0, j + 1) {
      LinkedUpper(ptr, h.free, g0, j, bp);
    } else {
      LinkedInsert(ptr, h.free, j, bp);
    }
  }

  class Allocator {
    const base: nat                 // &base
    var ptr: map<nat, nat>          // s.ptr of every header
    var size: map<nat, nat>         // s.size of every header
    var freep: nat                  // 0 until the first malloc
    ghost var h: Heap

    ghost predicate Valid()
      reads this
    {
      && Inv(h) && Coalesced(h) && h.base == base
      && (freep == 0 ==> h == Heap(base, [base], map[base := 0], map[], map[]) && size == map[])
      && (freep != 0 ==> h.size == size && Linked(ptr, h.free) && freep in h.free)
    }

    constructor (base: nat)
      requires 1 <= base
      ensures Valid() && h.live == map[] && h.own == map[] && this.base == base && freep == 0
    {
      this.base := base;
      ptr, size, freep := map[], map[], 0;
      h := Heap(base, [base], map[base := 0], map[], map[]);
    }

    // free's search: the ring is walked from freep to the block that precedes bp.
    method FindPlace(bp: nat) returns (p: nat, ghost j: nat)
      requires Valid() && freep != 0 && bp in h.live
      ensures Place(h, j, bp) && p == h.free[j]
    {
      j := PlaceExists(h, bp);
      ghost var n := |h.free|;
      p := freep;
      ghost var i :| 0 <= i < n && h.free[i] == freep;
      assert LinkAt(ptr, h.free, i);
      assert LiveOk(h, bp);
      while !(bp > p && bp < ptr[p])
        invariant 0 <= i < n && p == h.free[i] && LinkAt(ptr, h.free, i)
        invariant Place(h, j, bp) && forall x: nat :: Place(h, x, bp) ==> x == j
        decreases Dist(i, j, n)
      {
        if p >= ptr[p] && (bp > p || bp < ptr[p]) {
          break;
        }
        p := ptr[p];
        i := Nxt(i, n);
        assert LinkAt(ptr, h.free, i);
      }
      assert Place(h, i, bp);
    }

    // free's first test: bp takes over the block above it, or only its link.
    method JoinUpper(p: nat, ghost j: nat, bp: nat)
      requires Inv(h) && h.size == size && Linked(ptr, h.free)
      requires bp in h.live && Place(h, j, bp) && p == h.free[j]
      modifies this`ptr, this`size
      ensures Joined(j, bp)
    {
      FreeFacts(h, j, bp);
      LinkedUp(ptr, h, j, bp);
      UpperSizes(h, j, bp);
      FreedUpInv(h, j, bp);
      assert LinkAt(ptr, h.free, j) && (j + 1 < |h.free| ==> LinkAt(ptr, h.free, j + 1));
      if bp + size[bp] == ptr[p] {
        size := size[bp := size[bp] + size[ptr[p]]];
        ptr := ptr[bp := ptr[ptr[p]]];
      } else {
        ptr := ptr[bp := ptr[p]];
      }
    }

    // The state between the two tests of free.
    ghost predicate Joined(j: nat, bp: nat)
      reads this
    {
      && Inv(h) && bp in h.live && Place(h, j, bp)
      && var g := FreedUp(h, j, bp);
      && RingOk(g) && Ascending(g.free) && j + 1 < |g.free| && g.free[j] == h.free[j] < g.free[j + 1] == bp
      && size == g.size && bp in ptr && Linked(ptr[h.free[j] := bp], g.free)
    }

    // free's second test: the block below takes over bp, or is linked to it.
    method JoinLower(p: nat, ghost j: nat, bp: nat)
      requires Joined(j, bp) && p == h.free[j]
      modifies this`ptr, this`size
      ensures Inv(h) && bp in h.live && Place(h, j, bp)
      ensures size == Freed(h, j, bp).size && Linked(ptr, Freed(h, j, bp).free)
    {
      LowerSizes(h, j, bp);
      if p + size[p] == bp {
        LinkedLower(ptr, FreedUp(h, j, bp), j, bp);
        size := size[p := size[p] + size[bp]];
        ptr := ptr[p := ptr[bp]];
      } else {
        ptr := ptr[p := bp];
      }
    }

    /** free(ap): the block with header ap - 1 goes back to the free list. */
    method Free(ap: nat)
      requires Valid() && freep != 0 && ap >= 1 && ap - 1 in h.live
      modifies this`ptr, this`size, this`freep, this`h
      ensures Valid() && freep != 0
      ensures h.live == old(h).live - {ap - 1} && h.own.Keys == old(h).own.Keys
      ensures HasFree(h, old(h).live[ap - 1])
      ensures exists j: nat :: Place(old(h), j, ap - 1) && freep == old(h).free[j]
    {
      hide Freed, FreeOk, LiveOk, UnitOk;
      var bp := ap - 1;
      var p: nat;
      ghost var j: nat;
      p, j := FindPlace(bp);
      FreedSizes(h, j, bp);
      FreedInv(h, j, bp);
      JoinUpper(p, j, bp);
      JoinLower(p, j, bp);
      h := Freed(h, j, bp);
      freep := p;
      assert Place(old(h), j, bp);
    }

    /** morecore(nu): q is what sbrk returned, 0 standing for its failure. The new
        units pass through free, and the ring then holds a block of nu units. */
    method Morecore(nu: nat, q: nat) returns (r: nat)
      requires Valid() && freep != 0
      requires q != 0 ==> Fresh(h, q, Chunk(nu))
      modifies this`ptr, this`size, this`freep, this`h
      ensures Valid() && freep != 0
      ensures q == 0 ==> r == 0 && h == old(h) && freep == old(freep)
      ensures q != 0 ==> r == freep && Grown(old(h), h, q, nu) && HasFree(h, nu)
    {
      var n := Chunk(nu);
      if q == 0 {
        return 0;
      }
      ghost var was := h;
      GrantInv(h, q, n);
      GrantFrame(h, q, n);
      size := size[q := n];
      h := Grant(h, q, n);
      Free(q + 1);
      r := freep;
    }

    // malloc's cut at place k, whose predecessor on the ring is prevp.
    method Carve(prevp: nat, p: nat, nunits: nat, ghost k: nat) returns (r: nat)
      requires Valid() && freep != 0 && 1 <= k < |h.free| && p == h.free[k] && prevp == h.free[k - 1]
      requires 1 <= nunits <= h.size[h.free[k]]
      modifies this`ptr, this`size, this`freep, this`h
      ensures Valid() && freep != 0
      ensures r > 0 && r - 1 !in old(h).live && h.live == old(h).live[r - 1 := nunits]
      ensures h.own.Keys == old(h).own.Keys
      ensures freep == prevp && r - 1 + nunits == p + old(h).size[p]
    {
      TakeInv(h, k, nunits);
      TakeLinks(ptr, h, k, nunits);
      r := p;
      if size[p] == nunits {
        ptr := ptr[prevp := ptr[p]];
      } else {
        size := size[p := size[p] - nunits];
        r := p + size[p];
        size := size[r := nunits];
      }
      h := Take(h, k, nunits);
      freep := prevp;
      r := r + 1;
    }

    // malloc's first call makes base a ring of its own.
    method Init()
      requires Valid()
      modifies this`ptr, this`size, this`freep
      ensures Valid() && freep != 0 && (old(freep) != 0 ==> freep == old(freep))
    {
      if freep == 0 {
        ptr, freep := ptr[base := base], base;
        size := size[base := 0];
      }
    }

    /** malloc(nbytes), q being what sbrk would return: a header address, or 0. Either
        the block handed out is new and all else stands, or nothing fits and sbrk failed. */
    method Malloc(nbytes: nat, q: nat) returns (r: nat)
      requires Valid()
      requires q != 0 ==> Fresh(h, q, Chunk(Units(nbytes)))
      modifies this`ptr, this`size, this`freep, this`h
      ensures Valid() && freep != 0
      ensures r != 0 ==> r - 1 !in old(h).live && h.live == old(h).live[r - 1 := Units(nbytes)]
      ensures r != 0 ==> r - 1 in h.live && (h.live[r - 1] - 2) * 16 < nbytes <= (h.live[r - 1] - 1) * 16
      ensures HasFree(old(h), Units(nbytes)) ==> h.own.Keys == old(h).own.Keys
      ensures r != 0 && !HasFree(old(h), Units(nbytes)) ==>
        Extended(old(h), h, q, if Units(nbytes) < 4096 then 4096 else Units(nbytes))
      ensures r == 0 <==> q == 0 && !HasFree(old(h), Units(nbytes))
      ensures r == 0 ==> h == old(h)
      ensures HasFree(old(h), Units(nbytes)) ==> exists f: nat, k: nat ::
        FirstFit(old(h), old(freep), f, k, Units(nbytes)) && CutFrom(old(h), k, r, Units(nbytes))
    {
      UnitsEnough(nbytes);
      var nunits := Units(nbytes);
      Init();
      var prevp, p;
      ghost var k;
      prevp, p, k := Search(nunits, q);
      if p == 0 {
        return 0;
      }
      r := Carve(prevp, p, nunits, k);
      if HasFree(old(h), nunits) {
        assert old(freep) != 0;
        ghost var f: nat :| FirstFit(old(h), old(freep), f, k, nunits);
        assert CutFrom(old(h), k, r, nunits);
      }
    }

    // malloc's loop: a block that fits and its predecessor, or 0 when sbrk fails.
    method Search(n: nat, q: nat) returns (prevp: nat, p: nat, ghost k: nat)
      requires Valid() && freep != 0 && n >= 1
      requires q != 0 ==> Fresh(h, q, Chunk(n))
      modifies this`ptr, this`size, this`freep, this`h
      ensures Valid() && freep != 0
      ensures p == 0 ==> h == old(h) && q == 0 && !HasFree(old(h), n)
      ensures p != 0 ==> 1 <= k < |h.free| && p == h.free[k] && prevp == h.free[k - 1] && h.size[p] >= n
      ensures p != 0 ==>
        if HasFree(old(h), n) then h == old(h) else q != 0 && Grown(old(h), h, q, n)
      ensures p != 0 && HasFree(old(h), n) ==> exists f: nat :: FirstFit(h, old(freep), f, k, n)
    {
      ghost var s: Scan;
      prevp := freep;
      p, s := Begin(n);
      while size[p] < n
        invariant Scanning(old(h), s, prevp, p, q, n) && (!s.called ==> freep == old(freep))
        decreases if s.called then 0 else 1, Left(s, |h.free|)
      {
        prevp, p, s := Advance(old(h), s, prevp, p, q, n);
        if p == 0 {
          return 0, 0, 0;
        }
      }
      k := s.k;
      assert HasFree(old(h), n) ==> FirstFit(h, old(freep), s.f, k, n);
    }

    // Where malloc's search stands; h0 is the heap it started from.
    ghost predicate Scanning(h0: Heap, s: Scan, prevp: nat, p: nat, q: nat, n: nat)
      reads this
    {
      && Valid() && freep != 0 && RingOk(h0)
      && At(h, s.k, prevp, p) && s.f < |h.free| && h.free[s.f] == freep && s.b < |h.free|
      && (!s.called ==> h == h0 && Passed(h, s.f, s.k, n))
      && (s.called ==> q != 0 && Grown(h0, h, q, n) && !HasFree(h0, n) && Ahead(h, s.f, s.k, s.b, n))
    }

    method Begin(n: nat) returns (p: nat, ghost s: Scan)
      requires Valid() && freep != 0
      ensures Scanning(h, s, freep, p, 0, n)
    {
      ghost var f: nat :| f < |h.free| && h.free[f] == freep;
      assert LinkAt(ptr, h.free, f);
      p := ptr[freep];
      s := Scan(f, Nxt(f, |h.free|), 0, false);
    }

    // The block at p does not fit: on to the next, by way of morecore after a full round.
    method Advance(ghost h0: Heap, ghost s: Scan, prevp: nat, p: nat, q: nat, n: nat)
      returns (prevp': nat, p': nat, ghost s': Scan)
      requires Scanning(h0, s, prevp, p, q, n) && size[p] < n
      requires q != 0 ==> Fresh(h0, q, Chunk(n))
      modifies this`ptr, this`size, this`freep, this`h
      ensures p' == 0 ==> Valid() && freep != 0 && h == h0 && q == 0 && !HasFree(h0, n)
      ensures p' != 0 ==> Scanning(h0, s', prevp', p', q, n) && (!s'.called ==> freep == old(freep))
      ensures p' == 0 || (!s.called && s'.called)
        || (s.called == s'.called && Left(s', |h.free|) < Left(s, |old(h).free|))
    {
      p' := p;
      s' := s;
      if p == freep {
        p', s' := MoreRoom(h0, s, prevp, p, q, n);
        if p' == 0 {
          return prevp, 0, s;
        }
        RestartOn(h, s', n);
      } else {
        StepOn(h, s.f, s.k, s.b, n);
      }
      prevp', p' := p', Follow(p', s'.k);
      s' := s'.(k := Nxt(s'.k, |h.free|));
    }

    // The free block after p on the ring.
    function Follow(p: nat, ghost k: nat): (r: nat)
      requires Valid() && freep != 0 && k < |h.free| && p == h.free[k]
      reads this
      ensures At(h, Nxt(k, |h.free|), p, r) && r != 0
    {
      assert LinkAt(ptr, h.free, k);
      ptr[p]
    }

    // A full round without a fit: morecore, and the search goes on from freep.
    method MoreRoom(ghost h0: Heap, ghost s: Scan, prevp: nat, p: nat, q: nat, n: nat)
      returns (p': nat, ghost s': Scan)
      requires Scanning(h0, s, prevp, p, q, n) && size[p] < n && p == freep
      requires q != 0 ==> Fresh(h0, q, Chunk(n))
      modifies this`ptr, this`size, this`freep, this`h
      ensures Valid() && freep != 0 && !s.called
      ensures p' == 0 ==> h == h0 && q == 0 && !HasFree(h0, n)
      ensures p' != 0 ==> q != 0 && Grown(h0, h, q, n) && !HasFree(h0, n) && Restart(h, s', freep, p', n)
    {
      SeenAll(h, s.f, s.k, n, s.b);
      p' := Morecore(n, q);
      if p' == 0 {
        return 0, s;
      }
      ghost var b: nat :| b < |h.free| && h.size[h.free[b]] >= n;
      ghost var f: nat :| f < |h.free| && h.free[f] == freep;
      s' := Scan(f, f, b, true);
    }
  }

  // The search stands at freep again, and some block fits.
  predicate Restart(h: Heap, s: Scan, freep: nat, p: nat, n: nat) {
    && RingOk(h) && s.called && s.k == s.f < |h.free| && h.free[s.f] == freep == p
    && s.b < |h.free| && h.size[h.free[s.b]] >= n
  }

  // Places on the ring: freep, the block looked at, and, once morecore was called,
  // a block that fits.
  datatype Scan = Scan(f: nat, k: nat, b: nat, called: bool)

  // Blocks to look at before the search must end.
  function Left(s: Scan, n: nat): nat {
    var t := if s.called then s.b else s.f;
    if s.k < n && t < n then Dist(s.k, t, n) else 0
  }

  // The links and sizes that malloc's cut must leave.
  lemma TakeLinks(ptr: map<nat, nat>, h: Heap, k: nat, n: nat)
    requires RingOk(h) && Ascending(h.free) && Linked(ptr, h.free) && 1 <= k < |h.free| && n <= h.size[h.free[k]]
    ensures h.free[k] in ptr && h.free[k - 1] in Take(h, k, n).free
    ensures n == h.size[h.free[k]] ==>
      Linked(ptr[h.free[k - 1] := ptr[h.free[k]]], Take(h, k, n).free) && Take(h, k, n).size == h.size
    ensures n != h.size[h.free[k]] ==> Linked(ptr, Take(h, k, n).free)
  {
    assert LinkAt(ptr, h.free, k);
    if n == h.size[h.free[k]] {
      LinkedRemove(ptr, h.free, k);
      assert Removed(h.free, k)[k - 1] == h.free[k - 1];
    }
  }

  // p is the block at place k, prevp its predecessor on the ring.
  predicate At(h: Heap, k: nat, prevp: nat, p: nat) {
    k < |h.free| && p == h.free[k] && prevp == h.free[if k == 0 then |h.free| - 1 else k - 1]
  }

  // The blocks between freep and k have been seen and are too small.
  predicate Passed(h: Heap, f: nat, k: nat, n: nat) {
    && RingOk(h) && f < |h.free| && k < |h.free|
    && forall i: nat :: i < |h.free| && Dist(i, f, |h.free|) > Dist(k, f, |h.free|) ==> h.size[h.free[i]] < n
  }

  // Going round from the block after freep, k is the first that holds n units.
  predicate FirstFit(h: Heap, freep: nat, f: nat, k: nat, n: nat) {
    Passed(h, f, k, n) && h.free[f] == freep && h.size[h.free[k]] >= n
  }

  // The block handed out at r is the last n units of block k.
  predicate CutFrom(h: Heap, k: nat, r: nat, n: nat) {
    RingOk(h) && k < |h.free| && r - 1 + n == h.free[k] + h.size[h.free[k]]
  }

  // Block b is big enough and will be met no later than freep.
  predicate Ahead(h: Heap, f: nat, k: nat, b: nat, n: nat) {
    && RingOk(h) && f < |h.free| && k < |h.free| && b < |h.free| && h.size[h.free[b]] >= n
    && Dist(k, b, |h.free|) <= Dist(k, f, |h.free|)
  }

  lemma RestartOn(h: Heap, s: Scan, n: nat)
    requires RingOk(h) && s.k == s.f < |h.free| && s.b < |h.free| && h.size[h.free[s.b]] >= n
    ensures Ahead(h, s.f, Nxt(s.k, |h.free|), s.b, n)
  {
  }

  lemma StepOn(h: Heap, f: nat, k: nat, b: nat, n: nat)
    requires RingOk(h) && Ascending(h.free) && f < |h.free| && k < |h.free| && h.free[k] != h.free[f]
    requires h.size[h.free[k]] < n
    ensures var k' := Nxt(k, |h.free|);
      && Dist(k', f, |h.free|) < Dist(k, f, |h.free|)
      && (Passed(h, f, k, n) ==> Passed(h, f, k', n))
      && (Ahead(h, f, k, b, n) ==> Ahead(h, f, k', b, n) && Dist(k', b, |h.free|) < Dist(k, b, |h.free|))
  {
  }

  // Back at freep without a fit: there is none, and no fitting block was ahead.
  lemma SeenAll(h: Heap, f: nat, k: nat, n: nat, b: nat)
    requires RingOk(h) && Ascending(h.free) && f < |h.free| && k < |h.free| && h.free[k] == h.free[f]
    requires h.size[h.free[k]] < n
    ensures Passed(h, f, k, n) ==> !HasFree(h, n)
    ensures !Ahead(h, f, k, b, n)
  {
  }

  // Header units for a request: the payload rounded up, and the header.
  function Units(nbytes: nat): nat {
    (nbytes + 15) / 16 + 1
  }

  // The units past the header hold the request, and one fewer would not.
  lemma UnitsEnough(nbytes: nat)
    ensures (Units(nbytes) - 2) * 16 < nbytes <= (Units(nbytes) - 1) * 16
  {
  }

  // What morecore asks sbrk for.
  function Chunk(nu: nat): nat {
    if nu < 4096 then 4096 else nu
  }

  // Some block on the ring holds n units.
  ghost predicate HasFree(h: Heap, n: nat)
    requires RingOk(h)
  {
    exists b: nat :: b < |h.free| && h.size[h.free[b]] >= n
  }

  // Exactly the n units from q on were added.
  ghost predicate Extended(h: Heap, g: Heap, q: nat, n: nat) {
    forall u: nat :: u in g.own <==> u in h.own || q <= u < q + n
  }

  // The same live blocks over the old units and those from sbrk.
  ghost predicate Grown(h: Heap, g: Heap, q: nat, nu: nat) {
    g.live == h.live && Extended(h, g, q, Chunk(nu))
  }

  lemma GrantFrame(h: Heap, q: nat, n: nat)
    requires Inv(h) && Coalesced(h) && n >= 1 && Fresh(h, q, n)
    ensures Coalesced(Grant(h, q, n)) && Grant(h, q, n).live - {q} == h.live
    ensures Extended(h, Grant(h, q, n), q, n)
  {
    var g := Grant(h, q, n);
    forall i: nat | i < |h.free| ensures h.free[i] != q {
      assert h.free[i] in h.free;
      NotGranted(h, q, n, h.free[i]);
    }
    forall i: nat | i + 1 < |g.free| ensures !Touch(g, i) { assert !Touch(h, i); }
    assert q in h.live ==> LiveOk(h, q) && q in h.own;
  }

  // Facts about the neighbours that free's two tests rely on.
  lemma FreeFacts(h: Heap, j: nat, bp: nat)
    requires Inv(h) && bp in h.live && Place(h, j, bp)
    ensures bp in h.size && h.size[bp] == h.live[bp] >= 1 && h.free[j] in h.size
    ensures j + 1 == |h.free| ==> bp + h.size[bp] != h.free[0]
    ensures j == 0 ==> h.free[0] + h.size[h.free[0]] != bp
    ensures forall i :: 0 <= i < |h.free| ==> h.free[i] != bp
  {
    assert LiveOk(h, bp);
    forall i: nat | i < |h.free| ensures h.free[i] != bp { NotFree(h, bp, i); }
  }

  // The size fields after the first test.
  lemma UpperSizes(h: Heap, j: nat, bp: nat)
    requires Inv(h) && bp in h.live && Place(h, j, bp)
    ensures bp in h.size && Ascending(FreedUp(h, j, bp).free)
    ensures FreedUp(h, j, bp).size ==
      if j + 1 < |h.free| && bp + h.size[bp] == h.free[j + 1]
      then h.size[bp := h.size[bp] + h.size[h.free[j + 1]]] else h.size
  {
    FreedUpInv(h, j, bp);
    PutRing(h, j, bp);
    UpperMerge(h.size, h.free, Put(h, j, bp), j, bp);
  }

  lemma UpperMerge(size: map<nat, nat>, free: seq<nat>, g: Heap, j: nat, bp: nat)
    requires RingOk(g) && g.size == size && j < |free| && g.free == Inserted(free, j, bp)
    ensures bp in size && (j + 1 < |free| ==> free[j + 1] in size)
    ensures j + 2 < |g.free| ==> (Touch(g, j + 1) <==> bp + size[bp] == free[j + 1])
    ensures j + 2 < |g.free| ==> Merge(g, j + 1).size == size[bp := size[bp] + size[free[j + 1]]]
  {
    assert g.free[j + 1] == bp;
    assert j + 2 < |g.free| ==> g.free[j + 2] == free[j + 1];
  }

  // The list and the size fields after the second test.
  lemma LowerSizes(h: Heap, j: nat, bp: nat)
    requires Inv(h) && bp in h.live && Place(h, j, bp)
    requires var g := FreedUp(h, j, bp); RingOk(g) && j + 1 < |g.free| && g.free[j] == h.free[j] && g.free[j + 1] == bp
    ensures var g, f := FreedUp(h, j, bp), Freed(h, j, bp);
      && bp in g.size && h.free[j] in g.size
      && (h.free[j] + g.size[h.free[j]] == bp ==>
            && f.free == Removed(g.free, j + 1)
            && f.size == g.size[h.free[j] := g.size[h.free[j]] + g.size[bp]])
      && (h.free[j] + g.size[h.free[j]] != bp ==> f == g)
  {
    FreedUpInv(h, j, bp);
    var g := FreedUp(h, j, bp);
    if j == 0 { assert g.free[0] < g.free[1]; }
  }

  // The freed units are part of one free block.
  lemma FreedSizes(h: Heap, j: nat, bp: nat)
    requires Inv(h) && bp in h.live && Place(h, j, bp)
    ensures var f := Freed(h, j, bp);
      && RingOk(f) && h.free[j] in f.free
      && HasFree(f, h.live[bp])
  {
    FreeFacts(h, j, bp);
    FreedUpInv(h, j, bp);
    UpperSizes(h, j, bp);
    PutInv(h, j, bp);
    var g, f := FreedUp(h, j, bp), Freed(h, j, bp);
    assert Put(h, j, bp).free == Inserted(h.free, j, bp);
    assert g.free[j + 1] == bp;
    LowerSizes(h, j, bp);
    if 1 <= j && Touch(g, j) { MergeInv(g, j); }
    if h.free[j] + g.size[h.free[j]] == bp {
      assert f.free[j] == h.free[j];
    } else {
      assert f.free[j] == h.free[j] && f.free[j + 1] == bp;
    }
  }

  lemma LinkedLower(ptr1: map<nat, nat>, g: Heap, j: nat, bp: nat)
    requires RingOk(g) && Ascending(g.free) && j + 1 < |g.free| && g.free[j + 1] == bp
    requires bp in ptr1 && g.free[j] != bp && Linked(ptr1[g.free[j] := bp], g.free)
    ensures Linked(ptr1[g.free[j] := ptr1[bp]], Removed(g.free, j + 1))
  {
    var q := ptr1[g.free[j] := bp];
    LinkedRemove(q, g.free, j + 1);
    assert q[g.free[j] := q[bp]] == ptr1[g.free[j] := ptr1[bp]];
  }
}
