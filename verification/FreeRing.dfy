/** The heap of user/umalloc.c as a value: the free blocks in address order, the
    blocks handed out, and which of them every unit of memory belongs to. Addresses
    and sizes are in units of sizeof(Header). */
module FreeRing {

  datatype Blk = FreeB(a: nat) | LiveB(a: nat)

  /** free lists the headers on the ring in address order, the static base first;
      size holds the size field of every header; own says for each unit obtained
      from sbrk which block it is part of. */
  datatype Heap = Heap(
    base: nat, free: seq<nat>, size: map<nat, nat>, live: map<nat, nat>, own: map<nat, Blk>)

  // ---- The invariant ----

  predicate RingOk(h: Heap) {
    && 1 <= h.base && |h.free| >= 1 && h.free[0] == h.base
    && (forall i :: 0 <= i < |h.free| ==> h.free[i] in h.size)
    && h.size[h.base] == 0
    && (forall i :: 1 <= i < |h.free| ==> h.size[h.free[i]] >= 1)
  }

  predicate Ascending(free: seq<nat>) {
    forall i, j :: 0 <= i < j < |free| ==> free[i] < free[j]
  }

  // No two free blocks are adjacent: nothing is left to coalesce.
  predicate Coalesced(h: Heap)
    requires RingOk(h)
  {
    forall i: nat {:trigger Touch(h, i)} :: i + 1 < |h.free| ==> !Touch(h, i)
  }

  // Blocks i and i + 1 of the list are adjacent.
  predicate Touch(h: Heap, i: nat)
    requires RingOk(h) && i + 1 < |h.free|
  {
    h.free[i] + h.size[h.free[i]] == h.free[i + 1]
  }

  predicate FreeOk(h: Heap, i: nat)
    requires RingOk(h) && i < |h.free|
  {
    forall u :: h.free[i] <= u < h.free[i] + h.size[h.free[i]] ==> u in h.own && h.own[u] == FreeB(h.free[i])
  }

  predicate LiveOk(h: Heap, a: nat)
    requires a in h.live
  {
    && h.base < a && 1 <= h.live[a] && a in h.size && h.size[a] == h.live[a]
    && forall u :: a <= u < a + h.live[a] ==> u in h.own && h.own[u] == LiveB(a)
  }

  predicate UnitOk(h: Heap, u: nat)
    requires u in h.own
  {
    match h.own[u]
    case FreeB(a) => h.base < a && a in h.free && a in h.size && a <= u < a + h.size[a]
    case LiveB(a) => a in h.live && a <= u < a + h.live[a]
  }

  /** Free and live blocks are disjoint and together are every unit from sbrk. */
  ghost predicate Inv(h: Heap) {
    && RingOk(h) && Ascending(h.free)
    && (forall i: nat {:trigger FreeOk(h, i)} :: i < |h.free| ==> FreeOk(h, i))
    && (forall a: nat {:trigger LiveOk(h, a)} :: a in h.live ==> LiveOk(h, a))
    && (forall u: nat {:trigger UnitOk(h, u)} :: u in h.own ==> UnitOk(h, u))
  }

  // r is own with the n units from a on belonging to b.
  ghost predicate Labelled(own: map<nat, Blk>, r: map<nat, Blk>, a: nat, n: nat, b: Blk) {
    && (forall u: nat :: u in r <==> u in own || a <= u < a + n)
    && (forall u: nat :: u in r ==> r[u] == if a <= u < a + n then b else own[u])
  }

  lemma {:induction false} LabelledExists(own: map<nat, Blk>, a: nat, n: nat, b: Blk)
    ensures exists r :: Labelled(own, r, a, n, b)
  {
    if n == 0 {
      assert Labelled(own, own, a, n, b);
    } else {
      LabelledExists(own, a, n - 1, b);
      var r :| Labelled(own, r, a, n - 1, b);
      assert Labelled(own, r[a + n - 1 := b], a, n, b);
    }
  }

  ghost function Relabel(own: map<nat, Blk>, a: nat, n: nat, b: Blk): (r: map<nat, Blk>)
    ensures Labelled(own, r, a, n, b)
  {
    LabelledExists(own, a, n, b);
    var r :| Labelled(own, r, a, n, b);
    r
  }

  // ---- sbrk: fresh units, first handed out as one live block ----

  ghost function Grant(h: Heap, q: nat, n: nat): Heap {
    h.(size := h.size[q := n], live := h.live[q := n], own := Relabel(h.own, q, n, LiveB(q)))
  }

  predicate Fresh(h: Heap, q: nat, n: nat) {
    h.base < q && forall u: nat :: q <= u < q + n ==> u !in h.own
  }

  lemma GrantInv(h: Heap, q: nat, n: nat)
    requires Inv(h) && n >= 1 && Fresh(h, q, n)
    ensures Inv(Grant(h, q, n))
  {
    var g := Grant(h, q, n);
    forall i: nat | i < |h.free| ensures h.free[i] != q {
      assert FreeOk(h, i);
      assert i > 0 ==> h.free[i] in h.own;
    }
    forall a: nat | a in h.live ensures a != q {
      assert LiveOk(h, a);
      assert a in h.own;
    }
    forall i: nat | i < |g.free| ensures FreeOk(g, i) { assert FreeOk(h, i); }
    forall a: nat | a in g.live ensures LiveOk(g, a) { if a != q { assert LiveOk(h, a); } }
    forall u: nat | u in g.own ensures UnitOk(g, u) {
      if u in h.own {
        assert UnitOk(h, u);
        assert h.own[u].FreeB? ==> h.own[u].a != q by { NotGranted(h, q, n, h.own[u].a); }
      }
    }
  }

  // A header on the list is not in a fresh region.
  lemma NotGranted(h: Heap, q: nat, n: nat, a: nat)
    requires Inv(h) && n >= 1 && Fresh(h, q, n)
    ensures a in h.free ==> a != q
  {
    if a in h.free {
      var i :| 0 <= i < |h.free| && h.free[i] == a;
      assert FreeOk(h, i);
      assert i > 0 ==> a in h.own;
    }
  }

  // ---- free: insert in order, then coalesce with the neighbours ----

  // j is where bp belongs in the address order.
  predicate Place(h: Heap, j: nat, bp: nat) {
    j < |h.free| && h.free[j] < bp && (j + 1 < |h.free| ==> bp < h.free[j + 1])
  }

  // The live block bp joins the list after place j.
  ghost function Put(h: Heap, j: nat, bp: nat): Heap
    requires j < |h.free| && bp in h.size
  {
    h.(free := h.free[..j + 1] + [bp] + h.free[j + 1..], live := h.live - {bp},
       own := Relabel(h.own, bp, h.size[bp], FreeB(bp)))
  }

  function Inserted(s: seq<nat>, j: nat, x: nat): (r: seq<nat>)
    requires j < |s|
    ensures |r| == |s| + 1
    ensures forall i :: 0 <= i < |r| ==> r[i] == if i <= j then s[i] else if i == j + 1 then x else s[i - 1]
  {
    s[..j + 1] + [x] + s[j + 1..]
  }

  lemma InsertedMembers(s: seq<nat>, j: nat, x: nat, c: nat)
    requires j < |s|
    ensures c in Inserted(s, j, x) <==> c in s || c == x
  {
    if c in s {
      var k :| 0 <= k < |s| && s[k] == c;
      assert Inserted(s, j, x)[if k <= j then k else k + 1] == c;
    }
    assert Inserted(s, j, x)[j + 1] == x;
  }

  lemma InsertedAscending(s: seq<nat>, j: nat, x: nat)
    requires Ascending(s) && j < |s| && s[j] < x && (j + 1 < |s| ==> x < s[j + 1])
    ensures Ascending(Inserted(s, j, x))
  {
  }

  lemma PutRing(h: Heap, j: nat, bp: nat)
    requires Inv(h) && bp in h.live && Place(h, j, bp)
    ensures bp in h.size && h.size[bp] == h.live[bp] >= 1 && RingOk(Put(h, j, bp)) && Ascending(Put(h, j, bp).free)
    ensures Put(h, j, bp).own.Keys == h.own.Keys && bp in h.own
  {
    assert LiveOk(h, bp);
    assert bp in h.own;
    InsertedAscending(h.free, j, bp);
    assert Put(h, j, bp).free == Inserted(h.free, j, bp);
  }

  lemma PutInv(h: Heap, j: nat, bp: nat)
    requires Inv(h) && bp in h.live && Place(h, j, bp)
    ensures bp in h.size && h.size[bp] == h.live[bp] && Inv(Put(h, j, bp))
    ensures Put(h, j, bp).own.Keys == h.own.Keys
  {
    assert LiveOk(h, bp);
    PutRing(h, j, bp);
    var g := Put(h, j, bp);
    assert g.free == Inserted(h.free, j, bp);
    forall i: nat | i < |g.free| ensures FreeOk(g, i) { PutFree(h, j, bp, i); }
    forall a: nat | a in g.live ensures LiveOk(g, a) { PutLive(h, j, bp, a); }
    forall u: nat | u in g.own ensures UnitOk(g, u) {
      assert u in g.own.Keys;
      PutUnit(h, j, bp, u);
    }
  }

  lemma PutFree(h: Heap, j: nat, bp: nat, i: nat)
    requires Inv(h) && bp in h.live && Place(h, j, bp) && bp in h.size
    requires RingOk(Put(h, j, bp)) && i <= |h.free|
    ensures i < |Put(h, j, bp).free| && FreeOk(Put(h, j, bp), i)
  {
    var g := Put(h, j, bp);
    assert g.free == Inserted(h.free, j, bp);
    assert LiveOk(h, bp);
    if i != j + 1 {
      var x := if i <= j then i else i - 1;
      assert FreeOk(h, x) && g.free[i] == h.free[x];
      forall u | g.free[i] <= u < g.free[i] + g.size[g.free[i]]
        ensures u in g.own && g.own[u] == FreeB(g.free[i])
      {
        assert u in h.own;
      }
    }
  }

  lemma PutLive(h: Heap, j: nat, bp: nat, a: nat)
    requires Inv(h) && bp in h.live && bp in h.size && j < |h.free| && a in h.live && a != bp
    ensures LiveOk(Put(h, j, bp), a)
  {
    assert LiveOk(h, bp) && LiveOk(h, a);
    var g := Put(h, j, bp);
    forall u | a <= u < a + g.live[a] ensures u in g.own && g.own[u] == LiveB(a) {
      assert u in h.own;
    }
  }

  lemma PutUnit(h: Heap, j: nat, bp: nat, u: nat)
    requires Inv(h) && bp in h.live && Place(h, j, bp) && bp in h.size && u in h.own && u in Put(h, j, bp).own
    ensures UnitOk(Put(h, j, bp), u)
  {
    assert LiveOk(h, bp) && UnitOk(h, u);
    assert Put(h, j, bp).free == Inserted(h.free, j, bp);
    InsertedMembers(h.free, j, bp, h.own[u].a);
    InsertedMembers(h.free, j, bp, bp);
  }

  // Blocks i and i + 1 touch and become one.
  ghost function Merge(h: Heap, i: nat): Heap
    requires RingOk(h) && i + 1 < |h.free|
  {
    var a, b := h.free[i], h.free[i + 1];
    h.(free := h.free[..i + 1] + h.free[i + 2..], size := h.size[a := h.size[a] + h.size[b]],
       own := Relabel(h.own, b, h.size[b], FreeB(a)))
  }

  function Removed(s: seq<nat>, k: nat): (r: seq<nat>)
    requires k < |s|
    ensures |r| == |s| - 1
    ensures forall i :: 0 <= i < |r| ==> r[i] == if i < k then s[i] else s[i + 1]
  {
    s[..k] + s[k + 1..]
  }

  lemma RemovedMembers(s: seq<nat>, k: nat, c: nat)
    requires k < |s|
    ensures c in s && c != s[k] ==> c in Removed(s, k)
    ensures c in Removed(s, k) ==> c in s
  {
    if c in s && c != s[k] {
      var i :| 0 <= i < |s| && s[i] == c;
      assert Removed(s, k)[if i < k then i else i - 1] == c;
    }
  }

  lemma MergeFree(h: Heap, i: nat, k: nat)
    requires Inv(h) && 1 <= i && i + 1 < |h.free| && Touch(h, i) && k + 1 < |h.free|
    requires RingOk(Merge(h, i))
    ensures FreeOk(Merge(h, i), k)
  {
    var g := Merge(h, i);
    assert g.free == Removed(h.free, i + 1);
    assert FreeOk(h, i + 1) && FreeOk(h, i);
    var k' := if k <= i then k else k + 1;
    assert FreeOk(h, k') && g.free[k] == h.free[k'];
    forall u | g.free[k] <= u < g.free[k] + g.size[g.free[k]]
      ensures u in g.own && g.own[u] == FreeB(g.free[k])
    {
      assert u in h.own;
    }
  }

  lemma MergeRing(h: Heap, i: nat)
    requires Inv(h) && 1 <= i && i + 1 < |h.free| && Touch(h, i)
    ensures RingOk(Merge(h, i)) && Ascending(Merge(h, i).free) && Merge(h, i).own.Keys == h.own.Keys
  {
    assert Merge(h, i).free == Removed(h.free, i + 1);
    assert FreeOk(h, i + 1);
  }

  lemma MergeUnit(h: Heap, i: nat, u: nat)
    requires Inv(h) && 1 <= i && i + 1 < |h.free| && Touch(h, i) && u in h.own
    requires u in Merge(h, i).own
    ensures UnitOk(Merge(h, i), u)
  {
    assert UnitOk(h, u) && FreeOk(h, i + 1);
    assert Merge(h, i).free == Removed(h.free, i + 1);
    RemovedMembers(h.free, i + 1, h.own[u].a);
    RemovedMembers(h.free, i + 1, h.free[i]);
  }

  lemma MergeInv(h: Heap, i: nat)
    requires Inv(h) && 1 <= i && i + 1 < |h.free| && Touch(h, i)
    ensures Inv(Merge(h, i)) && Merge(h, i).own.Keys == h.own.Keys
  {
    MergeRing(h, i);
    var g := Merge(h, i);
    forall k: nat | k < |g.free| ensures FreeOk(g, k) { MergeFree(h, i, k); }
    forall c: nat | c in g.live ensures LiveOk(g, c) { MergeLive(h, i, c); }
    forall u: nat | u in g.own ensures UnitOk(g, u) {
      assert u in g.own.Keys;
      MergeUnit(h, i, u);
    }
  }

  lemma MergeLive(h: Heap, i: nat, c: nat)
    requires Inv(h) && 1 <= i && i + 1 < |h.free| && Touch(h, i) && c in h.live
    ensures LiveOk(Merge(h, i), c)
  {
    assert LiveOk(h, c) && FreeOk(h, i) && FreeOk(h, i + 1);
    assert c in h.own && h.free[i] in h.own;
  }

  // free, as a whole: the block goes in after place j and coalesces up, then down.
  ghost function Freed(h: Heap, j: nat, bp: nat): Heap
    requires Inv(h) && bp in h.live && Place(h, j, bp)
  {
    FreedUpInv(h, j, bp);
    var g := FreedUp(h, j, bp);
    if 1 <= j && Touch(g, j) then Merge(g, j) else g
  }

  // The heap after the upper merge.
  ghost function FreedUp(h: Heap, j: nat, bp: nat): Heap
    requires Inv(h) && bp in h.live && Place(h, j, bp)
  {
    PutInv(h, j, bp);
    var g := Put(h, j, bp);
    if j + 2 < |g.free| && Touch(g, j + 1) then Merge(g, j + 1) else g
  }

  lemma FreedUpInv(h: Heap, j: nat, bp: nat)
    requires Inv(h) && bp in h.live && Place(h, j, bp)
    ensures var g := FreedUp(h, j, bp);
      && Inv(g) && j + 1 < |g.free| && g.free[j] == h.free[j]
      && g.own.Keys == h.own.Keys && g.live == h.live - {bp} && g.base == h.base
  {
    PutInv(h, j, bp);
    var g := Put(h, j, bp);
    assert g.free == Inserted(h.free, j, bp);
    if j + 2 < |g.free| && Touch(g, j + 1) { MergeInv(g, j + 1); }
  }

  // The lower merge, or not.
  lemma FreedDown(g1: Heap, j: nat)
    requires Inv(g1) && j + 1 < |g1.free|
    requires forall i: nat {:trigger Touch(g1, i)} :: i + 1 < |g1.free| && i != j ==> !Touch(g1, i)
    ensures var g := if 1 <= j && Touch(g1, j) then Merge(g1, j) else g1;
      Inv(g) && Coalesced(g) && g.own.Keys == g1.own.Keys
  {
    if 1 <= j && Touch(g1, j) {
      MergeInv(g1, j);
      var g2 := Merge(g1, j);
      forall i: nat | i + 1 < |g2.free| ensures !Touch(g2, i) {
        MergeTouch(g1, j, i);
        assert !Touch(g1, if i < j then i else i + 1);
      }
    } else if j == 0 {
      assert g1.free[0] < g1.free[1];
    }
  }

  /** free keeps the invariant, loses and duplicates no unit, touches no other live
      block, and leaves no two free blocks adjacent. */
  lemma FreedInv(h: Heap, j: nat, bp: nat)
    requires Inv(h) && Coalesced(h) && bp in h.live && Place(h, j, bp)
    ensures var g := Freed(h, j, bp);
      && Inv(g) && Coalesced(g)
      && g.own.Keys == h.own.Keys && g.live == h.live - {bp} && g.base == h.base
  {
    FreedUpInv(h, j, bp);
    var g1 := FreedUp(h, j, bp);
    forall i: nat | i + 1 < |g1.free| && i != j ensures !Touch(g1, i) { FreedUpper(h, j, bp, i); }
    FreedDown(g1, j);
  }

  // After the insertion the only blocks that may touch are the new one's neighbours.
  lemma PutTouch(h: Heap, j: nat, bp: nat, i: nat)
    requires RingOk(h) && Coalesced(h) && j < |h.free| && bp in h.size && RingOk(Put(h, j, bp))
    requires i < |h.free| && i != j && i != j + 1
    ensures !Touch(Put(h, j, bp), i)
  {
    var g := Put(h, j, bp);
    assert g.free == Inserted(h.free, j, bp);
    var x := if i < j then i else i - 1;
    assert !Touch(h, x);
    assert g.free[i] == h.free[x] && g.free[i + 1] == h.free[x + 1];
  }

  // Merging i and i + 1 leaves every other pair of neighbours as it was.
  lemma MergeTouch(g: Heap, i: nat, x: nat)
    requires RingOk(g) && Ascending(g.free) && i + 1 < |g.free| && Touch(g, i) && RingOk(Merge(g, i))
    requires x + 2 < |g.free|
    ensures x == i ==> (Touch(Merge(g, i), x) <==> Touch(g, i + 1))
    ensures x < i ==> (Touch(Merge(g, i), x) <==> Touch(g, x))
    ensures x > i ==> (Touch(Merge(g, i), x) <==> Touch(g, x + 1))
  {
    var n := Merge(g, i);
    assert n.free == Removed(g.free, i + 1);
    assert n.free[x] == g.free[if x <= i then x else x + 1];
    assert n.free[x + 1] == g.free[if x < i then x + 1 else x + 2];
  }

  lemma MergedUpper(g: Heap, j: nat, i: nat)
    requires RingOk(g) && Ascending(g.free) && j + 2 < |g.free| && Touch(g, j + 1) && RingOk(Merge(g, j + 1))
    requires i + 2 < |g.free| && i != j && !Touch(g, if i < j then i else i + 1)
    ensures i + 1 < |Merge(g, j + 1).free| && !Touch(Merge(g, j + 1), i)
  {
    MergeTouch(g, j + 1, i);
  }

  lemma FreedUpper(h: Heap, j: nat, bp: nat, i: nat)
    requires Inv(h) && Coalesced(h) && bp in h.live && Place(h, j, bp)
    requires RingOk(FreedUp(h, j, bp)) && i + 1 < |FreedUp(h, j, bp).free| && i != j
    ensures !Touch(FreedUp(h, j, bp), i)
  {
    PutRing(h, j, bp);
    var g := Put(h, j, bp);
    if j + 2 < |g.free| && Touch(g, j + 1) {
      PutTouch(h, j, bp, if i < j then i else i + 1);
      MergedUpper(g, j, i);
    } else if i != j + 1 {
      PutTouch(h, j, bp, i);
    }
  }

  // ---- malloc: cut n units off the tail of a free block, or take it whole ----

  ghost function Take(h: Heap, k: nat, n: nat): Heap
    requires RingOk(h) && k < |h.free| && n <= h.size[h.free[k]]
  {
    var p := h.free[k];
    var left := h.size[p] - n;
    if left == 0 then
      h.(free := Removed(h.free, k), live := h.live[p := n], own := Relabel(h.own, p, n, LiveB(p)))
    else
      var q := p + left;
      h.(size := h.size[p := left][q := n], live := h.live[q := n], own := Relabel(h.own, q, n, LiveB(q)))
  }

  // The header address malloc hands out.
  function Cut(h: Heap, k: nat, n: nat): nat
    requires RingOk(h) && k < |h.free| && n <= h.size[h.free[k]]
  {
    h.free[k] + h.size[h.free[k]] - n
  }

  // Free blocks do not overlap.
  lemma FreeApart(h: Heap, i: nat)
    requires Inv(h) && i + 1 < |h.free|
    ensures h.free[i] + h.size[h.free[i]] <= h.free[i + 1]
  {
    assert FreeOk(h, i) && FreeOk(h, i + 1);
    assert h.free[i + 1] in h.own;
  }

  lemma CutFresh(h: Heap, k: nat, n: nat)
    requires Inv(h) && 1 <= k < |h.free| && 1 <= n <= h.size[h.free[k]]
    ensures var q := Cut(h, k, n);
      && h.base < q && q !in h.live && (q in h.free ==> n == h.size[h.free[k]])
      && forall u: nat :: q <= u < q + n ==> u in h.own && h.own[u] == FreeB(h.free[k])
  {
    var q := Cut(h, k, n);
    assert FreeOk(h, k);
    assert q in h.own && h.own[q] == FreeB(h.free[k]);
    assert q in h.live ==> LiveOk(h, q);
    if q in h.free {
      var i :| 0 <= i < |h.free| && h.free[i] == q;
      assert FreeOk(h, i);
    }
  }

  lemma TakeWholeRing(h: Heap, k: nat)
    requires RingOk(h) && Ascending(h.free) && Coalesced(h) && 1 <= k < |h.free|
    requires h.free[k - 1] + h.size[h.free[k - 1]] <= h.free[k]
    ensures var g := Take(h, k, h.size[h.free[k]]);
      RingOk(g) && Ascending(g.free) && Coalesced(g)
  {
    var g := Take(h, k, h.size[h.free[k]]);
    forall i: nat | i + 1 < |g.free| ensures !Touch(g, i) { TakeWholeApart(h, g, k, i); }
  }

  // Taking block k off the list brings no two others into touch.
  lemma TakeWholeApart(h: Heap, g: Heap, k: nat, i: nat)
    requires RingOk(h) && Ascending(h.free) && Coalesced(h) && 1 <= k < |h.free| && i + 2 < |h.free|
    requires h.free[k - 1] + h.size[h.free[k - 1]] <= h.free[k]
    requires RingOk(g) && g.free == Removed(h.free, k) && g.size == h.size
    ensures !Touch(g, i)
  {
    if i >= k {
      assert !Touch(h, i + 1);
    } else if i < k - 1 {
      assert !Touch(h, i);
    } else {
      assert g.free[i] == h.free[k - 1] && g.free[i + 1] == h.free[k + 1];
    }
  }

  lemma TakePartRing(h: Heap, k: nat, n: nat)
    requires Inv(h) && Coalesced(h) && 1 <= k < |h.free| && 1 <= n < h.size[h.free[k]]
    ensures var g := Take(h, k, n);
      RingOk(g) && Ascending(g.free) && Coalesced(g)
  {
    CutFresh(h, k, n);
    var g, q := Take(h, k, n), Cut(h, k, n);
    assert forall i :: 0 <= i < |h.free| ==> h.free[i] in h.free;
    if k + 1 < |h.free| { FreeApart(h, k); }
    forall i: nat | i + 1 < |g.free| ensures !Touch(g, i) { assert !Touch(h, i); }
  }

  lemma TakeRing(h: Heap, k: nat, n: nat)
    requires Inv(h) && Coalesced(h) && 1 <= k < |h.free| && 1 <= n <= h.size[h.free[k]]
    ensures RingOk(Take(h, k, n)) && Ascending(Take(h, k, n).free) && Coalesced(Take(h, k, n))
    ensures Take(h, k, n).own.Keys == h.own.Keys
  {
    CutFresh(h, k, n);
    FreeApart(h, k - 1);
    if n == h.size[h.free[k]] { TakeWholeRing(h, k); } else { TakePartRing(h, k, n); }
  }

  lemma TakeFree(h: Heap, k: nat, n: nat, i: nat)
    requires Inv(h) && 1 <= k < |h.free| && 1 <= n <= h.size[h.free[k]]
    requires RingOk(Take(h, k, n)) && i < |Take(h, k, n).free|
    ensures FreeOk(Take(h, k, n), i)
  {
    CutFresh(h, k, n);
    var g := Take(h, k, n);
    var x := if h.size[h.free[k]] == n && i >= k then i + 1 else i;
    assert FreeOk(h, x) && g.free[i] == h.free[x];
    forall u | g.free[i] <= u < g.free[i] + g.size[g.free[i]]
      ensures u in g.own && g.own[u] == FreeB(g.free[i])
    {
      assert u in h.own;
    }
  }

  lemma TakeUnit(h: Heap, k: nat, n: nat, u: nat)
    requires Inv(h) && 1 <= k < |h.free| && 1 <= n <= h.size[h.free[k]]
    requires u in h.own && u in Take(h, k, n).own
    ensures UnitOk(Take(h, k, n), u)
  {
    CutFresh(h, k, n);
    assert UnitOk(h, u) && FreeOk(h, k);
    RemovedMembers(h.free, k, h.own[u].a);
  }

  lemma TakeLive(h: Heap, k: nat, n: nat, a: nat)
    requires Inv(h) && 1 <= k < |h.free| && 1 <= n <= h.size[h.free[k]] && a in Take(h, k, n).live
    ensures LiveOk(Take(h, k, n), a)
  {
    CutFresh(h, k, n);
    if a in h.live {
      assert LiveOk(h, a) && FreeOk(h, k);
      assert a in h.own && h.free[k] in h.own;
    }
  }

  /** malloc's cut: n units of a free block become one live block, and every other
      block, free or live, keeps its units. */
  lemma TakeInv(h: Heap, k: nat, n: nat)
    requires Inv(h) && Coalesced(h) && 1 <= k < |h.free| && 1 <= n <= h.size[h.free[k]]
    ensures Inv(Take(h, k, n)) && Coalesced(Take(h, k, n))
    ensures Take(h, k, n).own.Keys == h.own.Keys && Take(h, k, n).base == h.base
    ensures Cut(h, k, n) !in h.live && Take(h, k, n).live == h.live[Cut(h, k, n) := n]
  {
    TakeRing(h, k, n);
    assert Cut(h, k, n) !in h.live by { CutFresh(h, k, n); }
    TakeBlocks(h, k, n);
  }

  lemma TakeBlocks(h: Heap, k: nat, n: nat)
    requires Inv(h) && 1 <= k < |h.free| && 1 <= n <= h.size[h.free[k]]
    requires RingOk(Take(h, k, n)) && Take(h, k, n).own.Keys == h.own.Keys
    ensures var g := Take(h, k, n);
      && (forall i: nat {:trigger FreeOk(g, i)} :: i < |g.free| ==> FreeOk(g, i))
      && (forall a: nat {:trigger LiveOk(g, a)} :: a in g.live ==> LiveOk(g, a))
      && (forall u: nat {:trigger UnitOk(g, u)} :: u in g.own ==> UnitOk(g, u))
  {
    var g := Take(h, k, n);
    forall i: nat | i < |g.free| ensures FreeOk(g, i) { TakeFree(h, k, n, i); }
    forall a: nat | a in g.live ensures LiveOk(g, a) { TakeLive(h, k, n, a); }
    forall u: nat | u in g.own ensures UnitOk(g, u) {
      assert u in g.own.Keys;
      TakeUnit(h, k, n, u);
    }
  }

  // ---- What the invariant gives a program ----

  /** Two blocks handed out never share a unit, and none lies in free memory. */
  lemma LiveApart(h: Heap, a: nat, b: nat, u: nat)
    requires Inv(h) && a in h.live && b in h.live && a <= u < a + h.live[a]
    ensures b <= u < b + h.live[b] ==> a == b
    ensures forall i: nat :: i < |h.free| ==> !(h.free[i] <= u < h.free[i] + h.size[h.free[i]])
  {
    assert LiveOk(h, a) && LiveOk(h, b);
    assert u in h.own;
    forall i: nat | i < |h.free| ensures !(h.free[i] <= u < h.free[i] + h.size[h.free[i]]) { assert FreeOk(h, i); }
  }

  /** Memory that is free is in as few blocks as it can be: neighbouring free units
      are always part of the same block. */
  lemma FullyCoalesced(h: Heap, u: nat)
    requires Inv(h) && Coalesced(h) && u in h.own && u + 1 in h.own && h.own[u].FreeB? && h.own[u + 1].FreeB?
    ensures h.own[u] == h.own[u + 1]
  {
    assert UnitOk(h, u) && UnitOk(h, u + 1);
    var a, b := h.own[u].a, h.own[u + 1].a;
    if a != b {
      var i :| 0 <= i < |h.free| && h.free[i] == a;
      var j :| 0 <= j < |h.free| && h.free[j] == b;
      assert FreeOk(h, i) && FreeOk(h, j);
      assert a + h.size[a] == u + 1 == b;
      assert i + 1 < |h.free| && !Touch(h, i);
      FreeApart(h, i);
    }
  }
}
