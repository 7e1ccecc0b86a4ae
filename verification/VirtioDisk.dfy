/** The descriptor table of kernel/virtio_disk.c, updated in place. */
module VirtioDisk {
  import opened Virtqueue

  // A linked list of descriptors: all but the last carry VRING_DESC_F_NEXT.
  predicate Linked(desc: seq<Desc>, path: seq<nat>) {
    && path != [] && |desc| == 8
    && (forall i :: 0 <= i < |path| ==> path[i] < 8)
    && (forall i, j :: 0 <= i < j < |path| ==> path[i] != path[j])
    && (forall i, j :: 0 <= i < |path| && j == i + 1 < |path| ==>
          desc[path[i]].flags % 2 == 1 && desc[path[i]].next == path[j])
    && desc[path[|path| - 1]].flags % 2 == 0
  }

  lemma LinkAt(desc: seq<Desc>, path: seq<nat>, n: nat)
    requires Linked(desc, path) && n < |path|
    ensures var d := desc[path[n]];
      if d.flags % 2 == 1 then n + 1 < |path| && d.next == path[n + 1] else n + 1 == |path|
  {
    var m := n + 1;
    if m < |path| { assert desc[path[n]].next == path[m]; }
  }

  // b is o with the descriptors of part free as well.
  predicate Freed(b: seq<bool>, o: seq<bool>, part: seq<nat>) {
    |b| == |o| && forall x: nat :: x < |b| ==> (b[x] <==> o[x] || x in part)
  }

  lemma FreedMore(b: seq<bool>, o: seq<bool>, path: seq<nat>, n: nat)
    requires n < |path| && path[n] < |b| && Freed(b, o, path[..n])
    ensures Freed(b[path[n] := true], o, path[..n + 1])
  {
    assert path[..n + 1] == path[..n] + [path[n]];
  }

  class Table {
    const free: array<bool>
    const desc: array<Desc>

    ghost predicate Valid() {
      free.Length == 8 && desc.Length == 8
    }

    constructor ()
      ensures Valid() && fresh(free) && fresh(desc) && forall i :: 0 <= i < 8 ==> free[i]
    {
      free := new bool[8](_ => true);
      desc := new Desc[8](_ => Desc(0, 0));
    }

    /** alloc_desc: the first free descriptor, now taken, or -1. */
    method AllocDesc() returns (r: int)
      requires Valid()
      modifies free
      ensures r == -1 ==> free[..] == old(free[..]) && forall i :: 0 <= i < 8 ==> !free[i]
      ensures r != -1 ==> 0 <= r < 8 && old(free[r]) && free[..] == old(free[..])[r := false]
      ensures r != -1 ==> forall i :: 0 <= i < r ==> !old(free[i])
    {
      for i := 0 to 8
        invariant free[..] == old(free[..])
        invariant forall k :: 0 <= k < i ==> !free[k]
      {
        if free[i] {
          free[i] := false;
          return i;
        }
      }
      return -1;
    }

    /** free_desc, on a descriptor that makes neither test panic. */
    method FreeDesc(i: nat)
      requires Valid() && i < 8 && !free[i]
      modifies free
      ensures free[..] == old(free[..])[i := true]
    {
      free[i] := true;
    }

    /** free_chain: exactly the descriptors linked from the first one become free. */
    method FreeChain(first: nat, ghost path: seq<nat>)
      requires Valid() && Linked(desc[..], path) && path[0] == first
      requires forall k :: 0 <= k < |path| ==> !free[path[k]]
      modifies free
      ensures Freed(free[..], old(free[..]), path)
    {
      var i := first;
      ghost var n := 0;
      ghost var o := free[..];
      while true
        invariant 0 <= n < |path| && i == path[n]
        invariant forall k :: n <= k < |path| ==> !free[path[k]]
        invariant Freed(free[..], o, path[..n])
        decreases |path| - n
      {
        FreedMore(free[..], o, path, n);
        FreeDesc(i);
        LinkAt(desc[..], path, n);
        if desc[i].flags % 2 == 1 {
          i := desc[i].next;
          n := n + 1;
        } else {
          assert path[..n + 1] == path;
          break;
        }
      }
    }

    /** alloc3_desc: three descriptors, or none when fewer than three are free. */
    method Alloc3Desc() returns (ok: bool, idx: seq<nat>)
      requires Valid()
      modifies free
      ensures ok ==> |idx| == 3 && idx[0] < idx[1] < idx[2] < 8
      ensures ok ==> forall i: nat :: i < 8 ==> (free[i] <==> old(free[i]) && i !in idx)
      ensures ok ==> forall k :: 0 <= k < 3 ==> old(free[idx[k]])
      ensures !ok ==> free[..] == old(free[..])
      ensures ok <==> exists i, j, k :: 0 <= i < j < k < 8 && old(free[i]) && old(free[j]) && old(free[k])
    {
      idx := [];
      for i := 0 to 3
        invariant |idx| == i && forall k :: 0 <= k < i ==> idx[k] < 8 && old(free[idx[k]])
        invariant forall k, l :: 0 <= k < l < i ==> idx[k] < idx[l]
        invariant forall x: nat :: x < 8 ==> (free[x] <==> old(free[x]) && x !in idx)
        invariant i > 0 ==> forall x: nat :: x <= idx[i - 1] && old(free[x]) ==> x in idx
      {
        var d := AllocDesc();
        if d < 0 {
          Release(idx);
          return false, [];
        }
        idx := idx + [d];
      }
      ok := true;
    }

    // alloc3_desc gives back what it has taken.
    method Release(idx: seq<nat>)
      requires Valid()
      requires forall k :: 0 <= k < |idx| ==> idx[k] < 8 && !free[idx[k]]
      requires forall k, l :: 0 <= k < l < |idx| ==> idx[k] != idx[l]
      modifies free
      ensures Freed(free[..], old(free[..]), idx)
    {
      for j := 0 to |idx|
        invariant Freed(free[..], old(free[..]), idx[..j])
        invariant forall k :: j <= k < |idx| ==> !free[idx[k]]
      {
        FreedMore(free[..], old(free[..]), idx, j);
        FreeDesc(idx[j]);
      }
      assert idx[..|idx|] == idx;
    }
  }
}
