/** kernel/bio.c itself: buffers in an array, linked in a ring through prev and next,
    each operation proved to be the corresponding step of BufferCache. */
module BufferRing {
  import opened Common
  import opened RedoLog
  import opened BufferCache
  import opened Finite

  const HEAD: nat := NBUF

  // The ring as walked from the head back to the head.
  function Ring(order: seq<nat>): seq<nat> { [HEAD] + order + [HEAD] }

  // p and n link the buffers of order, and the head, into a ring.
  predicate Linked(p: seq<nat>, n: seq<nat>, order: seq<nat>) {
    && |p| == |n| == NBUF + 1
    && (forall i :: 0 <= i < |order| ==> order[i] < NBUF)
    && (forall i, j :: 0 <= i < j < |order| ==> order[i] != order[j])
    && LinkedRing(p, n, Ring(order))
  }

  predicate LinkedRing(p: seq<nat>, n: seq<nat>, ring: seq<nat>) {
    && |p| == |n| == NBUF + 1
    && (forall i :: 0 <= i < |ring| ==> ring[i] <= NBUF)
    && (forall i, j :: 0 <= i && j == i + 1 < |ring| ==> n[ring[i]] == ring[j] && p[ring[j]] == ring[i])
  }

  lemma UnlinkKeepsRing(p: seq<nat>, n: seq<nat>, order: seq<nat>, j: nat)
    requires Linked(p, n, order) && j < |order|
    ensures n[order[j]] <= NBUF && p[order[j]] <= NBUF
    ensures var b := order[j];
      Linked(p[n[b] := p[b]], n[p[b] := n[b]], Without(order, j))
  {
    hide Ring, LinkedRing, Without;
    RingAround(p, n, order, j);
    var b, o := order[j], Without(order, j);
    WithoutAt(order, j);
    UnlinkedRing(p, n, order, j, p[n[b] := p[b]], n[p[b] := n[b]], Ring(o));
  }

  lemma WithoutAt(order: seq<nat>, j: nat)
    requires j < |order|
    requires forall i :: 0 <= i < |order| ==> order[i] < NBUF
    requires forall i, j :: 0 <= i < j < |order| ==> order[i] != order[j]
    ensures forall i :: 0 <= i < |Without(order, j)| ==> Without(order, j)[i] < NBUF
    ensures forall i, k :: 0 <= i < k < |Without(order, j)| ==> Without(order, j)[i] != Without(order, j)[k]
    ensures Ring(Without(order, j)) == Ring(order)[..j + 1] + Ring(order)[j + 2..]
  {
  }

  // What place j of the order is linked to.
  lemma RingAround(p: seq<nat>, n: seq<nat>, order: seq<nat>, j: nat)
    requires Linked(p, n, order) && j < |order|
    ensures var ring := Ring(order);
      && |ring| == |order| + 2 && ring[j + 1] == order[j] && n[order[j]] == ring[j + 2] && p[order[j]] == ring[j]
      && ring[j] <= NBUF && ring[j + 2] <= NBUF
  {
    var ring := Ring(order);
    assert ring[j + 1] == order[j];
  }

  lemma UnlinkedRing(p: seq<nat>, n: seq<nat>, order: seq<nat>, j: nat, p': seq<nat>, n': seq<nat>, ring': seq<nat>)
    requires Linked(p, n, order) && j < |order|
    requires n[order[j]] <= NBUF && p[order[j]] <= NBUF
    requires p' == p[n[order[j]] := p[order[j]]] && n' == n[p[order[j]] := n[order[j]]]
    requires ring' == Ring(order)[..j + 1] + Ring(order)[j + 2..]
    ensures LinkedRing(p', n', ring')
  {
    var ring := Ring(order);
    RingAround(p, n, order, j);
    RingNeighbours(order, j);
    assert LinkedRing(p, n, ring);
    hide Ring;
    forall i, k | 0 <= i && k == i + 1 < |ring'|
      ensures n'[ring'[i]] == ring'[k] && p'[ring'[k]] == ring'[i]
    {
      if k <= j {
        assert ring'[i] == ring[i] && ring'[k] == ring[k];
      } else if i > j {
        assert ring'[i] == ring[i + 1] && ring'[k] == ring[k + 1];
      } else {
        assert ring'[i] == ring[j] && ring'[k] == ring[j + 2];
      }
    }
  }

  // Only the two neighbours of place j on the ring have j as a link target.
  lemma RingNeighbours(order: seq<nat>, j: nat)
    requires j < |order| && (forall i :: 0 <= i < |order| ==> order[i] < NBUF)
    requires forall i, j :: 0 <= i < j < |order| ==> order[i] != order[j]
    ensures var ring := Ring(order);
      && (forall i :: 0 <= i <= |order| && i != j ==> ring[i] != ring[j])
      && (forall i :: 0 < i <= |order| + 1 && i != j + 2 ==> ring[i] != ring[j + 2])
  {
  }

  lemma PushFrontKeepsRing(p: seq<nat>, n: seq<nat>, order: seq<nat>, b: nat)
    requires Linked(p, n, order) && b < NBUF && b !in order
    ensures n[HEAD] <= NBUF
    ensures Linked(p[b := HEAD][n[HEAD] := b], n[b := n[HEAD]][HEAD := b], [b] + order)
  {
    var ring := Ring(order);
    assert ring[0] == HEAD && n[HEAD] == ring[1];
    var p', n', o := p[b := HEAD][n[HEAD] := b], n[b := n[HEAD]][HEAD := b], [b] + order;
    var ring' := Ring(o);
    assert forall i :: 1 < i < |ring'| ==> ring'[i] == ring[i - 1];
    forall i, k | 0 <= i && k == i + 1 < |ring'|
      ensures n'[ring'[i]] == ring'[k] && p'[ring'[k]] == ring'[i]
    {
      if i > 1 { assert n[ring[i - 1]] == ring[i] && p[ring[i]] == ring[i - 1]; }
    }
  }

  class BCache {
    const buf: array<Buf>
    const prev: array<nat>
    const next: array<nat>
    var disk: map<Key, Block>
    ghost var order: seq<nat>
    ghost var users: seq<nat>
    ghost var dirty: seq<bool>
    ghost var pending: map<Key, Block>

    ghost function Abs(): Cache
      reads this, buf
    {
      Cache(buf[..], order, users, dirty, pending, disk)
    }

    ghost predicate Valid()
      reads this, buf, prev, next
    {
      && buf.Length == NBUF && prev.Length == next.Length == NBUF + 1 && prev != next
      && Inv(Abs())
      && Linked(prev[..], next[..], order)
    }

    // Insert b right after the head, as binit and brelse do.
    method PushFront(b: nat, ghost o: seq<nat>)
      requires prev.Length == next.Length == NBUF + 1 && prev != next
      requires Linked(prev[..], next[..], o) && b < NBUF && b !in o
      modifies prev, next
      ensures Linked(prev[..], next[..], [b] + o)
    {
      ghost var p: seq<nat>, n: seq<nat> := prev[..], next[..];
      PushFrontKeepsRing(p, n, o, b);
      next[b] := next[HEAD];
      prev[b] := HEAD;
      prev[next[HEAD]] := b;
      next[HEAD] := b;
      assert prev[..] == p[b := HEAD][n[HEAD] := b];
      assert next[..] == n[b := n[HEAD]][HEAD := b];
    }

    /** binit: every buffer on the ring, all of device 0 and unused. */
    constructor (disk: map<Key, Block>)
      ensures Valid() && fresh(buf) && fresh(prev) && fresh(next) && buf.Length == 30
      ensures this.disk == disk && pending == map[]
      ensures forall i :: 0 <= i < NBUF ==> buf[i].key == Key(0, 0) && buf[i].refcnt == 0
    {
      this.disk := disk;
      buf := new Buf[NBUF](i => Buf(Key(0, 0), 0, false, false, seq(BLOCK_WORDS, _ => 0)));
      prev := new nat[NBUF + 1](i => HEAD);
      next := new nat[NBUF + 1](i => HEAD);
      order := [];
      users := seq(NBUF, _ => 0);
      dirty := seq(NBUF, _ => false);
      pending := map[];
      new;
      ghost var o: seq<nat> := [];
      for b := 0 to NBUF
        invariant Linked(prev[..], next[..], o)
        invariant |o| == b && forall i :: 0 <= i < b ==> o[i] < b
        invariant fresh(prev) && fresh(next) && this.disk == disk
        invariant users == seq(NBUF, _ => 0) && dirty == seq(NBUF, _ => false) && pending == map[]
        invariant forall i :: 0 <= i < NBUF ==> buf[i] == Buf(Key(0, 0), 0, false, false, seq(BLOCK_WORDS, _ => 0))
      {
        PushFront(b, o);
        o := [b] + o;
      }
      order := o;
      forall i | 0 <= i < NBUF ensures BufInv(Abs(), i) {}
    }

    // bget's first scan: from the most recently used buffer on.
    method FindCached(k: Key) returns (b: nat)
      requires Valid()
      ensures b <= NBUF
      ensures b == HEAD <==> !Cached(Abs(), k)
      ensures b != HEAD ==> HasKey(Abs(), b, k)
    {
      ghost var ring := Ring(order);
      assert ring[0] == HEAD == ring[NBUF + 1] && ring[1] == next[HEAD];
      b := next[HEAD];
      ghost var pos := 0;
      while b != HEAD
        invariant 0 <= pos <= NBUF && b == ring[pos + 1] && ring[NBUF + 1] == HEAD
        invariant forall m :: 0 <= m < pos ==> buf[order[m]].key != k
        decreases NBUF - pos
      {
        if buf[b].key == k {
          assert HasKey(Abs(), b, k);
          return;
        }
        assert ring[pos + 2] == next[b];
        b := next[b];
        pos := pos + 1;
      }
      NotOnRingNotCached(Abs(), k);
    }

    // bget's second scan: from the least recently used buffer back.
    method FindUnused() returns (b: nat, ghost j: nat)
      requires Valid()
      ensures b <= NBUF
      ensures b == HEAD ==> forall m :: 0 <= m < NBUF ==> buf[order[m]].refcnt != 0
      ensures b != HEAD ==> IsVictim(Abs(), b, j)
    {
      ghost var ring := Ring(order);
      assert ring[0] == HEAD == ring[NBUF + 1] && ring[NBUF] == prev[HEAD];
      b := prev[HEAD];
      j := 0;
      ghost var pos := NBUF - 1;
      while b != HEAD
        invariant -1 <= pos < NBUF && b == ring[pos + 1] && ring[0] == HEAD
        invariant forall m :: pos < m < NBUF ==> buf[order[m]].refcnt != 0
        decreases pos
      {
        if buf[b].refcnt == 0 {
          j := pos;
          return;
        }
        assert ring[pos] == prev[b];
        b := prev[b];
        pos := pos - 1;
      }
    }

    /** bget without the lock wait: the cached buffer, else the least recently used
        unreferenced one; None is the panic "no buffers". */
    method Bget(k: Key) returns (r: Option<nat>, ghost j: nat)
      requires Valid() && k.dev != 0 && k in disk
      requires forall i :: 0 <= i < NBUF ==> users[i] < UINT_MAX - 1
      modifies buf, this`users, this`dirty
      ensures Valid()
      ensures r.None? <==> NoBuffer(old(Abs()), k)
      ensures r.None? ==> Abs() == old(Abs())
      ensures r.Some? ==> Enabled(old(Abs()), SGet(k, r.value, j))
      ensures r.Some? ==> Abs() == Next(old(Abs()), SGet(k, r.value, j))
    {
      ghost var c := Abs();
      j := 0;
      var b := FindCached(k);
      if b != HEAD {
        StepInv(c, SGet(k, b, j));
        buf[b] := buf[b].(refcnt := Inc(buf[b].refcnt));
        users := users[b := users[b] + 1];
        assert Abs() == Hit(c, b);
        return Some(b), j;
      }
      b, j := FindUnused();
      if b != HEAD {
        assert !HasKey(c, b, k);
        StepInv(c, SGet(k, b, j));
        buf[b] := buf[b].(key := k, valid := false, refcnt := 1);
        users := users[b := users[b] + 1];
        dirty := dirty[b := false];
        assert Abs() == Recycle(c, b, k);
        return Some(b), j;
      }
      return None, j;
    }

    // The ring misses no buffer.
    lemma NotOnRingNotCached(c: Cache, k: Key)
      requires Inv(c)
      requires forall m :: 0 <= m < NBUF ==> c.bufs[c.order[m]].key != k
      ensures !Cached(c, k)
    {
      forall i: nat | i < NBUF ensures c.bufs[i].key != k {
        Surjective(c.order, i);
      }
    }

    // acquiresleep, once the lock is free
    method AcquireSleep(i: nat)
      requires Valid() && Enabled(Abs(), SLock(i))
      modifies buf
      ensures Valid() && Abs() == Lock(old(Abs()), i)
    {
      StepInv(Abs(), SLock(i));
      ghost var c := Abs();
      buf[i] := buf[i].(locked := true);
      assert Abs() == Lock(c, i);
    }

    /** bread: the locked buffer shows the store. When another process holds the buffer, the
        caller waits for its lock, already counted as a user; it goes on as AcquireSleep and
        FillIn once the lock is free. */
    method Bread(k: Key) returns (r: Option<nat>, waits: bool)
      requires Valid() && k.dev != 0 && k in disk
      requires forall i :: 0 <= i < NBUF ==> users[i] < UINT_MAX - 1
      modifies buf, this`users, this`dirty
      ensures Valid() && pending == old(pending) && disk == old(disk)
      ensures r.None? <==> NoBuffer(old(Abs()), k)
      ensures waits <==> exists i: nat :: i < NBUF && HasKey(old(Abs()), i, k) && old(Abs()).bufs[i].locked
      ensures waits ==> r.Some? && r.value < NBUF && HasKey(old(Abs()), r.value, k)
      ensures waits ==> Abs() == Hit(old(Abs()), r.value)
      ensures r.Some? && !waits ==>
        && r.value < NBUF && buf[r.value].key == k && buf[r.value].locked && buf[r.value].valid
        && buf[r.value].data == Store(Abs(), k)
    {
      ghost var j;
      waits := false;
      r, j := Bget(k);
      if r.None? { return; }
      var b := r.value;
      assert BufInv(old(Abs()), b);
      if buf[b].locked {
        return r, true;
      }
      AcquireSleep(b);
      FillIn(b);
    }

    // The rest of bread, under the lock.
    method FillIn(b: nat)
      requires Valid() && Enabled(Abs(), SFill(b)) && !dirty[b]
      modifies buf
      ensures Valid() && InStore(old(Abs()), old(buf[b]).key) && Abs() == Fill(old(Abs()), b)
      ensures buf[b].valid && buf[b].data == Store(Abs(), buf[b].key)
    {
      ghost var c := Abs();
      StepInv(c, SFill(b));
      if !buf[b].valid {
        buf[b] := buf[b].(valid := true, data := disk[buf[b].key]);
      }
      assert Abs() == Fill(c, b);
      assert BufInv(Abs(), b);
    }

    method Bwrite(i: nat)
      requires Valid() && Enabled(Abs(), SWrite(i))
      modifies this`disk, this`dirty
      ensures Valid() && Abs() == WriteBack(old(Abs()), i)
    {
      StepInv(Abs(), SWrite(i));
      disk := disk[buf[i].key := buf[i].data];
      dirty := dirty[i := false];
    }

    // The part of log_write that concerns the cache: bpin, for a block new to the log.
    method Bpin(i: nat)
      requires Valid() && Enabled(Abs(), SLog(i)) && buf[i].key !in pending
      modifies buf, this`dirty, this`pending
      ensures Valid() && Abs() == LogIt(old(Abs()), i)
    {
      ghost var c := Abs();
      StepInv(c, SLog(i));
      buf[i] := buf[i].(refcnt := Inc(buf[i].refcnt));
      dirty := dirty[i := false];
      pending := pending[buf[i].key := buf[i].data];
      assert Abs() == LogIt(c, i);
    }

    lemma UnpinInv(c: Cache, i: nat)
      requires Inv(c) && i < NBUF
      ensures Enabled(c, SUnpin(i)) ==> Inv(Unpin(c, i))
      ensures c.bufs[i].key !in c.pending ==> !Inv(Unpin(c, i))
    {
      hide Unique, IsPermutation, PendingInv;
      if Enabled(c, SUnpin(i)) { StepInv(c, SUnpin(i)); }
      if c.bufs[i].key !in c.pending {
        assert BufInv(c, i);
        assert !BufInv(Unpin(c, i), i);
      }
    }

    /** bunpin, of any buffer: the cache stays valid when the block is pinned, locked and
        written home, as on commit's path, and does not when nobody has pinned it. */
    method Bunpin(i: nat)
      requires Valid() && i < NBUF
      modifies buf, this`pending
      ensures Abs() == Unpin(old(Abs()), i)
      ensures Enabled(old(Abs()), SUnpin(i)) ==> Valid()
      ensures old(buf[i]).key !in old(pending) ==> !Valid()
    {
      ghost var c := Abs();
      UnpinInv(c, i);
      buf[i] := buf[i].(refcnt := Dec(buf[i].refcnt));
      pending := pending - {buf[i].key};
      assert Abs() == Unpin(c, i);
    }

    /** brelse: release the lock, drop the reference, and move an unused buffer to
        the front of the ring. */
    method Brelse(i: nat) returns (ghost j: nat)
      requires Valid() && Enabled(Abs(), SUnlock(i))
      modifies buf, prev, next, this`users, this`order
      ensures Valid()
      ensures old(users)[i] > 0 && j < NBUF && old(order)[j] == i
      ensures Abs() == Drop(Unlock(old(Abs()), i), i, j)
    {
      ghost var c := Abs();
      j := Releasing(c, i);
      buf[i] := buf[i].(locked := false);
      buf[i] := buf[i].(refcnt := Dec(buf[i].refcnt));
      users := users[i := users[i] - 1];
      if buf[i].refcnt == 0 {
        MoveToFront(i, j);
      }
      assert buf[..] == Drop(Unlock(c, i), i, j).bufs;
    }

    // The place of a held buffer on the ring, and that releasing it is a step of the cache.
    lemma Releasing(c: Cache, i: nat) returns (j: nat)
      requires Inv(c) && Enabled(c, SUnlock(i))
      ensures c.users[i] > 0 && j < NBUF && c.order[j] == i && Inv(Drop(Unlock(c, i), i, j))
    {
      assert BufInv(c, i);
      StepInv(c, SUnlock(i));
      Surjective(c.order, i);
      j :| j < NBUF && c.order[j] == i;
      StepInv(Unlock(c, i), SDrop(i, j));
    }

    method MoveToFront(i: nat, ghost j: nat)
      requires prev.Length == next.Length == NBUF + 1 && prev != next
      requires Linked(prev[..], next[..], order) && j < |order| && order[j] == i
      modifies prev, next, this`order
      ensures order == [i] + Without(old(order), j)
      ensures Linked(prev[..], next[..], order)
    {
      ghost var p: seq<nat>, n: seq<nat> := prev[..], next[..];
      UnlinkKeepsRing(p, n, order, j);
      prev[next[i]] := prev[i];
      assert n[i] != i by { assert Ring(order)[j + 1] == i && n[i] == Ring(order)[j + 2]; }
      next[prev[i]] := next[i];
      order := Without(order, j);
      assert prev[..] == p[n[i] := p[i]] && next[..] == n[p[i] := n[i]];
      PushFront(i, order);
      order := [i] + order;
    }
  }
}
