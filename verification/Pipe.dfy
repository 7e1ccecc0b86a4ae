/** kernel/pipe.c: the buffer with its 32-bit counters, and what one stretch of pipewrite
    or piperead under the lock does to it. */
module Pipe {
  import opened Common

  const PIPESIZE: nat := 512
  const U32: nat := 0x1_0000_0000

  // ---- Counters: total bytes written w and read r, kept modulo 2 to the 32 ----

  lemma SlotOf(w: nat)
    ensures w % 0x1_0000_0000 % 512 == w % 512
    ensures (w % 0x1_0000_0000 + 1) % 0x1_0000_0000 == (w + 1) % 0x1_0000_0000
  {
    var q := w / 0x1_0000_0000;
    assert w == 0x80_0000 * q * 512 + w % 0x1_0000_0000;
    ModPlus(w % 0x1_0000_0000, 0x80_0000 * q);
  }

  lemma {:induction false} ModPlus(a: nat, k: nat)
    ensures (k * 512 + a) % 512 == a % 512
  {
    if k > 0 { ModPlus(a, k - 1); }
  }

  // The tests for full and empty mean what they say although the counters wrap.
  lemma FullTest(r: nat, w: nat)
    requires r <= w <= r + 512
    ensures w % U32 == (r % U32 + 512) % U32 <==> w == r + 512
    ensures r % U32 == w % U32 <==> r == w
  {
  }

  // Different bytes of one buffer load are in different slots.
  lemma SlotsApart(r: nat, j: nat, k: nat)
    requires r <= j < k < r + 512
    ensures j % 512 != k % 512
  {
  }

  // The bytes numbered r to w - 1.
  function Between(d: seq<byte>, r: nat, w: nat): (c: seq<byte>)
    requires |d| == 512 && r <= w
  {
    seq(w - r, k requires 0 <= k < w - r => d[(r + k) % 512])
  }

  lemma BetweenPut(d: seq<byte>, r: nat, w: nat, ch: byte)
    requires |d| == 512 && r <= w < r + 512
    ensures Between(d[w % 512 := ch], r, w + 1) == Between(d, r, w) + [ch]
  {
    var a, b := Between(d[w % 512 := ch], r, w + 1), Between(d, r, w);
    forall k | 0 <= k < w - r ensures a[k] == b[k] { SlotsApart(r, r + k, w); }
  }

  lemma BetweenGet(d: seq<byte>, r: nat, w: nat)
    requires |d| == 512 && r < w
    ensures Between(d, r, w) == [d[r % 512]] + Between(d, r + 1, w)
  {
    var a, b := Between(d, r, w), Between(d, r + 1, w);
    forall k | 1 <= k < w - r ensures a[k] == b[k - 1] { assert r + k == r + 1 + (k - 1); }
  }

  class Buffer {
    const data: array<byte>
    var nread: nat
    var nwrite: nat
    ghost var r: nat          // bytes ever read
    ghost var w: nat          // bytes ever written

    ghost predicate Valid()
      reads this
    {
      && data.Length == PIPESIZE && r <= w <= r + PIPESIZE
      && nread == r % U32 && nwrite == w % U32
    }

    // The bytes between the two ends, oldest first.
    ghost function Contents(): seq<byte>
      requires Valid()
      reads this, data
    {
      Between(data[..], r, w)
    }

    constructor ()
      ensures Valid() && Contents() == [] && fresh(data)
    {
      data := new byte[PIPESIZE];
      nread, nwrite, r, w := 0, 0, 0, 0;
    }

    predicate Full()
      reads this
    {
      nwrite == (nread + PIPESIZE) % U32
    }

    // A byte into the slot of the write count, which then moves on.
    method Put(ch: byte)
      requires Valid() && !Full()
      modifies this`nwrite, this`w, data
      ensures Valid() && Contents() == old(Contents()) + [ch] && w == old(w) + 1
    {
      FullTest(r, w);
      SlotOf(w);
      BetweenPut(data[..], r, w, ch);
      data[nwrite % PIPESIZE] := ch;
      assert data[..] == old(data[..])[w % 512 := ch];
      nwrite := (nwrite + 1) % U32;
      w := w + 1;
    }

    // The byte in the slot of the read count, which then moves on.
    method Get() returns (ch: byte)
      requires Valid() && nread != nwrite
      modifies this`nread, this`r
      ensures Valid() && old(Contents()) == [ch] + Contents() && r == old(r) + 1
    {
      FullTest(r, w);
      SlotOf(r);
      BetweenGet(data[..], r, w);
      ch := data[nread % PIPESIZE];
      nread := (nread + 1) % U32;
      r := r + 1;
    }

    /** pipewrite's loop from byte start on, until all is written, copyin fails at byte
        bad, or the buffer is full. */
    method Write(src: seq<byte>, start: nat, bad: nat) returns (i: nat, full: bool)
      requires Valid() && start <= |src|
      modifies this`nwrite, this`w, data
      ensures Valid() && r == old(r)
      ensures i == start + Fit(|src|, start, bad, PIPESIZE - |old(Contents())|)
      ensures Contents() == old(Contents()) + src[start..i]
      ensures full <==> i < |src| && |Contents()| == PIPESIZE
    {
      i, full := start, false;
      while i < |src|
        invariant Valid() && r == old(r) && start <= i <= |src| && (start <= bad ==> i <= bad || i == start)
        invariant Contents() == old(Contents()) + src[start..i]
      {
        FullTest(r, w);
        if Full() {
          full := true;
          return;
        }
        if i == bad {
          return;
        }
        Put(src[i]);
        i := i + 1;
      }
    }

    /** piperead's loop: taken is what leaves the buffer, and all of it reaches the caller
        unless copyout fails at byte bad. */
    method Read(n: nat, bad: nat) returns (i: nat, ghost taken: seq<byte>)
      requires Valid()
      modifies this`nread, this`r
      ensures Valid() && w == old(w)
      ensures old(Contents()) == taken + Contents() && |taken| == Drawn(n, bad, |old(Contents())|)
      ensures i == if bad < |taken| then bad else |taken|
    {
      i, taken := 0, [];
      while i < n
        invariant Valid() && w == old(w) && i <= n && i <= bad && |taken| == i
        invariant old(Contents()) == taken + Contents()
      {
        FullTest(r, w);
        if nread == nwrite {
          break;
        }
        var ch := Get();
        Regroup(taken, [ch], Contents());
        taken := taken + [ch];
        if i == bad {
          return;
        }
        i := i + 1;
      }
    }
  }

  lemma Regroup(a: seq<byte>, b: seq<byte>, c: seq<byte>)
    ensures a + (b + c) == a + b + c
  {
  }

  // Bytes that pipewrite moves from byte start of n on, given room for so many.
  function Fit(n: nat, start: nat, bad: nat, room: nat): nat
    requires start <= n
  {
    Min((if start <= bad < n then bad else n) - start, room)
  }

  // Bytes that piperead takes out of a buffer of len; the one that copyout fails on is lost.
  function Drawn(n: nat, bad: nat, len: nat): nat {
    var k := Min(n, len);
    if bad < k then bad + 1 else k
  }
}
