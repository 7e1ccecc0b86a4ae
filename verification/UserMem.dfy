/** User memory as bytes: what copyin and copyout of kernel/vm.c read and write, across
    page boundaries. */
module UserMem {
  import opened Common
  import opened PageTable
  import opened VmSpec

  // walkaddr succeeds: mapped for the user, below MAXVA.
  predicate Accessible(m: Mem, w: Va) {
    w.vpn < MAXVPN && w in m.flat && m.flat[w].perm.u
  }

  // Every page the user can reach belongs to its mapping.
  predicate UserOwned(m: Mem, root: nat) {
    forall w :: w in m.flat && w.root == root && m.flat[w].perm.u ==> Owns(m, w)
  }

  function PageOf(root: nat, a: nat): Va { Va(root, a / 4096) }

  // The byte at user address a.
  function UserByte(m: Mem, root: nat, a: nat): byte
    requires HasUser(m, PageOf(root, a))
  {
    m.pages[m.flat[PageOf(root, a)].ppn].bytes[a % 4096]
  }

  lemma AccessibleHasUser(m: Mem, w: Va)
    requires Inv(m) && UserOwned(m, w.root) && Accessible(m, w)
    ensures HasUser(m, w) && m.flat[w].ppn != 0
  {
    assert UseOk(m, m.flat[w].ppn);
  }

  // ---- Writing ----

  predicate PageWrote(m: Mem, n: Mem, root: nat, a: nat, data: seq<byte>, p: nat)
    requires p < |m.use| == |m.pages| == |n.pages|
  {
    if m.use[p].UserPage? && m.use[p].va.root == root then
      m.pages[p].Data? && n.pages[p].Data? &&
      forall o :: 0 <= o < 4096 ==>
        n.pages[p].bytes[o] == Written(m.pages[p].bytes[o], data, m.use[p].va.vpn * 4096 + o - a)
    else n.pages[p] == m.pages[p]
  }

  function Written(was: byte, data: seq<byte>, k: int): byte {
    if 0 <= k < |data| then data[k] else was
  }

  // n is m with data written at user address a of space root, and nothing else changed.
  ghost predicate Wrote(m: Mem, n: Mem, root: nat, a: nat, data: seq<byte>) {
    && |m.use| == |m.pages| == |n.pages| && n == m.(pages := n.pages)
    && forall p: nat {:trigger PageWrote(m, n, root, a, data, p)} ::
         p < |m.use| ==> PageWrote(m, n, root, a, data, p)
  }

  function Splice(bytes: Bytes, off: nat, data: seq<byte>): Bytes
    requires off + |data| <= 4096
  {
    bytes[..off] + data + bytes[off + |data|..]
  }

  // Replacing the bytes of a user page.
  lemma SetBytesInv(m: Mem, p: nat, x: Bytes)
    requires Inv(m) && p < |m.use| && m.use[p].UserPage?
    ensures Inv(SetPage(m, p, Data(x)))
  {
    var n := SetPage(m, p, Data(x));
    assert UseOk(m, p);
    forall s | s in m.at ensures m.at[s] != p { assert SlotOk(m, s); }
    forall s, i: nat | s in n.at && i < 512 ensures EntryOk(n, s, i) { assert EntryOk(m, s, i); }
    forall s | s in n.at ensures SlotOk(n, s) { assert SlotOk(m, s); }
    forall va | va in n.flat ensures FlatOk(n, va) { assert FlatOk(m, va); }
    forall q: nat | q < |n.use| ensures UseOk(n, q) { assert UseOk(m, q); }
    forall k: nat | k < |m.free| ensures LinkOk(n, k) { assert LinkOk(m, k); }
  }

  lemma WroteNothing(m: Mem, root: nat, a: nat)
    requires Inv(m)
    ensures Wrote(m, m, root, a, [])
  {
    forall p: nat | p < |m.use| ensures PageWrote(m, m, root, a, [], p) { assert UseOk(m, p); }
  }

  // One more chunk, inside the page v of address a + |done|.
  lemma WroteMore(m: Mem, b: Mem, root: nat, a: nat, done: seq<byte>, chunk: seq<byte>, v: nat, off: nat)
    requires Inv(m) && Inv(b) && Wrote(m, b, root, a, done)
    requires a + |done| == v * 4096 + off && off + |chunk| <= 4096
    requires HasUser(b, Va(root, v))
    ensures var p := b.flat[Va(root, v)].ppn;
      Wrote(m, SetPage(b, p, Data(Splice(b.pages[p].bytes, off, chunk))), root, a, done + chunk)
  {
    var p := b.flat[Va(root, v)].ppn;
    var n := SetPage(b, p, Data(Splice(b.pages[p].bytes, off, chunk)));
    forall q: nat | q < |m.use| ensures PageWrote(m, n, root, a, done + chunk, q) {
      assert PageWrote(m, b, root, a, done, q);
      assert UseOk(m, q);
      if m.use[q].UserPage? && m.use[q].va.root == root {
        ChunkElsewhere(m, b, root, a, done, chunk, v, off, q);
      }
    }
  }

  lemma ChunkElsewhere(m: Mem, b: Mem, root: nat, a: nat, done: seq<byte>, chunk: seq<byte>, v: nat, off: nat, q: nat)
    requires Wrote(m, b, root, a, done) && q < |m.use| && UseOk(m, q)
    requires a + |done| == v * 4096 + off && off + |chunk| <= 4096
    requires HasUser(b, Va(root, v))
    requires m.use[q].UserPage? && m.use[q].va.root == root
    requires PageWrote(m, b, root, a, done, q)
    ensures var p := b.flat[Va(root, v)].ppn;
      PageWrote(m, SetPage(b, p, Data(Splice(b.pages[p].bytes, off, chunk))), root, a, done + chunk, q)
  {
    var p := b.flat[Va(root, v)].ppn;
    var n := SetPage(b, p, Data(Splice(b.pages[p].bytes, off, chunk)));
    var u := m.use[q].va.vpn;
    assert q == p <==> u == v;
    forall o | 0 <= o < 4096
      ensures n.pages[q].bytes[o] == Written(m.pages[q].bytes[o], done + chunk, u * 4096 + o - a)
    {
      assert b.pages[q].bytes[o] == Written(m.pages[q].bytes[o], done, u * 4096 + o - a);
    }
  }

  /** copyin after copyout: the bytes written are the bytes read. */
  lemma ReadBack(m: Mem, n: Mem, root: nat, a: nat, data: seq<byte>, j: nat)
    requires Wrote(m, n, root, a, data) && j < |data|
    requires HasUser(m, PageOf(root, a + j))
    ensures HasUser(n, PageOf(root, a + j)) && UserByte(n, root, a + j) == data[j]
  {
    var w := PageOf(root, a + j);
    var p := m.flat[w].ppn;
    assert PageWrote(m, n, root, a, data, p);
    var o := (a + j) % 4096;
    assert w.vpn * 4096 + o - a == j;
  }

  // Bytes outside the range keep their value.
  lemma ReadElsewhere(m: Mem, n: Mem, root: nat, a: nat, data: seq<byte>, x: nat)
    requires Wrote(m, n, root, a, data) && !(a <= x < a + |data|)
    requires HasUser(m, PageOf(root, x))
    ensures HasUser(n, PageOf(root, x)) && UserByte(n, root, x) == UserByte(m, root, x)
  {
    var w := PageOf(root, x);
    assert PageWrote(m, n, root, a, data, m.flat[w].ppn);
    assert w.vpn * 4096 + x % 4096 == x;
  }

  /** A copyout into one address space never changes another: after fork, writing to
      the child leaves every page of the parent as it was, and the other way round. */
  lemma SpacesIsolated(m: Mem, n: Mem, root: nat, a: nat, data: seq<byte>, w: Va)
    requires Wrote(m, n, root, a, data) && HasUser(m, w) && w.root != root
    ensures HasUser(n, w) && UserView(n, w) == UserView(m, w)
  {
    assert PageWrote(m, n, root, a, data, m.flat[w].ppn);
  }

  // dst is what the user has at addresses a, a + 1, ...
  predicate Reads(m: Mem, root: nat, a: nat, dst: seq<byte>) {
    forall x: nat :: a <= x < a + |dst| ==>
      HasUser(m, PageOf(root, x)) && dst[x - a] == UserByte(m, root, x)
  }

  // The n addresses of a chunk that stays inside page v.
  lemma SamePage(root: nat, a: nat, done: nat, n: nat, v: nat, off: nat)
    requires v == (a + done) / 4096 && off == (a + done) % 4096 && off + n <= 4096
    ensures forall x: nat :: a + done <= x < a + done + n ==>
      PageOf(root, x) == Va(root, v) && x % 4096 == off + (x - a - done)
  {
    forall x: nat | a + done <= x < a + done + n
      ensures PageOf(root, x) == Va(root, v) && x % 4096 == off + (x - a - done)
    {
      assert x == v * 4096 + (off + (x - a - done));
    }
  }

  lemma NotLinkedNotMapped(m: Mem, w: Va)
    requires Inv(m) && SlotFor(w, 0) !in m.at
    ensures w !in m.flat
  {
    assert w in m.flat ==> FlatOk(m, w);
  }
}
