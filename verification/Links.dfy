/** Directories and link counts of kernel/fs.c and kernel/sysfile.c between operations:
    what an inode's nlink counts, and what each directory update does to the count. */
module Links {

  const ROOTINO: nat := 1

  datatype Kind = Free | File | Dir | Dev

  // inum 0 marks an empty slot.
  datatype Dirent = Dirent(inum: nat, name: string)

  datatype Ino = Ino(kind: Kind, nlink: nat, ents: seq<Dirent>)

  type Inodes = map<nat, Ino>

  // What strncpy and strncmp see of a name: its first DIRSIZ bytes.
  function Key(name: string): string {
    if |name| <= 14 then name else name[..14]
  }

  // a and b are the same name to the kernel: equal up to their first 14 bytes.
  predicate SameName(a: string, b: string) {
    && (|a| == |b| || (|a| >= 14 && |b| >= 14))
    && forall i :: 0 <= i < |a| && i < |b| && i < 14 ==> a[i] == b[i]
  }

  lemma KeyExactly(a: string, b: string)
    ensures Key(a) == Key(b) <==> SameName(a, b)
  {
    assert |Key(a)| == |Key(b)| && (forall i :: 0 <= i < |Key(a)| ==> Key(a)[i] == Key(b)[i]) ==> Key(a) == Key(b);
    if SameName(a, b) { assert forall i :: 0 <= i < |Key(a)| ==> Key(a)[i] == a[i] && Key(b)[i] == b[i]; }
    if Key(a) == Key(b) {
      forall i | 0 <= i < |a| && i < |b| && i < 14 ensures a[i] == b[i] {
        assert a[i] == Key(a)[i] && b[i] == Key(b)[i];
      }
    }
  }

  lemma DotsKey(name: string)
    ensures (Key(name) == "." <==> name == ".") && (Key(name) == ".." <==> name == "..")
  {
    KeyExactly(name, ".");
    KeyExactly(name, "..");
  }

  // ---- What nlink counts ----

  predicate LinkedDir(m: Inodes, d: nat) {
    d in m && m[d].kind == Dir && m[d].nlink > 0
  }

  // Slot k of the linked directory d names i, under a name other than "."
  predicate Names(m: Inodes, d: nat, k: nat, i: nat) {
    LinkedDir(m, d) && k < |m[d].ents| && m[d].ents[k].inum == i && m[d].ents[k].name != "."
  }

  function Refs(m: Inodes, i: nat): (r: set<(nat, nat)>)
    ensures forall d: nat, k: nat :: (d, k) in r <==> Names(m, d, k, i)
  {
    set d, k | d in m && 0 <= k < |m[d].ents| && Names(m, d, k, i) :: (d, k)
  }

  ghost predicate CountOk(m: Inodes, i: nat)
    requires i in m
  {
    i != 0 && m[i].nlink == |Refs(m, i)| && (m[i].kind == Free ==> m[i].nlink == 0)
  }

  // ---- The shape of a directory ----

  predicate Unique(es: seq<Dirent>) {
    forall k, l :: 0 <= k < l < |es| && es[k].inum != 0 && es[l].inum != 0 ==> es[k].name != es[l].name
  }

  // The entries of a linked directory: itself, its parent, then names unlike any other.
  ghost predicate DirOk(m: Inodes, d: nat)
    requires d in m
  {
    var es := m[d].ents;
    && |es| >= 2 && es[0] == Dirent(d, ".") && es[1].name == ".." && LinkedDir(m, es[1].inum)
    && Unique(es)
    && (forall k :: 0 <= k < |es| && es[k].inum != 0 ==>
          es[k].inum in m && m[es[k].inum].kind != Free && |es[k].name| <= 14)
  }

  // Slot k of d, past "." and "..", names c.
  predicate Proper(m: Inodes, d: nat, k: nat, c: nat) {
    LinkedDir(m, d) && 2 <= k < |m[d].ents| && m[d].ents[k].inum == c
  }

  // A directory has one proper name, in the directory that its ".." names; the root none.
  ghost predicate PlaceOk(m: Inodes, c: nat)
    requires LinkedDir(m, c) && DirOk(m, c)
  {
    var up := m[c].ents[1].inum;
    && (c == ROOTINO ==> up == c)
    && (forall d: nat, k: nat :: Proper(m, d, k, c) ==> d == up && c != ROOTINO)
    && (forall k: nat, l: nat :: Proper(m, up, k, c) && Proper(m, up, l, c) ==> k == l)
    && (c != ROOTINO ==> exists k: nat :: Proper(m, up, k, c))
  }

  ghost predicate DirInv(m: Inodes, d: nat) {
    LinkedDir(m, d) ==> DirOk(m, d) && PlaceOk(m, d)
  }

  ghost predicate Inv(m: Inodes) {
    && LinkedDir(m, ROOTINO)
    && (forall i: nat {:trigger CountOk(m, i)} :: i in m ==> CountOk(m, i))
    && (forall d: nat {:trigger DirInv(m, d)} :: DirInv(m, d))
  }

  // ---- Counting ----

  lemma RefsAdd(m: Inodes, t: Inodes, i: nat, p: (nat, nat))
    requires p !in Refs(m, i)
    requires forall d: nat, k: nat :: Names(t, d, k, i) <==> Names(m, d, k, i) || (d, k) == p
    ensures |Refs(t, i)| == |Refs(m, i)| + 1
  {
    assert Refs(t, i) == Refs(m, i) + {p};
  }

  lemma RefsDrop(m: Inodes, t: Inodes, i: nat, p: (nat, nat))
    requires p in Refs(m, i)
    requires forall d: nat, k: nat :: Names(t, d, k, i) <==> Names(m, d, k, i) && (d, k) != p
    ensures |Refs(t, i)| == |Refs(m, i)| - 1
  {
    assert Refs(t, i) == Refs(m, i) - {p};
  }

  lemma RefsSame(m: Inodes, t: Inodes, i: nat)
    requires forall d: nat, k: nat :: Names(t, d, k, i) <==> Names(m, d, k, i)
    ensures Refs(t, i) == Refs(m, i)
  {
  }

  // ---- Adding a name ----

  // es with e in slot k, the first unused one or the one past the end.
  function PutEnt(es: seq<Dirent>, k: nat, e: Dirent): (r: seq<Dirent>)
    requires k <= |es|
    ensures |r| == if k < |es| then |es| else |es| + 1
    ensures forall x :: 0 <= x < |r| ==> r[x] == if x == k then e else es[x]
  {
    if k < |es| then es[k := e] else es + [e]
  }

  predicate Absent(es: seq<Dirent>, name: string) {
    forall k :: 0 <= k < |es| && es[k].inum != 0 ==> es[k].name != Key(name)
  }

  // Slot k of es holds name, byte by byte: the whole of it, or its first 14 bytes.
  predicate Finds(es: seq<Dirent>, name: string, k: nat) {
    && k < |es| && es[k].inum != 0
    && |es[k].name| == (if |name| < 14 then |name| else 14)
    && forall i :: 0 <= i < |es[k].name| ==> es[k].name[i] == name[i]
  }

  lemma FindsKey(es: seq<Dirent>, name: string, k: nat)
    requires k < |es|
    ensures Finds(es, name, k) <==> es[k].inum != 0 && es[k].name == Key(name)
  {
    if Finds(es, name, k) { assert es[k].name == Key(name); }
  }

  lemma AbsentFinds(es: seq<Dirent>, name: string)
    ensures Absent(es, name) <==> forall k: nat :: !Finds(es, name, k)
  {
    forall k: nat | k < |es| ensures Finds(es, name, k) <==> es[k].inum != 0 && es[k].name == Key(name) {
      FindsKey(es, name, k);
    }
    if !Absent(es, name) {
      var k: nat :| k < |es| && es[k].inum != 0 && es[k].name == Key(name);
      assert Finds(es, name, k);
    }
  }

  // fs answers lookups as es does, but that slot k now gives i for name and for what equals it.
  ghost predicate Entered(es: seq<Dirent>, fs: seq<Dirent>, name: string, k: nat, i: nat) {
    && k < |fs| && fs[k].inum == i
    && (forall l :: 0 <= l < |es| && l != k ==> l < |fs| && fs[l] == es[l])
    && (forall other: string, l: nat ::
          Finds(fs, other, l) <==> Finds(es, other, l) || (l == k && SameName(name, other)))
  }

  // fs answers lookups as es does, but that name, and what equals it, is not found.
  ghost predicate Erased(es: seq<Dirent>, fs: seq<Dirent>, name: string) {
    && |fs| == |es| && (forall l :: 0 <= l < |es| && fs[l].inum != 0 ==> fs[l] == es[l])
    && (forall other: string, l: nat :: Finds(fs, other, l) <==> Finds(es, other, l) && !SameName(name, other))
  }

  /** Entering one name changes no lookup of another: names are told apart by their first 14
      bytes and nothing else. */
  lemma PutEnters(es: seq<Dirent>, k: nat, i: nat, name: string)
    requires k <= |es| && (k < |es| ==> es[k].inum == 0) && i != 0
    ensures Entered(es, PutEnt(es, k, Dirent(i, Key(name))), name, k, i)
  {
    var fs := PutEnt(es, k, Dirent(i, Key(name)));
    forall other: string, l: nat
      ensures Finds(fs, other, l) <==> Finds(es, other, l) || (l == k && SameName(name, other))
    {
      KeyExactly(name, other);
      if l < |fs| { FindsKey(fs, other, l); }
      if l < |es| { FindsKey(es, other, l); }
    }
  }

  lemma ZeroErases(es: seq<Dirent>, k: nat, name: string)
    requires Unique(es) && Finds(es, name, k)
    ensures Erased(es, es[k := Dirent(0, "")], name)
  {
    var fs := es[k := Dirent(0, "")];
    forall other: string, l: nat ensures Finds(fs, other, l) <==> Finds(es, other, l) && !SameName(name, other) {
      KeyExactly(name, other);
      FindsKey(es, name, k);
      if l < |es| { FindsKey(es, other, l); FindsKey(fs, other, l); }
    }
  }

  // sys_link's effect: one more name, one more link.
  function Linked(m: Inodes, d: nat, k: nat, name: string, i: nat): Inodes
    requires d in m && i in m && k <= |m[d].ents|
  {
    var m1 := m[i := m[i].(nlink := m[i].nlink + 1)];
    m1[d := m1[d].(ents := PutEnt(m[d].ents, k, Dirent(i, Key(name))))]
  }

  predicate CanLink(m: Inodes, d: nat, k: nat, name: string, i: nat) {
    && LinkedDir(m, d) && i in m && (m[i].kind == File || m[i].kind == Dev) && i != d
    && k <= |m[d].ents| && (k < |m[d].ents| ==> m[d].ents[k].inum == 0) && Absent(m[d].ents, name)
  }

  // The first two entries of a directory are in use.
  lemma DotsUsed(m: Inodes, d: nat)
    requires Inv(m) && LinkedDir(m, d)
    ensures DirOk(m, d) && PlaceOk(m, d) && d != 0 && m[d].ents[0].inum == d && m[d].ents[1].inum != 0
  {
    assert DirInv(m, d);
    assert CountOk(m, d) && CountOk(m, m[d].ents[1].inum);
  }

  lemma LinkFacts(m: Inodes, d: nat, k: nat, name: string, i: nat)
    requires Inv(m) && CanLink(m, d, k, name, i)
    ensures k >= 2 && Key(name) != "." && Key(name) != ".." && i != 0
  {
    DotsUsed(m, d);
    assert CountOk(m, i);
  }

  lemma LinkNames(m: Inodes, d: nat, k: nat, name: string, i: nat, x: nat)
    requires Inv(m) && CanLink(m, d, k, name, i) && x != 0
    ensures var t := Linked(m, d, k, name, i);
      forall e: nat, l: nat :: Names(t, e, l, x) <==> Names(m, e, l, x) || (x == i && e == d && l == k)
  {
    LinkFacts(m, d, k, name, i);
  }

  lemma LinkProper(m: Inodes, d: nat, k: nat, name: string, i: nat, c: nat)
    requires Inv(m) && CanLink(m, d, k, name, i) && c != 0 && c != i
    ensures var t := Linked(m, d, k, name, i);
      forall e: nat, l: nat :: Proper(t, e, l, c) <==> Proper(m, e, l, c)
  {
  }

  // A directory whose names and ".." do not change keeps its place.
  lemma PlaceSame(m: Inodes, t: Inodes, c: nat)
    requires LinkedDir(m, c) && DirOk(m, c) && PlaceOk(m, c) && LinkedDir(t, c) && DirOk(t, c)
    requires t[c].ents[1] == m[c].ents[1]
    requires forall e: nat, l: nat :: Proper(t, e, l, c) <==> Proper(m, e, l, c)
    ensures PlaceOk(t, c)
  {
    var up := m[c].ents[1].inum;
    if c != ROOTINO {
      var k: nat :| Proper(m, up, k, c);
      assert Proper(t, up, k, c);
    }
  }

  lemma LinkDir(m: Inodes, d: nat, k: nat, name: string, i: nat, x: nat)
    requires Inv(m) && CanLink(m, d, k, name, i) && LinkedDir(m, x)
    ensures DirOk(Linked(m, d, k, name, i), x)
  {
    hide Inv, PlaceOk, CountOk, Refs;
    LinkFacts(m, d, k, name, i);
    DotsUsed(m, x);
    var t := Linked(m, d, k, name, i);
    assert LinkedDir(t, m[x].ents[1].inum);
  }

  lemma LinkCount(m: Inodes, d: nat, k: nat, name: string, i: nat, x: nat)
    requires Inv(m) && CanLink(m, d, k, name, i) && x in m
    ensures CountOk(Linked(m, d, k, name, i), x)
  {
    var t := Linked(m, d, k, name, i);
    assert CountOk(m, x);
    LinkNames(m, d, k, name, i, x);
    if x == i { RefsAdd(m, t, i, (d, k)); } else { RefsSame(m, t, x); }
  }

  lemma LinkPlace(m: Inodes, d: nat, k: nat, name: string, i: nat, x: nat)
    requires Inv(m) && CanLink(m, d, k, name, i)
    ensures DirInv(Linked(m, d, k, name, i), x)
  {
    if LinkedDir(Linked(m, d, k, name, i), x) {
      LinkFacts(m, d, k, name, i);
      LinkDir(m, d, k, name, i, x);
      DotsUsed(m, x);
      LinkProper(m, d, k, name, i, x);
      PlaceSame(m, Linked(m, d, k, name, i), x);
    }
  }

  /** A new name keeps every count right. */
  lemma LinkInv(m: Inodes, d: nat, k: nat, name: string, i: nat)
    requires Inv(m) && CanLink(m, d, k, name, i)
    ensures Inv(Linked(m, d, k, name, i))
  {
    var t := Linked(m, d, k, name, i);
    forall x: nat | x in t ensures CountOk(t, x) { LinkCount(m, d, k, name, i, x); }
    forall x: nat ensures DirInv(t, x) { LinkPlace(m, d, k, name, i, x); }
  }

  // ---- A new inode ----

  // ialloc: a free inode gets a type; it has no names yet.
  function Alloc(m: Inodes, i: nat, kind: Kind): Inodes {
    m[i := Ino(kind, 0, [])]
  }

  predicate CanAlloc(m: Inodes, i: nat) {
    i in m && m[i].kind == Free
  }

  lemma SameNames(m: Inodes, t: Inodes, i: nat, x: nat)
    requires i in m && m[i].nlink == 0 && (t.Keys == m.Keys && forall j :: j in m && j != i ==> t[j] == m[j])
    requires i in t && t[i].nlink == 0
    ensures forall e: nat, l: nat :: Names(t, e, l, x) <==> Names(m, e, l, x)
    ensures forall e: nat, l: nat :: Proper(t, e, l, x) <==> Proper(m, e, l, x)
    ensures Refs(t, x) == Refs(m, x)
  {
    assert forall e: nat :: LinkedDir(t, e) <==> LinkedDir(m, e);
  }

  // Changing an inode that nothing names, to another that nothing counts.
  lemma UnnamedInv(m: Inodes, t: Inodes, i: nat)
    requires Inv(m) && i in m && m[i].nlink == 0 && (t.Keys == m.Keys && forall j :: j in m && j != i ==> t[j] == m[j])
    requires i in t && t[i].nlink == 0
    ensures Inv(t)
  {
    forall x: nat | x in t ensures CountOk(t, x) {
      assert CountOk(m, x);
      SameNames(m, t, i, x);
    }
    forall d: nat ensures DirInv(t, d) { UnnamedDir(m, t, i, d); }
  }

  lemma UnnamedDir(m: Inodes, t: Inodes, i: nat, d: nat)
    requires Inv(m) && i in m && m[i].nlink == 0 && (t.Keys == m.Keys && forall j :: j in m && j != i ==> t[j] == m[j])
    requires i in t && t[i].nlink == 0
    ensures DirInv(t, d)
  {
    if LinkedDir(t, d) {
      DotsUsed(m, d);
      Unnamed(m, i, d);
      assert LinkedDir(t, m[d].ents[1].inum);
      SameNames(m, t, i, d);
      PlaceSame(m, t, d);
    }
  }

  // No entry of a linked directory names an inode without links.
  lemma Unnamed(m: Inodes, i: nat, d: nat)
    requires Inv(m) && i in m && m[i].nlink == 0 && LinkedDir(m, d)
    ensures forall k :: 0 <= k < |m[d].ents| ==> m[d].ents[k].inum != i
  {
    DotsUsed(m, d);
    assert CountOk(m, i);
    assert Refs(m, i) == {};
    forall k: nat | k < |m[d].ents| ensures m[d].ents[k].inum != i {
      assert Names(m, d, k, i) ==> (d, k) in Refs(m, i);
    }
  }

  /** create of a file or device: the first name of a new inode. */
  lemma CreateFileInv(m: Inodes, d: nat, k: nat, name: string, i: nat, kind: Kind)
    requires Inv(m) && CanAlloc(m, i) && (kind == File || kind == Dev) && LinkedDir(m, d)
    requires k <= |m[d].ents| && (k < |m[d].ents| ==> m[d].ents[k].inum == 0) && Absent(m[d].ents, name)
    ensures Inv(Linked(Alloc(m, i, kind), d, k, name, i))
  {
    assert CountOk(m, i);
    UnnamedInv(m, Alloc(m, i, kind), i);
    LinkInv(Alloc(m, i, kind), d, k, name, i);
  }

  /** iput of the last reference to an inode without links: it is free again. */
  lemma ReclaimInv(m: Inodes, i: nat)
    requires Inv(m) && i in m && m[i].nlink == 0
    ensures Inv(m[i := Ino(Free, 0, [])])
  {
    UnnamedInv(m, m[i := Ino(Free, 0, [])], i);
  }

  // ---- A new directory ----

  function MadeDir(m: Inodes, d: nat, k: nat, name: string, c: nat): Inodes
    requires d in m && k <= |m[d].ents|
  {
    m[c := Ino(Dir, 1, [Dirent(c, "."), Dirent(d, "..")])]
     [d := m[d].(nlink := m[d].nlink + 1, ents := PutEnt(m[d].ents, k, Dirent(c, Key(name))))]
  }

  predicate CanMake(m: Inodes, d: nat, k: nat, name: string, c: nat) {
    && LinkedDir(m, d) && CanAlloc(m, c)
    && k <= |m[d].ents| && (k < |m[d].ents| ==> m[d].ents[k].inum == 0) && Absent(m[d].ents, name)
  }

  lemma MakeFacts(m: Inodes, d: nat, k: nat, name: string, c: nat)
    requires Inv(m) && CanMake(m, d, k, name, c)
    ensures k >= 2 && Key(name) != "." && Key(name) != ".."
    ensures c != 0 && c != d && d != 0 && m[c].nlink == 0 && c != ROOTINO
  {
    DotsUsed(m, d);
    assert CountOk(m, c);
  }

  lemma MakeNames(m: Inodes, d: nat, k: nat, name: string, c: nat, x: nat)
    requires Inv(m) && CanMake(m, d, k, name, c) && x != 0
    ensures var t := MadeDir(m, d, k, name, c);
      forall e: nat, l: nat :: Names(t, e, l, x) <==>
        Names(m, e, l, x) || (x == c && e == d && l == k) || (x == d && e == c && l == 1)
  {
    MakeFacts(m, d, k, name, c);
  }

  lemma MakeProper(m: Inodes, d: nat, k: nat, name: string, c: nat, x: nat)
    requires Inv(m) && CanMake(m, d, k, name, c) && x != 0
    ensures var t := MadeDir(m, d, k, name, c);
      forall e: nat, l: nat :: Proper(t, e, l, x) <==> Proper(m, e, l, x) || (x == c && e == d && l == k)
  {
    MakeFacts(m, d, k, name, c);
  }

  lemma MakeCount(m: Inodes, d: nat, k: nat, name: string, c: nat, x: nat)
    requires Inv(m) && CanMake(m, d, k, name, c) && x in m
    ensures CountOk(MadeDir(m, d, k, name, c), x)
  {
    var t := MadeDir(m, d, k, name, c);
    MakeFacts(m, d, k, name, c);
    assert CountOk(m, x);
    MakeNames(m, d, k, name, c, x);
    if x == c { RefsAdd(m, t, c, (d, k)); } else if x == d { RefsAdd(m, t, d, (c, 1)); } else { RefsSame(m, t, x); }
  }

  lemma MakeDirOk(m: Inodes, d: nat, k: nat, name: string, c: nat, x: nat)
    requires Inv(m) && CanMake(m, d, k, name, c) && LinkedDir(m, x)
    ensures x != c && DirOk(MadeDir(m, d, k, name, c), x)
  {
    MakeFacts(m, d, k, name, c);
    DotsUsed(m, x);
    var t := MadeDir(m, d, k, name, c);
    assert LinkedDir(t, m[x].ents[1].inum);
  }

  lemma MakePlace(m: Inodes, d: nat, k: nat, name: string, c: nat, x: nat)
    requires Inv(m) && CanMake(m, d, k, name, c)
    ensures DirInv(MadeDir(m, d, k, name, c), x)
  {
    var t := MadeDir(m, d, k, name, c);
    if LinkedDir(t, x) {
      MakeFacts(m, d, k, name, c);
      if x == c {
        MakeProper(m, d, k, name, c, c);
        assert LinkedDir(t, d);
        assert Proper(t, d, k, c);
        forall e: nat, l: nat ensures !Proper(m, e, l, c) { if LinkedDir(m, e) { Unnamed(m, c, e); } }
      } else {
        MakeDirOk(m, d, k, name, c, x);
        DotsUsed(m, x);
        MakeProper(m, d, k, name, c, x);
        PlaceSame(m, t, x);
      }
    }
  }

  /** create of a directory: its name, its two dots, and one more link for the parent. */
  lemma MakeDirInv(m: Inodes, d: nat, k: nat, name: string, c: nat)
    requires Inv(m) && CanMake(m, d, k, name, c)
    ensures Inv(MadeDir(m, d, k, name, c))
  {
    var t := MadeDir(m, d, k, name, c);
    MakeFacts(m, d, k, name, c);
    forall x: nat | x in t ensures CountOk(t, x) { MakeCount(m, d, k, name, c, x); }
    forall x: nat ensures DirInv(t, x) { MakePlace(m, d, k, name, c, x); }
  }

  // ---- Removing a name ----

  predicate CanDrop(m: Inodes, d: nat, k: nat, i: nat) {
    LinkedDir(m, d) && 2 <= k < |m[d].ents| && m[d].ents[k].inum == i && i != 0
  }

  // The entry is zeroed and the inode has one link less.
  function Dropped(m: Inodes, d: nat, k: nat, i: nat): Inodes
    requires d in m && i in m && k < |m[d].ents| && m[i].nlink > 0
  {
    var m1 := m[d := m[d].(ents := m[d].ents[k := Dirent(0, "")])];
    m1[i := m1[i].(nlink := m[i].nlink - 1)]
  }

  lemma DropFacts(m: Inodes, d: nat, k: nat, i: nat)
    requires Inv(m) && CanDrop(m, d, k, i)
    ensures i in m && m[i].kind != Free && m[d].ents[k].name != "." && (d, k) in Refs(m, i) && m[i].nlink > 0
    ensures m[i].kind == Dir ==> DirOk(m, i) && m[i].ents[1].inum == d && i != ROOTINO
    ensures m[d].kind == Dir && d != 0
  {
    DotsUsed(m, d);
    assert CountOk(m, i);
    assert Names(m, d, k, i);
    if m[i].kind == Dir {
      DotsUsed(m, i);
      assert Proper(m, d, k, i);
    }
  }

  lemma DropNames(m: Inodes, d: nat, k: nat, i: nat, x: nat)
    requires Inv(m) && CanDrop(m, d, k, i) && x != 0 && i in m && m[i].kind != Dir && m[i].nlink > 0 && i != d
    ensures var t := Dropped(m, d, k, i);
      && (forall e: nat, l: nat :: Names(t, e, l, x) <==> Names(m, e, l, x) && !(x == i && e == d && l == k))
      && (x != i ==> forall e: nat, l: nat :: Proper(t, e, l, x) <==> Proper(m, e, l, x))
  {
  }

  lemma DropCount(m: Inodes, d: nat, k: nat, i: nat, x: nat)
    requires Inv(m) && CanDrop(m, d, k, i) && i in m && m[i].kind != Dir && m[i].nlink > 0 && x in m && i != d
    ensures CountOk(Dropped(m, d, k, i), x)
  {
    var t := Dropped(m, d, k, i);
    DropFacts(m, d, k, i);
    assert CountOk(m, x);
    DropNames(m, d, k, i, x);
    if x == i { RefsDrop(m, t, i, (d, k)); } else { RefsSame(m, t, x); }
  }

  lemma DropPlace(m: Inodes, d: nat, k: nat, i: nat, x: nat)
    requires Inv(m) && CanDrop(m, d, k, i) && i in m && m[i].kind != Dir && m[i].nlink > 0 && i != d
    ensures DirInv(Dropped(m, d, k, i), x)
  {
    var t := Dropped(m, d, k, i);
    if LinkedDir(t, x) {
      DropFacts(m, d, k, i);
      DotsUsed(m, x);
      assert LinkedDir(t, m[x].ents[1].inum);
      DropNames(m, d, k, i, x);
      assert DirOk(t, x);
      PlaceSame(m, t, x);
    }
  }

  /** unlink of a file or device. */
  lemma DropInv(m: Inodes, d: nat, k: nat, i: nat)
    requires Inv(m) && CanDrop(m, d, k, i) && i in m && m[i].kind != Dir
    ensures m[i].nlink > 0 && Inv(Dropped(m, d, k, i))
  {
    hide CountOk, DirInv;
    DropFacts(m, d, k, i);
    var t := Dropped(m, d, k, i);
    forall x: nat | x in t ensures CountOk(t, x) { DropCount(m, d, k, i, x); }
    forall x: nat ensures DirInv(t, x) { DropPlace(m, d, k, i, x); }
  }

  // isdirempty
  predicate EmptyDir(es: seq<Dirent>) {
    forall l :: 2 <= l < |es| ==> es[l].inum == 0
  }

  function RemovedDir(m: Inodes, d: nat, k: nat, i: nat): Inodes
    requires d in m && i in m && k < |m[d].ents| && m[i].nlink > 0 && m[d].nlink > 0 && i != d
  {
    var m1 := m[d := m[d].(ents := m[d].ents[k := Dirent(0, "")], nlink := m[d].nlink - 1)];
    m1[i := m1[i].(nlink := m1[i].nlink - 1)]
  }

  lemma TwoIn(u: set<(nat, nat)>, a: (nat, nat), b: (nat, nat))
    requires a in u && b in u && a != b
    ensures |u| >= 2
  {
    assert |u - {a}| == |u| - 1 && b in u - {a};
  }

  // Every directory has a name that is not in an empty one of its children.
  lemma OwnName(m: Inodes, d: nat, i: nat)
    requires Inv(m) && LinkedDir(m, d) && i != d && i != ROOTINO
    ensures exists p :: p in Refs(m, d) && p != (i, 1)
  {
    DotsUsed(m, d);
    if d == ROOTINO {
      assert Names(m, d, 1, d);
      assert (d, 1) in Refs(m, d);
    } else {
      var up := m[d].ents[1].inum;
      var g: nat :| Proper(m, up, g, d);
      DotsUsed(m, up);
      assert Names(m, up, g, d);
      assert (up, g) in Refs(m, d) && (up, g) != (i, 1);
    }
  }

  // All that names an empty directory is its entry in its parent.
  lemma OnlyName(m: Inodes, d: nat, k: nat, i: nat)
    requires Inv(m) && CanDrop(m, d, k, i) && i in m && m[i].kind == Dir && EmptyDir(m[i].ents)
    ensures Refs(m, i) == {(d, k)}
  {
    DropFacts(m, d, k, i);
    DotsUsed(m, i);
    forall e: nat, l: nat | Names(m, e, l, i) ensures (e, l) == (d, k) {
      DotsUsed(m, e);
      assert l >= 2 ==> Proper(m, e, l, i);
      assert Proper(m, d, k, i);
      assert l == 1 && e != ROOTINO ==> exists g: nat :: Proper(m, i, g, e);
    }
  }

  // An empty directory has one link, its parent at least two.
  lemma EmptyLinks(m: Inodes, d: nat, k: nat, i: nat)
    requires Inv(m) && CanDrop(m, d, k, i) && i in m && m[i].kind == Dir && EmptyDir(m[i].ents)
    ensures m[i].nlink == 1 && m[d].nlink >= 2 && i != d && (i, 1) in Refs(m, d)
    ensures Refs(m, i) == {(d, k)} && i != ROOTINO && DirOk(m, i) && m[i].ents[1].inum == d
  {
    DropFacts(m, d, k, i);
    DotsUsed(m, i);
    OnlyName(m, d, k, i);
    assert CountOk(m, i) && CountOk(m, d);
    assert Names(m, i, 1, d);
    OwnName(m, d, i);
    var p :| p in Refs(m, d) && p != (i, 1);
    TwoIn(Refs(m, d), p, (i, 1));
  }

  lemma RemoveNames(m: Inodes, d: nat, k: nat, i: nat, x: nat)
    requires Inv(m) && CanDrop(m, d, k, i) && i in m && m[i].kind == Dir && EmptyDir(m[i].ents) && x != 0
    ensures m[i].nlink > 0 && m[d].nlink > 0 && i != d
    ensures var t := RemovedDir(m, d, k, i);
      && (forall e: nat, l: nat :: Names(t, e, l, x) <==>
            Names(m, e, l, x) && !(x == i && e == d && l == k) && !(x == d && e == i && l == 1))
      && (forall e: nat, l: nat :: Proper(t, e, l, x) <==> Proper(m, e, l, x) && !(x == i && e == d && l == k))
  {
    EmptyLinks(m, d, k, i);
  }

  lemma RemoveCount(m: Inodes, d: nat, k: nat, i: nat, x: nat)
    requires Inv(m) && CanDrop(m, d, k, i) && i in m && m[i].kind == Dir && EmptyDir(m[i].ents) && x in m
    ensures m[i].nlink > 0 && m[d].nlink > 0 && i != d && CountOk(RemovedDir(m, d, k, i), x)
  {
    EmptyLinks(m, d, k, i);
    var t := RemovedDir(m, d, k, i);
    assert CountOk(m, x);
    RemoveNames(m, d, k, i, x);
    if x == i { RefsDrop(m, t, i, (d, k)); } else if x == d { RefsDrop(m, t, d, (i, 1)); } else { RefsSame(m, t, x); }
  }

  lemma RemovePlace(m: Inodes, d: nat, k: nat, i: nat, x: nat)
    requires Inv(m) && CanDrop(m, d, k, i) && i in m && m[i].kind == Dir && EmptyDir(m[i].ents)
    ensures m[i].nlink > 0 && m[d].nlink > 0 && i != d && DirInv(RemovedDir(m, d, k, i), x)
  {
    EmptyLinks(m, d, k, i);
    var t := RemovedDir(m, d, k, i);
    if LinkedDir(t, x) {
      DotsUsed(m, x);
      var up := m[x].ents[1].inum;
      assert Names(m, x, 1, up);
      assert up == i ==> (x, 1) in Refs(m, i);
      assert LinkedDir(t, up);
      RemoveNames(m, d, k, i, x);
      assert DirOk(t, x);
      PlaceSame(m, t, x);
    }
  }

  /** unlink of an empty directory: its parent loses the link of its "..". */
  lemma RemoveInv(m: Inodes, d: nat, k: nat, i: nat)
    requires Inv(m) && CanDrop(m, d, k, i) && i in m && m[i].kind == Dir && EmptyDir(m[i].ents)
    ensures m[i].nlink > 0 && m[d].nlink > 0 && i != d && Inv(RemovedDir(m, d, k, i))
    ensures RemovedDir(m, d, k, i)[i].nlink == 0
  {
    EmptyLinks(m, d, k, i);
    var t := RemovedDir(m, d, k, i);
    forall x: nat | x in t ensures CountOk(t, x) { RemoveCount(m, d, k, i, x); }
    forall x: nat ensures DirInv(t, x) { RemovePlace(m, d, k, i, x); }
  }

  // ---- Working in a removed directory ----

  // A directory that has been removed and is still some process's current directory: only
  // its dots are in use.
  predicate Bare(m: Inodes, d: nat) {
    && d in m && m[d].kind == Dir && m[d].nlink == 0
    && forall k :: 0 <= k < |m[d].ents| && m[d].ents[k].inum != 0 ==>
         m[d].ents[k].inum in m && (m[d].ents[k].name == "." || m[d].ents[k].name == "..")
  }

  // What unlink leaves of a directory.
  lemma RemovedBare(m: Inodes, d: nat, k: nat, i: nat)
    requires Inv(m) && CanDrop(m, d, k, i) && i in m && m[i].kind == Dir && EmptyDir(m[i].ents)
    ensures m[i].nlink > 0 && m[d].nlink > 0 && i != d && Bare(RemovedDir(m, d, k, i), i)
  {
    hide Inv, PlaceOk, Refs;
    EmptyLinks(m, d, k, i);
    DropFacts(m, d, k, i);
  }

  // What Link needs, but for the directory's own links.
  predicate CanName(m: Inodes, d: nat, k: nat, name: string, i: nat) {
    && d in m && m[d].kind == Dir && i in m && (m[i].kind == File || m[i].kind == Dev) && i != d
    && k <= |m[d].ents| && (k < |m[d].ents| ==> m[d].ents[k].inum == 0) && Absent(m[d].ents, name)
  }

  // An entry of a directory without links is not counted, so changing one changes no count.
  lemma UncountedEntry(m: Inodes, t: Inodes, d: nat, i: nat)
    requires d in m && m[d].nlink == 0 && d in t && t[d].nlink == 0 && i in m && i in t && m[i].kind != Dir
    requires t.Keys == m.Keys && t[i].kind == m[i].kind && forall x :: x in m && x != d && x != i ==> t[x] == m[x]
    requires CountOk(m, i) && t[i].nlink != m[i].nlink
    ensures !CountOk(t, i)
  {
    assert forall e: nat :: e != d && e != i && e in m ==> t[e] == m[e];
    RefsSame(m, t, i);
  }

  /** The exact condition for a new name to keep every count right: the directory it is
      put into has links itself. */
  lemma LinkExactly(m: Inodes, d: nat, k: nat, name: string, i: nat)
    requires Inv(m) && CanName(m, d, k, name, i)
    ensures Inv(Linked(m, d, k, name, i)) <==> m[d].nlink > 0
  {
    if m[d].nlink > 0 {
      LinkInv(m, d, k, name, i);
    } else {
      assert CountOk(m, d) && CountOk(m, i);
      UncountedEntry(m, Linked(m, d, k, name, i), d, i);
    }
  }

  /** And for removing the name of a file or device. */
  lemma DropExactly(m: Inodes, d: nat, k: nat, i: nat)
    requires Inv(m) && d in m && m[d].kind == Dir && 2 <= k < |m[d].ents| && m[d].ents[k].inum == i
    requires i in m && (m[i].kind == File || m[i].kind == Dev) && m[i].nlink > 0
    ensures Inv(Dropped(m, d, k, i)) <==> m[d].nlink > 0
  {
    assert CountOk(m, d) && CountOk(m, i);
    if m[d].nlink > 0 {
      DropInv(m, d, k, i);
    } else {
      UncountedEntry(m, Dropped(m, d, k, i), d, i);
    }
  }

  // A directory other than the root has two links or more when another one is in it.
  lemma SubdirLinks(m: Inodes, d: nat, c: nat)
    requires Inv(m) && LinkedDir(m, d) && d != ROOTINO && Names(m, c, 1, d)
    ensures m[d].nlink >= 2
  {
    DotsUsed(m, d);
    var up := m[d].ents[1].inum;
    DotsUsed(m, up);
    var g: nat :| Proper(m, up, g, d);
    assert Names(m, up, g, d);
    TwoIn(Refs(m, d), (c, 1), (up, g));
    assert CountOk(m, d);
  }

  /** And for a new directory. Made in a removed one, it brings that one back to a single
      link, which its ".." alone accounts for, while the name it had is gone. */
  lemma MakeDirExactly(m: Inodes, d: nat, k: nat, name: string, c: nat)
    requires Inv(m) && CanAlloc(m, c) && d in m && m[d].kind == Dir
    requires k <= |m[d].ents| && (k < |m[d].ents| ==> m[d].ents[k].inum == 0) && Absent(m[d].ents, name)
    ensures Inv(MadeDir(m, d, k, name, c)) <==> m[d].nlink > 0
  {
    if m[d].nlink > 0 {
      MakeDirInv(m, d, k, name, c);
    } else {
      var t := MadeDir(m, d, k, name, c);
      assert Names(t, c, 1, d);
      if Inv(t) { SubdirLinks(t, d, c); }
    }
  }

  /** Likewise for the first name of a new file or device: made in a removed directory, it
      has a link that no linked directory accounts for. */
  lemma CreateExactly(m: Inodes, d: nat, k: nat, name: string, i: nat, kind: Kind)
    requires Inv(m) && CanAlloc(m, i) && (kind == File || kind == Dev) && d in m && m[d].kind == Dir
    requires k <= |m[d].ents| && (k < |m[d].ents| ==> m[d].ents[k].inum == 0) && Absent(m[d].ents, name)
    ensures Inv(Linked(Alloc(m, i, kind), d, k, name, i)) <==> m[d].nlink > 0
  {
    assert CountOk(m, i);
    UnnamedInv(m, Alloc(m, i, kind), i);
    LinkExactly(Alloc(m, i, kind), d, k, name, i);
  }
}
