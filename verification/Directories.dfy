/** sys_link, sys_unlink, create and the directory scans under them (kernel/sysfile.c,
    kernel/fs.c), updating inodes in place. */
module Directories {
  import opened Links

  class Tree {
    var inodes: Inodes

    // mkfs's tree: a root that is its own parent, and free inodes.
    constructor (inums: set<nat>)
      requires 0 !in inums && ROOTINO in inums
      ensures Inv(inodes) && inodes.Keys == inums
      ensures inodes[ROOTINO] == Ino(Dir, 1, [Dirent(ROOTINO, "."), Dirent(ROOTINO, "..")])
      ensures forall i :: i in inums && i != ROOTINO ==> inodes[i] == Ino(Free, 0, [])
    {
      var root := Ino(Dir, 1, [Dirent(ROOTINO, "."), Dirent(ROOTINO, "..")]);
      inodes := (map i | i in inums :: Ino(Free, 0, []))[ROOTINO := root];
      new;
      EmptyTree(inodes);
    }

    /** dirlookup: the slot that holds name, or -1. */
    method Lookup(d: nat, name: string) returns (off: int)
      requires d in inodes && inodes[d].kind == Dir
      ensures off == -1 <==> forall k: nat :: !Finds(inodes[d].ents, name, k)
      ensures off != -1 ==> off >= 0 && Finds(inodes[d].ents, name, off)
      ensures forall k: nat :: k < off ==> !Finds(inodes[d].ents, name, k)
      ensures off == -1 <==> Absent(inodes[d].ents, name)
      ensures off != -1 ==> inodes[d].ents[off].inum != 0 && inodes[d].ents[off].name == Key(name)
    {
      var es := inodes[d].ents;
      AbsentFinds(es, name);
      forall k: nat | k < |es| ensures Finds(es, name, k) <==> es[k].inum != 0 && es[k].name == Key(name) {
        FindsKey(es, name, k);
      }
      for k := 0 to |es|
        invariant forall l :: 0 <= l < k && es[l].inum != 0 ==> es[l].name != Key(name)
      {
        if es[k].inum != 0 && es[k].name == Key(name) {
          return k;
        }
      }
      return -1;
    }

    /** dirlink: refused when the name is present; otherwise into the first empty slot. */
    method Dirlink(d: nat, name: string, i: nat) returns (ok: bool, ghost k: nat)
      requires d in inodes && inodes[d].kind == Dir
      modifies this
      ensures ok <==> Absent(old(inodes)[d].ents, name)
      ensures !ok ==> inodes == old(inodes)
      ensures ok ==> k <= |old(inodes)[d].ents| && (k < |old(inodes)[d].ents| ==> old(inodes)[d].ents[k].inum == 0)
      ensures ok ==> forall l :: 0 <= l < k ==> old(inodes)[d].ents[l].inum != 0
      ensures ok ==>
        var x := old(inodes)[d];
        inodes == old(inodes)[d := x.(ents := PutEnt(x.ents, k, Dirent(i, Key(name))))]
      ensures d in inodes && (ok && i != 0 ==> Entered(old(inodes)[d].ents, inodes[d].ents, name, k, i))
    {
      k := 0;
      var off := Lookup(d, name);
      if off != -1 {
        return false, 0;
      }
      var es := inodes[d].ents;
      var l := 0;
      while l < |es| && es[l].inum != 0
        invariant l <= |es| && forall j :: 0 <= j < l ==> es[j].inum != 0
      {
        l := l + 1;
      }
      k := l;
      inodes := inodes[d := inodes[d].(ents := PutEnt(es, l, Dirent(i, Key(name))))];
      if i != 0 { PutEnters(es, l, i, name); }
      ok := true;
    }

    /** sys_link: dp is what nameiparent returned, -1 for its failure. A refused link changes
        nothing, and counts stay right exactly unless the name is put into a removed
        directory. */
    method Link(i: nat, dp: int, name: string) returns (ok: bool)
      requires Inv(inodes) && i in inodes && inodes[i].kind != Free
      requires dp == -1 || (dp >= 0 && Dirs(inodes, dp))
      modifies this
      ensures ok <==> old(inodes)[i].kind != Dir && dp != -1 && Absent(old(inodes)[dp].ents, name)
      ensures !ok ==> inodes == old(inodes)
      ensures Inv(inodes) <==> !ok || old(inodes)[dp].nlink > 0
      ensures ok ==> exists k: nat ::
        CanName(old(inodes), dp, k, name, i) && inodes == Linked(old(inodes), dp, k, name, i)
      ensures ok ==> exists k: nat :: Entered(old(inodes)[dp].ents, inodes[dp].ents, name, k, i)
    {
      if inodes[i].kind == Dir {
        return false;
      }
      hide Entered, Finds;
      ghost var m := inodes;
      assert CountOk(m, i);
      inodes := inodes[i := inodes[i].(nlink := inodes[i].nlink + 1)];
      ok := false;
      if dp != -1 {
        ghost var k: nat;
        ok, k := Dirlink(dp, name, i);
        if ok {
          assert CanName(m, dp, k, name, i) && Entered(m[dp].ents, inodes[dp].ents, name, k, i);
          LinkExactly(m, dp, k, name, i);
          return;
        }
      }
      inodes := inodes[i := inodes[i].(nlink := inodes[i].nlink - 1)];
      assert inodes == m;
    }

    method IsDirEmpty(d: nat) returns (r: bool)
      requires d in inodes
      ensures r <==> EmptyDir(inodes[d].ents)
    {
      var es := inodes[d].ents;
      var l := 2;
      while l < |es|
        invariant 2 <= l && forall x :: 2 <= x < l && x < |es| ==> es[x].inum == 0
      {
        if es[l].inum != 0 {
          return false;
        }
        l := l + 1;
      }
      return true;
    }

    /** sys_unlink in the directory dp: refused for the dots, a missing name and a directory
        in use; otherwise exactly that name goes. The panic on nlink < 1 cannot happen. A
        removed directory has nothing to unlink. */
    method Unlink(dp: nat, name: string) returns (ok: bool)
      requires Inv(inodes) && Dirs(inodes, dp)
      modifies this
      ensures Inv(inodes)
      ensures !ok ==> inodes == old(inodes)
      ensures dp in inodes && (ok ==> name != "." && name != ".." && Absent(inodes[dp].ents, name))
      ensures ok ==> exists k: nat, i: nat ::
        Goes(old(inodes), dp, k, i, inodes) && Finds(old(inodes)[dp].ents, name, k)
      ensures ok ==> Erased(old(inodes)[dp].ents, inodes[dp].ents, name)
      ensures ok || name == "." || name == ".." || Absent(old(inodes)[dp].ents, name)
        || exists k: nat, i: nat :: Keeps(old(inodes), dp, k, i) && Finds(old(inodes)[dp].ents, name, k)
    {
      hide Erased, Finds;
      ok := false;
      DotsKey(name);
      if Key(name) == "." || Key(name) == ".." {
        return;
      }
      var off := Lookup(dp, name);
      if off == -1 {
        return;
      }
      ghost var m := inodes;
      assert LinkedDir(m, dp);
      var i := inodes[dp].ents[off].inum;
      DotsUsed(m, dp);
      DropFacts(m, dp, off, i);
      ZeroErases(m[dp].ents, off, name);
      assert inodes[i].nlink >= 1;
      if inodes[i].kind == Dir {
        var empty := IsDirEmpty(i);
        if !empty {
          assert Keeps(m, dp, off, i);
          return;
        }
        RemoveInv(m, dp, off, i);
        inodes := inodes[dp := inodes[dp].(ents := inodes[dp].ents[off := Dirent(0, "")])];
        inodes := inodes[dp := inodes[dp].(nlink := inodes[dp].nlink - 1)];
      } else {
        DropInv(m, dp, off, i);
        inodes := inodes[dp := inodes[dp].(ents := inodes[dp].ents[off := Dirent(0, "")])];
      }
      inodes := inodes[i := inodes[i].(nlink := inodes[i].nlink - 1)];
      assert Goes(m, dp, off, i, inodes);
      ok := true;
    }

    /** create in the directory dp; c is what ialloc returned. An existing file or device is
        opened if a file was asked for; anything else in the way is refused. Counts stay
        right exactly unless something is made in a removed directory. */
    method Create(dp: nat, name: string, kind: Kind, c: nat) returns (r: int)
      requires Inv(inodes) && Dirs(inodes, dp) && kind != Free && CanAlloc(inodes, c)
      modifies this
      ensures Inv(inodes) <==> r != c || old(inodes)[dp].nlink > 0
      ensures Absent(old(inodes)[dp].ents, name) <==> r == c
      ensures r != c ==> inodes == old(inodes)
      ensures r != c ==> exists k: nat :: Opens(inodes, dp, name, kind, k, r)
      ensures r == c ==> Created(old(inodes), inodes, dp, name, kind, c)
      ensures r == c ==> dp in inodes && exists k: nat :: Entered(old(inodes)[dp].ents, inodes[dp].ents, name, k, c)
    {
      var off := Lookup(dp, name);
      ghost var m := inodes;
      if off != -1 {
        var i := inodes[dp].ents[off].inum;
        if LinkedDir(m, dp) { DotsUsed(m, dp); }
        assert Opens(m, dp, name, kind, off, if kind == File && (m[i].kind == File || m[i].kind == Dev) then i else -1);
        if kind == File && (inodes[i].kind == File || inodes[i].kind == Dev) {
          return i;
        }
        return -1;
      }
      if kind == Dir {
        NewDir(dp, name, c);
      } else {
        NewFile(dp, name, kind, c);
      }
      r := c;
    }

    method NewFile(dp: nat, name: string, kind: Kind, c: nat)
      requires Inv(inodes) && Dirs(inodes, dp) && (kind == File || kind == Dev) && CanAlloc(inodes, c)
      requires Absent(inodes[dp].ents, name)
      modifies this
      ensures (Inv(inodes) <==> old(inodes)[dp].nlink > 0) && Created(old(inodes), inodes, dp, name, kind, c)
      ensures dp in inodes && exists k: nat :: Entered(old(inodes)[dp].ents, inodes[dp].ents, name, k, c)
    {
      ghost var m := inodes;
      Uncounted(m, c);
      inodes := inodes[c := Ino(kind, 1, [])];
      var ok: bool;
      ghost var k: nat;
      ok, k := Dirlink(dp, name, c);
      CreateExactly(m, dp, k, name, c, kind);
      assert CreatedAt(m, inodes, dp, name, kind, c, k) && Entered(m[dp].ents, inodes[dp].ents, name, k, c);
    }

    method NewDir(dp: nat, name: string, c: nat)
      requires Inv(inodes) && Dirs(inodes, dp) && CanAlloc(inodes, c) && Absent(inodes[dp].ents, name)
      modifies this
      ensures (Inv(inodes) <==> old(inodes)[dp].nlink > 0) && Created(old(inodes), inodes, dp, name, Dir, c)
      ensures dp in inodes && exists k: nat :: Entered(old(inodes)[dp].ents, inodes[dp].ents, name, k, c)
    {
      hide Inv;
      ghost var m := inodes;
      Uncounted(m, c);
      inodes := inodes[c := Ino(Dir, 1, [])];
      inodes := inodes[dp := inodes[dp].(nlink := inodes[dp].nlink + 1)];
      Dots(c, dp);
      var ok: bool;
      ghost var k: nat;
      ok, k := Dirlink(dp, name, c);
      MakeDirExactly(m, dp, k, name, c);
      assert inodes == MadeDir(m, dp, k, name, c);
      assert CreatedAt(m, inodes, dp, name, Dir, c, k) && Entered(m[dp].ents, inodes[dp].ents, name, k, c);
    }

    // The first two entries of a new directory.
    method Dots(c: nat, dp: nat)
      requires c != 0 && c in inodes && inodes[c].kind == Dir && inodes[c].ents == []
      modifies this
      ensures inodes == old(inodes)[c := old(inodes)[c].(ents := [Dirent(c, "."), Dirent(dp, "..")])]
    {
      hide Entered, Finds;
      var _, _ := Dirlink(c, ".", c);
      assert inodes[c].ents == [Dirent(c, ".")];
      var _, _ := Dirlink(c, "..", dp);
      assert inodes[c].ents == [Dirent(c, "."), Dirent(dp, "..")];
    }

    lemma Uncounted(m: Inodes, c: nat)
      requires Inv(m) && CanAlloc(m, c)
      ensures c != 0 && m[c].nlink == 0
    {
      assert CountOk(m, c);
    }

    /** iput of the last reference to an inode no directory names. */
    method Reclaim(i: nat)
      requires Inv(inodes) && i in inodes && inodes[i].nlink == 0
      modifies this
      ensures Inv(inodes) && inodes == old(inodes)[i := Ino(Free, 0, [])]
    {
      ReclaimInv(inodes, i);
      inodes := inodes[i := Ino(Free, 0, [])];
    }
  }

  // A directory one can be in: linked, or removed under a process's feet.
  predicate Dirs(m: Inodes, d: nat) {
    LinkedDir(m, d) || Bare(m, d)
  }

  // What creating an existing name gives: the file or device it names if a file was asked for.
  predicate Opens(m: Inodes, d: nat, name: string, kind: Kind, k: nat, r: int) {
    && d in m && Finds(m[d].ents, name, k) && m[d].ents[k].inum in m
    && r == if kind == File && m[m[d].ents[k].inum].kind in {File, Dev} then m[d].ents[k].inum else -1
  }

  // t is m with the inode c made and named in slot k of dp.
  predicate CreatedAt(m: Inodes, t: Inodes, dp: nat, name: string, kind: Kind, c: nat, k: nat) {
    && dp in m && k <= |m[dp].ents| && (k < |m[dp].ents| ==> m[dp].ents[k].inum == 0) && c != dp
    && t == if kind == Dir then MadeDir(m, dp, k, name, c) else Linked(Alloc(m, c, kind), dp, k, name, c)
  }

  ghost predicate Created(m: Inodes, t: Inodes, dp: nat, name: string, kind: Kind, c: nat) {
    exists k: nat :: CreatedAt(m, t, dp, name, kind, c, k)
  }

  // Slot k of d named i, and t is m without that name.
  ghost predicate Goes(m: Inodes, d: nat, k: nat, i: nat, t: Inodes) {
    && CanDrop(m, d, k, i) && i in m && m[i].nlink > 0
    && if m[i].kind == Dir then EmptyDir(m[i].ents) && m[d].nlink > 0 && i != d && t == RemovedDir(m, d, k, i)
       else t == Dropped(m, d, k, i)
  }

  // Slot k of d names a directory that is not empty.
  predicate Keeps(m: Inodes, d: nat, k: nat, i: nat) {
    CanDrop(m, d, k, i) && i in m && m[i].kind == Dir && !EmptyDir(m[i].ents)
  }

  lemma EmptyTree(m: Inodes)
    requires ROOTINO in m && 0 !in m && m[ROOTINO] == Ino(Dir, 1, [Dirent(ROOTINO, "."), Dirent(ROOTINO, "..")])
    requires forall i :: i in m && i != ROOTINO ==> m[i] == Ino(Free, 0, [])
    ensures Inv(m)
  {
    assert forall i: nat, d: nat, k: nat :: Names(m, d, k, i) ==> (d, k, i) == (1, 1, 1);
    assert Refs(m, 1) == {(1, 1)};
    forall i: nat | i in m ensures CountOk(m, i) { if i != 1 { assert Refs(m, i) == {}; } }
    forall d: nat ensures DirInv(m, d) {}
  }

  // The tree after mkdir d in an empty one, and after rmdir d.
  lemma MadeOne(m: Inodes, t: Inodes)
    requires ROOTINO in m && m[ROOTINO].ents == [Dirent(ROOTINO, "."), Dirent(ROOTINO, "..")]
    requires Created(m, t, ROOTINO, "d", Dir, 2)
    ensures t == MadeDir(m, ROOTINO, 2, "d", 2)
    ensures t[ROOTINO].ents == [Dirent(ROOTINO, "."), Dirent(ROOTINO, ".."), Dirent(2, "d")]
  {
    var k: nat :| CreatedAt(m, t, ROOTINO, "d", Dir, 2, k);
    assert m[ROOTINO].ents[0].inum != 0 && m[ROOTINO].ents[1].inum != 0;
  }

  lemma RemovedOne(m: Inodes, t: Inodes)
    requires ROOTINO in m && 2 in m && Inv(m) && m[2].ents == [Dirent(2, "."), Dirent(ROOTINO, "..")]
    requires m[2].kind == Dir
    requires m[ROOTINO].ents == [Dirent(ROOTINO, "."), Dirent(ROOTINO, ".."), Dirent(2, "d")]
    requires exists k: nat, i: nat :: Goes(m, ROOTINO, k, i, t) && m[ROOTINO].ents[k].name == "d"
    ensures t.Keys == m.Keys && Bare(t, 2) && t[2].ents == m[2].ents && forall x :: x in m && x > 2 ==> t[x] == m[x]
  {
    var k: nat, i: nat :| Goes(m, ROOTINO, k, i, t) && m[ROOTINO].ents[k].name == "d";
    assert k == 2 && i == 2;
    RemovedBare(m, ROOTINO, 2, 2);
  }

  /** A file made in a removed directory, which no linked directory accounts for: mkdir d,
      stay in it, rmdir d, create f. */
  method RemovedDirMiscounts() returns (t: Tree)
    ensures fresh(t) && 3 in t.inodes && t.inodes[3].kind == File && !Inv(t.inodes)
  {
    t := new Tree({ROOTINO, 2, 3});
    ghost var m0 := t.inodes;
    var r := t.Create(ROOTINO, "d", Dir, 2);
    ghost var m1 := t.inodes;
    MadeOne(m0, m1);
    assert m1[ROOTINO].ents[2].name == Key("d");
    var ok := t.Unlink(ROOTINO, "d");
    RemovedOne(m1, t.inodes);
    r := t.Create(2, "f", File, 3);
  }
}
