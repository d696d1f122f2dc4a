/** Directories and link counts: create, link and unlink of kernel/sysfile.c over the
    directory routines of kernel/fs.c.

    Path walking is not modelled: an operation is given the parent directory and the last
    name that nameiparent found.  Each operation runs to completion under its locks.
 */
module LinkCounts {

  const ROOT: nat := 1
  const MAXLINK := 0x7FFF          // nlink is a short

  datatype Kind = Free | Dir | File | Dev

  /** inum 0 marks an entry that is not in use. */
  datatype Dirent = Dirent(name: string, inum: nat)

  datatype Inode = Inode(kind: Kind, nlink: nat, entries: seq<Dirent>)

  type Inodes = seq<Inode>

  predicate Live(fs: Inodes, d: nat) {
    d < |fs| && fs[d].kind == Dir && fs[d].nlink >= 1
  }

  // ---------------------------------------------------------------- counting links

  /** Entry k of directory d is a link to i: "." entries and dead directories do not count. */
  predicate Counts(fs: Inodes, d: nat, k: nat, i: nat) {
    Live(fs, d) && k < |fs[d].entries| && i != 0 && fs[d].entries[k].inum == i && fs[d].entries[k].name != "."
  }

  ghost function Links(fs: Inodes, i: nat): set<(nat, nat)> {
    set d: nat, k: nat | d < |fs| && k < |fs[d].entries| && Counts(fs, d, k, i) :: (d, k)
  }

  /** One more link. */
  lemma LinkAdded(fs: Inodes, fs': Inodes, i: nat, d: nat, k: nat)
    requires !Counts(fs, d, k, i) && Counts(fs', d, k, i)
    requires forall x: nat, y: nat :: (x, y) != (d, k) ==> (Counts(fs', x, y, i) <==> Counts(fs, x, y, i))
    ensures |Links(fs', i)| == |Links(fs, i)| + 1
  {
    assert Links(fs', i) == Links(fs, i) + {(d, k)};
  }

  lemma LinksSame(fs: Inodes, fs': Inodes, i: nat)
    requires forall x: nat, y: nat :: Counts(fs', x, y, i) <==> Counts(fs, x, y, i)
    ensures Links(fs', i) == Links(fs, i)
  {
  }

  // ---------------------------------------------------------------- invariant

  /** "." and ".." come first and stay; names are unique; a removed directory is empty. */
  ghost predicate DirOk(fs: Inodes, d: nat)
    requires d < |fs|
  {
    var es := fs[d].entries;
    if fs[d].kind != Dir then es == []
    else
      && |es| >= 2 && es[0] == Dirent(".", d) && es[1].name == ".." && 0 < es[1].inum < |fs|
      && (forall k :: 2 <= k < |es| && es[k].inum != 0 ==>
                 es[k].inum < |fs| && es[k].inum != ROOT && es[k].name != "." && es[k].name != "..")
      && (forall j, k :: 0 <= j < k < |es| && es[j].inum != 0 && es[k].inum != 0 ==> es[j].name != es[k].name)
      && (fs[d].nlink == 0 ==> forall k :: 2 <= k < |es| ==> es[k].inum == 0)
  }

  /** Entry k >= 2 of a live directory. */
  predicate Holds(fs: Inodes, d: nat, k: nat, c: nat) {
    Live(fs, d) && 2 <= k < |fs[d].entries| && c != 0 && fs[d].entries[k].inum == c
  }

  /** A live directory is listed once, in the directory that its ".." names. */
  ghost predicate ParentOk(fs: Inodes, c: nat)
    requires c < |fs|
  {
    Live(fs, c) ==>
      && |fs[c].entries| >= 2
      && var p := fs[c].entries[1].inum;
         && Live(fs, p)
         && (c == ROOT ==> p == ROOT)
         && (c != ROOT ==> p != c && exists k :: Holds(fs, p, k, c))
         && (forall d, j, k :: Holds(fs, d, j, c) && Holds(fs, p, k, c) ==> d == p && j == k)
  }

  ghost predicate CountOk(fs: Inodes, i: nat)
    requires i < |fs|
  {
    fs[i].nlink == |Links(fs, i)| && (fs[i].kind == Free ==> fs[i].nlink == 0)
  }

  ghost predicate FsOk(fs: Inodes) {
    && |fs| > ROOT && Live(fs, ROOT) && fs[0] == Inode(Free, 0, [])
    && (forall d {:trigger DirOk(fs, d)} :: 0 <= d < |fs| ==> DirOk(fs, d))
    && (forall c {:trigger ParentOk(fs, c)} :: 0 <= c < |fs| ==> ParentOk(fs, c))
    && (forall i {:trigger CountOk(fs, i)} :: 1 <= i < |fs| ==> CountOk(fs, i))
  }

  /** No entry of a live directory names a freed inode. */
  lemma NoDanglingEntry(fs: Inodes, d: nat, k: nat)
    requires FsOk(fs) && Live(fs, d) && k < |fs[d].entries| && fs[d].entries[k].inum != 0
    ensures fs[d].entries[k].inum < |fs| && fs[fs[d].entries[k].inum].kind != Free
  {
    var i := fs[d].entries[k].inum;
    assert DirOk(fs, d);
    if fs[d].entries[k].name != "." {
      assert Counts(fs, d, k, i) && (d, k) in Links(fs, i);
      assert CountOk(fs, i);
    } else {
      assert k == 0;
    }
  }

  // ---------------------------------------------------------------- what the operations do

  function WithEntry(fs: Inodes, d: nat, k: nat, e: Dirent): (r: Inodes)
    requires d < |fs| && k <= |fs[d].entries|
    ensures |r| == |fs|
  {
    var es := fs[d].entries;
    fs[d := fs[d].(entries := if k < |es| then es[k := e] else es + [e])]
  }

  function WithLinks(fs: Inodes, i: nat, n: nat): (r: Inodes)
    requires i < |fs|
    ensures |r| == |fs|
  {
    fs[i := fs[i].(nlink := n)]
  }

  /** k is where a new entry goes, and the name is new. */
  ghost predicate Vacant(fs: Inodes, d: nat, k: nat, name: string) {
    && d < |fs| && 2 <= k <= |fs[d].entries| && (k < |fs[d].entries| ==> fs[d].entries[k].inum == 0)
    && forall j :: 0 <= j < |fs[d].entries| && fs[d].entries[j].inum != 0 ==> fs[d].entries[j].name != name
  }

  /** A new name for a file. */
  function Linked(fs: Inodes, d: nat, k: nat, name: string, i: nat): (r: Inodes)
    requires d < |fs| && k <= |fs[d].entries| && i < |fs| && i != d
    ensures |r| == |fs|
  {
    WithEntry(WithLinks(fs, i, fs[i].nlink + 1), d, k, Dirent(name, i))
  }

  lemma LinkedCounts(fs: Inodes, d: nat, k: nat, name: string, i: nat, x: nat, y: nat, j: nat)
    requires FsOk(fs) && Live(fs, d) && Vacant(fs, d, k, name) && 1 <= i < |fs| && fs[i].kind != Dir
    ensures var fs' := Linked(fs, d, k, name, i);
            && (Counts(fs', x, y, j) <==> Counts(fs, x, y, j) || (x == d && y == k && j == i))
            && (Holds(fs', x, y, j) <==> Holds(fs, x, y, j) || (x == d && y == k && j == i))
            && (Live(fs', x) <==> Live(fs, x)) && !Counts(fs, d, k, j)
  {
    assert DirOk(fs, d);
  }

  lemma LinkKeeps(fs: Inodes, d: nat, k: nat, name: string, i: nat)
    requires FsOk(fs) && Live(fs, d) && Vacant(fs, d, k, name) && 1 <= i < |fs| && i != ROOT
             && fs[i].kind in {File, Dev}
    ensures FsOk(Linked(fs, d, k, name, i))
  {
    var fs' := Linked(fs, d, k, name, i);
    forall x | 0 <= x < |fs'|
      ensures DirOk(fs', x) && ParentOk(fs', x) && (x >= 1 ==> CountOk(fs', x))
    {
      LinkedDir(fs, d, k, name, i, x);
      LinkedParent(fs, d, k, name, i, x);
      if x >= 1 {
        LinkedCount(fs, d, k, name, i, x);
      }
    }
  }

  lemma LinkedDir(fs: Inodes, d: nat, k: nat, name: string, i: nat, x: nat)
    requires FsOk(fs) && Live(fs, d) && Vacant(fs, d, k, name) && 1 <= i < |fs| && i != ROOT
             && fs[i].kind in {File, Dev} && x < |fs|
    ensures DirOk(Linked(fs, d, k, name, i), x)
  {
    assert DirOk(fs, x);
    if x == d {
      assert fs[d].entries[0].inum != 0 && fs[d].entries[1].inum != 0;
    }
  }

  lemma LinkedCount(fs: Inodes, d: nat, k: nat, name: string, i: nat, j: nat)
    requires FsOk(fs) && Live(fs, d) && Vacant(fs, d, k, name) && 1 <= i < |fs| && fs[i].kind in {File, Dev}
             && 1 <= j < |fs|
    ensures CountOk(Linked(fs, d, k, name, i), j)
  {
    var fs' := Linked(fs, d, k, name, i);
    assert CountOk(fs, j);
    forall x: nat, y: nat
      ensures Counts(fs', x, y, j) <==> Counts(fs, x, y, j) || (x == d && y == k && j == i)
    {
      LinkedCounts(fs, d, k, name, i, x, y, j);
    }
    LinkedCounts(fs, d, k, name, i, d, k, j);
    if j == i {
      LinkAdded(fs, fs', j, d, k);
    } else {
      LinksSame(fs, fs', j);
    }
  }

  lemma LinkedParent(fs: Inodes, d: nat, k: nat, name: string, i: nat, c: nat)
    requires FsOk(fs) && Live(fs, d) && Vacant(fs, d, k, name) && 1 <= i < |fs| && fs[i].kind in {File, Dev} && c < |fs|
    ensures ParentOk(Linked(fs, d, k, name, i), c)
  {
    var fs' := Linked(fs, d, k, name, i);
    assert ParentOk(fs, c) && DirOk(fs, c);
    forall x: nat, y: nat
      ensures c != i ==> (Holds(fs', x, y, c) <==> Holds(fs, x, y, c))
    {
      LinkedCounts(fs, d, k, name, i, x, y, c);
    }
    if Live(fs, c) {
      LinkedCounts(fs, d, k, name, i, fs[c].entries[1].inum, 0, c);
      if c != ROOT {
        var j :| Holds(fs, fs[c].entries[1].inum, j, c);
        assert Holds(fs', fs[c].entries[1].inum, j, c);
      }
    }
  }

  /** Nothing counts as a link to an inode without links. */
  lemma NoLinks(fs: Inodes, i: nat, x: nat, y: nat)
    requires FsOk(fs) && 1 <= i < |fs| && fs[i].nlink == 0
    ensures !Counts(fs, x, y, i) && !Holds(fs, x, y, i)
  {
    assert CountOk(fs, i);
    assert (x, y) !in Links(fs, i);
    assert x < |fs| ==> DirOk(fs, x);
  }

  /** A free inode becomes an empty file, or the other way round. */
  lemma RetypeKeeps(fs: Inodes, i: nat, to: Kind)
    requires FsOk(fs) && 1 <= i < |fs| && fs[i].nlink == 0 && to != Dir
    ensures FsOk(fs[i := Inode(to, 0, [])])
  {
    var fs' := fs[i := Inode(to, 0, [])];
    assert i != ROOT;
    forall x | 0 <= x < |fs'|
      ensures DirOk(fs', x) && ParentOk(fs', x) && (x >= 1 ==> CountOk(fs', x))
    {
      assert DirOk(fs, x) && ParentOk(fs, x);
      assert forall d, k: nat :: Holds(fs', d, k, x) <==> Holds(fs, d, k, x);
      if x >= 1 {
        assert CountOk(fs, x);
        LinksSame(fs, fs', x);
      }
    }
  }

  /** A new directory. */
  function Made(fs: Inodes, d: nat, k: nat, name: string, i: nat): (r: Inodes)
    requires d < |fs| && k <= |fs[d].entries| && i < |fs| && i != d
    ensures |r| == |fs|
  {
    var fs1 := fs[i := Inode(Dir, 1, [Dirent(".", i), Dirent("..", d)])];
    WithLinks(WithEntry(fs1, d, k, Dirent(name, i)), d, fs[d].nlink + 1)
  }

  lemma MadeCounts(fs: Inodes, d: nat, k: nat, name: string, i: nat, x: nat, y: nat, j: nat)
    requires FsOk(fs) && Live(fs, d) && Vacant(fs, d, k, name) && 1 <= i < |fs| && fs[i].kind == Free
    ensures var fs' := Made(fs, d, k, name, i);
            && (Counts(fs', x, y, j) <==> Counts(fs, x, y, j) || (x == d && y == k && j == i)
                                          || (x == i && y == 1 && j == d))
            && (Holds(fs', x, y, j) <==> Holds(fs, x, y, j) || (x == d && y == k && j == i))
            && (Live(fs', x) <==> Live(fs, x) || x == i)
  {
    assert DirOk(fs, d) && CountOk(fs, i);
  }

  lemma MadeDirOk(fs: Inodes, d: nat, k: nat, name: string, i: nat, x: nat)
    requires FsOk(fs) && Live(fs, d) && Vacant(fs, d, k, name) && 1 <= i < |fs| && fs[i].kind == Free && x < |fs|
    ensures DirOk(Made(fs, d, k, name, i), x)
  {
    hide Counts;
    assert DirOk(fs, x);
    if x == d {
      assert fs[d].entries[0].inum != 0 && fs[d].entries[1].inum != 0;
    }
  }

  lemma MadeParent(fs: Inodes, d: nat, k: nat, name: string, i: nat, c: nat)
    requires FsOk(fs) && Live(fs, d) && Vacant(fs, d, k, name) && 1 <= i < |fs| && fs[i].kind == Free && c < |fs|
    ensures ParentOk(Made(fs, d, k, name, i), c)
  {
    var fs' := Made(fs, d, k, name, i);
    assert ParentOk(fs, c) && DirOk(fs, c) && CountOk(fs, i);
    forall x: nat, y: nat
      ensures Holds(fs', x, y, c) <==> (if c == i then x == d && y == k else Holds(fs, x, y, c))
    {
      MadeCounts(fs, d, k, name, i, x, y, c);
      NoLinks(fs, i, x, y);
    }
    if c == i {
      assert Holds(fs', d, k, c);
    } else if Live(fs, c) {
      MadeCounts(fs, d, k, name, i, fs[c].entries[1].inum, 0, c);
      if c != ROOT {
        var j :| Holds(fs, fs[c].entries[1].inum, j, c);
        assert Holds(fs', fs[c].entries[1].inum, j, c);
      }
    }
  }

  lemma MadeCount(fs: Inodes, d: nat, k: nat, name: string, i: nat, j: nat)
    requires FsOk(fs) && Live(fs, d) && Vacant(fs, d, k, name) && 1 <= i < |fs| && fs[i].kind == Free && 1 <= j < |fs|
    ensures CountOk(Made(fs, d, k, name, i), j)
  {
    var fs' := Made(fs, d, k, name, i);
    assert CountOk(fs, j) && CountOk(fs, i) && DirOk(fs, d);
    forall x: nat, y: nat
      ensures Counts(fs', x, y, j)
              <==> Counts(fs, x, y, j) || (x == d && y == k && j == i) || (x == i && y == 1 && j == d)
    {
      MadeCounts(fs, d, k, name, i, x, y, j);
    }
    if j == i {
      NoLinks(fs, i, d, k);
      LinkAdded(fs, fs', j, d, k);
    } else if j == d {
      assert !Counts(fs, i, 1, d);
      LinkAdded(fs, fs', j, i, 1);
    } else {
      LinksSame(fs, fs', j);
    }
  }

  lemma MakeKeeps(fs: Inodes, d: nat, k: nat, name: string, i: nat)
    requires FsOk(fs) && Live(fs, d) && Vacant(fs, d, k, name) && 1 <= i < |fs| && fs[i].kind == Free
    ensures FsOk(Made(fs, d, k, name, i))
  {
    forall x | 0 <= x < |fs|
      ensures DirOk(Made(fs, d, k, name, i), x) && ParentOk(Made(fs, d, k, name, i), x)
              && (x >= 1 ==> CountOk(Made(fs, d, k, name, i), x))
    {
      MadeDirOk(fs, d, k, name, i, x);
      MadeParent(fs, d, k, name, i, x);
      if x >= 1 {
        MadeCount(fs, d, k, name, i, x);
      }
    }
    MadeCounts(fs, d, k, name, i, ROOT, 0, ROOT);
  }

  /** Entry k of d is erased and the file it named loses a link. */
  function Unlinked(fs: Inodes, d: nat, k: nat): (r: Inodes)
    requires d < |fs| && k < |fs[d].entries| && fs[d].entries[k].inum < |fs| && fs[d].entries[k].inum != d
             && fs[fs[d].entries[k].inum].nlink > 0
    ensures |r| == |fs|
  {
    var i := fs[d].entries[k].inum;
    WithLinks(WithEntry(fs, d, k, Dirent("", 0)), i, fs[i].nlink - 1)
  }

  lemma UnlinkedCounts(fs: Inodes, d: nat, k: nat, i: nat, x: nat, y: nat, j: nat)
    requires FsOk(fs) && Holds(fs, d, k, i) && i < |fs| && fs[i].kind != Dir && fs[i].nlink > 0
    ensures var fs' := Unlinked(fs, d, k);
            && (Counts(fs', x, y, j) <==> Counts(fs, x, y, j) && !(x == d && y == k))
            && (Holds(fs', x, y, j) <==> Holds(fs, x, y, j) && !(x == d && y == k))
            && (Live(fs', x) <==> Live(fs, x)) && Counts(fs, d, k, i)
  {
    assert DirOk(fs, d);
  }

  lemma UnlinkKeeps(fs: Inodes, d: nat, k: nat, i: nat)
    requires FsOk(fs) && Holds(fs, d, k, i) && i < |fs| && fs[i].kind != Dir && fs[i].nlink > 0
    ensures FsOk(Unlinked(fs, d, k))
  {
    var fs' := Unlinked(fs, d, k);
    forall x | 0 <= x < |fs'|
      ensures DirOk(fs', x) && ParentOk(fs', x) && (x >= 1 ==> CountOk(fs', x))
    {
      assert DirOk(fs, x) && ParentOk(fs, x);
      UnlinkedParent(fs, d, k, i, x);
      if x >= 1 {
        UnlinkedCount(fs, d, k, i, x);
      }
    }
    UnlinkedCounts(fs, d, k, i, ROOT, 0, ROOT);
  }

  lemma UnlinkedParent(fs: Inodes, d: nat, k: nat, i: nat, c: nat)
    requires FsOk(fs) && Holds(fs, d, k, i) && i < |fs| && fs[i].kind != Dir && fs[i].nlink > 0 && c < |fs|
    ensures ParentOk(Unlinked(fs, d, k), c)
  {
    var fs' := Unlinked(fs, d, k);
    assert ParentOk(fs, c) && DirOk(fs, c);
    forall x: nat, y: nat
      ensures c != i ==> (Holds(fs', x, y, c) <==> Holds(fs, x, y, c))
    {
      UnlinkedCounts(fs, d, k, i, x, y, c);
    }
    if Live(fs, c) {
      UnlinkedCounts(fs, d, k, i, fs[c].entries[1].inum, 0, c);
      if c != ROOT {
        var j :| Holds(fs, fs[c].entries[1].inum, j, c);
        assert Holds(fs', fs[c].entries[1].inum, j, c);
      }
    }
  }

  lemma UnlinkedCount(fs: Inodes, d: nat, k: nat, i: nat, j: nat)
    requires FsOk(fs) && Holds(fs, d, k, i) && i < |fs| && fs[i].kind != Dir && fs[i].nlink > 0 && 1 <= j < |fs|
    ensures CountOk(Unlinked(fs, d, k), j)
  {
    var fs' := Unlinked(fs, d, k);
    assert CountOk(fs, j);
    forall x: nat, y: nat
      ensures Counts(fs', x, y, j) <==> Counts(fs, x, y, j) && !(x == d && y == k)
    {
      UnlinkedCounts(fs, d, k, i, x, y, j);
    }
    if j == i {
      UnlinkedCounts(fs, d, k, i, d, k, i);
      LinkAdded(fs', fs, j, d, k);
    } else {
      LinksSame(fs, fs', j);
    }
  }

  /** The directory has nothing but "." and "..". */
  predicate IsEmpty(fs: Inodes, i: nat)
    requires i < |fs|
  {
    forall k :: 2 <= k < |fs[i].entries| ==> fs[i].entries[k].inum == 0
  }

  /** An empty directory i goes: its entry, its link, and its ".."'s link to d. */
  function Rmdir(fs: Inodes, d: nat, k: nat, i: nat): (r: Inodes)
    requires d < |fs| && k < |fs[d].entries| && i < |fs| && i != d && fs[d].nlink > 0 && fs[i].nlink > 0
    ensures |r| == |fs|
  {
    WithLinks(WithLinks(WithEntry(fs, d, k, Dirent("", 0)), d, fs[d].nlink - 1), i, fs[i].nlink - 1)
  }

  /** An empty directory has one link, from its parent, which has another one. */
  lemma EmptyDir(fs: Inodes, d: nat, k: nat, i: nat)
    requires FsOk(fs) && Holds(fs, d, k, i) && i < |fs| && fs[i].kind == Dir && IsEmpty(fs, i)
    ensures i != d && i != ROOT && fs[i].nlink == 1 && fs[d].nlink >= 2 && |fs[i].entries| >= 2
            && fs[i].entries[1].inum == d
  {
    assert DirOk(fs, d) && CountOk(fs, i) && DirOk(fs, i);
    assert Counts(fs, d, k, i) && (d, k) in Links(fs, i);
    assert ParentOk(fs, i);
    var kk :| Holds(fs, fs[i].entries[1].inum, kk, i);
    forall x: nat, y: nat | (x, y) in Links(fs, i)
      ensures (x, y) == (d, k)
    {
      OnlyLink(fs, d, k, i, x, y);
    }
    assert Links(fs, i) == {(d, k)};
    TwoLinks(fs, d, i);
  }

  lemma OnlyLink(fs: Inodes, d: nat, k: nat, i: nat, x: nat, y: nat)
    requires FsOk(fs) && Holds(fs, d, k, i) && i < |fs| && Live(fs, i) && IsEmpty(fs, i) && Counts(fs, x, y, i)
             && i != ROOT
    ensures (x, y) == (d, k)
  {
    assert DirOk(fs, x) && ParentOk(fs, i) && ParentOk(fs, x);
    assert forall m :: !Holds(fs, i, m, x);
    assert Holds(fs, x, y, i);
    var kk :| Holds(fs, fs[i].entries[1].inum, kk, i);
  }

  /** d has the link from its subdirectory's ".." and one from elsewhere. */
  lemma TwoLinks(fs: Inodes, d: nat, i: nat)
    requires FsOk(fs) && Live(fs, d) && Live(fs, i) && i != ROOT && i != d && |fs[i].entries| >= 2
             && fs[i].entries[1].inum == d
    ensures fs[d].nlink >= 2
  {
    assert DirOk(fs, i) && CountOk(fs, d) && ParentOk(fs, d) && DirOk(fs, d);
    var p := fs[d].entries[1].inum;
    assert DirOk(fs, p);
    assert Counts(fs, i, 1, d);
    var other := (ROOT, 1);
    if d != ROOT {
      var m: nat :| Holds(fs, p, m, d);
      other := (p, m);
    }
    assert Counts(fs, other.0, other.1, d);
    assert {(i, 1), other} <= Links(fs, d) && (i, 1) != other;
    Cardinality({(i, 1), other}, Links(fs, d));
  }

  lemma {:induction false} Cardinality(a: set<(nat, nat)>, b: set<(nat, nat)>)
    requires a <= b
    ensures |a| <= |b|
  {
    if a != {} {
      var x :| x in a;
      Cardinality(a - {x}, b - {x});
    }
  }

  lemma RmdirCounts(fs: Inodes, d: nat, k: nat, i: nat, x: nat, y: nat, j: nat)
    requires FsOk(fs) && Holds(fs, d, k, i) && i < |fs| && fs[i].kind == Dir && IsEmpty(fs, i)
    requires i != d && fs[i].nlink == 1 && fs[d].nlink >= 2 && |fs[i].entries| >= 2 && fs[i].entries[1].inum == d
    ensures var fs' := Rmdir(fs, d, k, i);
            && (Counts(fs', x, y, j) <==> Counts(fs, x, y, j) && !(x == d && y == k) && !(x == i && y == 1))
            && (Holds(fs', x, y, j) <==> Holds(fs, x, y, j) && !(x == d && y == k))
            && (Live(fs', x) <==> Live(fs, x) && x != i) && Counts(fs, d, k, i) && Counts(fs, i, 1, d)
  {
    assert DirOk(fs, d) && DirOk(fs, i);
  }

  lemma RmdirParent(fs: Inodes, d: nat, k: nat, i: nat, c: nat)
    requires FsOk(fs) && Holds(fs, d, k, i) && i < |fs| && fs[i].kind == Dir && IsEmpty(fs, i) && c < |fs|
    requires i != d && i != ROOT && fs[i].nlink == 1 && fs[d].nlink >= 2 && |fs[i].entries| >= 2
             && fs[i].entries[1].inum == d
    ensures ParentOk(Rmdir(fs, d, k, i), c)
  {
    var fs' := Rmdir(fs, d, k, i);
    assert ParentOk(fs, c) && DirOk(fs, c) && DirOk(fs, d);
    forall x: nat, y: nat
      ensures c != i ==> (Holds(fs', x, y, c) <==> Holds(fs, x, y, c))
    {
      RmdirCounts(fs, d, k, i, x, y, c);
    }
    RmdirCounts(fs, d, k, i, c, 0, c);
    if Live(fs, c) && c != i {
      assert forall m :: !Holds(fs, i, m, c);
      RmdirCounts(fs, d, k, i, fs[c].entries[1].inum, 0, c);
      if c != ROOT {
        var j :| Holds(fs, fs[c].entries[1].inum, j, c);
        assert Holds(fs', fs[c].entries[1].inum, j, c);
      }
    }
  }

  lemma RmdirCount(fs: Inodes, d: nat, k: nat, i: nat, j: nat)
    requires FsOk(fs) && Holds(fs, d, k, i) && i < |fs| && fs[i].kind == Dir && IsEmpty(fs, i) && 1 <= j < |fs|
    requires i != d && fs[i].nlink == 1 && fs[d].nlink >= 2 && |fs[i].entries| >= 2 && fs[i].entries[1].inum == d
    ensures CountOk(Rmdir(fs, d, k, i), j)
  {
    var fs' := Rmdir(fs, d, k, i);
    assert CountOk(fs, j);
    forall x: nat, y: nat
      ensures Counts(fs', x, y, j) <==> Counts(fs, x, y, j) && !(x == d && y == k) && !(x == i && y == 1)
    {
      RmdirCounts(fs, d, k, i, x, y, j);
    }
    RmdirCounts(fs, d, k, i, d, k, i);
    if j == i {
      LinkAdded(fs', fs, j, d, k);
    } else if j == d {
      LinkAdded(fs', fs, j, i, 1);
    } else {
      LinksSame(fs, fs', j);
    }
  }

  lemma RmdirKeeps(fs: Inodes, d: nat, k: nat, i: nat)
    requires FsOk(fs) && Holds(fs, d, k, i) && i < |fs| && fs[i].kind == Dir && IsEmpty(fs, i)
    ensures i != d && fs[i].nlink > 0 && FsOk(Rmdir(fs, d, k, i))
  {
    EmptyDir(fs, d, k, i);
    var fs' := Rmdir(fs, d, k, i);
    forall x | 0 <= x < |fs'|
      ensures DirOk(fs', x) && ParentOk(fs', x) && (x >= 1 ==> CountOk(fs', x))
    {
      assert DirOk(fs, x);
      RmdirParent(fs, d, k, i, x);
      if x >= 1 {
        RmdirCount(fs, d, k, i, x);
      }
    }
    RmdirCounts(fs, d, k, i, ROOT, 0, ROOT);
  }

  // ---------------------------------------------------------------- removed directories

  /** A removed directory, still in use as a working directory, keeps its ".." entry but
      its links are gone: a file put into it is counted nowhere ... */
  lemma DeadLinkBreaks(fs: Inodes, d: nat, k: nat, name: string, i: nat)
    requires FsOk(fs) && d < |fs| && fs[d].kind == Dir && fs[d].nlink == 0 && Vacant(fs, d, k, name) && 1 <= i < |fs|
             && i != d && fs[i].kind != Dir
    ensures !CountOk(Linked(fs, d, k, name, i), i)
  {
    var fs' := Linked(fs, d, k, name, i);
    assert CountOk(fs, i);
    LinksSame(fs, fs', i);
  }

  /** ... and a directory put into it revives it, ".." and all. */
  lemma DeadMakeBreaks(fs: Inodes, d: nat, k: nat, name: string, i: nat)
    requires FsOk(fs) && 1 <= d < |fs| && fs[d].kind == Dir && fs[d].nlink == 0 && Vacant(fs, d, k, name)
             && 1 <= i < |fs| && fs[i].kind == Free
    ensures DirOk(fs, d) && !CountOk(Made(fs, d, k, name, i), fs[d].entries[1].inum)
  {
    assert DirOk(fs, d);
    var fs', p := Made(fs, d, k, name, i), fs[d].entries[1].inum;
    assert CountOk(fs, i);
    if p == d || p == i {
      var one := if p == d then (i, 1) else (d, k);
      assert Counts(fs', d, 1, p) && Counts(fs', one.0, one.1, p);
      assert {(d, 1), one} <= Links(fs', p) && one != (d, 1);
      Cardinality({(d, 1), one}, Links(fs', p));
    } else {
      assert CountOk(fs, p);
      forall x: nat, y: nat
        ensures Counts(fs', x, y, p) <==> Counts(fs, x, y, p) || (x == d && y == 1)
      {
        DeadMadeCounts(fs, d, k, name, i, x, y, p);
      }
      LinkAdded(fs, fs', p, d, 1);
    }
  }

  lemma DeadMadeCounts(fs: Inodes, d: nat, k: nat, name: string, i: nat, x: nat, y: nat, p: nat)
    requires FsOk(fs) && 1 <= d < |fs| && fs[d].kind == Dir && fs[d].nlink == 0 && Vacant(fs, d, k, name)
             && 1 <= i < |fs| && fs[i].kind == Free
    requires p != i && p != d && |fs[d].entries| >= 2 && p == fs[d].entries[1].inum
    ensures Counts(Made(fs, d, k, name, i), x, y, p) <==> Counts(fs, x, y, p) || (x == d && y == 1)
  {
    assert DirOk(fs, d) && CountOk(fs, i);
  }

  /** Creating in a directory keeps the counts right exactly when that directory is live. */
  lemma CreateIffLive(fs: Inodes, d: nat, k: nat, name: string, i: nat, kind: Kind)
    requires FsOk(fs) && d < |fs| && fs[d].kind == Dir && Vacant(fs, d, k, name) && 1 <= i < |fs| && fs[i].kind == Free
             && kind != Free
    ensures FsOk(Created(fs, d, k, name, i, kind)) <==> Live(fs, d)
  {
    assert CountOk(fs, i);
    if kind == Dir {
      if Live(fs, d) {
        MakeKeeps(fs, d, k, name, i);
      } else {
        DeadMakeBreaks(fs, d, k, name, i);
      }
    } else {
      RetypeKeeps(fs, i, kind);
      var fs1 := fs[i := Inode(kind, 0, [])];
      if Live(fs, d) {
        LinkKeeps(fs1, d, k, name, i);
      } else {
        DeadLinkBreaks(fs1, d, k, name, i);
      }
    }
  }

  /** ... and so does linking. */
  lemma LinkIffLive(fs: Inodes, d: nat, k: nat, name: string, i: nat)
    requires FsOk(fs) && d < |fs| && fs[d].kind == Dir && Vacant(fs, d, k, name) && 1 <= i < |fs|
             && fs[i].kind in {File, Dev}
    ensures FsOk(Linked(fs, d, k, name, i)) <==> Live(fs, d)
  {
    if Live(fs, d) {
      LinkKeeps(fs, d, k, name, i);
    } else {
      DeadLinkBreaks(fs, d, k, name, i);
    }
  }

  function Created(fs: Inodes, d: nat, k: nat, name: string, i: nat, kind: Kind): (r: Inodes)
    requires d < |fs| && k <= |fs[d].entries| && i < |fs| && i != d
    ensures |r| == |fs|
  {
    if kind == Dir then Made(fs, d, k, name, i) else Linked(fs[i := Inode(kind, 0, [])], d, k, name, i)
  }

  /** What mkfs leaves: an empty root directory and free inodes. */
  function Fresh(n: nat): (r: Inodes)
    requires n > ROOT
    ensures |r| == n
  {
    seq(n, i => if i == ROOT then Inode(Dir, 1, [Dirent(".", ROOT), Dirent("..", ROOT)]) else Inode(Free, 0, []))
  }

  lemma FreshOk(n: nat)
    requires n > ROOT
    ensures FsOk(Fresh(n))
  {
    var fs := Fresh(n);
    assert Live(fs, ROOT);
    assert forall d: nat, k: nat, c: nat :: !Holds(fs, d, k, c);
    forall i | 0 <= i < |fs|
      ensures DirOk(fs, i) && ParentOk(fs, i) && CountOk(fs, i)
    {
      assert Counts(fs, ROOT, 1, ROOT);
      assert Links(fs, i) == if i == ROOT then {(ROOT, 1)} else {};
    }
  }

  /** The last reference that iput drops. */
  function Put(fs: Inodes, refs: seq<nat>, i: nat): (r: Inodes)
    requires i < |fs| == |refs|
    ensures |r| == |fs|
  {
    if fs[i].nlink == 0 && refs[i] == 0 then fs[i := Inode(Free, 0, [])] else fs
  }

  /** The counts do go wrong, two system calls into a fresh file system: make a directory,
      remove it while it is somebody's working directory, and create anything in it. */
  lemma RemovedDirectoryBreaks(kind: Kind)
    requires kind != Free
    ensures var fs1 := Made(Fresh(4), ROOT, 2, "d", 2);
            && FsOk(Fresh(4)) && FsOk(fs1) && Holds(fs1, ROOT, 2, 2) && fs1[2].nlink > 0 && IsEmpty(fs1, 2)
            && var fs2 := Put(Rmdir(fs1, ROOT, 2, 2), [0, 0, 1, 0], 2);
               && FsOk(fs2) && fs2[2].kind == Dir && !Live(fs2, 2) && Vacant(fs2, 2, 2, "x") && fs2[3].kind == Free
               && !FsOk(Created(fs2, 2, 2, "x", 3, kind))
  {
    FreshOk(4);
    var fs0 := Fresh(4);
    MakeKeeps(fs0, ROOT, 2, "d", 2);
    var fs1 := Made(fs0, ROOT, 2, "d", 2);
    assert Holds(fs1, ROOT, 2, 2);
    RmdirKeeps(fs1, ROOT, 2, 2);
    var fs2 := Put(Rmdir(fs1, ROOT, 2, 2), [0, 0, 1, 0], 2);
    assert fs2 == Rmdir(fs1, ROOT, 2, 2);
    CreateIffLive(fs2, 2, 2, "x", 3, kind);
  }

  // ---------------------------------------------------------------- the system calls

  /** Entry k of directory d is in use under this name. */
  predicate Names(fs: Inodes, d: nat, k: nat, name: string)
    requires d < |fs|
  {
    k < |fs[d].entries| && fs[d].entries[k].inum != 0 && fs[d].entries[k].name == name
  }

  lemma NameIsNew(fs: Inodes, d: nat, name: string)
    requires d < |fs| && forall j :: 0 <= j < |fs[d].entries| ==> !Names(fs, d, j, name)
    ensures forall j :: 0 <= j < |fs[d].entries| && fs[d].entries[j].inum != 0 ==> fs[d].entries[j].name != name
  {
    forall j | 0 <= j < |fs[d].entries| && fs[d].entries[j].inum != 0
      ensures fs[d].entries[j].name != name
    {
      assert !Names(fs, d, j, name);
    }
  }

  /** Entry k of d, which names i, is removed. */
  function Gone(fs: Inodes, d: nat, k: nat, i: nat): (r: Inodes)
    requires d < |fs| && k < |fs[d].entries| && i < |fs| && i == fs[d].entries[k].inum != d && fs[d].nlink > 0
             && fs[i].nlink > 0
    ensures |r| == |fs|
  {
    if fs[i].kind == Dir then Rmdir(fs, d, k, i) else Unlinked(fs, d, k)
  }

  /** Entry k of d may be removed. */
  predicate Removable(fs: Inodes, d: nat, k: nat, name: string)
    requires d < |fs|
  {
    && Names(fs, d, k, name) && name != "." && name != ".."
    && var i := fs[d].entries[k].inum; i < |fs| && (fs[i].kind == Dir ==> IsEmpty(fs, i))
  }

  /** refs counts what else refers to an inode: open files and working directories. */
  class Directories {
    var fs: Inodes
    var refs: seq<nat>

    ghost predicate Valid()
      reads this
    {
      FsOk(fs) && |refs| == |fs|
    }

    constructor (n: nat)
      requires n > ROOT
      ensures Valid() && fs == Fresh(n) && refs == seq(n, _ => 0)
    {
      fs, refs := Fresh(n), seq(n, _ => 0);
      FreshOk(n);
    }

    /** dirlookup: the first entry in use with this name. */
    method DirLookup(dp: nat, name: string) returns (found: bool, off: nat)
      requires dp < |fs|
      ensures found ==> Names(fs, dp, off, name) && forall j :: 0 <= j < off ==> !Names(fs, dp, j, name)
      ensures !found ==> forall j :: 0 <= j < |fs[dp].entries| ==> !Names(fs, dp, j, name)
    {
      off := 0;
      while off < |fs[dp].entries|
        invariant off <= |fs[dp].entries|
        invariant forall j :: 0 <= j < off ==> !Names(fs, dp, j, name)
      {
        var de := fs[dp].entries[off];
        if de.inum != 0 && de.name == name {
          return true, off;
        }
        off := off + 1;
      }
      found := false;
    }

    /** dirlink: into the first free entry, or at the end if there is room on the disk. */
    method DirLink(dp: nat, name: string, inum: nat, room: bool) returns (ok: bool, ghost k: nat)
      requires dp < |fs|
      modifies `fs
      ensures k <= |old(fs)[dp].entries| && (forall j :: 0 <= j < k ==> old(fs)[dp].entries[j].inum != 0)
      ensures ok ==> && (k < |old(fs)[dp].entries| ==> old(fs)[dp].entries[k].inum == 0)
                     && (forall j :: 0 <= j < |old(fs)[dp].entries| ==> !Names(old(fs), dp, j, name))
                     && fs == WithEntry(old(fs), dp, k, Dirent(name, inum))
      ensures !ok ==> fs == old(fs)
      ensures !ok ==> !room || exists j :: 0 <= j < |fs[dp].entries| && Names(fs, dp, j, name)
    {
      k := 0;
      var found, at := DirLookup(dp, name);
      if found {
        return false, 0;
      }
      var off := 0;
      while off < |fs[dp].entries| && fs[dp].entries[off].inum != 0
        invariant off <= |fs[dp].entries| && forall j :: 0 <= j < off ==> fs[dp].entries[j].inum != 0
      {
        off := off + 1;
      }
      k := off;
      if off == |fs[dp].entries| && !room {
        return false, k;
      }
      var es := fs[dp].entries;
      es := if off < |es| then es[off := Dirent(name, inum)] else es + [Dirent(name, inum)];
      fs := fs[dp := fs[dp].(entries := es)];
      ok := true;
    }

    /** isdirempty: looks past the first two entries. */
    method IsDirEmpty(dp: nat) returns (empty: bool)
      requires dp < |fs|
      ensures empty <==> IsEmpty(fs, dp)
    {
      var off := 2;
      while off < |fs[dp].entries|
        invariant off >= 2 && forall j :: 2 <= j < off && j < |fs[dp].entries| ==> fs[dp].entries[j].inum == 0
      {
        if fs[dp].entries[off].inum != 0 {
          return false;
        }
        off := off + 1;
      }
      empty := true;
    }

    /** ialloc: the first free inode, or 0. */
    method Ialloc() returns (inum: nat)
      requires |fs| > 0
      ensures inum < |fs|
      ensures inum != 0 ==> fs[inum].kind == Free
      ensures forall j :: 1 <= j < (if inum == 0 then |fs| else inum) ==> fs[j].kind != Free
    {
      inum := 1;
      while inum < |fs|
        invariant 1 <= inum <= |fs| && forall j :: 1 <= j < inum ==> fs[j].kind != Free
      {
        if fs[inum].kind == Free {
          return;
        }
        inum := inum + 1;
      }
      inum := 0;
    }

    /** iput of the caller's reference: without links and other references the inode is freed. */
    method Iput(i: nat)
      requires Valid() && 1 <= i < |fs|
      modifies `fs
      ensures Valid() && fs == Put(old(fs), refs, i)
    {
      if refs[i] == 0 && fs[i].nlink == 0 {
        RetypeKeeps(fs, i, Free);
        fs := fs[i := Inode(Free, 0, [])];
      }
    }

    /** create: an existing file will do for a file; otherwise a new inode with an entry in
        dp, or 0 if there is no inode or no room for an entry, and then nothing has changed.
        room tells for each of the entries ".", ".." and name whether the disk has room for
        it. */
    method Create(dp: nat, name: string, kind: Kind, room: seq<bool>) returns (existed: bool, ip: nat, ghost k: nat)
      requires Valid() && dp < |fs| && fs[dp].kind == Dir && kind != Free && |room| == 3
      requires fs[dp].nlink < MAXLINK
      modifies `fs
      ensures ip == 0 || existed ==> fs == old(fs)
      ensures existed <==> exists j :: 0 <= j < |old(fs)[dp].entries| && Names(old(fs), dp, j, name)
      ensures existed ==> && Names(fs, dp, k, name) && fs[dp].entries[k].inum < |fs|
                          && var i := fs[dp].entries[k].inum; ip == if kind == File && fs[i].kind in {File, Dev} then i
                                                                    else 0
      ensures !existed && ip == 0 ==> (forall j :: 1 <= j < |fs| ==> fs[j].kind != Free) || false in room
      ensures !existed && ip != 0 ==> && ip < |old(fs)| && ip != dp && old(fs)[ip].kind == Free
                                      && Vacant(old(fs), dp, k, name)
                                      && fs == Created(old(fs), dp, k, name, ip, kind)
      ensures Live(old(fs), dp) || existed || ip == 0 <==> Valid()
    {
      k := 0;
      assert DirOk(fs, dp);
      var off;
      existed, off := DirLookup(dp, name);
      if existed {
        ip := fs[dp].entries[off].inum;
        ip := if kind == File && fs[ip].kind in {File, Dev} then ip else 0;
        return existed, ip, off;
      }
      ip := Ialloc();
      if ip == 0 {
        return;
      }
      assert CountOk(fs, ip) && DirOk(fs, ip);
      var ok;
      ok, k := Install(dp, name, kind, ip, room);
      if !ok {
        return existed, 0, k;
      }
      CreateIffLive(old(fs), dp, k, name, ip, kind);
    }

    /** The rest of create, once it has an inode. */
    method Install(dp: nat, name: string, kind: Kind, ip: nat, room: seq<bool>) returns (ok: bool, ghost k: nat)
      requires dp < |fs| && fs[dp].kind == Dir && 0 < ip < |fs| && fs[ip] == Inode(Free, 0, []) && |room| == 3
      requires |fs[dp].entries| >= 2 && fs[dp].entries[0].inum != 0 && fs[dp].entries[1].inum != 0
      requires forall j :: 0 <= j < |fs[dp].entries| ==> !Names(fs, dp, j, name)
      modifies `fs
      ensures ok ==> Vacant(old(fs), dp, k, name) && fs == Created(old(fs), dp, k, name, ip, kind)
      ensures !ok ==> fs == old(fs) && false in room
    {
      NameIsNew(fs, dp, name);
      fs := fs[ip := Inode(kind, 1, [])];
      ok := true;
      k := 0;
      if kind == Dir {
        ok := AddDots(ip, dp, room[0], room[1]);
      }
      if ok {
        ok, k := DirLink(dp, name, ip, room[2]);
      }
      if !ok {
        fs := fs[ip := fs[ip].(nlink := 0)];
        fs := fs[ip := Inode(Free, 0, [])];       // iput frees it: nobody else knows it
        assert fs == old(fs);
        return;
      }
      if kind == Dir {
        fs := fs[dp := fs[dp].(nlink := fs[dp].nlink + 1)];
      }
      assert fs == Created(old(fs), dp, k, name, ip, kind);
    }

    /** sys_link, given the inode of the old path and the parent of the new one, if any. */
    method Link(ip: nat, found: bool, dp: nat, name: string, room: bool) returns (ret: int, ghost k: nat)
      requires Valid() && 1 <= ip < |fs| && fs[ip].kind != Free && 0 < fs[ip].nlink < MAXLINK
      requires found ==> dp < |fs| && fs[dp].kind == Dir
      modifies `fs
      ensures ret == 0 || ret == -1
      ensures ret == 0 ==> found && old(fs)[ip].kind != Dir && Vacant(old(fs), dp, k, name)
                           && fs == Linked(old(fs), dp, k, name, ip)
      ensures ret == -1 ==> fs == old(fs)
      ensures ret == -1 ==> fs[ip].kind == Dir || !found || !room
                            || exists j :: 0 <= j < |fs[dp].entries| && Names(fs, dp, j, name)
      ensures ret == -1 || Live(old(fs), dp) <==> Valid()
    {
      k := 0;
      if fs[ip].kind == Dir {
        Iput(ip);
        return -1, k;
      }
      fs := fs[ip := fs[ip].(nlink := fs[ip].nlink + 1)];
      var ok := false;
      if found {
        ok, k := DirLink(dp, name, ip, room);
      }
      if !ok {
        assert found && room ==> exists j :: 0 <= j < |fs[dp].entries| && Names(fs, dp, j, name)
                                             && Names(old(fs), dp, j, name);
        fs := fs[ip := fs[ip].(nlink := fs[ip].nlink - 1)];
        assert fs == old(fs);
        Iput(ip);
        return -1, k;
      }
      assert DirOk(old(fs), dp);
      forall j | 0 <= j < |old(fs)[dp].entries|
        ensures !Names(old(fs), dp, j, name)
      {
        assert !Names(old(fs)[ip := old(fs)[ip].(nlink := old(fs)[ip].nlink + 1)], dp, j, name);
      }
      NameIsNew(old(fs), dp, name);
      assert fs == Linked(old(fs), dp, k, name, ip);
      LinkIffLive(old(fs), dp, k, name, ip);
      ret := 0;
    }

    /** sys_unlink: it succeeds exactly when there is such an entry, not "." or "..", and it
        is not a directory with entries of its own.  "unlink: nlink < 1" cannot happen. */
    method Unlink(dp: nat, name: string) returns (ret: int, ghost off: nat, ghost ip: nat)
      requires Valid() && dp < |fs| && fs[dp].kind == Dir
      modifies `fs
      ensures Valid() && (ret == 0 || ret == -1)
      ensures ret == -1 ==> fs == old(fs)
      ensures ret == 0 <==> exists k :: Removable(old(fs), dp, k, name)
      ensures ret == 0 ==> && Removable(old(fs), dp, off, name) && ip == old(fs)[dp].entries[off].inum != dp
                           && old(fs)[ip].nlink > 0 && old(fs)[dp].nlink > 0
                           && fs == Put(Gone(old(fs), dp, off, ip), refs, ip)
    {
      hide IsEmpty, Put, ParentOk;
      assert DirOk(fs, dp);
      off, ip := 0, 0;
      if name == "." || name == ".." {
        return -1, 0, 0;
      }
      var found, at := DirLookup(dp, name);
      if !found {
        return -1, 0, 0;
      }
      var i := fs[dp].entries[at].inum;
      off, ip := at, i;
      assert Holds(fs, dp, off, ip) && (dp, off) in Links(fs, ip) && CountOk(fs, ip);
      assert fs[ip].nlink >= 1;
      assert forall k :: Names(fs, dp, k, name) ==> k == at;
      if fs[i].kind == Dir {
        var empty := IsDirEmpty(i);
        if !empty {
          return -1, off, ip;
        }
        RmdirKeeps(fs, dp, off, ip);
      } else {
        UnlinkKeeps(fs, dp, off, ip);
      }
      assert Removable(fs, dp, off, name);
      var dir := fs[i].kind == Dir;
      var es := fs[dp].entries[at := Dirent("", 0)];
      fs := fs[dp := fs[dp].(entries := es)];
      if dir {
        fs := fs[dp := fs[dp].(nlink := fs[dp].nlink - 1)];
      }
      fs := fs[i := fs[i].(nlink := fs[i].nlink - 1)];
      assert fs == Gone(old(fs), dp, off, ip);
      Iput(i);
      ret := 0;
    }

    /** The entries "." and ".." of a new directory. */
    method AddDots(ip: nat, dp: nat, room0: bool, room1: bool) returns (ok: bool)
      requires 0 < ip < |fs| && fs[ip].entries == []
      modifies `fs
      ensures ok ==> fs == old(fs)[ip := old(fs)[ip].(entries := [Dirent(".", ip), Dirent("..", dp)])]
      ensures !ok ==> !room0 || !room1
      ensures |fs| == |old(fs)| && forall x :: 0 <= x < |fs| && x != ip ==> fs[x] == old(fs)[x]
    {
      ghost var k;
      ok, k := DirLink(ip, ".", ip, room0);
      if ok {
        assert fs[ip].entries == [Dirent(".", ip)];
        ok, k := DirLink(ip, "..", dp, room1);
        assert ok ==> k == 1 && fs[ip].entries == [Dirent(".", ip), Dirent("..", dp)];
      }
    }
  }
}
