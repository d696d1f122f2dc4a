/** User address spaces of kernel/vm.c over the page allocator of kernel/kalloc.c.

    The methods run on page numbers.  An `Aspace` is the ghost view of one process image:
    its page-table tree and the physical page behind each of its user pages, from address
    0 up.  Every method says what the walk of the tree gives afterwards for every page of
    the address space, and where every physical page went.
 */
module AddressSpace {
  import opened PageTable
  import opened Sequences

  const PGSIZE := 4096

  function PagesFor(sz: nat): nat {
    (sz + PGSIZE - 1) / PGSIZE
  }

  ghost function Pool(s: seq<nat>): set<nat> {
    set p | p in s
  }

  ghost predicate FreeOk(mem: Memory, free: seq<nat>) {
    NoDup(free) && forall i :: 0 <= i < |free| ==> free[i] < |mem|
  }

  lemma SomeStep(ps: seq<nat>, i: nat)
    requires i < |ps|
    ensures Some(ps, i + 1) == Some(ps, i) + {ps[i]}
  {
  }

  /** A tree whose pages are not free. */
  ghost predicate Usable(mem: Memory, free: seq<nat>, sp: Space) {
    Tree(mem, sp) && FreeOk(mem, free) && forall i :: 0 <= i < |free| ==> free[i] !in sp.paths
  }

  /** Pages that may be handed to kfree: distinct, in memory, neither free nor tables. */
  ghost predicate Releasable(mem: Memory, free: seq<nat>, sp: Space, ps: seq<nat>, from: nat) {
    NoDup(ps) && forall k :: from <= k < |ps| ==> ps[k] < |mem| && ps[k] !in free && ps[k] !in sp.paths
  }

  /** The first i pages of ps. */
  ghost function Some(ps: seq<nat>, i: nat): set<nat>
    requires i <= |ps|
  {
    set k | 0 <= k < i :: ps[k]
  }

  ghost predicate Untouched(mem: Memory, mem': Memory, but: set<nat>) {
    |mem'| == |mem| && forall p :: 0 <= p < |mem| && p !in but ==> mem'[p] == mem[p]
  }

  /** perm | PTE_V */
  function WithV(perm: nat): nat {
    if perm % 2 == 1 then perm else perm + 1
  }

  function Filled(w: nat): (r: Page)
    ensures |r| == ENTRIES && forall k :: 0 <= k < ENTRIES ==> r[k] == w
  {
    seq(ENTRIES, _ => w)
  }

  function PX(level: nat, vpn: nat): nat {
    if level == 2 then PX2(vpn) else if level == 1 then PX1(vpn) else PX0(vpn)
  }

  /** Where the walk for vpn stands when it is about to index a table of this level. */
  function PathAt(level: nat, vpn: nat): Path {
    if level == 2 then Root else if level == 1 then Mid(PX2(vpn)) else Low(PX2(vpn), PX1(vpn))
  }

  class Vm {
    var mem: Memory
    var free: seq<nat>    // kmem.freelist, first page first

    ghost predicate Ready(sp: Space)
      reads this
    {
      Usable(mem, free, sp)
    }

    method Kalloc() returns (ok: bool, p: nat)
      requires FreeOk(mem, free)
      modifies this
      ensures FreeOk(mem, free) && ok == (old(free) != [])
      ensures ok ==> p < |old(mem)| && p !in free && old(free) == [p] + free
                     && mem == old(mem)[p := Filled(0x0505_0505_0505_0505)]
      ensures !ok ==> mem == old(mem) && free == old(free)
    {
      p := 0;
      ok := |free| > 0;
      if ok {
        p := free[0];
        free := free[1..];
        assert forall k :: 0 <= k < |free| ==> free[k] == old(free)[k + 1];
        mem := mem[p := Filled(0x0505_0505_0505_0505)];
      }
    }

    method Kfree(p: nat)
      requires FreeOk(mem, free) && p < |mem| && p !in free
      modifies this
      ensures FreeOk(mem, free) && free == [p] + old(free)
      ensures mem == old(mem)[p := Filled(0x0101_0101_0101_0101)]
    {
      mem := mem[p := Filled(0x0101_0101_0101_0101)];
      free := [p] + free;
    }

    /** walk: the level-0 table whose slot PX0(vpn) maps vpn.  With alloc, missing tables
        are created on the way, and only running out of pages makes it fail. */
    method Walk(root: nat, vpn: nat, alloc: bool, ghost sp: Space) returns (ok: bool, l: nat, ghost sp': Space)
      requires Ready(sp) && root == sp.root && vpn < MAXVPN
      modifies this
      ensures Ready(sp') && sp'.root == root && SameLookups(old(mem), sp, mem, sp')
      ensures ok ==> l in sp'.paths && sp'.paths[l] == Low(PX2(vpn), PX1(vpn))
                     && Lookup(mem, sp', vpn) == mem[l][PX0(vpn)]
      ensures !ok ==> Lookup(mem, sp', vpn) == 0 && (alloc ==> free == [])
      ensures !alloc ==> mem == old(mem) && free == old(free) && sp' == sp
      ensures sp.paths.Keys <= sp'.paths.Keys
      ensures |free| <= |old(free)| <= |free| + if ok then 2 else 1
      ensures Pool(free) + sp'.paths.Keys == Pool(old(free)) + sp.paths.Keys
      ensures Untouched(old(mem), mem, Pool(old(free)) + sp.paths.Keys)
    {
      sp' := sp;
      l := root;
      var level := 2;
      while level > 0
        invariant 0 <= level <= 2 && Ready(sp') && sp'.root == root && SameLookups(old(mem), sp, mem, sp')
        invariant l in sp'.paths && sp'.paths[l] == PathAt(level, vpn)
        invariant !alloc ==> mem == old(mem) && free == old(free) && sp' == sp
        invariant sp.paths.Keys <= sp'.paths.Keys && |free| <= |old(free)| <= |free| + 2 - level
        invariant Pool(free) + sp'.paths.Keys == Pool(old(free)) + sp.paths.Keys
        invariant Untouched(old(mem), mem, Pool(old(free)) + sp.paths.Keys)
      {
        var pte := mem[l][PX(level, vpn)];
        EntryBelow(mem, sp', l, level, vpn);
        if IsValid(pte) {
          l := Ppn(pte);
        } else {
          if !alloc {
            return false, l, sp';
          }
          ok, l, sp' := NewTable(l, PX(level, vpn), sp');
          if !ok {
            return;
          }
        }
        level := level - 1;
      }
      LookupAtLow(mem, sp', l, vpn);
      ok := true;
    }

    /** walkaddr: the physical page behind a user page. */
    method Walkaddr(root: nat, vpn: nat, ghost sp: Space) returns (ok: bool, pa: nat)
      requires Ready(sp) && root == sp.root
      modifies this
      ensures mem == old(mem) && free == old(free)
      ensures ok <==> vpn < MAXVPN && IsValid(Lookup(mem, sp, vpn)) && IsUser(Lookup(mem, sp, vpn))
      ensures ok ==> pa == Ppn(Lookup(mem, sp, vpn))
    {
      ok, pa := false, 0;
      if vpn < MAXVPN {
        var found, l, _ := Walk(root, vpn, false, sp);
        if found {
          var pte := mem[l][PX0(vpn)];
          ok, pa := IsValid(pte) && IsUser(pte), Ppn(pte);
        }
      }
    }

    /** mappages: maps n pages from vpn on to consecutive physical pages.  It fails only
        when a table is needed and memory is exhausted, leaving the first `done` mapped. */
    method Mappages(root: nat, vpn: nat, n: nat, ppn: nat, perm: nat, ghost sp: Space)
      returns (ok: bool, done: nat, ghost sp': Space)
      requires Ready(sp) && root == sp.root && 0 < n && vpn + n <= MAXVPN
      requires WithV(perm) < 1024 && IsLeaf(WithV(perm))
      requires forall u :: vpn <= u < vpn + n ==> Lookup(mem, sp, u) == 0
      modifies this
      ensures Ready(sp') && sp'.root == root && done <= n && (ok <==> done == n) && (!ok ==> free == [])
      ensures forall u :: 0 <= u < MAXVPN ==>
                Lookup(mem, sp', u) == if vpn <= u < vpn + done then MkPte(ppn + (u - vpn), WithV(perm))
                                       else old(Lookup(mem, sp, u))
      ensures sp.paths.Keys <= sp'.paths.Keys && |free| <= |old(free)| <= |free| + 2 * done + if ok then 0 else 1
      ensures Pool(free) + sp'.paths.Keys == Pool(old(free)) + sp.paths.Keys
      ensures Untouched(old(mem), mem, Pool(old(free)) + sp.paths.Keys)
    {
      sp' := sp;
      done := 0;
      while done < n
        invariant Ready(sp') && sp'.root == root && done <= n
        invariant forall u :: 0 <= u < MAXVPN ==>
                    Lookup(mem, sp', u) == if vpn <= u < vpn + done then MkPte(ppn + (u - vpn), WithV(perm))
                                           else old(Lookup(mem, sp, u))
        invariant sp.paths.Keys <= sp'.paths.Keys && |free| <= |old(free)| <= |free| + 2 * done
        invariant Pool(free) + sp'.paths.Keys == Pool(old(free)) + sp.paths.Keys
        invariant Untouched(old(mem), mem, Pool(old(free)) + sp.paths.Keys)
      {
        ok, sp' := MapPage(root, vpn + done, ppn + done, perm, sp');
        if !ok {
          return;
        }
        done := done + 1;
      }
      ok := true;
    }

    /** One round of mappages' loop. */
    method MapPage(root: nat, vpn: nat, ppn: nat, perm: nat, ghost sp: Space) returns (ok: bool, ghost sp': Space)
      requires Ready(sp) && root == sp.root && vpn < MAXVPN
      requires WithV(perm) < 1024 && IsLeaf(WithV(perm)) && Lookup(mem, sp, vpn) == 0
      modifies this
      ensures Ready(sp') && sp'.root == root && (!ok ==> free == [])
      ensures forall u :: 0 <= u < MAXVPN ==>
                Lookup(mem, sp', u) == if ok && u == vpn then MkPte(ppn, WithV(perm)) else old(Lookup(mem, sp, u))
      ensures sp.paths.Keys <= sp'.paths.Keys && |free| <= |old(free)| <= |free| + if ok then 2 else 1
      ensures Pool(free) + sp'.paths.Keys == Pool(old(free)) + sp.paths.Keys
      ensures Untouched(old(mem), mem, Pool(old(free)) + sp.paths.Keys)
    {
      var l;
      ok, l, sp' := Walk(root, vpn, true, sp);
      if ok {
        PteRoundTrip(ppn, WithV(perm));
        SetLeaf(mem, sp', l, vpn, MkPte(ppn, WithV(perm)));
        mem := SetEntry(mem, l, PX0(vpn), MkPte(ppn, WithV(perm)));
      }
    }

    /** uvmunmap: removes n mappings that must all exist; with doFree it also returns the
        pages behind them, each once. */
    method Uvmunmap(root: nat, vpn: nat, n: nat, doFree: bool, ghost sp: Space, ghost ps: seq<nat>)
      requires Ready(sp) && root == sp.root && vpn + n <= MAXVPN && |ps| == n
      requires forall u :: vpn <= u < vpn + n ==> IsLeaf(Lookup(mem, sp, u)) && Ppn(Lookup(mem, sp, u)) == ps[u - vpn]
      requires doFree ==> Releasable(mem, free, sp, ps, 0)
      modifies this
      ensures Ready(sp)
      ensures forall u :: 0 <= u < MAXVPN ==>
                Lookup(mem, sp, u) == if vpn <= u < vpn + n then 0 else old(Lookup(mem, sp, u))
      ensures Pool(free) == Pool(old(free)) + (if doFree then Some(ps, n) else {})
              && |free| == |old(free)| + if doFree then n else 0
      ensures Untouched(old(mem), mem, sp.paths.Keys + if doFree then Some(ps, n) else {})
    {
      var i := 0;
      while i < n
        invariant i <= n && Ready(sp)
        invariant forall u :: 0 <= u < MAXVPN ==>
                    Lookup(mem, sp, u) == if vpn <= u < vpn + i then 0 else old(Lookup(mem, sp, u))
        invariant Pool(free) == Pool(old(free)) + (if doFree then Some(ps, i) else {})
                  && |free| == |old(free)| + if doFree then i else 0
        invariant doFree ==> Releasable(mem, free, sp, ps, i)
        invariant Untouched(old(mem), mem, sp.paths.Keys + if doFree then Some(ps, i) else {})
      {
        ghost var free1 := free;
        UnmapPage(root, vpn + i, doFree, sp, ps[i]);
        SomeStep(ps, i);
        if doFree {
          PoolSplit(free, ps[i], free1);
        } else {
          assert free == free1;
        }
        i := i + 1;
      }
    }

    /** One round of uvmunmap's loop. */
    method UnmapPage(root: nat, vpn: nat, doFree: bool, ghost sp: Space, ghost p: nat)
      requires Ready(sp) && root == sp.root && vpn < MAXVPN && IsLeaf(Lookup(mem, sp, vpn))
               && Ppn(Lookup(mem, sp, vpn)) == p
      requires doFree ==> p < |mem| && p !in free && p !in sp.paths
      modifies this
      ensures Ready(sp)
      ensures forall u :: 0 <= u < MAXVPN ==> Lookup(mem, sp, u) == if u == vpn then 0 else old(Lookup(mem, sp, u))
      ensures free == (if doFree then [p] else []) + old(free)
      ensures Untouched(old(mem), mem, sp.paths.Keys + if doFree then {p} else {})
    {
      var ok, l, _ := Walk(root, vpn, false, sp);
      var pte := mem[l][PX0(vpn)];
      if doFree {
        Kfree(Ppn(pte));
        TreeFrame(old(mem), mem, sp);
      }
      SetLeaf(mem, sp, l, vpn, 0);
      mem := SetEntry(mem, l, PX0(vpn), 0);
    }

    /** kalloc a page, zero it, and point entry i of table p at it. */
    method NewTable(p: nat, i: nat, ghost sp: Space) returns (ok: bool, q: nat, ghost sp': Space)
      requires Ready(sp) && p in sp.paths && !sp.paths[p].Low? && i < ENTRIES && mem[p][i] == 0
               && (sp.paths[p].Root? ==> i < TOP)
      modifies this
      ensures Ready(sp') && sp'.root == sp.root && SameLookups(old(mem), sp, mem, sp')
      ensures ok ==> q in sp'.paths && sp'.paths[q] == Child(sp.paths[p], i)
      ensures !ok ==> free == [] && mem == old(mem) && free == old(free) && sp' == sp
      ensures sp.paths.Keys <= sp'.paths.Keys && |old(free)| == |free| + if ok then 1 else 0
      ensures Pool(free) + sp'.paths.Keys == Pool(old(free)) + sp.paths.Keys
      ensures Untouched(old(mem), mem, Pool(old(free)) + sp.paths.Keys)
    {
      sp' := sp;
      ok, q := Kalloc();
      if ok {
        mem := mem[q := Filled(0)];
        assert mem == old(mem)[q := Filled(0)];
        NewTableKeeps(old(mem), old(free), free, sp, p, i, q);
        mem := SetEntry(mem, p, i, MkPte(q, PTE_V));
        sp' := Attached(sp, q, Child(sp.paths[p], i));
      }
    }

    /** uvmalloc: grows the image to newsz bytes with zeroed pages.  When memory runs out
        it takes back what it added and returns 0, keeping only new (empty) tables.  It does
        not run out if three pages are free for each new one, for itself and two tables. */
    method Uvmalloc(root: nat, oldsz: nat, newsz: nat, xperm: nat, ghost a: Aspace) returns (sz: nat, ghost a': Aspace)
      requires ImageOk(mem, free, a) && root == a.sp.root && PagesFor(oldsz) == |a.user|
      requires xperm in {0, PTE_W, PTE_X, PTE_W + PTE_X} && |mem| <= TRAPFRAME
      modifies this
      ensures ImageOk(mem, free, a') && a'.sp.root == root && a'.fixed == a.fixed
      ensures newsz < oldsz ==> sz == oldsz && a' == a && mem == old(mem) && free == old(free)
      ensures newsz >= oldsz ==> sz == newsz || sz == 0
      ensures newsz >= oldsz && |a'.user| == PagesFor(newsz) ==> sz == newsz
      ensures newsz >= oldsz && |a'.user| != PagesFor(newsz) ==> sz == 0 && a'.user == a.user
      ensures newsz >= oldsz && |a'.user| == PagesFor(newsz) ==>
                |old(free)| <= |free| + 3 * (PagesFor(newsz) - PagesFor(oldsz))
      ensures newsz >= oldsz && |a'.user| != PagesFor(newsz) ==>
                |old(free)| < 3 * (PagesFor(newsz) - PagesFor(oldsz))
      ensures newsz >= oldsz ==> Extends(old(mem), old(free), a, mem, free, a', Zeroed(PagesFor(newsz)))
      ensures Mapped(old(mem), a, mem, a', PTE_R + PTE_U + xperm)
    {
      hide Tree, EntryOk, Owned, Pool, Releasable;
      a' := a;
      if newsz < oldsz {
        return oldsz, a';
      }
      PermOk(xperm);
      var p := PagesFor(oldsz);
      while p * PGSIZE < newsz
        invariant PagesFor(oldsz) <= p == |a'.user| && p <= PagesFor(newsz)
        invariant |old(free)| <= |free| + 3 * (p - PagesFor(oldsz))
        invariant ImageOk(mem, free, a') && a'.sp.root == root && a'.fixed == a.fixed
        invariant Extends(old(mem), old(free), a, mem, free, a', Zeroed(PagesFor(newsz)))
        invariant Mapped(old(mem), a, mem, a', PTE_R + PTE_U + xperm)
        decreases PagesFor(newsz) - p
      {
        ghost var mem1, free1, a1 := mem, free, a';
        var ok;
        assert Zeroed(PagesFor(newsz))[p] == Filled(0);
        ok, a' := GrowOne(root, p, PTE_R + PTE_U + xperm, Filled(0), a', Zeroed(PagesFor(newsz)));
        ExtendsTrans(old(mem), old(free), a, mem1, free1, a1, mem, free, a', Zeroed(PagesFor(newsz)));
        MappedTrans(old(mem), old(free), a, mem1, free1, a1, mem, free, a', Zeroed(PagesFor(newsz)),
                    PTE_R + PTE_U + xperm);
        if !ok {
          mem1, free1, a1 := mem, free, a';
          sz, a' := Uvmdealloc(root, p * PGSIZE, PagesFor(oldsz) * PGSIZE, a');
          TakenBack(old(mem), old(free), a, mem1, free1, a1, mem, free, a', Zeroed(PagesFor(newsz)));
          Remapped(old(mem), old(free), a, mem1, a1, mem, a', PTE_R + PTE_U + xperm);
          return 0, a';
        }
        p := p + 1;
      }
      return newsz, a';
    }

    /** What uvmalloc and uvmcopy do per page: kalloc, fill the page, mappages; kfree if
        that fails. */
    method GrowOne(root: nat, p: nat, perm: nat, content: Page, ghost a: Aspace, ghost want: seq<Page>)
      returns (ok: bool, ghost a': Aspace)
      requires ImageOk(mem, free, a) && root == a.sp.root && p == |a.user| && |mem| <= TRAPFRAME
      requires WithV(perm) < 1024 && IsLeaf(WithV(perm)) && |content| == ENTRIES && p < |want| && want[p] == content
      modifies this
      ensures ImageOk(mem, free, a') && a'.sp.root == root && a'.fixed == a.fixed
      ensures |a'.user| == if ok then p + 1 else p
      ensures if ok then |old(free)| <= |free| + 3 else |old(free)| <= 2
      ensures Extends(old(mem), old(free), a, mem, free, a', want)
      ensures Mapped(old(mem), a, mem, a', perm)
    {
      a' := a;
      Fits(mem, free, a);
      var m;
      ok, m := Kalloc();
      if !ok {
        return;
      }
      mem := mem[m := content];
      assert mem == old(mem)[m := content];
      TakeOut(old(mem), old(free), free, a, m, content);
      ghost var mem1, free1 := mem, free;
      var done;
      ghost var sp';
      ok, done, sp' := Mappages(root, p, 1, m, perm, a.sp);
      PteRoundTrip(m, WithV(perm));
      if ok {
        a' := Aspace(sp', a.user + [m], a.fixed);
        AddPage(mem1, free1, mem, free, a, sp', m, MkPte(m, WithV(perm)));
        ExtendedByOne(old(mem), old(free), mem1, free1, mem, free, a, a', m, content, want);
      } else {
        a' := a.(sp := sp');
        MoreTables(mem1, free1, mem, free, a, sp', m);
        PutBack(mem, free, a', m, 0x0101_0101_0101_0101);
        ExtendedByNone(old(mem), old(free), mem1, free1, mem, free, a, a', m, 0x0101_0101_0101_0101, want);
        Kfree(m);
      }
    }

    /** freewalk: frees a table and the tables below it, each once.  Reaching a leaf would
        be "freewalk: leaf"; a bare table has none. */
    method Freewalk(p: nat, ghost level: nat, ghost sp: Space)
      requires FreeOk(mem, free) && Bare(mem, sp, p, level) && UniquePaths(sp)
      requires Pages(mem) && forall q :: q in Subtree(sp, p) ==> q < |mem| && q !in free
      modifies this
      ensures Pages(mem) && FreeOk(mem, free) && Pool(free) == Pool(old(free)) + Subtree(sp, p)
      ensures Untouched(old(mem), mem, Subtree(sp, p))
      decreases level, 1
    {
      var i := 0;
      while i < ENTRIES
        invariant i <= ENTRIES && FreedTo(old(mem), old(free), mem, free, sp, p, i)
      {
        FreeChild(p, i, level, sp, old(mem), old(free));
        i := i + 1;
      }
      assert p !in Pool(old(free)) + Below(sp, sp.paths[p], ENTRIES);
      ghost var rest := free;
      Kfree(p);
      PoolSplit(free, p, rest);
    }

    /** One round of freewalk's loop. */
    method FreeChild(p: nat, i: nat, ghost level: nat, ghost sp: Space, ghost mem0: Memory, ghost free0: seq<nat>)
      requires i < ENTRIES && Bare(mem0, sp, p, level) && UniquePaths(sp) && FreedTo(mem0, free0, mem, free, sp, p, i)
      requires forall q :: q in Subtree(sp, p) ==> q < |mem0| && q !in free0
      modifies this
      ensures FreedTo(mem0, free0, mem, free, sp, p, i + 1)
      decreases level, 0
    {
      var pte := mem[p][i];
      BareKind(mem0, sp, p, level, i);
      if IsValid(pte) && !IsLeaf(pte) {
        ChildReady(mem0, free0, mem, free, sp, p, level, i);
        ghost var mem1, free1 := mem, free;
        Freewalk(Ppn(pte), level - 1, sp);
        ChildDone(mem0, free0, mem1, free1, mem, free, sp, p, i, Ppn(pte));
        mem := SetEntry(mem, p, i, 0);
      } else {
        NoChild(mem0, free0, mem, free, sp, p, level, i);
      }
    }

    /** uvmfree of an image without fixed pages: everything it owns becomes free. */
    method Uvmfree(root: nat, sz: nat, ghost a: Aspace)
      requires ImageOk(mem, free, a) && root == a.sp.root && PagesFor(sz) == |a.user| && a.fixed == {}
      modifies this
      ensures Pages(mem) && FreeOk(mem, free) && Pool(free) == Pool(old(free)) + Owned(a)
      ensures Untouched(old(mem), mem, Owned(a))
    {
      if sz > 0 {
        TailReleasable(mem, free, a, 0);
        assert a.user[0..] == a.user;
        Uvmunmap(root, 0, PagesFor(sz), true, a.sp, a.user);
      }
      EmptyTree(old(mem), old(free), mem, free, a);
      Freewalk(root, 2, a.sp);
    }

    /** uvmdealloc: shrinks the image to newsz bytes, or does nothing if that is no smaller. */
    method Uvmdealloc(root: nat, oldsz: nat, newsz: nat, ghost a: Aspace) returns (sz: nat, ghost a': Aspace)
      requires ImageOk(mem, free, a) && root == a.sp.root && PagesFor(oldsz) == |a.user|
      modifies this
      ensures ImageOk(mem, free, a') && a'.sp == a.sp && a'.fixed == a.fixed
      ensures sz == (if newsz < oldsz then newsz else oldsz) && |a'.user| == PagesFor(sz) <= |a.user|
              && a'.user == a.user[..PagesFor(sz)]
      ensures Pool(free) + Owned(a') == Pool(old(free)) + Owned(a)
      ensures forall u :: 0 <= u < MAXVPN ==>
                Lookup(mem, a.sp, u) == if |a'.user| <= u < |a.user| then 0 else old(Lookup(mem, a.sp, u))
      ensures Untouched(old(mem), mem, a.sp.paths.Keys + Some(a.user[PagesFor(sz)..], |a.user| - PagesFor(sz)))
    {
      a' := a;
      if newsz >= oldsz {
        return oldsz, a;
      }
      if PagesFor(newsz) < PagesFor(oldsz) {
        ghost var n := PagesFor(newsz);
        ghost var ps := a.user[n..];
        TailReleasable(mem, free, a, n);
        Uvmunmap(root, PagesFor(newsz), PagesFor(oldsz) - PagesFor(newsz), true, a.sp, ps);
        a' := a.(user := a.user[..n]);
        CutImage(old(mem), old(free), mem, free, a, n);
      }
      return newsz, a';
    }

    /** uvmcreate: a zeroed root table. */
    method Uvmcreate() returns (ok: bool, root: nat, ghost a: Aspace)
      requires Pages(mem) && FreeOk(mem, free)
      modifies this
      ensures ok ==> ImageOk(mem, free, a) && a.sp.root == root && a.user == [] && a.fixed == {}
      ensures ok ==> Pool(free) + Owned(a) == Pool(old(free))
      ensures !ok ==> mem == old(mem) && free == old(free) == []
      ensures Pages(mem) && FreeOk(mem, free) && Untouched(old(mem), mem, Pool(old(free)))
      ensures ok ==> |old(free)| == |free| + 1
    {
      a := Aspace(Space(0, map[]), [], {});
      ok, root := Kalloc();
      if ok {
        mem := mem[root := Filled(0)];
        a := Aspace(Space(root, map[root := Root]), [], {});
        PoolSplit(old(free), root, free);
        NewRoot(mem, free, root);
      }
    }

    /** Map one of the two fixed pages at the top of the address space. */
    method MapFixed(root: nat, vpn: nat, ppn: nat, perm: nat, ghost a: Aspace) returns (ok: bool, ghost a': Aspace)
      requires ImageOk(mem, free, a) && root == a.sp.root && vpn in {TRAPFRAME, TRAMPOLINE} && vpn !in a.fixed
      requires WithV(perm) < 1024 && IsLeaf(WithV(perm))
      modifies this
      ensures ImageOk(mem, free, a') && a'.sp.root == root && a'.user == a.user
              && a'.fixed == if ok then a.fixed + {vpn} else a.fixed
      ensures forall u :: 0 <= u < MAXVPN ==>
                Lookup(mem, a'.sp, u) == if ok && u == vpn then MkPte(ppn, WithV(perm)) else old(Lookup(mem, a.sp, u))
      ensures Pool(free) + Owned(a') == Pool(old(free)) + Owned(a)
      ensures if ok then |old(free)| <= |free| + 2 else |old(free)| <= 1
      ensures Untouched(old(mem), mem, Pool(old(free)) + a.sp.paths.Keys)
    {
      assert EntryOk(a, vpn, Lookup(mem, a.sp, vpn));
      var done;
      ghost var sp';
      ok, done, sp' := Mappages(root, vpn, 1, ppn, perm, a.sp);
      PteRoundTrip(ppn, WithV(perm));
      a' := Aspace(sp', a.user, if ok then a.fixed + {vpn} else a.fixed);
      AddFixed(old(mem), old(free), mem, free, a, a', vpn);
    }

    /** Unmap one of the fixed pages, whose physical page is not this image's to free. */
    method UnmapFixed(root: nat, vpn: nat, ghost a: Aspace) returns (ghost a': Aspace)
      requires ImageOk(mem, free, a) && root == a.sp.root && vpn in a.fixed
      modifies this
      ensures ImageOk(mem, free, a') && a' == a.(fixed := a.fixed - {vpn})
      ensures free == old(free) && Untouched(old(mem), mem, a.sp.paths.Keys)
    {
      assert EntryOk(a, vpn, Lookup(mem, a.sp, vpn));
      UnmapPage(root, vpn, false, a.sp, Ppn(Lookup(mem, a.sp, vpn)));
      assert free == old(free);
      a' := a.(fixed := a.fixed - {vpn});
      forall u | 0 <= u < MAXVPN
        ensures EntryOk(a', u, Lookup(mem, a.sp, u))
      {
        assert EntryOk(a, u, old(Lookup(mem, a.sp, u)));
      }
    }

    /** proc_pagetable: an image with just the trampoline and the trapframe, or, when
        memory runs out, nothing at all.  Five free pages are enough. */
    method ProcPagetable(tramp: nat, trapframe: nat) returns (ok: bool, root: nat, ghost a: Aspace)
      requires Pages(mem) && FreeOk(mem, free)
      modifies this
      ensures ok ==> ImageOk(mem, free, a) && a.sp.root == root && a.user == [] && a.fixed == {TRAPFRAME, TRAMPOLINE}
      ensures ok ==> Lookup(mem, a.sp, TRAMPOLINE) == MkPte(tramp, WithV(PTE_R + PTE_X))
                     && Lookup(mem, a.sp, TRAPFRAME) == MkPte(trapframe, WithV(PTE_R + PTE_W))
      ensures Pool(free) + (if ok then Owned(a) else {}) == Pool(old(free))
      ensures if ok then |old(free)| <= |free| + 5 else |old(free)| < 5
      ensures Pages(mem) && FreeOk(mem, free) && Untouched(old(mem), mem, Pool(old(free)))
    {
      ok, root, a := Uvmcreate();
      if !ok {
        return;
      }
      FixedPerms();
      ok, a := MapFixed(root, TRAMPOLINE, tramp, PTE_R + PTE_X, a);
      if !ok {
        Uvmfree(root, 0, a);
        return;
      }
      assert Lookup(mem, a.sp, TRAMPOLINE) == MkPte(tramp, WithV(PTE_R + PTE_X));
      ok, a := MapFixed(root, TRAPFRAME, trapframe, PTE_R + PTE_W, a);
      if !ok {
        a := UnmapFixed(root, TRAMPOLINE, a);
        Uvmfree(root, 0, a);
        return;
      }
    }

    /** proc_freepagetable: teardown of a whole image; every page it owns is free again. */
    method ProcFreepagetable(root: nat, sz: nat, ghost a: Aspace)
      requires ImageOk(mem, free, a) && root == a.sp.root && PagesFor(sz) == |a.user|
               && a.fixed == {TRAPFRAME, TRAMPOLINE}
      modifies this
      ensures Pages(mem) && FreeOk(mem, free) && Pool(free) == Pool(old(free)) + Owned(a)
      ensures Untouched(old(mem), mem, Owned(a))
    {
      ghost var b := UnmapFixed(root, TRAMPOLINE, a);
      b := UnmapFixed(root, TRAPFRAME, b);
      Uvmfree(root, sz, b);
    }

    /** uvmcopy: gives the empty image b a copy of every page of image a, with the same
        permissions; when memory runs out b is empty again.  a is not affected.  Three free
        pages for each page of a are enough. */
    method Uvmcopy(oldroot: nat, newroot: nat, sz: nat, ghost a: Aspace, ghost b: Aspace)
      returns (ok: bool, ghost b': Aspace)
      requires ImageOk(mem, free, a) && oldroot == a.sp.root && PagesFor(sz) == |a.user|
      requires ImageOk(mem, free, b) && newroot == b.sp.root && b.user == [] && Owned(a) !! Owned(b)
               && |mem| <= TRAPFRAME
      modifies this
      ensures ImageOk(mem, free, a) && ImageOk(mem, free, b') && Owned(a) !! Owned(b')
      ensures b'.sp.root == newroot && b'.fixed == b.fixed && |b'.user| == if ok then |a.user| else 0
      ensures if ok then |old(free)| <= |free| + 3 * |a.user| else |old(free)| < 3 * |a.user|
      ensures ok ==> forall u :: 0 <= u < |a.user| ==> SamePage(old(mem), a, mem, b', u)
      ensures forall u :: 0 <= u < MAXVPN ==> Lookup(mem, a.sp, u) == old(Lookup(mem, a.sp, u))
      ensures Extends(old(mem), old(free), b, mem, free, b', CopyOf(old(mem), a))
      ensures forall u :: |b'.user| <= u < MAXVPN ==> Lookup(mem, b'.sp, u) == old(Lookup(mem, b.sp, u))
    {
      hide Owned;
      ghost var want := CopyOf(mem, a);
      b' := b;
      var i := 0;
      while i * PGSIZE < sz
        invariant i == |b'.user| && i <= PagesFor(sz) && |old(free)| <= |free| + 3 * i
        invariant CopyingOk(old(mem), old(free), mem, free, a, b, b', newroot)
        decreases PagesFor(sz) - i
      {
        ghost var mem1, free1, b1 := mem, free, b';
        assert EntryOk(a, i, Lookup(mem, a.sp, i));
        var found, l, _ := Walk(oldroot, i, false, a.sp);
        var pte := mem[l][PX0(i)];
        var pa := Ppn(pte);
        LeafFlags(pte);
        ok, b' := GrowOne(newroot, i, Flags(pte), mem[pa], b', want);
        CopyStep(old(mem), old(free), mem1, free1, mem, free, a, b, b1, b', newroot, ok);
        if !ok {
          b' := Uncopy(newroot, i, old(mem), old(free), a, b, b');
          return;
        }
        i := i + 1;
      }
      ok := true;
    }

    /** The error path of uvmcopy. */
    method Uncopy(newroot: nat, i: nat, ghost mem0: Memory, ghost free0: seq<nat>, ghost a: Aspace, ghost b: Aspace,
                  ghost b1: Aspace) returns (ghost b': Aspace)
      requires ImageOk(mem0, free0, b) && b.user == [] && i == |b1.user|
               && CopyingOk(mem0, free0, mem, free, a, b, b1, newroot)
      modifies this
      ensures b'.user == [] && CopyingOk(mem0, free0, mem, free, a, b, b', newroot)
    {
      hide CopyingOk, Tree, Lookup, Ppn, IsLeaf, Releasable, EntryOk, NoDup;
      ghost var mem1, free1 := mem, free;
      CopyImage(mem0, free0, mem, free, a, b, b1, newroot);
      TailReleasable(mem, free, b1, 0);
      assert b1.user[0..] == b1.user && b1.user[..0] == [];
      Uvmunmap(newroot, 0, i, true, b1.sp, b1.user);
      b' := b1.(user := []);
      UncopyDone(mem0, free0, mem1, free1, mem, free, a, b, b1, newroot);
    }
  }

  /** The contents of the user pages of a, in order. */
  ghost function CopyOf(mem: Memory, a: Aspace): (r: seq<Page>)
    requires forall u :: 0 <= u < |a.user| ==> a.user[u] < |mem|
    ensures |r| == |a.user| && forall u :: 0 <= u < |r| ==> r[u] == mem[a.user[u]]
  {
    seq(|a.user|, u requires 0 <= u < |a.user| => mem[a.user[u]])
  }

  /** Page u of b' is a copy of page u of a: same contents, same permissions. */
  ghost predicate SamePage(mem: Memory, a: Aspace, mem': Memory, b': Aspace, u: nat)
    requires Tree(mem, a.sp) && Tree(mem', b'.sp) && u < |a.user| <= MAXVPN && u < |b'.user|
  {
    && a.user[u] < |mem| && b'.user[u] < |mem'| && mem'[b'.user[u]] == mem[a.user[u]]
    && Flags(Lookup(mem', b'.sp, u)) == Flags(Lookup(mem, a.sp, u))
  }

  /** uvmcopy part-way: both images are in order and the pages copied so far are copies. */
  ghost predicate CopyingOk(mem0: Memory, free0: seq<nat>, mem: Memory, free: seq<nat>, a: Aspace, b: Aspace,
                            b': Aspace, newroot: nat) {
    && ImageOk(mem0, free0, a) && ImageOk(mem, free, a) && ImageOk(mem, free, b') && Owned(a) !! Owned(b')
    && b'.sp.root == newroot && b'.fixed == b.fixed && |b'.user| <= |a.user|
    && (forall u :: 0 <= u < |b'.user| ==> SamePage(mem0, a, mem, b', u))
    && (forall u :: 0 <= u < |a.user| ==> mem[a.user[u]] == mem0[a.user[u]])
    && (forall u :: 0 <= u < MAXVPN ==> Lookup(mem, a.sp, u) == Lookup(mem0, a.sp, u))
    && Extends(mem0, free0, b, mem, free, b', CopyOf(mem0, a))
    && Tree(mem0, b.sp) && forall u :: |b'.user| <= u < MAXVPN ==> Lookup(mem, b'.sp, u) == Lookup(mem0, b.sp, u)
  }

  lemma CopyImage(mem0: Memory, free0: seq<nat>, mem: Memory, free: seq<nat>, a: Aspace, b: Aspace, b': Aspace,
                  newroot: nat)
    requires CopyingOk(mem0, free0, mem, free, a, b, b', newroot)
    ensures ImageOk(mem, free, b') && b'.sp.root == newroot && |b'.user| <= MAXVPN
  {
  }

  lemma UncopyDone(mem0: Memory, free0: seq<nat>, mem1: Memory, free1: seq<nat>, mem2: Memory, free2: seq<nat>,
                   a: Aspace, b: Aspace, b1: Aspace, newroot: nat)
    requires ImageOk(mem0, free0, b) && b.user == [] && CopyingOk(mem0, free0, mem1, free1, a, b, b1, newroot)
    requires Usable(mem2, free2, b1.sp) && |mem2| == |mem1|
    requires forall u :: 0 <= u < MAXVPN ==>
               Lookup(mem2, b1.sp, u) == if u < |b1.user| then 0 else Lookup(mem1, b1.sp, u)
    requires Pool(free2) == Pool(free1) + Some(b1.user, |b1.user|)
    requires Untouched(mem1, mem2, b1.sp.paths.Keys + Some(b1.user, |b1.user|))
    ensures CopyingOk(mem0, free0, mem2, free2, a, b, b1.(user := []), newroot)
  {
    var b2 := b1.(user := []);
    assert b1.user[0..] == b1.user && b1.user[..0] == [];
    CutImage(mem1, free1, mem2, free2, b1, 0);
    TakenBack(mem0, free0, b, mem1, free1, b1, mem2, free2, b2, CopyOf(mem0, a));
    FreeApart(mem1, free1, a);
    Bystander(mem1, free1, mem2, free2, a, Owned(b1));
    forall u | 0 <= u < MAXVPN
      ensures Lookup(mem2, b1.sp, u) == Lookup(mem0, b.sp, u)
    {
      assert EntryOk(b, u, Lookup(mem0, b.sp, u));
    }
  }

  lemma LeafFlags(pte: nat)
    requires IsLeaf(pte)
    ensures WithV(Flags(pte)) == Flags(pte) < 1024 && IsLeaf(Flags(pte))
  {
    PteRoundTrip(Ppn(pte), Flags(pte));
  }

  /** An image none of whose pages is touched or freed stays as it is. */
  lemma Bystander(mem: Memory, free: seq<nat>, mem': Memory, free': seq<nat>, a: Aspace, touched: set<nat>)
    requires ImageOk(mem, free, a) && Pages(mem') && FreeOk(mem', free') && Untouched(mem, mem', touched)
    requires touched !! Owned(a) && Pool(free') !! Owned(a)
    ensures ImageOk(mem', free', a) && SameLookups(mem, a.sp, mem', a.sp)
    ensures forall u :: 0 <= u < |a.user| ==> mem'[a.user[u]] == mem[a.user[u]]
  {
    TreeFrame(mem, mem', a.sp);
    forall k | 0 <= k < |a.user|
      ensures a.user[k] in Owned(a) && a.user[k] !in free'
    {
      assert a.user[k] in Pool(a.user);
    }
    forall k | 0 <= k < |free'|
      ensures free'[k] !in a.sp.paths
    {
      assert free'[k] in Pool(free');
    }
    forall u | 0 <= u < MAXVPN
      ensures EntryOk(a, u, Lookup(mem', a.sp, u))
    {
      assert EntryOk(a, u, Lookup(mem, a.sp, u));
    }
  }

  /** Images that share no page stay apart when one of them extends. */
  lemma ApartExtends(mem: Memory, free: seq<nat>, mem': Memory, free': seq<nat>, a: Aspace, b: Aspace, b': Aspace,
                     want: seq<Page>)
    requires ImageOk(mem, free, a) && ImageOk(mem, free, b) && ImageOk(mem', free', b') && Owned(a) !! Owned(b)
    requires Extends(mem, free, b, mem', free', b', want)
    ensures ImageOk(mem', free', a) && Owned(a) !! Owned(b') && SameLookups(mem, a.sp, mem', a.sp)
    ensures forall u :: 0 <= u < |a.user| ==> mem'[a.user[u]] == mem[a.user[u]]
  {
    FreeApart(mem, free, a);
    Bystander(mem, free, mem', free', a, Pool(free) + b.sp.paths.Keys);
  }

  lemma FreeApart(mem: Memory, free: seq<nat>, a: Aspace)
    requires ImageOk(mem, free, a)
    ensures Pool(free) !! Owned(a) && a.sp.paths.Keys !! Pool(a.user)
  {
    forall p | p in Pool(free)
      ensures p !in a.sp.paths
    {
      var k :| 0 <= k < |free| && free[k] == p;
      assert free[k] !in a.sp.paths;
    }
    forall p | p in Pool(a.user)
      ensures p !in free && p !in a.sp.paths
    {
      var j :| 0 <= j < |a.user| && a.user[j] == p;
      assert a.user[j] !in free;
    }
  }

  lemma CopyStep(mem0: Memory, free0: seq<nat>, mem1: Memory, free1: seq<nat>, mem2: Memory, free2: seq<nat>,
                 a: Aspace, b: Aspace, b1: Aspace, b2: Aspace, newroot: nat, ok: bool)
    requires ImageOk(mem0, free0, b) && CopyingOk(mem0, free0, mem1, free1, a, b, b1, newroot)
    requires ImageOk(mem2, free2, b2) && b2.sp.root == newroot && b2.fixed == b.fixed && |b1.user| < |a.user|
    requires |b2.user| == |b1.user| + if ok then 1 else 0
    requires Extends(mem1, free1, b1, mem2, free2, b2, CopyOf(mem0, a))
    requires Mapped(mem1, b1, mem2, b2, Flags(Lookup(mem1, a.sp, |b1.user|)))
    ensures CopyingOk(mem0, free0, mem2, free2, a, b, b2, newroot)
  {
    hide Tree, EntryOk, NoDup, Lookup, SamePage;
    var want := CopyOf(mem0, a);
    ApartExtends(mem1, free1, mem2, free2, a, b1, b2, want);
    ExtendsTrans(mem0, free0, b, mem1, free1, b1, mem2, free2, b2, want);
    forall u | 0 <= u < |b2.user|
      ensures SamePage(mem0, a, mem2, b2, u)
    {
      if u < |b1.user| {
        CopyKept(mem0, mem1, free1, mem2, free2, a, b1, b2, want, u);
      } else {
        CopyMade(mem0, free0, mem1, free1, mem2, free2, a, b1, b2, u);
      }
    }
  }

  lemma CopyKept(mem0: Memory, mem1: Memory, free1: seq<nat>, mem2: Memory, free2: seq<nat>, a: Aspace, b1: Aspace,
                 b2: Aspace, want: seq<Page>, u: nat)
    requires Tree(mem0, a.sp) && u < |b1.user| && u < |a.user| <= MAXVPN && ImageOk(mem1, free1, b1)
             && SamePage(mem0, a, mem1, b1, u)
    requires Extends(mem1, free1, b1, mem2, free2, b2, want) && Tree(mem2, b2.sp)
             && Lookup(mem2, b2.sp, u) == Lookup(mem1, b1.sp, u)
    ensures SamePage(mem0, a, mem2, b2, u)
  {
    hide Tree;
    assert b2.user[u] == b2.user[..|b1.user|][u] == b1.user[u];
    FreeApart(mem1, free1, b1);
    assert b1.user[u] in Pool(b1.user) && b1.user[u] in Owned(b1);
  }

  lemma CopyMade(mem0: Memory, free0: seq<nat>, mem1: Memory, free1: seq<nat>, mem2: Memory, free2: seq<nat>,
                 a: Aspace, b1: Aspace, b2: Aspace,
                 u: nat)
    requires ImageOk(mem0, free0, a) && ImageOk(mem1, free1, a) && u == |b1.user| < |a.user| && u < |b2.user|
    requires Extends(mem1, free1, b1, mem2, free2, b2, CopyOf(mem0, a))
             && Lookup(mem1, a.sp, u) == Lookup(mem0, a.sp, u)
    requires Tree(mem2, b2.sp) && Lookup(mem2, b2.sp, u) == MkPte(b2.user[u], WithV(Flags(Lookup(mem1, a.sp, u))))
    ensures SamePage(mem0, a, mem2, b2, u)
  {
    hide Tree, Lookup, Flags, MkPte, Ppn, IsLeaf, WithV, Untouched, Owned, NoDup;
    var pte := Lookup(mem1, a.sp, u);
    assert EntryOk(a, u, pte);
    LeafFlags(pte);
    PteRoundTrip(b2.user[u], Flags(pte));
  }

  // ---------------------------------------------------------------- process images

  datatype Aspace = Aspace(sp: Space, user: seq<nat>, fixed: set<nat>)

  /** What walking the tree must find at page u. */
  ghost predicate EntryOk(a: Aspace, u: nat, pte: nat) {
    if u < |a.user| then IsLeaf(pte) && Ppn(pte) == a.user[u]
    else if u in a.fixed then IsLeaf(pte)
    else pte == 0
  }

  /** The leaves are exactly the user pages from 0 up and the fixed pages at the top; the
      user pages are distinct, and neither free nor tables. */
  ghost predicate ImageOk(mem: Memory, free: seq<nat>, a: Aspace) {
    && Usable(mem, free, a.sp)
    && |a.user| <= TRAPFRAME && a.fixed <= {TRAPFRAME, TRAMPOLINE}
    && Releasable(mem, free, a.sp, a.user, 0)
    && forall u :: 0 <= u < MAXVPN ==> EntryOk(a, u, Lookup(mem, a.sp, u))
  }

  ghost function Owned(a: Aspace): set<nat> {
    a.sp.paths.Keys + Pool(a.user)
  }

  /** The pages that a' has beyond a are mapped with perm, and no other entry has changed. */
  ghost predicate Mapped(mem: Memory, a: Aspace, mem': Memory, a': Aspace, perm: nat) {
    && Tree(mem, a.sp) && Tree(mem', a'.sp)
    && forall u :: 0 <= u < MAXVPN ==>
         Lookup(mem', a'.sp, u) == if |a.user| <= u < |a'.user| then MkPte(a'.user[u], WithV(perm))
                                   else Lookup(mem, a.sp, u)
  }

  /** a' has a's user pages, then new ones filled as `want` says; all pages in use or free
      are accounted for, and only tables and pages that were free have changed. */
  ghost predicate Extends(mem: Memory, free: seq<nat>, a: Aspace, mem': Memory, free': seq<nat>, a': Aspace,
                          want: seq<Page>) {
    && |a.user| <= |a'.user| <= |want| && a'.user[..|a.user|] == a.user
    && (forall u :: |a.user| <= u < |a'.user| ==> a'.user[u] < |mem'| && mem'[a'.user[u]] == want[u])
    && Pool(free') + Owned(a') == Pool(free) + Owned(a)
    && a.sp.paths.Keys <= a'.sp.paths.Keys
    && Untouched(mem, mem', Pool(free) + a.sp.paths.Keys)
  }

  lemma ExtendsTrans(mem0: Memory, free0: seq<nat>, a0: Aspace, mem1: Memory, free1: seq<nat>, a1: Aspace,
                     mem2: Memory, free2: seq<nat>, a2: Aspace, want: seq<Page>)
    requires ImageOk(mem0, free0, a0) && ImageOk(mem1, free1, a1)
    requires Extends(mem0, free0, a0, mem1, free1, a1, want) && Extends(mem1, free1, a1, mem2, free2, a2, want)
    ensures Extends(mem0, free0, a0, mem2, free2, a2, want)
  {
    var n0, n1 := |a0.user|, |a1.user|;
    assert a2.user[..n0] == a2.user[..n1][..n0];
    InPool(mem0, free0, a0, mem1, free1, a1, want);
    forall u | n0 <= u < |a2.user|
      ensures a2.user[u] < |mem2| && mem2[a2.user[u]] == want[u]
    {
      if u < n1 {
        assert a2.user[u] == a2.user[..n1][u] == a1.user[u];
        assert a1.user[u] !in Pool(free1) + a1.sp.paths.Keys;
      }
    }
  }

  lemma MappedTrans(mem0: Memory, free0: seq<nat>, a0: Aspace, mem1: Memory, free1: seq<nat>, a1: Aspace,
                    mem2: Memory, free2: seq<nat>, a2: Aspace, want: seq<Page>, perm: nat)
    requires Extends(mem0, free0, a0, mem1, free1, a1, want) && Extends(mem1, free1, a1, mem2, free2, a2, want)
    requires Mapped(mem0, a0, mem1, a1, perm) && Mapped(mem1, a1, mem2, a2, perm)
    ensures Mapped(mem0, a0, mem2, a2, perm)
  {
    hide Untouched, Owned, Pool;
    assert forall u :: 0 <= u < |a1.user| ==> a2.user[u] == a2.user[..|a1.user|][u];
  }

  /** Later free pages and tables were free or tables before. */
  lemma InPool(mem0: Memory, free0: seq<nat>, a0: Aspace, mem1: Memory, free1: seq<nat>, a1: Aspace, want: seq<Page>)
    requires ImageOk(mem0, free0, a0) && ImageOk(mem1, free1, a1) && Extends(mem0, free0, a0, mem1, free1, a1, want)
    ensures Pool(free1) + a1.sp.paths.Keys <= Pool(free0) + a0.sp.paths.Keys
  {
    FreeApart(mem1, free1, a1);
    forall p | p in Pool(a0.user)
      ensures p in Pool(a1.user)
    {
      var k :| 0 <= k < |a0.user| && a0.user[k] == p;
      assert a1.user[..|a0.user|][k] == p && a1.user[k] == p;
    }
    forall p | p in Pool(free1) + a1.sp.paths.Keys
      ensures p in Pool(free0) + a0.sp.paths.Keys
    {
      assert p in Pool(free0) + Owned(a0);
    }
  }

  /** Shrinking back to the starting size undoes an extension, but for new tables. */
  lemma TakenBack(mem0: Memory, free0: seq<nat>, a0: Aspace, mem1: Memory, free1: seq<nat>, a1: Aspace,
                  mem2: Memory, free2: seq<nat>, a2: Aspace, want: seq<Page>)
    requires ImageOk(mem0, free0, a0) && ImageOk(mem1, free1, a1) && Extends(mem0, free0, a0, mem1, free1, a1, want)
    requires a2.sp == a1.sp && a2.user == a1.user[..|a0.user|]
    requires Pool(free2) + Owned(a2) == Pool(free1) + Owned(a1)
    requires Untouched(mem1, mem2, a1.sp.paths.Keys + Some(a1.user[|a0.user|..], |a1.user| - |a0.user|))
    ensures a2.user == a0.user && Extends(mem0, free0, a0, mem2, free2, a2, want)
  {
    InPool(mem0, free0, a0, mem1, free1, a1, want);
    var n := |a0.user|;
    var tail := Some(a1.user[n..], |a1.user| - n);
    PoolCut(a1.user, n);
    forall p | p in Pool(a0.user)
      ensures p !in tail
    {
      var j :| 0 <= j < n && a0.user[j] == p;
      assert a1.user[..n][j] == a1.user[j] == p;
      assert forall k :: 0 <= k < |a1.user| - n ==> a1.user[n..][k] == a1.user[n + k] != a1.user[j];
    }
    forall p | p in tail
      ensures p in Pool(free0) + a0.sp.paths.Keys
    {
      var k :| 0 <= k < |a1.user| - n && a1.user[n..][k] == p;
      assert a1.user[n + k] == p && p in Pool(a1.user) && p in Pool(free0) + Owned(a0);
    }
  }

  /** ... and leaves every entry as it was. */
  lemma Remapped(mem0: Memory, free0: seq<nat>, a0: Aspace, mem1: Memory, a1: Aspace, mem2: Memory, a2: Aspace,
                 perm: nat)
    requires ImageOk(mem0, free0, a0) && Mapped(mem0, a0, mem1, a1, perm) && Tree(mem2, a1.sp) && |a1.user| <= TRAPFRAME
    requires a2.sp == a1.sp && |a2.user| == |a0.user|
    requires forall u :: 0 <= u < MAXVPN ==>
               Lookup(mem2, a1.sp, u) == if |a2.user| <= u < |a1.user| then 0 else Lookup(mem1, a1.sp, u)
    ensures Mapped(mem0, a0, mem2, a2, perm)
  {
    forall u | 0 <= u < MAXVPN
      ensures Lookup(mem2, a1.sp, u) == Lookup(mem0, a0.sp, u)
    {
      assert EntryOk(a0, u, Lookup(mem0, a0.sp, u));
    }
  }

  lemma PermOk(xperm: nat)
    requires xperm in {0, PTE_W, PTE_X, PTE_W + PTE_X}
    ensures WithV(PTE_R + PTE_U + xperm) < 1024 && IsLeaf(WithV(PTE_R + PTE_U + xperm))
  {
  }

  function Zeroed(n: nat): seq<Page> {
    seq(n, _ => Filled(0))
  }

  /** Physical memory bounds the user pages and free pages together. */
  lemma Fits(mem: Memory, free: seq<nat>, a: Aspace)
    requires ImageOk(mem, free, a)
    ensures |a.user| + |free| <= |mem|
  {
    var all := a.user + free;
    forall i, j | 0 <= i < j < |all|
      ensures all[i] != all[j]
    {
      if i < |a.user| <= j {
        assert all[j] in free;
      }
    }
    Bounded(all, |mem|);
  }

  /** A page popped off the free list and filled belongs to nobody. */
  lemma TakeOut(mem: Memory, free: seq<nat>, free': seq<nat>, a: Aspace, m: nat, content: Page)
    requires ImageOk(mem, free, a) && free == [m] + free' && |content| == ENTRIES
    ensures m < |mem| && m !in free' && m !in Owned(a) && Pool(free) == {m} + Pool(free')
    ensures ImageOk(mem[m := content], free', a) && SameLookups(mem, a.sp, mem[m := content], a.sp)
  {
    assert free[0] == m;
    PoolSplit(free, m, free');
    TreeFrame(mem, mem[m := content], a.sp);
    forall k | 0 <= k < |free'|
      ensures free'[k] == free[k + 1] && free'[k] in free
    {
    }
    forall k | 0 <= k < |a.user|
      ensures a.user[k] !in free' && a.user[k] != m
    {
      assert a.user[k] !in free;
    }
  }

  /** Tables taken from the free list, nothing mapped: the image is as before. */
  lemma MoreTables(mem: Memory, free: seq<nat>, mem': Memory, free': seq<nat>, a: Aspace, sp': Space, m: nat)
    requires ImageOk(mem, free, a) && Usable(mem', free', sp') && |mem'| == |mem| && m !in free && m !in Owned(a)
    requires forall u :: 0 <= u < MAXVPN ==> Lookup(mem', sp', u) == Lookup(mem, a.sp, u)
    requires Pool(free') + sp'.paths.Keys == Pool(free) + a.sp.paths.Keys
    ensures ImageOk(mem', free', a.(sp := sp')) && m !in free' && m !in Owned(a.(sp := sp'))
    ensures Pool(free') + Owned(a.(sp := sp')) == Pool(free) + Owned(a)
  {
    forall p | p in free' || p in sp'.paths
      ensures p in free || p in a.sp.paths
    {
      assert p in Pool(free') + sp'.paths.Keys;
    }
    forall u | 0 <= u < MAXVPN
      ensures EntryOk(a.(sp := sp'), u, Lookup(mem', sp', u))
    {
      assert EntryOk(a, u, Lookup(mem, a.sp, u));
    }
  }

  /** ... and one user page mapped at the end. */
  lemma AddPage(mem: Memory, free: seq<nat>, mem': Memory, free': seq<nat>, a: Aspace, sp': Space, m: nat, pte: nat)
    requires ImageOk(mem, free, a) && Usable(mem', free', sp') && |mem'| == |mem|
    requires m < |mem| && m !in free && m !in Owned(a) && |a.user| < TRAPFRAME && IsLeaf(pte) && Ppn(pte) == m
    requires forall u :: 0 <= u < MAXVPN ==> Lookup(mem', sp', u) == if u == |a.user| then pte else Lookup(mem, a.sp, u)
    requires Pool(free') + sp'.paths.Keys == Pool(free) + a.sp.paths.Keys
    ensures ImageOk(mem', free', Aspace(sp', a.user + [m], a.fixed))
    ensures Pool(free') + Owned(Aspace(sp', a.user + [m], a.fixed)) == Pool(free) + Owned(a) + {m}
  {
    var a' := Aspace(sp', a.user + [m], a.fixed);
    forall p | p in free' || p in sp'.paths
      ensures p in free || p in a.sp.paths
    {
      assert p in Pool(free') + sp'.paths.Keys;
    }
    forall u | 0 <= u < MAXVPN
      ensures EntryOk(a', u, Lookup(mem', sp', u))
    {
      assert EntryOk(a, u, Lookup(mem, a.sp, u));
    }
    forall k | 0 <= k < |a.user|
      ensures a.user[k] != m
    {
      assert a.user[k] in Pool(a.user);
    }
    PoolAdd(a.user, m);
  }

  lemma ExtendedByOne(mem0: Memory, free0: seq<nat>, mem1: Memory, free1: seq<nat>, mem2: Memory, free2: seq<nat>,
                      a: Aspace, a': Aspace, m: nat, content: Page, want: seq<Page>)
    requires m < |mem0| && mem1 == mem0[m := content] && Pool(free0) == {m} + Pool(free1)
             && m !in Pool(free1) + Owned(a)
    requires |a.user| < |want| && want[|a.user|] == content && a'.user == a.user + [m]
             && a.sp.paths.Keys <= a'.sp.paths.Keys
    requires Untouched(mem1, mem2, Pool(free1) + a.sp.paths.Keys)
             && Pool(free2) + Owned(a') == Pool(free1) + Owned(a) + {m}
    ensures Extends(mem0, free0, a, mem2, free2, a', want)
  {
  }

  lemma ExtendedByNone(mem0: Memory, free0: seq<nat>, mem1: Memory, free1: seq<nat>, mem2: Memory, free2: seq<nat>,
                       a: Aspace, a': Aspace, m: nat, junk: nat, want: seq<Page>)
    requires m < |mem0| && |mem1| == |mem0| && Untouched(mem0, mem1, {m}) && Pool(free0) == {m} + Pool(free1)
    requires |a.user| <= |want| && a'.user == a.user && a.sp.paths.Keys <= a'.sp.paths.Keys
    requires Untouched(mem1, mem2, Pool(free1) + a.sp.paths.Keys) && Pool(free2) + Owned(a') == Pool(free1) + Owned(a)
    requires Pool([m] + free2) == Pool(free2) + {m}
    ensures Extends(mem0, free0, a, mem2[m := Filled(junk)], [m] + free2, a', want)
  {
  }

  lemma FixedPerms()
    ensures WithV(PTE_R + PTE_X) == PTE_R + PTE_X + PTE_V && IsLeaf(WithV(PTE_R + PTE_X))
    ensures WithV(PTE_R + PTE_W) == PTE_R + PTE_W + PTE_V && IsLeaf(WithV(PTE_R + PTE_W))
  {
  }

  lemma PoolAdd(ps: seq<nat>, m: nat)
    ensures Pool(ps + [m]) == Pool(ps) + {m}
  {
    assert (ps + [m])[|ps|] == m;
    forall p | p in ps
      ensures p in ps + [m]
    {
    }
  }

  /** Freeing a page nobody owns. */
  lemma PutBack(mem: Memory, free: seq<nat>, a: Aspace, m: nat, junk: nat)
    requires ImageOk(mem, free, a) && m < |mem| && m !in free && m !in Owned(a)
    ensures ImageOk(mem[m := Filled(junk)], [m] + free, a) && SameLookups(mem, a.sp, mem[m := Filled(junk)], a.sp)
    ensures Pool([m] + free) == Pool(free) + {m}
  {
    var mem', free' := mem[m := Filled(junk)], [m] + free;
    TreeFrame(mem, mem', a.sp);
    PoolSplit(free', m, free);
    forall k | 0 <= k < |a.user|
      ensures a.user[k] !in free'
    {
      assert a.user[k] in Pool(a.user);
    }
    forall k | 0 <= k < |free'|
      ensures free'[k] !in a.sp.paths && (k > 0 ==> free'[k] == free[k - 1] && free[k - 1] in free)
    {
    }
  }

  /** freewalk of p is done with the entries before i. */
  ghost predicate FreedTo(mem0: Memory, free0: seq<nat>, mem: Memory, free: seq<nat>, sp: Space, p: nat, i: nat)
    requires p in sp.paths
  {
    && Pages(mem) && FreeOk(mem, free) && Pool(free) == Pool(free0) + Below(sp, sp.paths[p], i)
    && Untouched(mem0, mem, {p} + Below(sp, sp.paths[p], i))
    && p < |mem0| && |mem[p]| == |mem0[p]| == ENTRIES && forall k :: i <= k < ENTRIES ==> mem[p][k] == mem0[p][k]
  }

  /** A bare table holds table pointers and zeros only. */
  lemma BareKind(mem: Memory, sp: Space, p: nat, level: nat, i: nat)
    requires Bare(mem, sp, p, level) && i < ENTRIES
    ensures if mem[p][i] == 0 then !IsValid(mem[p][i])
            else IsValid(mem[p][i]) && !IsLeaf(mem[p][i]) && Ppn(mem[p][i]) in sp.paths
  {
    assert BareEntry(mem, sp, p, level, i);
    PteRoundTrip(Ppn(mem[p][i]), PTE_V);
  }

  lemma ChildReady(mem0: Memory, free0: seq<nat>, mem: Memory, free: seq<nat>, sp: Space, p: nat, level: nat, i: nat)
    requires i < ENTRIES && Bare(mem0, sp, p, level) && UniquePaths(sp) && FreedTo(mem0, free0, mem, free, sp, p, i)
    requires forall q :: q in Subtree(sp, p) ==> q < |mem0| && q !in free0
    requires mem0[p][i] != 0
    ensures var q := Ppn(mem0[p][i]);
            && level > 0 && Bare(mem, sp, q, level - 1) && (forall x :: x in Subtree(sp, q) ==> x < |mem| && x !in free)
            && Below(sp, sp.paths[p], i + 1) == Below(sp, sp.paths[p], i) + Subtree(sp, q) && p !in Subtree(sp, q)
  {
    assert BareEntry(mem0, sp, p, level, i);
    var q := Ppn(mem0[p][i]);
    SubtreeStep(sp, p, q, i);
    BareFrame(mem0, mem, sp, q, level - 1);
    forall x | x in Subtree(sp, q)
      ensures x < |mem| && x !in free
    {
      assert x in Subtree(sp, p) && x !in Pool(free);
    }
  }

  lemma ChildDone(mem0: Memory, free0: seq<nat>, mem1: Memory, free1: seq<nat>, mem2: Memory, free2: seq<nat>,
                  sp: Space, p: nat, i: nat, q: nat)
    requires i < ENTRIES && p in sp.paths && q in sp.paths && FreedTo(mem0, free0, mem1, free1, sp, p, i)
    requires Pages(mem2) && FreeOk(mem2, free2) && Pool(free2) == Pool(free1) + Subtree(sp, q)
             && Untouched(mem1, mem2, Subtree(sp, q))
    requires Below(sp, sp.paths[p], i + 1) == Below(sp, sp.paths[p], i) + Subtree(sp, q) && p !in Subtree(sp, q)
    ensures |mem2[p]| == ENTRIES && FreedTo(mem0, free0, SetEntry(mem2, p, i, 0), free2, sp, p, i + 1)
  {
    assert mem2[p] == mem1[p];
  }

  lemma NoChild(mem0: Memory, free0: seq<nat>, mem: Memory, free: seq<nat>, sp: Space, p: nat, level: nat, i: nat)
    requires i < ENTRIES && Bare(mem0, sp, p, level) && FreedTo(mem0, free0, mem, free, sp, p, i) && mem0[p][i] == 0
    ensures FreedTo(mem0, free0, mem, free, sp, p, i + 1)
  {
    assert BareEntry(mem0, sp, p, level, i);
    assert Below(sp, sp.paths[p], i + 1) == Below(sp, sp.paths[p], i);
  }

  /** With every user page unmapped and freed, only bare tables are left. */
  lemma EmptyTree(mem: Memory, free: seq<nat>, mem': Memory, free': seq<nat>, a: Aspace)
    requires ImageOk(mem, free, a) && a.fixed == {} && Usable(mem', free', a.sp)
    requires forall u :: 0 <= u < MAXVPN ==> Lookup(mem', a.sp, u) == if u < |a.user| then 0 else Lookup(mem, a.sp, u)
    requires Pool(free') == Pool(free) + Some(a.user, |a.user|)
    ensures Bare(mem', a.sp, a.sp.root, 2) && UniquePaths(a.sp)
    ensures Subtree(a.sp, a.sp.root) == a.sp.paths.Keys && Pool(a.user) == Some(a.user, |a.user|)
    ensures forall q :: q in a.sp.paths ==> q < |mem'| && q !in free'
  {
    forall u | 0 <= u < MAXVPN
      ensures Lookup(mem', a.sp, u) == 0
    {
      assert EntryOk(a, u, Lookup(mem, a.sp, u));
    }
    TreeUnique(mem', a.sp);
    EmptyIsBare(mem', a.sp, a.sp.root, 2);
    forall q | q in a.sp.paths
      ensures q in Subtree(a.sp, a.sp.root)
    {
      if a.sp.paths[q].Root? {
        assert q == a.sp.root;
      }
    }
    forall q | q in a.user
      ensures q in Some(a.user, |a.user|)
    {
      var k :| 0 <= k < |a.user| && a.user[k] == q;
    }
  }

  lemma NewRoot(mem: Memory, free: seq<nat>, root: nat)
    requires Pages(mem) && FreeOk(mem, free) && root < |mem| && root !in free && mem[root] == Filled(0)
    ensures ImageOk(mem, free, Aspace(Space(root, map[root := Root]), [], {}))
  {
    var sp := Space(root, map[root := Root]);
    assert PageOk(mem, sp, root);
    forall k | 0 <= k < |free|
      ensures free[k] !in sp.paths
    {
      assert free[k] in free;
    }
  }

  lemma AddFixed(mem: Memory, free: seq<nat>, mem': Memory, free': seq<nat>, a: Aspace, a': Aspace, vpn: nat)
    requires ImageOk(mem, free, a) && Usable(mem', free', a'.sp) && |mem'| == |mem| && vpn in {TRAPFRAME, TRAMPOLINE}
    requires a'.user == a.user && a.fixed <= a'.fixed <= a.fixed + {vpn}
    requires forall u :: 0 <= u < MAXVPN ==>
               if u == vpn && vpn in a'.fixed then IsLeaf(Lookup(mem', a'.sp, u))
               else Lookup(mem', a'.sp, u) == Lookup(mem, a.sp, u)
    requires Pool(free') + a'.sp.paths.Keys == Pool(free) + a.sp.paths.Keys
    ensures ImageOk(mem', free', a') && Pool(free') + Owned(a') == Pool(free) + Owned(a)
  {
    forall p | p in free' || p in a'.sp.paths
      ensures p in free || p in a.sp.paths
    {
      assert p in Pool(free') + a'.sp.paths.Keys;
    }
    forall u | 0 <= u < MAXVPN
      ensures EntryOk(a', u, Lookup(mem', a'.sp, u))
    {
      assert EntryOk(a, u, Lookup(mem, a.sp, u));
    }
  }

  lemma TailReleasable(mem: Memory, free: seq<nat>, a: Aspace, n: nat)
    requires ImageOk(mem, free, a) && n <= |a.user|
    ensures Releasable(mem, free, a.sp, a.user[n..], 0)
    ensures forall u :: n <= u < |a.user| ==> IsLeaf(Lookup(mem, a.sp, u))
                                              && Ppn(Lookup(mem, a.sp, u)) == a.user[n..][u - n]
  {
    forall u | n <= u < |a.user|
      ensures IsLeaf(Lookup(mem, a.sp, u)) && Ppn(Lookup(mem, a.sp, u)) == a.user[n..][u - n]
    {
      assert EntryOk(a, u, Lookup(mem, a.sp, u));
    }
  }

  lemma PoolCut(ps: seq<nat>, n: nat)
    requires n <= |ps|
    ensures Pool(ps) == Pool(ps[..n]) + Some(ps[n..], |ps| - n)
  {
    forall p | p in ps
      ensures p in ps[..n] || p in Some(ps[n..], |ps| - n)
    {
      var k :| 0 <= k < |ps| && ps[k] == p;
      if k < n {
        assert ps[..n][k] == p;
      } else {
        assert ps[n..][k - n] == p;
      }
    }
  }

  /** Unmapping and freeing the pages from n on. */
  lemma CutImage(mem: Memory, free: seq<nat>, mem': Memory, free': seq<nat>, a: Aspace, n: nat)
    requires ImageOk(mem, free, a) && n <= |a.user| && Usable(mem', free', a.sp)
    requires forall u :: 0 <= u < MAXVPN ==>
               Lookup(mem', a.sp, u) == if n <= u < |a.user| then 0 else Lookup(mem, a.sp, u)
    requires |mem'| == |mem| && Pool(free') == Pool(free) + Some(a.user[n..], |a.user| - n)
    ensures ImageOk(mem', free', a.(user := a.user[..n]))
    ensures Pool(free') + Owned(a.(user := a.user[..n])) == Pool(free) + Owned(a)
    ensures Some(a.user[n..], |a.user| - n) <= Owned(a)
  {
    var a' := a.(user := a.user[..n]);
    PoolCut(a.user, n);
    forall u | 0 <= u < MAXVPN
      ensures EntryOk(a', u, Lookup(mem', a.sp, u))
    {
      assert EntryOk(a, u, Lookup(mem, a.sp, u));
    }
    forall k | 0 <= k < n
      ensures a'.user[k] !in free'
    {
      assert a'.user[k] == a.user[k];
      assert forall j :: 0 <= j < |a.user| - n ==> a.user[n..][j] == a.user[n + j] != a.user[k];
      assert a.user[k] !in Pool(free');
    }
  }

  lemma NewTableKeeps(mem: Memory, free: seq<nat>, free': seq<nat>, sp: Space, p: nat, i: nat, q: nat)
    requires Usable(mem, free, sp) && free == [q] + free'
    requires p in sp.paths && !sp.paths[p].Low? && i < ENTRIES && mem[p][i] == 0 && (sp.paths[p].Root? ==> i < TOP)
    ensures q < |mem| && q !in sp.paths
    ensures var mem' := SetEntry(mem[q := Filled(0)], p, i, MkPte(q, PTE_V));
            var sp' := Attached(sp, q, Child(sp.paths[p], i));
            && Usable(mem', free', sp') && SameLookups(mem, sp, mem', sp')
            && Pool(free') + sp'.paths.Keys == Pool(free) + sp.paths.Keys
            && Untouched(mem, mem', Pool(free) + sp.paths.Keys)
  {
    var zeroed := mem[q := Filled(0)];
    assert free[0] == q;
    TreeFrame(mem, zeroed, sp);
    Attach(zeroed, sp, p, i, q);
    forall k | 0 <= k < |free'|
      ensures free'[k] == free[k + 1] && free'[k] != q
    {
    }
    PoolSplit(free, q, free');
  }

  lemma PoolSplit(free: seq<nat>, q: nat, rest: seq<nat>)
    requires free == [q] + rest
    ensures Pool(free) == {q} + Pool(rest)
  {
    forall p | p in free
      ensures p == q || p in rest
    {
      var k :| 0 <= k < |free| && free[k] == p;
      assert k > 0 ==> rest[k - 1] == p;
    }
    forall p | p in rest
      ensures p in free
    {
      var k :| 0 <= k < |rest| && rest[k] == p;
      assert free[k + 1] == p;
    }
    assert free[0] == q;
  }

  lemma EntryBelow(mem: Memory, sp: Space, p: nat, level: nat, vpn: nat)
    requires Tree(mem, sp) && vpn < MAXVPN && 0 < level <= 2 && p in sp.paths && sp.paths[p] == PathAt(level, vpn)
    ensures PX(level, vpn) < ENTRIES && (level == 2 ==> PX(level, vpn) < TOP)
    ensures var pte := mem[p][PX(level, vpn)];
            && (pte == 0 <==> !IsValid(pte))
            && (pte == 0 ==> Lookup(mem, sp, vpn) == 0)
            && (pte != 0 ==> Ppn(pte) in sp.paths && sp.paths[Ppn(pte)] == PathAt(level - 1, vpn))
            && Child(sp.paths[p], PX(level, vpn)) == PathAt(level - 1, vpn)
  {
    assert PageOk(mem, sp, p) && PageOk(mem, sp, sp.root);
    var pte := mem[p][PX(level, vpn)];
    assert TableEntry(sp, pte, PathAt(level - 1, vpn));
    PteRoundTrip(Ppn(pte), PTE_V);
    if level == 1 {
      PteRoundTrip(p, PTE_V);
    }
  }
}
