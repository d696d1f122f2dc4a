/** What sbrk, fork and exec do with a process image (kernel/proc.c, kernel/exec.c), on
    every success and failure path. */
module ProcessMemory {
  import opened PageTable
  import opened AddressSpace
  import opened Sequences

  const WRAP := 0x1_0000_0000_0000_0000   // uint64 arithmetic
  const UINT := 0x1_0000_0000

  // Words of the trapframe.
  const EPC := 3
  const SP := 6
  const A0 := 14
  const A1 := 15

  /** The two fixed mappings at the top of an address space. */
  ghost predicate FixedOk(mem: Memory, sp: Space, tramp: nat, tf: nat)
    requires Tree(mem, sp)
  {
    && Lookup(mem, sp, TRAMPOLINE) == MkPte(tramp, WithV(PTE_R + PTE_X))
    && Lookup(mem, sp, TRAPFRAME) == MkPte(tf, WithV(PTE_R + PTE_W))
  }

  // ---------------------------------------------------------------- sbrk

  /** a' is a grown by zeroed pages, mapped with perm; everything else is as it was. */
  ghost predicate Grown(mem: Memory, a: Aspace, mem': Memory, a': Aspace, perm: nat) {
    && |a.user| <= |a'.user| && a'.user[..|a.user|] == a.user && Mapped(mem, a, mem', a', perm)
    && SameContents(mem, mem', a, |a.user|)
    && forall u :: |a.user| <= u < |a'.user| ==> a'.user[u] < |mem'| && mem'[a'.user[u]] == Filled(0)
  }

  /** a' is a cut short; what is left is as it was. */
  ghost predicate Shrunk(mem: Memory, a: Aspace, mem': Memory, a': Aspace) {
    && |a'.user| <= |a.user| && a'.user == a.user[..|a'.user|] && Tree(mem, a.sp) && Tree(mem', a'.sp)
    && SameContents(mem, mem', a, |a'.user|)
    && forall u :: 0 <= u < MAXVPN ==>
         Lookup(mem', a'.sp, u) == if |a'.user| <= u < |a.user| then 0 else Lookup(mem, a.sp, u)
  }

  /** The first n pages of a hold what they held. */
  ghost predicate SameContents(mem: Memory, mem': Memory, a: Aspace, n: nat) {
    n <= |a.user|
    && forall u :: 0 <= u < n ==> a.user[u] < |mem| && a.user[u] < |mem'| && mem'[a.user[u]] == mem[a.user[u]]
  }

  /** What growproc by n makes of an image of sz bytes.  Giving back more than there is
      changes nothing, and so does running out of memory. */
  ghost predicate Resized(mem: Memory, a: Aspace, sz: nat, n: int, mem': Memory, a': Aspace, sz': nat, ret: int) {
    if n >= 0 then
      && Grown(mem, a, mem', a', PTE_R + PTE_U + PTE_W)
      && if ret == 0 then sz' == sz + n else ret == -1 && sz' == sz && a'.user == a.user
    else
      && Shrunk(mem, a, mem', a') && ret == 0 && sz' == if sz + n >= 0 then sz + n else sz
  }

  lemma GrownBy(mem: Memory, free: seq<nat>, a: Aspace, mem': Memory, free': seq<nat>, a': Aspace, n: nat, perm: nat)
    requires ImageOk(mem, free, a) && Extends(mem, free, a, mem', free', a', Zeroed(n))
             && Mapped(mem, a, mem', a', perm)
    ensures Grown(mem, a, mem', a', perm) && Untouched(mem, mem', Pool(free) + Owned(a))
  {
    hide Mapped;
    FreeApart(mem, free, a);
    forall u | 0 <= u < |a.user|
      ensures a.user[u] < |mem| && mem'[a.user[u]] == mem[a.user[u]]
    {
      assert a.user[u] in Pool(a.user) && a.user[u] in Owned(a);
    }
  }

  lemma ShrunkBy(mem: Memory, free: seq<nat>, a: Aspace, mem': Memory, a': Aspace)
    requires ImageOk(mem, free, a) && |a'.user| <= |a.user| && a'.user == a.user[..|a'.user|] && a'.sp == a.sp
             && Tree(mem', a.sp)
    requires forall u :: 0 <= u < MAXVPN ==>
               Lookup(mem', a.sp, u) == if |a'.user| <= u < |a.user| then 0 else Lookup(mem, a.sp, u)
    requires Untouched(mem, mem', a.sp.paths.Keys + Some(a.user[|a'.user|..], |a.user| - |a'.user|))
    ensures Shrunk(mem, a, mem', a') && Untouched(mem, mem', Pool(free) + Owned(a))
  {
    var n := |a'.user|;
    assert forall k :: 0 <= k < |a.user| - n ==> a.user[n..][k] == a.user[n + k];
    FreeApart(mem, free, a);
    forall u | 0 <= u < n
      ensures a.user[u] < |mem| && mem'[a.user[u]] == mem[a.user[u]]
    {
      assert a.user[u] in Pool(a.user);
    }
    assert Some(a.user[n..], |a.user| - n) <= Owned(a);
  }

  /** growproc: p->sz and the image move together, whatever happens, and the pages that
      stay keep their contents and permissions.  It fails only for want of memory. */
  method Growproc(vm: Vm, root: nat, sz: nat, n: int, ghost a: Aspace) returns (ret: int, sz': nat, ghost a': Aspace)
    requires ImageOk(vm.mem, vm.free, a) && root == a.sp.root && PagesFor(sz) == |a.user| && |vm.mem| <= TRAPFRAME
    requires -0x8000_0000 <= n < 0x8000_0000
    modifies vm
    ensures ImageOk(vm.mem, vm.free, a') && a'.sp.root == root && a'.fixed == a.fixed && PagesFor(sz') == |a'.user|
    ensures Pool(vm.free) + Owned(a') == Pool(old(vm.free)) + Owned(a)
    ensures Untouched(old(vm.mem), vm.mem, Pool(old(vm.free)) + Owned(a))
    ensures Resized(old(vm.mem), a, sz, n, vm.mem, a', sz', ret)
    ensures ret == -1 ==> n > 0 && |old(vm.free)| < 3 * (PagesFor(sz + n) - PagesFor(sz))
  {
    hide Tree, EntryOk;
    sz', a' := sz, a;
    GrowSize(sz, n);
    if n > 0 {
      var r;
      r, a' := vm.Uvmalloc(root, sz, (sz + n) % WRAP, PTE_W, a);
      GrownBy(old(vm.mem), old(vm.free), a, vm.mem, vm.free, a', PagesFor(sz + n), PTE_R + PTE_U + PTE_W);
      if r == 0 {
        return -1, sz, a';
      }
      sz' := r;
    } else if n < 0 {
      sz', a' := vm.Uvmdealloc(root, sz, (sz + n) % WRAP, a);
      ShrunkBy(old(vm.mem), old(vm.free), a, vm.mem, a');
    }
    ret := 0;
  }

  /** The size asked for, which wraps when more is given back than there is. */
  lemma GrowSize(sz: nat, n: int)
    requires PagesFor(sz) <= TRAPFRAME && -0x8000_0000 <= n < 0x8000_0000
    ensures n >= 0 ==> (sz + n) % WRAP == sz + n
    ensures n < 0 ==> if sz + n >= 0 then (sz + n) % WRAP == sz + n else (sz + n) % WRAP > sz
  {
    assert sz <= PagesFor(sz) * PGSIZE;
    if sz + n < 0 {
      assert (sz + n) % WRAP == sz + n + WRAP;
    }
  }

  // ---------------------------------------------------------------- fork

  /** The memory side of allocproc: a trapframe page and a page table that maps it, or
      nothing at all when fewer than six pages are free. */
  method Allocproc(vm: Vm, tramp: nat) returns (ok: bool, newTf: nat, newRoot: nat, ghost b: Aspace)
    requires Pages(vm.mem) && FreeOk(vm.mem, vm.free)
    modifies vm
    ensures Pages(vm.mem) && FreeOk(vm.mem, vm.free)
    ensures ok ==> ImageOk(vm.mem, vm.free, b) && b.sp.root == newRoot && b.user == []
                   && b.fixed == {TRAPFRAME, TRAMPOLINE}
                   && newTf < |vm.mem| && newTf !in Owned(b) + Pool(vm.free) && FixedOk(vm.mem, b.sp, tramp, newTf)
    ensures Pool(vm.free) + (if ok then Owned(b) + {newTf} else {}) == Pool(old(vm.free))
    ensures if ok then |old(vm.free)| <= |vm.free| + 6 else |old(vm.free)| < 6
    ensures Untouched(old(vm.mem), vm.mem, Pool(old(vm.free)))
  {
    newRoot := 0;
    b := Aspace(Space(0, map[]), [], {});
    ok, newTf := vm.Kalloc();
    if !ok {
      return;
    }
    PoolSplit(old(vm.free), newTf, vm.free);
    ok, newRoot, b := vm.ProcPagetable(tramp, newTf);
    if !ok {
      ghost var rest := vm.free;
      vm.Kfree(newTf);
      PoolSplit(vm.free, newTf, rest);
    }
  }

  /** The memory side of freeproc: the image and the trapframe page go back to the pool. */
  method Freeproc(vm: Vm, tf: nat, root: nat, sz: nat, ghost b: Aspace)
    requires ImageOk(vm.mem, vm.free, b) && root == b.sp.root && PagesFor(sz) == |b.user|
             && b.fixed == {TRAPFRAME, TRAMPOLINE}
    requires tf < |vm.mem| && tf !in Owned(b) + Pool(vm.free)
    modifies vm
    ensures Pages(vm.mem) && FreeOk(vm.mem, vm.free) && Pool(vm.free) == Pool(old(vm.free)) + Owned(b) + {tf}
    ensures Untouched(old(vm.mem), vm.mem, Owned(b) + {tf})
  {
    PutBack(vm.mem, vm.free, b, tf, 0x0101_0101_0101_0101);
    vm.Kfree(tf);
    vm.ProcFreepagetable(root, sz, b);
  }

  /** *(np->trapframe) = *(p->trapframe); np->trapframe->a0 = 0 */
  method CopyTrapframe(vm: Vm, newTf: nat, trapframe: nat, ghost b: Aspace)
    requires ImageOk(vm.mem, vm.free, b) && newTf < |vm.mem| && trapframe < |vm.mem| && newTf !in Owned(b)
    modifies vm
    ensures vm.free == old(vm.free) && vm.mem == old(vm.mem)[newTf := old(vm.mem)[trapframe][A0 := 0]]
    ensures ImageOk(vm.mem, vm.free, b) && SameLookups(old(vm.mem), b.sp, vm.mem, b.sp)
    ensures SameContents(old(vm.mem), vm.mem, b, |b.user|)
  {
    var page: Page := vm.mem[trapframe];
    vm.mem := vm.mem[newTf := page[A0 := 0]];
    FreeApart(old(vm.mem), vm.free, b);
    Bystander(old(vm.mem), vm.free, vm.mem, vm.free, b, {newTf});
  }

  /** The child's image: a copy of the parent's, page by page, under its own fixed pages. */
  ghost predicate Copied(mem: Memory, a: Aspace, mem': Memory, b: Aspace, tramp: nat, tf: nat) {
    && Tree(mem, a.sp) && Tree(mem', b.sp) && |b.user| == |a.user| <= TRAPFRAME
    && (forall u :: 0 <= u < |a.user| ==> SamePage(mem, a, mem', b, u)) && FixedOk(mem', b.sp, tramp, tf)
  }

  /** The memory side of fork: trapframe page, page table, copy of the image.  If any of
      the three runs out of memory, every page taken goes back; and only pages that were
      free are ever written.  It does not run out if six pages are free and three more for
      each page of the image. */
  method Fork(vm: Vm, root: nat, sz: nat, trapframe: nat, tramp: nat, ghost a: Aspace)
    returns (ok: bool, newTf: nat, newRoot: nat, ghost b: Aspace)
    requires ImageOk(vm.mem, vm.free, a) && root == a.sp.root && PagesFor(sz) == |a.user|
    requires trapframe < |vm.mem| && trapframe !in Owned(a) && trapframe !in vm.free && |vm.mem| <= TRAPFRAME
    modifies vm
    ensures Pages(vm.mem) && FreeOk(vm.mem, vm.free) && Untouched(old(vm.mem), vm.mem, Pool(old(vm.free)))
    ensures ImageOk(vm.mem, vm.free, a) && SameLookups(old(vm.mem), a.sp, vm.mem, a.sp)
    ensures SameContents(old(vm.mem), vm.mem, a, |a.user|)
    ensures ok ==> ImageOk(vm.mem, vm.free, b) && b.sp.root == newRoot && b.fixed == {TRAPFRAME, TRAMPOLINE}
                   && Copied(old(vm.mem), a, vm.mem, b, tramp, newTf)
    ensures ok ==> newTf < |vm.mem| && newTf !in Owned(b) + Pool(vm.free)
                   && vm.mem[newTf] == old(vm.mem)[trapframe][A0 := 0]
    ensures Pool(vm.free) + (if ok then Owned(b) + {newTf} else {}) == Pool(old(vm.free))
    ensures !ok ==> |old(vm.free)| < 6 + 3 * |a.user|
  {
    hide Tree, EntryOk;
    TreePages(vm.mem, a.sp);
    FreeApart(vm.mem, vm.free, a);
    ok, newTf, newRoot, b := Allocproc(vm, tramp);
    Bystander(old(vm.mem), old(vm.free), vm.mem, vm.free, a, Pool(old(vm.free)));
    if !ok {
      return;
    }
    ok, b := CopyImage(vm, root, newRoot, sz, newTf, trapframe, tramp, old(vm.mem), Pool(old(vm.free)), a, b);
    Bystander(old(vm.mem), old(vm.free), vm.mem, vm.free, a, Pool(old(vm.free)));
  }

  /** fork after allocproc: uvmcopy, then the trapframe, or freeproc. */
  method CopyImage(vm: Vm, root: nat, newRoot: nat, sz: nat, newTf: nat, trapframe: nat, tramp: nat,
                   ghost mem0: Memory, ghost pool: set<nat>, ghost a: Aspace, ghost b: Aspace)
    returns (ok: bool, ghost b': Aspace)
    requires ImageOk(vm.mem, vm.free, a) && root == a.sp.root && PagesFor(sz) == |a.user| && Owned(a) !! pool
    requires ImageOk(vm.mem, vm.free, b) && b.sp.root == newRoot && b.user == [] && b.fixed == {TRAPFRAME, TRAMPOLINE}
    requires FixedOk(vm.mem, b.sp, tramp, newTf) && newTf < |vm.mem| && newTf !in Owned(b) + Pool(vm.free)
    requires trapframe < |vm.mem| <= TRAPFRAME && trapframe !in pool
    requires Pool(vm.free) + Owned(b) + {newTf} == pool
    requires Untouched(mem0, vm.mem, pool) && Tree(mem0, a.sp) && SameLookups(mem0, a.sp, vm.mem, a.sp)
    modifies vm
    ensures Pages(vm.mem) && FreeOk(vm.mem, vm.free) && Untouched(mem0, vm.mem, pool)
    ensures ok ==> ImageOk(vm.mem, vm.free, b') && b'.sp.root == newRoot && b'.fixed == {TRAPFRAME, TRAMPOLINE}
                   && Copied(mem0, a, vm.mem, b', tramp, newTf)
    ensures ok ==> newTf < |vm.mem| && newTf !in Owned(b') + Pool(vm.free) && vm.mem[newTf] == mem0[trapframe][A0 := 0]
    ensures Pool(vm.free) + (if ok then Owned(b') + {newTf} else {}) == pool
    ensures !ok ==> |old(vm.free)| < 3 * |a.user|
  {
    hide EntryOk, Owned, Pool, Lookup, SamePage;
    ok, b' := vm.Uvmcopy(root, newRoot, sz, a, b);
    ghost var mem1 := vm.mem;
    assert newTf !in Pool(vm.free) + Owned(b') && Untouched(mem0, mem1, pool) && Pool(vm.free) + Owned(b') <= pool by {
      WithinPool(mem0, old(vm.mem), old(vm.free), mem1, vm.free, a, b, b', pool, newTf);
    }
    if ok {
      CopyTrapframe(vm, newTf, trapframe, b');
      CopyDone(mem0, old(vm.mem), mem1, vm.mem, vm.free, a, b, b', pool, tramp, newTf);
    } else {
      Freeproc(vm, newTf, newRoot, 0, b');
    }
  }

  lemma TreePages(mem: Memory, sp: Space)
    requires Tree(mem, sp)
    ensures Pages(mem)
  {
  }

  lemma WithinPool(mem0: Memory, mem1: Memory, free1: seq<nat>, mem2: Memory, free2: seq<nat>, a: Aspace, b: Aspace,
                   b': Aspace, pool: set<nat>, newTf: nat)
    requires ImageOk(mem1, free1, a)
    requires Untouched(mem0, mem1, pool) && Pool(free1) + Owned(b) + {newTf} == pool && newTf !in Owned(b) + Pool(free1)
    requires Extends(mem1, free1, b, mem2, free2, b', CopyOf(mem1, a))
    ensures newTf !in Pool(free2) + Owned(b') && Untouched(mem0, mem2, pool)
            && Pool(free2) + Owned(b') + {newTf} == pool
  {
    hide ImageOk;
  }

  lemma CopyDone(mem0: Memory, mem1: Memory, mem2: Memory, mem3: Memory, free: seq<nat>, a: Aspace, b: Aspace,
                 b': Aspace, pool: set<nat>, tramp: nat, newTf: nat)
    requires Tree(mem0, a.sp) && Tree(mem1, a.sp) && SameLookups(mem0, a.sp, mem1, a.sp)
    requires Untouched(mem0, mem1, pool) && Owned(a) !! pool
    requires Tree(mem1, b.sp) && FixedOk(mem1, b.sp, tramp, newTf)
    requires Tree(mem2, b'.sp) && |b'.user| == |a.user| <= TRAPFRAME && forall u :: 0 <= u < |a.user| ==>
               SamePage(mem1, a, mem2, b', u)
    requires forall u :: |b'.user| <= u < MAXVPN ==> Lookup(mem2, b'.sp, u) == Lookup(mem1, b.sp, u)
    requires Tree(mem3, b'.sp) && SameLookups(mem2, b'.sp, mem3, b'.sp) && SameContents(mem2, mem3, b', |b'.user|)
    ensures Copied(mem0, a, mem3, b', tramp, newTf)
  {
    hide Tree;
    forall u | 0 <= u < |a.user|
      ensures SamePage(mem0, a, mem3, b', u)
    {
      assert SamePage(mem1, a, mem2, b', u) && a.user[u] in Pool(a.user) && a.user[u] in Owned(a);
    }
  }

  // ---------------------------------------------------------------- the first process

  /** The image of the first process: one page of code that the user may also write. */
  ghost predicate IsFirst(mem: Memory, b: Aspace, initcode: Page, tf: nat) {
    && Tree(mem, b.sp) && |b.user| == 1 && b.user[0] < |mem| && mem[b.user[0]] == initcode
    && Lookup(mem, b.sp, 0) == MkPte(b.user[0], WithV(PTE_W + PTE_R + PTE_X + PTE_U))
    && tf < |mem| && SP < |mem[tf]| && mem[tf][EPC] == 0 && mem[tf][SP] == PGSIZE
  }

  /** The memory side of userinit.  It does not look whether memory runs out; nine free
      pages are enough. */
  method Userinit(vm: Vm, tramp: nat, initcode: Page) returns (tf: nat, root: nat, ghost b: Aspace)
    requires Pages(vm.mem) && FreeOk(vm.mem, vm.free) && |vm.mem| <= TRAPFRAME && |vm.free| >= 9
    requires |initcode| == ENTRIES
    modifies vm
    ensures ImageOk(vm.mem, vm.free, b) && b.sp.root == root && b.fixed == {TRAPFRAME, TRAMPOLINE}
            && FixedOk(vm.mem, b.sp, tramp, tf) && tf < |vm.mem| && tf !in Owned(b) + Pool(vm.free)
    ensures IsFirst(vm.mem, b, initcode, tf)
    ensures Pool(vm.free) + Owned(b) + {tf} == Pool(old(vm.free))
    ensures Untouched(old(vm.mem), vm.mem, Pool(old(vm.free)))
  {
    hide ImageOk, FixedOk, Owned, Pool, Extends, Mapped, IsFirst, Untouched;
    var ok;
    ok, tf, root, b := Allocproc(vm, tramp);
    ghost var mem1, free1, b1 := vm.mem, vm.free, b;
    FirstPerm();
    ok, b := vm.GrowOne(root, 0, PTE_W + PTE_R + PTE_X + PTE_U, initcode, b, [initcode]);
    ghost var mem2 := vm.mem;
    FirstMapped(old(vm.mem), Pool(old(vm.free)), mem1, free1, b1, mem2, vm.free, b, tramp, tf, initcode);
    var page: Page := vm.mem[tf];
    page := page[EPC := 0];
    page := page[SP := PGSIZE];
    vm.mem := vm.mem[tf := page];
    FirstStarts(old(vm.mem), Pool(old(vm.free)), mem2, vm.mem, vm.free, b, tramp, tf, initcode);
  }

  /** What uvmfirst leaves. */
  lemma FirstMapped(mem0: Memory, pool: set<nat>, mem1: Memory, free1: seq<nat>, b1: Aspace, mem2: Memory,
                    free2: seq<nat>, b2: Aspace, tramp: nat, tf: nat, initcode: Page)
    requires ImageOk(mem1, free1, b1) && b1.user == [] && tf < |mem1| && tf !in Owned(b1) + Pool(free1)
    requires FixedOk(mem1, b1.sp, tramp, tf) && Pool(free1) + (Owned(b1) + {tf}) == pool && Untouched(mem0, mem1, pool)
    requires ImageOk(mem2, free2, b2) && |b2.user| == 1 && Extends(mem1, free1, b1, mem2, free2, b2, [initcode])
    requires Mapped(mem1, b1, mem2, b2, PTE_W + PTE_R + PTE_X + PTE_U)
    ensures FixedOk(mem2, b2.sp, tramp, tf) && tf < |mem2| && |mem2[tf]| == ENTRIES && tf !in Owned(b2) + Pool(free2)
    ensures Pool(free2) + Owned(b2) + {tf} == pool && Untouched(mem0, mem2, pool)
    ensures b2.user[0] < |mem2| && mem2[b2.user[0]] == initcode
    ensures Lookup(mem2, b2.sp, 0) == MkPte(b2.user[0], WithV(PTE_W + PTE_R + PTE_X + PTE_U))
  {
    hide EntryOk, Lookup, NoDup;
    TreePages(mem2, b2.sp);
  }

  /** The trapframe's words do not matter to the image. */
  lemma FirstStarts(mem0: Memory, pool: set<nat>, mem2: Memory, mem3: Memory, free: seq<nat>, b: Aspace, tramp: nat,
                    tf: nat, initcode: Page)
    requires ImageOk(mem2, free, b) && FixedOk(mem2, b.sp, tramp, tf) && tf < |mem2| && tf !in Owned(b) + Pool(free)
    requires Pool(free) + Owned(b) + {tf} == pool && Untouched(mem0, mem2, pool) && |b.user| == 1
    requires b.user[0] < |mem2| && mem2[b.user[0]] == initcode
    requires Lookup(mem2, b.sp, 0) == MkPte(b.user[0], WithV(PTE_W + PTE_R + PTE_X + PTE_U))
    requires |mem2[tf]| == ENTRIES && mem3 == mem2[tf := mem2[tf][EPC := 0][SP := PGSIZE]]
    ensures ImageOk(mem3, free, b) && FixedOk(mem3, b.sp, tramp, tf) && Untouched(mem0, mem3, pool)
    ensures IsFirst(mem3, b, initcode, tf)
  {
    hide Tree, EntryOk, Lookup, NoDup;
    FreeApart(mem2, free, b);
    TreePages(mem2, b.sp);
    Bystander(mem2, free, mem3, free, b, {tf});
    assert b.user[0] in Pool(b.user);
  }

  lemma FirstPerm()
    ensures var f := WithV(PTE_W + PTE_R + PTE_X + PTE_U); f < 1024 && IsLeaf(f)
  {
  }

  // ---------------------------------------------------------------- exec

  /** A program header of type LOAD, what each page holds once readi has filled it, and
      how many of its pages can be read. */
  datatype Segment = Segment(vaddr: nat, memsz: nat, filesz: nat, xperm: nat, pages: seq<Page>, readable: nat)

  ghost predicate SegmentOk(g: Segment) {
    && g.vaddr < WRAP && g.memsz < WRAP && g.xperm in {0, PTE_W, PTE_X, PTE_W + PTE_X}
    && |g.pages| == PagesFor(g.filesz % UINT) && forall k :: 0 <= k < |g.pages| ==> |g.pages[k]| == ENTRIES
  }

  /** exec's own checks, and readi's success. */
  predicate Loadable(g: Segment) {
    g.filesz <= g.memsz && g.vaddr + g.memsz < WRAP && g.vaddr % PGSIZE == 0 && |g.pages| <= g.readable
  }

  /** The size of the image once the first n segments are in. */
  function EndOf(segs: seq<Segment>, n: nat): (sz: nat)
    requires n <= |segs|
    ensures forall k :: 0 <= k < n ==> segs[k].vaddr + segs[k].memsz <= sz
  {
    if n == 0 then 0
    else
      var sz, end := EndOf(segs, n - 1), segs[n - 1].vaddr + segs[n - 1].memsz;
      if end < sz then sz else end
  }

  function Covers(g: Segment, u: nat): bool {
    g.vaddr / PGSIZE <= u < g.vaddr / PGSIZE + |g.pages|
  }

  /** Page u after n segments: the last one that covers it wins. */
  function PageAt(segs: seq<Segment>, n: nat, u: nat): Page
    requires n <= |segs|
  {
    if n == 0 then Filled(0)
    else if Covers(segs[n - 1], u) then segs[n - 1].pages[u - segs[n - 1].vaddr / PGSIZE]
    else PageAt(segs, n - 1, u)
  }

  /** Its permissions: the segment that first reached as far as u decides. */
  function PermAt(segs: seq<Segment>, n: nat, u: nat): nat
    requires n <= |segs|
  {
    if n == 0 then 0
    else if u < PagesFor(EndOf(segs, n - 1)) then PermAt(segs, n - 1, u)
    else segs[n - 1].xperm
  }

  /** Page u of b is as the first n segments make it. */
  ghost predicate LoadedPage(mem: Memory, b: Aspace, segs: seq<Segment>, n: nat, u: nat)
    requires Tree(mem, b.sp) && n <= |segs| && u < |b.user| <= MAXVPN
  {
    && b.user[u] < |mem| && mem[b.user[u]] == PageAt(segs, n, u)
    && Lookup(mem, b.sp, u) == MkPte(b.user[u], WithV(PTE_R + PTE_U + PermAt(segs, n, u)))
  }

  ghost predicate Loaded(mem: Memory, b: Aspace, segs: seq<Segment>, n: nat, m: nat) {
    && Tree(mem, b.sp) && n <= |segs| && m <= |b.user| <= MAXVPN
    && forall u {:trigger LoadedPage(mem, b, segs, n, u)} :: 0 <= u < m ==> LoadedPage(mem, b, segs, n, u)
  }

  /** Where exec started: the memory then, the pages that were free, and the pages behind
      the two fixed mappings. */
  datatype Site = Site(mem: Memory, pool: set<nat>, tramp: nat, tf: nat)

  /** exec part-way: image b of sz bytes is being built out of the pages that were free,
      and nothing else has changed. */
  ghost predicate Building(mem: Memory, free: seq<nat>, b: Aspace, root: nat, sz: nat, x: Site) {
    && ImageOk(mem, free, b) && |mem| <= TRAPFRAME
    && b.sp.root == root && b.fixed == {TRAPFRAME, TRAMPOLINE} && PagesFor(sz) == |b.user|
    && Pool(free) + Owned(b) == x.pool && Untouched(x.mem, mem, x.pool) && FixedOk(mem, b.sp, x.tramp, x.tf)
  }

  /** Growing from sz to sz' bytes takes at most three pages for each new one. */
  predicate Took(before: nat, after: nat, sz: nat, sz': nat) {
    sz <= sz' && before <= after + 3 * (PagesFor(sz') - PagesFor(sz))
  }

  /** There may be too few pages for that. */
  predicate TooFew(free: nat, sz: nat, sz': nat) {
    sz <= sz' && free < 3 * (PagesFor(sz') - PagesFor(sz))
  }

  /** uvmalloc on the image under construction.  A size of 0 reads as a failure. */
  method Extend(vm: Vm, root: nat, sz: nat, newsz: nat, xperm: nat, ghost b: Aspace, ghost x: Site)
    returns (r: nat, ghost b': Aspace)
    requires Building(vm.mem, vm.free, b, root, sz, x) && xperm in {0, PTE_W, PTE_X, PTE_W + PTE_X}
    modifies vm
    ensures Building(vm.mem, vm.free, b', root, if r == 0 then sz else r, x)
    ensures r != 0 ==> r == (if newsz < sz then sz else newsz) && Took(|old(vm.free)|, |vm.free|, sz, r)
    ensures r == 0 ==> sz == newsz == 0 || TooFew(|old(vm.free)|, sz, newsz)
    ensures Grown(old(vm.mem), b, vm.mem, b', PTE_R + PTE_U + xperm) && |b'.user| <= TRAPFRAME
  {
    hide Tree, EntryOk;
    r, b' := vm.Uvmalloc(root, sz, newsz, xperm, b);
    if newsz >= sz {
      GrownBy(old(vm.mem), old(vm.free), b, vm.mem, vm.free, b', PagesFor(newsz), PTE_R + PTE_U + xperm);
    } else {
      Itself(vm.mem, vm.free, b);
    }
  }

  lemma Itself(mem: Memory, free: seq<nat>, b: Aspace)
    requires ImageOk(mem, free, b)
    ensures SameContents(mem, mem, b, |b.user|)
  {
  }

  /** loadseg: every page it fills is mapped for the user, so its panic is unreachable. */
  method Loadseg(vm: Vm, root: nat, sz: nat, g: Segment, ghost b: Aspace, ghost x: Site) returns (ok: bool)
    requires Building(vm.mem, vm.free, b, root, sz, x) && SegmentOk(g)
    requires g.vaddr % PGSIZE == 0 && g.vaddr + g.filesz % UINT <= sz
    requires forall u :: 0 <= u < |b.user| ==> IsUser(Lookup(vm.mem, b.sp, u))
    modifies vm
    ensures Building(vm.mem, vm.free, b, root, sz, x) && SameLookups(old(vm.mem), b.sp, vm.mem, b.sp)
    ensures (ok <==> |g.pages| <= g.readable) && vm.free == old(vm.free)
    ensures ok ==> FilledTo(old(vm.mem), vm.mem, b, g, |g.pages|)
  {
    hide EntryOk, Tree, Releasable, Owned, Pool, Untouched, FilledTo;
    var first := g.vaddr / PGSIZE;
    SegmentInside(g.vaddr, g.filesz % UINT, sz);
    FillNone(vm.mem, vm.free, b, g);
    var i := 0;
    while i < |g.pages|
      invariant i <= |g.pages| && i <= g.readable && Building(vm.mem, vm.free, b, root, sz, x)
      invariant vm.free == old(vm.free)
      invariant SameLookups(old(vm.mem), b.sp, vm.mem, b.sp)
      invariant FilledTo(old(vm.mem), vm.mem, b, g, i)
    {
      if i >= g.readable {
        return false;
      }
      ghost var mem1 := vm.mem;
      LoadPage(vm, root, sz, first + i, g.pages[i], b, x);
      FillStep(old(vm.mem), mem1, vm.mem, b, g, i);
      i := i + 1;
    }
    return true;
  }

  /** The first i pages of g are in; the other pages of b are as they were. */
  ghost predicate FilledTo(mem0: Memory, mem: Memory, b: Aspace, g: Segment, i: nat) {
    && i <= |g.pages| && |mem| == |mem0|
    && forall u :: 0 <= u < |b.user| ==>
         && b.user[u] < |mem|
         && var k := u - g.vaddr / PGSIZE; mem[b.user[u]] == if 0 <= k < i then g.pages[k] else mem0[b.user[u]]
  }

  lemma FillNone(mem: Memory, free: seq<nat>, b: Aspace, g: Segment)
    requires ImageOk(mem, free, b)
    ensures FilledTo(mem, mem, b, g, 0)
  {
  }

  lemma FillStep(mem0: Memory, mem1: Memory, mem2: Memory, b: Aspace, g: Segment, i: nat)
    requires FilledTo(mem0, mem1, b, g, i) && i < |g.pages| && |mem2| == |mem1| && g.vaddr / PGSIZE + i < |b.user|
    requires var u := g.vaddr / PGSIZE + i;
             mem2[b.user[u]] == g.pages[i]
             && forall w :: 0 <= w < |b.user| && w != u ==> mem2[b.user[w]] == mem1[b.user[w]]
    ensures FilledTo(mem0, mem2, b, g, i + 1)
  {
  }

  /** walkaddr, then readi into that page. */
  method LoadPage(vm: Vm, root: nat, sz: nat, u: nat, page: Page, ghost b: Aspace, ghost x: Site)
    requires Building(vm.mem, vm.free, b, root, sz, x) && u < |b.user| && |page| == ENTRIES
    requires IsUser(Lookup(vm.mem, b.sp, u))
    modifies vm
    ensures Building(vm.mem, vm.free, b, root, sz, x) && SameLookups(old(vm.mem), b.sp, vm.mem, b.sp)
    ensures vm.free == old(vm.free)
    ensures |vm.mem| == |old(vm.mem)| && vm.mem[b.user[u]] == page && forall w :: 0 <= w < |b.user| && w != u ==>
              vm.mem[b.user[w]] == old(vm.mem)[b.user[w]]
  {
    assert EntryOk(b, u, Lookup(vm.mem, b.sp, u));
    var found, pa := vm.Walkaddr(root, u, b.sp);
    FillPage(vm.mem, vm.free, b, root, sz, x, u, page);
    vm.mem := vm.mem[pa := page];
  }

  lemma SegmentInside(vaddr: nat, filesz: nat, sz: nat)
    requires vaddr % PGSIZE == 0 && vaddr + filesz <= sz
    ensures vaddr / PGSIZE + PagesFor(filesz) <= PagesFor(sz)
  {
    assert vaddr == vaddr / PGSIZE * PGSIZE;
    assert PagesFor(vaddr + filesz) == vaddr / PGSIZE + PagesFor(filesz);
  }

  /** Writing into a user page of b leaves its tables alone. */
  lemma FillPage(mem: Memory, free: seq<nat>, b: Aspace, root: nat, sz: nat, x: Site, u: nat, page: Page)
    requires Building(mem, free, b, root, sz, x) && u < |b.user| && |page| == ENTRIES
    ensures b.user[u] < |mem| && Building(mem[b.user[u] := page], free, b, root, sz, x)
    ensures SameLookups(mem, b.sp, mem[b.user[u] := page], b.sp)
  {
    var mem' := mem[b.user[u] := page];
    assert b.user[u] in Pool(b.user);
    TreeFrame(mem, mem', b.sp);
    forall w | 0 <= w < MAXVPN
      ensures EntryOk(b, w, Lookup(mem', b.sp, w))
    {
      assert EntryOk(b, w, Lookup(mem, b.sp, w));
    }
  }

  /** Nothing is loaded beyond the end of the segments. */
  lemma {:induction false} BeyondEnd(segs: seq<Segment>, n: nat, u: nat)
    requires n <= |segs| && forall k :: 0 <= k < n ==> SegmentOk(segs[k]) && Loadable(segs[k])
    requires PagesFor(EndOf(segs, n)) <= u
    ensures PageAt(segs, n, u) == Filled(0)
  {
    if n > 0 {
      var g := segs[n - 1];
      SegmentInside(g.vaddr, g.filesz % UINT, EndOf(segs, n));
      BeyondEnd(segs, n - 1, u);
    }
  }

  lemma {:induction false} PermIs(segs: seq<Segment>, n: nat, u: nat)
    requires n <= |segs| && forall k :: 0 <= k < n ==> SegmentOk(segs[k])
    ensures PermAt(segs, n, u) in {0, PTE_W, PTE_X, PTE_W + PTE_X}
  {
    if n > 0 {
      PermIs(segs, n - 1, u);
    }
  }

  lemma UserBit(ppn: nat, xperm: nat)
    requires xperm in {0, PTE_W, PTE_X, PTE_W + PTE_X}
    ensures IsUser(MkPte(ppn, WithV(PTE_R + PTE_U + xperm)))
  {
    var f := WithV(PTE_R + PTE_U + xperm);
    assert (ppn * 1024 + f) / 16 == ppn * 64 + f / 16;
  }

  lemma AllUser(mem: Memory, b: Aspace, segs: seq<Segment>, n: nat, mem': Memory, b': Aspace, xperm: nat)
    requires Loaded(mem, b, segs, n, |b.user|) && Grown(mem, b, mem', b', PTE_R + PTE_U + xperm) && |b'.user| <= MAXVPN
    requires (forall k :: 0 <= k < n ==> SegmentOk(segs[k])) && xperm in {0, PTE_W, PTE_X, PTE_W + PTE_X}
    ensures forall u :: 0 <= u < |b'.user| ==> IsUser(Lookup(mem', b'.sp, u))
  {
    hide Tree, IsUser;
    forall u | 0 <= u < |b'.user|
      ensures IsUser(Lookup(mem', b'.sp, u))
    {
      if u < |b.user| {
        assert LoadedPage(mem, b, segs, n, u);
        PermIs(segs, n, u);
        UserBit(b.user[u], PermAt(segs, n, u));
      } else {
        UserBit(b'.user[u], xperm);
      }
    }
  }

  lemma PageInOneMore(mem0: Memory, b: Aspace, mem1: Memory, mem2: Memory, b': Aspace, segs: seq<Segment>, n: nat,
                      u: nat)
    requires n < |segs| && u < |b'.user| <= MAXVPN && PagesFor(EndOf(segs, n)) == |b.user|
    requires Grown(mem0, b, mem1, b', PTE_R + PTE_U + segs[n].xperm) && Tree(mem2, b'.sp)
    requires FilledTo(mem1, mem2, b', segs[n], |segs[n].pages|) && Lookup(mem2, b'.sp, u) == Lookup(mem1, b'.sp, u)
    requires if u < |b.user| then LoadedPage(mem0, b, segs, n, u) else PageAt(segs, n, u) == Filled(0)
    ensures LoadedPage(mem2, b', segs, n + 1, u)
  {
    hide Tree, PagesFor, EndOf, Lookup;
    assert u < |b.user| ==> b'.user[u] == b'.user[..|b.user|][u];
    assert PermAt(segs, n + 1, u) == if u < |b.user| then PermAt(segs, n, u) else segs[n].xperm;
    hide PermAt;
    assert mem1[b'.user[u]] == PageAt(segs, n, u);
    assert PageAt(segs, n + 1, u) == if Covers(segs[n], u) then segs[n].pages[u - segs[n].vaddr / PGSIZE]
                                     else PageAt(segs, n, u);
  }

  /** uvmalloc and loadseg together bring in one more segment. */
  lemma OneMoreSegment(mem0: Memory, b: Aspace, mem1: Memory, mem2: Memory, b': Aspace, segs: seq<Segment>, n: nat)
    requires n < |segs| && forall k {:trigger segs[k]} :: 0 <= k < n ==> SegmentOk(segs[k]) && Loadable(segs[k])
    requires Loaded(mem0, b, segs, n, |b.user|) && PagesFor(EndOf(segs, n)) == |b.user| && |b'.user| <= MAXVPN
    requires Grown(mem0, b, mem1, b', PTE_R + PTE_U + segs[n].xperm) && Tree(mem2, b'.sp)
    requires FilledTo(mem1, mem2, b', segs[n], |segs[n].pages|) && SameLookups(mem1, b'.sp, mem2, b'.sp)
    ensures Loaded(mem2, b', segs, n + 1, |b'.user|)
  {
    hide Tree, SegmentOk, Loadable, PagesFor, EndOf, LoadedPage, PageAt, FilledTo, PermAt;
    var m := n + 1;
    forall u | 0 <= u < |b'.user|
      ensures LoadedPage(mem2, b', segs, m, u)
    {
      if u < |b.user| {
        assert LoadedPage(mem0, b, segs, n, u);
      } else {
        BeyondEnd(segs, n, u);
      }
      PageInOneMore(mem0, b, mem1, mem2, b', segs, n, u);
    }
  }

  /** One round of the loop over program headers: the checks, uvmalloc, loadseg. */
  method LoadOne(vm: Vm, root: nat, sz: nat, segs: seq<Segment>, n: nat, ghost b: Aspace, ghost x: Site)
    returns (ok: bool, sz': nat, ghost b': Aspace)
    requires Building(vm.mem, vm.free, b, root, sz, x) && n < |segs| && sz == EndOf(segs, n)
    requires (forall k :: 0 <= k < n ==> Loadable(segs[k])) && forall k :: 0 <= k < |segs| ==> SegmentOk(segs[k])
    requires Loaded(vm.mem, b, segs, n, |b.user|)
    modifies vm
    ensures Building(vm.mem, vm.free, b', root, sz', x)
    ensures ok ==> Loadable(segs[n]) && sz' == EndOf(segs, n + 1) && Loaded(vm.mem, b', segs, n + 1, |b'.user|)
    ensures ok ==> sz' > 0 && Took(|old(vm.free)|, |vm.free|, sz, sz')
    ensures !ok ==> !Loadable(segs[n]) || EndOf(segs, n + 1) == 0 || TooFew(|old(vm.free)|, sz, EndOf(segs, n + 1))
  {
    hide Tree, EntryOk, Releasable, Owned, Pool, Untouched, Loaded, Grown, FilledTo, SameLookups, FixedOk, PagesFor;
    var g := segs[n];
    sz', b' := sz, b;
    if g.memsz < g.filesz || (g.vaddr + g.memsz) % WRAP < g.vaddr || g.vaddr % PGSIZE != 0 {
      return false, sz', b';
    }
    NoWrap(g.vaddr, g.memsz);
    var sz1;
    sz1, b' := Extend(vm, root, sz, (g.vaddr + g.memsz) % WRAP, g.xperm, b, x);
    if sz1 == 0 {
      return false, sz', b';
    }
    sz' := sz1;
    ghost var mem1 := vm.mem;
    AllUser(old(vm.mem), b, segs, n, mem1, b', g.xperm);
    ok := Loadseg(vm, root, sz', g, b', x);
    if ok {
      OneMoreSegment(old(vm.mem), b, mem1, vm.mem, b', segs, n);
    }
  }

  lemma NoWrap(x: nat, y: nat)
    requires x < WRAP && y < WRAP && (x + y) % WRAP >= x
    ensures (x + y) % WRAP == x + y < WRAP
  {
  }

  lemma NothingLoaded(mem: Memory, free: seq<nat>, b: Aspace, root: nat, segs: seq<Segment>, x: Site)
    requires Building(mem, free, b, root, 0, x)
    ensures EndOf(segs, 0) == 0 && Loaded(mem, b, segs, 0, |b.user|)
  {
  }

  /** exec accepts these headers: each is loadable, and the first is not empty, as uvmalloc
      to size 0 reads as a failure. */
  predicate Accepted(segs: seq<Segment>) {
    (forall i :: 0 <= i < |segs| ==> Loadable(segs[i])) && (segs != [] ==> EndOf(segs, 1) > 0)
  }

  lemma {:induction false} EndGrows(segs: seq<Segment>, n: nat, m: nat)
    requires n <= m <= |segs|
    ensures EndOf(segs, n) <= EndOf(segs, m) && PagesFor(EndOf(segs, n)) <= PagesFor(EndOf(segs, m))
  {
    if n < m {
      EndGrows(segs, n, m - 1);
    }
  }

  /** The loop over program headers.  Given three free pages for each page of the segments,
      it succeeds exactly on the headers that exec accepts. */
  method LoadSegments(vm: Vm, root: nat, segs: seq<Segment>, ghost b: Aspace, ghost x: Site)
    returns (ok: bool, sz: nat, ghost b': Aspace)
    requires Building(vm.mem, vm.free, b, root, 0, x) && forall i :: 0 <= i < |segs| ==> SegmentOk(segs[i])
    modifies vm
    ensures Building(vm.mem, vm.free, b', root, sz, x)
    ensures ok ==> (forall i :: 0 <= i < |segs| ==> Loadable(segs[i])) && sz == EndOf(segs, |segs|)
                   && Loaded(vm.mem, b', segs, |segs|, |b'.user|)
    ensures ok ==> Accepted(segs) && Took(|old(vm.free)|, |vm.free|, 0, sz)
    ensures !ok ==> !Accepted(segs) || TooFew(|old(vm.free)|, 0, EndOf(segs, |segs|))
  {
    hide Building, EndOf, SegmentOk, Loadable, Loaded, PagesFor;
    NothingLoaded(vm.mem, vm.free, b, root, segs, x);
    sz, b' := 0, b;
    var i := 0;
    while i < |segs|
      invariant i <= |segs| && Building(vm.mem, vm.free, b', root, sz, x)
      invariant (forall k :: 0 <= k < i ==> Loadable(segs[k])) && sz == EndOf(segs, i)
      invariant Loaded(vm.mem, b', segs, i, |b'.user|)
      invariant Took(|old(vm.free)|, |vm.free|, 0, sz) && (i > 0 ==> EndOf(segs, 1) > 0)
    {
      ghost var free1 := |vm.free|;
      ok, sz, b' := LoadOne(vm, root, sz, segs, i, b', x);
      EndGrows(segs, i + 1, |segs|);
      EndGrows(segs, i, i + 1);
      EndGrows(segs, 1, i + 1);
      if !ok {
        return;
      }
      i := i + 1;
    }
    ok := true;
  }

  /** pte & ~PTE_U */
  function WithoutU(pte: nat): nat {
    if IsUser(pte) then pte - PTE_U else pte
  }

  lemma LeafLow(q: nat, r: nat)
    requires r < 32
    ensures IsLeaf(q * 32 + r) == IsLeaf(r)
  {
    var pte := q * 32 + r;
    assert pte % 2 == r % 2;
    assert pte / 2 % 8 == r / 2 % 8 by {
      Halved(q, r);
      Mod8(2 * q, r / 2);
    }
  }

  lemma Halved(q: nat, r: nat)
    ensures (q * 32 + r) / 2 == 8 * (2 * q) + r / 2
  {
  }

  lemma Mod8(k: nat, x: nat)
    ensures (8 * k + x) % 8 == x % 8
  {
  }

  lemma UserLow(q: nat, r: nat)
    requires r < 32
    ensures IsUser(q * 32 + r) == (r >= 16)
  {
    assert (q * 32 + r) / 16 == q * 2 + r / 16;
  }

  lemma PpnHigh(q: nat, r: nat)
    requires r < 32
    ensures Ppn(q * 32 + r) == q / 32
  {
  }

  /** The five lowest bits decide validity, permissions and user access. */
  lemma LowBits(q: nat, r: nat)
    requires r < 32
    ensures IsLeaf(q * 32 + r) == IsLeaf(r) && IsUser(q * 32 + r) == (r >= 16) && Ppn(q * 32 + r) == q / 32
  {
    hide Ppn, IsLeaf, IsUser;
    LeafLow(q, r);
    UserLow(q, r);
    PpnHigh(q, r);
  }

  lemma WithoutUKeeps(pte: nat)
    requires IsLeaf(pte)
    ensures IsLeaf(WithoutU(pte)) && Ppn(WithoutU(pte)) == Ppn(pte) && !IsUser(WithoutU(pte))
  {
    var q, r := pte / 32, pte % 32;
    assert pte == q * 32 + r;
    hide Ppn, IsLeaf, IsUser;
    LowBits(q, r);
    if r >= 16 {
      LowBits(q, r - 16);
      LeafBits(r);
    }
  }

  lemma LeafBits(r: nat)
    requires 16 <= r < 32
    ensures IsLeaf(r - 16) == IsLeaf(r)
  {
  }

  /** uvmclear: takes user access away from one page, the stack guard. */
  method Uvmclear(vm: Vm, root: nat, vpn: nat, sz: nat, ghost b: Aspace, ghost x: Site)
    requires Building(vm.mem, vm.free, b, root, sz, x) && vpn < |b.user|
    modifies vm
    ensures Building(vm.mem, vm.free, b, root, sz, x) && SameContents(old(vm.mem), vm.mem, b, |b.user|)
    ensures vm.free == old(vm.free)
    ensures forall u :: 0 <= u < MAXVPN ==>
              Lookup(vm.mem, b.sp, u) == if u == vpn then WithoutU(old(Lookup(vm.mem, b.sp, u)))
                                         else old(Lookup(vm.mem, b.sp, u))
  {
    assert EntryOk(b, vpn, Lookup(vm.mem, b.sp, vpn));
    var found, l, _ := vm.Walk(root, vpn, false, b.sp);
    var pte := vm.mem[l][PX0(vpn)];
    WithoutUKeeps(pte);
    SetLeaf(vm.mem, b.sp, l, vpn, WithoutU(pte));
    vm.mem := SetEntry(vm.mem, l, PX0(vpn), WithoutU(pte));
    FreeApart(old(vm.mem), vm.free, b);
    forall u | 0 <= u < MAXVPN
      ensures EntryOk(b, u, Lookup(vm.mem, b.sp, u))
    {
      assert EntryOk(b, u, old(Lookup(vm.mem, b.sp, u)));
    }
    forall u | 0 <= u < |b.user|
      ensures vm.mem[b.user[u]] == old(vm.mem)[b.user[u]]
    {
      assert b.user[u] in Pool(b.user);
    }
  }

  /** The top two pages of b: the guard, which the user cannot touch, and the stack. */
  ghost predicate StackOk(mem: Memory, b: Aspace)
    requires Tree(mem, b.sp)
  {
    var n := |b.user|;
    && 2 <= n <= MAXVPN && Lookup(mem, b.sp, n - 2) == MkPte(b.user[n - 2], WithV(PTE_R + PTE_W))
    && Lookup(mem, b.sp, n - 1) == MkPte(b.user[n - 1], WithV(PTE_R + PTE_U + PTE_W))
  }

  /** Pages that keep their place, contents and entries stay loaded. */
  lemma LoadedStays(mem: Memory, b: Aspace, mem': Memory, b': Aspace, segs: seq<Segment>, n: nat, m: nat)
    requires Loaded(mem, b, segs, n, m) && Tree(mem', b'.sp) && m <= |b'.user| <= MAXVPN && |mem'| == |mem|
    requires forall u :: 0 <= u < m ==> b'.user[u] == b.user[u] && b.user[u] < |mem|
                                        && mem'[b.user[u]] == mem[b.user[u]]
    requires forall u :: 0 <= u < m ==> Lookup(mem', b'.sp, u) == Lookup(mem, b.sp, u)
    ensures Loaded(mem', b', segs, n, m)
  {
    hide Tree, PageAt, PermAt;
    forall u | 0 <= u < m
      ensures LoadedPage(mem', b', segs, n, u)
    {
      assert LoadedPage(mem, b, segs, n, u);
    }
  }

  /** Two more pages on top of b, then uvmclear of the lower one. */
  lemma StackAdded(mem0: Memory, b: Aspace, mem1: Memory, mem2: Memory, b': Aspace, segs: seq<Segment>, n: nat)
    requires Loaded(mem0, b, segs, n, |b.user|) && Grown(mem0, b, mem1, b', PTE_R + PTE_U + PTE_W)
    requires |b'.user| == |b.user| + 2 <= MAXVPN && Tree(mem2, b'.sp) && |mem0| == |mem1| == |mem2|
             && SameContents(mem1, mem2, b', |b'.user|)
    requires forall u :: 0 <= u < MAXVPN ==>
               Lookup(mem2, b'.sp, u) == if u == |b.user| then WithoutU(Lookup(mem1, b'.sp, u))
                                         else Lookup(mem1, b'.sp, u)
    ensures StackOk(mem2, b') && Loaded(mem2, b', segs, n, |b.user|)
  {
    hide Tree, Loaded;
    assert forall u :: 0 <= u < |b.user| ==> b'.user[u] == b'.user[..|b.user|][u];
    LoadedStays(mem0, b, mem2, b', segs, n, |b.user|);
    var p := b'.user[|b.user|];
    UserBit(p, PTE_W);
    assert WithoutU(MkPte(p, WithV(PTE_R + PTE_U + PTE_W))) == MkPte(p, WithV(PTE_R + PTE_W));
  }

  /** Two more pages at the next page boundary, the lower one without user access. */
  method AddStack(vm: Vm, root: nat, sz: nat, ghost segs: seq<Segment>, ghost n: nat, ghost b: Aspace, ghost x: Site)
    returns (ok: bool, sz': nat, ghost b': Aspace)
    requires Building(vm.mem, vm.free, b, root, sz, x) && Loaded(vm.mem, b, segs, n, |b.user|)
    modifies vm
    ensures Building(vm.mem, vm.free, b', root, sz', x)
    ensures ok ==> sz' == (PagesFor(sz) + 2) * PGSIZE && |b'.user| == |b.user| + 2
                   && StackOk(vm.mem, b') && Loaded(vm.mem, b', segs, n, |b.user|)
    ensures !ok ==> |old(vm.free)| < 6
  {
    hide Tree, EntryOk, Releasable, Owned, Pool, Loaded, Grown, FixedOk, StackOk, SameContents;
    StackSize(PagesFor(sz));
    sz' := PagesFor(sz) * PGSIZE;
    var sz1;
    sz1, b' := Extend(vm, root, sz', (sz' + 2 * PGSIZE) % WRAP, PTE_W, b, x);
    if sz1 == 0 {
      return false, sz', b';
    }
    sz' := sz1;
    assert |b'.user| == |b.user| + 2;
    ghost var mem1 := vm.mem;
    Uvmclear(vm, root, sz' / PGSIZE - 2, sz', b', x);
    StackAdded(old(vm.mem), b, mem1, vm.mem, b', segs, n);
    ok := true;
  }

  lemma StackSize(n: nat)
    requires n <= TRAPFRAME
    ensures var sz := (n + 2) * PGSIZE;
            && (n * PGSIZE + 2 * PGSIZE) % WRAP == sz && sz % PGSIZE == 0 && sz / PGSIZE == n + 2
               && PagesFor(sz) == n + 2
            && PagesFor(n * PGSIZE) == n && (n * PGSIZE) % PGSIZE == 0
  {
  }

  /** The bad path of exec. */
  method Abandon(vm: Vm, root: nat, sz: nat, ghost b: Aspace, ghost x: Site)
    requires Building(vm.mem, vm.free, b, root, sz, x)
    modifies vm
    ensures Pages(vm.mem) && FreeOk(vm.mem, vm.free) && Pool(vm.free) == x.pool && Untouched(x.mem, vm.mem, x.pool)
  {
    vm.ProcFreepagetable(root, sz, b);
  }

  /** Committing to the new image b: the trapframe starts it, and the old image a is torn
      down. */
  method Commit(vm: Vm, oldroot: nat, oldsz: nat, trapframe: nat, entry: nat, sp: nat, ghost a: Aspace, ghost b: Aspace)
    requires ImageOk(vm.mem, vm.free, a) && ImageOk(vm.mem, vm.free, b) && Owned(a) !! Owned(b)
    requires oldroot == a.sp.root && PagesFor(oldsz) == |a.user| && a.fixed == {TRAPFRAME, TRAMPOLINE}
    requires trapframe < |vm.mem| && trapframe !in Owned(a) + Owned(b) + Pool(vm.free)
    modifies vm
    ensures ImageOk(vm.mem, vm.free, b) && Pool(vm.free) == Pool(old(vm.free)) + Owned(a)
    ensures SameLookups(old(vm.mem), b.sp, vm.mem, b.sp) && SameContents(old(vm.mem), vm.mem, b, |b.user|)
    ensures Untouched(old(vm.mem), vm.mem, Owned(a) + {trapframe})
    ensures vm.mem[trapframe] == old(vm.mem)[trapframe][A1 := sp][EPC := entry][SP := sp]
  {
    FreeApart(vm.mem, vm.free, a);
    FreeApart(vm.mem, vm.free, b);
    var page: Page := vm.mem[trapframe];
    page := page[A1 := sp];
    page := page[EPC := entry];
    page := page[SP := sp];
    vm.mem := vm.mem[trapframe := page];
    Bystander(old(vm.mem), vm.free, vm.mem, vm.free, a, {trapframe});
    vm.ProcFreepagetable(oldroot, oldsz, a);
    Bystander(old(vm.mem), old(vm.free), vm.mem, vm.free, b, Owned(a) + {trapframe});
  }

  /** The memory side of exec.  On success the old image is gone and the new one stands:
      the segments, an inaccessible page and the stack.  On any failure the new image is
      gone and the old one stands, entry for entry and byte for byte.  Either way every
      page is owned once or free once, and no other page has changed.  Given three free
      pages for each page of the new image and five more, it succeeds exactly when the
      headers are acceptable and the arguments fit. */
  method Exec(vm: Vm, root: nat, oldsz: nat, trapframe: nat, tramp: nat, segs: seq<Segment>, argsFit: bool, entry: nat,
              sp: nat, ghost a: Aspace)
    returns (ok: bool, newRoot: nat, sz: nat, ghost b: Aspace)
    requires ImageOk(vm.mem, vm.free, a) && root == a.sp.root && PagesFor(oldsz) == |a.user|
             && a.fixed == {TRAPFRAME, TRAMPOLINE}
    requires |vm.mem| <= TRAPFRAME && forall i :: 0 <= i < |segs| ==> SegmentOk(segs[i])
    requires trapframe < |vm.mem| && trapframe !in Owned(a) + Pool(vm.free)
    modifies vm
    ensures !ok ==> ImageOk(vm.mem, vm.free, a) && SameLookups(old(vm.mem), a.sp, vm.mem, a.sp)
                    && SameContents(old(vm.mem), vm.mem, a, |a.user|)
    ensures !ok ==> Pool(vm.free) == Pool(old(vm.free)) && Untouched(old(vm.mem), vm.mem, Pool(old(vm.free)))
    ensures ok ==> ImageOk(vm.mem, vm.free, b) && b.sp.root == newRoot && b.fixed == {TRAPFRAME, TRAMPOLINE}
                   && FixedOk(vm.mem, b.sp, tramp, trapframe) && PagesFor(sz) == |b.user|
                      && trapframe !in Owned(b) + Pool(vm.free)
    ensures ok ==> (forall i :: 0 <= i < |segs| ==> Loadable(segs[i])) && argsFit
                   && sz == (PagesFor(EndOf(segs, |segs|)) + 2) * PGSIZE
    ensures ok ==> StackOk(vm.mem, b) && Loaded(vm.mem, b, segs, |segs|, |b.user| - 2)
    ensures ok ==> Pool(vm.free) + Owned(b) == Pool(old(vm.free)) + Owned(a)
                   && Untouched(old(vm.mem), vm.mem, Pool(old(vm.free)) + Owned(a) + {trapframe})
                   && vm.mem[trapframe] == old(vm.mem)[trapframe][A1 := sp][EPC := entry][SP := sp]
    ensures ok ==> Accepted(segs) && argsFit
    ensures !ok ==> !Accepted(segs) || !argsFit || |old(vm.free)| < 5 + 3 * (PagesFor(EndOf(segs, |segs|)) + 2)
  {
    hide WithV, Lookup, Accepted;
    ok, newRoot, sz, b := BuildImage(vm, trapframe, tramp, segs, argsFit);
    FreeApart(old(vm.mem), old(vm.free), a);
    Bystander(old(vm.mem), old(vm.free), vm.mem, vm.free, a, Pool(old(vm.free)));
    if ok {
      ghost var mem1 := vm.mem;
      Commit(vm, root, oldsz, trapframe, entry, sp, a, b);
      LoadedStays(mem1, b, vm.mem, b, segs, |segs|, |b.user| - 2);
    }
  }

  /** exec up to the point of no return: the new image, or nothing. */
  method BuildImage(vm: Vm, trapframe: nat, tramp: nat, segs: seq<Segment>, argsFit: bool)
    returns (ok: bool, newRoot: nat, sz: nat, ghost b: Aspace)
    requires Pages(vm.mem) && FreeOk(vm.mem, vm.free) && |vm.mem| <= TRAPFRAME && forall i :: 0 <= i < |segs| ==>
               SegmentOk(segs[i])
    modifies vm
    ensures Pages(vm.mem) && FreeOk(vm.mem, vm.free) && Untouched(old(vm.mem), vm.mem, Pool(old(vm.free)))
    ensures !ok ==> Pool(vm.free) == Pool(old(vm.free))
    ensures ok ==> Building(vm.mem, vm.free, b, newRoot, sz, Site(old(vm.mem), Pool(old(vm.free)), tramp, trapframe))
    ensures ok ==> (forall i :: 0 <= i < |segs| ==> Loadable(segs[i])) && argsFit
                   && sz == (PagesFor(EndOf(segs, |segs|)) + 2) * PGSIZE
    ensures ok ==> StackOk(vm.mem, b) && Loaded(vm.mem, b, segs, |segs|, |b.user| - 2)
    ensures ok ==> Accepted(segs) && argsFit
    ensures !ok ==> !Accepted(segs) || !argsFit || |old(vm.free)| < 5 + 3 * (PagesFor(EndOf(segs, |segs|)) + 2)
  {
    hide Owned, Pool, EntryOk, Releasable, Loaded, Loadable, SegmentOk, StackOk, EndOf;
    ghost var x := Site(vm.mem, Pool(vm.free), tramp, trapframe);
    sz := 0;
    ok, newRoot, b := vm.ProcPagetable(tramp, trapframe);
    if !ok {
      return;
    }
    ok, sz, b := LoadSegments(vm, newRoot, segs, b, x);
    if !ok {
      Abandon(vm, newRoot, sz, b, x);
      return;
    }
    ok, sz, b := AddStack(vm, newRoot, sz, segs, |segs|, b, x);
    if !ok || !argsFit {
      Abandon(vm, newRoot, sz, b, x);
      return false, newRoot, sz, b;
    }
  }
}
