/** All processes together over one physical memory (kernel/proc.c): every page of memory
    is free, the kernel's own, or in the hands of exactly one process, and fork, sbrk, exec
    and freeproc keep it so on every path, without touching what other processes hold. */
module SystemMemory {
  import opened PageTable
  import opened AddressSpace
  import opened ProcessMemory

  /** The memory fields of struct proc: pagetable, sz, trapframe. */
  datatype Slot = Slot(root: nat, sz: nat, trapframe: nat)

  /** A slot in use, and the image that its page table describes. */
  datatype Proc = Proc(slot: Slot, image: Aspace)

  /** The physical pages in the hands of a process. */
  ghost function Holdings(p: Proc): set<nat> {
    Owned(p.image) + {p.slot.trapframe}
  }

  ghost function HeldBy(procs: map<nat, Proc>, i: nat): set<nat> {
    if i in procs then Holdings(procs[i]) else {}
  }

  /** One process: its page table maps exactly its image, its trapframe and the trampoline. */
  ghost predicate ProcessOk(mem: Memory, free: seq<nat>, p: Proc, tramp: nat) {
    && ImageOk(mem, free, p.image) && p.image.sp.root == p.slot.root && PagesFor(p.slot.sz) == |p.image.user|
    && p.image.fixed == {TRAPFRAME, TRAMPOLINE} && FixedOk(mem, p.image.sp, tramp, p.slot.trapframe)
    && p.slot.trapframe < |mem| && p.slot.trapframe !in Owned(p.image) + Pool(free)
  }

  ghost predicate Apart(procs: map<nat, Proc>, i: nat, j: nat) {
    i != j ==> HeldBy(procs, i) !! HeldBy(procs, j)
  }

  /** Page q is free, the kernel's, or some process's. */
  ghost predicate Accounted(free: seq<nat>, procs: map<nat, Proc>, kernel: set<nat>, q: nat) {
    q in Pool(free) || q in kernel || exists i :: q in HeldBy(procs, i)
  }

  ghost predicate SystemOk(mem: Memory, free: seq<nat>, procs: map<nat, Proc>, kernel: set<nat>, tramp: nat) {
    && Pages(mem) && FreeOk(mem, free) && |mem| <= TRAPFRAME && Pool(free) !! kernel
    && (forall i {:trigger procs[i]} :: i in procs ==> ProcessOk(mem, free, procs[i], tramp))
    && (forall i, j {:trigger Apart(procs, i, j)} :: Apart(procs, i, j))
    && (forall i {:trigger HeldBy(procs, i)} :: HeldBy(procs, i) !! kernel)
    && (forall q {:trigger Accounted(free, procs, kernel, q)} :: 0 <= q < |mem| ==> Accounted(free, procs, kernel, q))
  }

  /** What a process sees and holds is the same in both memories. */
  ghost predicate Unaffected(mem: Memory, mem': Memory, p: Proc) {
    && Tree(mem, p.image.sp) && Tree(mem', p.image.sp) && SameLookups(mem, p.image.sp, mem', p.image.sp)
    && SameContents(mem, mem', p.image, |p.image.user|)
    && p.slot.trapframe < |mem| && p.slot.trapframe < |mem'| && mem'[p.slot.trapframe] == mem[p.slot.trapframe]
  }

  ghost predicate OthersUnaffected(mem: Memory, mem': Memory, procs: map<nat, Proc>, i: nat) {
    forall j {:trigger procs[j]} :: j in procs && j != i ==> Unaffected(mem, mem', procs[j])
  }

  /** Process i changes hands with the pool, and nobody else does. */
  ghost predicate Exchange(mem: Memory, free: seq<nat>, procs: map<nat, Proc>, mem': Memory, free': seq<nat>,
                           procs': map<nat, Proc>, i: nat) {
    && Pages(mem') && FreeOk(mem', free') && procs' - {i} == procs - {i}
    && Untouched(mem, mem', Pool(free) + HeldBy(procs, i))
    && Pool(free') + HeldBy(procs', i) == Pool(free) + HeldBy(procs, i) && Pool(free') !! HeldBy(procs', i)
  }

  lemma OnlyOne(procs: map<nat, Proc>, procs': map<nat, Proc>, i: nat, j: nat)
    requires procs' - {i} == procs - {i} && j != i
    ensures HeldBy(procs', j) == HeldBy(procs, j) && (j in procs' <==> j in procs)
            && (j in procs ==> procs'[j] == procs[j])
  {
    assert j in procs' <==> j in procs' - {i};
    assert j in procs <==> j in procs - {i};
    if j in procs {
      assert (procs' - {i})[j] == (procs - {i})[j];
    }
  }

  lemma OtherUnaffected(mem: Memory, free: seq<nat>, procs: map<nat, Proc>, mem': Memory, free': seq<nat>,
                        procs': map<nat, Proc>, kernel: set<nat>, tramp: nat, i: nat, j: nat)
    requires SystemOk(mem, free, procs, kernel, tramp) && Exchange(mem, free, procs, mem', free', procs', i)
             && j in procs && j != i
    ensures ProcessOk(mem', free', procs[j], tramp) && Unaffected(mem, mem', procs[j])
  {
    hide Tree, EntryOk, Lookup;
    var p := procs[j];
    assert ProcessOk(mem, free, p, tramp) && Apart(procs, i, j);
    FreeApart(mem, free, p.image);
    assert Pool(free') <= Pool(free) + HeldBy(procs, i);
    Bystander(mem, free, mem', free', p.image, Pool(free) + HeldBy(procs, i));
    assert p.slot.trapframe in HeldBy(procs, j) && p.slot.trapframe !in Pool(free) + HeldBy(procs, i);
  }

  /** The system invariant survives any such exchange that leaves process i in order. */
  lemma ExchangeKeeps(mem: Memory, free: seq<nat>, procs: map<nat, Proc>, mem': Memory, free': seq<nat>,
                      procs': map<nat, Proc>, kernel: set<nat>, tramp: nat, i: nat)
    requires SystemOk(mem, free, procs, kernel, tramp) && Exchange(mem, free, procs, mem', free', procs', i)
    requires i in procs' ==> ProcessOk(mem', free', procs'[i], tramp)
    ensures SystemOk(mem', free', procs', kernel, tramp) && OthersUnaffected(mem, mem', procs, i)
  {
    hide ProcessOk, Unaffected, Holdings;
    forall j | j in procs && j != i
      ensures ProcessOk(mem', free', procs[j], tramp) && Unaffected(mem, mem', procs[j])
    {
      OtherUnaffected(mem, free, procs, mem', free', procs', kernel, tramp, i, j);
    }
    forall j | j in procs'
      ensures ProcessOk(mem', free', procs'[j], tramp)
    {
      if j != i {
        OnlyOne(procs, procs', i, j);
      }
    }
    forall j, k
      ensures Apart(procs', j, k)
    {
      StayApart(mem, free, procs, mem', free', procs', kernel, tramp, i, j, k);
    }
    assert HeldBy(procs, i) !! kernel;
    forall j
      ensures HeldBy(procs', j) !! kernel
    {
      if j != i {
        OnlyOne(procs, procs', i, j);
        assert HeldBy(procs, j) !! kernel;
      }
    }
    forall q | 0 <= q < |mem'|
      ensures Accounted(free', procs', kernel, q)
    {
      StaysAccounted(free, procs, free', procs', kernel, i, q);
    }
  }

  lemma StayApart(mem: Memory, free: seq<nat>, procs: map<nat, Proc>, mem': Memory, free': seq<nat>,
                  procs': map<nat, Proc>, kernel: set<nat>, tramp: nat, i: nat, j: nat, k: nat)
    requires SystemOk(mem, free, procs, kernel, tramp) && Exchange(mem, free, procs, mem', free', procs', i)
    ensures Apart(procs', j, k)
  {
    assert Apart(procs, j, k) && Apart(procs, i, j) && Apart(procs, i, k);
    if j != i {
      OnlyOne(procs, procs', i, j);
      HeldNotFree(mem, free, procs, kernel, tramp, j);
    }
    if k != i {
      OnlyOne(procs, procs', i, k);
      HeldNotFree(mem, free, procs, kernel, tramp, k);
    }
  }

  lemma HeldNotFree(mem: Memory, free: seq<nat>, procs: map<nat, Proc>, kernel: set<nat>, tramp: nat, j: nat)
    requires SystemOk(mem, free, procs, kernel, tramp)
    ensures HeldBy(procs, j) !! Pool(free)
  {
    if j in procs {
      assert ProcessOk(mem, free, procs[j], tramp);
      FreeApart(mem, free, procs[j].image);
    }
  }

  /** Every page is free, or the kernel's, or one process's; and only one of these. */
  lemma OneOwner(mem: Memory, free: seq<nat>, procs: map<nat, Proc>, kernel: set<nat>, tramp: nat, q: nat)
    requires SystemOk(mem, free, procs, kernel, tramp) && q < |mem|
    ensures q in Pool(free) <==> q !in kernel && forall i :: q !in HeldBy(procs, i)
    ensures q in kernel ==> forall i :: q !in HeldBy(procs, i)
    ensures forall i, j :: q in HeldBy(procs, i) && q in HeldBy(procs, j) ==> i == j
  {
    assert Accounted(free, procs, kernel, q);
    forall i, j | q in HeldBy(procs, i) && q in HeldBy(procs, j)
      ensures i == j && q !in Pool(free)
    {
      assert Apart(procs, i, j);
      HeldNotFree(mem, free, procs, kernel, tramp, i);
    }
  }

  lemma StaysAccounted(free: seq<nat>, procs: map<nat, Proc>, free': seq<nat>, procs': map<nat, Proc>,
                       kernel: set<nat>, i: nat, q: nat)
    requires Accounted(free, procs, kernel, q) && procs' - {i} == procs - {i}
    requires Pool(free') + HeldBy(procs', i) == Pool(free) + HeldBy(procs, i)
    ensures Accounted(free', procs', kernel, q)
  {
    if q in Pool(free) + HeldBy(procs, i) {
      assert q in Pool(free') + HeldBy(procs', i);
    } else if q !in kernel {
      var j :| q in HeldBy(procs, j);
      OnlyOne(procs, procs', i, j);
      assert q in HeldBy(procs', j);
    }
  }

  /** Process i with a new image in exchange for its old one. */
  lemma Replaced(mem: Memory, free: seq<nat>, procs: map<nat, Proc>, mem': Memory, free': seq<nat>, p: Proc,
                 kernel: set<nat>, tramp: nat, i: nat)
    requires SystemOk(mem, free, procs, kernel, tramp) && i in procs && p.slot.trapframe == procs[i].slot.trapframe
    requires ProcessOk(mem', free', p, tramp) && Pool(free') + Owned(p.image) == Pool(free) + Owned(procs[i].image)
    requires Untouched(mem, mem', Pool(free) + Owned(procs[i].image))
             || Untouched(mem, mem', Pool(free) + Owned(procs[i].image) + {p.slot.trapframe})
    ensures SystemOk(mem', free', procs[i := p], kernel, tramp) && OthersUnaffected(mem, mem', procs, i)
    ensures procs[i := p] - {i} == procs - {i}
  {
    hide SystemOk;
    FreeApart(mem', free', p.image);
    assert Exchange(mem, free, procs, mem', free', procs[i := p], i);
    ExchangeKeeps(mem, free, procs, mem', free', procs[i := p], kernel, tramp, i);
  }

  /** A new process c made out of the pool. */
  lemma Added(mem: Memory, free: seq<nat>, procs: map<nat, Proc>, mem': Memory, free': seq<nat>, p: Proc,
              kernel: set<nat>, tramp: nat, c: nat)
    requires SystemOk(mem, free, procs, kernel, tramp) && c !in procs && ProcessOk(mem', free', p, tramp)
    requires Pool(free') + Owned(p.image) + {p.slot.trapframe} == Pool(free) && Untouched(mem, mem', Pool(free))
    ensures SystemOk(mem', free', procs[c := p], kernel, tramp) && OthersUnaffected(mem, mem', procs, c)
    ensures procs[c := p] - {c} == procs - {c}
  {
    hide SystemOk;
    FreeApart(mem', free', p.image);
    assert Exchange(mem, free, procs, mem', free', procs[c := p], c);
    ExchangeKeeps(mem, free, procs, mem', free', procs[c := p], kernel, tramp, c);
  }

  /** Process i gone, back into the pool. */
  lemma Removed(mem: Memory, free: seq<nat>, procs: map<nat, Proc>, mem': Memory, free': seq<nat>,
                kernel: set<nat>, tramp: nat, i: nat)
    requires SystemOk(mem, free, procs, kernel, tramp) && i in procs && Pages(mem') && FreeOk(mem', free')
    requires var p := procs[i];
             && Pool(free') == Pool(free) + Owned(p.image) + {p.slot.trapframe}
             && Untouched(mem, mem', Owned(p.image) + {p.slot.trapframe})
    ensures SystemOk(mem', free', procs - {i}, kernel, tramp) && OthersUnaffected(mem, mem', procs, i)
    ensures (procs - {i}) - {i} == procs - {i}
  {
    hide SystemOk;
    assert (procs - {i}) - {i} == procs - {i};
    assert Exchange(mem, free, procs, mem', free', procs - {i}, i);
    ExchangeKeeps(mem, free, procs, mem', free', procs - {i}, kernel, tramp, i);
  }

  /** Free pages written and nothing else: every process is as it was. */
  lemma Undone(mem: Memory, free: seq<nat>, procs: map<nat, Proc>, mem': Memory, free': seq<nat>, kernel: set<nat>,
               tramp: nat)
    requires SystemOk(mem, free, procs, kernel, tramp) && Pages(mem') && FreeOk(mem', free')
    requires Pool(free') == Pool(free) && Untouched(mem, mem', Pool(free))
    ensures SystemOk(mem', free', procs, kernel, tramp) && forall i :: OthersUnaffected(mem, mem', procs, i)
  {
    forall j | j in procs
      ensures ProcessOk(mem', free', procs[j], tramp) && Unaffected(mem, mem', procs[j])
    {
      StaysSame(mem, free, mem', free', procs[j], tramp);
    }
    forall q | 0 <= q < |mem'|
      ensures Accounted(free', procs, kernel, q)
    {
      assert Accounted(free, procs, kernel, q);
    }
  }

  lemma StaysSame(mem: Memory, free: seq<nat>, mem': Memory, free': seq<nat>, p: Proc, tramp: nat)
    requires ProcessOk(mem, free, p, tramp) && Pages(mem') && FreeOk(mem', free')
    requires Pool(free') == Pool(free) && Untouched(mem, mem', Pool(free))
    ensures ProcessOk(mem', free', p, tramp) && Unaffected(mem, mem', p)
  {
    FreeApart(mem, free, p.image);
    Bystander(mem, free, mem', free', p.image, Pool(free));
  }

  /** c is a fresh copy of p, whose fork() returns 0. */
  ghost predicate IsChild(mem: Memory, p: Proc, mem': Memory, c: Proc, tramp: nat) {
    && c.slot.sz == p.slot.sz && Copied(mem, p.image, mem', c.image, tramp, c.slot.trapframe)
    && p.slot.trapframe < |mem| && c.slot.trapframe < |mem'| && A0 < |mem[p.slot.trapframe]|
    && mem'[c.slot.trapframe] == mem[p.slot.trapframe][A0 := 0]
  }

  /** p is about to run the program made of segs. */
  ghost predicate IsProgram(mem: Memory, p: Proc, segs: seq<Segment>) {
    && (forall k :: 0 <= k < |segs| ==> Loadable(segs[k])) && p.slot.sz == (PagesFor(EndOf(segs, |segs|)) + 2) * PGSIZE
    && Tree(mem, p.image.sp) && StackOk(mem, p.image) && Loaded(mem, p.image, segs, |segs|, |p.image.user| - 2)
  }

  /** growproc as seen from one slot. */
  method GrowSlot(vm: Vm, p: Slot, n: int, tramp: nat, ghost a: Aspace) returns (ret: int, p': Slot, ghost a': Aspace)
    requires ProcessOk(vm.mem, vm.free, Proc(p, a), tramp) && |vm.mem| <= TRAPFRAME && -0x8000_0000 <= n < 0x8000_0000
    modifies vm
    ensures ProcessOk(vm.mem, vm.free, Proc(p', a'), tramp) && p' == p.(sz := p'.sz)
    ensures Pool(vm.free) + Owned(a') == Pool(old(vm.free)) + Owned(a)
    ensures Untouched(old(vm.mem), vm.mem, Pool(old(vm.free)) + Owned(a))
    ensures Resized(old(vm.mem), a, p.sz, n, vm.mem, a', p'.sz, ret)
    ensures p.trapframe < |old(vm.mem)| == |vm.mem| && vm.mem[p.trapframe] == old(vm.mem)[p.trapframe]
  {
    var sz;
    ret, sz, a' := Growproc(vm, p.root, p.sz, n, a);
    p' := p.(sz := sz);
    GrowKeeps(old(vm.mem), old(vm.free), vm.mem, vm.free, Proc(p, a), Proc(p', a'), tramp, n, ret);
  }

  /** freeproc as seen from one slot. */
  method FreeSlot(vm: Vm, p: Slot, tramp: nat, ghost a: Aspace)
    requires ProcessOk(vm.mem, vm.free, Proc(p, a), tramp)
    modifies vm
    ensures Pages(vm.mem) && FreeOk(vm.mem, vm.free) && Pool(vm.free) == Pool(old(vm.free)) + Owned(a) + {p.trapframe}
    ensures Untouched(old(vm.mem), vm.mem, Owned(a) + {p.trapframe})
  {
    Freeproc(vm, p.trapframe, p.root, p.sz, a);
  }

  /** fork as seen from one slot: a new slot, filled out of the pool. */
  method ForkSlot(vm: Vm, p: Slot, tramp: nat, ghost a: Aspace) returns (ok: bool, c: Slot, ghost b: Aspace)
    requires ProcessOk(vm.mem, vm.free, Proc(p, a), tramp) && |vm.mem| <= TRAPFRAME
    modifies vm
    ensures Pages(vm.mem) && FreeOk(vm.mem, vm.free) && Untouched(old(vm.mem), vm.mem, Pool(old(vm.free)))
    ensures !ok ==> Pool(vm.free) == Pool(old(vm.free))
    ensures ok ==> ProcessOk(vm.mem, vm.free, Proc(c, b), tramp)
                   && IsChild(old(vm.mem), Proc(p, a), vm.mem, Proc(c, b), tramp)
                   && Pool(vm.free) + Owned(b) + {c.trapframe} == Pool(old(vm.free))
    ensures !ok ==> |old(vm.free)| < 6 + 3 * |a.user|
  {
    var tf, root;
    ok, tf, root, b := ProcessMemory.Fork(vm, p.root, p.sz, p.trapframe, tramp, a);
    c := Slot(root, p.sz, tf);
  }

  /** exec as seen from one slot. */
  method ExecSlot(vm: Vm, p: Slot, tramp: nat, segs: seq<Segment>, argsFit: bool, entry: nat, sp: nat, ghost a: Aspace)
    returns (ok: bool, p': Slot, ghost b: Aspace)
    requires ProcessOk(vm.mem, vm.free, Proc(p, a), tramp) && |vm.mem| <= TRAPFRAME
    requires forall k :: 0 <= k < |segs| ==> SegmentOk(segs[k])
    modifies vm
    ensures !ok ==> Pages(vm.mem) && FreeOk(vm.mem, vm.free) && Pool(vm.free) == Pool(old(vm.free))
                    && Untouched(old(vm.mem), vm.mem, Pool(old(vm.free)))
    ensures ok ==> ProcessOk(vm.mem, vm.free, Proc(p', b), tramp) && argsFit && IsProgram(vm.mem, Proc(p', b), segs)
                   && p'.trapframe == p.trapframe && Pool(vm.free) + Owned(b) == Pool(old(vm.free)) + Owned(a)
                   && Untouched(old(vm.mem), vm.mem, Pool(old(vm.free)) + Owned(a) + {p.trapframe})
    ensures ok ==> Accepted(segs)
    ensures !ok ==> !Accepted(segs) || !argsFit || |old(vm.free)| < 5 + 3 * (PagesFor(EndOf(segs, |segs|)) + 2)
  {
    var root, sz;
    ok, root, sz, b := ProcessMemory.Exec(vm, p.root, p.sz, p.trapframe, tramp, segs, argsFit, entry, sp, a);
    p' := Slot(root, sz, p.trapframe);
  }

  /** userinit as seen from its slot. */
  method FirstSlot(vm: Vm, tramp: nat, initcode: Page) returns (p: Slot, ghost b: Aspace)
    requires Pages(vm.mem) && FreeOk(vm.mem, vm.free) && |vm.mem| <= TRAPFRAME && |vm.free| >= 9
    requires |initcode| == ENTRIES
    modifies vm
    ensures ProcessOk(vm.mem, vm.free, Proc(p, b), tramp) && IsFirst(vm.mem, b, initcode, p.trapframe) && p.sz == PGSIZE
    ensures Pool(vm.free) + Owned(b) + {p.trapframe} == Pool(old(vm.free))
    ensures Untouched(old(vm.mem), vm.mem, Pool(old(vm.free)))
  {
    var tf, root;
    tf, root, b := ProcessMemory.Userinit(vm, tramp, initcode);
    p := Slot(root, PGSIZE, tf);
  }

  lemma Memories(mem: Memory, free: seq<nat>, procs: map<nat, Proc>, kernel: set<nat>, tramp: nat)
    requires SystemOk(mem, free, procs, kernel, tramp)
    ensures Pages(mem) && FreeOk(mem, free) && |mem| <= TRAPFRAME
  {
  }

  lemma InUse(mem: Memory, free: seq<nat>, table: map<nat, Slot>, procs: map<nat, Proc>, kernel: set<nat>, tramp: nat,
              i: nat)
    requires SystemOk(mem, free, procs, kernel, tramp) && Matches(table, procs) && i in table
    ensures i in procs && procs[i] == Proc(table[i], procs[i].image) && ProcessOk(mem, free, procs[i], tramp)
            && |mem| <= TRAPFRAME
  {
  }

  /** growproc does not reach the fixed pages, nor the trapframe's contents. */
  lemma GrowKeeps(mem: Memory, free: seq<nat>, mem': Memory, free': seq<nat>, p: Proc, p': Proc, tramp: nat, n: int,
                  ret: int)
    requires ProcessOk(mem, free, p, tramp) && ImageOk(mem', free', p'.image) && p'.image.sp.root == p.slot.root
    requires p'.slot == p.slot.(sz := p'.slot.sz) && PagesFor(p'.slot.sz) == |p'.image.user|
             && p'.image.fixed == p.image.fixed
    requires Pool(free') + Owned(p'.image) == Pool(free) + Owned(p.image)
             && Untouched(mem, mem', Pool(free) + Owned(p.image))
    requires Resized(mem, p.image, p.slot.sz, n, mem', p'.image, p'.slot.sz, ret)
    ensures ProcessOk(mem', free', p', tramp)
    ensures p.slot.trapframe < |mem| == |mem'| && mem'[p.slot.trapframe] == mem[p.slot.trapframe]
  {
    hide Tree, EntryOk, Releasable;
    assert p.slot.trapframe !in Pool(free) + Owned(p.image);
    assert Lookup(mem', p'.image.sp, TRAPFRAME) == Lookup(mem, p.image.sp, TRAPFRAME);
    assert Lookup(mem', p'.image.sp, TRAMPOLINE) == Lookup(mem, p.image.sp, TRAMPOLINE);
  }

  ghost predicate Matches(table: map<nat, Slot>, procs: map<nat, Proc>) {
    table.Keys == procs.Keys && forall i {:trigger table[i]} :: i in procs ==> table[i] == procs[i].slot
  }

  lemma MatchesSet(table: map<nat, Slot>, procs: map<nat, Proc>, i: nat, p: Proc)
    requires Matches(table, procs)
    ensures Matches(table[i := p.slot], procs[i := p])
  {
  }

  lemma MatchesDrop(table: map<nat, Slot>, procs: map<nat, Proc>, i: nat)
    requires Matches(table, procs)
    ensures Matches(table - {i}, procs - {i})
  {
  }

  lemma Unused(table: map<nat, Slot>, procs: map<nat, Proc>, i: nat)
    requires Matches(table, procs) && i !in table
    ensures i !in procs
  {
  }

  class System {
    const vm: Vm
    const tramp: nat
    ghost const kernel: set<nat>     // pages of the kernel's text, data, stacks and tables

    var table: map<nat, Slot>        // the slots of proc[] that are in use
    ghost var procs: map<nat, Proc>

    ghost predicate Ok()
      reads this, vm
    {
      SystemOk(vm.mem, vm.free, procs, kernel, tramp) && Matches(table, procs)
    }

    /** Only process i may have changed. */
    twostate predicate OnlyMoved(i: nat)
      reads this, vm
    {
      procs - {i} == old(procs) - {i} && OthersUnaffected(old(vm.mem), vm.mem, old(procs), i)
    }

    /** Before the first process: what is not free is the kernel's. */
    constructor (v: Vm, trampoline: nat, ghost used: set<nat>)
      requires Pages(v.mem) && FreeOk(v.mem, v.free) && |v.mem| <= TRAPFRAME
      requires Pool(v.free) !! used && forall q :: 0 <= q < |v.mem| ==> q in Pool(v.free) || q in used
      ensures vm == v && Ok() && table == map[]
    {
      vm, tramp, kernel := v, trampoline, used;
      table, procs := map[], map[];
    }

    /** userinit: the first process, in slot i. */
    method Userinit(i: nat, initcode: Page)
      requires Ok() && table == map[] && |vm.free| >= 9 && |initcode| == ENTRIES
      modifies this, vm
      ensures Ok() && table.Keys == {i} && i in procs
      ensures table[i].sz == PGSIZE && IsFirst(vm.mem, procs[i].image, initcode, table[i].trapframe)
    {
      hide SystemOk, Matches, ProcessOk, IsFirst, OthersUnaffected, Pool, Owned, Untouched;
      Unused(table, procs, i);
      Memories(vm.mem, vm.free, procs, kernel, tramp);
      var p;
      ghost var b;
      p, b := FirstSlot(vm, tramp, initcode);
      Added(old(vm.mem), old(vm.free), procs, vm.mem, vm.free, Proc(p, b), kernel, tramp, i);
      MatchesSet(table, procs, i, Proc(p, b));
      table := table[i := p];
      procs := procs[i := Proc(p, b)];
    }

    /** sbrk, through growproc. */
    method Sbrk(i: nat, n: int) returns (ret: int)
      requires Ok() && i in table && -0x8000_0000 <= n < 0x8000_0000
      modifies this, vm
      ensures Ok() && OnlyMoved(i) && i in procs
      ensures var p, p' := old(procs[i]), procs[i];
              && p'.slot == p.slot.(sz := p'.slot.sz) && p.slot.trapframe < |vm.mem| == |old(vm.mem)|
              && Resized(old(vm.mem), p.image, p.slot.sz, n, vm.mem, p'.image, p'.slot.sz, ret)
              && vm.mem[p.slot.trapframe] == old(vm.mem)[p.slot.trapframe]
    {
      hide SystemOk, Matches, ProcessOk, Resized, OthersUnaffected, Pool, Owned, Untouched;
      InUse(vm.mem, vm.free, table, procs, kernel, tramp, i);
      var p;
      ghost var a;
      ret, p, a := GrowSlot(vm, table[i], n, tramp, procs[i].image);
      Replaced(old(vm.mem), old(vm.free), procs, vm.mem, vm.free, Proc(p, a), kernel, tramp, i);
      MatchesSet(table, procs, i, Proc(p, a));
      table := table[i := p];
      procs := procs[i := Proc(p, a)];
    }

    /** fork: the child is a copy of the parent, or nothing has happened; the parent is one
        of the others that are unaffected. */
    method Fork(i: nat, child: nat) returns (ok: bool)
      requires Ok() && i in table && child !in table
      modifies this, vm
      ensures Ok() && OnlyMoved(child) && (if ok then child in procs else procs == old(procs))
      ensures ok ==> IsChild(old(vm.mem), old(procs[i]), vm.mem, procs[child], tramp)
      ensures !ok ==> |old(vm.free)| < 6 + 3 * |old(procs[i]).image.user|
    {
      hide SystemOk, Matches, ProcessOk, IsChild, OthersUnaffected, Pool, Owned, Untouched;
      Unused(table, procs, child);
      InUse(vm.mem, vm.free, table, procs, kernel, tramp, i);
      var c;
      ghost var b;
      ok, c, b := ForkSlot(vm, table[i], tramp, procs[i].image);
      if ok {
        Added(old(vm.mem), old(vm.free), procs, vm.mem, vm.free, Proc(c, b), kernel, tramp, child);
        MatchesSet(table, procs, child, Proc(c, b));
        table := table[child := c];
        procs := procs[child := Proc(c, b)];
      } else {
        Undone(old(vm.mem), old(vm.free), procs, vm.mem, vm.free, kernel, tramp);
      }
    }

    /** exec: the new image in place of the old, or nothing has happened. */
    method Exec(i: nat, segs: seq<Segment>, argsFit: bool, entry: nat, sp: nat) returns (ok: bool)
      requires Ok() && i in table && forall k :: 0 <= k < |segs| ==> SegmentOk(segs[k])
      modifies this, vm
      ensures Ok() && OnlyMoved(i) && i in procs
      ensures !ok ==> procs == old(procs) && Unaffected(old(vm.mem), vm.mem, procs[i])
      ensures ok ==> argsFit && IsProgram(vm.mem, procs[i], segs)
                     && procs[i].slot.trapframe == old(procs[i].slot.trapframe)
      ensures ok ==> Accepted(segs)
      ensures !ok ==> !Accepted(segs) || !argsFit || |old(vm.free)| < 5 + 3 * (PagesFor(EndOf(segs, |segs|)) + 2)
    {
      hide SystemOk, Matches, ProcessOk, IsProgram, OthersUnaffected, Unaffected, Pool, Owned, Untouched, SegmentOk;
      InUse(vm.mem, vm.free, table, procs, kernel, tramp, i);
      ghost var a := procs[i].image;
      var p;
      ghost var b;
      ok, p, b := ExecSlot(vm, table[i], tramp, segs, argsFit, entry, sp, a);
      if ok {
        Replaced(old(vm.mem), old(vm.free), procs, vm.mem, vm.free, Proc(p, b), kernel, tramp, i);
        MatchesSet(table, procs, i, Proc(p, b));
        table := table[i := p];
        procs := procs[i := Proc(p, b)];
      } else {
        Undone(old(vm.mem), old(vm.free), procs, vm.mem, vm.free, kernel, tramp);
        StaysSame(old(vm.mem), old(vm.free), vm.mem, vm.free, procs[i], tramp);
      }
    }

    /** freeproc: the slot is unused again. */
    method Free(i: nat)
      requires Ok() && i in table
      modifies this, vm
      ensures Ok() && OnlyMoved(i) && procs == old(procs) - {i}
    {
      hide SystemOk, Matches, ProcessOk, OthersUnaffected, Pool, Owned, Untouched;
      InUse(vm.mem, vm.free, table, procs, kernel, tramp, i);
      FreeSlot(vm, table[i], tramp, procs[i].image);
      Removed(old(vm.mem), old(vm.free), procs, vm.mem, vm.free, kernel, tramp, i);
      MatchesDrop(table, procs, i);
      table := table - {i};
      procs := procs - {i};
    }
  }
}
