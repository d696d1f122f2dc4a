/** The physical page allocator (kernel/kalloc.c): a free list threaded through the free
    pages themselves. */
module FreePages {
  import opened Sequences

  const PGSIZE := 4096
  const NULL: nat := 0

  function PageRoundUp(pa: nat): nat {
    (pa + PGSIZE - 1) / PGSIZE * PGSIZE
  }

  /** The list read from head, through the first word of each page. */
  ghost predicate Threaded(next: map<nat, nat>, head: nat, list: seq<nat>)
    decreases |list|
  {
    if list == [] then head == NULL
    else head == list[0] && head != NULL && head in next && Threaded(next, next[head], list[1..])
  }

  /** Storing into a page that is not free does not disturb the list. */
  lemma {:induction false} ThreadedFrame(next: map<nat, nat>, head: nat, list: seq<nat>, p: nat, x: nat)
    requires Threaded(next, head, list) && p !in list
    ensures Threaded(next[p := x], head, list)
    decreases |list|
  {
    if list != [] {
      ThreadedFrame(next, next[head], list[1..], p, x);
    }
  }

  /** Pages from p on, up to but excluding the limit. */
  ghost function PagesUpTo(start: nat, n: nat): (s: seq<nat>)
    ensures |s| == n && forall i :: 0 <= i < n ==> s[i] == start + (n - 1 - i) * PGSIZE
  {
    if n == 0 then [] else [start + (n - 1) * PGSIZE] + PagesUpTo(start, n - 1)
  }

  class Kmem {
    const end: nat           // first address after the kernel
    const physTop: nat
    var freelist: nat
    var next: map<nat, nat>  // r->next of each page that was ever freed
    ghost var list: seq<nat>

    /** A page kfree does not panic on. */
    predicate IsPage(pa: nat) {
      pa % PGSIZE == 0 && end <= pa < physTop
    }

    ghost predicate Valid()
      reads this
    {
      0 < end && Threaded(next, freelist, list) && NoDup(list) && forall i :: 0 <= i < |list| ==> IsPage(list[i])
    }

    /** kinit: every whole page above the kernel is free, once. */
    constructor (end: nat, physTop: nat)
      requires 0 < end
      ensures Valid() && this.end == end && this.physTop == physTop
      ensures NoDup(list) && forall pa: nat :: IsPage(pa) && pa + PGSIZE <= physTop <==> pa in list
    {
      this.end, this.physTop := end, physTop;
      freelist, next, list := NULL, map[], [];
      new;
      FreeRange();
    }

    /** freerange(end, PHYSTOP). */
    method FreeRange()
      requires Valid() && list == []
      modifies `freelist, `next, `list
      ensures Valid() && forall pa: nat :: IsPage(pa) && pa + PGSIZE <= physTop <==> pa in list
    {
      var p := PageRoundUp(end);
      ghost var start, n := p, 0;
      while p + PGSIZE <= physTop
        invariant Valid() && p == start + n * PGSIZE && p % PGSIZE == 0 && list == PagesUpTo(start, n)
        invariant forall i :: 0 <= i < |list| ==> list[i] + PGSIZE <= physTop
        decreases physTop - p
      {
        Kfree(p);
        p := p + PGSIZE;
        n := n + 1;
      }
      forall pa: nat | IsPage(pa) && pa + PGSIZE <= physTop
        ensures pa in list
      {
        var i := (pa - start) / PGSIZE;
        assert list[n - 1 - i] == pa;
      }
    }

    /** kfree.  A page that is not whole, or outside memory, would be a panic; freeing a
        free page is the caller's mistake. */
    method Kfree(pa: nat)
      requires Valid() && IsPage(pa) && pa !in list
      modifies `freelist, `next, `list
      ensures Valid() && list == [pa] + old(list)
    {
      ThreadedFrame(next, freelist, list, pa, freelist);
      next := next[pa := freelist];
      freelist := pa;
      list := [pa] + list;
    }

    /** kalloc: the page freed last, no longer free; NULL exactly when there is none. */
    method Kalloc() returns (r: nat)
      requires Valid()
      modifies `freelist, `next, `list
      ensures Valid()
      ensures r == NULL <==> old(list) == []
      ensures r == NULL ==> list == []
      ensures r != NULL ==> old(list) == [r] + list && r !in list && IsPage(r)
    {
      r := freelist;
      if r != NULL {
        freelist := next[r];
        list := list[1..];
      }
    }
  }
}
