/** The buffer list of kernel/bio.c: NBUF buffers on a circular doubly linked list with a
    sentinel, most recently released first.

    Links are array indices; index NBUF is bcache.head.  `order` is the list read from
    head.next.  `stamp` gives each buffer the time it was last released by its last user
    (or created), and is what "least recently used" is measured against.
 */
module BufferCache {

  const NBUF := 30
  const HEAD: nat := 30

  datatype Found = Hit(i: nat) | Recycled(i: nat) | NoBuffers

  /** Position k of the ring: the sentinel, then the list, then the sentinel again. */
  function At(order: seq<nat>, k: nat): nat
    requires k <= |order| + 1
  {
    if k == 0 || k == |order| + 1 then HEAD else order[k - 1]
  }

  ghost predicate Distinct(order: seq<nat>) {
    forall a, b :: 0 <= a < b < |order| ==> order[a] != order[b]
  }

  ghost function Position(order: seq<nat>, i: nat): (a: nat)
    requires i in order
    ensures a < |order| && order[a] == i
  {
    var a: nat :| a < |order| && order[a] == i; a
  }

  ghost predicate Linked(next: seq<nat>, prev: seq<nat>, order: seq<nat>) {
    && |next| == |prev| == NBUF + 1
    && Distinct(order)
    && (forall k :: 0 <= k < |order| ==> order[k] < NBUF)
    && (forall k :: 0 <= k <= |order| ==> next[At(order, k)] == At(order, k + 1))
    && (forall k :: 0 <= k <= |order| ==> prev[At(order, k + 1)] == At(order, k))
  }

  function Without(order: seq<nat>, m: nat): (r: seq<nat>)
    requires m < |order|
    ensures |r| == |order| - 1
  {
    order[..m] + order[m + 1..]
  }

  /** Unlinking the buffer at position m. */
  lemma UnlinkKeeps(next: seq<nat>, prev: seq<nat>, order: seq<nat>, m: nat)
    requires Linked(next, prev, order) && m < |order|
    ensures var i := order[m];
            next[i] <= NBUF && prev[i] <= NBUF
            && Linked(next[prev[i] := next[i]], prev[next[i] := prev[i]], Without(order, m))
  {
    var i := order[m];
    var rest := Without(order, m);
    assert i == At(order, m + 1);
    assert next[i] == At(order, m + 2) && prev[i] == At(order, m);
    var next', prev' := next[prev[i] := next[i]], prev[next[i] := prev[i]];
    forall k | 0 <= k <= |rest|
      ensures next'[At(rest, k)] == At(rest, k + 1) && prev'[At(rest, k + 1)] == At(rest, k)
    {
      RestAt(order, m, k);
      RestAt(order, m, k + 1);
      if k < m {
        assert next[At(order, k)] == At(order, k + 1) && prev[At(order, k + 1)] == At(order, k);
        AtDistinct(order, k, m);
        AtDistinct(order, k + 1, m + 2);
      } else if k > m {
        assert next[At(order, k + 1)] == At(order, k + 2) && prev[At(order, k + 2)] == At(order, k + 1);
        AtDistinct(order, k + 1, m);
        AtDistinct(order, k + 2, m + 2);
      }
    }
  }

  lemma RestAt(order: seq<nat>, m: nat, k: nat)
    requires m < |order| && k <= |order|
    ensures At(Without(order, m), k) == if k <= m then At(order, k) else At(order, k + 1)
  {
  }

  /** Ring positions hold different nodes, except that both ends are the sentinel. */
  lemma AtDistinct(order: seq<nat>, a: nat, b: nat)
    requires Distinct(order) && a <= |order| + 1 && b <= |order| + 1 && a != b
    requires forall k :: 0 <= k < |order| ==> order[k] < NBUF
    ensures At(order, a) == At(order, b) ==> (a == 0 && b == |order| + 1) || (b == 0 && a == |order| + 1)
  {
  }

  /** Pushing buffer i right behind the sentinel. */
  lemma PushKeeps(next: seq<nat>, prev: seq<nat>, order: seq<nat>, i: nat)
    requires Linked(next, prev, order) && i < NBUF && i !in order
    ensures var first := next[HEAD];
            first <= NBUF
            && Linked(next[i := first][HEAD := i], prev[i := HEAD][first := i], [i] + order)
  {
    var first := next[HEAD];
    assert first == At(order, 1) by { assert next[At(order, 0)] == At(order, 1); }
    var next', prev' := next[i := first][HEAD := i], prev[i := HEAD][first := i];
    var all := [i] + order;
    forall k | 0 <= k <= |all|
      ensures next'[At(all, k)] == At(all, k + 1) && prev'[At(all, k + 1)] == At(all, k)
    {
      if k >= 1 {
        assert At(all, k + 1) == At(order, k);
        if k >= 2 {
          assert At(all, k) == At(order, k - 1);
          assert next[At(order, k - 1)] == At(order, k) && prev[At(order, k)] == At(order, k - 1);
          AtDistinct(order, k, 1);
        }
      }
    }
  }

  class Bcache {
    // struct buf, field by field
    const dev: array<nat>
    const blockno: array<nat>
    const valid: array<bool>
    const refcnt: array<nat>
    const next: array<nat>
    const prev: array<nat>

    ghost var order: seq<nat>
    ghost var stamp: seq<nat>
    ghost var clock: nat

    ghost predicate Valid()
      reads this, dev, blockno, valid, refcnt, next, prev
    {
      && dev.Length == blockno.Length == valid.Length == refcnt.Length == NBUF
      && dev != blockno && dev != refcnt && blockno != refcnt
      && next.Length == prev.Length == NBUF + 1
      && next != prev && next != dev && next != blockno && next != refcnt
      && prev != dev && prev != blockno && prev != refcnt
      && Linked(next[..], prev[..], order)
      && |order| == NBUF && (forall i :: 0 <= i < NBUF ==> i in order)
      && |stamp| == NBUF && (forall i :: 0 <= i < NBUF ==> stamp[i] < clock)
      && (forall a, b :: 0 <= a < b < NBUF ==> stamp[order[a]] > stamp[order[b]])
    }

    ghost predicate Caches(i: nat, d: nat, b: nat)
      reads dev, blockno
      requires dev.Length == blockno.Length == NBUF && i < NBUF
    {
      dev[i] == d && blockno[i] == b
    }

    /** binit: empty list, then push every buffer. */
    constructor ()
      ensures Valid() && fresh(dev) && fresh(blockno) && fresh(valid) && fresh(refcnt) && fresh(next) && fresh(prev)
      ensures forall i :: 0 <= i < NBUF ==> dev[i] == 0 && blockno[i] == 0 && !valid[i] && refcnt[i] == 0
    {
      dev := new nat[NBUF](_ => 0);
      blockno := new nat[NBUF](_ => 0);
      valid := new bool[NBUF](_ => false);
      refcnt := new nat[NBUF](_ => 0);
      next := new nat[NBUF + 1](_ => HEAD);
      prev := new nat[NBUF + 1](_ => HEAD);
      order := [];
      stamp := seq(NBUF, i => i);
      clock := NBUF;
      new;
      assert next[..][HEAD] == HEAD && prev[..][HEAD] == HEAD;
      var b := 0;
      while b < NBUF
        invariant b <= NBUF
        invariant Linked(next[..], prev[..], order)
        invariant |order| == b && forall k :: 0 <= k < b ==> order[k] == b - 1 - k
        invariant stamp == seq(NBUF, i => i) && clock == NBUF
        invariant forall i :: 0 <= i < NBUF ==> dev[i] == 0 && blockno[i] == 0 && !valid[i] && refcnt[i] == 0
      {
        PushFront(b);
        b := b + 1;
      }
      forall i | 0 <= i < NBUF
        ensures i in order
      {
        assert order[NBUF - 1 - i] == i;
      }
    }

    /** The four assignments that put b behind the sentinel. */
    method PushFront(b: nat)
      requires b < NBUF && b !in order && next != prev
      requires next.Length == prev.Length == NBUF + 1 && Linked(next[..], prev[..], order)
      modifies next, prev, `order
      ensures order == [b] + old(order) && Linked(next[..], prev[..], order)
    {
      PushKeeps(next[..], prev[..], order, b);
      ghost var n0: seq<nat>, p0: seq<nat>, first: nat := next[..], prev[..], next[HEAD];
      next[b] := next[HEAD];
      prev[b] := HEAD;
      prev[next[HEAD]] := b;
      next[HEAD] := b;
      assert next[..] == n0[b := first][HEAD := b];
      assert prev[..] == p0[b := HEAD][first := b];
      order := [b] + order;
    }

    /** bget under bcache.lock.  A cached block gains a reference; otherwise the least
        recently used unreferenced buffer is recycled; with none, "bget: no buffers". */
    method Bget(d: nat, b: nat) returns (f: Found)
      requires Valid()
      modifies dev, blockno, valid, refcnt
      ensures Valid() && order == old(order) && stamp == old(stamp)
      ensures f.NoBuffers? ==> forall i :: 0 <= i < NBUF ==> old(!Caches(i, d, b) && refcnt[i] != 0)
      ensures f.Hit? ==> f.i < NBUF && old(Caches(f.i, d, b))
                         && refcnt[..] == old(refcnt[..])[f.i := old(refcnt[f.i]) + 1]
                         && dev[..] == old(dev[..]) && blockno[..] == old(blockno[..]) && valid[..] == old(valid[..])
      ensures f.Recycled? ==> f.i < NBUF && old(refcnt[f.i]) == 0
                              && (forall i :: 0 <= i < NBUF ==> !old(Caches(i, d, b)))
                              && (forall i :: 0 <= i < NBUF && old(refcnt[i]) == 0 ==> stamp[f.i] <= stamp[i])
                              && refcnt[..] == old(refcnt[..])[f.i := 1] && dev[..] == old(dev[..])[f.i := d]
                              && blockno[..] == old(blockno[..])[f.i := b] && valid[..] == old(valid[..])[f.i := false]
      ensures f.NoBuffers? ==> refcnt[..] == old(refcnt[..])
    {
      var p := FindCached(d, b);
      if p != HEAD {
        refcnt[p] := refcnt[p] + 1;
        assert next[..] == old(next[..]) && prev[..] == old(prev[..]);
        return Hit(p);
      }
      forall i | 0 <= i < NBUF
        ensures !old(Caches(i, d, b))
      {
        assert !Caches(i, d, b);
      }
      p := FindUnused();
      assert p != HEAD ==> forall i :: 0 <= i < NBUF && old(refcnt[i]) == 0 ==> stamp[p] <= stamp[i];
      if p != HEAD {
        dev[p] := d;
        blockno[p] := b;
        valid[p] := false;
        refcnt[p] := 1;
        assert next[..] == old(next[..]) && prev[..] == old(prev[..]);
        assert refcnt[..] == old(refcnt[..])[p := 1] && dev[..] == old(dev[..])[p := d];
        assert blockno[..] == old(blockno[..])[p := b] && valid[..] == old(valid[..])[p := false];
        return Recycled(p);
      }
      return NoBuffers;
    }

    /** The forward scan of bget. */
    method FindCached(d: nat, b: nat) returns (p: nat)
      requires Valid()
      ensures p == HEAD ==> forall i :: 0 <= i < NBUF ==> !Caches(i, d, b)
      ensures p != HEAD ==> p < NBUF && Caches(p, d, b)
    {
      ghost var k := 1;           // position of p in the ring
      p := next[HEAD];
      assert next[..][At(order, 0)] == At(order, 1);
      while p != HEAD && !(dev[p] == d && blockno[p] == b)
        invariant 1 <= k <= NBUF + 1 && p == At(order, k)
        invariant forall a :: 0 <= a < k - 1 ==> !Caches(order[a], d, b)
        decreases NBUF + 1 - k
      {
        assert next[..][At(order, k)] == At(order, k + 1);
        p := next[p];
        k := k + 1;
      }
      if p == HEAD {
        forall i | 0 <= i < NBUF
          ensures !Caches(i, d, b)
        {
          var a := Position(order, i);
        }
      }
    }

    /** The backward scan of bget: the least recently used buffer without references. */
    method FindUnused() returns (p: nat)
      requires Valid()
      ensures p == HEAD ==> forall i :: 0 <= i < NBUF ==> refcnt[i] != 0
      ensures p != HEAD ==> p < NBUF && refcnt[p] == 0
                            && forall i :: 0 <= i < NBUF && refcnt[i] == 0 ==> stamp[p] <= stamp[i]
    {
      ghost var k: nat := NBUF;
      p := prev[HEAD];
      assert prev[..][At(order, NBUF + 1)] == At(order, NBUF);
      while p != HEAD && refcnt[p] != 0
        invariant 0 <= k <= NBUF && p == At(order, k)
        invariant forall a :: k <= a < NBUF ==> refcnt[order[a]] != 0
        decreases k
      {
        assert prev[..][At(order, k)] == At(order, k - 1);
        p := prev[p];
        k := k - 1;
      }
      forall i | 0 <= i < NBUF && refcnt[i] == 0
        ensures p != HEAD && stamp[p] <= stamp[i]
      {
        var a := Position(order, i);
      }
    }

    /** brelse under bcache.lock: the last user moves the buffer to the front. */
    method Brelse(b: nat)
      requires Valid() && b < NBUF && refcnt[b] > 0
      modifies refcnt, next, prev, `order, `stamp, `clock
      ensures Valid()
      ensures refcnt[..] == old(refcnt[..])[b := old(refcnt[b]) - 1]
      ensures refcnt[b] > 0 ==> order == old(order) && stamp == old(stamp)
      ensures refcnt[b] == 0 ==> order[0] == b && stamp == old(stamp)[b := old(clock)]
      ensures forall i, j :: 0 <= i < NBUF && 0 <= j < NBUF && i != b && j != b
                             ==> (stamp[i] < stamp[j] <==> old(stamp[i] < stamp[j]))
    {
      hide At, Without, Linked, Distinct;
      refcnt[b] := refcnt[b] - 1;
      if refcnt[b] == 0 {
        ghost var m := Position(order, b);
        ghost var was := order;
        LinkedOrder(next[..], prev[..], order);
        Unlink(b, m);
        PushFront(b);
        FrontListed(was, m, order);
        FrontSorted(was, m, order, stamp, clock);
        stamp, clock := stamp[b := clock], clock + 1;
      }
    }

    /** b->next->prev = b->prev and b->prev->next = b->next. */
    method Unlink(b: nat, ghost m: nat)
      requires m < |order| && order[m] == b && next != prev
      requires next.Length == prev.Length == NBUF + 1 && Linked(next[..], prev[..], order)
      modifies next, prev, `order
      ensures order == Without(old(order), m) && Linked(next[..], prev[..], order)
      ensures b !in order
    {
      UnlinkKeeps(next[..], prev[..], order, m);
      ghost var n0: seq<nat>, p0: seq<nat> := next[..], prev[..];
      prev[next[b]] := prev[b];
      next[prev[b]] := next[b];
      assert prev[..] == p0[n0[b] := p0[b]];
      assert next[..] == n0[p0[b] := n0[b]];
      order := Without(order, m);
    }

    method Bpin(b: nat)
      requires Valid() && b < NBUF
      modifies refcnt
      ensures Valid() && refcnt[..] == old(refcnt[..])[b := old(refcnt[b]) + 1]
    {
      refcnt[b] := refcnt[b] + 1;
    }

    method Bunpin(b: nat)
      requires Valid() && b < NBUF && refcnt[b] > 0
      modifies refcnt
      ensures Valid() && refcnt[..] == old(refcnt[..])[b := old(refcnt[b]) - 1]
    {
      refcnt[b] := refcnt[b] - 1;
    }
  }

  /** Moving position m to the front keeps every buffer listed exactly once. */
  lemma LinkedOrder(next: seq<nat>, prev: seq<nat>, order: seq<nat>)
    requires Linked(next, prev, order)
    ensures Distinct(order) && forall k :: 0 <= k < |order| ==> order[k] < NBUF
  {
  }

  lemma FrontListed(was: seq<nat>, m: nat, order: seq<nat>)
    requires m < |was| && order == [was[m]] + Without(was, m)
    ensures |order| == |was| && forall i :: i in was ==> i in order
    ensures forall a :: 1 <= a < |order| ==> order[a] == if a <= m then was[a - 1] else was[a]
  {
    forall i | i in was
      ensures i in order
    {
      var a :| 0 <= a < |was| && was[a] == i;
      if a < m {
        assert order[a + 1] == i;
      } else if a > m {
        assert order[a] == i;
      }
    }
  }

  /** ... and, stamped with a new time, in order of release. */
  lemma FrontSorted(was: seq<nat>, m: nat, order: seq<nat>, stamp: seq<nat>, clock: nat)
    requires m < |was| && order == [was[m]] + Without(was, m) && Distinct(was)
    requires (forall k :: 0 <= k < |was| ==> was[k] < |stamp|) && forall i :: 0 <= i < |stamp| ==> stamp[i] < clock
    requires forall a, b :: 0 <= a < b < |was| ==> stamp[was[a]] > stamp[was[b]]
    ensures |order| == |was| && forall k :: 0 <= k < |order| ==> order[k] < |stamp|
    ensures forall a, b :: 0 <= a < b < |order| ==> stamp[was[m] := clock][order[a]] > stamp[was[m] := clock][order[b]]
  {
    forall a, b | 0 <= a < b < |order|
      ensures stamp[was[m] := clock][order[a]] > stamp[was[m] := clock][order[b]]
    {
      assert order[b] == if b <= m then was[b - 1] else was[b];
      if a > 0 {
        assert order[a] == if a <= m then was[a - 1] else was[a];
      }
    }
  }
}
