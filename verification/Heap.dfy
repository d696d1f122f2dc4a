/** The user-level allocator of user/umalloc.c (Kernighan and Ritchie).

    Addresses count headers: one unit is sizeof(Header).  0 is the null pointer, BASE the
    static header, and everything sbrk hands out lies above BASE.  `hdr` is memory as the
    allocator sees it: the header at each address where one was written.
 */
module Heap {

  const BASE: nat := 1
  const UNIT := 16                  // sizeof(Header)
  const INT := 0x8000_0000          // sbrk takes a positive int

  datatype Header = Header(ptr: nat, size: nat)

  type Headers = map<nat, Header>

  // ---------------------------------------------------------------- the free list

  ghost predicate Sorted(list: seq<nat>) {
    forall i, j :: 0 <= i < j < |list| ==> list[i] < list[j]
  }

  function NextOf(list: seq<nat>, i: nat): nat
    requires i < |list|
  {
    if i + 1 < |list| then list[i + 1] else list[0]
  }

  ghost predicate LinkOk(hdr: Headers, list: seq<nat>, i: nat)
    requires i < |list|
  {
    list[i] in hdr && hdr[list[i]].ptr == NextOf(list, i)
  }

  /** A circular list in address order, from BASE round to BASE. */
  ghost predicate ListOk(hdr: Headers, list: seq<nat>) {
    && |list| > 0 && list[0] == BASE && Sorted(list)
    && (forall i {:trigger LinkOk(hdr, list, i)} :: 0 <= i < |list| ==> LinkOk(hdr, list, i))
    && BASE in hdr && hdr[BASE].size == 0
  }

  /** The i-th element does not end where the next one begins. */
  ghost predicate Apart(hdr: Headers, list: seq<nat>, i: nat)
    requires i < |list| - 1 && list[i] in hdr
  {
    list[i] + hdr[list[i]].size != list[i + 1]
  }

  /** No two neighbours could be merged. */
  ghost predicate Coalesced(hdr: Headers, list: seq<nat>) {
    forall i {:trigger Apart(hdr, list, i)} :: 0 <= i < |list| - 1 ==> list[i] in hdr && Apart(hdr, list, i)
  }

  function Inserted(list: seq<nat>, t: nat, b: nat): (r: seq<nat>)
    requires t < |list|
  {
    list[..t + 1] + [b] + list[t + 1..]
  }

  lemma InsertedAt(list: seq<nat>, t: nat, b: nat, i: nat)
    requires t < |list| && i <= |list|
    ensures |Inserted(list, t, b)| == |list| + 1
    ensures Inserted(list, t, b)[i] == if i <= t then list[i] else if i == t + 1 then b else list[i - 1]
  {
  }

  function Removed(list: seq<nat>, t: nat): (r: seq<nat>)
    requires t < |list|
    ensures |r| == |list| - 1
  {
    list[..t] + list[t + 1..]
  }

  lemma RemovedAt(list: seq<nat>, t: nat, i: nat)
    requires t < |list| && i < |list| - 1
    ensures Removed(list, t)[i] == if i < t then list[i] else list[i + 1]
  {
  }

  /** b belongs right after list[t]. */
  ghost predicate Place(list: seq<nat>, t: nat, b: nat) {
    t < |list| && list[t] < b && (t + 1 < |list| ==> b < list[t + 1])
  }

  lemma InsertSorted(list: seq<nat>, t: nat, b: nat)
    requires Sorted(list) && Place(list, t, b)
    ensures Sorted(Inserted(list, t, b)) && b !in list
  {
    var r := Inserted(list, t, b);
    forall i, j | 0 <= i < j < |r|
      ensures r[i] < r[j]
    {
      InsertedAt(list, t, b, i);
      InsertedAt(list, t, b, j);
    }
    forall i | 0 <= i < |list|
      ensures list[i] != b
    {
    }
  }

  /** p->ptr = bp, once bp->ptr = p->ptr. */
  lemma InsertKeeps(hdr: Headers, list: seq<nat>, t: nat, b: nat)
    requires ListOk(hdr, list) && Place(list, t, b) && b in hdr
    ensures list[t] in hdr
    ensures var hdr' := hdr[b := hdr[b].(ptr := NextOf(list, t))][list[t] := hdr[list[t]].(ptr := b)];
            ListOk(hdr', Inserted(list, t, b))
  {
    assert LinkOk(hdr, list, t);
    var r := Inserted(list, t, b);
    var hdr' := hdr[b := hdr[b].(ptr := NextOf(list, t))][list[t] := hdr[list[t]].(ptr := b)];
    InsertSorted(list, t, b);
    InsertedAt(list, t, b, 0);
    forall i | 0 <= i < |r|
      ensures LinkOk(hdr', r, i)
    {
      InsertedAt(list, t, b, i);
      if i < |list| {
        InsertedAt(list, t, b, i + 1);
      }
      if i != t + 1 {
        assert LinkOk(hdr, list, if i <= t then i else i - 1);
      }
    }
  }

  lemma RemoveSorted(list: seq<nat>, t: nat)
    requires Sorted(list) && t < |list|
    ensures Sorted(Removed(list, t))
  {
    var r := Removed(list, t);
    forall i, j | 0 <= i < j < |r|
      ensures r[i] < r[j]
    {
      RemovedAt(list, t, i);
      RemovedAt(list, t, j);
    }
  }

  /** Unlinking list[t + 1], whatever the size of its predecessor becomes. */
  lemma RemoveKeeps(hdr: Headers, list: seq<nat>, t: nat, size: nat)
    requires ListOk(hdr, list) && t + 1 < |list| && (t == 0 ==> size == 0)
    ensures list[t + 1] in hdr && ListOk(hdr[list[t] := Header(hdr[list[t + 1]].ptr, size)], Removed(list, t + 1))
  {
    assert LinkOk(hdr, list, t + 1);
    var r, hdr' := Removed(list, t + 1), hdr[list[t] := Header(hdr[list[t + 1]].ptr, size)];
    RemoveSorted(list, t + 1);
    RemovedAt(list, t + 1, 0);
    forall i | 0 <= i < |r|
      ensures LinkOk(hdr', r, i)
    {
      var j := if i <= t then i else i + 1;
      assert LinkOk(hdr, list, j);
      assert j != t ==> list[j] != list[t];
      RemovedLink(hdr, list, t, size, i);
    }
    assert t > 0 ==> list[0] < list[t];
  }

  lemma RemovedLink(hdr: Headers, list: seq<nat>, t: nat, size: nat, i: nat)
    requires t + 1 < |list| && i < |list| - 1 && LinkOk(hdr, list, t + 1)
    requires var j := if i <= t then i else i + 1; LinkOk(hdr, list, j) && (j != t ==> list[j] != list[t])
    ensures LinkOk(hdr[list[t] := Header(hdr[list[t + 1]].ptr, size)], Removed(list, t + 1), i)
  {
    RemovedAt(list, t + 1, i);
    if i + 1 < |list| - 1 {
      RemovedAt(list, t + 1, i + 1);
    }
    RemovedAt(list, t + 1, 0);
  }

  // ---------------------------------------------------------------- blocks

  ghost predicate BlockOk(hdr: Headers, owner: map<nat, nat>, a: nat) {
    BASE < a && a in hdr && hdr[a].size > 0 && forall u :: a <= u < a + hdr[a].size ==> u in owner && owner[u] == a
  }

  ghost predicate UnitOk(hdr: Headers, blocks: set<nat>, owner: map<nat, nat>, u: nat)
    requires u in owner
  {
    owner[u] in blocks && owner[u] in hdr && owner[u] <= u < owner[u] + hdr[owner[u]].size
  }

  /** The blocks partition the units in `owner`, which tells each unit's block. */
  ghost predicate BlocksOk(hdr: Headers, blocks: set<nat>, owner: map<nat, nat>) {
    && (forall a {:trigger BlockOk(hdr, owner, a)} :: a in blocks ==> BlockOk(hdr, owner, a))
    && (forall u {:trigger UnitOk(hdr, blocks, owner, u)} :: u in owner ==> UnitOk(hdr, blocks, owner, u))
  }

  function Given(owner: map<nat, nat>, b: nat, a: nat): (r: map<nat, nat>) {
    map u | u in owner :: if owner[u] == b then a else owner[u]
  }

  /** Block b is absorbed by the block a that ends where it begins. */
  lemma MergeBlocks(hdr: Headers, blocks: set<nat>, owner: map<nat, nat>, a: nat, b: nat, ptr: nat)
    requires BlocksOk(hdr, blocks, owner) && a in blocks && b in blocks && a in hdr && b in hdr && a + hdr[a].size == b
    ensures BlocksOk(hdr[a := Header(ptr, hdr[a].size + hdr[b].size)], blocks - {b}, Given(owner, b, a))
  {
    var hdr', blocks', owner' := hdr[a := Header(ptr, hdr[a].size + hdr[b].size)], blocks - {b}, Given(owner, b, a);
    assert BlockOk(hdr, owner, a) && BlockOk(hdr, owner, b);
    forall x | x in blocks'
      ensures BlockOk(hdr', owner', x)
    {
      assert BlockOk(hdr, owner, x);
    }
    forall u | u in owner'
      ensures UnitOk(hdr', blocks', owner', u)
    {
      assert UnitOk(hdr, blocks, owner, u);
    }
  }

  function Carved(owner: map<nat, nat>, q: nat, n: nat): (r: map<nat, nat>) {
    map u | u in owner :: if q <= u < q + n then q else owner[u]
  }

  /** The last n units of block a become a block of their own. */
  lemma SplitBlock(hdr: Headers, blocks: set<nat>, owner: map<nat, nat>, a: nat, n: nat, ptr: nat)
    requires BlocksOk(hdr, blocks, owner) && a in blocks && a in hdr && 0 < n < hdr[a].size
    ensures var q := a + hdr[a].size - n;
            q !in blocks && BlocksOk(CarvedHdr(hdr, a, n, ptr), blocks + {q}, Carved(owner, q, n))
  {
    var q := a + hdr[a].size - n;
    var hdr', blocks', owner' := CarvedHdr(hdr, a, n, ptr), blocks + {q}, Carved(owner, q, n);
    assert BlockOk(hdr, owner, a);
    assert owner[q] == a;
    assert q in blocks ==> BlockOk(hdr, owner, q);
    forall x | x in blocks'
      ensures BlockOk(hdr', owner', x)
    {
      assert x in blocks ==> BlockOk(hdr, owner, x);
    }
    forall u | u in owner'
      ensures UnitOk(hdr', blocks', owner', u)
    {
      assert UnitOk(hdr, blocks, owner, u);
    }
  }

  predicate Within(u: nat, g: nat, n: nat) {
    g <= u < g + n
  }

  function Grown(owner: map<nat, nat>, g: nat, n: nat): (r: map<nat, nat>) {
    owner + map u: nat | u < g + n && Within(u, g, n) :: g
  }

  /** New units from sbrk. */
  lemma AddBlock(hdr: Headers, blocks: set<nat>, owner: map<nat, nat>, g: nat, n: nat, ptr: nat)
    requires BlocksOk(hdr, blocks, owner) && 0 < n && BASE < g && forall u :: u in owner ==> u < g
    ensures g !in blocks && BlocksOk(hdr[g := Header(ptr, n)], blocks + {g}, Grown(owner, g, n))
  {
    var hdr', blocks', owner' := hdr[g := Header(ptr, n)], blocks + {g}, Grown(owner, g, n);
    assert g !in blocks by {
      assert g !in owner && (g in blocks ==> BlockOk(hdr, owner, g));
    }
    assert forall u :: u in owner ==> u in owner' && owner'[u] == owner[u];
    forall x | x in blocks'
      ensures BlockOk(hdr', owner', x)
    {
      if x != g {
        assert BlockOk(hdr, owner, x);
      } else {
        assert forall u :: g <= u < g + n ==> Within(u, g, n);
      }
    }
    forall u | u in owner'
      ensures UnitOk(hdr', blocks', owner', u)
    {
      if u in owner {
        assert UnitOk(hdr, blocks, owner, u) && owner'[u] == owner[u];
      } else {
        assert Within(u, g, n) && owner'[u] == g;
      }
    }
  }

  // ---------------------------------------------------------------- the heap

  ghost function FreeSet(list: seq<nat>): set<nat> {
    set i | 1 <= i < |list| :: list[i]
  }

  ghost predicate LiveOk(hdr: Headers, live: map<nat, nat>) {
    forall a :: a in live ==> a in hdr && hdr[a].size == live[a]
  }

  /** Every unit lies in exactly one free or live block. */
  ghost predicate Sound(hdr: Headers, list: seq<nat>, live: map<nat, nat>, owner: map<nat, nat>) {
    && ListOk(hdr, list) && BlocksOk(hdr, FreeSet(list) + live.Keys, owner)
    && FreeSet(list) !! live.Keys && LiveOk(hdr, live)
  }

  ghost predicate ApartExcept(hdr: Headers, list: seq<nat>, lo: nat, hi: nat) {
    forall i {:trigger Apart(hdr, list, i)} :: 0 <= i < |list| - 1 && !(lo <= i < hi) ==>
           list[i] in hdr && Apart(hdr, list, i)
  }

  lemma BlocksFrame(hdr: Headers, hdr': Headers, blocks: set<nat>, owner: map<nat, nat>)
    requires BlocksOk(hdr, blocks, owner)
    requires forall a :: a in blocks ==> a in hdr && a in hdr' && hdr'[a].size == hdr[a].size
    ensures BlocksOk(hdr', blocks, owner)
  {
    forall a | a in blocks
      ensures BlockOk(hdr', owner, a)
    {
      assert BlockOk(hdr, owner, a);
    }
    forall u | u in owner
      ensures UnitOk(hdr', blocks, owner, u)
    {
      assert UnitOk(hdr, blocks, owner, u);
    }
  }

  function LinkedHdr(hdr: Headers, list: seq<nat>, t: nat, b: nat): (r: Headers)
    requires t < |list| && list[t] in hdr && b in hdr
  {
    hdr[b := hdr[b].(ptr := NextOf(list, t))][list[t] := hdr[list[t]].(ptr := b)]
  }

  lemma InsertedSet(list: seq<nat>, t: nat, b: nat)
    requires t < |list|
    ensures FreeSet(Inserted(list, t, b)) == FreeSet(list) + {b}
  {
    var r := Inserted(list, t, b);
    forall x | x in FreeSet(list) + {b}
      ensures x in FreeSet(r)
    {
      var i := if x in FreeSet(list) then (var j :| 1 <= j < |list| && list[j] == x; if j <= t then j else j + 1)
               else t + 1;
      InsertedAt(list, t, b, i);
      assert r[i] == x;
    }
    forall x | x in FreeSet(r)
      ensures x in FreeSet(list) + {b}
    {
      var i :| 1 <= i < |r| && r[i] == x;
      InsertedAt(list, t, b, i);
    }
  }

  lemma RemovedSet(list: seq<nat>, t: nat)
    requires Sorted(list) && 1 <= t < |list|
    ensures FreeSet(Removed(list, t)) == FreeSet(list) - {list[t]}
  {
    var r := Removed(list, t);
    forall x | x in FreeSet(list) - {list[t]}
      ensures x in FreeSet(r)
    {
      var j :| 1 <= j < |list| && list[j] == x;
      var i := if j < t then j else j - 1;
      RemovedAt(list, t, i);
      assert r[i] == x;
    }
    forall x | x in FreeSet(r)
      ensures x in FreeSet(list) - {list[t]}
    {
      var i :| 1 <= i < |r| && r[i] == x;
      RemovedAt(list, t, i);
    }
  }

  /** A live block joins the free list. */
  lemma InsertSound(hdr: Headers, list: seq<nat>, live: map<nat, nat>, owner: map<nat, nat>, t: nat, b: nat)
    requires Sound(hdr, list, live, owner) && Coalesced(hdr, list) && b in live && Place(list, t, b)
    ensures list[t] in hdr && b in hdr && Sound(LinkedHdr(hdr, list, t, b), Inserted(list, t, b), live - {b}, owner)
    ensures ApartExcept(LinkedHdr(hdr, list, t, b), Inserted(list, t, b), t, t + 2)
  {
    InsertKeeps(hdr, list, t, b);
    InsertedSet(list, t, b);
    var hdr', r := LinkedHdr(hdr, list, t, b), Inserted(list, t, b);
    assert FreeSet(r) + (live - {b}).Keys == FreeSet(list) + live.Keys;
    forall a | a in FreeSet(list) + live.Keys
      ensures a in hdr && a in hdr' && hdr'[a].size == hdr[a].size
    {
      assert BlockOk(hdr, owner, a);
    }
    BlocksFrame(hdr, hdr', FreeSet(list) + live.Keys, owner);
    forall i | 0 <= i < |r| - 1 && !(t <= i < t + 2)
      ensures r[i] in hdr' && Apart(hdr', r, i)
    {
      InsertedAt(list, t, b, i);
      InsertedAt(list, t, b, i + 1);
      assert Apart(hdr, list, if i < t then i else i - 1);
    }
  }

  function JoinedHdr(hdr: Headers, list: seq<nat>, k: nat): (r: Headers)
    requires k + 1 < |list| && list[k] in hdr && list[k + 1] in hdr
  {
    hdr[list[k] := Header(hdr[list[k + 1]].ptr, hdr[list[k]].size + hdr[list[k + 1]].size)]
  }

  /** Two adjacent free blocks become one. */
  lemma JoinSound(hdr: Headers, list: seq<nat>, live: map<nat, nat>, owner: map<nat, nat>, k: nat)
    requires Sound(hdr, list, live, owner) && 1 <= k && k + 1 < |list| && list[k] in hdr && list[k + 1] in hdr
             && !Apart(hdr, list, k)
    ensures Sound(JoinedHdr(hdr, list, k), Removed(list, k + 1), live, Given(owner, list[k + 1], list[k]))
  {
    var a, b := list[k], list[k + 1];
    assert a in FreeSet(list) && b in FreeSet(list);
    RemoveKeeps(hdr, list, k, hdr[a].size + hdr[b].size);
    RemovedSet(list, k + 1);
    MergeBlocks(hdr, FreeSet(list) + live.Keys, owner, a, b, hdr[b].ptr);
    assert FreeSet(Removed(list, k + 1)) + live.Keys == (FreeSet(list) + live.Keys) - {b};
  }

  lemma JoinApart(hdr: Headers, list: seq<nat>, k: nat, lo: nat)
    requires ListOk(hdr, list) && k + 1 < |list| && list[k] in hdr && list[k + 1] in hdr && !Apart(hdr, list, k)
    requires lo <= k && ApartExcept(hdr, list, lo, k + 1)
    ensures ApartExcept(JoinedHdr(hdr, list, k), Removed(list, k + 1), lo, k)
  {
    var hdr', r := JoinedHdr(hdr, list, k), Removed(list, k + 1);
    forall i | 0 <= i < |r| - 1 && !(lo <= i < k)
      ensures r[i] in hdr' && Apart(hdr', r, i)
    {
      RemovedAt(list, k + 1, i);
      RemovedAt(list, k + 1, i + 1);
      var j := if i < k then i else i + 1;
      assert LinkOk(hdr, list, j);
      assert Apart(hdr, list, j);
    }
  }

  /** Free blocks do not overlap their successors. */
  lemma FreeInOrder(hdr: Headers, list: seq<nat>, live: map<nat, nat>, owner: map<nat, nat>, i: nat)
    requires Sound(hdr, list, live, owner) && i + 1 < |list| && list[i] in hdr
    ensures list[i] + hdr[list[i]].size <= list[i + 1]
  {
    if i > 0 {
      assert list[i] in FreeSet(list) && list[i + 1] in FreeSet(list);
      assert BlockOk(hdr, owner, list[i]) && BlockOk(hdr, owner, list[i + 1]);
      assert owner[list[i + 1]] == list[i + 1];
    }
  }

  function UnlinkedHdr(hdr: Headers, list: seq<nat>, k: nat): (r: Headers)
    requires 1 <= k < |list| && list[k] in hdr && list[k - 1] in hdr
  {
    hdr[list[k - 1] := hdr[list[k - 1]].(ptr := hdr[list[k]].ptr)]
  }

  /** malloc takes the free block list[k] as it is. */
  lemma TakeWhole(hdr: Headers, list: seq<nat>, live: map<nat, nat>, owner: map<nat, nat>, k: nat)
    requires Sound(hdr, list, live, owner) && 1 <= k < |list| && list[k] in hdr && list[k - 1] in hdr
    ensures list[k] !in live
            && Sound(UnlinkedHdr(hdr, list, k), Removed(list, k), live[list[k] := hdr[list[k]].size], owner)
  {
    var hdr', live', r := UnlinkedHdr(hdr, list, k), live[list[k] := hdr[list[k]].size], Removed(list, k);
    assert list[k] in FreeSet(list);
    RemoveKeeps(hdr, list, k - 1, hdr[list[k - 1]].size);
    RemovedSet(list, k);
    assert FreeSet(r) + live'.Keys == FreeSet(list) + live.Keys;
    forall a | a in FreeSet(list) + live.Keys
      ensures a in hdr && a in hdr' && hdr'[a].size == hdr[a].size
    {
      assert BlockOk(hdr, owner, a);
    }
    BlocksFrame(hdr, hdr', FreeSet(list) + live.Keys, owner);
  }

  lemma TakeWholeApart(hdr: Headers, list: seq<nat>, live: map<nat, nat>, owner: map<nat, nat>, k: nat)
    requires Sound(hdr, list, live, owner) && Coalesced(hdr, list) && 1 <= k < |list| && list[k] in hdr
             && list[k - 1] in hdr
    ensures Coalesced(UnlinkedHdr(hdr, list, k), Removed(list, k))
  {
    var hdr', r := UnlinkedHdr(hdr, list, k), Removed(list, k);
    FreeInOrder(hdr, list, live, owner, k - 1);
    forall i | 0 <= i < |r| - 1
      ensures r[i] in hdr' && Apart(hdr', r, i)
    {
      RemovedAt(list, k, i);
      RemovedAt(list, k, i + 1);
      var j := if i < k then i else i + 1;
      assert LinkOk(hdr, list, j);
      assert Apart(hdr, list, j);
    }
  }

  function CarvedHdr(hdr: Headers, p: nat, n: nat, ptr: nat): (r: Headers)
    requires p in hdr && n <= hdr[p].size
  {
    hdr[p := hdr[p].(size := hdr[p].size - n)][p + hdr[p].size - n := Header(ptr, n)]
  }

  /** malloc takes the last n units of the free block list[k]. */
  lemma TakeTail(hdr: Headers, list: seq<nat>, live: map<nat, nat>, owner: map<nat, nat>, k: nat, n: nat, ptr: nat)
    requires Sound(hdr, list, live, owner) && 1 <= k < |list| && list[k] in hdr && 0 < n < hdr[list[k]].size
    ensures var q := list[k] + hdr[list[k]].size - n;
            q !in live && Sound(CarvedHdr(hdr, list[k], n, ptr), list, live[q := n], Carved(owner, q, n))
  {
    var p := list[k];
    var q := p + hdr[p].size - n;
    var hdr' := CarvedHdr(hdr, p, n, ptr);
    assert p in FreeSet(list);
    SplitBlock(hdr, FreeSet(list) + live.Keys, owner, p, n, ptr);
    TailList(hdr, list, p, n, ptr);
    assert FreeSet(list) + live[q := n].Keys == FreeSet(list) + live.Keys + {q};
    forall a | a in live[q := n]
      ensures a in hdr' && hdr'[a].size == live[q := n][a]
    {
      assert a != q ==> a in live && a != p;
    }
  }

  lemma TailList(hdr: Headers, list: seq<nat>, p: nat, n: nat, ptr: nat)
    requires ListOk(hdr, list) && p in FreeSet(list) && p in hdr && n < hdr[p].size
             && p + hdr[p].size - n !in FreeSet(list)
    ensures ListOk(CarvedHdr(hdr, p, n, ptr), list)
  {
    forall i | 0 <= i < |list|
      ensures LinkOk(CarvedHdr(hdr, p, n, ptr), list, i)
    {
      assert LinkOk(hdr, list, i);
      assert i > 0 ==> list[i] in FreeSet(list);
    }
  }

  lemma TakeTailApart(hdr: Headers, list: seq<nat>, live: map<nat, nat>, owner: map<nat, nat>, k: nat, n: nat, ptr: nat)
    requires Sound(hdr, list, live, owner) && Coalesced(hdr, list) && 1 <= k < |list| && list[k] in hdr
             && 0 < n < hdr[list[k]].size
    requires forall i :: 0 <= i < |list| ==> list[i] != list[k] + hdr[list[k]].size - n
    ensures Coalesced(CarvedHdr(hdr, list[k], n, ptr), list)
  {
    var hdr' := CarvedHdr(hdr, list[k], n, ptr);
    if k + 1 < |list| {
      FreeInOrder(hdr, list, live, owner, k);
    }
    forall i | 0 <= i < |list| - 1
      ensures list[i] in hdr' && Apart(hdr', list, i)
    {
      assert LinkOk(hdr, list, i);
      assert Apart(hdr, list, i);
    }
  }

  /** A new live block from sbrk. */
  lemma TakeNew(hdr: Headers, list: seq<nat>, live: map<nat, nat>, owner: map<nat, nat>, g: nat, n: nat, ptr: nat)
    requires Sound(hdr, list, live, owner) && Coalesced(hdr, list) && 0 < n && BASE < g && forall u :: u in owner ==>
               u < g
    ensures var hdr' := hdr[g := Header(ptr, n)];
            g !in live && Sound(hdr', list, live[g := n], Grown(owner, g, n)) && Coalesced(hdr', list)
  {
    var hdr' := hdr[g := Header(ptr, n)];
    AddBlock(hdr, FreeSet(list) + live.Keys, owner, g, n, ptr);
    assert FreeSet(list) + live[g := n].Keys == FreeSet(list) + live.Keys + {g};
    forall i | 0 <= i < |list|
      ensures list[i] != g && LinkOk(hdr', list, i)
    {
      assert LinkOk(hdr, list, i);
      assert i > 0 ==> list[i] in FreeSet(list);
    }
    forall i | 0 <= i < |list| - 1
      ensures list[i] in hdr' && Apart(hdr', list, i)
    {
      assert LinkOk(hdr, list, i);
      assert Apart(hdr, list, i);
    }
  }

  // ---------------------------------------------------------------- searching

  /** Each address above BASE that is not in the list has a place. */
  lemma {:induction false} PlaceExists(list: seq<nat>, b: nat, i: nat) returns (t: nat)
    requires Sorted(list) && b !in list && i < |list| && list[i] < b
    ensures i <= t && Place(list, t, b)
    decreases |list| - i
  {
    t := i;
    if i + 1 < |list| && list[i + 1] < b {
      t := PlaceExists(list, b, i + 1);
    }
  }

  /** The condition on which free stops its search. */
  predicate StopsAt(hdr: Headers, p: nat, b: nat)
    requires p in hdr
  {
    (b > p && b < hdr[p].ptr) || (p >= hdr[p].ptr && (b > p || b < hdr[p].ptr))
  }

  lemma StopsAtPlace(hdr: Headers, list: seq<nat>, i: nat, t: nat, b: nat)
    requires ListOk(hdr, list) && i < |list| && list[i] in hdr && Place(list, t, b) && BASE < b
    ensures StopsAt(hdr, list[i], b) <==> i == t
  {
    assert LinkOk(hdr, list, i);
  }

  function NextIndex(list: seq<nat>, i: nat): nat
    requires i < |list|
  {
    if i + 1 < |list| then i + 1 else 0
  }

  /** Steps round the list from i to t. */
  function Distance(list: seq<nat>, i: nat, t: nat): nat
    requires i < |list| && t < |list|
  {
    if i <= t then t - i else |list| - i + t
  }

  // ---------------------------------------------------------------- the allocator

  datatype Option = None | Some(value: nat)

  /** nunits of a request. */
  function Units(nbytes: nat): nat {
    (nbytes + UNIT - 1) / UNIT + 1
  }

  ghost predicate UnitsBelow(owner: map<nat, nat>, brk: nat) {
    forall u :: u in owner ==> u < brk
  }

  lemma SameUnits(owner: map<nat, nat>, owner': map<nat, nat>, brk: nat)
    requires UnitsBelow(owner, brk) && owner'.Keys == owner.Keys
    ensures UnitsBelow(owner', brk)
  {
    assert forall u :: u in owner' ==> u in owner.Keys;
  }

  /** The list is circular, in address order and coalesced; free and live blocks partition
      the units; freep is somewhere in the list. */
  ghost predicate Good(hdr: Headers, freep: nat, list: seq<nat>, live: map<nat, nat>, owner: map<nat, nat>) {
    freep in list && Sound(hdr, list, live, owner) && Coalesced(hdr, list)
  }

  class Allocator {
    var hdr: Headers
    var freep: nat

    ghost var list: seq<nat>          // the free list from BASE on
    ghost var live: map<nat, nat>     // allocated blocks and their sizes
    ghost var owner: map<nat, nat>    // every unit ever obtained, and the block it lies in
    ghost var brk: nat

    /** Before the first malloc there is nothing; afterwards the list is circular, in
        address order and coalesced, and free and live blocks partition the units. */
    ghost predicate Valid()
      reads this
    {
      && UnitsBelow(owner, brk) && BASE < brk
      && if freep == 0 then list == [] && live == map[] && owner == map[] else Good(hdr, freep, list, live, owner)
    }

    constructor (start: nat)
      requires BASE < start
      ensures Valid() && freep == 0 && brk == start
    {
      hdr, freep := map[], 0;
      list, live, owner, brk := [], map[], map[], start;
    }

    /** free: the block leaves `live`; no unit is gained or lost, and the block that now
        holds it is free and at least as large. */
    method Free(ap: nat)
      requires Valid() && freep != 0 && ap > 0 && ap - 1 in live
      modifies this
      ensures Valid() && freep != 0 && brk == old(brk)
      ensures live == old(live) - {ap - 1} && owner.Keys == old(owner).Keys
      ensures ap - 1 in owner && owner[ap - 1] in FreeSet(list) && owner[ap - 1] in hdr
              && hdr[owner[ap - 1]].size >= old(live)[ap - 1]
    {
      hide StopsAt, FreeSet, LiveOk, UnitsBelow;
      var bp := ap - 1;
      assert BlockOk(hdr, owner, bp);
      ghost var t := Locate(hdr, list, live, owner, bp);
      var p := freep;
      ghost var i: nat :| i < |list| && list[i] == p;
      assert LinkOk(hdr, list, i);
      StopsAtPlace(hdr, list, i, t, bp);
      while !StopsAt(hdr, p, bp)
        invariant i < |list| && p == list[i] && p in hdr && (StopsAt(hdr, p, bp) <==> i == t)
        decreases Distance(list, i, t)
        modifies {}
      {
        assert LinkOk(hdr, list, i);
        p := hdr[p].ptr;
        i := NextIndex(list, i);
        assert LinkOk(hdr, list, i);
        StopsAtPlace(hdr, list, i, t, bp);
      }
      Link(p, bp, t);
      SameUnits(old(owner), owner, brk);
      freep := p;
    }

    /** The body of free once the place is found. */
    method Link(p: nat, bp: nat, ghost t: nat)
      requires Sound(hdr, list, live, owner) && Coalesced(hdr, list) && Place(list, t, bp) && p == list[t] && bp in live
      modifies `hdr, `list, `live, `owner
      ensures Sound(hdr, list, live, owner) && Coalesced(hdr, list) && p in list
      ensures live == old(live) - {bp} && owner.Keys == old(owner).Keys
      ensures bp in owner && owner[bp] in FreeSet(list) && owner[bp] in hdr && hdr[owner[bp]].size >= old(live)[bp]
    {
      hide Sound, Coalesced, Place, NextOf, FreeSet;
      ghost var hdr0 := hdr;
      LinkStart(hdr, list, live, owner, t, bp);
      var next := hdr[p].ptr;
      if bp + hdr[bp].size == next {
        hdr := hdr[bp := Header(hdr[next].ptr, hdr[bp].size + hdr[next].size)];
      } else {
        hdr := hdr[bp := hdr[bp].(ptr := next)];
      }
      if p + hdr[p].size == bp {
        hdr := hdr[p := Header(hdr[bp].ptr, hdr[p].size + hdr[bp].size)];
      } else {
        hdr := hdr[p := hdr[p].(ptr := bp)];
      }
      ghost var hdr';
      hdr', list, owner := LinkMeans(hdr0, list, live, owner, t, bp);
      live := live - {bp};
      assert hdr == hdr';
    }

    /** morecore: at least 4096 units more, when sbrk grants them at or above the break. */
    method Morecore(nu: nat, grant: Option) returns (r: nat)
      requires Valid() && freep != 0 && 0 < nu && nu * UNIT < INT && (grant.Some? ==> grant.value >= brk)
      modifies this
      ensures Valid() && freep != 0 && live == old(live)
      ensures r == 0 <==> grant.None?
      ensures r == 0 ==> hdr == old(hdr) && list == old(list) && owner == old(owner) && freep == old(freep)
                         && brk == old(brk)
      ensures r != 0 ==> r == freep && owner.Keys == old(owner).Keys + Fresh(grant.value, Max(nu, 4096))
                         && HasFit(hdr, list, nu)
    {
      hide Sound, LiveOk, ListOk, Within;
      var n := Max(nu, 4096);
      if grant.None? {
        return 0;
      }
      var hp := grant.value;
      var stale := if hp in hdr then hdr[hp].ptr else 0;
      TakeNew(hdr, list, live, owner, hp, n, stale);
      GrownKeys(owner, hp, n);
      hdr := hdr[hp := Header(stale, n)];
      live, owner, brk := live[hp := n], Grown(owner, hp, n), hp + n;
      Free(hp + 1);
      assert live == old(live);
      ghost var x :| 1 <= x < |list| && list[x] == owner[hp];
      assert Fits(hdr, list, x, nu);
      return freep;
    }

    /** malloc: a block of its own, with room for nbytes, or 0 when no free block fits and
        sbrk refuses.  sbrk is asked at most once, and only when nothing fits. */
    method Malloc(nbytes: nat, grant: Option) returns (r: nat, ghost calls: nat)
      requires Valid() && Units(nbytes) * UNIT < INT && (grant.Some? ==> grant.value >= brk)
      modifies this
      ensures Valid() && freep != 0
      ensures calls == if old(freep) != 0 && HasFit(old(hdr), old(list), Units(nbytes)) then 0 else 1
      ensures r == 0 <==> calls == 1 && grant.None?
      ensures r == 0 ==> live == old(live) && owner == old(owner)
                         && list == if old(freep) == 0 then [BASE] else old(list)
      ensures r != 0 ==> r - 1 !in old(live) && live == old(live)[r - 1 := Units(nbytes)]
      ensures owner.Keys == old(owner).Keys + if r != 0 && calls == 1 then Fresh(grant.value, Max(Units(nbytes), 4096))
                                              else {}
    {
      var n := Units(nbytes);
      if freep == 0 {
        hdr := hdr[BASE := Header(BASE, 0)];
        freep := BASE;
        list := [BASE];
        EmptyList(hdr);
      }
      var p, prevp;
      ghost var i;
      p, prevp, i, calls := Search(n, grant);
      if p == 0 {
        return 0, calls;
      }
      r := Take(p, prevp, n, i);
    }

    /** malloc's loop up to a block that fits. */
    method Search(n: nat, grant: Option) returns (p: nat, prevp: nat, ghost i: nat, ghost calls: nat)
      requires Valid() && freep != 0 && 0 < n && n * UNIT < INT && (grant.Some? ==> grant.value >= brk)
      modifies this
      ensures Valid() && freep != 0 && live == old(live)
      ensures calls == if HasFit(old(hdr), old(list), n) then 0 else 1
      ensures p == 0 <==> calls == 1 && grant.None?
      ensures p == 0 || calls == 0 ==> owner == old(owner) && list == old(list)
      ensures p != 0 ==> i < |list| && p == list[i] && p in hdr && hdr[p].size >= n && prevp == list[PrevIndex(list, i)]
      ensures p != 0 && calls == 1 ==> owner.Keys == old(owner).Keys + Fresh(grant.value, Max(n, 4096))
    {
      prevp := freep;
      ghost var s: nat :| s < |list| && list[s] == freep;
      StartAfter(hdr, list, s, n);
      p := hdr[prevp].ptr;
      i := NextIndex(list, s);
      calls := 0;
      while hdr[p].size < n
        invariant Valid() && freep != 0 && live == old(live) && calls <= 1
        invariant s < |list| && list[s] == freep && Trying(hdr, list, s, i, p, prevp, n)
        invariant calls == 0 ==> owner == old(owner) && brk == old(brk) && list == old(list) && hdr == old(hdr)
        invariant calls == 1 ==> HasFit(hdr, list, n) && !HasFit(old(hdr), old(list), n)
        invariant calls == 1 ==> grant.Some? && owner.Keys == old(owner).Keys + Fresh(grant.value, Max(n, 4096))
        decreases 1 - calls, Distance(list, i, s)
      {
        if p == freep {
          Round(hdr, list, s, i, p, prevp, n);
          p := Morecore(n, grant);
          calls := 1;
          if p == 0 {
            return;
          }
          s :| s < |list| && list[s] == freep;
          i := s;
          StartAfter(hdr, list, s, n);
        } else {
          TryNext(hdr, list, s, i, p, prevp, n);
        }
        prevp := p;
        p := hdr[p].ptr;
        i := NextIndex(list, i);
      }
      FoundFit(hdr, list, s, i, p, prevp, n);
    }

    /** The body of malloc's loop once a block fits. */
    method Take(p: nat, prevp: nat, n: nat, ghost k: nat) returns (r: nat)
      requires Valid() && freep != 0 && k < |list| && list[k] == p && p in hdr && hdr[p].size >= n > 0
               && prevp == list[PrevIndex(list, k)]
      modifies this
      ensures Valid() && freep != 0 && brk == old(brk)
      ensures r > 0 && r - 1 !in old(live) && live == old(live)[r - 1 := n] && owner.Keys == old(owner).Keys
    {
      hide Sound, Coalesced;
      if hdr[p].size == n {
        WholeTaken(hdr, list, live, owner, k, n);
        live, list := live[p := n], Removed(list, k);
        hdr := hdr[prevp := hdr[prevp].(ptr := hdr[p].ptr)];
        freep := prevp;
        return p + 1;
      }
      r := TakeEnd(p, prevp, n, k);
    }

    method TakeEnd(p: nat, prevp: nat, n: nat, ghost k: nat) returns (r: nat)
      requires Valid() && freep != 0 && k < |list| && list[k] == p && p in hdr && hdr[p].size > n > 0
               && prevp == list[PrevIndex(list, k)]
      modifies this
      ensures Valid() && freep != 0 && brk == old(brk)
      ensures r > 0 && r - 1 !in old(live) && live == old(live)[r - 1 := n] && owner.Keys == old(owner).Keys
    {
      hide Sound, Coalesced;
      var q := p + (hdr[p].size - n);
      var stale := if q in hdr then hdr[q].ptr else 0;
      TailTaken(hdr, list, live, owner, k, n, stale);
      SameUnits(owner, Carved(owner, q, n), brk);
      live, owner := live[q := n], Carved(owner, q, n);
      hdr := hdr[p := hdr[p].(size := hdr[p].size - n)];
      hdr := hdr[q := Header(stale, n)];
      freep := prevp;
      return q + 1;
    }
  }

  lemma WholeTaken(hdr: Headers, list: seq<nat>, live: map<nat, nat>, owner: map<nat, nat>, k: nat, n: nat)
    requires Sound(hdr, list, live, owner) && Coalesced(hdr, list) && k < |list| && list[k] in hdr
             && hdr[list[k]].size == n > 0
    ensures k > 0 && list[k - 1] in hdr && list[k] !in live && list[k - 1] != 0
    ensures Good(UnlinkedHdr(hdr, list, k), list[k - 1], Removed(list, k), live[list[k] := n], owner)
  {
    assert LinkOk(hdr, list, k - 1);
    TakeWhole(hdr, list, live, owner, k);
    TakeWholeApart(hdr, list, live, owner, k);
    RemovedAt(list, k, k - 1);
  }

  lemma TailTaken(hdr: Headers, list: seq<nat>, live: map<nat, nat>, owner: map<nat, nat>, k: nat, n: nat, ptr: nat)
    requires Sound(hdr, list, live, owner) && Coalesced(hdr, list) && k < |list| && list[k] in hdr
             && hdr[list[k]].size > n > 0
    ensures k > 0 && list[k - 1] != 0
    ensures var q, hdr' := list[k] + hdr[list[k]].size - n, CarvedHdr(hdr, list[k], n, ptr);
            && q !in live && Carved(owner, q, n).Keys == owner.Keys
            && Good(hdr', list[k - 1], list, live[q := n], Carved(owner, q, n))
  {
    TakeTail(hdr, list, live, owner, k, n, ptr);
    assert list[k] in FreeSet(list);
    SplitBlock(hdr, FreeSet(list) + live.Keys, owner, list[k], n, ptr);
    forall i | 0 <= i < |list|
      ensures list[i] != list[k] + hdr[list[k]].size - n
    {
      assert i > 0 ==> list[i] in FreeSet(list);
    }
    TakeTailApart(hdr, list, live, owner, k, n, ptr);
  }

  function PrevIndex(list: seq<nat>, i: nat): nat
    requires i < |list|
  {
    if i == 0 then |list| - 1 else i - 1
  }

  /** x comes before i on the way round from the element after s. */
  predicate Seen(s: nat, i: nat, x: nat) {
    if i > s then s < x < i else x > s || x < i
  }

  /** malloc is at list[i], having found no fit since it left list[s]. */
  ghost predicate Trying(hdr: Headers, list: seq<nat>, s: nat, i: nat, p: nat, prevp: nat, n: nat) {
    && i < |list| && p == list[i] && p in hdr && prevp == list[PrevIndex(list, i)]
    && forall x: nat {:trigger Fits(hdr, list, x, n)} :: x < |list| && Seen(s, i, x) ==> !Fits(hdr, list, x, n)
  }

  lemma StartAfter(hdr: Headers, list: seq<nat>, s: nat, n: nat)
    requires ListOk(hdr, list) && s < |list|
    ensures list[s] in hdr && Trying(hdr, list, s, NextIndex(list, s), hdr[list[s]].ptr, list[s], n)
  {
    assert LinkOk(hdr, list, s) && LinkOk(hdr, list, NextIndex(list, s));
  }

  lemma TryNext(hdr: Headers, list: seq<nat>, s: nat, i: nat, p: nat, prevp: nat, n: nat)
    requires ListOk(hdr, list) && s < |list| && Trying(hdr, list, s, i, p, prevp, n) && hdr[p].size < n && p != list[s]
    ensures Trying(hdr, list, s, NextIndex(list, i), hdr[p].ptr, p, n)
    ensures Distance(list, NextIndex(list, i), s) < Distance(list, i, s)
  {
    assert LinkOk(hdr, list, i) && LinkOk(hdr, list, NextIndex(list, i));
    assert !Fits(hdr, list, i, n);
  }

  /** Back at freep, every block has been tried. */
  lemma Round(hdr: Headers, list: seq<nat>, s: nat, i: nat, p: nat, prevp: nat, n: nat)
    requires ListOk(hdr, list) && s < |list| && Trying(hdr, list, s, i, p, prevp, n) && hdr[p].size < n && p == list[s]
    ensures !HasFit(hdr, list, n)
  {
    assert i == s;
    assert !Fits(hdr, list, s, n);
  }

  lemma FoundFit(hdr: Headers, list: seq<nat>, s: nat, i: nat, p: nat, prevp: nat, n: nat)
    requires Trying(hdr, list, s, i, p, prevp, n) && hdr[p].size >= n
    ensures HasFit(hdr, list, n)
  {
    assert Fits(hdr, list, i, n);
  }

  lemma EmptyList(hdr: Headers)
    requires BASE in hdr && hdr[BASE] == Header(BASE, 0)
    ensures Sound(hdr, [BASE], map[], map[]) && Coalesced(hdr, [BASE])
  {
    assert LinkOk(hdr, [BASE], 0);
  }

  function Max(a: nat, b: nat): nat {
    if a < b then b else a
  }

  ghost function Fresh(g: nat, n: nat): set<nat> {
    set u: nat | u < g + n && Within(u, g, n)
  }

  lemma GrownKeys(owner: map<nat, nat>, g: nat, n: nat)
    ensures Grown(owner, g, n).Keys == owner.Keys + Fresh(g, n)
  {
  }

  /** Some free block has n units. */
  ghost predicate HasFit(hdr: Headers, list: seq<nat>, n: nat) {
    exists x :: 0 <= x < |list| && Fits(hdr, list, x, n)
  }

  ghost predicate Fits(hdr: Headers, list: seq<nat>, x: nat, n: nat)
    requires x < |list|
  {
    list[x] in hdr && hdr[list[x]].size >= n
  }

  /** Joining list[k] with its successor if they are adjacent. */
  lemma MergeAt(hdr: Headers, list: seq<nat>, live: map<nat, nat>, owner: map<nat, nat>, k: nat, lo: nat, x: nat,
                n: nat)
    returns (hdr': Headers, list': seq<nat>, owner': map<nat, nat>)
    requires Sound(hdr, list, live, owner) && lo <= k < |list| && ApartExcept(hdr, list, lo, k + 1)
    requires list[k] in hdr && (k + 1 < |list| ==> list[k + 1] in hdr)
    requires x in owner && owner[x] in FreeSet(list) && owner[x] in hdr && hdr[owner[x]].size >= n
    ensures Sound(hdr', list', live, owner') && ApartExcept(hdr', list', lo, k) && owner'.Keys == owner.Keys
    ensures x in owner' && owner'[x] in FreeSet(list') && owner'[x] in hdr' && hdr'[owner'[x]].size >= n
    ensures hdr' == if k + 1 < |list| then JoinIf(hdr, list[k], list[k + 1]) else hdr
    ensures k < |list'| && list'[..k + 1] == list[..k + 1]
  {
    hdr', list', owner' := hdr, list, owner;
    if k + 1 < |list| && !Apart(hdr, list, k) {
      assert k > 0;
      hdr', list', owner' := JoinedHdr(hdr, list, k), Removed(list, k + 1), Given(owner, list[k + 1], list[k]);
      JoinSound(hdr, list, live, owner, k);
      JoinApart(hdr, list, k, lo);
      RemovedSet(list, k + 1);
      assert list[k] in FreeSet(list);
    } else {
      forall i | 0 <= i < |list| - 1 && !(lo <= i < k)
        ensures list[i] in hdr && Apart(hdr, list, i)
      {
        assert LinkOk(hdr, list, i);
        assert i == k || Apart(hdr, list, i);
      }
    }
  }

  /** What free's assignments amount to: insert, then join upwards, then downwards. */
  lemma LinkStart(hdr: Headers, list: seq<nat>, live: map<nat, nat>, owner: map<nat, nat>, t: nat, b: nat)
    requires Sound(hdr, list, live, owner) && b in live && Place(list, t, b)
    ensures t < |list| && list[t] in hdr && b in hdr && hdr[list[t]].ptr in hdr && hdr[list[t]].ptr == NextOf(list, t)
  {
    assert BlockOk(hdr, owner, b) && LinkOk(hdr, list, t) && LinkOk(hdr, list, NextIndex(list, t));
  }

  lemma LinkMeans(hdr: Headers, list: seq<nat>, live: map<nat, nat>, owner: map<nat, nat>, t: nat, b: nat)
    returns (hdr': Headers, list': seq<nat>, owner': map<nat, nat>)
    requires Sound(hdr, list, live, owner) && Coalesced(hdr, list) && b in live && Place(list, t, b)
    ensures Sound(hdr', list', live - {b}, owner') && Coalesced(hdr', list') && owner'.Keys == owner.Keys
    ensures b in owner' && owner'[b] in FreeSet(list') && owner'[b] in hdr' && hdr'[owner'[b]].size >= live[b]
    ensures t < |list'| && list'[t] == list[t]
    ensures list[t] in hdr && b in hdr && NextOf(list, t) in hdr
    ensures hdr' == Freed(hdr, list[t], b, NextOf(list, t))
  {
    var hdr2, list2, owner2 := LinkUp(hdr, list, live, owner, t, b);
    assert LinkOk(hdr, list, t) && LinkOk(hdr2, list2, t) && LinkOk(hdr2, list2, t + 1);
    hdr', list', owner' := MergeAt(hdr2, list2, live - {b}, owner2, t, t, b, live[b]);
    assert list'[t] == list'[..t + 1][t];
    forall i | 0 <= i < |list'| - 1
      ensures list'[i] in hdr' && Apart(hdr', list', i)
    {
      assert LinkOk(hdr', list', i);
      assert Apart(hdr', list', i);
    }
    JoinsAreFreed(hdr, list[t], b, NextOf(list, t));
  }

  /** ... the first half of it. */
  lemma LinkUp(hdr: Headers, list: seq<nat>, live: map<nat, nat>, owner: map<nat, nat>, t: nat, b: nat)
    returns (hdr': Headers, list': seq<nat>, owner': map<nat, nat>)
    requires Sound(hdr, list, live, owner) && Coalesced(hdr, list) && b in live && Place(list, t, b)
    ensures Sound(hdr', list', live - {b}, owner') && ApartExcept(hdr', list', t, t + 1) && owner'.Keys == owner.Keys
    ensures b in owner' && owner'[b] in FreeSet(list') && owner'[b] in hdr' && hdr'[owner'[b]].size >= live[b]
    ensures t + 1 < |list'| && list'[t] == list[t] && list'[t + 1] == b
    ensures list[t] in hdr && b in hdr && NextOf(list, t) in hdr
    ensures var hdr1 := LinkedHdr(hdr, list, t, b); hdr' == if NextOf(list, t) > b then JoinIf(hdr1, b, NextOf(list, t))
                                                            else hdr1
  {
    assert BlockOk(hdr, owner, b) && LinkOk(hdr, list, t) && LinkOk(hdr, list, NextIndex(list, t));
    InsertSound(hdr, list, live, owner, t, b);
    var list1, hdr1 := Inserted(list, t, b), LinkedHdr(hdr, list, t, b);
    InsertedAt(list, t, b, t);
    InsertedAt(list, t, b, t + 1);
    if t + 1 < |list| {
      InsertedAt(list, t, b, t + 2);
    }
    InsertedSet(list, t, b);
    assert owner[b] == b;
    hdr', list', owner' := MergeAt(hdr1, list1, live - {b}, owner, t + 1, t, b, live[b]);
    assert list'[t] == list'[..t + 2][t] && list'[t + 1] == list'[..t + 2][t + 1];
  }

  /** Join header p with header q that follows it, if they are adjacent. */
  function JoinIf(hdr: Headers, p: nat, q: nat): (r: Headers)
    requires p in hdr && q in hdr
  {
    if p + hdr[p].size == q then hdr[p := Header(hdr[q].ptr, hdr[p].size + hdr[q].size)] else hdr
  }

  lemma JoinsAreFreed(hdr: Headers, p: nat, b: nat, next: nat)
    requires p in hdr && b in hdr && next in hdr && p < b && next != b && (next > b || next <= p)
    ensures var hdr1 := hdr[b := hdr[b].(ptr := next)][p := hdr[p].(ptr := b)];
            JoinIf(if next > b then JoinIf(hdr1, b, next) else hdr1, p, b) == Freed(hdr, p, b, next)
  {
  }

  /** The headers after free has linked b between p and next. */
  function Freed(hdr: Headers, p: nat, b: nat, next: nat): (r: Headers)
    requires p in hdr && b in hdr && next in hdr
  {
    var hdr1 := hdr[b := if b + hdr[b].size == next then Header(hdr[next].ptr, hdr[b].size + hdr[next].size)
                         else hdr[b].(ptr := next)];
    hdr1[p := if p + hdr1[p].size == b then Header(hdr1[b].ptr, hdr1[p].size + hdr1[b].size) else hdr1[p].(ptr := b)]
  }

  lemma Locate(hdr: Headers, list: seq<nat>, live: map<nat, nat>, owner: map<nat, nat>, b: nat) returns (t: nat)
    requires Sound(hdr, list, live, owner) && b in live
    ensures Place(list, t, b) && BASE < b
  {
    assert BlockOk(hdr, owner, b);
    forall i | 0 <= i < |list|
      ensures list[i] != b
    {
      assert i > 0 ==> list[i] in FreeSet(list);
    }
    t := PlaceExists(list, b, 0);
  }

  /** Blocks in use share no unit with each other or with a free block. */
  lemma OneBlockEach(hdr: Headers, list: seq<nat>, live: map<nat, nat>, owner: map<nat, nat>, a: nat, b: nat)
    requires Sound(hdr, list, live, owner) && a in live && (b in live || b in FreeSet(list)) && a != b
    ensures b in hdr && (a + live[a] <= b || b + hdr[b].size <= a)
  {
    assert BlockOk(hdr, owner, a) && BlockOk(hdr, owner, b);
    if a < b {
      assert owner[b] == b;
    } else {
      assert owner[a] == a;
    }
  }

  /** Every unit ever obtained is in a block in use or a free one, and nothing else is. */
  lemma EveryUnit(hdr: Headers, list: seq<nat>, live: map<nat, nat>, owner: map<nat, nat>, u: nat)
    requires Sound(hdr, list, live, owner)
    ensures u in owner <==> exists x :: (x in live || x in FreeSet(list)) && x in hdr && Within(u, x, hdr[x].size)
  {
    if u in owner {
      assert UnitOk(hdr, FreeSet(list) + live.Keys, owner, u);
      assert Within(u, owner[u], hdr[owner[u]].size);
    }
    forall x | (x in live || x in FreeSet(list)) && x in hdr && Within(u, x, hdr[x].size)
      ensures u in owner
    {
      assert BlockOk(hdr, owner, x);
    }
  }
}
