/** A file-system volume as kernel/fs.c sees it through the buffer cache: the free-block
    bitmap, the contents of every block, and the inodes.  Block pointers live in inodes
    (12 direct and one indirect) and in indirect blocks (256 little-endian words).
 */
module Volume {

  const BSIZE := 1024
  const NDIRECT := 12
  const NINDIRECT := 256
  const MAXFILE := 268
  const BPB := 8192
  const IPB := 16

  type byte = x: nat | x < 256 witness 0
  type Bytes = seq<byte>

  datatype Inode = Inode(size: nat, addrs: seq<nat>)

  /** size blocks in all, of which the first nmeta are metadata. */
  datatype Geometry = Geometry(size: nat, nmeta: nat, ninodes: nat)

  datatype Vol = Vol(used: seq<bool>, blocks: seq<Bytes>, inodes: seq<Inode>)

  ghost predicate Sized(g: Geometry, v: Vol) {
    && 0 < g.nmeta <= g.size < 0x1_0000_0000
    && |v.used| == |v.blocks| == g.size
    && |v.inodes| == g.ninodes
    && (forall b :: 0 <= b < g.size ==> |v.blocks[b]| == BSIZE)
    && (forall i :: 0 <= i < g.ninodes ==> |v.inodes[i].addrs| == NDIRECT + 1 && v.inodes[i].size <= MAXFILE * BSIZE)
    && (forall i, k :: 0 <= i < g.ninodes && 0 <= k <= NDIRECT ==> v.inodes[i].addrs[k] < g.size)
  }

  // ---------------------------------------------------------------- words of an indirect block

  function Word(blk: Bytes, j: nat): nat
    requires |blk| == BSIZE && j < NINDIRECT
  {
    (blk[4 * j] as nat) + 0x100 * (blk[4 * j + 1] as nat) + 0x1_0000 * (blk[4 * j + 2] as nat)
    + 0x100_0000 * (blk[4 * j + 3] as nat)
  }

  function SetWord(blk: Bytes, j: nat, w: nat): (r: Bytes)
    requires |blk| == BSIZE && j < NINDIRECT && w < 0x1_0000_0000
    ensures |r| == BSIZE
  {
    var w1, w2, w3 := w / 0x100, w / 0x100 / 0x100, w / 0x100 / 0x100 / 0x100;
    blk[4 * j := w % 0x100][4 * j + 1 := w1 % 0x100][4 * j + 2 := w2 % 0x100][4 * j + 3 := w3 % 0x100]
  }

  lemma SetWordAt(blk: Bytes, j: nat, w: nat, k: nat)
    requires |blk| == BSIZE && j < NINDIRECT && k < NINDIRECT && w < 0x1_0000_0000
    ensures Word(SetWord(blk, j, w), k) == if k == j then w else Word(blk, k)
  {
    var r := SetWord(blk, j, w);
    if k == j {
      Digits(w);
    } else {
      assert forall q :: 0 <= q < BSIZE && !(4 * j <= q < 4 * j + 4) ==> r[q] == blk[q];
    }
  }

  lemma Digits(w: nat)
    requires w < 0x1_0000_0000
    ensures var w1, w2, w3 := w / 0x100, w / 0x100 / 0x100, w / 0x100 / 0x100 / 0x100;
            w3 < 0x100 && w == w % 0x100 + 0x100 * (w1 % 0x100) + 0x1_0000 * (w2 % 0x100) + 0x100_0000 * (w3 % 0x100)
  {
    var w1 := w / 0x100;
    var w2 := w1 / 0x100;
    var w3 := w2 / 0x100;
    assert w == 0x100 * w1 + w % 0x100 && w1 == 0x100 * w2 + w1 % 0x100 && w2 == 0x100 * w3 + w2 % 0x100;
  }

  function Zeros(n: nat): (r: Bytes)
    ensures |r| == n && forall i :: 0 <= i < n ==> r[i] == 0
  {
    seq(n, _ => 0)
  }

  // ---------------------------------------------------------------- slots

  /** A place that can hold a block pointer. */
  datatype Slot = Direct(inum: nat, k: nat) | Indirect(inum: nat) | Entry(inum: nat, j: nat)

  predicate IsSlot(g: Geometry, t: Slot) {
    t.inum < g.ninodes && (t.Direct? ==> t.k < NDIRECT) && (t.Entry? ==> t.j < NINDIRECT)
  }

  ghost function Ptr(g: Geometry, v: Vol, t: Slot): nat
    requires Sized(g, v) && IsSlot(g, t)
  {
    var a := v.inodes[t.inum].addrs;
    match t
    case Direct(_, k) => a[k]
    case Indirect(_) => a[NDIRECT]
    case Entry(_, j) => if a[NDIRECT] == 0 then 0 else Word(v.blocks[a[NDIRECT]], j)
  }

  /** Which slot maps file block bn. */
  function SlotOf(inum: nat, bn: nat): Slot {
    if bn < NDIRECT then Direct(inum, bn) else Entry(inum, bn - NDIRECT)
  }

  /** Block ownership: the bitmap marks exactly the metadata blocks, the blocks some slot
      points to, and those in `loose`; and no block is in two slots.  `owner` is the
      inverse of Ptr. */
  ghost predicate Owned(g: Geometry, v: Vol, owner: map<nat, Slot>, loose: set<nat>) {
    && Sized(g, v)
    && (forall b :: b in owner ==> g.nmeta <= b < g.size && b !in loose
                                   && IsSlot(g, owner[b]) && Ptr(g, v, owner[b]) == b)
    && (forall t :: IsSlot(g, t) && Ptr(g, v, t) != 0 ==> Ptr(g, v, t) in owner && owner[Ptr(g, v, t)] == t)
    && (forall b :: 0 <= b < g.size ==> (v.used[b] <==> b < g.nmeta || b in owner || b in loose))
    && (forall b :: b in loose ==> g.nmeta <= b < g.size)
  }

  /** Every block below the end of the file is mapped. */
  ghost predicate NoHoles(g: Geometry, v: Vol, inum: nat)
    requires Sized(g, v) && inum < g.ninodes
  {
    forall bn :: 0 <= bn * BSIZE < v.inodes[inum].size ==> Ptr(g, v, SlotOf(inum, bn)) != 0
  }

  ghost predicate Dense(g: Geometry, v: Vol)
    requires Sized(g, v)
  {
    forall i :: 0 <= i < g.ninodes ==> NoHoles(g, v, i)
  }

  // ---------------------------------------------------------------- files as byte sequences

  ghost function ByteAt(g: Geometry, v: Vol, inum: nat, pos: nat): byte
    requires Sized(g, v) && inum < g.ninodes && pos < MAXFILE * BSIZE
  {
    var b := Ptr(g, v, SlotOf(inum, pos / BSIZE));
    if b < g.size then v.blocks[b][pos % BSIZE] else 0
  }

  ghost function Content(g: Geometry, v: Vol, inum: nat): (r: Bytes)
    requires Sized(g, v) && inum < g.ninodes
    ensures |r| == v.inodes[inum].size
    ensures forall p :: 0 <= p < |r| ==> r[p] == ByteAt(g, v, inum, p)
  {
    seq(v.inodes[inum].size, p requires 0 <= p < v.inodes[inum].size => ByteAt(g, v, inum, p))
  }

  // ---------------------------------------------------------------- what one update does

  function Taken(v: Vol, b: nat): Vol
    requires b < |v.used| && b < |v.blocks|
  {
    v.(used := v.used[b := true], blocks := v.blocks[b := Zeros(BSIZE)])
  }

  /** Taking a free block: nothing points to it, so it is loose. */
  lemma TakeKeeps(g: Geometry, v: Vol, owner: map<nat, Slot>, b: nat)
    requires Owned(g, v, owner, {}) && b < g.size && !v.used[b]
    ensures Owned(g, Taken(v, b), owner, {b})
    ensures forall t :: IsSlot(g, t) ==> Ptr(g, Taken(v, b), t) == Ptr(g, v, t)
  {
    forall t | IsSlot(g, t)
      ensures Ptr(g, Taken(v, b), t) == Ptr(g, v, t)
    {
      assert Ptr(g, v, Indirect(t.inum)) == v.inodes[t.inum].addrs[NDIRECT];
    }
  }

  function WithAddr(v: Vol, inum: nat, k: nat, b: nat): Vol
    requires inum < |v.inodes| && k < |v.inodes[inum].addrs|
  {
    v.(inodes := v.inodes[inum := v.inodes[inum].(addrs := v.inodes[inum].addrs[k := b])])
  }

  /** Nothing but slot t changed its pointer, and t now points to b. */
  ghost predicate OnlySlot(g: Geometry, v: Vol, v': Vol, t: Slot, b: nat)
    requires Sized(g, v) && Sized(g, v')
  {
    forall u :: IsSlot(g, u) ==> Ptr(g, v', u) == if u == t then b else Ptr(g, v, u)
  }

  /** Storing a loose block's number in an empty slot makes the slot its owner. */
  lemma LinkKeeps(g: Geometry, v: Vol, v': Vol, owner: map<nat, Slot>, t: Slot, b: nat)
    requires Owned(g, v, owner, {b}) && IsSlot(g, t) && Ptr(g, v, t) == 0
    requires Sized(g, v') && v'.used == v.used && OnlySlot(g, v, v', t, b)
    ensures Owned(g, v', owner[b := t], {})
  {
    var owner' := owner[b := t];
    forall c | c in owner'
      ensures g.nmeta <= c < g.size && IsSlot(g, owner'[c]) && Ptr(g, v', owner'[c]) == c
    {
    }
    forall u | IsSlot(g, u) && Ptr(g, v', u) != 0
      ensures Ptr(g, v', u) in owner' && owner'[Ptr(g, v', u)] == u
    {
      if u != t {
        assert Ptr(g, v', u) == Ptr(g, v, u);
      }
    }
  }

  lemma LinkDirect(g: Geometry, v: Vol, inum: nat, k: nat, b: nat)
    requires Sized(g, v) && inum < g.ninodes && k < NDIRECT && b < g.size
    ensures Sized(g, WithAddr(v, inum, k, b)) && OnlySlot(g, v, WithAddr(v, inum, k, b), Direct(inum, k), b)
  {
  }

  /** A zeroed block becomes the indirect block: its entries are all empty, as before. */
  lemma LinkIndirect(g: Geometry, v: Vol, inum: nat, b: nat)
    requires Sized(g, v) && inum < g.ninodes && b < g.size
    requires v.inodes[inum].addrs[NDIRECT] == 0 && v.blocks[b] == Zeros(BSIZE)
    ensures Sized(g, WithAddr(v, inum, NDIRECT, b)) && OnlySlot(g, v, WithAddr(v, inum, NDIRECT, b), Indirect(inum), b)
  {
    var v' := WithAddr(v, inum, NDIRECT, b);
    forall u | IsSlot(g, u)
      ensures Ptr(g, v', u) == if u == Indirect(inum) then b else Ptr(g, v, u)
    {
    }
  }

  function WithEntry(v: Vol, a: nat, j: nat, b: nat): Vol
    requires a < |v.blocks| && |v.blocks[a]| == BSIZE && j < NINDIRECT && b < 0x1_0000_0000
  {
    v.(blocks := v.blocks[a := SetWord(v.blocks[a], j, b)])
  }

  lemma LinkEntry(g: Geometry, v: Vol, owner: map<nat, Slot>, loose: set<nat>, inum: nat, j: nat, b: nat)
    requires Owned(g, v, owner, loose) && inum < g.ninodes && j < NINDIRECT && b < g.size
    requires v.inodes[inum].addrs[NDIRECT] != 0
    ensures var v' := WithEntry(v, v.inodes[inum].addrs[NDIRECT], j, b);
            Sized(g, v') && OnlySlot(g, v, v', Entry(inum, j), b)
  {
    var a := v.inodes[inum].addrs[NDIRECT];
    var v' := WithEntry(v, a, j, b);
    assert Ptr(g, v, Indirect(inum)) == a;
    forall u | IsSlot(g, u)
      ensures Ptr(g, v', u) == if u == Entry(inum, j) then b else Ptr(g, v, u)
    {
      if u.Entry? {
        assert Ptr(g, v, Indirect(u.inum)) == v.inodes[u.inum].addrs[NDIRECT];
        SetWordAt(v.blocks[a], j, b, u.j);
      }
    }
  }

  /** The blocks file i already has stay where they are and keep their contents. */
  ghost predicate KeepsFile(g: Geometry, v: Vol, v': Vol, i: nat)
    requires Sized(g, v) && Sized(g, v') && i < g.ninodes
  {
    forall bn :: 0 <= bn < MAXFILE && Ptr(g, v, SlotOf(i, bn)) != 0 ==>
      var b := Ptr(g, v, SlotOf(i, bn));
      Ptr(g, v', SlotOf(i, bn)) == b && (b < g.size ==> v'.blocks[b] == v.blocks[b])
  }

  lemma KeepsContent(g: Geometry, v: Vol, v': Vol, i: nat)
    requires Sized(g, v) && Sized(g, v') && i < g.ninodes && KeepsFile(g, v, v', i) && NoHoles(g, v, i)
    requires v'.inodes[i].size == v.inodes[i].size
    ensures Content(g, v', i) == Content(g, v, i) && NoHoles(g, v', i)
  {
    forall bn | 0 <= bn * BSIZE < v'.inodes[i].size
      ensures Ptr(g, v', SlotOf(i, bn)) != 0
    {
      assert bn < MAXFILE;
    }
    forall p | 0 <= p < v.inodes[i].size
      ensures ByteAt(g, v', i, p) == ByteAt(g, v, i, p)
    {
      assert p / BSIZE * BSIZE < v.inodes[i].size;
    }
  }

  /** Overwriting part of a block. */
  function Spliced(blk: Bytes, o: nat, data: Bytes): (r: Bytes)
    requires |blk| == BSIZE && o + |data| <= BSIZE
    ensures |r| == BSIZE
    ensures forall q :: 0 <= q < BSIZE ==> r[q] == if o <= q < o + |data| then data[q - o] else blk[q]
  {
    blk[..o] + data + blk[o + |data|..]
  }

  function Stored(v: Vol, b: nat, o: nat, data: Bytes): Vol
    requires b < |v.blocks| && |v.blocks[b]| == BSIZE && o + |data| <= BSIZE
  {
    v.(blocks := v.blocks[b := Spliced(v.blocks[b], o, data)])
  }

  /** Storing into a data block changes no pointer. */
  lemma StoreKeeps(g: Geometry, v: Vol, owner: map<nat, Slot>, b: nat, o: nat, data: Bytes)
    requires Owned(g, v, owner, {}) && b in owner && !owner[b].Indirect? && o + |data| <= BSIZE
    ensures var v' := Stored(v, b, o, data);
            && Owned(g, v', owner, {})
            && forall t :: IsSlot(g, t) ==> Ptr(g, v', t) == Ptr(g, v, t)
  {
    var v' := Stored(v, b, o, data);
    forall t | IsSlot(g, t)
      ensures Ptr(g, v', t) == Ptr(g, v, t)
    {
      assert Ptr(g, v, Indirect(t.inum)) == v.inodes[t.inum].addrs[NDIRECT];
    }
  }

  /** ... and exactly the stored bytes of the file it belongs to. */
  lemma StoreBytes(g: Geometry, v: Vol, owner: map<nat, Slot>, i: nat, bn: nat, o: nat, data: Bytes, p: nat)
    requires Owned(g, v, owner, {}) && i < g.ninodes && bn < MAXFILE && o + |data| <= BSIZE && p < MAXFILE * BSIZE
    requires Ptr(g, v, SlotOf(i, bn)) != 0 && Ptr(g, v, SlotOf(i, p / BSIZE)) != 0
    ensures var b := Ptr(g, v, SlotOf(i, bn));
            var v' := Stored(v, b, o, data);
            Sized(g, v') && ByteAt(g, v', i, p) ==
              if bn * BSIZE + o <= p < bn * BSIZE + o + |data| then data[p - bn * BSIZE - o] else ByteAt(g, v, i, p)
  {
    var b := Ptr(g, v, SlotOf(i, bn));
    assert owner[b] == SlotOf(i, bn);
    StoreKeeps(g, v, owner, b, o, data);
    var t := SlotOf(i, p / BSIZE);
    assert owner[Ptr(g, v, t)] == t;
    assert p == p / BSIZE * BSIZE + p % BSIZE;
    if p / BSIZE != bn {
      assert t != SlotOf(i, bn);
    }
  }

  /** Everything that giving an empty slot a fresh block leaves alone. */
  ghost predicate Grown(g: Geometry, v: Vol, v': Vol, t: Slot, b: nat) {
    && Sized(g, v) && Sized(g, v')
    && OnlySlot(g, v, v', t, b)
    && (forall i :: 0 <= i < g.ninodes ==> v'.inodes[i].size == v.inodes[i].size && KeepsFile(g, v, v', i))
  }

  lemma GrownSelf(g: Geometry, v: Vol, t: Slot)
    requires Sized(g, v) && IsSlot(g, t)
    ensures Grown(g, v, v, t, Ptr(g, v, t))
  {
  }

  /** Take a free block, then link it; only b and an indirect block may change contents. */
  lemma GrowKeeps(g: Geometry, v: Vol, v': Vol, owner: map<nat, Slot>, t: Slot, b: nat, touched: nat)
    requires Owned(g, v, owner, {}) && Dense(g, v) && b < g.size && !v.used[b] && IsSlot(g, t) && Ptr(g, v, t) == 0
    requires Sized(g, v') && v'.used == Taken(v, b).used
    requires Sized(g, Taken(v, b)) && OnlySlot(g, Taken(v, b), v', t, b)
    requires forall i :: 0 <= i < g.ninodes ==> v'.inodes[i].size == v.inodes[i].size
    requires forall c :: 0 <= c < g.size && c != touched ==> v'.blocks[c] == Taken(v, b).blocks[c]
    requires touched in owner ==> owner[touched].Indirect?
    ensures Owned(g, v', owner[b := t], {}) && Dense(g, v') && Grown(g, v, v', t, b)
  {
    TakeKeeps(g, v, owner, b);
    LinkKeeps(g, Taken(v, b), v', owner, t, b);
    forall i | 0 <= i < g.ninodes
      ensures KeepsFile(g, v, v', i) && NoHoles(g, v', i)
    {
      forall bn | 0 <= bn < MAXFILE && Ptr(g, v, SlotOf(i, bn)) != 0
        ensures Ptr(g, v', SlotOf(i, bn)) == Ptr(g, v, SlotOf(i, bn))
        ensures v'.blocks[Ptr(g, v, SlotOf(i, bn))] == v.blocks[Ptr(g, v, SlotOf(i, bn))]
      {
        assert IsSlot(g, SlotOf(i, bn));
      }
      assert NoHoles(g, v, i);
      KeepsContent(g, v, v', i);
    }
  }

  lemma GrowEntry(g: Geometry, v1: Vol, v: Vol, owner: map<nat, Slot>, inum: nat, j: nat, b: nat)
    requires Owned(g, v, owner, {}) && Dense(g, v) && b < g.size && !v.used[b] && v1 == Taken(v, b)
    requires inum < g.ninodes && j < NINDIRECT && v.inodes[inum].addrs[NDIRECT] != 0 && Ptr(g, v, Entry(inum, j)) == 0
    ensures |v1.blocks| == g.size && |v1.blocks[v.inodes[inum].addrs[NDIRECT]]| == BSIZE
    ensures var v' := WithEntry(v1, v.inodes[inum].addrs[NDIRECT], j, b);
            Owned(g, v', owner[b := Entry(inum, j)], {}) && Dense(g, v') && Grown(g, v, v', Entry(inum, j), b)
  {
    var ind := v.inodes[inum].addrs[NDIRECT];
    assert ind == Ptr(g, v, Indirect(inum));
    TakeKeeps(g, v, owner, b);
    LinkEntry(g, v1, owner, {b}, inum, j, b);
    GrowKeeps(g, v, WithEntry(v1, ind, j, b), owner, Entry(inum, j), b, ind);
  }

  // ---------------------------------------------------------------- how much more fits

  ghost function FreeBlocks(g: Geometry, v: Vol): set<nat>
    requires |v.used| == g.size
  {
    set c | 0 <= c < g.size && !v.used[c]
  }

  lemma TakeCounts(g: Geometry, v: Vol, b: nat)
    requires |v.used| == |v.blocks| == g.size && b < g.size && !v.used[b]
    ensures |FreeBlocks(g, Taken(v, b))| == |FreeBlocks(g, v)| - 1
  {
    assert FreeBlocks(g, Taken(v, b)) == FreeBlocks(g, v) - {b};
  }

  lemma FullIff(g: Geometry, v: Vol)
    requires |v.used| == g.size
    ensures |FreeBlocks(g, v)| == 0 <==> forall c :: 0 <= c < g.size ==> v.used[c]
  {
    if |FreeBlocks(g, v)| == 0 {
      forall c | 0 <= c < g.size
        ensures v.used[c]
      {
        assert c !in FreeBlocks(g, v);
      }
    } else {
      var c :| c in FreeBlocks(g, v);
    }
  }

  /** A request for `need` blocks: addr is 0, and no block is left, exactly when there were
      not that many. */
  ghost predicate Spent(g: Geometry, v: Vol, v': Vol, need: nat, addr: nat)
    requires |v.used| == |v'.used| == g.size
  {
    if need <= |FreeBlocks(g, v)|
    then addr != 0 && |FreeBlocks(g, v')| == |FreeBlocks(g, v)| - need
    else addr == 0 && |FreeBlocks(g, v')| == 0
  }

  /** How many blocks mapping file block bn takes, given its pointer and whether the file
      has an indirect block. */
  function Need(ptr: nat, bn: nat, ind: bool): nat {
    if ptr != 0 then 0 else if bn < NDIRECT || ind then 1 else 2
  }

  ghost function NeedAt(g: Geometry, v: Vol, inum: nat, bn: nat): nat
    requires Sized(g, v) && inum < g.ninodes && bn < MAXFILE
  {
    Need(Ptr(g, v, SlotOf(inum, bn)), bn, v.inodes[inum].addrs[NDIRECT] != 0)
  }

  /** What bmap of file block bn takes and leaves alone. */
  ghost predicate MapStep(g: Geometry, v: Vol, v': Vol, inum: nat, bn: nat) {
    && Sized(g, v) && Sized(g, v') && inum < g.ninodes && bn < MAXFILE
    && Spent(g, v, v', NeedAt(g, v, inum, bn), Ptr(g, v', SlotOf(inum, bn)))
    && (forall k :: 0 <= k < MAXFILE && k != bn ==> Ptr(g, v', SlotOf(inum, k)) == Ptr(g, v, SlotOf(inum, k)))
    && (Ptr(g, v', SlotOf(inum, bn)) != 0 ==>
          (v'.inodes[inum].addrs[NDIRECT] != 0 <==> v.inodes[inum].addrs[NDIRECT] != 0 || bn >= NDIRECT))
  }

  lemma MapStepStored(g: Geometry, v: Vol, v1: Vol, v2: Vol, inum: nat, bn: nat)
    requires MapStep(g, v, v1, inum, bn) && Sized(g, v2) && v2.used == v1.used && v2.inodes == v1.inodes
    requires forall t :: IsSlot(g, t) ==> Ptr(g, v2, t) == Ptr(g, v1, t)
    ensures MapStep(g, v, v2, inum, bn)
  {
    forall k | 0 <= k < MAXFILE
      ensures Ptr(g, v2, SlotOf(inum, k)) == Ptr(g, v1, SlotOf(inum, k))
    {
      assert IsSlot(g, SlotOf(inum, k));
    }
    assert FreeBlocks(g, v2) == FreeBlocks(g, v1);
  }

  lemma DirectStep(g: Geometry, v: Vol, v': Vol, inum: nat, bn: nat, addr: nat)
    requires Grown(g, v, v', Direct(inum, bn), addr) && inum < g.ninodes && bn < NDIRECT
    requires Spent(g, v, v', if v.inodes[inum].addrs[bn] == 0 then 1 else 0, addr)
    ensures MapStep(g, v, v', inum, bn) && addr == Ptr(g, v', SlotOf(inum, bn))
    ensures v'.inodes[inum].addrs[NDIRECT] == v.inodes[inum].addrs[NDIRECT]
  {
    hide KeepsFile, Spent;
    assert Ptr(g, v', Indirect(inum)) == v'.inodes[inum].addrs[NDIRECT];
    assert Ptr(g, v, Direct(inum, bn)) == v.inodes[inum].addrs[bn];
    forall k | 0 <= k < MAXFILE && k != bn
      ensures Ptr(g, v', SlotOf(inum, k)) == Ptr(g, v, SlotOf(inum, k))
    {
      assert IsSlot(g, SlotOf(inum, k));
    }
  }

  /** bmap without an indirect block, on a full disk. */
  lemma NoIndirectStep(g: Geometry, v: Vol, v': Vol, inum: nat, bn: nat)
    requires Sized(g, v) && inum < g.ninodes && NDIRECT <= bn < MAXFILE && v' == v
    requires v.inodes[inum].addrs[NDIRECT] == 0 && Spent(g, v, v, 1, 0)
    ensures MapStep(g, v, v', inum, bn) && Ptr(g, v', SlotOf(inum, bn)) == 0
  {
  }

  lemma EntryStep(g: Geometry, v: Vol, v1: Vol, v2: Vol, inum: nat, bn: nat, addr: nat)
    requires Sized(g, v1) && inum < g.ninodes && Grown(g, v, v1, Indirect(inum), v1.inodes[inum].addrs[NDIRECT])
    requires NDIRECT <= bn < MAXFILE && Grown(g, v1, v2, Entry(inum, bn - NDIRECT), addr)
    requires v1.inodes[inum].addrs[NDIRECT] != 0 && v2.inodes == v1.inodes
    requires v.inodes[inum].addrs[NDIRECT] != 0 ==> v1 == v
    requires v.inodes[inum].addrs[NDIRECT] == 0 ==> Spent(g, v, v1, 1, v1.inodes[inum].addrs[NDIRECT])
    requires Spent(g, v1, v2, if Ptr(g, v1, Entry(inum, bn - NDIRECT)) == 0 then 1 else 0, addr)
    ensures MapStep(g, v, v2, inum, bn) && addr == Ptr(g, v2, SlotOf(inum, bn))
  {
    hide KeepsFile;
    forall k | 0 <= k < MAXFILE && k != bn
      ensures Ptr(g, v2, SlotOf(inum, k)) == Ptr(g, v, SlotOf(inum, k))
    {
      assert IsSlot(g, SlotOf(inum, k));
    }
    assert Ptr(g, v1, SlotOf(inum, bn)) == Ptr(g, v, SlotOf(inum, bn));
  }

  /** Two growths in a row. */
  lemma KeepsTrans(g: Geometry, v0: Vol, v1: Vol, v2: Vol, i: nat)
    requires Sized(g, v0) && Sized(g, v1) && Sized(g, v2) && i < g.ninodes
    requires KeepsFile(g, v0, v1, i) && KeepsFile(g, v1, v2, i)
    ensures KeepsFile(g, v0, v2, i)
  {
  }

  lemma GrownTwice(g: Geometry, v0: Vol, v1: Vol, v2: Vol, t: Slot, a: nat, u: Slot, b: nat)
    requires Grown(g, v0, v1, t, a) && Grown(g, v1, v2, u, b)
    ensures forall i :: 0 <= i < g.ninodes ==> v2.inodes[i].size == v0.inodes[i].size && KeepsFile(g, v0, v2, i)
  {
    forall i | 0 <= i < g.ninodes
      ensures KeepsFile(g, v0, v2, i)
    {
      KeepsTrans(g, v0, v1, v2, i);
    }
  }
}
