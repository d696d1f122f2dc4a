/** The virtio block driver (kernel/virtio_disk.c) and a device that follows sections 2.6
    and 5.2 of the VIRTIO 1.1 specification, sharing a queue of NUM descriptors.

    Driver code runs under vdisk_lock; the device takes requests from the available ring
    and completes them in any order, between any two of the driver's operations.
 */
module VirtioDisk {
  import opened Sequences

  const NUM := 8
  const INDEX := 0x1_0000        // ring indices are 16 bits wide
  const F_NEXT := 1
  const F_WRITE := 2
  const BSIZE := 1024

  datatype Addr = Null | OpAddr(i: nat) | BufData(b: nat) | StatusAddr(i: nat)

  datatype Desc = Desc(addr: Addr, len: nat, flags: nat, next: nat)

  datatype Op = Op(write: bool, sector: nat)

  /** info[i]: the buffer of the request headed by i (none: NOBUF), and its status byte. */
  datatype Info = Info(b: int, status: nat)

  const NOBUF := -1
  const NONE: nat := NUM         // the owner of a free descriptor

  // ---------------------------------------------------------------- requests in flight

  datatype Phase = Prepared | Queued | Taken | Completed | Done

  datatype Chain = Chain(d1: nat, d2: nat, b: nat, op: Op, phase: Phase)

  /** The descriptor table and what goes with it; owner and chains say what it means. */
  datatype Table = Table(free: seq<bool>, desc: seq<Desc>, info: seq<Info>, ops: seq<Op>, busy: seq<bool>,
                         owner: seq<nat>, chains: map<nat, Chain>)

  predicate Sized(t: Table) {
    |t.free| == |t.desc| == |t.info| == |t.ops| == |t.owner| == NUM
  }

  predicate InChain(c: Chain, h: nat, i: nat) {
    i == h || i == c.d1 || i == c.d2
  }

  /** A descriptor is free or belongs to one request. */
  ghost predicate DescOk(t: Table, i: nat)
    requires Sized(t) && i < NUM
  {
    if t.free[i] then t.owner[i] == NONE
    else t.owner[i] in t.chains && InChain(t.chains[t.owner[i]], t.owner[i], i)
  }

  /** A request's three descriptors are its own and say what the device must do. */
  ghost predicate ChainOk(t: Table, h: nat)
    requires Sized(t) && h in t.chains
  {
    var c := t.chains[h];
    && h < NUM && c.d1 < NUM && c.d2 < NUM && h != c.d1 && h != c.d2 && c.d1 != c.d2
    && t.owner[h] == h && t.owner[c.d1] == h && t.owner[c.d2] == h
    && !t.free[h] && !t.free[c.d1] && !t.free[c.d2]
    && t.desc[h] == Desc(OpAddr(h), 16, F_NEXT, c.d1)
    && t.desc[c.d1] == Desc(BufData(c.b), BSIZE, if c.op.write then F_NEXT else F_WRITE + F_NEXT, c.d2)
    && t.desc[c.d2] == Desc(StatusAddr(h), 1, F_WRITE, 0)
    && t.ops[h] == c.op && t.info[h].b == c.b
    && c.b < |t.busy| && (t.busy[c.b] <==> c.phase != Done)
    && (c.phase == Completed || c.phase == Done ==> t.info[h].status == 0)
  }

  ghost predicate TableOk(t: Table) {
    && Sized(t)
    && (forall i {:trigger DescOk(t, i)} :: 0 <= i < NUM ==> DescOk(t, i))
    && (forall h {:trigger ChainOk(t, h)} :: h in t.chains ==> ChainOk(t, h))
    && (forall g, h :: g in t.chains && h in t.chains && t.chains[g].b == t.chains[h].b ==> g == h)
  }

  /** The descriptors of some requests, in a row. */
  ghost function Flat(t: Table, hs: seq<nat>): seq<nat>
    requires forall j :: 0 <= j < |hs| ==> hs[j] in t.chains
  {
    if hs == [] then []
    else Flat(t, hs[..|hs| - 1]) + [hs[|hs| - 1], t.chains[hs[|hs| - 1]].d1, t.chains[hs[|hs| - 1]].d2]
  }

  lemma {:induction false} FlatOwned(t: Table, hs: seq<nat>)
    requires TableOk(t) && NoDup(hs) && forall j :: 0 <= j < |hs| ==> hs[j] in t.chains
    ensures |Flat(t, hs)| == 3 * |hs| && NoDup(Flat(t, hs))
    ensures forall i :: 0 <= i < |Flat(t, hs)| ==> Flat(t, hs)[i] < NUM && t.owner[Flat(t, hs)[i]] in hs
  {
    if hs != [] {
      var h, rest := hs[|hs| - 1], hs[..|hs| - 1];
      FlatOwned(t, rest);
      assert ChainOk(t, h);
      var f := Flat(t, rest);
      forall i | 0 <= i < |f|
        ensures f[i] != h && f[i] != t.chains[h].d1 && f[i] != t.chains[h].d2
      {
        assert t.owner[f[i]] in rest;
      }
    }
  }

  /** At most two requests fit. */
  lemma InFlightBound(t: Table, hs: seq<nat>)
    requires TableOk(t) && NoDup(hs) && forall j :: 0 <= j < |hs| ==> hs[j] in t.chains
    ensures |hs| <= 2
  {
    FlatOwned(t, hs);
    Bounded(Flat(t, hs), NUM);
  }

  // ---------------------------------------------------------------- rings

  /** The entries not yet consumed: `window`, of which the first is number `first`. */
  ghost predicate RingOk(ring: seq<nat>, first: nat, window: seq<nat>) {
    |ring| == NUM && forall j {:trigger window[j]} :: 0 <= j < |window| ==> ring[(first + j) % NUM] == window[j]
  }

  lemma SlotOf(x: nat)
    ensures x % INDEX % NUM == x % NUM && (x % INDEX + 1) % INDEX == (x + 1) % INDEX
  {
    assert x == x / INDEX * (INDEX / NUM) * NUM + x % INDEX;
  }

  lemma SlotsApart(x: nat, y: nat)
    requires x < y < x + NUM
    ensures x % NUM != y % NUM && x % INDEX != y % INDEX
  {
  }

  /** Producing an entry overwrites none that is still to be consumed. */
  lemma RingPush(ring: seq<nat>, first: nat, window: seq<nat>, x: nat)
    requires RingOk(ring, first, window) && |window| < NUM
    ensures RingOk(ring[(first + |window|) % NUM := x], first, window + [x])
  {
    var r, w := ring[(first + |window|) % NUM := x], window + [x];
    forall j | 0 <= j < |w|
      ensures r[(first + j) % NUM] == w[j]
    {
      if j < |window| {
        SlotsApart(first + j, first + |window|);
        assert ring[(first + j) % NUM] == window[j];
      }
    }
  }

  lemma RingPop(ring: seq<nat>, first: nat, window: seq<nat>)
    requires RingOk(ring, first, window) && window != []
    ensures ring[first % NUM] == window[0] && RingOk(ring, first + 1, window[1..])
  {
    assert ring[(first + 0) % NUM] == window[0];
    forall j | 0 <= j < |window[1..]|
      ensures ring[(first + 1 + j) % NUM] == window[1..][j]
    {
      assert ring[(first + (j + 1)) % NUM] == window[j + 1];
    }
  }

  // ---------------------------------------------------------------- the whole queue

  /** A ring with its 16-bit producer and consumer indices. */
  datatype Ring = Ring(ring: seq<nat>, head: nat, tail: nat, first: nat, window: seq<nat>)

  /** The window is what lies between the consumer's index (tail) and the producer's (head):
      distinct requests, all those in the given phase. */
  ghost predicate QueueOk(t: Table, q: Ring, ph: Phase) {
    && RingOk(q.ring, q.first, q.window) && q.tail == q.first % INDEX && q.head == (q.first + |q.window|) % INDEX
    && NoDup(q.window)
    && (forall j :: 0 <= j < |q.window| ==> q.window[j] in t.chains && t.chains[q.window[j]].phase == ph)
    && (forall h :: h in t.chains && t.chains[h].phase == ph ==> h in q.window)
  }

  /** The window is short, so the indices tell exactly whether it is empty. */
  lemma QueueShort(t: Table, q: Ring, ph: Phase)
    requires TableOk(t) && QueueOk(t, q, ph)
    ensures |q.window| <= 2 && (q.head == q.tail <==> q.window == [])
  {
    InFlightBound(t, q.window);
    if q.window != [] {
      SlotsApart(q.first, q.first + |q.window|);
    }
  }

  /** The driver's and the device's common state is consistent. */
  ghost predicate DiskOk(t: Table, avail: Ring, used: Ring) {
    TableOk(t) && QueueOk(t, avail, Queued) && QueueOk(t, used, Completed)
  }

  function Advance(t: Table, h: nat, ph: Phase): Table
    requires h in t.chains
  {
    t.(chains := t.chains[h := t.chains[h].(phase := ph)])
  }

  /** A request leaves the front of a ring for another phase. */
  lemma PopKeeps(t: Table, q: Ring, from: Phase, t': Table, ph: Phase)
    requires QueueOk(t, q, from) && q.window != [] && ph != from && q.window[0] in t.chains
    requires t'.chains == t.chains[q.window[0] := t.chains[q.window[0]].(phase := ph)]
    ensures q.ring[q.tail % NUM] == q.window[0]
    ensures QueueOk(t', q.(tail := (q.tail + 1) % INDEX, first := q.first + 1, window := q.window[1..]), from)
  {
    SlotOf(q.first);
    RingPop(q.ring, q.first, q.window);
    forall h | h in t'.chains && t'.chains[h].phase == from
      ensures h in q.window[1..]
    {
      assert h in q.window;
    }
  }

  /** A request enters the back of a ring. */
  lemma PushKeeps(t: Table, q: Ring, ph: Phase, t': Table, h: nat, c: Chain)
    requires TableOk(t) && QueueOk(t, q, ph) && c.phase == ph && (h in t.chains ==> t.chains[h].phase != ph)
    requires t'.chains == t.chains[h := c]
    ensures QueueOk(t', q.(ring := q.ring[q.head % NUM := h], head := (q.head + 1) % INDEX, window := q.window + [h]),
                    ph)
  {
    InFlightBound(t, q.window);
    SlotOf(q.first + |q.window|);
    RingPush(q.ring, q.first, q.window, h);
    assert h !in q.window;
  }

  /** Other phases do not concern a ring. */
  lemma OtherPhase(t: Table, q: Ring, ph: Phase, t': Table, h: nat, c: Chain)
    requires QueueOk(t, q, ph) && c.phase != ph && t'.chains == t.chains[h := c]
             && (h in t.chains ==> t.chains[h].phase != ph)
    ensures QueueOk(t', q, ph)
  {
  }

  // ---------------------------------------------------------------- what each step does to the table

  function FormattedDesc(desc: seq<Desc>, h: nat, d1: nat, d2: nat, b: nat, write: bool): (r: seq<Desc>)
    requires |desc| == NUM && h < NUM && d1 < NUM && d2 < NUM
    ensures |r| == NUM
  {
    desc[h := Desc(OpAddr(h), 16, F_NEXT, d1)]
      [d1 := Desc(BufData(b), BSIZE, if write then F_NEXT else F_WRITE + F_NEXT, d2)]
      [d2 := Desc(StatusAddr(h), 1, F_WRITE, 0)]
  }

  /** Free descriptors are formatted into a request. */
  function Formatted(t: Table, h: nat, d1: nat, d2: nat, b: nat, op: Op): Table
    requires Sized(t) && h < NUM && d1 < NUM && d2 < NUM && b < |t.busy|
  {
    Table(t.free[h := false][d1 := false][d2 := false], FormattedDesc(t.desc, h, d1, d2, b, op.write),
          t.info[h := Info(b, 0xff)], t.ops[h := op], t.busy[b := true],
          t.owner[h := h][d1 := h][d2 := h], t.chains[h := Chain(d1, d2, b, op, Queued)])
  }

  lemma FormatKeeps(t: Table, h: nat, d1: nat, d2: nat, b: nat, op: Op)
    requires TableOk(t) && h < NUM && d1 < NUM && d2 < NUM && h != d1 && h != d2 && d1 != d2
    requires t.free[h] && t.free[d1] && t.free[d2] && b < |t.busy|
    requires forall g :: g in t.chains ==> t.chains[g].b != b
    ensures h !in t.chains && TableOk(Formatted(t, h, d1, d2, b, op))
  {
    var t' := Formatted(t, h, d1, d2, b, op);
    assert h in t.chains ==> ChainOk(t, h);
    forall i | 0 <= i < NUM
      ensures DescOk(t', i)
    {
      assert DescOk(t, i);
    }
    forall g | g in t'.chains
      ensures ChainOk(t', g)
    {
      assert g in t.chains ==> ChainOk(t, g);
      if g != h {
        FormatOther(t, h, d1, d2, b, op, g);
      } else {
        FormatOwn(t, h, d1, d2, b, op);
      }
    }
  }

  lemma FormatOwn(t: Table, h: nat, d1: nat, d2: nat, b: nat, op: Op)
    requires Sized(t) && h < NUM && d1 < NUM && d2 < NUM && h != d1 && h != d2 && d1 != d2 && b < |t.busy|
    ensures ChainOk(Formatted(t, h, d1, d2, b, op), h)
  {
  }

  lemma FormatOther(t: Table, h: nat, d1: nat, d2: nat, b: nat, op: Op, g: nat)
    requires Sized(t) && h < NUM && d1 < NUM && d2 < NUM && t.free[h] && t.free[d1] && t.free[d2] && b < |t.busy|
    requires g in t.chains && g != h && ChainOk(t, g) && t.chains[g].b != b
    ensures ChainOk(Formatted(t, h, d1, d2, b, op), g)
  {
  }

  /** A request moves on: to Taken, to Completed with its status written, or to Done with
      its buffer's flag cleared. */
  function Moved(t: Table, h: nat, ph: Phase): Table
    requires Sized(t) && h in t.chains && ChainOk(t, h)
  {
    var c := t.chains[h];
    t.(chains := t.chains[h := c.(phase := ph)],
       info := if ph == Completed then t.info[h := t.info[h].(status := 0)] else t.info,
       busy := if ph == Done then t.busy[c.b := false] else t.busy)
  }

  lemma MoveKeeps(t: Table, h: nat, ph: Phase)
    requires TableOk(t) && h in t.chains && t.chains[h].phase != Done
    requires ph == Done ==> t.chains[h].phase == Completed
    ensures ChainOk(t, h) && TableOk(Moved(t, h, ph))
  {
    assert ChainOk(t, h);
    var t' := Moved(t, h, ph);
    forall i | 0 <= i < NUM
      ensures DescOk(t', i)
    {
      assert DescOk(t, i);
    }
    forall g | g in t'.chains
      ensures ChainOk(t', g)
    {
      assert ChainOk(t, g);
    }
  }

  function Zero(): Desc {
    Desc(Null, 0, 0, 0)
  }

  /** A finished request gives its descriptors back. */
  function Released(t: Table, h: nat): Table
    requires Sized(t) && h in t.chains && ChainOk(t, h)
  {
    var c := t.chains[h];
    Table(t.free[h := true][c.d1 := true][c.d2 := true],
          t.desc[h := Zero()][c.d1 := Zero()][c.d2 := Zero()],
          t.info[h := t.info[h].(b := NOBUF)], t.ops, t.busy,
          t.owner[h := NONE][c.d1 := NONE][c.d2 := NONE], t.chains - {h})
  }

  lemma ReleaseKeeps(t: Table, h: nat)
    requires TableOk(t) && h in t.chains
    ensures ChainOk(t, h) && TableOk(Released(t, h))
  {
    assert ChainOk(t, h);
    var t' := Released(t, h);
    forall i | 0 <= i < NUM
      ensures DescOk(t', i)
    {
      assert DescOk(t, i);
    }
    forall g | g in t'.chains
      ensures ChainOk(t', g)
    {
      assert ChainOk(t, g);
    }
  }

  /** Descriptors that are free may hold anything. */
  lemma FreeContents(t: Table, desc': seq<Desc>)
    requires TableOk(t) && |desc'| == NUM && forall i :: 0 <= i < NUM && !t.free[i] ==> desc'[i] == t.desc[i]
    ensures TableOk(t.(desc := desc'))
  {
    var t' := t.(desc := desc');
    forall i | 0 <= i < NUM
      ensures DescOk(t', i)
    {
      assert DescOk(t, i);
    }
    forall g | g in t'.chains
      ensures ChainOk(t', g)
    {
      assert ChainOk(t, g);
    }
  }

  // ---------------------------------------------------------------- ... and to the queue

  function Pushed(q: Ring, h: nat): Ring
    requires |q.ring| == NUM
  {
    q.(ring := q.ring[q.head % NUM := h], head := (q.head + 1) % INDEX, window := q.window + [h])
  }

  function Popped(q: Ring): Ring
    requires q.window != []
  {
    q.(tail := (q.tail + 1) % INDEX, first := q.first + 1, window := q.window[1..])
  }

  /** What the device finds behind the head of a request. */
  lemma DeviceReads(t: Table, h: nat)
    requires Sized(t) && h in t.chains && ChainOk(t, h)
    ensures |t.desc| == |t.ops| == NUM && h < NUM && t.desc[h].addr == OpAddr(h) && t.desc[h].next < NUM
    ensures t.ops[h] == t.chains[h].op && t.desc[t.desc[h].next].addr == BufData(t.chains[h].b)
  {
  }

  /** The indices tell exactly whether a ring is empty. */
  lemma EmptyIff(t: Table, a: Ring, u: Ring)
    requires DiskOk(t, a, u)
    ensures Sized(t) && |a.ring| == |u.ring| == NUM
    ensures (a.head == a.tail <==> a.window == []) && (u.head == u.tail <==> u.window == [])
  {
    QueueShort(t, a, Queued);
    QueueShort(t, u, Completed);
  }

  lemma RequestOk(t: Table, a: Ring, u: Ring, h: nat)
    requires DiskOk(t, a, u) && h in t.chains
    ensures Sized(t) && ChainOk(t, h)
  {
    assert ChainOk(t, h);
  }

  lemma StartStep(t: Table, a: Ring, u: Ring, h: nat, d1: nat, d2: nat, b: nat, op: Op)
    requires DiskOk(t, a, u) && h < NUM && d1 < NUM && d2 < NUM && h != d1 && h != d2 && d1 != d2
    requires t.free[h] && t.free[d1] && t.free[d2] && b < |t.busy| && forall g :: g in t.chains ==> t.chains[g].b != b
    ensures h !in t.chains && DiskOk(Formatted(t, h, d1, d2, b, op), Pushed(a, h), u)
  {
    var t' := Formatted(t, h, d1, d2, b, op);
    FormatKeeps(t, h, d1, d2, b, op);
    PushKeeps(t, a, Queued, t', h, t'.chains[h]);
    OtherPhase(t, u, Completed, t', h, t'.chains[h]);
  }

  lemma ScratchStep(t: Table, desc': seq<Desc>, a: Ring, u: Ring)
    requires DiskOk(t, a, u) && |desc'| == NUM && |t.free| == NUM && |t.desc| == NUM
    requires forall i :: 0 <= i < NUM && !t.free[i] ==> desc'[i] == t.desc[i]
    ensures DiskOk(t.(desc := desc'), a, u)
  {
    FreeContents(t, desc');
  }

  /** What the device reads at the front of the available ring is a request of the driver. */
  lemma TakeStep(t: Table, a: Ring, u: Ring)
    requires DiskOk(t, a, u) && a.window != []
    ensures var h := a.window[0];
            && a.ring[a.tail % NUM] == h && h in t.chains && t.chains[h].phase == Queued && ChainOk(t, h)
            && DiskOk(Moved(t, h, Taken), Popped(a), u)
  {
    hide ChainOk, DescOk;
    var h := a.window[0];
    MoveKeeps(t, h, Taken);
    PopKeeps(t, a, Queued, Moved(t, h, Taken), Taken);
    OtherPhase(t, u, Completed, Moved(t, h, Taken), h, t.chains[h].(phase := Taken));
  }

  lemma CompleteStep(t: Table, a: Ring, u: Ring, h: nat)
    requires DiskOk(t, a, u) && h in t.chains && t.chains[h].phase == Taken
    ensures ChainOk(t, h) && DiskOk(Moved(t, h, Completed), a, Pushed(u, h))
  {
    MoveKeeps(t, h, Completed);
    PushKeeps(t, u, Completed, Moved(t, h, Completed), h, t.chains[h].(phase := Completed));
    OtherPhase(t, a, Queued, Moved(t, h, Completed), h, t.chains[h].(phase := Completed));
  }

  /** What the driver reads at the front of the used ring is a completed request. */
  lemma DoneStep(t: Table, a: Ring, u: Ring)
    requires DiskOk(t, a, u) && u.window != []
    ensures var h := u.window[0];
            && u.ring[u.tail % NUM] == h && h in t.chains && t.chains[h].phase == Completed && ChainOk(t, h)
            && DiskOk(Moved(t, h, Done), a, Popped(u))
  {
    hide ChainOk, DescOk;
    var h := u.window[0];
    MoveKeeps(t, h, Done);
    PopKeeps(t, u, Completed, Moved(t, h, Done), Done);
    OtherPhase(t, a, Queued, Moved(t, h, Done), h, t.chains[h].(phase := Done));
  }

  lemma FinishStep(t: Table, a: Ring, u: Ring, h: nat)
    requires DiskOk(t, a, u) && h in t.chains && t.chains[h].phase == Done
    ensures ChainOk(t, h) && DiskOk(Released(t, h), a, u)
  {
    ReleaseKeeps(t, h);
  }

  // ---------------------------------------------------------------- driver and device

  class Disk {
    // struct disk
    var free: seq<bool>
    var desc: seq<Desc>
    var info: seq<Info>
    var ops: seq<Op>
    var availRing: seq<nat>
    var availIdx: nat
    var usedRing: seq<nat>
    var usedDevIdx: nat       // disk.used->idx, written by the device
    var usedIdx: nat          // how far the driver has looked
    var busy: seq<bool>       // b->disk of each buffer
    var devIdx: nat           // how far the device has looked

    ghost var owner: seq<nat>
    ghost var chains: map<nat, Chain>
    ghost var availFirst: nat
    ghost var availWindow: seq<nat>
    ghost var usedFirst: nat
    ghost var usedWindow: seq<nat>

    ghost function T(): Table
      reads this
    {
      Table(free, desc, info, ops, busy, owner, chains)
    }

    ghost function Avail(): Ring
      reads this
    {
      Ring(availRing, availIdx, devIdx, availFirst, availWindow)
    }

    ghost function Used(): Ring
      reads this
    {
      Ring(usedRing, usedDevIdx, usedIdx, usedFirst, usedWindow)
    }

    ghost predicate Valid()
      reads this
    {
      DiskOk(T(), Avail(), Used())
    }

    /** virtio_disk_init: nothing in flight. */
    constructor (nbuf: nat)
      ensures Valid() && chains == map[] && |busy| == nbuf && forall i :: 0 <= i < NUM ==> free[i]
    {
      free := seq(NUM, _ => true);
      desc := seq(NUM, _ => Zero());
      info := seq(NUM, _ => Info(NOBUF, 0));
      ops := seq(NUM, _ => Op(false, 0));
      availRing, usedRing := seq(NUM, _ => 0), seq(NUM, _ => 0);
      availIdx, usedDevIdx, usedIdx, devIdx := 0, 0, 0, 0;
      busy := seq(nbuf, _ => false);
      owner, chains := seq(NUM, _ => NONE), map[];
      availFirst, availWindow, usedFirst, usedWindow := 0, [], 0, [];
      new;
      forall i | 0 <= i < NUM
        ensures DescOk(T(), i)
      {
      }
    }

    method AllocDesc() returns (i: int)
      requires |free| == NUM
      modifies `free
      ensures i == -1 ==> free == old(free) && forall k :: 0 <= k < NUM ==> !free[k]
      ensures i != -1 ==> 0 <= i < NUM && old(free)[i] && free == old(free)[i := false]
    {
      i := 0;
      while i < NUM
        invariant 0 <= i <= NUM && free == old(free) && forall k :: 0 <= k < i ==> !free[k]
      {
        if free[i] {
          free := free[i := false];
          return;
        }
        i := i + 1;
      }
      i := -1;
    }

    /** free_desc.  An index out of range or a descriptor already free would be a panic. */
    method FreeDesc(i: nat)
      requires |free| == |desc| == NUM && i < NUM && !free[i]
      modifies `free, `desc
      ensures free == old(free)[i := true] && desc == old(desc)[i := Zero()]
    {
      desc := desc[i := Desc(Null, 0, 0, 0)];
      free := free[i := true];
    }

    /** alloc3_desc: three different free descriptors, or none taken because there are fewer. */
    method Alloc3Desc() returns (ok: bool, idx: seq<nat>)
      requires |free| == |desc| == NUM
      modifies `free, `desc
      ensures |free| == |desc| == NUM && forall k :: 0 <= k < NUM && !old(free)[k] ==> desc[k] == old(desc)[k]
      ensures ok ==> |idx| == 3 && NoDup(idx) && (forall j :: 0 <= j < 3 ==> idx[j] < NUM && old(free)[idx[j]])
                     && free == old(free)[idx[0] := false][idx[1] := false][idx[2] := false]
      ensures !ok ==> free == old(free) && forall a, b, c :: 0 <= a < b < c < NUM ==> !(free[a] && free[b] && free[c])
    {
      idx := [];
      var i := 0;
      while i < 3
        invariant 0 <= i <= 3 && |idx| == i && |free| == NUM && NoDup(idx) && desc == old(desc)
        invariant forall j :: 0 <= j < i ==> idx[j] < NUM && old(free)[idx[j]]
        invariant forall k :: 0 <= k < NUM ==> (free[k] <==> old(free)[k] && k !in idx)
      {
        var d := AllocDesc();
        if d < 0 {
          assert forall k :: 0 <= k < NUM && old(free)[k] ==> k in idx;
          FewFree(old(free), idx);
          GiveBack(idx, old(free));
          return false, idx;
        }
        idx := idx + [d];
        i := i + 1;
      }
      assert free == old(free)[idx[0] := false][idx[1] := false][idx[2] := false];
      ok := true;
    }

    /** virtio_disk_rw up to the point where it waits: the request is formatted, recorded
        and published; or there are not enough descriptors and nothing has changed.  The
        caller holds the buffer, so no request for it is in flight. */
    method Start(b: nat, blockno: nat, write: bool) returns (ok: bool, h: nat)
      requires Valid() && b < |busy| && forall g :: g in chains ==> chains[g].b != b
      modifies this
      ensures Valid()
      ensures ok ==> && h !in old(chains) && h in chains && chains == old(chains)[h := chains[h]]
                     && chains[h] == Chain(chains[h].d1, chains[h].d2, b, Op(write, blockno * 2 % 0x1_0000_0000),
                                           Queued)
                     && availWindow == old(availWindow) + [h] && usedWindow == old(usedWindow)
      ensures !ok ==> chains == old(chains) && availWindow == old(availWindow) && usedWindow == old(usedWindow)
      ensures busy == if ok then old(busy)[b := true] else old(busy)
    {
      hide DiskOk, QueueOk, ChainOk, DescOk;
      h := 0;
      var idx;
      ghost var t0: Table := T();
      EmptyIff(t0, Avail(), Used());
      ok, idx := Alloc3Desc();
      label AfterAlloc:
      ScratchStep(t0, desc, Avail(), Used());
      if !ok {
        return;
      }
      h := idx[0];
      var op := Op(write, blockno * (BSIZE / 512) % 0x1_0000_0000);
      StartStep(t0.(desc := desc), Avail(), Used(), h, idx[1], idx[2], b, op);
      Publish(b, op, h, idx[1], idx[2]);
      assert T() == Formatted(t0.(desc := old@AfterAlloc(desc)), h, idx[1], idx[2], b, op);
    }

    /** The stores that make a request of three allocated descriptors. */
    method Publish(b: nat, op: Op, h: nat, d1: nat, d2: nat)
      requires Sized(T()) && |availRing| == NUM && h < NUM && d1 < NUM && d2 < NUM && b < |busy|
      modifies `ops, `desc, `info, `busy, `availRing, `availIdx, `owner, `chains, `availWindow
      ensures desc == FormattedDesc(old(desc), h, d1, d2, b, op.write) && ops == old(ops)[h := op]
      ensures info == old(info)[h := Info(b, 0xff)] && busy == old(busy)[b := true]
      ensures owner == old(owner)[h := h][d1 := h][d2 := h] && chains == old(chains)[h := Chain(d1, d2, b, op, Queued)]
      ensures Avail() == Pushed(old(Avail()), h)
    {
      var table := desc[h := Desc(OpAddr(h), 16, F_NEXT, d1)];
      table := table[d1 := Desc(BufData(b), BSIZE, if op.write then F_NEXT else F_WRITE + F_NEXT, d2)];
      table := table[d2 := Desc(StatusAddr(h), 1, F_WRITE, 0)];
      ops, desc, info, busy := ops[h := op], table, info[h := Info(b, 0xff)], busy[b := true];
      availRing, availIdx := availRing[availIdx % NUM := h], (availIdx + 1) % INDEX;
      owner, chains, availWindow := owner[h := h][d1 := h][d2 := h],
                                    chains[h := Chain(d1, d2, b, op, Queued)], availWindow + [h];
    }

    /** The device takes the next request, if there is one, and learns from the descriptors
        exactly what the driver asked for. */
    method DeviceTake() returns (some: bool, h: nat, op: Op, b: nat)
      requires Valid()
      modifies `devIdx, `chains, `availFirst, `availWindow
      ensures Valid()
      ensures some <==> old(availWindow) != []
      ensures some ==> h == old(availWindow)[0] && availWindow == old(availWindow)[1..]
                       && h in old(chains) && chains == old(chains)[h := old(chains)[h].(phase := Taken)]
                       && op == chains[h].op && b == chains[h].b
      ensures !some ==> chains == old(chains) && availWindow == old(availWindow)
    {
      hide DiskOk, ChainOk, Sized;
      EmptyIff(T(), Avail(), Used());
      some, h, op, b := devIdx != availIdx, 0, Op(false, 0), 0;
      if some {
        TakeStep(T(), Avail(), Used());
        DeviceReads(T(), availWindow[0]);
        h := availRing[devIdx % NUM];
        var d0 := desc[h];
        op := ops[d0.addr.i];
        b := desc[d0.next].addr.b;
        devIdx := (devIdx + 1) % INDEX;
        chains := chains[h := chains[h].(phase := Taken)];
        availFirst, availWindow := availFirst + 1, availWindow[1..];
      }
    }

    /** The device completes a request it has taken, whichever it likes. */
    method DeviceComplete(h: nat)
      requires Valid() && h in chains && h < NUM && chains[h].phase == Taken
      modifies `info, `usedRing, `usedDevIdx, `chains, `usedWindow
      ensures Valid()
      ensures chains == old(chains)[h := old(chains)[h].(phase := Completed)] && usedWindow == old(usedWindow) + [h]
    {
      hide DiskOk, QueueOk, TableOk, ChainOk, RingOk, DescOk, NoDup;
      EmptyIff(T(), Avail(), Used());
      CompleteStep(T(), Avail(), Used(), h);
      info := info[h := info[h].(status := 0)];
      usedRing := usedRing[usedDevIdx % NUM := h];
      usedDevIdx := (usedDevIdx + 1) % INDEX;
      chains := chains[h := chains[h].(phase := Completed)];
      usedWindow := usedWindow + [h];
    }

    /** One round of virtio_disk_intr's loop: the next completed request's buffer is flagged
        done, and no other.  A status other than 0 would be a panic. */
    method InterruptOne()
      requires Valid() && usedWindow != []
      modifies `busy, `usedIdx, `chains, `usedFirst, `usedWindow
      ensures Valid()
      ensures var h := old(usedWindow)[0];
              && h < |old(info)| && h in old(chains) && old(chains)[h].phase == Completed && old(info)[h].status == 0
              && old(chains)[h].b < |old(busy)| && old(busy)[old(chains)[h].b]
              && chains == old(chains)[h := old(chains)[h].(phase := Done)]
              && busy == old(busy)[old(chains)[h].b := false]
      ensures usedWindow == old(usedWindow)[1..]
    {
      hide DiskOk, QueueOk, TableOk;
      EmptyIff(T(), Avail(), Used());
      DoneStep(T(), Avail(), Used());
      var id := usedRing[usedIdx % NUM];
      assert info[id].status == 0;
      var b := info[id].b;
      busy := busy[b := false];
      usedIdx := (usedIdx + 1) % INDEX;
      chains := chains[id := chains[id].(phase := Done)];
      usedFirst, usedWindow := usedFirst + 1, usedWindow[1..];
    }

    /** virtio_disk_intr: every request completed so far becomes done and its buffer is no
        longer the disk's; nothing else changes. */
    method Interrupt()
      requires Valid()
      modifies `busy, `usedIdx, `chains, `usedFirst, `usedWindow
      ensures Valid() && usedWindow == [] && chains.Keys == old(chains).Keys
      ensures forall h :: h in chains ==>
                chains[h] == if old(chains)[h].phase == Completed then old(chains)[h].(phase := Done)
                             else old(chains)[h]
      ensures |busy| == |old(busy)|
      ensures forall b :: 0 <= b < |busy| ==> (busy[b] <==> old(busy)[b] && !AwaitsFlag(old(chains), b))
    {
      hide DiskOk, QueueOk, TableOk, Avail;
      EmptyIff(T(), Avail(), Used());
      while usedIdx != usedDevIdx
        invariant Valid() && chains.Keys == old(chains).Keys && (usedIdx == usedDevIdx <==> usedWindow == [])
        invariant forall h :: h in chains ==> Flagged(old(chains)[h], chains[h])
        invariant |busy| == |old(busy)|
        invariant forall b :: 0 <= b < |busy| ==>
                    (busy[b] <==> old(busy)[b] && !(AwaitsFlag(old(chains), b) && !AwaitsFlag(chains, b)))
        decreases |usedWindow|
      {
        FlagStep(T(), Avail(), Used(), old(chains));
        InterruptOne();
        EmptyIff(T(), Avail(), Used());
      }
      NoneCompleted(T(), Avail(), Used());
    }

    /** virtio_disk_rw after its wait: the buffer is no longer the disk's, so the request is
        done; its descriptors become free.  free_desc's panics cannot happen. */
    method Finish(h: nat)
      requires Valid() && h in chains && h < NUM && chains[h].b < |busy| && !busy[chains[h].b]
      modifies `info, `free, `desc, `owner, `chains
      ensures Valid() && old(chains)[h].phase == Done && chains == old(chains) - {h}
    {
      hide DiskOk, QueueOk, TableOk;
      RequestOk(T(), Avail(), Used(), h);
      FinishStep(T(), Avail(), Used(), h);
      ghost var c, t0 := chains[h], T();
      info := info[h := info[h].(b := NOBUF)];
      FreeChain(h, [h, c.d1, c.d2]);
      owner := owner[h := NONE][c.d1 := NONE][c.d2 := NONE];
      chains := chains - {h};
      assert T() == Released(t0, h);
    }

    /** free_chain: follows next while F_NEXT is set. */
    method FreeChain(h: nat, ghost ds: seq<nat>)
      requires |free| == |desc| == NUM && |ds| == 3 && NoDup(ds) && ds[0] == h
      requires forall j :: 0 <= j < 3 ==> ds[j] < NUM && !free[ds[j]] && (desc[ds[j]].flags % 2 == 1 <==> j < 2)
                                          && (j < 2 ==> desc[ds[j]].next == ds[j + 1])
      modifies `free, `desc
      ensures free == old(free)[ds[0] := true][ds[1] := true][ds[2] := true]
      ensures desc == old(desc)[ds[0] := Zero()][ds[1] := Zero()][ds[2] := Zero()]
    {
      var i := h;
      ghost var j := 0;
      while true
        invariant 0 <= j < 3 && i == ds[j] && |free| == |desc| == NUM
        invariant free == (if j == 0 then old(free) else if j == 1 then old(free)[ds[0] := true]
                           else old(free)[ds[0] := true][ds[1] := true])
        invariant desc == (if j == 0 then old(desc) else if j == 1 then old(desc)[ds[0] := Zero()]
                           else old(desc)[ds[0] := Zero()][ds[1] := Zero()])
        decreases 3 - j
      {
        var flag, nxt := desc[i].flags, desc[i].next;
        FreeDesc(i);
        if flag % 2 == 1 {
          i := nxt;
          j := j + 1;
        } else {
          break;
        }
      }
    }

    /** The loop of alloc3_desc that undoes a partial allocation. */
    method GiveBack(idx: seq<nat>, ghost free0: seq<bool>)
      requires |free| == |desc| == |free0| == NUM && NoDup(idx)
      requires forall j :: 0 <= j < |idx| ==> idx[j] < NUM && free0[idx[j]]
      requires forall k :: 0 <= k < NUM ==> (free[k] <==> free0[k] && k !in idx)
      modifies `free, `desc
      ensures free == free0 && |desc| == NUM && forall k :: 0 <= k < NUM && !free0[k] ==> desc[k] == old(desc)[k]
    {
      var j := 0;
      while j < |idx|
        invariant 0 <= j <= |idx| && |free| == |desc| == NUM
        invariant forall k :: 0 <= k < NUM ==> (free[k] <==> free0[k] && k !in idx[j..])
        invariant forall k :: 0 <= k < NUM && !free0[k] ==> desc[k] == old(desc)[k]
      {
        assert idx[j] in idx[j..] && idx[j..] == [idx[j]] + idx[j + 1..];
        FreeDesc(idx[j]);
        j := j + 1;
      }
    }
  }

  /** The device is done with buffer b, and the driver has not noticed. */
  ghost predicate AwaitsFlag(chains: map<nat, Chain>, b: nat) {
    exists h :: h in chains && chains[h].b == b && chains[h].phase == Completed
  }

  /** Flagging the request at the front of the used ring settles its buffer and no other. */
  lemma FlagStep(t: Table, a: Ring, u: Ring, chains0: map<nat, Chain>)
    requires DiskOk(t, a, u) && u.window != [] && t.chains.Keys == chains0.Keys
    requires forall h :: h in t.chains ==> Flagged(chains0[h], t.chains[h])
    ensures var h := u.window[0];
            && h in t.chains && AwaitsFlag(chains0, t.chains[h].b)
            && forall b :: AwaitsFlag(t.chains[h := t.chains[h].(phase := Done)], b)
                           <==> AwaitsFlag(t.chains, b) && b != t.chains[h].b
  {
    var h := u.window[0];
    var chains' := t.chains[h := t.chains[h].(phase := Done)];
    forall b
      ensures AwaitsFlag(chains', b) <==> AwaitsFlag(t.chains, b) && b != t.chains[h].b
    {
      if AwaitsFlag(t.chains, b) && b != t.chains[h].b {
        var g :| g in t.chains && t.chains[g].b == b && t.chains[g].phase == Completed;
        assert g in chains' && chains'[g] == t.chains[g];
      }
    }
  }

  /** What a pass over the used ring may make of a request. */
  predicate Flagged(c: Chain, c': Chain) {
    c' == c || (c.phase == Completed && c' == c.(phase := Done))
  }

  lemma NoneCompleted(t: Table, a: Ring, u: Ring)
    requires DiskOk(t, a, u) && u.window == []
    ensures forall h :: h in t.chains ==> t.chains[h].phase != Completed
  {
  }

  lemma FewFree(free: seq<bool>, idx: seq<nat>)
    requires |free| == NUM && |idx| < 3 && forall k :: 0 <= k < NUM && free[k] ==> k in idx
    ensures forall a, b, c :: 0 <= a < b < c < NUM ==> !(free[a] && free[b] && free[c])
  {
  }
}
