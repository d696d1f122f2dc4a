/** Whether bget finds a buffer (kernel/bio.c) while the log pins buffers (kernel/log.c). */
module BufferRoom {
  import opened DiskLog
  import opened Storage
  import AtomicDisk
  import LogSpace
  import Sequences

  /** bget can hand out buffer i for block b. */
  predicate Available(s: State, i: nat, b: nat) {
    i < |s.bufs| && (Caches(s, i, b) || s.bufs[i].refcnt == 0)
  }

  /** bget(b) does not panic. */
  ghost predicate Finds(s: State, b: nat) {
    exists i :: Available(s, i, b)
  }

  ghost predicate IsIn(s: State, b: nat) {
    exists i :: Caches(s, i, b)
  }

  /** No process holds a reference to a buffer. */
  ghost predicate Unused(s: State) {
    forall i :: 0 <= i < |s.bufs| ==> s.bufs[i].users == {}
  }

  function Blocks(bufs: seq<Buf>): (r: seq<nat>)
    ensures |r| == |bufs| && forall i :: 0 <= i < |r| ==> r[i] == bufs[i].block
  {
    seq(|bufs|, i requires 0 <= i < |bufs| => bufs[i].block)
  }

  function StillPinned(c: Core): seq<nat>
    requires c.PinFrom() <= |c.lh|
  {
    c.lh[c.PinFrom()..]
  }

  lemma PinnedIff(c: Core, b: nat)
    requires c.PinFrom() <= |c.lh|
    ensures c.Pinned(b) <==> b in StillPinned(c)
  {
    if b in StillPinned(c) {
      var k :| 0 <= k < |StillPinned(c)| && StillPinned(c)[k] == b;
      assert c.lh[c.PinFrom() + k] == b;
    }
    if c.Pinned(b) {
      var k :| c.PinFrom() <= k < |c.lh| && c.lh[k] == b;
      assert StillPinned(c)[k - c.PinFrom()] == b;
    }
  }

  /** If every buffer is in use, each is pinned, so there are no more buffers than entries. */
  lemma AllInUse(l: Layout, s: State)
    requires Inv(l, s) && Unused(s) && s.core.PinFrom() <= |s.core.lh|
    requires forall i :: 0 <= i < NBUF ==> s.bufs[i].refcnt != 0
    ensures NBUF <= |StillPinned(s.core)|
  {
    hide DirtyOk, Header, LogCopies, SpecOk, DiskCurrent, GoodDisk;
    forall i | 0 <= i < NBUF
      ensures Blocks(s.bufs)[i] in StillPinned(s.core) && s.bufs[i].dev == ROOTDEV
    {
      assert BufOk(l, s.bufs[i], s.core);
      PinnedIff(s.core, s.bufs[i].block);
    }
    Sequences.Pigeonhole(Blocks(s.bufs), StillPinned(s.core));
  }

  /** If a buffer is not in use, the pinned blocks are in the others. */
  lemma SomeFree(l: Layout, s: State, i: nat)
    requires Inv(l, s) && s.core.PinFrom() <= |s.core.lh| && i < NBUF && s.bufs[i].refcnt == 0
    ensures |StillPinned(s.core)| < NBUF
  {
    hide DirtyOk, Header, LogCopies, SpecOk, DiskCurrent, GoodDisk;
    var c, rest := s.core, Blocks(s.bufs[..i] + s.bufs[i + 1..]);
    assert Sequences.NoDup(StillPinned(c)) by {
      ListDistinct(l, s);
    }
    assert BufOk(l, s.bufs[i], c);
    forall k | 0 <= k < |StillPinned(c)|
      ensures StillPinned(c)[k] in rest
    {
      var b := StillPinned(c)[k];
      assert b == c.lh[c.PinFrom() + k] && IsCached(s.bufs, b) && c.Pinned(b);
      var j :| 0 <= j < |s.bufs| && s.bufs[j].dev == ROOTDEV && s.bufs[j].block == b && s.bufs[j].valid;
      assert rest[if j < i then j else j - 1] == b;
    }
    Sequences.Pigeonhole(StillPinned(c), rest);
  }

  lemma ListDistinct(l: Layout, s: State)
    requires Inv(l, s)
    ensures Distinct(s.core.lh)
  {
  }

  /** While nobody else holds a buffer, bget finds one exactly when the log pins fewer than
      all of them or the block is cached.  So it always does on a log of at most NBUF blocks. */
  lemma FindsIff(l: Layout, disk: Disk, ss: seq<State>, ts: seq<Step>, n: nat, b: nat)
    requires IsRun(l, disk, ss, ts) && n < |ss| && Unused(ss[n])
    ensures var c := ss[n].core;
            && c.PinFrom() <= |c.lh| < l.nlog && (Finds(ss[n], b) <==> |c.lh| - c.PinFrom() < NBUF || IsIn(ss[n], b))
            && (l.nlog <= NBUF ==> Finds(ss[n], b))
  {
    RunInv(l, disk, ss, ts, n);
    var s := ss[n];
    RunBounds(l, s);
    if Finds(s, b) {
      var i :| Available(s, i, b);
      if !Caches(s, i, b) {
        SomeFree(l, s, i);
      }
    } else {
      forall i | 0 <= i < NBUF
        ensures s.bufs[i].refcnt != 0
      {
        assert !Available(s, i, b);
      }
      AllInUse(l, s);
      if IsIn(s, b) {
        var i :| Caches(s, i, b);
        assert Available(s, i, b);
      }
    }
  }

  /** The disk that mkfs makes: a log of LOGSIZE blocks, the header included, and empty. */
  const MKFS := Layout(10000, 2, LOGSIZE)

  /** On it runs start, the log never holds more than LOGSIZE - 1 blocks, and while nobody
      else holds a buffer bget finds one. */
  lemma MkfsDisk(disk: Disk, ss: seq<State>, ts: seq<Step>, n: nat, b: nat)
    requires |disk| == MKFS.size && disk[MKFS.start] == ZeroBlock()
    ensures GoodDisk(MKFS, disk)
    ensures IsRun(MKFS, disk, ss, ts) && n < |ss| ==> |ss[n].core.lh| < LOGSIZE && (Unused(ss[n]) ==> Finds(ss[n], b))
  {
    if IsRun(MKFS, disk, ss, ts) && n < |ss| {
      RunInv(MKFS, disk, ss, ts, n);
      RunBounds(MKFS, ss[n]);
      if Unused(ss[n]) {
        FindsIff(MKFS, disk, ss, ts, n, b);
      }
    }
  }

  lemma RunBounds(l: Layout, s: State)
    requires Inv(l, s)
    ensures s.core.PinFrom() <= |s.core.lh| < l.nlog && |s.bufs| == NBUF
  {
  }

  // ---------------------------------------------------------------- a full log

  /** A log with one block more than mkfs gives it. */
  const WIDE := Layout(100, 2, 31)

  function BlankDisk(): Disk {
    seq(WIDE.size, _ => ZeroBlock())
  }

  /** The block the k-th log_write logs, and the operation that does. */
  function Target(k: nat): nat {
    40 + k
  }

  function Operation(k: nat): nat {
    1 + k / MAXOPBLOCKS
  }

  function Entries(k: nat): (r: seq<nat>)
    ensures |r| == k && forall i :: 0 <= i < k ==> r[i] == Target(i)
  {
    seq(k, (i: nat) => Target(i))
  }

  lemma {:induction false} Extend(l: Layout, disk: Disk, ss: seq<State>, ts: seq<Step>, t: Step)
    returns (ss': seq<State>, ts': seq<Step>)
    requires IsRun(l, disk, ss, ts) && Enabled(l, ss[|ss| - 1], t)
    ensures IsRun(l, disk, ss', ts') && ss'[|ss'| - 1] == Next(l, ss[|ss| - 1], t)
  {
    hide Enabled, Next, GoodDisk, Durable;
    var s' := Next(l, ss[|ss| - 1], t);
    ss', ts' := ss + [s'], ts + [t];
    forall i | 0 <= i < |ts'|
      ensures StepAt(l, ss', ts', i)
    {
      if i < |ts| {
        assert StepAt(l, ss, ts, i);
      }
    }
  }

  /** A buffer nobody uses and that caches none of the targets. */
  predicate Spare(b: Buf) {
    b.refcnt == 0 && b.users == {} && b.lock == Free && !b.dirty && (b.dev == ROOTDEV ==> b.block < Target(0))
  }

  /** Buffer i holds the i-th target, pinned and otherwise unused. */
  predicate Full(b: Buf, i: nat) {
    b.dev == ROOTDEV && b.block == Target(i) && b.valid && b.refcnt == 1 && b.users == {} && b.lock == Free && !b.dirty
  }

  /** Three operations have begun, and the first k targets are logged. */
  ghost predicate LoggedTo(s: State, k: nat) {
    && |s.bufs| == NBUF && k <= NBUF
    && (forall i :: 0 <= i < k ==> Full(s.bufs[i], i)) && (forall i :: k <= i < NBUF ==> Spare(s.bufs[i]))
    && CoreAt(s.core, k)
  }

  ghost predicate CoreAt(c: Core, k: nat) {
    && |c.disk| == |c.spec.current| == WIDE.size && c.lh == Entries(k) && c.pc == Idle && !c.committing
    && c.outstanding == 3 && c.ids.Keys == c.added.Keys == {1, 2, 3}
    && forall p :: 1 <= p <= 3 ==> c.added[p] == UsedBy(p, k)
  }

  /** Of the first k targets, how many operation p has logged. */
  function UsedBy(p: nat, k: nat): nat
    requires 1 <= p
  {
    var from := (p - 1) * MAXOPBLOCKS;
    if k <= from then 0 else if k - from <= MAXOPBLOCKS then k - from else MAXOPBLOCKS
  }

  lemma UsedNext(k: nat)
    requires k < NBUF
    ensures 1 <= Operation(k) <= 3 && UsedBy(Operation(k), k) < MAXOPBLOCKS
    ensures forall p :: 1 <= p <= 3 ==> UsedBy(p, k + 1) == UsedBy(p, k) + if p == Operation(k) then 1 else 0
  {
  }

  /** As LoggedTo, but for buffer k, which is b, and with j blocks logged. */
  ghost predicate Working(s: State, k: nat, b: Buf, j: nat) {
    && |s.bufs| == NBUF && k < NBUF && s.bufs[k] == b
    && (forall i :: 0 <= i < k ==> Full(s.bufs[i], i)) && (forall i :: k < i < NBUF ==> Spare(s.bufs[i]))
    && CoreAt(s.core, j)
  }

  /** bread of the next target. */
  lemma Fetch(ss: seq<State>, ts: seq<Step>, k: nat) returns (ss': seq<State>, ts': seq<Step>, b: Buf)
    requires IsRun(WIDE, BlankDisk(), ss, ts) && k < NBUF && LoggedTo(ss[|ss| - 1], k)
    ensures IsRun(WIDE, BlankDisk(), ss', ts') && Working(ss'[|ss'| - 1], k, b, k)
    ensures b.dev == ROOTDEV && b.block == Target(k) && b.valid && b.refcnt == 1 && !b.dirty
            && b.lock == Held(Operation(k)) && b.users == {Operation(k)}
  {
    hide StepAt, GoodDisk, UsedBy, Operation;
    var p := Operation(k);
    var s0 := ss[|ss| - 1];
    assert forall j :: 0 <= j < NBUF ==> !Caches(s0, j, Target(k));
    ss', ts' := Extend(WIDE, BlankDisk(), ss, ts, Recycle(p, k, Target(k)));
    ss', ts' := Extend(WIDE, BlankDisk(), ss', ts', Acquire(p, k));
    ss', ts' := Extend(WIDE, BlankDisk(), ss', ts', Fill(p, k));
    b := ss'[|ss'| - 1].bufs[k];
  }

  /** log_write and brelse of it. */
  lemma LogIt(ss: seq<State>, ts: seq<Step>, k: nat, b: Buf) returns (ss': seq<State>, ts': seq<Step>)
    requires IsRun(WIDE, BlankDisk(), ss, ts) && Working(ss[|ss| - 1], k, b, k)
    requires b.dev == ROOTDEV && b.block == Target(k) && b.valid && b.refcnt == 1 && !b.dirty
             && b.lock == Held(Operation(k)) && b.users == {Operation(k)}
    ensures IsRun(WIDE, BlankDisk(), ss', ts') && LoggedTo(ss'[|ss'| - 1], k + 1)
  {
    hide StepAt, GoodDisk, UsedBy, Operation;
    var p := Operation(k);
    UsedNext(k);
    var s0 := ss[|ss| - 1];
    ss', ts' := Extend(WIDE, BlankDisk(), ss, ts, LogWrite(p, k));
    LoggedCore(s0.core, p, k, b.data);
    ss', ts' := Extend(WIDE, BlankDisk(), ss', ts', Release(p, k));
    ss', ts' := Extend(WIDE, BlankDisk(), ss', ts', Drop(p, k));
  }

  lemma LoggedCore(c: Core, p: nat, k: nat, x: Block)
    requires CoreAt(c, k) && k < NBUF && p == Operation(k) && 1 <= p <= 3
    ensures Target(k) !in c.lh && CoreAt(Logged(c, p, Target(k), x), k + 1)
  {
    hide UsedBy, Operation;
    UsedNext(k);
    assert Entries(k) + [Target(k)] == Entries(k + 1);
  }

  lemma {:induction false} LogTargets(k: nat) returns (ss: seq<State>, ts: seq<Step>)
    requires k <= NBUF
    ensures IsRun(WIDE, BlankDisk(), ss, ts) && LoggedTo(ss[|ss| - 1], k)
  {
    hide StepAt, GoodDisk, LoggedTo, Working;
    if k == 0 {
      ss, ts := Started();
    } else {
      ss, ts := LogTargets(k - 1);
      var b;
      ss, ts, b := Fetch(ss, ts, k - 1);
      ss, ts := LogIt(ss, ts, k - 1, b);
    }
  }

  /** Power-up on an empty disk: the header is read and the log is empty. */
  lemma HeaderRead() returns (ss: seq<State>, ts: seq<Step>)
    ensures IsRun(WIDE, BlankDisk(), ss, ts)
    ensures var s := ss[|ss| - 1];
            && |s.bufs| == NBUF && (forall i :: 1 <= i < NBUF ==> s.bufs[i] == EmptyBuf())
            && s.bufs[0] == Buf(ROOTDEV, WIDE.start, true, 1, ZeroBlock(), Held(0), {0}, false)
            && s.core == Core(BlankDisk(), [], 0, false, 0, BootInstall(0), map[], map[], s.core.spec)
            && |s.core.spec.current| == WIDE.size
  {
    var disk := BlankDisk();
    ss, ts := [PowerUp(disk, AtomicDisk.Boot(Durable(WIDE, disk)))], [];
    ss, ts := Extend(WIDE, disk, ss, ts, Recycle(0, 0, WIDE.start));
    ss, ts := Extend(WIDE, disk, ss, ts, Acquire(0, 0));
    ss, ts := Extend(WIDE, disk, ss, ts, Fill(0, 0));
    ss, ts := Extend(WIDE, disk, ss, ts, ReadHeader(0));
  }

  /** ... and recovery is over. */
  lemma Booted() returns (ss: seq<State>, ts: seq<Step>)
    ensures IsRun(WIDE, BlankDisk(), ss, ts)
    ensures Running(ss[|ss| - 1], 0)
  {
    hide StepAt, GoodDisk;
    var disk := BlankDisk();
    ss, ts := HeaderRead();
    ss, ts := Extend(WIDE, disk, ss, ts, RecoverDone(0));
    ss, ts := Extend(WIDE, disk, ss, ts, Release(0, 0));
    ss, ts := Extend(WIDE, disk, ss, ts, Drop(0, 0));
  }

  /** k operations have begun and logged nothing. */
  ghost predicate Running(s: State, k: nat) {
    && |s.bufs| == NBUF && (forall i :: 0 <= i < NBUF ==> Spare(s.bufs[i]))
    && |s.core.disk| == |s.core.spec.current| == WIDE.size && s.core.lh == [] && s.core.pc == Idle
    && !s.core.committing && s.core.outstanding == k && s.core.ids.Keys == s.core.added.Keys
    && (forall p :: p in s.core.ids <==> 1 <= p <= k) && forall p :: 1 <= p <= k ==> s.core.added[p] == 0
  }

  lemma BeginOne(ss: seq<State>, ts: seq<Step>, k: nat) returns (ss': seq<State>, ts': seq<Step>)
    requires IsRun(WIDE, BlankDisk(), ss, ts) && Running(ss[|ss| - 1], k) && k < 3
    ensures IsRun(WIDE, BlankDisk(), ss', ts') && Running(ss'[|ss'| - 1], k + 1)
  {
    hide StepAt, GoodDisk, Spare;
    var s := ss[|ss| - 1];
    assert s.core.added.Keys + {k + 1} == s.core.ids.Keys + {k + 1};
    ss', ts' := Extend(WIDE, BlankDisk(), ss, ts, BeginOp(k + 1));
  }

  lemma Started() returns (ss: seq<State>, ts: seq<Step>)
    ensures IsRun(WIDE, BlankDisk(), ss, ts) && LoggedTo(ss[|ss| - 1], 0)
  {
    hide StepAt, GoodDisk, Spare;
    ss, ts := Booted();
    ss, ts := BeginOne(ss, ts, 0);
    ss, ts := BeginOne(ss, ts, 1);
    ss, ts := BeginOne(ss, ts, 2);
    assert ss[|ss| - 1].core.ids.Keys == {1, 2, 3};
  }

  /** A run in which three operations log NBUF blocks and end, and the committer then finds
      no buffer for the first log block. */
  lemma FullLogRun() returns (ss: seq<State>, ts: seq<Step>)
    ensures IsRun(WIDE, BlankDisk(), ss, ts)
    ensures var s := ss[|ss| - 1];
            s.core.pc == CopyOut(0) && |s.core.lh| == NBUF && Unused(s) && !Finds(s, WIDE.Slot(0))
  {
    hide StepAt, GoodDisk;
    var disk := BlankDisk();
    ss, ts := LogTargets(NBUF);
    ss, ts := Extend(WIDE, disk, ss, ts, EndOp(1));
    ss, ts := Extend(WIDE, disk, ss, ts, EndOp(2));
    ss, ts := Extend(WIDE, disk, ss, ts, EndOp(3));
    var s := ss[|ss| - 1];
    forall i | 0 <= i < NBUF
      ensures !Available(s, i, WIDE.Slot(0)) && s.bufs[i].users == {}
    {
      assert Full(s.bufs[i], i);
    }
  }
}
