/** The buffer cache of kernel/bio.c and the log of kernel/log.c as one concurrent
    machine with crashes.

    Any number of processes take steps in any order.  A step is what the kernel does
    under one spinlock, or one transfer between a locked buffer and the disk.  The
    committing process needs the same buffer locks as everybody else; readers that are
    in no transaction run beside it.  A crash may come between any two steps, also
    during recovery; it keeps the disk and nothing else.

    File-system code is assumed to keep three rules: change a buffer only while holding
    its lock inside a transaction, log what was changed before unlocking it, and log at
    most MAXOPBLOCKS new blocks per transaction.
 */
module Storage {
  import opened DiskLog
  import LogCommit
  import LogSpace
  import AtomicDisk
  import BufferCache

  const NBUF := BufferCache.NBUF
  const ROOTDEV := 1

  type Pid = nat

  datatype Lock = Free | Held(pid: Pid)

  /** A buffer; users and dirty are not in the source: the processes that hold a
      reference, and whether the contents were changed and not logged yet. */
  datatype Buf = Buf(dev: nat, block: nat, valid: bool, refcnt: int, data: Block, lock: Lock,
                     users: set<Pid>, dirty: bool)

  /** Where the committing or recovering process is. */
  datatype Pc =
    | Idle
    | CopyOut(tail: nat)      // write_log
    | Install(tail: nat)      // install_trans(0), before writing entry tail home
    | Unpin(tail: nat)        // the same, entry tail written but still pinned
    | Finish                  // commit() returned
    | BootRead                // recover_from_log, header not read yet
    | BootInstall(tail: nat)  // install_trans(1)

  /** The disk and struct log. */
  datatype Core = Core(
    disk: Disk,
    lh: seq<nat>,             // log.lh
    outstanding: nat,
    committing: bool,
    agent: Pid,               // the process that commits or recovers
    pc: Pc,
    ids: map<Pid, nat>,       // running operations and their numbers
    added: map<Pid, nat>,     // blocks each running operation added to the log
    spec: AtomicDisk.State)   // what all this is meant to be
  {
    predicate Booting() {
      pc.BootRead? || pc.BootInstall?
    }

    function InstalledTo(): nat {
      match pc
      case Install(t) => t
      case Unpin(t) => t + 1
      case _ => 0
    }

    function PinFrom(): nat {
      match pc
      case Install(t) => t
      case Unpin(t) => t
      case BootRead => |lh|
      case BootInstall(_) => |lh|
      case _ => 0
    }

    /** The log still relies on this block's buffer. */
    ghost predicate Pinned(b: nat) {
      exists k :: PinFrom() <= k < |lh| && lh[k] == b
    }

    /** What a valid, clean buffer of block b holds. */
    function View(l: Layout, b: nat): Block
      requires b < |disk| && b < |spec.current|
    {
      if l.Home(b) && !Booting() then spec.current[b] else disk[b]
    }
  }

  datatype State = State(bufs: seq<Buf>, core: Core)

  predicate Caches(s: State, i: nat, b: nat) {
    i < |s.bufs| && s.bufs[i].dev == ROOTDEV && s.bufs[i].block == b
  }

  predicate Holds(s: State, p: Pid, i: nat) {
    i < |s.bufs| && s.bufs[i].lock == Held(p)
  }

  /** What bread(b) hands to p: buffer i, locked, with contents. */
  predicate HasBlock(s: State, p: Pid, i: nat, b: nat) {
    Caches(s, i, b) && Holds(s, p, i) && s.bufs[i].valid
  }

  // ---------------------------------------------------------------- steps

  datatype Step =
    | Hit(p: Pid, i: nat, b: nat)       // bget: block is cached
    | Recycle(p: Pid, i: nat, b: nat)   // bget: take an unused buffer
    | Acquire(p: Pid, i: nat)           // acquiresleep(&b->lock)
    | Fill(p: Pid, i: nat)              // bread: read from disk
    | Release(p: Pid, i: nat)           // brelse: releasesleep
    | Drop(p: Pid, i: nat)              // brelse: refcnt--
    | Modify(p: Pid, i: nat, x: Block)  // file-system code stores into b->data
    | LogWrite(p: Pid, i: nat)
    | BeginOp(p: Pid)
    | EndOp(p: Pid)
    | SkipCommit                        // commit with lh.n == 0
    | CopyBlock(i: nat, j: nat)         // write_log, one entry
    | WriteHeader(i: nat)               // the commit point
    | InstallBlock(i: nat, j: nat)      // install_trans(0), one entry
    | UnpinBlock(i: nat)
    | ClearHeader(i: nat)
    | FinishCommit
    | ReadHeader(i: nat)                // recovery
    | RecoverBlock(i: nat, j: nat)
    | RecoverDone(i: nat)
    | Crash

  predicate Enabled(l: Layout, s: State, t: Step) {
    var c := s.core;
    match t
    case Hit(p, i, b) => b < l.size && Caches(s, i, b) && p !in s.bufs[i].users
    case Recycle(p, i, b) =>
      && b < l.size && i < |s.bufs| && s.bufs[i].refcnt == 0
      && (forall k :: 0 <= k < |s.bufs| ==> !Caches(s, k, b))
    case Acquire(p, i) => i < |s.bufs| && p in s.bufs[i].users && s.bufs[i].lock == Free
    case Fill(p, i) => Holds(s, p, i) && !s.bufs[i].valid && s.bufs[i].block < |c.disk|
    case Release(p, i) => Holds(s, p, i) && !s.bufs[i].dirty
    case Drop(p, i) => i < |s.bufs| && p in s.bufs[i].users && !Holds(s, p, i)
    case Modify(p, i, x) => p in c.ids && Holds(s, p, i) && s.bufs[i].valid && l.Home(s.bufs[i].block)
    case LogWrite(p, i) =>
      && p in c.ids && p in c.added && Holds(s, p, i) && s.bufs[i].valid && l.Home(s.bufs[i].block)
      && s.bufs[i].block < |c.spec.current|
      && !LogSpace.TooBig(|c.lh|, l.nlog) && c.outstanding >= 1
      && (s.bufs[i].block in c.lh || c.added[p] < MAXOPBLOCKS)
    case BeginOp(p) => !c.committing && !c.Booting() && p !in c.ids && LogSpace.HasRoom(|c.lh|, c.outstanding)
    case EndOp(p) =>
      && p in c.ids && c.outstanding > 0
      && forall i :: 0 <= i < |s.bufs| && s.bufs[i].dirty ==> !Holds(s, p, i)
    case SkipCommit => c.pc == CopyOut(0) && c.lh == []
    case CopyBlock(i, j) =>
      && c.pc.CopyOut? && c.pc.tail < |c.lh| && l.Slot(c.pc.tail) < |c.disk|
      && HasBlock(s, c.agent, i, l.Slot(c.pc.tail)) && HasBlock(s, c.agent, j, c.lh[c.pc.tail])
    case WriteHeader(i) =>
      c.pc == CopyOut(|c.lh|) && 0 < |c.lh| < WORDS && l.start < |c.disk| && HasBlock(s, c.agent, i, l.start)
    case InstallBlock(i, j) =>
      && c.pc.Install? && c.pc.tail < |c.lh| && c.lh[c.pc.tail] < |c.disk|
      && HasBlock(s, c.agent, i, l.Slot(c.pc.tail)) && HasBlock(s, c.agent, j, c.lh[c.pc.tail])
    case UnpinBlock(i) => c.pc.Unpin? && c.pc.tail < |c.lh| && HasBlock(s, c.agent, i, c.lh[c.pc.tail])
    case ClearHeader(i) => c.pc == Install(|c.lh|) && l.start < |c.disk| && HasBlock(s, c.agent, i, l.start)
    case FinishCommit => c.pc == Finish
    case ReadHeader(i) => c.pc == BootRead && HasBlock(s, c.agent, i, l.start) && s.bufs[i].data[0] < WORDS
    case RecoverBlock(i, j) =>
      && c.pc.BootInstall? && c.pc.tail < |c.lh| && c.lh[c.pc.tail] < |c.disk|
      && HasBlock(s, c.agent, i, l.Slot(c.pc.tail)) && HasBlock(s, c.agent, j, c.lh[c.pc.tail])
    case RecoverDone(i) => c.pc == BootInstall(|c.lh|) && l.start < |c.disk| && HasBlock(s, c.agent, i, l.start)
    case Crash => c.spec.cut <= |c.spec.writes|
  }

  function SetBuf(s: State, i: nat, b: Buf): State
    requires i < |s.bufs|
  {
    s.(bufs := s.bufs[i := b])
  }

  /** memmove the contents x into buffer j and bwrite it, then continue as c says. */
  function StoreAndWrite(s: State, j: nat, x: Block, c: Core): State
    requires j < |s.bufs| && s.bufs[j].block < |c.disk|
  {
    State(s.bufs[j := s.bufs[j].(data := x)], c.(disk := c.disk[s.bufs[j].block := x]))
  }

  /** log_write: absorbed if already in the header, otherwise appended. */
  function Logged(c: Core, p: Pid, b: nat, x: Block): Core
    requires p in c.ids && p in c.added && b < |c.spec.current|
  {
    var d := c.(spec := AtomicDisk.Put(c.spec, c.ids[p], b, x));
    if b in c.lh then d else d.(lh := c.lh + [b], added := c.added[p := c.added[p] + 1])
  }

  /** The buffer is pinned when its block is new in the header. */
  function LoggedBuf(c: Core, b: Buf): Buf {
    b.(dirty := false, refcnt := if b.block in c.lh then b.refcnt else b.refcnt + 1)
  }

  function Begun(c: Core, p: Pid): Core {
    c.(outstanding := c.outstanding + 1, ids := c.ids[p := c.spec.next], added := c.added[p := 0],
       spec := AtomicDisk.Begin(c.spec))
  }

  /** end_op: the last operation to leave starts the commit. */
  function Ended(c: Core, p: Pid): Core
    requires p in c.ids && c.outstanding > 0
  {
    var d := c.(outstanding := c.outstanding - 1, ids := c.ids - {p}, added := c.added - {p},
                spec := AtomicDisk.End(c.spec, c.ids[p]));
    if c.outstanding == 1 then d.(committing := true, agent := p, pc := CopyOut(0)) else d
  }

  function EmptyBuf(): Buf {
    Buf(0, 0, false, 0, ZeroBlock(), Free, {}, false)
  }

  /** Memory after power-up: binit, an empty log, recovery about to start. */
  function PowerUp(disk: Disk, spec: AtomicDisk.State): State {
    State(seq(NBUF, _ => EmptyBuf()), Core(disk, [], 0, false, 0, BootRead, map[], map[], spec))
  }

  function Next(l: Layout, s: State, t: Step): State
    requires Enabled(l, s, t)
  {
    var c := s.core;
    match t
    case Hit(p, i, b) => SetBuf(s, i, s.bufs[i].(refcnt := s.bufs[i].refcnt + 1, users := s.bufs[i].users + {p}))
    case Recycle(p, i, b) => SetBuf(s, i,
                                    s.bufs[i].(dev := ROOTDEV, block := b, valid := false, refcnt := 1, users := {p}))
    case Acquire(p, i) => SetBuf(s, i, s.bufs[i].(lock := Held(p)))
    case Fill(p, i) => SetBuf(s, i, s.bufs[i].(valid := true, data := c.disk[s.bufs[i].block]))
    case Release(p, i) => SetBuf(s, i, s.bufs[i].(lock := Free))
    case Drop(p, i) => SetBuf(s, i, s.bufs[i].(refcnt := s.bufs[i].refcnt - 1, users := s.bufs[i].users - {p}))
    case Modify(p, i, x) => SetBuf(s, i, s.bufs[i].(data := x, dirty := true))
    case LogWrite(p, i) =>
      State(s.bufs[i := LoggedBuf(c, s.bufs[i])], Logged(c, p, s.bufs[i].block, s.bufs[i].data))
    case BeginOp(p) => s.(core := Begun(c, p))
    case EndOp(p) => s.(core := Ended(c, p))
    case SkipCommit => s.(core := c.(pc := Finish))
    case CopyBlock(i, j) => StoreAndWrite(s, i, s.bufs[j].data, c.(pc := CopyOut(c.pc.tail + 1)))
    case WriteHeader(i) =>
      StoreAndWrite(s, i, WriteHead(s.bufs[i].data, c.lh), c.(pc := Install(0), spec := AtomicDisk.Commit(c.spec)))
    case InstallBlock(i, j) => StoreAndWrite(s, j, s.bufs[i].data, c.(pc := Unpin(c.pc.tail)))
    case UnpinBlock(i) =>
      State(s.bufs[i := s.bufs[i].(refcnt := s.bufs[i].refcnt - 1)], c.(pc := Install(c.pc.tail + 1)))
    case ClearHeader(i) => StoreAndWrite(s, i, WriteHead(s.bufs[i].data, []), c.(lh := [], pc := Finish))
    case FinishCommit => s.(core := c.(committing := false, pc := Idle))
    case ReadHeader(i) => s.(core := c.(lh := ReadHead(s.bufs[i].data), pc := BootInstall(0)))
    case RecoverBlock(i, j) => StoreAndWrite(s, j, s.bufs[i].data, c.(pc := BootInstall(c.pc.tail + 1)))
    case RecoverDone(i) => StoreAndWrite(s, i, WriteHead(s.bufs[i].data, []), c.(lh := [], pc := Idle))
    case Crash => PowerUp(c.disk, AtomicDisk.Crash(c.spec))
  }

  // ---------------------------------------------------------------- invariant

  ghost predicate Shape(l: Layout, c: Core) {
    && GoodDisk(l, c.disk)
    && |c.spec.current| == l.size && |c.spec.durable| == l.size
    && GoodList(l, c.lh)
  }

  /** Who may be running when. */
  ghost predicate Control(c: Core) {
    && c.outstanding == |c.ids| && c.ids.Keys == c.added.Keys
    && (c.committing <==> c.pc.CopyOut? || c.pc.Install? || c.pc.Unpin? || c.pc.Finish?)
    && (!c.pc.Idle? ==> c.ids == map[])
    && (c.pc.Finish? ==> c.lh == [])
    && (c.pc.CopyOut? || c.pc.Install? || c.pc.BootInstall? ==> c.pc.tail <= |c.lh|)
    && (c.pc.Unpin? ==> c.pc.tail < |c.lh|)
  }

  /** Every home block is up to date on disk, or still waits in the log. */
  ghost predicate DiskCurrent(l: Layout, c: Core)
    requires Shape(l, c)
  {
    !c.Booting() ==>
      forall b :: 0 <= b < l.size && l.Home(b) && (forall k :: c.InstalledTo() <= k < |c.lh| ==> c.lh[k] != b)
                  ==> c.disk[b] == c.spec.current[b]
  }

  ghost predicate Header(l: Layout, c: Core)
    requires Shape(l, c)
  {
    && (c.pc.Idle? || c.pc.CopyOut? || c.pc.Finish? ==> c.disk[l.start][0] == 0)
    && (c.pc.Install? || c.pc.Unpin? || c.pc.BootInstall? ==> ReadHead(c.disk[l.start]) == c.lh)
  }

  ghost predicate LogCopies(l: Layout, c: Core)
    requires Shape(l, c)
  {
    && (c.pc.CopyOut? ==>
          forall k :: 0 <= k < c.pc.tail && k < |c.lh| ==> c.disk[l.Slot(k)] == c.spec.current[c.lh[k]])
    && (c.pc.Install? || c.pc.Unpin? ==>
          forall k :: 0 <= k < |c.lh| ==> c.disk[l.Slot(k)] == c.spec.current[c.lh[k]])
    && (c.pc.BootInstall? ==>
          forall k :: 0 <= k < c.pc.tail && k < |c.lh| ==> c.disk[c.lh[k]] == c.disk[l.Slot(k)])
  }

  ghost function Range(ids: map<Pid, nat>): set<nat> {
    set p | p in ids :: ids[p]
  }

  ghost predicate Injective(ids: map<Pid, nat>) {
    forall p, q :: p in ids && q in ids && p != q ==> ids[p] != ids[q]
  }

  ghost predicate SpecOk(l: Layout, c: Core)
    requires Shape(l, c)
  {
    && AtomicDisk.Inv(c.spec)
    && c.spec.open == Range(c.ids)
    && Injective(c.ids)
    && c.spec.durable == Durable(l, c.disk)
    && c.spec.current == Homes(l, c.spec.current)
    && (c.Booting() || c.pc.Install? || c.pc.Unpin? ==> c.spec.current == c.spec.durable)
  }

  ghost predicate CoreOk(l: Layout, c: Core) {
    && Shape(l, c)
    && Control(c)
    && DiskCurrent(l, c)
    && Header(l, c)
    && LogCopies(l, c)
    && SpecOk(l, c)
    && (c.pc.Idle? ==> LogSpace.Reserved(LogSpace.Space(|c.lh|, c.added)))
  }

  ghost predicate RefOk(b: Buf, c: Core) {
    && b.refcnt == |b.users| + (if b.dev == ROOTDEV && c.Pinned(b.block) then 1 else 0)
    && (b.lock.Held? ==> b.lock.pid in b.users)
    && (b.users != {} ==> b.dev == ROOTDEV)
  }

  /** A change that is not logged yet sits in a locked buffer of a running operation. */
  ghost predicate DirtyOk(l: Layout, b: Buf, c: Core) {
    b.dirty ==> b.dev == ROOTDEV && b.valid && l.Home(b.block) && b.lock.Held? && b.lock.pid in c.ids
  }

  ghost predicate BufOk(l: Layout, b: Buf, c: Core)
    requires Shape(l, c)
  {
    && RefOk(b, c)
    && DirtyOk(l, b, c)
    && (b.dev == ROOTDEV ==> b.block < l.size)
    && (b.dev == ROOTDEV && b.valid && !b.dirty ==> b.data == c.View(l, b.block))
  }

  ghost predicate Unique(bufs: seq<Buf>) {
    forall i, j :: 0 <= i < j < |bufs| && bufs[i].dev == ROOTDEV && bufs[j].dev == ROOTDEV
                   ==> bufs[i].block != bufs[j].block
  }

  ghost predicate IsCached(bufs: seq<Buf>, b: nat) {
    exists i :: 0 <= i < |bufs| && bufs[i].dev == ROOTDEV && bufs[i].block == b && bufs[i].valid
  }

  ghost predicate PinnedCached(bufs: seq<Buf>, c: Core) {
    forall k :: c.PinFrom() <= k < |c.lh| ==> IsCached(bufs, c.lh[k])
  }

  ghost predicate BufsOk(l: Layout, bufs: seq<Buf>, c: Core)
    requires Shape(l, c)
  {
    && |bufs| == NBUF
    && (forall i :: 0 <= i < NBUF ==> BufOk(l, bufs[i], c))
    && Unique(bufs)
    && PinnedCached(bufs, c)
  }

  ghost predicate Inv(l: Layout, s: State) {
    CoreOk(l, s.core) && BufsOk(l, s.bufs, s.core)
  }

  // ---------------------------------------------------------------- every step keeps it

  /** Replacing one buffer: the pinned ones must stay cached and block numbers unique. */
  lemma BufChangeKeeps(l: Layout, bufs: seq<Buf>, c: Core, i: nat, b: Buf)
    requires Shape(l, c) && BufsOk(l, bufs, c) && i < NBUF
    requires BufOk(l, b, c)
    requires forall k :: 0 <= k < NBUF && k != i && bufs[k].dev == ROOTDEV ==> bufs[k].block != b.block
    requires bufs[i].dev == ROOTDEV && c.Pinned(bufs[i].block)
             ==> b.dev == ROOTDEV && b.block == bufs[i].block && (bufs[i].valid ==> b.valid)
    ensures BufsOk(l, bufs[i := b], c)
  {
    var bufs' := bufs[i := b];
    forall k | c.PinFrom() <= k < |c.lh|
      ensures IsCached(bufs', c.lh[k])
    {
      assert IsCached(bufs, c.lh[k]);
      var j :| 0 <= j < |bufs| && bufs[j].dev == ROOTDEV && bufs[j].block == c.lh[k] && bufs[j].valid;
      assert bufs'[j].dev == ROOTDEV && bufs'[j].block == c.lh[k] && bufs'[j].valid;
    }
  }

  predicate CacheStep(t: Step) {
    t.Hit? || t.Recycle? || t.Acquire? || t.Fill? || t.Release? || t.Drop? || t.Modify?
  }

  /** A block without a buffer is not pinned. */
  lemma RecycledUnpinned(s: State, b: nat)
    requires PinnedCached(s.bufs, s.core) && forall j :: 0 <= j < |s.bufs| ==> !Caches(s, j, b)
    ensures !s.core.Pinned(b)
  {
    forall k | s.core.PinFrom() <= k < |s.core.lh|
      ensures s.core.lh[k] != b
    {
      assert IsCached(s.bufs, s.core.lh[k]);
      var j :| 0 <= j < |s.bufs| && s.bufs[j].dev == ROOTDEV && s.bufs[j].block == s.core.lh[k] && s.bufs[j].valid;
      assert !Caches(s, j, b);
    }
  }

  lemma CacheStepKeeps(l: Layout, s: State, t: Step)
    requires Inv(l, s) && Enabled(l, s, t) && CacheStep(t)
    ensures Inv(l, Next(l, s, t))
  {
    hide Header, LogCopies, SpecOk;
    var s' := Next(l, s, t);
    assert s'.core == s.core && s'.bufs == s.bufs[t.i := s'.bufs[t.i]];
    var old' := s.bufs[t.i];
    assert BufOk(l, old', s.core);
    if t.Fill? {
      FillMatches(l, s, t.i);
    }
    if t.Recycle? {
      RecycledUnpinned(s, t.b);
    }
    forall k | 0 <= k < NBUF && k != t.i && s.bufs[k].dev == ROOTDEV
      ensures s.bufs[k].block != s'.bufs[t.i].block
    {
      assert t.Recycle? ==> !Caches(s, k, t.b);
    }
    BufChangeKeeps(l, s.bufs, s.core, t.i, s'.bufs[t.i]);
  }

  /** A block that no valid buffer holds is up to date on disk. */
  lemma FillMatches(l: Layout, s: State, i: nat)
    requires Inv(l, s) && i < NBUF && s.bufs[i].dev == ROOTDEV && !s.bufs[i].valid
    ensures s.core.disk[s.bufs[i].block] == s.core.View(l, s.bufs[i].block)
  {
    var c := s.core;
    var b := s.bufs[i].block;
    if l.Home(b) && !c.Booting() {
      forall k | c.InstalledTo() <= k < |c.lh|
        ensures c.lh[k] != b
      {
        assert IsCached(s.bufs, c.lh[k]);
      }
    }
  }

  /** One buffer changes contents or count while the core moves on: every other block
      must look the same as before. */
  lemma CoreChangeKeeps(l: Layout, bufs: seq<Buf>, c: Core, c': Core, j: nat, b: Buf)
    requires Shape(l, c) && Shape(l, c') && BufsOk(l, bufs, c) && j < NBUF
    requires BufOk(l, b, c') && b.dev == bufs[j].dev == ROOTDEV && b.block == bufs[j].block && b.valid && bufs[j].valid
    requires forall k :: 0 <= k < l.size && k != b.block ==> c'.View(l, k) == c.View(l, k)
                                                             && c'.Pinned(k) == c.Pinned(k)
    requires forall i :: 0 <= i < NBUF && bufs[i].dirty ==> bufs[i].lock.Held? && bufs[i].lock.pid in c'.ids
    ensures BufsOk(l, bufs[j := b], c')
  {
    var bufs' := bufs[j := b];
    forall i | 0 <= i < NBUF
      ensures BufOk(l, bufs'[i], c')
    {
      if i != j {
        assert BufOk(l, bufs[i], c);
      }
    }
    forall k | c'.PinFrom() <= k < |c'.lh|
      ensures IsCached(bufs', c'.lh[k])
    {
      if c'.lh[k] == b.block {
        assert bufs'[j].block == c'.lh[k];
      } else {
        assert c'.Pinned(c'.lh[k]) && c.Pinned(c'.lh[k]) by { assert l.Home(c'.lh[k]); }
        var k0 :| c.PinFrom() <= k0 < |c.lh| && c.lh[k0] == c'.lh[k];
        assert IsCached(bufs, c.lh[k0]);
        var i :| 0 <= i < |bufs| && bufs[i].dev == ROOTDEV && bufs[i].block == c.lh[k0] && bufs[i].valid;
        assert bufs'[i].block == c'.lh[k];
      }
    }
  }

  /** The core moves on and no buffer changes. */
  lemma CoreOnlyKeeps(l: Layout, bufs: seq<Buf>, c: Core, c': Core)
    requires Shape(l, c) && Shape(l, c') && BufsOk(l, bufs, c)
    requires forall k :: 0 <= k < l.size ==> c'.View(l, k) == c.View(l, k) && c'.Pinned(k) == c.Pinned(k)
    requires forall i :: 0 <= i < NBUF && bufs[i].dirty ==> bufs[i].lock.Held? && bufs[i].lock.pid in c'.ids
    ensures BufsOk(l, bufs, c')
  {
    forall i | 0 <= i < NBUF
      ensures BufOk(l, bufs[i], c')
    {
      assert BufOk(l, bufs[i], c);
    }
    forall k | c'.PinFrom() <= k < |c'.lh|
      ensures IsCached(bufs, c'.lh[k])
    {
      assert c'.Pinned(c'.lh[k]) && c.Pinned(c'.lh[k]) by { assert l.Home(c'.lh[k]); }
      var k0 :| c.PinFrom() <= k0 < |c.lh| && c.lh[k0] == c'.lh[k];
      assert IsCached(bufs, c.lh[k0]);
    }
  }

  // Transactions

  lemma RangeAdd(ids: map<Pid, nat>, p: Pid, n: nat)
    requires p !in ids && n !in Range(ids) && Injective(ids)
    ensures Range(ids[p := n]) == Range(ids) + {n} && Injective(ids[p := n])
  {
    var ids' := ids[p := n];
    forall q | q in ids
      ensures ids[q] != n && ids'[q] == ids[q] && ids[q] in Range(ids')
    {
      assert ids[q] in Range(ids) && q in ids';
    }
    assert ids'[p] in Range(ids');
  }

  lemma RangeRemove(ids: map<Pid, nat>, p: Pid)
    requires p in ids && Injective(ids)
    ensures Range(ids - {p}) == Range(ids) - {ids[p]} && Injective(ids - {p})
  {
    forall o | o in Range(ids) && o != ids[p]
      ensures o in Range(ids - {p})
    {
      var q :| q in ids && ids[q] == o;
      assert q in ids - {p};
    }
  }

  /** The logged block moves from "current on disk" to "waiting in the log". */
  lemma LogWriteDiskCurrent(l: Layout, c: Core, c': Core, op: nat, b: nat, x: Block)
    requires Shape(l, c) && Shape(l, c') && DiskCurrent(l, c) && c.pc == c'.pc == Idle && l.Home(b)
    requires c'.disk == c.disk && c'.spec == AtomicDisk.Put(c.spec, op, b, x)
    requires (b in c.lh && c'.lh == c.lh) || c'.lh == c.lh + [b]
    ensures DiskCurrent(l, c')
  {
    assert b in c'.lh;
    forall k | 0 <= k < l.size && l.Home(k) && (forall m :: 0 <= m < |c'.lh| ==> c'.lh[m] != k)
      ensures c'.disk[k] == c'.spec.current[k]
    {
      assert forall m :: 0 <= m < |c.lh| ==> c'.lh[m] == c.lh[m];
    }
  }

  lemma LogWriteSpec(l: Layout, c: Core, p: Pid, b: nat, x: Block)
    requires Shape(l, c) && SpecOk(l, c) && c.pc == Idle && p in c.ids && p in c.added && l.Home(b)
    requires Shape(l, Logged(c, p, b, x))
    ensures SpecOk(l, Logged(c, p, b, x))
  {
    assert c.ids[p] in c.spec.open;
    AtomicDisk.PutKeeps(c.spec, c.ids[p], b, x);
    var h := c.spec.current[b := x];
    assert h == Homes(l, h);
  }

  lemma LoggedShape(l: Layout, c: Core, p: Pid, b: nat, x: Block)
    requires Shape(l, c) && p in c.ids && p in c.added && l.Home(b) && !LogSpace.TooBig(|c.lh|, l.nlog)
    ensures Shape(l, Logged(c, p, b, x))
  {
  }

  lemma LogWriteSpace(c: Core, p: Pid, b: nat, x: Block)
    requires Control(c) && p in c.ids && b < |c.spec.current| && (b in c.lh || c.added[p] < MAXOPBLOCKS)
    requires LogSpace.Reserved(LogSpace.Space(|c.lh|, c.added))
    ensures var c' := Logged(c, p, b, x); Control(c') && LogSpace.Reserved(LogSpace.Space(|c'.lh|, c'.added))
  {
    hide LogSpace.Reserved;
    assert p in c.ids.Keys;
    if b !in c.lh {
      LogSpace.AddKeeps(LogSpace.Space(|c.lh|, c.added), p);
      assert Logged(c, p, b, x).added.Keys == c.added.Keys;
    }
  }

  lemma LogWriteCore(l: Layout, c: Core, p: Pid, b: nat, x: Block)
    requires CoreOk(l, c) && p in c.ids && p in c.added && l.Home(b) && !LogSpace.TooBig(|c.lh|, l.nlog)
    requires b in c.lh || c.added[p] < MAXOPBLOCKS
    ensures CoreOk(l, Logged(c, p, b, x))
  {
    LoggedShape(l, c, p, b, x);
    LogWriteSpec(l, c, p, b, x);
    LogWriteSpace(c, p, b, x);
    LogWriteDiskCurrent(l, c, Logged(c, p, b, x), c.ids[p], b, x);
  }

  lemma LoggedPins(c: Core, p: Pid, b: nat, x: Block, k: nat)
    requires c.pc == Idle && p in c.ids && p in c.added && b < |c.spec.current|
    ensures Logged(c, p, b, x).Pinned(k) <==> c.Pinned(k) || k == b
    ensures c.Pinned(b) <==> b in c.lh
  {
    var c' := Logged(c, p, b, x);
    if c.Pinned(k) {
      var m :| 0 <= m < |c.lh| && c.lh[m] == k;
      assert c'.lh[m] == k;
    }
    if c'.Pinned(k) && k != b {
      var m :| 0 <= m < |c'.lh| && c'.lh[m] == k;
      assert c.lh[m] == k;
    }
    if b in c.lh {
      var m :| 0 <= m < |c.lh| && c.lh[m] == b;
      assert c'.lh[m] == b;
    } else {
      assert c'.lh[|c.lh|] == b;
    }
  }

  lemma LogWriteBufs(l: Layout, bufs: seq<Buf>, c: Core, p: Pid, i: nat)
    requires CoreOk(l, c) && BufsOk(l, bufs, c) && p in c.ids && p in c.added
    requires i < NBUF && bufs[i].lock == Held(p) && bufs[i].valid && l.Home(bufs[i].block)
    requires Shape(l, Logged(c, p, bufs[i].block, bufs[i].data))
    ensures BufsOk(l, bufs[i := LoggedBuf(c, bufs[i])], Logged(c, p, bufs[i].block, bufs[i].data))
  {
    var b := bufs[i].block;
    var c' := Logged(c, p, b, bufs[i].data);
    assert BufOk(l, bufs[i], c);
    forall k: nat
      ensures c'.Pinned(k) <==> c.Pinned(k) || k == b
      ensures c.Pinned(b) <==> b in c.lh
    {
      LoggedPins(c, p, b, bufs[i].data, k);
    }
    DirtyPids(l, bufs, c, c');
    CoreChangeKeeps(l, bufs, c, c', i, LoggedBuf(c, bufs[i]));
  }

  lemma DirtyPids(l: Layout, bufs: seq<Buf>, c: Core, c': Core)
    requires Shape(l, c) && BufsOk(l, bufs, c)
    requires forall q :: q in c.ids ==> q in c'.ids
    ensures forall k :: 0 <= k < NBUF && bufs[k].dirty ==> bufs[k].lock.Held? && bufs[k].lock.pid in c'.ids
  {
    forall k | 0 <= k < NBUF && bufs[k].dirty
      ensures bufs[k].lock.Held? && bufs[k].lock.pid in c'.ids
    {
      assert BufOk(l, bufs[k], c);
    }
  }

  lemma BeginCore(l: Layout, c: Core, p: Pid)
    requires CoreOk(l, c) && !c.committing && !c.Booting() && p !in c.ids && LogSpace.HasRoom(|c.lh|, c.outstanding)
    ensures CoreOk(l, Begun(c, p))
  {
    AtomicDisk.BeginKeeps(c.spec);
    assert |c.added.Keys| == |c.ids.Keys| == c.outstanding;
    LogSpace.BeginKeeps(LogSpace.Space(|c.lh|, c.added), p);
    RangeAdd(c.ids, p, c.spec.next);
  }

  lemma EndCore(l: Layout, c: Core, p: Pid)
    requires CoreOk(l, c) && p in c.ids
    ensures CoreOk(l, Ended(c, p))
  {
    hide LogSpace.Reserved, SpecOk, GoodDisk, GoodList, Layout.Home, Layout.Slot, ReadHead;
    EndSpec(l, c, p);
    assert |Ended(c, p).ids| == |c.ids| - 1;
    LogSpace.EndKeeps(LogSpace.Space(|c.lh|, c.added), p);
  }

  lemma EndSpec(l: Layout, c: Core, p: Pid)
    requires CoreOk(l, c) && p in c.ids
    ensures Shape(l, Ended(c, p)) && SpecOk(l, Ended(c, p))
  {
    hide LogSpace.Reserved, DiskCurrent, LogCopies, Header, GoodDisk, GoodList, Durable, Homes;
    RangeRemove(c.ids, p);
  }

  lemma EndBufs(l: Layout, s: State, p: Pid)
    requires Inv(l, s) && p in s.core.ids && Shape(l, Ended(s.core, p))
    requires forall i :: 0 <= i < NBUF && s.bufs[i].dirty ==> !Holds(s, p, i)
    ensures BufsOk(l, s.bufs, Ended(s.core, p))
  {
    forall k | 0 <= k < NBUF && s.bufs[k].dirty
      ensures s.bufs[k].lock.Held? && s.bufs[k].lock.pid in Ended(s.core, p).ids
    {
      assert BufOk(l, s.bufs[k], s.core) && !Holds(s, p, k);
    }
    CoreOnlyKeeps(l, s.bufs, s.core, Ended(s.core, p));
  }

  lemma TransactionStepKeeps(l: Layout, s: State, t: Step)
    requires Inv(l, s) && Enabled(l, s, t) && (t.LogWrite? || t.BeginOp? || t.EndOp?)
    ensures Inv(l, Next(l, s, t))
  {
    if t.LogWrite? {
      LogWriteKeeps(l, s, t);
    } else if t.BeginOp? {
      BeginKeeps(l, s, t);
    } else {
      EndKeeps(l, s, t);
    }
  }

  lemma LogWriteKeeps(l: Layout, s: State, t: Step)
    requires Inv(l, s) && Enabled(l, s, t) && t.LogWrite?
    ensures Inv(l, Next(l, s, t))
  {
    hide Header, LogCopies, DiskCurrent;
    LogWriteCore(l, s.core, t.p, s.bufs[t.i].block, s.bufs[t.i].data);
    LogWriteBufs(l, s.bufs, s.core, t.p, t.i);
  }

  lemma BeginKeeps(l: Layout, s: State, t: Step)
    requires Inv(l, s) && Enabled(l, s, t) && t.BeginOp?
    ensures Inv(l, Next(l, s, t))
  {
    hide Header, LogCopies, DiskCurrent;
    BeginCore(l, s.core, t.p);
    DirtyPids(l, s.bufs, s.core, Begun(s.core, t.p));
    CoreOnlyKeeps(l, s.bufs, s.core, Begun(s.core, t.p));
  }

  lemma EndKeeps(l: Layout, s: State, t: Step)
    requires Inv(l, s) && Enabled(l, s, t) && t.EndOp?
    ensures Inv(l, Next(l, s, t))
  {
    hide Header, LogCopies, DiskCurrent;
    EndCore(l, s.core, t.p);
    EndBufs(l, s, t.p);
  }

  // Commit

  function Copied(l: Layout, c: Core, x: Block): Core
    requires c.pc.CopyOut? && l.Slot(c.pc.tail) < |c.disk|
  {
    c.(pc := CopyOut(c.pc.tail + 1), disk := c.disk[l.Slot(c.pc.tail) := x])
  }

  lemma CopyCore(l: Layout, c: Core, x: Block)
    requires CoreOk(l, c) && c.pc.CopyOut? && c.pc.tail < |c.lh| && x == c.spec.current[c.lh[c.pc.tail]]
    ensures CoreOk(l, Copied(l, c, x))
  {
    var c' := Copied(l, c, x);
    DurableOfEmptyLog(l, c.disk);
    DurableOfEmptyLog(l, c'.disk);
    assert Homes(l, c.disk) == Homes(l, c'.disk);
  }

  function Headed(l: Layout, c: Core): Core
    requires l.start < |c.disk| && |c.lh| < WORDS
  {
    c.(pc := Install(0), disk := c.disk[l.start := WriteHead(c.disk[l.start], c.lh)], spec := AtomicDisk.Commit(c.spec))
  }

  /** The commit point: with the copies written and the header naming them, recovery
      would restore exactly the current contents. */
  lemma HeaderMakesDurable(l: Layout, c: Core)
    requires CoreOk(l, c) && c.pc == CopyOut(|c.lh|)
    ensures GoodDisk(l, Headed(l, c).disk) && Durable(l, Headed(l, c).disk) == c.spec.current
  {
    var e := Headed(l, c).disk;
    forall k | 0 <= k < |c.lh|
      ensures e[l.Slot(k)] == c.spec.current[c.lh[k]]
    {
      assert e[l.Slot(k)] == c.disk[l.Slot(k)];
    }
    DurableIs(l, e, c.spec.current);
  }

  lemma DurableIs(l: Layout, e: Disk, cur: Disk)
    requires GoodDisk(l, e) && |cur| == l.size && cur == Homes(l, cur)
    requires var lh := ReadHead(e[l.start]);
             && (forall k :: 0 <= k < |lh| ==> e[l.Slot(k)] == cur[lh[k]])
             && (forall b :: 0 <= b < l.size && l.Home(b) && b !in lh ==> e[b] == cur[b])
    ensures Durable(l, e) == cur
  {
    var lh := ReadHead(e[l.start]);
    assert lh[0..] == lh;
    forall b | 0 <= b < l.size
      ensures Durable(l, e)[b] == cur[b]
    {
      InstalledAt(l, e, lh, 0, b);
      if b in lh {
        var k :| 0 <= k < |lh| && lh[k] == b;
        assert e[l.Slot(k)] == cur[lh[k]];
      }
    }
  }

  lemma HeadCore(l: Layout, c: Core)
    requires CoreOk(l, c) && c.pc == CopyOut(|c.lh|)
    ensures CoreOk(l, Headed(l, c))
  {
    HeaderMakesDurable(l, c);
    AtomicDisk.CommitKeeps(c.spec);
    var c' := Headed(l, c);
    forall k | 0 <= k < |c.lh|
      ensures c'.disk[l.Slot(k)] == c'.spec.current[c.lh[k]]
    {
    }
  }

  function Placed(l: Layout, c: Core, pc: Pc): Core
    requires (c.pc.Install? || c.pc.BootInstall?) && c.pc.tail < |c.lh|
    requires c.lh[c.pc.tail] < |c.disk| && l.Slot(c.pc.tail) < |c.disk|
  {
    c.(pc := pc, disk := c.disk[c.lh[c.pc.tail] := c.disk[l.Slot(c.pc.tail)]])
  }

  lemma InstallCore(l: Layout, c: Core)
    requires CoreOk(l, c) && c.pc.Install? && c.pc.tail < |c.lh|
    ensures CoreOk(l, Placed(l, c, Unpin(c.pc.tail)))
  {
    var t := c.pc.tail;
    var c' := Placed(l, c, Unpin(t));
    LogCommit.InstallStepMeans(l, c.disk, c.lh, t);
    forall k | 0 <= k < |c.lh|
      ensures c'.disk[l.Slot(k)] == c.spec.current[c.lh[k]]
    {
      assert l.InLog(l.Slot(k)) && l.Home(c.lh[t]);
    }
    forall b | 0 <= b < l.size && l.Home(b) && (forall k :: t + 1 <= k < |c.lh| ==> c.lh[k] != b)
      ensures c'.disk[b] == c.spec.current[b]
    {
      if b != c.lh[t] {
        assert forall k :: t <= k < |c.lh| ==> c.lh[k] != b;
      }
    }
  }

  function Cleared(l: Layout, c: Core, pc: Pc): Core
    requires l.start < |c.disk|
  {
    c.(pc := pc, lh := [], disk := c.disk[l.start := WriteHead(c.disk[l.start], [])])
  }

  lemma ClearedMeans(l: Layout, d: Disk)
    requires GoodDisk(l, d)
    ensures var e := d[l.start := WriteHead(d[l.start], [])]; GoodDisk(l, e) && Durable(l, e) == Homes(l, d)
  {
    var e := d[l.start := WriteHead(d[l.start], [])];
    DurableOfEmptyLog(l, e);
    assert Homes(l, e) == Homes(l, d);
  }

  lemma ClearCore(l: Layout, c: Core)
    requires CoreOk(l, c) && c.pc == Install(|c.lh|)
    ensures CoreOk(l, Cleared(l, c, Finish))
  {
    ClearedMeans(l, c.disk);
    assert Homes(l, c.disk) == c.spec.current;
  }

  lemma FinishCore(l: Layout, c: Core)
    requires CoreOk(l, c) && c.pc == Finish
    ensures CoreOk(l, c.(committing := false, pc := Idle))
  {
    assert c.added.Keys == {};
    assert LogSpace.Spare(c.added) == 0;
  }

  // Recovery

  lemma ReadHeaderCore(l: Layout, c: Core)
    requires CoreOk(l, c) && c.pc == BootRead
    ensures CoreOk(l, c.(lh := ReadHead(c.disk[l.start]), pc := BootInstall(0)))
  {
  }

  lemma RecoverBlockCore(l: Layout, c: Core)
    requires CoreOk(l, c) && c.pc.BootInstall? && c.pc.tail < |c.lh|
    ensures CoreOk(l, Placed(l, c, BootInstall(c.pc.tail + 1)))
  {
    var t := c.pc.tail;
    var c' := Placed(l, c, BootInstall(t + 1));
    LogCommit.InstallStepMeans(l, c.disk, c.lh, t);
    forall k | 0 <= k < t + 1
      ensures c'.disk[c.lh[k]] == c'.disk[l.Slot(k)]
    {
      assert l.InLog(l.Slot(k)) && l.Home(c.lh[t]) && l.Home(c.lh[k]);
    }
  }

  /** Once every entry is home, the image means its home blocks. */
  lemma AllInstalled(l: Layout, c: Core)
    requires CoreOk(l, c) && c.pc == BootInstall(|c.lh|)
    ensures Durable(l, c.disk) == Homes(l, c.disk)
  {
    assert c.lh[0..] == c.lh;
    forall b | 0 <= b < l.size
      ensures Durable(l, c.disk)[b] == Homes(l, c.disk)[b]
    {
      InstalledAt(l, c.disk, c.lh, 0, b);
      if b in c.lh {
        var k :| 0 <= k < |c.lh| && c.lh[k] == b;
        assert c.disk[c.lh[k]] == c.disk[l.Slot(k)];
      }
    }
  }

  lemma RecoverDoneCore(l: Layout, c: Core)
    requires CoreOk(l, c) && c.pc == BootInstall(|c.lh|)
    ensures CoreOk(l, Cleared(l, c, Idle))
    ensures forall b :: 0 <= b < l.size && l.Home(b) ==> c.spec.current[b] == c.disk[b]
  {
    AllInstalled(l, c);
    ClearedMeans(l, c.disk);
    assert c.added.Keys == {};
    assert LogSpace.Spare(c.added) == 0;
  }

  lemma PowerUpKeeps(l: Layout, disk: Disk, spec: AtomicDisk.State)
    requires GoodDisk(l, disk) && AtomicDisk.Inv(spec)
    requires spec.open == {} && spec.current == spec.durable == Durable(l, disk)
    ensures Inv(l, PowerUp(disk, spec))
  {
    var s := PowerUp(disk, spec);
    assert CoreOk(l, s.core);
    forall i | 0 <= i < NBUF
      ensures BufOk(l, s.bufs[i], s.core)
    {
    }
  }

  /** The block a log buffer holds is what the disk holds. */
  lemma LogBufferData(l: Layout, s: State, i: nat, b: nat)
    requires Inv(l, s) && HasBlock(s, s.core.agent, i, b) && l.InLog(b)
    ensures !s.bufs[i].dirty && s.bufs[i].data == s.core.disk[b]
  {
    assert BufOk(l, s.bufs[i], s.core);
  }

  /** While nobody is in a transaction, no buffer is dirty. */
  lemma NothingDirty(l: Layout, s: State, i: nat)
    requires Inv(l, s) && s.core.pc != Idle && i < NBUF
    ensures !s.bufs[i].dirty
  {
    assert BufOk(l, s.bufs[i], s.core);
  }

  lemma CopyKeeps(l: Layout, s: State, t: Step)
    requires Inv(l, s) && Enabled(l, s, t) && t.CopyBlock?
    ensures Inv(l, Next(l, s, t))
  {
    var CopyBlock(i, j) := t;
    var s' := Next(l, s, t);
    var c := s.core;
    assert BufOk(l, s.bufs[j], c) && BufOk(l, s.bufs[i], c) && l.Home(c.lh[c.pc.tail]);
    NothingDirty(l, s, j);
    CopyCore(l, c, s.bufs[j].data);
    assert s'.core == Copied(l, c, s.bufs[j].data);
    assert forall b :: s'.core.Pinned(b) == c.Pinned(b);
    DirtyPids(l, s.bufs, c, s'.core);
    CoreChangeKeeps(l, s.bufs, c, s'.core, i, s'.bufs[i]);
  }

  lemma WriteHeaderKeeps(l: Layout, s: State, t: Step)
    requires Inv(l, s) && Enabled(l, s, t) && t.WriteHeader?
    ensures Inv(l, Next(l, s, t))
  {
    var WriteHeader(i) := t;
    var s' := Next(l, s, t);
    var c := s.core;
    assert BufOk(l, s.bufs[i], c);
    LogBufferData(l, s, i, l.start);
    HeadCore(l, c);
    assert s'.core == Headed(l, c);
    assert forall b :: s'.core.Pinned(b) == c.Pinned(b);
    DirtyPids(l, s.bufs, c, s'.core);
    CoreChangeKeeps(l, s.bufs, c, s'.core, i, s'.bufs[i]);
  }

  lemma InstallKeeps(l: Layout, s: State, t: Step)
    requires Inv(l, s) && Enabled(l, s, t) && t.InstallBlock?
    ensures Inv(l, Next(l, s, t))
  {
    hide SpecOk, LogCopies, Header;
    var InstallBlock(i, j) := t;
    var s' := Next(l, s, t);
    var c := s.core;
    assert BufOk(l, s.bufs[j], c) && l.Home(c.lh[c.pc.tail]);
    LogBufferData(l, s, i, l.Slot(c.pc.tail));
    InstallCore(l, c);
    assert s'.core == Placed(l, c, Unpin(c.pc.tail));
    assert forall b :: s'.core.Pinned(b) == c.Pinned(b);
    DirtyPids(l, s.bufs, c, s'.core);
    CoreChangeKeeps(l, s.bufs, c, s'.core, j, s'.bufs[j]);
  }

  lemma UnpinPins(l: Layout, c: Core, b: nat)
    requires GoodList(l, c.lh) && c.pc.Unpin? && c.pc.tail < |c.lh|
    ensures c.(pc := Install(c.pc.tail + 1)).Pinned(b) <==> c.Pinned(b) && b != c.lh[c.pc.tail]
    ensures c.Pinned(c.lh[c.pc.tail])
  {
    var t := c.pc.tail;
    var c' := c.(pc := Install(t + 1));
    assert c.lh[t] == c.lh[t] && c.PinFrom() == t;
    if c.Pinned(b) && b != c.lh[t] {
      var k :| t <= k < |c.lh| && c.lh[k] == b;
      assert t + 1 <= k && c'.lh[k] == b;
    }
  }

  lemma UnpinKeeps(l: Layout, s: State, t: Step)
    requires Inv(l, s) && Enabled(l, s, t) && t.UnpinBlock?
    ensures Inv(l, Next(l, s, t))
  {
    var UnpinBlock(i) := t;
    var s' := Next(l, s, t);
    var c, c' := s.core, s'.core;
    assert BufOk(l, s.bufs[i], c);
    forall b: nat
      ensures c'.Pinned(b) <==> c.Pinned(b) && b != c.lh[c.pc.tail]
      ensures c.Pinned(c.lh[c.pc.tail])
    {
      UnpinPins(l, c, b);
    }
    DirtyPids(l, s.bufs, c, c');
    CoreChangeKeeps(l, s.bufs, c, c', i, s'.bufs[i]);
  }

  lemma ClearKeeps(l: Layout, s: State, t: Step)
    requires Inv(l, s) && Enabled(l, s, t) && t.ClearHeader?
    ensures Inv(l, Next(l, s, t))
  {
    var ClearHeader(i) := t;
    var s' := Next(l, s, t);
    assert BufOk(l, s.bufs[i], s.core);
    LogBufferData(l, s, i, l.start);
    ClearCore(l, s.core);
    assert s'.core == Cleared(l, s.core, Finish);
    DirtyPids(l, s.bufs, s.core, s'.core);
    CoreChangeKeeps(l, s.bufs, s.core, s'.core, i, s'.bufs[i]);
  }

  lemma RecoverBlockKeeps(l: Layout, s: State, t: Step)
    requires Inv(l, s) && Enabled(l, s, t) && t.RecoverBlock?
    ensures Inv(l, Next(l, s, t))
  {
    var RecoverBlock(i, j) := t;
    var s' := Next(l, s, t);
    var c := s.core;
    assert BufOk(l, s.bufs[j], c) && l.Home(c.lh[c.pc.tail]);
    LogBufferData(l, s, i, l.Slot(c.pc.tail));
    RecoverBlockCore(l, c);
    assert s'.core == Placed(l, c, BootInstall(c.pc.tail + 1));
    DirtyPids(l, s.bufs, c, s'.core);
    CoreChangeKeeps(l, s.bufs, c, s'.core, j, s'.bufs[j]);
  }

  lemma RecoverDoneKeeps(l: Layout, s: State, t: Step)
    requires Inv(l, s) && Enabled(l, s, t) && t.RecoverDone?
    ensures Inv(l, Next(l, s, t))
  {
    var RecoverDone(i) := t;
    var s' := Next(l, s, t);
    assert BufOk(l, s.bufs[i], s.core);
    LogBufferData(l, s, i, l.start);
    RecoverDoneCore(l, s.core);
    assert s'.core == Cleared(l, s.core, Idle);
    DirtyPids(l, s.bufs, s.core, s'.core);
    CoreChangeKeeps(l, s.bufs, s.core, s'.core, i, s'.bufs[i]);
  }

  lemma ControlStepKeeps(l: Layout, s: State, t: Step)
    requires Inv(l, s) && Enabled(l, s, t) && (t.SkipCommit? || t.FinishCommit? || t.ReadHeader? || t.Crash?)
    ensures Inv(l, Next(l, s, t))
  {
    if t.Crash? {
      CrashStepKeeps(l, s, t);
    } else {
      CommitControlKeeps(l, s, t);
    }
  }

  lemma CrashStepKeeps(l: Layout, s: State, t: Step)
    requires Inv(l, s) && Enabled(l, s, t) && t.Crash?
    ensures Inv(l, Next(l, s, t))
  {
    AtomicDisk.CrashKeeps(s.core.spec);
    PowerUpKeeps(l, s.core.disk, AtomicDisk.Crash(s.core.spec));
  }

  lemma CommitControlKeeps(l: Layout, s: State, t: Step)
    requires Inv(l, s) && Enabled(l, s, t) && (t.SkipCommit? || t.FinishCommit? || t.ReadHeader?)
    ensures Inv(l, Next(l, s, t))
  {
    var c := s.core;
    if t.FinishCommit? {
      FinishCore(l, c);
    } else if t.ReadHeader? {
      LogBufferData(l, s, t.i, l.start);
      ReadHeaderCore(l, c);
    }
    var c' := Next(l, s, t).core;
    DirtyPids(l, s.bufs, c, c');
    CoreOnlyKeeps(l, s.bufs, c, c');
  }

  lemma StepKeeps(l: Layout, s: State, t: Step)
    requires Inv(l, s) && Enabled(l, s, t)
    ensures Inv(l, Next(l, s, t))
  {
    if CacheStep(t) {
      CacheStepKeeps(l, s, t);
    } else if t.LogWrite? || t.BeginOp? || t.EndOp? {
      TransactionStepKeeps(l, s, t);
    } else if t.CopyBlock? {
      CopyKeeps(l, s, t);
    } else if t.WriteHeader? {
      WriteHeaderKeeps(l, s, t);
    } else if t.InstallBlock? {
      InstallKeeps(l, s, t);
    } else if t.UnpinBlock? {
      UnpinKeeps(l, s, t);
    } else if t.ClearHeader? {
      ClearKeeps(l, s, t);
    } else if t.RecoverBlock? {
      RecoverBlockKeeps(l, s, t);
    } else if t.RecoverDone? {
      RecoverDoneKeeps(l, s, t);
    } else {
      ControlStepKeeps(l, s, t);
    }
  }

  // ---------------------------------------------------------------- whole runs

  /** A run: power-up on some disk image, then any steps of any processes, crashes
      included. */
  ghost predicate IsRun(l: Layout, disk: Disk, ss: seq<State>, ts: seq<Step>) {
    && GoodDisk(l, disk)
    && |ss| == |ts| + 1
    && ss[0] == PowerUp(disk, AtomicDisk.Boot(Durable(l, disk)))
    && forall i {:trigger StepAt(l, ss, ts, i)} :: 0 <= i < |ts| ==> StepAt(l, ss, ts, i)
  }

  ghost predicate StepAt(l: Layout, ss: seq<State>, ts: seq<Step>, i: nat)
    requires i < |ts| < |ss|
  {
    Enabled(l, ss[i], ts[i]) && ss[i + 1] == Next(l, ss[i], ts[i])
  }

  lemma {:induction false} RunInv(l: Layout, disk: Disk, ss: seq<State>, ts: seq<Step>, n: nat)
    requires IsRun(l, disk, ss, ts) && n < |ss|
    ensures Inv(l, ss[n])
  {
    hide Inv;
    if n == 0 {
      PowerUpKeeps(l, disk, AtomicDisk.Boot(Durable(l, disk)));
    } else {
      RunInv(l, disk, ss, ts, n - 1);
      assert StepAt(l, ss, ts, n - 1);
      StepKeeps(l, ss[n - 1], ts[n - 1]);
    }
  }

  /** The cache and the log are transparent: whoever holds a locked, filled buffer of a
      home block sees the last contents logged for it, whether or not they are on disk;
      and no second buffer caches that block. */
  lemma ReadsSeeLastWrite(l: Layout, disk: Disk, ss: seq<State>, ts: seq<Step>, n: nat, p: Pid, i: nat, b: nat)
    requires IsRun(l, disk, ss, ts) && n < |ss|
    requires HasBlock(ss[n], p, i, b) && l.Home(b) && !ss[n].core.Booting() && !ss[n].bufs[i].dirty
    ensures b < |ss[n].core.spec.current| && ss[n].bufs[i].data == ss[n].core.spec.current[b]
    ensures ss[n].core.spec.current == AtomicDisk.Replay(ss[n].core.spec.base, ss[n].core.spec.writes)
    ensures forall j :: j != i ==> !Caches(ss[n], j, b)
  {
    RunInv(l, disk, ss, ts, n);
    assert BufOk(l, ss[n].bufs[i], ss[n].core);
  }

  /** Crash the run anywhere, crash recovery any number of times, let one recovery
      finish: the home blocks hold the replay of the durable writes, in which every
      operation is present completely or not at all and no unfinished one is present. */
  lemma CrashKeepsWholeOperations(l: Layout, disk: Disk, ss: seq<State>, ts: seq<Step>, n: nat, ds: seq<Disk>)
    requires IsRun(l, disk, ss, ts) && n < |ss|
    requires LogCommit.CrashedRecoveries(l, ds) && ds[0] == ss[n].core.disk
    ensures var spec := ss[n].core.spec;
            var r := LogCommit.RecoveryImages(l, ds[|ds| - 1]);
            && spec.cut <= |spec.writes|
            && Homes(l, r[|r| - 1]) == AtomicDisk.Replay(spec.base, spec.writes[..spec.cut])
            && AtomicDisk.WholeOperations(spec)
  {
    RunInv(l, disk, ss, ts, n);
    LogCommit.RepeatedCrashesKeepMeaning(l, ds);
    LogCommit.RecoveryStable(l, ds[|ds| - 1]);
  }

  /** The log is empty or its header is on disk: nothing more is needed for what has been
      logged to survive. */
  predicate Settled(c: Core) {
    c.lh == [] || !(c.pc.Idle? || c.pc.CopyOut?)
  }

  ghost predicate AllDurable(c: Core) {
    c.spec.cut <= |c.spec.writes| && (Settled(c) ==> c.spec.cut == |c.spec.writes|)
  }

  /** What survives: the durable writes. */
  ghost function Surviving(c: Core): seq<AtomicDisk.Write>
    requires c.spec.cut <= |c.spec.writes|
  {
    c.spec.writes[..c.spec.cut]
  }

  lemma StepDurable(l: Layout, s: State, t: Step)
    requires Enabled(l, s, t) && AllDurable(s.core) && Control(s.core)
    ensures AllDurable(Next(l, s, t).core) && Next(l, s, t).core.spec.base == s.core.spec.base
    ensures Surviving(s.core) <= Surviving(Next(l, s, t).core)
  {
    hide WriteHead, ReadHead, LoggedBuf;
    if CacheStep(t) {
      assert Next(l, s, t).core == s.core;
    }
  }

  /** Once durable, a write is durable for the rest of the run, crashes included. */
  lemma {:induction false} DurableForever(l: Layout, disk: Disk, ss: seq<State>, ts: seq<Step>, n: nat, m: nat)
    requires IsRun(l, disk, ss, ts) && n <= m < |ss|
    ensures AllDurable(ss[n].core) && AllDurable(ss[m].core) && ss[m].core.spec.base == ss[n].core.spec.base
    ensures Surviving(ss[n].core) <= Surviving(ss[m].core)
    decreases m
  {
    hide Inv, Next, Enabled;
    if m > 0 {
      if n == m {
        DurableForever(l, disk, ss, ts, m - 1, m - 1);
      } else {
        DurableForever(l, disk, ss, ts, n, m - 1);
      }
      RunInv(l, disk, ss, ts, m - 1);
      RunControl(l, ss[m - 1]);
      assert StepAt(l, ss, ts, m - 1);
      StepDurable(l, ss[m - 1], ts[m - 1]);
    }
  }

  lemma RunControl(l: Layout, s: State)
    requires Inv(l, s)
    ensures Control(s.core)
  {
  }

  /** Durability: whatever had been logged when the log was last empty or committed is on
      the home blocks after any later crash and recovery, whatever happened in between. */
  lemma FinishedOperationsSurvive(l: Layout, disk: Disk, ss: seq<State>, ts: seq<Step>, n: nat, m: nat, ds: seq<Disk>)
    requires IsRun(l, disk, ss, ts) && n <= m < |ss| && Settled(ss[n].core)
    requires LogCommit.CrashedRecoveries(l, ds) && ds[0] == ss[m].core.disk
    ensures var r := LogCommit.RecoveryImages(l, ds[|ds| - 1]);
            exists ws :: ss[n].core.spec.writes <= ws
                         && Homes(l, r[|r| - 1]) == AtomicDisk.Replay(ss[n].core.spec.base, ws)
  {
    DurableForever(l, disk, ss, ts, n, m);
    CrashKeepsWholeOperations(l, disk, ss, ts, m, ds);
    assert Surviving(ss[n].core) == ss[n].core.spec.writes;
  }

  ghost predicate KeptCached(s: State, b: nat) {
    exists i :: 0 <= i < |s.bufs| && Caches(s, i, b) && s.bufs[i].valid && s.bufs[i].refcnt >= 1
  }

  /** Until the header is written no logged change is in its home block, and until it
      is installed its buffer stays cached, referenced and filled. */
  lemma WriteAheadAndPinned(l: Layout, disk: Disk, ss: seq<State>, ts: seq<Step>, n: nat)
    requires IsRun(l, disk, ss, ts) && n < |ss|
    ensures var c := ss[n].core;
            && (c.pc.Idle? || c.pc.CopyOut? ==> |c.disk| == l.size && Homes(l, c.disk) == c.spec.durable)
            && (forall k :: c.PinFrom() <= k < |c.lh| ==> KeptCached(ss[n], c.lh[k]))
  {
    RunInv(l, disk, ss, ts, n);
    var s := ss[n];
    var c := s.core;
    if c.pc.Idle? || c.pc.CopyOut? {
      DurableOfEmptyLog(l, c.disk);
    }
    forall k | c.PinFrom() <= k < |c.lh|
      ensures KeptCached(s, c.lh[k])
    {
      assert IsCached(s.bufs, c.lh[k]) && c.Pinned(c.lh[k]);
      var i :| 0 <= i < |s.bufs| && s.bufs[i].dev == ROOTDEV && s.bufs[i].block == c.lh[k] && s.bufs[i].valid;
      assert BufOk(l, s.bufs[i], c);
      assert Caches(s, i, c.lh[k]);
    }
  }

  /** log_write is never outside a transaction and end_op never meets a commit.  An
      operation with budget left finds the transaction too big only when every slot of the
      log is taken, which a log of more than LOGSIZE blocks rules out. */
  lemma NoLogPanic(l: Layout, disk: Disk, ss: seq<State>, ts: seq<Step>, n: nat, p: Pid)
    requires IsRun(l, disk, ss, ts) && n < |ss|
    requires p in ss[n].core.ids
    ensures var c := ss[n].core;
            && !c.committing && c.outstanding >= 1 && p in c.added
            && (c.added[p] < MAXOPBLOCKS ==> (LogSpace.TooBig(|c.lh|, l.nlog) <==> |c.lh| == l.nlog - 1))
            && (c.added[p] < MAXOPBLOCKS && l.nlog >= LOGSIZE + 1 ==> !LogSpace.TooBig(|c.lh|, l.nlog))
            && |c.lh| + LogSpace.Spare(c.added) <= LOGSIZE
  {
    RunInv(l, disk, ss, ts, n);
    var c := ss[n].core;
    assert p in c.ids.Keys;
    if c.added[p] < MAXOPBLOCKS {
      LogSpace.AddKeeps(LogSpace.Space(|c.lh|, c.added), p);
    }
  }
}
