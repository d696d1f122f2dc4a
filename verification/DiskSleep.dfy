/** virtio_disk_rw and virtio_disk_intr (kernel/virtio_disk.c) over sleep and wakeup: any
    number of processes reading and writing buffers and any number of interrupts, in every
    interleaving, with kills and preemption.  Only what the disk driver waits for is
    modelled: the number of free descriptors and the buffers the device still owns.  An
    interrupt handler is a process here; the statements of one critical section that change
    what is waited for are one step, as nobody else can look in between. */
module DiskSleep {
  import opened Monitor

  const NUM := 8            // descriptors
  const FREE: Chan := 1     // the channel &disk.free[0]

  /** The channel b, for buffer number b. */
  function Buffer(b: nat): Chan {
    b + 2
  }

  function Chans(buffers: nat): set<Chan> {
    set c: nat | c < buffers + 2 && IsChan(c)
  }

  predicate IsChan(c: Chan) {
    c != NOCHAN
  }

  /** Which statement of virtio_disk_rw or virtio_disk_intr a process is at. */
  datatype Code =
    | Idle
    | Alloc(b: nat)              // entering, allocating, or sleeping for descriptors
    | Undo(b: nat, k: nat)       // too few: k descriptors to give back, then sleep
    | UndoWake(b: nat, k: nat)   // has given one back; next: wakeup(&disk.free[0])
    | Wait(b: nat)               // the request is out: testing b->disk, or sleeping on b
    | Freeing(k: nat)            // k descriptors of the chain to free, then release
    | FreeWake(k: nat)           // has freed one; next: wakeup(&disk.free[0])
    | Intr                       // in the handler: entering, or at the head of its loop
    | Done(b: nat)               // has cleared b->disk; next: wakeup(b)

  /** busy[b] is b->disk. */
  datatype State = State(m: Core, code: seq<Code>, free: nat, busy: seq<bool>)

  datatype Act =
    | CallRw(p: nat, b: nat) | CallIntr(p: nat)
    | Enter(p: nat)              // acquire(&disk.vdisk_lock)
    | Allocate(p: nat)           // alloc3_desc, and on success b->disk = 1
    | GiveBack(p: nat)           // free_desc in alloc3_desc
    | GiveUp(p: nat)             // sleep(&disk.free[0])
    | Test(p: nat)               // while(b->disk == 1) sleep(b)
    | FreeOne(p: nat)            // free_desc in free_chain
    | Complete(p: nat, b: nat)   // b->disk = 0
    | WakeAll(p: nat)            // wakeup
    | Leave(p: nat)              // release(&disk.vdisk_lock)
    | Background(t: Step)        // a statement of sleep, wakeup, kill or the scheduler

  function Openings(free: nat, busy: seq<bool>): set<Chan> {
    set c | c in Chans(|busy|) && if c == FREE then free >= 3 else !busy[c - 2]
  }

  function Who(a: Act): nat {
    if a.Background? then a.t.p else a.p
  }

  predicate CanDo(s: State, a: Act) {
    && |s.code| == |s.m.procs| && Who(a) < |s.code|
    && var code, pc, chans := s.code[Who(a)], s.m.procs[Who(a)].pc, Chans(|s.busy|);
       match a
       case CallRw(_, b) => code == Idle && b < |s.busy|
       case CallIntr(_) => code == Idle
       case Enter(p) => (code.Alloc? || code.Intr?) && Enabled(s.m, Acquire(p), chans)
       case Allocate(_) => code.Alloc? && code.b < |s.busy| && pc == Inside
       case GiveBack(_) => code.Undo? && code.k > 0 && pc == Inside
       case GiveUp(_) => code.Undo? && code.k == 0 && pc == Inside
       case Test(_) => code.Wait? && code.b < |s.busy| && pc == Inside
       case FreeOne(_) => code.Freeing? && code.k > 0 && pc == Inside
       case Complete(_, b) => code.Intr? && b < |s.busy| && s.busy[b] && pc == Inside
       case WakeAll(_) => (code.UndoWake? || code.FreeWake? || (code.Done? && code.b < |s.busy|)) && pc == Inside
       case Leave(_) => (code == Freeing(0) || code.Intr?) && pc == Inside
       case Background(t) => IsBackground(t) && Enabled(s.m, t, chans)
  }

  /** The state with new values of what is waited for, and p at code. */
  function Set(s: State, p: nat, code: Code, free: nat, busy: seq<bool>): State
    requires p < |s.code| == |s.m.procs| && s.m.procs[p].pc == Inside
  {
    State(Next(s.m, Change(p, Openings(free, busy)), Chans(|s.busy|)), s.code[p := code], free, busy)
  }

  /** The state with p at code after a step of sleep and wakeup. */
  function To(s: State, p: nat, code: Code, t: Step): State
    requires p < |s.code| && Enabled(s.m, t, Chans(|s.busy|))
  {
    s.(m := Next(s.m, t, Chans(|s.busy|)), code := s.code[p := code])
  }

  function Waker(code: Code): Chan {
    if code.Done? then Buffer(code.b) else FREE
  }

  function Woken(code: Code): Code {
    match code
    case UndoWake(b, k) => Undo(b, k)
    case FreeWake(k) => Freeing(k)
    case _ => Intr
  }

  ghost predicate Does(s: State, a: Act, s': State) {
    && CanDo(s, a)
    && var code := s.code[Who(a)];
       match a
       case CallRw(p, b) => s' == s.(code := s.code[p := Alloc(b)])
       case CallIntr(p) => s' == s.(code := s.code[p := Intr])
       case Enter(p) => s' == To(s, p, code, Acquire(p))
       case Allocate(p) =>
         s' == if s.free >= 3 then Set(s, p, Wait(code.b), s.free - 3, s.busy[code.b := true])
               else Set(s, p, Undo(code.b, s.free), 0, s.busy)
       case GiveBack(p) => s' == Set(s, p, UndoWake(code.b, code.k - 1), s.free + 1, s.busy)
       case GiveUp(p) => s' == To(s, p, Alloc(code.b), Sleep(p, FREE))
       case Test(p) =>
         if s.busy[code.b] then s' == To(s, p, code, Sleep(p, Buffer(code.b)))
         else s' == s.(code := s.code[p := Freeing(3)])
       case FreeOne(p) => s' == Set(s, p, FreeWake(code.k - 1), s.free + 1, s.busy)
       case Complete(p, b) => s' == Set(s, p, Done(b), s.free, s.busy[b := false])
       case WakeAll(p) => s' == To(s, p, Woken(code), Wake(p, Waker(code)))
       case Leave(p) => s' == To(s, p, Idle, Release(p))
       case Background(t) => s' == s.(m := Next(s.m, t, Chans(|s.busy|)))
  }

  // ---------------------------------------------------------------- invariant

  predicate Fits(c: Code, pc: Pc) {
    match c
    case Idle => pc == Outside
    case Alloc(_) | Wait(_) => !Scanning(pc)
    case Undo(_, _) | Freeing(_) => pc == Inside || Scanning(pc)
    case UndoWake(_, _) | FreeWake(_) | Done(_) => pc == Inside
    case Intr => pc == Outside || pc == Inside || Scanning(pc)
  }

  /** Descriptors a process has taken and not freed. */
  function Holding(c: Code): nat {
    match c
    case Wait(_) => 3
    case Undo(_, k) => k
    case UndoWake(_, k) => k
    case Freeing(k) => k
    case FreeWake(k) => k
    case _ => 0
  }

  function Total(code: seq<Code>): nat {
    if code == [] then 0 else Total(code[..|code| - 1]) + Holding(code[|code| - 1])
  }

  predicate ProcessOk(s: State, p: nat)
    requires p < |s.code| == |s.m.procs|
  {
    && Fits(s.code[p], s.m.procs[p].pc)
    && (s.code[p].Undo? || s.code[p].UndoWake? ==> s.free + s.code[p].k <= 2)
    && (s.code[p].Alloc? || s.code[p].Undo? || s.code[p].UndoWake? || s.code[p].Wait? || s.code[p].Done? ==>
          s.code[p].b < |s.busy|)
  }

  predicate DueOk(s: State) {
    s.m.due != {} ==> && s.m.lk.Process? && s.m.lk.p < |s.code|
                      && var code := s.code[s.m.lk.p];
                         (code.UndoWake? || code.FreeWake? || code.Done?) && s.m.due == {Waker(code)}
  }

  ghost predicate DiskInv(s: State) {
    && |s.code| == |s.m.procs| && Monitor.Inv(s.m, Chans(|s.busy|))
    && s.m.open == Openings(s.free, s.busy) && s.m.lost == {} && DueOk(s)
    && s.free + Total(s.code) == NUM
    && forall p {:trigger ProcessOk(s, p)} :: 0 <= p < |s.code| ==> ProcessOk(s, p)
  }

  // ---------------------------------------------------------------- every step keeps it

  lemma ActKeeps(s: State, a: Act, s': State)
    requires DiskInv(s) && Does(s, a, s')
    ensures DiskInv(s')
  {
    hide Monitor.Inv, ProcessOk, Total, DueOk, Openings;
    CoreKept(s, a, s');
    CountKept(s, a, s');
    DueKept(s, a, s');
    forall q | 0 <= q < |s'.code|
      ensures ProcessOk(s', q)
    {
      ProcessKept(s, a, s', q);
    }
  }

  lemma CoreKept(s: State, a: Act, s': State)
    requires DiskInv(s) && Does(s, a, s')
    ensures Monitor.Inv(s'.m, Chans(|s'.busy|)) && |s'.busy| == |s.busy|
    ensures |s'.m.procs| == |s.m.procs| && |s'.code| == |s.code|
  {
    hide Monitor.Inv, Total, DueOk;
    var p, chans := Who(a), Chans(|s.busy|);
    assert ProcessOk(s, p);
    match a {
      case Background(t) => StepKeeps(s.m, t, chans);
      case Enter(_) => StepKeeps(s.m, Acquire(p), chans);
      case Allocate(_) => StepKeeps(s.m, Change(p, s'.m.open), chans);
      case GiveBack(_) => StepKeeps(s.m, Change(p, s'.m.open), chans);
      case GiveUp(_) => StepKeeps(s.m, Sleep(p, FREE), chans);
      case Test(_) =>
        if s.busy[s.code[p].b] {
          StepKeeps(s.m, Sleep(p, Buffer(s.code[p].b)), chans);
        }
      case FreeOne(_) => StepKeeps(s.m, Change(p, s'.m.open), chans);
      case Complete(_, _) => StepKeeps(s.m, Change(p, s'.m.open), chans);
      case WakeAll(_) => StepKeeps(s.m, Wake(p, Waker(s.code[p])), chans);
      case Leave(_) => StepKeeps(s.m, Release(p), chans);
      case _ =>
    }
  }

  lemma CountKept(s: State, a: Act, s': State)
    requires DiskInv(s) && Does(s, a, s')
    ensures s'.free + Total(s'.code) == NUM && s'.m.open == Openings(s'.free, s'.busy)
  {
    hide Monitor.Inv, Total, DueOk, Openings;
    var p := Who(a);
    assert s'.code == s.code[p := s'.code[p]];
    TotalMoves(s.code, p, s'.code[p]);
  }

  lemma {:induction false} TotalMoves(code: seq<Code>, p: nat, c: Code)
    requires p < |code|
    ensures Total(code[p := c]) + Holding(code[p]) == Total(code) + Holding(c)
    decreases |code|
  {
    var n := |code| - 1;
    if p == n {
      assert code[p := c][..n] == code[..n];
    } else {
      assert code[p := c][..n] == code[..n][p := c];
      TotalMoves(code[..n], p, c);
    }
  }

  /** A channel is opened only where a wakeup of it follows under the same lock. */
  lemma DueKept(s: State, a: Act, s': State)
    requires DiskInv(s) && Does(s, a, s')
    ensures s'.m.lost == {} && DueOk(s')
  {
    hide Total;
    var p := Who(a);
    assert ProcessOk(s, p) && ProcOk(s.m, p, Chans(|s.busy|));
    if a.Background? {
      BackgroundPc(s.m, a.t, Chans(|s.busy|), p);
    }
  }

  lemma ProcessKept(s: State, a: Act, s': State, q: nat)
    requires DiskInv(s) && Does(s, a, s') && q < |s.code| && |s'.m.procs| == |s.m.procs| && |s'.busy| == |s.busy|
    ensures ProcessOk(s', q)
  {
    hide Monitor.Inv, ProcessOk, Total, DueOk, Openings, Next, Enabled;
    if a.Background? {
      BackgroundKept(s, a, s', q);
    } else if q == Who(a) {
      ActorKept(s, a, s');
    } else {
      OtherKept(s, a, s', q);
    }
  }

  lemma BackgroundKept(s: State, a: Act, s': State, q: nat)
    requires DiskInv(s) && Does(s, a, s') && q < |s.code| && |s'.m.procs| == |s.m.procs| && a.Background?
    ensures ProcessOk(s', q)
  {
    hide Monitor.Inv, Total, DueOk, Openings, Next, Enabled;
    assert ProcessOk(s, q);
    BackgroundPc(s.m, a.t, Chans(|s.busy|), q);
  }

  lemma ActorKept(s: State, a: Act, s': State)
    requires DiskInv(s) && Does(s, a, s') && |s'.m.procs| == |s.m.procs| && |s'.busy| == |s.busy| && !a.Background?
    ensures Who(a) < |s'.code| && ProcessOk(s', Who(a))
  {
    hide Monitor.Inv, Total, DueOk, Openings;
    assert ProcessOk(s, Who(a));
  }

  /** Only the holder of the lock can be giving descriptors back. */
  lemma OtherKept(s: State, a: Act, s': State, q: nat)
    requires DiskInv(s) && Does(s, a, s') && q < |s.code| && |s'.m.procs| == |s.m.procs| && |s'.busy| == |s.busy|
    requires !a.Background? && q != Who(a)
    ensures ProcessOk(s', q)
  {
    hide Total, DueOk, Openings;
    assert ProcessOk(s, q) && ProcessOk(s, Who(a));
    assert ProcOk(s.m, q, Chans(|s.busy|)) && ProcOk(s.m, Who(a), Chans(|s.busy|));
  }

  // ---------------------------------------------------------------- runs

  /** As virtio_disk_init leaves it. */
  ghost predicate Initial(s: State) {
    && |s.code| == |s.m.procs| && s.m == Core(Nobody, s.m.procs, Openings(NUM, s.busy), {}, {}) && s.free == NUM
    && (forall b :: 0 <= b < |s.busy| ==> !s.busy[b])
    && forall p :: 0 <= p < |s.code| ==> s.code[p] == Idle && s.m.procs[p] == Proc(Outside, RUNNABLE, NOCHAN, Nobody)
  }

  ghost predicate IsRun(run: seq<State>, acts: seq<Act>) {
    && |run| == |acts| + 1 && Initial(run[0])
    && forall k :: 0 <= k < |acts| ==> Does(run[k], acts[k], run[k + 1])
  }

  lemma InitialInv(s: State)
    requires Initial(s)
    ensures DiskInv(s)
  {
    NoneHeld(s.code);
    forall p | 0 <= p < |s.code|
      ensures ProcessOk(s, p) && ProcOk(s.m, p, Chans(|s.busy|))
    {
    }
  }

  lemma {:induction false} NoneHeld(code: seq<Code>)
    ensures Total(code) == 0 <==> forall p :: 0 <= p < |code| ==> Holding(code[p]) == 0
  {
    if code != [] {
      NoneHeld(code[..|code| - 1]);
    }
  }

  lemma {:induction false} RunInv(run: seq<State>, acts: seq<Act>, k: nat)
    requires IsRun(run, acts) && k < |run|
    ensures DiskInv(run[k])
  {
    if k == 0 {
      InitialInv(run[0]);
    } else {
      RunInv(run, acts, k - 1);
      ActKeeps(run[k - 1], acts[k - 1], run[k]);
    }
  }

  predicate Waits(s: State, p: nat, c: Chan)
    requires p < |s.m.procs|
  {
    (s.m.procs[p].state == SLEEPING && s.m.procs[p].chan == c) || Committed(s.m.procs[p], c)
  }

  /** Whenever the driver's lock is free, nobody is asleep, or past the point of no return
      towards sleeping, for descriptors while three are free, and then some process holds
      descriptors it will free; nor on a buffer the device is done with. */
  lemma NoLostWakeup(run: seq<State>, acts: seq<Act>, k: nat, p: nat)
    requires IsRun(run, acts) && k < |run| && p < |run[k].m.procs| && run[k].m.lk == Nobody
    ensures Waits(run[k], p, FREE) ==>
              run[k].free < 3 && |run[k].code| == |run[k].m.procs|
              && exists q :: 0 <= q < |run[k].code| && run[k].code[q].Wait?
    ensures forall b :: 0 <= b < |run[k].busy| && Waits(run[k], p, Buffer(b)) ==> run[k].busy[b]
  {
    var s, chans := run[k], Chans(|run[k].busy|);
    RunInv(run, acts, k);
    assert ProcOk(s.m, p, chans) && SleeperOk(s.m, p, FREE);
    forall b | 0 <= b < |s.busy| && Waits(s, p, Buffer(b))
      ensures s.busy[b]
    {
      assert SleeperOk(s.m, p, Buffer(b)) && Buffer(b) in chans;
    }
    if Waits(s, p, FREE) {
      assert FREE in chans;
      SomeoneHolds(s);
    }
  }

  /** With the lock free, only requests that are out hold descriptors. */
  lemma SomeoneHolds(s: State)
    requires DiskInv(s) && s.m.lk == Nobody && s.free < 3
    ensures exists q :: 0 <= q < |s.code| && s.code[q].Wait?
  {
    hide Total, DueOk, Openings;
    NoneHeld(s.code);
    var q :| 0 <= q < |s.code| && Holding(s.code[q]) != 0;
    assert ProcessOk(s, q) && ProcOk(s.m, q, Chans(|s.busy|));
  }
}
