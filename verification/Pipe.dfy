/** Pipes (kernel/pipe.c) over sleep and wakeup: any number of readers, writers and closers
    of one pipe, in every interleaving, with kills and preemption. */
module Pipe {
  import opened Monitor

  const PIPESIZE := 512
  const UINT := 0x1_0000_0000

  // The two channels: the addresses of the two counters.
  const NREAD: Chan := 1
  const NWRITE: Chan := 2
  const CHANS: set<Chan> := {NREAD, NWRITE}

  /** struct pipe, with the history of all bytes stored into and taken from the ring. */
  datatype Data = Data(ring: seq<nat>, nread: nat, nwrite: nat, readopen: bool, writeopen: bool,
                       put: seq<nat>, taken: seq<nat>)

  /** Which statement of pipewrite, piperead or pipeclose a process is at; i counts the
      bytes moved so far out of n, and stored those put since the last wakeup(&pi->nread). */
  datatype Code =
    | Idle
    | Write(n: int, i: nat, stored: nat)   // entering, at the head of the loop, or sleeping
    | WriteFull(n: int, i: nat)            // found the pipe full: in wakeup, then sleep
    | WriteEnd                             // next: wakeup
    | WriteDone                            // in wakeup, then release
    | Read(n: int)                         // entering, at the head of the first loop, or sleeping
    | Copy(n: int, i: nat)                 // at the head of the second loop
    | ReadEnd
    | ReadDone
    | Close(writable: bool)
    | CloseEnd(writable: bool)
    | CloseDone

  datatype State = State(m: Core, code: seq<Code>, killed: seq<bool>, d: Data)

  datatype Act =
    | Call(p: nat, code: Code)
    | Enter(p: nat)                            // acquire(&pi->lock)
    | WriteLoop(p: nat, ch: nat, copied: bool) // one round of pipewrite; copyin yields ch or fails
    | WriteSleep(p: nat)
    | ReadLoop(p: nat)                         // one round of piperead's first loop
    | CopyLoop(p: nat, copied: bool)           // one round of its second; copyout may fail
    | Shut(p: nat)                             // pipeclose clears its flag
    | WakeAll(p: nat)
    | Leave(p: nat)                            // release(&pi->lock)
    | Background(t: Step)

  // ---------------------------------------------------------------- the pipe

  predicate Full(d: Data) {
    d.nwrite == (d.nread + PIPESIZE) % UINT
  }

  predicate Empty(d: Data) {
    d.nread == d.nwrite
  }

  function Stored(d: Data, ch: nat): (r: Data)
    requires |d.ring| == PIPESIZE
  {
    d.(ring := d.ring[d.nwrite % PIPESIZE := ch], nwrite := (d.nwrite + 1) % UINT, put := d.put + [ch])
  }

  function Taken(d: Data): (r: Data)
    requires |d.ring| == PIPESIZE
  {
    d.(nread := (d.nread + 1) % UINT, taken := d.taken + [d.ring[d.nread % PIPESIZE]])
  }

  /** Channels on which nobody should sleep. */
  function Openings(d: Data): set<Chan> {
    (if Empty(d) && d.writeopen then {} else {NREAD}) + (if Full(d) && d.readopen then {} else {NWRITE})
  }

  // ---------------------------------------------------------------- steps

  function Who(a: Act): nat {
    if a.Background? then a.t.p else a.p
  }

  predicate Starts(c: Code) {
    (c.Write? && c.i == c.stored == 0) || c.Read? || c.Close?
  }

  predicate CanDo(s: State, a: Act) {
    && |s.code| == |s.killed| == |s.m.procs| && |s.d.ring| == PIPESIZE && Who(a) < |s.code|
    && var code, pc := s.code[Who(a)], s.m.procs[Who(a)].pc;
       match a
       case Call(_, c) => code == Idle && Starts(c)
       case Enter(p) => Enabled(s.m, Acquire(p), CHANS) && code != Idle
       case WriteLoop(_, _, _) => pc == Inside && code.Write?
       case WriteSleep(_) => pc == Inside && code.WriteFull?
       case ReadLoop(_) => pc == Inside && code.Read?
       case CopyLoop(_, _) => pc == Inside && code.Copy?
       case Shut(_) => pc == Inside && code.Close?
       case WakeAll(_) => pc == Inside && (code == WriteEnd || code == ReadEnd || code.CloseEnd?)
       case Leave(_) => pc == Inside && (code == WriteDone || code == ReadDone || code == CloseDone)
       case Background(t) => IsBackground(t) && Enabled(s.m, t, CHANS)
  }

  function Move(s: State, t: Step): (r: State)
    requires Enabled(s.m, t, CHANS)
  {
    s.(m := Next(s.m, t, CHANS))
  }

  function Goto(s: State, p: nat, c: Code): (r: State)
    requires p < |s.code|
  {
    s.(code := s.code[p := c])
  }

  /** The pipe changes under its lock. */
  function Update(s: State, p: nat, d: Data): (r: State)
    requires Enabled(s.m, Change(p, Openings(d)), CHANS)
  {
    Move(s, Change(p, Openings(d))).(d := d)
  }

  function WriteRound(s: State, p: nat, ch: nat, copied: bool): (r: State)
    requires CanDo(s, WriteLoop(p, ch, copied))
  {
    var n, i := s.code[p].n, s.code[p].i;
    if i >= n then Goto(s, p, WriteEnd)
    else if !s.d.readopen || s.killed[p] then Goto(Move(s, Release(p)), p, Idle)
    else if Full(s.d) then Goto(Move(s, Wake(p, NREAD)), p, WriteFull(n, i))
    else if !copied then Goto(s, p, WriteEnd)
    else Goto(Update(s, p, Stored(s.d, ch)), p, Write(n, i + 1, s.code[p].stored + 1))
  }

  function ReadRound(s: State, p: nat): (r: State)
    requires CanDo(s, ReadLoop(p))
  {
    if !(Empty(s.d) && s.d.writeopen) then Goto(s, p, Copy(s.code[p].n, 0))
    else if s.killed[p] then Goto(Move(s, Release(p)), p, Idle)
    else Move(s, Sleep(p, NREAD))
  }

  function CopyRound(s: State, p: nat, copied: bool): (r: State)
    requires CanDo(s, CopyLoop(p, copied))
  {
    var n, i := s.code[p].n, s.code[p].i;
    if i >= n || Empty(s.d) then Goto(s, p, ReadEnd)
    else Goto(Update(s, p, Taken(s.d)), p, if copied then Copy(n, i + 1) else ReadEnd)
  }

  function WakeCall(s: State, p: nat): (r: State)
    requires CanDo(s, WakeAll(p))
  {
    match s.code[p]
    case WriteEnd => Goto(Move(s, Wake(p, NREAD)), p, WriteDone)
    case ReadEnd => Goto(Move(s, Wake(p, NWRITE)), p, ReadDone)
    case _ => Goto(Move(s, Wake(p, if s.code[p] == CloseEnd(true) then NREAD else NWRITE)), p, CloseDone)
  }

  function After(s: State, a: Act): (r: State)
    requires CanDo(s, a)
  {
    match a
    case Call(p, c) => Goto(s, p, c)
    case Enter(p) => Move(s, Acquire(p))
    case WriteLoop(p, ch, copied) => WriteRound(s, p, ch, copied)
    case WriteSleep(p) => Goto(Move(s, Sleep(p, NWRITE)), p, Write(s.code[p].n, s.code[p].i, 0))
    case ReadLoop(p) => ReadRound(s, p)
    case CopyLoop(p, copied) => CopyRound(s, p, copied)
    case Shut(p) =>
      Goto(Update(s, p, if s.code[p].writable then s.d.(writeopen := false) else s.d.(readopen := false)),
           p, CloseEnd(s.code[p].writable))
    case WakeAll(p) => WakeCall(s, p)
    case Leave(p) => Goto(Move(s, Release(p)), p, Idle)
    case Background(t) => Move(s, t).(killed := if t.KillSet? then s.killed[t.p := true] else s.killed)
  }

  // ---------------------------------------------------------------- the ring

  /** The counters are the history's lengths modulo 2^32; the ring holds what has been put
      and not taken, which is at most PIPESIZE bytes. */
  ghost predicate RingOk(d: Data) {
    && |d.ring| == PIPESIZE && d.nread == |d.taken| % UINT && d.nwrite == |d.put| % UINT
    && |d.taken| <= |d.put| <= |d.taken| + PIPESIZE && d.taken == d.put[..|d.taken|]
    && forall k :: |d.taken| <= k < |d.put| ==> d.ring[k % PIPESIZE] == d.put[k]
  }

  /** The tests on the wrapping counters are exact. */
  lemma TestsExact(d: Data)
    requires RingOk(d)
    ensures Full(d) <==> |d.put| == |d.taken| + PIPESIZE
    ensures Empty(d) <==> d.put == d.taken
  {
    assert Empty(d) ==> |d.put| == |d.taken|;
    assert |d.put| == |d.taken| ==> d.put[..|d.taken|] == d.put;
  }

  lemma SlotOf(x: nat)
    ensures x % UINT % PIPESIZE == x % PIPESIZE && (x % UINT + 1) % UINT == (x + 1) % UINT
  {
    assert x == x / UINT * (UINT / PIPESIZE) * PIPESIZE + x % UINT;
  }

  lemma StoreKeeps(d: Data, ch: nat)
    requires RingOk(d) && !Full(d)
    ensures RingOk(Stored(d, ch)) && Openings(Stored(d, ch)) - Openings(d) <= {NREAD}
  {
    var d' := Stored(d, ch);
    TestsExact(d);
    SlotOf(|d.put|);
    assert d'.put[..|d.taken|] == d.put[..|d.taken|];
    forall k | |d'.taken| <= k < |d'.put|
      ensures d'.ring[k % PIPESIZE] == d'.put[k]
    {
      if k < |d.put| {
        SlotsApart(k, |d.put|);
      }
    }
  }

  lemma SlotsApart(k: nat, n: nat)
    requires k < n < k + PIPESIZE
    ensures k % PIPESIZE != n % PIPESIZE
  {
  }

  lemma TakeKeeps(d: Data)
    requires RingOk(d) && !Empty(d)
    ensures RingOk(Taken(d)) && Openings(Taken(d)) - Openings(d) <= {NWRITE} <= Openings(Taken(d))
  {
    TestsExact(d);
    SlotOf(|d.taken|);
    OneMore(d.put, |d.taken|);
    TestsExact(Taken(d));
  }

  lemma OneMore(s: seq<nat>, n: nat)
    requires n < |s|
    ensures s[..n] + [s[n]] == s[..n + 1]
  {
  }

  // ---------------------------------------------------------------- invariant

  predicate Fits(c: Code, pc: Pc) {
    match c
    case Idle => pc == Outside
    case Write(_, _, stored) => !Scanning(pc) && (pc == Inside || stored == 0)
    case Read(_) => !Scanning(pc)
    case Close(_) => pc == Outside || pc == Inside
    case WriteEnd | ReadEnd | Copy(_, _) | CloseEnd(_) => pc == Inside
    case WriteFull(_, _) | WriteDone | ReadDone | CloseDone => pc == Inside || Scanning(pc)
  }

  /** The channels that a process at c may still have to wake. */
  function Debts(c: Code): set<Chan> {
    match c
    case Write(_, _, _) | WriteEnd => {NREAD}
    case Copy(_, _) | ReadEnd => {NWRITE}
    case CloseEnd(w) => {if w then NREAD else NWRITE}
    case _ => {}
  }

  /** The writer at c has stored bytes since it last woke the readers, and the pipe holds
      nothing else: it was empty, with its write end open, when the first of them went in. */
  predicate FirstBytes(d: Data, c: Code)
    requires c.Write?
  {
    0 < c.stored == |d.put| - |d.taken| && d.writeopen
  }

  predicate HolderOk(s: State, c: Code) {
    && s.m.due <= Debts(c) && s.m.due <= s.m.open
    && (c.Write? ==> (s.m.due != {} ==> s.d.readopen) && (NREAD in s.m.due <==> FirstBytes(s.d, c)))
    && (c.Write? ==> c.stored <= |s.d.put| - |s.d.taken|)
    && (c.WriteFull? ==> Full(s.d) && s.d.readopen)
  }

  predicate ProcessOk(s: State, p: nat)
    requires p < |s.code| == |s.m.procs|
  {
    Fits(s.code[p], s.m.procs[p].pc) && (Holds(s.m.procs[p].pc) ==> HolderOk(s, s.code[p]))
  }

  ghost predicate PipeInv(s: State) {
    && |s.code| == |s.killed| == |s.m.procs| && Monitor.Inv(s.m, CHANS)
    && s.m.open == Openings(s.d) && RingOk(s.d) && s.m.lost <= {NREAD}
    && forall p {:trigger ProcessOk(s, p)} :: 0 <= p < |s.code| ==> ProcessOk(s, p)
  }

  /** A killed writer with more to write gives up after the first bytes. */
  predicate Abandons(s: State, a: Act)
    requires CanDo(s, a)
  {
    a.WriteLoop? && s.killed[a.p] && s.code[a.p].i < s.code[a.p].n && FirstBytes(s.d, s.code[a.p])
  }

  /** The step of the sleep and wakeup machine that an act makes, if it makes one. */
  function CoreStep(s: State, a: Act): (t: Step)
    requires CanDo(s, a) && !a.Call?
  {
    match a
    case Enter(p) => Acquire(p)
    case WriteLoop(p, ch, _) =>
      if !s.d.readopen || s.killed[p] then Release(p)
      else if Full(s.d) then Wake(p, NREAD)
      else Change(p, Openings(Stored(s.d, ch)))
    case WriteSleep(p) => Sleep(p, NWRITE)
    case ReadLoop(p) => if s.killed[p] then Release(p) else Sleep(p, NREAD)
    case CopyLoop(p, _) => Change(p, Openings(Taken(s.d)))
    case Shut(p) => Change(p,
                           Openings(if s.code[p].writable then s.d.(writeopen := false) else s.d.(readopen := false)))
    case WakeAll(p) => Wake(p, if s.code[p] == WriteEnd || s.code[p] == CloseEnd(true) then NREAD else NWRITE)
    case Leave(p) => Release(p)
    case Background(t) => t
  }

  lemma CoreKept(s: State, a: Act)
    requires PipeInv(s) && CanDo(s, a)
    ensures var m := After(s, a).m;
            m == s.m || (!a.Call? && Enabled(s.m, CoreStep(s, a), CHANS) && m == Next(s.m, CoreStep(s, a), CHANS))
    ensures Monitor.Inv(After(s, a).m, CHANS) && |After(s, a).m.procs| == |s.m.procs|
  {
    hide CanAdvance, Full, Fits;
    var p := Who(a);
    assert ProcessOk(s, p) && ProcOk(s.m, p, CHANS);
    if After(s, a).m != s.m {
      StepKeeps(s.m, CoreStep(s, a), CHANS);
    }
  }

  lemma ActKeeps(s: State, a: Act)
    requires PipeInv(s) && CanDo(s, a)
    ensures PipeInv(After(s, a))
    ensures s.m.lost == {} ==> (After(s, a).m.lost != {} <==> Abandons(s, a))
  {
    var s' := After(s, a);
    CoreKept(s, a);
    DataKept(s, a);
    LostKept(s, a);
    forall q | 0 <= q < |s'.code|
      ensures ProcessOk(s', q)
    {
      ProcessKept(s, a, q);
    }
  }

  lemma DataKept(s: State, a: Act)
    requires PipeInv(s) && CanDo(s, a)
    ensures After(s, a).m.open == Openings(After(s, a).d) && RingOk(After(s, a).d)
  {
    hide Openings, Inv, Who, IsBackground;
    if a.WriteLoop? && !Full(s.d) {
      StoreKeeps(s.d, a.ch);
    }
    if a.CopyLoop? && !Empty(s.d) {
      TakeKeeps(s.d);
    }
    if a.Background? {
      BackgroundPc(s.m, a.t, CHANS, a.t.p);
    }
  }

  lemma LostKept(s: State, a: Act)
    requires PipeInv(s) && CanDo(s, a)
    ensures After(s, a).m.lost <= {NREAD}
    ensures s.m.lost == {} ==> (After(s, a).m.lost != {} <==> Abandons(s, a))
  {
    assert ProcessOk(s, Who(a)) && ProcOk(s.m, Who(a), CHANS);
    if a.Background? {
      BackgroundPc(s.m, a.t, CHANS, a.t.p);
    } else if Abandons(s, a) {
      assert After(s, a).m.lost == s.m.lost + s.m.due && NREAD in s.m.due;
    }
  }

  lemma ProcessKept(s: State, a: Act, q: nat)
    requires PipeInv(s) && CanDo(s, a) && q < |s.code|
    ensures |After(s, a).m.procs| == |s.m.procs| && ProcessOk(After(s, a), q)
  {
    hide RingOk, Monitor.SleeperOk;
    if a.Background? {
      BackgroundKept(s, a.t, q);
    } else if q == a.p {
      ActorKept(s, a);
    } else {
      hide HolderOk;
      assert ProcessOk(s, q) && ProcessOk(s, a.p) && ProcOk(s.m, q, CHANS) && ProcOk(s.m, a.p, CHANS);
    }
  }

  lemma BackgroundKept(s: State, t: Step, q: nat)
    requires PipeInv(s) && CanDo(s, Background(t)) && q < |s.code|
    ensures |After(s, Background(t)).m.procs| == |s.m.procs| && ProcessOk(After(s, Background(t)), q)
  {
    hide Monitor.SleeperOk, Monitor.Next;
    assert ProcessOk(s, q) && ProcOk(s.m, q, CHANS) && ProcOk(s.m, t.p, CHANS);
    BackgroundPc(s.m, t, CHANS, q);
    assert |s.d.taken| <= |s.d.put|;
  }

  lemma ActorKept(s: State, a: Act)
    requires PipeInv(s) && CanDo(s, a) && !a.Background?
    ensures |After(s, a).m.procs| == |s.m.procs| && ProcessOk(After(s, a), a.p)
  {
    if a.WriteLoop? {
      WriterKept(s, a);
    } else if a.CopyLoop? {
      ReaderKept(s, a);
    } else {
      CallerKept(s, a);
    }
  }

  lemma WriterKept(s: State, a: Act)
    requires PipeInv(s) && CanDo(s, a) && a.WriteLoop?
    ensures |After(s, a).m.procs| == |s.m.procs| && ProcessOk(After(s, a), a.p)
  {
    hide SleeperOk;
    assert |s.d.taken| <= |s.d.put| && (Empty(s.d) <==> s.d.put == s.d.taken) by {
      TestsExact(s.d);
    }
    if !Full(s.d) {
      StoreKeeps(s.d, a.ch);
      TestsExact(Stored(s.d, a.ch));
    }
    hide Monitor.SleeperOk, RingOk;
    assert ProcessOk(s, a.p) && ProcOk(s.m, a.p, CHANS);
  }

  lemma ReaderKept(s: State, a: Act)
    requires PipeInv(s) && CanDo(s, a) && a.CopyLoop?
    ensures |After(s, a).m.procs| == |s.m.procs| && ProcessOk(After(s, a), a.p)
  {
    hide Monitor.SleeperOk, Full;
    assert ProcessOk(s, a.p) && ProcOk(s.m, a.p, CHANS);
    if s.code[a.p].i < s.code[a.p].n && !Empty(s.d) {
      TakeKeeps(s.d);
      hide RingOk;
      assert After(s, a).m == Next(s.m, Change(a.p, Openings(Taken(s.d))), CHANS);
    }
  }

  lemma CallerKept(s: State, a: Act)
    requires PipeInv(s) && CanDo(s, a) && !a.Background? && !a.WriteLoop? && !a.CopyLoop?
    ensures |After(s, a).m.procs| == |s.m.procs| && ProcessOk(After(s, a), a.p)
  {
    assert ProcessOk(s, a.p) && ProcOk(s.m, a.p, CHANS);
  }

  // ---------------------------------------------------------------- runs

  /** A pipe fresh from pipealloc, and processes that have no business with it yet. */
  ghost predicate Initial(s: State) {
    && |s.code| == |s.killed| == |s.m.procs| && |s.d.ring| == PIPESIZE
    && s.d == Data(s.d.ring, 0, 0, true, true, [], []) && s.m == Core(Nobody, s.m.procs, {NWRITE}, {}, {})
    && forall p :: 0 <= p < |s.code| ==> s.code[p] == Idle && !s.killed[p]
                                         && s.m.procs[p] == Proc(Outside, RUNNABLE, NOCHAN, Nobody)
  }

  ghost predicate StepAt(run: seq<State>, acts: seq<Act>, k: nat)
    requires k < |acts| < |run|
  {
    CanDo(run[k], acts[k]) && run[k + 1] == After(run[k], acts[k])
  }

  ghost predicate IsRun(run: seq<State>, acts: seq<Act>) {
    && |run| == |acts| + 1 && Initial(run[0])
    && forall k {:trigger StepAt(run, acts, k)} :: 0 <= k < |acts| ==> StepAt(run, acts, k)
  }

  ghost predicate AbandonsAt(run: seq<State>, acts: seq<Act>, k: nat)
    requires IsRun(run, acts) && k < |acts|
  {
    assert StepAt(run, acts, k);
    Abandons(run[k], acts[k])
  }

  lemma InitialOk(s: State)
    requires Initial(s)
    ensures PipeInv(s)
  {
    forall p | 0 <= p < |s.code|
      ensures ProcessOk(s, p) && ProcOk(s.m, p, CHANS)
    {
    }
  }

  lemma {:induction false} RunInv(run: seq<State>, acts: seq<Act>, k: nat)
    requires IsRun(run, acts) && k < |run|
    ensures PipeInv(run[k])
    ensures run[k].m.lost != {} ==> exists j :: 0 <= j < k && AbandonsAt(run, acts, j)
  {
    if k == 0 {
      InitialOk(run[0]);
    } else {
      RunInv(run, acts, k - 1);
      assert StepAt(run, acts, k - 1);
      ActKeeps(run[k - 1], acts[k - 1]);
      assert run[k - 1].m.lost == {} && run[k].m.lost != {} ==> AbandonsAt(run, acts, k - 1);
    }
  }

  /** Asleep on c, or past the point of no return towards it. */
  predicate Sleeps(s: State, p: nat, c: Chan)
    requires p < |s.m.procs|
  {
    (s.m.procs[p].state == SLEEPING && s.m.procs[p].chan == c) || Committed(s.m.procs[p], c)
  }

  lemma SleepersWait(run: seq<State>, acts: seq<Act>, k: nat, p: nat, c: Chan)
    requires IsRun(run, acts) && k < |run| && p < |run[k].m.procs| && run[k].m.lk == Nobody && c in CHANS
    ensures Sleeps(run[k], p, c) && c !in run[k].m.lost ==> c !in Openings(run[k].d)
    ensures NWRITE !in run[k].m.lost && RingOk(run[k].d)
  {
    RunInv(run, acts, k);
    assert ProcOk(run[k].m, p, CHANS) && SleeperOk(run[k].m, p, c);
  }

  /** Whenever the pipe's lock is free, no writer sleeps on a pipe that has room or no
      reader end; and no reader on one that has bytes or no writer end, unless a killed
      writer has abandoned bytes. */
  lemma NoLostWakeup(run: seq<State>, acts: seq<Act>, k: nat, p: nat)
    requires IsRun(run, acts) && k < |run| && p < |run[k].m.procs| && run[k].m.lk == Nobody
    ensures var d := run[k].d;
            && (Sleeps(run[k], p, NWRITE) ==> |d.put| == |d.taken| + PIPESIZE && d.readopen)
            && (Sleeps(run[k], p, NREAD) && (forall j :: 0 <= j < k ==> !AbandonsAt(run, acts, j)) ==>
                d.put == d.taken && d.writeopen)
  {
    SleepersWait(run, acts, k, p, NWRITE);
    SleepersWait(run, acts, k, p, NREAD);
    RunInv(run, acts, k);
    TestsExact(run[k].d);
  }

  /** Without kills nothing is abandoned. */
  lemma {:induction false} KillFree(run: seq<State>, acts: seq<Act>, k: nat)
    requires IsRun(run, acts) && k < |run|
    requires forall j :: 0 <= j < |acts| ==> !(acts[j].Background? && acts[j].t.KillSet?)
    ensures |run[k].killed| == |run[0].killed| && forall p :: 0 <= p < |run[k].killed| ==> !run[k].killed[p]
    ensures k < |acts| ==> !AbandonsAt(run, acts, k)
  {
    if k > 0 {
      KillFree(run, acts, k - 1);
      assert StepAt(run, acts, k - 1);
      KilledFrame(run[k - 1], acts[k - 1]);
    }
    assert k < |acts| ==> StepAt(run, acts, k);
  }

  lemma KilledFrame(s: State, a: Act)
    requires CanDo(s, a)
    ensures After(s, a).killed == if a.Background? && a.t.KillSet? then s.killed[a.t.p := true] else s.killed
  {
  }

  /** What leaves the pipe is a prefix of what entered it, at most PIPESIZE bytes behind,
      in every run, kills included. */
  lemma FirstInFirstOut(run: seq<State>, acts: seq<Act>, k: nat)
    requires IsRun(run, acts) && k < |run|
    ensures run[k].d.taken <= run[k].d.put && |run[k].d.put| - |run[k].d.taken| <= PIPESIZE
  {
    RunInv(run, acts, k);
  }

  // ---------------------------------------------------------------- exactly when a wakeup is lost

  /** p sleeps on a pipe that has bytes for it, or no writer end. */
  predicate Overdue(s: State, p: nat) {
    p < |s.m.procs| && Sleeps(s, p, NREAD) && (s.d.put != s.d.taken || !s.d.writeopen)
  }

  /** ... and nobody is about to wake it. */
  predicate Forgotten(s: State, p: nat) {
    Overdue(s, p) && !Minded(s.m, p, NREAD)
  }

  lemma OverdueIs(s: State, p: nat)
    requires PipeInv(s) && p < |s.m.procs|
    ensures Overdue(s, p) <==> Committed(s.m.procs[p], NREAD) && NREAD in s.m.open
  {
    assert ProcOk(s.m, p, CHANS);
    TestsExact(s.d);
  }

  /** A step that leaves p overdue leaves it about to be woken, or found it forgotten, or
      abandons it. */
  lemma ReaderFate(s: State, a: Act, p: nat)
    requires PipeInv(s) && CanDo(s, a) && Overdue(After(s, a), p) && !Minded(After(s, a).m, p, NREAD)
    ensures Overdue(s, p) && (Minded(s.m, p, NREAD) ==> Abandons(s, a))
  {
    CoreKept(s, a);
    ActKeeps(s, a);
    OverdueIs(s, p);
    OverdueIs(After(s, a), p);
    if After(s, a).m != s.m {
      assert ProcessOk(s, Who(a)) && ProcOk(s.m, Who(a), CHANS);
      SleeperFate(s.m, CoreStep(s, a), CHANS, p, NREAD);
    }
  }

  /** Abandoning bytes leaves every sleeping reader asleep on them, with the lock free. */
  lemma AbandonForgets(s: State, a: Act, p: nat)
    requires PipeInv(s) && CanDo(s, a) && Abandons(s, a) && p < |s.m.procs| && Sleeps(s, p, NREAD)
    ensures Overdue(s, p) && Forgotten(After(s, a), p) && After(s, a).m.lk == Nobody
  {
    assert ProcessOk(s, a.p) && ProcOk(s.m, a.p, CHANS) && ProcOk(s.m, p, CHANS);
  }

  ghost predicate OverdueFrom(run: seq<State>, j: nat, k: nat, p: nat)
    requires k < |run|
  {
    forall m {:trigger Overdue(run[m], p)} :: j <= m <= k ==> Overdue(run[m], p)
  }

  /** A forgotten reader was abandoned, and has slept beside the bytes ever since. */
  lemma {:induction false} ForgottenSince(run: seq<State>, acts: seq<Act>, k: nat, p: nat) returns (j: nat)
    requires IsRun(run, acts) && k < |run| && Forgotten(run[k], p)
    ensures j < k && AbandonsAt(run, acts, j) && OverdueFrom(run, j, k, p)
  {
    RunInv(run, acts, k);
    if k == 0 {
      assert false;
    } else {
      j := k - 1;
      RunInv(run, acts, j);
      assert StepAt(run, acts, j);
      ReaderFate(run[j], acts[j], p);
      if !Minded(run[j].m, p, NREAD) {
        j := ForgottenSince(run, acts, k - 1, p);
      }
    }
  }

  /** Over whole runs: p is at some time overdue with the lock free if and only if at some
      time a killed writer abandons bytes while p is asleep. */
  lemma LostExactly(run: seq<State>, acts: seq<Act>, p: nat)
    requires IsRun(run, acts)
    ensures (exists k :: 0 <= k < |run| && run[k].m.lk == Nobody && Overdue(run[k], p))
            <==> (exists j :: 0 <= j < |acts| && AbandonsAt(run, acts, j)
                              && p < |run[j].m.procs| && Sleeps(run[j], p, NREAD))
  {
    if k :| 0 <= k < |run| && run[k].m.lk == Nobody && Overdue(run[k], p) {
      RunInv(run, acts, k);
      var j := ForgottenSince(run, acts, k, p);
      assert Overdue(run[j], p);
    }
    if j :| 0 <= j < |acts| && AbandonsAt(run, acts, j) && p < |run[j].m.procs| && Sleeps(run[j], p, NREAD) {
      RunInv(run, acts, j);
      assert StepAt(run, acts, j);
      AbandonForgets(run[j], acts[j], p);
      assert run[j + 1].m.lk == Nobody;
    }
  }

  // ---------------------------------------------------------------- an abandoned byte

  lemma Extend(run: seq<State>, acts: seq<Act>, a: Act) returns (run': seq<State>, acts': seq<Act>)
    requires IsRun(run, acts) && CanDo(run[|acts|], a)
    ensures IsRun(run', acts') && run'[|acts'|] == After(run[|acts|], a)
  {
    run', acts' := run + [After(run[|acts|], a)], acts + [a];
    forall k | 0 <= k < |acts'|
      ensures StepAt(run', acts', k)
    {
      assert k < |acts| ==> StepAt(run, acts, k);
    }
  }

  const FRESH := Proc(Outside, RUNNABLE, NOCHAN, Nobody)
  const SLUMBER := Proc(Gone, SLEEPING, NREAD, Nobody)

  ghost predicate Scene(s: State, lk: Owner, reader: Proc, writer: Proc) {
    && s.m.lk == lk && s.m.procs == [reader, writer] && s.m.lost == {}
    && |s.d.ring| == PIPESIZE && s.d.nread == 0 && s.d.taken == [] && s.d.readopen && s.d.writeopen
  }

  lemma ReaderCalls() returns (run: seq<State>, acts: seq<Act>)
    ensures IsRun(run, acts) && Scene(run[|acts|], Nobody, Proc(Outside, RUNNING, NOCHAN, Nobody), FRESH)
    ensures var s := run[|acts|];
            && s.m.open == {NWRITE} && s.m.due == {} && s.code == [Read(1), Idle] && s.killed == [false, false]
            && s.d.nwrite == 0 && s.d.put == []
  {
    var d := Data(seq(PIPESIZE, _ => 0), 0, 0, true, true, [], []);
    run, acts := [State(Core(Nobody, [FRESH, FRESH], {NWRITE}, {}, {}), [Idle, Idle], [false, false], d)], [];
    run, acts := Extend(run, acts, Background(Elsewhere(0, RUNNING, NOCHAN, Nobody)));
    run, acts := Extend(run, acts, Call(0, Read(1)));
  }

  /** Process 0 reads from a fresh pipe ... */
  lemma ReaderEnters() returns (run: seq<State>, acts: seq<Act>)
    ensures IsRun(run, acts) && Scene(run[|acts|], Process(0), Proc(Sleep1(NREAD), RUNNING, NOCHAN, Nobody), FRESH)
    ensures var s := run[|acts|];
            && s.m.open == {NWRITE} && s.m.due == {} && s.code == [Read(1), Idle] && s.killed == [false, false]
            && s.d.nwrite == 0 && s.d.put == []
  {
    run, acts := ReaderCalls();
    run, acts := Extend(run, acts, Enter(0));
    run, acts := Extend(run, acts, ReadLoop(0));
  }

  /** ... and goes to sleep. */
  lemma ReaderSleeps() returns (run: seq<State>, acts: seq<Act>)
    ensures IsRun(run, acts) && Scene(run[|acts|], Nobody, SLUMBER, FRESH)
    ensures var s := run[|acts|];
            && s.m.open == {NWRITE} && s.m.due == {} && s.code == [Read(1), Idle] && s.killed == [false, false]
            && s.d.nwrite == 0 && s.d.put == []
  {
    run, acts := ReaderEnters();
    run, acts := Extend(run, acts, Background(Advance(0)));
    run, acts := Extend(run, acts, Background(Advance(0)));
    run, acts := Extend(run, acts, Background(Advance(0)));
    run, acts := Extend(run, acts, Background(Advance(0)));
    run, acts := Extend(run, acts, Background(Advance(0)));
    run, acts := Extend(run, acts, Background(SchedUnlock(0)));
    assert run[|acts|].m.procs == [SLUMBER, FRESH];
  }

  /** Process 1 stores the first of two bytes. */
  lemma WriterStores() returns (run: seq<State>, acts: seq<Act>)
    ensures IsRun(run, acts) && Scene(run[|acts|], Process(1), SLUMBER, Proc(Inside, RUNNING, NOCHAN, Nobody))
    ensures var s := run[|acts|]; s.code == [Read(1), Write(2, 1, 1)] && s.killed == [false, false] && s.d.put == [7]
  {
    hide Empty, Initial, IsRun;
    run, acts := ReaderSleeps();
    run, acts := Extend(run, acts, Background(Elsewhere(1, RUNNING, NOCHAN, Nobody)));
    run, acts := Extend(run, acts, Call(1, Write(2, 0, 0)));
    run, acts := Extend(run, acts, Enter(1));
    run, acts := Extend(run, acts, WriteLoop(1, 7, true));
    assert run[|acts|].m.procs == [SLUMBER, Proc(Inside, RUNNING, NOCHAN, Nobody)];
  }

  /** The condition of NoLostWakeup cannot be dropped: a writer that is killed after
      storing a byte leaves the reader asleep on a pipe that is not empty, with the pipe's
      lock free. */
  lemma KilledWriterLosesWakeup() returns (run: seq<State>, acts: seq<Act>)
    ensures IsRun(run, acts)
    ensures var s := run[|acts|];
            |s.m.procs| == 2 && s.m.lk == Nobody && Sleeps(s, 0, NREAD) && s.d.put == [7] && s.d.taken == []
  {
    run, acts := WriterStores();
    run, acts := Extend(run, acts, Background(KillLock(1)));
    run, acts := Extend(run, acts, Background(KillSet(1)));
    run, acts := Extend(run, acts, Background(KillUnlock(1)));
    run, acts := Extend(run, acts, WriteLoop(1, 0, true));
  }
}
