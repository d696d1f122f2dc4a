/** sleep and wakeup of kernel/proc.c, one lock operation or store at a time.

    One spinlock `lk` guards some object.  Processes enter its critical section, sleep on
    channels of the object and wake the sleepers of a channel; the scheduler and kill
    reach into any process under that process's own lock.  Every interleaving of these
    steps is a run.

    `open` is the set of channels whose condition holds, so that nobody should be asleep
    on them.  `due` collects the channels opened by the current holder of lk and not woken
    since; a channel that is still due when lk is given up is `lost` until the next wakeup
    on it.
 */
module Monitor {

  type Chan = nat
  const NOCHAN: Chan := 0

  datatype RunState = RUNNABLE | RUNNING | SLEEPING

  datatype Owner = Nobody | Process(p: nat) | Scheduler | Killer

  /** Where a process is: Outside and Inside the critical section, at the numbered points
      of sleep(), or at a slot of wakeup()'s scan. */
  datatype Pc =
    | Outside
    | Inside
    | Sleep1(c: Chan)       // holds lk; next: acquire p->lock
    | Sleep2(c: Chan)       // holds both; next: release lk
    | Sleep3(c: Chan)       // next: p->chan = chan
    | Sleep4(c: Chan)       // next: p->state = SLEEPING
    | Sleep5(c: Chan)       // next: sched
    | Gone                  // off the CPU
    | Sleep6                // back, with p->lock; next: p->chan = 0
    | Sleep7                // next: release p->lock
    | Sleep8                // next: acquire lk
    | Waking(c: Chan, i: nat)   // next: acquire the lock of slot i
    | Poking(c: Chan, i: nat)   // next: test and set the state of slot i
    | Poked(c: Chan, i: nat)    // next: release the lock of slot i

  datatype Proc = Proc(pc: Pc, state: RunState, chan: Chan, lock: Owner)

  datatype Core = Core(lk: Owner, procs: seq<Proc>, open: set<Chan>, due: set<Chan>, lost: set<Chan>)

  datatype Step =
    | Acquire(p: nat)
    | Release(p: nat)
    | Change(p: nat, nowOpen: set<Chan>)
    | Sleep(p: nat, c: Chan)
    | Wake(p: nat, c: Chan)
    | Advance(p: nat)                       // the next statement of sleep()
    | Scan(p: nat)                          // the next statement of wakeup()
    | SchedLock(p: nat) | SchedRun(p: nat) | SchedUnlock(p: nat)
    | KillLock(p: nat) | KillSet(p: nat) | KillUnlock(p: nat)
    | Elsewhere(p: nat, state: RunState, chan: Chan, lock: Owner)

  // ---------------------------------------------------------------- steps

  function WithProc(s: Core, p: nat, x: Proc): (r: Core)
    requires p < |s.procs|
  {
    s.(procs := s.procs[p := x])
  }

  function At(s: Core, p: nat, pc: Pc): (r: Core)
    requires p < |s.procs|
  {
    WithProc(s, p, s.procs[p].(pc := pc))
  }

  function Locked(s: Core, p: nat, o: Owner): (r: Core)
    requires p < |s.procs|
  {
    WithProc(s, p, s.procs[p].(lock := o))
  }

  /** Whether p, whose next statement this is, can go on. */
  predicate CanAdvance(s: Core, p: nat)
    requires p < |s.procs|
  {
    match s.procs[p].pc
    case Sleep1(_) => s.procs[p].lock == Nobody
    case Sleep8 => s.lk == Nobody && s.procs[p].state == RUNNING && s.procs[p].lock != Process(p)
    case Sleep2(_) | Sleep3(_) | Sleep4(_) | Sleep5(_) | Sleep6 | Sleep7 => true
    case _ => false
  }

  function Advanced(s: Core, p: nat): (r: Core)
    requires p < |s.procs| && CanAdvance(s, p)
  {
    var x := s.procs[p];
    match x.pc
    case Sleep1(c) => WithProc(s, p, x.(pc := Sleep2(c), lock := Process(p)))
    case Sleep2(c) => At(s, p, Sleep3(c)).(lk := Nobody)
    case Sleep3(c) => WithProc(s, p, x.(pc := Sleep4(c), chan := c))
    case Sleep4(c) => WithProc(s, p, x.(pc := Sleep5(c), state := SLEEPING))
    case Sleep5(c) => WithProc(s, p, x.(pc := Gone, lock := Scheduler))
    case Sleep6 => WithProc(s, p, x.(pc := Sleep7, chan := NOCHAN))
    case Sleep7 => WithProc(s, p, x.(pc := Sleep8, lock := Nobody))
    case _ => At(s, p, Inside).(lk := Process(p))
  }

  predicate CanScan(s: Core, p: nat)
    requires p < |s.procs|
  {
    match s.procs[p].pc
    case Waking(c, i) => i >= |s.procs| || i == p || s.procs[i].lock == Nobody
    case Poking(c, i) => i < |s.procs| && i != p
    case Poked(c, i) => i < |s.procs| && i != p
    case _ => false
  }

  function Scanned(s: Core, p: nat): (r: Core)
    requires p < |s.procs| && CanScan(s, p)
  {
    var pc := s.procs[p].pc;
    if pc.Waking? then
      if pc.i >= |s.procs| then At(s, p, Inside)
      else if pc.i == p then At(s, p, Waking(pc.c, pc.i + 1))
      else At(Locked(s, pc.i, Process(p)), p, Poking(pc.c, pc.i))
    else if pc.Poking? then
      var x := s.procs[pc.i];
      At(if x.state == SLEEPING && x.chan == pc.c then WithProc(s, pc.i, x.(state := RUNNABLE)) else s,
         p, Poked(pc.c, pc.i))
    else
      At(Locked(s, pc.i, Nobody), p, Waking(pc.c, pc.i + 1))
  }

  /** What may happen to p's slot while p runs other code, is preempted or waits for lk:
      anything but falling asleep on a channel of the object. */
  predicate Unrelated(s: Core, p: nat, state: RunState, chan: Chan, lock: Owner, chans: set<Chan>)
    requires p < |s.procs|
  {
    && (s.procs[p].pc == Outside || s.procs[p].pc == Sleep8)
       && (state == SLEEPING ==> s.procs[p].pc == Outside && chan !in chans)
    && (s.procs[p].lock.Process? ==> s.procs[p].lock.p == p) && (lock.Process? ==> lock.p == p)
  }

  /** When a step may be taken.  chans are the object's channels. */
  predicate Enabled(s: Core, t: Step, chans: set<Chan>) {
    && t.p < |s.procs|
    && var x := s.procs[t.p];
       match t
       case Acquire(p) => x.pc == Outside && x.state == RUNNING && x.lock != Process(p) && s.lk == Nobody
       case Release(p) => x.pc == Inside
       case Change(p, _) => x.pc == Inside
       case Sleep(p, c) => x.pc == Inside && c in chans
       case Wake(p, c) => x.pc == Inside && c in chans
       case Advance(p) => CanAdvance(s, p)
       case Scan(p) => CanScan(s, p)
       case SchedLock(p) => x.lock == Nobody
       case SchedRun(p) => x.lock == Scheduler && x.pc == Gone && x.state == RUNNABLE
       case SchedUnlock(p) => x.lock == Scheduler
       case KillLock(p) => x.lock == Nobody
       case KillSet(p) => x.lock == Killer
       case KillUnlock(p) => x.lock == Killer
       case Elsewhere(p, state, chan, lock) => Unrelated(s, p, state, chan, lock, chans)
  }

  function Next(s: Core, t: Step, chans: set<Chan>): (r: Core)
    requires Enabled(s, t, chans)
  {
    var x := s.procs[t.p];
    match t
    case Acquire(p) => At(s, p, Inside).(lk := Process(p))
    case Release(p) => At(s, p, Outside).(lk := Nobody, lost := s.lost + s.due, due := {})
    case Change(p, now) => s.(open := now, due := s.due + (now - s.open))
    case Sleep(p, c) => At(s, p, Sleep1(c)).(lost := s.lost + s.due, due := {})
    case Wake(p, c) => At(s, p, Waking(c, 0)).(lost := s.lost - {c}, due := s.due - {c})
    case Advance(p) => Advanced(s, p)
    case Scan(p) => Scanned(s, p)
    case SchedLock(p) => Locked(s, p, Scheduler)
    case SchedRun(p) => WithProc(s, p, x.(pc := Sleep6, state := RUNNING, lock := Process(p)))
    case SchedUnlock(p) => Locked(s, p, Nobody)
    case KillLock(p) => Locked(s, p, Killer)
    case KillSet(p) => WithProc(s, p, x.(state := if x.state == SLEEPING then RUNNABLE else x.state))
    case KillUnlock(p) => Locked(s, p, Nobody)
    case Elsewhere(p, state, chan, lock) => WithProc(s, p, x.(state := state, chan := chan, lock := lock))
  }

  // ---------------------------------------------------------------- invariant

  predicate Holds(pc: Pc) {
    pc.Inside? || pc.Sleep1? || pc.Sleep2? || Scanning(pc)
  }

  predicate Scanning(pc: Pc) {
    pc.Waking? || pc.Poking? || pc.Poked?
  }

  predicate OwnsItself(pc: Pc) {
    pc.Sleep2? || pc.Sleep3? || pc.Sleep4? || pc.Sleep5? || pc.Sleep6? || pc.Sleep7?
  }

  /** A process's fields agree with where it is. */
  predicate ProcOk(s: Core, p: nat, chans: set<Chan>)
    requires p < |s.procs|
  {
    var x := s.procs[p];
    && (Holds(x.pc) <==> s.lk == Process(p))
    && (OwnsItself(x.pc) ==> x.lock == Process(p))
    && (x.lock == Process(p) ==> OwnsItself(x.pc) || x.pc == Outside || x.pc == Sleep8)
    && (x.lock.Process? && x.lock.p != p ==> x.lock.p < |s.procs| && Pokes(s.procs[x.lock.p].pc, p))
    && (x.pc.Poking? || x.pc.Poked? ==> x.pc.i < |s.procs| && x.pc.i != p && s.procs[x.pc.i].lock == Process(p))
    && (x.state == SLEEPING ==> x.pc.Sleep5? || x.pc == Gone || (x.pc == Outside && x.chan !in chans))
    && (x.pc.Sleep4? || x.pc.Sleep5? ==> x.chan == x.pc.c)
    && (x.pc.Sleep5? ==> x.state == SLEEPING)
    && (x.pc.Waking? ==> x.pc.i <= |s.procs|)
  }

  predicate Pokes(pc: Pc, i: nat) {
    (pc.Poking? || pc.Poked?) && pc.i == i
  }

  /** p has decided to sleep on c and has not been woken since. */
  predicate Committed(x: Proc, c: Chan) {
    || ((x.pc.Sleep1? || x.pc.Sleep2? || x.pc.Sleep3? || x.pc.Sleep4? || x.pc.Sleep5?) && x.pc.c == c)
    || (x.pc == Gone && x.state == SLEEPING && x.chan == c)
  }

  /** The holder of lk is waking c and has not dealt with slot p yet. */
  predicate Ahead(s: Core, c: Chan, p: nat) {
    && s.lk.Process? && s.lk.p < |s.procs|
    && var pc := s.procs[s.lk.p].pc;
       Scanning(pc) && pc.c == c && (if pc.Poked? then pc.i < p else pc.i <= p)
  }

  predicate SleeperOk(s: Core, p: nat, c: Chan)
    requires p < |s.procs|
  {
    Committed(s.procs[p], c) ==> c !in s.open || c in s.due || c in s.lost || Ahead(s, c, p)
  }

  ghost predicate Inv(s: Core, chans: set<Chan>) {
    && (s.lk.Process? ==> s.lk.p < |s.procs|) && (s.lk.Nobody? || s.lk.Process?)
    && (s.due != {} ==> s.lk.Process? && !s.procs[s.lk.p].pc.Sleep1? && !s.procs[s.lk.p].pc.Sleep2?)
    && (forall p {:trigger ProcOk(s, p, chans)} :: 0 <= p < |s.procs| ==> ProcOk(s, p, chans))
    && (forall p, c {:trigger SleeperOk(s, p, c)} :: 0 <= p < |s.procs| ==> SleeperOk(s, p, c))
  }

  // ---------------------------------------------------------------- every step keeps it

  /** ... given that sleep is called only while the condition waited for does not hold. */
  lemma StepKeeps(s: Core, t: Step, chans: set<Chan>)
    requires Inv(s, chans) && Enabled(s, t, chans) && (t.Sleep? ==> t.c !in s.open)
    ensures Inv(Next(s, t, chans), chans)
  {
    hide Committed, Ahead;
    var s' := Next(s, t, chans);
    forall p | 0 <= p < |s'.procs|
      ensures ProcOk(s', p, chans)
    {
      ProcKept(s, t, chans, p);
    }
    forall p, c | 0 <= p < |s'.procs|
      ensures SleeperOk(s', p, c)
    {
      SleeperKept(s, t, chans, p, c);
    }
    assert ProcOk(s, t.p, chans);
  }

  lemma ProcKept(s: Core, t: Step, chans: set<Chan>, p: nat)
    requires Inv(s, chans) && Enabled(s, t, chans) && p < |s.procs|
    ensures |Next(s, t, chans).procs| == |s.procs| && ProcOk(Next(s, t, chans), p, chans)
  {
    assert ProcOk(s, p, chans) && ProcOk(s, t.p, chans);
    if t.Scan? {
      ScanKeeps(s, t.p, chans, p);
    } else if t.Advance? {
      AdvanceKeeps(s, t.p, chans, p);
    } else {
      OthersKeep(s, t, chans, p);
    }
  }

  lemma ScanKeeps(s: Core, q: nat, chans: set<Chan>, p: nat)
    requires Inv(s, chans) && p < |s.procs| && q < |s.procs| && CanScan(s, q)
    ensures |Scanned(s, q).procs| == |s.procs| && ProcOk(Scanned(s, q), p, chans)
  {
    hide SleeperOk, Committed, Ahead;
    assert ProcOk(s, p, chans) && ProcOk(s, q, chans);
    if s.procs[p].lock.Process? && s.procs[p].lock.p < |s.procs| {
      assert ProcOk(s, s.procs[p].lock.p, chans);
    }
  }

  lemma AdvanceKeeps(s: Core, q: nat, chans: set<Chan>, p: nat)
    requires Inv(s, chans) && p < |s.procs| && q < |s.procs| && CanAdvance(s, q)
    ensures |Advanced(s, q).procs| == |s.procs| && ProcOk(Advanced(s, q), p, chans)
  {
    hide SleeperOk, Committed, Ahead;
    assert ProcOk(s, p, chans) && ProcOk(s, q, chans);
  }

  lemma OthersKeep(s: Core, t: Step, chans: set<Chan>, p: nat)
    requires Inv(s, chans) && Enabled(s, t, chans) && p < |s.procs| && !t.Scan? && !t.Advance?
    ensures |Next(s, t, chans).procs| == |s.procs| && ProcOk(Next(s, t, chans), p, chans)
  {
    hide SleeperOk, Committed, Ahead, Advanced, CanAdvance, Scanned, CanScan;
    assert ProcOk(s, p, chans) && ProcOk(s, t.p, chans);
  }

  lemma SleeperKept(s: Core, t: Step, chans: set<Chan>, p: nat, c: Chan)
    requires Inv(s, chans) && Enabled(s, t, chans) && p < |s.procs| && (t.Sleep? ==> t.c !in s.open)
    ensures SleeperOk(Next(s, t, chans), p, c)
  {
    if t.Scan? {
      SleeperInScan(s, t, chans, p, c);
    } else {
      SleeperElsewhere(s, t, chans, p, c);
    }
  }

  /** The scan passes a process only once it is awake or asleep elsewhere: the process's
      own lock keeps it out of the window between deciding to sleep and sleeping. */
  lemma SleeperInScan(s: Core, t: Step, chans: set<Chan>, p: nat, c: Chan)
    requires Inv(s, chans) && Enabled(s, t, chans) && p < |s.procs| && t.Scan?
    ensures SleeperOk(Next(s, t, chans), p, c)
  {
    assert ProcOk(s, p, chans) && ProcOk(s, t.p, chans) && SleeperOk(s, p, c);
    if s.lk.Process? {
      assert ProcOk(s, s.lk.p, chans);
    }
  }

  lemma SleeperElsewhere(s: Core, t: Step, chans: set<Chan>, p: nat, c: Chan)
    requires Inv(s, chans) && Enabled(s, t, chans) && p < |s.procs| && !t.Scan? && (t.Sleep? ==> t.c !in s.open)
    ensures SleeperOk(Next(s, t, chans), p, c)
  {
    hide Pokes, Scanned, CanScan;
    assert ProcOk(s, p, chans) && ProcOk(s, t.p, chans) && SleeperOk(s, p, c);
    if s.lk.Process? {
      assert ProcOk(s, s.lk.p, chans);
    }
  }

  // ---------------------------------------------------------------- for clients

  /** The holder of lk still has the sleepers of c to wake, p among them. */
  predicate Minded(s: Core, p: nat, c: Chan) {
    c in s.due || Ahead(s, c, p)
  }

  /** How p can come to be asleep on c although c is open: somebody is about to wake it, or
      it was so before and forgotten, or lk has just been given up with the wakeup due. */
  predicate Fate(s: Core, s': Core, t: Step, p: nat, c: Chan)
    requires p < |s.procs|
  {
    || Minded(s', p, c)
    || (Committed(s.procs[p], c) && c in s.open && (Minded(s, p, c) ==> (t.Release? || t.Sleep?) && c in s.due))
  }

  lemma SleeperFate(s: Core, t: Step, chans: set<Chan>, p: nat, c: Chan)
    requires Inv(s, chans) && Enabled(s, t, chans) && p < |s.procs| && (t.Sleep? ==> t.c !in s.open)
    requires Committed(Next(s, t, chans).procs[p], c) && c in Next(s, t, chans).open
    ensures Fate(s, Next(s, t, chans), t, p, c)
  {
    hide SleeperOk;
    assert ProcOk(s, p, chans) && ProcOk(s, t.p, chans);
    if s.lk.Process? {
      assert ProcOk(s, s.lk.p, chans);
    }
    if t.Scan? {
      FateInScan(s, t, chans, p, c);
    } else if t.Advance? {
      FateInSleep(s, t, chans, p, c);
    }
  }

  lemma FateInScan(s: Core, t: Step, chans: set<Chan>, p: nat, c: Chan)
    requires Inv(s, chans) && Enabled(s, t, chans) && p < |s.procs| && t.Scan?
    requires Committed(Next(s, t, chans).procs[p], c) && c in Next(s, t, chans).open
    ensures Fate(s, Next(s, t, chans), t, p, c)
  {
    hide SleeperOk;
    assert ProcOk(s, p, chans) && ProcOk(s, t.p, chans);
    if s.lk.Process? {
      assert ProcOk(s, s.lk.p, chans);
    }
  }

  lemma FateInSleep(s: Core, t: Step, chans: set<Chan>, p: nat, c: Chan)
    requires Inv(s, chans) && Enabled(s, t, chans) && p < |s.procs| && t.Advance?
    requires Committed(Next(s, t, chans).procs[p], c) && c in Next(s, t, chans).open
    ensures Fate(s, Next(s, t, chans), t, p, c)
  {
    hide SleeperOk;
    assert ProcOk(s, p, chans) && ProcOk(s, t.p, chans);
    if s.lk.Process? {
      assert ProcOk(s, s.lk.p, chans);
    }
  }

  /** Statements of sleep, wakeup, kill, the scheduler or unrelated code. */
  predicate IsBackground(t: Step) {
    !(t.Acquire? || t.Release? || t.Change? || t.Sleep? || t.Wake?)
  }

  predicate InSleep(pc: Pc) {
    pc.Sleep1? || pc.Sleep2? || pc.Sleep3? || pc.Sleep4? || pc.Sleep5?
    || pc.Gone? || pc.Sleep6? || pc.Sleep7? || pc.Sleep8?
  }

  /** A background step moves at most one process, and only within sleep or wakeup. */
  lemma BackgroundPc(s: Core, t: Step, chans: set<Chan>, q: nat)
    requires Enabled(s, t, chans) && IsBackground(t) && q < |s.procs|
    ensures var s' := Next(s, t, chans);
            && s'.open == s.open && s'.due == s.due && s'.lost == s.lost && |s'.procs| == |s.procs|
            && (s'.lk == s.lk || (s'.lk == Nobody && s.procs[t.p].pc.Sleep2?) || s.lk == Nobody)
            && var pc, pc' := s.procs[q].pc, s'.procs[q].pc;
               (Holds(pc') ==> Holds(pc) || s.lk == Nobody) &&
               if q != t.p || pc.Outside? || pc.Inside? then pc' == pc
               else if Scanning(pc) then pc' == Inside || Scanning(pc')
               else InSleep(pc) && (pc' == Inside || InSleep(pc'))
  {
  }
}
