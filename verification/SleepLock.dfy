/** Sleep locks (kernel/sleeplock.c) over sleep and wakeup: any number of processes
    acquiring and releasing one lock, in every interleaving, with kills and preemption. */
module SleepLock {
  import opened Monitor

  const LK: Chan := 1       // the channel: the address of the sleep lock

  /** Which statement of acquiresleep or releasesleep a process is at. */
  datatype Code =
    | Idle
    | Acq        // in acquiresleep: entering, testing or sleeping
    | Taken      // has set locked; next: release lk
    | Holding    // has returned from acquiresleep
    | Rel        // in releasesleep, up to clearing locked
    | Cleared    // next: wakeup
    | Woken      // in wakeup, then release lk

  /** pid is 0 when nobody holds the lock; process p has pid p + 1. */
  datatype State = State(m: Core, code: seq<Code>, locked: bool, pid: nat)

  datatype Act =
    | CallAcquire(p: nat) | CallRelease(p: nat)
    | Enter(p: nat)          // acquire(&lk->lk)
    | Test(p: nat)           // while (lk->locked) sleep, else take it
    | Clear(p: nat)          // locked = 0, pid = 0
    | WakeAll(p: nat)        // wakeup(lk)
    | Leave(p: nat)          // release(&lk->lk)
    | Background(t: Step)    // a statement of sleep, wakeup, kill or the scheduler

  function Openings(locked: bool): set<Chan> {
    if locked then {} else {LK}
  }

  function Who(a: Act): nat {
    if a.Background? then a.t.p else a.p
  }

  predicate CanDo(s: State, a: Act) {
    && |s.code| == |s.m.procs| && Who(a) < |s.code|
    && var code, pc := s.code[Who(a)], s.m.procs[Who(a)].pc;
       match a
       case CallAcquire(_) => code == Idle
       case CallRelease(_) => code == Holding
       case Enter(p) => (code == Acq || code == Rel) && Enabled(s.m, Acquire(p), {LK})
       case Test(_) => code == Acq && pc == Inside
       case Clear(_) => code == Rel && pc == Inside
       case WakeAll(_) => code == Cleared && pc == Inside
       case Leave(_) => (code == Taken || code == Woken) && pc == Inside
       case Background(t) => IsBackground(t) && Enabled(s.m, t, {LK})
  }

  ghost predicate Does(s: State, a: Act, s': State) {
    && CanDo(s, a)
    && match a
       case CallAcquire(p) => s' == s.(code := s.code[p := Acq])
       case CallRelease(p) => s' == s.(code := s.code[p := Rel])
       case Enter(p) => s' == s.(m := Next(s.m, Acquire(p), {LK}))
       case Test(p) =>
         if s.locked then
           s' == s.(m := Next(s.m, Sleep(p, LK), {LK}))
         else
           s' == State(Next(s.m, Change(p, Openings(true)), {LK}), s.code[p := Taken], true, p + 1)
       case Clear(p) => s' == State(Next(s.m, Change(p, Openings(false)), {LK}), s.code[p := Cleared], false, 0)
       case WakeAll(p) => s' == State(Next(s.m, Wake(p, LK), {LK}), s.code[p := Woken], s.locked, s.pid)
       case Leave(p) =>
         s' == State(Next(s.m, Release(p), {LK}), s.code[p := if s.code[p] == Taken then Holding else Idle],
                     s.locked, s.pid)
       case Background(t) => s' == s.(m := Next(s.m, t, {LK}))
  }

  // ---------------------------------------------------------------- invariant

  predicate Owns(c: Code) {
    c == Taken || c == Holding || c == Rel
  }

  predicate Fits(c: Code, pc: Pc) {
    match c
    case Idle | Holding => pc == Outside
    case Acq => !Scanning(pc)
    case Taken | Cleared => pc == Inside
    case Rel => pc == Outside || pc == Inside
    case Woken => pc == Inside || Scanning(pc)
  }

  predicate ProcessOk(s: State, p: nat)
    requires p < |s.code| == |s.m.procs|
  {
    Fits(s.code[p], s.m.procs[p].pc) && (Owns(s.code[p]) <==> s.locked && s.pid == p + 1)
  }

  ghost predicate LockInv(s: State) {
    && |s.code| == |s.m.procs| && Monitor.Inv(s.m, {LK})
    && s.m.open == Openings(s.locked) && s.m.lost == {}
    && (s.m.due != {} ==> s.m.lk.Process? && s.m.lk.p < |s.code| && s.code[s.m.lk.p] == Cleared && s.m.due == {LK})
    && (s.locked ==> 0 < s.pid <= |s.code|)
    && forall p {:trigger ProcessOk(s, p)} :: 0 <= p < |s.code| ==> ProcessOk(s, p)
  }

  lemma ActKeeps(s: State, a: Act, s': State)
    requires LockInv(s) && Does(s, a, s')
    ensures LockInv(s')
  {
    var p := Who(a);
    assert ProcessOk(s, p) && ProcOk(s.m, p, {LK});
    CoreKept(s, a, s');
    if a.Background? {
      BackgroundPc(s.m, a.t, {LK}, p);
    }
    forall q | 0 <= q < |s'.code|
      ensures ProcessOk(s', q)
    {
      ProcessKept(s, a, s', q);
    }
  }

  lemma CoreKept(s: State, a: Act, s': State)
    requires LockInv(s) && Does(s, a, s')
    ensures Monitor.Inv(s'.m, {LK}) && |s'.m.procs| == |s.m.procs|
  {
    var p := Who(a);
    match a {
      case Background(t) => StepKeeps(s.m, t, {LK});
      case Enter(_) => StepKeeps(s.m, Acquire(p), {LK});
      case Test(_) => StepKeeps(s.m, if s.locked then Sleep(p, LK) else Change(p, Openings(true)), {LK});
      case Clear(_) => StepKeeps(s.m, Change(p, Openings(false)), {LK});
      case WakeAll(_) => StepKeeps(s.m, Wake(p, LK), {LK});
      case Leave(_) => StepKeeps(s.m, Release(p), {LK});
      case _ =>
    }
  }

  lemma ProcessKept(s: State, a: Act, s': State, q: nat)
    requires LockInv(s) && Does(s, a, s') && q < |s.code| && |s'.m.procs| == |s.m.procs|
    ensures ProcessOk(s', q)
  {
    hide Advanced, Enabled, Locked, Ahead;
    assert ProcessOk(s, q) && ProcessOk(s, Who(a));
    if a.Background? {
      BackgroundPc(s.m, a.t, {LK}, q);
    }
  }

  // ---------------------------------------------------------------- runs

  /** Nobody is using the lock, and nobody is asleep on it. */
  ghost predicate Initial(s: State) {
    && |s.code| == |s.m.procs| && s.m == Core(Nobody, s.m.procs, {LK}, {}, {}) && !s.locked && s.pid == 0
    && forall p :: 0 <= p < |s.code| ==> s.code[p] == Idle && s.m.procs[p] == Proc(Outside, RUNNABLE, NOCHAN, Nobody)
  }

  ghost predicate IsRun(run: seq<State>, acts: seq<Act>) {
    && |run| == |acts| + 1 && Initial(run[0])
    && forall k :: 0 <= k < |acts| ==> Does(run[k], acts[k], run[k + 1])
  }

  lemma {:induction false} RunInv(run: seq<State>, acts: seq<Act>, k: nat)
    requires IsRun(run, acts) && k < |run|
    ensures LockInv(run[k])
  {
    if k == 0 {
      forall p | 0 <= p < |run[0].code|
        ensures ProcessOk(run[0], p) && ProcOk(run[0].m, p, {LK})
      {
      }
    } else {
      RunInv(run, acts, k - 1);
      ActKeeps(run[k - 1], acts[k - 1], run[k]);
    }
  }

  predicate Asleep(s: State, p: nat)
    requires p < |s.m.procs|
  {
    s.m.procs[p].state == SLEEPING && s.m.procs[p].chan == LK
  }

  /** Whenever the inner spinlock is free, nobody is asleep on, or past the point of no
      return towards sleeping on, an unlocked sleep lock. */
  lemma NoLostWakeup(run: seq<State>, acts: seq<Act>, k: nat, p: nat)
    requires IsRun(run, acts) && k < |run| && p < |run[k].m.procs| && run[k].m.lk == Nobody
    ensures Asleep(run[k], p) || Committed(run[k].m.procs[p], LK) ==> run[k].locked
  {
    RunInv(run, acts, k);
    assert ProcOk(run[k].m, p, {LK}) && SleeperOk(run[k].m, p, LK);
  }

  /** A process has returned from acquiresleep and not called releasesleep. */
  predicate InSection(s: State, p: nat)
    requires p < |s.code|
  {
    s.code[p] == Holding
  }

  /** Two processes never hold the lock, and holdingsleep tells the holder from all others. */
  lemma MutualExclusion(run: seq<State>, acts: seq<Act>, k: nat, p: nat, q: nat)
    requires IsRun(run, acts) && k < |run| && p < |run[k].code| && q < |run[k].code|
    ensures InSection(run[k], p) && InSection(run[k], q) ==> p == q
    ensures InSection(run[k], p) ==> (run[k].locked && run[k].pid == q + 1 <==> q == p)
  {
    RunInv(run, acts, k);
    assert ProcessOk(run[k], p) && ProcessOk(run[k], q);
  }
}
