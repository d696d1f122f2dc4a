/** fork, exit and wait of kernel/proc.c, as steps between lock operations.

    Any number of processes fork, exit and wait at the same time, in every interleaving.
    wait_lock guards the parent pointers.  sleep() and wakeup() are taken apart: a process
    that goes to sleep in wait() holds its own lock from before it gives up wait_lock until
    it is SLEEPING, and a wakeup visits the slots one by one, under each slot's lock.
    Slot INIT is the init process.
 */
module Processes {
  import opened Sequences

  const INIT: nat := 0

  datatype ProcState = UNUSED | USED | RUNNABLE | RUNNING | SLEEPING | ZOMBIE

  datatype Parent = None | Some(p: nat)

  /** What a process is executing. */
  datatype Pc =
    | User                          // anything but fork, exit and wait
    | Fork1(np: nat)                // has allocated np; next: acquire wait_lock
    | Fork2(np: nat)                // next: np->parent = p
    | Fork3(np: nat)                // next: release wait_lock
    | Fork4(np: nat)                // next: np->state = RUNNABLE
    | Exit1                         // next: acquire wait_lock
    | Exit2(i: nat)                 // in reparent, at slot i
    | ExitInit(i: nat, j: nat)      // slot i is init's now; in wakeup(initproc), at slot j
    | Exit3(j: nat)                 // in wakeup(p->parent), at slot j
    | Exit4                         // next: p->state = ZOMBIE
    | Exit5                         // next: release wait_lock
    | Gone                          // nothing more
    | Born(maker: nat)              // a slot that fork is still filling
    | Wait1                         // next: acquire wait_lock
    | Wait2(i: nat, havekids: bool) // scanning the table, at slot i
    | Wait3                         // next: release wait_lock and return
    | Sleep1                        // in sleep(p, &wait_lock); next: acquire p->lock
    | Sleep2                        // next: release wait_lock
    | Sleep3                        // next: p->state = SLEEPING
    | Asleep                        // off the CPU, or back and about to acquire wait_lock

  datatype Slot = Slot(state: ProcState, parent: Parent, pid: nat, pc: Pc)

  /** reaped lists the pids that wait has returned; exited those that became zombies. */
  datatype Table = Table(slots: seq<Slot>, lock: Parent, nextpid: nat, exited: seq<nat>, reaped: seq<nat>)

  datatype Step =
    | Schedule(p: nat, state: ProcState)
    | Alloc(p: nat, np: nat)             // fork: allocproc
    | AllocFails(p: nat)                 // ... and then memory runs out
    | ForkLock(p: nat) | ForkParent(p: nat) | ForkUnlock(p: nat) | ForkRun(p: nat)
    | ExitCall(p: nat) | ExitLock(p: nat) | Reparent(p: nat) | ReparentWake(p: nat)
    | ExitWake(p: nat) | Zombify(p: nat) | ExitUnlock(p: nat)
    | WaitCall(p: nat) | WaitLock(p: nat) | WaitScan(p: nat, copied: bool, killed: bool)
    | WaitUnlock(p: nat) | WaitSleep(p: nat)

  predicate Alive(s: ProcState) {
    s == RUNNABLE || s == RUNNING || s == SLEEPING
  }

  /** The statements executed while holding wait_lock. */
  predicate Holding(pc: Pc) {
    || pc.Fork2? || pc.Fork3? || pc.Exit2? || pc.ExitInit? || pc.Exit3? || pc.Exit4? || pc.Exit5?
    || pc.Wait2? || pc.Wait3? || pc.Sleep1? || pc.Sleep2?
  }

  /** ... and those while holding the process's own lock in sleep. */
  predicate OwnLock(pc: Pc) {
    pc.Sleep2? || pc.Sleep3?
  }

  /** p can look at slot j under that slot's lock. */
  predicate CanVisit(t: Table, p: nat, j: nat) {
    j >= |t.slots| || j == p || !OwnLock(t.slots[j].pc)
  }

  // ---------------------------------------------------------------- steps

  predicate Enabled(t: Table, a: Step) {
    && a.p < |t.slots| && |t.slots| > INIT
    && var x := t.slots[a.p];
       match a
       case Schedule(_, s) => Alive(x.state) && Alive(s) && (s == SLEEPING ==> x.pc == User) && !OwnLock(x.pc)
       case Alloc(_, np) => x.pc == User && x.state == RUNNING && np < |t.slots| && t.slots[np].state == UNUSED
       case AllocFails(_) => x.pc.Fork1? && x.pc.np < |t.slots|
       case ForkLock(_) => x.pc.Fork1? && t.lock == None
       case ForkParent(_) => x.pc.Fork2? && x.pc.np < |t.slots|
       case ForkUnlock(_) => x.pc.Fork3?
       case ForkRun(_) => x.pc.Fork4? && x.pc.np < |t.slots|
       case ExitCall(p) => x.pc == User && x.state == RUNNING && p != INIT
       case ExitLock(_) => x.pc == Exit1 && t.lock == None
       case Reparent(_) => x.pc.Exit2?
       case ReparentWake(p) => x.pc.ExitInit? && CanVisit(t, p, x.pc.j)
       case ExitWake(p) => x.pc.Exit3? && CanVisit(t, p, x.pc.j)
       case Zombify(_) => x.pc == Exit4
       case ExitUnlock(_) => x.pc == Exit5
       case WaitCall(_) => x.pc == User && x.state == RUNNING
       case WaitLock(_) => (x.pc == Wait1 || x.pc == Asleep) && x.state == RUNNING && t.lock == None
       case WaitScan(p, _, _) => x.pc.Wait2?
                                 && (x.pc.i < |t.slots| && t.slots[x.pc.i].parent == Some(p) ==> CanVisit(t, p, x.pc.i))
       case WaitUnlock(_) => x.pc == Wait3
       case WaitSleep(_) => x.pc == Sleep1 || x.pc == Sleep2 || x.pc == Sleep3
  }

  function Put(t: Table, i: nat, x: Slot): (r: Table)
    requires i < |t.slots|
  {
    t.(slots := t.slots[i := x])
  }

  function Goto(t: Table, p: nat, pc: Pc): (r: Table)
    requires p < |t.slots|
  {
    Put(t, p, t.slots[p].(pc := pc))
  }

  function FreeSlot(): Slot {
    Slot(UNUSED, None, 0, Gone)
  }

  /** wakeup(q) at slot j: q runs again if it sleeps in wait. */
  function Woken(t: Table, q: nat, j: nat): (r: Table) {
    if j == q < |t.slots| && t.slots[q].pc == Asleep
       && t.slots[q].state == SLEEPING then Put(t, q, t.slots[q].(state := RUNNABLE)) else t
  }

  /** One round of reparent's loop. */
  function Reparented(t: Table, p: nat, i: nat): (r: Table)
    requires p < |t.slots|
  {
    if i >= |t.slots| then Goto(t, p, Exit3(0))
    else if t.slots[i].parent == Some(p) then Goto(Put(t, i, t.slots[i].(parent := Some(INIT))), p, ExitInit(i, 0))
    else Goto(t, p, Exit2(i + 1))
  }

  /** One round of the wakeup in it. */
  function InitWoken(t: Table, p: nat, i: nat, j: nat): (r: Table)
    requires p < |t.slots|
  {
    if j >= |t.slots| then Goto(t, p, Exit2(i + 1)) else Goto(Woken(t, INIT, j), p, ExitInit(i, j + 1))
  }

  /** One round of the wakeup in exit. */
  function ParentWoken(t: Table, p: nat, j: nat): (r: Table)
    requires p < |t.slots|
  {
    if j >= |t.slots| then Goto(t, p, Exit4)
    else Goto(if t.slots[p].parent.Some? then Woken(t, t.slots[p].parent.p, j) else t, p, Exit3(j + 1))
  }

  /** The next statement of sleep. */
  function Slept(t: Table, p: nat): (r: Table)
    requires p < |t.slots|
  {
    match t.slots[p].pc
    case Sleep1 => Goto(t, p, Sleep2)
    case Sleep2 => Goto(t, p, Sleep3).(lock := None)
    case _ => Put(t, p, t.slots[p].(pc := Asleep, state := SLEEPING))
  }

  /** One round of wait's loop, or its end. */
  function Scanned(t: Table, p: nat, i: nat, havekids: bool, copied: bool, killed: bool): (r: Table)
    requires p < |t.slots|
  {
    if i >= |t.slots| then
      Goto(t, p, if !havekids || killed then Wait3 else Sleep1)
    else if t.slots[i].parent != Some(p) then Goto(t, p, Wait2(i + 1, havekids))
    else if t.slots[i].state != ZOMBIE then Goto(t, p, Wait2(i + 1, true))
    else if !copied then Goto(t, p, Wait3)
    else Goto(Put(t, i, FreeSlot()), p, Wait3).(reaped := t.reaped + [t.slots[i].pid])
  }

  function Next(t: Table, a: Step): (r: Table)
    requires Enabled(t, a)
  {
    var x := t.slots[a.p];
    match a
    case Schedule(p, s) => Put(t, p, x.(state := s))
    case Alloc(p, np) => Goto(Put(t, np, Slot(USED, None, t.nextpid, Born(p))), p, Fork1(np)).(nextpid := t.nextpid + 1)
    case AllocFails(p) => Goto(Put(t, x.pc.np, FreeSlot()), p, User)
    case ForkLock(p) => Goto(t, p, Fork2(x.pc.np)).(lock := Some(p))
    case ForkParent(p) => Goto(Put(t, x.pc.np, t.slots[x.pc.np].(parent := Some(p))), p, Fork3(x.pc.np))
    case ForkUnlock(p) => Goto(t, p, Fork4(x.pc.np)).(lock := None)
    case ForkRun(p) => Goto(Put(t, x.pc.np, t.slots[x.pc.np].(state := RUNNABLE, pc := User)), p, User)
    case ExitCall(p) => Goto(t, p, Exit1)
    case ExitLock(p) => Goto(t, p, Exit2(0)).(lock := Some(p))
    case Reparent(p) => Reparented(t, p, x.pc.i)
    case ReparentWake(p) => InitWoken(t, p, x.pc.i, x.pc.j)
    case ExitWake(p) => ParentWoken(t, p, x.pc.j)
    case Zombify(p) => Put(t, p, x.(state := ZOMBIE, pc := Exit5)).(exited := t.exited + [x.pid])
    case ExitUnlock(p) => Goto(t, p, Gone).(lock := None)
    case WaitCall(p) => Goto(t, p, Wait1)
    case WaitLock(p) => Goto(t, p, Wait2(0, false)).(lock := Some(p))
    case WaitScan(p, copied, killed) => Scanned(t, p, x.pc.i, x.pc.havekids, copied, killed)
    case WaitUnlock(p) => Goto(t, p, User).(lock := None)
    case WaitSleep(p) => Slept(t, p)
  }

  // ---------------------------------------------------------------- invariant

  predicate Forking(pc: Pc) {
    pc.Fork1? || pc.Fork2? || pc.Fork3? || pc.Fork4?
  }

  predicate Exiting(pc: Pc) {
    pc.Exit1? || pc.Exit2? || pc.ExitInit? || pc.Exit3? || pc.Exit4? || pc.Exit5?
  }

  /** p has given up any child at slot i. */
  predicate Childless(pc: Pc, i: nat) {
    pc.Exit3? || pc.Exit4? || pc.Exit5? || (pc.Exit2? && i < pc.i) || (pc.ExitInit? && i <= pc.i)
  }

  /** p has looked at slot i in this scan of the table. */
  predicate Passed(pc: Pc, i: nat) {
    pc.Wait2? && i < pc.i
  }

  /** Asleep in wait, or past the scan and on the way there. */
  predicate SleepsInWait(x: Slot) {
    x.pc == Sleep1 || x.pc == Sleep2 || x.pc == Sleep3 || (x.pc == Asleep && x.state == SLEEPING)
  }

  /** An exiting process has given init a child and not got to init's slot yet. */
  predicate AboutToWake(t: Table, q: nat) {
    && q == INIT && t.lock.Some? && t.lock.p < |t.slots|
    && t.slots[t.lock.p].pc.ExitInit? && t.slots[t.lock.p].pc.j <= INIT
  }

  /** A running process, a zombie, a slot being filled, or a free one. */
  predicate StateOk(t: Table, i: nat)
    requires i < |t.slots|
  {
    var x := t.slots[i];
    && (Alive(x.state) <==> x.pc != Gone && x.pc != Exit5 && !x.pc.Born?)
    && (x.state == ZOMBIE ==> x.pc == Gone || x.pc == Exit5)
    && (x.state == USED <==> x.pc.Born?)
    && (x.state == UNUSED ==> x.pc == Gone && x.parent == None)
    && (Holding(x.pc) <==> t.lock == Some(i))
    && (i == INIT ==> Alive(x.state) && !Exiting(x.pc))
  }

  /** It has a living parent that has not given it up; a parent that sleeps in wait, or
      has scanned past it, has not missed a zombie. */
  predicate FamilyOk(t: Table, i: nat)
    requires i < |t.slots|
  {
    var x := t.slots[i];
    && (i != INIT && (Alive(x.state) || x.state == ZOMBIE) ==> x.parent.Some?)
    && (x.parent.Some? ==>
          && x.parent.p < |t.slots|
          && var y := t.slots[x.parent.p];
             && Alive(y.state) && !Childless(y.pc, i)
             && (x.state == ZOMBIE ==> (!SleepsInWait(y) || AboutToWake(t, x.parent.p)) && !Passed(y.pc, i))
             && (x.pc == Exit4 || (x.pc.Exit3? && x.parent.p < x.pc.j) ==> !SleepsInWait(y)))
  }

  /** A fork in progress has a slot of its own. */
  predicate BirthOk(t: Table, i: nat)
    requires i < |t.slots|
  {
    var x := t.slots[i];
    Forking(x.pc) ==>
      && x.pc.np < |t.slots| && x.pc.np != i
      && var y := t.slots[x.pc.np];
         y.state == USED && y.pc == Born(i) && y.parent == if x.pc.Fork3? || x.pc.Fork4? then Some(i) else None
  }

  ghost predicate Inv(t: Table) {
    && |t.slots| > INIT && (t.lock.Some? ==> t.lock.p < |t.slots|)
    && (forall i {:trigger StateOk(t, i)} :: 0 <= i < |t.slots| ==> StateOk(t, i))
    && (forall i {:trigger FamilyOk(t, i)} :: 0 <= i < |t.slots| ==> FamilyOk(t, i))
    && (forall i {:trigger BirthOk(t, i)} :: 0 <= i < |t.slots| ==> BirthOk(t, i))
  }

  predicate OfFork(a: Step) {
    OfAlloc(a) || a.ForkLock? || a.ForkParent? || a.ForkUnlock? || a.ForkRun?
  }

  predicate OfAlloc(a: Step) {
    a.Alloc? || a.AllocFails?
  }

  predicate OfExit(a: Step) {
    OfWake(a) || a.ExitCall? || a.ExitLock? || a.Reparent? || a.Zombify? || a.ExitUnlock?
  }

  predicate OfWake(a: Step) {
    a.ReparentWake? || a.ExitWake?
  }

  predicate OfScan(a: Step) {
    a.WaitScan? || a.WaitSleep?
  }

  /** wait looks at a zombie. */
  predicate FoundZombie(t: Table, a: Step) {
    && a.WaitScan? && a.p < |t.slots| && t.slots[a.p].pc.Wait2? && t.slots[a.p].pc.i < |t.slots|
    && t.slots[t.slots[a.p].pc.i].state == ZOMBIE
  }

  lemma StepKeeps(t: Table, a: Step)
    requires Inv(t) && Enabled(t, a)
    ensures Inv(Next(t, a))
  {
    hide StateOk, FamilyOk, BirthOk, Enabled, Next;
    var t' := Next(t, a);
    StepFrame(t, a);
    forall i | 0 <= i < |t.slots|
      ensures |t'.slots| == |t.slots| && StateOk(t', i) && FamilyOk(t', i) && BirthOk(t', i)
    {
      NearIn(t, a, i);
      StateKept(t, a, i);
      FamilyKept(t, a, i);
      BirthKept(t, a, i);
    }
  }

  lemma StepFrame(t: Table, a: Step)
    requires Inv(t) && Enabled(t, a)
    ensures a.p < |t.slots|
    ensures |Next(t, a).slots| == |t.slots| && (Next(t, a).lock.Some? ==> Next(t, a).lock.p < |t.slots|)
    ensures Quiet(t, a) ==> && Next(t, a).nextpid == t.nextpid && Next(t, a).exited == t.exited
                            && Next(t, a).reaped == t.reaped
  {
    hide StateOk, FamilyOk, BirthOk;
  }

  /** The invariant tells it all. */
  lemma NearIn(t: Table, a: Step, i: nat)
    requires Inv(t) && a.p < |t.slots| && i < |t.slots|
    ensures StateNear(t, a, i) && BirthNear(t, a, i) && FamilyNear(t, a, i)
  {
    hide StateOk;
    assert StateOk(t, a.p) && StateOk(t, i) && StateOk(t, INIT) && BirthOk(t, a.p) && BirthOk(t, i);
    assert FamilyOk(t, a.p) && FamilyOk(t, i);
    if Forking(t.slots[i].pc) {
      assert StateOk(t, t.slots[i].pc.np);
    }
    if t.lock.Some? {
      assert StateOk(t, t.lock.p);
    }
    if t.slots[i].parent.Some? {
      assert StateOk(t, t.slots[i].parent.p);
    }
  }

  /** What a step of a.p needs to know to keep the state of slot i in order. */
  predicate StateNear(t: Table, a: Step, i: nat) {
    && a.p < |t.slots| && i < |t.slots| && |t.slots| > INIT && (t.lock.Some? ==> t.lock.p < |t.slots|)
    && StateOk(t, a.p) && StateOk(t, i) && StateOk(t, INIT) && BirthOk(t, a.p)
  }

  lemma StateInAlloc(t: Table, a: Step, i: nat)
    requires StateNear(t, a, i) && Enabled(t, a) && OfAlloc(a)
    ensures |Next(t, a).slots| == |t.slots| && StateOk(Next(t, a), i)
  {
  }

  lemma StateInFork(t: Table, a: Step, i: nat)
    requires StateNear(t, a, i) && Enabled(t, a) && OfFork(a) && !OfAlloc(a)
    ensures |Next(t, a).slots| == |t.slots| && StateOk(Next(t, a), i)
  {
  }

  lemma StateInWake(t: Table, a: Step, i: nat)
    requires StateNear(t, a, i) && Enabled(t, a) && OfWake(a)
    ensures |Next(t, a).slots| == |t.slots| && StateOk(Next(t, a), i)
  {
    hide BirthOk;
  }

  lemma StateInExit(t: Table, a: Step, i: nat)
    requires StateNear(t, a, i) && Enabled(t, a) && OfExit(a) && !OfWake(a)
    ensures |Next(t, a).slots| == |t.slots| && StateOk(Next(t, a), i)
  {
    hide BirthOk;
  }

  lemma StateInScan(t: Table, a: Step, i: nat)
    requires StateNear(t, a, i) && Enabled(t, a) && OfScan(a)
    ensures |Next(t, a).slots| == |t.slots| && StateOk(Next(t, a), i)
  {
    hide BirthOk;
  }

  lemma StateInWait(t: Table, a: Step, i: nat)
    requires StateNear(t, a, i) && Enabled(t, a) && !OfFork(a) && !OfExit(a) && !OfScan(a)
    ensures |Next(t, a).slots| == |t.slots| && StateOk(Next(t, a), i)
  {
    hide BirthOk;
  }

  lemma StateKept(t: Table, a: Step, i: nat)
    requires StateNear(t, a, i) && Enabled(t, a)
    ensures |Next(t, a).slots| == |t.slots| && StateOk(Next(t, a), i)
  {
    hide StateOk, FamilyOk, BirthOk, Enabled, Next;
    if OfAlloc(a) {
      StateInAlloc(t, a, i);
    } else if OfFork(a) {
      StateInFork(t, a, i);
    } else if OfWake(a) {
      StateInWake(t, a, i);
    } else if OfExit(a) {
      StateInExit(t, a, i);
    } else if OfScan(a) {
      StateInScan(t, a, i);
    } else {
      StateInWait(t, a, i);
    }
  }

  /** ... a fork in slot i. */
  predicate BirthNear(t: Table, a: Step, i: nat) {
    && a.p < |t.slots| && i < |t.slots| && |t.slots| > INIT && (t.lock.Some? ==> t.lock.p < |t.slots|)
    && StateOk(t, a.p) && StateOk(t, i) && BirthOk(t, a.p) && BirthOk(t, i)
    && (Forking(t.slots[i].pc) ==> StateOk(t, t.slots[i].pc.np))
  }

  lemma BirthInAlloc(t: Table, a: Step, i: nat)
    requires BirthNear(t, a, i) && Enabled(t, a) && OfAlloc(a)
    ensures |Next(t, a).slots| == |t.slots| && BirthOk(Next(t, a), i)
  {
  }

  lemma BirthInFork(t: Table, a: Step, i: nat)
    requires BirthNear(t, a, i) && Enabled(t, a) && OfFork(a) && !OfAlloc(a)
    ensures |Next(t, a).slots| == |t.slots| && BirthOk(Next(t, a), i)
  {
  }

  lemma BirthInReparent(t: Table, a: Step, i: nat)
    requires BirthNear(t, a, i) && Enabled(t, a) && a.Reparent?
    ensures |Next(t, a).slots| == |t.slots| && BirthOk(Next(t, a), i)
  {
  }

  lemma BirthInWake(t: Table, a: Step, i: nat)
    requires BirthNear(t, a, i) && Enabled(t, a) && OfWake(a)
    ensures |Next(t, a).slots| == |t.slots| && BirthOk(Next(t, a), i)
  {
  }

  lemma BirthInExit(t: Table, a: Step, i: nat)
    requires BirthNear(t, a, i) && Enabled(t, a) && OfExit(a) && !OfWake(a) && !a.Reparent?
    ensures |Next(t, a).slots| == |t.slots| && BirthOk(Next(t, a), i)
  {
  }

  lemma BirthInScan(t: Table, a: Step, i: nat)
    requires BirthNear(t, a, i) && Enabled(t, a) && OfScan(a)
    ensures |Next(t, a).slots| == |t.slots| && BirthOk(Next(t, a), i)
  {
  }

  lemma BirthInWait(t: Table, a: Step, i: nat)
    requires BirthNear(t, a, i) && Enabled(t, a) && !OfFork(a) && !OfExit(a) && !OfScan(a)
    ensures |Next(t, a).slots| == |t.slots| && BirthOk(Next(t, a), i)
  {
  }

  lemma BirthKept(t: Table, a: Step, i: nat)
    requires BirthNear(t, a, i) && Enabled(t, a)
    ensures |Next(t, a).slots| == |t.slots| && BirthOk(Next(t, a), i)
  {
    hide StateOk, FamilyOk, BirthOk, Enabled, Next;
    if OfAlloc(a) {
      BirthInAlloc(t, a, i);
    } else if OfFork(a) {
      BirthInFork(t, a, i);
    } else if a.Reparent? {
      BirthInReparent(t, a, i);
    } else if OfWake(a) {
      BirthInWake(t, a, i);
    } else if OfExit(a) {
      BirthInExit(t, a, i);
    } else if OfScan(a) {
      BirthInScan(t, a, i);
    } else {
      BirthInWait(t, a, i);
    }
  }

  /** ... slot i and its parent. */
  predicate FamilyNear(t: Table, a: Step, i: nat) {
    && a.p < |t.slots| && i < |t.slots| && |t.slots| > INIT && (t.lock.Some? ==> t.lock.p < |t.slots|)
    && StateOk(t, a.p) && StateOk(t, i) && StateOk(t, INIT) && (t.lock.Some? ==> StateOk(t, t.lock.p))
    && FamilyOk(t, a.p) && FamilyOk(t, i) && BirthOk(t, a.p)
    && (t.slots[i].parent.Some? ==> StateOk(t, t.slots[i].parent.p))
  }

  lemma FamilyInAllocation(t: Table, a: Step, i: nat)
    requires FamilyNear(t, a, i) && Enabled(t, a) && a.Alloc?
    ensures |Next(t, a).slots| == |t.slots| && FamilyOk(Next(t, a), i)
  {
  }

  lemma FamilyInFailure(t: Table, a: Step, i: nat)
    requires FamilyNear(t, a, i) && Enabled(t, a) && a.AllocFails?
    ensures |Next(t, a).slots| == |t.slots| && FamilyOk(Next(t, a), i)
  {
  }

  lemma FamilyInForkRun(t: Table, a: Step, i: nat)
    requires FamilyNear(t, a, i) && Enabled(t, a) && a.ForkRun?
    ensures |Next(t, a).slots| == |t.slots| && FamilyOk(Next(t, a), i)
  {
  }

  lemma FamilyInFork(t: Table, a: Step, i: nat)
    requires FamilyNear(t, a, i) && Enabled(t, a) && OfFork(a) && !OfAlloc(a) && !a.ForkRun?
    ensures |Next(t, a).slots| == |t.slots| && FamilyOk(Next(t, a), i)
  {
  }

  /** A child of an exiting process is handed to init. */
  lemma FamilyInReparent(t: Table, a: Step, i: nat)
    requires FamilyNear(t, a, i) && Enabled(t, a) && a.Reparent?
    ensures |Next(t, a).slots| == |t.slots| && FamilyOk(Next(t, a), i)
  {
    hide BirthOk;
  }

  /** Init is woken if it sleeps, as it may have got a zombie. */
  lemma FamilyInReparentWake(t: Table, a: Step, i: nat)
    requires FamilyNear(t, a, i) && Enabled(t, a) && a.ReparentWake?
    ensures |Next(t, a).slots| == |t.slots| && FamilyOk(Next(t, a), i)
  {
    hide BirthOk;
  }

  lemma FamilyInExitWake(t: Table, a: Step, i: nat)
    requires FamilyNear(t, a, i) && Enabled(t, a) && a.ExitWake?
    ensures |Next(t, a).slots| == |t.slots| && FamilyOk(Next(t, a), i)
  {
    hide BirthOk;
  }

  lemma FamilyInExit(t: Table, a: Step, i: nat)
    requires FamilyNear(t, a, i) && Enabled(t, a) && OfExit(a) && !OfWake(a) && !a.Reparent?
    ensures |Next(t, a).slots| == |t.slots| && FamilyOk(Next(t, a), i)
  {
    hide BirthOk;
  }

  /** wait finds a zombie. */
  lemma FamilyInReap(t: Table, a: Step, i: nat)
    requires FamilyNear(t, a, i) && Enabled(t, a) && FoundZombie(t, a)
    ensures |Next(t, a).slots| == |t.slots| && FamilyOk(Next(t, a), i)
  {
    hide BirthOk;
  }

  /** wait passes a slot without a zombie child, or has passed them all. */
  lemma FamilyInPass(t: Table, a: Step, i: nat)
    requires FamilyNear(t, a, i) && Enabled(t, a) && a.WaitScan? && !FoundZombie(t, a)
    ensures |Next(t, a).slots| == |t.slots| && FamilyOk(Next(t, a), i)
  {
    hide BirthOk;
  }

  /** A process on its way to sleep in wait has missed no zombie. */
  lemma FamilyInSleep(t: Table, a: Step, i: nat)
    requires FamilyNear(t, a, i) && Enabled(t, a) && a.WaitSleep?
    ensures |Next(t, a).slots| == |t.slots| && FamilyOk(Next(t, a), i)
  {
    hide BirthOk;
  }

  lemma FamilyInSchedule(t: Table, a: Step, i: nat)
    requires FamilyNear(t, a, i) && Enabled(t, a) && a.Schedule?
    ensures |Next(t, a).slots| == |t.slots| && FamilyOk(Next(t, a), i)
  {
    hide BirthOk;
  }

  lemma FamilyInWait(t: Table, a: Step, i: nat)
    requires FamilyNear(t, a, i) && Enabled(t, a) && !OfFork(a) && !OfExit(a) && !OfScan(a) && !a.Schedule?
    ensures |Next(t, a).slots| == |t.slots| && FamilyOk(Next(t, a), i)
  {
    hide BirthOk;
  }

  lemma FamilyKept(t: Table, a: Step, i: nat)
    requires FamilyNear(t, a, i) && Enabled(t, a)
    ensures |Next(t, a).slots| == |t.slots| && FamilyOk(Next(t, a), i)
  {
    hide StateOk, FamilyOk, BirthOk, Enabled, Next;
    if a.Alloc? {
      FamilyInAllocation(t, a, i);
    } else if a.AllocFails? {
      FamilyInFailure(t, a, i);
    } else if a.ForkRun? {
      FamilyInForkRun(t, a, i);
    } else if OfFork(a) {
      FamilyInFork(t, a, i);
    } else if a.Reparent? {
      FamilyInReparent(t, a, i);
    } else if a.ReparentWake? {
      FamilyInReparentWake(t, a, i);
    } else if a.ExitWake? {
      FamilyInExitWake(t, a, i);
    } else if OfExit(a) {
      FamilyInExit(t, a, i);
    } else if a.WaitSleep? {
      FamilyInSleep(t, a, i);
    } else if FoundZombie(t, a) {
      FamilyInReap(t, a, i);
    } else if a.WaitScan? {
      FamilyInPass(t, a, i);
    } else if a.Schedule? {
      FamilyInSchedule(t, a, i);
    } else {
      FamilyInWait(t, a, i);
    }
  }

  // ---------------------------------------------------------------- process identities

  /** A pid in use is new, its own, and never returned by wait; it is among the exited
      ones only as a zombie's. */
  ghost predicate PidOk(t: Table, i: nat)
    requires i < |t.slots|
  {
    var x := t.slots[i];
    x.state != UNUSED ==>
      && x.pid < t.nextpid && x.pid !in t.reaped && (x.state == ZOMBIE <==> x.pid in t.exited)
      && forall j :: 0 <= j < |t.slots| && j != i && t.slots[j].state != UNUSED ==> t.slots[j].pid != x.pid
  }

  ghost predicate PidInv(t: Table) {
    && (forall i {:trigger PidOk(t, i)} :: 0 <= i < |t.slots| ==> PidOk(t, i))
    && NoDup(t.reaped) && NoDup(t.exited)
    && (forall k :: 0 <= k < |t.exited| ==> t.exited[k] < t.nextpid)
    && (forall k :: 0 <= k < |t.reaped| ==> t.reaped[k] in t.exited)
    && (forall k :: 0 <= k < |t.exited| && t.exited[k] !in t.reaped ==> HasZombie(t, t.exited[k]))
  }

  /** The process with this pid still waits to be waited for. */
  ghost predicate HasZombie(t: Table, pid: nat) {
    exists i :: 0 <= i < |t.slots| && t.slots[i].state == ZOMBIE && t.slots[i].pid == pid
  }

  /** Steps other than allocation, exit and reaping leave pids and zombies alone. */
  lemma PidFrame(t: Table, t': Table)
    requires PidInv(t) && |t'.slots| == |t.slots| && t'.nextpid == t.nextpid && t'.exited == t.exited
             && t'.reaped == t.reaped
    requires forall i :: 0 <= i < |t.slots| ==> SamePid(t.slots[i], t'.slots[i])
    ensures PidInv(t')
  {
    forall i | 0 <= i < |t'.slots|
      ensures PidOk(t', i)
    {
      assert PidOk(t, i) && SamePid(t.slots[i], t'.slots[i]);
      forall j | 0 <= j < |t'.slots| && j != i && t'.slots[j].state != UNUSED && t'.slots[i].state != UNUSED
        ensures t'.slots[j].pid != t'.slots[i].pid
      {
        assert SamePid(t.slots[j], t'.slots[j]);
      }
    }
    forall k | 0 <= k < |t.exited| && t.exited[k] !in t.reaped
      ensures HasZombie(t', t.exited[k])
    {
      var i :| 0 <= i < |t.slots| && t.slots[i].state == ZOMBIE && t.slots[i].pid == t.exited[k];
      assert SamePid(t.slots[i], t'.slots[i]);
    }
  }

  predicate SamePid(x: Slot, y: Slot) {
    (y.state != UNUSED ==> x.state != UNUSED && y.pid == x.pid) && (x.state == ZOMBIE <==> y.state == ZOMBIE)
  }

  predicate Quiet(t: Table, a: Step)
    requires Enabled(t, a)
  {
    !a.Alloc? && !a.Zombify? && !(a.WaitScan? && Next(t, a).reaped != t.reaped)
  }

  lemma QuietKeeps(t: Table, a: Step)
    requires Inv(t) && PidInv(t) && Enabled(t, a) && Quiet(t, a)
    ensures PidInv(Next(t, a))
  {
    hide PidInv, StateOk, FamilyOk, BirthOk, SamePid, Enabled, Next, Quiet;
    StepFrame(t, a);
    forall i | 0 <= i < |t.slots|
      ensures |Next(t, a).slots| == |t.slots| && SamePid(t.slots[i], Next(t, a).slots[i])
    {
      NearIn(t, a, i);
      QuietSlot(t, a, i);
    }
    PidFrame(t, Next(t, a));
  }

  lemma QuietSlot(t: Table, a: Step, i: nat)
    requires StateNear(t, a, i) && Enabled(t, a) && Quiet(t, a)
    ensures |Next(t, a).slots| == |t.slots| && SamePid(t.slots[i], Next(t, a).slots[i])
  {
    hide StateNear, Enabled, Next, SamePid, Quiet;
    if OfFork(a) {
      QuietInFork(t, a, i);
    } else if OfExit(a) {
      QuietInExit(t, a, i);
    } else {
      QuietInWait(t, a, i);
    }
  }

  lemma QuietInFork(t: Table, a: Step, i: nat)
    requires StateNear(t, a, i) && Enabled(t, a) && Quiet(t, a) && OfFork(a)
    ensures |Next(t, a).slots| == |t.slots| && SamePid(t.slots[i], Next(t, a).slots[i])
  {
  }

  lemma QuietInExit(t: Table, a: Step, i: nat)
    requires StateNear(t, a, i) && Enabled(t, a) && Quiet(t, a) && OfExit(a)
    ensures |Next(t, a).slots| == |t.slots| && SamePid(t.slots[i], Next(t, a).slots[i])
  {
    hide BirthOk;
  }

  lemma QuietInWait(t: Table, a: Step, i: nat)
    requires StateNear(t, a, i) && Enabled(t, a) && Quiet(t, a) && !OfFork(a) && !OfExit(a)
    ensures |Next(t, a).slots| == |t.slots| && SamePid(t.slots[i], Next(t, a).slots[i])
  {
    hide BirthOk;
  }

  lemma AllocKeeps(t: Table, a: Step)
    requires PidInv(t) && Enabled(t, a) && a.Alloc?
    ensures PidInv(Next(t, a))
  {
    var t' := Next(t, a);
    assert t.nextpid !in t.exited && t.nextpid !in t.reaped;
    forall i | 0 <= i < |t'.slots|
      ensures PidOk(t', i)
    {
      assert PidOk(t, i);
      forall j | 0 <= j < |t.slots| && t.slots[j].state != UNUSED
        ensures t.slots[j].pid < t.nextpid
      {
        assert PidOk(t, j);
      }
    }
    forall k | 0 <= k < |t.exited| && t.exited[k] !in t.reaped
      ensures HasZombie(t', t.exited[k])
    {
      var i :| 0 <= i < |t.slots| && t.slots[i].state == ZOMBIE && t.slots[i].pid == t.exited[k];
      assert t'.slots[i].state == ZOMBIE && t'.slots[i].pid == t.exited[k];
    }
  }

  lemma ZombifyKeeps(t: Table, a: Step)
    requires Inv(t) && PidInv(t) && Enabled(t, a) && a.Zombify?
    ensures PidInv(Next(t, a))
  {
    var t' := Next(t, a);
    assert PidOk(t, a.p) && StateOk(t, a.p);
    forall i | 0 <= i < |t'.slots|
      ensures PidOk(t', i)
    {
      assert PidOk(t, i);
    }
    forall k | 0 <= k < |t'.exited| && t'.exited[k] !in t'.reaped
      ensures HasZombie(t', t'.exited[k])
    {
      if k == |t.exited| {
        assert t'.slots[a.p].state == ZOMBIE && t'.slots[a.p].pid == t'.exited[k];
      } else {
        var i :| 0 <= i < |t.slots| && t.slots[i].state == ZOMBIE && t.slots[i].pid == t.exited[k];
        assert t'.slots[i].state == ZOMBIE && t'.slots[i].pid == t'.exited[k];
      }
    }
  }

  lemma ReapKeeps(t: Table, a: Step)
    requires Inv(t) && PidInv(t) && Enabled(t, a) && a.WaitScan? && Next(t, a).reaped != t.reaped
    ensures PidInv(Next(t, a))
  {
    var t' := Next(t, a);
    var c := t.slots[a.p].pc.i;
    assert PidOk(t, c) && StateOk(t, a.p);
    forall i | 0 <= i < |t'.slots|
      ensures PidOk(t', i)
    {
      assert PidOk(t, i);
    }
    forall k | 0 <= k < |t'.exited| && t'.exited[k] !in t'.reaped
      ensures HasZombie(t', t'.exited[k])
    {
      assert t.exited[k] !in t.reaped && t.exited[k] != t.slots[c].pid by {
        assert t'.reaped == t.reaped + [t.slots[c].pid];
      }
      var i :| 0 <= i < |t.slots| && t.slots[i].state == ZOMBIE && t.slots[i].pid == t.exited[k];
      assert t'.slots[i].state == ZOMBIE && t'.slots[i].pid == t'.exited[k];
    }
  }

  lemma PidsKept(t: Table, a: Step)
    requires Inv(t) && PidInv(t) && Enabled(t, a)
    ensures PidInv(Next(t, a))
  {
    if Quiet(t, a) {
      QuietKeeps(t, a);
    } else if a.Alloc? {
      AllocKeeps(t, a);
    } else if a.Zombify? {
      ZombifyKeeps(t, a);
    } else {
      ReapKeeps(t, a);
    }
  }

  // ---------------------------------------------------------------- runs

  /** Only init exists, and it runs. */
  ghost predicate Initial(t: Table) {
    && |t.slots| > INIT && t.lock == None && t.nextpid == 2 && t.exited == [] && t.reaped == []
    && t.slots[INIT] == Slot(RUNNABLE, None, 1, User)
    && forall i :: 0 <= i < |t.slots| && i != INIT ==> t.slots[i] == FreeSlot()
  }

  ghost predicate StepAt(run: seq<Table>, steps: seq<Step>, k: nat)
    requires k < |steps| < |run|
  {
    Enabled(run[k], steps[k]) && run[k + 1] == Next(run[k], steps[k])
  }

  ghost predicate IsRun(run: seq<Table>, steps: seq<Step>) {
    && |run| == |steps| + 1 && Initial(run[0])
    && forall k {:trigger StepAt(run, steps, k)} :: 0 <= k < |steps| ==> StepAt(run, steps, k)
  }

  lemma InitialOk(t: Table)
    requires Initial(t)
    ensures Inv(t) && PidInv(t)
  {
    forall i | 0 <= i < |t.slots|
      ensures StateOk(t, i) && FamilyOk(t, i) && BirthOk(t, i) && PidOk(t, i)
    {
    }
  }

  lemma {:induction false} RunInv(run: seq<Table>, steps: seq<Step>, k: nat)
    requires IsRun(run, steps) && k < |run|
    ensures Inv(run[k]) && PidInv(run[k])
  {
    hide Inv, PidInv;
    if k == 0 {
      InitialOk(run[0]);
    } else {
      RunInv(run, steps, k - 1);
      assert StepAt(run, steps, k - 1);
      StepKeeps(run[k - 1], steps[k - 1]);
      PidsKept(run[k - 1], steps[k - 1]);
    }
  }

  /** Every process and every zombie but init has a living parent, at all times. */
  lemma NoOrphans(run: seq<Table>, steps: seq<Step>, k: nat, i: nat)
    requires IsRun(run, steps) && k < |run| && i < |run[k].slots| && i != INIT
    requires Alive(run[k].slots[i].state) || run[k].slots[i].state == ZOMBIE
    ensures run[k].slots[i].parent.Some? && run[k].slots[i].parent.p < |run[k].slots|
    ensures Alive(run[k].slots[run[k].slots[i].parent.p].state)
  {
    RunInv(run, steps, k);
    assert FamilyOk(run[k], i);
  }

  /** Whenever wait_lock is free, a process asleep in wait, or on its way from the scan to
      sleep, has no zombie child; and for any process but init, at all times. */
  lemma NoMissedZombie(run: seq<Table>, steps: seq<Step>, k: nat, p: nat, i: nat)
    requires IsRun(run, steps) && k < |run| && i < |run[k].slots| && p < |run[k].slots|
    requires SleepsInWait(run[k].slots[p]) && run[k].slots[i].parent == Some(p) && (run[k].lock == None || p != INIT)
    ensures run[k].slots[i].state != ZOMBIE
  {
    RunInv(run, steps, k);
    assert FamilyOk(run[k], i);
  }

  /** wait returns each process at most once, and only after it has exited; one that has
      exited and has not been returned is still there as a zombie. */
  lemma ReapedOnce(run: seq<Table>, steps: seq<Step>, k: nat)
    requires IsRun(run, steps) && k < |run|
    ensures NoDup(run[k].reaped) && NoDup(run[k].exited)
    ensures forall j :: 0 <= j < |run[k].reaped| ==> run[k].reaped[j] in run[k].exited
    ensures forall j :: 0 <= j < |run[k].exited| ==>
              (run[k].exited[j] in run[k].reaped <==> !HasZombie(run[k], run[k].exited[j]))
  {
    RunInv(run, steps, k);
    var t := run[k];
    forall j | 0 <= j < |t.exited| && t.exited[j] in t.reaped
      ensures !HasZombie(t, t.exited[j])
    {
      forall i | 0 <= i < |t.slots| && t.slots[i].state == ZOMBIE
        ensures t.slots[i].pid != t.exited[j]
      {
        assert PidOk(t, i);
      }
    }
  }
}
