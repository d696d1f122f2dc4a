/** begin_op and end_op (kernel/log.c) over sleep and wakeup: any number of processes
    starting, running and ending file-system operations, in every interleaving, with kills
    and preemption.  Only what begin_op waits for is modelled: the number of operations,
    the number of logged blocks and the commit flag. */
module LogSleep {
  import opened Monitor
  import DiskLog

  const LOG: Chan := 1      // the channel: the address of the log

  /** Which statement of begin_op, log_write or end_op a process is at. */
  datatype Code =
    | Idle
    | Beginning    // in begin_op: entering, testing or sleeping
    | Begun        // has counted itself; next: release
    | Working      // in an operation
    | Logging      // in log_write, up to counting the block
    | Logged       // next: release
    | Ending       // in end_op, up to counting itself out
    | Last         // has set committing; next: release
    | Committing   // in commit, without the lock
    | Committed    // has emptied the log; next: acquire, committing = 0
    | Due          // next: wakeup
    | Woken        // in wakeup, then release

  datatype State = State(m: Core, code: seq<Code>, n: nat, outstanding: int, committing: bool)

  datatype Act =
    | CallBegin(p: nat) | CallLogWrite(p: nat) | CallEnd(p: nat)
    | Enter(p: nat)             // acquire(&log.lock)
    | Test(p: nat)              // sleep, or outstanding += 1
    | Add(p: nat, more: bool)    // one block more, unless it is absorbed
    | Count(p: nat)             // outstanding -= 1, and committing = 1 if none is left
    | Empty(p: nat)             // log.lh.n = 0, in commit
    | Reset(p: nat)             // committing = 0
    | WakeAll(p: nat)           // wakeup(&log)
    | Leave(p: nat)             // release(&log.lock)
    | Background(t: Step)       // a statement of sleep, wakeup, kill or the scheduler

  /** begin_op need not wait. */
  predicate Admits(n: nat, outstanding: int, committing: bool) {
    !committing && n + (outstanding + 1) * DiskLog.MAXOPBLOCKS <= DiskLog.LOGSIZE
  }

  function Openings(n: nat, outstanding: int, committing: bool): set<Chan> {
    if Admits(n, outstanding, committing) then {LOG} else {}
  }

  function Who(a: Act): nat {
    if a.Background? then a.t.p else a.p
  }

  predicate CanDo(s: State, a: Act) {
    && |s.code| == |s.m.procs| && Who(a) < |s.code|
    && var code, pc := s.code[Who(a)], s.m.procs[Who(a)].pc;
       match a
       case CallBegin(_) => code == Idle
       case CallLogWrite(_) | CallEnd(_) => code == Working
       case Enter(p) => (code == Beginning || code == Logging || code == Ending || code == Committed)
                        && Enabled(s.m, Acquire(p), {LOG})
       case Test(_) => code == Beginning && pc == Inside
       case Add(_, _) => code == Logging && pc == Inside
       case Count(_) => code == Ending && pc == Inside
       case Empty(_) => code == Committing
       case Reset(_) => code == Committed && pc == Inside
       case WakeAll(_) => code == Due && pc == Inside
       case Leave(_) => (code == Begun || code == Logged || code == Last || code == Woken) && pc == Inside
       case Background(t) => IsBackground(t) && Enabled(s.m, t, {LOG})
  }

  function Left(code: Code): Code {
    match code
    case Begun | Logged => Working
    case Last => Committing
    case _ => Idle
  }

  /** The state with new values of what begin_op tests, and p at code. */
  function Set(s: State, p: nat, code: Code, n: nat, outstanding: int, committing: bool): State
    requires p < |s.code| == |s.m.procs| && s.m.procs[p].pc == Inside
  {
    State(Next(s.m, Change(p, Openings(n, outstanding, committing)), {LOG}), s.code[p := code], n, outstanding,
          committing)
  }

  ghost predicate Does(s: State, a: Act, s': State) {
    && CanDo(s, a)
    && match a
       case CallBegin(p) => s' == s.(code := s.code[p := Beginning])
       case CallLogWrite(p) => s' == s.(code := s.code[p := Logging])
       case CallEnd(p) => s' == s.(code := s.code[p := Ending])
       case Enter(p) => s' == s.(m := Next(s.m, Acquire(p), {LOG}))
       case Test(p) =>
         if Admits(s.n, s.outstanding, s.committing) then
           s' == Set(s, p, Begun, s.n, s.outstanding + 1, s.committing)
         else
           s' == s.(m := Next(s.m, Sleep(p, LOG), {LOG}))
       case Add(p, more) => s' == Set(s, p, Logged, if more then s.n + 1 else s.n, s.outstanding, s.committing)
       case Count(p) =>
         s' == if s.outstanding == 1 then Set(s, p, Last, s.n, 0, true)
               else Set(s, p, Due, s.n, s.outstanding - 1, s.committing)
       case Empty(p) => s' == s.(code := s.code[p := Committed], n := 0)
       case Reset(p) => s' == Set(s, p, Due, s.n, s.outstanding, false)
       case WakeAll(p) => s' == s.(m := Next(s.m, Wake(p, LOG), {LOG}), code := s.code[p := Woken])
       case Leave(p) => s' == s.(m := Next(s.m, Release(p), {LOG}), code := s.code[p := Left(s.code[p])])
       case Background(t) => s' == s.(m := Next(s.m, t, {LOG}))
  }

  // ---------------------------------------------------------------- invariant

  /** Counted in outstanding. */
  predicate Counted(c: Code) {
    c == Begun || c == Working || c == Logging || c == Logged || c == Ending
  }

  predicate Commits(c: Code) {
    c == Last || c == Committing || c == Committed
  }

  predicate Fits(c: Code, pc: Pc) {
    match c
    case Idle | Working | Committing => pc == Outside
    case Beginning => !Scanning(pc)
    case Begun | Logged | Last | Due => pc == Inside
    case Logging | Ending | Committed => pc == Outside || pc == Inside
    case Woken => pc == Inside || Scanning(pc)
  }

  ghost function InOperation(code: seq<Code>): set<nat> {
    set p | 0 <= p < |code| && Counted(code[p])
  }

  predicate ProcessOk(s: State, p: nat)
    requires p < |s.code| == |s.m.procs|
  {
    && Fits(s.code[p], s.m.procs[p].pc)
    && (Commits(s.code[p]) ==> s.committing) && (s.code[p] == Committed ==> s.n == 0)
  }

  /** At most one process is committing, and then no operation is running; a log that is
      neither being committed nor in use is empty. */
  ghost predicate LogInv(s: State) {
    && |s.code| == |s.m.procs| && Monitor.Inv(s.m, {LOG})
    && s.m.open == Openings(s.n, s.outstanding, s.committing) && s.m.lost == {}
    && DueOk(s)
    && s.outstanding == |InOperation(s.code)| && (s.committing ==> s.outstanding == 0)
    && (s.outstanding == 0 && !s.committing ==> s.n == 0)
    && (forall p {:trigger ProcessOk(s, p)} :: 0 <= p < |s.code| ==> ProcessOk(s, p))
    && OneCommitter(s.code)
  }

  ghost predicate OneCommitter(code: seq<Code>) {
    forall p, q :: 0 <= p < |code| && 0 <= q < |code| && Commits(code[p]) && Commits(code[q]) ==> p == q
  }

  // ---------------------------------------------------------------- every step keeps it

  lemma ActKeeps(s: State, a: Act, s': State)
    requires LogInv(s) && Does(s, a, s')
    ensures LogInv(s')
  {
    hide Monitor.Inv, ProcessOk, InOperation, OneCommitter;
    CoreKept(s, a, s');
    OpenKept(s, a, s');
    CountsKept(s, a, s');
    CommitterKept(s, a, s');
    DueKept(s, a, s');
    forall q | 0 <= q < |s'.code|
      ensures ProcessOk(s', q)
    {
      ProcessKept(s, a, s', q);
    }
  }

  lemma CoreKept(s: State, a: Act, s': State)
    requires LogInv(s) && Does(s, a, s')
    ensures Monitor.Inv(s'.m, {LOG}) && |s'.m.procs| == |s.m.procs| && |s'.code| == |s.code|
  {
    hide Monitor.Inv, ProcessOk, InOperation, OneCommitter, Advanced, Scanned, CanAdvance, CanScan, Unrelated;
    var p := Who(a);
    match a {
      case Background(t) =>
        StepKeeps(s.m, t, {LOG});
        BackgroundPc(s.m, t, {LOG}, t.p);
      case Enter(_) => StepKeeps(s.m, Acquire(p), {LOG});
      case Test(_) =>
        StepKeeps(s.m, if LOG in s.m.open then Change(p, s'.m.open) else Sleep(p, LOG), {LOG});
      case Add(_, _) => StepKeeps(s.m, Change(p, s'.m.open), {LOG});
      case Count(_) => StepKeeps(s.m, Change(p, s'.m.open), {LOG});
      case Reset(_) => StepKeeps(s.m, Change(p, s'.m.open), {LOG});
      case WakeAll(_) => StepKeeps(s.m, Wake(p, LOG), {LOG});
      case Leave(_) => StepKeeps(s.m, Release(p), {LOG});
      case _ =>
    }
  }

  lemma OpenKept(s: State, a: Act, s': State)
    requires LogInv(s) && Does(s, a, s')
    ensures s'.m.open == Openings(s'.n, s'.outstanding, s'.committing)
  {
    hide Monitor.Inv, InOperation, OneCommitter, Fits;
    assert ProcessOk(s, Who(a));
    if a.Background? {
      BackgroundPc(s.m, a.t, {LOG}, a.t.p);
    }
  }

  /** The counters agree with where the processes are. */
  lemma CountsKept(s: State, a: Act, s': State)
    requires LogInv(s) && Does(s, a, s')
    ensures s'.outstanding == |InOperation(s'.code)| && (s'.committing ==> s'.outstanding == 0)
    ensures s'.outstanding == 0 && !s'.committing ==> s'.n == 0
  {
    hide Monitor.Inv, Fits, Next, Enabled, InOperation, OneCommitter, Openings;
    var p := Who(a);
    assert ProcessOk(s, p);
    WhileCommitting(s, p);
    CodeMoves(s.code, p, s'.code[p]);
    assert s'.code == s.code[p := s'.code[p]];
  }

  lemma CommitterKept(s: State, a: Act, s': State)
    requires LogInv(s) && Does(s, a, s')
    ensures OneCommitter(s'.code)
  {
    hide Monitor.Inv, Fits, Next, Enabled, InOperation, Openings;
    var p := Who(a);
    WhileCommitting(s, p);
    assert s'.code == s.code[p := s'.code[p]];
    forall q | 0 <= q < |s.code|
      ensures Commits(s.code[q]) ==> s.committing
    {
      assert ProcessOk(s, q);
    }
  }

  lemma CodeMoves(code: seq<Code>, p: nat, c: Code)
    requires p < |code|
    ensures var d := |InOperation(code[p := c])| - |InOperation(code)|;
            d == (if Counted(c) then 1 else 0) - if Counted(code[p]) then 1 else 0
    ensures Counted(code[p]) ==> |InOperation(code)| > 0
  {
    var a, b := InOperation(code), InOperation(code[p := c]);
    assert a - {p} == b - {p};
    assert p in a ==> a == (a - {p}) + {p};
    assert p in b ==> b == (b - {p}) + {p};
  }

  lemma WhileCommitting(s: State, p: nat)
    requires LogInv(s) && p < |s.code|
    ensures Counted(s.code[p]) ==> !s.committing && s.outstanding > 0
  {
    assert Counted(s.code[p]) ==> p in InOperation(s.code);
  }

  ghost predicate DueOk(s: State) {
    s.m.due != {} ==> s.m.lk.Process? && s.m.lk.p < |s.code| && s.code[s.m.lk.p] == Due && s.m.due == {LOG}
  }

  /** A channel is opened only where a wakeup follows under the same lock. */
  lemma DueKept(s: State, a: Act, s': State)
    requires LogInv(s) && Does(s, a, s')
    ensures s'.m.lost == {} && DueOk(s')
  {
    hide Monitor.Inv, InOperation, OneCommitter, DueOk, Next, Enabled;
    if a.Background? {
      DueInBackground(s, a, s');
    } else {
      DueInAct(s, a, s');
    }
  }

  lemma DueInBackground(s: State, a: Act, s': State)
    requires LogInv(s) && Does(s, a, s') && a.Background?
    ensures s'.m.lost == {} && DueOk(s')
  {
    hide InOperation, OneCommitter, Openings, Next, Enabled;
    assert ProcessOk(s, a.t.p) && ProcOk(s.m, a.t.p, {LOG});
    BackgroundPc(s.m, a.t, {LOG}, a.t.p);
  }

  lemma DueInAct(s: State, a: Act, s': State)
    requires LogInv(s) && Does(s, a, s') && !a.Background?
    ensures s'.m.lost == {} && DueOk(s')
  {
    hide Monitor.Inv, ProcOk, InOperation, OneCommitter, Openings, Next, Enabled;
    assert ProcessOk(s, a.p);
    HolderIs(s, a.p);
    if Unlocked(a) {
      DueOutside(s, a, s');
    } else {
      DueInside(s, a, s');
    }
  }

  /** Acts outside the critical section. */
  predicate Unlocked(a: Act) {
    a.Empty? || a.Enter? || a.CallBegin? || a.CallEnd? || a.CallLogWrite?
  }

  lemma HolderIs(s: State, p: nat)
    requires LogInv(s) && p < |s.code|
    ensures s.m.procs[p].pc == Inside ==> s.m.lk == Process(p)
    ensures s.m.due != {} && s.code[p] != Due ==> s.m.lk != Process(p)
  {
    hide InOperation, OneCommitter;
    assert ProcOk(s.m, p, {LOG});
  }

  lemma DueInside(s: State, a: Act, s': State)
    requires Does(s, a, s') && !a.Background? && s.m.procs[a.p].pc == Inside && s.m.lk == Process(a.p) && DueOk(s)
    requires !Unlocked(a) && s.m.open == Openings(s.n, s.outstanding, s.committing) && s.m.lost == {}
    ensures s'.m.lost == {} && DueOk(s')
  {
  }

  lemma DueOutside(s: State, a: Act, s': State)
    requires Does(s, a, s') && !a.Background? && DueOk(s) && s.m.lost == {}
    requires Unlocked(a)
    requires s.m.due != {} && s.code[a.p] != Due ==> s.m.lk != Process(a.p)
    ensures s'.m.lost == {} && DueOk(s')
  {
  }

  lemma ProcessKept(s: State, a: Act, s': State, q: nat)
    requires LogInv(s) && Does(s, a, s') && q < |s.code| && |s'.m.procs| == |s.m.procs|
    ensures ProcessOk(s', q)
  {
    hide Monitor.Inv, ProcessOk, InOperation, OneCommitter, Next, Enabled;
    if a.Background? {
      BackgroundKept(s, a, s', q);
    } else if q == Who(a) {
      ActorKept(s, a, s');
    } else {
      OtherKept(s, a, s', q);
    }
  }

  lemma BackgroundKept(s: State, a: Act, s': State, q: nat)
    requires LogInv(s) && Does(s, a, s') && q < |s.code| && |s'.m.procs| == |s.m.procs| && a.Background?
    ensures ProcessOk(s', q)
  {
    hide Monitor.Inv, InOperation, OneCommitter, Next, Enabled;
    assert ProcessOk(s, q);
    BackgroundPc(s.m, a.t, {LOG}, q);
  }

  lemma ActorKept(s: State, a: Act, s': State)
    requires LogInv(s) && Does(s, a, s') && |s'.m.procs| == |s.m.procs| && !a.Background?
    ensures Who(a) < |s'.code| && ProcessOk(s', Who(a))
  {
    hide Monitor.Inv, InOperation, OneCommitter, Openings, ProcessOk, Next, Enabled;
    if s.m.procs[Who(a)].pc == Inside {
      InsideKept(s, a, s');
    } else {
      OutsideKept(s, a, s');
    }
  }

  /** Where an act in the critical section leads. */
  lemma InsidePc(s: State, a: Act, s': State)
    requires Does(s, a, s') && !a.Background? && s.m.procs[Who(a)].pc == Inside && |s'.m.procs| == |s.m.procs|
    ensures var pc := s'.m.procs[Who(a)].pc;
            pc == if a.WakeAll? then Waking(LOG, 0) else if a.Leave? then Outside
                  else if a.Test? && !Admits(s.n, s.outstanding, s.committing) then Sleep1(LOG) else Inside
  {
    hide Openings, Admits;
  }

  lemma InsideKept(s: State, a: Act, s': State)
    requires LogInv(s) && Does(s, a, s') && |s'.m.procs| == |s.m.procs| && !a.Background?
    requires s.m.procs[Who(a)].pc == Inside
    ensures Who(a) < |s'.code| && ProcessOk(s', Who(a))
  {
    hide Monitor.Inv, InOperation, OneCommitter, Openings, Admits, Next, Enabled;
    assert ProcessOk(s, Who(a));
    InsidePc(s, a, s');
  }

  lemma OutsideKept(s: State, a: Act, s': State)
    requires LogInv(s) && Does(s, a, s') && |s'.m.procs| == |s.m.procs| && !a.Background?
    requires s.m.procs[Who(a)].pc != Inside
    ensures Who(a) < |s'.code| && ProcessOk(s', Who(a))
  {
    hide Monitor.Inv, InOperation, OneCommitter, Openings;
    assert ProcessOk(s, Who(a));
  }

  lemma OtherKept(s: State, a: Act, s': State, q: nat)
    requires LogInv(s) && Does(s, a, s') && q < |s.code| && |s'.m.procs| == |s.m.procs| && q != Who(a)
    requires !a.Background?
    ensures ProcessOk(s', q)
  {
    hide Monitor.Inv, InOperation, Openings, Fits;
    assert ProcessOk(s, q) && ProcessOk(s, Who(a));
    WhileCommitting(s, Who(a));
  }

  // ---------------------------------------------------------------- runs

  /** As initlog leaves it: nobody is in an operation, and nobody is asleep on the log. */
  ghost predicate Initial(s: State) {
    && |s.code| == |s.m.procs| && s.m == Core(Nobody, s.m.procs, {LOG}, {}, {})
    && s.n == 0 && s.outstanding == 0 && !s.committing
    && forall p :: 0 <= p < |s.code| ==> s.code[p] == Idle && s.m.procs[p] == Proc(Outside, RUNNABLE, NOCHAN, Nobody)
  }

  ghost predicate IsRun(run: seq<State>, acts: seq<Act>) {
    && |run| == |acts| + 1 && Initial(run[0])
    && forall k :: 0 <= k < |acts| ==> Does(run[k], acts[k], run[k + 1])
  }

  lemma InitialInv(s: State)
    requires Initial(s)
    ensures LogInv(s)
  {
    assert InOperation(s.code) == {};
    forall p | 0 <= p < |s.code|
      ensures ProcessOk(s, p) && ProcOk(s.m, p, {LOG})
    {
    }
  }

  lemma {:induction false} RunInv(run: seq<State>, acts: seq<Act>, k: nat)
    requires IsRun(run, acts) && k < |run|
    ensures LogInv(run[k])
  {
    if k == 0 {
      InitialInv(run[0]);
    } else {
      RunInv(run, acts, k - 1);
      ActKeeps(run[k - 1], acts[k - 1], run[k]);
    }
  }

  predicate Waits(s: State, p: nat)
    requires p < |s.m.procs|
  {
    || (s.m.procs[p].state == SLEEPING && s.m.procs[p].chan == LOG) || Monitor.Committed(s.m.procs[p], LOG)
  }

  /** Whenever the log's spinlock is free, nobody is asleep in begin_op, or past the point of
      no return towards sleeping there, unless begin_op would still have to wait: a commit is
      running or the log is close to full.  When no operation is running either, nobody is
      asleep there at all. */
  lemma NoLostWakeup(run: seq<State>, acts: seq<Act>, k: nat, p: nat)
    requires IsRun(run, acts) && k < |run| && p < |run[k].m.procs| && run[k].m.lk == Nobody
    ensures Waits(run[k], p) ==> !Admits(run[k].n, run[k].outstanding, run[k].committing)
    ensures Waits(run[k], p) ==> run[k].committing || run[k].outstanding > 0
  {
    RunInv(run, acts, k);
    assert ProcOk(run[k].m, p, {LOG}) && SleeperOk(run[k].m, p, LOG);
  }

  /** end_op's panic does not happen: a process that counts itself out finds no commit under
      way; and commit runs alone. */
  lemma CommitsAlone(run: seq<State>, acts: seq<Act>, k: nat, p: nat, q: nat)
    requires IsRun(run, acts) && k < |run| && p < |run[k].code| && q < |run[k].code|
    ensures Counted(run[k].code[p]) ==> !run[k].committing && run[k].outstanding > 0
    ensures run[k].code[p] == Committing ==> !Counted(run[k].code[q]) && (run[k].code[q] == Committing ==> q == p)
  {
    RunInv(run, acts, k);
    assert ProcessOk(run[k], p);
    WhileCommitting(run[k], p);
    WhileCommitting(run[k], q);
  }
}
