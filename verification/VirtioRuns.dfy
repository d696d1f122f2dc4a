/** Runs of the virtio driver and the device together, one store at a time where it matters:
    the driver writes a ring entry and bumps the index in two steps, and the device may move
    between them and between any two rounds of the interrupt handler's loop.

    Requests are numbered as they are made, so that "once" can be said of them.
 */
module VirtioRuns {
  import opened Sequences
  import opened VirtioDisk

  /** How far the driver is with publishing a request. */
  datatype Stage = Quiet | Written(h: nat) | Stored(h: nat)

  datatype State = State(
    t: Table, avail: Ring, used: Ring, stage: Stage,
    ids: map<nat, nat>,      // the number of the request headed by each descriptor
    next: nat,               // the next number
    done: seq<nat>)          // the requests whose buffers were flagged done, in order

  datatype Step =
    | Prepare(h: nat, d1: nat, d2: nat, b: nat, op: Op)   // descriptors, info, b->disk
    | StoreEntry                                          // avail->ring[avail->idx % NUM] = idx[0]
    | BumpIndex                                           // avail->idx += 1
    | DeviceTakes
    | DeviceCompletes(h: nat)
    | Flag                                                // one round of virtio_disk_intr's loop
    | Finish(h: nat)                                      // the rest of virtio_disk_rw

  /** The request is complete but for its ring entry. */
  function Waiting(t: Table, h: nat, d1: nat, d2: nat, b: nat, op: Op): Table
    requires Sized(t) && h < NUM && d1 < NUM && d2 < NUM && b < |t.busy|
  {
    Advance(Formatted(t, h, d1, d2, b, op), h, Prepared)
  }

  ghost predicate Enabled(s: State, x: Step) {
    && Sized(s.t) && |s.avail.ring| == NUM
    && match x
       case Prepare(h, d1, d2, b, op) =>
         && s.stage.Quiet? && h < NUM && d1 < NUM && d2 < NUM && h != d1 && h != d2 && d1 != d2
         && s.t.free[h] && s.t.free[d1] && s.t.free[d2] && b < |s.t.busy| && forall g :: g in s.t.chains ==>
              s.t.chains[g].b != b
       case StoreEntry => s.stage.Written?
       case BumpIndex => s.stage.Stored? && s.stage.h in s.t.chains
       case DeviceTakes => s.avail.window != [] && s.avail.window[0] in s.t.chains && ChainOk(s.t, s.avail.window[0])
       case DeviceCompletes(h) =>
         h in s.t.chains && ChainOk(s.t, h) && s.t.chains[h].phase == Taken && |s.used.ring| == NUM
       case Flag =>
         && s.stage.Quiet? && s.used.window != [] && s.used.window[0] in s.t.chains && ChainOk(s.t, s.used.window[0])
         && s.used.window[0] in s.ids
       case Finish(h) => s.stage.Quiet? && h in s.t.chains && ChainOk(s.t, h) && !s.t.busy[s.t.chains[h].b]
  }

  ghost function Next(s: State, x: Step): State
    requires Enabled(s, x)
  {
    match x
    case Prepare(h, d1, d2, b, op) =>
      s.(t := Waiting(s.t, h, d1, d2, b, op), stage := Written(h), ids := s.ids[h := s.next], next := s.next + 1)
    case StoreEntry =>
      s.(avail := s.avail.(ring := s.avail.ring[s.avail.head % NUM := s.stage.h]), stage := Stored(s.stage.h))
    case BumpIndex =>
      var q := s.avail.(head := (s.avail.head + 1) % INDEX, window := s.avail.window + [s.stage.h]);
      s.(t := Advance(s.t, s.stage.h, Queued), avail := q, stage := Quiet)
    case DeviceTakes => s.(t := Moved(s.t, s.avail.window[0], Taken), avail := Popped(s.avail))
    case DeviceCompletes(h) => s.(t := Moved(s.t, h, Completed), used := Pushed(s.used, h))
    case Flag =>
      var h := s.used.window[0];
      s.(t := Moved(s.t, h, Done), used := Popped(s.used), done := s.done + [s.ids[h]])
    case Finish(h) => s.(t := Released(s.t, h), ids := s.ids - {h})
  }

  // ---------------------------------------------------------------- what every step keeps

  ghost predicate StageOk(s: State) {
    && (forall h :: h in s.t.chains && s.t.chains[h].phase == Prepared ==> !s.stage.Quiet? && s.stage.h == h)
    && (!s.stage.Quiet? ==> s.stage.h in s.t.chains && s.t.chains[s.stage.h].phase == Prepared)
    && (s.stage.Stored? ==> |s.avail.ring| == NUM && s.avail.ring[s.avail.head % NUM] == s.stage.h)
  }

  ghost predicate Once(s: State, r: nat) {
    r in s.done || exists h :: h in s.ids && s.ids[h] == r
  }

  /** The numbers in flight are distinct, and flagged just when their requests are done. */
  ghost predicate Numbered(s: State) {
    && s.ids.Keys == s.t.chains.Keys && NoDup(s.done)
    && (forall k :: 0 <= k < |s.done| ==> s.done[k] < s.next)
    && (forall h :: h in s.ids ==> s.ids[h] < s.next && (s.ids[h] in s.done <==> s.t.chains[h].phase == Done))
    && (forall g, h :: g in s.ids && h in s.ids && s.ids[g] == s.ids[h] ==> g == h)
  }

  /** Every request so far is in flight or flagged done, and flagged at most once. */
  ghost predicate HistoryOk(s: State) {
    && Numbered(s)
    && (forall r {:trigger Once(s, r)} :: 0 <= r < s.next ==> Once(s, r))
  }

  ghost predicate Inv(s: State) {
    DiskOk(s.t, s.avail, s.used) && StageOk(s) && HistoryOk(s)
  }

  lemma PrepareKeeps(s: State, x: Step)
    requires DiskOk(s.t, s.avail, s.used) && Enabled(s, x) && x.Prepare?
    ensures x.h !in s.t.chains && DiskOk(Next(s, x).t, s.avail, s.used)
  {
    hide ChainOk, DescOk;
    var t1 := Formatted(s.t, x.h, x.d1, x.d2, x.b, x.op);
    FormatKeeps(s.t, x.h, x.d1, x.d2, x.b, x.op);
    MoveKeeps(t1, x.h, Prepared);
    var t' := Waiting(s.t, x.h, x.d1, x.d2, x.b, x.op);
    assert t' == Moved(t1, x.h, Prepared);
    OtherPhase(s.t, s.avail, Queued, t', x.h, t'.chains[x.h]);
    OtherPhase(s.t, s.used, Completed, t', x.h, t'.chains[x.h]);
  }

  /** The entry goes where nobody looks yet. */
  lemma StoreKeeps(s: State)
    requires DiskOk(s.t, s.avail, s.used) && Enabled(s, StoreEntry)
    ensures DiskOk(s.t, Next(s, StoreEntry).avail, s.used)
  {
    hide ChainOk, DescOk;
    var q, h := s.avail, s.stage.h;
    QueueShort(s.t, q, Queued);
    SlotOf(q.first + |q.window|);
    RingPush(q.ring, q.first, q.window, h);
    var r := q.ring[q.head % NUM := h];
    forall j | 0 <= j < |q.window|
      ensures r[(q.first + j) % NUM] == q.window[j]
    {
      assert (q.window + [h])[j] == q.window[j];
    }
  }

  lemma BumpKeeps(s: State)
    requires DiskOk(s.t, s.avail, s.used) && StageOk(s) && Enabled(s, BumpIndex)
    ensures DiskOk(Next(s, BumpIndex).t, Next(s, BumpIndex).avail, s.used)
  {
    hide ChainOk, DescOk;
    var h := s.stage.h;
    MoveKeeps(s.t, h, Queued);
    var t' := Advance(s.t, h, Queued);
    assert t' == Moved(s.t, h, Queued);
    assert s.avail.ring[s.avail.head % NUM := h] == s.avail.ring;
    PushKeeps(s.t, s.avail, Queued, t', h, t'.chains[h]);
    OtherPhase(s.t, s.used, Completed, t', h, t'.chains[h]);
  }

  lemma DiskKept(s: State, x: Step)
    requires DiskOk(s.t, s.avail, s.used) && StageOk(s) && Enabled(s, x)
    ensures DiskOk(Next(s, x).t, Next(s, x).avail, Next(s, x).used)
  {
    hide QueueOk, TableOk;
    match x
    case Prepare(_, _, _, _, _) => PrepareKeeps(s, x);
    case StoreEntry => StoreKeeps(s);
    case BumpIndex => BumpKeeps(s);
    case DeviceTakes => TakeStep(s.t, s.avail, s.used);
    case DeviceCompletes(h) => CompleteStep(s.t, s.avail, s.used, h);
    case Flag => DoneStep(s.t, s.avail, s.used);
    case Finish(h) =>
      FinishStep(s.t, s.avail, s.used, h);
  }

  lemma StageKept(s: State, x: Step)
    requires DiskOk(s.t, s.avail, s.used) && StageOk(s) && Enabled(s, x)
    ensures StageOk(Next(s, x))
  {
    hide ChainOk, DescOk, DiskOk;
    if x.DeviceTakes? {
      TakeStep(s.t, s.avail, s.used);
    }
  }

  /** What a step does to the history, and to the phases of the requests. */
  /** How a step changes the chains and which of them are done. */
  ghost predicate ChainsMoved(s: State, x: Step)
    requires Enabled(s, x)
  {
    var s' := Next(s, x);
    && (x.Prepare? ==> x.h !in s.ids && s'.t.chains.Keys == s.t.chains.Keys + {x.h}
                       && s'.t.chains[x.h].phase == Prepared)
    && (x.Finish? ==> s.t.chains[x.h].phase == Done && s'.t.chains == s.t.chains - {x.h})
    && (x.Flag? ==> s.used.window[0] in s.t.chains && s.t.chains[s.used.window[0]].phase == Completed)
    && (!x.Prepare? && !x.Finish? ==> s'.t.chains.Keys == s.t.chains.Keys)
    && forall h :: h in s.t.chains && h in s'.t.chains ==>
         (s'.t.chains[h].phase == Done <==> s.t.chains[h].phase == Done || (x.Flag? && h == s.used.window[0]))
  }

  lemma HistoryMoves(s: State, x: Step)
    requires Inv(s) && Enabled(s, x)
    ensures ChainsMoved(s, x)
  {
    hide DescOk, HistoryOk, ChainsMoved, DiskOk;
    if x.Prepare? {
      SameKeys(s);
      PrepareMoves(s, x);
    } else if x.DeviceTakes? {
      TakeMoves(s, x);
    } else if x.Flag? {
      FlagMoves(s, x);
    } else {
      OtherMoves(s, x);
    }
  }

  lemma PrepareMoves(s: State, x: Step)
    requires DiskOk(s.t, s.avail, s.used) && s.ids.Keys == s.t.chains.Keys && Enabled(s, x) && x.Prepare?
    ensures ChainsMoved(s, x)
  {
    hide DiskOk;
    PrepareKeeps(s, x);
  }

  lemma TakeMoves(s: State, x: Step)
    requires DiskOk(s.t, s.avail, s.used) && Enabled(s, x) && x.DeviceTakes?
    ensures ChainsMoved(s, x)
  {
    hide DiskOk, ChainOk;
    TakeStep(s.t, s.avail, s.used);
  }

  lemma FlagMoves(s: State, x: Step)
    requires DiskOk(s.t, s.avail, s.used) && Enabled(s, x) && x.Flag?
    ensures ChainsMoved(s, x)
  {
    hide DiskOk, ChainOk;
    DoneStep(s.t, s.avail, s.used);
  }

  lemma OtherMoves(s: State, x: Step)
    requires DiskOk(s.t, s.avail, s.used) && StageOk(s) && Enabled(s, x)
    requires !x.Prepare? && !x.DeviceTakes? && !x.Flag?
    ensures ChainsMoved(s, x)
  {
    hide DescOk;
  }

  lemma SameKeys(s: State)
    requires HistoryOk(s)
    ensures s.ids.Keys == s.t.chains.Keys
  {
  }

  lemma HistoryKept(s: State, x: Step)
    requires Inv(s) && Enabled(s, x)
    ensures HistoryOk(Next(s, x))
  {
    hide DiskOk, StageOk, ChainOk, Once, Numbered, Next;
    var s' := Next(s, x);
    NumberedKept(s, x);
    forall r | 0 <= r < s'.next
      ensures Once(s', r)
    {
      OnceKept(s, x, r);
    }
  }

  lemma NumberedKept(s: State, x: Step)
    requires Inv(s) && Enabled(s, x)
    ensures Numbered(Next(s, x))
  {
    hide DiskOk, StageOk, ChainOk, Once, Formatted, Moved, Released, Enabled;
    HistoryMoves(s, x);
  }

  lemma OnceKept(s: State, x: Step, r: nat)
    requires Inv(s) && Enabled(s, x) && r < Next(s, x).next
    ensures Once(Next(s, x), r)
  {
    hide DiskOk, StageOk, ChainOk, Formatted, Moved, Released;
    var s' := Next(s, x);
    HistoryMoves(s, x);
    if r < s.next {
      assert Once(s, r);
      if r in s.done {
        assert r in s'.done;
      } else {
        var h :| h in s.ids && s.ids[h] == r;
        assert h in s'.ids && s'.ids[h] == r;
      }
    } else {
      assert s'.ids[x.h] == r;
    }
  }

  // ---------------------------------------------------------------- runs

  /** Queue and table after virtio_disk_init. */
  ghost predicate Initial(s: State) {
    && s.t == Table(seq(NUM, _ => true), s.t.desc, s.t.info, s.t.ops, seq(|s.t.busy|, _ => false), seq(NUM, _ => NONE),
                    map[])
    && Sized(s.t) && s.stage == Quiet && s.ids == map[] && s.next == 0 && s.done == []
    && |s.avail.ring| == |s.used.ring| == NUM
    && s.avail == Ring(s.avail.ring, 0, 0, 0, []) && s.used == Ring(s.used.ring, 0, 0, 0, [])
  }

  ghost predicate StepAt(run: seq<State>, steps: seq<Step>, k: nat)
    requires k < |steps| < |run|
  {
    Enabled(run[k], steps[k]) && run[k + 1] == Next(run[k], steps[k])
  }

  ghost predicate IsRun(run: seq<State>, steps: seq<Step>) {
    && |run| == |steps| + 1 && Initial(run[0])
    && forall k {:trigger StepAt(run, steps, k)} :: 0 <= k < |steps| ==> StepAt(run, steps, k)
  }

  lemma {:induction false} RunInv(run: seq<State>, steps: seq<Step>, k: nat)
    requires IsRun(run, steps) && k < |run|
    ensures Inv(run[k])
  {
    if k == 0 {
      forall i | 0 <= i < NUM
        ensures DescOk(run[0].t, i)
      {
      }
    } else {
      RunInv(run, steps, k - 1);
      assert StepAt(run, steps, k - 1);
      hide DiskOk, StageOk, HistoryOk;
      DiskKept(run[k - 1], steps[k - 1]);
      StageKept(run[k - 1], steps[k - 1]);
      HistoryKept(run[k - 1], steps[k - 1]);
    }
  }

  /** At all times, no request has been flagged done twice; every request made is in flight
      or has been flagged; and virtio_disk_rw gets past its wait only after that. */
  lemma DoneExactlyOnce(run: seq<State>, steps: seq<Step>, k: nat)
    requires IsRun(run, steps) && k < |run|
    ensures NoDup(run[k].done) && forall r :: 0 <= r < run[k].next ==> Once(run[k], r)
    ensures k < |steps| && steps[k].Finish? ==>
              Enabled(run[k], steps[k]) && steps[k].h in run[k].ids && run[k].ids[steps[k].h] in run[k].done
  {
    RunInv(run, steps, k);
    if k < |steps| && steps[k].Finish? {
      assert StepAt(run, steps, k);
    }
  }

  /** Whenever the index tells the device that there is something to take, the entry it
      reads heads a request that the driver has finished writing. */
  lemma DeviceSeesWholeRequests(run: seq<State>, steps: seq<Step>, k: nat)
    requires IsRun(run, steps) && k < |run| && run[k].avail.head != run[k].avail.tail
    ensures |run[k].avail.ring| == NUM
    ensures var h := run[k].avail.ring[run[k].avail.tail % NUM];
            && Sized(run[k].t) && h in run[k].t.chains && run[k].t.chains[h].phase == Queued && ChainOk(run[k].t, h)
            && (!run[k].stage.Quiet? ==> h != run[k].stage.h)
  {
    RunInv(run, steps, k);
    EmptyIff(run[k].t, run[k].avail, run[k].used);
    TakeStep(run[k].t, run[k].avail, run[k].used);
  }

  /** The tests of the code and of the device decide: the device can take a request just when
      the available ring's indices differ, the handler's loop goes round just when the used
      ring's do, and the entry each reads is the head of a request in the right state. */
  lemma TestsDecide(run: seq<State>, steps: seq<Step>, k: nat)
    requires IsRun(run, steps) && k < |run|
    ensures Enabled(run[k], DeviceTakes) <==> run[k].avail.head != run[k].avail.tail
    ensures Enabled(run[k], Flag) <==> run[k].stage.Quiet? && run[k].used.head != run[k].used.tail
    ensures Enabled(run[k], DeviceTakes) ==> && run[k].avail.ring[run[k].avail.tail % NUM] == run[k].avail.window[0]
                                             && run[k].t.chains[run[k].avail.window[0]].phase == Queued
    ensures Enabled(run[k], Flag) ==> && |run[k].used.ring| == NUM
                                      && run[k].used.ring[run[k].used.tail % NUM] == run[k].used.window[0]
                                      && run[k].t.chains[run[k].used.window[0]].phase == Completed
  {
    hide DiskOk, ChainOk, HistoryOk, StageOk, IsRun;
    RunInv(run, steps, k);
    var s := run[k];
    EmptyIff(s.t, s.avail, s.used);
    SameKeys(s);
    if s.avail.window != [] {
      TakeStep(s.t, s.avail, s.used);
    }
    if s.used.window != [] {
      DoneStep(s.t, s.avail, s.used);
    }
  }
}
