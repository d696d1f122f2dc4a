/** Space reservation in the log: begin_op reserves MAXOPBLOCKS for every operation. */
module LogSpace {
  import opened DiskLog

  /** n blocks are logged; each running operation has added some of them. */
  datatype Space = Space(n: nat, added: map<nat, nat>)

  ghost function Spare(added: map<nat, nat>): int
    decreases |added|
  {
    if |added| == 0 then 0
    else var p :| p in added; MAXOPBLOCKS - added[p] + Spare(added - {p})
  }

  lemma {:induction false} SpareSplit(added: map<nat, nat>, p: nat)
    requires p in added
    ensures Spare(added) == MAXOPBLOCKS - added[p] + Spare(added - {p})
    decreases |added|
  {
    var q :| q in added && Spare(added) == MAXOPBLOCKS - added[q] + Spare(added - {q});
    if p != q {
      SpareSplit(added - {q}, p);
      SpareSplit(added - {p}, q);
      assert added - {q} - {p} == added - {p} - {q};
    }
  }

  /** begin_op's test for room (outstanding is the number of running operations). */
  predicate HasRoom(n: nat, outstanding: nat) {
    n + (outstanding + 1) * MAXOPBLOCKS <= LOGSIZE
  }

  /** log_write's test for "too big a transaction". */
  predicate TooBig(n: nat, nlog: nat) {
    n >= LOGSIZE || n >= nlog - 1
  }

  predicate CanBegin(s: Space, p: nat) {
    p !in s.added && HasRoom(s.n, |s.added|)
  }

  function Begin(s: Space, p: nat): Space {
    s.(added := s.added[p := 0])
  }

  predicate CanAdd(s: Space, p: nat) {
    p in s.added && s.added[p] < MAXOPBLOCKS
  }

  function Add(s: Space, p: nat): Space
    requires p in s.added
  {
    Space(s.n + 1, s.added[p := s.added[p] + 1])
  }

  function End(s: Space, p: nat): Space {
    s.(added := s.added - {p})
  }

  /** Logged blocks plus the unused budgets of running operations fit in the log. */
  ghost predicate Reserved(s: Space) {
    && (forall p :: p in s.added ==> s.added[p] <= MAXOPBLOCKS)
    && s.n + Spare(s.added) <= LOGSIZE
  }

  lemma {:induction false} SpareBound(added: map<nat, nat>)
    requires forall p :: p in added ==> added[p] <= MAXOPBLOCKS
    ensures 0 <= Spare(added) <= |added| * MAXOPBLOCKS
    decreases |added|
  {
    if |added| != 0 {
      var p :| p in added;
      SpareSplit(added, p);
      SpareBound(added - {p});
    }
  }

  lemma BeginKeeps(s: Space, p: nat)
    requires Reserved(s) && CanBegin(s, p)
    ensures Reserved(Begin(s, p))
  {
    var added := s.added[p := 0];
    SpareSplit(added, p);
    assert added - {p} == s.added;
    SpareBound(s.added);
  }

  lemma AddKeeps(s: Space, p: nat)
    requires Reserved(s) && CanAdd(s, p)
    ensures Reserved(Add(s, p)) && s.n < LOGSIZE
  {
    var added := s.added[p := s.added[p] + 1];
    SpareSplit(s.added, p);
    SpareSplit(added, p);
    assert added - {p} == s.added - {p};
    SpareBound(s.added - {p});
  }

  lemma EndKeeps(s: Space, p: nat)
    requires Reserved(s) && p in s.added
    ensures Reserved(End(s, p))
  {
    SpareSplit(s.added, p);
  }

  /** One call by process p: begin_op, a log_write of a new block, or end_op. */
  predicate Step(r: Space, s: Space, p: nat) {
    || (CanBegin(r, p) && s == Begin(r, p))
    || (CanAdd(r, p) && s == Add(r, p))
    || (p in r.added && s == End(r, p))
  }

  /** Reachable by any interleaving of operations since the last commit. */
  ghost predicate Reachable(s: Space, steps: nat)
    decreases steps
  {
    if steps == 0 then s == Space(0, map[])
    else exists r, p :: Reachable(r, steps - 1) && Step(r, s, p)
  }

  lemma {:induction false} ReachableReserved(s: Space, steps: nat)
    requires Reachable(s, steps)
    ensures Reserved(s)
    decreases steps
  {
    if steps > 0 {
      var r, p :| Reachable(r, steps - 1) && Step(r, s, p);
      ReachableReserved(r, steps - 1);
      StepKeeps(r, s, p);
    } else {
      assert Spare(s.added) == 0;
    }
  }

  lemma StepKeeps(r: Space, s: Space, p: nat)
    requires Reserved(r) && Step(r, s, p)
    ensures Reserved(s)
  {
    if CanBegin(r, p) && s == Begin(r, p) {
      BeginKeeps(r, p);
    } else if CanAdd(r, p) && s == Add(r, p) {
      AddKeeps(r, p);
    } else {
      EndKeeps(r, p);
    }
  }

  /** Three operations filling the log one block at a time. */
  function Filling(k: nat): Space
    requires k <= LOGSIZE
  {
    Space(k, map[0 := if k < 10 then k else 10,
                 1 := if k < 10 then 0 else if k < 20 then k - 10 else 10,
                 2 := if k < 20 then 0 else k - 20])
  }

  lemma {:induction false} FillingReachable(k: nat)
    requires k <= LOGSIZE
    ensures Reachable(Filling(k), k + 3)
  {
    if k == 0 {
      var s0 := Space(0, map[]);
      var s1 := Begin(s0, 0);
      var s2 := Begin(s1, 1);
      assert Reachable(s0, 0);
      assert Step(s0, s1, 0) && Reachable(s1, 1);
      assert Step(s1, s2, 1) && Reachable(s2, 2);
      assert s2.added[2 := 0] == Filling(0).added;
      assert Step(s2, Filling(0), 2);
    } else {
      FillingReachable(k - 1);
      FillingStep(k);
    }
  }

  lemma FillingStep(k: nat)
    requires 0 < k <= LOGSIZE
    ensures Step(Filling(k - 1), Filling(k), Filler(k - 1))
  {
    assert Add(Filling(k - 1), Filler(k - 1)).added == Filling(k).added;
  }

  /** Which of the three adds the next block. */
  function Filler(k: nat): nat {
    if k < 10 then 0 else if k < 20 then 1 else 2
  }

  /** An operation within its budget never meets the "too big a transaction" panic
      exactly when the on-disk log has more than LOGSIZE blocks.  The image that mkfs
      builds has nlog == LOGSIZE, so it falls on the other side. */
  lemma ReservationSoundIff(nlog: nat)
    ensures NeverTooBig(nlog) <==> nlog >= LOGSIZE + 1
  {
    if nlog >= LOGSIZE + 1 {
      forall s, p, steps | Reachable(s, steps) && CanAdd(s, p)
        ensures !TooBig(s.n, nlog)
      {
        ReachableReserved(s, steps);
        AddKeeps(s, p);
      }
    } else {
      var k := if nlog == 0 then 0 else nlog - 1;
      FillingReachable(k);
      var s := Filling(k);
      assert Reachable(s, k + 3) && CanAdd(s, Filler(k)) && TooBig(s.n, nlog);
    }
  }

  /** In no reachable state does an operation with budget left meet log_write's panic. */
  ghost predicate NeverTooBig(nlog: nat) {
    forall s, p, steps :: Reachable(s, steps) && CanAdd(s, p) ==> !TooBig(s.n, nlog)
  }
}
