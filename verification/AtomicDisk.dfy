/** The contract the log offers file-system operations: a disk that changes by whole
    groups of finished operations.

    `writes` is the history of logged block writes that are not lost, `cut` how many of
    them are durable.  A crash forgets the rest.  Nothing here mentions a log or a cache.
 */
module AtomicDisk {
  import opened DiskLog

  datatype Write = Write(op: nat, block: nat, data: Block)

  datatype State = State(
    base: Disk,            // contents before the first operation
    writes: seq<Write>,    // writes since then, oldest first
    cut: nat,              // writes[..cut] survive a crash
    open: set<nat>,        // operations between begin_op and end_op
    next: nat,             // next operation number
    current: Disk,         // what a reader sees
    durable: Disk)         // what a crash leaves

  function Replay(h: Disk, ws: seq<Write>): (r: Disk)
    ensures |r| == |h|
  {
    if ws == [] then h
    else
      var n := |ws| - 1;
      var r := Replay(h, ws[..n]);
      if ws[n].block < |r| then r[ws[n].block := ws[n].data] else r
  }

  function Boot(h: Disk): State {
    State(h, [], 0, {}, 0, h, h)
  }

  function Begin(s: State): State {
    s.(open := s.open + {s.next}, next := s.next + 1)
  }

  function Put(s: State, op: nat, b: nat, x: Block): State
    requires b < |s.current|
  {
    s.(writes := s.writes + [Write(op, b, x)], current := s.current[b := x])
  }

  function End(s: State, op: nat): State {
    s.(open := s.open - {op})
  }

  function Commit(s: State): State {
    s.(cut := |s.writes|, durable := s.current)
  }

  function Crash(s: State): State
    requires s.cut <= |s.writes|
  {
    s.(writes := s.writes[..s.cut], open := {}, current := s.durable)
  }

  ghost predicate Inv(s: State) {
    && s.cut <= |s.writes|
    && |s.current| == |s.durable| == |s.base|
    && s.current == Replay(s.base, s.writes)
    && s.durable == Replay(s.base, s.writes[..s.cut])
    && (forall op :: op in s.open ==> op < s.next)
    && (forall i :: 0 <= i < |s.writes| ==> s.writes[i].op < s.next)
    && WholeOperations(s)
  }

  /** No operation is split by the cut, and none that is still open is durable at all. */
  ghost predicate WholeOperations(s: State)
    requires s.cut <= |s.writes|
  {
    && (forall i, j :: 0 <= i < s.cut <= j < |s.writes| ==> s.writes[i].op != s.writes[j].op)
    && (forall i :: 0 <= i < s.cut ==> s.writes[i].op !in s.open)
  }

  lemma BeginKeeps(s: State)
    requires Inv(s)
    ensures Inv(Begin(s))
  {
  }

  lemma PutKeeps(s: State, op: nat, b: nat, x: Block)
    requires Inv(s) && op in s.open && b < |s.current|
    ensures Inv(Put(s, op, b, x))
  {
    var ws := s.writes + [Write(op, b, x)];
    assert ws[..|s.writes|] == s.writes;
    assert ws[..s.cut] == s.writes[..s.cut];
  }

  lemma CommitKeeps(s: State)
    requires Inv(s) && s.open == {}
    ensures Inv(Commit(s))
  {
    assert s.writes[..|s.writes|] == s.writes;
  }

  lemma CrashKeeps(s: State)
    requires Inv(s)
    ensures Inv(Crash(s))
  {
    var ws := s.writes[..s.cut];
    assert ws[..s.cut] == ws;
  }
}
