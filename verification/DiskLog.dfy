/** The physical redo log of kernel/log.c over a raw disk.

    A disk is a sequence of blocks, each block a sequence of 32-bit words.  The
    header block of the log and the logged copies live on that same disk, next to
    the home blocks, so every write is one block at one address.  A block write is
    atomic; a crash may fall between any two of them.
 */
module DiskLog {

  const LOGSIZE := 30      // data blocks a transaction may log
  const MAXOPBLOCKS := 10  // data blocks one file-system operation may log
  const WORDS := 256       // words in a block: BSIZE / sizeof(uint)

  type Block = b: seq<nat> | |b| == WORDS witness seq(WORDS, _ => 0)
  type Disk = seq<Block>

  function ZeroBlock(): Block {
    seq(WORDS, _ => 0)
  }

  /** Where the log lives: blocks start .. start + nlog, header first. */
  datatype Layout = Layout(size: nat, start: nat, nlog: nat)
  {
    ghost predicate Valid() {
      1 <= nlog && start + nlog <= size
    }

    predicate InLog(b: nat) {
      start <= b < start + nlog
    }

    predicate Home(b: nat) {
      b < size && !InLog(b)
    }

    /** Disk address of the logged copy of entry j. */
    function Slot(j: nat): nat {
      start + 1 + j
    }
  }

  // ---------------------------------------------------------------- header block

  /** The block numbers a header block names (read_head). */
  function ReadHead(b: Block): (lh: seq<nat>)
    requires b[0] < WORDS
  {
    b[1..1 + b[0]]
  }

  /** write_head rewrites the count and the first entries, keeping stale ones. */
  function WriteHead(prior: Block, lh: seq<nat>): (b: Block)
    requires |lh| < WORDS
    ensures b[0] == |lh| && ReadHead(b) == lh
  {
    [|lh|] + lh + prior[1 + |lh|..]
  }

  predicate Distinct(s: seq<nat>) {
    forall i, j :: 0 <= i < j < |s| ==> s[i] != s[j]
  }

  /** Headers the log writes: distinct home blocks, at most LOGSIZE of them and no more than
      the log has slots for. */
  predicate GoodList(l: Layout, lh: seq<nat>) {
    && |lh| <= LOGSIZE && |lh| < l.nlog
    && Distinct(lh)
    && forall i :: 0 <= i < |lh| ==> l.Home(lh[i])
  }

  ghost predicate GoodDisk(l: Layout, d: Disk) {
    && l.Valid()
    && |d| == l.size
    && d[l.start][0] <= LOGSIZE
    && GoodList(l, ReadHead(d[l.start]))
  }

  // ---------------------------------------------------------------- meaning of a disk image

  /** Disk image after installing log entries lh[k..], one block write each. */
  function Installed(l: Layout, d: Disk, lh: seq<nat>, k: nat): (r: Disk)
    requires l.Valid() && |d| == l.size && GoodList(l, lh) && k <= |lh|
    ensures |r| == |d|
    decreases |lh| - k
  {
    if k == |lh| then d
    else Installed(l, d[lh[k] := d[l.Slot(k)]], lh, k + 1)
  }

  /** The home blocks of an image, with the log region blanked out. */
  function Homes(l: Layout, d: Disk): (r: Disk)
    requires |d| == l.size
    ensures |r| == l.size
    ensures forall b :: 0 <= b < |r| ==> r[b] == if l.Home(b) then d[b] else ZeroBlock()
  {
    seq(l.size, b requires 0 <= b < |d| => if l.Home(b) then d[b] else ZeroBlock())
  }

  /** What a completed recovery of this image would leave in the home blocks. */
  ghost function Durable(l: Layout, d: Disk): (r: Disk)
    requires GoodDisk(l, d)
    ensures |r| == l.size
  {
    Homes(l, Installed(l, d, ReadHead(d[l.start]), 0))
  }

  lemma {:induction false} InstalledAt(l: Layout, d: Disk, lh: seq<nat>, k: nat, b: nat)
    requires l.Valid() && |d| == l.size && GoodList(l, lh) && k <= |lh| && b < l.size
    ensures b !in lh[k..] ==> Installed(l, d, lh, k)[b] == d[b]
    ensures forall j :: k <= j < |lh| && lh[j] == b ==> Installed(l, d, lh, k)[b] == d[l.Slot(j)]
    decreases |lh| - k
  {
    if k < |lh| {
      var d' := d[lh[k] := d[l.Slot(k)]];
      InstalledAt(l, d', lh, k + 1, b);
      assert lh[k..] == [lh[k]] + lh[k + 1..];
      if b == lh[k] {
        assert b !in lh[k + 1..];
      }
      forall j | k <= j < |lh| && lh[j] == b
        ensures Installed(l, d, lh, k)[b] == d[l.Slot(j)]
      {
        if j > k {
          assert d'[l.Slot(j)] == d[l.Slot(j)] by { assert l.Home(lh[k]); }
        }
      }
    }
  }

  /** With nothing committed in the log, an image means just its home blocks. */
  lemma DurableOfEmptyLog(l: Layout, d: Disk)
    requires GoodDisk(l, d) && d[l.start][0] == 0
    ensures Durable(l, d) == Homes(l, d)
  {
  }

  /** Any two images whose headers agree and whose logged copies agree, and whose
      remaining home blocks agree, mean the same. */
  lemma DurableDependsOn(l: Layout, d: Disk, e: Disk)
    requires GoodDisk(l, d) && GoodDisk(l, e)
    requires var lh := ReadHead(d[l.start]);
             && ReadHead(e[l.start]) == lh
             && (forall j :: 0 <= j < |lh| ==> d[l.Slot(j)] == e[l.Slot(j)])
             && (forall b :: 0 <= b < l.size && l.Home(b) && b !in lh ==> d[b] == e[b])
    ensures Durable(l, d) == Durable(l, e)
  {
    var lh := ReadHead(d[l.start]);
    assert lh[0..] == lh;
    forall b | 0 <= b < l.size
      ensures Durable(l, d)[b] == Durable(l, e)[b]
    {
      InstalledAt(l, d, lh, 0, b);
      InstalledAt(l, e, lh, 0, b);
      if b in lh {
        var j :| 0 <= j < |lh| && lh[j] == b;
        assert d[l.Slot(j)] == e[l.Slot(j)];
      }
    }
  }
}
