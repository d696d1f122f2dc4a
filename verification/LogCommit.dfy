/** Commit and recovery of kernel/log.c, one block write at a time.

    The class runs the source's loops and records, in `images`, every disk image the
    platter ever held; a crash is a choice of one of them.  The lemmas say what each
    of those images means after recovery, however often recovery itself crashes.
 */
module LogCommit {
  import opened DiskLog

  // ---------------------------------------------------------------- images written

  /** Images of write_log: vals[k..] go to their slots in order. */
  function LogImages(l: Layout, d: Disk, vals: seq<Block>, k: nat): (r: seq<Disk>)
    requires l.Valid() && |d| == l.size && |vals| <= LOGSIZE && |vals| < l.nlog && k <= |vals|
    ensures |r| == |vals| - k
    decreases |vals| - k
  {
    if k == |vals| then []
    else var e := d[l.Slot(k) := vals[k]]; [e] + LogImages(l, e, vals, k + 1)
  }

  /** The disk once write_log is done. */
  function LogWritten(l: Layout, d: Disk, vals: seq<Block>, k: nat): (r: Disk)
    requires l.Valid() && |d| == l.size && |vals| <= LOGSIZE && |vals| < l.nlog && k <= |vals|
    ensures |r| == |d|
    decreases |vals| - k
  {
    if k == |vals| then d else LogWritten(l, d[l.Slot(k) := vals[k]], vals, k + 1)
  }

  /** Images of install_trans from entry k on. */
  function InstallImages(l: Layout, d: Disk, lh: seq<nat>, k: nat): (r: seq<Disk>)
    requires l.Valid() && |d| == l.size && GoodList(l, lh) && k <= |lh|
    ensures |r| == |lh| - k
    decreases |lh| - k
  {
    if k == |lh| then []
    else var e := d[lh[k] := d[l.Slot(k)]]; [e] + InstallImages(l, e, lh, k + 1)
  }

  /** write_head of the list lh. */
  function HeadWritten(l: Layout, d: Disk, lh: seq<nat>): (r: Disk)
    requires l.Valid() && |d| == l.size && |lh| <= LOGSIZE
    ensures |r| == |d|
  {
    d[l.start := WriteHead(d[l.start], lh)]
  }

  /** Every image a commit of values vals to blocks lh goes through. */
  function CommitImages(l: Layout, d: Disk, lh: seq<nat>, vals: seq<Block>): (r: seq<Disk>)
    requires l.Valid() && |d| == l.size && GoodList(l, lh) && |lh| == |vals|
    ensures |r| == 2 * |lh| + 2
  {
    var logged := LogWritten(l, d, vals, 0);
    var headed := HeadWritten(l, logged, lh);
    LogImages(l, d, vals, 0) + [headed] + InstallImages(l, headed, lh, 0)
    + [HeadWritten(l, Installed(l, headed, lh, 0), [])]
  }

  /** Every image a recovery goes through. */
  ghost function RecoveryImages(l: Layout, d: Disk): (r: seq<Disk>)
    requires GoodDisk(l, d)
    ensures |r| == |ReadHead(d[l.start])| + 1
  {
    var lh := ReadHead(d[l.start]);
    InstallImages(l, d, lh, 0) + [HeadWritten(l, Installed(l, d, lh, 0), [])]
  }

  /** The home blocks with vals stored at lh: what the committed group means. */
  ghost function Overlay(l: Layout, h: Disk, lh: seq<nat>, vals: seq<Block>): (r: Disk)
    requires |h| == l.size && GoodList(l, lh) && |lh| == |vals|
    ensures |r| == |h|
    ensures forall b :: 0 <= b < |r| && b !in lh ==> r[b] == h[b]
    ensures forall j :: 0 <= j < |lh| ==> r[lh[j]] == vals[j]
  {
    seq(|h|, b requires 0 <= b < |h| =>
      if b in lh then (var j :| 0 <= j < |lh| && lh[j] == b; vals[j]) else h[b])
  }

  // ---------------------------------------------------------------- what the images mean

  lemma {:induction false} LogImageKeeps(l: Layout, d: Disk, vals: seq<Block>, k: nat, i: nat)
    requires l.Valid() && |d| == l.size && |vals| <= LOGSIZE && |vals| < l.nlog && k <= |vals| && i < |vals| - k
    ensures var e := LogImages(l, d, vals, k)[i];
            && |e| == l.size && e[l.start] == d[l.start]
            && forall b :: 0 <= b < l.size && l.Home(b) ==> e[b] == d[b]
    decreases |vals| - k
  {
    if i > 0 {
      LogImageKeeps(l, d[l.Slot(k) := vals[k]], vals, k + 1, i - 1);
    }
  }

  lemma {:induction false} LogWrittenAt(l: Layout, d: Disk, vals: seq<Block>, k: nat)
    requires l.Valid() && |d| == l.size && |vals| <= LOGSIZE && |vals| < l.nlog && k <= |vals|
    ensures var e := LogWritten(l, d, vals, k);
            && e[l.start] == d[l.start]
            && (forall b :: 0 <= b < l.size && l.Home(b) ==> e[b] == d[b])
            && (forall j :: 0 <= j < k ==> e[l.Slot(j)] == d[l.Slot(j)])
            && (forall j :: k <= j < |vals| ==> e[l.Slot(j)] == vals[j])
    decreases |vals| - k
  {
    if k < |vals| {
      LogWrittenAt(l, d[l.Slot(k) := vals[k]], vals, k + 1);
    }
  }

  lemma {:induction false} InstallImageMeans(l: Layout, d: Disk, lh: seq<nat>, k: nat, i: nat)
    requires GoodDisk(l, d) && ReadHead(d[l.start]) == lh && k <= |lh| && i < |lh| - k
    ensures var e := InstallImages(l, d, lh, k)[i];
            GoodDisk(l, e) && ReadHead(e[l.start]) == lh && Durable(l, e) == Durable(l, d)
    decreases |lh| - k
  {
    var e := d[lh[k] := d[l.Slot(k)]];
    InstallStepMeans(l, d, lh, k);
    if i > 0 {
      InstallImageMeans(l, e, lh, k + 1, i - 1);
    }
  }

  /** Installing one committed entry does not change what the image means. */
  lemma InstallStepMeans(l: Layout, d: Disk, lh: seq<nat>, k: nat)
    requires GoodDisk(l, d) && ReadHead(d[l.start]) == lh && k < |lh|
    ensures var e := d[lh[k] := d[l.Slot(k)]];
            GoodDisk(l, e) && e[l.start] == d[l.start] && Durable(l, e) == Durable(l, d)
  {
    var e := d[lh[k] := d[l.Slot(k)]];
    assert l.Home(lh[k]);
    forall j | 0 <= j < |lh|
      ensures d[l.Slot(j)] == e[l.Slot(j)]
    {
      assert l.InLog(l.Slot(j));
    }
    DurableDependsOn(l, d, e);
  }

  lemma {:induction false} InstalledKeepsHead(l: Layout, d: Disk, lh: seq<nat>, k: nat)
    requires l.Valid() && |d| == l.size && GoodList(l, lh) && k <= |lh|
    ensures Installed(l, d, lh, k)[l.start] == d[l.start]
  {
    InstalledAt(l, d, lh, k, l.start);
    assert l.start !in lh[k..];
  }

  /** Erasing the header after a full install leaves exactly the durable homes. */
  lemma ClearAfterInstall(l: Layout, d: Disk)
    requires GoodDisk(l, d)
    ensures var e := HeadWritten(l, Installed(l, d, ReadHead(d[l.start]), 0), []);
            && GoodDisk(l, e) && e[l.start][0] == 0
            && Homes(l, e) == Durable(l, d) && Durable(l, e) == Durable(l, d)
  {
    var i := Installed(l, d, ReadHead(d[l.start]), 0);
    var e := HeadWritten(l, i, []);
    assert Homes(l, e) == Homes(l, i);
    DurableOfEmptyLog(l, e);
  }

  /** Recovery is stable: each image it writes means what the crashed image meant, and
      the last one has the recovered contents at home with an empty log. */
  lemma RecoveryStable(l: Layout, d: Disk)
    requires GoodDisk(l, d)
    ensures forall e :: e in RecoveryImages(l, d) ==> GoodDisk(l, e) && Durable(l, e) == Durable(l, d)
    ensures var r := RecoveryImages(l, d);
            var last := r[|r| - 1];
            last[l.start][0] == 0 && Homes(l, last) == Durable(l, d)
  {
    var lh := ReadHead(d[l.start]);
    ClearAfterInstall(l, d);
    forall i | 0 <= i < |lh|
      ensures GoodDisk(l, RecoveryImages(l, d)[i]) && Durable(l, RecoveryImages(l, d)[i]) == Durable(l, d)
    {
      InstallImageMeans(l, d, lh, 0, i);
    }
  }

  /** The header write is the commit point: before it, the old contents are durable. */
  lemma BeforeHead(l: Layout, d: Disk, lh: seq<nat>, vals: seq<Block>, i: nat)
    requires GoodDisk(l, d) && d[l.start][0] == 0 && GoodList(l, lh) && |lh| == |vals| && i < |lh|
    ensures var e := CommitImages(l, d, lh, vals)[i];
            GoodDisk(l, e) && Durable(l, e) == Homes(l, d)
  {
    LogImageKeeps(l, d, vals, 0, i);
    var e := CommitImages(l, d, lh, vals)[i];
    DurableOfEmptyLog(l, e);
    assert Homes(l, e) == Homes(l, d);
  }

  /** Once the header names the logged copies, the whole group is durable. */
  lemma HeadMeans(l: Layout, d: Disk, lh: seq<nat>, vals: seq<Block>)
    requires l.Valid() && |d| == l.size && GoodList(l, lh) && |lh| == |vals|
    ensures var e := HeadWritten(l, LogWritten(l, d, vals, 0), lh);
            && GoodDisk(l, e) && ReadHead(e[l.start]) == lh
            && Durable(l, e) == Overlay(l, Homes(l, d), lh, vals)
  {
    LogWrittenAt(l, d, vals, 0);
    var e := HeadWritten(l, LogWritten(l, d, vals, 0), lh);
    forall b | 0 <= b < l.size
      ensures Durable(l, e)[b] == Overlay(l, Homes(l, d), lh, vals)[b]
    {
      HeadMeansAt(l, d, e, lh, vals, b);
    }
  }

  lemma HeadMeansAt(l: Layout, d: Disk, e: Disk, lh: seq<nat>, vals: seq<Block>, b: nat)
    requires |d| == l.size && GoodDisk(l, e) && GoodList(l, lh) && |lh| == |vals| && b < l.size
    requires ReadHead(e[l.start]) == lh
    requires forall c :: 0 <= c < l.size && l.Home(c) ==> e[c] == d[c]
    requires forall j :: 0 <= j < |vals| ==> e[l.Slot(j)] == vals[j]
    ensures Durable(l, e)[b] == Overlay(l, Homes(l, d), lh, vals)[b]
  {
    assert lh[0..] == lh;
    InstalledAt(l, e, lh, 0, b);
    if b in lh {
      var j :| 0 <= j < |lh| && lh[j] == b;
      assert e[l.Slot(j)] == vals[j];
    }
  }

  /** From the header write on, every image means the whole group. */
  lemma FromHead(l: Layout, d: Disk, lh: seq<nat>, vals: seq<Block>, i: nat)
    requires GoodDisk(l, d) && GoodList(l, lh) && |lh| == |vals| && |lh| <= i < 2 * |lh| + 2
    ensures var e := CommitImages(l, d, lh, vals)[i];
            GoodDisk(l, e) && Durable(l, e) == Overlay(l, Homes(l, d), lh, vals)
  {
    HeadMeans(l, d, lh, vals);
    var headed := HeadWritten(l, LogWritten(l, d, vals, 0), lh);
    ClearAfterInstall(l, headed);
    if |lh| < i < 2 * |lh| + 1 {
      InstallImageMeans(l, headed, lh, 0, i - |lh| - 1);
    }
  }

  /** A crash history: each image is where the next recovery attempt was cut short. */
  ghost predicate CrashedRecoveries(l: Layout, ds: seq<Disk>) {
    && |ds| > 0
    && (forall i :: 0 <= i < |ds| ==> GoodDisk(l, ds[i]))
    && forall i :: 0 < i < |ds| ==> ds[i] == ds[i - 1] || ds[i] in RecoveryImages(l, ds[i - 1])
  }

  lemma {:induction false} RepeatedCrashesKeepMeaning(l: Layout, ds: seq<Disk>)
    requires CrashedRecoveries(l, ds)
    ensures Durable(l, ds[|ds| - 1]) == Durable(l, ds[0])
  {
    if |ds| > 1 {
      var n := |ds| - 1;
      assert ds[..n][0] == ds[0];
      RepeatedCrashesKeepMeaning(l, ds[..n]);
      assert ds[n] == ds[n - 1] || ds[n] in RecoveryImages(l, ds[n - 1]);
      RecoveryStable(l, ds[n - 1]);
    }
  }

  /** Crash atomicity.  Crash a commit after `done` of its block writes, crash the
      recovery any number of times anywhere, then let one recovery finish: the home
      blocks hold all of the group if the header write was among the writes done, and
      none of it otherwise. */
  lemma CrashAtomicity(l: Layout, d: Disk, lh: seq<nat>, vals: seq<Block>, done: nat, ds: seq<Disk>)
    requires GoodDisk(l, d) && d[l.start][0] == 0 && GoodList(l, lh) && |lh| == |vals|
    requires done <= 2 * |lh| + 2
    requires CrashedRecoveries(l, ds)
    requires ds[0] == if done == 0 then d else CommitImages(l, d, lh, vals)[done - 1]
    ensures var r := RecoveryImages(l, ds[|ds| - 1]);
            var final := r[|r| - 1];
            && final[l.start][0] == 0
            && Homes(l, final) == if done <= |lh| then Homes(l, d) else Overlay(l, Homes(l, d), lh, vals)
  {
    RepeatedCrashesKeepMeaning(l, ds);
    RecoveryStable(l, ds[|ds| - 1]);
    if done == 0 {
      DurableOfEmptyLog(l, d);
    } else if done <= |lh| {
      BeforeHead(l, d, lh, vals, done - 1);
    } else {
      FromHead(l, d, lh, vals, done - 1);
    }
  }

  // ---------------------------------------------------------------- the code

  lemma Regroup<T>(a: seq<T>, b: seq<T>, c: seq<T>, d: seq<T>, e: seq<T>)
    ensures a + b + c + (d + e) == a + (b + c + d + e)
  {
  }

  class Log {
    const layout: Layout
    var disk: Disk
    var cache: map<nat, Block>    // contents of the buffers that are in memory
    var lh: seq<nat>              // the in-memory header: blocks logged since the last commit
    ghost var images: seq<Disk>   // every image written to the platter, in order

    /** Blocks in the header are pinned; every other cached block matches the disk. */
    ghost predicate Valid()
      reads this
    {
      && GoodDisk(layout, disk)
      && GoodList(layout, lh)
      && (forall i :: 0 <= i < |lh| ==> lh[i] in cache)
      && CleanBut(lh)
    }

    ghost predicate CleanBut(dirty: seq<nat>)
      reads this
    {
      forall b :: b in cache ==> b < |disk| && (b !in dirty ==> cache[b] == disk[b])
    }

    /** What the cache holds for the logged blocks. */
    ghost function Pending(): (vals: seq<Block>)
      reads this
      requires forall i :: 0 <= i < |lh| ==> lh[i] in cache
    {
      seq(|lh|, i requires 0 <= i < |lh| && (forall j :: 0 <= j < |lh| ==> lh[j] in cache) reads this => cache[lh[i]])
    }

    method Bread(b: nat) returns (x: Block)
      requires b < |disk|
      modifies this`cache
      ensures x == (if b in old(cache) then old(cache)[b] else disk[b])
      ensures cache == old(cache)[b := x]
    {
      if b !in cache {
        cache := cache[b := disk[b]];
      }
      x := cache[b];
    }

    method Bwrite(b: nat, x: Block)
      requires b < |disk|
      modifies this`cache, this`disk, this`images
      ensures cache == old(cache)[b := x]
      ensures disk == old(disk)[b := x]
      ensures images == old(images) + [disk]
    {
      cache := cache[b := x];
      disk := disk[b := x];
      images := images + [disk];
    }

    /** bread both blocks, memmove, bwrite the destination. */
    method CopyBlock(src: nat, dst: nat)
      requires src < |disk| && dst < |disk|
      modifies this`cache, this`disk, this`images
      ensures var x := if src in old(cache) then old(cache)[src] else old(disk)[src];
              && disk == old(disk)[dst := x]
              && cache == old(cache)[src := x][dst := x]
      ensures images == old(images) + [disk]
    {
      var _ := Bread(dst);
      var x := Bread(src);
      Bwrite(dst, x);
    }

    method WriteLog()
      requires Valid()
      modifies this`cache, this`disk, this`images
      ensures Valid() && Pending() == old(Pending())
      ensures disk == LogWritten(layout, old(disk), Pending(), 0)
      ensures images == old(images) + LogImages(layout, old(disk), Pending(), 0)
    {
      hide ReadHead, Distinct;
      ghost var vals := Pending();
      var tail := 0;
      while tail < |lh|
        invariant tail <= |lh| && |disk| == layout.size
        invariant forall i :: 0 <= i < |lh| ==> lh[i] in cache && cache[lh[i]] == vals[i]
        invariant CleanBut(lh)
        invariant LogWritten(layout, disk, vals, tail) == LogWritten(layout, old(disk), vals, 0)
        invariant images + LogImages(layout, disk, vals, tail) == old(images) + LogImages(layout, old(disk), vals, 0)
      {
        assert layout.InLog(layout.Slot(tail)) && layout.Home(lh[tail]);
        ghost var before := images;
        ghost var rest := LogImages(layout, disk[layout.Slot(tail) := vals[tail]], vals, tail + 1);
        CopyBlock(lh[tail], layout.Slot(tail));
        assert before + ([disk] + rest) == images + rest;
        tail := tail + 1;
      }
      LogWrittenAt(layout, old(disk), vals, 0);
    }

    method WriteHeader()
      requires layout.Valid() && |disk| == layout.size && |lh| <= LOGSIZE
      requires layout.start in cache ==> cache[layout.start] == disk[layout.start]
      modifies this`cache, this`disk, this`images
      ensures disk == HeadWritten(layout, old(disk), lh)
      ensures images == old(images) + [disk]
      ensures cache == old(cache)[layout.start := disk[layout.start]]
    {
      var head := Bread(layout.start);
      Bwrite(layout.start, WriteHead(head, lh));
    }

    /** Copies the logged blocks home.  Before a commit the cached home blocks already
        hold the logged contents; in recovery they hold whatever was on disk. */
    method InstallTrans()
      requires layout.Valid() && |disk| == layout.size && GoodList(layout, lh)
      requires CleanBut(lh)
      modifies this`cache, this`disk, this`images
      ensures disk == Installed(layout, old(disk), lh, 0)
      ensures images == old(images) + InstallImages(layout, old(disk), lh, 0)
      ensures CleanBut([])
    {
      var tail := 0;
      while tail < |lh|
        invariant tail <= |lh| && |disk| == layout.size
        invariant CleanBut(lh[tail..])
        invariant Installed(layout, disk, lh, tail) == Installed(layout, old(disk), lh, 0)
        invariant images + InstallImages(layout, disk, lh, tail)
                  == old(images) + InstallImages(layout, old(disk), lh, 0)
      {
        assert lh[tail..] == [lh[tail]] + lh[tail + 1..];
        assert layout.InLog(layout.Slot(tail)) && layout.Home(lh[tail]);
        ghost var before := images;
        ghost var rest := InstallImages(layout, disk[lh[tail] := disk[layout.Slot(tail)]], lh, tail + 1);
        CopyBlock(layout.Slot(tail), lh[tail]);
        assert before + ([disk] + rest) == images + rest;
        tail := tail + 1;
      }
    }

    /** What commit() and recover_from_log() share: install, then erase the header. */
    method InstallAndClear()
      requires GoodDisk(layout, disk) && lh == ReadHead(disk[layout.start]) && CleanBut(lh)
      modifies this`cache, this`disk, this`images, this`lh
      ensures Valid() && lh == [] && disk[layout.start][0] == 0
      ensures images == old(images) + RecoveryImages(layout, old(disk))
      ensures Homes(layout, disk) == Durable(layout, old(disk))
    {
      InstallTrans();
      ClearAfterInstall(layout, old(disk));
      InstalledKeepsHead(layout, old(disk), lh, 0);
      lh := [];
      WriteHeader();
    }

    /** commit(): writes exactly the images of CommitImages, and leaves the group at
        home with an empty log; an empty transaction writes nothing. */
    method Commit()
      requires Valid() && disk[layout.start][0] == 0
      modifies this`cache, this`disk, this`images, this`lh
      ensures Valid() && lh == [] && disk[layout.start][0] == 0
      ensures old(lh) == [] ==> images == old(images) && disk == old(disk)
      ensures old(lh) != [] ==> images == old(images) + CommitImages(layout, old(disk), old(lh), old(Pending()))
      ensures Homes(layout, disk) == Overlay(layout, Homes(layout, old(disk)), old(lh), old(Pending()))
    {
      if |lh| > 0 {
        ghost var vals := Pending();
        WriteLog();
        HeadMeans(layout, old(disk), lh, vals);
        WriteHeader();
        ghost var headed := disk;
        InstallAndClear();
        Regroup(old(images), LogImages(layout, old(disk), vals, 0), [headed],
                InstallImages(layout, headed, old(lh), 0),
                [HeadWritten(layout, Installed(layout, headed, old(lh), 0), [])]);
      } else {
        assert Overlay(layout, Homes(layout, disk), lh, Pending()) == Homes(layout, disk);
      }
    }

    /** recover_from_log(), run with an empty cache after a crash: writes exactly the
        images of RecoveryImages and leaves the durable contents at home. */
    method RecoverFromLog()
      requires GoodDisk(layout, disk) && cache == map[]
      modifies this`cache, this`disk, this`images, this`lh
      ensures Valid() && lh == [] && disk[layout.start][0] == 0
      ensures images == old(images) + RecoveryImages(layout, old(disk))
      ensures Homes(layout, disk) == Durable(layout, old(disk))
    {
      var head := Bread(layout.start);
      lh := ReadHead(head);
      InstallAndClear();
    }

    /** log_write() of a buffer whose new contents are x, with its two panics as
        failure.  The block is appended once and absorbed afterwards. */
    method LogWrite(b: nat, x: Block, outstanding: nat) returns (ok: bool)
      requires Valid() && layout.Home(b)
      modifies this`cache, this`lh
      ensures Valid()
      ensures ok <==> |old(lh)| < LOGSIZE && |old(lh)| < layout.nlog - 1 && outstanding >= 1
      ensures !ok ==> lh == old(lh) && cache == old(cache)
      ensures ok ==> lh == (if b in old(lh) then old(lh) else old(lh) + [b])
      ensures ok ==> cache == old(cache)[b := x]
    {
      if |lh| >= LOGSIZE || |lh| >= layout.nlog - 1 || outstanding < 1 {
        return false;
      }
      var i := 0;
      while i < |lh| && lh[i] != b
        invariant i <= |lh| && b !in lh[..i]
      {
        i := i + 1;
      }
      cache := cache[b := x];
      if i == |lh| {
        assert lh[..i] == lh;
        lh := lh + [b];
      }
      return true;
    }
  }
}
