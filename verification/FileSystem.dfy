/** Block allocation, block mapping and file contents of kernel/fs.c. */
module FileSystem {
  import Sequences
  import opened Volume

  /** Identity of a disk block handed to log_write. */
  datatype LogBlock = BitmapBlock(n: nat) | InodeBlock(n: nat) | DataBlock(b: nat)

  class Fs {
    const g: Geometry
    var v: Vol
    var dinodes: seq<Inode>           // the inodes as last written by iupdate
    ghost var owner: map<nat, Slot>
    ghost var logged: set<LogBlock>   // blocks logged by the running operation

    ghost predicate Valid()
      reads this
    {
      Owned(g, v, owner, {}) && Dense(g, v) && |dinodes| == g.ninodes
    }

    /** Every inode is on disk as it is in memory, so that what holds of v holds of the disk. */
    ghost predicate Synced()
      reads this
    {
      dinodes == v.inodes
    }

    /** An empty disk, as mkfs makes it before the first file. */
    constructor (geometry: Geometry)
      requires 0 < geometry.nmeta <= geometry.size < UINT
      ensures g == geometry && Valid() && Synced() && logged == {} && v == EmptyVol(geometry)
    {
      g, owner, logged := geometry, map[], {};
      v := EmptyVol(geometry);
      dinodes := EmptyVol(geometry).inodes;
      new;
      forall t | IsSlot(g, t)
        ensures Ptr(g, v, t) == 0
      {
      }
    }

    /** balloc: the lowest free block, marked and zeroed; 0 when the disk is full. */
    method Balloc() returns (b: nat)
      requires Owned(g, v, owner, {})
      modifies `v, `logged
      ensures b == 0 ==> v == old(v) && logged == old(logged) && forall c :: 0 <= c < g.size ==> v.used[c]
      ensures b != 0 ==> && g.nmeta <= b < g.size && !old(v).used[b] && (forall c :: 0 <= c < b ==> old(v).used[c])
                         && v == Taken(old(v), b)
                         && logged == old(logged) + {BitmapBlock(b / BPB), DataBlock(b)}
    {
      var base := 0;
      while base < g.size
        invariant base % BPB == 0
        invariant forall c :: 0 <= c < base && c < g.size ==> v.used[c]
        invariant v == old(v) && logged == old(logged)
        decreases g.size - base
      {
        var bi := 0;
        while bi < BPB && base + bi < g.size
          invariant 0 <= bi <= BPB && base + bi <= g.size
          invariant forall c :: 0 <= c < base + bi ==> v.used[c]
          invariant v == old(v) && logged == old(logged)
        {
          if !v.used[base + bi] {
            b := base + bi;
            v := Taken(v, b);
            assert b / BPB == base / BPB;
            logged := logged + {BitmapBlock(base / BPB), DataBlock(b)};
            return;
          }
          bi := bi + 1;
        }
        base := base + BPB;
      }
      b := 0;
    }

    /** The head of bmap: a direct block. */
    method MapDirect(inum: nat, bn: nat) returns (addr: nat)
      requires Valid() && inum < g.ninodes && bn < NDIRECT
      modifies `v, `owner, `logged
      ensures Valid()
      ensures addr == 0 ==> forall c :: 0 <= c < g.size ==> v.used[c]
      ensures old(v).inodes[inum].addrs[bn] != 0 || addr == 0 ==> v == old(v) && owner == old(owner)
                                                                  && logged == old(logged)
      ensures Grown(g, old(v), v, Direct(inum, bn), addr)
      ensures Spent(g, old(v), v, if old(v).inodes[inum].addrs[bn] == 0 then 1 else 0, addr)
      ensures forall i :: 0 <= i < g.ninodes && i != inum ==> v.inodes[i] == old(v).inodes[i]
      ensures logged <= old(logged) + {BitmapBlock(addr / BPB), DataBlock(addr)}
    {
      hide OnlySlot, KeepsFile, NoHoles;
      addr := v.inodes[inum].addrs[bn];
      GrownSelf(g, v, Direct(inum, bn));
      if addr == 0 {
        FullIff(g, v);
        addr := Balloc();
        if addr != 0 {
          TakeCounts(g, old(v), addr);
          LinkDirect(g, v, inum, bn, addr);
          v := WithAddr(v, inum, bn, addr);
          owner := owner[addr := Direct(inum, bn)];
          GrowKeeps(g, old(v), v, old(owner), Direct(inum, bn), addr, g.size);
        }
      }
    }

    /** The middle of bmap: load the indirect block's number, allocating one if needed. */
    method MapIndirect(inum: nat) returns (ind: nat)
      requires Valid() && inum < g.ninodes
      modifies `v, `owner, `logged
      ensures Valid()
      ensures ind == v.inodes[inum].addrs[NDIRECT]
      ensures ind == 0 ==> forall c :: 0 <= c < g.size ==> v.used[c]
      ensures old(v).inodes[inum].addrs[NDIRECT] != 0 || ind == 0 ==> v == old(v) && owner == old(owner)
                                                                      && logged == old(logged)
      ensures Grown(g, old(v), v, Indirect(inum), ind)
      ensures Spent(g, old(v), v, if old(v).inodes[inum].addrs[NDIRECT] == 0 then 1 else 0, ind)
      ensures forall i :: 0 <= i < g.ninodes && i != inum ==> v.inodes[i] == old(v).inodes[i]
      ensures logged <= old(logged) + IndirectLog(g, v, inum)
    {
      hide OnlySlot, KeepsFile, NoHoles;
      ind := v.inodes[inum].addrs[NDIRECT];
      GrownSelf(g, v, Indirect(inum));
      if ind == 0 {
        FullIff(g, v);
        ind := Balloc();
        if ind != 0 {
          TakeCounts(g, old(v), ind);
          LinkIndirect(g, v, inum, ind);
          v := WithAddr(v, inum, NDIRECT, ind);
          owner := owner[ind := Indirect(inum)];
          GrowKeeps(g, old(v), v, old(owner), Indirect(inum), ind, g.size);
        }
      }
    }

    /** a[bn] = addr in the indirect block, addr being freshly allocated. */
    method SetEntry(inum: nat, j: nat, addr: nat, ghost before: Vol)
      requires Owned(g, before, owner, {}) && Dense(g, before) && inum < g.ninodes && j < NINDIRECT
      requires addr < g.size && !before.used[addr] && v == Taken(before, addr)
      requires before.inodes[inum].addrs[NDIRECT] != 0 && Ptr(g, before, Entry(inum, j)) == 0
      modifies `v, `owner
      ensures Owned(g, v, owner, {}) && Dense(g, v) && Grown(g, before, v, Entry(inum, j), addr)
      ensures v.inodes == before.inodes && v.used == old(v).used
    {
      GrowEntry(g, v, before, owner, inum, j, addr);
      v := WithEntry(v, v.inodes[inum].addrs[NDIRECT], j, addr);
      owner := owner[addr := Entry(inum, j)];
    }

    /** The tail of bmap: the indirect block exists. */
    method MapEntry(inum: nat, j: nat) returns (addr: nat)
      requires Valid() && inum < g.ninodes && j < NINDIRECT && v.inodes[inum].addrs[NDIRECT] != 0
      modifies `v, `owner, `logged
      ensures Valid()
      ensures addr == 0 ==> forall c :: 0 <= c < g.size ==> v.used[c]
      ensures old(Ptr(g, v, Entry(inum, j))) != 0 || addr == 0 ==> v == old(v) && owner == old(owner)
                                                                   && logged == old(logged)
      ensures Grown(g, old(v), v, Entry(inum, j), addr)
      ensures Spent(g, old(v), v, if old(Ptr(g, v, Entry(inum, j))) == 0 then 1 else 0, addr)
      ensures v.inodes == old(v).inodes
      ensures logged <= old(logged) + {BitmapBlock(addr / BPB), DataBlock(addr)} + IndirectLog(g, v, inum)
    {
      hide Dense, Grown, Ptr, Word, Owned, Sized;
      EntryPtr(g, v, owner, inum, j);
      var ind := v.inodes[inum].addrs[NDIRECT];
      GrownSelf(g, v, Entry(inum, j));
      addr := Word(v.blocks[ind], j);
      if addr == 0 {
        FullIff(g, v);
        addr := Balloc();
        if addr != 0 {
          TakeCounts(g, old(v), addr);
          SetEntry(inum, j, addr, old(v));
          logged := logged + {DataBlock(ind)};
        }
      }
    }

    /** bmap: the block holding file block bn, allocating it and the indirect block as
        needed.  Returns 0 only when the disk is full. */
    method Bmap(inum: nat, bn: nat) returns (addr: nat)
      requires Valid() && inum < g.ninodes && bn < MAXFILE
      modifies `v, `owner, `logged
      ensures Valid()
      ensures addr == Ptr(g, v, SlotOf(inum, bn)) && MapStep(g, old(v), v, inum, bn)
      ensures addr == 0 ==> forall c :: 0 <= c < g.size ==> v.used[c]
      ensures old(Ptr(g, v, SlotOf(inum, bn))) != 0 ==> v == old(v) && owner == old(owner) && logged == old(logged)
      ensures forall i :: 0 <= i < g.ninodes ==> v.inodes[i].size == old(v).inodes[i].size && KeepsFile(g, old(v), v, i)
      ensures forall i :: 0 <= i < g.ninodes && i != inum ==> v.inodes[i] == old(v).inodes[i]
      ensures old(v).inodes[inum].addrs[NDIRECT] != 0 ==>
                v.inodes[inum].addrs[NDIRECT] == old(v).inodes[inum].addrs[NDIRECT]
      ensures old(Ptr(g, v, SlotOf(inum, bn))) == 0 ==>
                logged <= old(logged) + {BitmapBlock(addr / BPB), DataBlock(addr)} + IndirectLog(g, v, inum)
    {
      hide KeepsFile, OnlySlot, Spent, MapStep, Owned, Dense;
      if bn < NDIRECT {
        addr := MapDirect(inum, bn);
        DirectStep(g, old(v), v, inum, bn, addr);
        return;
      }
      var ind := MapIndirect(inum);
      if ind == 0 {
        NoIndirectStep(g, old(v), v, inum, bn);
        return 0;
      }
      ghost var v1 := v;
      addr := MapEntry(inum, bn - NDIRECT);
      EntryStep(g, old(v), v1, v, inum, bn, addr);
      GrownTwice(g, old(v), v1, v, Indirect(inum), ind, Entry(inum, bn - NDIRECT), addr);
    }

    /** readi: hands out the bytes of the file from off on, at most n of them, and changes
        nothing.  `writable` is how many bytes of the destination can be written; a
        failing copyout returns -1. */
    method Readi(inum: nat, off: nat, n: nat, writable: nat) returns (r: int, data: Bytes)
      requires Valid() && inum < g.ninodes && off < UINT && n < UINT
      modifies `v, `owner, `logged
      ensures v == old(v) && owner == old(owner) && logged == old(logged)
      ensures var avail := Available(v.inodes[inum].size, off, n);
              && (r == -1 <==> writable < avail)
              && (r != -1 ==> r == |data| == avail)
              && (data != [] ==> off + |data| <= v.inodes[inum].size && data == Content(g, v, inum)[off..off + |data|])
    {
      var size := v.inodes[inum].size;
      if off > size || Add32(off, n) < off {
        return 0, [];
      }
      var want := if Add32(off, n) > size then size - off else n;
      r, data := ReadLoop(inum, off, want, writable);
    }

    /** readi's loop, once the count is cut down to what the file has. */
    method ReadLoop(inum: nat, off: nat, want: nat, writable: nat) returns (r: int, data: Bytes)
      requires Valid() && inum < g.ninodes && off + want <= v.inodes[inum].size
      modifies `v, `owner, `logged
      ensures v == old(v) && owner == old(owner) && logged == old(logged)
      ensures |data| <= want && data == Content(g, v, inum)[off..off + |data|]
      ensures if writable < want then r == -1 else r == |data| == want
    {
      hide Dense, ByteAt;
      ghost var was := Content(g, v, inum);
      data := [];
      while |data| < want
        invariant v == old(v) && owner == old(owner) && logged == old(logged)
        invariant |data| <= want && |data| <= writable && data == was[off..off + |data|]
      {
        var part := ReadChunk(inum, off + |data|, want - |data|);
        if |data| + |part| > writable {
          return -1, data;
        }
        data := Append(was, off, data, part);
      }
      return |data|, data;
    }

    /** One round of readi's loop: bmap, bread, and the bytes wanted from that block. */
    method ReadChunk(inum: nat, pos: nat, limit: nat) returns (part: Bytes)
      requires Valid() && inum < g.ninodes && 0 < limit && pos + limit <= v.inodes[inum].size
      modifies `v, `owner, `logged
      ensures v == old(v) && owner == old(owner) && logged == old(logged)
      ensures 0 < |part| <= limit && part == Content(g, v, inum)[pos..pos + |part|]
    {
      var m := Min(limit, Room(pos));
      ReadPart(g, v, owner, inum, pos, m);
      var addr := Bmap(inum, pos / BSIZE);
      part := v.blocks[addr][pos % BSIZE..pos % BSIZE + m];
    }

    /** One round of writei's loop: bmap, bread, copyin, log_write.  `readable` is how many
        bytes of the part copyin can read.  If that is not all of them it has copied those
        into the buffer when it fails, and the buffer is released without being logged: the
        round then logs nothing but what bmap logs, and nothing at all if the block was there. */
    method WriteChunk(inum: nat, pos: nat, part: Bytes, readable: nat) returns (m: nat, ghost extra: nat)
      requires Valid() && inum < g.ninodes && 0 < |part| <= Room(pos) && pos + |part| <= MAXFILE * BSIZE
      modifies `v, `owner, `logged
      ensures Valid() && Chunked(g, old(v), v, inum, pos, part, readable, m, extra)
      ensures m == 0 && old(Ptr(g, v, SlotOf(inum, pos / BSIZE))) != 0 ==> logged == old(logged)
      ensures ChunkLogged(g, old(v), v, inum, pos, old(logged), logged)
    {
      hide KeepsFile, Rewritten, NoHoles, MapStep, Progress, Dense, Chunked;
      var addr := Bmap(inum, pos / BSIZE);
      ghost var log1 := logged;
      BmapLogs(g, old(v), v, inum, pos, old(logged), logged);
      if addr == 0 {
        NothingStored(g, old(v), v, inum, pos, part, readable);
        return 0, 0;
      }
      if readable == 0 {
        NothingStored(g, old(v), v, inum, pos, part, readable);
        return 0, 0;
      }
      var n := Min(readable, |part|);
      StoredInBlock(g, old(v), v, owner, inum, pos, part, readable);
      v := Stored(v, addr, pos % BSIZE, part[..n]);
      if n < |part| {
        return 0, n;
      }
      logged := logged + {DataBlock(addr)};
      return |part|, 0;
    }

    /** writei: stores a prefix of src at off, all of it unless the disk fills up or the
        source cannot be read, and extends the size accordingly; the inode is written
        back.  `extra` counts the bytes beyond that prefix which a failing copyin has left
        in the last block.  Writing past the end of the file, past the largest file, or wrapping
        around 32 bits returns -1 and does nothing. */
    method Writei(inum: nat, off: nat, src: Bytes, readable: nat) returns (r: int, ghost extra: nat)
      requires Valid() && inum < g.ninodes && off < UINT && |src| < UINT
      modifies `v, `owner, `logged, `dinodes
      ensures Valid()
      ensures r == -1 <==> off > old(v).inodes[inum].size || off + |src| > MAXFILE * BSIZE
      ensures r == -1 ==> v == old(v) && dinodes == old(dinodes) && logged == old(logged) && extra == 0
      ensures r != -1 ==> && 0 <= r <= |src| && Wrote(g, old(v), v, inum, off, src, readable, r, extra)
                          && dinodes == old(dinodes)[inum := v.inodes[inum]]
      ensures r != -1 ==> var room := RoomFor(g, old(v), inum, off, |src|);
                          && r == Count(off, |src|, readable, room) && extra == Rest(off, |src|, readable, room)
                          && (r == room && r < |src| ==> forall c :: 0 <= c < g.size ==> v.used[c])
                          && (Content(g, v, inum) == Overwritten(old(Content(g, v, inum)), off, src[..r])
                              <==> WritesCountOnly(old(Content(g, v, inum)), off, src, readable, room))
      ensures OthersSame(g, old(v), v, inum)
      ensures old(Synced()) ==> Synced()
      ensures old(logged) == {} && |src| <= 3 * BSIZE ==> |logged| <= 10
    {
      hide Wrote, Progress, NoHoles, Content, Dense, RoomFor, Copied, WritesCountOnly;
      if off > v.inodes[inum].size || Add32(off, |src|) < off {
        return -1, 0;
      }
      if Add32(off, |src|) > MAXFILE * BSIZE {
        return -1, 0;
      }
      var tot;
      ghost var tally;
      tot, extra, tally := WriteLoop(inum, off, src, readable);
      FinishWrite(inum, off, tot, old(v), src, readable, extra);
      WroteExactly(g, old(v), v, inum, off, src, readable, tot, extra);
      LogBound(old(logged), logged, tally.data, tally.maps, IndirectLog(g, v, inum), {InodeBlock(inum / IPB)});
      r := tot;
    }

    /** writei's loop.  The tally accounts for what it logged. */
    method WriteLoop(inum: nat, off: nat, src: Bytes, readable: nat)
      returns (tot: nat, ghost extra: nat, ghost tally: Tally)
      requires Valid() && inum < g.ninodes && off <= v.inodes[inum].size && off + |src| <= MAXFILE * BSIZE
      modifies `v, `owner, `logged
      ensures Valid() && Looped(g, old(v), v, inum, off, src, readable, tot, extra)
      ensures TallyOk(tally, off, |src|, old(logged), logged, IndirectLog(g, v, inum))
    {
      hide Looping, Looped, Owned, Dense, TallyOk, Sized, NoHoles, IndirectLog;
      tot, extra := 0, 0;
      tally := Tally(0, {}, {});
      LoopStart(g, v, owner, inum, off, src, readable, logged);
      while tot < |src|
        invariant Valid() && extra == 0
        invariant Looping(g, old(v), v, inum, off, src, readable, tot, old(logged), logged, tally)
      {
        var before := tot;
        tot, extra, tally := WriteRound(inum, off, src, before, readable, old(v), old(logged), tally);
        if tot == before {
          return;
        }
      }
      LoopEnd(g, old(v), v, inum, off, src, readable, tot, old(logged), logged, tally);
    }

    method WriteRound(inum: nat, off: nat, src: Bytes, tot: nat, readable: nat,
                      ghost v0: Vol, ghost before: set<LogBlock>, ghost tally: Tally)
      returns (tot': nat, ghost extra: nat, ghost tally': Tally)
      requires Valid() && tot < |src|
      requires Looping(g, v0, v, inum, off, src, readable, tot, before, logged, tally)
      modifies `v, `owner, `logged
      ensures Valid() && tot <= tot'
      ensures Rounded(g, v0, v, inum, off, src, readable, tot, tot' - tot, extra, before, logged, tally')
    {
      hide Looping, Rounded, Owned, Dense, Chunked, ChunkLogged, Ptr, Sized, SlotOf, Min, Room;
      LoopBounds(g, v0, v, inum, off, src, readable, tot, before, logged, tally);
      var m := Min(|src| - tot, Room(off + tot));
      PartFits(|src| - tot, Room(off + tot));
      var part := src[tot..tot + m];
      m, extra := WriteChunk(inum, off + tot, part, if tot < readable then readable - tot else 0);
      tot' := tot + m;
      tally' := RoundNext(g, v0, old(v), v, inum, off, src, readable, tot, part, m, extra, before, old(logged), logged,
                          tally);
    }

    /** The end of writei: extend the size, write the inode back. */
    method FinishWrite(inum: nat, off: nat, tot: nat, ghost v0: Vol, ghost src: Bytes, ghost readable: nat,
                       ghost extra: nat)
      requires Valid() && inum < g.ninodes && tot + extra <= |src| && (extra > 0 ==> tot + extra == readable < |src|)
      requires Progress(g, v0, v, inum, off, src[..tot + extra]) && Dense(g, v0)
      requires off <= v0.inodes[inum].size && off + |src| <= MAXFILE * BSIZE
      modifies `v, `logged, `dinodes
      ensures Valid() && Wrote(g, v0, v, inum, off, src, readable, tot, extra)
      ensures OthersSame(g, v0, v, inum)
      ensures v.used == old(v).used && v.inodes[inum].addrs == old(v).inodes[inum].addrs
      ensures dinodes == old(dinodes)[inum := v.inodes[inum]]
      ensures logged == old(logged) + {InodeBlock(inum / IPB)}
    {
      hide Dense, Content, Spilled, OthersSame, Rewritten, KeepsFile;
      EndWrite(g, v0, v, owner, inum, off, src[..tot + extra], tot);
      v := Extended(v, inum, off + tot);
      Iupdate(inum);
    }

    method Iupdate(inum: nat)
      requires inum < |v.inodes| && inum < |dinodes|
      modifies `dinodes, `logged
      ensures dinodes == old(dinodes)[inum := v.inodes[inum]]
      ensures logged == old(logged) + {InodeBlock(inum / IPB)}
    {
      dinodes := dinodes[inum := v.inodes[inum]];
      logged := logged + {InodeBlock(inum / IPB)};
    }

    /** filewrite on an inode: chunks of at most three blocks, each its own transaction, so
        that none logs more than MAXOPBLOCKS blocks.  `peak` is the most any of them logged.
        Returns the whole count, or -1 if anything was left unwritten, as it is when the
        offset is past the end of the file or the count is negative. */
    method Filewrite(inum: nat, off: nat, src: Bytes, n: int, readable: nat)
      returns (ret: int, done: nat, ghost extra: nat, ghost peak: nat)
      requires Valid() && inum < g.ninodes && off < UINT && n < 0x8000_0000 && |src| == if n < 0 then 0 else n
      modifies `v, `owner, `logged, `dinodes
      ensures Valid() && peak <= 10 && (old(Synced()) ==> Synced())
      ensures Leftover(old(v).inodes[inum].size, off, |src|, readable, done, extra)
      ensures Content(g, v, inum) == After(old(Content(g, v, inum)), off, src, done, extra)
      ensures ret == if done == n then n else -1
      ensures done < |src| ==> CannotWrite(g, v, old(v).inodes[inum].size, off, |src|, readable)
      ensures OthersSame(g, old(v), v, inum)
    {
      hide FileAt, Transacted, CannotWrite, Owned, Dense;
      var max := ((10 - 1 - 1 - 2) / 2) * BSIZE;
      FileAtStart(g, v, owner, inum, off, src, readable);
      done, extra, peak := 0, 0, 0;
      while done < n
        invariant Valid() && done <= |src| && off + done < UINT && extra == 0 && peak <= 10
                  && (old(Synced()) ==> Synced())
        invariant FileAt(g, old(v), v, inum, off, src, readable, done, 0)
      {
        var n1 := if n - done > max then max else n - done;
        ghost var v1 := v;
        var i, part, k := done, src[done..done + n1], 0;
        k, extra := WriteTransaction(inum, off + i, part, if readable < i then 0 else readable - i);
        done := if k < 0 then i else i + k;
        FileAtNext(g, old(v), v1, v, inum, off, src, i, part, readable, k, extra);
        peak := if |logged| > peak then |logged| else peak;
        if k != n1 {
          break;
        }
      }
      FileAtMeans(g, old(v), v, inum, off, src, readable, done, extra);
      ret := if done == n then n else -1;
    }

    /** begin_op, writei, end_op. */
    method WriteTransaction(inum: nat, pos: nat, part: Bytes, readable: nat) returns (k: int, ghost extra: nat)
      requires Valid() && inum < g.ninodes && pos < UINT && |part| <= 3 * BSIZE
      modifies `v, `owner, `logged, `dinodes
      ensures Valid() && |logged| <= 10 && (old(Synced()) ==> Synced())
      ensures Transacted(g, old(v), v, inum, pos, part, readable, k, extra) && (k < 0 ==> extra == 0)
    {
      logged := {};
      k, extra := Writei(inum, pos, part, readable);
    }

    /** bfree: the block must be marked in use, else "freeing free block". */
    method Bfree(b: nat)
      requires |v.used| == g.size && b < g.size && v.used[b]
      modifies `v, `logged
      ensures v == old(v).(used := old(v).used[b := false])
    {
      v := v.(used := v.used[b := false]);
      logged := logged + {BitmapBlock(b / BPB)};
    }

    /** itrunc: frees every block of the inode once and nothing else, and empties it. */
    method Itrunc(inum: nat)
      requires Valid() && inum < g.ninodes
      modifies `v, `owner, `logged, `dinodes
      ensures Valid()
      ensures Content(g, v, inum) == [] && v.inodes[inum].addrs == NoAddrs()
      ensures dinodes == old(dinodes)[inum := v.inodes[inum]]
      ensures old(Synced()) ==> Synced()
      ensures owner == Disowned(old(owner), inum)
      ensures forall b :: 0 <= b < g.size ==>
                (v.used[b] <==> old(v).used[b] && !(b in old(owner) && old(owner)[b].inum == inum))
      ensures OthersSame(g, old(v), v, inum)
    {
      FreeDirect(inum);
      if v.inodes[inum].addrs[NDIRECT] != 0 {
        FreeIndirect(inum, old(v));
        v := WithAddr(v, inum, NDIRECT, 0);
      } else {
        NoEntries(g, old(v), v.used, owner, inum);
      }
      v := WithSize(v, inum, 0);
      assert v.inodes[inum].addrs == NoAddrs();
      assert v.inodes == old(v).inodes[inum := Inode(0, NoAddrs())];
      TruncKeeps(g, old(v), v, owner, inum);
      owner := Disowned(owner, inum);
      Iupdate(inum);
    }

    /** Free and clear the direct pointers. */
    method FreeDirect(inum: nat)
      requires Valid() && inum < g.ninodes
      modifies `v, `logged
      ensures v.blocks == old(v).blocks && |v.used| == g.size && |v.inodes| == g.ninodes
      ensures forall i :: 0 <= i < g.ninodes && i != inum ==> v.inodes[i] == old(v).inodes[i]
      ensures |v.inodes[inum].addrs| == NDIRECT + 1
              && v.inodes[inum].addrs[NDIRECT] == old(v).inodes[inum].addrs[NDIRECT]
      ensures forall q :: 0 <= q < NDIRECT ==> v.inodes[inum].addrs[q] == 0
      ensures Partly(g, old(v), v.used, owner, inum, NDIRECT, 0, false)
    {
      var k := 0;
      while k < NDIRECT
        invariant k <= NDIRECT && v.blocks == old(v).blocks && |v.used| == g.size && |v.inodes| == g.ninodes
        invariant forall i :: 0 <= i < g.ninodes && i != inum ==> v.inodes[i] == old(v).inodes[i]
        invariant |v.inodes[inum].addrs| == NDIRECT + 1
        invariant forall q :: 0 <= q <= NDIRECT ==>
                    v.inodes[inum].addrs[q] == if q < k then 0 else old(v).inodes[inum].addrs[q]
        invariant Partly(g, old(v), v.used, owner, inum, k, 0, false)
      {
        var a := v.inodes[inum].addrs[k];
        assert a == Ptr(g, old(v), Direct(inum, k));
        if a != 0 {
          Bfree(a);
          v := WithAddr(v, inum, k, 0);
        }
        k := k + 1;
      }
    }

    /** Free every block the indirect block names, then the indirect block. */
    method FreeIndirect(inum: nat, ghost v0: Vol)
      requires Owned(g, v0, owner, {}) && inum < g.ninodes && |v.inodes| == g.ninodes && v.blocks == v0.blocks
               && |v.used| == g.size
      requires |v.inodes[inum].addrs| == NDIRECT + 1
               && v.inodes[inum].addrs[NDIRECT] == v0.inodes[inum].addrs[NDIRECT] != 0
      requires Partly(g, v0, v.used, owner, inum, NDIRECT, 0, false)
      modifies `v, `logged
      ensures v.blocks == old(v).blocks && v.inodes == old(v).inodes && |v.used| == g.size
      ensures Partly(g, v0, v.used, owner, inum, NDIRECT, NINDIRECT, true)
    {
      var ind := v.inodes[inum].addrs[NDIRECT];
      assert ind == Ptr(g, v0, Indirect(inum));
      var j := 0;
      while j < NINDIRECT
        invariant j <= NINDIRECT && v.blocks == v0.blocks && v.inodes == old(v).inodes && |v.used| == g.size
        invariant Partly(g, v0, v.used, owner, inum, NDIRECT, j, false)
      {
        var a := Word(v.blocks[ind], j);
        assert a == Ptr(g, v0, Entry(inum, j));
        if a != 0 {
          Bfree(a);
        }
        j := j + 1;
      }
      Bfree(ind);
    }
  }

  function EmptyVol(g: Geometry): Vol {
    Vol(seq(g.size, b => b < g.nmeta), seq(g.size, _ => Zeros(BSIZE)), seq(g.ninodes, _ => Inode(0, NoAddrs())))
  }

  function NoAddrs(): seq<nat> {
    seq(NDIRECT + 1, _ => 0)
  }

  /** The bitmap once the first k direct blocks, the first j entries, and perhaps the
      indirect block of inum are freed; everything else is as in v0. */
  ghost predicate Partly(g: Geometry, v0: Vol, used: seq<bool>, owner: map<nat, Slot>, inum: nat, k: nat, j: nat,
                         whole: bool)
    requires Sized(g, v0) && |used| == g.size
  {
    forall b :: 0 <= b < g.size ==> (used[b] <==> v0.used[b] && !(b in owner && Freed(owner[b], inum, k, j, whole)))
  }

  predicate Freed(t: Slot, inum: nat, k: nat, j: nat, whole: bool) {
    t.inum == inum && match t
                      case Direct(_, k') => k' < k
                      case Entry(_, j') => j' < j
                      case Indirect(_) => whole
  }

  /** Where the entries of an indirect block are, and how using one is logged. */
  lemma EntryPtr(g: Geometry, v: Vol, owner: map<nat, Slot>, inum: nat, j: nat)
    requires Owned(g, v, owner, {}) && inum < g.ninodes && j < NINDIRECT && v.inodes[inum].addrs[NDIRECT] != 0
    ensures Sized(g, v) && |v.used| == |v.blocks| == g.size && |v.inodes| == g.ninodes
    ensures var a := v.inodes[inum].addrs;
            |a| == NDIRECT + 1 && a[NDIRECT] < g.size && |v.blocks[a[NDIRECT]]| == BSIZE
            && Ptr(g, v, Entry(inum, j)) == Word(v.blocks[a[NDIRECT]], j)
  {
  }

  /** An inode without an indirect block owns no entries. */
  lemma NoEntries(g: Geometry, v0: Vol, used: seq<bool>, owner: map<nat, Slot>, inum: nat)
    requires Owned(g, v0, owner, {}) && |used| == g.size && inum < g.ninodes && v0.inodes[inum].addrs[NDIRECT] == 0
    requires Partly(g, v0, used, owner, inum, NDIRECT, 0, false)
    ensures Partly(g, v0, used, owner, inum, NDIRECT, NINDIRECT, true)
  {
    forall b | b in owner && owner[b].inum == inum
      ensures owner[b].Direct?
    {
      assert Ptr(g, v0, owner[b]) == b;
    }
  }

  /** The blocks that are not inode inum's. */
  ghost function Disowned(owner: map<nat, Slot>, inum: nat): map<nat, Slot> {
    map b | b in owner && owner[b].inum != inum :: owner[b]
  }

  lemma TruncKeeps(g: Geometry, v0: Vol, v: Vol, owner: map<nat, Slot>, inum: nat)
    requires Owned(g, v0, owner, {}) && Dense(g, v0) && inum < g.ninodes
    requires v.blocks == v0.blocks && |v.used| == g.size && v.inodes == v0.inodes[inum := Inode(0, NoAddrs())]
    requires Partly(g, v0, v.used, owner, inum, NDIRECT, NINDIRECT, true)
    ensures forall b :: 0 <= b < g.size ==> (v.used[b] <==> v0.used[b] && !(b in owner && owner[b].inum == inum))
    ensures Owned(g, v, Disowned(owner, inum), {}) && Dense(g, v)
    ensures forall i :: 0 <= i < g.ninodes && i != inum ==> Content(g, v, i) == Content(g, v0, i)
  {
    forall t | IsSlot(g, t)
      ensures Ptr(g, v, t) == if t.inum == inum then 0 else Ptr(g, v0, t)
    {
    }
    forall i | 0 <= i < g.ninodes && i != inum
      ensures NoHoles(g, v, i) && Content(g, v, i) == Content(g, v0, i)
    {
      assert NoHoles(g, v0, i);
      forall bn | 0 <= bn < MAXFILE
        ensures Ptr(g, v, SlotOf(i, bn)) == Ptr(g, v0, SlotOf(i, bn))
      {
        assert IsSlot(g, SlotOf(i, bn));
      }
      KeepsContent(g, v0, v, i);
    }
  }

  /** What some rounds logged: the data blocks and the bitmap blocks of new ones. */
  datatype Tally = Tally(rounds: nat, data: set<LogBlock>, maps: set<LogBlock>)

  /** Each round logs one data block; a round that starts inside a block finds that block
      mapped, so it adds no bitmap block. */
  ghost predicate TallyOk(t: Tally, off: nat, n: nat, before: set<LogBlock>, logged: set<LogBlock>,
                          ind: set<LogBlock>) {
    && logged <= before + t.data + t.maps + ind
    && |t.data| <= t.rounds
    && |t.maps| <= (if off % BSIZE > 0 && t.rounds > 0 then t.rounds - 1 else t.rounds)
    && (n <= 3 * BSIZE ==> t.rounds <= 3 || (t.rounds == 4 && off % BSIZE > 0))
  }

  ghost function Next(g: Geometry, t: Tally, v1: Vol, v2: Vol, inum: nat, pos: nat): Tally
    requires Sized(g, v1) && Sized(g, v2) && inum < g.ninodes && pos < MAXFILE * BSIZE
  {
    var b := Ptr(g, v2, SlotOf(inum, pos / BSIZE));
    Tally(t.rounds + 1, t.data + {DataBlock(b)},
          if Ptr(g, v1, SlotOf(inum, pos / BSIZE)) == 0 then t.maps + {BitmapBlock(b / BPB)} else t.maps)
  }

  lemma TallyNext(g: Geometry, t: Tally, off: nat, n: nat, tot: nat, before: set<LogBlock>, log1: set<LogBlock>,
                  log2: set<LogBlock>, v1: Vol, v2: Vol, inum: nat)
    requires Sized(g, v1) && Sized(g, v2) && inum < g.ninodes && off + tot < MAXFILE * BSIZE
    requires TallyOk(t, off, n, before, log1, IndirectLog(g, v1, inum)) && tot == Reached(off, t.rounds)
    requires off % BSIZE > 0 && tot == 0 ==> Ptr(g, v1, SlotOf(inum, off / BSIZE)) != 0
    requires n <= 3 * BSIZE ==> t.rounds <= 2 || (t.rounds == 3 && off % BSIZE > 0)
    requires v1.inodes[inum].addrs[NDIRECT] != 0 ==> v2.inodes[inum].addrs[NDIRECT] == v1.inodes[inum].addrs[NDIRECT]
    requires log2 <= log1 + ChunkLog(g, v1, v2, inum, off + tot) + IndirectLog(g, v2, inum)
    ensures TallyOk(Next(g, t, v1, v2, inum, off + tot), off, n, before, log2, IndirectLog(g, v2, inum))
  {
    hide Ptr, Sized;
  }

  /** What one round did: the part is stored whole, or as far as it can be read, or not at
      all when no block is left for it. */
  ghost predicate Chunked(g: Geometry, v0: Vol, v: Vol, inum: nat, pos: nat, part: Bytes, readable: nat, m: nat,
                          extra: nat) {
    && 0 < |part| <= Room(pos) && pos + |part| <= MAXFILE * BSIZE && MapStep(g, v0, v, inum, pos / BSIZE)
    && m == (if Ptr(g, v, SlotOf(inum, pos / BSIZE)) != 0 && readable >= |part| then |part| else 0)
    && extra == (if Ptr(g, v, SlotOf(inum, pos / BSIZE)) != 0 && readable < |part| then readable else 0)
    && Progress(g, v0, v, inum, pos, part[..m + extra])
    && (v0.inodes[inum].addrs[NDIRECT] != 0 ==> v.inodes[inum].addrs[NDIRECT] == v0.inodes[inum].addrs[NDIRECT])
  }

  ghost predicate ChunkLogged(g: Geometry, v0: Vol, v: Vol, inum: nat, pos: nat, log0: set<LogBlock>,
                              log: set<LogBlock>) {
    && Sized(g, v0) && Sized(g, v) && inum < g.ninodes && pos < MAXFILE * BSIZE
    && log <= log0 + ChunkLog(g, v0, v, inum, pos) + IndirectLog(g, v, inum)
  }

  lemma BmapLogs(g: Geometry, v0: Vol, v: Vol, inum: nat, pos: nat, log0: set<LogBlock>, log: set<LogBlock>)
    requires Sized(g, v0) && Sized(g, v) && inum < g.ninodes && pos < MAXFILE * BSIZE
    requires Ptr(g, v0, SlotOf(inum, pos / BSIZE)) != 0 ==> log == log0
    requires Ptr(g, v0, SlotOf(inum, pos / BSIZE)) == 0 ==>
               var b := Ptr(g, v, SlotOf(inum, pos / BSIZE));
               log <= log0 + {BitmapBlock(b / BPB), DataBlock(b)} + IndirectLog(g, v, inum)
    ensures log <= log0 + ChunkLog(g, v0, v, inum, pos) + IndirectLog(g, v, inum)
    ensures DataBlock(Ptr(g, v, SlotOf(inum, pos / BSIZE))) in ChunkLog(g, v0, v, inum, pos)
  {
  }

  lemma NothingStored(g: Geometry, v0: Vol, v: Vol, inum: nat, pos: nat, part: Bytes, readable: nat)
    requires 0 < |part| <= Room(pos) && pos + |part| <= MAXFILE * BSIZE && MapStep(g, v0, v, inum, pos / BSIZE)
    requires Ptr(g, v, SlotOf(inum, pos / BSIZE)) == 0 || readable == 0
    requires v0.inodes[inum].addrs[NDIRECT] != 0 ==> v.inodes[inum].addrs[NDIRECT] == v0.inodes[inum].addrs[NDIRECT]
    requires forall i :: 0 <= i < g.ninodes ==> v.inodes[i].size == v0.inodes[i].size && KeepsFile(g, v0, v, i)
    requires forall i :: 0 <= i < g.ninodes && i != inum ==> v.inodes[i] == v0.inodes[i]
    ensures Chunked(g, v0, v, inum, pos, part, readable, 0, 0)
  {
    hide KeepsFile, Rewritten;
    KeptIsRewritten(g, v0, v, inum, pos);
    assert part[..0] == [];
  }

  lemma StoredInBlock(g: Geometry, v0: Vol, v1: Vol, owner: map<nat, Slot>, inum: nat, pos: nat, part: Bytes,
                      readable: nat)
    requires 0 < |part| <= Room(pos) && pos + |part| <= MAXFILE * BSIZE && MapStep(g, v0, v1, inum, pos / BSIZE)
    requires Owned(g, v1, owner, {}) && Dense(g, v1) && Ptr(g, v1, SlotOf(inum, pos / BSIZE)) != 0 && readable > 0
    requires v0.inodes[inum].addrs[NDIRECT] != 0 ==> v1.inodes[inum].addrs[NDIRECT] == v0.inodes[inum].addrs[NDIRECT]
    requires forall i :: 0 <= i < g.ninodes ==> v1.inodes[i].size == v0.inodes[i].size && KeepsFile(g, v0, v1, i)
    requires forall i :: 0 <= i < g.ninodes && i != inum ==> v1.inodes[i] == v0.inodes[i]
    ensures var n, b := Min(readable, |part|), Ptr(g, v1, SlotOf(inum, pos / BSIZE));
            && b < g.size && |v1.blocks| == g.size && |v1.blocks[b]| == BSIZE && Sized(g, v1)
            && var v := Stored(v1, b, pos % BSIZE, part[..n]);
            && Owned(g, v, owner, {}) && Dense(g, v)
            && Ptr(g, v, SlotOf(inum, pos / BSIZE)) == b && IndirectLog(g, v, inum) == IndirectLog(g, v1, inum)
            && Chunked(g, v0, v, inum, pos, part, readable, if n < |part| then 0 else n, if n < |part| then n else 0)
  {
    hide KeepsFile, Rewritten;
    var n, b := Min(readable, |part|), Ptr(g, v1, SlotOf(inum, pos / BSIZE));
    var v := Stored(v1, b, pos % BSIZE, part[..n]);
    StoreInBlock(g, v0, v1, owner, inum, pos, part[..n]);
    StoreKeeps(g, v1, owner, b, pos % BSIZE, part[..n]);
    MapStepStored(g, v0, v1, v, inum, pos / BSIZE);
  }

  // ---------------------------------------------------------------- how far a write gets

  /** How many of n bytes at pos find blocks when `free` blocks are left and the file has an
      indirect block or not. */
  ghost function RoomFrom(g: Geometry, v: Vol, inum: nat, pos: nat, n: nat, free: nat, ind: bool): (r: nat)
    requires Sized(g, v) && inum < g.ninodes && pos + n <= MAXFILE * BSIZE
    ensures r <= n
    decreases n
  {
    if n == 0 then 0 else
      var bn, m := pos / BSIZE, Min(n, Room(pos));
      var need := Need(Ptr(g, v, SlotOf(inum, bn)), bn, ind);
      if need > free then 0 else m + RoomFrom(g, v, inum, pos + m, n - m, free - need, ind || bn >= NDIRECT)
  }

  ghost function RoomFor(g: Geometry, v: Vol, inum: nat, pos: nat, n: nat): (r: nat)
    requires Sized(g, v) && inum < g.ninodes && pos + n <= MAXFILE * BSIZE
    ensures r <= n
  {
    RoomFrom(g, v, inum, pos, n, |FreeBlocks(g, v)|, v.inodes[inum].addrs[NDIRECT] != 0)
  }

  /** How many of n bytes at off lie in rounds whose source can be read whole: up to the last
      block boundary at or below off + readable. */
  function Copied(off: nat, n: nat, readable: nat): (r: nat)
    ensures r <= n && (readable < n ==> r <= readable)
  {
    if readable >= n then n
    else var end := (off + readable) / BSIZE * BSIZE; if end > off then end - off else 0
  }

  /** What writei returns, and how many more bytes a failing copyin leaves behind. */
  function Count(off: nat, n: nat, readable: nat, room: nat): nat {
    Min(Copied(off, n, readable), room)
  }

  function Rest(off: nat, n: nat, readable: nat, room: nat): nat {
    if readable < n && Copied(off, n, readable) < room then readable - Copied(off, n, readable) else 0
  }

  lemma {:induction false} RoomSame(g: Geometry, v: Vol, v': Vol, inum: nat, pos: nat, n: nat, free: nat, ind: bool)
    requires Sized(g, v) && Sized(g, v') && inum < g.ninodes && pos + n <= MAXFILE * BSIZE
    requires forall k :: pos / BSIZE <= k < MAXFILE ==> Ptr(g, v', SlotOf(inum, k)) == Ptr(g, v, SlotOf(inum, k))
    ensures RoomFrom(g, v', inum, pos, n, free, ind) == RoomFrom(g, v, inum, pos, n, free, ind)
    decreases n
  {
    hide Sized, Ptr;
    if n > 0 {
      var bn, m := pos / BSIZE, Min(n, Room(pos));
      var need := Need(Ptr(g, v, SlotOf(inum, bn)), bn, ind);
      assert (pos + m) / BSIZE >= bn;
      if need <= free {
        RoomSame(g, v, v', inum, pos + m, n - m, free - need, ind || bn >= NDIRECT);
      }
    }
  }

  /** One round takes its blocks from what is left. */
  lemma RoomStep(g: Geometry, v: Vol, v': Vol, inum: nat, pos: nat, n: nat, m: nat)
    requires 0 < n && pos + n <= MAXFILE * BSIZE && m == Min(n, Room(pos)) && MapStep(g, v, v', inum, pos / BSIZE)
    ensures if Ptr(g, v', SlotOf(inum, pos / BSIZE)) == 0 then RoomFor(g, v, inum, pos, n) == 0
            else RoomFor(g, v, inum, pos, n) == m + RoomFor(g, v', inum, pos + m, n - m)
  {
    hide Ptr, FreeBlocks;
    if Ptr(g, v', SlotOf(inum, pos / BSIZE)) != 0 && m < n {
      assert (pos + m) / BSIZE == pos / BSIZE + 1;
      RoomSame(g, v, v', inum, pos + m, n - m, |FreeBlocks(g, v')|, v'.inodes[inum].addrs[NDIRECT] != 0);
    }
  }

  lemma CopiedAt(off: nat, n: nat, readable: nat, tot: nat, m: nat)
    requires tot < n && m == Min(n - tot, Room(off + tot)) && (tot == 0 || (off + tot) % BSIZE == 0) && tot <= readable
    ensures if readable < tot + m then readable < n && Copied(off, n, readable) == tot
            else Copied(off, n, readable) >= tot + m
  {
    var q := (off + tot) / BSIZE;
    assert off + tot + Room(off + tot) == (q + 1) * BSIZE;
    if readable < tot + m {
      assert (off + readable) / BSIZE == q;
    } else if readable < n {
      assert (off + readable) / BSIZE >= q + 1;
    }
  }

  /** tot bytes are stored, in whole rounds, and the room that was left then has shrunk by
      just as much. */
  ghost predicate Underway(g: Geometry, v0: Vol, v: Vol, inum: nat, off: nat, n: nat, readable: nat, tot: nat) {
    && Sized(g, v0) && Sized(g, v) && inum < g.ninodes && off + n <= MAXFILE * BSIZE && tot <= n
    && RoomFor(g, v0, inum, off, n) == tot + RoomFor(g, v, inum, off + tot, n - tot)
    && tot <= readable && (tot == 0 || tot == n || (off + tot) % BSIZE == 0)
  }

  /** The loop has stopped after tot bytes. */
  ghost predicate Ended(g: Geometry, v0: Vol, v: Vol, inum: nat, off: nat, n: nat, readable: nat, tot: nat,
                        extra: nat) {
    && Sized(g, v0) && Sized(g, v) && inum < g.ninodes && off + n <= MAXFILE * BSIZE
    && tot == Count(off, n, readable, RoomFor(g, v0, inum, off, n))
    && extra == Rest(off, n, readable, RoomFor(g, v0, inum, off, n))
    && (tot == RoomFor(g, v0, inum, off, n) && tot < n ==> forall c :: 0 <= c < g.size ==> v.used[c])
  }

  /** The loop stops after tot bytes, for want of a block or because the next part cannot be
      read whole. */
  lemma StopAt(off: nat, n: nat, readable: nat, tot: nat, m: nat, room: nat)
    requires tot < n && m == Min(n - tot, Room(off + tot)) && (tot == 0 || (off + tot) % BSIZE == 0) && tot <= readable
    requires room == tot || (room >= tot + m && readable < tot + m)
    ensures Count(off, n, readable, room) == tot
    ensures Rest(off, n, readable, room) == if room == tot then 0 else readable - tot
  {
    CopiedAt(off, n, readable, tot, m);
  }

  lemma NextAligned(pos: nat, n: nat, m: nat)
    requires m == Min(n, Room(pos)) && m < n
    ensures (pos + m) % BSIZE == 0
  {
    assert pos + m == (pos / BSIZE + 1) * BSIZE;
  }

  lemma UnderwayNext(g: Geometry, v0: Vol, v1: Vol, v2: Vol, inum: nat, off: nat, n: nat, readable: nat, tot: nat,
                     part: Bytes, m: nat, extra: nat)
    requires Underway(g, v0, v1, inum, off, n, readable, tot) && tot < n && |part| == Min(n - tot, Room(off + tot))
    requires Chunked(g, v1, v2, inum, off + tot, part, if tot < readable then readable - tot else 0, m, extra)
    ensures if m > 0 then extra == 0 && Underway(g, v0, v2, inum, off, n, readable, tot + m)
            else Ended(g, v0, v2, inum, off, n, readable, tot, extra)
  {
    hide Progress, RoomFor, MapStep, Sized, Ptr, Count, Rest, Copied, Min, Room, Chunked;
    ChunkBounds(g, v1, v2, inum, off + tot, part, if tot < readable then readable - tot else 0, m, extra);
    var pos := off + tot;
    var b := Ptr(g, v2, SlotOf(inum, pos / BSIZE));
    RoomStep(g, v1, v2, inum, pos, n - tot, |part|);
    if b == 0 {
      MapStepFull(g, v1, v2, inum, pos / BSIZE);
      StopAt(off, n, readable, tot, |part|, RoomFor(g, v0, inum, off, n));
    } else if m == 0 {
      StopAt(off, n, readable, tot, |part|, RoomFor(g, v0, inum, off, n));
    } else if m < n - tot {
      NextAligned(pos, n - tot, m);
    }
  }

  lemma SizeBound(g: Geometry, v: Vol, inum: nat)
    requires Sized(g, v) && inum < g.ninodes
    ensures |v.inodes| == g.ninodes && v.inodes[inum].size <= MAXFILE * BSIZE
  {
  }

  lemma MapStepFull(g: Geometry, v: Vol, v': Vol, inum: nat, bn: nat)
    requires MapStep(g, v, v', inum, bn) && Ptr(g, v', SlotOf(inum, bn)) == 0
    ensures forall c :: 0 <= c < g.size ==> v'.used[c]
  {
    FullIff(g, v');
  }

  /** The state of writei's loop. */
  ghost predicate Looping(g: Geometry, v0: Vol, v: Vol, inum: nat, off: nat, src: Bytes, readable: nat, tot: nat,
                          before: set<LogBlock>, logged: set<LogBlock>, tally: Tally) {
    && Underway(g, v0, v, inum, off, |src|, readable, tot) && Progress(g, v0, v, inum, off, src[..tot])
    && off <= v0.inodes[inum].size && NoHoles(g, v0, inum)
    && TallyOk(tally, off, |src|, before, logged, IndirectLog(g, v, inum))
    && (tot < |src| ==> tot == Reached(off, tally.rounds))
  }

  /** ... and its end. */
  ghost predicate Looped(g: Geometry, v0: Vol, v: Vol, inum: nat, off: nat, src: Bytes, readable: nat, tot: nat,
                         extra: nat) {
    && Ended(g, v0, v, inum, off, |src|, readable, tot, extra) && tot + extra <= |src|
    && Progress(g, v0, v, inum, off, src[..tot + extra])
  }

  lemma LoopStart(g: Geometry, v: Vol, owner: map<nat, Slot>, inum: nat, off: nat, src: Bytes, readable: nat,
                  logged: set<LogBlock>)
    requires Owned(g, v, owner, {}) && inum < g.ninodes && Dense(g, v)
    requires off <= v.inodes[inum].size && off + |src| <= MAXFILE * BSIZE
    ensures Looping(g, v, v, inum, off, src, readable, 0, logged, logged, Tally(0, {}, {}))
  {
    hide Progress, NoHoles;
    ProgressNone(g, v, inum, off, src);
    TallyNone(off, |src|, logged, IndirectLog(g, v, inum));
  }

  lemma LoopEnd(g: Geometry, v0: Vol, v: Vol, inum: nat, off: nat, src: Bytes, readable: nat, tot: nat,
                before: set<LogBlock>, logged: set<LogBlock>, tally: Tally)
    requires Looping(g, v0, v, inum, off, src, readable, tot, before, logged, tally) && tot >= |src|
    ensures Looped(g, v0, v, inum, off, src, readable, tot, 0)
    ensures TallyOk(tally, off, |src|, before, logged, IndirectLog(g, v, inum))
  {
    hide Progress, NoHoles, TallyOk;
  }

  lemma PartFits(n: nat, room: nat)
    requires 0 < n && 0 < room
    ensures 0 < Min(n, room) <= room && Min(n, room) <= n
  {
  }

  lemma LoopBounds(g: Geometry, v0: Vol, v: Vol, inum: nat, off: nat, src: Bytes, readable: nat, tot: nat,
                   before: set<LogBlock>, logged: set<LogBlock>, tally: Tally)
    requires Looping(g, v0, v, inum, off, src, readable, tot, before, logged, tally)
    ensures inum < g.ninodes && off + |src| <= MAXFILE * BSIZE
  {
  }

  lemma ChunkBounds(g: Geometry, v0: Vol, v: Vol, inum: nat, pos: nat, part: Bytes, readable: nat, m: nat, extra: nat)
    requires Chunked(g, v0, v, inum, pos, part, readable, m, extra)
    ensures Sized(g, v0) && Sized(g, v) && inum < g.ninodes && pos + |part| <= MAXFILE * BSIZE && pos / BSIZE < MAXFILE
    ensures MapStep(g, v0, v, inum, pos / BSIZE) && 0 < |part|
    ensures m == (if Ptr(g, v, SlotOf(inum, pos / BSIZE)) != 0 && readable >= |part| then |part| else 0)
    ensures extra == (if Ptr(g, v, SlotOf(inum, pos / BSIZE)) != 0 && readable < |part| then readable else 0)
    ensures Progress(g, v0, v, inum, pos, part[..m + extra])
    ensures v0.inodes[inum].addrs[NDIRECT] != 0 ==> v.inodes[inum].addrs[NDIRECT] == v0.inodes[inum].addrs[NDIRECT]
  {
  }

  /** What is known once a round is over. */
  ghost predicate Rounded(g: Geometry, v0: Vol, v: Vol, inum: nat, off: nat, src: Bytes, readable: nat, tot: nat,
                          m: nat, extra: nat, before: set<LogBlock>, logged: set<LogBlock>, tally: Tally) {
    if m > 0 then extra == 0 && Looping(g, v0, v, inum, off, src, readable, tot + m, before, logged, tally)
    else && Looped(g, v0, v, inum, off, src, readable, tot, extra)
         && TallyOk(tally, off, |src|, before, logged, IndirectLog(g, v, inum))
  }

  lemma RoundNext(g: Geometry, v0: Vol, v1: Vol, v2: Vol, inum: nat, off: nat, src: Bytes, readable: nat, tot: nat,
                  part: Bytes, m: nat, extra: nat, before: set<LogBlock>, log1: set<LogBlock>, log2: set<LogBlock>,
                  tally: Tally)
    returns (tally': Tally)
    requires Looping(g, v0, v1, inum, off, src, readable, tot, before, log1, tally) && tot < |src|
    requires |part| == Min(|src| - tot, Room(off + tot)) && part == src[tot..tot + |part|]
    requires Chunked(g, v1, v2, inum, off + tot, part, if tot < readable then readable - tot else 0, m, extra)
    requires ChunkLogged(g, v1, v2, inum, off + tot, log1, log2)
    ensures Rounded(g, v0, v2, inum, off, src, readable, tot, m, extra, before, log2, tally')
  {
    hide Progress, NoHoles, TallyOk, Underway, Ended, ChunkLogged, Reached, Sized, Ptr, Room, Next, Chunked;
    LoopBounds(g, v0, v1, inum, off, src, readable, tot, before, log1, tally);
    ChunkBounds(g, v1, v2, inum, off + tot, part, if tot < readable then readable - tot else 0, m, extra);
    UnderwayNext(g, v0, v1, v2, inum, off, |src|, readable, tot, part, m, extra);
    ProgressNext(g, v0, v1, v2, inum, off, src, tot, tot + m + extra, part, m + extra);
    RoundTally(g, v0, v1, v2, inum, off, src, tot, part, before, log1, log2, tally);
    tally' := Next(g, tally, v1, v2, inum, off + tot);
  }

  lemma RoundTally(g: Geometry, v0: Vol, v1: Vol, v2: Vol, inum: nat, off: nat, src: Bytes, tot: nat, part: Bytes,
                   before: set<LogBlock>, log1: set<LogBlock>, log2: set<LogBlock>, tally: Tally)
    requires tot < |src| && off + |src| <= MAXFILE * BSIZE && Sized(g, v2)
    requires Progress(g, v0, v1, inum, off, src[..tot]) && NoHoles(g, v0, inum) && off <= v0.inodes[inum].size
    requires |part| == Min(|src| - tot, Room(off + tot)) && tot == Reached(off, tally.rounds)
    requires TallyOk(tally, off, |src|, before, log1, IndirectLog(g, v1, inum))
    requires v1.inodes[inum].addrs[NDIRECT] != 0 ==> v2.inodes[inum].addrs[NDIRECT] == v1.inodes[inum].addrs[NDIRECT]
    requires ChunkLogged(g, v1, v2, inum, off + tot, log1, log2)
    ensures var tally' := Next(g, tally, v1, v2, inum, off + tot);
            && TallyOk(tally', off, |src|, before, log2, IndirectLog(g, v2, inum))
            && (tot + |part| < |src| ==> tot + |part| == Reached(off, tally'.rounds))
  {
    hide TallyOk, Rewritten, KeepsFile, NoHoles, IndirectLog, ChunkLog, Reached;
    FirstRoundNotFresh(g, v0, v1, inum, off, src, tot);
    ReachedNext(off, tally.rounds, tot, |part|, |src|);
    TallyNext(g, tally, off, |src|, tot, before, log1, log2, v1, v2, inum);
  }

  /** File inum has data stored at pos so far, every other file is untouched, and no size
      has changed yet. */
  ghost predicate Progress(g: Geometry, v0: Vol, v: Vol, inum: nat, pos: nat, data: Bytes) {
    && Sized(g, v0) && Sized(g, v) && inum < g.ninodes
    && v.inodes[inum].size == v0.inodes[inum].size
    && (forall i :: 0 <= i < g.ninodes && i != inum ==> v.inodes[i] == v0.inodes[i] && KeepsFile(g, v0, v, i))
    && Rewritten(g, v0, v, inum, pos, data)
  }

  lemma ProgressNone(g: Geometry, v: Vol, inum: nat, off: nat, src: Bytes)
    requires Sized(g, v) && inum < g.ninodes
    ensures Progress(g, v, v, inum, off, src[..0])
  {
    KeptIsRewritten(g, v, v, inum, off);
    assert src[..0] == [];
  }

  lemma TallyNone(off: nat, n: nat, logged: set<LogBlock>, ind: set<LogBlock>)
    ensures TallyOk(Tally(0, {}, {}), off, n, logged, logged, ind)
  {
  }

  lemma ProgressNext(g: Geometry, v0: Vol, v1: Vol, v2: Vol, inum: nat, off: nat, src: Bytes,
                     tot: nat, tot': nat, part: Bytes, m: nat)
    requires tot' == tot + m && tot + |part| <= |src| && part == src[tot..tot + |part|] && m <= |part|
    requires Progress(g, v0, v1, inum, off, src[..tot]) && Progress(g, v1, v2, inum, off + tot, part[..m])
    ensures Progress(g, v0, v2, inum, off, src[..tot'])
  {
    assert src[..tot] + part[..m] == src[..tot'];
    ProgressTrans(g, v0, v1, v2, inum, off, src[..tot], part[..m]);
  }

  lemma ProgressTrans(g: Geometry, v0: Vol, v1: Vol, v2: Vol, inum: nat, pos: nat, a: Bytes, b: Bytes)
    requires Progress(g, v0, v1, inum, pos, a) && Progress(g, v1, v2, inum, pos + |a|, b)
    ensures Progress(g, v0, v2, inum, pos, a + b)
  {
    RewrittenTrans(g, v0, v1, v2, inum, pos, a, b);
    forall i | 0 <= i < g.ninodes && i != inum
      ensures KeepsFile(g, v0, v2, i)
    {
      KeepsTrans(g, v0, v1, v2, i);
    }
  }

  /** The block under an unaligned offset at or below the end of the file is mapped. */
  lemma FirstRoundNotFresh(g: Geometry, v0: Vol, v: Vol, inum: nat, off: nat, src: Bytes, tot: nat)
    requires Sized(g, v0) && Sized(g, v) && inum < g.ninodes && NoHoles(g, v0, inum) && off <= v0.inodes[inum].size
    requires tot <= |src| && Rewritten(g, v0, v, inum, off, src[..tot])
    ensures off % BSIZE > 0 && tot == 0 ==> Ptr(g, v, SlotOf(inum, off / BSIZE)) != 0
  {
    if off % BSIZE > 0 && tot == 0 {
      assert off / BSIZE * BSIZE < v0.inodes[inum].size;
      assert (off - 1) / BSIZE == off / BSIZE;
      assert Ptr(g, v0, SlotOf(inum, (off - 1) / BSIZE)) != 0;
    }
  }

  lemma ReachedNext(off: nat, rounds: nat, tot: nat, m: nat, n: nat)
    requires tot < n && tot == Reached(off, rounds) && m == Min(n - tot, Room(off + tot))
    ensures tot + m < n ==> tot + m == Reached(off, rounds + 1)
    ensures n <= 3 * BSIZE ==> rounds <= 2 || (rounds == 3 && off % BSIZE > 0)
  {
    if rounds > 0 {
      assert (off + tot) % BSIZE == 0 by {
        assert off + tot == (off / BSIZE + rounds) * BSIZE;
      }
    }
  }

  lemma LogBound(before: set<LogBlock>, logged: set<LogBlock>, data: set<LogBlock>, maps: set<LogBlock>,
                 ind: set<LogBlock>, inode: set<LogBlock>)
    requires logged <= before + data + maps + ind + inode
    ensures before == {} ==> |logged| <= |data| + |maps| + |ind| + |inode|
  {
    if before == {} {
      var all := data + maps + ind + inode;
      Sequences.SubsetCount(logged, all);
      assert |data + maps| <= |data| + |maps|;
      assert |data + maps + ind| <= |data + maps| + |ind|;
      assert |all| <= |data + maps + ind| + |inode|;
    }
  }

  /** The stored range starts at or below the end of the file, so the new size leaves no
      hole and the contents are the old ones with the range replaced, up to the new end. */
  lemma EndWrite(g: Geometry, v0: Vol, v: Vol, owner: map<nat, Slot>, inum: nat, off: nat, data: Bytes, tot: nat)
    requires Sized(g, v0) && Dense(g, v0) && Owned(g, v, owner, {}) && Dense(g, v) && inum < g.ninodes
    requires Progress(g, v0, v, inum, off, data)
    requires off <= v0.inodes[inum].size && off + |data| <= MAXFILE * BSIZE && tot <= |data|
    ensures var v' := Extended(v, inum, off + tot);
            && Owned(g, v', owner, {}) && Dense(g, v')
            && Content(g, v', inum) == Spilled(Content(g, v0, inum), off, data, tot)
            && OthersSame(g, v0, v', inum)
  {
    var v' := Extended(v, inum, off + tot);
    SizeKeeps(g, v, v', owner, inum);
    forall i | 0 <= i < g.ninodes && i != inum
      ensures NoHoles(g, v', i) && Content(g, v', i) == Content(g, v0, i)
    {
      assert NoHoles(g, v0, i);
      KeepsContent(g, v0, v, i);
      KeepsContent(g, v, v', i);
    }
    EndWriteFile(g, v0, v, v', inum, off, data, tot);
  }

  /** Changing a size changes no pointer. */
  lemma SizeKeeps(g: Geometry, v: Vol, v': Vol, owner: map<nat, Slot>, inum: nat)
    requires Owned(g, v, owner, {}) && inum < g.ninodes
    requires |v'.inodes| == g.ninodes && v'.inodes[inum].size <= MAXFILE * BSIZE
    requires v' == WithSize(v, inum, v'.inodes[inum].size)
    ensures Owned(g, v', owner, {})
    ensures forall t :: IsSlot(g, t) ==> Ptr(g, v', t) == Ptr(g, v, t)
    ensures forall i :: 0 <= i < g.ninodes && i != inum ==> KeepsFile(g, v, v', i)
    ensures forall p :: 0 <= p < MAXFILE * BSIZE ==> ByteAt(g, v', inum, p) == ByteAt(g, v, inum, p)
  {
    forall t | IsSlot(g, t)
      ensures Ptr(g, v', t) == Ptr(g, v, t)
    {
    }
    forall i, bn | 0 <= i < g.ninodes && 0 <= bn < MAXFILE
      ensures Ptr(g, v', SlotOf(i, bn)) == Ptr(g, v, SlotOf(i, bn))
    {
      assert IsSlot(g, SlotOf(i, bn));
    }
  }

  lemma EndWriteFile(g: Geometry, v0: Vol, v: Vol, v': Vol, inum: nat, off: nat, data: Bytes, tot: nat)
    requires Sized(g, v0) && Sized(g, v) && Sized(g, v') && inum < g.ninodes && NoHoles(g, v0, inum)
    requires Rewritten(g, v0, v, inum, off, data)
    requires off <= v0.inodes[inum].size && tot <= |data|
    requires v'.inodes[inum].size == if off + tot > v0.inodes[inum].size then off + tot else v0.inodes[inum].size
    requires forall t :: IsSlot(g, t) ==> Ptr(g, v', t) == Ptr(g, v, t)
    requires forall p :: 0 <= p < MAXFILE * BSIZE ==> ByteAt(g, v', inum, p) == ByteAt(g, v, inum, p)
    ensures NoHoles(g, v', inum) && Content(g, v', inum) == Spilled(Content(g, v0, inum), off, data, tot)
  {
    hide Ptr, ByteAt;
    forall bn | 0 <= bn * BSIZE < v'.inodes[inum].size
      ensures Ptr(g, v', SlotOf(inum, bn)) != 0
    {
      assert IsSlot(g, SlotOf(inum, bn));
      assert bn * BSIZE / BSIZE == bn;
    }
    forall p | 0 <= p < v'.inodes[inum].size
      ensures ByteAt(g, v', inum, p) == Overwritten(Content(g, v0, inum), off, data)[p]
    {
      assert p < v0.inodes[inum].size ==> p / BSIZE * BSIZE < v0.inodes[inum].size;
    }
  }

  /** Every file but inum has the same inode and bytes. */
  ghost predicate OthersSame(g: Geometry, v0: Vol, v: Vol, inum: nat)
    requires Sized(g, v0) && Sized(g, v)
  {
    forall i :: 0 <= i < g.ninodes && i != inum ==> v.inodes[i] == v0.inodes[i] && Content(g, v, i) == Content(g, v0, i)
  }

  lemma OthersSelf(g: Geometry, v: Vol, inum: nat)
    requires Sized(g, v)
    ensures OthersSame(g, v, v, inum)
  {
  }

  lemma OthersTrans(g: Geometry, v0: Vol, v1: Vol, v2: Vol, inum: nat)
    requires Sized(g, v0) && Sized(g, v1) && Sized(g, v2) && OthersSame(g, v0, v1, inum) && OthersSame(g, v1, v2, inum)
    ensures OthersSame(g, v0, v2, inum)
  {
  }

  /** Bytes stored after some full rounds starting at off. */
  function Reached(off: nat, rounds: nat): int {
    if rounds == 0 then 0 else rounds * BSIZE - off % BSIZE
  }

  /** A file's contents with data stored at off. */
  function Overwritten(was: Bytes, off: nat, data: Bytes): (r: Bytes)
    requires off <= |was|
    ensures |r| == if off + |data| > |was| then off + |data| else |was|
  {
    was[..off] + data + if off + |data| < |was| then was[off + |data|..] else []
  }

  /** if(off > ip->size) ip->size = off */
  function Extended(v: Vol, inum: nat, off: nat): Vol
    requires inum < |v.inodes|
  {
    WithSize(v, inum, if off > v.inodes[inum].size then off else v.inodes[inum].size)
  }

  /** Where writing n bytes at off of a file of the given size may stop: after done bytes,
      with some more left behind only when the source becomes unreadable after those. */
  predicate Leftover(size: nat, off: nat, n: nat, readable: nat, done: nat, extra: nat) {
    && done + extra <= n && (off > size ==> done + extra == 0)
    && (extra > 0 ==> done + extra == readable < n)
  }

  /** Why not all of n bytes can be written at off. */
  ghost predicate CannotWrite(g: Geometry, v: Vol, size: nat, off: nat, n: nat, readable: nat) {
    || readable < n || off > size || off + n > MAXFILE * BSIZE
    || (|v.used| == g.size && forall c :: 0 <= c < g.size ==> v.used[c])
  }

  /** What writei may do. */
  ghost predicate Transacted(g: Geometry, v0: Vol, v: Vol, inum: nat, pos: nat, part: Bytes, readable: nat, k: int,
                             extra: nat) {
    && Sized(g, v0) && Sized(g, v) && inum < g.ninodes
    && (if k == -1 then v == v0 && (pos > v0.inodes[inum].size || pos + |part| > MAXFILE * BSIZE)
        else && 0 <= k <= |part| && Wrote(g, v0, v, inum, pos, part, readable, k, extra)
             && (k < |part| ==> readable < |part| || forall c :: 0 <= c < g.size ==> v.used[c]))
    && OthersSame(g, v0, v, inum)
  }

  /** One transaction of a longer write. */
  lemma TransactionStep(g: Geometry, v0: Vol, v: Vol, inum: nat, was: Bytes, off: nat, src: Bytes, i: nat, part: Bytes,
                        readable: nat, k: int, extra: nat)
    requires Sized(g, v0) && inum < g.ninodes && 0 < |part| && i + |part| <= |src| && part == src[i..i + |part|]
    requires (off > |was| ==> i == 0) && Content(g, v0, inum) == After(was, off, src, i, 0) && (k < 0 ==> extra == 0)
    requires Transacted(g, v0, v, inum, off + i, part, if readable < i then 0 else readable - i, k, extra)
    ensures var i' := if k < 0 then i else i + k;
            && Sized(g, v) && i' <= i + |part| && Leftover(|was|, off, |src|, readable, i', extra)
            && Content(g, v, inum) == After(was, off, src, i', extra)
            && (k == |part| ==> extra == 0) && (k < |part| ==> CannotWrite(g, v, |was|, off, |src|, readable))
            && (off + i < UINT ==> off + i' < UINT)
  {
    assert |v.used| == g.size && v.inodes[inum].size <= MAXFILE * BSIZE;
    hide Sized, Wrote, Content;
    if k >= 0 {
      WroteAfter(g, v0, v, inum, was, off, src, i, part, readable, k, extra);
    } else {
      LeftoverIs(|was|, off, |src|, readable, i, |part|, 0, 0);
      Refused(g, v, was, off, src, readable, i, |part|);
    }
  }

  /** filewrite has stored done bytes of src at off, and perhaps left some more behind. */
  ghost predicate FileAt(g: Geometry, v0: Vol, v: Vol, inum: nat, off: nat, src: Bytes, readable: nat, done: nat,
                         extra: nat) {
    && Sized(g, v0) && Sized(g, v) && inum < g.ninodes
       && Leftover(v0.inodes[inum].size, off, |src|, readable, done, extra)
    && Content(g, v, inum) == After(Content(g, v0, inum), off, src, done, extra) && OthersSame(g, v0, v, inum)
  }

  lemma FileAtMeans(g: Geometry, v0: Vol, v: Vol, inum: nat, off: nat, src: Bytes, readable: nat, done: nat, extra: nat)
    requires FileAt(g, v0, v, inum, off, src, readable, done, extra)
    ensures Sized(g, v0) && Sized(g, v) && inum < g.ninodes
            && Leftover(v0.inodes[inum].size, off, |src|, readable, done, extra)
    ensures Content(g, v, inum) == After(Content(g, v0, inum), off, src, done, extra) && OthersSame(g, v0, v, inum)
  {
  }

  lemma FileAtStart(g: Geometry, v: Vol, owner: map<nat, Slot>, inum: nat, off: nat, src: Bytes, readable: nat)
    requires Owned(g, v, owner, {}) && inum < g.ninodes
    ensures FileAt(g, v, v, inum, off, src, readable, 0, 0)
  {
    NothingWritten(Content(g, v, inum), off, src, readable);
    OthersSelf(g, v, inum);
  }

  lemma FileAtNext(g: Geometry, v0: Vol, v1: Vol, v2: Vol, inum: nat, off: nat, src: Bytes, i: nat, part: Bytes,
                   readable: nat, k: int, extra: nat)
    requires 0 < |part| && i + |part| <= |src| && part == src[i..i + |part|] && off + i < UINT && (k < 0 ==> extra == 0)
    requires FileAt(g, v0, v1, inum, off, src, readable, i, 0)
    requires Transacted(g, v1, v2, inum, off + i, part, if readable < i then 0 else readable - i, k, extra)
    ensures var i' := if k < 0 then i else i + k;
            && FileAt(g, v0, v2, inum, off, src, readable, i', extra) && i' <= i + |part| && off + i' < UINT
            && (k == |part| ==> extra == 0)
               && (k < |part| ==> CannotWrite(g, v2, v0.inodes[inum].size, off, |src|, readable))
  {
    hide Sized, Content, OthersSame, After, Leftover, Wrote, CannotWrite;
    FileAtMeans(g, v0, v1, inum, off, src, readable, i, 0);
    assert off > |Content(g, v0, inum)| ==> i == 0 by {
      LeftoverNone(|Content(g, v0, inum)|, off, |src|, readable, i);
    }
    TransactionStep(g, v1, v2, inum, Content(g, v0, inum), off, src, i, part, readable, k, extra);
    OthersTrans(g, v0, v1, v2, inum);
  }

  lemma LeftoverNone(size: nat, off: nat, n: nat, readable: nat, i: nat)
    requires Leftover(size, off, n, readable, i, 0)
    ensures off > size ==> i == 0
  {
  }

  lemma NothingWritten(was: Bytes, off: nat, src: Bytes, readable: nat)
    ensures After(was, off, src, 0, 0) == was && Leftover(|was|, off, |src|, readable, 0, 0)
  {
  }

  lemma Refused(g: Geometry, v: Vol, was: Bytes, off: nat, src: Bytes, readable: nat, i: nat, n1: nat)
    requires i + n1 <= |src| && (off > |was| ==> i == 0)
    requires off + i > |After(was, off, src, i, 0)| || off + i + n1 > MAXFILE * BSIZE
    ensures CannotWrite(g, v, |was|, off, |src|, readable)
  {
  }

  lemma LeftoverIs(size: nat, off: nat, n: nat, readable: nat, i: nat, n1: nat, k: nat, extra: nat)
    requires i + n1 <= n && k + extra <= n1 && (off > size ==> i + k + extra == 0)
    requires extra > 0 ==> k + extra == (if readable < i then 0 else readable - i) < n1
    ensures Leftover(size, off, n, readable, i + k, extra) && (k == n1 ==> extra == 0)
  {
  }

  /** r bytes of src are in file inum at off, and perhaps some more of it after them. */
  ghost predicate Wrote(g: Geometry, v0: Vol, v: Vol, inum: nat, off: nat, src: Bytes, readable: nat, r: nat,
                        extra: nat) {
    && Sized(g, v0) && Sized(g, v) && inum < g.ninodes && off <= v0.inodes[inum].size
    && r + extra <= |src| && (extra > 0 ==> r + extra == readable < |src|)
    && Content(g, v, inum) == Spilled(Content(g, v0, inum), off, src[..r + extra], r)
  }

  /** ... as a part of a longer write. */
  lemma WroteAfter(g: Geometry, v0: Vol, v: Vol, inum: nat, was: Bytes, off: nat, src: Bytes, i: nat, part: Bytes,
                   readable: nat, k: nat, extra: nat)
    requires Sized(g, v0) && inum < g.ninodes && i + |part| <= |src| && part == src[i..i + |part|]
    requires (off > |was| ==> i == 0) && Content(g, v0, inum) == After(was, off, src, i, 0)
    requires Wrote(g, v0, v, inum, off + i, part, if readable < i then 0 else readable - i, k, extra)
    ensures Sized(g, v) && Leftover(|was|, off, |src|, readable, i + k, extra) && k <= |part|
            && (k == |part| ==> extra == 0)
    ensures Content(g, v, inum) == After(was, off, src, i + k, extra)
  {
    hide Sized;
    LeftoverIs(|was|, off, |src|, readable, i, |part|, k, extra);
    SpillAfter(was, off, src, i, k, extra, part);
  }

  /** A file's contents with data stored at off, but with a size that counts only the first
      n bytes of it. */
  function Spilled(was: Bytes, off: nat, data: Bytes, n: nat): (r: Bytes)
    requires off <= |was| && n <= |data|
    ensures |r| == if off + n > |was| then off + n else |was|
  {
    Overwritten(was, off, data)[..if off + n > |was| then off + n else |was|]
  }

  /** A write that reports n bytes has changed just those exactly when what copyin left
      behind after them lies past the end of the file or is what was there. */
  lemma SpillsNothingIff(was: Bytes, off: nat, data: Bytes, n: nat)
    requires off <= |was| && n <= |data|
    ensures Spilled(was, off, data, n) == Overwritten(was, off, data[..n])
            <==> forall i :: n <= i < |data| && off + i < |was| ==> data[i] == was[off + i]
  {
    var a, b := Spilled(was, off, data, n), Overwritten(was, off, data[..n]);
    if a == b {
      forall i | n <= i < |data| && off + i < |was|
        ensures data[i] == was[off + i]
      {
        assert a[off + i] == data[i] && b[off + i] == was[off + i];
      }
    }
    if forall i :: n <= i < |data| && off + i < |was| ==> data[i] == was[off + i] {
      forall p | 0 <= p < |a|
        ensures a[p] == b[p]
      {
        if n <= p - off < |data| {
          assert data[p - off] == was[p];
        }
      }
    }
  }

  /** When writei changes just the bytes it counts: the source can be read whole, it ends at
      a block boundary, the disk is full before, what it leaves behind starts at the end of
      the file or is what was there. */
  predicate WritesCountOnly(was: Bytes, off: nat, src: Bytes, readable: nat, room: nat) {
    var done := Copied(off, |src|, readable);
    || readable >= |src| || (off + readable) % BSIZE == 0 || room <= done || off + done >= |was|
    || forall i :: done <= i < readable && off + i < |was| ==> src[i] == was[off + i]
  }

  lemma WriteExactIff(was: Bytes, off: nat, src: Bytes, readable: nat, room: nat)
    requires off <= |was| && room <= |src|
    ensures var r, extra := Count(off, |src|, readable, room), Rest(off, |src|, readable, room);
            && r + extra <= |src| && (extra > 0 ==> r + extra == readable < |src|)
            && (Spilled(was, off, src[..r + extra], r) == Overwritten(was, off, src[..r])
                <==> WritesCountOnly(was, off, src, readable, room))
  {
    var r, extra := Count(off, |src|, readable, room), Rest(off, |src|, readable, room);
    SpillsNothingIff(was, off, src[..r + extra], r);
    assert src[..r + extra][..r] == src[..r];
    if readable < |src| && (off + readable) % BSIZE == 0 {
      assert (off + readable) / BSIZE * BSIZE == off + readable;
    }
  }

  lemma WroteExactly(g: Geometry, v0: Vol, v: Vol, inum: nat, off: nat, src: Bytes, readable: nat, r: nat, extra: nat)
    requires Wrote(g, v0, v, inum, off, src, readable, r, extra) && off + |src| <= MAXFILE * BSIZE
    requires r == Count(off, |src|, readable, RoomFor(g, v0, inum, off, |src|))
    requires extra == Rest(off, |src|, readable, RoomFor(g, v0, inum, off, |src|))
    ensures Sized(g, v0) && Sized(g, v) && inum < g.ninodes && off <= |Content(g, v0, inum)| && r <= |src|
    ensures Content(g, v, inum) == Overwritten(Content(g, v0, inum), off, src[..r])
            <==> WritesCountOnly(Content(g, v0, inum), off, src, readable, RoomFor(g, v0, inum, off, |src|))
  {
    hide Spilled, Overwritten, Count, Rest, RoomFor, WritesCountOnly;
    WriteExactIff(Content(g, v0, inum), off, src, readable, RoomFor(g, v0, inum, off, |src|));
  }

  /** Overwriting what the file already has needs no room. */
  lemma {:induction false} RoomInside(g: Geometry, v: Vol, inum: nat, pos: nat, n: nat, free: nat, ind: bool)
    requires Sized(g, v) && inum < g.ninodes && NoHoles(g, v, inum) && pos + n <= v.inodes[inum].size
    ensures RoomFrom(g, v, inum, pos, n, free, ind) == n
    decreases n
  {
    hide Ptr, Sized;
    SizeBound(g, v, inum);
    if n > 0 {
      var bn, m := pos / BSIZE, Min(n, Room(pos));
      assert 0 <= bn * BSIZE < v.inodes[inum].size;
      RoomInside(g, v, inum, pos + m, n - m, free, ind || bn >= NDIRECT);
    }
  }

  /** Two bytes over the start of a one-block file, of which one can be read: writei reports
      none, and yet the file's first byte is the new one. */
  lemma UncountedByte(g: Geometry, v: Vol, owner: map<nat, Slot>, inum: nat, src: Bytes)
    requires Owned(g, v, owner, {}) && Dense(g, v) && inum < g.ninodes && v.inodes[inum].size == BSIZE && |src| == 2
    requires src[0] != Content(g, v, inum)[0]
    ensures var was, room := Content(g, v, inum), RoomFor(g, v, inum, 0, 2);
            && Count(0, 2, 1, room) == 0 && Rest(0, 2, 1, room) == 1
            && Spilled(was, 0, src[..1], 0)[0] == src[0] && !WritesCountOnly(was, 0, src, 1, room)
  {
    assert NoHoles(g, v, inum);
    RoomInside(g, v, inum, 0, 2, |FreeBlocks(g, v)|, v.inodes[inum].addrs[NDIRECT] != 0);
    assert !WritesCountOnly(Content(g, v, inum), 0, src, 1, RoomFor(g, v, inum, 0, 2)) by {
      assert src[0] != Content(g, v, inum)[0 + 0];
    }
  }

  /** A disk of three blocks with a file of one block of zeros. */
  method ZeroFile() returns (fs: Fs)
    ensures fresh(fs) && fs.Valid() && fs.g == Geometry(3, 1, 1) && Content(fs.g, fs.v, 0) == Zeros(BSIZE)
  {
    hide RoomFor, WritesCountOnly, Owned, Dense, Content, ByteAt, OthersSame;
    fs := new Fs(Geometry(3, 1, 1));
    RoomOnEmpty(fs.g, fs.v);
    var r, _ := fs.Writei(0, 0, Zeros(BSIZE), BSIZE);
    assert Zeros(BSIZE)[..BSIZE] == Zeros(BSIZE);
  }

  /** The same run from an empty disk. */
  method UncountedByteRun() returns (fs: Fs, r: int)
    ensures fresh(fs) && fs.Valid() && r == 0 && 0 < fs.g.ninodes
    ensures Content(fs.g, fs.v, 0) == Zeros(BSIZE)[0 := 1]
  {
    hide RoomFor, WritesCountOnly, Dense, Content, ByteAt, OthersSame, Count, Rest;
    fs := ZeroFile();
    assert fs.v.inodes[0].size == |Content(fs.g, fs.v, 0)|;
    UncountedByte(fs.g, fs.v, fs.owner, 0, [1, 1]);
    ghost var extra;
    r, extra := fs.Writei(0, 0, [1, 1], 1);
  }

  lemma RoomOnEmpty(g: Geometry, v: Vol)
    requires g == Geometry(3, 1, 1) && v == EmptyVol(g) && Sized(g, v)
    ensures Content(g, v, 0) == [] && RoomFor(g, v, 0, 0, BSIZE) == BSIZE
  {
    assert 2 in FreeBlocks(g, v);
    assert RoomFrom(g, v, 0, BSIZE, 0, |FreeBlocks(g, v)| - 1, false) == 0;
  }

  /** The file after the first n bytes of src are stored at off, and `extra` more left
      behind. */
  function After(was: Bytes, off: nat, src: Bytes, n: nat, extra: nat): Bytes
    requires (off > |was| ==> n + extra == 0) && n + extra <= |src|
  {
    if n + extra == 0 then was else Spilled(was, off, src[..n + extra], n)
  }

  lemma SpillAfter(was: Bytes, off: nat, src: Bytes, i: nat, r: nat, extra: nat, part: Bytes)
    requires off <= |was| && i + |part| <= |src| && part == src[i..i + |part|] && r + extra <= |part|
    ensures Spilled(After(was, off, src, i, 0), off + i, part[..r + extra], r) == After(was, off, src, i + r, extra)
  {
    hide Overwritten;
    var n := r + extra;
    SpillNone(was, off, src[..i]);
    OverwriteNothing(was, off, src);
    OverwriteOnto(was, off, src[..i], part[..n]);
    assert src[..i] + part[..n] == src[..i + n];
  }

  lemma SpillNone(was: Bytes, off: nat, data: Bytes)
    requires off <= |was|
    ensures Spilled(was, off, data, |data|) == Overwritten(was, off, data)
  {
  }

  lemma OverwriteNothing(was: Bytes, off: nat, src: Bytes)
    requires off <= |was|
    ensures Overwritten(was, off, src[..0]) == was
  {
  }

  lemma OverwriteOnto(was: Bytes, off: nat, a: Bytes, b: Bytes)
    requires off <= |was|
    ensures Overwritten(Overwritten(was, off, a), off + |a|, b) == Overwritten(was, off, a + b)
  {
  }

  function WithSize(v: Vol, inum: nat, size: nat): Vol
    requires inum < |v.inodes|
  {
    v.(inodes := v.inodes[inum := v.inodes[inum].(size := size)])
  }

  /** Blocks one round logs: the data block, and its bitmap block when it is new. */
  ghost function ChunkLog(g: Geometry, v0: Vol, v: Vol, inum: nat, pos: nat): set<LogBlock>
    requires Sized(g, v0) && Sized(g, v) && inum < g.ninodes && pos < MAXFILE * BSIZE
  {
    var b := Ptr(g, v, SlotOf(inum, pos / BSIZE));
    {DataBlock(b)} + if Ptr(g, v0, SlotOf(inum, pos / BSIZE)) == 0 then {BitmapBlock(b / BPB)} else {}
  }

  /** File inum in v is file inum in v0 with `data` stored at pos: every byte that was
      mapped, or is in the stored range, is mapped and holds what it should. */
  ghost predicate Rewritten(g: Geometry, v0: Vol, v: Vol, inum: nat, pos: nat, data: Bytes)
    requires Sized(g, v0) && Sized(g, v) && inum < g.ninodes
  {
    forall p :: 0 <= p < MAXFILE * BSIZE && (Ptr(g, v0, SlotOf(inum, p / BSIZE)) != 0 || pos <= p < pos + |data|)
                ==> Ptr(g, v, SlotOf(inum, p / BSIZE)) != 0
                    && ByteAt(g, v, inum, p) == if pos <= p < pos + |data| then data[p - pos]
                                                else ByteAt(g, v0, inum, p)
  }

  lemma KeptIsRewritten(g: Geometry, v0: Vol, v: Vol, inum: nat, pos: nat)
    requires Sized(g, v0) && Sized(g, v) && inum < g.ninodes && KeepsFile(g, v0, v, inum)
    ensures Rewritten(g, v0, v, inum, pos, [])
  {
    forall p | 0 <= p < MAXFILE * BSIZE && Ptr(g, v0, SlotOf(inum, p / BSIZE)) != 0
      ensures Ptr(g, v, SlotOf(inum, p / BSIZE)) != 0 && ByteAt(g, v, inum, p) == ByteAt(g, v0, inum, p)
    {
      assert p / BSIZE < MAXFILE;
    }
  }

  /** Storing into one file's data block leaves the volume in order and every other file
      alone. */
  lemma StoreFrame(g: Geometry, v: Vol, owner: map<nat, Slot>, b: nat, o: nat, data: Bytes)
    requires Owned(g, v, owner, {}) && Dense(g, v) && b in owner && !owner[b].Indirect? && o + |data| <= BSIZE
    ensures var v' := Stored(v, b, o, data);
            && Owned(g, v', owner, {}) && Dense(g, v')
            && forall i :: 0 <= i < g.ninodes && i != owner[b].inum ==> KeepsFile(g, v, v', i)
  {
    var v' := Stored(v, b, o, data);
    StoreKeeps(g, v, owner, b, o, data);
    forall i | 0 <= i < g.ninodes && i != owner[b].inum
      ensures KeepsFile(g, v, v', i)
    {
      forall bn | 0 <= bn < MAXFILE && Ptr(g, v, SlotOf(i, bn)) != 0
        ensures Ptr(g, v, SlotOf(i, bn)) != b && Ptr(g, v', SlotOf(i, bn)) == Ptr(g, v, SlotOf(i, bn))
      {
        assert IsSlot(g, SlotOf(i, bn));
      }
    }
    forall i | 0 <= i < g.ninodes
      ensures NoHoles(g, v', i)
    {
      assert NoHoles(g, v, i);
      forall bn | 0 <= bn * BSIZE < v'.inodes[i].size
        ensures Ptr(g, v', SlotOf(i, bn)) != 0
      {
        assert IsSlot(g, SlotOf(i, bn));
      }
    }
  }

  lemma StoredByte(g: Geometry, v0: Vol, v1: Vol, owner: map<nat, Slot>, inum: nat, pos: nat, part: Bytes, p: nat)
    requires Sized(g, v0) && Owned(g, v1, owner, {}) && inum < g.ninodes && KeepsFile(g, v0, v1, inum)
    requires 0 < |part| <= Room(pos) && pos + |part| <= MAXFILE * BSIZE && p < MAXFILE * BSIZE
    requires Ptr(g, v1, SlotOf(inum, pos / BSIZE)) != 0
    requires Ptr(g, v0, SlotOf(inum, p / BSIZE)) != 0 || pos <= p < pos + |part|
    ensures Sized(g, v1) && Ptr(g, v1, SlotOf(inum, pos / BSIZE)) < g.size && Ptr(g, v1, SlotOf(inum, p / BSIZE)) != 0
    ensures var v2 := Stored(v1, Ptr(g, v1, SlotOf(inum, pos / BSIZE)), pos % BSIZE, part);
            && Sized(g, v2)
            && ByteAt(g, v2, inum, p) == if pos <= p < pos + |part| then part[p - pos] else ByteAt(g, v0, inum, p)
  {
    hide Word;
    var bn := pos / BSIZE;
    assert pos <= p < pos + |part| ==> p / BSIZE == bn;
    assert IsSlot(g, SlotOf(inum, bn)) && IsSlot(g, SlotOf(inum, p / BSIZE));
    assert pos == bn * BSIZE + pos % BSIZE;
    StoreBytes(g, v1, owner, inum, bn, pos % BSIZE, part, p);
  }

  lemma StoreRewrites(g: Geometry, v0: Vol, v1: Vol, owner: map<nat, Slot>, inum: nat, pos: nat, part: Bytes)
    requires Sized(g, v0) && Owned(g, v1, owner, {}) && inum < g.ninodes && KeepsFile(g, v0, v1, inum)
    requires 0 < |part| <= Room(pos) && pos + |part| <= MAXFILE * BSIZE && Ptr(g, v1, SlotOf(inum, pos / BSIZE)) != 0
    ensures var b := Ptr(g, v1, SlotOf(inum, pos / BSIZE));
            b < g.size && Sized(g, Stored(v1, b, pos % BSIZE, part))
            && Rewritten(g, v0, Stored(v1, b, pos % BSIZE, part), inum, pos, part)
  {
    hide KeepsFile, Ptr, Word, ByteAt;
    var bn := pos / BSIZE;
    var b := Ptr(g, v1, SlotOf(inum, bn));
    assert IsSlot(g, SlotOf(inum, bn)) && b in owner && owner[b] == SlotOf(inum, bn);
    var v2 := Stored(v1, b, pos % BSIZE, part);
    StoreKeeps(g, v1, owner, b, pos % BSIZE, part);
    forall p | 0 <= p < MAXFILE * BSIZE && (Ptr(g, v0, SlotOf(inum, p / BSIZE)) != 0 || pos <= p < pos + |part|)
      ensures Ptr(g, v2, SlotOf(inum, p / BSIZE)) != 0
      ensures ByteAt(g, v2, inum, p) == if pos <= p < pos + |part| then part[p - pos] else ByteAt(g, v0, inum, p)
    {
      assert IsSlot(g, SlotOf(inum, p / BSIZE));
      StoredByte(g, v0, v1, owner, inum, pos, part, p);
    }
  }

  /** One store into the block under pos. */
  lemma StoreInBlock(g: Geometry, v0: Vol, v1: Vol, owner: map<nat, Slot>, inum: nat, pos: nat, part: Bytes)
    requires Sized(g, v0) && Owned(g, v1, owner, {}) && Dense(g, v1) && inum < g.ninodes && 0 < |part| <= Room(pos)
             && pos + |part| <= MAXFILE * BSIZE
    requires v1.inodes[inum].size == v0.inodes[inum].size && KeepsFile(g, v0, v1, inum)
    requires forall i :: 0 <= i < g.ninodes && i != inum ==> v1.inodes[i] == v0.inodes[i] && KeepsFile(g, v0, v1, i)
    requires Ptr(g, v1, SlotOf(inum, pos / BSIZE)) != 0
    ensures var b := Ptr(g, v1, SlotOf(inum, pos / BSIZE));
            && b < g.size && Owned(g, Stored(v1, b, pos % BSIZE, part), owner, {})
               && Dense(g, Stored(v1, b, pos % BSIZE, part))
            && Progress(g, v0, Stored(v1, b, pos % BSIZE, part), inum, pos, part)
  {
    var b := Ptr(g, v1, SlotOf(inum, pos / BSIZE));
    assert IsSlot(g, SlotOf(inum, pos / BSIZE)) && b in owner && owner[b] == SlotOf(inum, pos / BSIZE);
    var v := Stored(v1, b, pos % BSIZE, part);
    StoreFrame(g, v1, owner, b, pos % BSIZE, part);
    StoreRewrites(g, v0, v1, owner, inum, pos, part);
    forall i | 0 <= i < g.ninodes && i != inum
      ensures KeepsFile(g, v0, v, i)
    {
      KeepsTrans(g, v0, v1, v, i);
    }
  }

  /** Two stores in a row. */
  lemma RewrittenTrans(g: Geometry, v0: Vol, v1: Vol, v2: Vol, inum: nat, pos: nat, a: Bytes, b: Bytes)
    requires Sized(g, v0) && Sized(g, v1) && Sized(g, v2) && inum < g.ninodes
    requires Rewritten(g, v0, v1, inum, pos, a) && Rewritten(g, v1, v2, inum, pos + |a|, b)
    ensures Rewritten(g, v0, v2, inum, pos, a + b)
  {
    forall p | 0 <= p < MAXFILE * BSIZE && (Ptr(g, v0, SlotOf(inum, p / BSIZE)) != 0 || pos <= p < pos + |a + b|)
      ensures Ptr(g, v2, SlotOf(inum, p / BSIZE)) != 0
      ensures ByteAt(g, v2, inum, p) == if pos <= p < pos + |a + b| then (a + b)[p - pos] else ByteAt(g, v0, inum, p)
    {
      assert Ptr(g, v1, SlotOf(inum, p / BSIZE)) != 0 || pos + |a| <= p < pos + |a| + |b|;
    }
  }

  /** data holds the file from off on, part what follows it. */
  function Append(ghost was: Bytes, ghost off: nat, data: Bytes, part: Bytes): (r: Bytes)
    requires off + |data| + |part| <= |was|
    requires data == was[off..off + |data|] && part == was[off + |data|..off + |data| + |part|]
    ensures |r| == |data| + |part| && r == was[off..off + |r|]
  {
    data + part
  }

  /** Bytes from pos to the end of its block. */
  function Room(pos: nat): (r: nat)
    ensures 0 < r <= BSIZE
  {
    BSIZE - pos % BSIZE
  }

  const UINT := 0x1_0000_0000

  /** uint addition. */
  function Add32(a: nat, b: nat): (r: nat)
    requires a < UINT && b < UINT
    ensures r == if a + b < UINT then a + b else a + b - UINT
  {
    (a + b) % UINT
  }

  function Min(a: nat, b: nat): nat {
    if a < b then a else b
  }

  /** How many bytes a read of n bytes at off may return. */
  function Available(size: nat, off: nat, n: nat): nat {
    if off > size || off + n >= UINT then 0 else Min(n, size - off)
  }

  /** Within one block, the file's bytes are the block's bytes. */
  lemma ReadPart(g: Geometry, v: Vol, owner: map<nat, Slot>, inum: nat, pos: nat, m: nat)
    requires Owned(g, v, owner, {}) && inum < g.ninodes && NoHoles(g, v, inum)
    requires pos + m <= v.inodes[inum].size && 0 < m <= Room(pos)
    ensures pos / BSIZE < MAXFILE && 0 < Ptr(g, v, SlotOf(inum, pos / BSIZE)) < g.size
    ensures v.blocks[Ptr(g, v, SlotOf(inum, pos / BSIZE))][pos % BSIZE..pos % BSIZE + m]
            == Content(g, v, inum)[pos..pos + m]
  {
    hide Ptr;
    assert pos / BSIZE * BSIZE < v.inodes[inum].size;
    var t := SlotOf(inum, pos / BSIZE);
    assert IsSlot(g, t) && Ptr(g, v, t) in owner;
    var part := v.blocks[Ptr(g, v, t)][pos % BSIZE..pos % BSIZE + m];
    var want := Content(g, v, inum)[pos..pos + m];
    forall q | 0 <= q < m
      ensures part[q] == want[q]
    {
      assert (pos + q) / BSIZE == pos / BSIZE && (pos + q) % BSIZE == pos % BSIZE + q;
    }
  }

  /** Blocks that allocating and filling an indirect block puts in the log. */
  ghost function IndirectLog(g: Geometry, v: Vol, inum: nat): set<LogBlock>
    requires Sized(g, v) && inum < g.ninodes
  {
    var ind := v.inodes[inum].addrs[NDIRECT];
    if ind == 0 then {} else {BitmapBlock(ind / BPB), DataBlock(ind)}
  }
}
