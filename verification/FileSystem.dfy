/**
 kernel/fs.c: block allocation, block maps, truncation, reading and writing of files. Blocks
 are seen as the buffer cache has them; every `log_write` adds its block to `dirtied`.
 */
module FileSystem {
  import opened Blocks
  import opened FsSpec
  import opened FsFiles
  import opened FsOps
  import opened FsWrites
  import LogSpec

  class FileSystem {
    const sb: Super
    var fs: Fs
    ghost var g: Book

    ghost predicate Valid()
      reads this
    {
      Ok(sb, fs, g, {})
    }

    /** A formatted disk without files: the bits of the blocks before the data area are set, all others clear. */
    constructor (sb: Super, data: Data)
      requires sb.Valid() && |data| == sb.size && forall b :: 0 <= b < sb.size ==> (Bit(sb, data, b) <==> b < sb.dstart)
      ensures this.sb == sb && Valid() && NoHoles(sb, fs) && fs.data == data && g.owner == map[]
      ensures forall i :: 0 <= i < sb.ninodes ==> fs.inodes[i] == EMPTY_INODE
    {
      this.sb := sb;
      fs := Fs(data, seq(sb.ninodes, _ => EMPTY_INODE));
      g := Book(seq(sb.size, b => b < sb.dstart), map[], {});
    }

    /** The search of `balloc`: the first block whose bit is clear, `sb.size` if there is none. */
    method FindFree() returns (r: nat)
      requires BitsMatch(sb, fs.data, g.bits)
      ensures r <= sb.size
      ensures r < sb.size ==> !g.bits[r]
      ensures forall c :: 0 <= c < r ==> g.bits[c]
    {
      var b := 0;
      while b < sb.size
        invariant b % BPB == 0
        invariant forall c :: 0 <= c < b && c < sb.size ==> g.bits[c]
        decreases sb.size - b
      {
        var bi := 0;
        while bi < BPB && b + bi < sb.size
          invariant 0 <= bi <= BPB
          invariant forall c :: 0 <= c < b + bi && c < sb.size ==> g.bits[c]
          decreases BPB - bi
        {
          PlaceInMap(b, bi);
          assert g.bits[b + bi] == Bit(sb, fs.data, b + bi);
          if !DiskBit(fs.data, sb.BBlock(b), bi / 8, bi % 8) {
            return b + bi;
          }
          bi := bi + 1;
        }
        b := b + BPB;
      }
      return sb.size;
    }

    method Balloc() returns (b: nat)
      requires Valid()
      modifies this
      ensures Balloced(sb, old(fs), old(g), b, fs, g)
    {
      b := FindFree();
      if b == sb.size {
        return 0;
      }
      BallocWorks(sb, fs, g, b);
      fs := fs.(data := SetBit(sb, fs.data, b, true));
      fs := fs.(data := fs.data[b := ZeroBlock()]);
      g := Book(g.bits[b := true], g.owner, g.dirtied + {sb.BBlock(b), b});
    }

    /** `addrs[i]`, allocating a block for it if there is none. */
    method LoadSlot(ino: nat, i: nat) returns (addr: nat)
      requires Valid() && ino < sb.ninodes && i <= NDIRECT
      modifies this
      ensures SlotLoaded(sb, old(fs), old(g), Direct(ino, i), {}, addr, fs, g)
      ensures SlotTakes(sb, old(fs), old(g), old(fs).inodes[ino].addrs[i], {}, addr, fs, g)
    {
      hide SlotTakes, FreeCount;
      ghost var fs0, g0 := fs, g;
      Grows(sb, fs, fs);
      addr := fs.inodes[ino].addrs[i];
      if addr == 0 {
        addr := Balloc();
        if addr == 0 {
          FullDisk(sb, fs0, g0, fs, g);
          NothingTaken(sb, fs, g, 0, {});
          return 0;
        }
        LoadedDirect(sb, fs0, g0, ino, i, addr, fs, g);
        DirectTakes(sb, fs0, g0, ino, i, addr, fs, g);
        fs := SetAddr(fs, ino, i, addr);
        g := g.(owner := g.owner[addr := Direct(ino, i)]);
      } else {
        NothingTaken(sb, fs, g, addr, {});
      }
    }

    /** Entry `j` of the indirect block, allocating a block for it if there is none. */
    method LoadEntry(ino: nat, j: nat) returns (addr: nat)
      requires Valid() && ino < sb.ninodes && j < NINDIRECT && SlotVal(sb, fs, Direct(ino, NDIRECT)) != 0
      modifies this
      ensures SlotLoaded(sb, old(fs), old(g), Indirect(ino, j), {old(fs).inodes[ino].addrs[NDIRECT]}, addr, fs, g)
      ensures SlotTakes(sb, old(fs), old(g), SlotVal(sb, old(fs), Indirect(ino, j)),
                        {old(fs).inodes[ino].addrs[NDIRECT]}, addr, fs, g)
    {
      hide SlotTakes, FreeCount;
      ghost var fs0, g0 := fs, g;
      Grows(sb, fs, fs);
      assert IsSlot(sb, Direct(ino, NDIRECT));
      var ind := fs.inodes[ino].addrs[NDIRECT];
      addr := Word(fs.data[ind], j);
      if addr == 0 {
        addr := Balloc();
        if addr != 0 {
          LoadedEntry(sb, fs0, g0, ino, j, addr, fs, g);
          EntryTakes(sb, fs0, g0, ind, ino, j, addr, fs, g);
          fs := SetEntry(fs, ind, j, addr);
          g := g.(owner := g.owner[addr := Indirect(ino, j)], dirtied := g.dirtied + {ind});
        } else {
          FullDisk(sb, fs0, g0, fs, g);
          NothingTaken(sb, fs, g, 0, {ind});
        }
      } else {
        NothingTaken(sb, fs, g, addr, {ind});
      }
    }

    /**
     `bmap`: the disk block of block `bn` of a file, allocating it (and the indirect block)
     if there is none; 0 exactly if there are fewer free blocks than that takes.
     */
    method Bmap(ino: nat, bn: nat) returns (addr: nat)
      requires Valid() && ino < sb.ninodes && bn < MAXFILE
      modifies this
      ensures Bmapped(sb, old(fs), old(g), ino, bn, addr, fs, g)
      ensures BmapTakes(sb, old(fs), old(g), ino, bn, addr, fs, g)
    {
      hide SlotTakes, BmapTakes, Bmapped, FreeCount;
      ghost var fs0, g0 := fs, g;
      if bn < NDIRECT {
        addr := LoadSlot(ino, bn);
        BmapDirect(sb, fs0, g0, ino, bn, addr, fs, g);
        BmapDirectTakes(sb, fs0, g0, ino, bn, addr, fs, g);
        return;
      }
      var ind := LoadSlot(ino, NDIRECT);
      if ind == 0 {
        BmapNoIndirect(sb, fs0, g0, ino, bn, fs, g);
        BmapNoIndirectTakes(sb, fs0, g0, ino, bn, fs, g);
        return 0;
      }
      ghost var fs1, g1 := fs, g;
      addr := LoadEntry(ino, bn - NDIRECT);
      BmapIndirect(sb, fs0, g0, ino, bn, ind, fs1, g1, addr, fs, g);
      BmapIndirectTakes(sb, fs0, g0, ino, bn, ind, fs1, g1, addr, fs, g);
    }

    ghost predicate ValidFiles()
      reads this
    {
      Valid() && NoHoles(sb, fs)
    }

    method ReadTurn(ino: nat, pos: nat, len: nat) returns (chunk: seq<Byte>)
      requires ValidFiles() && ino < sb.ninodes
      requires pos < fs.inodes[ino].size && pos + len <= fs.inodes[ino].size && pos % BSIZE + len <= BSIZE
      modifies this
      ensures fs == old(fs) && g == old(g) && chunk == Content(sb, fs, ino)[pos..pos + len]
    {
      PresentBlock(sb, fs, g, ino, pos);
      var addr := Bmap(ino, pos / BSIZE);
      ChunkOfFile(sb, fs, ino, pos, len, Content(sb, fs, ino), fs.data[addr]);
      chunk := fs.data[addr][pos % BSIZE..pos % BSIZE + len];
    }

    /**
     `readi`: appends to `out` the bytes of the file from `off`, at most `n` and at most to the
     end of the file. `room` is how many bytes the destination can take. Nothing is allocated.
     */
    method Readi(ino: nat, off: nat, n: nat, room: nat) returns (r: int, out: seq<Byte>)
      requires ValidFiles() && ino < sb.ninodes && off < WORD_LIMIT && n < WORD_LIMIT
      modifies this
      ensures fs == old(fs) && g == old(g)
      ensures ReadDone(Content(sb, fs, ino), off, n, room, r, out)
    {
      var size := fs.inodes[ino].size;
      SumWraps(off, n);
      if off > size || (off + n) % WORD_LIMIT < off {
        return 0, [];
      }
      r, out := ReadAll(ino, off, if off + n > size then size - off else n, room, Content(sb, fs, ino));
    }

    /** The copying loop of `readi`, within the file `c`. */
    method ReadAll(ino: nat, off: nat, n: nat, room: nat, ghost c: seq<Byte>) returns (r: int, out: seq<Byte>)
      requires ValidFiles() && ino < sb.ninodes && c == Content(sb, fs, ino) && off + n <= |c|
      modifies this
      ensures fs == old(fs) && g == old(g)
      ensures |out| <= n && out == c[off..off + |out|]
      ensures if n <= room then r == n == |out| else r == -1 && |out| <= room
    {
      hide Owned, BitsMatch, NoHoles, FileByte, TurnLength;
      var tot := 0;
      out := [];
      while tot < n
        invariant fs == old(fs) && g == old(g)
        invariant |out| == tot <= n && out == c[off..off + tot] && (tot == 0 || tot <= room)
      {
        var pos := off + tot;
        var len := TurnLength(pos, n - tot);
        var chunk := ReadTurn(ino, pos, len);
        if tot + len > room {
          return -1, out;
        }
        JoinSlices(c, off, pos, pos + len);
        out := out + chunk;
        tot := tot + len;
      }
      return tot, out;
    }

    /**
     One turn of `writei`: find the block and copy the bytes into it, as far as the source has them;
     the block is logged only if it has them all.
     */
    method WriteTurn(ino: nat, pos: nat, chunk: seq<Byte>, part: nat) returns (ok: bool, ghost addr: nat)
      requires Valid() && ino < sb.ninodes && part <= |chunk|
      requires pos + |chunk| <= MAXFILE * BSIZE && pos / BSIZE < MAXFILE && pos % BSIZE + |chunk| <= BSIZE
      modifies this
      ensures Turned(sb, old(fs), old(g), ino, pos, chunk, part, ok, addr, fs, g)
      ensures TurnTakes(sb, old(fs), old(g), ino, pos / BSIZE, pos % BSIZE, chunk, part, addr, fs, g)
    {
      hide TurnTakes, BmapTakes, FreeCount;
      ghost var fs0, g0 := fs, g;
      var a := Bmap(ino, pos / BSIZE);
      addr := a;
      if a == 0 {
        GrownWritesNothing(sb, fs0, fs, ino, pos);
        FullTakes(sb, fs0, g0, ino, pos / BSIZE, pos % BSIZE, chunk, part, fs, g);
        return false, addr;
      }
      TurnPuts(sb, fs0, g0, ino, pos, chunk, part, a, fs, g);
      PutTakes(sb, fs0, g0, ino, pos / BSIZE, pos % BSIZE, chunk, part, a, fs, g);
      fs := PutBlock(fs, a, Splice(fs.data[a], pos % BSIZE, chunk[..part]));
      if part < |chunk| {
        return false, addr;
      }
      g := g.(dirtied := g.dirtied + {a});
      ok := true;
    }

    /**
     The loop of `writei`. It stops early when the disk is full or the source cannot be read; then
     the readable part of a share is in its block without being reported.
     */
    method WriteAll(ino: nat, off: nat, src: seq<Byte>, readable: nat) returns (tot: nat, ghost t: Ledger)
      requires ValidFiles() && ino < sb.ninodes
      requires off <= fs.inodes[ino].size && off + |src| <= MAXFILE * BSIZE
      modifies this
      ensures Ended(sb, old(fs), old(g), fs, g, ino, off, src, readable, tot)
      ensures Progress(sb, old(fs), old(g), fs, g, ino, off, src,
                       tot + Strays(sb, old(fs), old(g), ino, off, |src|, readable), t)
    {
      hide Written, Owned, BitsMatch, Charged, NoHoles, TurnLength, TurnStart, TurnsFit, Paced, Reaches, Strays;
      hide Slips, AllLogged, Ended;
      ghost var fs0, g0 := fs, g;
      tot, t := 0, Ledger({}, {}, 0);
      ProgressStart(sb, fs, g, ino, off, src);
      PacedStart(sb, fs, g, ino, off / BSIZE);
      while tot < |src|
        invariant Progress(sb, fs0, g0, fs, g, ino, off, src, tot, t) && tot <= readable
        invariant tot == |src| || t.turns == 0 || off + tot == TurnStart(off, t.turns)
        invariant Paced(sb, fs0, g0, fs, g, ino, off / BSIZE, off / BSIZE + t.turns)
        invariant tot > 0 ==> (off + tot - 1) / BSIZE < off / BSIZE + t.turns
      {
        var len := TurnLength(off + tot, |src| - tot);
        TurnArithmetic(off, tot, |src|, t.turns, len);
        BlockOfTurn(off, tot, |src|, t.turns, len);
        var part := if readable < tot + len then readable - tot else len;
        var ok;
        ok, t := WriteMore(ino, off, src, readable, tot, len, part, fs0, g0, t);
        if !ok {
          return;
        }
        tot := tot + len;
      }
      Completed(sb, fs0, g0, fs, g, ino, off, src, readable, off / BSIZE + t.turns, sb.IBlock(ino));
    }

    method WriteMore(ino: nat, off: nat, src: seq<Byte>, readable: nat, tot: nat, len: nat, part: nat,
                     ghost fs0: Fs, ghost g0: Book, ghost t: Ledger) returns (ok: bool, ghost t': Ledger)
      requires Progress(sb, fs0, g0, fs, g, ino, off, src, tot, t) && tot + len <= |src|
      requires NoHoles(sb, fs0) && off <= fs0.inodes[ino].size && off + |src| <= MAXFILE * BSIZE
      requires t.turns == 0 || off + tot == TurnStart(off, t.turns)
      requires 1 <= len && tot < |src| && len == TurnLength(off + tot, |src| - tot) && TurnsFit(off, |src|, t.turns + 1)
      requires (off + tot) / BSIZE < MAXFILE && (off + tot) % BSIZE + len <= BSIZE
      requires (off + tot) / BSIZE == off / BSIZE + t.turns && (tot == 0 || (off + tot) % BSIZE == 0)
      requires tot > 0 ==> (off + tot - 1) / BSIZE < off / BSIZE + t.turns
      requires Paced(sb, fs0, g0, fs, g, ino, off / BSIZE, off / BSIZE + t.turns) && Ok(sb, fs0, g0, {})
      requires tot <= readable && part == if readable < tot + len then readable - tot else len
      modifies this
      ensures ok ==> Progress(sb, fs0, g0, fs, g, ino, off, src, tot + len, t') && part == len
      ensures ok ==> Paced(sb, fs0, g0, fs, g, ino, off / BSIZE, off / BSIZE + t'.turns)
      ensures !ok ==> Ended(sb, fs0, g0, fs, g, ino, off, src, readable, tot)
      ensures !ok ==> Progress(sb, fs0, g0, fs, g, ino, off, src,
                               tot + Strays(sb, fs0, g0, ino, off, |src|, readable), t')
      ensures t'.turns == t.turns + 1
    {
      hide Written, Owned, BitsMatch, Charged, NoHoles, TurnLength, TurnStart, TurnsFit, Paced, TurnTakes, Reaches;
      hide Strays, Slips, AllLogged;
      ghost var fs1, g1 := fs, g;
      ghost var addr;
      var chunk := src[tot..tot + len];
      ok, addr := WriteTurn(ino, off + tot, chunk, part);
      ProgressTurn(sb, fs0, g0, fs1, g1, ino, off, src, tot, t, len, part, ok, addr, fs, g);
      t' := NextLedger(sb, t, addr, BlockNo(sb, fs1, ino, (off + tot) / BSIZE) == 0);
      if ok {
        PacedTurn(sb, fs0, g0, fs1, g1, ino, off / BSIZE, off / BSIZE + t.turns, (off + tot) % BSIZE, chunk, addr, fs, g);
      } else {
        InodeBlock(sb, ino);
        BookSize(sb, fs, g);
        Stopped(sb, fs0, g0, fs1, g1, ino, off, src, readable, tot, len, part, addr, fs, g, sb.IBlock(ino));
      }
    }

    /**
     `writei`: -1 and no effect for a bad offset or an over-long file; otherwise the number of bytes
     in shares that could be read to their ends and for which there were blocks. The number of
     blocks logged is bounded.
     */
    method Writei(ino: nat, off: nat, src: seq<Byte>, readable: nat) returns (r: int)
      requires ValidFiles() && ino < sb.ninodes && off < WORD_LIMIT && |src| < WORD_LIMIT
      modifies this
      ensures ValidFiles()
      ensures r == -1 <==> off > old(fs.inodes[ino].size) || off + |src| > MAXFILE * BSIZE
      ensures r == -1 ==> fs == old(fs) && g == old(g)
      ensures r != -1 ==> 0 <= r && WriteOutcome(sb, old(fs), old(g), fs, g, ino, off, src, readable, r)
      ensures |g.dirtied - old(g).dirtied| <= WriteCost(off, |src|)
      ensures sb.size < BPB ==> |g.dirtied - old(g).dirtied| <= Turns(off, |src|) + 3
    {
      hide Reaches, Strays, Slips, AllLogged, WriteShown, WriteDone;
      SumWraps(off, |src|);
      assert g.dirtied - g.dirtied == {};
      if off > fs.inodes[ino].size || (off + |src|) % WORD_LIMIT < off {
        return -1;
      }
      if off + |src| > MAXFILE * BSIZE {
        return -1;
      }
      r := WriteChecked(ino, off, src, readable);
    }

    method WriteChecked(ino: nat, off: nat, src: seq<Byte>, readable: nat) returns (tot: nat)
      requires ValidFiles() && ino < sb.ninodes
      requires off <= fs.inodes[ino].size && off + |src| <= MAXFILE * BSIZE
      modifies this
      ensures ValidFiles() && WriteOutcome(sb, old(fs), old(g), fs, g, ino, off, src, readable, tot)
      ensures |g.dirtied - old(g).dirtied| <= WriteCost(off, |src|)
      ensures sb.size < BPB ==> |g.dirtied - old(g).dirtied| <= Turns(off, |src|) + 3
    {
      hide Written, Owned, BitsMatch, Charged, NoHoles, WriteCost, Turns, TurnsFit, TurnStart, Reaches, Strays, Slips;
      hide AllLogged, WriteShown, WriteDone;
      ghost var fs0, g0 := fs, g;
      ghost var t;
      tot, t := WriteAll(ino, off, src, readable);
      ghost var all := tot + Strays(sb, fs0, g0, ino, off, |src|, readable);
      WriteEnds(sb, fs0, g0, fs, g, ino, off, src, all, t, tot);
      ghost var fs1 := fs;
      fs := Resized(fs, ino, off + tot);
      g := g.(dirtied := g.dirtied + {sb.IBlock(ino)});
      SameData(sb, fs0, fs1, ino, off + tot, g.dirtied);
      OnlyReported(sb, fs0, fs, ino, off, src, all, tot);
    }

    /** `bfree`: clears the bit of a block; panics if it is clear already. */
    method Bfree(b: nat) returns (r: Outcome)
      requires BitsMatch(sb, fs.data, g.bits) && b < sb.size
      modifies this
      ensures r.Panic? <==> !old(g).bits[b]
      ensures r.Panic? ==> fs == old(fs) && g == old(g)
      ensures r.Done? ==> fs == old(fs).(data := SetBit(sb, old(fs).data, b, false))
      ensures r.Done? ==> g == old(g).(bits := old(g).bits[b := false], dirtied := old(g).dirtied + {sb.BBlock(b)})
      ensures BitsMatch(sb, fs.data, g.bits)
    {
      assert g.bits[b] == Bit(sb, fs.data, b);
      if !Bit(sb, fs.data, b) {
        return Panic;
      }
      MarkMatches(sb, fs.data, g.bits, b, false);
      fs := fs.(data := SetBit(sb, fs.data, b, false));
      g := g.(bits := g.bits[b := false], dirtied := g.dirtied + {sb.BBlock(b)});
      return Done;
    }

    /** Frees the block of a slot not freed before; the panic of `bfree` cannot happen. */
    method FreeSlot(b: nat, ghost s: Slot, ghost fs0: Fs, ghost g0: Book, ghost done: set<Slot>)
      requires Ok(sb, fs0, g0, {}) && IsSlot(sb, s) && s !in done
      requires Freeing(sb, fs0, g0, fs, g, s.ino, done) && b == SlotVal(sb, fs0, s)
      modifies this
      ensures Freeing(sb, fs0, g0, fs, g, s.ino, done + {s}) && fs.inodes == old(fs).inodes
    {
      if b != 0 {
        FreeingStep(sb, fs0, g0, fs, g, s, done);
        var r := Bfree(b);
        assert r.Done?;
      } else {
        FreeingNothing(sb, fs0, g0, fs, g, s, done);
      }
    }

    /** `itrunc`: frees exactly the blocks the inode owned and empties it. */
    method Itrunc(ino: nat)
      requires ValidFiles() && ino < sb.ninodes
      modifies this
      ensures ValidFiles()
      ensures g.owner == Without(old(g).owner, ino)
      ensures forall b :: 0 <= b < sb.size ==>
        g.bits[b] == (old(g).bits[b] && !(b in old(g).owner && old(g).owner[b].ino == ino))
      ensures fs.inodes == old(fs).inodes[ino := EMPTY_INODE]
      ensures forall i :: 0 <= i < sb.ninodes && i != ino ==> Content(sb, fs, i) == old(Content(sb, fs, i))
      ensures AllLogged(sb, old(fs), fs, g.dirtied)
      ensures forall m :: m in g.dirtied <==>
        m in old(g).dirtied || m == sb.IBlock(ino) || FreedIn(sb, old(g).owner, SlotsOf(old(g).owner, ino), m)
    {
      hide Owned, BitsMatch, NoHoles, SlotVal, Content;
      ghost var fs0, g0 := fs, g;
      ghost var done := FreeDirect(ino);
      var ind := fs.inodes[ino].addrs[NDIRECT];
      if ind != 0 {
        done := FreeIndirect(ino, ind, fs0, g0, done);
        fs := SetAddr(fs, ino, NDIRECT, 0);
      }
      NothingLeft(sb, fs0, ino, done);
      assert fs.inodes[ino].addrs == EMPTY_INODE.addrs;
      FreeingDone(sb, fs0, g0, fs, g, ino, done);
      forall m { FreedBlocks(sb, fs0, g0, fs, g, ino, done, m); }
      fs := WithSize(fs, ino, 0);
      g := g.(owner := Without(g.owner, ino), dirtied := g.dirtied + {sb.IBlock(ino)});
    }

    /** The first loop of `itrunc`. */
    method FreeDirect(ino: nat) returns (ghost done: set<Slot>)
      requires Valid() && ino < sb.ninodes
      modifies this
      ensures Freeing(sb, old(fs), old(g), fs, g, ino, done)
      ensures forall s :: s in done <==> s.Direct? && s.ino == ino && s.i < NDIRECT
      ensures fs.inodes == old(fs).inodes[ino := Cleared(old(fs.inodes[ino]), NDIRECT)]
    {
      hide Owned, BitsMatch, SlotVal;
      ghost var fs0, g0 := fs, g;
      done := {};
      FreeingStarts(sb, fs, g, ino);
      ghost var ip := fs.inodes[ino];
      ClearedNext(ip, 0);
      for i := 0 to NDIRECT
        invariant Freeing(sb, fs0, g0, fs, g, ino, done)
        invariant forall s :: s in done <==> s.Direct? && s.ino == ino && s.i < i
        invariant fs.inodes == fs0.inodes[ino := Cleared(ip, i)]
      {
        ghost var s := Direct(ino, i);
        DirectVal(sb, fs0, ino, i);
        ClearedNext(ip, i);
        FreeSlot(fs.inodes[ino].addrs[i], s, fs0, g0, done);
        done := done + {s};
        fs := SetAddr(fs, ino, i, 0);
      }
    }

    /** The second loop of `itrunc`, which leaves the numbers in the indirect block, and the block itself. */
    method FreeIndirect(ino: nat, ind: nat, ghost fs0: Fs, ghost g0: Book, ghost done0: set<Slot>)
      returns (ghost done: set<Slot>)
      requires Ok(sb, fs0, g0, {}) && ino < sb.ninodes && Freeing(sb, fs0, g0, fs, g, ino, done0)
      requires forall s :: s in done0 ==> s.Direct? && s.i < NDIRECT
      requires ind == fs0.inodes[ino].addrs[NDIRECT] != 0
      modifies this
      ensures Freeing(sb, fs0, g0, fs, g, ino, done) && fs.inodes == old(fs).inodes
      ensures done0 <= done && Direct(ino, NDIRECT) in done
      ensures forall j :: 0 <= j < NINDIRECT ==> Indirect(ino, j) in done
    {
      hide Owned, BitsMatch, SlotVal;
      done := done0;
      for j := 0 to NINDIRECT
        invariant Freeing(sb, fs0, g0, fs, g, ino, done) && fs.inodes == old(fs).inodes && done0 <= done
        invariant forall s :: s in done ==> (s.Direct? && s.i < NDIRECT) || (s.Indirect? && s.j < j)
        invariant forall k :: 0 <= k < j ==> Indirect(ino, k) in done
      {
        IndirectVal(sb, fs0, g0, ino, j);
        ghost var s := Indirect(ino, j);
        FreeSlot(Word(fs.data[ind], j), s, fs0, g0, done);
        done := done + {s};
      }
      DirectVal(sb, fs0, ino, NDIRECT);
      FreeSlot(ind, Direct(ino, NDIRECT), fs0, g0, done);
      done := done + {Direct(ino, NDIRECT)};
    }

    /**
     The inode branch of `filewrite`: one transaction per chunk, so none logs more than
     MAXOPBLOCKS blocks. `w` bytes are reported and the offset moves past them; the result is the
     byte count if that was all of them, else -1. `q` further bytes, up to where the source cannot be
     read any more, may be in the file's block all the same.
     */
    method Filewrite(ino: nat, off: nat, src: seq<Byte>, readable: nat)
      returns (ret: int, off': nat, ghost w: nat, ghost q: nat)
      requires ValidFiles() && ino < sb.ninodes && off + |src| < WORD_LIMIT
      modifies this
      ensures ValidFiles() && w + q <= |src| && off' == off + w && ret == if w == |src| then |src| else -1
      ensures if off <= old(fs.inodes[ino].size) then Reshown(sb, old(fs), fs, ino, off, src[..w + q], w)
              else fs == old(fs) && w == q == 0
      ensures w <= readable && (q > 0 ==> w + q == readable)
      ensures off <= old(fs.inodes[ino].size) && off + |src| <= MAXFILE * BSIZE && w + q < |src| && w + q < readable ==>
        DiskFull(g)
      ensures g.dirtied == old(g).dirtied || |g.dirtied| <= LogSpec.MAXOPBLOCKS
    {
      hide Owned, BitsMatch, NoHoles, SlotVal, Content, Rewritten, Reshown, DiskFull;
      var max := (LogSpec.MAXOPBLOCKS - 1 - 1 - 2) / 2 * BSIZE;
      var i := 0;
      ghost var fs0, size0 := fs, fs.inodes[ino].size;
      off', w, q := off, 0, 0;
      if off <= size0 {
        RewrittenStart(sb, fs, ino, off);
        assert src[..0] == [];
      }
      while i < |src|
        invariant ValidFiles() && i == w <= |src| && off' == off + i && q == 0 && w <= readable
        invariant if off <= size0 then Rewritten(sb, fs0, fs, ino, off, src[..w]) else fs == fs0 && w == 0
        invariant g.dirtied == old(g).dirtied || |g.dirtied| <= LogSpec.MAXOPBLOCKS
      {
        var n1 := if |src| - i > max then max else |src| - i;
        var r;
        r, q := WriteChunk(ino, off', src[i..i + n1], readable - i, fs0, off, src[..i]);
        ghost var done := if r > 0 then r else 0;
        PrefixGrows(src, i, n1, done + q);
        if r > 0 {
          off', w := off' + r, w + r;
        }
        if r != n1 {
          ret := -1;
          return;
        }
        ShownWhole(sb, fs0, fs, ino, off, src[..w]);
        i := i + r;
      }
      if off <= size0 {
        ShownWhole(sb, fs0, fs, ino, off, src[..w]);
      }
      ret := |src|;
    }

    /** One transaction of `filewrite`. */
    method WriteChunk(ino: nat, pos: nat, chunk: seq<Byte>, readable: nat, ghost fs0: Fs, ghost off: nat,
                      ghost sofar: seq<Byte>)
      returns (r: int, ghost q: nat)
      requires ValidFiles() && ino < sb.ninodes && pos < WORD_LIMIT && pos == off + |sofar|
      requires |chunk| <= (LogSpec.MAXOPBLOCKS - 1 - 1 - 2) / 2 * BSIZE && Shape(sb, fs0)
      requires if off <= fs0.inodes[ino].size then Rewritten(sb, fs0, fs, ino, off, sofar) else fs == fs0
      modifies this
      ensures ValidFiles() && -1 <= r <= |chunk| && |g.dirtied| <= LogSpec.MAXOPBLOCKS
      ensures var done := if r > 0 then r else 0;
        && done + q <= |chunk| && done <= readable && (q > 0 ==> done + q == readable)
        && (if off <= fs0.inodes[ino].size then Reshown(sb, fs0, fs, ino, off, sofar + chunk[..done + q], |sofar| + done)
            else r == -1 && q == 0 && fs == fs0)
        && (off <= fs0.inodes[ino].size && pos + |chunk| <= MAXFILE * BSIZE && done + q < |chunk| && done + q < readable ==>
              DiskFull(g))
    {
      hide Owned, BitsMatch, NoHoles, SlotVal, Content, WriteCost, Turns, DiskFull, WriteOutcome, Reshown, Rewritten;
      g := g.(dirtied := {});
      ghost var fs1, g1 := fs, g;
      GrownSize(sb, fs0, fs, ino, off, sofar);
      FilewriteChunkFits(pos, |chunk|);
      r := Writei(ino, pos, chunk, readable);
      assert g.dirtied - {} == g.dirtied;
      q := 0;
      if r == -1 {
        assert sofar + chunk[..0] == sofar;
        ShownWhole(sb, fs0, fs, ino, off, sofar);
      } else {
        q := Strays(sb, fs1, g1, ino, pos, |chunk|, readable);
        ChunkShown(sb, fs0, fs1, g1, fs, g, ino, off, sofar, chunk, readable, r);
      }
    }
  }

  /** A file of one block on a disk with a free one can be written whole. */
  lemma FirstWrite(sb: Super, fs: Fs, g: Book, fs': Fs, g': Book, ino: nat, bytes: seq<Byte>, r: nat)
    requires Ok(sb, fs, g, {}) && NoHoles(sb, fs) && ino < sb.ninodes && fs.inodes[ino] == EMPTY_INODE
    requires g.owner == map[]
    requires sb.dstart < sb.size && |bytes| == BSIZE && Shape(sb, fs') && NoHoles(sb, fs')
    requires WriteOutcome(sb, fs, g, fs', g', ino, 0, bytes, BSIZE, r)
    ensures r == BSIZE && Content(sb, fs', ino) == bytes
  {
    hide BitsMatch, NoHoles, FreeCount, Absent, Slips, AllLogged;
    AbsentNone(sb, fs, ino, 0);
    AbsentNext(sb, fs, ino, 0, 0);
    assert !g.bits[sb.dstart];
    FreeNone(g.bits);
    assert Avail(sb, fs, g, ino, 0, 0);
    OldContent(sb, fs, ino);
    assert bytes[..BSIZE + 0] == bytes;
    assert Spliced([], 0, bytes)[..BSIZE] == bytes;
  }

  /** A write over it of which only the first 100 bytes can be read. */
  lemma HalfWrite(sb: Super, fs: Fs, g: Book, fs': Fs, g': Book, ino: nat, was: seq<Byte>, bytes: seq<Byte>, r: nat)
    requires Ok(sb, fs, g, {}) && NoHoles(sb, fs) && ino < sb.ninodes && fs.inodes[ino].size == BSIZE && g.dirtied == {}
    requires |bytes| == |was| == BSIZE && Content(sb, fs, ino) == was && was[..100] != bytes[..100]
    requires Shape(sb, fs') && NoHoles(sb, fs') && WriteOutcome(sb, fs, g, fs', g', ino, 0, bytes, 100, r)
    ensures r == 0 && Content(sb, fs', ino) == bytes[..100] + was[100..] && !AllLogged(sb, fs, fs', g'.dirtied)
  {
    hide BitsMatch, FreeCount, Absent, AllLogged, Owned;
    PresentBlock(sb, fs, g, ino, 0);
    AbsentNone(sb, fs, ino, 0);
    AbsentNext(sb, fs, ino, 0, 0);
    assert Avail(sb, fs, g, ino, 0, 0);
    assert Strays(sb, fs, g, ino, 0, BSIZE, 100) == 100;
    var x := BlockNo(sb, fs, ino, 0);
    ChunkOfFile(sb, fs, ino, 0, 100, was, fs.data[x]);
    assert Slips(sb, fs, g, ino, 0, bytes, 100);
    assert Spliced(was, 0, bytes[..100])[..BSIZE] == bytes[..100] + was[100..];
  }

  /**
   A file of 1024 equal bytes, and a write of 1024 others of which the source has only 100: nothing is
   reported, but the first 100 bytes of the file have changed, in a block that is not logged.
   */
  method HalfCopiedShare(sb: Super, data: Data, a: Byte, b: Byte)
    returns (f: FileSystem, r: int, ghost before: Fs)
    requires sb.Valid() && |data| == sb.size && forall c :: 0 <= c < sb.size ==> (Bit(sb, data, c) <==> c < sb.dstart)
    requires 1 < sb.ninodes && sb.dstart < sb.size && a != b
    ensures f.sb == sb && f.ValidFiles() && Shape(sb, before) && NoHoles(sb, before) && r == 0
    ensures Content(sb, before, 1) == seq(BSIZE, _ => a)
    ensures Content(sb, f.fs, 1) == seq(BSIZE, _ => b)[..100] + seq(BSIZE, _ => a)[100..]
    ensures !AllLogged(sb, before, f.fs, f.g.dirtied)
  {
    hide Owned, BitsMatch, WriteOutcome, AllLogged, WriteCost, Turns, Content;
    var was, bytes := seq(BSIZE, _ => a), seq(BSIZE, _ => b);
    f := new FileSystem(sb, data);
    ghost var fs0, g0 := f.fs, f.g;
    r := f.Writei(1, 0, was, BSIZE);
    FirstWrite(sb, fs0, g0, f.fs, f.g, 1, was, r);
    f.g := f.g.(dirtied := {});
    before := f.fs;
    ghost var g1 := f.g;
    OldContent(sb, before, 1);
    assert was[..100][0] != bytes[..100][0];
    r := f.Writei(1, 0, bytes, 100);
    HalfWrite(sb, before, g1, f.fs, f.g, 1, was, bytes, r);
  }
}
