/**
 How far a `writei` gets, and what it leaves in the buffers when the source cannot be read to the
 end: exact counts of free blocks, of bytes reported, and of bytes that were copied into a block
 that is then neither logged nor counted.
 */
module FsWrites {
  import opened Blocks
  import opened FsSpec
  import opened FsFiles
  import opened FsOps

  // ------------------------------------------------------------------ counting

  ghost function AbsentBlocks(sb: Super, fs: Fs, ino: nat, a: nat, b: nat): set<nat>
    requires Shape(sb, fs) && ino < sb.ninodes && b <= MAXFILE
  {
    set bn | a <= bn < b && BlockNo(sb, fs, ino, bn) == 0
  }

  /** The blocks that a file lacks to have all of its blocks `a..b`. */
  ghost function Absent(sb: Super, fs: Fs, ino: nat, a: nat, b: nat): nat
    requires Shape(sb, fs) && ino < sb.ninodes && b <= MAXFILE
  {
    |AbsentBlocks(sb, fs, ino, a, b)| +
    (if a < b && b > NDIRECT && fs.inodes[ino].addrs[NDIRECT] == 0 then 1 else 0)
  }

  lemma AbsentNext(sb: Super, fs: Fs, ino: nat, a: nat, b: nat)
    requires Shape(sb, fs) && ino < sb.ninodes && a <= b < MAXFILE
    ensures Absent(sb, fs, ino, a, b + 1) == Absent(sb, fs, ino, a, b)
      + (if BlockNo(sb, fs, ino, b) == 0 then 1 else 0)
      + (if b >= NDIRECT && fs.inodes[ino].addrs[NDIRECT] == 0 && !(a < b && b > NDIRECT) then 1 else 0)
  {
    hide BlockNo;
    var x, y := AbsentBlocks(sb, fs, ino, a, b), AbsentBlocks(sb, fs, ino, a, b + 1);
    assert y == if BlockNo(sb, fs, ino, b) == 0 then x + {b} else x;
  }

  lemma AbsentNone(sb: Super, fs: Fs, ino: nat, a: nat)
    requires Shape(sb, fs) && ino < sb.ninodes && a <= MAXFILE
    ensures Absent(sb, fs, ino, a, a) == 0
  {
    assert AbsentBlocks(sb, fs, ino, a, a) == {};
  }

  lemma {:induction false} AbsentMore(sb: Super, fs: Fs, ino: nat, a: nat, b: nat, c: nat)
    requires Shape(sb, fs) && ino < sb.ninodes && a <= b <= c <= MAXFILE
    ensures Absent(sb, fs, ino, a, b) <= Absent(sb, fs, ino, a, c)
    decreases c
  {
    if b < c {
      AbsentMore(sb, fs, ino, a, b, c - 1);
      AbsentNext(sb, fs, ino, a, c - 1);
    }
  }

  /** Are there enough free blocks for a write at `off` to get to block `blk`? */
  ghost predicate Avail(sb: Super, fs: Fs, g: Book, ino: nat, off: nat, blk: nat)
    requires Shape(sb, fs) && ino < sb.ninodes && blk < MAXFILE
  {
    Absent(sb, fs, ino, off / BSIZE, blk + 1) <= FreeCount(g.bits)
  }

  // ------------------------------------------------------------ what is reported

  /** How many of `n` bytes lie in shares of blocks that can be read to their ends. */
  function Whole(off: nat, n: nat, readable: nat): (w: nat)
    ensures w <= n && w <= (if readable < n then readable else n)
  {
    if readable >= n then n else
    var b := (off + readable) / BSIZE * BSIZE;
    if b <= off then 0 else b - off
  }

  lemma WholeHere(off: nat, n: nat, readable: nat, tot: nat, len: nat)
    requires tot < n && tot <= readable && (tot == 0 || (off + tot) % BSIZE == 0)
    requires len == TurnLength(off + tot, n - tot)
    ensures readable < tot + len ==> readable < n && Whole(off, n, readable) == tot
    ensures readable >= tot + len ==> Whole(off, n, readable) >= tot + len
  {
    var e := off + readable;
    assert e == e / BSIZE * BSIZE + e % BSIZE && off + tot == (off + tot) / BSIZE * BSIZE + (off + tot) % BSIZE;
    if readable < n {
      if readable < tot + len {
        assert e / BSIZE == (off + tot) / BSIZE;
      } else {
        assert (off + tot + len) % BSIZE == 0;
        assert (off + tot + len) / BSIZE <= e / BSIZE;
        assert off + tot + len == (off + tot + len) / BSIZE * BSIZE;
      }
    }
  }

  /** What `writei` reports: all whole shares, or as many as there are blocks for. */
  ghost predicate Reaches(sb: Super, fs: Fs, g: Book, ino: nat, off: nat, n: nat, readable: nat, r: nat)
    requires Shape(sb, fs) && ino < sb.ninodes && off + n <= MAXFILE * BSIZE
  {
    && r <= Whole(off, n, readable) && (r == 0 || r == n || (off + r) % BSIZE == 0)
    && (r > 0 ==> (off + r - 1) / BSIZE < MAXFILE && Avail(sb, fs, g, ino, off, (off + r - 1) / BSIZE))
    && (r < Whole(off, n, readable) ==>
          (off + r) / BSIZE < MAXFILE && !Avail(sb, fs, g, ino, off, (off + r) / BSIZE))
  }

  /** How many bytes end up in a block without being reported: those of a share that cannot be read to its end. */
  ghost function Strays(sb: Super, fs: Fs, g: Book, ino: nat, off: nat, n: nat, readable: nat): nat
    requires Shape(sb, fs) && ino < sb.ninodes && off + n <= MAXFILE * BSIZE
  {
    var w := Whole(off, n, readable);
    if readable < n && Avail(sb, fs, g, ino, off, (off + w) / BSIZE) then readable - w else 0
  }

  /** Strays in a block that the file had and that no one has logged, where they differ from what was there. */
  ghost predicate Slips(sb: Super, fs: Fs, g: Book, ino: nat, off: nat, src: seq<Byte>, readable: nat)
    requires Shape(sb, fs) && ino < sb.ninodes && off + |src| <= MAXFILE * BSIZE
  {
    var w, q := Whole(off, |src|, readable), Strays(sb, fs, g, ino, off, |src|, readable);
    && q > 0 && w + q <= |src| && (off + w) % BSIZE + q <= BSIZE
    && var x := BlockNo(sb, fs, ino, (off + w) / BSIZE);
    && 0 < x < sb.size && x !in g.dirtied
    && fs.data[x][(off + w) % BSIZE..(off + w) % BSIZE + q] != src[w..w + q]
  }

  // -------------------------------------------------------------------- a turn

  /** What a turn of `writei` takes and logs. */
  ghost predicate TurnTakes(sb: Super, fs: Fs, g: Book, ino: nat, bn: nat, o: nat, chunk: seq<Byte>, part: nat,
                            addr: nat, fs': Fs, g': Book)
    requires Shape(sb, fs) && ino < sb.ninodes && bn < MAXFILE && part <= |chunk| && o + |chunk| <= BSIZE
  {
    && Shape(sb, fs') && g.dirtied <= g'.dirtied
    && (addr != 0 <==> Missing(sb, fs, ino, bn) <= FreeCount(g.bits))
    && (addr != 0 ==> FreeCount(g'.bits) + Missing(sb, fs, ino, bn) == FreeCount(g.bits))
    && (forall b :: 0 <= b < MAXFILE && b != bn ==> BlockNo(sb, fs', ino, b) == BlockNo(sb, fs, ino, b))
    && (addr != 0 ==> addr == BlockNo(sb, fs', ino, bn))
    && (addr != 0 ==>
          (fs'.inodes[ino].addrs[NDIRECT] == 0 <==> fs.inodes[ino].addrs[NDIRECT] == 0 && bn < NDIRECT))
    && (forall a :: 0 <= a < sb.size && fs'.data[a] != fs.data[a] ==>
          && (a in g'.dirtied || (addr != 0 && a == addr))
          && (a < sb.dstart || a == addr || a == fs'.inodes[ino].addrs[NDIRECT]))
    && (addr != 0 && (part == |chunk| || BlockNo(sb, fs, ino, bn) == 0) ==> addr in g'.dirtied)
    && (addr != 0 && part < |chunk| && BlockNo(sb, fs, ino, bn) != 0 ==>
          && addr == BlockNo(sb, fs, ino, bn) && addr < sb.size && g'.dirtied == g.dirtied
          && fs'.data == fs.data[addr := Splice(fs.data[addr], o, chunk[..part])])
  }

  lemma FullTakes(sb: Super, fs: Fs, g: Book, ino: nat, bn: nat, o: nat, chunk: seq<Byte>, part: nat, fs1: Fs, g1: Book)
    requires Ok(sb, fs, g, {}) && ino < sb.ninodes && bn < MAXFILE && part <= |chunk| && o + |chunk| <= BSIZE
    requires BmapTakes(sb, fs, g, ino, bn, 0, fs1, g1)
    ensures TurnTakes(sb, fs, g, ino, bn, o, chunk, part, 0, fs1, g1)
  {
    hide BlockNo, FreeCount, Owned, BitsMatch;
  }

  lemma PutTakes(sb: Super, fs: Fs, g: Book, ino: nat, bn: nat, o: nat, chunk: seq<Byte>, part: nat, addr: nat,
                 fs1: Fs, g1: Book)
    requires Ok(sb, fs, g, {}) && ino < sb.ninodes && bn < MAXFILE && part <= |chunk| && o + |chunk| <= BSIZE
    requires addr != 0 && Bmapped(sb, fs, g, ino, bn, addr, fs1, g1) && BmapTakes(sb, fs, g, ino, bn, addr, fs1, g1)
    ensures addr < sb.size
    ensures TurnTakes(sb, fs, g, ino, bn, o, chunk, part, addr, PutBlock(fs1, addr, Splice(fs1.data[addr], o, chunk[..part])),
                      if part == |chunk| then g1.(dirtied := g1.dirtied + {addr}) else g1)
  {
    hide FreeCount, Owned, BitsMatch, Grown;
    BlockNoIsData(sb, fs1, g1.bits, g1.owner, ino, bn);
    var d := Splice(fs1.data[addr], o, chunk[..part]);
    PutBlockKeeps(sb, fs1, g1.bits, g1.owner, ino, bn, d);
    var fs2 := PutBlock(fs1, addr, d);
    forall b | 0 <= b < MAXFILE ensures BlockNo(sb, fs2, ino, b) == BlockNo(sb, fs1, ino, b) {
      assert IsSlot(sb, SlotFor(ino, b));
    }
    hide BlockNo, SlotVal;
  }

  // ---------------------------------------------------------------- many turns

  /**
   A write that started at block `a` has got to block `b`: it has taken exactly the blocks that the
   file lacked, all changes are logged, and the file's blocks from `b` on are as before.
   */
  ghost predicate Paced(sb: Super, fs0: Fs, g0: Book, fs: Fs, g: Book, ino: nat, a: nat, b: nat) {
    && Shape(sb, fs0) && Shape(sb, fs) && ino < sb.ninodes && a <= b <= MAXFILE
    && FreeCount(g.bits) + Absent(sb, fs0, ino, a, b) == FreeCount(g0.bits)
    && (fs.inodes[ino].addrs[NDIRECT] == 0 <==> fs0.inodes[ino].addrs[NDIRECT] == 0 && !(a < b && b > NDIRECT))
    && g0.dirtied <= g.dirtied && AllLogged(sb, fs0, fs, g.dirtied)
    && (forall bn :: b <= bn < MAXFILE ==> Ahead(sb, fs0, g0, fs, g, ino, bn))
  }

  ghost predicate Ahead(sb: Super, fs0: Fs, g0: Book, fs: Fs, g: Book, ino: nat, bn: nat)
    requires Shape(sb, fs0) && Shape(sb, fs) && ino < sb.ninodes && bn < MAXFILE
  {
    var x := BlockNo(sb, fs0, ino, bn);
    && BlockNo(sb, fs, ino, bn) == x
    && (x != 0 ==> x < sb.size && fs.data[x] == fs0.data[x] && (x in g.dirtied <==> x in g0.dirtied))
  }

  lemma PacedStart(sb: Super, fs: Fs, g: Book, ino: nat, a: nat)
    requires Ok(sb, fs, g, {}) && ino < sb.ninodes && a <= MAXFILE
    ensures Paced(sb, fs, g, fs, g, ino, a, a)
  {
    hide BitsMatch, Absent, FreeCount;
    AbsentNone(sb, fs, ino, a);
    forall bn | a <= bn < MAXFILE ensures Ahead(sb, fs, g, fs, g, ino, bn) {
      if BlockNo(sb, fs, ino, bn) != 0 { BlockNoIsData(sb, fs, g.bits, g.owner, ino, bn); }
    }
  }

  /** The blocks further on are not touched by a turn. */
  lemma AheadTurn(sb: Super, fs0: Fs, g0: Book, fs: Fs, g: Book, ino: nat, b: nat, o: nat, chunk: seq<Byte>, part: nat,
                  addr: nat, fs': Fs, g': Book, bn: nat)
    requires Shape(sb, fs0) && Shape(sb, fs) && ino < sb.ninodes && b < bn < MAXFILE
    requires part <= |chunk| && o + |chunk| <= BSIZE
    requires Ahead(sb, fs0, g0, fs, g, ino, bn) && TurnTakes(sb, fs, g, ino, b, o, chunk, part, addr, fs', g')
    requires Ok(sb, fs', g', {}) && (addr != 0 ==> sb.IsData(addr))
    requires g'.dirtied <= g.dirtied + Charge(sb, addr, BlockNo(sb, fs, ino, b) == 0) + IndirectBlocks(sb, fs', ino)
    ensures Ahead(sb, fs0, g0, fs', g', ino, bn)
  {
    hide BitsMatch, FreeCount, SlotVal;
    var x := BlockNo(sb, fs0, ino, bn);
    assert BlockNo(sb, fs', ino, bn) == x;
    if x != 0 {
      BlockNoIsData(sb, fs', g'.bits, g'.owner, ino, bn);
      IndirectApart(sb, fs', g', ino, bn);
      if addr != 0 {
        BlockNoIsData(sb, fs', g'.bits, g'.owner, ino, b);
        BBlockIsNotData(sb, addr);
      }
    }
  }

  /** The indirect block and the bitmap block of its bit are no block of the file. */
  lemma IndirectApart(sb: Super, fs: Fs, g: Book, ino: nat, bn: nat)
    requires Ok(sb, fs, g, {}) && ino < sb.ninodes && bn < MAXFILE && BlockNo(sb, fs, ino, bn) != 0
    ensures BlockNo(sb, fs, ino, bn) !in IndirectBlocks(sb, fs, ino)
    ensures BlockNo(sb, fs, ino, bn) != fs.inodes[ino].addrs[NDIRECT]
  {
    var d := Direct(ino, NDIRECT);
    assert IsSlot(sb, d) && SlotVal(sb, fs, d) == fs.inodes[ino].addrs[NDIRECT];
    BlockNoIsData(sb, fs, g.bits, g.owner, ino, bn);
    IndirectInRange(sb, fs, g, ino);
    BBlockIsNotData(sb, fs.inodes[ino].addrs[NDIRECT]);
  }

  /** What a turn misses is by how much the absent blocks grow; it succeeds exactly if they are available. */
  lemma PacedCount(sb: Super, fs0: Fs, g0: Book, fs: Fs, g: Book, ino: nat, a: nat, b: nat)
    requires Paced(sb, fs0, g0, fs, g, ino, a, b) && b < MAXFILE
    ensures Absent(sb, fs0, ino, a, b + 1) == Absent(sb, fs0, ino, a, b) + Missing(sb, fs, ino, b)
    ensures Missing(sb, fs, ino, b) <= FreeCount(g.bits) <==> Absent(sb, fs0, ino, a, b + 1) <= FreeCount(g0.bits)
  {
    hide Absent, FreeCount, BlockNo;
    AbsentNext(sb, fs0, ino, a, b);
    assert Ahead(sb, fs0, g0, fs, g, ino, b);
  }

  lemma PacedTurn(sb: Super, fs0: Fs, g0: Book, fs: Fs, g: Book, ino: nat, a: nat, b: nat, o: nat, chunk: seq<Byte>,
                  addr: nat, fs': Fs, g': Book)
    requires Paced(sb, fs0, g0, fs, g, ino, a, b) && b < MAXFILE && o + |chunk| <= BSIZE && addr != 0
    requires TurnTakes(sb, fs, g, ino, b, o, chunk, |chunk|, addr, fs', g')
    requires Ok(sb, fs', g', {}) && sb.IsData(addr)
    requires g'.dirtied <= g.dirtied + Charge(sb, addr, BlockNo(sb, fs, ino, b) == 0) + IndirectBlocks(sb, fs', ino)
    ensures Paced(sb, fs0, g0, fs', g', ino, a, b + 1)
  {
    hide Absent, FreeCount, BlockNo, Owned, BitsMatch, Ahead;
    PacedCount(sb, fs0, g0, fs, g, ino, a, b);
    forall bn | b + 1 <= bn < MAXFILE ensures Ahead(sb, fs0, g0, fs', g', ino, bn) {
      AheadTurn(sb, fs0, g0, fs, g, ino, b, o, chunk, |chunk|, addr, fs', g', bn);
    }
  }

  // ------------------------------------------------------------------ the end

  /** The last turn could not read its share to the end, or found no block. */
  lemma Stopped(sb: Super, fs0: Fs, g0: Book, fs: Fs, g: Book, ino: nat, off: nat, src: seq<Byte>, readable: nat,
                tot: nat, len: nat, part: nat, addr: nat, fs': Fs, g': Book, m: nat)
    requires Ok(sb, fs0, g0, {}) && m < sb.dstart
    requires Paced(sb, fs0, g0, fs, g, ino, off / BSIZE, (off + tot) / BSIZE) && off + |src| <= MAXFILE * BSIZE
    requires tot < |src| && tot <= readable && (tot == 0 || (off + tot) % BSIZE == 0)
    requires tot > 0 ==> (off + tot - 1) / BSIZE < (off + tot) / BSIZE
    requires len == TurnLength(off + tot, |src| - tot)
    requires part == (if readable < tot + len then readable - tot else len) && (addr == 0 || part < len)
    requires (off + tot) / BSIZE < MAXFILE && (off + tot) % BSIZE + len <= BSIZE
    requires TurnTakes(sb, fs, g, ino, (off + tot) / BSIZE, (off + tot) % BSIZE, src[tot..tot + len], part, addr, fs', g')
    ensures Reaches(sb, fs0, g0, ino, off, |src|, readable, tot)
    ensures Strays(sb, fs0, g0, ino, off, |src|, readable) == if addr == 0 then 0 else part
    ensures AllLogged(sb, fs0, fs', g'.dirtied + {m}) <==> !Slips(sb, fs0, g0, ino, off, src, readable)
  {
    hide Absent, FreeCount, BlockNo, TurnLength, Owned, BitsMatch;
    var a, b := off / BSIZE, (off + tot) / BSIZE;
    WholeHere(off, |src|, readable, tot, len);
    PacedCount(sb, fs0, g0, fs, g, ino, a, b);
    if tot > 0 { AbsentMore(sb, fs0, ino, a, (off + tot - 1) / BSIZE + 1, b); }
    if addr == 0 {
      NoStrays(sb, fs0, g0, ino, off, |src|, readable, tot);
    } else {
      StrayTurn(sb, fs0, g0, fs, g, ino, off, src, readable, tot, len, part, addr, fs', g', m);
    }
  }

  lemma NoStrays(sb: Super, fs0: Fs, g0: Book, ino: nat, off: nat, n: nat, readable: nat, tot: nat)
    requires Shape(sb, fs0) && ino < sb.ninodes && off + n <= MAXFILE * BSIZE && tot < n
    requires (off + tot) / BSIZE < MAXFILE
    requires tot <= Whole(off, n, readable) && !Avail(sb, fs0, g0, ino, off, (off + tot) / BSIZE)
    ensures Strays(sb, fs0, g0, ino, off, n, readable) == 0
  {
    hide Absent, FreeCount;
    var w := Whole(off, n, readable);
    if readable < n {
      assert (off + tot) / BSIZE <= (off + w) / BSIZE;
      AbsentMore(sb, fs0, ino, off / BSIZE, (off + tot) / BSIZE + 1, (off + w) / BSIZE + 1);
    }
  }

  lemma StrayTurn(sb: Super, fs0: Fs, g0: Book, fs: Fs, g: Book, ino: nat, off: nat, src: seq<Byte>, readable: nat,
                  tot: nat, len: nat, part: nat, addr: nat, fs': Fs, g': Book, m: nat)
    requires Ok(sb, fs0, g0, {}) && m < sb.dstart
    requires Paced(sb, fs0, g0, fs, g, ino, off / BSIZE, (off + tot) / BSIZE) && off + |src| <= MAXFILE * BSIZE
    requires tot + len <= |src| && (off + tot) / BSIZE < MAXFILE && (off + tot) % BSIZE + len <= BSIZE
    requires readable < |src| && Whole(off, |src|, readable) == tot && part == readable - tot < len && addr != 0
    requires Avail(sb, fs0, g0, ino, off, (off + tot) / BSIZE)
    requires TurnTakes(sb, fs, g, ino, (off + tot) / BSIZE, (off + tot) % BSIZE, src[tot..tot + len], part, addr, fs', g')
    ensures Strays(sb, fs0, g0, ino, off, |src|, readable) == part
    ensures AllLogged(sb, fs0, fs', g'.dirtied + {m}) <==> !Slips(sb, fs0, g0, ino, off, src, readable)
  {
    hide Absent, FreeCount, BlockNo, Whole, Avail, Owned, BitsMatch;
    var b, o := (off + tot) / BSIZE, (off + tot) % BSIZE;
    var x := BlockNo(sb, fs0, ino, b);
    assert Ahead(sb, fs0, g0, fs, g, ino, b);
    var piece := src[tot..tot + len][..part];
    assert piece == src[tot..tot + part];
    if x != 0 {
      BlockNoIsData(sb, fs0, g0.bits, g0.owner, ino, b);
      SpliceSame(fs0.data[x], o, piece);
      forall y | 0 <= y < sb.size && y != x && fs'.data[y] != fs0.data[y] ensures y in g'.dirtied {
        assert fs'.data[y] == fs.data[y];
      }
    }
  }

  lemma SpliceSame(b: Block, o: nat, chunk: seq<Byte>)
    requires o + |chunk| <= BSIZE
    ensures Splice(b, o, chunk) == b <==> b[o..o + |chunk|] == chunk
  {
    if Splice(b, o, chunk) == b {
      assert b[o..o + |chunk|] == Splice(b, o, chunk)[o..o + |chunk|] == chunk;
    }
  }

  /** Everything could be read and written. */
  lemma Completed(sb: Super, fs0: Fs, g0: Book, fs: Fs, g: Book, ino: nat, off: nat, src: seq<Byte>, readable: nat,
                  b: nat, m: nat)
    requires Paced(sb, fs0, g0, fs, g, ino, off / BSIZE, b) && off + |src| <= MAXFILE * BSIZE && |src| <= readable
    requires |src| > 0 ==> (off + |src| - 1) / BSIZE < b
    ensures Reaches(sb, fs0, g0, ino, off, |src|, readable, |src|)
    ensures Strays(sb, fs0, g0, ino, off, |src|, readable) == 0
    ensures AllLogged(sb, fs0, fs, g.dirtied + {m}) && !Slips(sb, fs0, g0, ino, off, src, readable)
    ensures m == sb.IBlock(ino) ==> Ended(sb, fs0, g0, fs, g, ino, off, src, readable, |src|)
  {
    hide Absent, FreeCount, BlockNo;
    if |src| > 0 { AbsentMore(sb, fs0, ino, off / BSIZE, (off + |src| - 1) / BSIZE + 1, b); }
  }

  /** Which block a turn is in. */
  lemma BlockOfTurn(off: nat, tot: nat, n: nat, turns: nat, len: nat)
    requires tot < n && (turns == 0 ==> tot == 0) && (turns == 0 || off + tot == TurnStart(off, turns))
    requires len == TurnLength(off + tot, n - tot)
    ensures (off + tot) / BSIZE == off / BSIZE + turns && (tot == 0 || (off + tot) % BSIZE == 0)
    ensures (off + tot + len - 1) / BSIZE == off / BSIZE + turns
  {
    var pos := off + tot;
    assert pos == pos / BSIZE * BSIZE + pos % BSIZE;
    assert pos / BSIZE == off / BSIZE + turns;
  }

  /** How a `writei` ends: `tot` bytes reported, and what else is in the blocks. */
  ghost predicate Ended(sb: Super, fs0: Fs, g0: Book, fs: Fs, g: Book, ino: nat, off: nat, src: seq<Byte>,
                        readable: nat, tot: nat)
    requires Shape(sb, fs0) && ino < sb.ninodes && off + |src| <= MAXFILE * BSIZE
  {
    && Reaches(sb, fs0, g0, ino, off, |src|, readable, tot)
    && tot + Strays(sb, fs0, g0, ino, off, |src|, readable) <= |src|
    && (AllLogged(sb, fs0, fs, g.dirtied + {sb.IBlock(ino)}) <==> !Slips(sb, fs0, g0, ino, off, src, readable))
    && (tot + Strays(sb, fs0, g0, ino, off, |src|, readable) < (if readable < |src| then readable else |src|) ==> DiskFull(g))
  }

  ghost predicate DiskFull(g: Book) {
    forall c :: 0 <= c < |g.bits| ==> g.bits[c]
  }

  lemma InodeBlock(sb: Super, ino: nat)
    requires sb.Valid() && ino < sb.ninodes
    ensures sb.IBlock(ino) < sb.dstart
  {
  }

  lemma SameData(sb: Super, fs0: Fs, fs: Fs, ino: nat, end: nat, dirtied: set<nat>)
    requires ino < |fs.inodes|
    ensures AllLogged(sb, fs0, Resized(fs, ino, end), dirtied) == AllLogged(sb, fs0, fs, dirtied)
  {
  }

  /** Only the reported bytes have changed exactly if the others equal what was there. */
  lemma OnlyReported(sb: Super, fs: Fs, fs': Fs, ino: nat, off: nat, src: seq<Byte>, all: nat, r: nat)
    requires Shape(sb, fs) && NoHoles(sb, fs) && Shape(sb, fs') && NoHoles(sb, fs') && ino < sb.ninodes
    requires off <= fs.inodes[ino].size && r <= all <= |src| && WriteShown(sb, fs, fs', ino, off, src[..all], r)
    ensures WriteDone(sb, fs, fs', ino, off, src[..r]) <==>
      forall k :: r <= k < all && off + k < fs.inodes[ino].size ==> src[k] == Content(sb, fs, ino)[off + k]
  {
    hide Shown, Spliced, FileByte, BlockNo;
    var c := Content(sb, fs, ino);
    OldContent(sb, fs, ino);
    ShownIs(c, off, src[..all], r);
    assert src[..all][..r] == src[..r];
    assert forall k :: 0 <= k < all ==> src[..all][k] == src[k];
  }

  /**
   What a `writei` that started in (fs0, g0) and reports `r` bytes has done: these bytes are in the
   file, and of a share that could not be read to its end those bytes that could. No other file has
   changed, and no file has a hole. Only the reported bytes have changed exactly if the others equal
   what was there or lie past the end of the file, and every changed block is logged exactly if
   none slips through. The inode is logged in any case.
   */
  ghost predicate WriteOutcome(sb: Super, fs0: Fs, g0: Book, fs: Fs, g: Book, ino: nat, off: nat, src: seq<Byte>,
                               readable: nat, r: nat)
    requires Shape(sb, fs0) && NoHoles(sb, fs0) && ino < sb.ninodes && off <= fs0.inodes[ino].size
    requires off + |src| <= MAXFILE * BSIZE && Shape(sb, fs) && NoHoles(sb, fs)
  {
    var q := Strays(sb, fs0, g0, ino, off, |src|, readable);
    && Reaches(sb, fs0, g0, ino, off, |src|, readable, r) && r + q <= |src|
    && WriteShown(sb, fs0, fs, ino, off, src[..r + q], r)
    && (WriteDone(sb, fs0, fs, ino, off, src[..r]) <==>
          forall k :: r <= k < r + q && off + k < fs0.inodes[ino].size ==> src[k] == Content(sb, fs0, ino)[off + k])
    && (AllLogged(sb, fs0, fs, g.dirtied) <==> !Slips(sb, fs0, g0, ino, off, src, readable))
    && sb.IBlock(ino) in g.dirtied
    && (r + q < (if readable < |src| then readable else |src|) ==> DiskFull(g))
  }

  // ------------------------------------------------------------------ filewrite

  /** `WriteShown`, with what it needs. */
  ghost predicate Reshown(sb: Super, fs: Fs, fs': Fs, ino: nat, off: nat, bytes: seq<Byte>, r: nat) {
    && Shape(sb, fs) && NoHoles(sb, fs) && Shape(sb, fs') && NoHoles(sb, fs') && ino < sb.ninodes
    && off <= fs.inodes[ino].size && r <= |bytes| && WriteShown(sb, fs, fs', ino, off, bytes, r)
  }

  lemma ShownWhole(sb: Super, fs: Fs, fs': Fs, ino: nat, off: nat, bytes: seq<Byte>)
    ensures Reshown(sb, fs, fs', ino, off, bytes, |bytes|) <==> Rewritten(sb, fs, fs', ino, off, bytes)
  {
    hide FileByte, BlockNo;
    if Shape(sb, fs) && NoHoles(sb, fs) && ino < sb.ninodes && off <= fs.inodes[ino].size {
      var c := Content(sb, fs, ino);
      assert Spliced(c, off, bytes)[..if off + |bytes| < |c| then |c| else off + |bytes|] == Spliced(c, off, bytes);
    }
  }

  lemma ShownTwice(c: seq<Byte>, off: nat, a: seq<Byte>, b: seq<Byte>, r: nat)
    requires off <= |c| && r <= |b|
    ensures Shown(Spliced(c, off, a), off + |a|, b, r) == Shown(c, off, a + b, |a| + r)
  {
    SplicedTwice(c, off, a, b);
  }

  /** A chunk after others that were written whole. */
  lemma ReshownMore(sb: Super, fs0: Fs, fs1: Fs, fs2: Fs, ino: nat, off: nat, a: seq<Byte>, b: seq<Byte>, r: nat)
    requires Rewritten(sb, fs0, fs1, ino, off, a) && Reshown(sb, fs1, fs2, ino, off + |a|, b, r)
    ensures Reshown(sb, fs0, fs2, ino, off, a + b, |a| + r)
  {
    hide FileByte, BlockNo, Spliced, Shown;
    ShownTwice(Content(sb, fs0, ino), off, a, b, r);
    forall i | 0 <= i < sb.ninodes && i != ino ensures Content(sb, fs2, i) == Content(sb, fs0, i) {
      assert Content(sb, fs2, i) == Content(sb, fs1, i) == Content(sb, fs0, i);
    }
  }

  /** Strays come after all whole shares, and end where the source does. */
  lemma StraysLast(sb: Super, fs: Fs, g: Book, ino: nat, off: nat, n: nat, readable: nat, r: nat)
    requires Shape(sb, fs) && ino < sb.ninodes && off + n <= MAXFILE * BSIZE
    requires Reaches(sb, fs, g, ino, off, n, readable, r)
    ensures r <= readable && r <= n
    ensures Strays(sb, fs, g, ino, off, n, readable) > 0 ==> r + Strays(sb, fs, g, ino, off, n, readable) == readable < n
  {
    hide Absent, FreeCount;
    if r < Whole(off, n, readable) { NoStrays(sb, fs, g, ino, off, n, readable, r); }
  }

  /** A chunk of `filewrite` after others that were written whole. */
  lemma ChunkShown(sb: Super, fs0: Fs, fs1: Fs, g1: Book, fs: Fs, g: Book, ino: nat, off: nat, sofar: seq<Byte>,
                   chunk: seq<Byte>, readable: nat, r: nat)
    requires Rewritten(sb, fs0, fs1, ino, off, sofar) && Shape(sb, fs) && NoHoles(sb, fs)
    requires off + |sofar| <= fs1.inodes[ino].size && off + |sofar| + |chunk| <= MAXFILE * BSIZE
    requires WriteOutcome(sb, fs1, g1, fs, g, ino, off + |sofar|, chunk, readable, r)
    ensures var q := Strays(sb, fs1, g1, ino, off + |sofar|, |chunk|, readable);
      && r + q <= |chunk| && r <= readable && (q > 0 ==> r + q == readable)
      && Reshown(sb, fs0, fs, ino, off, sofar + chunk[..r + q], |sofar| + r)
      && (r + q < |chunk| && r + q < readable ==> DiskFull(g))
  {
    hide Reaches, Strays, Slips, AllLogged, WriteDone, NoHoles, Content, Shown;
    StraysLast(sb, fs1, g1, ino, off + |sofar|, |chunk|, readable, r);
    var q := Strays(sb, fs1, g1, ino, off + |sofar|, |chunk|, readable);
    ReshownMore(sb, fs0, fs1, fs, ino, off, sofar, chunk[..r + q], r);
  }

  /** The offset has not passed the end of the file. */
  lemma GrownSize(sb: Super, fs0: Fs, fs1: Fs, ino: nat, off: nat, bytes: seq<Byte>)
    ensures Rewritten(sb, fs0, fs1, ino, off, bytes) ==> off + |bytes| <= fs1.inodes[ino].size
  {
    hide FileByte, BlockNo;
    if Rewritten(sb, fs0, fs1, ino, off, bytes) {
      OldContent(sb, fs1, ino);
    }
  }
}
