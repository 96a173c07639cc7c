/**
 What the operations of kernel/fs.c do, as relations between states, and the lemmas that
 compose them. `Ok` and `NoHoles` are the invariants that all of them keep.
 */
module FsOps {
  import opened Blocks
  import opened FsSpec
  import opened FsFiles
  import LogSpec

  ghost predicate BitsMatch(sb: Super, data: Data, bits: seq<bool>) {
    && sb.Valid() && |data| == |bits| == sb.size
    && (forall b :: 0 <= b < sb.size ==> bits[b] == Bit(sb, data, b))
  }

  lemma MarkMatches(sb: Super, data: Data, bits: seq<bool>, b: nat, on: bool)
    requires BitsMatch(sb, data, bits) && b < sb.size
    ensures BitsMatch(sb, SetBit(sb, data, b, on), bits[b := on])
  {
    forall c | 0 <= c < sb.size ensures bits[b := on][c] == Bit(sb, SetBit(sb, data, b, on), c) {
      BitSetBit(sb, data, b, on, c);
    }
  }

  lemma BBlockIsNotData(sb: Super, b: nat)
    requires sb.Valid() && b < sb.size
    ensures sb.BBlock(b) < sb.dstart
  {
  }

  /** Storing in a data block changes no bit of the map. */
  lemma StoreMatches(sb: Super, data: Data, bits: seq<bool>, a: nat, d: Block)
    requires BitsMatch(sb, data, bits) && sb.IsData(a)
    ensures BitsMatch(sb, data[a := d], bits)
  {
    forall c | 0 <= c < sb.size ensures bits[c] == Bit(sb, data[a := d], c) {
      BBlockIsNotData(sb, c);
      assert bits[c] == Bit(sb, data, c);
    }
  }

  lemma PlaceInMap(b: nat, bi: nat)
    requires b % BPB == 0 && bi < BPB
    ensures (b + bi) / BPB == b / BPB && (b + bi) % BPB == bi && (b + bi) % 8 == bi % 8
  {
    var q := b / BPB;
    assert b == q * BPB;
    LastBits(q * 1024, bi);
  }

  datatype Outcome = Done | Panic

  /** Bookkeeping of the proof: the bitmap as booleans, block owners, blocks given to `log_write`. */
  datatype Book = Book(bits: seq<bool>, owner: map<nat, Slot>, dirtied: set<nat>)

  /** The invariant, but for blocks just allocated and not yet stored in a slot. */
  ghost predicate Ok(sb: Super, fs: Fs, g: Book, loose: set<nat>) {
    Shape(sb, fs) && Owned(sb, fs, g.bits, g.owner, loose) && BitsMatch(sb, fs.data, g.bits)
  }

  /** What `balloc` does: the first free block, zeroed and marked, or 0 and no free block. */
  ghost predicate Balloced(sb: Super, fs: Fs, g: Book, b: nat, fs': Fs, g': Book)
    requires Ok(sb, fs, g, {})
  {
    if b == 0 then fs' == fs && g' == g && (forall c :: 0 <= c < sb.size ==> g.bits[c])
    else
      && sb.IsData(b) && !g.bits[b] && (forall c :: 0 <= c < b ==> g.bits[c])
      && g' == Book(g.bits[b := true], g.owner, g.dirtied + {sb.BBlock(b), b})
      && Ok(sb, fs', g', {b}) && fs'.inodes == fs.inodes && fs'.data[b] == ZeroBlock() && Grown(sb, fs, fs')
      && OnlyIn(sb, fs, fs', {sb.BBlock(b), b})
  }

  /** Only these blocks may have changed. */
  ghost predicate OnlyIn(sb: Super, fs: Fs, fs': Fs, blocks: set<nat>) {
    |fs.data| == |fs'.data| == sb.size && forall a :: 0 <= a < sb.size && a !in blocks ==> fs'.data[a] == fs.data[a]
  }

  lemma BallocWorks(sb: Super, fs: Fs, g: Book, b: nat)
    requires Ok(sb, fs, g, {}) && b < sb.size && !g.bits[b] && (forall c :: 0 <= c < b ==> g.bits[c])
    ensures b != 0
    ensures Balloced(sb, fs, g, b, fs.(data := SetBit(sb, fs.data, b, true)[b := ZeroBlock()]),
                     Book(g.bits[b := true], g.owner, g.dirtied + {sb.BBlock(b), b}))
  {
    var marked := SetBit(sb, fs.data, b, true);
    BBlockIsNotData(sb, b);
    MarkMatches(sb, fs.data, g.bits, b, true);
    AllocKeeps(sb, fs, marked[b := ZeroBlock()], g.bits, g.owner, b);
    StoreMatches(sb, marked, g.bits[b := true], b, ZeroBlock());
  }

  /**
   A slot is loaded: it keeps its block, or it gets a new one, or the disk is full. `also`
   is what a new block dirties besides itself and the bitmap.
   */
  ghost predicate SlotLoaded(sb: Super, fs: Fs, g: Book, s: Slot, also: set<nat>, addr: nat, fs': Fs, g': Book)
    requires Ok(sb, fs, g, {}) && IsSlot(sb, s)
  {
    && Ok(sb, fs', g', {}) && Grown(sb, fs, fs') && addr == SlotVal(sb, fs', s)
    && (SlotVal(sb, fs, s) != 0 ==> fs' == fs && g' == g)
    && (addr == 0 ==> fs' == fs && g' == g && forall c :: 0 <= c < sb.size ==> g.bits[c])
    && (addr != 0 && SlotVal(sb, fs, s) == 0 ==> g'.dirtied == g.dirtied + {sb.BBlock(addr), addr} + also)
    && (forall t :: IsSlot(sb, t) && t != s ==> SlotVal(sb, fs', t) == SlotVal(sb, fs, t))
  }

  lemma LoadedDirect(sb: Super, fs: Fs, g: Book, ino: nat, i: nat, addr: nat, fs1: Fs, g1: Book)
    requires Ok(sb, fs, g, {}) && ino < sb.ninodes && i <= NDIRECT && fs.inodes[ino].addrs[i] == 0
    requires addr != 0 && Balloced(sb, fs, g, addr, fs1, g1)
    ensures ino < |fs1.inodes| && i < |fs1.inodes[ino].addrs|
    ensures SlotLoaded(sb, fs, g, Direct(ino, i), {}, addr, SetAddr(fs1, ino, i, addr),
                       g1.(owner := g1.owner[addr := Direct(ino, i)]))
  {
    var fs2 := SetAddr(fs1, ino, i, addr);
    AttachDirect(sb, fs1, g1.bits, g1.owner, ino, i, addr);
    GrownTransitive(sb, fs, fs1, fs2);
  }

  lemma LoadedEntry(sb: Super, fs: Fs, g: Book, ino: nat, j: nat, addr: nat, fs1: Fs, g1: Book)
    requires Ok(sb, fs, g, {}) && ino < sb.ninodes && j < NINDIRECT
    requires SlotVal(sb, fs, Direct(ino, NDIRECT)) != 0 && SlotVal(sb, fs, Indirect(ino, j)) == 0
    requires addr != 0 && Balloced(sb, fs, g, addr, fs1, g1)
    ensures var ind := fs.inodes[ino].addrs[NDIRECT];
      && ind < |fs1.data| && addr < WORD_LIMIT
      && SlotLoaded(sb, fs, g, Indirect(ino, j), {ind}, addr, SetEntry(fs1, ind, j, addr),
                    g1.(owner := g1.owner[addr := Indirect(ino, j)], dirtied := g1.dirtied + {ind}))
  {
    var ind := fs.inodes[ino].addrs[NDIRECT];
    assert IsSlot(sb, Direct(ino, NDIRECT)) && sb.IsData(ind);
    AttachIndirect(sb, fs1, g1.bits, g1.owner, ino, j, addr);
    var fs2 := SetEntry(fs1, ind, j, addr);
    GrownTransitive(sb, fs, fs1, fs2);
    StoreMatches(sb, fs1.data, g1.bits, ind, SetWord(fs1.data[ind], j, addr));
  }

  /** An inode's indirect block and the bitmap block that has its bit. */
  ghost function IndirectBlocks(sb: Super, fs: Fs, ino: nat): set<nat>
    requires Shape(sb, fs) && ino < sb.ninodes
  {
    var a := fs.inodes[ino].addrs[NDIRECT];
    if a == 0 then {} else {a, sb.BBlock(a)}
  }

  /** What `bmap` does. */
  ghost predicate Bmapped(sb: Super, fs: Fs, g: Book, ino: nat, bn: nat, addr: nat, fs': Fs, g': Book)
    requires Ok(sb, fs, g, {}) && ino < sb.ninodes && bn < MAXFILE
  {
    && Ok(sb, fs', g', {}) && Grown(sb, fs, fs') && addr == BlockNo(sb, fs', ino, bn)
    && (BlockNo(sb, fs, ino, bn) != 0 ==> fs' == fs && g' == g)
    && (addr == 0 ==> forall c :: 0 <= c < sb.size ==> g'.bits[c])
    && (fs.inodes[ino].addrs[NDIRECT] != 0 ==> fs'.inodes[ino].addrs[NDIRECT] == fs.inodes[ino].addrs[NDIRECT])
    && g'.dirtied <= g.dirtied + (if addr == 0 then {} else {addr, sb.BBlock(addr)}) + IndirectBlocks(sb, fs', ino)
  }

  lemma BmapDirect(sb: Super, fs: Fs, g: Book, ino: nat, bn: nat, addr: nat, fs1: Fs, g1: Book)
    requires Ok(sb, fs, g, {}) && ino < sb.ninodes && bn < NDIRECT
    requires SlotLoaded(sb, fs, g, Direct(ino, bn), {}, addr, fs1, g1)
    ensures Bmapped(sb, fs, g, ino, bn, addr, fs1, g1)
  {
    assert IsSlot(sb, Direct(ino, NDIRECT));
    assert SlotVal(sb, fs1, Direct(ino, NDIRECT)) == SlotVal(sb, fs, Direct(ino, NDIRECT));
  }

  lemma BmapNoIndirect(sb: Super, fs: Fs, g: Book, ino: nat, bn: nat, fs1: Fs, g1: Book)
    requires Ok(sb, fs, g, {}) && ino < sb.ninodes && NDIRECT <= bn < MAXFILE
    requires SlotLoaded(sb, fs, g, Direct(ino, NDIRECT), {}, 0, fs1, g1)
    ensures Bmapped(sb, fs, g, ino, bn, 0, fs1, g1)
  {
  }

  lemma BmapIndirect(sb: Super, fs: Fs, g: Book, ino: nat, bn: nat, ind: nat, fs1: Fs, g1: Book,
                     addr: nat, fs2: Fs, g2: Book)
    requires Ok(sb, fs, g, {}) && ino < sb.ninodes && NDIRECT <= bn < MAXFILE && ind != 0
    requires SlotLoaded(sb, fs, g, Direct(ino, NDIRECT), {}, ind, fs1, g1)
    requires SlotLoaded(sb, fs1, g1, Indirect(ino, bn - NDIRECT), {ind}, addr, fs2, g2)
    ensures Bmapped(sb, fs, g, ino, bn, addr, fs2, g2)
  {
    hide Owned, BitsMatch, Grown;
    GrownTransitive(sb, fs, fs1, fs2);
    assert IsSlot(sb, Direct(ino, NDIRECT));
    assert SlotVal(sb, fs2, Direct(ino, NDIRECT)) == SlotVal(sb, fs1, Direct(ino, NDIRECT)) == ind;
  }

  // ------------------------------------------------------------ what bmap takes

  /** How many blocks are not marked. */
  ghost function FreeCount(bits: seq<bool>): nat {
    |set b | 0 <= b < |bits| && !bits[b]|
  }

  lemma FreeTaken(bits: seq<bool>, b: nat)
    requires b < |bits| && !bits[b]
    ensures FreeCount(bits[b := true]) == FreeCount(bits) - 1
  {
    var bits' := bits[b := true];
    var x, y := set c | 0 <= c < |bits| && !bits[c], set c | 0 <= c < |bits'| && !bits'[c];
    assert b in x && y == x - {b};
  }

  lemma FreeNone(bits: seq<bool>)
    ensures FreeCount(bits) == 0 <==> forall c :: 0 <= c < |bits| ==> bits[c]
  {
    var x := set c | 0 <= c < |bits| && !bits[c];
    if c :| 0 <= c < |bits| && !bits[c] { assert c in x; }
  }

  /** What loading a slot takes: one free block if the slot was empty; what changes is logged. */
  ghost predicate SlotTakes(sb: Super, fs: Fs, g: Book, was: nat, also: set<nat>, addr: nat, fs': Fs, g': Book) {
    var blocks := if addr != 0 && was == 0 then {sb.BBlock(addr), addr} + also else {};
    && OnlyIn(sb, fs, fs', blocks) && g'.dirtied == g.dirtied + blocks
    && FreeCount(g'.bits) + (if addr != 0 && was == 0 then 1 else 0) == FreeCount(g.bits)
    && (addr == 0 ==> FreeCount(g.bits) == 0)
  }

  lemma NothingTaken(sb: Super, fs: Fs, g: Book, was: nat, also: set<nat>)
    requires |fs.data| == sb.size && (was == 0 ==> FreeCount(g.bits) == 0)
    ensures SlotTakes(sb, fs, g, was, also, was, fs, g)
  {
    assert g.dirtied + {} == g.dirtied;
  }

  lemma FullDisk(sb: Super, fs: Fs, g: Book, fs1: Fs, g1: Book)
    requires Ok(sb, fs, g, {}) && Balloced(sb, fs, g, 0, fs1, g1)
    ensures FreeCount(g.bits) == 0
  {
    FreeNone(g.bits);
  }

  lemma DirectTakes(sb: Super, fs: Fs, g: Book, ino: nat, i: nat, addr: nat, fs1: Fs, g1: Book)
    requires Ok(sb, fs, g, {}) && addr != 0 && Balloced(sb, fs, g, addr, fs1, g1)
    requires ino < |fs1.inodes| && i < |fs1.inodes[ino].addrs|
    ensures SlotTakes(sb, fs, g, 0, {}, addr, SetAddr(fs1, ino, i, addr), g1.(owner := g1.owner[addr := Direct(ino, i)]))
  {
    hide Owned, BitsMatch, Grown, FreeCount;
    BookSize(sb, fs, g);
    FreeTaken(g.bits, addr);
    assert {sb.BBlock(addr), addr} + {} == {sb.BBlock(addr), addr};
  }

  lemma EntryTakes(sb: Super, fs: Fs, g: Book, ind: nat, ino: nat, j: nat, addr: nat, fs1: Fs, g1: Book)
    requires Ok(sb, fs, g, {}) && addr != 0 && Balloced(sb, fs, g, addr, fs1, g1)
    requires ind < |fs1.data| && j < NINDIRECT && addr < WORD_LIMIT
    ensures SlotTakes(sb, fs, g, 0, {ind}, addr, SetEntry(fs1, ind, j, addr),
                      g1.(owner := g1.owner[addr := Indirect(ino, j)], dirtied := g1.dirtied + {ind}))
  {
    hide Owned, BitsMatch, Grown, FreeCount, SetWord;
    BookSize(sb, fs, g);
    FreeTaken(g.bits, addr);
    assert g.dirtied + {sb.BBlock(addr), addr} + {ind} == g.dirtied + ({sb.BBlock(addr), addr} + {ind});
  }

  lemma BookSize(sb: Super, fs: Fs, g: Book)
    requires Ok(sb, fs, g, {})
    ensures |g.bits| == sb.size
  {
  }

  /**
   What `bmap` takes: it succeeds exactly if there are as many free blocks as the file misses.
   Other blocks of the file are where they were; a changed block is logged, and among data blocks
   only a new block and the indirect block can have changed.
   */
  ghost predicate BmapTakes(sb: Super, fs: Fs, g: Book, ino: nat, bn: nat, addr: nat, fs': Fs, g': Book)
    requires Shape(sb, fs) && ino < sb.ninodes && bn < MAXFILE
  {
    && Shape(sb, fs') && g.dirtied <= g'.dirtied
    && (addr != 0 <==> Missing(sb, fs, ino, bn) <= FreeCount(g.bits))
    && (addr != 0 ==> FreeCount(g'.bits) + Missing(sb, fs, ino, bn) == FreeCount(g.bits))
    && (addr != 0 && BlockNo(sb, fs, ino, bn) == 0 ==> addr in g'.dirtied)
    && (forall a :: 0 <= a < sb.size && fs'.data[a] != fs.data[a] ==>
          a in g'.dirtied && (a < sb.dstart || a == addr || a == fs'.inodes[ino].addrs[NDIRECT]))
    && (forall b :: 0 <= b < MAXFILE && b != bn ==> BlockNo(sb, fs', ino, b) == BlockNo(sb, fs, ino, b))
    && (addr != 0 ==>
          (fs'.inodes[ino].addrs[NDIRECT] == 0 <==> fs.inodes[ino].addrs[NDIRECT] == 0 && bn < NDIRECT))
  }

  /** Blocks of the file other than the one loaded. */
  lemma OthersStay(sb: Super, fs: Fs, g: Book, s: Slot, also: set<nat>, addr: nat, fs': Fs, g': Book, ino: nat, bn: nat)
    requires Ok(sb, fs, g, {}) && IsSlot(sb, s) && SlotLoaded(sb, fs, g, s, also, addr, fs', g')
    requires ino < sb.ninodes && bn < MAXFILE && SlotFor(ino, bn) != s
    ensures BlockNo(sb, fs', ino, bn) == BlockNo(sb, fs, ino, bn)
  {
    hide Owned, BitsMatch, Grown, SlotVal;
    assert IsSlot(sb, SlotFor(ino, bn));
  }

  /** The number of the indirect block when another slot is loaded. */
  lemma IndirectStays(sb: Super, fs: Fs, g: Book, s: Slot, also: set<nat>, addr: nat, fs': Fs, g': Book, ino: nat)
    requires Ok(sb, fs, g, {}) && IsSlot(sb, s) && SlotLoaded(sb, fs, g, s, also, addr, fs', g')
    requires ino < sb.ninodes && s != Direct(ino, NDIRECT)
    ensures fs'.inodes[ino].addrs[NDIRECT] == fs.inodes[ino].addrs[NDIRECT]
  {
    hide Owned, BitsMatch, Grown;
    assert IsSlot(sb, Direct(ino, NDIRECT));
    assert SlotVal(sb, fs', Direct(ino, NDIRECT)) == SlotVal(sb, fs, Direct(ino, NDIRECT));
  }

  /** A block in a slot is a data block, and the bitmap block of its bit is not. */
  lemma LoadedIsData(sb: Super, fs: Fs, g: Book, s: Slot, also: set<nat>, addr: nat, fs': Fs, g': Book)
    requires Ok(sb, fs, g, {}) && IsSlot(sb, s) && SlotLoaded(sb, fs, g, s, also, addr, fs', g')
    ensures Shape(sb, fs') && addr == SlotVal(sb, fs', s)
    ensures addr != 0 ==> sb.IsData(addr) && sb.BBlock(addr) < sb.dstart
  {
    hide BitsMatch, Grown, SlotVal;
    if addr != 0 {
      assert addr in g'.owner;
      BBlockIsNotData(sb, addr);
    }
  }

  lemma BmapDirectTakes(sb: Super, fs: Fs, g: Book, ino: nat, bn: nat, addr: nat, fs1: Fs, g1: Book)
    requires Ok(sb, fs, g, {}) && ino < sb.ninodes && bn < NDIRECT
    requires SlotLoaded(sb, fs, g, Direct(ino, bn), {}, addr, fs1, g1)
    requires SlotTakes(sb, fs, g, fs.inodes[ino].addrs[bn], {}, addr, fs1, g1)
    ensures BmapTakes(sb, fs, g, ino, bn, addr, fs1, g1)
  {
    hide Owned, BitsMatch, SlotLoaded, FreeCount;
    LoadedIsData(sb, fs, g, Direct(ino, bn), {}, addr, fs1, g1);
    IndirectStays(sb, fs, g, Direct(ino, bn), {}, addr, fs1, g1, ino);
    forall b | 0 <= b < MAXFILE && b != bn ensures BlockNo(sb, fs1, ino, b) == BlockNo(sb, fs, ino, b) {
      OthersStay(sb, fs, g, Direct(ino, bn), {}, addr, fs1, g1, ino, b);
    }
    DirectKept(sb, fs, g, ino, bn, addr, fs1, g1);
  }

  lemma DirectKept(sb: Super, fs: Fs, g: Book, ino: nat, i: nat, addr: nat, fs1: Fs, g1: Book)
    requires Ok(sb, fs, g, {}) && ino < sb.ninodes && i <= NDIRECT
    requires SlotLoaded(sb, fs, g, Direct(ino, i), {}, addr, fs1, g1)
    ensures fs.inodes[ino].addrs[i] != 0 ==> addr == fs.inodes[ino].addrs[i]
  {
    hide Owned, BitsMatch, Grown;
  }

  lemma BmapNoIndirectTakes(sb: Super, fs: Fs, g: Book, ino: nat, bn: nat, fs1: Fs, g1: Book)
    requires Ok(sb, fs, g, {}) && ino < sb.ninodes && NDIRECT <= bn < MAXFILE
    requires SlotLoaded(sb, fs, g, Direct(ino, NDIRECT), {}, 0, fs1, g1)
    requires SlotTakes(sb, fs, g, fs.inodes[ino].addrs[NDIRECT], {}, 0, fs1, g1)
    ensures BmapTakes(sb, fs, g, ino, bn, 0, fs1, g1)
  {
    hide Owned, BitsMatch, Grown, FreeCount;
  }

  lemma BmapIndirectTakes(sb: Super, fs: Fs, g: Book, ino: nat, bn: nat, ind: nat, fs1: Fs, g1: Book,
                          addr: nat, fs2: Fs, g2: Book)
    requires Ok(sb, fs, g, {}) && ino < sb.ninodes && NDIRECT <= bn < MAXFILE && ind != 0
    requires SlotLoaded(sb, fs, g, Direct(ino, NDIRECT), {}, ind, fs1, g1)
    requires SlotTakes(sb, fs, g, fs.inodes[ino].addrs[NDIRECT], {}, ind, fs1, g1)
    requires Ok(sb, fs1, g1, {}) && SlotLoaded(sb, fs1, g1, Indirect(ino, bn - NDIRECT), {ind}, addr, fs2, g2)
    requires SlotTakes(sb, fs1, g1, BlockNo(sb, fs1, ino, bn), {ind}, addr, fs2, g2)
    ensures BmapTakes(sb, fs, g, ino, bn, addr, fs2, g2)
  {
    hide Owned, BitsMatch, SlotLoaded, FreeCount;
    var t := Indirect(ino, bn - NDIRECT);
    LoadedIsData(sb, fs, g, Direct(ino, NDIRECT), {}, ind, fs1, g1);
    LoadedIsData(sb, fs1, g1, t, {ind}, addr, fs2, g2);
    IndirectStays(sb, fs1, g1, t, {ind}, addr, fs2, g2, ino);
    OthersStay(sb, fs, g, Direct(ino, NDIRECT), {}, ind, fs1, g1, ino, bn);
    forall b | 0 <= b < MAXFILE && b != bn ensures BlockNo(sb, fs2, ino, b) == BlockNo(sb, fs, ino, b) {
      OthersStay(sb, fs, g, Direct(ino, NDIRECT), {}, ind, fs1, g1, ino, b);
      OthersStay(sb, fs1, g1, t, {ind}, addr, fs2, g2, ino, b);
    }
    EntryKept(sb, fs1, g1, ino, bn, {ind}, addr, fs2, g2);
  }

  lemma EntryKept(sb: Super, fs: Fs, g: Book, ino: nat, bn: nat, also: set<nat>, addr: nat, fs1: Fs, g1: Book)
    requires Ok(sb, fs, g, {}) && ino < sb.ninodes && NDIRECT <= bn < MAXFILE
    requires SlotLoaded(sb, fs, g, Indirect(ino, bn - NDIRECT), also, addr, fs1, g1)
    ensures BlockNo(sb, fs, ino, bn) != 0 ==> addr == BlockNo(sb, fs, ino, bn)
  {
    hide Owned, BitsMatch, Grown;
  }

  lemma SumWraps(x: nat, y: nat)
    requires x < WORD_LIMIT && y < WORD_LIMIT
    ensures (x + y) % WORD_LIMIT < x <==> x + y >= WORD_LIMIT
  {
  }

  lemma PrefixGrows<T>(c: seq<T>, i: nat, n: nat, r: nat)
    requires i + n <= |c| && r <= n
    ensures c[..i] + c[i..i + n][..r] == c[..i + r]
  {
    assert c[i..i + n][..r] == c[i..i + r];
    assert c[..i] + c[i..i + r] == c[..i + r];
  }

  lemma JoinSlices<T>(c: seq<T>, i: nat, j: nat, k: nat)
    requires i <= j <= k <= |c|
    ensures c[i..j] + c[j..k] == c[i..k]
  {
  }

  /** How far one turn of `readi` or `writei` goes: to the end of the block or of the transfer. */
  function TurnLength(pos: nat, left: nat): (len: nat)
    requires left > 0
    ensures 1 <= len <= left && pos % BSIZE + len <= BSIZE
    ensures len == left || (pos + len) % BSIZE == 0
  {
    if left < BSIZE - pos % BSIZE then left else BSIZE - pos % BSIZE
  }

  /** What `readi` promises about a file with contents `c`. */
  ghost predicate ReadDone(c: seq<Byte>, off: nat, n: nat, room: nat, r: int, out: seq<Byte>) {
    if off > |c| || off + n >= WORD_LIMIT then r == 0 && out == []
    else
      var m := if off + n <= |c| then n else |c| - off;
      && off + |out| <= |c| && out == c[off..off + |out|]
      && (if m <= room then r == m == |out| else r == -1 && |out| <= room)
  }

  lemma PlaceInBlock(pos: nat, i: nat)
    requires pos % BSIZE + i < BSIZE
    ensures (pos + i) / BSIZE == pos / BSIZE && (pos + i) % BSIZE == pos % BSIZE + i
  {
  }

  lemma PresentBlock(sb: Super, fs: Fs, g: Book, ino: nat, pos: nat)
    requires Ok(sb, fs, g, {}) && NoHoles(sb, fs) && ino < sb.ninodes && pos < fs.inodes[ino].size
    ensures pos / BSIZE < MAXFILE && 0 < BlockNo(sb, fs, ino, pos / BSIZE) < sb.size
  {
    var bn := pos / BSIZE;
    assert bn * BSIZE <= pos < MAXFILE * BSIZE;
    assert BlockNo(sb, fs, ino, bn) != 0;
    BlockNoIsData(sb, fs, g.bits, g.owner, ino, bn);
  }

  lemma ByteOfBlock(sb: Super, fs: Fs, ino: nat, pos: nat, i: nat)
    requires Shape(sb, fs) && ino < sb.ninodes && pos / BSIZE < MAXFILE && pos % BSIZE + i < BSIZE
    requires 0 < BlockNo(sb, fs, ino, pos / BSIZE) < sb.size
    ensures (pos + i) / BSIZE < MAXFILE
    ensures FileByte(sb, fs, ino, pos + i) == fs.data[BlockNo(sb, fs, ino, pos / BSIZE)][pos % BSIZE + i]
  {
    hide BlockNo;
    PlaceInBlock(pos, i);
  }

  /** A slice of a block is a slice of the file. */
  lemma ChunkOfFile(sb: Super, fs: Fs, ino: nat, pos: nat, len: nat, c: seq<Byte>, b: Block)
    requires Shape(sb, fs) && ino < sb.ninodes && fs.inodes[ino].size <= MAXFILE * BSIZE
    requires c == Content(sb, fs, ino) && pos + len <= |c| && pos % BSIZE + len <= BSIZE && pos / BSIZE < MAXFILE
    requires 0 < BlockNo(sb, fs, ino, pos / BSIZE) < sb.size && b == fs.data[BlockNo(sb, fs, ino, pos / BSIZE)]
    ensures b[pos % BSIZE..pos % BSIZE + len] == c[pos..pos + len]
  {
    hide BlockNo, FileByte;
    var s, t := b[pos % BSIZE..pos % BSIZE + len], c[pos..pos + len];
    forall i | 0 <= i < len ensures s[i] == t[i] {
      ByteOfBlock(sb, fs, ino, pos, i);
      assert c[pos + i] == FileByte(sb, fs, ino, pos + i);
    }
  }

  /**
   What one turn of `writei` does if the source has the first `part` bytes of its share: these go
   into the block, and the block is logged only if they are all.
   */
  ghost predicate Turned(sb: Super, fs: Fs, g: Book, ino: nat, pos: nat, chunk: seq<Byte>, part: nat,
                         ok: bool, addr: nat, fs': Fs, g': Book)
    requires Ok(sb, fs, g, {}) && ino < sb.ninodes && pos / BSIZE < MAXFILE && part <= |chunk|
  {
    && Ok(sb, fs', g', {}) && Shape(sb, fs')
    && Written(sb, fs, fs', ino, pos, if addr == 0 then [] else chunk[..part])
    && ok == (addr != 0 && part == |chunk|)
    && (addr == 0 ==> forall c :: 0 <= c < sb.size ==> g'.bits[c])
    && (addr != 0 ==> sb.IsData(addr))
    && IndirectBlocks(sb, fs, ino) <= IndirectBlocks(sb, fs', ino)
    && g'.dirtied <= g.dirtied + Charge(sb, addr, BlockNo(sb, fs, ino, pos / BSIZE) == 0) + IndirectBlocks(sb, fs', ino)
  }

  /** The block of a turn and, if it was allocated in this turn, the bitmap block with its bit. */
  ghost function Charge(sb: Super, addr: nat, isNew: bool): set<nat> {
    if addr == 0 then {} else if isNew then {addr, sb.BBlock(addr)} else {addr}
  }

  lemma TurnPuts(sb: Super, fs: Fs, g: Book, ino: nat, pos: nat, chunk: seq<Byte>, part: nat, addr: nat, fs1: Fs,
                 g1: Book)
    requires Ok(sb, fs, g, {}) && ino < sb.ninodes && part <= |chunk|
    requires pos + |chunk| <= MAXFILE * BSIZE && pos / BSIZE < MAXFILE && pos % BSIZE + |chunk| <= BSIZE
    requires addr != 0 && Bmapped(sb, fs, g, ino, pos / BSIZE, addr, fs1, g1)
    ensures sb.IsData(addr)
    ensures Turned(sb, fs, g, ino, pos, chunk, part, part == |chunk|, addr,
                   PutBlock(fs1, addr, Splice(fs1.data[addr], pos % BSIZE, chunk[..part])),
                   if part == |chunk| then g1.(dirtied := g1.dirtied + {addr}) else g1)
  {
    GrownPut(sb, fs, fs1, g1.bits, g1.owner, ino, pos, chunk[..part]);
    BlockNoIsData(sb, fs1, g1.bits, g1.owner, ino, pos / BSIZE);
    StoreMatches(sb, fs1.data, g1.bits, addr, Splice(fs1.data[addr], pos % BSIZE, chunk[..part]));
  }

  /** What the turns of a `writei` have logged: data blocks, bitmap blocks of new data blocks. */
  datatype Ledger = Ledger(touched: set<nat>, maps: set<nat>, turns: nat)

  ghost function NextLedger(sb: Super, t: Ledger, addr: nat, isNew: bool): Ledger {
    Ledger(t.touched + (if addr == 0 then {} else {addr}),
           t.maps + (if addr == 0 || !isNew then {} else {sb.BBlock(addr)}), t.turns + 1)
  }

  /**
   Everything logged is in the ledger or belongs to the indirect block; each turn adds one
   data block and at most one bitmap block, and none if it starts inside a block.
   */
  ghost predicate Charged(sb: Super, ind: set<nat>, off: nat, d0: set<nat>, d: set<nat>, t: Ledger) {
    && d <= d0 + t.touched + t.maps + ind
    && |t.touched| <= t.turns
    && |t.maps| <= (if off % BSIZE != 0 && t.turns > 0 then t.turns - 1 else t.turns)
    && (forall m :: m in t.maps ==> IsMapBlock(sb, m))
  }

  ghost predicate IsMapBlock(sb: Super, m: nat) {
    sb.bmapstart <= m <= sb.bmapstart + sb.size / BPB
  }

  /** Where turn `k` of a transfer starts, for `k > 0`. */
  ghost function TurnStart(off: nat, k: nat): nat {
    (off / BSIZE + k) * BSIZE
  }

  ghost predicate TurnsFit(off: nat, n: nat, turns: nat) {
    turns > 0 ==> TurnStart(off, turns - 1) < off + n
  }

  lemma ChargeTurn(sb: Super, ind: set<nat>, ind': set<nat>, off: nat, d0: set<nat>, d: set<nat>, d': set<nat>,
                   t: Ledger, addr: nat, isNew: bool)
    requires sb.Valid() && addr < sb.size && Charged(sb, ind, off, d0, d, t) && ind <= ind'
    requires d' <= d + Charge(sb, addr, isNew) + ind'
    requires off % BSIZE != 0 && t.turns == 0 ==> !isNew
    ensures Charged(sb, ind', off, d0, d', NextLedger(sb, t, addr, isNew))
  {
    CardSum(t.touched, {addr});
    CardSum(t.maps, {sb.BBlock(addr)});
    assert IsMapBlock(sb, sb.BBlock(addr));
  }

  /** How far a `writei` has come, from (fs0, g0) to (fs, g): `tot` bytes are in the file's blocks. */
  ghost predicate Progress(sb: Super, fs0: Fs, g0: Book, fs: Fs, g: Book, ino: nat, off: nat, src: seq<Byte>,
                           tot: nat, t: Ledger)
  {
    && Ok(sb, fs, g, {}) && Shape(sb, fs) && Shape(sb, fs0) && ino < sb.ninodes && tot <= |src|
    && Written(sb, fs0, fs, ino, off, src[..tot])
    && Charged(sb, IndirectBlocks(sb, fs, ino), off, g0.dirtied, g.dirtied, t)
    && TurnsFit(off, |src|, t.turns) && (t.turns == 0 ==> fs == fs0 && tot == 0)
  }

  lemma ProgressStart(sb: Super, fs: Fs, g: Book, ino: nat, off: nat, src: seq<Byte>)
    requires Ok(sb, fs, g, {}) && ino < sb.ninodes && off <= MAXFILE * BSIZE
    ensures Progress(sb, fs, g, fs, g, ino, off, src, 0, Ledger({}, {}, 0))
  {
    Grows(sb, fs, fs);
    GrownWritesNothing(sb, fs, fs, ino, off);
    assert src[..0] == [];
  }

  lemma ProgressTurn(sb: Super, fs0: Fs, g0: Book, fs: Fs, g: Book, ino: nat, off: nat, src: seq<Byte>,
                     tot: nat, t: Ledger, len: nat, part: nat, ok: bool, addr: nat, fs': Fs, g': Book)
    requires Progress(sb, fs0, g0, fs, g, ino, off, src, tot, t) && tot + len <= |src| && part <= len
    requires NoHoles(sb, fs0) && off <= fs0.inodes[ino].size && (off + tot) / BSIZE < MAXFILE
    requires t.turns == 0 || off + tot == TurnStart(off, t.turns)
    requires 1 <= len && TurnsFit(off, |src|, t.turns + 1)
    requires Turned(sb, fs, g, ino, off + tot, src[tot..tot + len], part, ok, addr, fs', g')
    ensures Progress(sb, fs0, g0, fs', g', ino, off, src, if addr == 0 then tot else tot + part,
                     NextLedger(sb, t, addr, BlockNo(sb, fs, ino, (off + tot) / BSIZE) == 0))
  {
    hide Owned, BitsMatch, Charged, Written, SlotVal, NoHoles;
    var isNew := BlockNo(sb, fs, ino, (off + tot) / BSIZE) == 0;
    if t.turns == 0 && off % BSIZE != 0 {
      FirstBlock(sb, fs0, ino, off);
      assert BlockNo(sb, fs0, ino, off / BSIZE) != 0;
      assert !isNew;
    }
    ChargeTurn(sb, IndirectBlocks(sb, fs, ino), IndirectBlocks(sb, fs', ino), off, g0.dirtied, g.dirtied, g'.dirtied,
               t, addr, isNew);
    var more := if addr == 0 then [] else src[tot..tot + len][..part];
    WrittenTransitive(sb, fs0, fs, fs', ino, off, src[..tot], more);
    PrefixGrows(src, tot, len, part);
    assert src[..tot] + [] == src[..tot];
  }

  lemma TurnArithmetic(off: nat, tot: nat, n: nat, turns: nat, len: nat)
    requires tot < n && off + n <= MAXFILE * BSIZE && (turns == 0 ==> tot == 0)
    requires turns == 0 || off + tot == TurnStart(off, turns)
    requires len == TurnLength(off + tot, n - tot)
    ensures (off + tot) / BSIZE < MAXFILE && TurnsFit(off, n, turns + 1)
    ensures tot + len == n || off + tot + len == TurnStart(off, turns + 1)
  {
    var pos := off + tot;
    assert pos == pos / BSIZE * BSIZE + pos % BSIZE;
    assert pos / BSIZE == off / BSIZE + turns;
  }

  /** A transfer that starts inside a block starts in a block that the file has. */
  lemma FirstBlock(sb: Super, fs: Fs, ino: nat, off: nat)
    requires Shape(sb, fs) && NoHoles(sb, fs) && ino < sb.ninodes && off <= fs.inodes[ino].size
    ensures off / BSIZE < MAXFILE && off % BSIZE != 0 ==> BlockNo(sb, fs, ino, off / BSIZE) != 0
  {
    assert off == off / BSIZE * BSIZE + off % BSIZE;
  }

  function WithSize(fs: Fs, ino: nat, size: nat): Fs
    requires ino < |fs.inodes|
  {
    fs.(inodes := fs.inodes[ino := fs.inodes[ino].(size := size)])
  }

  /** Turns that a transfer of `n` bytes at `off` takes. */
  function Turns(off: nat, n: nat): nat {
    (off % BSIZE + n + BSIZE - 1) / BSIZE
  }

  /** Blocks a `writei` may log: two per turn, the indirect block and its bitmap block, the inode. */
  function WriteCost(off: nat, n: nat): int {
    2 * Turns(off, n) + 3 - if off % BSIZE != 0 && Turns(off, n) > 0 then 1 else 0
  }

  /** A chunk of `filewrite` stays within what one operation may log. */
  lemma FilewriteChunkFits(off: nat, n: nat)
    requires n <= ((LogSpec.MAXOPBLOCKS - 1 - 1 - 2) / 2) * BSIZE
    ensures WriteCost(off, n) <= LogSpec.MAXOPBLOCKS && Turns(off, n) + 3 <= 7
  {
    assert n <= 3072;
    if off % BSIZE == 0 {
      assert Turns(off, n) <= 3;
    } else {
      assert Turns(off, n) <= 4;
    }
  }

  lemma TurnsBound(off: nat, n: nat, turns: nat)
    requires TurnsFit(off, n, turns)
    ensures turns <= Turns(off, n)
  {
    assert off == off / BSIZE * BSIZE + off % BSIZE;
  }

  lemma CardSum(a: set<nat>, b: set<nat>)
    ensures |a + b| <= |a| + |b|
  {
  }

  lemma {:induction false} CardSubset(a: set<nat>, b: set<nat>)
    requires a <= b
    ensures |a| <= |b|
  {
    if a != {} {
      var x :| x in a;
      CardSubset(a - {x}, b - {x});
    }
  }

  lemma LedgerCount(d: set<nat>, touched: set<nat>, maps: set<nat>, a: nat, m: nat, iblock: nat)
    requires d <= touched + maps + {a, m, iblock}
    ensures |d| <= |touched| + |maps| + 3
    ensures maps <= {m} ==> |d| <= |touched| + 3
  {
    CardSubset(d, touched + maps + {a, m, iblock});
    CardSum(touched + maps, {a, m, iblock});
    CardSum(touched, maps);
    if maps <= {m} {
      CardSubset(d, touched + {a, m, iblock});
      CardSum(touched, {a, m, iblock});
    }
  }

  /** The bound on what was logged, from the ledger. */
  lemma LedgerBound(sb: Super, ind: set<nat>, off: nat, n: nat, d0: set<nat>, d: set<nat>, t: Ledger,
                    iblock: nat, a: nat)
    requires sb.Valid() && Charged(sb, ind, off, d0, d, t) && TurnsFit(off, n, t.turns)
    requires ind <= {a, sb.BBlock(a)} && a < sb.size
    ensures |d + {iblock} - d0| <= WriteCost(off, n)
    ensures sb.size < BPB ==> |d + {iblock} - d0| <= Turns(off, n) + 3
  {
    LedgerCount(d + {iblock} - d0, t.touched, t.maps, a, sb.BBlock(a), iblock);
    TurnsBound(off, n, t.turns);
    if sb.size < BPB {
      OneMapBlock(sb, t.maps, a);
    }
  }

  lemma OneMapBlock(sb: Super, maps: set<nat>, a: nat)
    requires sb.Valid() && sb.size < BPB && a < sb.size
    requires forall m :: m in maps ==> IsMapBlock(sb, m)
    ensures maps <= {sb.BBlock(a)}
  {
    assert forall m :: m in maps ==> IsMapBlock(sb, m) && m == sb.bmapstart;
  }

  /** `c` with `bytes` put over it at `off`, longer if they reach past its end. */
  function Spliced(c: seq<Byte>, off: nat, bytes: seq<Byte>): (r: seq<Byte>)
    requires off <= |c|
    ensures |r| == if off + |bytes| < |c| then |c| else off + |bytes|
  {
    c[..off] + bytes + if off + |bytes| < |c| then c[off + |bytes|..] else []
  }

  lemma SplicedTwice(c: seq<Byte>, off: nat, a: seq<Byte>, b: seq<Byte>)
    requires off <= |c|
    ensures Spliced(Spliced(c, off, a), off + |a|, b) == Spliced(c, off, a + b)
  {
  }

  lemma SplicedNothing(c: seq<Byte>, off: nat)
    requires off <= |c|
    ensures Spliced(c, off, []) == c
  {
  }

  /** What `writei` promises: this file spliced, all other files as before. */
  ghost predicate WriteDone(sb: Super, fs: Fs, fs': Fs, ino: nat, off: nat, bytes: seq<Byte>)
    requires Shape(sb, fs) && NoHoles(sb, fs) && Shape(sb, fs') && NoHoles(sb, fs') && ino < sb.ninodes
    requires off <= fs.inodes[ino].size
  {
    && Content(sb, fs', ino) == Spliced(Content(sb, fs, ino), off, bytes)
    && forall i :: 0 <= i < sb.ninodes && i != ino ==> Content(sb, fs', i) == Content(sb, fs, i)
  }

  lemma SizeKeeps(sb: Super, fs: Fs, bits: seq<bool>, owner: map<nat, Slot>, ino: nat, size: nat)
    requires Owned(sb, fs, bits, owner, {}) && ino < sb.ninodes
    ensures Owned(sb, WithSize(fs, ino, size), bits, owner, {})
    ensures forall i, bn :: 0 <= i < sb.ninodes && 0 <= bn < MAXFILE ==>
      BlockNo(sb, WithSize(fs, ino, size), i, bn) == BlockNo(sb, fs, i, bn)
    ensures forall i, k :: 0 <= i < sb.ninodes && 0 <= k < MAXFILE * BSIZE ==>
      FileByte(sb, WithSize(fs, ino, size), i, k) == FileByte(sb, fs, i, k)
  {
    var fs' := WithSize(fs, ino, size);
    assert forall s :: IsSlot(sb, s) ==> SlotVal(sb, fs', s) == SlotVal(sb, fs, s);
  }

  /** The file after the loop, with its size brought up to date. */
  function Resized(fs: Fs, ino: nat, end: nat): Fs
    requires ino < |fs.inodes|
  {
    if end > fs.inodes[ino].size then WithSize(fs, ino, end) else fs
  }

  lemma WrittenHasNoHoles(sb: Super, fs0: Fs, fs: Fs, g: Book, ino: nat, off: nat, bytes: seq<Byte>)
    requires Owned(sb, fs, g.bits, g.owner, {}) && Written(sb, fs0, fs, ino, off, bytes)
    requires NoHoles(sb, fs0) && off <= fs0.inodes[ino].size
    ensures Owned(sb, Resized(fs, ino, off + |bytes|), g.bits, g.owner, {})
    ensures NoHoles(sb, Resized(fs, ino, off + |bytes|))
  {
    var fs' := Resized(fs, ino, off + |bytes|);
    SizeKeeps(sb, fs, g.bits, g.owner, ino, off + |bytes|);
    forall i, bn | 0 <= i < sb.ninodes && 0 <= bn < MAXFILE && bn * BSIZE < fs'.inodes[i].size
      ensures BlockNo(sb, fs', i, bn) != 0
    {
      if bn * BSIZE < fs0.inodes[i].size {
        assert BlockNo(sb, fs0, i, bn) != 0;
      }
    }
  }

  lemma ByteOfContent(sb: Super, fs: Fs, i: nat, k: nat)
    requires Shape(sb, fs) && NoHoles(sb, fs) && i < sb.ninodes && k < fs.inodes[i].size
    ensures k / BSIZE < MAXFILE && Content(sb, fs, i)[k] == FileByte(sb, fs, i, k)
  {
  }

  lemma WrittenContent(sb: Super, fs0: Fs, fs: Fs, g: Book, ino: nat, off: nat, bytes: seq<Byte>)
    requires Owned(sb, fs, g.bits, g.owner, {}) && Written(sb, fs0, fs, ino, off, bytes)
    requires NoHoles(sb, fs0) && off <= fs0.inodes[ino].size
    requires Shape(sb, Resized(fs, ino, off + |bytes|)) && NoHoles(sb, Resized(fs, ino, off + |bytes|))
    ensures WriteDone(sb, fs0, Resized(fs, ino, off + |bytes|), ino, off, bytes)
  {
    hide Owned, BitsMatch, FileByte, BlockNo, SlotVal;
    var fs' := Resized(fs, ino, off + |bytes|);
    SizeKeeps(sb, fs, g.bits, g.owner, ino, off + |bytes|);
    var c, c' := Content(sb, fs0, ino), Content(sb, fs', ino);
    var want := Spliced(c, off, bytes);
    forall k | 0 <= k < |c'| ensures c'[k] == want[k] {
      ByteOfContent(sb, fs', ino, k);
      if k < |c| { ByteOfContent(sb, fs0, ino, k); }
    }
    forall i | 0 <= i < sb.ninodes && i != ino ensures Content(sb, fs', i) == Content(sb, fs0, i) {
      forall k | 0 <= k < fs0.inodes[i].size ensures Content(sb, fs', i)[k] == Content(sb, fs0, i)[k] {
        ByteOfContent(sb, fs', i, k);
        ByteOfContent(sb, fs0, i, k);
      }
    }
  }

  lemma IndirectInRange(sb: Super, fs: Fs, g: Book, ino: nat)
    requires Ok(sb, fs, g, {}) && ino < sb.ninodes
    ensures fs.inodes[ino].addrs[NDIRECT] < sb.size
  {
    assert IsSlot(sb, Direct(ino, NDIRECT));
    assert SlotVal(sb, fs, Direct(ino, NDIRECT)) == fs.inodes[ino].addrs[NDIRECT];
  }

  /** What is seen of a file with contents `c` after `bytes` went into its blocks, but only `r` of them are counted. */
  function Shown(c: seq<Byte>, off: nat, bytes: seq<Byte>, r: nat): (s: seq<Byte>)
    requires off <= |c| && r <= |bytes|
    ensures |s| == if off + r < |c| then |c| else off + r
  {
    Spliced(c, off, bytes)[..if off + r < |c| then |c| else off + r]
  }

  /** What `writei` does to the files. */
  ghost predicate WriteShown(sb: Super, fs: Fs, fs': Fs, ino: nat, off: nat, bytes: seq<Byte>, r: nat)
    requires Shape(sb, fs) && NoHoles(sb, fs) && Shape(sb, fs') && NoHoles(sb, fs') && ino < sb.ninodes
    requires off <= fs.inodes[ino].size && r <= |bytes|
  {
    && Content(sb, fs', ino) == Shown(Content(sb, fs, ino), off, bytes, r)
    && forall i :: 0 <= i < sb.ninodes && i != ino ==> Content(sb, fs', i) == Content(sb, fs, i)
  }

  /** The file shows exactly the counted bytes if and only if the others equal what was there. */
  lemma ShownIs(c: seq<Byte>, off: nat, bytes: seq<Byte>, r: nat)
    requires off <= |c| && r <= |bytes|
    ensures Shown(c, off, bytes, r) == Spliced(c, off, bytes[..r]) <==>
      forall k :: r <= k < |bytes| && off + k < |c| ==> bytes[k] == c[off + k]
  {
    var a, b := Shown(c, off, bytes, r), Spliced(c, off, bytes[..r]);
    forall k | r <= k < |bytes| && off + k < |c| ensures a[off + k] == bytes[k] && b[off + k] == c[off + k] {
    }
    if forall k :: r <= k < |bytes| && off + k < |c| ==> bytes[k] == c[off + k] {
      forall i | 0 <= i < |a| ensures a[i] == b[i] {
        if off + r <= i < off + |bytes| { assert bytes[i - off] == c[off + (i - off)]; }
      }
    }
  }

  /** A smaller size shows a prefix and leaves no hole. */
  lemma Shorter(sb: Super, fs: Fs, bits: seq<bool>, owner: map<nat, Slot>, ino: nat, end: nat, end': nat)
    requires Shape(sb, fs) && Owned(sb, fs, bits, owner, {}) && ino < sb.ninodes && end' <= end
    requires NoHoles(sb, Resized(fs, ino, end))
    ensures Owned(sb, Resized(fs, ino, end'), bits, owner, {}) && NoHoles(sb, Resized(fs, ino, end'))
    ensures Resized(fs, ino, end').inodes[ino].size <= Resized(fs, ino, end).inodes[ino].size
    ensures Content(sb, Resized(fs, ino, end'), ino) ==
            Content(sb, Resized(fs, ino, end), ino)[..Resized(fs, ino, end').inodes[ino].size]
    ensures forall i :: 0 <= i < sb.ninodes && i != ino ==>
      Content(sb, Resized(fs, ino, end'), i) == Content(sb, Resized(fs, ino, end), i)
  {
    hide Owned, FileByte, BlockNo, Content, NoHoles;
    SizeKeeps(sb, fs, bits, owner, ino, end);
    SizeKeeps(sb, fs, bits, owner, ino, end');
    var a, b := Resized(fs, ino, end), Resized(fs, ino, end');
    forall i | 0 <= i < sb.ninodes ensures b.inodes[i].size <= a.inodes[i].size { }
    FewerBlocks(sb, a, b);
    forall i | 0 <= i < sb.ninodes ensures |Content(sb, a, i)| == a.inodes[i].size { WholeContent(sb, a, i); }
    forall i | 0 <= i < sb.ninodes
      ensures Content(sb, b, i) == Content(sb, a, i)[..b.inodes[i].size]
    {
      PrefixShown(sb, a, b, i);
    }
    forall i | 0 <= i < sb.ninodes && i != ino ensures Content(sb, b, i) == Content(sb, a, i) {
      WholeContent(sb, a, i);
    }
  }

  lemma FewerBlocks(sb: Super, a: Fs, b: Fs)
    requires Shape(sb, a) && Shape(sb, b) && NoHoles(sb, a)
    requires forall i :: 0 <= i < sb.ninodes ==> b.inodes[i].size <= a.inodes[i].size
    requires forall i, bn :: 0 <= i < sb.ninodes && 0 <= bn < MAXFILE ==> BlockNo(sb, b, i, bn) == BlockNo(sb, a, i, bn)
    ensures NoHoles(sb, b) && forall i :: 0 <= i < sb.ninodes ==> b.inodes[i].size <= a.inodes[i].size <= MAXFILE * BSIZE
  {
    hide BlockNo;
    forall i, bn | 0 <= i < sb.ninodes && 0 <= bn < MAXFILE && bn * BSIZE < b.inodes[i].size
      ensures BlockNo(sb, b, i, bn) != 0
    {
      assert BlockNo(sb, b, i, bn) == BlockNo(sb, a, i, bn);
    }
  }

  lemma PrefixShown(sb: Super, a: Fs, b: Fs, i: nat)
    requires Shape(sb, a) && Shape(sb, b) && i < sb.ninodes && b.inodes[i].size <= a.inodes[i].size <= MAXFILE * BSIZE
    requires forall i, k :: 0 <= i < sb.ninodes && 0 <= k < MAXFILE * BSIZE ==> FileByte(sb, b, i, k) == FileByte(sb, a, i, k)
    ensures Content(sb, b, i) == Content(sb, a, i)[..b.inodes[i].size]
  {
    hide FileByte;
  }

  lemma WholeContent(sb: Super, a: Fs, i: nat)
    requires Shape(sb, a) && i < sb.ninodes && a.inodes[i].size <= MAXFILE * BSIZE
    ensures |Content(sb, a, i)| == a.inodes[i].size && Content(sb, a, i)[..a.inodes[i].size] == Content(sb, a, i)
  {
    hide FileByte;
  }

  lemma WriteEnds(sb: Super, fs0: Fs, g0: Book, fs: Fs, g: Book, ino: nat, off: nat, src: seq<Byte>, all: nat,
                  t: Ledger, tot: nat)
    requires Progress(sb, fs0, g0, fs, g, ino, off, src, all, t) && tot <= all
    requires NoHoles(sb, fs0) && off <= fs0.inodes[ino].size
    ensures var fs' := Resized(fs, ino, off + tot);
      Ok(sb, fs', g, {}) && NoHoles(sb, fs') && WriteShown(sb, fs0, fs', ino, off, src[..all], tot)
    ensures |g.dirtied + {sb.IBlock(ino)} - g0.dirtied| <= WriteCost(off, |src|)
    ensures sb.size < BPB ==> |g.dirtied + {sb.IBlock(ino)} - g0.dirtied| <= Turns(off, |src|) + 3
  {
    hide Owned, BitsMatch, Written, Charged, NoHoles, WriteCost, Turns, SlotVal, Content, TurnsFit, Spliced;
    WrittenHasNoHoles(sb, fs0, fs, g, ino, off, src[..all]);
    WrittenContent(sb, fs0, fs, g, ino, off, src[..all]);
    Shorter(sb, fs, g.bits, g.owner, ino, off + all, off + tot);
    SameSizes(sb, fs0, fs, ino, off, src[..all]);
    OldContent(sb, fs0, ino);
    var a := fs.inodes[ino].addrs[NDIRECT];
    IndirectInRange(sb, fs, g, ino);
    LedgerBound(sb, IndirectBlocks(sb, fs, ino), off, |src|, g0.dirtied, g.dirtied, t, sb.IBlock(ino), a);
  }

  lemma OldContent(sb: Super, fs: Fs, ino: nat)
    requires Shape(sb, fs) && NoHoles(sb, fs) && ino < sb.ninodes
    ensures |Content(sb, fs, ino)| == fs.inodes[ino].size
  {
  }

  lemma SameSizes(sb: Super, fs0: Fs, fs: Fs, ino: nat, pos: nat, bytes: seq<Byte>)
    requires Written(sb, fs0, fs, ino, pos, bytes)
    ensures fs.inodes[ino].size == fs0.inodes[ino].size
  {
  }

  /**
   A truncation on its way from (fs0, g0): exactly the blocks of the slots in `done` have been
   freed, and only bitmap blocks have been written.
   */
  /** Every block that differs is logged. */
  ghost predicate AllLogged(sb: Super, fs: Fs, fs': Fs, dirtied: set<nat>) {
    && |fs.data| == |fs'.data| == sb.size
    && forall a :: 0 <= a < sb.size && fs'.data[a] != fs.data[a] ==> a in dirtied
  }

  /** Bitmap block `m` has the bit of a block of one of these slots. */
  ghost predicate FreedIn(sb: Super, owner: map<nat, Slot>, done: set<Slot>, m: nat) {
    exists b :: b in owner && owner[b] in done && sb.BBlock(b) == m
  }

  ghost predicate Freeing(sb: Super, fs0: Fs, g0: Book, fs: Fs, g: Book, ino: nat, done: set<Slot>) {
    && Shape(sb, fs0) && Shape(sb, fs) && BitsMatch(sb, fs.data, g.bits) && |g0.bits| == |g.bits| == sb.size
    && g.owner == g0.owner
    && (forall s :: s in done ==> s.ino == ino)
    && (forall a :: 0 <= a < sb.size && sb.IsData(a) ==> fs.data[a] == fs0.data[a])
    && (forall b :: 0 <= b < sb.size ==> g.bits[b] == (g0.bits[b] && !(b in g0.owner && g0.owner[b] in done)))
    && (forall m :: m in g.dirtied <==> m in g0.dirtied || FreedIn(sb, g0.owner, done, m))
    && AllLogged(sb, fs0, fs, g.dirtied)
  }

  lemma DataIsNotZero(sb: Super, fs: Fs)
    requires Shape(sb, fs)
    ensures !sb.IsData(0)
  {
  }

  lemma OwnerIff(sb: Super, fs: Fs, g: Book, s: Slot)
    requires Ok(sb, fs, g, {}) && IsSlot(sb, s)
    ensures SlotVal(sb, fs, s) != 0 ==> sb.IsData(SlotVal(sb, fs, s)) && SlotVal(sb, fs, s) in g.owner
    ensures 0 !in g.owner && forall c :: c in g.owner ==> (g.owner[c] == s <==> c == SlotVal(sb, fs, s))
  {
    hide BitsMatch, SlotVal, IsSlot, Shape;
    DataIsNotZero(sb, fs);
    assert SlotVal(sb, fs, s) != 0 ==> g.owner[SlotVal(sb, fs, s)] == s;
    assert 0 !in g.owner;
  }

  lemma FreeingStep(sb: Super, fs0: Fs, g0: Book, fs: Fs, g: Book, s: Slot, done: set<Slot>)
    requires Ok(sb, fs0, g0, {}) && IsSlot(sb, s) && s !in done && Freeing(sb, fs0, g0, fs, g, s.ino, done)
    requires SlotVal(sb, fs0, s) != 0 && g0.bits[SlotVal(sb, fs0, s)]
    ensures var b := SlotVal(sb, fs0, s);
      && b < sb.size && g.bits[b]
      && Freeing(sb, fs0, g0, fs.(data := SetBit(sb, fs.data, b, false)),
                 g.(bits := g.bits[b := false], dirtied := g.dirtied + {sb.BBlock(b)}), s.ino, done + {s})
  {
    hide Owned, SlotVal, Bit, SetBit, BitsMatch;
    var b := SlotVal(sb, fs0, s);
    OwnerIff(sb, fs0, g0, s);
    BBlockIsNotData(sb, b);
    MarkMatches(sb, fs.data, g.bits, b, false);
    SetBitElsewhere(sb, fs.data, b);
    forall m ensures FreedIn(sb, g0.owner, done + {s}, m) <==> FreedIn(sb, g0.owner, done, m) || m == sb.BBlock(b) {
      if m == sb.BBlock(b) { assert g0.owner[b] == s; }
    }
  }

  lemma SetBitElsewhere(sb: Super, d: Data, b: nat)
    requires sb.Valid() && |d| == sb.size && b < sb.size
    ensures sb.BBlock(b) < sb.size && |SetBit(sb, d, b, false)| == sb.size
    ensures forall a :: 0 <= a < sb.size && a != sb.BBlock(b) ==> SetBit(sb, d, b, false)[a] == d[a]
  {
  }

  lemma FreeingNothing(sb: Super, fs0: Fs, g0: Book, fs: Fs, g: Book, s: Slot, done: set<Slot>)
    requires Ok(sb, fs0, g0, {}) && IsSlot(sb, s) && Freeing(sb, fs0, g0, fs, g, s.ino, done)
    requires SlotVal(sb, fs0, s) == 0
    ensures Freeing(sb, fs0, g0, fs, g, s.ino, done + {s})
  {
    hide Owned, BitsMatch, SlotVal;
    OwnerIff(sb, fs0, g0, s);
    assert forall c :: c in g0.owner ==> g0.owner[c] != s;
    forall m ensures FreedIn(sb, g0.owner, done + {s}, m) <==> FreedIn(sb, g0.owner, done, m) {
    }
  }

  lemma FreeingStarts(sb: Super, fs: Fs, g: Book, ino: nat)
    requires Ok(sb, fs, g, {})
    ensures Freeing(sb, fs, g, fs, g, ino, {})
  {
  }

  lemma DirectVal(sb: Super, fs: Fs, ino: nat, i: nat)
    requires Shape(sb, fs) && ino < sb.ninodes && i <= NDIRECT
    ensures SlotVal(sb, fs, Direct(ino, i)) == fs.inodes[ino].addrs[i]
  {
  }

  lemma IndirectVal(sb: Super, fs: Fs, g: Book, ino: nat, j: nat)
    requires Ok(sb, fs, g, {}) && ino < sb.ninodes && j < NINDIRECT && fs.inodes[ino].addrs[NDIRECT] != 0
    ensures var ind := fs.inodes[ino].addrs[NDIRECT];
      sb.IsData(ind) && SlotVal(sb, fs, Indirect(ino, j)) == Word(fs.data[ind], j)
  {
    assert SlotVal(sb, fs, Direct(ino, NDIRECT)) == fs.inodes[ino].addrs[NDIRECT];
  }

  /** An inode whose first `k` block numbers have been cleared. */
  function Cleared(ip: Inode, k: nat): Inode
    requires |ip.addrs| == NDIRECT + 1
  {
    ip.(addrs := seq(NDIRECT + 1, x requires 0 <= x <= NDIRECT => if x < k then 0 else ip.addrs[x]))
  }

  lemma ClearedNext(ip: Inode, k: nat)
    requires |ip.addrs| == NDIRECT + 1 && k <= NDIRECT
    ensures Cleared(ip, 0) == ip
    ensures Cleared(ip, k).(addrs := Cleared(ip, k).addrs[k := 0]) == Cleared(ip, k + 1)
  {
    assert Cleared(ip, 0).addrs == ip.addrs;
    assert Cleared(ip, k).addrs[k := 0] == Cleared(ip, k + 1).addrs;
  }

  lemma NothingLeft(sb: Super, fs: Fs, ino: nat, done: set<Slot>)
    requires Shape(sb, fs) && ino < sb.ninodes
    requires forall i :: 0 <= i < NDIRECT ==> Direct(ino, i) in done
    requires fs.inodes[ino].addrs[NDIRECT] != 0 ==>
      Direct(ino, NDIRECT) in done && forall j :: 0 <= j < NINDIRECT ==> Indirect(ino, j) in done
    ensures forall s :: IsSlot(sb, s) && s.ino == ino && SlotVal(sb, fs, s) != 0 ==> s in done
  {
  }

  /** When every block of the inode has been freed, emptying the inode restores the invariant. */
  lemma FreeingDone(sb: Super, fs0: Fs, g0: Book, fs: Fs, g: Book, ino: nat, done: set<Slot>)
    requires Ok(sb, fs0, g0, {}) && NoHoles(sb, fs0) && ino < sb.ninodes && Freeing(sb, fs0, g0, fs, g, ino, done)
    requires forall s :: IsSlot(sb, s) && s.ino == ino && SlotVal(sb, fs0, s) != 0 ==> s in done
    requires fs.inodes == fs0.inodes[ino := fs.inodes[ino]]
    ensures var fs' := fs.(inodes := fs.inodes[ino := EMPTY_INODE]);
      && Ok(sb, fs', g.(owner := Without(g.owner, ino)), {}) && NoHoles(sb, fs')
      && (forall i :: 0 <= i < sb.ninodes && i != ino ==> Content(sb, fs', i) == Content(sb, fs0, i))
    ensures forall b :: 0 <= b < sb.size ==>
      g.bits[b] == (g0.bits[b] && !(b in g0.owner && g0.owner[b].ino == ino))
  {
    hide Content, NoHoles, SlotVal, IsSlot;
    var fs' := fs.(inodes := fs.inodes[ino := EMPTY_INODE]);
    assert fs'.inodes == fs0.inodes[ino := EMPTY_INODE];
    FreedBits(sb, fs0, g0, fs, g, ino, done);
    TruncateKeeps(sb, fs0, fs.data, g0.bits, g.bits, g0.owner, ino);
    OthersKeep(sb, fs0, g0, fs', ino);
  }

  ghost function SlotsOf(owner: map<nat, Slot>, ino: nat): set<Slot> {
    set b | b in owner && owner[b].ino == ino :: owner[b]
  }

  /** The blocks whose bits changed are those of the inode's blocks. */
  lemma FreedBlocks(sb: Super, fs0: Fs, g0: Book, fs: Fs, g: Book, ino: nat, done: set<Slot>, m: nat)
    requires Ok(sb, fs0, g0, {}) && ino < sb.ninodes && Freeing(sb, fs0, g0, fs, g, ino, done)
    requires forall s :: IsSlot(sb, s) && s.ino == ino && SlotVal(sb, fs0, s) != 0 ==> s in done
    ensures FreedIn(sb, g0.owner, done, m) <==> FreedIn(sb, g0.owner, SlotsOf(g0.owner, ino), m)
  {
    hide SlotVal, IsSlot, BitsMatch, Shape, Owned;
    forall b | b in g0.owner ensures g0.owner[b] in done <==> g0.owner[b].ino == ino { OwnedSlot(sb, fs0, g0, b); }
    forall b | b in g0.owner ensures g0.owner[b] in SlotsOf(g0.owner, ino) <==> g0.owner[b].ino == ino {
    }
  }

  /** The bits of exactly the blocks of the inode are clear. */
  lemma FreedBits(sb: Super, fs0: Fs, g0: Book, fs: Fs, g: Book, ino: nat, done: set<Slot>)
    requires Ok(sb, fs0, g0, {}) && ino < sb.ninodes && Freeing(sb, fs0, g0, fs, g, ino, done)
    requires forall s :: IsSlot(sb, s) && s.ino == ino && SlotVal(sb, fs0, s) != 0 ==> s in done
    ensures forall b :: 0 <= b < sb.size ==> g.bits[b] == (g0.bits[b] && !(b in g0.owner && g0.owner[b].ino == ino))
  {
    hide SlotVal, IsSlot, BitsMatch, Shape, Owned;
    forall b | b in g0.owner ensures g0.owner[b] in done <==> g0.owner[b].ino == ino { OwnedSlot(sb, fs0, g0, b); }
  }

  lemma OwnedSlot(sb: Super, fs: Fs, g: Book, b: nat)
    requires Ok(sb, fs, g, {}) && b in g.owner
    ensures Shape(sb, fs) && IsSlot(sb, g.owner[b]) && SlotVal(sb, fs, g.owner[b]) == b && b != 0
  {
    hide SlotVal, IsSlot, BitsMatch;
    BBlockIsNotData(sb, 0);
  }

  lemma OthersKeep(sb: Super, fs0: Fs, g0: Book, fs': Fs, ino: nat)
    requires Ok(sb, fs0, g0, {}) && NoHoles(sb, fs0) && ino < sb.ninodes && Shape(sb, fs')
    requires fs'.inodes == fs0.inodes[ino := EMPTY_INODE]
    requires forall a :: 0 <= a < sb.size && sb.IsData(a) ==> fs'.data[a] == fs0.data[a]
    ensures NoHoles(sb, fs')
    ensures forall i :: 0 <= i < sb.ninodes && i != ino ==> Content(sb, fs', i) == Content(sb, fs0, i)
  {
    SlotsKeep(sb, fs0, fs'.data, g0.bits, g0.owner, {});
    forall i, bn | 0 <= i < sb.ninodes && i != ino && 0 <= bn < MAXFILE
      ensures BlockNo(sb, fs', i, bn) == BlockNo(sb, fs0, i, bn)
    {
      assert SlotVal(sb, Fs(fs'.data, fs0.inodes), SlotFor(i, bn)) == SlotVal(sb, fs0, SlotFor(i, bn));
    }
    forall i | 0 <= i < sb.ninodes && i != ino ensures Content(sb, fs', i) == Content(sb, fs0, i) {
      forall k | 0 <= k < fs0.inodes[i].size ensures Content(sb, fs', i)[k] == Content(sb, fs0, i)[k] {
        PresentBlock(sb, fs0, g0, i, k);
        BlockNoIsData(sb, fs0, g0.bits, g0.owner, i, k / BSIZE);
      }
    }
  }

  /** `WriteDone`, with what it needs. */
  ghost predicate Rewritten(sb: Super, fs: Fs, fs': Fs, ino: nat, off: nat, bytes: seq<Byte>) {
    && Shape(sb, fs) && NoHoles(sb, fs) && Shape(sb, fs') && NoHoles(sb, fs') && ino < sb.ninodes
    && off <= fs.inodes[ino].size && WriteDone(sb, fs, fs', ino, off, bytes)
  }

  lemma RewrittenStart(sb: Super, fs: Fs, ino: nat, off: nat)
    requires Shape(sb, fs) && NoHoles(sb, fs) && ino < sb.ninodes && off <= fs.inodes[ino].size
    ensures Rewritten(sb, fs, fs, ino, off, [])
  {
    SplicedNothing(Content(sb, fs, ino), off);
  }

  lemma RewrittenMore(sb: Super, fs0: Fs, fs1: Fs, fs2: Fs, ino: nat, off: nat, a: seq<Byte>, b: seq<Byte>)
    requires Shape(sb, fs1) && NoHoles(sb, fs1) && Shape(sb, fs2) && NoHoles(sb, fs2) && ino < sb.ninodes
    requires off + |a| <= fs1.inodes[ino].size && WriteDone(sb, fs1, fs2, ino, off + |a|, b)
    requires Rewritten(sb, fs0, fs1, ino, off, a)
    ensures Rewritten(sb, fs0, fs2, ino, off, a + b)
  {
    hide FileByte, BlockNo;
    SplicedTwice(Content(sb, fs0, ino), off, a, b);
    forall i | 0 <= i < sb.ninodes && i != ino ensures Content(sb, fs2, i) == Content(sb, fs0, i) {
      assert Content(sb, fs2, i) == Content(sb, fs1, i) == Content(sb, fs0, i);
    }
  }
}
